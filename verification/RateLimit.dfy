/** The rate-limit budgeter: refilling token buckets, a priority queue per exchange,
    ceiling halving and back-off (aimos/data/ratelimit.py). Time is in seconds. */
module RateLimit {
  import opened Numerics
  import opened Schemas

  // --------------------------------------------------------------------------
  // One bucket
  // --------------------------------------------------------------------------

  /** The length of the refill window. */
  type Window = w: real | w > 0.0 witness 60.0

  datatype Bucket = Bucket(base: real, window: Window, capacity: real, tokens: real, last: real)

  /** dt seconds of refill at the rate that fills a capacity once per window. */
  function Refilled(capacity: real, window: Window, dt: real): real
  {
    dt * (capacity / window)
  }

  function Refill(b: Bucket, now: real): Bucket
  {
    if now - b.last <= 0.0 then b
    else b.(tokens := Min(b.capacity, b.tokens + Refilled(b.capacity, b.window, now - b.last)), last := now)
  }

  function Consume(b: Bucket, now: real, cost: real): (Bucket, bool)
  {
    var r := Refill(b, now);
    if r.tokens >= cost then (r.(tokens := r.tokens - cost), true) else (r, false)
  }

  function SetCeiling(b: Bucket, fraction: real): Bucket {
    var capacity := b.base * fraction;
    b.(capacity := capacity, tokens := Min(b.tokens, capacity))
  }

  predicate Sound(b: Bucket) {
    0.0 <= b.tokens <= b.capacity <= b.base
  }

  /** Sound, and under a ceiling of at most cap. */
  predicate Under(b: Bucket, cap: real) {
    Sound(b) && b.capacity <= cap
  }

  /** What a bucket under cap could hold by time t, refilling at the rate of cap. */
  function Level(b: Bucket, cap: real, t: real): real
  {
    Min(cap, b.tokens + Refilled(cap, b.window, if t > b.last then t - b.last else 0.0))
  }

  lemma RefilledMonotone(c: real, c': real, window: Window, dt: real)
    requires 0.0 <= c <= c' && dt >= 0.0
    ensures 0.0 <= Refilled(c, window, dt) <= Refilled(c', window, dt)
  {
    assert c / window <= c' / window;
    assert c / window >= 0.0;
    MulMonotone(dt, c / window, c' / window);
    MulSign(dt, c / window);
  }

  lemma RefilledSum(c: real, window: Window, a: real, b: real)
    ensures Refilled(c, window, a) + Refilled(c, window, b) == Refilled(c, window, a + b)
    ensures Refilled(c, window, 0.0) == 0.0
  {
  }

  lemma LevelBounds(b: Bucket, cap: real, t: real)
    requires Under(b, cap)
    ensures 0.0 <= b.tokens <= Level(b, cap, t) <= cap
  {
    RefilledMonotone(0.0, cap, b.window, if t > b.last then t - b.last else 0.0);
    RefilledMonotone(cap, cap, b.window, if t > b.last then t - b.last else 0.0);
  }

  lemma RefillLowersLevel(b: Bucket, cap: real, now: real)
    requires Under(b, cap)
    ensures Under(Refill(b, now), cap) && Level(Refill(b, now), cap, now) <= Level(b, cap, now)
  {
    RefilledSum(cap, b.window, 0.0, 0.0);
    if now > b.last {
      RefilledMonotone(b.capacity, cap, b.window, now - b.last);
    }
  }

  /** A grant comes out of the level. */
  lemma ConsumeLowersLevel(b: Bucket, cap: real, now: real, cost: real)
    requires Under(b, cap) && cost >= 0.0
    ensures var (b', ok) := Consume(b, now, cost);
            && Under(b', cap) && b'.base == b.base && b'.window == b.window
            && Level(b', cap, now) + (if ok then cost else 0.0) <= Level(b, cap, now)
  {
    RefillLowersLevel(b, cap, now);
    var r := Refill(b, now);
    RefilledSum(cap, b.window, 0.0, 0.0);
    LevelBounds(r, cap, now);
  }

  lemma FractionWithin(a: real, fraction: real)
    requires a >= 0.0 && 0.0 <= fraction <= 1.0
    ensures 0.0 <= a * fraction <= a
  {
    MulSign(a, fraction);
    MulSign(a, 1.0 - fraction);
  }

  lemma CapacityIsUnder(b: Bucket, cap: real, capacity: real)
    requires Sound(b) && 0.0 <= capacity <= b.base && capacity <= cap
    ensures Under(b.(capacity := capacity, tokens := Min(b.tokens, capacity)), cap)
  {
  }

  lemma CeilingIsUnder(b: Bucket, cap: real, fraction: real)
    requires Sound(b) && 0.0 <= fraction <= 1.0 && b.base * fraction <= cap
    ensures Under(SetCeiling(b, fraction), cap)
  {
    FractionWithin(b.base, fraction);
    CapacityIsUnder(b, cap, b.base * fraction);
  }

  /** Moving the ceiling within cap never raises the level, whichever way it moves. */
  lemma CeilingLowersLevel(b: Bucket, cap: real, fraction: real, t: real)
    requires Under(b, cap) && 0.0 <= fraction <= 1.0 && b.base * fraction <= cap
    ensures var b' := SetCeiling(b, fraction);
            Under(b', cap) && b'.base == b.base && b'.window == b.window && Level(b', cap, t) <= Level(b, cap, t)
  {
    CeilingIsUnder(b, cap, fraction);
  }

  lemma CeilingIsSound(b: Bucket, fraction: real)
    requires Sound(b) && 0.0 <= fraction <= 1.0
    ensures Sound(SetCeiling(b, fraction))
  {
    FractionWithin(b.base, fraction);
    CeilingIsUnder(b, b.base, fraction);
  }

  /** The level rises at no more than the rate of cap. */
  lemma LevelRises(b: Bucket, cap: real, t: real, t': real)
    requires Under(b, cap) && t <= t'
    ensures Level(b, cap, t') <= Level(b, cap, t) + Refilled(cap, b.window, t' - t)
  {
    var d := if t > b.last then t - b.last else 0.0;
    var d' := if t' > b.last then t' - b.last else 0.0;
    RefilledSum(cap, b.window, d, d' - d);
    RefilledSum(cap, b.window, d' - d, (t' - t) - (d' - d));
    RefilledMonotone(0.0, cap, b.window, (t' - t) - (d' - d));
    RefilledMonotone(0.0, cap, b.window, t' - t);
    RefilledMonotone(0.0, cap, b.window, d' - d);
  }

  // --------------------------------------------------------------------------
  // The budgeter's state
  // --------------------------------------------------------------------------

  /** (exchange, weight class) */
  type Key = (string, string)

  datatype Pending = Pending(rank: nat, seqNo: nat, cost: real, weightClass: string)

  datatype Metrics = Metrics(granted: nat, queued: nat, throttled: nat)

  datatype State = State(
    ranks: map<string, nat>,
    halveSeconds: real,
    buckets: map<Key, Bucket>,
    queues: map<string, seq<Pending>>,
    throttledUntil: map<string, Option<real>>,
    halvedUntil: map<string, Option<real>>,
    nextSeq: nat,
    metrics: Metrics)

  /** Earlier classes rank lower, which is a higher priority; unknown classes rank last. */
  function RankOf(ranks: map<string, nat>, weightClass: string): nat {
    if weightClass in ranks then ranks[weightClass] else |ranks|
  }

  /** The ranks of a list of classes; of a class listed twice, the later. */
  function RanksOf(classes: seq<string>): map<string, nat> {
    if classes == [] then map[] else RanksOf(classes[..|classes| - 1])[classes[|classes| - 1] := |classes| - 1]
  }

  /** p is served before q. */
  predicate Precedes(p: Pending, q: Pending) {
    p.rank < q.rank || (p.rank == q.rank && p.seqNo < q.seqNo)
  }

  ghost predicate Ordered(queue: seq<Pending>) {
    forall i, j :: 0 <= i < j < |queue| ==> Precedes(queue[i], queue[j])
  }

  /** The heap, kept as the sequence in which it would be popped. */
  function Push(queue: seq<Pending>, p: Pending): (r: seq<Pending>)
    ensures |r| == |queue| + 1
  {
    if queue == [] || Precedes(p, queue[0]) then [p] + queue
    else [queue[0]] + Push(queue[1..], p)
  }

  ghost predicate ValidQueue(s: State, ex: string)
    requires ex in s.queues
  {
    && Ordered(s.queues[ex])
    && forall p :: p in s.queues[ex] ==>
         && p.seqNo < s.nextSeq && p.cost >= 0.0
         && (ex, p.weightClass) in s.buckets && p.rank == RankOf(s.ranks, p.weightClass)
  }

  ghost predicate Valid(s: State) {
    && (forall k :: k in s.buckets ==> Sound(s.buckets[k]) && k.0 in s.queues)
    && (forall ex :: ex in s.queues ==> ValidQueue(s, ex))
  }

  /** The wait named in a map of waits, if there is one. */
  function Until(waits: map<string, Option<real>>, ex: string): Option<real> {
    if ex in waits then waits[ex] else None
  }

  predicate BackingOff(s: State, ex: string, now: real) {
    Until(s.throttledUntil, ex).Some? && now < Until(s.throttledUntil, ex).value
  }

  /** Every bucket of one exchange under a new ceiling. */
  function WithCeiling(buckets: map<Key, Bucket>, ex: string, fraction: real): map<Key, Bucket> {
    map k | k in buckets :: if k.0 == ex then SetCeiling(buckets[k], fraction) else buckets[k]
  }

  // --------------------------------------------------------------------------
  // The operations
  // --------------------------------------------------------------------------

  /** Setup: a full bucket for a weight class, and a queue for its exchange. */
  function Register(s: State, ex: string, weightClass: string, capacity: real, window: Window, now: real): State {
    s.(buckets := s.buckets[(ex, weightClass) := Bucket(capacity, window, capacity, capacity, now)],
       queues := if ex in s.queues then s.queues else s.queues[ex := []])
  }

  function MaybeRestore(s: State, ex: string, now: real): State {
    var until := Until(s.halvedUntil, ex);
    if until.Some? && now >= until.value then
      s.(halvedUntil := s.halvedUntil[ex := None], buckets := WithCeiling(s.buckets, ex, 1.0))
    else s
  }

  function NoteThrottle(s: State, ex: string, retryAfter: Option<real>, now: real): State {
    s.(metrics := s.metrics.(throttled := s.metrics.throttled + 1),
       halvedUntil := s.halvedUntil[ex := Some(now + s.halveSeconds)],
       buckets := WithCeiling(s.buckets, ex, 0.5),
       throttledUntil := s.throttledUntil[ex := Some(now + if retryAfter.Some? then retryAfter.value else 1.0)])
  }

  datatype Answer = Granted | Queued | NoBucket

  function Enqueue(s: State, ex: string, weightClass: string, cost: real): State
    requires ex in s.queues
  {
    var p := Pending(RankOf(s.ranks, weightClass), s.nextSeq, cost, weightClass);
    s.(queues := s.queues[ex := Push(s.queues[ex], p)],
       nextSeq := s.nextSeq + 1,
       metrics := s.metrics.(queued := s.metrics.queued + 1))
  }

  /** Higher-priority work is already waiting. */
  predicate Blocked(ranks: map<string, nat>, queue: seq<Pending>, weightClass: string) {
    queue != [] && queue[0].rank < RankOf(ranks, weightClass)
  }

  function CountGrant(m: Metrics): Metrics {
    m.(granted := m.granted + 1)
  }

  /** The state after the bucket has been asked for cost, granted or not. */
  function Asked(s: State, key: Key, cost: real, now: real): State
    requires key in s.buckets
  {
    s.(buckets := s.buckets[key := Consume(s.buckets[key], now, cost).0])
  }

  function AskOrEnqueue(s: State, ex: string, weightClass: string, cost: real, now: real): (State, Answer)
    requires (ex, weightClass) in s.buckets && ex in s.queues
  {
    var a := Asked(s, (ex, weightClass), cost, now);
    if Consume(s.buckets[(ex, weightClass)], now, cost).1 then (a.(metrics := CountGrant(a.metrics)), Granted)
    else (Enqueue(a, ex, weightClass, cost), Queued)
  }

  function Acquire(s: State, ex: string, weightClass: string, cost: real, now: real): (State, Answer)
    requires Valid(s)
  {
    var r := MaybeRestore(s, ex, now);
    var key := (ex, weightClass);
    if key !in r.buckets then (r, NoBucket)
    else if Blocked(r.ranks, r.queues[ex], weightClass) || BackingOff(r, ex, now)
    then (Enqueue(r, ex, weightClass, cost), Queued)
    else AskOrEnqueue(r, ex, weightClass, cost, now)
  }

  /** Serve the head of the queue for as long as its bucket can pay; n heads are served. */
  function Serve(buckets: map<Key, Bucket>, ex: string, queue: seq<Pending>, now: real): (r: (map<Key, Bucket>, nat))
    requires forall p :: p in queue ==> (ex, p.weightClass) in buckets
    ensures r.1 <= |queue| && r.0.Keys == buckets.Keys
    decreases |queue|
  {
    if queue == [] then (buckets, 0)
    else
      var key := (ex, queue[0].weightClass);
      var (b, ok) := Consume(buckets[key], now, queue[0].cost);
      if ok then
        var (rest, n) := Serve(buckets[key := b], ex, queue[1..], now);
        (rest, n + 1)
      else (buckets[key := b], 0)
  }

  /** The buckets once the first n heads have been served, if all of them could be. */
  ghost function AfterTurns(buckets: map<Key, Bucket>, ex: string, queue: seq<Pending>, n: nat, now: real)
    : (r: Option<map<Key, Bucket>>)
    requires n <= |queue| && forall p :: p in queue ==> (ex, p.weightClass) in buckets
    ensures r.Some? ==> r.value.Keys == buckets.Keys
  {
    if n == 0 then Some(buckets)
    else
      var before := AfterTurns(buckets, ex, queue, n - 1, now);
      var key := (ex, queue[n - 1].weightClass);
      if before.None? || !Consume(before.value[key], now, queue[n - 1].cost).1 then None
      else Some(before.value[key := Consume(before.value[key], now, queue[n - 1].cost).0])
  }

  /** Serving the queue is taking turns and then serving the rest. */
  lemma {:induction false} TurnsAreServed(buckets: map<Key, Bucket>, ex: string, queue: seq<Pending>, n: nat, now: real)
    requires n <= |queue| && forall p :: p in queue ==> (ex, p.weightClass) in buckets
    requires AfterTurns(buckets, ex, queue, n, now).Some?
    ensures var (rest, m) := Serve(AfterTurns(buckets, ex, queue, n, now).value, ex, queue[n..], now);
            Serve(buckets, ex, queue, now) == (rest, n + m)
  {
    if n == 0 {
      assert queue[0..] == queue;
    } else {
      TurnsAreServed(buckets, ex, queue, n - 1, now);
      assert queue[n - 1..][1..] == queue[n..];
    }
  }

  lemma LastTurn(buckets: map<Key, Bucket>, ex: string, queue: seq<Pending>, n: nat, now: real, after: map<Key, Bucket>)
    requires n <= |queue| && forall p :: p in queue ==> (ex, p.weightClass) in buckets
    requires var turns := AfterTurns(buckets, ex, queue, n, now);
             && turns.Some?
             && (n == |queue| ==> after == turns.value)
             && (n < |queue| ==>
                   var key := (ex, queue[n].weightClass);
                   var (b, ok) := Consume(turns.value[key], now, queue[n].cost);
                   !ok && after == turns.value[key := b])
    ensures Serve(buckets, ex, queue, now) == (after, n)
  {
    TurnsAreServed(buckets, ex, queue, n, now);
  }

  /** The weight classes of requests, as drain reports them. */
  function Classes(requests: seq<Pending>): (r: seq<string>)
    ensures |r| == |requests|
  {
    if requests == [] then [] else Classes(requests[..|requests| - 1]) + [requests[|requests| - 1].weightClass]
  }

  function Release(s: State, ex: string, now: real): (State, seq<Pending>)
    requires ex in s.queues && forall p :: p in s.queues[ex] ==> (ex, p.weightClass) in s.buckets
  {
    var queue := s.queues[ex];
    var (buckets, n) := Serve(s.buckets, ex, queue, now);
    (s.(buckets := buckets,
        queues := s.queues[ex := queue[n..]],
        metrics := s.metrics.(granted := s.metrics.granted + n)),
     queue[..n])
  }

  /** The state after draining, and the requests released, most important first. */
  function Drain(s: State, ex: string, now: real): (State, seq<Pending>)
    requires Valid(s)
  {
    var r := MaybeRestore(s, ex, now);
    if BackingOff(r, ex, now) || ex !in r.queues then (r, []) else Release(r, ex, now)
  }

  // --------------------------------------------------------------------------
  // Every operation keeps the state valid
  // --------------------------------------------------------------------------

  lemma CeilingKeepsValid(s: State, ex: string, fraction: real, s': State)
    requires Valid(s) && 0.0 <= fraction <= 1.0
    requires s'.buckets == WithCeiling(s.buckets, ex, fraction)
    requires s'.ranks == s.ranks && s'.queues == s.queues && s'.nextSeq == s.nextSeq
    ensures Valid(s')
  {
    forall k | k in s'.buckets
      ensures Sound(s'.buckets[k]) && k.0 in s'.queues
    {
      CeilingIsSound(s.buckets[k], fraction);
    }
    assert forall ex :: ex in s'.queues ==> ValidQueue(s, ex);
  }

  lemma RegisterKeepsValid(s: State, ex: string, weightClass: string, capacity: real, window: Window, now: real)
    requires Valid(s) && capacity >= 0.0
    ensures Valid(Register(s, ex, weightClass, capacity, window, now))
  {
    var s' := Register(s, ex, weightClass, capacity, window, now);
    forall e | e in s'.queues
      ensures ValidQueue(s', e)
    {
      assert e in s.queues ==> ValidQueue(s, e);
    }
  }

  lemma RestoreKeepsValid(s: State, ex: string, now: real)
    requires Valid(s)
    ensures Valid(MaybeRestore(s, ex, now))
  {
    CeilingKeepsValid(s, ex, 1.0, MaybeRestore(s, ex, now).(buckets := WithCeiling(s.buckets, ex, 1.0)));
  }

  lemma {:induction false} PushAdds(queue: seq<Pending>, p: Pending)
    ensures multiset(Push(queue, p)) == multiset(queue) + multiset{p}
  {
    if queue == [] || Precedes(p, queue[0]) {
    } else {
      PushAdds(queue[1..], p);
      assert queue == [queue[0]] + queue[1..];
    }
  }

  lemma PushMembers(queue: seq<Pending>, p: Pending, q: Pending)
    ensures q in Push(queue, p) <==> q in queue || q == p
  {
    PushAdds(queue, p);
    assert q in Push(queue, p) <==> q in multiset(Push(queue, p));
    assert q in queue <==> q in multiset(queue);
  }

  lemma {:induction false} PushOrdered(queue: seq<Pending>, p: Pending)
    requires Ordered(queue) && forall q :: q in queue ==> q.seqNo < p.seqNo
    ensures Ordered(Push(queue, p))
  {
    if queue == [] || Precedes(p, queue[0]) {
    } else {
      var rest := Push(queue[1..], p);
      PushOrdered(queue[1..], p);
      forall j | 0 <= j < |rest|
        ensures Precedes(queue[0], rest[j])
      {
        PushMembers(queue[1..], p, rest[j]);
      }
    }
  }

  lemma EnqueueKeepsValid(s: State, ex: string, weightClass: string, cost: real)
    requires Valid(s) && (ex, weightClass) in s.buckets && cost >= 0.0
    ensures Valid(Enqueue(s, ex, weightClass, cost))
  {
    var p := Pending(RankOf(s.ranks, weightClass), s.nextSeq, cost, weightClass);
    var s' := Enqueue(s, ex, weightClass, cost);
    assert ValidQueue(s, ex);
    PushOrdered(s.queues[ex], p);
    forall q | q in s'.queues[ex]
      ensures q in s.queues[ex] || q == p
    {
      PushMembers(s.queues[ex], p, q);
    }
    forall e | e in s'.queues
      ensures ValidQueue(s', e)
    {
      assert ValidQueue(s, e);
    }
  }

  lemma AskedKeepsValid(s: State, key: Key, cost: real, now: real)
    requires Valid(s) && key in s.buckets && cost >= 0.0
    ensures Valid(Asked(s, key, cost, now))
  {
    ConsumeLowersLevel(s.buckets[key], s.buckets[key].base, now, cost);
  }

  lemma AcquireKeepsValid(s: State, ex: string, weightClass: string, cost: real, now: real)
    requires Valid(s) && cost >= 0.0
    ensures Valid(Acquire(s, ex, weightClass, cost, now).0)
  {
    var r := MaybeRestore(s, ex, now);
    var key := (ex, weightClass);
    RestoreKeepsValid(s, ex, now);
    if key in r.buckets {
      AskedKeepsValid(r, key, cost, now);
      EnqueueKeepsValid(r, ex, weightClass, cost);
      EnqueueKeepsValid(Asked(r, key, cost, now), ex, weightClass, cost);
      MetricsKeepValid(Asked(r, key, cost, now));
    }
  }

  lemma MetricsKeepValid(s: State)
    requires Valid(s)
    ensures Valid(s.(metrics := CountGrant(s.metrics)))
  {
    forall ex | ex in s.queues
      ensures ValidQueue(s.(metrics := CountGrant(s.metrics)), ex)
    {
      assert ValidQueue(s, ex);
    }
  }

  // --------------------------------------------------------------------------
  // The bound on what one bucket grants
  // --------------------------------------------------------------------------

  /** What the requests cost the bucket with the given key. */
  function Paid(ex: string, requests: seq<Pending>, key: Key): real {
    if requests == [] then 0.0
    else (if (ex, requests[0].weightClass) == key then requests[0].cost else 0.0) + Paid(ex, requests[1..], key)
  }

  /** The bucket is still under cap, and has gained nothing. */
  ghost predicate NoGain(before: map<Key, Bucket>, after: map<Key, Bucket>, key: Key, cap: real, spent: real,
                         now: real)
  {
    && key in before && key in after
    && Under(before[key], cap) && Under(after[key], cap)
    && after[key].base == before[key].base && after[key].window == before[key].window
    && Level(after[key], cap, now) + spent <= Level(before[key], cap, now)
  }

  lemma {:induction false} ServeNoGain(buckets: map<Key, Bucket>, ex: string, queue: seq<Pending>, now: real, key: Key,
                                       cap: real)
    requires forall p :: p in queue ==> (ex, p.weightClass) in buckets && p.cost >= 0.0
    requires key in buckets && Under(buckets[key], cap)
    ensures var (after, n) := Serve(buckets, ex, queue, now);
            NoGain(buckets, after, key, cap, Paid(ex, queue[..n], key), now)
    decreases |queue|
  {
    if queue != [] {
      var first := (ex, queue[0].weightClass);
      var (b, ok) := Consume(buckets[first], now, queue[0].cost);
      if first == key {
        ConsumeLowersLevel(buckets[key], cap, now, queue[0].cost);
      }
      if ok {
        ServeNoGain(buckets[first := b], ex, queue[1..], now, key, cap);
        var (after, n) := Serve(buckets[first := b], ex, queue[1..], now);
        assert queue[..n + 1][1..] == queue[1..][..n];
      } else {
        assert queue[..0] == [];
      }
    } else {
      assert queue[..0] == [];
    }
  }

  lemma DrainKeepsValid(s: State, ex: string, now: real)
    requires Valid(s)
    ensures Valid(Drain(s, ex, now).0)
  {
    var r := MaybeRestore(s, ex, now);
    RestoreKeepsValid(s, ex, now);
    if !BackingOff(r, ex, now) && ex in r.queues {
      assert ValidQueue(r, ex);
      var (buckets, n) := Serve(r.buckets, ex, r.queues[ex], now);
      var s' := Drain(s, ex, now).0;
      forall k | k in s'.buckets
        ensures Sound(s'.buckets[k]) && k.0 in s'.queues
      {
        ServeNoGain(r.buckets, ex, r.queues[ex], now, k, r.buckets[k].base);
      }
      forall e | e in s'.queues
        ensures ValidQueue(s', e)
      {
        assert ValidQueue(r, e);
      }
    }
  }

  lemma CeilingNoGain(buckets: map<Key, Bucket>, ex: string, fraction: real, key: Key, cap: real, now: real)
    requires key in buckets && Under(buckets[key], cap) && 0.0 <= fraction <= 1.0
    requires key.0 == ex ==> buckets[key].base * fraction <= cap
    ensures NoGain(buckets, WithCeiling(buckets, ex, fraction), key, cap, 0.0, now)
  {
    if key.0 == ex {
      CeilingLowersLevel(buckets[key], cap, fraction, now);
    }
  }

  /** A halving of the exchange is over, and its next operation restores its ceilings. */
  predicate RestoreDue(s: State, ex: string, now: real) {
    Until(s.halvedUntil, ex).Some? && now >= Until(s.halvedUntil, ex).value
  }

  /** An operation on the exchange leaves the bucket's ceiling within cap. */
  ghost predicate Capped(s: State, ex: string, now: real, key: Key, cap: real) {
    && Valid(s) && key in s.buckets && Under(s.buckets[key], cap)
    && (s.buckets[key].base <= cap || key.0 != ex || !RestoreDue(s, ex, now))
  }

  lemma RestoreNoGain(s: State, ex: string, now: real, key: Key, cap: real)
    requires Capped(s, ex, now, key, cap)
    ensures NoGain(s.buckets, MaybeRestore(s, ex, now).buckets, key, cap, 0.0, now)
  {
    if RestoreDue(s, ex, now) {
      CeilingNoGain(s.buckets, ex, 1.0, key, cap, now);
    }
  }

  lemma AcquireNoGain(s: State, ex: string, weightClass: string, cost: real, now: real, key: Key, cap: real)
    requires Capped(s, ex, now, key, cap) && cost >= 0.0
    ensures var (s', answer) := Acquire(s, ex, weightClass, cost, now);
            NoGain(s.buckets, s'.buckets, key, cap,
                   if answer == Granted && key == (ex, weightClass) then cost else 0.0, now)
  {
    var r := MaybeRestore(s, ex, now);
    RestoreKeepsValid(s, ex, now);
    RestoreNoGain(s, ex, now, key, cap);
    if key == (ex, weightClass) {
      ConsumeLowersLevel(r.buckets[key], cap, now, cost);
    }
  }

  lemma DrainNoGain(s: State, ex: string, now: real, key: Key, cap: real)
    requires Capped(s, ex, now, key, cap)
    ensures var (s', released) := Drain(s, ex, now);
            NoGain(s.buckets, s'.buckets, key, cap, Paid(ex, released, key), now)
  {
    var r := MaybeRestore(s, ex, now);
    RestoreKeepsValid(s, ex, now);
    RestoreNoGain(s, ex, now, key, cap);
    if !BackingOff(r, ex, now) && ex in r.queues {
      assert ValidQueue(r, ex);
      ServeNoGain(r.buckets, ex, r.queues[ex], now, key, cap);
    }
  }

  // --------------------------------------------------------------------------
  // Runs
  // --------------------------------------------------------------------------

  datatype Op =
    | Tick(dt: real)
    | AcquireOp(ex: string, weightClass: string, cost: real)
    | DrainOp(ex: string)
    | ThrottleOp(ex: string, retryAfter: Option<real>)
    | RegisterOp(ex: string, weightClass: string, limit: real, window: Window)

  datatype World = World(s: State, now: real)

  /** The clock does not run backwards, and costs and limits are not negative. */
  predicate Allowed(op: Op) {
    (op.Tick? ==> op.dt >= 0.0) && (op.AcquireOp? ==> op.cost >= 0.0) && (op.RegisterOp? ==> op.limit >= 0.0)
  }

  function Step(w: World, op: Op): World
    requires Valid(w.s)
  {
    match op
    case Tick(dt) => w.(now := w.now + dt)
    case AcquireOp(ex, weightClass, cost) => w.(s := Acquire(w.s, ex, weightClass, cost, w.now).0)
    case DrainOp(ex) => w.(s := Drain(w.s, ex, w.now).0)
    case ThrottleOp(ex, retryAfter) => w.(s := NoteThrottle(w.s, ex, retryAfter, w.now))
    case RegisterOp(ex, weightClass, limit, window) => w.(s := Register(w.s, ex, weightClass, limit, window, w.now))
  }

  lemma StepKeepsValid(w: World, op: Op)
    requires Valid(w.s) && Allowed(op)
    ensures Valid(Step(w, op).s)
  {
    match op
    case Tick(dt) =>
    case AcquireOp(ex, weightClass, cost) => AcquireKeepsValid(w.s, ex, weightClass, cost, w.now);
    case DrainOp(ex) => DrainKeepsValid(w.s, ex, w.now);
    case ThrottleOp(ex, retryAfter) => CeilingKeepsValid(w.s, ex, 0.5, Step(w, op).s);
    case RegisterOp(ex, weightClass, limit, window) => RegisterKeepsValid(w.s, ex, weightClass, limit, window, w.now);
  }

  ghost function Exec(w: World, ops: seq<Op>): (w': World)
    requires Valid(w.s) && forall op :: op in ops ==> Allowed(op)
    ensures Valid(w'.s)
  {
    if ops == [] then w
    else
      var n := |ops| - 1;
      StepKeepsValid(Exec(w, ops[..n]), ops[n]);
      Step(Exec(w, ops[..n]), ops[n])
  }

  /** What one operation takes from a bucket. */
  ghost function SpentBy(w: World, op: Op, key: Key): real
    requires Valid(w.s)
  {
    match op
    case AcquireOp(ex, weightClass, cost) =>
      if Acquire(w.s, ex, weightClass, cost, w.now).1 == Granted && key == (ex, weightClass) then cost else 0.0
    case DrainOp(ex) => Paid(ex, Drain(w.s, ex, w.now).1, key)
    case _ => 0.0
  }

  /** What a run takes from a bucket. */
  ghost function Spent(w: World, ops: seq<Op>, key: Key): real
    requires Valid(w.s) && forall op :: op in ops ==> Allowed(op)
  {
    if ops == [] then 0.0
    else
      var n := |ops| - 1;
      Spent(w, ops[..n], key) + SpentBy(Exec(w, ops[..n]), ops[n], key)
  }

  /** From w to w' the bucket has spent no more than it had and refilled, under cap. */
  ghost predicate Budgeted(w: World, w': World, key: Key, cap: real, spent: real) {
    && key in w.s.buckets && Under(w.s.buckets[key], cap)
    && key in w'.s.buckets && Under(w'.s.buckets[key], cap)
    && w'.s.buckets[key].base == w.s.buckets[key].base
    && w'.s.buckets[key].window == w.s.buckets[key].window
    && Level(w'.s.buckets[key], cap, w'.now) + spent
       <= Level(w.s.buckets[key], cap, w.now) + Refilled(cap, w.s.buckets[key].window, w'.now - w.now)
  }

  lemma NoGainBudgeted(w: World, w': World, key: Key, cap: real, spent: real)
    requires w'.now == w.now && NoGain(w.s.buckets, w'.s.buckets, key, cap, spent, w.now)
    ensures Budgeted(w, w', key, cap, spent)
  {
    RefilledSum(cap, w.s.buckets[key].window, 0.0, 0.0);
  }

  /** The operation leaves the bucket in place, and its ceiling within cap. */
  ghost predicate Keeps(w: World, op: Op, key: Key, cap: real) {
    && Valid(w.s) && key in w.s.buckets && Under(w.s.buckets[key], cap)
    && match op
       case Tick(_) => true
       case AcquireOp(ex, _, _) => Capped(w.s, ex, w.now, key, cap)
       case DrainOp(ex) => Capped(w.s, ex, w.now, key, cap)
       case ThrottleOp(ex, _) => key.0 == ex ==> w.s.buckets[key].base * 0.5 <= cap
       case RegisterOp(ex, weightClass, _, _) => key != (ex, weightClass)
  }

  lemma StepBudgeted(w: World, op: Op, key: Key, cap: real)
    requires Allowed(op) && Keeps(w, op, key, cap)
    ensures Budgeted(w, Step(w, op), key, cap, SpentBy(w, op, key))
  {
    match op
    case Tick(dt) => LevelRises(w.s.buckets[key], cap, w.now, w.now + dt);
    case AcquireOp(ex, weightClass, cost) =>
      AcquireNoGain(w.s, ex, weightClass, cost, w.now, key, cap);
      NoGainBudgeted(w, Step(w, op), key, cap, SpentBy(w, op, key));
    case DrainOp(ex) =>
      DrainNoGain(w.s, ex, w.now, key, cap);
      NoGainBudgeted(w, Step(w, op), key, cap, SpentBy(w, op, key));
    case ThrottleOp(ex, retryAfter) =>
      CeilingNoGain(w.s.buckets, ex, 0.5, key, cap, w.now);
      NoGainBudgeted(w, Step(w, op), key, cap, 0.0);
    case RegisterOp(ex, weightClass, limit, window) =>
      NoGainBudgeted(w, Step(w, op), key, cap, 0.0);
  }

  lemma BudgetedChain(w: World, m: World, w': World, key: Key, cap: real, x: real, y: real)
    requires Budgeted(w, m, key, cap, x) && Budgeted(m, w', key, cap, y)
    ensures Budgeted(w, w', key, cap, x + y)
  {
    RefilledSum(cap, w.s.buckets[key].window, m.now - w.now, w'.now - m.now);
  }

  // --------------------------------------------------------------------------
  // While an exchange is halved
  // --------------------------------------------------------------------------

  /** The exchange stays halved at least until the given time. */
  ghost predicate HalvedUntil(w: World, ex: string, until: real) {
    && until <= w.now + w.s.halveSeconds
    && Until(w.s.halvedUntil, ex).Some? && Until(w.s.halvedUntil, ex).value >= until
  }

  lemma StepStaysHalved(w: World, op: Op, ex: string, until: real)
    requires Valid(w.s) && Allowed(op)
    ensures Step(w, op).now >= w.now
    ensures HalvedUntil(w, ex, until) && w.now < until ==> HalvedUntil(Step(w, op), ex, until)
  {
  }

  lemma {:induction false} RunStaysHalved(w: World, ops: seq<Op>, ex: string, until: real)
    requires Valid(w.s) && (forall op :: op in ops ==> Allowed(op)) && HalvedUntil(w, ex, until)
    requires Exec(w, ops).now < until
    ensures HalvedUntil(Exec(w, ops), ex, until)
  {
    if ops != [] {
      var n := |ops| - 1;
      StepStaysHalved(Exec(w, ops[..n]), ops[n], ex, until);
      RunStaysHalved(w, ops[..n], ex, until);
    }
  }

  // --------------------------------------------------------------------------
  // The rate bound
  // --------------------------------------------------------------------------

  function Half(b: Bucket): real {
    b.base * 0.5
  }

  ghost predicate NotRegistered(ops: seq<Op>, key: Key) {
    forall op :: op in ops && op.RegisterOp? ==> (op.ex, op.weightClass) != key
  }

  /** The run leaves the bucket in place, and its ceiling within cap: either that is no less than its base
      capacity, or no less than half of it and the run ends before the halving does. */
  ghost predicate Stretch(w: World, ops: seq<Op>, key: Key, cap: real, until: real)
    requires Valid(w.s) && forall op :: op in ops ==> Allowed(op)
  {
    && key in w.s.buckets && Under(w.s.buckets[key], cap) && NotRegistered(ops, key)
    && (|| w.s.buckets[key].base <= cap
        || (Half(w.s.buckets[key]) <= cap && HalvedUntil(w, key.0, until) && Exec(w, ops).now < until))
  }

  lemma {:induction false} RunBudgeted(w: World, ops: seq<Op>, key: Key, cap: real, until: real)
    requires Valid(w.s) && (forall op :: op in ops ==> Allowed(op)) && Stretch(w, ops, key, cap, until)
    ensures Budgeted(w, Exec(w, ops), key, cap, Spent(w, ops, key))
  {
    if ops == [] {
      RefilledSum(cap, w.s.buckets[key].window, 0.0, 0.0);
    } else {
      var n := |ops| - 1;
      var m := Exec(w, ops[..n]);
      assert ops[n] in ops;
      StepStaysHalved(m, ops[n], key.0, until);
      RunBudgeted(w, ops[..n], key, cap, until);
      if w.s.buckets[key].base > cap {
        RunStaysHalved(w, ops[..n], key.0, until);
      }
      StepBudgeted(m, ops[n], key, cap);
      BudgetedChain(w, m, Step(m, ops[n]), key, cap, Spent(w, ops[..n], key), SpentBy(m, ops[n], key));
    }
  }

  /** From w to w' the bucket has spent at most cap and what the rate of cap refills in that time; its
      tokens are within its capacity, and that within cap. */
  ghost predicate WithinBudget(w: World, w': World, key: Key, cap: real, spent: real)
    requires key in w.s.buckets
  {
    var b := w.s.buckets[key];
    && spent <= cap + Refilled(cap, b.window, w'.now - w.now)
    && key in w'.s.buckets && w'.s.buckets[key].base == b.base && Under(w'.s.buckets[key], cap)
  }

  lemma BudgetedBound(w: World, w': World, key: Key, cap: real, spent: real)
    requires Budgeted(w, w', key, cap, spent)
    ensures WithinBudget(w, w', key, cap, spent)
  {
    LevelBounds(w.s.buckets[key], cap, w.now);
    LevelBounds(w'.s.buckets[key], cap, w'.now);
  }

  /** Over any stretch of any run that does not register it again, throttled and restored however often,
      a bucket stays within the budget of its base capacity. */
  lemma RateBound(w: World, ops: seq<Op>, key: Key)
    requires Valid(w.s) && (forall op :: op in ops ==> Allowed(op)) && key in w.s.buckets && NotRegistered(ops, key)
    ensures WithinBudget(w, Exec(w, ops), key, w.s.buckets[key].base, Spent(w, ops, key))
  {
    RunBudgeted(w, ops, key, w.s.buckets[key].base, 0.0);
    BudgetedBound(w, Exec(w, ops), key, w.s.buckets[key].base, Spent(w, ops, key));
  }

  /** Over any stretch that ends before the halving does, a halved bucket stays within half the budget. */
  lemma HalvedRateBound(w: World, ops: seq<Op>, key: Key, half: real, until: real)
    requires Valid(w.s) && (forall op :: op in ops ==> Allowed(op)) && key in w.s.buckets && NotRegistered(ops, key)
    requires half == Half(w.s.buckets[key]) && Under(w.s.buckets[key], half)
    requires HalvedUntil(w, key.0, until) && Exec(w, ops).now < until
    ensures WithinBudget(w, Exec(w, ops), key, half, Spent(w, ops, key))
  {
    RunBudgeted(w, ops, key, half, until);
    BudgetedBound(w, Exec(w, ops), key, half, Spent(w, ops, key));
  }

  /** A throttle halves every bucket of its exchange, for as long as it says. */
  lemma ThrottleHalves(w: World, ex: string, retryAfter: Option<real>, key: Key)
    requires Valid(w.s) && key in w.s.buckets && key.0 == ex
    ensures var w' := Step(w, ThrottleOp(ex, retryAfter));
            && HalvedUntil(w', ex, w.now + w.s.halveSeconds)
            && key in w'.s.buckets && w'.s.buckets[key].base == w.s.buckets[key].base
            && Under(w'.s.buckets[key], Half(w'.s.buckets[key]))
  {
    CeilingLowersLevel(w.s.buckets[key], w.s.buckets[key].base, 0.5, w.now);
  }

  // --------------------------------------------------------------------------
  // Conservation of requests
  // --------------------------------------------------------------------------

  function Depth(queue: seq<Pending>): real {
    |queue| as real
  }

  /** Requests granted so far, and requests still waiting anywhere. */
  ghost function Accounted(s: State): real {
    s.metrics.granted as real + MapSum(s.queues, Depth)
  }

  /** The acquire calls of a run that named a registered bucket. */
  ghost function Acquires(w: World, ops: seq<Op>): nat
    requires Valid(w.s) && forall op :: op in ops ==> Allowed(op)
  {
    if ops == [] then 0
    else
      var n := |ops| - 1;
      Acquires(w, ops[..n]) + (if Asks(Exec(w, ops[..n]), ops[n]) then 1 else 0)
  }

  predicate Asks(w: World, op: Op) {
    op.AcquireOp? && (op.ex, op.weightClass) in w.s.buckets
  }

  lemma EnqueueAccounts(s: State, ex: string, weightClass: string, cost: real)
    requires ex in s.queues
    ensures Accounted(Enqueue(s, ex, weightClass, cost)) == Accounted(s) + 1.0
  {
    var p := Pending(RankOf(s.ranks, weightClass), s.nextSeq, cost, weightClass);
    MapSumUpdate(s.queues, Depth, ex, Push(s.queues[ex], p));
  }

  lemma StepAccounts(w: World, op: Op)
    requires Valid(w.s)
    ensures Accounted(Step(w, op).s) == Accounted(w.s) + (if Asks(w, op) then 1.0 else 0.0)
  {
    match op
    case Tick(dt) =>
    case ThrottleOp(ex, retryAfter) =>
    case RegisterOp(ex, weightClass, limit, window) =>
      if ex !in w.s.queues {
        MapSumUpdate(w.s.queues, Depth, ex, []);
      }
    case AcquireOp(ex, weightClass, cost) =>
      var r := MaybeRestore(w.s, ex, w.now);
      if (ex, weightClass) in r.buckets {
        EnqueueAccounts(r, ex, weightClass, cost);
        EnqueueAccounts(Asked(r, (ex, weightClass), cost, w.now), ex, weightClass, cost);
      }
    case DrainOp(ex) =>
      var r := MaybeRestore(w.s, ex, w.now);
      if !BackingOff(r, ex, w.now) && ex in r.queues {
        assert ValidQueue(w.s, ex);
        var queue := r.queues[ex];
        var (buckets, n) := Serve(r.buckets, ex, queue, w.now);
        MapSumUpdate(r.queues, Depth, ex, queue[n..]);
      }
  }

  /** In every run, each request asked for has been granted once or is waiting. */
  lemma {:induction false} RequestsConserved(w: World, ops: seq<Op>)
    requires Valid(w.s) && forall op :: op in ops ==> Allowed(op)
    ensures Accounted(Exec(w, ops).s) == Accounted(w.s) + Acquires(w, ops) as real
  {
    if ops != [] {
      var n := |ops| - 1;
      RequestsConserved(w, ops[..n]);
      StepAccounts(Exec(w, ops[..n]), ops[n]);
    }
  }

  // --------------------------------------------------------------------------
  // Scheduling
  // --------------------------------------------------------------------------

  /** No request waits on the exchange with a higher priority. */
  ghost predicate NothingMoreImportant(s: State, ex: string, rank: nat)
    requires ex in s.queues
  {
    forall p :: p in s.queues[ex] ==> rank <= p.rank
  }

  /** An acquire is granted exactly when no more important request waits on its exchange,
      the exchange is not backing off, and its bucket can pay. A request of equal rank may
      be waiting. */
  lemma GrantedIff(s: State, ex: string, weightClass: string, cost: real, now: real)
    requires Valid(s) && (ex, weightClass) in s.buckets
    ensures var b := MaybeRestore(s, ex, now).buckets[(ex, weightClass)];
            Acquire(s, ex, weightClass, cost, now).1 == Granted
            <==> && NothingMoreImportant(s, ex, RankOf(s.ranks, weightClass))
                 && !BackingOff(s, ex, now)
                 && cost <= Refill(b, now).tokens
  {
    assert ValidQueue(s, ex);
    var queue := s.queues[ex];
    if queue != [] {
      assert queue[0] in queue;
      forall p | p in queue
        ensures queue[0].rank <= p.rank
      {
        var i :| 0 <= i < |queue| && queue[i] == p;
        assert i > 0 ==> Precedes(queue[0], queue[i]);
      }
    }
  }

  /** Serving stops at the end of the queue or at a head whose bucket cannot pay; at the
      same instant there is then nothing more to serve. */
  lemma {:induction false} ServeStops(buckets: map<Key, Bucket>, ex: string, queue: seq<Pending>, now: real)
    requires forall p :: p in queue ==> (ex, p.weightClass) in buckets
    ensures var (after, n) := Serve(buckets, ex, queue, now);
            && (n < |queue| ==> Refill(after[(ex, queue[n].weightClass)], now).tokens < queue[n].cost)
            && Serve(after, ex, queue[n..], now) == (after, 0)
    decreases |queue|
  {
    if queue != [] {
      var key := (ex, queue[0].weightClass);
      var (b, ok) := Consume(buckets[key], now, queue[0].cost);
      if ok {
        ServeStops(buckets[key := b], ex, queue[1..], now);
        var n := Serve(buckets[key := b], ex, queue[1..], now).1;
        assert queue[n + 1..] == queue[1..][n..];
      } else {
        assert queue[0..] == queue;
        var after := buckets[key := b];
        assert Refill(b, now) == b;
        assert after[key := b] == after;
      }
    }
  }

  ghost predicate PrefixReleased(s: State, s': State, released: seq<Pending>, ex: string)
    requires ex in s.queues
  {
    && s'.queues.Keys == s.queues.Keys
    && released + s'.queues[ex] == s.queues[ex]
    && (forall other :: other in s.queues && other != ex ==> s'.queues[other] == s.queues[other])
  }

  lemma ReleasesPrefix(s: State, ex: string, now: real)
    requires ex in s.queues && forall p :: p in s.queues[ex] ==> (ex, p.weightClass) in s.buckets
    ensures PrefixReleased(s, Release(s, ex, now).0, Release(s, ex, now).1, ex)
  {
    var n := Serve(s.buckets, ex, s.queues[ex], now).1;
    assert s.queues[ex][..n] + s.queues[ex][n..] == s.queues[ex];
  }

  /** A drain releases a prefix of its exchange's queue, and touches no other queue. */
  lemma DrainReleasesPrefix(s: State, ex: string, now: real)
    requires Valid(s) && ex in s.queues
    ensures PrefixReleased(s, Drain(s, ex, now).0, Drain(s, ex, now).1, ex)
  {
    var r := MaybeRestore(s, ex, now);
    if !BackingOff(r, ex, now) {
      assert ValidQueue(r, ex);
      ReleasesPrefix(r, ex, now);
    }
  }

  /** Everything released comes before everything left. */
  lemma DrainKeepsOrder(s: State, ex: string, now: real, p: Pending, q: Pending)
    requires Valid(s) && ex in s.queues
    requires p in Drain(s, ex, now).1 && ex in Drain(s, ex, now).0.queues && q in Drain(s, ex, now).0.queues[ex]
    ensures Precedes(p, q)
  {
    var (s', released) := Drain(s, ex, now);
    DrainReleasesPrefix(s, ex, now);
    assert ValidQueue(s, ex);
    var i :| 0 <= i < |released| && released[i] == p;
    var j :| 0 <= j < |s'.queues[ex]| && s'.queues[ex][j] == q;
    assert s.queues[ex][i] == p && s.queues[ex][|released| + j] == q;
  }

  /** A drain stops only during back-off, when nothing is released, or at a head whose
      bucket cannot pay. */
  lemma DrainStops(s: State, ex: string, now: real)
    requires Valid(s) && ex in s.queues
    ensures var (s', released) := Drain(s, ex, now);
            && ex in s'.queues
            && (BackingOff(s, ex, now) ==> released == [])
            && (!BackingOff(s, ex, now) && s'.queues[ex] != [] ==>
                  var head := s'.queues[ex][0];
                  && (ex, head.weightClass) in s'.buckets
                  && Refill(s'.buckets[(ex, head.weightClass)], now).tokens < head.cost)
  {
    var r := MaybeRestore(s, ex, now);
    if !BackingOff(r, ex, now) {
      assert ValidQueue(r, ex);
      var queue := r.queues[ex];
      var n := Serve(r.buckets, ex, queue, now).1;
      ServeStops(r.buckets, ex, queue, now);
      if n < |queue| {
        assert queue[n..][0] == queue[n] && queue[n] in queue;
      }
    }
  }

  /** Some wait is long enough for a bucket to pay exactly when the cost is within its
      capacity: a request above that blocks its exchange's queue for as long as it waits. */
  lemma PayableIff(b: Bucket, cost: real)
    requires Sound(b)
    ensures (exists t :: Consume(b, t, cost).1) <==> cost <= b.capacity
  {
    if cost <= b.capacity {
      var t := b.last + b.window;
      assert Refilled(b.capacity, b.window, t - b.last) == b.capacity;
      assert Consume(b, t, cost).1;
    }
    if t :| Consume(b, t, cost).1 {
      assert Refill(b, t).tokens <= b.capacity;
    }
  }

  ghost predicate Distinct(classes: seq<string>) {
    forall i, j :: 0 <= i < j < |classes| ==> classes[i] != classes[j]
  }

  lemma {:induction false} RanksMean(classes: seq<string>, i: nat)
    requires i < |classes| && forall j :: i < j < |classes| ==> classes[j] != classes[i]
    ensures classes[i] in RanksOf(classes) && RanksOf(classes)[classes[i]] == i
  {
    if i < |classes| - 1 {
      RanksMean(classes[..|classes| - 1], i);
    }
  }

  lemma {:induction false} RanksCount(classes: seq<string>)
    ensures forall c :: c in RanksOf(classes) <==> c in classes
    ensures |RanksOf(classes)| <= |classes|
    ensures |RanksOf(classes)| == |classes| <==> Distinct(classes)
  {
    if classes != [] {
      var n := |classes| - 1;
      var before := RanksOf(classes[..n]);
      RanksCount(classes[..n]);
      assert classes == classes[..n] + [classes[n]];
      assert before[classes[n] := n].Keys == before.Keys + {classes[n]};
      if classes[n] in classes[..n] {
        var i :| 0 <= i < n && classes[..n][i] == classes[n];
        assert classes[i] == classes[n];
      } else if Distinct(classes[..n]) {
        assert Distinct(classes);
      }
    }
  }

  /** A class listed earlier goes first; and a class that is not listed goes last exactly if no class is
      listed twice. */
  lemma UnlistedLastIff(classes: seq<string>, other: string)
    requires other !in classes
    ensures (forall c :: c in classes ==> RankOf(RanksOf(classes), c) < RankOf(RanksOf(classes), other))
            <==> Distinct(classes)
    ensures Distinct(classes) ==> forall i :: 0 <= i < |classes| ==> RankOf(RanksOf(classes), classes[i]) == i
  {
    RanksCount(classes);
    if Distinct(classes) {
      forall i | 0 <= i < |classes|
        ensures RankOf(RanksOf(classes), classes[i]) == i
      {
        RanksMean(classes, i);
      }
    } else {
      RanksMean(classes, |classes| - 1);
      assert classes[|classes| - 1] in classes;
    }
  }
}

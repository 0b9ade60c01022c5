/** When a rate limit is halved and when it is whole again, what an idle bucket then grants, and how long a
    throttle holds everything back (aimos/data/ratelimit.py). */
module Ceilings {
  import opened Numerics
  import opened Schemas
  import opened RateLimit

  // --------------------------------------------------------------------------
  // Refilling
  // --------------------------------------------------------------------------

  /** An empty bucket is filled to the share of the window that has passed. */
  lemma RefillShare(b: Bucket, share: real)
    requires Sound(b) && b.tokens == 0.0 && 0.0 <= share <= 1.0
    ensures Refill(b, b.last + share * b.window).tokens == share * b.capacity
  {
    MulSign(share, b.window);
    MulMonotone(b.capacity, share, 1.0);
    assert share * b.window * (b.capacity / b.window) == share * b.capacity;
  }

  /** However often it is looked at, a bucket fills the same. */
  lemma RefillSplits(b: Bucket, t: real, t': real)
    requires Sound(b) && t <= t'
    ensures Refill(Refill(b, t), t') == Refill(b, t')
  {
    if t > b.last {
      RefilledSum(b.capacity, b.window, t - b.last, t' - t);
      RefilledMonotone(0.0, b.capacity, b.window, t' - t);
      RefilledMonotone(b.capacity, b.capacity, b.window, t' - t);
    }
  }

  // --------------------------------------------------------------------------
  // The law of ceilings
  // --------------------------------------------------------------------------

  /** Every bucket has its base capacity; or half of it, and its exchange waits for the end of a halving. */
  ghost predicate Lawful(s: State) {
    forall k :: k in s.buckets ==>
      || s.buckets[k].capacity == s.buckets[k].base
      || (s.buckets[k].capacity == s.buckets[k].base * 0.5 && Until(s.halvedUntil, k.0).Some?)
  }

  /** The buckets are the same but for what they hold. */
  ghost predicate SameCeilings(buckets: map<Key, Bucket>, buckets': map<Key, Bucket>) {
    && buckets'.Keys == buckets.Keys
    && forall k :: k in buckets ==>
         && buckets'[k].base == buckets[k].base && buckets'[k].capacity == buckets[k].capacity
         && buckets'[k].window == buckets[k].window
  }

  lemma {:induction false} ServeKeepsCeilings(buckets: map<Key, Bucket>, ex: string, queue: seq<Pending>, now: real)
    requires forall p :: p in queue ==> (ex, p.weightClass) in buckets
    ensures SameCeilings(buckets, Serve(buckets, ex, queue, now).0)
    decreases |queue|
  {
    if queue != [] {
      var key := (ex, queue[0].weightClass);
      var (b, ok) := Consume(buckets[key], now, queue[0].cost);
      assert SameCeilings(buckets, buckets[key := b]);
      if ok {
        ServeKeepsCeilings(buckets[key := b], ex, queue[1..], now);
      }
    }
  }

  /** An operation that looks at an exchange moves its ceilings only by ending a halving. */
  predicate LooksAt(op: Op, ex: string) {
    (op.AcquireOp? || op.DrainOp?) && op.ex == ex
  }

  lemma DrainKeepsCeilings(s: State, ex: string, now: real)
    requires Valid(s)
    ensures var r, s' := MaybeRestore(s, ex, now), Drain(s, ex, now).0;
            SameCeilings(r.buckets, s'.buckets) && s'.halvedUntil == r.halvedUntil
  {
    var r := MaybeRestore(s, ex, now);
    if !BackingOff(r, ex, now) && ex in r.queues {
      assert ValidQueue(s, ex);
      ServeKeepsCeilings(r.buckets, ex, r.queues[ex], now);
    }
  }

  lemma AcquireKeepsCeilings(s: State, ex: string, weightClass: string, cost: real, now: real)
    requires Valid(s)
    ensures var r, s' := MaybeRestore(s, ex, now), Acquire(s, ex, weightClass, cost, now).0;
            SameCeilings(r.buckets, s'.buckets) && s'.halvedUntil == r.halvedUntil
  {
    var r, key := MaybeRestore(s, ex, now), (ex, weightClass);
    if key in r.buckets {
      AskKeepsCeilings(r, key, cost, now);
    }
  }

  lemma AskKeepsCeilings(s: State, key: Key, cost: real, now: real)
    requires key in s.buckets
    ensures SameCeilings(s.buckets, Asked(s, key, cost, now).buckets)
  {
  }

  lemma LookKeepsCeilings(w: World, op: Op, ex: string)
    requires Valid(w.s) && Allowed(op) && LooksAt(op, ex)
    ensures var r := MaybeRestore(w.s, ex, w.now);
            SameCeilings(r.buckets, Step(w, op).s.buckets) && Step(w, op).s.halvedUntil == r.halvedUntil
  {
    if op.DrainOp? {
      DrainKeepsCeilings(w.s, ex, w.now);
    } else {
      AcquireKeepsCeilings(w.s, ex, op.weightClass, op.cost, w.now);
    }
  }

  lemma RestoreIsLawful(s: State, ex: string, now: real)
    requires Lawful(s)
    ensures Lawful(MaybeRestore(s, ex, now))
    ensures var r := MaybeRestore(s, ex, now);
            && r.buckets.Keys == s.buckets.Keys
            && (forall k :: k in s.buckets ==> r.buckets[k].base == s.buckets[k].base)
            && (!(Until(s.halvedUntil, ex).Some? && now < Until(s.halvedUntil, ex).value) ==>
                  forall k :: k in s.buckets && k.0 == ex ==> r.buckets[k].capacity == s.buckets[k].base)
  {
  }

  lemma StepIsLawful(w: World, op: Op)
    requires Valid(w.s) && Allowed(op) && Lawful(w.s)
    ensures Lawful(Step(w, op).s)
  {
    if op.AcquireOp? || op.DrainOp? {
      RestoreIsLawful(w.s, op.ex, w.now);
      LookKeepsCeilings(w, op, op.ex);
    }
  }

  /** The law holds in every reachable state. */
  lemma {:induction false} RunIsLawful(w: World, ops: seq<Op>)
    requires Valid(w.s) && (forall op :: op in ops ==> Allowed(op)) && Lawful(w.s)
    ensures Lawful(Exec(w, ops).s)
  {
    if ops != [] {
      var n := |ops| - 1;
      RunIsLawful(w, ops[..n]);
      StepIsLawful(Exec(w, ops[..n]), ops[n]);
    }
  }

  /** A throttle leaves every bucket of its exchange at half its base capacity, and moves no other. */
  lemma ThrottleCeilings(w: World, ex: string, retryAfter: Option<real>, key: Key)
    requires Valid(w.s) && key in w.s.buckets
    ensures var b, s' := w.s.buckets[key], Step(w, ThrottleOp(ex, retryAfter)).s;
            && key in s'.buckets
            && s'.buckets[key] == (if key.0 != ex then b
                                   else b.(capacity := b.base * 0.5, tokens := Min(b.tokens, b.base * 0.5)))
            && Until(s'.halvedUntil, ex) == Some(w.now + w.s.halveSeconds)
  {
  }

  /** Once its wait is over, the first look at an exchange makes all its buckets whole; until then a look
      moves no ceiling. */
  lemma HalvingEnds(w: World, op: Op, ex: string)
    requires Valid(w.s) && Allowed(op) && Lawful(w.s) && LooksAt(op, ex)
    ensures var s, s' := w.s, Step(w, op).s;
            s'.buckets.Keys == s.buckets.Keys
            && if Until(s.halvedUntil, ex).Some? && w.now < Until(s.halvedUntil, ex).value
               then SameCeilings(s.buckets, s'.buckets)
               else forall k :: k in s.buckets && k.0 == ex ==>
                      s'.buckets[k].capacity == s'.buckets[k].base == s.buckets[k].base
  {
    RestoreIsLawful(w.s, ex, w.now);
    LookKeepsCeilings(w, op, ex);
  }

  // --------------------------------------------------------------------------
  // What an idle bucket grants
  // --------------------------------------------------------------------------

  /** Nothing stands in the way of a request, and the bucket can pay out this much. */
  ghost predicate Ready(w: World, key: Key, amount: real) {
    && Valid(w.s) && key in w.s.buckets
    && key.0 in w.s.queues && w.s.queues[key.0] == [] && !BackingOff(w.s, key.0, w.now)
    && Refill(MaybeRestore(w.s, key.0, w.now).buckets[key], w.now).tokens >= amount
  }

  /** A bucket that nobody asked for a window, and whose exchange is not held down, can pay its whole base. */
  lemma IdleIsReady(w: World, key: Key)
    requires Valid(w.s) && Lawful(w.s) && key in w.s.buckets && w.s.queues[key.0] == []
    requires !BackingOff(w.s, key.0, w.now) && w.now >= w.s.buckets[key].last + w.s.buckets[key].window
    requires var until := Until(w.s.halvedUntil, key.0); until.Some? ==> w.now >= until.value
    ensures Ready(w, key, w.s.buckets[key].base)
  {
    RestoreIsLawful(w.s, key.0, w.now);
    RestoreKeepsValid(w.s, key.0, w.now);
    var b := MaybeRestore(w.s, key.0, w.now).buckets[key];
    FullAfterWindow(b, w.now);
  }

  lemma FullAfterWindow(b: Bucket, now: real)
    requires Sound(b) && now >= b.last + b.window
    ensures Refill(b, now).tokens == b.capacity
  {
    RefilledSum(b.capacity, b.window, b.window, now - b.last - b.window);
    RefilledMonotone(b.capacity, b.capacity, b.window, now - b.last - b.window);
    assert Refilled(b.capacity, b.window, b.window) == b.capacity;
  }

  lemma ReadyGrants(w: World, key: Key, amount: real, cost: real)
    requires Ready(w, key, amount) && 0.0 <= cost <= amount
    ensures var op := AcquireOp(key.0, key.1, cost);
            && Acquire(w.s, key.0, key.1, cost, w.now).1 == Granted
            && Ready(Step(w, op), key, amount - cost)
  {
    StepKeepsValid(w, AcquireOp(key.0, key.1, cost));
  }

  ghost function Asks(key: Key, costs: seq<real>): (ops: seq<Op>)
    ensures |ops| == |costs| && forall i :: 0 <= i < |costs| ==> ops[i] == AcquireOp(key.0, key.1, costs[i])
  {
    if costs == [] then [] else Asks(key, costs[..|costs| - 1]) + [AcquireOp(key.0, key.1, costs[|costs| - 1])]
  }

  ghost predicate AllNonneg(costs: seq<real>) {
    forall i :: 0 <= i < |costs| ==> costs[i] >= 0.0
  }

  /** Requests that arrive together are all granted if together they cost no more than the bucket can pay. */
  lemma {:induction false} ReadyGrantsAll(w: World, key: Key, amount: real, costs: seq<real>)
    requires Ready(w, key, amount) && AllNonneg(costs) && Sum(costs) <= amount
    ensures Spent(w, Asks(key, costs), key) == Sum(costs)
    ensures Ready(Exec(w, Asks(key, costs)), key, amount - Sum(costs))
  {
    if costs != [] {
      var n := |costs| - 1;
      var ops := Asks(key, costs);
      ReadyGrantsAll(w, key, amount, costs[..n]);
      assert ops[..n] == Asks(key, costs[..n]);
      var m, left := Exec(w, ops[..n]), amount - Sum(costs[..n]);
      ReadyGrants(m, key, left, costs[n]);
      GrantedSpends(m, key, costs[n]);
    }
  }

  lemma GrantedSpends(w: World, key: Key, cost: real)
    requires Valid(w.s) && Acquire(w.s, key.0, key.1, cost, w.now).1 == Granted
    ensures SpentBy(w, AcquireOp(key.0, key.1, cost), key) == cost
  {
  }

  /** After an idle window, requests up to the whole base capacity are all granted, the halving over. */
  lemma IdleGrantsBase(w: World, key: Key, costs: seq<real>)
    requires Valid(w.s) && Lawful(w.s) && key in w.s.buckets && w.s.queues[key.0] == []
    requires !BackingOff(w.s, key.0, w.now) && w.now >= w.s.buckets[key].last + w.s.buckets[key].window
    requires var until := Until(w.s.halvedUntil, key.0); until.Some? ==> w.now >= until.value
    requires AllNonneg(costs) && Sum(costs) <= w.s.buckets[key].base
    ensures Spent(w, Asks(key, costs), key) == Sum(costs)
  {
    IdleIsReady(w, key);
    ReadyGrantsAll(w, key, w.s.buckets[key].base, costs);
  }

  // --------------------------------------------------------------------------
  // Back-off
  // --------------------------------------------------------------------------

  ghost predicate NoThrottle(ops: seq<Op>, ex: string) {
    forall op :: op in ops && op.ThrottleOp? ==> op.ex != ex
  }

  lemma {:induction false} WaitStands(w: World, ops: seq<Op>, ex: string)
    requires Valid(w.s) && (forall op :: op in ops ==> Allowed(op)) && NoThrottle(ops, ex)
    ensures Until(Exec(w, ops).s.throttledUntil, ex) == Until(w.s.throttledUntil, ex)
  {
    if ops != [] {
      var n := |ops| - 1;
      assert ops[n] in ops;
      WaitStands(w, ops[..n], ex);
      StepKeepsWait(Exec(w, ops[..n]), ops[n], ex);
    }
  }

  lemma StepKeepsWait(w: World, op: Op, ex: string)
    requires Valid(w.s) && Allowed(op) && (op.ThrottleOp? ==> op.ex != ex)
    ensures Until(Step(w, op).s.throttledUntil, ex) == Until(w.s.throttledUntil, ex)
  {
  }

  lemma {:induction false} NothingSpent(w: World, ops: seq<Op>, key: Key)
    requires Valid(w.s) && (forall op :: op in ops ==> Allowed(op)) && NoThrottle(ops, key.0)
    requires BackingOff(Exec(w, ops).s, key.0, Exec(w, ops).now)
    ensures Spent(w, ops, key) == 0.0
  {
    if ops != [] {
      var n := |ops| - 1;
      var m := Exec(w, ops[..n]);
      assert ops[n] in ops && NoThrottle([ops[n]], key.0);
      StepStaysHalved(m, ops[n], key.0, 0.0);
      WaitStands(w, ops, key.0);
      WaitStands(w, ops[..n], key.0);
      NothingSpent(w, ops[..n], key);
      NothingSpentBy(m, ops[n], key);
    }
  }

  lemma NothingSpentBy(w: World, op: Op, key: Key)
    requires Valid(w.s) && BackingOff(w.s, key.0, w.now)
    ensures SpentBy(w, op, key) == 0.0
  {
    if op.DrainOp? && op.ex != key.0 {
      PaidElsewhere(op.ex, Drain(w.s, op.ex, w.now).1, key);
    }
  }

  lemma {:induction false} PaidElsewhere(ex: string, requests: seq<Pending>, key: Key)
    requires key.0 != ex
    ensures Paid(ex, requests, key) == 0.0
  {
    if requests != [] {
      PaidElsewhere(ex, requests[1..], key);
    }
  }

  /** A throttle holds its exchange back for exactly as long as it says, a second if it does not say: until
      then nothing is granted there, and from then on it does not hold back, unless there is another. */
  lemma ThrottleHoldsBack(w: World, ops: seq<Op>, ex: string, retryAfter: Option<real>, key: Key)
    requires Valid(w.s) && (forall op :: op in ops ==> Allowed(op)) && NoThrottle(ops, ex)
    requires key.0 == ex
    ensures var w' := Step(w, ThrottleOp(ex, retryAfter));
            var until := w.now + if retryAfter.Some? then retryAfter.value else 1.0;
            && Valid(w'.s)
            && (BackingOff(Exec(w', ops).s, ex, Exec(w', ops).now) <==> Exec(w', ops).now < until)
            && (Exec(w', ops).now < until ==> Spent(w', ops, key) == 0.0)
  {
    var w' := Step(w, ThrottleOp(ex, retryAfter));
    StepKeepsValid(w, ThrottleOp(ex, retryAfter));
    assert Until(w'.s.throttledUntil, ex) == Some(w.now + if retryAfter.Some? then retryAfter.value else 1.0);
    WaitStands(w', ops, ex);
    if BackingOff(Exec(w', ops).s, ex, Exec(w', ops).now) {
      NothingSpent(w', ops, key);
    }
  }

  // --------------------------------------------------------------------------
  // New limits, and the counters
  // --------------------------------------------------------------------------

  /** A limit that is registered can be used up at once. */
  lemma RegisteredIsFull(w: World, ex: string, weightClass: string, limit: real, window: Window, now: real)
    requires Valid(w.s) && limit >= 0.0
    ensures var s' := Step(w, RegisterOp(ex, weightClass, limit, window)).s;
            var key := (ex, weightClass);
            && key in s'.buckets && Refill(s'.buckets[key], now).tokens == limit
            && s'.buckets[key].capacity == s'.buckets[key].base == limit && s'.buckets[key].window == window
            && (forall k :: k in w.s.buckets && k != key ==> k in s'.buckets && s'.buckets[k] == w.s.buckets[k])
            && ex in s'.queues && forall e :: e in w.s.queues ==> e in s'.queues && s'.queues[e] == w.s.queues[e]
  {
    if now > w.now {
      RefilledMonotone(limit, limit, window, now - w.now);
    }
  }

  /** The acquire calls of a run that were put in a queue. */
  ghost function Queuings(w: World, ops: seq<Op>): nat
    requires Valid(w.s) && forall op :: op in ops ==> Allowed(op)
  {
    if ops == [] then 0
    else
      var n := |ops| - 1;
      Queuings(w, ops[..n]) + if QueuedBy(Exec(w, ops[..n]), ops[n]) then 1 else 0
  }

  ghost predicate QueuedBy(w: World, op: Op)
    requires Valid(w.s)
  {
    op.AcquireOp? && Acquire(w.s, op.ex, op.weightClass, op.cost, w.now).1 == Queued
  }

  function Throttles(ops: seq<Op>): nat {
    if ops == [] then 0 else Throttles(ops[..|ops| - 1]) + if ops[|ops| - 1].ThrottleOp? then 1 else 0
  }

  lemma StepCounts(w: World, op: Op)
    requires Valid(w.s) && Allowed(op)
    ensures var m, m' := w.s.metrics, Step(w, op).s.metrics;
            && m'.queued == m.queued + (if QueuedBy(w, op) then 1 else 0)
            && m'.throttled == m.throttled + (if op.ThrottleOp? then 1 else 0)
  {
    if op.AcquireOp? {
      AcquireCounts(w.s, op.ex, op.weightClass, op.cost, w.now);
    } else if op.DrainOp? {
      DrainCounts(w.s, op.ex, w.now);
    }
  }

  lemma AcquireCounts(s: State, ex: string, weightClass: string, cost: real, now: real)
    requires Valid(s)
    ensures var (s', answer) := Acquire(s, ex, weightClass, cost, now);
            && s'.metrics.queued == s.metrics.queued + (if answer == Queued then 1 else 0)
            && s'.metrics.throttled == s.metrics.throttled
  {
    var r, key := MaybeRestore(s, ex, now), (ex, weightClass);
    if key in r.buckets {
      EnqueueCounts(r, ex, weightClass, cost);
      EnqueueCounts(Asked(r, key, cost, now), ex, weightClass, cost);
    }
  }

  lemma EnqueueCounts(s: State, ex: string, weightClass: string, cost: real)
    requires ex in s.queues
    ensures Enqueue(s, ex, weightClass, cost).metrics == s.metrics.(queued := s.metrics.queued + 1)
  {
  }

  lemma DrainCounts(s: State, ex: string, now: real)
    requires Valid(s)
    ensures var s' := Drain(s, ex, now).0;
            s'.metrics.queued == s.metrics.queued && s'.metrics.throttled == s.metrics.throttled
  {
  }

  /** The counters count the requests that were queued and the throttles. */
  lemma {:induction false} RunCounts(w: World, ops: seq<Op>)
    requires Valid(w.s) && forall op :: op in ops ==> Allowed(op)
    ensures Exec(w, ops).s.metrics.queued == w.s.metrics.queued + Queuings(w, ops)
    ensures Exec(w, ops).s.metrics.throttled == w.s.metrics.throttled + Throttles(ops)
  {
    if ops != [] {
      var n := |ops| - 1;
      RunCounts(w, ops[..n]);
      StepCounts(Exec(w, ops[..n]), ops[n]);
    }
  }
}

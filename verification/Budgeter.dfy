/** The objects behind the budgeter's state: a clock, one bucket object for each exchange and
    weight class, and the budgeter that holds them (aimos/data/ratelimit.py). Every method
    is proved against the function of the same name on the state's value. */
module Budgeter {
  import opened Numerics
  import opened Schemas
  import opened R = RateLimit

  class Clock {
    var now: real

    constructor (now: real)
      ensures this.now == now
    {
      this.now := now;
    }
  }

  class TokenBucket {
    const baseCapacity: real
    const window: Window
    const clock: Clock
    var capacity: real
    var tokens: real
    var last: real

    constructor (capacity: real, window: Window, clock: Clock)
      ensures this.clock == clock
      ensures View() == Bucket(capacity, window, capacity, capacity, clock.now)
    {
      baseCapacity, this.window, this.clock := capacity, window, clock;
      this.capacity, tokens, last := capacity, capacity, clock.now;
    }

    function View(): Bucket
      reads this
    {
      Bucket(baseCapacity, window, capacity, tokens, last)
    }

    method SetCeilingFraction(fraction: real)
      modifies this
      ensures View() == SetCeiling(old(View()), fraction)
    {
      capacity := baseCapacity * fraction;
      tokens := Min(tokens, capacity);
    }

    method Refill()
      modifies this
      ensures View() == R.Refill(old(View()), clock.now)
    {
      var elapsed := clock.now - last;
      if elapsed <= 0.0 {
        return;
      }
      tokens := Min(capacity, tokens + Refilled(capacity, window, elapsed));
      last := clock.now;
    }

    method Available() returns (available: real)
      modifies this
      ensures View() == R.Refill(old(View()), clock.now) && available == View().tokens
    {
      Refill();
      available := tokens;
    }

    method TryConsume(cost: real) returns (ok: bool)
      modifies this
      ensures (View(), ok) == Consume(old(View()), clock.now, cost)
    {
      Refill();
      if tokens >= cost {
        tokens := tokens - cost;
        return true;
      }
      return false;
    }
  }

  lemma PrefixGrows(queue: seq<Pending>, n: nat)
    requires n < |queue|
    ensures queue[n..][1..] == queue[n + 1..]
    ensures Classes(queue[..n + 1]) == Classes(queue[..n]) + [queue[n].weightClass]
  {
    assert queue[..n + 1][..n] == queue[..n];
  }

  class RateLimitBudgeter {
    const clock: Clock
    const utilizationCeiling: real
    const halveSeconds: real
    const window: Window
    const ranks: map<string, nat>
    var buckets: map<Key, TokenBucket>
    var queues: map<string, seq<Pending>>
    var throttledUntil: map<string, Option<real>>
    var halvedUntil: map<string, Option<real>>
    var nextSeq: nat
    var metrics: Metrics

    /** No two keys share a bucket object, and all buckets read the budgeter's clock. */
    ghost predicate Separate()
      reads this`buckets
    {
      && (forall j, k :: j in buckets && k in buckets && j != k ==> buckets[j] != buckets[k])
      && (forall k :: k in buckets ==> buckets[k].clock == clock)
    }

    ghost function Objects(): set<TokenBucket>
      reads this`buckets
    {
      set k | k in buckets :: buckets[k]
    }

    ghost function BucketViews(): map<Key, Bucket>
      reads this`buckets, Objects()
    {
      map k | k in buckets :: buckets[k].View()
    }

    ghost function View(): State
      reads this, Objects()
    {
      State(ranks, halveSeconds, BucketViews(), queues, throttledUntil, halvedUntil, nextSeq, metrics)
    }

    constructor (clock: Clock, priorityClasses: seq<string>, utilizationCeiling: real, halveHours: real, window: Window)
      ensures Separate()
      ensures View() == State(RanksOf(priorityClasses), halveHours * 3600.0, map[], map[], map[], map[], 0,
                              Metrics(0, 0, 0))
      ensures Valid(View())
    {
      this.clock, this.utilizationCeiling, this.window := clock, utilizationCeiling, window;
      ranks := RanksOf(priorityClasses);
      halveSeconds := halveHours * 3600.0;
      buckets, queues, throttledUntil, halvedUntil := map[], map[], map[], map[];
      nextSeq, metrics := 0, Metrics(0, 0, 0);
    }

    /** A new bucket object under one key; the others are as they were. */
    method AddBucket(key: Key, capacity: real)
      requires Separate()
      modifies this`buckets
      ensures Separate()
      ensures BucketViews() == old(BucketViews())[key := Bucket(capacity, window, capacity, capacity, clock.now)]
    {
      var bucket := new TokenBucket(capacity, window, clock);
      buckets := buckets[key := bucket];
      assert BucketViews() == old(BucketViews())[key := bucket.View()];
    }

    method RegisterLimit(exchange: string, weightClass: string, publishedLimit: real)
      requires Separate()
      modifies this
      ensures Separate()
      ensures View()
              == Register(old(View()), exchange, weightClass, publishedLimit * utilizationCeiling, window, clock.now)
    {
      AddBucket((exchange, weightClass), publishedLimit * utilizationCeiling);
      if exchange !in queues {
        queues := queues[exchange := []];
      }
    }

    /** The loop over all buckets that moves one exchange's ceiling. */
    method ScaleCeilings(exchange: string, fraction: real)
      requires Separate()
      modifies Objects()
      ensures BucketViews() == WithCeiling(old(BucketViews()), exchange, fraction)
    {
      var todo := buckets.Keys;
      while todo != {}
        invariant todo <= buckets.Keys
        invariant forall k :: k in buckets ==>
                    buckets[k].View() == if k in todo || k.0 != exchange then old(buckets[k].View())
                                         else SetCeiling(old(buckets[k].View()), fraction)
        decreases |todo|
      {
        var k :| k in todo;
        todo := todo - {k};
        if k.0 == exchange {
          buckets[k].SetCeilingFraction(fraction);
        }
      }
    }

    /** The halving half of a throttle: when it ends, and the ceilings until then. */
    method Halve(exchange: string, until: real)
      requires Separate()
      modifies this, Objects()
      ensures Separate() && buckets == old(buckets)
      ensures View() == old(View()).(halvedUntil := old(halvedUntil)[exchange := Some(until)],
                                     buckets := WithCeiling(old(BucketViews()), exchange, 0.5))
    {
      halvedUntil := halvedUntil[exchange := Some(until)];
      ScaleCeilings(exchange, 0.5);
    }

    method NoteThrottle(exchange: string, retryAfter: Option<real>) returns (backoff: real)
      requires Separate()
      modifies this, Objects()
      ensures Separate() && buckets == old(buckets)
      ensures View() == R.NoteThrottle(old(View()), exchange, retryAfter, old(clock.now))
      ensures backoff == if retryAfter.Some? then retryAfter.value else 1.0
    {
      var now := clock.now;
      Halve(exchange, now + halveSeconds);
      metrics := metrics.(throttled := metrics.throttled + 1);
      backoff := if retryAfter.Some? then retryAfter.value else 1.0;
      throttledUntil := throttledUntil[exchange := Some(now + backoff)];
    }

    method MaybeRestoreCeiling(exchange: string)
      requires Separate()
      modifies this, Objects()
      ensures Separate() && buckets == old(buckets) && clock.now == old(clock.now)
      ensures View() == MaybeRestore(old(View()), exchange, clock.now)
    {
      var until := Until(halvedUntil, exchange);
      if until.Some? && clock.now >= until.value {
        halvedUntil := halvedUntil[exchange := None];
        ScaleCeilings(exchange, 1.0);
      }
    }

    method IsBackingOff(exchange: string) returns (b: bool)
      ensures b == BackingOff(View(), exchange, clock.now)
    {
      var until := Until(throttledUntil, exchange);
      b := until.Some? && clock.now < until.value;
    }

    /** Asking one bucket leaves the others alone. */
    method Ask(key: Key, cost: real) returns (ok: bool)
      requires Separate() && key in buckets
      modifies buckets[key]
      ensures BucketViews() == old(BucketViews())[key := Consume(old(BucketViews())[key], clock.now, cost).0]
      ensures ok == Consume(old(BucketViews())[key], clock.now, cost).1
    {
      ok := buckets[key].TryConsume(cost);
    }

    method Push(exchange: string, weightClass: string, cost: real)
      requires exchange in queues
      modifies this`queues, this`nextSeq, this`metrics
      ensures View() == Enqueue(old(View()), exchange, weightClass, cost)
    {
      var p := Pending(RankOf(ranks, weightClass), nextSeq, cost, weightClass);
      queues := queues[exchange := R.Push(queues[exchange], p)];
      nextSeq := nextSeq + 1;
      metrics := metrics.(queued := metrics.queued + 1);
    }

    method AskOrPush(exchange: string, weightClass: string, cost: real) returns (answer: Answer)
      requires Separate() && (exchange, weightClass) in buckets && exchange in queues
      modifies this`queues, this`nextSeq, this`metrics, buckets[(exchange, weightClass)]
      ensures (View(), answer) == AskOrEnqueue(old(View()), exchange, weightClass, cost, clock.now)
    {
      ghost var s := View();
      var ok := Ask((exchange, weightClass), cost);
      assert View() == Asked(s, (exchange, weightClass), cost, clock.now);
      if ok {
        metrics := CountGrant(metrics);
        assert View() == Asked(s, (exchange, weightClass), cost, clock.now).(metrics := CountGrant(s.metrics));
        return Granted;
      }
      Push(exchange, weightClass, cost);
      return Queued;
    }

    method Acquire(exchange: string, weightClass: string, cost: real) returns (answer: Answer)
      requires Separate() && Valid(View())
      modifies this, Objects()
      ensures Separate() && buckets == old(buckets)
      ensures (View(), answer) == R.Acquire(old(View()), exchange, weightClass, cost, clock.now)
    {
      ghost var s := View();
      MaybeRestoreCeiling(exchange);
      ghost var r := View();
      assert r == MaybeRestore(s, exchange, clock.now);
      var key := (exchange, weightClass);
      if key !in buckets {
        return NoBucket;
      }
      var blocked := Blocked(ranks, queues[exchange], weightClass);
      var backing := IsBackingOff(exchange);
      if !blocked && !backing {
        answer := AskOrPush(exchange, weightClass, cost);
        assert (View(), answer) == AskOrEnqueue(r, exchange, weightClass, cost, clock.now);
      } else {
        Push(exchange, weightClass, cost);
        answer := Queued;
        assert View() == Enqueue(r, exchange, weightClass, cost);
      }
    }

    /** One turn of the loop of drain. */
    method ServeHead(exchange: string, queue: seq<Pending>, head: Pending, ghost start: map<Key, Bucket>, ghost n: nat)
      returns (ok: bool)
      requires Separate() && forall p :: p in queue ==> (exchange, p.weightClass) in start
      requires n < |queue| && head == queue[n] && (exchange, head.weightClass) in buckets
      requires AfterTurns(start, exchange, queue, n, clock.now) == Some(BucketViews())
      modifies this`metrics, buckets[(exchange, head.weightClass)]
      ensures if ok then AfterTurns(start, exchange, queue, n + 1, clock.now) == Some(BucketViews())
              else Serve(start, exchange, queue, clock.now) == (BucketViews(), n)
      ensures metrics == if ok then CountGrant(old(metrics)) else old(metrics)
    {
      ok := Ask((exchange, head.weightClass), head.cost);
      if ok {
        ghost var views := BucketViews();
        metrics := CountGrant(metrics);
        assert BucketViews() == views;
      } else {
        LastTurn(start, exchange, queue, n, clock.now, BucketViews());
      }
    }

    /** The loop of drain: heads are popped while their buckets can pay. */
    method ServeHeads(exchange: string, queue: seq<Pending>) returns (rest: seq<Pending>, granted: seq<string>)
      requires Separate() && forall p :: p in queue ==> (exchange, p.weightClass) in buckets
      modifies this`metrics, Objects()
      ensures var (final, n) := Serve(old(BucketViews()), exchange, queue, clock.now);
              && BucketViews() == final
              && metrics == old(metrics).(granted := old(metrics).granted + n)
              && rest == queue[n..] && granted == Classes(queue[..n])
    {
      ghost var start := BucketViews();
      ghost var n := 0;
      rest, granted := queue, [];
      while rest != []
        invariant n <= |queue| && rest == queue[n..] && granted == Classes(queue[..n])
        invariant AfterTurns(start, exchange, queue, n, clock.now) == Some(BucketViews())
        invariant metrics == old(metrics).(granted := old(metrics).granted + n)
        decreases |rest|
      {
        var head := rest[0];
        assert head in queue;
        PrefixGrows(queue, n);
        var ok := ServeHead(exchange, queue, head, start, n);
        if !ok {
          return;
        }
        granted, rest := granted + [head.weightClass], rest[1..];
        n := n + 1;
      }
      LastTurn(start, exchange, queue, n, clock.now, BucketViews());
    }

    method ReleaseHeads(exchange: string) returns (granted: seq<string>)
      requires Separate() && exchange in queues
      requires forall p :: p in queues[exchange] ==> (exchange, p.weightClass) in buckets
      modifies this`queues, this`metrics, Objects()
      ensures var (s', released) := Release(old(View()), exchange, clock.now);
              View() == s' && granted == Classes(released)
    {
      ghost var s := View();
      var rest;
      rest, granted := ServeHeads(exchange, queues[exchange]);
      queues := queues[exchange := rest];
      assert View().buckets == Serve(s.buckets, exchange, s.queues[exchange], clock.now).0;
    }

    method Drain(exchange: string) returns (granted: seq<string>)
      requires Separate() && Valid(View())
      modifies this, Objects()
      ensures Separate() && buckets == old(buckets)
      ensures var (s', released) := R.Drain(old(View()), exchange, clock.now);
              View() == s' && granted == Classes(released)
    {
      ghost var s := View();
      MaybeRestoreCeiling(exchange);
      assert View() == MaybeRestore(s, exchange, clock.now);
      var backing := IsBackingOff(exchange);
      if backing || exchange !in queues {
        return [];
      }
      assert ValidQueue(s, exchange);
      granted := ReleaseHeads(exchange);
    }
  }
}

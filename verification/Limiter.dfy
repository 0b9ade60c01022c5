/** The request limiter of the authentication endpoints (aimos/api/server.py). It keeps, per key,
    a queue from which old hits are dropped; the specification keeps every accepted hit. */
module Limiter {

  datatype Config = Config(maxHits: int, window: real)

  datatype Call = Call(key: string, now: real)

  type Hits = map<string, seq<real>>

  function QueueOf(hits: Hits, key: string): seq<real> {
    if key in hits then hits[key] else []
  }

  function Pruned(queue: seq<real>, cutoff: real): seq<real> {
    if queue != [] && queue[0] < cutoff then Pruned(queue[1..], cutoff) else queue
  }

  function Admit(cfg: Config, hits: Hits, c: Call): (Hits, bool) {
    var queue := Pruned(QueueOf(hits, c.key), c.now - cfg.window);
    if |queue| >= cfg.maxHits then (hits[c.key := queue], false)
    else (hits[c.key := queue + [c.now]], true)
  }

  class FixedWindowLimiter {
    const cfg: Config
    var hits: Hits

    constructor (maxHits: int, window: real)
      ensures cfg == Config(maxHits, window) && hits == map[]
    {
      cfg := Config(maxHits, window);
      hits := map[];
    }

    method Allow(key: string, now: real) returns (ok: bool)
      modifies this
      ensures (hits, ok) == Admit(cfg, old(hits), Call(key, now))
    {
      var queue := QueueOf(hits, key);
      var cutoff := now - cfg.window;
      while queue != [] && queue[0] < cutoff
        invariant Pruned(queue, cutoff) == Pruned(QueueOf(hits, key), cutoff)
      {
        queue := queue[1..];
      }
      ok := |queue| < cfg.maxHits;
      if ok {
        queue := queue + [now];
      }
      hits := hits[key := queue];
    }
  }

  // --------------------------------------------------------------------------
  // Runs, and the full history
  // --------------------------------------------------------------------------

  function Run(cfg: Config, calls: seq<Call>): Hits {
    if calls == [] then map[] else Admit(cfg, Run(cfg, calls[..|calls| - 1]), calls[|calls| - 1]).0
  }

  function CountIn(times: seq<real>, lo: real, hi: real): nat {
    if times == [] then 0
    else CountIn(times[..|times| - 1], lo, hi) + (if lo <= times[|times| - 1] <= hi then 1 else 0)
  }

  /** Fewer than maxHits of the accepted hits lie in the window that ends now. */
  predicate HasRoom(cfg: Config, accepted: seq<real>, now: real) {
    CountIn(accepted, now - cfg.window, now) < cfg.maxHits
  }

  /** All the hits of a key that a limiter with an unbounded memory accepts. */
  function Accepted(cfg: Config, calls: seq<Call>, key: string): seq<real> {
    if calls == [] then []
    else
      var before := Accepted(cfg, calls[..|calls| - 1], key);
      var c := calls[|calls| - 1];
      if c.key == key && HasRoom(cfg, before, c.now) then before + [c.now] else before
  }

  /** The clock does not run backwards for any key. */
  ghost predicate Forward(calls: seq<Call>) {
    forall i, j :: 0 <= i < j < |calls| && calls[i].key == calls[j].key ==> calls[i].now <= calls[j].now
  }

  ghost predicate NotAfter(calls: seq<Call>, key: string, now: real) {
    forall c :: c in calls && c.key == key ==> c.now <= now
  }

  lemma ForwardLast(calls: seq<Call>, c: Call)
    requires Forward(calls + [c])
    ensures Forward(calls) && NotAfter(calls, c.key, c.now)
  {
    var all := calls + [c];
    forall i, j | 0 <= i < j < |calls| && calls[i].key == calls[j].key
      ensures calls[i].now <= calls[j].now
    {
      assert all[i] == calls[i] && all[j] == calls[j];
    }
    forall d | d in calls && d.key == c.key
      ensures d.now <= c.now
    {
      var i :| 0 <= i < |calls| && calls[i] == d;
      assert all[i] == d && all[|calls|] == c;
    }
  }

  ghost predicate Ascending(times: seq<real>) {
    forall i, j :: 0 <= i < j < |times| ==> times[i] <= times[j]
  }

  ghost predicate AllWithin(times: seq<real>, now: real) {
    forall i :: 0 <= i < |times| ==> times[i] <= now
  }

  lemma {:induction false} AcceptedAscending(cfg: Config, calls: seq<Call>, key: string, now: real)
    requires Forward(calls) && NotAfter(calls, key, now)
    ensures Ascending(Accepted(cfg, calls, key))
    ensures AllWithin(Accepted(cfg, calls, key), now)
  {
    if calls != [] {
      var n := |calls| - 1;
      assert calls == calls[..n] + [calls[n]];
      ForwardLast(calls[..n], calls[n]);
      assert calls[n] in calls;
      AcceptedAscending(cfg, calls[..n], key, if calls[n].key == key then calls[n].now else now);
    }
  }

  lemma {:induction false} CountNone(times: seq<real>, lo: real, hi: real)
    requires forall i :: 0 <= i < |times| ==> times[i] < lo
    ensures CountIn(times, lo, hi) == 0
  {
    if times != [] {
      CountNone(times[..|times| - 1], lo, hi);
    }
  }

  lemma {:induction false} CountAll(times: seq<real>, lo: real, hi: real)
    requires forall i :: 0 <= i < |times| ==> lo <= times[i] <= hi
    ensures CountIn(times, lo, hi) == |times|
  {
    if times != [] {
      CountAll(times[..|times| - 1], lo, hi);
    }
  }

  lemma {:induction false} CountConcat(a: seq<real>, b: seq<real>, lo: real, hi: real)
    ensures CountIn(a + b, lo, hi) == CountIn(a, lo, hi) + CountIn(b, lo, hi)
  {
    if b == [] {
      assert a + b == a;
    } else {
      assert (a + b)[..|a + b| - 1] == a + b[..|b| - 1];
      CountConcat(a, b[..|b| - 1], lo, hi);
    }
  }

  lemma {:induction false} CountWithin(times: seq<real>, lo: real, hi: real, lo': real, hi': real)
    requires forall i :: 0 <= i < |times| && lo <= times[i] <= hi ==> lo' <= times[i] <= hi'
    ensures CountIn(times, lo, hi) <= CountIn(times, lo', hi')
  {
    if times != [] {
      CountWithin(times[..|times| - 1], lo, hi, lo', hi');
    }
  }

  /** Pruning an ascending queue leaves exactly what is recent enough. */
  lemma {:induction false} PrunedIsSuffix(queue: seq<real>, cutoff: real) returns (k: nat)
    requires Ascending(queue)
    ensures k <= |queue| && Pruned(queue, cutoff) == queue[k..]
    ensures forall i :: 0 <= i < k ==> queue[i] < cutoff
    ensures forall i :: k <= i < |queue| ==> queue[i] >= cutoff
  {
    k := 0;
    if queue != [] && queue[0] < cutoff {
      var m := PrunedIsSuffix(queue[1..], cutoff);
      k := m + 1;
    }
  }

  /** queue is accepted without its first k hits, all out of the window that ends now. */
  ghost predicate Agrees(cfg: Config, queue: seq<real>, accepted: seq<real>, k: nat, now: real) {
    && k <= |accepted|
    && queue == accepted[k..]
    && (forall i :: 0 <= i < k ==> accepted[i] < now - cfg.window)
  }

  lemma CountRecent(times: seq<real>, k: nat, lo: real, hi: real)
    requires k <= |times| && forall i :: 0 <= i < k ==> times[i] < lo
    requires forall i :: k <= i < |times| ==> lo <= times[i] <= hi
    ensures CountIn(times, lo, hi) == |times| - k
  {
    assert times == times[..k] + times[k..];
    CountConcat(times[..k], times[k..], lo, hi);
    CountNone(times[..k], lo, hi);
    CountAll(times[k..], lo, hi);
  }

  lemma PrunedAgrees(cfg: Config, queue: seq<real>, accepted: seq<real>, m: nat, now: real) returns (k: nat)
    requires Ascending(accepted) && AllWithin(accepted, now) && Agrees(cfg, queue, accepted, m, now)
    ensures Agrees(cfg, Pruned(queue, now - cfg.window), accepted, k, now)
    ensures forall i :: k <= i < |accepted| ==> accepted[i] >= now - cfg.window
  {
    var cutoff := now - cfg.window;
    var p := PrunedIsSuffix(queue, cutoff);
    k := m + p;
    assert queue[p..] == accepted[k..];
    assert forall i :: m <= i < |accepted| ==> accepted[i] == queue[i - m];
  }

  /** One call on a queue that agrees with the history. */
  lemma CallAgrees(cfg: Config, hits: Hits, c: Call, accepted: seq<real>, m: nat) returns (k: nat)
    requires Ascending(accepted) && AllWithin(accepted, c.now) && Agrees(cfg, QueueOf(hits, c.key), accepted, m, c.now)
    ensures Admit(cfg, hits, c).1 == HasRoom(cfg, accepted, c.now)
    ensures var accepted' := if HasRoom(cfg, accepted, c.now) then accepted + [c.now] else accepted;
            Agrees(cfg, QueueOf(Admit(cfg, hits, c).0, c.key), accepted', k, c.now)
  {
    k := PrunedAgrees(cfg, QueueOf(hits, c.key), accepted, m, c.now);
    CountRecent(accepted, k, c.now - cfg.window, c.now);
    assert (accepted + [c.now])[k..] == accepted[k..] + [c.now];
  }

  /** The queue is the history without a first part that is out of every window to come. */
  lemma {:induction false} QueueAgrees(cfg: Config, calls: seq<Call>, key: string, now: real) returns (k: nat)
    requires Forward(calls) && NotAfter(calls, key, now)
    ensures Agrees(cfg, QueueOf(Run(cfg, calls), key), Accepted(cfg, calls, key), k, now)
  {
    k := 0;
    if calls != [] {
      var n := |calls| - 1;
      var c := calls[n];
      assert calls == calls[..n] + [c];
      ForwardLast(calls[..n], c);
      assert c in calls;
      if c.key == key {
        var m := QueueAgrees(cfg, calls[..n], key, c.now);
        AcceptedAscending(cfg, calls[..n], key, c.now);
        k := CallAgrees(cfg, Run(cfg, calls[..n]), c, Accepted(cfg, calls[..n], key), m);
      } else {
        k := QueueAgrees(cfg, calls[..n], key, now);
      }
    }
  }

  // --------------------------------------------------------------------------
  // The promises
  // --------------------------------------------------------------------------

  /** The limiter answers as if it had kept every hit: yes exactly when fewer than maxHits
      accepted hits of the key lie in the closed window that ends now. */
  lemma AllowsIff(cfg: Config, calls: seq<Call>, c: Call)
    requires Forward(calls + [c])
    ensures Admit(cfg, Run(cfg, calls), c).1 <==> HasRoom(cfg, Accepted(cfg, calls, c.key), c.now)
  {
    ForwardLast(calls, c);
    AcceptedAscending(cfg, calls, c.key, c.now);
    var m := QueueAgrees(cfg, calls, c.key, c.now);
    var k := CallAgrees(cfg, Run(cfg, calls), c, Accepted(cfg, calls, c.key), m);
  }

  /** No closed interval as long as the window, wherever it lies, holds more than maxHits accepted
      hits of a key. */
  lemma {:induction false} AtMostMaxHits(cfg: Config, calls: seq<Call>, key: string, from: real)
    requires Forward(calls)
    ensures CountIn(Accepted(cfg, calls, key), from, from + cfg.window) <= if cfg.maxHits > 0 then cfg.maxHits else 0
  {
    if calls != [] {
      var n := |calls| - 1;
      var c := calls[n];
      assert calls == calls[..n] + [c];
      ForwardLast(calls[..n], c);
      AtMostMaxHits(cfg, calls[..n], key, from);
      var before := Accepted(cfg, calls[..n], key);
      if c.key == key && HasRoom(cfg, before, c.now) {
        AcceptedAscending(cfg, calls[..n], key, c.now);
        OneMore(cfg, before, c.now, from);
      }
    }
  }

  lemma OneMore(cfg: Config, before: seq<real>, now: real, from: real)
    requires AllWithin(before, now) && HasRoom(cfg, before, now)
    requires CountIn(before, from, from + cfg.window) <= cfg.maxHits
    ensures CountIn(before + [now], from, from + cfg.window) <= cfg.maxHits
  {
    assert (before + [now])[..|before|] == before;
    if from <= now <= from + cfg.window {
      CountWithin(before, from, from + cfg.window, now - cfg.window, now);
    }
  }

  function Only(calls: seq<Call>, key: string): seq<Call> {
    if calls == [] then []
    else Only(calls[..|calls| - 1], key) + (if calls[|calls| - 1].key == key then [calls[|calls| - 1]] else [])
  }

  lemma RunSnoc(cfg: Config, calls: seq<Call>, c: Call)
    ensures Run(cfg, calls + [c]) == Admit(cfg, Run(cfg, calls), c).0
    ensures Accepted(cfg, calls + [c], c.key)
            == Accepted(cfg, calls, c.key) + (if HasRoom(cfg, Accepted(cfg, calls, c.key), c.now) then [c.now] else [])
  {
    assert (calls + [c])[..|calls|] == calls;
  }

  /** What happens under other keys makes no difference to a key. */
  lemma {:induction false} KeyAlone(cfg: Config, calls: seq<Call>, key: string)
    ensures QueueOf(Run(cfg, calls), key) == QueueOf(Run(cfg, Only(calls, key)), key)
  {
    if calls != [] {
      var n := |calls| - 1;
      KeyAlone(cfg, calls[..n], key);
      if calls[n].key == key {
        RunSnoc(cfg, Only(calls[..n], key), calls[n]);
      } else {
        assert Only(calls, key) == Only(calls[..n], key);
      }
    }
  }

  // --------------------------------------------------------------------------
  // Clocks that run backwards
  // --------------------------------------------------------------------------

  /** The times at which a key was called. */
  function TimesOf(calls: seq<Call>, key: string): seq<real> {
    if calls == [] then []
    else if calls[|calls| - 1].key == key then TimesOf(calls[..|calls| - 1], key) + [calls[|calls| - 1].now]
    else TimesOf(calls[..|calls| - 1], key)
  }

  lemma {:induction false} TimesOfCall(calls: seq<Call>, i: nat) returns (j: nat)
    requires i < |calls|
    ensures j < |TimesOf(calls, calls[i].key)| && TimesOf(calls, calls[i].key)[j] == calls[i].now
  {
    var n := |calls| - 1;
    if i < n {
      j := TimesOfCall(calls[..n], i);
    } else {
      j := |TimesOf(calls, calls[i].key)| - 1;
    }
  }

  lemma {:induction false} TimesAscending(calls: seq<Call>, key: string, now: real)
    requires Forward(calls) && NotAfter(calls, key, now)
    ensures Ascending(TimesOf(calls, key)) && AllWithin(TimesOf(calls, key), now)
  {
    if calls != [] {
      var n := |calls| - 1;
      assert calls == calls[..n] + [calls[n]];
      ForwardLast(calls[..n], calls[n]);
      assert calls[n] in calls;
      TimesAscending(calls[..n], key, if calls[n].key == key then calls[n].now else now);
    }
  }

  /** Any two times lie within one window. */
  ghost predicate Narrow(cfg: Config, times: seq<real>) {
    forall i, j :: 0 <= i < |times| && 0 <= j < |times| ==> times[i] >= times[j] - cfg.window
  }

  lemma CallKept(cfg: Config, hits: Hits, c: Call, times: seq<real>)
    requires QueueOf(hits, c.key) == times && |times| < cfg.maxHits && Narrow(cfg, times + [c.now])
    ensures QueueOf(Admit(cfg, hits, c).0, c.key) == times + [c.now] && HasRoom(cfg, times, c.now)
  {
    var all := times + [c.now];
    assert all[|times|] == c.now;
    if times != [] {
      assert times[0] == all[0];
    }
    CountAtMost(times, c.now - cfg.window, c.now);
  }

  lemma NarrowPrefix(cfg: Config, times: seq<real>, now: real)
    requires Narrow(cfg, times + [now])
    ensures Narrow(cfg, times)
  {
    var all := times + [now];
    assert forall i :: 0 <= i < |times| ==> all[i] == times[i];
  }

  /** With room for all and a window that spans them all, every hit is accepted and kept. */
  lemma {:induction false} EverythingKept(cfg: Config, calls: seq<Call>, key: string)
    requires |TimesOf(calls, key)| <= cfg.maxHits && Narrow(cfg, TimesOf(calls, key))
    ensures QueueOf(Run(cfg, calls), key) == Accepted(cfg, calls, key) == TimesOf(calls, key)
  {
    if calls != [] {
      var n := |calls| - 1;
      var before := TimesOf(calls[..n], key);
      if calls[n].key == key {
        NarrowPrefix(cfg, before, calls[n].now);
        EverythingKept(cfg, calls[..n], key);
        CallKept(cfg, Run(cfg, calls[..n]), calls[n], before);
      } else {
        EverythingKept(cfg, calls[..n], key);
      }
    }
  }

  lemma {:induction false} CountAtMost(times: seq<real>, lo: real, hi: real)
    ensures CountIn(times, lo, hi) <= |times|
  {
    if times != [] {
      CountAtMost(times[..|times| - 1], lo, hi);
    }
  }

  lemma {:induction false} CountMisses(times: seq<real>, lo: real, hi: real, i: nat)
    requires i < |times| && times[i] > hi
    ensures CountIn(times, lo, hi) < |times|
  {
    var n := |times| - 1;
    if i < n {
      CountMisses(times[..n], lo, hi, i);
    } else {
      CountAtMost(times[..n], lo, hi);
    }
  }

  /** A full queue with nothing to prune refuses a call that is earlier than one of its hits. */
  lemma LateCallRefused(cfg: Config, hits: Hits, c: Call, times: seq<real>, j: nat)
    requires QueueOf(hits, c.key) == times && |times| == cfg.maxHits && j < |times| && times[j] > c.now
    requires times[0] >= c.now - cfg.window
    ensures !Admit(cfg, hits, c).1 && HasRoom(cfg, times, c.now)
  {
    CountMisses(times, c.now - cfg.window, c.now, j);
  }

  lemma WideWindow(cfg: Config, times: seq<real>, first: real, last: real)
    requires cfg.window == last - first && forall i :: 0 <= i < |times| ==> first <= times[i] <= last
    ensures Narrow(cfg, times)
  {
  }

  /** A limit of as many hits as the key has, and a window that spans them and now. */
  lemma SpanningConfig(calls: seq<Call>, key: string, now: real) returns (cfg: Config)
    requires Forward(calls)
    ensures var times := TimesOf(calls, key);
            && cfg.maxHits == |times|
            && Narrow(cfg, times)
            && (times != [] ==> times[0] >= now - cfg.window)
  {
    var times := TimesOf(calls, key);
    var latest := Latest(calls, key);
    TimesAscending(calls, key, latest);
    var last := if latest < now then now else latest;
    var first := if times != [] && times[0] < now then times[0] else now;
    cfg := Config(|times|, last - first);
    if times != [] {
      WideWindow(cfg, times, first, last);
    }
  }

  /** A call in the past of an earlier one: such a limit refuses it although one of the hits lies
      in its future. */
  lemma BackwardCallRefused(calls: seq<Call>, c: Call, i: nat) returns (cfg: Config)
    requires Forward(calls) && i < |calls| && calls[i].key == c.key && calls[i].now > c.now
    ensures !Admit(cfg, Run(cfg, calls), c).1 && HasRoom(cfg, Accepted(cfg, calls, c.key), c.now)
  {
    var j := TimesOfCall(calls, i);
    cfg := SpanningConfig(calls, c.key, c.now);
    EverythingKept(cfg, calls, c.key);
    LateCallRefused(cfg, Run(cfg, calls), c, TimesOf(calls, c.key), j);
  }

  lemma {:induction false} Latest(calls: seq<Call>, key: string) returns (now: real)
    ensures NotAfter(calls, key, now)
  {
    now := 0.0;
    if calls != [] {
      var n := |calls| - 1;
      assert calls == calls[..n] + [calls[n]];
      now := Latest(calls[..n], key);
      if calls[n].now > now {
        now := calls[n].now;
      }
    }
  }

  /** After calls in order, the limiter gives the answer of the full history, whatever its limit and
      its window, exactly when the next call is in order too. */
  lemma AgreesIffForward(calls: seq<Call>, c: Call)
    requires Forward(calls)
    ensures (forall cfg :: Admit(cfg, Run(cfg, calls), c).1 == HasRoom(cfg, Accepted(cfg, calls, c.key), c.now))
            <==> Forward(calls + [c])
  {
    if Forward(calls + [c]) {
      forall cfg
        ensures Admit(cfg, Run(cfg, calls), c).1 == HasRoom(cfg, Accepted(cfg, calls, c.key), c.now)
      {
        AllowsIff(cfg, calls, c);
      }
    } else {
      var i := LateCall(calls, c);
      var cfg := BackwardCallRefused(calls, c, i);
    }
  }

  lemma LateCall(calls: seq<Call>, c: Call) returns (i: nat)
    requires Forward(calls) && !Forward(calls + [c])
    ensures i < |calls| && calls[i].key == c.key && calls[i].now > c.now
  {
    var all := calls + [c];
    assert forall k :: 0 <= k < |calls| ==> all[k] == calls[k];
    var a, b :| 0 <= a < b < |all| && all[a].key == all[b].key && all[a].now > all[b].now;
    i := a;
  }
}

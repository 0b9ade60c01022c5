/** Tier membership with hysteresis, as values (aimos/universe/tiers.py). */
module Tiers {
  import opened Numerics

  datatype Tier = T1 | T2 | T3 | Provisional

  datatype Config = Config(t1Max: int, t2Max: int, provisionalMax: int, promote: real, demote: real, demoteScans: int)

  datatype State = State(tier: map<string, Tier>, streak: map<string, int>, provisional: set<string>)

  const EMPTY := State(map[], map[], {})

  /** The scores of one scan, in the order of the dictionary they come in. */
  type Scores = seq<(string, real)>

  function UpperChar(c: char): char {
    if 'a' <= c <= 'z' then c - 'a' + 'A' else c
  }

  function Upper(s: string): (u: string)
    ensures |u| == |s|
  {
    seq(|s|, i requires 0 <= i < |s| => UpperChar(s[i]))
  }

  predicate IsUpper(s: string) {
    Upper(s) == s
  }

  lemma UpperIsUpper(s: string)
    ensures IsUpper(Upper(s))
  {
  }

  function TierOf(tier: map<string, Tier>, b: string): Tier {
    if Upper(b) in tier then tier[Upper(b)] else T3
  }

  function Members(tier: map<string, Tier>): set<string> {
    set b | b in tier && tier[b] == T1
  }

  function ScoreOf(scores: Scores, b: string): real {
    if scores == [] then 0.0
    else if scores[|scores| - 1].0 == b then scores[|scores| - 1].1
    else ScoreOf(scores[..|scores| - 1], b)
  }

  function StreakOf(streak: map<string, int>, b: string): int {
    if b in streak then streak[b] else 0
  }

  // --------------------------------------------------------------------------
  // Provisional slots
  // --------------------------------------------------------------------------

  function AddProvisional(cfg: Config, s: State, base: string): (State, bool) {
    var b := Upper(base);
    if b in s.provisional then (s, true)
    else if |s.provisional| >= cfg.provisionalMax then (s, false)
    else (s.(provisional := s.provisional + {b}, tier := s.tier[b := Provisional]), true)
  }

  function ClearProvisional(s: State, base: string): State {
    var b := Upper(base);
    if b in s.provisional then s.(provisional := s.provisional - {b}, tier := s.tier[b := T3]) else s
  }

  // --------------------------------------------------------------------------
  // A scan, step 1: the demotion of members
  // --------------------------------------------------------------------------

  predicate Below(cfg: Config, scores: Scores, b: string) {
    ScoreOf(scores, b) < cfg.demote
  }

  predicate Demoted(cfg: Config, s: State, scores: Scores, b: string) {
    Below(cfg, scores, b) && StreakOf(s.streak, b) + 1 >= cfg.demoteScans
  }

  /** One member's turn. */
  function Review(cfg: Config, s: State, scores: Scores, b: string): State {
    if !Below(cfg, scores, b) then s.(streak := s.streak[b := 0])
    else if Demoted(cfg, s, scores, b) then s.(streak := s.streak - {b}, tier := s.tier[Upper(b) := T2])
    else s.(streak := s.streak[b := StreakOf(s.streak, b) + 1])
  }

  // --------------------------------------------------------------------------
  // A scan, step 2: promotion into free slots
  // --------------------------------------------------------------------------

  /** sorted by score, best first, ties in the order they came. */
  function InsertDesc(sorted: Scores, e: (string, real)): Scores {
    if sorted == [] || sorted[|sorted| - 1].1 >= e.1 then sorted + [e]
    else InsertDesc(sorted[..|sorted| - 1], e) + [sorted[|sorted| - 1]]
  }

  function SortDesc(scores: Scores): Scores {
    if scores == [] then [] else InsertDesc(SortDesc(scores[..|scores| - 1]), scores[|scores| - 1])
  }

  function Promotable(cfg: Config, tier: map<string, Tier>, scores: Scores): Scores {
    if scores == [] then []
    else
      var n := |scores| - 1;
      Promotable(cfg, tier, scores[..n])
      + (if scores[n].1 >= cfg.promote && TierOf(tier, scores[n].0) != T1 then [scores[n]] else [])
  }

  function Queue(cfg: Config, tier: map<string, Tier>, scores: Scores): Scores {
    SortDesc(Promotable(cfg, tier, scores))
  }

  function PromoteOne(s: State, b: string): State {
    s.(tier := s.tier[Upper(b) := T1], streak := s.streak[b := 0])
  }

  function PromoteAll(cfg: Config, s: State, queue: Scores): State
    decreases |queue|
  {
    if queue == [] || |Members(s.tier)| >= cfg.t1Max then s
    else PromoteAll(cfg, PromoteOne(s, queue[0].0), queue[1..])
  }

  // --------------------------------------------------------------------------
  // A scan, step 3: the watch list
  // --------------------------------------------------------------------------

  function Bases(scores: Scores): seq<string> {
    if scores == [] then [] else Bases(scores[..|scores| - 1]) + [scores[|scores| - 1].0]
  }

  function Watch(cfg: Config, tier: map<string, Tier>, taken: set<string>, ranking: seq<string>,
                 placed: nat): map<string, Tier>
    decreases |ranking|
  {
    if ranking == [] then tier
    else
      var b := Upper(ranking[0]);
      if b in taken then Watch(cfg, tier, taken, ranking[1..], placed)
      else if placed >= cfg.t2Max then tier
      else Watch(cfg, tier[b := T2], taken, ranking[1..], placed + 1)
  }

  function Ranking(scores: Scores, watch: seq<string>): seq<string> {
    if watch != [] then watch else Bases(SortDesc(scores))
  }

  // --------------------------------------------------------------------------
  // A scan
  // --------------------------------------------------------------------------

  /** The members in done have had their turn, in whatever order. */
  ghost function ReviewSome(cfg: Config, s: State, scores: Scores, done: set<string>): State {
    s.(tier := map b | b in s.tier :: if b in done && Demoted(cfg, s, scores, b) then T2 else s.tier[b],
       streak := map b | b in s.streak.Keys + done && !(b in done && Demoted(cfg, s, scores, b)) ::
                   if b !in done then s.streak[b]
                   else if Below(cfg, scores, b) then StreakOf(s.streak, b) + 1
                   else 0)
  }

  /** The rest of a scan, once the members have been reviewed. */
  function AfterReview(cfg: Config, s: State, scores: Scores, watch: seq<string>): State {
    var p := PromoteAll(cfg, s, Queue(cfg, s.tier, scores));
    p.(tier := Watch(cfg, p.tier, Members(p.tier) + p.provisional, Ranking(scores, watch), 0))
  }

  ghost function Update(cfg: Config, s: State, scores: Scores, watch: seq<string>): State {
    AfterReview(cfg, ReviewSome(cfg, s, scores, Members(s.tier)), scores, watch)
  }

  ghost predicate KeysUpper(tier: map<string, Tier>) {
    forall b :: b in tier ==> IsUpper(b)
  }

  /** One more turn. */
  lemma ReviewNext(cfg: Config, s: State, scores: Scores, done: set<string>, b: string)
    requires KeysUpper(s.tier) && done <= Members(s.tier) && b in Members(s.tier) && b !in done
    ensures Review(cfg, ReviewSome(cfg, s, scores, done), scores, b) == ReviewSome(cfg, s, scores, done + {b})
  {
    var r, r' := ReviewSome(cfg, s, scores, done), ReviewSome(cfg, s, scores, done + {b});
    assert StreakOf(r.streak, b) == StreakOf(s.streak, b);
    assert Demoted(cfg, r, scores, b) == Demoted(cfg, s, scores, b);
    assert Review(cfg, r, scores, b).tier == r'.tier;
    assert Review(cfg, r, scores, b).streak == r'.streak;
  }

  // --------------------------------------------------------------------------
  // Caps
  // --------------------------------------------------------------------------

  ghost predicate Capped(cfg: Config, s: State) {
    && KeysUpper(s.tier)
    && (cfg.t1Max >= 0 ==> |Members(s.tier)| <= cfg.t1Max)
    && (cfg.provisionalMax >= 0 ==> |s.provisional| <= cfg.provisionalMax)
  }

  lemma FewerMembers(cfg: Config, s: State, s': State)
    requires Capped(cfg, s) && KeysUpper(s'.tier) && Members(s'.tier) <= Members(s.tier)
    requires s'.provisional == s.provisional
    ensures Capped(cfg, s')
  {
    SubsetCardinality(Members(s'.tier), Members(s.tier));
  }

  lemma {:induction false} PromoteCapped(cfg: Config, s: State, queue: Scores)
    requires Capped(cfg, s)
    ensures Capped(cfg, PromoteAll(cfg, s, queue))
    decreases |queue|
  {
    if queue != [] && |Members(s.tier)| < cfg.t1Max {
      var b := Upper(queue[0].0);
      UpperIsUpper(queue[0].0);
      var s' := PromoteOne(s, queue[0].0);
      assert Members(s'.tier) == Members(s.tier) + {b};
      PromoteCapped(cfg, s', queue[1..]);
    }
  }

  lemma {:induction false} WatchKeepsMembers(cfg: Config, tier: map<string, Tier>, taken: set<string>,
                                             ranking: seq<string>, placed: nat)
    requires KeysUpper(tier) && Members(tier) <= taken
    ensures KeysUpper(Watch(cfg, tier, taken, ranking, placed))
    ensures Members(Watch(cfg, tier, taken, ranking, placed)) == Members(tier)
    decreases |ranking|
  {
    if ranking != [] {
      var b := Upper(ranking[0]);
      UpperIsUpper(ranking[0]);
      if b in taken {
        WatchKeepsMembers(cfg, tier, taken, ranking[1..], placed);
      } else if placed < cfg.t2Max {
        assert Members(tier[b := T2]) == Members(tier);
        WatchKeepsMembers(cfg, tier[b := T2], taken, ranking[1..], placed + 1);
      }
    }
  }

  lemma UpdateCapped(cfg: Config, s: State, scores: Scores, watch: seq<string>)
    requires Capped(cfg, s)
    ensures Capped(cfg, Update(cfg, s, scores, watch))
  {
    var r := ReviewSome(cfg, s, scores, Members(s.tier));
    FewerMembers(cfg, s, r);
    var queue := Queue(cfg, r.tier, scores);
    PromoteCapped(cfg, r, queue);
    var p := PromoteAll(cfg, r, queue);
    WatchKeepsMembers(cfg, p.tier, Members(p.tier) + p.provisional, Ranking(scores, watch), 0);
    FewerMembers(cfg, p, Update(cfg, s, scores, watch));
  }

  lemma AddCapped(cfg: Config, s: State, base: string)
    requires Capped(cfg, s)
    ensures Capped(cfg, AddProvisional(cfg, s, base).0)
  {
    UpperIsUpper(base);
    var s' := AddProvisional(cfg, s, base).0;
    SubsetCardinality(Members(s'.tier), Members(s.tier));
  }

  lemma ClearCapped(cfg: Config, s: State, base: string)
    requires Capped(cfg, s)
    ensures Capped(cfg, ClearProvisional(s, base))
  {
    UpperIsUpper(base);
    var s' := ClearProvisional(s, base);
    SubsetCardinality(Members(s'.tier), Members(s.tier));
    SubsetCardinality(s'.provisional, s.provisional);
  }

  // --------------------------------------------------------------------------
  // Runs
  // --------------------------------------------------------------------------

  datatype Op =
    | UpdateOp(scores: Scores, watch: seq<string>)
    | AddOp(base: string)
    | ClearOp(base: string)

  ghost function Do(cfg: Config, s: State, op: Op): State {
    match op
    case UpdateOp(scores, watch) => Update(cfg, s, scores, watch)
    case AddOp(base) => AddProvisional(cfg, s, base).0
    case ClearOp(base) => ClearProvisional(s, base)
  }

  ghost function Run(cfg: Config, ops: seq<Op>): State {
    if ops == [] then EMPTY else Do(cfg, Run(cfg, ops[..|ops| - 1]), ops[|ops| - 1])
  }

  /** In every run, whatever the case of the keys, the members and the provisional slots stay
      within their caps. */
  lemma {:induction false} RunCapped(cfg: Config, ops: seq<Op>)
    ensures Capped(cfg, Run(cfg, ops))
  {
    if ops == [] {
      assert Members(EMPTY.tier) == {};
    } else {
      var n := |ops| - 1;
      RunCapped(cfg, ops[..n]);
      match ops[n]
      case UpdateOp(scores, watch) => UpdateCapped(cfg, Run(cfg, ops[..n]), scores, watch);
      case AddOp(base) => AddCapped(cfg, Run(cfg, ops[..n]), base);
      case ClearOp(base) => ClearCapped(cfg, Run(cfg, ops[..n]), base);
    }
  }

  // --------------------------------------------------------------------------
  // Hysteresis
  // --------------------------------------------------------------------------

  /** No key is scored twice. */
  ghost predicate IsDictionary(scores: Scores) {
    forall i, j :: 0 <= i < j < |scores| ==> scores[i].0 != scores[j].0
  }

  /** The scores are a dictionary, and under no other spelling of b do they reach the promotion threshold. */
  ghost predicate Keyed(cfg: Config, scores: Scores, b: string) {
    && IsDictionary(scores)
    && forall e :: e in scores && Upper(e.0) == b && e.1 >= cfg.promote ==> e.0 == b
  }

  ghost predicate KeyedRun(cfg: Config, ops: seq<Op>, b: string) {
    forall op :: op in ops && op.UpdateOp? ==> Keyed(cfg, op.scores, b)
  }

  ghost predicate InT1(cfg: Config, ops: seq<Op>, b: string) {
    b in Members(Run(cfg, ops).tier)
  }

  /** The scans, counted back from the end of the run through b's present stay in T1, that
      scored it below the demotion threshold without a break. */
  ghost function Consecutive(cfg: Config, ops: seq<Op>, b: string): nat {
    if ops == [] then 0
    else
      var n := |ops| - 1;
      if !InT1(cfg, ops[..n], b) then 0
      else if !ops[n].UpdateOp? then Consecutive(cfg, ops[..n], b)
      else if Below(cfg, ops[n].scores, b) then Consecutive(cfg, ops[..n], b) + 1
      else 0
  }

  lemma {:induction false} InsertMembers(sorted: Scores, e: (string, real), x: (string, real))
    ensures x in InsertDesc(sorted, e) <==> x in sorted || x == e
  {
    if sorted == [] || sorted[|sorted| - 1].1 >= e.1 {
    } else {
      var n := |sorted| - 1;
      InsertMembers(sorted[..n], e, x);
      assert sorted == sorted[..n] + [sorted[n]];
    }
  }

  lemma {:induction false} SortMembers(scores: Scores, x: (string, real))
    ensures x in SortDesc(scores) <==> x in scores
  {
    if scores != [] {
      var n := |scores| - 1;
      SortMembers(scores[..n], x);
      InsertMembers(SortDesc(scores[..n]), scores[n], x);
      assert scores == scores[..n] + [scores[n]];
    }
  }

  lemma {:induction false} PromotableMembers(cfg: Config, tier: map<string, Tier>, scores: Scores, x: (string, real))
    ensures x in Promotable(cfg, tier, scores) <==> x in scores && x.1 >= cfg.promote && TierOf(tier, x.0) != T1
  {
    if scores != [] {
      var n := |scores| - 1;
      PromotableMembers(cfg, tier, scores[..n], x);
      assert scores == scores[..n] + [scores[n]];
    }
  }

  lemma {:induction false} ScoreOfMember(scores: Scores, e: (string, real))
    requires IsDictionary(scores) && e in scores
    ensures ScoreOf(scores, e.0) == e.1
  {
    var n := |scores| - 1;
    if scores[n].0 == e.0 {
      var i :| 0 <= i <= n && scores[i] == e;
    } else {
      assert scores == scores[..n] + [scores[n]];
      ScoreOfMember(scores[..n], e);
    }
  }

  /** Promotion leaves b alone, or puts it in T1 with its count of low scans at zero. */
  lemma {:induction false} PromoteEffect(cfg: Config, s: State, queue: Scores, b: string)
    requires IsUpper(b) && forall e :: e in queue && Upper(e.0) == b ==> e.0 == b
    ensures var p := PromoteAll(cfg, s, queue);
            || ((b in Members(p.tier) <==> b in Members(s.tier)) && StreakOf(p.streak, b) == StreakOf(s.streak, b))
            || (b in Members(p.tier) && StreakOf(p.streak, b) == 0 && exists e :: e in queue && e.0 == b)
    decreases |queue|
  {
    if queue != [] && |Members(s.tier)| < cfg.t1Max {
      assert queue[0] in queue;
      PromoteEffect(cfg, PromoteOne(s, queue[0].0), queue[1..], b);
    }
  }

  lemma {:induction false} PromoteKeeps(cfg: Config, s: State, queue: Scores, b: string)
    requires b in Members(s.tier)
    ensures b in Members(PromoteAll(cfg, s, queue).tier)
    decreases |queue|
  {
    if queue != [] && |Members(s.tier)| < cfg.t1Max {
      PromoteKeeps(cfg, PromoteOne(s, queue[0].0), queue[1..], b);
    }
  }

  lemma QueueMembers(cfg: Config, tier: map<string, Tier>, scores: Scores)
    ensures forall x :: x in Queue(cfg, tier, scores) <==> x in scores && x.1 >= cfg.promote && TierOf(tier, x.0) != T1
  {
    forall x
      ensures x in Queue(cfg, tier, scores) <==> x in scores && x.1 >= cfg.promote && TierOf(tier, x.0) != T1
    {
      SortMembers(Promotable(cfg, tier, scores), x);
      PromotableMembers(cfg, tier, scores, x);
    }
  }

  /** What one scan does to a base that is in T1 before it. A demoted one is out, or has been promoted
      again at once, which takes a demotion threshold above the promotion threshold. */
  lemma UpdateMember(cfg: Config, s: State, scores: Scores, watch: seq<string>, b: string)
    requires KeysUpper(s.tier) && Keyed(cfg, scores, b)
    requires b in Members(s.tier)
    ensures var u := Update(cfg, s, scores, watch);
            if !Demoted(cfg, s, scores, b)
            then b in Members(u.tier)
                 && StreakOf(u.streak, b) == if Below(cfg, scores, b) then StreakOf(s.streak, b) + 1 else 0
            else b in Members(u.tier) ==> cfg.demote > cfg.promote && StreakOf(u.streak, b) == 0
  {
    var r := ReviewSome(cfg, s, scores, Members(s.tier));
    var queue := Queue(cfg, r.tier, scores);
    QueueMembers(cfg, r.tier, scores);
    forall e | e in queue && e.0 == b
      ensures Demoted(cfg, s, scores, b) && cfg.demote > cfg.promote
    {
      ScoreOfMember(scores, e);
    }
    UpdatePromotes(cfg, s, scores, watch);
    PromoteEffect(cfg, r, queue, b);
  }

  /** What one scan does to a base that is not. */
  lemma UpdateOutsider(cfg: Config, s: State, scores: Scores, watch: seq<string>, b: string)
    requires KeysUpper(s.tier) && IsUpper(b) && Keyed(cfg, scores, b)
    requires b !in Members(s.tier)
    ensures b in Members(Update(cfg, s, scores, watch).tier) ==>
              StreakOf(Update(cfg, s, scores, watch).streak, b) == 0
  {
    var r := ReviewSome(cfg, s, scores, Members(s.tier));
    QueueMembers(cfg, r.tier, scores);
    UpdatePromotes(cfg, s, scores, watch);
    PromoteEffect(cfg, r, Queue(cfg, r.tier, scores), b);
  }

  /** The watch list changes neither T1 nor the counts. */
  lemma UpdatePromotes(cfg: Config, s: State, scores: Scores, watch: seq<string>)
    requires KeysUpper(s.tier)
    ensures var r := ReviewSome(cfg, s, scores, Members(s.tier));
            var p := PromoteAll(cfg, r, Queue(cfg, r.tier, scores));
            Members(Update(cfg, s, scores, watch).tier) == Members(p.tier)
            && Update(cfg, s, scores, watch).streak == p.streak
  {
    var r := ReviewSome(cfg, s, scores, Members(s.tier));
    var queue := Queue(cfg, r.tier, scores);
    PromoteKeysUpper(cfg, r, queue);
    var p := PromoteAll(cfg, r, queue);
    WatchKeepsMembers(cfg, p.tier, Members(p.tier) + p.provisional, Ranking(scores, watch), 0);
  }

  lemma {:induction false} PromoteKeysUpper(cfg: Config, s: State, queue: Scores)
    requires KeysUpper(s.tier)
    ensures KeysUpper(PromoteAll(cfg, s, queue).tier)
    decreases |queue|
  {
    if queue != [] && |Members(s.tier)| < cfg.t1Max {
      UpperIsUpper(queue[0].0);
      PromoteKeysUpper(cfg, PromoteOne(s, queue[0].0), queue[1..]);
    }
  }

  ghost predicate StreakFits(cfg: Config, ops: seq<Op>, b: string) {
    var streak := StreakOf(Run(cfg, ops).streak, b);
    && streak <= Consecutive(cfg, ops, b)
    && (cfg.demote <= cfg.promote ==> streak == Consecutive(cfg, ops, b))
  }

  lemma RunSnoc(cfg: Config, ops: seq<Op>, op: Op)
    ensures Run(cfg, ops + [op]) == Do(cfg, Run(cfg, ops), op)
  {
    assert (ops + [op])[..|ops|] == ops;
  }

  lemma ScanStreakFits(cfg: Config, ops: seq<Op>, scores: Scores, watch: seq<string>, b: string)
    requires Keyed(cfg, scores, b) && IsUpper(b) && (InT1(cfg, ops, b) ==> StreakFits(cfg, ops, b))
    requires InT1(cfg, ops + [UpdateOp(scores, watch)], b)
    ensures StreakFits(cfg, ops + [UpdateOp(scores, watch)], b)
  {
    var s := Run(cfg, ops);
    RunCapped(cfg, ops);
    RunSnoc(cfg, ops, UpdateOp(scores, watch));
    if InT1(cfg, ops, b) {
      UpdateMember(cfg, s, scores, watch, b);
    } else {
      UpdateOutsider(cfg, s, scores, watch, b);
    }
  }

  /** Other operations bring nobody into T1 and touch no count. */
  lemma OtherMember(cfg: Config, s: State, op: Op, b: string)
    requires !op.UpdateOp? && b in Members(Do(cfg, s, op).tier)
    ensures b in Members(s.tier) && Do(cfg, s, op).streak == s.streak
  {
  }

  lemma OtherStreakFits(cfg: Config, ops: seq<Op>, op: Op, b: string)
    requires !op.UpdateOp? && InT1(cfg, ops + [op], b) && (InT1(cfg, ops, b) ==> StreakFits(cfg, ops, b))
    ensures StreakFits(cfg, ops + [op], b)
  {
    RunSnoc(cfg, ops, op);
    OtherMember(cfg, Run(cfg, ops), op, b);
    assert (ops + [op])[..|ops|] == ops;
  }

  /** The stored count of a member is at most the history's count, and equal to it if the demotion
      threshold is not above the promotion threshold. */
  lemma {:induction false} StreakIsConsecutive(cfg: Config, ops: seq<Op>, b: string)
    requires KeyedRun(cfg, ops, b) && InT1(cfg, ops, b)
    ensures StreakFits(cfg, ops, b)
  {
    RunCapped(cfg, ops);
    if ops == [] {
      assert false;
    }
    var n := |ops| - 1;
    assert ops == ops[..n] + [ops[n]] && ops[n] in ops;
    assert forall op :: op in ops[..n] ==> op in ops;
    if InT1(cfg, ops[..n], b) {
      StreakIsConsecutive(cfg, ops[..n], b);
    }
    if ops[n].UpdateOp? {
      ScanStreakFits(cfg, ops[..n], ops[n].scores, ops[n].watch, b);
    } else {
      OtherStreakFits(cfg, ops[..n], ops[n], b);
    }
  }

  /** The scan is at least the demoteScans-th in a row of b's present stay to score it too low. */
  ghost predicate LowLongEnough(cfg: Config, ops: seq<Op>, scores: Scores, b: string) {
    Below(cfg, scores, b) && Consecutive(cfg, ops, b) + 1 >= cfg.demoteScans
  }

  ghost predicate Leaves(cfg: Config, ops: seq<Op>, scores: Scores, watch: seq<string>, b: string) {
    !InT1(cfg, ops + [UpdateOp(scores, watch)], b)
  }

  /** A scan drops a member of T1 only if it has been low long enough; and whenever it has, if the
      demotion threshold is not above the promotion threshold. */
  lemma LeavesWhen(cfg: Config, ops: seq<Op>, scores: Scores, watch: seq<string>, b: string)
    requires KeyedRun(cfg, ops, b) && Keyed(cfg, scores, b) && InT1(cfg, ops, b)
    ensures Leaves(cfg, ops, scores, watch, b) ==> LowLongEnough(cfg, ops, scores, b)
    ensures cfg.demote <= cfg.promote && LowLongEnough(cfg, ops, scores, b) ==> Leaves(cfg, ops, scores, watch, b)
  {
    RunSnoc(cfg, ops, UpdateOp(scores, watch));
    RunCapped(cfg, ops);
    StreakIsConsecutive(cfg, ops, b);
    UpdateMember(cfg, Run(cfg, ops), scores, watch, b);
  }

  /** Before each operation from the j-th on, b was in T1, and every scan among them scored it
      too low. */
  ghost predicate LowSince(cfg: Config, ops: seq<Op>, b: string, j: nat)
    requires j <= |ops|
  {
    j == |ops|
    || (var n := |ops| - 1;
        && InT1(cfg, ops[..n], b)
        && (ops[n].UpdateOp? ==> Below(cfg, ops[n].scores, b))
        && LowSince(cfg, ops[..n], b, j))
  }

  /** The scans from the j-th operation on. */
  function Scans(ops: seq<Op>, j: nat): nat
    requires j <= |ops|
  {
    if j == |ops| then 0 else Scans(ops[..|ops| - 1], j) + (if ops[|ops| - 1].UpdateOp? then 1 else 0)
  }

  /** The count is that of the longest such stretch. */
  lemma {:induction false} ConsecutiveReached(cfg: Config, ops: seq<Op>, b: string) returns (j: nat)
    ensures j <= |ops| && LowSince(cfg, ops, b, j) && Scans(ops, j) == Consecutive(cfg, ops, b)
  {
    j := |ops|;
    if ops != [] {
      var n := |ops| - 1;
      if InT1(cfg, ops[..n], b) && (ops[n].UpdateOp? ==> Below(cfg, ops[n].scores, b)) {
        j := ConsecutiveReached(cfg, ops[..n], b);
      }
    }
  }

  lemma {:induction false} ConsecutiveIsLongest(cfg: Config, ops: seq<Op>, b: string, j: nat)
    requires j <= |ops| && LowSince(cfg, ops, b, j)
    ensures Scans(ops, j) <= Consecutive(cfg, ops, b)
  {
    if j < |ops| {
      ConsecutiveIsLongest(cfg, ops[..|ops| - 1], b, j);
    }
  }

  // --------------------------------------------------------------------------
  // Promotion
  // --------------------------------------------------------------------------

  ghost predicate Descending(scores: Scores) {
    forall i, j :: 0 <= i < j < |scores| ==> scores[i].1 >= scores[j].1
  }

  lemma {:induction false} InsertDescending(sorted: Scores, e: (string, real))
    requires Descending(sorted)
    ensures Descending(InsertDesc(sorted, e))
  {
    if sorted != [] && sorted[|sorted| - 1].1 < e.1 {
      var n := |sorted| - 1;
      InsertDescending(sorted[..n], e);
      forall x | x in InsertDesc(sorted[..n], e)
        ensures x.1 >= sorted[n].1
      {
        InsertMembers(sorted[..n], e, x);
      }
    }
  }

  lemma {:induction false} SortDescending(scores: Scores)
    ensures Descending(SortDesc(scores))
  {
    if scores != [] {
      SortDescending(scores[..|scores| - 1]);
      InsertDescending(SortDesc(scores[..|scores| - 1]), scores[|scores| - 1]);
    }
  }

  /** A queued base gets no slot only when the slots run out, and then nobody it beats got one. */
  lemma {:induction false} PromotesBestFirst(cfg: Config, s: State, queue: Scores, i: nat)
    requires Descending(queue) && i < |queue|
    ensures var p := PromoteAll(cfg, s, queue);
            Upper(queue[i].0) in Members(p.tier)
            || (|Members(p.tier)| >= cfg.t1Max
                && forall b :: b in Members(p.tier) && b !in Members(s.tier) ==>
                     exists e :: e in queue && Upper(e.0) == b && e.1 >= queue[i].1)
    decreases |queue|
  {
    if |Members(s.tier)| < cfg.t1Max {
      var s' := PromoteOne(s, queue[0].0);
      assert queue[0] in queue;
      if i == 0 {
        PromoteKeeps(cfg, s', queue[1..], Upper(queue[0].0));
      } else {
        PromotesBestFirst(cfg, s', queue[1..], i - 1);
      }
    }
  }

  /** After a scan, an eligible base outside T1 means that T1 is full, and that every base the
      scan brought in did so on a score at least as high. */
  lemma BestScoresEnter(cfg: Config, s: State, scores: Scores, watch: seq<string>, x: (string, real))
    requires KeysUpper(s.tier)
    requires x in scores && x.1 >= cfg.promote
    ensures var t := Members(Update(cfg, s, scores, watch).tier);
            Upper(x.0) in t
            || (|t| >= cfg.t1Max
                && forall b :: b in t && b !in Members(s.tier) ==>
                     exists e :: e in scores && Upper(e.0) == b && e.1 >= x.1)
  {
    var r := ReviewSome(cfg, s, scores, Members(s.tier));
    UpdatePromotes(cfg, s, scores, watch);
    if TierOf(r.tier, x.0) == T1 {
      PromoteKeeps(cfg, r, Queue(cfg, r.tier, scores), Upper(x.0));
    } else {
      QueueServesBest(cfg, r, scores, x);
      assert forall b :: b in Members(r.tier) ==> b in Members(s.tier);
    }
  }

  lemma QueueServesBest(cfg: Config, r: State, scores: Scores, x: (string, real))
    requires x in scores && x.1 >= cfg.promote && TierOf(r.tier, x.0) != T1
    ensures var t := Members(PromoteAll(cfg, r, Queue(cfg, r.tier, scores)).tier);
            Upper(x.0) in t
            || (|t| >= cfg.t1Max
                && forall b :: b in t && b !in Members(r.tier) ==>
                     exists e :: e in scores && Upper(e.0) == b && e.1 >= x.1)
  {
    var queue := Queue(cfg, r.tier, scores);
    QueueMembers(cfg, r.tier, scores);
    var i :| 0 <= i < |queue| && queue[i] == x;
    SortDescending(Promotable(cfg, r.tier, scores));
    PromotesBestFirst(cfg, r, queue, i);
  }

  // --------------------------------------------------------------------------
  // Which thresholds make the hysteresis exact
  // --------------------------------------------------------------------------

  /** In every run, a scan drops a member exactly when it has been low long enough. */
  ghost predicate HysteresisExact(cfg: Config) {
    forall ops: seq<Op>, scores: Scores, watch: seq<string>, b: string ::
      KeyedRun(cfg, ops, b) && Keyed(cfg, scores, b) && InT1(cfg, ops, b) ==>
        (Leaves(cfg, ops, scores, watch, b) <==> LowLongEnough(cfg, ops, scores, b))
  }

  const BASE := "B"

  function ScanOp(score: real): Op {
    UpdateOp([(BASE, score)], [])
  }

  lemma BaseIsKeyed(cfg: Config, score: real)
    ensures IsUpper(BASE) && Keyed(cfg, [(BASE, score)], BASE)
    ensures ScoreOf([(BASE, score)], BASE) == score
  {
    assert Upper(BASE) == BASE;
  }

  lemma Fewer(t: set<string>, m: set<string>, x: string)
    requires t <= m && x !in t && (x in m || m == {})
    ensures |t| < |m| || t == {}
  {
    if m != {} {
      SubsetCardinality(t, m - {x});
    }
  }

  lemma OneScore(cfg: Config, s: State, score: real)
    requires Capped(cfg, s) && cfg.t1Max >= 1 && score >= cfg.promote
    requires BASE in Members(s.tier) || Members(s.tier) == {}
    ensures BASE in Members(Update(cfg, s, [(BASE, score)], []).tier)
  {
    BaseIsKeyed(cfg, score);
    BestScoresEnter(cfg, s, [(BASE, score)], [], (BASE, score));
    var t := Members(Update(cfg, s, [(BASE, score)], []).tier);
    if BASE !in t {
      Fewer(t, Members(s.tier), BASE);
    }
  }

  lemma ScanStays(cfg: Config, ops: seq<Op>, score: real)
    requires KeyedRun(cfg, ops, BASE) && cfg.promote <= score && cfg.t1Max >= 1
    requires InT1(cfg, ops, BASE) || ops == []
    ensures KeyedRun(cfg, ops + [ScanOp(score)], BASE) && InT1(cfg, ops + [ScanOp(score)], BASE)
  {
    RunCapped(cfg, ops);
    RunSnoc(cfg, ops, ScanOp(score));
    BaseIsKeyed(cfg, score);
    assert Members(EMPTY.tier) == {};
    OneScore(cfg, Run(cfg, ops), score);
  }

  /** A base promoted at the demotion threshold, then scanned n times at the promotion threshold
      below it: each scan finds it too low, and keeps it or takes it back. */
  lemma {:induction false} Lingers(cfg: Config, n: nat) returns (ops: seq<Op>)
    requires cfg.promote < cfg.demote && cfg.t1Max >= 1
    ensures KeyedRun(cfg, ops, BASE) && InT1(cfg, ops, BASE) && Consecutive(cfg, ops, BASE) >= n
  {
    if n == 0 {
      ScanStays(cfg, [], cfg.demote);
      ops := [] + [ScanOp(cfg.demote)];
    } else {
      var before := Lingers(cfg, n - 1);
      ScanStays(cfg, before, cfg.promote);
      BaseIsKeyed(cfg, cfg.promote);
      ops := before + [ScanOp(cfg.promote)];
    }
  }

  lemma {:induction false} NoSlotsNoMembers(cfg: Config, ops: seq<Op>)
    requires cfg.t1Max <= 0
    ensures Members(Run(cfg, ops).tier) == {}
  {
    if ops == [] {
      assert Members(EMPTY.tier) == {};
    } else {
      var n := |ops| - 1;
      NoSlotsNoMembers(cfg, ops[..n]);
      RunCapped(cfg, ops[..n]);
      var s := Run(cfg, ops[..n]);
      match ops[n]
      case UpdateOp(scores, watch) => UpdatePromotes(cfg, s, scores, watch);
      case AddOp(base) =>
      case ClearOp(base) =>
    }
  }

  /** The hysteresis is exact in every run exactly when the demotion threshold is not above the
      promotion threshold, or there is no slot to hold. */
  lemma HysteresisExactIff(cfg: Config)
    ensures HysteresisExact(cfg) <==> cfg.demote <= cfg.promote || cfg.t1Max <= 0
  {
    if cfg.demote <= cfg.promote || cfg.t1Max <= 0 {
      forall ops: seq<Op>, scores: Scores, watch: seq<string>, b: string
        | KeyedRun(cfg, ops, b) && Keyed(cfg, scores, b) && InT1(cfg, ops, b)
        ensures Leaves(cfg, ops, scores, watch, b) <==> LowLongEnough(cfg, ops, scores, b)
      {
        if cfg.t1Max <= 0 {
          NoSlotsNoMembers(cfg, ops);
          assert false;
        }
        LeavesWhen(cfg, ops, scores, watch, b);
      }
    } else {
      var ops := Lingers(cfg, if cfg.demoteScans > 0 then cfg.demoteScans else 0);
      ScanStays(cfg, ops, cfg.promote);
      BaseIsKeyed(cfg, cfg.promote);
      assert LowLongEnough(cfg, ops, [(BASE, cfg.promote)], BASE);
      assert !Leaves(cfg, ops, [(BASE, cfg.promote)], [], BASE);
    }
  }

  // --------------------------------------------------------------------------
  // The order of scores
  // --------------------------------------------------------------------------

  /** sorted lists the scores in this order of their positions, each once: better ones first, and equal ones
      as they came. */
  ghost predicate SortedBy(scores: Scores, sorted: Scores, order: seq<nat>) {
    && |sorted| == |order| == |scores|
    && (forall i :: 0 <= i < |order| ==> order[i] < |scores| && sorted[i] == scores[order[i]])
    && (forall i, j :: 0 <= i < j < |order| ==>
          Beats(sorted[i].1, order[i], sorted[j].1, order[j]))
  }

  /** The same for a list that is still to be inserted into: all positions are below n. */
  ghost predicate InsertedBy(scores: Scores, n: nat, sorted: Scores, order: seq<nat>) {
    && |sorted| == |order| && n <= |scores|
    && (forall i :: 0 <= i < |order| ==> order[i] < n && sorted[i] == scores[order[i]])
    && (forall i, j :: 0 <= i < j < |order| ==>
          Beats(sorted[i].1, order[i], sorted[j].1, order[j]))
  }

  predicate Beats(x: real, i: nat, y: real, j: nat) {
    x > y || (x == y && i < j)
  }

  lemma InsertedSnoc(scores: Scores, n: nat, sorted: Scores, order: seq<nat>, k: nat)
    requires InsertedBy(scores, n, sorted, order) && k < n
    requires forall i :: 0 <= i < |order| ==> Beats(sorted[i].1, order[i], scores[k].1, k)
    ensures InsertedBy(scores, n, sorted + [scores[k]], order + [k])
  {
  }

  lemma InsertedPrefix(scores: Scores, n: nat, sorted: Scores, order: seq<nat>, m: nat)
    requires InsertedBy(scores, n, sorted, order) && m <= |order| && n < |scores|
    ensures InsertedBy(scores, n, sorted[..m], order[..m]) && InsertedBy(scores, n + 1, sorted, order)
  {
  }

  lemma {:induction false} InsertKeepsOrder(scores: Scores, n: nat, sorted: Scores, order: seq<nat>)
    returns (longer: seq<nat>)
    requires n < |scores| && InsertedBy(scores, n, sorted, order)
    ensures InsertedBy(scores, n + 1, InsertDesc(sorted, scores[n]), longer) && |longer| == |order| + 1
    ensures forall i :: 0 <= i < |longer| ==> longer[i] == n || longer[i] in order
    decreases |sorted|
  {
    if sorted == [] || sorted[|sorted| - 1].1 >= scores[n].1 {
      InsertedPrefix(scores, n, sorted, order, 0);
      InsertedSnoc(scores, n + 1, sorted, order, n);
      longer := order + [n];
    } else {
      var m := |sorted| - 1;
      InsertedPrefix(scores, n, sorted, order, m);
      var init := InsertKeepsOrder(scores, n, sorted[..m], order[..m]);
      var inserted := InsertDesc(sorted[..m], scores[n]);
      forall i | 0 <= i < |init|
        ensures Beats(inserted[i].1, init[i], sorted[m].1, order[m])
      {
        if init[i] != n {
          var k :| 0 <= k < m && order[..m][k] == init[i];
          assert sorted[k] == scores[order[k]];
        }
      }
      InsertedSnoc(scores, n + 1, inserted, init, order[m]);
      longer := init + [order[m]];
    }
  }

  /** Promotion and the default ranking go by score, best first, equal scores in the order they came. */
  lemma {:induction false} SortOrder(scores: Scores) returns (order: seq<nat>)
    ensures SortedBy(scores, SortDesc(scores), order)
  {
    if scores == [] {
      order := [];
    } else {
      var n := |scores| - 1;
      var before := SortOrder(scores[..n]);
      assert InsertedBy(scores, n, SortDesc(scores[..n]), before);
      order := InsertKeepsOrder(scores, n, SortDesc(scores[..n]), before);
    }
  }

  lemma {:induction false} BasesAt(scores: Scores, i: nat)
    requires i < |scores|
    ensures |Bases(scores)| == |scores| && Bases(scores)[i] == scores[i].0
  {
    var n := |scores| - 1;
    if i < n {
      BasesAt(scores[..n], i);
    } else if n > 0 {
      BasesAt(scores[..n], 0);
    }
  }

  /** The ranking is the given one, or else the bases by score. */
  lemma RankingMeaning(scores: Scores, watch: seq<string>) returns (order: seq<nat>)
    ensures watch != [] ==> Ranking(scores, watch) == watch
    ensures SortedBy(scores, SortDesc(scores), order)
    ensures watch == [] ==> forall i :: 0 <= i < |scores| ==>
              |Ranking(scores, watch)| == |scores| && Ranking(scores, watch)[i] == scores[order[i]].0
  {
    order := SortOrder(scores);
    forall i | 0 <= i < |scores|
      ensures |Bases(SortDesc(scores))| == |scores| && Bases(SortDesc(scores))[i] == scores[order[i]].0
    {
      BasesAt(SortDesc(scores), i);
    }
  }

  // --------------------------------------------------------------------------
  // Provisional slots, one at a time
  // --------------------------------------------------------------------------

  /** A base gets a slot if it has one or one is free, and is then provisional; nobody else is moved. */
  lemma AddMeaning(cfg: Config, s: State, base: string)
    ensures var (s', ok) := AddProvisional(cfg, s, base);
            && ok == (Upper(base) in s.provisional || |s.provisional| < cfg.provisionalMax)
            && s'.provisional == (if ok then s.provisional + {Upper(base)} else s.provisional)
            && s'.streak == s.streak
            && s'.tier == if ok && Upper(base) !in s.provisional then s.tier[Upper(base) := Provisional] else s.tier
  {
  }

  /** Giving a slot back frees it for another base, and leaves its own in T3; a base without one keeps its tier. */
  lemma ClearFrees(cfg: Config, s: State, base: string, other: string)
    requires Upper(base) in s.provisional && |s.provisional| <= cfg.provisionalMax
    ensures var s' := ClearProvisional(s, base);
            && s'.provisional == s.provisional - {Upper(base)} && TierOf(s'.tier, base) == T3
            && AddProvisional(cfg, s', other).1
  {
    UpperIsUpper(base);
    SubsetCardinality(s.provisional - {Upper(base)}, s.provisional);
    assert |s.provisional - {Upper(base)}| == |s.provisional| - 1;
  }

  // --------------------------------------------------------------------------
  // The watch list
  // --------------------------------------------------------------------------

  /** The entries of a ranking that name no base already taken, repeats counted each time. */
  function Untaken(ranking: seq<string>, taken: set<string>): nat {
    if ranking == [] then 0
    else (if Upper(ranking[0]) in taken then 0 else 1) + Untaken(ranking[1..], taken)
  }

  /** Fewer entries than there is room for come before one that names b. */
  ghost predicate Ranked(ranking: seq<string>, taken: set<string>, room: int, b: string) {
    exists i :: 0 <= i < |ranking| && RankedAt(ranking, taken, room, b, i)
  }

  predicate RankedAt(ranking: seq<string>, taken: set<string>, room: int, b: string, i: int)
    requires 0 <= i < |ranking|
  {
    Upper(ranking[i]) == b && Untaken(ranking[..i], taken) < room
  }

  lemma UntakenNext(ranking: seq<string>, taken: set<string>, i: nat)
    requires 0 < i <= |ranking|
    ensures Untaken(ranking[..i], taken)
            == Untaken(ranking[1..][..i - 1], taken) + if Upper(ranking[0]) in taken then 0 else 1
  {
    assert ranking[..i][1..] == ranking[1..][..i - 1];
  }

  lemma RankedNext(ranking: seq<string>, taken: set<string>, room: int, b: string)
    requires ranking != []
    ensures Ranked(ranking, taken, room, b)
            <==> (Upper(ranking[0]) == b && 0 < room)
                 || Ranked(ranking[1..], taken, if Upper(ranking[0]) in taken then room else room - 1, b)
  {
    var rest, room' := ranking[1..], if Upper(ranking[0]) in taken then room else room - 1;
    if Ranked(ranking, taken, room, b) {
      var i :| 0 <= i < |ranking| && RankedAt(ranking, taken, room, b, i);
      if i > 0 {
        UntakenNext(ranking, taken, i);
        assert RankedAt(rest, taken, room', b, i - 1);
      }
    }
    if Upper(ranking[0]) == b && 0 < room {
      assert RankedAt(ranking, taken, room, b, 0);
    }
    if Ranked(rest, taken, room', b) {
      var i :| 0 <= i < |rest| && RankedAt(rest, taken, room', b, i);
      UntakenNext(ranking, taken, i + 1);
      assert RankedAt(ranking, taken, room, b, i + 1);
    }
  }

  lemma {:induction false} NoRoom(ranking: seq<string>, taken: set<string>, room: int, b: string)
    requires room <= 0
    ensures !Ranked(ranking, taken, room, b)
  {
  }

  /** The watch list puts in T2 those of its bases that are ranked within its room, and moves no other. */
  lemma {:induction false} WatchPlaces(cfg: Config, tier: map<string, Tier>, taken: set<string>, ranking: seq<string>,
                                       placed: nat, b: string)
    requires b !in taken
    ensures var w := Watch(cfg, tier, taken, ranking, placed);
            if Ranked(ranking, taken, cfg.t2Max - placed, b) then b in w && w[b] == T2
            else (b in w <==> b in tier) && (b in w ==> w[b] == tier[b])
    decreases |ranking|
  {
    if ranking != [] {
      var c := Upper(ranking[0]);
      RankedNext(ranking, taken, cfg.t2Max - placed, b);
      if c in taken {
        WatchPlaces(cfg, tier, taken, ranking[1..], placed, b);
      } else if placed < cfg.t2Max {
        WatchPlaces(cfg, tier[c := T2], taken, ranking[1..], placed + 1, b);
      } else {
        NoRoom(ranking, taken, cfg.t2Max - placed, b);
      }
    }
  }

  /** Promotion moves nobody but those it puts in T1. */
  lemma {:induction false} PromoteLeavesOthers(cfg: Config, s: State, queue: Scores, b: string)
    requires b !in Members(PromoteAll(cfg, s, queue).tier)
    ensures var p := PromoteAll(cfg, s, queue);
            (b in p.tier <==> b in s.tier) && (b in p.tier ==> p.tier[b] == s.tier[b])
    ensures b !in Members(s.tier) && PromoteAll(cfg, s, queue).provisional == s.provisional
    decreases |queue|
  {
    if b in Members(s.tier) {
      PromoteKeeps(cfg, s, queue, b);
    } else if queue != [] && |Members(s.tier)| < cfg.t1Max {
      PromoteLeavesOthers(cfg, PromoteOne(s, queue[0].0), queue[1..], b);
    }
  }

  lemma ReviewedInT2(cfg: Config, s: State, scores: Scores, b: string)
    requires b !in Members(ReviewSome(cfg, s, scores, Members(s.tier)).tier)
    ensures var r := ReviewSome(cfg, s, scores, Members(s.tier));
            b in r.tier && r.tier[b] == T2 <==> b in Members(s.tier) || (b in s.tier && s.tier[b] == T2)
    ensures ReviewSome(cfg, s, scores, Members(s.tier)).provisional == s.provisional
  {
  }

  /** Where the rest of a scan leaves a base that it leaves outside T1. */
  lemma PlacedAfterReview(cfg: Config, r: State, scores: Scores, watch: seq<string>, members: set<string>, b: string)
    requires members == Members(PromoteAll(cfg, r, Queue(cfg, r.tier, scores)).tier)
    requires b !in members && b !in r.provisional
    ensures var u := AfterReview(cfg, r, scores, watch);
            && u.provisional == r.provisional && b !in Members(r.tier)
            && (b in u.tier && u.tier[b] == T2
                <==> Ranked(Ranking(scores, watch), members + r.provisional, cfg.t2Max, b)
                     || (b in r.tier && r.tier[b] == T2))
  {
    var p := PromoteAll(cfg, r, Queue(cfg, r.tier, scores));
    PromoteLeavesOthers(cfg, r, Queue(cfg, r.tier, scores), b);
    WatchPlaces(cfg, p.tier, members + p.provisional, Ranking(scores, watch), 0, b);
  }

  /** After a scan a base outside T1 and the provisional slots is in T2 exactly if it is ranked within T2's
      room among those, was in T2 before, or has just left T1. */
  lemma InT2Iff(cfg: Config, s: State, scores: Scores, watch: seq<string>, b: string)
    requires KeysUpper(s.tier)
    requires b !in Members(Update(cfg, s, scores, watch).tier) && b !in s.provisional
    ensures var u := Update(cfg, s, scores, watch);
            u.provisional == s.provisional
            && (b in u.tier && u.tier[b] == T2
                <==> || Ranked(Ranking(scores, watch), Members(u.tier) + u.provisional, cfg.t2Max, b)
                     || b in Members(s.tier)
                     || (b in s.tier && s.tier[b] == T2))
  {
    UpdatePromotes(cfg, s, scores, watch);
    PlacedAfterReview(cfg, ReviewSome(cfg, s, scores, Members(s.tier)), scores, watch,
                      Members(Update(cfg, s, scores, watch).tier), b);
    ReviewedInT2(cfg, s, scores, b);
  }

  // --------------------------------------------------------------------------
  // Keys under another spelling
  // --------------------------------------------------------------------------

  /** Why the spelling matters: a member is looked up under its upper-case name, so one scored under
      another spelling reads as zero. With a count that is due it is dropped, whatever that score, if
      the score does not reach the promotion threshold. */
  lemma OtherSpellingsReadAsZero(cfg: Config, s: State, scores: Scores, watch: seq<string>, b: string)
    requires KeysUpper(s.tier) && b in Members(s.tier)
    requires 0.0 < cfg.demote && StreakOf(s.streak, b) + 1 >= cfg.demoteScans
    requires forall e :: e in scores ==> e.0 != b && (Upper(e.0) == b ==> e.1 < cfg.promote)
    ensures b !in Members(Update(cfg, s, scores, watch).tier)
  {
    NoScore(scores, b);
    var r := ReviewSome(cfg, s, scores, Members(s.tier));
    var queue := Queue(cfg, r.tier, scores);
    QueueMembers(cfg, r.tier, scores);
    UpdatePromotes(cfg, s, scores, watch);
    PromoteEffect(cfg, r, queue, b);
  }

  lemma {:induction false} NoScore(scores: Scores, b: string)
    requires forall e :: e in scores ==> e.0 != b
    ensures ScoreOf(scores, b) == 0.0
  {
    if scores != [] {
      NoScore(scores[..|scores| - 1], b);
    }
  }
}

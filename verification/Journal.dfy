/** The tamper-evident journal: five tables, one hash chain (aimos/journal/journal.py).

    SHA-256 is a parameter. What is asked of it is stated where it is needed: digests of
    one length, and no collision among the strings that the rows at hand are hashed from. */
module Journal {
  import opened Numerics
  import opened Schemas

  function Zeros(n: nat): (s: string)
    ensures |s| == n
  {
    if n == 0 then "" else Zeros(n - 1) + "0"
  }

  const HASH_LENGTH: nat := 64
  const GENESIS := Zeros(HASH_LENGTH)

  datatype Table = Decisions | Outcomes | EvidenceSnapshots | AgentEvents | Management

  datatype Row = Row(payload: string, prevHash: string, rowHash: string)

  /** What the tables and the one row of chain_meta hold. */
  datatype State = State(tables: map<Table, seq<Row>>, tip: string) {
    ghost predicate Valid() {
      forall t: Table :: t in tables
    }
  }

  function Fresh(): (s: State)
    ensures s.Valid()
  {
    var tables: map<Table, seq<Row>> :=
      map[Decisions := [], Outcomes := [], EvidenceSnapshots := [], AgentEvents := [], Management := []];
    FiveTables(tables);
    State(tables, GENESIS)
  }

  lemma FiveTables(tables: map<Table, seq<Row>>)
    requires Decisions in tables && Outcomes in tables && EvidenceSnapshots in tables
    requires AgentEvents in tables && Management in tables
    ensures forall t: Table :: t in tables
  {
    forall t: Table
      ensures t in tables
    {
      match t
      case Decisions =>
      case Outcomes =>
      case EvidenceSnapshots =>
      case AgentEvents =>
      case Management =>
    }
  }

  /** What a row's hash is taken over. */
  function Input(prev: string, payload: string): string {
    prev + payload
  }

  function RowHash(sha: string -> string, prev: string, payload: string): string {
    sha(Input(prev, payload))
  }

  function Append(sha: string -> string, s: State, t: Table, payload: string): State
    requires s.Valid()
  {
    var hash := RowHash(sha, s.tip, payload);
    State(s.tables[t := s.tables[t] + [Row(payload, s.tip, hash)]], hash)
  }

  // --------------------------------------------------------------------------
  // Runs: any interleaving of appends, and the chain it ought to leave
  // --------------------------------------------------------------------------

  datatype Write = Write(table: Table, payload: string)

  function Run(sha: string -> string, writes: seq<Write>): (s: State)
    ensures s.Valid()
  {
    if writes == [] then Fresh()
    else
      var n := |writes| - 1;
      Append(sha, Run(sha, writes[..n]), writes[n].table, writes[n].payload)
  }

  /** The rows in the order they were written. */
  function Chain(sha: string -> string, writes: seq<Write>): (rows: seq<Row>)
    ensures |rows| == |writes|
  {
    if writes == [] then []
    else
      var n := |writes| - 1;
      var before := Chain(sha, writes[..n]);
      var prev := End(before);
      before + [Row(writes[n].payload, prev, RowHash(sha, prev, writes[n].payload))]
  }

  /** Where a chain of rows ends. */
  function End(rows: seq<Row>): string {
    if rows == [] then GENESIS else rows[|rows| - 1].rowHash
  }

  /** The hash before row k of a chain. */
  function Before(rows: seq<Row>, k: nat): string
    requires k <= |rows|
  {
    if k == 0 then GENESIS else rows[k - 1].rowHash
  }

  /** Row k hangs on the row before it, and its hash is the hash of its contents. */
  predicate Linked(sha: string -> string, rows: seq<Row>, k: nat)
    requires k < |rows|
  {
    rows[k].rowHash == RowHash(sha, Before(rows, k), rows[k].payload) && rows[k].prevHash == Before(rows, k)
  }

  lemma {:induction false} ChainLinked(sha: string -> string, writes: seq<Write>, k: nat)
    requires k < |writes|
    ensures Linked(sha, Chain(sha, writes), k)
    ensures Chain(sha, writes)[k].payload == writes[k].payload
  {
    var n := |writes| - 1;
    if k < n {
      ChainLinked(sha, writes[..n], k);
      assert Before(Chain(sha, writes), k) == Before(Chain(sha, writes[..n]), k);
    }
  }

  lemma {:induction false} ChainAllLinked(sha: string -> string, writes: seq<Write>)
    ensures AllLinked(sha, Chain(sha, writes))
  {
    forall k | 0 <= k < |writes|
      ensures Linked(sha, Chain(sha, writes), k)
    {
      ChainLinked(sha, writes, k);
    }
  }

  lemma {:induction false} TipIsEnd(sha: string -> string, writes: seq<Write>)
    ensures Run(sha, writes).tip == End(Chain(sha, writes))
  {
    if writes != [] {
      TipIsEnd(sha, writes[..|writes| - 1]);
    }
  }

  // --------------------------------------------------------------------------
  // All hashes of a chain are distinct
  // --------------------------------------------------------------------------

  ghost predicate FixedLength(sha: string -> string) {
    forall x :: |sha(x)| == HASH_LENGTH
  }

  /** No two of the inputs share a digest, and none has the root's. */
  ghost predicate NoCollisions(sha: string -> string, inputs: set<string>) {
    && (forall a, b :: a in inputs && b in inputs && sha(a) == sha(b) ==> a == b)
    && (forall a :: a in inputs ==> sha(a) != GENESIS)
  }

  /** What the hashes of the rows are taken over. */
  ghost function Inputs(rows: seq<Row>): set<string> {
    set r | r in rows :: Input(r.prevHash, r.payload)
  }

  ghost predicate AllLinked(sha: string -> string, rows: seq<Row>) {
    forall k :: 0 <= k < |rows| ==> Linked(sha, rows, k)
  }

  lemma InputInjective(p: string, a: string, q: string, b: string)
    requires |p| == |q| && Input(p, a) == Input(q, b)
    ensures p == q
  {
    assert Input(p, a)[..|p|] == p;
    assert Input(q, b)[..|q|] == q;
  }

  lemma {:induction false} LinkedInput(sha: string -> string, rows: seq<Row>, k: nat)
    requires AllLinked(sha, rows) && NoCollisions(sha, Inputs(rows)) && k < |rows|
    ensures rows[k].prevHash == Before(rows, k)
    ensures Input(rows[k].prevHash, rows[k].payload) in Inputs(rows)
    ensures Before(rows, k + 1) == sha(Input(rows[k].prevHash, rows[k].payload))
    ensures Before(rows, k + 1) != GENESIS
  {
    assert Linked(sha, rows, k);
  }

  /** Equal hashes were hashed from equal predecessors. */
  lemma {:induction false} StepBack(sha: string -> string, rows: seq<Row>, a: nat, b: nat)
    requires FixedLength(sha) && AllLinked(sha, rows) && NoCollisions(sha, Inputs(rows))
    requires a < |rows| && b < |rows| && Before(rows, a + 1) == Before(rows, b + 1)
    ensures Before(rows, a) == Before(rows, b)
  {
    LinkedInput(sha, rows, a);
    LinkedInput(sha, rows, b);
    BeforeLength(sha, rows, a);
    BeforeLength(sha, rows, b);
    InputInjective(Before(rows, a), rows[a].payload, Before(rows, b), rows[b].payload);
  }

  lemma {:induction false} BeforeLength(sha: string -> string, rows: seq<Row>, k: nat)
    requires FixedLength(sha) && AllLinked(sha, rows) && k <= |rows|
    ensures |Before(rows, k)| == HASH_LENGTH
  {
    if k > 0 {
      assert Linked(sha, rows, k - 1);
    }
  }

  /** Two equal hashes would push back to the root, link by link. */
  lemma {:induction false} HashesDistinct(sha: string -> string, rows: seq<Row>, i: nat, j: nat)
    requires FixedLength(sha) && AllLinked(sha, rows) && NoCollisions(sha, Inputs(rows))
    requires i < j <= |rows|
    ensures Before(rows, i) != Before(rows, j)
  {
    LinkedInput(sha, rows, j - 1);
    if i > 0 && Before(rows, i) == Before(rows, j) {
      StepBack(sha, rows, i - 1, j - 1);
      HashesDistinct(sha, rows, i - 1, j - 1);
    }
  }

  // --------------------------------------------------------------------------
  // Reading the tables back
  // --------------------------------------------------------------------------

  const TABLES := [Decisions, Outcomes, EvidenceSnapshots, AgentEvents, Management]

  /** The rows of the given tables, table by table. */
  function Gather(tables: map<Table, seq<Row>>, ts: seq<Table>): seq<Row>
    requires forall t: Table :: t in tables
  {
    if ts == [] then [] else Gather(tables, ts[..|ts| - 1]) + tables[ts[|ts| - 1]]
  }

  function AllRows(s: State): seq<Row>
    requires s.Valid()
  {
    Gather(s.tables, TABLES)
  }

  ghost predicate NoRepeats<T>(s: seq<T>) {
    forall i, j :: 0 <= i < j < |s| ==> s[i] != s[j]
  }

  lemma {:induction false} GatherAppend(tables: map<Table, seq<Row>>, ts: seq<Table>, t: Table, row: Row)
    requires (forall t: Table :: t in tables) && NoRepeats(ts)
    ensures multiset(Gather(tables[t := tables[t] + [row]], ts))
            == multiset(Gather(tables, ts)) + (if t in ts then multiset{row} else multiset{})
  {
    if ts != [] {
      var n := |ts| - 1;
      assert ts == ts[..n] + [ts[n]];
      GatherAppend(tables, ts[..n], t, row);
    }
  }

  /** Whatever the interleaving, the tables hold the rows of the chain, each exactly once. */
  lemma {:induction false} TablesHoldChain(sha: string -> string, writes: seq<Write>)
    ensures multiset(AllRows(Run(sha, writes))) == multiset(Chain(sha, writes))
  {
    if writes == [] {
      GatherNothing(TABLES);
    } else {
      var n := |writes| - 1;
      var before := Run(sha, writes[..n]);
      var row := Row(writes[n].payload, before.tip, RowHash(sha, before.tip, writes[n].payload));
      TablesHoldChain(sha, writes[..n]);
      TipIsEnd(sha, writes[..n]);
      var t := writes[n].table;
      EveryTable(t);
      GatherAppend(before.tables, TABLES, t, row);
      assert Chain(sha, writes) == Chain(sha, writes[..n]) + [row];
    }
  }

  /** The rows whose writes went to a table, in order. */
  function Filed(rows: seq<Row>, writes: seq<Write>, t: Table): seq<Row>
    requires |rows| == |writes|
  {
    if rows == [] then []
    else
      var n := |rows| - 1;
      if writes[n].table == t then Filed(rows[..n], writes[..n], t) + [rows[n]] else Filed(rows[..n], writes[..n], t)
  }

  /** Each table holds the rows of its own writes, and those only, in the order of writing. */
  lemma {:induction false} TableHoldsOwn(sha: string -> string, writes: seq<Write>, t: Table)
    ensures t in Run(sha, writes).tables
    ensures Run(sha, writes).tables[t] == Filed(Chain(sha, writes), writes, t)
  {
    if writes == [] {
      FreshTable(t);
    } else {
      var init, w := writes[..|writes| - 1], writes[|writes| - 1];
      TableHoldsOwn(sha, init, t);
      TipIsEnd(sha, init);
      AppendHoldsOwn(sha, Run(sha, init), Chain(sha, init), init, w, t);
      assert writes == init + [w];
    }
  }

  lemma FreshTable(t: Table)
    ensures t in Fresh().tables && Fresh().tables[t] == []
  {
    assert t in Fresh().tables;
  }

  lemma {:induction false} AppendHoldsOwn(sha: string -> string, s: State, chain: seq<Row>, writes: seq<Write>,
                                          w: Write, t: Table)
    requires s.Valid() && |chain| == |writes|
    requires t in s.tables && s.tables[t] == Filed(chain, writes, t)
    ensures var s' := Append(sha, s, w.table, w.payload);
            var row := Row(w.payload, s.tip, RowHash(sha, s.tip, w.payload));
            t in s'.tables && s'.tables[t] == Filed(chain + [row], writes + [w], t)
  {
    AppendTable(sha, s, w, t);
    FiledSnoc(chain, writes, Row(w.payload, s.tip, RowHash(sha, s.tip, w.payload)), w, t);
  }

  lemma {:induction false} AppendTable(sha: string -> string, s: State, write: Write, t: Table)
    requires s.Valid()
    ensures var s' := Append(sha, s, write.table, write.payload);
            var row := Row(write.payload, s.tip, RowHash(sha, s.tip, write.payload));
            && t in s.tables && t in s'.tables
            && s'.tables[t] == if t == write.table then s.tables[t] + [row] else s.tables[t]
  {
  }

  lemma {:induction false} FiledSnoc(rows: seq<Row>, writes: seq<Write>, row: Row, write: Write, t: Table)
    requires |rows| == |writes|
    ensures Filed(rows + [row], writes + [write], t)
            == if write.table == t then Filed(rows, writes, t) + [row] else Filed(rows, writes, t)
  {
    assert (rows + [row])[..|rows|] == rows && (writes + [write])[..|writes|] == writes;
  }

  lemma EveryTable(t: Table)
    ensures t in TABLES && NoRepeats(TABLES)
  {
    assert TABLES[0] == Decisions && TABLES[1] == Outcomes && TABLES[2] == EvidenceSnapshots
           && TABLES[3] == AgentEvents && TABLES[4] == Management;
  }

  lemma {:induction false} GatherNothing(ts: seq<Table>)
    ensures Gather(Fresh().tables, ts) == []
  {
    if ts != [] {
      GatherNothing(ts[..|ts| - 1]);
    }
  }

  // --------------------------------------------------------------------------
  // Following the links
  // --------------------------------------------------------------------------

  /** The rows by the hash they hang on; of several, the last. */
  function ByPrev(rows: seq<Row>): map<string, Row> {
    if rows == [] then map[]
    else
      var n := |rows| - 1;
      ByPrev(rows[..n])[rows[n].prevHash := rows[n]]
  }

  lemma {:induction false} ByPrevSound(rows: seq<Row>, h: string)
    ensures h in ByPrev(rows) ==> ByPrev(rows)[h] in rows && ByPrev(rows)[h].prevHash == h
  {
    if rows != [] {
      var n := |rows| - 1;
      ByPrevSound(rows[..n], h);
      assert rows == rows[..n] + [rows[n]];
    }
  }

  lemma {:induction false} ByPrevComplete(rows: seq<Row>, r: Row)
    requires r in rows
    ensures r.prevHash in ByPrev(rows)
  {
    var n := |rows| - 1;
    assert rows == rows[..n] + [rows[n]];
    if r != rows[n] {
      ByPrevComplete(rows[..n], r);
    }
  }

  /** walk is what following the links from a hash yields, up to a hash nothing hangs on. */
  ghost predicate IsWalk(byPrev: map<string, Row>, from: string, walk: seq<Row>)
    decreases |walk|
  {
    if from in byPrev
    then walk != [] && walk[0] == byPrev[from] && IsWalk(byPrev, byPrev[from].rowHash, walk[1..])
    else walk == []
  }

  /** The links from the root end. */
  ghost predicate Ends(byPrev: map<string, Row>) {
    exists walk :: IsWalk(byPrev, GENESIS, walk)
  }

  lemma {:induction false} WalkUnique(byPrev: map<string, Row>, from: string, a: seq<Row>, b: seq<Row>)
    requires IsWalk(byPrev, from, a) && IsWalk(byPrev, from, b)
    ensures a == b
    decreases |a|
  {
    if from in byPrev {
      WalkUnique(byPrev, byPrev[from].rowHash, a[1..], b[1..]);
      assert a == [a[0]] + a[1..] && b == [b[0]] + b[1..];
    }
  }

  // --------------------------------------------------------------------------
  // When the links end
  // --------------------------------------------------------------------------

  /** Where n links lead, or where they stop before. */
  function Hops(byPrev: map<string, Row>, from: string, n: nat): string
    decreases n
  {
    if n == 0 || from !in byPrev then from else Hops(byPrev, byPrev[from].rowHash, n - 1)
  }

  /** As many links as there are rows lead to a hash nothing hangs on. */
  predicate LinksEnd(byPrev: map<string, Row>) {
    Hops(byPrev, GENESIS, |byPrev|) !in byPrev
  }

  lemma {:induction false} HopsMakeWalk(byPrev: map<string, Row>, from: string, n: nat) returns (walk: seq<Row>)
    requires Hops(byPrev, from, n) !in byPrev
    ensures IsWalk(byPrev, from, walk)
    decreases n
  {
    walk := [];
    if from in byPrev {
      var rest := HopsMakeWalk(byPrev, byPrev[from].rowHash, n - 1);
      walk := [byPrev[from]] + rest;
    }
  }

  lemma {:induction false} WalkOutrunsHops(byPrev: map<string, Row>, from: string, walk: seq<Row>, n: nat)
    requires IsWalk(byPrev, from, walk) && |walk| <= n
    ensures Hops(byPrev, from, n) !in byPrev
    decreases n
  {
    if from in byPrev {
      WalkOutrunsHops(byPrev, byPrev[from].rowHash, walk[1..], n - 1);
    }
  }

  /** The hashes a walk passes, from its first to its last row. */
  ghost function Passed(from: string, walk: seq<Row>): set<string>
    decreases |walk|
  {
    if walk == [] then {} else {from} + Passed(walk[0].rowHash, walk[1..])
  }

  lemma {:induction false} WalkFromPassed(byPrev: map<string, Row>, from: string, walk: seq<Row>, h: string)
    returns (rest: seq<Row>)
    requires IsWalk(byPrev, from, walk) && h in Passed(from, walk)
    ensures IsWalk(byPrev, h, rest) && |rest| <= |walk|
    decreases |walk|
  {
    rest := walk;
    if h != from {
      rest := WalkFromPassed(byPrev, walk[0].rowHash, walk[1..], h);
    }
  }

  /** No hash is passed twice, or the walk would never end. */
  lemma {:induction false} WalkNoLonger(byPrev: map<string, Row>, from: string, walk: seq<Row>)
    requires IsWalk(byPrev, from, walk)
    ensures Passed(from, walk) <= byPrev.Keys && |Passed(from, walk)| == |walk|
    decreases |walk|
  {
    if walk != [] {
      var next := walk[0].rowHash;
      WalkNoLonger(byPrev, next, walk[1..]);
      if from in Passed(next, walk[1..]) {
        var again := WalkFromPassed(byPrev, next, walk[1..], from);
        WalkUnique(byPrev, from, walk, again);
      }
    }
  }

  /** The links end exactly when as many of them as there are rows lead off the map. */
  lemma EndsIff(byPrev: map<string, Row>)
    ensures Ends(byPrev) <==> LinksEnd(byPrev)
  {
    if LinksEnd(byPrev) {
      var walk := HopsMakeWalk(byPrev, GENESIS, |byPrev|);
    }
    if walk :| IsWalk(byPrev, GENESIS, walk) {
      WalkNoLonger(byPrev, GENESIS, walk);
      SubsetCardinality(Passed(GENESIS, walk), byPrev.Keys);
      WalkOutrunsHops(byPrev, GENESIS, walk, |byPrev|);
    }
  }

  /** A row at the root that hangs on its own hash is such a loop. */
  lemma SelfLinkNeverEnds(byPrev: map<string, Row>)
    requires GENESIS in byPrev && byPrev[GENESIS].rowHash == GENESIS
    ensures !Ends(byPrev)
  {
    SelfLinkStays(byPrev, GENESIS, |byPrev|);
    EndsIff(byPrev);
  }

  lemma {:induction false} SelfLinkStays(byPrev: map<string, Row>, h: string, n: nat)
    requires h in byPrev && byPrev[h].rowHash == h
    ensures Hops(byPrev, h, n) == h
    decreases n
  {
    if n > 0 {
      SelfLinkStays(byPrev, h, n - 1);
    }
  }

  method ChainOrder(rows: seq<Row>) returns (ordered: seq<Row>)
    requires LinksEnd(ByPrev(rows))
    ensures IsWalk(ByPrev(rows), GENESIS, ordered)
  {
    var byPrev := ByPrev(rows);
    ghost var walk := HopsMakeWalk(byPrev, GENESIS, |byPrev|);
    ordered := [];
    var prev := GENESIS;
    ghost var rest := walk;
    while prev in byPrev
      invariant walk == ordered + rest && IsWalk(byPrev, prev, rest)
      decreases |rest|
    {
      var r := byPrev[prev];
      ordered := ordered + [r];
      prev := r.rowHash;
      assert rest == [r] + rest[1..];
      rest := rest[1..];
    }
    assert ordered == walk;
  }

  // --------------------------------------------------------------------------
  // Verification
  // --------------------------------------------------------------------------

  /** The verdict on the rows of a walk: whether all are linked, and the stored hash of the
      first that is not. */
  function VerifyRows(sha: string -> string, prev: string, rows: seq<Row>): (bool, Option<string>)
    decreases |rows|
  {
    if rows == [] then (true, None)
    else if RowHash(sha, prev, rows[0].payload) != rows[0].rowHash || rows[0].prevHash != prev
    then (false, Some(rows[0].rowHash))
    else VerifyRows(sha, rows[0].rowHash, rows[1..])
  }

  method VerifyOrdered(sha: string -> string, rows: seq<Row>) returns (ok: bool, broken: Option<string>)
    ensures (ok, broken) == VerifyRows(sha, GENESIS, rows)
  {
    var prev := GENESIS;
    for k := 0 to |rows|
      invariant VerifyRows(sha, prev, rows[k..]) == VerifyRows(sha, GENESIS, rows)
    {
      assert rows[k..][1..] == rows[k + 1..];
      if RowHash(sha, prev, rows[k].payload) != rows[k].rowHash || rows[k].prevHash != prev {
        return false, Some(rows[k].rowHash);
      }
      prev := rows[k].rowHash;
    }
    return true, None;
  }

  // --------------------------------------------------------------------------
  // What the walk finds, in tables whose rows may have been edited
  // --------------------------------------------------------------------------

  /** Row by row the same hash to hang on; payload and row hash may differ. */
  ghost predicate SamePrev(rows: seq<Row>, edited: seq<Row>) {
    |rows| == |edited| && forall i :: 0 <= i < |rows| ==> edited[i].prevHash == rows[i].prevHash
  }

  /** s' is s with payloads and row hashes of any rows replaced. */
  ghost predicate PrevKept(s: State, s': State)
    requires s.Valid() && s'.Valid()
  {
    forall t: Table :: SamePrev(s.tables[t], s'.tables[t])
  }

  lemma {:induction false} GatherSamePrev(s: State, s': State, ts: seq<Table>)
    requires s.Valid() && s'.Valid() && PrevKept(s, s')
    ensures SamePrev(Gather(s.tables, ts), Gather(s'.tables, ts))
  {
    if ts != [] {
      GatherSamePrev(s, s', ts[..|ts| - 1]);
    }
  }

  lemma {:induction false} GatherEqual(s: State, s': State, ts: seq<Table>, t: Table)
    requires s.Valid() && s'.Valid() && PrevKept(s, s')
    requires Gather(s.tables, ts) == Gather(s'.tables, ts) && t in ts
    ensures s.tables[t] == s'.tables[t]
  {
    var n := |ts| - 1;
    var a, a' := Gather(s.tables, ts[..n]), Gather(s'.tables, ts[..n]);
    GatherSamePrev(s, s', ts[..n]);
    assert Gather(s.tables, ts)[..|a|] == a && Gather(s'.tables, ts)[..|a|] == a';
    assert Gather(s.tables, ts)[|a|..] == s.tables[ts[n]] && Gather(s'.tables, ts)[|a|..] == s'.tables[ts[n]];
    if t != ts[n] {
      assert ts == ts[..n] + [ts[n]];
      GatherEqual(s, s', ts[..n], t);
    }
  }

  /** rows holds the chain in some order. */
  ghost predicate Holds(sha: string -> string, rows: seq<Row>, chain: seq<Row>) {
    && FixedLength(sha)
    && AllLinked(sha, chain)
    && NoCollisions(sha, Inputs(chain))
    && multiset(rows) == multiset(chain)
  }

  lemma InChain(rows: seq<Row>, chain: seq<Row>, i: nat) returns (m: nat)
    requires multiset(rows) == multiset(chain) && i < |rows|
    ensures m < |chain| && chain[m] == rows[i]
  {
    assert rows[i] in multiset(rows);
    assert rows[i] in chain;
    m :| m < |chain| && chain[m] == rows[i];
  }

  lemma InRows(rows: seq<Row>, chain: seq<Row>, m: nat) returns (i: nat)
    requires multiset(rows) == multiset(chain) && m < |chain|
    ensures i < |rows| && rows[i] == chain[m]
  {
    assert chain[m] in multiset(chain);
    assert chain[m] in rows;
    i :| i < |rows| && rows[i] == chain[m];
  }

  /** Rows of the chain that hang on the same hash are the same row. */
  lemma {:induction false} PrevDistinct(sha: string -> string, rows: seq<Row>, chain: seq<Row>, m: nat, n: nat)
    requires Holds(sha, rows, chain) && m < |chain| && n <= |chain|
    requires chain[m].prevHash == Before(chain, n)
    ensures m == n
  {
    assert Linked(sha, chain, m);
    if m < n {
      HashesDistinct(sha, chain, m, n);
    } else if n < m {
      HashesDistinct(sha, chain, n, m);
    }
  }

  /** What now stands where row m of the chain was written. */
  ghost function Now(edited: seq<Row>, chain: seq<Row>, m: nat): Row
    requires m < |chain| && chain[m].prevHash in ByPrev(edited)
  {
    ByPrev(edited)[chain[m].prevHash]
  }

  lemma {:induction false} NowKeepsPrev(sha: string -> string, rows: seq<Row>, edited: seq<Row>, chain: seq<Row>,
                                        m: nat)
    requires Holds(sha, rows, chain) && SamePrev(rows, edited) && m < |chain|
    ensures chain[m].prevHash == Before(chain, m) && chain[m].prevHash in ByPrev(edited)
    ensures Now(edited, chain, m).prevHash == chain[m].prevHash
    ensures Now(edited, chain, m) in edited
  {
    var i := InRows(rows, chain, m);
    assert edited[i].prevHash == chain[m].prevHash;
    ByPrevComplete(edited, edited[i]);
    ByPrevSound(edited, chain[m].prevHash);
    assert Linked(sha, chain, m);
  }

  lemma IndexOf(rows: seq<Row>, r: Row) returns (i: nat)
    requires r in rows
    ensures i < |rows| && rows[i] == r
  {
    i :| i < |rows| && rows[i] == r;
  }

  lemma {:induction false} HangsOnChain(sha: string -> string, rows: seq<Row>, edited: seq<Row>, chain: seq<Row>,
                                        h: string)
    returns (n: nat)
    requires Holds(sha, rows, chain) && SamePrev(rows, edited) && h in ByPrev(edited)
    ensures n < |chain| && Before(chain, n) == h
  {
    ByPrevSound(edited, h);
    var j := IndexOf(edited, ByPrev(edited)[h]);
    n := InChain(rows, chain, j);
    assert Linked(sha, chain, n);
  }

  /** Only the hashes of the chain, short of its end, have a row hanging on them. */
  lemma {:induction false} NothingElseHangs(sha: string -> string, rows: seq<Row>, edited: seq<Row>, chain: seq<Row>,
                                            h: string)
    requires Holds(sha, rows, chain) && SamePrev(rows, edited)
    requires forall n :: 0 <= n < |chain| ==> Before(chain, n) != h
    ensures h !in ByPrev(edited)
  {
    if h in ByPrev(edited) {
      var n := HangsOnChain(sha, rows, edited, chain, h);
    }
  }

  lemma {:induction false} NothingAfterEnd(sha: string -> string, rows: seq<Row>, edited: seq<Row>, chain: seq<Row>)
    requires Holds(sha, rows, chain) && SamePrev(rows, edited)
    ensures End(chain) !in ByPrev(edited)
  {
    assert End(chain) == Before(chain, |chain|);
    forall n | 0 <= n < |chain|
      ensures Before(chain, n) != End(chain)
    {
      HashesDistinct(sha, chain, n, |chain|);
    }
    NothingElseHangs(sha, rows, edited, chain, End(chain));
  }

  /** What stands where row m was written is not what was written. */
  ghost predicate Edited(edited: seq<Row>, chain: seq<Row>, m: nat)
    requires m < |chain|
  {
    chain[m].prevHash in ByPrev(edited) && Now(edited, chain, m) != chain[m]
  }

  /** Row k of the chain is the first, from row m on, to be edited. */
  ghost predicate FirstEdited(edited: seq<Row>, chain: seq<Row>, m: nat, k: nat) {
    && m <= k < |chain|
    && Edited(edited, chain, k)
    && forall j :: m <= j < k ==> !Edited(edited, chain, j)
  }

  /** The row that stands at place m carries the hash of its own payload. */
  ghost predicate HashFits(sha: string -> string, edited: seq<Row>, chain: seq<Row>, m: nat)
    requires m < |chain| && chain[m].prevHash in ByPrev(edited)
  {
    var now := Now(edited, chain, m);
    now.rowHash == RowHash(sha, chain[m].prevHash, now.payload)
  }

  /** An edited row whose hash fits carries a hash that no row hangs on. */
  lemma {:induction false} RewriteIsDeadEnd(sha: string -> string, rows: seq<Row>, edited: seq<Row>, chain: seq<Row>,
                                            m: nat)
    requires Holds(sha, rows, chain) && SamePrev(rows, edited) && m < |chain|
    requires NoCollisions(sha, Inputs(chain) + Inputs(edited))
    requires Edited(edited, chain, m) && HashFits(sha, edited, chain, m)
    ensures Now(edited, chain, m).rowHash !in ByPrev(edited)
  {
    NowKeepsPrev(sha, rows, edited, chain, m);
    var now := Now(edited, chain, m);
    var input := Input(now.prevHash, now.payload);
    assert input in Inputs(edited) && sha(input) == now.rowHash;
    forall n | 0 <= n < |chain|
      ensures Before(chain, n) != now.rowHash
    {
      if n > 0 {
        RewriteMissesChain(sha, rows, edited, chain, m, n - 1);
      }
    }
    NothingElseHangs(sha, rows, edited, chain, now.rowHash);
  }

  lemma {:induction false} RewriteMissesChain(sha: string -> string, rows: seq<Row>, edited: seq<Row>,
                                              chain: seq<Row>, m: nat, n: nat)
    requires Holds(sha, rows, chain) && SamePrev(rows, edited) && m < |chain| && n < |chain|
    requires NoCollisions(sha, Inputs(chain) + Inputs(edited))
    requires Edited(edited, chain, m) && HashFits(sha, edited, chain, m)
    ensures chain[n].rowHash != Now(edited, chain, m).rowHash
  {
    NowKeepsPrev(sha, rows, edited, chain, m);
    LinkedInput(sha, chain, n);
    BeforeLength(sha, chain, m);
    BeforeLength(sha, chain, n);
    var now := Now(edited, chain, m);
    var was, stands := Input(chain[n].prevHash, chain[n].payload), Input(now.prevHash, now.payload);
    assert was in Inputs(chain) && stands in Inputs(edited);
    if was == stands {
      InputInjective(chain[n].prevHash, chain[n].payload, now.prevHash, now.payload);
      assert was[|now.prevHash|..] == chain[n].payload && stands[|now.prevHash|..] == now.payload;
      PrevDistinct(sha, rows, chain, n, m);
    }
  }

  /** The verdict on the walk from row m on: sound if no row is edited from there on; otherwise it
      depends on the first edited row, row k, alone. */
  ghost predicate Explains(sha: string -> string, verdict: (bool, Option<string>), edited: seq<Row>, chain: seq<Row>,
                           m: nat, k: nat)
  {
    if k < |chain|
    then FirstEdited(edited, chain, m, k)
         && verdict == if HashFits(sha, edited, chain, k) then (true, None)
                       else (false, Some(Now(edited, chain, k).rowHash))
    else verdict == (true, None) && forall j :: m <= j < |chain| ==> !Edited(edited, chain, j)
  }

  lemma {:induction false} ExplainsBefore(sha: string -> string, verdict: (bool, Option<string>), edited: seq<Row>,
                                          chain: seq<Row>, m: nat, k: nat)
    requires m < |chain| && !Edited(edited, chain, m) && Explains(sha, verdict, edited, chain, m + 1, k)
    ensures Explains(sha, verdict, edited, chain, m, k)
  {
  }

  /** The verdict on a walk that has come to an edited row. */
  lemma {:induction false} VerifyEdited(sha: string -> string, rows: seq<Row>, edited: seq<Row>, chain: seq<Row>,
                                        m: nat, walk: seq<Row>)
    requires Holds(sha, rows, chain) && SamePrev(rows, edited) && m < |chain|
    requires NoCollisions(sha, Inputs(chain) + Inputs(edited))
    requires IsWalk(ByPrev(edited), Before(chain, m), walk) && Edited(edited, chain, m)
    ensures Explains(sha, VerifyRows(sha, Before(chain, m), walk), edited, chain, m, m)
  {
    NowKeepsPrev(sha, rows, edited, chain, m);
    if HashFits(sha, edited, chain, m) {
      RewriteIsDeadEnd(sha, rows, edited, chain, m);
      assert walk[1..] == [];
    }
  }

  lemma {:induction false} VerifyFrom(sha: string -> string, rows: seq<Row>, edited: seq<Row>, chain: seq<Row>,
                                      m: nat, walk: seq<Row>)
    returns (k: nat)
    requires Holds(sha, rows, chain) && SamePrev(rows, edited) && m <= |chain|
    requires NoCollisions(sha, Inputs(chain) + Inputs(edited))
    requires IsWalk(ByPrev(edited), Before(chain, m), walk)
    ensures Explains(sha, VerifyRows(sha, Before(chain, m), walk), edited, chain, m, k)
    decreases |chain| - m
  {
    k := m;
    if m == |chain| {
      NothingAfterEnd(sha, rows, edited, chain);
    } else if Edited(edited, chain, m) {
      VerifyEdited(sha, rows, edited, chain, m, walk);
    } else {
      NowKeepsPrev(sha, rows, edited, chain, m);
      assert Linked(sha, chain, m);
      k := VerifyFrom(sha, rows, edited, chain, m + 1, walk[1..]);
      ExplainsBefore(sha, VerifyRows(sha, Before(chain, m + 1), walk[1..]), edited, chain, m, k);
    }
  }

  // --------------------------------------------------------------------------
  // The theorems
  // --------------------------------------------------------------------------

  lemma {:induction false} RunHolds(sha: string -> string, writes: seq<Write>)
    requires FixedLength(sha) && NoCollisions(sha, Inputs(Chain(sha, writes)))
    ensures Holds(sha, AllRows(Run(sha, writes)), Chain(sha, writes))
  {
    TablesHoldChain(sha, writes);
    ChainAllLinked(sha, writes);
  }

  /** Rows that stand as written are followed in the order of writing. */
  lemma {:induction false} WalkAlong(sha: string -> string, chain: seq<Row>, byPrev: map<string, Row>, m: nat, k: nat,
                                     rest: seq<Row>)
    requires AllLinked(sha, chain) && m <= k <= |chain|
    requires forall j :: m <= j < k ==> chain[j].prevHash in byPrev && byPrev[chain[j].prevHash] == chain[j]
    requires IsWalk(byPrev, Before(chain, k), rest)
    ensures IsWalk(byPrev, Before(chain, m), chain[m..k] + rest)
    decreases k - m
  {
    if m == k {
      assert chain[m..k] + rest == rest;
    } else {
      assert Linked(sha, chain, m);
      WalkAlong(sha, chain, byPrev, m + 1, k, rest);
      assert chain[m..k] + rest == [chain[m]] + (chain[m + 1..k] + rest);
    }
  }

  lemma {:induction false} NowIsOwn(sha: string -> string, rows: seq<Row>, chain: seq<Row>, m: nat)
    requires Holds(sha, rows, chain) && m < |chain|
    ensures chain[m].prevHash in ByPrev(rows) && Now(rows, chain, m) == chain[m]
  {
    NowKeepsPrev(sha, rows, rows, chain, m);
    var j := IndexOf(rows, Now(rows, chain, m));
    var k := InChain(rows, chain, j);
    assert Linked(sha, chain, m);
    PrevDistinct(sha, rows, chain, k, m);
  }

  /** After any interleaving of writes, following the links from the root returns every row
      exactly once, in the order of writing, and ends at the stored tip; and it verifies. */
  lemma {:induction false} ChainReconstructed(sha: string -> string, writes: seq<Write>)
    requires FixedLength(sha) && NoCollisions(sha, Inputs(Chain(sha, writes)))
    ensures var chain := Chain(sha, writes);
            && IsWalk(ByPrev(AllRows(Run(sha, writes))), GENESIS, chain)
            && multiset(chain) == multiset(AllRows(Run(sha, writes)))
            && (forall k :: 0 <= k < |writes| ==> chain[k].payload == writes[k].payload)
            && End(chain) == Run(sha, writes).tip
            && VerifyRows(sha, GENESIS, chain) == (true, None)
  {
    var rows, chain := AllRows(Run(sha, writes)), Chain(sha, writes);
    RunHolds(sha, writes);
    forall m | 0 <= m < |chain|
      ensures chain[m].prevHash in ByPrev(rows) && ByPrev(rows)[chain[m].prevHash] == chain[m]
    {
      NowIsOwn(sha, rows, chain, m);
    }
    NothingAfterEnd(sha, rows, rows, chain);
    assert chain[0..|chain|] + [] == chain && chain[0..] == chain;
    WalkAlong(sha, chain, ByPrev(rows), 0, |chain|, []);
    TipIsEnd(sha, writes);
    forall k | 0 <= k < |writes|
      ensures chain[k].payload == writes[k].payload
    {
      ChainLinked(sha, writes, k);
    }
    LinkedVerifies(sha, chain, 0);
  }

  lemma {:induction false} LinkedVerifies(sha: string -> string, rows: seq<Row>, m: nat)
    requires AllLinked(sha, rows) && m <= |rows|
    ensures VerifyRows(sha, Before(rows, m), rows[m..]) == (true, None)
    decreases |rows| - m
  {
    if m < |rows| {
      assert Linked(sha, rows, m);
      assert rows[m..][1..] == rows[m + 1..];
      LinkedVerifies(sha, rows, m + 1);
    }
  }

  lemma {:induction false} CountOnce<T>(s: seq<T>, x: T)
    requires NoRepeats(s)
    ensures multiset(s)[x] <= 1
  {
    if s != [] {
      var n := |s| - 1;
      assert s == s[..n] + [s[n]];
      CountOnce(s[..n], x);
      if s[n] == x {
        assert x !in s[..n];
      }
    }
  }

  lemma CountTwice<T>(s: seq<T>, i: nat, j: nat)
    requires i < j < |s| && s[i] == s[j]
    ensures multiset(s)[s[i]] >= 2
  {
    assert s == s[..j] + ([s[j]] + s[j + 1..]);
    assert s[i] in s[..j];
  }

  /** Each row of the tables hangs on a hash of its own. */
  lemma {:induction false} RowsDistinct(sha: string -> string, rows: seq<Row>, chain: seq<Row>, i: nat, j: nat)
    requires Holds(sha, rows, chain) && i < j < |rows|
    ensures rows[i].prevHash != rows[j].prevHash
  {
    if rows[i].prevHash == rows[j].prevHash {
      var m := InChain(rows, chain, i);
      var n := InChain(rows, chain, j);
      assert Linked(sha, chain, n);
      PrevDistinct(sha, rows, chain, m, n);
      forall a, b | 0 <= a < b < |chain|
        ensures chain[a] != chain[b]
      {
        assert Linked(sha, chain, a) && Linked(sha, chain, b);
        HashesDistinct(sha, chain, a, b);
      }
      CountOnce(chain, chain[m]);
      CountTwice(rows, i, j);
      assert false;
    }
  }

  /** What stands at a place of the tables is what the walk finds there. */
  lemma {:induction false} EditShows(sha: string -> string, rows: seq<Row>, edited: seq<Row>, chain: seq<Row>, i: nat)
    returns (m: nat)
    requires Holds(sha, rows, chain) && SamePrev(rows, edited) && i < |rows|
    ensures m < |chain| && chain[m] == rows[i]
    ensures chain[m].prevHash in ByPrev(edited) && Now(edited, chain, m) == edited[i]
  {
    m := InChain(rows, chain, i);
    NowKeepsPrev(sha, rows, edited, chain, m);
    var j := IndexOf(edited, Now(edited, chain, m));
    assert rows[j].prevHash == edited[j].prevHash == rows[i].prevHash;
    if i < j {
      RowsDistinct(sha, rows, chain, i, j);
    } else if j < i {
      RowsDistinct(sha, rows, chain, j, i);
    }
  }

  lemma {:induction false} UneditedMeansEqual(sha: string -> string, rows: seq<Row>, edited: seq<Row>, chain: seq<Row>)
    requires Holds(sha, rows, chain) && SamePrev(rows, edited)
    ensures rows == edited <==> forall m :: 0 <= m < |chain| ==> !Edited(edited, chain, m)
  {
    if rows == edited {
      forall m | 0 <= m < |chain|
        ensures !Edited(edited, chain, m)
      {
        NowIsOwn(sha, rows, chain, m);
      }
    }
    if forall m :: 0 <= m < |chain| ==> !Edited(edited, chain, m) {
      forall i | 0 <= i < |rows|
        ensures rows[i] == edited[i]
      {
        var m := EditShows(sha, rows, edited, chain, i);
        assert !Edited(edited, chain, m);
      }
    }
  }

  lemma EqualRowsEqualTables(s: State, s': State)
    requires s.Valid() && s'.Valid() && PrevKept(s, s')
    ensures AllRows(s) == AllRows(s') <==> s.tables == s'.tables
  {
    if AllRows(s) == AllRows(s') {
      forall t: Table
        ensures s.tables[t] == s'.tables[t]
      {
        EveryTable(t);
        GatherEqual(s, s', TABLES, t);
      }
      assert s.tables == s'.tables;
    }
  }

  /** Payloads and row hashes of any rows may have been replaced. The verdict on the walk is broken
      exactly when some row was edited and the first edited one, row k in the order of writing,
      does not carry the hash of its payload; and then it names the hash this row carries. */
  lemma {:induction false} EditDetectedIff(sha: string -> string, writes: seq<Write>, s': State, walk: seq<Row>)
    returns (k: nat)
    requires FixedLength(sha) && s'.Valid() && PrevKept(Run(sha, writes), s')
    requires NoCollisions(sha, Inputs(Chain(sha, writes)) + Inputs(AllRows(s')))
    requires IsWalk(ByPrev(AllRows(s')), GENESIS, walk)
    ensures Explains(sha, VerifyRows(sha, GENESIS, walk), AllRows(s'), Chain(sha, writes), 0, k)
    ensures k < |Chain(sha, writes)| <==> s'.tables != Run(sha, writes).tables
  {
    var s, chain := Run(sha, writes), Chain(sha, writes);
    RunHolds(sha, writes);
    GatherSamePrev(s, s', TABLES);
    k := VerifyFrom(sha, AllRows(s), AllRows(s'), chain, 0, walk);
    UneditedMeansEqual(sha, AllRows(s), AllRows(s'), chain);
    EqualRowsEqualTables(s, s');
  }

  /** The edit that goes unnoticed: a payload and its stored hash rewritten together. The walk
      ends there, and verifies; whatever comes after is lost from it. */
  lemma {:induction false} RewriteNotNoticed(sha: string -> string, writes: seq<Write>, s': State, k: nat)
    returns (walk: seq<Row>)
    requires FixedLength(sha) && s'.Valid() && PrevKept(Run(sha, writes), s')
    requires NoCollisions(sha, Inputs(Chain(sha, writes)) + Inputs(AllRows(s')))
    requires FirstEdited(AllRows(s'), Chain(sha, writes), 0, k) && HashFits(sha, AllRows(s'), Chain(sha, writes), k)
    ensures walk == Chain(sha, writes)[..k] + [Now(AllRows(s'), Chain(sha, writes), k)]
    ensures IsWalk(ByPrev(AllRows(s')), GENESIS, walk) && VerifyRows(sha, GENESIS, walk) == (true, None)
  {
    var s, chain, edited := Run(sha, writes), Chain(sha, writes), AllRows(s');
    RunHolds(sha, writes);
    GatherSamePrev(s, s', TABLES);
    forall j | 0 <= j <= k
      ensures chain[j].prevHash in ByPrev(edited)
    {
      NowKeepsPrev(sha, AllRows(s), edited, chain, j);
    }
    NowKeepsPrev(sha, AllRows(s), edited, chain, k);
    RewriteIsDeadEnd(sha, AllRows(s), edited, chain, k);
    var last := [Now(edited, chain, k)];
    assert last[1..] == [];
    forall j | 0 <= j < k
      ensures Now(edited, chain, j) == chain[j]
    {
      assert !Edited(edited, chain, j);
    }
    WalkAlong(sha, chain, ByPrev(edited), 0, k, last);
    walk := chain[..k] + last;
    var k' := EditDetectedIff(sha, writes, s', walk);
  }

  /** Nor is a row noticed that was removed, or made to hang elsewhere: if the first k rows stand
      as written and nothing hangs on the hash of the last of them, the walk is these k rows. */
  lemma {:induction false} CutNotNoticed(sha: string -> string, writes: seq<Write>, edited: seq<Row>, k: nat)
    requires k <= |writes|
    requires forall j :: 0 <= j < k ==>
               var row := Chain(sha, writes)[j];
               row.prevHash in ByPrev(edited) && ByPrev(edited)[row.prevHash] == row
    requires Before(Chain(sha, writes), k) !in ByPrev(edited)
    ensures IsWalk(ByPrev(edited), GENESIS, Chain(sha, writes)[..k])
    ensures VerifyRows(sha, GENESIS, Chain(sha, writes)[..k]) == (true, None)
  {
    var chain := Chain(sha, writes);
    ChainAllLinked(sha, writes);
    WalkAlong(sha, chain, ByPrev(edited), 0, k, []);
    assert chain[0..k] + [] == chain[..k];
    var first := chain[..k];
    forall j | 0 <= j < k
      ensures Linked(sha, first, j)
    {
      assert Linked(sha, chain, j) && Before(first, j) == Before(chain, j);
    }
    LinkedVerifies(sha, first, 0);
    assert first[0..] == first;
  }

  // --------------------------------------------------------------------------
  // Any tampering at all, and the tip
  // --------------------------------------------------------------------------

  lemma {:induction false} VerifiedIsLinked(sha: string -> string, walk: seq<Row>, m: nat)
    requires m <= |walk| && VerifyRows(sha, Before(walk, m), walk[m..]) == (true, None)
    ensures forall k :: m <= k < |walk| ==> Linked(sha, walk, k)
    decreases |walk| - m
  {
    if m < |walk| {
      assert walk[m..][0] == walk[m] && walk[m..][1..] == walk[m + 1..];
      VerifiedIsLinked(sha, walk, m + 1);
    }
  }

  lemma {:induction false} NeverRoot(sha: string -> string, rows: seq<Row>, inputs: set<string>, m: nat)
    requires AllLinked(sha, rows) && NoCollisions(sha, inputs) && Inputs(rows) <= inputs && 0 < m <= |rows|
    ensures Before(rows, m) != GENESIS
  {
    LinkedInput(sha, rows, m - 1);
  }

  /** Two linked sequences that come to the same hash are the same up to there. */
  lemma {:induction false} SameHashSamePast(sha: string -> string, a: seq<Row>, b: seq<Row>, m: nat, n: nat)
    requires FixedLength(sha) && AllLinked(sha, a) && AllLinked(sha, b)
    requires NoCollisions(sha, Inputs(a) + Inputs(b))
    requires m <= |a| && n <= |b| && Before(a, m) == Before(b, n)
    ensures m == n && a[..m] == b[..n]
    decreases m + n
  {
    if m > 0 && n > 0 {
      SameRow(sha, a, b, m - 1, n - 1);
      SameHashSamePast(sha, a, b, m - 1, n - 1);
      assert a[..m] == a[..m - 1] + [a[m - 1]] && b[..n] == b[..n - 1] + [b[n - 1]];
    } else if m > 0 {
      NeverRoot(sha, a, Inputs(a) + Inputs(b), m);
    } else if n > 0 {
      NeverRoot(sha, b, Inputs(a) + Inputs(b), n);
    }
  }

  lemma {:induction false} SameRow(sha: string -> string, a: seq<Row>, b: seq<Row>, m: nat, n: nat)
    requires FixedLength(sha) && AllLinked(sha, a) && AllLinked(sha, b)
    requires NoCollisions(sha, Inputs(a) + Inputs(b))
    requires m < |a| && n < |b| && Before(a, m + 1) == Before(b, n + 1)
    ensures a[m] == b[n] && Before(a, m) == Before(b, n)
  {
    LinkedInput(sha, a, m);
    LinkedInput(sha, b, n);
    BeforeLength(sha, a, m);
    BeforeLength(sha, b, n);
    var x, y := Input(a[m].prevHash, a[m].payload), Input(b[n].prevHash, b[n].payload);
    assert x in Inputs(a) && y in Inputs(b);
    InputInjective(a[m].prevHash, a[m].payload, b[n].prevHash, b[n].payload);
    assert x[HASH_LENGTH..] == a[m].payload && y[HASH_LENGTH..] == b[n].payload;
  }

  /** Rows may have been removed, added, made to hang elsewhere or rewritten, in any way. A walk that
      verifies is what was written exactly when it ends at the stored tip. */
  lemma {:induction false} TipDecidesIff(sha: string -> string, writes: seq<Write>, rows: seq<Row>, walk: seq<Row>)
    requires FixedLength(sha) && NoCollisions(sha, Inputs(Chain(sha, writes)) + Inputs(walk))
    requires IsWalk(ByPrev(rows), GENESIS, walk) && VerifyRows(sha, GENESIS, walk) == (true, None)
    ensures walk == Chain(sha, writes) <==> End(walk) == Run(sha, writes).tip
  {
    var chain := Chain(sha, writes);
    TipIsEnd(sha, writes);
    if End(walk) == End(chain) {
      ChainAllLinked(sha, writes);
      assert walk[0..] == walk && Before(walk, |walk|) == End(walk) && Before(chain, |chain|) == End(chain);
      VerifiedIsLinked(sha, walk, 0);
      SameHashSamePast(sha, chain, walk, |chain|, |walk|);
      assert chain[..|chain|] == chain && walk[..|walk|] == walk;
    }
  }

  // --------------------------------------------------------------------------
  // Payloads alone
  // --------------------------------------------------------------------------

  ghost predicate SameLinks(rows: seq<Row>, edited: seq<Row>) {
    SamePrev(rows, edited) && forall i :: 0 <= i < |rows| ==> edited[i].rowHash == rows[i].rowHash
  }

  /** s' is s with any of its payloads replaced, the stored hashes untouched. */
  ghost predicate PayloadsEdited(s: State, s': State)
    requires s.Valid() && s'.Valid()
  {
    s'.tip == s.tip && forall t: Table :: SameLinks(s.tables[t], s'.tables[t])
  }

  lemma {:induction false} GatherSameLinks(s: State, s': State, ts: seq<Table>)
    requires s.Valid() && s'.Valid() && PayloadsEdited(s, s')
    ensures SameLinks(Gather(s.tables, ts), Gather(s'.tables, ts))
  {
    if ts != [] {
      GatherSameLinks(s, s', ts[..|ts| - 1]);
    }
  }

  /** The links of two maps lead the same way. */
  ghost predicate SameMap(a: map<string, Row>, b: map<string, Row>) {
    a.Keys == b.Keys && forall h :: h in a ==> a[h].rowHash == b[h].rowHash
  }

  lemma {:induction false} ByPrevSameMap(rows: seq<Row>, edited: seq<Row>)
    requires SameLinks(rows, edited)
    ensures SameMap(ByPrev(rows), ByPrev(edited))
  {
    if rows != [] {
      ByPrevSameMap(rows[..|rows| - 1], edited[..|rows| - 1]);
    }
  }

  lemma {:induction false} SameHops(a: map<string, Row>, b: map<string, Row>, h: string, n: nat)
    requires SameMap(a, b)
    ensures Hops(a, h, n) == Hops(b, h, n)
    decreases n
  {
    if n > 0 && h in a {
      SameHops(a, b, a[h].rowHash, n - 1);
    }
  }

  /** With the hashes untouched, the links end as they did. */
  lemma {:induction false} EditedLinksEnd(sha: string -> string, writes: seq<Write>, edited: seq<Row>)
    returns (walk: seq<Row>)
    requires FixedLength(sha) && NoCollisions(sha, Inputs(Chain(sha, writes)))
    requires SameLinks(AllRows(Run(sha, writes)), edited)
    ensures IsWalk(ByPrev(edited), GENESIS, walk)
  {
    var before, after := ByPrev(AllRows(Run(sha, writes))), ByPrev(edited);
    ChainReconstructed(sha, writes);
    EndsIff(before);
    ByPrevSameMap(AllRows(Run(sha, writes)), edited);
    assert |before| == |before.Keys| == |after.Keys| == |after|;
    SameHops(before, after, GENESIS, |before|);
    walk := HopsMakeWalk(after, GENESIS, |after|);
  }

  /** Any edit of payloads that leaves the stored hashes alone is detected, and reported at
      the first edited row in the order of writing; the journal verifies only if nothing
      was edited. */
  lemma {:induction false} TamperDetected(sha: string -> string, writes: seq<Write>, s': State)
    returns (walk: seq<Row>, k: nat)
    requires FixedLength(sha) && s'.Valid() && PayloadsEdited(Run(sha, writes), s')
    requires NoCollisions(sha, Inputs(Chain(sha, writes)) + Inputs(AllRows(s')))
    ensures IsWalk(ByPrev(AllRows(s')), GENESIS, walk)
    ensures s' == Run(sha, writes) ==> VerifyRows(sha, GENESIS, walk) == (true, None)
    ensures s' != Run(sha, writes) ==>
              && FirstEdited(AllRows(s'), Chain(sha, writes), 0, k)
              && Now(AllRows(s'), Chain(sha, writes), k).payload != Chain(sha, writes)[k].payload
              && VerifyRows(sha, GENESIS, walk) == (false, Some(Chain(sha, writes)[k].rowHash))
  {
    var rows, edited, chain := AllRows(Run(sha, writes)), AllRows(s'), Chain(sha, writes);
    GatherSameLinks(Run(sha, writes), s', TABLES);
    walk := EditedLinksEnd(sha, writes, edited);
    k := EditDetectedIff(sha, writes, s', walk);
    if s' != Run(sha, writes) {
      RunHolds(sha, writes);
      PayloadEditMisfits(sha, rows, edited, chain, k);
    }
  }

  /** An edited payload under its old hash does not fit. */
  lemma {:induction false} PayloadEditMisfits(sha: string -> string, rows: seq<Row>, edited: seq<Row>,
                                              chain: seq<Row>, k: nat)
    requires Holds(sha, rows, chain) && SameLinks(rows, edited) && k < |chain|
    requires NoCollisions(sha, Inputs(chain) + Inputs(edited)) && Edited(edited, chain, k)
    ensures Now(edited, chain, k).rowHash == chain[k].rowHash && Now(edited, chain, k).payload != chain[k].payload
    ensures !HashFits(sha, edited, chain, k)
  {
    NowKeepsPrev(sha, rows, edited, chain, k);
    NowIsOwn(sha, rows, chain, k);
    ByPrevSameMap(rows, edited);
    if HashFits(sha, edited, chain, k) {
      RewriteMissesChain(sha, rows, edited, chain, k, k);
    }
  }

  // --------------------------------------------------------------------------
  // The journal
  // --------------------------------------------------------------------------

  class Journal {
    const sha: string -> string
    var tables: map<Table, seq<Row>>
    var tip: string

    function View(): State
      reads this
    {
      State(tables, tip)
    }

    constructor (sha: string -> string)
      ensures this.sha == sha && View() == Run(sha, [])
    {
      this.sha := sha;
      tables, tip := Fresh().tables, GENESIS;
    }

    method Write(t: Table, payload: string) returns (hash: string)
      requires View().Valid()
      modifies this
      ensures View() == Append(sha, old(View()), t, payload)
      ensures hash == tip
    {
      var prev := tip;
      hash := RowHash(sha, prev, payload);
      tables := tables[t := tables[t] + [Row(payload, prev, hash)]];
      tip := hash;
    }

    method AllRowsInOrder() returns (ordered: seq<Row>)
      requires View().Valid() && LinksEnd(ByPrev(AllRows(View())))
      ensures IsWalk(ByPrev(AllRows(View())), GENESIS, ordered)
    {
      var rows: seq<Row> := [];
      for k := 0 to |TABLES|
        invariant rows == Gather(tables, TABLES[..k])
      {
        rows := rows + tables[TABLES[k]];
        assert TABLES[..k + 1][..k] == TABLES[..k];
      }
      assert TABLES[..|TABLES|] == TABLES;
      ordered := ChainOrder(rows);
    }

    method Verify() returns (ok: bool, broken: Option<string>)
      requires View().Valid() && LinksEnd(ByPrev(AllRows(View())))
      ensures exists walk :: IsWalk(ByPrev(AllRows(View())), GENESIS, walk)
                             && (ok, broken) == VerifyRows(sha, GENESIS, walk)
    {
      var ordered := AllRowsInOrder();
      ok, broken := VerifyOrdered(sha, ordered);
    }
  }
}

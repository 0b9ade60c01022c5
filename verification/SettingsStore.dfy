/** The settings store: dictionaries as objects, updated in place
    (aimos/settings/settings_store.py). */
module SettingsStore {
  import opened Layers

  datatype Value = Text(text: string) | Ref(at: Dictionary)

  class Dictionary {
    var items: map<string, Value>

    constructor ()
      ensures items == map[]
    {
      items := map[];
    }
  }

  /** What hangs below a value: a tree that names the object at each of its nodes. */
  datatype Shape = Plain(text: string) | Node(at: Dictionary, kids: map<string, Shape>)

  ghost function ValueOf(s: Shape): Value {
    match s
    case Plain(text) => Text(text)
    case Node(at, _) => Ref(at)
  }

  /** The configuration a shape stands for. */
  ghost function Content(s: Shape): Json {
    match s
    case Plain(text) => Leaf(text)
    case Node(_, kids) => Dict(map k | k in kids :: Content(kids[k]))
  }

  ghost function Objects(s: Shape): set<Dictionary> {
    match s
    case Plain(_) => {}
    case Node(at, kids) => {at} + set k, d | k in kids && d in Objects(kids[k]) :: d
  }

  /** The heap holds the shape. */
  ghost predicate Stored(s: Shape)
    reads Objects(s)
  {
    s.Node? ==>
      && s.at.items == (map k | k in s.kids :: ValueOf(s.kids[k]))
      && forall k :: k in s.kids ==> Stored(s.kids[k])
  }

  /** No object is shared between two places of the shape. */
  ghost predicate Tree(s: Shape) {
    s.Node? ==>
      && (forall k :: k in s.kids ==> s.at !in Objects(s.kids[k]) && Tree(s.kids[k]))
      && (forall j, k :: j in s.kids && k in s.kids && j != k ==> Objects(s.kids[j]) !! Objects(s.kids[k]))
  }

  lemma KidObjects(s: Shape, k: string)
    requires s.Node? && k in s.kids
    ensures Objects(s.kids[k]) <= Objects(s) && s.at in Objects(s)
  {
  }

  // --------------------------------------------------------------------------
  // The update on shapes
  // --------------------------------------------------------------------------

  /** The objects of a stay where they are; below them hang objects of b. */
  ghost function Grafted(a: Shape, b: Shape): Shape
    decreases b
  {
    if a.Node? && b.Node?
    then Node(a.at, map k | k in a.kids.Keys + b.kids.Keys :: GraftedAt(a, b, k))
    else b
  }

  ghost function GraftedAt(a: Shape, b: Shape, k: string): Shape
    requires a.Node? && b.Node? && k in a.kids.Keys + b.kids.Keys
    decreases b, 0
  {
    if k !in b.kids then a.kids[k]
    else if k !in a.kids then b.kids[k]
    else Grafted(a.kids[k], b.kids[k])
  }

  lemma {:induction false} GraftedContent(a: Shape, b: Shape)
    ensures Content(Grafted(a, b)) == Overlay(Content(a), Content(b))
    decreases b
  {
    if a.Node? && b.Node? {
      var g := Grafted(a, b);
      var left, right := Content(g), Overlay(Content(a), Content(b));
      forall k | k in left.items
        ensures left.items[k] == right.items[k]
      {
        assert g.kids[k] == GraftedAt(a, b, k);
        assert left.items[k] == Content(g.kids[k]) && right.items[k] == OverlayAt(Content(a), Content(b), k);
        if k in a.kids && k in b.kids {
          GraftedContent(a.kids[k], b.kids[k]);
        }
      }
      assert left.items == right.items;
    }
  }

  lemma {:induction false} GraftedObjects(a: Shape, b: Shape)
    ensures Objects(Grafted(a, b)) <= Objects(a) + Objects(b)
    decreases b
  {
    if a.Node? && b.Node? {
      var g := Grafted(a, b);
      forall k | k in g.kids
        ensures Objects(g.kids[k]) <= Objects(a) + Objects(b)
      {
        assert g.kids[k] == GraftedAt(a, b, k);
        if k in a.kids {
          KidObjects(a, k);
        }
        if k in b.kids {
          KidObjects(b, k);
        }
        if k in a.kids && k in b.kids {
          GraftedObjects(a.kids[k], b.kids[k]);
        }
      }
    }
  }

  // --------------------------------------------------------------------------
  // The update on the heap
  // --------------------------------------------------------------------------

  /** The entries of the base once the keys in done have been handled. */
  ghost function ItemsSome(a: Shape, b: Shape, done: set<string>): map<string, Value>
    requires a.Node? && b.Node? && done <= b.kids.Keys
  {
    map k | k in a.kids.Keys + done :: if k in done then ValueOf(GraftedAt(a, b, k)) else ValueOf(a.kids[k])
  }

  lemma ItemsOne(a: Shape, b: Shape, done: set<string>, k: string)
    requires a.Node? && b.Node? && done <= b.kids.Keys && k in b.kids && k !in done
    ensures ItemsSome(a, b, done)[k := ValueOf(GraftedAt(a, b, k))] == ItemsSome(a, b, done + {k})
  {
  }

  /** What hangs below k half-way through: the graft if k has been handled, the old kid if not. */
  ghost function KidSome(a: Shape, b: Shape, done: set<string>, k: string): Shape
    requires a.Node? && b.Node? && k in a.kids.Keys + b.kids.Keys
  {
    if k in a.kids && k !in done then a.kids[k] else GraftedAt(a, b, k)
  }

  /** What hangs below one key is out of reach of a change to the base itself, and of a change to
      what hangs below another key. */
  lemma ZonesApart(a: Shape, b: Shape, done: set<string>, j: string, k: string)
    requires a.Node? && b.Node? && Tree(a) && Objects(a) !! Objects(b)
    requires j in a.kids.Keys + b.kids.Keys
    ensures a.at !in Objects(KidSome(a, b, done, j))
    ensures j != k && k in a.kids ==> Objects(KidSome(a, b, done, j)) !! Objects(a.kids[k])
  {
    if k in a.kids {
      KidObjects(a, k);
    }
    if j in b.kids {
      KidObjects(b, j);
      if j in a.kids {
        GraftedObjects(a.kids[j], b.kids[j]);
      }
    }
  }

  /** The overlay is left alone; where the base had no dictionary, the overlay's own objects now
      hang below it. */
  method DeepUpdate(base: Dictionary, overlay: Dictionary, ghost a: Shape, ghost b: Shape)
    requires a.Node? && b.Node? && a.at == base && b.at == overlay
    requires Stored(a) && Stored(b) && Tree(a) && Objects(a) !! Objects(b)
    modifies Objects(a)
    ensures Stored(Grafted(a, b)) && Stored(b)
    decreases b, 2
  {
    var todo := overlay.items.Keys;
    ghost var keys := b.kids.Keys;
    assert keys - todo == {};
    NothingHandled(a, b);
    while todo != {}
      invariant todo <= keys
      invariant base.items == ItemsSome(a, b, keys - todo) && Stored(b)
      invariant forall k :: k in a.kids.Keys + keys ==> Stored(KidSome(a, b, keys - todo, k))
      decreases todo
    {
      var k :| k in todo;
      ghost var done := keys - todo;
      UpdateKey(base, overlay, k, a, b, done);
      assert done + {k} == keys - (todo - {k});
      todo := todo - {k};
    }
    assert keys - todo == keys;
    AllHandled(a, b);
  }

  /** Everything that hangs below a key other than k. */
  ghost function Others(a: Shape, b: Shape, done: set<string>, k: string): set<Shape>
    requires a.Node? && b.Node?
  {
    set j | j in a.kids.Keys + b.kids.Keys && j != k :: KidSome(a, b, done, j)
  }

  lemma OthersApart(a: Shape, b: Shape, done: set<string>, k: string)
    requires a.Node? && b.Node? && Tree(a) && Objects(a) !! Objects(b)
    ensures forall s :: s in Others(a, b, done, k) ==>
              a.at !in Objects(s) && (k in a.kids ==> Objects(s) !! Objects(a.kids[k]))
  {
    forall s | s in Others(a, b, done, k)
      ensures a.at !in Objects(s) && (k in a.kids ==> Objects(s) !! Objects(a.kids[k]))
    {
      var j :| j in a.kids.Keys + b.kids.Keys && j != k && s == KidSome(a, b, done, j);
      ZonesApart(a, b, done, j, k);
    }
  }

  lemma KeyHandled(a: Shape, b: Shape, done: set<string>, k: string)
    requires a.Node? && b.Node? && k in b.kids
    requires (forall s :: s in Others(a, b, done, k) ==> Stored(s)) && Stored(GraftedAt(a, b, k))
    ensures forall j :: j in a.kids.Keys + b.kids.Keys ==> Stored(KidSome(a, b, done + {k}, j))
  {
    forall j | j in a.kids.Keys + b.kids.Keys
      ensures Stored(KidSome(a, b, done + {k}, j))
    {
      if j != k {
        assert KidSome(a, b, done, j) in Others(a, b, done, k);
      }
    }
  }

  lemma NothingHandled(a: Shape, b: Shape)
    requires a.Node? && b.Node? && Stored(a) && Stored(b)
    ensures a.at.items == ItemsSome(a, b, {})
    ensures forall j :: j in a.kids.Keys + b.kids.Keys ==> Stored(KidSome(a, b, {}, j))
  {
  }

  lemma AllHandled(a: Shape, b: Shape)
    requires a.Node? && b.Node? && a.at.items == ItemsSome(a, b, b.kids.Keys)
    requires forall j :: j in a.kids.Keys + b.kids.Keys ==> Stored(KidSome(a, b, b.kids.Keys, j))
    ensures Stored(Grafted(a, b))
  {
    var g := Grafted(a, b);
    forall j | j in g.kids
      ensures Stored(g.kids[j])
    {
      assert g.kids[j] == GraftedAt(a, b, j) == KidSome(a, b, b.kids.Keys, j);
    }
  }

  method SetKey(base: Dictionary, k: string, value: Value, ghost others: set<Shape>)
    requires forall s :: s in others ==> base !in Objects(s) && Stored(s)
    modifies base
    ensures base.items == old(base.items)[k := value]
    ensures forall s :: s in others ==> Stored(s)
  {
    base.items := base.items[k := value];
  }

  method UpdateBelow(base: Dictionary, overlay: Dictionary, ghost a: Shape, ghost b: Shape, ghost others: set<Shape>)
    requires a.Node? && b.Node? && a.at == base && b.at == overlay
    requires Stored(a) && Stored(b) && Tree(a) && Objects(a) !! Objects(b)
    requires forall s :: s in others ==> Objects(s) !! Objects(a) && Stored(s)
    modifies Objects(a)
    ensures Stored(Grafted(a, b)) && Stored(b)
    ensures forall s :: s in others ==> Stored(s)
    decreases b, 3
  {
    DeepUpdate(base, overlay, a, b);
    forall s | s in others
      ensures Stored(s)
    {
      assert old(Stored(s)) && old(allocated(Objects(s)));
    }
  }

  /** A key under which both have a dictionary. */
  method UpdateBranch(base: Dictionary, overlay: Dictionary, k: string, ghost a: Shape, ghost b: Shape,
                      ghost done: set<string>)
    requires a.Node? && b.Node? && Stored(b) && Tree(a) && Objects(a) !! Objects(b)
    requires k in b.kids && k in a.kids && a.kids[k].Node? && b.kids[k].Node? && k !in done && done <= b.kids.Keys
    requires a.kids[k].at == base && b.kids[k].at == overlay
    requires forall j :: j in a.kids.Keys + b.kids.Keys ==> Stored(KidSome(a, b, done, j))
    modifies Objects(a.kids[k])
    ensures Stored(b)
    ensures forall j :: j in a.kids.Keys + b.kids.Keys ==> Stored(KidSome(a, b, done + {k}, j))
    decreases b, 0
  {
    KidObjects(a, k);
    KidObjects(b, k);
    OthersApart(a, b, done, k);
    assert KidSome(a, b, done, k) == a.kids[k];
    UpdateBelow(base, overlay, a.kids[k], b.kids[k], Others(a, b, done, k) + {b});
    KeyHandled(a, b, done, k);
  }

  /** A key whose value the overlay's replaces. */
  method ReplaceKey(base: Dictionary, k: string, value: Value, ghost a: Shape, ghost b: Shape, ghost done: set<string>)
    requires a.Node? && b.Node? && a.at == base && Stored(b) && Tree(a) && Objects(a) !! Objects(b)
    requires k in b.kids && GraftedAt(a, b, k) == b.kids[k] && Stored(b.kids[k])
    requires forall j :: j in a.kids.Keys + b.kids.Keys ==> Stored(KidSome(a, b, done, j))
    modifies base
    ensures base.items == old(base.items)[k := value] && Stored(b)
    ensures forall j :: j in a.kids.Keys + b.kids.Keys ==> Stored(KidSome(a, b, done + {k}, j))
  {
    KidObjects(b, k);
    OthersApart(a, b, done, k);
    SetKey(base, k, value, Others(a, b, done, k) + {b, b.kids[k]});
    KeyHandled(a, b, done, k);
  }

  method UpdateKey(base: Dictionary, overlay: Dictionary, k: string, ghost a: Shape, ghost b: Shape,
                   ghost done: set<string>)
    requires a.Node? && b.Node? && a.at == base && b.at == overlay
    requires Stored(b) && Tree(a) && Objects(a) !! Objects(b)
    requires k in b.kids && k !in done && done <= b.kids.Keys
    requires base.items == ItemsSome(a, b, done)
    requires forall j :: j in a.kids.Keys + b.kids.Keys ==> Stored(KidSome(a, b, done, j))
    modifies Objects(a)
    ensures base.items == ItemsSome(a, b, done + {k}) && Stored(b)
    ensures forall j :: j in a.kids.Keys + b.kids.Keys ==> Stored(KidSome(a, b, done + {k}, j))
    decreases b, 1
  {
    ItemsOne(a, b, done, k);
    var value := overlay.items[k];
    if value.Ref? && k in base.items && base.items[k].Ref? {
      KidObjects(a, k);
      UpdateBranch(base.items[k].at, value.at, k, a, b, done);
    } else {
      ReplaceKey(base, k, value, a, b, done);
    }
  }

  // --------------------------------------------------------------------------
  // The store
  // --------------------------------------------------------------------------

  /** A deep copy: objects of its own for every dictionary. */
  method DeepCopy(j: Json) returns (v: Value, ghost s: Shape)
    ensures v == ValueOf(s) && Content(s) == j
    ensures fresh(Objects(s)) && Stored(s) && Tree(s)
    decreases j, 2
  {
    match j
    case Leaf(text) =>
      v, s := Text(text), Plain(text);
    case Dict(items) =>
      var d;
      d, s := CopyDict(items, j);
      v := Ref(d);
  }

  method CopyDict(items: map<string, Json>, ghost j: Json) returns (d: Dictionary, ghost s: Shape)
    requires j == Dict(items)
    ensures s.Node? && s.at == d && Content(s) == j
    ensures fresh(Objects(s)) && Stored(s) && Tree(s)
    decreases j, 1, items.Keys, 1
  {
    d := new Dictionary();
    s := CopyKids(d, items, items.Keys, j, Node(d, map[]));
  }

  method CopyKids(d: Dictionary, items: map<string, Json>, todo: set<string>, ghost j: Json, ghost s: Shape)
    returns (ghost s': Shape)
    requires j == Dict(items)
    requires s.Node? && s.at == d && Copied(s, items, todo) && Stored(s) && Tree(s)
    modifies d
    ensures s'.Node? && s'.at == d && Copied(s', items, {}) && Stored(s') && Tree(s')
    ensures forall o :: o in Objects(s') ==> o in Objects(s) || fresh(o)
    decreases j, 1, todo, 0
  {
    if todo == {} {
      s' := s;
    } else {
      var k :| k in todo;
      s' := CopyKid(d, k, items, todo, j, s);
      s' := CopyKids(d, items, todo - {k}, j, s');
    }
  }

  /** The kids are copies of all the items but those in todo. */
  ghost predicate Copied(s: Shape, items: map<string, Json>, todo: set<string>)
    requires s.Node?
  {
    && todo <= items.Keys
    && s.kids.Keys == items.Keys - todo
    && forall k :: k in s.kids ==> Content(s.kids[k]) == items[k]
  }

  method CopyKid(d: Dictionary, k: string, items: map<string, Json>, ghost todo: set<string>, ghost j: Json,
                 ghost s: Shape)
    returns (ghost s': Shape)
    requires j == Dict(items) && k in todo
    requires s.Node? && s.at == d && Copied(s, items, todo) && Stored(s) && Tree(s)
    modifies d
    ensures s'.Node? && s'.at == d && Copied(s', items, todo - {k}) && Stored(s') && Tree(s')
    ensures forall o :: o in Objects(s') ==> o in Objects(s) || fresh(o)
    decreases j, 0
  {
    assert allocated(Objects(s));
    var v, kid := DeepCopy(items[k]);
    assert old(Stored(s));
    AddKid(d, k, v, s, kid);
    s' := Node(d, s.kids[k := kid]);
  }

  lemma KidAdded(s: Shape, k: string, kid: Shape)
    requires s.Node? && k !in s.kids && Tree(s) && Tree(kid) && Objects(s) !! Objects(kid)
    ensures var s' := Node(s.at, s.kids[k := kid]);
            Tree(s') && Objects(s') == Objects(s) + Objects(kid)
  {
    var s' := Node(s.at, s.kids[k := kid]);
    forall i | i in s.kids
      ensures Objects(s.kids[i]) <= Objects(s) && s'.kids[i] == s.kids[i]
    {
      KidObjects(s, i);
    }
    KidObjects(s', k);
    forall o | o in Objects(s)
      ensures o in Objects(s')
    {
      if o != s.at {
        var i :| i in s.kids && o in Objects(s.kids[i]);
        KidObjects(s', i);
      }
    }
  }

  method AddKid(d: Dictionary, k: string, value: Value, ghost s: Shape, ghost kid: Shape)
    requires s.Node? && s.at == d && k !in s.kids && value == ValueOf(kid)
    requires Stored(s) && Tree(s) && Stored(kid) && Tree(kid) && Objects(s) !! Objects(kid)
    modifies d
    ensures var s' := Node(d, s.kids[k := kid]);
            Stored(s') && Tree(s') && Objects(s') == Objects(s) + Objects(kid)
  {
    KidAdded(s, k, kid);
    d.items := d.items[k := value];
    forall i | i in s.kids
      ensures Stored(s.kids[i])
    {
      assert old(Stored(s.kids[i]));
    }
    assert old(Stored(kid));
  }

  /** The dictionary as it goes back into its column. */
  method Flatten(v: Value, ghost s: Shape) returns (j: Json)
    requires v == ValueOf(s) && Stored(s)
    ensures j == Content(s)
    decreases s
  {
    match v
    case Text(text) =>
      j := Leaf(text);
    case Ref(d) =>
      var entries := d.items;
      var todo := entries.Keys;
      var items: map<string, Json> := map[];
      assert allocated(Objects(s));
      while todo != {}
        invariant todo <= entries.Keys && items.Keys == entries.Keys - todo
        invariant Stored(s)
        invariant forall k :: k in items ==> items[k] == Content(s.kids[k])
        decreases todo
      {
        var k :| k in todo;
        var value := Flatten(entries[k], s.kids[k]);
        assert old(Stored(s));
        items := items[k := value];
        todo := todo - {k};
      }
      j := Dict(items);
  }

  class SettingsStore {
    var config: Json

    constructor ()
      ensures config == EMPTY
    {
      config := EMPTY;
    }

    /** The patch is laid over a copy of what is stored, and left as it was. */
    method UpdateConfig(updates: Dictionary, ghost u: Shape) returns (saved: Json)
      requires config.Dict? && u.Node? && u.at == updates && Stored(u)
      modifies this
      ensures config == Overlay(old(config), Content(u)) && config.Dict? && saved == config
      ensures Stored(u)
    {
      assert allocated(Objects(u));
      var cfg, a := DeepCopy(config);
      assert old(Stored(u));
      DeepUpdate(cfg.at, updates, a, u);
      GraftedContent(a, u);
      config := Flatten(cfg, Grafted(a, u));
      saved := config;
    }
  }
}

/** Layered configuration: nested dictionaries merged one over another
    (aimos/settings/config.py). */
module Layers {

  /** A configuration value: a dictionary, or anything else. */
  datatype Json = Leaf(text: string) | Dict(items: map<string, Json>)

  const EMPTY := Dict(map[])

  /** b laid over a: dictionaries are merged key by key, anything else is replaced. */
  function Overlay(a: Json, b: Json): Json
    decreases b
  {
    if a.Dict? && b.Dict?
    then Dict(map k | k in a.items.Keys + b.items.Keys :: OverlayAt(a, b, k))
    else b
  }

  function OverlayAt(a: Json, b: Json, k: string): Json
    requires a.Dict? && b.Dict? && k in a.items.Keys + b.items.Keys
    decreases b, 0
  {
    if k !in b.items then a.items[k]
    else if k !in a.items then b.items[k]
    else Overlay(a.items[k], b.items[k])
  }

  /** The keys in done have been overlaid. */
  ghost function OverlaySome(a: Json, b: Json, done: set<string>): map<string, Json>
    requires a.Dict? && b.Dict? && done <= b.items.Keys
  {
    map k | k in a.items.Keys + done :: if k in done then OverlayAt(a, b, k) else a.items[k]
  }

  lemma OverlayOne(a: Json, b: Json, done: set<string>, k: string)
    requires a.Dict? && b.Dict? && done <= b.items.Keys && k in b.items && k !in done
    ensures OverlaySome(a, b, done)[k := OverlayAt(a, b, k)] == OverlaySome(a, b, done + {k})
  {
  }

  /** The keys of the overlay come in no particular order. */
  method DeepMerge(base: Json, overlay: Json) returns (merged: Json)
    requires base.Dict? && overlay.Dict?
    ensures merged == Overlay(base, overlay)
    decreases overlay
  {
    var items := base.items;
    var todo := overlay.items.Keys;
    ghost var keys := overlay.items.Keys;
    while todo != {}
      invariant todo <= keys
      invariant items == OverlaySome(base, overlay, keys - todo)
      decreases todo
    {
      var k :| k in todo;
      var value := overlay.items[k];
      OverlayOne(base, overlay, keys - todo, k);
      if value.Dict? && k in items && items[k].Dict? {
        value := DeepMerge(items[k], value);
      }
      items := items[k := value];
      assert keys - todo + {k} == keys - (todo - {k});
      todo := todo - {k};
    }
    merged := Dict(items);
  }

  // --------------------------------------------------------------------------
  // Looking a setting up
  // --------------------------------------------------------------------------

  datatype Found = Missing | At(value: Json)

  type Path = seq<string>

  function Lookup(j: Json, path: Path): Found {
    if path == [] then At(j)
    else if j.Dict? && path[0] in j.items then Lookup(j.items[path[0]], path[1..])
    else Missing
  }

  /** On the way to the setting, the overlay and the base stop being dictionaries together: from
      there on down the overlay's value stands alone. */
  predicate Cut(a: Json, b: Json, path: Path) {
    path != []
    && (|| !a.Dict? || !b.Dict?
        || (path[0] in a.items && path[0] in b.items && Cut(a.items[path[0]], b.items[path[0]], path[1..])))
  }

  /** Every lookup in a merge, from the two lookups in its layers. */
  lemma {:induction false} LookupInOverlay(a: Json, b: Json, path: Path)
    ensures var x, y := Lookup(a, path), Lookup(b, path);
            Lookup(Overlay(a, b), path)
            == if Cut(a, b, path) || x == Missing then y
               else if y == Missing then x
               else At(Overlay(x.value, y.value))
  {
    if path != [] && a.Dict? && b.Dict? {
      var k := path[0];
      if k in a.items && k in b.items {
        LookupInOverlay(a.items[k], b.items[k], path[1..]);
      }
    }
  }

  /** What the overlay sets to something other than a dictionary is what the merge says. */
  lemma SavedSettingWins(a: Json, b: Json, path: Path)
    requires Lookup(b, path).At? && Lookup(b, path).value.Leaf?
    ensures Lookup(Overlay(a, b), path) == Lookup(b, path)
  {
    LookupInOverlay(a, b, path);
  }

  /** Each layer on a path down the other is a dictionary as long as both are present. */
  predicate Aligned(a: Json, b: Json) {
    (a.Dict? <==> b.Dict?) && (a.Dict? ==> forall k :: k in a.items && k in b.items ==> Aligned(a.items[k], b.items[k]))
  }

  /** When no dictionary faces a plain value, no setting of the base gets lost. */
  lemma {:induction false} UntouchedSettingSurvives(a: Json, b: Json, path: Path)
    requires Aligned(a, b) && Lookup(a, path).At? && Lookup(b, path) == Missing
    ensures Lookup(Overlay(a, b), path) == Lookup(a, path)
  {
    LookupInOverlay(a, b, path);
    NotCut(a, b, path);
  }

  lemma {:induction false} NotCut(a: Json, b: Json, path: Path)
    requires Aligned(a, b) && Lookup(a, path).At?
    ensures !Cut(a, b, path)
  {
    if path != [] && a.Dict? && path[0] in a.items && path[0] in b.items {
      NotCut(a.items[path[0]], b.items[path[0]], path[1..]);
    }
  }

  // --------------------------------------------------------------------------
  // Laying several layers
  // --------------------------------------------------------------------------

  lemma {:induction false} EmptyIsNeutral(a: Json)
    requires a.Dict?
    ensures Overlay(a, EMPTY) == a && Overlay(EMPTY, a) == a
  {
    assert Overlay(a, EMPTY).items == a.items;
    assert Overlay(EMPTY, a).items == a.items;
  }

  /** c says everything that a says. */
  predicate Absorbed(a: Json, c: Json)
    decreases c
  {
    a.Dict? && c.Dict? ==> forall k :: k in a.items ==> k in c.items && Absorbed(a.items[k], c.items[k])
  }

  lemma {:induction false} AbsorbedIff(a: Json, c: Json)
    ensures Absorbed(a, c) <==> Overlay(a, c) == c
    decreases c
  {
    if a.Dict? && c.Dict? {
      forall k | k in a.items && k in c.items
        ensures Absorbed(a.items[k], c.items[k]) <==> Overlay(a.items[k], c.items[k]) == c.items[k]
      {
        AbsorbedIff(a.items[k], c.items[k]);
      }
      var merged := Overlay(a, c);
      if merged == c {
        forall k | k in a.items
          ensures k in c.items && Absorbed(a.items[k], c.items[k])
        {
          assert k in merged.items;
          assert merged.items[k] == OverlayAt(a, c, k);
        }
      }
      if Absorbed(a, c) {
        assert merged.items.Keys == c.items.Keys;
        forall k | k in c.items
          ensures merged.items[k] == c.items[k]
        {
          assert merged.items[k] == OverlayAt(a, c, k);
        }
      }
    }
  }

  /** Somewhere b puts a plain value between dictionaries of a and c, and c does not restate what
      a says there. */
  predicate Clash(a: Json, b: Json, c: Json) {
    if !a.Dict? || !c.Dict? then false
    else if !b.Dict? then !Absorbed(a, c)
    else exists k :: k in a.items && k in b.items && k in c.items && Clash(a.items[k], b.items[k], c.items[k])
  }

  /** Merging from the left or from the right comes to the same exactly when nothing clashes. */
  lemma {:induction false} AssociativeIff(a: Json, b: Json, c: Json)
    ensures Overlay(Overlay(a, b), c) == Overlay(a, Overlay(b, c)) <==> !Clash(a, b, c)
  {
    if a.Dict? && c.Dict? {
      if b.Dict? {
        AssociativeDicts(a, b, c);
      } else {
        AbsorbedIff(a, c);
      }
    }
  }

  lemma {:induction false} AssociativeDicts(a: Json, b: Json, c: Json)
    requires a.Dict? && b.Dict? && c.Dict?
    ensures Overlay(Overlay(a, b), c) == Overlay(a, Overlay(b, c)) <==> !Clash(a, b, c)
    decreases a, b, c, 0
  {
    var left, right := Overlay(Overlay(a, b), c), Overlay(a, Overlay(b, c));
    assert left.items.Keys == right.items.Keys;
    forall k | k in left.items
      ensures left.items[k] == right.items[k]
              <==> !(k in a.items && k in b.items && k in c.items && Clash(a.items[k], b.items[k], c.items[k]))
    {
      var ab, bc := Overlay(a, b), Overlay(b, c);
      assert left.items[k] == OverlayAt(ab, c, k) && right.items[k] == OverlayAt(a, bc, k);
      assert k in ab.items ==> ab.items[k] == OverlayAt(a, b, k);
      assert k in bc.items ==> bc.items[k] == OverlayAt(b, c, k);
      if k in a.items && k in b.items && k in c.items {
        AssociativeIff(a.items[k], b.items[k], c.items[k]);
      }
    }
    if left == right {
      assert forall k :: k in left.items ==> left.items[k] == right.items[k];
    }
  }

  /** A dictionary, a plain value over it, a dictionary again: the left-hand merge has forgotten
      the first one, the right-hand merge brings it back. */
  lemma ClashExample()
    ensures var a := Dict(map["risk" := Dict(map["pct" := Leaf("1")])]);
            var b := Dict(map["risk" := Leaf("off")]);
            var c := Dict(map["risk" := Dict(map["cap" := Leaf("2")])]);
            && Clash(a, b, c)
            && Lookup(Overlay(Overlay(a, b), c), ["risk", "pct"]) == Missing
            && Lookup(Overlay(a, Overlay(b, c)), ["risk", "pct"]) == At(Leaf("1"))
  {
    var a := Dict(map["risk" := Dict(map["pct" := Leaf("1")])]);
    var b := Dict(map["risk" := Leaf("off")]);
    var c := Dict(map["risk" := Dict(map["cap" := Leaf("2")])]);
    assert "pct" in a.items["risk"].items && "pct" !in c.items["risk"].items;
    assert Clash(a.items["risk"], b.items["risk"], c.items["risk"]);
    var p := ["risk", "pct"];
    LookupInOverlay(Overlay(a, b), c, p);
    LookupInOverlay(a, Overlay(b, c), p);
    assert p[1..] == ["pct"] && p[1..][1..] == [];
  }

  /** Saving a patch twice is saving it once. */
  lemma {:induction false} SavingAgainChangesNothing(a: Json, b: Json)
    ensures Overlay(Overlay(a, b), b) == Overlay(a, b)
    decreases b
  {
    if a.Dict? && b.Dict? {
      var once := Overlay(a, b);
      var twice := Overlay(once, b);
      forall k | k in once.items
        ensures twice.items[k] == once.items[k]
      {
        assert once.items[k] == OverlayAt(a, b, k) && twice.items[k] == OverlayAt(once, b, k);
        if k in b.items {
          OverSelf(b.items[k]);
          if k in a.items {
            SavingAgainChangesNothing(a.items[k], b.items[k]);
          }
        }
      }
      assert twice.items == once.items;
    } else {
      OverSelf(b);
    }
  }

  lemma {:induction false} OverSelf(b: Json)
    ensures Overlay(b, b) == b
  {
    if b.Dict? {
      forall k | k in b.items
        ensures OverlayAt(b, b, k) == b.items[k]
      {
        OverSelf(b.items[k]);
      }
      assert Overlay(b, b).items == b.items;
    }
  }

  // --------------------------------------------------------------------------
  // Saved patches
  // --------------------------------------------------------------------------

  /** What is stored after a series of updates. */
  function Saved(patches: seq<Json>): Json {
    if patches == [] then EMPTY else Overlay(Saved(patches[..|patches| - 1]), patches[|patches| - 1])
  }

  /** The same patches laid over the base itself, one at a time. */
  function OneByOne(base: Json, patches: seq<Json>): Json {
    if patches == [] then base else Overlay(OneByOne(base, patches[..|patches| - 1]), patches[|patches| - 1])
  }

  ghost predicate AlwaysAgree(base: Json, patches: seq<Json>) {
    && Overlay(base, Saved(patches)) == OneByOne(base, patches)
    && (patches == [] || AlwaysAgree(base, patches[..|patches| - 1]))
  }

  ghost predicate NoClashes(base: Json, patches: seq<Json>) {
    patches != [] ==>
      && NoClashes(base, patches[..|patches| - 1])
      && !Clash(base, Saved(patches[..|patches| - 1]), patches[|patches| - 1])
  }

  /** The base under all the saved patches equals the patches laid over it one by one, after every
      update, exactly when no patch clashes with what was saved before it. */
  lemma {:induction false} PatchesOneByOne(base: Json, patches: seq<Json>)
    requires base.Dict?
    ensures AlwaysAgree(base, patches) <==> NoClashes(base, patches)
  {
    if patches == [] {
      EmptyIsNeutral(base);
    } else {
      var n := |patches| - 1;
      PatchesOneByOne(base, patches[..n]);
      AssociativeIff(base, Saved(patches[..n]), patches[n]);
    }
  }
}

/** Profile documents and how enrollment composes them: `compose_profiles`, `merge_value`, `required_checks`. */
module Profiles {
  import opened Text

  /** A JSON document. Objects are maps; iteration over their keys is in `Sorted` order. A number is kept as its
      literal, so that two numbers are equal exactly when the parsed values are. */
  datatype Json =
    | Null
    | Bool(b: bool)
    | Num(literal: string)
    | Str(s: string)
    | Arr(items: seq<Json>)
    | Obj(fields: map<string, Json>)

  function Kind(j: Json): nat {
    match j
    case Null => 0
    case Bool(_) => 1
    case Num(_) => 2
    case Str(_) => 3
    case Arr(_) => 4
    case Obj(_) => 5
  }

  function Child(path: string, key: string): string {
    path + "." + key
  }

  /** The four places where layers accumulate instead of overriding. */
  predicate UnionPath(path: string) {
    || path == "$.commissioning.required_checks"
    || path == "$.qualification.required_checks"
    || path == "$.setup.packages"
    || path == "$.setup.features"
  }

  /** The overlay's new elements appended in order, each once. */
  function UnionItems(base: seq<Json>, overlay: seq<Json>): seq<Json>
    decreases |overlay|
  {
    if overlay == [] then base
    else UnionItems(if overlay[0] in base then base else base + [overlay[0]], overlay[1..])
  }

  /** Two documents merge when no place holds values of two kinds. */
  predicate Compatible(base: Json, overlay: Json) {
    if base.Obj? && overlay.Obj? then
      forall k :: k in base.fields && k in overlay.fields ==> Compatible(base.fields[k], overlay.fields[k])
    else
      Kind(base) == Kind(overlay)
  }

  function Merge(base: Json, overlay: Json, path: string): Json
    requires Compatible(base, overlay)
  {
    if base.Obj? && overlay.Obj? then
      Obj(map k | k in base.fields.Keys + overlay.fields.Keys ::
            if k !in base.fields then overlay.fields[k]
            else if k !in overlay.fields then base.fields[k]
            else Merge(base.fields[k], overlay.fields[k], Child(path, k)))
    else if base.Arr? && overlay.Arr? && UnionPath(path) then
      Arr(UnionItems(base.items, overlay.items))
    else
      overlay
  }

  // ---- Algebra of merging ----

  lemma {:induction false} UnionItemsContents(a: seq<Json>, b: seq<Json>)
    ensures a <= UnionItems(a, b)
    ensures forall x :: x in UnionItems(a, b) <==> x in a || x in b
    ensures UnionItems(a, b) == a <==> forall x :: x in b ==> x in a
    decreases |b|
  {
    if b != [] {
      var next := if b[0] in a then a else a + [b[0]];
      UnionItemsContents(next, b[1..]);
      assert b == [b[0]] + b[1..];
      if b[0] !in a {
        assert b[0] in UnionItems(a, b);
      }
    }
  }

  lemma {:induction false} UnionItemsSplit(a: seq<Json>, b: seq<Json>, c: seq<Json>)
    ensures UnionItems(a, b + c) == UnionItems(UnionItems(a, b), c)
    decreases |b|
  {
    if b == [] {
      assert b + c == c;
    } else {
      assert (b + c)[1..] == b[1..] + c;
      UnionItemsSplit(if b[0] in a then a else a + [b[0]], b[1..], c);
    }
  }

  /** Collecting the third list onto the second first, or straight onto both, is the same. */
  lemma {:induction false} UnionItemsAssociative(a: seq<Json>, b: seq<Json>, c: seq<Json>)
    ensures UnionItems(UnionItems(a, b), c) == UnionItems(a, UnionItems(b, c))
    decreases |c|
  {
    if c != [] {
      var ab := UnionItems(a, b);
      UnionItemsContents(a, b);
      if c[0] in b {
        UnionItemsAssociative(a, b, c[1..]);
      } else {
        UnionItemsSplit(a, b, [c[0]]);
        assert UnionItems(ab, [c[0]]) == if c[0] in ab then ab else ab + [c[0]];
        UnionItemsAssociative(a, b + [c[0]], c[1..]);
      }
    }
  }

  ghost predicate LeftMerges(a: Json, b: Json, c: Json, path: string) {
    Compatible(a, b) && Compatible(Merge(a, b, path), c)
  }

  ghost predicate RightMerges(a: Json, b: Json, c: Json, path: string) {
    Compatible(b, c) && Compatible(a, Merge(b, c, path))
  }

  ghost predicate SameGrouping(a: Json, b: Json, c: Json, path: string) {
    && (LeftMerges(a, b, c, path) <==> RightMerges(a, b, c, path))
    && (LeftMerges(a, b, c, path) ==>
          Merge(Merge(a, b, path), c, path) == Merge(a, Merge(b, c, path), path))
  }

  lemma {:induction false} SameGroupingOfObjects(a: Json, b: Json, c: Json, path: string)
    requires a.Obj? && b.Obj? && c.Obj?
    requires forall k :: k in a.fields && k in b.fields && k in c.fields ==>
                           SameGrouping(a.fields[k], b.fields[k], c.fields[k], Child(path, k))
    ensures SameGrouping(a, b, c, path)
  {
    if LeftMerges(a, b, c, path) {
      var ab := Merge(a, b, path);
      forall k | k in b.fields && k in c.fields ensures Compatible(b.fields[k], c.fields[k]) {
        assert k in ab.fields && Compatible(ab.fields[k], c.fields[k]);
        if k in a.fields {
          assert LeftMerges(a.fields[k], b.fields[k], c.fields[k], Child(path, k));
        }
      }
      var bc := Merge(b, c, path);
      forall k | k in a.fields && k in bc.fields ensures Compatible(a.fields[k], bc.fields[k]) {
        assert k in ab.fields;
        if k in b.fields && k in c.fields {
          assert Compatible(ab.fields[k], c.fields[k]);
          assert LeftMerges(a.fields[k], b.fields[k], c.fields[k], Child(path, k));
        }
      }
      var abc, bca := Merge(ab, c, path), Merge(a, bc, path);
      assert abc.fields.Keys == bca.fields.Keys;
      forall k | k in abc.fields ensures abc.fields[k] == bca.fields[k] {
        if k in a.fields && k in b.fields && k in c.fields {
          assert Compatible(ab.fields[k], c.fields[k]);
          assert LeftMerges(a.fields[k], b.fields[k], c.fields[k], Child(path, k));
        }
      }
    }
    if RightMerges(a, b, c, path) {
      var bc := Merge(b, c, path);
      forall k | k in a.fields && k in b.fields ensures Compatible(a.fields[k], b.fields[k]) {
        assert k in bc.fields && Compatible(a.fields[k], bc.fields[k]);
        if k in c.fields {
          assert RightMerges(a.fields[k], b.fields[k], c.fields[k], Child(path, k));
        }
      }
      var ab := Merge(a, b, path);
      forall k | k in ab.fields && k in c.fields ensures Compatible(ab.fields[k], c.fields[k]) {
        assert k in bc.fields;
        if k in a.fields && k in b.fields {
          assert Compatible(a.fields[k], bc.fields[k]);
          assert RightMerges(a.fields[k], b.fields[k], c.fields[k], Child(path, k));
        }
      }
    }
  }

  /** Grouping three layers either way fails in both cases or yields the same document. */
  lemma {:induction false} MergeAssociative(a: Json, b: Json, c: Json, path: string)
    ensures SameGrouping(a, b, c, path)
  {
    if a.Obj? && b.Obj? && c.Obj? {
      forall k | k in a.fields && k in b.fields && k in c.fields
        ensures SameGrouping(a.fields[k], b.fields[k], c.fields[k], Child(path, k))
      {
        MergeAssociative(a.fields[k], b.fields[k], c.fields[k], Child(path, k));
      }
      SameGroupingOfObjects(a, b, c, path);
    } else if a.Arr? && b.Arr? && c.Arr? {
      UnionItemsAssociative(a.items, b.items, c.items);
    }
  }

  /** Merging a document onto itself changes nothing. */
  lemma {:induction false} MergeIdempotent(a: Json, path: string)
    ensures Compatible(a, a) && Merge(a, a, path) == a
  {
    match a
    case Obj(fields) =>
      forall k | k in fields ensures Compatible(fields[k], fields[k])
      && Merge(fields[k], fields[k], Child(path, k)) == fields[k] {
        MergeIdempotent(fields[k], Child(path, k));
      }
    case Arr(items) => UnionItemsContents(items, items);
    case _ =>
  }

  // ---- Layers ----

  ghost function Join(a: Option<Json>, b: Option<Json>): Option<Json> {
    if a.Some? && b.Some? && Compatible(a.value, b.value) then Some(Merge(a.value, b.value, "$")) else None
  }

  ghost function AsLayer(spec: Json): Option<Json> {
    if spec.Obj? then Some(spec) else None
  }

  /** The effective profile of a stack of layers, lowest first; `None` when composition is refused. */
  ghost function Compose(specs: seq<Json>): Option<Json> {
    if specs == [] then None
    else if |specs| == 1 then AsLayer(specs[0])
    else Join(Compose(specs[..|specs| - 1]), AsLayer(specs[|specs| - 1]))
  }

  lemma JoinAssociative(a: Option<Json>, b: Option<Json>, c: Option<Json>)
    ensures Join(Join(a, b), c) == Join(a, Join(b, c))
  {
    if a.Some? && b.Some? && c.Some? {
      MergeAssociative(a.value, b.value, c.value, "$");
    }
  }

  /** Composing a stack in two halves and joining them is composing it at once, and is refused exactly when that is. */
  lemma {:induction false} ComposeGroups(lower: seq<Json>, upper: seq<Json>)
    requires lower != [] && upper != []
    ensures Compose(lower + upper) == Join(Compose(lower), Compose(upper))
  {
    var all, last := lower + upper, upper[|upper| - 1];
    assert all[|all| - 1] == last;
    assert Compose(all) == Join(Compose(all[..|all| - 1]), AsLayer(last));
    if |upper| == 1 {
      assert all[..|all| - 1] == lower;
    } else {
      var init := upper[..|upper| - 1];
      assert all[..|all| - 1] == lower + init;
      assert Compose(upper) == Join(Compose(init), AsLayer(last));
      ComposeGroups(lower, init);
      JoinAssociative(Compose(lower), Compose(init), AsLayer(last));
    }
  }

  // ---- Conflicts and overrides ----

  /** `at` is the rendering of a place where the two documents hold values of different kinds. */
  ghost predicate ConflictAt(base: Json, overlay: Json, path: string, at: string) {
    if base.Obj? && overlay.Obj? then
      exists k :: k in base.fields && k in overlay.fields
                  && ConflictAt(base.fields[k], overlay.fields[k], Child(path, k), at)
    else
      Kind(base) != Kind(overlay) && at == path
  }

  /** `at` is the rendering of a place of the base whose value the merge replaces or extends. */
  ghost predicate OverriddenAt(base: Json, overlay: Json, path: string, at: string)
    requires Compatible(base, overlay)
  {
    if base.Obj? && overlay.Obj? then
      exists k :: k in base.fields && k in overlay.fields
                  && OverriddenAt(base.fields[k], overlay.fields[k], Child(path, k), at)
    else
      Merge(base, overlay, path) != base && at == path
  }

  /** Everything the first document says, the second says too. */
  ghost predicate Keeps(base: Json, result: Json) {
    if base.Obj? then
      result.Obj? && forall k :: k in base.fields ==> k in result.fields && Keeps(base.fields[k], result.fields[k])
    else
      base == result
  }

  lemma {:induction false} KeepsReflexive(a: Json)
    ensures Keeps(a, a)
  {
    if a.Obj? {
      forall k | k in a.fields ensures Keeps(a.fields[k], a.fields[k]) {
        KeepsReflexive(a.fields[k]);
      }
    }
  }

  /** A merge reports no override exactly when it only adds to the base. */
  lemma {:induction false} NoOverrideKeepsBase(base: Json, overlay: Json, path: string)
    requires Compatible(base, overlay)
    ensures (forall at :: !OverriddenAt(base, overlay, path, at)) <==> Keeps(base, Merge(base, overlay, path))
  {
    if base.Obj? && overlay.Obj? {
      var merged := Merge(base, overlay, path);
      forall k | k in base.fields
        ensures k in merged.fields
        ensures k !in overlay.fields ==> Keeps(base.fields[k], merged.fields[k])
        ensures k in overlay.fields ==>
          ((forall at :: !OverriddenAt(base.fields[k], overlay.fields[k], Child(path, k), at))
           <==> Keeps(base.fields[k], merged.fields[k]))
      {
        if k in overlay.fields {
          NoOverrideKeepsBase(base.fields[k], overlay.fields[k], Child(path, k));
        } else {
          KeepsReflexive(base.fields[k]);
        }
      }
      if Keeps(base, merged) {
        assert forall at :: !OverriddenAt(base, overlay, path, at);
      } else {
        var k :| k in base.fields && !Keeps(base.fields[k], merged.fields[k]);
        var at :| OverriddenAt(base.fields[k], overlay.fields[k], Child(path, k), at);
        assert OverriddenAt(base, overlay, path, at);
      }
    } else {
      assert OverriddenAt(base, overlay, path, path) <==> Merge(base, overlay, path) != base;
    }
  }
}

/** What composing profiles means place by place: which layer's value stands at each key path, what is reported as
    overridden, and when a stack of layers is refused. Nothing here speaks of how documents are merged. */
module ProfilePlaces {
  import opened Text
  import opened Profiles

  /** The value a document holds at a key path. */
  function At(j: Json, keys: seq<string>): Option<Json> {
    if keys == [] then Some(j)
    else if j.Obj? && keys[0] in j.fields then At(j.fields[keys[0]], keys[1..])
    else None
  }

  /** A key path as it is written in reports. */
  function Rendered(path: string, keys: seq<string>): string
    decreases |keys|
  {
    if keys == [] then path else Rendered(path + "." + keys[0], keys[1..])
  }

  /** The list sections that accumulate. */
  predicate Accumulates(path: string) {
    path in {"$.commissioning.required_checks", "$.qualification.required_checks", "$.setup.packages",
             "$.setup.features"}
  }

  /** The first `n` items, and of the others those that have not occurred before. */
  function Kept(all: seq<Json>, n: nat): seq<Json> {
    if |all| <= n then all
    else
      var last := |all| - 1;
      Kept(all[..last], n) + if all[last] in all[..last] then [] else [all[last]]
  }

  /** Values of one kind: both null, or both of one of the other five JSON types. */
  predicate Alike(a: Json, b: Json) {
    && a.Null? == b.Null? && a.Bool? == b.Bool? && a.Num? == b.Num?
    && a.Str? == b.Str? && a.Arr? == b.Arr? && a.Obj? == b.Obj?
  }

  // ---- Two documents ----

  /** What stands at a place where the lower document holds `x` and the upper one `y`: the upper value, except that
      objects are joined and accumulating lists are united in order. */
  predicate Stands(x: Option<Json>, y: Option<Json>, path: string, m: Option<Json>) {
    if x.None? then m == y
    else if y.None? then m == x
    else
      && m.Some? && Alike(x.value, y.value) && Alike(y.value, m.value)
      && (y.value.Arr? && Accumulates(path) ==> m.value.items == Kept(x.value.items + y.value.items, |x.value.items|))
      && (y.value.Obj? || (y.value.Arr? && Accumulates(path)) || m == y)
  }

  /** The upper value is not an object and differs from the lower one, or brings a new item to an accumulating list. */
  predicate Replaces(x: Option<Json>, y: Option<Json>, path: string) {
    && x.Some? && y.Some? && !y.value.Obj?
    && (if x.value.Arr? && y.value.Arr? && Accumulates(path)
        then exists item :: item in y.value.items && item !in x.value.items
        else x != y)
  }

  lemma {:induction false} UnionIsKept(a: seq<Json>, b: seq<Json>)
    ensures UnionItems(a, b) == Kept(a + b, |a|)
    decreases |b|
  {
    if b == [] {
      assert a + b == a;
    } else {
      var n := |b| - 1;
      assert b == b[..n] + [b[n]] && (a + b)[..|a| + n] == a + b[..n];
      UnionIsKept(a, b[..n]);
      UnionItemsSplit(a, b[..n], [b[n]]);
      UnionItemsContents(a, b[..n]);
    }
  }

  /** What a merge leaves at every place, and that values of two kinds never meet. */
  lemma {:induction false} MergeAt(a: Json, b: Json, path: string, keys: seq<string>)
    requires Compatible(a, b)
    ensures Stands(At(a, keys), At(b, keys), Rendered(path, keys), At(Merge(a, b, path), keys))
    ensures At(a, keys).Some? && At(b, keys).Some? ==>
              && Compatible(At(a, keys).value, At(b, keys).value)
              && At(Merge(a, b, path), keys) == Some(Merge(At(a, keys).value, At(b, keys).value, Rendered(path, keys)))
    decreases keys
  {
    if keys == [] {
      if a.Arr? && b.Arr? {
        UnionIsKept(a.items, b.items);
      }
    } else if a.Obj? && b.Obj? && keys[0] in a.fields && keys[0] in b.fields {
      MergeAt(a.fields[keys[0]], b.fields[keys[0]], Child(path, keys[0]), keys[1..]);
    }
  }

  /** The two documents hold values of different kinds at a place. */
  predicate Clash(a: Json, b: Json, keys: seq<string>) {
    At(a, keys).Some? && At(b, keys).Some? && !Alike(At(a, keys).value, At(b, keys).value)
  }

  lemma {:induction false} ClashUnder(a: Json, b: Json, key: string, keys: seq<string>)
    requires a.Obj? && b.Obj? && key in a.fields && key in b.fields
    ensures Clash(a, b, [key] + keys) <==> Clash(a.fields[key], b.fields[key], keys)
  {
    assert ([key] + keys)[1..] == keys;
  }

  /** A reported conflict is a place where kinds differ, and there is one whenever two documents do not merge. */
  lemma {:induction false} ConflictIsClash(a: Json, b: Json, path: string, at: string) returns (keys: seq<string>)
    requires ConflictAt(a, b, path, at)
    ensures Clash(a, b, keys) && Rendered(path, keys) == at
  {
    if a.Obj? && b.Obj? {
      var k :| k in a.fields && k in b.fields && ConflictAt(a.fields[k], b.fields[k], Child(path, k), at);
      var rest := ConflictIsClash(a.fields[k], b.fields[k], Child(path, k), at);
      keys := [k] + rest;
      ClashUnder(a, b, k, rest);
      assert keys[1..] == rest;
    } else {
      keys := [];
    }
  }

  lemma {:induction false} IncompatibleConflict(a: Json, b: Json, path: string) returns (at: string)
    requires !Compatible(a, b)
    ensures ConflictAt(a, b, path, at)
  {
    if a.Obj? && b.Obj? {
      var k :| k in a.fields && k in b.fields && !Compatible(a.fields[k], b.fields[k]);
      at := IncompatibleConflict(a.fields[k], b.fields[k], Child(path, k));
    } else {
      at := path;
    }
  }

  /** Two documents merge exactly when they clash nowhere. */
  lemma CompatibleExactly(a: Json, b: Json)
    ensures Compatible(a, b) <==> forall keys :: !Clash(a, b, keys)
  {
    if Compatible(a, b) {
      forall keys ensures !Clash(a, b, keys) {
        MergeAt(a, b, "$", keys);
      }
    } else {
      var at := IncompatibleConflict(a, b, "$");
      var keys := ConflictIsClash(a, b, "$", at);
    }
  }

  /** `at` is the rendering of a place whose value the upper document replaces. */
  ghost predicate ReplacedAt(a: Json, b: Json, path: string, at: string) {
    exists keys :: Rendered(path, keys) == at && Replaces(At(a, keys), At(b, keys), at)
  }

  /** The reported overrides of a merge are exactly the replaced places. */
  lemma {:induction false} OverriddenExactly(a: Json, b: Json, path: string, at: string)
    requires Compatible(a, b)
    ensures OverriddenAt(a, b, path, at) <==> ReplacedAt(a, b, path, at)
  {
    if OverriddenAt(a, b, path, at) {
      var keys := OverriddenPlace(a, b, path, at);
    }
    if ReplacedAt(a, b, path, at) {
      var keys :| Rendered(path, keys) == at && Replaces(At(a, keys), At(b, keys), at);
      ReplacedIsOverridden(a, b, path, keys);
    }
  }

  lemma LeafReplaced(a: Json, b: Json, path: string)
    requires Compatible(a, b) && !b.Obj?
    ensures Merge(a, b, path) != a <==> Replaces(Some(a), Some(b), path)
  {
    if a.Arr? && b.Arr? {
      UnionItemsContents(a.items, b.items);
    }
  }

  lemma {:induction false} OverriddenPlace(a: Json, b: Json, path: string, at: string) returns (keys: seq<string>)
    requires Compatible(a, b) && OverriddenAt(a, b, path, at)
    ensures Rendered(path, keys) == at && Replaces(At(a, keys), At(b, keys), at)
  {
    if a.Obj? && b.Obj? {
      var k :| k in a.fields && k in b.fields && OverriddenAt(a.fields[k], b.fields[k], Child(path, k), at);
      var rest := OverriddenPlace(a.fields[k], b.fields[k], Child(path, k), at);
      keys := [k] + rest;
      assert keys[1..] == rest;
    } else {
      keys := [];
      LeafReplaced(a, b, path);
    }
  }

  lemma {:induction false} ReplacedIsOverridden(a: Json, b: Json, path: string, keys: seq<string>)
    requires Compatible(a, b) && Replaces(At(a, keys), At(b, keys), Rendered(path, keys))
    ensures OverriddenAt(a, b, path, Rendered(path, keys))
    decreases keys
  {
    if keys == [] {
      LeafReplaced(a, b, path);
    } else {
      ReplacedIsOverridden(a.fields[keys[0]], b.fields[keys[0]], Child(path, keys[0]), keys[1..]);
    }
  }

  // ---- A stack of layers ----

  /** What each of the first `n` layers says at a place. */
  function Said(specs: seq<Json>, n: nat, keys: seq<string>): (said: seq<Option<Json>>)
    requires n <= |specs|
    ensures |said| == n && forall i :: 0 <= i < n ==> said[i] == At(specs[i], keys)
  {
    if n == 0 then [] else Said(specs, n - 1, keys) + [At(specs[n - 1], keys)]
  }

  predicate Last(said: seq<Option<Json>>, i: int) {
    0 <= i < |said| && said[i].Some? && forall j :: i < j < |said| ==> said[j].None?
  }

  predicate First(said: seq<Option<Json>>, i: int) {
    0 <= i < |said| && said[i].Some? && forall j :: 0 <= j < i ==> said[j].None?
  }

  predicate Silent(said: seq<Option<Json>>) {
    forall i :: 0 <= i < |said| ==> said[i].None?
  }

  /** Every layer that says something says a value of this kind. */
  predicate AllAlike(said: seq<Option<Json>>, v: Json) {
    forall i :: 0 <= i < |said| && said[i].Some? ==> Alike(said[i].value, v)
  }

  /** The items listed, layer after layer. */
  function Listed(said: seq<Option<Json>>): seq<Json> {
    if said == [] then []
    else
      var last := said[|said| - 1];
      Listed(said[..|said| - 1]) + if last.Some? && last.value.Arr? then last.value.items else []
  }

  /** What stands at a place where the layers say this: nothing if none says anything; otherwise a value of the one
      kind that they all say; the last layer's value, unless that is an object or an accumulating list; and for an
      accumulating list the items of all layers in order, each one after the first layer's only once. */
  ghost predicate Stacked(said: seq<Option<Json>>, path: string, v: Option<Json>) {
    && (v.None? <==> Silent(said))
    && (v.Some? ==> AllAlike(said, v.value))
    && (v.Some? && !v.value.Obj? && !(v.value.Arr? && Accumulates(path)) ==>
          forall i :: Last(said, i) ==> said[i] == v)
    && (v.Some? && v.value.Arr? && Accumulates(path) ==>
          forall i :: First(said, i) ==> v.value.items == Kept(Listed(said), |said[i].value.items|))
  }

  lemma {:induction false} KeptOnto(a: seq<Json>, n: nat, b: seq<Json>)
    requires n <= |a|
    ensures Kept(Kept(a, n) + b, |Kept(a, n)|) == Kept(a + b, n)
  {
    var head, tail := a[..n], a[n..];
    assert a == head + tail && a + b == head + (tail + b);
    UnionIsKept(head, tail);
    UnionIsKept(Kept(a, n), b);
    UnionIsKept(head, tail + b);
    UnionItemsSplit(head, tail, b);
  }

  lemma {:induction false} NothingListed(said: seq<Option<Json>>)
    requires Silent(said)
    ensures Listed(said) == []
  {
    if said != [] {
      NothingListed(said[..|said| - 1]);
    }
  }

  lemma {:induction false} FirstIsListed(said: seq<Option<Json>>, i: int)
    requires First(said, i) && said[i].value.Arr?
    ensures |said[i].value.items| <= |Listed(said)|
  {
    if |said| > i + 1 {
      FirstIsListed(said[..|said| - 1], i);
    }
  }

  lemma OneMoreListed(said: seq<Option<Json>>, y: Option<Json>)
    ensures Listed(said + [y]) == Listed(said) + if y.Some? && y.value.Arr? then y.value.items else []
  {
    assert (said + [y])[..|said|] == said;
  }

  /** The last layer that speaks, with one more layer on top. */
  lemma OneMoreLast(said: seq<Option<Json>>, y: Option<Json>, i: int)
    requires Last(said + [y], i)
    ensures if y.Some? then i == |said| else Last(said, i)
  {
    var more := said + [y];
    assert more[|said|] == y;
    assert forall j :: 0 <= j < |said| ==> more[j] == said[j];
  }

  lemma OneMoreFirst(said: seq<Option<Json>>, y: Option<Json>, i: int)
    requires First(said + [y], i)
    ensures if Silent(said) then i == |said| && y.Some? else First(said, i)
  {
    var more := said + [y];
    assert more[|said|] == y;
    assert forall j :: 0 <= j < |said| ==> more[j] == said[j];
  }

  lemma OneMoreSays(said: seq<Option<Json>>, y: Option<Json>, v: Json)
    ensures Silent(said + [y]) <==> Silent(said) && y.None?
    ensures AllAlike(said + [y], v) <==> AllAlike(said, v) && (y.Some? ==> Alike(y.value, v))
  {
    var more := said + [y];
    assert more[|said|] == y;
    assert forall j :: 0 <= j < |said| ==> more[j] == said[j];
  }

  /** The accumulated list, with one more layer on top. */
  lemma OneMoreList(said: seq<Option<Json>>, y: Option<Json>, path: string, v: Option<Json>, m: Option<Json>, i: int)
    requires Stacked(said, path, v) && Stands(v, y, path, m) && m.Some? && m.value.Arr? && Accumulates(path)
    requires First(said + [y], i)
    ensures m.value.items == Kept(Listed(said + [y]), |(said + [y])[i].value.items|)
  {
    OneMoreListed(said, y);
    OneMoreFirst(said, y, i);
    if v.None? {
      NothingListed(said);
    } else {
      FirstIsListed(said, i);
      if y.Some? {
        KeptOnto(Listed(said), |said[i].value.items|, y.value.items);
      } else {
        assert Listed(said + [y]) == Listed(said);
      }
    }
  }

  lemma OneMoreLayer(said: seq<Option<Json>>, y: Option<Json>, path: string, v: Option<Json>, m: Option<Json>)
    requires Stacked(said, path, v) && Stands(v, y, path, m)
    ensures Stacked(said + [y], path, m)
  {
    OneMoreSays(said, y, if m.Some? then m.value else Null);
    forall i | Last(said + [y], i) && m.Some? && !m.value.Obj? && !(m.value.Arr? && Accumulates(path))
      ensures (said + [y])[i] == m
    {
      OneMoreLast(said, y, i);
    }
    forall i | First(said + [y], i) && m.Some? && m.value.Arr? && Accumulates(path)
      ensures m.value.items == Kept(Listed(said + [y]), |(said + [y])[i].value.items|)
    {
      OneMoreList(said, y, path, v, m, i);
    }
  }

  /** The composed profile, place by place. */
  lemma {:induction false} ComposedAt(specs: seq<Json>, n: nat, keys: seq<string>)
    requires 1 <= n <= |specs| && Compose(specs[..n]).Some?
    ensures Stacked(Said(specs, n, keys), Rendered("$", keys), At(Compose(specs[..n]).value, keys))
  {
    var path := Rendered("$", keys);
    if n == 1 {
      assert Stacked([], path, None);
      OneMoreLayer([], At(specs[0], keys), path, None, At(specs[0], keys));
      assert Said(specs, 1, keys) == [] + [At(specs[0], keys)];
    } else {
      var below := Compose(specs[..n - 1]);
      assert specs[..n][..n - 1] == specs[..n - 1];
      ComposedAt(specs, n - 1, keys);
      MergeAt(below.value, specs[n - 1], "$", keys);
      OneMoreLayer(Said(specs, n - 1, keys), At(specs[n - 1], keys), path, At(below.value, keys),
                   At(Compose(specs[..n]).value, keys));
    }
  }

  /** All layers are objects, and at no place do two of the first `n` hold values of different kinds. */
  ghost predicate Agree(specs: seq<Json>, n: nat)
    requires n <= |specs|
  {
    && (forall i :: 0 <= i < n ==> specs[i].Obj?)
    && forall i, j, keys :: 0 <= i < j < n ==> !Clash(specs[i], specs[j], keys)
  }

  ghost predicate ClashBelow(specs: seq<Json>, n: nat, keys: seq<string>)
    requires n < |specs|
  {
    exists i :: 0 <= i < n && Clash(specs[i], specs[n], keys)
  }

  /** A clash with what is composed so far is a clash with one of its layers. */
  lemma ClashWithLayer(specs: seq<Json>, n: nat, keys: seq<string>)
    requires 1 <= n < |specs| && Compose(specs[..n]).Some?
    ensures Clash(Compose(specs[..n]).value, specs[n], keys) <==> ClashBelow(specs, n, keys)
  {
    var said := Said(specs, n, keys);
    ComposedAt(specs, n, keys);
    assert forall i :: 0 <= i < n ==> said[i] == At(specs[i], keys);
  }

  lemma NextAgrees(specs: seq<Json>, n: nat)
    requires 1 <= n < |specs| && Compose(specs[..n]).Some? && Agree(specs, n) && specs[n].Obj?
    ensures Compatible(Compose(specs[..n]).value, specs[n]) <==> Agree(specs, n + 1)
  {
    var below, top := Compose(specs[..n]).value, specs[n];
    CompatibleExactly(below, top);
    forall keys ensures Clash(below, top, keys) <==> ClashBelow(specs, n, keys) {
      ClashWithLayer(specs, n, keys);
    }
    if Compatible(below, top) {
      forall i, j, keys | 0 <= i < j < n + 1 ensures !Clash(specs[i], specs[j], keys) {
        assert j == n ==> !ClashBelow(specs, n, keys);
      }
    } else {
      var keys :| Clash(below, top, keys);
      var i :| 0 <= i < n && Clash(specs[i], specs[n], keys);
    }
  }

  /** A stack composes exactly when its layers are objects and agree. */
  lemma {:induction false} ComposesExactly(specs: seq<Json>, n: nat)
    requires 1 <= n <= |specs|
    ensures Compose(specs[..n]).Some? <==> Agree(specs, n)
  {
    if n > 1 {
      ComposesExactly(specs, n - 1);
      NextComposes(specs, n - 1);
      if Compose(specs[..n - 1]).Some? && specs[n - 1].Obj? {
        NextAgrees(specs, n - 1);
      }
    }
  }

  lemma NextComposes(specs: seq<Json>, n: nat)
    requires 1 <= n < |specs|
    ensures Compose(specs[..n + 1]).Some? <==>
              && Compose(specs[..n]).Some? && specs[n].Obj? && Compatible(Compose(specs[..n]).value, specs[n])
    ensures Agree(specs, n + 1) ==> Agree(specs, n) && specs[n].Obj?
  {
    assert specs[..n + 1][..n] == specs[..n];
  }

  /** With the layers below saying this, the next one says something else than the last of them that says anything,
      or lists an item that none of them lists. */
  ghost predicate Overrides(said: seq<Option<Json>>, y: Option<Json>, path: string) {
    && y.Some? && !y.value.Obj? && !Silent(said)
    && (if y.value.Arr? && Accumulates(path)
        then exists item :: item in y.value.items && item !in Listed(said)
        else forall i :: Last(said, i) ==> said[i] != y)
  }

  lemma {:induction false} KeptContents(all: seq<Json>, n: nat)
    ensures forall x :: x in Kept(all, n) <==> x in all
  {
    if |all| > n {
      var last := |all| - 1;
      KeptContents(all[..last], n);
      assert all == all[..last] + [all[last]];
    }
  }

  lemma {:induction false} SomeFirst(said: seq<Option<Json>>) returns (i: nat)
    requires !Silent(said)
    ensures First(said, i)
  {
    var n := |said| - 1;
    if Silent(said[..n]) {
      i := n;
    } else {
      i := SomeFirst(said[..n]);
    }
  }

  lemma {:induction false} SomeLast(said: seq<Option<Json>>) returns (i: nat)
    requires !Silent(said)
    ensures Last(said, i)
  {
    var n := |said| - 1;
    if said[n].Some? {
      i := n;
    } else {
      i := SomeLast(said[..n]);
    }
  }

  lemma OverridesExactly(said: seq<Option<Json>>, path: string, x: Option<Json>, y: Option<Json>)
    requires Stacked(said, path, x) && (x.Some? && y.Some? ==> Alike(x.value, y.value))
    ensures Replaces(x, y, path) <==> Overrides(said, y, path)
  {
    if x.Some? && y.Some? && !y.value.Obj? {
      if y.value.Arr? && Accumulates(path) {
        var i := SomeFirst(said);
        KeptContents(Listed(said), |said[i].value.items|);
      } else {
        var i := SomeLast(said);
      }
    }
  }

  /** `at` is the rendering of a place that one of the layers above the first overrides. */
  ghost predicate StackOverrides(specs: seq<Json>, n: nat, at: string)
    requires n <= |specs|
  {
    exists i, keys :: 1 <= i < n && LayerOverridesAt(specs, i, keys) && Rendered("$", keys) == at
  }

  ghost predicate LayerOverridesAt(specs: seq<Json>, i: nat, keys: seq<string>)
    requires i < |specs|
  {
    Overrides(Said(specs, i, keys), At(specs[i], keys), Rendered("$", keys))
  }

  lemma LayerOverridesExactly(specs: seq<Json>, n: nat, keys: seq<string>)
    requires 1 <= n < |specs| && Compose(specs[..n]).Some? && Compatible(Compose(specs[..n]).value, specs[n])
    ensures Replaces(At(Compose(specs[..n]).value, keys), At(specs[n], keys), Rendered("$", keys)) <==>
              LayerOverridesAt(specs, n, keys)
  {
    ComposedAt(specs, n, keys);
    MergeAt(Compose(specs[..n]).value, specs[n], "$", keys);
    OverridesExactly(Said(specs, n, keys), Rendered("$", keys), At(Compose(specs[..n]).value, keys),
                     At(specs[n], keys));
  }

  lemma NextOverrides(specs: seq<Json>, n: nat, at: string)
    requires 1 <= n < |specs| && Compose(specs[..n]).Some? && Compatible(Compose(specs[..n]).value, specs[n])
    ensures StackOverrides(specs, n + 1, at) <==>
              StackOverrides(specs, n, at) || OverriddenAt(Compose(specs[..n]).value, specs[n], "$", at)
  {
    var below := Compose(specs[..n]).value;
    OverriddenExactly(below, specs[n], "$", at);
    forall keys
      ensures Replaces(At(below, keys), At(specs[n], keys), Rendered("$", keys)) <==>
                LayerOverridesAt(specs, n, keys)
    {
      LayerOverridesExactly(specs, n, keys);
    }
  }
}

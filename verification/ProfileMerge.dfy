/** `merge_value` and `compose_profiles` as they run: the overlay folded into the base key by key, the layers in
    order. */
module ProfileMerge {
  import opened Text
  import opened Profiles
  import opened ProfilePlaces

  datatype Merged = Ok(value: Json) | Err(path: string)

  /** As `OverriddenAt` for objects, looking only at the keys in `done`. */
  ghost predicate OverriddenUnder(base: Json, overlay: Json, path: string, done: set<string>, at: string)
    requires base.Obj? && overlay.Obj?
  {
    exists k :: k in done && k in base.fields && k in overlay.fields && Compatible(base.fields[k], overlay.fields[k])
                && OverriddenAt(base.fields[k], overlay.fields[k], Child(path, k), at)
  }

  /** The state of the object loop once the keys in `done` are folded in. */
  ghost predicate Folded(base: Json, overlay: Json, path: string, done: set<string>, fields: map<string, Json>)
    requires base.Obj? && overlay.Obj? && done <= overlay.fields.Keys
  {
    && fields.Keys == base.fields.Keys + done
    && forall k :: k in fields ==>
         if k !in done then fields[k] == base.fields[k]
         else if k !in base.fields then fields[k] == overlay.fields[k]
         else Compatible(base.fields[k], overlay.fields[k])
              && fields[k] == Merge(base.fields[k], overlay.fields[k], Child(path, k))
  }

  /** `merge_value`: folds the overlay into the base key by key, stopping at the first conflict. */
  method MergeValue(base: Json, overlay: Json, path: string, overrides: seq<string>)
    returns (r: Merged, reported: seq<string>)
    ensures r.Ok? <==> Compatible(base, overlay)
    ensures r.Ok? ==> r.value == Merge(base, overlay, path)
    ensures r.Ok? ==> forall at :: at in reported <==> at in overrides || OverriddenAt(base, overlay, path, at)
    ensures r.Err? ==> ConflictAt(base, overlay, path, r.path)
    decreases base, 2
  {
    if base.Obj? && overlay.Obj? {
      r, reported := MergeFields(base, overlay, path, overrides);
    } else if base.Arr? && overlay.Arr? && UnionPath(path) {
      reported := overrides;
      var items := MergeItems(base.items, overlay.items);
      UnionItemsContents(base.items, overlay.items);
      if |items| != |base.items| {
        reported := reported + [path];
      }
      r := Ok(Arr(items));
    } else if Kind(base) == Kind(overlay) {
      reported := overrides;
      if base != overlay {
        reported := reported + [path];
      }
      r := Ok(overlay);
    } else {
      r, reported := Err(path), overrides;
    }
  }

  method MergeItems(base: seq<Json>, overlay: seq<Json>) returns (items: seq<Json>)
    ensures items == UnionItems(base, overlay)
  {
    items := base;
    for i := 0 to |overlay|
      invariant UnionItems(base, overlay) == UnionItems(items, overlay[i..])
    {
      if overlay[i] !in items {
        items := items + [overlay[i]];
      }
    }
  }

  method MergeFields(base: Json, overlay: Json, path: string, overrides: seq<string>)
    returns (r: Merged, reported: seq<string>)
    requires base.Obj? && overlay.Obj?
    ensures r.Ok? <==> Compatible(base, overlay)
    ensures r.Ok? ==> r.value == Merge(base, overlay, path)
    ensures r.Ok? ==> forall at :: at in reported <==> at in overrides || OverriddenAt(base, overlay, path, at)
    ensures r.Err? ==> ConflictAt(base, overlay, path, r.path)
    decreases base, 1, 1
  {
    reported := overrides;
    var fields := base.fields;
    var keys := Sorted(overlay.fields.Keys);
    ghost var done: set<string> := {};
    for i := 0 to |keys|
      invariant TakesFirst(keys, i, done) && done <= overlay.fields.Keys
      invariant Folded(base, overlay, path, done, fields) && Reported(base, overlay, path, done, overrides, reported)
    {
      TakeNext(keys, i, done);
      var value;
      value, reported := FoldKey(base, overlay, path, keys[i], fields, reported, done, overrides);
      if value.Err? {
        return value, reported;
      }
      fields := fields[keys[i] := value.value];
      done := done + {keys[i]};
    }
    assert done == overlay.fields.Keys by { TakenAll(keys, done); }
    FoldedAll(base, overlay, path, fields);
    r := Ok(Obj(fields));
  }

  /** The set holds exactly the first keys of a list. */
  ghost predicate TakesFirst(keys: seq<string>, n: nat, done: set<string>) {
    forall k :: k in done <==> k in Firsts(keys, n)
  }

  function Firsts(keys: seq<string>, n: nat): seq<string> {
    if n <= |keys| then keys[..n] else keys
  }

  lemma TakeNext(keys: seq<string>, i: nat, done: set<string>)
    requires StrictlySorted(keys) && i < |keys| && TakesFirst(keys, i, done)
    ensures keys[i] in keys && keys[i] !in done && TakesFirst(keys, i + 1, done + {keys[i]})
  {
    OthersDiffer(keys, i);
    assert keys[..i + 1] == keys[..i] + [keys[i]];
  }

  lemma TakenAll(keys: seq<string>, done: set<string>)
    requires TakesFirst(keys, |keys|, done)
    ensures forall k :: k in done <==> k in keys
  {
    assert keys[..|keys|] == keys;
  }

  /** The reported places are those given and those overridden below the keys in `done`. */
  ghost predicate Reported(base: Json, overlay: Json, path: string, done: set<string>, overrides: seq<string>,
                           reported: seq<string>)
    requires base.Obj? && overlay.Obj?
  {
    forall at :: at in reported <==> at in overrides || OverriddenUnder(base, overlay, path, done, at)
  }

  /** One key of the object loop. */
  method FoldKey(base: Json, overlay: Json, path: string, key: string, fields: map<string, Json>, before: seq<string>,
                 ghost done: set<string>, ghost overrides: seq<string>)
    returns (value: Merged, reported: seq<string>)
    requires base.Obj? && overlay.Obj? && key in overlay.fields && key !in done
    requires done <= overlay.fields.Keys && Folded(base, overlay, path, done, fields)
    requires Reported(base, overlay, path, done, overrides, before)
    ensures value.Ok? ==> Folded(base, overlay, path, done + {key}, fields[key := value.value])
    ensures value.Ok? ==> Reported(base, overlay, path, done + {key}, overrides, reported)
    ensures value.Err? ==> !Compatible(base, overlay) && ConflictAt(base, overlay, path, value.path)
    decreases base, 1, 0
  {
    value, reported := MergeKey(base, overlay, path, key, before);
    if value.Ok? {
      FoldStep(base, overlay, path, done, fields, key, value.value);
      OverriddenUnderStep(base, overlay, path, done, key);
    }
  }

  method MergeKey(base: Json, overlay: Json, path: string, key: string, overrides: seq<string>)
    returns (r: Merged, reported: seq<string>)
    requires base.Obj? && overlay.Obj? && key in overlay.fields
    ensures r.Ok? && key !in base.fields ==> r.value == overlay.fields[key]
    ensures r.Ok? && key in base.fields ==>
              Compatible(base.fields[key], overlay.fields[key])
              && r.value == Merge(base.fields[key], overlay.fields[key], Child(path, key))
    ensures r.Ok? ==> forall at :: at in reported <==>
              at in overrides
              || (key in base.fields && OverriddenAt(base.fields[key], overlay.fields[key], Child(path, key), at))
    ensures r.Err? ==> !Compatible(base, overlay) && ConflictAt(base, overlay, path, r.path)
    decreases base, 0
  {
    if key in base.fields {
      r, reported := MergeValue(base.fields[key], overlay.fields[key], Child(path, key), overrides);
    } else {
      r, reported := Ok(overlay.fields[key]), overrides;
    }
  }

  lemma OthersDiffer(keys: seq<string>, i: nat)
    requires StrictlySorted(keys) && i < |keys|
    ensures forall j :: 0 <= j < |keys| && j != i ==> keys[j] != keys[i]
  {
    forall j | 0 <= j < |keys| && j != i ensures keys[j] != keys[i] {
      if j < i { SortedDistinct(keys, j, i); } else { SortedDistinct(keys, i, j); }
    }
  }

  lemma FoldStep(base: Json, overlay: Json, path: string, done: set<string>, fields: map<string, Json>, key: string,
                 value: Json)
    requires base.Obj? && overlay.Obj? && done <= overlay.fields.Keys && Folded(base, overlay, path, done, fields)
    requires key in overlay.fields && key !in done
    requires key !in base.fields ==> value == overlay.fields[key]
    requires key in base.fields ==> Compatible(base.fields[key], overlay.fields[key])
                                    && value == Merge(base.fields[key], overlay.fields[key], Child(path, key))
    ensures Folded(base, overlay, path, done + {key}, fields[key := value])
  {
  }

  lemma FoldedAll(base: Json, overlay: Json, path: string, fields: map<string, Json>)
    requires base.Obj? && overlay.Obj? && Folded(base, overlay, path, overlay.fields.Keys, fields)
    ensures Compatible(base, overlay) && Obj(fields) == Merge(base, overlay, path)
    ensures forall at :: OverriddenUnder(base, overlay, path, overlay.fields.Keys, at) <==>
              OverriddenAt(base, overlay, path, at)
  {
    assert forall k :: k in base.fields && k in overlay.fields ==>
             k in fields && Compatible(base.fields[k], overlay.fields[k]);
    assert fields == Merge(base, overlay, path).fields;
  }

  lemma OverriddenUnderStep(base: Json, overlay: Json, path: string, done: set<string>, key: string)
    requires base.Obj? && overlay.Obj? && key in overlay.fields
    requires key in base.fields ==> Compatible(base.fields[key], overlay.fields[key])
    ensures forall at :: OverriddenUnder(base, overlay, path, done + {key}, at) <==>
                           OverriddenUnder(base, overlay, path, done, at)
                           || (key in base.fields && OverriddenAt(base.fields[key], overlay.fields[key],
                                                                  Child(path, key), at))
  {
  }

  datatype Composed = Effective(profile: Json, overrides: seq<string>) | Refused(path: string)

  /** `at` is the rendering of a place where two layers hold values of different kinds. */
  ghost predicate ClashIn(specs: seq<Json>, at: string) {
    exists i, j, keys :: 0 <= i < j < |specs| && Clash(specs[i], specs[j], keys) && Rendered("$", keys) == at
  }

  /** The profile is, at every place, what the layers say there. */
  ghost predicate ComposedOf(specs: seq<Json>, profile: Json) {
    forall keys :: Stacked(Said(specs, |specs|, keys), Rendered("$", keys), At(profile, keys))
  }

  /** The places that the first `n` layers override. */
  ghost predicate OverridesOf(specs: seq<Json>, n: nat, overrides: seq<string>)
    requires n <= |specs|
  {
    forall at :: at in overrides <==> StackOverrides(specs, n, at)
  }

  /** `compose_profiles`: the layers folded in order, with the sorted list of overridden places. It succeeds exactly
      when all layers are objects and agree on the kind of every value; then what the layers say at a place decides
      what stands there, and the overridden places are those where a layer says something else than the ones below. */
  method ComposeProfiles(specs: seq<Json>) returns (r: Composed)
    ensures r.Effective? <==> specs != [] && Agree(specs, |specs|)
    ensures r.Effective? ==> Compose(specs) == Some(r.profile) && ComposedOf(specs, r.profile)
    ensures r.Effective? ==> StrictlySorted(r.overrides) && OverridesOf(specs, |specs|, r.overrides)
    ensures r.Refused? ==>
              || (r.path == "$" && (specs == [] || exists i :: 0 <= i < |specs| && !specs[i].Obj?))
              || ClashIn(specs, r.path)
  {
    if specs == [] {
      return Refused("$");
    }
    for i := 0 to |specs|
      invariant forall j :: 0 <= j < i ==> specs[j].Obj?
    {
      if !specs[i].Obj? {
        return Refused("$");
      }
    }
    var merged, overrides := FoldLayers(specs);
    if merged.Err? {
      return Refused(merged.path);
    }
    r := Effective(merged.value, Sorted(set at | at in overrides));
  }

  /** The layers merged one after the other onto the first. */
  method FoldLayers(specs: seq<Json>) returns (merged: Merged, overrides: seq<string>)
    requires specs != [] && forall i :: 0 <= i < |specs| ==> specs[i].Obj?
    ensures merged.Ok? <==> Agree(specs, |specs|)
    ensures merged.Ok? ==> Compose(specs) == Some(merged.value) && ComposedOf(specs, merged.value)
    ensures merged.Ok? ==> OverridesOf(specs, |specs|, overrides)
    ensures merged.Err? ==> ClashIn(specs, merged.path)
  {
    merged, overrides := Ok(specs[0]), [];
    var i := 1;
    assert specs[..1] == [specs[0]];
    while i < |specs|
      invariant 1 <= i <= |specs| && merged.Ok? && Compose(specs[..i]) == Some(merged.value)
      invariant OverridesOf(specs, i, overrides)
    {
      ghost var effective, reported := merged.value, overrides;
      merged, overrides := MergeValue(merged.value, specs[i], "$", overrides);
      if merged.Err? {
        NextClash(specs, i, merged.path);
        NextRefused(specs, i);
        return;
      }
      NextLayer(specs, i, effective, reported, overrides);
      i := i + 1;
    }
    assert specs[..i] == specs;
    ComposesExactly(specs, |specs|);
    ComposedPlaces(specs);
  }

  lemma ComposedPlaces(specs: seq<Json>)
    requires specs != [] && Compose(specs).Some?
    ensures ComposedOf(specs, Compose(specs).value)
  {
    assert specs[..|specs|] == specs;
    forall keys ensures Stacked(Said(specs, |specs|, keys), Rendered("$", keys), At(Compose(specs).value, keys)) {
      ComposedAt(specs, |specs|, keys);
    }
  }

  /** One more layer on top of a composed stack. */
  lemma NextLayer(specs: seq<Json>, i: nat, effective: Json, before: seq<string>, after: seq<string>)
    requires 1 <= i < |specs| && Compose(specs[..i]) == Some(effective) && specs[i].Obj?
    requires Compatible(effective, specs[i]) && OverridesOf(specs, i, before)
    requires forall at :: at in after <==> at in before || OverriddenAt(effective, specs[i], "$", at)
    ensures Compose(specs[..i + 1]) == Some(Merge(effective, specs[i], "$")) && OverridesOf(specs, i + 1, after)
  {
    assert specs[..i + 1][..i] == specs[..i];
    forall at ensures at in after <==> StackOverrides(specs, i + 1, at) {
      NextOverrides(specs, i, at);
    }
  }

  lemma NextRefused(specs: seq<Json>, i: nat)
    requires 1 <= i < |specs| && Compose(specs[..i]).Some? && specs[i].Obj?
    requires !Compatible(Compose(specs[..i]).value, specs[i])
    ensures !Agree(specs, |specs|)
  {
    assert specs[..i + 1][..i] == specs[..i];
    ComposesExactly(specs, i + 1);
  }

  lemma NextClash(specs: seq<Json>, i: nat, at: string)
    requires 1 <= i < |specs| && Compose(specs[..i]).Some? && ConflictAt(Compose(specs[..i]).value, specs[i], "$", at)
    ensures ClashIn(specs, at)
  {
    var keys := ConflictIsClash(Compose(specs[..i]).value, specs[i], "$", at);
    ClashWithLayer(specs, i, keys);
    var j :| 0 <= j < i && Clash(specs[j], specs[i], keys);
  }
}

/** The difference between two profiles as a rollout review lists it: `collect_changed_paths`. */
module ProfileDiff {
  import opened Text
  import opened Profiles
  import opened ProfilePlaces

  const LIMIT: nat := 100

  /** A place in a document: the keys from the root down. Rendering it with dots is what the review shows. */
  type Place = seq<string>

  datatype Listing = Listing(places: seq<Place>, truncated: bool)

  function Under(key: string, places: seq<Place>): seq<Place> {
    if places == [] then [] else [[key] + places[0]] + Under(key, places[1..])
  }

  /** What a document lists when `used` places are already listed. */
  function Diff(current: Json, desired: Json, used: nat): Listing
    decreases current, 1, 0
  {
    if current == desired then Listing([], false)
    else if used >= LIMIT then Listing([], true)
    else if current.Obj? && desired.Obj? then
      DiffKeys(current, desired, Sorted(current.fields.Keys + desired.fields.Keys), used)
    else Listing([[]], false)
  }

  function DiffKeys(current: Json, desired: Json, keys: seq<string>, used: nat): Listing
    requires current.Obj? && desired.Obj?
    decreases current, 0, |keys|
  {
    if keys == [] then Listing([], false)
    else if used >= LIMIT then Listing([], true)
    else
      var here := DiffKey(current, desired, keys[0], used);
      var rest := DiffKeys(current, desired, keys[1..], used + |here.places|);
      Listing(here.places + rest.places, here.truncated || rest.truncated)
  }

  function DiffKey(current: Json, desired: Json, key: string, used: nat): Listing
    requires current.Obj? && desired.Obj?
    decreases current, 0, 0
  {
    if key in current.fields && key in desired.fields then
      var child := Diff(current.fields[key], desired.fields[key], used);
      Listing(Under(key, child.places), child.truncated)
    else
      Listing([[key]], false)
  }

  function RenderAll(path: string, places: seq<Place>): seq<string> {
    if places == [] then [] else [Rendered(path, places[0])] + RenderAll(path, places[1..])
  }

  // ---- The list is bounded ----

  lemma {:induction false} UnderLength(key: string, places: seq<Place>)
    ensures |Under(key, places)| == |places|
    ensures forall i :: 0 <= i < |places| ==> Under(key, places)[i] == [key] + places[i]
  {
    if places != [] {
      UnderLength(key, places[1..]);
    }
  }

  lemma {:induction false} DiffBounded(current: Json, desired: Json, used: nat)
    requires used <= LIMIT
    ensures used + |Diff(current, desired, used).places| <= LIMIT
    ensures current == desired ==> Diff(current, desired, used) == Listing([], false)
    ensures current != desired && used < LIMIT ==> Diff(current, desired, used).places != []
    decreases current, 1, 0
  {
    if current.Obj? && desired.Obj? && current != desired && used < LIMIT {
      var keys := Sorted(current.fields.Keys + desired.fields.Keys);
      DiffKeysBounded(current, desired, keys, used);
    }
  }

  lemma {:induction false} DiffKeysBounded(current: Json, desired: Json, keys: seq<string>, used: nat)
    requires current.Obj? && desired.Obj? && used <= LIMIT
    requires forall k :: k in keys ==> k in current.fields || k in desired.fields
    ensures used + |DiffKeys(current, desired, keys, used).places| <= LIMIT
    ensures used < LIMIT && DiffKeys(current, desired, keys, used).places == [] ==>
              forall k :: k in keys ==>
                  k in current.fields && k in desired.fields && current.fields[k] == desired.fields[k]
    decreases current, 0, |keys|
  {
    if keys != [] && used < LIMIT {
      var key := keys[0];
      if key in current.fields && key in desired.fields {
        var child := Diff(current.fields[key], desired.fields[key], used);
        DiffBounded(current.fields[key], desired.fields[key], used);
        UnderLength(key, child.places);
      }
      var here := DiffKey(current, desired, key, used);
      DiffKeysBounded(current, desired, keys[1..], used + |here.places|);
    }
  }

  // ---- The list is exact ----

  /** The document with the value at one place copied in, or removed when there is none to copy. */
  ghost function SetAt(j: Json, place: Place, value: Option<Json>): Json
    decreases |place|
  {
    if place == [] then (if value.Some? then value.value else j)
    else if !j.Obj? then j
    else if |place| == 1 then
      Obj(if value.Some? then j.fields[place[0] := value.value] else j.fields - {place[0]})
    else if place[0] in j.fields then
      Obj(j.fields[place[0] := SetAt(j.fields[place[0]], place[1..], value)])
    else j
  }

  /** The document after copying or deleting the desired value at each listed place, in turn. */
  ghost function Patch(j: Json, desired: Json, places: seq<Place>): Json
    decreases |places|
  {
    if places == [] then j else Patch(SetAt(j, places[0], At(desired, places[0])), desired, places[1..])
  }

  lemma {:induction false} PatchSplit(j: Json, desired: Json, a: seq<Place>, b: seq<Place>)
    ensures Patch(j, desired, a + b) == Patch(Patch(j, desired, a), desired, b)
    decreases |a|
  {
    if a == [] {
      assert a + b == b;
    } else {
      assert (a + b)[1..] == a[1..] + b;
      PatchSplit(SetAt(j, a[0], At(desired, a[0])), desired, a[1..], b);
    }
  }

  /** Patching below one key is patching that key's value. */
  lemma {:induction false} PatchUnder(fields: map<string, Json>, desired: Json, key: string, places: seq<Place>)
    requires desired.Obj? && key in fields && key in desired.fields
    ensures Patch(Obj(fields), desired, Under(key, places)) ==
            Obj(fields[key := Patch(fields[key], desired.fields[key], places)])
    decreases |places|
  {
    if places == [] {
      assert fields[key := fields[key]] == fields;
    } else {
      var place := [key] + places[0];
      assert place[1..] == places[0];
      var value := At(desired.fields[key], places[0]);
      assert At(desired, place) == value;
      var next := fields[key := SetAt(fields[key], places[0], value)];
      assert SetAt(Obj(fields), place, value) == Obj(next);
      PatchUnder(next, desired, key, places[1..]);
      assert next[key := Patch(next[key], desired.fields[key], places[1..])]
          == fields[key := Patch(next[key], desired.fields[key], places[1..])];
    }
  }

  /** On the keys still to come the fields are the current ones, elsewhere already the desired ones. */
  ghost predicate Halfway(fields: map<string, Json>, current: Json, desired: Json, keys: seq<string>)
    requires current.Obj? && desired.Obj?
  {
    && (forall k :: k in keys ==>
          (k in fields <==> k in current.fields) && (k in fields ==> fields[k] == current.fields[k]))
    && (forall k :: k !in keys ==>
          (k in fields <==> k in desired.fields) && (k in fields ==> fields[k] == desired.fields[k]))
  }

  /** When the list is complete, copying or deleting the desired values at exactly the listed places gives the
      desired document. */
  lemma {:induction false} PatchReachesDesired(current: Json, desired: Json, used: nat)
    requires !Diff(current, desired, used).truncated
    ensures Patch(current, desired, Diff(current, desired, used).places) == desired
    decreases current, 1, 0
  {
    if current != desired {
      if current.Obj? && desired.Obj? {
        var keys := Sorted(current.fields.Keys + desired.fields.Keys);
        PatchKeysReachesDesired(current.fields, current, desired, keys, used);
      } else {
        assert Patch(current, desired, [[]]) == Patch(SetAt(current, [], Some(desired)), desired, []);
      }
    }
  }

  lemma {:induction false} PatchKeysReachesDesired(fields: map<string, Json>, current: Json, desired: Json,
                                                   keys: seq<string>, used: nat)
    requires current.Obj? && desired.Obj? && StrictlySorted(keys)
    requires forall k :: k in keys ==> k in current.fields || k in desired.fields
    requires Halfway(fields, current, desired, keys) && !DiffKeys(current, desired, keys, used).truncated
    ensures Patch(Obj(fields), desired, DiffKeys(current, desired, keys, used).places) == desired
    decreases current, 0, |keys|
  {
    if keys == [] {
      assert fields == desired.fields;
    } else {
      var key := keys[0];
      var here := DiffKey(current, desired, key, used);
      var rest := DiffKeys(current, desired, keys[1..], used + |here.places|);
      forall i | 0 < i < |keys| ensures keys[i] != key { SortedDistinct(keys, 0, i); }
      assert key !in keys[1..];
      var next := if key in desired.fields then fields[key := desired.fields[key]] else fields - {key};
      assert Patch(Obj(fields), desired, here.places) == Obj(next) by {
        if key in current.fields && key in desired.fields {
          var child := Diff(current.fields[key], desired.fields[key], used);
          PatchReachesDesired(current.fields[key], desired.fields[key], used);
          assert fields[key] == current.fields[key];
          PatchUnder(fields, desired, key, child.places);
        } else {
          assert [key][1..] == [];
          assert At(desired, [key]) == if key in desired.fields then Some(desired.fields[key]) else None;
          assert Patch(Obj(fields), desired, [[key]]) ==
                 Patch(SetAt(Obj(fields), [key], At(desired, [key])), desired, []);
        }
      }
      assert Halfway(next, current, desired, keys[1..]);
      PatchKeysReachesDesired(next, current, desired, keys[1..], used + |here.places|);
      PatchSplit(Obj(fields), desired, here.places, rest.places);
    }
  }

  /** Every listed place is a real difference, whether or not the list was cut. */
  lemma {:induction false} ListedPlacesDiffer(current: Json, desired: Json, used: nat, place: Place)
    requires place in Diff(current, desired, used).places
    ensures At(current, place) != At(desired, place)
    decreases current, 1, 0
  {
    if current.Obj? && desired.Obj? {
      ListedKeysDiffer(current, desired, Sorted(current.fields.Keys + desired.fields.Keys), used, place);
    }
  }

  lemma {:induction false} ListedKeysDiffer(current: Json, desired: Json, keys: seq<string>, used: nat, place: Place)
    requires current.Obj? && desired.Obj? && place in DiffKeys(current, desired, keys, used).places
    requires forall k :: k in keys ==> k in current.fields || k in desired.fields
    ensures At(current, place) != At(desired, place)
    decreases current, 0, |keys|
  {
    var key := keys[0];
    var here := DiffKey(current, desired, key, used);
    if place in here.places {
      if key in current.fields && key in desired.fields {
        var child := Diff(current.fields[key], desired.fields[key], used);
        UnderLength(key, child.places);
        var i :| 0 <= i < |child.places| && place == [key] + child.places[i];
        assert place[1..] == child.places[i];
        ListedPlacesDiffer(current.fields[key], desired.fields[key], used, child.places[i]);
      }
    } else {
      ListedKeysDiffer(current, desired, keys[1..], used + |here.places|, place);
    }
  }

  // ---- The limit and its flag ----

  /** The same walk without a limit: every differing place. */
  function FullDiff(current: Json, desired: Json): seq<Place>
    decreases current, 1, 0
  {
    if current == desired then []
    else if current.Obj? && desired.Obj?
    then FullKeys(current, desired, Sorted(current.fields.Keys + desired.fields.Keys))
    else [[]]
  }

  function FullKeys(current: Json, desired: Json, keys: seq<string>): seq<Place>
    requires current.Obj? && desired.Obj?
    decreases current, 0, |keys|
  {
    if keys == [] then [] else FullKey(current, desired, keys[0]) + FullKeys(current, desired, keys[1..])
  }

  function FullKey(current: Json, desired: Json, key: string): seq<Place>
    requires current.Obj? && desired.Obj?
    decreases current, 0, 0
  {
    if key in current.fields && key in desired.fields
    then Under(key, FullDiff(current.fields[key], desired.fields[key]))
    else [[key]]
  }

  function First(places: seq<Place>, n: nat): seq<Place> {
    if |places| <= n then places else places[..n]
  }

  /** After the given place, the walk still has a key to visit, in the object that holds the place or one around it. */
  predicate KeyRemains(current: Json, desired: Json, place: Place)
    decreases |place|, 2
  {
    current.Obj? && desired.Obj?
    && RemainsAmong(current, desired, Sorted(current.fields.Keys + desired.fields.Keys), place)
  }

  predicate RemainsAmong(current: Json, desired: Json, keys: seq<string>, place: Place)
    requires current.Obj? && desired.Obj?
    decreases |place|, 1
  {
    place != [] && keys != [] && (place[0] != keys[|keys| - 1] || RemainsBelow(current, desired, place))
  }

  predicate RemainsBelow(current: Json, desired: Json, place: Place)
    requires current.Obj? && desired.Obj?
    decreases |place|, 0
  {
    && place != [] && place[0] in current.fields && place[0] in desired.fields
    && KeyRemains(current.fields[place[0]], desired.fields[place[0]], place[1..])
  }

  /** With the given full list and room for so many of its places, the walk says that its list is cut: some do not
      fit, or the last one just fits and a key remains. */
  predicate Cut(current: Json, desired: Json, all: seq<Place>, room: nat) {
    |all| > room || (|all| == room > 0 && KeyRemains(current, desired, all[room - 1]))
  }

  predicate KeysCut(current: Json, desired: Json, keys: seq<string>, all: seq<Place>, room: nat)
    requires current.Obj? && desired.Obj?
  {
    |all| > room || (|all| == room && keys != [] && (room > 0 ==> RemainsAmong(current, desired, keys, all[room - 1])))
  }

  predicate KeyCut(current: Json, desired: Json, here: seq<Place>, room: nat)
    requires current.Obj? && desired.Obj?
  {
    |here| > room || (|here| == room > 0 && RemainsBelow(current, desired, here[room - 1]))
  }

  lemma {:induction false} FullDiffFinds(current: Json, desired: Json)
    ensures current == desired <==> FullDiff(current, desired) == []
    decreases current, 1, 0
  {
    if current.Obj? && desired.Obj? && current != desired {
      SomeFieldDiffers(current, desired);
      FullKeysFind(current, desired, Sorted(current.fields.Keys + desired.fields.Keys));
    }
  }

  lemma SomeFieldDiffers(current: Json, desired: Json)
    requires current.Obj? && desired.Obj? && current != desired
    ensures exists k :: k in current.fields.Keys + desired.fields.Keys
                        && (k !in current.fields || k !in desired.fields || current.fields[k] != desired.fields[k])
  {
    assert current.fields != desired.fields;
  }

  lemma {:induction false} FullKeysFind(current: Json, desired: Json, keys: seq<string>)
    requires current.Obj? && desired.Obj?
    ensures FullKeys(current, desired, keys) == [] ==>
              forall k :: k in keys ==>
                  k in current.fields && k in desired.fields && current.fields[k] == desired.fields[k]
    decreases current, 0, |keys|
  {
    if keys != [] {
      var key := keys[0];
      FullKeysFind(current, desired, keys[1..]);
      assert keys == [key] + keys[1..];
      var here, rest := FullKey(current, desired, key), FullKeys(current, desired, keys[1..]);
      assert |here + rest| == |here| + |rest|;
      if key in current.fields && key in desired.fields {
        UnderLength(key, FullDiff(current.fields[key], desired.fields[key]));
        FullDiffFinds(current.fields[key], desired.fields[key]);
      }
    }
  }

  lemma {:induction false} UnderFirst(key: string, places: seq<Place>, n: nat)
    ensures Under(key, First(places, n)) == First(Under(key, places), n)
  {
    UnderLength(key, places);
    UnderLength(key, First(places, n));
    assert |Under(key, First(places, n))| == |First(Under(key, places), n)|;
    assert forall i :: 0 <= i < |First(places, n)| ==>
             Under(key, First(places, n))[i] == First(Under(key, places), n)[i];
  }

  /** The listed places are the first hundred differing ones, and the flag is up exactly when more differ, or when
      the hundredth is the last and the walk still has a key to visit after it. */
  lemma {:induction false} DiffIsCutExactly(current: Json, desired: Json, used: nat)
    requires used <= 100
    ensures Diff(current, desired, used).places == First(FullDiff(current, desired), 100 - used)
    ensures Diff(current, desired, used).truncated <==> Cut(current, desired, FullDiff(current, desired), 100 - used)
    decreases current, 1, 0
  {
    if current != desired && used < LIMIT && current.Obj? && desired.Obj? {
      var keys := Sorted(current.fields.Keys + desired.fields.Keys);
      DiffKeysAreCutExactly(current, desired, keys, used);
    } else {
      DiffAtOnce(current, desired, used);
    }
  }

  /** Where the walk does not go into keys. */
  lemma DiffAtOnce(current: Json, desired: Json, used: nat)
    requires used <= LIMIT && !(current != desired && used < LIMIT && current.Obj? && desired.Obj?)
    ensures Diff(current, desired, used).places == First(FullDiff(current, desired), LIMIT - used)
    ensures Diff(current, desired, used).truncated <==> Cut(current, desired, FullDiff(current, desired), LIMIT - used)
  {
    FullDiffFinds(current, desired);
  }

  lemma {:induction false} DiffKeyIsCutExactly(current: Json, desired: Json, key: string, used: nat)
    requires current.Obj? && desired.Obj? && used < LIMIT
    ensures DiffKey(current, desired, key, used).places == First(FullKey(current, desired, key), LIMIT - used)
    ensures DiffKey(current, desired, key, used).truncated <==>
              KeyCut(current, desired, FullKey(current, desired, key), LIMIT - used)
    decreases current, 0, 0
  {
    if key in current.fields && key in desired.fields {
      var below := FullDiff(current.fields[key], desired.fields[key]);
      DiffIsCutExactly(current.fields[key], desired.fields[key], used);
      UnderFirst(key, below, LIMIT - used);
      CutBelow(current, desired, key, below, LIMIT - used);
    }
  }

  lemma CutBelow(current: Json, desired: Json, key: string, below: seq<Place>, room: nat)
    requires current.Obj? && desired.Obj? && key in current.fields && key in desired.fields && room > 0
    ensures KeyCut(current, desired, Under(key, below), room) <==>
              Cut(current.fields[key], desired.fields[key], below, room)
  {
    UnderLength(key, below);
    if |below| == room {
      assert Under(key, below)[room - 1][1..] == below[room - 1];
    }
  }

  lemma {:induction false} DiffKeysAreCutExactly(current: Json, desired: Json, keys: seq<string>, used: nat)
    requires current.Obj? && desired.Obj? && used <= LIMIT && StrictlySorted(keys)
    ensures DiffKeys(current, desired, keys, used).places == First(FullKeys(current, desired, keys), LIMIT - used)
    ensures DiffKeys(current, desired, keys, used).truncated <==>
              KeysCut(current, desired, keys, FullKeys(current, desired, keys), LIMIT - used)
    decreases current, 0, |keys|
  {
    if keys != [] && used < LIMIT {
      var here, after := FullKey(current, desired, keys[0]), FullKeys(current, desired, keys[1..]);
      DiffKeyIsCutExactly(current, desired, keys[0], used);
      FirstOfConcat(here, after, LIMIT - used);
      DiffKeysAreCutExactly(current, desired, keys[1..], used + |First(here, LIMIT - used)|);
      HeadIs(current, desired, keys[0]);
      KeysCutStep(current, desired, keys, here, after, LIMIT - used);
    }
  }

  lemma FirstOfConcat(a: seq<Place>, b: seq<Place>, n: nat)
    ensures |First(a, n)| <= n && First(a + b, n) == First(a, n) + First(b, n - |First(a, n)|)
  {
  }

  lemma HeadIs(current: Json, desired: Json, key: string)
    requires current.Obj? && desired.Obj?
    ensures Headed(FullKey(current, desired, key), key)
  {
    if key in current.fields && key in desired.fields {
      UnderLength(key, FullDiff(current.fields[key], desired.fields[key]));
    }
  }

  predicate Headed(places: seq<Place>, key: string) {
    forall i :: 0 <= i < |places| ==> places[i] != [] && places[i][0] == key
  }

  /** How the flag of a list of keys comes from the places of its first key and those of the rest. */
  lemma KeysCutStep(current: Json, desired: Json, keys: seq<string>, here: seq<Place>, after: seq<Place>, room: nat)
    requires current.Obj? && desired.Obj? && StrictlySorted(keys) && keys != [] && room > 0
    requires Headed(here, keys[0]) && (keys[1..] == [] ==> after == [])
    ensures KeysCut(current, desired, keys, here + after, room) <==>
            || KeyCut(current, desired, here, room)
            || KeysCut(current, desired, keys[1..], after, room - |First(here, room)|)
  {
    if |here| < room && |here| + |after| == room {
      SameTail(current, desired, keys, after[room - |here| - 1]);
      assert (here + after)[room - 1] == after[room - |here| - 1];
    } else if |here| == room && after == [] {
      assert (here + after)[room - 1] == here[room - 1];
      if |keys| > 1 {
        SortedDistinct(keys, 0, |keys| - 1);
      }
    }
  }

  lemma SameTail(current: Json, desired: Json, keys: seq<string>, place: Place)
    requires current.Obj? && desired.Obj? && |keys| > 1
    ensures RemainsAmong(current, desired, keys, place) <==> RemainsAmong(current, desired, keys[1..], place)
  {
    assert keys[1..][|keys| - 2] == keys[|keys| - 1];
  }

  function Singles(keys: seq<string>): (places: seq<Place>)
    ensures |places| == |keys| && forall i :: 0 <= i < |keys| ==> places[i] == [keys[i]]
  {
    if keys == [] then [] else [[keys[0]]] + Singles(keys[1..])
  }

  lemma {:induction false} AddedKeys(current: Json, desired: Json, added: seq<string>, last: string)
    requires current.Obj? && desired.Obj? && (forall k :: k in added ==> k !in current.fields)
    requires last in current.fields && last in desired.fields && current.fields[last] == desired.fields[last]
    ensures FullKeys(current, desired, added + [last]) == Singles(added)
  {
    var keys := added + [last];
    if added == [] {
      assert keys[1..] == [];
      assert FullKey(current, desired, last) == [];
    } else {
      assert keys[1..] == added[1..] + [last];
      AddedKeys(current, desired, added[1..], last);
    }
  }

  /** The flag can mislead: a hundred added keys and one unchanged key after them are all listed, and still reported
      as cut. */
  lemma FlagMisleads(keys: seq<string>, value: Json)
    requires StrictlySorted(keys) && |keys| == LIMIT + 1
    ensures var current, desired := Obj(map[keys[LIMIT] := value]), Obj(map k | k in keys :: value);
            && Diff(current, desired, 0).truncated
            && Diff(current, desired, 0).places == FullDiff(current, desired) == Singles(keys[..LIMIT])
  {
    var last, added := keys[LIMIT], keys[..LIMIT];
    var current, desired := Obj(map[last := value]), Obj(map k | k in keys :: value);
    OneKept(keys, value);
    DiffIsCutExactly(current, desired, 0);
    LastAdded(current, desired, keys, FullDiff(current, desired));
  }

  /** And there are such documents, whatever value they hold. */
  lemma FlagCanMislead(value: Json) returns (current: Json, desired: Json)
    ensures Diff(current, desired, 0) == Listing(FullDiff(current, desired), true)
  {
    var keys := ManyKeys(LIMIT + 1);
    FlagMisleads(keys, value);
    current, desired := Obj(map[keys[LIMIT] := value]), Obj(map k | k in keys :: value);
  }

  lemma LastAdded(current: Json, desired: Json, keys: seq<string>, all: seq<Place>)
    requires current.Obj? && desired.Obj? && Sorted(current.fields.Keys + desired.fields.Keys) == keys
    requires StrictlySorted(keys) && |keys| == LIMIT + 1 && all == Singles(keys[..LIMIT])
    ensures Cut(current, desired, all, LIMIT)
  {
    SortedDistinct(keys, LIMIT - 1, LIMIT);
    assert all[LIMIT - 1] == [keys[LIMIT - 1]];
  }

  lemma OneKept(keys: seq<string>, value: Json)
    requires StrictlySorted(keys) && |keys| == LIMIT + 1
    ensures var current, desired := Obj(map[keys[LIMIT] := value]), Obj(map k | k in keys :: value);
            && Sorted(current.fields.Keys + desired.fields.Keys) == keys
            && FullDiff(current, desired) == Singles(keys[..LIMIT])
  {
    var last, added := keys[LIMIT], keys[..LIMIT];
    var current, desired := Obj(map[last := value]), Obj(map k | k in keys :: value);
    KeptKeys(keys, value, last);
    AllKeys(keys, current.fields.Keys + desired.fields.Keys);
    OthersAreAdded(keys, added, last);
    AddedKeys(current, desired, added, last);
    assert added[0] in desired.fields && added[0] !in current.fields;
  }

  lemma KeptKeys(keys: seq<string>, value: Json, last: string)
    requires last in keys
    ensures forall k :: k in (map[last := value]).Keys + (map k | k in keys :: value).Keys <==> k in keys
  {
  }

  lemma OthersAreAdded(keys: seq<string>, added: seq<string>, last: string)
    requires StrictlySorted(keys) && |keys| == LIMIT + 1 && added == keys[..LIMIT] && last == keys[LIMIT]
    ensures keys == added + [last] && forall k :: k in added ==> k in keys && k != last
  {
    forall k | k in added ensures k in keys && k != last {
      var i :| 0 <= i < LIMIT && added[i] == k;
      SortedDistinct(keys, i, LIMIT);
    }
  }

  lemma AllKeys(keys: seq<string>, all: set<string>)
    requires StrictlySorted(keys) && forall k :: k in all <==> k in keys
    ensures Sorted(all) == keys
  {
    SortedUnique(Sorted(all), keys);
  }

  // ---- The walk itself ----

  lemma {:induction false} RenderUnder(path: string, key: string, places: seq<Place>)
    ensures RenderAll(path, Under(key, places)) == RenderAll(Child(path, key), places)
  {
    if places != [] {
      assert ([key] + places[0])[1..] == places[0];
      RenderUnder(path, key, places[1..]);
    }
  }

  lemma {:induction false} RenderSplit(path: string, a: seq<Place>, b: seq<Place>)
    ensures RenderAll(path, a + b) == RenderAll(path, a) + RenderAll(path, b)
    ensures |RenderAll(path, a)| == |a|
  {
    if a == [] {
      assert a + b == b;
    } else {
      assert (a + b)[1..] == a[1..] + b;
      RenderSplit(path, a[1..], b);
    }
  }

  datatype Progress = Progress(listed: seq<string>, truncated: bool)

  /** The walk in the order it appends: one key after another, until the list is full. */
  function WalkKeys(current: Json, desired: Json, path: string, keys: seq<string>, p: Progress): Progress
    requires current.Obj? && desired.Obj?
    decreases |keys|
  {
    if keys == [] then p
    else if |p.listed| >= LIMIT then Progress(p.listed, true)
    else
      var here := DiffKey(current, desired, keys[0], |p.listed|);
      WalkKeys(current, desired, path, keys[1..],
               Progress(p.listed + RenderAll(path, here.places), p.truncated || here.truncated))
  }

  lemma {:induction false} WalkKeysListsDiff(current: Json, desired: Json, path: string, keys: seq<string>, p: Progress)
    requires current.Obj? && desired.Obj?
    ensures var d := DiffKeys(current, desired, keys, |p.listed|);
            WalkKeys(current, desired, path, keys, p) ==
              Progress(p.listed + RenderAll(path, d.places), p.truncated || d.truncated)
    decreases |keys|
  {
    if keys != [] && |p.listed| < LIMIT {
      var here := DiffKey(current, desired, keys[0], |p.listed|);
      var rest := DiffKeys(current, desired, keys[1..], |p.listed| + |here.places|);
      var next := Progress(p.listed + RenderAll(path, here.places), p.truncated || here.truncated);
      RenderSplit(path, here.places, rest.places);
      WalkKeysListsDiff(current, desired, path, keys[1..], next);
      Appended(path, p.listed, here.places, rest.places);
    }
  }

  lemma Appended(path: string, listed: seq<string>, here: seq<Place>, rest: seq<Place>)
    ensures listed + RenderAll(path, here) + RenderAll(path, rest) == listed + RenderAll(path, here + rest)
  {
    RenderSplit(path, here, rest);
  }

  /** `collect_changed_paths`: appends the differing paths, giving up once the list is full. */
  method CollectChangedPaths(current: Json, desired: Json, path: string, result: seq<string>)
    returns (listed: seq<string>, truncated: bool)
    ensures listed == result + RenderAll(path, Diff(current, desired, |result|).places)
    ensures truncated == Diff(current, desired, |result|).truncated
    decreases current, 1
  {
    if current == desired {
      return result, false;
    }
    if |result| >= LIMIT {
      return result, true;
    }
    if current.Obj? && desired.Obj? {
      var keys := Sorted(current.fields.Keys + desired.fields.Keys);
      WalkKeysListsDiff(current, desired, path, keys, Progress(result, false));
      listed, truncated := CollectKeys(current, desired, path, keys, result);
    } else {
      assert RenderAll(path, [[]]) == [path];
      listed, truncated := result + [path], false;
    }
  }

  method CollectKeys(current: Json, desired: Json, path: string, keys: seq<string>, result: seq<string>)
    returns (listed: seq<string>, truncated: bool)
    requires current.Obj? && desired.Obj?
    ensures Progress(listed, truncated) == WalkKeys(current, desired, path, keys, Progress(result, false))
    decreases current, 0
  {
    listed, truncated := result, false;
    var i := 0;
    assert keys[0..] == keys;
    while i < |keys|
      invariant 0 <= i <= |keys|
      invariant WalkKeys(current, desired, path, keys, Progress(result, false))
             == WalkKeys(current, desired, path, keys[i..], Progress(listed, truncated))
    {
      if |listed| >= LIMIT {
        truncated := true;
        break;
      }
      var key := keys[i];
      var child := Child(path, key);
      assert keys[i..][1..] == keys[i + 1..];
      if key in current.fields && key in desired.fields {
        RenderUnder(path, key, Diff(current.fields[key], desired.fields[key], |listed|).places);
        var cut;
        listed, cut := CollectChangedPaths(current.fields[key], desired.fields[key], child, listed);
        truncated := truncated || cut;
      } else {
        assert RenderAll(path, [[key]]) == [Rendered(path, [key])] == [child];
        listed := listed + [child];
      }
      i := i + 1;
    }
  }
}

/** Which profile changes a reviewed rollout may apply to an active server: `assess_rollout`, `setup_reapply_supported`
    and the acceptance test of `enrollment_rollout_apply`. */
module Rollout {
  import opened Text
  import opened Profiles
  import opened ProfilePlaces
  import opened ProfileDiff

  datatype Assessment = Assessment(
    changedPaths: seq<string>,
    changesTruncated: bool,
    rerunCommissioning: bool,
    reconfigure: bool,
    requiresReboot: bool)

  predicate GatePath(path: string) {
    StartsWith(path, "$.qualification") || StartsWith(path, "$.commissioning")
  }

  function Field(j: Json, key: string): Option<Json> {
    if j.Obj? && key in j.fields then Some(j.fields[key]) else None
  }

  function Setup(profile: Json, key: string): Option<Json> {
    var setup := Field(profile, "setup");
    if setup.Some? then Field(setup.value, key) else None
  }

  predicate WantsReboot(profile: Json) {
    Setup(profile, "requires_reboot") == Some(Bool(true))
  }

  function Features(profile: Json): set<string> {
    var features := Setup(profile, "features");
    if features.Some? && features.value.Arr? then set f | f in features.value.items && f.Str? :: f.s else {}
  }

  /** The listed places as the review shows them: rendered, sorted, each text once. */
  function Shown(listing: Listing): seq<string> {
    Sorted(set p | p in RenderAll("$", listing.places))
  }

  function Conclude(paths: seq<string>, truncated: bool, desired: Json, rerun: bool): Assessment {
    var reconfigure := rerun || truncated || exists p :: p in paths && !GatePath(p);
    Assessment(paths, truncated, rerun, reconfigure, reconfigure && WantsReboot(desired))
  }

  function Assess(current: Json, desired: Json, currentChecks: seq<string>, desiredChecks: seq<string>): Assessment {
    var listing := Diff(current, desired, 0);
    Conclude(Shown(listing), listing.truncated, desired, desiredChecks != [] && currentChecks != desiredChecks)
  }

  lemma ShownBounded(current: Json, desired: Json)
    ensures |Shown(Diff(current, desired, 0))| <= LIMIT
    ensures Shown(Diff(current, desired, 0)) == [] && !Diff(current, desired, 0).truncated <==> current == desired
  {
    var listing := Diff(current, desired, 0);
    DiffBounded(current, desired, 0);
    RenderSplit("$", listing.places, []);
    var texts := RenderAll("$", listing.places);
    SetSize(texts);
    assert texts != [] ==> texts[0] in Shown(listing);
  }

  /** `assess_rollout` cuts its sorted, deduplicated list at 100 entries; there are never more. */
  method AssessRollout(current: Json, desired: Json, currentChecks: seq<string>, desiredChecks: seq<string>)
    returns (a: Assessment)
    ensures a == Assess(current, desired, currentChecks, desiredChecks)
    ensures |a.changedPaths| <= LIMIT
    ensures a.changedPaths == [] && !a.changesTruncated <==> current == desired
  {
    var listed, truncated := CollectChangedPaths(current, desired, "$", []);
    assert listed == RenderAll("$", Diff(current, desired, 0).places);
    var paths := Sorted(set p | p in listed);
    if |paths| > LIMIT {
      paths := paths[..LIMIT];
    }
    ShownBounded(current, desired);
    a := Conclude(paths, truncated, desired, desiredChecks != [] && currentChecks != desiredChecks);
  }

  lemma {:induction false} SetSize(s: seq<string>)
    ensures |set p | p in s| <= |s|
  {
    if s != [] {
      var all, rest := set p | p in s, set p | p in s[1..];
      SetSize(s[1..]);
      assert all == rest + {s[0]};
    }
  }

  /** Features that the signed setup path can reapply to an existing target. */
  const REAPPLY: set<string> := {"nvidia_dcgm", "system_observation"}

  predicate ReapplySupported(a: Assessment, current: Json, desired: Json) {
    && a.reconfigure && !a.rerunCommissioning && !a.requiresReboot && !a.changesTruncated
    && Features(current) != Features(desired)
    && (forall p :: p in a.changedPaths ==> p == "$.setup.features" || GatePath(p))
    && Features(desired) <= REAPPLY
  }

  datatype Verdict = Rejected | ToQualifying | ToReadyToConfigure

  /** Where an accepted rollout sends the enrollment. */
  function Decide(current: Json, desired: Json, currentChecks: seq<string>, desiredChecks: seq<string>): Verdict {
    var a := Assess(current, desired, currentChecks, desiredChecks);
    if a.rerunCommissioning || (a.reconfigure && !ReapplySupported(a, current, desired)) then Rejected
    else if a.reconfigure then ToReadyToConfigure
    else ToQualifying
  }

  // ---- From listed paths back to places ----

  function Suffix(place: Place): string {
    if place == [] then "" else "." + place[0] + Suffix(place[1..])
  }

  lemma {:induction false} RenderIsSuffix(path: string, place: Place)
    ensures Rendered(path, place) == path + Suffix(place)
    decreases |place|
  {
    if place != [] {
      RenderIsSuffix(Child(path, place[0]), place[1..]);
      assert path + ("." + place[0] + Suffix(place[1..])) == (path + "." + place[0]) + Suffix(place[1..]);
    }
  }

  lemma SuffixStart(place: Place)
    ensures place == [] <==> Suffix(place) == ""
    ensures place != [] ==> Suffix(place)[0] == '.'
  {
  }

  /** A rendered path begins with a dot-free word exactly when its first key does. */
  lemma HeadWord(place: Place, word: string)
    requires place != [] && '.' !in word
    ensures StartsWith(Suffix(place), "." + word) <==> StartsWith(place[0], word)
  {
    var key, rest := place[0], Suffix(place[1..]);
    var text := key + rest;
    assert Suffix(place) == "." + text;
    SuffixStart(place[1..]);
    assert StartsWith("." + text, "." + word) <==> StartsWith(text, word) by {
      assert ("." + text)[1..] == text && ("." + word)[1..] == word;
      if StartsWith(text, word) {
        assert ("." + text)[..1 + |word|] == "." + text[..|word|];
      }
      if StartsWith("." + text, "." + word) {
        assert text[..|word|] == ("." + text)[1..1 + |word|] == word;
      }
    }
    if StartsWith(text, word) {
      assert forall i :: 0 <= i < |word| ==> text[i] == text[..|word|][i] == word[i];
      assert |key| < |text| ==> text[|key|] == '.';
      assert key[..|word|] == text[..|word|];
    }
    if StartsWith(key, word) {
      assert text[..|word|] == key[..|word|];
    }
  }

  predicate GateKey(key: string) {
    StartsWith(key, "qualification") || StartsWith(key, "commissioning")
  }

  lemma GatePlace(place: Place)
    requires place != []
    ensures GatePath(Rendered("$", place)) <==> GateKey(place[0])
  {
    RootWord(place, "qualification", "$.qualification");
    RootWord(place, "commissioning", "$.commissioning");
  }

  lemma RootWord(place: Place, word: string, path: string)
    requires place != [] && '.' !in word && path == "$" + ("." + word)
    ensures StartsWith(Rendered("$", place), path) <==> StartsWith(place[0], word)
  {
    RenderIsSuffix("$", place);
    HeadWord(place, word);
    Shift(Suffix(place), "." + word);
  }

  lemma Shift(s: string, w: string)
    ensures StartsWith("$" + s, "$" + w) <==> StartsWith(s, w)
  {
    if |w| <= |s| {
      assert ("$" + s)[..1 + |w|] == "$" + s[..|w|];
      assert ("$" + s[..|w|])[1..] == s[..|w|] && ("$" + w)[1..] == w;
    }
  }

  // ---- What an accepted rollout changes ----

  ghost predicate SameField(a: Json, b: Json, key: string) {
    Field(a, key) == Field(b, key)
  }

  lemma {:induction false} RenderedPlace(path: string, places: seq<Place>, place: Place)
    requires place in places
    ensures Rendered(path, place) in RenderAll(path, places)
  {
    if place != places[0] {
      RenderedPlace(path, places[1..], place);
    }
  }

  lemma {:induction false} PlaceOfRendered(path: string, places: seq<Place>, text: string) returns (place: Place)
    requires text in RenderAll(path, places)
    ensures place in places && Rendered(path, place) == text
  {
    if text == Rendered(path, places[0]) {
      place := places[0];
    } else {
      place := PlaceOfRendered(path, places[1..], text);
    }
  }

  /** Every differing field shows up as a listed place below it; and if both sides hold it, as the places of its own
      difference. */
  lemma {:induction false} DifferingFieldListed(current: Json, desired: Json, keys: seq<string>, used: nat, key: string)
    returns (below: nat)
    requires current.Obj? && desired.Obj? && key in keys && !DiffKeys(current, desired, keys, used).truncated
    ensures Field(current, key).Some? && Field(desired, key).Some? ==>
              var child := Diff(current.fields[key], desired.fields[key], below);
              !child.truncated && forall q :: q in child.places ==>
                  [key] + q in DiffKeys(current, desired, keys, used).places
    ensures !(Field(current, key).Some? && Field(desired, key).Some?) ==>
              [key] in DiffKeys(current, desired, keys, used).places
    decreases |keys|
  {
    var here := DiffKey(current, desired, keys[0], used);
    if keys[0] == key {
      below := used;
      if key in current.fields && key in desired.fields {
        UnderLength(key, Diff(current.fields[key], desired.fields[key], used).places);
        assert forall i :: 0 <= i < |here.places| ==> here.places[i] in here.places;
      }
    } else {
      below := DifferingFieldListed(current, desired, keys[1..], used + |here.places|, key);
    }
  }

  lemma ListedBelow(current: Json, desired: Json, used: nat, key: string) returns (place: Place)
    requires current.Obj? && desired.Obj? && !Diff(current, desired, used).truncated
    requires !SameField(current, desired, key)
    ensures place in Diff(current, desired, used).places && place != [] && place[0] == key
  {
    assert used < LIMIT;
    var keys := Sorted(current.fields.Keys + desired.fields.Keys);
    var below := DifferingFieldListed(current, desired, keys, used, key);
    if key in current.fields && key in desired.fields {
      var child := Diff(current.fields[key], desired.fields[key], below);
      assert below < LIMIT;
      DiffBounded(current.fields[key], desired.fields[key], below);
      assert child.places[0] in child.places;
      place := [key] + child.places[0];
    } else {
      place := [key];
    }
  }

  /** A listed place of two objects lies below a field that differs. */
  lemma ListedFieldDiffers(current: Json, desired: Json, used: nat, place: Place)
    requires current.Obj? && desired.Obj? && place in Diff(current, desired, used).places
    ensures place != [] && !SameField(current, desired, place[0])
  {
    ListedPlacesDiffer(current, desired, used, place);
    PlacesHaveKeys(current, desired, Sorted(current.fields.Keys + desired.fields.Keys), used, place);
  }

  /** A listed place below a field that both sides hold is a listed place of that field. */
  lemma ListedInField(current: Json, desired: Json, used: nat, place: Place) returns (below: nat)
    requires current.Obj? && desired.Obj? && place in Diff(current, desired, used).places
    ensures place != []
    ensures if Field(current, place[0]).Some? && Field(desired, place[0]).Some?
            then place[1..] in Diff(current.fields[place[0]], desired.fields[place[0]], below).places
            else place == [place[0]]
  {
    below := ListedInKeys(current, desired, Sorted(current.fields.Keys + desired.fields.Keys), used, place);
  }

  lemma {:induction false} ListedInKeys(current: Json, desired: Json, keys: seq<string>, used: nat,
                                        place: Place) returns (below: nat)
    requires current.Obj? && desired.Obj? && place in DiffKeys(current, desired, keys, used).places
    ensures place != []
    ensures if Field(current, place[0]).Some? && Field(desired, place[0]).Some?
            then place[1..] in Diff(current.fields[place[0]], desired.fields[place[0]], below).places
            else place == [place[0]]
    decreases |keys|
  {
    var key := keys[0];
    var here := DiffKey(current, desired, key, used);
    if place in here.places {
      below := used;
      if key in current.fields && key in desired.fields {
        var child := Diff(current.fields[key], desired.fields[key], used).places;
        UnderLength(key, child);
        var i :| 0 <= i < |child| && place == [key] + child[i];
        assert place[1..] == child[i];
      }
    } else {
      below := ListedInKeys(current, desired, keys[1..], used + |here.places|, place);
    }
  }

  predicate BothObjects(current: Json, desired: Json, key: string) {
    Field(current, key).Some? && Field(desired, key).Some? && Field(current, key).value.Obj?
    && Field(desired, key).value.Obj?
  }

  /** Below a field that is not an object on both sides nothing is listed but the field itself. */
  lemma LeafField(current: Json, desired: Json, used: nat, place: Place)
    requires current.Obj? && desired.Obj? && place in Diff(current, desired, used).places
    ensures place != []
    ensures !BothObjects(current, desired, place[0]) ==> place == [place[0]]
  {
    var below := ListedInField(current, desired, used, place);
    if Field(current, place[0]).Some? && Field(desired, place[0]).Some? && !BothObjects(current, desired, place[0]) {
      LeafPlaces(current.fields[place[0]], desired.fields[place[0]], below, place[1..]);
      assert place == [place[0]] + place[1..];
    }
  }

  lemma LeafPlaces(a: Json, b: Json, used: nat, place: Place)
    requires !(a.Obj? && b.Obj?) && place in Diff(a, b, used).places
    ensures place == []
  {
  }

  lemma {:induction false} PlacesHaveKeys(current: Json, desired: Json, keys: seq<string>, used: nat, place: Place)
    requires current.Obj? && desired.Obj? && place in DiffKeys(current, desired, keys, used).places
    ensures place != []
    decreases |keys|
  {
    var here := DiffKey(current, desired, keys[0], used);
    if place in here.places {
      if keys[0] in current.fields && keys[0] in desired.fields {
        UnderLength(keys[0], Diff(current.fields[keys[0]], desired.fields[keys[0]], used).places);
      }
    } else {
      PlacesHaveKeys(current, desired, keys[1..], used + |here.places|, place);
    }
  }

  ghost predicate OnlyGatesDiffer(current: Json, desired: Json) {
    forall k :: !GateKey(k) ==> SameField(current, desired, k)
  }

  lemma NonGateDifferenceShown(current: Json, desired: Json, key: string) returns (path: string)
    requires current.Obj? && desired.Obj? && !Diff(current, desired, 0).truncated
    requires !GateKey(key) && !SameField(current, desired, key)
    ensures path in Shown(Diff(current, desired, 0)) && !GatePath(path)
    ensures path == "$.setup.features" ==> key == "setup" || key == "setup.features"
  {
    var place := ListedBelow(current, desired, 0, key);
    path := Rendered("$", place);
    RenderedPlace("$", Diff(current, desired, 0).places, place);
    GatePlace(place);
    if path == "$.setup.features" {
      SetupPlace(place);
    }
  }

  lemma ShownPathsAreGates(current: Json, desired: Json)
    requires current.Obj? && desired.Obj? && OnlyGatesDiffer(current, desired)
    ensures forall p :: p in Shown(Diff(current, desired, 0)) ==> GatePath(p)
  {
    forall p | p in Shown(Diff(current, desired, 0)) ensures GatePath(p) {
      var place := PlaceOfRendered("$", Diff(current, desired, 0).places, p);
      ListedFieldDiffers(current, desired, 0, place);
      GatePlace(place);
    }
  }

  lemma FieldAt(j: Json, key: string)
    ensures Field(j, key) == At(j, [key])
  {
    var keys := [key];
    assert keys[0] == key && keys[1..] == [];
    if Field(j, key).Some? {
      assert At(j, keys) == At(j.fields[key], keys[1..]);
    }
  }

  /** Besides the sections whose names begin with a gate's and some others, the two documents say the same. */
  ghost predicate SameBesides(current: Json, desired: Json, besides: set<string>) {
    forall k :: !StartsWith(k, "qualification") && !StartsWith(k, "commissioning") && k !in besides ==>
                  At(current, [k]) == At(desired, [k])
  }

  lemma OnlyGatesExactly(current: Json, desired: Json)
    ensures OnlyGatesDiffer(current, desired) <==> SameBesides(current, desired, {})
  {
    forall k ensures SameField(current, desired, k) <==> At(current, [k]) == At(desired, [k]) {
      FieldAt(current, k);
      FieldAt(desired, k);
    }
  }

  /** A rollout goes straight to qualification exactly when the whole difference is known, only gate sections
      differ, and the commissioning checks stay or are dropped altogether. */
  lemma QualifyingExactly(current: Json, desired: Json, currentChecks: seq<string>, desiredChecks: seq<string>)
    requires current.Obj? && desired.Obj?
    ensures Decide(current, desired, currentChecks, desiredChecks) == ToQualifying
            <==> !Diff(current, desired, 0).truncated && SameBesides(current, desired, {})
                 && (desiredChecks == [] || currentChecks == desiredChecks)
  {
    OnlyGatesExactly(current, desired);
    if !Diff(current, desired, 0).truncated {
      if OnlyGatesDiffer(current, desired) {
        ShownPathsAreGates(current, desired);
      } else {
        var key :| !GateKey(key) && !SameField(current, desired, key);
        var path := NonGateDifferenceShown(current, desired, key);
      }
    }
  }

  // ---- Rollouts that reapply setup features ----

  lemma CutSetupFeatures(key: string, rest: string)
    requires key + rest == "setup.features" && (rest == "" || rest[0] == '.')
    ensures (rest == "" && key == "setup.features") || (rest == ".features" && key == "setup")
  {
    var whole := "setup.features";
    if rest != "" {
      assert whole[|key|] == rest[0];
      assert |key| == 5;
      assert key == whole[..5] && rest == whole[5..];
    } else {
      assert key == key + rest;
    }
  }

  lemma CutFeatures(key: string, rest: string)
    requires key + rest == "features" && (rest == "" || rest[0] == '.')
    ensures rest == "" && key == "features"
  {
    assert '.' !in "features";
    assert forall c :: c in rest ==> c in key + rest;
    assert key == key + rest;
  }

  lemma CancelPrefix(p: string, a: string, b: string)
    requires p + a == p + b
    ensures a == b
  {
    assert a == (p + a)[|p|..] == b;
  }

  lemma SetupPlace(place: Place)
    requires place != [] && Rendered("$", place) == "$.setup.features"
    ensures place == ["setup", "features"] || place == ["setup.features"]
  {
    RenderIsSuffix("$", place);
    SuffixStart(place[1..]);
    CutSetupPath(place[0], Suffix(place[1..]));
    assert place == [place[0]] + place[1..];
    if place[1..] != [] {
      SetupFeaturesPlace(place[1..]);
    }
  }

  lemma CutSetupPath(key: string, rest: string)
    requires "$" + ("." + key + rest) == "$.setup.features" && (rest == "" || rest[0] == '.')
    ensures (rest == "" && key == "setup.features") || (rest == ".features" && key == "setup")
  {
    assert "$" + ("." + key + rest) == "$." + (key + rest);
    assert "$." + "setup.features" == "$.setup.features";
    CancelPrefix("$.", key + rest, "setup.features");
    CutSetupFeatures(key, rest);
  }

  lemma SetupFeaturesPlace(place: Place)
    requires place != [] && Suffix(place) == ".features"
    ensures place == ["features"]
  {
    SuffixStart(place[1..]);
    var key, rest := place[0], Suffix(place[1..]);
    assert "." + key + rest == "." + (key + rest);
    assert "." + "features" == ".features";
    CancelPrefix(".", key + rest, "features");
    CutFeatures(key, rest);
    assert place == [key] + place[1..];
  }

  ghost predicate OnlyFeaturesDiffer(a: Option<Json>, b: Option<Json>) {
    && a.Some? && b.Some? && a.value.Obj? && b.value.Obj?
    && forall s :: s != "features" ==> SameField(a.value, b.value, s)
  }

  lemma SetupPathsDiffer()
    ensures Rendered("$", ["setup"]) != "$.setup.features" && !GatePath(Rendered("$", ["setup"]))
  {
    GatePlace(["setup"]);
    if Rendered("$", ["setup"]) == "$.setup.features" {
      SetupPlace(["setup"]);
    }
  }

  lemma StraySetupDifferenceShown(current: Json, desired: Json) returns (path: string)
    requires current.Obj? && desired.Obj? && !Diff(current, desired, 0).truncated
    requires !SameField(current, desired, "setup")
    requires !OnlyFeaturesDiffer(Field(current, "setup"), Field(desired, "setup"))
    ensures path in Shown(Diff(current, desired, 0)) && !GatePath(path) && path != "$.setup.features"
  {
    var places := Diff(current, desired, 0).places;
    var keys := Sorted(current.fields.Keys + desired.fields.Keys);
    var below := DifferingFieldListed(current, desired, keys, 0, "setup");
    var place: Place := ["setup"];
    SetupPathsDiffer();
    if Field(current, "setup").Some? && Field(desired, "setup").Some? {
      var a, b := current.fields["setup"], desired.fields["setup"];
      if a.Obj? && b.Obj? {
        var s :| s != "features" && !SameField(a, b, s);
        var q := ListedBelow(a, b, below, s);
        place := ["setup"] + q;
      } else {
        assert Diff(a, b, below).places == [[]];
        assert [] in Diff(a, b, below).places;
        assert ["setup"] + [] == ["setup"];
      }
    }
    assert place in places;
    path := Rendered("$", place);
    RenderedPlace("$", places, place);
    GatePlace(place);
    assert !GateKey("setup") by { SetupPathsDiffer(); GatePlace(["setup"]); }
    if path == "$.setup.features" {
      SetupPlace(place);
    }
  }

  /** The only differences besides gate sections are the feature list itself and, as a leaf, a top-level key spelled
      `setup.features`. */
  ghost predicate OnlyFeatureListDiffers(current: Json, desired: Json) {
    && OnlyThoseDiffer(current, desired)
    && OnlyFeaturesDiffer(Field(current, "setup"), Field(desired, "setup"))
    && (SameField(current, desired, "setup.features") || !BothObjects(current, desired, "setup.features"))
  }

  lemma DottedIsNoGate()
    ensures !GateKey("setup") && !GateKey("setup.features")
  {
    assert "setup"[0] != "qualification"[0] && "setup"[0] != "commissioning"[0];
    assert "setup.features"[0] != "qualification"[0] && "setup.features"[0] != "commissioning"[0];
  }

  /** A difference inside a top-level key spelled `setup.features` is shown as a path below it. */
  lemma DottedObjectShown(current: Json, desired: Json) returns (path: string)
    requires current.Obj? && desired.Obj? && !Diff(current, desired, 0).truncated
    requires !SameField(current, desired, "setup.features")
    requires BothObjects(current, desired, "setup.features")
    ensures path in Shown(Diff(current, desired, 0)) && !GatePath(path) && path != "$.setup.features"
  {
    DottedIsNoGate();
    var place := ListedBelow(current, desired, 0, "setup.features");
    var below := ListedInField(current, desired, 0, place);
    PlacesHaveKeysAt(current.fields["setup.features"], desired.fields["setup.features"], below, place[1..]);
    path := Rendered("$", place);
    RenderedPlace("$", Diff(current, desired, 0).places, place);
    GatePlace(place);
    if path == "$.setup.features" {
      SetupPlace(place);
    }
  }

  lemma PlacesHaveKeysAt(current: Json, desired: Json, used: nat, place: Place)
    requires current.Obj? && desired.Obj? && place in Diff(current, desired, used).places
    ensures place != []
  {
    PlacesHaveKeys(current, desired, Sorted(current.fields.Keys + desired.fields.Keys), used, place);
  }

  /** What a rollout that reconfigures needs. */
  lemma ReconfigureNeeds(current: Json, desired: Json, currentChecks: seq<string>, desiredChecks: seq<string>)
    requires current.Obj? && desired.Obj?
    requires Decide(current, desired, currentChecks, desiredChecks) == ToReadyToConfigure
    ensures OnlyFeatureListDiffers(current, desired)
    ensures Features(desired) <= REAPPLY && Features(desired) != Features(current) && !WantsReboot(desired)
    ensures !Diff(current, desired, 0).truncated && (desiredChecks == [] || currentChecks == desiredChecks)
  {
    forall k | !GateKey(k) && k != "setup" && k != "setup.features" ensures SameField(current, desired, k) {
      if !SameField(current, desired, k) {
        var path := NonGateDifferenceShown(current, desired, k);
      }
    }
    assert !SameField(current, desired, "setup");
    if !OnlyFeaturesDiffer(Field(current, "setup"), Field(desired, "setup")) {
      var path := StraySetupDifferenceShown(current, desired);
    }
    if !SameField(current, desired, "setup.features") && BothObjects(current, desired, "setup.features") {
      var path := DottedObjectShown(current, desired);
    }
  }

  lemma FeaturePaths()
    ensures Rendered("$", ["setup", "features"]) == "$.setup.features"
    ensures Rendered("$", ["setup.features"]) == "$.setup.features"
  {
    RenderIsSuffix("$", ["setup", "features"]);
    RenderIsSuffix("$", ["setup.features"]);
    var one, two: Place := ["setup.features"], ["setup", "features"];
    assert one[1..] == [] && two[1..] == ["features"] && two[1..][1..] == [];
    assert Suffix(one) == ".setup.features" && Suffix(two[1..]) == ".features";
    assert Suffix(two) == "." + "setup" + ".features";
    assert "." + "setup" + ".features" == ".setup.features";
    assert "$" + ".setup.features" == "$.setup.features";
  }

  /** A listed place inside the setup section is its feature list. */
  lemma SetupPlaceIsFeatures(current: Json, desired: Json, place: Place)
    requires current.Obj? && desired.Obj? && place in Diff(current, desired, 0).places && place != []
    requires place[0] == "setup"
    requires OnlyFeaturesDiffer(Field(current, "setup"), Field(desired, "setup"))
    requires Features(current) != Features(desired)
    ensures place == ["setup", "features"]
  {
    var a, b := current.fields["setup"], desired.fields["setup"];
    var below := ListedInField(current, desired, 0, place);
    ListedFieldDiffers(a, b, below, place[1..]);
    LeafField(a, b, below, place[1..]);
    assert place == [place[0]] + place[1..];
  }

  lemma PathsAreFeatures(current: Json, desired: Json, p: string)
    requires current.Obj? && desired.Obj? && OnlyFeatureListDiffers(current, desired)
    requires Features(current) != Features(desired)
    requires p in Shown(Diff(current, desired, 0))
    ensures p == "$.setup.features" || GatePath(p)
  {
    var place := PlaceOfRendered("$", Diff(current, desired, 0).places, p);
    ListedFieldDiffers(current, desired, 0, place);
    FeaturePaths();
    if GateKey(place[0]) {
      GatePlace(place);
    } else if place[0] == "setup" {
      SetupPlaceIsFeatures(current, desired, place);
    } else {
      assert place[0] == "setup.features";
      LeafField(current, desired, 0, place);
    }
  }

  lemma SetupAt(profile: Json, key: string)
    ensures Setup(profile, key) == At(profile, ["setup", key])
  {
    var keys, last := ["setup", key], [key];
    assert keys[0] == "setup" && keys[1..] == last && last[0] == key && last[1..] == [];
    if Field(profile, "setup").Some? {
      var setup := Field(profile, "setup").value;
      assert At(profile, keys) == At(setup, last);
      assert Field(setup, key).Some? ==> At(setup, last) == At(setup.fields[key], last[1..]);
    }
  }

  /** Both documents have a setup object, and the two say the same but for the features. */
  ghost predicate SameSetup(current: Json, desired: Json) {
    var a, b := At(current, ["setup"]), At(desired, ["setup"]);
    && a.Some? && b.Some? && a.value.Obj? && b.value.Obj?
    && forall s :: s != "features" ==> At(current, ["setup", s]) == At(desired, ["setup", s])
  }

  /** A top-level key spelled `setup.features` is the same, or not an object on both sides. */
  ghost predicate SameOrLeaf(current: Json, desired: Json) {
    var a, b := At(current, ["setup.features"]), At(desired, ["setup.features"]);
    a == b || a.None? || b.None? || !a.value.Obj? || !b.value.Obj?
  }

  lemma SameFieldAt(current: Json, desired: Json, key: string)
    ensures SameField(current, desired, key) <==> At(current, [key]) == At(desired, [key])
  {
    FieldAt(current, key);
    FieldAt(desired, key);
  }

  lemma SameSetupExactly(current: Json, desired: Json)
    ensures OnlyFeaturesDiffer(Field(current, "setup"), Field(desired, "setup")) <==> SameSetup(current, desired)
  {
    FieldAt(current, "setup");
    FieldAt(desired, "setup");
    if Field(current, "setup").Some? && Field(desired, "setup").Some? {
      var a, b := Field(current, "setup").value, Field(desired, "setup").value;
      forall s ensures SameField(a, b, s) <==> At(current, ["setup", s]) == At(desired, ["setup", s]) {
        SetupAt(current, s);
        SetupAt(desired, s);
      }
    }
  }

  lemma SameOrLeafExactly(current: Json, desired: Json)
    ensures SameField(current, desired, "setup.features") || !BothObjects(current, desired, "setup.features") <==>
              SameOrLeaf(current, desired)
  {
    FieldAt(current, "setup.features");
    FieldAt(desired, "setup.features");
  }

  ghost predicate OnlyThoseDiffer(current: Json, desired: Json) {
    forall k :: !GateKey(k) && k != "setup" && k != "setup.features" ==> SameField(current, desired, k)
  }

  lemma SameBesidesExactly(current: Json, desired: Json)
    ensures OnlyThoseDiffer(current, desired) <==> SameBesides(current, desired, {"setup", "setup.features"})
  {
    forall k ensures SameField(current, desired, k) <==> At(current, [k]) == At(desired, [k]) {
      SameFieldAt(current, desired, k);
    }
  }

  /** The profile lists this feature at `setup.features`. */
  predicate ListsFeature(profile: Json, feature: string) {
    var listed := At(profile, ["setup", "features"]);
    listed.Some? && listed.value.Arr? && Str(feature) in listed.value.items
  }

  lemma FeaturesExactly(profile: Json)
    ensures forall f :: f in Features(profile) <==> ListsFeature(profile, f)
  {
    SetupAt(profile, "features");
  }

  /** Only signed features are listed. */
  ghost predicate SignedFeatures(desired: Json) {
    forall f :: ListsFeature(desired, f) ==> f == "nvidia_dcgm" || f == "system_observation"
  }

  ghost predicate ChangesFeatures(current: Json, desired: Json) {
    exists f :: ListsFeature(desired, f) != ListsFeature(current, f)
  }

  lemma SignedExactly(desired: Json)
    ensures SignedFeatures(desired) <==> Features(desired) <= REAPPLY
  {
    FeaturesExactly(desired);
  }

  /** A rollout goes through a reapplied setup exactly when the whole difference is known, it is the feature list
      and gate sections alone, the new features are all signed ones and do change, no reboot is wanted, and the
      commissioning checks stay or are dropped altogether. */
  lemma ReconfigureExactly(current: Json, desired: Json, currentChecks: seq<string>, desiredChecks: seq<string>)
    requires current.Obj? && desired.Obj?
    ensures Decide(current, desired, currentChecks, desiredChecks) == ToReadyToConfigure <==>
            && !Diff(current, desired, 0).truncated && OnlyFeatures(current, desired)
            && SignedFeatures(desired) && ChangesFeatures(current, desired)
            && At(desired, ["setup", "requires_reboot"]) != Some(Bool(true))
            && (desiredChecks == [] || currentChecks == desiredChecks)
  {
    SetupAt(desired, "requires_reboot");
    SignedExactly(desired);
    FeaturesDiffer(current, desired);
    OnlyFeaturesExactly(current, desired);
    ReconfigureByFeatures(current, desired, currentChecks, desiredChecks);
  }

  ghost predicate OnlyFeatures(current: Json, desired: Json) {
    && SameBesides(current, desired, {"setup", "setup.features"}) && SameSetup(current, desired)
    && SameOrLeaf(current, desired)
  }

  lemma OnlyFeaturesExactly(current: Json, desired: Json)
    ensures OnlyFeatureListDiffers(current, desired) <==> OnlyFeatures(current, desired)
  {
    SameBesidesExactly(current, desired);
    SameSetupExactly(current, desired);
    SameOrLeafExactly(current, desired);
  }

  lemma FeaturesDiffer(current: Json, desired: Json)
    ensures Features(desired) != Features(current) <==> ChangesFeatures(current, desired)
  {
    FeaturesExactly(current);
    FeaturesExactly(desired);
    if forall f :: ListsFeature(desired, f) == ListsFeature(current, f) {
      assert forall f :: f in Features(desired) <==> f in Features(current);
    }
  }

  lemma ReconfigureByFeatures(current: Json, desired: Json, currentChecks: seq<string>, desiredChecks: seq<string>)
    requires current.Obj? && desired.Obj?
    ensures Decide(current, desired, currentChecks, desiredChecks) == ToReadyToConfigure <==>
            && !Diff(current, desired, 0).truncated && OnlyFeatureListDiffers(current, desired)
            && Features(desired) <= REAPPLY && Features(desired) != Features(current) && !WantsReboot(desired)
            && (desiredChecks == [] || currentChecks == desiredChecks)
  {
    if Decide(current, desired, currentChecks, desiredChecks) == ToReadyToConfigure {
      ReconfigureNeeds(current, desired, currentChecks, desiredChecks);
    }
    if !Diff(current, desired, 0).truncated && OnlyFeatureListDiffers(current, desired)
    && Features(desired) != Features(current) {
      forall p | p in Shown(Diff(current, desired, 0)) ensures p == "$.setup.features" || GatePath(p) {
        PathsAreFeatures(current, desired, p);
      }
      DottedIsNoGate();
      assert !SameField(current, desired, "setup");
      var path := NonGateDifferenceShown(current, desired, "setup");
    }
  }
}

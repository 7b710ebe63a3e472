/** The checks that profiles require of a gate, layer by layer and composed: `required_checks`. */
module ProfileChecks {
  import opened Text
  import opened Profiles
  import opened ProfilePlaces

  /** The checks a gate section declares; `None` when the declaration is malformed. */
  ghost function SectionChecks(section: Json): Option<set<string>> {
    if !section.Obj? then None
    else if "required_checks" !in section.fields then Some({})
    else ItemChecks(section.fields["required_checks"])
  }

  ghost function ItemChecks(checks: Json): Option<set<string>> {
    if checks.Arr? && forall c :: c in checks.items ==> c.Str? && Canonical(c.s)
    then Some(set c | c in checks.items && c.Str? :: c.s)
    else None
  }

  /** The checks a profile declares for a gate. */
  ghost function Declared(profile: Json, gate: string): Option<set<string>> {
    if !profile.Obj? || gate !in profile.fields then Some({}) else SectionChecks(profile.fields[gate])
  }

  /** The list at `required_checks` of the gate's section. */
  function ListedChecks(profile: Json, gate: string): Option<Json> {
    At(profile, [gate, "required_checks"])
  }

  /** The section, if there is one, is an object, and its list, if there is one, is an array of canonical ids. */
  predicate WellDeclared(profile: Json, gate: string) {
    var section, checks := At(profile, [gate]), ListedChecks(profile, gate);
    && (section.Some? ==> section.value.Obj?)
    && (checks.Some? ==> checks.value.Arr? && forall c :: c in checks.value.items ==> c.Str? && Canonical(c.s))
  }

  predicate Lists(profile: Json, gate: string, check: string) {
    var checks := ListedChecks(profile, gate);
    checks.Some? && checks.value.Arr? && Str(check) in checks.value.items
  }

  lemma DeclaredExactly(profile: Json, gate: string)
    ensures Declared(profile, gate).Some? <==> WellDeclared(profile, gate)
    ensures Declared(profile, gate).Some? ==>
              forall c :: c in Declared(profile, gate).value <==> Lists(profile, gate, c)
  {
    var one, two := [gate], [gate, "required_checks"];
    var last := two[1..];
    assert one[1..] == [] && last == ["required_checks"] && last[1..] == [];
    if profile.Obj? && gate in profile.fields {
      var section := profile.fields[gate];
      assert At(profile, one) == At(section, one[1..]) == Some(section);
      assert At(profile, two) == At(section, last);
      if section.Obj? && last[0] in section.fields {
        assert At(section, last) == At(section.fields[last[0]], last[1..]);
      }
    }
  }

  /** `required_checks`: the listed checks, sorted and each once; none exactly when the declaration is malformed. */
  method RequiredChecks(profile: Json, gate: string) returns (r: Option<seq<string>>)
    ensures r.Some? <==> WellDeclared(profile, gate)
    ensures r.Some? ==> StrictlySorted(r.value) && forall c :: c in r.value <==> Lists(profile, gate, c)
    ensures r.Some? <==> Declared(profile, gate).Some?
    ensures r.Some? ==> forall c :: c in r.value <==> c in Declared(profile, gate).value
  {
    DeclaredExactly(profile, gate);
    if !profile.Obj? || gate !in profile.fields {
      return Some([]);
    }
    var section := profile.fields[gate];
    if !section.Obj? {
      return None;
    }
    if "required_checks" !in section.fields {
      return Some([]);
    }
    var checks := section.fields["required_checks"];
    if !checks.Arr? {
      return None;
    }
    var result: set<string> := {};
    for i := 0 to |checks.items|
      invariant forall c :: c in checks.items[..i] ==> c.Str? && Canonical(c.s)
      invariant result == set c | c in checks.items[..i] && c.Str? :: c.s
    {
      var check := checks.items[i];
      if !check.Str? || !Canonical(check.s) {
        return None;
      }
      assert checks.items[..i + 1] == checks.items[..i] + [check];
      result := result + {check.s};
    }
    assert checks.items[..|checks.items|] == checks.items;
    r := Some(Sorted(result));
  }

  predicate Gate(gate: string) {
    gate == "commissioning" || gate == "qualification"
  }

  lemma GatePathIsUnion(gate: string)
    requires Gate(gate)
    ensures UnionPath(Child(Child("$", gate), "required_checks"))
  {
    assert Child("$", "commissioning") == "$.commissioning";
    assert Child("$", "qualification") == "$.qualification";
    assert Child("$.commissioning", "required_checks") == "$.commissioning.required_checks";
    assert Child("$.qualification", "required_checks") == "$.qualification.required_checks";
  }

  lemma MergedItems(a: Json, b: Json, path: string)
    requires Compatible(a, b) && UnionPath(path) && ItemChecks(Merge(a, b, path)).Some?
    ensures ItemChecks(a).Some? && ItemChecks(b).Some?
    ensures ItemChecks(Merge(a, b, path)).value == ItemChecks(a).value + ItemChecks(b).value
  {
    UnionItemsContents(a.items, b.items);
  }

  lemma MergedSections(a: Json, b: Json, path: string)
    requires Compatible(a, b) && UnionPath(Child(path, "required_checks")) && SectionChecks(Merge(a, b, path)).Some?
    ensures SectionChecks(a).Some? && SectionChecks(b).Some?
    ensures SectionChecks(Merge(a, b, path)).value == SectionChecks(a).value + SectionChecks(b).value
  {
    var key := "required_checks";
    if key in a.fields && key in b.fields {
      MergedItems(a.fields[key], b.fields[key], Child(path, key));
    }
  }

  lemma MergedChecks(a: Json, b: Json, gate: string)
    requires a.Obj? && b.Obj? && Compatible(a, b) && Gate(gate)
    requires Declared(Merge(a, b, "$"), gate).Some?
    ensures Declared(a, gate).Some? && Declared(b, gate).Some?
    ensures Declared(Merge(a, b, "$"), gate).value == Declared(a, gate).value + Declared(b, gate).value
  {
    if gate in a.fields && gate in b.fields {
      GatePathIsUnion(gate);
      MergedSections(a.fields[gate], b.fields[gate], Child("$", gate));
    }
  }

  ghost function AllDeclared(specs: seq<Json>, gate: string): set<string> {
    set i, c | 0 <= i < |specs| && Declared(specs[i], gate).Some? && c in Declared(specs[i], gate).value :: c
  }

  /** A valid composed check list is the union of every layer's list: no layer can drop a check of another. */
  lemma {:induction false} ComposedChecksAreUnion(specs: seq<Json>, gate: string)
    requires Gate(gate) && Compose(specs).Some? && Declared(Compose(specs).value, gate).Some?
    ensures forall i :: 0 <= i < |specs| ==> Declared(specs[i], gate).Some?
    ensures Declared(Compose(specs).value, gate).value == AllDeclared(specs, gate)
  {
    if |specs| > 1 {
      var init, last := specs[..|specs| - 1], specs[|specs| - 1];
      var below := Compose(init);
      ComposeIsObject(init);
      MergedChecks(below.value, last, gate);
      ComposedChecksAreUnion(init, gate);
      assert forall i :: 0 <= i < |init| ==> specs[i] == init[i];
      assert AllDeclared(specs, gate) == AllDeclared(init, gate) + Declared(last, gate).value;
    }
  }

  lemma {:induction false} ComposeIsObject(specs: seq<Json>)
    requires Compose(specs).Some?
    ensures Compose(specs).value.Obj?
  {
    if |specs| > 1 {
      ComposeIsObject(specs[..|specs| - 1]);
    }
  }
}

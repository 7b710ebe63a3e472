/** What an accepted rollout writes: `enrollment_rollout_apply` and the commissioning checks an enrollment keeps. */
module RolloutWrites {
  import opened Text
  import opened Profiles
  import opened ProfileChecks
  import opened ProfileDiff
  import opened Enrollment
  import R = Rollout
  import G = Gates

  /** A written rollout never touches the commissioning status. It keeps the required commissioning checks if and
      only if the desired profile requires some, or none were required: otherwise they are dropped without a new
      commissioning run. */
  lemma ChecksKeptExactly(row: Row, expectedRevision: nat, expectedCluster: string, desired: Desired, now: int,
                          revision: nat)
    requires DecideRollout(row, expectedRevision, expectedCluster, desired, now, revision).Write?
    ensures var next := Apply(row, DecideRollout(row, expectedRevision, expectedCluster, desired, now, revision).patch);
            && next.commissioning == row.commissioning
            && (next.requiredCommissioning == row.requiredCommissioning <==>
                  desired.requiredCommissioning != [] || row.requiredCommissioning == [])
  {
  }

  lemma {:induction false} FewDifferences(current: Json, desired: Json, keys: seq<string>)
    requires current.Obj? && desired.Obj? && forall k :: k in keys ==> |FullKey(current, desired, k)| <= 1
    ensures |FullKeys(current, desired, keys)| <= |keys|
  {
    if keys != [] {
      FewDifferences(current, desired, keys[1..]);
    }
  }

  /** Dropping one of two sections is a difference of one place. */
  lemma DroppedSection(a: string, b: string, x: Json, y: Json)
    requires a != b
    ensures !Diff(Obj(map[a := x, b := y]), Obj(map[b := y]), 0).truncated
  {
    var current, desired := Obj(map[a := x, b := y]), Obj(map[b := y]);
    var keys := Sorted(current.fields.Keys + desired.fields.Keys);
    assert current.fields.Keys + desired.fields.Keys == {a, b};
    forall k | k in keys ensures |FullKey(current, desired, k)| <= 1 {
      assert k == a || k == b;
      if k == b {
        assert FullDiff(current.fields[b], desired.fields[b]) == [];
      }
    }
    FewDifferences(current, desired, keys);
    DiffIsCutExactly(current, desired, 0);
  }

  lemma DroppedCommissioning(section: Json, gates: Json, checks: seq<string>)
    ensures R.Decide(Obj(map["commissioning" := section, "qualification" := gates]),
                     Obj(map["qualification" := gates]), checks, [])
            == R.ToQualifying
  {
    var a, b := "commissioning", "qualification";
    var current, desired := Obj(map[a := section, b := gates]), Obj(map[b := gates]);
    assert a[0] != b[0];
    DroppedSection(a, b, section, gates);
    assert R.GateKey(a) && R.GateKey(b);
    forall k | !R.GateKey(k) ensures R.SameField(current, desired, k) {
      assert k != a && k != b;
    }
    R.QualifyingExactly(current, desired, checks, []);
  }

  /** The exception is real, and the handler accepts it: take any active enrollment that keeps the gate invariant,
      whose profile has just the two gate sections, and a cluster profile without the commissioning section. The
      rollout is written, the server goes to qualifying with its commissioning status as it was, and no
      commissioning check is required any more. */
  lemma ChecksCanBeDropped(row: Row, section: Json, gates: Json, checks: set<string>, cluster: string, now: int,
                           revision: nat)
    requires RowOk(row) && row.lifecycle == Active && row.clusterRevision != cluster && row.requiredCommissioning != []
    requires row.profile == Obj(map["commissioning" := section, "qualification" := gates])
    requires SectionChecks(gates) == Some(checks) && checks != {}
    ensures var desired := Desired(cluster, Obj(map["qualification" := gates]), [], Sorted(checks));
            var d := DecideRollout(row, row.revision, cluster, desired, now, revision);
            && Declared(desired.profile, "qualification") == Some(checks)
            && Declared(desired.profile, "commissioning") == Some({})
            && d.Write?
            && var next := Apply(row, d.patch);
               && next.lifecycle == Qualifying && next.commissioning == row.commissioning
               && G.GatePassed(next.commissioning)
               && next.requiredCommissioning == [] != row.requiredCommissioning
  {
    assert "commissioning"[0] != "qualification"[0];
    DroppedCommissioning(section, gates, row.requiredCommissioning);
    assert |Sorted(checks)| == |checks|;
  }
}

/** Run ids used again: when serialisation survives them, and when it cannot. */
module MergeIds {
  import opened Wrappers
  import opened Leases
  import opened MergeProtocol
  import opened MergeSafety
  import opened MergeTheorems
  import opened MergeOvertaking

  /** A recovery under way names `r` as the dead run. */
  predicate BeingRecovered(w: World, r: RunId) {
    exists q :: q in w.pcs && (w.pcs[q].Recovering? || w.pcs[q].Discarding?) && w.pcs[q].staleRun == r
  }

  /** No claim and no recovery starts under an id that a recovery under way names. An id that
      `new_run_id` has just minted never is one. */
  ghost predicate NoReuseInRecovery(cfg: Config, w: World, steps: seq<Step>)
    requires Runs(cfg, w, steps)
    decreases |steps|
  {
    steps == [] ||
    ((steps[0].By? && Starts(steps[0].act) ==> !BeingRecovered(w, steps[0].run)) &&
     NoReuseInRecovery(cfg, Apply(w, steps[0]), steps[1..]))
  }

  /** The dead run of a recovery under way holds at most the lease that is recovered. */
  ghost predicate RecoveryOk(w: World, r: RunId) {
    match PcOf(w, r)
    case Recovering(issue, staleRun) =>
      && !PcOf(w, staleRun).Recovering?
      && (forall f :: f in w.reg.files && w.reg.files[f].runId == staleRun ==> w.reg.files[f].issue == issue)
    case Discarding(staleRun) => Deposed(w, staleRun)
    case _ => true
  }

  ghost predicate RecoveriesOk(w: World) {
    LeasesOk(w) && forall r :: RecoveryOk(w, r)
  }

  lemma RecoveryGoesOn(w: World, r: RunId, act: Act, w': World, q: RunId)
    requires RecoveriesOk(w) && IdFacts(w, r, act, w') && (Starts(act) ==> !BeingRecovered(w, r))
    requires PcOf(w', q) == PcOf(w, q)
    ensures RecoveryOk(w', q)
  {
    assert RecoveryOk(w, q);
    match PcOf(w, q)
    case Recovering(issue, staleRun) =>
      assert staleRun == r ==> BeingRecovered(w, r);
      forall f | f in w'.reg.files && w'.reg.files[f].runId == staleRun
        ensures w'.reg.files[f].issue == issue
      {
        assert SameLease(w.reg.files, w'.reg.files, f) || NewLeaseOf(w, r, act, f, w'.reg.files);
      }
    case Discarding(staleRun) =>
      assert staleRun == r ==> BeingRecovered(w, r);
      DeposedStays(w, r, act, w', staleRun);
    case _ =>
  }

  lemma StealStartsRecovery(cfg: Config, w: World, r: RunId, issue: int, staleRun: RunId)
    requires w.history != [] && CanAct(cfg, w, r, Steal(issue, staleRun)) && LeasesOk(w)
    ensures RecoveryOk(Do(w, r, Steal(issue, staleRun)), r)
  {
    var holder := HolderOf(w.reg.files, issue).value;
    assert w.reg.files[holder].runId == staleRun && Named(w.reg.files, staleRun);
    assert forall f :: f in w.reg.files && w.reg.files[f].runId == staleRun ==> f == holder;
    assert staleRun != r;
  }

  lemma DropEndsTheDeadRun(cfg: Config, w: World, r: RunId)
    requires w.history != [] && CanAct(cfg, w, r, DropLease) && RecoveriesOk(w)
    ensures RecoveryOk(Do(w, r, DropLease), r)
  {
    assert RecoveryOk(w, r);
    var staleRun := PcOf(w, r).staleRun;
    var owner := OwnerFile(w.reg.files, PcOf(w, r).issue, staleRun);
    forall f | f in Leases.Dropped(w.reg, PcOf(w, r).issue, staleRun).files
      ensures w.reg.files[f].runId != staleRun
    {
      assert w.reg.files[f].runId == staleRun ==> owner == Some(f);
    }
    assert staleRun != r;
  }

  lemma ActKeepsRecoveries(cfg: Config, w: World, r: RunId, act: Act)
    requires w.history != [] && CanAct(cfg, w, r, act) && RecoveriesOk(w)
    requires Starts(act) ==> !BeingRecovered(w, r)
    ensures RecoveriesOk(Do(w, r, act))
  {
    ActKeepsLeasesOk(cfg, w, r, act);
    ActIdFacts(cfg, w, r, act);
    var w' := Do(w, r, act);
    if act.Steal? {
      StealStartsRecovery(cfg, w, r, act.issue, act.staleRun);
    } else if act.DropLease? {
      DropEndsTheDeadRun(cfg, w, r);
    }
    forall q ensures RecoveryOk(w', q) {
      if PcOf(w', q) == PcOf(w, q) {
        RecoveryGoesOn(w, r, act, w', q);
      }
    }
  }

  lemma EnvironmentKeepsRecoveries(w: World, s: Step)
    requires w.history != [] && RecoveriesOk(w) && !s.By?
    ensures RecoveriesOk(Apply(w, s))
  {
    forall q ensures RecoveryOk(Apply(w, s), q) {
      assert RecoveryOk(w, q);
    }
  }

  lemma {:induction false} NoReuseFreesNoLiveLane(cfg: Config, w: World, steps: seq<Step>)
    requires RecoveriesOk(w) && Runs(cfg, w, steps) && NoReuseInRecovery(cfg, w, steps)
    ensures NoLiveLaneFreed(cfg, w, steps)
    decreases |steps|
  {
    if steps != [] {
      if steps[0].By? {
        assert RecoveryOk(w, steps[0].run);
        ActKeepsRecoveries(cfg, w, steps[0].run, steps[0].act);
      } else {
        EnvironmentKeepsRecoveries(w, steps[0]);
      }
      NoReuseFreesNoLiveLane(cfg, Apply(w, steps[0]), steps[1..]);
    }
  }

  /** Main result on ids: merges are serialised over every run in which an id is used again
      only while no recovery under way names it. */
  lemma SerialisedUnlessReusedInRecovery(cfg: Config, w: World, steps: seq<Step>)
    requires Initial(w) && Runs(cfg, w, steps) && NoReuseInRecovery(cfg, w, steps)
    ensures var end := Final(cfg, w, steps);
            && (forall k :: 0 <= k < |end.landings| ==>
                  (end.landings[k].base == end.landings[k].parent <==> !end.landings[k].stray))
            && (forall j, k :: 0 <= j < k < |end.landings| && end.landings[j].base == end.landings[k].base ==>
                  end.landings[j].stray || end.landings[k].stray)
  {
    NoReuseFreesNoLiveLane(cfg, w, steps);
    MergesAreSerialised(cfg, w, steps);
  }

  // ---- and a live lane freed is enough to break it ---------------------------

  /** Two merges landed on one base, no stray revert on the way. */
  ghost predicate TwoOnOneBase(w: World) {
    exists j, k :: 0 <= j < k < |w.landings| && w.landings[j].base == w.landings[k].base
                   && !w.landings[j].stray && !w.landings[k].stray
  }

  lemma {:induction false} Further(cfg: Config, w: World, steps: seq<Step>, end: World, s: Step)
    requires Runs(cfg, w, steps) && Final(cfg, w, steps) == end && end.history != [] && Enabled(cfg, end, s)
    requires Apply(end, s).history != []
    ensures Runs(cfg, w, steps + [s]) && Final(cfg, w, steps + [s]) == Apply(end, s)
    decreases |steps|
  {
    if steps == [] {
      assert [] + [s] == [s] && [s][1..] == [];
    } else {
      Further(cfg, Apply(w, steps[0]), steps[1..], end, s);
      assert (steps + [s])[1..] == steps[1..] + [s];
    }
  }

  /** The hypothesis is needed: once a recovery frees the lane under a re-checked merge, any
      other run with a lease can land on the same base, and then the first lands too. */
  lemma FreedLiveLaneBreaksSerialisation(cfg: Config, w: World, r: RunId, other: RunId)
    requires Inv(w) && CanAct(cfg, w, r, FreeDeadLane)
    requires var q := PcOf(w, r).staleRun;
             Fenced(w, q) && PcOf(w, q).Rechecked? && q !in w.strays && other != q && Fenced(w, other)
    ensures exists steps :: Runs(cfg, Do(w, r, FreeDeadLane), steps)
                            && TwoOnOneBase(Final(cfg, Do(w, r, FreeDeadLane), steps))
  {
    var q := PcOf(w, r).staleRun;
    assert BaseOk(w, q) && LaneOk(w, q);
    var w1 := Do(w, r, FreeDeadLane);
    assert w1.reg.lane.None? && w1.reg.files == w.reg.files && PcOf(w1, q) == PcOf(w, q);
    ActKeepsLeasesOk(cfg, w, r, FreeDeadLane);
    var steps, end := OtherRunLands(cfg, w1, other, q);
    LandsOnTheOldBase(cfg, w1, other, q, steps, end);
  }

  lemma LandsOnTheOldBase(cfg: Config, w: World, other: RunId, q: RunId, steps: seq<Step>, end: World)
    requires w.history != [] && Goes(cfg, w, steps, end, q) && LandedAlone(w, end, other) && other != q
    requires Fenced(w, q) && PcOf(w, q).Rechecked? && q !in w.strays && PcOf(w, q).att.base == Master(w)
    ensures exists more :: Runs(cfg, w, more) && TwoOnOneBase(Final(cfg, w, more))
  {
    var land := By(q, Land(FreshSha(end.history), ShaKnown));
    Further(cfg, w, steps, end, land);
    var last := Apply(end, land);
    var n := |w.landings|;
    assert last.landings[n] == Landing(other, Master(w), Master(w), false, w.unverified);
    assert last.landings[n + 1].base == Master(w) && !last.landings[n + 1].stray;
  }
}

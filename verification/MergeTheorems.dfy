/** The promises of the executor over whole runs of the protocol. */
module MergeTheorems {
  import opened Wrappers
  import opened Leases
  import opened MergeProtocol
  import opened MergeSafety

  // ---- merges are serialised ----------------------------------------------

  /** A merge lands on its attested base exactly when no stray revert came since its
      re-check, and two merges attested on one base never both land on it: over every run
      in which no recovery frees a lane that a merge is in. */
  lemma MergesAreSerialised(cfg: Config, w: World, steps: seq<Step>)
    requires Initial(w) && Runs(cfg, w, steps) && NoLiveLaneFreed(cfg, w, steps)
    ensures var end := Final(cfg, w, steps);
            && (forall k :: 0 <= k < |end.landings| ==>
                  (end.landings[k].base == end.landings[k].parent <==> !end.landings[k].stray))
            && (forall j, k :: 0 <= j < k < |end.landings| && end.landings[j].base == end.landings[k].base ==>
                  end.landings[j].stray || end.landings[k].stray)
  {
    InitialInv(w);
    RunsKeepInv(cfg, w, steps);
  }

  /** Every revert is pushed by the run whose lane state is `mine`. */
  ghost predicate RevertsUseTheLane(cfg: Config, w: World, steps: seq<Step>)
    requires Runs(cfg, w, steps)
    decreases |steps|
  {
    steps == [] ||
    ((steps[0].By? && steps[0].act.RevertPush? ==> LaneMine(w, steps[0].run)) &&
     RevertsUseTheLane(cfg, Apply(w, steps[0]), steps[1..]))
  }

  lemma NoStrayStep(cfg: Config, w: World, s: Step)
    requires w.history != [] && Enabled(cfg, w, s)
    requires w.strays == {} && forall k :: 0 <= k < |w.landings| ==> !w.landings[k].stray
    requires s.By? && s.act.RevertPush? ==> LaneMine(w, s.run)
    ensures var w' := Apply(w, s); w'.strays == {} && forall k :: 0 <= k < |w'.landings| ==> !w'.landings[k].stray
  {
  }

  lemma {:induction false} NoStrayWithoutAStrayPush(cfg: Config, w: World, steps: seq<Step>)
    requires Runs(cfg, w, steps) && RevertsUseTheLane(cfg, w, steps)
    requires w.strays == {} && forall k :: 0 <= k < |w.landings| ==> !w.landings[k].stray
    ensures var end := Final(cfg, w, steps);
            forall k :: 0 <= k < |end.landings| ==> !end.landings[k].stray
    decreases |steps|
  {
    if steps != [] {
      var w' := Apply(w, steps[0]);
      NoStrayStep(cfg, w, steps[0]);
      NoStrayWithoutAStrayPush(cfg, w', steps[1..]);
      assert Final(cfg, w, steps) == Final(cfg, w', steps[1..]);
    }
  }

  /** With every revert pushed from the lane, every merge lands on its attested base
      and no two merges share a base. */
  lemma GuardedRevertsSerialise(cfg: Config, w: World, steps: seq<Step>)
    requires Initial(w) && Runs(cfg, w, steps) && NoLiveLaneFreed(cfg, w, steps) && RevertsUseTheLane(cfg, w, steps)
    ensures var end := Final(cfg, w, steps);
            && (forall k :: 0 <= k < |end.landings| ==> end.landings[k].base == end.landings[k].parent)
            && (forall j, k :: 0 <= j < k < |end.landings| ==> end.landings[j].base != end.landings[k].base)
  {
    NoStrayWithoutAStrayPush(cfg, w, steps);
    MergesAreSerialised(cfg, w, steps);
  }

  // ---- one merge at a time --------------------------------------------------

  predicate Names(files: Files, f: LeaseFile, q: RunId) {
    f in files && files[f].runId == q
  }

  /** The steps that end `q`'s hold of the lane: `q` leaves, finishes, gives up its lease, or
      takes the lane again for an issue its lease is not for (a post-merge whose attestation
      named another issue); a recovery drops its lease, hands it over or frees its lane. */
  ghost predicate EndsHold(w: World, s: Step, q: RunId)
    requires LaneMine(w, q)
  {
    s.By? &&
    var pc, issue := PcOf(w, s.run), w.reg.lane.value.issue;
    match s.act
    case LeaveLane => s.run == q
    case FinishLane => s.run == q
    case RollbackRelease => s.run == q
    case FinishRelease => s.run == q
    case VerifyStart => s.run == q && q in w.records && w.records[q].issue != issue
    case MergeTakeLane => s.run == q && pc.MergeFenced? && pc.issue != issue
    case StampLane => s.run == q && pc.Landed? && pc.issue != issue
    case DropLease => pc.Recovering? && pc.staleRun == q && pc.issue == issue
    case FreeDeadLane => pc.Discarding? && pc.staleRun == q
    case HandOver(_, stage, _) =>
      && pc.Recovering? && CanHandOver(w.reg, s.run, pc.issue)
      && (Names(w.reg.files, IssueFile(pc.issue), q) ||
          (HolderOf(w.reg.files, pc.issue) == Some(Legacy) && Names(w.reg.files, Legacy, q) && !stage.LeaseWritten?))
    case _ => false
  }

  /** `q` has one lease, the one the lane it holds is for. */
  lemma HolderLease(w: World, q: RunId)
    requires LeasesOk(w) && LaneMine(w, q)
    ensures LaneHeld(w.reg, q, w.reg.lane.value.issue)
    ensures forall f :: f in w.reg.files && w.reg.files[f].runId == q ==>
              Some(f) == OwnerFile(w.reg.files, w.reg.lane.value.issue, q) &&
              w.reg.files[f].issue == w.reg.lane.value.issue
  {
  }

  lemma OwnReleaseAndHold(cfg: Config, w: World, act: Act, q: RunId)
    requires w.history != [] && LeasesOk(w) && CanAct(cfg, w, q, act) && LaneMine(w, q)
    requires act.RollbackRelease? || act.FinishRelease?
    ensures !LaneMine(Do(w, q, act), q)
  {
    HolderLease(w, q);
    var f := OwnerFile(w.reg.files, w.reg.lane.value.issue, q).value;
    assert IsOwn(w.reg.files, q, f);
    OwnIsUnique(w.reg.files, q, f, OwnFile(w.reg.files, q).value);
    assert RegAfter(w, q, act).files == w.reg.files - {f};
  }

  lemma OwnLaneActAndHold(cfg: Config, w: World, act: Act, q: RunId)
    requires w.history != [] && LeasesOk(w) && CanAct(cfg, w, q, act) && LaneMine(w, q)
    requires act.VerifyStart? || act.MergeTakeLane? || act.StampLane?
    ensures LaneMine(Do(w, q, act), q) <==> !EndsHold(w, By(q, act), q)
  {
    HolderLease(w, q);
    assert RegAfter(w, q, act).files == w.reg.files;
  }

  lemma OwnHoldGoesOn(cfg: Config, w: World, act: Act, q: RunId)
    requires w.history != [] && LeasesOk(w) && CanAct(cfg, w, q, act) && LaneMine(w, q)
    ensures LaneMine(Do(w, q, act), q) <==> !EndsHold(w, By(q, act), q)
  {
    if act.RollbackRelease? || act.FinishRelease? {
      OwnReleaseAndHold(cfg, w, act, q);
    } else if act.VerifyStart? || act.MergeTakeLane? || act.StampLane? {
      OwnLaneActAndHold(cfg, w, act, q);
    } else {
      HolderLease(w, q);
      assert Named(w.reg.files, q);
      OtherOwnActs(cfg, w, act, q);
    }
  }

  /** The rest of `q`'s own acts: the lane stays unless it is released. */
  lemma OtherOwnActs(cfg: Config, w: World, act: Act, q: RunId)
    requires w.history != [] && LeasesOk(w) && CanAct(cfg, w, q, act) && LaneMine(w, q) && Named(w.reg.files, q)
    requires !(act.RollbackRelease? || act.FinishRelease? || act.VerifyStart? || act.MergeTakeLane? || act.StampLane?)
    ensures LaneMine(Do(w, q, act), q) <==> !EndsHold(w, By(q, act), q)
  {
  }

  lemma DropAndHold(cfg: Config, w: World, r: RunId, q: RunId)
    requires w.history != [] && LeasesOk(w) && CanAct(cfg, w, r, DropLease) && LaneMine(w, q) && r != q
    ensures LaneMine(Do(w, r, DropLease), q) <==> !EndsHold(w, By(r, DropLease), q)
  {
    HolderLease(w, q);
  }

  lemma HandOverAndHold(cfg: Config, w: World, r: RunId, act: Act, q: RunId)
    requires w.history != [] && LeasesOk(w) && CanAct(cfg, w, r, act) && act.HandOver? && LaneMine(w, q) && r != q
    ensures LaneMine(Do(w, r, act), q) <==> !EndsHold(w, By(r, act), q)
  {
    HolderLease(w, q);
  }

  lemma FreeAndHold(cfg: Config, w: World, r: RunId, q: RunId)
    requires w.history != [] && LeasesOk(w) && CanAct(cfg, w, r, FreeDeadLane) && LaneMine(w, q) && r != q
    ensures LaneMine(Do(w, r, FreeDeadLane), q) <==> !EndsHold(w, By(r, FreeDeadLane), q)
  {
  }

  lemma OthersHoldGoesOn(cfg: Config, w: World, r: RunId, act: Act, q: RunId)
    requires w.history != [] && LeasesOk(w) && CanAct(cfg, w, r, act) && LaneMine(w, q) && r != q
    ensures LaneMine(Do(w, r, act), q) <==> !EndsHold(w, By(r, act), q)
  {
    if act.DropLease? {
      DropAndHold(cfg, w, r, q);
    } else if act.HandOver? {
      HandOverAndHold(cfg, w, r, act, q);
    } else if act.FreeDeadLane? {
      FreeAndHold(cfg, w, r, q);
    } else {
      OtherActsAndHold(cfg, w, r, act, q);
    }
  }

  lemma OtherActsAndHold(cfg: Config, w: World, r: RunId, act: Act, q: RunId)
    requires w.history != [] && LeasesOk(w) && CanAct(cfg, w, r, act) && LaneMine(w, q) && r != q
    requires !act.DropLease? && !act.HandOver? && !act.FreeDeadLane?
    ensures LaneMine(Do(w, r, act), q) && !EndsHold(w, By(r, act), q)
  {
    HolderLease(w, q);
    OtherActsKeepLeases(cfg, w, r, act, q);
    OthersLeaveTheLane(cfg, w, r, act, q, w.reg.lane.value.issue);
  }

  lemma OtherActsKeepLeases(cfg: Config, w: World, r: RunId, act: Act, q: RunId)
    requires w.history != [] && LeasesOk(w) && CanAct(cfg, w, r, act) && Named(w.reg.files, q) && r != q
    requires !act.DropLease? && !act.HandOver? && !act.FreeDeadLane?
    ensures Named(RegAfter(w, r, act).files, q)
  {
    var f :| f in w.reg.files && w.reg.files[f].runId == q;
    OtherActKeepsFile(cfg, w, r, act, f);
  }

  lemma OtherActKeepsFile(cfg: Config, w: World, r: RunId, act: Act, f: LeaseFile)
    requires w.history != [] && CanAct(cfg, w, r, act) && f in w.reg.files && w.reg.files[f].runId != r
    requires !act.DropLease? && !act.HandOver? && (act.DoClaim? ==> HolderOf(w.reg.files, act.claim.issue).None?)
    ensures f in RegAfter(w, r, act).files && RegAfter(w, r, act).files[f].runId == w.reg.files[f].runId
  {
  }

  /** A hold of the lane ends by these steps, and by each of them. */
  lemma HoldGoesOn(cfg: Config, w: World, s: Step, q: RunId)
    requires w.history != [] && LeasesOk(w) && Enabled(cfg, w, s) && LaneMine(w, q)
    ensures LaneMine(Apply(w, s), q) <==> !EndsHold(w, s, q)
  {
    if s.By? {
      if s.run == q {
        OwnHoldGoesOn(cfg, w, s.act, q);
      } else {
        OthersHoldGoesOn(cfg, w, s.run, s.act, q);
      }
    }
  }
}

/** What a run may do next, told from the steps it took and not from where the model keeps
    its place: the script of each command, and when a run gives the merge lane up. */
module MergeScript {
  import opened Wrappers
  import opened Leases
  import opened MergeProtocol
  import opened MergeSafety
  import opened MergeTheorems

  /** The last thing `q` did, heartbeats aside. */
  function LastAct(steps: seq<Step>, q: RunId): Option<Act> {
    if steps == [] then None
    else
      var s := steps[|steps| - 1];
      if s.By? && s.run == q && !s.act.DoBeat? then Some(s.act) else LastAct(steps[..|steps| - 1], q)
  }

  /** A merge gives the lane up when its re-check refuses, when it fails or is reported as
      failed; a post-merge when it passes. */
  predicate Verdict(act: Act) {
    act.RecheckRefuse? || act.LandFail? || act.VerifyPass? || (act.Land? && act.outcome.ReportedFailed?)
  }

  /** `last` may end a command: nothing is left to do after it. */
  predicate MayEnd(last: Option<Act>) {
    last.None? ||
    match last.value
    case Crash => true
    case ClaimDone => true
    case RollbackRefund => true
    case Attest(_) => true
    case MergeTakeLane => true               // refused
    case Land(_, outcome) => outcome.ShaUnavailable?
    case StampLane => true                   // refused
    case WriteRecord => true
    case LeaveLane => true
    case VerifyStart => true                 // refused
    case VerifyStop => true
    case RevertPush(_) => true
    case FinishRelease => true
    case HandOver(_, _, _) => true
    case FreeDeadLane => true
    case _ => false
  }

  /** `act` may come next after `last`, in the order the commands are written. */
  predicate MayFollow(last: Option<Act>, act: Act) {
    match act
    case Crash => true
    case DoBeat => true
    case ClaimDone => last.Some? && last.value.DoClaim?
    case RollbackRelease => last.Some? && last.value.DoClaim?
    case RollbackRefund => last == Some(RollbackRelease)
    case MergeTakeLane => last == Some(MergeStart)
    case RecheckPass => last == Some(MergeTakeLane)
    case RecheckRefuse => last == Some(MergeTakeLane)
    case Land(_, _) => last == Some(RecheckPass)
    case LandFail => last == Some(RecheckPass)
    case StampLane => last.Some? && last.value.Land? && last.value.outcome.ShaKnown?
    case WriteRecord => last == Some(StampLane)
    case LeaveLane => last.Some? && Verdict(last.value)
    case VerifyPass => last == Some(VerifyStart)
    case VerifyStop => last == Some(VerifyStart)
    case RevertPush(_) => last == Some(VerifyStart)
    case FinishRelease => last == Some(FinishLane)
    case HandOver(_, _, _) => last.Some? && last.value.Steal?
    case DropLease => last.Some? && last.value.Steal?
    case FreeDeadLane => last == Some(DropLease)
    case _ => MayEnd(last)
  }

  /** The place the model keeps for a run whose last act was `last`. */
  ghost predicate Place(last: Option<Act>, pc: Pc) {
    match pc
    case Idle => MayEnd(last)
    case Claiming(_) => last.Some? && last.value.DoClaim?
    case RollingBack(_) => last == Some(RollbackRelease)
    case MergeFenced(_) => last == Some(MergeStart)
    case InLane(_) => last == Some(MergeTakeLane)
    case Rechecked(_, _) => last == Some(RecheckPass)
    case Landed(_, _, sha) => last == Some(Land(sha, ShaKnown))
    case Recording(_, _) => last == Some(StampLane)
    case LeavingLane => last.Some? && Verdict(last.value)
    case Verifying(_) => last == Some(VerifyStart)
    case Finishing => last == Some(FinishLane)
    case Recovering(issue, staleRun) => last == Some(Steal(issue, staleRun))
    case Discarding(_) => last == Some(DropLease)
  }

  // ---- runs, step by step from their end --------------------------------------

  lemma {:induction false} RunsSnoc(cfg: Config, w: World, steps: seq<Step>)
    requires Runs(cfg, w, steps)
    ensures Final(cfg, w, steps).history != []
    ensures steps != [] ==>
              var before, s := steps[..|steps| - 1], steps[|steps| - 1];
              && Runs(cfg, w, before) && Final(cfg, w, before).history != []
              && Enabled(cfg, Final(cfg, w, before), s)
              && Final(cfg, w, steps) == Apply(Final(cfg, w, before), s)
    decreases |steps|
  {
    if |steps| == 1 {
      assert steps[1..] == [] && steps[..0] == [];
    } else if steps != [] {
      RunsSnoc(cfg, Apply(w, steps[0]), steps[1..]);
      var before := steps[..|steps| - 1];
      assert steps[1..][..|steps| - 2] == before[1..];
    }
  }

  lemma ActPlaces(cfg: Config, w: World, r: RunId, act: Act)
    requires w.history != [] && CanAct(cfg, w, r, act) && LeasesOk(w) && !act.DoBeat?
    ensures Place(Some(act), PcAfter(w, r, act))
  {
    if act.MergeStart? {
      var f :| f in w.reg.files && w.reg.files[f].runId == r;
      assert IsOwn(w.reg.files, r, f);
    }
  }

  lemma PcOfOthers(w: World, r: RunId, act: Act, q: RunId)
    requires w.history != []
    ensures PcOf(Do(w, r, act), q) == if q == r then PcAfter(w, r, act) else PcOf(w, q)
  {
  }

  /** The model keeps the place that the steps say. */
  lemma {:induction false} StepsSayThePlace(cfg: Config, w: World, steps: seq<Step>, q: RunId)
    requires Initial(w) && Runs(cfg, w, steps)
    ensures LeasesOk(Final(cfg, w, steps)) && Place(LastAct(steps, q), PcOf(Final(cfg, w, steps), q))
    decreases |steps|
  {
    InitialInv(w);
    if steps != [] {
      var before, s := steps[..|steps| - 1], steps[|steps| - 1];
      RunsSnoc(cfg, w, steps);
      StepsSayThePlace(cfg, w, before, q);
      var v := Final(cfg, w, before);
      StepKeepsLeases(cfg, v, s);
      if s.By? {
        PcOfOthers(v, s.run, s.act, q);
        if s.run == q && !s.act.DoBeat? {
          ActPlaces(cfg, v, q, s.act);
        }
      }
    }
  }

  /** Every run obeys the commands' scripts: no act without the one its command puts before
      it, no command begun before the last one ended or crashed. */
  lemma CommandsFollowTheirScripts(cfg: Config, w: World, steps: seq<Step>, q: RunId, act: Act)
    requires Initial(w) && Runs(cfg, w, steps)
    requires Final(cfg, w, steps).history != [] && CanAct(cfg, Final(cfg, w, steps), q, act)
    ensures MayFollow(LastAct(steps, q), act)
  {
    StepsSayThePlace(cfg, w, steps, q);
  }

  // ---- when a run gives the lane up -----------------------------------------

  /** A run comes to free the lane exactly after one of the four verdicts. In particular not
      after a post-merge that stopped, nor after a merge whose commit GitHub did not name. */
  lemma LeavesExactlyAfterAVerdict(cfg: Config, w: World, steps: seq<Step>, q: RunId)
    requires Initial(w) && Runs(cfg, w, steps) && Final(cfg, w, steps).history != []
    ensures CanAct(cfg, Final(cfg, w, steps), q, LeaveLane) <==>
              LastAct(steps, q).Some? && Verdict(LastAct(steps, q).value)
  {
    StepsSayThePlace(cfg, w, steps, q);
  }

  predicate LandsOf(s: Step, q: RunId, sha: Sha) {
    s.By? && s.run == q && s.act.Land? && s.act.sha == sha
  }

  predicate HasLanded(steps: seq<Step>, q: RunId, sha: Sha) {
    exists s :: s in steps && LandsOf(s, q, sha)
  }

  /** Since `q` landed `sha` it asked for the lane again: a later merge command. */
  predicate MergedAgain(steps: seq<Step>, q: RunId, sha: Sha) {
    steps != [] &&
    var s := steps[|steps| - 1];
    !LandsOf(s, q, sha) && (s == By(q, MergeTakeLane) || MergedAgain(steps[..|steps| - 1], q, sha))
  }

  /** Why `q` may be about to free the lane although its `sha` is unverified. */
  predicate Excused(w: World, steps: seq<Step>, q: RunId, sha: Sha) {
    || LastAct(steps, q) == Some(Land(sha, ReportedFailed))
    || MergedAgain(steps, q, sha)
    || (LastAct(steps, q) == Some(VerifyPass) && q in w.records && w.records[q].mergeSha != sha)
  }

  ghost predicate LaneStory(w: World, steps: seq<Step>, q: RunId, sha: Sha) {
    && (PcOf(w, q).Verifying? ==> q in w.records && w.records[q] == PcOf(w, q).rec)
    && (HasLanded(steps, q, sha) ==>
          && sha in w.history
          && (PcOf(w, q).InLane? || PcOf(w, q).Rechecked? ==> MergedAgain(steps, q, sha))
          && (PcOf(w, q).LeavingLane? && sha in w.unverified ==> Excused(w, steps, q, sha)))
  }

  lemma HasLandedSnoc(steps: seq<Step>, q: RunId, sha: Sha)
    requires steps != []
    ensures HasLanded(steps, q, sha) <==>
              HasLanded(steps[..|steps| - 1], q, sha) || LandsOf(steps[|steps| - 1], q, sha)
  {
    assert steps == steps[..|steps| - 1] + [steps[|steps| - 1]];
  }

  lemma {:induction false} LaneStoryHolds(cfg: Config, w: World, steps: seq<Step>, q: RunId, sha: Sha)
    requires Initial(w) && Runs(cfg, w, steps)
    ensures LaneStory(Final(cfg, w, steps), steps, q, sha)
    decreases |steps|
  {
    if steps != [] {
      var before, s := steps[..|steps| - 1], steps[|steps| - 1];
      RunsSnoc(cfg, w, steps);
      LaneStoryHolds(cfg, w, before, q, sha);
      HasLandedSnoc(steps, q, sha);
      var v := Final(cfg, w, before);
      if s.By? {
        if s.run == q {
          OwnStory(cfg, v, before, s.act, q, sha);
        } else {
          OthersStory(cfg, v, before, s.run, s.act, q, sha);
        }
        assert steps == before + [s];
      }
    }
  }

  lemma Unrolled(before: seq<Step>, s: Step, q: RunId, sha: Sha)
    ensures MergedAgain(before + [s], q, sha) <==>
              !LandsOf(s, q, sha) && (s == By(q, MergeTakeLane) || MergedAgain(before, q, sha))
    ensures LastAct(before + [s], q) ==
              if s.By? && s.run == q && !s.act.DoBeat? then Some(s.act) else LastAct(before, q)
    ensures HasLanded(before + [s], q, sha) <==> HasLanded(before, q, sha) || LandsOf(s, q, sha)
  {
    assert (before + [s])[..|before|] == before;
  }

  lemma OwnStory(cfg: Config, v: World, before: seq<Step>, act: Act, q: RunId, sha: Sha)
    requires v.history != [] && CanAct(cfg, v, q, act) && LaneStory(v, before, q, sha)
    ensures LaneStory(Do(v, q, act), before + [By(q, act)], q, sha)
  {
    Unrolled(before, By(q, act), q, sha);
    PcOfOthers(v, q, act, q);
  }

  lemma OthersStory(cfg: Config, v: World, before: seq<Step>, r: RunId, act: Act, q: RunId, sha: Sha)
    requires v.history != [] && CanAct(cfg, v, r, act) && LaneStory(v, before, q, sha) && r != q
    ensures LaneStory(Do(v, r, act), before + [By(r, act)], q, sha)
  {
    Unrolled(before, By(r, act), q, sha);
    PcOfOthers(v, r, act, q);
  }

  /** Main result: over every run, when a run is about to free the lane while a merge it
      landed is unverified, then GitHub had reported that very merge as failed, or the run has
      asked for the lane again with a later merge command, or its post-merge has just passed
      a record that names another merge. */
  lemma LeavesUnverifiedOnlyExcused(cfg: Config, w: World, steps: seq<Step>, q: RunId, sha: Sha)
    requires Initial(w) && Runs(cfg, w, steps) && Final(cfg, w, steps).history != []
    requires CanAct(cfg, Final(cfg, w, steps), q, LeaveLane)
    requires HasLanded(steps, q, sha) && sha in Final(cfg, w, steps).unverified
    ensures Excused(Final(cfg, w, steps), steps, q, sha)
  {
    LaneStoryHolds(cfg, w, steps, q, sha);
  }

  // ---- what a merge and a post-merge put down ---------------------------------

  /** The commit of `q`'s last landing. */
  function LastLanding(steps: seq<Step>, q: RunId): Option<Sha> {
    if steps == [] then None
    else
      var s := steps[|steps| - 1];
      if s.By? && s.run == q && s.act.Land? then Some(s.act.sha) else LastLanding(steps[..|steps| - 1], q)
  }

  ghost predicate RecordStory(w: World, steps: seq<Step>, q: RunId) {
    && (match PcOf(w, q)
        case Rechecked(_, att) => q in w.atts && w.atts[q] == att
        case Landed(_, att, sha) => q in w.atts && w.atts[q] == att && LastLanding(steps, q) == Some(sha)
        case Recording(att, sha) => q in w.atts && w.atts[q] == att && LastLanding(steps, q) == Some(sha)
        case Verifying(rec) => q in w.records && w.records[q] == rec
        case _ => true)
    && (LastAct(steps, q) == Some(WriteRecord) ==>
          q in w.atts && q in w.records && w.records[q].issue == w.atts[q].issue &&
          LastLanding(steps, q) == Some(w.records[q].mergeSha))
  }

  lemma UnrolledLanding(before: seq<Step>, s: Step, q: RunId)
    ensures LastLanding(before + [s], q) ==
              if s.By? && s.run == q && s.act.Land? then Some(s.act.sha) else LastLanding(before, q)
    ensures LastAct(before + [s], q) ==
              if s.By? && s.run == q && !s.act.DoBeat? then Some(s.act) else LastAct(before, q)
  {
    assert (before + [s])[..|before|] == before;
  }

  lemma ActKeepsRecordStory(cfg: Config, v: World, before: seq<Step>, r: RunId, act: Act, q: RunId)
    requires v.history != [] && CanAct(cfg, v, r, act) && RecordStory(v, before, q)
    ensures RecordStory(Do(v, r, act), before + [By(r, act)], q)
  {
    UnrolledLanding(before, By(r, act), q);
    PcOfOthers(v, r, act, q);
  }

  lemma {:induction false} RecordStoryHolds(cfg: Config, w: World, steps: seq<Step>, q: RunId)
    requires Initial(w) && Runs(cfg, w, steps)
    ensures RecordStory(Final(cfg, w, steps), steps, q)
    decreases |steps|
  {
    if steps != [] {
      var before, s := steps[..|steps| - 1], steps[|steps| - 1];
      RunsSnoc(cfg, w, steps);
      RecordStoryHolds(cfg, w, before, q);
      assert steps == before + [s];
      UnrolledLanding(before, s, q);
      if s.By? {
        ActKeepsRecordStory(cfg, Final(cfg, w, before), before, s.run, s.act, q);
      }
    }
  }

  /** The record a merge writes names the commit the run landed last, for the attested issue. */
  lemma WrittenRecordIsTheLanding(cfg: Config, w: World, steps: seq<Step>, q: RunId)
    requires Initial(w) && Runs(cfg, w, steps) && LastAct(steps, q) == Some(WriteRecord)
    ensures var end := Final(cfg, w, steps);
            && q in end.records && LastLanding(steps, q) == Some(end.records[q].mergeSha)
            && q in end.atts && end.records[q].issue == end.atts[q].issue
  {
    RecordStoryHolds(cfg, w, steps, q);
  }

  /** A post-merge verifies only in the lane, taken for the merge of its record; refused, it
      changes no file and no verdict can follow. */
  lemma PostMergeTakesTheLane(cfg: Config, w: World, q: RunId)
    requires w.history != [] && CanAct(cfg, w, q, VerifyStart)
    ensures var w' := Do(w, q, VerifyStart);
            && q in w.records
            && (LaneOpen(w.reg, w.now, q) <==> CanAct(cfg, w', q, VerifyPass))
            && (!LaneOpen(w.reg, w.now, q) ==> w'.reg == w.reg)
            && (LaneOpen(w.reg, w.now, q) ==>
                  w'.reg.files == w.reg.files && w'.reg.lane.Some? && w'.reg.lane.value.runId == q &&
                  w'.reg.lane.value.issue == w.records[q].issue &&
                  w'.reg.lane.value.mergeSha == Some(w.records[q].mergeSha))
  {
    PcOfOthers(w, q, VerifyStart, q);
  }

  /** Over every run a revert is pushed only while the merge of the run's record is the tip. */
  lemma RevertsOnlyTheTip(cfg: Config, w: World, steps: seq<Step>, q: RunId, sha: Sha)
    requires Initial(w) && Runs(cfg, w, steps) && Final(cfg, w, steps).history != []
    requires CanAct(cfg, Final(cfg, w, steps), q, RevertPush(sha))
    ensures var end := Final(cfg, w, steps);
            q in end.records && end.history[|end.history| - 1] == end.records[q].mergeSha
  {
    RecordStoryHolds(cfg, w, steps, q);
  }

  predicate LaneOf(reg: Registry, runs: seq<RunId>) {
    reg.lane.None? || reg.lane.value.runId in runs
  }

  lemma HandedOverRuns(cfg: Config, w: World, r: RunId, issue: int, dead: RunId, started: Time, sha: Sha)
    requires w.history != [] && LeasesOk(w) && PcOf(w, r) == Recovering(issue, dead)
    requires MarkedFor(w.reg.files, issue, r)
    ensures var w1 := Do(w, r, HandOver(started, LaneMoved, sha));
            && w1.records == w.records[r := MergeRecord(issue, sha)] && PcOf(w1, r) == Idle
            && Fenced(w1, r) && w1.history == w.history
            && (LaneOf(w.reg, [r, w.reg.files[HolderOf(w.reg.files, issue).value].runId]) ==> LaneOf(w1.reg, [r]))
  {
    var w1 := Do(w, r, HandOver(started, LaneMoved, sha));
    PcOfOthers(w, r, HandOver(started, LaneMoved, sha), r);
    assert w1.reg.files[IssueFile(issue)].runId == r;
  }

  /** The first lease of the issue names `r` as its recovery. */
  predicate MarkedFor(files: Files, issue: int, r: RunId) {
    HolderOf(files, issue).Some? && files[HolderOf(files, issue).value].recoveringBy == Some(r)
  }

  /** A recovery that hands over writes the record the dead run's merge lacks, and can verify
      it: its own post-merge passes the fence, and a lane the dead run held, or nobody, opens. */
  lemma FollowThroughVerifies(cfg: Config, w: World, r: RunId, issue: int, dead: RunId, started: Time, sha: Sha)
    requires w.history != [] && LeasesOk(w) && PcOf(w, r) == Recovering(issue, dead)
    requires MarkedFor(w.reg.files, issue, r)
    ensures var act := HandOver(started, LaneMoved, sha);
            CanAct(cfg, w, r, act) &&
            var w1 := Do(w, r, act);
            && w1.records == w.records[r := MergeRecord(issue, sha)]
            && CanAct(cfg, w1, r, VerifyStart)
            && (LaneOf(w.reg, [r, w.reg.files[HolderOf(w.reg.files, issue).value].runId]) ==>
                  CanAct(cfg, Do(w1, r, VerifyStart), r, VerifyPass))
  {
    HandedOverRuns(cfg, w, r, issue, dead, started, sha);
    var w1 := Do(w, r, HandOver(started, LaneMoved, sha));
    PcOfOthers(w1, r, VerifyStart, r);
    assert LaneOf(w1.reg, [r]) ==> LaneOpen(w1.reg, w1.now, r);
  }

  // ---- how long a stopped command keeps the lane ------------------------------

  /** No step but the holder's `LeaveLane` ends a hold: no finish, no release, no lane retaken
      for another issue, no recovery of the lease. */
  ghost predicate NoOtherEnd(cfg: Config, w: World, steps: seq<Step>, q: RunId)
    requires Runs(cfg, w, steps)
    decreases |steps|
  {
    steps == [] ||
    ((LaneMine(w, q) && EndsHold(w, steps[0], q) ==> steps[0] == By(q, LeaveLane)) &&
     NoOtherEnd(cfg, Apply(w, steps[0]), steps[1..], q))
  }

  predicate NoVerdict(steps: seq<Step>, q: RunId) {
    forall s :: s in steps && s.By? && s.run == q ==> !Verdict(s.act)
  }

  lemma {:induction false} HeldUntilAVerdict(cfg: Config, w: World, steps: seq<Step>, q: RunId)
    requires LeasesOk(w) && Runs(cfg, w, steps) && LaneMine(w, q) && !PcOf(w, q).LeavingLane?
    requires NoVerdict(steps, q) && NoOtherEnd(cfg, w, steps, q)
    ensures LaneMine(Final(cfg, w, steps), q)
    decreases |steps|
  {
    if steps != [] {
      var s := steps[0];
      assert s in steps && forall t :: t in steps[1..] ==> t in steps;
      HoldGoesOn(cfg, w, s, q);
      StepKeepsLeases(cfg, w, s);
      if s.By? {
        PcOfOthers(w, s.run, s.act, q);
      }
      HeldUntilAVerdict(cfg, Apply(w, s), steps[1..], q);
    }
  }

  /** A post-merge that stopped, a merge whose commit GitHub did not name and a merge that wrote
      its record keep the lane: through every continuation until the run's next verdict, its
      own finish or release, a retake for another issue, or a recovery of its lease. */
  lemma StoppedCommandKeepsTheLane(cfg: Config, w: World, act: Act, steps: seq<Step>, q: RunId)
    requires LeasesOk(w) && w.history != [] && CanAct(cfg, w, q, act) && LaneMine(w, q)
    requires act.VerifyStop? || act.RevertPush? || act.WriteRecord? || (act.Land? && act.outcome.ShaUnavailable?)
    requires Runs(cfg, Do(w, q, act), steps) && NoVerdict(steps, q) && NoOtherEnd(cfg, Do(w, q, act), steps, q)
    ensures LaneMine(Do(w, q, act), q) && LaneMine(Final(cfg, Do(w, q, act), steps), q)
  {
    HoldGoesOn(cfg, w, By(q, act), q);
    StepKeepsLeases(cfg, w, By(q, act));
    PcOfOthers(w, q, act, q);
    HeldUntilAVerdict(cfg, Do(w, q, act), steps, q);
  }

  // ---- HALT ------------------------------------------------------------------

  /** The steps HALT forbids: a merge begun, a slot-counted claim. */
  predicate StartsWork(s: Step) {
    s.By? && (s.act.MergeStart? || (s.act.DoClaim? && s.act.claim.countSlot))
  }

  lemma {:induction false} HaltStopsWork(cfg: Config, w: World, steps: seq<Step>)
    requires Runs(cfg, w, steps) && w.halted && Halt(false) !in steps
    ensures Final(cfg, w, steps).halted && forall s :: s in steps ==> !StartsWork(s)
    decreases |steps|
  {
    if steps != [] {
      assert steps[0] in steps && steps == [steps[0]] + steps[1..];
      HaltStopsWork(cfg, Apply(w, steps[0]), steps[1..]);
    }
  }

  /** After a post-merge that stopped or reverted no merge and no slot-counted claim begins,
      by any run, until an operator lifts HALT. */
  lemma RedVerdictStopsWork(cfg: Config, w: World, q: RunId, act: Act, steps: seq<Step>)
    requires w.history != [] && CanAct(cfg, w, q, act) && (act.VerifyStop? || act.RevertPush?)
    requires Runs(cfg, Do(w, q, act), steps) && Halt(false) !in steps
    ensures forall s :: s in steps ==> !StartsWork(s)
  {
    HaltStopsWork(cfg, Do(w, q, act), steps);
  }
}

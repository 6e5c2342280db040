/** What recovery promises over whole runs, whatever ids are used: stealing, handing over,
    and how many leases there are. */
module MergeRecovery {
  import opened Wrappers
  import opened Leases
  import opened MergeProtocol
  import opened MergeSafety

  // ---- steal and handover -------------------------------------------------

  predicate StartsUnder(s: Step, q: RunId) {
    s.By? && s.run == q && Starts(s.act)
  }

  /** The acts a lost lease forbids: to merge, to land, to verify, to finish and to beat. */
  predicate NeedsALease(act: Act) {
    act.MergeStart? || act.Land? || act.VerifyStart? || act.FinishLane? || act.DoBeat?
  }

  /** A deposed run passes the fence again only after a claim or a recovery under its own id;
      until then every fenced command is refused. */
  lemma {:induction false} DeposedForever(cfg: Config, w: World, steps: seq<Step>, q: RunId)
    requires Runs(cfg, w, steps) && Deposed(w, q) && forall s :: s in steps ==> !StartsUnder(s, q)
    ensures Deposed(Final(cfg, w, steps), q) && !Fenced(Final(cfg, w, steps), q)
    ensures Final(cfg, w, steps).history != []
    ensures forall act :: NeedsALease(act) ==> !CanAct(cfg, Final(cfg, w, steps), q, act)
    decreases |steps|
  {
    if steps != [] {
      assert steps[0] in steps;
      if steps[0].By? {
        ActIdFacts(cfg, w, steps[0].run, steps[0].act);
        DeposedStays(w, steps[0].run, steps[0].act, Apply(w, steps[0]), q);
      }
      DeposedForever(cfg, Apply(w, steps[0]), steps[1..], q);
    }
  }

  predicate StealsUnder(s: Step, q: RunId, issue: int) {
    s.By? && s.run == q && s.act.Steal? && s.act.issue == issue
  }

  lemma OutbidStays(cfg: Config, w: World, r: RunId, act: Act, q: RunId, issue: int)
    requires w.history != [] && CanAct(cfg, w, r, act) && NamesMatch(w.reg.files) && Outbid(w, q, issue)
    requires !StealsUnder(By(r, act), q, issue)
    ensures Outbid(Do(w, r, act), q, issue)
  {
    var files' := RegAfter(w, r, act).files;
    forall f | f in files' && files'[f].issue == issue
      ensures files'[f].recoveringBy != Some(q)
    {
      if files'[f].recoveringBy.Some? {
        ActKeepsMarks(w, r, act, f);
      }
    }
  }

  /** A run that lost the recovery of a lease hands it over only after stealing it again. */
  lemma {:induction false} OutbidForever(cfg: Config, w: World, steps: seq<Step>, q: RunId, issue: int)
    requires LeasesOk(w) && Runs(cfg, w, steps) && Outbid(w, q, issue)
    requires forall s :: s in steps ==> !StealsUnder(s, q, issue)
    ensures Outbid(Final(cfg, w, steps), q, issue) && !CanHandOver(Final(cfg, w, steps).reg, q, issue)
    decreases |steps|
  {
    if steps == [] {
      OutbidCannotHandOver(w, q, issue);
    } else {
      assert steps[0] in steps;
      if steps[0].By? {
        OutbidStays(cfg, w, steps[0].run, steps[0].act, q, issue);
        ActKeepsLeasesOk(cfg, w, steps[0].run, steps[0].act);
      }
      OutbidForever(cfg, Apply(w, steps[0]), steps[1..], q, issue);
    }
  }

  lemma OutbidCannotHandOver(w: World, q: RunId, issue: int)
    requires LeasesOk(w) && Outbid(w, q, issue)
    ensures !CanHandOver(w.reg, q, issue)
  {
  }

  /** A steal takes the recovery of the lease away from any earlier stealer. */
  lemma StealOutbids(cfg: Config, w: World, r: RunId, issue: int, staleRun: RunId, earlier: RunId)
    requires LeasesOk(w) && w.history != [] && CanAct(cfg, w, r, Steal(issue, staleRun)) && earlier != r
    ensures var w' := Do(w, r, Steal(issue, staleRun));
            CanHandOver(w'.reg, r, issue) && Outbid(w', earlier, issue) && Named(w'.reg.files, staleRun)
  {
    var w' := Do(w, r, Steal(issue, staleRun));
    var f := HolderOf(w.reg.files, issue).value;
    assert w'.reg.files[f].runId == staleRun;
    assert forall g :: g in w.reg.files && w.reg.files[g].recoveringBy.Some? ==>
                         HolderOf(w.reg.files, w.reg.files[g].issue) == Some(g);
  }

  /** A completed handover deposes the run the lease named and outbids every recovery of it;
      a lane the dead run held is now the follow-through's. */
  lemma HandoverDeposes(cfg: Config, w: World, r: RunId, started: Time, sha: Sha)
    requires LeasesOk(w) && w.history != [] && CanAct(cfg, w, r, HandOver(started, LaneMoved, sha))
    requires CanHandOver(w.reg, r, PcOf(w, r).issue)
    ensures var w' := Do(w, r, HandOver(started, LaneMoved, sha));
            var issue := PcOf(w, r).issue;
            var dead := w.reg.files[HolderOf(w.reg.files, issue).value].runId;
            && Deposed(w', dead)
            && Holds(w'.reg.files, issue, r)
            && (forall q :: Outbid(w', q, issue))
            && (LaneMine(w, dead) ==> LaneMine(w', r))
  {
    var act := HandOver(started, LaneMoved, sha);
    var w' := Do(w, r, act);
    var issue := PcOf(w, r).issue;
    var f := HolderOf(w.reg.files, issue).value;
    var dead := w.reg.files[f].runId;
    assert Named(w.reg.files, dead);
    assert dead != r;
    assert forall g :: g in w'.reg.files ==> w'.reg.files[g].runId != dead;
    assert OwnerFile(w'.reg.files, issue, r) == Some(IssueFile(issue));
    assert forall g :: g in w'.reg.files && w'.reg.files[g].issue == issue ==> g == IssueFile(issue);
  }

  /** Over any continuation of a completed handover, the dead run passes the fence again only
      after a claim or recovery under its own id, and no stealer hands that lease over without
      stealing it anew. */
  lemma HandoverIsFinal(cfg: Config, w: World, r: RunId, started: Time, sha: Sha, steps: seq<Step>, earlier: RunId)
    requires LeasesOk(w) && w.history != [] && CanAct(cfg, w, r, HandOver(started, LaneMoved, sha))
    requires CanHandOver(w.reg, r, PcOf(w, r).issue)
    requires Runs(cfg, Do(w, r, HandOver(started, LaneMoved, sha)), steps)
    ensures var issue := PcOf(w, r).issue;
            var dead := w.reg.files[HolderOf(w.reg.files, issue).value].runId;
            var end := Final(cfg, Do(w, r, HandOver(started, LaneMoved, sha)), steps);
            && ((forall s :: s in steps ==> !StartsUnder(s, dead)) ==> !Fenced(end, dead))
            && ((forall s :: s in steps ==> !StealsUnder(s, earlier, issue)) ==> !CanHandOver(end.reg, earlier, issue))
  {
    var act := HandOver(started, LaneMoved, sha);
    var w' := Do(w, r, act);
    var issue := PcOf(w, r).issue;
    var dead := w.reg.files[HolderOf(w.reg.files, issue).value].runId;
    HandoverDeposes(cfg, w, r, started, sha);
    ActKeepsLeasesOk(cfg, w, r, act);
    assert Named(w.reg.files, dead) && !PcOf(w, dead).Recovering?;
    if forall s :: s in steps ==> !StartsUnder(s, dead) {
      DeposedForever(cfg, w', steps, dead);
    }
    if forall s :: s in steps ==> !StealsUnder(s, earlier, issue) {
      OutbidForever(cfg, w', steps, earlier, issue);
    }
  }

  // ---- how many leases ----------------------------------------------------

  /** The steps that take an issue's lease away: the named run's own release, or the drop of
      a recovery that found no merge. */
  ghost predicate Unleases(w: World, s: Step, issue: int) {
    s.By? &&
    match s.act
    case RollbackRelease => Holds(w.reg.files, issue, s.run)
    case FinishRelease => Holds(w.reg.files, issue, s.run)
    case DropLease => PcOf(w, s.run).Recovering? && PcOf(w, s.run).issue == issue
                      && Holds(w.reg.files, issue, PcOf(w, s.run).staleRun)
    case _ => false
  }

  ghost predicate OneLeasePerIssue(files: Files) {
    forall f, g :: f in files && g in files && files[f].issue == files[g].issue ==> f == g
  }

  lemma OnlyTheseUnlease(cfg: Config, w: World, s: Step, issue: int)
    requires w.history != [] && LeasesOk(w) && Enabled(cfg, w, s) && !Unleases(w, s, issue)
    requires Leased(w.reg.files, issue)
    ensures Leased(Apply(w, s).reg.files, issue)
  {
    if s.By? {
      var f := HolderOf(w.reg.files, issue).value;
      if s.act.HandOver? {
        HandOverKeepsLeased(cfg, w, s.run, s.act, issue);
      } else {
        ActKeepsFile(cfg, w, s.run, s.act, f);
      }
    }
  }

  lemma HandOverKeepsLeased(cfg: Config, w: World, r: RunId, act: Act, issue: int)
    requires w.history != [] && CanAct(cfg, w, r, act) && act.HandOver? && Leased(w.reg.files, issue)
    ensures Leased(RegAfter(w, r, act).files, issue)
  {
  }

  lemma ActKeepsFile(cfg: Config, w: World, r: RunId, act: Act, f: LeaseFile)
    requires w.history != [] && LeasesOk(w) && CanAct(cfg, w, r, act) && !act.HandOver? && f in w.reg.files
    requires !Unleases(w, By(r, act), w.reg.files[f].issue) && HolderOf(w.reg.files, w.reg.files[f].issue) == Some(f)
    ensures f in RegAfter(w, r, act).files && RegAfter(w, r, act).files[f].issue == w.reg.files[f].issue
  {
    var own := OwnFile(w.reg.files, r);
    assert own == Some(f) ==> Holds(w.reg.files, w.reg.files[f].issue, r);
  }

  /** Each of them does, when the issue has no second lease. */
  lemma TheseUnlease(cfg: Config, w: World, s: Step, issue: int)
    requires w.history != [] && LeasesOk(w) && OneLeasePerIssue(w.reg.files) && Enabled(cfg, w, s)
    requires Unleases(w, s, issue)
    ensures !Leased(Apply(w, s).reg.files, issue)
  {
    var files := w.reg.files;
    var f := HolderOf(files, issue).value;
    assert forall g :: g in files && files[g].issue == issue ==> g == f;
    if s.act.RollbackRelease? || s.act.FinishRelease? {
      assert files[f].runId == s.run && IsOwn(files, s.run, f);
      OwnIsUnique(files, s.run, f, OwnFile(files, s.run).value);
    }
    assert Apply(w, s).reg.files == files - {f};
  }

  ghost predicate NeverUnleased(cfg: Config, w: World, steps: seq<Step>, issue: int)
    requires Runs(cfg, w, steps)
    decreases |steps|
  {
    steps == [] || (!Unleases(w, steps[0], issue) && NeverUnleased(cfg, Apply(w, steps[0]), steps[1..], issue))
  }

  /** From steal to handover (a torn one included) the issue has a lease at every moment, but
      for the release by the run the lease names and the drop of that very lease. */
  lemma {:induction false} RecoveredIssueStaysLeased(cfg: Config, w: World, steps: seq<Step>, issue: int)
    requires LeasesOk(w) && Runs(cfg, w, steps) && NeverUnleased(cfg, w, steps, issue)
    requires Leased(w.reg.files, issue)
    ensures Leased(Final(cfg, w, steps).reg.files, issue)
    decreases |steps|
  {
    if steps != [] {
      OnlyTheseUnlease(cfg, w, steps[0], issue);
      StepKeepsLeases(cfg, w, steps[0]);
      RecoveredIssueStaysLeased(cfg, Apply(w, steps[0]), steps[1..], issue);
    }
  }

  /** A handover of the legacy lease cut short between writing the new file and removing the
      old one. */
  predicate TornLegacyHandover(w: World, s: Step) {
    && s.By? && s.act.HandOver? && s.act.stage.LeaseWritten? && PcOf(w, s.run).Recovering?
    && CanHandOver(w.reg, s.run, PcOf(w, s.run).issue)
    && HolderOf(w.reg.files, PcOf(w, s.run).issue) == Some(Legacy)
  }

  lemma TornHandoverLeavesTwo(cfg: Config, w: World, s: Step)
    requires w.history != [] && LeasesOk(w) && Enabled(cfg, w, s) && TornLegacyHandover(w, s)
    ensures !OneLeasePerIssue(Apply(w, s).reg.files)
  {
    var files' := Apply(w, s).reg.files;
    var target := IssueFile(PcOf(w, s.run).issue);
    assert Legacy in files' && target in files' && files'[Legacy].issue == files'[target].issue;
  }

  /** A step leaves at most one lease per issue unless it tears a handover of the legacy lease. */
  lemma StepKeepsOneLeasePerIssue(cfg: Config, w: World, s: Step)
    requires w.history != [] && LeasesOk(w) && Enabled(cfg, w, s) && OneLeasePerIssue(w.reg.files)
    ensures OneLeasePerIssue(Apply(w, s).reg.files) <==> !TornLegacyHandover(w, s)
  {
    if TornLegacyHandover(w, s) {
      TornHandoverLeavesTwo(cfg, w, s);
    } else if s.By? {
      ActKeepsOneLeasePerIssue(cfg, w, s.run, s.act);
    }
  }

  lemma ActKeepsOneLeasePerIssue(cfg: Config, w: World, r: RunId, act: Act)
    requires w.history != [] && LeasesOk(w) && CanAct(cfg, w, r, act) && OneLeasePerIssue(w.reg.files)
    requires !TornLegacyHandover(w, By(r, act))
    ensures OneLeasePerIssue(RegAfter(w, r, act).files)
  {
    ActKeepsLeases(w, r, act);
    var files, files' := w.reg.files, RegAfter(w, r, act).files;
    forall f, g | f in files' && g in files' && files'[f].issue == files'[g].issue
      ensures f == g
    {
      if act.HandOver? && files' != files {
        assert files'[IssueFile(PcOf(w, r).issue)].issue == PcOf(w, r).issue;
      }
    }
  }

  ghost predicate NeverTorn(cfg: Config, w: World, steps: seq<Step>)
    requires Runs(cfg, w, steps)
    decreases |steps|
  {
    steps == [] || (!TornLegacyHandover(w, steps[0]) && NeverTorn(cfg, Apply(w, steps[0]), steps[1..]))
  }

  /** Whatever ids are used: at most one lease per run, and at most one per issue unless a
      handover of the legacy lease is torn. */
  lemma {:induction false} OneLeaseEach(cfg: Config, w: World, steps: seq<Step>)
    requires LeasesOk(w) && Runs(cfg, w, steps) && OneLeasePerIssue(w.reg.files)
    ensures OneLeasePerRun(Final(cfg, w, steps).reg.files)
    ensures NeverTorn(cfg, w, steps) ==> OneLeasePerIssue(Final(cfg, w, steps).reg.files)
    decreases |steps|
  {
    if steps != [] {
      StepKeepsOneLeasePerIssue(cfg, w, steps[0]);
      StepKeepsLeases(cfg, w, steps[0]);
      if TornLegacyHandover(w, steps[0]) {
        RunsKeepLeases(cfg, w, steps);
      } else {
        OneLeaseEach(cfg, Apply(w, steps[0]), steps[1..]);
      }
    }
  }
}

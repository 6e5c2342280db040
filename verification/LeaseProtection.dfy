/** How long a lease is safe from other runs, told from heartbeats and the clock alone. */
module LeaseProtection {
  import opened Wrappers
  import opened Leases
  import opened MergeProtocol
  import opened MergeSafety
  import opened MergeScript

  /** A lease is stolen exactly when the thief has none, the lease still names the run that
      was seen, and its heartbeat is more than half an hour old. */
  lemma StolenExactlyWhenStale(cfg: Config, w: World, r: RunId, issue: int, staleRun: RunId)
    requires w.history != []
    ensures CanAct(cfg, w, r, Steal(issue, staleRun)) <==>
              && PcOf(w, r).Idle? && !(exists f :: f in w.reg.files && w.reg.files[f].runId == r)
              && HolderOf(w.reg.files, issue).Some?
              && var lease := w.reg.files[HolderOf(w.reg.files, issue).value];
                 lease.runId == staleRun && w.now - lease.heartbeat > 1800
  {
  }

  /** What a steal writes: the mark and the heartbeat, on that lease only. */
  lemma StealMarksOneLease(cfg: Config, w: World, r: RunId, issue: int, staleRun: RunId)
    requires w.history != [] && CanAct(cfg, w, r, Steal(issue, staleRun))
    ensures var (files, files') := (w.reg.files, Do(w, r, Steal(issue, staleRun)).reg.files);
            var f := HolderOf(files, issue).value;
            && files'.Keys == files.Keys
            && (forall g :: g in files && g != f ==> files'[g] == files[g])
            && files'[f] == Lease(files[f].issue, staleRun, files[f].session, files[f].started, w.now,
                                  files[f].attempt, Some(r))
  {
  }

  /** A recovery of the lease under way: by a run that stole it earlier and has neither handed
      it over nor dropped it, whoever the lease is marked for now. */
  predicate Recovers(w: World, r: RunId, lease: Lease) {
    PcOf(w, r).Recovering? && PcOf(w, r).issue == lease.issue
  }

  /** The acts that take a lease from a run which beat within the last half hour: a drop by a
      recovery that stole it from that run, or the handover of the issue's first lease by the
      recovery that one is marked for. */
  predicate TakesLiveLease(w: World, r: RunId, act: Act, f: LeaseFile)
    requires f in w.reg.files
  {
    var lease := w.reg.files[f];
    Recovers(w, r, lease) &&
    ((act.DropLease? && PcOf(w, r).staleRun == lease.runId) ||
     (act.HandOver? && (f.IssueFile? || !act.stage.LeaseWritten?) && MarkedFor(w.reg.files, lease.issue, r)))
  }

  lemma DropTouches(cfg: Config, w: World, r: RunId, f: LeaseFile)
    requires w.history != [] && LeasesOk(w) && CanAct(cfg, w, r, DropLease) && f in w.reg.files
    requires w.reg.files[f].runId != r
    ensures var files' := RegAfter(w, r, DropLease).files;
            !(f in files' && files'[f] == w.reg.files[f]) <==> TakesLiveLease(w, r, DropLease, f)
  {
    var pc := PcOf(w, r);
    var own := OwnerFile(w.reg.files, pc.issue, pc.staleRun);
    if own.Some? && w.reg.files[f].runId == pc.staleRun {
      assert own.value == f;
    }
  }

  lemma HandOverTouches(cfg: Config, w: World, r: RunId, act: Act, f: LeaseFile)
    requires w.history != [] && LeasesOk(w) && CanAct(cfg, w, r, act) && act.HandOver? && f in w.reg.files
    requires w.reg.files[f].runId != r
    ensures var files' := RegAfter(w, r, act).files;
            !(f in files' && files'[f] == w.reg.files[f]) <==> TakesLiveLease(w, r, act, f)
  {
    var holder := HolderOf(w.reg.files, PcOf(w, r).issue);
    if CanHandOver(w.reg, r, PcOf(w, r).issue) {
      assert w.reg.files[holder.value].recoveringBy == Some(r);
      assert f.Legacy? && holder == Some(Legacy) ==> w.reg.files[f].issue == PcOf(w, r).issue;
    }
  }

  lemma OtherActsTouchNone(cfg: Config, w: World, r: RunId, act: Act, f: LeaseFile)
    requires w.history != [] && LeasesOk(w) && CanAct(cfg, w, r, act) && f in w.reg.files
    requires w.reg.files[f].runId != r && w.now - w.reg.files[f].heartbeat <= 1800
    requires !act.DropLease? && !act.HandOver?
    ensures f in RegAfter(w, r, act).files && RegAfter(w, r, act).files[f] == w.reg.files[f]
  {
    if act.Steal? {
      StolenExactlyWhenStale(cfg, w, r, act.issue, act.staleRun);
    }
  }

  /** Main result, one step: of a lease whose heartbeat is at most 1800 seconds old, a step of
      another run leaves every field alone, unless it is one of `TakesLiveLease`; and each of
      these takes it. */
  lemma LiveLeaseTakenExactlyBy(cfg: Config, w: World, r: RunId, act: Act, f: LeaseFile)
    requires w.history != [] && LeasesOk(w) && CanAct(cfg, w, r, act) && f in w.reg.files
    requires w.reg.files[f].runId != r && w.now - w.reg.files[f].heartbeat <= 1800
    ensures var files' := Do(w, r, act).reg.files;
            !(f in files' && files'[f] == w.reg.files[f]) <==> TakesLiveLease(w, r, act, f)
  {
    if act.DropLease? {
      DropTouches(cfg, w, r, f);
    } else if act.HandOver? {
      HandOverTouches(cfg, w, r, act, f);
    } else {
      OtherActsTouchNone(cfg, w, r, act, f);
    }
  }

  /** A heartbeat is the clock of the claim, beat, steal or handover that wrote it. */
  lemma HeartbeatIsTheClock(cfg: Config, w: World, r: RunId, act: Act, f: LeaseFile)
    requires w.history != [] && CanAct(cfg, w, r, act) && f in Do(w, r, act).reg.files
    requires f !in w.reg.files || Do(w, r, act).reg.files[f].heartbeat != w.reg.files[f].heartbeat
    ensures Do(w, r, act).reg.files[f].heartbeat == w.now
    ensures act.DoClaim? || act.DoBeat? || act.Steal? || act.HandOver?
  {
  }

  // ---- half an hour ---------------------------------------------------------

  /** The lease that `f` held is there yet: same run, issue and mark, and at least as fresh. */
  ghost predicate Stands(w: World, f: LeaseFile, lease: Lease) {
    && HolderOf(w.reg.files, lease.issue) == Some(f) && w.reg.files[f].issue == lease.issue
    && w.reg.files[f].runId == lease.runId && w.reg.files[f].recoveringBy == lease.recoveringBy
    && w.reg.files[f].heartbeat >= lease.heartbeat
  }

  /** Nobody recovers the issue but runs of `early`. */
  ghost predicate OnlyEarly(w: World, lease: Lease, early: set<RunId>) {
    forall r :: Recovers(w, r, lease) ==> r in early
  }

  /** The run gives its own lease up, or a recovery that began earlier ends. */
  predicate EndsIt(s: Step, lease: Lease, early: set<RunId>) {
    s.By? &&
    ((s.run == lease.runId && (s.act.FinishRelease? || s.act.RollbackRelease?)) ||
     (s.run in early && (s.act.DropLease? || s.act.HandOver?)))
  }

  lemma {:induction false} ClockOnlyAdvances(cfg: Config, w: World, steps: seq<Step>)
    requires Runs(cfg, w, steps)
    ensures w.now <= Final(cfg, w, steps).now
    decreases |steps|
  {
    if steps != [] {
      ClockOnlyAdvances(cfg, Apply(w, steps[0]), steps[1..]);
    }
  }

  lemma OwnActKeepsIt(cfg: Config, w: World, act: Act, f: LeaseFile, lease: Lease)
    requires w.history != [] && LeasesOk(w) && Stands(w, f, lease) && CanAct(cfg, w, lease.runId, act)
    requires !act.FinishRelease? && !act.RollbackRelease? && w.reg.files[f].heartbeat <= w.now
    ensures Stands(Do(w, lease.runId, act), f, lease)
    ensures f in Do(w, lease.runId, act).reg.files && Do(w, lease.runId, act).reg.files[f].heartbeat <= w.now
  {
    if act.DoBeat? {
      var r := lease.runId;
      assert IsOwn(w.reg.files, r, f);
      OwnIsUnique(w.reg.files, r, f, OwnFile(w.reg.files, r).value);
    } else {
      OwnActLeavesIt(cfg, w, act, f, lease.runId);
      HolderKept(cfg, w, lease.runId, act, f, lease.issue);
    }
  }

  lemma OwnActLeavesIt(cfg: Config, w: World, act: Act, f: LeaseFile, r: RunId)
    requires w.history != [] && LeasesOk(w) && CanAct(cfg, w, r, act) && f in w.reg.files
    requires w.reg.files[f].runId == r && !act.FinishRelease? && !act.RollbackRelease? && !act.DoBeat?
    ensures f in RegAfter(w, r, act).files && RegAfter(w, r, act).files[f] == w.reg.files[f]
  {
    assert Named(w.reg.files, r);
  }

  lemma OthersKeepIt(cfg: Config, w: World, r: RunId, act: Act, f: LeaseFile, lease: Lease, early: set<RunId>)
    requires w.history != [] && LeasesOk(w) && Stands(w, f, lease) && CanAct(cfg, w, r, act) && r != lease.runId
    requires OnlyEarly(w, lease, early) && !EndsIt(By(r, act), lease, early)
    requires w.now - lease.heartbeat <= 1800
    ensures f in Do(w, r, act).reg.files && Do(w, r, act).reg.files[f] == w.reg.files[f]
    ensures Stands(Do(w, r, act), f, lease)
  {
    LiveLeaseTakenExactlyBy(cfg, w, r, act, f);
    assert Recovers(w, r, w.reg.files[f]) <==> Recovers(w, r, lease);
    HolderKept(cfg, w, r, act, f, lease.issue);
  }

  /** No step puts a lease before the one an issue has. */
  lemma HolderKept(cfg: Config, w: World, r: RunId, act: Act, f: LeaseFile, issue: int)
    requires w.history != [] && LeasesOk(w) && CanAct(cfg, w, r, act) && HolderOf(w.reg.files, issue) == Some(f)
    requires f in RegAfter(w, r, act).files && RegAfter(w, r, act).files[f].issue == issue
    ensures HolderOf(RegAfter(w, r, act).files, issue) == Some(f)
  {
    ActKeepsLeases(w, r, act);
  }

  lemma NoNewRecovery(cfg: Config, w: World, r: RunId, act: Act, f: LeaseFile, lease: Lease, early: set<RunId>)
    requires w.history != [] && LeasesOk(w) && Stands(w, f, lease) && CanAct(cfg, w, r, act)
    requires OnlyEarly(w, lease, early) && w.now - lease.heartbeat <= 1800
    ensures OnlyEarly(Do(w, r, act), lease, early)
  {
    if act.Steal? {
      StolenExactlyWhenStale(cfg, w, r, act.issue, act.staleRun);
    }
    ActPcFacts(w, r, act);
    forall q | Recovers(Do(w, r, act), q, lease)
      ensures q in early
    {
      PcOfOthers(w, r, act, q);
      assert Recovers(w, q, lease);
    }
  }

  /** Main result, whole runs: from a claim, beat, steal or handover that set its heartbeat, the
      first lease of an issue stands for 1800 seconds: whatever other runs do, it names the same
      run and the same recovery, unless its own run gives it up or a recovery of the issue that
      was already under way drops it or hands it over. */
  lemma {:induction false} HalfAnHour(cfg: Config, w: World, steps: seq<Step>, f: LeaseFile, lease: Lease,
                                      early: set<RunId>)
    requires LeasesOk(w) && Runs(cfg, w, steps)
    requires Stands(w, f, lease) && OnlyEarly(w, lease, early) && w.reg.files[f].heartbeat <= w.now
    requires Final(cfg, w, steps).now <= lease.heartbeat + 1800
    requires forall s :: s in steps ==> !EndsIt(s, lease, early)
    ensures Stands(Final(cfg, w, steps), f, lease)
    decreases |steps|
  {
    if steps != [] {
      var s := steps[0];
      assert s in steps && forall t :: t in steps[1..] ==> t in steps;
      ClockOnlyAdvances(cfg, w, steps);
      StepKeepsLeases(cfg, w, s);
      if s.By? {
        NoNewRecovery(cfg, w, s.run, s.act, f, lease, early);
        if s.run == lease.runId {
          OwnActKeepsIt(cfg, w, s.act, f, lease);
        } else {
          OthersKeepIt(cfg, w, s.run, s.act, f, lease, early);
        }
      } else {
        assert OnlyEarly(Apply(w, s), lease, early) by {
          assert forall r :: Recovers(Apply(w, s), r, lease) ==> Recovers(w, r, lease);
        }
      }
      HalfAnHour(cfg, Apply(w, s), steps[1..], f, lease, early);
    }
  }
}

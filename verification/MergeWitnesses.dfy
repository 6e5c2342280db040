/** Where the code does less than its words: each is a reachable run of the protocol. Two in
    which merges are not serialised, one in which a merge lands over an unverified one, one
    in which an issue under recovery loses its lease. */
module MergeWitnesses {
  import opened Wrappers
  import opened Leases
  import opened MergeProtocol
  import opened MergeSafety
  import opened MergeTheorems
  import opened MergeOvertaking

  const CFG := Config(4, 0, 0, false)
  const DISK := Disk(100, 100)

  function NewClaim(run: RunId, issue: int): Claim {
    Claim(run, issue, "s", 1, None, true, None)
  }

  /** Run 1 holds a stale legacy lease for issue 10; every run may merge onto commit 0. */
  function Start(): World {
    World(Registry(map[Legacy := Lease(10, 1, "s", 0, 0, 1, None)], None, 0), 5000, [0], map[],
          map[1 := Attestation(11, 0), 3 := Attestation(20, 0)], map[1 := MergeRecord(10, 0)],
          false, [], {}, {}, {}, Ledger(0, 0, 0, 0, 0, {}))
  }

  ghost predicate StepOk(w: World, s: Step, w': World) {
    w.history != [] && Enabled(CFG, w, s) && w' == Apply(w, s)
  }

  /** A stretch of a run: the worlds it passes through and its steps. */
  datatype Path = Path(worlds: seq<World>, steps: seq<Step>)

  ghost predicate Walks(w: World, p: Path, end: World) {
    && |p.worlds| == |p.steps| + 1
    && p.worlds[0] == w && p.worlds[|p.steps|] == end
    && forall i {:trigger p.steps[i]} :: 0 <= i < |p.steps| ==> StepOk(p.worlds[i], p.steps[i], p.worlds[i + 1])
  }

  /** No step frees a dead run's lane. */
  predicate FreesNothing(p: Path) {
    forall s :: s in p.steps ==> !(s.By? && s.act.FreeDeadLane?)
  }

  lemma Join(w: World, p: Path, mid: World, q: Path, end: World) returns (whole: Path)
    requires Walks(w, p, mid) && Walks(mid, q, end)
    ensures Walks(w, whole, end) && whole.steps == p.steps + q.steps
    ensures FreesNothing(p) && FreesNothing(q) ==> FreesNothing(whole)
  {
    whole := Path(p.worlds + q.worlds[1..], p.steps + q.steps);
    forall i | 0 <= i < |whole.steps|
      ensures StepOk(whole.worlds[i], whole.steps[i], whole.worlds[i + 1])
    {
      if i < |p.steps| {
        assert whole.steps[i] == p.steps[i];
      } else {
        assert whole.steps[i] == q.steps[i - |p.steps|];
      }
    }
  }

  lemma Stop(w: World) returns (p: Path)
    ensures Walks(w, p, w) && p.steps == [] && FreesNothing(p)
  {
    p := Path([w], []);
  }

  lemma Before(w: World, r: RunId, act: Act, w': World, p: Path, end: World) returns (whole: Path)
    requires w.history != [] && CanAct(CFG, w, r, act) && w' == Do(w, r, act)
    requires Walks(w', p, end)
    ensures Walks(w, whole, end) && whole.steps == [By(r, act)] + p.steps
    ensures FreesNothing(p) && !act.FreeDeadLane? ==> FreesNothing(whole)
  {
    whole := BeforeStep(w, By(r, act), w', p, end);
  }

  lemma BeforeStep(w: World, s: Step, w': World, p: Path, end: World) returns (whole: Path)
    requires StepOk(w, s, w') && Walks(w', p, end)
    ensures Walks(w, whole, end) && whole.steps == [s] + p.steps
    ensures FreesNothing(p) && !(s.By? && s.act.FreeDeadLane?) ==> FreesNothing(whole)
  {
    var first := Path([w, w'], [s]);
    whole := Join(w, first, w', p, end);
  }

  /** A walked path is a run of the protocol. */
  lemma {:induction false} WalksAreRuns(w: World, p: Path, end: World)
    requires Walks(w, p, end) && end.history != []
    ensures Runs(CFG, w, p.steps) && Final(CFG, w, p.steps) == end
    decreases |p.steps|
  {
    if p.steps != [] {
      assert StepOk(p.worlds[0], p.steps[0], p.worlds[1]);
      var rest := Path(p.worlds[1..], p.steps[1..]);
      forall i | 0 <= i < |rest.steps|
        ensures StepOk(rest.worlds[i], rest.steps[i], rest.worlds[i + 1])
      {
        assert rest.steps[i] == p.steps[i + 1];
      }
      WalksAreRuns(p.worlds[1], rest, end);
    }
  }

  lemma Own(files: Files, r: RunId, f: LeaseFile)
    requires f in files && files[f].runId == r && forall g :: g in files && files[g].runId == r ==> g == f
    ensures Named(files, r) && OwnFile(files, r) == Some(f)
  {
    assert IsOwn(files, r, f);
  }

  lemma RunClaims(w: World, r: RunId, issue: int) returns (p: Path, end: World)
    requires w.history == [0] && !w.halted
    requires |w.reg.files| <= 2 && !Named(w.reg.files, r) && HolderOf(w.reg.files, issue).None?
    requires PcOf(w, r).Idle?
    ensures Walks(w, p, end) && FreesNothing(p) && end.unverified == w.unverified
    ensures end.reg == w.reg.(files := w.reg.files[IssueFile(issue) := NewLease(w.now, NewClaim(r, issue))])
    ensures end.pcs == w.pcs[r := Idle] && end.atts == w.atts
    ensures end.history == [0] && end.now == w.now && end.landings == w.landings && end.strays == w.strays
    ensures !end.halted
  {
    var claim := DoClaim(NewClaim(r, issue), DISK);
    var w1 := Do(w, r, claim);
    end := Do(w1, r, ClaimDone);
    p := Stop(end);
    p := Before(w1, r, ClaimDone, end, p, end);
    p := Before(w, r, claim, w1, p, end);
  }

  lemma RunMergesToTheRecheck(w: World, r: RunId, issue: int) returns (p: Path, end: World)
    requires w.history == [0] && !w.halted && w.reg.lane.None? && PcOf(w, r).Idle?
    requires OwnFile(w.reg.files, r) == Some(IssueFile(issue)) && w.reg.files[IssueFile(issue)].issue == issue
    requires r in w.atts && w.atts[r] == Attestation(issue, 0)
    ensures Walks(w, p, end) && FreesNothing(p) && end.unverified == w.unverified
    ensures end.reg == w.reg.(lane := Some(Lane(r, issue, None, None, w.now)))
    ensures end.pcs == w.pcs[r := Rechecked(issue, Attestation(issue, 0))] && end.atts == w.atts
    ensures end.history == [0] && end.now == w.now && end.landings == w.landings && end.strays == w.strays - {r}
    ensures !end.halted
  {
    var mid, q;
    p, mid := RunTakesTheLane(w, r, issue);
    end := Do(mid, r, RecheckPass);
    q := Stop(end);
    q := Before(mid, r, RecheckPass, end, q, end);
    p := Join(w, p, mid, q, end);
  }

  lemma RunTakesTheLane(w: World, r: RunId, issue: int) returns (p: Path, end: World)
    requires w.history == [0] && !w.halted && w.reg.lane.None? && PcOf(w, r).Idle?
    requires OwnFile(w.reg.files, r) == Some(IssueFile(issue)) && w.reg.files[IssueFile(issue)].issue == issue
    ensures Walks(w, p, end) && FreesNothing(p) && end.unverified == w.unverified
    ensures end.reg == w.reg.(lane := Some(Lane(r, issue, None, None, w.now)))
    ensures end.pcs == w.pcs[r := InLane(issue)] && end.atts == w.atts
    ensures end.history == [0] && end.now == w.now && end.landings == w.landings && end.strays == w.strays
    ensures !end.halted
  {
    var w1 := Do(w, r, MergeStart);
    end := Do(w1, r, MergeTakeLane);
    p := Stop(end);
    p := Before(w1, r, MergeTakeLane, end, p, end);
    p := Before(w, r, MergeStart, w1, p, end);
  }

  /** Run `r` claims `issue` and takes its merge up to a passed re-check on base 0. */
  lemma RunRechecks(w: World, r: RunId, issue: int) returns (p: Path, end: World)
    requires w.history == [0] && !w.halted && w.reg.lane.None?
    requires |w.reg.files| <= 2 && !Named(w.reg.files, r) && HolderOf(w.reg.files, issue).None?
    requires PcOf(w, r).Idle? && r in w.atts && w.atts[r] == Attestation(issue, 0)
    ensures Walks(w, p, end) && FreesNothing(p) && end.unverified == w.unverified
    ensures end.reg.files == w.reg.files[IssueFile(issue) := NewLease(w.now, NewClaim(r, issue))]
    ensures end.reg.lane == Some(Lane(r, issue, None, None, w.now))
    ensures end.pcs == w.pcs[r := Rechecked(issue, Attestation(issue, 0))] && end.atts == w.atts
    ensures end.history == [0] && end.now == w.now && end.landings == w.landings && end.strays == w.strays - {r}
    ensures !end.halted
  {
    var mid, q;
    p, mid := RunClaims(w, r, issue);
    Own(mid.reg.files, r, IssueFile(issue));
    q, end := RunMergesToTheRecheck(mid, r, issue);
    p := Join(w, p, mid, q, end);
  }

  /** Run 2 steals the lease run 1 verifies under. */
  lemma RunTwoSteals() returns (p: Path, end: World)
    ensures Walks(Start(), p, end)
    ensures end.reg.files == map[Legacy := Lease(10, 1, "s", 0, 5000, 1, Some(2))]
    ensures end.reg.lane.Some? && end.reg.lane.value.runId == 1 && end.now == 5000
    ensures end.pcs == map[1 := Verifying(MergeRecord(10, 0)), 2 := Recovering(10, 1)] && end.atts == Start().atts
    ensures end.history == [0] && end.landings == [] && end.strays == {} && !end.halted
  {
    var w := Start();
    Own(w.reg.files, 1, Legacy);
    var w1 := Do(w, 1, VerifyStart);
    assert HolderOf(w1.reg.files, 10) == Some(Legacy);
    end := Do(w1, 2, Steal(10, 1));
    p := Stop(end);
    p := Before(w1, 2, Steal(10, 1), end, p, end);
    p := Before(w, 1, VerifyStart, w1, p, end);
  }

  /** Run 1 verifies commit 0, run 2 recovers its lease and frees the lane. */
  lemma RunTwoTakesOver() returns (p: Path, end: World)
    ensures Walks(Start(), p, end)
    ensures end.reg.files == map[IssueFile(10) := Lease(10, 2, "recover", 0, 5000, 1, None)] && end.reg.lane.None?
    ensures end.pcs == map[1 := Verifying(MergeRecord(10, 0)), 2 := Finishing] && end.atts == Start().atts
    ensures end.history == [0] && end.landings == [] && end.strays == {} && !end.halted
  {
    var w;
    p, w := RunTwoHandsOver();
    Own(w.reg.files, 2, IssueFile(10));
    end := Do(w, 2, FinishLane);
    var q := Stop(end);
    q := Before(w, 2, FinishLane, end, q, end);
    p := Join(Start(), p, w, q, end);
  }

  lemma RunTwoHandsOver() returns (p: Path, end: World)
    ensures Walks(Start(), p, end)
    ensures end.reg.files == map[IssueFile(10) := Lease(10, 2, "recover", 0, 5000, 1, None)]
    ensures end.reg.lane.Some? && end.reg.lane.value.runId == 2
    ensures end.pcs == map[1 := Verifying(MergeRecord(10, 0)), 2 := Idle] && end.atts == Start().atts
    ensures end.history == [0] && end.landings == [] && end.strays == {} && !end.halted
  {
    var w;
    p, w := RunTwoSteals();
    var handover := HandOver(0, LaneMoved, 0);
    end := Do(w, 2, handover);
    assert end.reg.files == map[IssueFile(10) := Lease(10, 2, "recover", 0, 5000, 1, None)];
    var q := Stop(end);
    q := Before(w, 2, handover, end, q, end);
    p := Join(Start(), p, w, q, end);
  }

  /** A revert pushed after the lane was handed over moves `master` under another
      run's re-checked merge: run 1 verifies, is stolen from and handed over to run 2,
      which frees the lane; run 3 re-checks; run 1's revert and run 3's merge follow. */
  lemma StrayRevertBreaksSerialisation() returns (steps: seq<Step>)
    ensures Initial(Start()) && Runs(CFG, Start(), steps)
    ensures var end := Final(CFG, Start(), steps);
            exists k :: 0 <= k < |end.landings| && end.landings[k].base != end.landings[k].parent
  {
    var p, w1 := RunTwoTakesOver();
    var q, w2 := RunRechecks(w1, 3, 20);
    p := Join(Start(), p, w1, q, w2);
    var end;
    q, end := RevertThenLand(w2);
    p := Join(Start(), p, w2, q, end);
    WalksAreRuns(Start(), p, end);
    steps := p.steps;
  }

  lemma RevertThenLand(w: World) returns (p: Path, end: World)
    requires w.history == [0] && w.landings == []
    requires IssueFile(20) in w.reg.files && w.reg.files[IssueFile(20)].runId == 3
    requires PcOf(w, 3) == Rechecked(20, Attestation(20, 0)) && PcOf(w, 1) == Verifying(MergeRecord(10, 0))
    ensures Walks(w, p, end) && end.history != []
    ensures |end.landings| == 1 && end.landings[0].base != end.landings[0].parent
  {
    var w1 := Do(w, 1, RevertPush(1));
    end := Do(w1, 3, Land(2, ShaKnown));
    p := Stop(end);
    p := Before(w1, 3, Land(2, ShaKnown), end, p, end);
    p := Before(w, 1, RevertPush(1), w1, p, end);
  }

  lemma RunTwoStealsUnheld() returns (p: Path, end: World)
    ensures Walks(Start(), p, end)
    ensures end.reg.files == map[Legacy := Lease(10, 1, "s", 0, 5000, 1, Some(2))] && end.reg.lane.None?
    ensures end.pcs == map[2 := Recovering(10, 1)] && end.atts == Start().atts && end.now == 5000
    ensures end.history == [0] && end.landings == [] && end.strays == {} && !end.halted
  {
    var w := Start();
    assert HolderOf(w.reg.files, 10) == Some(Legacy);
    end := Do(w, 2, Steal(10, 1));
    p := Stop(end);
    p := Before(w, 2, Steal(10, 1), end, p, end);
  }

  /** Run 2 drops run 1's stale lease; the dead run's lane is not yet freed. */
  lemma RunTwoDrops() returns (p: Path, end: World)
    ensures Walks(Start(), p, end)
    ensures end.reg.files == map[] && end.reg.lane.None?
    ensures end.pcs == map[2 := Discarding(1)] && end.atts == Start().atts && end.now == 5000
    ensures end.history == [0] && end.landings == [] && end.strays == {} && !end.halted
  {
    var w;
    p, w := RunTwoStealsUnheld();
    end := Do(w, 2, DropLease);
    assert end.reg.files == map[];
    var q := Stop(end);
    q := Before(w, 2, DropLease, end, q, end);
    p := Join(Start(), p, w, q, end);
  }

  /** A run id used again after its lease was dropped loses its new lane to the old
      recovery: run 2 recovers run 1's lease and drops it, run 1 claims issue 11 under the
      same id and re-checks, run 2 frees "the dead run's" lane, and runs 3 and 1 both merge. */
  lemma ReusedRunIdBreaksSerialisation() returns (steps: seq<Step>)
    ensures Initial(Start()) && Runs(CFG, Start(), steps)
    ensures var end := Final(CFG, Start(), steps);
            exists j, k :: 0 <= j < k < |end.landings| && end.landings[j].base == end.landings[k].base
                           && !end.landings[j].stray && !end.landings[k].stray
    ensures !NoLiveLaneFreed(CFG, Start(), steps)
  {
    var p, end := ReusedIdLandsTwice();
    WalksAreRuns(Start(), p, end);
    steps := p.steps;
    if NoLiveLaneFreed(CFG, Start(), steps) {
      MergesAreSerialised(CFG, Start(), steps);
    }
  }

  lemma ReusedIdLandsTwice() returns (p: Path, end: World)
    ensures Walks(Start(), p, end) && end.history != []
    ensures |end.landings| == 2 && end.landings[0].base == end.landings[1].base
    ensures !end.landings[0].stray && !end.landings[1].stray
  {
    var w, w1, q;
    p, w := OldRecoveryFreesTheNewLane();
    q, w1 := RunRechecks(w, 3, 20);
    p := Join(Start(), p, w, q, w1);
    q, end := BothLand(w1);
    p := Join(Start(), p, w1, q, end);
  }

  lemma OldRecoveryFreesTheNewLane() returns (p: Path, end: World)
    ensures Walks(Start(), p, end)
    ensures end.reg.files == map[IssueFile(11) := NewLease(5000, NewClaim(1, 11))] && end.reg.lane.None?
    ensures end.pcs == map[1 := Rechecked(11, Attestation(11, 0)), 2 := Idle] && end.atts == Start().atts
    ensures end.history == [0] && end.landings == [] && end.strays == {} && !end.halted
  {
    var w, q;
    p, w := ReusedIdRechecks();
    q, end := RunTwoFreesTheLane(w);
    p := Join(Start(), p, w, q, end);
  }

  lemma ReusedIdRechecks() returns (p: Path, end: World)
    ensures Walks(Start(), p, end)
    ensures end.reg.files == map[IssueFile(11) := NewLease(5000, NewClaim(1, 11))]
    ensures end.reg.lane.Some? && end.reg.lane.value.runId == 1
    ensures end.pcs == map[1 := Rechecked(11, Attestation(11, 0)), 2 := Discarding(1)] && end.atts == Start().atts
    ensures end.history == [0] && end.landings == [] && end.strays == {} && !end.halted
  {
    var w, q;
    p, w := RunTwoDrops();
    q, end := RunRechecks(w, 1, 11);
    p := Join(Start(), p, w, q, end);
  }

  lemma RunTwoFreesTheLane(w: World) returns (p: Path, end: World)
    requires w.history != [] && PcOf(w, 2) == Discarding(1) && w.reg.lane.Some? && w.reg.lane.value.runId == 1
    ensures Walks(w, p, end)
    ensures end.reg == w.reg.(lane := None) && end.pcs == w.pcs[2 := Idle] && end.atts == w.atts
    ensures end.history == w.history && end.landings == w.landings && end.strays == w.strays
    ensures end.halted == w.halted && end.now == w.now
  {
    end := Do(w, 2, FreeDeadLane);
    p := Stop(end);
    p := Before(w, 2, FreeDeadLane, end, p, end);
  }

  lemma BothLand(w: World) returns (p: Path, end: World)
    requires w.history == [0] && w.landings == [] && w.strays == {}
    requires IssueFile(20) in w.reg.files && w.reg.files[IssueFile(20)].runId == 3
    requires IssueFile(11) in w.reg.files && w.reg.files[IssueFile(11)].runId == 1
    requires PcOf(w, 3) == Rechecked(20, Attestation(20, 0)) && PcOf(w, 1) == Rechecked(11, Attestation(11, 0))
    ensures Walks(w, p, end) && end.history != []
    ensures |end.landings| == 2 && end.landings[0].base == end.landings[1].base
    ensures !end.landings[0].stray && !end.landings[1].stray
  {
    var w1 := Do(w, 3, Land(1, ShaKnown));
    end := Do(w1, 1, Land(2, ShaKnown));
    p := Stop(end);
    p := Before(w1, 1, Land(2, ShaKnown), end, p, end);
    p := Before(w, 3, Land(1, ShaKnown), w1, p, end);
  }

  // ---- a merge over an unverified one ----------------------------------------

  /** Run 3's merge lands as commit 1, GitHub's answer is an error, and run 3 frees the lane. */
  lemma RunThreeLandsUnknowing() returns (p: Path, end: World)
    ensures Walks(Start(), p, end) && FreesNothing(p)
    ensures end.reg.files == Start().reg.files[IssueFile(20) := NewLease(5000, NewClaim(3, 20))] && end.reg.lane.None?
    ensures end.history == [0, 1] && end.unverified == {1} && |end.landings| == 1 && end.landings[0].run == 3
    ensures end.now == 5000
  {
    var w, q;
    p, w := RunRechecks(Start(), 3, 20);
    Own(w.reg.files, 3, IssueFile(20));
    q, end := LandsUnknowing(w);
    p := Join(Start(), p, w, q, end);
  }

  lemma LandsUnknowing(w: World) returns (p: Path, end: World)
    requires w.history == [0] && w.landings == [] && w.unverified == {} && !w.halted
    requires OwnFile(w.reg.files, 3) == Some(IssueFile(20)) && PcOf(w, 3) == Rechecked(20, Attestation(20, 0))
    requires w.reg.lane.Some? && w.reg.lane.value.runId == 3
    ensures Walks(w, p, end) && FreesNothing(p)
    ensures end.reg == w.reg.(lane := None) && end.now == w.now
    ensures end.history == [0, 1] && end.unverified == {1} && |end.landings| == 1 && end.landings[0].run == 3
  {
    var land := Land(1, ReportedFailed);
    var w1 := Do(w, 3, land);
    p, end := Leaves(w1, 3);
    p := Before(w, 3, land, w1, p, end);
  }

  lemma Leaves(w: World, r: RunId) returns (p: Path, end: World)
    requires w.history != [] && w.reg.lane.Some? && w.reg.lane.value.runId == r && CanAct(CFG, w, r, LeaveLane)
    ensures Walks(w, p, end) && p.steps == [By(r, LeaveLane)] && FreesNothing(p)
    ensures end.reg == w.reg.(lane := None) && end.now == w.now
    ensures end.history == w.history && end.unverified == w.unverified && end.landings == w.landings
  {
    end := Do(w, r, LeaveLane);
    p := Stop(end);
    p := Before(w, r, LeaveLane, end, p, end);
  }

  /** A merge that landed although its call reported an error gives the lane up unverified, and
      another run's whole merge lands over it. */
  lemma UnverifiedMergeIsOvertaken() returns (steps: seq<Step>)
    ensures Initial(Start()) && Runs(CFG, Start(), steps) && NoLiveLaneFreed(CFG, Start(), steps)
    ensures OtherLandsOver(Final(CFG, Start(), steps), 0, 3, 1)
  {
    var p, w := RunThreeLandsUnknowing();
    WalksAreRuns(Start(), p, w);
    NoFreeingStep(Start(), p.steps);
    assert Named(w.reg.files, 1) by {
      assert w.reg.files[Legacy].runId == 1;
    }
    InitialInv(Start());
    RunsKeepInv(CFG, Start(), p.steps);
    var more, end := OtherRunLands(CFG, w, 1, 3);
    steps := p.steps + more;
    RunsJoin(Start(), p.steps, w, more);
    assert end.landings[1].run == 1 && 1 in end.landings[1].over;
  }

  const MERGED_IN_VAIN := [By(3, Land(1, ShaUnavailable)), By(3, MergeStart), By(3, MergeTakeLane),
                           By(3, RecheckRefuse), By(3, LeaveLane)]

  /** Run 3's merge lands and GitHub names no commit, so the lane is kept; run 3 merges again,
      the re-check refuses (`master` is no longer the attested base), and the lane is freed. */
  lemma SecondMergeFreesTheLane() returns (steps: seq<Step>)
    ensures Initial(Start()) && Runs(CFG, Start(), steps + MERGED_IN_VAIN)
    ensures var end := Final(CFG, Start(), steps + MERGED_IN_VAIN); 1 in end.unverified && end.reg.lane.None?
  {
    var p, w := RunRechecks(Start(), 3, 20);
    Own(w.reg.files, 3, IssueFile(20));
    var q, end := LandsUnnamed(w);
    steps := p.steps;
    JoinedRuns(Start(), p, w, q, end);
  }

  lemma JoinedRuns(w: World, p: Path, mid: World, q: Path, end: World)
    requires Walks(w, p, mid) && Walks(mid, q, end) && end.history != []
    ensures Runs(CFG, w, p.steps + q.steps) && Final(CFG, w, p.steps + q.steps) == end
  {
    var whole := Join(w, p, mid, q, end);
    WalksAreRuns(w, whole, end);
  }

  lemma LandsUnnamed(w: World) returns (p: Path, end: World)
    requires w.history == [0] && w.landings == [] && w.unverified == {} && !w.halted
    requires OwnFile(w.reg.files, 3) == Some(IssueFile(20)) && PcOf(w, 3) == Rechecked(20, Attestation(20, 0))
    requires w.reg.files[IssueFile(20)].issue == 20
    requires w.reg.lane.Some? && w.reg.lane.value.runId == 3 && w.reg.lane.value.issue == 20
    ensures Walks(w, p, end) && p.steps == MERGED_IN_VAIN && end.history != []
    ensures 1 in end.unverified && end.reg.lane.None?
  {
    var land := Land(1, ShaUnavailable);
    var w1 := Do(w, 3, land);
    p, end := MergesAgain(w1);
    p := Before(w, 3, land, w1, p, end);
  }

  lemma MergesAgain(w: World) returns (p: Path, end: World)
    requires w.history == [0, 1] && w.unverified == {1} && !w.halted && PcOf(w, 3).Idle?
    requires OwnFile(w.reg.files, 3) == Some(IssueFile(20)) && w.reg.files[IssueFile(20)].issue == 20
    requires w.reg.lane.Some? && w.reg.lane.value.runId == 3 && w.reg.lane.value.issue == 20
    ensures Walks(w, p, end) && p.steps == MERGED_IN_VAIN[1..] && end.history != []
    ensures 1 in end.unverified && end.reg.lane.None?
  {
    assert IsOwn(w.reg.files, 3, IssueFile(20));
    var w1 := Do(w, 3, MergeStart);
    assert PcOf(w1, 3) == MergeFenced(20);
    p, end := RefusedInTheLane(w1);
    p := Before(w, 3, MergeStart, w1, p, end);
  }

  lemma RefusedInTheLane(w: World) returns (p: Path, end: World)
    requires w.history == [0, 1] && w.unverified == {1} && PcOf(w, 3) == MergeFenced(20)
    requires IssueFile(20) in w.reg.files && w.reg.files[IssueFile(20)].issue == 20
    requires w.reg.files[IssueFile(20)].runId == 3 && w.reg.lane.Some?
    requires w.reg.lane.value.runId == 3 && w.reg.lane.value.issue == 20
    ensures Walks(w, p, end) && p.steps == MERGED_IN_VAIN[2..] && end.history != []
    ensures 1 in end.unverified && end.reg.lane.None?
  {
    var w1 := Do(w, 3, MergeTakeLane);
    var w2 := Do(w1, 3, RecheckRefuse);
    p, end := Leaves(w2, 3);
    p := Before(w1, 3, RecheckRefuse, w2, p, end);
    p := Before(w, 3, MergeTakeLane, w1, p, end);
  }

  lemma {:induction false} NoFreeingStep(w: World, steps: seq<Step>)
    requires Runs(CFG, w, steps) && forall s :: s in steps ==> !(s.By? && s.act.FreeDeadLane?)
    ensures NoLiveLaneFreed(CFG, w, steps)
    decreases |steps|
  {
    if steps != [] {
      assert steps[0] in steps;
      NoFreeingStep(Apply(w, steps[0]), steps[1..]);
    }
  }

  lemma {:induction false} RunsJoin(w: World, first: seq<Step>, mid: World, second: seq<Step>)
    requires Runs(CFG, w, first) && Final(CFG, w, first) == mid && Runs(CFG, mid, second)
    ensures Runs(CFG, w, first + second) && Final(CFG, w, first + second) == Final(CFG, mid, second)
    ensures NoLiveLaneFreed(CFG, w, first) && NoLiveLaneFreed(CFG, mid, second) ==>
              NoLiveLaneFreed(CFG, w, first + second)
    decreases |first|
  {
    if first == [] {
      assert first + second == second;
    } else {
      assert (first + second)[1..] == first[1..] + second;
      RunsJoin(Apply(w, first[0]), first[1..], mid, second);
    }
  }

  // ---- a lease lost under recovery -------------------------------------------

  /** Run 2 steals the stale lease of run 1, which wakes and finishes: issue 10 has no lease
      while run 2 is still recovering it. */
  lemma SleeperUnleasesRecoveredIssue() returns (steps: seq<Step>)
    ensures Initial(Start()) && Runs(CFG, Start(), steps)
    ensures var end := Final(CFG, Start(), steps);
            PcOf(end, 2) == Recovering(10, 1) && !Leased(end.reg.files, 10) && Leased(Start().reg.files, 10)
  {
    var p, w := RunTwoStealsUnheld();
    var q, end := SleeperFinishes(w);
    p := Join(Start(), p, w, q, end);
    WalksAreRuns(Start(), p, end);
    steps := p.steps;
  }

  lemma SleeperFinishes(w: World) returns (p: Path, end: World)
    requires w.reg.files == map[Legacy := Lease(10, 1, "s", 0, 5000, 1, Some(2))] && w.reg.lane.None?
    requires w.pcs == map[2 := Recovering(10, 1)] && w.history == [0]
    ensures Walks(w, p, end)
    ensures end.reg.files == map[] && PcOf(end, 2) == Recovering(10, 1) && end.history == [0]
  {
    Own(w.reg.files, 1, Legacy);
    var w1 := Do(w, 1, FinishLane);
    p, end := SleeperReleases(w1);
    p := Before(w, 1, FinishLane, w1, p, end);
  }

  lemma SleeperReleases(w: World) returns (p: Path, end: World)
    requires w.reg.files == map[Legacy := Lease(10, 1, "s", 0, 5000, 1, Some(2))]
    requires w.pcs == map[1 := Finishing, 2 := Recovering(10, 1)] && w.history == [0]
    ensures Walks(w, p, end)
    ensures end.reg.files == map[] && PcOf(end, 2) == Recovering(10, 1) && end.history == [0]
  {
    Own(w.reg.files, 1, Legacy);
    end := Do(w, 1, FinishRelease);
    assert end.reg.files == map[];
    p := Stop(end);
    p := Before(w, 1, FinishRelease, end, p, end);
  }

  // ---- a live lease taken ----------------------------------------------------

  /** Run 2 steals the stale lease of run 1 and falls asleep until that lease is stale again;
      run 3 steals it. Its heartbeat is now, it is marked for run 3, and run 2 can drop it. */
  lemma OutbidRecoveryDropsLiveLease() returns (steps: seq<Step>)
    ensures Initial(Start()) && Runs(CFG, Start(), steps)
    ensures var w := Final(CFG, Start(), steps);
            && w.history != [] && CanAct(CFG, w, 2, DropLease) && Legacy in w.reg.files
            && w.reg.files[Legacy].heartbeat == w.now && w.reg.files[Legacy].recoveringBy == Some(3)
            && Legacy !in Do(w, 2, DropLease).reg.files
  {
    var p, w := RunTwoStealsUnheld();
    var q, end := RunThreeSteals(w);
    p := Join(Start(), p, w, q, end);
    WalksAreRuns(Start(), p, end);
    steps := p.steps;
  }

  lemma RunThreeSteals(w: World) returns (p: Path, end: World)
    requires w.reg.files == map[Legacy := Lease(10, 1, "s", 0, 5000, 1, Some(2))] && w.now == 5000
    requires w.pcs == map[2 := Recovering(10, 1)] && w.history == [0]
    ensures Walks(w, p, end) && end.history == [0] && end.now == 7000
    ensures end.reg.files == map[Legacy := Lease(10, 1, "s", 0, 7000, 1, Some(3))]
    ensures PcOf(end, 2) == Recovering(10, 1)
  {
    var w1 := Apply(w, Clock(2000));
    assert HolderOf(w1.reg.files, 10) == Some(Legacy);
    end := Do(w1, 3, Steal(10, 1));
    p := Stop(end);
    p := Before(w1, 3, Steal(10, 1), end, p, end);
    p := BeforeStep(w, Clock(2000), w1, p, end);
  }
}

/** What every interleaving keeps: who holds leases, who holds the lane, and
    that a merge lands on the base it was re-checked against. */
module MergeSafety {
  import opened Wrappers
  import opened Leases
  import opened MergeProtocol

  // ---- leases and run ids -------------------------------------------------

  /** Every file is named by its issue and no run is named twice. */
  ghost predicate OneLeasePerRun(files: Files) {
    && NamesMatch(files)
    && (forall f, g :: f in files && g in files && files[f].runId == files[g].runId ==> f == g)
  }

  /** Only the lease that counts for its issue is ever marked as being recovered. */
  predicate MarkedIsHolder(files: Files) {
    forall f :: f in files && files[f].recoveringBy.Some? ==> HolderOf(files, files[f].issue) == Some(f)
  }

  /** What holds under any run ids: one lease per run, none for a run that is recovering. */
  ghost predicate LeasesOk(w: World) {
    && OneLeasePerRun(w.reg.files)
    && MarkedIsHolder(w.reg.files)
    && (forall r :: PcOf(w, r).Recovering? ==> !Named(w.reg.files, r))
  }

  /** `run` holds no lease and is not about to get one by a handover. */
  ghost predicate Deposed(w: World, run: RunId) {
    !Named(w.reg.files, run) && !PcOf(w, run).Recovering?
  }

  /** No lease of `issue` is being recovered by `run`. */
  ghost predicate Outbid(w: World, run: RunId, issue: int) {
    forall f :: f in w.reg.files && w.reg.files[f].issue == issue ==> w.reg.files[f].recoveringBy != Some(run)
  }

  predicate SameLease(files: Files, files': Files, f: LeaseFile)
    requires f in files'
  {
    f in files && files[f].runId == files'[f].runId && files[f].issue == files'[f].issue
  }

  /** Where a lease can come from: it was there, or the acting run claimed it or was handed it. */
  predicate NewLeaseOf(w: World, r: RunId, act: Act, f: LeaseFile, files': Files)
    requires f in files'
  {
    files'[f].runId == r && (act.DoClaim? || (act.HandOver? && PcOf(w, r).Recovering?))
  }

  lemma ActKeepsLeases(w: World, r: RunId, act: Act)
    requires act.DoClaim? ==> act.claim.run == r
    ensures var files' := RegAfter(w, r, act).files;
            forall f :: f in files' ==> SameLease(w.reg.files, files', f) || NewLeaseOf(w, r, act, f, files')
    ensures NamesMatch(w.reg.files) ==> NamesMatch(RegAfter(w, r, act).files)
  {
  }

  /** A run that does not act keeps exactly the lease it has, or loses it. */
  lemma OthersKeepTheirLease(cfg: Config, w: World, r: RunId, act: Act, q: RunId)
    requires w.history != [] && CanAct(cfg, w, r, act) && OneLeasePerRun(w.reg.files)
    requires q != r && Named(RegAfter(w, r, act).files, q)
    ensures Named(w.reg.files, q)
    ensures forall issue :: Holds(w.reg.files, issue, q) ==> Holds(RegAfter(w, r, act).files, issue, q)
  {
    ActKeepsLeases(w, r, act);
    var files, files' := w.reg.files, RegAfter(w, r, act).files;
    var f :| f in files' && files'[f].runId == q;
    assert SameLease(files, files', f);
    forall issue | Holds(files, issue, q)
      ensures Holds(files', issue, q)
    {
      assert OwnerFile(files, issue, q).value == f;
    }
  }

  /** The acting run gets at most one lease: it had none, or it keeps its own. */
  lemma ActKeepsOneLease(cfg: Config, w: World, r: RunId, act: Act)
    requires w.history != [] && CanAct(cfg, w, r, act) && LeasesOk(w)
    ensures OneLeasePerRun(RegAfter(w, r, act).files)
  {
    ActKeepsLeases(w, r, act);
    var files, files' := w.reg.files, RegAfter(w, r, act).files;
    forall f, g | f in files' && g in files' && files'[f].runId == files'[g].runId
      ensures f == g
    {
      if NewLeaseOf(w, r, act, f, files') || NewLeaseOf(w, r, act, g, files') {
        assert !Named(files, r);
      }
    }
  }

  /** Only a steal marks a lease, and it marks the one it stole. */
  lemma ActKeepsMarks(w: World, r: RunId, act: Act, f: LeaseFile)
    requires f in RegAfter(w, r, act).files && RegAfter(w, r, act).files[f].recoveringBy.Some?
    ensures f in w.reg.files && w.reg.files[f].issue == RegAfter(w, r, act).files[f].issue
    ensures (act.Steal? && RegAfter(w, r, act).files[f].recoveringBy == Some(r)
             && HolderOf(w.reg.files, act.issue) == Some(f))
            || w.reg.files[f].recoveringBy == RegAfter(w, r, act).files[f].recoveringBy
  {
  }

  /** A lease that counts for its issue goes on counting while it is there. */
  lemma HolderStays(cfg: Config, w: World, r: RunId, act: Act, f: LeaseFile)
    requires w.history != [] && CanAct(cfg, w, r, act) && NamesMatch(w.reg.files)
    requires f in RegAfter(w, r, act).files && RegAfter(w, r, act).files[f].recoveringBy.Some?
    requires f in w.reg.files && HolderOf(w.reg.files, w.reg.files[f].issue) == Some(f)
    ensures HolderOf(RegAfter(w, r, act).files, RegAfter(w, r, act).files[f].issue) == Some(f)
  {
  }

  lemma ActKeepsMarkedHolders(cfg: Config, w: World, r: RunId, act: Act)
    requires w.history != [] && CanAct(cfg, w, r, act) && LeasesOk(w)
    ensures MarkedIsHolder(RegAfter(w, r, act).files)
  {
    var files' := RegAfter(w, r, act).files;
    forall f | f in files' && files'[f].recoveringBy.Some?
      ensures HolderOf(files', files'[f].issue) == Some(f)
    {
      ActKeepsMarks(w, r, act, f);
      HolderStays(cfg, w, r, act, f);
    }
  }

  /** What any act does to places in commands and lease holders. */
  ghost predicate IdFacts(w: World, r: RunId, act: Act, w': World) {
    && (forall q :: q != r ==> PcOf(w', q) == PcOf(w, q))
    && (PcOf(w', r).Recovering? ==> act.Steal? || PcOf(w', r) == PcOf(w, r))
    && (PcOf(w', r).Discarding? ==> act.DropLease? || PcOf(w', r) == PcOf(w, r))
    && (act.HandOver? ==> PcOf(w', r).Idle?)
    && (forall f :: f in w'.reg.files ==>
          SameLease(w.reg.files, w'.reg.files, f) || NewLeaseOf(w, r, act, f, w'.reg.files))
  }

  /** Which places of a command an act leads to. */
  lemma ActPcFacts(w: World, r: RunId, act: Act)
    ensures PcAfter(w, r, act).Recovering? ==> act.Steal? || PcAfter(w, r, act) == PcOf(w, r)
    ensures PcAfter(w, r, act).Discarding? ==> act.DropLease? || PcAfter(w, r, act) == PcOf(w, r)
    ensures act.HandOver? ==> PcAfter(w, r, act).Idle?
  {
  }

  lemma ActIdFacts(cfg: Config, w: World, r: RunId, act: Act)
    requires w.history != [] && CanAct(cfg, w, r, act)
    ensures IdFacts(w, r, act, Do(w, r, act))
  {
    ActPcFacts(w, r, act);
    ActKeepsLeases(w, r, act);
    var w' := Do(w, r, act);
    assert w'.reg == RegAfter(w, r, act) && PcOf(w', r) == PcAfter(w, r, act);
  }

  lemma ActKeepsLeasesOk(cfg: Config, w: World, r: RunId, act: Act)
    requires w.history != [] && CanAct(cfg, w, r, act) && LeasesOk(w)
    ensures LeasesOk(Do(w, r, act))
  {
    ActKeepsOneLease(cfg, w, r, act);
    ActKeepsMarkedHolders(cfg, w, r, act);
    ActIdFacts(cfg, w, r, act);
    var w' := Do(w, r, act);
    assert w'.reg == RegAfter(w, r, act);
    forall q, f | PcOf(w', q).Recovering? && f in w'.reg.files
      ensures w'.reg.files[f].runId != q
    {
      assert SameLease(w.reg.files, w'.reg.files, f) || NewLeaseOf(w, r, act, f, w'.reg.files);
    }
  }

  /** The act starts a claim or a recovery under its run's id. */
  predicate Starts(act: Act) {
    act.DoClaim? || act.Steal?
  }

  /** A deposed run stays deposed until a claim or a recovery starts under its id. */
  lemma DeposedStays(w: World, r: RunId, act: Act, w': World, q: RunId)
    requires IdFacts(w, r, act, w') && Deposed(w, q) && !(r == q && Starts(act))
    ensures Deposed(w', q)
  {
    forall f | f in w'.reg.files
      ensures w'.reg.files[f].runId != q
    {
      assert SameLease(w.reg.files, w'.reg.files, f) || NewLeaseOf(w, r, act, f, w'.reg.files);
    }
  }

  // ---- the merge lane -----------------------------------------------------

  /** The lane names `r` under a lease `r` still has. */
  predicate LaneHeld(reg: Registry, r: RunId, issue: int) {
    Holds(reg.files, issue, r) && reg.lane.Some? && reg.lane.value.runId == r && reg.lane.value.issue == issue
  }

  /** A merge under way whose fence still passes has its lease, and past `take_lane` the lane. */
  ghost predicate LaneOk(w: World, r: RunId) {
    Fenced(w, r) ==>
      match PcOf(w, r)
      case MergeFenced(issue) => Holds(w.reg.files, issue, r)
      case InLane(issue) => LaneHeld(w.reg, r, issue)
      case Rechecked(issue, _) => LaneHeld(w.reg, r, issue)
      case _ => true
  }

  /** A recovery frees the lane of the dead run it names while a merge under that id is in
      the lane: the id was used again before the recovery was over. */
  predicate FreesLiveLane(w: World, s: Step) {
    s.By? && s.act.FreeDeadLane? && PcOf(w, s.run).Discarding? &&
    var q := PcOf(w, s.run).staleRun;
    Fenced(w, q) && (PcOf(w, q).InLane? || PcOf(w, q).Rechecked?)
  }

  /** Nobody but a recovery that names the run can move a lane whose owner keeps its lease. */
  lemma OthersLeaveTheLane(cfg: Config, w: World, r: RunId, act: Act, q: RunId, issue: int)
    requires w.history != [] && CanAct(cfg, w, r, act) && LeasesOk(w)
    requires q != r && LaneHeld(w.reg, q, issue) && Named(RegAfter(w, r, act).files, q)
    requires !(act.FreeDeadLane? && PcOf(w, r).staleRun == q)
    ensures LaneHeld(RegAfter(w, r, act), q, issue)
  {
    OthersKeepTheirLease(cfg, w, r, act, q);
    var reg' := RegAfter(w, r, act);
    if act.HandOver? && reg'.lane != w.reg.lane {
      var f := HolderOf(w.reg.files, PcOf(w, r).issue).value;
      assert w.reg.files[f].runId == q;
      assert forall g :: g in w.reg.files && w.reg.files[g].runId == q ==> g == f;
      ActKeepsLeases(w, r, act);
    }
    assert reg'.lane == w.reg.lane;
  }

  lemma OthersKeepTheLane(cfg: Config, w: World, r: RunId, act: Act, q: RunId)
    requires w.history != [] && CanAct(cfg, w, r, act) && LeasesOk(w) && LaneOk(w, q) && q != r
    requires !FreesLiveLane(w, By(r, act))
    ensures LaneOk(Do(w, r, act), q)
  {
    if Named(RegAfter(w, r, act).files, q) {
      OthersKeepTheirLease(cfg, w, r, act, q);
      if PcOf(w, q).InLane? || PcOf(w, q).Rechecked? {
        OthersLeaveTheLane(cfg, w, r, act, q, PcOf(w, q).issue);
      }
    }
  }

  lemma ActorKeepsTheLane(cfg: Config, w: World, r: RunId, act: Act)
    requires w.history != [] && CanAct(cfg, w, r, act) && LeasesOk(w) && LaneOk(w, r)
    ensures LaneOk(Do(w, r, act), r)
  {
    match act
    case MergeStart =>
    case MergeTakeLane =>
    case RecheckPass =>
    case DoBeat =>
    case Attest(_) =>
    case _ =>
      OnlyMergeActsNeedTheLane(cfg, w, r, act);
  }

  lemma OnlyMergeActsNeedTheLane(cfg: Config, w: World, r: RunId, act: Act)
    requires w.history != [] && CanAct(cfg, w, r, act)
    requires !act.MergeStart? && !act.MergeTakeLane? && !act.RecheckPass? && !act.DoBeat? && !act.Attest?
    ensures var pc' := PcAfter(w, r, act); !pc'.MergeFenced? && !pc'.InLane? && !pc'.Rechecked?
  {
  }

  // ---- the base a merge lands on ------------------------------------------

  /** A re-checked run's base is a past or present `master`; it is `master` still exactly
      when no stray revert came since, as long as the run keeps its lease. */
  ghost predicate BaseOk(w: World, r: RunId)
    requires w.history != []
  {
    match PcOf(w, r)
    case Rechecked(_, att) =>
      && att.base in w.history
      && (r in w.strays ==> att.base != Master(w))
      && (Fenced(w, r) && r !in w.strays ==> att.base == Master(w))
    case _ => true
  }

  ghost predicate LandingsOk(w: World)
    requires w.history != []
  {
    && (forall k :: 0 <= k < |w.landings| ==>
          w.landings[k].parent in w.history && w.landings[k].parent != Master(w))
    && (forall j, k :: 0 <= j < k < |w.landings| ==> w.landings[j].parent != w.landings[k].parent)
    && (forall k :: 0 <= k < |w.landings| ==> (w.landings[k].base == w.landings[k].parent <==> !w.landings[k].stray))
  }

  ghost predicate Inv(w: World) {
    && w.history != [] && Distinct(w.history)
    && LeasesOk(w)
    && (forall r :: LaneOk(w, r))
    && (forall r :: BaseOk(w, r))
    && LandingsOk(w)
  }

  /** `master` is moved by the one run whose merge holds the lane, or by a stray revert. */
  lemma OnlyTheLaneMovesMaster(cfg: Config, w: World, r: RunId, act: Act, q: RunId)
    requires Inv(w) && CanAct(cfg, w, r, act) && HistoryAfter(w, act) != w.history
    requires q != r && PcOf(w, q).Rechecked? && Fenced(w, q)
    ensures act.RevertPush? && !LaneMine(w, r)
  {
    assert LaneOk(w, q) && LaneOk(w, r);
  }

  lemma ActKeepsBase(cfg: Config, w: World, r: RunId, act: Act, q: RunId)
    requires Inv(w) && CanAct(cfg, w, r, act)
    ensures BaseOk(Do(w, r, act), q)
  {
    var w' := Do(w, r, act);
    assert BaseOk(w, q);
    if q == r {
      match act
      case RecheckPass =>
      case DoBeat => ActKeepsLeases(w, r, act);
      case Attest(_) =>
      case _ => assert !PcAfter(w, r, act).Rechecked?;
    } else if PcOf(w, q).Rechecked? {
      if Fenced(w', q) {
        OthersKeepTheirLease(cfg, w, r, act, q);
        if w'.history != w.history {
          OnlyTheLaneMovesMaster(cfg, w, r, act, q);
        }
      }
    }
  }

  lemma ActKeepsLandings(cfg: Config, w: World, r: RunId, act: Act)
    requires Inv(w) && CanAct(cfg, w, r, act)
    ensures LandingsOk(Do(w, r, act)) && Distinct(HistoryAfter(w, act))
  {
    assert BaseOk(w, r);
    var w' := Do(w, r, act);
    if act.Land? {
      assert w'.history == w.history + [act.sha];
      assert w'.landings[..|w.landings|] == w.landings;
    }
  }

  lemma ActKeepsInv(cfg: Config, w: World, r: RunId, act: Act)
    requires Inv(w) && CanAct(cfg, w, r, act) && !FreesLiveLane(w, By(r, act))
    ensures Inv(Do(w, r, act))
  {
    ActKeepsLeasesOk(cfg, w, r, act);
    ActKeepsLandings(cfg, w, r, act);
    forall q ensures LaneOk(Do(w, r, act), q) {
      if q == r { ActorKeepsTheLane(cfg, w, r, act); } else { OthersKeepTheLane(cfg, w, r, act, q); }
    }
    forall q ensures BaseOk(Do(w, r, act), q) { ActKeepsBase(cfg, w, r, act, q); }
  }

  /** Time, HALT and the loop counter touch none of it. */
  lemma EnvironmentKeepsInv(w: World, s: Step)
    requires Inv(w) && !s.By?
    ensures Inv(Apply(w, s))
  {
    var w' := Apply(w, s);
    forall q ensures LaneOk(w', q) && BaseOk(w', q) {
      assert LaneOk(w, q) && BaseOk(w, q);
    }
  }

  lemma InitialInv(w: World)
    requires Initial(w)
    ensures Inv(w)
  {
  }

  ghost predicate NoLiveLaneFreed(cfg: Config, w: World, steps: seq<Step>)
    requires Runs(cfg, w, steps)
    decreases |steps|
  {
    steps == [] || (!FreesLiveLane(w, steps[0]) && NoLiveLaneFreed(cfg, Apply(w, steps[0]), steps[1..]))
  }

  lemma StepKeepsInv(cfg: Config, w: World, s: Step)
    requires Inv(w) && Enabled(cfg, w, s) && !FreesLiveLane(w, s)
    ensures Inv(Apply(w, s))
  {
    if s.By? {
      ActKeepsInv(cfg, w, s.run, s.act);
    } else {
      EnvironmentKeepsInv(w, s);
    }
  }

  lemma {:induction false} RunsKeepInv(cfg: Config, w: World, steps: seq<Step>)
    requires Inv(w) && Runs(cfg, w, steps) && NoLiveLaneFreed(cfg, w, steps)
    ensures Inv(Final(cfg, w, steps))
    decreases |steps|
  {
    if steps != [] {
      StepKeepsInv(cfg, w, steps[0]);
      RunsKeepInv(cfg, Apply(w, steps[0]), steps[1..]);
    }
  }

  lemma StepKeepsLeases(cfg: Config, w: World, s: Step)
    requires w.history != [] && LeasesOk(w) && Enabled(cfg, w, s)
    ensures LeasesOk(Apply(w, s))
  {
    if s.By? {
      ActKeepsLeasesOk(cfg, w, s.run, s.act);
    }
  }

  /** The leases are sound over every run, whatever ids are used. */
  lemma {:induction false} RunsKeepLeases(cfg: Config, w: World, steps: seq<Step>)
    requires LeasesOk(w) && Runs(cfg, w, steps)
    ensures LeasesOk(Final(cfg, w, steps))
    decreases |steps|
  {
    if steps != [] {
      StepKeepsLeases(cfg, w, steps[0]);
      RunsKeepLeases(cfg, Apply(w, steps[0]), steps[1..]);
    }
  }
}

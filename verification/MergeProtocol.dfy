/** Any number of runs sharing one `.agent` directory and one `master`
    (scripts/agentflow/cli.py: claim, merge, post-merge, finish, recover).

    A step is one critical section, one file write or one remote call of one
    run; steps of different runs interleave freely, time passes at any point
    and a process may die between any two of its steps. */
module MergeProtocol {
  import opened Wrappers
  import opened Leases

  /** What `attest` bound: the issue it was told, and the base `B`. */
  datatype Attestation = Attestation(issue: int, base: Sha)

  datatype MergeRecord = MergeRecord(issue: int, mergeSha: Sha)

  /** Where a run's current command is; `Idle` between commands. */
  datatype Pc =
    | Idle
    | Claiming(charged: bool)                 // the lease exists, the claim can still be rolled back
    | RollingBack(charged: bool)              // released, the loop unit not yet given back
    | MergeFenced(issue: int)                 // merge: fence passed, lane not yet taken
    | InLane(issue: int)                      // merge: lane taken, gate re-check pending
    | Rechecked(issue: int, att: Attestation) // merge: re-check passed, GitHub not yet asked
    | Landed(issue: int, att: Attestation, sha: Sha)
    | Recording(att: Attestation, sha: Sha)   // merge: lane stamped, merge record not yet written
    | LeavingLane                             // about to release the lane it took
    | Verifying(rec: MergeRecord)             // post-merge: between its lane and its verdict
    | Finishing                               // finish: lane released, lease not yet
    | Recovering(issue: int, staleRun: RunId) // recover: lease stolen
    | Discarding(staleRun: RunId)             // recover: lease dropped, dead run's lane not yet freed

  /** One commit a merge landed on `master`: by whom, on which attested base, over
      which parent, whether a stray revert had moved `master` since the re-check, and
      the merges that were still unverified then. */
  datatype Landing = Landing(run: RunId, base: Sha, parent: Sha, stray: bool, over: set<Sha>)

  /** The history of the loop counter: what was charged, ticked, given back and
      reset, the largest budget passed, and the claims that may still give a unit back. */
  datatype Ledger = Ledger(charged: nat, ticks: nat, refunds: nat, resets: nat, budget: int, owing: set<RunId>)

  datatype World = World(
    reg: Registry,
    now: Time,
    history: seq<Sha>,               // `master`, oldest first
    pcs: map<RunId, Pc>,
    atts: map<RunId, Attestation>,
    records: map<RunId, MergeRecord>,
    halted: bool,
    landings: seq<Landing>,
    unverified: set<Sha>,            // merges landed, neither verified nor reverted since
    strays: set<RunId>,              // runs whose re-check a stray revert has outdated
    counted: set<int>,               // issues whose lease was taken against `slots`
    ledger: Ledger)

  datatype LandOutcome = ShaKnown | ShaUnavailable | ReportedFailed

  datatype Act =
    | Crash
    | DoBeat
    | DoClaim(claim: Claim, disk: Disk)
    | ClaimDone
    | RollbackRelease
    | RollbackRefund
    | Attest(att: Attestation)
    | MergeStart
    | MergeTakeLane
    | RecheckPass
    | RecheckRefuse
    | Land(sha: Sha, outcome: LandOutcome)
    | LandFail
    | StampLane
    | WriteRecord
    | LeaveLane
    | VerifyStart
    | VerifyPass
    | VerifyStop
    | RevertPush(sha: Sha)
    | FinishLane
    | FinishRelease
    | Steal(issue: int, staleRun: RunId)
    | HandOver(started: Time, stage: HandoverStage, mergeSha: Sha)
    | DropLease
    | FreeDeadLane

  datatype Step = By(run: RunId, act: Act) | Clock(seconds: nat) | Halt(on: bool) | Tick(max: int) | Reset

  // ---- the step relation --------------------------------------------------

  function PcOf(w: World, run: RunId): Pc {
    if run in w.pcs then w.pcs[run] else Idle
  }

  function Master(w: World): Sha
    requires w.history != []
  {
    w.history[|w.history| - 1]
  }

  predicate LaneMine(w: World, run: RunId) {
    LaneStateOf(w.reg, w.now, run) == Mine
  }

  /** `check_fence`: some lease names the run. */
  predicate Fenced(w: World, run: RunId) {
    Named(w.reg.files, run)
  }

  function LeasedIssues(files: Files): set<int> {
    set f | f in files :: files[f].issue
  }

  /** What an act needs of its run's place in its command and of the files it reads. A claim
      or a recovery may run under any id, one used before included. */
  predicate CanAct(cfg: Config, w: World, r: RunId, act: Act)
    requires w.history != []
  {
    var pc := PcOf(w, r);
    match act
    case Crash => true
    case DoBeat => Fenced(w, r)
    case DoClaim(c, disk) =>
      pc.Idle? && c.run == r && (c.countSlot ==> !w.halted) &&
      AcquireRefusal(w.reg, cfg, disk, w.now, c).None?
    case ClaimDone => pc.Claiming?
    case RollbackRelease => pc.Claiming?
    case RollbackRefund => pc.RollingBack?
    case Attest(_) => pc.Idle?
    case MergeStart => pc.Idle? && !w.halted && Fenced(w, r)
    case MergeTakeLane => pc.MergeFenced?
    case RecheckPass => pc.InLane? && r in w.atts && w.atts[r].base == Master(w)
    case RecheckRefuse => pc.InLane?
    case Land(sha, _) => pc.Rechecked? && Fenced(w, r) && sha !in w.history
    case LandFail => pc.Rechecked?
    case StampLane => pc.Landed?
    case WriteRecord => pc.Recording?
    case LeaveLane => pc.LeavingLane?
    case VerifyStart => pc.Idle? && Fenced(w, r) && r in w.records
    case VerifyPass => pc.Verifying?
    case VerifyStop => pc.Verifying?
    case RevertPush(sha) => pc.Verifying? && Master(w) == pc.rec.mergeSha && sha !in w.history
    case FinishLane => pc.Idle? && Fenced(w, r)
    case FinishRelease => pc.Finishing?
    case Steal(issue, staleRun) =>
      pc.Idle? && StealRefusal(w.reg, w.now, r, issue, staleRun).None?
    case HandOver(_, _, _) => pc.Recovering?
    case DropLease => pc.Recovering?
    case FreeDeadLane => pc.Discarding?
  }

  /** The registry after the act; the lane is taken only when it is open to the run. */
  ghost function RegAfter(w: World, r: RunId, act: Act): Registry {
    var pc := PcOf(w, r);
    var open := LaneOpen(w.reg, w.now, r);
    match act
    case DoBeat => BeatResult(w.reg, w.now, r).0
    case DoClaim(c, _) => Acquired(w.reg, w.now, c)
    case RollbackRelease => ReleaseResult(w.reg, r).0
    case RollbackRefund => if pc.RollingBack? && pc.charged then Refunded(w.reg) else w.reg
    case MergeTakeLane => if pc.MergeFenced? && open then LaneTaken(w.reg, w.now, r, pc.issue, None, None) else w.reg
    case StampLane => if pc.Landed? && open then LaneTaken(w.reg, w.now, r, pc.issue, None, Some(pc.sha)) else w.reg
    case LeaveLane => LaneReleased(w.reg, r)
    case VerifyStart =>
      if r in w.records && open then
        LaneTaken(w.reg, w.now, r, w.records[r].issue, None, Some(w.records[r].mergeSha))
      else w.reg
    case FinishLane => LaneReleased(w.reg, r)
    case FinishRelease => ReleaseResult(w.reg, r).0
    case Steal(issue, _) => if HolderOf(w.reg.files, issue).Some? then Stolen(w.reg, w.now, r, issue) else w.reg
    case HandOver(started, stage, _) =>
      if pc.Recovering? && CanHandOver(w.reg, r, pc.issue) then
        HandedOver(w.reg, w.now, r, pc.issue, started, stage)
      else w.reg
    case DropLease => if pc.Recovering? then Leases.Dropped(w.reg, pc.issue, pc.staleRun) else w.reg
    case FreeDeadLane => if pc.Discarding? then LaneReleased(w.reg, pc.staleRun) else w.reg
    case _ => w.reg
  }

  ghost function PcAfter(w: World, r: RunId, act: Act): Pc {
    var pc := PcOf(w, r);
    var open := LaneOpen(w.reg, w.now, r);
    match act
    case DoBeat => pc
    case DoClaim(c, _) => Claiming(c.loopMax.Some?)
    case RollbackRelease => if pc.Claiming? then RollingBack(pc.charged) else Idle
    case Attest(_) => pc
    case MergeStart =>
      var own := OwnFile(w.reg.files, r);
      if own.Some? then MergeFenced(w.reg.files[own.value].issue) else Idle
    case MergeTakeLane => if pc.MergeFenced? && open then InLane(pc.issue) else Idle
    case RecheckPass => if pc.InLane? && r in w.atts then Rechecked(pc.issue, w.atts[r]) else Idle
    case RecheckRefuse => LeavingLane
    case Land(sha, outcome) =>
      if !pc.Rechecked? || outcome.ShaUnavailable? then Idle
      else if outcome.ReportedFailed? then LeavingLane
      else Landed(pc.issue, pc.att, sha)
    case LandFail => LeavingLane
    case StampLane => if pc.Landed? && open then Recording(pc.att, pc.sha) else Idle
    case VerifyStart => if r in w.records && open then Verifying(w.records[r]) else Idle
    case VerifyPass => LeavingLane
    case FinishLane => Finishing
    case Steal(issue, staleRun) => Recovering(issue, staleRun)
    case DropLease => if pc.Recovering? then Discarding(pc.staleRun) else Idle
    case _ => Idle
  }

  function HistoryAfter(w: World, act: Act): seq<Sha> {
    match act
    case Land(sha, _) => w.history + [sha]
    case RevertPush(sha) => w.history + [sha]
    case _ => w.history
  }

  function LandingsAfter(w: World, r: RunId, act: Act): seq<Landing>
    requires w.history != []
  {
    if act.Land? && PcOf(w, r).Rechecked? then
      w.landings + [Landing(r, PcOf(w, r).att.base, Master(w), r in w.strays, w.unverified)]
    else w.landings
  }

  /** A merge is unverified from its landing until a post-merge passes it or a revert of it lands. */
  function UnverifiedAfter(w: World, r: RunId, act: Act): set<Sha> {
    var pc := PcOf(w, r);
    match act
    case Land(sha, _) => w.unverified + {sha}
    case VerifyPass => if pc.Verifying? then w.unverified - {pc.rec.mergeSha} else w.unverified
    case RevertPush(_) => if pc.Verifying? then w.unverified - {pc.rec.mergeSha} else w.unverified
    case _ => w.unverified
  }

  function RecheckedRuns(w: World): set<RunId> {
    set q | q in w.pcs && w.pcs[q].Rechecked?
  }

  /** A revert pushed by a run whose lane it is not is stray: it outdates every
      re-check made so far. A new re-check starts clean. */
  function StraysAfter(w: World, r: RunId, act: Act): set<RunId> {
    match act
    case RecheckPass => w.strays - {r}
    case RevertPush(_) => if LaneMine(w, r) then w.strays else w.strays + RecheckedRuns(w)
    case _ => w.strays
  }

  function CountedAfter(w: World, act: Act, files': Files): set<int> {
    (if act.DoClaim? && act.claim.countSlot then w.counted + {act.claim.issue} else w.counted) * LeasedIssues(files')
  }

  function Max(a: int, b: int): int {
    if a < b then b else a
  }

  function LedgerAfter(w: World, r: RunId, act: Act): Ledger {
    var l := w.ledger;
    match act
    case DoClaim(c, _) =>
      if c.loopMax.Some? then
        l.(charged := l.charged + 1, owing := l.owing + {r}, budget := Max(l.budget, c.loopMax.value))
      else l
    case ClaimDone => l.(owing := l.owing - {r})
    case RollbackRefund =>
      if PcOf(w, r) == RollingBack(true) then l.(refunds := l.refunds + 1, owing := l.owing - {r}) else l
    case _ => l
  }

  function RecordsAfter(w: World, r: RunId, act: Act): map<RunId, MergeRecord> {
    var pc := PcOf(w, r);
    match act
    case WriteRecord => if pc.Recording? then w.records[r := MergeRecord(pc.att.issue, pc.sha)] else w.records
    case HandOver(_, stage, sha) =>
      if pc.Recovering? && stage.LaneMoved? && CanHandOver(w.reg, r, pc.issue) then
        w.records[r := MergeRecord(pc.issue, sha)]
      else w.records
    case _ => w.records
  }

  ghost function Do(w: World, r: RunId, act: Act): World
    requires w.history != []
  {
    var reg := RegAfter(w, r, act);
    World(reg, w.now, HistoryAfter(w, act), w.pcs[r := PcAfter(w, r, act)],
          if act.Attest? then w.atts[r := act.att] else w.atts,
          RecordsAfter(w, r, act),
          w.halted || act.VerifyStop? || act.RevertPush?,
          LandingsAfter(w, r, act), UnverifiedAfter(w, r, act), StraysAfter(w, r, act),
          CountedAfter(w, act, reg.files), LedgerAfter(w, r, act))
  }

  predicate Enabled(cfg: Config, w: World, s: Step)
    requires w.history != []
  {
    match s
    case By(r, act) => CanAct(cfg, w, r, act)
    case Tick(max) => LoopNext(w.reg.issuesDone, max).Some?
    case _ => true
  }

  ghost function Apply(w: World, s: Step): World
    requires w.history != []
  {
    match s
    case By(r, act) => Do(w, r, act)
    case Clock(d) => w.(now := w.now + d)
    case Halt(on) => w.(halted := on)
    case Tick(max) =>
      w.(reg := w.reg.(issuesDone := w.reg.issuesDone + 1),
         ledger := w.ledger.(ticks := w.ledger.ticks + 1, budget := Max(w.ledger.budget, max)))
    case Reset => w.(reg := w.reg.(issuesDone := 0), ledger := w.ledger.(resets := w.ledger.resets + 1))
  }

  // ---- runs of the protocol -----------------------------------------------

  ghost predicate Runs(cfg: Config, w: World, steps: seq<Step>)
    decreases |steps|
  {
    w.history != [] &&
    (steps == [] || (Enabled(cfg, w, steps[0]) && Runs(cfg, Apply(w, steps[0]), steps[1..])))
  }

  ghost function Final(cfg: Config, w: World, steps: seq<Step>): World
    requires Runs(cfg, w, steps)
    decreases |steps|
  {
    if steps == [] then w else Final(cfg, Apply(w, steps[0]), steps[1..])
  }

  ghost predicate Distinct(s: seq<Sha>) {
    forall i, j :: 0 <= i < j < |s| ==> s[i] != s[j]
  }

  /** A checkout before any run: at most the legacy lease, and no command under way. */
  ghost predicate Initial(w: World) {
    && w.history != [] && Distinct(w.history)
    && (forall f :: f in w.reg.files ==> f == Legacy && w.reg.files[f].recoveringBy.None?)
    && w.reg.lane.None? && w.reg.issuesDone == 0
    && w.pcs == map[] && w.landings == [] && w.unverified == {} && w.strays == {} && w.counted == {}
    && w.ledger == Ledger(0, 0, 0, 0, 0, {})
  }
}

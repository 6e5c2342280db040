/** The per-issue leases, the merge lane and the loop counter
    (scripts/agentflow/lock.py, scripts/agentflow/budget.py).

    Each public entry point runs in one critical section of mutex `registry`
    (`beat` and `release` take no mutex and are single file writes), so each is
    one function from registry to registry here, and the class `LeaseStore`
    performs the same entry points by updating its fields.
    Run ids, sessions and pull requests are opaque; a clock reading is a number. */
module Leases {
  import opened Wrappers

  type RunId = nat
  type Time = int
  type Sha = nat

  const STALE_SECONDS: Time := 30 * 60

  datatype Lease = Lease(issue: int, runId: RunId, session: string, started: Time, heartbeat: Time,
                         attempt: nat, recoveringBy: Option<RunId>)

  /** `.agent/lock.json`, or `.agent/locks/issue-<n>.json`. */
  datatype LeaseFile = Legacy | IssueFile(n: int)

  datatype Lane = Lane(runId: RunId, issue: int, pr: Option<nat>, mergeSha: Option<Sha>, acquired: Time)

  datatype LaneState = Free | Mine | Busy | Orphaned

  type Files = map<LeaseFile, Lease>

  /** The shared state: lease files, `.agent/merge-lane.json`, `issues_done` of `loop.json`. */
  datatype Registry = Registry(files: Files, lane: Option<Lane>, issuesDone: nat)

  datatype Config = Config(slots: nat, minFreeGb: nat, reserveGbPerRun: nat, targetRoot: bool)

  /** Free GB next to the root, and on the drive of `target_root` when one is configured. */
  datatype Disk = Disk(freeGb: nat, targetFreeGb: nat)

  datatype Claim = Claim(run: RunId, issue: int, session: string, attempt: nat, started: Option<Time>,
                         countSlot: bool, loopMax: Option<int>)

  datatype Refusal =
    | RunHoldsALock
    | LoopExhausted
    | IssueHeld(holder: RunId)
    | SlotsFull
    | DiskLow
    | TargetsDiskLow
    | LockGone
    | LockLive(owner: RunId)
    | Fence
    | LaneRefused(state: LaneState)

  // ---- reading the lease set ---------------------------------------------

  predicate IsStale(lease: Lease, now: Time) {
    now - lease.heartbeat > STALE_SECONDS
  }

  /** A lease under `locks/` is stored in the file named by its issue. */
  predicate NamesMatch(files: Files) {
    forall f :: f in files && f.IssueFile? ==> files[f].issue == f.n
  }

  predicate Named(files: Files, run: RunId) {
    exists f :: f in files && files[f].runId == run
  }

  predicate Leased(files: Files, issue: int) {
    HolderOf(files, issue).Some?
  }

  /** Some lease is for `issue` and names `run`. */
  predicate Holds(files: Files, issue: int, run: RunId) {
    OwnerFile(files, issue, run).Some?
  }

  /** The first lease of `issue` in `_entries` order (the legacy file sorts first). */
  function HolderOf(files: Files, issue: int): Option<LeaseFile> {
    if Legacy in files && files[Legacy].issue == issue then Some(Legacy)
    else if IssueFile(issue) in files then Some(IssueFile(issue))
    else None
  }

  /** The first lease that is for `issue` and names `run`. */
  function OwnerFile(files: Files, issue: int, run: RunId): Option<LeaseFile> {
    if Legacy in files && files[Legacy].issue == issue && files[Legacy].runId == run then Some(Legacy)
    else if IssueFile(issue) in files && files[IssueFile(issue)].runId == run then Some(IssueFile(issue))
    else None
  }

  /** `_entries` order: by issue, the legacy file before the issue file. */
  predicate Precedes(files: Files, f: LeaseFile, g: LeaseFile)
    requires f in files && g in files
  {
    files[f].issue < files[g].issue || (files[f].issue == files[g].issue && f.Legacy?)
  }

  /** `f` is the lease `own` returns for `run`: the first one that names it. */
  predicate IsOwn(files: Files, run: RunId, f: LeaseFile) {
    f in files && files[f].runId == run &&
    forall g :: g in files && files[g].runId == run ==> g == f || Precedes(files, f, g)
  }

  ghost function OwnFile(files: Files, run: RunId): (o: Option<LeaseFile>)
    ensures o.Some? ==> IsOwn(files, run, o.value)
    ensures o.None? ==> !exists f :: IsOwn(files, run, f)
  {
    if exists f :: IsOwn(files, run, f) then
      var f :| IsOwn(files, run, f);
      Some(f)
    else None
  }

  /** The entries before `own` is asked about: only one can be first. */
  lemma OwnIsUnique(files: Files, run: RunId, f: LeaseFile, g: LeaseFile)
    requires NamesMatch(files)
    requires IsOwn(files, run, f) && IsOwn(files, run, g)
    ensures f == g
  {
  }

  function LiveCount(files: Files, now: Time): nat {
    |set f | f in files && !IsStale(files[f], now)|
  }

  // ---- the entry points, as functions of the registry ---------------------

  function LoopNext(done: nat, max: int): Option<nat> {
    if done + 1 > max then None else Some(done + 1)
  }

  function DiskRefusal(cfg: Config, disk: Disk, live: nat): Option<Refusal> {
    if disk.freeGb < cfg.minFreeGb + (if cfg.targetRoot then 0 else cfg.reserveGbPerRun * live) then Some(DiskLow)
    else if cfg.targetRoot && disk.targetFreeGb < cfg.reserveGbPerRun * live then Some(TargetsDiskLow)
    else None
  }

  function AcquireRefusal(reg: Registry, cfg: Config, disk: Disk, now: Time, c: Claim): Option<Refusal> {
    if Named(reg.files, c.run) then Some(RunHoldsALock)
    else if c.loopMax.Some? && LoopNext(reg.issuesDone, c.loopMax.value).None? then Some(LoopExhausted)
    else
      match HolderOf(reg.files, c.issue)
      case Some(f) => Some(IssueHeld(reg.files[f].runId))
      case None =>
        if c.countSlot && |reg.files| >= cfg.slots then Some(SlotsFull)
        else if c.countSlot then DiskRefusal(cfg, disk, LiveCount(reg.files, now))
        else None
  }

  /** Room for the run: the floor on the root's drive and the reserve of every run that beat
      within half an hour, on the drive the runs build on. */
  predicate DiskSuffices(cfg: Config, disk: Disk, files: Files, now: Time) {
    var reserve := cfg.reserveGbPerRun * |set f | f in files && now - files[f].heartbeat <= 1800|;
    if cfg.targetRoot then cfg.minFreeGb <= disk.freeGb && reserve <= disk.targetFreeGb
    else cfg.minFreeGb + reserve <= disk.freeGb
  }

  lemma DiskRefusedUnlessItSuffices(cfg: Config, disk: Disk, files: Files, now: Time)
    ensures DiskRefusal(cfg, disk, LiveCount(files, now)).None? <==> DiskSuffices(cfg, disk, files, now)
  {
    assert (set f | f in files && !IsStale(files[f], now)) == (set f | f in files && now - files[f].heartbeat <= 1800);
  }

  lemma OwnerExists(files: Files, issue: int, run: RunId)
    requires NamesMatch(files)
    ensures OwnerFile(files, issue, run).Some? <==>
              exists f :: f in files && files[f].issue == issue && files[f].runId == run
    ensures HolderOf(files, issue).Some? <==> exists f :: f in files && files[f].issue == issue
  {
    if OwnerFile(files, issue, run).Some? {
      var f := OwnerFile(files, issue, run).value;
      assert f in files && files[f].issue == issue && files[f].runId == run;
    }
    if HolderOf(files, issue).Some? {
      assert files[HolderOf(files, issue).value].issue == issue;
    }
    forall f | f in files && files[f].issue == issue
      ensures f == Legacy || f == IssueFile(issue)
    {
      assert f.IssueFile? ==> f == IssueFile(f.n);
    }
  }

  function NewLease(now: Time, c: Claim): Lease {
    Lease(c.issue, c.run, c.session, if c.started.Some? then c.started.value else now, now, c.attempt, None)
  }

  function Acquired(reg: Registry, now: Time, c: Claim): Registry {
    reg.(files := reg.files[IssueFile(c.issue) := NewLease(now, c)],
         issuesDone := if c.loopMax.Some? then reg.issuesDone + 1 else reg.issuesDone)
  }

  ghost function BeatResult(reg: Registry, now: Time, run: RunId): (Registry, bool) {
    match OwnFile(reg.files, run)
    case None => (reg, false)
    case Some(f) => (reg.(files := reg.files[f := reg.files[f].(heartbeat := now)]), true)
  }

  ghost function ReleaseResult(reg: Registry, run: RunId): (Registry, bool) {
    match OwnFile(reg.files, run)
    case None => (reg, false)
    case Some(f) => (reg.(files := reg.files - {f}), true)
  }

  function StealRefusal(reg: Registry, now: Time, run: RunId, issue: int, staleRun: RunId): Option<Refusal> {
    if Named(reg.files, run) then Some(RunHoldsALock)
    else
      match HolderOf(reg.files, issue)
      case None => Some(LockGone)
      case Some(f) =>
        if reg.files[f].runId != staleRun then Some(LockGone)
        else if !IsStale(reg.files[f], now) then Some(LockLive(staleRun))
        else None
  }

  function Stolen(reg: Registry, now: Time, run: RunId, issue: int): Registry
    requires HolderOf(reg.files, issue).Some?
  {
    var f := HolderOf(reg.files, issue).value;
    reg.(files := reg.files[f := reg.files[f].(heartbeat := now, recoveringBy := Some(run))])
  }

  predicate CanHandOver(reg: Registry, run: RunId, issue: int) {
    var holder := HolderOf(reg.files, issue);
    holder.Some? && reg.files[holder.value].recoveringBy == Some(run)
  }

  function FollowThrough(previous: Lease, now: Time, run: RunId, started: Time): Lease {
    Lease(previous.issue, run, "recover", started, now, previous.attempt, None)
  }

  /** How far `handover` got: the new lease is written, then a legacy file is
      removed, then the lane follows. A process can die after any write. */
  datatype HandoverStage = LeaseWritten | LegacyRemoved | LaneMoved

  function HandedOver(reg: Registry, now: Time, run: RunId, issue: int, started: Time, stage: HandoverStage): Registry
    requires CanHandOver(reg, run, issue)
  {
    var f := HolderOf(reg.files, issue).value;
    var previous := reg.files[f];
    var target := IssueFile(issue);
    var written := reg.files[target := FollowThrough(previous, now, run, started)];
    var files := if f != target && !stage.LeaseWritten? then written - {f} else written;
    var lane := if stage.LaneMoved? && reg.lane.Some? && reg.lane.value.runId == previous.runId
                then Some(reg.lane.value.(runId := run)) else reg.lane;
    reg.(files := files, lane := lane)
  }

  function LaneStateOf(reg: Registry, now: Time, run: RunId): LaneState {
    match reg.lane
    case None => Free
    case Some(lane) =>
      match OwnerFile(reg.files, lane.issue, lane.runId)
      case None => Free
      case Some(owner) =>
        if lane.runId == run then Mine
        else if IsStale(reg.files[owner], now) then Orphaned
        else Busy
  }

  predicate LaneOpen(reg: Registry, now: Time, run: RunId) {
    LaneStateOf(reg, now, run) in {Free, Mine}
  }

  function LaneTaken(reg: Registry, now: Time, run: RunId, issue: int, pr: Option<nat>, sha: Option<Sha>): Registry {
    var acquired := if LaneStateOf(reg, now, run) == Mine then reg.lane.value.acquired else now;
    reg.(lane := Some(Lane(run, issue, pr, sha, acquired)))
  }

  function LaneReleased(reg: Registry, run: RunId): Registry {
    if reg.lane.Some? && reg.lane.value.runId == run then reg.(lane := None) else reg
  }

  function Dropped(reg: Registry, issue: int, expected: RunId): Registry {
    match OwnerFile(reg.files, issue, expected)
    case None => reg
    case Some(f) => reg.(files := reg.files - {f})
  }

  function Refunded(reg: Registry): Registry {
    reg.(issuesDone := if reg.issuesDone == 0 then 0 else reg.issuesDone - 1)
  }

  // ---- the store ----------------------------------------------------------

  class LeaseStore {
    var files: Files
    var lane: Option<Lane>
    var issuesDone: nat

    function View(): Registry
      reads this
    {
      Registry(files, lane, issuesDone)
    }

    ghost predicate Valid()
      reads this
    {
      NamesMatch(files)
    }

    constructor (legacy: Option<Lease>)
      ensures Valid()
      ensures View() == Registry(if legacy.Some? then map[Legacy := legacy.value] else map[], None, 0)
    {
      files := if legacy.Some? then map[Legacy := legacy.value] else map[];
      lane := None;
      issuesDone := 0;
    }

    /** `own`: scan every entry and keep the first in `_entries` order. */
    method Own(run: RunId) returns (found: Option<LeaseFile>)
      requires Valid()
      ensures found == OwnFile(files, run)
      ensures found.None? <==> !Named(files, run)
    {
      found := None;
      var todo := files.Keys;
      while todo != {}
        invariant todo <= files.Keys
        invariant found.None? ==> forall g :: g in files && files[g].runId == run ==> g in todo
        invariant found.Some? ==> found.value in files && files[found.value].runId == run
        invariant found.Some? ==> forall g :: g in files && files[g].runId == run ==>
                    g in todo || g == found.value || Precedes(files, found.value, g)
      {
        var f :| f in todo;
        todo := todo - {f};
        if files[f].runId == run && (found.None? || Precedes(files, f, found.value)) {
          found := Some(f);
        }
      }
      if found.Some? {
        assert IsOwn(files, run, found.value);
        OwnIsUnique(files, run, found.value, OwnFile(files, run).value);
      }
    }

    /** `check_fence`: the run's own lease, and for the named issue if one is given. */
    method CheckFence(run: RunId, issue: Option<int>) returns (r: Result<Lease, Refusal>)
      requires Valid()
      ensures r.Ok? <==>
                OwnFile(files, run).Some? && (issue.Some? ==> files[OwnFile(files, run).value].issue == issue.value)
      ensures r.Ok? ==> OwnFile(files, run).Some? && r.value == files[OwnFile(files, run).value]
      ensures r.Err? ==> r.error == Fence
    {
      var f := Own(run);
      if f.None? || (issue.Some? && files[f.value].issue != issue.value) {
        return Err(Fence);
      }
      return Ok(files[f.value]);
    }

    method Acquire(cfg: Config, disk: Disk, now: Time, c: Claim) returns (r: Result<Lease, Refusal>)
      requires Valid()
      modifies this
      ensures Valid()
      ensures AcquireRefusal(old(View()), cfg, disk, now, c).Some? ==>
                r == Err(AcquireRefusal(old(View()), cfg, disk, now, c).value) && View() == old(View())
      ensures AcquireRefusal(old(View()), cfg, disk, now, c).None? ==>
                r == Ok(NewLease(now, c)) && View() == Acquired(old(View()), now, c)
      ensures r.Ok? <==>
                && (forall f :: f in old(files) ==> old(files)[f].runId != c.run && old(files)[f].issue != c.issue)
                && (c.loopMax.Some? ==> old(issuesDone) < c.loopMax.value)
                && (c.countSlot ==> |old(files)| < cfg.slots && DiskSuffices(cfg, disk, old(files), now))
      ensures r.Ok? ==>
                && r.value == Lease(c.issue, c.run, c.session, if c.started.Some? then c.started.value else now, now,
                                    c.attempt, None)
                && files == old(files)[IssueFile(c.issue) := r.value] && lane == old(lane)
                && issuesDone == old(issuesDone) + if c.loopMax.Some? then 1 else 0
    {
      DiskRefusedUnlessItSuffices(cfg, disk, files, now);
      OwnerExists(files, c.issue, c.run);
      var mine := Own(c.run);
      if mine.Some? {
        return Err(RunHoldsALock);
      }
      var after := None;
      if c.loopMax.Some? {
        after := LoopNext(issuesDone, c.loopMax.value);
        if after.None? {
          return Err(LoopExhausted);
        }
      }
      var held := HolderOf(files, c.issue);
      if held.Some? {
        return Err(IssueHeld(files[held.value].runId));
      }
      if c.countSlot {
        if |files| >= cfg.slots {
          return Err(SlotsFull);
        }
        var low := DiskRefusal(cfg, disk, LiveCount(files, now));
        if low.Some? {
          return Err(low.value);
        }
      }
      var lease := NewLease(now, c);
      files := files[IssueFile(c.issue) := lease];
      if after.Some? {
        issuesDone := after.value;
      }
      return Ok(lease);
    }

    method Beat(now: Time, run: RunId) returns (ok: bool)
      requires Valid()
      modifies this`files
      ensures Valid()
      ensures (View(), ok) == BeatResult(old(View()), now, run)
    {
      var f := Own(run);
      if f.None? {
        return false;
      }
      files := files[f.value := files[f.value].(heartbeat := now)];
      return true;
    }

    method Release(run: RunId) returns (ok: bool)
      requires Valid()
      modifies this`files
      ensures Valid()
      ensures (View(), ok) == ReleaseResult(old(View()), run)
    {
      var f := Own(run);
      if f.None? {
        return false;
      }
      files := files - {f.value};
      return true;
    }

    method StealForRecovery(now: Time, run: RunId, stale: Lease) returns (r: Result<Lease, Refusal>)
      requires Valid()
      modifies this`files
      ensures Valid()
      ensures StealRefusal(old(View()), now, run, stale.issue, stale.runId).Some? ==>
                r == Err(StealRefusal(old(View()), now, run, stale.issue, stale.runId).value) && View() == old(View())
      ensures StealRefusal(old(View()), now, run, stale.issue, stale.runId).None? ==>
                View() == Stolen(old(View()), now, run, stale.issue) &&
                r == Ok(files[HolderOf(files, stale.issue).value])
      ensures r.Ok? ==>
                var f := HolderOf(old(files), stale.issue).value;
                && !Named(old(files), run) && old(files)[f].runId == stale.runId
                && now - old(files)[f].heartbeat > 1800
                && files == old(files)[f := old(files)[f].(heartbeat := now, recoveringBy := Some(run))]
    {
      var mine := Own(run);
      if mine.Some? {
        return Err(RunHoldsALock);
      }
      var e := HolderOf(files, stale.issue);
      if e.None? || files[e.value].runId != stale.runId {
        return Err(LockGone);
      }
      if !IsStale(files[e.value], now) {
        return Err(LockLive(files[e.value].runId));
      }
      var cur := files[e.value].(heartbeat := now, recoveringBy := Some(run));
      files := files[e.value := cur];
      return Ok(cur);
    }

    method Handover(now: Time, run: RunId, issue: int, started: Time) returns (ok: bool)
      requires Valid()
      modifies this`files, this`lane
      ensures Valid()
      ensures ok == CanHandOver(old(View()), run, issue)
      ensures View() == if ok then HandedOver(old(View()), now, run, issue, started, LaneMoved) else old(View())
      ensures ok ==>
                var f := HolderOf(old(files), issue).value;
                && old(files)[f].recoveringBy == Some(run)
                && files == (old(files) - {f})[IssueFile(issue) :=
                      Lease(old(files)[f].issue, run, "recover", started, now, old(files)[f].attempt, None)]
                && (old(lane).Some? && old(lane).value.runId == old(files)[f].runId ==>
                      lane == Some(old(lane).value.(runId := run)))
                && (old(lane).None? || old(lane).value.runId != old(files)[f].runId ==> lane == old(lane))
    {
      var e := HolderOf(files, issue);
      if e.None? || files[e.value].recoveringBy != Some(run) {
        return false;
      }
      var previous := files[e.value];
      var target := IssueFile(issue);
      files := files[target := FollowThrough(previous, now, run, started)];
      if e.value != target {
        files := files - {e.value};
      }
      if lane.Some? && lane.value.runId == previous.runId {
        lane := Some(lane.value.(runId := run));
      }
      return true;
    }

    method TakeLane(now: Time, run: RunId, issue: int, pr: Option<nat>, sha: Option<Sha>)
      returns (r: Result<Lane, Refusal>)
      requires Valid()
      modifies this`lane
      ensures LaneOpen(old(View()), now, run) ==>
                View() == LaneTaken(old(View()), now, run, issue, pr, sha) && r == Ok(lane.value)
      ensures !LaneOpen(old(View()), now, run) ==>
                View() == old(View()) && r == Err(LaneRefused(LaneStateOf(old(View()), now, run)))
      ensures r.Err? <==>
                old(lane).Some? && old(lane).value.runId != run &&
                exists f :: f in files && files[f].issue == old(lane).value.issue &&
                            files[f].runId == old(lane).value.runId
    {
      if lane.Some? {
        OwnerExists(files, lane.value.issue, lane.value.runId);
      }
      var state := LaneStateOf(View(), now, run);
      if state == Busy || state == Orphaned {
        return Err(LaneRefused(state));
      }
      var taken := Lane(run, issue, pr, sha, if state == Mine then lane.value.acquired else now);
      lane := Some(taken);
      return Ok(taken);
    }

    method ReleaseLane(run: RunId) returns (freed: bool)
      modifies this`lane
      ensures View() == LaneReleased(old(View()), run)
      ensures freed == (old(lane).Some? && old(lane).value.runId == run)
    {
      if lane.None? || lane.value.runId != run {
        return false;
      }
      lane := None;
      return true;
    }

    method Drop(issue: int, expected: RunId) returns (removed: bool)
      requires Valid()
      modifies this`files
      ensures Valid()
      ensures View() == Dropped(old(View()), issue, expected)
      ensures removed == Holds(old(files), issue, expected)
    {
      var e := OwnerFile(files, issue, expected);
      if e.None? {
        return false;
      }
      files := files - {e.value};
      return true;
    }

    method LoopTick(max: int) returns (remaining: Option<int>)
      modifies this`issuesDone
      ensures remaining.Some? <==> old(issuesDone) < max
      ensures remaining.Some? ==> issuesDone == old(issuesDone) + 1 && remaining.value == max - issuesDone
      ensures remaining.None? ==> issuesDone == old(issuesDone)
    {
      var after := LoopNext(issuesDone, max);
      if after.None? {
        return None;
      }
      issuesDone := after.value;
      return Some(max - issuesDone);
    }

    method LoopRefund()
      modifies this`issuesDone
      ensures View() == Refunded(old(View()))
    {
      issuesDone := if issuesDone == 0 then 0 else issuesDone - 1;
    }

    method LoopReset()
      modifies this`issuesDone
      ensures View() == old(View()).(issuesDone := 0)
    {
      issuesDone := 0;
    }
  }
}

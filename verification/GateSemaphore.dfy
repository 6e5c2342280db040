/** The gate semaphore (scripts/agentflow/cli.py, over the mutexes of
    scripts/agentflow/state.py): OS locks `gate-0` .. `gate-<n-1>`, each taken and dropped
    in its own step by processes that interleave freely and may die at any point. */
module GateSemaphore {
  import opened Wrappers

  type Pid = nat

  const HEAVY_GATES := {"ci-steps-all", "check-goldens", "check-goldens-regen", "cdo-gate"}
  const EXCLUSIVE_GATES := {"bench", "cdo-gate", "cdo-gate-on-revert"}
  const ON_REVERT := "-on-revert"

  predicate Exclusive(name: string) {
    name in EXCLUSIVE_GATES
  }

  predicate Heavy(name: string) {
    name in HEAVY_GATES || Exclusive(name) || (|ON_REVERT| <= |name| && name[|name| - |ON_REVERT|..] == ON_REVERT)
  }

  /** Which gates take slots, and which take them all. */
  lemma GatesMean(name: string)
    ensures Exclusive(name) <==> name == "bench" || name == "cdo-gate" || name == "cdo-gate-on-revert"
    ensures Heavy(name) <==>
              name in ["ci-steps-all", "check-goldens", "check-goldens-regen", "cdo-gate", "bench"] ||
              exists gate :: name == gate + "-on-revert"
  {
    if |ON_REVERT| <= |name| && name[|name| - |ON_REVERT|..] == ON_REVERT {
      assert name == name[..|name| - |ON_REVERT|] + "-on-revert";
    }
    forall gate | name == gate + "-on-revert"
      ensures |ON_REVERT| <= |name| && name[|name| - |ON_REVERT|..] == ON_REVERT
    {
    }
    assert "cdo-gate-on-revert" == "cdo-gate" + "-on-revert";
  }

  /** Where a process is in `_run_gate`. `round` indexes the key lists it tries in turn, and
      the process holds the first `got` keys of that list. */
  datatype Pc =
    | Idle
    | Light(name: string)
    | Taking(name: string, round: nat, got: nat)
    | BackingOff(name: string, round: nat, got: nat)
    | Queued(name: string)
    | Running(name: string, round: nat)
    | Releasing(name: string, round: nat, got: nat)

  datatype Sys = Sys(slots: seq<Option<Pid>>, pcs: map<Pid, Pc>)

  datatype Step = Ask(pid: Pid, name: string) | TryNext(pid: Pid) | BackOff(pid: Pid) | Wake(pid: Pid)
                | GiveUp(pid: Pid)
                | Finish(pid: Pid) | Unlock(pid: Pid) | Die(pid: Pid)

  function PcOf(s: Sys, pid: Pid): Pc {
    if pid in s.pcs then s.pcs[pid] else Idle
  }

  /** `heavy_gates` of the configuration, at least one. */
  function SlotCount(heavyGates: nat): nat {
    if heavyGates == 0 then 1 else heavyGates
  }

  /** An exclusive gate tries one list of all the keys; any other heavy gate tries `n` lists
      of one key. */
  function KeyCount(name: string, n: nat): nat {
    if Exclusive(name) then n else 1
  }

  function Rounds(name: string, n: nat): nat {
    if Exclusive(name) then 1 else n
  }

  function Key(name: string, round: nat, index: nat): nat {
    if Exclusive(name) then index else round
  }

  function FirstKeys(name: string, round: nat, got: nat): set<nat> {
    set i | 0 <= i < got :: Key(name, round, i)
  }

  function Holds(pc: Pc, n: nat): set<nat> {
    match pc
    case Taking(name, round, got) => FirstKeys(name, round, got)
    case BackingOff(name, round, got) => FirstKeys(name, round, got)
    case Releasing(name, round, got) => FirstKeys(name, round, got)
    case Running(name, round) => FirstKeys(name, round, KeyCount(name, n))
    case _ => {}
  }

  predicate Enabled(s: Sys, step: Step) {
    match PcOf(s, step.pid)
    case Idle => step.Ask?
    case Light(_) => step.Finish? || step.Die?
    case Taking(_, _, _) => step.TryNext? || step.Die?
    case BackingOff(_, _, _) => step.BackOff? || step.Die?
    case Queued(_) => step.Wake? || step.GiveUp? || step.Die?
    case Running(_, _) => step.Finish? || step.Die?
    case Releasing(_, _, _) => step.Unlock? || step.Die?
  }

  /** The slot the step's process is at. */
  function At(pc: Pc): nat {
    match pc
    case Taking(name, round, got) => Key(name, round, got)
    case BackingOff(name, round, got) => if got == 0 then 0 else Key(name, round, got - 1)
    case Releasing(name, round, got) => if got == 0 then 0 else Key(name, round, got - 1)
    case _ => 0
  }

  predicate Taken(s: Sys, pc: Pc) {
    At(pc) < |s.slots| && s.slots[At(pc)].Some?
  }

  function PcAfter(s: Sys, step: Step): Pc
    requires Enabled(s, step)
  {
    var pc, n := PcOf(s, step.pid), |s.slots|;
    match step
    case Ask(_, name) => if Heavy(name) then Taking(name, 0, 0) else Light(name)
    case TryNext(_) =>
      if Taken(s, pc) then BackingOff(pc.name, pc.round, pc.got)
      else if pc.got + 1 >= KeyCount(pc.name, n) then Running(pc.name, pc.round)
      else Taking(pc.name, pc.round, pc.got + 1)
    case BackOff(_) =>
      if pc.got > 0 then BackingOff(pc.name, pc.round, pc.got - 1)
      else if pc.round + 1 < Rounds(pc.name, n) then Taking(pc.name, pc.round + 1, 0)
      else Queued(pc.name)
    case Wake(_) => Taking(pc.name, 0, 0)
    case GiveUp(_) => Idle
    case Finish(_) => if pc.Light? then Idle else Releasing(pc.name, pc.round, KeyCount(pc.name, n))
    case Unlock(_) => if pc.got <= 1 then Idle else Releasing(pc.name, pc.round, pc.got - 1)
    case Die(_) => Idle
  }

  function SlotsAfter(s: Sys, step: Step): seq<Option<Pid>>
    requires Enabled(s, step)
  {
    var pc := PcOf(s, step.pid);
    match step
    case TryNext(pid) => if At(pc) < |s.slots| && !Taken(s, pc) then s.slots[At(pc) := Some(pid)] else s.slots
    case BackOff(_) => if pc.got > 0 && At(pc) < |s.slots| then s.slots[At(pc) := None] else s.slots
    case Unlock(_) => if pc.got > 0 && At(pc) < |s.slots| then s.slots[At(pc) := None] else s.slots
    case Die(pid) =>
      seq(|s.slots|, k requires 0 <= k < |s.slots| => if s.slots[k] == Some(pid) then None else s.slots[k])
    case _ => s.slots
  }

  function Apply(s: Sys, step: Step): Sys
    requires Enabled(s, step)
  {
    Sys(SlotsAfter(s, step), s.pcs[step.pid := PcAfter(s, step)])
  }

  predicate Runs(s: Sys, steps: seq<Step>)
    decreases |steps|
  {
    steps != [] ==> Enabled(s, steps[0]) && Runs(Apply(s, steps[0]), steps[1..])
  }

  function Final(s: Sys, steps: seq<Step>): Sys
    requires Runs(s, steps)
    decreases |steps|
  {
    if steps == [] then s else Final(Apply(s, steps[0]), steps[1..])
  }

  function Start(heavyGates: nat): Sys {
    Sys(seq(SlotCount(heavyGates), _ => None), map[])
  }

  // ---- the invariant -----------------------------------------------------------

  predicate InBounds(pc: Pc, n: nat) {
    match pc
    case Taking(name, round, got) => Heavy(name) && round < Rounds(name, n) && got < KeyCount(name, n)
    case BackingOff(name, round, got) => Heavy(name) && round < Rounds(name, n) && got < KeyCount(name, n)
    case Queued(name) => Heavy(name)
    case Running(name, round) => Heavy(name) && round < Rounds(name, n)
    case Releasing(name, round, got) => Heavy(name) && round < Rounds(name, n) && 0 < got <= KeyCount(name, n)
    case Light(name) => !Heavy(name)
    case Idle => true
  }

  /** The locks a process holds are exactly the ones its program counter says. */
  ghost predicate Inv(s: Sys) {
    && |s.slots| >= 1
    && (forall pid :: InBounds(PcOf(s, pid), |s.slots|))
    && (forall pid: Pid, k :: 0 <= k < |s.slots| ==> (s.slots[k] == Some(pid) <==> k in Holds(PcOf(s, pid), |s.slots|)))
  }

  lemma KeysAreSlots(pc: Pc, n: nat)
    requires n >= 1 && InBounds(pc, n)
    ensures forall k :: k in Holds(pc, n) ==> 0 <= k < n
    ensures pc.Taking? ==> At(pc) < n && At(pc) !in Holds(pc, n)
    ensures (pc.BackingOff? || pc.Releasing?) && pc.got > 0 ==> At(pc) in Holds(pc, n)
  {
    if (pc.BackingOff? || pc.Releasing?) && pc.got > 0 {
      assert Key(pc.name, pc.round, pc.got - 1) in FirstKeys(pc.name, pc.round, pc.got);
    }
  }

  lemma OneMoreKey(name: string, round: nat, got: nat)
    ensures FirstKeys(name, round, got + 1) == FirstKeys(name, round, got) + {Key(name, round, got)}
    ensures Exclusive(name) ==> Key(name, round, got) !in FirstKeys(name, round, got)
  {
  }

  /** How the step changes what its process holds. */
  lemma HoldsAfter(s: Sys, step: Step)
    requires Inv(s) && Enabled(s, step)
    ensures InBounds(PcAfter(s, step), |s.slots|)
    ensures var (pc, n) := (PcOf(s, step.pid), |s.slots|);
            Holds(PcAfter(s, step), n) ==
              if step.TryNext? && !Taken(s, pc) then Holds(pc, n) + {At(pc)}
              else if (step.BackOff? || step.Unlock?) && pc.got > 0 then Holds(pc, n) - {At(pc)}
              else if step.Die? then {}
              else Holds(pc, n)
  {
    var pc, n := PcOf(s, step.pid), |s.slots|;
    assert InBounds(pc, n);
    KeysAreSlots(pc, n);
    if pc.Taking? {
      OneMoreKey(pc.name, pc.round, pc.got);
    } else if (pc.BackingOff? || pc.Releasing?) && pc.got > 0 {
      OneMoreKey(pc.name, pc.round, pc.got - 1);
    }
  }

  lemma StepKeepsInv(s: Sys, step: Step)
    requires Inv(s) && Enabled(s, step)
    ensures Inv(Apply(s, step))
  {
    HoldsAfter(s, step);
    var pc, n := PcOf(s, step.pid), |s.slots|;
    assert InBounds(pc, n);
    KeysAreSlots(pc, n);
    var t := Apply(s, step);
    forall pid: Pid
      ensures InBounds(PcOf(t, pid), n)
    {
      assert InBounds(PcOf(s, pid), n);
    }
    forall pid: Pid, k | 0 <= k < n
      ensures t.slots[k] == Some(pid) <==> k in Holds(PcOf(t, pid), n)
    {
      assert s.slots[k] == Some(pid) <==> k in Holds(PcOf(s, pid), n);
      assert s.slots[k] == Some(step.pid) <==> k in Holds(pc, n);
    }
  }

  lemma {:induction false} RunsKeepInv(s: Sys, steps: seq<Step>)
    requires Inv(s) && Runs(s, steps)
    ensures Inv(Final(s, steps)) && |Final(s, steps).slots| == |s.slots|
    decreases |steps|
  {
    if steps != [] {
      StepKeepsInv(s, steps[0]);
      RunsKeepInv(Apply(s, steps[0]), steps[1..]);
    }
  }

  // ---- what every interleaving keeps ----------------------------------------------

  lemma StartInv(heavyGates: nat)
    ensures Inv(Start(heavyGates))
    ensures |Start(heavyGates).slots| == if heavyGates == 0 then 1 else heavyGates
  {
  }

  /** A gate is running under its name. */
  predicate RunsGate(s: Sys, pid: Pid, name: string) {
    (PcOf(s, pid).Running? || PcOf(s, pid).Light?) && PcOf(s, pid).name == name
  }

  /** The slots are all there is to a heavy gate, so no two processes' heavy gates share one. */
  lemma HeldApart(s: Sys, p: Pid, q: Pid)
    requires Inv(s) && p != q
    ensures Holds(PcOf(s, p), |s.slots|) !! Holds(PcOf(s, q), |s.slots|)
  {
    var n := |s.slots|;
    forall k | k in Holds(PcOf(s, p), n)
      ensures k !in Holds(PcOf(s, q), n)
    {
      assert InBounds(PcOf(s, p), n);
      KeysAreSlots(PcOf(s, p), n);
      assert s.slots[k] == Some(p);
    }
  }

  /** An exclusive gate runs beside no other heavy gate, in any interleaving with any crashes. */
  lemma {:induction false} ExclusiveRunsAlone(heavyGates: nat, steps: seq<Step>, p: Pid, q: Pid, exclusive: string,
                                              other: string)
    requires Runs(Start(heavyGates), steps)
    requires Exclusive(exclusive) && Heavy(other) && p != q
    ensures var s := Final(Start(heavyGates), steps); RunsGate(s, p, exclusive) ==> !RunsGate(s, q, other)
  {
    StartInv(heavyGates);
    RunsKeepInv(Start(heavyGates), steps);
    var s := Final(Start(heavyGates), steps);
    assert InBounds(PcOf(s, p), |s.slots|) && InBounds(PcOf(s, q), |s.slots|);
    if RunsGate(s, p, exclusive) && RunsGate(s, q, other) {
      var round := PcOf(s, q).round;
      var k := Key(other, round, 0);
      assert k in Holds(PcOf(s, q), |s.slots|);
      KeysAreSlots(PcOf(s, q), |s.slots|);
      assert Key(exclusive, 0, k) == k;
      assert k in Holds(PcOf(s, p), |s.slots|);
      HeldApart(s, p, q);
    }
  }

  /** The processes whose heavy gate is running. */
  function InGate(s: Sys): set<Pid> {
    set pid | pid in s.pcs && s.pcs[pid].Running?
  }

  /** At most `heavy_gates` heavy gates run at once (one when it is 0). */
  lemma {:induction false} AtMostNRun(heavyGates: nat, steps: seq<Step>)
    requires Runs(Start(heavyGates), steps)
    ensures |InGate(Final(Start(heavyGates), steps))| <= if heavyGates == 0 then 1 else heavyGates
  {
    StartInv(heavyGates);
    RunsKeepInv(Start(heavyGates), steps);
    var s := Final(Start(heavyGates), steps);
    forall pid | pid in InGate(s)
      ensures Some(pid) in s.slots
    {
      assert InBounds(PcOf(s, pid), |s.slots|);
      var k := Key(s.pcs[pid].name, s.pcs[pid].round, 0);
      KeysAreSlots(PcOf(s, pid), |s.slots|);
      assert k in Holds(PcOf(s, pid), |s.slots|);
      assert s.slots[k] == Some(pid);
    }
    NoMoreThanSlots(InGate(s), s.slots);
  }

  lemma {:induction false} NoMoreThanSlots(pids: set<Pid>, slots: seq<Option<Pid>>)
    requires forall pid :: pid in pids ==> Some(pid) in slots
    ensures |pids| <= |slots|
    decreases |slots|
  {
    if slots == [] {
      assert pids == {};
    } else {
      var rest := if slots[0].Some? then pids - {slots[0].value} else pids;
      assert |pids| <= |rest| + 1;
      forall pid | pid in rest
        ensures Some(pid) in slots[1..]
      {
        var k :| 0 <= k < |slots| && slots[k] == Some(pid);
        assert k > 0 && slots[1..][k - 1] == Some(pid);
      }
      NoMoreThanSlots(rest, slots[1..]);
    }
  }

  /** A process asleep in the queue, or out of a gate, holds no slot. */
  lemma {:induction false} SleepersHoldNothing(heavyGates: nat, steps: seq<Step>, pid: Pid)
    requires Runs(Start(heavyGates), steps)
    requires var pc := PcOf(Final(Start(heavyGates), steps), pid); pc.Queued? || pc.Idle? || pc.Light?
    ensures Some(pid) !in Final(Start(heavyGates), steps).slots
  {
    StartInv(heavyGates);
    RunsKeepInv(Start(heavyGates), steps);
  }

  function Tries(pid: Pid, n: nat): seq<Step> {
    seq(n, _ => TryNext(pid))
  }

  /** No needless refusal: a process whose remaining keys are free, and that nobody crosses,
      gets its whole list. */
  lemma {:induction false} FreeKeysAreTaken(s: Sys, pid: Pid)
    requires Inv(s) && PcOf(s, pid).Taking?
    requires var pc := PcOf(s, pid);
             forall i :: pc.got <= i < KeyCount(pc.name, |s.slots|) ==> s.slots[Key(pc.name, pc.round, i)].None?
    ensures var pc := PcOf(s, pid);
            var steps := Tries(pid, KeyCount(pc.name, |s.slots|) - pc.got);
            Runs(s, steps) && PcOf(Final(s, steps), pid) == Running(pc.name, pc.round)
    decreases KeyCount(PcOf(s, pid).name, |s.slots|) - PcOf(s, pid).got
  {
    var pc, n := PcOf(s, pid), |s.slots|;
    var left := KeyCount(pc.name, n) - pc.got;
    assert InBounds(pc, n);
    KeysAreSlots(pc, n);
    assert s.slots[Key(pc.name, pc.round, pc.got)].None?;
    var t := Apply(s, TryNext(pid));
    assert Tries(pid, left)[1..] == Tries(pid, left - 1);
    if left > 1 {
      StepKeepsInv(s, TryNext(pid));
      assert PcOf(t, pid) == Taking(pc.name, pc.round, pc.got + 1);
      FreeKeysAreTaken(t, pid);
    } else {
      assert PcOf(t, pid) == Running(pc.name, pc.round);
    }
  }

  // ---- the code that takes these steps -----------------------------------------------

  ghost predicate Reaches(s: Sys, steps: seq<Step>, t: Sys) {
    Runs(s, steps) && Final(s, steps) == t
  }

  ghost predicate CanReach(s: Sys, t: Sys) {
    exists steps :: Reaches(s, steps, t)
  }

  lemma {:induction false} Join(s: Sys, first: seq<Step>, t: Sys, second: seq<Step>, u: Sys)
    requires Reaches(s, first, t) && Reaches(t, second, u)
    ensures Reaches(s, first + second, u)
    decreases |first|
  {
    if first == [] {
      assert first + second == second;
    } else {
      Join(Apply(s, first[0]), first[1..], t, second, u);
      assert (first + second)[1..] == first[1..] + second;
    }
  }

  lemma Further(s: Sys, t: Sys, step: Step)
    requires CanReach(s, t) && Enabled(t, step) && Inv(t)
    ensures CanReach(s, Apply(t, step)) && Inv(Apply(t, step))
  {
    var steps :| Reaches(s, steps, t);
    var u := Apply(t, step);
    assert Runs(u, []) && Final(u, []) == u;
    assert [step][1..] == [];
    assert Reaches(t, [step], u);
    Join(s, steps, t, [step], u);
    StepKeepsInv(t, step);
  }

  /** The other processes' steps, a disabled one skipped. */
  function Play(s: Sys, me: Pid, steps: seq<Step>): Sys
    decreases |steps|
  {
    if steps == [] then s
    else Play(if steps[0].pid != me && Enabled(s, steps[0]) then Apply(s, steps[0]) else s, me, steps[1..])
  }

  lemma {:induction false} PlayIsARun(s0: Sys, s: Sys, me: Pid, steps: seq<Step>)
    requires CanReach(s0, s) && Inv(s)
    ensures CanReach(s0, Play(s, me, steps)) && Inv(Play(s, me, steps))
    ensures PcOf(Play(s, me, steps), me) == PcOf(s, me) && |Play(s, me, steps).slots| == |s.slots|
    decreases |steps|
  {
    if steps != [] {
      if steps[0].pid != me && Enabled(s, steps[0]) {
        Further(s0, s, steps[0]);
        PlayIsARun(s0, Apply(s, steps[0]), me, steps[1..]);
      } else {
        PlayIsARun(s0, s, me, steps[1..]);
      }
    }
  }

  /** Every key of the round is free. */
  predicate FreeRound(slots: seq<Option<Pid>>, name: string, round: nat) {
    forall i :: 0 <= i < KeyCount(name, |slots|) ==>
                  Key(name, round, i) < |slots| && slots[Key(name, round, i)].None?
  }

  /** No round before it is free. */
  predicate FirstFree(slots: seq<Option<Pid>>, name: string, round: nat) {
    FreeRound(slots, name, round) && NoneBefore(slots, name, round)
  }

  predicate NoneBefore(slots: seq<Option<Pid>>, name: string, round: nat) {
    forall r :: 0 <= r < round ==> !FreeRound(slots, name, r)
  }

  predicate NoneFree(slots: seq<Option<Pid>>, name: string) {
    NoneBefore(slots, name, Rounds(name, |slots|))
  }

  /** The first poll that says to give up, or the last. */
  function GiveUpAt(giveUp: seq<bool>): (n: nat)
    ensures n <= |giveUp| && (n < |giveUp| ==> giveUp[n]) && forall i :: 0 <= i < n ==> !giveUp[i]
  {
    if giveUp == [] || giveUp[0] then 0 else 1 + GiveUpAt(giveUp[1..])
  }

  /** The poll is the last, if none before it was. */
  predicate GivesUp(giveUp: seq<bool>, polls: nat)
    requires polls <= GiveUpAt(giveUp)
    ensures GivesUp(giveUp, polls) <==> polls == GiveUpAt(giveUp)
  {
    polls == |giveUp| || giveUp[polls]
  }

  lemma HeldSlots(s: Sys, me: Pid)
    requires Inv(s)
    ensures (set k | 0 <= k < |s.slots| && s.slots[k] == Some(me)) == Holds(PcOf(s, me), |s.slots|)
  {
    assert InBounds(PcOf(s, me), |s.slots|);
    KeysAreSlots(PcOf(s, me), |s.slots|);
  }

  /** The lock files and where every process is, seen by process `me`: before each of its
      own operations `others` may run. */
  class Mutexes {
    const me: Pid
    const others: nat -> seq<Step>
    var slots: seq<Option<Pid>>
    var pcs: map<Pid, Pc>
    var clock: nat
    ghost var attempts: nat   // locks tried so far
    ghost var vain: nat       // polls that found no list

    function Now(): Sys
      reads this
    {
      Sys(slots, pcs)
    }

    /** Every state so far is one the protocol reaches from `s0`. */
    ghost predicate Valid(s0: Sys)
      reads this
    {
      Inv(Now()) && CanReach(s0, Now()) && |slots| == |s0.slots|
    }

    /** The slots this process holds. */
    ghost function Mine(): set<nat>
      reads this
    {
      set k | 0 <= k < |slots| && slots[k] == Some(me)
    }

    /** Nobody else acts from here on. */
    ghost predicate Quiet()
      reads this
    {
      forall i :: i >= clock ==> others(i) == []
    }

    method OthersRun(ghost s0: Sys)
      requires Valid(s0)
      modifies this`slots, this`pcs, this`clock, this`attempts
      ensures Valid(s0) && PcOf(Now(), me) == old(PcOf(Now(), me)) && attempts == old(attempts)
      ensures old(Quiet()) ==> Quiet() && slots == old(slots)
    {
      PlayIsARun(s0, Now(), me, others(clock));
      var t := Play(Now(), me, others(clock));
      slots, pcs, clock := t.slots, t.pcs, clock + 1;
    }

    /** `mutex(ctx, "gate-<k>", timeout=0)`: take the lock or fail at once. */
    method TryLock(k: nat, ghost s0: Sys) returns (taken: bool)
      requires Valid(s0) && PcOf(Now(), me).Taking? && At(PcOf(Now(), me)) == k
      modifies this`slots, this`pcs, this`clock, this`attempts
      ensures Valid(s0)
      ensures attempts == old(attempts) + 1
      ensures k < |slots| && slots[k].Some? && (taken <==> slots[k] == Some(me))
      ensures old(Quiet()) ==> Quiet() && |old(slots)| == |slots| && (taken <==> old(slots)[k].None?) &&
                               slots == (if taken then old(slots)[k := Some(me)] else old(slots))
      ensures var pc := old(PcOf(Now(), me));
              PcOf(Now(), me) == if !taken then BackingOff(pc.name, pc.round, pc.got)
                                 else if pc.got + 1 == KeyCount(pc.name, |slots|) then Running(pc.name, pc.round)
                                 else Taking(pc.name, pc.round, pc.got + 1)
    {
      OthersRun(s0);
      var s := Now();
      assert InBounds(PcOf(s, me), |slots|);
      KeysAreSlots(PcOf(s, me), |slots|);
      Further(s0, s, TryNext(me));
      taken := slots[k].None?;
      attempts := attempts + 1;
      if taken {
        slots := slots[k := Some(me)];
      }
      pcs := pcs[me := PcAfter(s, TryNext(me))];
    }

    /** Leave the `with` block of one lock, on the way back or after the gate. */
    method Unlock(k: nat, ghost s0: Sys)
      requires Valid(s0) && (PcOf(Now(), me).BackingOff? || PcOf(Now(), me).Releasing?)
      requires PcOf(Now(), me).got > 0
      requires At(PcOf(Now(), me)) == k
      modifies this`slots, this`pcs, this`clock, this`attempts
      ensures Valid(s0) && attempts == old(attempts)
      ensures old(Quiet()) ==> Quiet() && k < |old(slots)| && slots == old(slots)[k := None]
      ensures var pc := old(PcOf(Now(), me));
              PcOf(Now(), me) == if pc.BackingOff? then BackingOff(pc.name, pc.round, pc.got - 1)
                                 else if pc.got == 1 then Idle
                                 else Releasing(pc.name, pc.round, pc.got - 1)
    {
      OthersRun(s0);
      var s := Now();
      assert InBounds(PcOf(s, me), |slots|);
      KeysAreSlots(PcOf(s, me), |slots|);
      var step := if PcOf(s, me).BackingOff? then BackOff(me) else Step.Unlock(me);
      Further(s0, s, step);
      slots := slots[k := None];
      pcs := pcs[me := PcAfter(s, step)];
    }

    /** Key `k` is one of those with an index from `got` up to `taken`. */
    predicate GivenBack(name: string, round: nat, got: nat, taken: nat, k: nat) {
      exists i :: got <= i < taken && Key(name, round, i) == k
    }

    /** Of the round's keys the first `got`, all free before, are this process's now. */
    predicate LockedSoFar(before: seq<Option<Pid>>, now: seq<Option<Pid>>, name: string, round: nat, got: nat) {
      && |now| == |before|
      && (forall i :: 0 <= i < got ==> Key(name, round, i) < |before| && before[Key(name, round, i)].None?)
      && (forall k :: 0 <= k < |now| ==>
            now[k] == if k in FirstKeys(name, round, got) then Some(me) else before[k])
    }

    /** Give back the first `got` keys of a round, the last taken first. */
    method GiveBack(name: string, round: nat, taken: nat, ghost s0: Sys)
      requires Valid(s0) && PcOf(Now(), me) == BackingOff(name, round, taken)
      modifies this`slots, this`pcs, this`clock, this`attempts
      ensures Valid(s0) && PcOf(Now(), me) == BackingOff(name, round, 0) && attempts == old(attempts)
      ensures old(Quiet()) ==> Quiet() && |slots| == |old(slots)| &&
                               forall k :: 0 <= k < |slots| ==>
                                 slots[k] == if k in FirstKeys(name, round, taken) then None else old(slots)[k]
    {
      var got: nat := taken;
      while got > 0
        invariant Valid(s0) && got <= taken && PcOf(Now(), me) == BackingOff(name, round, got)
        invariant attempts == old(attempts)
        invariant old(Quiet()) ==> Quiet() && |slots| == |old(slots)| &&
                                   forall k :: 0 <= k < |slots| ==>
                                     slots[k] == if GivenBack(name, round, got, taken, k) then None else old(slots)[k]
      {
        Unlock(Key(name, round, got - 1), s0);
        got := got - 1;
      }
    }

    method Move(step: Step, ghost s0: Sys)
      requires Valid(s0) && step.pid == me && Enabled(Now(), step) && SlotsAfter(Now(), step) == slots
      modifies this`slots, this`pcs, this`clock, this`attempts
      ensures Valid(s0) && slots == old(slots) && pcs == old(pcs)[me := PcAfter(old(Now()), step)]
      ensures clock == old(clock) && attempts == old(attempts)
    {
      Further(s0, Now(), step);
      pcs := pcs[me := PcAfter(Now(), step)];
    }

    /** `_take_slots`: every key of the round, or none of them. */
    method TakeSlots(name: string, round: nat, ghost s0: Sys) returns (ok: bool)
      requires Valid(s0) && PcOf(Now(), me) == Taking(name, round, 0)
      modifies this`slots, this`pcs, this`clock, this`attempts
      ensures Valid(s0)
      ensures PcOf(Now(), me) == if ok then Running(name, round) else BackingOff(name, round, 0)
      ensures Mine() == if ok then FirstKeys(name, round, KeyCount(name, |slots|)) else {}
      ensures attempts > old(attempts)
      ensures old(Quiet()) ==> Quiet() && (ok <==> FreeRound(old(slots), name, round)) && (!ok ==> slots == old(slots))
    {
      var got: nat;
      ok, got := TakeInTurn(name, round, s0);
      if !ok {
        ghost var before := slots;
        GiveBack(name, round, got, s0);
        if old(Quiet()) {
          UnlockedAgain(old(slots), before, slots, name, round, got);
        }
      }
      HeldSlots(Now(), me);
    }

    /** Lock after lock until one is taken by another. */
    method TakeInTurn(name: string, round: nat, ghost s0: Sys) returns (ok: bool, got: nat)
      requires Valid(s0) && PcOf(Now(), me) == Taking(name, round, 0)
      modifies this`slots, this`pcs, this`clock, this`attempts
      ensures Valid(s0) && attempts > old(attempts)
      ensures PcOf(Now(), me) == if ok then Running(name, round) else BackingOff(name, round, got)
      ensures old(Quiet()) ==> Quiet() && (ok <==> FreeRound(old(slots), name, round))
      ensures old(Quiet()) && !ok ==> LockedSoFar(old(slots), slots, name, round, got)
    {
      got := 0;
      ok := true;
      PlaceInBounds(Now(), me);
      while ok && got < KeyCount(name, |slots|)
        invariant Valid(s0) && got <= KeyCount(name, |slots|) && attempts >= old(attempts) + got
        invariant PcOf(Now(), me) == if !ok then BackingOff(name, round, got)
                                     else if got == KeyCount(name, |slots|) then Running(name, round)
                                     else Taking(name, round, got)
        invariant !ok ==> attempts > old(attempts)
        invariant old(Quiet()) ==> Quiet() && LockedSoFar(old(slots), slots, name, round, got)
        invariant old(Quiet()) && !ok ==> !FreeRound(old(slots), name, round)
        decreases ok, KeyCount(name, |slots|) - got
      {
        ghost var before := slots;
        ok := TryLock(Key(name, round, got), s0);
        if old(Quiet()) {
          OneMoreLock(old(slots), before, slots, name, round, got, ok);
        }
        if ok {
          got := got + 1;
        }
      }
    }

    lemma OneMoreLock(first: seq<Option<Pid>>, before: seq<Option<Pid>>, now: seq<Option<Pid>>, name: string,
                      round: nat, got: nat, ok: bool)
      requires LockedSoFar(first, before, name, round, got) && Key(name, round, got) < |before|
      requires ok <==> before[Key(name, round, got)].None?
      requires now == if ok then before[Key(name, round, got) := Some(me)] else before
      requires got < KeyCount(name, |first|)
      ensures ok ==> LockedSoFar(first, now, name, round, got + 1)
      ensures !ok ==> LockedSoFar(first, now, name, round, got) && !FreeRound(first, name, round)
    {
      var k := Key(name, round, got);
      assert k !in FirstKeys(name, round, got);
      assert FirstKeys(name, round, got + 1) == FirstKeys(name, round, got) + {k};
    }

    lemma UnlockedAgain(first: seq<Option<Pid>>, before: seq<Option<Pid>>, now: seq<Option<Pid>>, name: string,
                        round: nat, got: nat)
      requires LockedSoFar(first, before, name, round, got) && |now| == |before|
      requires forall k :: 0 <= k < |now| ==> now[k] == if k in FirstKeys(name, round, got) then None else before[k]
      ensures now == first
    {
      forall k | 0 <= k < |now|
        ensures now[k] == first[k]
      {
        if k in FirstKeys(name, round, got) {
          var i :| 0 <= i < got && Key(name, round, i) == k;
          assert first[Key(name, round, i)].None?;
        }
      }
    }

    lemma PlaceInBounds(s: Sys, pid: Pid)
      requires Inv(s)
      ensures InBounds(PcOf(s, pid), |s.slots|)
    {
    }

    /** The moves between the rounds take and free no lock. */
    method Begin(name: string, ghost s0: Sys)
      requires Valid(s0) && PcOf(Now(), me) == Idle && Heavy(name)
      modifies this`slots, this`pcs, this`clock, this`attempts
      ensures Valid(s0) && PcOf(Now(), me) == Taking(name, 0, 0)
      ensures slots == old(slots) && clock == old(clock) && attempts == old(attempts)
    {
      Move(Ask(me, name), s0);
    }

    method NextRound(name: string, round: nat, ghost s0: Sys)
      requires Valid(s0) && PcOf(Now(), me) == BackingOff(name, round, 0)
      modifies this`slots, this`pcs, this`clock, this`attempts
      ensures Valid(s0) && slots == old(slots) && clock == old(clock) && attempts == old(attempts)
      ensures PcOf(Now(), me) == if round + 1 < Rounds(name, |slots|) then Taking(name, round + 1, 0) else Queued(name)
    {
      Move(BackOff(me), s0);
    }

    method PollAgain(name: string, again: bool, ghost s0: Sys)
      requires Valid(s0) && PcOf(Now(), me) == Queued(name)
      modifies this`slots, this`pcs, this`clock, this`attempts
      ensures Valid(s0) && PcOf(Now(), me) == if again then Taking(name, 0, 0) else Idle
      ensures slots == old(slots) && clock == old(clock) && attempts == old(attempts)
    {
      Move(if again then Wake(me) else GiveUp(me), s0);
    }

    /** One poll: every key list in turn, until one is taken whole. */
    method TryRounds(name: string, ghost s0: Sys) returns (ok: bool)
      requires Valid(s0) && PcOf(Now(), me) == Taking(name, 0, 0)
      modifies this`slots, this`pcs, this`clock, this`attempts
      ensures Valid(s0)
      ensures ok ==> PcOf(Now(), me).Running? && PcOf(Now(), me).name == name &&
                     Mine() == FirstKeys(name, PcOf(Now(), me).round, KeyCount(name, |slots|))
      ensures !ok ==> PcOf(Now(), me) == Queued(name) && attempts >= old(attempts) + Rounds(name, |s0.slots|)
      ensures old(Quiet()) && ok ==> FirstFree(old(slots), name, PcOf(Now(), me).round)
      ensures old(Quiet()) && !ok ==> Quiet() && slots == old(slots)
      ensures old(Quiet()) ==> (ok <==> !NoneFree(old(slots), name))
      ensures attempts >= old(attempts)
    {
      var round: nat := 0;
      ok := false;
      while round < Rounds(name, |slots|)
        invariant Valid(s0) && round <= Rounds(name, |slots|)
        invariant PcOf(Now(), me) == if round < Rounds(name, |slots|) then Taking(name, round, 0) else Queued(name)
        invariant attempts >= old(attempts) + round && !ok
        invariant old(Quiet()) ==> Quiet() && slots == old(slots)
        invariant old(Quiet()) ==> NoneBefore(old(slots), name, round)
      {
        PlaceInBounds(Now(), me);
        ok := TakeSlots(name, round, s0);
        if ok {
          return;
        }
        NextRound(name, round, s0);
        round := round + 1;
      }
    }

    /** One poll, and what follows a vain one: a sleep and the next poll, or giving up. */
    method Poll(name: string, last: bool, ghost s0: Sys) returns (ok: bool)
      requires Valid(s0) && PcOf(Now(), me) == Taking(name, 0, 0)
      modifies this
      ensures Valid(s0)
      ensures if ok then PcOf(Now(), me).Running? && PcOf(Now(), me).name == name
              else PcOf(Now(), me) == if last then Idle else Taking(name, 0, 0)
      ensures Mine() == if ok then FirstKeys(name, PcOf(Now(), me).round, KeyCount(name, |slots|)) else {}
      ensures !ok ==> attempts >= old(attempts) + Rounds(name, |s0.slots|) && vain == old(vain) + 1
      ensures old(Quiet()) && ok ==> FirstFree(old(slots), name, PcOf(Now(), me).round)
      ensures old(Quiet()) && !ok ==> Quiet() && slots == old(slots)
      ensures old(Quiet()) ==> (ok <==> !NoneFree(old(slots), name))
    {
      ok := TryRounds(name, s0);
      if !ok {
        vain := vain + 1;
        PollAgain(name, !last, s0);
        HeldSlots(Now(), me);
      }
    }

    /** `_gate_slot` for a heavy gate: try every key list, then sleep and try again until a
        list is taken or a poll says to give up (a timeout, or HALT). It returns with the
        whole list of one round, the first free one when nobody interferes, or with nothing,
        after as many vain polls as it was given. */
    method GateSlot(name: string, giveUp: seq<bool>, ghost s0: Sys) returns (ok: bool)
      requires Valid(s0) && PcOf(Now(), me) == Idle && Heavy(name)
      modifies this
      ensures Valid(s0)
      ensures ok ==> PcOf(Now(), me).Running? && PcOf(Now(), me).name == name
      ensures !ok ==> PcOf(Now(), me) == Idle
      ensures Mine() == if ok then FirstKeys(name, PcOf(Now(), me).round, KeyCount(name, |slots|)) else {}
      ensures !ok ==> vain == old(vain) + GiveUpAt(giveUp) + 1
      ensures old(Quiet()) ==> (ok <==> !NoneFree(old(slots), name))
      ensures old(Quiet()) && ok ==> FirstFree(old(slots), name, PcOf(Now(), me).round)
    {
      Begin(name, s0);
      var polls: nat := 0;
      while true
        invariant Valid(s0) && PcOf(Now(), me) == Taking(name, 0, 0) && polls <= GiveUpAt(giveUp)
        invariant vain == old(vain) + polls
        invariant old(Quiet()) ==> Quiet() && slots == old(slots)
        decreases |giveUp| - polls
      {
        var last := GivesUp(giveUp, polls);
        ok := Poll(name, last, s0);
        if ok || last {
          return;
        }
        polls := polls + 1;
      }
    }

    /** After the gate: the locks go one by one, the last taken first. */
    method Release(ghost s0: Sys)
      requires Valid(s0) && PcOf(Now(), me).Running?
      modifies this
      ensures Valid(s0) && PcOf(Now(), me) == Idle && Mine() == {}
    {
      var pc := PcOf(Now(), me);
      var left: nat := KeyCount(pc.name, |slots|);
      Move(Finish(me), s0);
      while left > 0
        invariant Valid(s0)
        invariant PcOf(Now(), me) == if left > 0 then Releasing(pc.name, pc.round, left) else Idle
      {
        Unlock(Key(pc.name, pc.round, left - 1), s0);
        left := left - 1;
      }
    }
  }
}

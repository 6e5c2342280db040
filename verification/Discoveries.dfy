/** Filing discoveries on GitHub (scripts/agentflow/discoveries.py), as the steps a run takes
    while it holds mutex `discoveries`, with a crash possible between any two of them. The
    index is a file; GitHub is the list of labelled issues, an issue's number its position. */
module Discoveries {
  import opened Wrappers

  type Fp = nat
  type Number = nat

  datatype Entry = Pending | Filed(number: Number)

  /** An issue labelled `agent-filed`: the markers in its body and, when the flow created it,
      the discovery it was created for. */
  datatype Issue = Issue(marks: set<Fp>, filedFor: Option<Fp>)

  datatype Reply = Accepted | Retryable | Failed

  /** What the run holding the mutex has done so far. `landed`: an attempt of this create call
      made the issue; `overtaken`: a create of the same discovery that outlived its killed
      caller landed after this run's search. */
  datatype Job =
    | Loaded(fp: Fp)
    | Found(fp: Fp, number: Number)
    | NoHit(fp: Fp, overtaken: bool)
    | Calling(fp: Fp, attempt: nat, landed: bool, overtaken: bool)
    | Created(fp: Fp, number: Number)
    | Reconciling(local: map<Fp, Entry>, left: set<Fp>)

  /** `orphans`: create calls whose caller was killed while they were in flight. */
  datatype State = State(index: map<Fp, Entry>, remote: seq<Issue>, job: Option<Job>, orphans: multiset<Fp>)

  datatype Step =
    | Begin(fp: Fp)
    | SearchFails
    | Search
    | Refuse
    | SavePending
    | Attempt(lands: bool, also: set<Fp>, reply: Reply)
    | SaveFiled
    | Die(inFlight: bool)
    | OrphanLands(fp: Fp, also: set<Fp>)
    | ReconcileBegin
    | ReconcileOne(fp: Fp, searchFails: bool)
    | ReconcileSave
    | Foreign(marks: set<Fp>)

  const ATTEMPTS := 3

  /** The numbers of the issues whose body carries the marker. */
  function Hits(remote: seq<Issue>, fp: Fp): set<Number> {
    set n | 0 <= n < |remote| && fp in remote[n].marks
  }

  ghost predicate Enabled(s: State, step: Step) {
    match step
    case Begin(_) => s.job.None?
    case SearchFails => s.job.Some? && s.job.value.Loaded?
    case Search => s.job.Some? && s.job.value.Loaded?
    case Refuse => s.job.Some? && s.job.value.NoHit?
    case SavePending => s.job.Some? && s.job.value.NoHit?
    case Attempt(lands, _, reply) => s.job.Some? && s.job.value.Calling? && (reply.Accepted? ==> lands)
    case SaveFiled => s.job.Some? && (s.job.value.Found? || s.job.value.Created?)
    case Die(inFlight) => s.job.Some? && (inFlight ==> s.job.value.Calling?)
    case OrphanLands(fp, _) => fp in s.orphans
    case ReconcileBegin => s.job.None?
    case ReconcileOne(fp, _) => s.job.Some? && s.job.value.Reconciling? && fp in s.job.value.left
    case ReconcileSave => s.job.Some? && s.job.value.Reconciling? && s.job.value.left == {}
    case Foreign(_) => true
  }

  function PendingOf(index: map<Fp, Entry>): set<Fp> {
    set fp | fp in index && index[fp].Pending?
  }

  ghost function OnlyHit(remote: seq<Issue>, fp: Fp): (n: Number)
    requires |Hits(remote, fp)| == 1
    ensures Hits(remote, fp) == {n}
  {
    var n :| n in Hits(remote, fp);
    assert |Hits(remote, fp) - {n}| == 0;
    n
  }

  ghost function JobAfter(s: State, step: Step): Option<Job>
    requires Enabled(s, step)
  {
    match step
    case Begin(fp) => if fp in s.index && s.index[fp].Filed? then None else Some(Loaded(fp))
    case Search =>
      var fp := s.job.value.fp;
      var hits := Hits(s.remote, fp);
      if hits == {} then Some(NoHit(fp, false))
      else if |hits| == 1 then Some(Found(fp, OnlyHit(s.remote, fp)))
      else None
    case SavePending => Some(Calling(s.job.value.fp, 0, false, s.job.value.overtaken))
    case Attempt(lands, _, reply) =>
      var j := s.job.value;
      if reply.Accepted? then Some(Created(j.fp, |s.remote|))
      else if reply.Retryable? && j.attempt < ATTEMPTS - 1 then
        Some(j.(attempt := j.attempt + 1, landed := j.landed || lands))
      else None
    case OrphanLands(fp, _) =>
      if s.job.Some? && (s.job.value.NoHit? || s.job.value.Calling?) && s.job.value.fp == fp then
        Some(s.job.value.(overtaken := true))
      else s.job
    case ReconcileBegin => Some(Reconciling(s.index, PendingOf(s.index)))
    case ReconcileOne(fp, searchFails) =>
      var j := s.job.value;
      var local := if !searchFails && |Hits(s.remote, fp)| == 1 then j.local[fp := Filed(OnlyHit(s.remote, fp))]
                   else j.local;
      Some(Reconciling(local, j.left - {fp}))
    case Foreign(_) => s.job
    case _ => None
  }

  ghost function IndexAfter(s: State, step: Step): map<Fp, Entry>
    requires Enabled(s, step)
  {
    match step
    case SavePending => s.index[s.job.value.fp := Pending]
    case SaveFiled => s.index[s.job.value.fp := Filed(s.job.value.number)]
    case ReconcileSave => s.job.value.local
    case _ => s.index
  }

  function RemoteAfter(s: State, step: Step): seq<Issue>
    requires step.Attempt? ==> s.job.Some? && s.job.value.Calling?
  {
    match step
    case Attempt(lands, also, _) =>
      if lands then s.remote + [Issue(also + {s.job.value.fp}, Some(s.job.value.fp))] else s.remote
    case OrphanLands(fp, also) => s.remote + [Issue(also + {fp}, Some(fp))]
    case Foreign(marks) => s.remote + [Issue(marks, None)]
    case _ => s.remote
  }

  ghost function Apply(s: State, step: Step): State
    requires Enabled(s, step)
  {
    State(IndexAfter(s, step), RemoteAfter(s, step), JobAfter(s, step),
          match step
          case Die(true) => s.orphans + multiset{s.job.value.fp}
          case OrphanLands(fp, _) => s.orphans - multiset{fp}
          case _ => s.orphans)
  }

  ghost predicate Runs(s: State, steps: seq<Step>)
    decreases |steps|
  {
    steps != [] ==> Enabled(s, steps[0]) && Runs(Apply(s, steps[0]), steps[1..])
  }

  ghost function Final(s: State, steps: seq<Step>): State
    requires Runs(s, steps)
    decreases |steps|
  {
    if steps == [] then s else Final(Apply(s, steps[0]), steps[1..])
  }

  const START := State(map[], [], None, multiset{})

  // ---- a filed entry names an issue with the marker --------------------------

  predicate Marked(remote: seq<Issue>, fp: Fp, n: Number) {
    n < |remote| && fp in remote[n].marks
  }

  predicate IndexNames(index: map<Fp, Entry>, remote: seq<Issue>) {
    forall fp :: fp in index && index[fp].Filed? ==> Marked(remote, fp, index[fp].number)
  }

  predicate JobNames(s: State) {
    s.job.Some? ==>
      match s.job.value
      case Found(fp, n) => Marked(s.remote, fp, n)
      case Created(fp, n) => Marked(s.remote, fp, n)
      case Reconciling(local, _) => IndexNames(local, s.remote)
      case _ => true
  }

  /** The flow made an issue for the discovery. */
  predicate Made(s: State, fp: Fp) {
    exists n :: 0 <= n < |s.remote| && s.remote[n].filedFor == Some(fp)
  }

  /** A run past its search knows whether the discovery has an issue since. */
  predicate JobKnows(s: State) {
    s.job.Some? ==>
      match s.job.value
      case NoHit(fp, overtaken) => Made(s, fp) <==> overtaken
      case Calling(fp, _, landed, overtaken) => Made(s, fp) <==> landed || overtaken
      case _ => true
  }

  predicate Inv(s: State) {
    && IndexNames(s.index, s.remote)
    && JobNames(s)
    && JobKnows(s)
    && (forall n :: 0 <= n < |s.remote| && s.remote[n].filedFor.Some? ==>
          s.remote[n].filedFor.value in s.remote[n].marks)
  }

  lemma MadeAfter(s: State, step: Step)
    requires Enabled(s, step)
    ensures forall fp :: Made(Apply(s, step), fp) <==>
              Made(s, fp) || (step.OrphanLands? && step.fp == fp) ||
              (step.Attempt? && step.lands && s.job.value.fp == fp)
  {
    var t := Apply(s, step);
    forall fp: Fp | Made(s, fp)
      ensures Made(t, fp)
    {
      var n :| 0 <= n < |s.remote| && s.remote[n].filedFor == Some(fp);
      assert t.remote[n].filedFor == Some(fp);
    }
    if |t.remote| > |s.remote| {
      var last := t.remote[|s.remote|];
      assert forall fp :: last.filedFor == Some(fp) ==> Made(t, fp);
    }
  }

  lemma StepKeepsInv(s: State, step: Step)
    requires Inv(s) && Enabled(s, step)
    ensures Inv(Apply(s, step))
  {
    MadeAfter(s, step);
    if step.Search? {
      var fp := s.job.value.fp;
      assert Hits(s.remote, fp) == {} ==> !Made(s, fp) by {
        if Made(s, fp) {
          var n :| 0 <= n < |s.remote| && s.remote[n].filedFor == Some(fp);
          assert n in Hits(s.remote, fp);
        }
      }
      assert |Hits(s.remote, fp)| == 1 ==> OnlyHit(s.remote, fp) in Hits(s.remote, fp);
    }
    if step.ReconcileOne? {
      assert |Hits(s.remote, step.fp)| == 1 ==> OnlyHit(s.remote, step.fp) in Hits(s.remote, step.fp);
    }
  }

  /** Whatever crashes, retries and strangers do, a `filed` entry names an existing issue
      that carries the discovery's marker. */
  lemma {:induction false} FiledNamesAMarkedIssue(s: State, steps: seq<Step>)
    requires Inv(s) && Runs(s, steps)
    ensures Inv(Final(s, steps))
    ensures IndexNames(Final(s, steps).index, Final(s, steps).remote)
    decreases |steps|
  {
    if steps != [] {
      StepKeepsInv(s, steps[0]);
      FiledNamesAMarkedIssue(Apply(s, steps[0]), steps[1..]);
    }
  }

  // ---- filed is for good ------------------------------------------------------

  /** The discovery is filed as `n` and no command is about to say otherwise. */
  predicate Settled(s: State, fp: Fp, n: Number) {
    && fp in s.index && s.index[fp] == Filed(n)
    && (s.job.Some? ==>
          match s.job.value
          case Reconciling(local, left) => fp in local && local[fp] == Filed(n) && fp !in left
          case job => job.fp != fp)
  }

  /** Once filed, a discovery is never searched for, created or renumbered again: in no run of
      any number of processes, crashes and orphans included. */
  lemma {:induction false} FiledForGood(s: State, steps: seq<Step>, fp: Fp, n: Number)
    requires Settled(s, fp, n) && Runs(s, steps)
    ensures Settled(Final(s, steps), fp, n)
    decreases |steps|
  {
    if steps != [] {
      FiledForGood(Apply(s, steps[0]), steps[1..], fp, n);
    }
  }

  lemma SavedIsSettled(s: State)
    requires Enabled(s, SaveFiled)
    ensures Settled(Apply(s, SaveFiled), s.job.value.fp, s.job.value.number)
  {
  }

  // ---- one issue per discovery -------------------------------------------------

  /** No discovery has two issues made by the flow. */
  predicate OneIssueEach(s: State) {
    forall m, n | 0 <= m < |s.remote| && 0 <= n < |s.remote| ::
      s.remote[m].filedFor.Some? && s.remote[m].filedFor == s.remote[n].filedFor ==> m == n
  }

  /** The create lands again: a retried attempt after an attempt that had landed, an attempt
      overtaken by an orphan since the search, or an orphan whose discovery has an issue. */
  predicate LandsAgain(s: State, step: Step) {
    match step
    case Attempt(lands, _, _) =>
      lands && s.job.Some? && s.job.value.Calling? && (s.job.value.landed || s.job.value.overtaken)
    case OrphanLands(fp, _) => Made(s, fp)
    case _ => false
  }

  ghost predicate SomeLandsAgain(s: State, steps: seq<Step>)
    requires Runs(s, steps)
    decreases |steps|
  {
    steps != [] && (LandsAgain(s, steps[0]) || SomeLandsAgain(Apply(s, steps[0]), steps[1..]))
  }

  lemma StepKeepsOneEach(s: State, step: Step)
    requires Inv(s) && Enabled(s, step)
    ensures OneIssueEach(Apply(s, step)) <==> OneIssueEach(s) && !LandsAgain(s, step)
  {
    var t := Apply(s, step);
    assert forall n :: 0 <= n < |s.remote| ==> t.remote[n] == s.remote[n];
    if |t.remote| > |s.remote| && t.remote[|s.remote|].filedFor.Some? {
      var fp := t.remote[|s.remote|].filedFor.value;
      assert LandsAgain(s, step) <==> Made(s, fp);
    }
  }

  /** The flow ends with two issues for one discovery exactly when some create landed again. */
  lemma {:induction false} TwiceFiledExactlyWhenLandedAgain(s: State, steps: seq<Step>)
    requires Inv(s) && Runs(s, steps)
    ensures OneIssueEach(Final(s, steps)) <==> OneIssueEach(s) && !SomeLandsAgain(s, steps)
    decreases |steps|
  {
    if steps != [] {
      StepKeepsInv(s, steps[0]);
      StepKeepsOneEach(s, steps[0]);
      TwiceFiledExactlyWhenLandedAgain(Apply(s, steps[0]), steps[1..]);
    }
  }

  /** Each create call lands at most once and dies with its caller: no run is killed while a
      call is in flight, and no attempt lands after an attempt of its call that landed. */
  ghost predicate CreatesLandOnce(s: State, steps: seq<Step>)
    requires Runs(s, steps)
    decreases |steps|
  {
    steps == [] ||
    (steps[0] != Die(true) && (steps[0].Attempt? && steps[0].lands ==> !s.job.value.landed) &&
     CreatesLandOnce(Apply(s, steps[0]), steps[1..]))
  }

  /** No create call is in flight without its caller, and none has overtaken a run. */
  predicate NoOrphans(s: State) {
    && s.orphans == multiset{}
    && (s.job.Some? && (s.job.value.NoHit? || s.job.value.Calling?) ==> !s.job.value.overtaken)
  }

  /** Main result for callers: any number of runs, crashing between any two steps, beside
      strangers who file issues with any markers, never file a discovery twice while each
      create call lands at most once and dies with its caller. */
  lemma {:induction false} FiledOnceWhenCreatesLandOnce(s: State, steps: seq<Step>)
    requires Inv(s) && OneIssueEach(s) && NoOrphans(s) && Runs(s, steps) && CreatesLandOnce(s, steps)
    ensures OneIssueEach(Final(s, steps)) && NoOrphans(Final(s, steps))
    decreases |steps|
  {
    if steps != [] {
      StepKeepsInv(s, steps[0]);
      StepKeepsOneEach(s, steps[0]);
      FiledOnceWhenCreatesLandOnce(Apply(s, steps[0]), steps[1..]);
    }
  }

  // ---- and the two ways it does -------------------------------------------------

  /** A retried attempt whose first try had landed (HTTP 502 after the write, say). */
  lemma RetriedCreateFilesTwice(fp: Fp)
    ensures var steps := [Begin(fp), Search, SavePending, Attempt(true, {}, Retryable), Attempt(true, {}, Accepted),
                          SaveFiled];
            Runs(START, steps) && !OneIssueEach(Final(START, steps))
  {
    var steps := [Begin(fp), Search, SavePending, Attempt(true, {}, Retryable), Attempt(true, {}, Accepted), SaveFiled];
    var s1 := Apply(START, steps[0]);
    var s2 := Apply(s1, steps[1]);
    var s3 := Apply(s2, steps[2]);
    var s4 := Apply(s3, steps[3]);
    var s5 := Apply(s4, steps[4]);
    assert s3.job == Some(Calling(fp, 0, false, false));
    assert s4.job == Some(Calling(fp, 1, true, false));
    assert |s5.remote| == 2 && s5.remote[0].filedFor == s5.remote[1].filedFor;
    var s6 := Apply(s5, steps[5]);
    Unroll(s5, steps[5..], s6);
    Unroll(s4, steps[4..], s6);
    Unroll(s3, steps[3..], s6);
    Unroll(s2, steps[2..], s6);
    Unroll(s1, steps[1..], s6);
    Unroll(START, steps, s6);
    assert s6.remote == s5.remote;
  }

  /** A run killed during its create, whose call lands after the next run has searched. */
  lemma OrphanedCreateFilesTwice(fp: Fp)
    ensures var steps := [Begin(fp), Search, SavePending, Die(true)] +
                         [Begin(fp), Search, OrphanLands(fp, {}), SavePending, Attempt(true, {}, Accepted)];
            Runs(START, steps) && !OneIssueEach(Final(START, steps))
  {
    var killed := [Begin(fp), Search, SavePending, Die(true)];
    var k := State(map[fp := Pending], [], None, multiset{fp});
    assert Reaches(START, killed, k) by {
      var s1 := Apply(START, killed[0]);
      var s2 := Apply(s1, killed[1]);
      assert s2.job == Some(NoHit(fp, false));
      var s3 := Apply(s2, killed[2]);
      Unroll(s3, killed[3..], k);
      Unroll(s2, killed[2..], k);
      Unroll(s1, killed[1..], k);
      Unroll(START, killed, k);
    }
    var t := OrphanMeetsSearch(fp, k);
    Join(START, killed, k, [Begin(fp), Search, OrphanLands(fp, {}), SavePending, Attempt(true, {}, Accepted)], t);
  }

  lemma OrphanMeetsSearch(fp: Fp, k: State) returns (t: State)
    requires k == State(map[fp := Pending], [], None, multiset{fp})
    ensures Reaches(k, [Begin(fp), Search, OrphanLands(fp, {}), SavePending, Attempt(true, {}, Accepted)], t)
    ensures !OneIssueEach(t)
  {
    var steps := [Begin(fp), Search, OrphanLands(fp, {}), SavePending, Attempt(true, {}, Accepted)];
    var s1 := Apply(k, steps[0]);
    var s2 := Apply(s1, steps[1]);
    assert s2.job == Some(NoHit(fp, false));
    var s3 := Apply(s2, steps[2]);
    var s4 := Apply(s3, steps[3]);
    assert s4.job == Some(Calling(fp, 0, false, true));
    t := Apply(s4, steps[4]);
    assert |t.remote| == 2 && t.remote[0].filedFor == t.remote[1].filedFor;
    Unroll(s4, steps[4..], t);
    Unroll(s3, steps[3..], t);
    Unroll(s2, steps[2..], t);
    Unroll(s1, steps[1..], t);
    Unroll(k, steps, t);
  }

  ghost predicate Reaches(s: State, steps: seq<Step>, t: State) {
    Runs(s, steps) && Final(s, steps) == t
  }

  lemma Unroll(s: State, steps: seq<Step>, t: State)
    requires steps != [] && Enabled(s, steps[0]) && Reaches(Apply(s, steps[0]), steps[1..], t)
    ensures Reaches(s, steps, t)
  {
  }

  lemma {:induction false} Join(s: State, first: seq<Step>, t: State, second: seq<Step>, u: State)
    requires Reaches(s, first, t) && Reaches(t, second, u)
    ensures Reaches(s, first + second, u)
    decreases |first|
  {
    if first == [] {
      assert first + second == second;
    } else {
      Join(Apply(s, first[0]), first[1..], t, second, u);
      assert (first + second)[1..] == first[1..] + second;
    }
  }

  lemma {:induction false} Extend(s: State, steps: seq<Step>, t: State, step: Step)
    requires Reaches(s, steps, t) && Enabled(t, step)
    ensures Reaches(s, steps + [step], Apply(t, step))
  {
    Unroll(t, [step], Apply(t, step));
    Join(s, steps, t, [step], Apply(t, step));
  }

  ghost predicate CanReach(s: State, t: State) {
    exists steps :: Reaches(s, steps, t)
  }

  lemma Further(s: State, t: State, step: Step)
    requires CanReach(s, t) && Enabled(t, step)
    ensures CanReach(s, Apply(t, step))
  {
    var steps :| Reaches(s, steps, t);
    Extend(s, steps, t, step);
  }

  // ---- the world beside the run that holds the mutex --------------------------------

  predicate FromOutside(step: Step) {
    step.OrphanLands? || step.Foreign?
  }

  /** What else happens: orphaned creates land and strangers file, a disabled step skipped. */
  ghost function Meanwhile(s: State, steps: seq<Step>): State
    decreases |steps|
  {
    if steps == [] then s
    else Meanwhile(if FromOutside(steps[0]) && Enabled(s, steps[0]) then Apply(s, steps[0]) else s, steps[1..])
  }

  /** The same on GitHub and on the calls in flight alone. */
  function Outside(remote: seq<Issue>, orphans: multiset<Fp>, steps: seq<Step>): (seq<Issue>, multiset<Fp>)
    decreases |steps|
  {
    if steps == [] then (remote, orphans)
    else
      match steps[0]
      case OrphanLands(fp, also) =>
        if fp in orphans then Outside(remote + [Issue(also + {fp}, Some(fp))], orphans - multiset{fp}, steps[1..])
        else Outside(remote, orphans, steps[1..])
      case Foreign(marks) => Outside(remote + [Issue(marks, None)], orphans, steps[1..])
      case _ => Outside(remote, orphans, steps[1..])
  }

  /** The run's own place in its command, but for being overtaken. */
  predicate SameJob(a: Option<Job>, b: Option<Job>) {
    || a == b
    || (a.Some? && b.Some? && a.value.NoHit? && b.value.NoHit? && a.value.fp == b.value.fp)
    || (a.Some? && b.Some? && a.value.Calling? && b.value.Calling?
        && b.value == a.value.(overtaken := b.value.overtaken))
  }

  lemma {:induction false} MeanwhileIsARun(s0: State, s: State, steps: seq<Step>)
    requires CanReach(s0, s)
    ensures var t := Meanwhile(s, steps);
            && CanReach(s0, t) && t.index == s.index && SameJob(s.job, t.job) && s.remote <= t.remote
            && (t.remote, t.orphans) == Outside(s.remote, s.orphans, steps)
    decreases |steps|
  {
    if steps != [] {
      if FromOutside(steps[0]) && Enabled(s, steps[0]) {
        Further(s0, s, steps[0]);
        MeanwhileIsARun(s0, Apply(s, steps[0]), steps[1..]);
      } else {
        MeanwhileIsARun(s0, s, steps[1..]);
      }
    }
  }

  // ---- the code that takes these steps -------------------------------------------

  datatype Status =
    | SkippedIndex(number: Number) | SearchFailed | SkippedRemote(number: Number) | Ambiguous | Refused
    | LeftPending | Raised | NowFiled(number: Number)

  /** One attempt of `gh issue create`: whether it made the issue, and what it answered. */
  datatype Answer = Answer(lands: bool, also: set<Fp>, reply: Reply)

  /** The create call succeeds: some attempt is accepted and every one before it is retried. */
  predicate Succeeds(net: seq<Answer>) {
    exists i :: 0 <= i < |net| && net[i].reply.Accepted? && forall j :: 0 <= j < i ==> net[j].reply.Retryable?
  }

  /** How many issues the attempts from the `i`-th on make: attempts go on while they are to be
      retried, three in all. */
  function Landings(net: seq<Answer>, i: nat): nat
    requires |net| == 3
    decreases 3 - i
  {
    if i >= 3 then 0
    else (if net[i].lands then 1 else 0) + if net[i].reply.Retryable? then Landings(net, i + 1) else 0
  }

  /** What becomes of a discovery: nothing when it is filed already; nothing when the search fails,
      finds several issues, or the filing is refused; the one issue found; else a create call. */
  predicate Decides(fp: Fp, index: map<Fp, Entry>, hits: set<Number>, searchFails: bool, refused: bool,
                    net: seq<Answer>, chargeRaises: bool, status: Status)
  {
    if fp in index && index[fp].Filed? then status == SkippedIndex(index[fp].number)
    else if searchFails then status == SearchFailed
    else DecidesByHits(hits, refused, net, chargeRaises, status)
  }

  predicate DecidesByHits(hits: set<Number>, refused: bool, net: seq<Answer>, chargeRaises: bool, status: Status) {
    if |hits| > 1 then status == Ambiguous
    else if |hits| == 1 then status.SkippedRemote? && hits == {status.number}
    else if refused then status == Refused
    else if !Succeeds(net) then status == LeftPending
    else if chargeRaises then status == Raised
    else status.NowFiled?
  }

  predicate Retried(net: seq<Answer>, n: nat)
    requires n <= |net|
  {
    forall j :: 0 <= j < n ==> net[j].reply.Retryable?
  }

  /** The attempt that does not go on decides. */
  lemma VerdictAt(net: seq<Answer>, i: nat)
    requires i < |net| && Retried(net, i)
    ensures net[i].reply.Retryable? ==> Retried(net, i + 1)
    ensures net[i].reply.Accepted? ==> Succeeds(net)
    ensures net[i].reply.Failed? || (i == |net| - 1 && !net[i].reply.Accepted?) ==> !Succeeds(net)
  {
  }

  predicate Truthful(net: seq<Answer>) {
    |net| == ATTEMPTS && forall n :: 0 <= n < |net| ==> (net[n].reply.Accepted? ==> net[n].lands)
  }

  /** The index file, GitHub and the calls in flight, as the run that holds the mutex finds
      them: before each of its own operations `others` may happen. */
  class Filing {
    const others: nat -> seq<Step>
    var clock: nat
    var index: map<Fp, Entry>
    var remote: seq<Issue>
    var orphans: multiset<Fp>
    ghost var job: Option<Job>
    ghost var created: nat

    ghost function Now(): State
      reads this
    {
      State(index, remote, job, orphans)
    }

    /** Nothing else happens. */
    ghost predicate Quiet() {
      forall k :: others(k) == []
    }

    method OthersAct(ghost s0: State)
      requires CanReach(s0, Now())
      modifies this`remote, this`orphans, this`clock, this`job
      ensures CanReach(s0, Now()) && SameJob(old(job), job) && old(remote) <= remote
      ensures Quiet() ==> remote == old(remote) && orphans == old(orphans)
    {
      MeanwhileIsARun(s0, Now(), others(clock));
      ghost var t := Meanwhile(Now(), others(clock));
      var (r, o) := Outside(remote, orphans, others(clock));
      remote, orphans, clock, job := r, o, clock + 1, t.job;
    }

    /** One attempt of the create call. */
    method Try(fp: Fp, answer: Answer, ghost s0: State) returns (number: Number)
      requires CanReach(s0, Now()) && job.Some? && job.value.Calling? && job.value.fp == fp
      requires answer.reply.Accepted? ==> answer.lands
      modifies this`remote, this`orphans, this`clock, this`job, this`created
      ensures CanReach(s0, Now()) && old(remote) <= remote
      ensures created == old(created) + if answer.lands then 1 else 0
      ensures var attempt := old(job).value.attempt;
              if answer.reply.Accepted? then job == Some(Created(fp, number)) && Marked(remote, fp, number)
              else if answer.reply.Retryable? && attempt < ATTEMPTS - 1 then
                job.Some? && job.value.Calling? && job.value.fp == fp && job.value.attempt == attempt + 1
              else job == None
    {
      OthersAct(s0);
      ghost var step := Attempt(answer.lands, answer.also, answer.reply);
      Further(s0, Now(), step);
      number := |remote|;
      job := JobAfter(Now(), step);
      if answer.lands {
        remote := remote + [Issue(answer.also + {fp}, Some(fp))];
        created := created + 1;
      }
    }

    /** `create_issue` with its retries: the number of the issue the accepted attempt made. */
    method CreateIssue(fp: Fp, net: seq<Answer>, ghost s0: State) returns (number: Option<Number>)
      requires Truthful(net) && CanReach(s0, Now())
      requires job.Some? && job.value.Calling? && job.value.fp == fp && job.value.attempt == 0
      modifies this`remote, this`orphans, this`clock, this`job, this`created
      ensures CanReach(s0, Now()) && old(remote) <= remote && created == old(created) + Landings(net, 0)
      ensures number.Some? <==> Succeeds(net)
      ensures number.None? ==> job == None
      ensures number.Some? ==> job == Some(Created(fp, number.value)) && Marked(remote, fp, number.value)
    {
      for attempt := 0 to ATTEMPTS
        invariant attempt < ATTEMPTS && CanReach(s0, Now()) && old(remote) <= remote
        invariant created + Landings(net, attempt) == old(created) + Landings(net, 0)
        invariant Retried(net, attempt)
        invariant job.Some? && job.value.Calling? && job.value.fp == fp && job.value.attempt == attempt
      {
        VerdictAt(net, attempt);
        var made := Try(fp, net[attempt], s0);
        if net[attempt].reply.Accepted? {
          return Some(made);
        }
        if net[attempt].reply.Failed? || attempt == ATTEMPTS - 1 {
          return None;
        }
      }
      assert false;
    }

    /** Load the index: a `filed` entry is all there is to do. */
    method Open(fp: Fp, ghost s0: State) returns (filed: bool)
      requires CanReach(s0, Now()) && job == None
      modifies this`remote, this`orphans, this`clock, this`job
      ensures CanReach(s0, Now()) && old(remote) <= remote && (Quiet() ==> remote == old(remote))
      ensures filed == (fp in index && index[fp].Filed?)
      ensures job == if filed then None else Some(Loaded(fp))
    {
      OthersAct(s0);
      Further(s0, Now(), Begin(fp));
      filed := fp in index && index[fp].Filed?;
      job := if filed then None else Some(Loaded(fp));
    }

    /** The run gives up without a write: a failed search, a refusal, an exception. */
    ghost method GiveUp(step: Step, s0: State)
      requires CanReach(s0, Now()) && Enabled(Now(), step)
      requires step == SearchFails || step == Refuse || step == Die(false)
      modifies this`job
      ensures CanReach(s0, Now()) && job == None
    {
      Further(s0, Now(), step);
      job := None;
    }

    /** The marker search. */
    method FindHits(fp: Fp, ghost s0: State) returns (hits: set<Number>)
      requires CanReach(s0, Now()) && job == Some(Loaded(fp))
      modifies this`remote, this`orphans, this`clock, this`job
      ensures CanReach(s0, Now()) && old(remote) <= remote && (Quiet() ==> remote == old(remote))
      ensures hits == Hits(remote, fp)
      ensures hits == {} ==> job == Some(NoHit(fp, false))
      ensures |hits| == 1 ==> job.Some? && job.value.Found? && job.value.fp == fp && hits == {job.value.number}
      ensures |hits| > 1 ==> job == None
    {
      OthersAct(s0);
      Further(s0, Now(), Search);
      hits := Hits(remote, fp);
      job := JobAfter(Now(), Search);
    }

    /** Write `filed` for the issue found or made. */
    method SaveEntry(fp: Fp, n: Number, ghost s0: State)
      requires CanReach(s0, Now()) && Marked(remote, fp, n) &&
               (job == Some(Found(fp, n)) || job == Some(Created(fp, n)))
      modifies this`index, this`remote, this`orphans, this`clock, this`job
      ensures CanReach(s0, Now()) && job == None && old(remote) <= remote && (Quiet() ==> remote == old(remote))
      ensures index == old(index)[fp := Filed(n)] && Marked(remote, fp, n)
    {
      OthersAct(s0);
      Further(s0, Now(), SaveFiled);
      index := index[fp := Filed(n)];
      job := None;
    }

    /** Write `pending` ahead of the create call. */
    method SavePending(fp: Fp, ghost s0: State)
      requires CanReach(s0, Now()) && job.Some? && job.value.NoHit? && job.value.fp == fp
      modifies this`index, this`remote, this`orphans, this`clock, this`job
      ensures CanReach(s0, Now()) && old(remote) <= remote && index == old(index)[fp := Pending]
      ensures job.Some? && job.value.Calling? && job.value.fp == fp && job.value.attempt == 0
    {
      OthersAct(s0);
      Further(s0, Now(), Step.SavePending);
      index := index[fp := Pending];
      job := Some(Calling(fp, 0, false, job.value.overtaken));
    }

    /** The creation proper: `pending`, the call, the charge, `filed`. */
    method FileNew(fp: Fp, net: seq<Answer>, chargeRaises: bool, ghost s0: State) returns (status: Status)
      requires Truthful(net) && CanReach(s0, Now()) && job.Some? && job.value.NoHit? && job.value.fp == fp
      modifies this
      ensures CanReach(s0, Now()) && job == None && index - {fp} == old(index) - {fp} && old(remote) <= remote
      ensures if !Succeeds(net) then status == LeftPending
              else if chargeRaises then status == Raised else status.NowFiled?
      ensures created == old(created) + Landings(net, 0)
      ensures status.NowFiled? ==> fp in index && index[fp] == Filed(status.number) && Marked(remote, fp, status.number)
      ensures !status.NowFiled? ==> fp in index && index[fp].Pending?
    {
      SavePending(fp, s0);
      var number := CreateIssue(fp, net, s0);
      if number.None? {
        return LeftPending;
      }
      if chargeRaises {
        GiveUp(Die(false), s0);
        return Raised;
      }
      SaveEntry(fp, number.value, s0);
      return NowFiled(number.value);
    }

    /** `_file_one` under the mutex, whatever lands or is filed meanwhile: what it does is a
        run of the protocol, what it reports is so, and only one entry of the index moves. */
    method FileOne(fp: Fp, searchFails: bool, refused: bool, net: seq<Answer>, chargeRaises: bool, ghost s0: State)
      returns (status: Status)
      requires Truthful(net) && CanReach(s0, Now()) && job == None
      modifies this
      ensures CanReach(s0, Now()) && job == None
      ensures exists seen :: old(remote) <= seen <= remote &&
                Decides(fp, old(index), Hits(seen, fp), searchFails, refused, net, chargeRaises, status)
      ensures index - {fp} == old(index) - {fp}
      ensures status.NowFiled? || status.SkippedRemote? ==>
                fp in index && index[fp] == Filed(status.number) && Marked(remote, fp, status.number)
      ensures status.SkippedIndex? || status.SearchFailed? || status.Ambiguous? || status.Refused? ==>
                index == old(index)
      ensures created == old(created) + if status.LeftPending? || status.Raised? || status.NowFiled?
                                        then Landings(net, 0) else 0
      ensures status.LeftPending? || status.Raised? ==> fp in index && index[fp].Pending?
      ensures Quiet() && created > old(created) ==> Hits(old(remote), fp) == {}
      ensures Quiet() && status.SkippedRemote? ==> remote == old(remote) && Hits(remote, fp) == {status.number}
    {
      ghost var before := index;
      var filed := Open(fp, s0);
      ghost var seen := remote;
      if filed {
        status := SkippedIndex(index[fp].number);
      } else if searchFails {
        GiveUp(SearchFails, s0);
        status := SearchFailed;
      } else {
        var found := FindHits(fp, s0);
        seen := remote;
        status := AfterSearch(fp, found, refused, net, chargeRaises, s0);
      }
      assert Decides(fp, before, Hits(seen, fp), searchFails, refused, net, chargeRaises, status);
    }

    /** What follows a search. */
    method AfterSearch(fp: Fp, found: set<Number>, refused: bool, net: seq<Answer>, chargeRaises: bool, ghost s0: State)
      returns (status: Status)
      requires Truthful(net) && CanReach(s0, Now()) && found == Hits(remote, fp)
      requires found == {} ==> job == Some(NoHit(fp, false))
      requires |found| == 1 ==> job.Some? && job.value.Found? && job.value.fp == fp && found == {job.value.number}
      requires |found| > 1 ==> job == None
      modifies this
      ensures CanReach(s0, Now()) && job == None && old(remote) <= remote && index - {fp} == old(index) - {fp}
      ensures DecidesByHits(found, refused, net, chargeRaises, status)
      ensures status.NowFiled? || status.SkippedRemote? ==>
                fp in index && index[fp] == Filed(status.number) && Marked(remote, fp, status.number)
      ensures status.Ambiguous? || status.Refused? ==> index == old(index)
      ensures status.LeftPending? || status.Raised? ==> fp in index && index[fp].Pending?
      ensures created == old(created) + if status.LeftPending? || status.Raised? || status.NowFiled?
                                        then Landings(net, 0) else 0
      ensures Quiet() && status.SkippedRemote? ==> remote == old(remote)
    {
      if |found| == 1 {
        var n :| n in found;
        assert Marked(remote, fp, n);
        SaveEntry(fp, n, s0);
        return SkippedRemote(n);
      }
      if |found| > 1 {
        return Ambiguous;
      }
      if refused {
        GiveUp(Refuse, s0);
        return Refused;
      }
      status := FileNew(fp, net, chargeRaises, s0);
    }

    /** One pending entry searched for. */
    method ReconcileNext(local: map<Fp, Entry>, left: set<Fp>, fp: Fp, searchFails: bool, ghost s0: State)
      returns (local1: map<Fp, Entry>)
      requires CanReach(s0, Now()) && job == Some(Reconciling(local, left)) && fp in left && fp in local
      modifies this`remote, this`orphans, this`clock, this`job
      ensures CanReach(s0, Now()) && job == Some(Reconciling(local1, left - {fp}))
      ensures old(remote) <= remote && (Quiet() ==> remote == old(remote))
      ensures SearchedFor(local, local1, remote, fp, searchFails)
    {
      OthersAct(s0);
      Further(s0, Now(), ReconcileOne(fp, searchFails));
      local1 := local;
      if !searchFails {
        var hits := Hits(remote, fp);
        if |hits| == 1 {
          var n :| n in hits;
          assert n == OnlyHit(remote, fp);
          local1 := local[fp := Filed(n)];
        }
      }
      job := Some(Reconciling(local1, left - {fp}));
    }

    /** The whole index written back, or the pass begun. */
    method BeginReconcile(ghost s0: State) returns (local: map<Fp, Entry>, left: set<Fp>)
      requires CanReach(s0, Now()) && job == None
      modifies this`remote, this`orphans, this`clock, this`job
      ensures CanReach(s0, Now()) && local == index && left == PendingOf(index) && job == Some(Reconciling(local, left))
      ensures Quiet() ==> remote == old(remote)
    {
      OthersAct(s0);
      Further(s0, Now(), ReconcileBegin);
      local, left := index, PendingOf(index);
      job := Some(Reconciling(local, left));
    }

    method EndReconcile(local: map<Fp, Entry>, ghost s0: State)
      requires CanReach(s0, Now()) && job == Some(Reconciling(local, {}))
      modifies this`index, this`remote, this`orphans, this`clock, this`job
      ensures CanReach(s0, Now()) && index == local && job == None
      ensures old(remote) <= remote && (Quiet() ==> remote == old(remote))
    {
      OthersAct(s0);
      Further(s0, Now(), ReconcileSave);
      index := local;
      job := None;
    }

    /** `reconcile_pending` under the mutex: it creates nothing, it touches only pending
        entries, and each it turned to `filed` names a marked issue; when nothing else
        happens, exactly the entries with one hit are turned. */
    method ReconcilePending(searchFails: set<Fp>, ghost s0: State)
      requires CanReach(s0, Now()) && job == None
      modifies this
      ensures CanReach(s0, Now()) && job == None
      ensures index.Keys == old(index).Keys && created == old(created)
      ensures OnlyPendingMoved(old(index), index, remote)
      ensures Quiet() ==> remote == old(remote) && Reconciled(old(index), index, remote, searchFails, {})
    {
      var local, left := BeginReconcile(s0);
      while left != {}
        invariant CanReach(s0, Now()) && job == Some(Reconciling(local, left)) && created == old(created)
        invariant index == old(index) && local.Keys == index.Keys && left <= PendingOf(index)
        invariant OnlyPendingMoved(index, local, remote)
        invariant Quiet() ==> remote == old(remote) && Reconciled(index, local, remote, searchFails, left)
        invariant forall fp :: fp in left ==> local[fp] == index[fp]
        decreases |left|
      {
        var fp: Fp :| fp in left;
        ghost var before, seen := local, remote;
        local := ReconcileNext(local, left, fp, fp in searchFails, s0);
        OneMoved(index, before, local, seen, remote, fp, fp in searchFails);
        if Quiet() {
          OneReconciled(index, before, local, remote, searchFails, left, fp);
        }
        left := left - {fp};
      }
      EndReconcile(local, s0);
    }
  }

  /** An entry that moved was pending and now names an issue with its marker. */
  predicate OnlyPendingMoved(before: map<Fp, Entry>, now: map<Fp, Entry>, remote: seq<Issue>) {
    forall fp :: fp in now && fp in before && now[fp] != before[fp] ==>
      before[fp].Pending? && now[fp].Filed? && Marked(remote, fp, now[fp].number)
  }

  /** Of the entries not `left`, exactly the pending ones searched with one hit are `filed`. */
  predicate Reconciled(before: map<Fp, Entry>, now: map<Fp, Entry>, remote: seq<Issue>, searchFails: set<Fp>,
                       left: set<Fp>)
    requires now.Keys == before.Keys
  {
    forall fp :: fp in now ==>
      if fp !in left && before[fp].Pending? && fp !in searchFails && |Hits(remote, fp)| == 1
      then now[fp].Filed? && Hits(remote, fp) == {now[fp].number}
      else now[fp] == before[fp]
  }

  /** One pending entry searched for. */
  ghost predicate SearchedFor(local: map<Fp, Entry>, local1: map<Fp, Entry>, remote: seq<Issue>, fp: Fp,
                              searchFails: bool)
  {
    if !searchFails && |Hits(remote, fp)| == 1
    then exists n :: Hits(remote, fp) == {n} && local1 == local[fp := Filed(n)] && Marked(remote, fp, n)
    else local1 == local
  }

  lemma OneMoved(index: map<Fp, Entry>, local: map<Fp, Entry>, local1: map<Fp, Entry>, seen: seq<Issue>,
                 remote: seq<Issue>, fp: Fp, searchFails: bool)
    requires local.Keys == index.Keys && fp in index && index[fp].Pending? && seen <= remote
    requires OnlyPendingMoved(index, local, seen) && SearchedFor(local, local1, remote, fp, searchFails)
    ensures local1.Keys == index.Keys && OnlyPendingMoved(index, local1, remote)
    ensures forall other :: other in local && other != fp ==> local1[other] == local[other]
  {
  }

  lemma OneReconciled(index: map<Fp, Entry>, local: map<Fp, Entry>, local1: map<Fp, Entry>, remote: seq<Issue>,
                      searchFails: set<Fp>, left: set<Fp>, fp: Fp)
    requires local.Keys == index.Keys == local1.Keys && fp in left && fp in index
    requires index[fp].Pending? && local[fp] == index[fp] && Reconciled(index, local, remote, searchFails, left)
    requires SearchedFor(local, local1, remote, fp, fp in searchFails)
    ensures Reconciled(index, local1, remote, searchFails, left - {fp})
  {
  }
}

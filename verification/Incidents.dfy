/** The durable obligation each merge leaves until something closes it
    (scripts/agentflow/incidents.py). */
module Incidents {
  import opened Wrappers

  type Sha = nat
  type Time = int

  datatype State = Verifying | Open | Resolved

  /** Who closed a record: a post-merge run, or a human by name. */
  datatype Closer = PostMerge(run: Option<nat>) | Human(name: string)

  datatype Record = Record(issue: int, state: State, runId: Option<nat>, gateRed: bool, reason: string, terminal: bool,
                           revertLanded: Option<bool>, labels: seq<string>, resolvedAt: Option<Time>,
                           resolvedBy: Option<Closer>, note: string, openedAt: Time)

  type Records = map<Sha, Record>

  datatype Refusal = UnknownMergeSha | EvidenceAgainstClose | AlreadyResolved(closer: Option<Closer>) | OperatorOnly

  /** The four transitions of one record. */
  datatype Op =
    | OpenIncident(issue: int, gateRed: bool, reason: string, verifying: bool, run: Option<nat>)
    | RecordOutcome(reason: string, revertLanded: Option<bool>, labels: seq<string>)
    | MarkVerified(run: Option<nat>, evidence: Option<string>)
    | Resolve(who: string, note: string, operatorAllowed: bool)

  const VERIFIED_NOTE := "every gate returned 0 and the tree was clean"

  function Opened(prev: Option<Record>, op: Op, now: Time): Record
    requires op.OpenIncident?
  {
    match prev
    case None =>
      Record(op.issue, if op.verifying then Verifying else Open, op.run, op.gateRed, op.reason, false,
             None, [], None, None, "", now)
    case Some(r) =>
      var state := if op.verifying && !r.state.Open? then Verifying else Open;
      var reopened := r.state.Resolved?;
      r.(issue := op.issue, state := state, runId := op.run, gateRed := r.gateRed || op.gateRed,
         reason := if r.terminal then r.reason else op.reason,
         resolvedAt := if reopened then None else r.resolvedAt,
         resolvedBy := if reopened then None else r.resolvedBy,
         note := if reopened then "" else r.note)
  }

  function Next(prev: Option<Record>, op: Op, now: Time): Result<Record, Refusal> {
    match op
    case OpenIncident(_, _, _, _, _) => Ok(Opened(prev, op, now))
    case RecordOutcome(reason, landed, labels) =>
      if prev.None? then Err(UnknownMergeSha)
      else Ok(prev.value.(reason := reason, revertLanded := landed, labels := labels, state := Open, terminal := true))
    case MarkVerified(run, note) =>
      if prev.None? then Err(UnknownMergeSha)
      else if prev.value.gateRed || prev.value.revertLanded == Some(false) then Err(EvidenceAgainstClose)
      else Ok(prev.value.(state := Resolved, resolvedAt := Some(now), resolvedBy := Some(PostMerge(run)),
                          note := if note.Some? && note.value != "" then note.value else VERIFIED_NOTE))
    case Resolve(who, note, allowed) =>
      if !allowed then Err(OperatorOnly)
      else if prev.None? then Err(UnknownMergeSha)
      else if prev.value.state.Resolved? then Err(AlreadyResolved(prev.value.resolvedBy))
      else Ok(prev.value.(state := Resolved, resolvedAt := Some(now), resolvedBy := Some(Human(who)), note := note))
  }

  function Find(records: Records, sha: Sha): Option<Record> {
    if sha in records then Some(records[sha]) else None
  }

  /** `.agent/incidents.json`; every method is one critical section of mutex `incidents`. */
  class IncidentStore {
    var records: Records

    constructor ()
      ensures records == map[]
    {
      records := map[];
    }

    method OpenIncident(sha: Sha, issue: int, gateRed: bool, reason: string, verifying: bool, run: Option<nat>,
                        now: Time)
      returns (r: Record)
      modifies this
      ensures Ok(r) == Next(Find(old(records), sha), Op.OpenIncident(issue, gateRed, reason, verifying, run), now)
      ensures records == old(records)[sha := r]
    {
      var prevState: Option<State> := None;
      r := Record(issue, Open, run, gateRed, reason, false, None, [], None, None, "", now);
      if sha in records {
        r := records[sha];
        prevState := Some(r.state);
      }
      var state := if verifying && prevState != Some(Open) then Verifying else Open;
      r := r.(issue := issue, state := state, runId := run, gateRed := r.gateRed || gateRed,
              reason := if r.terminal then r.reason else reason);
      if prevState == Some(Resolved) {
        r := r.(resolvedAt := None, resolvedBy := None, note := "");
      }
      records := records[sha := r];
    }

    method RecordOutcome(sha: Sha, reason: string, landed: Option<bool>, labels: seq<string>)
      returns (r: Result<Record, Refusal>)
      modifies this
      ensures forall now :: r == Next(Find(old(records), sha), Op.RecordOutcome(reason, landed, labels), now)
      ensures records == if r.Ok? then old(records)[sha := r.value] else old(records)
    {
      if sha !in records {
        return Err(UnknownMergeSha);
      }
      var rec := records[sha].(reason := reason, revertLanded := landed, labels := labels, state := Open,
                               terminal := true);
      records := records[sha := rec];
      return Ok(rec);
    }

    method MarkVerified(sha: Sha, run: Option<nat>, note: Option<string>, now: Time)
      returns (r: Result<Record, Refusal>)
      modifies this
      ensures r == Next(Find(old(records), sha), Op.MarkVerified(run, note), now)
      ensures records == if r.Ok? then old(records)[sha := r.value] else old(records)
    {
      if sha !in records {
        return Err(UnknownMergeSha);
      }
      var rec := records[sha];
      if rec.gateRed || rec.revertLanded == Some(false) {
        return Err(EvidenceAgainstClose);
      }
      rec := rec.(state := Resolved, resolvedAt := Some(now), resolvedBy := Some(PostMerge(run)),
                  note := if note.Some? && note.value != "" then note.value else VERIFIED_NOTE);
      records := records[sha := rec];
      return Ok(rec);
    }

    method Resolve(sha: Sha, who: string, note: string, operatorAllowed: bool, now: Time)
      returns (r: Result<Record, Refusal>)
      modifies this
      ensures r == Next(Find(old(records), sha), Op.Resolve(who, note, operatorAllowed), now)
      ensures records == if r.Ok? then old(records)[sha := r.value] else old(records)
    {
      if !operatorAllowed {
        return Err(OperatorOnly);
      }
      if sha !in records {
        return Err(UnknownMergeSha);
      }
      var rec := records[sha];
      if rec.state.Resolved? {
        return Err(AlreadyResolved(rec.resolvedBy));
      }
      rec := rec.(state := Resolved, resolvedAt := Some(now), resolvedBy := Some(Human(who)), note := note);
      records := records[sha := rec];
      return Ok(rec);
    }
  }

  // ---- sequences of operations --------------------------------------------

  /** One operation on one merge, at some time. */
  datatype Call = Call(sha: Sha, op: Op, now: Time)

  function After(records: Records, c: Call): Records {
    match Next(Find(records, c.sha), c.op, c.now)
    case Ok(r) => records[c.sha := r]
    case Err(_) => records
  }

  function Final(records: Records, calls: seq<Call>): Records
    decreases |calls|
  {
    if calls == [] then records else Final(After(records, calls[0]), calls[1..])
  }

  /** Evidence never regresses and a record never disappears. */
  predicate Advances(a: Records, b: Records) {
    forall sha :: sha in a ==>
      && sha in b
      && (a[sha].gateRed ==> b[sha].gateRed)
      && (a[sha].terminal ==> b[sha].terminal)
      && a[sha].openedAt == b[sha].openedAt
  }

  lemma {:induction false} EvidenceNeverRegresses(records: Records, calls: seq<Call>)
    ensures Advances(records, Final(records, calls))
    decreases |calls|
  {
    if calls != [] {
      EvidenceNeverRegresses(After(records, calls[0]), calls[1..]);
    }
  }

  /** What closes a record: a verification with no evidence against it, or an operator. */
  predicate Closes(c: Call, sha: Sha, r: Record) {
    c.sha == sha &&
    match c.op
    case MarkVerified(_, _) => !r.gateRed && r.revertLanded != Some(false)
    case Resolve(_, _, allowed) => allowed && !r.state.Resolved?
    case _ => false
  }

  /** Each such call does close it, in the name of who made it. */
  lemma ClosesMeans(records: Records, c: Call, sha: Sha)
    requires sha in records && Closes(c, sha, records[sha])
    ensures var r := After(records, c)[sha];
            && r.state.Resolved? && r.resolvedAt == Some(c.now)
            && r.resolvedBy == Some(if c.op.Resolve? then Human(c.op.who) else PostMerge(c.op.run))
            && r.gateRed == records[sha].gateRed && r.terminal == records[sha].terminal
            && (c.op.Resolve? ==> r.note == c.op.note)
            && (c.op.MarkVerified? ==>
                  if c.op.evidence.None? || c.op.evidence.value == "" then
                    r.note == "every gate returned 0 and the tree was clean"
                  else r.note == c.op.evidence.value)
  {
  }

  /** An `open` record stays `open` through every sequence of calls none of which closes it. */
  predicate NoneCloses(records: Records, calls: seq<Call>, sha: Sha)
    decreases |calls|
  {
    calls == [] ||
    ((sha in records ==> !Closes(calls[0], sha, records[sha])) && NoneCloses(After(records, calls[0]), calls[1..], sha))
  }

  lemma {:induction false} OpenUntilClosed(records: Records, calls: seq<Call>, sha: Sha)
    requires sha in records && records[sha].state.Open? && NoneCloses(records, calls, sha)
    ensures sha in Final(records, calls) && Final(records, calls)[sha].state.Open?
    decreases |calls|
  {
    if calls != [] {
      OpenUntilClosed(After(records, calls[0]), calls[1..], sha);
    }
  }

  /** Once a gate was red on a merge, only an operator's `resolve` can have it resolved
      afterwards: a later automated close is refused, so a record open or verifying now
      that is resolved later was closed by a human. */
  lemma {:induction false} RedIsClosedByHumansOnly(records: Records, calls: seq<Call>, sha: Sha)
    requires sha in records && records[sha].gateRed
    requires !records[sha].state.Resolved? || (records[sha].resolvedBy.Some? && records[sha].resolvedBy.value.Human?)
    ensures sha in Final(records, calls)
    ensures var r := Final(records, calls)[sha];
            r.state.Resolved? ==> r.resolvedBy.Some? && r.resolvedBy.value.Human?
    ensures forall run, note, now ::
              Next(Some(Final(records, calls)[sha]), Op.MarkVerified(run, note), now) == Err(EvidenceAgainstClose)
    decreases |calls|
  {
    EvidenceNeverRegresses(records, calls);
    if calls != [] {
      RedIsClosedByHumansOnly(After(records, calls[0]), calls[1..], sha);
    }
  }

  /** So the automated close of a record means no gate was ever red on it. */
  lemma {:induction false} AutomatedCloseMeansNeverRed(calls: seq<Call>, sha: Sha)
    requires sha in Final(map[], calls)
    requires var r := Final(map[], calls)[sha]; r.state.Resolved? && r.resolvedBy.Some? && r.resolvedBy.value.PostMerge?
    ensures !Final(map[], calls)[sha].gateRed
  {
    ClosersMatch(map[], calls);
  }

  /** A record's closer agrees with its evidence. */
  predicate Sound(records: Records) {
    forall sha :: sha in records && records[sha].state.Resolved? && records[sha].resolvedBy.Some? &&
                  records[sha].resolvedBy.value.PostMerge? ==>
      !records[sha].gateRed && records[sha].revertLanded != Some(false)
  }

  lemma {:induction false} ClosersMatch(records: Records, calls: seq<Call>)
    requires Sound(records)
    ensures Sound(Final(records, calls))
    decreases |calls|
  {
    if calls != [] {
      ClosersMatch(After(records, calls[0]), calls[1..]);
    }
  }

  // ---- what a record tells of its history ------------------------------------

  predicate Opens(c: Call, sha: Sha) {
    c.sha == sha && c.op.OpenIncident?
  }

  predicate Red(c: Call, sha: Sha) {
    Opens(c, sha) && c.op.gateRed
  }

  predicate Outcome(c: Call, sha: Sha) {
    c.sha == sha && c.op.RecordOutcome?
  }

  /** An operator's `resolve` in the name of `who`. */
  predicate ClosedBy(c: Call, sha: Sha, closer: Closer) {
    c.sha == sha &&
    match closer
    case Human(who) => c.op.Resolve? && c.op.who == who && c.op.operatorAllowed
    case PostMerge(run) => c.op.MarkVerified? && c.op.run == run
  }

  ghost predicate Any(calls: seq<Call>, holds: Call -> bool) {
    exists i :: 0 <= i < |calls| && holds(calls[i])
  }

  lemma SomeLater(calls: seq<Call>, holds: Call -> bool)
    requires calls != []
    ensures Any(calls, holds) <==> holds(calls[0]) || Any(calls[1..], holds)
  {
    if Any(calls[1..], holds) {
      var i :| 0 <= i < |calls| - 1 && holds(calls[1..][i]);
      assert holds(calls[i + 1]);
    }
    if Any(calls, holds) && !holds(calls[0]) {
      var i :| 0 <= i < |calls| && holds(calls[i]);
      assert holds(calls[1..][i - 1]);
    }
  }

  /** A record exists exactly when an incident was opened on its merge. */
  lemma {:induction false} KnownWhenOpened(records: Records, calls: seq<Call>, sha: Sha)
    ensures sha in Final(records, calls) <==> sha in records || Any(calls, c => Opens(c, sha))
    decreases |calls|
  {
    if calls != [] {
      KnownWhenOpened(After(records, calls[0]), calls[1..], sha);
      SomeLater(calls, c => Opens(c, sha));
    }
  }

  /** `gate_red` is set exactly when some opening said so. */
  lemma {:induction false} RedWhenReportedRed(records: Records, calls: seq<Call>, sha: Sha)
    requires sha in Final(records, calls)
    ensures Final(records, calls)[sha].gateRed <==>
              (sha in records && records[sha].gateRed) || Any(calls, c => Red(c, sha))
    decreases |calls|
  {
    if calls != [] {
      RedWhenReportedRed(After(records, calls[0]), calls[1..], sha);
      SomeLater(calls, c => Red(c, sha));
    }
  }

  /** `terminal` is set exactly when an outcome was recorded on the known merge. */
  lemma {:induction false} TerminalWhenOutcomeRecorded(records: Records, calls: seq<Call>, sha: Sha)
    requires sha in records
    ensures sha in Final(records, calls)
    ensures Final(records, calls)[sha].terminal <==> records[sha].terminal || Any(calls, c => Outcome(c, sha))
    decreases |calls|
  {
    if calls != [] {
      TerminalWhenOutcomeRecorded(After(records, calls[0]), calls[1..], sha);
      SomeLater(calls, c => Outcome(c, sha));
    }
  }

  /** Whoever a resolved record names has closed it: a human with the operator's leave, a run by
      a verification. */
  lemma {:induction false} CloserHasClosed(records: Records, calls: seq<Call>, sha: Sha, closer: Closer)
    requires sha in Final(records, calls) && Final(records, calls)[sha].state.Resolved?
    requires Final(records, calls)[sha].resolvedBy == Some(closer)
    ensures (sha in records && records[sha].state.Resolved? && records[sha].resolvedBy == Some(closer))
            || Any(calls, c => ClosedBy(c, sha, closer))
    decreases |calls|
  {
    if calls != [] {
      CloserHasClosed(After(records, calls[0]), calls[1..], sha, closer);
      SomeLater(calls, c => ClosedBy(c, sha, closer));
    }
  }

  /** What an opening leaves: an unresolved record, verifying only if asked and not open before;
      a reopened one forgets who closed it, and the first date and the evidence stay. */
  lemma OpeningMeans(prev: Option<Record>, op: Op, now: Time)
    requires op.OpenIncident?
    ensures Next(prev, op, now).Ok?
    ensures var r := Next(prev, op, now).value;
            && (r.state.Verifying? <==> op.verifying && !(prev.Some? && prev.value.state.Open?)) && !r.state.Resolved?
            && r.issue == op.issue && r.runId == op.run
            && (prev.None? ==> r.reason == op.reason && r.openedAt == now && r.gateRed == op.gateRed && !r.terminal)
            && (prev.None? || prev.value.state.Resolved? ==>
                  r.resolvedAt.None? && r.resolvedBy.None? && r.note == "")
            && (prev.Some? ==>
                  && r.openedAt == prev.value.openedAt && r.terminal == prev.value.terminal
                  && r.gateRed == (prev.value.gateRed || op.gateRed)
                  && r.reason == (if prev.value.terminal then prev.value.reason else op.reason)
                  && r.revertLanded == prev.value.revertLanded && r.labels == prev.value.labels)
  {
  }

  /** What a recorded outcome leaves: an open, terminal record with this outcome; of an unknown
      merge, nothing. */
  lemma OutcomeMeans(records: Records, c: Call)
    requires c.op.RecordOutcome?
    ensures c.sha !in records ==> After(records, c) == records
    ensures c.sha in records ==>
              var (before, r) := (records[c.sha], After(records, c)[c.sha]);
              && r.state.Open? && r.terminal && r.reason == c.op.reason
              && r.revertLanded == c.op.revertLanded && r.labels == c.op.labels
              && r.issue == before.issue && r.gateRed == before.gateRed && r.openedAt == before.openedAt
  {
  }

  /** A call touches its own merge only, and resolves a record only by closing it. */
  lemma OnlyClosesResolve(records: Records, c: Call, sha: Sha)
    requires sha in records
    ensures sha in After(records, c)
    ensures c.sha != sha ==> After(records, c)[sha] == records[sha]
    ensures !Closes(c, sha, records[sha]) ==>
              After(records, c)[sha] == records[sha] || !After(records, c)[sha].state.Resolved?
  {
  }
}

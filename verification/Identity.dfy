/** The proof that lets `post-merge` skip its gates (scripts/agentflow/identity.py,
    scripts/agentflow/mergeops.py, scripts/agentflow/protect.py). A tree is a map from
    path to content and stands for its own hash; commits, toolchains and closures are
    opaque. A git query that fails is None. */
module Identity {
  import opened Wrappers
  import opened Text
  import opened GateCommands
  import Incidents

  type Path = string
  type Tree = map<Path, nat>
  type Sha = nat

  datatype Commit = Commit(tree: Tree, parent: Option<Sha>)

  type Git = map<Sha, Commit>

  // ---- paths no gate reads ------------------------------------------------

  const GATE_INERT_EXACT := "CHANGELOG.md"
  const GATE_INERT_DIR := "docs/"
  const GATE_INERT_SUFFIX := ".md"
  const GATE_IGNORED := ".agent/"

  predicate GateInert(path: Path) {
    var p := Slashed(path);
    p == GATE_INERT_EXACT || (GATE_INERT_DIR <= p && EndsWith(p, GATE_INERT_SUFFIX))
  }

  function Decimal(n: nat): string {
    if n < 10 then ["0123456789"[n]] else Decimal(n / 10) + ["0123456789"[n % 10]]
  }

  function EvidenceFiles(issue: nat): set<Path> {
    var folder := GATE_IGNORED + "issue-" + Decimal(issue);
    {folder + "/ledger.md", folder + "/findings.json"}
  }

  predicate Agree(a: Tree, b: Tree, path: Path) {
    (path in a <==> path in b) && (path in a ==> a[path] == b[path])
  }

  // ---- what those paths are --------------------------------------------------

  /** The change log, and Markdown anywhere under `docs/`. */
  ghost predicate InertProse(path: Path) {
    Slashed(path) == "CHANGELOG.md" || exists mid :: Slashed(path) == "docs/" + mid + ".md"
  }

  /** The issue's ledger and register. */
  ghost predicate Evidence(path: Path, issue: nat) {
    exists number :: IsNumeral(number, issue) &&
      (path == ".agent/issue-" + number + "/ledger.md" || path == ".agent/issue-" + number + "/findings.json")
  }

  /** The paths whose content a gate's verdict may depend on. */
  ghost predicate GateReads(path: Path) {
    !(".agent/" <= path) && !InertProse(path)
  }

  /** `a` and `b` look the same to every gate. */
  ghost predicate SameToGates(a: Tree, b: Tree) {
    forall path :: GateReads(path) ==> Agree(a, b, path)
  }

  /** `a` and `b` are the same off the issue's evidence and inert prose. */
  ghost predicate SameOffEvidence(a: Tree, b: Tree, issue: nat) {
    forall path :: !Evidence(path, issue) && !InertProse(path) ==> Agree(a, b, path)
  }

  /** `s` is the decimal numeral of `n`, without leading zeros. */
  ghost predicate IsNumeral(s: string, n: nat) {
    s != [] && (forall i :: 0 <= i < |s| ==> '0' <= s[i] <= '9') && (|s| > 1 ==> s[0] != '0') && DigitsValue(s) == n
  }

  lemma DigitOf(d: nat)
    requires d < 10
    ensures "0123456789"[d] as int == '0' as int + d
  {
  }

  lemma DecimalSnoc(high: nat, low: nat)
    requires low < 10
    ensures high == 0 ==> |Decimal(low)| == 1 && Decimal(low)[0] as int == '0' as int + low
    ensures high > 0 ==> Decimal(10 * high + low) == Decimal(high) + [(low + '0' as int) as char]
  {
    DigitOf(low);
    assert (10 * high + low) / 10 == high && (10 * high + low) % 10 == low;
  }

  lemma {:induction false} DecimalIsNumeral(n: nat)
    ensures IsNumeral(Decimal(n), n) && (n > 0 ==> Decimal(n)[0] != '0')
  {
    DecimalSnoc(n / 10, n % 10);
    if n >= 10 {
      DecimalIsNumeral(n / 10);
      var high := Decimal(n / 10);
      assert Decimal(n)[..|high|] == high;
    } else {
      assert Decimal(n)[..0] == [];
    }
  }

  lemma {:induction false} OneNumeral(s: string, n: nat)
    requires IsNumeral(s, n)
    ensures s == Decimal(n)
    decreases |s|
  {
    var high, low := s[..|s| - 1], s[|s| - 1] as int - '0' as int;
    assert s == high + [s[|s| - 1]];
    if high == [] {
      assert DigitsValue(high) == 0;
      DecimalSnoc(0, low);
    } else {
      DigitsNatural(high);
      LeadingDigit(high);
      OneNumeral(high, DigitsValue(high));
      DecimalSnoc(DigitsValue(high), low);
    }
  }

  lemma {:induction false} LeadingDigit(s: string)
    requires s != [] && s[0] != '0' && forall i :: 0 <= i < |s| ==> '0' <= s[i] <= '9'
    ensures DigitsValue(s) > 0
  {
    if |s| == 1 {
      assert s[..0] == [];
    } else {
      LeadingDigit(s[..|s| - 1]);
    }
  }

  lemma EvidenceExactly(path: Path, issue: nat)
    ensures path in EvidenceFiles(issue) <==> Evidence(path, issue)
  {
    DecimalIsNumeral(issue);
    assert GATE_IGNORED + "issue-" == ".agent/issue-";
    forall number | IsNumeral(number, issue)
      ensures number == Decimal(issue)
    {
      OneNumeral(number, issue);
    }
  }

  lemma InertExactly(path: Path)
    ensures GateInert(path) <==> InertProse(path)
  {
    var p := Slashed(path);
    if "docs/" <= p && EndsWith(p, ".md") {
      PrefixAndSuffix(p);
      assert p == "docs/" + p[5..|p| - 3] + ".md";
    }
    forall mid | p == "docs/" + mid + ".md"
      ensures "docs/" <= p && EndsWith(p, ".md")
    {
      assert p == "docs/" + (mid + ".md");
    }
  }

  /** `docs/` and `.md` do not overlap. */
  lemma PrefixAndSuffix(p: string)
    requires "docs/" <= p && EndsWith(p, ".md")
    ensures |p| >= 8
  {
    assert p[4] == '/' && p[|p| - 3] == '.' && p[|p| - 2] == 'm' && p[|p| - 1] == 'd';
    assert p[2] == 'c' && p[3] == 's';
  }

  // ---- git queries --------------------------------------------------------

  function TreeOf(git: Git, sha: Sha): Option<Tree> {
    if sha in git then Some(git[sha].tree) else None
  }

  function ParentOf(git: Git, sha: Sha): Option<Sha> {
    if sha in git then git[sha].parent else None
  }

  function ChangedFiles(git: Git, a: Sha, b: Sha): Option<set<Path>> {
    if a in git && b in git then
      Some(set p | p in git[a].tree.Keys + git[b].tree.Keys && !Agree(git[a].tree, git[b].tree, p))
    else None
  }

  function FreezeViolations(git: Git, h: Sha, head: Sha, issue: nat): Option<set<Path>> {
    match ChangedFiles(git, h, head)
    case None => None
    case Some(files) => Some(set f | f in files && f !in EvidenceFiles(issue) && !GateInert(f))
  }

  /** The frozen head agrees with `h` everywhere but on the two evidence files and gate-inert
      prose, and only then; so no violation means the two trees look the same to every gate. */
  lemma FrozenLooksTheSame(git: Git, h: Sha, head: Sha, issue: nat)
    requires h in git && head in git
    ensures FreezeViolations(git, h, head, issue) == Some({}) <==>
              SameOffEvidence(git[h].tree, git[head].tree, issue)
    ensures FreezeViolations(git, h, head, issue) == Some({}) ==> SameToGates(git[h].tree, git[head].tree)
  {
    var files := FreezeViolations(git, h, head, issue).value;
    forall path
      ensures path in files <==>
                !Evidence(path, issue) && !InertProse(path) && !Agree(git[h].tree, git[head].tree, path)
      ensures Evidence(path, issue) ==> ".agent/" <= path
    {
      EvidenceExactly(path, issue);
      InertExactly(path);
    }
    assert files != {} ==> exists path :: path in files;
  }

  // ---- records ------------------------------------------------------------

  datatype Grammar = Grammar(commit: Option<nat>, dirty: bool)

  datatype Cdo = Cdo(path: Option<string>, gitSha: Option<nat>, dirty: Option<bool>, closure: Option<nat>)

  datatype Env = Env(rustc: Option<nat>, grammar: Grammar, cdo: Option<Cdo>)

  datatype Probe = Probe(head: Option<Sha>, tree: Option<Tree>, clean: bool, env: Env)

  datatype GateRecord = GateRecord(name: string, argv: Command, exitCode: Option<int>, timedOut: Option<bool>,
                                   supervised: bool, head: Option<Sha>, tree: Option<Tree>,
                                   cleanBefore: bool, cleanAfter: bool, env: Option<Env>)

  datatype Attestation = Attestation(issue: nat, base: Sha, h: Sha, finalHead: Sha, gates: map<string, int>)

  datatype Source = Merge | Recover

  datatype MergeRecord = MergeRecord(mergeSha: Sha, source: Source)

  const CDO_GATE_KEY := "cdo-gate"

  /** `record_gate_run`: what moved while the child ran is recorded as None. */
  function RecordGateRun(name: string, argv: Command, exitCode: int, timedOut: bool, supervised: bool,
                         before: Probe, after: Probe): GateRecord
  {
    var sameTree := before.head == after.head && before.tree == after.tree;
    GateRecord(name, argv, Some(exitCode), Some(timedOut), supervised,
               if sameTree then before.head else None, if sameTree then before.tree else None,
               before.clean, after.clean, if before.env == after.env then Some(before.env) else None)
  }

  /** The last record of that name. */
  function Latest(log: seq<GateRecord>, name: string): Option<GateRecord> {
    if log == [] then None
    else if log[|log| - 1].name == name then Some(log[|log| - 1])
    else Latest(log[..|log| - 1], name)
  }

  method LatestRecords(log: seq<GateRecord>) returns (byName: map<string, GateRecord>)
    ensures forall name :: (name in byName <==> Latest(log, name).Some?)
    ensures forall name :: name in byName ==> Latest(log, name) == Some(byName[name])
  {
    byName := map[];
    for n := 0 to |log|
      invariant forall name :: (name in byName <==> Latest(log[..n], name).Some?)
      invariant forall name :: name in byName ==> Latest(log[..n], name) == Some(byName[name])
    {
      byName := byName[log[n].name := log[n]];
      assert log[..n + 1][..n] == log[..n];
    }
    assert log[..|log|] == log;
  }

  // ---- the refusals -------------------------------------------------------

  datatype Gate = Gate(name: string, argv: Command)

  /** Everything `identity_refusals` reads. A file that cannot be read is None. */
  datatype Case = Case(git: Git, issue: nat, mergeSha: Sha, commands: seq<Gate>, docsOnly: bool,
                       merged: Option<MergeRecord>, incidents: Option<map<Sha, Incidents.Record>>,
                       attestation: Option<Attestation>, log: seq<GateRecord>, now: Env)

  datatype Check =
    | MergedByThisRun | IncidentHistory | AttestationRead | AttestedIssue | AttestedGatesGreen | BaseMoved | TreeDiffers
    | NonEvidenceAfterH | HTree
    | RecordExists(gate: Gate) | RecordCommand(gate: Gate) | RecordRed(gate: Gate) | RecordDirty(gate: Gate)
    | RecordTree(gate: Gate) | RustcChanged(gate: Gate) | GrammarChanged(gate: Gate) | CdoChanged(gate: Gate)

  datatype Refusal = Refused(check: Check) | Raised(check: Check)

  const REQUIRED_GATE_KEYS := ["ci-steps-all", "check-goldens-coverage", "check-goldens"]

  predicate GatesGreen(gates: map<string, int>, docsOnly: bool) {
    forall key :: key in REQUIRED_GATE_KEYS + (if docsOnly then [] else [CDO_GATE_KEY]) ==>
        key in gates && gates[key] == 0
  }

  predicate BadHistory(records: map<Sha, Incidents.Record>, sha: Sha) {
    sha !in records || !records[sha].state.Verifying? || records[sha].gateRed ||
    records[sha].revertLanded == Some(false) || records[sha].terminal
  }

  // ---- when the skip is allowed, apart from the checks ---------------------------

  /** The merge is this run's own, its obligation is open and nothing was red, and its tree is
      the attested head's, off the evidence and inert prose that of `H`, on the attested base. */
  ghost predicate MergeChecksOut(w: Case) {
    && w.merged == Some(MergeRecord(w.mergeSha, Merge))
    && w.incidents.Some? && w.mergeSha in w.incidents.value && NothingHappened(w.incidents.value[w.mergeSha])
    && w.attestation.Some?
    && var att := w.attestation.value;
       && att.issue == w.issue
       && Green(att, "ci-steps-all") && Green(att, "check-goldens-coverage") && Green(att, "check-goldens")
       && (!w.docsOnly ==> Green(att, "cdo-gate"))
       && w.mergeSha in w.git && att.finalHead in w.git && att.h in w.git
       && w.git[w.mergeSha].parent == Some(att.base) && w.git[w.mergeSha].tree == w.git[att.finalHead].tree
       && SameOffEvidence(w.git[att.h].tree, w.git[att.finalHead].tree, w.issue)
  }

  predicate NothingHappened(incident: Incidents.Record) {
    incident.state.Verifying? && !incident.gateRed && !incident.terminal && incident.revertLanded != Some(false)
  }

  predicate Green(att: Attestation, key: string) {
    key in att.gates && att.gates[key] == 0
  }

  /** The record vouches for the gate, on `h`'s tree and in today's environment. */
  predicate Vouches(now: Env, hTree: Tree, g: Gate, r: GateRecord) {
    && SameScript(r.argv, g.argv)
    && r.exitCode == Some(0) && r.timedOut == Some(false) && r.supervised && r.cleanBefore && r.cleanAfter
    && r.tree == Some(hTree)
    && r.env.Some? && now.rustc.Some? && r.env.value.rustc == now.rustc
    && now.grammar.commit.Some? && !now.grammar.dirty && r.env.value.grammar == now.grammar
    && (g.name == "cdo-gate" ==> now.cdo.Some? && now.cdo.value.path.Some? && r.env.value.cdo == now.cdo)
  }

  /** Entry `i` of the log is the last of that name. */
  ghost predicate IsLatest(log: seq<GateRecord>, name: string, i: nat) {
    i < |log| && log[i].name == name && forall j :: i < j < |log| ==> log[j].name != name
  }

  /** The latest record of the gate vouches for it. */
  ghost predicate Vouched(w: Case, hTree: Tree, g: Gate) {
    exists i: nat :: IsLatest(w.log, g.name, i) && Vouches(w.now, hTree, g, w.log[i])
  }

  /** The skip is allowed. */
  ghost predicate MaySkip(w: Case) {
    MergeChecksOut(w) && forall g :: g in w.commands ==> Vouched(w, w.git[w.attestation.value.h].tree, g)
  }

  lemma {:induction false} LatestIsTheLast(log: seq<GateRecord>, name: string)
    ensures Latest(log, name).Some? ==>
              exists i: nat :: IsLatest(log, name, i) && Latest(log, name) == Some(log[i])
    ensures Latest(log, name).None? ==> forall r :: r in log ==> r.name != name
    ensures forall i: nat :: IsLatest(log, name, i) ==> Latest(log, name) == Some(log[i])
  {
    if log != [] {
      var rest, last := log[..|log| - 1], log[|log| - 1];
      LatestIsTheLast(rest, name);
      assert forall r :: r in log ==> r in rest || r == last;
      if last.name == name {
        assert IsLatest(log, name, |log| - 1);
        assert forall i: nat :: IsLatest(log, name, i) ==> i == |log| - 1;
      } else {
        assert forall i: nat :: IsLatest(log, name, i) <==> IsLatest(rest, name, i);
        if Latest(log, name).Some? {
          var i: nat :| IsLatest(rest, name, i) && Latest(rest, name) == Some(rest[i]);
          assert IsLatest(log, name, i) && log[i] == rest[i];
        }
      }
    }
  }

  /** One check: Some(true) refuses, Some(false) passes, None is an exception, which refuses too. */
  function Outcome(c: Check, failed: Option<bool>): (r: seq<Refusal>)
    ensures r == [] <==> failed == Some(false)
  {
    match failed
    case None => [Raised(c)]
    case Some(true) => [Refused(c)]
    case Some(false) => []
  }

  function HistoryRefusals(w: Case): seq<Refusal> {
    Outcome(MergedByThisRun,
            Some(w.merged.None? || w.merged.value.source != Merge || w.merged.value.mergeSha != w.mergeSha))
    + Outcome(IncidentHistory, if w.incidents.None? then None else Some(BadHistory(w.incidents.value, w.mergeSha)))
  }

  function AttestationRefusals(w: Case, att: Attestation): seq<Refusal> {
    var parent := ParentOf(w.git, w.mergeSha);
    var merge, final := TreeOf(w.git, w.mergeSha), TreeOf(w.git, att.finalHead);
    var late := FreezeViolations(w.git, att.h, att.finalHead, w.issue);
    Outcome(AttestedIssue, Some(att.issue != w.issue))
    + Outcome(AttestedGatesGreen, Some(!GatesGreen(att.gates, w.docsOnly)))
    + Outcome(BaseMoved, if parent.None? then None else Some(parent.value != att.base))
    + Outcome(TreeDiffers, if merge.None? || final.None? then None else Some(merge != final))
    + Outcome(NonEvidenceAfterH, if late.None? then None else Some(late.value != {}))
  }

  function RecordRefusals(now: Env, hTree: Tree, g: Gate, r: GateRecord): seq<Refusal> {
    Outcome(RecordCommand(g), Some(!SameCommand(r.argv, g.argv)))
    + Outcome(RecordRed(g), Some(r.exitCode != Some(0) || r.timedOut != Some(false) || !r.supervised))
    + Outcome(RecordDirty(g), Some(!r.cleanBefore || !r.cleanAfter))
    + Outcome(RecordTree(g), Some(r.tree != Some(hTree)))
    + Outcome(RustcChanged(g), Some(now.rustc.None? || r.env.None? || r.env.value.rustc != now.rustc))
    + Outcome(GrammarChanged(g),
              Some(now.grammar.commit.None? || now.grammar.dirty || r.env.None? || r.env.value.grammar != now.grammar))
    + (if g.name != CDO_GATE_KEY then []
       else Outcome(CdoChanged(g),
                    if now.cdo.None? then None
                    else Some(now.cdo.value.path.None? || r.env.None? || r.env.value.cdo != now.cdo)))
  }

  function GateRefusal(w: Case, hTree: Tree, g: Gate): seq<Refusal> {
    match Latest(w.log, g.name)
    case None => [Refused(RecordExists(g))]
    case Some(r) => RecordRefusals(w.now, hTree, g, r)
  }

  function GateRefusals(w: Case, hTree: Tree, gates: seq<Gate>): seq<Refusal> {
    if gates == [] then []
    else GateRefusals(w, hTree, gates[..|gates| - 1]) + GateRefusal(w, hTree, gates[|gates| - 1])
  }

  /** Every refusal, in the order the checks run. */
  function Refusals(w: Case): seq<Refusal> {
    match w.attestation
    case None => HistoryRefusals(w) + [Refused(AttestationRead)]
    case Some(att) =>
      HistoryRefusals(w) + AttestationRefusals(w, att) +
      match TreeOf(w.git, att.h)
      case None => [Raised(HTree)]
      case Some(hTree) => GateRefusals(w, hTree, w.commands)
  }

  lemma GateRefusalsGrow(w: Case, hTree: Tree, gates: seq<Gate>, n: nat)
    requires n < |gates|
    ensures GateRefusals(w, hTree, gates[..n + 1]) ==
              GateRefusals(w, hTree, gates[..n]) + GateRefusal(w, hTree, gates[n])
  {
    assert gates[..n + 1][..n] == gates[..n];
  }

  method RunGateChecks(w: Case, hTree: Tree) returns (out: seq<Refusal>)
    ensures out == GateRefusals(w, hTree, w.commands)
  {
    var records := LatestRecords(w.log);
    out := [];
    for n := 0 to |w.commands|
      invariant out == GateRefusals(w, hTree, w.commands[..n])
    {
      var g := w.commands[n];
      GateRefusalsGrow(w, hTree, w.commands, n);
      if g.name !in records {
        out := out + [Refused(RecordExists(g))];
        continue;
      }
      out := out + RecordRefusals(w.now, hTree, g, records[g.name]);
    }
    assert w.commands[..|w.commands|] == w.commands;
  }

  /** `identity_refusals`: a check that fails or raises is named and the rest still run; the
      list is empty exactly when the skip is allowed. */
  method IdentityRefusals(w: Case) returns (out: seq<Refusal>)
    ensures out == Refusals(w)
    ensures out == [] <==> MaySkip(w)
  {
    NothingRefusedMeansAllowed(w);
    out := HistoryRefusals(w);
    if w.attestation.None? {
      return out + [Refused(AttestationRead)];
    }
    var att := w.attestation.value;
    out := out + AttestationRefusals(w, att);
    if TreeOf(w.git, att.h).None? {
      return out + [Raised(HTree)];
    }
    var ofGates := RunGateChecks(w, TreeOf(w.git, att.h).value);
    out := out + ofGates;
  }

  lemma RecordVouches(now: Env, hTree: Tree, g: Gate, r: GateRecord)
    ensures RecordRefusals(now, hTree, g, r) == [] <==> Vouches(now, hTree, g, r)
  {
    SameCommandMeansSameScript(r.argv, g.argv);
  }

  lemma GateVouched(w: Case, hTree: Tree, g: Gate)
    ensures GateRefusal(w, hTree, g) == [] <==> Vouched(w, hTree, g)
  {
    LatestIsTheLast(w.log, g.name);
    var r := Latest(w.log, g.name);
    if r.Some? {
      RecordVouches(w.now, hTree, g, r.value);
    }
  }

  lemma AttestedGreen(gates: map<string, int>, docsOnly: bool, att: Attestation)
    requires att.gates == gates
    ensures GatesGreen(gates, docsOnly) <==>
              Green(att, "ci-steps-all") && Green(att, "check-goldens-coverage") && Green(att, "check-goldens") &&
              (!docsOnly ==> Green(att, "cdo-gate"))
  {
    var keys := REQUIRED_GATE_KEYS + if docsOnly then [] else [CDO_GATE_KEY];
    assert keys[0] == "ci-steps-all" && keys[1] == "check-goldens-coverage" && keys[2] == "check-goldens";
    assert !docsOnly ==> keys[3] == "cdo-gate";
  }

  lemma MergeChecked(w: Case)
    ensures w.attestation.Some? && w.attestation.value.h in w.git ==>
              (HistoryRefusals(w) + AttestationRefusals(w, w.attestation.value) == [] <==> MergeChecksOut(w))
  {
    if w.attestation.Some? && w.attestation.value.h in w.git {
      var att := w.attestation.value;
      AttestedGreen(att.gates, w.docsOnly, att);
      if att.finalHead in w.git {
        FrozenLooksTheSame(w.git, att.h, att.finalHead, w.issue);
      }
    }
  }

  lemma {:induction false} NothingRefusedMeansAllowed(w: Case)
    ensures Refusals(w) == [] <==> MaySkip(w)
  {
    MergeChecked(w);
    if w.attestation.Some? && w.attestation.value.h in w.git {
      EveryGateVouched(w, w.git[w.attestation.value.h].tree, w.commands);
    }
  }

  lemma {:induction false} EveryGateVouched(w: Case, hTree: Tree, gates: seq<Gate>)
    ensures GateRefusals(w, hTree, gates) == [] <==> forall g :: g in gates ==> Vouched(w, hTree, g)
  {
    if gates != [] {
      var rest, g := gates[..|gates| - 1], gates[|gates| - 1];
      EveryGateVouched(w, hTree, rest);
      assert forall x :: x in gates <==> x in rest || x == g;
      GateVouched(w, hTree, g);
    }
  }
}

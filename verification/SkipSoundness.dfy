/** Why an allowed identity skip is right, and exactly when it is: the gates' verdicts on
    the merge are the verdicts their recorded runs had on the attested head. Every `clean`
    and `dirty` comes from `git diff HEAD`, which no untracked file shows in. */
module SkipSoundness {
  import opened Wrappers
  import opened Text
  import opened GateCommands
  import opened Identity

  /** A workspace: one number stands for its tracked files, the rest is untracked. */
  datatype Workspace = Workspace(tracked: nat, untracked: Tree)

  /** What a gate reads outside the checkout. */
  datatype Host = Host(rustc: nat, grammar: Workspace, cdoPath: string, cdo: Workspace, cdoApps: nat)

  /** A gate run on the files of a checkout, tracked or not, and on a host. */
  datatype Run = Run(name: string, argv: Command, files: Tree, host: Host)

  /** `env` describes what every gate reads of the host. A commit stands for the files it
      holds, so a clean workspace has its commit's files among its own; a dirty one has any. */
  predicate DescribesBuild(env: Env, host: Host) {
    && (env.rustc.Some? ==> env.rustc.value == host.rustc)
    && (!env.grammar.dirty ==> env.grammar.commit == Some(host.grammar.tracked))
  }

  /** It describes what `cdo-gate` reads besides. */
  predicate DescribesCdo(env: Env, host: Host) {
    env.cdo.Some? && env.cdo.value.path.Some? ==>
      && env.cdo.value.path.value == host.cdoPath
      && env.cdo.value.closure == Some(host.cdoApps)
      && (env.cdo.value.dirty == Some(false) ==> env.cdo.value.gitSha == Some(host.cdo.tracked))
  }

  predicate Describes(env: Env, host: Host) {
    DescribesBuild(env, host) && DescribesCdo(env, host)
  }

  /** A clean checkout of `tree` has these files: those of `tree` and perhaps others. */
  predicate HasTracked(files: Tree, tree: Tree) {
    forall path :: path in tree && !(GATE_IGNORED <= path) ==> Agree(tree, files, path)
  }

  /** No untracked file that the gate reads: what `git status` would tell a caller. */
  ghost predicate Bare(name: string, files: Tree, tree: Tree, host: Host) {
    && (forall path :: path in files && GateReads(path) ==> path in tree)
    && host.grammar.untracked == map[]
    && (name == CDO_GATE_KEY ==> host.cdo.untracked == map[])
  }

  /** The two runs read the same things: only `cdo-gate` reads the CDO workspace. */
  ghost predicate SameReads(a: Run, b: Run) {
    && a.name == b.name && SameScript(a.argv, b.argv) && SameToGates(a.files, b.files)
    && a.host.rustc == b.host.rustc && a.host.grammar == b.host.grammar
    && (a.name == CDO_GATE_KEY ==> a.host == b.host)
  }

  /** The runs that pass: a verdict depends only on what the run reads. */
  ghost predicate IsVerdict(passing: iset<Run>) {
    forall a, b :: SameReads(a, b) && a in passing ==> b in passing
  }

  /** `r` is what `record_gate_run` wrote of a run between two truthful probes: when nothing
      moved in between, the run read `files` and `host`, and exit code 0 is its verdict. */
  ghost predicate RanBetween(r: GateRecord, before: Probe, after: Probe, files: Tree, host: Host, passing: iset<Run>) {
    && r.exitCode.Some? && r.timedOut.Some?
    && r == RecordGateRun(r.name, r.argv, r.exitCode.value, r.timedOut.value, r.supervised, before, after)
    && (before.clean && before.tree.Some? ==> HasTracked(files, before.tree.value))
    && DescribesBuild(before.env, host)
    && (r.name == CDO_GATE_KEY ==> DescribesCdo(before.env, host))
    && (before == after && r.exitCode == Some(0) && r.timedOut == Some(false) ==>
          Run(r.name, r.argv, files, host) in passing)
  }

  /** `bare` says that somebody saw to it that the run had no untracked file to read. */
  ghost predicate Witnessed(r: GateRecord, bare: bool, passing: iset<Run>) {
    exists before, after, files, host ::
      && RanBetween(r, before, after, files, host, passing)
      && (bare && before.tree.Some? ==> Bare(r.name, files, before.tree.value, host))
  }

  ghost predicate RecordsWitnessed(w: Case, bare: bool, passing: iset<Run>) {
    forall g :: g in w.commands && Latest(w.log, g.name).Some? ==>
                  Witnessed(Latest(w.log, g.name).value, bare, passing)
  }

  /** The merge is checked out as `files` on a host that looks like `w.now`. */
  ghost predicate MergeIsOut(w: Case, bare: bool, files: Tree, host: Host)
    requires w.mergeSha in w.git
  {
    && HasTracked(files, w.git[w.mergeSha].tree) && Describes(w.now, host)
    && (bare ==> forall g :: g in w.commands ==> Bare(g.name, files, w.git[w.mergeSha].tree, host))
  }

  ghost predicate AllPass(w: Case, files: Tree, host: Host, passing: iset<Run>) {
    forall g :: g in w.commands ==> Run(g.name, g.argv, files, host) in passing
  }

  /** Whatever the verdict, if the records are truthful every gate passes on the merge. */
  ghost predicate SkipIsRight(w: Case, bareThen: bool, bareNow: bool)
    requires w.mergeSha in w.git
  {
    forall passing: iset<Run>, files, host ::
      IsVerdict(passing) && RecordsWitnessed(w, bareThen, passing) && MergeIsOut(w, bareNow, files, host) ==>
        AllPass(w, files, host, passing)
  }

  predicate NeedsCdo(w: Case) {
    exists g :: g in w.commands && g.name == CDO_GATE_KEY
  }

  predicate CdoClean(w: Case) {
    w.now.cdo.Some? && w.now.cdo.value.dirty == Some(false)
  }

  /** Main result. An allowed skip of any gate at all is right exactly when (1) no gate could
      read an untracked file, neither in its recorded run nor on the merge, and (2) `cdo-gate`
      is not among the gates or its workspace is clean. The check looks at no untracked file,
      and of a dirty CDO workspace it compares the flag and not the files. */
  lemma SkipRightExactlyWhenNothingIsHidden(w: Case, today: Host, bareThen: bool, bareNow: bool)
    requires MaySkip(w) && Describes(w.now, today)
    ensures SkipIsRight(w, bareThen, bareNow) <==>
              w.commands == [] || (bareThen && bareNow && (!NeedsCdo(w) || CdoClean(w)))
  {
    if w.commands == [] {
    } else if !bareThen || !bareNow {
      UntrackedFilesMislead(w, today, bareThen, bareNow);
    } else if NeedsCdo(w) && !CdoClean(w) {
      DirtyCdoMisleads(w, today);
    } else {
      RightWhenNothingIsHidden(w);
    }
  }

  lemma RightWhenNothingIsHidden(w: Case)
    requires MaySkip(w) && (!NeedsCdo(w) || CdoClean(w))
    ensures SkipIsRight(w, true, true)
  {
    forall passing: iset<Run>, files, host |
      IsVerdict(passing) && RecordsWitnessed(w, true, passing) && MergeIsOut(w, true, files, host)
      ensures AllPass(w, files, host, passing)
    {
      forall g | g in w.commands
        ensures Run(g.name, g.argv, files, host) in passing
      {
        PassesOnMerge(w, g, files, host, passing);
      }
    }
  }

  /** The merged tree, the frozen head's and `H`'s look the same to every gate. */
  lemma MergeLooksLikeH(w: Case)
    requires MaySkip(w)
    ensures SameToGates(w.git[w.attestation.value.h].tree, w.git[w.mergeSha].tree)
    ensures ParentOf(w.git, w.mergeSha) == Some(w.attestation.value.base)
  {
    FrozenLooksTheSame(w.git, w.attestation.value.h, w.attestation.value.finalHead, w.issue);
  }

  /** One gate, whatever the others: its recorded run and a run on the merge read the same. */
  lemma PassesOnMerge(w: Case, g: Gate, files: Tree, host: Host, passing: iset<Run>)
    requires MaySkip(w) && g in w.commands && (g.name == CDO_GATE_KEY ==> CdoClean(w))
    requires IsVerdict(passing) && RecordsWitnessed(w, true, passing)
    requires HasTracked(files, w.git[w.mergeSha].tree) && Describes(w.now, host)
    requires Bare(g.name, files, w.git[w.mergeSha].tree, host)
    ensures Run(g.name, g.argv, files, host) in passing
  {
    MergeLooksLikeH(w);
    var hTree := w.git[w.attestation.value.h].tree;
    assert Vouched(w, hTree, g);
    LatestVouches(w, hTree, g);
    var r := Latest(w.log, g.name).value;
    assert Witnessed(r, true, passing);
    var before, after, filesThen, hostThen :|
      && RanBetween(r, before, after, filesThen, hostThen, passing)
      && (before.tree.Some? ==> Bare(r.name, filesThen, before.tree.value, hostThen));
    assert before == after && before.tree == Some(hTree) && before.clean;
    BareIsTheTree(g.name, filesThen, hTree, hostThen);
    BareIsTheTree(g.name, files, w.git[w.mergeSha].tree, host);
    forall path | GateReads(path)
      ensures Agree(filesThen, files, path)
    {
      assert Agree(hTree, filesThen, path) && Agree(hTree, w.git[w.mergeSha].tree, path);
      assert Agree(w.git[w.mergeSha].tree, files, path);
    }
    assert SameReads(Run(r.name, r.argv, filesThen, hostThen), Run(g.name, g.argv, files, host));
  }

  lemma BareIsTheTree(name: string, files: Tree, tree: Tree, host: Host)
    requires HasTracked(files, tree) && Bare(name, files, tree, host)
    ensures SameToGates(tree, files)
  {
    forall path | GateReads(path)
      ensures Agree(tree, files, path)
    {
      if path in files {
        assert path in tree;
      }
    }
  }

  /** The latest record of a vouched gate is the one that vouches. */
  lemma LatestVouches(w: Case, hTree: Tree, g: Gate)
    requires Vouched(w, hTree, g)
    ensures var r := Latest(w.log, g.name); r.Some? && r.value.name == g.name && Vouches(w.now, hTree, g, r.value)
  {
    LatestIsTheLast(w.log, g.name);
  }

  // ---- verdicts that fit the records and fail on the merge -----------------

  /** `host` as the caller left it: no untracked file in either workspace. */
  function Swept(host: Host): Host {
    host.(grammar := host.grammar.(untracked := map[]), cdo := host.cdo.(untracked := map[]))
  }

  /** A path no listed file has and every gate reads. */
  lemma FreshPath(taken: set<Path>) returns (path: Path)
    ensures path !in taken && GateReads(path)
  {
    var n := LongerThanAll(taken);
    path := seq(n + 1, _ => 'x');
    assert path[0] == 'x' && Slashed(path)[0] == 'x';
    assert GATE_IGNORED[0] == '.' && GATE_INERT_EXACT[0] == 'C' && GATE_INERT_DIR[0] == 'd';
  }

  lemma {:induction false} LongerThanAll(taken: set<Path>) returns (n: nat)
    ensures forall path :: path in taken ==> |path| <= n
    decreases |taken|
  {
    if taken == {} {
      return 0;
    }
    var one :| one in taken;
    n := LongerThanAll(taken - {one});
    n := if |one| > n then |one| else n;
    assert taken == taken - {one} + {one};
  }

  lemma UntrackedFilesMislead(w: Case, today: Host, bareThen: bool, bareNow: bool)
    requires MaySkip(w) && Describes(w.now, today) && w.commands != [] && !(bareThen && bareNow)
    ensures !SkipIsRight(w, bareThen, bareNow)
  {
    var hTree, merge := w.git[w.attestation.value.h].tree, w.git[w.mergeSha].tree;
    var path := FreshPath(hTree.Keys + merge.Keys);
    if !bareThen {
      var passing := iset r: Run | path in r.files;
      RecordsFit(w, false, hTree[path := 0], Swept(today), passing);
      assert MergeIsOut(w, bareNow, merge, Swept(today));
      assert Run(w.commands[0].name, w.commands[0].argv, merge, Swept(today)) !in passing;
      assert !AllPass(w, merge, Swept(today), passing);
    } else {
      var passing := iset r: Run | path !in r.files;
      RecordsFit(w, bareThen, hTree, Swept(today), passing);
      var files := merge[path := 0];
      assert MergeIsOut(w, bareNow, files, Swept(today));
      assert Run(w.commands[0].name, w.commands[0].argv, files, Swept(today)) !in passing;
      assert !AllPass(w, files, Swept(today), passing);
    }
  }

  lemma DirtyCdoMisleads(w: Case, today: Host)
    requires MaySkip(w) && Describes(w.now, today) && NeedsCdo(w) && !CdoClean(w)
    ensures !SkipIsRight(w, true, true)
  {
    var host := Swept(today);
    var hTree, merge := w.git[w.attestation.value.h].tree, w.git[w.mergeSha].tree;
    var passing := iset r: Run | !(r.name == CDO_GATE_KEY && r.host == host);
    var g :| g in w.commands && g.name == CDO_GATE_KEY;
    assert Vouched(w, hTree, g);
    RecordsFit(w, true, hTree, host.(cdo := host.cdo.(tracked := host.cdo.tracked + 1)), passing);
    assert MergeIsOut(w, true, merge, host);
    assert Run(g.name, g.argv, merge, host) !in passing;
    assert !AllPass(w, merge, host, passing);
  }

  /** Records that vouch for their gates fit every verdict that passes those runs. */
  lemma RecordsFit(w: Case, bare: bool, files: Tree, host: Host, passing: iset<Run>)
    requires MaySkip(w) && DescribesBuild(w.now, host) && (NeedsCdo(w) ==> DescribesCdo(w.now, host))
    requires HasTracked(files, w.git[w.attestation.value.h].tree)
    requires bare ==> forall name :: Bare(name, files, w.git[w.attestation.value.h].tree, host)
    requires forall name, argv :: Run(name, argv, files, host) in passing
    ensures RecordsWitnessed(w, bare, passing)
  {
    var hTree := w.git[w.attestation.value.h].tree;
    forall g | g in w.commands && Latest(w.log, g.name).Some?
      ensures Witnessed(Latest(w.log, g.name).value, bare, passing)
    {
      assert Vouched(w, hTree, g);
      LatestVouches(w, hTree, g);
      var r := Latest(w.log, g.name).value;
      var probe := Probe(r.head, r.tree, true, r.env.value);
      assert RanBetween(r, probe, probe, files, host, passing);
    }
  }

  // ---- such a case --------------------------------------------------------

  const GATES := [Gate("cargo-test", ["bash", "ci.sh"]), Gate(CDO_GATE_KEY, ["bash", "cdo-gate.sh"])]

  const MERGED := Incidents.Record(7, Incidents.Verifying, None, false, "", false, None, [], None, None, "", 0)

  /** A small repository with nothing but green records, its CDO workspace dirty or not. */
  function Example(cdoDirty: bool): Case {
    var tree := map["src/main.rs" := 1];
    var env := Env(Some(0), Grammar(Some(0), false), Some(Cdo(Some("cdo"), Some(0), Some(cdoDirty), Some(0))));
    var gates := map["ci-steps-all" := 0, "check-goldens-coverage" := 0, "check-goldens" := 0, CDO_GATE_KEY := 0];
    Case(map[0 := Commit(map[], None), 1 := Commit(tree, Some(0)), 2 := Commit(tree, Some(0))], 7, 2, GATES, false,
         Some(MergeRecord(2, Merge)), Some(map[2 := MERGED]),
         Some(Attestation(7, 0, 1, 1, gates)),
         [Green(GATES[0], tree, env), Green(GATES[1], tree, env)], env)
  }

  function Green(g: Gate, tree: Tree, env: Env): GateRecord {
    GateRecord(g.name, g.argv, Some(0), Some(false), true, Some(1), Some(tree), true, true, Some(env))
  }

  lemma ExampleMaySkip(cdoDirty: bool)
    ensures MaySkip(Example(cdoDirty)) && NeedsCdo(Example(cdoDirty))
    ensures CdoClean(Example(cdoDirty)) <==> !cdoDirty
  {
    var w := Example(cdoDirty);
    var tree := w.git[1].tree;
    assert FreezeViolations(w.git, 1, 1, 7).value == {};
    assert Latest(w.log, GATES[1].name) == Some(w.log[1]);
    assert w.log[..1] == [w.log[0]] && Latest(w.log, GATES[0].name) == Some(w.log[0]);
    assert GATES[1] in w.commands;
    assert MergeChecksOut(w);
    assert Vouches(w.now, tree, GATES[0], w.log[0]) && Vouches(w.now, tree, GATES[1], w.log[1]);
  }

  /** The three ways to be wrong, on two inputs that the check lets through. */
  lemma AllowedSkipsThatAreWrong()
    ensures MaySkip(Example(true)) && !SkipIsRight(Example(true), true, true)
    ensures MaySkip(Example(false)) && SkipIsRight(Example(false), true, true)
    ensures !SkipIsRight(Example(false), false, true) && !SkipIsRight(Example(false), true, false)
  {
    var today := Host(0, Workspace(0, map[]), "cdo", Workspace(0, map[]), 0);
    ExampleMaySkip(true);
    ExampleMaySkip(false);
    SkipRightExactlyWhenNothingIsHidden(Example(true), today, true, true);
    SkipRightExactlyWhenNothingIsHidden(Example(false), today, true, true);
    SkipRightExactlyWhenNothingIsHidden(Example(false), today, false, true);
    SkipRightExactlyWhenNothingIsHidden(Example(false), today, true, false);
  }
}

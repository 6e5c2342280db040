/** What every interleaving counts: slots taken against the configuration, and
    the shared loop budget. */
module MergeAccounting {
  import opened Leases
  import opened MergeProtocol
  import opened MergeSafety

  // ---- slots --------------------------------------------------------------

  lemma {:induction false} NoMoreIssuesThanLeases(files: Files)
    ensures |LeasedIssues(files)| <= |files|
    decreases |files|
  {
    if files == map[] {
      assert LeasedIssues(files) == {};
    } else {
      var f :| f in files;
      var rest := files - {f};
      NoMoreIssuesThanLeases(rest);
      assert files == rest[f := files[f]];
      forall i | i in LeasedIssues(files)
        ensures i in LeasedIssues(rest) + {files[f].issue}
      {
        var g :| g in files && files[g].issue == i;
        assert g == f || g in rest;
      }
      SubsetIsNoLarger(LeasedIssues(files), LeasedIssues(rest) + {files[f].issue});
    }
  }

  lemma {:induction false} SubsetIsNoLarger<T>(a: set<T>, b: set<T>)
    requires a <= b
    ensures |a| <= |b|
    decreases |b|
  {
    if b != {} {
      var x :| x in b;
      SubsetIsNoLarger(a - {x}, b - {x});
    }
  }

  ghost predicate SlotsOk(cfg: Config, w: World) {
    w.counted <= LeasedIssues(w.reg.files) && |w.counted| <= cfg.slots
  }

  lemma StepKeepsSlots(cfg: Config, w: World, s: Step)
    requires w.history != [] && Enabled(cfg, w, s) && SlotsOk(cfg, w)
    ensures SlotsOk(cfg, Apply(w, s))
  {
    if s.By? {
      var files' := RegAfter(w, s.run, s.act).files;
      if s.act.DoClaim? && s.act.claim.countSlot {
        NoMoreIssuesThanLeases(w.reg.files);
        SubsetIsNoLarger(w.counted, LeasedIssues(w.reg.files));
        SubsetIsNoLarger(CountedAfter(w, s.act, files'), w.counted + {s.act.claim.issue});
      } else {
        SubsetIsNoLarger(CountedAfter(w, s.act, files'), w.counted);
      }
    }
  }

  /** What is counted: the issues claimed with a slot, each as long as it stays leased. */
  lemma CountedMeans(cfg: Config, w: World, s: Step, issue: int)
    requires w.history != [] && Enabled(cfg, w, s) && SlotsOk(cfg, w)
    ensures var w' := Apply(w, s);
            issue in w'.counted <==>
              && (exists f :: f in w'.reg.files && w'.reg.files[f].issue == issue)
              && (issue in w.counted ||
                  (s.By? && s.act.DoClaim? && s.act.claim.countSlot && s.act.claim.issue == issue))
  {
    assert forall files: Files :: issue in LeasedIssues(files) <==> exists f :: f in files && files[f].issue == issue;
  }

  // ---- the loop budget ----------------------------------------------------

  /** Without a reset the counter is what was charged and ticked minus what was given
      back; it never passes the largest budget, and every unit a claim may still give
      back has been charged. */
  ghost predicate LedgerOk(w: World) {
    var l := w.ledger;
    && (l.resets == 0 ==> w.reg.issuesDone + l.refunds == l.charged + l.ticks)
    && |l.owing| + l.refunds <= l.charged
    && w.reg.issuesDone <= Max(l.budget, 0)
    && (forall r :: PcOf(w, r) in {Claiming(true), RollingBack(true)} ==> r in l.owing)
  }

  lemma ActOnCounter(cfg: Config, w: World, r: RunId, act: Act)
    requires w.history != [] && CanAct(cfg, w, r, act)
    ensures var before, after := w.reg.issuesDone, RegAfter(w, r, act).issuesDone;
            match act
            case DoClaim(c, _) => after == before + (if c.loopMax.Some? then 1 else 0)
                                  && (c.loopMax.Some? ==> after <= c.loopMax.value)
            case RollbackRefund => if PcOf(w, r).charged then after + 1 == Max(before, 1) else after == before
            case _ => after == before
  {
  }

  /** Which runs are inside a charged claim. */
  lemma ActOnOwingPcs(w: World, r: RunId, act: Act, q: RunId)
    requires w.history != []
    requires PcOf(Do(w, r, act), q) in {Claiming(true), RollingBack(true)}
    ensures PcOf(w, q) in {Claiming(true), RollingBack(true)}
            || (q == r && act.DoClaim? && act.claim.loopMax.Some?)
    ensures q == r ==> !act.ClaimDone? && !act.RollbackRefund?
  {
  }

  lemma OwingAfter(w: World, r: RunId, act: Act)
    ensures var l, l' := w.ledger, LedgerAfter(w, r, act);
            && (act.DoClaim? && act.claim.loopMax.Some? ==> l'.owing == l.owing + {r} && |l'.owing| <= |l.owing| + 1)
            && (act.RollbackRefund? && PcOf(w, r) == RollingBack(true) && r in l.owing ==>
                  l'.owing == l.owing - {r} && |l'.owing| == |l.owing| - 1)
            && (l'.charged == l.charged && l'.refunds == l.refunds ==> |l'.owing| <= |l.owing|)
            && l.owing - {r} <= l'.owing
  {
    SubsetIsNoLarger(w.ledger.owing - {r}, w.ledger.owing);
  }

  lemma ActKeepsLedger(cfg: Config, w: World, r: RunId, act: Act)
    requires w.history != [] && CanAct(cfg, w, r, act) && LedgerOk(w)
    ensures LedgerOk(Do(w, r, act))
  {
    ActOnCounter(cfg, w, r, act);
    OwingAfter(w, r, act);
    var l' := LedgerAfter(w, r, act);
    forall q | PcOf(Do(w, r, act), q) in {Claiming(true), RollingBack(true)}
      ensures q in l'.owing
    {
      ActOnOwingPcs(w, r, act, q);
    }
    assert PcOf(w, r) in {Claiming(true), RollingBack(true)} ==> r in w.ledger.owing;
  }

  lemma {:induction false} RunsKeepAccounts(cfg: Config, w: World, steps: seq<Step>)
    requires SlotsOk(cfg, w) && LedgerOk(w) && Runs(cfg, w, steps)
    ensures SlotsOk(cfg, Final(cfg, w, steps)) && LedgerOk(Final(cfg, w, steps))
    decreases |steps|
  {
    if steps != [] {
      StepKeepsSlots(cfg, w, steps[0]);
      if steps[0].By? {
        ActKeepsLedger(cfg, w, steps[0].run, steps[0].act);
      }
      RunsKeepAccounts(cfg, Apply(w, steps[0]), steps[1..]);
    }
  }

  /** At most `slots` slot-counted leases, and a loop counter that is conserved. */
  lemma AccountsAlwaysBalance(cfg: Config, w: World, steps: seq<Step>)
    requires Initial(w) && Runs(cfg, w, steps)
    ensures var end := Final(cfg, w, steps);
            && end.counted <= LeasedIssues(end.reg.files) && |end.counted| <= cfg.slots
            && (end.ledger.resets == 0 ==>
                  end.reg.issuesDone == end.ledger.charged + end.ledger.ticks - end.ledger.refunds)
            && end.reg.issuesDone <= Max(end.ledger.budget, 0)
            && end.ledger.refunds <= end.ledger.charged
  {
    RunsKeepAccounts(cfg, w, steps);
  }
}

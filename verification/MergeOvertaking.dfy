/** When a second merge can land over a first that nothing has verified yet. */
module MergeOvertaking {
  import opened Wrappers
  import opened Leases
  import opened MergeProtocol
  import opened MergeSafety
  import opened MergeTheorems

  /** Every hold `q` has of the lane, it keeps. */
  ghost predicate KeepsHold(cfg: Config, w: World, steps: seq<Step>, q: RunId)
    requires Runs(cfg, w, steps)
    decreases |steps|
  {
    steps == [] ||
    ((LaneMine(w, q) ==> LaneMine(Apply(w, steps[0]), q)) && KeepsHold(cfg, Apply(w, steps[0]), steps[1..], q))
  }

  /** Beyond the first `n` landings, a run other than `q` landed over the unverified `sha`. */
  ghost predicate OtherLandsOver(w: World, n: nat, q: RunId, sha: Sha) {
    exists k :: n <= k < |w.landings| && w.landings[k].run != q && sha in w.landings[k].over
  }

  /** Only the run that holds the lane lands. */
  lemma OnlyTheHolderLands(cfg: Config, w: World, s: Step, q: RunId)
    requires Inv(w) && Enabled(cfg, w, s) && LaneMine(w, q)
    ensures w.landings <= Apply(w, s).landings
    ensures forall k :: |w.landings| <= k < |Apply(w, s).landings| ==> Apply(w, s).landings[k].run == q
  {
    if s.By? {
      assert LaneOk(w, s.run);
    }
  }

  /** No second merge lands while the first holds the lane. */
  lemma {:induction false} NoSecondMergeWhileHeld(cfg: Config, w: World, steps: seq<Step>, q: RunId)
    requires Inv(w) && Runs(cfg, w, steps) && NoLiveLaneFreed(cfg, w, steps)
    requires LaneMine(w, q) && KeepsHold(cfg, w, steps, q)
    ensures var end := Final(cfg, w, steps);
            && LaneMine(end, q)
            && w.landings <= end.landings
            && (forall k :: |w.landings| <= k < |end.landings| ==> end.landings[k].run == q)
    decreases |steps|
  {
    if steps != [] {
      OnlyTheHolderLands(cfg, w, steps[0], q);
      StepKeepsInv(cfg, w, steps[0]);
      NoSecondMergeWhileHeld(cfg, Apply(w, steps[0]), steps[1..], q);
    }
  }

  // ---- verified merges stay verified ----------------------------------------

  lemma StepLandings(cfg: Config, w: World, s: Step, sha: Sha)
    requires w.history != [] && Enabled(cfg, w, s) && sha in w.history
    ensures w.landings <= Apply(w, s).landings && sha in Apply(w, s).history
    ensures sha in Apply(w, s).unverified ==> sha in w.unverified
    ensures forall k :: |w.landings| <= k < |Apply(w, s).landings| ==> Apply(w, s).landings[k].over == w.unverified
  {
  }

  lemma {:induction false} VerifiedStaysVerified(cfg: Config, w: World, steps: seq<Step>, sha: Sha)
    requires Runs(cfg, w, steps) && sha in w.history && sha !in w.unverified
    ensures var end := Final(cfg, w, steps);
            && w.landings <= end.landings
            && (forall k :: |w.landings| <= k < |end.landings| ==> sha !in end.landings[k].over)
    decreases |steps|
  {
    if steps != [] {
      StepLandings(cfg, w, steps[0], sha);
      VerifiedStaysVerified(cfg, Apply(w, steps[0]), steps[1..], sha);
    }
  }

  /** Some step ended `q`'s hold while `sha` was unverified: any end but the one that follows
      the merge's own verification or revert. */
  ghost predicate HoldLostUnverified(cfg: Config, w: World, steps: seq<Step>, q: RunId, sha: Sha)
    requires Runs(cfg, w, steps)
    decreases |steps|
  {
    steps != [] &&
    ((sha in w.unverified && LaneMine(w, q) && EndsHold(w, steps[0], q)) ||
     HoldLostUnverified(cfg, Apply(w, steps[0]), steps[1..], q, sha))
  }

  /** A run lands over another's unverified merge only after the hold of the lane that merge
      landed under was lost while it was unverified. */
  lemma {:induction false} OvertakenOnlyAfterALostHold(cfg: Config, w: World, steps: seq<Step>, q: RunId, sha: Sha)
    requires Inv(w) && Runs(cfg, w, steps) && NoLiveLaneFreed(cfg, w, steps)
    requires LaneMine(w, q) && sha in w.history && OtherLandsOver(Final(cfg, w, steps), |w.landings|, q, sha)
    ensures HoldLostUnverified(cfg, w, steps, q, sha)
    decreases |steps|
  {
    assert steps != [];
    var w' := Apply(w, steps[0]);
    HoldGoesOn(cfg, w, steps[0], q);
    StepLandings(cfg, w, steps[0], sha);
    if sha !in w.unverified {
      VerifiedStaysVerified(cfg, w, steps, sha);
      assert false;
    }
    if !EndsHold(w, steps[0], q) {
      OnlyTheHolderLands(cfg, w, steps[0], q);
      StepKeepsInv(cfg, w, steps[0]);
      LandingsGrow(cfg, w', steps[1..]);
      assert OtherLandsOver(Final(cfg, w', steps[1..]), |w'.landings|, q, sha);
      OvertakenOnlyAfterALostHold(cfg, w', steps[1..], q, sha);
    }
  }

  lemma {:induction false} LandingsGrow(cfg: Config, w: World, steps: seq<Step>)
    requires Runs(cfg, w, steps)
    ensures w.landings <= Final(cfg, w, steps).landings
    decreases |steps|
  {
    if steps != [] {
      LandingsGrow(cfg, Apply(w, steps[0]), steps[1..]);
    }
  }

  // ---- and whenever the hold is lost, another can -----------------------------

  /** A way on in which no live lane is freed and `q` keeps what it holds. */
  ghost predicate Goes(cfg: Config, w: World, steps: seq<Step>, end: World, q: RunId) {
    && Runs(cfg, w, steps) && Final(cfg, w, steps) == end
    && NoLiveLaneFreed(cfg, w, steps) && KeepsHold(cfg, w, steps, q)
  }

  lemma GoesOn(cfg: Config, w: World, s: Step, w1: World, steps: seq<Step>, end: World, q: RunId)
    requires w.history != [] && Enabled(cfg, w, s) && w1 == Apply(w, s) && Goes(cfg, w1, steps, end, q)
    requires !FreesLiveLane(w, s) && !LaneMine(w, q)
    ensures Goes(cfg, w, [s] + steps, end, q)
  {
    assert ([s] + steps)[1..] == steps;
  }

  function FreshSha(history: seq<Sha>): (sha: Sha)
    ensures sha !in history && forall x :: x in history ==> x < sha
  {
    if history == [] then 0
    else
      var rest, last := FreshSha(history[..|history| - 1]), history[|history| - 1];
      assert forall x :: x in history ==> x in history[..|history| - 1] || x == last;
      if last < rest then rest else last + 1
  }

  /** What a merge of `t` on the present `master` leaves behind. */
  ghost predicate LandedAlone(w: World, end: World, t: RunId) {
    && w.history != [] && end.history != []
    && end.reg.files == w.reg.files && end.unverified >= w.unverified
    && |end.landings| == |w.landings| + 1 && w.landings <= end.landings
    && end.landings[|w.landings|] == Landing(t, Master(w), Master(w), false, w.unverified)
    && (forall x :: x != t ==> PcOf(end, x) == PcOf(w, x))
    && (forall x :: x != t ==> (x in end.strays <==> x in w.strays))
    && (forall sha :: sha in w.history ==> sha in end.history)
  }

  lemma LandFromTheLane(cfg: Config, w: World, t: RunId, issue: int, q: RunId) returns (steps: seq<Step>, end: World)
    requires w.history != [] && PcOf(w, t) == InLane(issue) && Fenced(w, t) && !LaneMine(w, q)
    requires t in w.atts && w.atts[t].base == Master(w)
    ensures Goes(cfg, w, steps, end, q) && LandedAlone(w, end, t)
  {
    var sha := FreshSha(w.history);
    var w1 := Do(w, t, RecheckPass);
    end := Do(w1, t, Land(sha, ShaKnown));
    assert Goes(cfg, end, [], end, q);
    GoesOn(cfg, w1, By(t, Land(sha, ShaKnown)), end, [], end, q);
    GoesOn(cfg, w, By(t, RecheckPass), w1, [By(t, Land(sha, ShaKnown))] + [], end, q);
    steps := [By(t, RecheckPass)] + ([By(t, Land(sha, ShaKnown))] + []);
  }

  /** Up to the lane, a merge of `t` changes nothing else that matters here. */
  ghost predicate OnTheWay(w: World, w': World, t: RunId) {
    && w'.reg.files == w.reg.files && w'.history == w.history && w'.landings == w.landings
    && w'.unverified == w.unverified && w'.strays == w.strays && w'.now == w.now
    && (forall x :: x != t ==> PcOf(w', x) == PcOf(w, x))
  }

  lemma TakesTheOpenLane(cfg: Config, w: World, t: RunId, f: LeaseFile, q: RunId) returns (steps: seq<Step>, end: World)
    requires w.history != [] && !w.halted && PcOf(w, t).Idle? && OwnFile(w.reg.files, t) == Some(f)
    requires Fenced(w, t) && t != q && LaneOpen(w.reg, w.now, t) && !LaneMine(w, q)
    requires t in w.atts && w.atts[t].base == Master(w)
    ensures Goes(cfg, w, steps, end, q) && LandedAlone(w, end, t)
  {
    var issue := w.reg.files[f].issue;
    var w1 := Do(w, t, MergeStart);
    var w2 := Do(w1, t, MergeTakeLane);
    assert w2.reg.lane.Some? && w2.reg.lane.value.runId == t && w2.reg.files == w.reg.files;
    assert !LaneMine(w2, q) && OnTheWay(w, w2, t);
    steps, end := LandFromTheLane(cfg, w2, t, issue, q);
    GoesOn(cfg, w1, By(t, MergeTakeLane), w2, steps, end, q);
    steps := [By(t, MergeTakeLane)] + steps;
    GoesOn(cfg, w, By(t, MergeStart), w1, steps, end, q);
    steps := [By(t, MergeStart)] + steps;
  }

  /** HALT lifted, `t`'s command over and `t` attested on `master`. */
  ghost function Ready(w: World, t: RunId, att: Attestation): World
    requires w.history != []
  {
    Do(Do(Apply(w, Halt(false)), t, Crash), t, Attest(att))
  }

  lemma ReadyIsOnTheWay(w: World, t: RunId, att: Attestation)
    requires w.history != []
    ensures var w' := Ready(w, t, att);
            && w'.reg == w.reg && !w'.halted && PcOf(w', t).Idle? && t in w'.atts && w'.atts[t] == att
            && OnTheWay(w, w', t)
  {
  }

  lemma GetsReady(cfg: Config, w: World, t: RunId, att: Attestation, rest: seq<Step>, end: World, q: RunId)
    requires w.history != [] && !LaneMine(w, q) && Goes(cfg, Ready(w, t, att), rest, end, q)
    ensures Goes(cfg, w, [Halt(false)] + ([By(t, Crash)] + ([By(t, Attest(att))] + rest)), end, q)
  {
    var w1 := Apply(w, Halt(false));
    var w2 := Do(w1, t, Crash);
    assert w1.reg == w.reg && w2.reg == w.reg;
    GoesOn(cfg, w2, By(t, Attest(att)), Ready(w, t, att), rest, end, q);
    GoesOn(cfg, w1, By(t, Crash), w2, [By(t, Attest(att))] + rest, end, q);
    GoesOn(cfg, w, Halt(false), w1, [By(t, Crash)] + ([By(t, Attest(att))] + rest), end, q);
  }

  /** A run with a lease, to which the lane is open, merges: HALT is lifted, whatever it was
      doing is over, it attests on `master` and goes through. */
  lemma OtherRunLands(cfg: Config, w: World, t: RunId, q: RunId) returns (steps: seq<Step>, end: World)
    requires LeasesOk(w) && w.history != [] && Fenced(w, t) && t != q && LaneOpen(w.reg, w.now, t) && !LaneMine(w, q)
    ensures Goes(cfg, w, steps, end, q) && LandedAlone(w, end, t)
  {
    var f :| f in w.reg.files && w.reg.files[f].runId == t;
    assert IsOwn(w.reg.files, t, f);
    OwnIsUnique(w.reg.files, t, f, OwnFile(w.reg.files, t).value);
    var att := Attestation(w.reg.files[f].issue, Master(w));
    ReadyIsOnTheWay(w, t, att);
    steps, end := TakesTheOpenLane(cfg, Ready(w, t, att), t, f, q);
    GetsReady(cfg, w, t, att, steps, end, q);
    steps := [Halt(false)] + ([By(t, Crash)] + ([By(t, Attest(att))] + steps));
  }

  /** From here another run can land over the unverified `sha` while `q` loses no hold. */
  ghost predicate CanBeOvertaken(cfg: Config, w: World, q: RunId, sha: Sha) {
    exists steps, end :: Goes(cfg, w, steps, end, q) && OtherLandsOver(end, |w.landings|, q, sha)
  }

  /** Main result: another run can land over an unverified merge exactly when `q` does not hold
      the lane. So the merge of a run is safe from being overtaken as long as, and no longer
      than, its hold lasts (`HoldGoesOn` lists the steps that end it). */
  lemma OvertakenExactlyWhenNotHeld(cfg: Config, w: World, q: RunId, sha: Sha, other: RunId)
    requires Inv(w) && sha in w.unverified && other != q && Fenced(w, other)
    ensures CanBeOvertaken(cfg, w, q, sha) <==> !LaneMine(w, q)
  {
    if LaneMine(w, q) {
      forall steps, end | Goes(cfg, w, steps, end, q)
        ensures !OtherLandsOver(end, |w.landings|, q, sha)
      {
        NoSecondMergeWhileHeld(cfg, w, steps, q);
      }
    } else {
      var t := if w.reg.lane.Some? && LaneMine(w, w.reg.lane.value.runId) then w.reg.lane.value.runId else other;
      assert Fenced(w, t) && LaneOpen(w.reg, w.now, t) by {
        if LaneMine(w, t) {
          var f := OwnerFile(w.reg.files, w.reg.lane.value.issue, t).value;
          assert w.reg.files[f].runId == t;
        }
      }
      var steps, end := OtherRunLands(cfg, w, t, q);
      assert end.landings[|w.landings|].run == t && sha in end.landings[|w.landings|].over;
      assert OtherLandsOver(end, |w.landings|, q, sha);
    }
  }
}

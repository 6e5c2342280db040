/** The trace summary's span accounting (scripts/trace_summary.py, `agg`): one stack of open
    spans per thread, inclusive and self time by span name. Times are exact reals. */
module TraceSummary {
  import opened Wrappers

  type Tid = int

  /** `Begin` and `End` are the trace's `B` and `E`; everything else is `Other`. */
  datatype Event = Begin(tid: Tid, name: string, ts: real) | End(tid: Tid, ts: real, peak: Option<real>) | Other

  /** An open span: the time its closed children took so far. */
  datatype Frame = Frame(name: string, start: real, kids: real)

  /** A closed span; `root` when no span was open beneath it. */
  datatype Span = Span(tid: Tid, name: string, dur: real, kids: real, root: bool, peak: Option<real>)

  type Stacks = map<Tid, seq<Frame>>

  function StackOf(stacks: Stacks, tid: Tid): seq<Frame> {
    if tid in stacks then stacks[tid] else []
  }

  /** The span the event closes, if any: an `End` with no open span is ignored. */
  function Closes(stacks: Stacks, e: Event): seq<Span> {
    if !e.End? || StackOf(stacks, e.tid) == [] then []
    else
      var stack := StackOf(stacks, e.tid);
      var top := stack[|stack| - 1];
      [Span(e.tid, top.name, e.ts - top.start, top.kids, |stack| == 1, e.peak)]
  }

  /** Pop the top span; its duration is child time of the one beneath. */
  function Popped(stack: seq<Frame>, ts: real): seq<Frame>
    requires stack != []
  {
    var top, n := stack[|stack| - 1], |stack| - 1;
    if n == 0 then [] else stack[..n - 1] + [stack[n - 1].(kids := stack[n - 1].kids + (ts - top.start))]
  }

  function StackAfter(stack: seq<Frame>, e: Event): seq<Frame> {
    match e
    case Begin(_, name, ts) => stack + [Frame(name, ts, 0.0)]
    case End(_, ts, _) => if stack == [] then [] else Popped(stack, ts)
    case Other => stack
  }

  function StacksAfter(stacks: Stacks, e: Event): Stacks {
    if e.Other? then stacks else stacks[e.tid := StackAfter(StackOf(stacks, e.tid), e)]
  }

  function StacksOf(events: seq<Event>): Stacks {
    if events == [] then map[] else StacksAfter(StacksOf(events[..|events| - 1]), events[|events| - 1])
  }

  /** The spans the trace closes, in closing order. */
  function Spans(events: seq<Event>): seq<Span> {
    if events == [] then []
    else Spans(events[..|events| - 1]) + Closes(StacksOf(events[..|events| - 1]), events[|events| - 1])
  }

  lemma EventAdds(events: seq<Event>, e: Event)
    ensures StacksOf(events + [e]) == StacksAfter(StacksOf(events), e)
    ensures Spans(events + [e]) == Spans(events) + Closes(StacksOf(events), e)
  {
    assert (events + [e])[..|events|] == events;
  }

  // ---- the sums the report prints -----------------------------------------------------

  function Inclusive(spans: seq<Span>, name: string): real {
    if spans == [] then 0.0
    else
      var last := spans[|spans| - 1];
      Inclusive(spans[..|spans| - 1], name) + if last.name == name then last.dur / 1000.0 else 0.0
  }

  function Self(spans: seq<Span>, name: string): real {
    if spans == [] then 0.0
    else
      var last := spans[|spans| - 1];
      Self(spans[..|spans| - 1], name) + if last.name == name then (last.dur - last.kids) / 1000.0 else 0.0
  }

  function Count(spans: seq<Span>, name: string): nat {
    if spans == [] then 0 else Count(spans[..|spans| - 1], name) + if spans[|spans| - 1].name == name then 1 else 0
  }

  /** The largest positive peak of a closed span, or 0. */
  function Peak(spans: seq<Span>): real {
    if spans == [] then 0.0
    else
      var rest, last := Peak(spans[..|spans| - 1]), spans[|spans| - 1];
      if last.peak.Some? && last.peak.value > rest then last.peak.value else rest
  }

  function Get(m: map<string, real>, name: string): real {
    if name in m then m[name] else 0.0
  }

  lemma SumsGrow(spans: seq<Span>, x: Span)
    ensures forall name :: Inclusive(spans + [x], name) ==
                             Inclusive(spans, name) + if x.name == name then x.dur / 1000.0 else 0.0
    ensures forall name ::
              Self(spans + [x], name) == Self(spans, name) + if x.name == name then (x.dur - x.kids) / 1000.0 else 0.0
    ensures forall name :: Count(spans + [x], name) == Count(spans, name) + if x.name == name then 1 else 0
    ensures TotalSelf(spans + [x]) == TotalSelf(spans) + (x.dur - x.kids) / 1000.0
    ensures Peak(spans + [x]) == if x.peak.Some? && x.peak.value > Peak(spans) then x.peak.value else Peak(spans)
  {
    assert (spans + [x])[..|spans|] == spans;
  }

  /** The report's four columns say what the closed spans sum to. */
  ghost predicate Reports(inclusive: map<string, real>, self: map<string, real>, count: map<string, nat>, peak: real,
                          spans: seq<Span>)
  {
    && (forall name :: Get(inclusive, name) == Inclusive(spans, name))
    && (forall name :: Get(self, name) == Self(spans, name))
    && (forall name :: (if name in count then count[name] else 0) == Count(spans, name))
    && peak == Peak(spans)
    && Total(self) == TotalSelf(spans)
  }

  lemma ReportGrows(inclusive: map<string, real>, self: map<string, real>, count: map<string, nat>, peak: real,
                    spans: seq<Span>, x: Span)
    requires Reports(inclusive, self, count, peak, spans)
    ensures Reports(inclusive[x.name := Get(inclusive, x.name) + x.dur / 1000.0],
                    self[x.name := Get(self, x.name) + (x.dur - x.kids) / 1000.0],
                    count[x.name := (if x.name in count then count[x.name] else 0) + 1],
                    if x.peak.Some? && x.peak.value > peak then x.peak.value else peak, spans + [x])
  {
    SumsGrow(spans, x);
    TotalUpdate(self, x.name, Get(self, x.name) + (x.dur - x.kids) / 1000.0);
  }

  /** The top span goes; the span beneath gets its duration as child time. */
  method Pop(stack: seq<Frame>, dur: real) returns (rest: seq<Frame>)
    requires stack != []
    ensures forall ts :: ts - stack[|stack| - 1].start == dur ==> rest == Popped(stack, ts)
  {
    rest := stack[..|stack| - 1];
    if rest != [] {
      var m := |rest| - 1;
      rest := rest[m := rest[m].(kids := rest[m].kids + dur)];
    }
  }

  method Account(inclusive: map<string, real>, self: map<string, real>, count: map<string, nat>, peak: real,
                 top: Frame, dur: real, pm: Option<real>, ghost spans: seq<Span>, ghost x: Span)
    returns (inclusive1: map<string, real>, self1: map<string, real>, count1: map<string, nat>, peak1: real)
    requires Reports(inclusive, self, count, peak, spans)
    requires x.name == top.name && x.dur == dur && x.kids == top.kids && x.peak == pm
    ensures Reports(inclusive1, self1, count1, peak1, spans + [x])
  {
    ReportGrows(inclusive, self, count, peak, spans, x);
    inclusive1 := inclusive[top.name := Get(inclusive, top.name) + dur / 1000.0];
    self1 := self[top.name := Get(self, top.name) + (dur - top.kids) / 1000.0];
    count1 := count[top.name := (if top.name in count then count[top.name] else 0) + 1];
    peak1 := if pm.Some? && pm.value > peak then pm.value else peak;
  }

  /** One event of `agg`'s loop. */
  method Feed(stack: Stacks, inclusive: map<string, real>, self: map<string, real>, count: map<string, nat>, peak: real,
              e: Event, ghost spans: seq<Span>)
    returns (stack1: Stacks, inclusive1: map<string, real>, self1: map<string, real>, count1: map<string, nat>,
             peak1: real)
    requires Reports(inclusive, self, count, peak, spans)
    ensures stack1 == StacksAfter(stack, e)
    ensures Reports(inclusive1, self1, count1, peak1, spans + Closes(stack, e))
  {
    stack1, inclusive1, self1, count1, peak1 := stack, inclusive, self, count, peak;
    if Closes(stack, e) == [] {
      assert spans + Closes(stack, e) == spans;
    }
    match e {
      case Begin(tid, name, ts) =>
        stack1 := stack[tid := StackOf(stack, tid) + [Frame(name, ts, 0.0)]];
      case End(tid, ts, pm) =>
        var mine := StackOf(stack, tid);
        if mine == [] {
          stack1 := stack[tid := []];
        } else {
          var top := mine[|mine| - 1];
          ghost var x := Span(tid, top.name, ts - top.start, top.kids, |mine| == 1, pm);
          assert Closes(stack, e) == [x];
          inclusive1, self1, count1, peak1 := Account(inclusive, self, count, peak, top, ts - top.start, pm, spans, x);
          var rest := Pop(mine, ts - top.start);
          stack1 := stack[tid := rest];
        }
      case Other =>
    }
  }

  method Agg(events: seq<Event>)
    returns (inclusive: map<string, real>, self: map<string, real>, count: map<string, nat>, peak: real)
    ensures Reports(inclusive, self, count, peak, Spans(events))
  {
    var stack: Stacks := map[];
    inclusive, self, count, peak := map[], map[], map[], 0.0;
    ghost var spans: seq<Span> := [];
    for n := 0 to |events|
      invariant stack == StacksOf(events[..n]) && spans == Spans(events[..n])
      invariant Reports(inclusive, self, count, peak, spans)
    {
      assert events[..n + 1] == events[..n] + [events[n]];
      EventAdds(events[..n], events[n]);
      ghost var closed := Closes(stack, events[n]);
      stack, inclusive, self, count, peak := Feed(stack, inclusive, self, count, peak, events[n], spans);
      spans := spans + closed;
    }
    assert events[..|events|] == events;
  }

  // ---- sums over maps -------------------------------------------------------------------

  ghost function Total<K(!new)>(m: map<K, real>): real
    decreases m.Keys
  {
    if m.Keys == {} then 0.0
    else
      var k :| k in m.Keys;
      m[k] + Total(m - {k})
  }

  lemma {:induction false} TotalWithout<K(!new)>(m: map<K, real>, k: K)
    requires k in m
    ensures Total(m) == m[k] + Total(m - {k})
    decreases m.Keys
  {
    var j :| j in m.Keys && Total(m) == m[j] + Total(m - {j});
    if j != k {
      TotalWithout(m - {j}, k);
      TotalWithout(m - {k}, j);
      assert m - {j} - {k} == m - {k} - {j};
    }
  }

  lemma {:induction false} TotalUpdate<K(!new)>(m: map<K, real>, k: K, v: real)
    ensures Total(m[k := v]) == Total(m) - (if k in m then m[k] else 0.0) + v
  {
    TotalWithout(m[k := v], k);
    assert m[k := v] - {k} == m - {k};
    if k in m {
      TotalWithout(m, k);
    } else {
      assert m - {k} == m;
    }
  }

  function TotalSelf(spans: seq<Span>): real {
    if spans == [] then 0.0
    else
      var last := spans[|spans| - 1];
      TotalSelf(spans[..|spans| - 1]) + (last.dur - last.kids) / 1000.0
  }

  // ---- conservation ------------------------------------------------------------------------

  /** The durations, in milliseconds, of the spans closed with nothing open beneath. */
  function RootTime(spans: seq<Span>): real {
    if spans == [] then 0.0
    else
      var last := spans[|spans| - 1];
      RootTime(spans[..|spans| - 1]) + if last.root then last.dur / 1000.0 else 0.0
  }

  function KidTime(stack: seq<Frame>): real {
    if stack == [] then 0.0 else KidTime(stack[..|stack| - 1]) + stack[|stack| - 1].kids
  }

  /** Child time each thread's open spans hold. */
  function Held(stacks: Stacks): map<Tid, real> {
    map tid | tid in stacks :: KidTime(stacks[tid])
  }

  lemma KidTimeSnoc(stack: seq<Frame>, f: Frame)
    ensures KidTime(stack + [f]) == KidTime(stack) + f.kids
  {
    assert (stack + [f])[..|stack|] == stack;
  }

  lemma KidTimePassed(below: seq<Frame>, p: Frame, top: Frame, dur: real)
    ensures KidTime(below + [p.(kids := p.kids + dur)]) == KidTime(below + [p] + [top]) - top.kids + dur
  {
    KidTimeSnoc(below, p);
    KidTimeSnoc(below + [p], top);
    KidTimeSnoc(below, p.(kids := p.kids + dur));
  }

  lemma KidTimeOfOne(f: Frame)
    ensures KidTime([f]) == f.kids
  {
    assert [f] == [] + [f];
    KidTimeSnoc([], f);
  }

  lemma PoppedMany(below: seq<Frame>, p: Frame, top: Frame, ts: real)
    ensures Popped(below + [p] + [top], ts) == below + [p.(kids := p.kids + (ts - top.start))]
  {
    var stack := below + [p] + [top];
    assert stack[..|stack| - 2] == below;
  }

  /** What a pop adds to the stack's child time. */
  function PopGain(stack: seq<Frame>, ts: real): real
    requires stack != []
  {
    var top := stack[|stack| - 1];
    if |stack| == 1 then -top.kids else (ts - top.start) - top.kids
  }

  lemma KidTimePopped(stack: seq<Frame>, ts: real)
    requires stack != []
    ensures KidTime(Popped(stack, ts)) == KidTime(stack) + PopGain(stack, ts)
  {
    var top := stack[|stack| - 1];
    if |stack| == 1 {
      assert stack == [top];
      KidTimeOfOne(top);
    } else {
      var below, p := stack[..|stack| - 2], stack[|stack| - 2];
      assert stack == below + [p] + [top];
      PoppedMany(below, p, top, ts);
      KidTimePassed(below, p, top, ts - top.start);
    }
  }

  lemma HeldUpdate(stacks: Stacks, tid: Tid, stack: seq<Frame>)
    ensures Total(Held(stacks[tid := stack])) == Total(Held(stacks)) - KidTime(StackOf(stacks, tid)) + KidTime(stack)
  {
    assert Held(stacks[tid := stack]) == Held(stacks)[tid := KidTime(stack)];
    TotalUpdate(Held(stacks), tid, KidTime(stack));
  }

  /** One event moves as much time between the three sums as it adds. */
  lemma EventConserves(stacks: Stacks, spans: seq<Span>, e: Event)
    ensures TotalSelf(spans + Closes(stacks, e)) - TotalSelf(spans) ==
              RootTime(spans + Closes(stacks, e)) - RootTime(spans)
              + (Total(Held(StacksAfter(stacks, e))) - Total(Held(stacks))) / 1000.0
  {
    if Closes(stacks, e) == [] {
      assert spans + Closes(stacks, e) == spans;
    }
    if !e.Other? {
      var stack := StackOf(stacks, e.tid);
      HeldUpdate(stacks, e.tid, StackAfter(stack, e));
      if e.Begin? {
        KidTimeSnoc(stack, Frame(e.name, e.ts, 0.0));
      } else if stack != [] {
        KidTimePopped(stack, e.ts);
        var x := Closes(stacks, e)[0];
        SumsGrow(spans, x);
        assert (spans + [x])[..|spans|] == spans;
      }
    }
  }

  /** Main result: whatever the trace (truncated, interleaved across threads, clocks running
      backwards), the self times add up to the durations of the spans closed with an empty
      stack beneath plus the child time still held in open spans. */
  lemma {:induction false} SelfTimeIsConserved(events: seq<Event>)
    ensures TotalSelf(Spans(events)) == RootTime(Spans(events)) + Total(Held(StacksOf(events))) / 1000.0
  {
    if events == [] {
      assert Held(map[]) == map[];
    } else {
      var before, e := events[..|events| - 1], events[|events| - 1];
      SelfTimeIsConserved(before);
      EventConserves(StacksOf(before), Spans(before), e);
    }
  }

  // ---- self time is not negative ---------------------------------------------------------------

  /** Per thread, timestamps do not decrease. */
  predicate Ordered(events: seq<Event>) {
    forall i, j :: 0 <= i < j < |events| ==> InOrder(events[i], events[j])
  }

  predicate InOrder(a: Event, b: Event) {
    !a.Other? && !b.Other? && a.tid == b.tid ==> a.ts <= b.ts
  }

  /** Each open span's children fit between its start and what comes next on the thread. */
  predicate Fits(stack: seq<Frame>, now: real) {
    forall k :: 0 <= k < |stack| ==> stack[k].start + stack[k].kids <= Limit(stack, k, now)
  }

  /** The time by which frame `k`'s children must be over. */
  function Limit(stack: seq<Frame>, k: nat, now: real): real {
    if k + 1 < |stack| then stack[k + 1].start else now
  }

  lemma FitsAfter(stack: seq<Frame>, e: Event, now: real)
    requires !e.Other? && Fits(stack, e.ts) && e.ts <= now
    ensures Fits(StackAfter(stack, e), now)
  {
    var after := StackAfter(stack, e);
    forall k | 0 <= k < |after|
      ensures after[k].start + after[k].kids <= Limit(after, k, now)
    {
      if k < |stack| {
        assert stack[k].start + stack[k].kids <= Limit(stack, k, e.ts);
      }
      if e.End? {
        assert |after| == |stack| - 1;
        assert stack[k + 1].start + stack[k + 1].kids <= Limit(stack, k + 1, e.ts);
      }
    }
  }

  lemma {:induction false} StacksFit(events: seq<Event>, tid: Tid, now: real)
    requires Ordered(events) && forall e :: e in events && !e.Other? && e.tid == tid ==> e.ts <= now
    ensures Fits(StackOf(StacksOf(events), tid), now)
  {
    if events != [] {
      var before, e := events[..|events| - 1], events[|events| - 1];
      assert forall i, j :: 0 <= i < j < |before| ==> InOrder(events[i], events[j]);
      if e.Other? || e.tid != tid {
        StacksFit(before, tid, now);
      } else {
        forall x | x in before && !x.Other? && x.tid == tid
          ensures x.ts <= e.ts
        {
          var i :| 0 <= i < |before| && before[i] == x;
          assert InOrder(events[i], events[|events| - 1]);
        }
        StacksFit(before, tid, e.ts);
        assert e in events;
        FitsAfter(StackOf(StacksOf(before), tid), e, now);
      }
    }
  }

  /** With per-thread timestamps in order, no span's self time is negative, so no name's is. */
  lemma {:induction false} SelfTimeNotNegative(events: seq<Event>)
    requires Ordered(events)
    ensures forall x :: x in Spans(events) ==> x.dur - x.kids >= 0.0
    ensures forall name :: Self(Spans(events), name) >= 0.0
  {
    if events != [] {
      var before, e := events[..|events| - 1], events[|events| - 1];
      assert forall i, j :: 0 <= i < j < |before| ==> InOrder(events[i], events[j]);
      SelfTimeNotNegative(before);
      var stacks, spans := StacksOf(before), Spans(before);
      assert spans + [] == spans;
      if Closes(stacks, e) != [] {
        forall x | x in before && !x.Other? && x.tid == e.tid
          ensures x.ts <= e.ts
        {
          var i :| 0 <= i < |before| && before[i] == x;
          assert InOrder(events[i], events[|events| - 1]);
        }
        StacksFit(before, e.tid, e.ts);
        var y, stack := Closes(stacks, e)[0], StackOf(stacks, e.tid);
        assert stack[|stack| - 1].start + stack[|stack| - 1].kids <= Limit(stack, |stack| - 1, e.ts);
        assert y.dur - y.kids >= 0.0;
        assert Spans(events) == spans + [y];
        SumsGrow(spans, y);
      }
    }
  }

  // ---- threads do not mix -----------------------------------------------------------------------

  predicate On(e: Event, tid: Tid) {
    !e.Other? && e.tid == tid
  }

  function EventsOf(events: seq<Event>, tid: Tid): seq<Event> {
    if events == [] then []
    else if On(events[|events| - 1], tid) then EventsOf(events[..|events| - 1], tid) + [events[|events| - 1]]
    else EventsOf(events[..|events| - 1], tid)
  }

  function SpansOf(spans: seq<Span>, tid: Tid): seq<Span> {
    if spans == [] then []
    else if spans[|spans| - 1].tid == tid then SpansOf(spans[..|spans| - 1], tid) + [spans[|spans| - 1]]
    else SpansOf(spans[..|spans| - 1], tid)
  }

  lemma {:induction false} ThreadStack(events: seq<Event>, tid: Tid)
    ensures StackOf(StacksOf(events), tid) == StackOf(StacksOf(EventsOf(events, tid)), tid)
  {
    if events != [] {
      var before, e := events[..|events| - 1], events[|events| - 1];
      ThreadStack(before, tid);
      if On(e, tid) {
        EventAdds(EventsOf(before, tid), e);
      }
    }
  }

  /** However the threads' events interleave, a thread closes the spans its own events close
      alone. */
  lemma {:induction false} ThreadsDoNotMix(events: seq<Event>, tid: Tid)
    ensures SpansOf(Spans(events), tid) == Spans(EventsOf(events, tid))
  {
    if events != [] {
      var before, e := events[..|events| - 1], events[|events| - 1];
      ThreadsDoNotMix(before, tid);
      ThreadStack(before, tid);
      OneMoreEvent(events, before, e, tid);
    }
  }

  lemma OneMoreEvent(events: seq<Event>, before: seq<Event>, e: Event, tid: Tid)
    requires events == before + [e]
    requires SpansOf(Spans(before), tid) == Spans(EventsOf(before, tid))
    requires StackOf(StacksOf(before), tid) == StackOf(StacksOf(EventsOf(before, tid)), tid)
    ensures SpansOf(Spans(events), tid) == Spans(EventsOf(events, tid))
  {
    EventAdds(before, e);
    EventsOfGrows(before, e, tid);
    EventAdds(EventsOf(before, tid), e);
    SpansOfGrows(Spans(before), Closes(StacksOf(before), e), tid);
    SameCloses(StacksOf(before), StacksOf(EventsOf(before, tid)), e, tid);
  }

  /** What an event closes depends on its own thread's stack. */
  lemma SameCloses(a: Stacks, b: Stacks, e: Event, tid: Tid)
    requires StackOf(a, tid) == StackOf(b, tid)
    ensures On(e, tid) ==> Closes(a, e) == Closes(b, e) && (Closes(a, e) != [] ==> Closes(a, e)[0].tid == tid)
    ensures !On(e, tid) && Closes(a, e) != [] ==> Closes(a, e)[0].tid != tid
  {
  }

  lemma EventsOfGrows(before: seq<Event>, e: Event, tid: Tid)
    ensures EventsOf(before + [e], tid) == if On(e, tid) then EventsOf(before, tid) + [e] else EventsOf(before, tid)
  {
    assert (before + [e])[..|before|] == before;
  }

  lemma SpansOfGrows(spans: seq<Span>, closed: seq<Span>, tid: Tid)
    requires |closed| <= 1
    ensures SpansOf(spans + closed, tid) ==
              if closed != [] && closed[0].tid == tid then SpansOf(spans, tid) + closed else SpansOf(spans, tid)
  {
    if closed == [] {
      assert spans + closed == spans;
    } else {
      assert closed == [closed[0]] && (spans + closed)[..|spans|] == spans;
    }
  }
}

/** What the trace summary says of a trace that was recorded whole: its call tree. */
module TraceTrees {
  import opened Wrappers
  import opened TraceSummary

  /** A call of a span and the calls made within it, in order. */
  datatype Call = Call(name: string, start: real, stop: real, peak: Option<real>, calls: seq<Call>)

  /** The events a thread leaves when it makes the calls one after another. */
  function Recorded(tid: Tid, calls: seq<Call>): seq<Event> {
    if calls == [] then []
    else
      var last := calls[|calls| - 1];
      Recorded(tid, calls[..|calls| - 1]) +
      ([Begin(tid, last.name, last.start)] + Recorded(tid, last.calls) + [End(tid, last.stop, last.peak)])
  }

  /** The time the calls took. */
  function Spent(calls: seq<Call>): real {
    if calls == [] then 0.0
    else Spent(calls[..|calls| - 1]) + (calls[|calls| - 1].stop - calls[|calls| - 1].start)
  }

  /** One span for each call, inner calls first: its name, its duration, the time its own calls
      took, and its peak. */
  function SpansOfCalls(tid: Tid, calls: seq<Call>, root: bool): seq<Span> {
    if calls == [] then []
    else
      var last := calls[|calls| - 1];
      SpansOfCalls(tid, calls[..|calls| - 1], root) +
      (SpansOfCalls(tid, last.calls, false) +
       [Span(tid, last.name, last.stop - last.start, Spent(last.calls), root, last.peak)])
  }

  /** The stack with the time booked to the span on top. */
  function Booked(stack: seq<Frame>, time: real): seq<Frame> {
    if stack == [] then []
    else
      var top := stack[|stack| - 1];
      stack[..|stack| - 1] + [top.(kids := top.kids + time)]
  }

  lemma BookedTwice(stack: seq<Frame>, a: real, b: real)
    ensures Booked(Booked(stack, a), b) == Booked(stack, a + b)
  {
  }

  /** The trace so far is followed by these events: what they close and leave open. */
  ghost predicate Yields(before: seq<Event>, more: seq<Event>, tid: Tid, spans: seq<Span>, stack: seq<Frame>) {
    && Spans(before + more) == Spans(before) + spans
    && StackOf(StacksOf(before + more), tid) == stack
  }

  lemma Regrouped<T>(a: seq<T>, b: seq<T>, c: seq<T>)
    ensures a + (b + c) == a + b + c
  {
  }

  lemma {:induction false} Chain(before: seq<Event>, a: seq<Event>, b: seq<Event>, tid: Tid, first: seq<Span>,
                                 mid: seq<Frame>, second: seq<Span>, end: seq<Frame>)
    requires Yields(before, a, tid, first, mid) && Yields(before + a, b, tid, second, end)
    ensures Yields(before, a + b, tid, first + second, end)
  {
    Regrouped(before, a, b);
    Regrouped(Spans(before), first, second);
  }

  lemma {:induction false} BeginYields(before: seq<Event>, tid: Tid, name: string, ts: real)
    ensures Yields(before, [Begin(tid, name, ts)], tid, [], StackOf(StacksOf(before), tid) + [Frame(name, ts, 0.0)])
  {
    EventAdds(before, Begin(tid, name, ts));
  }

  lemma PoppedBooks(below: seq<Frame>, top: Frame, ts: real)
    ensures Popped(below + [top], ts) == Booked(below, ts - top.start)
  {
    var stack := below + [top];
    assert below != [] ==> stack[..|stack| - 2] == below[..|below| - 1];
  }

  lemma {:induction false} EndYields(before: seq<Event>, tid: Tid, ts: real, peak: Option<real>,
                                     below: seq<Frame>, top: Frame)
    requires StackOf(StacksOf(before), tid) == below + [top]
    ensures Yields(before, [End(tid, ts, peak)], tid,
                   [Span(tid, top.name, ts - top.start, top.kids, below == [], peak)], Booked(below, ts - top.start))
  {
    EventAdds(before, End(tid, ts, peak));
    PoppedBooks(below, top, ts);
  }

  function RecordedCall(tid: Tid, c: Call): seq<Event> {
    [Begin(tid, c.name, c.start)] + Recorded(tid, c.calls) + [End(tid, c.stop, c.peak)]
  }

  function SpansOfCall(tid: Tid, c: Call, root: bool): seq<Span> {
    SpansOfCalls(tid, c.calls, false) + [Span(tid, c.name, c.stop - c.start, Spent(c.calls), root, c.peak)]
  }

  lemma {:induction false} OneCallYields(before: seq<Event>, tid: Tid, c: Call)
    ensures var stack := StackOf(StacksOf(before), tid);
            Yields(before, RecordedCall(tid, c), tid, SpansOfCall(tid, c, stack == []), Booked(stack, c.stop - c.start))
    decreases c
  {
    var stack := StackOf(StacksOf(before), tid);
    var first, last := [Begin(tid, c.name, c.start)], [End(tid, c.stop, c.peak)];
    var inner, root := Recorded(tid, c.calls), stack == [];
    var bare, whole := stack + [Frame(c.name, c.start, 0.0)], stack + [Frame(c.name, c.start, Spent(c.calls))];
    BeginYields(before, tid, c.name, c.start);
    CallsYield(before + first, tid, c.calls);
    assert Booked(bare, Spent(c.calls)) == whole;
    Chain(before, first, inner, tid, [], bare, SpansOfCalls(tid, c.calls, false), whole);
    EndYields(before + (first + inner), tid, c.stop, c.peak, stack, whole[|stack|]);
    Chain(before, first + inner, last, tid, [] + SpansOfCalls(tid, c.calls, false), whole,
          [Span(tid, c.name, c.stop - c.start, Spent(c.calls), root, c.peak)], Booked(stack, c.stop - c.start));
    assert [] + SpansOfCalls(tid, c.calls, false) == SpansOfCalls(tid, c.calls, false);
  }

  lemma {:induction false} Grown(tid: Tid, calls: seq<Call>, stack: seq<Frame>)
    requires calls != []
    ensures var (rest, c) := (calls[..|calls| - 1], calls[|calls| - 1]);
            && Recorded(tid, calls) == Recorded(tid, rest) + RecordedCall(tid, c)
            && (forall root :: SpansOfCalls(tid, calls, root) ==
                                 SpansOfCalls(tid, rest, root) + SpansOfCall(tid, c, root))
            && Booked(stack, Spent(calls)) == Booked(Booked(stack, Spent(rest)), c.stop - c.start)
            && (Booked(stack, Spent(rest)) == [] <==> stack == [])
  {
    var (rest, c) := (calls[..|calls| - 1], calls[|calls| - 1]);
    BookedTwice(stack, Spent(rest), c.stop - c.start);
  }

  lemma {:induction false} CallsYield(before: seq<Event>, tid: Tid, calls: seq<Call>)
    ensures var stack := StackOf(StacksOf(before), tid);
            Yields(before, Recorded(tid, calls), tid, SpansOfCalls(tid, calls, stack == []),
                   Booked(stack, Spent(calls)))
    decreases calls
  {
    var stack := StackOf(StacksOf(before), tid);
    if calls == [] {
      assert before + [] == before && Spans(before) + [] == Spans(before);
      assert Booked(stack, 0.0) == stack;
    } else {
      var n := |calls| - 1;
      var (rest, c) := (calls[..n], calls[n]);
      var mid := Booked(stack, Spent(rest));
      CallsYield(before, tid, rest);
      OneCallYields(before + Recorded(tid, rest), tid, c);
      Grown(tid, calls, stack);
      Chain(before, Recorded(tid, rest), RecordedCall(tid, c), tid, SpansOfCalls(tid, rest, stack == []), mid,
            SpansOfCall(tid, c, stack == []), Booked(stack, Spent(calls)));
    }
  }

  /** Main result: a thread's whole trace is reported as its call tree, one span a call, each
      with its own duration and that of its direct calls; nothing stays open. */
  lemma WholeTraceIsItsCallTree(tid: Tid, calls: seq<Call>)
    ensures Spans(Recorded(tid, calls)) == SpansOfCalls(tid, calls, true)
    ensures StackOf(StacksOf(Recorded(tid, calls)), tid) == []
  {
    CallsYield([], tid, calls);
    assert [] + Recorded(tid, calls) == Recorded(tid, calls);
    assert Spans([]) + SpansOfCalls(tid, calls, true) == SpansOfCalls(tid, calls, true);
  }

  // ---- what the columns are ----------------------------------------------------------------

  function Places(spans: seq<Span>, name: string): set<nat> {
    set i | 0 <= i < |spans| && spans[i].name == name
  }

  /** The count column counts spans of the name; the peak is the largest there is, or 0. */
  lemma {:induction false} CountAndPeakMean(spans: seq<Span>, name: string)
    ensures Count(spans, name) == |Places(spans, name)|
    ensures Peak(spans) >= 0.0 && forall x :: x in spans && x.peak.Some? ==> x.peak.value <= Peak(spans)
    ensures Peak(spans) == 0.0 || exists x :: x in spans && x.peak == Some(Peak(spans))
  {
    if spans != [] {
      var n := |spans| - 1;
      CountAndPeakMean(spans[..n], name);
      assert spans == spans[..n] + [spans[n]];
      assert Places(spans, name) == Places(spans[..n], name) + if spans[n].name == name then {n} else {};
    }
  }

  /** The time columns add up, in milliseconds of microseconds recorded. */
  lemma {:induction false} TimesMean(spans: seq<Span>, x: Span, name: string)
    ensures 1000.0 * Inclusive(spans + [x], name) ==
              1000.0 * Inclusive(spans, name) + if x.name == name then x.dur else 0.0
    ensures 1000.0 * Self(spans + [x], name) ==
              1000.0 * Self(spans, name) + if x.name == name then x.dur - x.kids else 0.0
  {
    SumsGrow(spans, x);
  }
}

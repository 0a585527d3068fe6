/**
 The reader side of the present session (app/diagnostics/PresentMonEtwSession.cpp): draining
 the trace, attributing presents to a process, and the totals of one attribution window.

 Everything here runs on the UI thread. Whether the consumer is consuming, whether the
 attributed process has exited and what the trace yields are arguments.
 */
module PresentSession {
  import opened PresentAccumulator

  /** One completed present as the trace reports it. */
  datatype TraceEvent = TraceEvent(
    processId: nat, hwnd: nat, related: seq<nat>, qpc: nat, modeCode: int, syncInterval: int, tearing: bool,
    discarded: bool)

  const COUNTER_RANGE: nat := 0x1_0000_0000

  /** A sample; its counters are 32 bits wide. */
  datatype Sample = Sample(
    available: bool, mode: PresentMode, tearing: bool, intervalMs: real,
    presentCount: nat, discardedCount: nat, modeFlipCount: nat, processId: nat,
    drainedCount: nat, matchedCount: nat, lastProcessId: nat, lastHwnd: nat)

  const NO_SAMPLE := Sample(false, Unknown, false, 0.0, 0, 0, 0, 0, 0, 0, 0, 0)

  datatype ReaderState = ReaderState(
    open: bool, targetPid: nat, totals: Totals, latest: Sample, lastQpc: nat, frequency: int, noteMade: bool)

  const INITIAL := ReaderState(false, 0, NO_TOTALS, NO_SAMPLE, 0, 0, false)

  function ClassifyMode(code: int): PresentMode {
    if code == 1 || code == 2 then ExclusiveFullscreen
    else if code == 3 || code == 8 then IndependentFlip
    else if code == 4 || code == 5 || code == 6 then Composed
    else Unknown
  }

  /** The codes behind each mode, by the consumer's own table. */
  predicate IsModeOf(mode: PresentMode, code: int) {
    match mode
    case ExclusiveFullscreen => code in {1, 2}
    case IndependentFlip => code in {3, 8}
    case Composed => code in {4, 5, 6}
    case Unknown => code !in {1, 2, 3, 4, 5, 6, 8}
  }

  lemma {:induction false} ModeOfCode(code: int)
    ensures forall mode :: mode == ClassifyMode(code) <==> IsModeOf(mode, code)
  {
  }

  /** Does the event count for the target? Process 0 stands for any process. */
  predicate Related(e: TraceEvent, pid: nat) {
    pid == 0 || e.processId == pid || pid in e.related
  }

  /** Does the event concern the process: any event concerns process 0, and an event concerns the process it names
      and each one it lists as related. */
  predicate Concerns(e: TraceEvent, pid: nat) {
    pid == 0 || e.processId == pid || exists i :: 0 <= i < |e.related| && e.related[i] == pid
  }

  lemma {:induction false} RelatedIff(e: TraceEvent, pid: nat)
    ensures Related(e, pid) <==> Concerns(e, pid)
  {
  }

  /** The gap to the present before, never invented: 0 for the first one or without a frequency. */
  function Interval(lastQpc: nat, qpc: nat, frequency: int): real {
    if lastQpc != 0 && qpc > lastQpc && frequency != 0
    then ((qpc - lastQpc) as real) * 1000.0 / (frequency as real) else 0.0
  }

  function PresentOf(e: TraceEvent): Present {
    Present(ClassifyMode(e.modeCode), e.discarded)
  }

  // ----- The operations, as functions of the whole state -----

  function Counted(st: ReaderState, e: TraceEvent): ReaderState {
    var totals := Folded(st.totals, PresentOf(e));
    st.(totals := totals, lastQpc := e.qpc,
        latest := Sample(
          true, ClassifyMode(e.modeCode), e.tearing || e.syncInterval == 0, Interval(st.lastQpc, e.qpc, st.frequency),
          totals.presentCount % COUNTER_RANGE, totals.discardedCount % COUNTER_RANGE,
          totals.modeFlipCount % COUNTER_RANGE, st.targetPid, 0, 0, 0, 0))
  }

  function DrainedOne(st: ReaderState, e: TraceEvent): ReaderState {
    if Related(e, st.targetPid) then Counted(st, e)
    else st.(latest := st.latest.(lastProcessId := e.processId, lastHwnd := e.hwnd))
  }

  function DrainedAll(st: ReaderState, events: seq<TraceEvent>): (after: ReaderState)
    ensures after.targetPid == st.targetPid && after.open == st.open && after.frequency == st.frequency
    ensures after.noteMade == st.noteMade
  {
    if events == [] then st else DrainedOne(DrainedAll(st, events[..|events| - 1]), events[|events| - 1])
  }

  /** The events of a batch that concern the process, in order. */
  function Matched(events: seq<TraceEvent>, pid: nat): (matched: seq<TraceEvent>) {
    if events == [] then []
    else
      Matched(events[..|events| - 1], pid)
      + if Concerns(events[|events| - 1], pid) then [events[|events| - 1]] else []
  }

  /** A batch that carried presents, none of them the attributed process's. */
  predicate Unattributed(events: seq<TraceEvent>, pid: nat) {
    events != [] && Matched(events, pid) == [] && pid != 0
  }

  /** One reading of an open, consuming session whose target is alive. */
  function Read(st: ReaderState, frequency: int, events: seq<TraceEvent>): ReaderState {
    var after := DrainedAll(st.(frequency := frequency), events);
    after.(latest := after.latest.(drainedCount := |events| % COUNTER_RANGE,
                                   matchedCount := |Matched(events, st.targetPid)| % COUNTER_RANGE),
           noteMade := if Unattributed(events, st.targetPid) then true
                       else if Matched(events, st.targetPid) != [] then false else st.noteMade)
  }

  datatype Op =
    | Start(opens: bool)
    | SetTarget(pid: nat)
    | Stop
    | Latest(consuming: bool, exited: bool, frequency: int, events: seq<TraceEvent>)

  function Next(st: ReaderState, op: Op): ReaderState {
    match op
    case Start(opens) =>
      if st.open || !opens then st
      else st.(open := true, totals := NO_TOTALS, latest := NO_SAMPLE, lastQpc := 0, frequency := 0)
    case SetTarget(pid) => st.(targetPid := pid, totals := NO_TOTALS, latest := NO_SAMPLE, lastQpc := 0)
    case Stop =>
      if !st.open then st
      else st.(open := false, totals := NO_TOTALS, latest := NO_SAMPLE, lastQpc := 0, frequency := 0)
    case Latest(consuming, exited, frequency, events) =>
      if !st.open || !consuming then st
      else if exited && st.targetPid != 0 then st.(latest := NO_SAMPLE)
      else Read(st, frequency, events)
  }

  // ----- The session itself -----

  class PresentSession {
    var open: bool
    var targetPid: nat
    const accumulator: PresentAccumulator
    var latest: Sample
    var lastQpc: nat
    var frequency: int
    var noteMade: bool

    constructor ()
      ensures fresh(accumulator) && State() == INITIAL
    {
      open, targetPid, latest, lastQpc, frequency, noteMade := false, 0, NO_SAMPLE, 0, 0, false;
      accumulator := new PresentAccumulator();
    }

    ghost function State(): ReaderState
      reads this, accumulator
    {
      ReaderState(open, targetPid, accumulator.State(), latest, lastQpc, frequency, noteMade)
    }

    method Start(opens: bool) returns (started: bool)
      modifies this, accumulator
      ensures State() == Next(old(State()), Op.Start(opens)) && started == (old(open) || opens)
    {
      if open {
        return true;
      }
      if !opens {
        return false;
      }
      lastQpc, frequency := 0, 0;
      accumulator.Reset();
      latest := NO_SAMPLE;
      open := true;
      return true;
    }

    method SetTargetProcessId(pid: nat)
      modifies this, accumulator
      ensures State() == Next(old(State()), Op.SetTarget(pid))
    {
      targetPid := pid;
      accumulator.Reset();
      lastQpc, latest := 0, NO_SAMPLE;
    }

    method Stop()
      modifies this, accumulator
      ensures State() == Next(old(State()), Op.Stop)
    {
      if !open {
        return;
      }
      open := false;
      latest := NO_SAMPLE;
      lastQpc, frequency := 0, 0;
      accumulator.Reset();
    }

    method DrainOne(e: TraceEvent) returns (related: bool)
      modifies this, accumulator
      ensures State() == DrainedOne(old(State()), e) && related == Related(e, targetPid)
    {
      latest := latest.(lastProcessId := e.processId, lastHwnd := e.hwnd);
      related := Related(e, targetPid);
      if !related {
        return;
      }
      var interval := Interval(lastQpc, e.qpc, frequency);
      lastQpc := e.qpc;
      accumulator.Observe(ClassifyMode(e.modeCode), e.discarded);
      latest := Sample(
        true, ClassifyMode(e.modeCode), e.tearing || e.syncInterval == 0, interval,
        accumulator.presentCount % COUNTER_RANGE, accumulator.discardedCount % COUNTER_RANGE,
        accumulator.modeFlipCount % COUNTER_RANGE, targetPid, 0, 0, 0, 0);
    }

    /** Returns the sample, and whether a batch without any attributed present was noted in the log. */
    method Latest(consuming: bool, exited: bool, frequency: int, events: seq<TraceEvent>)
      returns (sample: Sample, noted: bool)
      modifies this, accumulator
      ensures State() == Next(old(State()), Op.Latest(consuming, exited, frequency, events))
      ensures sample == if old(open) && consuming then latest else NO_SAMPLE
      ensures noted == Notes(old(State()), Op.Latest(consuming, exited, frequency, events))
    {
      noted := false;
      if !open || !consuming {
        return NO_SAMPLE, false;
      }
      if exited && targetPid != 0 {
        latest := NO_SAMPLE;
        return latest, false;
      }
      this.frequency := frequency;
      ghost var before := State();
      var attributed := 0;
      for k := 0 to |events|
        invariant State() == DrainedAll(before, events[..k])
        invariant attributed == |Matched(events[..k], targetPid)|
      {
        assert events[..k + 1][..k] == events[..k];
        RelatedIff(events[k], targetPid);
        var related := DrainOne(events[k]);
        if related {
          attributed := attributed + 1;
        }
      }
      assert events[..|events|] == events;
      latest := latest.(drainedCount := |events| % COUNTER_RANGE, matchedCount := attributed % COUNTER_RANGE);
      if |events| > 0 && attributed == 0 && targetPid != 0 && !noteMade {
        noteMade := true;
        noted := true;
      } else if attributed > 0 {
        noteMade := false;
      }
      sample := latest;
    }
  }

  // ----- The totals of an attribution window -----

  /** Does the operation begin a new attribution window? */
  predicate IsBoundary(st: ReaderState, op: Op) {
    match op
    case Start(opens) => !st.open && opens
    case SetTarget(_) => true
    case Stop => st.open
    case Latest(_, _, _, _) => false
  }

  /** Does the operation drain its events? */
  predicate Drains(st: ReaderState, op: Op) {
    op.Latest? && st.open && op.consuming && !(op.exited && st.targetPid != 0)
  }

  function Run(ops: seq<Op>): ReaderState {
    if ops == [] then INITIAL else Next(Run(ops[..|ops| - 1]), ops[|ops| - 1])
  }

  /** The related events drained since the last boundary, oldest first. */
  function Window(ops: seq<Op>): seq<TraceEvent> {
    if ops == [] then []
    else
      var st, op := Run(ops[..|ops| - 1]), ops[|ops| - 1];
      if IsBoundary(st, op) then []
      else Window(ops[..|ops| - 1]) + if Drains(st, op) then Matched(op.events, st.targetPid) else []
  }

  function Presents(events: seq<TraceEvent>): (presents: seq<Present>)
    ensures |presents| == |events|
  {
    seq(|events|, k requires 0 <= k < |events| => Present(ClassifyMode(events[k].modeCode), events[k].discarded))
  }

  /** The frequency of the reading that drained the window's last event. */
  function WindowFrequency(ops: seq<Op>): int {
    if ops == [] then 0
    else
      var st, op := Run(ops[..|ops| - 1]), ops[|ops| - 1];
      if Drains(st, op) && Matched(op.events, st.targetPid) != [] then op.frequency
      else WindowFrequency(ops[..|ops| - 1])
  }

  /** The session's totals and sample are those of the window. */
  ghost predicate Measures(st: ReaderState, window: seq<TraceEvent>, frequency: int) {
    && st.totals == FoldedAll(Presents(window))
    && st.lastQpc == (if window == [] then 0 else window[|window| - 1].qpc)
    && (st.latest.available ==>
          window != [] && Shows(st.latest, window, frequency) && st.latest.processId == st.targetPid)
  }

  ghost predicate Shows(s: Sample, window: seq<TraceEvent>, frequency: int)
    requires window != []
  {
    var t := FoldedAll(Presents(window));
    && s.presentCount == t.presentCount % COUNTER_RANGE
    && s.discardedCount == t.discardedCount % COUNTER_RANGE
    && s.modeFlipCount == t.modeFlipCount % COUNTER_RANGE
    && IsModeOf(s.mode, window[|window| - 1].modeCode)
    && s.tearing == (window[|window| - 1].tearing || window[|window| - 1].syncInterval == 0)
    // The first present of a window has no predecessor to be timed against.
    && (|window| == 1 ==> s.intervalMs == 0.0)
    && (|window| > 1 ==> Times(s.intervalMs, window[|window| - 2].qpc, window[|window| - 1].qpc, frequency))
  }

  /** Is `ms` the time in milliseconds between two readings of the counter? It is nothing where it cannot be told. */
  ghost predicate Times(ms: real, earlier: nat, later: nat, frequency: int) {
    if earlier == 0 || later <= earlier || frequency == 0 then ms == 0.0
    else ms * (frequency as real) == 1000.0 * ((later - earlier) as real)
  }

  lemma {:induction false} IntervalTimes(earlier: nat, later: nat, frequency: int)
    ensures Times(Interval(earlier, later, frequency), earlier, later, frequency)
  {
  }

  lemma {:induction false} CountedMeasures(st: ReaderState, window: seq<TraceEvent>, frequency: int, e: TraceEvent)
    requires Measures(st, window, frequency)
    ensures Measures(Counted(st, e), window + [e], st.frequency)
  {
    hide Folded, Interval, Times;
    var presents := Presents(window + [e]);
    assert presents[..|presents| - 1] == Presents(window);
    assert FoldedAll(presents) == Folded(FoldedAll(Presents(window)), PresentOf(e));
    ModeOfCode(e.modeCode);
    IntervalTimes(st.lastQpc, e.qpc, st.frequency);
    NothingToTime(e.qpc, st.frequency);
  }

  lemma {:induction false} NothingToTime(qpc: nat, frequency: int)
    ensures Interval(0, qpc, frequency) == 0.0
  {
  }

  lemma {:induction false} DrainMeasures(st: ReaderState, window: seq<TraceEvent>, frequency: int,
                                         events: seq<TraceEvent>)
    requires Measures(st, window, frequency)
    ensures var matched := Matched(events, st.targetPid);
            Measures(DrainedAll(st, events), window + matched, if matched == [] then frequency else st.frequency)
  {
    hide FoldedAll, Presents, Counted, Related, Concerns, Shows;
    if events == [] {
      assert window + [] == window;
    } else {
      var earlier, e := events[..|events| - 1], events[|events| - 1];
      DrainMeasures(st, window, frequency, earlier);
      var sofar := window + Matched(earlier, st.targetPid);
      var since := if Matched(earlier, st.targetPid) == [] then frequency else st.frequency;
      RelatedIff(e, st.targetPid);
      if Related(e, st.targetPid) {
        CountedMeasures(DrainedAll(st, earlier), sofar, since, e);
        assert sofar + [e] == window + (Matched(earlier, st.targetPid) + [e]);
      } else {
        assert Matched(events, st.targetPid) == Matched(earlier, st.targetPid) + [];
        assert window + Matched(events, st.targetPid) == sofar;
        EvidenceOnly(DrainedAll(st, earlier), sofar, since, e);
      }
    }
  }

  /** A foreign event leaves the measurements. */
  lemma {:induction false} EvidenceOnly(st: ReaderState, window: seq<TraceEvent>, frequency: int, e: TraceEvent)
    requires Measures(st, window, frequency)
    ensures Measures(st.(latest := st.latest.(lastProcessId := e.processId, lastHwnd := e.hwnd)), window, frequency)
  {
    hide FoldedAll, Times;
  }

  /** Nor does the count of a batch change them. */
  lemma {:induction false} CountsOnly(st: ReaderState, window: seq<TraceEvent>, frequency: int, drained: nat,
                                      matched: nat, now: int, noted: bool)
    requires Measures(st, window, frequency)
    ensures Measures(st.(latest := st.latest.(drainedCount := drained, matchedCount := matched), frequency := now,
                         noteMade := noted), window, frequency)
  {
    hide FoldedAll, Times;
  }

  lemma {:induction false} RunMeasures(ops: seq<Op>)
    ensures Measures(Run(ops), Window(ops), WindowFrequency(ops))
  {
    hide FoldedAll, DrainedAll, Matched, Shows;
    EmptyMeasures();
    if ops != [] {
      var st, op := Run(ops[..|ops| - 1]), ops[|ops| - 1];
      var window, frequency := Window(ops[..|ops| - 1]), WindowFrequency(ops[..|ops| - 1]);
      RunMeasures(ops[..|ops| - 1]);
      assert window + [] == window;
      if Drains(st, op) {
        var ready := st.(frequency := op.frequency);
        CountsOnly(st, window, frequency, st.latest.drainedCount, st.latest.matchedCount, op.frequency, st.noteMade);
        DrainMeasures(ready, window, frequency, op.events);
        var drained, after := DrainedAll(ready, op.events), Run(ops);
        CountsOnly(drained, Window(ops), WindowFrequency(ops), after.latest.drainedCount, after.latest.matchedCount,
                   drained.frequency, after.noteMade);
      }
    }
  }

  lemma {:induction false} EmptyMeasures()
    ensures FoldedAll(Presents([])) == NO_TOTALS
  {
  }

  /** Whenever a sample is available, its totals are the counts over exactly the related events drained
      since the last boundary, whatever batches they came in. */
  lemma {:induction false} SampleCountsTheWindow(ops: seq<Op>)
    requires Run(ops).latest.available
    ensures var s, presents := Run(ops).latest, Presents(Window(ops));
            && presents != []
            && s.presentCount == |presents| % 0x1_0000_0000
            && s.discardedCount == CountDiscarded(presents) % 0x1_0000_0000
            && s.modeFlipCount == Flips(Classified(presents)) % 0x1_0000_0000
  {
    RunMeasures(ops);
    TotalsAreCounts(Presents(Window(ops)));
  }

  lemma {:induction false} MatchedConcat(s: seq<TraceEvent>, t: seq<TraceEvent>, pid: nat)
    ensures Matched(s + t, pid) == Matched(s, pid) + Matched(t, pid)
  {
    if t == [] {
      assert s + t == s;
    } else {
      assert (s + t)[..|s + t| - 1] == s + t[..|t| - 1];
      MatchedConcat(s, t[..|t| - 1], pid);
    }
  }

  /** Where the events that concern the process stand in a batch. */
  ghost function Concerned(events: seq<TraceEvent>, pid: nat): set<nat> {
    set k: nat | k < |events| && Concerns(events[k], pid)
  }

  lemma {:induction false} MatchedCounts(events: seq<TraceEvent>, pid: nat)
    ensures |Matched(events, pid)| == |Concerned(events, pid)|
  {
    hide Concerns;
    if events != [] {
      var n := |events| - 1;
      MatchedCounts(events[..n], pid);
      var earlier := Concerned(events[..n], pid);
      assert Concerned(events, pid) == if Concerns(events[n], pid) then earlier + {n} else earlier;
    }
  }

  /** A reading counts its own batch: all of it, and the events that concern the target. */
  lemma {:induction false} ReadingCountsItsBatch(ops: seq<Op>, op: Op)
    requires Drains(Run(ops), op)
    ensures var s, pid := Run(ops + [op]).latest, Run(ops).targetPid;
            && s.drainedCount == |op.events| % 0x1_0000_0000
            && s.matchedCount == |Concerned(op.events, pid)| % 0x1_0000_0000
  {
    hide Concerns;
    RunConcat(ops, op);
    MatchedCounts(op.events, Run(ops).targetPid);
  }

  // ----- What the session is attributed to -----

  /** Was the last opening start or stop before operation `k` a start? */
  predicate OpenAt(ops: seq<Op>, k: nat)
    requires k <= |ops|
  {
    k > 0 && (ops[k - 1] == Start(true) || (ops[k - 1] != Stop && OpenAt(ops, k - 1)))
  }

  /** The target set last before operation `k`; none is process 0. */
  function TargetAt(ops: seq<Op>, k: nat): nat
    requires k <= |ops|
  {
    if k == 0 then 0 else if ops[k - 1].SetTarget? then ops[k - 1].pid else TargetAt(ops, k - 1)
  }

  /** When a session is open, and whose presents it counts, is read off the calls: readings, failed starts and
      stops leave the target, and only starts and stops open and close. */
  lemma {:induction false} OpenAndTarget(ops: seq<Op>, k: nat)
    requires k <= |ops|
    ensures Run(ops[..k]).open == OpenAt(ops, k) && Run(ops[..k]).targetPid == TargetAt(ops, k)
  {
    if k > 0 {
      hide DrainedAll, Matched;
      OpenAndTarget(ops, k - 1);
      PrefixRun(ops, k - 1);
    }
  }

  // ----- How the trace is cut into batches -----

  /** The readings of a live session whose trace yields these batches. */
  function Readings(frequency: int, batches: seq<seq<TraceEvent>>): (ops: seq<Op>)
    ensures |ops| == |batches|
  {
    seq(|batches|, k requires 0 <= k < |batches| => Latest(true, false, frequency, batches[k]))
  }

  function Flatten(batches: seq<seq<TraceEvent>>): seq<TraceEvent> {
    if batches == [] then [] else Flatten(batches[..|batches| - 1]) + batches[|batches| - 1]
  }

  /** The state but for what counts the last batch alone, the note's latch, and the frequency. */
  function Core(st: ReaderState): ReaderState {
    st.(latest := st.latest.(drainedCount := 0, matchedCount := 0), frequency := 0, noteMade := false)
  }

  /** The state as a reading at this frequency finds it. */
  function At(frequency: int, st: ReaderState): ReaderState {
    Core(st).(frequency := frequency)
  }

  lemma {:induction false} DrainAt(frequency: int, st: ReaderState, events: seq<TraceEvent>)
    ensures Core(DrainedAll(st.(frequency := frequency), events)) == Core(DrainedAll(At(frequency, st), events))
  {
    if events != [] {
      DrainAt(frequency, st, events[..|events| - 1]);
    }
  }

  lemma {:induction false} DrainConcat(st: ReaderState, s: seq<TraceEvent>, t: seq<TraceEvent>)
    ensures DrainedAll(st, s + t) == DrainedAll(DrainedAll(st, s), t)
  {
    hide DrainedOne;
    if t == [] {
      assert s + t == s;
    } else {
      assert (s + t)[..|s + t| - 1] == s + t[..|t| - 1];
      DrainConcat(st, s, t[..|t| - 1]);
    }
  }

  lemma {:induction false} RunConcat(ops: seq<Op>, op: Op)
    ensures Run(ops + [op]) == Next(Run(ops), op)
  {
    assert (ops + [op])[..|ops|] == ops;
  }

  /** Any readings leave what draining all their events at once would. */
  lemma {:induction false} ReadingsDrainAll(ops: seq<Op>, frequency: int, batches: seq<seq<TraceEvent>>)
    requires Run(ops).open
    ensures Run(ops + Readings(frequency, batches)).open
    ensures Core(Run(ops + Readings(frequency, batches)))
         == Core(DrainedAll(At(frequency, Run(ops)), Flatten(batches)))
  {
    hide DrainedOne, Matched;
    if batches == [] {
      assert ops + Readings(frequency, batches) == ops;
    } else {
      var earlier, last := batches[..|batches| - 1], batches[|batches| - 1];
      var sofar := ops + Readings(frequency, earlier);
      ReadingsDrainAll(ops, frequency, earlier);
      assert ops + Readings(frequency, batches) == sofar + [Latest(true, false, frequency, last)];
      RunConcat(sofar, Latest(true, false, frequency, last));
      DrainAt(frequency, Run(sofar), last);
      var all := DrainedAll(At(frequency, Run(ops)), Flatten(earlier));
      DrainConcat(At(frequency, Run(ops)), Flatten(earlier), last);
      DrainAt(frequency, all, last);
      assert all.(frequency := frequency) == all;
    }
  }

  /** However the same events are cut into batches, the session ends with the same totals, timestamps and
      sample, but for the counts of the last batch. */
  lemma {:induction false} BatchingIsIrrelevant(ops: seq<Op>, frequency: int, xs: seq<seq<TraceEvent>>,
                                                ys: seq<seq<TraceEvent>>)
    requires Run(ops).open && Flatten(xs) == Flatten(ys)
    ensures var x, y := Run(ops + Readings(frequency, xs)), Run(ops + Readings(frequency, ys));
            && x.totals == y.totals && x.lastQpc == y.lastQpc
            && x.latest.(drainedCount := 0, matchedCount := 0) == y.latest.(drainedCount := 0, matchedCount := 0)
  {
    ReadingsDrainAll(ops, frequency, xs);
    ReadingsDrainAll(ops, frequency, ys);
  }

  // ----- What the raw evidence of a sample says -----

  /** The process a sample names as the last one drained really is that only when the last event of the
      batch was not counted: counting an event replaces the whole sample, evidence included. */
  lemma {:induction false} LastProcessIff(st: ReaderState, frequency: int, events: seq<TraceEvent>)
    requires events != []
    ensures Read(st, frequency, events).latest.lastProcessId == events[|events| - 1].processId
       <==> !Concerns(events[|events| - 1], st.targetPid) || events[|events| - 1].processId == 0
  {
    RelatedIff(events[|events| - 1], st.targetPid);
  }

  /** A counted present as the last of a batch leaves no process named. */
  lemma {:induction false} LastProcessIsLost(st: ReaderState, frequency: int, e: TraceEvent)
    requires Concerns(e, st.targetPid) && e.processId != 0
    ensures Read(st, frequency, [e]).latest.lastProcessId == 0
  {
    RelatedIff(e, st.targetPid);
    assert [e][..0] == [];
  }

  // ----- The note about unattributed batches -----

  predicate Notes(st: ReaderState, op: Op) {
    Drains(st, op) && Unattributed(op.events, st.targetPid) && !st.noteMade
  }

  /** Operation `i` drained a batch of foreign presents only. */
  predicate ForeignAt(ops: seq<Op>, i: nat)
    requires i < |ops|
  {
    var pid := Run(ops[..i]).targetPid;
    Drains(Run(ops[..i]), ops[i]) && ops[i].events != [] && Matched(ops[i].events, pid) == [] && pid != 0
  }

  /** Operation `i` drained a present of the target. */
  predicate MatchAt(ops: seq<Op>, i: nat)
    requires i < |ops|
  {
    Drains(Run(ops[..i]), ops[i]) && Matched(ops[i].events, Run(ops[..i]).targetPid) != []
  }

  ghost predicate ForeignSinceMatch(ops: seq<Op>, i: nat) {
    i < |ops| && ForeignAt(ops, i) && forall j :: i < j < |ops| ==> !MatchAt(ops, j)
  }

  lemma {:induction false} PrefixAt(ops: seq<Op>, n: nat, i: nat)
    requires i < n <= |ops|
    ensures ForeignAt(ops[..n], i) == ForeignAt(ops, i) && MatchAt(ops[..n], i) == MatchAt(ops, i)
  {
    assert ops[..n][..i] == ops[..i] && ops[..n][i] == ops[i];
  }

  lemma {:induction false} NoteStep(ops: seq<Op>)
    requires ops != []
    ensures var n := |ops| - 1;
            Run(ops).noteMade == if ForeignAt(ops, n) then true
                                 else if MatchAt(ops, n) then false else Run(ops[..n]).noteMade
  {
    hide DrainedAll, Matched;
  }

  /** The latch stands exactly when some batch was all foreign and no present was attributed since. So a
      batch is noted exactly when it is all foreign and none was since the last attributed present; a
      boundary does not begin this anew. */
  lemma {:induction false} NoteLatchIff(ops: seq<Op>)
    ensures Run(ops).noteMade <==> exists i: nat :: ForeignSinceMatch(ops, i)
  {
    hide ForeignAt, MatchAt;
    if ops != [] {
      hide Run;
      var n := |ops| - 1;
      NoteLatchIff(ops[..n]);
      NoteStep(ops);
      forall i: nat | i < n
        ensures ForeignAt(ops[..n], i) == ForeignAt(ops, i) && MatchAt(ops[..n], i) == MatchAt(ops, i)
      {
        PrefixAt(ops, n, i);
      }
      if ForeignAt(ops, n) {
        assert ForeignSinceMatch(ops, n);
      } else if !MatchAt(ops, n) {
        if i: nat :| ForeignSinceMatch(ops[..n], i) {
          assert ForeignSinceMatch(ops, i);
        }
        if i: nat :| ForeignSinceMatch(ops, i) {
          assert ForeignSinceMatch(ops[..n], i);
        }
      }
    }
  }

  // ----- The notes of one attribution window -----

  predicate BoundaryAt(ops: seq<Op>, i: nat)
    requires i < |ops|
  {
    IsBoundary(Run(ops[..i]), ops[i])
  }

  /** The operations `a <= i < n` lie in one window, which begins at `a`. */
  ghost predicate IsWindow(ops: seq<Op>, a: nat, n: nat) {
    && a <= n <= |ops| && (a == 0 || BoundaryAt(ops, a - 1))
    && forall i :: a <= i < n ==> !BoundaryAt(ops, i)
  }

  predicate NotedAt(ops: seq<Op>, i: nat)
    requires i < |ops|
  {
    Notes(Run(ops[..i]), ops[i])
  }

  /** How many notes the log gets of the operations `a <= i < n`. */
  function NoteCount(ops: seq<Op>, a: nat, n: nat): nat
    requires a <= n <= |ops|
    decreases n
  {
    if n == a then 0 else NoteCount(ops, a, n - 1) + if NotedAt(ops, n - 1) then 1 else 0
  }

  /** Before operation `a`, an all-foreign batch came with no attributed one since. */
  ghost predicate ForeignBefore(ops: seq<Op>, a: nat)
    requires a <= |ops|
  {
    exists i: nat :: ForeignSinceMatch(ops[..a], i)
  }

  /** Operation `i` drained foreign presents only, and either no such batch was the last to matter before the
      stretch or an attributed batch of the stretch came before it. */
  ghost predicate CanNote(ops: seq<Op>, a: nat, i: nat)
    requires a <= i < |ops|
  {
    ForeignAt(ops, i) && (!ForeignBefore(ops, a) || exists m :: a <= m < i && MatchAt(ops, m))
  }

  /** Two all-foreign batches of the stretch that can be noted, with an attributed one between. */
  ghost predicate NotesTwice(ops: seq<Op>, a: nat, n: nat)
    requires a <= n <= |ops|
  {
    exists i, m, j :: a <= i < m < j < n && CanNote(ops, a, i) && MatchAt(ops, m) && ForeignAt(ops, j)
  }

  ghost predicate NotesOnce(ops: seq<Op>, a: nat, n: nat)
    requires a <= n <= |ops|
  {
    exists i :: a <= i < n && CanNote(ops, a, i)
  }

  /** The latch, within the stretch: up iff a foreign batch came since the last match, or none of either
      did and it was up at the start. */
  ghost predicate LatchWithin(ops: seq<Op>, a: nat, n: nat)
    requires a <= n <= |ops|
  {
    || (exists i :: a <= i < n && ForeignAt(ops, i) && forall j :: i < j < n ==> !MatchAt(ops, j))
    || (ForeignBefore(ops, a) && forall j :: a <= j < n ==> !MatchAt(ops, j))
  }

  /** The facts of a window that the counts below depend on. */
  ghost predicate Tallies(ops: seq<Op>, a: nat, n: nat)
    requires a <= n <= |ops|
  {
    && (Run(ops[..n]).noteMade <==> LatchWithin(ops, a, n))
    && (NoteCount(ops, a, n) == 0 <==> !NotesOnce(ops, a, n))
    && (NoteCount(ops, a, n) <= 1 <==> !NotesTwice(ops, a, n))
  }

  lemma {:induction false} NoteStepAt(ops: seq<Op>, n: nat)
    requires n < |ops|
    ensures Run(ops[..n + 1]).noteMade == if ForeignAt(ops, n) then true
                                          else if MatchAt(ops, n) then false else Run(ops[..n]).noteMade
    ensures NotedAt(ops, n) == (ForeignAt(ops, n) && !Run(ops[..n]).noteMade)
    ensures !(ForeignAt(ops, n) && MatchAt(ops, n))
  {
    NoteStep(ops[..n + 1]);
    PrefixAt(ops, n + 1, n);
    assert ops[..n + 1][..n] == ops[..n];
  }

  lemma {:induction false} LatchNext(ops: seq<Op>, a: nat, n: nat)
    requires a <= n < |ops| && !(ForeignAt(ops, n) && MatchAt(ops, n))
    ensures LatchWithin(ops, a, n + 1) <==>
              ForeignAt(ops, n) || (!MatchAt(ops, n) && LatchWithin(ops, a, n))
  {
    hide ForeignAt, MatchAt, Run, ForeignBefore;
    if LatchWithin(ops, a, n) && !MatchAt(ops, n) {
      if i :| a <= i < n && ForeignAt(ops, i) && forall j :: i < j < n ==> !MatchAt(ops, j) {
        assert forall j :: i < j < n + 1 ==> !MatchAt(ops, j);
      }
    }
    if i :| a <= i < n + 1 && ForeignAt(ops, i) && forall j :: i < j < n + 1 ==> !MatchAt(ops, j) {
      assert i < n ==> !MatchAt(ops, n) && forall j :: i < j < n ==> !MatchAt(ops, j);
    }
  }

  lemma {:induction false} OnceNext(ops: seq<Op>, a: nat, n: nat)
    requires a <= n < |ops|
    ensures NotesOnce(ops, a, n + 1) <==> NotesOnce(ops, a, n) || CanNote(ops, a, n)
  {
    hide CanNote;
    if i :| a <= i < n && CanNote(ops, a, i) {
      assert i < n + 1;
    }
  }

  /** A batch of the stretch that can be noted, with an attributed one after it. */
  ghost predicate CanNoteThenMatch(ops: seq<Op>, a: nat, n: nat)
    requires a <= n <= |ops|
  {
    exists i, m :: a <= i < m < n && CanNote(ops, a, i) && MatchAt(ops, m)
  }

  lemma {:induction false} TwiceNext(ops: seq<Op>, a: nat, n: nat)
    requires a <= n < |ops|
    ensures NotesTwice(ops, a, n + 1) <==>
              NotesTwice(ops, a, n) || (ForeignAt(ops, n) && CanNoteThenMatch(ops, a, n))
  {
    hide CanNote, MatchAt, ForeignAt;
    if i, m, j :| a <= i < m < j < n && CanNote(ops, a, i) && MatchAt(ops, m) && ForeignAt(ops, j) {
      assert j < n + 1;
    }
  }

  lemma {:induction false} NotBoth(ops: seq<Op>, i: nat)
    requires i < |ops|
    ensures !(ForeignAt(ops, i) && MatchAt(ops, i))
  {
  }

  lemma {:induction false} OnceByLatch(ops: seq<Op>, a: nat, n: nat)
    requires a <= n < |ops|
    ensures ForeignAt(ops, n) && !LatchWithin(ops, a, n) ==> CanNote(ops, a, n)
    ensures CanNote(ops, a, n) && LatchWithin(ops, a, n) ==> NotesOnce(ops, a, n)
  {
    hide ForeignAt, MatchAt, Run, ForeignBefore;
    if i :| a <= i < n && ForeignAt(ops, i) && forall j :: i < j < n ==> !MatchAt(ops, j) {
      NotBoth(ops, i);
      assert CanNote(ops, a, n) ==> CanNote(ops, a, i);
    }
  }

  lemma {:induction false} TwiceByLatch(ops: seq<Op>, a: nat, n: nat)
    requires a <= n < |ops|
    ensures NotesOnce(ops, a, n) && !LatchWithin(ops, a, n) ==> CanNoteThenMatch(ops, a, n)
    ensures CanNoteThenMatch(ops, a, n) ==> NotesOnce(ops, a, n)
    ensures CanNoteThenMatch(ops, a, n) && LatchWithin(ops, a, n) ==> NotesTwice(ops, a, n)
  {
    hide ForeignAt, MatchAt, Run, ForeignBefore;
    if i :| a <= i < n && CanNote(ops, a, i) {
      assert ForeignAt(ops, i);
      if !LatchWithin(ops, a, n) {
        var m :| i < m < n && MatchAt(ops, m);
        assert CanNoteThenMatch(ops, a, n);
      }
    }
    if i, m :| a <= i < m < n && CanNote(ops, a, i) && MatchAt(ops, m) {
      if j :| a <= j < n && ForeignAt(ops, j) && forall k :: j < k < n ==> !MatchAt(ops, k) {
        NotBoth(ops, j);
        assert i < m < j;
      }
    }
  }

  lemma {:induction false} TalliesNext(ops: seq<Op>, a: nat, n: nat)
    requires a <= n < |ops| && Tallies(ops, a, n)
    ensures Tallies(ops, a, n + 1)
  {
    hide ForeignAt, MatchAt, Run, NotedAt, LatchWithin, NotesOnce, NotesTwice, CanNoteThenMatch, CanNote;
    NoteStepAt(ops, n);
    LatchNext(ops, a, n);
    OnceNext(ops, a, n);
    TwiceNext(ops, a, n);
    OnceByLatch(ops, a, n);
    TwiceByLatch(ops, a, n);
    CanNoteIsForeign(ops, a, n);
  }

  lemma {:induction false} CanNoteIsForeign(ops: seq<Op>, a: nat, n: nat)
    requires a <= n < |ops|
    ensures CanNote(ops, a, n) ==> ForeignAt(ops, n)
  {
  }

  lemma {:induction false} AlwaysTallies(ops: seq<Op>, a: nat, n: nat)
    requires a <= n <= |ops|
    ensures Tallies(ops, a, n)
    decreases n
  {
    hide Tallies;
    if n == a {
      NothingToTally(ops, a);
    } else {
      AlwaysTallies(ops, a, n - 1);
      TalliesNext(ops, a, n - 1);
    }
  }

  lemma {:induction false} NothingToTally(ops: seq<Op>, a: nat)
    requires a <= |ops|
    ensures Tallies(ops, a, a)
  {
    hide ForeignAt, MatchAt, Run, CanNote;
    NoteLatchIff(ops[..a]);
  }

  /** A window is noted at most once exactly when no attributed batch of it stands between two all-foreign
      ones of which the first can be noted. */
  lemma {:induction false} AtMostOneNoteIff(ops: seq<Op>, a: nat, n: nat)
    requires IsWindow(ops, a, n)
    ensures NoteCount(ops, a, n) <= 1 <==> !NotesTwice(ops, a, n)
  {
    AlwaysTallies(ops, a, n);
  }

  /** A window without any attributed batch gets its one note exactly when it has an all-foreign batch and
      no foreign batch had come before it since the last attributed one. */
  lemma {:induction false} ForeignWindowNotedIff(ops: seq<Op>, a: nat, n: nat)
    requires IsWindow(ops, a, n) && forall i :: a <= i < n ==> !MatchAt(ops, i)
    ensures NoteCount(ops, a, n) == 1 <==>
              (exists i :: a <= i < n && ForeignAt(ops, i)) && !ForeignBefore(ops, a)
    ensures NoteCount(ops, a, n) <= 1
  {
    hide ForeignAt, MatchAt, Run, NoteCount, ForeignBefore;
    AlwaysTallies(ops, a, n);
    assert !NotesTwice(ops, a, n);
    if i :| a <= i < n && ForeignAt(ops, i) {
      assert CanNote(ops, a, i) <==> !ForeignBefore(ops, a);
    }
    assert NotesOnce(ops, a, n) <==> (exists i :: a <= i < n && ForeignAt(ops, i)) && !ForeignBefore(ops, a);
  }

  lemma {:induction false} AloneInABatch(e: TraceEvent, pid: nat)
    ensures Matched([e], pid) == if Concerns(e, pid) then [e] else []
  {
    assert [e][..0] == [];
  }

  /** So one window can be noted twice: foreign, attributed, foreign. */
  lemma {:induction false} OneWindowNotedTwice(frequency: int, pid: nat, own: TraceEvent, other: TraceEvent)
    requires pid != 0 && Concerns(own, pid) && !Concerns(other, pid)
    ensures var a, b := Latest(true, false, frequency, [other]), Latest(true, false, frequency, [own]);
            var ops := [Start(true), SetTarget(pid), a, b, a];
            IsWindow(ops, 2, 5) && NoteCount(ops, 2, 5) == 2
  {
    var a, b := Latest(true, false, frequency, [other]), Latest(true, false, frequency, [own]);
    var ops := [Start(true), SetTarget(pid), a, b, a];
    AloneInABatch(own, pid);
    AloneInABatch(other, pid);
    PrefixRun(ops, 0);
    PrefixRun(ops, 1);
    PrefixRun(ops, 2);
    PrefixRun(ops, 3);
  }

  /** And a window of foreign presents only can go without its note: the one before it was noted. */
  lemma {:induction false} ForeignWindowUnnoted(frequency: int, pid: nat, other: TraceEvent)
    requires pid != 0 && !Concerns(other, pid)
    ensures var a := Latest(true, false, frequency, [other]);
            var ops := [Start(true), SetTarget(pid), a, SetTarget(pid), a];
            IsWindow(ops, 4, 5) && ForeignAt(ops, 4) && NoteCount(ops, 4, 5) == 0
  {
    var a := Latest(true, false, frequency, [other]);
    var ops := [Start(true), SetTarget(pid), a, SetTarget(pid), a];
    AloneInABatch(other, pid);
    PrefixRun(ops, 0);
    PrefixRun(ops, 1);
    PrefixRun(ops, 2);
    PrefixRun(ops, 3);
  }

  lemma {:induction false} PrefixRun(ops: seq<Op>, k: nat)
    requires k < |ops|
    ensures Run(ops[..k + 1]) == Next(Run(ops[..k]), ops[k])
    ensures Run(ops[..0]) == INITIAL
  {
    assert ops[..k + 1][..k] == ops[..k];
  }
}

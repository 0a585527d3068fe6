/**
 The controller that feeds the ledger (app/diagnostics/DiagnosticsController.cpp): it resets
 the ledger with the session generation, freezes it on the lifecycle edge, and never lets one
 snapshot be observed twice.

 What the recommendation engine makes of a snapshot is an argument of `Evaluate`.
 */
module DiagnosticsController {
  import opened Wrappers
  import opened Sequences
  import opened SessionLedger
  import opened LedgerHistory
  import opened LedgerConservation
  import opened EngineTypes

  /** The fields of a recording snapshot the ledger depends on. */
  datatype Snapshot = Snapshot(valid: bool, lifecycle: DiagnosticsLifecycle, generation: nat, elapsedS: real)

  const NO_SNAPSHOT := Snapshot(false, Idle, 0, 0.0)

  predicate IsLive(s: Snapshot) {
    s.valid && (s.lifecycle.Recording? || s.lifecycle.Paused?)
  }

  /** What identifies one measurement. */
  datatype Stamp = Stamp(generation: nat, elapsedS: real)

  function StampOf(s: Snapshot): Stamp {
    Stamp(s.generation, s.elapsedS)
  }

  datatype ControllerState = ControllerState(
    live: Snapshot, ledger: LedgerState, lastObserved: Option<Stamp>, wasRecording: bool, dataReady: bool)

  // ----- The verdict -----

  datatype VerdictState = Blocked | Warn | Ready

  /** The band shown while recording: its state and the counts in its headline. */
  datatype RecordingVerdict = RecordingVerdict(state: VerdictState, blockers: nat, notices: nat, active: nat)

  function Blockers(results: seq<DiagnosticResult>): nat {
    if results == [] then 0 else Blockers(Init(results)) + if Last(results).tier.Blocker? then 1 else 0
  }

  function ActiveCount(es: seq<LedgerEntry>): nat {
    if es == [] then 0 else ActiveCount(Init(es)) + if Last(es).active then 1 else 0
  }

  function VerdictOf(results: seq<DiagnosticResult>, es: seq<LedgerEntry>): RecordingVerdict {
    if Blockers(results) > 0 then RecordingVerdict(Blocked, Blockers(results), 0, 0)
    else RecordingVerdict(if es == [] then Ready else Warn, 0, |es|, ActiveCount(es))
  }

  /** Where the blockers stand among the results. */
  ghost function Blocking(results: seq<DiagnosticResult>): set<nat> {
    set k: nat | k < |results| && results[k].tier.Blocker?
  }

  /** Where the open entries stand. */
  ghost function Open(es: seq<LedgerEntry>): set<nat> {
    set k: nat | k < |es| && es[k].active
  }

  lemma {:induction false} BlockersCount(results: seq<DiagnosticResult>)
    ensures Blockers(results) == |Blocking(results)|
  {
    if results != [] {
      BlockersCount(Init(results));
      var earlier := Blocking(Init(results));
      assert Blocking(results) == if Last(results).tier.Blocker? then earlier + {|results| - 1} else earlier;
    }
  }

  lemma {:induction false} ActiveCounts(es: seq<LedgerEntry>)
    ensures ActiveCount(es) == |Open(es)|
  {
    if es != [] {
      ActiveCounts(Init(es));
      var earlier := Open(Init(es));
      assert Open(es) == if Last(es).active then earlier + {|es| - 1} else earlier;
    }
  }

  /** The band in words: blocked by any blocker, and then silent about the ledger; otherwise ready or not by
      whether the ledger is empty, counting its entries and the open ones among them. */
  lemma {:induction false} VerdictMeans(results: seq<DiagnosticResult>, es: seq<LedgerEntry>)
    ensures var v := VerdictOf(results, es);
            var blocking := Blocking(results);
            && v.blockers == |blocking|
            && (v.state == Blocked <==> blocking != {})
            && (v.state == Ready <==> blocking == {} && es == [])
            && v.notices == (if blocking == {} then |es| else 0)
            && v.active == (if blocking == {} then |Open(es)| else 0)
  {
    BlockersCount(results);
    ActiveCounts(es);
  }

  // ----- The operations -----

  datatype Op =
    | SetConfig
    | SetLiveSnapshot(snapshot: Snapshot)
    | Evaluate(results: seq<DiagnosticResult>)
    | FreezeLedger

  /** The ledger an evaluation in a live session observes into: reset when the generation is new. */
  function CurrentLedger(st: ControllerState): LedgerState {
    if st.live.generation != st.ledger.generation then Fresh(st.live.generation) else st.ledger
  }

  function Evaluated(st: ControllerState, ids: set<string>, results: seq<DiagnosticResult>): ControllerState {
    if !st.dataReady || !IsLive(st.live) then st
    else if st.lastObserved == Some(StampOf(st.live)) then st.(ledger := CurrentLedger(st))
    else st.(lastObserved := Some(StampOf(st.live)),
             ledger := Observed(CurrentLedger(st), ids, results, st.live.elapsedS))
  }

  function Next(st: ControllerState, ids: set<string>, op: Op): ControllerState {
    match op
    case SetConfig => st.(dataReady := true)
    case SetLiveSnapshot(s) =>
      st.(live := s, wasRecording := IsLive(s),
          ledger := if st.wasRecording && !IsLive(s) then Frozen(st.ledger, s.elapsedS) else st.ledger)
    case Evaluate(results) => Evaluated(st, ids, results)
    case FreezeLedger => st.(ledger := Frozen(st.ledger, st.live.elapsedS))
  }

  const INITIAL := ControllerState(NO_SNAPSHOT, Fresh(0), None, false, false)

  function Run(st: ControllerState, ids: set<string>, ops: seq<Op>): ControllerState {
    if ops == [] then st else Next(Run(st, ids, Init(ops)), ids, Last(ops))
  }

  /** The engine never reports one admitted id twice in an evaluation. */
  ghost predicate Admissible(ids: set<string>, ops: seq<Op>) {
    forall k :: 0 <= k < |ops| && ops[k].Evaluate? ==> Distinct(ids, ops[k].results)
  }

  // ----- The controller itself -----

  class DiagnosticsController {
    var live: Snapshot
    const ledger: SessionLedger
    var lastObserved: Option<Stamp>
    var wasRecording: bool
    var dataReady: bool

    constructor (ids: set<string>)
      ensures fresh(ledger) && ledger.live == ids && State() == INITIAL
    {
      live, lastObserved, wasRecording, dataReady := NO_SNAPSHOT, None, false, false;
      ledger := new SessionLedger(ids);
    }

    ghost function State(): ControllerState
      reads this, ledger
    {
      ControllerState(live, ledger.State(), lastObserved, wasRecording, dataReady)
    }

    method SetConfig()
      modifies this
      ensures State() == Next(old(State()), ledger.live, Op.SetConfig)
    {
      dataReady := true;
    }

    /** Freezes on the lifecycle edge, at the time the new snapshot carries. */
    method SetLiveSnapshot(snapshot: Snapshot)
      modifies this, ledger
      ensures State() == Next(old(State()), ledger.live, Op.SetLiveSnapshot(snapshot))
    {
      live := snapshot;
      var recording := IsLive(live);
      if wasRecording && !recording {
        ledger.Freeze(live.elapsedS);
      }
      wasRecording := recording;
    }

    method FreezeLedger()
      modifies ledger
      ensures State() == Next(old(State()), ledger.live, Op.FreezeLedger)
    {
      ledger.Freeze(live.elapsedS);
    }

    /** One pass. The verdict is None when the session is not live or nothing was configured. */
    method Evaluate(results: seq<DiagnosticResult>) returns (verdict: Option<RecordingVerdict>)
      requires Tidy(ledger.State()) && Distinct(ledger.live, results)
      modifies this, ledger
      ensures State() == Next(old(State()), ledger.live, Op.Evaluate(results))
      ensures Tidy(ledger.State())
      ensures verdict.Some? <==> dataReady && IsLive(live)
      ensures verdict.Some? ==> verdict.value == VerdictOf(results, ledger.entries)
    {
      if !dataReady || !IsLive(live) {
        return None;
      }
      if live.generation != ledger.generation {
        ledger.Reset(live.generation);
      }
      var stamp := StampOf(live);
      if lastObserved != Some(stamp) {
        lastObserved := Some(stamp);
        ledger.Observe(results, live.elapsedS);
      }
      var v := ComputeRecordingVerdict(results);
      return Some(v);
    }

    method ComputeRecordingVerdict(results: seq<DiagnosticResult>) returns (verdict: RecordingVerdict)
      ensures verdict == VerdictOf(results, ledger.entries)
    {
      var blockers := 0;
      for k := 0 to |results|
        invariant blockers == Blockers(results[..k])
      {
        assert Init(results[..k + 1]) == results[..k];
        if results[k].tier.Blocker? {
          blockers := blockers + 1;
        }
      }
      assert results[..|results|] == results;
      if blockers > 0 {
        return RecordingVerdict(Blocked, blockers, 0, 0);
      }
      var es := ledger.entries;
      var active := 0;
      for k := 0 to |es|
        invariant active == ActiveCount(es[..k])
      {
        assert Init(es[..k + 1]) == es[..k];
        if es[k].active {
          active := active + 1;
        }
      }
      assert es[..|es|] == es;
      return RecordingVerdict(if es == [] then Ready else Warn, 0, |es|, active);
    }
  }

  // ----- When the ledger moves -----

  /** The snapshot in force before the operation `k`. */
  function SnapshotAt(ops: seq<Op>, k: nat): Snapshot
    requires k <= |ops|
  {
    if k == 0 then NO_SNAPSHOT
    else if ops[k - 1].SetLiveSnapshot? then ops[k - 1].snapshot
    else SnapshotAt(ops, k - 1)
  }

  /** A valid snapshot of a recording under way, paused or not. */
  predicate InRecording(s: Snapshot) {
    s.valid && s.lifecycle in {DiagnosticsLifecycle.Recording, Paused}
  }

  predicate UnderWay(ops: seq<Op>, k: nat)
    requires k <= |ops|
  {
    InRecording(SnapshotAt(ops, k))
  }

  ghost predicate Configured(ops: seq<Op>, k: nat)
    requires k <= |ops|
  {
    exists c :: 0 <= c < k && ops[c].SetConfig?
  }

  /** Is the operation `k` an evaluation in a configured, live session? */
  ghost predicate LiveEvaluation(ops: seq<Op>, k: nat)
    requires k < |ops|
  {
    ops[k].Evaluate? && Configured(ops, k) && UnderWay(ops, k)
  }

  /** The snapshot of the last live evaluation before the operation `k`. */
  ghost function LastMeasured(ops: seq<Op>, k: nat): Option<Snapshot>
    requires k <= |ops|
  {
    if k == 0 then None
    else if LiveEvaluation(ops, k - 1) then Some(SnapshotAt(ops, k - 1))
    else LastMeasured(ops, k - 1)
  }

  /** Is the snapshot before the operation `k` another one than that of the last live evaluation: of another
      session, or taken at another time? */
  ghost predicate NewMeasurement(ops: seq<Op>, k: nat)
    requires k <= |ops|
  {
    var s, last := SnapshotAt(ops, k), LastMeasured(ops, k);
    last == None || last.value.generation != s.generation || last.value.elapsedS != s.elapsedS
  }

  /** The session whose record the ledger is before the operation `k`. */
  ghost function SessionAt(ops: seq<Op>, k: nat): nat
    requires k <= |ops|
  {
    var last := LastMeasured(ops, k);
    if last == None then 0 else last.value.generation
  }

  /** Every field of the controller, read off the operations. */
  ghost predicate Reads(st: ControllerState, ops: seq<Op>, k: nat)
    requires k <= |ops|
  {
    && st.live == SnapshotAt(ops, k)
    && st.dataReady == Configured(ops, k)
    && st.wasRecording == UnderWay(ops, k)
    && st.ledger.generation == SessionAt(ops, k)
    && var last := LastMeasured(ops, k);
    && st.lastObserved == if last == None then None else Some(Stamp(last.value.generation, last.value.elapsedS))
  }

  lemma {:induction false} ReadsNext(st: ControllerState, ids: set<string>, ops: seq<Op>, k: nat)
    requires k < |ops| && Reads(st, ops, k)
    ensures Reads(Next(st, ids, ops[k]), ops, k + 1)
  {
    hide Observed, Frozen;
    if ops[k].Evaluate? {
      GenerationStays(CurrentLedger(st), ids, ops[k].results, st.live.elapsedS);
    } else if ops[k].SetLiveSnapshot? {
      GenerationStays(st.ledger, ids, [], ops[k].snapshot.elapsedS);
    } else {
      GenerationStays(st.ledger, ids, [], st.live.elapsedS);
    }
  }

  lemma {:induction false} AlwaysReads(ids: set<string>, ops: seq<Op>, k: nat)
    requires k <= |ops|
    ensures Reads(Run(INITIAL, ids, ops[..k]), ops, k)
  {
    hide Next, Reads;
    if k > 0 {
      assert Init(ops[..k]) == ops[..k - 1];
      AlwaysReads(ids, ops, k - 1);
      ReadsNext(Run(INITIAL, ids, ops[..k - 1]), ids, ops, k - 1);
    } else {
      InitiallyReads(ops);
    }
  }

  lemma {:induction false} InitiallyReads(ops: seq<Op>)
    ensures Reads(INITIAL, ops, 0)
  {
  }

  /** What the operation `k` makes of the ledger. A live evaluation of another session starts it anew, and one of a
      new measurement adds its results at the snapshot's time. A snapshot that ends the recording closes what is
      open at its own time, a freeze at that of the snapshot in force. Nothing else moves it. */
  ghost predicate Moves(before: LedgerState, after: LedgerState, ids: set<string>, ops: seq<Op>, k: nat)
    requires k < |ops|
  {
    match ops[k]
    case SetConfig => after == before
    case SetLiveSnapshot(s) =>
      after == if UnderWay(ops, k) && !UnderWay(ops, k + 1) then Frozen(before, s.elapsedS) else before
    case FreezeLedger => after == Frozen(before, SnapshotAt(ops, k).elapsedS)
    case Evaluate(results) =>
      var s := SnapshotAt(ops, k);
      var base := if s.generation != SessionAt(ops, k) then Fresh(s.generation) else before;
      after == if !LiveEvaluation(ops, k) then before
               else if NewMeasurement(ops, k) then Observed(base, ids, results, s.elapsedS) else base
  }

  lemma {:induction false} LedgerMovesIff(ids: set<string>, ops: seq<Op>, k: nat)
    requires k < |ops|
    ensures Moves(Run(INITIAL, ids, ops[..k]).ledger, Run(INITIAL, ids, ops[..k + 1]).ledger, ids, ops, k)
  {
    hide Observed, Frozen;
    assert Init(ops[..k + 1]) == ops[..k];
    AlwaysReads(ids, ops, k);
  }

  lemma {:induction false} TwoFiringsMakeAnEntry(st: LedgerState, ids: set<string>, first: seq<DiagnosticResult>,
                                                 second: seq<DiagnosticResult>, was: real, now: real, id: string)
    requires Distinct(ids, first) && Distinct(ids, second)
    requires ResultFor(ids, first, id).Some? && ResultFor(ids, second, id).Some?
    ensures HasEntry(Observed(Observed(st, ids, first, was), ids, second, now).entries, id)
  {
    hide Observed, ResultFor, Distinct, Touch, Enter, Close, RecordWorst;
    var half := Observed(st, ids, first, was);
    ObservedOneId(st, ids, first, was, id);
    ObservedOneId(half, ids, second, now, id);
  }

  function TwiceEvaluated(before: seq<Op>, s1: Snapshot, first: seq<DiagnosticResult>,
                          s2: Snapshot, second: seq<DiagnosticResult>): seq<Op>
  {
    before + [Op.SetLiveSnapshot(s1), Evaluate(first), Op.SetLiveSnapshot(s2), Evaluate(second)]
  }

  /** Both evaluations are live, of measurements not evaluated before, and of one session. */
  lemma {:induction false} BothAreMeasured(before: seq<Op>, s1: Snapshot, first: seq<DiagnosticResult>,
                                           s2: Snapshot, second: seq<DiagnosticResult>)
    requires SetConfig in before && InRecording(s1) && InRecording(s2)
    requires s1.generation == s2.generation && s1.elapsedS != s2.elapsedS
    requires NewMeasurement(before + [Op.SetLiveSnapshot(s1)], |before| + 1)
    ensures var ops, n := TwiceEvaluated(before, s1, first, s2, second), |before|;
            && SnapshotAt(ops, n + 1) == s1 && SnapshotAt(ops, n + 3) == s2 && SnapshotAt(ops, n + 2) == s1
            && LiveEvaluation(ops, n + 1) && NewMeasurement(ops, n + 1)
            && LiveEvaluation(ops, n + 3) && NewMeasurement(ops, n + 3)
            && SessionAt(ops, n + 3) == s2.generation
  {
    var n := |before|;
    var ops := TwiceEvaluated(before, s1, first, s2, second);
    var c :| 0 <= c < n && before[c] == SetConfig;
    assert ops[c].SetConfig?;
    SnapshotPrefix(before + [Op.SetLiveSnapshot(s1)], ops, n + 1);
    assert LastMeasured(ops, n + 3) == Some(s1);
  }

  /** A recording under way, one snapshot of it evaluated, then another one taken at another time: a problem that
      fires at both has an entry, and the verdict is no longer that all is well. */
  lemma {:induction false} TwoSnapshotsMakeAnEntry(
    ids: set<string>, before: seq<Op>, s1: Snapshot, s2: Snapshot,
    r1: DiagnosticResult, r2: DiagnosticResult, first: seq<DiagnosticResult>, second: seq<DiagnosticResult>)
    requires SetConfig in before && Distinct(ids, first) && Distinct(ids, second)
    requires InRecording(s1) && InRecording(s2) && s1.generation == s2.generation && s1.elapsedS != s2.elapsedS
    requires NewMeasurement(before + [Op.SetLiveSnapshot(s1)], |before| + 1)
    requires r1 in first && r2 in second && r1.id == r2.id && r1.id in ids
    requires r1.tier.MeasuredProblem? && r2.tier.MeasuredProblem?
    ensures var es := Run(INITIAL, ids, TwiceEvaluated(before, s1, first, s2, second)).ledger.entries;
            HasEntry(es, r1.id) && !VerdictOf(second, es).state.Ready?
  {
    hide Observed, Frozen, ResultFor, Distinct, LiveEvaluation, NewMeasurement, SessionAt, SnapshotAt, Run, InRecording;
    var n := |before|;
    var ops := TwiceEvaluated(before, s1, first, s2, second);
    BothAreMeasured(before, s1, first, s2, second);
    LedgerMovesIff(ids, ops, n + 1);
    LedgerMovesIff(ids, ops, n + 2);
    LedgerMovesIff(ids, ops, n + 3);
    assert ops[..n + 4] == ops;
    TheOneResult(ids, first, r1.id, r1);
    TheOneResult(ids, second, r1.id, r2);
    var was := Run(INITIAL, ids, ops[..n + 1]).ledger;
    var base := if s1.generation != SessionAt(ops, n + 1) then Fresh(s1.generation) else was;
    TwoFiringsMakeAnEntry(base, ids, first, second, s1.elapsedS, s2.elapsedS, r1.id);
  }

  /** What was read before an operation does not depend on what follows it. */
  lemma {:induction false} SnapshotPrefix(ops: seq<Op>, more: seq<Op>, k: nat)
    requires ops <= more && k <= |ops|
    ensures SnapshotAt(ops, k) == SnapshotAt(more, k) && LastMeasured(ops, k) == LastMeasured(more, k)
    ensures Configured(ops, k) == Configured(more, k)
  {
    assert forall c :: 0 <= c < k ==> ops[c] == more[c];
    if k > 0 {
      SnapshotPrefix(ops, more, k - 1);
    }
  }

  // ----- One snapshot is one measurement -----

  /** Evaluating now would neither reset nor observe. */
  ghost predicate Settled(st: ControllerState) {
    IsLive(st.live) ==> st.lastObserved == Some(StampOf(st.live)) && st.ledger.generation == st.live.generation
  }

  /** Neither freezes the ledger nor brings a new measurement. */
  ghost predicate BringsNothing(op: Op, stamp: Stamp) {
    match op
    case SetConfig => true
    case Evaluate(_) => true
    case SetLiveSnapshot(s) => IsLive(s) && StampOf(s) == stamp
    case FreezeLedger => false
  }

  /** Once a snapshot is observed, no number of evaluations, configurations or redeliveries of it
      touches the ledger again. */
  lemma {:induction false} ReevaluationIsIdle(st: ControllerState, ids: set<string>, results: seq<DiagnosticResult>,
                                              ops: seq<Op>)
    requires st.dataReady && IsLive(st.live)
    requires forall k :: 0 <= k < |ops| ==> BringsNothing(ops[k], StampOf(st.live))
    ensures var observed := Next(st, ids, Evaluate(results));
            var after := Run(observed, ids, ops);
            && after.ledger == observed.ledger && after.dataReady
            && Settled(after) && IsLive(after.live) && StampOf(after.live) == StampOf(st.live)
  {
    if ops != [] {
      assert BringsNothing(ops[|ops| - 1], StampOf(st.live));
      ReevaluationIsIdle(st, ids, results, Init(ops));
    }
  }

  // ----- The ledger speaks of one session -----

  /** An event the ledger saw, and the generation of the snapshot behind it. */
  datatype Source = Source(generation: nat, event: Event)

  function Events(sources: seq<Source>): (events: seq<Event>)
    ensures |events| == |sources|
  {
    seq(|sources|, k requires 0 <= k < |sources| => sources[k].event)
  }

  /** What reached the ledger between its last reset and the operation `k`. */
  ghost function SourcesAt(ops: seq<Op>, k: nat): seq<Source>
    requires k <= |ops|
  {
    if k == 0 then []
    else
      var sources, s := SourcesAt(ops, k - 1), SnapshotAt(ops, k - 1);
      match ops[k - 1]
      case SetConfig => sources
      case SetLiveSnapshot(ended) =>
        if UnderWay(ops, k - 1) && !UnderWay(ops, k)
        then sources + [Source(ended.generation, Event.Freeze(ended.elapsedS))] else sources
      case FreezeLedger => sources + [Source(s.generation, Event.Freeze(s.elapsedS))]
      case Evaluate(results) =>
        var kept := if s.generation != SessionAt(ops, k - 1) then [] else sources;
        if !LiveEvaluation(ops, k - 1) then sources
        else if NewMeasurement(ops, k - 1) then kept + [Source(s.generation, Event.Observe(results, s.elapsedS))]
        else kept
  }

  ghost function Sources(ops: seq<Op>): seq<Source> {
    SourcesAt(ops, |ops|)
  }

  lemma {:induction false} AfterSnoc(ids: set<string>, generation: nat, sources: seq<Source>, s: Source)
    ensures After(ids, generation, Events(sources + [s]))
         == Apply(After(ids, generation, Events(sources)), ids, s.event)
  {
    assert Init(Events(sources + [s])) == Events(sources);
  }

  /** The ledger is what `sources` make of an empty one, all observed in its own generation. */
  ghost predicate IsOf(ids: set<string>, ledger: LedgerState, sources: seq<Source>) {
    && ledger == After(ids, ledger.generation, Events(sources))
    && forall k :: 0 <= k < |sources| && sources[k].event.Observe? ==> sources[k].generation == ledger.generation
  }

  lemma {:induction false} IsOfNext(ids: set<string>, before: LedgerState, after: LedgerState, ops: seq<Op>, k: nat)
    requires k < |ops| && before.generation == SessionAt(ops, k)
    requires IsOf(ids, before, SourcesAt(ops, k)) && Moves(before, after, ids, ops, k)
    ensures IsOf(ids, after, SourcesAt(ops, k + 1))
  {
    hide Observed, Frozen, LiveEvaluation, NewMeasurement, UnderWay, SessionAt;
    var sources, s := SourcesAt(ops, k), SnapshotAt(ops, k);
    match ops[k] {
      case SetConfig =>
      case SetLiveSnapshot(ended) =>
        GenerationStays(before, ids, [], ended.elapsedS);
        AfterSnoc(ids, before.generation, sources, Source(ended.generation, Event.Freeze(ended.elapsedS)));
      case FreezeLedger =>
        GenerationStays(before, ids, [], s.elapsedS);
        AfterSnoc(ids, before.generation, sources, Source(s.generation, Event.Freeze(s.elapsedS)));
      case Evaluate(results) =>
        var another := s.generation != SessionAt(ops, k);
        var kept, base := if another then [] else sources, if another then Fresh(s.generation) else before;
        NothingIsFresh(ids, s.generation);
        GenerationStays(base, ids, results, s.elapsedS);
        AfterSnoc(ids, base.generation, kept, Source(s.generation, Event.Observe(results, s.elapsedS)));
    }
  }

  lemma {:induction false} GenerationStays(st: LedgerState, ids: set<string>, results: seq<DiagnosticResult>, at: real)
    ensures Observed(st, ids, results, at).generation == st.generation && Frozen(st, at).generation == st.generation
  {
  }

  lemma {:induction false} NothingIsFresh(ids: set<string>, generation: nat)
    ensures After(ids, generation, Events([])) == Fresh(generation)
  {
  }

  /** On every run the ledger is exactly what the events since its last reset make of an empty one,
      and every observation among them is of the ledger's own generation. */
  lemma {:induction false} LedgerIsOfOneGeneration(ids: set<string>, ops: seq<Op>)
    ensures IsOf(ids, Run(INITIAL, ids, ops).ledger, Sources(ops))
  {
    assert ops[..|ops|] == ops;
    LedgerIsOf(ids, ops, |ops|);
  }

  lemma {:induction false} LedgerIsOf(ids: set<string>, ops: seq<Op>, k: nat)
    requires k <= |ops|
    ensures IsOf(ids, Run(INITIAL, ids, ops[..k]).ledger, SourcesAt(ops, k))
  {
    hide IsOf, Next, Moves;
    if k == 0 {
      InitialIsOf(ids);
    } else {
      LedgerIsOf(ids, ops, k - 1);
      AlwaysReads(ids, ops, k - 1);
      LedgerMovesIff(ids, ops, k - 1);
      IsOfNext(ids, Run(INITIAL, ids, ops[..k - 1]).ledger, Run(INITIAL, ids, ops[..k]).ledger, ops, k - 1);
    }
  }

  lemma {:induction false} InitialIsOf(ids: set<string>)
    ensures IsOf(ids, INITIAL.ledger, [])
  {
    NothingIsFresh(ids, 0);
  }

  /** After an evaluation in a live session, the ledger is of that session. */
  lemma {:induction false} LedgerIsOfTheLiveSession(ids: set<string>, ops: seq<Op>, results: seq<DiagnosticResult>)
    requires var st := Run(INITIAL, ids, ops); st.dataReady && IsLive(st.live)
    ensures var st := Run(INITIAL, ids, ops + [Evaluate(results)]);
            var sources := Sources(ops + [Evaluate(results)]);
            && st.ledger.generation == st.live.generation
            && st.ledger == After(ids, st.live.generation, Events(sources))
            && (forall k :: 0 <= k < |sources| && sources[k].event.Observe?
                            ==> sources[k].generation == st.live.generation)
  {
    assert Init(ops + [Evaluate(results)]) == ops;
    LedgerIsOfOneGeneration(ids, ops + [Evaluate(results)]);
  }

  // ----- A degraded recording never reads ready again -----

  /** Every live snapshot of the run is of generation `g`. */
  ghost predicate StaysIn(g: nat, ops: seq<Op>) {
    forall k :: 0 <= k < |ops| && ops[k].SetLiveSnapshot? && IsLive(ops[k].snapshot) ==> ops[k].snapshot.generation == g
  }

  /** Entries keep their place and their id over a whole session, and counts only grow. */
  lemma {:induction false} EntriesOutlast(st: ControllerState, ids: set<string>, ops: seq<Op>, k: nat)
    requires k < |st.ledger.entries| && StaysIn(st.ledger.generation, ops)
    requires IsLive(st.live) ==> st.live.generation == st.ledger.generation
    ensures var after := Run(st, ids, ops);
            && k < |after.ledger.entries| && after.ledger.entries[k].id == st.ledger.entries[k].id
            && st.ledger.entries[k].count <= after.ledger.entries[k].count
            && after.ledger.generation == st.ledger.generation
            && (IsLive(after.live) ==> after.live.generation == st.ledger.generation)
  {
    if ops != [] {
      EntriesOutlast(st, ids, Init(ops), k);
      var before := Run(st, ids, Init(ops));
      assert ops[|ops| - 1] == Last(ops);
      match Last(ops) {
        case SetConfig =>
        case SetLiveSnapshot(s) => EntriesStay(before.ledger, ids, Event.Freeze(s.elapsedS), k);
        case FreezeLedger => EntriesStay(before.ledger, ids, Event.Freeze(before.live.elapsedS), k);
        case Evaluate(results) => EntriesStay(before.ledger, ids, Event.Observe(results, before.live.elapsedS), k);
      }
    }
  }

  /** Once a problem is on the record, no evaluation of that session reads Ready. */
  lemma {:induction false} NeverReadyAgain(st: ControllerState, ids: set<string>, ops: seq<Op>,
                                           results: seq<DiagnosticResult>)
    requires st.ledger.entries != [] && StaysIn(st.ledger.generation, ops)
    requires IsLive(st.live) ==> st.live.generation == st.ledger.generation
    ensures !VerdictOf(results, Run(st, ids, ops + [Evaluate(results)]).ledger.entries).state.Ready?
    ensures VerdictOf(results, Run(st, ids, ops + [Evaluate(results)]).ledger.entries).state.Warn?
       <==> forall k :: 0 <= k < |results| ==> !results[k].tier.Blocker?
  {
    BlockersCount(results);
    assert Blocking(results) == {} <==> |Blocking(results)| == 0;
    assert forall k :: 0 <= k < |results| ==> (k in Blocking(results) <==> results[k].tier.Blocker?);
    assert StaysIn(st.ledger.generation, ops + [Evaluate(results)]);
    EntriesOutlast(st, ids, ops + [Evaluate(results)], 0);
  }

  // ----- The marks of the finished session -----

  datatype TimelineMark = TimelineMark(id: string, title: string, startS: real, endS: real, worst: real)

  function MarkOf(e: LedgerEntry, o: LedgerOccurrence): TimelineMark {
    TimelineMark(e.id, e.title, o.startS, o.endS, o.worst)
  }

  function MarksOf(e: LedgerEntry): (marks: seq<TimelineMark>)
    ensures |marks| == |e.occurrences|
  {
    seq(|e.occurrences|, k requires 0 <= k < |e.occurrences| => MarkOf(e, e.occurrences[k]))
  }

  function Marks(es: seq<LedgerEntry>): seq<TimelineMark> {
    if es == [] then [] else Marks(Init(es)) + MarksOf(Last(es))
  }

  method BuildMarks(frozen: seq<LedgerEntry>) returns (marks: seq<TimelineMark>)
    ensures marks == Marks(frozen)
  {
    marks := [];
    for k := 0 to |frozen|
      invariant marks == Marks(frozen[..k])
    {
      assert Init(frozen[..k + 1]) == frozen[..k];
      var e := frozen[k];
      for j := 0 to |e.occurrences|
        invariant marks == Marks(frozen[..k]) + MarksOf(e)[..j]
      {
        marks := marks + [MarkOf(e, e.occurrences[j])];
      }
    }
    assert frozen[..|frozen|] == frozen;
  }

  /** How many marks come before those of the entry `k`. */
  function MarksBefore(es: seq<LedgerEntry>, k: nat): nat
    requires k <= |es|
  {
    if k == 0 then 0 else MarksBefore(es, k - 1) + |es[k - 1].occurrences|
  }

  lemma {:induction false} MarksBeforePrefix(es: seq<LedgerEntry>, k: nat)
    requires es != [] && k < |es|
    ensures MarksBefore(Init(es), k) == MarksBefore(es, k)
  {
    if k > 0 {
      MarksBeforePrefix(es, k - 1);
    }
  }

  lemma {:induction false} MarksNumber(es: seq<LedgerEntry>)
    ensures |Marks(es)| == MarksBefore(es, |es|)
  {
    if es != [] {
      MarksNumber(Init(es));
      MarksBeforePrefix(es, |es| - 1);
    }
  }

  /** The occurrence `j` of the entry `k` has its mark, behind those of the entries before it: the entry's name, the
      occurrence's bounds and worst value. */
  lemma {:induction false} MarkTellsItsOccurrence(es: seq<LedgerEntry>, k: nat, j: nat)
    requires k < |es| && j < |es[k].occurrences|
    ensures MarksBefore(es, k) + j < |Marks(es)| == MarksBefore(es, |es|)
    ensures var mark, o := Marks(es)[MarksBefore(es, k) + j], es[k].occurrences[j];
            && mark.id == es[k].id && mark.title == es[k].title
            && mark.startS == o.startS && mark.endS == o.endS && mark.worst == o.worst
  {
    MarksNumber(es);
    MarksNumber(Init(es));
    MarksBeforePrefix(es, |es| - 1);
    if k < |es| - 1 {
      MarkTellsItsOccurrence(Init(es), k, j);
      MarksBeforePrefix(es, k);
    }
  }

  function TotalCount(es: seq<LedgerEntry>): nat {
    if es == [] then 0 else TotalCount(Init(es)) + Last(es).count
  }

  /** Every entry counts its occurrences. */
  ghost predicate Counted(es: seq<LedgerEntry>) {
    forall k :: 0 <= k < |es| ==> es[k].count == |es[k].occurrences|
  }

  lemma {:induction false} MarksNumberCounts(es: seq<LedgerEntry>)
    requires Counted(es)
    ensures |Marks(es)| == TotalCount(es)
  {
    if es != [] {
      assert es[|es| - 1].count == |es[|es| - 1].occurrences|;
      MarksNumberCounts(Init(es));
    }
  }

  lemma {:induction false} EnteredCounts(es: seq<LedgerEntry>, pending: map<string, Pending>, ids: set<string>,
                                         results: seq<DiagnosticResult>, now: real)
    ensures Counted(Entered(es, pending, ids, results, now))
  {
    if results != [] {
      EnteredCounts(es, pending, ids, Init(results), now);
    }
  }

  lemma {:induction false} ObservedCounts(st: LedgerState, ids: set<string>, results: seq<DiagnosticResult>, now: real)
    requires Counted(st.entries)
    ensures Counted(Observed(st, ids, results, now).entries)
  {
    EnteredCounts(st.entries, st.pending, ids, results, now);
    var half := Half(st, ids, results, now);
    forall k | 0 <= k < |half.entries| ensures half.entries[k].count == |half.entries[k].occurrences| {
      if k >= |st.entries| {
        assert half.entries[k] == Entered(st.entries, st.pending, ids, results, now)[k - |st.entries|];
      }
    }
  }

  lemma {:induction false} CountsAreOccurrences(ids: set<string>, ops: seq<Op>)
    ensures Counted(Run(INITIAL, ids, ops).ledger.entries)
  {
    if ops != [] {
      CountsAreOccurrences(ids, Init(ops));
      var st := Run(INITIAL, ids, Init(ops));
      if Last(ops).Evaluate? {
        ObservedCounts(CurrentLedger(st), ids, Last(ops).results, st.live.elapsedS);
      }
    }
  }

  /** On every run, the marks of the last session number the sum of the entries' counts. */
  lemma {:induction false} MarksOfARun(ids: set<string>, ops: seq<Op>)
    ensures var es := Run(INITIAL, ids, ops).ledger.entries; |Marks(es)| == TotalCount(es)
  {
    CountsAreOccurrences(ids, ops);
    MarksNumberCounts(Run(INITIAL, ids, ops).ledger.entries);
  }

  /** The ledger of a run is tidy, so its next evaluation may be made. */
  lemma {:induction false} RunIsTidy(ids: set<string>, ops: seq<Op>)
    requires Admissible(ids, ops)
    ensures Tidy(Run(INITIAL, ids, ops).ledger)
  {
    if ops != [] {
      assert ops[|ops| - 1] == Last(ops);
      RunIsTidy(ids, Init(ops));
      var st := Run(INITIAL, ids, Init(ops));
      if Last(ops).Evaluate? {
        ObservedIsTidy(CurrentLedger(st), ids, Last(ops).results, st.live.elapsedS);
      }
    }
  }

  // ----- The controller's ledger, read offline -----

  lemma {:induction false} SourcesAreDistinct(ids: set<string>, ops: seq<Op>, k: nat)
    requires Admissible(ids, ops) && k <= |ops|
    ensures forall i :: 0 <= i < |SourcesAt(ops, k)| && SourcesAt(ops, k)[i].event.Observe?
                        ==> Distinct(ids, SourcesAt(ops, k)[i].event.results)
  {
    hide Distinct;
    if k > 0 {
      assert ops[k - 1].Evaluate? ==> Distinct(ids, ops[k - 1].results);
      SourcesAreDistinct(ids, ops, k - 1);
    }
  }

  /** On every run, whatever was set, evaluated and frozen, the ledger knows of each id exactly what its
      maximal runs call for, in the stream of what it observed and when it was frozen since its last reset. */
  lemma {:induction false} RunMeetsOffline(ids: set<string>, ops: seq<Op>, id: string)
    requires Admissible(ids, ops)
    ensures MeetsOffline(TrackOf(Run(INITIAL, ids, ops).ledger, id),
                         Stream(ids, Evaluations(Events(Sources(ops))), id))
  {
    hide SourcesAt, Run, MeetsOffline, Distinct;
    var events := Events(Sources(ops));
    LedgerIsOfOneGeneration(ids, ops);
    SourcesAreDistinct(ids, ops, |ops|);
    EventsMeetOffline(ids, Run(INITIAL, ids, ops).ledger.generation, events, id);
  }
}

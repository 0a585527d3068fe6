/**
 Any number of evaluations, read offline: for each id, what the ledger holds is a function
 of the maximal runs of evaluations in which that id fired.
 */
module LedgerHistory {
  import opened Wrappers
  import opened Sequences
  import opened FiringRuns
  import opened SessionLedger

  /** One evaluation of the live checklist. */
  datatype Evaluation = Evaluation(results: seq<DiagnosticResult>, now: real)

  ghost predicate Admissible(live: set<string>, trace: seq<Evaluation>) {
    forall k :: 0 <= k < |trace| ==> Distinct(live, trace[k].results)
  }

  /** The ledger of a session after `trace`. */
  function Replay(live: set<string>, generation: nat, trace: seq<Evaluation>): LedgerState {
    if trace == [] then Fresh(generation)
    else Observed(Replay(live, generation, Init(trace)), live, Last(trace).results, Last(trace).now)
  }

  // ----- One id at a time -----

  /** What the ledger knows of one id. */
  datatype Track = Unseen | Waits(pending: Pending) | Holds(entry: LedgerEntry)

  function TrackOf(st: LedgerState, id: string): Track {
    if HasEntry(st.entries, id) then Holds(st.entries[IndexOf(st.entries, id)])
    else if id in st.pending then Waits(st.pending[id])
    else Unseen
  }

  function Step(t: Track, result: Option<DiagnosticResult>, now: real): Track {
    match result
    case None => (if t.Holds? then (if t.entry.active then Holds(Close(t.entry, now)) else t) else Unseen)
    case Some(r) =>
      if t.Holds? then Holds(Touch(t.entry, r, now))
      else
        var p := Wait(if t.Waits? then Some(t.pending) else None, r, now);
        if p.consecutive >= ENTRY_EVALUATIONS then Holds(Enter(p, r, now)) else Waits(p)
  }

  lemma {:induction false} EnteredFor(es: seq<LedgerEntry>, pending: map<string, Pending>, live: set<string>,
                                      results: seq<DiagnosticResult>, now: real, id: string)
    requires Distinct(live, results) && !HasEntry(es, id)
    ensures var r := ResultFor(live, results, id);
            var entered := Entered(es, pending, live, results, now);
            var waiting := Waiting(es, pending, live, results, now);
            if r.None? then !HasEntry(entered, id) && Lookup(waiting, id) == Lookup(pending, id)
            else
              var p := Wait(Lookup(pending, id), r.value, now);
              if p.consecutive >= ENTRY_EVALUATIONS
              then HasEntry(entered, id) && entered[IndexOf(entered, id)] == Enter(p, r.value, now) && id !in waiting
              else !HasEntry(entered, id) && Lookup(waiting, id) == Some(p)
  {
    hide Wait, Enter, IndexOf;
    if results != [] {
      EnteredFor(es, pending, live, Init(results), now, id);
      var r := Last(results);
      var before := Entered(es, pending, live, Init(results), now);
      var p := Wait(Lookup(pending, r.id), r, now);
      IndexOfAppend(before, [Enter(p, r, now)], id);
      IndexOfEntered(p, r, now, id);
      if Admitted(live, r) && r.id == id {
        assert ResultFor(live, Init(results), id).None?;
      }
    }
  }

  lemma {:induction false} IndexOfEntered(p: Pending, r: DiagnosticResult, now: real, id: string)
    ensures IndexOf([Enter(p, r, now)], id) == if r.id == id then 0 else 1
    ensures IndexOf([], id) == 0
  {
    assert [Enter(p, r, now)][1..] == [];
  }

  /** Where an id stands in the ledger before anything is closed or dropped. */
  lemma {:induction false} HalfIndex(st: LedgerState, live: set<string>, results: seq<DiagnosticResult>, now: real,
                                     id: string)
    ensures var entered := Entered(st.entries, st.pending, live, results, now);
            IndexOf(Observed(st, live, results, now).entries, id)
            == if HasEntry(st.entries, id) then IndexOf(st.entries, id) else |st.entries| + IndexOf(entered, id)
  {
    hide ResultFor, Touch, Close, Entered, Waiting;
    var half := Half(st, live, results, now);
    var touched, entered := Touched(st.entries, live, results, now),
                            Entered(st.entries, st.pending, live, results, now);
    QuietedSameIds(half.entries, live, results, now);
    IndexOfSameIds(Observed(st, live, results, now).entries, half.entries, id);
    IndexOfAppend(touched, entered, id);
    IndexOfSameIds(touched, st.entries, id);
  }

  lemma {:induction false} QuietedSameIds(es: seq<LedgerEntry>, live: set<string>, results: seq<DiagnosticResult>,
                                          now: real)
    ensures forall k :: 0 <= k < |es| ==> Quieted(es, live, results, now)[k].id == es[k].id
  {
  }

  lemma {:induction false} ObservedHeldId(st: LedgerState, live: set<string>, results: seq<DiagnosticResult>,
                                          now: real, id: string)
    requires HasEntry(st.entries, id)
    ensures TrackOf(Observed(st, live, results, now), id) == Step(TrackOf(st, id), ResultFor(live, results, id), now)
  {
    hide ResultFor, Close, Entered, Waiting;
    HalfIndex(st, live, results, now, id);
    var k := IndexOf(st.entries, id);
    assert Half(st, live, results, now).entries[k] == Touched(st.entries, live, results, now)[k];
  }

  lemma {:induction false} ObservedOtherId(st: LedgerState, live: set<string>, results: seq<DiagnosticResult>,
                                           now: real, id: string)
    requires Distinct(live, results) && !HasEntry(st.entries, id)
    ensures TrackOf(Observed(st, live, results, now), id) == Step(TrackOf(st, id), ResultFor(live, results, id), now)
  {
    hide ResultFor, Touch, Close, Entered, Waiting, RecordWorst, Distinct;
    HalfIndex(st, live, results, now, id);
    EnteredFor(st.entries, st.pending, live, results, now, id);
    var entered := Entered(st.entries, st.pending, live, results, now);
    var k := IndexOf(entered, id);
    if k < |entered| {
      assert Half(st, live, results, now).entries[|st.entries| + k] == entered[k];
    }
  }

  /** One evaluation moves each id on its own, whatever the others do. */
  lemma {:induction false} ObservedOneId(st: LedgerState, live: set<string>, results: seq<DiagnosticResult>,
                                         now: real, id: string)
    requires Distinct(live, results)
    ensures TrackOf(Observed(st, live, results, now), id) == Step(TrackOf(st, id), ResultFor(live, results, id), now)
  {
    hide Observed, Step, TrackOf, ResultFor, Distinct;
    if HasEntry(st.entries, id) {
      ObservedHeldId(st, live, results, now, id);
    } else {
      ObservedOtherId(st, live, results, now, id);
    }
  }

  /** One id's own stream: its result at each evaluation, if it fired. */
  datatype Sample = Sample(result: Option<DiagnosticResult>, now: real)

  function Stream(live: set<string>, trace: seq<Evaluation>, id: string): (stream: seq<Sample>)
    ensures |stream| == |trace|
  {
    seq(|trace|, k requires 0 <= k < |trace| => Sample(ResultFor(live, trace[k].results, id), trace[k].now))
  }

  /** What is in the stream of `id`: the result of each evaluation that is a measured problem of that id, for an
      id on the allow-list. Facts, optimisations and checks of the configuration are never in it. */
  lemma {:induction false} StreamReads(live: set<string>, trace: seq<Evaluation>, id: string, k: nat,
                                       r: DiagnosticResult)
    requires Admissible(live, trace) && k < |trace|
    ensures Stream(live, trace, id)[k].now == trace[k].now
    ensures Stream(live, trace, id)[k].result == Some(r)
       <==> r in trace[k].results && r.tier == MeasuredProblem && r.id == id && id in live
  {
    hide Distinct;
    assert Distinct(live, trace[k].results);
    TheOneResult(live, trace[k].results, id, r);
  }

  lemma {:induction false} TheOneResult(live: set<string>, results: seq<DiagnosticResult>, id: string,
                                        r: DiagnosticResult)
    requires Distinct(live, results)
    ensures ResultFor(live, results, id) == Some(r) <==> r in results && Admitted(live, r) && r.id == id
  {
    if results != [] {
      TheOneResult(live, Init(results), id, r);
      assert r in results <==> r in Init(results) || r == Last(results);
      assert forall i :: 0 <= i < |results| - 1 ==> Init(results)[i] == results[i];
    }
  }

  function Fires(stream: seq<Sample>): (fires: seq<bool>)
    ensures |fires| == |stream|
  {
    seq(|stream|, k requires 0 <= k < |stream| => stream[k].result.Some?)
  }

  // ----- The offline reading -----

  /** The largest value measured at the evaluations `lo <= k < hi`. */
  function MaxOver(stream: seq<Sample>, lo: nat, hi: nat): Option<real>
    requires hi <= |stream|
  {
    if hi <= lo then None
    else
      var before := MaxOver(stream, lo, hi - 1);
      var r := stream[hi - 1].result;
      if r.None? || r.value.measuredValue.None? then before
      else if before.None? then r.value.measuredValue
      else Some(Max(before.value, r.value.measuredValue.value))
  }

  ghost predicate MeasuredAt(stream: seq<Sample>, k: nat, v: real)
    requires k < |stream|
  {
    stream[k].result.Some? && stream[k].result.value.measuredValue == Some(v)
  }

  /** Does the evaluation `k` fire with a text and no number? */
  ghost predicate SpeaksAt(stream: seq<Sample>, k: nat)
    requires k < |stream|
  {
    && stream[k].result.Some? && stream[k].result.value.measuredValue.None?
    && stream[k].result.value.currentValue != ""
  }

  /** Is `text` that of the first evaluation from `lo` on that speaks, or empty where none does? */
  ghost predicate IsFirstText(text: string, stream: seq<Sample>, lo: nat) {
    || (text == "" && forall k :: lo <= k < |stream| ==> !SpeaksAt(stream, k))
    || (exists k :: lo <= k < |stream| && SpeaksAt(stream, k) && text == stream[k].result.value.currentValue
                    && forall j :: lo <= j < k ==> !SpeaksAt(stream, j))
  }

  /** Is `k` the first evaluation from `lo` on that measured the largest value measured there? */
  ghost predicate ReachesFirst(stream: seq<Sample>, lo: nat, k: nat) {
    && lo <= k < |stream| && stream[k].result.Some? && stream[k].result.value.measuredValue.Some?
    && var max := stream[k].result.value.measuredValue.value;
    && (forall j, v :: lo <= j < |stream| && MeasuredAt(stream, j, v) ==> v <= max)
    && (forall j, v :: lo <= j < k && MeasuredAt(stream, j, v) ==> v < max)
  }

  /** The value of the evaluation `k`, with its text or, where it has none, the next one given without a number. */
  ghost predicate IsWorstOf(w: Worst, stream: seq<Sample>, lo: nat, k: nat) {
    && ReachesFirst(stream, lo, k) && w.value == stream[k].result.value.measuredValue
    && if stream[k].result.value.currentValue != "" then w.text == stream[k].result.value.currentValue
       else IsFirstText(w.text, stream, k + 1)
  }

  /** Is `w` the worst seen from `lo` on? Its value is the largest measured, first reached at some `k`. Where
      nothing was measured, there is only the first text given. */
  ghost predicate IsWorst(w: Worst, stream: seq<Sample>, lo: nat) {
    if w.value.None? then
      && (forall k, v :: lo <= k < |stream| ==> !MeasuredAt(stream, k, v))
      && IsFirstText(w.text, stream, lo)
    else
      exists k: nat :: IsWorstOf(w, stream, lo, k)
  }

  /** Has the run ended, by an evaluation without the id or by the freeze? */
  predicate Ended(stream: seq<Sample>, r: Run, frozen: Option<real>) {
    r.hi < |stream| || frozen.Some?
  }

  function StartOf(stream: seq<Sample>, r: Run): real
    requires r.lo < |stream|
  {
    stream[r.lo].now
  }

  /** A run ends at the first evaluation without the id, or at the freeze; an open one reads its start. */
  function EndOf(stream: seq<Sample>, r: Run, frozen: Option<real>): real
    requires r.lo < |stream|
  {
    if r.hi < |stream| then stream[r.hi].now else if frozen.Some? then frozen.value else stream[r.lo].now
  }

  /** The worst value of one occurrence. Only a value of the two evaluations that earned the entry
      replaces the zero an occurrence starts from; every other value has to beat it. */
  function OccurrenceWorst(stream: seq<Sample>, r: Run, entering: bool): real
    requires r.lo < r.hi <= |stream| && (entering ==> IsLong(r, ENTRY_EVALUATIONS))
  {
    if entering && MaxOver(stream, r.lo, r.lo + ENTRY_EVALUATIONS).Some?
    then MaxOver(stream, r.lo, r.hi).GetOr(0.0)
    else Max(0.0, MaxOver(stream, r.lo, r.hi).GetOr(0.0))
  }

  function OccurrenceOf(stream: seq<Sample>, r: Run, entering: bool, frozen: Option<real>): LedgerOccurrence
    requires r.lo < r.hi <= |stream| && (entering ==> IsLong(r, ENTRY_EVALUATIONS))
  {
    LedgerOccurrence(StartOf(stream, r), EndOf(stream, r, frozen), OccurrenceWorst(stream, r, entering))
  }

  ghost predicate Within(stream: seq<Sample>, runs: seq<Run>) {
    forall k :: 0 <= k < |runs| ==> runs[k].lo < runs[k].hi <= |stream|
  }

  /** The time spent in the runs that have ended. */
  ghost function TotalOver(stream: seq<Sample>, runs: seq<Run>, frozen: Option<real>): real
    requires Within(stream, runs)
  {
    if runs == [] then 0.0
    else
      TotalOver(stream, Init(runs), frozen)
      + if Ended(stream, Last(runs), frozen)
        then Max(0.0, EndOf(stream, Last(runs), frozen) - StartOf(stream, Last(runs))) else 0.0
  }

  ghost function OccurrencesOver(stream: seq<Sample>, runs: seq<Run>, frozen: Option<real>)
    : (occurrences: seq<LedgerOccurrence>)
    requires Within(stream, runs) && (runs != [] ==> IsLong(runs[0], ENTRY_EVALUATIONS))
    ensures |occurrences| == |runs|
  {
    seq(|runs|, k requires 0 <= k < |runs| => OccurrenceOf(stream, runs[k], k == 0, frozen))
  }

  /** The entry that the recorded runs of one id call for. */
  ghost predicate RecordsRuns(e: LedgerEntry, stream: seq<Sample>, runs: seq<Run>, frozen: Option<real>) {
    && runs != [] && Within(stream, runs) && IsLong(runs[0], ENTRY_EVALUATIONS)
    && e.count == |runs|
    && e.occurrences == OccurrencesOver(stream, runs, frozen)
    && e.active == !Ended(stream, Last(runs), frozen)
    && e.firstSeenS == StartOf(stream, runs[0])
    && e.lastSeenS == stream[Last(runs).hi - 1].now
    && e.totalActiveS == TotalOver(stream, runs, frozen)
    && IsWorst(e.worst, stream, runs[0].lo)
    && DescribedBy(e, stream[runs[0].lo + 1].result)
  }

  /** The wording of an entry is that of the evaluation that tipped it over. */
  predicate DescribedBy(e: LedgerEntry, result: Option<DiagnosticResult>) {
    result.Some? &&
    var r := result.value;
    var assisted := r.fixAction.Some? && r.fixAction.value.safety.Assisted?;
    && e.id == r.id && e.title == r.title && e.logExcerpt == r.detail && e.compensation == r.compensation
    && e.summary == (if r.impact == "" then r.summary else r.impact)
    && e.budget == r.budgetValue && e.unit == r.valueUnit
    && e.fixId == (if assisted then r.fixAction.value.id else "")
    && e.fixLabel == (if assisted then r.fixAction.value.caption else "")
  }

  /** The maximal runs from the first one of two evaluations on. */
  function Recorded(stream: seq<Sample>): seq<Run> {
    FromFirstLong(Runs(Fires(stream)), ENTRY_EVALUATIONS)
  }

  /** What the ledger must know of an id whose stream is `stream`. */
  ghost predicate MeetsOffline(t: Track, stream: seq<Sample>) {
    if Recorded(stream) != [] then t.Holds? && RecordsRuns(t.entry, stream, Recorded(stream), None)
    else if stream != [] && Last(stream).result.Some? then
      var r := Last(stream).result.value;
      t == Waits(Pending(1, Last(stream).now, Worst(r.measuredValue, r.currentValue)))
    else t == Unseen
  }

  // ----- Looking further along a stream leaves what lies behind -----

  lemma {:induction false} OverPrefix(stream: seq<Sample>, lo: nat, hi: nat)
    requires stream != [] && hi < |stream|
    ensures MaxOver(Init(stream), lo, hi) == MaxOver(stream, lo, hi)
  {
    if lo < hi {
      OverPrefix(stream, lo, hi - 1);
    }
  }

  lemma {:induction false} FirstTextNext(text: string, stream: seq<Sample>, lo: nat)
    requires stream != [] && lo < |stream| && IsFirstText(text, Init(stream), lo)
    ensures IsFirstText(if text == "" && SpeaksAt(stream, |stream| - 1) then Last(stream).result.value.currentValue
                        else text, stream, lo)
  {
    assert forall k :: 0 <= k < |stream| - 1 ==> SpeaksAt(Init(stream), k) == SpeaksAt(stream, k);
  }

  lemma {:induction false} ReachesFirstPrefix(stream: seq<Sample>, lo: nat, k: nat)
    requires stream != [] && ReachesFirst(Init(stream), lo, k)
    requires Last(stream).result.Some? && Last(stream).result.value.measuredValue.Some?
             ==> Last(stream).result.value.measuredValue.value <= stream[k].result.value.measuredValue.value
    ensures lo <= k < |stream| - 1 && ReachesFirst(stream, lo, k)
  {
    assert forall j, x :: 0 <= j < |stream| - 1 ==> MeasuredAt(Init(stream), j, x) == MeasuredAt(stream, j, x);
  }

  lemma {:induction false} NoTextYet(stream: seq<Sample>)
    ensures IsFirstText("", stream, |stream|)
  {
  }

  /** A larger value, or the first one, is a new worst. */
  lemma {:induction false} NewWorst(w: Worst, stream: seq<Sample>, lo: nat, v: real)
    requires stream != [] && lo < |stream| && IsWorst(w, Init(stream), lo)
    requires MeasuredAt(stream, |stream| - 1, v) && (w.value.Some? ==> w.value.value < v)
    ensures IsWorst(Worst(Some(v), Last(stream).result.value.currentValue), stream, lo)
  {
    hide IsFirstText;
    var k := |stream| - 1;
    forall j, x | lo <= j < k && MeasuredAt(stream, j, x) ensures x < v {
      assert MeasuredAt(Init(stream), j, x);
    }
    NoTextYet(stream);
    assert IsWorstOf(Worst(Some(v), Last(stream).result.value.currentValue), stream, lo, k);
  }

  /** Without one the value stays, and an empty text takes the first one given without a number. */
  lemma {:induction false} SameWorst(w: Worst, stream: seq<Sample>, lo: nat)
    requires stream != [] && lo < |stream| && IsWorst(w, Init(stream), lo)
    requires Last(stream).result.Some? && Last(stream).result.value.measuredValue.Some?
             ==> w.value.Some? && Last(stream).result.value.measuredValue.value <= w.value.value
    ensures IsWorst(Worst(w.value, if w.text == "" && SpeaksAt(stream, |stream| - 1)
                                   then Last(stream).result.value.currentValue else w.text), stream, lo)
  {
    hide IsFirstText;
    if w.value.None? {
      forall k, v | lo <= k < |stream| ensures !MeasuredAt(stream, k, v) {
        assert k < |stream| - 1 ==> !MeasuredAt(Init(stream), k, v);
      }
      FirstTextNext(w.text, stream, lo);
    } else {
      var k: nat :| IsWorstOf(w, Init(stream), lo, k);
      ReachesFirstPrefix(stream, lo, k);
      if stream[k].result.value.currentValue == "" {
        FirstTextNext(w.text, stream, k + 1);
      }
      assert IsWorstOf(Worst(w.value, if w.text == "" && SpeaksAt(stream, |stream| - 1)
                                      then Last(stream).result.value.currentValue else w.text), stream, lo, k);
    }
  }

  lemma {:induction false} WorstNext(w: Worst, stream: seq<Sample>, lo: nat)
    requires stream != [] && lo < |stream| && IsWorst(w, Init(stream), lo)
    ensures IsWorst(if Last(stream).result.Some? then RecordWorst(w, Last(stream).result.value) else w, stream, lo)
  {
    hide IsWorst;
    var result := Last(stream).result;
    if result.Some? && result.value.measuredValue.Some?
       && (w.value.None? || result.value.measuredValue.value > w.value.value) {
      NewWorst(w, stream, lo, result.value.measuredValue.value);
    } else {
      SameWorst(w, stream, lo);
    }
  }

  lemma {:induction false} NothingYet(stream: seq<Sample>)
    ensures IsWorst(NOTHING_YET, stream, |stream|)
  {
  }

  lemma {:induction false} TotalPrefix(stream: seq<Sample>, runs: seq<Run>)
    requires stream != [] && Within(Init(stream), runs) && forall k :: 0 <= k < |runs| ==> runs[k].hi < |stream| - 1
    ensures TotalOver(Init(stream), runs, None) == TotalOver(stream, runs, None)
  {
    if runs != [] {
      TotalPrefix(stream, Init(runs));
    }
  }

  lemma {:induction false} OccurrencePrefix(stream: seq<Sample>, r: Run, entering: bool)
    requires stream != [] && r.lo < r.hi < |stream| - 1 && (entering ==> IsLong(r, ENTRY_EVALUATIONS))
    ensures OccurrenceOf(Init(stream), r, entering, None) == OccurrenceOf(stream, r, entering, None)
  {
    OverPrefix(stream, r.lo, r.hi);
    OverPrefix(stream, r.lo, r.lo + ENTRY_EVALUATIONS);
  }

  lemma {:induction false} RunsWithin(stream: seq<Sample>)
    ensures Decomposes(Fires(stream), Runs(Fires(stream)))
    ensures Within(stream, Runs(Fires(stream))) && Within(stream, Recorded(stream)) && Apart(Recorded(stream))
    ensures Recorded(stream) != [] ==> Last(Recorded(stream)) == Last(Runs(Fires(stream)))
  {
    hide Runs;
    RunsDecompose(Fires(stream));
    forall k | 0 <= k < |Runs(Fires(stream))|
      ensures Runs(Fires(stream))[k].lo < Runs(Fires(stream))[k].hi <= |stream|
    {
      assert IsMaximalRun(Fires(stream), Runs(Fires(stream))[k]);
    }
  }

  /** How the recorded runs change with one more evaluation. */
  lemma {:induction false} RecordedNext(stream: seq<Sample>)
    requires stream != []
    ensures var before, n, firing := Recorded(Init(stream)), |stream| - 1, Last(stream).result.Some?;
            Recorded(stream)
            == if !firing || before != [] then Continue(before, n, firing)
               else if n > 0 && stream[n - 1].result.Some? then [Run(n - 1, n + 1)]
               else []
  {
    var n := |stream| - 1;
    assert Fires(Init(stream)) == Init(Fires(stream));
    RunsWithin(Init(stream));
    var runs := Runs(Fires(Init(stream)));
    FromFirstLongNext(runs, n, Last(stream).result.Some?, ENTRY_EVALUATIONS);
    if Recorded(Init(stream)) == [] && runs != [] {
      assert runs[|runs| - 1].lo < runs[|runs| - 1].hi && !IsLong(runs[|runs| - 1], ENTRY_EVALUATIONS);
    }
  }

  // ----- Each kind of step keeps the ledger in line with the runs -----

  /** The recorded runs but the last, whose occurrences no later evaluation changes. */
  lemma {:induction false} EarlierRuns(stream: seq<Sample>, runs: seq<Run>)
    requires stream != [] && Within(Init(stream), runs) && (runs != [] ==> IsLong(runs[0], ENTRY_EVALUATIONS))
    requires forall k :: 0 <= k < |runs| ==> runs[k].hi < |stream| - 1
    ensures OccurrencesOver(Init(stream), runs, None) == OccurrencesOver(stream, runs, None)
    ensures TotalOver(Init(stream), runs, None) == TotalOver(stream, runs, None)
  {
    forall k | 0 <= k < |runs|
      ensures OccurrenceOf(Init(stream), runs[k], k == 0, None) == OccurrenceOf(stream, runs[k], k == 0, None)
    {
      OccurrencePrefix(stream, runs[k], k == 0);
    }
    TotalPrefix(stream, runs);
  }

  lemma {:induction false} LastOccurrence(stream: seq<Sample>, runs: seq<Run>, frozen: Option<real>)
    requires runs != [] && Within(stream, runs) && IsLong(runs[0], ENTRY_EVALUATIONS)
    ensures OccurrencesOver(stream, runs, frozen)
         == OccurrencesOver(stream, Init(runs), frozen) + [OccurrenceOf(stream, Last(runs), |runs| == 1, frozen)]
  {
  }

  lemma {:induction false} QuietOccurrences(stream: seq<Sample>, runs: seq<Run>)
    requires stream != [] && Last(stream).result.None? && Apart(runs)
    requires runs != [] && Within(Init(stream), runs) && IsLong(runs[0], ENTRY_EVALUATIONS)
    requires Last(runs).hi == |stream| - 1
    ensures var before := OccurrencesOver(Init(stream), runs, None);
            var now := Last(stream).now;
            && runs[0].lo + 1 < |stream| - 1
            && OccurrencesOver(stream, runs, None) == Init(before) + [Last(before).(endS := now)]
            && TotalOver(stream, runs, None)
               == TotalOver(Init(stream), runs, None) + Max(0.0, now - Last(before).startS)
  {
    hide MaxOver;
    EarlierRuns(stream, Init(runs));
    LastOccurrence(Init(stream), runs, None);
    LastOccurrence(stream, runs, None);
    OverPrefix(stream, Last(runs).lo, |stream| - 1);
    if |runs| == 1 {
      OverPrefix(stream, runs[0].lo, runs[0].lo + ENTRY_EVALUATIONS);
    }
  }

  /** A quiet evaluation closes the open run at its own time and leaves a closed one alone. */
  lemma {:induction false} QuietMeets(e: LedgerEntry, stream: seq<Sample>, runs: seq<Run>)
    requires stream != [] && Last(stream).result.None? && Apart(runs)
    requires RecordsRuns(e, Init(stream), runs, None)
    ensures RecordsRuns(if e.active then Close(e, Last(stream).now) else e, stream, runs, None)
  {
    hide OccurrencesOver, TotalOver, MaxOver, RecordWorst, IsWorst;
    WorstNext(e.worst, stream, runs[0].lo);
    if e.active {
      QuietOccurrences(stream, runs);
    } else {
      EarlierRuns(stream, runs);
    }
  }

  lemma {:induction false} MaxStays(stream: seq<Sample>, lo: nat, mid: nat, hi: nat)
    requires mid <= hi <= |stream| && MaxOver(stream, lo, mid).Some?
    ensures MaxOver(stream, lo, hi).Some?
  {
    if mid < hi {
      MaxStays(stream, lo, mid, hi - 1);
    }
  }

  lemma {:induction false} OccurrenceGrows(stream: seq<Sample>, lo: nat, entering: bool)
    requires lo + 1 < |stream| && Last(stream).result.Some?
    requires entering ==> lo + ENTRY_EVALUATIONS < |stream|
    ensures OccurrenceOf(stream, Run(lo, |stream|), entering, None)
         == WorsenOccurrence(OccurrenceOf(Init(stream), Run(lo, |stream| - 1), entering, None),
                             Last(stream).result.value)
  {
    var n := |stream| - 1;
    OverPrefix(stream, lo, n);
    if entering {
      OverPrefix(stream, lo, lo + ENTRY_EVALUATIONS);
      if MaxOver(stream, lo, lo + ENTRY_EVALUATIONS).Some? {
        MaxStays(stream, lo, lo + ENTRY_EVALUATIONS, n);
      }
    }
  }

  lemma {:induction false} GrowOccurrences(stream: seq<Sample>, runs: seq<Run>)
    requires stream != [] && Last(stream).result.Some? && Apart(runs)
    requires runs != [] && Within(Init(stream), runs) && IsLong(runs[0], ENTRY_EVALUATIONS)
    requires Last(runs).hi == |stream| - 1
    ensures var grown := Init(runs) + [Run(Last(runs).lo, |stream|)];
            var before := OccurrencesOver(Init(stream), runs, None);
            && Within(stream, grown) && IsLong(grown[0], ENTRY_EVALUATIONS)
            && grown[0].lo == runs[0].lo && runs[0].lo + 1 < |stream| - 1
            && OccurrencesOver(stream, grown, None)
               == Init(before) + [WorsenOccurrence(Last(before), Last(stream).result.value)]
            && TotalOver(stream, grown, None) == TotalOver(Init(stream), runs, None)
  {
    var grown := Init(runs) + [Run(Last(runs).lo, |stream|)];
    assert Init(grown) == Init(runs) && Last(grown) == Run(Last(runs).lo, |stream|);
    EarlierRuns(stream, Init(runs));
    LastOccurrence(Init(stream), runs, None);
    assert grown[0].lo == runs[0].lo;
    LastOccurrence(stream, grown, None);
    OccurrenceGrows(stream, Last(runs).lo, |runs| == 1);
  }

  /** A firing evaluation goes on with the open run. */
  lemma {:induction false} GrowMeets(e: LedgerEntry, stream: seq<Sample>, runs: seq<Run>)
    requires stream != [] && Last(stream).result.Some? && Apart(runs)
    requires RecordsRuns(e, Init(stream), runs, None) && e.active
    ensures RecordsRuns(Touch(e, Last(stream).result.value, Last(stream).now), stream,
                        Init(runs) + [Run(Last(runs).lo, |stream|)], None)
  {
    hide OccurrencesOver, MaxOver, WorsenOccurrence, RecordWorst, TotalOver, Apart, IsLong, IsWorst;
    WorstNext(e.worst, stream, runs[0].lo);
    GrowOccurrences(stream, runs);
  }

  lemma {:induction false} ReopenOccurrences(stream: seq<Sample>, runs: seq<Run>)
    requires stream != [] && Last(stream).result.Some?
    requires runs != [] && Within(Init(stream), runs) && IsLong(runs[0], ENTRY_EVALUATIONS)
    requires forall k :: 0 <= k < |runs| ==> runs[k].hi < |stream| - 1
    ensures var grown := runs + [Run(|stream| - 1, |stream|)];
            var now := Last(stream).now;
            && Within(stream, grown) && IsLong(grown[0], ENTRY_EVALUATIONS) && grown[0].lo == runs[0].lo
            && OccurrencesOver(stream, grown, None)
               == OccurrencesOver(Init(stream), runs, None)
                  + [WorsenOccurrence(LedgerOccurrence(now, now, 0.0), Last(stream).result.value)]
            && TotalOver(stream, grown, None) == TotalOver(Init(stream), runs, None)
  {
    var n := |stream| - 1;
    var grown := runs + [Run(n, n + 1)];
    assert Init(grown) == runs && Last(grown) == Run(n, n + 1) && grown[0] == runs[0];
    EarlierRuns(stream, runs);
    LastOccurrence(stream, grown, None);
    assert MaxOver(stream, n, n) == None;
  }

  /** A firing evaluation after a quiet one opens a new run, of one evaluation. */
  lemma {:induction false} ReopenMeets(e: LedgerEntry, stream: seq<Sample>, runs: seq<Run>)
    requires stream != [] && Last(stream).result.Some? && Apart(runs)
    requires RecordsRuns(e, Init(stream), runs, None) && !e.active
    ensures RecordsRuns(Touch(e, Last(stream).result.value, Last(stream).now), stream,
                        runs + [Run(|stream| - 1, |stream|)], None)
  {
    hide OccurrencesOver, MaxOver, WorsenOccurrence, RecordWorst, TotalOver, IsLong, Apart, Touch, IsWorst;
    TouchReopens(e, Last(stream).result.value, Last(stream).now);
    WorstNext(e.worst, stream, runs[0].lo);
    AllEndBefore(runs, |stream| - 1);
    ReopenOccurrences(stream, runs);
    assert Last(runs + [Run(|stream| - 1, |stream|)]) == Run(|stream| - 1, |stream|);
  }

  /** What a touch makes of a quiet entry. */
  lemma {:induction false} TouchReopens(e: LedgerEntry, r: DiagnosticResult, now: real)
    requires !e.active
    ensures Touch(e, r, now)
         == e.(active := true, count := e.count + 1, lastSeenS := now, worst := RecordWorst(e.worst, r),
               occurrences := e.occurrences + [WorsenOccurrence(LedgerOccurrence(now, now, 0.0), r)])
  {
    hide RecordWorst, WorsenOccurrence;
    assert Init(e.occurrences + [LedgerOccurrence(now, now, 0.0)]) == e.occurrences;
  }

  lemma {:induction false} AllEndBefore(runs: seq<Run>, n: nat)
    requires runs != [] && Apart(runs) && Last(runs).lo < Last(runs).hi < n
    ensures forall k :: 0 <= k < |runs| ==> runs[k].hi < n
  {
    forall k | 0 <= k < |runs| ensures runs[k].hi < n {
      assert k < |runs| - 1 ==> runs[k].hi < runs[|runs| - 1].lo;
    }
  }

  /** A firing evaluation of an entered id goes on with its last run or opens a new one. */
  lemma {:induction false} FiringMeets(e: LedgerEntry, stream: seq<Sample>, runs: seq<Run>)
    requires stream != [] && Last(stream).result.Some? && Apart(runs)
    requires RecordsRuns(e, Init(stream), runs, None)
    ensures RecordsRuns(Touch(e, Last(stream).result.value, Last(stream).now), stream,
                        Continue(runs, |stream| - 1, true), None)
  {
    hide OccurrencesOver, TotalOver, IsWorst, DescribedBy, Touch;
    if e.active {
      GrowMeets(e, stream, runs);
    } else {
      ReopenMeets(e, stream, runs);
    }
  }

  /** The second evaluation of the first long run makes the entry. */
  lemma {:induction false} EnterMeets(p: Pending, stream: seq<Sample>)
    requires |stream| >= 2 && Last(stream).result.Some? && stream[|stream| - 2].result.Some?
    requires var first := stream[|stream| - 2].result.value;
             p == Pending(1, stream[|stream| - 2].now, Worst(first.measuredValue, first.currentValue))
    ensures var r := Last(stream).result.value;
            RecordsRuns(Enter(Wait(Some(p), r, Last(stream).now), r, Last(stream).now), stream,
                        [Run(|stream| - 2, |stream|)], None)
  {
    hide IsWorst;
    var n := |stream| - 2;
    TwoAreWorst(stream);
    assert MaxOver(stream, n, n) == None && MaxOver(stream, n, n + 1) == p.worst.value;
    LastOccurrence(stream, [Run(n, n + 2)], None);
    assert TotalOver(stream, [Run(n, n + 2)], None) == 0.0;
  }

  /** What two evaluations in a row measured. */
  lemma {:induction false} TwoAreWorst(stream: seq<Sample>)
    requires |stream| >= 2 && Last(stream).result.Some? && stream[|stream| - 2].result.Some?
    ensures var first := stream[|stream| - 2].result.value;
            IsWorst(RecordWorst(Worst(first.measuredValue, first.currentValue), Last(stream).result.value), stream,
                    |stream| - 2)
  {
    hide IsWorst;
    var n := |stream| - 2;
    NothingYet(Init(Init(stream)));
    WorstNext(NOTHING_YET, Init(stream), n);
    WorstNext(RecordWorst(NOTHING_YET, stream[n].result.value), stream, n);
  }

  lemma {:induction false} StepMeets(t: Track, stream: seq<Sample>)
    requires stream != [] && MeetsOffline(t, Init(stream))
    ensures MeetsOffline(Step(t, Last(stream).result, Last(stream).now), stream)
  {
    hide RecordsRuns, Recorded, Touch, Close, Apart;
    var runs := Recorded(Init(stream));
    RunsWithin(Init(stream));
    RecordedNext(stream);
    if runs != [] {
      if Last(stream).result.None? {
        QuietMeets(t.entry, stream, runs);
      } else {
        FiringMeets(t.entry, stream, runs);
      }
    } else if t.Waits? && Last(stream).result.Some? {
      EnterMeets(t.pending, stream);
    }
  }

  // ----- The main results -----

  lemma {:induction false} ReplayIsTidy(live: set<string>, generation: nat, trace: seq<Evaluation>)
    requires Admissible(live, trace)
    ensures Tidy(Replay(live, generation, trace))
  {
    if trace != [] {
      assert Distinct(live, trace[|trace| - 1].results);
      ReplayIsTidy(live, generation, Init(trace));
      ObservedIsTidy(Replay(live, generation, Init(trace)), live, Last(trace).results, Last(trace).now);
    }
  }

  lemma {:induction false} StreamInit(live: set<string>, trace: seq<Evaluation>, id: string)
    requires trace != []
    ensures Init(Stream(live, trace, id)) == Stream(live, Init(trace), id)
    ensures Last(Stream(live, trace, id)) == Sample(ResultFor(live, Last(trace).results, id), Last(trace).now)
  {
  }

  lemma {:induction false} ReplayOneId(live: set<string>, generation: nat, trace: seq<Evaluation>, id: string)
    requires trace != [] && Admissible(live, trace)
    ensures Admissible(live, Init(trace))
    ensures TrackOf(Replay(live, generation, trace), id)
         == Step(TrackOf(Replay(live, generation, Init(trace)), id),
                 ResultFor(live, Last(trace).results, id), Last(trace).now)
  {
    hide Observed, Step, TrackOf, ResultFor, Distinct;
    assert Distinct(live, trace[|trace| - 1].results);
    ObservedOneId(Replay(live, generation, Init(trace)), live, Last(trace).results, Last(trace).now, id);
  }

  /** After any evaluations, the online ledger knows of each id what the offline reading calls for. */
  lemma {:induction false} ReplayMeetsOffline(live: set<string>, generation: nat, trace: seq<Evaluation>, id: string)
    requires Admissible(live, trace)
    ensures MeetsOffline(TrackOf(Replay(live, generation, trace), id), Stream(live, trace, id))
  {
    if trace != [] {
      ReplayOneId(live, generation, trace, id);
      StreamInit(live, trace, id);
      ReplayMeetsOffline(live, generation, Init(trace), id);
      StepMeets(TrackOf(Replay(live, generation, Init(trace)), id), Stream(live, trace, id));
    }
  }

  /** Freezing ends the open run of every id at the given time and forgets the ids still waiting. */
  lemma {:induction false} FreezeMeetsOffline(live: set<string>, generation: nat, trace: seq<Evaluation>, end: real,
                                              id: string)
    requires Admissible(live, trace)
    ensures var stream := Stream(live, trace, id);
            var t := TrackOf(Frozen(Replay(live, generation, trace), end), id);
            if Recorded(stream) != [] then t.Holds? && RecordsRuns(t.entry, stream, Recorded(stream), Some(end))
            else t == Unseen
  {
    hide RecordsRuns, Recorded, Replay, Stream, RecordWorst;
    var st := Replay(live, generation, trace);
    var stream := Stream(live, trace, id);
    ReplayMeetsOffline(live, generation, trace, id);
    IndexOfSameIds(Frozen(st, end).entries, st.entries, id);
    if Recorded(stream) != [] {
      RunsWithin(stream);
      FreezeMeets(TrackOf(st, id).entry, stream, Recorded(stream), end);
    }
  }

  lemma {:induction false} FreezeMeets(e: LedgerEntry, stream: seq<Sample>, runs: seq<Run>, end: real)
    requires RecordsRuns(e, stream, runs, None) && Apart(runs)
    ensures RecordsRuns(if e.active then Close(e, end) else e, stream, runs, Some(end))
  {
    EndedAlready(stream, Init(runs), end);
    LastOccurrence(stream, runs, None);
    LastOccurrence(stream, runs, Some(end));
  }

  lemma {:induction false} EndedAlready(stream: seq<Sample>, runs: seq<Run>, end: real)
    requires Within(stream, runs) && (runs != [] ==> IsLong(runs[0], ENTRY_EVALUATIONS))
    requires forall k :: 0 <= k < |runs| ==> runs[k].hi < |stream|
    ensures OccurrencesOver(stream, runs, None) == OccurrencesOver(stream, runs, Some(end))
    ensures TotalOver(stream, runs, None) == TotalOver(stream, runs, Some(end))
  {
    if runs != [] {
      EndedAlready(stream, Init(runs), end);
      LastOccurrence(stream, runs, None);
      LastOccurrence(stream, runs, Some(end));
    }
  }

  ghost predicate FollowsLongRun(fires: seq<bool>, r: Run) {
    exists r0 :: IsMaximalRun(fires, r0) && IsLong(r0, ENTRY_EVALUATIONS) && r0.lo <= r.lo
  }

  lemma {:induction false} RecordedOnly(stream: seq<Sample>, i: nat)
    requires i < |Recorded(stream)|
    ensures IsMaximalRun(Fires(stream), Recorded(stream)[i])
    ensures FollowsLongRun(Fires(stream), Recorded(stream)[i])
  {
    hide Runs, Fires;
    var runs, q := Runs(Fires(stream)), FirstLong(Runs(Fires(stream)), ENTRY_EVALUATIONS);
    RunsDecompose(Fires(stream));
    assert IsMaximalRun(Fires(stream), runs[q]) && IsLong(runs[q], ENTRY_EVALUATIONS);
    assert i > 0 ==> runs[q].hi < runs[q + i].lo;
    assert IsMaximalRun(Fires(stream), runs[q + i]);
  }

  /** Of two listed runs, the one that starts later is not listed earlier. */
  lemma {:induction false} ListedInOrder(runs: seq<Run>, i: nat, j: nat)
    requires Apart(runs) && i < |runs| && j < |runs| && runs[j].lo <= runs[i].lo < runs[i].hi
    ensures j <= i
  {
  }

  lemma {:induction false} FirstLongIsFirst(runs: seq<Run>, length: nat, j: nat)
    requires j < |runs| && IsLong(runs[j], length)
    ensures FirstLong(runs, length) <= j
  {
  }

  lemma {:induction false} KeptFrom(runs: seq<Run>, length: nat, i: nat)
    requires FirstLong(runs, length) <= i < |runs|
    ensures runs[i] in FromFirstLong(runs, length)
  {
    hide FirstLong;
    assert FromFirstLong(runs, length)[i - FirstLong(runs, length)] == runs[i];
  }

  lemma {:induction false} RecordedAll(stream: seq<Sample>, r: Run)
    requires IsMaximalRun(Fires(stream), r) && FollowsLongRun(Fires(stream), r)
    ensures r in Recorded(stream)
  {
    hide Runs, Fires, IsMaximalRun, FirstLong, FromFirstLong, Apart, IsLong;
    var runs := Runs(Fires(stream));
    RunsExact(Fires(stream));
    var r0 :| IsMaximalRun(Fires(stream), r0) && IsLong(r0, ENTRY_EVALUATIONS) && r0.lo <= r.lo;
    assert r in runs && r0 in runs;
    var i :| 0 <= i < |runs| && runs[i] == r;
    var j :| 0 <= j < |runs| && runs[j] == r0;
    MaximalIsNonEmpty(Fires(stream), r);
    ListedInOrder(runs, i, j);
    FirstLongIsFirst(runs, ENTRY_EVALUATIONS, j);
    KeptFrom(runs, ENTRY_EVALUATIONS, i);
  }

  lemma {:induction false} MaximalIsNonEmpty(fires: seq<bool>, r: Run)
    requires IsMaximalRun(fires, r)
    ensures r.lo < r.hi
  {
  }

  /** The recorded runs in words: the maximal runs that do not come before the first long one. */
  lemma {:induction false} RecordedExact(stream: seq<Sample>, r: Run)
    ensures r in Recorded(stream) <==> IsMaximalRun(Fires(stream), r) && FollowsLongRun(Fires(stream), r)
  {
    hide Recorded, Fires, IsMaximalRun, FollowsLongRun;
    if r in Recorded(stream) {
      var i :| 0 <= i < |Recorded(stream)| && Recorded(stream)[i] == r;
      RecordedOnly(stream, i);
    }
    if IsMaximalRun(Fires(stream), r) && FollowsLongRun(Fires(stream), r) {
      RecordedAll(stream, r);
    }
  }

  /** An id has an entry exactly when some maximal run of it has at least two evaluations. */
  lemma {:induction false} EntryIffLongRun(live: set<string>, generation: nat, trace: seq<Evaluation>, id: string)
    requires Admissible(live, trace)
    ensures HasEntry(Replay(live, generation, trace).entries, id)
       <==> exists r :: IsMaximalRun(Fires(Stream(live, trace, id)), r) && r.hi - r.lo >= 2
  {
    hide Replay, Stream, Recorded, RecordsRuns, IsMaximalRun;
    var stream := Stream(live, trace, id);
    ReplayMeetsOffline(live, generation, trace, id);
    if Recorded(stream) != [] {
      RecordedExact(stream, Recorded(stream)[0]);
    } else if r: Run :| IsMaximalRun(Fires(stream), r) && IsLong(r, ENTRY_EVALUATIONS) {
      RecordedExact(stream, r);
    }
  }

  /** `MaxOver` is a maximum: attained, and no measured value is larger. */
  lemma {:induction false} MaxOverIsMax(stream: seq<Sample>, lo: nat, hi: nat)
    requires hi <= |stream|
    ensures MaxOver(stream, lo, hi).None? ==>
              forall k, v :: lo <= k < hi ==> !MeasuredAt(stream, k, v)
    ensures MaxOver(stream, lo, hi).Some? ==>
              && (exists k :: lo <= k < hi && MeasuredAt(stream, k, MaxOver(stream, lo, hi).value))
              && (forall k, v :: lo <= k < hi && MeasuredAt(stream, k, v) ==> v <= MaxOver(stream, lo, hi).value)
  {
    if lo < hi {
      MaxOverIsMax(stream, lo, hi - 1);
      var m := MaxOver(stream, lo, hi);
      if m.Some? && m != MaxOver(stream, lo, hi - 1) {
        assert MeasuredAt(stream, hi - 1, m.value);
      }
    }
  }

  /** The entry's worst value is the largest measured from its first recorded run on. */
  lemma {:induction false} WorstIsMax(live: set<string>, generation: nat, trace: seq<Evaluation>, id: string)
    requires Admissible(live, trace) && HasEntry(Replay(live, generation, trace).entries, id)
    ensures var stream := Stream(live, trace, id);
            var e := TrackOf(Replay(live, generation, trace), id).entry;
            Recorded(stream) != [] &&
            var lo := Recorded(stream)[0].lo;
            && (e.worst.value.None? <==> forall k, v :: lo <= k < |stream| ==> !MeasuredAt(stream, k, v))
            && (e.worst.value.Some? ==>
                  && (exists k :: lo <= k < |stream| && MeasuredAt(stream, k, e.worst.value.value))
                  && (forall k, v :: lo <= k < |stream| && MeasuredAt(stream, k, v) ==> v <= e.worst.value.value))
  {
    hide Replay, Stream, Recorded, OccurrencesOver, TotalOver, MaxOver, IsFirstText, DescribedBy;
    ReplayMeetsOffline(live, generation, trace, id);
    var stream := Stream(live, trace, id);
    var worst := TrackOf(Replay(live, generation, trace), id).entry.worst;
    if worst.value.Some? {
      var k: nat :| IsWorstOf(worst, stream, Recorded(stream)[0].lo, k);
      assert MeasuredAt(stream, k, worst.value.value);
    }
  }

  /** The text of an entry. Where its runs measured something it is that of the first evaluation that reached the
      worst value, or the first one given without a number after that one came without a text. Where they
      measured nothing it is the first one given at all. */
  lemma {:induction false} WorstTextIsFirst(live: set<string>, generation: nat, trace: seq<Evaluation>, id: string)
    requires Admissible(live, trace) && HasEntry(Replay(live, generation, trace).entries, id)
    ensures var stream := Stream(live, trace, id);
            var worst := TrackOf(Replay(live, generation, trace), id).entry.worst;
            Recorded(stream) != [] &&
            var lo := Recorded(stream)[0].lo;
            && (worst.value.None? ==> IsFirstText(worst.text, stream, lo))
            && (worst.value.Some? ==>
                  exists k: nat :: ReachesFirst(stream, lo, k) && MeasuredAt(stream, k, worst.value.value)
                                   && (if stream[k].result.value.currentValue != ""
                                       then worst.text == stream[k].result.value.currentValue
                                       else IsFirstText(worst.text, stream, k + 1)))
  {
    hide Replay, Stream, Recorded, OccurrencesOver, TotalOver, MaxOver, IsFirstText, DescribedBy;
    ReplayMeetsOffline(live, generation, trace, id);
  }

  // ----- The worst value of one occurrence -----

  /** The run behind the `i`-th occurrence of the entry of `id`, and the value it shows. */
  ghost predicate ShowsRun(live: set<string>, generation: nat, trace: seq<Evaluation>, id: string, i: nat, r: Run) {
    var stream := Stream(live, trace, id);
    var t := TrackOf(Replay(live, generation, trace), id);
    && t.Holds? && i < |t.entry.occurrences| == |Recorded(stream)| && r == Recorded(stream)[i]
    && r.lo < r.hi <= |stream| && (i == 0 ==> IsLong(r, ENTRY_EVALUATIONS))
    && t.entry.occurrences[i] == OccurrenceOf(stream, r, i == 0, None)
  }

  lemma {:induction false} OccurrenceHasRun(live: set<string>, generation: nat, trace: seq<Evaluation>, id: string,
                                            i: nat)
    returns (r: Run)
    requires Admissible(live, trace) && HasEntry(Replay(live, generation, trace).entries, id)
    requires i < |TrackOf(Replay(live, generation, trace), id).entry.occurrences|
    ensures ShowsRun(live, generation, trace, id, i, r)
  {
    hide Replay, Stream, Recorded, OccurrenceOf, TotalOver, IsWorst, DescribedBy;
    var stream := Stream(live, trace, id);
    ReplayMeetsOffline(live, generation, trace, id);
    RunsWithin(stream);
    r := Recorded(stream)[i];
  }

  /** An occurrence of an entry shows the largest value measured in its run exactly when that value is not
      below zero or, for the first occurrence, the two evaluations that earned the entry measured something.
      A run that measured nothing shows zero. */
  lemma {:induction false} OccurrenceWorstIsMaxIff(live: set<string>, generation: nat, trace: seq<Evaluation>,
                                                   id: string, i: nat)
    returns (r: Run)
    requires Admissible(live, trace) && HasEntry(Replay(live, generation, trace).entries, id)
    requires i < |TrackOf(Replay(live, generation, trace), id).entry.occurrences|
    ensures ShowsRun(live, generation, trace, id, i, r)
    ensures var stream := Stream(live, trace, id);
            var worst := TrackOf(Replay(live, generation, trace), id).entry.occurrences[i].worst;
            var max := MaxOver(stream, r.lo, r.hi);
            && (max.None? ==> worst == 0.0)
            && (max.Some? ==>
                  (worst == max.value <==>
                   max.value >= 0.0 || (i == 0 && MaxOver(stream, r.lo, r.lo + ENTRY_EVALUATIONS).Some?)))
  {
    hide Replay, Stream, Recorded, MaxOver;
    r := OccurrenceHasRun(live, generation, trace, id, i);
    var stream := Stream(live, trace, id);
    if i == 0 && MaxOver(stream, r.lo, r.lo + ENTRY_EVALUATIONS).Some? {
      MaxStays(stream, r.lo, r.lo + ENTRY_EVALUATIONS, r.hi);
    }
  }

  /** No result of the trace measures anything below zero for `id`. */
  ghost predicate NeverNegative(trace: seq<Evaluation>, id: string) {
    forall k, j :: 0 <= k < |trace| && 0 <= j < |trace[k].results|
                   && trace[k].results[j].id == id && trace[k].results[j].measuredValue.Some?
                   ==> trace[k].results[j].measuredValue.value >= 0.0
  }

  /** Where nothing below zero is measured, every occurrence shows the largest value measured in its run,
      and zero when nothing was. */
  lemma {:induction false} OccurrenceWorstIsMax(live: set<string>, generation: nat, trace: seq<Evaluation>,
                                                id: string, i: nat)
    returns (r: Run)
    requires Admissible(live, trace) && HasEntry(Replay(live, generation, trace).entries, id)
    requires i < |TrackOf(Replay(live, generation, trace), id).entry.occurrences|
    requires NeverNegative(trace, id)
    ensures ShowsRun(live, generation, trace, id, i, r)
    ensures var stream := Stream(live, trace, id);
            var worst := TrackOf(Replay(live, generation, trace), id).entry.occurrences[i].worst;
            && (forall k, v :: r.lo <= k < r.hi && MeasuredAt(stream, k, v) ==> v <= worst)
            && (if exists k, v :: r.lo <= k < r.hi && MeasuredAt(stream, k, v)
                then exists k :: r.lo <= k < r.hi && MeasuredAt(stream, k, worst) else worst == 0.0)
  {
    hide Replay, Recorded, MaxOver, OccurrenceOf;
    r := OccurrenceWorstIsMaxIff(live, generation, trace, id, i);
    var stream := Stream(live, trace, id);
    var max := MaxOver(stream, r.lo, r.hi);
    MaxOverIsMax(stream, r.lo, r.hi);
    if max.Some? {
      var k :| r.lo <= k < r.hi && MeasuredAt(stream, k, max.value);
      var j :| 0 <= j < |trace[k].results| && trace[k].results[j] == stream[k].result.value;
      assert trace[k].results[j].id == id;
    }
  }

  /** Arbitrary results can do otherwise: firing twice, quiet, and firing with -5 leaves a second occurrence
      that reads 0. */
  lemma {:induction false} OccurrenceWorstCanMiss(live: set<string>, generation: nat, r: DiagnosticResult)
    requires Admitted(live, r) && r.measuredValue == Some(-5.0)
    ensures var trace := [Evaluation([r], 0.0), Evaluation([r], 1.0), Evaluation([], 2.0), Evaluation([r], 3.0)];
            var t := TrackOf(Replay(live, generation, trace), r.id);
            && Admissible(live, trace) && t.Holds? && |t.entry.occurrences| == 2
            && t.entry.occurrences[0].worst == -5.0 && t.entry.occurrences[1].worst == 0.0
  {
    hide Replay, TrackOf, Step;
    var trace := [Evaluation([r], 0.0), Evaluation([r], 1.0), Evaluation([], 2.0), Evaluation([r], 3.0)];
    assert Init(trace) == trace[..3] && Init(trace[..3]) == trace[..2] && Init(trace[..2]) == trace[..1];
    assert Init(trace[..1]) == [] && Init([r]) == [] && Last([r]) == r;
    NothingTracked(live, generation, r.id);
    ReplayOneId(live, generation, trace[..1], r.id);
    ReplayOneId(live, generation, trace[..2], r.id);
    ReplayOneId(live, generation, trace[..3], r.id);
    ReplayOneId(live, generation, trace, r.id);
    TwiceQuietAgain(r);
  }

  lemma {:induction false} TwiceQuietAgain(r: DiagnosticResult)
    requires r.measuredValue == Some(-5.0)
    ensures var t := Step(Step(Step(Step(Unseen, Some(r), 0.0), Some(r), 1.0), None, 2.0), Some(r), 3.0);
            && t.Holds? && |t.entry.occurrences| == 2
            && t.entry.occurrences[0].worst == -5.0 && t.entry.occurrences[1].worst == 0.0
  {
    var worst := Worst(Some(-5.0), r.currentValue);
    assert RecordWorst(NOTHING_YET, r) == worst && RecordWorst(worst, r) == worst;
    hide RecordWorst;
    var waits := Step(Unseen, Some(r), 0.0);
    assert waits == Waits(Pending(1, 0.0, worst));
    var first := Step(waits, Some(r), 1.0);
    assert first.Holds? && first.entry.occurrences == [LedgerOccurrence(0.0, 0.0, -5.0)] && first.entry.active;
    var quiet := Step(first, None, 2.0);
    assert quiet.entry.occurrences == [LedgerOccurrence(0.0, 2.0, -5.0)] && !quiet.entry.active;
    var again := Step(quiet, Some(r), 3.0);
    assert again.entry.occurrences == quiet.entry.occurrences + [LedgerOccurrence(3.0, 3.0, 0.0)];
  }

  lemma {:induction false} NothingTracked(live: set<string>, generation: nat, id: string)
    ensures TrackOf(Replay(live, generation, []), id) == Unseen
  {
  }
}

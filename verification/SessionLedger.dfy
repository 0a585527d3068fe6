/**
 The per-session record of every measured problem (app/diagnostics/SessionLedger.h and
 app/diagnostics/SessionLedger.cpp): a debounced tracker, one entry an id, fed one
 evaluation of the live checklist at a time.

 The class updates its fields the way the program does. `Observed` and `Frozen` say what
 one call makes of the whole ledger, id by id rather than loop by loop; LedgerHistory
 relates any number of calls to the maximal runs of the stream.
 */
module SessionLedger {
  import opened Wrappers
  import opened Sequences

  datatype DiagnosticTier = Blocker | MeasuredProblem | Optimisation | Fact

  datatype FixSafety = Auto | Assisted | External

  datatype FixAction = FixAction(id: string, caption: string, safety: FixSafety)

  datatype DiagnosticResult = DiagnosticResult(
    id: string, tier: DiagnosticTier, title: string, summary: string, detail: string, impact: string,
    compensation: string, currentValue: string, measuredValue: Option<real>, budgetValue: Option<real>,
    valueUnit: string, fixAction: Option<FixAction>)

  /** One uninterrupted stretch; `endS == startS` while it is open. */
  datatype LedgerOccurrence = LedgerOccurrence(startS: real, endS: real, worst: real)

  /** The worst value so far and the text it was reported with. */
  datatype Worst = Worst(value: Option<real>, text: string)

  datatype LedgerEntry = LedgerEntry(
    id: string, title: string, summary: string, logExcerpt: string, compensation: string,
    fixId: string, fixLabel: string, worst: Worst, budget: Option<real>, unit: string,
    count: nat, firstSeenS: real, lastSeenS: real, totalActiveS: real, active: bool,
    occurrences: seq<LedgerOccurrence>)

  /** An id that fired but has not earned its entry. */
  datatype Pending = Pending(consecutive: nat, firstSeenS: real, worst: Worst)

  datatype LedgerState = LedgerState(
    entries: seq<LedgerEntry>, compensated: seq<LedgerEntry>, pending: map<string, Pending>, generation: nat)

  /** Consecutive firing evaluations an id needs before it earns an entry. */
  const ENTRY_EVALUATIONS: nat := 2

  const NOTHING_YET := Worst(None, "")

  function Max(x: real, y: real): real {
    if x < y then y else x
  }

  // ----- What one result does to one id -----

  /** `live` is the allow-list of ids whose check can only fire on something measured now. */
  predicate Admitted(live: set<string>, r: DiagnosticResult) {
    r.tier.MeasuredProblem? && r.id in live
  }

  function RecordWorst(w: Worst, r: DiagnosticResult): Worst {
    if r.measuredValue.None? then
      if w.text == "" then w.(text := r.currentValue) else w
    else if w.value.None? || r.measuredValue.value > w.value.value then Worst(r.measuredValue, r.currentValue)
    else w
  }

  function WorsenOccurrence(o: LedgerOccurrence, r: DiagnosticResult): LedgerOccurrence {
    if r.measuredValue.None? then o else o.(worst := Max(o.worst, r.measuredValue.value))
  }

  /** An entry that fires at `now`: a quiet one opens a new occurrence, whatever happened before. */
  function Touch(e: LedgerEntry, r: DiagnosticResult, now: real): LedgerEntry {
    var open := if e.active then e.occurrences else e.occurrences + [LedgerOccurrence(now, now, 0.0)];
    e.(active := true,
       count := if e.active then e.count else e.count + 1,
       lastSeenS := now,
       worst := RecordWorst(e.worst, r),
       occurrences := if open == [] then [] else Init(open) + [WorsenOccurrence(Last(open), r)])
  }

  function Close(e: LedgerEntry, end: real): LedgerEntry {
    if e.occurrences == [] then e.(active := false)
    else
      var open := Last(e.occurrences);
      e.(active := false,
         occurrences := Init(e.occurrences) + [open.(endS := end)],
         totalActiveS := e.totalActiveS + Max(0.0, end - open.startS))
  }

  function Wait(p: Option<Pending>, r: DiagnosticResult, now: real): Pending {
    var before := p.GetOr(Pending(0, 0.0, NOTHING_YET));
    Pending(before.consecutive + 1,
            if before.consecutive == 0 then now else before.firstSeenS,
            RecordWorst(before.worst, r))
  }

  /** The entry an id earns with the evaluation that tips it over. */
  function Enter(p: Pending, r: DiagnosticResult, now: real): LedgerEntry {
    var assisted := r.fixAction.Some? && r.fixAction.value.safety.Assisted?;
    LedgerEntry(
      r.id, r.title, if r.impact == "" then r.summary else r.impact, r.detail, r.compensation,
      if assisted then r.fixAction.value.id else "", if assisted then r.fixAction.value.caption else "",
      p.worst, r.budgetValue, r.valueUnit, 1, p.firstSeenS, now, 0.0, true,
      [LedgerOccurrence(p.firstSeenS, p.firstSeenS, p.worst.value.GetOr(0.0))])
  }

  // ----- What one evaluation does to the whole ledger -----

  /** The last admitted result for `id`; with distinct ids, the only one. */
  function ResultFor(live: set<string>, results: seq<DiagnosticResult>, id: string): (r: Option<DiagnosticResult>)
    ensures r.Some? ==> r.value in results && Admitted(live, r.value) && r.value.id == id
  {
    if results == [] then None
    else if Admitted(live, Last(results)) && Last(results).id == id then Some(Last(results))
    else ResultFor(live, Init(results), id)
  }

  /** No two admitted results of one evaluation share an id. */
  ghost predicate Distinct(live: set<string>, results: seq<DiagnosticResult>) {
    forall i, j :: 0 <= i < j < |results| && Admitted(live, results[i]) && Admitted(live, results[j])
                   ==> results[i].id != results[j].id
  }

  /** The index of the entry for `id`, or the number of entries. */
  function IndexOf(es: seq<LedgerEntry>, id: string): (k: nat)
    ensures k <= |es|
    ensures k < |es| ==> es[k].id == id
    ensures forall i :: 0 <= i < k ==> es[i].id != id
  {
    if es == [] then 0 else if es[0].id == id then 0 else 1 + IndexOf(es[1..], id)
  }

  predicate HasEntry(es: seq<LedgerEntry>, id: string) {
    IndexOf(es, id) < |es|
  }

  function Lookup(m: map<string, Pending>, id: string): Option<Pending> {
    if id in m then Some(m[id]) else None
  }

  function Touched(es: seq<LedgerEntry>, live: set<string>, results: seq<DiagnosticResult>, now: real)
    : (touched: seq<LedgerEntry>)
    ensures |touched| == |es|
    ensures forall k :: 0 <= k < |es| ==> touched[k].id == es[k].id
  {
    seq(|es|, k requires 0 <= k < |es| =>
      match ResultFor(live, results, es[k].id)
      case None => es[k]
      case Some(r) => Touch(es[k], r, now))
  }

  /** The entries an evaluation adds, in the order of its results. */
  function Entered(es: seq<LedgerEntry>, pending: map<string, Pending>, live: set<string>,
                   results: seq<DiagnosticResult>, now: real)
    : (entered: seq<LedgerEntry>)
  {
    if results == [] then []
    else
      var before := Entered(es, pending, live, Init(results), now);
      var r := Last(results);
      var p := Wait(Lookup(pending, r.id), r, now);
      if Admitted(live, r) && !HasEntry(es, r.id) && p.consecutive >= ENTRY_EVALUATIONS
      then before + [Enter(p, r, now)]
      else before
  }

  /** The waiting ids once the results so far are counted, before those that did not fire are dropped. */
  function Waiting(es: seq<LedgerEntry>, pending: map<string, Pending>, live: set<string>,
                   results: seq<DiagnosticResult>, now: real)
    : (waiting: map<string, Pending>)
  {
    if results == [] then pending
    else
      var before := Waiting(es, pending, live, Init(results), now);
      var r := Last(results);
      var p := Wait(Lookup(pending, r.id), r, now);
      if !Admitted(live, r) || HasEntry(es, r.id) then before
      else if p.consecutive >= ENTRY_EVALUATIONS then before - {r.id}
      else before[r.id := p]
  }

  /** Closes every open entry that did not fire. */
  function Quieted(es: seq<LedgerEntry>, live: set<string>, results: seq<DiagnosticResult>, now: real)
    : (quieted: seq<LedgerEntry>)
    ensures |quieted| == |es|
  {
    seq(|es|, k requires 0 <= k < |es| =>
      if es[k].active && ResultFor(live, results, es[k].id).None? then Close(es[k], now) else es[k])
  }

  // ----- Compensated facts: counted, never debounced, never timed -----

  predicate Compensated(r: DiagnosticResult) {
    r.tier.Fact? && r.compensation != ""
  }

  function Note(e: LedgerEntry, r: DiagnosticResult, now: real): LedgerEntry {
    e.(count := if e.active then e.count else e.count + 1, active := true, lastSeenS := now,
       worst := RecordWorst(e.worst, r))
  }

  function NewFact(r: DiagnosticResult, now: real): LedgerEntry {
    LedgerEntry(r.id, r.title, r.summary, "", r.compensation, "", "", NOTHING_YET, None, "",
                0, now, 0.0, 0.0, false, [])
  }

  function Noted(es: seq<LedgerEntry>, results: seq<DiagnosticResult>, now: real): (noted: seq<LedgerEntry>) {
    if results == [] then es
    else
      var before := Noted(es, Init(results), now);
      var r := Last(results);
      if !Compensated(r) then before
      else
        var k := IndexOf(before, r.id);
        if k < |before| then before[k := Note(before[k], r, now)]
        else before + [Note(NewFact(r, now), r, now)]
  }

  predicate FiresFact(results: seq<DiagnosticResult>, id: string) {
    exists k :: 0 <= k < |results| && results[k].id == id && results[k].tier.Fact? && results[k].compensation != ""
  }

  function QuietedFacts(es: seq<LedgerEntry>, results: seq<DiagnosticResult>): (quieted: seq<LedgerEntry>)
    ensures |quieted| == |es|
  {
    seq(|es|, k requires 0 <= k < |es| =>
      if FiresFact(results, es[k].id) then es[k] else es[k].(active := false))
  }

  // ----- The operations -----

  /** The ledger once the results so far are counted and before anything is closed or dropped. */
  function Half(st: LedgerState, live: set<string>, results: seq<DiagnosticResult>, now: real): LedgerState {
    st.(entries := Touched(st.entries, live, results, now)
                   + Entered(st.entries, st.pending, live, results, now),
        pending := Waiting(st.entries, st.pending, live, results, now))
  }

  function StillFiring(pending: map<string, Pending>, live: set<string>, results: seq<DiagnosticResult>)
    : map<string, Pending>
  {
    map id | id in pending && ResultFor(live, results, id).Some? :: pending[id]
  }

  /** What one evaluation makes of the ledger. */
  function Observed(st: LedgerState, live: set<string>, results: seq<DiagnosticResult>, now: real): LedgerState {
    var half := Half(st, live, results, now);
    LedgerState(
      Quieted(half.entries, live, results, now),
      QuietedFacts(Noted(st.compensated, results, now), results),
      StillFiring(half.pending, live, results),
      st.generation)
  }

  function FrozenEntries(es: seq<LedgerEntry>, end: real): (frozen: seq<LedgerEntry>)
    ensures |frozen| == |es|
  {
    seq(|es|, k requires 0 <= k < |es| => if es[k].active then Close(es[k], end) else es[k])
  }

  function FrozenFacts(es: seq<LedgerEntry>): (frozen: seq<LedgerEntry>)
    ensures |frozen| == |es|
  {
    seq(|es|, k requires 0 <= k < |es| => es[k].(active := false))
  }

  function Frozen(st: LedgerState, end: real): LedgerState {
    LedgerState(FrozenEntries(st.entries, end), FrozenFacts(st.compensated), map[], st.generation)
  }

  function Fresh(generation: nat): LedgerState {
    LedgerState([], [], map[], generation)
  }

  ghost predicate UniqueIds(es: seq<LedgerEntry>) {
    forall i, j :: 0 <= i < j < |es| ==> es[i].id != es[j].id
  }

  /** One entry an id, and no id both entered and waiting. */
  ghost predicate Tidy(st: LedgerState) {
    && UniqueIds(st.entries)
    && (forall k :: 0 <= k < |st.entries| ==> st.entries[k].id !in st.pending)
  }

  // ----- Lemmas for the loops below -----

  /** Looking further along the results changes nothing for an id they do not name again. */
  lemma {:induction false} ResultForPrefix(live: set<string>, results: seq<DiagnosticResult>, i: nat, id: string)
    requires i < |results|
    ensures ResultFor(live, results[..i + 1], id)
         == if Admitted(live, results[i]) && results[i].id == id then Some(results[i])
            else ResultFor(live, results[..i], id)
  {
    assert Init(results[..i + 1]) == results[..i];
  }

  /** The entries added are of ids that fire and had none, and no two are of one id. */
  lemma {:induction false} EnteredIds(es: seq<LedgerEntry>, pending: map<string, Pending>, live: set<string>,
                                      results: seq<DiagnosticResult>, now: real)
    ensures forall k :: 0 <= k < |Entered(es, pending, live, results, now)| ==>
              var id := Entered(es, pending, live, results, now)[k].id;
              !HasEntry(es, id) && ResultFor(live, results, id).Some?
    ensures Distinct(live, results) ==> UniqueIds(Entered(es, pending, live, results, now))
  {
    if results != [] {
      EnteredIds(es, pending, live, Init(results), now);
      var before := Entered(es, pending, live, Init(results), now);
      forall k | 0 <= k < |before| ensures ResultFor(live, results, before[k].id).Some? {
      }
    }
  }

  /** An id not yet named by the results is looked up as it was before the evaluation. */
  lemma {:induction false} WaitingUntouched(es: seq<LedgerEntry>, pending: map<string, Pending>, live: set<string>,
                                            results: seq<DiagnosticResult>, now: real, id: string)
    requires ResultFor(live, results, id).None? || HasEntry(es, id)
    ensures Lookup(Waiting(es, pending, live, results, now), id) == Lookup(pending, id)
  {
    if results != [] {
      WaitingUntouched(es, pending, live, Init(results), now, id);
    }
  }

  lemma {:induction false} IndexOfUnique(es: seq<LedgerEntry>, k: nat)
    requires k < |es| && forall i :: 0 <= i < k ==> es[i].id != es[k].id
    ensures IndexOf(es, es[k].id) == k
  {
  }

  lemma {:induction false} IndexOfAppend(es: seq<LedgerEntry>, fs: seq<LedgerEntry>, id: string)
    ensures IndexOf(es + fs, id) == if HasEntry(es, id) then IndexOf(es, id) else |es| + IndexOf(fs, id)
  {
    if es == [] {
      assert es + fs == fs;
    } else {
      assert (es + fs)[1..] == es[1..] + fs;
      IndexOfAppend(es[1..], fs, id);
    }
  }

  lemma {:induction false} IndexOfSameIds(es: seq<LedgerEntry>, fs: seq<LedgerEntry>, id: string)
    requires |es| == |fs| && forall k :: 0 <= k < |es| ==> es[k].id == fs[k].id
    ensures IndexOf(es, id) == IndexOf(fs, id)
  {
    if es != [] {
      IndexOfSameIds(es[1..], fs[1..], id);
    }
  }

  /** Where the half-processed ledger holds `id`, when the results so far do not name it. */
  lemma {:induction false} FindAcross(st: LedgerState, live: set<string>, results: seq<DiagnosticResult>, now: real,
                                      id: string)
    requires ResultFor(live, results, id).None?
    ensures var es := Half(st, live, results, now).entries;
            IndexOf(es, id) == if HasEntry(st.entries, id) then IndexOf(st.entries, id) else |es|
  {
    var touched, entered := Touched(st.entries, live, results, now),
                            Entered(st.entries, st.pending, live, results, now);
    EnteredIds(st.entries, st.pending, live, results, now);
    IndexOfAppend(touched, entered, id);
    IndexOfSameIds(touched, st.entries, id);
  }

  lemma {:induction false} TouchedNext(es: seq<LedgerEntry>, live: set<string>, results: seq<DiagnosticResult>,
                                       i: nat, now: real)
    requires UniqueIds(es) && i < |results|
    requires ResultFor(live, results[..i], results[i].id).None?
    ensures var touched := Touched(es, live, results[..i], now);
            var k := IndexOf(es, results[i].id);
            Touched(es, live, results[..i + 1], now)
            == if Admitted(live, results[i]) && k < |es| then touched[k := Touch(touched[k], results[i], now)]
               else touched
  {
    hide ResultFor, Touch, IndexOf;
    var k := IndexOf(es, results[i].id);
    forall j | 0 <= j < |es|
      ensures ResultFor(live, results[..i + 1], es[j].id)
           == if Admitted(live, results[i]) && j == k then Some(results[i]) else ResultFor(live, results[..i], es[j].id)
    {
      ResultForPrefix(live, results, i, es[j].id);
      assert j > k ==> es[j].id != es[k].id;
    }
  }

  /** A result that is not admitted changes nothing. */
  lemma {:induction false} HalfSkips(st: LedgerState, live: set<string>, results: seq<DiagnosticResult>, i: nat,
                                     now: real)
    requires i < |results| && !Admitted(live, results[i])
    ensures Half(st, live, results[..i + 1], now) == Half(st, live, results[..i], now)
  {
    assert Init(results[..i + 1]) == results[..i];
    assert Touched(st.entries, live, results[..i + 1], now) == Touched(st.entries, live, results[..i], now);
  }

  /** A result for an id with an entry touches that entry. */
  lemma {:induction false} HalfTouches(st: LedgerState, live: set<string>, results: seq<DiagnosticResult>, i: nat,
                                       now: real)
    requires Tidy(st) && i < |results| && Admitted(live, results[i]) && HasEntry(st.entries, results[i].id)
    requires ResultFor(live, results[..i], results[i].id).None?
    ensures var half := Half(st, live, results[..i], now);
            var k := IndexOf(half.entries, results[i].id);
            k < |half.entries| &&
            Half(st, live, results[..i + 1], now)
            == half.(entries := half.entries[k := Touch(half.entries[k], results[i], now)])
  {
    hide ResultFor, Touch;
    assert Init(results[..i + 1]) == results[..i];
    FindAcross(st, live, results[..i], now, results[i].id);
    TouchedNext(st.entries, live, results, i, now);
  }

  /** A result for an id without one makes it wait, or enter. */
  lemma {:induction false} HalfWaits(st: LedgerState, live: set<string>, results: seq<DiagnosticResult>, i: nat,
                                     now: real)
    requires Tidy(st) && i < |results| && Admitted(live, results[i]) && !HasEntry(st.entries, results[i].id)
    requires ResultFor(live, results[..i], results[i].id).None?
    ensures var half := Half(st, live, results[..i], now);
            var r := results[i];
            var p := Wait(Lookup(half.pending, r.id), r, now);
            IndexOf(half.entries, r.id) == |half.entries| &&
            Half(st, live, results[..i + 1], now)
            == if p.consecutive >= ENTRY_EVALUATIONS
               then half.(entries := half.entries + [Enter(p, r, now)], pending := half.pending - {r.id})
               else half.(pending := half.pending[r.id := p])
  {
    assert Init(results[..i + 1]) == results[..i];
    FindAcross(st, live, results[..i], now, results[i].id);
    TouchedNext(st.entries, live, results, i, now);
    WaitingUntouched(st.entries, st.pending, live, results[..i], now, results[i].id);
  }

  /** The ids that entered in an evaluation no longer wait. */
  lemma {:induction false} EnteredNoLongerWait(es: seq<LedgerEntry>, pending: map<string, Pending>, live: set<string>,
                                               results: seq<DiagnosticResult>, now: real)
    requires Distinct(live, results)
    ensures forall k :: 0 <= k < |Entered(es, pending, live, results, now)| ==>
              Entered(es, pending, live, results, now)[k].id !in Waiting(es, pending, live, results, now)
  {
    if results != [] {
      EnteredNoLongerWait(es, pending, live, Init(results), now);
      EnteredIds(es, pending, live, Init(results), now);
    }
  }

  lemma {:induction false} ObservedIsTidy(st: LedgerState, live: set<string>, results: seq<DiagnosticResult>, now: real)
    requires Tidy(st) && Distinct(live, results)
    ensures Tidy(Observed(st, live, results, now))
  {
    var half := Half(st, live, results, now);
    EnteredIds(st.entries, st.pending, live, results, now);
    EnteredNoLongerWait(st.entries, st.pending, live, results, now);
    forall k | 0 <= k < |st.entries| ensures half.entries[k].id !in half.pending {
      IndexOfUnique(st.entries, k);
      WaitingUntouched(st.entries, st.pending, live, results, now, st.entries[k].id);
    }
    forall i, j | 0 <= i < j < |half.entries| ensures half.entries[i].id != half.entries[j].id {
      if i < |st.entries| <= j {
        IndexOfUnique(st.entries, i);
      }
    }
  }

  /** `firing` holds the ids that fire. */
  ghost predicate AreFiring(firing: set<string>, live: set<string>, results: seq<DiagnosticResult>) {
    forall id :: id in firing <==> ResultFor(live, results, id).Some?
  }

  lemma {:induction false} FiringNext(firing: set<string>, live: set<string>, results: seq<DiagnosticResult>, i: nat)
    requires i < |results| && AreFiring(firing, live, results[..i])
    ensures AreFiring(if Admitted(live, results[i]) then firing + {results[i].id} else firing, live, results[..i + 1])
  {
    hide ResultFor;
    var grown := if Admitted(live, results[i]) then firing + {results[i].id} else firing;
    forall id ensures id in grown <==> ResultFor(live, results[..i + 1], id).Some? {
      ResultForPrefix(live, results, i, id);
    }
  }

  ghost predicate FactsAreFiring(firing: set<string>, results: seq<DiagnosticResult>) {
    forall id :: id in firing <==> FiresFact(results, id)
  }

  lemma {:induction false} FactFiringNext(firing: set<string>, results: seq<DiagnosticResult>, i: nat)
    requires i < |results| && FactsAreFiring(firing, results[..i])
    ensures FactsAreFiring(if Compensated(results[i]) then firing + {results[i].id} else firing, results[..i + 1])
  {
    var now, next := results[..i], results[..i + 1];
    assert next == now + [results[i]];
    forall id ensures FiresFact(next, id) <==>
                      FiresFact(now, id) || (Compensated(results[i]) && results[i].id == id)
    {
      if FiresFact(now, id) {
        var k :| 0 <= k < |now| && Compensated(now[k]) && now[k].id == id;
        assert next[k] == now[k];
      }
      assert next[i] == results[i];
    }
  }

  // ----- The tracker itself -----

  class SessionLedger {
    // The ids admitted to the ledger.
    const live: set<string>
    // In order of first sight, never re-sorted.
    var entries: seq<LedgerEntry>
    var compensated: seq<LedgerEntry>
    var pending: map<string, Pending>
    var generation: nat

    constructor (live: set<string>)
      ensures this.live == live && State() == Fresh(0)
    {
      this.live := live;
      entries, compensated, pending, generation := [], [], map[], 0;
    }

    ghost function State(): LedgerState
      reads this
    {
      LedgerState(entries, compensated, pending, generation)
    }

    /** Discards everything observed so far. */
    method Reset(generation: nat)
      modifies this
      ensures State() == Fresh(generation)
    {
      entries, compensated, pending := [], [], map[];
      this.generation := generation;
    }

    method FindEntry(id: string) returns (k: nat)
      ensures k == IndexOf(entries, id)
    {
      k := FindIn(entries, id);
    }

    static method FindIn(es: seq<LedgerEntry>, id: string) returns (k: nat)
      ensures k == IndexOf(es, id)
    {
      k := 0;
      while k < |es|
        invariant k <= |es| && IndexOf(es, id) == k + IndexOf(es[k..], id)
      {
        if es[k].id == id {
          return;
        }
        k := k + 1;
      }
    }

    /** One evaluation of the live checklist. Its admitted ids are distinct. */
    method Observe(results: seq<DiagnosticResult>, now: real)
      requires Tidy(State()) && Distinct(live, results)
      modifies this
      ensures State() == Observed(old(State()), live, results, now)
      ensures Tidy(State())
    {
      ObserveFacts(results, now);
      ghost var before := State();
      var firing: set<string> := {};
      for i := 0 to |results|
        invariant State() == Half(before, live, results[..i], now)
        invariant AreFiring(firing, live, results[..i])
      {
        ObserveOne(before, results, i, now);
        FiringNext(firing, live, results, i);
        if Admitted(live, results[i]) {
          firing := firing + {results[i].id};
        }
      }
      assert results[..|results|] == results;
      CloseQuiet(firing, results, now);
      DropQuiet(firing, results);
      ObservedIsTidy(old(State()), live, results, now);
    }

    /** The part of an evaluation that deals with one result. */
    method ObserveOne(ghost before: LedgerState, results: seq<DiagnosticResult>, i: nat, now: real)
      requires Tidy(before) && Distinct(live, results) && i < |results|
      requires State() == Half(before, live, results[..i], now)
      modifies this
      ensures State() == Half(before, live, results[..i + 1], now)
    {
      var r := results[i];
      if !Admitted(live, r) {
        HalfSkips(before, live, results, i, now);
        return;
      }
      assert ResultFor(live, results[..i], r.id).None?;
      FindAcross(before, live, results[..i], now, r.id);
      var k := FindEntry(r.id);
      if k < |entries| {
        HalfTouches(before, live, results, i, now);
        entries := entries[k := Touch(entries[k], r, now)];
        return;
      }
      HalfWaits(before, live, results, i, now);
      var p := Wait(Lookup(pending, r.id), r, now);
      pending := pending[r.id := p];
      if p.consecutive >= ENTRY_EVALUATIONS {
        entries := entries + [Enter(p, r, now)];
        pending := pending - {r.id};
      }
    }

    method ObserveFacts(results: seq<DiagnosticResult>, now: real)
      modifies this`compensated
      ensures compensated == QuietedFacts(Noted(old(compensated), results, now), results)
    {
      var firing: set<string> := {};
      for i := 0 to |results|
        invariant compensated == Noted(old(compensated), results[..i], now)
        invariant FactsAreFiring(firing, results[..i])
      {
        assert Init(results[..i + 1]) == results[..i];
        FactFiringNext(firing, results, i);
        var r := results[i];
        if Compensated(r) {
          firing := firing + {r.id};
          var k := FindIn(compensated, r.id);
          if k == |compensated| {
            compensated := compensated + [NewFact(r, now)];
          }
          compensated := compensated[k := Note(compensated[k], r, now)];
        }
      }
      assert results[..|results|] == results;
      QuietFacts(firing, results);
    }

    method QuietFacts(firing: set<string>, ghost results: seq<DiagnosticResult>)
      requires FactsAreFiring(firing, results)
      modifies this`compensated
      ensures compensated == QuietedFacts(old(compensated), results)
    {
      ghost var before, quieted := compensated, QuietedFacts(compensated, results);
      for k := 0 to |compensated|
        invariant |compensated| == |before|
        invariant forall j :: 0 <= j < k ==> compensated[j] == quieted[j]
        invariant forall j :: k <= j < |before| ==> compensated[j] == before[j]
      {
        if compensated[k].id !in firing {
          compensated := compensated[k := compensated[k].(active := false)];
        }
      }
    }

    method CloseQuiet(firing: set<string>, ghost results: seq<DiagnosticResult>, now: real)
      requires AreFiring(firing, live, results)
      modifies this`entries
      ensures entries == Quieted(old(entries), live, results, now)
    {
      ghost var before, quieted := entries, Quieted(entries, live, results, now);
      for k := 0 to |entries|
        invariant |entries| == |before|
        invariant forall j :: 0 <= j < k ==> entries[j] == quieted[j]
        invariant forall j :: k <= j < |before| ==> entries[j] == before[j]
      {
        if entries[k].active && entries[k].id !in firing {
          entries := entries[k := Close(entries[k], now)];
        }
      }
    }

    method DropQuiet(firing: set<string>, ghost results: seq<DiagnosticResult>)
      requires AreFiring(firing, live, results)
      modifies this`pending
      ensures pending == StillFiring(old(pending), live, results)
    {
      hide ResultFor;
      var left := pending.Keys;
      while left != {}
        invariant left <= pending.Keys <= old(pending).Keys
        invariant forall id :: id in pending ==> pending[id] == old(pending)[id]
        invariant forall id :: id in old(pending) ==> (id in pending <==> id in left || id in firing)
        decreases |left|
      {
        var id :| id in left;
        left := left - {id};
        if id !in firing {
          pending := pending - {id};
        }
      }
    }

    method FreezeFacts()
      modifies this`compensated
      ensures compensated == FrozenFacts(old(compensated))
    {
      ghost var before, frozen := compensated, FrozenFacts(compensated);
      for k := 0 to |compensated|
        invariant |compensated| == |before|
        invariant forall j :: 0 <= j < k ==> compensated[j] == frozen[j]
        invariant forall j :: k <= j < |before| ==> compensated[j] == before[j]
      {
        compensated := compensated[k := compensated[k].(active := false)];
      }
    }

    /** Ends the observation window: open occurrences are closed at `end`, entries stay. */
    method Freeze(end: real)
      modifies this
      ensures State() == Frozen(old(State()), end)
    {
      FreezeFacts();
      ghost var before, frozen := entries, FrozenEntries(entries, end);
      for k := 0 to |entries|
        invariant compensated == FrozenFacts(old(compensated)) && generation == old(generation)
        invariant |entries| == |before|
        invariant forall j :: 0 <= j < k ==> entries[j] == frozen[j]
        invariant forall j :: k <= j < |before| ==> entries[j] == before[j]
      {
        if entries[k].active {
          entries := entries[k := Close(entries[k], end)];
        }
      }
      pending := map[];
    }
  }
}

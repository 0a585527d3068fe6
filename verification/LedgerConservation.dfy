/**
 What every reachable ledger keeps, for any interleaving of evaluations and freezes at
 non-decreasing times: unique ids, ordered and disjoint occurrences, and totals that add up.
 */
module LedgerConservation {
  import opened Wrappers
  import opened Sequences
  import opened FiringRuns
  import opened SessionLedger
  import opened LedgerHistory

  datatype Event = Observe(results: seq<DiagnosticResult>, at: real) | Freeze(at: real)

  function Apply(st: LedgerState, live: set<string>, event: Event): LedgerState {
    match event
    case Observe(results, now) => Observed(st, live, results, now)
    case Freeze(end) => Frozen(st, end)
  }

  function After(live: set<string>, generation: nat, events: seq<Event>): LedgerState {
    if events == [] then Fresh(generation)
    else Apply(After(live, generation, Init(events)), live, Last(events))
  }

  /** Admitted ids are distinct in each evaluation and time never runs backwards from zero. */
  ghost predicate Lawful(live: set<string>, events: seq<Event>) {
    && (forall k :: 0 <= k < |events| && events[k].Observe? ==> Distinct(live, events[k].results))
    && (forall k :: 0 <= k < |events| ==> 0.0 <= events[k].at)
    && (forall i, j :: 0 <= i < j < |events| ==> events[i].at <= events[j].at)
  }

  // ----- What one entry keeps -----

  ghost function Length(occurrences: seq<LedgerOccurrence>): real {
    if occurrences == [] then 0.0
    else Length(Init(occurrences)) + (Last(occurrences).endS - Last(occurrences).startS)
  }

  /** Each occurrence ends no earlier than it starts and before the next one starts. */
  ghost predicate InOrder(occurrences: seq<LedgerOccurrence>) {
    && (forall i :: 0 <= i < |occurrences| ==> occurrences[i].startS <= occurrences[i].endS)
    && (forall i, j :: 0 <= i < j < |occurrences| ==> occurrences[i].endS <= occurrences[j].startS)
  }

  ghost predicate EntryKeeps(e: LedgerEntry, now: real) {
    && e.count == |e.occurrences| >= 1
    && InOrder(e.occurrences)
    && (e.active ==> Last(e.occurrences).endS == Last(e.occurrences).startS)
    && e.firstSeenS == e.occurrences[0].startS
    && Last(e.occurrences).endS <= now && e.firstSeenS <= e.lastSeenS <= now
    && e.totalActiveS == Length(e.occurrences)
  }

  lemma {:induction false} LengthFits(occurrences: seq<LedgerOccurrence>)
    requires occurrences != [] && InOrder(occurrences)
    ensures 0.0 <= Length(occurrences) <= Last(occurrences).endS - occurrences[0].startS
  {
    if |occurrences| > 1 {
      LengthFits(Init(occurrences));
      assert occurrences[|occurrences| - 2].endS <= Last(occurrences).startS;
    } else {
      assert Length(Init(occurrences)) == 0.0;
      assert occurrences[0].startS <= occurrences[0].endS;
    }
  }

  /** Ending the last occurrence elsewhere keeps the rest. */
  lemma {:induction false} ReplaceLast(occurrences: seq<LedgerOccurrence>, o: LedgerOccurrence)
    requires occurrences != [] && InOrder(occurrences)
    requires o.startS == Last(occurrences).startS <= o.endS
    ensures var changed := Init(occurrences) + [o];
            && InOrder(changed) && |changed| == |occurrences| && changed[0].startS == occurrences[0].startS
            && Length(changed) == Length(occurrences) - Last(occurrences).endS + o.endS
  {
    assert Init(Init(occurrences) + [o]) == Init(occurrences);
  }

  lemma {:induction false} AddLast(occurrences: seq<LedgerOccurrence>, o: LedgerOccurrence)
    requires occurrences != [] && InOrder(occurrences)
    requires Last(occurrences).endS <= o.startS == o.endS
    ensures InOrder(occurrences + [o]) && Length(occurrences + [o]) == Length(occurrences)
  {
    var last := |occurrences| - 1;
    assert Init(occurrences + [o]) == occurrences;
    forall i | 0 <= i <= last ensures occurrences[i].endS <= o.startS {
      assert occurrences[i].startS <= occurrences[i].endS;
      assert i < last ==> occurrences[i].endS <= occurrences[last].startS <= occurrences[last].endS;
    }
  }

  lemma {:induction false} GrowKeeps(e: LedgerEntry, r: DiagnosticResult, was: real, now: real)
    requires EntryKeeps(e, was) && was <= now && e.active
    ensures EntryKeeps(Touch(e, r, now), now)
  {
    hide RecordWorst;
    var open := WorsenOccurrence(Last(e.occurrences), r);
    assert Touch(e, r, now).occurrences == Init(e.occurrences) + [open];
    ReplaceLast(e.occurrences, open);
  }

  lemma {:induction false} ReopenKeeps(e: LedgerEntry, r: DiagnosticResult, was: real, now: real)
    requires EntryKeeps(e, was) && was <= now && !e.active
    ensures EntryKeeps(Touch(e, r, now), now)
  {
    hide RecordWorst;
    var another := WorsenOccurrence(LedgerOccurrence(now, now, 0.0), r);
    assert Touch(e, r, now).occurrences == e.occurrences + [another];
    AddLast(e.occurrences, another);
  }

  lemma {:induction false} TouchKeeps(e: LedgerEntry, r: DiagnosticResult, was: real, now: real)
    requires EntryKeeps(e, was) && was <= now
    ensures EntryKeeps(Touch(e, r, now), now)
    ensures Touch(e, r, now).firstSeenS == e.firstSeenS
  {
    if e.active {
      GrowKeeps(e, r, was, now);
    } else {
      ReopenKeeps(e, r, was, now);
    }
  }

  lemma {:induction false} CloseKeeps(e: LedgerEntry, was: real, now: real)
    requires EntryKeeps(e, was) && was <= now && e.active
    ensures EntryKeeps(Close(e, now), now) && !Close(e, now).active
  {
    var closed := Last(e.occurrences).(endS := now);
    ReplaceLast(e.occurrences, closed);
  }

  lemma {:induction false} EnterKeeps(p: Pending, r: DiagnosticResult, now: real)
    requires p.firstSeenS <= now
    ensures EntryKeeps(Enter(p, r, now), now)
  {
    var e := Enter(p, r, now);
    assert Length(Init(e.occurrences)) == 0.0;
  }

  // ----- What the whole ledger keeps -----

  ghost predicate Keeps(st: LedgerState, now: real) {
    && Tidy(st)
    && (forall k :: 0 <= k < |st.entries| ==> EntryKeeps(st.entries[k], now))
    && (forall i, j :: 0 <= i < j < |st.entries| ==> st.entries[i].firstSeenS <= st.entries[j].firstSeenS)
    // A waiting id has fired exactly once, at the last evaluation, so all wait since the same time.
    && (forall id :: id in st.pending ==> st.pending[id].consecutive == 1 && st.pending[id].firstSeenS <= now)
    && (forall id, other :: id in st.pending && other in st.pending
          ==> st.pending[id].firstSeenS == st.pending[other].firstSeenS)
    && (forall id, k :: id in st.pending && 0 <= k < |st.entries|
          ==> st.entries[k].firstSeenS <= st.pending[id].firstSeenS)
  }

  /** Every entry an evaluation adds comes from an id that was waiting. */
  lemma {:induction false} EnteredForm(es: seq<LedgerEntry>, pending: map<string, Pending>, live: set<string>,
                                       results: seq<DiagnosticResult>, now: real)
    requires forall id :: id in pending ==> pending[id].consecutive == 1
    ensures forall k :: 0 <= k < |Entered(es, pending, live, results, now)| ==>
              var e := Entered(es, pending, live, results, now)[k];
              e.id in pending && e.firstSeenS == pending[e.id].firstSeenS && e.active
              && (e.firstSeenS <= now ==> EntryKeeps(e, now))
  {
    if results != [] {
      EnteredForm(es, pending, live, Init(results), now);
      var r := Last(results);
      if r.id in pending && pending[r.id].firstSeenS <= now {
        EnterKeeps(Wait(Some(pending[r.id]), r, now), r, now);
      }
    }
  }

  /** Every id still waiting after an evaluation started to wait with it. */
  lemma {:induction false} WaitsAnew(st: LedgerState, live: set<string>, results: seq<DiagnosticResult>, now: real,
                                     id: string)
    requires Tidy(st) && Distinct(live, results)
    requires forall i :: i in st.pending ==> st.pending[i].consecutive == 1
    requires id in Observed(st, live, results, now).pending
    ensures Observed(st, live, results, now).pending[id].consecutive == 1
    ensures Observed(st, live, results, now).pending[id].firstSeenS == now
  {
    var waiting := Waiting(st.entries, st.pending, live, results, now);
    assert id in waiting && ResultFor(live, results, id).Some?;
    if HasEntry(st.entries, id) {
      WaitingUntouched(st.entries, st.pending, live, results, now, id);
    }
    assert !HasEntry(st.entries, id);
    EnteredFor(st.entries, st.pending, live, results, now, id);
  }

  lemma {:induction false} ObservedEntriesKeep(st: LedgerState, live: set<string>, results: seq<DiagnosticResult>,
                                               was: real, now: real)
    requires Keeps(st, was) && was <= now
    ensures var after := Observed(st, live, results, now);
            && |st.entries| <= |after.entries|
            && (forall k :: 0 <= k < |st.entries| ==> after.entries[k].firstSeenS == st.entries[k].firstSeenS)
            && (forall k :: |st.entries| <= k < |after.entries| ==>
                  var id := after.entries[k].id;
                  id in st.pending && after.entries[k].firstSeenS == st.pending[id].firstSeenS)
            && (forall k :: 0 <= k < |after.entries| ==> EntryKeeps(after.entries[k], now))
  {
    var half := Half(st, live, results, now);
    var after := Observed(st, live, results, now);
    EnteredForm(st.entries, st.pending, live, results, now);
    EnteredIds(st.entries, st.pending, live, results, now);
    forall k | 0 <= k < |after.entries|
      ensures EntryKeeps(after.entries[k], now)
      ensures k < |st.entries| ==> after.entries[k].firstSeenS == st.entries[k].firstSeenS
      ensures k >= |st.entries| ==>
                var id := after.entries[k].id;
                id in st.pending && after.entries[k].firstSeenS == st.pending[id].firstSeenS
    {
      if k < |st.entries| {
        assert EntryKeeps(st.entries[k], was);
        match ResultFor(live, results, st.entries[k].id) {
          case Some(r) => TouchKeeps(st.entries[k], r, was, now);
          case None => if st.entries[k].active { CloseKeeps(st.entries[k], was, now); }
        }
      } else {
        var e := Entered(st.entries, st.pending, live, results, now)[k - |st.entries|];
        assert after.entries[k] == e && e.id in st.pending;
      }
    }
  }

  lemma {:induction false} ObservedKeeps(st: LedgerState, live: set<string>, results: seq<DiagnosticResult>,
                                         was: real, now: real)
    requires Keeps(st, was) && was <= now && Distinct(live, results)
    ensures Keeps(Observed(st, live, results, now), now)
  {
    var after := Observed(st, live, results, now);
    ObservedIsTidy(st, live, results, now);
    ObservedEntriesKeep(st, live, results, was, now);
    forall id | id in after.pending
      ensures after.pending[id].consecutive == 1 && after.pending[id].firstSeenS == now
    {
      WaitsAnew(st, live, results, now, id);
    }
    forall k | 0 <= k < |after.entries| ensures after.entries[k].firstSeenS <= now {
      assert EntryKeeps(after.entries[k], now);
    }
  }

  lemma {:induction false} FrozenKeeps(st: LedgerState, was: real, end: real)
    requires Keeps(st, was) && was <= end
    ensures Keeps(Frozen(st, end), end)
  {
    var after := Frozen(st, end);
    forall k | 0 <= k < |after.entries|
      ensures EntryKeeps(after.entries[k], end) && after.entries[k].firstSeenS == st.entries[k].firstSeenS
      ensures after.entries[k].id == st.entries[k].id
    {
      assert EntryKeeps(st.entries[k], was);
      if st.entries[k].active {
        CloseKeeps(st.entries[k], was, end);
      }
    }
  }

  /** Every reachable ledger keeps all of it. */
  lemma {:induction false} ReachableKeeps(live: set<string>, generation: nat, events: seq<Event>)
    requires Lawful(live, events)
    ensures Keeps(After(live, generation, events), if events == [] then 0.0 else Last(events).at)
  {
    if events != [] {
      var e := events[|events| - 1];
      ReachableKeeps(live, generation, Init(events));
      var st, was := After(live, generation, Init(events)), if |events| == 1 then 0.0 else Last(Init(events)).at;
      assert was <= e.at;
      match e {
        case Observe(results, now) => ObservedKeeps(st, live, results, was, now);
        case Freeze(end) => FrozenKeeps(st, was, end);
      }
    }
  }

  /** The time an entry was active is the sum of its stretches and fits in the time since it was first seen. */
  lemma {:induction false} ActiveTimeFits(live: set<string>, generation: nat, events: seq<Event>, k: nat)
    requires Lawful(live, events) && events != [] && k < |After(live, generation, events).entries|
    ensures var e := After(live, generation, events).entries[k];
            e.totalActiveS == Length(e.occurrences) && 0.0 <= e.totalActiveS <= Last(events).at - e.firstSeenS
  {
    ReachableKeeps(live, generation, events);
    var e := After(live, generation, events).entries[k];
    assert EntryKeeps(e, Last(events).at);
    LengthFits(e.occurrences);
  }

  /** Freezing again, at any later time, changes nothing. */
  lemma {:induction false} FreezeIsIdempotent(st: LedgerState, end: real, later: real)
    ensures Frozen(Frozen(st, end), later) == Frozen(st, end)
  {
    assert forall k :: 0 <= k < |st.entries| ==> !Frozen(st, end).entries[k].active;
    assert FrozenEntries(Frozen(st, end).entries, later) == Frozen(st, end).entries;
    assert FrozenFacts(Frozen(st, end).compensated) == Frozen(st, end).compensated;
  }

  /** A freeze is an evaluation in which nothing fires. */
  lemma {:induction false} FreezeIsAnEmptyEvaluation(st: LedgerState, live: set<string>, end: real)
    ensures Frozen(st, end) == Observed(st, live, [], end)
  {
    var half := Half(st, live, [], end);
    assert half.entries == st.entries && Noted(st.compensated, [], end) == st.compensated;
    assert FrozenEntries(st.entries, end) == Quieted(st.entries, live, [], end);
    assert FrozenFacts(st.compensated) == QuietedFacts(st.compensated, []);
    assert StillFiring(st.pending, live, []) == map[];
  }

  /** The evaluations an event stream amounts to. */
  function Evaluations(events: seq<Event>): (trace: seq<Evaluation>)
    ensures |trace| == |events|
  {
    seq(|events|, k requires 0 <= k < |events| =>
      Evaluation(if events[k].Observe? then events[k].results else [], events[k].at))
  }

  lemma {:induction false} AfterIsReplay(live: set<string>, generation: nat, events: seq<Event>)
    ensures After(live, generation, events) == Replay(live, generation, Evaluations(events))
  {
    hide Observed, Frozen;
    if events != [] {
      AfterIsReplay(live, generation, Init(events));
      assert Init(Evaluations(events)) == Evaluations(Init(events));
      if Last(events).Freeze? {
        FreezeIsAnEmptyEvaluation(After(live, generation, Init(events)), live, Last(events).at);
      }
    }
  }

  /** For evaluations and freezes in any order, the ledger knows of each id what the offline reading calls
      for, a freeze counting as an evaluation without the id: it ends the open run at its time, and what
      fires afterwards starts another. */
  lemma {:induction false} EventsMeetOffline(live: set<string>, generation: nat, events: seq<Event>, id: string)
    requires forall k :: 0 <= k < |events| && events[k].Observe? ==> Distinct(live, events[k].results)
    ensures MeetsOffline(TrackOf(After(live, generation, events), id), Stream(live, Evaluations(events), id))
  {
    AfterIsReplay(live, generation, events);
    forall k | 0 <= k < |events| ensures Distinct(live, Evaluations(events)[k].results) {
      assert events[k].Freeze? ==> Evaluations(events)[k].results == [];
    }
    ReplayMeetsOffline(live, generation, Evaluations(events), id);
  }

  /** An entry never leaves, keeps its place, and its count never falls. */
  lemma {:induction false} EntriesStay(st: LedgerState, live: set<string>, event: Event, k: nat)
    requires k < |st.entries|
    ensures var after := Apply(st, live, event);
            k < |after.entries| && after.entries[k].id == st.entries[k].id
            && st.entries[k].count <= after.entries[k].count
  {
    if event.Observe? {
      assert Half(st, live, event.results, event.at).entries[k]
          == Touched(st.entries, live, event.results, event.at)[k];
    }
  }

  // ----- Compensated facts -----

  /** At which evaluations the compensated fact `id` fires. */
  function FactSignal(trace: seq<Evaluation>, id: string): (fires: seq<bool>)
    ensures |fires| == |trace|
  {
    seq(|trace|, k requires 0 <= k < |trace| => FiresFact(trace[k].results, id))
  }

  /** The stream of the compensated fact `id`: one sample a result, since the same id may come more than once. */
  function FactSamples(results: seq<DiagnosticResult>, now: real, id: string): (samples: seq<Sample>)
    ensures |samples| == |results|
  {
    seq(|results|, k requires 0 <= k < |results| =>
      var r := results[k];
      Sample(if r.id == id && r.tier.Fact? && r.compensation != "" then Some(r) else None, now))
  }

  function FactStream(trace: seq<Evaluation>, id: string): (stream: seq<Sample>) {
    if trace == [] then []
    else FactStream(Init(trace), id) + FactSamples(Last(trace).results, Last(trace).now, id)
  }

  ghost predicate FirstAndLast(stream: seq<Sample>, first: nat, last: nat) {
    && first <= last < |stream| && stream[first].result.Some? && stream[last].result.Some?
    && (forall k :: 0 <= k < |stream| && stream[k].result.Some? ==> first <= k <= last)
  }

  /** An entry of a fact: worded by its first result and seen from there to its last one, with the worst of all of
      them and none of what belongs to a measured problem. */
  ghost predicate TellsFact(e: LedgerEntry, stream: seq<Sample>, first: nat, last: nat) {
    && FirstAndLast(stream, first, last) && IsWorst(e.worst, stream, 0)
    && var r := stream[first].result.value;
    && e.id == r.id && e.title == r.title && e.summary == r.summary && e.compensation == r.compensation
    && e.firstSeenS == stream[first].now && e.lastSeenS == stream[last].now
    && e.logExcerpt == "" && e.fixId == "" && e.fixLabel == "" && e.budget == None && e.unit == ""
    && e.totalActiveS == 0.0 && e.occurrences == []
  }

  ghost predicate TellsFacts(facts: seq<LedgerEntry>, id: string, stream: seq<Sample>) {
    if HasEntry(facts, id)
    then exists first: nat, last: nat :: TellsFact(facts[IndexOf(facts, id)], stream, first, last)
    else forall k :: 0 <= k < |stream| ==> stream[k].result.None?
  }

  lemma {:induction false} SilentIsNoWorst(stream: seq<Sample>)
    requires forall k :: 0 <= k < |stream| ==> stream[k].result.None?
    ensures IsWorst(NOTHING_YET, stream, 0)
  {
  }

  lemma {:induction false} NewFactTells(r: DiagnosticResult, stream: seq<Sample>)
    requires stream != [] && Last(stream).result == Some(r)
    requires forall k :: 0 <= k < |stream| - 1 ==> stream[k].result.None?
    ensures TellsFact(Note(NewFact(r, Last(stream).now), r, Last(stream).now), stream, |stream| - 1, |stream| - 1)
  {
    hide IsWorst, RecordWorst;
    SilentIsNoWorst(Init(stream));
    WorstNext(NOTHING_YET, stream, 0);
  }

  lemma {:induction false} NoteTells(e: LedgerEntry, stream: seq<Sample>, first: nat, last: nat)
    requires stream != [] && TellsFact(e, Init(stream), first, last)
    ensures if Last(stream).result.Some?
            then TellsFact(Note(e, Last(stream).result.value, Last(stream).now), stream, first, |stream| - 1)
            else TellsFact(e, stream, first, last)
  {
    hide IsWorst, RecordWorst;
    WorstNext(e.worst, stream, 0);
    assert forall k :: 0 <= k < |stream| ==> stream[k] == if k < |stream| - 1 then Init(stream)[k] else Last(stream);
  }

  /** Where the entry of `id` stands once `r` is noted, and what it is. */
  lemma {:induction false} NotedOne(facts: seq<LedgerEntry>, r: DiagnosticResult, now: real, id: string)
    ensures var noted := Noted(facts, [r], now);
            var mine := Compensated(r) && r.id == id;
            && HasEntry(noted, id) == (HasEntry(facts, id) || mine)
            && (HasEntry(noted, id) ==>
                  var e := if HasEntry(facts, id) then facts[IndexOf(facts, id)] else NewFact(r, now);
                  noted[IndexOf(noted, id)] == if mine then Note(e, r, now) else e)
  {
    hide RecordWorst;
    assert Init([r]) == [] && Last([r]) == r;
    var noted, k := Noted(facts, [r], now), IndexOf(facts, r.id);
    if Compensated(r) && k < |facts| {
      IndexOfSameIds(noted, facts, id);
    } else if Compensated(r) {
      IndexOfAppend(facts, [Note(NewFact(r, now), r, now)], id);
    }
  }

  lemma {:induction false} NotedOneTells(facts: seq<LedgerEntry>, r: DiagnosticResult, now: real, id: string,
                                         stream: seq<Sample>)
    requires stream != [] && TellsFacts(facts, id, Init(stream)) && Last(stream) == FactSamples([r], now, id)[0]
    ensures TellsFacts(Noted(facts, [r], now), id, stream)
  {
    hide TellsFact, Note, NewFact, Noted, IndexOf;
    NotedOne(facts, r, now, id);
    if HasEntry(facts, id) {
      var e := facts[IndexOf(facts, id)];
      var first: nat, last: nat :| TellsFact(e, Init(stream), first, last);
      NoteTells(e, stream, first, last);
    } else if Compensated(r) && r.id == id {
      NewFactTells(r, stream);
    }
  }

  lemma {:induction false} NotedNext(facts: seq<LedgerEntry>, results: seq<DiagnosticResult>, now: real)
    requires results != []
    ensures Noted(facts, results, now) == Noted(Noted(facts, Init(results), now), [Last(results)], now)
  {
    assert Init([Last(results)]) == [];
  }

  lemma {:induction false} NotedTells(facts: seq<LedgerEntry>, results: seq<DiagnosticResult>, now: real, id: string,
                                      stream: seq<Sample>)
    requires TellsFacts(facts, id, stream)
    ensures TellsFacts(Noted(facts, results, now), id, stream + FactSamples(results, now, id))
  {
    hide TellsFacts;
    if results == [] {
      assert stream + FactSamples(results, now, id) == stream;
    } else {
      var grown := stream + FactSamples(results, now, id);
      NotedTells(facts, Init(results), now, id, stream);
      NotedNext(facts, results, now);
      assert Init(grown) == stream + FactSamples(Init(results), now, id);
      NotedOneTells(Noted(facts, Init(results), now), Last(results), now, id, grown);
    }
  }

  lemma {:induction false} QuietedTells(facts: seq<LedgerEntry>, results: seq<DiagnosticResult>, id: string,
                                        stream: seq<Sample>)
    requires TellsFacts(facts, id, stream)
    ensures TellsFacts(QuietedFacts(facts, results), id, stream)
  {
    hide FiresFact, IsWorst, FirstAndLast;
    var quieted := QuietedFacts(facts, results);
    IndexOfSameIds(quieted, facts, id);
    if HasEntry(facts, id) {
      var first: nat, last: nat :| TellsFact(facts[IndexOf(facts, id)], stream, first, last);
      assert TellsFact(quieted[IndexOf(quieted, id)], stream, first, last);
    }
  }

  /** After any evaluations a fact has an entry exactly if it ever fired, and the entry tells its whole stream. */
  lemma {:induction false} FactsTellTheirStream(live: set<string>, generation: nat, trace: seq<Evaluation>,
                                                id: string)
    ensures TellsFacts(Replay(live, generation, trace).compensated, id, FactStream(trace, id))
  {
    hide TellsFact;
    if trace != [] {
      var facts := Replay(live, generation, Init(trace)).compensated;
      FactsTellTheirStream(live, generation, Init(trace), id);
      NotedTells(facts, Last(trace).results, Last(trace).now, id, FactStream(Init(trace), id));
      QuietedTells(Noted(facts, Last(trace).results, Last(trace).now), Last(trace).results, id, FactStream(trace, id));
    }
  }

  lemma {:induction false} FiresFactNext(results: seq<DiagnosticResult>, id: string)
    requires results != []
    ensures FiresFact(results, id)
         == (FiresFact(Init(results), id) || (Compensated(Last(results)) && Last(results).id == id))
  {
    assert forall k :: 0 <= k < |Init(results)| ==> results[k] == Init(results)[k];
    if Compensated(Last(results)) && Last(results).id == id {
      assert results[|results| - 1].id == id;
    }
  }

  lemma {:induction false} NotedOneId(es: seq<LedgerEntry>, results: seq<DiagnosticResult>, now: real, id: string)
    ensures var noted := Noted(es, results, now);
            && HasEntry(noted, id) == (HasEntry(es, id) || FiresFact(results, id))
            && (HasEntry(noted, id) ==>
                  var was := if HasEntry(es, id) then es[IndexOf(es, id)].count else 0;
                  var active := HasEntry(es, id) && es[IndexOf(es, id)].active;
                  var e := noted[IndexOf(noted, id)];
                  if FiresFact(results, id) then e.active && e.count == (if active then was else was + 1)
                  else e.active == active && e.count == was)
  {
    if results != [] {
      hide FiresFact, RecordWorst;
      NotedOneId(es, Init(results), now, id);
      var before, r := Noted(es, Init(results), now), Last(results);
      FiresFactNext(results, id);
      if Compensated(r) {
        var k := IndexOf(before, r.id);
        if k < |before| {
          IndexOfSameIds(before, before[k := Note(before[k], r, now)], id);
        } else {
          IndexOfAppend(before, [Note(NewFact(r, now), r, now)], id);
        }
      }
    }
  }

  /** The entry for the fact `id` once it fired in `runs` stretches. */
  ghost predicate CountsFact(facts: seq<LedgerEntry>, id: string, runs: nat, firing: bool) {
    && HasEntry(facts, id) == (runs > 0)
    && (HasEntry(facts, id) ==>
          facts[IndexOf(facts, id)].count == runs && facts[IndexOf(facts, id)].active == firing)
  }

  lemma {:induction false} FactStep(facts: seq<LedgerEntry>, results: seq<DiagnosticResult>, now: real, id: string,
                                    runs: nat, firing: bool)
    requires CountsFact(facts, id, runs, firing) && (firing ==> runs > 0)
    ensures CountsFact(QuietedFacts(Noted(facts, results, now), results), id,
                       if FiresFact(results, id) && !firing then runs + 1 else runs, FiresFact(results, id))
  {
    var noted := Noted(facts, results, now);
    NotedOneId(facts, results, now, id);
    IndexOfSameIds(noted, QuietedFacts(noted, results), id);
  }

  /** Over any evaluations, a compensated fact counts its maximal runs, with no debounce, and is active
      while it fires. */
  lemma {:induction false} FactsCountRuns(live: set<string>, generation: nat, trace: seq<Evaluation>, id: string)
    ensures var signal := FactSignal(trace, id);
            CountsFact(Replay(live, generation, trace).compensated, id, |Runs(signal)|, signal != [] && Last(signal))
  {
    if trace != [] {
      var signal := FactSignal(trace, id);
      FactsCountRuns(live, generation, Init(trace), id);
      assert FactSignal(Init(trace), id) == Init(signal);
      RunsDecompose(Init(signal));
      FactStep(Replay(live, generation, Init(trace)).compensated, Last(trace).results, Last(trace).now, id,
               |Runs(Init(signal))|, Init(signal) != [] && Last(Init(signal)));
    }
  }
}

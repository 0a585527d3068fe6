/**
 The in-memory side of the application log (app/diagnostics/AppLog.cpp): a bounded history,
 a batch of entries waiting for delivery, and the locked sections that change them.
 */
module AppLog {
  import opened Wrappers
  import opened Sequences

  datatype LogSeverity = Debug | Info | Warning | Error | Critical

  function Rank(s: LogSeverity): nat {
    match s
    case Debug => 0
    case Info => 1
    case Warning => 2
    case Error => 3
    case Critical => 4
  }

  datatype LogEntry = LogEntry(sequence: nat, severity: LogSeverity, category: string, message: string)

  datatype LogState = LogState(
    history: seq<LogEntry>, pending: seq<LogEntry>, pendingEvicted: nat, maxEntries: nat, nextSequence: nat,
    deliveryScheduled: bool, deliveryEnabled: bool, minSeverity: Option<LogSeverity>)

  /** With no minimum the log is off; otherwise the minimum itself still passes. */
  predicate Passes(min: Option<LogSeverity>, severity: LogSeverity) {
    min.Some? && Rank(severity) >= Rank(min.value)
  }

  /** The severities a minimum lets through, listed. */
  predicate NotBelow(severity: LogSeverity, min: LogSeverity) {
    match min
    case Debug => true
    case Info => severity in {Info, Warning, LogSeverity.Error, Critical}
    case Warning => severity in {Warning, LogSeverity.Error, Critical}
    case Error => severity in {LogSeverity.Error, Critical}
    case Critical => severity == Critical
  }

  /** The minimum itself and everything above it pass; without a minimum nothing does. */
  lemma {:induction false} PassesIff(min: Option<LogSeverity>, severity: LogSeverity)
    ensures Passes(min, severity) <==> min.Some? && NotBelow(severity, min.value)
  {
  }

  /** How many of `n` entries do not fit. */
  function Overflow(n: nat, max: nat): nat {
    if n > max then n - max else 0
  }

  // ----- The locked sections, as functions of the whole state -----

  /** `app` tells whether there is an application whose event loop could deliver. */
  function Written(st: LogState, severity: LogSeverity, category: string, message: string, app: bool): LogState {
    if !Passes(st.minSeverity, severity) then st
    else
      var entry := LogEntry(st.nextSequence, severity, category, message);
      var over := Overflow(|st.history| + 1, st.maxEntries);
      st.(history := (st.history + [entry])[over..],
          pending := st.pending + [entry],
          pendingEvicted := st.pendingEvicted + over,
          nextSequence := st.nextSequence + 1,
          deliveryScheduled := st.deliveryScheduled || (st.deliveryEnabled && app))
  }

  /** Does this write have to post a delivery? */
  predicate Schedules(st: LogState, severity: LogSeverity, app: bool) {
    Passes(st.minSeverity, severity) && !st.deliveryScheduled && st.deliveryEnabled && app
  }

  /** What a write comes to. Below the minimum, or without one, nothing changes. Otherwise the line is the newest
      entry of the history and of the batch, as it was given and with the next number; the history loses its
      oldest entry if it was full; and a delivery is to be posted if there can be one and none is on its way. */
  ghost predicate Records(before: LogState, after: LogState, severity: LogSeverity, category: string, message: string,
                          app: bool, schedule: bool)
  {
    if before.minSeverity.None? || !NotBelow(severity, before.minSeverity.value) then after == before && !schedule
    else
      && (schedule <==> !before.deliveryScheduled && before.deliveryEnabled && app)
      && (after.deliveryScheduled <==> before.deliveryScheduled || schedule)
      && |after.history| == (if |before.history| < before.maxEntries then |before.history| + 1 else before.maxEntries)
      && after.history != [] && IsSuffix(Init(after.history), before.history)
      && after.pending == before.pending + [Last(after.history)]
      && after.nextSequence == before.nextSequence + 1
      && var entry := Last(after.history);
      && entry.sequence == before.nextSequence && entry.severity == severity
      && entry.category == category && entry.message == message
  }

  lemma {:induction false} WrittenRecords(st: LogState, severity: LogSeverity, category: string, message: string,
                                          app: bool)
    requires st.maxEntries >= 1
    ensures Records(st, Written(st, severity, category, message, app), severity, category, message, app,
                    Schedules(st, severity, app))
  {
    PassesIff(st.minSeverity, severity);
    hide Passes, NotBelow;
    if Passes(st.minSeverity, severity) {
      var over := Overflow(|st.history| + 1, st.maxEntries);
      var after := Written(st, severity, category, message, app).history;
      assert Init(after) == st.history[over..];
    }
  }

  function Cleared(st: LogState): LogState {
    st.(history := [], pending := [], pendingEvicted := 0, deliveryScheduled := false)
  }

  function Taken(st: LogState): LogState {
    st.(pending := [], pendingEvicted := 0, deliveryScheduled := false)
  }

  function Fresh(maxEntries: nat): LogState {
    LogState([], [], 0, maxEntries, 1, false, true, Some(Debug))
  }

  // ----- The log itself -----

  class AppLog {
    var history: seq<LogEntry>
    var pending: seq<LogEntry>
    var pendingEvicted: nat
    var maxEntries: nat
    var nextSequence: nat
    var deliveryScheduled: bool
    var deliveryEnabled: bool
    var minSeverity: Option<LogSeverity>

    constructor (maxEntries: nat)
      requires maxEntries >= 1
      ensures State() == Fresh(maxEntries)
    {
      history, pending, pendingEvicted := [], [], 0;
      this.maxEntries := maxEntries;
      nextSequence, deliveryScheduled, deliveryEnabled := 1, false, true;
      minSeverity := Some(Debug);
    }

    ghost function State(): LogState
      reads this
    {
      LogState(history, pending, pendingEvicted, maxEntries, nextSequence,
               deliveryScheduled, deliveryEnabled, minSeverity)
    }

    /** Pushes one entry at the back and pops as many at the front as no longer fit. */
    method AppendToHistory(entry: LogEntry) returns (evicted: nat)
      requires maxEntries >= 1
      modifies this`history
      ensures evicted == Overflow(|old(history)| + 1, maxEntries)
      ensures history == (old(history) + [entry])[evicted..]
    {
      history := history + [entry];
      evicted := 0;
      while |history| > maxEntries
        invariant evicted <= Overflow(|old(history)| + 1, maxEntries)
        invariant history == (old(history) + [entry])[evicted..]
        decreases |history|
      {
        history := history[1..];
        evicted := evicted + 1;
      }
    }

    /** Returns whether the caller has to post a delivery once it let go of the lock. */
    method Write(severity: LogSeverity, category: string, message: string, app: bool) returns (schedule: bool)
      requires maxEntries >= 1
      modifies this
      ensures State() == Written(old(State()), severity, category, message, app)
      ensures Records(old(State()), State(), severity, category, message, app, schedule)
    {
      WrittenRecords(State(), severity, category, message, app);
      hide Passes, Overflow, Records;
      schedule := false;
      if !Passes(minSeverity, severity) {
        return;
      }
      var entry := LogEntry(nextSequence, severity, category, message);
      nextSequence := nextSequence + 1;
      var evicted := AppendToHistory(entry);
      pending := pending + [entry];
      pendingEvicted := pendingEvicted + evicted;
      if !deliveryScheduled && deliveryEnabled && app {
        deliveryScheduled := true;
        schedule := true;
      }
    }

    method Clear()
      modifies this
      ensures State() == Cleared(old(State()))
    {
      history, pending, pendingEvicted, deliveryScheduled := [], [], 0, false;
    }

    /** What a delivery signals; an empty batch is not signalled at all. */
    method DeliverPending() returns (batch: seq<LogEntry>, evicted: nat)
      modifies this
      ensures State() == Taken(old(State()))
      ensures batch == (if deliveryEnabled then old(pending) else [])
      ensures evicted == old(pendingEvicted)
    {
      batch, evicted := pending, pendingEvicted;
      pending, pendingEvicted, deliveryScheduled := [], 0, false;
      if !deliveryEnabled {
        batch := [];
      }
    }
  }

  // ----- The history is a window on the sequence numbers -----

  /** Consecutive sequence numbers, the last one just below `next`. */
  ghost predicate EndsBelow(entries: seq<LogEntry>, next: nat) {
    |entries| < next && forall k :: 0 <= k < |entries| ==> entries[k].sequence == next - |entries| + k
  }

  ghost predicate IsWindow(st: LogState) {
    && 1 <= st.maxEntries
    && |st.history| <= st.maxEntries
    && EndsBelow(st.history, st.nextSequence) && EndsBelow(st.pending, st.nextSequence)
  }

  lemma {:induction false} WrittenIsWindow(st: LogState, severity: LogSeverity, category: string, message: string,
                                           app: bool)
    requires IsWindow(st)
    ensures IsWindow(Written(st, severity, category, message, app))
  {
  }

  // ----- A selection by sequence number -----

  /** The entries of a list that `keep` lets through. */
  function Filter(entries: seq<LogEntry>, keep: LogEntry -> bool): (kept: seq<LogEntry>)
    ensures forall e :: e in kept ==> e in entries && keep(e)
  {
    if entries == [] then []
    else (if keep(entries[0]) then [entries[0]] else []) + Filter(entries[1..], keep)
  }

  function InRange(first: nat, last: nat): LogEntry -> bool {
    (e: LogEntry) =>
      (if first <= last then first else last) <= e.sequence <= (if first <= last then last else first)
  }

  lemma {:induction false} FilterConcat(s: seq<LogEntry>, t: seq<LogEntry>, keep: LogEntry -> bool)
    ensures Filter(s + t, keep) == Filter(s, keep) + Filter(t, keep)
  {
    if s == [] {
      assert s + t == t;
    } else {
      assert (s + t)[1..] == s[1..] + t;
      FilterConcat(s[1..], t, keep);
    }
  }

  lemma {:induction false} FilterOne(e: LogEntry, keep: LogEntry -> bool)
    ensures Filter([e], keep) == if keep(e) then [e] else []
  {
    assert [e][1..] == [];
  }

  lemma {:induction false} FilterIsExact(entries: seq<LogEntry>, keep: LogEntry -> bool)
    ensures forall e :: e in Filter(entries, keep) <==> e in entries && keep(e)
  {
    if entries != [] {
      FilterIsExact(entries[1..], keep);
      assert forall e :: e in entries <==> e == entries[0] || e in entries[1..];
    }
  }

  method EntriesInSequenceRange(entries: seq<LogEntry>, first: nat, last: nat) returns (selected: seq<LogEntry>)
    ensures selected == Filter(entries, InRange(first, last))
    ensures forall e :: e in selected <==>
                        e in entries && (first <= e.sequence <= last || last <= e.sequence <= first)
  {
    FilterIsExact(entries, InRange(first, last));
    var low := if first <= last then first else last;
    var high := if first <= last then last else first;
    ghost var keep := InRange(first, last);
    selected := [];
    for k := 0 to |entries|
      invariant selected == Filter(entries[..k], keep)
    {
      assert entries[..k + 1] == entries[..k] + [entries[k]];
      FilterConcat(entries[..k], [entries[k]], keep);
      FilterOne(entries[k], keep);
      if low <= entries[k].sequence <= high {
        selected := selected + [entries[k]];
      }
    }
    assert entries[..|entries|] == entries;
  }

  /** What a writer or a clear does to the history. */
  datatype Change = Logged(severity: LogSeverity, category: string, message: string, app: bool) | Wiped | Delivered

  function Changed(st: LogState, c: Change): LogState {
    match c
    case Logged(severity, category, message, app) => Written(st, severity, category, message, app)
    case Wiped => Cleared(st)
    case Delivered => Taken(st)
  }

  function ChangedAll(st: LogState, changes: seq<Change>): LogState
    decreases |changes|
  {
    if changes == [] then st else ChangedAll(Changed(st, changes[0]), changes[1..])
  }

  lemma {:induction false} FilterNone(keep: LogEntry -> bool)
    ensures Filter([], keep) == []
  {
  }

  lemma {:induction false} ChangeShrinksSelection(st: LogState, c: Change, keep: LogEntry -> bool)
    requires IsWindow(st)
    requires forall e: LogEntry :: keep(e) ==> e.sequence < st.nextSequence
    ensures IsWindow(Changed(st, c)) && st.nextSequence <= Changed(st, c).nextSequence
    ensures IsSuffix(Filter(Changed(st, c).history, keep), Filter(st.history, keep))
  {
    hide Filter;
    if c.Logged? && Passes(st.minSeverity, c.severity) {
      var entry := LogEntry(st.nextSequence, c.severity, c.category, c.message);
      var over := Overflow(|st.history| + 1, st.maxEntries);
      WrittenIsWindow(st, c.severity, c.category, c.message, c.app);
      assert Changed(st, c).history == st.history[over..] + [entry];
      assert st.history == st.history[..over] + st.history[over..];
      FilterConcat(st.history[..over], st.history[over..], keep);
      FilterConcat(st.history[over..], [entry], keep);
      FilterOne(entry, keep);
    } else {
      FilterNone(keep);
    }
  }

  /** A selection made now only loses entries at its old end, whatever is written, cleared or
      delivered afterwards: it shrinks, and never slides onto other entries. `keep` is any row
      filter that names only entries already numbered. */
  lemma {:induction false} SelectionOnlyShrinks(st: LogState, changes: seq<Change>, keep: LogEntry -> bool)
    requires IsWindow(st)
    requires forall e: LogEntry :: keep(e) ==> e.sequence < st.nextSequence
    ensures IsWindow(ChangedAll(st, changes))
    ensures IsSuffix(Filter(ChangedAll(st, changes).history, keep), Filter(st.history, keep))
    decreases |changes|
  {
    if changes != [] {
      ChangeShrinksSelection(st, changes[0], keep);
      SelectionOnlyShrinks(Changed(st, changes[0]), changes[1..], keep);
    }
  }

  /** A range below the next number is such a filter. */
  lemma {:induction false} RangeOnlyShrinks(st: LogState, changes: seq<Change>, first: nat, last: nat)
    requires IsWindow(st) && first < st.nextSequence && last < st.nextSequence
    ensures IsSuffix(Filter(ChangedAll(st, changes).history, InRange(first, last)),
                     Filter(st.history, InRange(first, last)))
  {
    SelectionOnlyShrinks(st, changes, InRange(first, last));
  }
}

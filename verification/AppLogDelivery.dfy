/**
 How the log reaches its subscribers: any number of writer threads, deliveries queued on the thread the
 log lives on, and clears made on that thread or on any other (app/diagnostics/AppLog.cpp).

 A step is one locked section or one thing the log's own thread does between two of them. Delivery is
 enabled and there is an application, as between start-up and quitting. What is queued on the log's thread
 may run in any order, so whatever is proved holds for the order of the event queue.
 */
module AppLogDelivery {
  import opened Wrappers
  import opened Sequences
  import opened AppLog

  /** What the log's own thread is in the middle of. */
  datatype Owner =
    | Ready
    | Emitting(batch: seq<LogEntry>, evicted: nat)
    | Clearing

  datatype System = System(
    log: LogState, aboutToPost: nat, posted: nat, aboutToSignal: nat, signals: nat, owner: Owner,
    mirror: seq<LogEntry>)

  datatype Step =
    | Write(severity: LogSeverity, category: string, message: string)
    | Post
    | Take
    | Emit
    | BeginClear
    | EndClear
    | ForeignClear
    | PostCleared
    | SignalCleared
    | SetMinSeverity(min: Option<LogSeverity>)

  /** A mirror kept from the signals alone: append the batch, drop what was evicted from the front. */
  function Follow(mirror: seq<LogEntry>, batch: seq<LogEntry>, evicted: nat): seq<LogEntry> {
    if evicted <= |mirror + batch| then (mirror + batch)[evicted..] else []
  }

  predicate Enabled(s: System, step: Step) {
    match step
    case Write(_, _, _) => true
    case Post => s.aboutToPost > 0
    case Take => s.owner.Ready? && s.posted > 0
    case Emit => s.owner.Emitting?
    case BeginClear => s.owner.Ready?
    case EndClear => s.owner.Clearing?
    case ForeignClear => true
    case PostCleared => s.aboutToSignal > 0
    case SignalCleared => s.owner.Ready? && s.signals > 0
    case SetMinSeverity(_) => true
  }

  function Next(s: System, step: Step): System
    requires Enabled(s, step)
  {
    match step
    case Write(severity, category, message) =>
      s.(log := Written(s.log, severity, category, message, true),
         aboutToPost := if Schedules(s.log, severity, true) then s.aboutToPost + 1 else s.aboutToPost)
    case Post => s.(aboutToPost := s.aboutToPost - 1, posted := s.posted + 1)
    case Take =>
      s.(log := Taken(s.log), posted := s.posted - 1,
         owner := if s.log.pending == [] then Ready else Emitting(s.log.pending, s.log.pendingEvicted))
    case Emit => s.(mirror := Follow(s.mirror, s.owner.batch, s.owner.evicted), owner := Ready)
    case BeginClear => s.(log := Cleared(s.log), owner := Clearing)
    case EndClear => s.(mirror := [], owner := Ready)
    case ForeignClear => s.(log := Cleared(s.log), aboutToSignal := s.aboutToSignal + 1)
    case PostCleared => s.(aboutToSignal := s.aboutToSignal - 1, signals := s.signals + 1)
    case SignalCleared => s.(mirror := [], signals := s.signals - 1)
    case SetMinSeverity(min) => s.(log := s.log.(minSeverity := min))
  }

  function Initial(maxEntries: nat): System {
    System(Fresh(maxEntries), 0, 0, 0, 0, Ready, [])
  }

  /** Each state follows from the one before by its step. */
  ghost predicate IsRun(steps: seq<Step>, states: seq<System>) {
    && |states| == |steps| + 1
    && forall k :: 0 <= k < |steps| ==> Enabled(states[k], steps[k]) && states[k + 1] == Next(states[k], steps[k])
  }

  /** A run of a log that keeps at most `maxEntries` entries, from its beginning. */
  ghost predicate RunsFrom(maxEntries: nat, steps: seq<Step>, states: seq<System>) {
    maxEntries >= 1 && IsRun(steps, states) && states[0] == Initial(maxEntries)
  }

  lemma {:induction false} RunSnoc(maxEntries: nat, steps: seq<Step>, states: seq<System>, step: Step)
    returns (more: seq<Step>, after: seq<System>)
    requires RunsFrom(maxEntries, steps, states) && Enabled(states[|steps|], step)
    ensures more == steps + [step] && after == states + [Next(states[|steps|], step)]
    ensures RunsFrom(maxEntries, more, after)
  {
    hide Enabled, Next;
    more, after := steps + [step], states + [Next(states[|steps|], step)];
  }

  /** Clears made on another thread whose signal is still to come. */
  function Owed(s: System): nat {
    s.aboutToSignal + s.signals
  }

  // ----- What the mirror would be if every clear reached it at once -----

  /** That mirror; whether the batch being emitted is older than the last clear; and whether a late signal
      has wiped entries that the last clear did not. */
  datatype Shadow = Shadow(ideal: seq<LogEntry>, stale: bool, lost: bool)

  function ShadowNext(s: System, h: Shadow, step: Step): Shadow {
    match step
    case Take => h.(stale := false)
    case Emit =>
      if h.stale || !s.owner.Emitting? then h.(stale := false)
      else h.(ideal := Follow(h.ideal, s.owner.batch, s.owner.evicted))
    case BeginClear => Shadow([], false, false)
    case ForeignClear => Shadow([], s.owner.Emitting?, false)
    case SignalCleared => h.(lost := h.ideal != [])
    case _ => h
  }

  ghost function ShadowAt(steps: seq<Step>, states: seq<System>, n: nat): Shadow
    requires n <= |steps| && |states| == |steps| + 1
  {
    if n == 0 then Shadow([], false, false)
    else ShadowNext(states[n - 1], ShadowAt(steps, states, n - 1), steps[n - 1])
  }

  /** The history is the mirror and what waits, less what was evicted. */
  ghost predicate Mirrors(mirror: seq<LogEntry>, log: LogState) {
    log.pendingEvicted <= |mirror + log.pending| && log.history == (mirror + log.pending)[log.pendingEvicted..]
  }

  /** The ideal mirror once the log's thread finishes what it is doing. */
  function Settling(s: System, h: Shadow): seq<LogEntry> {
    if s.owner.Emitting? && !h.stale then Follow(h.ideal, s.owner.batch, s.owner.evicted) else h.ideal
  }

  /** What holds of the log and its wake-ups. */
  ghost predicate LogOk(s: System, h: Shadow) {
    && IsWindow(s.log) && s.log.deliveryEnabled
    && Mirrors(Settling(s, h), s.log)
    // No wake-up is lost, whatever stale deliveries a clear left behind.
    && (s.log.pending != [] ==> s.log.deliveryScheduled && s.log.history != [])
    && (s.log.pending == [] ==> s.log.pendingEvicted == 0)
    && (s.log.deliveryScheduled ==> s.aboutToPost + s.posted >= 1)
  }

  /** What holds of the log's thread. */
  ghost predicate OwnerOk(s: System, h: Shadow) {
    && (s.owner.Clearing? ==> h.ideal == [])
    && (h.stale ==> s.owner.Emitting? && Owed(s) > 0)
    && (s.owner.Emitting? && !h.stale ==>
          s.owner.evicted <= |h.ideal + s.owner.batch| && Follow(h.ideal, s.owner.batch, s.owner.evicted) != [])
    && (h.lost ==> h.ideal != [])
  }

  /** With no signal to come the mirror is the end of the ideal one, all of it unless something was lost. */
  ghost predicate MirrorOk(s: System, h: Shadow) {
    Owed(s) == 0 && !s.owner.Clearing? ==> IsSuffix(s.mirror, h.ideal) && (s.mirror == h.ideal <==> !h.lost)
  }

  ghost predicate Inv(s: System, h: Shadow) {
    LogOk(s, h) && OwnerOk(s, h) && MirrorOk(s, h)
  }

  lemma {:induction false} WriteKeepsMirror(mirror: seq<LogEntry>, log: LogState, severity: LogSeverity,
                                            category: string, message: string)
    requires IsWindow(log) && Mirrors(mirror, log) && Passes(log.minSeverity, severity)
    ensures Mirrors(mirror, Written(log, severity, category, message, true))
    ensures Written(log, severity, category, message, true).history != []
  {
    var entry := LogEntry(log.nextSequence, severity, category, message);
    var over := Overflow(|log.history| + 1, log.maxEntries);
    assert mirror + (log.pending + [entry]) == (mirror + log.pending) + [entry];
    assert (mirror + log.pending + [entry])[log.pendingEvicted..] == log.history + [entry];
    assert (mirror + log.pending + [entry])[log.pendingEvicted + over..] == (log.history + [entry])[over..];
  }

  lemma {:induction false} WriteStep(s: System, h: Shadow, severity: LogSeverity, category: string, message: string)
    requires Inv(s, h)
    ensures Inv(Next(s, Write(severity, category, message)), h)
  {
    hide Mirrors, IsSuffix, Follow;
    WrittenIsWindow(s.log, severity, category, message, true);
    if Passes(s.log.minSeverity, severity) {
      WriteKeepsMirror(Settling(s, h), s.log, severity, category, message);
    }
  }

  lemma {:induction false} TakeStep(s: System, h: Shadow)
    requires Inv(s, h) && Enabled(s, Take)
    ensures Inv(Next(s, Take), ShadowNext(s, h, Take))
  {
    hide IsSuffix;
    var t, next := Next(s, Take), ShadowNext(s, h, Take);
    assert h.ideal + [] == h.ideal;
    assert Settling(t, next) == s.log.history && Settling(t, next) + [] == Settling(t, next);
  }

  /** A mirror that lags an ideal one by entries at its old end goes on lagging: evictions do not catch up. */
  lemma {:induction false} LagStays(mirror: seq<LogEntry>, ideal: seq<LogEntry>, batch: seq<LogEntry>, evicted: nat)
    requires IsSuffix(mirror, ideal) && evicted <= |ideal + batch| && Follow(ideal, batch, evicted) != []
    ensures IsSuffix(Follow(mirror, batch, evicted), Follow(ideal, batch, evicted))
    ensures Follow(mirror, batch, evicted) == Follow(ideal, batch, evicted) <==> mirror == ideal
  {
    var more, less := ideal + batch, mirror + batch;
    var lag := |ideal| - |mirror|;
    assert less == more[lag..];
    if evicted <= |less| {
      assert Follow(mirror, batch, evicted) == more[lag + evicted..];
      assert Follow(ideal, batch, evicted)[lag..] == more[lag + evicted..];
      assert |Follow(ideal, batch, evicted)| == |Follow(mirror, batch, evicted)| + lag;
    }
  }

  lemma {:induction false} EmitStep(s: System, h: Shadow)
    requires Inv(s, h) && Enabled(s, Emit)
    ensures Inv(Next(s, Emit), ShadowNext(s, h, Emit))
  {
    hide Mirrors, IsSuffix, Follow;
    if !h.stale && Owed(s) == 0 {
      LagStays(s.mirror, h.ideal, s.owner.batch, s.owner.evicted);
    }
  }

  lemma {:induction false} OtherStep(s: System, h: Shadow, step: Step)
    requires Inv(s, h) && Enabled(s, step) && !step.Write? && !step.Take? && !step.Emit?
    ensures Inv(Next(s, step), ShadowNext(s, h, step))
  {
  }

  lemma {:induction false} StepKeepsInv(s: System, h: Shadow, step: Step)
    requires Inv(s, h) && Enabled(s, step)
    ensures Inv(Next(s, step), ShadowNext(s, h, step)) && Next(s, step).log.maxEntries == s.log.maxEntries
  {
    hide Inv;
    match step {
      case Write(severity, category, message) => WriteStep(s, h, severity, category, message);
      case Take => TakeStep(s, h);
      case Emit => EmitStep(s, h);
      case _ => OtherStep(s, h, step);
    }
  }

  lemma {:induction false} InitialIsOk(maxEntries: nat)
    requires maxEntries >= 1
    ensures Inv(Initial(maxEntries), Shadow([], false, false))
  {
  }

  lemma {:induction false} RunKeepsInv(maxEntries: nat, steps: seq<Step>, states: seq<System>, n: nat)
    requires RunsFrom(maxEntries, steps, states) && n <= |steps|
    ensures Inv(states[n], ShadowAt(steps, states, n)) && states[n].log.maxEntries == maxEntries
  {
    hide Inv, Next, ShadowNext;
    if n == 0 {
      InitialIsOk(maxEntries);
    } else {
      RunKeepsInv(maxEntries, steps, states, n - 1);
      StepKeepsInv(states[n - 1], ShadowAt(steps, states, n - 1), steps[n - 1]);
    }
  }

  // ----- What is recorded -----

  predicate IsClear(step: Step) {
    step.BeginClear? || step.ForeignClear?
  }

  /** The minimum in force before step `k`: the last one set. */
  function MinimumAt(steps: seq<Step>, k: nat): Option<LogSeverity>
    requires k <= |steps|
  {
    if k == 0 then Some(Debug)
    else if steps[k - 1].SetMinSeverity? then steps[k - 1].min
    else MinimumAt(steps, k - 1)
  }

  /** Is step `k` a line that is recorded: not below the minimum, where there is one? */
  predicate RecordsAt(steps: seq<Step>, k: nat)
    requires k < |steps|
  {
    var min := MinimumAt(steps, k);
    steps[k].Write? && min.Some? && NotBelow(steps[k].severity, min.value)
  }

  /** One more than the lines recorded before step `k`, cleared or not. */
  function NumberAt(steps: seq<Step>, k: nat): nat
    requires k <= |steps|
  {
    if k == 0 then 1 else NumberAt(steps, k - 1) + if RecordsAt(steps, k - 1) then 1 else 0
  }

  /** The lines recorded by the steps `m <= k < n`, as they were written. */
  function Recorded(steps: seq<Step>, m: nat, n: nat): seq<LogEntry>
    requires n <= |steps|
  {
    if n <= m then []
    else if !RecordsAt(steps, n - 1) then Recorded(steps, m, n - 1)
    else
      var line := steps[n - 1];
      Recorded(steps, m, n - 1) + [LogEntry(sequence := NumberAt(steps, n - 1), severity := line.severity,
                                            category := line.category, message := line.message)]
  }

  /** The newest entries of a list, at most `max` of them. */
  function Newest(entries: seq<LogEntry>, max: nat): seq<LogEntry> {
    if |entries| <= max then entries else entries[|entries| - max..]
  }

  /** No clear comes between step `m`, a clear or the beginning, and step `n`. */
  ghost predicate ClearedBefore(steps: seq<Step>, m: nat, n: nat)
    requires n <= |steps|
  {
    m <= n && (m == 0 || IsClear(steps[m - 1])) && forall k :: m <= k < n ==> !IsClear(steps[k])
  }

  /** The same, of clears and deliveries that took the batch. */
  ghost predicate TakenBefore(steps: seq<Step>, m: nat, n: nat)
    requires n <= |steps|
  {
    && m <= n && (m == 0 || IsClear(steps[m - 1]) || steps[m - 1].Take?)
    && forall k :: m <= k < n ==> !IsClear(steps[k]) && !steps[k].Take?
  }

  ghost predicate SettingsOk(log: LogState, steps: seq<Step>, maxEntries: nat, n: nat)
    requires n <= |steps|
  {
    log.minSeverity == MinimumAt(steps, n) && log.nextSequence == NumberAt(steps, n) && log.maxEntries == maxEntries
  }

  lemma {:induction false} SettingsAreOk(maxEntries: nat, steps: seq<Step>, states: seq<System>, n: nat)
    requires RunsFrom(maxEntries, steps, states) && n <= |steps|
    ensures SettingsOk(states[n].log, steps, maxEntries, n)
  {
    if n > 0 {
      hide NotBelow, Passes, Overflow, Follow;
      SettingsAreOk(maxEntries, steps, states, n - 1);
      assert states[n] == Next(states[n - 1], steps[n - 1]);
      if steps[n - 1].Write? {
        PassesIff(states[n - 1].log.minSeverity, steps[n - 1].severity);
      }
    }
  }

  lemma {:induction false} NewestNext(entries: seq<LogEntry>, e: LogEntry, max: nat)
    requires max >= 1
    ensures Newest(entries + [e], max) == (Newest(entries, max) + [e])[Overflow(|Newest(entries, max)| + 1, max)..]
  {
  }

  lemma {:induction false} RecordedOne(steps: seq<Step>, k: nat)
    requires k < |steps|
    ensures Recorded(steps, k, k + 1)
         == if RecordsAt(steps, k)
            then [LogEntry(NumberAt(steps, k), steps[k].severity, steps[k].category, steps[k].message)] else []
    ensures Recorded(steps, k, k + 1) != [] ==> steps[k].Write?
  {
    hide NumberAt, NotBelow, MinimumAt;
    assert Recorded(steps, k, k) == [];
  }

  /** What one step makes of history and batch, given what it recorded. */
  ghost predicate Keeps(before: LogState, after: LogState, step: Step, line: seq<LogEntry>) {
    if IsClear(step) then after.history == [] && after.pending == []
    else if step.Take? then after.history == before.history && after.pending == []
    else if line == [] then after.history == before.history && after.pending == before.pending
    else
      && after.pending == before.pending + line
      && after.history == (before.history + line)[Overflow(|before.history| + 1, before.maxEntries)..]
  }

  lemma {:induction false} StepRecords(maxEntries: nat, steps: seq<Step>, states: seq<System>, k: nat)
    requires RunsFrom(maxEntries, steps, states) && k < |steps|
    ensures Keeps(states[k].log, states[k + 1].log, steps[k], Recorded(steps, k, k + 1))
    ensures states[k].log.maxEntries == maxEntries
  {
    hide NotBelow, Passes, Follow, Overflow, Recorded, NumberAt, MinimumAt;
    SettingsAreOk(maxEntries, steps, states, k);
    RecordedOne(steps, k);
    assert states[k + 1] == Next(states[k], steps[k]);
    if steps[k].Write? {
      PassesIff(states[k].log.minSeverity, steps[k].severity);
    }
  }

  lemma {:induction false} RecordedSnoc(steps: seq<Step>, m: nat, n: nat)
    requires m < n <= |steps|
    ensures Recorded(steps, m, n) == Recorded(steps, m, n - 1) + Recorded(steps, n - 1, n)
  {
    assert Recorded(steps, n - 1, n - 1) == [];
  }

  /** On every run the history is what was recorded since the last clear, the newest entries of it that fit, each
      with the number, severity, category and message of its line. */
  lemma {:induction false} HistoryIsWhatWasRecorded(maxEntries: nat, steps: seq<Step>, states: seq<System>,
                                                    m: nat, n: nat)
    requires RunsFrom(maxEntries, steps, states) && n <= |steps| && ClearedBefore(steps, m, n)
    ensures states[n].log.history == Newest(Recorded(steps, m, n), maxEntries)
    decreases n
  {
    hide Overflow, Next, Enabled, RecordsAt, NumberAt, Newest, RunsFrom;
    NewestOfNone(maxEntries);
    StartsEmpty(maxEntries, steps, states);
    if n > 0 {
      StepRecords(maxEntries, steps, states, n - 1);
    }
    if m < n {
      HistoryIsWhatWasRecorded(maxEntries, steps, states, m, n - 1);
      RecordedSnoc(steps, m, n);
      RecordedOne(steps, n - 1);
      var line := Recorded(steps, n - 1, n);
      if line != [] {
        NewestNext(Recorded(steps, m, n - 1), line[0], maxEntries);
      }
    }
  }

  lemma {:induction false} StartsEmpty(maxEntries: nat, steps: seq<Step>, states: seq<System>)
    requires RunsFrom(maxEntries, steps, states)
    ensures maxEntries >= 1 && states[0].log.history == [] && states[0].log.pending == []
  {
  }

  lemma {:induction false} NewestOfNone(max: nat)
    ensures Newest([], max) == []
  {
  }

  /** And what waits is all that was recorded since the last clear or delivery, evicted or not. */
  lemma {:induction false} BatchIsWhatWasRecorded(maxEntries: nat, steps: seq<Step>, states: seq<System>,
                                                  m: nat, n: nat)
    requires RunsFrom(maxEntries, steps, states) && n <= |steps| && TakenBefore(steps, m, n)
    ensures states[n].log.pending == Recorded(steps, m, n)
    decreases n
  {
    hide Overflow, Next, Enabled, NotBelow;
    if m < n {
      BatchIsWhatWasRecorded(maxEntries, steps, states, m, n - 1);
      StepRecords(maxEntries, steps, states, n - 1);
      RecordedSnoc(steps, m, n);
    } else if n > 0 {
      StepRecords(maxEntries, steps, states, n - 1);
    }
  }

  // ----- The mirror, when all clears are made on the log's own thread -----

  ghost predicate OwnClearsOnly(steps: seq<Step>) {
    forall k :: 0 <= k < |steps| ==> !steps[k].ForeignClear?
  }

  lemma {:induction false} NothingOwed(maxEntries: nat, steps: seq<Step>, states: seq<System>, n: nat)
    requires RunsFrom(maxEntries, steps, states) && n <= |steps| && OwnClearsOnly(steps)
    ensures Owed(states[n]) == 0 && !ShadowAt(steps, states, n).lost && !ShadowAt(steps, states, n).stale
  {
    if n > 0 {
      NothingOwed(maxEntries, steps, states, n - 1);
      assert !steps[n - 1].ForeignClear?;
    }
  }

  /** Under any interleaving with clears on the log's own thread, the mirror and what waits are the history;
      when nothing waits, the mirror alone is. The one exception is the gap between a clear and its signal. */
  lemma {:induction false} MirrorFollowsHistory(maxEntries: nat, steps: seq<Step>, states: seq<System>, n: nat)
    requires RunsFrom(maxEntries, steps, states) && n <= |steps| && OwnClearsOnly(steps)
    ensures var s := states[n];
            && (s.owner.Ready? ==> Mirrors(s.mirror, s.log))
            && (s.owner.Ready? && s.log.pending == [] ==> s.mirror == s.log.history)
            && (s.owner.Emitting? ==>
                  s.owner.evicted <= |s.mirror + s.owner.batch|
                  && Mirrors(Follow(s.mirror, s.owner.batch, s.owner.evicted), s.log))
            && (s.owner.Clearing? ==> Mirrors([], s.log))
  {
    RunKeepsInv(maxEntries, steps, states, n);
    NothingOwed(maxEntries, steps, states, n);
    assert states[n].mirror + [] == states[n].mirror;
  }

  /** Waiting entries always have a delivery on its way, wherever clears are made. */
  lemma {:induction false} NoLostWakeUp(maxEntries: nat, steps: seq<Step>, states: seq<System>, n: nat)
    requires RunsFrom(maxEntries, steps, states) && n <= |steps|
    ensures states[n].log.pending != [] ==> states[n].log.deliveryScheduled
    ensures states[n].log.deliveryScheduled ==> Enabled(states[n], Post) || states[n].posted > 0
  {
    RunKeepsInv(maxEntries, steps, states, n);
  }

  /** On every run the history is a window of at most `maxEntries` consecutive sequence numbers, ending just
      below the next one. */
  lemma {:induction false} HistoryIsWindow(maxEntries: nat, steps: seq<Step>, states: seq<System>, n: nat)
    requires RunsFrom(maxEntries, steps, states) && n <= |steps|
    ensures |states[n].log.history| <= maxEntries
    ensures EndsBelow(states[n].log.history, states[n].log.nextSequence)
  {
    RunKeepsInv(maxEntries, steps, states, n);
  }

  // ----- The mirror, when clears are made on other threads -----


  /** Step `t` takes a batch, and no clear has locked the log between it and step `n`. */
  ghost predicate TakenSinceClear(steps: seq<Step>, states: seq<System>, t: nat, n: nat)
    requires n <= |steps| && |states| == |steps| + 1
  {
    t < n && steps[t].Take? && states[t].log.pending != [] && forall j :: t < j < n ==> !IsClear(steps[j])
  }

  /** A batch taken since the last clear is followed by the late signal of an earlier one. */
  ghost predicate Overtaken(steps: seq<Step>, states: seq<System>, n: nat)
    requires n <= |steps| && |states| == |steps| + 1
  {
    exists t: nat, w: nat :: t < w < n && TakenSinceClear(steps, states, t, n) && steps[w].SignalCleared?
  }

  lemma {:induction false} TakenNext(steps: seq<Step>, states: seq<System>, t: nat, n: nat)
    requires n < |steps| && |states| == |steps| + 1
    ensures TakenSinceClear(steps, states, t, n + 1) <==>
              || (t == n && steps[n].Take? && states[n].log.pending != [])
              || (!IsClear(steps[n]) && TakenSinceClear(steps, states, t, n))
  {
    hide IsClear;
    if t < n && TakenSinceClear(steps, states, t, n + 1) {
      assert !IsClear(steps[n]);
    }
  }

  ghost predicate SomethingTaken(steps: seq<Step>, states: seq<System>, n: nat)
    requires n <= |steps| && |states| == |steps| + 1
  {
    exists t: nat :: TakenSinceClear(steps, states, t, n)
  }

  lemma {:induction false} SomethingTakenNext(steps: seq<Step>, states: seq<System>, n: nat)
    requires n < |steps| && |states| == |steps| + 1
    ensures SomethingTaken(steps, states, n + 1) <==>
              || (steps[n].Take? && states[n].log.pending != [])
              || (!IsClear(steps[n]) && SomethingTaken(steps, states, n))
  {
    hide TakenSinceClear;
    var next := n + 1;
    TakenNext(steps, states, n, n);
    if t: nat :| TakenSinceClear(steps, states, t, n) {
      TakenNext(steps, states, t, n);
    }
    if t: nat :| TakenSinceClear(steps, states, t, next) {
      TakenNext(steps, states, t, n);
    }
  }

  lemma {:induction false} OvertakenNext(steps: seq<Step>, states: seq<System>, n: nat)
    requires n < |steps| && |states| == |steps| + 1
    ensures Overtaken(steps, states, n + 1) <==>
              || (!IsClear(steps[n]) && Overtaken(steps, states, n))
              || (steps[n].SignalCleared? && SomethingTaken(steps, states, n))
  {
    hide TakenSinceClear;
    var next := n + 1;
    if t: nat, w: nat :| t < w < n && TakenSinceClear(steps, states, t, n) && steps[w].SignalCleared? {
      TakenNext(steps, states, t, n);
      assert !IsClear(steps[n]) ==> t < w < next && TakenSinceClear(steps, states, t, next);
    }
    if t: nat :| TakenSinceClear(steps, states, t, n) {
      TakenNext(steps, states, t, n);
      TakenIsPast(steps, states, t, n);
      assert steps[n].SignalCleared? ==> t < n < next && TakenSinceClear(steps, states, t, next);
    }
    if t: nat, w: nat :| t < w < next && TakenSinceClear(steps, states, t, next) && steps[w].SignalCleared? {
      TakenNext(steps, states, t, n);
    }
  }

  lemma {:induction false} TakenIsPast(steps: seq<Step>, states: seq<System>, t: nat, n: nat)
    requires n <= |steps| && |states| == |steps| + 1 && TakenSinceClear(steps, states, t, n)
    ensures t < n
  {
  }

  /** The shadow, read off the run. */
  ghost predicate ShadowSays(steps: seq<Step>, states: seq<System>, n: nat)
    requires n <= |steps| && |states| == |steps| + 1
  {
    var s, h := states[n], ShadowAt(steps, states, n);
    && (SomethingTaken(steps, states, n) <==> h.ideal != [] || (s.owner.Emitting? && !h.stale))
    && (Overtaken(steps, states, n) <==> h.lost)
  }

  lemma {:induction false} ShadowSaysNext(maxEntries: nat, steps: seq<Step>, states: seq<System>, n: nat)
    requires RunsFrom(maxEntries, steps, states) && n < |steps| && ShadowSays(steps, states, n)
    ensures ShadowSays(steps, states, n + 1)
  {
    hide SomethingTaken, Overtaken, LogOk, MirrorOk, Follow, Written, Schedules;
    RunKeepsInv(maxEntries, steps, states, n);
    SomethingTakenNext(steps, states, n);
    OvertakenNext(steps, states, n);
    OvertakenIsTaken(steps, states, n);
    assert states[n + 1] == Next(states[n], steps[n]);
    assert ShadowAt(steps, states, n + 1) == ShadowNext(states[n], ShadowAt(steps, states, n), steps[n]);
  }

  lemma {:induction false} OvertakenIsTaken(steps: seq<Step>, states: seq<System>, n: nat)
    requires n <= |steps| && |states| == |steps| + 1
    ensures Overtaken(steps, states, n) ==> SomethingTaken(steps, states, n)
  {
    hide TakenSinceClear;
  }

  lemma {:induction false} ShadowAlwaysSays(maxEntries: nat, steps: seq<Step>, states: seq<System>, n: nat)
    requires RunsFrom(maxEntries, steps, states) && n <= |steps|
    ensures ShadowSays(steps, states, n)
  {
    if n > 0 {
      hide ShadowSays;
      ShadowAlwaysSays(maxEntries, steps, states, n - 1);
      ShadowSaysNext(maxEntries, steps, states, n - 1);
    }
  }

  /** Wherever clears are made: once nothing waits and every signal has come, the mirror is the history
      exactly when no late signal has overtaken a batch taken since the last clear. Until the next clear, no
      eviction makes up for what was lost. */
  lemma {:induction false} MirrorIsHistoryIff(maxEntries: nat, steps: seq<Step>, states: seq<System>, n: nat)
    requires RunsFrom(maxEntries, steps, states) && n <= |steps|
    requires states[n].owner.Ready? && states[n].log.pending == [] && Owed(states[n]) == 0
    ensures states[n].mirror == states[n].log.history <==> !Overtaken(steps, states, n)
    ensures IsSuffix(states[n].mirror, states[n].log.history)
  {
    RunKeepsInv(maxEntries, steps, states, n);
    ShadowAlwaysSays(maxEntries, steps, states, n);
    var h := ShadowAt(steps, states, n);
    assert h.ideal + [] == h.ideal;
  }

  /** It comes to that: an entry written between a clear on another thread and its signal is delivered first
      and then wiped from the mirror, although it is in the history. */
  lemma {:induction false} ForeignClearLosesAnEntry(maxEntries: nat, category: string, message: string)
    returns (states: seq<System>)
    requires maxEntries >= 1
    ensures var steps := [ForeignClear, Write(Info, category, message), Post, Take, Emit, PostCleared, SignalCleared];
            && RunsFrom(maxEntries, steps, states) && Overtaken(steps, states, 7)
            && states[7].owner.Ready? && states[7].log.pending == [] && Owed(states[7]) == 0
            && states[7].mirror == [] && |states[7].log.history| == 1
  {
    hide Next, Enabled;
    var steps := [ForeignClear, Write(Info, category, message), Post, Take, Emit, PostCleared, SignalCleared];
    OvertakingSteps(maxEntries, category, message);
    states := [Initial(maxEntries)];
    var done: seq<Step> := [];
    done, states := RunSnoc(maxEntries, done, states, steps[0]);
    done, states := RunSnoc(maxEntries, done, states, steps[1]);
    done, states := RunSnoc(maxEntries, done, states, steps[2]);
    done, states := RunSnoc(maxEntries, done, states, steps[3]);
    done, states := RunSnoc(maxEntries, done, states, steps[4]);
    done, states := RunSnoc(maxEntries, done, states, steps[5]);
    done, states := RunSnoc(maxEntries, done, states, steps[6]);
    assert done == steps;
    assert TakenSinceClear(steps, states, 3, 7);
    assert 3 < 6 < 7 && steps[6].SignalCleared?;
  }

  lemma {:induction false} OvertakingSteps(maxEntries: nat, category: string, message: string)
    requires maxEntries >= 1
    ensures var write := Write(Info, category, message);
            var s1 := Next(Initial(maxEntries), ForeignClear);
            var s2 := Next(s1, write);
            Enabled(Initial(maxEntries), ForeignClear) && Enabled(s1, write) && Enabled(s2, Post) &&
            var s3 := Next(s2, Post);
            Enabled(s3, Take) && s3.log.pending != [] &&
            var s4 := Next(s3, Take);
            Enabled(s4, Emit) &&
            var s5 := Next(s4, Emit);
            Enabled(s5, PostCleared) &&
            var s6 := Next(s5, PostCleared);
            Enabled(s6, SignalCleared) &&
            var s7 := Next(s6, SignalCleared);
            s7.owner.Ready? && s7.log.pending == [] && Owed(s7) == 0 && s7.mirror == [] && |s7.log.history| == 1
  {
    hide Follow;
  }

  // ----- The threads at hand bring the mirror level -----

  /** A step that finishes what is under way and begins nothing. */
  predicate Finishes(step: Step) {
    step.Post? || step.Take? || step.Emit? || step.EndClear? || step.PostCleared? || step.SignalCleared?
  }

  /** How many such steps are left at most. */
  function Work(s: System): nat {
    3 * s.aboutToPost + 2 * s.posted + 2 * s.aboutToSignal + s.signals + if s.owner.Ready? then 0 else 1
  }

  lemma {:induction false} FinishStep(s: System, step: Step)
    requires Enabled(s, step) && Finishes(step)
    ensures Work(Next(s, step)) < Work(s) && Next(s, step).log.history == s.log.history
  {
  }

  lemma {:induction false} FinishingIsShort(steps: seq<Step>, states: seq<System>, m: nat, n: nat)
    requires IsRun(steps, states) && m <= n <= |steps| && forall k :: m <= k < n ==> Finishes(steps[k])
    ensures n - m + Work(states[n]) <= Work(states[m])
    ensures states[n].log.history == states[m].log.history
    decreases n
  {
    hide Work, Finishes, Enabled, Next;
    if m < n {
      FinishingIsShort(steps, states, m, n - 1);
      FinishStep(states[n - 1], steps[n - 1]);
    }
  }

  /** Without another write or clear, whatever order the steps at hand come in, they are at most as many as
      counted, they leave the history alone, and when none is left the mirror is level with it, unless a late
      signal has overtaken a batch. */
  lemma {:induction false} CatchesUp(maxEntries: nat, steps: seq<Step>, states: seq<System>, m: nat)
    requires RunsFrom(maxEntries, steps, states) && m <= |steps|
    requires forall k :: m <= k < |steps| ==> Finishes(steps[k])
    ensures |steps| - m <= Work(states[m]) && states[|steps|].log.history == states[m].log.history
    ensures (forall step :: Finishes(step) ==> !Enabled(states[|steps|], step)) ==>
              && states[|steps|].owner.Ready? && states[|steps|].log.pending == [] && Owed(states[|steps|]) == 0
              && (states[|steps|].mirror == states[m].log.history <==> !Overtaken(steps, states, |steps|))
  {
    var end := states[|steps|];
    FinishingIsShort(steps, states, m, |steps|);
    RunKeepsInv(maxEntries, steps, states, |steps|);
    hide Work, Written;
    if forall step :: Finishes(step) ==> !Enabled(end, step) {
      assert !Enabled(end, Post) && !Enabled(end, Take) && !Enabled(end, Emit) && !Enabled(end, EndClear);
      assert !Enabled(end, PostCleared) && !Enabled(end, SignalCleared);
      MirrorIsHistoryIff(maxEntries, steps, states, |steps|);
    }
  }

  /** With own clears only, nothing is ever overtaken. */
  lemma {:induction false} OwnClearsAreNotOvertaken(maxEntries: nat, steps: seq<Step>, states: seq<System>, n: nat)
    requires RunsFrom(maxEntries, steps, states) && n <= |steps| && OwnClearsOnly(steps)
    ensures !Overtaken(steps, states, n) && Owed(states[n]) == 0
  {
    ShadowAlwaysSays(maxEntries, steps, states, n);
    NothingOwed(maxEntries, steps, states, n);
  }
}

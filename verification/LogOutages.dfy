/**
 The counters and latches of the log file over whole runs: the size it believes in, the one
 report an outage gets, and what its health flag really says (app/diagnostics/AppLog.cpp,
 app/diagnostics/AppLog.h).
 */
module LogOutages {
  import opened Wrappers
  import opened Sequences
  import opened FiringRuns
  import opened LogRotation

  // ----- The size counter and the rotation latch -----

  /** How much of the lines whose flush failed since the file was last opened. */
  function UnflushedLength(attempts: seq<Attempt>): nat {
    if attempts == [] then 0
    else
      match Last(attempts)
      case Open(ok) => if ok then 0 else UnflushedLength(Init(attempts))
      case WriteLine(line, outcome) =>
        UnflushedLength(Init(attempts)) + if outcome.Unflushed? then |line| else 0
  }

  /** What is on disk and what is held back are what the counter has counted and what it never will; and the
      latch tells whether the counter is over the cap. */
  ghost predicate Counted(st: LogFileState, cap: nat) {
    && st.files != []
    && (st.isOpen ==>
          && st.files[0].Some?
          && |st.files[0].value| + |st.buffer| == st.size + UnflushedLength(st.attempts)
          && (st.shiftFailed <==> st.size >= cap)
          && st.attempts != [] && (Last(st.attempts).Succeeded() ==> st.buffer == ""))
    && (!st.isOpen ==> !st.shiftFailed && st.buffer == "")
  }

  lemma {:induction false} UnflushedSnoc(attempts: seq<Attempt>, a: Attempt)
    ensures UnflushedLength(attempts + [a])
         == match a
            case Open(ok) => if ok then 0 else UnflushedLength(attempts)
            case WriteLine(line, outcome) => UnflushedLength(attempts) + if outcome.Unflushed? then |line| else 0
    ensures Last(attempts + [a]) == a
  {
    assert Init(attempts + [a]) == attempts;
  }

  /** An open file starts counted, whatever it held before. */
  lemma {:induction false} OpenedIsCounted(st: LogFileState, ok: bool)
    requires st.files != [] && st.buffer == "" && !st.isOpen
    ensures var after := Opened(st, ok);
            && after.isOpen == ok && after.buffer == "" && |after.files| == |st.files|
            && (ok ==> after.files[0].Some? && UnflushedLength(after.attempts) == 0
                       && after.attempts != [] && Last(after.attempts).Succeeded())
            && (!ok ==> after.shiftFailed == st.shiftFailed)
  {
    UnflushedSnoc(st.attempts, Open(ok));
  }

  lemma {:induction false} RotatedIsCounted(st: LogFileState, cap: nat, answers: RotationAnswers)
    requires st.files != []
    ensures Counted(Rotated(st, cap, answers), cap)
  {
    hide Opened, Shifted, UnflushedLength;
    var closed := ClosedFile(st, answers.closing);
    OpenedIsCounted(closed.(files := Shifted(closed.files, answers)), answers.reopen);
  }

  lemma {:induction false} EnsuredIsCounted(st: LogFileState, cap: nat, answers: Answers)
    requires Counted(st, cap)
    ensures Counted(EnsuredOpen(st, cap, answers), cap)
  {
    hide Rotated, UnflushedLength;
    if !st.isOpen {
      OpenedIsCounted(st, answers.open);
      OpenedKeepsLatch(st, answers.open);
      var tried := Opened(st, answers.open);
      RotatedIsCounted(tried.(size := |LiveText(tried.files)|), cap, answers.early);
    }
  }

  lemma {:induction false} OpenedKeepsLatch(st: LogFileState, ok: bool)
    requires st.files != []
    ensures Opened(st, ok).shiftFailed == st.shiftFailed
  {
  }

  /** What a write adds to the disk and the buffer together. */
  lemma {:induction false} TriedCounts(st: LogFileState, line: string, answer: WriteAnswer)
    requires st.files != [] && st.files[0].Some?
    ensures var after := Tried(st, line, answer);
            && after.files != [] && after.files[0].Some? && after.isOpen == st.isOpen && after.size == st.size
            && after.shiftFailed == st.shiftFailed
            && |after.files[0].value| + |after.buffer|
               == |st.files[0].value| + |st.buffer| + (if answer.WriteFails? then 0 else |line|)
            && after.attempts == st.attempts + [WriteLine(line, OutcomeOf(answer))]
            && (answer.Reaches? ==> after.buffer == "")
  {
  }

  lemma {:induction false} LineIsCounted(st: LogFileState, cap: nat, line: string, answers: Answers)
    requires Counted(st, cap)
    ensures Counted(LineWritten(st, cap, line, answers), cap)
  {
    hide EnsuredOpen, Rotated, Tried, UnflushedLength;
    var open := EnsuredOpen(st, cap, answers);
    EnsuredIsCounted(st, cap, answers);
    if open.isOpen {
      TriedCounts(open, line, answers.write);
      UnflushedSnoc(open.attempts, WriteLine(line, OutcomeOf(answers.write)));
      var tried := Tried(open, line, answers.write);
      RotatedIsCounted(tried.(size := tried.size + |line|), cap, answers.late);
    }
  }

  /** On every run, whatever fails: the disk and the buffer together hold what the counter counts and the
      lines whose flush failed since the file was opened, and the rotation latch stands exactly while the
      counter is at or over the cap. */
  lemma {:induction false} RunIsCounted(files: Files, cap: nat, ops: seq<LineOp>)
    requires files != []
    ensures Counted(WriteAll(Closed(files), cap, ops), cap)
  {
    if ops != [] {
      var op := ops[|ops| - 1];
      RunIsCounted(files, cap, Init(ops));
      LineIsCounted(WriteAll(Closed(files), cap, Init(ops)), cap, op.line, op.answers);
    }
  }

  /** A line with some text had its flush fail, and the file has not been opened again since. */
  ghost predicate LeftUnflushed(attempts: seq<Attempt>, i: nat) {
    && i < |attempts| && attempts[i].WriteLine? && attempts[i].outcome.Unflushed? && attempts[i].line != ""
    && forall j :: i < j < |attempts| ==> attempts[j] != Open(true)
  }

  lemma {:induction false} LeftUnflushedSnoc(attempts: seq<Attempt>, a: Attempt, i: nat)
    ensures LeftUnflushed(attempts + [a], i) <==>
              || (a != Open(true) && LeftUnflushed(attempts, i))
              || (i == |attempts| && a.WriteLine? && a.outcome.Unflushed? && a.line != "")
  {
    var more := attempts + [a];
    if i < |attempts| {
      assert more[|attempts|] == a && more[i] == attempts[i];
      assert forall j :: i < j < |attempts| ==> more[j] == attempts[j];
    }
  }

  lemma {:induction false} UnflushedIff(attempts: seq<Attempt>)
    ensures UnflushedLength(attempts) > 0 <==> exists i: nat :: LeftUnflushed(attempts, i)
  {
    if attempts != [] {
      hide LeftUnflushed;
      var earlier, a := Init(attempts), Last(attempts);
      assert attempts == earlier + [a];
      UnflushedIff(earlier);
      LeftUnflushedSnoc(earlier, a, |earlier|);
      NotYetUnflushed(earlier);
      if i: nat :| LeftUnflushed(earlier, i) {
        LeftUnflushedSnoc(earlier, a, i);
      }
      if i: nat :| LeftUnflushed(attempts, i) {
        LeftUnflushedSnoc(earlier, a, i);
      }
    }
  }

  lemma {:induction false} NotYetUnflushed(attempts: seq<Attempt>)
    ensures !LeftUnflushed(attempts, |attempts|)
  {
  }

  /** On every run the counter of an open file is its size exactly when all of the lines whose flush failed
      since it was opened are still held back. Once anything has been flushed, that is: exactly when no line
      has had its flush fail since. */
  lemma {:induction false} CounterIsSizeIff(files: Files, cap: nat, ops: seq<LineOp>)
    requires files != [] && WriteAll(Closed(files), cap, ops).isOpen
    ensures var st := WriteAll(Closed(files), cap, ops);
            && (st.size == |LiveText(st.files)| <==> |st.buffer| == UnflushedLength(st.attempts))
            && st.size <= |LiveText(st.files)| + |st.buffer|
            && st.attempts != []
            && (Last(st.attempts).Succeeded() ==>
                  (st.size == |LiveText(st.files)| <==> !exists i: nat :: LeftUnflushed(st.attempts, i)))
  {
    hide LeftUnflushed, UnflushedLength;
    RunIsCounted(files, cap, ops);
    UnflushedIff(WriteAll(Closed(files), cap, ops).attempts);
  }

  /** It comes to that: a line whose flush fails is flushed with the next one and never counted. */
  lemma {:induction false} LateFlushIsUncounted(cap: nat, a: string, b: string, rotation: RotationAnswers)
    requires |b| < cap
    ensures var ops := [LineOp(a, Answers(true, rotation, FlushFails(0), rotation)),
                        LineOp(b, Answers(true, rotation, Reaches, rotation))];
            var st := WriteAll(Closed([None]), cap, ops);
            st.isOpen && LiveText(st.files) == a + b && st.size == |b|
  {
    hide Rotated;
    var first, second := LineOp(a, Answers(true, rotation, FlushFails(0), rotation)),
                         LineOp(b, Answers(true, rotation, Reaches, rotation));
    var ops := [first, second];
    assert Init(ops) == [first] && Last(ops) == second && Init([first]) == [] && Last([first]) == first;
    var start := Closed([None]);
    assert WriteAll(start, cap, []) == start;
    assert WriteAll(start, cap, [first]) == LineWritten(start, cap, a, first.answers);
    assert WriteAll(start, cap, ops) == LineWritten(WriteAll(start, cap, [first]), cap, b, second.answers);
    var st := WriteAll(start, cap, [first]);
    assert st.isOpen && st.buffer == a && LiveText(st.files) == "" && st.size == 0;
    assert (a + b)[..|a + b|] == a + b && "" + (a + b) == a + b;
  }

  // ----- Rotations that nothing obstructs -----

  predicate AllRenames(rename: nat -> bool, n: nat) {
    forall k :: 0 <= k < n ==> rename(k)
  }

  predicate Unobstructed(answers: RotationAnswers, slots: nat) {
    answers.remove && AllRenames(answers.rename, slots)
  }

  lemma {:induction false} CascadeFreesLive(files: Files, rename: nat -> bool, k: nat)
    requires k < |files| && files[k].None? && AllRenames(rename, k)
    ensures Cascade(files, rename, k)[0].None?
    decreases k
  {
    if k > 0 {
      assert rename(k - 1);
      CascadeFreesLive(Rename(files, k - 1, rename(k - 1)), rename, k - 1);
    }
  }

  lemma {:induction false} RotationEmptiesLive(st: LogFileState, cap: nat, answers: RotationAnswers)
    requires st.files != [] && cap > 0 && Unobstructed(answers, |st.files|)
    ensures !Rotated(st, cap, answers).shiftFailed
    ensures answers.reopen ==> LiveText(Rotated(st, cap, answers).files) == ""
  {
    hide Cascade;
    var closed := ClosedFile(st, answers.closing);
    CascadeFreesLive(Remove(closed.files, |st.files| - 1, true), answers.rename, |st.files| - 1);
  }

  lemma {:induction false} LineStaysClean(st: LogFileState, cap: nat, line: string, answers: Answers)
    requires st.files != [] && cap > 0 && !st.shiftFailed
    requires Unobstructed(answers.early, |st.files|) && Unobstructed(answers.late, |st.files|)
    ensures !LineWritten(st, cap, line, answers).shiftFailed
  {
    hide Rotated, Tried, OldestFirst, Unobstructed;
    var tried := Opened(st, answers.open);
    var sized := tried.(size := |LiveText(tried.files)|);
    RotationEmptiesLive(sized, cap, answers.early);
    RotatedKeepsSlots(sized, cap, answers.early);
    var open := EnsuredOpen(st, cap, answers);
    if open.isOpen {
      TriedKeepsText(open, line, answers.write);
      TriedKeepsLatch(open, line, answers.write);
      var written := Tried(open, line, answers.write);
      RotationEmptiesLive(written.(size := written.size + |line|), cap, answers.late);
    }
  }

  lemma {:induction false} TriedKeepsLatch(st: LogFileState, line: string, answer: WriteAnswer)
    requires st.files != []
    ensures Tried(st, line, answer).shiftFailed == st.shiftFailed
  {
  }

  ghost predicate NothingObstructs(ops: seq<LineOp>, slots: nat) {
    forall k :: 0 <= k < |ops| ==>
      Unobstructed(ops[k].answers.early, slots) && Unobstructed(ops[k].answers.late, slots)
  }

  lemma {:induction false} RunStaysClean(files: Files, cap: nat, ops: seq<LineOp>)
    requires files != [] && cap > 0 && NothingObstructs(ops, |files|)
    ensures !WriteAll(Closed(files), cap, ops).shiftFailed
  {
    if ops != [] {
      var op := ops[|ops| - 1];
      hide Unobstructed, LineWritten;
      RunStaysClean(files, cap, Init(ops));
      LineStaysClean(WriteAll(Closed(files), cap, Init(ops)), cap, op.line, op.answers);
    }
  }

  /** Without obstructed rotations an open live file, with what it holds back, is between any two lines below
      the cap and the lines whose flush failed since it was opened. Where no flush has failed, it is below
      the cap. */
  lemma {:induction false} LiveStaysBelowCap(files: Files, cap: nat, ops: seq<LineOp>)
    requires files != [] && cap > 0 && NothingObstructs(ops, |files|)
    ensures var st := WriteAll(Closed(files), cap, ops);
            && !st.shiftFailed
            && (st.isOpen ==> |LiveText(st.files)| + |st.buffer| < cap + UnflushedLength(st.attempts))
            && (st.isOpen && (forall i: nat :: !LeftUnflushed(st.attempts, i)) ==> |LiveText(st.files)| < cap)
  {
    hide LeftUnflushed, UnflushedLength, WriteAll, NothingObstructs;
    RunIsCounted(files, cap, ops);
    RunStaysClean(files, cap, ops);
    UnflushedIff(WriteAll(Closed(files), cap, ops).attempts);
  }

  // ----- One report an outage -----

  function Count(reports: seq<Report>, r: Report): nat {
    if reports == [] then 0 else Count(Init(reports), r) + if Last(reports) == r then 1 else 0
  }

  lemma {:induction false} CountSnoc(reports: seq<Report>, report: Report, r: Report)
    ensures Count(reports + [report], r) == Count(reports, r) + if report == r then 1 else 0
  {
    assert Init(reports + [report]) == reports;
  }

  /** The file sink is down once something failed, until the file is opened again. */
  function SinkDown(attempts: seq<Attempt>): bool {
    if attempts == [] then false
    else
      match Last(attempts)
      case Open(ok) => !ok
      case WriteLine(_, _) => !Last(attempts).Succeeded() || SinkDown(Init(attempts))
  }

  /** After which attempts the sink was down. */
  function DownSignal(attempts: seq<Attempt>): (down: seq<bool>)
    ensures |down| == |attempts|
  {
    if attempts == [] then [] else DownSignal(Init(attempts)) + [SinkDown(attempts)]
  }

  /** Each maximal outage was reported once, and each end of one. */
  ghost predicate Accounted(reports: seq<Report>, attempts: seq<Attempt>, rotations: seq<bool>,
                            shiftFailed: bool, sinkFailed: bool) {
    && shiftFailed == (rotations != [] && Last(rotations))
    && Count(reports, ShiftFailed) == |Runs(rotations)|
    && sinkFailed == SinkDown(attempts)
    && Count(reports, SinkUnavailable) == |Runs(DownSignal(attempts))|
    && Count(reports, SinkRestored) == |Runs(DownSignal(attempts))| - if sinkFailed then 1 else 0
  }

  ghost predicate ReportsOutages(st: LogFileState) {
    Accounted(st.reports, st.attempts, st.rotations, st.shiftFailed, st.sinkFailed)
  }

  lemma {:induction false} RunsSnoc(signal: seq<bool>, b: bool)
    ensures |Runs(signal + [b])| == |Runs(signal)| + if b && !(signal != [] && Last(signal)) then 1 else 0
  {
    assert Init(signal + [b]) == signal;
    RunsDecompose(signal);
  }

  lemma {:induction false} DownSignalLast(attempts: seq<Attempt>)
    requires attempts != []
    ensures Last(DownSignal(attempts)) == SinkDown(attempts)
  {
  }

  /** One more attempt, with the latch and the reports kept as the log keeps them. */
  lemma {:induction false} AttemptReports(st: LogFileState, attempt: Attempt, after: LogFileState)
    requires ReportsOutages(st)
    requires after.attempts == st.attempts + [attempt]
    requires after.rotations == st.rotations && after.shiftFailed == st.shiftFailed
    requires after.sinkFailed
          == (if attempt.Succeeded() && attempt.WriteLine? then st.sinkFailed else !attempt.Succeeded())
    requires after.reports == if after.sinkFailed == st.sinkFailed then st.reports
                              else st.reports + [if after.sinkFailed then SinkUnavailable else SinkRestored]
    ensures ReportsOutages(after)
  {
    hide Runs, Count;
    assert Init(after.attempts) == st.attempts;
    RunsSnoc(DownSignal(st.attempts), SinkDown(after.attempts));
    if st.attempts != [] {
      DownSignalLast(st.attempts);
    }
    if after.sinkFailed != st.sinkFailed {
      var report := if after.sinkFailed then SinkUnavailable else SinkRestored;
      CountSnoc(st.reports, report, ShiftFailed);
      CountSnoc(st.reports, report, SinkUnavailable);
      CountSnoc(st.reports, report, SinkRestored);
    }
  }

  lemma {:induction false} OpenedReports(st: LogFileState, ok: bool)
    requires st.files != [] && ReportsOutages(st)
    ensures ReportsOutages(Opened(st, ok))
  {
    hide Runs, Count, SinkDown, DownSignal, OpenAppend;
    AttemptReports(st, Open(ok), Opened(st, ok));
  }

  lemma {:induction false} RotatedReports(st: LogFileState, cap: nat, answers: RotationAnswers)
    requires st.files != [] && ReportsOutages(st)
    ensures ReportsOutages(Rotated(st, cap, answers))
  {
    hide Runs, Count, SinkDown, DownSignal, Shifted;
    var after := Rotated(st, cap, answers);
    var closed := ClosedFile(st, answers.closing);
    var shifted := closed.(files := Shifted(closed.files, answers));
    var reopened := Opened(shifted, answers.reopen);
    OpenedReports(shifted, answers.reopen);
    RunsSnoc(st.rotations, after.shiftFailed);
    CountSnoc(reopened.reports, ShiftFailed, ShiftFailed);
    CountSnoc(reopened.reports, ShiftFailed, SinkUnavailable);
    CountSnoc(reopened.reports, ShiftFailed, SinkRestored);
  }

  lemma {:induction false} EnsuredReports(st: LogFileState, cap: nat, answers: Answers)
    requires st.files != [] && ReportsOutages(st)
    ensures ReportsOutages(EnsuredOpen(st, cap, answers))
  {
    hide Accounted, Rotated;
    if !st.isOpen {
      OpenedReports(st, answers.open);
      var tried := Opened(st, answers.open);
      RotatedReports(tried.(size := |LiveText(tried.files)|), cap, answers.early);
    }
  }

  lemma {:induction false} TriedLeavesReports(st: LogFileState, line: string, answer: WriteAnswer)
    requires st.files != []
    ensures var tried := Tried(st, line, answer);
            && tried.attempts == st.attempts + [WriteLine(line, OutcomeOf(answer))] && tried.reports == st.reports
            && tried.rotations == st.rotations && tried.shiftFailed == st.shiftFailed
            && tried.sinkFailed == st.sinkFailed && |tried.files| == |st.files|
  {
  }

  lemma {:induction false} OpenLineReports(st: LogFileState, cap: nat, line: string, answers: Answers)
    requires st.files != [] && ReportsOutages(st)
    ensures ReportsOutages(OpenLine(st, cap, line, answers))
  {
    hide Accounted, Rotated, Tried;
    var ok := answers.write.Reaches?;
    var tried := Tried(st, line, answers.write);
    TriedLeavesReports(st, line, answers.write);
    AttemptReports(st, WriteLine(line, OutcomeOf(answers.write)), if ok then tried else SinkFails(tried));
    if ok {
      RotatedReports(tried.(size := tried.size + |line|), cap, answers.late);
    }
  }

  lemma {:induction false} LineReports(st: LogFileState, cap: nat, line: string, answers: Answers)
    requires BufferOk(st) && ReportsOutages(st)
    ensures ReportsOutages(LineWritten(st, cap, line, answers))
  {
    hide ReportsOutages, EnsuredOpen, OpenLine, OldestFirst;
    var open := EnsuredOpen(st, cap, answers);
    EnsuredReports(st, cap, answers);
    EnsuredDropsOldest(st, cap, answers);
    if open.isOpen {
      OpenLineReports(open, cap, line, answers);
    }
  }

  /** On every run, whatever fails: a stretch of failed rotations is reported once, a stretch of lost
      file logging is reported once, and so is its end. */
  lemma {:induction false} EveryOutageIsReportedOnce(files: Files, cap: nat, ops: seq<LineOp>)
    requires files != []
    ensures ReportsOutages(WriteAll(Closed(files), cap, ops))
  {
    if ops != [] {
      EveryOutageIsReportedOnce(files, cap, Init(ops));
      RunDropsOnlyTopSlots(Closed(files), cap, Init(ops));
      LineReports(WriteAll(Closed(files), cap, Init(ops)), cap, Last(ops).line, Last(ops).answers);
    } else {
      assert DownSignal([]) == [];
    }
  }

  // ----- What the health flag says -----

  /** The attempt at `i` failed, and no open has succeeded since. */
  ghost predicate FailedForGood(attempts: seq<Attempt>, i: nat) {
    i < |attempts| && !attempts[i].Succeeded() && forall j :: i < j < |attempts| ==> attempts[j] != Open(true)
  }

  lemma {:induction false} FailedSnoc(attempts: seq<Attempt>, a: Attempt, i: nat)
    ensures FailedForGood(attempts + [a], i) <==>
              (a != Open(true) && FailedForGood(attempts, i)) || (i == |attempts| && !a.Succeeded())
  {
    var more := attempts + [a];
    if i < |attempts| {
      assert more[|attempts|] == a && more[i] == attempts[i];
      assert forall j :: i < j < |attempts| ==> more[j] == attempts[j];
    }
  }

  /** The sink is down exactly when some attempt failed and no open succeeded since. */
  lemma {:induction false} SinkDownIff(attempts: seq<Attempt>)
    ensures SinkDown(attempts) <==> exists i: nat :: FailedForGood(attempts, i)
  {
    if attempts != [] {
      hide FailedForGood;
      var earlier, a := Init(attempts), Last(attempts);
      assert attempts == earlier + [a];
      SinkDownIff(earlier);
      FailedSnoc(earlier, a, |earlier|);
      if i: nat :| FailedForGood(earlier, i) {
        FailedSnoc(earlier, a, i);
      }
      if i: nat :| FailedForGood(attempts, i) {
        FailedSnoc(earlier, a, i);
      }
    }
  }

  /** The documented reading: unhealthy once an attempt failed and no later one succeeded. */
  predicate LastAttemptSucceeded(attempts: seq<Attempt>) {
    attempts == [] || Last(attempts).Succeeded()
  }

  /** The flag and its documentation agree except after a line written while the sink counts as down:
      writing does not clear the flag, only reopening does. */
  lemma {:induction false} HealthAgreesIff(attempts: seq<Attempt>)
    ensures !SinkDown(attempts) == LastAttemptSucceeded(attempts) <==>
              !(attempts != [] && Last(attempts).WriteLine? && Last(attempts).Succeeded() && SinkDown(Init(attempts)))
  {
  }

  /** It does happen: a line the disk refuses and one it takes leave the flag at unhealthy. */
  lemma {:induction false} HealthStaysBad(st: LogFileState, cap: nat, line: string, early: RotationAnswers)
    requires Counted(st, cap) && st.isOpen && st.size + |line| < cap
    ensures var refused := LineWritten(st, cap, line, Answers(true, early, WriteFails(0), early));
            var taken := LineWritten(refused, cap, line, Answers(true, early, Reaches, early));
            taken.sinkFailed && LastAttemptSucceeded(taken.attempts)
            && LiveText(taken.files) == LiveText(st.files) + st.buffer + line
  {
    hide Rotated, UnflushedLength;
    var refused := LineWritten(st, cap, line, Answers(true, early, WriteFails(0), early));
    assert LiveText(st.files) + "" == LiveText(st.files);
    assert LiveText(refused.files) == LiveText(st.files) && refused.buffer == st.buffer;
    assert LiveText(st.files) + (st.buffer + line) == LiveText(st.files) + st.buffer + line;
  }
}

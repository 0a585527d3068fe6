/**
 The on-disk side of the application log (app/diagnostics/AppLog.cpp): one live file, a
 number of backups, and a rename cascade that must not lose the order of lines whatever
 the file system refuses.

 The open file buffers what is written and a flush pushes it to the disk; one that fails leaves the
 rest in the buffer for the next.

 Slot 0 is the live file, slot `k` its k-th backup. The file system's answers are arguments;
 a rename succeeds only onto a name that is free.
 */
module LogRotation {
  import opened Wrappers
  import opened Sequences

  type Files = seq<Option<string>>

  // ----- The file system -----

  function Remove(files: Files, slot: nat, ok: bool): Files
    requires slot < |files|
  {
    if ok then files[slot := None] else files
  }

  function Rename(files: Files, slot: nat, ok: bool): Files
    requires slot + 1 < |files|
  {
    if ok && files[slot].Some? && files[slot + 1].None? then files[slot + 1 := files[slot]][slot := None] else files
  }

  /** Opening for append creates the file when it is missing. */
  function OpenAppend(files: Files, ok: bool): Files
    requires files != []
  {
    if ok && files[0].None? then files[0 := Some("")] else files
  }

  function LiveText(files: Files): string
    requires files != []
  {
    files[0].GetOr("")
  }

  /** The answers to one rotation; `closing` is how much of the buffer the close still gets out. */
  datatype RotationAnswers = RotationAnswers(closing: nat, remove: bool, rename: nat -> bool, reopen: bool)

  /** What becomes of one line. The file buffers it: the write may refuse it, or take it and the flush
      fail, with some of what is buffered pushed to the disk either way; or the flush empties the buffer. */
  datatype WriteAnswer = WriteFails(pushed: nat) | FlushFails(pushed: nat) | Reaches

  datatype Answers = Answers(open: bool, early: RotationAnswers, write: WriteAnswer, late: RotationAnswers)

  // ----- The log file, as functions of its whole state -----

  datatype Report = SinkUnavailable | SinkRestored | ShiftFailed

  datatype Outcome = Refused | Unflushed | Flushed

  /** An attempt to open or to write a line, and how it went. */
  datatype Attempt = Open(ok: bool) | WriteLine(line: string, outcome: Outcome) {
    predicate Succeeded() {
      match this
      case Open(ok) => ok
      case WriteLine(_, outcome) => outcome.Flushed?
    }
  }

  /** `buffer` is what the open file holds back from the disk. */
  datatype LogFileState = LogFileState(
    files: Files, isOpen: bool, buffer: string, size: nat, shiftFailed: bool, sinkFailed: bool,
    reports: seq<Report>, attempts: seq<Attempt>, rotations: seq<bool>)

  function SinkFails(st: LogFileState): LogFileState {
    st.(sinkFailed := true, reports := if st.sinkFailed then st.reports else st.reports + [SinkUnavailable])
  }

  function Opened(st: LogFileState, ok: bool): LogFileState
    requires st.files != []
  {
    var tried := st.(attempts := st.attempts + [Open(ok)]);
    if !ok then SinkFails(tried)
    else tried.(files := OpenAppend(st.files, ok), isOpen := true, sinkFailed := false,
                reports := if st.sinkFailed then st.reports + [SinkRestored] else st.reports)
  }

  /** Moves the files of slots `k - 1`, .., 0 up by one where that can be done. */
  function Cascade(files: Files, rename: nat -> bool, k: nat): (shifted: Files)
    requires k < |files|
    ensures |shifted| == |files|
    decreases k
  {
    if k == 0 then files else Cascade(Rename(files, k - 1, rename(k - 1)), rename, k - 1)
  }

  function Shifted(files: Files, answers: RotationAnswers): (shifted: Files)
    requires files != []
    ensures |shifted| == |files|
  {
    Cascade(Remove(files, |files| - 1, answers.remove), answers.rename, |files| - 1)
  }

  function Least(m: nat, n: nat): nat {
    if m <= n then m else n
  }

  /** The first `n` characters of the buffer, as far as there are any, get to the disk. */
  function Pushed(st: LogFileState, n: nat): LogFileState
    requires st.files != []
  {
    var k := Least(n, |st.buffer|);
    st.(files := st.files[0 := Some(LiveText(st.files) + st.buffer[..k])], buffer := st.buffer[k..])
  }

  /** Closing tries to flush once more and drops the rest. */
  function ClosedFile(st: LogFileState, closing: nat): LogFileState
    requires st.files != []
  {
    Pushed(st, closing).(buffer := "", isOpen := false)
  }

  /** The size always comes from the file, never from what the rotation intended. */
  function Rotated(st: LogFileState, cap: nat, answers: RotationAnswers): LogFileState
    requires st.files != []
  {
    var closed := ClosedFile(st, answers.closing);
    var reopened := Opened(closed.(files := Shifted(closed.files, answers)), answers.reopen);
    var size := if answers.reopen then |LiveText(reopened.files)| else 0;
    var failed := answers.reopen && size >= cap;
    reopened.(size := size, shiftFailed := failed, rotations := st.rotations + [failed],
              reports := if failed && !st.shiftFailed then reopened.reports + [ShiftFailed] else reopened.reports)
  }

  function EnsuredOpen(st: LogFileState, cap: nat, answers: Answers): LogFileState
    requires st.files != []
  {
    if st.isOpen then st
    else
      var nowOpen := Opened(st, answers.open);
      if !nowOpen.isOpen then nowOpen
      else
        var sized := nowOpen.(size := |LiveText(nowOpen.files)|);
        if sized.size >= cap then Rotated(sized, cap, answers.early) else sized
  }

  function OutcomeOf(answer: WriteAnswer): Outcome {
    match answer
    case WriteFails(_) => Refused
    case FlushFails(_) => Unflushed
    case Reaches => Flushed
  }

  /** The attempt to write a line into the open file. */
  function Tried(st: LogFileState, line: string, answer: WriteAnswer): LogFileState
    requires st.files != []
  {
    var noted := st.(attempts := st.attempts + [WriteLine(line, OutcomeOf(answer))]);
    match answer
    case WriteFails(n) => Pushed(noted, n)
    case FlushFails(n) => Pushed(noted.(buffer := noted.buffer + line), n)
    case Reaches => Pushed(noted.(buffer := noted.buffer + line), |noted.buffer + line|)
  }

  /** A line once the file is open, up to the rotation it may cause. */
  function OpenLine(st: LogFileState, cap: nat, line: string, answers: Answers): LogFileState
    requires st.files != []
  {
    var tried := Tried(st, line, answers.write);
    if !answers.write.Reaches? then SinkFails(tried)
    else
      var counted := tried.(size := tried.size + |line|);
      if counted.size >= cap then Rotated(counted, cap, answers.late) else counted
  }

  /** One line, from the check that the file is open on. */
  function LineWritten(st: LogFileState, cap: nat, line: string, answers: Answers): LogFileState
    requires st.files != []
  {
    var open := EnsuredOpen(st, cap, answers);
    if open.isOpen then OpenLine(open, cap, line, answers) else open
  }

  /** Is there an open file for the line: one that was open already, or one opened now that is not full or, if it
      is, is rotated and opened again? */
  predicate CanTake(st: LogFileState, cap: nat, answers: Answers)
    requires st.files != []
  {
    st.isOpen || (answers.open && (|LiveText(st.files)| < cap || answers.early.reopen))
  }

  /** The text of a line that the file accepted. */
  function AcceptedText(st: LogFileState, cap: nat, line: string, answers: Answers): string
    requires st.files != []
  {
    if CanTake(st, cap, answers) && !answers.write.WriteFails? then line else ""
  }

  // ----- The log file itself -----

  class LogFile {
    const cap: nat
    var files: Files
    var isOpen: bool
    // What the open file holds back from the disk.
    var buffer: string
    var size: nat
    var shiftFailed: bool
    var sinkFailed: bool
    // What went out on the fallback channel.
    var reports: seq<Report>
    ghost var attempts: seq<Attempt>
    ghost var rotations: seq<bool>

    constructor (cap: nat, files: Files)
      requires files != []
      ensures this.cap == cap && State() == Closed(files)
    {
      this.cap := cap;
      this.files := files;
      isOpen, buffer, size, shiftFailed, sinkFailed := false, "", 0, false, false;
      reports, attempts, rotations := [], [], [];
    }

    ghost function State(): LogFileState
      reads this
    {
      LogFileState(files, isOpen, buffer, size, shiftFailed, sinkFailed, reports, attempts, rotations)
    }

    method ReportSinkFailure()
      modifies this
      ensures State() == SinkFails(old(State()))
    {
      if sinkFailed {
        return;
      }
      sinkFailed := true;
      reports := reports + [SinkUnavailable];
    }

    method OpenLogFile(ok: bool) returns (nowOpen: bool)
      requires files != []
      modifies this
      ensures State() == Opened(old(State()), ok) && nowOpen == ok
    {
      attempts := attempts + [Open(ok)];
      if !ok {
        ReportSinkFailure();
        return false;
      }
      files := OpenAppend(files, ok);
      isOpen := true;
      if sinkFailed {
        sinkFailed := false;
        reports := reports + [SinkRestored];
      }
      return true;
    }

    /** Drops the oldest backup and shifts the rest up, downwards through the slots. */
    method ShiftBackups(answers: RotationAnswers)
      requires files != []
      modifies this`files
      ensures files == Shifted(old(files), answers)
    {
      files := Remove(files, |files| - 1, answers.remove);
      ghost var removed := files;
      var index := |files| - 1;
      while index > 0
        invariant 0 <= index < |files| == |removed|
        invariant Cascade(files, answers.rename, index) == Cascade(removed, answers.rename, |removed| - 1)
      {
        index := index - 1;
        if files[index].Some? {
          files := Rename(files, index, answers.rename(index));
        }
      }
    }

    method Push(n: nat)
      requires files != []
      modifies this`files, this`buffer
      ensures State() == Pushed(old(State()), n) && files != []
    {
      var k := Least(n, |buffer|);
      files := files[0 := Some(LiveText(files) + buffer[..k])];
      buffer := buffer[k..];
    }

    method Close(closing: nat)
      requires files != []
      modifies this
      ensures State() == ClosedFile(old(State()), closing)
    {
      Push(closing);
      buffer, isOpen := "", false;
    }

    method Rotate(answers: RotationAnswers) returns (nowOpen: bool)
      requires files != []
      modifies this
      ensures State() == Rotated(old(State()), cap, answers) && nowOpen == isOpen == answers.reopen && files != []
    {
      Close(answers.closing);
      ShiftBackups(answers);
      nowOpen := OpenLogFile(answers.reopen);
      size := if nowOpen then |LiveText(files)| else 0;
      var failed := nowOpen && size >= cap;
      rotations := rotations + [failed];
      if failed && !shiftFailed {
        shiftFailed := true;
        reports := reports + [ShiftFailed];
      } else if !failed {
        shiftFailed := false;
      }
    }

    method EnsureOpen(answers: Answers) returns (nowOpen: bool)
      requires files != []
      modifies this
      ensures State() == EnsuredOpen(old(State()), cap, answers) && nowOpen == isOpen && files != []
    {
      if isOpen {
        return true;
      }
      nowOpen := OpenLogFile(answers.open);
      if !nowOpen {
        return;
      }
      size := |LiveText(files)|;
      if size >= cap {
        nowOpen := Rotate(answers.early);
      }
    }

    method Write(line: string, answers: Answers) returns (written: bool)
      requires files != []
      modifies this
      ensures State() == LineWritten(old(State()), cap, line, answers)
      ensures written <==> isOpen && answers.write.Reaches?
    {
      hide Rotated, EnsuredOpen, Pushed, SinkFails;
      var nowOpen := EnsureOpen(answers);
      if !nowOpen {
        return false;
      }
      attempts := attempts + [WriteLine(line, OutcomeOf(answers.write))];
      if answers.write.WriteFails? {
        Push(answers.write.pushed);
        ReportSinkFailure();
        return false;
      }
      buffer := buffer + line;
      if answers.write.FlushFails? {
        Push(answers.write.pushed);
        ReportSinkFailure();
        return false;
      }
      Push(|buffer|);
      size := size + |line|;
      if size >= cap {
        written := Rotate(answers.late);
        return;
      }
      return true;
    }
  }

  function Closed(files: Files): LogFileState {
    LogFileState(files, false, "", 0, false, false, [], [], [])
  }

  // ----- Rotation drops only the oldest text -----

  /** Everything on disk, oldest first. */
  function OldestFirst(files: Files): string {
    if files == [] then "" else Last(files).GetOr("") + OldestFirst(Init(files))
  }

  lemma {:induction false} OldestFirstSnoc(files: Files, file: Option<string>)
    ensures OldestFirst(files + [file]) == file.GetOr("") + OldestFirst(files)
  {
    assert Init(files + [file]) == files;
  }

  lemma {:induction false} OldestFirstConcat(s: Files, t: Files)
    ensures OldestFirst(s + t) == OldestFirst(t) + OldestFirst(s)
  {
    if t == [] {
      assert s + t == s && OldestFirst(t) + OldestFirst(s) == OldestFirst(s);
    } else {
      hide OldestFirst;
      var front, file := Init(t), Last(t);
      assert t == front + [file] && s + t == (s + front) + [file];
      OldestFirstConcat(s, front);
      OldestFirstSnoc(s + front, file);
      OldestFirstSnoc(front, file);
      ConcatThree(file.GetOr(""), OldestFirst(front), OldestFirst(s));
    }
  }

  lemma {:induction false} ConcatThree(a: string, b: string, c: string)
    ensures a + (b + c) == (a + b) + c
  {
  }

  lemma {:induction false} TwoFiles(x: Option<string>, y: Option<string>)
    ensures OldestFirst([x, y]) == y.GetOr("") + x.GetOr("")
  {
    assert Init([x, y]) == [x] && Init([x]) == [];
    assert OldestFirst([x]) == x.GetOr("") + "";
  }

  lemma {:induction false} MiddleOnly(below: Files, middle: Files, other: Files, above: Files)
    requires OldestFirst(middle) == OldestFirst(other)
    ensures OldestFirst(below + middle + above) == OldestFirst(below + other + above)
  {
    OldestFirstConcat(below + middle, above);
    OldestFirstConcat(below, middle);
    OldestFirstConcat(below + other, above);
    OldestFirstConcat(below, other);
  }

  lemma {:induction false} MovedUp(files: Files, slot: nat)
    requires slot + 1 < |files| && files[slot + 1].None?
    ensures files == files[..slot] + [files[slot], None] + files[slot + 2..]
    ensures files[slot + 1 := files[slot]][slot := None] == files[..slot] + [None, files[slot]] + files[slot + 2..]
  {
  }

  /** A file moved onto a free neighbouring name keeps its place in the order. */
  lemma {:induction false} RenameKeepsOrder(files: Files, slot: nat, ok: bool)
    requires slot + 1 < |files|
    ensures OldestFirst(Rename(files, slot, ok)) == OldestFirst(files)
  {
    if ok && files[slot].Some? && files[slot + 1].None? {
      MovedUp(files, slot);
      TwoFiles(files[slot], None);
      TwoFiles(None, files[slot]);
      MiddleOnly(files[..slot], [files[slot], None], [None, files[slot]], files[slot + 2..]);
    }
  }

  lemma {:induction false} CascadeKeepsOrder(files: Files, rename: nat -> bool, k: nat)
    requires k < |files|
    ensures OldestFirst(Cascade(files, rename, k)) == OldestFirst(files)
    decreases k
  {
    hide OldestFirst;
    if k > 0 {
      RenameKeepsOrder(files, k - 1, rename(k - 1));
      CascadeKeepsOrder(Rename(files, k - 1, rename(k - 1)), rename, k - 1);
    }
  }

  /** The text of the oldest backup. */
  function TopText(files: Files): string
    requires files != []
  {
    files[|files| - 1].GetOr("")
  }

  /** What a rotation of `files` removes: the top slot, unless the file system refuses. */
  function TopRemoved(files: Files, answers: RotationAnswers): string
    requires files != []
  {
    if answers.remove then TopText(files) else ""
  }

  /** Whatever is refused, a shift loses the top slot's text or, if that cannot be removed, nothing. */
  lemma {:induction false} ShiftDropsOldest(files: Files, answers: RotationAnswers)
    requires files != []
    ensures TopRemoved(files, answers) + OldestFirst(Shifted(files, answers)) == OldestFirst(files)
  {
    var removed := Remove(files, |files| - 1, answers.remove);
    CascadeKeepsOrder(removed, answers.rename, |files| - 1);
    if answers.remove {
      assert Init(removed) == Init(files);
    }
  }

  lemma {:induction false} CascadeUnobstructed(files: Files, rename: nat -> bool, k: nat)
    requires k < |files| && files[k].None? && forall j :: 0 <= j < k ==> rename(j)
    ensures Cascade(files, rename, k) == [None] + files[..k] + files[k + 1..]
    decreases k
  {
    if k > 0 {
      var moved := Rename(files, k - 1, true);
      CascadeUnobstructed(moved, rename, k - 1);
      assert moved[..k - 1] == files[..k - 1] && moved[k..] == [files[k - 1]] + files[k + 1..];
      assert files[..k] == files[..k - 1] + [files[k - 1]];
    }
  }

  /** With nothing refused every file moves up by one slot, the top one makes room and the live name is free. */
  lemma {:induction false} ShiftUnobstructed(files: Files, answers: RotationAnswers)
    requires files != [] && answers.remove && forall k :: 0 <= k < |files| - 1 ==> answers.rename(k)
    ensures Shifted(files, answers)[0] == None
    ensures forall k :: 0 <= k < |files| - 1 ==> Shifted(files, answers)[k + 1] == files[k]
  {
    CascadeUnobstructed(Remove(files, |files| - 1, true), answers.rename, |files| - 1);
  }

  /** The newest text is at the end. */
  lemma {:induction false} LiveIsNewest(files: Files, text: Option<string>)
    requires files != []
    ensures OldestFirst(files[0 := text]) == OldestFirst(files[1..]) + text.GetOr("")
  {
    assert files[0 := text] == [text] + files[1..];
    OldestFirstConcat([text], files[1..]);
    assert Init([text]) == [] && OldestFirst([text]) == text.GetOr("") + "";
  }

  lemma {:induction false} OpenedKeepsText(st: LogFileState, ok: bool)
    requires st.files != []
    ensures OldestFirst(Opened(st, ok).files) == OldestFirst(st.files)
  {
    LiveIsNewest(st.files, st.files[0]);
    LiveIsNewest(st.files, Some(""));
    assert st.files[0 := st.files[0]] == st.files;
  }

  /** Everything the log has: what is on disk, oldest first, and what the open file still holds back. */
  function Text(st: LogFileState): string {
    OldestFirst(st.files) + st.buffer
  }

  /** A closed file holds nothing back. */
  ghost predicate BufferOk(st: LogFileState) {
    st.files != [] && (!st.isOpen ==> st.buffer == "")
  }

  lemma {:induction false} PushedKeepsText(st: LogFileState, n: nat)
    requires st.files != []
    ensures Text(Pushed(st, n)) == Text(st) && |Pushed(st, n).files| == |st.files|
    ensures n >= |st.buffer| ==> Pushed(st, n).buffer == ""
  {
    hide OldestFirst;
    var k := Least(n, |st.buffer|);
    LiveIsNewest(st.files, st.files[0]);
    assert st.files[0 := st.files[0]] == st.files;
    LiveIsNewest(st.files, Some(LiveText(st.files) + st.buffer[..k]));
    var backups := OldestFirst(st.files[1..]);
    assert backups + (LiveText(st.files) + st.buffer[..k]) == (backups + LiveText(st.files)) + st.buffer[..k];
    assert st.buffer[..k] + st.buffer[k..] == st.buffer;
    assert ((backups + LiveText(st.files)) + st.buffer[..k]) + st.buffer[k..]
        == (backups + LiveText(st.files)) + (st.buffer[..k] + st.buffer[k..]);
  }

  lemma {:induction false} RotatedKeepsSlots(st: LogFileState, cap: nat, answers: RotationAnswers)
    requires st.files != []
    ensures |Rotated(st, cap, answers).files| == |st.files| && Rotated(st, cap, answers).buffer == ""
    ensures Rotated(st, cap, answers).isOpen == answers.reopen
  {
    hide Shifted;
  }

  lemma {:induction false} ClosedEmptyFiles(st: LogFileState, n: nat)
    requires st.files != [] && st.buffer == ""
    ensures ClosedFile(st, n).files == st.files[0 := Some(LiveText(st.files))]
  {
    assert LiveText(st.files) + st.buffer[..0] == LiveText(st.files);
  }

  lemma {:induction false} SameTop(files: Files, answers: RotationAnswers)
    requires files != []
    ensures TopRemoved(files[0 := Some(LiveText(files))], answers) == TopRemoved(files, answers)
  {
  }

  lemma {:induction false} ClosedKeepsText(st: LogFileState, n: nat, answers: RotationAnswers)
    requires st.files != [] && st.buffer == ""
    ensures var closed := ClosedFile(st, n).files;
            && closed != [] && OldestFirst(closed) == OldestFirst(st.files)
            && TopRemoved(closed, answers) == TopRemoved(st.files, answers)
  {
    hide OldestFirst, TopRemoved, ClosedFile;
    ClosedEmptyFiles(st, n);
    SameTop(st.files, answers);
    LiveIsNewest(st.files, st.files[0]);
    LiveIsNewest(st.files, Some(LiveText(st.files)));
    assert st.files[0 := st.files[0]] == st.files;
  }

  /** A rotation of a file that holds nothing back drops what it removes and no more. */
  lemma {:induction false} RotatedDropsOldest(st: LogFileState, cap: nat, answers: RotationAnswers)
    requires st.files != [] && st.buffer == ""
    ensures TopRemoved(st.files, answers) + OldestFirst(Rotated(st, cap, answers).files) == OldestFirst(st.files)
  {
    hide OldestFirst, Shifted, ClosedFile, Opened, TopRemoved, LiveText;
    var closed := ClosedFile(st, answers.closing);
    ClosedKeepsText(st, answers.closing, answers);
    ShiftDropsOldest(closed.files, answers);
    OpenedKeepsText(closed.(files := Shifted(closed.files, answers)), answers.reopen);
  }

  lemma {:induction false} DropChain(d: string, s: string, e: string, t: string, u: string, more: string)
    requires d + s == t + more && e + t == u
    ensures (e + d) + s == u + more
  {
    assert (e + d) + s == e + (d + s);
    assert e + (t + more) == (e + t) + more;
  }

  /** What is lost when a closed file turns out to be full as it is opened. */
  function EarlyDrop(st: LogFileState, cap: nat, answers: Answers): string
    requires st.files != []
  {
    if !st.isOpen && answers.open && |LiveText(st.files)| >= cap then TopRemoved(st.files, answers.early) else ""
  }

  lemma {:induction false} OpenAppendKeepsTop(files: Files, answers: RotationAnswers)
    requires files != []
    ensures LiveText(OpenAppend(files, true)) == LiveText(files)
    ensures TopRemoved(OpenAppend(files, true), answers) == TopRemoved(files, answers)
  {
  }

  lemma {:induction false} EnsuredDropsOldest(st: LogFileState, cap: nat, answers: Answers)
    requires BufferOk(st)
    ensures var open := EnsuredOpen(st, cap, answers);
            && EarlyDrop(st, cap, answers) + Text(open) == Text(st) && BufferOk(open) && |open.files| == |st.files|
            && (!st.isOpen ==> open.buffer == "") && open.isOpen == CanTake(st, cap, answers)
  {
    hide OldestFirst, Shifted, Rotated, TopRemoved, LiveText;
    assert "" + Text(st) == Text(st);
    if !st.isOpen {
      OpenedKeepsText(st, answers.open);
      OpenAppendKeepsTop(st.files, answers.early);
      var tried := Opened(st, answers.open);
      var sized := tried.(size := |LiveText(tried.files)|);
      assert OldestFirst(st.files) + "" == OldestFirst(st.files);
      assert "" + (OldestFirst(st.files) + "") == OldestFirst(st.files);
      RotatedKeepsSlots(sized, cap, answers.early);
      RotatedDropsOldest(sized, cap, answers.early);
      var rotated := Rotated(sized, cap, answers.early);
      assert OldestFirst(rotated.files) + "" == OldestFirst(rotated.files);
    }
  }

  lemma {:induction false} TriedKeepsText(st: LogFileState, line: string, answer: WriteAnswer)
    requires st.files != []
    ensures Text(Tried(st, line, answer)) == Text(st) + if answer.WriteFails? then "" else line
    ensures |Tried(st, line, answer).files| == |st.files| && Tried(st, line, answer).isOpen == st.isOpen
    ensures answer.Reaches? ==> Tried(st, line, answer).buffer == ""
  {
    hide OldestFirst, Pushed;
    var noted := st.(attempts := st.attempts + [WriteLine(line, OutcomeOf(answer))]);
    var taken := noted.(buffer := noted.buffer + line);
    assert OldestFirst(st.files) + (st.buffer + line) == (OldestFirst(st.files) + st.buffer) + line;
    match answer {
      case WriteFails(n) => PushedKeepsText(noted, n); PushedStaysOpen(noted, n);
      case FlushFails(n) => PushedKeepsText(taken, n); PushedStaysOpen(taken, n);
      case Reaches => PushedKeepsText(taken, |taken.buffer|); PushedStaysOpen(taken, |taken.buffer|);
    }
    assert Text(st) + "" == Text(st);
  }

  lemma {:induction false} PushedStaysOpen(st: LogFileState, n: nat)
    requires st.files != []
    ensures Pushed(st, n).isOpen == st.isOpen
  {
  }

  /** What is lost when a line that reached the disk fills the open file. */
  function LateDrop(st: LogFileState, cap: nat, line: string, answers: Answers): string
    requires st.files != []
  {
    if answers.write.Reaches? && st.size + |line| >= cap
    then TopRemoved(Tried(st, line, answers.write).files, answers.late) else ""
  }

  lemma {:induction false} OpenLineDropsOldest(st: LogFileState, cap: nat, line: string, answers: Answers)
    requires st.files != [] && st.isOpen
    ensures var after := OpenLine(st, cap, line, answers);
            && LateDrop(st, cap, line, answers) + Text(after)
               == Text(st) + (if answers.write.WriteFails? then "" else line)
            && BufferOk(after) && |after.files| == |st.files|
  {
    hide OldestFirst, Rotated, Tried, TopRemoved;
    var tried := Tried(st, line, answers.write);
    TriedKeepsText(st, line, answers.write);
    TriedKeepsSize(st, line, answers.write);
    assert "" + Text(tried) == Text(tried);
    if answers.write.Reaches? {
      var counted := tried.(size := tried.size + |line|);
      RotatedKeepsSlots(counted, cap, answers.late);
      RotatedDropsOldest(counted, cap, answers.late);
      var rotated := Rotated(counted, cap, answers.late);
      assert OldestFirst(rotated.files) + "" == OldestFirst(rotated.files);
      assert OldestFirst(tried.files) + "" == OldestFirst(tried.files);
    }
  }

  lemma {:induction false} TriedKeepsSize(st: LogFileState, line: string, answer: WriteAnswer)
    requires st.files != []
    ensures Tried(st, line, answer).size == st.size
  {
  }

  /** The top slots that the rotations of one line remove: at most two, one as the file is opened and one as the
      line fills it. */
  function LineDrops(st: LogFileState, cap: nat, line: string, answers: Answers): string
    requires st.files != []
  {
    EarlyDrop(st, cap, answers)
    + if CanTake(st, cap, answers) then LateDrop(EnsuredOpen(st, cap, answers), cap, line, answers) else ""
  }

  /** One line loses exactly the top slots its rotations remove: put back in front, they make what the log has
      what it had, followed by the line, if the file accepted it. */
  lemma {:induction false} LineDropsOldest(st: LogFileState, cap: nat, line: string, answers: Answers)
    requires BufferOk(st)
    ensures var after := LineWritten(st, cap, line, answers);
            && LineDrops(st, cap, line, answers) + Text(after) == Text(st) + AcceptedText(st, cap, line, answers)
            && BufferOk(after) && |after.files| == |st.files|
  {
    hide OldestFirst, OpenLine, EnsuredOpen, EarlyDrop, LateDrop, Text;
    var open := EnsuredOpen(st, cap, answers);
    var early := EarlyDrop(st, cap, answers);
    EnsuredDropsOldest(st, cap, answers);
    if open.isOpen {
      OpenLineDropsOldest(open, cap, line, answers);
      DropChain(LateDrop(open, cap, line, answers), Text(OpenLine(open, cap, line, answers)), early, Text(open),
                Text(st), AcceptedText(st, cap, line, answers));
    } else {
      assert Text(st) + "" == Text(st) && early + "" == early;
    }
  }

  /** A line that leaves the open file below the cap loses nothing. */
  lemma {:induction false} BelowCapNothingIsLost(st: LogFileState, cap: nat, line: string, answers: Answers)
    requires BufferOk(st) && st.isOpen && st.size + |line| < cap
    ensures Text(LineWritten(st, cap, line, answers))
         == Text(st) + if answers.write.WriteFails? then "" else line
  {
    hide OldestFirst, Text, LineWritten, Tried;
    LineDropsOldest(st, cap, line, answers);
    assert LineDrops(st, cap, line, answers) == "";
    assert "" + Text(LineWritten(st, cap, line, answers)) == Text(LineWritten(st, cap, line, answers));
  }

  // ----- Nothing is ever lost in a close -----

  /** The same answers, with other amounts flushed by the closes of its rotations. */
  function ClosingWith(answers: Answers, early: nat, late: nat): Answers {
    answers.(early := answers.early.(closing := early), late := answers.late.(closing := late))
  }

  lemma {:induction false} ClosedEmpty(st: LogFileState, m: nat, n: nat)
    requires st.files != [] && st.buffer == ""
    ensures ClosedFile(st, m) == ClosedFile(st, n)
  {
    hide LiveText;
  }

  lemma {:induction false} RotatedEmpty(st: LogFileState, cap: nat, answers: RotationAnswers, n: nat)
    requires st.files != [] && st.buffer == ""
    ensures Rotated(st, cap, answers) == Rotated(st, cap, answers.(closing := n))
  {
    hide Cascade, Opened, Remove, ClosedFile, LiveText;
    ClosedEmpty(st, answers.closing, n);
  }

  /** The log closes its file only to rotate, and then nothing is held back: whatever a close would flush or
      drop makes no difference. */
  lemma {:induction false} CloseLosesNothing(st: LogFileState, cap: nat, line: string, answers: Answers,
                                             early: nat, late: nat)
    requires BufferOk(st)
    ensures LineWritten(st, cap, line, answers) == LineWritten(st, cap, line, ClosingWith(answers, early, late))
  {
    hide Rotated, Tried;
    EnsuredDropsOldest(st, cap, answers);
    if !st.isOpen {
      var tried := Opened(st, answers.open);
      RotatedEmpty(tried.(size := |LiveText(tried.files)|), cap, answers.early, early);
    }
    var open := EnsuredOpen(st, cap, answers);
    if open.isOpen {
      TriedKeepsText(open, line, answers.write);
      if answers.write.Reaches? {
        var written := Tried(open, line, answers.write);
        RotatedEmpty(written.(size := written.size + |line|), cap, answers.late, late);
      }
    }
  }

  // ----- Runs -----

  datatype LineOp = LineOp(line: string, answers: Answers)

  lemma {:induction false} LineKeepsSlots(st: LogFileState, cap: nat, line: string, answers: Answers)
    requires st.files != []
    ensures |LineWritten(st, cap, line, answers).files| == |st.files|
  {
    hide Rotated, Tried;
    var tried := Opened(st, answers.open);
    RotatedKeepsSlots(tried.(size := |LiveText(tried.files)|), cap, answers.early);
    var open := EnsuredOpen(st, cap, answers);
    TriedKeepsText(open, line, answers.write);
    var written := Tried(open, line, answers.write);
    RotatedKeepsSlots(written.(size := written.size + |line|), cap, answers.late);
  }

  function WriteAll(st: LogFileState, cap: nat, ops: seq<LineOp>): (end: LogFileState)
    requires st.files != []
    ensures |end.files| == |st.files|
  {
    if ops == [] then st
    else
      var before := WriteAll(st, cap, Init(ops));
      LineKeepsSlots(before, cap, Last(ops).line, Last(ops).answers);
      LineWritten(before, cap, Last(ops).line, Last(ops).answers)
  }

  /** Every line the file accepted over a run. */
  function AllText(st: LogFileState, cap: nat, ops: seq<LineOp>): string
    requires st.files != []
  {
    if ops == [] then ""
    else
      AllText(st, cap, Init(ops))
      + AcceptedText(WriteAll(st, cap, Init(ops)), cap, Last(ops).line, Last(ops).answers)
  }

  /** Every top slot removed over a run. */
  function AllDrops(st: LogFileState, cap: nat, ops: seq<LineOp>): string
    requires st.files != []
  {
    if ops == [] then ""
    else
      AllDrops(st, cap, Init(ops)) + LineDrops(WriteAll(st, cap, Init(ops)), cap, Last(ops).line, Last(ops).answers)
  }

  /** For any number of slots and whatever the file system refuses: the top slots its rotations removed, the
      files read oldest first and what the open file still holds back are together exactly what was there
      followed by every accepted line. Rotation loses those slots only, and never reorders or repeats; what a
      failed flush leaves behind comes out in its place. */
  lemma {:induction false} RunDropsOnlyTopSlots(st: LogFileState, cap: nat, ops: seq<LineOp>)
    requires BufferOk(st)
    ensures AllDrops(st, cap, ops) + Text(WriteAll(st, cap, ops)) == Text(st) + AllText(st, cap, ops)
    ensures BufferOk(WriteAll(st, cap, ops))
  {
    hide Text, LineWritten, LineDrops, AcceptedText;
    if ops == [] {
      assert Text(st) + "" == Text(st) == "" + Text(st);
    } else {
      RunDropsOnlyTopSlots(st, cap, Init(ops));
      var before, op := WriteAll(st, cap, Init(ops)), Last(ops);
      var text, last := AllText(st, cap, Init(ops)), AcceptedText(before, cap, op.line, op.answers);
      LineDropsOldest(before, cap, op.line, op.answers);
      DropChain(LineDrops(before, cap, op.line, op.answers), Text(LineWritten(before, cap, op.line, op.answers)),
                AllDrops(st, cap, Init(ops)), Text(before), Text(st) + text, last);
      assert (Text(st) + text) + last == Text(st) + (text + last);
    }
  }
}

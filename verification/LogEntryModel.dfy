/**
 The log page's own copy of the history (app/quick/ExoSnap/Quick/LogEntryModel.cpp), kept
 from the same signals. It drops evicted rows before it appends, and only as many as it
 has, so it follows the history exactly as long as a batch never evicts more rows than it
 holds.
 */
module LogEntryModel {
  import opened Wrappers
  import opened Sequences
  import opened AppLog
  import opened AppLogDelivery

  datatype ModelState = ModelState(entries: seq<LogEntry>, lastSequenceSeen: nat)

  function Larger(x: nat, y: nat): nat {
    if x < y then y else x
  }

  function MaxSequence(entries: seq<LogEntry>): nat {
    if entries == [] then 0 else Larger(MaxSequence(entries[..|entries| - 1]), entries[|entries| - 1].sequence)
  }

  /** The entries of a batch not seen before; numbered entries count as seen once passed. */
  function Unseen(batch: seq<LogEntry>, seen: nat): seq<LogEntry> {
    if batch == [] then []
    else
      var before := Unseen(batch[..|batch| - 1], seen);
      var e := batch[|batch| - 1];
      if e.sequence != 0 && e.sequence <= SeenAfter(batch[..|batch| - 1], seen) then before else before + [e]
  }

  function SeenAfter(batch: seq<LogEntry>, seen: nat): nat {
    Larger(seen, MaxSequence(batch))
  }

  lemma {:induction false} MaxSequenceIsMax(entries: seq<LogEntry>)
    ensures forall k :: 0 <= k < |entries| ==> entries[k].sequence <= MaxSequence(entries)
    ensures MaxSequence(entries) == 0 || exists k :: 0 <= k < |entries| && entries[k].sequence == MaxSequence(entries)
  {
    if entries != [] {
      MaxSequenceIsMax(entries[..|entries| - 1]);
    }
  }

  /** Is the entry `k` of the batch news: unnumbered, or numbered above all that was seen and all before it? */
  ghost predicate IsNews(batch: seq<LogEntry>, seen: nat, k: nat)
    requires k < |batch|
  {
    batch[k].sequence > 0 ==>
      seen < batch[k].sequence && forall j :: 0 <= j < k ==> batch[j].sequence < batch[k].sequence
  }

  /** The places in the batch that hold news. */
  ghost function NewsIn(batch: seq<LogEntry>, seen: nat, n: nat): seq<LogEntry>
    requires n <= |batch|
  {
    if n == 0 then []
    else NewsIn(batch, seen, n - 1) + if IsNews(batch, seen, n - 1) then [batch[n - 1]] else []
  }

  /** What counts as unseen, read off the batch. */
  lemma {:induction false} UnseenIsNews(batch: seq<LogEntry>, seen: nat, n: nat)
    requires n <= |batch|
    ensures Unseen(batch[..n], seen) == NewsIn(batch, seen, n)
  {
    if n > 0 {
      UnseenIsNews(batch, seen, n - 1);
      assert batch[..n][..n - 1] == batch[..n - 1];
      MaxSequenceIsMax(batch[..n - 1]);
      assert forall j :: 0 <= j < n - 1 ==> batch[..n - 1][j] == batch[j];
    }
  }

  function Appended(m: ModelState, batch: seq<LogEntry>, evicted: nat): ModelState {
    var news := Unseen(batch, m.lastSequenceSeen);
    if news == [] then m
    else
      var dropped := if evicted < |m.entries| then evicted else |m.entries|;
      ModelState(m.entries[dropped..] + news, SeenAfter(batch, m.lastSequenceSeen))
  }

  class LogEntryModel {
    var entries: seq<LogEntry>
    var lastSequenceSeen: nat

    constructor ()
      ensures State() == ModelState([], 0)
    {
      entries, lastSequenceSeen := [], 0;
    }

    ghost function State(): ModelState
      reads this
    {
      ModelState(entries, lastSequenceSeen)
    }

    method ResetTo(entries: seq<LogEntry>)
      modifies this
      ensures State() == ModelState(entries, MaxSequence(entries))
    {
      this.entries := entries;
      lastSequenceSeen := 0;
      for k := 0 to |entries|
        invariant this.entries == entries && lastSequenceSeen == MaxSequence(entries[..k])
      {
        assert entries[..k + 1][..k] == entries[..k];
        lastSequenceSeen := Larger(lastSequenceSeen, entries[k].sequence);
      }
      assert entries[..|entries|] == entries;
    }

    method OnEntriesAppended(batch: seq<LogEntry>, evicted: nat)
      modifies this
      ensures State() == Appended(old(State()), batch, evicted)
    {
      var news: seq<LogEntry> := [];
      for k := 0 to |batch|
        invariant entries == old(entries)
        invariant lastSequenceSeen == SeenAfter(batch[..k], old(lastSequenceSeen))
        invariant news == Unseen(batch[..k], old(lastSequenceSeen))
        invariant news == [] ==> lastSequenceSeen == old(lastSequenceSeen)
      {
        assert batch[..k + 1][..k] == batch[..k];
        var e := batch[k];
        if !(e.sequence != 0 && e.sequence <= lastSequenceSeen) {
          news := news + [e];
          lastSequenceSeen := Larger(lastSequenceSeen, e.sequence);
        }
      }
      assert batch[..|batch|] == batch;
      if news == [] {
        return;
      }
      var dropped := if evicted < |entries| then evicted else |entries|;
      entries := entries[dropped..];
      entries := entries + news;
    }

    method OnLogCleared()
      modifies this
      ensures State() == ModelState([], 0)
    {
      ResetTo([]);
    }
  }

  // ----- When the model follows the history -----

  lemma {:induction false} WindowIsUnseen(batch: seq<LogEntry>, next: nat, seen: nat)
    requires EndsBelow(batch, next) && batch != [] && seen < batch[0].sequence
    ensures Unseen(batch, seen) == batch && SeenAfter(batch, seen) == next - 1
  {
    var before := batch[..|batch| - 1];
    if before != [] {
      WindowIsUnseen(before, next - 1, seen);
    } else {
      assert Unseen(before, seen) == [] && MaxSequence(before) == 0;
    }
  }

  /** On a batch it has not seen, the model ends up with what a mirror following the log holds
      exactly when the batch evicts no more rows than the model has. */
  lemma {:induction false} FollowsIff(m: ModelState, batch: seq<LogEntry>, evicted: nat, next: nat)
    requires EndsBelow(batch, next) && batch != [] && m.lastSequenceSeen < batch[0].sequence
    requires evicted <= |m.entries + batch|
    ensures Appended(m, batch, evicted).entries == Follow(m.entries, batch, evicted) <==> evicted <= |m.entries|
  {
    WindowIsUnseen(batch, next, m.lastSequenceSeen);
    if evicted <= |m.entries| {
      assert (m.entries + batch)[evicted..] == m.entries[evicted..] + batch;
    } else {
      assert |Appended(m, batch, evicted).entries| == |batch|;
    }
  }

  /** Attaching takes over the history, waiting entries included; their delivery is then no news. */
  lemma {:induction false} RedeliveryIsNoNews(m: ModelState, batch: seq<LogEntry>, evicted: nat)
    requires forall k :: 0 <= k < |batch| ==> 0 < batch[k].sequence <= m.lastSequenceSeen
    ensures Appended(m, batch, evicted) == m
  {
    AllSeen(batch, m.lastSequenceSeen);
  }

  lemma {:induction false} AllSeen(batch: seq<LogEntry>, seen: nat)
    requires forall k :: 0 <= k < |batch| ==> 0 < batch[k].sequence <= seen
    ensures Unseen(batch, seen) == [] && SeenAfter(batch, seen) == seen
  {
    if batch != [] {
      AllSeen(batch[..|batch| - 1], seen);
    }
  }

  lemma {:induction false} UnseenSnoc(batch: seq<LogEntry>, e: LogEntry, seen: nat)
    ensures Unseen(batch + [e], seen)
         == if e.sequence != 0 && e.sequence <= SeenAfter(batch, seen) then Unseen(batch, seen)
            else Unseen(batch, seen) + [e]
    ensures SeenAfter(batch + [e], seen) == Larger(SeenAfter(batch, seen), e.sequence)
  {
    assert (batch + [e])[..|batch + [e]| - 1] == batch;
  }

  lemma {:induction false} UnseenTail(waiting: seq<LogEntry>, news: seq<LogEntry>, next: nat, seen: nat)
    requires EndsBelow(waiting + news, next) && seen == next - 1 - |news|
    ensures Unseen(waiting + news, seen) == news && SeenAfter(waiting + news, seen) == next - 1
    decreases |news|
  {
    hide Unseen, SeenAfter;
    if news == [] {
      assert waiting + news == waiting;
      AllSeen(waiting, seen);
    } else {
      var earlier, e := news[..|news| - 1], news[|news| - 1];
      assert news == earlier + [e] && waiting + news == (waiting + earlier) + [e];
      assert (waiting + news)[|waiting + news| - 1] == e;
      assert forall k :: 0 <= k < |waiting + earlier| ==> (waiting + earlier)[k] == (waiting + news)[k];
      UnseenTail(waiting, earlier, next - 1, seen);
      UnseenSnoc(waiting + earlier, e, seen);
    }
  }

  /** Attaching while entries wait whose writes evicted `before` rows, with `news` written since and
      evicting `since` more: the delivery leaves the model with the history exactly when the news
      evict no more rows than it took over and either nothing had been evicted before or every
      row it took over goes. */
  lemma {:induction false} AttachedMidBatchIff(m: ModelState, waiting: seq<LogEntry>, news: seq<LogEntry>,
                                               before: nat, since: nat,
                            next: nat)
    requires EndsBelow(waiting + news, next) && news != []
    requires m.lastSequenceSeen == next - 1 - |news| && since <= |m.entries + news|
    ensures Appended(m, waiting + news, before + since).entries == (m.entries + news)[since..]
       <==> since <= |m.entries| && (before == 0 || since == |m.entries|)
  {
    UnseenTail(waiting, news, next, m.lastSequenceSeen);
    var rows := Appended(m, waiting + news, before + since).entries;
    if since <= |m.entries| {
      assert (m.entries + news)[since..] == m.entries[since..] + news;
      assert before > 0 && since < |m.entries| ==> |rows| < |m.entries[since..] + news|;
    } else {
      assert |rows| == |news|;
    }
  }

  // ----- The page over whole runs -----

  /** The page after one step of the system, when it was attached from the beginning. */
  function PageNext(s: System, page: ModelState, step: Step): ModelState {
    match step
    case Emit => if s.owner.Emitting? then Appended(page, s.owner.batch, s.owner.evicted) else page
    case EndClear => ModelState([], 0)
    case SignalCleared => ModelState([], 0)
    case _ => page
  }

  ghost function PageAt(steps: seq<Step>, states: seq<System>, n: nat): ModelState
    requires n <= |steps| && |states| == |steps| + 1
  {
    if n == 0 then ModelState([], 0) else PageNext(states[n - 1], PageAt(steps, states, n - 1), steps[n - 1])
  }

  /** How many rows a batch evicts beyond those the page has. */
  function Beyond(evicted: nat, rows: nat): nat {
    if evicted > rows then evicted - rows else 0
  }

  /** The rows that batches evicted beyond those the page had, less those that a late signal wiped, since the
      page was last wiped. */
  ghost function Offset(steps: seq<Step>, states: seq<System>, n: nat): int
    requires n <= |steps| && |states| == |steps| + 1
  {
    if n == 0 || steps[n - 1].EndClear? then 0
    else if steps[n - 1].SignalCleared? then -|ShadowAt(steps, states, n - 1).ideal|
    else if steps[n - 1].Emit? && states[n - 1].owner.Emitting? then
      Offset(steps, states, n - 1) + Beyond(states[n - 1].owner.evicted, |PageAt(steps, states, n - 1).entries|)
    else Offset(steps, states, n - 1)
  }

  /** Both lists end alike, and `rows` is longer by `d`. */
  ghost predicate Aligned(rows: seq<LogEntry>, ideal: seq<LogEntry>, d: int) {
    |rows| == |ideal| + d && (IsSuffix(rows, ideal) || IsSuffix(ideal, rows))
  }

  lemma {:induction false} EndsOfOne(s: seq<LogEntry>, t: seq<LogEntry>, whole: seq<LogEntry>)
    requires IsSuffix(s, whole) && IsSuffix(t, whole)
    ensures Aligned(s, t, |s| - |t|)
  {
  }

  lemma {:induction false} EndOfMore(s: seq<LogEntry>, whole: seq<LogEntry>, batch: seq<LogEntry>, drop: nat)
    requires IsSuffix(s, whole) && drop <= |s + batch|
    ensures IsSuffix((s + batch)[drop..], whole + batch)
  {
    assert s + batch == (whole + batch)[|whole| - |s|..];
  }

  lemma {:induction false} DropFirst(s: seq<LogEntry>, batch: seq<LogEntry>, n: nat)
    requires n <= |s|
    ensures s[n..] + batch == (s + batch)[n..]
  {
  }

  /** What a batch does to the rows of a page and to the mirror it should be. */
  lemma {:induction false} BatchAligns(rows: seq<LogEntry>, ideal: seq<LogEntry>, d: int, batch: seq<LogEntry>,
                                       evicted: nat)
    requires Aligned(rows, ideal, d) && evicted <= |ideal + batch|
    ensures var dropped := if evicted < |rows| then evicted else |rows|;
            Aligned(rows[dropped..] + batch, (ideal + batch)[evicted..], d + Beyond(evicted, |rows|))
  {
    hide IsSuffix, Aligned;
    var dropped := if evicted < |rows| then evicted else |rows|;
    var whole := if |rows| <= |ideal| then ideal else rows;
    LongerHasBoth(rows, ideal, d);
    AlignedLength(rows, ideal, d);
    EndOfMore(rows, whole, batch, dropped);
    EndOfMore(ideal, whole, batch, evicted);
    DropFirst(rows, batch, dropped);
    var longer, shorter := (rows + batch)[dropped..], (ideal + batch)[evicted..];
    assert |longer| - |shorter| == d + Beyond(evicted, |rows|);
    EndsOfOne(longer, shorter, whole + batch);
  }

  lemma {:induction false} AlignedLength(rows: seq<LogEntry>, ideal: seq<LogEntry>, d: int)
    requires Aligned(rows, ideal, d)
    ensures |rows| == |ideal| + d
  {
  }

  lemma {:induction false} LongerHasBoth(rows: seq<LogEntry>, ideal: seq<LogEntry>, d: int)
    requires Aligned(rows, ideal, d)
    ensures var whole := if |rows| <= |ideal| then ideal else rows;
            IsSuffix(rows, whole) && IsSuffix(ideal, whole)
  {
  }

  /** The number of the first entry the page has not been told of. */
  function FirstUntold(s: System): int {
    if s.owner.Emitting? && s.owner.batch != [] then s.owner.batch[0].sequence
    else s.log.nextSequence - |s.log.pending|
  }

  /** What the page has not been told of is numbered on from what it has. */
  ghost predicate NumbersOk(s: System, page: ModelState) {
    && page.lastSequenceSeen < FirstUntold(s)
    && EndsBelow(s.log.pending, s.log.nextSequence)
    && (s.owner.Emitting? ==>
          && s.owner.batch != []
          && EndsBelow(s.owner.batch, s.owner.batch[|s.owner.batch| - 1].sequence + 1)
          && s.owner.batch[|s.owner.batch| - 1].sequence < s.log.nextSequence - |s.log.pending|)
  }

  /** With no signal to come, the page and the mirror it should be differ by the offset. */
  ghost predicate PageOk(s: System, h: Shadow, page: ModelState, offset: int) {
    Owed(s) == 0 && !s.owner.Clearing? ==> Aligned(page.entries, h.ideal, offset)
  }

  lemma {:induction false} EmitUnseen(s: System, page: ModelState)
    requires NumbersOk(s, page) && s.owner.Emitting?
    ensures Appended(page, s.owner.batch, s.owner.evicted).lastSequenceSeen
         == s.owner.batch[|s.owner.batch| - 1].sequence
    ensures var dropped := if s.owner.evicted < |page.entries| then s.owner.evicted else |page.entries|;
            Appended(page, s.owner.batch, s.owner.evicted).entries == page.entries[dropped..] + s.owner.batch
  {
    hide Unseen, SeenAfter, EndsBelow;
    WindowIsUnseen(s.owner.batch, s.owner.batch[|s.owner.batch| - 1].sequence + 1, page.lastSequenceSeen);
  }

  lemma {:induction false} NumbersNext(s: System, page: ModelState, step: Step)
    requires NumbersOk(s, page) && IsWindow(s.log) && Enabled(s, step)
    ensures NumbersOk(Next(s, step), PageNext(s, page, step))
  {
    hide Appended;
    if step.Write? {
      WrittenIsWindow(s.log, step.severity, step.category, step.message, true);
    } else if step.Emit? {
      EmitUnseen(s, page);
    }
  }

  lemma {:induction false} PageStep(s: System, h: Shadow, page: ModelState, offset: int, step: Step)
    requires Inv(s, h) && NumbersOk(s, page) && PageOk(s, h, page, offset) && Enabled(s, step)
    ensures PageOk(Next(s, step), ShadowNext(s, h, step), PageNext(s, page, step),
                   if step.EndClear? then 0
                   else if step.SignalCleared? then -|h.ideal|
                   else if step.Emit? then offset + Beyond(s.owner.evicted, |page.entries|)
                   else offset)
  {
    hide NumbersOk, LogOk, MirrorOk, Appended, Written, Schedules, Taken, Cleared;
    if step.Emit? {
      hide Aligned;
      if Owed(s) == 0 {
        EmitUnseen(s, page);
        BatchAligns(page.entries, h.ideal, offset, s.owner.batch, s.owner.evicted);
      }
    }
  }

  lemma {:induction false} PageNextOk(maxEntries: nat, steps: seq<Step>, states: seq<System>, n: nat)
    requires RunsFrom(maxEntries, steps, states) && n < |steps|
    requires NumbersOk(states[n], PageAt(steps, states, n))
    requires PageOk(states[n], ShadowAt(steps, states, n), PageAt(steps, states, n), Offset(steps, states, n))
    ensures NumbersOk(states[n + 1], PageAt(steps, states, n + 1))
    ensures PageOk(states[n + 1], ShadowAt(steps, states, n + 1), PageAt(steps, states, n + 1),
                   Offset(steps, states, n + 1))
  {
    hide PageOk, NumbersOk, Inv, Next, Appended, PageNext, ShadowNext;
    RunKeepsInv(maxEntries, steps, states, n);
    InvGives(states[n], ShadowAt(steps, states, n));
    NumbersNext(states[n], PageAt(steps, states, n), steps[n]);
    PageStep(states[n], ShadowAt(steps, states, n), PageAt(steps, states, n), Offset(steps, states, n), steps[n]);
  }

  lemma {:induction false} InvGives(s: System, h: Shadow)
    requires Inv(s, h)
    ensures IsWindow(s.log)
  {
  }

  lemma {:induction false} PageAlwaysOk(maxEntries: nat, steps: seq<Step>, states: seq<System>, n: nat)
    requires RunsFrom(maxEntries, steps, states) && n <= |steps|
    ensures NumbersOk(states[n], PageAt(steps, states, n))
    ensures PageOk(states[n], ShadowAt(steps, states, n), PageAt(steps, states, n), Offset(steps, states, n))
  {
    hide PageOk, NumbersOk;
    if n == 0 {
      EmptyPage(maxEntries);
    } else {
      PageAlwaysOk(maxEntries, steps, states, n - 1);
      PageNextOk(maxEntries, steps, states, n - 1);
    }
  }

  lemma {:induction false} EmptyPage(maxEntries: nat)
    ensures NumbersOk(Initial(maxEntries), ModelState([], 0))
    ensures PageOk(Initial(maxEntries), Shadow([], false, false), ModelState([], 0), 0)
  {
    hide EndsBelow;
    NothingEndsBelow(1);
  }

  lemma {:induction false} NothingEndsBelow(next: nat)
    requires next > 0
    ensures EndsBelow([], next)
  {
  }

  /** Over whole runs, wherever clears are made: once nothing waits and every signal has come, the page and the
      history end alike and the page is longer by exactly the offset. */
  lemma {:induction false} PageIsHistoryAndOffset(maxEntries: nat, steps: seq<Step>, states: seq<System>, n: nat)
    requires RunsFrom(maxEntries, steps, states) && n <= |steps|
    requires states[n].owner.Ready? && states[n].log.pending == [] && Owed(states[n]) == 0
    ensures Aligned(PageAt(steps, states, n).entries, states[n].log.history, Offset(steps, states, n))
    ensures PageAt(steps, states, n).entries == states[n].log.history <==> Offset(steps, states, n) == 0
  {
    hide PageAt, Offset, NumbersOk;
    PageAlwaysOk(maxEntries, steps, states, n);
    RunKeepsInv(maxEntries, steps, states, n);
    var h := ShadowAt(steps, states, n);
    assert h.ideal + [] == h.ideal;
  }

  // ----- The page, when all clears are made on the log's own thread -----

  /** A batch that evicts anything leaves the history full. */
  ghost predicate FullOk(s: System, h: Shadow) {
    && (s.log.pendingEvicted > 0 ==> |s.log.history| == s.log.maxEntries)
    && (s.owner.Emitting? && !h.stale ==>
          var left := |h.ideal| + |s.owner.batch| - s.owner.evicted;
          left <= s.log.maxEntries && (s.owner.evicted > 0 ==> left == s.log.maxEntries))
  }

  lemma {:induction false} FullNext(s: System, h: Shadow, step: Step)
    requires Inv(s, h) && FullOk(s, h) && Enabled(s, step)
    ensures FullOk(Next(s, step), ShadowNext(s, h, step))
  {
    hide MirrorOk, Follow, EndsBelow;
  }

  lemma {:induction false} AlwaysFullOk(maxEntries: nat, steps: seq<Step>, states: seq<System>, n: nat)
    requires RunsFrom(maxEntries, steps, states) && n <= |steps|
    ensures FullOk(states[n], ShadowAt(steps, states, n))
  {
    hide Inv, Next, ShadowNext;
    if n > 0 {
      RunKeepsInv(maxEntries, steps, states, n - 1);
      AlwaysFullOk(maxEntries, steps, states, n - 1);
      FullNext(states[n - 1], ShadowAt(steps, states, n - 1), steps[n - 1]);
    }
  }

  /** Step `e` delivers more entries than the history can hold, and no clear has come since. */
  ghost predicate Oversized(steps: seq<Step>, states: seq<System>, e: nat, n: nat)
    requires n <= |steps| && |states| == |steps| + 1
  {
    && e < n && steps[e].Emit? && states[e].owner.Emitting? && |states[e].owner.batch| > states[e].log.maxEntries
    && forall j :: e < j < n ==> !steps[j].EndClear?
  }

  lemma {:induction false} OversizedNext(steps: seq<Step>, states: seq<System>, e: nat, n: nat)
    requires n < |steps| && |states| == |steps| + 1
    ensures Oversized(steps, states, e, n + 1) <==>
              || (&& e == n && steps[n].Emit? && states[n].owner.Emitting?
                  && |states[n].owner.batch| > states[n].log.maxEntries)
              || (!steps[n].EndClear? && Oversized(steps, states, e, n))
  {
    if e < n && Oversized(steps, states, e, n + 1) {
      assert !steps[n].EndClear?;
    }
  }

  /** The offset, in terms of the batches. */
  ghost predicate OffsetSays(steps: seq<Step>, states: seq<System>, n: nat)
    requires n <= |steps| && |states| == |steps| + 1
  {
    Offset(steps, states, n) >= 0 && (Offset(steps, states, n) > 0 <==> exists e: nat :: Oversized(steps, states, e, n))
  }

  lemma {:induction false} OffsetNext(maxEntries: nat, steps: seq<Step>, states: seq<System>, n: nat)
    requires RunsFrom(maxEntries, steps, states) && n < |steps| && OwnClearsOnly(steps)
    ensures steps[n].Emit? && Offset(steps, states, n) == 0 ==>
              (Offset(steps, states, n + 1) > 0 <==> |states[n].owner.batch| > states[n].log.maxEntries)
    ensures Offset(steps, states, n + 1) >= if steps[n].EndClear? then 0 else Offset(steps, states, n)
    ensures !steps[n].Emit? && !steps[n].EndClear? ==> Offset(steps, states, n + 1) == Offset(steps, states, n)
    ensures steps[n].EndClear? ==> Offset(steps, states, n + 1) == 0
  {
    hide PageAt, Inv, Next, NumbersOk, Follow, IsSuffix;
    PageAlwaysOk(maxEntries, steps, states, n);
    RunKeepsInv(maxEntries, steps, states, n);
    NothingOwed(maxEntries, steps, states, n);
    AlwaysFullOk(maxEntries, steps, states, n);
    assert Enabled(states[n], steps[n]);
  }

  lemma {:induction false} OffsetSaysNext(maxEntries: nat, steps: seq<Step>, states: seq<System>, n: nat)
    requires RunsFrom(maxEntries, steps, states) && n < |steps| && OwnClearsOnly(steps)
    requires OffsetSays(steps, states, n)
    ensures OffsetSays(steps, states, n + 1)
  {
    hide Offset, Oversized, Next;
    var next := n + 1;
    OffsetNext(maxEntries, steps, states, n);
    assert Enabled(states[n], steps[n]);
    OversizedNext(steps, states, n, n);
    if e: nat :| Oversized(steps, states, e, n) {
      OversizedNext(steps, states, e, n);
    }
    if e: nat :| Oversized(steps, states, e, next) {
      OversizedNext(steps, states, e, n);
    }
  }

  lemma {:induction false} OffsetAlwaysSays(maxEntries: nat, steps: seq<Step>, states: seq<System>, n: nat)
    requires RunsFrom(maxEntries, steps, states) && n <= |steps| && OwnClearsOnly(steps)
    ensures OffsetSays(steps, states, n)
  {
    if n > 0 {
      hide OffsetSays;
      OffsetAlwaysSays(maxEntries, steps, states, n - 1);
      OffsetSaysNext(maxEntries, steps, states, n - 1);
    }
  }

  /** With clears on the log's own thread, when nothing waits, the page is the history exactly when no batch
      delivered since the last clear has more entries than the history can hold. */
  lemma {:induction false} PageIsHistoryIff(maxEntries: nat, steps: seq<Step>, states: seq<System>, n: nat)
    requires RunsFrom(maxEntries, steps, states) && n <= |steps| && OwnClearsOnly(steps)
    requires states[n].owner.Ready? && states[n].log.pending == []
    ensures PageAt(steps, states, n).entries == states[n].log.history <==>
              !exists e: nat :: Oversized(steps, states, e, n)
    ensures IsSuffix(states[n].log.history, PageAt(steps, states, n).entries)
  {
    hide PageAt, Offset, Oversized;
    NothingOwed(maxEntries, steps, states, n);
    PageIsHistoryAndOffset(maxEntries, steps, states, n);
    OffsetAlwaysSays(maxEntries, steps, states, n);
  }

  // ----- A burst outgrows any history -----

  /** `n` writes before anything is delivered. */
  lemma {:induction false} Burst(maxEntries: nat, n: nat) returns (steps: seq<Step>, states: seq<System>)
    requires maxEntries >= 1
    ensures RunsFrom(maxEntries, steps, states) && |steps| == n && forall k :: 0 <= k < n ==> steps[k].Write?
    ensures var s := states[n];
            && s.owner.Ready? && s.mirror == [] && |s.log.pending| == n && s.log.minSeverity == Some(Debug)
            && s.log.deliveryEnabled && s.log.maxEntries == maxEntries
            && |s.log.history| == n - Overflow(n, maxEntries) && s.log.pendingEvicted == Overflow(n, maxEntries)
            && (n > 0 ==> s.log.deliveryScheduled && s.aboutToPost == 1)
            && (n == 0 ==> !s.log.deliveryScheduled && s.aboutToPost == 0)
  {
    if n == 0 {
      steps, states := [], [Initial(maxEntries)];
    } else {
      steps, states := Burst(maxEntries, n - 1);
      var write := Write(Info, "", "");
      steps, states := RunSnoc(maxEntries, steps, states, write);
    }
  }

  /** For any history, one more write than it holds before the first delivery leaves the page with all of
      them. */
  lemma {:induction false} BurstOutgrowsHistory(maxEntries: nat) returns (steps: seq<Step>, states: seq<System>)
    requires maxEntries >= 1
    ensures RunsFrom(maxEntries, steps, states) && OwnClearsOnly(steps)
    ensures states[|steps|].owner.Ready? && states[|steps|].log.pending == []
    ensures |states[|steps|].log.history| == maxEntries
    ensures |PageAt(steps, states, |steps|).entries| == maxEntries + 1
  {
    hide PageAt, Mirrors, Next, Enabled, IsSuffix;
    steps, states := Burst(maxEntries, maxEntries + 1);
    var burst := states[|steps|];
    BurstDelivers(burst, maxEntries);
    steps, states := RunSnoc(maxEntries, steps, states, Post);
    steps, states := RunSnoc(maxEntries, steps, states, Take);
    steps, states := RunSnoc(maxEntries, steps, states, Emit);
    var n := |steps| - 1;
    assert steps[n] == Emit && states[n] == Next(Next(burst, Post), Take);
    NoPageYet(steps, states, n);
    assert Offset(steps, states, |steps|) == Beyond(1, 0);
    NothingOwed(maxEntries, steps, states, |steps|);
    PageIsHistoryAndOffset(maxEntries, steps, states, |steps|);
  }

  lemma {:induction false} BurstDelivers(s: System, maxEntries: nat)
    requires s.owner.Ready? && s.aboutToPost == 1 && |s.log.pending| == maxEntries + 1
    requires s.log.pendingEvicted == Overflow(maxEntries + 1, maxEntries)
    ensures Enabled(s, Post) && Enabled(Next(s, Post), Take) && Enabled(Next(Next(s, Post), Take), Emit)
    ensures var taken := Next(Next(s, Post), Take);
            && taken.owner.Emitting? && taken.owner.evicted == 1
            && Next(taken, Emit).owner.Ready? && Next(taken, Emit).log.pending == []
            && Next(taken, Emit).log.history == s.log.history
  {
    hide Follow;
  }

  lemma {:induction false} NoPageYet(steps: seq<Step>, states: seq<System>, n: nat)
    requires n <= |steps| && |states| == |steps| + 1
    requires forall k :: 0 <= k < n ==> steps[k].Write? || steps[k].Post? || steps[k].Take?
    ensures PageAt(steps, states, n) == ModelState([], 0) && Offset(steps, states, n) == 0
  {
    if n > 0 {
      NoPageYet(steps, states, n - 1);
      assert steps[n - 1].Write? || steps[n - 1].Post? || steps[n - 1].Take?;
    }
  }
}

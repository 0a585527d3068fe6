/**
 The two standing notices of a recording, a stalled capture and a lost audio source, as the application
 shows them (app/quick/ExoSnap/Quick/QuickApplication.cpp): it feeds every diagnostics snapshot to both
 monitors, answers the stall monitor at once, and takes both notices down itself when a recording starts
 or is left.
 */
module RecordingNotices {
  import opened Wrappers
  import opened EngineTypes
  import opened WindowTargetFacts
  import opened NoticeBoard
  import Audio = AudioSourceDegradation
  import Stall = WindowCaptureStall

  /** The states of the recording page, as far as the notices tell them apart. */
  datatype UiState = InRecording | InPause | Elsewhere

  datatype CaptureSource = UnknownSource | DisplaySource | WindowSource | RegionSource

  datatype Snapshot = Snapshot(
    generation: nat, valid: bool, lifecycle: DiagnosticsLifecycle, elapsedS: real,
    source: CaptureSource, frames: nat, sourceDegraded: bool, degradedSources: nat, degradedSourceKinds: nat)

  /** What is looked up when a capture has starved. */
  datatype Witness = Witness(facts: TargetFacts, presentFse: bool, displayOff: bool, displayMissing: bool)

  datatype Event = StateChanged(state: UiState) | Diagnosed(snapshot: Snapshot, seen: Witness)

  /** The stall notice is up or it is not. */
  datatype StallWarning = StallWarning

  datatype NoticesState = NoticesState(
    ui: UiState, stall: Stall.MonitorState, stallShown: Option<StallWarning>,
    audio: Audio.MonitorState, audioShown: Option<Audio.Levels>)

  const INITIAL := NoticesState(Elsewhere, Stall.CLEAN, None, Audio.CLEAN, None)

  function AudioSampleOf(s: Snapshot): Audio.AudioSample {
    Audio.AudioSample(s.generation, s.valid, s.lifecycle, s.sourceDegraded, s.degradedSources, s.degradedSourceKinds)
  }

  function StallSampleOf(s: Snapshot): Stall.StallSample {
    Stall.StallSample(
      s.generation, s.source.WindowSource?, s.source.DisplaySource? || s.source.RegionSource?,
      Stall.CaptureProgressExpected(s.lifecycle), s.frames, s.elapsedS)
  }

  /** The application's answer to a starved capture. */
  function Answer(s: Snapshot, w: Witness): Stall.StallVerdict {
    if s.source.WindowSource? then ClassifyConfirmedStall(w.facts, w.presentFse)
    else ClassifyConfirmedDisplayStall(w.displayOff, w.displayMissing)
  }

  // ----- One event, as functions of the whole state -----

  /** A fresh start; a resume is not one. */
  predicate Starts(st: NoticesState, to: UiState) {
    to.InRecording? && !st.ui.InPause?
  }

  function StallSeen(st: NoticesState, s: Snapshot, w: Witness): NoticesState {
    var (m, signal) := Stall.Observed(st.stall, StallSampleOf(s));
    match signal
    case NoSignal => st.(stall := m)
    case Recovered => st.(stall := m, stallShown := None)
    case Starved =>
      st.(stall := Stall.Answered(m, Answer(s, w)),
          stallShown := if Answer(s, w).Stalled? then Some(StallWarning) else st.stallShown)
  }

  function AudioSeen(st: NoticesState, s: Snapshot): NoticesState {
    var (m, signal) := Audio.Observed(st.audio, AudioSampleOf(s));
    match signal
    case NoSignal => st.(audio := m)
    case Clear => st.(audio := m, audioShown := None)
    case Raise => st.(audio := m, audioShown := Some(m.latch))
  }

  function Next(st: NoticesState, e: Event): NoticesState {
    match e
    case StateChanged(to) =>
      if Starts(st, to) then NoticesState(to, Stall.CLEAN, None, Audio.Emptied(st.audio), None)
      else if to.Elsewhere? then st.(ui := to, stallShown := None, audioShown := None)
      else st.(ui := to)
    case Diagnosed(s, w) => AudioSeen(StallSeen(st, s, w), s)
  }

  class RecordingNotices {
    var ui: UiState
    const stall: Stall.WindowCaptureStallMonitor
    var stallShown: Option<StallWarning>
    const audio: Audio.AudioSourceDegradationMonitor
    var audioShown: Option<Audio.Levels>

    constructor ()
      ensures fresh(stall) && fresh(audio) && State() == INITIAL
    {
      ui, stallShown, audioShown := Elsewhere, None, None;
      stall := new Stall.WindowCaptureStallMonitor();
      audio := new Audio.AudioSourceDegradationMonitor();
    }

    ghost function State(): NoticesState
      reads this, stall, audio
    {
      NoticesState(ui, stall.State(), stallShown, audio.State(), audioShown)
    }

    method OnStateChanged(state: UiState)
      modifies this, stall, audio
      ensures State() == Next(old(State()), StateChanged(state))
    {
      var previous := ui;
      ui := state;
      if state.InRecording? && !previous.InPause? {
        stall.Reset();
        stallShown := None;
        audio.Reset();
        audioShown := None;
      }
      if !state.InRecording? && !state.InPause? {
        stallShown, audioShown := None, None;
      }
    }

    method ObserveStall(s: Snapshot, w: Witness)
      modifies this, stall
      ensures State() == StallSeen(old(State()), s, w)
    {
      var signal := stall.Observe(StallSampleOf(s));
      match signal {
        case NoSignal => return;
        case Recovered =>
          stallShown := None;
          return;
        case Starved =>
      }
      var verdict := Answer(s, w);
      stall.ApplyVerdict(verdict);
      if verdict.Stalled? {
        stallShown := Some(StallWarning);
      }
    }

    method ObserveAudio(s: Snapshot)
      modifies this, audio
      ensures State() == AudioSeen(old(State()), s)
    {
      var signal := audio.Observe(AudioSampleOf(s));
      match signal {
        case NoSignal => return;
        case Clear =>
          audioShown := None;
          return;
        case Raise =>
      }
      audioShown := Some(Audio.Levels(audio.degradedSources, audio.degradedSourceKinds));
    }

    method OnDiagnostics(s: Snapshot, w: Witness)
      modifies this, stall, audio
      ensures State() == Next(old(State()), Diagnosed(s, w))
    {
      ObserveStall(s, w);
      ObserveAudio(s);
    }
  }

  // ----- Runs -----

  function Run(events: seq<Event>): NoticesState {
    if events == [] then INITIAL else Next(Run(events[..|events| - 1]), events[|events| - 1])
  }

  lemma {:induction false} RunNext(events: seq<Event>, k: nat)
    requires k < |events|
    ensures Run(events[..k + 1]) == Next(Run(events[..k]), events[k])
  {
    assert events[..k + 1][..k] == events[..k];
  }

  /** Both monitors always hold a sane latch and the stall monitor has no question open: the application
      answers each before the next event. */
  ghost predicate Sane(st: NoticesState) {
    && !st.stall.phase.AwaitingVerdict?
    && (!st.stall.haveBaseline ==> st.stall.phase.Healthy?)
    && (st.audio.latch.sources == 0 ==> st.audio.latch == Audio.HEALTHY)
    && (!st.audio.haveGeneration ==> st.audio.latch == Audio.HEALTHY && st.audio.generation == 0)
  }

  lemma {:induction false} SaneNext(st: NoticesState, e: Event)
    requires Sane(st)
    ensures Sane(Next(st, e))
  {
  }

  lemma {:induction false} RunIsSane(events: seq<Event>)
    ensures Sane(Run(events))
  {
    if events != [] {
      RunIsSane(events[..|events| - 1]);
      SaneNext(Run(events[..|events| - 1]), events[|events| - 1]);
    }
  }

  // ----- What each event is for each notice -----

  function AudioMove(st: NoticesState, e: Event): Move<Audio.Levels> {
    match e
    case StateChanged(to) => if Starts(st, to) then TakeDown else if to.Elsewhere? then Hide else Nothing
    case Diagnosed(s, _) =>
      var (m, signal) := Audio.Observed(st.audio, AudioSampleOf(s));
      match signal
      case Raise => Put(m.latch)
      case Clear => TakeDown
      case NoSignal => if m.latch != st.audio.latch then Lose else Nothing
  }

  function StallMove(st: NoticesState, e: Event): Move<StallWarning> {
    match e
    case StateChanged(to) => if Starts(st, to) then TakeDown else if to.Elsewhere? then Hide else Nothing
    case Diagnosed(s, w) =>
      var (m, signal) := Stall.Observed(st.stall, StallSampleOf(s));
      match signal
      case Starved => if Answer(s, w).Stalled? then Put(StallWarning) else Nothing
      case Recovered => TakeDown
      case NoSignal => if st.stall.phase.Reported? && !m.phase.Reported? then Lose else Nothing
  }

  function AudioMoves(events: seq<Event>): (moves: seq<Move<Audio.Levels>>)
    ensures |moves| == |events|
  {
    seq(|events|, k requires 0 <= k < |events| => AudioMove(Run(events[..k]), events[k]))
  }

  function StallMoves(events: seq<Event>): (moves: seq<Move<StallWarning>>)
    ensures |moves| == |events|
  {
    seq(|events|, k requires 0 <= k < |events| => StallMove(Run(events[..k]), events[k]))
  }

  /** The latch of each monitor and the notice for it. */
  function AudioBoard(st: NoticesState): Board<Audio.Levels> {
    Board(if st.audio.latch == Audio.HEALTHY then None else Some(st.audio.latch), st.audioShown)
  }

  function StallBoard(st: NoticesState): Board<StallWarning> {
    Board(if st.stall.phase.Reported? then Some(StallWarning) else None, st.stallShown)
  }

  lemma {:induction false} BoardsMove(st: NoticesState, e: Event)
    requires Sane(st)
    ensures AudioBoard(Next(st, e)) == Moved(AudioBoard(st), AudioMove(st, e))
    ensures StallBoard(Next(st, e)) == Moved(StallBoard(st), StallMove(st, e))
  {
  }

  lemma {:induction false} RunBoards(events: seq<Event>)
    ensures AudioBoard(Run(events)) == After(AudioMoves(events))
    ensures StallBoard(Run(events)) == After(StallMoves(events))
  {
    hide AudioMove, StallMove, Next, AudioBoard, StallBoard;
    if events == [] {
      InitialBoards();
    } else {
      var earlier := events[..|events| - 1];
      RunBoards(earlier);
      RunIsSane(earlier);
      BoardsMove(Run(earlier), events[|events| - 1]);
      MovesInit(events);
    }
  }

  lemma {:induction false} InitialBoards()
    ensures AudioBoard(Run([])) == Board(None, None) && StallBoard(Run([])) == Board(None, None)
  {
  }

  lemma {:induction false} MovesInit(events: seq<Event>)
    requires events != []
    ensures var n := |events| - 1;
            && AudioMoves(events)[..n] == AudioMoves(events[..n]) && StallMoves(events)[..n] == StallMoves(events[..n])
            && AudioMoves(events)[n] == AudioMove(Run(events[..n]), events[n])
            && StallMoves(events)[n] == StallMove(Run(events[..n]), events[n])
  {
    hide AudioMove, StallMove, Run;
    var n := |events| - 1;
    forall k | 0 <= k < n
      ensures AudioMoves(events)[k] == AudioMoves(events[..n])[k] && StallMoves(events)[k] == StallMoves(events[..n])[k]
    {
      assert events[..n][..k] == events[..k];
    }
  }

  // ----- The monitors' own traces -----

  /** What one event amounts to for each monitor. */
  function AudioEvents(st: NoticesState, e: Event): seq<Audio.Event> {
    match e
    case StateChanged(to) => if Starts(st, to) then [Audio.Event.Reset] else []
    case Diagnosed(s, _) => [Audio.Event.Sample(AudioSampleOf(s))]
  }

  function StallEvents(st: NoticesState, e: Event): seq<Stall.Event> {
    match e
    case StateChanged(to) => if Starts(st, to) then [Stall.Event.Reset] else []
    case Diagnosed(s, w) =>
      [Stall.Event.Sample(StallSampleOf(s))]
      + if Stall.Observed(st.stall, StallSampleOf(s)).1.Starved? then [Stall.Event.Verdict(Answer(s, w))] else []
  }

  function AudioTrace(events: seq<Event>): seq<Audio.Event> {
    if events == [] then []
    else AudioTrace(events[..|events| - 1]) + AudioEvents(Run(events[..|events| - 1]), events[|events| - 1])
  }

  function StallTrace(events: seq<Event>): seq<Stall.Event> {
    if events == [] then []
    else StallTrace(events[..|events| - 1]) + StallEvents(Run(events[..|events| - 1]), events[|events| - 1])
  }

  lemma {:induction false} AudioSnoc(trace: seq<Audio.Event>, e: Audio.Event)
    ensures Audio.After(trace + [e])
         == match e
            case Sample(s) => Audio.Observed(Audio.After(trace), s).0
            case Reset => Audio.Emptied(Audio.After(trace))
  {
    assert (trace + [e])[..|trace|] == trace;
  }

  lemma {:induction false} StallSnoc(trace: seq<Stall.Event>, e: Stall.Event)
    ensures Stall.After(trace + [e])
         == match e
            case Sample(s) => Stall.Observed(Stall.After(trace), s).0
            case Verdict(v) => Stall.Answered(Stall.After(trace), v)
            case Reset => Stall.CLEAN
  {
    assert (trace + [e])[..|trace|] == trace;
  }

  /** In every run each monitor is where its own trace leaves it, so what is proved of their traces holds. */
  lemma {:induction false} MonitorsFollowTheirTraces(events: seq<Event>)
    ensures Run(events).audio == Audio.After(AudioTrace(events))
    ensures Run(events).stall == Stall.After(StallTrace(events))
  {
    hide Audio.Observed, Stall.Observed, Audio.After, Stall.After, Audio.Emptied, Stall.Answered, Answer;
    hide AudioSampleOf, StallSampleOf, Next;
    if events == [] {
      EmptyTraces();
    } else {
      var earlier, e := events[..|events| - 1], events[|events| - 1];
      var st, audio, stall := Run(earlier), AudioTrace(earlier), StallTrace(earlier);
      MonitorsFollowTheirTraces(earlier);
      assert audio + [] == audio && stall + [] == stall;
      NextMonitors(st, e);
      match e {
        case StateChanged(to) =>
          AudioSnoc(audio, Audio.Event.Reset);
          StallSnoc(stall, Stall.Event.Reset);
        case Diagnosed(s, w) =>
          var sample, verdict := Stall.Event.Sample(StallSampleOf(s)), Stall.Event.Verdict(Answer(s, w));
          AudioSnoc(audio, Audio.Event.Sample(AudioSampleOf(s)));
          StallSnoc(stall, sample);
          StallSnoc(stall + [sample], verdict);
          assert StallEvents(st, e) == [sample] || StallEvents(st, e) == [sample, verdict];
          assert stall + [sample, verdict] == (stall + [sample]) + [verdict];
      }
    }
  }

  lemma {:induction false} NextMonitors(st: NoticesState, e: Event)
    ensures Next(st, e).audio
         == match e
            case StateChanged(to) => if Starts(st, to) then Audio.Emptied(st.audio) else st.audio
            case Diagnosed(s, _) => Audio.Observed(st.audio, AudioSampleOf(s)).0
    ensures Next(st, e).stall
         == match e
            case StateChanged(to) => if Starts(st, to) then Stall.CLEAN else st.stall
            case Diagnosed(s, w) =>
              var (m, signal) := Stall.Observed(st.stall, StallSampleOf(s));
              if signal.Starved? then Stall.Answered(m, Answer(s, w)) else m
    ensures Next(st, e).ui == if e.StateChanged? then e.state else st.ui
  {
    hide Audio.Observed, Stall.Observed, Audio.Emptied, Stall.Answered, Answer, AudioSampleOf, StallSampleOf;
  }

  lemma {:induction false} EmptyTraces()
    ensures Audio.After([]) == Audio.CLEAN && Stall.After([]) == Stall.CLEAN
  {
  }

  // ----- When the notices show what the monitors hold -----

  /** What the moves of the boards are, in the application's terms. */
  lemma {:induction false} WhatMovesMean(st: NoticesState, e: Event)
    requires Sane(st)
    ensures AudioMove(st, e).Lose? <==>
              && e.Diagnosed? && st.audio.haveGeneration && e.snapshot.generation > st.audio.generation
              && !Degraded(e.snapshot) && st.audio.latch != Audio.HEALTHY
    ensures StallMove(st, e).Lose? <==>
              e.Diagnosed? && st.stall.phase.Reported? && e.snapshot.generation != st.stall.generation
    ensures AudioMove(st, e).Put? <==>
              && e.Diagnosed? && !(st.audio.haveGeneration && e.snapshot.generation < st.audio.generation)
              && Degraded(e.snapshot)
              && (LevelsIn(e.snapshot) != st.audio.latch
                  || (st.audio.haveGeneration && e.snapshot.generation > st.audio.generation))
    ensures AudioMove(st, e).Put? ==> AudioMove(st, e).value == LevelsIn(e.snapshot)
    ensures AudioMove(st, e).TakeDown? <==>
              || (e.StateChanged? && e.state.InRecording? && !st.ui.InPause?)
              || (&& e.Diagnosed? && st.audio.haveGeneration && e.snapshot.generation == st.audio.generation
                  && !Degraded(e.snapshot) && st.audio.latch != Audio.HEALTHY)
    ensures StallMove(st, e).Put? <==>
              && e.Diagnosed? && StandsStill(st.stall, e.snapshot) && st.stall.phase.Healthy?
              && e.snapshot.elapsedS - st.stall.baselineElapsedS >= 10.0
              && if e.snapshot.source.WindowSource? then LooksFullscreen(e.seen.facts)
                 else e.seen.displayOff || e.seen.displayMissing
    ensures StallMove(st, e).TakeDown? <==>
              || (e.StateChanged? && e.state.InRecording? && !st.ui.InPause?)
              || (&& e.Diagnosed? && OfTheBaseline(st.stall, e.snapshot) && st.stall.phase.Reported?
                  && !StandsStill(st.stall, e.snapshot))
    ensures AudioMove(st, e).Hide? <==> e.StateChanged? && e.state.Elsewhere?
    ensures StallMove(st, e).Hide? <==> e.StateChanged? && e.state.Elsewhere?
  {
    if e.Diagnosed? {
      StalledIff(e.seen.facts, e.seen.presentFse);
      LevelsAreReported(e.snapshot);
    }
    hide LooksFullscreen, ClassifyConfirmedStall;
  }

  predicate IsUnderWay(s: Snapshot) {
    s.lifecycle in {DiagnosticsLifecycle.Recording, Paused}
  }

  /** The snapshot is of the session the stall monitor measures, recording and not paused, of a source it
      knows. */
  predicate OfTheBaseline(m: Stall.MonitorState, s: Snapshot) {
    && m.haveBaseline && s.generation == m.generation && s.lifecycle == DiagnosticsLifecycle.Recording
    && s.source != UnknownSource
  }

  /** And nothing has moved since the baseline. */
  predicate StandsStill(m: Stall.MonitorState, s: Snapshot) {
    OfTheBaseline(m, s) && s.frames == m.baselineFrames && s.elapsedS >= m.baselineElapsedS
  }

  /** The snapshot reports a source that has lost its device. */
  predicate Degraded(s: Snapshot) {
    s.valid && IsUnderWay(s) && s.sourceDegraded && s.degradedSources > 0
  }

  /** What it reports: how many sources, and of which kinds. */
  function LevelsIn(s: Snapshot): Audio.Levels {
    if Degraded(s) then Audio.Levels(sources := s.degradedSources, kinds := s.degradedSourceKinds) else Audio.HEALTHY
  }

  lemma {:induction false} LevelsAreReported(s: Snapshot)
    ensures Audio.LevelsOf(AudioSampleOf(s)) == LevelsIn(s)
  {
  }

  /** Each notice shows what its monitor holds exactly unless, since the last thing put up, the monitor was
      handed another recording or the page was left, but not both. */
  lemma {:induction false} NoticesAreExactIff(events: seq<Event>)
    ensures AudioBoard(Run(events)).shown == AudioBoard(Run(events)).latch <==>
              forall p: nat :: Standing(AudioMoves(events), p) ==>
                (LostAfter(AudioMoves(events), p) <==> HiddenAfter(AudioMoves(events), p))
    ensures StallBoard(Run(events)).shown == StallBoard(Run(events)).latch <==>
              forall p: nat :: Standing(StallMoves(events), p) ==>
                (LostAfter(StallMoves(events), p) <==> HiddenAfter(StallMoves(events), p))
  {
    RunBoards(events);
    ShownIsLatchIff(AudioMoves(events));
    ShownIsLatchIff(StallMoves(events));
  }

  // ----- No notice outlives its recording -----

  /** The page's state before event `k`: the last one it changed to. */
  function UiAt(events: seq<Event>, k: nat): UiState
    requires k <= |events|
  {
    if k == 0 then Elsewhere
    else if events[k - 1].StateChanged? then events[k - 1].state
    else UiAt(events, k - 1)
  }

  lemma {:induction false} UiIs(events: seq<Event>, k: nat)
    requires k <= |events|
    ensures Run(events[..k]).ui == UiAt(events, k)
  {
    hide Next;
    if k > 0 {
      UiIs(events, k - 1);
      RunNext(events, k - 1);
      NextMonitors(Run(events[..k - 1]), events[k - 1]);
    }
  }

  /** At `k` the page changes to recording, and not from a pause. */
  predicate FreshStart(events: seq<Event>, k: nat)
    requires k < |events|
  {
    events[k].StateChanged? && events[k].state.InRecording? && !UiAt(events, k).InPause?
  }

  /** The state change at `k` takes the notices down. */
  predicate Ends(events: seq<Event>, k: nat)
    requires k < |events|
  {
    (events[k].StateChanged? && events[k].state.Elsewhere?) || FreshStart(events, k)
  }

  /** Snapshot `k` is of another session than the snapshot before it, which is `j`. */
  ghost predicate Changes(events: seq<Event>, j: nat, k: nat)
    requires k < |events|
  {
    && j < k && events[j].Diagnosed? && events[k].Diagnosed?
    && events[j].snapshot.generation != events[k].snapshot.generation
    && forall i :: j < i < k ==> !events[i].Diagnosed?
  }

  /** The recording page was left or a recording was started before event `k`, and no live snapshot has come
      since. */
  ghost predicate Settled(events: seq<Event>, k: nat)
    requires k < |events|
  {
    exists l :: 0 <= l < k && Ends(events, l)
                && forall j :: l < j < k && events[j].Diagnosed? ==> !IsUnderWay(events[j].snapshot)
  }

  /** The application's protocol: between the live snapshots of one session and the first snapshot of the
      next, the recording page is left. */
  ghost predicate Orderly(events: seq<Event>) {
    forall j: nat, k: nat :: k < |events| && Changes(events, j, k) ==> Settled(events, k)
  }

  /** Snapshot `p` is live, nothing took the notices down since, and every later snapshot is of its
      session. */
  ghost predicate OfThisSession(events: seq<Event>, p: nat) {
    && p < |events| && events[p].Diagnosed? && IsUnderWay(events[p].snapshot)
    && (forall k :: p < k < |events| ==> !Ends(events, k))
    && (forall k :: p < k < |events| && events[k].Diagnosed? ==>
          events[k].snapshot.generation == events[p].snapshot.generation)
  }

  lemma {:induction false} LastBefore(events: seq<Event>, p: nat, k: nat) returns (j: nat)
    requires p < k < |events| && events[p].Diagnosed?
    ensures p <= j < k && events[j].Diagnosed? && forall i :: j < i < k ==> !events[i].Diagnosed?
  {
    if events[k - 1].Diagnosed? {
      j := k - 1;
    } else {
      j := LastBefore(events, p, k - 1);
    }
  }

  lemma {:induction false} NotSettled(events: seq<Event>, p: nat, k: nat)
    requires p < k < |events| && events[p].Diagnosed? && IsUnderWay(events[p].snapshot)
    requires forall i :: p < i < |events| ==> !Ends(events, i)
    ensures !Settled(events, k)
  {
    hide Ends;
    forall l | 0 <= l < k && Ends(events, l)
      ensures exists i :: l < i < k && events[i].Diagnosed? && IsUnderWay(events[i].snapshot)
    {
      EndsIsAStateChange(events, l);
      assert l < p < k;
    }
  }

  lemma {:induction false} SameSessionSince(events: seq<Event>, p: nat, k: nat)
    requires Orderly(events) && p <= k < |events| && events[p].Diagnosed? && IsUnderWay(events[p].snapshot)
    requires forall i :: p < i < |events| ==> !Ends(events, i)
    requires events[k].Diagnosed?
    ensures events[k].snapshot.generation == events[p].snapshot.generation
    decreases k
  {
    hide Ends;
    if k > p {
      var j := LastBefore(events, p, k);
      SameSessionSince(events, p, j);
      NotSettled(events, p, k);
      assert !Changes(events, j, k);
    }
  }

  lemma {:induction false} EndsIsAStateChange(events: seq<Event>, l: nat)
    requires l < |events| && Ends(events, l)
    ensures events[l].StateChanged?
  {
  }

  lemma {:induction false} OneSessionSince(events: seq<Event>, p: nat)
    requires Orderly(events) && p < |events| && events[p].Diagnosed? && IsUnderWay(events[p].snapshot)
    requires forall i :: p < i < |events| ==> !Ends(events, i)
    ensures OfThisSession(events, p)
  {
    hide Ends, Orderly;
    forall k | p < k < |events| && events[k].Diagnosed?
      ensures events[k].snapshot.generation == events[p].snapshot.generation
    {
      SameSessionSince(events, p, k);
    }
  }

  lemma {:induction false} MovesAt(events: seq<Event>, k: nat)
    requires k < |events|
    ensures Sane(Run(events[..k]))
    ensures AudioMoves(events)[k] == AudioMove(Run(events[..k]), events[k])
    ensures StallMoves(events)[k] == StallMove(Run(events[..k]), events[k])
    ensures Ends(events, k) ==> AudioMoves(events)[k].Hide? || AudioMoves(events)[k].TakeDown?
    ensures Ends(events, k) ==> StallMoves(events)[k].Hide? || StallMoves(events)[k].TakeDown?
  {
    RunIsSane(events[..k]);
    UiIs(events, k);
  }

  /** Nothing that stands and is not hidden has been ended by a state change. */
  lemma {:induction false} StandingIsNotEnded(events: seq<Event>, p: nat)
    ensures Standing(AudioMoves(events), p) && !HiddenAfter(AudioMoves(events), p) ==>
              forall i :: p < i < |events| ==> !Ends(events, i)
    ensures Standing(StallMoves(events), p) && !HiddenAfter(StallMoves(events), p) ==>
              forall i :: p < i < |events| ==> !Ends(events, i)
  {
    hide Ends, AudioMoves, StallMoves, AudioMove, StallMove, Run;
    forall i | p < i < |events|
      ensures Standing(AudioMoves(events), p) && !HiddenAfter(AudioMoves(events), p) ==> !Ends(events, i)
      ensures Standing(StallMoves(events), p) && !HiddenAfter(StallMoves(events), p) ==> !Ends(events, i)
    {
      MovesAt(events, i);
    }
  }

  /** Both monitors stay with the session of a snapshot they heard, while all later ones are of it. */
  lemma {:induction false} MonitorsStay(events: seq<Event>, p: nat, k: nat)
    requires OfThisSession(events, p) && p < k <= |events|
    ensures var m := Run(events[..k]).stall;
            m.haveBaseline && m.generation == events[p].snapshot.generation
    ensures AudioMoves(events)[p].Put? ==>
              var m := Run(events[..k]).audio;
              m.haveGeneration && m.generation == events[p].snapshot.generation
  {
    hide AudioMoves, AudioMove, Run, Next;
    RunNext(events, k - 1);
    UiIs(events, k - 1);
    StaysWithSession(Run(events[..k - 1]), events[k - 1], events[p].snapshot.generation);
    if k > p + 1 {
      MonitorsStay(events, p, k - 1);
      assert !Ends(events, k - 1);
    } else {
      MovesAt(events, p);
      PutIsHeard(Run(events[..p]), events[p]);
    }
  }

  /** A snapshot of the session moves the stall monitor there, and leaves the audio monitor there. */
  lemma {:induction false} StaysWithSession(st: NoticesState, e: Event, g: nat)
    requires e.Diagnosed? ==> e.snapshot.generation == g
    ensures e.Diagnosed? ==> Next(st, e).stall.haveBaseline && Next(st, e).stall.generation == g
    ensures e.StateChanged? && !Starts(st, e.state) ==> Next(st, e).stall == st.stall && Next(st, e).audio == st.audio
    ensures e.Diagnosed? && st.audio.haveGeneration && st.audio.generation == g ==>
              Next(st, e).audio.haveGeneration && Next(st, e).audio.generation == g
  {
    hide Next;
    NextMonitors(st, e);
  }

  lemma {:induction false} PutIsHeard(st: NoticesState, e: Event)
    ensures AudioMove(st, e).Put? ==>
              && e.Diagnosed? && Next(st, e).audio.haveGeneration
              && Next(st, e).audio.generation == e.snapshot.generation
  {
  }

  lemma {:induction false} NothingLost(events: seq<Event>, p: nat)
    requires OfThisSession(events, p)
    ensures AudioMoves(events)[p].Put? ==> !LostAfter(AudioMoves(events), p)
    ensures !LostAfter(StallMoves(events), p)
  {
    hide AudioMoves, StallMoves, AudioMove, StallMove, Run, Ends;
    forall k | p < k < |events|
      ensures AudioMoves(events)[p].Put? ==> !AudioMoves(events)[k].Lose?
      ensures !StallMoves(events)[k].Lose?
    {
      MovesAt(events, k);
      MonitorsStay(events, p, k);
      WhatMovesMean(Run(events[..k]), events[k]);
    }
  }

  /** Under the application's protocol no notice outlives its recording: one that shows was put up by a live
      snapshot of the session all later snapshots are of, the page was not left since, and it shows exactly
      what the monitor holds. */
  lemma {:induction false} AudioNoticeEndsWithItsRecording(events: seq<Event>) returns (p: nat)
    requires Orderly(events) && Run(events).audioShown.Some?
    ensures OfThisSession(events, p)
    ensures Run(events).audioShown == Some(LevelsIn(events[p].snapshot))
    ensures AudioBoard(Run(events)).shown == AudioBoard(Run(events)).latch
  {
    hide Orderly, AudioMoves, AudioMove, Run, Standing, LostAfter, HiddenAfter, OfThisSession, Ends;
    var moves := AudioMoves(events);
    RunBoards(events);
    AlwaysSays(moves);
    p :| Standing(moves, p);
    StandingIsPut(moves, p);
    MovesAt(events, p);
    WhatMovesMean(Run(events[..p]), events[p]);
    StandingIsNotEnded(events, p);
    OneSessionSince(events, p);
    NothingLost(events, p);
  }

  lemma {:induction false} StallNoticeEndsWithItsRecording(events: seq<Event>) returns (p: nat)
    requires Orderly(events) && Run(events).stallShown.Some?
    ensures OfThisSession(events, p) && Run(events).stall.phase.Reported?
    ensures if events[p].snapshot.source.WindowSource? then LooksFullscreen(events[p].seen.facts)
            else events[p].seen.displayOff || events[p].seen.displayMissing
  {
    hide Orderly, StallMoves, StallMove, Run, Standing, LostAfter, HiddenAfter, OfThisSession, Ends;
    hide LooksFullscreen;
    var moves := StallMoves(events);
    RunBoards(events);
    AlwaysSays(moves);
    p :| Standing(moves, p);
    StandingIsPut(moves, p);
    MovesAt(events, p);
    WhatMovesMean(Run(events[..p]), events[p]);
    StandingIsNotEnded(events, p);
    OneSessionSince(events, p);
    NothingLost(events, p);
  }

  /** A snapshot that is not live, heard while an outage stands, is answered with the one Clear that is owed,
      and takes the notice down; nothing is left for the next recording to drop. */
  lemma {:induction false} EndIsAnnounced(st: NoticesState, s: Snapshot, w: Witness)
    requires Sane(st) && !IsUnderWay(s) && st.audio.haveGeneration && s.generation == st.audio.generation
    ensures Audio.Observed(st.audio, AudioSampleOf(s)).1 ==
            if st.audio.latch != Audio.HEALTHY then Audio.Clear else Audio.NoSignal
    ensures Next(st, Diagnosed(s, w)).audio.latch == Audio.HEALTHY
    ensures st.audio.latch != Audio.HEALTHY ==> Next(st, Diagnosed(s, w)).audioShown.None?
  {
  }

  // ----- A notice while no recording is on -----

  /** Snapshot `k` is of no session older than one already seen. */
  ghost predicate Heard(events: seq<Event>, k: nat)
    requires k < |events|
  {
    && events[k].Diagnosed?
    && forall j :: 0 <= j < k && events[j].Diagnosed? ==> events[j].snapshot.generation <= events[k].snapshot.generation
  }

  /** Snapshot `j` is the last of session `g` before event `n`, and no recording was started since. */
  ghost predicate LastOfSession(events: seq<Event>, j: nat, g: nat, n: nat)
    requires n <= |events|
  {
    && j < n && events[j].Diagnosed? && events[j].snapshot.generation == g
    && forall i :: j < i < n ==> !FreshStart(events, i) && (events[i].Diagnosed? ==> events[i].snapshot.generation != g)
  }

  /** Snapshot `k` reports a set of lost sources that the last one of its session did not. */
  ghost predicate IsNews(events: seq<Event>, k: nat)
    requires k < |events|
  {
    && Heard(events, k) && Degraded(events[k].snapshot)
    && forall j: nat :: LastOfSession(events, j, events[k].snapshot.generation, k) ==>
         LevelsIn(events[j].snapshot) != LevelsIn(events[k].snapshot)
  }

  /** What the audio monitor holds, read off the snapshots: the newest session seen, and what the last snapshot
      of it reported. */
  ghost predicate AudioReads(events: seq<Event>, n: nat, m: Audio.MonitorState)
    requires n <= |events|
  {
    && (m.haveGeneration <==> exists j :: 0 <= j < n && events[j].Diagnosed?)
    && (m.haveGeneration ==>
          exists j :: 0 <= j < n && events[j].Diagnosed? && events[j].snapshot.generation == m.generation)
    && (forall j :: 0 <= j < n && events[j].Diagnosed? ==> events[j].snapshot.generation <= m.generation)
    && (forall j: nat :: m.haveGeneration && LastOfSession(events, j, m.generation, n) ==>
          m.latch == LevelsIn(events[j].snapshot))
    && ((forall j: nat :: !LastOfSession(events, j, m.generation, n)) ==> m.latch == Audio.HEALTHY)
  }

  lemma {:induction false} LastOfSessionNext(events: seq<Event>, j: nat, g: nat, n: nat)
    requires n < |events|
    ensures LastOfSession(events, j, g, n + 1) <==>
              || (j == n && events[n].Diagnosed? && events[n].snapshot.generation == g)
              || (&& !FreshStart(events, n) && !(events[n].Diagnosed? && events[n].snapshot.generation == g)
                  && LastOfSession(events, j, g, n))
  {
    hide FreshStart;
    if j < n && LastOfSession(events, j, g, n + 1) {
      assert !FreshStart(events, n) && (events[n].Diagnosed? ==> events[n].snapshot.generation != g);
    }
  }

  /** What one event does to the monitor. */
  lemma {:induction false} AudioAfter(st: NoticesState, e: Event)
    ensures var m, t := st.audio, Next(st, e).audio;
            match e
            case StateChanged(to) =>
              && t.haveGeneration == m.haveGeneration && t.generation == m.generation
              && t.latch == if Starts(st, to) then Audio.HEALTHY else m.latch
            case Diagnosed(s, _) =>
              if m.haveGeneration && s.generation < m.generation then t == m
              else
                && t.haveGeneration && t.generation == s.generation
                && t.latch == if Degraded(s) then LevelsIn(s) else Audio.HEALTHY
    ensures e.Diagnosed? && !Degraded(e.snapshot) ==> LevelsIn(e.snapshot) == Audio.HEALTHY
  {
    NextMonitors(st, e);
    if e.Diagnosed? {
      LevelsAreReported(e.snapshot);
    }
  }

  lemma {:induction false} NoneOfANewSession(events: seq<Event>, j: nat, g: nat, n: nat)
    requires n <= |events| && forall i :: 0 <= i < n && events[i].Diagnosed? ==> events[i].snapshot.generation < g
    ensures !LastOfSession(events, j, g, n)
  {
  }

  lemma {:induction false} AudioReadsNext(events: seq<Event>, n: nat)
    requires n < |events| && AudioReads(events, n, Run(events[..n]).audio)
    ensures AudioReads(events, n + 1, Run(events[..n + 1]).audio)
  {
    hide LastOfSession, Run, Next, LevelsIn, Degraded;
    var m, t, next := Run(events[..n]).audio, Run(events[..n + 1]).audio, n + 1;
    RunNext(events, n);
    UiIs(events, n);
    AudioAfter(Run(events[..n]), events[n]);
    forall j: nat
      ensures LastOfSession(events, j, t.generation, next) <==>
                || (j == n && events[n].Diagnosed? && events[n].snapshot.generation == t.generation)
                || (&& !FreshStart(events, n)
                    && !(events[n].Diagnosed? && events[n].snapshot.generation == t.generation)
                    && LastOfSession(events, j, t.generation, n))
    {
      LastOfSessionNext(events, j, t.generation, n);
    }
    LastOfSessionNext(events, n, t.generation, n);
    if j: nat :| LastOfSession(events, j, m.generation, n) {
      LastOfSessionNext(events, j, m.generation, n);
    }
    if events[n].Diagnosed? {
      assert 0 <= n < next;
    }
    if j :| 0 <= j < n && events[j].Diagnosed? && events[j].snapshot.generation == m.generation {
      assert 0 <= j < next;
    }
  }

  lemma {:induction false} NothingRead(events: seq<Event>)
    ensures AudioReads(events, 0, Run(events[..0]).audio)
  {
  }

  lemma {:induction false} AudioAlwaysReads(events: seq<Event>, n: nat)
    requires n <= |events|
    ensures AudioReads(events, n, Run(events[..n]).audio)
  {
    hide AudioReads, Run;
    if n == 0 {
      NothingRead(events);
    } else {
      AudioAlwaysReads(events, n - 1);
      AudioReadsNext(events, n - 1);
    }
  }

  /** The audio notice goes up, or is put up anew, exactly at the snapshots that bring news. */
  lemma {:induction false} PutsUpIff(events: seq<Event>, k: nat)
    requires k < |events|
    ensures AudioMove(Run(events[..k]), events[k]).Put? <==> IsNews(events, k)
    ensures events[k].Diagnosed? ==>
              var m := Run(events[..k]).audio;
              Heard(events, k) <==> !(m.haveGeneration && events[k].snapshot.generation < m.generation)
  {
    hide LastOfSession, Run, AudioMove, LevelsIn;
    var st := Run(events[..k]);
    RunIsSane(events[..k]);
    AudioAlwaysReads(events, k);
    WhatMovesMean(st, events[k]);
    if events[k].Diagnosed? {
      var g := events[k].snapshot.generation;
      HealthyIsNotDegraded(events[k].snapshot);
      if !st.audio.haveGeneration || g > st.audio.generation {
        forall j: nat ensures !LastOfSession(events, j, g, k) {
          NoneOfANewSession(events, j, g, k);
        }
      }
    }
  }

  lemma {:induction false} HealthyIsNotDegraded(s: Snapshot)
    ensures Degraded(s) ==> LevelsIn(s) != Audio.HEALTHY
    ensures !Degraded(s) ==> LevelsIn(s) == Audio.HEALTHY
  {
  }

  /** Snapshot `p` brings news; the page's state has not changed since; and of the later snapshots heard, those
      of its session still report a lost source and those of newer ones do not. */
  ghost predicate CameLate(events: seq<Event>, p: nat, n: nat)
    requires n <= |events|
  {
    && p < n && events[p].Diagnosed? && IsNews(events, p)
    && (forall k :: p < k < n ==> !events[k].StateChanged?)
    && (forall k :: p < k < n && Heard(events, k) ==>
          (events[k].snapshot.generation == events[p].snapshot.generation <==> Degraded(events[k].snapshot)))
  }

  /** What stands after a late snapshot. */
  ghost predicate StandsLate(st: NoticesState, g: nat) {
    && st.audioShown.Some? && st.audio.haveGeneration
    && ((st.audio.generation == g && st.audio.latch != Audio.HEALTHY)
        || (st.audio.generation > g && st.audio.latch == Audio.HEALTHY))
  }

  lemma {:induction false} StandsLateNext(st: NoticesState, e: Event, g: nat)
    requires Sane(st) && e.Diagnosed?
    ensures AudioMove(st, e).Put? ==> StandsLate(Next(st, e), e.snapshot.generation)
    ensures StandsLate(st, g) && e.snapshot.generation < st.audio.generation ==> StandsLate(Next(st, e), g)
    ensures (&& StandsLate(st, g) && e.snapshot.generation >= st.audio.generation
             && (e.snapshot.generation == g <==> Degraded(e.snapshot))) ==> StandsLate(Next(st, e), g)
    ensures (&& StandsLate(st, g) && e.snapshot.generation >= st.audio.generation && e.snapshot.generation == g
             && !Degraded(e.snapshot)) ==> Next(st, e).audioShown.None?
    ensures (&& StandsLate(st, g) && e.snapshot.generation >= st.audio.generation && e.snapshot.generation != g
             && Degraded(e.snapshot)) ==> AudioMove(st, e).Put?
    ensures st.audioShown.None? && Next(st, e).audioShown.Some? ==> AudioMove(st, e).Put?
  {
  }

  lemma {:induction false} CameLateStands(events: seq<Event>, p: nat, n: nat)
    requires n <= |events| && CameLate(events, p, n)
    ensures StandsLate(Run(events[..n]), events[p].snapshot.generation)
    decreases n
  {
    hide Run, Next, AudioMove, Heard, IsNews, StandsLate, Degraded, Sane;
    var k, g := n - 1, events[p].snapshot.generation;
    RunNext(events, k);
    RunIsSane(events[..k]);
    PutsUpIff(events, k);
    NewsIsDiagnosed(events, p);
    if k > p {
      CameLateStands(events, p, k);
      StandsLateHas(Run(events[..k]), g);
      assert !events[k].StateChanged?;
    }
    StandsLateNext(Run(events[..k]), events[k], g);
  }

  lemma {:induction false} NewsIsDiagnosed(events: seq<Event>, p: nat)
    requires p < |events| && IsNews(events, p)
    ensures events[p].Diagnosed? && Heard(events, p) && Degraded(events[p].snapshot)
  {
  }

  lemma {:induction false} StandsLateHas(st: NoticesState, g: nat)
    requires StandsLate(st, g)
    ensures st.audio.haveGeneration && st.audioShown.Some?
  {
  }

  lemma {:induction false} CameLateNext(events: seq<Event>, p: nat, k: nat)
    requires k < |events| && CameLate(events, p, k) && events[k].Diagnosed?
    requires Heard(events, k) ==>
             (events[k].snapshot.generation == events[p].snapshot.generation <==> Degraded(events[k].snapshot))
    ensures CameLate(events, p, k + 1)
  {
    hide Heard, IsNews, Degraded;
  }

  lemma {:induction false} NewsCameLate(events: seq<Event>, k: nat)
    requires k < |events| && IsNews(events, k)
    ensures events[k].Diagnosed? && CameLate(events, k, k + 1)
  {
  }

  /** A notice that shows away from a recording came late. */
  lemma {:induction false} ShownElsewhereCameLate(events: seq<Event>, n: nat) returns (p: nat)
    requires n <= |events| && Run(events[..n]).ui.Elsewhere? && Run(events[..n]).audioShown.Some?
    ensures p < n && events[p].Diagnosed? && CameLate(events, p, n)
    decreases n
  {
    hide Run, Next, AudioMove, Heard, IsNews, CameLate, StandsLate, Degraded, Sane;
    NothingShown(events);
    var k := n - 1;
    var st := Run(events[..k]);
    RunNext(events, k);
    RunIsSane(events[..k]);
    PutsUpIff(events, k);
    StaysElsewhere(st, events[k]);
    if IsNews(events, k) {
      NewsCameLate(events, k);
      p := k;
    } else {
      StandsLateNext(st, events[k], 0);
      p := ShownElsewhereCameLate(events, k);
      var g := events[p].snapshot.generation;
      CameLateStands(events, p, k);
      StandsLateHas(st, g);
      StandsLateNext(st, events[k], g);
      CameLateNext(events, p, k);
    }
  }

  lemma {:induction false} NothingShown(events: seq<Event>)
    ensures Run(events[..0]).audioShown.None?
  {
  }

  lemma {:induction false} StaysElsewhere(st: NoticesState, e: Event)
    requires Next(st, e).ui.Elsewhere? && Next(st, e).audioShown.Some?
    ensures e.Diagnosed? && st.ui.Elsewhere?
  {
  }

  /** Away from a recording the audio notice shows exactly when a snapshot that came after the page was left
      reported a set of lost sources that the one before it of its session did not, and of the snapshots heard
      since, those of its session still report a lost source and those of newer sessions do not. */
  lemma {:induction false} NoticeElsewhereIff(events: seq<Event>)
    requires Run(events).ui.Elsewhere?
    ensures Run(events).audioShown.Some? <==> exists p: nat :: CameLate(events, p, |events|)
  {
    hide Run, CameLate;
    assert events[..|events|] == events;
    if Run(events).audioShown.Some? {
      var p := ShownElsewhereCameLate(events, |events|);
    }
    if p: nat :| CameLate(events, p, |events|) {
      CameLateStands(events, p, |events|);
    }
  }

  /** It comes to that when a live snapshot is delivered just after the page was left. */
  lemma {:induction false} LateSnapshotRaises(s: Snapshot, w: Witness)
    requires s.valid && IsUnderWay(s) && s.sourceDegraded && s.degradedSources > 0
    ensures var events := [StateChanged(InRecording), StateChanged(Elsewhere), Diagnosed(s, w)];
            Run(events).ui.Elsewhere? && Run(events).audioShown.Some? && Orderly(events)
  {
    var events := [StateChanged(InRecording), StateChanged(Elsewhere), Diagnosed(s, w)];
    assert events[..3] == events && events[..0] == [];
    RunNext(events, 0);
    RunNext(events, 1);
    RunNext(events, 2);
  }
}

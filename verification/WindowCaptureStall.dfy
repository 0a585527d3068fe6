/**
 The stall monitor of a recording (app/diagnostics/WindowCaptureStall.cpp): it asks once when
 capture frames stop coming, latches the answer, and says once when they resume. The
 classifiers that answer it are in WindowTargetFacts.
 */
module WindowCaptureStall {
  import opened EngineTypes

  const STALL_STARVE_SECONDS: real := 10.0

  predicate CaptureProgressExpected(lifecycle: DiagnosticsLifecycle) {
    lifecycle.Recording?
  }

  datatype StallSample = StallSample(
    generation: nat, isWindowTarget: bool, isDisplayTarget: bool, captureExpected: bool, frames: nat, elapsedS: real)

  datatype StallSignal = NoSignal | Starved | Recovered

  datatype StallVerdict = Legitimate | Unknown | Stalled

  datatype Phase = Healthy | AwaitingVerdict | Reported | Suppressed

  datatype MonitorState = MonitorState(
    phase: Phase, haveBaseline: bool, generation: nat, baselineFrames: nat, baselineElapsedS: real,
    withoutProgressS: real, reportedEpisodes: nat)

  const CLEAN := MonitorState(Healthy, false, 0, 0, 0.0, 0.0, 0)

  /** Is the sample one whose capture should be producing frames? */
  predicate Eligible(s: StallSample) {
    (s.isWindowTarget || s.isDisplayTarget) && s.captureExpected
  }

  // ----- The monitor, as functions of its whole state -----

  function Rebased(m: MonitorState, s: StallSample): MonitorState {
    m.(baselineFrames := s.frames, baselineElapsedS := s.elapsedS, withoutProgressS := 0.0)
  }

  function StarvedNow(m: MonitorState, s: StallSample): bool {
    m.phase.Healthy? && s.elapsedS - m.baselineElapsedS >= STALL_STARVE_SECONDS
  }

  /** The state after a sample, and what the monitor asks for. */
  function Observed(m: MonitorState, s: StallSample): (MonitorState, StallSignal) {
    if !m.haveBaseline || s.generation != m.generation then
      (Rebased(CLEAN.(haveBaseline := true, generation := s.generation), s), NoSignal)
    else if !Eligible(s) then (Rebased(m, s), NoSignal)
    else if s.frames != m.baselineFrames || s.elapsedS < m.baselineElapsedS then
      (Rebased(m, s).(phase := Healthy), if m.phase.Reported? then Recovered else NoSignal)
    else
      var starving := m.(withoutProgressS := s.elapsedS - m.baselineElapsedS);
      if StarvedNow(m, s) then (starving.(phase := AwaitingVerdict), Starved) else (starving, NoSignal)
  }

  function Answered(m: MonitorState, v: StallVerdict): MonitorState {
    if !m.phase.AwaitingVerdict? then m
    else if v.Stalled? then m.(phase := Reported, reportedEpisodes := m.reportedEpisodes + 1)
    else m.(phase := Suppressed)
  }

  class WindowCaptureStallMonitor {
    var phase: Phase
    var haveBaseline: bool
    var generation: nat
    var baselineFrames: nat
    var baselineElapsedS: real
    var withoutProgressS: real
    var reportedEpisodes: nat

    constructor ()
      ensures State() == CLEAN
    {
      phase, haveBaseline, generation := Healthy, false, 0;
      baselineFrames, baselineElapsedS, withoutProgressS, reportedEpisodes := 0, 0.0, 0.0, 0;
    }

    ghost function State(): MonitorState
      reads this
    {
      MonitorState(phase, haveBaseline, generation, baselineFrames, baselineElapsedS, withoutProgressS,
                   reportedEpisodes)
    }

    method Reset()
      modifies this
      ensures State() == CLEAN
    {
      phase, haveBaseline, generation := Healthy, false, 0;
      baselineFrames, baselineElapsedS, withoutProgressS, reportedEpisodes := 0, 0.0, 0.0, 0;
    }

    method Observe(sample: StallSample) returns (signal: StallSignal)
      modifies this
      ensures (State(), signal) == Observed(old(State()), sample)
    {
      if !haveBaseline || sample.generation != generation {
        Reset();
        generation, haveBaseline := sample.generation, true;
        baselineFrames, baselineElapsedS := sample.frames, sample.elapsedS;
        return NoSignal;
      }
      if (!sample.isWindowTarget && !sample.isDisplayTarget) || !sample.captureExpected {
        baselineFrames, baselineElapsedS, withoutProgressS := sample.frames, sample.elapsedS, 0.0;
        return NoSignal;
      }
      if sample.frames != baselineFrames || sample.elapsedS < baselineElapsedS {
        var previous := phase;
        baselineFrames, baselineElapsedS, withoutProgressS := sample.frames, sample.elapsedS, 0.0;
        phase := Healthy;
        return if previous.Reported? then Recovered else NoSignal;
      }
      withoutProgressS := sample.elapsedS - baselineElapsedS;
      if !phase.Healthy? || withoutProgressS < STALL_STARVE_SECONDS {
        return NoSignal;
      }
      phase := AwaitingVerdict;
      return Starved;
    }

    method ApplyVerdict(verdict: StallVerdict)
      modifies this
      ensures State() == Answered(old(State()), verdict)
    {
      if !phase.AwaitingVerdict? {
        return;
      }
      if verdict.Stalled? {
        phase := Reported;
        reportedEpisodes := reportedEpisodes + 1;
        return;
      }
      phase := Suppressed;
    }
  }

  // ----- Traces -----

  datatype Event = Sample(sample: StallSample) | Verdict(verdict: StallVerdict) | Reset

  function After(events: seq<Event>): MonitorState {
    if events == [] then CLEAN
    else
      var before, e := After(events[..|events| - 1]), events[|events| - 1];
      match e
      case Sample(s) => Observed(before, s).0
      case Verdict(v) => Answered(before, v)
      case Reset => CLEAN
  }

  /** What the monitor returned at event `k`. */
  function SignalAt(events: seq<Event>, k: nat): StallSignal
    requires k < |events|
  {
    if events[k].Sample? then Observed(After(events[..k]), events[k].sample).1 else NoSignal
  }

  lemma {:induction false} AfterNext(events: seq<Event>, k: nat)
    requires k < |events|
    ensures After(events[..k + 1])
         == match events[k]
            case Sample(s) => Observed(After(events[..k]), s).0
            case Verdict(v) => Answered(After(events[..k]), v)
            case Reset => CLEAN
  {
    assert events[..k + 1][..k] == events[..k];
  }

  // ----- The declarative reading of a trace -----

  /** Nothing from sample `b` to sample `k` starts another session. */
  ghost predicate SameSession(events: seq<Event>, b: nat, k: nat)
    requires b <= k < |events|
  {
    && events[b].Sample? && events[k].Sample?
    && (forall j :: b <= j <= k ==> !events[j].Reset?)
    && (forall j :: b <= j <= k && events[j].Sample? ==> events[j].sample.generation == events[b].sample.generation)
  }

  /** Sample `k` is of a window or a display whose capture should be producing frames. */
  predicate Captures(events: seq<Event>, k: nat)
    requires k < |events|
  {
    && events[k].Sample? && events[k].sample.captureExpected
    && (events[k].sample.isWindowTarget || events[k].sample.isDisplayTarget)
  }

  /** The session stays the same from sample `b` to sample `k`, and every sample after `b` should bring frames,
      has the frame count of `b`, and is no earlier on the engine's clock. */
  ghost predicate StillFrom(events: seq<Event>, b: nat, k: nat)
    requires b <= k < |events|
  {
    && SameSession(events, b, k)
    && (forall j :: b < j <= k && events[j].Sample? ==>
          && Captures(events, j) && events[j].sample.frames == events[b].sample.frames
          && events[j].sample.elapsedS >= events[b].sample.elapsedS)
  }

  /** Sample `k` is the first of its session. */
  ghost predicate Opens(events: seq<Event>, k: nat)
    requires k < |events|
  {
    events[k].Sample? && forall b :: 0 <= b < k ==> !SameSession(events, b, k)
  }

  /** Sample `k` should bring frames, is not the first of its session, and no earlier sample stands still up to it:
      frames came, or the clock or the counter went back. */
  ghost predicate Progresses(events: seq<Event>, k: nat)
    requires k < |events|
  {
    && Captures(events, k) && !Opens(events, k)
    && forall b :: 0 <= b < k ==> !StillFrom(events, b, k)
  }

  /** At sample `k` nothing has moved since some sample at least ten seconds ago. */
  ghost predicate StarvesAt(events: seq<Event>, k: nat)
    requires k < |events|
  {
    && Captures(events, k)
    && exists b :: 0 <= b < k && StillFrom(events, b, k)
                   && events[k].sample.elapsedS - events[b].sample.elapsedS >= 10.0
  }

  // ----- The baseline the monitor keeps -----

  /** No earlier sample stands still up to sample `b`. */
  ghost predicate MovesAt(events: seq<Event>, b: nat)
    requires b < |events|
  {
    forall c :: 0 <= c < b ==> !StillFrom(events, c, b)
  }

  ghost predicate Tracks(events: seq<Event>, n: nat, b: nat, m: MonitorState)
    requires n <= |events|
  {
    && b < n && events[b].Sample? && m.haveBaseline
    && (forall j :: b <= j < n ==> !events[j].Reset?)
    && (forall j :: b <= j < n && events[j].Sample? ==> StillFrom(events, b, j))
    && m.generation == events[b].sample.generation && m.baselineFrames == events[b].sample.frames
    && m.baselineElapsedS == events[b].sample.elapsedS
    && MovesAt(events, b)
  }

  ghost predicate NoSampleSinceReset(events: seq<Event>, n: nat)
    requires n <= |events|
  {
    forall j :: 0 <= j < n && events[j].Sample? ==> exists r :: j < r < n && events[r].Reset?
  }

  /** The baseline is a sample from which everything after it has stood still. */
  ghost predicate HasBaseline(events: seq<Event>, n: nat)
    requires n <= |events|
  {
    var m := After(events[..n]);
    if m.haveBaseline then exists b: nat :: Tracks(events, n, b, m) else NoSampleSinceReset(events, n)
  }

  lemma {:induction false} StillNext(events: seq<Event>, b: nat, k: nat, m: MonitorState)
    requires k < |events| && Tracks(events, k, b, m) && events[k].Sample?
    ensures SameSession(events, b, k) <==> events[k].sample.generation == m.generation
    ensures StillFrom(events, b, k) <==>
              && events[k].sample.generation == m.generation && Eligible(events[k].sample)
              && events[k].sample.frames == m.baselineFrames && events[k].sample.elapsedS >= m.baselineElapsedS
  {
    forall j | b <= j <= k && events[j].Sample? && events[k].sample.generation == m.generation
      ensures events[j].sample.generation == m.generation
    {
      assert j < k ==> StillFrom(events, b, j);
    }
    forall j | b < j < k && events[j].Sample?
      ensures Eligible(events[j].sample) && events[j].sample.frames == m.baselineFrames
              && events[j].sample.elapsedS >= m.baselineElapsedS
    {
      assert StillFrom(events, b, j);
    }
  }

  /** Standing still over a stretch is standing still over its parts, and the other way round. */
  lemma {:induction false} StillSplits(events: seq<Event>, b: nat, c: nat, k: nat)
    requires b <= c <= k < |events| && events[c].Sample?
    ensures StillFrom(events, b, k) ==> StillFrom(events, b, c)
    ensures StillFrom(events, b, c) && StillFrom(events, c, k) ==> StillFrom(events, b, k)
    ensures SameSession(events, b, k) ==> events[b].sample.generation == events[c].sample.generation
  {
    if StillFrom(events, b, c) && StillFrom(events, c, k) {
      assert events[c].sample.generation == events[b].sample.generation;
    }
  }

  /** Once the baseline does not stand still up to sample `k`, no other sample does. */
  lemma {:induction false} BaselineDecides(events: seq<Event>, b: nat, k: nat, m: MonitorState)
    requires k < |events| && Tracks(events, k, b, m) && events[k].Sample?
    ensures StillFrom(events, b, k) || MovesAt(events, k)
    ensures SameSession(events, b, k) || forall c :: 0 <= c < k ==> !SameSession(events, c, k)
  {
    forall c | 0 <= c < k ensures StillFrom(events, c, k) ==> StillFrom(events, b, k) {
      if StillFrom(events, c, k) {
        if c < b {
          StillSplits(events, c, b, k);
        } else {
          StillSplits(events, b, c, k);
        }
      }
    }
    forall c | 0 <= c < k ensures SameSession(events, c, k) ==> SameSession(events, b, k) {
      StillNext(events, b, k, m);
      if SameSession(events, c, k) && c < b {
        StillSplits(events, c, b, k);
      } else if SameSession(events, c, k) {
        assert StillFrom(events, b, c);
      }
    }
  }

  lemma {:induction false} SampleStep(events: seq<Event>, k: nat)
    requires k < |events| && HasBaseline(events, k) && events[k].Sample?
    ensures HasBaseline(events, k + 1)
  {
    AfterNext(events, k);
    var m, t, s := After(events[..k]), After(events[..k + 1]), events[k].sample;
    assert StillFrom(events, k, k);
    if !m.haveBaseline {
      assert MovesAt(events, k);
      assert Tracks(events, k + 1, k, t);
    } else {
      var b: nat :| Tracks(events, k, b, m);
      StillNext(events, b, k, m);
      BaselineDecides(events, b, k, m);
      if StillFrom(events, b, k) {
        assert Tracks(events, k + 1, b, t);
      } else {
        assert Tracks(events, k + 1, k, t);
      }
    }
  }

  lemma {:induction false} OtherStep(events: seq<Event>, k: nat)
    requires k < |events| && HasBaseline(events, k) && !events[k].Sample?
    ensures HasBaseline(events, k + 1)
  {
    AfterNext(events, k);
    var m, t := After(events[..k]), After(events[..k + 1]);
    if events[k].Reset? {
      assert forall j :: 0 <= j < k + 1 && events[j].Sample? ==> j < k < k + 1 && events[k].Reset?;
    } else if m.haveBaseline {
      var b: nat :| Tracks(events, k, b, m);
      assert Tracks(events, k + 1, b, t);
    } else {
      forall j | 0 <= j < k + 1 && events[j].Sample? ensures exists r :: j < r < k + 1 && events[r].Reset? {
        var r :| j < r < k && events[r].Reset?;
      }
    }
  }

  lemma {:induction false} AlwaysHasBaseline(events: seq<Event>, n: nat)
    requires n <= |events|
    ensures HasBaseline(events, n)
  {
    if n > 0 {
      AlwaysHasBaseline(events, n - 1);
      if events[n - 1].Sample? {
        SampleStep(events, n - 1);
      } else {
        OtherStep(events, n - 1);
      }
    }
  }

  // ----- The monitor's cases are the declarative ones -----

  /** What the monitor compares against its fields, read off the trace. */
  lemma {:induction false} CasesOfASample(events: seq<Event>, k: nat)
    requires k < |events| && events[k].Sample?
    ensures var m, s := After(events[..k]), events[k].sample;
            && (Opens(events, k) <==> !m.haveBaseline || s.generation != m.generation)
            && (!Opens(events, k) && Eligible(s) ==>
                  (Progresses(events, k) <==> s.frames != m.baselineFrames || s.elapsedS < m.baselineElapsedS))
            && (!Opens(events, k) && Eligible(s) && !Progresses(events, k) ==>
                  (StarvesAt(events, k) <==> s.elapsedS - m.baselineElapsedS >= STALL_STARVE_SECONDS))
            && (Opens(events, k) || Progresses(events, k) ==> !StarvesAt(events, k))
  {
    AlwaysHasBaseline(events, k);
    var m := After(events[..k]);
    if m.haveBaseline {
      var b: nat :| Tracks(events, k, b, m);
      StillNext(events, b, k, m);
      BaselineDecides(events, b, k, m);
      forall c | 0 <= c < k && StillFrom(events, c, k)
        ensures events[b].sample.elapsedS <= events[c].sample.elapsedS
      {
        if c < b {
          StillSplits(events, c, b, k);
        } else {
          assert StillFrom(events, b, c);
        }
      }
    }
  }

  // ----- The latch over a whole trace -----

  /** Event `k` ends whatever stood before: a reset, a new session, or frames coming. */
  ghost predicate Clears(events: seq<Event>, k: nat)
    requires k < |events|
  {
    events[k].Reset? || Opens(events, k) || Progresses(events, k)
  }

  ghost predicate NoClearBetween(events: seq<Event>, i: nat, n: nat)
    requires n <= |events|
  {
    forall j :: i < j < n ==> !Clears(events, j)
  }

  /** The question asked at `j` has not been overtaken by event `n`. */
  ghost predicate Standing(events: seq<Event>, j: nat, n: nat)
    requires n <= |events|
  {
    j < n && SignalAt(events, j) == Starved && NoClearBetween(events, j, n)
  }

  /** A question stands and no verdict came since it was asked. */
  ghost predicate Unanswered(events: seq<Event>, n: nat)
    requires n <= |events|
  {
    exists j: nat :: Standing(events, j, n) && forall v :: j < v < n ==> !events[v].Verdict?
  }

  /** Event `v` answers an open question with a stall. */
  ghost predicate ConfirmsStall(events: seq<Event>, v: nat)
    requires v < |events|
  {
    events[v] == Verdict(Stalled) && Unanswered(events, v)
  }

  /** The stall confirmed at `v` has not been overtaken by event `n`. */
  ghost predicate StandingStall(events: seq<Event>, v: nat, n: nat)
    requires n <= |events|
  {
    v < n && ConfirmsStall(events, v) && NoClearBetween(events, v, n)
  }

  /** One event, in terms of the trace. */
  lemma {:induction false} PhaseStep(events: seq<Event>, k: nat)
    requires k < |events|
    ensures var before, after := After(events[..k]).phase, After(events[..k + 1]).phase;
            after == if Clears(events, k) then Healthy
                     else if SignalAt(events, k) == Starved then AwaitingVerdict
                     else if events[k].Verdict? && before.AwaitingVerdict?
                       then (if events[k].verdict.Stalled? then Reported else Suppressed)
                     else before
    ensures SignalAt(events, k) == Starved <==>
              events[k].Sample? && StarvesAt(events, k) && After(events[..k]).phase.Healthy?
    ensures SignalAt(events, k) == Recovered <==>
              events[k].Sample? && Progresses(events, k) && After(events[..k]).phase.Reported?
    ensures SignalAt(events, k) == Starved ==> !Clears(events, k)
  {
    hide Opens, Progresses, StarvesAt, SameSession, StillFrom;
    AfterNext(events, k);
    if events[k].Sample? {
      CasesOfASample(events, k);
      StarvingIsEligible(events, k);
    } else {
      OnlySamplesOpen(events, k);
    }
  }

  lemma {:induction false} StarvingIsEligible(events: seq<Event>, k: nat)
    requires k < |events| && events[k].Sample?
    ensures StarvesAt(events, k) || Progresses(events, k) ==> Eligible(events[k].sample)
    ensures Progresses(events, k) ==> !Opens(events, k)
  {
  }

  lemma {:induction false} OnlySamplesOpen(events: seq<Event>, k: nat)
    requires k < |events| && !events[k].Sample?
    ensures !Opens(events, k) && !Progresses(events, k)
  {
  }

  /** The phase says what stands: nothing, an open question, a confirmed stall, or another answer. */
  ghost predicate PhaseSays(events: seq<Event>, n: nat)
    requires n <= |events|
  {
    var phase := After(events[..n]).phase;
    && (phase.Healthy? <==> !exists j: nat :: Standing(events, j, n))
    && (phase.AwaitingVerdict? <==> Unanswered(events, n))
    && (phase.Reported? <==> exists v: nat :: StandingStall(events, v, n))
  }

  lemma {:induction false} NoClearNext(events: seq<Event>, i: nat, k: nat)
    requires k < |events|
    ensures NoClearBetween(events, i, k + 1) <==> (NoClearBetween(events, i, k) && (i < k ==> !Clears(events, k)))
  {
    hide Clears;
  }

  lemma {:induction false} StandingNext(events: seq<Event>, j: nat, k: nat)
    requires k < |events|
    ensures Standing(events, j, k + 1) <==>
              ((!Clears(events, k) && Standing(events, j, k)) || (j == k && SignalAt(events, k) == Starved))
    ensures StandingStall(events, j, k + 1) <==>
              ((!Clears(events, k) && StandingStall(events, j, k)) || (j == k && ConfirmsStall(events, k)))
  {
    hide Clears, SignalAt, ConfirmsStall;
    NoClearNext(events, j, k);
  }

  lemma {:induction false} UnansweredNext(events: seq<Event>, k: nat)
    requires k < |events|
    ensures Unanswered(events, k + 1) <==>
              (SignalAt(events, k) == Starved
               || (!Clears(events, k) && !events[k].Verdict? && Unanswered(events, k)))
  {
    hide Clears, SignalAt, Standing;
    var n := k + 1;
    if Unanswered(events, n) {
      var j: nat :| Standing(events, j, n) && forall v :: j < v < n ==> !events[v].Verdict?;
      StandingNext(events, j, k);
      StandingIsPast(events, j, n);
      assert j == k || (Standing(events, j, k) && !events[k].Verdict?);
    }
    if !Clears(events, k) && !events[k].Verdict? && Unanswered(events, k) {
      var j: nat :| Standing(events, j, k) && forall v :: j < v < k ==> !events[v].Verdict?;
      StandingNext(events, j, k);
      assert Standing(events, j, n) && forall v :: j < v < n ==> !events[v].Verdict?;
    }
    StandingNext(events, k, k);
    if SignalAt(events, k) == Starved {
      assert Standing(events, k, n);
    }
  }

  lemma {:induction false} StandingIsPast(events: seq<Event>, j: nat, n: nat)
    requires n <= |events| && Standing(events, j, n)
    ensures j < n && SignalAt(events, j) == Starved
  {
  }

  lemma {:induction false} ClearedNothing(events: seq<Event>, k: nat)
    requires k < |events| && ConfirmsStall(events, k)
    ensures !Clears(events, k)
  {
    OnlySamplesOpen(events, k);
  }

  lemma {:induction false} PhaseSaysNext(events: seq<Event>, k: nat)
    requires k < |events| && PhaseSays(events, k)
    ensures PhaseSays(events, k + 1)
  {
    hide Clears, SignalAt, Standing, StandingStall, Unanswered, After;
    PhaseStep(events, k);
    UnansweredNext(events, k);
    StandingNext(events, k, k);
    if ConfirmsStall(events, k) {
      ClearedNothing(events, k);
    }
    if SignalAt(events, k) == Starved {
      OnlyASampleStarves(events, k);
    }
    if j: nat :| Standing(events, j, k) {
      StandingNext(events, j, k);
    }
    if v: nat :| StandingStall(events, v, k) {
      StandingNext(events, v, k);
    }
    var n := k + 1;
    if j: nat :| Standing(events, j, n) {
      StandingNext(events, j, k);
    }
    if v: nat :| StandingStall(events, v, n) {
      StandingNext(events, v, k);
    }
  }

  lemma {:induction false} OnlyASampleStarves(events: seq<Event>, k: nat)
    requires k < |events| && SignalAt(events, k) == Starved
    ensures events[k].Sample?
  {
  }

  lemma {:induction false} PhaseAlwaysSays(events: seq<Event>, n: nat)
    requires n <= |events|
    ensures PhaseSays(events, n)
  {
    if n > 0 {
      hide PhaseSays;
      PhaseAlwaysSays(events, n - 1);
      PhaseSaysNext(events, n - 1);
    }
  }

  // ----- The main results -----

  /** The monitor asks at a sample exactly when nothing has moved for the starve time and no question
      asked since the last progress, new session or reset. */
  lemma {:induction false} StarvedIff(events: seq<Event>, k: nat)
    requires k < |events|
    ensures SignalAt(events, k) == Starved <==>
              events[k].Sample? && StarvesAt(events, k) && !exists j: nat :: Standing(events, j, k)
  {
    hide StarvesAt, Standing;
    PhaseStep(events, k);
    PhaseAlwaysSays(events, k);
  }

  /** It reports recovery exactly at the first progress after a confirmed stall. */
  lemma {:induction false} RecoveredIff(events: seq<Event>, k: nat)
    requires k < |events|
    ensures SignalAt(events, k) == Recovered <==>
              events[k].Sample? && Progresses(events, k) && exists v: nat :: StandingStall(events, v, k)
  {
    hide Progresses, StandingStall;
    PhaseStep(events, k);
    PhaseAlwaysSays(events, k);
  }

  lemma {:induction false} IdleSinceBaseline(events: seq<Event>, k: nat)
    requires k < |events| && events[k].Sample?
    ensures var t := After(events[..k + 1]);
            t.haveBaseline && t.withoutProgressS == events[k].sample.elapsedS - t.baselineElapsedS
  {
    AfterNext(events, k);
  }

  /** No sample that stands still up to `k` is earlier on the engine's clock than the baseline. */
  lemma {:induction false} BaselineIsEarliest(events: seq<Event>, b: nat, c: nat, k: nat, m: MonitorState)
    requires c <= k < |events| && events[k].Sample? && Tracks(events, k + 1, b, m) && StillFrom(events, c, k)
    ensures StillFrom(events, b, k) && events[b].sample.elapsedS <= events[c].sample.elapsedS
  {
    if c < b {
      StillSplits(events, c, b, k);
    } else {
      assert StillFrom(events, b, c);
    }
  }

  /** How long the monitor says nothing has moved: from the earliest sample that stands still up to this one,
      which is no time at all where something moved or no frames were expected. */
  lemma {:induction false} WithoutProgressIsLongest(events: seq<Event>, k: nat)
    requires k < |events| && events[k].Sample?
    ensures var idle, now := After(events[..k + 1]).withoutProgressS, events[k].sample.elapsedS;
            && (forall c :: 0 <= c <= k && StillFrom(events, c, k) ==> now - events[c].sample.elapsedS <= idle)
            && (exists b :: 0 <= b <= k && StillFrom(events, b, k) && now - events[b].sample.elapsedS == idle)
  {
    IdleSinceBaseline(events, k);
    AlwaysHasBaseline(events, k + 1);
    var t := After(events[..k + 1]);
    var b: nat :| Tracks(events, k + 1, b, t);
    StandsStillAt(events, k);
    BaselineIsEarliest(events, b, k, k, t);
    hide StillFrom, After;
    forall c | 0 <= c <= k && StillFrom(events, c, k)
      ensures events[b].sample.elapsedS <= events[c].sample.elapsedS
    {
      BaselineIsEarliest(events, b, c, k, t);
    }
  }

  lemma {:induction false} StandsStillAt(events: seq<Event>, k: nat)
    requires k < |events| && events[k].Sample?
    ensures StillFrom(events, k, k)
  {
  }

  /** The stalls confirmed since the session began. */
  ghost function ConfirmedStalls(events: seq<Event>, n: nat): nat
    requires n <= |events|
  {
    if n == 0 || events[n - 1].Reset? || Opens(events, n - 1) then 0
    else ConfirmedStalls(events, n - 1) + if ConfirmsStall(events, n - 1) then 1 else 0
  }

  /** The number of episodes is the number of stalls confirmed in the session. */
  lemma {:induction false} EpisodesAreConfirmedStalls(events: seq<Event>, n: nat)
    requires n <= |events|
    ensures After(events[..n]).reportedEpisodes == ConfirmedStalls(events, n)
  {
    hide Opens, ConfirmsStall;
    if n > 0 {
      var k := n - 1;
      EpisodesAreConfirmedStalls(events, k);
      AfterNext(events, k);
      PhaseAlwaysSays(events, k);
      ConfirmsIff(events, k);
      if events[k].Sample? {
        OpensIff(events, k);
      } else {
        OnlySamplesOpen(events, k);
      }
    }
  }

  lemma {:induction false} ConfirmsIff(events: seq<Event>, k: nat)
    requires k < |events| && PhaseSays(events, k)
    ensures ConfirmsStall(events, k) <==> events[k] == Verdict(Stalled) && After(events[..k]).phase.AwaitingVerdict?
  {
  }

  lemma {:induction false} OpensIff(events: seq<Event>, k: nat)
    requires k < |events| && events[k].Sample?
    ensures var m := After(events[..k]);
            Opens(events, k) <==> !m.haveBaseline || events[k].sample.generation != m.generation
  {
    CasesOfASample(events, k);
  }
}

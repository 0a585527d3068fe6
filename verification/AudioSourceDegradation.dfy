/**
 The latch behind the notice that an audio source lost its device
 (app/diagnostics/AudioSourceDegradation.cpp). The caller that shows the notice is in RecordingNotices.
 */
module AudioSourceDegradation {
  import opened EngineTypes

  datatype AudioSample = AudioSample(
    generation: nat, valid: bool, lifecycle: DiagnosticsLifecycle, sourceDegraded: bool,
    degradedSources: nat, degradedSourceKinds: nat)

  datatype AudioSignal = NoSignal | Raise | Clear

  /** How many sources are silent, and of which kinds. */
  datatype Levels = Levels(sources: nat, kinds: nat)

  const HEALTHY := Levels(0, 0)

  datatype MonitorState = MonitorState(haveGeneration: bool, generation: nat, latch: Levels, reportedEpisodes: nat)

  const CLEAN := MonitorState(false, 0, HEALTHY, 0)

  predicate AudioDegradationObservable(lifecycle: DiagnosticsLifecycle) {
    lifecycle.Recording? || lifecycle.Paused?
  }

  /** The levels a snapshot reports. */
  function LevelsOf(s: AudioSample): Levels {
    var observable := s.valid && AudioDegradationObservable(s.lifecycle);
    var count := if observable && s.sourceDegraded then s.degradedSources else 0;
    Levels(count, if count > 0 then s.degradedSourceKinds else 0)
  }

  /** A lost source is heard of from valid snapshots of a recording, paused or not, and then as they report it. */
  lemma {:induction false} HeardOfIff(s: AudioSample)
    ensures LevelsOf(s).sources > 0 <==>
              s.valid && s.lifecycle in {Recording, Paused} && s.sourceDegraded && s.degradedSources > 0
    ensures LevelsOf(s) == HEALTHY
         || (LevelsOf(s).sources == s.degradedSources > 0 && LevelsOf(s).kinds == s.degradedSourceKinds)
  {
  }

  function Emptied(m: MonitorState): MonitorState {
    m.(latch := HEALTHY, reportedEpisodes := 0)
  }

  function Observed(m: MonitorState, s: AudioSample): (MonitorState, AudioSignal) {
    if m.haveGeneration && s.generation < m.generation then (m, NoSignal)
    else
      var a :=
        if !m.haveGeneration || s.generation != m.generation then
          Emptied(m).(haveGeneration := true, generation := s.generation)
        else m;
      var levels := LevelsOf(s);
      if levels == a.latch then (a, NoSignal)
      else if levels.sources == 0 then (a.(latch := HEALTHY), Clear)
      else
        (a.(latch := levels,
         reportedEpisodes := if a.latch.sources == 0 then a.reportedEpisodes + 1 else a.reportedEpisodes), Raise)
  }

  class AudioSourceDegradationMonitor {
    var haveGeneration: bool
    var generation: nat
    var degradedSources: nat
    var degradedSourceKinds: nat
    var reportedEpisodes: nat

    constructor ()
      ensures State() == CLEAN
    {
      haveGeneration, generation, degradedSources, degradedSourceKinds, reportedEpisodes := false, 0, 0, 0, 0;
    }

    ghost function State(): MonitorState
      reads this
    {
      MonitorState(haveGeneration, generation, Levels(degradedSources, degradedSourceKinds), reportedEpisodes)
    }

    method Observe(sample: AudioSample) returns (signal: AudioSignal)
      modifies this
      ensures (State(), signal) == Observed(old(State()), sample)
    {
      if haveGeneration && sample.generation < generation {
        return NoSignal;
      }
      if !haveGeneration || sample.generation != generation {
        Reset();
        haveGeneration, generation := true, sample.generation;
      }
      var observable := sample.valid && AudioDegradationObservable(sample.lifecycle);
      var count := if observable && sample.sourceDegraded then sample.degradedSources else 0;
      var kinds := if count > 0 then sample.degradedSourceKinds else 0;
      if count == degradedSources && kinds == degradedSourceKinds {
        return NoSignal;
      }
      if count == 0 {
        degradedSources, degradedSourceKinds := 0, 0;
        return Clear;
      }
      if degradedSources == 0 {
        reportedEpisodes := reportedEpisodes + 1;
      }
      degradedSources, degradedSourceKinds := count, kinds;
      return Raise;
    }

    method Reset()
      modifies this
      ensures State() == Emptied(old(State()))
    {
      degradedSources, degradedSourceKinds, reportedEpisodes := 0, 0, 0;
    }
  }

  // ----- Traces -----

  datatype Event = Sample(sample: AudioSample) | Reset

  function After(events: seq<Event>): MonitorState {
    if events == [] then CLEAN
    else
      var before, e := After(events[..|events| - 1]), events[|events| - 1];
      match e
      case Sample(s) => Observed(before, s).0
      case Reset => Emptied(before)
  }

  function SignalAt(events: seq<Event>, k: nat): AudioSignal
    requires k < |events|
  {
    if events[k].Sample? then Observed(After(events[..k]), events[k].sample).1 else NoSignal
  }

  lemma {:induction false} AfterNext(events: seq<Event>, k: nat)
    requires k < |events|
    ensures After(events[..k + 1])
         == match events[k]
            case Sample(s) => Observed(After(events[..k]), s).0
            case Reset => Emptied(After(events[..k]))
  {
    assert events[..k + 1][..k] == events[..k];
  }

  // ----- Which recordings are over -----

  /** A sample of a later recording came before event `k`. */
  ghost predicate Stale(events: seq<Event>, k: nat)
    requires k < |events|
  {
    && events[k].Sample?
    && exists j :: 0 <= j < k && events[j].Sample? && events[j].sample.generation > events[k].sample.generation
  }

  ghost predicate IsHighWater(events: seq<Event>, n: nat, m: MonitorState)
    requires n <= |events|
  {
    && (m.haveGeneration <==> exists j :: 0 <= j < n && events[j].Sample?)
    && (!m.haveGeneration ==> m.generation == 0)
    && (m.haveGeneration ==> exists j :: 0 <= j < n && events[j].Sample? && events[j].sample.generation == m.generation)
    && (forall j :: 0 <= j < n && events[j].Sample? ==> events[j].sample.generation <= m.generation)
  }

  /** The generation kept is the highest seen, resets or not. */
  lemma {:induction false} HighWater(events: seq<Event>, n: nat)
    requires n <= |events|
    ensures IsHighWater(events, n, After(events[..n]))
  {
    if n > 0 {
      HighWater(events, n - 1);
      AfterNext(events, n - 1);
      HighWaterNext(events, n - 1, After(events[..n - 1]), After(events[..n]));
    }
  }

  lemma {:induction false} HighWaterNext(events: seq<Event>, k: nat, m: MonitorState, t: MonitorState)
    requires k < |events| && IsHighWater(events, k, m)
    requires t.haveGeneration == (m.haveGeneration || events[k].Sample?)
    requires t.generation ==
             if events[k].Sample? && !(m.haveGeneration && events[k].sample.generation < m.generation)
             then events[k].sample.generation else m.generation
    ensures IsHighWater(events, k + 1, t)
  {
    if j :| 0 <= j < k && events[j].Sample? && events[j].sample.generation == m.generation {
      assert 0 <= j < k + 1;
    }
    if events[k].Sample? {
      assert 0 <= k < k + 1 && events[k].Sample?;
    }
  }

  /** The high-water mark never goes back. */
  lemma {:induction false} HighWaterOnlyRises(events: seq<Event>, i: nat, n: nat)
    requires i <= n <= |events|
    ensures After(events[..i]).generation <= After(events[..n]).generation
    ensures After(events[..i]).haveGeneration ==> After(events[..n]).haveGeneration
  {
    if i < n {
      HighWaterOnlyRises(events, i, n - 1);
      AfterNext(events, n - 1);
      HighWater(events, n - 1);
    }
  }

  /** The trace with the samples of finished recordings left out. */
  ghost function WithoutStale(events: seq<Event>, n: nat): (kept: seq<Event>)
    requires n <= |events|
  {
    if n == 0 then []
    else if Stale(events, n - 1) then WithoutStale(events, n - 1)
    else WithoutStale(events, n - 1) + [events[n - 1]]
  }

  lemma {:induction false} StaleIff(events: seq<Event>, k: nat)
    requires k < |events| && events[k].Sample?
    ensures var m := After(events[..k]);
            Stale(events, k) <==> m.haveGeneration && events[k].sample.generation < m.generation
  {
    HighWater(events, k);
  }

  /** Late samples change nothing: the monitor ends where it would have without them. */
  lemma {:induction false} StaleSamplesDoNotMatter(events: seq<Event>, n: nat)
    requires n <= |events|
    ensures After(events[..n]) == After(WithoutStale(events, n))
  {
    if n > 0 {
      var k := n - 1;
      StaleSamplesDoNotMatter(events, k);
      AfterNext(events, k);
      if events[k].Sample? {
        StaleIff(events, k);
      }
      var kept := WithoutStale(events, k);
      assert (kept + [events[k]])[..|kept|] == kept;
    }
  }

  /** And a late sample signals nothing. */
  lemma {:induction false} StaleSamplesAreSilent(events: seq<Event>, k: nat)
    requires k < |events| && Stale(events, k)
    ensures SignalAt(events, k) == NoSignal
  {
    StaleIff(events, k);
  }

  // ----- What stands, and what is announced -----

  /** Sample `k` is the first heard of its recording. */
  ghost predicate OpensRecording(events: seq<Event>, k: nat)
    requires k < |events|
  {
    && events[k].Sample?
    && forall j :: 0 <= j < k && events[j].Sample? ==> events[j].sample.generation < events[k].sample.generation
  }

  /** Sample `l` is the last one heard among the first `n`, and no reset followed it. */
  ghost predicate LastHeard(events: seq<Event>, l: nat, n: nat)
    requires n <= |events|
  {
    && l < n && events[l].Sample? && !Stale(events, l)
    && forall j :: l < j < n ==> Stale(events, j)
  }

  /** The latch is what the last heard sample reported, and empty when there is none since a reset. */
  ghost predicate LatchSays(events: seq<Event>, n: nat, m: MonitorState)
    requires n <= |events|
  {
    && (forall l: nat :: LastHeard(events, l, n) ==> m.latch == LevelsOf(events[l].sample))
    && ((forall l: nat :: !LastHeard(events, l, n)) ==> m.latch == HEALTHY)
  }

  lemma {:induction false} LastHeardNext(events: seq<Event>, l: nat, k: nat)
    requires k < |events|
    ensures LastHeard(events, l, k + 1) <==>
              if Stale(events, k) then LastHeard(events, l, k) else l == k && events[k].Sample?
  {
    hide Stale;
    if l < k && LastHeard(events, l, k + 1) {
      assert Stale(events, k);
    }
  }

  lemma {:induction false} LastHeardIsPast(events: seq<Event>, l: nat, n: nat)
    requires n <= |events| && LastHeard(events, l, n)
    ensures l < n && events[l].Sample?
  {
  }

  lemma {:induction false} StaleIsASample(events: seq<Event>, k: nat)
    requires k < |events| && Stale(events, k)
    ensures events[k].Sample?
  {
  }

  lemma {:induction false} LatchIsTheLastHeard(events: seq<Event>, n: nat)
    requires n <= |events|
    ensures LatchSays(events, n, After(events[..n]))
  {
    hide Stale, LastHeard;
    if n == 0 {
      NothingHeard(events);
    } else {
      var k := n - 1;
      LatchIsTheLastHeard(events, k);
      AfterNext(events, k);
      if events[k].Sample? {
        StaleIff(events, k);
      }
      if Stale(events, k) {
        StaleIsASample(events, k);
        if l: nat :| LastHeard(events, l, k) {
          LastHeardNext(events, l, k);
        }
      }
      forall l: nat | LastHeard(events, l, n)
        ensures l < n && events[l].Sample? && After(events[..n]).latch == LevelsOf(events[l].sample)
      {
        LastHeardNext(events, l, k);
        LastHeardIsPast(events, l, n);
      }
      LastHeardNext(events, k, k);
    }
  }

  lemma {:induction false} NothingHeard(events: seq<Event>)
    ensures forall l: nat :: !LastHeard(events, l, 0)
  {
  }

  /** The levels a sample is compared with: nothing stands at the start of a recording. */
  ghost function StandingAt(events: seq<Event>, k: nat): Levels
    requires k < |events|
  {
    if OpensRecording(events, k) then HEALTHY else After(events[..k]).latch
  }

  lemma {:induction false} OpensIff(events: seq<Event>, k: nat)
    requires k < |events| && events[k].Sample?
    ensures var m := After(events[..k]);
            OpensRecording(events, k) <==> !m.haveGeneration || events[k].sample.generation > m.generation
  {
    HighWater(events, k);
  }

  /** A change of the standing set is announced once, and nothing else is. */
  lemma {:induction false} AnnouncedIff(events: seq<Event>, k: nat)
    requires k < |events| && events[k].Sample? && !Stale(events, k)
    ensures var now := LevelsOf(events[k].sample);
            && (SignalAt(events, k) == Raise <==> now.sources > 0 && now != StandingAt(events, k))
            && (SignalAt(events, k) == Clear <==> now.sources == 0 && now != StandingAt(events, k))
    ensures After(events[..k + 1]).latch == LevelsOf(events[k].sample)
  {
    StaleIff(events, k);
    OpensIff(events, k);
    AfterNext(events, k);
    LatchIsSane(events, k);
  }

  /** No kinds stand without a source. */
  lemma {:induction false} LatchIsSane(events: seq<Event>, n: nat)
    requires n <= |events|
    ensures After(events[..n]).latch.sources == 0 ==> After(events[..n]).latch == HEALTHY
  {
    if n > 0 {
      LatchIsSane(events, n - 1);
      AfterNext(events, n - 1);
    }
  }

  // ----- Episodes -----

  /** The changes from healthy to degraded among the samples heard since the recording opened or was reset. */
  ghost function Outages(events: seq<Event>, n: nat): nat
    requires n <= |events|
  {
    if n == 0 || events[n - 1].Reset? then 0
    else if Stale(events, n - 1) then Outages(events, n - 1)
    else
      var earlier := if OpensRecording(events, n - 1) then 0 else Outages(events, n - 1);
      var begins := StandingAt(events, n - 1).sources == 0 && LevelsOf(events[n - 1].sample).sources > 0;
      if begins then earlier + 1 else earlier
  }

  lemma {:induction false} EpisodesAreOutages(events: seq<Event>, n: nat)
    requires n <= |events|
    ensures After(events[..n]).reportedEpisodes == Outages(events, n)
  {
    hide Stale, OpensRecording;
    if n > 0 {
      var k := n - 1;
      EpisodesAreOutages(events, k);
      AfterNext(events, k);
      LatchIsSane(events, k);
      if events[k].Sample? {
        StaleIff(events, k);
        OpensIff(events, k);
      }
      if Stale(events, k) {
        StaleIsASample(events, k);
      }
    }
  }

  /** Sample `k` opens another recording than those heard before it. */
  ghost predicate OpensAnother(events: seq<Event>, k: nat)
    requires k < |events|
  {
    OpensRecording(events, k) && exists j :: 0 <= j < k && events[j].Sample?
  }

  /** The first sample of another recording never clears what stood for the last one: it raises what it
      reports, if anything, and the old outage is dropped without a word. */
  lemma {:induction false} OpeningNeverClears(events: seq<Event>, k: nat)
    requires k < |events| && OpensAnother(events, k)
    ensures SignalAt(events, k) == if LevelsOf(events[k].sample).sources > 0 then Raise else NoSignal
    ensures After(events[..k + 1]).latch == LevelsOf(events[k].sample)
  {
    HighWater(events, k);
    OpensIff(events, k);
    AfterNext(events, k);
  }

  /** Fed two recordings back to back, the monitor gives no Clear at all. */
  lemma {:induction false} NewSessionGivesNoClear()
    ensures var events := [Sample(AudioSample(1, true, Recording, true, 1, 1)),
                           Sample(AudioSample(2, true, Recording, false, 0, 0))];
            && SignalAt(events, 0) == Raise && SignalAt(events, 1) == NoSignal
            && After(events[..1]).latch == Levels(1, 1) && After(events).latch == HEALTHY
  {
    var events := [Sample(AudioSample(1, true, Recording, true, 1, 1)),
                   Sample(AudioSample(2, true, Recording, false, 0, 0))];
    assert events[..2] == events && events[..1] == [events[0]] && events[..0] == [];
    AfterNext(events, 0);
    AfterNext(events, 1);
  }
}

/**
 The evidence the window probe accumulates (app/diagnostics/WindowEvidenceAccumulator.cpp), read off
 the samples it was fed, and what a proven-black verdict on it means.
 */
module WindowEvidence {
  import opened EngineTypes
  import opened WindowTargetFacts

  datatype AccumulatorState = AccumulatorState(
    started: bool, subscribedAt: real, lastKind: HubFrameKind, lastGeneration: nat, hadFreshFrame: bool,
    lastFreshFrame: real, fullscreenShape: bool, freshSinceShape: bool)

  const NEVER_STARTED := AccumulatorState(false, 0.0, NoFrame, 0, false, 0.0, false, false)

  function SubscribedAt(now: real): AccumulatorState {
    AccumulatorState(true, now, NoFrame, 0, false, now, false, false)
  }

  function Updated(m: AccumulatorState, now: real, kind: HubFrameKind, generation: nat, shape: WindowShape)
    : AccumulatorState
  {
    var a := if m.started then m else SubscribedAt(now);
    var armed := shape.FullscreenShaped? && !a.fullscreenShape;
    var isNew := generation != 0 && generation != a.lastGeneration;
    a.(lastKind := kind,
    fullscreenShape := shape.FullscreenShaped?,
    lastGeneration := if isNew then generation else a.lastGeneration,
    hadFreshFrame := isNew || a.hadFreshFrame,
    lastFreshFrame := if isNew then now else a.lastFreshFrame,
    freshSinceShape := (isNew && shape.FullscreenShaped?) || (a.freshSinceShape && !armed))
  }

  function EvidenceOf(m: AccumulatorState, now: real): HubEvidence {
    var subscribed := if m.started then now - m.subscribedAt else 0.0;
    HubEvidence(m.lastKind, subscribed, if m.hadFreshFrame then now - m.lastFreshFrame else subscribed,
                m.freshSinceShape)
  }

  // ----- Traces -----

  datatype Event = Reset(at: real) | Update(at: real, kind: HubFrameKind, generation: nat, shape: WindowShape)

  function After(events: seq<Event>): AccumulatorState {
    if events == [] then NEVER_STARTED
    else
      var before, e := After(events[..|events| - 1]), events[|events| - 1];
      match e
      case Reset(at) => SubscribedAt(at)
      case Update(at, kind, generation, shape) => Updated(before, at, kind, generation, shape)
  }

  lemma {:induction false} AfterNext(events: seq<Event>, k: nat)
    requires k < |events|
    ensures After(events[..k + 1])
         == match events[k]
            case Reset(at) => SubscribedAt(at)
            case Update(at, kind, generation, shape) => Updated(After(events[..k]), at, kind, generation, shape)
  {
    assert events[..k + 1][..k] == events[..k];
  }

  // ----- The declarative reading of a trace -----

  /** The subscription current after the first `n` events began at event `s`. */
  ghost predicate Starts(events: seq<Event>, n: nat, s: nat)
    requires n <= |events|
  {
    s < n && (events[s].Reset? || s == 0) && forall j :: s < j < n ==> !events[j].Reset?
  }

  /** No reset follows event `j` among the first `n`. */
  ghost predicate Current(events: seq<Event>, j: nat, n: nat)
    requires n <= |events|
  {
    j < n && forall i :: j < i < n ==> !events[i].Reset?
  }

  /** Sample `k` brought a frame not seen before: its generation is not that of the last sample of the
      subscription that carried one. */
  ghost predicate FreshAt(events: seq<Event>, k: nat)
    requires k < |events|
  {
    && events[k].Update? && events[k].generation != 0
    && forall j: nat :: LastNumbered(events, j, k) ==> events[j].generation != events[k].generation
  }

  /** Sample `j` is the last before `n` in the subscription that carried a generation. */
  ghost predicate LastNumbered(events: seq<Event>, j: nat, n: nat)
    requires n <= |events|
  {
    && Current(events, j, n) && events[j].Update? && events[j].generation != 0
    && forall i :: j < i < n && events[i].Update? ==> events[i].generation == 0
  }

  predicate InFullscreen(e: Event) {
    e.Update? && e.shape.FullscreenShaped?
  }

  /** Sample `e` is where the window became fullscreen-shaped. */
  ghost predicate EntersFullscreen(events: seq<Event>, e: nat)
    requires e < |events|
  {
    InFullscreen(events[e]) && (e == 0 || !InFullscreen(events[e - 1]))
  }

  /** A frame came while the window was in its latest fullscreen stretch of the subscription. */
  ghost predicate FreshInLatestStretch(events: seq<Event>, n: nat)
    requires n <= |events|
  {
    exists k: nat :: FreshInStretch(events, k, n)
  }

  ghost predicate FreshInStretch(events: seq<Event>, k: nat, n: nat)
    requires n <= |events|
  {
    && Current(events, k, n) && FreshAt(events, k) && InFullscreen(events[k])
    && forall e :: k < e < n ==> !EntersFullscreen(events, e)
  }

  /** Sample `k` brought the last new frame of the subscription. */
  ghost predicate LastFresh(events: seq<Event>, k: nat, n: nat)
    requires n <= |events|
  {
    Current(events, k, n) && FreshAt(events, k) && forall j :: k < j < n ==> !FreshAt(events, j)
  }

  /** The fields, read off the trace. */
  ghost predicate Reads(events: seq<Event>, n: nat, m: AccumulatorState)
    requires n <= |events|
  {
    && (m.started <==> n > 0) && (n == 0 ==> m == NEVER_STARTED)
    && (forall s: nat :: Starts(events, n, s) ==> m.subscribedAt == events[s].at)
    && m.lastKind == (if n > 0 && events[n - 1].Update? then events[n - 1].kind else NoFrame)
    && (m.fullscreenShape <==> n > 0 && InFullscreen(events[n - 1]))
    && (m.lastGeneration != 0 <==> exists j: nat :: LastNumbered(events, j, n))
    && (forall j: nat :: LastNumbered(events, j, n) ==> m.lastGeneration == events[j].generation)
    && (m.hadFreshFrame <==> exists k: nat :: LastFresh(events, k, n))
    && (forall k: nat :: LastFresh(events, k, n) ==> m.lastFreshFrame == events[k].at)
    && (m.freshSinceShape <==> FreshInLatestStretch(events, n))
  }

  lemma {:induction false} CurrentNext(events: seq<Event>, j: nat, k: nat)
    requires k < |events|
    ensures Current(events, j, k + 1) <==> j == k || (events[k].Update? && Current(events, j, k))
  {
  }

  lemma {:induction false} LastNumberedNext(events: seq<Event>, j: nat, k: nat)
    requires k < |events|
    ensures LastNumbered(events, j, k + 1) <==>
              events[k].Update? && if events[k].generation != 0 then j == k else LastNumbered(events, j, k)
  {
    hide Current;
    CurrentNext(events, j, k);
    if j < k && LastNumbered(events, j, k + 1) {
      assert events[k].Update? ==> events[k].generation == 0;
      assert Current(events, j, k + 1);
    }
    if LastNumbered(events, j, k) {
      CurrentIsPast(events, j, k);
    }
    if LastNumbered(events, j, k + 1) {
      CurrentIsPast(events, j, k + 1);
    }
  }

  lemma {:induction false} CurrentIsPast(events: seq<Event>, j: nat, n: nat)
    requires n <= |events| && Current(events, j, n)
    ensures j < n && (j < n - 1 ==> events[n - 1].Update?)
  {
  }

  lemma {:induction false} LastFreshNext(events: seq<Event>, j: nat, k: nat)
    requires k < |events|
    ensures LastFresh(events, j, k + 1) <==>
              events[k].Update? && if FreshAt(events, k) then j == k else LastFresh(events, j, k)
  {
    hide Current, FreshAt;
    CurrentNext(events, j, k);
    OnlyUpdatesAreFresh(events, k);
    if LastFresh(events, j, k) {
      CurrentIsPast(events, j, k);
    }
    if LastFresh(events, j, k + 1) {
      CurrentIsPast(events, j, k + 1);
      assert j < k ==> !FreshAt(events, k);
    }
  }

  lemma {:induction false} OnlyUpdatesAreFresh(events: seq<Event>, k: nat)
    requires k < |events|
    ensures FreshAt(events, k) ==> events[k].Update? && events[k].generation != 0
  {
  }

  lemma {:induction false} FreshInStretchNext(events: seq<Event>, j: nat, k: nat)
    requires k < |events|
    ensures FreshInStretch(events, j, k + 1) <==>
              || (j == k && FreshAt(events, k) && InFullscreen(events[k]))
              || (events[k].Update? && FreshInStretch(events, j, k) && !EntersFullscreen(events, k))
  {
    hide Current, FreshAt, EntersFullscreen;
    CurrentNext(events, j, k);
    OnlyUpdatesAreFresh(events, k);
    if FreshInStretch(events, j, k) {
      CurrentIsPast(events, j, k);
    }
    if FreshInStretch(events, j, k + 1) {
      CurrentIsPast(events, j, k + 1);
    }
  }

  /** A sample's two tests, in terms of the trace. */
  lemma {:induction false} TestsOfAnUpdate(events: seq<Event>, k: nat, m: AccumulatorState)
    requires k < |events| && events[k].Update? && Reads(events, k, m)
    ensures FreshAt(events, k) <==> events[k].generation != 0 && events[k].generation != m.lastGeneration
    ensures EntersFullscreen(events, k) <==> events[k].shape.FullscreenShaped? && !m.fullscreenShape
  {
    hide Starts, LastNumbered, LastFresh, FreshInStretch;
  }

  lemma {:induction false} StartsNext(events: seq<Event>, k: nat, m: AccumulatorState)
    requires k < |events| && Reads(events, k, m)
    ensures forall s: nat :: Starts(events, k + 1, s) ==>
              (events[s].at == if events[k].Reset? || k == 0 then events[k].at else m.subscribedAt)
  {
    forall s: nat | Starts(events, k + 1, s)
      ensures events[s].at == if events[k].Reset? || k == 0 then events[k].at else m.subscribedAt
    {
      assert s < k ==> !events[k].Reset? && Starts(events, k, s);
    }
  }

  lemma {:induction false} ReadsNext(events: seq<Event>, k: nat, m: AccumulatorState, t: AccumulatorState)
    requires k < |events| && Reads(events, k, m)
    requires t == match events[k]
                  case Reset(at) => SubscribedAt(at)
                  case Update(at, kind, generation, shape) => Updated(m, at, kind, generation, shape)
    ensures Reads(events, k + 1, t)
  {
    hide Starts, LastNumbered, LastFresh, FreshInStretch, FreshAt, EntersFullscreen;
    var n := k + 1;
    OnlyUpdatesAreFresh(events, k);
    if events[k].Update? {
      TestsOfAnUpdate(events, k, m);
    }
    StartsNext(events, k, m);
    NumberedAgain(events, k, n);
    FreshAgain(events, k, n);
    StretchAgain(events, k, n);
  }

  lemma {:induction false} NumberedAgain(events: seq<Event>, k: nat, n: nat)
    requires n == k + 1 <= |events|
    ensures (exists j: nat :: LastNumbered(events, j, n)) <==>
              events[k].Update? && (events[k].generation != 0 || exists j: nat :: LastNumbered(events, j, k))
    ensures forall j: nat :: LastNumbered(events, j, n) ==>
              if events[k].Update? && events[k].generation != 0 then j == k else LastNumbered(events, j, k)
  {
    hide LastNumbered;
    forall j: nat | LastNumbered(events, j, n)
      ensures events[k].Update?
              && if events[k].generation != 0 then j == k else LastNumbered(events, j, k)
    {
      LastNumberedNext(events, j, k);
    }
    LastNumberedNext(events, k, k);
    if j: nat :| LastNumbered(events, j, k) {
      LastNumberedNext(events, j, k);
    }
  }

  lemma {:induction false} FreshAgain(events: seq<Event>, k: nat, n: nat)
    requires n == k + 1 <= |events|
    ensures (exists j: nat :: LastFresh(events, j, n)) <==>
              events[k].Update? && (FreshAt(events, k) || exists j: nat :: LastFresh(events, j, k))
    ensures forall j: nat :: LastFresh(events, j, n) ==>
              if FreshAt(events, k) then j == k else LastFresh(events, j, k)
  {
    hide LastFresh, FreshAt;
    OnlyUpdatesAreFresh(events, k);
    forall j: nat | LastFresh(events, j, n)
      ensures if FreshAt(events, k) then j == k else LastFresh(events, j, k)
    {
      LastFreshNext(events, j, k);
    }
    LastFreshNext(events, k, k);
    if j: nat :| LastFresh(events, j, k) {
      LastFreshNext(events, j, k);
    }
    if j: nat :| LastFresh(events, j, n) {
      LastFreshNext(events, j, k);
    }
  }

  lemma {:induction false} StretchAgain(events: seq<Event>, k: nat, n: nat)
    requires n == k + 1 <= |events|
    ensures FreshInLatestStretch(events, n) <==>
              || (FreshAt(events, k) && InFullscreen(events[k]))
              || (events[k].Update? && FreshInLatestStretch(events, k) && !EntersFullscreen(events, k))
  {
    hide FreshInStretch, FreshAt, EntersFullscreen;
    FreshInStretchNext(events, k, k);
    if j: nat :| FreshInStretch(events, j, k) {
      FreshInStretchNext(events, j, k);
    }
    if j: nat :| FreshInStretch(events, j, n) {
      FreshInStretchNext(events, j, k);
    }
  }

  /** After any trace the fields are what the trace says. */
  lemma {:induction false} AlwaysReads(events: seq<Event>, n: nat)
    requires n <= |events|
    ensures Reads(events, n, After(events[..n]))
  {
    if n > 0 {
      AlwaysReads(events, n - 1);
      AfterNext(events, n - 1);
      ReadsNext(events, n - 1, After(events[..n - 1]), After(events[..n]));
    }
  }

  // ----- The verdict -----

  /** The clock does not go back, and the question is asked now. */
  ghost predicate Steady(events: seq<Event>, now: real) {
    && (forall i, j :: 0 <= i <= j < |events| ==> events[i].at <= events[j].at)
    && (forall i :: 0 <= i < |events| ==> events[i].at <= now)
  }

  ghost predicate SubscribedFor(events: seq<Event>, now: real, d: real) {
    exists s: nat :: Starts(events, |events|, s) && now - events[s].at >= d
  }

  /** The subscription is at least `d` old and none of its new frames came in the last `d`. */
  ghost predicate QuietFor(events: seq<Event>, now: real, d: real) {
    && SubscribedFor(events, now, d)
    && forall k: nat :: k < |events| && Current(events, k, |events|) && FreshAt(events, k) ==> now - events[k].at >= d
  }

  function LatestKind(events: seq<Event>): HubFrameKind {
    if events != [] && events[|events| - 1].Update? then events[|events| - 1].kind else NoFrame
  }

  lemma {:induction false} SomethingStarts(events: seq<Event>, n: nat) returns (s: nat)
    requires 0 < n <= |events|
    ensures Starts(events, n, s)
  {
    if n == 1 || events[n - 1].Reset? {
      s := n - 1;
    } else {
      s := SomethingStarts(events, n - 1);
    }
  }

  lemma {:induction false} SomethingIsLast(events: seq<Event>, k: nat, n: nat) returns (l: nat)
    requires n <= |events| && Current(events, k, n) && FreshAt(events, k)
    ensures k <= l && LastFresh(events, l, n)
    decreases n - k
  {
    hide FreshAt;
    if j: nat :| k < j < n && FreshAt(events, j) {
      assert Current(events, j, n);
      l := SomethingIsLast(events, j, n);
    } else {
      l := k;
    }
  }

  lemma {:induction false} StartsBefore(events: seq<Event>, s: nat, k: nat, n: nat)
    requires n <= |events| && Starts(events, n, s) && Current(events, k, n)
    ensures s <= k
  {
  }

  /** The probe's two clocks: how old the subscription is, and how long no new frame came. */
  lemma {:induction false} ClocksMean(events: seq<Event>, now: real, d: real)
    requires Steady(events, now) && d > 0.0
    ensures EvidenceOf(After(events), now).secondsSubscribed >= d <==> SubscribedFor(events, now, d)
    ensures EvidenceOf(After(events), now).secondsSinceFreshFrame >= d <==> QuietFor(events, now, d)
  {
    hide Starts, Current, FreshAt, LastFresh, LastNumbered, FreshInLatestStretch;
    var n, m := |events|, After(events);
    assert events[..n] == events;
    AlwaysReads(events, n);
    if n > 0 {
      var s := SomethingStarts(events, n);
      StartIsEarlier(events, s, n);
      forall k: nat | k < n && Current(events, k, n) && FreshAt(events, k)
        ensures exists l: nat :: l < n && LastFresh(events, l, n) && events[s].at <= events[k].at <= events[l].at
      {
        var l := SomethingIsLast(events, k, n);
        StartsBefore(events, s, k, n);
        LastIsFresh(events, l, n);
      }
      if l: nat :| LastFresh(events, l, n) {
        LastIsFresh(events, l, n);
      }
    } else {
      NothingYet(events);
    }
  }

  lemma {:induction false} StartIsEarlier(events: seq<Event>, s: nat, n: nat)
    requires n <= |events| && Starts(events, n, s)
    ensures s < n
  {
  }

  lemma {:induction false} LastIsFresh(events: seq<Event>, l: nat, n: nat)
    requires n <= |events| && LastFresh(events, l, n)
    ensures l < n && Current(events, l, n) && FreshAt(events, l)
  {
  }

  lemma {:induction false} NothingYet(events: seq<Event>)
    requires events == []
    ensures forall s: nat :: !Starts(events, 0, s)
  {
  }

  /** Capture has shown nothing of the window: nothing at all was there at the latest look, two seconds or more
      into the subscription; or a stale frame was, none came in its latest fullscreen stretch, and none in the
      last two seconds. */
  ghost predicate ShownNothing(events: seq<Event>, now: real) {
    || (LatestKind(events).NoFrame? && SubscribedFor(events, now, 2.0))
    || (LatestKind(events).Held? && !FreshInLatestStretch(events, |events|) && QuietFor(events, now, 2.0))
  }

  /** A window is proven black exactly when it looks fullscreen and capture has shown nothing of it, and
      suspected exactly when it looks fullscreen, is not proven black, and something signals fullscreen. */
  lemma {:induction false} ProvenBlackIff(events: seq<Event>, now: real, facts: TargetFacts, present: bool)
    requires Steady(events, now)
    ensures var evidence := ResolveExclusiveEvidence(facts, EvidenceOf(After(events), now), present);
            && (evidence.ProvenBlack? <==> LooksFullscreen(facts) && ShownNothing(events, now))
            && (evidence.Suspected? <==>
                  && LooksFullscreen(facts) && !ShownNothing(events, now)
                  && (facts.qunsD3dFullscreen || present))
  {
    hide FreshInLatestStretch, SubscribedFor, QuietFor, Starts, LastNumbered, LastFresh;
    hide ClassifyWindowShape, LooksFullscreen;
    assert events[..|events|] == events;
    AlwaysReads(events, |events|);
    ClocksMean(events, now, 2.0);
    FullscreenShapedIff(facts);
  }

  /** A frame that arrived while the window was in its latest fullscreen stretch rules a freeze out for as
      long as the stretch lasts, however long it then stays still. */
  lemma {:induction false} StillPictureIsNotBlack(events: seq<Event>, now: real, facts: TargetFacts, present: bool)
    requires Steady(events, now) && LatestKind(events).Held? && FreshInLatestStretch(events, |events|)
    ensures !ResolveExclusiveEvidence(facts, EvidenceOf(After(events), now), present).ProvenBlack?
  {
    ProvenBlackIff(events, now, facts, present);
  }

  // ----- The accumulator itself -----

  class WindowEvidenceAccumulator {
    var started: bool
    var subscribedAt: real
    var lastKind: HubFrameKind
    var lastGeneration: nat
    var hadFreshFrame: bool
    var lastFreshFrame: real
    var fullscreenShape: bool
    var freshSinceShape: bool
    // Everything it was told.
    ghost var events: seq<Event>

    constructor ()
      ensures Valid() && events == []
    {
      started, subscribedAt, lastKind, lastGeneration := false, 0.0, NoFrame, 0;
      hadFreshFrame, lastFreshFrame, fullscreenShape, freshSinceShape := false, 0.0, false, false;
      events := [];
    }

    ghost function State(): AccumulatorState
      reads this
    {
      AccumulatorState(started, subscribedAt, lastKind, lastGeneration, hadFreshFrame, lastFreshFrame,
                       fullscreenShape, freshSinceShape)
    }

    /** The fields are those the events call for. */
    ghost predicate Valid()
      reads this
    {
      State() == After(events)
    }

    method Reset(now: real)
      modifies this
      ensures Valid() && events == old(events) + [Event.Reset(now)]
    {
      started, subscribedAt, lastKind, lastGeneration := true, now, NoFrame, 0;
      hadFreshFrame, lastFreshFrame, fullscreenShape, freshSinceShape := false, now, false, false;
      events := events + [Event.Reset(now)];
      AfterSnoc(old(events), Event.Reset(now));
    }

    method Update(now: real, kind: HubFrameKind, generation: nat, shape: WindowShape)
      requires Valid()
      modifies this
      ensures Valid() && events == old(events) + [Event.Update(now, kind, generation, shape)]
    {
      hide After;
      AfterSnoc(events, Event.Reset(now));
      if !started {
        Reset(now);
      }
      lastKind := kind;
      var nowFullscreen := shape.FullscreenShaped?;
      if nowFullscreen && !fullscreenShape {
        freshSinceShape := false;
      }
      fullscreenShape := nowFullscreen;
      if generation != 0 && generation != lastGeneration {
        lastGeneration, hadFreshFrame, lastFreshFrame := generation, true, now;
        if fullscreenShape {
          freshSinceShape := true;
        }
      }
      // The subscription this sample may have begun is part of the sample.
      events := old(events) + [Event.Update(now, kind, generation, shape)];
      AfterSnoc(old(events), Event.Update(now, kind, generation, shape));
    }

    /** The latest kind; whether a new frame came in the latest fullscreen stretch; and two clocks that have
        run for `d` exactly when the subscription is that old, and when no new frame came for that long. */
    method Evidence(now: real) returns (e: HubEvidence)
      requires Valid()
      ensures e == EvidenceOf(After(events), now)
      ensures e.kind == LatestKind(events)
      ensures e.freshFrameSinceFullscreenShape <==> FreshInLatestStretch(events, |events|)
      ensures Steady(events, now) ==> forall d: real :: d > 0.0 ==>
                (e.secondsSubscribed >= d <==> SubscribedFor(events, now, d))
      ensures Steady(events, now) ==> forall d: real :: d > 0.0 ==>
                (e.secondsSinceFreshFrame >= d <==> QuietFor(events, now, d))
    {
      hide FreshInLatestStretch, SubscribedFor, QuietFor;
      var subscribed := if started then now - subscribedAt else 0.0;
      e := HubEvidence(lastKind, subscribed, if hadFreshFrame then now - lastFreshFrame else subscribed,
                       freshSinceShape);
      assert events[..|events|] == events;
      AlwaysReads(events, |events|);
      if Steady(events, now) {
        forall d: real | d > 0.0
          ensures e.secondsSubscribed >= d <==> SubscribedFor(events, now, d)
          ensures e.secondsSinceFreshFrame >= d <==> QuietFor(events, now, d)
        {
          ClocksMean(events, now, d);
        }
      }
    }
  }

  lemma {:induction false} AfterSnoc(events: seq<Event>, e: Event)
    ensures After(events + [e])
         == match e
            case Reset(at) => SubscribedAt(at)
            case Update(at, kind, generation, shape) => Updated(After(events), at, kind, generation, shape)
  {
    assert (events + [e])[..|events|] == events;
  }
}

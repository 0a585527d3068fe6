/**
 The drops the capture card counts between two snapshots (PipelineCardBuilder in
 app/diagnostics/DiagnosticsController.cpp).
 */
module PipelineDrops {
  const UINT32_RANGE: nat := 0x1_0000_0000

  /** A snapshot, reduced to its session and the session's cumulative frame loss. */
  datatype Snapshot = Snapshot(generation: nat, loss: nat)

  datatype Baseline = Baseline(seeded: bool, generation: nat, loss: nat, recent: nat)

  const UNSEEDED := Baseline(false, 0, 0, 0)

  function Built(b: Baseline, s: Snapshot): Baseline {
    var from := if !b.seeded || s.generation != b.generation then s.loss else b.loss;
    Baseline(true, s.generation, s.loss, if s.loss > from then (s.loss - from) % UINT32_RANGE else 0)
  }

  class PipelineCardBuilder {
    var lastGeneration: nat
    var lastProblemDrops: nat
    var lastRecentDrops: nat
    var seeded: bool

    constructor ()
      ensures State() == UNSEEDED
    {
      lastGeneration, lastProblemDrops, lastRecentDrops, seeded := 0, 0, 0, false;
    }

    ghost function State(): Baseline
      reads this
    {
      Baseline(seeded, lastGeneration, lastProblemDrops, lastRecentDrops)
    }

    method Reset()
      modifies this
      ensures State() == UNSEEDED
    {
      lastGeneration, lastProblemDrops, lastRecentDrops, seeded := 0, 0, 0, false;
    }

    method BuildLive(s: Snapshot) returns (captureRecentDrops: nat)
      modifies this
      ensures State() == Built(old(State()), s) && captureRecentDrops == State().recent
    {
      if !seeded || s.generation != lastGeneration {
        seeded, lastGeneration, lastProblemDrops := true, s.generation, s.loss;
      }
      captureRecentDrops := if s.loss > lastProblemDrops then (s.loss - lastProblemDrops) % UINT32_RANGE else 0;
      lastProblemDrops := s.loss;
      lastRecentDrops := captureRecentDrops;
    }
  }

  function After(snapshots: seq<Snapshot>): Baseline {
    if snapshots == [] then UNSEEDED
    else Built(After(snapshots[..|snapshots| - 1]), snapshots[|snapshots| - 1])
  }

  /** All the drops the cards showed over a stretch of snapshots. */
  ghost function Shown(snapshots: seq<Snapshot>, first: nat, n: nat): nat
    requires first < n <= |snapshots|
    decreases n
  {
    if n == first + 1 then 0 else Shown(snapshots, first, n - 1) + After(snapshots[..n]).recent
  }

  lemma {:induction false} AfterNext(snapshots: seq<Snapshot>, k: nat)
    requires k < |snapshots|
    ensures After(snapshots[..k + 1]) == Built(After(snapshots[..k]), snapshots[k])
    ensures var b := After(snapshots[..k + 1]);
            b.seeded && b.generation == snapshots[k].generation && b.loss == snapshots[k].loss
  {
    assert snapshots[..k + 1][..k] == snapshots[..k];
  }

  /** The first snapshot of a session shows no drops: what was lost before it is the baseline. */
  lemma {:induction false} OpeningShowsNone(snapshots: seq<Snapshot>, k: nat)
    requires k < |snapshots|
    requires k == 0 || snapshots[k - 1].generation != snapshots[k].generation
    ensures After(snapshots[..k + 1]).recent == 0
  {
    AfterNext(snapshots, k);
    if k > 0 {
      AfterNext(snapshots, k - 1);
    }
  }

  ghost predicate OneSession(snapshots: seq<Snapshot>, first: nat, n: nat)
    requires first < n <= |snapshots|
  {
    && (forall j :: first <= j < n ==> snapshots[j].generation == snapshots[first].generation)
    && (forall j :: first < j < n ==> snapshots[j - 1].loss <= snapshots[j].loss)
  }

  /** No step of the stretch outruns the card's counter. */
  ghost predicate StepsFit(snapshots: seq<Snapshot>, first: nat, n: nat)
    requires first < n <= |snapshots|
  {
    forall j :: first < j < n ==> snapshots[j].loss - snapshots[j - 1].loss < 0x1_0000_0000
  }

  lemma {:induction false} RemainderFits(step: nat)
    ensures step % UINT32_RANGE <= step
    ensures step % UINT32_RANGE == step <==> step < UINT32_RANGE
  {
  }

  lemma {:induction false} StepShown(snapshots: seq<Snapshot>, k: nat)
    requires 0 < k < |snapshots|
    requires snapshots[k - 1].generation == snapshots[k].generation && snapshots[k - 1].loss <= snapshots[k].loss
    ensures After(snapshots[..k + 1]).recent == (snapshots[k].loss - snapshots[k - 1].loss) % UINT32_RANGE
  {
    AfterNext(snapshots, k);
    AfterNext(snapshots, k - 1);
  }

  /** The drops shown never exceed the loss of the stretch, and they are all of it exactly when no step
      outran the card's 32-bit counter. */
  lemma {:induction false} DropsTelescope(snapshots: seq<Snapshot>, first: nat, n: nat)
    requires first < n <= |snapshots| && OneSession(snapshots, first, n)
    ensures Shown(snapshots, first, n) <= snapshots[n - 1].loss - snapshots[first].loss
    ensures Shown(snapshots, first, n) == snapshots[n - 1].loss - snapshots[first].loss <==>
              StepsFit(snapshots, first, n)
    decreases n
  {
    hide After;
    if n > first + 1 {
      var k := n - 1;
      DropsTelescope(snapshots, first, k);
      StepShown(snapshots, k);
      RemainderFits(snapshots[k].loss - snapshots[k - 1].loss);
      assert StepsFit(snapshots, first, n) <==>
             StepsFit(snapshots, first, k) && snapshots[k].loss - snapshots[k - 1].loss < UINT32_RANGE;
    }
  }

  /** A step of exactly 2^32 lost frames shows none. */
  lemma {:induction false} ALargeStepIsLost()
    ensures var snapshots := [Snapshot(1, 0), Snapshot(1, 0x1_0000_0000)];
            OneSession(snapshots, 0, 2) && Shown(snapshots, 0, 2) == 0
  {
    var snapshots := [Snapshot(1, 0), Snapshot(1, 0x1_0000_0000)];
    StepShown(snapshots, 1);
    assert snapshots[..2] == snapshots;
  }
}

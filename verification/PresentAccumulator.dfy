/** The running totals of one attribution window (app/diagnostics/PresentAccumulator.h). */
module PresentAccumulator {

  datatype PresentMode = Unknown | Composed | IndependentFlip | ExclusiveFullscreen

  datatype Totals = Totals(presentCount: nat, discardedCount: nat, modeFlipCount: nat, lastMode: PresentMode)

  const NO_TOTALS := Totals(0, 0, 0, Unknown)

  /** One classified present, and whether the compositor discarded it. */
  datatype Present = Present(mode: PresentMode, discarded: bool)

  function Folded(t: Totals, p: Present): Totals {
    Totals(
      t.presentCount + 1,
      if p.discarded then t.discardedCount + 1 else t.discardedCount,
      if t.lastMode != Unknown && p.mode != Unknown && p.mode != t.lastMode then t.modeFlipCount + 1
      else t.modeFlipCount,
      if p.mode != Unknown then p.mode else t.lastMode)
  }

  class PresentAccumulator {
    var presentCount: nat
    var discardedCount: nat
    var modeFlipCount: nat
    var lastMode: PresentMode

    constructor ()
      ensures State() == NO_TOTALS
    {
      presentCount, discardedCount, modeFlipCount, lastMode := 0, 0, 0, Unknown;
    }

    ghost function State(): Totals
      reads this
    {
      Totals(presentCount, discardedCount, modeFlipCount, lastMode)
    }

    method Observe(mode: PresentMode, discarded: bool)
      modifies this
      ensures State() == Folded(old(State()), Present(mode, discarded))
    {
      presentCount := presentCount + 1;
      if discarded {
        discardedCount := discardedCount + 1;
      }
      if lastMode != Unknown && mode != Unknown && mode != lastMode {
        modeFlipCount := modeFlipCount + 1;
      }
      if mode != Unknown {
        lastMode := mode;
      }
    }

    method Reset()
      modifies this
      ensures State() == NO_TOTALS
    {
      presentCount, discardedCount, modeFlipCount, lastMode := 0, 0, 0, Unknown;
    }
  }

  // ----- The totals of a whole window -----

  function FoldedAll(presents: seq<Present>): Totals {
    if presents == [] then NO_TOTALS
    else Folded(FoldedAll(presents[..|presents| - 1]), presents[|presents| - 1])
  }

  function CountDiscarded(presents: seq<Present>): nat {
    if presents == [] then 0
    else (if presents[0].discarded then 1 else 0) + CountDiscarded(presents[1..])
  }

  /** The modes that were classified, in order. */
  function Classified(presents: seq<Present>): (modes: seq<PresentMode>)
    ensures Unknown !in modes
  {
    if presents == [] then []
    else (if presents[0].mode == Unknown then [] else [presents[0].mode]) + Classified(presents[1..])
  }

  /** How often neighbours differ. */
  function Flips(modes: seq<PresentMode>): nat {
    if |modes| < 2 then 0 else (if modes[0] != modes[1] then 1 else 0) + Flips(modes[1..])
  }

  lemma {:induction false} CountDiscardedSnoc(presents: seq<Present>, p: Present)
    ensures CountDiscarded(presents + [p]) == CountDiscarded(presents) + if p.discarded then 1 else 0
  {
    if presents == [] {
      assert [p][1..] == [];
    } else {
      assert (presents + [p])[1..] == presents[1..] + [p];
      CountDiscardedSnoc(presents[1..], p);
    }
  }

  lemma {:induction false} ClassifiedSnoc(presents: seq<Present>, p: Present)
    ensures Classified(presents + [p]) == Classified(presents) + if p.mode == Unknown then [] else [p.mode]
  {
    if presents == [] {
      assert [p][1..] == [];
    } else {
      assert (presents + [p])[1..] == presents[1..] + [p];
      ClassifiedSnoc(presents[1..], p);
    }
  }

  lemma {:induction false} FlipsSnoc(modes: seq<PresentMode>, m: PresentMode)
    ensures Flips(modes + [m]) == Flips(modes) + if modes != [] && modes[|modes| - 1] != m then 1 else 0
  {
    if |modes| < 2 {
      if |modes| == 1 {
        assert (modes + [m])[1..] == [m];
      }
    } else {
      assert (modes + [m])[1..] == modes[1..] + [m];
      FlipsSnoc(modes[1..], m);
    }
  }

  /** The running totals are the counts over the window: all presents, the discarded ones, and the
      unequal neighbours among the classified modes. */
  lemma {:induction false} TotalsAreCounts(presents: seq<Present>)
    ensures var t := FoldedAll(presents);
            var modes := Classified(presents);
            && t.presentCount == |presents|
            && t.discardedCount == CountDiscarded(presents)
            && t.modeFlipCount == Flips(modes)
            && t.lastMode == if modes == [] then Unknown else modes[|modes| - 1]
  {
    if presents == [] {
      NothingCounted();
    } else {
      hide CountDiscarded, Classified, Flips, FoldedAll;
      var before, p := presents[..|presents| - 1], presents[|presents| - 1];
      assert presents == before + [p];
      TotalsAreCounts(before);
      FoldedAllSnoc(before, p);
      CountDiscardedSnoc(before, p);
      ClassifiedSnoc(before, p);
      if p.mode == Unknown {
        assert Classified(before) + [] == Classified(before);
      } else {
        FlipsSnoc(Classified(before), p.mode);
      }
    }
  }

  lemma {:induction false} FoldedAllSnoc(presents: seq<Present>, p: Present)
    ensures FoldedAll(presents + [p]) == Folded(FoldedAll(presents), p)
  {
    assert (presents + [p])[..|presents|] == presents;
  }

  lemma {:induction false} NothingCounted()
    ensures FoldedAll([]) == NO_TOTALS && CountDiscarded([]) == 0 && Classified([]) == [] && Flips([]) == 0
  {
  }
}

/**
 The offline view of a stream of evaluations for one diagnostic: the maximal stretches of
 consecutive evaluations in which it fires. Nothing here knows how the ledger works.
 */
module FiringRuns {
  import opened Sequences

  /** The evaluations `lo <= k < hi`. */
  datatype Run = Run(lo: nat, hi: nat)

  ghost predicate IsMaximalRun(fires: seq<bool>, r: Run) {
    && r.lo < r.hi <= |fires|
    && (forall k :: r.lo <= k < r.hi ==> fires[k])
    && (r.lo == 0 || !fires[r.lo - 1])
    && (r.hi == |fires| || !fires[r.hi])
  }

  /** The runs of a stream of `n` evaluations once it goes on: the open run grows, or a new one starts. */
  function Continue(runs: seq<Run>, n: nat, firing: bool): seq<Run> {
    if !firing then runs
    else if runs != [] && Last(runs).hi == n then Init(runs) + [Run(Last(runs).lo, n + 1)]
    else runs + [Run(n, n + 1)]
  }

  /** The maximal runs, earliest first. */
  function Runs(fires: seq<bool>): seq<Run> {
    if fires == [] then [] else Continue(Runs(Init(fires)), |fires| - 1, Last(fires))
  }

  ghost predicate AllMaximal(fires: seq<bool>, runs: seq<Run>) {
    forall i :: 0 <= i < |runs| ==> IsMaximalRun(fires, runs[i])
  }

  /** Consecutive runs leave a gap. */
  ghost predicate Apart(runs: seq<Run>) {
    forall i, j :: 0 <= i < j < |runs| ==> runs[i].hi < runs[j].lo
  }

  lemma {:induction false} GrowsPast(fires: seq<bool>, b: bool, r: Run)
    requires IsMaximalRun(fires, r) && (r.hi < |fires| || !b)
    ensures IsMaximalRun(fires + [b], r)
  {
  }

  lemma {:induction false} GrowsLonger(fires: seq<bool>, lo: nat)
    requires IsMaximalRun(fires, Run(lo, |fires|)) || (lo == |fires| && (fires == [] || !Last(fires)))
    ensures IsMaximalRun(fires + [true], Run(lo, |fires| + 1))
  {
  }

  /** `runs` are the maximal runs of `fires`, as far as one can say looking at each run alone. */
  ghost predicate Decomposes(fires: seq<bool>, runs: seq<Run>) {
    && AllMaximal(fires, runs) && Apart(runs)
    && ((fires != [] && Last(fires)) <==> (runs != [] && Last(runs).hi == |fires|))
  }

  lemma {:induction false} ContinueDecomposes(fires: seq<bool>, b: bool, runs: seq<Run>)
    requires Decomposes(fires, runs)
    ensures Decomposes(fires + [b], Continue(runs, |fires|, b))
  {
    var grown := Continue(runs, |fires|, b);
    forall i | 0 <= i < |grown| ensures IsMaximalRun(fires + [b], grown[i]) {
      if i < |runs| && grown[i] == runs[i] {
        assert IsMaximalRun(fires, runs[i]) && (i < |runs| - 1 ==> runs[i].hi < runs[|runs| - 1].lo);
        assert runs[i].hi < |fires| || !b;
        GrowsPast(fires, b, runs[i]);
      } else {
        assert runs != [] ==> IsMaximalRun(fires, runs[|runs| - 1]);
        GrowsLonger(fires, grown[i].lo);
      }
    }
    ContinueStaysApart(fires, b, runs);
  }

  lemma {:induction false} ContinueStaysApart(fires: seq<bool>, b: bool, runs: seq<Run>)
    requires Decomposes(fires, runs)
    ensures Apart(Continue(runs, |fires|, b))
  {
    var grown := Continue(runs, |fires|, b);
    forall i, j | 0 <= i < j < |grown| ensures grown[i].hi < grown[j].lo {
      assert IsMaximalRun(fires, runs[i]);
      assert i < |runs| - 1 ==> runs[i].hi < runs[|runs| - 1].lo;
    }
  }

  lemma {:induction false} RunsDecompose(fires: seq<bool>)
    ensures Decomposes(fires, Runs(fires))
  {
    if fires != [] {
      RunsDecompose(Init(fires));
      ContinueDecomposes(Init(fires), Last(fires), Runs(Init(fires)));
      assert Init(fires) + [Last(fires)] == fires;
    }
  }

  /** Two maximal runs over a common evaluation are the same run. */
  lemma {:induction false} MaximalRunsMeet(fires: seq<bool>, r: Run, s: Run, k: nat)
    requires IsMaximalRun(fires, r) && IsMaximalRun(fires, s)
    requires r.lo <= k < r.hi && s.lo <= k < s.hi
    ensures r == s
  {
    assert s.lo == 0 || !(r.lo <= s.lo - 1 < r.hi);
    assert r.lo == 0 || !(s.lo <= r.lo - 1 < s.hi);
    assert !(s.lo <= r.hi < s.hi) && !(r.lo <= s.hi < r.hi);
  }

  ghost predicate Covers(runs: seq<Run>, i: nat, k: nat, n: nat) {
    i < |runs| && runs[i].lo <= k < runs[i].hi <= n
  }

  lemma {:induction false} ContinueCovers(runs: seq<Run>, n: nat, firing: bool, i: nat, k: nat)
    requires Covers(runs, i, k, n)
    ensures Covers(Continue(runs, n, firing), i, k, n + 1)
  {
  }

  lemma {:induction false} LastRunCovers(fires: seq<bool>)
    requires fires != [] && Last(fires)
    ensures Covers(Runs(fires), |Runs(fires)| - 1, |fires| - 1, |fires|)
  {
    RunsDecompose(fires);
    assert IsMaximalRun(fires, Runs(fires)[|Runs(fires)| - 1]);
  }

  /** Every firing evaluation lies in a listed run. */
  lemma {:induction false} RunsCover(fires: seq<bool>, k: nat) returns (i: nat)
    requires k < |fires| && fires[k]
    ensures Covers(Runs(fires), i, k, |fires|)
  {
    if k == |fires| - 1 {
      LastRunCovers(fires);
      i := |Runs(fires)| - 1;
    } else {
      i := RunsCover(Init(fires), k);
      ContinueCovers(Runs(Init(fires)), |fires| - 1, Last(fires), i, k);
    }
  }

  /** `Runs` lists exactly the maximal runs, in order and each once. */
  lemma {:induction false} RunsExact(fires: seq<bool>)
    ensures forall r :: r in Runs(fires) <==> IsMaximalRun(fires, r)
    ensures Apart(Runs(fires))
  {
    RunsDecompose(fires);
    forall r | IsMaximalRun(fires, r) ensures r in Runs(fires) {
      var i := RunsCover(fires, r.lo);
      MaximalRunsMeet(fires, r, Runs(fires)[i], r.lo);
    }
  }

  predicate IsLong(r: Run, length: nat) {
    r.lo + length <= r.hi
  }

  /** The index of the first run of at least `length` evaluations, or the number of runs. */
  function FirstLong(runs: seq<Run>, length: nat): (q: nat)
    ensures q <= |runs|
    ensures forall i :: 0 <= i < q ==> !IsLong(runs[i], length)
    ensures q < |runs| ==> IsLong(runs[q], length)
  {
    if runs == [] then 0
    else
      var q := FirstLong(Init(runs), length);
      if q < |runs| - 1 || IsLong(Last(runs), length) then q else |runs|
  }

  /** The runs from the first long one on. */
  function FromFirstLong(runs: seq<Run>, length: nat): seq<Run> {
    runs[FirstLong(runs, length)..]
  }

  lemma {:induction false} FromFirstLongGrown(runs: seq<Run>, r: Run, length: nat)
    requires runs != [] && r.lo == Last(runs).lo && Last(runs).hi <= r.hi
    ensures var kept := FromFirstLong(runs, length);
            FromFirstLong(Init(runs) + [r], length)
            == if kept != [] then Init(kept) + [r] else if IsLong(r, length) then [r] else []
  {
    var grown := Init(runs) + [r];
    assert Init(grown) == Init(runs) && Last(grown) == r;
    var q := FirstLong(runs, length);
    if q < |runs| {
      assert FirstLong(grown, length) == q;
      assert Init(runs[q..]) == Init(runs)[q..];
    }
  }

  lemma {:induction false} FromFirstLongNew(runs: seq<Run>, r: Run, length: nat)
    requires !IsLong(r, length)
    ensures var kept := FromFirstLong(runs, length);
            FromFirstLong(runs + [r], length) == if kept != [] then kept + [r] else []
  {
    assert Init(runs + [r]) == runs;
  }

  /** Once there is a long run, later runs are kept whatever their length. */
  lemma {:induction false} FromFirstLongNext(runs: seq<Run>, n: nat, firing: bool, length: nat)
    requires length >= 2
    ensures var kept := FromFirstLong(runs, length);
            FromFirstLong(Continue(runs, n, firing), length)
            == if !firing || kept != [] then Continue(kept, n, firing)
               else if runs != [] && Last(runs).hi == n && IsLong(Run(Last(runs).lo, n + 1), length)
               then [Run(Last(runs).lo, n + 1)]
               else []
  {
    if firing {
      if runs != [] && Last(runs).hi == n {
        FromFirstLongGrown(runs, Run(Last(runs).lo, n + 1), length);
      } else {
        FromFirstLongNew(runs, Run(n, n + 1), length);
      }
    }
  }
}

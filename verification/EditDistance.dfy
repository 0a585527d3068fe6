/**
 The edit distance behind the "did you mean" hint (app/cli/CommandLineFlags.cpp).

 An edit script says, character by character, how one string becomes another. The
 distance of two strings is the cost of a cheapest script, and the two-row table of the
 command line code computes exactly that.
 */
module EditDistance {
  import opened Wrappers
  import opened Sequences

  /** What a script does next: consume one character of the source, produce one of the target, or both. */
  datatype Edit = Keep | Substitute(to: char) | Insert(ch: char) | Delete

  type Script = seq<Edit>

  /** The string `script` makes of `a`, or None when it does not consume exactly `a`. */
  function Apply(script: Script, a: string): Option<string> {
    if script == [] then
      if a == [] then Some([]) else None
    else
      match Last(script)
      case Insert(c) =>
        (match Apply(Init(script), a)
         case None => None
         case Some(b) => Some(b + [c]))
      case Delete =>
        if a == [] then None else Apply(Init(script), Init(a))
      case Keep =>
        if a == [] then None else
        (match Apply(Init(script), Init(a))
         case None => None
         case Some(b) => Some(b + [Last(a)]))
      case Substitute(c) =>
        if a == [] then None else
        (match Apply(Init(script), Init(a))
         case None => None
         case Some(b) => Some(b + [c]))
  }

  /** Every edit but `Keep` costs one. */
  function Cost(script: Script): nat {
    if script == [] then 0
    else Cost(Init(script)) + (if Last(script).Keep? then 0 else 1)
  }

  ghost predicate Transforms(script: Script, a: string, b: string) {
    Apply(script, a) == Some(b)
  }

  /** `d` is the cost of a cheapest script from `a` to `b`. */
  ghost predicate IsEditDistance(a: string, b: string, d: nat) {
    && (exists script :: Transforms(script, a, b) && Cost(script) == d)
    && (forall script :: Transforms(script, a, b) ==> d <= Cost(script))
  }

  function Min(x: nat, y: nat): nat {
    if x <= y then x else y
  }

  /** The recurrence the table fills in, on the lengths of two prefixes. */
  function Distance(a: string, b: string): nat
    decreases |a| + |b|
  {
    if a == [] then |b|
    else if b == [] then |a|
    else
      var substitution := Distance(Init(a), Init(b)) + if Last(a) == Last(b) then 0 else 1;
      var deletion := Distance(Init(a), b) + 1;
      var insertion := Distance(a, Init(b)) + 1;
      Min(substitution, Min(deletion, insertion))
  }

  // ----- The recurrence is the cost of a cheapest script -----

  lemma {:induction false} Extend(script: Script, e: Edit)
    ensures Init(script + [e]) == script && Last(script + [e]) == e
    ensures Cost(script + [e]) == Cost(script) + (if e.Keep? then 0 else 1)
  {
    assert Init(script + [e]) == script;
  }

  /** Some script costs no more than the recurrence says. */
  lemma {:induction false} CheapestScript(a: string, b: string) returns (script: Script)
    ensures Transforms(script, a, b) && Cost(script) == Distance(a, b)
    decreases |a| + |b|
  {
    assert b != [] ==> b == Init(b) + [Last(b)];
    if a == [] && b == [] {
      script := [];
    } else if a == [] {
      var rest := CheapestScript(a, Init(b));
      Extend(rest, Insert(Last(b)));
      script := rest + [Insert(Last(b))];
    } else if b == [] {
      var rest := CheapestScript(Init(a), b);
      Extend(rest, Delete);
      script := rest + [Delete];
    } else if Distance(a, b) == Distance(Init(a), Init(b)) + if Last(a) == Last(b) then 0 else 1 {
      var e := if Last(a) == Last(b) then Keep else Substitute(Last(b));
      var rest := CheapestScript(Init(a), Init(b));
      Extend(rest, e);
      script := rest + [e];
    } else if Distance(a, b) == Distance(Init(a), b) + 1 {
      var rest := CheapestScript(Init(a), b);
      Extend(rest, Delete);
      script := rest + [Delete];
    } else {
      var rest := CheapestScript(a, Init(b));
      Extend(rest, Insert(Last(b)));
      script := rest + [Insert(Last(b))];
    }
  }

  /** No script costs less. */
  lemma {:induction false} NoCheaperScript(script: Script, a: string, b: string)
    requires Transforms(script, a, b)
    ensures Distance(a, b) <= Cost(script)
    decreases |script|
  {
    if script == [] {
    } else {
      var rest := Init(script);
      match Last(script)
      case Insert(c) =>
        NoCheaperScript(rest, a, Init(b));
      case Delete =>
        NoCheaperScript(rest, Init(a), b);
      case Keep =>
        NoCheaperScript(rest, Init(a), Init(b));
      case Substitute(c) =>
        NoCheaperScript(rest, Init(a), Init(b));
    }
  }

  lemma {:induction false} DistanceIsCheapest(a: string, b: string)
    ensures IsEditDistance(a, b, Distance(a, b))
  {
    var script := CheapestScript(a, b);
    forall s | Transforms(s, a, b) ensures Distance(a, b) <= Cost(s) {
      NoCheaperScript(s, a, b);
    }
  }

  /** A cheapest cost is unique, so `IsEditDistance` pins one number down. */
  lemma {:induction false} CheapestIsUnique(a: string, b: string, d: nat)
    requires IsEditDistance(a, b, d)
    ensures d == Distance(a, b)
  {
    DistanceIsCheapest(a, b);
  }

  // ----- The distance is a metric -----

  /** Running `s` and then `t` is one script, no dearer than both together. */
  lemma {:induction false} Compose(s: Script, t: Script, a: string, b: string, c: string) returns (u: Script)
    requires Transforms(s, a, b) && Transforms(t, b, c)
    ensures Transforms(u, a, c) && Cost(u) <= Cost(s) + Cost(t)
    decreases |s| + |t|
  {
    if s != [] && Last(s).Delete? {
      var rest := Compose(Init(s), t, Init(a), b, c);
      Extend(rest, Delete);
      u := rest + [Delete];
    } else if t != [] && Last(t).Insert? {
      var rest := Compose(s, Init(t), a, b, Init(c));
      Extend(rest, Last(t));
      u := rest + [Last(t)];
    } else if s == [] {
      u := t;
    } else {
      u := ComposeAtLast(s, t, a, b, c);
    }
  }

  /** The step of `Compose` where both last edits meet at the last character of `b`. */
  lemma {:induction false} ComposeAtLast(s: Script, t: Script, a: string, b: string, c: string) returns (u: Script)
    requires Transforms(s, a, b) && Transforms(t, b, c)
    requires s != [] && !Last(s).Delete? && (t == [] || !Last(t).Insert?)
    ensures Transforms(u, a, c) && Cost(u) <= Cost(s) + Cost(t)
    decreases |s| + |t|, 0
  {
    var e, f := Last(s), Last(t);
    if f.Delete? {
      if e.Insert? {
        u := Compose(Init(s), Init(t), a, Init(b), c);
      } else {
        var rest := Compose(Init(s), Init(t), Init(a), Init(b), c);
        Extend(rest, Delete);
        u := rest + [Delete];
      }
    } else if e.Insert? {
      var rest := Compose(Init(s), Init(t), a, Init(b), Init(c));
      Extend(rest, Insert(Last(c)));
      u := rest + [Insert(Last(c))];
    } else {
      var rest := Compose(Init(s), Init(t), Init(a), Init(b), Init(c));
      var g := if e.Keep? && f.Keep? then Keep else Substitute(Last(c));
      Extend(rest, g);
      u := rest + [g];
    }
  }

  lemma {:induction false} Triangle(a: string, b: string, c: string)
    ensures Distance(a, c) <= Distance(a, b) + Distance(b, c)
  {
    var s := CheapestScript(a, b);
    var t := CheapestScript(b, c);
    var u := Compose(s, t, a, b, c);
    NoCheaperScript(u, a, c);
  }

  lemma {:induction false} Symmetric(a: string, b: string)
    ensures Distance(a, b) == Distance(b, a)
    decreases |a| + |b|
  {
    if a != [] && b != [] {
      Symmetric(Init(a), Init(b));
      Symmetric(Init(a), b);
      Symmetric(a, Init(b));
    }
  }

  /** Bounded below by the difference of the lengths and above by the longer one. */
  lemma {:induction false} Bounds(a: string, b: string)
    ensures |a| - |b| <= Distance(a, b) && |b| - |a| <= Distance(a, b)
    ensures Distance(a, b) <= |a| || Distance(a, b) <= |b|
    decreases |a| + |b|
  {
    if a != [] && b != [] {
      Bounds(Init(a), Init(b));
      Bounds(Init(a), b);
      Bounds(a, Init(b));
    }
  }

  lemma {:induction false} ZeroIffEqual(a: string, b: string)
    ensures Distance(a, b) == 0 <==> a == b
    decreases |a| + |b|
  {
    if a != [] && b != [] {
      ZeroIffEqual(Init(a), Init(b));
      assert a == Init(a) + [Last(a)] && b == Init(b) + [Last(b)];
    }
  }

  /** The metric laws together. */
  lemma {:induction false} Metric(a: string, b: string, c: string)
    ensures Distance(a, b) == 0 <==> a == b
    ensures Distance(a, b) == Distance(b, a)
    ensures Distance(a, c) <= Distance(a, b) + Distance(b, c)
    ensures |a| - |b| <= Distance(a, b) && |b| - |a| <= Distance(a, b)
    ensures Distance(a, b) <= |a| || Distance(a, b) <= |b|
  {
    ZeroIffEqual(a, b);
    Symmetric(a, b);
    Triangle(a, b, c);
    Bounds(a, b);
  }

  // ----- The two-row table -----

  /** `row` holds row `i` of the table, on its first `n` columns. */
  ghost predicate IsRow(row: array<nat>, a: string, i: nat, b: string, n: nat)
    requires i <= |a| && n <= |b| + 1 <= row.Length
    reads row
  {
    forall j :: 0 <= j < n ==> row[j] == Distance(a[..i], b[..j])
  }

  lemma {:induction false} DistanceOf(a: string, b: string)
    requires a != [] && b != []
    ensures Distance(a, b)
         == Min(Distance(Init(a), Init(b)) + (if Last(a) == Last(b) then 0 else 1),
                Min(Distance(Init(a), b) + 1, Distance(a, Init(b)) + 1))
  {
    hide Min, Init, Last;
  }

  lemma {:induction false} Cell(a: string, i: nat, b: string, j: nat)
    requires i < |a| && j < |b|
    ensures Distance(a[..i + 1], b[..j + 1])
         == Min(Distance(a[..i], b[..j]) + (if a[i] == b[j] then 0 else 1),
                Min(Distance(a[..i], b[..j + 1]) + 1, Distance(a[..i + 1], b[..j]) + 1))
  {
    hide Distance;
    var s, t := a[..i + 1], b[..j + 1];
    DistanceOf(s, t);
    assert Init(s) == a[..i] && Last(s) == a[i] && Init(t) == b[..j] && Last(t) == b[j];
  }

  lemma {:induction false} EdgeCells(a: string, i: nat, b: string, j: nat)
    requires i <= |a| && j <= |b|
    ensures Distance(a[..0], b[..j]) == j && Distance(a[..i], b[..0]) == i
  {
  }

  /** Fills one row from the row above. */
  method FillRow(a: string, i: nat, b: string, previous: array<nat>, current: array<nat>)
    requires 1 <= i <= |a| && previous != current
    requires previous.Length == current.Length == |b| + 1
    requires IsRow(previous, a, i - 1, b, |b| + 1)
    modifies current
    ensures IsRow(current, a, i, b, |b| + 1)
  {
    hide Distance;
    current[0] := i;
    EdgeCells(a, i, b, 0);
    var j := 1;
    while j <= |b|
      invariant 1 <= j <= |b| + 1
      invariant IsRow(current, a, i, b, j)
    {
      Cell(a, i - 1, b, j - 1);
      var substitution := previous[j - 1] + if a[i - 1] == b[j - 1] then 0 else 1;
      var deletion := previous[j] + 1;
      var insertion := current[j - 1] + 1;
      current[j] := Min(substitution, Min(deletion, insertion));
      j := j + 1;
    }
  }

  /** Fills the table keeping only the row above and the row in progress, swapping the two. */
  method ComputeEditDistance(a: string, b: string) returns (distance: nat)
    ensures distance == Distance(a, b)
    ensures IsEditDistance(a, b, distance)
  {
    hide Distance;
    var previous := new nat[|b| + 1](j => j);
    var current := new nat[|b| + 1](j => 0);
    forall j | 0 <= j <= |b| ensures Distance(a[..0], b[..j]) == j {
      EdgeCells(a, 0, b, j);
    }
    var i := 1;
    while i <= |a|
      invariant 1 <= i <= |a| + 1
      invariant previous != current && fresh(previous) && fresh(current)
      invariant previous.Length == current.Length == |b| + 1
      invariant IsRow(previous, a, i - 1, b, |b| + 1)
    {
      FillRow(a, i, b, previous, current);
      previous, current := current, previous;
      i := i + 1;
    }
    assert a[..|a|] == a && b[..|b|] == b;
    distance := previous[|b|];
    DistanceIsCheapest(a, b);
  }
}

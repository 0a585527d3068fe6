/**
 A latch inside a monitor and the notice its caller shows for it: two values that most moves change
 together and some change alone.
 */
module NoticeBoard {
  import opened Wrappers

  datatype Board<V> = Board(latch: Option<V>, shown: Option<V>)

  /** Both take a new value, or none; or the latch alone loses its value, or the notice alone does. */
  datatype Move<V> = Put(value: V) | TakeDown | Lose | Hide | Nothing

  function Moved<V>(b: Board<V>, m: Move<V>): Board<V> {
    match m
    case Put(v) => Board(Some(v), Some(v))
    case TakeDown => Board(None, None)
    case Lose => b.(latch := None)
    case Hide => b.(shown := None)
    case Nothing => b
  }

  function After<V>(moves: seq<Move<V>>): Board<V> {
    if moves == [] then Board(None, None) else Moved(After(moves[..|moves| - 1]), moves[|moves| - 1])
  }

  /** Move `p` put something up, and no later one has replaced or taken down both. */
  ghost predicate Standing<V>(moves: seq<Move<V>>, p: nat) {
    p < |moves| && moves[p].Put? && forall j :: p < j < |moves| ==> !moves[j].Put? && !moves[j].TakeDown?
  }

  ghost predicate LostAfter<V>(moves: seq<Move<V>>, p: nat) {
    exists j :: p < j < |moves| && moves[j].Lose?
  }

  ghost predicate HiddenAfter<V>(moves: seq<Move<V>>, p: nat) {
    exists j :: p < j < |moves| && moves[j].Hide?
  }

  /** Latch and notice, in terms of the last thing put up. */
  ghost predicate Says<V(!new)>(moves: seq<Move<V>>, b: Board<V>) {
    && (forall p: nat :: Standing(moves, p) ==>
          && b.latch == (if LostAfter(moves, p) then None else Some(moves[p].value))
          && b.shown == (if HiddenAfter(moves, p) then None else Some(moves[p].value)))
    && ((forall p: nat :: !Standing(moves, p)) ==> b == Board(None, None))
  }

  lemma {:induction false} StandingNext<V(!new)>(moves: seq<Move<V>>, m: Move<V>, p: nat)
    ensures Standing(moves + [m], p) <==>
              if m.Put? then p == |moves| else !m.TakeDown? && Standing(moves, p)
    ensures p < |moves| ==> (LostAfter(moves + [m], p) <==> LostAfter(moves, p) || m.Lose?)
    ensures p < |moves| ==> (HiddenAfter(moves + [m], p) <==> HiddenAfter(moves, p) || m.Hide?)
    ensures p == |moves| ==> !LostAfter(moves + [m], p) && !HiddenAfter(moves + [m], p)
  {
    var more := moves + [m];
    if p < |moves| {
      assert more[|moves|] == m;
      assert forall j :: 0 <= j < |moves| ==> more[j] == moves[j];
    }
  }

  lemma {:induction false} SaysNext<V(!new)>(moves: seq<Move<V>>, b: Board<V>, m: Move<V>)
    requires Says(moves, b)
    ensures Says(moves + [m], Moved(b, m))
  {
    hide Standing, LostAfter, HiddenAfter;
    var more, t := moves + [m], Moved(b, m);
    forall p: nat | Standing(more, p)
      ensures p < |more| && more[p].Put?
              && t.latch == (if LostAfter(more, p) then None else Some(more[p].value))
              && t.shown == (if HiddenAfter(more, p) then None else Some(more[p].value))
    {
      StandingNext(moves, m, p);
      StandingIsPut(more, p);
      if p < |moves| {
        assert more[p] == moves[p];
      }
    }
    StandingNext(moves, m, |moves|);
    if p: nat :| Standing(moves, p) {
      StandingNext(moves, m, p);
    }
  }

  lemma {:induction false} StandingIsPut<V>(moves: seq<Move<V>>, p: nat)
    requires Standing(moves, p)
    ensures p < |moves| && moves[p].Put?
  {
  }

  lemma {:induction false} AlwaysSays<V(!new)>(moves: seq<Move<V>>)
    ensures Says(moves, After(moves))
  {
    if moves != [] {
      hide Says;
      AlwaysSays(moves[..|moves| - 1]);
      SaysNext(moves[..|moves| - 1], After(moves[..|moves| - 1]), moves[|moves| - 1]);
      assert moves[..|moves| - 1] + [moves[|moves| - 1]] == moves;
    }
  }

  /** The notice shows what the latch holds exactly unless, since the last thing both took up, one of them
      alone has let go of it. */
  lemma {:induction false} ShownIsLatchIff<V(!new)>(moves: seq<Move<V>>)
    ensures After(moves).shown == After(moves).latch <==>
              forall p: nat :: Standing(moves, p) ==> (LostAfter(moves, p) <==> HiddenAfter(moves, p))
  {
    hide Standing, LostAfter, HiddenAfter, After;
    AlwaysSays(moves);
    if p: nat :| Standing(moves, p) {
      forall q: nat | Standing(moves, q) ensures q == p {
        OneStands(moves, p, q);
      }
    }
  }

  lemma {:induction false} OneStands<V>(moves: seq<Move<V>>, p: nat, q: nat)
    requires Standing(moves, p) && Standing(moves, q)
    ensures p == q
  {
  }
}

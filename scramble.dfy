/**
 * The scrambler: a random walk of a given number of moves from a board. The
 * random pick is a nondeterministic choice; every contract holds whatever is
 * picked.
 */
module Scrambler {

  import opened Options
  import opened Puzzle

  /** The options that do not lead to board t, in their original order. */
  function Without(opts: seq<Succ>, t: State): (r: seq<Succ>)
    ensures forall o :: o in r <==> o in opts && o.state != t
    ensures |r| <= |opts|
  {
    if opts == [] then []
    else (if opts[0].state != t then [opts[0]] else []) + Without(opts[1..], t)
  }

  /**
   * Filtering a concatenation filters each part and keeps them in order;
   * with the membership clause on a single option, this makes `Without` the
   * in-order filter.
   */
  lemma {:induction false} WithoutAppend(a: seq<Succ>, b: seq<Succ>, t: State)
    ensures Without(a + b, t) == Without(a, t) + Without(b, t)
  {
    if a == [] {
      assert a + b == b;
    } else {
      assert (a + b)[1..] == a[1..] + b;
      WithoutAppend(a[1..], b, t);
    }
  }

  /**
   * What the scrambler picks from on board s: the successors of s; once a
   * previous board `last` is recorded, those not leading back to it, unless
   * that excludes them all.
   */
  function Choices(s: State, last: Option<State>): (r: seq<Succ>)
    requires Movable(s)
    ensures r != []
    ensures forall o :: o in r ==> o in Neighbors(s)
    ensures last.None? ==> r == Neighbors(s)
    ensures last.Some? ==> forall o :: o in Neighbors(s) && o.state != last.value ==> o in r
    ensures last.Some? && (exists o :: o in Neighbors(s) && o.state != last.value) ==>
              forall o :: o in r ==> o.state != last.value
    ensures last.Some? && (forall o :: o in Neighbors(s) ==> o.state == last.value) ==> r == Neighbors(s)
  {
    var opts := Neighbors(s);
    if last.None? then opts
    else
      var kept := Without(opts, last.value);
      if kept != [] then assert kept[0] in kept; kept else opts
  }

  /**
   * A walk of `steps` moves from `state`, recording after each move the board
   * just reached as `last`.
   */
  method Scramble(state: State, steps: nat) returns (s: State, ghost trail: seq<State>)
    requires steps > 0 ==> Movable(state)
    ensures |trail| == steps + 1 && trail[0] == state && trail[steps] == s
    ensures IsWalk(trail)
    ensures (Movable(state) ==> Movable(s)) && multiset(s) == multiset(state)
  {
    s := state;
    var last: Option<State> := None;
    trail := [state];
    for i := 0 to steps
      invariant |trail| == i + 1 && trail[0] == state && trail[i] == s
      invariant IsWalk(trail)
      invariant (Movable(state) ==> Movable(s)) && multiset(s) == multiset(state)
      invariant last == if i == 0 then None else Some(s)
    {
      assert Movable(s);
      var opts := Choices(s, last);
      var k :| 0 <= k < |opts|;
      PickStep(s, last, opts[k]);
      WalkExtend(trail, opts[k].state);
      s := opts[k].state;
      last := Some(s);
      trail := trail + [s];
    }
  }

  /** Any pick of the scrambler is a move; it keeps the board movable, well formed if it was, and its tiles. */
  lemma PickStep(s: State, last: Option<State>, o: Succ)
    requires Movable(s) && o in Choices(s, last)
    ensures IsMove(s, o.state)
    ensures Movable(o.state) && multiset(o.state) == multiset(s)
    ensures WellFormed(s) ==> WellFormed(o.state)
  {
    var n := Neighbors(s);
    var k :| 0 <= k < |n| && n[k] == o;
    MovePreserves(s, o.state);
  }

  /**
   * Since `last` is always the current board, and no successor of a
   * well-formed board is that board, the filter removes nothing.
   */
  lemma ChoicesKeepAll(s: State)
    requires WellFormed(s) && Movable(s)
    ensures Choices(s, Some(s)) == Neighbors(s)
  {
    var n := Neighbors(s);
    NeighborsSound(s);
    forall k | 0 <= k < |n|
      ensures n[k].state != s
    {
      SlideWellFormed(s, n[k].move);
    }
    WithoutNothing(n, s);
  }

  lemma {:induction false} WithoutNothing(opts: seq<Succ>, t: State)
    requires forall k :: 0 <= k < |opts| ==> opts[k].state != t
    ensures Without(opts, t) == opts
  {
    if opts != [] {
      WithoutNothing(opts[1..], t);
    }
  }

  /**
   * From the goal, the blank moves up and then may move straight back down:
   * the filter, comparing against the current board, keeps the way back.
   */
  lemma ScrambleMayUndo()
    ensures Movable(Goal) && Legal(Blank(Goal), Up)
    ensures Movable(Slide(Goal, Up))
    ensures Succ(Goal, Down) in Choices(Slide(Goal, Up), Some(Slide(Goal, Up)))
  {
    GoalWellFormed();
    var x := Slide(Goal, Up);
    SlideWellFormed(Goal, Up);
    SlideReversible(Goal, Up);
    ChoicesKeepAll(x);
    NeighborsComplete(x);
  }

  /**
   * On a well-formed board, whose successors are pairwise different boards,
   * no option offered once `t` is recorded leads to `t`.
   */
  lemma ChoicesAvoid(s: State, t: State)
    requires WellFormed(s) && Movable(s)
    ensures forall o :: o in Choices(s, Some(t)) ==> o.state != t
  {
    NeighborsDistinct(s);
    var n := Neighbors(s);
    var o := if n[0].state != t then n[0] else n[1];
    assert o in n && o.state != t;
  }

  /** What one pick of the scrambler guarantees on a well-formed board. */
  lemma ChoiceStep(s: State, last: Option<State>, o: Succ)
    requires WellFormed(s) && Movable(s) && o in Choices(s, last)
    ensures IsMove(s, o.state)
    ensures WellFormed(o.state) && Movable(o.state) && multiset(o.state) == multiset(s)
    ensures last.Some? ==> o.state != last.value
  {
    PickStep(s, last, o);
    if last.Some? {
      ChoicesAvoid(s, last.value);
    }
  }

  /** The walk p is back, at position j, on the board it left one move before. */
  ghost predicate TurnsBack(p: seq<State>, j: int)
    requires 2 <= j < |p|
  {
    p[j] == p[j - 2]
  }

  /** A walk that never turns back still does not after a step away from the board before last. */
  lemma ExtendNoTurn(p: seq<State>, t: State)
    requires forall j :: 2 <= j < |p| ==> !TurnsBack(p, j)
    requires |p| >= 2 ==> t != p[|p| - 2]
    ensures forall j :: 2 <= j < |p| + 1 ==> !TurnsBack(p + [t], j)
  {
    forall j | 2 <= j < |p| + 1
      ensures !TurnsBack(p + [t], j)
    {
      if j < |p| {
        assert !TurnsBack(p, j);
      }
    }
  }

  /**
   * The scramble the filter on `last` is meant to perform: `last` holds the
   * board before the current one, so a move never returns to the board just
   * left.
   */
  method ScrambleNoReversal(state: State, steps: nat) returns (s: State, ghost trail: seq<State>)
    requires WellFormed(state)
    ensures |trail| == steps + 1 && trail[0] == state && trail[steps] == s
    ensures IsWalk(trail)
    ensures WellFormed(s) && multiset(s) == multiset(state)
    ensures forall i :: 2 <= i <= steps ==> !TurnsBack(trail, i)
  {
    WellFormedIsMovable(state);
    s := state;
    var last: Option<State> := None;
    trail := [state];
    for i := 0 to steps
      invariant |trail| == i + 1 && trail[0] == state && trail[i] == s
      invariant IsWalk(trail)
      invariant WellFormed(s) && Movable(s) && multiset(s) == multiset(state)
      invariant last == if i == 0 then None else Some(trail[i - 1])
      invariant forall j :: 2 <= j < |trail| ==> !TurnsBack(trail, j)
    {
      var opts := Choices(s, last);
      var k :| 0 <= k < |opts|;
      ChoiceStep(s, last, opts[k]);
      WalkExtend(trail, opts[k].state);
      ExtendNoTurn(trail, opts[k].state);
      last := Some(s);
      s := opts[k].state;
      trail := trail + [s];
    }
  }

}

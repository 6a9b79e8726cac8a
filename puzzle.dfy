/**
 * The state model and the move generator of the 8-puzzle: a board is the
 * sequence of its nine cells in row-major order, 0 standing for the blank; a
 * move slides the blank one cell up, down, left or right by exchanging it with
 * the tile there.
 */
module Puzzle {

  type State = seq<int>

  /** The solved board: tiles 1..8 in order, the blank bottom-right. */
  const Goal: State := [1, 2, 3, 4, 5, 6, 7, 8, 0]

  /** A board proper: a permutation of 0..8. */
  predicate WellFormed(s: State) {
    |s| == 9 && multiset(s) == multiset{0, 1, 2, 3, 4, 5, 6, 7, 8}
  }

  /** What the move generator needs of a board: nine cells, one of them the blank. */
  predicate Movable(s: State) {
    |s| == 9 && 0 in s
  }

  lemma GoalWellFormed()
    ensures WellFormed(Goal) && Movable(Goal)
  {
  }

  lemma WellFormedIsMovable(s: State)
    requires WellFormed(s)
    ensures Movable(s)
  {
    assert 0 in multiset(s);
  }

  // ---------------------------------------------------------------------------
  // Cell index <-> (row, column)

  /** The nine (row, column) pairs of the 3x3 grid. */
  const Cells: set<(int, int)> :=
    {(0, 0), (0, 1), (0, 2), (1, 0), (1, 1), (1, 2), (2, 0), (2, 1), (2, 2)}

  /** Row and column of each cell index: entry i is (i / 3, i % 3). */
  function IxToRc(): (t: seq<(int, int)>)
    ensures |t| == 9
    ensures forall i :: 0 <= i < 9 ==> t[i] in Cells && t[i].0 * 3 + t[i].1 == i
  {
    seq(9, i => (i / 3, i % 3))
  }

  /** Cell index of each (row, column) pair of the grid. */
  function RcToIx(): (t: map<(int, int), int>)
    ensures t.Keys == Cells
    ensures forall p :: p in t ==> 0 <= t[p] < 9 && t[p] / 3 == p.0 && t[p] % 3 == p.1
  {
    map p | p in Cells :: p.0 * 3 + p.1
  }

  lemma RcToIxAt(r: int, c: int)
    requires 0 <= r < 3 && 0 <= c < 3
    ensures (r, c) in RcToIx() && RcToIx()[(r, c)] == r * 3 + c
  {
  }

  /** The two tables are inverse bijections between 0..8 and the grid. */
  lemma TablesInverse()
    ensures |IxToRc()| == 9 && RcToIx().Keys == Cells
    ensures forall i :: 0 <= i < 9 ==>
      0 <= IxToRc()[i].0 < 3 && 0 <= IxToRc()[i].1 < 3 &&
      IxToRc()[i] in RcToIx() && RcToIx()[IxToRc()[i]] == i
    ensures forall p :: p in RcToIx() ==> 0 <= RcToIx()[p] < 9 && IxToRc()[RcToIx()[p]] == p
  {
    forall i | 0 <= i < 9
      ensures IxToRc()[i] in RcToIx() && RcToIx()[IxToRc()[i]] == i
    {
      RcToIxAt(i / 3, i % 3);
    }
  }

  // ---------------------------------------------------------------------------
  // Exchanging two cells

  /** The board with the contents of cells i and j exchanged. */
  function Swap(s: State, i: int, j: int): (r: State)
    requires 0 <= i < |s| && 0 <= j < |s|
    ensures |r| == |s| && r[i] == s[j] && r[j] == s[i]
    ensures forall k :: 0 <= k < |s| && k != i && k != j ==> r[k] == s[k]
    ensures multiset(r) == multiset(s)
  {
    s[i := s[j]][j := s[i]]
  }

  lemma SwapSymmetric(s: State, i: int, j: int)
    requires 0 <= i < |s| && 0 <= j < |s|
    ensures Swap(s, i, j) == Swap(s, j, i)
  {
  }

  /** Exchanging the same two cells twice restores the board. */
  lemma SwapInvolutive(s: State, i: int, j: int)
    requires 0 <= i < |s| && 0 <= j < |s|
    ensures Swap(Swap(s, i, j), i, j) == s
  {
  }

  // ---------------------------------------------------------------------------
  // The blank

  /** The first index holding v. */
  function IndexOf(s: seq<int>, v: int): (i: nat)
    requires v in s
    ensures i < |s| && s[i] == v
    ensures forall k :: 0 <= k < i ==> s[k] != v
  {
    if s[0] == v then 0 else 1 + IndexOf(s[1..], v)
  }

  /** The index of the blank. */
  function Blank(s: State): (b: nat)
    requires Movable(s)
    ensures b < 9 && s[b] == 0
    ensures forall k :: 0 <= k < b ==> s[k] != 0
  {
    IndexOf(s, 0)
  }

  /** A value present at two different indices occurs at least twice. */
  lemma {:induction false} TwiceCounted(s: seq<int>, i: int, j: int)
    requires 0 <= i < j < |s| && s[i] == s[j]
    ensures multiset(s)[s[i]] >= 2
  {
    assert s == s[..i] + [s[i]] + s[i + 1..j] + [s[j]] + s[j + 1..];
  }

  /** On a well-formed board the blank is the only cell holding 0. */
  lemma BlankUnique(s: State, k: int)
    requires WellFormed(s) && 0 <= k < 9 && s[k] == 0
    ensures Movable(s) && Blank(s) == k
  {
    WellFormedIsMovable(s);
    var b := Blank(s);
    if b != k {
      if b < k { TwiceCounted(s, b, k); } else { TwiceCounted(s, k, b); }
    }
  }

  // ---------------------------------------------------------------------------
  // Moves

  /** The direction in which the blank moves. */
  datatype Move = Up | Down | Left | Right

  /** Position of a move in the order the generator emits them. */
  function Rank(m: Move): nat {
    match m
    case Up => 0
    case Down => 1
    case Left => 2
    case Right => 3
  }

  function Opposite(m: Move): Move {
    match m
    case Up => Down
    case Down => Up
    case Left => Right
    case Right => Left
  }

  /** Whether the blank at index b may move in direction m without leaving the grid. */
  predicate Legal(b: int, m: Move) {
    match m
    case Up => b >= 3
    case Down => b < 6
    case Left => b % 3 != 0
    case Right => b % 3 != 2
  }

  /** The index the blank moves to. */
  function Target(b: int, m: Move): int {
    match m
    case Up => b - 3
    case Down => b + 3
    case Left => b - 1
    case Right => b + 1
  }

  lemma TargetInGrid(b: int, m: Move)
    requires 0 <= b < 9 && Legal(b, m)
    ensures 0 <= Target(b, m) < 9 && Target(b, m) != b
    ensures Legal(Target(b, m), Opposite(m)) && Target(Target(b, m), Opposite(m)) == b
  {
  }

  /**
   * Legality and target are the generator's row and column guards and its
   * neighbouring cell, read through the two tables.
   */
  lemma LegalIsGuard(b: int)
    requires 0 <= b < 9
    ensures var (r, c) := IxToRc()[b];
      (Legal(b, Up) <==> r > 0) && (Legal(b, Down) <==> r < 2) &&
      (Legal(b, Left) <==> c > 0) && (Legal(b, Right) <==> c < 2)
    ensures var (r, c) := IxToRc()[b];
      (r > 0 ==> (r - 1, c) in RcToIx() && RcToIx()[(r - 1, c)] == Target(b, Up)) &&
      (r < 2 ==> (r + 1, c) in RcToIx() && RcToIx()[(r + 1, c)] == Target(b, Down)) &&
      (c > 0 ==> (r, c - 1) in RcToIx() && RcToIx()[(r, c - 1)] == Target(b, Left)) &&
      (c < 2 ==> (r, c + 1) in RcToIx() && RcToIx()[(r, c + 1)] == Target(b, Right))
  {
    var r, c := b / 3, b % 3;
    assert IxToRc()[b] == (r, c);
    if r > 0 { RcToIxAt(r - 1, c); }
    if r < 2 { RcToIxAt(r + 1, c); }
    if c > 0 { RcToIxAt(r, c - 1); }
    if c < 2 { RcToIxAt(r, c + 1); }
  }

  /** The board after the blank moves one cell in direction m. */
  function Slide(s: State, m: Move): (t: State)
    requires Movable(s) && Legal(Blank(s), m)
    ensures |t| == 9 && multiset(t) == multiset(s) && t[Target(Blank(s), m)] == 0
  {
    TargetInGrid(Blank(s), m);
    Swap(s, Blank(s), Target(Blank(s), m))
  }

  /** A successor board and the move that produced it. */
  datatype Succ = Succ(state: State, move: Move)

  /**
   * The successors of s: for each of Up, Down, Left, Right in that order, when
   * the blank's row or column allows it, the board with the blank exchanged
   * with the neighbouring tile.
   */
  function Neighbors(s: State): (r: seq<Succ>)
    requires Movable(s)
    ensures 2 <= |r| <= 4
  {
    TablesInverse();
    var zi := IndexOf(s, 0);
    var zr, zc := IxToRc()[zi].0, IxToRc()[zi].1;
    (if zr > 0 then [Succ(Swap(s, zi, RcToIx()[(zr - 1, zc)]), Up)] else []) +
    (if zr < 2 then [Succ(Swap(s, zi, RcToIx()[(zr + 1, zc)]), Down)] else []) +
    (if zc > 0 then [Succ(Swap(s, zi, RcToIx()[(zr, zc - 1)]), Left)] else []) +
    (if zc < 2 then [Succ(Swap(s, zi, RcToIx()[(zr, zc + 1)]), Right)] else [])
  }

  /** The successor for move m when it is legal, as a list of zero or one. */
  function IfLegal(s: State, m: Move): (r: seq<Succ>)
    requires Movable(s)
    ensures |r| <= 1
  {
    if Legal(Blank(s), m) then [Succ(Slide(s, m), m)] else []
  }

  /** What IfLegal offers is move m, legal, applied to s. */
  lemma IfLegalSound(s: State, m: Move, o: Succ)
    requires Movable(s) && o in IfLegal(s, m)
    ensures o.move == m && Legal(Blank(s), m) && o.state == Slide(s, m)
  {
  }

  /**
   * The successors of s stated in index arithmetic: the legal moves of the
   * blank among Up, Down, Left, Right, in that order, each applied to s.
   */
  function Successors(s: State): (r: seq<Succ>)
    requires Movable(s)
  {
    IfLegal(s, Up) + IfLegal(s, Down) + IfLegal(s, Left) + IfLegal(s, Right)
  }

  /** The table-driven generator agrees with the index-arithmetic one. */
  lemma NeighborsAgree(s: State)
    requires Movable(s)
    ensures Neighbors(s) == Successors(s)
  {
    var b := Blank(s);
    var zr, zc := b / 3, b % 3;
    assert IxToRc()[b] == (zr, zc);
    if zr > 0 { RcToIxAt(zr - 1, zc); }
    if zr < 2 { RcToIxAt(zr + 1, zc); }
    if zc > 0 { RcToIxAt(zr, zc - 1); }
    if zc < 2 { RcToIxAt(zr, zc + 1); }
  }

  /** Each reference successor is a legal move of the blank, applied. */
  lemma SuccessorsSound(s: State)
    requires Movable(s)
    ensures forall o :: o in Successors(s) ==> Legal(Blank(s), o.move) && o.state == Slide(s, o.move)
  {
    forall o | o in Successors(s)
      ensures Legal(Blank(s), o.move) && o.state == Slide(s, o.move)
    {
      if o in IfLegal(s, Up) { IfLegalSound(s, Up, o); }
      else if o in IfLegal(s, Down) { IfLegalSound(s, Down, o); }
      else if o in IfLegal(s, Left) { IfLegalSound(s, Left, o); }
      else { IfLegalSound(s, Right, o); }
    }
  }

  /** Each legal move of the blank, applied, is a reference successor. */
  lemma SuccessorsComplete(s: State)
    requires Movable(s)
    ensures forall m :: Legal(Blank(s), m) ==> Succ(Slide(s, m), m) in Successors(s)
  {
    forall m | Legal(Blank(s), m)
      ensures Succ(Slide(s, m), m) in Successors(s)
    {
      assert Succ(Slide(s, m), m) in IfLegal(s, m);
    }
  }

  /** Every successor is a legal move of the blank, applied. */
  lemma NeighborsSound(s: State)
    requires Movable(s)
    ensures forall k :: 0 <= k < |Neighbors(s)| ==>
      Legal(Blank(s), Neighbors(s)[k].move) &&
      Neighbors(s)[k].state == Slide(s, Neighbors(s)[k].move)
  {
    NeighborsAgree(s);
    SuccessorsSound(s);
    forall k | 0 <= k < |Neighbors(s)|
      ensures Neighbors(s)[k] in Successors(s)
    {
    }
  }

  /** Every legal move of the blank is among the successors. */
  lemma NeighborsComplete(s: State)
    requires Movable(s)
    ensures forall m :: Legal(Blank(s), m) ==> Succ(Slide(s, m), m) in Neighbors(s)
  {
    NeighborsAgree(s);
    SuccessorsComplete(s);
  }

  /** The successors come in the order Up, Down, Left, Right, each at most once. */
  lemma NeighborsOrdered(s: State)
    requires Movable(s)
    ensures forall i, j :: 0 <= i < j < |Neighbors(s)| ==>
      Rank(Neighbors(s)[i].move) < Rank(Neighbors(s)[j].move)
  {
    TablesInverse();
  }

  /**
   * On a well-formed board a move yields a well-formed board, different from
   * the first, whose blank sits where the move sent it.
   */
  lemma SlideWellFormed(s: State, m: Move)
    requires WellFormed(s) && Movable(s) && Legal(Blank(s), m)
    ensures WellFormed(Slide(s, m)) && Movable(Slide(s, m))
    ensures Blank(Slide(s, m)) == Target(Blank(s), m)
    ensures Slide(s, m) != s
  {
    var t := Slide(s, m);
    var b, c := Blank(s), Target(Blank(s), m);
    TargetInGrid(b, m);
    assert WellFormed(t);
    BlankUnique(t, c);
    if t == s {
      BlankUnique(s, c);
    }
  }

  /** The opposite move undoes a move. */
  lemma SlideReversible(s: State, m: Move)
    requires WellFormed(s) && Movable(s) && Legal(Blank(s), m)
    ensures Movable(Slide(s, m)) && Legal(Blank(Slide(s, m)), Opposite(m))
    ensures Slide(Slide(s, m), Opposite(m)) == s
  {
    var b := Blank(s);
    SlideWellFormed(s, m);
    TargetInGrid(b, m);
    SwapSymmetric(s, b, Target(b, m));
    SwapInvolutive(s, Target(b, m), b);
  }

  /** The successors of a well-formed board are distinct boards. */
  lemma NeighborsDistinct(s: State)
    requires WellFormed(s) && Movable(s)
    ensures forall i, j :: 0 <= i < j < |Neighbors(s)| ==> Neighbors(s)[i].state != Neighbors(s)[j].state
  {
    NeighborsSound(s);
    NeighborsOrdered(s);
    forall i, j | 0 <= i < j < |Neighbors(s)|
      ensures Neighbors(s)[i].state != Neighbors(s)[j].state
    {
      var mi, mj := Neighbors(s)[i].move, Neighbors(s)[j].move;
      SlideWellFormed(s, mi);
      SlideWellFormed(s, mj);
    }
  }

  /**
   * Every successor of a well-formed board is well formed and differs from it,
   * and the board is in turn a successor of each of them, by the opposite move.
   */
  lemma NeighborsReversible(s: State)
    requires WellFormed(s) && Movable(s)
    ensures forall k :: 0 <= k < |Neighbors(s)| ==>
      var n := Neighbors(s)[k];
      WellFormed(n.state) && Movable(n.state) && n.state != s &&
      Blank(n.state) == Target(Blank(s), n.move) &&
      Succ(s, Opposite(n.move)) in Neighbors(n.state)
  {
    NeighborsSound(s);
    forall k | 0 <= k < |Neighbors(s)|
      ensures var n := Neighbors(s)[k];
        WellFormed(n.state) && Movable(n.state) && n.state != s &&
        Blank(n.state) == Target(Blank(s), n.move) &&
        Succ(s, Opposite(n.move)) in Neighbors(n.state)
    {
      var n := Neighbors(s)[k];
      SlideWellFormed(s, n.move);
      SlideReversible(s, n.move);
      NeighborsComplete(n.state);
    }
  }

  // ---------------------------------------------------------------------------
  // Walks over the move graph

  /** t is one of the boards the move generator produces from s. */
  ghost predicate IsMove(s: State, t: State) {
    Movable(s) && exists k :: 0 <= k < |Neighbors(s)| && Neighbors(s)[k].state == t
  }

  /** A non-empty sequence of boards, each produced from the one before by a move. */
  ghost predicate IsWalk(p: seq<State>) {
    |p| >= 1 && forall k :: 0 <= k < |p| - 1 ==> IsMove(p[k], p[k + 1])
  }

  /** Some walk leads from a to b. */
  ghost predicate Reachable(a: State, b: State) {
    exists p :: IsWalk(p) && p[0] == a && p[|p| - 1] == b
  }

  /** A move keeps the board movable and its tiles the same. */
  lemma MovePreserves(s: State, t: State)
    requires IsMove(s, t)
    ensures Movable(t) && multiset(t) == multiset(s)
    ensures WellFormed(s) ==> WellFormed(t)
  {
    NeighborsSound(s);
    assert multiset(t) == multiset(s);
    assert 0 in multiset(s);
  }

  /** A walk extended by one more move is a walk. */
  lemma {:induction false} WalkExtend(p: seq<State>, t: State)
    requires IsWalk(p) && IsMove(p[|p| - 1], t)
    ensures IsWalk(p + [t])
  {
    var q := p + [t];
    forall k | 0 <= k < |q| - 1
      ensures IsMove(q[k], q[k + 1])
    {
      if k < |p| - 1 {
        assert q[k] == p[k] && q[k + 1] == p[k + 1];
      }
    }
  }

  /** The first n boards of a walk form a walk. */
  lemma WalkPrefix(p: seq<State>, n: int)
    requires IsWalk(p) && 1 <= n <= |p|
    ensures IsWalk(p[..n])
  {
    var q := p[..n];
    forall k | 0 <= k < |q| - 1
      ensures IsMove(q[k], q[k + 1])
    {
      assert q[k] == p[k] && q[k + 1] == p[k + 1];
    }
  }

}

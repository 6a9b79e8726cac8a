/**
 * The shortest-path solver: a breadth-first search from the start board that
 * records, for each board it discovers, the board it came from and the move,
 * stops when it takes the goal off the queue, and rebuilds the path by
 * following those records back from the goal.
 */
module Solver {

  import opened Options
  import opened Puzzle

  /** What the search records for a discovered board: where it came from and how. */
  datatype Link = Link(prev: Option<State>, move: Option<Move>)

  /** One step of a solution: a board and the move that led to it (none for the first). */
  datatype Entry = Entry(state: State, move: Option<Move>)

  // ---------------------------------------------------------------------------
  // What a solution is

  /** b's board is one the move generator produces from board s, by the move b records. */
  ghost predicate Step(s: State, b: Entry) {
    Movable(s) && b.move.Some? && Succ(b.state, b.move.value) in Neighbors(s)
  }

  /**
   * path starts at start with no move, ends at goal, and each entry is a
   * successor of the one before, by the move it records.
   */
  ghost predicate IsSolution(path: seq<Entry>, start: State, goal: State) {
    |path| >= 1 && path[0] == Entry(start, None) && path[|path| - 1].state == goal &&
    forall k :: 0 <= k < |path| - 1 ==> Step(path[k].state, path[k + 1])
  }

  /** No walk from start to goal visits fewer boards than path has entries. */
  ghost predicate Shortest(path: seq<Entry>, start: State, goal: State) {
    forall p :: IsWalk(p) && p[0] == start && p[|p| - 1] == goal ==> |path| <= |p|
  }

  /** The boards of a solution form a walk, so the goal is reachable. */
  lemma SolutionReaches(path: seq<Entry>, start: State, goal: State)
    requires IsSolution(path, start, goal)
    ensures Reachable(start, goal)
  {
    var p := seq(|path|, i requires 0 <= i < |path| => path[i].state);
    forall k | 0 <= k < |p| - 1
      ensures IsMove(p[k], p[k + 1])
    {
      assert Step(path[k].state, path[k + 1]);
      var m := path[k + 1].move.value;
      var n := Neighbors(path[k].state);
      var j :| 0 <= j < |n| && n[j] == Succ(path[k + 1].state, m);
    }
    assert IsWalk(p);
  }

  // ---------------------------------------------------------------------------
  // The parent records

  /** No element occurs twice. */
  ghost predicate NoDups<T>(f: seq<T>) {
    f == [] || (f[0] !in f[1..] && NoDups(f[1..]))
  }

  /**
   * The parent records form a tree rooted at start: every recorded board is
   * movable, and every one but start is its recorded predecessor with the
   * recorded move applied, one level deeper. dist is the depth of each
   * record; it exists only for the proof.
   */
  ghost predicate Tree(start: State, parent: map<State, Link>, dist: map<State, nat>) {
    Movable(start) && parent.Keys == dist.Keys &&
    start in parent && parent[start] == Link(None, None) && dist[start] == 0 &&
    (forall v :: v in parent ==> Movable(v)) &&
    (forall v {:trigger Linked(parent, dist, v)} :: v in parent && v != start ==> Linked(parent, dist, v))
  }

  /** The record of v names a recorded predecessor u and a legal move taking u to v. */
  ghost predicate Linked(parent: map<State, Link>, dist: map<State, nat>, v: State)
    requires v in parent && v in dist
  {
    parent[v].prev.Some? && parent[v].move.Some? &&
    var u, m := parent[v].prev.value, parent[v].move.value;
    u in parent && u in dist && Movable(u) && Legal(Blank(u), m) &&
    v == Slide(u, m) && dist[v] == dist[u] + 1
  }

  /** Recording a successor of a recorded board keeps the records a tree. */
  lemma Record(start: State, parent: map<State, Link>, dist: map<State, nat>, u: State, v: State, m: Move)
    requires Tree(start, parent, dist) && u in parent && v !in parent
    requires Legal(Blank(u), m) && v == Slide(u, m)
    ensures Tree(start, parent[v := Link(Some(u), Some(m))], dist[v := dist[u] + 1])
  {
    assert Movable(v) by {
      assert v[Target(Blank(u), m)] == 0;
    }
    var parent', dist' := parent[v := Link(Some(u), Some(m))], dist[v := dist[u] + 1];
    forall w | w in parent' && w != start
      ensures Linked(parent', dist', w)
    {
      if w != v {
        assert Linked(parent, dist, w);
      }
    }
  }

  /** a's board is recorded with b's board as its predecessor. */
  ghost predicate Follows(parent: map<State, Link>, a: Entry, b: Entry) {
    a.state in parent && parent[a.state].prev == Some(b.state)
  }

  /** A recorded board other than the root is a step from its recorded predecessor. */
  lemma LinkIsStep(start: State, parent: map<State, Link>, dist: map<State, nat>, v: State)
    requires Tree(start, parent, dist) && v in parent && v != start
    ensures parent[v].prev.Some? && parent[v].prev.value in parent
    ensures dist[v] == dist[parent[v].prev.value] + 1
    ensures Step(parent[v].prev.value, Entry(v, parent[v].move))
  {
    assert Linked(parent, dist, v);
    NeighborsComplete(parent[v].prev.value);
  }

  /** Only the root has no recorded predecessor. */
  lemma RootOnly(start: State, parent: map<State, Link>, dist: map<State, nat>, v: State)
    requires Tree(start, parent, dist) && v in parent && parent[v].prev.None?
    ensures v == start
  {
    assert v == start || Linked(parent, dist, v);
  }

  // ---------------------------------------------------------------------------
  // The queue, layer by layer

  /** Every successor of v is recorded, at most one level deeper than v. */
  ghost predicate Expanded(v: State, dist: map<State, nat>)
    requires v in dist
  {
    forall t :: IsMove(v, t) ==> t in dist && dist[t] <= dist[v] + 1
  }

  /**
   * The queue between two expansions: recorded boards without repeats, in
   * order of depth, spanning at most two depths; every recorded board off
   * the queue has been expanded and is no deeper than the head.
   */
  ghost predicate Queue(dist: map<State, nat>, frontier: seq<State>) {
    NoDups(frontier) && (forall v :: v in frontier ==> v in dist) &&
    (forall i, j :: 0 <= i < j < |frontier| ==> dist[frontier[i]] <= dist[frontier[j]]) &&
    (forall i :: 0 <= i < |frontier| ==> dist[frontier[i]] <= dist[frontier[0]] + 1) &&
    (forall v :: v in dist && v !in frontier ==>
      Expanded(v, dist) && (frontier != [] ==> dist[v] <= dist[frontier[0]]))
  }

  /**
   * The queue while cur is being expanded: recorded boards without repeats,
   * in order of depth, each as deep as cur or one deeper; every other
   * recorded board off the queue has been expanded and is no deeper than cur.
   */
  ghost predicate Visiting(dist: map<State, nat>, frontier: seq<State>, cur: State) {
    NoDups(frontier) && (forall v :: v in frontier ==> v in dist) &&
    cur in dist && cur !in frontier &&
    (forall i, j :: 0 <= i < j < |frontier| ==> dist[frontier[i]] <= dist[frontier[j]]) &&
    (forall i :: 0 <= i < |frontier| ==> dist[cur] <= dist[frontier[i]] <= dist[cur] + 1) &&
    (forall v :: v in dist && v !in frontier && v != cur ==> Expanded(v, dist) && dist[v] <= dist[cur])
  }

  /** The head of the queue is among its shallowest boards. */
  lemma HeadIsShallowest(dist: map<State, nat>, frontier: seq<State>)
    requires Queue(dist, frontier) && frontier != []
    ensures forall v :: v in frontier ==> dist[frontier[0]] <= dist[v]
  {
    forall v | v in frontier
      ensures dist[frontier[0]] <= dist[v]
    {
      var i :| 0 <= i < |frontier| && frontier[i] == v;
      if i > 0 {
        assert dist[frontier[0]] <= dist[frontier[i]];
      }
    }
  }

  /** Taking the head off the queue starts its expansion. */
  lemma Pop(dist: map<State, nat>, frontier: seq<State>)
    requires Queue(dist, frontier) && frontier != []
    ensures Visiting(dist, frontier[1..], frontier[0])
  {
    var cur, rest := frontier[0], frontier[1..];
    assert forall v :: v in rest ==> v in frontier;
    HeadIsShallowest(dist, frontier);
    forall v | v in dist && v !in rest && v != cur
      ensures Expanded(v, dist) && dist[v] <= dist[cur]
    {
      forall i | 0 <= i < |frontier|
        ensures frontier[i] != v
      {
        if i > 0 {
          assert frontier[i] == rest[i - 1];
        }
      }
    }
  }

  /** Appending an element not yet present keeps a sequence free of repeats. */
  lemma {:induction false} AppendFresh<T>(f: seq<T>, x: T)
    requires NoDups(f) && x !in f
    ensures NoDups(f + [x])
  {
    if f != [] {
      assert (f + [x])[1..] == f[1..] + [x];
      AppendFresh(f[1..], x);
    }
  }

  /** Queueing an unrecorded board one level below cur keeps the expansion's order. */
  lemma Enqueue(dist: map<State, nat>, frontier: seq<State>, cur: State, v: State)
    requires Visiting(dist, frontier, cur) && v !in dist
    ensures Visiting(dist[v := dist[cur] + 1], frontier + [v], cur)
  {
    var dist', frontier' := dist[v := dist[cur] + 1], frontier + [v];
    AppendFresh(frontier, v);
    forall w | w in dist && Expanded(w, dist)
      ensures Expanded(w, dist')
    {
    }
    forall w | w in dist' && w !in frontier' && w != cur
      ensures Expanded(w, dist') && dist'[w] <= dist'[cur]
    {
      assert w in dist && w !in frontier;
    }
    assert forall i :: 0 <= i < |frontier| ==> frontier'[i] == frontier[i];
  }

  /** A recorded board is at most one level below the board being expanded. */
  lemma Bounded(dist: map<State, nat>, frontier: seq<State>, cur: State, v: State)
    requires Visiting(dist, frontier, cur) && v in dist
    ensures dist[v] <= dist[cur] + 1
  {
    if v in frontier {
      var i :| 0 <= i < |frontier| && frontier[i] == v;
    }
  }

  /** Once all successors of cur are recorded, the queue is between expansions again. */
  lemma Finish(dist: map<State, nat>, frontier: seq<State>, cur: State)
    requires Visiting(dist, frontier, cur) && Expanded(cur, dist)
    ensures Queue(dist, frontier)
  {
  }

  /** Once every successor of cur is recorded, cur is expanded. */
  lemma NeighborsSeen(cur: State, dist: map<State, nat>, frontier: seq<State>)
    requires Movable(cur) && Visiting(dist, frontier, cur)
    requires forall k :: 0 <= k < |Neighbors(cur)| ==> Neighbors(cur)[k].state in dist
    ensures Expanded(cur, dist)
  {
    forall t | IsMove(cur, t)
      ensures t in dist && dist[t] <= dist[cur] + 1
    {
      Bounded(dist, frontier, cur, t);
    }
  }

  /**
   * When every recorded board shallower than d has been expanded, a walk of at
   * most d moves from start ends at a recorded board no deeper than the walk
   * is long.
   */
  lemma {:induction false} WalkWithinLayers(start: State, dist: map<State, nat>, d: nat, p: seq<State>)
    requires start in dist && dist[start] == 0
    requires forall v :: v in dist && dist[v] < d ==> Expanded(v, dist)
    requires IsWalk(p) && p[0] == start && |p| - 1 <= d
    ensures p[|p| - 1] in dist && dist[p[|p| - 1]] <= |p| - 1
  {
    if |p| > 1 {
      var q := p[..|p| - 1];
      WalkPrefix(p, |p| - 1);
      WalkWithinLayers(start, dist, d, q);
      assert q[|q| - 1] == p[|p| - 2];
      assert IsMove(p[|p| - 2], p[|p| - 1]);
    }
  }

  /**
   * When goal heads the queue, every board shallower than it has been
   * expanded, so no walk reaches goal in fewer moves than its depth.
   */
  lemma GoalIsNearest(start: State, goal: State, dist: map<State, nat>, frontier: seq<State>)
    requires start in dist && dist[start] == 0
    requires Queue(dist, frontier) && frontier != [] && frontier[0] == goal
    ensures goal in dist
    ensures forall p :: IsWalk(p) && p[0] == start && p[|p| - 1] == goal ==> dist[goal] <= |p| - 1
  {
    HeadIsShallowest(dist, frontier);
    forall p | IsWalk(p) && p[0] == start && p[|p| - 1] == goal
      ensures dist[goal] <= |p| - 1
    {
      if |p| - 1 < dist[goal] {
        WalkWithinLayers(start, dist, |p| - 1, p);
      }
    }
  }

  /** Once the queue is empty with goal unrecorded, no walk leads to goal. */
  lemma GoalUnreachable(start: State, goal: State, dist: map<State, nat>)
    requires start in dist && dist[start] == 0
    requires Queue(dist, []) && goal !in dist
    ensures !Reachable(start, goal)
  {
    if Reachable(start, goal) {
      var p :| IsWalk(p) && p[0] == start && p[|p| - 1] == goal;
      WalkWithinLayers(start, dist, |p| - 1, p);
    }
  }

  // ---------------------------------------------------------------------------
  // Why the search stops

  /** All sequences of length n over the given letters. */
  ghost function Words(letters: set<int>, n: nat): set<seq<int>>
  {
    if n == 0 then {[]}
    else set x, w | x in letters && w in Words(letters, n - 1) :: [x] + w
  }

  lemma {:induction false} InWords(letters: set<int>, s: seq<int>)
    requires forall i :: 0 <= i < |s| ==> s[i] in letters
    ensures s in Words(letters, |s|)
  {
    if s != [] {
      var x, w := s[0], s[1..];
      InWords(letters, w);
      assert s == [x] + w;
      assert x in letters && w in Words(letters, |s| - 1);
    }
  }

  /** The tiles of a board. */
  ghost function Letters(s: State): set<int>
  {
    set x | x in s
  }

  /** A board with the tiles of start is a word of its length over those tiles. */
  lemma SameTilesInWords(start: State, v: State)
    requires |v| == |start| && multiset(v) == multiset(start)
    ensures v in Words(Letters(start), |start|)
  {
    forall i | 0 <= i < |v|
      ensures v[i] in Letters(start)
    {
      assert v[i] in multiset(v);
    }
    InWords(Letters(start), v);
  }

  /**
   * A finite set of boards that holds start and is closed under moves: the
   * boards with the tiles of start.
   */
  lemma Rearrangements(start: State) returns (u: set<State>)
    requires Movable(start)
    ensures start in u
    ensures forall v, m :: v in u && Movable(v) && Legal(Blank(v), m) ==> Slide(v, m) in u
  {
    u := set v | v in Words(Letters(start), |start|) && |v| == |start| && multiset(v) == multiset(start);
    SameTilesInWords(start, start);
    forall v, m | v in u && Movable(v) && Legal(Blank(v), m)
      ensures Slide(v, m) in u
    {
      SameTilesInWords(start, Slide(v, m));
    }
  }

  /** The successors of a board of a set closed under moves lie in that set. */
  lemma SuccessorsWithin(u: set<State>, cur: State)
    requires Movable(cur) && cur in u
    requires forall v, m :: v in u && Movable(v) && Legal(Blank(v), m) ==> Slide(v, m) in u
    ensures forall k :: 0 <= k < |Neighbors(cur)| ==>
      Legal(Blank(cur), Neighbors(cur)[k].move) &&
      Neighbors(cur)[k].state == Slide(cur, Neighbors(cur)[k].move) &&
      Neighbors(cur)[k].state in u
  {
    NeighborsSound(cur);
  }

  /** What of a finite set is not yet recorded shrinks by what is. */
  lemma Unseen<T>(u: set<T>, a: set<T>)
    requires a <= u
    ensures |u - a| == |u| - |a|
  {
    assert u == (u - a) + a;
    assert (u - a) * a == {};
  }

  // ---------------------------------------------------------------------------
  // The solver

  /** The sequence in reverse order. */
  function Reversed<T>(s: seq<T>): (r: seq<T>)
    ensures |r| == |s| && forall i :: 0 <= i < |s| ==> r[i] == s[|s| - 1 - i]
  {
    if s == [] then [] else Reversed(s[1..]) + [s[0]]
  }

  /**
   * Breadth-first search from start to goal. The result is empty exactly when
   * no walk leads from start to goal; otherwise it is a solution, and a
   * shortest one.
   */
  method ExampleSolution(start: State, goal: State) returns (path: seq<Entry>)
    requires start != goal ==> Movable(start)
    ensures start == goal ==> path == [Entry(start, None)]
    ensures path == [] <==> !Reachable(start, goal)
    ensures path != [] ==> IsSolution(path, start, goal) && Shortest(path, start, goal)
  {
    if start == goal {
      path := [Entry(start, None)];
      SolutionReaches(path, start, goal);
      return;
    }
    var parent, dist, queued := Search(start, goal);
    if goal !in parent {
      return [];
    }
    var rev := Trace(start, goal, parent, dist);
    path := Reversed(rev);
    path := path[0 := Entry(path[0].state, None)];
    ClearedReversal(rev, path);
    SolutionFromRecords(start, goal, parent, dist, rev, path);
    SolutionReaches(path, start, goal);
  }

  /**
   * The queue loop of the search: takes boards off the front, stops at goal,
   * and records and queues every successor not recorded yet. queued lists
   * the boards in the order they entered the queue.
   */
  method Search(start: State, goal: State)
      returns (parent: map<State, Link>, ghost dist: map<State, nat>, ghost queued: seq<State>)
    requires Movable(start)
    ensures Tree(start, parent, dist)
    ensures goal in parent ==>
      forall p :: IsWalk(p) && p[0] == start && p[|p| - 1] == goal ==> dist[goal] <= |p| - 1
    ensures goal !in parent ==> !Reachable(start, goal)
    ensures NoDups(queued) && forall v :: v in parent <==> v in queued
  {
    var frontier: seq<State> := [start];
    parent := map[start := Link(None, None)];
    dist := map[start := 0];
    queued := [start];
    ghost var universe := Rearrangements(start);

    while frontier != []
      invariant Tree(start, parent, dist)
      invariant parent.Keys <= universe
      invariant Queue(dist, frontier)
      invariant goal in parent ==> goal in frontier
      invariant NoDups(queued) && forall v :: v in parent <==> v in queued
      invariant Suffix(frontier, queued)
      decreases |universe - parent.Keys| + |frontier|
    {
      var cur := frontier[0];
      ghost var before := frontier;
      frontier := frontier[1..];
      if cur == goal {
        GoalIsNearest(start, goal, dist, before);
        return;
      }
      Pop(dist, before);
      SuffixPop(before, queued);
      Unseen(universe, parent.Keys);
      var ns := Neighbors(cur);
      SuccessorsWithin(universe, cur);
      parent, dist, frontier, queued := Expand(start, goal, universe, cur, ns, parent, dist, frontier, queued);
      Unseen(universe, parent.Keys);
      NeighborsSeen(cur, dist, frontier);
      Finish(dist, frontier, cur);
    }
    GoalUnreachable(start, goal, dist);
  }

  /**
   * The state of the search while cur is being expanded: the records form a
   * tree inside universe, the queue is in expansion order, goal once recorded
   * is still queued, queued logs every record exactly once, and the queue is
   * the part of that log not yet taken off.
   */
  ghost predicate Expanding(start: State, goal: State, universe: set<State>, cur: State,
                            parent: map<State, Link>, dist: map<State, nat>,
                            frontier: seq<State>, queued: seq<State>) {
    Tree(start, parent, dist) && Visiting(dist, frontier, cur) && parent.Keys <= universe &&
    (goal in parent ==> goal in frontier) &&
    NoDups(queued) && (forall v :: v in parent <==> v in queued) && Suffix(frontier, queued)
  }

  /** The queue f is what is left of the log once its first entries are taken off. */
  ghost predicate Suffix<T>(f: seq<T>, log: seq<T>) {
    |f| <= |log| && f == log[|log| - |f|..]
  }

  /** Taking the head off the queue leaves a suffix of the log. */
  lemma SuffixPop<T>(f: seq<T>, log: seq<T>)
    requires Suffix(f, log) && f != []
    ensures Suffix(f[1..], log)
  {
  }

  /** Appending the same boards to the queue and to the log keeps the queue a suffix. */
  lemma SuffixAppend<T>(f: seq<T>, log: seq<T>, a: seq<T>)
    requires Suffix(f, log)
    ensures Suffix(f + a, log + a)
  {
  }

  /**
   * The records after visiting the successors ns of cur in order: a board
   * not recorded yet is recorded with cur as predecessor and the move that
   * reaches it; an existing record is never replaced.
   */
  ghost function Discovered(cur: State, ns: seq<Succ>, parent: map<State, Link>): map<State, Link>
  {
    if ns == [] then parent
    else
      var m := Discovered(cur, ns[..|ns| - 1], parent);
      var x := ns[|ns| - 1];
      if x.state in m then m else m[x.state := Link(Some(cur), Some(x.move))]
  }

  /** The boards of ns not in known, each at its first occurrence, in the order of ns. */
  ghost function Fresh(ns: seq<Succ>, known: set<State>): seq<State>
  {
    if ns == [] then []
    else
      var f := Fresh(ns[..|ns| - 1], known);
      var x := ns[|ns| - 1].state;
      if x in known || x in f then f else f + [x]
  }

  /** The boards recorded after the visits are the old ones and the fresh ones. */
  lemma {:induction false} DiscoveredKeys(cur: State, ns: seq<Succ>, parent: map<State, Link>)
    ensures forall v :: v in Discovered(cur, ns, parent) <==> v in parent || v in Fresh(ns, parent.Keys)
  {
    if ns != [] {
      DiscoveredKeys(cur, ns[..|ns| - 1], parent);
    }
  }

  /** Visiting the successors one more step: what `Visit` does to the records and the queue. */
  lemma VisitStep(cur: State, ns: seq<Succ>, j: nat, parent: map<State, Link>)
    requires j < |ns|
    ensures var m := Discovered(cur, ns[..j], parent);
      Discovered(cur, ns[..j + 1], parent) ==
        (if ns[j].state in m then m else m[ns[j].state := Link(Some(cur), Some(ns[j].move))]) &&
      Fresh(ns[..j + 1], parent.Keys) ==
        Fresh(ns[..j], parent.Keys) + (if ns[j].state in m then [] else [ns[j].state])
  {
    assert ns[..j + 1][..j] == ns[..j];
    DiscoveredKeys(cur, ns[..j], parent);
  }

  /** An existing record is kept as it is. */
  lemma {:induction false} DiscoveredKeeps(cur: State, ns: seq<Succ>, parent: map<State, Link>)
    ensures forall v :: v in parent ==> v in Discovered(cur, ns, parent) && Discovered(cur, ns, parent)[v] == parent[v]
  {
    if ns != [] {
      DiscoveredKeeps(cur, ns[..|ns| - 1], parent);
    }
  }

  /** Every new record names cur as predecessor and a move of ns that reaches the board. */
  lemma {:induction false} DiscoveredLinks(cur: State, ns: seq<Succ>, parent: map<State, Link>)
    ensures forall v :: v in Discovered(cur, ns, parent) && v !in parent ==>
      Discovered(cur, ns, parent)[v].prev == Some(cur) &&
      exists k :: 0 <= k < |ns| && ns[k].state == v && Discovered(cur, ns, parent)[v].move == Some(ns[k].move)
  {
    if ns != [] {
      var init := ns[..|ns| - 1];
      DiscoveredLinks(cur, init, parent);
      var m := Discovered(cur, init, parent);
      forall v | v in Discovered(cur, ns, parent) && v !in parent
        ensures Discovered(cur, ns, parent)[v].prev == Some(cur) &&
          exists k :: 0 <= k < |ns| && ns[k].state == v && Discovered(cur, ns, parent)[v].move == Some(ns[k].move)
      {
        if v in m {
          var k :| 0 <= k < |init| && init[k].state == v && m[v].move == Some(init[k].move);
          assert ns[k] == init[k];
        } else {
          assert ns[|ns| - 1].state == v;
        }
      }
    }
  }

  /**
   * The fresh boards are exactly the boards of ns outside known, each listed
   * once.
   */
  lemma {:induction false} FreshFilter(ns: seq<Succ>, known: set<State>)
    ensures NoDups(Fresh(ns, known))
    ensures forall v :: v in Fresh(ns, known) <==> v !in known && exists k :: 0 <= k < |ns| && ns[k].state == v
  {
    if ns != [] {
      var init := ns[..|ns| - 1];
      FreshFilter(init, known);
      var f := Fresh(init, known);
      var x := ns[|ns| - 1].state;
      if !(x in known || x in f) {
        AppendFresh(f, x);
      }
      forall v | v !in known && exists k :: 0 <= k < |ns| && ns[k].state == v
        ensures v in Fresh(ns, known)
      {
        var k :| 0 <= k < |ns| && ns[k].state == v;
        if k < |ns| - 1 {
          assert init[k].state == v;
        }
      }
      forall v | v in Fresh(ns, known)
        ensures exists k :: 0 <= k < |ns| && ns[k].state == v
      {
        if v in f {
          var k :| 0 <= k < |init| && init[k].state == v;
          assert ns[k].state == v;
        } else {
          assert ns[|ns| - 1].state == v;
        }
      }
    }
  }

  /**
   * The inner loop of the search, expanding cur: records and queues, in
   * order, the boards of ns (the successors of cur, with their moves) not
   * recorded yet.
   */
  method Expand(ghost start: State, ghost goal: State, ghost universe: set<State>, cur: State,
                ns: seq<Succ>, parent: map<State, Link>, ghost dist: map<State, nat>,
                frontier: seq<State>, ghost queued: seq<State>)
      returns (parent': map<State, Link>, ghost dist': map<State, nat>,
               frontier': seq<State>, ghost queued': seq<State>)
    requires Expanding(start, goal, universe, cur, parent, dist, frontier, queued)
    requires Movable(cur)
    requires forall k :: 0 <= k < |ns| ==>
      Legal(Blank(cur), ns[k].move) && ns[k].state == Slide(cur, ns[k].move) && ns[k].state in universe
    ensures Expanding(start, goal, universe, cur, parent', dist', frontier', queued')
    ensures parent' == Discovered(cur, ns, parent)
    ensures frontier' == frontier + Fresh(ns, parent.Keys) && queued' == queued + Fresh(ns, parent.Keys)
    ensures forall v :: v in parent ==> v in parent' && parent'[v] == parent[v]
    ensures forall v :: v in parent' && v !in parent ==> parent'[v].prev == Some(cur)
    ensures forall k :: 0 <= k < |ns| ==> ns[k].state in parent'
    ensures |frontier'| - |frontier| == |parent'.Keys| - |parent.Keys|
  {
    parent', dist', frontier', queued' := parent, dist, frontier, queued;
    for j := 0 to |ns|
      invariant Expanding(start, goal, universe, cur, parent', dist', frontier', queued')
      invariant Progress(cur, ns, j, parent, frontier, queued, parent', frontier', queued')
      invariant forall k :: 0 <= k < j ==> ns[k].state in parent'
      invariant |frontier'| - |frontier| == |parent'.Keys| - |parent.Keys|
    {
      ghost var p0, f0, q0 := parent', frontier', queued';
      parent', dist', frontier', queued' :=
        Visit(start, goal, universe, cur, ns[j].state, ns[j].move, parent', dist', frontier', queued');
      Advance(cur, ns, j, parent, frontier, queued, p0, f0, q0, parent', frontier', queued');
      Covered(ns, j, p0, parent');
    }
    assert ns[..|ns|] == ns;
    DiscoveredKeeps(cur, ns, parent);
    DiscoveredLinks(cur, ns, parent);
  }

  /** After the first j visits, the records and the queue are as `Discovered` and `Fresh` give them. */
  ghost predicate Progress(cur: State, ns: seq<Succ>, j: nat, parent: map<State, Link>,
                           frontier: seq<State>, queued: seq<State>,
                           parent': map<State, Link>, frontier': seq<State>, queued': seq<State>)
    requires j <= |ns|
  {
    parent' == Discovered(cur, ns[..j], parent) &&
    frontier' == frontier + Fresh(ns[..j], parent.Keys) &&
    queued' == queued + Fresh(ns[..j], parent.Keys)
  }

  /** One more visit, changing the state as `Visit` promises, keeps that correspondence. */
  lemma Advance(cur: State, ns: seq<Succ>, j: nat, parent: map<State, Link>,
                frontier: seq<State>, queued: seq<State>,
                p0: map<State, Link>, f0: seq<State>, q0: seq<State>,
                p1: map<State, Link>, f1: seq<State>, q1: seq<State>)
    requires j < |ns| && Progress(cur, ns, j, parent, frontier, queued, p0, f0, q0)
    requires ns[j].state !in p0 ==>
      p1 == p0[ns[j].state := Link(Some(cur), Some(ns[j].move))] &&
      f1 == f0 + [ns[j].state] && q1 == q0 + [ns[j].state]
    requires ns[j].state in p0 ==> p1 == p0 && f1 == f0 && q1 == q0
    ensures Progress(cur, ns, j + 1, parent, frontier, queued, p1, f1, q1)
  {
    VisitStep(cur, ns, j, parent);
  }

  /** Recording the j-th successor keeps the earlier ones recorded. */
  lemma Covered(ns: seq<Succ>, j: nat, before: map<State, Link>, after: map<State, Link>)
    requires j < |ns| && ns[j].state in after
    requires forall k :: 0 <= k < j ==> ns[k].state in before
    requires forall v :: v in before ==> v in after
    ensures forall k :: 0 <= k <= j ==> ns[k].state in after
  {
  }

  /**
   * One successor nxt of cur, reached by mv: recorded with cur as its parent
   * and queued when not recorded yet; otherwise nothing changes.
   */
  method Visit(ghost start: State, ghost goal: State, ghost universe: set<State>, cur: State,
               nxt: State, mv: Move, parent: map<State, Link>, ghost dist: map<State, nat>,
               frontier: seq<State>, ghost queued: seq<State>)
      returns (parent': map<State, Link>, ghost dist': map<State, nat>,
               frontier': seq<State>, ghost queued': seq<State>)
    requires Expanding(start, goal, universe, cur, parent, dist, frontier, queued)
    requires Movable(cur) && Legal(Blank(cur), mv) && nxt == Slide(cur, mv) && nxt in universe
    ensures Expanding(start, goal, universe, cur, parent', dist', frontier', queued')
    ensures nxt !in parent ==>
      parent' == parent[nxt := Link(Some(cur), Some(mv))] && dist' == dist[nxt := dist[cur] + 1] &&
      frontier' == frontier + [nxt] && queued' == queued + [nxt]
    ensures nxt in parent ==> parent' == parent && dist' == dist && frontier' == frontier && queued' == queued
    ensures nxt in parent' && forall v :: v in parent ==> v in parent'
    ensures |frontier'| - |frontier| == |parent'.Keys| - |parent.Keys|
  {
    parent', dist', frontier', queued' := parent, dist, frontier, queued;
    if nxt !in parent {
      Record(start, parent, dist, cur, nxt, mv);
      Enqueue(dist, frontier, cur, nxt);
      AppendFresh(queued, nxt);
      SuffixAppend(frontier, queued, [nxt]);
      parent' := parent[nxt := Link(Some(cur), Some(mv))];
      dist' := dist[nxt := dist[cur] + 1];
      frontier' := frontier + [nxt];
      queued' := queued + [nxt];
    }
  }

  /**
   * The reconstruction loop: follows the records back from goal to the root,
   * collecting each board with the move recorded for it.
   */
  method Trace(start: State, goal: State, parent: map<State, Link>, ghost dist: map<State, nat>)
      returns (rev: seq<Entry>)
    requires Tree(start, parent, dist) && goal in parent
    ensures rev != [] && rev[0].state == goal
    ensures forall k :: 0 <= k < |rev| ==> rev[k].state in parent && rev[k].move == parent[rev[k].state].move
    ensures forall k :: 0 <= k < |rev| - 1 ==> Follows(parent, rev[k], rev[k + 1])
    ensures parent[rev[|rev| - 1].state].prev == None
    ensures |rev| == dist[goal] + 1
  {
    rev := [];
    var cur: Option<State> := Some(goal);
    while cur.Some?
      invariant cur.Some? ==> cur.value in parent
      invariant rev == [] ==> cur == Some(goal)
      invariant rev != [] ==>
        rev[0].state == goal && rev[|rev| - 1].state in parent && cur == parent[rev[|rev| - 1].state].prev
      invariant forall k :: 0 <= k < |rev| ==>
        rev[k].state in parent && rev[k].move == parent[rev[k].state].move
      invariant forall k :: 0 <= k < |rev| - 1 ==> Follows(parent, rev[k], rev[k + 1])
      invariant cur.Some? ==> |rev| + dist[cur.value] == dist[goal]
      invariant cur.None? ==> |rev| == dist[goal] + 1
      decreases if cur.Some? then dist[cur.value] + 1 else 0
    {
      var link := parent[cur.value];
      if cur.value != start {
        LinkIsStep(start, parent, dist, cur.value);
      }
      rev := rev + [Entry(cur.value, link.move)];
      cur := link.prev;
    }
  }

  /** The reversal of rev with its first move cleared holds rev's entries from last to first. */
  lemma ClearedReversal(rev: seq<Entry>, path: seq<Entry>)
    requires rev != [] && path == Reversed(rev)[0 := Entry(Reversed(rev)[0].state, None)]
    ensures |path| == |rev| && path[0] == Entry(rev[|rev| - 1].state, None)
    ensures forall k :: 0 < k < |rev| ==> path[k] == rev[|rev| - 1 - k]
  {
  }

  /** The chain of records read from the root, its first move cleared, is a shortest solution. */
  lemma SolutionFromRecords(start: State, goal: State, parent: map<State, Link>, dist: map<State, nat>,
                            rev: seq<Entry>, path: seq<Entry>)
    requires Tree(start, parent, dist) && goal in parent
    requires forall p :: IsWalk(p) && p[0] == start && p[|p| - 1] == goal ==> dist[goal] <= |p| - 1
    requires rev != [] && rev[0].state == goal
    requires forall k :: 0 <= k < |rev| ==> rev[k].state in parent && rev[k].move == parent[rev[k].state].move
    requires forall k :: 0 <= k < |rev| - 1 ==> Follows(parent, rev[k], rev[k + 1])
    requires parent[rev[|rev| - 1].state].prev == None
    requires |rev| == dist[goal] + 1
    requires |path| == |rev| && path[0] == Entry(rev[|rev| - 1].state, None)
    requires forall k :: 0 < k < |rev| ==> path[k] == rev[|rev| - 1 - k]
    ensures IsSolution(path, start, goal) && Shortest(path, start, goal)
  {
    var n := |rev|;
    RootOnly(start, parent, dist, rev[n - 1].state);
    forall k | 0 <= k < n - 1
      ensures Step(path[k].state, path[k + 1])
    {
      var v := rev[n - 2 - k].state;
      assert path[k + 1] == rev[n - 1 - (k + 1)];
      assert path[k].state == rev[n - 1 - k].state;
      assert Follows(parent, rev[n - 2 - k], rev[n - 1 - k]);
      LinkIsStep(start, parent, dist, v);
    }
  }

}

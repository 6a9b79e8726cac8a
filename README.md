# 8-puzzle: state model, scrambler and breadth-first solver

A Dafny model of the core of an 8-puzzle player written in Python (`main.py`,
lines 7–121). The model covers four parts:

- **State model.** A board is the sequence of its nine cells in row-major order, 0 standing for the blank.
- **Move generator.** `neighbors` finds the blank and yields the boards reached by sliding it Up, Down, Left or Right. The order is fixed, and each move is guarded by a row or column bound read through the `IX_TO_RC` / `RC_TO_IX` tables.
- **Scrambler.** `scramble` is a random walk of `steps` moves. It filters out the board in `last`, unless that leaves nothing.
- **Solver.** `example_solution` is a breadth-first search over a FIFO queue and a `parent` dictionary. It stops when the goal is taken off the queue. It returns `[]` when the goal was never discovered. Otherwise it rebuilds the path from the parent records, reverses it and clears the first move.

Files:

- `option.dfy`: module `Options`, the `Option` datatype, standing for Python's `None`.
- `puzzle.dfy`: module `Puzzle`, with boards, the two tables, `Swap` and the move generator.
  - `Neighbors` follows the table-driven code. `Successors` is an independent reference definition in index arithmetic (`Legal`, `Target`, `Slide`), and `NeighborsAgree` proves the two equal.
  - It also defines walks over the move graph (`IsMove`, `IsWalk`, `Reachable`).
- `scramble.dfy`: module `Scrambler`.
  - `Scramble` is the loop as written, with the random pick as a nondeterministic choice.
  - `ScrambleNoReversal` is the corrected loop (see Findings).
- `solver.dfy`: module `Solver`, the search.
  - `ExampleSolution` is the function as a whole.
  - Its queue loop is `Search`. The inner loop over the successors is `Expand`, and one iteration of that loop is `Visit`. The reconstruction loop is `Trace`.
  - The `parent` dictionary is a `map`, and the deque is a `seq` that is popped at the front and appended at the back.
  - Ghost state used only by the proofs: a depth map `dist` and a log `queued` of every board in the order it entered the queue.

Two things the proof needs about the search:

- **Termination.** Every recorded board lies in the finite set of boards with the tiles of `start`, and that set is closed under moves (`Rearrangements`). The queue loop therefore decreases the number of unrecorded boards in that set plus the queue length.
- **Optimality.** It rests on a layering invariant (`Queue`, `Visiting`):
  - the queue is ordered by depth and spans at most two depths;
  - every recorded board that is not on the queue has all of its successors recorded, at most one level deeper.

## Model

| member | source | states |
|---|---|---|
| Puzzle.GoalWellFormed | main.py:8 | The goal board is a permutation of 0..8 and has a blank. |
| Puzzle.IxToRc | main.py:10 | `IX_TO_RC` has nine entries. Entry i is a (row, column) pair of the grid whose row-major index is i. |
| Puzzle.RcToIx | main.py:11 | `RC_TO_IX` is defined on exactly the nine grid pairs. It maps (r, c) to a cell index in 0..8 whose row is r and whose column is c. |
| Puzzle.TablesInverse | main.py:10-11 | The two tables are inverse bijections between 0..8 and the nine (row, column) pairs. Row and column stay in 0..2, and `RC_TO_IX[IX_TO_RC[i]] == i` for every i in 0..8. |
| Puzzle.Swap | main.py:20-21 | The result has the same length and holds `s[j]` at i and `s[i]` at j. Every other cell is unchanged, and the multiset of values is the same. |
| Puzzle.SwapInvolutive | main.py:20-21 | Exchanging the same two cells twice gives back the original board. |
| Puzzle.SwapSymmetric | main.py:20-21 | Exchanging i with j is the same as exchanging j with i. |
| Puzzle.IndexOf | main.py:14 | `s.index(0)`: a valid index holding the value, with no earlier index holding it. |
| Puzzle.Blank | main.py:14 | `zi = s.index(0)` is a cell index in 0..8 holding the blank, and no earlier cell holds it. |
| Puzzle.BlankUnique | main.py:14 | On a well-formed board, the index found is the only cell holding 0. |
| Puzzle.LegalIsGuard | main.py:14-18 | A move is legal exactly when the generator's guard holds (`zr > 0`, `zr < 2`, `zc > 0`, `zc < 2`). The `RC_TO_IX` entry it reads is the cell the blank moves to. |
| Puzzle.TargetInGrid | main.py:15-18 | A legal move keeps the blank in the grid and moves it. The opposite move is legal from there and leads back. |
| Puzzle.Slide | main.py:15-18 | Applying a legal move keeps nine cells and the same tiles, and puts the blank at the target cell. |
| Puzzle.Neighbors | main.py:13-18 | A board with a blank has between 2 and 4 successors. |
| Puzzle.NeighborsAgree | main.py:13-18 | The table-driven generator yields exactly the reference list: each legal move of the blank, in the order Up, Down, Left, Right, applied to the board. |
| Puzzle.SuccessorsSound | main.py:15-18 | Every reference successor is a legal move of the blank, applied to the board. |
| Puzzle.SuccessorsComplete | main.py:15-18 | Every legal move of the blank, applied, is among the reference successors. |
| Puzzle.NeighborsSound | main.py:13-18 | Every yielded pair is a legal move together with the board that move produces. |
| Puzzle.NeighborsComplete | main.py:13-18 | Every legal move, with its board, is yielded. |
| Puzzle.NeighborsOrdered | main.py:15-18 | The yielded labels come in strictly increasing Up < Down < Left < Right order, so none repeats. |
| Puzzle.NeighborsDistinct | main.py:13-18 | On a well-formed board the yielded boards are pairwise different. |
| Puzzle.SlideWellFormed | main.py:15-21 | A move takes a well-formed board to a different well-formed board whose blank is at the target cell. |
| Puzzle.SlideReversible | main.py:15-21 | The opposite move is legal on the new board and restores the original board. |
| Puzzle.NeighborsReversible | main.py:13-21 | Each successor of a well-formed board is well formed and differs from it. Its blank is at the target cell, and the original board is among its successors under the opposite label. |
| Puzzle.MovePreserves | main.py:13-21 | A move keeps the board movable and its tiles the same, and keeps a well-formed board well formed. |
| Scrambler.Without | main.py:28 | The list comprehension keeps exactly the options whose board differs from the excluded one, and never more options than it was given. |
| Scrambler.WithoutAppend | main.py:28 | Filtering a concatenation gives the filtered parts concatenated. With the membership clause of `Without` on one option, this makes the result the options kept in their original order. |
| Scrambler.Choices | main.py:26-28 | The options are never empty (the `or opts` fallback), and all are successors of the current board. With no board recorded they are all the successors. With a board recorded, every successor leading elsewhere is offered. If there is one, no offered option leads to the recorded board. If there is none, all the successors are offered. |
| Scrambler.PickStep | main.py:26-29 | Whatever option is picked is a move of the blank. It keeps the board movable, keeps a well-formed board well formed, and keeps the tiles. |
| Scrambler.Scramble | main.py:23-31 | The result is the end of a walk of exactly `steps` moves starting at `state`, so `steps == 0` returns `state` whatever it is. The tiles are unchanged, and a board with a blank stays one. |
| Scrambler.ChoicesKeepAll | main.py:26-30 | Since `last` is always the current board, the filter removes nothing: the options are all the successors. |
| Scrambler.ScrambleMayUndo | main.py:26-30 | From the goal, after the move Up, the move Down, which returns to the goal, is still offered. |
| Scrambler.ChoicesAvoid | main.py:28 | Filtering the successors of a well-formed board by a recorded board never offers that board. |
| Scrambler.ChoiceStep | main.py:26-29 | Any pick is a move that keeps the board well formed. When a board is recorded, the pick differs from it. |
| Scrambler.ScrambleNoReversal | main.py:23-31 | The corrected loop returns the end of a walk of exactly `steps` moves from `state`. The walk never steps back to the board it has just left. |
| Solver.SolutionReaches | main.py:37-42 | The boards of a solution form a walk, so the goal is reachable. |
| Solver.Record | main.py:84 | Recording a successor of a recorded board, with its predecessor and move, keeps the records a tree rooted at start. |
| Solver.LinkIsStep | main.py:84 | The record of a non-root board names a recorded predecessor one level shallower. The board and its move are among that predecessor's successors. |
| Solver.RootOnly | main.py:103-107 | Only the start board is recorded without a predecessor. |
| Solver.HeadIsShallowest | main.py:67-69 | The head of the queue has the least depth on it. |
| Solver.Pop | main.py:69 | Taking the head off the queue leaves a queue that is in depth order and spans its depth and the next. |
| Solver.AppendFresh | main.py:85 | Appending an element not yet present keeps a sequence free of repeats. |
| Solver.Enqueue | main.py:84-85 | Queueing an unrecorded board one level below the current one keeps the queue in depth order. |
| Solver.Bounded | main.py:81-85 | While a board is expanded, every recorded board is at most one level below it. |
| Solver.NeighborsSeen | main.py:81-87 | Once every successor of the current board is recorded, the board is expanded. |
| Solver.Finish | main.py:81-89 | After the expansion, the queue satisfies the between-expansions invariant again. |
| Solver.WalkWithinLayers | main.py:67-89 | When every board shallower than d is expanded, a walk of at most d moves from start ends at a recorded board no deeper than the walk's length. |
| Solver.GoalIsNearest | main.py:76-78 | When the goal is dequeued it is recorded, and no walk from start reaches it in fewer moves than its depth. |
| Solver.GoalUnreachable | main.py:91-95 | When the queue empties without the goal recorded, no walk leads from start to goal. |
| Solver.Rearrangements | main.py:67 | The boards with the tiles of start form a finite set that contains start and is closed under moves. This bounds the search. |
| Solver.SuccessorsWithin | main.py:81 | The successors of a board of that set are in the set. |
| Solver.Search | main.py:57-95 | The queue loop leaves the records a tree rooted at start. If the goal is recorded, its depth is at most the length of any walk to it. If it is not recorded, it is unreachable. `queued` lists every recorded board exactly once, so no board is recorded or queued twice. Throughout the loop the queue is the part of `queued` not yet taken off, so `queued` is the log of everything appended to the queue. |
| Solver.SuffixPop | main.py:69 | Taking the head off the queue leaves it the untaken part of the log. |
| Solver.SuffixAppend | main.py:85 | Appending the same boards to the queue and to the log keeps the queue the untaken part of the log. |
| Solver.Expand | main.py:81-87 | After the loop over the successors, the records are `Discovered` from the old ones: existing records are unchanged, and every new record names the current board as predecessor. The queue and the log each gain exactly `Fresh`: the successors not recorded before, each once, in the order the generator yields them. Every successor is recorded, and the search invariant is kept. |
| Solver.DiscoveredKeys | main.py:81-85 | The boards recorded after the visits are the old ones together with the fresh ones. |
| Solver.DiscoveredKeeps | main.py:82-84 | No existing record is replaced. |
| Solver.DiscoveredLinks | main.py:84 | Each new record names the expanded board as predecessor and the move of a successor that reaches the recorded board. |
| Solver.FreshFilter | main.py:81-85 | The appended boards are exactly the successors' boards that were not recorded, and none is appended twice. |
| Solver.VisitStep | main.py:81-85 | Visiting one more successor records it and appends it when it is not recorded yet, and otherwise changes nothing. |
| Solver.Advance | main.py:81-85 | A visit that changes the state as `Visit` promises keeps the records and the queue equal to `Discovered` and `Fresh` of the successors visited so far. |
| Solver.Covered | main.py:81-87 | Recording the next successor keeps the earlier ones recorded. |
| Solver.Visit | main.py:82-85 | A successor not yet recorded gets the record (current board, move) and is appended to the queue and to the log, one level below the current board. A successor already recorded leaves records, queue and log exactly as they were. Afterwards it is recorded and the search invariant holds. |
| Solver.Trace | main.py:99-108 | The reconstruction loop collects the goal first, then each recorded predecessor in turn, ending at the board without one, with each entry's recorded move. It collects one entry per depth level plus one. |
| Solver.Reversed | main.py:111 | `path.reverse()`: same length, with entry i taken from position `len - 1 - i`. |
| Solver.ClearedReversal | main.py:111-114 | The reversed list with its first move cleared starts with `(root, None)` and holds the collected entries from last to first. |
| Solver.SolutionFromRecords | main.py:97-121 | That list is a solution and a shortest one. It starts at `(start, None)` and ends at the goal. Each entry is a successor of the one before, by its recorded move, and no walk from start to goal has fewer boards. |
| Solver.ExampleSolution | main.py:33-121 | If `start == goal`, the result is `[(start, None)]`, whatever the board is. The result is empty exactly when the goal is unreachable. Otherwise it is a solution that is also a shortest one. |

## Left out

- The Tk application (`main.py:125-256`) and every `print` inside `example_solution`. The step and depth counters exist only for those prints.
- `random.choice` is a nondeterministic pick (`:|`); every property holds whatever is picked. Uniformity of the pick is not modelled.
- Moves are the datatype `Move` rather than the strings 'Up', 'Down', 'Left', 'Right'. Python's `None` move or predecessor is `Option.None`.
- The deque and dictionary are a `seq` and a `map` passed between methods. The queue loop and the reconstruction loop are separate methods (`Search`, `Trace`), and so are the inner loop and its body (`Expand`, `Visit`), so that each proof stays small.
- Solver.Reversed: `path.reverse()` in place is the function `Reversed`. `path[0] = ...` is a sequence update.
- Solver.ExampleSolution: when `start != goal`, the start board must have nine cells and a blank, because the program's `State` is such a board. The only caller (`main.py:184`) passes the application's start board, which is `GOAL` (`main.py:136`) or a scramble of it (`main.py:169`). Python's behaviour on other boards is not modelled: an exception, or moves made on the first nine cells only. The goal board may be anything.
- Puzzle.Neighbors: requires a board of nine cells with a blank, for the same reason. Python's `neighbors` raises on a board without a blank, and that exception is not modelled.
- Scrambler.Scramble: requires a board with a blank only when `steps > 0`. Python's `scramble(state, 0)` returns any state unchanged, and so does the model. A positive number of steps on a board without a blank raises in Python, and that is not modelled. `steps` is a `nat`: a negative count, which Python's `range` treats as 0 (the board is returned unchanged), is not modelled.
- The parity criterion for which boards are mutually reachable is not modelled. The contract says instead that the result is empty exactly when no walk leads from start to goal.
- Scramble's default `steps=20` and the application's choice of 18 steps are a parameter.

## Findings

The filter on line 28 is there to keep the walk from stepping straight back to the board it has just left. The code stores the board just moved to instead. The model follows the code (`Scramble`) and models the intended behaviour separately (`ScrambleNoReversal`).

| source | as written | input that shows it | evidently intended | confidence | as-written member | corrected member |
|---|---|---|---|---|---|---|
| main.py:30 | `last = s` stores the board just reached. On the next step the filter on line 28 compares the successors with the current board, and no successor equals it, so nothing is removed. | From the goal, the blank moves Up. The move Down, back to the goal, is still among the options. | `last` holds the board before the move, so a step never returns to the board just left. | not executed | Scrambler.ScrambleMayUndo | Scrambler.ScrambleNoReversal |

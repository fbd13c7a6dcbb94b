/**
 * The server's game state (`GameState` in the `game` package): the board
 * of cells, its size and mine count, the game-over/won flags, the
 * revealed and hints-used counters, the loser and the flag-setting log.
 * The board is a grid value the methods reassign cell by cell; the
 * random-number generator is an input (the cells it would draw).
 */
module GameStates {
  import opened Common
  import opened Grids

  /** A cell: mine, opened, flagged, its neighbour count and the colour of its flag. */
  datatype Cell = Cell(isMine: bool, isRevealed: bool, isFlagged: bool, neighborMines: int, flagColor: string)

  /** Go's zero `Cell`. */
  const EmptyCell := Cell(false, false, false, 0, "")

  datatype CellHint = CellHint(row: int, col: int, hintType: string)

  /** Who set a flag, and when (nanoseconds). */
  datatype FlagInfo = FlagInfo(setTime: int, playerId: string)

  // ---------------------------------------------------------------------
  // The board

  predicate MineAt(b: seq<seq<Cell>>, rows: int, cols: int, p: Pos)
    requires IsGrid(b, rows, cols)
  {
    InGrid(p, rows, cols) && b[p.row][p.col].isMine
  }

  /** Mines among the first `n` neighbours of `p` (the cell itself excluded). */
  function MinesAround(b: seq<seq<Cell>>, rows: int, cols: int, p: Pos, n: nat): (c: nat)
    requires IsGrid(b, rows, cols) && n <= 8
    ensures c <= n
  {
    if n == 0 then 0 else MinesAround(b, rows, cols, p, n - 1) + (if MineAt(b, rows, cols, Nb(p, n - 1)) then 1 else 0)
  }

  /** The two boards have their mines in the same places. */
  predicate SameMines(a: seq<seq<Cell>>, b: seq<seq<Cell>>, rows: int, cols: int)
    requires IsGrid(a, rows, cols) && IsGrid(b, rows, cols)
  {
    forall r, c :: 0 <= r < rows && 0 <= c < cols ==> a[r][c].isMine == b[r][c].isMine
  }

  lemma {:induction false} MinesAroundSameMines(a: seq<seq<Cell>>, b: seq<seq<Cell>>, rows: int, cols: int, p: Pos, n: nat)
    requires IsGrid(a, rows, cols) && IsGrid(b, rows, cols) && SameMines(a, b, rows, cols) && n <= 8
    ensures MinesAround(a, rows, cols, p, n) == MinesAround(b, rows, cols, p, n)
  {
    if n > 0 {
      MinesAroundSameMines(a, b, rows, cols, p, n - 1);
    }
  }

  /** No count: no neighbour among the first `n` is a mine. */
  lemma {:induction false} MinesAroundZero(b: seq<seq<Cell>>, rows: int, cols: int, p: Pos, n: nat)
    requires IsGrid(b, rows, cols) && n <= 8
    ensures MinesAround(b, rows, cols, p, n) == 0 <==> forall k :: 0 <= k < n ==> !MineAt(b, rows, cols, Nb(p, k))
  {
    if n > 0 {
      MinesAroundZero(b, rows, cols, p, n - 1);
    }
  }

  /** A cell with no mine around it has no adjacent mine at all, and conversely. */
  lemma NoMinesAroundMeansNoAdjacentMine(b: seq<seq<Cell>>, rows: int, cols: int, p: Pos)
    requires IsGrid(b, rows, cols)
    ensures MinesAround(b, rows, cols, p, 8) == 0 <==> forall q :: Adjacent(p, q) ==> !MineAt(b, rows, cols, q)
  {
    MinesAroundZero(b, rows, cols, p, 8);
    if MinesAround(b, rows, cols, p, 8) == 0 {
      forall q | Adjacent(p, q)
        ensures !MineAt(b, rows, cols, q)
      {
        AdjacentIsNb(p, q);
      }
    } else {
      var k :| 0 <= k < 8 && MineAt(b, rows, cols, Nb(p, k));
      NbIsAdjacent(p, k);
    }
  }

  /** Every cell that is not a mine shows the number of mines around it. */
  predicate Consistent(b: seq<seq<Cell>>, rows: int, cols: int)
    requires IsGrid(b, rows, cols)
  {
    forall r, c :: 0 <= r < rows && 0 <= c < cols && !b[r][c].isMine ==>
      b[r][c].neighborMines == MinesAround(b, rows, cols, Pos(r, c), 8)
  }

  /** The opened cells. */
  function RevealedSet(b: seq<seq<Cell>>, rows: int, cols: int): set<Pos>
    requires IsGrid(b, rows, cols)
  {
    set r, c | 0 <= r < rows && 0 <= c < cols && b[r][c].isRevealed :: Pos(r, c)
  }

  /** The closed cells. */
  function ClosedSet(b: seq<seq<Cell>>, rows: int, cols: int): set<Pos>
    requires IsGrid(b, rows, cols)
  {
    set r, c | 0 <= r < rows && 0 <= c < cols && !b[r][c].isRevealed :: Pos(r, c)
  }

  /** The mines. */
  function MineSet(b: seq<seq<Cell>>, rows: int, cols: int): set<Pos>
    requires IsGrid(b, rows, cols)
  {
    set r, c | 0 <= r < rows && 0 <= c < cols && b[r][c].isMine :: Pos(r, c)
  }

  /** A closed cell that is neither flagged nor a mine: what the flood fill opens. */
  predicate Openable(cell: Cell) {
    !cell.isRevealed && !cell.isFlagged && !cell.isMine
  }

  /** `b` is `a` with some openable cells opened and nothing else changed. */
  predicate Opened(a: seq<seq<Cell>>, b: seq<seq<Cell>>, rows: int, cols: int) {
    IsGrid(a, rows, cols) && IsGrid(b, rows, cols) &&
    forall r, c :: 0 <= r < rows && 0 <= c < cols ==>
      b[r][c] == a[r][c] || (Openable(a[r][c]) && b[r][c] == a[r][c].(isRevealed := true))
  }

  lemma OpenedTransitive(a: seq<seq<Cell>>, b: seq<seq<Cell>>, c: seq<seq<Cell>>, rows: int, cols: int)
    requires Opened(a, b, rows, cols) && Opened(b, c, rows, cols)
    ensures Opened(a, c, rows, cols)
  {
  }

  /** Outside the board, or opened, flagged or a mine: a cell the flood fill has nothing left to do for. */
  predicate Settled(b: seq<seq<Cell>>, rows: int, cols: int, q: Pos)
    requires IsGrid(b, rows, cols)
  {
    !InGrid(q, rows, cols) || b[q.row][q.col].isRevealed || b[q.row][q.col].isFlagged || b[q.row][q.col].isMine
  }

  lemma SettledStays(a: seq<seq<Cell>>, b: seq<seq<Cell>>, rows: int, cols: int, q: Pos)
    requires Opened(a, b, rows, cols) && Settled(a, rows, cols, q)
    ensures Settled(b, rows, cols, q)
  {
  }

  /** Every neighbour of `q` is settled. */
  predicate AllAroundSettled(b: seq<seq<Cell>>, rows: int, cols: int, q: Pos)
    requires IsGrid(b, rows, cols)
  {
    forall k :: 0 <= k < 8 ==> Settled(b, rows, cols, Nb(q, k))
  }

  /** Every cell opened between `a` and `b` that shows 0 has all its neighbours settled in `b`. */
  predicate FloodClosed(a: seq<seq<Cell>>, b: seq<seq<Cell>>, rows: int, cols: int)
    requires IsGrid(a, rows, cols) && IsGrid(b, rows, cols)
  {
    forall r, c :: 0 <= r < rows && 0 <= c < cols && !a[r][c].isRevealed && b[r][c].isRevealed && b[r][c].neighborMines == 0 ==>
      AllAroundSettled(b, rows, cols, Pos(r, c))
  }

  /** FloodClosed, except perhaps at `q`. */
  predicate FloodClosedExcept(a: seq<seq<Cell>>, b: seq<seq<Cell>>, rows: int, cols: int, q: Pos)
    requires IsGrid(a, rows, cols) && IsGrid(b, rows, cols)
  {
    forall r, c :: 0 <= r < rows && 0 <= c < cols && Pos(r, c) != q && !a[r][c].isRevealed && b[r][c].isRevealed && b[r][c].neighborMines == 0 ==>
      AllAroundSettled(b, rows, cols, Pos(r, c))
  }

  /** Opening one more cell keeps what is settled settled. */
  lemma FloodClosedOpenOne(a: seq<seq<Cell>>, b: seq<seq<Cell>>, c: seq<seq<Cell>>, rows: int, cols: int, q: Pos)
    requires Opened(a, b, rows, cols) && Opened(b, c, rows, cols) && FloodClosed(a, b, rows, cols)
    requires forall r, c0 :: 0 <= r < rows && 0 <= c0 < cols && Pos(r, c0) != q ==> c[r][c0] == b[r][c0]
    ensures FloodClosedExcept(a, c, rows, cols, q)
  {
    forall r, c0 | 0 <= r < rows && 0 <= c0 < cols && Pos(r, c0) != q && !a[r][c0].isRevealed && c[r][c0].isRevealed && c[r][c0].neighborMines == 0
      ensures AllAroundSettled(c, rows, cols, Pos(r, c0))
    {
      forall k | 0 <= k < 8
        ensures Settled(c, rows, cols, Nb(Pos(r, c0), k))
      {
        SettledStays(b, c, rows, cols, Nb(Pos(r, c0), k));
      }
    }
  }

  /** The flood from `q` closes the gap FloodClosedExcept left at `q`. */
  lemma FloodClosedJoin(a: seq<seq<Cell>>, b: seq<seq<Cell>>, c: seq<seq<Cell>>, rows: int, cols: int, q: Pos)
    requires Opened(a, b, rows, cols) && Opened(b, c, rows, cols)
    requires FloodClosedExcept(a, b, rows, cols, q) && FloodClosed(b, c, rows, cols) && AllAroundSettled(c, rows, cols, q)
    ensures FloodClosed(a, c, rows, cols)
  {
    forall r, c0 | 0 <= r < rows && 0 <= c0 < cols && !a[r][c0].isRevealed && c[r][c0].isRevealed && c[r][c0].neighborMines == 0
      ensures AllAroundSettled(c, rows, cols, Pos(r, c0))
    {
      if Pos(r, c0) != q && b[r][c0].isRevealed {
        forall k | 0 <= k < 8
          ensures Settled(c, rows, cols, Nb(Pos(r, c0), k))
        {
          SettledStays(b, c, rows, cols, Nb(Pos(r, c0), k));
        }
      }
    }
  }

  lemma FloodClosedStays(a: seq<seq<Cell>>, b: seq<seq<Cell>>, c: seq<seq<Cell>>, rows: int, cols: int)
    requires Opened(a, b, rows, cols) && Opened(b, c, rows, cols) && FloodClosed(a, b, rows, cols) && FloodClosed(b, c, rows, cols)
    ensures FloodClosed(a, c, rows, cols)
  {
    forall r, c0 | 0 <= r < rows && 0 <= c0 < cols && !a[r][c0].isRevealed && c[r][c0].isRevealed && c[r][c0].neighborMines == 0
      ensures AllAroundSettled(c, rows, cols, Pos(r, c0))
    {
      if b[r][c0].isRevealed {
        forall k | 0 <= k < 8
          ensures Settled(c, rows, cols, Nb(Pos(r, c0), k))
        {
          SettledStays(b, c, rows, cols, Nb(Pos(r, c0), k));
        }
      }
    }
  }

  /** A subset is no larger. */
  lemma SubsetCard<T>(a: set<T>, b: set<T>)
    requires a <= b
    ensures |a| <= |b|
    decreases b
  {
    if a != {} {
      var x :| x in a;
      SubsetCard(a - {x}, b - {x});
    }
  }

  /** Opening an openable cell moves it from the closed cells to the opened ones. */
  lemma OpenOne(b: seq<seq<Cell>>, rows: int, cols: int, q: Pos)
    requires IsGrid(b, rows, cols) && InGrid(q, rows, cols) && Openable(b[q.row][q.col])
    ensures var b' := Set(b, q, b[q.row][q.col].(isRevealed := true));
            IsGrid(b', rows, cols) && Opened(b, b', rows, cols) &&
            RevealedSet(b', rows, cols) == RevealedSet(b, rows, cols) + {q} && q !in RevealedSet(b, rows, cols) &&
            ClosedSet(b', rows, cols) == ClosedSet(b, rows, cols) - {q} && q in ClosedSet(b, rows, cols)
  {
    var b' := Set(b, q, b[q.row][q.col].(isRevealed := true));
    assert q in ClosedSet(b, rows, cols);
    assert q in RevealedSet(b', rows, cols);
  }

  /** Opening never closes a cell. */
  lemma OpenedShrinksClosed(a: seq<seq<Cell>>, b: seq<seq<Cell>>, rows: int, cols: int)
    requires Opened(a, b, rows, cols)
    ensures ClosedSet(b, rows, cols) <= ClosedSet(a, rows, cols)
    ensures RevealedSet(a, rows, cols) <= RevealedSet(b, rows, cols)
  {
  }

  /**
   * The flood fill's progress around `p`, from board `a` to board `b`:
   * only openings, `changed'` is `changed` plus what was opened, the first
   * `k` neighbours of `p` are settled and every opened cell showing 0
   * has its neighbours settled.
   */
  predicate Flooding(a: seq<seq<Cell>>, b: seq<seq<Cell>>, rows: int, cols: int, changed: set<Pos>, changed': set<Pos>, p: Pos, k: int)
    requires 0 <= k <= 8
  {
    Opened(a, b, rows, cols) &&
    changed' == changed + (RevealedSet(b, rows, cols) - RevealedSet(a, rows, cols)) &&
    (forall k' :: 0 <= k' < k ==> Settled(b, rows, cols, Nb(p, k'))) &&
    FloodClosed(a, b, rows, cols)
  }

  /** The k-th neighbour is already settled: nothing to do. */
  lemma FloodingSettled(a: seq<seq<Cell>>, b: seq<seq<Cell>>, rows: int, cols: int, changed: set<Pos>, changed': set<Pos>, p: Pos, k: int)
    requires 0 <= k < 8 && Flooding(a, b, rows, cols, changed, changed', p, k) && Settled(b, rows, cols, Nb(p, k))
    ensures Flooding(a, b, rows, cols, changed, changed', p, k + 1)
  {
  }

  /** Opening the k-th neighbour `q`: all is in place but the flood from `q` if it shows 0. */
  lemma FloodingAfterOpen(a: seq<seq<Cell>>, bq: seq<seq<Cell>>, b: seq<seq<Cell>>, rows: int, cols: int,
                          changed: set<Pos>, cq: set<Pos>, c: set<Pos>, p: Pos, k: int)
    requires 0 <= k < 8 && Flooding(a, bq, rows, cols, changed, cq, p, k)
    requires InGrid(Nb(p, k), rows, cols) && Openable(bq[Nb(p, k).row][Nb(p, k).col])
    requires b == Set(bq, Nb(p, k), bq[Nb(p, k).row][Nb(p, k).col].(isRevealed := true)) && c == cq + {Nb(p, k)}
    ensures Opened(a, b, rows, cols) && Opened(bq, b, rows, cols)
    ensures c == changed + (RevealedSet(b, rows, cols) - RevealedSet(a, rows, cols))
    ensures forall k' :: 0 <= k' <= k ==> Settled(b, rows, cols, Nb(p, k'))
    ensures FloodClosedExcept(a, b, rows, cols, Nb(p, k))
    ensures b[Nb(p, k).row][Nb(p, k).col].neighborMines != 0 ==> Flooding(a, b, rows, cols, changed, c, p, k + 1)
  {
    var q := Nb(p, k);
    OpenOne(bq, rows, cols, q);
    OpenedTransitive(a, bq, b, rows, cols);
    OpenedShrinksClosed(a, bq, rows, cols);
    forall k' | 0 <= k' < k
      ensures Settled(b, rows, cols, Nb(p, k'))
    {
      SettledStays(bq, b, rows, cols, Nb(p, k'));
    }
    FloodClosedOpenOne(a, bq, b, rows, cols, q);
  }

  /** The flood from the k-th neighbour `q` closes the step. */
  lemma FloodingAfterFlood(a: seq<seq<Cell>>, b1: seq<seq<Cell>>, b: seq<seq<Cell>>, rows: int, cols: int,
                           changed: set<Pos>, c1: set<Pos>, c: set<Pos>, p: Pos, k: int)
    requires 0 <= k < 8 && InGrid(Nb(p, k), rows, cols) && Opened(a, b1, rows, cols)
    requires c1 == changed + (RevealedSet(b1, rows, cols) - RevealedSet(a, rows, cols))
    requires forall k' :: 0 <= k' <= k ==> Settled(b1, rows, cols, Nb(p, k'))
    requires FloodClosedExcept(a, b1, rows, cols, Nb(p, k))
    requires Opened(b1, b, rows, cols) && c == c1 + (RevealedSet(b, rows, cols) - RevealedSet(b1, rows, cols))
    requires AllAroundSettled(b, rows, cols, Nb(p, k)) && FloodClosed(b1, b, rows, cols)
    ensures Flooding(a, b, rows, cols, changed, c, p, k + 1)
  {
    OpenedTransitive(a, b1, b, rows, cols);
    OpenedShrinksClosed(a, b1, rows, cols);
    OpenedShrinksClosed(b1, b, rows, cols);
    FloodClosedJoin(a, b1, b, rows, cols, Nb(p, k));
    forall k' | 0 <= k' <= k
      ensures Settled(b, rows, cols, Nb(p, k'))
    {
      SettledStays(b1, b, rows, cols, Nb(p, k'));
    }
  }

  /** `q` was opened between `a` and `b` and shows 0: a cell the flood goes on from. */
  predicate OpenedZero(a: seq<seq<Cell>>, b: seq<seq<Cell>>, rows: int, cols: int, q: Pos)
    requires IsGrid(a, rows, cols) && IsGrid(b, rows, cols)
  {
    InGrid(q, rows, cols) && !a[q.row][q.col].isRevealed && b[q.row][q.col].isRevealed && b[q.row][q.col].neighborMines == 0
  }

  /** `path` leads from `o` to its last cell one neighbour at a time, through cells opened between `a` and `b` that show 0. */
  predicate FloodPath(a: seq<seq<Cell>>, b: seq<seq<Cell>>, rows: int, cols: int, o: Pos, path: seq<Pos>)
    requires IsGrid(a, rows, cols) && IsGrid(b, rows, cols)
  {
    |path| >= 1 && Adjacent(o, path[0]) &&
    forall i :: 0 <= i < |path| - 1 ==> Adjacent(path[i], path[i + 1]) && OpenedZero(a, b, rows, cols, path[i])
  }

  /** Every cell opened between `a` and `b` is the end of a flood path from `o`. */
  ghost predicate FloodReached(a: seq<seq<Cell>>, b: seq<seq<Cell>>, rows: int, cols: int, o: Pos)
    requires IsGrid(a, rows, cols) && IsGrid(b, rows, cols)
  {
    forall r, c :: 0 <= r < rows && 0 <= c < cols && !a[r][c].isRevealed && b[r][c].isRevealed ==>
      exists path :: FloodPath(a, b, rows, cols, o, path) && path[|path| - 1] == Pos(r, c)
  }

  /** Opening more cells keeps a flood path one. */
  lemma FloodPathGrows(a: seq<seq<Cell>>, b: seq<seq<Cell>>, c: seq<seq<Cell>>, rows: int, cols: int, o: Pos, path: seq<Pos>)
    requires IsGrid(a, rows, cols) && Opened(b, c, rows, cols) && FloodPath(a, b, rows, cols, o, path)
    ensures FloodPath(a, c, rows, cols, o, path)
  {
    forall i | 0 <= i < |path| - 1
      ensures OpenedZero(a, c, rows, cols, path[i])
    {
      assert OpenedZero(a, b, rows, cols, path[i]);
    }
  }

  /** What was reached stays reached when more cells open. */
  lemma FloodReachedGrows(a: seq<seq<Cell>>, b: seq<seq<Cell>>, c: seq<seq<Cell>>, rows: int, cols: int, o: Pos, r: int, col: int)
    requires IsGrid(a, rows, cols) && Opened(b, c, rows, cols) && FloodReached(a, b, rows, cols, o)
    requires 0 <= r < rows && 0 <= col < cols && !a[r][col].isRevealed && b[r][col].isRevealed
    ensures exists path :: FloodPath(a, c, rows, cols, o, path) && path[|path| - 1] == Pos(r, col)
  {
    var path :| FloodPath(a, b, rows, cols, o, path) && path[|path| - 1] == Pos(r, col);
    FloodPathGrows(a, b, c, rows, cols, o, path);
  }

  /** Opening the k-th neighbour `q` of `o`: `q` is reached by the one-step path. */
  lemma ReachedAfterOpen(a: seq<seq<Cell>>, bq: seq<seq<Cell>>, b: seq<seq<Cell>>, rows: int, cols: int, o: Pos, k: int)
    requires 0 <= k < 8 && Opened(a, bq, rows, cols) && FloodReached(a, bq, rows, cols, o)
    requires InGrid(Nb(o, k), rows, cols) && Openable(bq[Nb(o, k).row][Nb(o, k).col])
    requires b == Set(bq, Nb(o, k), bq[Nb(o, k).row][Nb(o, k).col].(isRevealed := true))
    ensures FloodReached(a, b, rows, cols, o)
  {
    var q := Nb(o, k);
    OpenOne(bq, rows, cols, q);
    NbIsAdjacent(o, k);
    forall r, c | 0 <= r < rows && 0 <= c < cols && !a[r][c].isRevealed && b[r][c].isRevealed
      ensures exists path :: FloodPath(a, b, rows, cols, o, path) && path[|path| - 1] == Pos(r, c)
    {
      if Pos(r, c) == q {
        assert FloodPath(a, b, rows, cols, o, [q]);
      } else {
        FloodReachedGrows(a, bq, b, rows, cols, o, r, c);
      }
    }
  }

  /** A flood path from `q`, with `q` in front, is one from `o` when `q` is a reached 0 next to `o`. */
  lemma FloodPathPrepend(a: seq<seq<Cell>>, b1: seq<seq<Cell>>, b: seq<seq<Cell>>, rows: int, cols: int, o: Pos, q: Pos, path: seq<Pos>)
    requires Opened(a, b1, rows, cols) && IsGrid(b, rows, cols) && FloodPath(b1, b, rows, cols, q, path)
    requires Adjacent(o, q) && OpenedZero(a, b, rows, cols, q)
    ensures FloodPath(a, b, rows, cols, o, [q] + path)
  {
    var path' := [q] + path;
    forall i | 0 <= i < |path'| - 1
      ensures Adjacent(path'[i], path'[i + 1]) && OpenedZero(a, b, rows, cols, path'[i])
    {
      if i > 0 {
        assert path'[i] == path[i - 1] && OpenedZero(b1, b, rows, cols, path[i - 1]);
      }
    }
  }

  /** The flood from a reached 0 cell `q` next to `o`: its paths, with `q` in front, start at `o`. */
  lemma ReachedAfterFlood(a: seq<seq<Cell>>, b1: seq<seq<Cell>>, b: seq<seq<Cell>>, rows: int, cols: int, o: Pos, q: Pos)
    requires Opened(a, b1, rows, cols) && Opened(b1, b, rows, cols)
    requires FloodReached(a, b1, rows, cols, o) && FloodReached(b1, b, rows, cols, q)
    requires Adjacent(o, q) && OpenedZero(a, b1, rows, cols, q)
    ensures FloodReached(a, b, rows, cols, o)
  {
    assert OpenedZero(a, b, rows, cols, q);
    forall r, c | 0 <= r < rows && 0 <= c < cols && !a[r][c].isRevealed && b[r][c].isRevealed
      ensures exists path :: FloodPath(a, b, rows, cols, o, path) && path[|path| - 1] == Pos(r, c)
    {
      if b1[r][c].isRevealed {
        FloodReachedGrows(a, b1, b, rows, cols, o, r, c);
      } else {
        var path :| FloodPath(b1, b, rows, cols, q, path) && path[|path| - 1] == Pos(r, c);
        FloodPathPrepend(a, b1, b, rows, cols, o, q, path);
        assert ([q] + path)[|[q] + path| - 1] == Pos(r, c);
      }
    }
  }

  // ---------------------------------------------------------------------
  // Winning

  /** Every cell of the board. */
  function AllCells(rows: int, cols: int): set<Pos> {
    set r, c | 0 <= r < rows && 0 <= c < cols :: Pos(r, c)
  }

  function RowCells(r: int, cols: int): set<Pos> {
    set c | 0 <= c < cols :: Pos(r, c)
  }

  lemma {:induction false} RowCellsCard(r: int, cols: nat)
    ensures |RowCells(r, cols)| == cols
  {
    if cols > 0 {
      RowCellsCard(r, cols - 1);
      assert RowCells(r, cols) == RowCells(r, cols - 1) + {Pos(r, cols - 1)};
    }
  }

  lemma {:induction false} AllCellsCard(rows: nat, cols: nat)
    ensures |AllCells(rows, cols)| == rows * cols
  {
    if rows > 0 {
      AllCellsCard(rows - 1, cols);
      RowCellsCard(rows - 1, cols);
      AllCellsLastRow(rows, cols);
      DisjointUnionCard(AllCells(rows - 1, cols), RowCells(rows - 1, cols));
      MulPred(rows, cols);
    }
  }

  /** The board is the board one row shorter plus its last row. */
  lemma AllCellsLastRow(rows: nat, cols: nat)
    requires rows > 0
    ensures AllCells(rows, cols) == AllCells(rows - 1, cols) + RowCells(rows - 1, cols)
    ensures AllCells(rows - 1, cols) !! RowCells(rows - 1, cols)
  {
  }

  lemma DisjointUnionCard<T>(a: set<T>, b: set<T>)
    requires a !! b
    ensures |a + b| == |a| + |b|
  {
  }

  lemma MulPred(n: nat, m: nat)
    requires n > 0
    ensures n * m == (n - 1) * m + m
  {
  }

  /** A subset as large as its superset is all of it. */
  lemma SubsetSameCard<T>(a: set<T>, b: set<T>)
    requires a <= b && |a| == |b|
    ensures a == b
  {
    if a != b {
      var x :| x in b && x !in a;
      SubsetCard(a, b - {x});
    }
  }

  /** No opened cell is a mine. */
  predicate NoMineOpened(b: seq<seq<Cell>>, rows: int, cols: int)
    requires IsGrid(b, rows, cols)
  {
    forall r, c :: 0 <= r < rows && 0 <= c < cols && b[r][c].isRevealed ==> !b[r][c].isMine
  }

  /**
   * What the counter test of `CheckWin` means: while no mine has been
   * opened, the counter counts the opened cells and the board holds
   * `mines` mines, the game is won exactly when every cell without a mine
   * is opened.
   */
  lemma {:induction false} WinMeansEverySafeCellOpened(b: seq<seq<Cell>>, rows: nat, cols: nat, mines: int, revealed: int)
    requires IsGrid(b, rows, cols) && NoMineOpened(b, rows, cols)
    requires revealed == |RevealedSet(b, rows, cols)| && |MineSet(b, rows, cols)| == mines
    ensures revealed == rows * cols - mines <==>
            forall r, c :: 0 <= r < rows && 0 <= c < cols && !b[r][c].isMine ==> b[r][c].isRevealed
  {
    var all, safe := AllCells(rows, cols), AllCells(rows, cols) - MineSet(b, rows, cols);
    AllCellsCard(rows, cols);
    assert MineSet(b, rows, cols) <= all;
    assert |safe| == rows * cols - mines;
    assert RevealedSet(b, rows, cols) <= safe;
    if revealed == rows * cols - mines {
      SubsetSameCard(RevealedSet(b, rows, cols), safe);
      forall r, c | 0 <= r < rows && 0 <= c < cols && !b[r][c].isMine
        ensures b[r][c].isRevealed
      {
        assert Pos(r, c) in safe;
      }
    }
    if forall r, c :: 0 <= r < rows && 0 <= c < cols && !b[r][c].isMine ==> b[r][c].isRevealed {
      forall q | q in safe
        ensures q in RevealedSet(b, rows, cols)
      {
      }
      assert RevealedSet(b, rows, cols) == safe;
    }
  }

  // ---------------------------------------------------------------------
  // Recounting

  /** `b0` with every cell that is not a mine showing the mines around it in `b0`, for the cells before (i, j). */
  function RecountedBefore(b0: seq<seq<Cell>>, rows: nat, cols: nat, i: int, j: int): (b: seq<seq<Cell>>)
    requires IsGrid(b0, rows, cols)
    ensures IsGrid(b, rows, cols)
    ensures forall r, c :: 0 <= r < rows && 0 <= c < cols ==>
              b[r][c] == if Before(Pos(r, c), i, j) && !b0[r][c].isMine
                         then b0[r][c].(neighborMines := MinesAround(b0, rows, cols, Pos(r, c), 8)) else b0[r][c]
  {
    seq(rows, r requires 0 <= r < rows =>
      seq(cols, c requires 0 <= c < cols =>
        if Before(Pos(r, c), i, j) && !b0[r][c].isMine
        then b0[r][c].(neighborMines := MinesAround(b0, rows, cols, Pos(r, c), 8)) else b0[r][c]))
  }

  predicate Before(q: Pos, i: int, j: int) {
    q.row < i || (q.row == i && q.col < j)
  }

  /** `calculateNeighborMines`' result: every cell that is not a mine recounted. */
  function Recounted(b0: seq<seq<Cell>>, rows: nat, cols: nat): seq<seq<Cell>>
    requires IsGrid(b0, rows, cols)
  {
    RecountedBefore(b0, rows, cols, rows, 0)
  }

  /** Recounting keeps the mines, the opened cells and the flags, and makes every number right. */
  lemma RecountedConsistent(b0: seq<seq<Cell>>, rows: nat, cols: nat)
    requires IsGrid(b0, rows, cols)
    ensures var b := Recounted(b0, rows, cols);
            IsGrid(b, rows, cols) && SameMines(b0, b, rows, cols) && Consistent(b, rows, cols) &&
            forall r, c :: 0 <= r < rows && 0 <= c < cols ==>
              b[r][c].isRevealed == b0[r][c].isRevealed && b[r][c].isFlagged == b0[r][c].isFlagged &&
              b[r][c].flagColor == b0[r][c].flagColor
  {
    var b: seq<seq<Cell>> := Recounted(b0, rows, cols);
    forall r, c | 0 <= r < rows && 0 <= c < cols && !b[r][c].isMine
      ensures b[r][c].neighborMines == MinesAround(b, rows, cols, Pos(r, c), 8)
    {
      MinesAroundSameMines(b0, b, rows, cols, Pos(r, c), 8);
    }
  }

  lemma RecountedStep(b0: seq<seq<Cell>>, rows: nat, cols: nat, i: int, j: int)
    requires IsGrid(b0, rows, cols) && 0 <= i < rows && 0 <= j < cols
    ensures var b := RecountedBefore(b0, rows, cols, i, j);
            RecountedBefore(b0, rows, cols, i, j + 1) ==
              if b0[i][j].isMine then b
              else Set(b, Pos(i, j), b[i][j].(neighborMines := MinesAround(b0, rows, cols, Pos(i, j), 8)))
  {
    var b: seq<seq<Cell>>, b': seq<seq<Cell>> := RecountedBefore(b0, rows, cols, i, j), RecountedBefore(b0, rows, cols, i, j + 1);
    if b0[i][j].isMine {
      GridsEqual(b', b, rows, cols);
    } else {
      GridsEqual(b', Set(b, Pos(i, j), b[i][j].(neighborMines := MinesAround(b0, rows, cols, Pos(i, j), 8))), rows, cols);
    }
  }

  lemma RecountedRow(b0: seq<seq<Cell>>, rows: nat, cols: nat, i: int)
    requires IsGrid(b0, rows, cols)
    ensures RecountedBefore(b0, rows, cols, i, cols) == RecountedBefore(b0, rows, cols, i + 1, 0)
  {
    GridsEqual(RecountedBefore(b0, rows, cols, i, cols), RecountedBefore(b0, rows, cols, i + 1, 0), rows, cols);
  }

  lemma RecountedStart(b0: seq<seq<Cell>>, rows: nat, cols: nat)
    requires IsGrid(b0, rows, cols)
    ensures RecountedBefore(b0, rows, cols, 0, 0) == b0
  {
    GridsEqual(RecountedBefore(b0, rows, cols, 0, 0), b0, rows, cols);
  }

  // ---------------------------------------------------------------------
  // The block around a click

  /** The k-th cell (0..8) of the 3x3 block around `p`, row by row, the centre included. */
  function BlockCell(p: Pos, k: nat): Pos
    requires k < 9
  {
    var base := if k < 3 then 0 else if k < 6 then 3 else 6;
    Pos(p.row + base / 3 - 1, p.col + k - base - 1)
  }

  /** Where `q` comes in the block's order. */
  function BlockIndex(q: Pos, p: Pos): int {
    (q.row - p.row + 1) * 3 + (q.col - p.col + 1)
  }

  lemma BlockCellInBlock(p: Pos, k: nat)
    requires k < 9
    ensures InBlock(BlockCell(p, k), p)
  {
  }

  lemma InBlockIsBlockCell(p: Pos, q: Pos)
    requires InBlock(q, p)
    ensures 0 <= BlockIndex(q, p) < 9 && BlockCell(p, BlockIndex(q, p)) == q
  {
  }

  lemma BlockCellIndex(p: Pos, k: nat)
    requires k < 9
    ensures BlockIndex(BlockCell(p, k), p) == k
  {
  }

  /** The mines among the first `n` cells of the block around `p`. */
  function MinesInBlock(b: seq<seq<Cell>>, rows: int, cols: int, p: Pos, n: nat): (c: nat)
    requires IsGrid(b, rows, cols) && n <= 9
    ensures c <= n
  {
    if n == 0 then 0 else MinesInBlock(b, rows, cols, p, n - 1) + (if MineAt(b, rows, cols, BlockCell(p, n - 1)) then 1 else 0)
  }

  /** `b0` with the mines among the first `k` cells of the block around `p` taken away. */
  function ClearedBefore(b0: seq<seq<Cell>>, rows: nat, cols: nat, p: Pos, k: int): (b: seq<seq<Cell>>)
    requires IsGrid(b0, rows, cols)
    ensures IsGrid(b, rows, cols)
    ensures forall r, c :: 0 <= r < rows && 0 <= c < cols ==>
              b[r][c] == if InBlock(Pos(r, c), p) && BlockIndex(Pos(r, c), p) < k then b0[r][c].(isMine := false) else b0[r][c]
  {
    seq(rows, r requires 0 <= r < rows =>
      seq(cols, c requires 0 <= c < cols =>
        if InBlock(Pos(r, c), p) && BlockIndex(Pos(r, c), p) < k then b0[r][c].(isMine := false) else b0[r][c]))
  }

  lemma ClearedStart(b0: seq<seq<Cell>>, rows: nat, cols: nat, p: Pos)
    requires IsGrid(b0, rows, cols)
    ensures ClearedBefore(b0, rows, cols, p, 0) == b0
  {
    GridsEqual(ClearedBefore(b0, rows, cols, p, 0), b0, rows, cols);
  }

  lemma ClearedStep(b0: seq<seq<Cell>>, rows: nat, cols: nat, p: Pos, k: nat)
    requires IsGrid(b0, rows, cols) && k < 9
    ensures var b := ClearedBefore(b0, rows, cols, p, k);
            var q := BlockCell(p, k);
            ClearedBefore(b0, rows, cols, p, k + 1) ==
              if InGrid(q, rows, cols) && b[q.row][q.col].isMine then Set(b, q, b[q.row][q.col].(isMine := false)) else b
    ensures var q := BlockCell(p, k);
            InGrid(q, rows, cols) ==> ClearedBefore(b0, rows, cols, p, k)[q.row][q.col] == b0[q.row][q.col]
  {
    var b: seq<seq<Cell>>, b': seq<seq<Cell>> := ClearedBefore(b0, rows, cols, p, k), ClearedBefore(b0, rows, cols, p, k + 1);
    var q := BlockCell(p, k);
    BlockCellIndex(p, k);
    if InGrid(q, rows, cols) && b[q.row][q.col].isMine {
      GridsEqual(b', Set(b, q, b[q.row][q.col].(isMine := false)), rows, cols);
    } else {
      forall r, c | 0 <= r < rows && 0 <= c < cols
        ensures b'[r][c] == b[r][c]
      {
        if InBlock(Pos(r, c), p) && BlockIndex(Pos(r, c), p) == k {
          InBlockIsBlockCell(p, Pos(r, c));
        }
      }
      GridsEqual(b', b, rows, cols);
    }
  }

  /** `b` is `a` with mines added outside the block around `p`, and nothing else changed. */
  predicate MinesAddedOutside(a: seq<seq<Cell>>, b: seq<seq<Cell>>, rows: int, cols: int, p: Pos) {
    IsGrid(a, rows, cols) && IsGrid(b, rows, cols) &&
    forall r, c :: 0 <= r < rows && 0 <= c < cols ==>
      b[r][c] == a[r][c] || (!InBlock(Pos(r, c), p) && !a[r][c].isMine && b[r][c] == a[r][c].(isMine := true))
  }

  /** Clearing the block, adding mines outside it and recounting leaves the block clear and the board consistent. */
  lemma FirstClickSafe(b0: seq<seq<Cell>>, b1: seq<seq<Cell>>, b2: seq<seq<Cell>>, rows: nat, cols: nat, p: Pos)
    requires IsGrid(b0, rows, cols) && b1 == ClearedBefore(b0, rows, cols, p, 9) && MinesAddedOutside(b1, b2, rows, cols, p)
    ensures var b := Recounted(b2, rows, cols);
            BlockClear(b, rows, cols, p) && Consistent(b, rows, cols) && SameSurface(b0, b, rows, cols) &&
            RevealedSet(b0, rows, cols) == RevealedSet(b, rows, cols) &&
            (forall r, c :: 0 <= r < rows && 0 <= c < cols && !InBlock(Pos(r, c), p) && b0[r][c].isMine ==> b[r][c].isMine) &&
            (forall r, c :: 0 <= r < rows && 0 <= c < cols && b[r][c].isMine ==> !InBlock(Pos(r, c), p))
  {
    var b := Recounted(b2, rows, cols);
    RecountedConsistent(b2, rows, cols);
    forall r, c | 0 <= r < rows && 0 <= c < cols && InBlock(Pos(r, c), p)
      ensures !b1[r][c].isMine
    {
      InBlockIsBlockCell(p, Pos(r, c));
    }
    SameSurfaceRevealed(b0, b, rows, cols);
  }

  /** No mine in the block around `p`. */
  predicate BlockClear(b: seq<seq<Cell>>, rows: int, cols: int, p: Pos)
    requires IsGrid(b, rows, cols)
  {
    forall r, c :: 0 <= r < rows && 0 <= c < cols && InBlock(Pos(r, c), p) ==> !b[r][c].isMine
  }

  /** The two boards agree on everything the players see of a cell: opened, flagged, flag colour. */
  predicate SameSurface(a: seq<seq<Cell>>, b: seq<seq<Cell>>, rows: int, cols: int)
    requires IsGrid(a, rows, cols) && IsGrid(b, rows, cols)
  {
    forall r, c :: 0 <= r < rows && 0 <= c < cols ==>
      b[r][c].isRevealed == a[r][c].isRevealed && b[r][c].isFlagged == a[r][c].isFlagged && b[r][c].flagColor == a[r][c].flagColor
  }

  lemma SameSurfaceRevealed(a: seq<seq<Cell>>, b: seq<seq<Cell>>, rows: int, cols: int)
    requires IsGrid(a, rows, cols) && IsGrid(b, rows, cols) && SameSurface(a, b, rows, cols)
    ensures RevealedSet(a, rows, cols) == RevealedSet(b, rows, cols)
  {
  }

  /** `isInRadius`: `(row, col)` lies within `radius` rows and columns of the centre. */
  predicate InRadius(row: int, col: int, centerRow: int, centerCol: int, radius: int) {
    -radius <= row - centerRow <= radius && -radius <= col - centerCol <= radius
  }

  // ---------------------------------------------------------------------
  // Placing the mines of a classic game

  /** A fresh board: every cell Go's zero cell but for its mine. */
  predicate Fresh(b: seq<seq<Cell>>, rows: int, cols: int)
    requires IsGrid(b, rows, cols)
  {
    forall r, c :: 0 <= r < rows && 0 <= c < cols ==> b[r][c] == EmptyCell.(isMine := b[r][c].isMine)
  }

  lemma FreshNoneRevealed(b: seq<seq<Cell>>, rows: int, cols: int)
    requires IsGrid(b, rows, cols) && Fresh(b, rows, cols)
    ensures RevealedSet(b, rows, cols) == {}
  {
  }

  lemma DrawnSetStep(draws: seq<Pos>, t: nat, rows: int, cols: int)
    requires t < |draws| && rows > 0 && cols > 0
    ensures DrawnSet(draws[..t + 1], rows, cols) == DrawnSet(draws[..t], rows, cols) + {DrawnCell(draws[t], rows, cols)}
  {
    var a, b := draws[..t], draws[..t + 1];
    assert forall i :: 0 <= i < t ==> b[i] == a[i];
    assert b[t] == draws[t];
  }

  lemma AddMine(b: seq<seq<Cell>>, rows: int, cols: int, q: Pos)
    requires IsGrid(b, rows, cols) && InGrid(q, rows, cols) && !b[q.row][q.col].isMine
    ensures var b' := Set(b, q, b[q.row][q.col].(isMine := true));
            IsGrid(b', rows, cols) && MineSet(b', rows, cols) == MineSet(b, rows, cols) + {q} && q !in MineSet(b, rows, cols) &&
            (Fresh(b, rows, cols) ==> Fresh(b', rows, cols))
  {
    var b' := Set(b, q, b[q.row][q.col].(isMine := true));
    assert q in MineSet(b', rows, cols);
  }

  /**
   * The placement loop of `NewGameState`: draw a row and a column, put a
   * mine there unless one is there already, until `mines` are placed. The
   * draws are finite here, so the loop also stops when they run out; then
   * every drawn cell holds a mine.
   */
  method PlaceMines(rows: nat, cols: nat, mines: int, draws: seq<Pos>) returns (b: seq<seq<Cell>>)
    requires rows > 0 && cols > 0
    ensures IsGrid(b, rows, cols) && Fresh(b, rows, cols)
    ensures MineSet(b, rows, cols) <= DrawnSet(draws, rows, cols)
    ensures |MineSet(b, rows, cols)| == mines || (|MineSet(b, rows, cols)| < mines && MineSet(b, rows, cols) == DrawnSet(draws, rows, cols))
                                              || (mines <= 0 && MineSet(b, rows, cols) == {})
  {
    b := Filled(rows, cols, EmptyCell);
    var minesPlaced := 0;
    var t := 0;
    assert MineSet(b, rows, cols) == {};
    assert DrawnSet(draws[..0], rows, cols) == {};
    while minesPlaced < mines && t < |draws|
      invariant 0 <= t <= |draws| && IsGrid(b, rows, cols) && Fresh(b, rows, cols)
      invariant MineSet(b, rows, cols) == DrawnSet(draws[..t], rows, cols) && minesPlaced == |MineSet(b, rows, cols)|
      invariant mines > 0 ==> minesPlaced <= mines
      invariant mines <= 0 ==> minesPlaced == 0
    {
      var q := DrawnCell(draws[t], rows, cols);
      DrawnSetStep(draws, t, rows, cols);
      if !b[q.row][q.col].isMine {
        AddMine(b, rows, cols, q);
        b := Set(b, q, b[q.row][q.col].(isMine := true));
        minesPlaced := minesPlaced + 1;
      } else {
        assert q in MineSet(b, rows, cols);
      }
      t := t + 1;
    }
    assert draws[..|draws|] == draws;
  }

  /** With enough distinct cells among the draws, a classic board gets exactly `mines` mines. */
  lemma EnoughDrawsPlaceAll(b: seq<seq<Cell>>, rows: nat, cols: nat, mines: int, draws: seq<Pos>)
    requires rows > 0 && cols > 0 && IsGrid(b, rows, cols) && mines >= 0 && |DrawnSet(draws, rows, cols)| >= mines
    requires |MineSet(b, rows, cols)| == mines || (|MineSet(b, rows, cols)| < mines && MineSet(b, rows, cols) == DrawnSet(draws, rows, cols))
                                              || (mines <= 0 && MineSet(b, rows, cols) == {})
    ensures |MineSet(b, rows, cols)| == mines
  {
  }

  /**
   * `NewGameState`: an empty mode counts as classic; a classic board gets
   * its mines from the draws and every number recounted; the other modes
   * start with no mines at all (they are placed on the first click).
   */
  method NewGameState(rows: nat, cols: nat, mines: int, gameMode: string, customSeed: bool, draws: seq<Pos>) returns (gs: GameState)
    requires (gameMode == "" || gameMode == "classic") && mines > 0 ==> rows > 0 && cols > 0
    ensures fresh(gs) && gs.Valid() && gs.Counted()
    ensures gs.rows == rows && gs.cols == cols && gs.mines == mines && gs.customSeed == customSeed
    ensures !gs.gameOver && !gs.gameWon && gs.revealed == 0 && gs.hintsUsed == 0 && gs.safeCells == [] && gs.cellHints == []
    ensures gs.loserPlayerId == "" && gs.loserNickname == "" && gs.flagSetInfo == map[]
    ensures RevealedSet(gs.board, rows, cols) == {} && Consistent(gs.board, rows, cols)
    ensures forall r, c :: 0 <= r < rows && 0 <= c < cols ==> !gs.board[r][c].isFlagged && gs.board[r][c].flagColor == ""
    ensures gameMode != "" && gameMode != "classic" ==> gs.board == Filled(rows, cols, EmptyCell)
    ensures (gameMode == "" || gameMode == "classic") && mines > 0 ==>
              MineSet(gs.board, rows, cols) <= DrawnSet(draws, rows, cols) &&
              (|DrawnSet(draws, rows, cols)| >= mines ==> |MineSet(gs.board, rows, cols)| == mines)
  {
    var mode := if gameMode == "" then "classic" else gameMode;
    gs := new GameState(rows, cols, mines, customSeed);
    if mode == "classic" {
      if mines > 0 {
        var b := PlaceMines(rows, cols, mines, draws);
        FreshNoneRevealed(b, rows, cols);
        gs.board := b;
        if |DrawnSet(draws, rows, cols)| >= mines {
          EnoughDrawsPlaceAll(b, rows, cols, mines, draws);
        }
      }
      ghost var b1 := gs.board;
      gs.CalculateNeighborMines();
      RecountedConsistent(b1, rows, cols);
      SameSurfaceRevealed(b1, gs.board, rows, cols);
      assert MineSet(b1, rows, cols) == MineSet(gs.board, rows, cols);
    } else {
      forall r, c | 0 <= r < rows && 0 <= c < cols
        ensures gs.board[r][c].neighborMines == MinesAround(gs.board, rows, cols, Pos(r, c), 8)
      {
        MinesAroundZero(gs.board, rows, cols, Pos(r, c), 8);
      }
    }
  }


  // ---------------------------------------------------------------------
  // Go's `rng.Intn(n)` as an input

  /** The cell of a pair of draws, reduced to the board as `rng.Intn(rows)`, `rng.Intn(cols)` would be. */
  function DrawnCell(d: Pos, rows: int, cols: int): (q: Pos)
    requires rows > 0 && cols > 0
    ensures InGrid(q, rows, cols)
  {
    Pos(d.row % rows, d.col % cols)
  }

  function DrawnSet(draws: seq<Pos>, rows: int, cols: int): set<Pos>
    requires rows > 0 && cols > 0
  {
    set t | 0 <= t < |draws| :: DrawnCell(draws[t], rows, cols)
  }

  // ---------------------------------------------------------------------
  // The state

  class GameState {
    var board: seq<seq<Cell>>
    var rows: int
    var cols: int
    var mines: int
    var gameOver: bool
    var gameWon: bool
    var revealed: int
    var hintsUsed: int
    var safeCells: seq<Pos>
    var cellHints: seq<CellHint>
    var loserPlayerId: string
    var loserNickname: string
    var flagSetInfo: map<int, FlagInfo>
    /** Whether the game was started from a seed the players chose. */
    var customSeed: bool

    ghost predicate Valid()
      reads this`rows, this`cols, this`board
    {
      rows >= 0 && cols >= 0 && IsGrid(board, rows, cols)
    }

    /** `Revealed` counts the opened cells. */
    ghost predicate Counted()
      reads this`rows, this`cols, this`board, this`revealed
      requires Valid()
    {
      revealed == |RevealedSet(board, rows, cols)|
    }

    /** A `rows` x `cols` board of zero cells, nothing opened, no loser. */
    constructor (rows: nat, cols: nat, mines: int, customSeed: bool)
      ensures Valid() && Counted() && this.rows == rows && this.cols == cols && this.mines == mines
      ensures board == Filled(rows, cols, EmptyCell) && this.customSeed == customSeed
      ensures !gameOver && !gameWon && revealed == 0 && hintsUsed == 0 && safeCells == [] && cellHints == []
      ensures loserPlayerId == "" && loserNickname == "" && flagSetInfo == map[]
    {
      this.rows, this.cols, this.mines, this.customSeed := rows, cols, mines, customSeed;
      board := Filled(rows, cols, EmptyCell);
      gameOver, gameWon, revealed, hintsUsed := false, false, 0, 0;
      safeCells, cellHints := [], [];
      loserPlayerId, loserNickname, flagSetInfo := "", "", map[];
      new;
      assert RevealedSet(board, rows, cols) == {};
    }

    /** `isValidCell`. */
    predicate IsValidCell(row: int, col: int)
      reads this
    {
      row >= 0 && row < rows && col >= 0 && col < cols
    }

    /** `countNeighborMines(row, col)`: the mines among the in-bounds neighbours, the cell itself excluded. */
    method CountNeighborMines(row: int, col: int) returns (count: int)
      requires Valid()
      ensures count == MinesAround(board, rows, cols, Pos(row, col), 8)
      ensures 0 <= count <= 8
    {
      count := 0;
      var k := 0;
      while k < 8
        invariant 0 <= k <= 8 && count == MinesAround(board, rows, cols, Pos(row, col), k)
      {
        var q := Nb(Pos(row, col), k);
        if IsValidCell(q.row, q.col) && board[q.row][q.col].isMine {
          count := count + 1;
        }
        k := k + 1;
      }
    }

    /** `CheckWin`: every cell but the mines has been opened, by the counter. */
    predicate CheckWin()
      reads this
    {
      revealed == rows * cols - mines
    }

    /** `isInRadius`: the nested scan of the square of offsets around the centre. */
    method IsInRadius(row: int, col: int, centerRow: int, centerCol: int, radius: int) returns (b: bool)
      ensures b <==> InRadius(row, col, centerRow, centerCol, radius)
    {
      var di := -radius;
      while di <= radius
        invariant radius >= 0 ==> -radius <= di <= radius + 1
        invariant !(-radius <= row - centerRow < di && -radius <= col - centerCol <= radius)
      {
        var dj := -radius;
        while dj <= radius
          invariant -radius <= dj <= radius + 1
          invariant !(row == centerRow + di && -radius <= col - centerCol < dj)
        {
          if row == centerRow + di && col == centerCol + dj {
            return true;
          }
          dj := dj + 1;
        }
        di := di + 1;
      }
      return false;
    }

    /**
     * The first loop of `EnsureFirstClickSafe`: every mine in the block
     * around the first click is taken away and counted.
     */
    method ClearBlock(first: Pos) returns (moved: nat)
      requires Valid()
      modifies this`board
      ensures Valid() && board == ClearedBefore(old(board), rows, cols, first, 9)
      ensures moved == MinesInBlock(old(board), rows, cols, first, 9)
      ensures moved > 0 ==> rows > 0 && cols > 0
    {
      ghost var b0 := board;
      ClearedStart(b0, rows, cols, first);
      moved := 0;
      var k := 0;
      while k < 9
        invariant 0 <= k <= 9 && Valid() && board == ClearedBefore(b0, rows, cols, first, k)
        invariant moved == MinesInBlock(b0, rows, cols, first, k)
        invariant moved > 0 ==> rows > 0 && cols > 0
      {
        var q := BlockCell(first, k);
        ClearedStep(b0, rows, cols, first, k);
        if IsValidCell(q.row, q.col) && board[q.row][q.col].isMine {
          moved := moved + 1;
          board := Set(board, q, board[q.row][q.col].(isMine := false));
        }
        k := k + 1;
      }
    }

    /**
     * One relocation of `EnsureFirstClickSafe`: up to 100 draws, the first
     * that lands outside the block around the click and on a cell without
     * a mine gets the mine. `draw(t)` is the generator's t-th pair.
     */
    method RelocateMine(first: Pos, draw: nat -> Pos, t0: nat) returns (t: nat)
      requires Valid() && rows > 0 && cols > 0
      modifies this`board
      ensures Valid() && MinesAddedOutside(old(board), board, rows, cols, first) && t0 <= t
    {
      t := t0;
      var attempts := 0;
      while attempts < 100
        invariant Valid() && MinesAddedOutside(old(board), board, rows, cols, first) && t0 <= t
      {
        var d := DrawnCell(draw(t), rows, cols);
        t := t + 1;
        var near := IsInRadius(d.row, d.col, first.row, first.col, 1);
        if !near && !board[d.row][d.col].isMine {
          board := Set(board, d, board[d.row][d.col].(isMine := true));
          return;
        }
        attempts := attempts + 1;
      }
    }

    /**
     * `EnsureFirstClickSafe`: no mine is left in the 3x3 block around the
     * first click, every mine outside it stays, the taken mines go to
     * drawn cells outside the block, what the players see of each cell is
     * unchanged and every number is recounted.
     */
    method EnsureFirstClickSafe(first: Pos, draw: nat -> Pos)
      requires Valid() && Counted()
      modifies this`board
      ensures Valid() && Counted() && BlockClear(board, rows, cols, first) && Consistent(board, rows, cols)
      ensures SameSurface(old(board), board, rows, cols)
      ensures forall r, c :: 0 <= r < rows && 0 <= c < cols && !InBlock(Pos(r, c), first) && old(board)[r][c].isMine ==> board[r][c].isMine
      ensures forall r, c :: 0 <= r < rows && 0 <= c < cols && board[r][c].isMine ==> !InBlock(Pos(r, c), first)
    {
      ghost var b0 := board;
      var moved := ClearBlock(first);
      ghost var b1 := board;
      RelocateMines(first, draw, moved);
      ghost var b2 := board;
      CalculateNeighborMines();
      FirstClickSafe(b0, b1, b2, rows, cols, first);
    }

    /** The second loop of `EnsureFirstClickSafe`: one relocation per mine taken away. */
    method RelocateMines(first: Pos, draw: nat -> Pos, moved: nat)
      requires Valid() && (moved > 0 ==> rows > 0 && cols > 0)
      modifies this`board
      ensures Valid() && MinesAddedOutside(old(board), board, rows, cols, first)
    {
      var t := 0;
      var m := 0;
      while m < moved
        invariant 0 <= m <= moved && Valid() && MinesAddedOutside(old(board), board, rows, cols, first)
      {
        t := RelocateMine(first, draw, t);
        m := m + 1;
      }
    }

    /** One iteration of `calculateNeighborMines`. */
    method RecountCell(ghost b0: seq<seq<Cell>>, i: int, j: int)
      requires Valid() && IsGrid(b0, rows, cols) && 0 <= i < rows && 0 <= j < cols
      requires board == RecountedBefore(b0, rows, cols, i, j)
      modifies this`board
      ensures Valid() && board == RecountedBefore(b0, rows, cols, i, j + 1)
    {
      RecountedStep(b0, rows, cols, i, j);
      if !board[i][j].isMine {
        assert SameMines(b0, board, rows, cols);
        MinesAroundSameMines(b0, board, rows, cols, Pos(i, j), 8);
        var count := CountNeighborMines(i, j);
        board := Set(board, Pos(i, j), board[i][j].(neighborMines := count));
      }
    }

    /** `calculateNeighborMines`: every cell that is not a mine gets the number of mines around it. */
    method CalculateNeighborMines()
      requires Valid()
      modifies this`board
      ensures Valid() && board == Recounted(old(board), rows, cols)
    {
      ghost var b0 := board;
      RecountedStart(b0, rows, cols);
      var i := 0;
      while i < rows
        invariant 0 <= i <= rows && Valid() && board == RecountedBefore(b0, rows, cols, i, 0)
      {
        var j := 0;
        while j < cols
          invariant 0 <= j <= cols && Valid() && board == RecountedBefore(b0, rows, cols, i, j)
        {
          RecountCell(b0, i, j);
          j := j + 1;
        }
        RecountedRow(b0, rows, cols, i);
        i := i + 1;
      }
    }

    /**
     * `RevealNeighbors(row, col)`: opens every neighbour that is closed, not
     * flagged and not a mine, counts it, records it as changed, and goes on
     * from each opened neighbour that shows 0. Nothing but opening happens;
     * afterwards every neighbour of (row, col), and every neighbour of each
     * cell it opened that shows 0, is opened, flagged or a mine; and every
     * cell it opened is reached from (row, col) one neighbour at a time
     * through cells it opened that show 0.
     */
    method RevealNeighbors(row: int, col: int, changed: set<Pos>) returns (changed': set<Pos>)
      requires Valid() && Counted()
      modifies this`board, this`revealed
      ensures Valid() && Counted() && Opened(old(board), board, rows, cols)
      ensures changed' == changed + (RevealedSet(board, rows, cols) - RevealedSet(old(board), rows, cols))
      ensures AllAroundSettled(board, rows, cols, Pos(row, col))
      ensures FloodClosed(old(board), board, rows, cols)
      ensures FloodReached(old(board), board, rows, cols, Pos(row, col))
      decreases |ClosedSet(board, rows, cols)|, 1
    {
      ghost var b0 := board;
      changed' := changed;
      var k := 0;
      while k < 8
        invariant 0 <= k <= 8 && Valid() && Counted() && Flooding(b0, board, rows, cols, changed, changed', Pos(row, col), k)
        invariant FloodReached(b0, board, rows, cols, Pos(row, col))
      {
        OpenedShrinksClosed(b0, board, rows, cols);
        SubsetCard(ClosedSet(board, rows, cols), ClosedSet(b0, rows, cols));
        changed' := VisitNeighbor(b0, changed, changed', row, col, k);
        k := k + 1;
      }
    }

    /** One iteration of RevealNeighbors' loop: the k-th neighbour, opened and flooded from if it shows 0. */
    method VisitNeighbor(ghost b0: seq<seq<Cell>>, ghost changed: set<Pos>, changedNow: set<Pos>, row: int, col: int, k: int)
      returns (changed': set<Pos>)
      requires Valid() && Counted() && 0 <= k < 8 && Flooding(b0, board, rows, cols, changed, changedNow, Pos(row, col), k)
      requires FloodReached(b0, board, rows, cols, Pos(row, col))
      modifies this`board, this`revealed
      ensures Valid() && Counted() && Flooding(b0, board, rows, cols, changed, changed', Pos(row, col), k + 1)
      ensures FloodReached(b0, board, rows, cols, Pos(row, col))
      decreases |ClosedSet(board, rows, cols)|, 0
    {
      changed' := changedNow;
      var q := Nb(Pos(row, col), k);
      if IsValidCell(q.row, q.col) {
        var cell := board[q.row][q.col];
        if !cell.isRevealed && !cell.isFlagged && !cell.isMine {
          ghost var bq := board;
          OpenNeighbor(q);
          changed' := changed' + {q};
          FloodingAfterOpen(b0, bq, board, rows, cols, changed, changedNow, changed', Pos(row, col), k);
          ReachedAfterOpen(b0, bq, board, rows, cols, Pos(row, col), k);
          if cell.neighborMines == 0 {
            ghost var b1, c1 := board, changed';
            SubsetCard(ClosedSet(b1, rows, cols), ClosedSet(bq, rows, cols) - {q});
            changed' := RevealNeighbors(q.row, q.col, changed');
            FloodingAfterFlood(b0, b1, board, rows, cols, changed, c1, changed', Pos(row, col), k);
            NbIsAdjacent(Pos(row, col), k);
            ReachedAfterFlood(b0, b1, board, rows, cols, Pos(row, col), q);
          }
        } else {
          FloodingSettled(b0, board, rows, cols, changed, changed', Pos(row, col), k);
        }
      } else {
        FloodingSettled(b0, board, rows, cols, changed, changed', Pos(row, col), k);
      }
    }

    /** The opening step of RevealNeighbors: the cell is opened and counted. */
    method OpenNeighbor(q: Pos)
      requires Valid() && Counted() && InGrid(q, rows, cols) && Openable(board[q.row][q.col])
      modifies this`board, this`revealed
      ensures Valid() && Counted() && board == Set(old(board), q, old(board)[q.row][q.col].(isRevealed := true))
      ensures ClosedSet(board, rows, cols) == ClosedSet(old(board), rows, cols) - {q} && q in ClosedSet(old(board), rows, cols)
    {
      OpenOne(board, rows, cols, q);
      board := Set(board, q, board[q.row][q.col].(isRevealed := true));
      revealed := revealed + 1;
    }
  }
}

/**
 * The solver-backed parts of the game service: the colour hints of the
 * training mode (`CalculateCellHints`) and the mine layout chosen on a
 * click in the training and fair modes (`DetermineMinePlacement`).
 */
module GameHints {
  import opened Common
  import opened Grids
  import opened GameStates
  import opened LabelMaps
  import opened Solvers
  import opened SafeCells

  // ---------------------------------------------------------------------
  // CalculateCellHints

  /** What the solver is told about each cell of the board. */
  function CellInfos(b: seq<seq<Cell>>, rows: nat, cols: nat): (infos: seq<seq<CellInfo>>)
    requires IsGrid(b, rows, cols)
    ensures IsGrid(infos, rows, cols)
    ensures forall r, c :: 0 <= r < rows && 0 <= c < cols ==> infos[r][c] == CellInfo(b[r][c].isRevealed, b[r][c].neighborMines)
  {
    seq(rows, r requires 0 <= r < rows => seq(cols, c requires 0 <= c < cols => CellInfo(b[r][c].isRevealed, b[r][c].neighborMines)))
  }

  /** The hint for a boundary cell: both possible is UNKNOWN, only a mine MINE, only safe SAFE, neither no hint. */
  function HintTypeOf(canBeSafe: bool, canBeDangerous: bool): (t: Option<string>)
    ensures t.Some? <==> canBeSafe || canBeDangerous
  {
    if canBeDangerous && canBeSafe then Some("UNKNOWN")
    else if canBeDangerous && !canBeSafe then Some("MINE")
    else if !canBeDangerous && canBeSafe then Some("SAFE")
    else None
  }

  /** The hint the k-th boundary cell would get. */
  function HintAt(boundary: seq<Pos>, safe: seq<bool>, danger: seq<bool>, k: int): CellHint
    requires 0 <= k < |boundary| && |safe| == |boundary| && |danger| == |boundary|
  {
    CellHint(boundary[k].row, boundary[k].col, HintTypeOf(safe[k], danger[k]).GetOr(""))
  }

  /** The hints for the first `n` boundary cells, in boundary order, the cells with neither flag left out. */
  function Classified(boundary: seq<Pos>, safe: seq<bool>, danger: seq<bool>, n: nat): seq<CellHint>
    requires n <= |boundary| && |safe| == |boundary| && |danger| == |boundary|
  {
    if n == 0 then []
    else Classified(boundary, safe, danger, n - 1) + (if safe[n - 1] || danger[n - 1] then [HintAt(boundary, safe, danger, n - 1)] else [])
  }

  /**
   * The hints are exactly those of the boundary cells with at least one
   * flag: every hint is some cell's, and every such cell has its hint.
   */
  lemma {:induction false} ClassifiedMeans(boundary: seq<Pos>, safe: seq<bool>, danger: seq<bool>, n: nat)
    requires n <= |boundary| && |safe| == |boundary| && |danger| == |boundary|
    ensures forall h :: h in Classified(boundary, safe, danger, n) ==>
              exists k :: 0 <= k < n && (safe[k] || danger[k]) && h == HintAt(boundary, safe, danger, k)
    ensures forall k :: 0 <= k < n && (safe[k] || danger[k]) ==> HintAt(boundary, safe, danger, k) in Classified(boundary, safe, danger, n)
    ensures |Classified(boundary, safe, danger, n)| <= n
  {
    if n > 0 {
      ClassifiedMeans(boundary, safe, danger, n - 1);
    }
  }

  /** The classification loop of `CalculateCellHints`. */
  method ClassifyBoundary(s: Solver, boundary: seq<Pos>) returns (hints: seq<CellHint>)
    requires |s.canBeSafe| == s.numMines && |s.canBeDangerous| == s.numMines && s.numMines == |boundary|
    ensures hints == Classified(boundary, s.canBeSafe, s.canBeDangerous, |boundary|)
  {
    hints := [];
    var i := 0;
    while i < |boundary|
      invariant 0 <= i <= |boundary| && hints == Classified(boundary, s.canBeSafe, s.canBeDangerous, i)
    {
      var canBeDangerous := s.CanBeDangerous(i);
      var canBeSafe := s.CanBeSafe(i);
      var hintType: string;
      if canBeDangerous && canBeSafe {
        hintType := "UNKNOWN";
      } else if canBeDangerous && !canBeSafe {
        hintType := "MINE";
      } else if !canBeDangerous && canBeSafe {
        hintType := "SAFE";
      } else {
        i := i + 1;
        continue;
      }
      hints := hints + [CellHint(boundary[i].row, boundary[i].col, hintType)];
      i := i + 1;
    }
  }

  /** A flag that lets a cell be safe: a placement without a mine there meets every number. */
  lemma SafeMeans(clauses: seq<seq<int>>, numVars: int, ls: seq<int>, mss: seq<seq<int>>, cache: seq<Option<bool>>,
                  ins: seq<LabelInput>, safe: seq<bool>, danger: seq<bool>, n: int, k: int)
    requires Recorded(ls, mss, cache, ins) && StartsFrom(clauses, ls, mss, cache)
    requires |cache| <= numVars && InputsBelow(ins, |cache|)
    requires FlagsSound(clauses, numVars, cache, safe, danger, n)
    requires 0 <= k < |cache| && safe[k] && cache[k] != Some(false)
    ensures Witnessed(cache, ins, k, false)
  {
    assert FlagOk(clauses, numVars, cache[k], safe[k], danger[k], k, k < n);
    FlagWitnessed(clauses, numVars, ls, mss, cache, ins, k, false);
  }

  /** Every flag the solver raised is backed by the cache or by a placement meeting every number. */
  lemma AllFlagsMean(clauses: seq<seq<int>>, numVars: int, ls: seq<int>, mss: seq<seq<int>>, cache: seq<Option<bool>>,
                     ins: seq<LabelInput>, safe: seq<bool>, danger: seq<bool>, n: int)
    requires Recorded(ls, mss, cache, ins) && StartsFrom(clauses, ls, mss, cache)
    requires |cache| <= numVars && InputsBelow(ins, |cache|)
    requires FlagsSound(clauses, numVars, cache, safe, danger, n)
    requires forall k :: 0 <= k < |cache| ==> cache[k] != Some(false)
    ensures forall k :: 0 <= k < |cache| && danger[k] ==> cache[k] == Some(true) || Witnessed(cache, ins, k, true)
    ensures forall k :: 0 <= k < |cache| && safe[k] ==> Witnessed(cache, ins, k, false)
  {
    forall k | 0 <= k < |cache| && danger[k]
      ensures cache[k] == Some(true) || Witnessed(cache, ins, k, true)
    {
      DangerMeans(clauses, numVars, ls, mss, cache, ins, safe, danger, n, k);
    }
    forall k | 0 <= k < |cache| && safe[k]
      ensures Witnessed(cache, ins, k, false)
    {
      SafeMeans(clauses, numVars, ls, mss, cache, ins, safe, danger, n, k);
    }
  }

  /**
   * The hints `CalculateCellHints` computes for a board: one per boundary
   * cell (a closed cell next to an opened one) the solver raised a flag
   * for, in boundary order. A MINE or UNKNOWN hint is backed by a cached
   * mine or by a placement with a mine there that meets every opened
   * number; a SAFE or UNKNOWN hint by a placement without one.
   */
  method ComputeCellHints(b: seq<seq<Cell>>, rows: nat, cols: nat, mines: int)
    returns (hints: seq<CellHint>, ghost boundary: seq<Pos>, ghost grid: seq<seq<int>>, ghost cache: seq<Option<bool>>,
             ghost safe: seq<bool>, ghost danger: seq<bool>)
    requires IsGrid(b, rows, cols)
    ensures Indexed(boundary, grid, rows, cols)
    ensures forall p :: p in boundary <==> IsBoundaryCell(OpenedLabels(CellInfos(b, rows, cols), rows, cols), rows, cols, p)
    ensures |safe| == |boundary| && |danger| == |boundary| && |cache| == |boundary|
    ensures hints == Classified(boundary, safe, danger, |boundary|)
    ensures forall k :: 0 <= k < |boundary| && danger[k] ==>
              cache[k] == Some(true) ||
              Witnessed(cache, LabelInputs(OpenedLabels(CellInfos(b, rows, cols), rows, cols), grid, rows, cols, rows), k, true)
    ensures forall k :: 0 <= k < |boundary| && safe[k] ==>
              Witnessed(cache, LabelInputs(OpenedLabels(CellInfos(b, rows, cols), rows, cols), grid, rows, cols, rows), k, false)
  {
    var infos := CellInfos(b, rows, cols);
    var lm := LabelOpened(infos, rows, cols);
    boundary, grid := lm.boundary, lm.boundaryGrid;
    BoundaryCacheMines(lm.cache, lm.boundary, rows, cols);
    cache := BoundaryCache(lm.cache, lm.boundary, rows, cols);
    ghost var ins := LabelInputs(lm.labels, lm.boundaryGrid, rows, cols, rows);
    var solver := MakeSolver(lm, mines);
    safe, danger := solver.canBeSafe, solver.canBeDangerous;
    hints := ClassifyBoundary(solver, lm.boundary);
    AllFlagsMean(solver.sat.clauses, solver.sat.numVars, solver.labels, solver.labelToMine, cache, ins,
                 solver.canBeSafe, solver.canBeDangerous, solver.numMines);
  }

  /**
   * The hints are the classification of the board's boundary cells under
   * some flags, where every danger flag is backed by a cached mine or a
   * placement with a mine there meeting every opened number, and every safe
   * flag by such a placement without one.
   */
  ghost predicate HintsFor(hints: seq<CellHint>, b: seq<seq<Cell>>, rows: nat, cols: nat)
    requires IsGrid(b, rows, cols)
  {
    exists boundary, grid, cache, safe, danger :: HintsBy(hints, b, rows, cols, boundary, grid, cache, safe, danger)
  }

  /** HintsFor with its witnesses named. */
  ghost predicate HintsBy(hints: seq<CellHint>, b: seq<seq<Cell>>, rows: nat, cols: nat,
                          boundary: seq<Pos>, grid: seq<seq<int>>, cache: seq<Option<bool>>, safe: seq<bool>, danger: seq<bool>)
    requires IsGrid(b, rows, cols)
  {
    Indexed(boundary, grid, rows, cols) &&
    |safe| == |boundary| && |danger| == |boundary| && |cache| == |boundary| &&
    (forall p :: p in boundary <==> IsBoundaryCell(OpenedLabels(CellInfos(b, rows, cols), rows, cols), rows, cols, p)) &&
    hints == Classified(boundary, safe, danger, |boundary|) &&
    (forall k :: 0 <= k < |boundary| && danger[k] ==>
       cache[k] == Some(true) ||
       Witnessed(cache, LabelInputs(OpenedLabels(CellInfos(b, rows, cols), rows, cols), grid, rows, cols, rows), k, true)) &&
    (forall k :: 0 <= k < |boundary| && safe[k] ==>
       Witnessed(cache, LabelInputs(OpenedLabels(CellInfos(b, rows, cols), rows, cols), grid, rows, cols, rows), k, false))
  }

  /** The hints ComputeCellHints finds for a board are that board's hints. */
  method HintsOf(b: seq<seq<Cell>>, rows: nat, cols: nat, mines: int) returns (hints: seq<CellHint>)
    requires IsGrid(b, rows, cols)
    ensures HintsFor(hints, b, rows, cols)
  {
    ghost var boundary, grid, cache, safe, danger;
    hints, boundary, grid, cache, safe, danger := ComputeCellHints(b, rows, cols, mines);
    assert HintsBy(hints, b, rows, cols, boundary, grid, cache, safe, danger);
  }

  /** `CalculateCellHints`: the game's hints become those of its board. */
  method CalculateCellHints(gs: GameState)
    requires gs.Valid()
    modifies gs`cellHints
    ensures HintsFor(gs.cellHints, gs.board, gs.rows, gs.cols)
  {
    gs.cellHints := HintsOf(gs.board, gs.rows, gs.cols, gs.mines);
  }

  // ---------------------------------------------------------------------
  // DetermineMinePlacement

  /** The cells a mine grid puts a mine on. */
  function MineCells(g: seq<seq<bool>>, rows: int, cols: int): set<Pos>
    requires IsGrid(g, rows, cols)
  {
    set r, c | 0 <= r < rows && 0 <= c < cols && g[r][c] :: Pos(r, c)
  }

  lemma AddGridMine(g: seq<seq<bool>>, rows: int, cols: int, q: Pos)
    requires IsGrid(g, rows, cols) && InGrid(q, rows, cols) && !g[q.row][q.col]
    ensures var g' := Set(g, q, true);
            IsGrid(g', rows, cols) && MineCells(g', rows, cols) == MineCells(g, rows, cols) + {q} && q !in MineCells(g, rows, cols)
  {
    assert q in MineCells(Set(g, q, true), rows, cols);
  }

  lemma NoGridMines(rows: nat, cols: nat)
    ensures MineCells(Filled(rows, cols, false), rows, cols) == {}
  {
  }

  /** A board with cells only draws from when it has any. */
  lemma AttemptsNeedCells(rows: nat, cols: nat, attempts: int)
    requires 0 <= attempts < rows * cols * 2
    ensures rows > 0 && cols > 0
  {
  }

  /**
   * The QuickStart grid of `DetermineMinePlacement`: up to `mines` mines
   * on distinct drawn cells outside the 3x3 block around the click, with
   * at most rows*cols*2 draws.
   */
  method QuickStartGrid(gs: GameState, rows: nat, cols: nat, mines: int, click: Pos, draw: nat -> Pos) returns (g: seq<seq<bool>>)
    ensures IsGrid(g, rows, cols)
    ensures forall r, c :: 0 <= r < rows && 0 <= c < cols && InBlock(Pos(r, c), click) ==> !g[r][c]
    ensures |MineCells(g, rows, cols)| <= if mines < 0 then 0 else mines
  {
    g := Filled(rows, cols, false);
    NoGridMines(rows, cols);
    var placed := 0;
    var attempts := 0;
    var maxAttempts := rows * cols * 2;
    while placed < mines && attempts < maxAttempts
      invariant IsGrid(g, rows, cols) && 0 <= placed == |MineCells(g, rows, cols)| && (mines > 0 ==> placed <= mines)
      invariant mines <= 0 ==> placed == 0
      invariant forall r, c :: 0 <= r < rows && 0 <= c < cols && InBlock(Pos(r, c), click) ==> !g[r][c]
    {
      AttemptsNeedCells(rows, cols, attempts);
      var d := DrawnCell(draw(attempts), rows, cols);
      attempts := attempts + 1;
      var isNearClick := gs.IsInRadius(d.row, d.col, click.row, click.col, 1);
      if isNearClick || g[d.row][d.col] {
        continue;
      }
      AddGridMine(g, rows, cols, d);
      g := Set(g, d, true);
      placed := placed + 1;
    }
  }

  /**
   * The fallback grid of `DetermineMinePlacement`: up to `minesToPlace`
   * mines on distinct drawn cells, never on the click and never on an
   * opened cell, with at most rows*cols*2 draws.
   */
  method FallbackGrid(b: seq<seq<Cell>>, rows: nat, cols: nat, minesToPlace: int, click: Pos, draw: nat -> Pos)
    returns (g: seq<seq<bool>>)
    requires IsGrid(b, rows, cols)
    ensures IsGrid(g, rows, cols)
    ensures forall r, c :: 0 <= r < rows && 0 <= c < cols && g[r][c] ==> Pos(r, c) != click && !b[r][c].isRevealed
    ensures |MineCells(g, rows, cols)| <= if minesToPlace < 0 then 0 else minesToPlace
  {
    g := Filled(rows, cols, false);
    NoGridMines(rows, cols);
    var placed := 0;
    var attempts := 0;
    var maxAttempts := rows * cols * 2;
    while placed < minesToPlace && attempts < maxAttempts
      invariant IsGrid(g, rows, cols) && 0 <= placed == |MineCells(g, rows, cols)| && (minesToPlace > 0 ==> placed <= minesToPlace)
      invariant minesToPlace <= 0 ==> placed == 0
      invariant forall r, c :: 0 <= r < rows && 0 <= c < cols && g[r][c] ==> Pos(r, c) != click && !b[r][c].isRevealed
    {
      AttemptsNeedCells(rows, cols, attempts);
      var d := DrawnCell(draw(attempts), rows, cols);
      attempts := attempts + 1;
      if (d.row == click.row && d.col == click.col) || b[d.row][d.col].isRevealed {
        continue;
      }
      if !g[d.row][d.col] {
        AddGridMine(g, rows, cols, d);
        g := Set(g, d, true);
        placed := placed + 1;
      }
    }
  }

  /** The closed mines among the cells before (i, j) in row-major order. */
  function ClosedMinesBefore(b: seq<seq<Cell>>, rows: int, cols: int, i: int, j: int): set<Pos>
    requires IsGrid(b, rows, cols)
  {
    set r, c | 0 <= r < rows && 0 <= c < cols && GameStates.Before(Pos(r, c), i, j) && !b[r][c].isRevealed && b[r][c].isMine :: Pos(r, c)
  }

  /** The closed mines of the board. */
  function ClosedMines(b: seq<seq<Cell>>, rows: int, cols: int): set<Pos>
    requires IsGrid(b, rows, cols)
  {
    set r, c | 0 <= r < rows && 0 <= c < cols && !b[r][c].isRevealed && b[r][c].isMine :: Pos(r, c)
  }

  lemma ClosedMinesStep(b: seq<seq<Cell>>, rows: int, cols: int, i: int, j: int)
    requires IsGrid(b, rows, cols) && 0 <= i < rows && 0 <= j < cols
    ensures ClosedMinesBefore(b, rows, cols, i, j + 1) ==
              ClosedMinesBefore(b, rows, cols, i, j) + (if !b[i][j].isRevealed && b[i][j].isMine then {Pos(i, j)} else {})
    ensures Pos(i, j) !in ClosedMinesBefore(b, rows, cols, i, j)
  {
  }

  /** The counting loop of `DetermineMinePlacement`: the mines not yet opened. */
  method CountClosedMines(b: seq<seq<Cell>>, rows: nat, cols: nat) returns (placedMines: nat)
    requires IsGrid(b, rows, cols)
    ensures placedMines == |ClosedMines(b, rows, cols)|
  {
    placedMines := 0;
    var i := 0;
    assert ClosedMinesBefore(b, rows, cols, 0, 0) == {};
    while i < rows
      invariant 0 <= i <= rows && placedMines == |ClosedMinesBefore(b, rows, cols, i, 0)|
    {
      var j := 0;
      while j < cols
        invariant 0 <= j <= cols && placedMines == |ClosedMinesBefore(b, rows, cols, i, j)|
      {
        ClosedMinesStep(b, rows, cols, i, j);
        if !b[i][j].isRevealed && b[i][j].isMine {
          placedMines := placedMines + 1;
        }
        j := j + 1;
      }
      assert ClosedMinesBefore(b, rows, cols, i, cols) == ClosedMinesBefore(b, rows, cols, i + 1, 0);
      i := i + 1;
    }
    assert ClosedMinesBefore(b, rows, cols, rows, 0) == ClosedMines(b, rows, cols);
  }

  /** The mines still to be placed: the game's count less the closed mines, at least 0. */
  function RemainingMines(b: seq<seq<Cell>>, rows: nat, cols: nat, mines: int): int
    requires IsGrid(b, rows, cols)
  {
    if mines - |ClosedMines(b, rows, cols)| < 0 then 0 else mines - |ClosedMines(b, rows, cols)|
  }

  /**
   * `DetermineMinePlacement`: on the first click of a QuickStart game the
   * QuickStart grid; otherwise the grid of the shape the solver picked, if
   * it found one (`shape`, computed outside this model); failing that, the
   * fallback grid with the remaining mines, or all of them if none remain.
   */
  method DetermineMinePlacement(gs: GameState, quickStart: bool, click: Pos, draw: nat -> Pos, shape: Option<seq<seq<bool>>>)
    returns (g: seq<seq<bool>>)
    requires gs.Valid() && (shape.Some? ==> IsGrid(shape.value, gs.rows, gs.cols))
    ensures IsGrid(g, gs.rows, gs.cols)
    ensures gs.revealed == 0 && quickStart ==>
              (forall r, c :: 0 <= r < gs.rows && 0 <= c < gs.cols && InBlock(Pos(r, c), click) ==> !g[r][c]) &&
              |MineCells(g, gs.rows, gs.cols)| <= (if gs.mines < 0 then 0 else gs.mines)
    ensures !(gs.revealed == 0 && quickStart) && shape.Some? ==> g == shape.value
    ensures !(gs.revealed == 0 && quickStart) && shape.None? ==>
              (forall r, c :: 0 <= r < gs.rows && 0 <= c < gs.cols && g[r][c] ==> Pos(r, c) != click && !gs.board[r][c].isRevealed) &&
              var remaining := RemainingMines(gs.board, gs.rows, gs.cols, gs.mines);
              |MineCells(g, gs.rows, gs.cols)| <= if remaining == 0 && gs.mines > 0 then gs.mines else remaining
  {
    var isFirstClick := gs.revealed == 0;
    if isFirstClick && quickStart {
      g := QuickStartGrid(gs, gs.rows, gs.cols, gs.mines, click, draw);
      return;
    }
    var placedMines := CountClosedMines(gs.board, gs.rows, gs.cols);
    var remainingMines := gs.mines - placedMines;
    if remainingMines < 0 {
      remainingMines := 0;
    }
    if shape.Some? {
      return shape.value;
    }
    var minesToPlace := remainingMines;
    if minesToPlace == 0 && gs.mines > 0 {
      minesToPlace := gs.mines;
    }
    g := FallbackGrid(gs.board, gs.rows, gs.cols, minesToPlace, click, draw);
  }
}

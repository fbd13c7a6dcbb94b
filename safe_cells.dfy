/**
 * MakeSolver and CalculateSafeCells (kaboom.go): the solver is fed one
 * label per opened number with boundary neighbours, in row-major order,
 * and run; the cells it never found a mine for are reported safe.
 */
module SafeCells {
  import opened Common
  import opened Grids
  import opened SatSolving
  import opened LabelMaps
  import opened Solvers

  /** The pair MakeSolver hands AddLabel for an opened cell: its number and its boundary neighbours. */
  datatype LabelInput = LabelInput(count: int, mineList: seq<int>)

  /** Each number of `ins` less the cached mines around it: the labels AddLabel records. */
  function AdjustedLabels(cache: seq<Option<bool>>, ins: seq<LabelInput>): seq<int> {
    seq(|ins|, l requires 0 <= l < |ins| => ins[l].count - CachedTrueAmong(cache, ins[l].mineList))
  }

  /** The uncached cells of each list of `ins`: the lists AddLabel records. */
  function UncachedLists(cache: seq<Option<bool>>, ins: seq<LabelInput>): seq<seq<int>> {
    seq(|ins|, l requires 0 <= l < |ins| => UncachedAmong(cache, ins[l].mineList))
  }

  /** `ls` and `mss` are what AddLabel records for `ins` against `cache`. */
  predicate Recorded(ls: seq<int>, mss: seq<seq<int>>, cache: seq<Option<bool>>, ins: seq<LabelInput>) {
    ls == AdjustedLabels(cache, ins) && mss == UncachedLists(cache, ins)
  }

  lemma RecordedAppend(ls: seq<int>, mss: seq<seq<int>>, cache: seq<Option<bool>>, ins: seq<LabelInput>, x: LabelInput)
    requires Recorded(ls, mss, cache, ins)
    ensures Recorded(ls + [x.count - CachedTrueAmong(cache, x.mineList)], mss + [UncachedAmong(cache, x.mineList)], cache, ins + [x])
  {
    var ins' := ins + [x];
    assert forall l :: 0 <= l < |ins| ==> ins'[l] == ins[l];
    assert AdjustedLabels(cache, ins') == ls + [x.count - CachedTrueAmong(cache, x.mineList)];
    assert UncachedLists(cache, ins') == mss + [UncachedAmong(cache, x.mineList)];
  }

  /** Every list of `ins` holds indices below `n`. */
  predicate InputsBelow(ins: seq<LabelInput>, n: int) {
    forall l :: 0 <= l < |ins| ==> IdsBelow(ins[l].mineList, n)
  }

  lemma {:induction false} InputsBelowAppend(xs: seq<LabelInput>, ys: seq<LabelInput>, n: int)
    requires InputsBelow(xs, n) && InputsBelow(ys, n)
    ensures InputsBelow(xs + ys, n)
  {
    forall l | 0 <= l < |xs + ys|
      ensures IdsBelow((xs + ys)[l].mineList, n)
    {
      if l < |xs| {
        assert (xs + ys)[l] == xs[l];
      } else {
        assert (xs + ys)[l] == ys[l - |xs|];
      }
    }
  }

  // ---------------------------------------------------------------------
  // What MakeSolver feeds the solver

  /** The boundary index at `p`, if `p` is on the board and on the boundary. */
  function NeighborId(grid: seq<seq<int>>, h: int, w: int, p: Pos): seq<int>
    requires IsGrid(grid, h, w)
  {
    if InGrid(p, h, w) && grid[p.row][p.col] != -1 then [grid[p.row][p.col]] else []
  }

  /** The boundary indices of the first `n` neighbours of `q`, in the order of MakeSolver's di/dj loops. */
  function NeighborIds(grid: seq<seq<int>>, h: int, w: int, q: Pos, n: nat): (ids: seq<int>)
    requires IsGrid(grid, h, w) && n <= 8
  {
    if n == 0 then [] else NeighborIds(grid, h, w, q, n - 1) + NeighborId(grid, h, w, Nb(q, n - 1))
  }

  /** MakeSolver's AddLabel call for cell `q`: none for a closed cell or one without boundary neighbours. */
  function CellInputs(labels: seq<seq<int>>, grid: seq<seq<int>>, h: int, w: int, q: Pos): seq<LabelInput>
    requires IsGrid(labels, h, w) && IsGrid(grid, h, w) && InGrid(q, h, w)
  {
    var ids := NeighborIds(grid, h, w, q, 8);
    if labels[q.row][q.col] != -1 && |ids| > 0 then [LabelInput(labels[q.row][q.col], ids)] else []
  }

  /** The calls for the first `j` cells of row `i`. */
  function RowInputs(labels: seq<seq<int>>, grid: seq<seq<int>>, h: int, w: int, i: int, j: nat): seq<LabelInput>
    requires IsGrid(labels, h, w) && IsGrid(grid, h, w) && 0 <= i < h && j <= w
  {
    if j == 0 then [] else RowInputs(labels, grid, h, w, i, j - 1) + CellInputs(labels, grid, h, w, Pos(i, j - 1))
  }

  /** The calls for the first `i` rows, in row-major order. */
  function LabelInputs(labels: seq<seq<int>>, grid: seq<seq<int>>, h: int, w: nat, i: nat): seq<LabelInput>
    requires IsGrid(labels, h, w) && IsGrid(grid, h, w) && i <= h
  {
    if i == 0 then [] else LabelInputs(labels, grid, h, w, i - 1) + RowInputs(labels, grid, h, w, i - 1, w)
  }

  /** The boundary indices the grid holds are those of the boundary. */
  lemma {:induction false} NeighborIdsBelow(boundary: seq<Pos>, grid: seq<seq<int>>, h: int, w: int, q: Pos, n: nat)
    requires Indexed(boundary, grid, h, w) && n <= 8
    ensures IdsBelow(NeighborIds(grid, h, w, q, n), |boundary|)
  {
    if n > 0 {
      NeighborIdsBelow(boundary, grid, h, w, q, n - 1);
    }
  }

  /** Every list MakeSolver feeds holds boundary indices. */
  lemma {:induction false} RowInputsBelow(labels: seq<seq<int>>, boundary: seq<Pos>, grid: seq<seq<int>>, h: int, w: int, i: int, j: nat)
    requires IsGrid(labels, h, w) && Indexed(boundary, grid, h, w) && 0 <= i < h && j <= w
    ensures InputsBelow(RowInputs(labels, grid, h, w, i, j), |boundary|)
  {
    if j > 0 {
      var done, cell := RowInputs(labels, grid, h, w, i, j - 1), CellInputs(labels, grid, h, w, Pos(i, j - 1));
      RowInputsBelow(labels, boundary, grid, h, w, i, j - 1);
      CellInputsBelow(labels, boundary, grid, h, w, Pos(i, j - 1));
      InputsBelowAppend(done, cell, |boundary|);
    }
  }

  lemma CellInputsBelow(labels: seq<seq<int>>, boundary: seq<Pos>, grid: seq<seq<int>>, h: int, w: int, q: Pos)
    requires IsGrid(labels, h, w) && Indexed(boundary, grid, h, w) && InGrid(q, h, w)
    ensures InputsBelow(CellInputs(labels, grid, h, w, q), |boundary|)
  {
    NeighborIdsBelow(boundary, grid, h, w, q, 8);
  }

  lemma {:induction false} LabelInputsBelow(labels: seq<seq<int>>, boundary: seq<Pos>, grid: seq<seq<int>>, h: int, w: nat, i: nat)
    requires IsGrid(labels, h, w) && Indexed(boundary, grid, h, w) && i <= h
    ensures InputsBelow(LabelInputs(labels, grid, h, w, i), |boundary|)
  {
    if i > 0 {
      var done, row := LabelInputs(labels, grid, h, w, i - 1), RowInputs(labels, grid, h, w, i - 1, w);
      LabelInputsBelow(labels, boundary, grid, h, w, i - 1);
      RowInputsBelow(labels, boundary, grid, h, w, i - 1, w);
      InputsBelowAppend(done, row, |boundary|);
    }
  }

  function CacheAt(cache: seq<seq<Option<bool>>>, p: Pos, h: int, w: int): Option<bool>
    requires IsGrid(cache, h, w) && InGrid(p, h, w)
  {
    cache[p.row][p.col]
  }

  /** The map's cache, read at each boundary cell (NewSolver's `lm.GetCache(i)`). */
  function BoundaryCache(cache: seq<seq<Option<bool>>>, boundary: seq<Pos>, h: int, w: int): (c: seq<Option<bool>>)
    requires IsGrid(cache, h, w) && forall k :: 0 <= k < |boundary| ==> InGrid(boundary[k], h, w)
    ensures |c| == |boundary|
  {
    seq(|boundary|, k requires 0 <= k < |boundary| => CacheAt(cache, boundary[k], h, w))
  }

  // ---------------------------------------------------------------------
  // What a model of the solver's clauses means

  /**
   * Under `a`, every number whose boundary neighbours are not all cached
   * sees exactly that many mines among them (an opened number whose cells
   * are all cached adds no clause).
   */
  ghost predicate MeetsLabels(a: seq<bool>, cache: seq<Option<bool>>, ins: seq<LabelInput>) {
    forall l :: 0 <= l < |ins| && |UncachedAmong(cache, ins[l].mineList)| > 0 ==>
      TrueCount(a, Shift(ins[l].mineList)) == ins[l].count
  }

  /** Some placement of mines on the boundary agrees with the cache, meets every number and gives cell `i` the value `v`. */
  ghost predicate Witnessed(cache: seq<Option<bool>>, ins: seq<LabelInput>, i: int, v: bool) {
    0 <= i < |cache| && exists a :: |cache| < |a| && a[i + 1] == v && Agrees(a, cache) && MeetsLabels(a, cache, ins)
  }

  /** The recorded lists keep the inputs' bound. */
  lemma RecordedIn(ls: seq<int>, mss: seq<seq<int>>, cache: seq<Option<bool>>, ins: seq<LabelInput>)
    requires Recorded(ls, mss, cache, ins)
    ensures IdsIn(mss, |cache|)
  {
    forall l, k | 0 <= l < |mss| && 0 <= k < |mss[l]|
      ensures 0 <= mss[l][k] < |cache|
    {
      assert ls[l] == ins[l].count - CachedTrueAmong(cache, ins[l].mineList);
      assert mss[l][k] in UncachedAmong(cache, ins[l].mineList);
    }
  }

  /** One number: its adjusted label counts the uncached mines, so the whole list holds `count`. */
  lemma InputMet(a: seq<bool>, cache: seq<Option<bool>>, x: LabelInput)
    requires Agrees(a, cache) && |cache| < |a| && IdsBelow(x.mineList, |cache|)
    requires TrueCount(a, Shift(UncachedAmong(cache, x.mineList))) == x.count - CachedTrueAmong(cache, x.mineList)
    ensures TrueCount(a, Shift(x.mineList)) == x.count
  {
    AdjustedCount(a, cache, x.mineList);
  }

  /** Counts met on the recorded labels are counts met on the numbers themselves. */
  lemma CountsMeetLabels(a: seq<bool>, ls: seq<int>, mss: seq<seq<int>>, cache: seq<Option<bool>>, ins: seq<LabelInput>)
    requires Agrees(a, cache) && |cache| < |a| && InputsBelow(ins, |cache|) && Recorded(ls, mss, cache, ins)
    requires forall l :: 0 <= l < |ls| && |mss[l]| > 0 ==> TrueCount(a, Shift(mss[l])) == ls[l]
    ensures MeetsLabels(a, cache, ins)
  {
    forall l | 0 <= l < |ins| && |UncachedAmong(cache, ins[l].mineList)| > 0
      ensures TrueCount(a, Shift(ins[l].mineList)) == ins[l].count
    {
      assert ls[l] == ins[l].count - CachedTrueAmong(cache, ins[l].mineList);
      InputMet(a, cache, ins[l]);
    }
  }

  /** The clauses a solver starts from: the labels it recorded and the cache it read. */
  predicate StartsFrom(clauses: seq<seq<int>>, ls: seq<int>, mss: seq<seq<int>>, cache: seq<Option<bool>>)
    requires |ls| == |mss|
  {
    StartsWith(clauses, LabelClauses(ls, mss) + CacheClauses(cache))
  }

  /** Run's prefix, for a solver whose clause list started out empty. */
  lemma StartsFromEmpty(clauses: seq<seq<int>>, ls: seq<int>, mss: seq<seq<int>>, cache: seq<Option<bool>>, before: seq<seq<int>>)
    requires |ls| == |mss| && before == []
    requires StartsWith(clauses, before + LabelClauses(ls, mss) + CacheClauses(cache))
    ensures StartsFrom(clauses, ls, mss, cache)
  {
    assert before + LabelClauses(ls, mss) == LabelClauses(ls, mss);
  }

  /** A model of the clauses Run starts from agrees with the cache and meets every number. */
  lemma ModelMeetsLabels(a: seq<bool>, clauses: seq<seq<int>>, ls: seq<int>, mss: seq<seq<int>>,
                         cache: seq<Option<bool>>, ins: seq<LabelInput>)
    requires Recorded(ls, mss, cache, ins) && StartsFrom(clauses, ls, mss, cache)
    requires Satisfies(a, clauses) && |cache| < |a| && InputsBelow(ins, |cache|)
    ensures Agrees(a, cache) && MeetsLabels(a, cache, ins)
  {
    RecordedIn(ls, mss, cache, ins);
    ModelMeetsConstraints(a, clauses, ls, mss, cache);
    CountsMeetLabels(a, ls, mss, cache, ins);
  }

  lemma WitnessOf(a: seq<bool>, cache: seq<Option<bool>>, ins: seq<LabelInput>, i: int, v: bool)
    requires 0 <= i < |cache| < |a| && a[i + 1] == v && Agrees(a, cache) && MeetsLabels(a, cache, ins)
    ensures Witnessed(cache, ins, i, v)
  {
  }

  /** A flag Run raised for an uncached cell is witnessed by a placement meeting every number. */
  lemma FlagWitnessed(clauses: seq<seq<int>>, numVars: int, ls: seq<int>, mss: seq<seq<int>>, cache: seq<Option<bool>>,
                      ins: seq<LabelInput>, i: int, v: bool)
    requires Recorded(ls, mss, cache, ins) && StartsFrom(clauses, ls, mss, cache)
    requires |cache| <= numVars && InputsBelow(ins, |cache|)
    requires Possible(clauses, numVars, i, v) && i < |cache|
    ensures Witnessed(cache, ins, i, v)
  {
    var a :| |a| == numVars + 1 && Satisfies(a, clauses) && 0 <= i && i + 1 < |a| && a[i + 1] == v;
    ModelMeetsLabels(a, clauses, ls, mss, cache, ins);
    WitnessOf(a, cache, ins, i, v);
  }

  // ---------------------------------------------------------------------
  // MakeSolver

  /** What the solver has been fed so far: one label and one cell list per input. */
  ghost predicate Fed(s: Solver, ins: seq<LabelInput>)
    reads s
  {
    Recorded(s.labels, s.labelToMine, s.cache, ins)
  }

  /** MakeSolver's neighbour loops for cell `q`: the boundary indices around it, in di/dj order. */
  method NeighborMineList(lm: LabelMap, q: Pos) returns (mineList: seq<int>)
    requires lm.Valid()
    ensures mineList == NeighborIds(lm.boundaryGrid, lm.height, lm.width, q, 8)
  {
    mineList := [];
    var n := 0;
    while n < 8
      invariant 0 <= n <= 8 && mineList == NeighborIds(lm.boundaryGrid, lm.height, lm.width, q, n)
    {
      var p := Nb(q, n);
      if p.row >= 0 && p.row < lm.height && p.col >= 0 && p.col < lm.width {
        var mineIdx := lm.boundaryGrid[p.row][p.col];
        if mineIdx != -1 {
          mineList := mineList + [mineIdx];
        }
      }
      n := n + 1;
    }
  }

  /** The body of MakeSolver's cell loop: an opened cell with boundary neighbours becomes a label. */
  method AddCellLabel(s: Solver, q: Pos, ghost ins: seq<LabelInput>)
    requires s.Valid() && s.lm.Valid() && s.numMines == |s.lm.boundary| && InGrid(q, s.lm.height, s.lm.width) && Fed(s, ins)
    modifies s`labels, s`labelToMine
    ensures s.Valid() && Fed(s, ins + CellInputs(s.lm.labels, s.lm.boundaryGrid, s.lm.height, s.lm.width, q))
  {
    var lm := s.lm;
    var count := lm.labels[q.row][q.col];
    if count == -1 {
      assert ins + [] == ins;
      return;
    }
    var mineList := NeighborMineList(lm, q);
    if |mineList| > 0 {
      ghost var x := LabelInput(count, mineList);
      assert CellInputs(lm.labels, lm.boundaryGrid, lm.height, lm.width, q) == [x];
      NeighborIdsBelow(lm.boundary, lm.boundaryGrid, lm.height, lm.width, q, 8);
      RecordedAppend(s.labels, s.labelToMine, s.cache, ins, x);
      s.AddLabel(count, mineList);
    } else {
      assert ins + [] == ins;
    }
  }

  /** A solver over the map `(labels, grid, h, w)` that has been fed `ins`. */
  ghost predicate FedOver(s: Solver, ins: seq<LabelInput>, labels: seq<seq<int>>, grid: seq<seq<int>>, h: int, w: int)
    reads s, s.sat, s.lm
  {
    s.Valid() && s.lm.Valid() && s.numMines == |s.lm.boundary| &&
    s.lm.labels == labels && s.lm.boundaryGrid == grid && s.lm.height == h && s.lm.width == w && Fed(s, ins)
  }

  /** One iteration of MakeSolver's column loop. */
  method AddRowCell(s: Solver, i: int, j: int, ghost ins: seq<LabelInput>,
                    ghost labels: seq<seq<int>>, ghost grid: seq<seq<int>>, ghost h: int, ghost w: int)
    requires IsGrid(labels, h, w) && IsGrid(grid, h, w) && 0 <= i < h && 0 <= j < w
    requires FedOver(s, ins + RowInputs(labels, grid, h, w, i, j), labels, grid, h, w)
    modifies s`labels, s`labelToMine
    ensures FedOver(s, ins + RowInputs(labels, grid, h, w, i, j + 1), labels, grid, h, w)
  {
    AddCellLabel(s, Pos(i, j), ins + RowInputs(labels, grid, h, w, i, j));
    SeqAssoc(ins, RowInputs(labels, grid, h, w, i, j), CellInputs(labels, grid, h, w, Pos(i, j)));
  }

  /** MakeSolver's column loop over row `i`. */
  method AddRowLabels(s: Solver, i: int, ghost labels: seq<seq<int>>, ghost grid: seq<seq<int>>, ghost h: int, ghost w: nat)
    requires IsGrid(labels, h, w) && IsGrid(grid, h, w) && 0 <= i < h
    requires FedOver(s, LabelInputs(labels, grid, h, w, i), labels, grid, h, w)
    modifies s`labels, s`labelToMine
    ensures FedOver(s, LabelInputs(labels, grid, h, w, i + 1), labels, grid, h, w)
  {
    ghost var ins := LabelInputs(labels, grid, h, w, i);
    assert ins + [] == ins;
    var j := 0;
    while j < s.lm.width
      invariant 0 <= j <= w && FedOver(s, ins + RowInputs(labels, grid, h, w, i, j), labels, grid, h, w)
    {
      AddRowCell(s, i, j, ins, labels, grid, h, w);
      j := j + 1;
    }
    assert j == w;
    assert LabelInputs(labels, grid, h, w, i + 1) == ins + RowInputs(labels, grid, h, w, i, j);
  }

  /** MakeSolver's row loop: every opened cell with boundary neighbours, in row-major order. */
  method AddAllLabels(s: Solver)
    requires s.Valid() && s.lm.Valid() && s.numMines == |s.lm.boundary| && s.labels == [] && s.labelToMine == []
    modifies s`labels, s`labelToMine
    ensures s.Valid() && Fed(s, LabelInputs(s.lm.labels, s.lm.boundaryGrid, s.lm.height, s.lm.width, s.lm.height))
  {
    var lm := s.lm;
    ghost var labels, grid, h, w := lm.labels, lm.boundaryGrid, lm.height, lm.width;
    assert LabelInputs(labels, grid, h, w, 0) == [];
    assert AdjustedLabels(s.cache, []) == [] && UncachedLists(s.cache, []) == [];
    var i := 0;
    while i < lm.height
      invariant 0 <= i <= h && FedOver(s, LabelInputs(labels, grid, h, w, i), labels, grid, h, w)
    {
      AddRowLabels(s, i, labels, grid, h, w);
      i := i + 1;
    }
    assert i == h;
    assert LabelInputs(s.lm.labels, s.lm.boundaryGrid, s.lm.height, s.lm.width, s.lm.height) == LabelInputs(labels, grid, h, w, i);
  }

  /**
   * `MakeSolver(lm, maxMines)`: a solver over the map's boundary, fed every
   * opened number, then run. Every flag it raises is sound with respect to
   * the map's labels and the cache it read; the decisions it reached are
   * written back to the map's cache.
   */
  method MakeSolver(lm: LabelMap, maxMines: int) returns (s: Solver)
    requires lm.Valid()
    modifies lm
    ensures fresh(s) && fresh(s.sat) && s.lm == lm && s.Valid() && lm.Valid()
    ensures s.numMines == |lm.boundary| && s.maxMines == maxMines
    ensures s.minMines == if maxMines - old(lm.numOutside) < 0 then 0 else maxMines - old(lm.numOutside)
    ensures lm.width == old(lm.width) && lm.height == old(lm.height) && lm.labels == old(lm.labels)
    ensures lm.boundary == old(lm.boundary) && lm.boundaryGrid == old(lm.boundaryGrid) && lm.numOutside == old(lm.numOutside)
    ensures var c0 := BoundaryCache(old(lm.cache), lm.boundary, lm.height, lm.width);
            var ins := LabelInputs(lm.labels, lm.boundaryGrid, lm.height, lm.width, lm.height);
            InputsBelow(ins, |c0|) && |c0| <= s.sat.numVars &&
            Recorded(s.labels, s.labelToMine, c0, ins) && StartsFrom(s.sat.clauses, s.labels, s.labelToMine, c0) &&
            FlagsSound(s.sat.clauses, s.sat.numVars, c0, s.canBeSafe, s.canBeDangerous, s.numMines) &&
            CacheSound(c0, s.cache, s.canBeSafe, s.canBeDangerous, s.numMines) &&
            WrittenBack(old(lm.cache), lm.cache, lm.boundaryGrid, lm.height, lm.width, c0, s.cache)
  {
    var minMines := maxMines - lm.numOutside;
    if minMines < 0 {
      minMines := 0;
    }
    s := new Solver(lm, |lm.boundary|, minMines, maxMines);
    assert s.cache == BoundaryCache(lm.cache, lm.boundary, lm.height, lm.width);
    AddAllLabels(s);
    LabelInputsBelow(lm.labels, lm.boundary, lm.boundaryGrid, lm.height, lm.width, lm.height);
    ghost var before, c0 := s.sat.clauses, s.cache;
    s.Run();
    StartsFromEmpty(s.sat.clauses, s.labels, s.labelToMine, c0, before);
  }

  // CalculateSafeCells

  /** What the game tells the solver about one cell (`CellInfo`). */
  datatype CellInfo = CellInfo(isRevealed: bool, neighborMines: int)

  /** The label an opened cell gets; a closed cell keeps -1. */
  function OpenedLabel(c: CellInfo): int {
    if c.isRevealed then c.neighborMines else -1
  }

  /** The map's labels once the opened cells before (i, j), in row-major order, have been set. */
  function LabelsBefore(board: seq<seq<CellInfo>>, rows: nat, cols: nat, i: int, j: int): (labels: seq<seq<int>>)
    requires IsGrid(board, rows, cols)
    ensures IsGrid(labels, rows, cols)
    ensures forall r, c :: 0 <= r < rows && 0 <= c < cols ==>
              labels[r][c] == if Before(Pos(r, c), i, j) then OpenedLabel(board[r][c]) else -1
  {
    seq(rows, r requires 0 <= r < rows =>
      seq(cols, c requires 0 <= c < cols => if Before(Pos(r, c), i, j) then OpenedLabel(board[r][c]) else -1))
  }

  /** The labels of the whole board: the number of every opened cell, -1 elsewhere. */
  function OpenedLabels(board: seq<seq<CellInfo>>, rows: nat, cols: nat): (labels: seq<seq<int>>)
    requires IsGrid(board, rows, cols)
    ensures IsGrid(labels, rows, cols)
  {
    LabelsBefore(board, rows, cols, rows, 0)
  }

  lemma LabelsBeforeStep(board: seq<seq<CellInfo>>, rows: nat, cols: nat, i: int, j: int)
    requires IsGrid(board, rows, cols) && 0 <= i < rows && 0 <= j < cols
    ensures board[i][j].isRevealed ==>
              LabelsBefore(board, rows, cols, i, j + 1) == Set(LabelsBefore(board, rows, cols, i, j), Pos(i, j), board[i][j].neighborMines)
    ensures !board[i][j].isRevealed ==> LabelsBefore(board, rows, cols, i, j + 1) == LabelsBefore(board, rows, cols, i, j)
  {
    var before, after := LabelsBefore(board, rows, cols, i, j), LabelsBefore(board, rows, cols, i, j + 1);
    if board[i][j].isRevealed {
      GridsEqual(after, Set(before, Pos(i, j), board[i][j].neighborMines), rows, cols);
    } else {
      GridsEqual(after, before, rows, cols);
    }
  }

  lemma LabelsBeforeRow(board: seq<seq<CellInfo>>, rows: nat, cols: nat, i: int)
    requires IsGrid(board, rows, cols)
    ensures LabelsBefore(board, rows, cols, i, cols) == LabelsBefore(board, rows, cols, i + 1, 0)
  {
    GridsEqual(LabelsBefore(board, rows, cols, i, cols), LabelsBefore(board, rows, cols, i + 1, 0), rows, cols);
  }

  lemma LabelsBeforeStart(board: seq<seq<CellInfo>>, rows: nat, cols: nat)
    requires IsGrid(board, rows, cols)
    ensures LabelsBefore(board, rows, cols, 0, 0) == Filled(rows, cols, -1)
  {
    GridsEqual(LabelsBefore(board, rows, cols, 0, 0), Filled(rows, cols, -1), rows, cols);
  }

  /** With every cell closed there is no boundary. */
  lemma NoneOpened(h: nat, w: nat, p: Pos)
    ensures !IsBoundaryCell(Filled(h, w, -1), h, w, p)
  {
    var g := Filled(h, w, -1);
    forall k | 0 <= k < 8
      ensures !RevealedAt(g, h, w, Nb(p, k))
    {
    }
  }

  /** A cache that never holds `Some(false)`. */
  predicate OnlyMinesCached(cache: seq<seq<Option<bool>>>, h: int, w: int)
    requires IsGrid(cache, h, w)
  {
    forall r, c :: 0 <= r < h && 0 <= c < w ==> cache[r][c] != Some(false)
  }

  /** The map after the opened cells before (i, j) were labelled: its boundary recalculated, only mines cached. */
  ghost predicate LabelledBefore(lm: LabelMap, board: seq<seq<CellInfo>>, rows: nat, cols: nat, i: int, j: int)
    reads lm
    requires IsGrid(board, rows, cols)
  {
    lm.Valid() && lm.height == rows && lm.width == cols && lm.labels == LabelsBefore(board, rows, cols, i, j) &&
    (forall p :: p in lm.boundary <==> IsBoundaryCell(lm.labels, rows, cols, p)) &&
    OnlyMinesCached(lm.cache, rows, cols)
  }

  /** The body of CalculateSafeCells' column loop: an opened cell gets its number. */
  method LabelCell(lm: LabelMap, board: seq<seq<CellInfo>>, rows: nat, cols: nat, i: int, j: int)
    requires IsGrid(board, rows, cols) && 0 <= i < rows && 0 <= j < cols && LabelledBefore(lm, board, rows, cols, i, j)
    modifies lm
    ensures LabelledBefore(lm, board, rows, cols, i, j + 1)
  {
    LabelsBeforeStep(board, rows, cols, i, j);
    if board[i][j].isRevealed {
      lm.SetLabel(i, j, board[i][j].neighborMines);
    }
  }

  /** The SetLabel loop of CalculateSafeCells over row `i`. */
  method LabelRow(lm: LabelMap, board: seq<seq<CellInfo>>, rows: nat, cols: nat, i: int)
    requires IsGrid(board, rows, cols) && 0 <= i < rows && LabelledBefore(lm, board, rows, cols, i, 0)
    modifies lm
    ensures LabelledBefore(lm, board, rows, cols, i + 1, 0)
  {
    var j := 0;
    while j < cols
      invariant 0 <= j <= cols && LabelledBefore(lm, board, rows, cols, i, j)
    {
      LabelCell(lm, board, rows, cols, i, j);
      j := j + 1;
    }
    LabelsBeforeRow(board, rows, cols, i);
  }

  /** The SetLabel loops of CalculateSafeCells: one label per opened cell. */
  method LabelOpened(board: seq<seq<CellInfo>>, rows: nat, cols: nat) returns (lm: LabelMap)
    requires IsGrid(board, rows, cols)
    ensures fresh(lm) && lm.Valid() && lm.height == rows && lm.width == cols
    ensures lm.labels == OpenedLabels(board, rows, cols)
    ensures forall p :: p in lm.boundary <==> IsBoundaryCell(lm.labels, rows, cols, p)
    ensures OnlyMinesCached(lm.cache, rows, cols)
  {
    lm := new LabelMap(cols, rows);
    LabelsBeforeStart(board, rows, cols);
    forall p | true
      ensures !IsBoundaryCell(lm.labels, rows, cols, p)
    {
      NoneOpened(rows, cols, p);
    }
    var i := 0;
    while i < rows
      invariant 0 <= i <= rows && fresh(lm) && LabelledBefore(lm, board, rows, cols, i, 0)
    {
      LabelRow(lm, board, rows, cols, i);
      i := i + 1;
    }
  }

  /** A flag that lets a cell be a mine: a cached mine, or a placement meeting every number puts one there. */
  lemma DangerMeans(clauses: seq<seq<int>>, numVars: int, ls: seq<int>, mss: seq<seq<int>>, cache: seq<Option<bool>>,
                    ins: seq<LabelInput>,
                    safe: seq<bool>, danger: seq<bool>, n: int, k: int)
    requires Recorded(ls, mss, cache, ins) && StartsFrom(clauses, ls, mss, cache)
    requires |cache| <= numVars && InputsBelow(ins, |cache|)
    requires FlagsSound(clauses, numVars, cache, safe, danger, n)
    requires 0 <= k < |cache| && danger[k]
    ensures cache[k] == Some(true) || Witnessed(cache, ins, k, true)
  {
    assert FlagOk(clauses, numVars, cache[k], safe[k], danger[k], k, k < n);
    if cache[k].None? {
      FlagWitnessed(clauses, numVars, ls, mss, cache, ins, k, true);
    }
  }

  /** The boundary cells whose danger flag is down, in boundary order. */
  function SafeFilter(boundary: seq<Pos>, danger: seq<bool>): seq<Pos>
    requires |danger| == |boundary|
  {
    if |boundary| == 0 then []
    else
      var n := |boundary| - 1;
      SafeFilter(boundary[..n], danger[..n]) + (if danger[n] then [] else [boundary[n]])
  }

  /** Over distinct boundary cells, a cell is kept exactly when its danger flag is down. */
  lemma {:induction false} SafeFilterKeeps(boundary: seq<Pos>, danger: seq<bool>)
    requires |danger| == |boundary|
    requires forall a, b :: 0 <= a < b < |boundary| ==> boundary[a] != boundary[b]
    ensures forall p :: p in SafeFilter(boundary, danger) ==> p in boundary
    ensures forall k :: 0 <= k < |boundary| ==> (boundary[k] in SafeFilter(boundary, danger) <==> !danger[k])
  {
    if |boundary| > 0 {
      var n := |boundary| - 1;
      SafeFilterKeeps(boundary[..n], danger[..n]);
      forall k | 0 <= k < |boundary|
        ensures boundary[k] in SafeFilter(boundary, danger) <==> !danger[k]
      {
        if k < n {
          assert boundary[..n][k] == boundary[k];
        } else {
          assert boundary[n] !in boundary[..n];
        }
      }
    }
  }

  /** The collecting loop of CalculateSafeCells: the boundary cells the solver never found a mine for, in order. */
  method CollectSafe(s: Solver, boundary: seq<Pos>) returns (safeCells: seq<Pos>)
    requires |s.canBeDangerous| == s.numMines == |boundary|
    requires forall a, b :: 0 <= a < b < |boundary| ==> boundary[a] != boundary[b]
    ensures safeCells == SafeFilter(boundary, s.canBeDangerous)
    ensures forall p :: p in safeCells ==> p in boundary
    ensures forall a, b :: 0 <= a < b < |safeCells| ==> safeCells[a] != safeCells[b]
    ensures forall k :: 0 <= k < |boundary| ==> (boundary[k] in safeCells <==> !s.canBeDangerous[k])
  {
    safeCells := [];
    var i := 0;
    while i < |boundary|
      invariant 0 <= i <= |boundary|
      invariant safeCells == SafeFilter(boundary[..i], s.canBeDangerous[..i])
      invariant forall p :: p in safeCells ==> p in boundary[..i]
      invariant forall a, b :: 0 <= a < b < |safeCells| ==> safeCells[a] != safeCells[b]
    {
      assert boundary[..i+1][..i] == boundary[..i];
      assert s.canBeDangerous[..i+1][..i] == s.canBeDangerous[..i];
      if !s.CanBeDangerous(i) {
        assert boundary[i] !in boundary[..i];
        safeCells := safeCells + [boundary[i]];
      }
      i := i + 1;
    }
    assert boundary[..i] == boundary;
    assert s.canBeDangerous[..i] == s.canBeDangerous;
    SafeFilterKeeps(boundary, s.canBeDangerous);
  }

  /** Indexed boundaries hold each cell once. */
  lemma IndexedDistinct(boundary: seq<Pos>, grid: seq<seq<int>>, h: int, w: int)
    requires Indexed(boundary, grid, h, w)
    ensures forall a, b :: 0 <= a < b < |boundary| ==> boundary[a] != boundary[b]
  {
  }

  /** Every cell flagged dangerous is a cached mine or witnessed as a mine. */
  lemma AllDangerMean(clauses: seq<seq<int>>, numVars: int, ls: seq<int>, mss: seq<seq<int>>, cache: seq<Option<bool>>,
                      ins: seq<LabelInput>,
                      safe: seq<bool>, danger: seq<bool>, n: int, boundary: seq<Pos>, safeCells: seq<Pos>)
    requires Recorded(ls, mss, cache, ins) && StartsFrom(clauses, ls, mss, cache)
    requires |cache| <= numVars && InputsBelow(ins, |cache|)
    requires FlagsSound(clauses, numVars, cache, safe, danger, n) && |boundary| == |cache|
    requires forall k :: 0 <= k < |boundary| && boundary[k] !in safeCells ==> danger[k]
    ensures forall k :: 0 <= k < |boundary| && boundary[k] !in safeCells ==> cache[k] == Some(true) || Witnessed(cache, ins, k, true)
  {
    forall k | 0 <= k < |boundary| && boundary[k] !in safeCells
      ensures cache[k] == Some(true) || Witnessed(cache, ins, k, true)
    {
      DangerMeans(clauses, numVars, ls, mss, cache, ins, safe, danger, n, k);
    }
  }

  /** The map's cache read at the boundary holds no `Some(false)`. */
  lemma BoundaryCacheMines(cache: seq<seq<Option<bool>>>, boundary: seq<Pos>, h: int, w: int)
    requires IsGrid(cache, h, w) && OnlyMinesCached(cache, h, w) && forall k :: 0 <= k < |boundary| ==> InGrid(boundary[k], h, w)
    ensures forall k :: 0 <= k < |boundary| ==> BoundaryCache(cache, boundary, h, w)[k] != Some(false)
  {
  }

  /**
   * `CalculateSafeCells(board, rows, cols, mines)`: labels the opened cells,
   * runs the solver and returns the boundary cells it never found a mine
   * for, each once and in boundary order: a boundary cell is returned
   * exactly when its danger flag is down. Every boundary cell left out
   * (every flagged one) is a cached mine or a
   * mine in some placement that agrees with the cache and meets every
   * opened number.
   */
  method CalculateSafeCells(board: seq<seq<CellInfo>>, rows: nat, cols: nat, mines: int)
    returns (safeCells: seq<Pos>, ghost boundary: seq<Pos>, ghost grid: seq<seq<int>>, ghost cache: seq<Option<bool>>,
             ghost danger: seq<bool>)
    requires IsGrid(board, rows, cols)
    ensures Indexed(boundary, grid, rows, cols)
    ensures |danger| == |boundary| && safeCells == SafeFilter(boundary, danger)
    ensures forall k :: 0 <= k < |boundary| ==> (boundary[k] in safeCells <==> !danger[k])
    ensures forall p :: p in boundary <==> IsBoundaryCell(OpenedLabels(board, rows, cols), rows, cols, p)
    ensures forall p :: p in safeCells ==> p in boundary
    ensures forall a, b :: 0 <= a < b < |safeCells| ==> safeCells[a] != safeCells[b]
    ensures |cache| == |boundary| && forall k :: 0 <= k < |cache| ==> cache[k] != Some(false)
    ensures forall k :: 0 <= k < |boundary| && danger[k] ==>
              cache[k] == Some(true) || Witnessed(cache, LabelInputs(OpenedLabels(board, rows, cols), grid, rows, cols, rows), k, true)
    ensures forall k :: 0 <= k < |boundary| && boundary[k] !in safeCells ==>
              cache[k] == Some(true) || Witnessed(cache, LabelInputs(OpenedLabels(board, rows, cols), grid, rows, cols, rows), k, true)
  {
    var lm := LabelOpened(board, rows, cols);
    boundary, grid := lm.boundary, lm.boundaryGrid;
    BoundaryCacheMines(lm.cache, lm.boundary, rows, cols);
    cache := BoundaryCache(lm.cache, lm.boundary, rows, cols);
    ghost var ins := LabelInputs(lm.labels, lm.boundaryGrid, rows, cols, rows);
    var solver := MakeSolver(lm, mines);
    IndexedDistinct(boundary, grid, rows, cols);
    safeCells := CollectSafe(solver, lm.boundary);
    danger := solver.canBeDangerous;
    AllDangerMean(solver.sat.clauses, solver.sat.numVars, solver.labels, solver.labelToMine, cache, ins,
                  solver.canBeSafe, solver.canBeDangerous, solver.numMines,
                  boundary, safeCells);
    forall k | 0 <= k < |boundary| && danger[k]
      ensures cache[k] == Some(true) || Witnessed(cache, ins, k, true)
    {
      assert boundary[k] !in safeCells;
    }
  }
}

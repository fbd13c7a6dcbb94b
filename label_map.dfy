/**
 * The solver's view of the board (`LabelMap` in kaboom.go): a label per
 * cell (-1 for a closed cell, otherwise the number it shows), the boundary
 * (closed cells next to an opened one, in discovery order), each cell's
 * boundary index, and a cache of trivially decided cells.
 */
module LabelMaps {
  import opened Common
  import opened Grids

  predicate ClosedAt(labels: seq<seq<int>>, h: int, w: int, p: Pos)
    requires IsGrid(labels, h, w)
  {
    InGrid(p, h, w) && labels[p.row][p.col] == -1
  }

  predicate RevealedAt(labels: seq<seq<int>>, h: int, w: int, p: Pos)
    requires IsGrid(labels, h, w)
  {
    InGrid(p, h, w) && labels[p.row][p.col] != -1
  }

  /** A closed cell with an opened neighbour: what the boundary holds. */
  predicate IsBoundaryCell(labels: seq<seq<int>>, h: int, w: int, p: Pos)
    requires IsGrid(labels, h, w)
  {
    ClosedAt(labels, h, w, p) && exists k :: 0 <= k < 8 && RevealedAt(labels, h, w, Nb(p, k))
  }

  /** Number of the first `n` neighbours of `q` that are closed cells on the board. */
  function ClosedAround(labels: seq<seq<int>>, h: int, w: int, q: Pos, n: nat): (c: nat)
    requires IsGrid(labels, h, w) && n <= 8
    ensures c <= n
  {
    if n == 0 then 0 else ClosedAround(labels, h, w, q, n - 1) + (if ClosedAt(labels, h, w, Nb(q, n - 1)) then 1 else 0)
  }

  /** An opened cell whose number equals its count of closed neighbours: all of them are mines. */
  predicate Trivial(labels: seq<seq<int>>, h: int, w: int, q: Pos)
    requires IsGrid(labels, h, w)
  {
    RevealedAt(labels, h, w, q) && labels[q.row][q.col] == ClosedAround(labels, h, w, q, 8)
  }

  /** A closed cell next to such an opened cell. */
  predicate TrivialMine(labels: seq<seq<int>>, h: int, w: int, p: Pos)
    requires IsGrid(labels, h, w)
  {
    ClosedAt(labels, h, w, p) && exists k :: 0 <= k < 8 && Trivial(labels, h, w, Nb(p, k))
  }

  /** Each boundary entry records its own index in the grid, and the grid points only into the boundary. */
  predicate Indexed(boundary: seq<Pos>, grid: seq<seq<int>>, h: int, w: int) {
    IsGrid(grid, h, w) &&
    (forall k :: 0 <= k < |boundary| ==> InGrid(boundary[k], h, w) && grid[boundary[k].row][boundary[k].col] == k) &&
    (forall r, c :: 0 <= r < h && 0 <= c < w && grid[r][c] != -1 ==> 0 <= grid[r][c] < |boundary| && boundary[grid[r][c]] == Pos(r, c))
  }

  /** Every closed neighbour of the opened cell `q` has a boundary index. */
  predicate Covered(labels: seq<seq<int>>, grid: seq<seq<int>>, h: int, w: int, q: Pos)
    requires IsGrid(labels, h, w) && IsGrid(grid, h, w)
  {
    RevealedAt(labels, h, w, q) ==>
      forall k :: 0 <= k < 8 && ClosedAt(labels, h, w, Nb(q, k)) ==> grid[Nb(q, k).row][Nb(q, k).col] != -1
  }

  /** The cache only gains `true` entries, and only at cells some opened number forces to be mines. */
  predicate CacheGrows(labels: seq<seq<int>>, h: int, w: int, before: seq<seq<Option<bool>>>, after: seq<seq<Option<bool>>>)
    requires IsGrid(labels, h, w) && IsGrid(before, h, w) && IsGrid(after, h, w)
  {
    forall r, c :: 0 <= r < h && 0 <= c < w ==>
      after[r][c] == before[r][c] || (after[r][c] == Some(true) && TrivialMine(labels, h, w, Pos(r, c)))
  }

  /** `p` is a closed cell among the eight neighbours of `q`. */
  predicate ClosedNeighbor(labels: seq<seq<int>>, h: int, w: int, q: Pos, p: Pos)
    requires IsGrid(labels, h, w)
  {
    ClosedAt(labels, h, w, p) && exists k :: 0 <= k < 8 && Nb(q, k) == p
  }

  /** Some closed neighbour of `q` has no cached decision. */
  predicate SomeUncached(labels: seq<seq<int>>, h: int, w: int, cache: seq<seq<Option<bool>>>, q: Pos)
    requires IsGrid(labels, h, w) && IsGrid(cache, h, w)
  {
    exists k :: 0 <= k < 8 && ClosedAt(labels, h, w, Nb(q, k)) && cache[Nb(q, k).row][Nb(q, k).col].None?
  }

  /** If `q` is a trivially solved number, every closed neighbour of it has a cached decision. */
  predicate NeighborsDecided(labels: seq<seq<int>>, h: int, w: int, cache: seq<seq<Option<bool>>>, q: Pos)
    requires IsGrid(labels, h, w) && IsGrid(cache, h, w)
  {
    Trivial(labels, h, w, q) ==>
      forall k :: 0 <= k < 8 && ClosedAt(labels, h, w, Nb(q, k)) ==> cache[Nb(q, k).row][Nb(q, k).col].Some?
  }

  /** Grid entries already set keep their value. */
  predicate GridKeeps(before: seq<seq<int>>, after: seq<seq<int>>, h: int, w: int)
    requires IsGrid(before, h, w) && IsGrid(after, h, w)
  {
    forall r, c :: 0 <= r < h && 0 <= c < w && before[r][c] != -1 ==> after[r][c] == before[r][c]
  }

  /** Opened cells in row `row` before column `j`. */
  function RowRevealed(row: seq<int>, j: nat): nat
    requires j <= |row|
  {
    if j == 0 then 0 else RowRevealed(row, j - 1) + (if row[j - 1] != -1 then 1 else 0)
  }

  /** Opened cells in the first `i` rows. */
  function RowsRevealed(labels: seq<seq<int>>, w: nat, i: nat): nat
    requires i <= |labels| && forall r :: 0 <= r < |labels| ==> |labels[r]| == w
  {
    if i == 0 then 0 else RowsRevealed(labels, w, i - 1) + RowRevealed(labels[i - 1], w)
  }

  /** `q` comes before cell (i, j) in row-major order. */
  predicate Before(q: Pos, i: int, j: int) {
    q.row < i || (q.row == i && q.col < j)
  }

  class LabelMap {
    var width: int
    var height: int
    var labels: seq<seq<int>>
    var boundary: seq<Pos>
    var boundaryGrid: seq<seq<int>>
    var cache: seq<seq<Option<bool>>>
    var numOutside: int

    ghost predicate Valid()
      reads this
    {
      0 <= width && 0 <= height &&
      IsGrid(labels, height, width) && IsGrid(cache, height, width) &&
      Indexed(boundary, boundaryGrid, height, width)
    }

    /** What `recalc` establishes: the boundary is exactly the closed cells next to opened ones. */
    ghost predicate Recalculated()
      reads this
      requires Valid()
    {
      (forall p :: p in boundary <==> IsBoundaryCell(labels, height, width, p)) &&
      numOutside == width * height - RowsRevealed(labels, width, height) - |boundary|
    }

    /** `NewLabelMap(width, height)`: every cell closed, no boundary, nothing cached. */
    constructor (width: nat, height: nat)
      ensures Valid() && this.width == width && this.height == height
      ensures labels == Filled(height, width, -1) && boundaryGrid == Filled(height, width, -1)
      ensures cache == Filled(height, width, None) && boundary == [] && numOutside == 0
    {
      this.width := width;
      this.height := height;
      labels := Filled(height, width, -1);
      boundary := [];
      boundaryGrid := Filled(height, width, -1);
      cache := Filled(height, width, None);
      numOutside := 0;
    }

    /** `SetLabel(row, col, label)`: out-of-range positions are ignored, otherwise the label is stored and the map recalculated. */
    method SetLabel(row: int, col: int, newLabel: int)
      requires Valid()
      modifies this
      ensures Valid() && width == old(width) && height == old(height)
      ensures !InGrid(Pos(row, col), height, width) ==>
                labels == old(labels) && boundary == old(boundary) && cache == old(cache) && numOutside == old(numOutside)
      ensures InGrid(Pos(row, col), height, width) ==>
                labels == Set(old(labels), Pos(row, col), newLabel) && Recalculated() &&
                CacheGrows(labels, height, width, old(cache), cache) &&
                forall q :: InGrid(q, height, width) ==> NeighborsDecided(labels, height, width, cache, q)
    {
      if row < 0 || row >= height || col < 0 || col >= width {
        return;
      }
      labels := Set(labels, Pos(row, col), newLabel);
      Recalc();
    }

    /** `GetLabel(row, col)`: -1 off the board. */
    function GetLabel(row: int, col: int): (r: int)
      reads this
      requires Valid()
      ensures InGrid(Pos(row, col), height, width) ==> r == labels[row][col]
      ensures !InGrid(Pos(row, col), height, width) ==> r == -1
    {
      if row < 0 || row >= height || col < 0 || col >= width then -1 else labels[row][col]
    }

    /** `SetCache(idx, val)`: records a decision for the boundary cell `idx`; other indices are ignored. */
    method SetCache(idx: int, val: bool)
      requires Valid()
      modifies this
      ensures Valid() && unchanged(`width, `height, `labels, `boundary, `boundaryGrid, `numOutside)
      ensures 0 <= idx < |boundary| ==> cache == Set(old(cache), boundary[idx], Some(val))
      ensures !(0 <= idx < |boundary|) ==> cache == old(cache)
    {
      if idx < 0 || idx >= |boundary| {
        return;
      }
      var pos := boundary[idx];
      cache := Set(cache, pos, Some(val));
    }

    /** `GetCache(idx)`: the decision for boundary cell `idx`, none for other indices. */
    function GetCache(idx: int): (r: Option<bool>)
      reads this
      requires Valid()
      ensures 0 <= idx < |boundary| ==> r == cache[boundary[idx].row][boundary[idx].col]
      ensures !(0 <= idx < |boundary|) ==> r == None
    {
      if idx < 0 || idx >= |boundary| then None else Get(cache, boundary[idx])
    }

    /** `ResetCache()`: forgets every decision. */
    method ResetCache()
      requires Valid()
      modifies this
      ensures Valid() && unchanged(`width, `height, `labels, `boundary, `boundaryGrid, `numOutside)
      ensures cache == Filled(height, width, None)
    {
      var i := 0;
      while i < height
        invariant 0 <= i <= height && Valid() && unchanged(`width, `height, `labels, `boundary, `boundaryGrid, `numOutside)
        invariant cache[..i] == Filled(height, width, None)[..i]
      {
        var j := 0;
        while j < width
          invariant 0 <= j <= width && Valid() && unchanged(`width, `height, `labels, `boundary, `boundaryGrid, `numOutside)
          invariant cache[..i] == Filled(height, width, None)[..i]
          invariant cache[i][..j] == seq(j, _ => None)
        {
          cache := Set(cache, Pos(i, j), None);
          j := j + 1;
        }
        assert cache[i] == Filled(height, width, None)[i];
        i := i + 1;
      }
    }

    /** `GetBoundaryIndex(row, col)`: the cell's boundary index, -1 off the board or off the boundary. */
    function GetBoundaryIndex(row: int, col: int): (r: int)
      reads this
      requires Valid()
      ensures r == -1 || (0 <= r < |boundary| && boundary[r] == Pos(row, col))
      ensures 0 <= r ==> InGrid(Pos(row, col), height, width)
      ensures InGrid(Pos(row, col), height, width) && Pos(row, col) in boundary ==> r != -1
    {
      if row < 0 || row >= height || col < 0 || col >= width then -1 else boundaryGrid[row][col]
    }

    /** `recalc()`: rebuilds the boundary from the labels, caches trivial mines and counts the cells outside. */
    method Recalc()
      requires Valid()
      modifies this
      ensures Valid() && width == old(width) && height == old(height) && labels == old(labels)
      ensures Recalculated()
      ensures CacheGrows(labels, height, width, old(cache), cache)
      ensures forall q :: InGrid(q, height, width) ==> NeighborsDecided(labels, height, width, cache, q)
    {
      var b, grid, c, revealedSquares := RecalcAll(labels, height, width, cache);
      boundary, boundaryGrid, cache := b, grid, c;
      numOutside := width * height - revealedSquares - |boundary|;
    }
  }

  /** The two `for i` / `for j` loops of recalc, over the labels, the previous cache and a cleared grid. */
  method RecalcAll(labels: seq<seq<int>>, h: nat, w: nat, cache: seq<seq<Option<bool>>>)
    returns (boundary: seq<Pos>, grid: seq<seq<int>>, cache': seq<seq<Option<bool>>>, revealedSquares: nat)
    requires IsGrid(labels, h, w) && IsGrid(cache, h, w)
    ensures Sound(labels, h, w, boundary, grid) && IsGrid(cache', h, w)
    ensures forall p :: p in boundary <==> IsBoundaryCell(labels, h, w, p)
    ensures revealedSquares == RowsRevealed(labels, w, h)
    ensures CacheGrows(labels, h, w, cache, cache')
    ensures forall q :: InGrid(q, h, w) ==> NeighborsDecided(labels, h, w, cache', q)
  {
    boundary, grid, cache' := [], Filled(h, w, -1), cache;
    revealedSquares := 0;
    var i := 0;
    while i < h
      invariant 0 <= i <= h
      invariant Sound(labels, h, w, boundary, grid) && IsGrid(cache', h, w)
      invariant forall q :: Before(q, i, 0) && InGrid(q, h, w) ==> Covered(labels, grid, h, w, q)
      invariant revealedSquares == RowsRevealed(labels, w, i)
      invariant CacheGrows(labels, h, w, cache, cache')
      invariant forall q :: Before(q, i, 0) && InGrid(q, h, w) ==> NeighborsDecided(labels, h, w, cache', q)
    {
      boundary, grid, cache', revealedSquares := RecalcRow(labels, h, w, i, boundary, grid, cache', revealedSquares);
      i := i + 1;
    }
    BoundaryComplete(labels, h, w, boundary, grid);
    assert forall q :: InGrid(q, h, w) ==> Before(q, h, 0);
  }

  /** The boundary is indexed by the grid and holds only closed cells next to opened ones. */
  predicate Sound(labels: seq<seq<int>>, h: int, w: int, boundary: seq<Pos>, grid: seq<seq<int>>) {
    IsGrid(labels, h, w) && Indexed(boundary, grid, h, w) &&
    forall k :: 0 <= k < |boundary| ==> IsBoundaryCell(labels, h, w, boundary[k])
  }

  /** Once every opened cell is covered, every boundary cell is in the boundary. */
  lemma BoundaryComplete(labels: seq<seq<int>>, h: int, w: int, boundary: seq<Pos>, grid: seq<seq<int>>)
    requires Sound(labels, h, w, boundary, grid)
    requires forall q :: Before(q, h, 0) && InGrid(q, h, w) ==> Covered(labels, grid, h, w, q)
    ensures forall p :: p in boundary <==> IsBoundaryCell(labels, h, w, p)
  {
    forall p | IsBoundaryCell(labels, h, w, p)
      ensures p in boundary
    {
      var k :| 0 <= k < 8 && RevealedAt(labels, h, w, Nb(p, k));
      NbSymmetric(p, k);
      assert Covered(labels, grid, h, w, Nb(p, k));
      assert ClosedAt(labels, h, w, Nb(Nb(p, k), 7 - k));
    }
  }

  /** One pass of the `for j` loop of recalc over row `i`. */
  method RecalcRow(labels: seq<seq<int>>, h: int, w: int, i: int, boundary: seq<Pos>, grid: seq<seq<int>>,
                   cache: seq<seq<Option<bool>>>, revealedBefore: nat)
    returns (boundary': seq<Pos>, grid': seq<seq<int>>, cache': seq<seq<Option<bool>>>, revealedSquares: nat)
    requires 0 <= i < h && 0 <= w
    requires Sound(labels, h, w, boundary, grid) && IsGrid(cache, h, w)
    requires forall q :: Before(q, i, 0) && InGrid(q, h, w) ==> Covered(labels, grid, h, w, q)
    requires revealedBefore == RowsRevealed(labels, w, i)
    requires forall q :: Before(q, i, 0) && InGrid(q, h, w) ==> NeighborsDecided(labels, h, w, cache, q)
    ensures Sound(labels, h, w, boundary', grid') && IsGrid(cache', h, w)
    ensures forall q :: Before(q, i + 1, 0) && InGrid(q, h, w) ==> Covered(labels, grid', h, w, q)
    ensures revealedSquares == RowsRevealed(labels, w, i + 1)
    ensures CacheGrows(labels, h, w, cache, cache')
    ensures forall q :: Before(q, i + 1, 0) && InGrid(q, h, w) ==> NeighborsDecided(labels, h, w, cache', q)
  {
    boundary', grid', cache', revealedSquares := boundary, grid, cache, revealedBefore;
    var j := 0;
    while j < w
      invariant 0 <= j <= w
      invariant Sound(labels, h, w, boundary', grid') && IsGrid(cache', h, w)
      invariant forall q :: Before(q, i, j) && InGrid(q, h, w) ==> Covered(labels, grid', h, w, q)
      invariant revealedSquares == RowsRevealed(labels, w, i) + RowRevealed(labels[i], j)
      invariant CacheGrows(labels, h, w, cache, cache')
      invariant forall q :: Before(q, i, j) && InGrid(q, h, w) ==> NeighborsDecided(labels, h, w, cache', q)
    {
      boundary', grid', cache', revealedSquares := RecalcCell(labels, h, w, i, j, boundary', grid', cache, cache', revealedSquares);
      j := j + 1;
    }
  }

  /** One iteration of the `for j` loop: cell (i, j). */
  method RecalcCell(labels: seq<seq<int>>, h: int, w: int, i: int, j: int, boundary: seq<Pos>, grid: seq<seq<int>>,
                    ghost cache0: seq<seq<Option<bool>>>, cache: seq<seq<Option<bool>>>, revealed: nat)
    returns (boundary': seq<Pos>, grid': seq<seq<int>>, cache': seq<seq<Option<bool>>>, revealed': nat)
    requires 0 <= i < h && 0 <= j < w
    requires Sound(labels, h, w, boundary, grid) && IsGrid(cache, h, w) && IsGrid(cache0, h, w)
    requires forall q :: Before(q, i, j) && InGrid(q, h, w) ==> Covered(labels, grid, h, w, q)
    requires revealed == RowsRevealed(labels, w, i) + RowRevealed(labels[i], j)
    requires CacheGrows(labels, h, w, cache0, cache)
    requires forall q :: Before(q, i, j) && InGrid(q, h, w) ==> NeighborsDecided(labels, h, w, cache, q)
    ensures Sound(labels, h, w, boundary', grid') && IsGrid(cache', h, w)
    ensures forall q :: Before(q, i, j + 1) && InGrid(q, h, w) ==> Covered(labels, grid', h, w, q)
    ensures revealed' == RowsRevealed(labels, w, i) + RowRevealed(labels[i], j + 1)
    ensures CacheGrows(labels, h, w, cache0, cache')
    ensures forall q :: Before(q, i, j + 1) && InGrid(q, h, w) ==> NeighborsDecided(labels, h, w, cache', q)
  {
    if labels[i][j] != -1 {
      revealed' := revealed + 1;
      var c;
      boundary', grid', c := ScanCell(labels, h, w, Pos(i, j), boundary, grid, cache);
      CoveredKept(labels, h, w, grid, grid', i, j);
      CacheGrowsTrans(labels, h, w, cache0, cache, c);
      DecidedKept(labels, h, w, cache, c, i, j);
      cache' := c;
    } else {
      boundary', grid', cache', revealed' := boundary, grid, cache, revealed;
      assert !RevealedAt(labels, h, w, Pos(i, j));
    }
    CoveredNext(labels, h, w, grid', i, j);
    DecidedNext(labels, h, w, cache', i, j);
  }

  /** The cache only gains decisions, so cells already decided stay decided. */
  lemma DecidedKept(labels: seq<seq<int>>, h: int, w: int, before: seq<seq<Option<bool>>>, after: seq<seq<Option<bool>>>, i: int, j: int)
    requires IsGrid(labels, h, w) && IsGrid(before, h, w) && IsGrid(after, h, w)
    requires CacheGrows(labels, h, w, before, after)
    requires forall q :: Before(q, i, j) && InGrid(q, h, w) ==> NeighborsDecided(labels, h, w, before, q)
    ensures forall q :: Before(q, i, j) && InGrid(q, h, w) ==> NeighborsDecided(labels, h, w, after, q)
  {
  }

  lemma DecidedNext(labels: seq<seq<int>>, h: int, w: int, cache: seq<seq<Option<bool>>>, i: int, j: int)
    requires IsGrid(labels, h, w) && IsGrid(cache, h, w)
    requires forall q :: Before(q, i, j) && InGrid(q, h, w) ==> NeighborsDecided(labels, h, w, cache, q)
    requires NeighborsDecided(labels, h, w, cache, Pos(i, j))
    ensures forall q :: Before(q, i, j + 1) && InGrid(q, h, w) ==> NeighborsDecided(labels, h, w, cache, q)
  {
    forall q | Before(q, i, j + 1) && InGrid(q, h, w)
      ensures NeighborsDecided(labels, h, w, cache, q)
    {
      if !Before(q, i, j) {
        assert q == Pos(i, j);
      }
    }
  }

  lemma CacheGrowsTrans(labels: seq<seq<int>>, h: int, w: int, a: seq<seq<Option<bool>>>, b: seq<seq<Option<bool>>>, c: seq<seq<Option<bool>>>)
    requires IsGrid(labels, h, w) && IsGrid(a, h, w) && IsGrid(b, h, w) && IsGrid(c, h, w)
    requires CacheGrows(labels, h, w, a, b) && CacheGrows(labels, h, w, b, c)
    ensures CacheGrows(labels, h, w, a, c)
  {
  }

  lemma CoveredNext(labels: seq<seq<int>>, h: int, w: int, grid: seq<seq<int>>, i: int, j: int)
    requires IsGrid(labels, h, w) && IsGrid(grid, h, w)
    requires forall q :: Before(q, i, j) && InGrid(q, h, w) ==> Covered(labels, grid, h, w, q)
    requires Covered(labels, grid, h, w, Pos(i, j))
    ensures forall q :: Before(q, i, j + 1) && InGrid(q, h, w) ==> Covered(labels, grid, h, w, q)
  {
    forall q | Before(q, i, j + 1) && InGrid(q, h, w)
      ensures Covered(labels, grid, h, w, q)
    {
      if !Before(q, i, j) {
        assert q == Pos(i, j);
      }
    }
  }

  lemma CoveredKept(labels: seq<seq<int>>, h: int, w: int, before: seq<seq<int>>, after: seq<seq<int>>, i: int, j: int)
    requires IsGrid(labels, h, w) && IsGrid(before, h, w) && IsGrid(after, h, w)
    requires GridKeeps(before, after, h, w)
    requires forall q :: Before(q, i, j) && InGrid(q, h, w) ==> Covered(labels, before, h, w, q)
    ensures forall q :: Before(q, i, j) && InGrid(q, h, w) ==> Covered(labels, after, h, w, q)
  {
  }

  /**
   * The body of recalc for an opened cell `q`: gives every closed
   * neighbour a boundary index, and when the number equals the count of
   * closed neighbours (and one of them is new or uncached) caches them
   * all as mines with `SetCache(id, true)`.
   */
  method ScanCell(labels: seq<seq<int>>, h: int, w: int, q: Pos, boundary: seq<Pos>, grid: seq<seq<int>>,
                  cache: seq<seq<Option<bool>>>)
    returns (boundary': seq<Pos>, grid': seq<seq<int>>, cache': seq<seq<Option<bool>>>)
    requires Sound(labels, h, w, boundary, grid) && IsGrid(cache, h, w) && RevealedAt(labels, h, w, q)
    ensures Sound(labels, h, w, boundary', grid') && IsGrid(cache', h, w)
    ensures GridKeeps(grid, grid', h, w)
    ensures Covered(labels, grid', h, w, q)
    ensures CacheGrows(labels, h, w, cache, cache')
    ensures forall p :: InGrid(p, h, w) ==>
              (cache'[p.row][p.col] ==
                 if Trivial(labels, h, w, q) && (|boundary'| > |boundary| || SomeUncached(labels, h, w, cache, q))
                    && ClosedNeighbor(labels, h, w, q, p)
                 then Some(true) else cache[p.row][p.col])
    ensures NeighborsDecided(labels, h, w, cache', q)
  {
    var neighboringBoundary: seq<int>, hasUncached;
    ghost var offsets: seq<nat>;
    neighboringBoundary, offsets, hasUncached, boundary', grid' := CollectNeighbors(labels, h, w, q, boundary, grid, cache);
    cache' := cache;
    if |neighboringBoundary| == labels[q.row][q.col] && hasUncached {
      assert Trivial(labels, h, w, q);
      ghost var done;
      cache', done := CacheTrivialMines(h, w, boundary', neighboringBoundary, cache);
      MarkedAreClosedNeighbors(labels, h, w, q, boundary', neighboringBoundary, offsets, done);
      MarkedNeighborsGrow(labels, h, w, q, cache, cache');
    }
    if Trivial(labels, h, w, q) && !hasUncached {
      forall k | 0 <= k < 8 && ClosedAt(labels, h, w, Nb(q, k))
        ensures cache'[Nb(q, k).row][Nb(q, k).col].Some?
      {
        assert !SomeUncached(labels, h, w, cache, q);
      }
    }
  }

  /** The `for _, trivialMineId := range neighboringBoundary { lm.SetCache(trivialMineId, true) }` loop. */
  method CacheTrivialMines(h: int, w: int, boundary: seq<Pos>, ids: seq<int>, cache: seq<seq<Option<bool>>>)
    returns (cache': seq<seq<Option<bool>>>, ghost done: seq<Pos>)
    requires IsGrid(cache, h, w)
    requires forall t :: 0 <= t < |ids| ==> 0 <= ids[t] < |boundary| && InGrid(boundary[ids[t]], h, w)
    ensures IsGrid(cache', h, w)
    ensures |done| == |ids| && forall s :: 0 <= s < |ids| ==> done[s] == boundary[ids[s]]
    ensures forall p :: InGrid(p, h, w) ==> cache'[p.row][p.col] == if p in done then Some(true) else cache[p.row][p.col]
  {
    cache', done := cache, [];
    var t := 0;
    while t < |ids|
      invariant 0 <= t <= |ids| && IsGrid(cache', h, w)
      invariant forall p :: InGrid(p, h, w) ==> cache'[p.row][p.col] == if p in done then Some(true) else cache[p.row][p.col]
      invariant |done| == t && forall s :: 0 <= s < t ==> done[s] == boundary[ids[s]]
    {
      var p := boundary[ids[t]];
      MarkedSet(cache, cache', done, p, h, w);
      cache' := Set(cache', p, Some(true));
      done := done + [p];
      t := t + 1;
    }
  }

  /** The cells the loop marks are exactly the closed neighbours of `q`. */
  lemma MarkedAreClosedNeighbors(labels: seq<seq<int>>, h: int, w: int, q: Pos, boundary: seq<Pos>,
                                 ids: seq<int>, offsets: seq<nat>, done: seq<Pos>)
    requires IsGrid(labels, h, w) && |offsets| == |ids| == |done|
    requires forall t :: 0 <= t < |ids| ==> offsets[t] < 8 && 0 <= ids[t] < |boundary| && boundary[ids[t]] == Nb(q, offsets[t])
    requires forall t :: 0 <= t < |ids| ==> ClosedAt(labels, h, w, boundary[ids[t]])
    requires forall k :: 0 <= k < 8 && ClosedAt(labels, h, w, Nb(q, k)) ==> exists t :: 0 <= t < |offsets| && offsets[t] == k
    requires forall s :: 0 <= s < |done| ==> done[s] == boundary[ids[s]]
    ensures forall p :: p in done <==> ClosedNeighbor(labels, h, w, q, p)
  {
    forall p | p in done
      ensures ClosedNeighbor(labels, h, w, q, p)
    {
      var s :| 0 <= s < |done| && done[s] == p;
      assert Nb(q, offsets[s]) == p;
    }
    forall p | ClosedNeighbor(labels, h, w, q, p)
      ensures p in done
    {
      var k :| 0 <= k < 8 && Nb(q, k) == p;
      var s :| 0 <= s < |offsets| && offsets[s] == k;
      assert done[s] == p;
    }
  }

  /** Caching the closed neighbours of a trivially solved number as mines only adds forced mines. */
  lemma MarkedNeighborsGrow(labels: seq<seq<int>>, h: int, w: int, q: Pos, cache: seq<seq<Option<bool>>>, cache': seq<seq<Option<bool>>>)
    requires IsGrid(labels, h, w) && IsGrid(cache, h, w) && IsGrid(cache', h, w) && Trivial(labels, h, w, q)
    requires forall p :: InGrid(p, h, w) ==>
               cache'[p.row][p.col] == if ClosedNeighbor(labels, h, w, q, p) then Some(true) else cache[p.row][p.col]
    ensures CacheGrows(labels, h, w, cache, cache')
  {
    forall r, c | 0 <= r < h && 0 <= c < w
      ensures cache'[r][c] == cache[r][c] || (cache'[r][c] == Some(true) && TrivialMine(labels, h, w, Pos(r, c)))
    {
      if ClosedNeighbor(labels, h, w, q, Pos(r, c)) {
        var k :| 0 <= k < 8 && Nb(q, k) == Pos(r, c);
        TrivialNeighbor(labels, h, w, q, k);
      }
    }
  }

  /** Recording one more mine keeps the cache equal to the old one outside the recorded cells. */
  lemma MarkedSet(cache: seq<seq<Option<bool>>>, c: seq<seq<Option<bool>>>, done: seq<Pos>, p: Pos, h: int, w: int)
    requires IsGrid(cache, h, w) && IsGrid(c, h, w) && InGrid(p, h, w)
    requires forall x :: InGrid(x, h, w) ==> c[x.row][x.col] == if x in done then Some(true) else cache[x.row][x.col]
    ensures forall x :: InGrid(x, h, w) ==>
              Set(c, p, Some(true))[x.row][x.col] == if x in done + [p] then Some(true) else cache[x.row][x.col]
  {
  }

  /** Every closed neighbour of a trivially solved number is a trivial mine. */
  lemma TrivialNeighbor(labels: seq<seq<int>>, h: int, w: int, q: Pos, k: nat)
    requires IsGrid(labels, h, w) && k < 8 && Trivial(labels, h, w, q) && ClosedAt(labels, h, w, Nb(q, k))
    ensures TrivialMine(labels, h, w, Nb(q, k))
  {
    NbSymmetric(q, k);
    assert Trivial(labels, h, w, Nb(Nb(q, k), 7 - k));
  }

  /** After the first `n` neighbours of `q`: each closed one has an index, listed in `ids` at its offset. */
  predicate Collected(labels: seq<seq<int>>, h: int, w: int, q: Pos, n: nat, boundary: seq<Pos>, grid: seq<seq<int>>,
                      ids: seq<int>, offsets: seq<nat>)
    requires n <= 8 && IsGrid(labels, h, w) && IsGrid(grid, h, w)
  {
    (forall k :: 0 <= k < n && ClosedAt(labels, h, w, Nb(q, k)) ==> grid[Nb(q, k).row][Nb(q, k).col] != -1) &&
    |ids| == |offsets| == ClosedAround(labels, h, w, q, n) &&
    (forall t :: 0 <= t < |offsets| ==> offsets[t] < 8 && 0 <= ids[t] < |boundary| && boundary[ids[t]] == Nb(q, offsets[t])) &&
    (forall k :: 0 <= k < n && ClosedAt(labels, h, w, Nb(q, k)) ==> exists t :: 0 <= t < |offsets| && offsets[t] == k)
  }

  /** The `for di` / `for dj` loops of recalc for the opened cell `q`. */
  method CollectNeighbors(labels: seq<seq<int>>, h: int, w: int, q: Pos, boundary: seq<Pos>, grid: seq<seq<int>>,
                          cache: seq<seq<Option<bool>>>)
    returns (neighboringBoundary: seq<int>, ghost offsets: seq<nat>, hasUncached: bool, boundary': seq<Pos>, grid': seq<seq<int>>)
    requires Sound(labels, h, w, boundary, grid) && IsGrid(cache, h, w) && RevealedAt(labels, h, w, q)
    ensures Sound(labels, h, w, boundary', grid')
    ensures GridKeeps(grid, grid', h, w)
    ensures Collected(labels, h, w, q, 8, boundary', grid', neighboringBoundary, offsets)
    ensures |boundary| <= |boundary'|
    ensures hasUncached <==> |boundary'| > |boundary| || SomeUncached(labels, h, w, cache, q)
  {
    neighboringBoundary, offsets, hasUncached := [], [], false;
    boundary', grid' := boundary, grid;
    var n := 0;
    while n < 8
      invariant 0 <= n <= 8
      invariant Sound(labels, h, w, boundary', grid') && GridKeeps(grid, grid', h, w)
      invariant Collected(labels, h, w, q, n, boundary', grid', neighboringBoundary, offsets)
      invariant |boundary| <= |boundary'|
      invariant hasUncached <==>
                  (|boundary'| > |boundary| ||
                   exists k :: 0 <= k < n && ClosedAt(labels, h, w, Nb(q, k)) && cache[Nb(q, k).row][Nb(q, k).col].None?)
    {
      ghost var before := grid';
      neighboringBoundary, offsets, hasUncached, boundary', grid' :=
        CollectStep(labels, h, w, q, n, boundary', grid', cache, neighboringBoundary, offsets, hasUncached);
      GridKeepsTrans(grid, before, grid', h, w);
      n := n + 1;
    }
  }

  lemma GridKeepsTrans(a: seq<seq<int>>, b: seq<seq<int>>, c: seq<seq<int>>, h: int, w: int)
    requires IsGrid(a, h, w) && IsGrid(b, h, w) && IsGrid(c, h, w)
    requires GridKeeps(a, b, h, w) && GridKeeps(b, c, h, w)
    ensures GridKeeps(a, c, h, w)
  {
  }

  /** One iteration of the neighbour loops: neighbour `n` of `q`. */
  method CollectStep(labels: seq<seq<int>>, h: int, w: int, q: Pos, n: nat, boundary: seq<Pos>, grid: seq<seq<int>>,
                     cache: seq<seq<Option<bool>>>, ids: seq<int>, ghost offsets: seq<nat>, hasUncached: bool)
    returns (ids': seq<int>, ghost offsets': seq<nat>, hasUncached': bool, boundary': seq<Pos>, grid': seq<seq<int>>)
    requires n < 8 && Sound(labels, h, w, boundary, grid) && IsGrid(cache, h, w) && RevealedAt(labels, h, w, q)
    requires Collected(labels, h, w, q, n, boundary, grid, ids, offsets)
    ensures Sound(labels, h, w, boundary', grid') && GridKeeps(grid, grid', h, w)
    ensures Collected(labels, h, w, q, n + 1, boundary', grid', ids', offsets')
    ensures |boundary| <= |boundary'|
    ensures hasUncached' <==>
              (hasUncached || |boundary'| > |boundary| ||
               (ClosedAt(labels, h, w, Nb(q, n)) && cache[Nb(q, n).row][Nb(q, n).col].None?))
  {
    var id, appended;
    id, appended, boundary', grid' := ScanNeighbor(labels, h, w, q, n, boundary, grid);
    ids', offsets', hasUncached' := ids, offsets, hasUncached;
    if id >= 0 {
      if appended {
        hasUncached' := true;
      }
      ids' := ids + [id];
      offsets' := offsets + [n];
      var p := Nb(q, n);
      if cache[p.row][p.col] == None {
        hasUncached' := true;
      }
    }
    CollectedExtend(labels, h, w, q, n, boundary, grid, ids, offsets, boundary', grid', id);
  }

  lemma CollectedExtend(labels: seq<seq<int>>, h: int, w: int, q: Pos, n: nat, boundary: seq<Pos>, grid: seq<seq<int>>,
                        ids: seq<int>, offsets: seq<nat>, boundary': seq<Pos>, grid': seq<seq<int>>, id: int)
    requires n < 8 && IsGrid(labels, h, w) && IsGrid(grid, h, w) && IsGrid(grid', h, w)
    requires Collected(labels, h, w, q, n, boundary, grid, ids, offsets)
    requires |boundary| <= |boundary'| && boundary'[..|boundary|] == boundary && GridKeeps(grid, grid', h, w)
    requires ClosedAt(labels, h, w, Nb(q, n)) ==> 0 <= id < |boundary'| && boundary'[id] == Nb(q, n) && Get(grid', Nb(q, n)) == id
    requires !ClosedAt(labels, h, w, Nb(q, n)) ==> id == -1 && boundary' == boundary && grid' == grid
    ensures ClosedAt(labels, h, w, Nb(q, n)) ==> Collected(labels, h, w, q, n + 1, boundary', grid', ids + [id], offsets + [n])
    ensures !ClosedAt(labels, h, w, Nb(q, n)) ==> Collected(labels, h, w, q, n + 1, boundary', grid', ids, offsets)
  {
    if ClosedAt(labels, h, w, Nb(q, n)) {
      var ids', offsets' := ids + [id], offsets + [n];
      forall t | 0 <= t < |offsets'|
        ensures offsets'[t] < 8 && 0 <= ids'[t] < |boundary'| && boundary'[ids'[t]] == Nb(q, offsets'[t])
      {
        if t < |offsets| {
          assert boundary'[ids[t]] == boundary'[..|boundary|][ids[t]];
        }
      }
      forall k | 0 <= k < n + 1 && ClosedAt(labels, h, w, Nb(q, k))
        ensures exists t :: 0 <= t < |offsets'| && offsets'[t] == k
      {
        if k < n {
          var t :| 0 <= t < |offsets| && offsets[t] == k;
          assert offsets'[t] == k;
        } else {
          assert offsets'[|offsets|] == k;
        }
      }
    } else {
      forall k | 0 <= k < n + 1 && ClosedAt(labels, h, w, Nb(q, k))
        ensures exists t :: 0 <= t < |offsets| && offsets[t] == k
      {
        assert k < n;
      }
    }
  }

  /**
   * The innermost step of recalc: if the k-th neighbour of `q` is a closed
   * cell on the board it gets a boundary index (appended when new), which is
   * returned; otherwise -1.  `appended` tells whether it was new.
   */
  method ScanNeighbor(labels: seq<seq<int>>, h: int, w: int, q: Pos, k: nat, boundary: seq<Pos>, grid: seq<seq<int>>)
    returns (id: int, appended: bool, boundary': seq<Pos>, grid': seq<seq<int>>)
    requires Sound(labels, h, w, boundary, grid) && RevealedAt(labels, h, w, q) && k < 8
    ensures Sound(labels, h, w, boundary', grid') && GridKeeps(grid, grid', h, w)
    ensures |boundary| <= |boundary'| && boundary'[..|boundary|] == boundary
    ensures ClosedAt(labels, h, w, Nb(q, k)) ==>
              0 <= id < |boundary'| && boundary'[id] == Nb(q, k) && Get(grid', Nb(q, k)) == id
    ensures !ClosedAt(labels, h, w, Nb(q, k)) ==> id == -1 && boundary' == boundary && grid' == grid
    ensures appended <==> ClosedAt(labels, h, w, Nb(q, k)) && Get(grid, Nb(q, k)) == -1
    ensures appended ==> boundary' == boundary + [Nb(q, k)]
    ensures !appended ==> boundary' == boundary && grid' == grid
  {
    var p := Nb(q, k);
    if !(0 <= p.row < h && 0 <= p.col < w) || labels[p.row][p.col] != -1 {
      return -1, false, boundary, grid;
    }
    id := grid[p.row][p.col];
    appended := false;
    boundary', grid' := boundary, grid;
    if id == -1 {
      NbSymmetric(q, k);
      assert RevealedAt(labels, h, w, Nb(p, 7 - k));
      id := |boundary|;
      IndexedAppend(boundary, grid, h, w, p);
      grid' := Set(grid, p, id);
      boundary' := boundary + [p];
      appended := true;
    }
  }

  lemma IndexedAppend(boundary: seq<Pos>, grid: seq<seq<int>>, h: int, w: int, p: Pos)
    requires Indexed(boundary, grid, h, w) && InGrid(p, h, w) && grid[p.row][p.col] == -1
    ensures Indexed(boundary + [p], Set(grid, p, |boundary|), h, w)
    ensures GridKeeps(grid, Set(grid, p, |boundary|), h, w)
  {
    var b', g' := boundary + [p], Set(grid, p, |boundary|);
    forall k | 0 <= k < |b'|
      ensures InGrid(b'[k], h, w) && g'[b'[k].row][b'[k].col] == k
    {
      if k < |boundary| {
        assert b'[k] == boundary[k] && b'[k] != p;
      }
    }
  }
}

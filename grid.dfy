/**
 * Rectangular boards stored row by row (`[][]T` in Go), cell positions,
 * and the eight-cell neighbourhood every part of the game walks.
 */
module Grids {
  import opened Common

  /** `g` has `rows` rows of `cols` entries each. */
  predicate IsGrid<T>(g: seq<seq<T>>, rows: int, cols: int) {
    |g| == rows && forall r :: 0 <= r < rows ==> |g[r]| == cols
  }

  /** The bounds test `row >= 0 && row < rows && col >= 0 && col < cols`. */
  predicate InGrid(p: Pos, rows: int, cols: int) {
    0 <= p.row < rows && 0 <= p.col < cols
  }

  /** A `rows` x `cols` board with every entry `v`. */
  function Filled<T>(rows: nat, cols: nat, v: T): (g: seq<seq<T>>)
    ensures IsGrid(g, rows, cols)
    ensures forall r, c :: 0 <= r < rows && 0 <= c < cols ==> g[r][c] == v
  {
    seq(rows, _ => seq(cols, _ => v))
  }

  function Get<T>(g: seq<seq<T>>, p: Pos): T
    requires 0 <= p.row < |g| && 0 <= p.col < |g[p.row]|
  {
    g[p.row][p.col]
  }

  /** `g[p.row][p.col] = v`. */
  function Set<T>(g: seq<seq<T>>, p: Pos, v: T): (r: seq<seq<T>>)
    requires 0 <= p.row < |g| && 0 <= p.col < |g[p.row]|
    ensures |r| == |g| && forall i :: 0 <= i < |g| ==> |r[i]| == |g[i]|
    ensures forall i, j :: 0 <= i < |g| && 0 <= j < |g[i]| ==> r[i][j] == if Pos(i, j) == p then v else g[i][j]
  {
    g[p.row := g[p.row][p.col := v]]
  }

  /** Two boards of the same shape with the same entries are equal. */
  lemma GridsEqual<T>(a: seq<seq<T>>, b: seq<seq<T>>, h: int, w: int)
    requires IsGrid(a, h, w) && IsGrid(b, h, w)
    requires forall r, c :: 0 <= r < h && 0 <= c < w ==> a[r][c] == b[r][c]
    ensures a == b
  {
    forall r | 0 <= r < h
      ensures a[r] == b[r]
    {
      assert forall c :: 0 <= c < w ==> a[r][c] == b[r][c];
    }
  }

  /** The eight neighbour offsets around a cell, row by row, excluding the cell itself. */
  const NeighborOffsets: seq<Pos> :=
    [Pos(-1, -1), Pos(-1, 0), Pos(-1, 1), Pos(0, -1), Pos(0, 1), Pos(1, -1), Pos(1, 0), Pos(1, 1)]

  /**
   * The k-th neighbour of `p`: the nested `for di := -1; di <= 1` /
   * `for dj := -1; dj <= 1` loops skipping `di == 0 && dj == 0` visit the
   * neighbours in this order.
   */
  function Nb(p: Pos, k: nat): Pos
    requires k < 8
  {
    var dr := if k < 3 then -1 else if k < 5 then 0 else 1;
    var dc := if k < 3 then k - 1 else if k == 3 then -1 else if k == 4 then 1 else k - 6;
    Pos(p.row + dr, p.col + dc)
  }

  lemma NbFollowsOffsets(p: Pos, k: nat)
    requires k < 8
    ensures Nb(p, k) == Pos(p.row + NeighborOffsets[k].row, p.col + NeighborOffsets[k].col)
  {
  }

  /** The 3x3 block around (and including) `center`. */
  predicate InBlock(p: Pos, center: Pos) {
    center.row - 1 <= p.row <= center.row + 1 && center.col - 1 <= p.col <= center.col + 1
  }

  /** `q` is one of the eight cells adjacent to `p`. */
  predicate Adjacent(p: Pos, q: Pos) {
    InBlock(q, p) && q != p
  }

  /** The offsets enumerate exactly the adjacent cells, each once. */
  lemma NbIsAdjacent(p: Pos, k: nat)
    requires k < 8
    ensures Adjacent(p, Nb(p, k))
    ensures forall k' :: 0 <= k' < 8 && k' != k ==> Nb(p, k') != Nb(p, k)
  {
  }

  lemma AdjacentIsNb(p: Pos, q: Pos)
    requires Adjacent(p, q)
    ensures exists k :: 0 <= k < 8 && Nb(p, k) == q
  {
    var dr, dc := q.row - p.row, q.col - p.col;
    var k := if dr == -1 then dc + 1 else if dr == 0 then (if dc == -1 then 3 else 4) else dc + 6;
    assert Nb(p, k) == q;
  }

  /** Walking back along the opposite offset returns to the start. */
  lemma NbSymmetric(p: Pos, k: nat)
    requires k < 8
    ensures Nb(Nb(p, k), 7 - k) == p
  {
  }
}

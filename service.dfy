/**
 * The game service (`Service` in the `game` package): what a click, a
 * flag, a chord and a hint do to a room's game.
 */
module GameService {
  import opened Common
  import opened Grids
  import opened GameStates
  import opened Rooms
  import opened GameHints

  /** The most hints one game grants. */
  const HintLimit: int := 3
  /** How long (nanoseconds) a flag is protected from other players. */
  const FlagProtectionNanos: int := 1_000_000_000

  /**
   * What the service keeps true of a game between requests: the counter
   * counts the opened cells, every number is right, no mine is opened
   * unless the game is over, and at most three hints were used.
   */
  ghost predicate Sound(gs: GameState)
    reads gs`board, gs`rows, gs`cols, gs`revealed, gs`gameOver, gs`hintsUsed
  {
    SoundValues(gs.board, gs.rows, gs.cols, gs.revealed, gs.gameOver, gs.hintsUsed)
  }

  /** Sound, on the fields it depends on. */
  ghost predicate SoundValues(b: seq<seq<Cell>>, rows: int, cols: int, revealed: int, gameOver: bool, hintsUsed: int) {
    rows >= 0 && cols >= 0 && IsGrid(b, rows, cols) && revealed == |RevealedSet(b, rows, cols)| &&
    Consistent(b, rows, cols) && (!gameOver ==> NoMineOpened(b, rows, cols)) && 0 <= hintsUsed <= HintLimit
  }

  /**
   * Opening cells keeps the invariant as long as the counter follows and,
   * unless the game is over, no mine was opened.
   */
  lemma SoundAfterOpening(a: seq<seq<Cell>>, b: seq<seq<Cell>>, rows: int, cols: int, revealed: int, revealed': int,
                          gameOver: bool, gameOver': bool, hintsUsed: int, hintsUsed': int)
    requires SoundValues(a, rows, cols, revealed, gameOver, hintsUsed) && OnlyOpening(a, b, rows, cols)
    requires revealed' == |RevealedSet(b, rows, cols)| && 0 <= hintsUsed' <= HintLimit
    requires !gameOver' ==> NoMineOpened(b, rows, cols)
    ensures SoundValues(b, rows, cols, revealed', gameOver', hintsUsed')
  {
    OnlyOpeningKeeps(a, b, rows, cols);
  }

  /** Flood-fill openings are openings, and open no mine. */
  lemma OpenedIsOnlyOpening(a: seq<seq<Cell>>, b: seq<seq<Cell>>, rows: int, cols: int)
    requires Opened(a, b, rows, cols)
    ensures OnlyOpening(a, b, rows, cols)
    ensures NoMineOpened(a, rows, cols) ==> NoMineOpened(b, rows, cols)
  {
  }

  // ---------------------------------------------------------------------
  // Boards that only open cells

  /** `b` is `a` with some closed cells opened (mines included) and nothing else changed. */
  predicate OnlyOpening(a: seq<seq<Cell>>, b: seq<seq<Cell>>, rows: int, cols: int) {
    IsGrid(a, rows, cols) && IsGrid(b, rows, cols) &&
    forall r, c :: 0 <= r < rows && 0 <= c < cols ==>
      b[r][c] == a[r][c] || (!a[r][c].isRevealed && b[r][c] == a[r][c].(isRevealed := true))
  }

  /** The flags and their colours are the same on both boards. */
  predicate FlagsKept(a: seq<seq<Cell>>, b: seq<seq<Cell>>, rows: int, cols: int)
    requires IsGrid(a, rows, cols) && IsGrid(b, rows, cols)
  {
    forall r, c :: 0 <= r < rows && 0 <= c < cols ==> b[r][c].isFlagged == a[r][c].isFlagged && b[r][c].flagColor == a[r][c].flagColor
  }

  /** Opening cells keeps the mines, the numbers and the flags, so every number stays right. */
  lemma OnlyOpeningKeeps(a: seq<seq<Cell>>, b: seq<seq<Cell>>, rows: int, cols: int)
    requires OnlyOpening(a, b, rows, cols)
    ensures SameMines(a, b, rows, cols) && FlagsKept(a, b, rows, cols)
    ensures Consistent(a, rows, cols) ==> Consistent(b, rows, cols)
    ensures RevealedSet(a, rows, cols) <= RevealedSet(b, rows, cols)
  {
    forall r, c | 0 <= r < rows && 0 <= c < cols && !b[r][c].isMine
      ensures MinesAround(a, rows, cols, Pos(r, c), 8) == MinesAround(b, rows, cols, Pos(r, c), 8)
    {
      MinesAroundSameMines(a, b, rows, cols, Pos(r, c), 8);
    }
  }

  lemma OnlyOpeningTransitive(a: seq<seq<Cell>>, b: seq<seq<Cell>>, c: seq<seq<Cell>>, rows: int, cols: int)
    requires OnlyOpening(a, b, rows, cols) && OnlyOpening(b, c, rows, cols)
    ensures OnlyOpening(a, c, rows, cols)
  {
  }

  /** No opened cell at all: in particular no opened mine. */
  lemma NothingOpened(b: seq<seq<Cell>>, rows: int, cols: int)
    requires IsGrid(b, rows, cols) && |RevealedSet(b, rows, cols)| == 0
    ensures NoMineOpened(b, rows, cols)
    ensures forall r, c :: 0 <= r < rows && 0 <= c < cols ==> !b[r][c].isRevealed
  {
    assert RevealedSet(b, rows, cols) == {};
    forall r, c | 0 <= r < rows && 0 <= c < cols
      ensures !b[r][c].isRevealed
    {
      assert Pos(r, c) !in RevealedSet(b, rows, cols);
    }
  }

  /** Opening one closed cell, mine or not: the counter follows. */
  method OpenCell(gs: GameState, q: Pos)
    requires gs.Valid() && gs.Counted() && InGrid(q, gs.rows, gs.cols) && !gs.board[q.row][q.col].isRevealed
    modifies gs`board, gs`revealed
    ensures gs.Valid() && gs.Counted() && gs.board == Set(old(gs.board), q, old(gs.board)[q.row][q.col].(isRevealed := true))
    ensures OnlyOpening(old(gs.board), gs.board, gs.rows, gs.cols)
    ensures RevealedSet(gs.board, gs.rows, gs.cols) == RevealedSet(old(gs.board), gs.rows, gs.cols) + {q}
  {
    OpenAny(gs.board, gs.rows, gs.cols, q);
    gs.board := Set(gs.board, q, gs.board[q.row][q.col].(isRevealed := true));
    gs.revealed := gs.revealed + 1;
  }

  /** Opening any closed cell adds it, and it alone, to the opened cells. */
  lemma OpenAny(b: seq<seq<Cell>>, rows: int, cols: int, q: Pos)
    requires IsGrid(b, rows, cols) && InGrid(q, rows, cols) && !b[q.row][q.col].isRevealed
    ensures var b' := Set(b, q, b[q.row][q.col].(isRevealed := true));
            IsGrid(b', rows, cols) && OnlyOpening(b, b', rows, cols) && q !in RevealedSet(b, rows, cols) &&
            RevealedSet(b', rows, cols) == RevealedSet(b, rows, cols) + {q}
  {
    var b' := Set(b, q, b[q.row][q.col].(isRevealed := true));
    assert q in RevealedSet(b', rows, cols);
  }

  // ---------------------------------------------------------------------
  // handleDynamicMinePlacement

  /** The cell `q` is closed and the grid gives it a different mine. */
  predicate FlipAt(b: seq<seq<Cell>>, g: seq<seq<bool>>, rows: int, cols: int, q: Pos)
    requires IsGrid(b, rows, cols) && IsGrid(g, rows, cols)
  {
    InGrid(q, rows, cols) && !b[q.row][q.col].isRevealed && b[q.row][q.col].isMine != g[q.row][q.col]
  }

  /** `x` is, or is next to, a cell before (i, j) that flips. */
  predicate InZoneBefore(b: seq<seq<Cell>>, g: seq<seq<bool>>, rows: int, cols: int, x: Pos, i: int, j: int)
    requires IsGrid(b, rows, cols) && IsGrid(g, rows, cols)
  {
    (FlipAt(b, g, rows, cols, x) && Before(x, i, j)) ||
    exists k :: 0 <= k < 8 && FlipAt(b, g, rows, cols, Nb(x, k)) && Before(Nb(x, k), i, j)
  }

  /** The cells marked changed once the cells before (i, j) are placed. */
  function ZoneBefore(b: seq<seq<Cell>>, g: seq<seq<bool>>, rows: int, cols: int, i: int, j: int): set<Pos>
    requires IsGrid(b, rows, cols) && IsGrid(g, rows, cols)
  {
    set r, c | 0 <= r < rows && 0 <= c < cols && InZoneBefore(b, g, rows, cols, Pos(r, c), i, j) :: Pos(r, c)
  }

  /** A cell and its in-grid neighbours. */
  function Around(q: Pos, rows: int, cols: int): set<Pos> {
    {q} + set k | 0 <= k < 8 && InGrid(Nb(q, k), rows, cols) :: Nb(q, k)
  }

  /** `b0` with the grid's mines on the closed cells before (i, j). */
  function PlacedBefore(b0: seq<seq<Cell>>, g: seq<seq<bool>>, rows: nat, cols: nat, i: int, j: int): (b: seq<seq<Cell>>)
    requires IsGrid(b0, rows, cols) && IsGrid(g, rows, cols)
    ensures IsGrid(b, rows, cols)
    ensures forall r, c :: 0 <= r < rows && 0 <= c < cols ==>
              b[r][c] == if Before(Pos(r, c), i, j) && !b0[r][c].isRevealed then b0[r][c].(isMine := g[r][c]) else b0[r][c]
  {
    seq(rows, r requires 0 <= r < rows =>
      seq(cols, c requires 0 <= c < cols =>
        if Before(Pos(r, c), i, j) && !b0[r][c].isRevealed then b0[r][c].(isMine := g[r][c]) else b0[r][c]))
  }

  lemma PlacedStart(b0: seq<seq<Cell>>, g: seq<seq<bool>>, rows: nat, cols: nat)
    requires IsGrid(b0, rows, cols) && IsGrid(g, rows, cols)
    ensures PlacedBefore(b0, g, rows, cols, 0, 0) == b0 && ZoneBefore(b0, g, rows, cols, 0, 0) == {}
  {
    GridsEqual(PlacedBefore(b0, g, rows, cols, 0, 0), b0, rows, cols);
  }

  lemma PlacedRow(b0: seq<seq<Cell>>, g: seq<seq<bool>>, rows: nat, cols: nat, i: int)
    requires IsGrid(b0, rows, cols) && IsGrid(g, rows, cols)
    ensures PlacedBefore(b0, g, rows, cols, i, cols) == PlacedBefore(b0, g, rows, cols, i + 1, 0)
    ensures ZoneBefore(b0, g, rows, cols, i, cols) == ZoneBefore(b0, g, rows, cols, i + 1, 0)
  {
    GridsEqual(PlacedBefore(b0, g, rows, cols, i, cols), PlacedBefore(b0, g, rows, cols, i + 1, 0), rows, cols);
    forall x | InGrid(x, rows, cols)
      ensures InZoneBefore(b0, g, rows, cols, x, i, cols) == InZoneBefore(b0, g, rows, cols, x, i + 1, 0)
    {
      if InZoneBefore(b0, g, rows, cols, x, i + 1, 0) && !(FlipAt(b0, g, rows, cols, x) && Before(x, i + 1, 0)) {
        var k :| 0 <= k < 8 && FlipAt(b0, g, rows, cols, Nb(x, k)) && Before(Nb(x, k), i + 1, 0);
        assert Before(Nb(x, k), i, cols);
      }
    }
  }

  lemma PlacedStep(b0: seq<seq<Cell>>, g: seq<seq<bool>>, rows: nat, cols: nat, i: int, j: int)
    requires IsGrid(b0, rows, cols) && IsGrid(g, rows, cols) && 0 <= i < rows && 0 <= j < cols
    ensures var b := PlacedBefore(b0, g, rows, cols, i, j);
            PlacedBefore(b0, g, rows, cols, i, j + 1) ==
              if b0[i][j].isRevealed then b else Set(b, Pos(i, j), b[i][j].(isMine := g[i][j]))
  {
    var b: seq<seq<Cell>>, b': seq<seq<Cell>> := PlacedBefore(b0, g, rows, cols, i, j), PlacedBefore(b0, g, rows, cols, i, j + 1);
    if b0[i][j].isRevealed {
      GridsEqual(b', b, rows, cols);
    } else {
      GridsEqual(b', Set(b, Pos(i, j), b[i][j].(isMine := g[i][j])), rows, cols);
    }
  }

  /** Placing cell (i, j) marks it and its neighbours exactly when it flips. */
  lemma ZoneStep(b0: seq<seq<Cell>>, g: seq<seq<bool>>, rows: nat, cols: nat, i: int, j: int)
    requires IsGrid(b0, rows, cols) && IsGrid(g, rows, cols) && 0 <= i < rows && 0 <= j < cols
    ensures ZoneBefore(b0, g, rows, cols, i, j + 1) ==
              ZoneBefore(b0, g, rows, cols, i, j) + (if FlipAt(b0, g, rows, cols, Pos(i, j)) then Around(Pos(i, j), rows, cols) else {})
  {
    var p := Pos(i, j);
    var z, z' := ZoneBefore(b0, g, rows, cols, i, j), ZoneBefore(b0, g, rows, cols, i, j + 1);
    var add := if FlipAt(b0, g, rows, cols, p) then Around(p, rows, cols) else {};
    forall x | x in z'
      ensures x in z + add
    {
      if !InZoneBefore(b0, g, rows, cols, x, i, j) {
        if FlipAt(b0, g, rows, cols, x) && Before(x, i, j + 1) {
          assert x == p;
        } else {
          var k :| 0 <= k < 8 && FlipAt(b0, g, rows, cols, Nb(x, k)) && Before(Nb(x, k), i, j + 1);
          assert Nb(x, k) == p;
          NbSymmetric(x, k);
          assert Nb(p, 7 - k) == x;
        }
      }
    }
    forall x | x in add
      ensures x in z'
    {
      if x != p {
        var k :| 0 <= k < 8 && InGrid(Nb(p, k), rows, cols) && Nb(p, k) == x;
        NbSymmetric(p, k);
        assert FlipAt(b0, g, rows, cols, Nb(x, 7 - k)) && Before(Nb(x, 7 - k), i, j + 1);
      }
    }
  }

  /** The mines around `p` agree on two boards whose first `n` neighbours of `p` agree. */
  lemma {:induction false} MinesAroundSameNeighbours(a: seq<seq<Cell>>, b: seq<seq<Cell>>, rows: int, cols: int, p: Pos, n: nat)
    requires IsGrid(a, rows, cols) && IsGrid(b, rows, cols) && n <= 8
    requires forall k :: 0 <= k < n ==> MineAt(a, rows, cols, Nb(p, k)) == MineAt(b, rows, cols, Nb(p, k))
    ensures MinesAround(a, rows, cols, p, n) == MinesAround(b, rows, cols, p, n)
  {
    if n > 0 {
      MinesAroundSameNeighbours(a, b, rows, cols, p, n - 1);
    }
  }

  /** The board `handleDynamicMinePlacement` leaves: the grid's mines, the changed cells that are not mines recounted. */
  function Replaced(b0: seq<seq<Cell>>, g: seq<seq<bool>>, rows: nat, cols: nat): (b: seq<seq<Cell>>)
    requires IsGrid(b0, rows, cols) && IsGrid(g, rows, cols)
    ensures IsGrid(b, rows, cols)
  {
    var placed := PlacedBefore(b0, g, rows, cols, rows, 0);
    var zone := ZoneBefore(b0, g, rows, cols, rows, 0);
    seq(rows, r requires 0 <= r < rows =>
      seq(cols, c requires 0 <= c < cols =>
        if Pos(r, c) in zone && !placed[r][c].isMine
        then placed[r][c].(neighborMines := MinesAround(placed, rows, cols, Pos(r, c), 8)) else placed[r][c]))
  }

  /**
   * Dynamic placement keeps every number right: a cell outside the changed
   * set neither flipped nor has a neighbour that flipped, so its count is
   * the same on the new board. It also keeps what players see, and the
   * mines of the opened cells.
   */
  lemma ReplacedKeeps(b0: seq<seq<Cell>>, g: seq<seq<bool>>, rows: nat, cols: nat)
    requires IsGrid(b0, rows, cols) && IsGrid(g, rows, cols)
    ensures var b := Replaced(b0, g, rows, cols);
            SameSurface(b0, b, rows, cols) &&
            (Consistent(b0, rows, cols) ==> Consistent(b, rows, cols)) &&
            forall r, c :: 0 <= r < rows && 0 <= c < cols ==>
              b[r][c].isMine == (if b0[r][c].isRevealed then b0[r][c].isMine else g[r][c])
  {
    var b: seq<seq<Cell>> := Replaced(b0, g, rows, cols);
    var placed: seq<seq<Cell>> := PlacedBefore(b0, g, rows, cols, rows, 0);
    var zone := ZoneBefore(b0, g, rows, cols, rows, 0);
    assert SameMines(placed, b, rows, cols);
    if Consistent(b0, rows, cols) {
      forall r, c | 0 <= r < rows && 0 <= c < cols && !b[r][c].isMine
        ensures b[r][c].neighborMines == MinesAround(b, rows, cols, Pos(r, c), 8)
      {
        var x := Pos(r, c);
        MinesAroundSameMines(placed, b, rows, cols, x, 8);
        if x !in zone {
          assert !FlipAt(b0, g, rows, cols, x);
          forall k | 0 <= k < 8
            ensures MineAt(b0, rows, cols, Nb(x, k)) == MineAt(placed, rows, cols, Nb(x, k))
          {
            assert !(FlipAt(b0, g, rows, cols, Nb(x, k)) && Before(Nb(x, k), rows, 0));
          }
          MinesAroundSameNeighbours(b0, placed, rows, cols, x, 8);
        }
      }
    }
  }

  /** One cell of the first loop of `handleDynamicMinePlacement`. */
  method PlaceCell(gs: GameState, ghost b0: seq<seq<Cell>>, g: seq<seq<bool>>, changed: set<Pos>, i: int, j: int)
    returns (changed': set<Pos>)
    requires gs.Valid() && IsGrid(b0, gs.rows, gs.cols) && IsGrid(g, gs.rows, gs.cols) && 0 <= i < gs.rows && 0 <= j < gs.cols
    requires gs.board == PlacedBefore(b0, g, gs.rows, gs.cols, i, j) && changed == ZoneBefore(b0, g, gs.rows, gs.cols, i, j)
    modifies gs`board
    ensures gs.Valid() && gs.board == PlacedBefore(b0, g, gs.rows, gs.cols, i, j + 1)
    ensures changed' == ZoneBefore(b0, g, gs.rows, gs.cols, i, j + 1)
  {
    PlacedStep(b0, g, gs.rows, gs.cols, i, j);
    ZoneStep(b0, g, gs.rows, gs.cols, i, j);
    changed' := changed;
    if !gs.board[i][j].isRevealed {
      var oldMine := gs.board[i][j].isMine;
      gs.board := Set(gs.board, Pos(i, j), gs.board[i][j].(isMine := g[i][j]));
      if oldMine != g[i][j] {
        changed' := MarkAround(changed', Pos(i, j), gs.rows, gs.cols);
      }
    }
  }

  /** The inner loops of a flipped cell: the cell and each in-grid neighbour marked changed. */
  method MarkAround(changed: set<Pos>, q: Pos, rows: int, cols: int) returns (changed': set<Pos>)
    ensures changed' == changed + Around(q, rows, cols)
  {
    changed' := changed + {q};
    var k := 0;
    while k < 8
      invariant 0 <= k <= 8
      invariant changed' == changed + {q} + set k' | 0 <= k' < k && InGrid(Nb(q, k'), rows, cols) :: Nb(q, k')
    {
      var n := Nb(q, k);
      if n.row >= 0 && n.row < rows && n.col >= 0 && n.col < cols {
        changed' := changed' + {n};
      }
      k := k + 1;
    }
  }

  /** One changed cell of the recount loop: a cell that is not a mine shows the mines around it. */
  method RecountChanged(gs: GameState, ghost placed: seq<seq<Cell>>, ghost zone: set<Pos>, ghost rest: set<Pos>, q: Pos)
    requires gs.Valid() && IsGrid(placed, gs.rows, gs.cols) && InGrid(q, gs.rows, gs.cols) && q in rest && rest <= zone
    requires forall r, c :: 0 <= r < gs.rows && 0 <= c < gs.cols ==>
               gs.board[r][c] == if Pos(r, c) in zone && Pos(r, c) !in rest && !placed[r][c].isMine
                                 then placed[r][c].(neighborMines := MinesAround(placed, gs.rows, gs.cols, Pos(r, c), 8)) else placed[r][c]
    modifies gs`board
    ensures gs.Valid()
    ensures forall r, c :: 0 <= r < gs.rows && 0 <= c < gs.cols ==>
              gs.board[r][c] == if Pos(r, c) in zone && Pos(r, c) !in rest - {q} && !placed[r][c].isMine
                                then placed[r][c].(neighborMines := MinesAround(placed, gs.rows, gs.cols, Pos(r, c), 8)) else placed[r][c]
  {
    if !gs.board[q.row][q.col].isMine {
      assert SameMines(placed, gs.board, gs.rows, gs.cols);
      MinesAroundSameMines(placed, gs.board, gs.rows, gs.cols, q, 8);
      var count := gs.CountNeighborMines(q.row, q.col);
      gs.board := Set(gs.board, q, gs.board[q.row][q.col].(neighborMines := count));
    }
  }

  /** The first loop of `handleDynamicMinePlacement`: the grid's mines on the closed cells, the changed cells marked. */
  method PlaceAll(gs: GameState, g: seq<seq<bool>>) returns (changed: set<Pos>)
    requires gs.Valid() && IsGrid(g, gs.rows, gs.cols)
    modifies gs`board
    ensures gs.Valid() && gs.board == PlacedBefore(old(gs.board), g, gs.rows, gs.cols, gs.rows, 0)
    ensures changed == ZoneBefore(old(gs.board), g, gs.rows, gs.cols, gs.rows, 0)
  {
    ghost var b0 := gs.board;
    PlacedStart(b0, g, gs.rows, gs.cols);
    changed := {};
    var i := 0;
    while i < gs.rows
      invariant 0 <= i <= gs.rows && gs.Valid() && gs.board == PlacedBefore(b0, g, gs.rows, gs.cols, i, 0)
      invariant changed == ZoneBefore(b0, g, gs.rows, gs.cols, i, 0)
    {
      changed := PlaceRow(gs, b0, g, changed, i);
      i := i + 1;
    }
  }

  /** One row of the first loop of `handleDynamicMinePlacement`. */
  method PlaceRow(gs: GameState, ghost b0: seq<seq<Cell>>, g: seq<seq<bool>>, changed: set<Pos>, i: int) returns (changed': set<Pos>)
    requires gs.Valid() && IsGrid(b0, gs.rows, gs.cols) && IsGrid(g, gs.rows, gs.cols) && 0 <= i < gs.rows
    requires gs.board == PlacedBefore(b0, g, gs.rows, gs.cols, i, 0) && changed == ZoneBefore(b0, g, gs.rows, gs.cols, i, 0)
    modifies gs`board
    ensures gs.Valid() && gs.board == PlacedBefore(b0, g, gs.rows, gs.cols, i + 1, 0)
    ensures changed' == ZoneBefore(b0, g, gs.rows, gs.cols, i + 1, 0)
  {
    changed' := changed;
    var j := 0;
    while j < gs.cols
      invariant 0 <= j <= gs.cols && gs.Valid() && gs.board == PlacedBefore(b0, g, gs.rows, gs.cols, i, j)
      invariant changed' == ZoneBefore(b0, g, gs.rows, gs.cols, i, j)
    {
      changed' := PlaceCell(gs, b0, g, changed', i, j);
      j := j + 1;
    }
    PlacedRow(b0, g, gs.rows, gs.cols, i);
  }

  /** The second loop of `handleDynamicMinePlacement`, in whatever order the map yields the changed cells. */
  method RecountZone(gs: GameState, zone: set<Pos>)
    requires gs.Valid() && forall q :: q in zone ==> InGrid(q, gs.rows, gs.cols)
    modifies gs`board
    ensures gs.Valid()
    ensures forall r, c :: 0 <= r < gs.rows && 0 <= c < gs.cols ==>
              gs.board[r][c] == if Pos(r, c) in zone && !old(gs.board)[r][c].isMine
                                then old(gs.board)[r][c].(neighborMines := MinesAround(old(gs.board), gs.rows, gs.cols, Pos(r, c), 8))
                                else old(gs.board)[r][c]
  {
    ghost var placed: seq<seq<Cell>> := gs.board;
    var rest := zone;
    while rest != {}
      invariant gs.Valid() && rest <= zone
      invariant forall r, c :: 0 <= r < gs.rows && 0 <= c < gs.cols ==>
                  gs.board[r][c] == if Pos(r, c) in zone && Pos(r, c) !in rest && !placed[r][c].isMine
                                    then placed[r][c].(neighborMines := MinesAround(placed, gs.rows, gs.cols, Pos(r, c), 8)) else placed[r][c]
      decreases |rest|
    {
      var q :| q in rest;
      RecountChanged(gs, placed, zone, rest, q);
      rest := rest - {q};
    }
  }

  /**
   * `handleDynamicMinePlacement` with the grid `DetermineMinePlacement`
   * chose: every closed cell takes the grid's mine; each cell that
   * flipped, with its in-grid neighbours, is changed; the changed cells
   * that are not mines are recounted.
   */
  method HandleDynamicMinePlacement(gs: GameState, g: seq<seq<bool>>) returns (changed: set<Pos>)
    requires gs.Valid() && IsGrid(g, gs.rows, gs.cols)
    modifies gs`board
    ensures gs.Valid() && gs.board == Replaced(old(gs.board), g, gs.rows, gs.cols)
    ensures changed == ZoneBefore(old(gs.board), g, gs.rows, gs.cols, gs.rows, 0)
    ensures forall q :: q in changed ==> InGrid(q, gs.rows, gs.cols)
  {
    ghost var b0 := gs.board;
    changed := PlaceAll(gs, g);
    RecountZone(gs, changed);
    GridsEqual(gs.board, Replaced(b0, g, gs.rows, gs.cols), gs.rows, gs.cols);
  }

  // ---------------------------------------------------------------------
  // handleFlagToggle

  /** A cell and the flag owners after a toggle. */
  datatype FlagToggle = FlagToggle(cell: Cell, info: map<int, FlagInfo>)

  /** Another player set this flag less than a second ago. */
  predicate FlagProtected(info: map<int, FlagInfo>, key: int, playerId: string, now: int) {
    key in info && info[key].playerId != playerId && now - info[key].setTime < FlagProtectionNanos
  }

  /**
   * What `handleFlagToggle` does to a cell and the flag owners: an opened
   * cell and a flag another player set less than a second ago stay; a
   * flag is otherwise taken away with its owner and colour; a closed cell
   * without a flag gets one in the player's colour, owned by the player
   * from `now`. Only the cell's own key of the owners ever changes, and a
   * flag left standing always has an owner.
   */
  function ToggleFlag(cell: Cell, info: map<int, FlagInfo>, key: int, playerId: string, color: string, now: int): (t: FlagToggle)
    ensures cell.isRevealed ==> t == FlagToggle(cell, info)
    ensures t.cell == cell.(isFlagged := t.cell.isFlagged, flagColor := t.cell.flagColor)
    ensures !cell.isRevealed ==> (t.cell.isFlagged <==> !cell.isFlagged || FlagProtected(info, key, playerId, now))
    ensures !cell.isRevealed && !cell.isFlagged ==> t.cell.flagColor == color && key in t.info && t.info[key] == FlagInfo(now, playerId)
    ensures forall k :: k != key ==> (k in t.info <==> k in info) && (k in info ==> t.info[k] == info[k])
    ensures !cell.isRevealed && t.cell.isFlagged ==> key in t.info
    ensures !t.cell.isFlagged && !cell.isRevealed ==> key !in t.info && t.cell.flagColor == ""
  {
    if cell.isRevealed then FlagToggle(cell, info)
    else if cell.isFlagged then
      if FlagProtected(info, key, playerId, now) then FlagToggle(cell, info)
      else FlagToggle(cell.(isFlagged := false, flagColor := ""), info - {key})
    else FlagToggle(cell.(isFlagged := true, flagColor := color), info[key := FlagInfo(now, playerId)])
  }

  /** A player who flags a clean closed cell and toggles it again leaves the cell and the owners as they were. */
  lemma ToggleTwiceRestores(cell: Cell, info: map<int, FlagInfo>, key: int, playerId: string, color: string, now: int, later: int)
    requires !cell.isRevealed && !cell.isFlagged && cell.flagColor == "" && key !in info
    ensures var t := ToggleFlag(cell, info, key, playerId, color, now);
            ToggleFlag(t.cell, t.info, key, playerId, color, later) == FlagToggle(cell, info)
  {
    var t := ToggleFlag(cell, info, key, playerId, color, now);
    assert t.info - {key} == info;
  }

  /** Changing a cell's flag keeps the invariant: mines, numbers and opened cells stay. */
  lemma FlagKeepsSound(b: seq<seq<Cell>>, rows: int, cols: int, revealed: int, gameOver: bool, hintsUsed: int, p: Pos, cell: Cell)
    requires SoundValues(b, rows, cols, revealed, gameOver, hintsUsed) && InGrid(p, rows, cols)
    requires cell == b[p.row][p.col].(isFlagged := cell.isFlagged, flagColor := cell.flagColor)
    ensures SoundValues(Set(b, p, cell), rows, cols, revealed, gameOver, hintsUsed)
  {
    var b': seq<seq<Cell>> := Set(b, p, cell);
    assert SameMines(b, b', rows, cols);
    forall r, c | 0 <= r < rows && 0 <= c < cols && !b'[r][c].isMine
      ensures b'[r][c].neighborMines == MinesAround(b', rows, cols, Pos(r, c), 8)
    {
      MinesAroundSameMines(b, b', rows, cols, Pos(r, c), 8);
    }
    assert RevealedSet(b', rows, cols) == RevealedSet(b, rows, cols);
  }

  /** The branches of `handleFlagToggle` on the cell and the flag owners. */
  method ToggleFlagStep(cell: Cell, info: map<int, FlagInfo>, key: int, playerId: string, color: string, now: int)
    returns (cell': Cell, info': map<int, FlagInfo>)
    ensures FlagToggle(cell', info') == ToggleFlag(cell, info, key, playerId, color, now)
  {
    cell', info' := cell, info;
    if cell.isRevealed {
      return;
    }
    var wasFlagged := cell.isFlagged;
    if wasFlagged {
      if key in info {
        var flagInfo := info[key];
        if flagInfo.playerId != playerId {
          var timeSinceFlagSet := now - flagInfo.setTime;
          if timeSinceFlagSet < FlagProtectionNanos {
            return;
          }
        }
      }
      info' := info' - {key};
      cell' := cell'.(flagColor := "");
    } else {
      info' := info'[key := FlagInfo(now, playerId)];
      cell' := cell'.(flagColor := color);
    }
    cell' := cell'.(isFlagged := !cell'.isFlagged);
  }

  /** `handleFlagToggle`: the clicked cell and the flag owners become those of ToggleFlag, under the key row*cols+col. */
  method HandleFlagToggle(gs: GameState, playerId: string, p: Pos, color: string, now: int)
    requires Sound(gs) && InGrid(p, gs.rows, gs.cols)
    modifies gs`board, gs`flagSetInfo
    ensures Sound(gs)
    ensures var t := ToggleFlag(old(gs.board[p.row][p.col]), old(gs.flagSetInfo), p.row * gs.cols + p.col, playerId, color, now);
            gs.board == Set(old(gs.board), p, t.cell) && gs.flagSetInfo == t.info
  {
    var cellKey := p.row * gs.cols + p.col;
    var cell, info := ToggleFlagStep(gs.board[p.row][p.col], gs.flagSetInfo, cellKey, playerId, color, now);
    SetFlag(gs, p, cell);
    gs.flagSetInfo := info;
  }

  /** Writing a cell that differs from the old one only in its flag keeps the game sound. */
  method SetFlag(gs: GameState, p: Pos, cell: Cell)
    requires Sound(gs) && InGrid(p, gs.rows, gs.cols)
    requires cell == gs.board[p.row][p.col].(isFlagged := cell.isFlagged, flagColor := cell.flagColor)
    modifies gs`board
    ensures Sound(gs) && gs.board == Set(old(gs.board), p, cell)
  {
    FlagKeepsSound(gs.board, gs.rows, gs.cols, gs.revealed, gs.gameOver, gs.hintsUsed, p, cell);
    gs.board := Set(gs.board, p, cell);
  }

  // ---------------------------------------------------------------------
  // setLoserInfo and handleMineExplosion

  /**
   * The loser's nickname `setLoserInfo` finds: the connection's nickname
   * when the connection manager knows the player (`ws`), otherwise the
   * room's player's, otherwise none.
   */
  function LoserNicknameOf(ws: Option<string>, player: Option<RoomPlayer>): (n: string)
    ensures ws.Some? ==> n == ws.value
    ensures ws.None? && player.Some? ==> n == player.value.nickname
    ensures ws.None? && player.None? ==> n == ""
  {
    match ws
    case Some(nick) => nick
    case None => if player.Some? then player.value.nickname else ""
  }

  /** `setLoserInfo`: the loser is recorded only when a nickname was found. */
  method SetLoserInfo(gs: GameState, playerId: string, nickname: string)
    modifies gs`loserPlayerId, gs`loserNickname
    ensures nickname != "" ==> gs.loserPlayerId == playerId && gs.loserNickname == nickname
    ensures nickname == "" ==> gs.loserPlayerId == old(gs.loserPlayerId) && gs.loserNickname == old(gs.loserNickname)
  {
    if nickname != "" {
      gs.loserPlayerId := playerId;
      gs.loserNickname := nickname;
    }
  }

  /** `CalculateCellHints` on a sound game: only the hints change (what they are is CalculateCellHints' contract). */
  method RecomputeHints(gs: GameState)
    requires Sound(gs)
    modifies gs`cellHints
    ensures Sound(gs)
  {
    CalculateCellHints(gs);
  }

  /**
   * `handleMineExplosion`, once the mine is opened: the game is over, the
   * loser recorded, and in the fair mode the hints are computed.
   */
  method HandleMineExplosion(gs: GameState, playerId: string, nickname: string, gameMode: string)
    requires SoundValues(gs.board, gs.rows, gs.cols, gs.revealed, true, gs.hintsUsed)
    modifies gs`gameOver, gs`loserPlayerId, gs`loserNickname, gs`cellHints
    ensures Sound(gs) && gs.gameOver
    ensures nickname != "" ==> gs.loserPlayerId == playerId && gs.loserNickname == nickname
    ensures nickname == "" ==> gs.loserPlayerId == old(gs.loserPlayerId) && gs.loserNickname == old(gs.loserNickname)
    ensures gameMode != "fair" ==> gs.cellHints == old(gs.cellHints)
  {
    gs.gameOver := true;
    SetLoserInfo(gs, playerId, nickname);
    if gameMode == "fair" {
      RecomputeHints(gs);
    }
  }

  // ---------------------------------------------------------------------
  // HandleHint

  /**
   * `HandleHint`: once the game is over or won, or three hints are used,
   * nothing happens; a position off the board is an error; an opened or
   * flagged cell is left alone. Otherwise the hint is counted and a mine
   * gets a flag in the player's colour (without an owner), while a safe
   * cell is opened, flooded from if it shows 0, and the game won when the
   * counter reaches the cells without mines.
   */
  method HandleHint(gs: GameState, p: Pos, color: string) returns (err: Option<string>, changed: set<Pos>)
    requires Sound(gs)
    modifies gs`board, gs`revealed, gs`hintsUsed, gs`gameWon
    ensures Sound(gs)
    ensures old(gs.gameOver || gs.gameWon || gs.hintsUsed >= HintLimit) ==> err == None && changed == {} && unchanged(gs)
    ensures !old(gs.gameOver || gs.gameWon || gs.hintsUsed >= HintLimit) && !InGrid(p, gs.rows, gs.cols) ==>
              err == Some("invalid coordinates") && changed == {} && unchanged(gs)
    ensures !old(gs.gameOver || gs.gameWon || gs.hintsUsed >= HintLimit) && InGrid(p, gs.rows, gs.cols) ==>
              err == None &&
              var cell := old(gs.board[p.row][p.col]);
              if cell.isRevealed || cell.isFlagged then changed == {} && unchanged(gs)
              else if cell.isMine then
                gs.board == Set(old(gs.board), p, cell.(isFlagged := true, flagColor := color)) && changed == {p} &&
                gs.hintsUsed == old(gs.hintsUsed) + 1 && gs.revealed == old(gs.revealed) && gs.gameWon == old(gs.gameWon)
              else
                Opened(old(gs.board), gs.board, gs.rows, gs.cols) && FloodClosed(old(gs.board), gs.board, gs.rows, gs.cols) &&
                gs.board[p.row][p.col].isRevealed && gs.hintsUsed == old(gs.hintsUsed) + 1 &&
                changed == RevealedSet(gs.board, gs.rows, gs.cols) - RevealedSet(old(gs.board), gs.rows, gs.cols) &&
                (cell.neighborMines == 0 ==> AllAroundSettled(gs.board, gs.rows, gs.cols, p)) &&
                gs.gameWon == gs.CheckWin()
  {
    if gs.gameOver || gs.gameWon {
      return None, {};
    }
    if gs.hintsUsed >= HintLimit {
      return None, {};
    }
    if p.row < 0 || p.row >= gs.rows || p.col < 0 || p.col >= gs.cols {
      return Some("invalid coordinates"), {};
    }
    var cell := gs.board[p.row][p.col];
    if cell.isRevealed || cell.isFlagged {
      return None, {};
    }
    if cell.isMine {
      FlagKeepsSound(gs.board, gs.rows, gs.cols, gs.revealed, gs.gameOver, gs.hintsUsed, p, cell.(isFlagged := true, flagColor := color));
      gs.board := Set(gs.board, p, cell.(isFlagged := true, flagColor := color));
      gs.hintsUsed := gs.hintsUsed + 1;
      return None, {p};
    }
    err := None;
    changed := RevealHinted(gs, p);
  }

  /** The safe branch of HandleHint: the cell is opened and counted, flooded from on 0, and the win checked. */
  method RevealHinted(gs: GameState, p: Pos) returns (changed: set<Pos>)
    requires Sound(gs) && !gs.gameOver && !gs.gameWon && gs.hintsUsed < HintLimit
    requires InGrid(p, gs.rows, gs.cols) && Openable(gs.board[p.row][p.col])
    modifies gs`board, gs`revealed, gs`hintsUsed, gs`gameWon
    ensures Sound(gs)
    ensures Opened(old(gs.board), gs.board, gs.rows, gs.cols) && FloodClosed(old(gs.board), gs.board, gs.rows, gs.cols)
    ensures gs.board[p.row][p.col].isRevealed && gs.hintsUsed == old(gs.hintsUsed) + 1
    ensures changed == RevealedSet(gs.board, gs.rows, gs.cols) - RevealedSet(old(gs.board), gs.rows, gs.cols)
    ensures old(gs.board[p.row][p.col].neighborMines) == 0 ==> AllAroundSettled(gs.board, gs.rows, gs.cols, p)
    ensures gs.gameWon == gs.CheckWin()
  {
    ghost var b0 := gs.board;
    changed := OpenAndFlood(gs, p, {});
    gs.hintsUsed := gs.hintsUsed + 1;
    if gs.CheckWin() {
      gs.gameWon := true;
    }
    OpenedIsOnlyOpening(b0, gs.board, gs.rows, gs.cols);
    SoundAfterOpening(b0, gs.board, gs.rows, gs.cols, old(gs.revealed), gs.revealed, false, false, old(gs.hintsUsed), gs.hintsUsed);
  }

  /** Opening a closed cell that is neither flagged nor a mine: it alone is new, and only a 0 leaves work for the flood. */
  lemma OpenedClicked(b0: seq<seq<Cell>>, b1: seq<seq<Cell>>, rows: int, cols: int, p: Pos, changed: set<Pos>)
    requires IsGrid(b0, rows, cols) && InGrid(p, rows, cols) && Openable(b0[p.row][p.col])
    requires b1 == Set(b0, p, b0[p.row][p.col].(isRevealed := true))
    ensures Opened(b0, b1, rows, cols) && FloodClosedExcept(b0, b1, rows, cols, p)
    ensures RevealedSet(b1, rows, cols) - RevealedSet(b0, rows, cols) == {p}
    ensures b1[p.row][p.col].neighborMines != 0 ==> Flooded(b0, b1, rows, cols, p, changed, changed + {p})
  {
    OpenOne(b0, rows, cols, p);
  }

  /** The flood from the clicked cell closes what opening it left open. */
  lemma FloodedClicked(b0: seq<seq<Cell>>, b1: seq<seq<Cell>>, b2: seq<seq<Cell>>, rows: int, cols: int, p: Pos, changed: set<Pos>)
    requires Opened(b0, b1, rows, cols) && FloodClosedExcept(b0, b1, rows, cols, p) && InGrid(p, rows, cols)
    requires RevealedSet(b1, rows, cols) - RevealedSet(b0, rows, cols) == {p} && b0[p.row][p.col].neighborMines == 0
    requires Opened(b1, b2, rows, cols) && FloodClosed(b1, b2, rows, cols) && AllAroundSettled(b2, rows, cols, p)
    ensures Flooded(b0, b2, rows, cols, p, changed,
                    changed + {p} + (RevealedSet(b2, rows, cols) - RevealedSet(b1, rows, cols)))
  {
    OpenedTransitive(b0, b1, b2, rows, cols);
    FloodClosedJoin(b0, b1, b2, rows, cols, p);
    OpenedShrinksClosed(b0, b1, rows, cols);
    OpenedShrinksClosed(b1, b2, rows, cols);
    assert {p} + (RevealedSet(b2, rows, cols) - RevealedSet(b1, rows, cols)) == RevealedSet(b2, rows, cols) - RevealedSet(b0, rows, cols);
  }

  /**
   * Opening a cell that is closed, not flagged and not a mine, as the
   * click and the hint do: it is counted and, when it shows 0, flooded
   * from; the cells opened are added to `changed`.
   */
  method OpenAndFlood(gs: GameState, p: Pos, changed: set<Pos>) returns (changed': set<Pos>)
    requires gs.Valid() && gs.Counted() && InGrid(p, gs.rows, gs.cols) && Openable(gs.board[p.row][p.col])
    modifies gs`board, gs`revealed
    ensures gs.Valid() && gs.Counted() && Flooded(old(gs.board), gs.board, gs.rows, gs.cols, p, changed, changed')
  {
    ghost var b0 := gs.board;
    gs.OpenNeighbor(p);
    OpenedClicked(b0, gs.board, gs.rows, gs.cols, p, changed);
    changed' := changed + {p};
    if gs.board[p.row][p.col].neighborMines == 0 {
      ghost var b1 := gs.board;
      changed' := gs.RevealNeighbors(p.row, p.col, changed');
      FloodedClicked(b0, b1, gs.board, gs.rows, gs.cols, p, changed);
    }
  }

  /**
   * What opening the cell `p` and flooding from it did, from `a` to `b`:
   * only flood-fill openings, closed under the flood; `p` is open; the
   * opened cells are added to `changed`; a 0 at `p` left no closed safe
   * neighbour.
   */
  predicate Flooded(a: seq<seq<Cell>>, b: seq<seq<Cell>>, rows: int, cols: int, p: Pos, changed: set<Pos>, changed': set<Pos>) {
    Opened(a, b, rows, cols) && FloodClosed(a, b, rows, cols) && InGrid(p, rows, cols) && b[p.row][p.col].isRevealed &&
    changed' == changed + (RevealedSet(b, rows, cols) - RevealedSet(a, rows, cols)) &&
    (a[p.row][p.col].neighborMines == 0 ==> AllAroundSettled(b, rows, cols, p))
  }

  // ---------------------------------------------------------------------
  // handleChording

  /** Flags among the first `n` neighbours of `p`. */
  function FlagsAround(b: seq<seq<Cell>>, rows: int, cols: int, p: Pos, n: nat): (c: nat)
    requires IsGrid(b, rows, cols) && n <= 8
    ensures c <= n
  {
    if n == 0 then 0
    else FlagsAround(b, rows, cols, p, n - 1) + (if InGrid(Nb(p, n - 1), rows, cols) && b[Nb(p, n - 1).row][Nb(p, n - 1).col].isFlagged then 1 else 0)
  }

  /** The flag-counting loop of `handleChording`. */
  method CountFlagsAround(gs: GameState, p: Pos) returns (flagCount: int)
    requires gs.Valid()
    ensures flagCount == FlagsAround(gs.board, gs.rows, gs.cols, p, 8)
  {
    flagCount := 0;
    var k := 0;
    while k < 8
      invariant 0 <= k <= 8 && flagCount == FlagsAround(gs.board, gs.rows, gs.cols, p, k)
    {
      var q := Nb(p, k);
      if q.row >= 0 && q.row < gs.rows && q.col >= 0 && q.col < gs.cols && gs.board[q.row][q.col].isFlagged {
        flagCount := flagCount + 1;
      }
      k := k + 1;
    }
  }

  /** Outside the board, opened or flagged: a neighbour the chord has nothing left to do for. */
  predicate ChordSettled(b: seq<seq<Cell>>, rows: int, cols: int, q: Pos)
    requires IsGrid(b, rows, cols)
  {
    !InGrid(q, rows, cols) || b[q.row][q.col].isRevealed || b[q.row][q.col].isFlagged
  }

  /** Opening cells keeps a settled cell settled. */
  lemma ChordSettledStays(a: seq<seq<Cell>>, b: seq<seq<Cell>>, rows: int, cols: int, q: Pos)
    requires OnlyOpening(a, b, rows, cols) && ChordSettled(a, rows, cols, q)
    ensures ChordSettled(b, rows, cols, q)
  {
  }

  /** The chord's progress after `k` neighbours: only openings, no mine opened, the first `k` neighbours settled. */
  predicate Chording(a: seq<seq<Cell>>, b: seq<seq<Cell>>, rows: int, cols: int, changed: set<Pos>, p: Pos, k: int)
    requires 0 <= k <= 8
  {
    OnlyOpening(a, b, rows, cols) && NoMineOpened(b, rows, cols) &&
    changed == RevealedSet(b, rows, cols) - RevealedSet(a, rows, cols) &&
    forall k' :: 0 <= k' < k ==> ChordSettled(b, rows, cols, Nb(p, k'))
  }

  /** Opening more cells keeps the chord's progress, as long as no mine is opened. */
  lemma ChordingAfter(a: seq<seq<Cell>>, b: seq<seq<Cell>>, c: seq<seq<Cell>>, rows: int, cols: int,
                      changed: set<Pos>, changed': set<Pos>, p: Pos, k: int)
    requires 0 <= k < 8 && Chording(a, b, rows, cols, changed, p, k) && OnlyOpening(b, c, rows, cols) && NoMineOpened(c, rows, cols)
    requires changed' == changed + (RevealedSet(c, rows, cols) - RevealedSet(b, rows, cols))
    requires ChordSettled(c, rows, cols, Nb(p, k))
    ensures Chording(a, c, rows, cols, changed', p, k + 1)
  {
    OnlyOpeningTransitive(a, b, c, rows, cols);
    OnlyOpeningKeeps(a, b, rows, cols);
    OnlyOpeningKeeps(b, c, rows, cols);
  }

  /**
   * One neighbour of the chord: a closed cell without a flag is opened;
   * a mine ends the chord (`exploded`), a 0 is flooded from.
   */
  method ChordNeighbor(gs: GameState, ghost b0: seq<seq<Cell>>, changed: set<Pos>, p: Pos, k: int)
    returns (changed': set<Pos>, exploded: bool)
    requires gs.Valid() && gs.Counted() && 0 <= k < 8 && Chording(b0, gs.board, gs.rows, gs.cols, changed, p, k)
    modifies gs`board, gs`revealed
    ensures gs.Valid() && gs.Counted()
    ensures !exploded ==> Chording(b0, gs.board, gs.rows, gs.cols, changed', p, k + 1)
    ensures exploded ==> ChordExploded(b0, gs.board, gs.rows, gs.cols, changed', Nb(p, k))
    ensures exploded ==> forall k' :: 0 <= k' < k ==> ChordSettled(gs.board, gs.rows, gs.cols, Nb(p, k'))
  {
    changed', exploded := changed, false;
    var q := Nb(p, k);
    if q.row >= 0 && q.row < gs.rows && q.col >= 0 && q.col < gs.cols {
      var cell := gs.board[q.row][q.col];
      if !cell.isRevealed && !cell.isFlagged {
        if cell.isMine {
          ghost var b1 := gs.board;
          changed' := ChordOpenMine(gs, b0, changed, q);
          forall k' | 0 <= k' < k
            ensures ChordSettled(gs.board, gs.rows, gs.cols, Nb(p, k'))
          {
            ChordSettledStays(b1, gs.board, gs.rows, gs.cols, Nb(p, k'));
          }
          return changed', true;
        }
        changed' := ChordFlood(gs, b0, changed, p, k);
        return;
      }
    }
  }

  /** The chord opened the mine `q`: only openings, `changed` the opened cells, `q` an opened mine. */
  predicate ChordExploded(b0: seq<seq<Cell>>, b: seq<seq<Cell>>, rows: int, cols: int, changed: set<Pos>, q: Pos) {
    OnlyOpening(b0, b, rows, cols) && changed == RevealedSet(b, rows, cols) - RevealedSet(b0, rows, cols) &&
    InGrid(q, rows, cols) && b[q.row][q.col].isMine && b[q.row][q.col].isRevealed
  }

  /** A chord reaching a closed mine without a flag opens it. */
  method ChordOpenMine(gs: GameState, ghost b0: seq<seq<Cell>>, changed: set<Pos>, q: Pos) returns (changed': set<Pos>)
    requires gs.Valid() && gs.Counted() && InGrid(q, gs.rows, gs.cols)
    requires !gs.board[q.row][q.col].isRevealed && gs.board[q.row][q.col].isMine
    requires OnlyOpening(b0, gs.board, gs.rows, gs.cols) && changed == RevealedSet(gs.board, gs.rows, gs.cols) - RevealedSet(b0, gs.rows, gs.cols)
    modifies gs`board, gs`revealed
    ensures gs.Valid() && gs.Counted() && ChordExploded(b0, gs.board, gs.rows, gs.cols, changed', q)
    ensures OnlyOpening(old(gs.board), gs.board, gs.rows, gs.cols)
  {
    ghost var b1 := gs.board;
    OpenCell(gs, q);
    OnlyOpeningTransitive(b0, b1, gs.board, gs.rows, gs.cols);
    OnlyOpeningKeeps(b0, b1, gs.rows, gs.cols);
    changed' := changed + {q};
  }

  /** A chord reaching a closed cell without a flag or a mine opens it and floods from it on 0. */
  method ChordFlood(gs: GameState, ghost b0: seq<seq<Cell>>, changed: set<Pos>, p: Pos, k: int) returns (changed': set<Pos>)
    requires gs.Valid() && gs.Counted() && 0 <= k < 8 && Chording(b0, gs.board, gs.rows, gs.cols, changed, p, k)
    requires InGrid(Nb(p, k), gs.rows, gs.cols) && Openable(gs.board[Nb(p, k).row][Nb(p, k).col])
    modifies gs`board, gs`revealed
    ensures gs.Valid() && gs.Counted() && Chording(b0, gs.board, gs.rows, gs.cols, changed', p, k + 1)
  {
    ghost var b1 := gs.board;
    changed' := OpenAndFlood(gs, Nb(p, k), changed);
    OpenedIsOnlyOpening(b1, gs.board, gs.rows, gs.cols);
    ChordingAfter(b0, b1, gs.board, gs.rows, gs.cols, changed, changed', p, k);
  }

  /**
   * `handleChording` on an opened cell showing n > 0: unless exactly n
   * flags surround it nothing happens; otherwise the chord is played.
   */
  method HandleChording(gs: GameState, playerId: string, p: Pos, loserNickname: string) returns (changed: set<Pos>)
    requires Sound(gs) && !gs.gameOver && !gs.gameWon && InGrid(p, gs.rows, gs.cols)
    modifies gs`board, gs`revealed, gs`gameOver, gs`gameWon, gs`loserPlayerId, gs`loserNickname
    ensures Sound(gs)
    ensures FlagsAround(old(gs.board), gs.rows, gs.cols, p, 8) != old(gs.board[p.row][p.col].neighborMines) ==>
              unchanged(gs) && changed == {}
    ensures FlagsAround(old(gs.board), gs.rows, gs.cols, p, 8) == old(gs.board[p.row][p.col].neighborMines) ==>
              Chorded(old(gs.board), gs, changed, p, playerId, loserNickname, old(gs.loserPlayerId), old(gs.loserNickname))
  {
    var flagCount := CountFlagsAround(gs, p);
    if flagCount != gs.board[p.row][p.col].neighborMines {
      return {};
    }
    changed := Chord(gs, playerId, p, loserNickname);
  }

  /**
   * What a chord around `p` did to the game: only openings, `changed` the
   * opened cells; either the game goes on with every neighbour opened or
   * flagged and the win checked, or it is over with an opened mine next
   * to `p`, every neighbour visited before it opened or flagged, and the
   * player recorded as the loser if a nickname was found.
   */
  ghost predicate Chorded(b0: seq<seq<Cell>>, gs: GameState, changed: set<Pos>, p: Pos, playerId: string, loserNickname: string,
                          loserPlayerId0: string, loserNickname0: string)
    reads gs
  {
    OnlyOpening(b0, gs.board, gs.rows, gs.cols) &&
    changed == RevealedSet(gs.board, gs.rows, gs.cols) - RevealedSet(b0, gs.rows, gs.cols) &&
    (!gs.gameOver ==>
       (forall k :: 0 <= k < 8 ==> ChordSettled(gs.board, gs.rows, gs.cols, Nb(p, k))) && gs.gameWon == gs.CheckWin() &&
       gs.loserPlayerId == loserPlayerId0 && gs.loserNickname == loserNickname0) &&
    (gs.gameOver ==>
       !gs.gameWon &&
       (exists k :: 0 <= k < 8 && MineAt(gs.board, gs.rows, gs.cols, Nb(p, k)) && gs.board[Nb(p, k).row][Nb(p, k).col].isRevealed &&
          forall k' :: 0 <= k' < k ==> ChordSettled(gs.board, gs.rows, gs.cols, Nb(p, k'))) &&
       (if loserNickname != "" then gs.loserPlayerId == playerId && gs.loserNickname == loserNickname
        else gs.loserPlayerId == loserPlayerId0 && gs.loserNickname == loserNickname0))
  }

  /** The opening loop of `handleChording`. */
  method Chord(gs: GameState, playerId: string, p: Pos, loserNickname: string) returns (changed: set<Pos>)
    requires Sound(gs) && !gs.gameOver && !gs.gameWon
    modifies gs`board, gs`revealed, gs`gameOver, gs`gameWon, gs`loserPlayerId, gs`loserNickname
    ensures Sound(gs)
    ensures Chorded(old(gs.board), gs, changed, p, playerId, loserNickname, old(gs.loserPlayerId), old(gs.loserNickname))
  {
    ghost var b0 := gs.board;
    changed := {};
    var k := 0;
    while k < 8
      invariant 0 <= k <= 8 && gs.Valid() && gs.Counted() && Chording(b0, gs.board, gs.rows, gs.cols, changed, p, k)
      invariant !gs.gameOver && !gs.gameWon && gs.loserPlayerId == old(gs.loserPlayerId) && gs.loserNickname == old(gs.loserNickname)
    {
      var exploded;
      changed, exploded := ChordNeighbor(gs, b0, changed, p, k);
      if exploded {
        ChordExplosion(gs, b0, playerId, loserNickname, Nb(p, k));
        return;
      }
      k := k + 1;
    }
    if gs.CheckWin() {
      gs.gameWon := true;
    }
    SoundAfterOpening(b0, gs.board, gs.rows, gs.cols, old(gs.revealed), gs.revealed, false, false, gs.hintsUsed, gs.hintsUsed);
  }

  /** A chord that opened the mine `q`: the game is over and the loser recorded. */
  method ChordExplosion(gs: GameState, ghost b0: seq<seq<Cell>>, playerId: string, loserNickname: string, ghost q: Pos)
    requires gs.Valid() && gs.Counted() && OnlyOpening(b0, gs.board, gs.rows, gs.cols)
    requires SoundValues(b0, gs.rows, gs.cols, |RevealedSet(b0, gs.rows, gs.cols)|, false, gs.hintsUsed)
    requires InGrid(q, gs.rows, gs.cols) && gs.board[q.row][q.col].isMine && gs.board[q.row][q.col].isRevealed
    modifies gs`gameOver, gs`loserPlayerId, gs`loserNickname
    ensures Sound(gs) && gs.gameOver
    ensures loserNickname != "" ==> gs.loserPlayerId == playerId && gs.loserNickname == loserNickname
    ensures loserNickname == "" ==> gs.loserPlayerId == old(gs.loserPlayerId) && gs.loserNickname == old(gs.loserNickname)
  {
    SoundAfterOpening(b0, gs.board, gs.rows, gs.cols, |RevealedSet(b0, gs.rows, gs.cols)|, gs.revealed, false, true, gs.hintsUsed, gs.hintsUsed);
    gs.gameOver := true;
    SetLoserInfo(gs, playerId, loserNickname);
  }

  // ---------------------------------------------------------------------
  // handleCellReveal

  /** The first click of a classic game with quick start and no seed chosen by the players. */
  predicate QuickFirst(gameMode: string, quickStart: bool, customSeed: bool, revealed: int) {
    gameMode == "classic" && revealed == 0 && quickStart && !customSeed
  }

  /** The modes that place their mines as the cells are opened. */
  predicate PlacesOnClick(gameMode: string) {
    gameMode == "training" || gameMode == "fair"
  }

  /** Nothing the players see changed, and no mine moved under an opened cell. */
  predicate Unseen(a: seq<seq<Cell>>, b: seq<seq<Cell>>, rows: int, cols: int)
    requires IsGrid(a, rows, cols) && IsGrid(b, rows, cols)
  {
    SameSurface(a, b, rows, cols) &&
    forall r, c :: 0 <= r < rows && 0 <= c < cols && a[r][c].isRevealed ==> b[r][c].isMine == a[r][c].isMine
  }

  /** Moving mines unseen and recounting keeps a running game sound. */
  lemma UnseenKeepsSound(a: seq<seq<Cell>>, b: seq<seq<Cell>>, rows: int, cols: int, revealed: int, hintsUsed: int)
    requires SoundValues(a, rows, cols, revealed, false, hintsUsed) && IsGrid(b, rows, cols)
    requires Unseen(a, b, rows, cols) && Consistent(b, rows, cols)
    ensures SoundValues(b, rows, cols, revealed, false, hintsUsed)
  {
    SameSurfaceRevealed(a, b, rows, cols);
  }

  /** With no mine in the block around it and every number right, a cell is no mine and shows 0. */
  lemma ClearBlockShowsZero(b: seq<seq<Cell>>, rows: int, cols: int, p: Pos)
    requires IsGrid(b, rows, cols) && InGrid(p, rows, cols) && BlockClear(b, rows, cols, p) && Consistent(b, rows, cols)
    ensures !b[p.row][p.col].isMine && b[p.row][p.col].neighborMines == 0
  {
    forall q | Adjacent(p, q)
      ensures !MineAt(b, rows, cols, q)
    {
      if InGrid(q, rows, cols) {
        assert InBlock(Pos(q.row, q.col), p);
      }
    }
    NoMinesAroundMeansNoAdjacentMine(b, rows, cols, p);
    assert InBlock(Pos(p.row, p.col), p);
  }

  /** The first opening starts the room's clock, unless it already runs. */
  method StartClock(r: Room, isFirstClick: bool, now: int)
    modifies r`startTime
    ensures r.startTime == if isFirstClick && old(r.startTime).None? then Some(now) else old(r.startTime)
  {
    if isFirstClick && r.startTime.None? {
      r.startTime := Some(now);
    }
  }

  /** The classic quick start: the block around the first click is cleared, unseen. */
  method QuickStartPrep(gs: GameState, p: Pos, draw: nat -> Pos)
    requires Sound(gs) && !gs.gameOver && gs.revealed == 0
    modifies gs`board
    ensures Sound(gs) && Unseen(old(gs.board), gs.board, gs.rows, gs.cols) && BlockClear(gs.board, gs.rows, gs.cols, p)
  {
    ghost var b0 := gs.board;
    NothingOpened(gs.board, gs.rows, gs.cols);
    gs.EnsureFirstClickSafe(p, draw);
    UnseenKeepsSound(b0, gs.board, gs.rows, gs.cols, gs.revealed, gs.hintsUsed);
  }

  /** The training and fair modes: the mines are placed around the click, unseen, and the changed cells reported. */
  method DynamicPrep(gs: GameState, quickStart: bool, p: Pos, draw: nat -> Pos, shape: Option<seq<seq<bool>>>)
    returns (changed: set<Pos>)
    requires Sound(gs) && !gs.gameOver && (shape.Some? ==> IsGrid(shape.value, gs.rows, gs.cols))
    modifies gs`board
    ensures Sound(gs) && Unseen(old(gs.board), gs.board, gs.rows, gs.cols)
    ensures forall q :: q in changed ==> InGrid(q, gs.rows, gs.cols)
  {
    ghost var b0 := gs.board;
    var g := DetermineMinePlacement(gs, quickStart, p, draw, shape);
    changed := HandleDynamicMinePlacement(gs, g);
    ReplacedKeeps(b0, g, gs.rows, gs.cols);
    UnseenKeepsSound(b0, gs.board, gs.rows, gs.cols, gs.revealed, gs.hintsUsed);
  }

  /**
   * The part of `handleCellReveal` before the clicked cell is opened, but
   * for the clock: a classic quick start clears the block around the
   * click; the training and fair modes place their mines, the cells that
   * changed being reported. Nothing the players see changes and no mine
   * moves under an opened cell.
   */
  method PrepareMines(gs: GameState, gameMode: string, quickStart: bool, p: Pos, draw: nat -> Pos, shape: Option<seq<seq<bool>>>)
    returns (changed: set<Pos>)
    requires Sound(gs) && !gs.gameOver && InGrid(p, gs.rows, gs.cols)
    requires shape.Some? ==> IsGrid(shape.value, gs.rows, gs.cols)
    modifies gs`board
    ensures Sound(gs) && Unseen(old(gs.board), gs.board, gs.rows, gs.cols)
    ensures QuickFirst(gameMode, quickStart, gs.customSeed, gs.revealed) ==> BlockClear(gs.board, gs.rows, gs.cols, p)
    ensures !QuickFirst(gameMode, quickStart, gs.customSeed, gs.revealed) && !PlacesOnClick(gameMode) ==>
              gs.board == old(gs.board) && changed == {p}
    ensures forall q :: q in changed ==> InGrid(q, gs.rows, gs.cols)
  {
    var isFirstClick := gs.revealed == 0;
    if gameMode == "classic" && isFirstClick && quickStart && !gs.customSeed {
      QuickStartPrep(gs, p, draw);
    }
    if gameMode == "training" || gameMode == "fair" {
      changed := DynamicPrep(gs, quickStart, p, draw, shape);
    } else {
      changed := {p};
    }
  }

  /**
   * What opening the clicked cell did: only openings, the opened cells
   * added to `changed`; the clicked cell is open; the game is over
   * exactly when it is a mine, and then nothing else was opened;
   * otherwise the flood closed and the win is checked.
   */
  predicate Clicked(b0: seq<seq<Cell>>, b: seq<seq<Cell>>, rows: int, cols: int, gameOver: bool, gameWon: bool, winNow: bool,
                    p: Pos, changed: set<Pos>, changed': set<Pos>)
  {
    OnlyOpening(b0, b, rows, cols) && InGrid(p, rows, cols) && b[p.row][p.col].isRevealed &&
    changed' == changed + (RevealedSet(b, rows, cols) - RevealedSet(b0, rows, cols)) &&
    (gameOver <==> b[p.row][p.col].isMine) &&
    (gameOver ==> b == Set(b0, p, b0[p.row][p.col].(isRevealed := true)) && !gameWon) &&
    (!gameOver ==>
       Opened(b0, b, rows, cols) && FloodClosed(b0, b, rows, cols) &&
       (b[p.row][p.col].neighborMines == 0 ==> AllAroundSettled(b, rows, cols, p)) && gameWon == winNow)
  }

  /**
   * The opening step of `handleCellReveal`: the cell is opened and
   * counted; a mine explodes (`handleMineExplosion`), any other cell is
   * flooded from if it shows 0 and the win is checked.
   */
  method RevealClicked(gs: GameState, playerId: string, p: Pos, loserNickname: string, gameMode: string, changed: set<Pos>)
    returns (changed': set<Pos>)
    requires Sound(gs) && !gs.gameOver && !gs.gameWon && InGrid(p, gs.rows, gs.cols)
    requires !gs.board[p.row][p.col].isRevealed && !gs.board[p.row][p.col].isFlagged
    modifies gs`board, gs`revealed, gs`gameOver, gs`gameWon, gs`loserPlayerId, gs`loserNickname, gs`cellHints
    ensures Sound(gs) && Clicked(old(gs.board), gs.board, gs.rows, gs.cols, gs.gameOver, gs.gameWon, gs.CheckWin(), p, changed, changed')
    ensures gs.gameOver && loserNickname != "" ==> gs.loserPlayerId == playerId && gs.loserNickname == loserNickname
    ensures !(gs.gameOver && loserNickname != "") ==> gs.loserPlayerId == old(gs.loserPlayerId) && gs.loserNickname == old(gs.loserNickname)
    ensures !(gs.gameOver && gameMode == "fair") ==> gs.cellHints == old(gs.cellHints)
  {
    if gs.board[p.row][p.col].isMine {
      ghost var b0 := gs.board;
      changed' := ExplodeClicked(gs, playerId, p, loserNickname, gameMode, changed);
      ExplodedIsClicked(b0, gs.board, gs.rows, gs.cols, gs.gameWon, gs.CheckWin(), p, changed);
    } else {
      changed' := FloodClicked(gs, p, changed);
    }
  }

  /** The clicked cell is a mine: it is opened and counted, and the game ends. */
  method ExplodeClicked(gs: GameState, playerId: string, p: Pos, loserNickname: string, gameMode: string, changed: set<Pos>)
    returns (changed': set<Pos>)
    requires Sound(gs) && !gs.gameOver && !gs.gameWon && InGrid(p, gs.rows, gs.cols)
    requires !gs.board[p.row][p.col].isRevealed && gs.board[p.row][p.col].isMine
    modifies gs`board, gs`revealed, gs`gameOver, gs`loserPlayerId, gs`loserNickname, gs`cellHints
    ensures Sound(gs) && MineOpened(old(gs.board), gs.board, gs.rows, gs.cols, p) && gs.gameOver && changed' == changed + {p}
    ensures loserNickname != "" ==> gs.loserPlayerId == playerId && gs.loserNickname == loserNickname
    ensures loserNickname == "" ==> gs.loserPlayerId == old(gs.loserPlayerId) && gs.loserNickname == old(gs.loserNickname)
    ensures gameMode != "fair" ==> gs.cellHints == old(gs.cellHints)
  {
    OpenMine(gs, p);
    changed' := changed + {p};
    HandleMineExplosion(gs, playerId, loserNickname, gameMode);
  }

  /** `b` is `a` with only the closed mine `p` opened. */
  predicate MineOpened(a: seq<seq<Cell>>, b: seq<seq<Cell>>, rows: int, cols: int, p: Pos) {
    IsGrid(a, rows, cols) && InGrid(p, rows, cols) && a[p.row][p.col].isMine && !a[p.row][p.col].isRevealed &&
    b == Set(a, p, a[p.row][p.col].(isRevealed := true)) && OnlyOpening(a, b, rows, cols) &&
    RevealedSet(b, rows, cols) == RevealedSet(a, rows, cols) + {p}
  }

  /** Opening the clicked mine and counting it: the invariant holds of a game that is over. */
  method OpenMine(gs: GameState, p: Pos)
    requires Sound(gs) && !gs.gameOver && InGrid(p, gs.rows, gs.cols)
    requires !gs.board[p.row][p.col].isRevealed && gs.board[p.row][p.col].isMine
    modifies gs`board, gs`revealed
    ensures SoundValues(gs.board, gs.rows, gs.cols, gs.revealed, true, gs.hintsUsed)
    ensures MineOpened(old(gs.board), gs.board, gs.rows, gs.cols, p)
  {
    ghost var b0 := gs.board;
    OpenCell(gs, p);
    SoundAfterOpening(b0, gs.board, gs.rows, gs.cols, old(gs.revealed), gs.revealed, false, true, gs.hintsUsed, gs.hintsUsed);
  }

  /** Opening a closed mine alone and ending the game is a click's outcome. */
  lemma ExplodedIsClicked(b0: seq<seq<Cell>>, b: seq<seq<Cell>>, rows: int, cols: int, gameWon: bool, winNow: bool, p: Pos, changed: set<Pos>)
    requires MineOpened(b0, b, rows, cols, p) && !gameWon
    ensures Clicked(b0, b, rows, cols, true, gameWon, winNow, p, changed, changed + {p})
  {
    assert p !in RevealedSet(b0, rows, cols);
  }

  /** The clicked cell is no mine: it is opened and counted, flooded from on 0, and the win checked. */
  method FloodClicked(gs: GameState, p: Pos, changed: set<Pos>) returns (changed': set<Pos>)
    requires Sound(gs) && !gs.gameOver && !gs.gameWon && InGrid(p, gs.rows, gs.cols)
    requires Openable(gs.board[p.row][p.col])
    modifies gs`board, gs`revealed, gs`gameWon
    ensures Sound(gs) && Clicked(old(gs.board), gs.board, gs.rows, gs.cols, gs.gameOver, gs.gameWon, gs.CheckWin(), p, changed, changed')
  {
    ghost var b0 := gs.board;
    changed' := OpenAndFlood(gs, p, changed);
    if gs.CheckWin() {
      gs.gameWon := true;
    }
    OpenedIsOnlyOpening(b0, gs.board, gs.rows, gs.cols);
    SoundAfterOpening(b0, gs.board, gs.rows, gs.cols, old(gs.revealed), gs.revealed, false, false, gs.hintsUsed, gs.hintsUsed);
  }

  /**
   * What a click on a closed cell without a flag did, from before the
   * mines were placed: the flags stay, no mine moved under a cell opened
   * before, those cells stay open, every cell opened is in `changed`
   * (the clicked one included), the clicked cell is open and the game is
   * over exactly when it is a mine; otherwise a 0 left no closed safe
   * neighbour and the win is checked.
   */
  ghost predicate RevealOutcome(b0: seq<seq<Cell>>, gs: GameState, p: Pos, changed: set<Pos>)
    reads gs
  {
    IsGrid(b0, gs.rows, gs.cols) && IsGrid(gs.board, gs.rows, gs.cols) && InGrid(p, gs.rows, gs.cols) &&
    FlagsKept(b0, gs.board, gs.rows, gs.cols) &&
    (forall r, c :: 0 <= r < gs.rows && 0 <= c < gs.cols && b0[r][c].isRevealed ==>
       gs.board[r][c].isRevealed && gs.board[r][c].isMine == b0[r][c].isMine) &&
    RevealedSet(gs.board, gs.rows, gs.cols) - RevealedSet(b0, gs.rows, gs.cols) <= changed && p in changed &&
    (forall q :: q in changed ==> InGrid(q, gs.rows, gs.cols)) &&
    gs.board[p.row][p.col].isRevealed && (gs.gameOver <==> gs.board[p.row][p.col].isMine) &&
    (gs.gameOver ==> !gs.gameWon) &&
    (!gs.gameOver ==>
       (gs.board[p.row][p.col].neighborMines == 0 ==> AllAroundSettled(gs.board, gs.rows, gs.cols, p)) &&
       gs.gameWon == gs.CheckWin())
  }

  /** After a classic quick start: the game goes on, and the clicked cell shows 0 with the block around it clear and settled. */
  ghost predicate QuickOutcome(gs: GameState, p: Pos)
    reads gs
  {
    IsGrid(gs.board, gs.rows, gs.cols) && InGrid(p, gs.rows, gs.cols) && !gs.gameOver &&
    BlockClear(gs.board, gs.rows, gs.cols, p) && gs.board[p.row][p.col].neighborMines == 0 &&
    AllAroundSettled(gs.board, gs.rows, gs.cols, p)
  }

  /** In a classic game without a quick start: no mine moved and exactly the opened cells changed. */
  ghost predicate FixedOutcome(b0: seq<seq<Cell>>, gs: GameState, changed: set<Pos>)
    reads gs
  {
    IsGrid(b0, gs.rows, gs.cols) && IsGrid(gs.board, gs.rows, gs.cols) &&
    SameMines(b0, gs.board, gs.rows, gs.cols) &&
    changed == RevealedSet(gs.board, gs.rows, gs.cols) - RevealedSet(b0, gs.rows, gs.cols)
  }

  /**
   * Placing unseen and then opening the clicked cell gives the outcome of
   * the click; a cleared block makes it a 0 that cannot explode, and a
   * board left as it was keeps its mines.
   */
  lemma RevealComposed(b0: seq<seq<Cell>>, b1: seq<seq<Cell>>, gs: GameState, p: Pos, c1: set<Pos>, changed: set<Pos>,
                       quick: bool, fixed: bool)
    requires IsGrid(b0, gs.rows, gs.cols) && IsGrid(b1, gs.rows, gs.cols) && Unseen(b0, b1, gs.rows, gs.cols)
    requires InGrid(p, gs.rows, gs.cols) && !b0[p.row][p.col].isRevealed
    requires forall q :: q in c1 ==> InGrid(q, gs.rows, gs.cols)
    requires Clicked(b1, gs.board, gs.rows, gs.cols, gs.gameOver, gs.gameWon, gs.CheckWin(), p, c1, changed)
    requires quick ==> Consistent(b1, gs.rows, gs.cols) && BlockClear(b1, gs.rows, gs.cols, p)
    requires fixed ==> b1 == b0 && c1 == {p}
    ensures RevealOutcome(b0, gs, p, changed)
    ensures quick ==> QuickOutcome(gs, p)
    ensures fixed ==> FixedOutcome(b0, gs, changed)
  {
    OnlyOpeningKeeps(b1, gs.board, gs.rows, gs.cols);
    SameSurfaceRevealed(b0, b1, gs.rows, gs.cols);
    assert p in RevealedSet(gs.board, gs.rows, gs.cols) - RevealedSet(b0, gs.rows, gs.cols);
    if quick {
      ClearBlockShowsZero(b1, gs.rows, gs.cols, p);
    }
  }

  /**
   * `handleCellReveal` on a closed cell without a flag, once the clock is
   * started: the mines are prepared and the cell is opened. After a
   * classic quick start the cell is a 0 and the game goes on; in a
   * classic game without it no mine moves.
   */
  method RevealClosed(gs: GameState, gameMode: string, quickStart: bool, playerId: string, p: Pos, loserNickname: string,
                      draw: nat -> Pos, shape: Option<seq<seq<bool>>>) returns (changed: set<Pos>)
    requires Sound(gs) && !gs.gameOver && !gs.gameWon && InGrid(p, gs.rows, gs.cols)
    requires !gs.board[p.row][p.col].isRevealed && !gs.board[p.row][p.col].isFlagged
    requires shape.Some? ==> IsGrid(shape.value, gs.rows, gs.cols)
    modifies gs`board, gs`revealed, gs`gameOver, gs`gameWon, gs`loserPlayerId, gs`loserNickname, gs`cellHints
    ensures Sound(gs) && RevealOutcome(old(gs.board), gs, p, changed)
    ensures QuickFirst(gameMode, quickStart, gs.customSeed, old(gs.revealed)) ==> QuickOutcome(gs, p)
    ensures !QuickFirst(gameMode, quickStart, gs.customSeed, old(gs.revealed)) && !PlacesOnClick(gameMode) ==>
              FixedOutcome(old(gs.board), gs, changed)
    ensures gs.gameOver && loserNickname != "" ==> gs.loserPlayerId == playerId && gs.loserNickname == loserNickname
    ensures !(gs.gameOver && loserNickname != "") ==> gs.loserPlayerId == old(gs.loserPlayerId) && gs.loserNickname == old(gs.loserNickname)
    ensures !(gs.gameOver && gameMode == "fair") ==> gs.cellHints == old(gs.cellHints)
  {
    ghost var b0 := gs.board;
    ghost var quick := QuickFirst(gameMode, quickStart, gs.customSeed, gs.revealed);
    ghost var fixed := !quick && !PlacesOnClick(gameMode);
    changed := PrepareMines(gs, gameMode, quickStart, p, draw, shape);
    ghost var b1 := gs.board;
    ghost var c1 := changed;
    changed := RevealClicked(gs, playerId, p, loserNickname, gameMode, changed);
    RevealComposed(b0, b1, gs, p, c1, changed, quick, fixed);
  }

  /**
   * `handleCellReveal`: a flagged cell is left alone; an opened cell
   * showing n > 0 in a room with chording is chorded; any other opened
   * cell is left alone; a closed cell is opened (RevealClosed).
   */
  method HandleCellReveal(r: Room, gs: GameState, playerId: string, p: Pos, loserNickname: string, now: int,
                          draw: nat -> Pos, shape: Option<seq<seq<bool>>>) returns (changed: set<Pos>)
    requires r.gameState == gs && r.Valid() && Sound(gs) && !gs.gameOver && !gs.gameWon && InGrid(p, gs.rows, gs.cols)
    requires shape.Some? ==> IsGrid(shape.value, gs.rows, gs.cols)
    modifies r`startTime, gs`board, gs`revealed, gs`gameOver, gs`gameWon, gs`loserPlayerId, gs`loserNickname, gs`cellHints
    ensures r.Valid() && Sound(gs)
    ensures var cell := old(gs.board[p.row][p.col]);
            cell.isFlagged || (cell.isRevealed && !(r.chording && cell.neighborMines > 0)) ==>
              unchanged(gs) && r.startTime == old(r.startTime) && changed == {}
    ensures var cell := old(gs.board[p.row][p.col]);
            !cell.isFlagged && cell.isRevealed && r.chording && cell.neighborMines > 0 ==>
              r.startTime == old(r.startTime) && gs.cellHints == old(gs.cellHints) &&
              (FlagsAround(old(gs.board), gs.rows, gs.cols, p, 8) != cell.neighborMines ==> unchanged(gs) && changed == {}) &&
              (FlagsAround(old(gs.board), gs.rows, gs.cols, p, 8) == cell.neighborMines ==>
                 Chorded(old(gs.board), gs, changed, p, playerId, loserNickname, old(gs.loserPlayerId), old(gs.loserNickname)))
    ensures var cell := old(gs.board[p.row][p.col]);
            !cell.isFlagged && !cell.isRevealed ==>
              RevealOutcome(old(gs.board), gs, p, changed) &&
              r.startTime == (if old(gs.revealed) == 0 && old(r.startTime).None? then Some(now) else old(r.startTime)) &&
              (QuickFirst(r.gameMode, r.quickStart, gs.customSeed, old(gs.revealed)) ==> QuickOutcome(gs, p)) &&
              (!QuickFirst(r.gameMode, r.quickStart, gs.customSeed, old(gs.revealed)) && !PlacesOnClick(r.gameMode) ==>
                 FixedOutcome(old(gs.board), gs, changed)) &&
              (!(gs.gameOver && r.gameMode == "fair") ==> gs.cellHints == old(gs.cellHints))
  {
    var cell := gs.board[p.row][p.col];
    if cell.isFlagged {
      return {};
    }
    if r.chording && cell.isRevealed && cell.neighborMines > 0 {
      changed := HandleChording(gs, playerId, p, loserNickname);
      return;
    }
    if cell.isRevealed {
      return {};
    }
    StartClock(r, gs.revealed == 0, now);
    changed := RevealClosed(gs, r.gameMode, r.quickStart, playerId, p, loserNickname, draw, shape);
  }

  // ---------------------------------------------------------------------
  // HandleCellClick

  /** A click on a cell as the client sends it: its position and whether it toggles a flag. */
  datatype CellClick = CellClick(row: int, col: int, flag: bool)

  /** The clicked cell and the flag owners are those ToggleFlag gives, under the key row*cols+col. */
  ghost predicate Toggled(b0: seq<seq<Cell>>, info0: map<int, FlagInfo>, gs: GameState, p: Pos, playerId: string, color: string, now: int)
    reads gs
  {
    IsGrid(b0, gs.rows, gs.cols) && InGrid(p, gs.rows, gs.cols) &&
    var t := ToggleFlag(b0[p.row][p.col], info0, p.row * gs.cols + p.col, playerId, color, now);
    gs.board == Set(b0, p, t.cell) && gs.flagSetInfo == t.info
  }

  /**
   * What a reveal click did: nothing on a flag, nor on an opened cell that
   * is not chorded; on an opened number in a room with chording, nothing
   * when the flags around it do not match it and a chord when they do;
   * the outcome of the click on a closed cell.
   */
  twostate predicate RevealClickOutcome(gs: GameState, p: Pos, changed: set<Pos>, chording: bool, playerId: string, loserNickname: string)
    reads gs
  {
    var b0 := old(gs.board);
    IsGrid(b0, gs.rows, gs.cols) && InGrid(p, gs.rows, gs.cols) &&
    var cell := b0[p.row][p.col];
    (cell.isFlagged || (cell.isRevealed && !(chording && cell.neighborMines > 0)) ==> unchanged(gs) && changed == {}) &&
    (!cell.isFlagged && cell.isRevealed && chording && cell.neighborMines > 0 ==>
       gs.cellHints == old(gs.cellHints) &&
       (FlagsAround(b0, gs.rows, gs.cols, p, 8) != cell.neighborMines ==> unchanged(gs) && changed == {}) &&
       (FlagsAround(b0, gs.rows, gs.cols, p, 8) == cell.neighborMines ==>
          Chorded(b0, gs, changed, p, playerId, loserNickname, old(gs.loserPlayerId), old(gs.loserNickname)))) &&
    (!cell.isFlagged && !cell.isRevealed ==> RevealOutcome(b0, gs, p, changed))
  }

  /** The colour `HandleCellClick` finds for a player: the room's player's, or none. */
  function PlayerColor(player: Option<RoomPlayer>): (color: string)
    ensures player.Some? ==> color == player.value.color
    ensures player.None? ==> color == ""
  {
    if player.Some? then player.value.color else ""
  }

  /** A click on a cell of a running game: a flag toggle or a reveal. */
  method ClickOnBoard(r: Room, gs: GameState, playerId: string, p: Pos, flag: bool, ws: Option<string>, now: int,
                      draw: nat -> Pos, shape: Option<seq<seq<bool>>>) returns (changed: set<Pos>)
    requires r.gameState == gs && r.Valid() && Sound(gs) && !gs.gameOver && !gs.gameWon && InGrid(p, gs.rows, gs.cols)
    requires shape.Some? ==> IsGrid(shape.value, gs.rows, gs.cols)
    modifies r`startTime, gs`board, gs`revealed, gs`gameOver, gs`gameWon, gs`loserPlayerId, gs`loserNickname, gs`cellHints, gs`flagSetInfo
    ensures r.Valid() && Sound(gs)
    ensures flag ==> changed == {} && r.startTime == old(r.startTime) &&
                     Toggled(old(gs.board), old(gs.flagSetInfo), gs, p, playerId, PlayerColor(r.GetPlayer(playerId)), now)
    ensures !flag ==> gs.flagSetInfo == old(gs.flagSetInfo) &&
                      RevealClickOutcome(gs, p, changed, r.chording, playerId, LoserNicknameOf(ws, r.GetPlayer(playerId)))
  {
    var player := r.GetPlayer(playerId);
    if flag {
      FlagClick(gs, playerId, p, PlayerColor(player), now);
      changed := {};
    } else {
      changed := RevealClick(r, gs, playerId, p, LoserNicknameOf(ws, player), now, draw, shape);
    }
  }

  /** The flag branch of `HandleCellClick`. */
  method FlagClick(gs: GameState, playerId: string, p: Pos, color: string, now: int)
    requires Sound(gs) && InGrid(p, gs.rows, gs.cols)
    modifies gs`board, gs`flagSetInfo
    ensures Sound(gs) && Toggled(old(gs.board), old(gs.flagSetInfo), gs, p, playerId, color, now)
  {
    HandleFlagToggle(gs, playerId, p, color, now);
  }

  /** The reveal branch of `HandleCellClick`. */
  method RevealClick(r: Room, gs: GameState, playerId: string, p: Pos, loserNickname: string, now: int,
                     draw: nat -> Pos, shape: Option<seq<seq<bool>>>) returns (changed: set<Pos>)
    requires r.gameState == gs && r.Valid() && Sound(gs) && !gs.gameOver && !gs.gameWon && InGrid(p, gs.rows, gs.cols)
    requires shape.Some? ==> IsGrid(shape.value, gs.rows, gs.cols)
    modifies r`startTime, gs`board, gs`revealed, gs`gameOver, gs`gameWon, gs`loserPlayerId, gs`loserNickname, gs`cellHints
    ensures r.Valid() && Sound(gs) && RevealClickOutcome(gs, p, changed, r.chording, playerId, loserNickname)
  {
    changed := HandleCellReveal(r, gs, playerId, p, loserNickname, now, draw, shape);
  }

  /**
   * `HandleCellClick`: a click on a finished game does nothing; a
   * position off the board is an error; otherwise the click toggles a
   * flag in the player's colour or reveals the cell, the loser's nickname
   * being the one `setLoserInfo` would find.
   */
  method HandleCellClick(r: Room, playerId: string, click: CellClick, ws: Option<string>, now: int,
                         draw: nat -> Pos, shape: Option<seq<seq<bool>>>) returns (err: Option<string>, changed: set<Pos>)
    requires r.Valid() && Sound(r.gameState)
    requires shape.Some? ==> IsGrid(shape.value, r.gameState.rows, r.gameState.cols)
    modifies r`startTime, r.gameState`board, r.gameState`revealed, r.gameState`gameOver, r.gameState`gameWon
    modifies r.gameState`loserPlayerId, r.gameState`loserNickname, r.gameState`cellHints, r.gameState`flagSetInfo
    ensures r.Valid() && Sound(r.gameState)
    ensures old(r.gameState.gameOver || r.gameState.gameWon) ==>
              err == None && changed == {} && unchanged(r.gameState) && r.startTime == old(r.startTime)
    ensures !old(r.gameState.gameOver || r.gameState.gameWon) && !InGrid(Pos(click.row, click.col), r.rows, r.cols) ==>
              err == Some("invalid coordinates") && changed == {} && unchanged(r.gameState) && r.startTime == old(r.startTime)
    ensures !old(r.gameState.gameOver || r.gameState.gameWon) && InGrid(Pos(click.row, click.col), r.rows, r.cols) ==>
              err == None &&
              (click.flag ==>
                 changed == {} && r.startTime == old(r.startTime) &&
                 Toggled(old(r.gameState.board), old(r.gameState.flagSetInfo), r.gameState, Pos(click.row, click.col),
                         playerId, PlayerColor(r.GetPlayer(playerId)), now)) &&
              (!click.flag ==>
                 r.gameState.flagSetInfo == old(r.gameState.flagSetInfo) &&
                 RevealClickOutcome(r.gameState, Pos(click.row, click.col), changed, r.chording, playerId,
                                    LoserNicknameOf(ws, r.GetPlayer(playerId))))
  {
    var gs := r.gameState;
    if gs.gameOver || gs.gameWon {
      return None, {};
    }
    if click.row < 0 || click.row >= gs.rows || click.col < 0 || click.col >= gs.cols {
      return Some("invalid coordinates"), {};
    }
    err := None;
    changed := ClickOnBoard(r, gs, playerId, Pos(click.row, click.col), click.flag, ws, now, draw, shape);
  }
}

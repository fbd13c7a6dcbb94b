/**
 * What the server sends about a board: the one-byte type of each changed
 * cell (`getCellType`), the list of updates for the cells a move changed
 * (`CollectCellUpdates`) and the schema-driven game-state message
 * (`EncodeGameStateProtobuf`).
 */
module CellUpdates {
  import opened Common
  import opened Grids
  import opened GameStates
  import opened CellTypes
  import BinaryMessages
  import ProtobufMessages

  /** Go's conversion `byte(n)`: the low eight bits of `n`. */
  function ByteOf(n: int): byte {
    (n % 256) as byte
  }

  /** The type of the first hint given for (row, col), if any. */
  function FirstHintAt(hints: seq<CellHint>, row: int, col: int): (t: Option<string>)
    ensures t.Some? <==> exists i :: 0 <= i < |hints| && hints[i].row == row && hints[i].col == col
  {
    if hints == [] then None
    else if hints[0].row == row && hints[0].col == col then Some(hints[0].hintType)
    else
      var t := FirstHintAt(hints[1..], row, col);
      assert forall i :: 1 <= i < |hints| ==> hints[i] == hints[1..][i - 1];
      t
  }

  /** The byte a hint's type is shown as: 10, 11, 12, or 255 for a type the client has no colour for. */
  function HintByte(hintType: string): byte {
    if hintType == "SAFE" then CellTypeSafe
    else if hintType == "UNKNOWN" then CellTypeUnknown
    else if hintType == "MINE" then CellTypeDanger
    else CellTypeClosed
  }

  /** Whether the mode shows hints on the board. */
  predicate ShowsHints(gameMode: string) {
    gameMode == "training" || gameMode == "fair"
  }

  /**
   * The cell type `getCellType` computes: an opened mine is 9, an opened
   * cell its number (8 at most), an unflagged closed cell in training or
   * fair mode the colour of the first hint about it, everything else 255.
   */
  function CellType(cell: Cell, row: int, col: int, gameMode: string, hints: seq<CellHint>): byte {
    if cell.isRevealed then
      if cell.isMine then CellTypeMine
      else if cell.neighborMines > 8 then 8
      else ByteOf(cell.neighborMines)
    else if !cell.isFlagged && ShowsHints(gameMode) then
      match FirstHintAt(hints, row, col)
      case Some(t) => HintByte(t)
      case None => CellTypeClosed
    else CellTypeClosed
  }

  /**
   * `getCellType`: the scan over the hints stops at the first hint for the
   * cell, whatever its type.
   */
  method GetCellType(cell: Cell, row: int, col: int, gameMode: string, hints: seq<CellHint>) returns (t: byte)
    ensures t == CellType(cell, row, col, gameMode, hints)
  {
    if cell.isRevealed {
      if cell.isMine {
        return CellTypeMine;
      }
      if cell.neighborMines > 8 {
        return 8;
      }
      return ByteOf(cell.neighborMines);
    }
    if !cell.isFlagged {
      if gameMode == "training" || gameMode == "fair" {
        var i := 0;
        while i < |hints|
          invariant 0 <= i <= |hints| && FirstHintAt(hints, row, col) == FirstHintAt(hints[i..], row, col)
        {
          assert hints[i..][1..] == hints[i + 1..];
          if hints[i].row == row && hints[i].col == col {
            return HintByte(hints[i].hintType);
          }
          i := i + 1;
        }
      }
      return CellTypeClosed;
    }
    return CellTypeClosed;
  }

  /** For a cell with a count of at least 0, the type is always a byte the `CellType` enum has a member for. */
  lemma CellTypeIsMember(cell: Cell, row: int, col: int, gameMode: string, hints: seq<CellHint>)
    requires cell.neighborMines >= 0
    ensures IsCellTypeByte(CellType(cell, row, col, gameMode, hints))
    ensures EnumNumber(ByteToCellType(CellType(cell, row, col, gameMode, hints))) == CellType(cell, row, col, gameMode, hints) as int
  {
  }

  /**
   * A closed cell's type tells nothing about what is under it: it is 10,
   * 11, 12 or 255 and does not depend on the mine or the number; a flagged
   * cell is always 255, and hints show only in training and fair mode.
   */
  lemma ClosedCellHidesContents(cell: Cell, row: int, col: int, gameMode: string, hints: seq<CellHint>, isMine: bool, n: int)
    requires !cell.isRevealed
    ensures var t := CellType(cell, row, col, gameMode, hints);
            (t == CellTypeSafe || t == CellTypeUnknown || t == CellTypeDanger || t == CellTypeClosed) &&
            t == CellType(cell.(isMine := isMine, neighborMines := n), row, col, gameMode, hints) &&
            (cell.isFlagged || !ShowsHints(gameMode) ==> t == CellTypeClosed)
  {
  }

  /** An opened cell that is not a mine shows the number of mines around it. */
  lemma OpenedCellShowsCount(b: seq<seq<Cell>>, rows: int, cols: int, p: Pos, gameMode: string, hints: seq<CellHint>)
    requires IsGrid(b, rows, cols) && InGrid(p, rows, cols) && Consistent(b, rows, cols)
    requires b[p.row][p.col].isRevealed && !b[p.row][p.col].isMine
    ensures CellType(b[p.row][p.col], p.row, p.col, gameMode, hints) as int == MinesAround(b, rows, cols, p, 8)
  {
  }

  /** One update per changed cell inside the board, each carrying that cell's type. */
  predicate UpdatesFor(updates: seq<BinaryMessages.CellUpdate>, changed: set<Pos>, b: seq<seq<Cell>>, rows: int, cols: int,
                       gameMode: string, hints: seq<CellHint>)
    requires IsGrid(b, rows, cols)
  {
    (forall i :: 0 <= i < |updates| ==>
      InGrid(Pos(updates[i].row, updates[i].col), rows, cols) &&
      updates[i].cellType == CellType(b[updates[i].row][updates[i].col], updates[i].row, updates[i].col, gameMode, hints)) &&
    (forall i, j :: 0 <= i < j < |updates| ==> Pos(updates[i].row, updates[i].col) != Pos(updates[j].row, updates[j].col)) &&
    Positions(updates) == set p | p in changed && InGrid(p, rows, cols)
  }

  /**
   * `CollectCellUpdates`: one update for each changed cell inside the
   * board, in any order (Go's map order is unspecified); changed cells
   * outside the board are skipped.
   */
  method CollectCellUpdates(changed: set<Pos>, b: seq<seq<Cell>>, rows: int, cols: int, gameMode: string, hints: seq<CellHint>)
    returns (updates: seq<BinaryMessages.CellUpdate>)
    requires IsGrid(b, rows, cols)
    ensures UpdatesFor(updates, changed, b, rows, cols, gameMode, hints)
    ensures |updates| == |set p | p in changed && InGrid(p, rows, cols)|
  {
    updates := [];
    var rest := changed;
    ghost var seen: set<Pos> := {};
    while rest != {}
      invariant rest <= changed && seen == changed - rest
      invariant UpdatesFor(updates, seen, b, rows, cols, gameMode, hints)
      decreases |rest|
    {
      var p :| p in rest;
      rest := rest - {p};
      if p.row < 0 || p.row >= rows || p.col < 0 || p.col >= cols {
        SkipOutside(updates, seen, b, rows, cols, gameMode, hints, p);
        seen := seen + {p};
        continue;
      }
      var t := GetCellType(b[p.row][p.col], p.row, p.col, gameMode, hints);
      AppendUpdate(updates, seen, b, rows, cols, gameMode, hints, p, t);
      updates := updates + [BinaryMessages.CellUpdate(p.row, p.col, t)];
      seen := seen + {p};
    }
    DistinctPositionsCount(updates);
  }

  function Positions(updates: seq<BinaryMessages.CellUpdate>): set<Pos> {
    set i | 0 <= i < |updates| :: Pos(updates[i].row, updates[i].col)
  }

  /** A changed cell outside the board adds no update. */
  lemma SkipOutside(updates: seq<BinaryMessages.CellUpdate>, seen: set<Pos>, b: seq<seq<Cell>>, rows: int, cols: int,
                    gameMode: string, hints: seq<CellHint>, p: Pos)
    requires IsGrid(b, rows, cols) && UpdatesFor(updates, seen, b, rows, cols, gameMode, hints) && !InGrid(p, rows, cols)
    ensures UpdatesFor(updates, seen + {p}, b, rows, cols, gameMode, hints)
  {
    assert (set q | q in seen + {p} && InGrid(q, rows, cols)) == set q | q in seen && InGrid(q, rows, cols);
  }

  /** A changed cell inside the board, not seen before, adds its update. */
  lemma AppendUpdate(updates: seq<BinaryMessages.CellUpdate>, seen: set<Pos>, b: seq<seq<Cell>>, rows: int, cols: int,
                     gameMode: string, hints: seq<CellHint>, p: Pos, t: byte)
    requires IsGrid(b, rows, cols) && UpdatesFor(updates, seen, b, rows, cols, gameMode, hints)
    requires InGrid(p, rows, cols) && p !in seen && t == CellType(b[p.row][p.col], p.row, p.col, gameMode, hints)
    ensures UpdatesFor(updates + [BinaryMessages.CellUpdate(p.row, p.col, t)], seen + {p}, b, rows, cols, gameMode, hints)
  {
    var u := updates + [BinaryMessages.CellUpdate(p.row, p.col, t)];
    assert Positions(u) == Positions(updates) + {p} by {
      assert forall i :: 0 <= i < |updates| ==> u[i] == updates[i];
      assert Pos(u[|updates|].row, u[|updates|].col) == p;
    }
    assert (set q | q in seen + {p} && InGrid(q, rows, cols)) == (set q | q in seen && InGrid(q, rows, cols)) + {p};
    assert Positions(updates) == set q | q in seen && InGrid(q, rows, cols);
  }

  /** Updates with distinct positions are as many as their positions. */
  lemma {:induction false} DistinctPositionsCount(updates: seq<BinaryMessages.CellUpdate>)
    requires forall i, j :: 0 <= i < j < |updates| ==> Pos(updates[i].row, updates[i].col) != Pos(updates[j].row, updates[j].col)
    ensures |Positions(updates)| == |updates|
  {
    if updates != [] {
      var front := updates[..|updates| - 1];
      var last := updates[|updates| - 1];
      DistinctPositionsCount(front);
      assert Positions(updates) == Positions(front) + {Pos(last.row, last.col)} by {
        assert forall i :: 0 <= i < |front| ==> updates[i] == front[i];
      }
    }
  }

  /** The schema's cell for a board cell. */
  function CellMessage(cell: Cell): ProtobufMessages.PbCell {
    ProtobufMessages.PbCell(cell.isMine, cell.isRevealed, cell.isFlagged, cell.neighborMines, cell.flagColor)
  }

  function BoardMessage(b: seq<seq<Cell>>, rows: nat, cols: nat): (m: seq<seq<ProtobufMessages.PbCell>>)
    requires IsGrid(b, rows, cols)
    ensures IsGrid(m, rows, cols) && forall r, c :: 0 <= r < rows && 0 <= c < cols ==> m[r][c] == CellMessage(b[r][c])
  {
    seq(rows, r requires 0 <= r < rows => seq(cols, c requires 0 <= c < cols => CellMessage(b[r][c])))
  }

  /**
   * The message `EncodeGameStateProtobuf` builds from a game state: the
   * board cell by cell, the counters, the safe cells and hints, and the
   * loser's id cut to five characters.
   */
  function GameStateMessage(gs: GameState): (m: ProtobufMessages.PbGameState)
    reads gs
    requires gs.Valid()
    ensures |m.board| == gs.rows && forall r :: 0 <= r < gs.rows ==> |m.board[r]| == gs.cols
    ensures forall r, c :: 0 <= r < gs.rows && 0 <= c < gs.cols ==> m.board[r][c] == CellMessage(gs.board[r][c])
    ensures m.rows == gs.rows && m.cols == gs.cols && m.mines == gs.mines
    ensures m.gameOver == gs.gameOver && m.gameWon == gs.gameWon && m.revealed == gs.revealed && m.hintsUsed == gs.hintsUsed
    ensures |m.safeCells| == |gs.safeCells| && forall i :: 0 <= i < |gs.safeCells| ==>
              m.safeCells[i] == ProtobufMessages.PbSafeCell(gs.safeCells[i].row, gs.safeCells[i].col)
    ensures |m.cellHints| == |gs.cellHints| && forall i :: 0 <= i < |gs.cellHints| ==>
              m.cellHints[i] == ProtobufMessages.PbCellHint(gs.cellHints[i].row, gs.cellHints[i].col, gs.cellHints[i].hintType)
    ensures m.loserPlayerId <= gs.loserPlayerId && |m.loserPlayerId| == Min(|gs.loserPlayerId|, PlayerIdBudget)
    ensures m.loserNickname == gs.loserNickname
  {
    var board := BoardMessage(gs.board, gs.rows, gs.cols);
    var safeCells := seq(|gs.safeCells|, i requires 0 <= i < |gs.safeCells| reads gs =>
                       ProtobufMessages.PbSafeCell(gs.safeCells[i].row, gs.safeCells[i].col));
    var hints := seq(|gs.cellHints|, i requires 0 <= i < |gs.cellHints| reads gs =>
                   ProtobufMessages.PbCellHint(gs.cellHints[i].row, gs.cellHints[i].col, gs.cellHints[i].hintType));
    ProtobufMessages.PbGameState(board, gs.rows, gs.cols, gs.mines, gs.gameOver, gs.gameWon, gs.revealed, gs.hintsUsed,
                                 safeCells, hints, TruncatePlayerId(gs.loserPlayerId), gs.loserNickname)
  }
}

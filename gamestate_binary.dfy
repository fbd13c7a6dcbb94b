/**
 * The binary game-state frame and the browser's `decodeGameStateBinary`.
 *
 * Layout: rows, cols, mines and revealed as little-endian uint16; the hints
 * used and a flag byte (bit 0 game over, bit 1 game won); the loser's id in
 * a length byte plus a five-byte slot; the loser's nickname as a length byte
 * plus bytes; one byte per board cell, row by row; then, while bytes remain,
 * a flag-colour section and a safe-cell section.
 *
 * The decoder reads with a DataView, so a read past the end throws a
 * RangeError (`Failure`). Text is kept as the raw bytes handed to
 * `TextDecoder`.
 */
module GameStateBinary {
  import opened Common
  import opened Wire

  /** The longest flag colour the decoders accept, "#rrggbb". */
  const MaxColorBytes: nat := 7

  /** One board cell: `m`, `r`, `f`, `n` and the optional flag colour `fc`. */
  datatype Cell = Cell(mine: bool, revealed: bool, flagged: bool, neighbors: int, color: Option<Bytes>)

  type Board = seq<seq<Cell>>

  /** Everything before the board. */
  datatype Header = Header(rows: nat, cols: nat, mines: nat, revealed: nat, hintsUsed: byte,
                           gameOver: bool, gameWon: bool, loserId: Option<Bytes>, loserNickname: Option<Bytes>)

  /** The object `decodeGameStateBinary` returns. */
  datatype ClientState = ClientState(header: Header, board: Board, safeCells: Option<seq<Pos>>)

  predicate Shaped(board: Board, rows: nat, cols: nat) {
    |board| == rows && forall i :: 0 <= i < |board| ==> |board[i]| == cols
  }

  // ================================================================ cells

  /** Bit 0 mine, bit 1 revealed, bit 2 flagged, bits 3..6 the neighbour count. */
  function DecodeCell(b: byte): (c: Cell)
    ensures 0 <= c.neighbors <= 15 && c.color == None
  {
    Cell(HasBit(b, 1), HasBit(b, 2), HasBit(b, 4), (b / 8) % 16, None)
  }

  /** The byte a cell with a neighbour count in 0..15 is packed into. */
  function CellByte(c: Cell): (b: byte)
    requires 0 <= c.neighbors <= 15
    ensures b < 128
  {
    FlagByte(c.mine, c.revealed, c.flagged, false) + 8 * c.neighbors
  }

  /** Adding a multiple of eight leaves bits 0..2 alone. */
  lemma LowBitsKept(f: int, n: int, mask: int)
    requires 0 <= f < 8 && 0 <= n <= 15 && mask in {1, 2, 4}
    ensures HasBit(f + 8 * n, mask) == HasBit(f, mask)
  {
    assert (f + 8 * n) / mask == f / mask + (8 / mask) * n;
  }

  lemma CellByteRoundTrip(c: Cell)
    requires 0 <= c.neighbors <= 15 && c.color == None
    ensures DecodeCell(CellByte(c)) == c
  {
    var f := FlagByte(c.mine, c.revealed, c.flagged, false);
    LowBitsKept(f, c.neighbors, 1);
    LowBitsKept(f, c.neighbors, 2);
    LowBitsKept(f, c.neighbors, 4);
    assert (f + 8 * c.neighbors) / 8 == c.neighbors;
  }

  function DecodeCells(bytes: Bytes): (cells: seq<Cell>)
    ensures |cells| == |bytes|
    ensures forall j :: 0 <= j < |bytes| ==> cells[j] == DecodeCell(bytes[j])
  {
    seq(|bytes|, j requires 0 <= j < |bytes| => DecodeCell(bytes[j]))
  }

  lemma {:induction false} MulAtLeast(d: int, c: int)
    requires d >= 1 && c > 0
    ensures d * c >= c
  {
    if d > 1 {
      MulAtLeast(d - 1, c);
    }
  }

  lemma CellOfKey(key: int, rows: nat, cols: nat)
    requires 0 <= key && 0 < cols && key / cols < rows
    ensures 0 <= key / cols < rows && 0 <= key % cols < cols
  {
  }

  /** Row-major positions: `i * cols + j` names cell (i, j) and no other. */
  lemma RowMajor(key: int, cols: int, i: int, j: int)
    requires 0 <= key && 0 < cols && 0 <= j < cols
    ensures key == i * cols + j <==> key / cols == i && key % cols == j
  {
    var q, m := key / cols, key % cols;
    assert key == q * cols + m;
    if key == i * cols + j {
      var d := q - i;
      assert d * cols == j - m;
      if d >= 1 {
        MulAtLeast(d, cols);
        assert false;
      } else if d <= -1 {
        MulAtLeast(-d, cols);
        assert false;
      }
    }
  }

  // ================================================================ specification

  /** The loser id: the first `len` bytes of the slot, when `len` is 1..5. */
  function LoserId(len: byte, slot: Bytes): (r: Option<Bytes>)
    requires |slot| == PlayerIdBudget
    ensures r.Some? <==> 0 < len <= PlayerIdBudget
    ensures r.Some? ==> |r.value| == len && r.value == slot[..len]
  {
    if 0 < len <= PlayerIdBudget then Some(slot[..len]) else None
  }

  /** The ten fixed bytes after which the loser section starts. */
  datatype Counts = Counts(rows: nat, cols: nat, mines: nat, revealed: nat, hintsUsed: byte, flags: byte)

  /** The loser section: the id slot and the nickname. */
  datatype Loser = Loser(id: Option<Bytes>, nickname: Option<Bytes>)

  function ReadCounts(s: Bytes): Result<Parsed<Counts>> {
    var rows :- ReadU16(s);
    var cols :- ReadU16(rows.rest);
    var mines :- ReadU16(cols.rest);
    var revealed :- ReadU16(mines.rest);
    var hintsUsed :- ReadU8(revealed.rest);
    var flags :- ReadU8(hintsUsed.rest);
    Success(Parsed(Counts(rows.value, cols.value, mines.value, revealed.value, hintsUsed.value, flags.value), flags.rest))
  }

  /** A length byte and a five-byte slot that is always consumed, then the nickname. */
  function ReadLoserSection(s: Bytes): Result<Parsed<Loser>> {
    var pidLen :- ReadU8(s);
    var pid :- ReadBytes(pidLen.rest, PlayerIdBudget);
    var nickLen :- ReadU8(pid.rest);
    var nickname :- if nickLen.value > 0 then ReadBytes(nickLen.rest, nickLen.value) else Success(Parsed([], nickLen.rest));
    Success(Parsed(Loser(LoserId(pidLen.value, pid.value), if nickLen.value > 0 then Some(nickname.value) else None),
                   nickname.rest))
  }

  function MakeHeader(c: Counts, l: Loser): Header {
    Header(c.rows, c.cols, c.mines, c.revealed, c.hintsUsed, HasBit(c.flags, 1), HasBit(c.flags, 2), l.id, l.nickname)
  }

  function ReadHeader(s: Bytes): Result<Parsed<Header>> {
    var counts :- ReadCounts(s);
    var loser :- ReadLoserSection(counts.rest);
    Success(Parsed(MakeHeader(counts.value, loser.value), loser.rest))
  }

  /** One row: `cols` bytes, one cell each. */
  function ReadRow(s: Bytes, cols: nat): (r: Result<Parsed<seq<Cell>>>)
    ensures r.Success? <==> cols <= |s|
    ensures r.Success? ==> r.value == Parsed(DecodeCells(s[..cols]), s[cols..])
  {
    var row :- ReadBytes(s, cols);
    Success(Parsed(DecodeCells(row.value), row.rest))
  }

  /** `rows` rows of `cols` cells, one byte per cell; a missing byte throws. */
  function ReadRows(s: Bytes, rows: nat, cols: nat): (r: Result<Parsed<Board>>)
    ensures r.Success? ==> Shaped(r.value.value, rows, cols)
  {
    if rows == 0 then Success(Parsed([], s))
    else
      var before :- ReadRows(s, rows - 1, cols);
      var row :- ReadRow(before.rest, cols);
      Success(Parsed(before.value + [row.value], row.rest))
  }

  lemma {:induction false} ReadRowsFailureSticks(s: Bytes, i: nat, n: nat, cols: nat)
    requires i <= n && ReadRows(s, i, cols).Failure?
    ensures ReadRows(s, n, cols) == Failure(ReadRows(s, i, cols).error)
    decreases n
  {
    if i < n {
      ReadRowsFailureSticks(s, i, n - 1, cols);
    }
  }

  /**
   * What one flag-colour entry does: colour the cell `cellKey` names in
   * row-major order. With no columns `cellKey / cols` is NaN or Infinity in
   * JavaScript and no cell matches.
   */
  function ApplyFlagColor(board: Board, rows: nat, cols: nat, key: int, color: Bytes): (r: Board)
    requires Shaped(board, rows, cols) && 0 <= key
    ensures Shaped(r, rows, cols)
  {
    if cols > 0 && key / cols < rows then
      var row, col := key / cols, key % cols;
      board[row := board[row][col := board[row][col].(color := Some(color))]]
    else board
  }

  /** One flag-colour entry as read; `Truncated` when the buffer ends right after the cell key. */
  datatype FlagEntry = Truncated | Entry(key: int, color: Option<Bytes>)

  /**
   * A cell key, a length byte and the colour. A colour whose length is
   * outside 1..7 or that does not fit is skipped without consuming its
   * bytes (`color` is then `None`).
   */
  function ReadFlagEntry(s: Bytes): (r: Result<Parsed<FlagEntry>>)
    ensures r.Success? && r.value.value.Entry? ==> 0 <= r.value.value.key < 65536
  {
    var key :- ReadU16(s);
    if key.rest == [] then Success(Parsed(Truncated, key.rest))
    else
      var len, after := key.rest[0], key.rest[1..];
      if 0 < len <= MaxColorBytes && len <= |after| then Success(Parsed(Entry(key.value, Some(after[..len])), after[len..]))
      else Success(Parsed(Entry(key.value, None), after))
  }

  /** The flag-colour loop with `remaining` iterations left; it also stops when the buffer is used up. */
  function ReadFlagColors(s: Bytes, board: Board, rows: nat, cols: nat, remaining: nat): (r: Result<Parsed<Board>>)
    requires Shaped(board, rows, cols)
    ensures r.Success? ==> Shaped(r.value.value, rows, cols)
    decreases remaining
  {
    if remaining == 0 || s == [] then Success(Parsed(board, s))
    else
      var entry :- ReadFlagEntry(s);
      match entry.value
      case Truncated => Success(Parsed(board, entry.rest))
      case Entry(key, color) =>
        var next := if color.Some? then ApplyFlagColor(board, rows, cols, key, color.value) else board;
        ReadFlagColors(entry.rest, next, rows, cols, remaining - 1)
  }

  /** One iteration of the flag-colour loop. */
  lemma ReadFlagColorsFails(s: Bytes, board: Board, rows: nat, cols: nat, remaining: nat)
    requires Shaped(board, rows, cols) && remaining > 0 && s != [] && ReadFlagEntry(s).Failure?
    ensures ReadFlagColors(s, board, rows, cols, remaining) == Failure(ReadFlagEntry(s).error)
  {
  }

  lemma ReadFlagColorsStep(s: Bytes, board: Board, rows: nat, cols: nat, remaining: nat, e: FlagEntry, rest: Bytes)
    requires Shaped(board, rows, cols) && remaining > 0 && s != []
    requires ReadFlagEntry(s) == Success(Parsed(e, rest))
    ensures e.Truncated? ==> ReadFlagColors(s, board, rows, cols, remaining) == Success(Parsed(board, rest))
    ensures e.Entry? && e.color.None? ==> ReadFlagColors(s, board, rows, cols, remaining) == ReadFlagColors(rest, board, rows, cols, remaining - 1)
    ensures e.Entry? && e.color.Some? ==>
              ReadFlagColors(s, board, rows, cols, remaining)
              == ReadFlagColors(rest, ApplyFlagColor(board, rows, cols, e.key, e.color.value), rows, cols, remaining - 1)
  {
  }

  /** The flag-colour section, present when bytes remain after the board. */
  function FlagSection(s: Bytes, board: Board, rows: nat, cols: nat): (r: Result<Parsed<Board>>)
    requires Shaped(board, rows, cols)
    ensures r.Success? ==> Shaped(r.value.value, rows, cols)
  {
    if s == [] then Success(Parsed(board, s))
    else ReadFlagColors(s[1..], board, rows, cols, s[0])
  }

  /** Up to `remaining` (row, col) pairs, taken while four bytes remain. */
  function TakeSafeCells(s: Bytes, remaining: nat): (r: seq<Pos>)
    decreases remaining
  {
    if remaining == 0 || |s| < 4 then []
    else [Pos(LE16(s[0], s[1]), LE16(s[2], s[3]))] + TakeSafeCells(s[4..], remaining - 1)
  }

  /** The safe-cell section: absent when no bytes remain or the count is 0. */
  function SafeCellSection(s: Bytes): Result<Option<seq<Pos>>> {
    if s == [] then Success(None)
    else
      var count :- ReadU16(s);
      if count.value > 0 then Success(Some(TakeSafeCells(count.rest, count.value))) else Success(None)
  }

  function DecodeSpec(data: Bytes): Result<ClientState> {
    var header :- ReadHeader(data);
    var h := header.value;
    var board :- ReadRows(header.rest, h.rows, h.cols);
    var colored :- FlagSection(board.rest, board.value, h.rows, h.cols);
    var safeCells :- SafeCellSection(colored.rest);
    Success(ClientState(h, colored.value, safeCells))
  }

  // ================================================================ decoder

  /** The counts at the start of `decodeGameStateBinary`. */
  method GetCounts(data: Bytes) returns (r: Result<At<Counts>>)
    ensures Tracks(data, r, ReadCounts(data))
  {
    assert data[0..] == data;
    var rows :- GetUint16(data, 0);
    var cols :- GetUint16(data, rows.offset);
    var mines :- GetUint16(data, cols.offset);
    var revealed :- GetUint16(data, mines.offset);
    var hintsUsed :- GetUint8(data, revealed.offset);
    var flags :- GetUint8(data, hintsUsed.offset);
    return Success(At(Counts(rows.value, cols.value, mines.value, revealed.value, hintsUsed.value, flags.value), flags.offset));
  }

  /** The loser id (kept only for a length of 1..5) and the loser nickname. */
  method GetLoserSection(data: Bytes, start: nat) returns (r: Result<At<Loser>>)
    requires start <= |data|
    ensures Tracks(data, r, ReadLoserSection(data[start..]))
  {
    var loserPidLen :- GetUint8(data, start);
    var pidBytes :- GetBytes(data, loserPidLen.offset, PlayerIdBudget);
    var loserPlayerId: Option<Bytes> := None;
    if loserPidLen.value > 0 && loserPidLen.value <= PlayerIdBudget {
      loserPlayerId := Some(pidBytes.value[..loserPidLen.value]);
    }
    var nicknameLen :- GetUint8(data, pidBytes.offset);
    var offset := nicknameLen.offset;
    var loserNickname: Option<Bytes> := None;
    if nicknameLen.value > 0 {
      var nicknameBytes :- GetBytes(data, offset, nicknameLen.value);
      loserNickname, offset := Some(nicknameBytes.value), nicknameBytes.offset;
    }
    return Success(At(Loser(loserPlayerId, loserNickname), offset));
  }

  /** The inner board loop: one `getUint8` per cell of the row. */
  method GetRow(data: Bytes, start: nat, cols: nat) returns (r: Result<At<seq<Cell>>>)
    requires start <= |data|
    ensures Tracks(data, r, ReadRow(data[start..], cols))
  {
    var row: seq<Cell> := [];
    var offset: nat := start;
    var j: nat := 0;
    while j < cols
      invariant j <= cols && offset == start + j <= |data|
      invariant row == DecodeCells(data[start..offset])
    {
      if offset >= |data| {
        return Failure(RangeError);
      }
      var cellByte := data[offset];
      assert data[start..offset + 1] == data[start..offset] + [cellByte];
      row := row + [DecodeCell(cellByte)];
      offset := offset + 1;
      j := j + 1;
    }
    assert data[start..][..cols] == data[start..offset];
    assert data[start..][cols..] == data[offset..];
    return Success(At(row, offset));
  }

  /** The outer board loop, row by row. */
  method GetBoard(data: Bytes, start: nat, rows: nat, cols: nat) returns (r: Result<At<Board>>)
    requires start <= |data|
    ensures Tracks(data, r, ReadRows(data[start..], rows, cols))
  {
    var board: Board := [];
    var offset: nat := start;
    var i: nat := 0;
    while i < rows
      invariant i <= rows && offset <= |data|
      invariant ReadRows(data[start..], i, cols) == Success(Parsed(board, data[offset..]))
    {
      var row := GetRow(data, offset, cols);
      if row.Failure? {
        ReadRowsFailureSticks(data[start..], i + 1, rows, cols);
        return Failure(row.error);
      }
      board := board + [row.value.value];
      offset := row.value.offset;
      i := i + 1;
    }
    return Success(At(board, offset));
  }

  /** One entry of the flag-colour loop. */
  method GetFlagEntry(data: Bytes, start: nat) returns (r: Result<At<FlagEntry>>)
    requires start <= |data|
    ensures Tracks(data, r, ReadFlagEntry(data[start..]))
  {
    var cellKey :- GetUint16(data, start);
    var offset := cellKey.offset;
    if offset >= |data| {
      return Success(At(Truncated, offset));
    }
    var colorLen := data[offset];
    offset := offset + 1;
    assert data[cellKey.offset..][1..] == data[offset..];
    if colorLen > 0 && colorLen <= MaxColorBytes && offset + colorLen <= |data| {
      var color := data[offset..offset + colorLen];
      assert data[offset..][..colorLen] == color;
      assert data[offset..][colorLen..] == data[offset + colorLen..];
      return Success(At(Entry(cellKey.value, Some(color)), offset + colorLen));
    }
    return Success(At(Entry(cellKey.value, None), offset));
  }

  /**
   * One pass of the flag-colour loop: read an entry and colour the cell it
   * names. The board is `None` when the loop stops at an entry cut short
   * after its key.
   */
  method NextFlagColor(data: Bytes, offset: nat, board: Board, rows: nat, cols: nat, remaining: nat)
    returns (r: Result<At<Option<Board>>>)
    requires offset < |data| && remaining > 0 && Shaped(board, rows, cols)
    ensures r.Failure? ==> ReadFlagColors(data[offset..], board, rows, cols, remaining) == Failure(r.error)
    ensures r.Success? ==> offset < r.value.offset <= |data|
    ensures r.Success? && r.value.value.None? ==>
              ReadFlagColors(data[offset..], board, rows, cols, remaining) == Success(Parsed(board, data[r.value.offset..]))
    ensures r.Success? && r.value.value.Some? ==>
              Shaped(r.value.value.value, rows, cols) &&
              ReadFlagColors(data[offset..], board, rows, cols, remaining)
              == ReadFlagColors(data[r.value.offset..], r.value.value.value, rows, cols, remaining - 1)
  {
    var read := GetFlagEntry(data, offset);
    if read.Failure? {
      ReadFlagColorsFails(data[offset..], board, rows, cols, remaining);
      return Failure(read.error);
    }
    var entry := read.value;
    ReadFlagColorsStep(data[offset..], board, rows, cols, remaining, entry.value, data[entry.offset..]);
    if entry.value.Truncated? {
      return Success(At(None, entry.offset));
    }
    var next := board;
    if entry.value.color.Some? {
      // `board[row][col].fc = color`, for the cell the key names
      next := ApplyFlagColor(board, rows, cols, entry.value.key, entry.value.color.value);
    }
    return Success(At(Some(next), entry.offset));
  }

  /** The flag-colour section: a count byte, then entries while the count lasts and bytes remain. */
  method GetFlagColors(data: Bytes, start: nat, board0: Board, rows: nat, cols: nat) returns (r: Result<At<Board>>)
    requires start <= |data| && Shaped(board0, rows, cols)
    ensures Tracks(data, r, FlagSection(data[start..], board0, rows, cols))
  {
    if start >= |data| {
      return Success(At(board0, start));
    }
    var flagCount := data[start];
    assert data[start..][1..] == data[start + 1..];
    var board := board0;
    var offset := start + 1;
    var i := 0;
    while i < flagCount && offset < |data|
      invariant i <= flagCount && start < offset <= |data|
      invariant Shaped(board, rows, cols)
      invariant ReadFlagColors(data[offset..], board, rows, cols, flagCount - i)
             == ReadFlagColors(data[start + 1..], board0, rows, cols, flagCount)
    {
      var step :- NextFlagColor(data, offset, board, rows, cols, flagCount - i);
      if step.value.None? {
        return Success(At(board, step.offset));
      }
      board, offset := step.value.value, step.offset;
      i := i + 1;
    }
    return Success(At(board, offset));
  }

  /** One iteration of the safe-cell loop: `done` and the pairs still to come make up `total`. */
  lemma TakeSafeCellsStep(done: seq<Pos>, data: Bytes, offset: nat, remaining: nat, total: seq<Pos>)
    requires offset + 4 <= |data| && remaining > 0
    requires done + TakeSafeCells(data[offset..], remaining) == total
    ensures (done + [Pos(LE16(data[offset], data[offset + 1]), LE16(data[offset + 2], data[offset + 3]))])
            + TakeSafeCells(data[offset + 4..], remaining - 1) == total
  {
    assert data[offset..][4..] == data[offset + 4..];
  }

  lemma TakeSafeCellsDone(done: seq<Pos>, s: Bytes, remaining: nat, total: seq<Pos>)
    requires done + TakeSafeCells(s, remaining) == total && (remaining == 0 || |s| < 4)
    ensures done == total
  {
    AppendNothing(done);
  }

  /** The safe-cell section: a count, then pairs while four bytes remain. */
  method GetSafeCells(data: Bytes, start: nat) returns (r: Result<Option<seq<Pos>>>)
    requires start <= |data|
    ensures r == SafeCellSection(data[start..])
  {
    if start >= |data| {
      return Success(None);
    }
    var count :- GetUint16(data, start);
    if count.value == 0 {
      return Success(None);
    }
    var safeCells: seq<Pos> := [];
    var offset := count.offset;
    var i := 0;
    ghost var total := TakeSafeCells(data[count.offset..], count.value);
    while i < count.value && offset + 4 <= |data|
      invariant i <= count.value && count.offset <= offset <= |data|
      invariant safeCells + TakeSafeCells(data[offset..], count.value - i) == total
    {
      var row := LE16(data[offset], data[offset + 1]);
      var col := LE16(data[offset + 2], data[offset + 3]);
      TakeSafeCellsStep(safeCells, data, offset, count.value - i, total);
      safeCells := safeCells + [Pos(row, col)];
      offset := offset + 4;
      i := i + 1;
    }
    TakeSafeCellsDone(safeCells, data[offset..], count.value - i, total);
    return Success(Some(safeCells));
  }

  /** `decodeGameStateBinary` */
  method DecodeGameStateBinary(data: Bytes) returns (r: Result<ClientState>)
    ensures r == DecodeSpec(data)
  {
    var counts :- GetCounts(data);
    var loser :- GetLoserSection(data, counts.offset);
    var h := MakeHeader(counts.value, loser.value);
    var board :- GetBoard(data, loser.offset, h.rows, h.cols);
    var colored :- GetFlagColors(data, board.offset, board.value, h.rows, h.cols);
    var safeCells :- GetSafeCells(data, colored.offset);
    return Success(ClientState(h, colored.value, safeCells));
  }

  // ================================================================ properties

  /** The ten fixed bytes by absolute offset. */
  lemma CountsByOffsets(s: Bytes)
    ensures ReadCounts(s).Success? <==> |s| >= 10
    ensures ReadCounts(s).Success? ==> ReadCounts(s).value == Parsed(
      Counts(LE16(s[0], s[1]), LE16(s[2], s[3]), LE16(s[4], s[5]), LE16(s[6], s[7]), s[8], s[9]), s[10..])
  {
    if |s| >= 10 {
      assert s[2..][2..] == s[4..];
      assert s[4..][2..] == s[6..];
      assert s[6..][2..] == s[8..];
      assert s[8..][1..] == s[9..];
      assert s[9..][1..] == s[10..];
    }
  }

  /** The loser section by offset: length byte, five-byte slot, nickname length at 6, nickname. */
  lemma LoserSectionByOffsets(s: Bytes)
    ensures ReadLoserSection(s).Success? <==> |s| >= 7 && 7 + s[6] <= |s|
    ensures ReadLoserSection(s).Success? ==> ReadLoserSection(s).value == Parsed(
      Loser(LoserId(s[0], s[1..6]), if s[6] > 0 then Some(s[7..7 + s[6]]) else None), s[7 + s[6]..])
  {
    if |s| >= 7 {
      assert s[1..][..5] == s[1..6];
      assert s[1..][5..] == s[6..];
      assert s[6..][1..] == s[7..];
      if 7 + s[6] <= |s| {
        assert s[7..][..s[6]] == s[7..7 + s[6]];
        assert s[7..][s[6]..] == s[7 + s[6]..];
      }
    }
  }

  /** The header by absolute offsets: 17 bytes up to the nickname length, then the nickname. */
  lemma HeaderByOffsets(s: Bytes)
    ensures ReadHeader(s).Success? <==> |s| >= 17 && 17 + s[16] <= |s|
    ensures ReadHeader(s).Success? ==> ReadHeader(s).value == Parsed(
      Header(LE16(s[0], s[1]), LE16(s[2], s[3]), LE16(s[4], s[5]), LE16(s[6], s[7]), s[8],
             HasBit(s[9], 1), HasBit(s[9], 2), LoserId(s[10], s[11..16]),
             if s[16] > 0 then Some(s[17..17 + s[16]]) else None),
      s[17 + s[16]..])
  {
    CountsByOffsets(s);
    if |s| >= 10 {
      var t := s[10..];
      LoserSectionByOffsets(t);
      if |t| >= 7 {
        assert t[1..6] == s[11..16];
        if 7 + t[6] <= |t| {
          assert t[7..7 + t[6]] == s[17..17 + s[16]];
          assert t[7 + t[6]..] == s[17 + s[16]..];
        }
      }
    }
  }

  /** Where row `i` starts: `i * cols`, counted up row by row. */
  function RowStart(i: nat, cols: nat): nat {
    if i == 0 then 0 else RowStart(i - 1, cols) + cols
  }

  lemma {:induction false} RowStartIsProduct(i: nat, cols: nat)
    ensures RowStart(i, cols) == i * cols
  {
    if i > 0 {
      RowStartIsProduct(i - 1, cols);
    }
  }

  lemma {:induction false} RowStartGrows(i: nat, n: nat, cols: nat)
    requires i <= n
    ensures RowStart(i, cols) <= RowStart(n, cols)
    decreases n
  {
    if i < n {
      RowStartGrows(i, n - 1, cols);
    }
  }

  /** The board consumes exactly rows × cols bytes, and throws when fewer remain. */
  lemma {:induction false} ReadRowsConsumes(s: Bytes, rows: nat, cols: nat)
    ensures ReadRows(s, rows, cols).Success? <==> RowStart(rows, cols) <= |s|
    ensures ReadRows(s, rows, cols).Success? ==> ReadRows(s, rows, cols).value.rest == s[RowStart(rows, cols)..]
  {
    if rows > 0 {
      ReadRowsConsumes(s, rows - 1, cols);
      var k := RowStart(rows - 1, cols);
      if k <= |s| && k + cols <= |s| {
        assert s[k..][cols..] == s[k + cols..];
      }
    }
  }

  /** Row `i` of a decoded board lies inside the buffer. */
  lemma ReadRowsRowFits(s: Bytes, rows: nat, cols: nat, i: nat)
    requires ReadRows(s, rows, cols).Success? && i < rows
    ensures RowStart(i, cols) + cols <= |s|
  {
    ReadRowsConsumes(s, rows, cols);
    RowStartGrows(i + 1, rows, cols);
  }

  /** Cell (i, j) of the board is decoded from byte `RowStart(i) + j`. */
  lemma {:induction false} ReadRowsCell(s: Bytes, rows: nat, cols: nat, i: nat, j: nat)
    requires ReadRows(s, rows, cols).Success? && i < rows && j < cols
    ensures RowStart(i, cols) + j < |s| && ReadRows(s, rows, cols).value.value[i][j] == DecodeCell(s[RowStart(i, cols) + j])
  {
    if i == rows - 1 {
      ReadRowsConsumes(s, rows - 1, cols);
      var k := RowStart(i, cols);
      assert s[k..][j] == s[k + j];
    } else {
      ReadRowsCell(s, rows - 1, cols, i, j);
    }
  }

  /** The board throws unless rows × cols bytes remain, and then consumes exactly those. */
  lemma ReadRowsSize(s: Bytes, rows: nat, cols: nat)
    ensures ReadRows(s, rows, cols).Success? <==> rows * cols <= |s|
    ensures ReadRows(s, rows, cols).Success? ==>
      ReadRows(s, rows, cols).value.rest == s[rows * cols..] && Shaped(ReadRows(s, rows, cols).value.value, rows, cols)
  {
    ReadRowsConsumes(s, rows, cols);
    RowStartIsProduct(rows, cols);
  }

  /** Row i spans bytes `RowStart(i)` (= `i * cols`) onwards, and cell (i, j) is decoded from the byte `j` places further. */
  lemma ReadRowsCells(s: Bytes, rows: nat, cols: nat)
    requires ReadRows(s, rows, cols).Success?
    ensures forall i :: 0 <= i < rows ==> RowStart(i, cols) + cols <= |s|
    ensures forall i, j :: 0 <= i < rows && 0 <= j < cols ==>
              ReadRows(s, rows, cols).value.value[i][j] == DecodeCell(s[RowStart(i, cols) + j])
  {
    forall i | 0 <= i < rows
      ensures RowStart(i, cols) + cols <= |s|
    {
      ReadRowsRowFits(s, rows, cols, i);
    }
    forall i, j | 0 <= i < rows && 0 <= j < cols
      ensures ReadRows(s, rows, cols).value.value[i][j] == DecodeCell(s[RowStart(i, cols) + j])
    {
      ReadRowsCell(s, rows, cols, i, j);
    }
  }

  /** A flag colour lands on exactly the cell its key names in row-major order, if that cell exists. */
  lemma ApplyFlagColorAt(board: Board, rows: nat, cols: nat, key: int, color: Bytes, i: int, j: int)
    requires Shaped(board, rows, cols) && 0 <= key && 0 <= i < rows && 0 <= j < cols
    ensures ApplyFlagColor(board, rows, cols, key, color)[i][j]
         == if key == i * cols + j then board[i][j].(color := Some(color)) else board[i][j]
  {
    RowMajor(key, cols, i, j);
  }

  /** The colour section changes colours only: every other cell field and the shape stay. */
  lemma {:induction false} ReadFlagColorsOnlyColors(s: Bytes, board: Board, rows: nat, cols: nat, remaining: nat,
                                                    i: int, j: int)
    requires Shaped(board, rows, cols) && 0 <= i < rows && 0 <= j < cols
    requires ReadFlagColors(s, board, rows, cols, remaining).Success?
    ensures ReadFlagColors(s, board, rows, cols, remaining).value.value[i][j].(color := None) == board[i][j].(color := None)
    decreases remaining
  {
    if remaining > 0 && s != [] && |s| >= 2 && s[2..] != [] {
      var key := LE16(s[0], s[1]);
      var len, after := s[2..][0], s[2..][1..];
      if 0 < len <= MaxColorBytes && len <= |after| {
        var next := ApplyFlagColor(board, rows, cols, key, after[..len]);
        ApplyFlagColorAt(board, rows, cols, key, after[..len], i, j);
        ReadFlagColorsOnlyColors(after[len..], next, rows, cols, remaining - 1, i, j);
      } else {
        ReadFlagColorsOnlyColors(after, board, rows, cols, remaining - 1, i, j);
      }
    }
  }

  /** Safe cells: min(count, bytes / 4) pairs, pair k read from bytes 4k..4k+3. */
  lemma {:induction false} TakeSafeCellsLayout(s: Bytes, remaining: nat)
    ensures |TakeSafeCells(s, remaining)| == Min(remaining, |s| / 4)
    ensures forall k :: 0 <= k < |TakeSafeCells(s, remaining)| ==>
      TakeSafeCells(s, remaining)[k] == Pos(LE16(s[4 * k], s[4 * k + 1]), LE16(s[4 * k + 2], s[4 * k + 3]))
    decreases remaining
  {
    if remaining > 0 && |s| >= 4 {
      TakeSafeCellsLayout(s[4..], remaining - 1);
      var tail := TakeSafeCells(s[4..], remaining - 1);
      forall k | 0 < k < |TakeSafeCells(s, remaining)|
        ensures TakeSafeCells(s, remaining)[k] == Pos(LE16(s[4 * k], s[4 * k + 1]), LE16(s[4 * k + 2], s[4 * k + 3]))
      {
        assert TakeSafeCells(s, remaining)[k] == tail[k - 1];
        assert 4 * (k - 1) + 4 == 4 * k;
      }
    }
  }

  /** The safe-cell section throws only when exactly one byte is left for its count. */
  lemma SafeCellSectionThrows(s: Bytes)
    ensures SafeCellSection(s).Failure? <==> |s| == 1
  {
  }
}

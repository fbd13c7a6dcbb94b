/**
 * The server's `decodeGameStateBinary` (Go): the same frame as the browser
 * decoder reads, taken through a `bytes.Reader`, plus a trailing cell-hint
 * section.
 *
 * A `bytes.Reader` never throws: a short `ReadByte` yields 0, a short
 * `binary.Read` yields 0 and drops the stray byte, and a short `Read`
 * copies what is left into a zeroed slice. So this decoder is total where
 * the browser's throws, except for one run-time panic: a flag-colour entry
 * when the board has no columns divides by zero.
 */
module GoGameStateBinary {
  import opened Common
  import opened Wire
  import opened GameStateBinary

  /** `MINE`, `SAFE`, `UNKNOWN`, and the empty type of a slot the loop never reached. */
  datatype HintType = Mine | Safe | Unknown | Unset

  datatype CellHint = CellHint(pos: Pos, hint: HintType)

  /** The `GameState` the decoder fills: header, board, `SafeCells` and `CellHints` (nil is `None`). */
  datatype ServerState = ServerState(header: Header, board: Board, safeCells: Option<seq<Pos>>,
                                     hints: Option<seq<CellHint>>)

  /** What the flag-colour loop raises when the board has no columns. */
  const DivideByZero := "runtime error: integer divide by zero"

  // ================================================================ specification

  /** The first `n` bytes, with zeros for those past the end. */
  function Padded(s: Bytes, n: nat): (r: Bytes)
    ensures |r| == n
    ensures forall j :: 0 <= j < n ==> r[j] == if j < |s| then s[j] else 0
  {
    if n <= |s| then s[..n] else s + Zeros(n - |s|)
  }

  function GoReadCounts(s: Bytes): Parsed<Counts> {
    var rows := GoReadU16(s);
    var cols := GoReadU16(rows.rest);
    var mines := GoReadU16(cols.rest);
    var revealed := GoReadU16(mines.rest);
    var hintsUsed := GoReadByte(revealed.rest);
    var flags := GoReadByte(hintsUsed.rest);
    Parsed(Counts(rows.value, cols.value, mines.value, revealed.value, hintsUsed.value, flags.value), flags.rest)
  }

  /** The id slot is a zeroed five-byte slice; the nickname is read only for a non-zero length. */
  function GoReadLoserSection(s: Bytes): Parsed<Loser> {
    var pidLen := GoReadByte(s);
    var pid := GoReadFill(pidLen.rest, PlayerIdBudget);
    var nickLen := GoReadByte(pid.rest);
    if nickLen.value > 0 then
      var nickname := GoReadFill(nickLen.rest, nickLen.value);
      Parsed(Loser(LoserId(pidLen.value, pid.value), Some(nickname.value)), nickname.rest)
    else
      Parsed(Loser(LoserId(pidLen.value, pid.value), None), nickLen.rest)
  }

  function GoReadHeader(s: Bytes): Parsed<Header> {
    var counts := GoReadCounts(s);
    var loser := GoReadLoserSection(counts.rest);
    Parsed(MakeHeader(counts.value, loser.value), loser.rest)
  }

  /** One row: a `ReadByte` per cell, so cells past the end decode from 0. */
  function GoReadRow(s: Bytes, cols: nat): (r: Parsed<seq<Cell>>)
    ensures |r.value| == cols
  {
    Parsed(DecodeCells(Padded(s, cols)), s[Min(cols, |s|)..])
  }

  function GoReadRows(s: Bytes, rows: nat, cols: nat): (r: Parsed<Board>)
    ensures Shaped(r.value, rows, cols)
  {
    if rows == 0 then Parsed([], s)
    else
      var before := GoReadRows(s, rows - 1, cols);
      var row := GoReadRow(before.rest, cols);
      Parsed(before.value + [row.value], row.rest)
  }

  /**
   * One flag-colour entry: `Truncated` when the key or the length cannot be
   * read (the loop breaks); a colour of length 1..7 that is cut short
   * consumes the rest of the buffer and is not applied.
   */
  function GoReadFlagEntry(s: Bytes): (r: Parsed<FlagEntry>)
    ensures r.value.Entry? ==> 0 <= r.value.key < 65536
    ensures r.value.Entry? && r.value.color.Some? ==> 0 < |r.value.color.value| <= MaxColorBytes
    ensures r.value.Truncated? ==> r.rest == []
  {
    var key := GoReadU16(s);
    if !key.ok then Parsed(Truncated, key.rest)
    else
      var len := GoReadByte(key.rest);
      if !len.ok then Parsed(Truncated, len.rest)
      else if 0 < len.value <= MaxColorBytes then
        var color := GoReadFill(len.rest, len.value);
        Parsed(Entry(key.value, if color.ok then Some(color.value) else None), color.rest)
      else Parsed(Entry(key.value, None), len.rest)
  }

  /** Lines 93-96 as written: `cellKey / gs.Cols` panics when there are no columns. */
  function GoApplyAsWritten(board: Board, rows: nat, cols: nat, key: int, color: Bytes): (r: Result<Board>)
    requires Shaped(board, rows, cols) && 0 <= key
    ensures r.Failure? <==> cols == 0
    ensures r.Success? ==> r.value == ApplyFlagColor(board, rows, cols, key, color)
  {
    if cols == 0 then Failure(DivideByZero)
    else
      var row, col := key / cols, key % cols;
      if row < rows then Success(board[row := board[row][col := board[row][col].(color := Some(color))]])
      else Success(board)
  }

  /** The flag-colour loop as written, `remaining` iterations left. */
  function GoFlagColorsAsWritten(s: Bytes, board: Board, rows: nat, cols: nat, remaining: nat): (r: Result<Parsed<Board>>)
    requires Shaped(board, rows, cols)
    ensures r.Success? ==> Shaped(r.value.value, rows, cols)
    decreases remaining
  {
    if remaining == 0 then Success(Parsed(board, s))
    else
      var entry := GoReadFlagEntry(s);
      match entry.value
      case Truncated => Success(Parsed(board, entry.rest))
      case Entry(key, color) =>
        var next :- if color.Some? then GoApplyAsWritten(board, rows, cols, key, color.value) else Success(board);
        GoFlagColorsAsWritten(entry.rest, next, rows, cols, remaining - 1)
  }

  /** The flag-colour loop with the cell lookup of the browser decoder: no columns, no cell. */
  function GoFlagColors(s: Bytes, board: Board, rows: nat, cols: nat, remaining: nat): (r: Parsed<Board>)
    requires Shaped(board, rows, cols)
    ensures Shaped(r.value, rows, cols)
    decreases remaining
  {
    if remaining == 0 then Parsed(board, s)
    else
      var entry := GoReadFlagEntry(s);
      match entry.value
      case Truncated => Parsed(board, entry.rest)
      case Entry(key, color) =>
        var next := if color.Some? then ApplyFlagColor(board, rows, cols, key, color.value) else board;
        GoFlagColors(entry.rest, next, rows, cols, remaining - 1)
  }

  /**
   * A (row, col) pair read with two `binary.Read`s: `None` when either half
   * cannot be read, and the buffer is then used up.
   */
  function GoReadPair(s: Bytes): (r: Parsed<Option<Pos>>)
    ensures r.value.None? ==> r.rest == []
  {
    if |s| >= 4 then Parsed(Some(Pos(LE16(s[0], s[1]), LE16(s[2], s[3]))), s[4..]) else Parsed(None, [])
  }

  lemma GoReadPairIsTwoReads(s: Bytes)
    ensures var row := GoReadU16(s); var col := GoReadU16(row.rest);
            GoReadPair(s) == if row.ok && col.ok then Parsed(Some(Pos(row.value, col.value)), col.rest) else Parsed(None, [])
  {
    if |s| >= 4 {
      assert s[2..][2..] == s[4..];
    }
  }

  /** The Go hint-type switch. */
  function HintOfByte(b: byte): (h: HintType)
    ensures h == Mine <==> b == 0
    ensures h == Safe <==> b == 1
    ensures h == Unknown <==> b >= 2
  {
    match b
    case 0 => Mine
    case 1 => Safe
    case 2 => Unknown
    case _ => Unknown
  }

  /** A (row, col, type) hint; `None` when any part cannot be read. */
  function GoReadHint(s: Bytes): (r: Parsed<Option<CellHint>>)
    ensures r.value.None? ==> r.rest == []
  {
    var pair := GoReadPair(s);
    if pair.value.None? then Parsed(None, pair.rest)
    else
      var hint := GoReadByte(pair.rest);
      if hint.ok then Parsed(Some(CellHint(pair.value.value, HintOfByte(hint.value))), hint.rest)
      else Parsed(None, hint.rest)
  }

  /** Up to `remaining` pairs, stopping at the first one that cannot be read. */
  function GoPairs(s: Bytes, remaining: nat): (r: Parsed<seq<Pos>>)
    ensures |r.value| <= remaining
    decreases remaining
  {
    if remaining == 0 then Parsed([], s)
    else
      var pair := GoReadPair(s);
      if pair.value.None? then Parsed([], pair.rest)
      else
        var tail := GoPairs(pair.rest, remaining - 1);
        Parsed([pair.value.value] + tail.value, tail.rest)
  }

  /** Up to `remaining` hints, stopping at the first one that cannot be read. */
  function GoHints(s: Bytes, remaining: nat): (r: Parsed<seq<CellHint>>)
    ensures |r.value| <= remaining
    decreases remaining
  {
    if remaining == 0 then Parsed([], s)
    else
      var hint := GoReadHint(s);
      if hint.value.None? then Parsed([], hint.rest)
      else
        var tail := GoHints(hint.rest, remaining - 1);
        Parsed([hint.value.value] + tail.value, tail.rest)
  }

  /**
   * The count of a section made with `make([]T, count)` and filled by index:
   * the section is there when bytes remain and the count is non-zero.
   */
  function GoSectionCount(s: Bytes): (r: Parsed<nat>)
    ensures r.value < 65536
  {
    if s == [] then Parsed(0, s)
    else
      var count := GoReadU16(s);
      Parsed(if count.ok then count.value else 0, count.rest)
  }

  /** Safe cells: slots the loop never reached keep the zero value (0, 0). */
  function GoSafeCellSection(s: Bytes): (r: Parsed<Option<seq<Pos>>>)
    ensures r.value.Some? ==> |r.value.value| == GoSectionCount(s).value > 0
  {
    var count := GoSectionCount(s);
    if count.value == 0 then Parsed(None, count.rest)
    else
      var pairs := GoPairs(count.rest, count.value);
      Parsed(Some(pairs.value + seq(count.value - |pairs.value|, _ => Pos(0, 0))), pairs.rest)
  }

  /** Cell hints: slots the loop never reached keep the zero value, with an empty type. */
  function GoHintSection(s: Bytes): (r: Parsed<Option<seq<CellHint>>>)
    ensures r.value.Some? ==> |r.value.value| == GoSectionCount(s).value > 0
  {
    var count := GoSectionCount(s);
    if count.value == 0 then Parsed(None, count.rest)
    else
      var hints := GoHints(count.rest, count.value);
      Parsed(Some(hints.value + seq(count.value - |hints.value|, _ => CellHint(Pos(0, 0), Unset))), hints.rest)
  }

  /** The header and the uncoloured board. */
  function GoReadBoard(data: Bytes): (r: (Header, Parsed<Board>))
    ensures Shaped(r.1.value, r.0.rows, r.0.cols)
  {
    var header := GoReadHeader(data);
    (header.value, GoReadRows(header.rest, header.value.rows, header.value.cols))
  }

  /** Everything after the flag colours. */
  function GoTrailer(h: Header, colored: Parsed<Board>): ServerState {
    var safeCells := GoSafeCellSection(colored.rest);
    var hints := GoHintSection(safeCells.rest);
    ServerState(h, colored.value, safeCells.value, hints.value)
  }

  /** The flag-colour section, present when bytes remain: a count byte, then the loop. */
  function GoFlagSectionAsWritten(s: Bytes, board: Board, rows: nat, cols: nat): (r: Result<Parsed<Board>>)
    requires Shaped(board, rows, cols)
  {
    if s == [] then Success(Parsed(board, s)) else GoFlagColorsAsWritten(s[1..], board, rows, cols, s[0])
  }

  function GoFlagSection(s: Bytes, board: Board, rows: nat, cols: nat): (r: Parsed<Board>)
    requires Shaped(board, rows, cols)
    ensures Shaped(r.value, rows, cols)
  {
    if s == [] then Parsed(board, s) else GoFlagColors(s[1..], board, rows, cols, s[0])
  }

  /** `decodeGameStateBinary` as written: `Failure` is the divide-by-zero panic. */
  function GoDecodeAsWritten(data: Bytes): Result<ServerState> {
    var (h, board) := GoReadBoard(data);
    var colored :- GoFlagSectionAsWritten(board.rest, board.value, h.rows, h.cols);
    Success(GoTrailer(h, colored))
  }

  /** `decodeGameStateBinary` with the cell lookup guarded against zero columns. */
  function GoDecode(data: Bytes): ServerState {
    var (h, board) := GoReadBoard(data);
    GoTrailer(h, GoFlagSection(board.rest, board.value, h.rows, h.cols))
  }

  // ================================================================ decoder

  method GoGetCounts(data: Bytes) returns (r: At<Counts>)
    ensures Reads(data, r, GoReadCounts(data))
  {
    assert data[0..] == data;
    var rows := ReaderReadU16(data, 0);
    var cols := ReaderReadU16(data, rows.offset);
    var mines := ReaderReadU16(data, cols.offset);
    var revealed := ReaderReadU16(data, mines.offset);
    var hintsUsed := ReaderReadByte(data, revealed.offset);
    var flags := ReaderReadByte(data, hintsUsed.offset);
    return At(Counts(rows.value, cols.value, mines.value, revealed.value, hintsUsed.value, flags.value), flags.offset);
  }

  method GoGetLoserSection(data: Bytes, start: nat) returns (r: At<Loser>)
    requires start <= |data|
    ensures Reads(data, r, GoReadLoserSection(data[start..]))
  {
    var loserPidLen := ReaderReadByte(data, start);
    var pidBytes := ReaderRead(data, loserPidLen.offset, PlayerIdBudget);
    var loserPlayerId: Option<Bytes> := None;
    if loserPidLen.value > 0 && loserPidLen.value <= PlayerIdBudget {
      loserPlayerId := Some(pidBytes.value[..loserPidLen.value]);
    }
    var nicknameLen := ReaderReadByte(data, pidBytes.offset);
    var offset := nicknameLen.offset;
    var loserNickname: Option<Bytes> := None;
    if nicknameLen.value > 0 {
      var nicknameBytes := ReaderRead(data, offset, nicknameLen.value);
      loserNickname, offset := Some(nicknameBytes.value), nicknameBytes.offset;
    }
    return At(Loser(loserPlayerId, loserNickname), offset);
  }

  lemma PaddedStep(s: Bytes, j: nat)
    ensures DecodeCells(Padded(s, j + 1)) == DecodeCells(Padded(s, j)) + [DecodeCell(if j < |s| then s[j] else 0)]
  {
  }

  /** The inner board loop: one `ReadByte` per cell. */
  method GoGetRow(data: Bytes, start: nat, cols: nat) returns (r: At<seq<Cell>>)
    requires start <= |data|
    ensures Reads(data, r, GoReadRow(data[start..], cols))
  {
    var row: seq<Cell> := [];
    var offset := start;
    var j: nat := 0;
    while j < cols
      invariant j <= cols && offset == start + Min(j, |data| - start)
      invariant row == DecodeCells(Padded(data[start..], j))
    {
      var cellByte := ReaderReadByte(data, offset);
      PaddedStep(data[start..], j);
      row := row + [DecodeCell(cellByte.value)];
      offset := cellByte.offset;
      j := j + 1;
    }
    return At(row, offset);
  }

  method GoGetBoard(data: Bytes, start: nat, rows: nat, cols: nat) returns (r: At<Board>)
    requires start <= |data|
    ensures Reads(data, r, GoReadRows(data[start..], rows, cols))
  {
    var board: Board := [];
    var offset: nat := start;
    var i: nat := 0;
    while i < rows
      invariant i <= rows && offset <= |data|
      invariant GoReadRows(data[start..], i, cols) == Parsed(board, data[offset..])
    {
      var row := GoGetRow(data, offset, cols);
      board := board + [row.value];
      offset := row.offset;
      i := i + 1;
    }
    return At(board, offset);
  }

  method GoGetFlagEntry(data: Bytes, start: nat) returns (r: At<FlagEntry>)
    requires start <= |data|
    ensures Reads(data, r, GoReadFlagEntry(data[start..]))
  {
    var cellKey := ReaderReadU16(data, start);
    if !cellKey.ok {
      return At(Truncated, cellKey.offset);
    }
    var colorLen := ReaderReadByte(data, cellKey.offset);
    if !colorLen.ok {
      return At(Truncated, colorLen.offset);
    }
    if colorLen.value > 0 && colorLen.value <= MaxColorBytes {
      var colorBytes := ReaderRead(data, colorLen.offset, colorLen.value);
      return At(Entry(cellKey.value, if colorBytes.ok then Some(colorBytes.value) else None), colorBytes.offset);
    }
    return At(Entry(cellKey.value, None), colorLen.offset);
  }

  /** One iteration of the flag-colour loop as written. */
  lemma GoFlagColorsStep(s: Bytes, board: Board, rows: nat, cols: nat, remaining: nat, e: FlagEntry, rest: Bytes)
    requires Shaped(board, rows, cols) && remaining > 0
    requires GoReadFlagEntry(s) == Parsed(e, rest)
    ensures e.Truncated? ==> GoFlagColorsAsWritten(s, board, rows, cols, remaining) == Success(Parsed(board, rest))
    ensures e.Entry? && e.color.None? ==>
              GoFlagColorsAsWritten(s, board, rows, cols, remaining) == GoFlagColorsAsWritten(rest, board, rows, cols, remaining - 1)
    ensures e.Entry? && e.color.Some? && cols == 0 ==>
              GoFlagColorsAsWritten(s, board, rows, cols, remaining) == Failure(DivideByZero)
    ensures e.Entry? && e.color.Some? && cols > 0 ==>
              GoFlagColorsAsWritten(s, board, rows, cols, remaining)
              == GoFlagColorsAsWritten(rest, ApplyFlagColor(board, rows, cols, e.key, e.color.value), rows, cols, remaining - 1)
  {
  }

  /** `gs.Board[cellKey / gs.Cols][cellKey % gs.Cols].FlagColor = color`, when that cell exists. */
  method GoColorCell(board: Board, rows: nat, cols: nat, key: int, color: Bytes) returns (r: Result<Board>)
    requires Shaped(board, rows, cols) && 0 <= key
    ensures r == GoApplyAsWritten(board, rows, cols, key, color)
  {
    if cols == 0 {
      return Failure(DivideByZero);
    }
    var row, col := key / cols, key % cols;
    if row < rows {
      return Success(board[row := board[row][col := board[row][col].(color := Some(color))]]);
    }
    return Success(board);
  }

  /** One pass of the flag-colour loop as written; the board is `None` when the loop breaks. */
  method GoNextFlagColor(data: Bytes, offset: nat, board: Board, rows: nat, cols: nat, remaining: nat)
    returns (r: Result<At<Option<Board>>>)
    requires offset <= |data| && remaining > 0 && Shaped(board, rows, cols)
    ensures r.Failure? ==> GoFlagColorsAsWritten(data[offset..], board, rows, cols, remaining) == Failure(r.error)
    ensures r.Success? ==> r.value.offset <= |data|
    ensures r.Success? && r.value.value.None? ==>
              GoFlagColorsAsWritten(data[offset..], board, rows, cols, remaining)
              == Success(Parsed(board, data[r.value.offset..]))
    ensures r.Success? && r.value.value.Some? ==>
              Shaped(r.value.value.value, rows, cols) &&
              GoFlagColorsAsWritten(data[offset..], board, rows, cols, remaining)
              == GoFlagColorsAsWritten(data[r.value.offset..], r.value.value.value, rows, cols, remaining - 1)
  {
    var entry := GoGetFlagEntry(data, offset);
    GoFlagColorsStep(data[offset..], board, rows, cols, remaining, entry.value, data[entry.offset..]);
    if entry.value.Truncated? {
      return Success(At(None, entry.offset));
    }
    var next := board;
    if entry.value.color.Some? {
      next :- GoColorCell(board, rows, cols, entry.value.key, entry.value.color.value);
    }
    return Success(At(Some(next), entry.offset));
  }

  /** The flag-colour section as written: a count byte, then `flagCount` passes unless one breaks. */
  method GoGetFlagColors(data: Bytes, start: nat, board0: Board, rows: nat, cols: nat) returns (r: Result<At<Board>>)
    requires start <= |data| && Shaped(board0, rows, cols)
    ensures Tracks(data, r, GoFlagSectionAsWritten(data[start..], board0, rows, cols))
  {
    if start >= |data| {
      return Success(At(board0, start));
    }
    var flagCount := data[start];
    assert data[start..][1..] == data[start + 1..];
    var board := board0;
    var offset: nat := start + 1;
    var i := 0;
    while i < flagCount
      invariant i <= flagCount && offset <= |data|
      invariant Shaped(board, rows, cols)
      invariant GoFlagColorsAsWritten(data[offset..], board, rows, cols, flagCount - i)
             == GoFlagColorsAsWritten(data[start + 1..], board0, rows, cols, flagCount)
    {
      var step :- GoNextFlagColor(data, offset, board, rows, cols, flagCount - i);
      if step.value.None? {
        return Success(At(board, step.offset));
      }
      board, offset := step.value.value, step.offset;
      i := i + 1;
    }
    return Success(At(board, offset));
  }

  method GoGetPair(data: Bytes, start: nat) returns (r: At<Option<Pos>>)
    requires start <= |data|
    ensures Reads(data, r, GoReadPair(data[start..]))
  {
    GoReadPairIsTwoReads(data[start..]);
    var row := ReaderReadU16(data, start);
    if !row.ok {
      return At(None, row.offset);
    }
    var col := ReaderReadU16(data, row.offset);
    if !col.ok {
      return At(None, col.offset);
    }
    return At(Some(Pos(row.value, col.value)), col.offset);
  }

  method GoGetHint(data: Bytes, start: nat) returns (r: At<Option<CellHint>>)
    requires start <= |data|
    ensures Reads(data, r, GoReadHint(data[start..]))
  {
    var pair := GoGetPair(data, start);
    if pair.value.None? {
      return At(None, pair.offset);
    }
    var hintTypeByte := ReaderReadByte(data, pair.offset);
    if !hintTypeByte.ok {
      return At(None, hintTypeByte.offset);
    }
    return At(Some(CellHint(pair.value.value, HintOfByte(hintTypeByte.value))), hintTypeByte.offset);
  }

  /** Loop state of the safe-cell loop: the pairs stored so far and those still to come make up `total`. */
  predicate PairsFilling(done: seq<Pos>, s: Bytes, remaining: nat, total: Parsed<seq<Pos>>) {
    done + GoPairs(s, remaining).value == total.value && GoPairs(s, remaining).rest == total.rest
  }

  lemma PairsStep(done: seq<Pos>, s: Bytes, remaining: nat, e: Parsed<Option<Pos>>, total: Parsed<seq<Pos>>)
    requires remaining > 0 && GoReadPair(s) == e && PairsFilling(done, s, remaining, total)
    ensures e.value.None? ==> done == total.value && e.rest == total.rest
    ensures e.value.Some? ==> PairsFilling(done + [e.value.value], e.rest, remaining - 1, total)
  {
    if e.value.Some? {
      var tail := GoPairs(e.rest, remaining - 1).value;
      assert done + ([e.value.value] + tail) == (done + [e.value.value]) + tail;
    } else {
      AppendNothing(done);
    }
  }

  lemma PairsDone(done: seq<Pos>, s: Bytes, remaining: nat, total: Parsed<seq<Pos>>)
    requires PairsFilling(done, s, remaining, total) && (remaining == 0 || s == [])
    ensures done == total.value && s == total.rest
  {
    AppendNothing(done);
  }

  /** Loop state of the hint loop. */
  predicate HintsFilling(done: seq<CellHint>, s: Bytes, remaining: nat, total: Parsed<seq<CellHint>>) {
    done + GoHints(s, remaining).value == total.value && GoHints(s, remaining).rest == total.rest
  }

  lemma HintsStep(done: seq<CellHint>, s: Bytes, remaining: nat, e: Parsed<Option<CellHint>>, total: Parsed<seq<CellHint>>)
    requires remaining > 0 && GoReadHint(s) == e && HintsFilling(done, s, remaining, total)
    ensures e.value.None? ==> done == total.value && e.rest == total.rest
    ensures e.value.Some? ==> HintsFilling(done + [e.value.value], e.rest, remaining - 1, total)
  {
    if e.value.Some? {
      var tail := GoHints(e.rest, remaining - 1).value;
      assert done + ([e.value.value] + tail) == (done + [e.value.value]) + tail;
    } else {
      AppendNothing(done);
    }
  }

  lemma HintsDone(done: seq<CellHint>, s: Bytes, remaining: nat, total: Parsed<seq<CellHint>>)
    requires HintsFilling(done, s, remaining, total) && (remaining == 0 || s == [])
    ensures done == total.value && s == total.rest
  {
    AppendNothing(done);
  }

  /** The count that opens the safe-cell and hint sections. */
  method GoGetSectionCount(data: Bytes, start: nat) returns (r: At<nat>)
    requires start <= |data|
    ensures Reads(data, r, GoSectionCount(data[start..]))
  {
    if start >= |data| {
      return At(0, start);
    }
    var count := ReaderReadU16(data, start);
    return At(if count.ok then count.value else 0, count.offset);
  }

  /** One pass of the safe-cell loop: read a pair and store it in slot `n`; `false` when the loop breaks. */
  method GoStorePair(data: Bytes, offset: nat, cells: array<Pos>, n: nat, ghost pairs: Parsed<seq<Pos>>)
    returns (stored: bool, next: nat)
    requires offset <= |data| && n < cells.Length
    requires PairsFilling(cells[..n], data[offset..], cells.Length - n, pairs)
    modifies cells
    ensures next <= |data|
    ensures !stored ==> cells[..] == old(cells[..]) && cells[..n] == pairs.value && data[next..] == pairs.rest
    ensures stored ==> PairsFilling(cells[..n + 1], data[next..], cells.Length - (n + 1), pairs)
    ensures stored ==> cells[n + 1..] == old(cells[n + 1..])
  {
    var pair := GoGetPair(data, offset);
    PairsStep(cells[..n], data[offset..], cells.Length - n, Parsed(pair.value, data[pair.offset..]), pairs);
    next := pair.offset;
    if pair.value.None? {
      return false, next;
    }
    ghost var before := cells[..n];
    cells[n] := pair.value.value;
    assert cells[..n + 1] == before + [pair.value.value];
    return true, next;
  }

  /** The safe-cell loop: `gs.SafeCells[i] = SafeCell{row, col}` until a pair cannot be read. */
  method GoFillSafeCells(data: Bytes, start: nat, cells: array<Pos>) returns (n: nat, offset: nat)
    requires start <= |data|
    modifies cells
    ensures offset <= |data| && n <= cells.Length
    ensures cells[..n] == GoPairs(data[start..], cells.Length).value
    ensures data[offset..] == GoPairs(data[start..], cells.Length).rest
    ensures cells[n..] == old(cells[n..])
  {
    ghost var pairs := GoPairs(data[start..], cells.Length);
    offset := start;
    n := 0;
    while n < cells.Length
      invariant n <= cells.Length && offset <= |data|
      invariant PairsFilling(cells[..n], data[offset..], cells.Length - n, pairs)
      invariant cells[n..] == old(cells[n..])
    {
      ghost var tail := cells[n..];
      var stored;
      stored, offset := GoStorePair(data, offset, cells, n, pairs);
      if !stored {
        return;
      }
      assert cells[n + 1..] == tail[1..];
      n := n + 1;
    }
    PairsDone(cells[..n], data[offset..], cells.Length - n, pairs);
  }

  /** The safe-cell section: `make([]SafeCell, count)`, then filled by index while pairs can be read. */
  method GoGetSafeCells(data: Bytes, start: nat) returns (r: At<Option<seq<Pos>>>)
    requires start <= |data|
    ensures Reads(data, r, GoSafeCellSection(data[start..]))
  {
    var count := GoGetSectionCount(data, start);
    if count.value == 0 {
      return At(None, count.offset);
    }
    var cells := new Pos[count.value](_ => Pos(0, 0));
    assert cells[..] == seq(count.value, _ => Pos(0, 0));
    var n, offset := GoFillSafeCells(data, count.offset, cells);
    assert cells[..] == cells[..n] + cells[n..];
    assert cells[n..] == seq(count.value - n, _ => Pos(0, 0));
    return At(Some(cells[..]), offset);
  }

  /** One pass of the hint loop: read a hint and store it in slot `n`; `false` when the loop breaks. */
  method GoStoreHint(data: Bytes, offset: nat, hints: array<CellHint>, n: nat, ghost total: Parsed<seq<CellHint>>)
    returns (stored: bool, next: nat)
    requires offset <= |data| && n < hints.Length
    requires HintsFilling(hints[..n], data[offset..], hints.Length - n, total)
    modifies hints
    ensures next <= |data|
    ensures !stored ==> hints[..] == old(hints[..]) && hints[..n] == total.value && data[next..] == total.rest
    ensures stored ==> HintsFilling(hints[..n + 1], data[next..], hints.Length - (n + 1), total)
    ensures stored ==> hints[n + 1..] == old(hints[n + 1..])
  {
    var hint := GoGetHint(data, offset);
    HintsStep(hints[..n], data[offset..], hints.Length - n, Parsed(hint.value, data[hint.offset..]), total);
    next := hint.offset;
    if hint.value.None? {
      return false, next;
    }
    ghost var before := hints[..n];
    hints[n] := hint.value.value;
    assert hints[..n + 1] == before + [hint.value.value];
    return true, next;
  }

  /** The hint loop: `gs.CellHints[i] = CellHint{row, col, type}` until a hint cannot be read. */
  method GoFillHints(data: Bytes, start: nat, hints: array<CellHint>) returns (n: nat, offset: nat)
    requires start <= |data|
    modifies hints
    ensures offset <= |data| && n <= hints.Length
    ensures hints[..n] == GoHints(data[start..], hints.Length).value
    ensures data[offset..] == GoHints(data[start..], hints.Length).rest
    ensures hints[n..] == old(hints[n..])
  {
    ghost var total := GoHints(data[start..], hints.Length);
    offset := start;
    n := 0;
    while n < hints.Length
      invariant n <= hints.Length && offset <= |data|
      invariant HintsFilling(hints[..n], data[offset..], hints.Length - n, total)
      invariant hints[n..] == old(hints[n..])
    {
      ghost var tail := hints[n..];
      var stored;
      stored, offset := GoStoreHint(data, offset, hints, n, total);
      if !stored {
        return;
      }
      assert hints[n + 1..] == tail[1..];
      n := n + 1;
    }
    HintsDone(hints[..n], data[offset..], hints.Length - n, total);
  }

  /** The hint section: `make([]CellHint, count)`, then filled by index while hints can be read. */
  method GoGetHints(data: Bytes, start: nat) returns (r: At<Option<seq<CellHint>>>)
    requires start <= |data|
    ensures Reads(data, r, GoHintSection(data[start..]))
  {
    var count := GoGetSectionCount(data, start);
    if count.value == 0 {
      return At(None, count.offset);
    }
    var hints := new CellHint[count.value](_ => CellHint(Pos(0, 0), Unset));
    assert hints[..] == seq(count.value, _ => CellHint(Pos(0, 0), Unset));
    var n, offset := GoFillHints(data, count.offset, hints);
    assert hints[..] == hints[..n] + hints[n..];
    assert hints[n..] == seq(count.value - n, _ => CellHint(Pos(0, 0), Unset));
    return At(Some(hints[..]), offset);
  }

  /** `decodeGameStateBinary` as written; `Failure` stands for the divide-by-zero panic. */
  method GoDecodeGameStateBinary(data: Bytes) returns (r: Result<ServerState>)
    ensures r == GoDecodeAsWritten(data)
  {
    var counts := GoGetCounts(data);
    var loser := GoGetLoserSection(data, counts.offset);
    var h := MakeHeader(counts.value, loser.value);
    var board := GoGetBoard(data, loser.offset, h.rows, h.cols);
    var colored :- GoGetFlagColors(data, board.offset, board.value, h.rows, h.cols);
    var safeCells := GoGetSafeCells(data, colored.offset);
    var hints := GoGetHints(data, safeCells.offset);
    return Success(ServerState(h, colored.value, safeCells.value, hints.value));
  }

  // ================================================================ properties

  lemma GoCountsAgree(s: Bytes)
    requires ReadCounts(s).Success?
    ensures GoReadCounts(s) == ReadCounts(s).value
  {
    CountsByOffsets(s);
    assert s[2..][2..] == s[4..];
    assert s[4..][2..] == s[6..];
    assert s[6..][2..] == s[8..];
    assert s[8..][1..] == s[9..];
    assert s[9..][1..] == s[10..];
  }

  lemma GoLoserAgrees(s: Bytes)
    requires ReadLoserSection(s).Success?
    ensures GoReadLoserSection(s) == ReadLoserSection(s).value
  {
    LoserSectionByOffsets(s);
    assert s[1..][..5] == s[1..6];
    assert s[1..][5..] == s[6..];
    assert s[6..][1..] == s[7..];
  }

  /** Wherever the browser decoder reads a header, the server decoder reads the same one from the same bytes. */
  lemma GoHeaderAgrees(s: Bytes)
    requires ReadHeader(s).Success?
    ensures GoReadHeader(s) == ReadHeader(s).value
  {
    GoCountsAgree(s);
    GoLoserAgrees(ReadCounts(s).value.rest);
  }

  /** Wherever the browser decoder reads a board, the server decoder reads the same cells and stops at the same byte. */
  lemma {:induction false} GoRowsAgree(s: Bytes, rows: nat, cols: nat)
    requires ReadRows(s, rows, cols).Success?
    ensures GoReadRows(s, rows, cols) == ReadRows(s, rows, cols).value
  {
    if rows > 0 {
      GoRowsAgree(s, rows - 1, cols);
      var before := ReadRows(s, rows - 1, cols).value.rest;
      assert Padded(before, cols) == before[..cols];
    }
  }

  /** Header and cells: the browser and the server agree byte for byte wherever the browser does not throw. */
  lemma GoBoardAgrees(data: Bytes)
    requires ReadHeader(data).Success?
    requires var h := ReadHeader(data).value; ReadRows(h.rest, h.value.rows, h.value.cols).Success?
    ensures var h := ReadHeader(data).value;
            GoReadBoard(data) == (h.value, ReadRows(h.rest, h.value.rows, h.value.cols).value)
  {
    GoHeaderAgrees(data);
    var h := ReadHeader(data).value;
    GoRowsAgree(h.rest, h.value.rows, h.value.cols);
  }

  /**
   * A flag-colour entry the browser reads is the entry the server reads; they
   * part ways only on a colour cut short by the end of the buffer, which
   * neither applies and after which the server has nothing left to read.
   */
  lemma GoFlagEntryAgrees(s: Bytes)
    requires ReadFlagEntry(s).Success?
    ensures GoReadFlagEntry(s).value == ReadFlagEntry(s).value.value
    ensures GoReadFlagEntry(s).rest != ReadFlagEntry(s).value.rest ==>
              GoReadFlagEntry(s).rest == [] && GoReadFlagEntry(s).value.Entry? && GoReadFlagEntry(s).value.color.None?
  {
    if |s| >= 3 {
      assert s[2..][0] == s[2] && s[2..][1..] == s[3..];
    }
  }

  /** With at least one column the loop as written never panics and computes the guarded loop. */
  lemma {:induction false} GoFlagColorsAgree(s: Bytes, board: Board, rows: nat, cols: nat, remaining: nat)
    requires Shaped(board, rows, cols) && cols > 0
    ensures GoFlagColorsAsWritten(s, board, rows, cols, remaining) == Success(GoFlagColors(s, board, rows, cols, remaining))
    decreases remaining
  {
    if remaining > 0 {
      var entry := GoReadFlagEntry(s);
      if entry.value.Entry? {
        var next := if entry.value.color.Some? then ApplyFlagColor(board, rows, cols, entry.value.key, entry.value.color.value)
                    else board;
        GoFlagColorsAgree(entry.rest, next, rows, cols, remaining - 1);
      }
    }
  }

  /** The decoder as written fails only on a board without columns, and otherwise is the guarded decoder. */
  lemma GoDecodeAgrees(data: Bytes)
    ensures GoDecodeAsWritten(data).Failure? ==> GoReadBoard(data).0.cols == 0
    ensures GoReadBoard(data).0.cols > 0 ==> GoDecodeAsWritten(data) == Success(GoDecode(data))
  {
    var (h, board) := GoReadBoard(data);
    if h.cols > 0 && board.rest != [] {
      GoFlagColorsAgree(board.rest[1..], board.value, h.rows, h.cols, board.rest[0]);
    }
  }

  /** A frame with no rows and no columns whose flag-colour section names a one-byte colour. */
  const ZeroColumnFrame: Bytes := Zeros(17) + ZeroColumnColors

  /** Its flag-colour section: one entry, key 0, colour "#". */
  const ZeroColumnColors: Bytes := [1, 0, 0, 1, 35]

  const ZeroHeader := Header(0, 0, 0, 0, 0, false, false, None, None)

  /** Seventeen zero bytes are the header of an empty board with no loser. */
  lemma ZeroPrefixHeader(s: Bytes)
    requires |s| >= 17 && forall k :: 0 <= k < 17 ==> s[k] == 0
    ensures ReadHeader(s) == Success(Parsed(ZeroHeader, s[17..]))
    ensures GoReadBoard(s) == (ZeroHeader, Parsed([], s[17..]))
  {
    HeaderByOffsets(s);
    GoHeaderAgrees(s);
  }

  lemma ZeroColumnHeader()
    ensures ReadHeader(ZeroColumnFrame) == Success(Parsed(ZeroHeader, ZeroColumnColors))
    ensures GoReadBoard(ZeroColumnFrame) == (ZeroHeader, Parsed([], ZeroColumnColors))
  {
    ZeroPrefixHeader(ZeroColumnFrame);
    assert ZeroColumnFrame[17..] == ZeroColumnColors;
  }

  /** A flag-colour entry whose colour of 1..7 bytes fits, by offsets, as the server reads it. */
  lemma GoFlagEntryByOffsets(s: Bytes)
    requires |s| >= 3 && 0 < s[2] <= MaxColorBytes && 3 + s[2] <= |s|
    ensures GoReadFlagEntry(s) == Parsed(Entry(LE16(s[0], s[1]), Some(s[3..3 + s[2]])), s[3 + s[2]..])
  {
    assert s[2..][0] == s[2] && s[2..][1..] == s[3..];
    assert s[3..][..s[2]] == s[3..3 + s[2]] && s[3..][s[2]..] == s[3 + s[2]..];
  }

  /** The same entry as the browser reads it. */
  lemma FlagEntryByOffsets(s: Bytes)
    requires |s| >= 3 && 0 < s[2] <= MaxColorBytes && 3 + s[2] <= |s|
    ensures ReadFlagEntry(s) == Success(Parsed(Entry(LE16(s[0], s[1]), Some(s[3..3 + s[2]])), s[3 + s[2]..]))
  {
    assert s[2..][0] == s[2] && s[2..][1..] == s[3..];
    assert s[3..][..s[2]] == s[3..3 + s[2]] && s[3..][s[2]..] == s[3 + s[2]..];
  }

  lemma ZeroColumnEntry()
    ensures GoReadFlagEntry(ZeroColumnColors[1..]) == Parsed(Entry(0, Some([35])), [])
    ensures ReadFlagEntry(ZeroColumnColors[1..]) == Success(Parsed(Entry(0, Some([35])), []))
  {
    var s := ZeroColumnColors[1..];
    assert |s| == 4 && s[0] == 0 && s[1] == 0 && s[2] == 1 && s[3] == 35;
    GoFlagEntryByOffsets(s);
    FlagEntryByOffsets(s);
    assert s[3..4] == [35];
  }

  lemma ZeroColumnFlagSections()
    ensures GoFlagSectionAsWritten(ZeroColumnColors, [], 0, 0) == Failure(DivideByZero)
    ensures GoFlagSection(ZeroColumnColors, [], 0, 0) == Parsed([], [])
    ensures FlagSection(ZeroColumnColors, [], 0, 0) == Success(Parsed([], []))
  {
    ZeroColumnEntry();
    assert ZeroColumnColors[0] == 1;
  }

  /** On that frame the loop as written divides by zero, while the browser decoder and the guarded one decode it. */
  lemma GoDecodeDividesByZero()
    ensures GoDecodeAsWritten(ZeroColumnFrame) == Failure(DivideByZero)
    ensures GoDecode(ZeroColumnFrame) == ServerState(ZeroHeader, [], None, None)
    ensures DecodeSpec(ZeroColumnFrame) == Success(ClientState(ZeroHeader, [], None))
  {
    ZeroColumnHeader();
    ZeroColumnFlagSections();
    assert ReadRows(ZeroColumnColors, 0, 0) == Success(Parsed([], ZeroColumnColors));
  }

  /**
   * The guarded flag-colour loop changes colours only: every other field of
   * every cell stays, and a colour it sets is 1..7 bytes long.
   */
  lemma {:induction false} GoFlagColorsOnlyColors(s: Bytes, board: Board, rows: nat, cols: nat, remaining: nat,
                                                  i: int, j: int)
    requires Shaped(board, rows, cols) && 0 <= i < rows && 0 <= j < cols
    ensures var after := GoFlagColors(s, board, rows, cols, remaining).value[i][j];
            after.(color := None) == board[i][j].(color := None) &&
            (after.color == board[i][j].color || (after.color.Some? && 0 < |after.color.value| <= MaxColorBytes))
    decreases remaining
  {
    if remaining > 0 {
      var entry := GoReadFlagEntry(s);
      if entry.value.Entry? {
        if entry.value.color.Some? {
          var next := ApplyFlagColor(board, rows, cols, entry.value.key, entry.value.color.value);
          ApplyFlagColorAt(board, rows, cols, entry.value.key, entry.value.color.value, i, j);
          GoFlagColorsOnlyColors(entry.rest, next, rows, cols, remaining - 1, i, j);
        } else {
          GoFlagColorsOnlyColors(entry.rest, board, rows, cols, remaining - 1, i, j);
        }
      }
    }
  }

  /** The optional trailing sections are read only while bytes remain. */
  lemma GoTrailerOnlyWhileBytesRemain(h: Header, board: Board)
    ensures GoTrailer(h, Parsed(board, [])) == ServerState(h, board, None, None)
  {
  }
}

/**
 * The small binary frames the server pushes to the browser (chat, cursor,
 * players, pong, error, cell update), their TypeScript decoders, and the Go
 * encoder of the cell-update frame.
 *
 * Each decoder is an offset-threading method proved equal to a
 * specification function over the unread suffix of the buffer. A thrown
 * RangeError is a `Failure`; a `null` result is `Success(None)`. Text fields
 * are kept as the raw bytes handed to `TextDecoder` (UTF-8 decoding is not
 * modelled) and float64 coordinates as their eight raw bytes.
 */
module BinaryMessages {
  import opened Common
  import opened Wire

  const MessageTypeGameState: byte := 0
  const MessageTypeChat: byte := 1
  const MessageTypeCursor: byte := 2
  const MessageTypePlayers: byte := 3
  const MessageTypePong: byte := 4
  const MessageTypeError: byte := 5
  const MessageTypeCellUpdate: byte := 6

  /** The longest nickname the cell-update encoder writes. */
  const MaxNicknameBytes: nat := 255
  /** The largest number of cell updates one frame carries. */
  const MaxUpdateCount: nat := 65535

  datatype PlayerEntry = PlayerEntry(id: Bytes, nickname: Bytes, color: Bytes)
  datatype CellUpdate = CellUpdate(row: int, col: int, cellType: byte)
  datatype ChatBody = ChatBody(text: Bytes, isSystem: bool, action: Option<Bytes>, rowCol: Option<Pos>)

  /** `DecodedMessage`, one variant per frame type. */
  datatype Decoded =
    | ChatMessage(playerId: Bytes, nickname: Bytes, color: Bytes, chat: ChatBody)
    | CursorMessage(playerId: Bytes, nickname: Bytes, color: Bytes, x: Bytes, y: Bytes)
    | PlayersMessage(players: seq<PlayerEntry>)
    | PongMessage
    | ErrorMessage(error: Bytes)
    | CellUpdateMessage(cellUpdates: seq<CellUpdate>, gameOver: bool, gameWon: bool,
                        revealed: Option<int>, hintsUsed: Option<int>,
                        loserPlayerId: Option<Bytes>, loserNickname: Option<Bytes>)

  /** A non-empty byte string, or absent: the `...(s ? { s } : {})` spread. */
  function NonEmpty(b: Bytes): (r: Option<Bytes>)
    ensures r.Some? <==> b != []
    ensures r.Some? ==> r.value == b
  {
    if b == [] then None else Some(b)
  }

  // ================================================================ specification

  function ReadOptionalShortString(s: Bytes, present: bool): (r: Result<Parsed<Bytes>>)
    ensures !present ==> r == Success(Parsed([], s))
  {
    if present then ReadShortString(s) else Success(Parsed([], s))
  }

  function ReadRowCol(s: Bytes): (r: Result<Parsed<Option<Pos>>>)
    ensures r.Success? <==> |s| >= 4
  {
    var row :- ReadU16(s);
    var col :- ReadU16(row.rest);
    Success(Parsed(Some(Pos(row.value, col.value)), col.rest))
  }

  function ReadOptionalU16(s: Bytes, present: bool): (r: Result<Parsed<Option<int>>>)
    ensures !present ==> r == Success(Parsed(None, s))
  {
    if present then
      var v :- ReadU16(s);
      Success(Parsed(Some(v.value), v.rest))
    else Success(Parsed(None, s))
  }

  function ReadOptionalU8(s: Bytes, present: bool): (r: Result<Parsed<Option<int>>>)
    ensures !present ==> r == Success(Parsed(None, s))
  {
    if present then
      var v :- ReadU8(s);
      Success(Parsed(Some(v.value as int), v.rest))
    else Success(Parsed(None, s))
  }

  /** The closing part of a chat frame: the system flag, the action and the clicked cell. */
  datatype ChatOptions = ChatOptions(isSystem: bool, action: Bytes, rowCol: Option<Pos>)

  /** The flag byte, then the action string and the row/col pair its bits announce. */
  function ReadChatOptions(s: Bytes): Result<Parsed<ChatOptions>> {
    var flags :- ReadU8(s);
    var action :- ReadOptionalShortString(flags.rest, HasBit(flags.value, 2));
    var rowCol :- if HasBit(flags.value, 4) then ReadRowCol(action.rest) else Success(Parsed(None, action.rest));
    Success(Parsed(ChatOptions(HasBit(flags.value, 1), action.value, rowCol.value), rowCol.rest))
  }

  /** The chat frame after its type byte. */
  function ChatSpec(s: Bytes): Result<Decoded> {
    var pid :- ReadIdSlot(s);
    var nickname :- ReadShortString(pid.rest);
    var color :- ReadShortString(nickname.rest);
    var text :- ReadShortString(color.rest);
    var options :- ReadChatOptions(text.rest);
    var o := options.value;
    Success(ChatMessage(pid.value, nickname.value, color.value, ChatBody(text.value, o.isSystem, NonEmpty(o.action), o.rowCol)))
  }

  /** The cursor frame after its type byte. */
  function CursorSpec(s: Bytes): Result<Decoded> {
    var pid :- ReadIdSlot(s);
    var nickname :- ReadShortString(pid.rest);
    var color :- ReadShortString(nickname.rest);
    var x :- ReadBytes(color.rest, 8);
    var y :- ReadBytes(x.rest, 8);
    Success(CursorMessage(pid.value, nickname.value, color.value, x.value, y.value))
  }

  /** One player record, read field by field: id slot, nickname, colour. */
  function ReadPlayerFields(s: Bytes): Result<Parsed<PlayerEntry>> {
    var id :- ReadIdSlot(s);
    var nickname :- ReadShortString(id.rest);
    var color :- ReadShortString(nickname.rest);
    Success(Parsed(PlayerEntry(id.value, nickname.value, color.value), color.rest))
  }

  /**
   * The same record located by offsets: the id slot spans bytes 0..6, the
   * nickname length sits at 6 and the colour length right after the nickname.
   */
  function ReadPlayer(s: Bytes): Result<Parsed<PlayerEntry>> {
    if |s| < 7 then Failure(RangeError)
    else
      var n := s[6] as int;
      if 8 + n > |s| then Failure(RangeError)
      else
        var c := s[7 + n] as int;
        if 8 + n + c > |s| then Failure(RangeError)
        else Success(Parsed(PlayerEntry(s[1..6][..Min(s[0], PlayerIdBudget)], s[7..7 + n], s[8 + n..8 + n + c]),
                            s[8 + n + c..]))
  }

  lemma ReadPlayerByOffsets(s: Bytes)
    ensures ReadPlayer(s) == ReadPlayerFields(s)
  {
    if |s| > 6 {
      ReadShortStringAt(s, 6);
      var n := s[6] as int;
      if 8 + n <= |s| {
        ReadShortStringAt(s, 7 + n);
      }
    }
  }

  /** The first `n` player records, read one after another. */
  function ReadPlayers(s: Bytes, n: nat): (r: Result<Parsed<seq<PlayerEntry>>>)
    ensures r.Success? ==> |r.value.value| == n
    decreases n
  {
    if n == 0 then Success(Parsed([], s))
    else
      var before :- ReadPlayers(s, n - 1);
      var p :- ReadPlayer(before.rest);
      Success(Parsed(before.value + [p.value], p.rest))
  }

  /** Once a record fails to read, so does every longer run, with the same error. */
  lemma {:induction false} ReadPlayersFailureSticks(s: Bytes, i: nat, j: nat)
    requires i <= j && ReadPlayers(s, i).Failure?
    ensures ReadPlayers(s, j) == Failure(ReadPlayers(s, i).error)
    decreases j
  {
    if j > i {
      ReadPlayersFailureSticks(s, i, j - 1);
    }
  }

  /** The players frame after its type byte: a count byte, then that many records. */
  function PlayersSpec(s: Bytes): Result<Decoded> {
    var count :- ReadU8(s);
    var players :- ReadPlayers(count.rest, count.value);
    Success(PlayersMessage(players.value))
  }

  /** The error frame after its type byte. */
  function ErrorSpec(s: Bytes): Result<Decoded> {
    var error :- ReadShortString(s);
    Success(ErrorMessage(error.value))
  }

  function ReadCellUpdate(s: Bytes): Result<Parsed<CellUpdate>> {
    var row :- ReadU16(s);
    var col :- ReadU16(row.rest);
    var t :- ReadU8(col.rest);
    Success(Parsed(CellUpdate(row.value, col.value, t.value), t.rest))
  }

  /** The first `n` five-byte cell updates, read one after another. */
  function ReadCellUpdates(s: Bytes, n: nat): (r: Result<Parsed<seq<CellUpdate>>>)
    ensures r.Success? ==> |r.value.value| == n
    decreases n
  {
    if n == 0 then Success(Parsed([], s))
    else
      var before :- ReadCellUpdates(s, n - 1);
      var u :- ReadCellUpdate(before.rest);
      Success(Parsed(before.value + [u.value], u.rest))
  }

  lemma {:induction false} ReadCellUpdatesFailureSticks(s: Bytes, i: nat, j: nat)
    requires i <= j && ReadCellUpdates(s, i).Failure?
    ensures ReadCellUpdates(s, j) == Failure(ReadCellUpdates(s, i).error)
    decreases j
  {
    if j > i {
      ReadCellUpdatesFailureSticks(s, i, j - 1);
    }
  }

  function ReadLoser(s: Bytes, gameOver: bool): Result<Parsed<(Bytes, Bytes)>> {
    if gameOver then
      var pid :- ReadIdSlot(s);
      var nickname :- ReadShortString(pid.rest);
      Success(Parsed((pid.value, nickname.value), nickname.rest))
    else Success(Parsed(([], []), s))
  }

  /** What a cell-update frame carries before its entry count. */
  datatype CellUpdateHeader = CellUpdateHeader(flags: byte, loser: (Bytes, Bytes), revealed: Option<int>, hintsUsed: Option<int>)

  /** The flag byte, then the loser, revealed and hintsUsed sections its bits announce. */
  function ReadCellUpdateHeader(s: Bytes): Result<Parsed<CellUpdateHeader>> {
    var flags :- ReadU8(s);
    var loser :- ReadLoser(flags.rest, HasBit(flags.value, 1));
    var revealed :- ReadOptionalU16(loser.rest, HasBit(flags.value, 4));
    var hintsUsed :- ReadOptionalU8(revealed.rest, HasBit(flags.value, 8));
    Success(Parsed(CellUpdateHeader(flags.value, loser.value, revealed.value, hintsUsed.value), hintsUsed.rest))
  }

  /** The cell-update frame after its type byte. */
  function CellUpdateSpec(s: Bytes): Result<Decoded> {
    var header :- ReadCellUpdateHeader(s);
    var count :- ReadU16(header.rest);
    var updates :- ReadCellUpdates(count.rest, count.value);
    var h := header.value;
    Success(CellUpdateMessage(updates.value, HasBit(h.flags, 1), HasBit(h.flags, 2),
      h.revealed, h.hintsUsed, NonEmpty(h.loser.0), NonEmpty(h.loser.1)))
  }

  /** `decodeBinaryMessage`: dispatch on the first byte. */
  function DecodeSpec(data: Bytes): (r: Result<Option<Decoded>>)
    ensures data == [] ==> r == Success(None)
    ensures data != [] && (data[0] == MessageTypeGameState || data[0] > MessageTypeCellUpdate) ==> r == Success(None)
    ensures data != [] && data[0] == MessageTypePong ==> r == Success(Some(PongMessage))
    ensures r.Success? && r.value.Some? ==> data != [] && 1 <= data[0] <= 6
  {
    if data == [] then Success(None)
    else
      var t := data[0];
      if t == MessageTypeChat then var m :- ChatSpec(data[1..]); Success(Some(m))
      else if t == MessageTypeCursor then var m :- CursorSpec(data[1..]); Success(Some(m))
      else if t == MessageTypePlayers then var m :- PlayersSpec(data[1..]); Success(Some(m))
      else if t == MessageTypePong then Success(Some(PongMessage))
      else if t == MessageTypeError then var m :- ErrorSpec(data[1..]); Success(Some(m))
      else if t == MessageTypeCellUpdate then var m :- CellUpdateSpec(data[1..]); Success(Some(m))
      else Success(None)
  }

  /** The frame body decoded by the decoder its type byte selects. */
  function DecodeBody(t: byte, body: Bytes): Result<Decoded>
    requires 1 <= t <= 6 && t != MessageTypePong
  {
    if t == MessageTypeChat then ChatSpec(body)
    else if t == MessageTypeCursor then CursorSpec(body)
    else if t == MessageTypePlayers then PlayersSpec(body)
    else if t == MessageTypeError then ErrorSpec(body)
    else CellUpdateSpec(body)
  }

  lemma DispatchesOnType(data: Bytes)
    requires data != [] && 1 <= data[0] <= 6 && data[0] != MessageTypePong
    ensures DecodeBody(data[0], data[1..]).Success? ==> DecodeSpec(data) == Success(Some(DecodeBody(data[0], data[1..]).value))
    ensures DecodeBody(data[0], data[1..]).Failure? ==> DecodeSpec(data) == Failure(DecodeBody(data[0], data[1..]).error)
  {
  }

  // ================================================================ decoders

  /** The tail of `decodeChatBinary`: flags, then the action and the row/col pair they announce. */
  method GetChatOptions(data: Bytes, start: nat) returns (r: Result<At<ChatOptions>>)
    requires start <= |data|
    ensures Tracks(data, r, ReadChatOptions(data[start..]))
  {
    var flags :- GetUint8(data, start);
    var isSystem := HasBit(flags.value, 1);
    var hasAction := HasBit(flags.value, 2);
    var hasRowCol := HasBit(flags.value, 4);
    var offset := flags.offset;
    var action: Bytes := [];
    if hasAction {
      var a :- GetShortString(data, offset);
      action, offset := a.value, a.offset;
    }
    assert ReadOptionalShortString(data[flags.offset..], hasAction) == Success(Parsed(action, data[offset..]));
    ghost var afterAction := offset;
    var row, col := -1, -1;
    if hasRowCol {
      var rr :- GetUint16(data, offset);
      var cc :- GetUint16(data, rr.offset);
      row, col, offset := rr.value, cc.value, cc.offset;
    }
    var rowCol := if row >= 0 && col >= 0 then Some(Pos(row, col)) else None;
    return Success(At(ChatOptions(isSystem, action, rowCol), offset));
  }

  /** `decodeChatBinary`: id slot, nickname, colour and text, then the options. */
  method DecodeChatBinary(data: Bytes) returns (r: Result<Decoded>)
    requires |data| >= 1
    ensures r == ChatSpec(data[1..])
  {
    var pid :- GetIdSlot(data, 1);
    var nickname :- GetShortString(data, pid.offset);
    var color :- GetShortString(data, nickname.offset);
    var text :- GetShortString(data, color.offset);
    var options :- GetChatOptions(data, text.offset);
    var o := options.value;
    return Success(ChatMessage(pid.value, nickname.value, color.value,
      ChatBody(text.value, o.isSystem, NonEmpty(o.action), o.rowCol)));
  }


  /** `decodeCursorBinary` */
  method DecodeCursorBinary(data: Bytes) returns (r: Result<Decoded>)
    requires |data| >= 1
    ensures r == CursorSpec(data[1..])
  {
    var pid :- GetIdSlot(data, 1);
    var nickname :- GetShortString(data, pid.offset);
    var color :- GetShortString(data, nickname.offset);
    var x :- GetBytes(data, color.offset, 8);
    var y :- GetBytes(data, x.offset, 8);
    return Success(CursorMessage(pid.value, nickname.value, color.value, x.value, y.value));
  }

  /** One player record: id slot, nickname, colour. */
  method GetPlayer(data: Bytes, offset: nat) returns (r: Result<At<PlayerEntry>>)
    requires offset <= |data|
    ensures Tracks(data, r, ReadPlayer(data[offset..]))
  {
    ReadPlayerByOffsets(data[offset..]);
    var id :- GetIdSlot(data, offset);
    var nickname :- GetShortString(data, id.offset);
    var color :- GetShortString(data, nickname.offset);
    return Success(At(PlayerEntry(id.value, nickname.value, color.value), color.offset));
  }

  /** The record loop of `decodePlayersBinary`. */
  method GetPlayers(data: Bytes, offset: nat, count: nat) returns (r: Result<At<seq<PlayerEntry>>>)
    requires offset <= |data|
    ensures Tracks(data, r, ReadPlayers(data[offset..], count))
  {
    var players: seq<PlayerEntry> := [];
    var pos: nat := offset;
    var i := 0;
    while i < count
      invariant i <= count && pos <= |data|
      invariant ReadPlayers(data[offset..], i) == Success(Parsed(players, data[pos..]))
    {
      var next := GetPlayer(data, pos);
      if next.Failure? {
        ReadPlayersFailureSticks(data[offset..], i + 1, count);
        return Failure(next.error);
      }
      players := players + [next.value.value];
      pos := next.value.offset;
      i := i + 1;
    }
    return Success(At(players, pos));
  }

  /** `decodePlayersBinary`: reads exactly as many records as the count byte says. */
  method DecodePlayersBinary(data: Bytes) returns (r: Result<Decoded>)
    requires |data| >= 1
    ensures r == PlayersSpec(data[1..])
    ensures r.Success? ==> r.value.PlayersMessage? && |r.value.players| == data[1]
  {
    var count :- GetUint8(data, 1);
    var players :- GetPlayers(data, count.offset, count.value);
    return Success(PlayersMessage(players.value));
  }

  /** `decodeErrorBinary` */
  method DecodeErrorBinary(data: Bytes) returns (r: Result<Decoded>)
    requires |data| >= 1
    ensures r == ErrorSpec(data[1..])
  {
    var error :- GetShortString(data, 1);
    return Success(ErrorMessage(error.value));
  }

  /** One cell-update entry: uint16 row, uint16 col, type byte. */
  method GetCellUpdate(data: Bytes, offset: nat) returns (r: Result<At<CellUpdate>>)
    requires offset <= |data|
    ensures Tracks(data, r, ReadCellUpdate(data[offset..]))
  {
    var row :- GetUint16(data, offset);
    var col :- GetUint16(data, row.offset);
    var t :- GetUint8(data, col.offset);
    return Success(At(CellUpdate(row.value, col.value, t.value), t.offset));
  }

  /** The entry loop of `decodeCellUpdateBinary`. */
  method GetCellUpdates(data: Bytes, offset: nat, count: nat) returns (r: Result<At<seq<CellUpdate>>>)
    requires offset <= |data|
    ensures Tracks(data, r, ReadCellUpdates(data[offset..], count))
  {
    var cellUpdates: seq<CellUpdate> := [];
    var pos: nat := offset;
    var i := 0;
    while i < count
      invariant i <= count && pos <= |data|
      invariant ReadCellUpdates(data[offset..], i) == Success(Parsed(cellUpdates, data[pos..]))
    {
      var next := GetCellUpdate(data, pos);
      if next.Failure? {
        ReadCellUpdatesFailureSticks(data[offset..], i + 1, count);
        return Failure(next.error);
      }
      cellUpdates := cellUpdates + [next.value.value];
      pos := next.value.offset;
      i := i + 1;
    }
    return Success(At(cellUpdates, pos));
  }

  /** The header part of `decodeCellUpdateBinary`: flags, then the sections they announce. */
  method GetCellUpdateHeader(data: Bytes, start: nat) returns (r: Result<At<CellUpdateHeader>>)
    requires start <= |data|
    ensures Tracks(data, r, ReadCellUpdateHeader(data[start..]))
  {
    var flags :- GetUint8(data, start);
    var gameOver := HasBit(flags.value, 1);
    var hasRevealed := HasBit(flags.value, 4);
    var hasHintsUsed := HasBit(flags.value, 8);
    var offset := flags.offset;
    var loserPlayerId: Bytes, loserNickname: Bytes := [], [];
    if gameOver {
      var pid :- GetIdSlot(data, offset);
      var nickname :- GetShortString(data, pid.offset);
      loserPlayerId, loserNickname, offset := pid.value, nickname.value, nickname.offset;
    }
    assert ReadLoser(data[flags.offset..], gameOver) == Success(Parsed((loserPlayerId, loserNickname), data[offset..]));
    ghost var afterLoser := offset;
    var revealed := -1;
    if hasRevealed {
      var v :- GetUint16(data, offset);
      revealed, offset := v.value, v.offset;
    }
    assert ReadOptionalU16(data[afterLoser..], hasRevealed)
        == Success(Parsed(if revealed >= 0 then Some(revealed) else None, data[offset..]));
    ghost var afterRevealed := offset;
    var hintsUsed: int := -1;
    if hasHintsUsed {
      var v :- GetUint8(data, offset);
      hintsUsed, offset := v.value, v.offset;
    }
    assert ReadOptionalU8(data[afterRevealed..], hasHintsUsed)
        == Success(Parsed(if hintsUsed >= 0 then Some(hintsUsed) else None, data[offset..]));
    return Success(At(CellUpdateHeader(flags.value, (loserPlayerId, loserNickname),
      if revealed >= 0 then Some(revealed) else None,
      if hintsUsed >= 0 then Some(hintsUsed) else None), offset));
  }

  /** `decodeCellUpdateBinary`: the header sections, the count, then `count` five-byte entries. */
  method DecodeCellUpdateBinary(data: Bytes) returns (r: Result<Decoded>)
    requires |data| >= 1
    ensures r == CellUpdateSpec(data[1..])
  {
    var header :- GetCellUpdateHeader(data, 1);
    var h := header.value;
    var count :- GetUint16(data, header.offset);
    var cellUpdates :- GetCellUpdates(data, count.offset, count.value);
    return Success(CellUpdateMessage(cellUpdates.value, HasBit(h.flags, 1), HasBit(h.flags, 2),
      h.revealed, h.hintsUsed, NonEmpty(h.loser.0), NonEmpty(h.loser.1)));
  }


  /** `decodeBinaryMessage` */
  method DecodeBinaryMessage(data: Bytes) returns (r: Result<Option<Decoded>>)
    ensures r == DecodeSpec(data)
  {
    if |data| == 0 {
      return Success(None);
    }
    var messageType := data[0];
    var m: Decoded;
    if messageType == MessageTypeGameState {
      return Success(None);
    } else if messageType == MessageTypeChat {
      m :- DecodeChatBinary(data);
    } else if messageType == MessageTypeCursor {
      m :- DecodeCursorBinary(data);
    } else if messageType == MessageTypePlayers {
      m :- DecodePlayersBinary(data);
    } else if messageType == MessageTypePong {
      return Success(Some(PongMessage));
    } else if messageType == MessageTypeError {
      m :- DecodeErrorBinary(data);
    } else if messageType == MessageTypeCellUpdate {
      m :- DecodeCellUpdateBinary(data);
    } else {
      return Success(None);
    }
    return Success(Some(m));
  }

  // ================================================================ Go encoder

  /** The flag byte of a cell update: bit 0 game over, bit 1 won, bit 2 revealed present, bit 3 hints present. */
  function CellUpdateFlags(gameOver: bool, gameWon: bool, revealed: int, hintsUsed: int): (f: byte)
    ensures HasBit(f, 1) == gameOver && HasBit(f, 2) == gameWon
    ensures HasBit(f, 4) == (revealed >= 0) && HasBit(f, 8) == (hintsUsed >= 0)
    ensures f < 16
  {
    FlagByte(gameOver, gameWon, revealed >= 0, hintsUsed >= 0)
  }

  /** One entry on the wire: uint16 row, uint16 col, type byte. */
  function UpdateBytes(u: CellUpdate): (r: Bytes)
    ensures |r| == 5
  {
    U16Bytes(WrapU16(u.row)) + U16Bytes(WrapU16(u.col)) + [u.cellType]
  }

  /** The entries in order, each appended after the ones before it. */
  function UpdatesBytes(us: seq<CellUpdate>): (r: Bytes)
    ensures |r| == 5 * |us|
  {
    if us == [] then [] else UpdatesBytes(us[..|us| - 1]) + UpdateBytes(us[|us| - 1])
  }

  /** The loser section: the id truncated to five bytes in its slot, the nickname capped at 255 bytes. */
  function LoserBytes(loserPlayerId: Bytes, loserNickname: Bytes): (r: Bytes) {
    var nickname := loserNickname[..Min(|loserNickname|, MaxNicknameBytes)];
    IdSlot(TruncatePlayerId(loserPlayerId)) + ShortString(nickname)
  }

  function LoserSection(gameOver: bool, loserPlayerId: Bytes, loserNickname: Bytes): Bytes {
    if gameOver then LoserBytes(loserPlayerId, loserNickname) else []
  }

  function RevealedSection(revealed: int): Bytes {
    if revealed >= 0 then U16Bytes(WrapU16(revealed)) else []
  }

  function HintsUsedSection(hintsUsed: int): Bytes {
    if hintsUsed >= 0 then [WrapU8(hintsUsed)] else []
  }

  /** Everything a cell-update frame carries after its flag byte and before its entry count. */
  function OptionalSections(gameOver: bool, revealed: int, hintsUsed: int, loserPlayerId: Bytes, loserNickname: Bytes): Bytes {
    LoserSection(gameOver, loserPlayerId, loserNickname) + RevealedSection(revealed) + HintsUsedSection(hintsUsed)
  }

  /** The frame `encodeCellUpdateBinary` produces. */
  function CellUpdateFrame(updates: seq<CellUpdate>, gameOver: bool, gameWon: bool, revealed: int, hintsUsed: int,
                           loserPlayerId: Bytes, loserNickname: Bytes): Bytes
  {
    var count := Min(|updates|, MaxUpdateCount);
    [MessageTypeCellUpdate, CellUpdateFlags(gameOver, gameWon, revealed, hintsUsed)]
    + OptionalSections(gameOver, revealed, hintsUsed, loserPlayerId, loserNickname)
    + U16Bytes(count)
    + UpdatesBytes(updates[..count])
  }

  /** `encodeCellUpdateBinary`, appending to a buffer step by step. */
  method EncodeCellUpdateBinary(updates: seq<CellUpdate>, gameOver: bool, gameWon: bool, revealed: int, hintsUsed: int,
                                loserPlayerId: Bytes, loserNickname: Bytes) returns (buf: Bytes)
    ensures buf == CellUpdateFrame(updates, gameOver, gameWon, revealed, hintsUsed, loserPlayerId, loserNickname)
  {
    var flags: byte := 0;
    if gameOver { flags := flags + 1; }
    if gameWon { flags := flags + 2; }
    if revealed >= 0 { flags := flags + 4; }
    if hintsUsed >= 0 { flags := flags + 8; }
    assert flags == CellUpdateFlags(gameOver, gameWon, revealed, hintsUsed);
    buf := [MessageTypeCellUpdate, flags];
    ghost var start := buf;
    ghost var loserPart := LoserSection(gameOver, loserPlayerId, loserNickname);
    ghost var revealedPart := RevealedSection(revealed);
    ghost var hintsPart := HintsUsedSection(hintsUsed);
    if gameOver {
      var loser := EncodeLoser(loserPlayerId, loserNickname);
      buf := buf + loser;
    } else {
      AppendNothing(start);
    }
    assert buf == start + loserPart;
    if revealed >= 0 {
      buf := buf + U16Bytes(WrapU16(revealed));
    } else {
      AppendNothing(buf);
    }
    assert buf == start + loserPart + revealedPart;
    if hintsUsed >= 0 {
      buf := buf + [WrapU8(hintsUsed)];
    } else {
      AppendNothing(buf);
    }
    assert buf == start + loserPart + revealedPart + hintsPart;
    Regroup(start, loserPart, revealedPart);
    Regroup(start, loserPart + revealedPart, hintsPart);
    var updateCount := |updates|;
    if |updates| > MaxUpdateCount {
      updateCount := MaxUpdateCount;
    }
    buf := buf + U16Bytes(updateCount);
    buf := AppendUpdates(buf, updates, updateCount);
  }

  /** The entry loop of `encodeCellUpdateBinary`: the first `count` updates, five bytes each. */
  method AppendUpdates(prefix: Bytes, updates: seq<CellUpdate>, count: nat) returns (buf: Bytes)
    requires count <= |updates|
    ensures buf == prefix + UpdatesBytes(updates[..count])
  {
    buf := prefix;
    var i := 0;
    while i < count
      invariant 0 <= i <= count
      invariant buf == prefix + UpdatesBytes(updates[..i])
    {
      var u := updates[i];
      var entry := U16Bytes(WrapU16(u.row)) + U16Bytes(WrapU16(u.col)) + [u.cellType];
      assert updates[..i + 1][..i] == updates[..i];
      buf := buf + entry;
      i := i + 1;
    }
  }

  /** The game-over section of `encodeCellUpdateBinary`: the loser's id slot and capped nickname. */
  method EncodeLoser(loserPlayerId: Bytes, loserNickname: Bytes) returns (buf: Bytes)
    ensures buf == LoserBytes(loserPlayerId, loserNickname)
  {
    var loserPid := TruncatePlayerId(loserPlayerId);
    var loserPidLen := |loserPid|;
    buf := [loserPidLen];
    buf := buf + loserPid + Zeros(PlayerIdBudget - loserPidLen);
    var nicknameBytes := loserNickname;
    var nicknameLen := |nicknameBytes|;
    if |nicknameBytes| > MaxNicknameBytes {
      nicknameLen := MaxNicknameBytes;
      nicknameBytes := nicknameBytes[..MaxNicknameBytes];
    }
    buf := buf + [nicknameLen];
    if nicknameLen > 0 {
      buf := buf + nicknameBytes;
    }
    assert nicknameBytes == loserNickname[..Min(|loserNickname|, MaxNicknameBytes)];
  }

  // ================================================================ round trips

  /** A frame of any decoded type is its body's decoding, wrapped as present. */
  lemma DecodesBody(t: byte, body: Bytes)
    requires 1 <= t <= 6 && t != MessageTypePong
    ensures DecodeBody(t, body).Success? ==> DecodeSpec([t] + body) == Success(Some(DecodeBody(t, body).value))
    ensures DecodeBody(t, body).Failure? ==> DecodeSpec([t] + body) == Failure(DecodeBody(t, body).error)
  {
    assert ([t] + body)[1..] == body;
    DispatchesOnType([t] + body);
  }

  /** What the browser sees of an update the server sent: coordinates reduced to 16 bits. */
  function Received(u: CellUpdate): CellUpdate {
    CellUpdate(WrapU16(u.row), WrapU16(u.col), u.cellType)
  }

  /** Every update as the browser sees it, in order (built from the front, as the decoder reads). */
  function ReceivedAll(us: seq<CellUpdate>): (r: seq<CellUpdate>)
    ensures |r| == |us|
  {
    if |us| == 0 then [] else ReceivedAll(us[..|us| - 1]) + [Received(us[|us| - 1])]
  }

  lemma {:induction false} ReceivedAllAt(us: seq<CellUpdate>, i: nat)
    requires i < |us|
    ensures ReceivedAll(us)[i] == Received(us[i])
    decreases |us|
  {
    if i < |us| - 1 {
      ReceivedAllAt(us[..|us| - 1], i);
    }
  }

  lemma ReadUpdateEncoded(u: CellUpdate, rest: Bytes)
    ensures ReadCellUpdate(UpdateBytes(u) + rest) == Success(Parsed(Received(u), rest))
  {
    var tail := [u.cellType] + rest;
    var afterRow := U16Bytes(WrapU16(u.col)) + tail;
    assert UpdateBytes(u) + rest == U16Bytes(WrapU16(u.row)) + afterRow;
    ReadU16Encoded(WrapU16(u.row), afterRow);
    ReadU16Encoded(WrapU16(u.col), tail);
    ReadU8Encoded(u.cellType, rest);
  }

  /** Reading one more entry after `k - 1` of them consumes exactly that entry's five bytes. */
  lemma ReadCellUpdatesStep(s: Bytes, k: nat, done: seq<CellUpdate>, u: CellUpdate, after: Bytes)
    requires k > 0
    requires ReadCellUpdates(s, k - 1) == Success(Parsed(done, UpdateBytes(u) + after))
    ensures ReadCellUpdates(s, k) == Success(Parsed(done + [Received(u)], after))
  {
    ReadUpdateEncoded(u, after);
  }

  /** The entries encoded in front of any suffix read back as the browser sees them, leaving the suffix. */
  lemma {:induction false} ReadUpdatesBytes(us: seq<CellUpdate>, rest: Bytes)
    ensures ReadCellUpdates(UpdatesBytes(us) + rest, |us|) == Success(Parsed(ReceivedAll(us), rest))
    decreases |us|
  {
    if us == [] {
      assert UpdatesBytes(us) + rest == rest;
    } else {
      var init, last := us[..|us| - 1], us[|us| - 1];
      ReadUpdatesBytes(init, UpdateBytes(last) + rest);
      Regroup(UpdatesBytes(init), UpdateBytes(last), rest);
      ReadCellUpdatesStep(UpdatesBytes(us) + rest, |us|, ReceivedAll(init), last, rest);
    }
  }

  lemma ReadAllUpdatesBytes(us: seq<CellUpdate>)
    ensures ReadCellUpdates(UpdatesBytes(us), |us|) == Success(Parsed(ReceivedAll(us), []))
  {
    ReadUpdatesBytes(us, []);
    AppendNothing(UpdatesBytes(us));
  }

  lemma ReadLoserEncoded(loserPlayerId: Bytes, loserNickname: Bytes, rest: Bytes)
    ensures ReadLoser(LoserBytes(loserPlayerId, loserNickname) + rest, true)
         == Success(Parsed((TruncatePlayerId(loserPlayerId), loserNickname[..Min(|loserNickname|, MaxNicknameBytes)]), rest))
  {
    var pid := TruncatePlayerId(loserPlayerId);
    var nickname := loserNickname[..Min(|loserNickname|, MaxNicknameBytes)];
    assert LoserBytes(loserPlayerId, loserNickname) + rest == IdSlot(pid) + (ShortString(nickname) + rest);
    ReadIdSlotEncoded(pid, ShortString(nickname) + rest);
    ReadShortStringEncoded(nickname, rest);
  }

  /** The cell update the browser decodes from a server frame. */
  function ExpectedCellUpdate(updates: seq<CellUpdate>, gameOver: bool, gameWon: bool, revealed: int, hintsUsed: int,
                              loserPlayerId: Bytes, loserNickname: Bytes): Decoded
  {
    CellUpdateMessage(
      ReceivedAll(updates[..Min(|updates|, MaxUpdateCount)]),
      gameOver, gameWon,
      if revealed >= 0 then Some(WrapU16(revealed)) else None,
      if hintsUsed >= 0 then Some(WrapU8(hintsUsed) as int) else None,
      if gameOver then NonEmpty(TruncatePlayerId(loserPlayerId)) else None,
      if gameOver then NonEmpty(loserNickname[..Min(|loserNickname|, MaxNicknameBytes)]) else None)
  }

  lemma CellUpdateFrameShape(updates: seq<CellUpdate>, gameOver: bool, gameWon: bool, revealed: int, hintsUsed: int,
                             loserPlayerId: Bytes, loserNickname: Bytes)
    ensures var count := Min(|updates|, MaxUpdateCount);
      CellUpdateFrame(updates, gameOver, gameWon, revealed, hintsUsed, loserPlayerId, loserNickname)
      == [MessageTypeCellUpdate] + ([CellUpdateFlags(gameOver, gameWon, revealed, hintsUsed)]
         + (LoserSection(gameOver, loserPlayerId, loserNickname) + (RevealedSection(revealed) + (HintsUsedSection(hintsUsed)
         + (U16Bytes(count) + UpdatesBytes(updates[..count]))))))
  {
    var count := Min(|updates|, MaxUpdateCount);
    var loser := LoserSection(gameOver, loserPlayerId, loserNickname);
    var revealedPart := RevealedSection(revealed);
    var hintsPart := HintsUsedSection(hintsUsed);
    var head: Bytes := [MessageTypeCellUpdate, CellUpdateFlags(gameOver, gameWon, revealed, hintsUsed)];
    var sections := OptionalSections(gameOver, revealed, hintsUsed, loserPlayerId, loserNickname);
    var tail := U16Bytes(count) + UpdatesBytes(updates[..count]);
    Regroup(head + sections, U16Bytes(count), UpdatesBytes(updates[..count]));
    Regroup(head, sections, tail);
    Regroup(loser + revealedPart, hintsPart, tail);
    Regroup(loser, revealedPart, hintsPart + tail);
    assert head == [MessageTypeCellUpdate] + [CellUpdateFlags(gameOver, gameWon, revealed, hintsUsed)];
    Regroup([MessageTypeCellUpdate], [CellUpdateFlags(gameOver, gameWon, revealed, hintsUsed)], loser + (revealedPart + (hintsPart + tail)));
  }

  lemma LoserSectionDecodes(gameOver: bool, loserPlayerId: Bytes, loserNickname: Bytes, rest: Bytes)
    ensures ReadLoser(LoserSection(gameOver, loserPlayerId, loserNickname) + rest, gameOver) == Success(Parsed(
      if gameOver then (TruncatePlayerId(loserPlayerId), loserNickname[..Min(|loserNickname|, MaxNicknameBytes)]) else ([], []),
      rest))
  {
    if gameOver {
      ReadLoserEncoded(loserPlayerId, loserNickname, rest);
    } else {
      assert [] + rest == rest;
    }
  }

  lemma RevealedSectionDecodes(revealed: int, rest: Bytes)
    ensures ReadOptionalU16(RevealedSection(revealed) + rest, revealed >= 0)
         == Success(Parsed(if revealed >= 0 then Some(WrapU16(revealed)) else None, rest))
  {
    if revealed >= 0 {
      ReadU16Encoded(WrapU16(revealed), rest);
    } else {
      assert [] + rest == rest;
    }
  }

  lemma HintsUsedSectionDecodes(hintsUsed: int, rest: Bytes)
    ensures ReadOptionalU8(HintsUsedSection(hintsUsed) + rest, hintsUsed >= 0)
         == Success(Parsed(if hintsUsed >= 0 then Some(WrapU8(hintsUsed) as int) else None, rest))
  {
    if hintsUsed >= 0 {
      ReadU8Encoded(WrapU8(hintsUsed), rest);
    } else {
      assert [] + rest == rest;
    }
  }

  /** `CellUpdateSpec` composes its section readers: each section read in turn, then the counted entries. */
  lemma CellUpdateSpecSections(flags: byte, loserPart: Bytes, revealedPart: Bytes, hintsPart: Bytes, tail: Bytes,
                               loser: (Bytes, Bytes), revealed: Option<int>, hintsUsed: Option<int>,
                               count: Parsed<int>, received: seq<CellUpdate>)
    requires ReadLoser(loserPart + (revealedPart + (hintsPart + tail)), HasBit(flags, 1))
             == Success(Parsed(loser, revealedPart + (hintsPart + tail)))
    requires ReadOptionalU16(revealedPart + (hintsPart + tail), HasBit(flags, 4)) == Success(Parsed(revealed, hintsPart + tail))
    requires ReadOptionalU8(hintsPart + tail, HasBit(flags, 8)) == Success(Parsed(hintsUsed, tail))
    requires ReadU16(tail) == Success(count)
    requires ReadCellUpdates(count.rest, count.value) == Success(Parsed(received, []))
    ensures CellUpdateSpec([flags] + (loserPart + (revealedPart + (hintsPart + tail))))
         == Success(CellUpdateMessage(received, HasBit(flags, 1), HasBit(flags, 2), revealed, hintsUsed,
              NonEmpty(loser.0), NonEmpty(loser.1)))
  {
    ReadU8Encoded(flags, loserPart + (revealedPart + (hintsPart + tail)));
  }

  /** The header sections decode in front of any tail whose count and entries read back as `received`. */
  lemma CellUpdateHeaderDecodes(gameOver: bool, gameWon: bool, revealed: int, hintsUsed: int,
                                loserPlayerId: Bytes, loserNickname: Bytes, tail: Bytes, count: Parsed<int>,
                                received: seq<CellUpdate>)
    requires ReadU16(tail) == Success(count)
    requires ReadCellUpdates(count.rest, count.value) == Success(Parsed(received, []))
    ensures CellUpdateSpec([CellUpdateFlags(gameOver, gameWon, revealed, hintsUsed)]
              + (LoserSection(gameOver, loserPlayerId, loserNickname) + (RevealedSection(revealed) + (HintsUsedSection(hintsUsed) + tail))))
         == Success(CellUpdateMessage(received, gameOver, gameWon,
              if revealed >= 0 then Some(WrapU16(revealed)) else None,
              if hintsUsed >= 0 then Some(WrapU8(hintsUsed) as int) else None,
              if gameOver then NonEmpty(TruncatePlayerId(loserPlayerId)) else None,
              if gameOver then NonEmpty(loserNickname[..Min(|loserNickname|, MaxNicknameBytes)]) else None))
  {
    var flags := CellUpdateFlags(gameOver, gameWon, revealed, hintsUsed);
    var loser := if gameOver then (TruncatePlayerId(loserPlayerId), loserNickname[..Min(|loserNickname|, MaxNicknameBytes)]) else ([], []);
    var hintsPart := HintsUsedSection(hintsUsed);
    var revealedPart := RevealedSection(revealed);
    LoserSectionDecodes(gameOver, loserPlayerId, loserNickname, revealedPart + (hintsPart + tail));
    RevealedSectionDecodes(revealed, hintsPart + tail);
    HintsUsedSectionDecodes(hintsUsed, tail);
    CellUpdateSpecSections(flags, LoserSection(gameOver, loserPlayerId, loserNickname), revealedPart, hintsPart, tail,
      loser, if revealed >= 0 then Some(WrapU16(revealed)) else None,
      if hintsUsed >= 0 then Some(WrapU8(hintsUsed) as int) else None, count, received);
  }

  /**
   * Decoding what the Go encoder writes recovers the flags, the loser (id
   * truncated to five bytes, nickname to 255), revealed and hintsUsed
   * reduced to their wire width, and the first 65535 updates.
   */
  lemma CellUpdateRoundTrip(updates: seq<CellUpdate>, gameOver: bool, gameWon: bool, revealed: int, hintsUsed: int,
                            loserPlayerId: Bytes, loserNickname: Bytes)
    ensures var frame := CellUpdateFrame(updates, gameOver, gameWon, revealed, hintsUsed, loserPlayerId, loserNickname);
      frame[0] == MessageTypeCellUpdate
      && CellUpdateSpec(frame[1..])
         == Success(ExpectedCellUpdate(updates, gameOver, gameWon, revealed, hintsUsed, loserPlayerId, loserNickname))
  {
    var count := Min(|updates|, MaxUpdateCount);
    var entries := UpdatesBytes(updates[..count]);
    var tail := U16Bytes(count) + entries;
    CellUpdateFrameShape(updates, gameOver, gameWon, revealed, hintsUsed, loserPlayerId, loserNickname);
    var frame := CellUpdateFrame(updates, gameOver, gameWon, revealed, hintsUsed, loserPlayerId, loserNickname);
    assert frame[1..] == [CellUpdateFlags(gameOver, gameWon, revealed, hintsUsed)]
      + (LoserSection(gameOver, loserPlayerId, loserNickname) + (RevealedSection(revealed) + (HintsUsedSection(hintsUsed) + tail)));
    ReadU16Encoded(count, entries);
    ReadAllUpdatesBytes(updates[..count]);
    CellUpdateHeaderDecodes(gameOver, gameWon, revealed, hintsUsed, loserPlayerId, loserNickname, tail,
      Parsed(count, entries), ReceivedAll(updates[..count]));
  }

  // ------------------------------------------------------- reference encoders

  predicate ChatEncodable(playerId: Bytes, nickname: Bytes, color: Bytes, text: Bytes, action: Bytes, rowCol: Option<Pos>) {
    |playerId| <= PlayerIdBudget && |nickname| < 256 && |color| < 256 && |text| < 256 && |action| < 256
    && (rowCol.Some? ==> 0 <= rowCol.value.row < 65536 && 0 <= rowCol.value.col < 65536)
  }

  /** The flag byte and optional fields closing a chat frame. */
  function ChatOptionsBytes(isSystem: bool, action: Bytes, rowCol: Option<Pos>): Bytes
    requires |action| < 256
    requires rowCol.Some? ==> 0 <= rowCol.value.row < 65536 && 0 <= rowCol.value.col < 65536
  {
    var flags := FlagByte(isSystem, action != [], rowCol.Some?, false);
    [flags]
    + ((if action != [] then ShortString(action) else [])
       + (match rowCol case Some(p) => U16Bytes(p.row) + U16Bytes(p.col) case None => []))
  }

  /** A chat frame body laid out the way `decodeChatBinary` reads it. */
  function ChatBodyBytes(playerId: Bytes, nickname: Bytes, color: Bytes, text: Bytes, isSystem: bool,
                         action: Bytes, rowCol: Option<Pos>): Bytes
    requires ChatEncodable(playerId, nickname, color, text, action, rowCol)
  {
    IdSlot(playerId) + (ShortString(nickname) + (ShortString(color) + (ShortString(text)
    + ChatOptionsBytes(isSystem, action, rowCol))))
  }

  lemma ReadRowColEncoded(p: Pos)
    requires 0 <= p.row < 65536 && 0 <= p.col < 65536
    ensures ReadRowCol(U16Bytes(p.row) + U16Bytes(p.col)) == Success(Parsed(Some(p), []))
  {
    ReadU16Encoded(p.row, U16Bytes(p.col));
    ReadU16Encoded(p.col, []);
    assert U16Bytes(p.col) == U16Bytes(p.col) + [];
  }

  /** `ChatSpec` composes its field readers. */
  lemma ChatSpecFields(s: Bytes, pid: Parsed<Bytes>, nickname: Parsed<Bytes>, color: Parsed<Bytes>, text: Parsed<Bytes>,
                       options: Parsed<ChatOptions>)
    requires ReadIdSlot(s) == Success(pid)
    requires ReadShortString(pid.rest) == Success(nickname)
    requires ReadShortString(nickname.rest) == Success(color)
    requires ReadShortString(color.rest) == Success(text)
    requires ReadChatOptions(text.rest) == Success(options)
    ensures ChatSpec(s) == Success(ChatMessage(pid.value, nickname.value, color.value,
              ChatBody(text.value, options.value.isSystem, NonEmpty(options.value.action), options.value.rowCol)))
  {
  }

  /** The closing part of a chat frame decodes to the flag, the action and the cell that were sent. */
  lemma ChatOptionsRoundTrip(isSystem: bool, action: Bytes, rowCol: Option<Pos>)
    requires |action| < 256
    requires rowCol.Some? ==> 0 <= rowCol.value.row < 65536 && 0 <= rowCol.value.col < 65536
    ensures ReadChatOptions(ChatOptionsBytes(isSystem, action, rowCol)) == Success(Parsed(ChatOptions(isSystem, action, rowCol), []))
  {
    var flags := FlagByte(isSystem, action != [], rowCol.Some?, false);
    var cell := match rowCol case Some(p) => U16Bytes(p.row) + U16Bytes(p.col) case None => [];
    var afterFlags := (if action != [] then ShortString(action) else []) + cell;
    ReadU8Encoded(flags, afterFlags);
    if action != [] {
      ReadShortStringEncoded(action, cell);
    } else {
      assert afterFlags == cell;
    }
    if rowCol.Some? {
      ReadRowColEncoded(rowCol.value);
    }
  }

  /** The chat frame decodes back to its fields; the action and the position appear exactly when sent. */
  lemma ChatRoundTrip(playerId: Bytes, nickname: Bytes, color: Bytes, text: Bytes, isSystem: bool,
                      action: Bytes, rowCol: Option<Pos>)
    requires ChatEncodable(playerId, nickname, color, text, action, rowCol)
    ensures ChatSpec(ChatBodyBytes(playerId, nickname, color, text, isSystem, action, rowCol))
            == Success(ChatMessage(playerId, nickname, color, ChatBody(text, isSystem, NonEmpty(action), rowCol)))
  {
    var t3 := ChatOptionsBytes(isSystem, action, rowCol);
    var t2 := ShortString(text) + t3;
    var t1 := ShortString(color) + t2;
    var t0 := ShortString(nickname) + t1;
    ReadIdSlotEncoded(playerId, t0);
    ReadShortStringEncoded(nickname, t1);
    ReadShortStringEncoded(color, t2);
    ReadShortStringEncoded(text, t3);
    ChatOptionsRoundTrip(isSystem, action, rowCol);
    ChatSpecFields(IdSlot(playerId) + t0, Parsed(playerId, t0), Parsed(nickname, t1), Parsed(color, t2), Parsed(text, t3),
      Parsed(ChatOptions(isSystem, action, rowCol), []));
  }


  predicate Encodable(p: PlayerEntry) {
    |p.id| <= PlayerIdBudget && |p.nickname| < 256 && |p.color| < 256
  }

  /** Every record fits its fields (checked from the last record back, as the records are appended). */
  predicate AllEncodable(ps: seq<PlayerEntry>) {
    ps != [] ==> AllEncodable(ps[..|ps| - 1]) && Encodable(ps[|ps| - 1])
  }

  function PlayerBytes(p: PlayerEntry): Bytes
    requires Encodable(p)
  {
    IdSlot(p.id) + (ShortString(p.nickname) + ShortString(p.color))
  }

  function PlayersBytes(ps: seq<PlayerEntry>): Bytes
    requires AllEncodable(ps)
  {
    if ps == [] then [] else PlayersBytes(ps[..|ps| - 1]) + PlayerBytes(ps[|ps| - 1])
  }

  lemma ReadPlayerEncoded(p: PlayerEntry, rest: Bytes)
    requires Encodable(p)
    ensures ReadPlayer(PlayerBytes(p) + rest) == Success(Parsed(p, rest))
  {
    var s := PlayerBytes(p) + rest;
    assert s == IdSlot(p.id) + (ShortString(p.nickname) + (ShortString(p.color) + rest));
    ReadIdSlotEncoded(p.id, ShortString(p.nickname) + (ShortString(p.color) + rest));
    ReadShortStringEncoded(p.nickname, ShortString(p.color) + rest);
    ReadShortStringEncoded(p.color, rest);
    ReadPlayerByOffsets(s);
  }

  /** Reading one more record after `k - 1` of them consumes exactly that record's bytes. */
  lemma ReadPlayersStep(init: seq<PlayerEntry>, last: PlayerEntry, rest: Bytes)
    requires AllEncodable(init) && Encodable(last)
    requires ReadPlayers(PlayersBytes(init) + (PlayerBytes(last) + rest), |init|) == Success(Parsed(init, PlayerBytes(last) + rest))
    ensures ReadPlayers(PlayersBytes(init + [last]) + rest, |init| + 1) == Success(Parsed(init + [last], rest))
  {
    var ps := init + [last];
    assert ps[..|ps| - 1] == init;
    Regroup(PlayersBytes(init), PlayerBytes(last), rest);
    ReadPlayerEncoded(last, rest);
  }

  /** The records encoded in front of any suffix read back one by one, leaving the suffix. */
  lemma {:induction false} ReadPlayersBytes(ps: seq<PlayerEntry>, rest: Bytes)
    requires AllEncodable(ps)
    ensures ReadPlayers(PlayersBytes(ps) + rest, |ps|) == Success(Parsed(ps, rest))
    decreases |ps|
  {
    if ps == [] {
      assert PlayersBytes(ps) + rest == rest;
    } else {
      var init, last := ps[..|ps| - 1], ps[|ps| - 1];
      ReadPlayersBytes(init, PlayerBytes(last) + rest);
      ReadPlayersStep(init, last, rest);
      FrontAndLast(ps);
    }
  }

  /** A players frame with up to 255 records decodes to exactly those records. */
  lemma PlayersRoundTrip(ps: seq<PlayerEntry>)
    requires |ps| < 256 && AllEncodable(ps)
    ensures PlayersSpec([|ps|] + PlayersBytes(ps)) == Success(PlayersMessage(ps))
  {
    ReadU8Encoded(|ps|, PlayersBytes(ps));
    ReadPlayersBytes(ps, []);
    AppendNothing(PlayersBytes(ps));
  }

  /** A cursor frame decodes to its id, names and the two raw coordinates. */
  lemma CursorRoundTrip(playerId: Bytes, nickname: Bytes, color: Bytes, x: Bytes, y: Bytes)
    requires |playerId| <= PlayerIdBudget && |nickname| < 256 && |color| < 256 && |x| == 8 && |y| == 8
    ensures CursorSpec(IdSlot(playerId) + (ShortString(nickname) + (ShortString(color) + (x + y))))
            == Success(CursorMessage(playerId, nickname, color, x, y))
  {
    ReadIdSlotEncoded(playerId, ShortString(nickname) + (ShortString(color) + (x + y)));
    ReadShortStringEncoded(nickname, ShortString(color) + (x + y));
    ReadShortStringEncoded(color, x + y);
    assert (x + y)[..8] == x && (x + y)[8..] == y;
    assert y[..8] == y;
  }

  /** An error frame decodes to its text. */
  lemma ErrorRoundTrip(error: Bytes)
    requires |error| < 256
    ensures ErrorSpec(ShortString(error)) == Success(ErrorMessage(error))
  {
    assert ShortString(error) == ShortString(error) + [];
    ReadShortStringEncoded(error, []);
  }

  /** A chat frame cut inside its id slot throws. */
  lemma ShortChatFrameThrows(data: Bytes)
    requires 1 <= |data| < 7 && data[0] == MessageTypeChat
    ensures DecodeSpec(data).Failure?
  {
  }
}

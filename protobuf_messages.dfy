/**
 * The field mapping around the schema-driven message format. The client
 * keeps its game state under short keys (`b`, `r`, `c`, `fc`, `lpid`, ...)
 * with optional entries left undefined; the schema has long field names
 * and proto3 defaults (`''`, `-1`, empty lists) in place of absence. The
 * schema library's own encoding is not modelled: a message here is the
 * object handed to, or returned by, that library.
 */
module ProtobufMessages {
  import opened Common

  /** `xs.map(f)`. */
  function Map<A, B>(xs: seq<A>, f: A -> B): (ys: seq<B>)
    ensures |ys| == |xs| && forall i :: 0 <= i < |xs| ==> ys[i] == f(xs[i])
  {
    seq(|xs|, i requires 0 <= i < |xs| => f(xs[i]))
  }

  /** Mapping with `g` undoes mapping with `f` on every element `g` inverts. */
  lemma MapInverse<A, B>(xs: seq<A>, f: A -> B, g: B -> A)
    requires forall i :: 0 <= i < |xs| ==> g(f(xs[i])) == xs[i]
    ensures Map(Map(xs, f), g) == xs
  {
  }

  /** JavaScript's `s || ''` on an optional string. */
  function OrEmpty(s: Option<string>): string {
    if s.Some? then s.value else ""
  }

  /** JavaScript's `s || undefined`: the empty string counts as absent. */
  function NonEmptyOrAbsent(s: string): (r: Option<string>)
    ensures r.None? <==> s == ""
    ensures r.Some? ==> r.value == s
  {
    if s == "" then None else Some(s)
  }

  /** An optional string the client can get back unchanged: absent, or not empty. */
  predicate Keepable(s: Option<string>) {
    s.None? || s.value != ""
  }

  /** `''` and absence are the only strings conflated by the pair. */
  lemma OptionalStringRoundTrip(s: Option<string>, w: string)
    ensures NonEmptyOrAbsent(OrEmpty(s)) == s <==> Keepable(s)
    ensures OrEmpty(NonEmptyOrAbsent(w)) == w
  {
  }

  // ---------------------------------------------------------------------
  // Game state

  /** A cell as the client keeps it. */
  datatype AppCell = AppCell(m: bool, r: bool, f: bool, n: int, fc: Option<string>)
  datatype AppSafeCell = AppSafeCell(r: int, c: int)
  datatype AppHint = AppHint(r: int, c: int, t: string)

  /** The client's game state; `sc`, `hints`, `lpid` and `ln` may be undefined. */
  datatype AppGameState = AppGameState(
    b: seq<seq<AppCell>>, r: int, c: int, m: int, gameOver: bool, gameWon: bool, rv: int, hu: int,
    sc: Option<seq<AppSafeCell>>, hints: Option<seq<AppHint>>, lpid: Option<string>, ln: Option<string>)

  /** A cell in the schema. */
  datatype PbCell = PbCell(isMine: bool, isRevealed: bool, isFlagged: bool, neighborMines: int, flagColor: string)
  datatype PbSafeCell = PbSafeCell(row: int, col: int)
  datatype PbCellHint = PbCellHint(row: int, col: int, hintType: string)

  /** The schema's game state: every field present. */
  datatype PbGameState = PbGameState(
    board: seq<seq<PbCell>>, rows: int, cols: int, mines: int, gameOver: bool, gameWon: bool,
    revealed: int, hintsUsed: int, safeCells: seq<PbSafeCell>, cellHints: seq<PbCellHint>,
    loserPlayerId: string, loserNickname: string)

  function CellToPb(cell: AppCell): PbCell {
    PbCell(cell.m, cell.r, cell.f, cell.n, OrEmpty(cell.fc))
  }

  function RowToPb(row: seq<AppCell>): seq<PbCell> {
    Map(row, CellToPb)
  }

  function SafeCellToPb(sc: AppSafeCell): PbSafeCell {
    PbSafeCell(sc.r, sc.c)
  }

  function HintToPb(h: AppHint): PbCellHint {
    PbCellHint(h.r, h.c, h.t)
  }

  /** `convertGameStateToProtobuf`: renames every field, `[]` for absent lists and `''` for absent strings. */
  function GameStateToPb(g: AppGameState): PbGameState {
    PbGameState(Map(g.b, RowToPb), g.r, g.c, g.m, g.gameOver, g.gameWon, g.rv, g.hu,
                Map(g.sc.GetOr([]), SafeCellToPb), Map(g.hints.GetOr([]), HintToPb),
                OrEmpty(g.lpid), OrEmpty(g.ln))
  }

  function CellFromPb(cell: PbCell): AppCell {
    AppCell(cell.isMine, cell.isRevealed, cell.isFlagged, cell.neighborMines, NonEmptyOrAbsent(cell.flagColor))
  }

  function RowFromPb(row: seq<PbCell>): seq<AppCell> {
    Map(row, CellFromPb)
  }

  function SafeCellFromPb(sc: PbSafeCell): AppSafeCell {
    AppSafeCell(sc.row, sc.col)
  }

  function HintFromPb(h: PbCellHint): AppHint {
    AppHint(h.row, h.col, h.hintType)
  }

  /** `convertProtobufToGameState`: the short keys back, `''` colours and loser fields undefined. */
  function GameStateFromPb(p: PbGameState): AppGameState {
    AppGameState(Map(p.board, RowFromPb), p.rows, p.cols, p.mines, p.gameOver, p.gameWon, p.revealed, p.hintsUsed,
                 Some(Map(p.safeCells, SafeCellFromPb)), Some(Map(p.cellHints, HintFromPb)),
                 NonEmptyOrAbsent(p.loserPlayerId), NonEmptyOrAbsent(p.loserNickname))
  }

  /** Every flag colour on the board is absent or not empty. */
  predicate ColorsKeepable(b: seq<seq<AppCell>>) {
    forall i, j :: 0 <= i < |b| && 0 <= j < |b[i]| ==> Keepable(b[i][j].fc)
  }

  /** A client state the mapping reproduces: colours and loser fields absent or set, both lists present. */
  predicate RoundTrips(g: AppGameState) {
    ColorsKeepable(g.b) && Keepable(g.lpid) && Keepable(g.ln) && g.sc.Some? && g.hints.Some?
  }

  lemma {:induction false} BoardRoundTrip(b: seq<seq<AppCell>>)
    requires ColorsKeepable(b)
    ensures Map(Map(b, RowToPb), RowFromPb) == b
  {
    forall i | 0 <= i < |b|
      ensures RowFromPb(RowToPb(b[i])) == b[i]
    {
      forall j | 0 <= j < |b[i]|
        ensures CellFromPb(CellToPb(b[i][j])) == b[i][j]
      {
        OptionalStringRoundTrip(b[i][j].fc, "");
      }
      MapInverse(b[i], CellToPb, CellFromPb);
    }
    MapInverse(b, RowToPb, RowFromPb);
  }

  /**
   * Converting a client state to the schema and back gives it back exactly
   * when its colours and loser fields are absent or non-empty and both of
   * its lists are present.
   */
  lemma {:induction false} ClientStateRoundTrip(g: AppGameState)
    ensures GameStateFromPb(GameStateToPb(g)) == g <==> RoundTrips(g)
  {
    var p := GameStateToPb(g);
    var back := GameStateFromPb(p);
    OptionalStringRoundTrip(g.lpid, "");
    OptionalStringRoundTrip(g.ln, "");
    if RoundTrips(g) {
      BoardRoundTrip(g.b);
      MapInverse(g.sc.value, SafeCellToPb, SafeCellFromPb);
      MapInverse(g.hints.value, HintToPb, HintFromPb);
    } else if !ColorsKeepable(g.b) {
      var i, j :| 0 <= i < |g.b| && 0 <= j < |g.b[i]| && !Keepable(g.b[i][j].fc);
      assert back.b[i][j].fc == None;
    } else {
      assert back.sc.Some? && back.hints.Some?;
    }
  }

  /** An absent safe-cell or hint list comes back as an empty one. */
  lemma AbsentListsComeBackEmpty(g: AppGameState)
    ensures g.sc.None? ==> GameStateFromPb(GameStateToPb(g)).sc == Some([])
    ensures g.hints.None? ==> GameStateFromPb(GameStateToPb(g)).hints == Some([])
  {
  }

  lemma {:induction false} BoardFromPbRoundTrip(board: seq<seq<PbCell>>)
    ensures Map(Map(board, RowFromPb), RowToPb) == board
  {
    forall i | 0 <= i < |board|
      ensures RowToPb(RowFromPb(board[i])) == board[i]
    {
      forall j | 0 <= j < |board[i]|
        ensures CellToPb(CellFromPb(board[i][j])) == board[i][j]
      {
        OptionalStringRoundTrip(None, board[i][j].flagColor);
      }
      MapInverse(board[i], CellFromPb, CellToPb);
    }
    MapInverse(board, RowFromPb, RowToPb);
  }

  /** In the other direction nothing is lost: every schema state survives the client's form. */
  lemma {:induction false} SchemaStateRoundTrip(p: PbGameState)
    ensures GameStateToPb(GameStateFromPb(p)) == p
  {
    BoardFromPbRoundTrip(p.board);
    MapInverse(p.safeCells, SafeCellFromPb, SafeCellToPb);
    MapInverse(p.cellHints, HintFromPb, HintToPb);
    OptionalStringRoundTrip(None, p.loserPlayerId);
    OptionalStringRoundTrip(None, p.loserNickname);
  }

  // ---------------------------------------------------------------------
  // Chat: an absent row or column travels as -1

  /** The chat body as the client keeps it. */
  datatype AppChat = AppChat(text: string, isSystem: bool, action: string, row: Option<int>, col: Option<int>)

  datatype PbChat = PbChat(playerId: string, nickname: string, color: string, text: string,
                           isSystem: bool, action: string, row: int, col: int)

  /** `x !== undefined ? x : -1`. */
  function OrMinusOne(x: Option<int>): int {
    if x.Some? then x.value else -1
  }

  /** `x >= 0 ? x : undefined`. */
  function NonNegativeOrAbsent(x: int): (r: Option<int>)
    ensures r.Some? <==> x >= 0
  {
    if x >= 0 then Some(x) else None
  }

  /** A coordinate survives the trip exactly when it is absent or not negative. */
  lemma CoordinateRoundTrip(x: Option<int>)
    ensures NonNegativeOrAbsent(OrMinusOne(x)) == x <==> (x.None? || x.value >= 0)
  {
  }

  /** The chat branch of `encodeProtobufMessage`. */
  function ChatToPb(playerId: Option<string>, nickname: Option<string>, color: Option<string>, chat: AppChat): PbChat {
    PbChat(OrEmpty(playerId), OrEmpty(nickname), OrEmpty(color), chat.text, chat.isSystem, chat.action,
           OrMinusOne(chat.row), OrMinusOne(chat.col))
  }

  /** The chat branch of `decodeProtobufMessage`. */
  function ChatFromPb(c: PbChat): AppChat {
    AppChat(c.text, c.isSystem, c.action, NonNegativeOrAbsent(c.row), NonNegativeOrAbsent(c.col))
  }

  /** A chat whose coordinates are absent or not negative comes back as it was sent. */
  lemma ChatRoundTrip(playerId: Option<string>, nickname: Option<string>, color: Option<string>, chat: AppChat)
    ensures ChatFromPb(ChatToPb(playerId, nickname, color, chat)) == chat <==>
              (chat.row.None? || chat.row.value >= 0) && (chat.col.None? || chat.col.value >= 0)
  {
    CoordinateRoundTrip(chat.row);
    CoordinateRoundTrip(chat.col);
  }

  // ---------------------------------------------------------------------
  // Decoding a server message

  datatype PbCursor = PbCursor(playerId: string, nickname: string, color: string, x: real, y: real)
  datatype PbPlayer = PbPlayer(id: string, nickname: string, color: string)
  datatype PbCellUpdate = PbCellUpdate(row: int, col: int, cellType: int)
  datatype PbCellUpdates = PbCellUpdates(gameOver: bool, gameWon: bool, revealed: int, hintsUsed: int,
                                         loserPlayerId: string, loserNickname: string, updates: seq<PbCellUpdate>)

  /** The one field a `WebSocketMessage` carries, or none. */
  datatype PbServerMessage =
    | GameStateField(gameState: PbGameState)
    | ChatField(chat: PbChat)
    | CursorField(cursor: PbCursor)
    | PlayersField(players: seq<PbPlayer>)
    | PongField
    | ErrorField(error: string)
    | CellUpdateField(cellUpdate: PbCellUpdates)
    | NoField

  /** The object `decodeProtobufMessage` returns. */
  datatype AppMessage =
    | GameStateMessage(gameState: AppGameState)
    | ChatMessage(playerId: string, nickname: string, color: string, chat: AppChat)
    | CursorMessage(playerId: string, nickname: string, color: string, pid: string, x: real, y: real)
    | PlayersMessage(players: seq<PbPlayer>)
    | PongMessage
    | ErrorMessage(error: string)
    | CellUpdateMessage(gameOver: bool, gameWon: bool, revealed: int, hintsUsed: int,
                        loserPlayerId: string, loserNickname: string, cellUpdates: seq<PbCellUpdate>)

  /**
   * `decodeProtobufMessage(data)`, given what the schema library makes of
   * `data`: an empty buffer throws before the library is asked, a library
   * failure is rethrown, and a message with no field is `null`.
   */
  function DecodeProtobufMessage(data: Bytes, parsed: Result<PbServerMessage>): (r: Result<Option<AppMessage>>)
    ensures data == [] ==> r == Failure("Empty buffer")
    ensures data != [] && parsed.Failure? ==> r.Failure?
    ensures data != [] && parsed == Success(NoField) ==> r == Success(None)
  {
    if |data| == 0 then Failure("Empty buffer")
    else if parsed.Failure? then Failure("Failed to decode protobuf message: " + parsed.error)
    else Success(ToAppMessage(parsed.value))
  }

  function ToAppMessage(m: PbServerMessage): Option<AppMessage> {
    match m
    case GameStateField(g) => Some(GameStateMessage(GameStateFromPb(g)))
    case ChatField(c) => Some(ChatMessage(c.playerId, c.nickname, c.color, ChatFromPb(c)))
    case CursorField(c) => Some(CursorMessage(c.playerId, c.nickname, c.color, c.playerId, c.x, c.y))
    case PlayersField(ps) => Some(PlayersMessage(ps))
    case PongField => Some(PongMessage)
    case ErrorField(e) => Some(ErrorMessage(e))
    case CellUpdateField(u) =>
      Some(CellUpdateMessage(u.gameOver, u.gameWon, u.revealed, u.hintsUsed, u.loserPlayerId, u.loserNickname, u.updates))
    case NoField => None
  }

  /** A decoded message is the kind of the field that was set, and the cursor's `pid` is its player id. */
  lemma DecodedKindMatches(data: Bytes, m: PbServerMessage)
    requires data != []
    ensures var r := DecodeProtobufMessage(data, Success(m));
            r.Success? && (r.value.None? <==> m.NoField?) &&
            (m.GameStateField? ==> r.value.value.GameStateMessage?) &&
            (m.ChatField? ==> r.value.value.ChatMessage?) &&
            (m.PongField? ==> r.value == Some(PongMessage)) &&
            (m.CursorField? ==> r.value.value.CursorMessage? && r.value.value.pid == r.value.value.playerId == m.cursor.playerId)
  {
  }

  // ---------------------------------------------------------------------
  // Client messages: the client's encoder and the server's dispatch

  datatype Point = Point(x: real, y: real)
  datatype Click = Click(row: int, col: int, flag: bool)
  datatype Cell = Cell(row: int, col: int)

  /** The message the client sends; `None` payloads stand for a missing sub-object. */
  datatype ClientRequest =
    | NicknameRequest(nickname: string)
    | CursorRequest(cursor: Option<Point>)
    | CellClickRequest(cellClick: Option<Click>)
    | HintRequest(hint: Option<Cell>)
    | NewGameRequest
    | ChatRequest(text: Option<string>)
    | PingRequest
    | OtherRequest

  datatype PbClientCursor = PbClientCursor(playerId: string, nickname: string, color: string, x: real, y: real)
  datatype PbClientChat = PbClientChat(playerId: string, nickname: string, color: string, text: string,
                                       isSystem: bool, action: string, row: int, col: int)

  /** A `ClientMessage` with proto3 defaults: `''`, absent sub-messages, false markers. */
  datatype PbClientMessage = PbClientMessage(
    nickname: string, cursor: Option<PbClientCursor>, cellClick: Option<Click>, hint: Option<Cell>,
    newGame: bool, chat: Option<PbClientChat>, ping: bool)

  const EmptyClientMessage := PbClientMessage("", None, None, None, false, None, false)

  /** `encodeClientMessage`: one field per request kind; identity fields blank, chat never a system message. */
  function EncodeClientMessage(m: ClientRequest): PbClientMessage {
    match m
    case NicknameRequest(n) => EmptyClientMessage.(nickname := n)
    case CursorRequest(c) =>
      if c.Some? then EmptyClientMessage.(cursor := Some(PbClientCursor("", "", "", c.value.x, c.value.y)))
      else EmptyClientMessage
    case CellClickRequest(c) => EmptyClientMessage.(cellClick := c)
    case HintRequest(h) => EmptyClientMessage.(hint := h)
    case NewGameRequest => EmptyClientMessage.(newGame := true)
    case ChatRequest(t) =>
      if t.Some? then EmptyClientMessage.(chat := Some(PbClientChat("", "", "", t.value, false, "", -1, -1)))
      else EmptyClientMessage
    case PingRequest => EmptyClientMessage.(ping := true)
    case OtherRequest => EmptyClientMessage
  }

  /** The server's `game.Message`. */
  datatype GameMessage =
    | NicknameMessage(nickname: string)
    | CursorPositionMessage(playerId: string, x: real, y: real)
    | CellClickMessage(row: int, col: int, flag: bool)
    | HintMessage(row: int, col: int)
    | NewGameMessage
    | ChatTextMessage(text: string, isSystem: bool, action: string, row: int, col: int)
    | PingMessage

  /**
   * `decodeClientMessageProtobuf` after the library has parsed the bytes:
   * the first of nickname (when not empty), cursor, cell click, hint, new
   * game, chat and ping that is set decides the message; none set is an
   * error.
   */
  function DecodeClientMessage(parsed: Result<PbClientMessage>): (r: Result<GameMessage>)
    ensures parsed.Success? && parsed.value.nickname != "" ==> r == Success(NicknameMessage(parsed.value.nickname))
    ensures parsed.Success? && parsed.value.cellClick.Some? && parsed.value.nickname == "" && parsed.value.cursor.None? ==>
              r == Success(CellClickMessage(parsed.value.cellClick.value.row, parsed.value.cellClick.value.col, parsed.value.cellClick.value.flag))
    ensures parsed.Success? && parsed.value.hint.Some? && parsed.value.nickname == "" && parsed.value.cursor.None? && parsed.value.cellClick.None? ==>
              r == Success(HintMessage(parsed.value.hint.value.row, parsed.value.hint.value.col))
    ensures r.Failure? <==> parsed.Failure? || parsed == Success(EmptyClientMessage)
  {
    if parsed.Failure? then Failure("unmarshal: " + parsed.error)
    else
      var m := parsed.value;
      if m.nickname != "" then Success(NicknameMessage(m.nickname))
      else if m.cursor.Some? then Success(CursorPositionMessage(m.cursor.value.playerId, m.cursor.value.x, m.cursor.value.y))
      else if m.cellClick.Some? then Success(CellClickMessage(m.cellClick.value.row, m.cellClick.value.col, m.cellClick.value.flag))
      else if m.hint.Some? then Success(HintMessage(m.hint.value.row, m.hint.value.col))
      else if m.newGame then Success(NewGameMessage)
      else if m.chat.Some? then
        var c := m.chat.value;
        Success(ChatTextMessage(c.text, c.isSystem, c.action, c.row, c.col))
      else if m.ping then Success(PingMessage)
      else Failure("unknown message type in ClientMessage")
  }

  /** What the server makes of a request the client sent, when the library carries the message unchanged. */
  function Received(m: ClientRequest): Option<GameMessage> {
    match m
    case NicknameRequest(n) => if n != "" then Some(NicknameMessage(n)) else None
    case CursorRequest(c) => if c.Some? then Some(CursorPositionMessage("", c.value.x, c.value.y)) else None
    case CellClickRequest(c) => if c.Some? then Some(CellClickMessage(c.value.row, c.value.col, c.value.flag)) else None
    case HintRequest(h) => if h.Some? then Some(HintMessage(h.value.row, h.value.col)) else None
    case NewGameRequest => Some(NewGameMessage)
    case ChatRequest(t) => if t.Some? then Some(ChatTextMessage(t.value, false, "", -1, -1)) else None
    case PingRequest => Some(PingMessage)
    case OtherRequest => None
  }

  /**
   * Client and server agree: every request reaches the server as the
   * message of its own kind with its own coordinates and text, a chat as a
   * non-system message at (-1, -1); an empty nickname, a missing payload
   * or an unknown kind is the server's "unknown message type" error.
   */
  lemma ClientServerAgree(m: ClientRequest)
    ensures var r := DecodeClientMessage(Success(EncodeClientMessage(m)));
            (r.Success? <==> Received(m).Some?) && (r.Success? ==> r.value == Received(m).value)
  {
  }
}

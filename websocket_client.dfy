/**
 * The browser-side connection object `WebSocketClient`: connection and
 * intentional disconnection, linear reconnect back-off, ping/pong liveness,
 * the outgoing cursor throttle and player-id truncation on send.
 *
 * Every callback the browser would run (socket open/close, a timer firing,
 * a pong arriving) is a method; `now` is the value `Date.now()` returns in
 * that callback, in milliseconds. Frames handed to the socket are appended
 * to `sent` (their JSON text is not modelled).
 */
module WebSocketClientModel {
  import opened Common

  const MaxReconnectAttempts: int := 5
  const ReconnectDelay: int := 1000
  const CursorThrottleDelay: int := 100
  const PingIntervalDelay: int := 30000
  const PongTimeout: int := 10000
  /** A cursor must move this many pixels on some axis to bypass the throttle. */
  const CursorMinMove: real := 5.0

  datatype ReadyState = Connecting | Open | Closing | Closed

  datatype Point = Point(x: real, y: real)

  datatype CursorPayload = CursorPayload(pid: string, x: real, y: real)
  datatype CellClickPayload = CellClickPayload(row: int, col: int, flag: bool)
  datatype HintPayload = HintPayload(row: int, col: int)
  datatype ChatPayload = ChatPayload(text: string, isSystem: Option<bool>, action: Option<string>, row: Option<int>, col: Option<int>)
  /** The identifier fields of an outgoing game state; the board and counters pass through untouched. */
  datatype GameStatePayload = GameStatePayload(lpid: Option<string>, ln: Option<string>)

  /** `WebSocketMessage`: a type tag and optional payloads. */
  datatype Message = Message(
    kind: string,
    playerId: Option<string>,
    nickname: Option<string>,
    cursor: Option<CursorPayload>,
    cellClick: Option<CellClickPayload>,
    hint: Option<HintPayload>,
    gameState: Option<GameStatePayload>,
    chat: Option<ChatPayload>)

  function Bare(kind: string): Message {
    Message(kind, None, None, None, None, None, None, None)
  }

  /** `truncatePlayerId`: an absent id stays absent, a present one keeps its first five characters. */
  function TruncateOptionalId(id: Option<string>): (r: Option<string>)
    ensures r.Some? <==> id.Some?
    ensures id.Some? ==> r.value <= id.value && |r.value| == Min(|id.value|, PlayerIdBudget)
  {
    match id
    case None => None
    case Some(s) => Some(TruncatePlayerId(s))
  }

  /** The message `send` serialises: every player id shortened, everything else as given. */
  function Optimize(m: Message): (r: Message)
    ensures r.kind == m.kind && r.nickname == m.nickname && r.cellClick == m.cellClick
    ensures r.hint == m.hint && r.chat == m.chat
    ensures r.playerId == TruncateOptionalId(m.playerId)
    ensures r.cursor.Some? <==> m.cursor.Some?
    ensures m.cursor.Some? ==> r.cursor.value == m.cursor.value.(pid := TruncatePlayerId(m.cursor.value.pid))
    ensures r.gameState.Some? <==> m.gameState.Some?
    ensures m.gameState.Some? ==> r.gameState.value == m.gameState.value.(lpid := TruncateOptionalId(m.gameState.value.lpid))
  {
    m.(playerId := TruncateOptionalId(m.playerId),
       cursor := match m.cursor
                 case None => None
                 case Some(c) => Some(c.(pid := TruncatePlayerId(c.pid))),
       gameState := match m.gameState
                    case None => None
                    case Some(g) => Some(g.(lpid := TruncateOptionalId(g.lpid))))
  }

  /** Every identifier a message carries is at most five characters long. */
  predicate IdsWithinBudget(m: Message) {
    (m.playerId.Some? ==> |m.playerId.value| <= PlayerIdBudget)
    && (m.cursor.Some? ==> |m.cursor.value.pid| <= PlayerIdBudget)
    && (m.gameState.Some? && m.gameState.value.lpid.Some? ==> |m.gameState.value.lpid.value| <= PlayerIdBudget)
  }

  /**
   * Outgoing ids always fit the budget; a message whose ids already fit is
   * sent exactly as given, so optimising twice changes nothing.
   */
  lemma OptimizeFacts(m: Message)
    ensures IdsWithinBudget(Optimize(m))
    ensures IdsWithinBudget(m) ==> Optimize(m) == m
    ensures Optimize(Optimize(m)) == Optimize(m)
  {
    TruncatePlayerIdFacts(if m.playerId.Some? then m.playerId.value else "");
    if m.cursor.Some? {
      TruncatePlayerIdFacts(m.cursor.value.pid);
    }
    if m.gameState.Some? && m.gameState.value.lpid.Some? {
      TruncatePlayerIdFacts(m.gameState.value.lpid.value);
    }
  }

  /** `Math.round(v * 100) / 100` on exact reals: the nearest hundredth, halves rounded up. */
  function RoundToHundredths(v: real): (r: real)
    ensures v - 0.005 < r <= v + 0.005
  {
    ((v * 100.0 + 0.5).Floor as real) / 100.0
  }

  function AbsReal(r: real): real { if r < 0.0 then -r else r }

  /** The cursor message the throttle sends; the server fills in the real id. */
  function CursorMessage(p: Point): (m: Message)
    ensures m.kind == "cursor" && m.cursor == Some(CursorPayload("", p.x, p.y))
    ensures IdsWithinBudget(m)
  {
    Bare("cursor").(cursor := Some(CursorPayload("", p.x, p.y)))
  }

  /** The throttle's decision to drop a position: close to the last sent one and within 100 ms. */
  predicate CursorSuppressed(last: Option<Point>, lastSendTime: int, p: Point, now: int) {
    last.Some? && AbsReal(p.x - last.value.x) < CursorMinMove && AbsReal(p.y - last.value.y) < CursorMinMove
    && now - lastSendTime < CursorThrottleDelay
  }

  class WebSocketClient {
    /** Whether `new WebSocket(url)` accepts the URL (it throws on a malformed one). */
    const urlValid: bool
    var ws: Option<ReadyState>
    var reconnectAttempts: int
    /** Due instants of the reconnect timeouts scheduled and not yet run. */
    var reconnectTimers: seq<int>
    /** Due instant of the deferred cursor send, if one is scheduled. */
    var cursorThrottleTimer: Option<int>
    var lastCursorPosition: Option<Point>
    var pendingCursorPosition: Option<Point>
    var lastCursorSendTime: int
    var pingActive: bool
    var lastPongTime: int
    /** Due instant of the pong watchdog, if one is armed (a fired watchdog keeps its stale handle). */
    var pongTimeout: Option<int>
    var isIntentionallyDisconnected: bool
    var sent: seq<Message>

    predicate Valid()
      reads this
    {
      0 <= reconnectAttempts <= MaxReconnectAttempts
      && (pongTimeout.Some? ==> pingActive)
    }

    /** Every field but the record of sent messages keeps its value. */
    twostate predicate AllButSentUnchanged()
      reads this
    {
      ws == old(ws) && reconnectAttempts == old(reconnectAttempts) && reconnectTimers == old(reconnectTimers)
      && cursorThrottleTimer == old(cursorThrottleTimer) && lastCursorPosition == old(lastCursorPosition)
      && pendingCursorPosition == old(pendingCursorPosition) && lastCursorSendTime == old(lastCursorSendTime)
      && pingActive == old(pingActive) && lastPongTime == old(lastPongTime) && pongTimeout == old(pongTimeout)
      && isIntentionallyDisconnected == old(isIntentionallyDisconnected)
    }

    /** The cursor throttle's state keeps its value. */
    twostate predicate CursorStateUnchanged()
      reads this
    {
      cursorThrottleTimer == old(cursorThrottleTimer) && lastCursorPosition == old(lastCursorPosition)
      && pendingCursorPosition == old(pendingCursorPosition) && lastCursorSendTime == old(lastCursorSendTime)
    }

    /** The retry counter, the pending reconnect timeouts and the intentional flag keep their values. */
    twostate predicate ReconnectStateUnchanged()
      reads this
    {
      reconnectAttempts == old(reconnectAttempts) && reconnectTimers == old(reconnectTimers)
      && isIntentionallyDisconnected == old(isIntentionallyDisconnected)
    }

    constructor (urlValid: bool)
      ensures Valid()
      ensures this.urlValid == urlValid && ws == None && reconnectAttempts == 0 && reconnectTimers == []
      ensures cursorThrottleTimer == None && lastCursorPosition == None && pendingCursorPosition == None
      ensures lastCursorSendTime == 0 && !pingActive && lastPongTime == 0 && pongTimeout == None
      ensures !isIntentionallyDisconnected && sent == []
    {
      this.urlValid := urlValid;
      ws := None;
      reconnectAttempts := 0;
      reconnectTimers := [];
      cursorThrottleTimer := None;
      lastCursorPosition := None;
      pendingCursorPosition := None;
      lastCursorSendTime := 0;
      pingActive := false;
      lastPongTime := 0;
      pongTimeout := None;
      isIntentionallyDisconnected := false;
      sent := [];
    }

    function IsConnected(): (r: bool)
      reads this
      ensures r <==> ws == Some(Open)
    {
      ws.Some? && ws.value == Open
    }

    // ------------------------------------------------------------ sending

    /** `send`: transmits the optimised message only while the socket is OPEN. */
    method Send(m: Message)
      modifies this
      ensures IsConnected() ==> sent == old(sent) + [Optimize(m)]
      ensures !IsConnected() ==> sent == old(sent)
      ensures AllButSentUnchanged()
    {
      if ws.Some? && ws.value == Open {
        sent := sent + [Optimize(m)];
      }
    }

    method SendNickname(nickname: string)
      requires Valid()
      modifies this
      ensures Valid()
      ensures sent == old(sent) + (if IsConnected() then [Bare("nickname").(nickname := Some(nickname))] else [])
      ensures AllButSentUnchanged()
    {
      Send(Bare("nickname").(nickname := Some(nickname)));
    }

    method SendCellClick(row: int, col: int, flag: bool)
      requires Valid()
      modifies this
      ensures Valid()
      ensures sent == old(sent) + (if IsConnected() then [Bare("cellClick").(cellClick := Some(CellClickPayload(row, col, flag)))] else [])
      ensures AllButSentUnchanged()
    {
      Send(Bare("cellClick").(cellClick := Some(CellClickPayload(row, col, flag))));
    }

    method SendHint(row: int, col: int)
      requires Valid()
      modifies this
      ensures Valid()
      ensures sent == old(sent) + (if IsConnected() then [Bare("hint").(hint := Some(HintPayload(row, col)))] else [])
      ensures AllButSentUnchanged()
    {
      Send(Bare("hint").(hint := Some(HintPayload(row, col))));
    }

    method SendNewGame()
      requires Valid()
      modifies this
      ensures Valid()
      ensures sent == old(sent) + (if IsConnected() then [Bare("newGame")] else [])
      ensures AllButSentUnchanged()
    {
      Send(Bare("newGame"));
    }

    /** `sendChatMessage`: the client never marks its own chat as a system message. */
    method SendChatMessage(text: string)
      requires Valid()
      modifies this
      ensures Valid()
      ensures sent == old(sent) + (if IsConnected() then [Bare("chat").(chat := Some(ChatPayload(text, Some(false), None, None, None)))] else [])
      ensures AllButSentUnchanged()
    {
      Send(Bare("chat").(chat := Some(ChatPayload(text, Some(false), None, None, None))));
    }

    // ------------------------------------------------------- connection

    /** `connect`: clears the intentional flag and opens a new socket, or retries if the URL is rejected. */
    method Connect(now: int)
      requires Valid()
      modifies this
      ensures Valid()
      ensures !isIntentionallyDisconnected
      ensures urlValid ==> ws == Some(Connecting) && reconnectAttempts == old(reconnectAttempts)
                           && reconnectTimers == old(reconnectTimers)
      ensures !urlValid ==> ws == old(ws)
      ensures !urlValid && old(reconnectAttempts) < MaxReconnectAttempts ==>
                reconnectAttempts == old(reconnectAttempts) + 1
                && reconnectTimers == old(reconnectTimers) + [now + ReconnectDelay * reconnectAttempts]
      ensures !urlValid && old(reconnectAttempts) >= MaxReconnectAttempts ==>
                reconnectAttempts == old(reconnectAttempts) && reconnectTimers == old(reconnectTimers)
      ensures sent == old(sent) && pingActive == old(pingActive) && pongTimeout == old(pongTimeout)
      ensures CursorStateUnchanged() && lastPongTime == old(lastPongTime)
    {
      isIntentionallyDisconnected := false;
      if urlValid {
        ws := Some(Connecting);
      } else {
        AttemptReconnect(now);
      }
    }

    /** `attemptReconnect`: at most five attempts, the k-th after k seconds, never after an intentional disconnect. */
    method AttemptReconnect(now: int)
      requires Valid()
      modifies this
      ensures Valid()
      ensures isIntentionallyDisconnected || old(reconnectAttempts) >= MaxReconnectAttempts ==>
                reconnectAttempts == old(reconnectAttempts) && reconnectTimers == old(reconnectTimers)
      ensures !isIntentionallyDisconnected && old(reconnectAttempts) < MaxReconnectAttempts ==>
                reconnectAttempts == old(reconnectAttempts) + 1
                && reconnectTimers == old(reconnectTimers) + [now + ReconnectDelay * reconnectAttempts]
      ensures ws == old(ws) && sent == old(sent) && isIntentionallyDisconnected == old(isIntentionallyDisconnected)
      ensures pingActive == old(pingActive) && pongTimeout == old(pongTimeout)
      ensures CursorStateUnchanged() && lastPongTime == old(lastPongTime)
    {
      if isIntentionallyDisconnected {
        return;
      }
      if reconnectAttempts < MaxReconnectAttempts {
        reconnectAttempts := reconnectAttempts + 1;
        reconnectTimers := reconnectTimers + [now + ReconnectDelay * reconnectAttempts];
      }
    }

    /**
     * The reconnect timeout at index `i` runs and leaves the pending list:
     * it reconnects unless the user disconnected meanwhile; a rejected URL
     * schedules the next retry, if any is left.
     */
    method ReconnectTimerFired(i: nat, now: int)
      requires Valid() && i < |reconnectTimers|
      modifies this
      ensures Valid()
      ensures var rest := old(reconnectTimers)[..i] + old(reconnectTimers)[i + 1..];
        if old(isIntentionallyDisconnected) then
          ws == old(ws) && isIntentionallyDisconnected
          && reconnectAttempts == old(reconnectAttempts) && reconnectTimers == rest
        else if urlValid then
          ws == Some(Connecting) && !isIntentionallyDisconnected
          && reconnectAttempts == old(reconnectAttempts) && reconnectTimers == rest
        else if old(reconnectAttempts) < MaxReconnectAttempts then
          ws == old(ws) && !isIntentionallyDisconnected
          && reconnectAttempts == old(reconnectAttempts) + 1
          && reconnectTimers == rest + [now + ReconnectDelay * reconnectAttempts]
        else
          ws == old(ws) && !isIntentionallyDisconnected
          && reconnectAttempts == old(reconnectAttempts) && reconnectTimers == rest
      ensures sent == old(sent) && pingActive == old(pingActive) && pongTimeout == old(pongTimeout)
      ensures CursorStateUnchanged() && lastPongTime == old(lastPongTime)
    {
      reconnectTimers := reconnectTimers[..i] + reconnectTimers[i + 1..];
      if !isIntentionallyDisconnected {
        Connect(now);
      }
    }

    /** `onopen`: resets the retry counter, records a fresh pong instant and (re)starts pinging. */
    method SocketOpened(now: int)
      requires Valid() && ws == Some(Connecting)
      modifies this
      ensures Valid()
      ensures ws == Some(Open) && reconnectAttempts == 0 && lastPongTime == now
      ensures pingActive && pongTimeout == None && !isIntentionallyDisconnected
      ensures sent == old(sent) && reconnectTimers == old(reconnectTimers)
      ensures CursorStateUnchanged()
    {
      ws := Some(Open);
      reconnectAttempts := 0;
      lastPongTime := now;
      isIntentionallyDisconnected := false;
      StartPingInterval();
    }

    /**
     * `onclose`: stops pinging, then retries unless the close was
     * intentional. `current` says whether the closing socket is the one the
     * client holds: a socket replaced by `disconnect` and `connect` still
     * runs its own handler, which then stops the new socket's pinging and,
     * the flag being cleared again, schedules a retry beside it.
     */
    method SocketClosed(now: int, current: bool)
      requires Valid()
      modifies this
      ensures Valid()
      ensures current && old(ws).Some? ==> ws == Some(Closed)
      ensures !current || old(ws).None? ==> ws == old(ws)
      ensures !pingActive && pongTimeout == None
      ensures isIntentionallyDisconnected == old(isIntentionallyDisconnected)
      ensures isIntentionallyDisconnected || old(reconnectAttempts) >= MaxReconnectAttempts ==>
                reconnectAttempts == old(reconnectAttempts) && reconnectTimers == old(reconnectTimers)
      ensures !isIntentionallyDisconnected && old(reconnectAttempts) < MaxReconnectAttempts ==>
                reconnectAttempts == old(reconnectAttempts) + 1
                && reconnectTimers == old(reconnectTimers) + [now + ReconnectDelay * reconnectAttempts]
      ensures sent == old(sent)
      ensures CursorStateUnchanged() && lastPongTime == old(lastPongTime)
    {
      if current && ws.Some? {
        ws := Some(Closed);
      }
      StopPingInterval();
      if !isIntentionallyDisconnected {
        AttemptReconnect(now);
      }
    }

    // ------------------------------------------------------- liveness

    method StartPingInterval()
      modifies this
      ensures pingActive && pongTimeout == None
      ensures ws == old(ws) && sent == old(sent) && reconnectAttempts == old(reconnectAttempts)
      ensures reconnectTimers == old(reconnectTimers)
      ensures lastPongTime == old(lastPongTime) && isIntentionallyDisconnected == old(isIntentionallyDisconnected)
      ensures CursorStateUnchanged()
    {
      StopPingInterval();
      pingActive := true;
    }

    method StopPingInterval()
      modifies this
      ensures !pingActive && pongTimeout == None
      ensures ws == old(ws) && sent == old(sent) && reconnectAttempts == old(reconnectAttempts)
      ensures reconnectTimers == old(reconnectTimers) && lastPongTime == old(lastPongTime)
      ensures isIntentionallyDisconnected == old(isIntentionallyDisconnected)
      ensures CursorStateUnchanged()
    {
      pingActive := false;
      pongTimeout := None;
    }

    /** The 30-second ping interval fires: while OPEN, send a ping and re-arm the 10-second watchdog. */
    method PingTick(now: int)
      requires Valid() && pingActive
      modifies this
      ensures Valid()
      ensures IsConnected() ==> sent == old(sent) + [Bare("ping")] && pongTimeout == Some(now + PongTimeout)
      ensures !IsConnected() ==> sent == old(sent) && pongTimeout == old(pongTimeout)
      ensures ws == old(ws) && reconnectAttempts == old(reconnectAttempts) && reconnectTimers == old(reconnectTimers)
      ensures cursorThrottleTimer == old(cursorThrottleTimer) && lastCursorPosition == old(lastCursorPosition)
      ensures pendingCursorPosition == old(pendingCursorPosition) && lastCursorSendTime == old(lastCursorSendTime)
      ensures pingActive == old(pingActive) && lastPongTime == old(lastPongTime)
      ensures isIntentionallyDisconnected == old(isIntentionallyDisconnected)
    {
      if ws.Some? && ws.value == Open {
        Send(Bare("ping"));
        pongTimeout := Some(now + PongTimeout);
      }
    }

    /** The watchdog fires: close the socket if no pong arrived for more than ten seconds. */
    method PongTimeoutFired(now: int)
      requires Valid() && pongTimeout.Some?
      modifies this
      ensures Valid()
      ensures now - lastPongTime > PongTimeout && old(ws) in {Some(Connecting), Some(Open)} ==> ws == Some(Closing)
      ensures !(now - lastPongTime > PongTimeout && old(ws) in {Some(Connecting), Some(Open)}) ==> ws == old(ws)
      ensures sent == old(sent) && pingActive == old(pingActive) && pongTimeout == old(pongTimeout)
      ensures ReconnectStateUnchanged() && CursorStateUnchanged() && lastPongTime == old(lastPongTime)
    {
      if now - lastPongTime > PongTimeout && ws.Some? {
        if ws.value == Connecting || ws.value == Open {
          ws := Some(Closing);
        }
      }
    }

    /** A `pong` message arrives: remember when and disarm the watchdog. */
    method PongReceived(now: int)
      requires Valid()
      modifies this
      ensures Valid()
      ensures lastPongTime == now && pongTimeout == None
      ensures ws == old(ws) && sent == old(sent) && pingActive == old(pingActive)
      ensures ReconnectStateUnchanged() && CursorStateUnchanged()
    {
      lastPongTime := now;
      pongTimeout := None;
    }

    // ------------------------------------------------------- cursor throttle

    /**
     * `sendCursor`: the rounded position becomes pending; it is dropped when
     * it barely moved within 100 ms, sent at once when 100 ms have passed,
     * and otherwise left for the single deferred send due 100 ms after the
     * last one.
     */
    method SendCursor(x: real, y: real, now: int)
      requires Valid()
      modifies this
      ensures Valid()
      ensures var p := Point(RoundToHundredths(x), RoundToHundredths(y));
        if CursorSuppressed(old(lastCursorPosition), old(lastCursorSendTime), p, now) then
          pendingCursorPosition == Some(p) && sent == old(sent) && cursorThrottleTimer == old(cursorThrottleTimer)
          && lastCursorPosition == old(lastCursorPosition) && lastCursorSendTime == old(lastCursorSendTime)
        else if now - old(lastCursorSendTime) >= CursorThrottleDelay then
          pendingCursorPosition == None && lastCursorPosition == Some(p) && lastCursorSendTime == now
          && sent == old(sent) + (if IsConnected() then [CursorMessage(p)] else [])
          && cursorThrottleTimer == old(cursorThrottleTimer)
        else
          pendingCursorPosition == Some(p) && sent == old(sent)
          && lastCursorPosition == old(lastCursorPosition) && lastCursorSendTime == old(lastCursorSendTime)
          && cursorThrottleTimer == (if old(cursorThrottleTimer).Some? then old(cursorThrottleTimer)
                                     else Some(old(lastCursorSendTime) + CursorThrottleDelay))
      ensures ws == old(ws) && pingActive == old(pingActive) && pongTimeout == old(pongTimeout)
      ensures ReconnectStateUnchanged() && lastPongTime == old(lastPongTime)
    {
      var p := Point(RoundToHundredths(x), RoundToHundredths(y));
      pendingCursorPosition := Some(p);
      if lastCursorPosition.Some? {
        var dx := AbsReal(p.x - lastCursorPosition.value.x);
        var dy := AbsReal(p.y - lastCursorPosition.value.y);
        if dx < CursorMinMove && dy < CursorMinMove && now - lastCursorSendTime < CursorThrottleDelay {
          return;
        }
      }
      if now - lastCursorSendTime >= CursorThrottleDelay {
        lastCursorPosition := Some(p);
        lastCursorSendTime := now;
        OptimizeFacts(CursorMessage(p));
        Send(CursorMessage(p));
        pendingCursorPosition := None;
        return;
      }
      if cursorThrottleTimer.None? {
        var delay := CursorThrottleDelay - (now - lastCursorSendTime);
        cursorThrottleTimer := Some(now + delay);
      }
    }

    /** The deferred cursor send runs: it sends the latest pending position, if any, and frees the timer slot. */
    method CursorTimerFired(now: int)
      requires Valid() && cursorThrottleTimer.Some?
      modifies this
      ensures Valid()
      ensures cursorThrottleTimer == None && pendingCursorPosition == None
      ensures old(pendingCursorPosition).Some? ==>
                lastCursorPosition == old(pendingCursorPosition) && lastCursorSendTime == now
                && sent == old(sent) + (if IsConnected() then [CursorMessage(old(pendingCursorPosition).value)] else [])
      ensures old(pendingCursorPosition).None? ==>
                lastCursorPosition == old(lastCursorPosition) && lastCursorSendTime == old(lastCursorSendTime)
                && sent == old(sent)
      ensures ws == old(ws) && pingActive == old(pingActive) && pongTimeout == old(pongTimeout)
      ensures ReconnectStateUnchanged() && lastPongTime == old(lastPongTime)
    {
      if pendingCursorPosition.Some? {
        var p := pendingCursorPosition.value;
        lastCursorPosition := Some(p);
        lastCursorSendTime := now;
        OptimizeFacts(CursorMessage(p));
        Send(CursorMessage(p));
        pendingCursorPosition := None;
      }
      cursorThrottleTimer := None;
    }

    // ------------------------------------------------------- disconnect

    /** `disconnect`: marks the close as intentional, cancels every timer it owns and forgets cursor and pong state. */
    method Disconnect()
      requires Valid()
      modifies this
      ensures Valid()
      ensures isIntentionallyDisconnected && ws == None
      ensures !pingActive && pongTimeout == None && cursorThrottleTimer == None
      ensures lastCursorPosition == None && pendingCursorPosition == None
      ensures lastCursorSendTime == 0 && lastPongTime == 0 && reconnectAttempts == 0
      ensures sent == old(sent) && reconnectTimers == old(reconnectTimers)
    {
      isIntentionallyDisconnected := true;
      StopPingInterval();
      cursorThrottleTimer := None;
      ws := None;
      lastCursorPosition := None;
      pendingCursorPosition := None;
      lastCursorSendTime := 0;
      lastPongTime := 0;
      reconnectAttempts := 0;
    }
  }

  /**
   * The late close of a replaced socket: after an open socket is dropped by
   * `disconnect` and a new one is created by `connect`, the old socket's
   * close event stops pinging and schedules a retry while the new socket is
   * still connecting.
   */
  method ReplacedSocketCloses(now: int) returns (c: WebSocketClient)
    ensures c.ws == Some(Connecting) && !c.isIntentionallyDisconnected && !c.pingActive
    ensures c.reconnectAttempts == 1 && c.reconnectTimers == [now + ReconnectDelay]
  {
    c := new WebSocketClient(true);
    c.Connect(now);
    c.SocketOpened(now);
    c.Disconnect();
    c.Connect(now);
    c.SocketClosed(now, false);
  }

  /** The k-th consecutive retry waits k seconds, so the five retries span 15 seconds in total. */
  function ReconnectDelays(attempts: nat): (r: seq<int>)
    ensures |r| == Min(attempts, MaxReconnectAttempts)
    ensures forall k :: 0 <= k < |r| ==> r[k] == ReconnectDelay * (k + 1)
  {
    if attempts == 0 then []
    else if attempts > MaxReconnectAttempts then ReconnectDelays(MaxReconnectAttempts)
    else ReconnectDelays(attempts - 1) + [ReconnectDelay * attempts]
  }

  function Sum(s: seq<int>): int {
    if s == [] then 0 else Sum(s[..|s| - 1]) + s[|s| - 1]
  }

  lemma {:induction false} ReconnectBackoffTotal(attempts: nat)
    ensures 2 * Sum(ReconnectDelays(attempts)) ==
            ReconnectDelay * Min(attempts, MaxReconnectAttempts) * (Min(attempts, MaxReconnectAttempts) + 1)
    ensures Sum(ReconnectDelays(attempts)) <= 15000
    decreases attempts
  {
    if attempts > MaxReconnectAttempts {
      ReconnectBackoffTotal(MaxReconnectAttempts);
    } else if attempts > 0 {
      var a := attempts;
      ReconnectBackoffTotal(a - 1);
      var r := ReconnectDelays(a);
      assert r[..|r| - 1] == ReconnectDelays(a - 1);
      assert Sum(r) == Sum(ReconnectDelays(a - 1)) + ReconnectDelay * a;
      assert (a - 1) * a + 2 * a == a * (a + 1);
      assert a * (a + 1) <= 30 by {
        assert a <= 5;
      }
    }
  }

  /** Within 100 ms of the last send, only a first position or a move of at least 5 pixels escapes the throttle. */
  lemma EarlyPositionPassesOnlyIfFar(last: Option<Point>, lastSendTime: int, p: Point, now: int)
    requires !CursorSuppressed(last, lastSendTime, p, now)
    requires now - lastSendTime < CursorThrottleDelay
    ensures last.None? || AbsReal(p.x - last.value.x) >= CursorMinMove || AbsReal(p.y - last.value.y) >= CursorMinMove
  {
  }
}

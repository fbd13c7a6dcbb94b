/**
 * A connected player on the server side and its cursor rate limiter.
 * Coordinates are reals (float64 rounding is not modelled); instants are
 * nanoseconds on the server clock, supplied by the caller.
 */
module Players {

  /** 100 ms, the minimum interval between two cursor broadcasts of one player. */
  const CursorInterval: int := 100_000_000
  /** The squared distance (5 units) a cursor must move to bypass the interval. */
  const MinSquaredDistance: real := 25.0

  lemma SquarePositive(a: real)
    ensures a * a >= 0.0
    ensures a != 0.0 ==> a * a > 0.0
  {
    if a < 0.0 {
      var m := -a;
      assert m > 0.0;
      assert m * m > 0.0;
      assert a * a == m * m;
    } else if a > 0.0 {
      assert a * a > 0.0;
    }
  }

  function SquaredDistance(x0: real, y0: real, x1: real, y1: real): (d: real)
    ensures d >= 0.0
    ensures x0 == x1 && y0 == y1 ==> d == 0.0
  {
    SquarePositive(x1 - x0);
    SquarePositive(y1 - y0);
    (x1 - x0) * (x1 - x0) + (y1 - y0) * (y1 - y0)
  }

  /**
   * The throttling rule: an update is dropped only when it comes less than
   * 100 ms after the last accepted one AND moves less than 5 units.
   */
  predicate CursorUpdateAllowed(lastX: real, lastY: real, lastTime: int, x: real, y: real, now: int) {
    !(now - lastTime < CursorInterval && SquaredDistance(lastX, lastY, x, y) < MinSquaredDistance)
  }

  class Player {
    const id: string
    const userId: int
    var nickname: string
    var color: string
    var lastCursorX: real
    var lastCursorY: real
    var lastCursorSendTime: int

    /** `lastSend` stands for the zero `time.Time`, which lies far before any real instant. */
    constructor (id: string, userId: int, nickname: string, color: string, lastSend: int)
      ensures this.id == id && this.userId == userId && this.nickname == nickname && this.color == color
      ensures lastCursorX == 0.0 && lastCursorY == 0.0 && lastCursorSendTime == lastSend
    {
      this.id := id;
      this.userId := userId;
      this.nickname := nickname;
      this.color := color;
      lastCursorX := 0.0;
      lastCursorY := 0.0;
      lastCursorSendTime := lastSend;
    }

    /** `SetNickname`: replaces the nickname and nothing else. */
    method SetNickname(nickname: string)
      modifies this
      ensures this.nickname == nickname
      ensures color == old(color) && lastCursorX == old(lastCursorX) && lastCursorY == old(lastCursorY)
      ensures lastCursorSendTime == old(lastCursorSendTime)
    {
      this.nickname := nickname;
    }

    /**
     * `UpdateCursor`: a rejected update leaves the player untouched; an
     * accepted one records the position and the instant.
     */
    method UpdateCursor(x: real, y: real, now: int) returns (accepted: bool)
      modifies this
      ensures accepted == CursorUpdateAllowed(old(lastCursorX), old(lastCursorY), old(lastCursorSendTime), x, y, now)
      ensures !accepted ==> lastCursorX == old(lastCursorX) && lastCursorY == old(lastCursorY)
                            && lastCursorSendTime == old(lastCursorSendTime)
      ensures accepted ==> lastCursorX == x && lastCursorY == y && lastCursorSendTime == now
      ensures nickname == old(nickname) && color == old(color)
    {
      var timeSinceLastSend := now - lastCursorSendTime;
      var dx := x - lastCursorX;
      var dy := y - lastCursorY;
      var distance := dx * dx + dy * dy;
      assert distance == SquaredDistance(lastCursorX, lastCursorY, x, y);
      if timeSinceLastSend < CursorInterval && distance < MinSquaredDistance {
        return false;
      }
      lastCursorX := x;
      lastCursorY := y;
      lastCursorSendTime := now;
      return true;
    }
  }

  /**
   * After an update at `t` is accepted, repeating the same position less than
   * 100 ms later is dropped, while any update 100 ms or more later is accepted.
   */
  lemma RepeatWithinIntervalRejected(x: real, y: real, t: int, now: int)
    ensures now - t < CursorInterval ==> !CursorUpdateAllowed(x, y, t, x, y, now)
    ensures now - t >= CursorInterval ==> forall x', y' :: CursorUpdateAllowed(x, y, t, x', y', now)
  {
  }

  /** A move of at least 5 units in one axis is never throttled. */
  lemma LargeMoveAlwaysAllowed(lastX: real, lastY: real, lastTime: int, x: real, y: real, now: int)
    requires x - lastX >= 5.0 || lastX - x >= 5.0
    ensures CursorUpdateAllowed(lastX, lastY, lastTime, x, y, now)
  {
    var dx := x - lastX;
    var dy := y - lastY;
    assert dx * dx >= 25.0 by {
      if dx >= 5.0 {
        assert dx * dx >= 5.0 * dx;
      } else {
        assert -dx >= 5.0;
        assert dx * dx == (-dx) * (-dx) >= 5.0 * (-dx);
      }
    }
    SquarePositive(dy);
    assert SquaredDistance(lastX, lastY, x, y) == dx * dx + dy * dy;
  }
}

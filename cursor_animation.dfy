/**
 * The client's remote-cursor interpolator: a map from player id to a cursor
 * record that an animation loop moves a fifth of the way to its target on
 * every frame, snapping when closer than 0.05 on both axes.
 * Coordinates are reals; the browser's frame scheduler is modelled by the
 * caller passing the handle `requestAnimationFrame` would return.
 */
module CursorAnimation {
  import opened Common

  datatype Cursor = Cursor(x: real, y: real, targetX: real, targetY: real)

  /** A `requestAnimationFrame` handle: always a non-zero integer, hence truthy. */
  type FrameHandle = h: int | h > 0 witness 1

  const LerpFactor: real := 0.2
  const SnapDistance: real := 0.05

  function Abs(r: real): real { if r < 0.0 then -r else r }

  function Max(a: real, b: real): real { if a < b then b else a }

  /** The larger of the two axis gaps between a cursor and its target. */
  function Gap(c: Cursor): (g: real)
    ensures g >= 0.0
    ensures g == 0.0 <==> AtTarget(c)
  {
    Max(Abs(c.targetX - c.x), Abs(c.targetY - c.y))
  }

  predicate AtTarget(c: Cursor) {
    c.x == c.targetX && c.y == c.targetY
  }

  predicate Snaps(c: Cursor) {
    Abs(c.targetX - c.x) < SnapDistance && Abs(c.targetY - c.y) < SnapDistance
  }

  /** One frame of the loop body for a single cursor. */
  function Step(c: Cursor): (r: Cursor)
    ensures r.targetX == c.targetX && r.targetY == c.targetY
    ensures Snaps(c) ==> AtTarget(r)
    ensures !Snaps(c) ==> r.targetX - r.x == 0.8 * (c.targetX - c.x) && r.targetY - r.y == 0.8 * (c.targetY - c.y)
  {
    var dx := c.targetX - c.x;
    var dy := c.targetY - c.y;
    if Snaps(c) then c.(x := c.targetX, y := c.targetY)
    else c.(x := c.x + dx * LerpFactor, y := c.y + dy * LerpFactor)
  }

  /** Every cursor of the map advanced by one frame. */
  function StepAll(m: map<string, Cursor>): (r: map<string, Cursor>)
    ensures r.Keys == m.Keys
    ensures forall k :: k in r ==> r[k] == Step(m[k])
  {
    map k | k in m :: Step(m[k])
  }

  /** The map after `updateCursor` has recorded the new target (before any frame runs). */
  function Retarget(m: map<string, Cursor>, id: string, x: real, y: real): (r: map<string, Cursor>)
    ensures r.Keys == m.Keys + {id}
    ensures forall k :: k in m && k != id ==> r[k] == m[k]
    ensures id !in m ==> r[id] == Cursor(x, y, x, y)
    ensures id in m ==> r[id] == m[id].(targetX := x, targetY := y)
  {
    if id in m then m[id := m[id].(targetX := x, targetY := y)]
    else m[id := Cursor(x, y, x, y)]
  }

  class CursorAnimator {
    var cursors: map<string, Cursor>
    var animationFrameId: Option<FrameHandle>
    var isAnimating: bool

    /** A frame is scheduled exactly while animating, and only while some cursor exists. */
    predicate Valid()
      reads this
    {
      (isAnimating <==> animationFrameId.Some?) && (isAnimating ==> |cursors| > 0)
    }

    constructor ()
      ensures Valid()
      ensures cursors == map[] && !isAnimating && animationFrameId == None
    {
      cursors := map[];
      animationFrameId := None;
      isAnimating := false;
    }

    /** `animate`: steps every cursor, then reschedules itself while the map is non-empty. */
    method Animate(frame: FrameHandle)
      modifies this
      ensures cursors == StepAll(old(cursors))
      ensures |cursors| > 0 ==> isAnimating == old(isAnimating) && animationFrameId == Some(frame)
      ensures |cursors| == 0 ==> !isAnimating && animationFrameId == None
    {
      var toVisit := cursors.Keys;
      while toVisit != {}
        invariant toVisit <= cursors.Keys == old(cursors).Keys
        invariant isAnimating == old(isAnimating)
        invariant forall k :: k in cursors ==>
                    cursors[k] == if k in toVisit then old(cursors)[k] else Step(old(cursors)[k])
        decreases toVisit
      {
        var id :| id in toVisit;
        cursors := cursors[id := Step(cursors[id])];
        toVisit := toVisit - {id};
      }
      assert cursors == StepAll(old(cursors));
      if |cursors| > 0 {
        animationFrameId := Some(frame);
      } else {
        isAnimating := false;
        animationFrameId := None;
      }
    }

    /** `startAnimation`: runs one frame at once when not already animating. */
    method StartAnimation(frame: FrameHandle)
      requires Valid()
      modifies this
      ensures Valid()
      ensures old(isAnimating) ==> cursors == old(cursors) && animationFrameId == old(animationFrameId)
      ensures !old(isAnimating) ==> cursors == StepAll(old(cursors))
      ensures !old(isAnimating) && |old(cursors)| > 0 ==> isAnimating && animationFrameId == Some(frame)
    {
      if !isAnimating {
        isAnimating := true;
        Animate(frame);
      }
    }

    /** `updateCursor`: records the target (a fresh id starts at its target) and starts the loop. */
    method UpdateCursor(playerId: string, x: real, y: real, frame: FrameHandle)
      requires Valid()
      modifies this
      ensures Valid()
      ensures isAnimating && animationFrameId.Some?
      ensures old(isAnimating) ==> cursors == Retarget(old(cursors), playerId, x, y)
                                   && animationFrameId == old(animationFrameId)
      ensures !old(isAnimating) ==> cursors == StepAll(Retarget(old(cursors), playerId, x, y))
                                    && animationFrameId == Some(frame)
    {
      if playerId in cursors {
        cursors := cursors[playerId := cursors[playerId].(targetX := x, targetY := y)];
      } else {
        cursors := cursors[playerId := Cursor(x, y, x, y)];
      }
      assert playerId in cursors;
      assert |cursors| > 0;
      if !isAnimating {
        StartAnimation(frame);
      }
    }

    /** `removeCursor`: deletes the id; the last removal cancels the scheduled frame. */
    method RemoveCursor(playerId: string)
      requires Valid()
      modifies this
      ensures Valid()
      ensures cursors == old(cursors) - {playerId}
      ensures |cursors| == 0 ==> !isAnimating && animationFrameId == None
      ensures |cursors| > 0 ==> isAnimating == old(isAnimating) && animationFrameId == old(animationFrameId)
    {
      cursors := cursors - {playerId};
      if |cursors| == 0 && animationFrameId.Some? {
        animationFrameId := None;
        isAnimating := false;
      }
    }

    /** The browser runs the scheduled frame callback. */
    method FrameFired(frame: FrameHandle)
      requires Valid() && animationFrameId.Some?
      modifies this
      ensures Valid()
      ensures cursors == StepAll(old(cursors))
      ensures isAnimating && animationFrameId == Some(frame)
    {
      Animate(frame);
    }

    /** `onMounted`: starts the loop when cursors already exist. */
    method Mounted(frame: FrameHandle)
      requires Valid()
      modifies this
      ensures Valid()
      ensures |old(cursors)| > 0 && !old(isAnimating) ==> cursors == StepAll(old(cursors)) && isAnimating
      ensures |old(cursors)| == 0 || old(isAnimating) ==> cursors == old(cursors) && isAnimating == old(isAnimating)
    {
      if |cursors| > 0 {
        StartAnimation(frame);
      }
    }

    /** `onUnmounted`: cancels any scheduled frame and stops the loop, keeping the map. */
    method Unmounted()
      requires Valid()
      modifies this
      ensures Valid()
      ensures cursors == old(cursors) && !isAnimating && animationFrameId == None
    {
      if animationFrameId.Some? {
        animationFrameId := None;
      }
      isAnimating := false;
    }
  }

  // ------------------------------------------------------------ convergence

  /** A cursor after `n` frames with a fixed target. */
  function Iterate(c: Cursor, n: nat): (r: Cursor)
    ensures r.targetX == c.targetX && r.targetY == c.targetY
    decreases n
  {
    if n == 0 then c else Iterate(Step(c), n - 1)
  }

  /** A step that does not snap strictly shrinks the gap, by the factor 0.8. */
  lemma NonSnapStepShrinks(c: Cursor)
    requires !Snaps(c)
    ensures Gap(Step(c)) == 0.8 * Gap(c) < Gap(c)
  {
  }

  /** A cursor sitting on its target stays there for any number of frames. */
  lemma {:induction false} RestIsStable(c: Cursor, n: nat)
    requires AtTarget(c)
    ensures Iterate(c, n) == c
    decreases n
  {
    if n > 0 {
      assert Snaps(c);
      assert Step(c) == c;
      RestIsStable(Step(c), n - 1);
    }
  }

  function Pow125(k: nat): (r: real)
    ensures r >= 1.0
  {
    if k == 0 then 1.0 else 1.25 * Pow125(k - 1)
  }

  lemma {:induction false} Bernoulli(k: nat)
    ensures Pow125(k) >= 1.0 + 0.25 * (k as real)
  {
    if k > 0 {
      Bernoulli(k - 1);
    }
  }

  /** A gap below 0.05 * 1.25^k is closed after k + 1 frames. */
  lemma {:induction false} SettlesWithin(c: Cursor, k: nat)
    requires Gap(c) < SnapDistance * Pow125(k)
    ensures AtTarget(Iterate(c, k + 1))
    decreases k
  {
    if Snaps(c) {
      RestIsStable(Step(c), k);
    } else if k == 0 {
      assert false;
    } else {
      NonSnapStepShrinks(c);
      assert Gap(Step(c)) < SnapDistance * Pow125(k - 1);
      SettlesWithin(Step(c), k - 1);
    }
  }

  /** Every cursor reaches its (fixed) target after finitely many frames. */
  lemma EventuallyAtTarget(c: Cursor)
    ensures exists n: nat :: AtTarget(Iterate(c, n))
  {
    var k: nat := (80.0 * Gap(c)).Floor + 1;
    Bernoulli(k);
    assert Gap(c) < SnapDistance * Pow125(k);
    SettlesWithin(c, k);
  }
}

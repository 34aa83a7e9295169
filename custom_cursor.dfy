/**
 * The custom cursor sprite: a mouse target, an eased sprite position, an
 * eased scale and rotation with their targets, and the visible and idle
 * flags. Mouse events set targets and flags; every animation frame either
 * moves each eased value a fixed fraction of the way to its target, or, once
 * all of them are within their epsilons, snaps them onto the targets and
 * goes idle.
 */
module CustomCursor {
  import opened JsNumber

  const PositionLerp: real := 0.25
  const StyleLerp: real := 0.15
  const PositionEpsilon: real := 0.1
  const ScaleEpsilon: real := 0.001
  const RotateEpsilon: real := 0.1
  const PressedScale: real := 0.8
  const PressedRotate: real := -12.0
  const OffScreen: real := -100.0

  /** The values the cursor keeps in refs (the touch flag is kept apart). */
  datatype CursorState = CursorState(
    mouseX: real, mouseY: real,
    cursorX: real, cursorY: real,
    targetScale: real, currentScale: real,
    targetRotate: real, currentRotate: real,
    visible: bool, idle: bool)

  /** Remaining distances from each eased value to its target. */
  function GapX(s: CursorState): real { s.mouseX - s.cursorX }
  function GapY(s: CursorState): real { s.mouseY - s.cursorY }
  function GapScale(s: CursorState): real { s.targetScale - s.currentScale }
  function GapRotate(s: CursorState): real { s.targetRotate - s.currentRotate }

  /** The values before any event: both points off-screen, neutral style, hidden, not idle. */
  const Initial: CursorState :=
    CursorState(OffScreen, OffScreen, OffScreen, OffScreen, 1.0, 1.0, 0.0, 0.0, false, false)

  /** The frame's settle test: every distance below its epsilon. */
  predicate Settled(s: CursorState)
  {
    && Abs(GapX(s)) < PositionEpsilon && Abs(GapY(s)) < PositionEpsilon
    && Abs(GapScale(s)) < ScaleEpsilon && Abs(GapRotate(s)) < RotateEpsilon
  }

  /** Every eased value sits exactly on its target. */
  predicate AtRest(s: CursorState)
  {
    s.cursorX == s.mouseX && s.cursorY == s.mouseY
    && s.currentScale == s.targetScale && s.currentRotate == s.targetRotate
  }

  /** The invariant the handlers and the frame keep: idle only at rest. */
  predicate Consistent(s: CursorState)
  {
    s.idle ==> AtRest(s)
  }

  /** One easing step `cur += (target - cur) * f`: the remaining gap is scaled by `1 - f`. */
  function Lerp(cur: real, target: real, f: real): (r: real)
    requires 0.0 < f < 1.0
    ensures target - r == (1.0 - f) * (target - cur)
  {
    cur + (target - cur) * f
  }

  /** An easing step keeps the gap's sign, never widens it, and strictly shrinks a non-zero gap. */
  lemma LerpApproaches(cur: real, target: real, f: real)
    requires 0.0 < f < 1.0
    ensures Abs(target - Lerp(cur, target, f)) <= Abs(target - cur)
    ensures (target - Lerp(cur, target, f)) * (target - cur) >= 0.0
    ensures target != cur ==> Abs(target - Lerp(cur, target, f)) < Abs(target - cur)
  {
    var g := target - cur;
    assert target - Lerp(cur, target, f) == (1.0 - f) * g;
    ScaledAbs(1.0 - f, g);
  }

  lemma ScaledAbs(c: real, g: real)
    requires 0.0 < c < 1.0
    ensures Abs(c * g) <= Abs(g) && (c * g) * g >= 0.0
    ensures g != 0.0 ==> Abs(c * g) < Abs(g)
  {
    if g < 0.0 {
      assert c * g > g;
      assert (c * g) * g == c * (g * g);
    } else {
      assert c * g <= g;
      assert (c * g) * g == c * (g * g);
    }
  }


  /** The `animate` frame step on the refs. */
  function Frame(s: CursorState): (r: CursorState)
    ensures r.mouseX == s.mouseX && r.mouseY == s.mouseY && r.visible == s.visible
    ensures r.targetScale == s.targetScale && r.targetRotate == s.targetRotate
    ensures !Settled(s) ==> (
      && r.idle == s.idle
      && GapX(r) == (1.0 - PositionLerp) * GapX(s) && GapY(r) == (1.0 - PositionLerp) * GapY(s)
      && GapScale(r) == (1.0 - StyleLerp) * GapScale(s) && GapRotate(r) == (1.0 - StyleLerp) * GapRotate(s))
    ensures Settled(s) && !s.idle ==> AtRest(r) && r.idle
    ensures Settled(s) && s.idle ==> r == s
    ensures Consistent(s) ==> Consistent(r)
  {
    if Settled(s) then
      if s.idle then s
      else s.(cursorX := s.mouseX, cursorY := s.mouseY,
              currentScale := s.targetScale, currentRotate := s.targetRotate, idle := true)
    else
      s.(cursorX := Lerp(s.cursorX, s.mouseX, PositionLerp),
         cursorY := Lerp(s.cursorY, s.mouseY, PositionLerp),
         currentScale := Lerp(s.currentScale, s.targetScale, StyleLerp),
         currentRotate := Lerp(s.currentRotate, s.targetRotate, StyleLerp))
  }

  /** `k` frames with no event in between. */
  function Frames(s: CursorState, k: nat): CursorState
    decreases k
  {
    if k == 0 then s else Frames(Frame(s), k - 1)
  }

  /** Once idle, further frames change nothing. */
  lemma {:induction false} IdleFramesIdempotent(s: CursorState, k: nat)
    requires s.idle && Consistent(s)
    ensures Frames(s, k) == s
    decreases k
  {
    if k > 0 {
      IdleFramesIdempotent(Frame(s), k - 1);
    }
  }

  lemma {:induction false} FramesSucc(s: CursorState, k: nat)
    ensures Frames(s, k + 1) == Frame(Frames(s, k))
    decreases k
  {
    if k > 0 {
      FramesSucc(Frame(s), k - 1);
    }
  }

  /** The four eased quantities. */
  datatype Quantity = X | Y | Scale | Rotate

  function Gap(s: CursorState, q: Quantity): real
  {
    match q
    case X => GapX(s)
    case Y => GapY(s)
    case Scale => GapScale(s)
    case Rotate => GapRotate(s)
  }

  function Epsilon(q: Quantity): real
  {
    match q
    case X => PositionEpsilon
    case Y => PositionEpsilon
    case Scale => ScaleEpsilon
    case Rotate => RotateEpsilon
  }

  /**
   * The least distance an unsettled frame removes from a gap that is at least
   * its epsilon: the easing factor times the epsilon (0.25 * 0.1, 0.15 * 0.001,
   * 0.15 * 0.1).
   */
  function MinStep(q: Quantity): (d: real)
    ensures d > 0.0
  {
    match q
    case X => 0.025
    case Y => 0.025
    case Scale => 0.00015
    case Rotate => 0.015
  }

  /** A frame never widens a gap, and removes at least `MinStep` from a gap not yet within its epsilon. */
  lemma FrameShrinks(s: CursorState, q: Quantity)
    requires Consistent(s)
    ensures Abs(Gap(Frame(s), q)) <= Abs(Gap(s, q))
    ensures Abs(Gap(s, q)) >= Epsilon(q) ==> Abs(Gap(Frame(s), q)) <= Abs(Gap(s, q)) - MinStep(q)
  {
    var g := Gap(s, q);
    if !Settled(s) {
      match q
      case X => ScaledAbs(1.0 - PositionLerp, g);
      case Y => ScaledAbs(1.0 - PositionLerp, g);
      case Scale => ScaledAbs(1.0 - StyleLerp, g);
      case Rotate => ScaledAbs(1.0 - StyleLerp, g);
    }
  }

  /** Quiet frames keep the invariant. */
  lemma {:induction false} FramesConsistent(s: CursorState, k: nat)
    requires Consistent(s)
    ensures Consistent(Frames(s, k))
    decreases k
  {
    if k > 0 {
      FramesConsistent(Frame(s), k - 1);
    }
  }

  /** After `k` quiet frames each gap is within its epsilon or has lost `k` minimal steps. */
  lemma {:induction false} GapsDecay(s: CursorState, k: nat, q: Quantity)
    requires Consistent(s)
    ensures Abs(Gap(Frames(s, k), q)) < Epsilon(q)
      || Abs(Gap(Frames(s, k), q)) <= Abs(Gap(s, q)) - k as real * MinStep(q)
    decreases k
  {
    if k > 0 {
      var next := Frame(s);
      FrameShrinks(s, q);
      GapsDecay(next, k - 1, q);
      assert Frames(s, k) == Frames(next, k - 1);
      assert MinStep(q) > 0.0;
      assert Abs(Gap(next, q)) <= Abs(Gap(s, q));
      assert Abs(Gap(s, q)) >= Epsilon(q) ==> Abs(Gap(next, q)) <= Abs(Gap(s, q)) - MinStep(q);
      assert Abs(Gap(Frames(next, k - 1), q)) < Epsilon(q)
        || Abs(Gap(Frames(next, k - 1), q)) <= Abs(Gap(next, q)) - (k - 1) as real * MinStep(q);
      DecayStep(Abs(Gap(s, q)), Abs(Gap(next, q)), Abs(Gap(Frames(next, k - 1), q)), k, MinStep(q), Epsilon(q));
    }
  }

  /**
   * The arithmetic of one more frame in front: a first frame that removes a
   * step from a gap not yet within `eps`, followed by `k - 1` frames.
   */
  lemma DecayStep(g: real, first: real, last: real, k: nat, d: real, eps: real)
    requires k > 0 && d > 0.0
    requires first <= g
    requires g >= eps ==> first <= g - d
    requires last < eps || last <= first - (k - 1) as real * d
    ensures last < eps || last <= g - k as real * d
  {
    assert k as real * d == (k - 1) as real * d + d;
  }

  /** Enough quiet frames to bring the gap of `q` within its epsilon. */
  function FramesFor(s: CursorState, q: Quantity): (k: nat)
    ensures k as real * MinStep(q) > Abs(Gap(s, q))
  {
    var g, d := Abs(Gap(s, q)), MinStep(q);
    var k := (g / d).Floor + 1;
    assert k as real > g / d;
    assert k as real * d > (g / d) * d;
    k
  }

  lemma MoreFrames(a: nat, b: nat, d: real)
    requires a <= b && d > 0.0
    ensures a as real * d <= b as real * d
  {
  }

  lemma SettledAfter(s: CursorState, k: nat, q: Quantity)
    requires Consistent(s) && k >= FramesFor(s, q)
    ensures Consistent(Frames(s, k))
    ensures Abs(Gap(Frames(s, k), q)) < Epsilon(q)
  {
    MoreFrames(FramesFor(s, q), k, MinStep(q));
    FramesConsistent(s, k);
    GapsDecay(s, k, q);
    var last := Abs(Gap(Frames(s, k), q));
    assert last >= 0.0;
    assert k as real * MinStep(q) > Abs(Gap(s, q));
    assert last < Epsilon(q) || last <= Abs(Gap(s, q)) - k as real * MinStep(q);
    NoRoomLeft(Abs(Gap(s, q)), Abs(Gap(Frames(s, k), q)), k as real * MinStep(q), Epsilon(q));
  }

  /** A non-negative gap cannot lie below its start minus more than the start. */
  lemma NoRoomLeft(g: real, x: real, removed: real, eps: real)
    requires x >= 0.0 && removed > g
    requires x < eps || x <= g - removed
    ensures x < eps
  {
  }

  function MaxNat(a: nat, b: nat): nat { if a < b then b else a }

  /** With no further event, the cursor always comes to rest exactly on its targets and goes idle. */
  lemma EventuallyIdle(s: CursorState)
    requires Consistent(s)
    ensures exists k :: Frames(s, k).idle && AtRest(Frames(s, k))
  {
    var k := MaxNat(MaxNat(FramesFor(s, X), FramesFor(s, Y)), MaxNat(FramesFor(s, Scale), FramesFor(s, Rotate)));
    SettledAfter(s, k, X);
    SettledAfter(s, k, Y);
    SettledAfter(s, k, Scale);
    SettledAfter(s, k, Rotate);
    assert Settled(Frames(s, k));
    FramesSucc(s, k);
    assert Frames(s, k + 1).idle && AtRest(Frames(s, k + 1));
  }

  /** Whether a frame writes the sprite's transform: every frame but a settled one that is already idle. */
  predicate WritesTransform(s: CursorState)
  {
    !(Settled(s) && s.idle)
  }

  lemma {:induction false} FramesAdd(s: CursorState, k: nat, j: nat)
    ensures Frames(s, k + j) == Frames(Frames(s, k), j)
    decreases k
  {
    if k > 0 {
      FramesAdd(Frame(s), k - 1, j);
    }
  }

  /** No frame from the `k`-th on writes the transform. */
  ghost predicate QuietFrom(s: CursorState, k: nat)
  {
    forall j: nat :: j >= k ==> !WritesTransform(Frames(s, j))
  }

  /** With no further events the animation loop stops writing to the page after finitely many frames, for good. */
  lemma WritesStop(s: CursorState)
    requires Consistent(s)
    ensures exists k: nat :: QuietFrom(s, k)
  {
    EventuallyIdle(s);
    var k: nat :| Frames(s, k).idle && AtRest(Frames(s, k));
    forall j: nat | j >= k
      ensures !WritesTransform(Frames(s, j))
    {
      FramesAdd(s, k, j - k);
      IdleFramesIdempotent(Frames(s, k), j - k);
    }
    assert QuietFrom(s, k);
  }

  /**
   * The mounted `CustomCursor`. `touch` is the touch-device flag; while it is
   * set no listener is installed, no frame runs and nothing is rendered, so
   * every handler leaves the state as it was.
   */
  class Cursor {
    var touch: bool
    var mouseX: real
    var mouseY: real
    var cursorX: real
    var cursorY: real
    var targetScale: real
    var currentScale: real
    var targetRotate: real
    var currentRotate: real
    var visible: bool
    var idle: bool

    function State(): CursorState
      reads this
    {
      CursorState(mouseX, mouseY, cursorX, cursorY, targetScale, currentScale,
                  targetRotate, currentRotate, visible, idle)
    }

    predicate Valid()
      reads this
    {
      Consistent(State())
    }

    /** Whether the sprite is rendered at all. */
    predicate Rendered()
      reads this
    {
      !touch
    }

    /** Mounting: the touch flag starts set so that no sprite flashes before the check. */
    constructor ()
      ensures Valid() && touch && State() == Initial
    {
      touch := true;
      mouseX, mouseY := OffScreen, OffScreen;
      cursorX, cursorY := OffScreen, OffScreen;
      targetScale, currentScale := 1.0, 1.0;
      targetRotate, currentRotate := 0.0, 0.0;
      visible, idle := false, false;
    }

    /** `checkMobile`, run at mount and on every resize. */
    method CheckTouch(hasTouch: bool)
      requires Valid()
      modifies this
      ensures Valid() && touch == hasTouch && State() == old(State())
    {
      touch := hasTouch;
    }

    /** `onMouseMove`: record the mouse position, wake up, show the sprite. */
    method OnMouseMove(x: real, y: real)
      requires Valid()
      modifies this
      ensures Valid() && touch == old(touch)
      ensures State() == if touch then old(State())
        else old(State()).(mouseX := x, mouseY := y, idle := false, visible := true)
    {
      if !touch {
        mouseX, mouseY := x, y;
        idle := false;
        if !visible {
          visible := true;
        }
      }
    }

    /** `onMouseDown`: press targets, wake up. */
    method OnMouseDown()
      requires Valid()
      modifies this
      ensures Valid() && touch == old(touch)
      ensures State() == if touch then old(State())
        else old(State()).(targetScale := PressedScale, targetRotate := PressedRotate, idle := false)
    {
      if !touch {
        targetScale := PressedScale;
        targetRotate := PressedRotate;
        idle := false;
      }
    }

    /** `onMouseUp`: neutral targets, wake up. */
    method OnMouseUp()
      requires Valid()
      modifies this
      ensures Valid() && touch == old(touch)
      ensures State() == if touch then old(State())
        else old(State()).(targetScale := 1.0, targetRotate := 0.0, idle := false)
    {
      if !touch {
        targetScale := 1.0;
        targetRotate := 0.0;
        idle := false;
      }
    }

    /** `onMouseLeave`: hide the sprite; positions, targets and idleness stay. */
    method OnMouseLeave()
      requires Valid()
      modifies this
      ensures Valid() && touch == old(touch)
      ensures State() == if touch then old(State()) else old(State()).(visible := false)
    {
      if !touch {
        visible := false;
      }
    }

    /** `onMouseEnter`: show the sprite; positions, targets and idleness stay. */
    method OnMouseEnter()
      requires Valid()
      modifies this
      ensures Valid() && touch == old(touch)
      ensures State() == if touch then old(State()) else old(State()).(visible := true)
    {
      if !touch {
        visible := true;
      }
    }

    /** One `animate` frame. */
    method Animate() returns (wrote: bool)
      requires Valid()
      modifies this
      ensures Valid() && touch == old(touch)
      ensures State() == if touch then old(State()) else Frame(old(State()))
      ensures wrote <==> !touch && WritesTransform(old(State()))
    {
      wrote := false;
      if touch {
        return;
      }
      var dx := mouseX - cursorX;
      var dy := mouseY - cursorY;
      var ds := targetScale - currentScale;
      var dr := targetRotate - currentRotate;
      var positionSettled := Abs(dx) < PositionEpsilon && Abs(dy) < PositionEpsilon;
      var styleSettled := Abs(ds) < ScaleEpsilon && Abs(dr) < RotateEpsilon;
      if positionSettled && styleSettled {
        if !idle {
          cursorX := mouseX;
          cursorY := mouseY;
          currentScale := targetScale;
          currentRotate := targetRotate;
          idle := true;
          wrote := true;
        }
        return;
      }
      cursorX := cursorX + dx * PositionLerp;
      cursorY := cursorY + dy * PositionLerp;
      currentScale := currentScale + ds * StyleLerp;
      currentRotate := currentRotate + dr * StyleLerp;
      wrote := true;
    }
  }
}

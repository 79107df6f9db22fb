/** The interaction core of one `Sticker` component (src/App.tsx): its
    drag state machine driven by the window's mouse events, and the frame
    callback that runs the spring while dragging and the rest relaxation
    otherwise. Ray casts are inputs: whether the press ray hit this
    sticker, and where (if anywhere) the move ray hit the floor. */
module Drag {
  import opened Options
  import opened Vectors
  import opened Pointer
  import opened Motion
  import opened Stickers

  /** Height a dragged sticker is lifted to above the floor hit point. */
  const HoverHeight: real := 1.0

  /** The live state of one mounted sticker: the drag flag, the spring's
      target and velocity, the pointer cells and the mesh pose. */
  datatype Live = Live(dragging: bool, target: Vec3, springVel: Vec3, pointer: PointerState, pose: Pose)

  /** A freshly mounted sticker: idle, its mesh where the parent's record
      puts it and in its base pose, the spring cells and pointer at zero. */
  function Mount(rec: Sticker): (r: Live)
    ensures !r.dragging && r.springVel == Zero3 && r.target == Zero3
    ensures r.pointer.last == Zero2 && r.pointer.velocity == Zero2
    ensures r.pose.pos == rec.position && r.pose.rot == BasePose(rec.rotation)
  {
    Live(false, Zero3, Zero3, Pointer.Initial, Pose(rec.position, BasePose(rec.rotation)))
  }

  /** `mousemove`: track the pointer; while dragging, a floor hit becomes
      the new target, lifted to the hover height. A miss, or a move while
      idle, keeps the old target. */
  function OnMove(s: Live, clientX: real, clientY: real, width: real, height: real,
                  floorHit: Option<Vec3>): (r: Live)
    requires 0.0 < width && 0.0 < height
    ensures r.pointer == Track(s.pointer, Normalize(clientX, clientY, width, height))
    ensures s.dragging && floorHit.Some? ==>
              r.target == Vec3(floorHit.value.x, HoverHeight, floorHit.value.z)
    ensures !(s.dragging && floorHit.Some?) ==> r.target == s.target
    ensures r.dragging == s.dragging && r.springVel == s.springVel && r.pose == s.pose
  {
    var pointer := Track(s.pointer, Normalize(clientX, clientY, width, height));
    var target :=
      if s.dragging then
        match floorHit
        case Some(hit) => Vec3(hit.x, HoverHeight, hit.z)
        case None => s.target
      else s.target;
    s.(pointer := pointer, target := target)
  }

  /** `mousedown`: a hit on this sticker starts a drag and stops the
      spring; the target is left as it was. A miss changes nothing. */
  function OnPress(s: Live, hit: bool): (r: Live)
    ensures hit ==> r.dragging && r.springVel == Zero3
    ensures r.target == s.target && r.pointer == s.pointer && r.pose == s.pose
    ensures !hit ==> r == s
  {
    if hit then s.(dragging := true, springVel := Zero3) else s
  }

  /** `mouseup`: every sticker stops dragging, wherever the pointer is. */
  function OnRelease(s: Live): (r: Live)
    ensures !r.dragging
    ensures r.target == s.target && r.springVel == s.springVel
    ensures r.pointer == s.pointer && r.pose == s.pose
  {
    s.(dragging := false)
  }

  /** What a frame produces: the new live state and, while dragging, the
      position handed to the parent's `updatePosition`. */
  datatype FrameOut = FrameOut(live: Live, written: Option<Vec3>)

  /** The frame callback. Dragging: one spring step toward the target, the
      tilt from the new velocity, and the new position written back.
      Idle: one rest step toward the record's x/z and base pose, and
      nothing written back. */
  function OnFrame(s: Live, rec: Sticker): (r: FrameOut)
    ensures r.written.Some? <==> s.dragging
    ensures s.dragging ==>
              && Spring(r.live.pose.pos, r.live.springVel) == SpringStep(s.pose.pos, s.springVel, s.target)
              && r.live.pose.rot == Tilt(rec.rotation, r.live.springVel)
              && r.written == Some(r.live.pose.pos)
    ensures !s.dragging ==>
              && r.live.pose == RestStep(s.pose, rec.position, rec.rotation)
              && r.live.springVel == s.springVel
    ensures r.live.dragging == s.dragging && r.live.target == s.target && r.live.pointer == s.pointer
  {
    if s.dragging then
      var spring := SpringStep(s.pose.pos, s.springVel, s.target);
      var pose := Pose(spring.pos, Tilt(rec.rotation, spring.vel));
      FrameOut(s.(springVel := spring.vel, pose := pose), Some(spring.pos))
    else
      FrameOut(s.(pose := RestStep(s.pose, rec.position, rec.rotation)), None)
  }

  // ---------------------------------------------------------------------
  // Event sequences

  /** The window events a sticker listens to. */
  datatype Event =
    | Move(clientX: real, clientY: real, width: real, height: real, floorHit: Option<Vec3>)
    | Press(hit: bool)
    | Release

  /** The browser reports a window of positive size. */
  predicate ValidEvent(e: Event) {
    e.Move? ==> 0.0 < e.width && 0.0 < e.height
  }

  function Apply(s: Live, e: Event): Live
    requires ValidEvent(e)
  {
    match e
    case Move(x, y, w, h, hit) => OnMove(s, x, y, w, h, hit)
    case Press(hit) => OnPress(s, hit)
    case Release => OnRelease(s)
  }

  /** Apply a sequence of events in order. */
  function Run(s: Live, es: seq<Event>): Live
    requires forall i :: 0 <= i < |es| ==> ValidEvent(es[i])
    decreases |es|
  {
    if |es| == 0 then s else Run(Apply(s, es[0]), es[1..])
  }

  /** Only presses start a drag and only releases end one: a run of moves
      never changes the drag flag, the spring velocity or the pose. */
  lemma {:induction false} MovesKeepDragState(s: Live, es: seq<Event>)
    requires forall i :: 0 <= i < |es| ==> es[i].Move? && ValidEvent(es[i])
    ensures Run(s, es).dragging == s.dragging
    ensures Run(s, es).springVel == s.springVel && Run(s, es).pose == s.pose
    decreases |es|
  {
    if |es| > 0 {
      MovesKeepDragState(Apply(s, es[0]), es[1..]);
    }
  }

  /** An idle sticker ignores where the pointer goes: moves never change its
      target. */
  lemma {:induction false} IdleMovesKeepTarget(s: Live, es: seq<Event>)
    requires !s.dragging
    requires forall i :: 0 <= i < |es| ==> es[i].Move? && ValidEvent(es[i])
    ensures Run(s, es).target == s.target
    decreases |es|
  {
    if |es| > 0 {
      IdleMovesKeepTarget(Apply(s, es[0]), es[1..]);
    }
  }

  /** A drag in which the ray misses the floor on every move keeps the
      target it had: no snap to the origin. */
  lemma {:induction false} MissedMovesKeepTarget(s: Live, es: seq<Event>)
    requires forall i :: 0 <= i < |es| ==> es[i].Move? && es[i].floorHit.None? && ValidEvent(es[i])
    ensures Run(s, es).target == s.target
    decreases |es|
  {
    if |es| > 0 {
      MissedMovesKeepTarget(Apply(s, es[0]), es[1..]);
    }
  }

  /** After a release, whatever events came before, the next frame takes
      the rest branch and writes nothing back. */
  lemma ReleaseThenRest(s: Live, es: seq<Event>, rec: Sticker)
    requires forall i :: 0 <= i < |es| ==> ValidEvent(es[i])
    requires |es| > 0 && es[|es| - 1] == Release
    ensures !Run(s, es).dragging
    ensures OnFrame(Run(s, es), rec).written == None
    ensures OnFrame(Run(s, es), rec).live.pose == RestStep(Run(s, es).pose, rec.position, rec.rotation)
  {
    RunSplit(s, es[..|es| - 1], [Release]);
    assert es[..|es| - 1] + [Release] == es;
  }

  /** Running `a + b` is running `a`, then `b`. */
  lemma {:induction false} RunSplit(s: Live, a: seq<Event>, b: seq<Event>)
    requires forall i :: 0 <= i < |a| ==> ValidEvent(a[i])
    requires forall i :: 0 <= i < |b| ==> ValidEvent(b[i])
    ensures forall i :: 0 <= i < |a + b| ==> ValidEvent((a + b)[i])
    ensures Run(s, a + b) == Run(Run(s, a), b)
    decreases |a|
  {
    if |a| == 0 {
      assert a + b == b;
    } else {
      assert (a + b)[0] == a[0];
      assert (a + b)[1..] == a[1..] + b;
      RunSplit(Apply(s, a[0]), a[1..], b);
      assert Run(s, a + b) == Run(Apply(s, a[0]), a[1..] + b);
    }
  }

  /** Pressing twice is pressing once, and releasing twice is releasing once. */
  lemma PressReleaseIdempotent(s: Live, hit: bool)
    ensures OnPress(OnPress(s, hit), hit) == OnPress(s, hit)
    ensures OnRelease(OnRelease(s)) == OnRelease(s)
  {
  }

  // ---------------------------------------------------------------------
  // Frames

  /** The first frame after a press pulls toward whatever target the last
      drag left behind: the velocity is `0.0375` times the offset from the
      mesh to that target, because the press resets only the velocity. */
  lemma PressedFrameUsesOldTarget(s: Live, rec: Sticker)
    ensures OnFrame(OnPress(s, true), rec).live.springVel
            == Scale(Sub(s.target, s.pose.pos), 0.0375)
  {
    var pressed := OnPress(s, true);
    var v := OnFrame(pressed, rec).live.springVel;
    assert v == Sub(Scale(Zero3, 0.75), Scale(Sub(s.pose.pos, s.target), 0.0375));
    SpringAxes(s.pose.pos, Zero3, s.target);
  }

  /** A sticker's very first drag, pressed before any move reaches the
      floor, is pulled toward the origin, where the target cell starts: the
      sticker at (3, 0.01, 0) moves to x = 2.8875 on the first frame. */
  lemma FirstDragPullsToOrigin(rec: Sticker)
    requires rec.position == Vec3(3.0, RestHeight, 0.0)
    ensures OnFrame(OnPress(Mount(rec), true), rec).live.pose.pos.x == 2.8875
  {
    SpringAxes(rec.position, Zero3, Zero3);
  }

  /** An idle sticker sitting on its rest anchor in its base pose stays
      there frame after frame. */
  lemma MountedAtRestStays(rec: Sticker)
    requires rec.position.y == RestHeight
    ensures OnFrame(Mount(rec), rec).live == Mount(rec)
  {
    var m := Mount(rec);
    assert m.pose.pos == RestAnchor(rec.position);
    RestFixedPoint(m.pose, rec.position, rec.rotation);
  }

  /** A dragged sticker held on its target with no velocity stays put and
      lies flat: the tilt vanishes together with the velocity. */
  lemma SettledDragLiesFlat(s: Live, rec: Sticker)
    requires s.dragging
    requires s.pose.pos == s.target && s.springVel == Zero3
    ensures OnFrame(s, rec).live.pose == Pose(s.target, BasePose(rec.rotation))
    ensures OnFrame(s, rec).written == Some(s.target)
  {
    SpringFixedPoint(s.pose.pos, s.springVel, s.target);
  }

  /** While dragging, the rotation leans by five times the velocity the
      frame has just computed, not the velocity it started with. */
  lemma DragTiltUsesNewVelocity(s: Live, rec: Sticker)
    requires s.dragging
    ensures var out := OnFrame(s, rec);
            Sub(out.live.pose.rot, BasePose(rec.rotation))
            == Vec3(TiltStrength * out.live.springVel.z, 0.0, -TiltStrength * out.live.springVel.x)
  {
  }
}

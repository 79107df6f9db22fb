/** How the stickers and their parent fit together (src/App.tsx): a frame
    of one sticker reads its record from the parent's list and writes its
    dragged position back through `updatePosition`; mouse events reach every
    mounted sticker, because each one listens on the window. */
module Session {
  import opened Options
  import opened Vectors
  import opened Motion
  import opened Stickers
  import opened Drag

  /** Apply a frame's write-back to the parent's list. */
  function Commit(list: seq<Sticker>, id: int, written: Option<Vec3>): (r: seq<Sticker>)
    ensures SameExceptPositions(list, r)
    ensures written.None? ==> r == list
  {
    match written
    case Some(p) => UpdatePosition(list, id, p)
    case None => list
  }

  /** The parent's list and one sticker's live state after a frame. */
  datatype Tick = Tick(list: seq<Sticker>, live: Live)

  /** One frame of the sticker whose record is `list[k]`. */
  function FrameAt(list: seq<Sticker>, k: int, s: Live): (r: Tick)
    requires 0 <= k < |list|
    ensures |r.list| == |list|
  {
    var out := OnFrame(s, list[k]);
    Tick(Commit(list, list[k].id, out.written), out.live)
  }

  /** A dragging frame keeps the parent's record in step with the mesh: the
      record at `k` now holds the live position, no other record changes,
      and the rest anchor of the record is the live x/z. */
  lemma DragWritesBack(list: seq<Sticker>, k: int, s: Live)
    requires IdsAreIndices(list)
    requires 0 <= k < |list|
    requires s.dragging
    ensures FrameAt(list, k, s).list[k] == list[k].(position := FrameAt(list, k, s).live.pose.pos)
    ensures forall j :: 0 <= j < |list| && j != k ==> FrameAt(list, k, s).list[j] == list[j]
    ensures RestAnchor(FrameAt(list, k, s).list[k].position)
            == Vec3(FrameAt(list, k, s).live.pose.pos.x, RestHeight, FrameAt(list, k, s).live.pose.pos.z)
  {
    var out := OnFrame(s, list[k]);
    UpdateTouchesOne(list, k + 1, out.live.pose.pos);
  }

  /** Release after a dragging frame: the next frame writes nothing and
      relaxes the sticker toward the point it was dropped at (its last
      dragged x and z, at the rest height), 5% of the way per frame. */
  lemma ReleaseSettlesWhereDropped(list: seq<Sticker>, k: int, s: Live)
    requires IdsAreIndices(list)
    requires 0 <= k < |list|
    requires s.dragging
    ensures var t1 := FrameAt(list, k, s);
            var t2 := FrameAt(t1.list, k, OnRelease(t1.live));
            var dropped := Vec3(t1.live.pose.pos.x, RestHeight, t1.live.pose.pos.z);
            && t2.list == t1.list
            && Sub(t2.live.pose.pos, dropped) == Scale(Sub(t1.live.pose.pos, dropped), 0.95)
  {
    DragWritesBack(list, k, s);
  }

  /** `n` frames of an idle sticker. */
  function IdleFrames(list: seq<Sticker>, k: int, s: Live, n: nat): Tick
    requires 0 <= k < |list|
    decreases n
  {
    if n == 0 then Tick(list, s)
    else
      var t := FrameAt(list, k, s);
      IdleFrames(t.list, k, t.live, n - 1)
  }

  /** While a sticker stays idle its frames write nothing back, so they are
      exactly repeated rest steps toward the record it was left with. */
  lemma {:induction false} IdleFramesAreRestSteps(list: seq<Sticker>, k: int, s: Live, n: nat)
    requires 0 <= k < |list|
    requires !s.dragging
    ensures IdleFrames(list, k, s, n).list == list
    ensures IdleFrames(list, k, s, n).live.pose == RestSteps(s.pose, list[k].position, list[k].rotation, n)
    ensures !IdleFrames(list, k, s, n).live.dragging
    decreases n
  {
    if n > 0 {
      var t := FrameAt(list, k, s);
      IdleFramesAreRestSteps(t.list, k, t.live, n - 1);
    }
  }

  /** After a drag ends, any `n` idle frames with `0.95^n < eps` bring the
      sticker within `eps` (relative to its offset at release) of the rest
      anchor of its record, which is where it was dropped. The x and z
      offsets are zero at release, so only the height converges; see
      `DroppedStickerStaysPut`. */
  lemma DroppedStickerWithin(list: seq<Sticker>, k: int, s: Live, n: nat, eps: real)
    requires IdsAreIndices(list)
    requires 0 <= k < |list|
    requires s.dragging
    requires Pow(0.95, n) < eps
    ensures var t1 := FrameAt(list, k, s);
            var dropped := Vec3(t1.live.pose.pos.x, RestHeight, t1.live.pose.pos.z);
            var tn := IdleFrames(t1.list, k, OnRelease(t1.live), n);
            Within(Sub(tn.live.pose.pos, dropped), Sub(t1.live.pose.pos, dropped), eps)
  {
    var t1 := FrameAt(list, k, s);
    DragWritesBack(list, k, s);
    IdleFramesAreRestSteps(t1.list, k, OnRelease(t1.live), n);
    RestWithin(t1.live.pose, t1.list[k].position, t1.list[k].rotation, n, eps);
  }

  /** Release does not snap the sticker elsewhere: after a drag frame and
      a release, `n` idle frames leave its x and z exactly where it was
      dropped and only bring its height `0.95^n` of the way from its
      height at release to the rest height. */
  lemma DroppedStickerStaysPut(list: seq<Sticker>, k: int, s: Live, n: nat)
    requires IdsAreIndices(list)
    requires 0 <= k < |list|
    requires s.dragging
    ensures var t1 := FrameAt(list, k, s);
            var tn := IdleFrames(t1.list, k, OnRelease(t1.live), n);
            && tn.live.pose.pos.x == t1.live.pose.pos.x
            && tn.live.pose.pos.z == t1.live.pose.pos.z
            && tn.live.pose.pos.y - RestHeight == (t1.live.pose.pos.y - RestHeight) * Pow(0.95, n)
            && tn.list == t1.list
  {
    var t1 := FrameAt(list, k, s);
    DragWritesBack(list, k, s);
    IdleFramesAreRestSteps(t1.list, k, OnRelease(t1.live), n);
    RestStepsGeometric(t1.live.pose, t1.list[k].position, t1.list[k].rotation, n);
  }

  /** The same with the explicit bound `n * eps >= 19` on the frame count. */
  lemma DroppedStickerConverges(list: seq<Sticker>, k: int, s: Live, n: nat, eps: real)
    requires IdsAreIndices(list)
    requires 0 <= k < |list|
    requires s.dragging
    requires 0.0 < eps && (n as real) * eps >= 19.0
    ensures var t1 := FrameAt(list, k, s);
            var dropped := Vec3(t1.live.pose.pos.x, RestHeight, t1.live.pose.pos.z);
            var tn := IdleFrames(t1.list, k, OnRelease(t1.live), n);
            Within(Sub(tn.live.pose.pos, dropped), Sub(t1.live.pose.pos, dropped), eps)
  {
    assert (n as real) * eps * (1.0 - 0.95) >= 0.95;
    PowBelow(0.95, eps, n);
    DroppedStickerWithin(list, k, s, n, eps);
  }

  // ---------------------------------------------------------------------
  // Window events reach every sticker

  /** A `mousedown` seen by every mounted sticker; `hits[i]` says whether
      the ray hit sticker `i`. */
  function PressAll(lives: seq<Live>, hits: seq<bool>): (r: seq<Live>)
    requires |hits| == |lives|
    ensures |r| == |lives|
    ensures forall i :: 0 <= i < |r| ==> r[i] == OnPress(lives[i], hits[i])
  {
    seq(|lives|, i requires 0 <= i < |lives| => OnPress(lives[i], hits[i]))
  }

  /** A `mouseup` seen by every mounted sticker. */
  function ReleaseAll(lives: seq<Live>): (r: seq<Live>)
    ensures |r| == |lives|
    ensures forall i :: 0 <= i < |r| ==> r[i] == OnRelease(lives[i])
  {
    seq(|lives|, i requires 0 <= i < |lives| => OnRelease(lives[i]))
  }

  /** After a press, a sticker drags exactly when it already was or was hit. */
  lemma PressAllDragging(lives: seq<Live>, hits: seq<bool>, i: int)
    requires |hits| == |lives|
    requires 0 <= i < |lives|
    ensures PressAll(lives, hits)[i].dragging <==> lives[i].dragging || hits[i]
  {
  }

  /** One release ends every drag. */
  lemma ReleaseAllEndsEveryDrag(lives: seq<Live>)
    ensures forall i :: 0 <= i < |lives| ==> !ReleaseAll(lives)[i].dragging
  {
  }

  /** Each sticker tests only itself, so a press over two overlapping
      stickers starts both drags. */
  lemma OverlappingPressDragsBoth(lives: seq<Live>)
    requires |lives| == 2
    ensures PressAll(lives, [true, true])[0].dragging
    ensures PressAll(lives, [true, true])[1].dragging
  {
  }
}

/** The pointer bookkeeping of a sticker's `mousemove` handler
    (src/App.tsx): window pixels become normalised device coordinates, the
    pointer velocity is the change since the previous move, and the new
    position is remembered for the next one. */
module Pointer {
  import opened Vectors

  /** The per-sticker pointer cells: the last normalised position and the
      velocity computed at the last move. */
  datatype PointerState = PointerState(last: Vec2, velocity: Vec2)

  /** Both cells start at the origin. */
  const Initial: PointerState := PointerState(Zero2, Zero2)

  /** Window pixels to normalised device coordinates: x grows from -1 at the
      left edge to 1 at the right, y falls from 1 at the top to -1 at the
      bottom. */
  function Normalize(clientX: real, clientY: real, width: real, height: real): (m: Vec2)
    requires 0.0 < width && 0.0 < height
    ensures -1.0 <= m.x <= 1.0 <==> 0.0 <= clientX <= width
    ensures -1.0 <= m.y <= 1.0 <==> 0.0 <= clientY <= height
    ensures clientX == 0.0 ==> m.x == -1.0
    ensures clientX == width ==> m.x == 1.0
    ensures clientY == 0.0 ==> m.y == 1.0
    ensures clientY == height ==> m.y == -1.0
  {
    Vec2((clientX / width) * 2.0 - 1.0, -(clientY / height) * 2.0 + 1.0)
  }

  /** The pixel a normalised position comes from. */
  function ToScreen(m: Vec2, width: real, height: real): Vec2 {
    Vec2((m.x + 1.0) / 2.0 * width, (1.0 - m.y) / 2.0 * height)
  }

  /** Normalising loses nothing: the pixel is recovered from its normalised
      position. */
  lemma NormalizeRoundTrip(clientX: real, clientY: real, width: real, height: real)
    requires 0.0 < width && 0.0 < height
    ensures ToScreen(Normalize(clientX, clientY, width, height), width, height) == Vec2(clientX, clientY)
  {
    var m := Normalize(clientX, clientY, width, height);
    assert (m.x + 1.0) / 2.0 == clientX / width;
    assert (1.0 - m.y) / 2.0 == clientY / height;
  }

  /** Every normalised position is reached: normalising the pixel it comes
      from gives it back. */
  lemma ToScreenRoundTrip(m: Vec2, width: real, height: real)
    requires 0.0 < width && 0.0 < height
    ensures Normalize(ToScreen(m, width, height).x, ToScreen(m, width, height).y, width, height) == m
  {
    var c := ToScreen(m, width, height);
    MulDivCancel((m.x + 1.0) / 2.0, width);
    MulDivCancel((1.0 - m.y) / 2.0, height);
  }

  lemma MulDivCancel(a: real, w: real)
    requires w != 0.0
    ensures (a * w) / w == a
  {
  }

  /** Moving right increases x; moving down decreases y (the axis is
      inverted). */
  lemma NormalizeMonotone(x1: real, y1: real, x2: real, y2: real, width: real, height: real)
    requires 0.0 < width && 0.0 < height
    ensures x1 < x2 <==> Normalize(x1, y1, width, height).x < Normalize(x2, y2, width, height).x
    ensures y1 < y2 <==> Normalize(x1, y1, width, height).y > Normalize(x2, y2, width, height).y
  {
    DivMonotone(x1, x2, width);
    DivMonotone(y1, y2, height);
  }

  /** Dividing by a positive width keeps strict order, in both directions. */
  lemma DivMonotone(x: real, y: real, w: real)
    requires 0.0 < w
    ensures x < y <==> x / w < y / w
  {
    assert x == (x / w) * w && y == (y / w) * w;
  }

  /** Record a move to `m`: the velocity is the displacement from the
      previous position and `m` becomes the previous position. */
  function Track(p: PointerState, m: Vec2): (r: PointerState)
    ensures r.last == m
    ensures Add2(p.last, r.velocity) == m
  {
    PointerState(m, Sub2(m, p.last))
  }

  /** Two moves to the same place in a row: the second has velocity zero. */
  lemma RepeatedMoveIsStill(p: PointerState, m: Vec2)
    ensures Track(Track(p, m), m).velocity == Zero2
    ensures Track(Track(p, m), m).last == m
  {
  }

  /** The velocity only depends on the previous position, not on the
      previous velocity. */
  lemma TrackForgetsVelocity(p: PointerState, q: PointerState, m: Vec2)
    requires p.last == q.last
    ensures Track(p, m) == Track(q, m)
  {
  }
}

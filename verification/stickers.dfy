/** The parent component's sticker list (src/App.tsx, `Component`): the
    records created at start-up with ids `index + 1`, and `updatePosition`,
    which replaces the position of the sticker with a given id. */
module Stickers {
  import opened Vectors

  /** One sticker as the parent stores it. `position` is the last position
      written back, `rotation` the static tilt offsets. */
  datatype Sticker = Sticker(id: int, position: Vec3, emoji: string, scale: real, rotation: Vec3)

  /** The randomly chosen attributes of a new sticker; the random draws
      themselves are inputs here. */
  datatype Attributes = Attributes(position: Vec3, emoji: string, scale: real, rotation: Vec3)

  /** How many stickers the scene is created with. */
  const StickerCount: nat := 50

  /** Ids are one more than the list index. */
  predicate IdsAreIndices(s: seq<Sticker>) {
    forall i :: 0 <= i < |s| ==> s[i].id == i + 1
  }

  /** `s` and `r` agree on everything but the positions. */
  predicate SameExceptPositions(s: seq<Sticker>, r: seq<Sticker>) {
    && |r| == |s|
    && forall i :: 0 <= i < |s| ==> r[i] == s[i].(position := r[i].position)
  }

  /** The start-up list: the `i`-th record gets id `i + 1` and the `i`-th
      attributes. */
  function Create(attrs: seq<Attributes>): (r: seq<Sticker>)
    ensures |r| == |attrs|
    ensures IdsAreIndices(r)
    ensures forall i :: 0 <= i < |r| ==>
              && r[i].position == attrs[i].position && r[i].emoji == attrs[i].emoji
              && r[i].scale == attrs[i].scale && r[i].rotation == attrs[i].rotation
  {
    seq(|attrs|, i requires 0 <= i < |attrs| =>
      Sticker(i + 1, attrs[i].position, attrs[i].emoji, attrs[i].scale, attrs[i].rotation))
  }

  /** Some record in `s` has id `id`. */
  predicate HasId(s: seq<Sticker>, id: int) {
    exists i :: 0 <= i < |s| && s[i].id == id
  }

  /** The scene starts with `StickerCount` records whose ids are exactly
      1 to `StickerCount`, in order. */
  lemma InitialIds(attrs: seq<Attributes>)
    requires |attrs| == StickerCount
    ensures |Create(attrs)| == StickerCount
    ensures forall i :: 0 <= i < StickerCount ==> 1 <= Create(attrs)[i].id <= StickerCount
    ensures forall id :: 1 <= id <= StickerCount ==> HasId(Create(attrs), id)
  {
    var r := Create(attrs);
    forall id | 1 <= id <= StickerCount
      ensures HasId(r, id)
    {
      assert r[id - 1].id == id;
    }
  }

  /** Index-derived ids are pairwise distinct. */
  lemma IdsDistinct(s: seq<Sticker>, i: int, j: int)
    requires IdsAreIndices(s)
    requires 0 <= i < |s| && 0 <= j < |s|
    ensures s[i].id == s[j].id <==> i == j
  {
  }

  /** `updatePosition(id, p)`: map over the list, giving every sticker whose
      id is `id` the position `p` and leaving every other sticker as it is. */
  function UpdatePosition(s: seq<Sticker>, id: int, p: Vec3): (r: seq<Sticker>)
    ensures SameExceptPositions(s, r)
    ensures forall i :: 0 <= i < |s| ==>
              r[i].position == (if s[i].id == id then p else s[i].position)
    decreases |s|
  {
    if |s| == 0 then []
    else
      var head := if s[0].id == id then s[0].(position := p) else s[0];
      [head] + UpdatePosition(s[1..], id, p)
  }

  /** With index-derived ids and an id in 1..N, exactly the sticker at index
      `id - 1` gets the new position and every other record is unchanged. */
  lemma UpdateTouchesOne(s: seq<Sticker>, id: int, p: Vec3)
    requires IdsAreIndices(s)
    requires 1 <= id <= |s|
    ensures UpdatePosition(s, id, p)[id - 1] == s[id - 1].(position := p)
    ensures forall i :: 0 <= i < |s| && i != id - 1 ==> UpdatePosition(s, id, p)[i] == s[i]
  {
  }

  /** An id no sticker has leaves the list unchanged. */
  lemma UpdateUnknownId(s: seq<Sticker>, id: int, p: Vec3)
    requires forall i :: 0 <= i < |s| ==> s[i].id != id
    ensures UpdatePosition(s, id, p) == s
  {
    var r := UpdatePosition(s, id, p);
    assert forall i :: 0 <= i < |s| ==> r[i] == s[i];
  }

  /** Ids survive an update, so the index-derived id invariant holds for the
      whole session. */
  lemma UpdateKeepsIds(s: seq<Sticker>, id: int, p: Vec3)
    requires IdsAreIndices(s)
    ensures IdsAreIndices(UpdatePosition(s, id, p))
  {
  }

  /** The last write wins: writing `p` then `q` to one id is writing `q`. */
  lemma UpdateLastWins(s: seq<Sticker>, id: int, p: Vec3, q: Vec3)
    ensures UpdatePosition(UpdatePosition(s, id, p), id, q) == UpdatePosition(s, id, q)
  {
    var a := UpdatePosition(UpdatePosition(s, id, p), id, q);
    var b := UpdatePosition(s, id, q);
    assert forall i :: 0 <= i < |s| ==> a[i] == b[i];
  }

  /** Writing back the position a sticker already has changes nothing. */
  lemma UpdateSamePosition(s: seq<Sticker>, k: int)
    requires IdsAreIndices(s)
    requires 0 <= k < |s|
    ensures UpdatePosition(s, k + 1, s[k].position) == s
  {
    var r := UpdatePosition(s, k + 1, s[k].position);
    assert forall i :: 0 <= i < |s| ==> r[i] == s[i];
  }
}

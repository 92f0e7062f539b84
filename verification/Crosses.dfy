/** The crosses that ltr_int_stripes_to_blobs draws over the blobs it reports. */
module Crosses {
  import opened Stripes
  import opened Image

  /** Arms of the given size around a centre that may lie outside the frame. */
  datatype Cross = Cross(x: int, y: int, size: nat)

  /** Pixel i lies on one of the two arms, each clipped into the frame. */
  predicate OnCross(w: nat, h: nat, c: Cross, i: nat)
    requires 1 <= w && 1 <= h
  {
    || (Line(w, i) == Clip(c.y, 0, h - 1)
        && Clip(c.x - c.size, 0, w - 1) <= Column(w, i) <= Clip(c.x + c.size, 0, w - 1))
    || (Column(w, i) == Clip(c.x, 0, w - 1)
        && Clip(c.y - c.size, 0, h - 1) <= Line(w, i) <= Clip(c.y + c.size, 0, h - 1))
  }

  predicate Marked(w: nat, h: nat, crosses: seq<Cross>, i: nat)
    requires 1 <= w && 1 <= h
  {
    exists k :: 0 <= k < |crosses| && OnCross(w, h, crosses[k], i)
  }

  /** The conversion of a quotient to int. */
  function Truncated(a: int, b: int): (q: int)
    requires b > 0
    ensures a >= 0 ==> q * b <= a < (q + 1) * b
    ensures a < 0 ==> (q - 1) * b < a <= q * b
  {
    if a >= 0 then a / b else -(-a / b)
  }

  /** The cross of blob number k: large for the expected blobs, centred on it; without brightness its place is
      undefined. */
  predicate CrossAt(m: Moments, k: nat, expected: nat, w: nat, c: Cross) {
    && c.size == (if k < expected then w / 50 else w / 100)
    && (m.sum > 0 ==> c.x == Truncated(m.sumX, m.sum) && c.y == Truncated(m.sumY, m.sum))
  }

  lemma MarkedMore(w: nat, h: nat, crosses: seq<Cross>, c: Cross, i: nat)
    requires 1 <= w && 1 <= h
    ensures Marked(w, h, crosses + [c], i) <==> Marked(w, h, crosses, i) || OnCross(w, h, c, i)
  {
    var more := crosses + [c];
    if Marked(w, h, crosses, i) {
      var k :| 0 <= k < |crosses| && OnCross(w, h, crosses[k], i);
      assert OnCross(w, h, more[k], i);
    }
    assert more[|crosses|] == c;
  }

  /** A stretch of one line as flat indices. */
  lemma InStretch(w: nat, y: nat, x0: nat, x1: nat, i: nat)
    requires x0 <= x1 < w
    ensures y * w + x0 <= i <= y * w + x1 <==> Line(w, i) == y && x0 <= Column(w, i) <= x1
  {
    if y * w + x0 <= i <= y * w + x1 {
      DivMod(w, y, i - y * w);
    }
    FlatIndex(w, i);
  }

  method DrawArm(img: Image, y: nat, x0: nat, x1: nat)
    requires img.Valid() && img.bitmap != null && x0 <= x1 < img.w && y < img.h
    modifies img.bitmap
    ensures forall i :: 0 <= i < img.bitmap.Length ==>
      img.bitmap[i] == if Line(img.w, i) == y && x0 <= Column(img.w, i) <= x1 then 0xFF else old(img.bitmap[i])
  {
    hide Line, Column;
    IndexInFrame(img.w, img.h, x0, y);
    ghost var start := y * img.w;
    var pt := img.w * y + x0;
    for cntr := x0 to x1 + 1
      invariant pt == start + cntr && start + img.w <= img.bitmap.Length
      invariant forall i :: 0 <= i < img.bitmap.Length ==>
        img.bitmap[i] == if start + x0 <= i < start + cntr then 0xFF else old(img.bitmap[i])
    {
      img.bitmap[pt] := 0xFF;
      pt := pt + 1;
    }
    forall i: nat | i < img.bitmap.Length
      ensures start + x0 <= i <= start + x1 <==> Line(img.w, i) == y && x0 <= Column(img.w, i) <= x1
    {
      InStretch(img.w, y, x0, x1, i);
    }
  }

  lemma OnePixel(w: nat, y: nat, x: nat, i: nat)
    requires x < w
    ensures i == y * w + x <==> Line(w, i) == y && Column(w, i) == x
  {
    InStretch(w, y, x, x, i);
  }

  method DrawPost(img: Image, x: nat, y0: nat, y1: nat)
    requires img.Valid() && img.bitmap != null && x < img.w && y0 <= y1 < img.h
    modifies img.bitmap
    ensures forall i :: 0 <= i < img.bitmap.Length ==>
      img.bitmap[i] == if Column(img.w, i) == x && y0 <= Line(img.w, i) <= y1 then 0xFF else old(img.bitmap[i])
  {
    hide Line, Column;
    var pt := img.w * y0 + x;
    for cntr := y0 to y1 + 1
      invariant pt == cntr * img.w + x
      invariant forall i :: 0 <= i < img.bitmap.Length ==>
        img.bitmap[i] == if Column(img.w, i) == x && y0 <= Line(img.w, i) < cntr then 0xFF else old(img.bitmap[i])
    {
      IndexInFrame(img.w, img.h, x, cntr);
      forall i: nat | i < img.bitmap.Length
        ensures i == pt <==> Line(img.w, i) == cntr && Column(img.w, i) == x
      {
        OnePixel(img.w, cntr, x, i);
      }
      img.bitmap[pt] := 0xFF;
      assert (cntr + 1) * img.w == cntr * img.w + img.w;
      pt := pt + img.w;
    }
  }

  /** ltr_int_draw_cross */
  method DrawCross(img: Image, c: Cross)
    requires img.Valid() && img.bitmap != null
    modifies img.bitmap
    ensures forall i :: 0 <= i < img.bitmap.Length ==>
      img.bitmap[i] == if OnCross(img.w, img.h, c, i) then 0xFF else old(img.bitmap[i])
  {
    hide Line, Column;
    var x, y := Clip(c.x, 0, img.w - 1), Clip(c.y, 0, img.h - 1);
    DrawArm(img, y, Clip(c.x - c.size, 0, img.w - 1), Clip(c.x + c.size, 0, img.w - 1));
    DrawPost(img, x, Clip(c.y - c.size, 0, img.h - 1), Clip(c.y + c.size, 0, img.h - 1));
  }

  /** The cross of one blob. */
  method MarkBlob(img: Image, m: Moments, k: nat, expected: nat) returns (ghost c: Cross)
    requires img.Valid() && img.bitmap != null
    modifies img.bitmap
    ensures CrossAt(m, k, expected, img.w, c)
    ensures forall i :: 0 <= i < img.bitmap.Length ==>
      img.bitmap[i] == if OnCross(img.w, img.h, c, i) then 0xFF else old(img.bitmap[i])
  {
    hide OnCross;
    var x: int, y: int := *, *;
    if m.sum > 0 {
      x, y := Truncated(m.sumX, m.sum), Truncated(m.sumY, m.sum);
    }
    var cross := Cross(x, y, if k < expected then img.w / 50 else img.w / 100);
    DrawCross(img, cross);
    c := cross;
  }
}

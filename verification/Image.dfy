/** The monochrome frame: one byte per pixel, row after row.  The ratio field is fixed at 1. */
module Image {

  type byte = x: int | 0 <= x < 256

  class Image {
    const w: nat
    const h: nat
    const bitmap: array?<byte>

    ghost predicate Valid() {
      1 <= w && 1 <= h && (bitmap != null ==> bitmap.Length == w * h)
    }

    ghost function Pixels(): (s: set<object>) {
      if bitmap == null then {} else {bitmap}
    }

    constructor (w: nat, h: nat, bitmap: array?<byte>)
      requires 1 <= w && 1 <= h && (bitmap != null ==> bitmap.Length == w * h)
      ensures Valid() && this.w == w && this.h == h && this.bitmap == bitmap
    {
      this.w := w;
      this.h := h;
      this.bitmap := bitmap;
    }
  }

  function Clip(c: int, min: int, max: int): (r: int)
    requires min <= max
    ensures min <= r <= max
    ensures r == if c < min then min else if max < c then max else c
  {
    var t := if c < min then min else c;
    if t > max then max else t
  }

  /** The flat index of pixel (x, y) lies inside the frame. */
  lemma IndexInFrame(w: nat, h: nat, x: nat, y: nat)
    requires x < w && y < h
    ensures 0 <= y * w + x < w * h
    ensures y * w + w <= w * h
  {
    calc {
      y * w + w;
      (y + 1) * w;
    <= { MulMono(y + 1, h, w); }
      h * w;
    }
  }

  lemma MulMono(a: nat, b: nat, w: nat)
    requires a <= b
    ensures a * w <= b * w
  {
  }

  // ----- where a flat index lies -----

  function Column(w: nat, i: nat): nat
    requires 0 < w
  {
    i % w
  }

  function Line(w: nat, i: nat): nat
    requires 0 < w
  {
    i / w
  }

  lemma DivMod(w: nat, y: nat, x: nat)
    requires x < w
    ensures Line(w, y * w + x) == y && Column(w, y * w + x) == x
  {
    var i := y * w + x;
    assert (i / w - y) * w == x - i % w;
    if i / w > y {
      MulMono(1, i / w - y, w);
    } else if i / w < y {
      MulMono(1, y - i / w, w);
    }
  }

  lemma FlatIndex(w: nat, i: nat)
    requires 0 < w
    ensures i == Line(w, i) * w + Column(w, i) && Column(w, i) < w
  {
  }

  /** Paints one horizontal run, each end clipped into the frame. */
  method DrawStripe(img: Image, x: int, y: int, xEnd: int, color: byte)
    requires img.Valid() && img.bitmap != null
    modifies img.bitmap
    ensures
      var x0, y0, x1 := Clip(x, 0, img.w - 1), Clip(y, 0, img.h - 1), Clip(xEnd, 0, img.w - 1);
      forall i :: 0 <= i < img.bitmap.Length ==>
        img.bitmap[i] == if y0 * img.w + x0 <= i <= y0 * img.w + x1 then color else old(img.bitmap[i])
  {
    var x0, y0, x1 := Clip(x, 0, img.w - 1), Clip(y, 0, img.h - 1), Clip(xEnd, 0, img.w - 1);
    IndexInFrame(img.w, img.h, x0, y0);
    var ptr := y0 * img.w + x0;
    ghost var start, left := ptr, x1 - x0;
    var rest := x1 - x0;
    while rest >= 0
      invariant ptr == start + left - rest
      invariant rest >= -1 || rest == left
      invariant start + left < img.bitmap.Length
      invariant forall i :: 0 <= i < img.bitmap.Length ==>
        img.bitmap[i] == if start <= i < ptr then color else old(img.bitmap[i])
      decreases rest
    {
      img.bitmap[ptr] := color;
      ptr := ptr + 1;
      rest := rest - 1;
    }
  }
}

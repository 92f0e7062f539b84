/** The maximal runs of nonzero pixels of a frame, in scan order. */
module Runs {
  import opened Stripes
  import opened Image

  ghost function Row(img: seq<byte>, w: nat, y: nat): (r: seq<byte>)
    requires y * w + w <= |img|
    ensures |r| == w
  {
    img[y * w..y * w + w]
  }

  /** Where the run of nonzero pixels that ends just before column x starts; x if there is none. */
  ghost function RunStart(row: seq<byte>, x: nat): (a: nat)
    requires x <= |row|
    ensures a <= x
  {
    if x == 0 || row[x - 1] == 0 then x else RunStart(row, x - 1)
  }

  ghost function Values(row: seq<byte>, a: nat, b: nat): (s: nat)
    requires a <= b <= |row|
  {
    if a == b then 0 else Values(row, a, b - 1) + row[b - 1]
  }

  ghost function Offsets(row: seq<byte>, a: nat, b: nat): (s: nat)
    requires a <= b <= |row|
  {
    if a == b then 0 else Offsets(row, a, b - 1) + row[b - 1] * (b - 1 - a)
  }

  /** The stripe that covers columns a up to, but not including, b. */
  ghost function RunOf(row: seq<byte>, y: nat, a: nat, b: nat): Stripe
    requires a < b <= |row|
  {
    Stripe(y, a, b - 1, Offsets(row, a, b), Values(row, a, b), b - a)
  }

  /** The runs of the row that a zero pixel before column x has ended. */
  ghost function Ended(row: seq<byte>, y: nat, x: nat): seq<Stripe>
    requires x <= |row|
  {
    if x == 0 then []
    else
      var a := RunStart(row, x - 1);
      Ended(row, y, x - 1) + if row[x - 1] == 0 && a < x - 1 then [RunOf(row, y, a, x - 1)] else []
  }

  ghost function RowRuns(row: seq<byte>, y: nat): seq<Stripe> {
    var a := RunStart(row, |row|);
    Ended(row, y, |row|) + if a < |row| then [RunOf(row, y, a, |row|)] else []
  }

  ghost function AllRuns(img: seq<byte>, w: nat, n: nat): seq<Stripe>
    requires n * w <= |img|
  {
    if n == 0 then []
    else
      RowFits(w, n, |img|);
      AllRuns(img, w, n - 1) + RowRuns(Row(img, w, n - 1), n - 1)
  }

  lemma RowFits(w: nat, n: nat, size: nat)
    requires 0 < n && n * w <= size
    ensures (n - 1) * w + w <= size && (n - 1) * w <= size
  {
    assert (n - 1) * w + w == n * w;
  }

  /** Each ended run takes a pixel and the zero after it: the capacity bound of the range arrays. */
  lemma {:induction false} EndedBound(row: seq<byte>, y: nat, x: nat)
    requires x <= |row|
    ensures 2 * |Ended(row, y, x)| <= RunStart(row, x)
  {
    if x != 0 {
      EndedBound(row, y, x - 1);
    }
  }
}

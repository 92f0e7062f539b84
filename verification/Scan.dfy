/** ltr_int_to_stripes: one pass over the frame, feeding the labeller and painting what was read. */
module Scan {
  import opened Stripes
  import opened Image
  import opened Runs
  import Crosses
  import Labeller
  import LabelProofs
  import Pixels
  import Places
  import RunProofs
  import Tags

  /** The pixel i after the scan has painted the runs: dark pixels stay dark. */
  function Dimmed(pixel: byte): byte {
    if pixel == 0 then 0 else 0x80
  }

  /** The painting so far: before done the runs are painted, from done on nothing is. */
  ghost predicate Painted(img0: seq<byte>, bitmap: seq<byte>, done: int) {
    && |bitmap| == |img0|
    && (forall i :: 0 <= i < done && i < |img0| ==> bitmap[i] == Dimmed(img0[i]))
    && (forall i :: done <= i < |img0| && 0 <= i ==> bitmap[i] == img0[i])
  }

  lemma {:induction false} RunIsLit(row: seq<byte>, x: nat)
    requires x <= |row|
    ensures forall i :: RunStart(row, x) <= i < x ==> row[i] != 0
  {
    if x != 0 && row[x - 1] != 0 {
      RunIsLit(row, x - 1);
    }
  }

  /** A run goes to the labeller; its pixels, the first that are not painted yet, are painted over. */
  method Emit(lab: Labeller.Labeller, img: Image, stripe: Stripe, ghost img0: seq<byte>)
    requires lab.Valid() && img.Valid() && img.bitmap != null && lab.Room(stripe)
    requires stripe.vline < img.h && stripe.hstart <= stripe.hstop < img.w
    requires |img0| == img.w * img.h
    requires forall i ::
      stripe.vline * img.w + stripe.hstart <= i <= stripe.vline * img.w + stripe.hstop && i < |img0| ==> img0[i] != 0
    requires Painted(img0, img.bitmap[..], stripe.vline * img.w + stripe.hstart)
    modifies lab, lab.current, lab.next, img.bitmap
    ensures lab.Valid() && {lab.current, lab.next} == {old(lab.current), old(lab.next)}
    ensures lab.next.Length == old(lab.next.Length)
    ensures lab.hist == old(lab.hist) + [stripe] && lab.currentVline == stripe.vline
    ensures lab.nextLimit == (if old(lab.currentVline) == stripe.vline then old(lab.nextLimit) else 0) + 1
    ensures Painted(img0, img.bitmap[..], stripe.vline * img.w + stripe.hstop + 1)
  {
    hide LabelProofs.Inv, Painted, Labeller.Accepts, Labeller.Labeller.State;
    FitsFrame(stripe, img.w, img.h);
    ghost var before, base: nat := img.bitmap[..], stripe.vline * img.w;
    var ok := lab.AddStripe(stripe, img);
    PaintedMore(img0, before, img.bitmap[..], base + stripe.hstart, base + stripe.hstop);
  }

  lemma FitsFrame(stripe: Stripe, w: nat, h: nat)
    requires stripe.vline < h && stripe.hstart <= stripe.hstop < w
    ensures Labeller.Accepts(w, h, stripe) && stripe.vline * w >= 0
    ensures Clip(stripe.hstart, 0, w - 1) == stripe.hstart && Clip(stripe.vline, 0, h - 1) == stripe.vline
    ensures Clip(stripe.hstop, 0, w - 1) == stripe.hstop
  {
  }

  lemma PaintedMore(img0: seq<byte>, before: seq<byte>, after: seq<byte>, start: nat, stop: nat)
    requires Painted(img0, before, start) && |after| == |before| && start <= stop
    requires forall i :: start <= i <= stop && i < |img0| ==> img0[i] != 0
    requires forall i :: 0 <= i < |after| ==> after[i] == if start <= i <= stop then 0x80 else before[i]
    ensures Painted(img0, after, stop + 1)
  {
  }

  lemma RowAt(img0: seq<byte>, w: nat, y: nat, x: nat)
    requires y * w + w <= |img0| && x < w
    ensures Row(img0, w, y)[x] == img0[y * w + x]
  {
  }

  lemma RunPixelsLit(img0: seq<byte>, w: nat, y: nat, x: nat)
    requires y * w + w <= |img0| && x <= w
    ensures var a := RunStart(Row(img0, w, y), x);
      forall i :: y * w + a <= i < y * w + x ==> img0[i] != 0
  {
    var row := Row(img0, w, y);
    RunIsLit(row, x);
    forall i | y * w + RunStart(row, x) <= i < y * w + x
      ensures img0[i] != 0
    {
      assert row[i - y * w] == img0[i];
    }
  }

  /** The local variable stripe of the scan, while the run from a is open at column x. */
  ghost predicate Open(stripe: Stripe, row: seq<byte>, y: nat, x: nat) {
    && x <= |row| && RunStart(row, x) < x
    && stripe == RunOf(row, y, RunStart(row, x), x).(points := x - 1 - RunStart(row, x))
  }

  lemma OpenFirst(row: seq<byte>, y: nat, x: nat)
    requires x < |row| && row[x] != 0 && RunStart(row, x) == x
    ensures Open(Stripe(y, x, x, 0, row[x], 0), row, y, x + 1)
  {
    assert RunStart(row, x + 1) == x;
    assert Offsets(row, x, x + 1) == Offsets(row, x, x) + row[x] * 0;
    assert Values(row, x, x + 1) == Values(row, x, x) + row[x];
  }

  lemma ScanBegin(row: seq<byte>, y: nat)
    ensures RunStart(row, 0) == 0 && Ended(row, y, 0) == []
  {
  }

  lemma ScanStep(row: seq<byte>, y: nat, x: nat)
    requires x < |row|
    ensures RunStart(row, x + 1) == if row[x] == 0 then x + 1 else RunStart(row, x)
    ensures Ended(row, y, x + 1)
         == if row[x] == 0 && RunStart(row, x) < x then Ended(row, y, x) + [RunOf(row, y, RunStart(row, x), x)]
           else Ended(row, y, x)
  {
  }

  lemma PaintedStep(img0: seq<byte>, bitmap: seq<byte>, done: nat, read: nat)
    requires Painted(img0, bitmap, done) && done <= read < |img0|
    ensures bitmap[read] == img0[read]
    ensures done == read && img0[read] == 0 ==> Painted(img0, bitmap, read + 1)
  {
  }

  lemma OpenEnds(stripe: Stripe, row: seq<byte>, y: nat, x: nat)
    requires Open(stripe, row, y, x)
    ensures stripe.vline == y && stripe.hstart == RunStart(row, x) && stripe.hstop == x - 1
    ensures stripe.(points := stripe.points + 1) == RunOf(row, y, RunStart(row, x), x)
  {
  }

  lemma OpenMore(stripe: Stripe, row: seq<byte>, y: nat, x: nat)
    requires x < |row| && row[x] != 0 && Open(stripe, row, y, x)
    ensures Open(Stripe(stripe.vline, stripe.hstart, x, stripe.sumX + row[x] * (stripe.points + 1),
                        stripe.sum + row[x], stripe.points + 1),
                 row, y, x + 1)
  {
    var a := RunStart(row, x);
    assert RunStart(row, x + 1) == a;
    assert Offsets(row, a, x + 1) == Offsets(row, a, x) + row[x] * (x - a);
    assert Values(row, a, x + 1) == Values(row, a, x) + row[x];
  }

  /** The open run ends before column x. */
  method Finish(lab: Labeller.Labeller, img: Image, stripe: Stripe, y: nat, x: nat, ghost img0: seq<byte>)
    requires lab.Valid() && lab.currentVline <= y && img.w / 2 + 1 <= lab.next.Length
    requires img.Valid() && img.bitmap != null && y < img.h && |img0| == img.w * img.h
    requires y * img.w + img.w <= |img0| && x <= img.w
    requires Painted(img0, img.bitmap[..], y * img.w + RunStart(Row(img0, img.w, y), x))
    requires var row := Row(img0, img.w, y);
      Open(stripe, row, y, x) && (lab.currentVline == y ==> lab.nextLimit <= |Ended(row, y, x)|)
    modifies lab, lab.current, lab.next, img.bitmap
    ensures lab.Valid() && {lab.current, lab.next} == {old(lab.current), old(lab.next)}
    ensures lab.next.Length == old(lab.next.Length)
    ensures var row := Row(img0, img.w, y); lab.hist == old(lab.hist) + [RunOf(row, y, RunStart(row, x), x)]
    ensures lab.currentVline == y && lab.nextLimit <= |Ended(Row(img0, img.w, y), y, x)| + 1
    ensures Painted(img0, img.bitmap[..], y * img.w + x)
  {
    hide LabelProofs.Inv, RunOf, Ended, Painted;
    ghost var row := Row(img0, img.w, y);
    OpenEnds(stripe, row, y, x);
    RunPixelsLit(img0, img.w, y, x);
    EndedBound(row, y, x);
    Emit(lab, img, stripe.(points := stripe.points + 1), img0);
  }

  /** The inner loop of ltr_int_to_stripes. */
  method ScanRow(lab: Labeller.Labeller, img: Image, y: nat, ghost img0: seq<byte>)
    requires lab.Valid() && lab.currentVline < y && img.w / 2 + 1 <= lab.next.Length
    requires img.Valid() && img.bitmap != null && y < img.h && |img0| == img.w * img.h
    requires y * img.w + img.w <= |img0| && Painted(img0, img.bitmap[..], y * img.w)
    modifies lab, lab.current, lab.next, img.bitmap
    ensures lab.Valid() && {lab.current, lab.next} == {old(lab.current), old(lab.next)}
    ensures lab.next.Length == old(lab.next.Length)
    ensures lab.hist == old(lab.hist) + RowRuns(Row(img0, img.w, y), y) && lab.currentVline <= y
    ensures Painted(img0, img.bitmap[..], y * img.w + img.w)
  {
    hide LabelProofs.Inv, RunOf, Open, Ended, RunStart, Painted, Labeller.Labeller.Valid, Row;
    ghost var row, hist0, arrays := Row(img0, img.w, y), lab.hist, {lab.current, lab.next};
    var ptr: nat := y * img.w;
    ghost var base := ptr;
    var inStripe := false;
    var stripe := Stripe(0, 0, 0, 0, 0, 0);
    ScanBegin(row, y);
    for x := 0 to img.w
      invariant ptr == base + x
      invariant lab.Valid() && {lab.current, lab.next} == arrays && lab.next.Length == old(lab.next.Length)
      invariant lab.hist == hist0 + Ended(row, y, x) && lab.currentVline <= y
      invariant lab.currentVline == y ==> lab.nextLimit <= |Ended(row, y, x)|
      invariant Painted(img0, img.bitmap[..], base + RunStart(row, x))
      invariant if inStripe then Open(stripe, row, y, x) && RunStart(row, x) < x else RunStart(row, x) == x
    {
      RowAt(img0, img.w, y, x);
      PaintedStep(img0, img.bitmap[..], base + RunStart(row, x), ptr);
      ScanStep(row, y, x);
      var pixel := img.bitmap[ptr];
      assert pixel == img.bitmap[..][ptr] == row[x];
      if pixel != 0 {
        if inStripe {
          OpenMore(stripe, row, y, x);
          stripe := stripe.(points := stripe.points + 1);
          stripe := stripe.(hstop := x, sum := stripe.sum + pixel, sumX := stripe.sumX + pixel * stripe.points);
        } else {
          OpenFirst(row, y, x);
          stripe := Stripe(y, x, x, 0, pixel, 0);
          inStripe := true;
        }
      } else {
        if inStripe {
          inStripe := false;
          Finish(lab, img, stripe, y, x, img0);
          PaintedStep(img0, img.bitmap[..], ptr, ptr);
        }
      }
      ptr := ptr + 1;
    }
    if inStripe {
      Finish(lab, img, stripe, y, img.w, img0);
    }
  }

  method ToStripes(lab: Labeller.Labeller, img: Image)
    requires lab.Valid() && lab.hist == [] && lab.currentVline == -2
    requires img.Valid() && img.bitmap != null && img.w / 2 + 1 <= lab.next.Length
    modifies lab, lab.current, lab.next, img.bitmap
    ensures lab.Valid() && lab.hist == AllRuns(old(img.bitmap[..]), img.w, img.h)
    ensures {lab.current, lab.next} == {old(lab.current), old(lab.next)} && lab.next.Length == old(lab.next.Length)
    ensures forall i :: 0 <= i < img.bitmap.Length ==> img.bitmap[i] == Dimmed(old(img.bitmap[i]))
  {
    hide LabelProofs.Inv, RowRuns;
    ghost var img0, arrays := img.bitmap[..], {lab.current, lab.next};
    for y := 0 to img.h
      invariant lab.Valid() && {lab.current, lab.next} == arrays && lab.next.Length == old(lab.next.Length)
      invariant y * img.w <= |img0|
      invariant lab.hist == AllRuns(img0, img.w, y) && lab.currentVline < y
      invariant Painted(img0, img.bitmap[..], y * img.w)
    {
      IndexInFrame(img.w, img.h, 0, y);
      assert (y + 1) * img.w == y * img.w + img.w;
      ScanRow(lab, img, y, img0);
    }
  }

  /** One frame of the bitmap path, as the drivers run it: ltr_int_to_stripes, then ltr_int_stripes_to_blobs.

      The finished accumulators are, one for one, the 8-connected components of
      the lit pixels of the frame as it was before anything was painted into it.
      A reported blob lies at the centre of mass of its component, seen from the
      middle of the frame; its cross lies there as well.
      Afterwards the frame shows the lit pixels dimmed, under the crosses.
   */
  method FindBlobs(lab: Labeller.Labeller, img: Image, numBlobs: nat, expected: nat, minPts: int, maxPts: int)
    returns (blobs: seq<Labeller.Blob>, ghost done: seq<Tags.Addr>, ghost value: map<Tags.Addr, Moments>,
             ghost crosses: seq<Crosses.Cross>, ghost parts: seq<set<nat>>)
    requires lab.Valid() && lab.hist == [] && lab.currentVline == -2
    requires img.Valid() && img.bitmap != null && img.w / 2 + 1 <= lab.next.Length
    modifies lab, lab.current, lab.next, img.bitmap
    ensures lab.Valid() && lab.hist == [] && lab.currentVline == -2 && lab.heap == map[]
    ensures {lab.current, lab.next} == {old(lab.current), old(lab.next)} && lab.next.Length == old(lab.next.Length)
    ensures Pixels.ListsComponents(old(img.bitmap[..]), img.w, done, value)
    ensures forall p :: p in done ==> p in value
    ensures Labeller.Reports(blobs, done, value, numBlobs, minPts, maxPts, img.w, img.h)
    ensures forall k :: 0 <= k < |blobs| ==>
      Places.InFrame(blobs[k].place, img.w, img.h) && minPts <= blobs[k].score <= maxPts
    ensures Places.ReportedAs(old(img.bitmap[..]), img.w, img.h, blobs, parts, numBlobs, minPts, maxPts)
    ensures forall p :: p in done ==> value[p].sum > 0
    ensures Labeller.Marks(crosses, |blobs|, done, value, expected, minPts, maxPts, img.w)
    ensures forall k :: 0 <= k < |blobs| ==> Places.CrossOver(crosses[k], k, blobs[k], expected, img.w, img.h)
    ensures forall i :: 0 <= i < img.bitmap.Length ==>
      img.bitmap[i] == if Crosses.Marked(img.w, img.h, crosses, i) then 0xFF else Dimmed(old(img.bitmap[i]))
  {
    hide LabelProofs.Inv, AllRuns, Crosses.Marked, Labeller.Marks, RunProofs.FrameExact, Pixels.ListsComponents,
      TagsComponents, Total, Labeller.Reports, Places.ReportedAs, Places.CrossOver, Tags.Distinct;
    ghost var img0 := img.bitmap[..];
    ToStripes(lab, img);
    assert img.h * img.w == |img0|;
    RunProofs.AllRunsExact(img0, img.w, img.h);
    ghost var h, tag := lab.hist, lab.tag;
    blobs, done, value, crosses := lab.StripesToBlobs(numBlobs, expected, minPts, maxPts, img);
    ListIsTags(done, tag);
    Pixels.TagsListComponents(img0, img.w, img.h, h, tag, done, value);
    Places.ComponentsBright(img0, img.w, img.h, done, value);
    Places.ReportedInFrame(img0, img.w, img.h, blobs, done, value, numBlobs, minPts, maxPts);
    parts := Places.ReportsComponents(img0, img.w, img.h, blobs, done, value, numBlobs, minPts, maxPts);
    Places.CrossesOver(crosses, blobs, done, value, numBlobs, expected, minPts, maxPts, img.w, img.h);
  }

  lemma ListIsTags(done: seq<Tags.Addr>, tag: seq<Tags.Addr>)
    requires Tags.Elements(done) == Tags.Elements(tag)
    ensures forall p :: p in done <==> p in tag
  {
    assert forall p :: p in done <==> p in Tags.Elements(done);
    assert forall p :: p in tag <==> p in Tags.Elements(tag);
  }
}

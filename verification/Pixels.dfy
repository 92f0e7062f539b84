/** 8-connected components of the lit pixels, and what the blobs of the labeller have to do with them. */
module Pixels {
  import opened Stripes
  import opened Image
  import opened Runs
  import opened RunProofs
  import opened Tags

  // ----- the specification: paths of lit pixels -----

  ghost predicate Lit(img: seq<byte>, i: nat) {
    i < |img| && img[i] != 0
  }

  predicate Adjacent(w: nat, i: nat, j: nat)
    requires 0 < w
  {
    -1 <= Column(w, i) - Column(w, j) <= 1 && -1 <= Line(w, i) - Line(w, j) <= 1
  }

  ghost predicate IsPath(img: seq<byte>, w: nat, path: seq<nat>)
    requires 0 < w
  {
    && path != []
    && (forall k :: 0 <= k < |path| ==> Lit(img, path[k]))
    && (forall k, l :: 0 <= k && l == k + 1 < |path| ==> Adjacent(w, path[k], path[l]))
  }

  ghost predicate Leads(img: seq<byte>, w: nat, path: seq<nat>, i: nat, j: nat)
    requires 0 < w
  {
    IsPath(img, w, path) && path[0] == i && path[|path| - 1] == j
  }

  /** A path of lit pixels, each a neighbour (diagonals included) of the one before, leads from i to j. */
  ghost predicate Joined(img: seq<byte>, w: nat, i: nat, j: nat)
    requires 0 < w
  {
    exists path :: Leads(img, w, path, i, j)
  }

  function PixelMoments(v: byte, x: nat, y: nat): Moments {
    Moments(v, v * x, v * y, 1)
  }

  /** The moments of those pixels below n that belong to c. */
  ghost function SumPixels(img: seq<byte>, w: nat, c: set<nat>, n: nat): Moments
    requires 0 < w && n <= |img|
  {
    if n == 0 then Moments(0, 0, 0, 0)
    else
      var front := SumPixels(img, w, c, n - 1);
      if n - 1 in c then front.Plus(PixelMoments(img[n - 1], Column(w, n - 1), Line(w, n - 1))) else front
  }

  // ----- paths -----

  lemma JoinedSelf(img: seq<byte>, w: nat, i: nat)
    requires 0 < w && Lit(img, i)
    ensures Joined(img, w, i, i)
  {
    assert Leads(img, w, [i], i, i);
  }

  lemma JoinedNeighbour(img: seq<byte>, w: nat, i: nat, j: nat)
    requires 0 < w && Lit(img, i) && Lit(img, j) && Adjacent(w, i, j)
    ensures Joined(img, w, i, j)
  {
    assert Leads(img, w, [i, j], i, j);
  }

  lemma JoinedTrans(img: seq<byte>, w: nat, i: nat, j: nat, k: nat)
    requires 0 < w && Joined(img, w, i, j) && Joined(img, w, j, k)
    ensures Joined(img, w, i, k)
  {
    var p :| Leads(img, w, p, i, j);
    var q :| Leads(img, w, q, j, k);
    var path := p + q[1..];
    forall l, m | 0 <= l && m == l + 1 < |path|
      ensures Adjacent(w, path[l], path[m])
    {
      if m < |p| {
        assert Adjacent(w, p[l], p[m]);
      } else {
        assert Adjacent(w, q[l - |p| + 1], q[m - |p| + 1]);
      }
    }
    assert Leads(img, w, path, i, k);
  }

  lemma JoinedSym(img: seq<byte>, w: nat, i: nat, j: nat)
    requires 0 < w && Joined(img, w, i, j)
    ensures Joined(img, w, j, i)
  {
    var p :| Leads(img, w, p, i, j);
    var n := |p|;
    var path := seq(n, k requires 0 <= k < n => p[n - 1 - k]);
    forall l, m | 0 <= l && m == l + 1 < |path|
      ensures Adjacent(w, path[l], path[m])
    {
      assert Adjacent(w, p[n - 1 - m], p[n - 1 - l]);
    }
    assert Leads(img, w, path, j, i);
  }

  // ----- runs and pixels -----

  lemma Position(img: seq<byte>, w: nat, n: nat, s: Stripe, i: nat)
    requires 0 < w && IsFrameRun(s, img, w, n) && Holds(s, w, i)
    ensures Lit(img, i) && Line(w, i) == s.vline && Column(w, i) == i - s.vline * w
    ensures s.hstart <= Column(w, i) <= s.hstop
  {
    DivMod(w, s.vline, i - s.vline * w);
  }

  lemma {:induction false} RunJoined(img: seq<byte>, w: nat, n: nat, s: Stripe, i: nat)
    requires 0 < w && IsFrameRun(s, img, w, n) && Holds(s, w, i)
    ensures Joined(img, w, Begin(s, w), i)
    decreases i
  {
    Position(img, w, n, s, i);
    if i == Begin(s, w) {
      JoinedSelf(img, w, i);
    } else {
      RunJoined(img, w, n, s, i - 1);
      Position(img, w, n, s, i - 1);
      JoinedNeighbour(img, w, i - 1, i);
      JoinedTrans(img, w, Begin(s, w), i - 1, i);
    }
  }

  lemma FrameLinesAscend(img: seq<byte>, w: nat, n: nat, h: seq<Stripe>, i: nat, j: nat)
    requires FrameExact(img, w, n, h) && i <= j < |h|
    ensures LinesAscend(h, i, j)
  {
    forall k, l | i <= k <= l <= j
      ensures h[k].vline <= h[l].vline
    {
      assert k < l ==> Before(h[k], h[l]);
    }
  }

  /** Neighbouring lit pixels lie in the same run or in linked runs. */
  lemma NeighboursLinked(img: seq<byte>, w: nat, n: nat, h: seq<Stripe>, i: nat, j: nat, k: nat, l: nat)
    requires 0 < w && FrameExact(img, w, n, h) && Adjacent(w, i, j)
    requires k <= l < |h| && Holds(h[k], w, i) && Holds(h[l], w, j)
    ensures k == l || Linked(h, k, l)
  {
    hide RunOf, Row, Column, Line;
    assert IsFrameRun(h[k], img, w, n) && IsFrameRun(h[l], img, w, n);
    Position(img, w, n, h[k], i);
    Position(img, w, n, h[l], j);
    if k < l {
      assert Before(h[k], h[l]);
      FrameLinesAscend(img, w, n, h, k, l);
    }
  }

  lemma NeighboursSameTag<P>(img: seq<byte>, w: nat, n: nat, h: seq<Stripe>, tag: seq<P>, i: nat, j: nat, k: nat,
          l: nat)
    requires 0 < w && FrameExact(img, w, n, h) && |tag| == |h| && RespectsLinks(h, tag) && Adjacent(w, i, j)
    requires k < |h| && l < |h| && Holds(h[k], w, i) && Holds(h[l], w, j)
    ensures tag[k] == tag[l]
  {
    if k <= l {
      NeighboursLinked(img, w, n, h, i, j, k, l);
    } else {
      NeighboursLinked(img, w, n, h, j, i, l, k);
    }
  }

  lemma Owner(img: seq<byte>, w: nat, n: nat, h: seq<Stripe>, i: nat) returns (k: nat)
    requires FrameExact(img, w, n, h) && n * w == |img| && Lit(img, i)
    ensures k < |h| && Holds(h[k], w, i)
  {
    assert Held(h, w, i);
    k :| 0 <= k < |h| && Holds(h[k], w, i);
  }

  lemma {:induction false} PathSameTag<P>(img: seq<byte>, w: nat, n: nat, h: seq<Stripe>, tag: seq<P>, path: seq<nat>,
          k: nat, l: nat)
    requires 0 < w && FrameExact(img, w, n, h) && n * w == |img| && |tag| == |h| && RespectsLinks(h, tag)
    requires IsPath(img, w, path) && k < |h| && l < |h|
    requires Holds(h[k], w, path[0]) && Holds(h[l], w, path[|path| - 1])
    ensures tag[k] == tag[l]
    decreases |path|
  {
    hide FrameExact;
    var m := |path| - 1;
    if m == 0 {
      NeighboursSameTag(img, w, n, h, tag, path[0], path[0], k, l);
    } else {
      assert Lit(img, path[m - 1]) && Adjacent(w, path[m - 1], path[m]);
      var o := Owner(img, w, n, h, path[m - 1]);
      PathSameTag(img, w, n, h, tag, path[..m], k, o);
      NeighboursSameTag(img, w, n, h, tag, path[m - 1], path[m], o, l);
    }
  }

  /** Linked runs are joined by a path. */
  lemma LinkedJoined(img: seq<byte>, w: nat, n: nat, s: Stripe, t: Stripe)
    requires 0 < w && IsFrameRun(s, img, w, n) && IsFrameRun(t, img, w, n)
    requires t.vline == s.vline + 1 && ColumnsTouch(s, t)
    ensures Joined(img, w, Begin(s, w), Begin(t, w))
  {
    var x := if s.hstart < t.hstart - 1 then t.hstart - 1 else s.hstart;
    var z := if x < t.hstart then t.hstart else if x > t.hstop then t.hstop else x;
    var i, j := s.vline * w + x, t.vline * w + z;
    RunJoined(img, w, n, s, i);
    RunJoined(img, w, n, t, j);
    JoinedSym(img, w, Begin(t, w), j);
    Position(img, w, n, s, i);
    Position(img, w, n, t, j);
    JoinedNeighbour(img, w, i, j);
    JoinedTrans(img, w, Begin(s, w), i, j);
    JoinedTrans(img, w, Begin(s, w), j, Begin(t, w));
  }

  lemma ConnectedJoined(img: seq<byte>, w: nat, n: nat, h: seq<Stripe>, k: nat, l: nat)
    requires 0 < w && FrameExact(img, w, n, h) && k < |h| && l < |h| && Connected(h, k, l)
    ensures Joined(img, w, Begin(h[k], w), Begin(h[l], w))
  {
    hide IsFrameRun, Joined, Begin;
    var start := Begin(h[k], w);
    var reach := set m: nat | m < |h| && Joined(img, w, start, Begin(h[m], w));
    assert IsFrameRun(h[k], img, w, n);
    RunBeginsLit(img, w, n, h[k]);
    JoinedSelf(img, w, start);
    forall i: nat, j: nat | i < j < |h| && Linked(h, i, j)
      ensures i in reach <==> j in reach
    {
      assert IsFrameRun(h[i], img, w, n) && IsFrameRun(h[j], img, w, n);
      LinkedJoined(img, w, n, h[i], h[j]);
      JoinedSym(img, w, Begin(h[i], w), Begin(h[j], w));
      if i in reach {
        JoinedTrans(img, w, start, Begin(h[i], w), Begin(h[j], w));
      }
      if j in reach {
        JoinedTrans(img, w, start, Begin(h[j], w), Begin(h[i], w));
      }
    }
    assert Closed(h, reach);
  }

  lemma RunBeginsLit(img: seq<byte>, w: nat, n: nat, s: Stripe)
    requires IsFrameRun(s, img, w, n)
    ensures Lit(img, Begin(s, w))
  {
    assert img[Begin(s, w)] != 0;
  }

  /** Two lit pixels lie in equally tagged runs exactly when a path joins them. */
  lemma TagsJoin<P>(img: seq<byte>, w: nat, n: nat, h: seq<Stripe>, tag: seq<P>, i: nat, j: nat, k: nat, l: nat)
    requires 0 < w && FrameExact(img, w, n, h) && n * w == |img| && |tag| == |h| && TagsComponents(h, tag)
    requires k < |h| && l < |h| && Holds(h[k], w, i) && Holds(h[l], w, j)
    ensures tag[k] == tag[l] <==> Joined(img, w, i, j)
  {
    hide TagsComponents, Holds, IsFrameRun, Before, Begin;
    if Joined(img, w, i, j) {
      var path :| Leads(img, w, path, i, j);
      TagsRespectLinks(h, tag);
      PathSameTag(img, w, n, h, tag, path, k, l);
    }
    if tag[k] == tag[l] {
      SameTagConnected(h, tag, k, l);
      assert IsFrameRun(h[k], img, w, n) && IsFrameRun(h[l], img, w, n);
      RunJoined(img, w, n, h[k], i);
      JoinedSym(img, w, Begin(h[k], w), i);
      ConnectedJoined(img, w, n, h, k, l);
      RunJoined(img, w, n, h[l], j);
      JoinedTrans(img, w, i, Begin(h[k], w), Begin(h[l], w));
      JoinedTrans(img, w, i, Begin(h[l], w), j);
    }
  }

  lemma SameTagConnected<P>(h: seq<Stripe>, tag: seq<P>, k: nat, l: nat)
    requires |tag| == |h| && TagsComponents(h, tag) && k < |h| && l < |h| && tag[k] == tag[l]
    ensures Connected(h, k, l)
  {
  }

  // ----- totals -----

  ghost predicate InBlob<P>(h: seq<Stripe>, w: nat, tag: seq<P>, p: P, i: nat)
    requires |tag| == |h|
  {
    exists k :: 0 <= k < |h| && Holds(h[k], w, i) && tag[k] == p
  }

  /** The pixels of the runs that went to accumulator p. */
  ghost function BlobOf<P>(h: seq<Stripe>, w: nat, size: nat, tag: seq<P>, p: P): set<nat>
    requires |tag| == |h|
  {
    set i: nat | i < size && InBlob(h, w, tag, p, i)
  }

  ghost function TotalTo<P>(h: seq<Stripe>, tag: seq<P>, n: nat, p: P): Moments
    requires |tag| == |h| && n <= |h|
  {
    Moments(SumTo(Sums(h), tag, n, p), SumTo(SumXs(h), tag, n, p),
            SumTo(SumYs(h), tag, n, p), SumTo(Points(h), tag, n, p))
  }

  lemma TotalToStep<P>(h: seq<Stripe>, tag: seq<P>, n: nat, p: P)
    requires |tag| == |h| && n < |h|
    ensures TotalTo(h, tag, n + 1, p)
        == if tag[n] == p then TotalTo(h, tag, n, p).Plus(MomentsOf(h[n])) else TotalTo(h, tag, n, p)
  {
  }

  lemma {:induction false} SumSkip(img: seq<byte>, w: nat, c: set<nat>, a: nat, b: nat)
    requires 0 < w && a <= b <= |img| && forall i :: a <= i < b ==> i !in c
    ensures SumPixels(img, w, c, b) == SumPixels(img, w, c, a)
  {
    if a < b {
      SumSkip(img, w, c, a, b - 1);
    }
  }

  lemma {:induction false} SumRun(img: seq<byte>, w: nat, c: set<nat>, y: nat, a: nat, b: nat)
    requires 0 < w && y * w + w <= |img| && a < b <= w
    requires forall i :: y * w + a <= i < y * w + b ==> i in c
    ensures SumPixels(img, w, c, y * w + b)
         == SumPixels(img, w, c, y * w + a).Plus(MomentsOf(RunOf(Row(img, w, y), y, a, b)))
    decreases b
  {
    var row, i := Row(img, w, y), y * w + b - 1;
    DivMod(w, y, b - 1);
    assert row[b - 1] == img[i];
    assert SumPixels(img, w, c, i + 1) == SumPixels(img, w, c, i).Plus(PixelMoments(img[i], b - 1, y));
    if a + 1 == b {
      assert Values(row, a, b) == Values(row, a, a) + row[a];
      assert Offsets(row, a, b) == Offsets(row, a, a) + row[a] * 0;
    } else {
      SumRun(img, w, c, y, a, b - 1);
      MomentsStep(row, y, a, b);
    }
  }

  lemma MomentsStep(row: seq<byte>, y: nat, a: nat, b: nat)
    requires a + 1 < b <= |row|
    ensures MomentsOf(RunOf(row, y, a, b))
        == MomentsOf(RunOf(row, y, a, b - 1)).Plus(PixelMoments(row[b - 1], b - 1, y))
  {
    var v, s := row[b - 1], Values(row, a, b - 1);
    assert Values(row, a, b) == s + v;
    assert Offsets(row, a, b) == Offsets(row, a, b - 1) + v * (b - 1 - a);
    assert (s + v) * a + v * (b - 1 - a) == s * a + v * (b - 1);
    assert (s + v) * y == s * y + v * y;
  }

  function EndOf(h: seq<Stripe>, w: nat, k: nat): nat
    requires k <= |h|
  {
    if k == 0 then 0 else Last(h[k - 1], w) + 1
  }

  lemma FlatOrder(img: seq<byte>, w: nat, n: nat, h: seq<Stripe>, k: nat, l: nat)
    requires FrameExact(img, w, n, h) && k < l < |h|
    ensures Last(h[k], w) < Begin(h[l], w)
  {
    hide RunOf, Row;
    assert IsFrameRun(h[k], img, w, n) && IsFrameRun(h[l], img, w, n) && Before(h[k], h[l]);
    if h[k].vline < h[l].vline {
      MulMono(h[k].vline + 1, h[l].vline, w);
      assert (h[k].vline + 1) * w == h[k].vline * w + w;
    }
  }

  /** Between the runs before k and run k, and after the last run, there is nothing of any blob. */
  lemma GapOutside<P>(img: seq<byte>, w: nat, n: nat, h: seq<Stripe>, tag: seq<P>, p: P, k: nat, i: nat)
    requires FrameExact(img, w, n, h) && |tag| == |h| && k <= |h|
    requires EndOf(h, w, k) <= i && (k < |h| ==> i < Begin(h[k], w))
    ensures i !in BlobOf(h, w, |img|, tag, p)
  {
    hide FrameExact, Begin, Last;
    if InBlob(h, w, tag, p, i) {
      var l :| 0 <= l < |h| && Holds(h[l], w, i) && tag[l] == p;
      if l < k {
        if l < k - 1 {
          FlatOrder(img, w, n, h, l, k - 1);
          RunOrder(img, w, n, h, k - 1);
        }
      } else if k < l {
        FlatOrder(img, w, n, h, k, l);
        RunOrder(img, w, n, h, k);
      }
    }
  }

  lemma RunOrder(img: seq<byte>, w: nat, n: nat, h: seq<Stripe>, k: nat)
    requires FrameExact(img, w, n, h) && k < |h|
    ensures Begin(h[k], w) <= Last(h[k], w) < |img|
  {
    assert IsFrameRun(h[k], img, w, n);
  }

  lemma RunInside<P>(img: seq<byte>, w: nat, n: nat, h: seq<Stripe>, tag: seq<P>, p: P, k: nat, i: nat)
    requires FrameExact(img, w, n, h) && |tag| == |h| && k < |h| && Holds(h[k], w, i)
    ensures i in BlobOf(h, w, |img|, tag, p) <==> tag[k] == p
  {
    hide FrameExact, Begin, Last;
    RunOrder(img, w, n, h, k);
    if InBlob(h, w, tag, p, i) {
      var l :| 0 <= l < |h| && Holds(h[l], w, i) && tag[l] == p;
      if l < k {
        FlatOrder(img, w, n, h, l, k);
      } else if k < l {
        FlatOrder(img, w, n, h, k, l);
      }
    }
  }

  lemma RunSum(img: seq<byte>, w: nat, n: nat, s: Stripe, c: set<nat>)
    requires 0 < w && IsFrameRun(s, img, w, n)
    requires forall i :: Begin(s, w) <= i <= Last(s, w) ==> i in c
    ensures SumPixels(img, w, c, Last(s, w) + 1) == SumPixels(img, w, c, Begin(s, w)).Plus(MomentsOf(s))
  {
    SumRun(img, w, c, s.vline, s.hstart, s.hstop + 1);
  }

  lemma {:induction false} TotalPixels<P>(img: seq<byte>, w: nat, n: nat, h: seq<Stripe>, tag: seq<P>, p: P, k: nat)
    requires 0 < w && FrameExact(img, w, n, h) && |tag| == |h| && k <= |h|
    ensures EndOf(h, w, k) <= |img|
    ensures TotalTo(h, tag, k, p) == SumPixels(img, w, BlobOf(h, w, |img|, tag, p), EndOf(h, w, k))
  {
    hide FrameExact, Begin, Last, TotalTo, SumPixels, BlobOf;
    if k == 0 {
      NothingSummed(img, w, h, tag, p);
    } else {
      var c, s := BlobOf(h, w, |img|, tag, p), h[k - 1];
      TotalPixels(img, w, n, h, tag, p, k - 1);
      TotalToStep(h, tag, k - 1, p);
      RunOrder(img, w, n, h, k - 1);
      EndBeforeBegin(img, w, n, h, k - 1);
      forall i | EndOf(h, w, k - 1) <= i < Begin(s, w)
        ensures i !in c
      {
        GapOutside(img, w, n, h, tag, p, k - 1, i);
      }
      SumSkip(img, w, c, EndOf(h, w, k - 1), Begin(s, w));
      forall i | Begin(s, w) <= i <= Last(s, w)
        ensures i in c <==> tag[k - 1] == p
      {
        RunInside(img, w, n, h, tag, p, k - 1, i);
      }
      FrameRun(img, w, n, h, k - 1);
      if tag[k - 1] == p {
        RunSum(img, w, n, s, c);
      } else {
        SumSkip(img, w, c, Begin(s, w), Last(s, w) + 1);
      }
    }
  }

  lemma FrameRun(img: seq<byte>, w: nat, n: nat, h: seq<Stripe>, k: nat)
    requires FrameExact(img, w, n, h) && k < |h|
    ensures IsFrameRun(h[k], img, w, n)
  {
  }

  lemma NothingSummed<P>(img: seq<byte>, w: nat, h: seq<Stripe>, tag: seq<P>, p: P)
    requires 0 < w && |tag| == |h|
    ensures TotalTo(h, tag, 0, p) == SumPixels(img, w, BlobOf(h, w, |img|, tag, p), 0)
  {
  }

  lemma EndBeforeBegin(img: seq<byte>, w: nat, n: nat, h: seq<Stripe>, k: nat)
    requires FrameExact(img, w, n, h) && k < |h|
    ensures EndOf(h, w, k) <= Begin(h[k], w)
  {
    if k != 0 {
      FlatOrder(img, w, n, h, k - 1, k);
    }
  }

  /** An accumulator holds the moments of all pixels of its blob. */
  lemma BlobTotal<P>(img: seq<byte>, w: nat, n: nat, h: seq<Stripe>, tag: seq<P>, p: P)
    requires 0 < w && FrameExact(img, w, n, h) && |tag| == |h|
    ensures Total(h, tag, p) == SumPixels(img, w, BlobOf(h, w, |img|, tag, p), |img|)
  {
    hide FrameExact, Last, BlobOf;
    TotalPixels(img, w, n, h, tag, p, |h|);
    var c := BlobOf(h, w, |img|, tag, p);
    forall i: nat | EndOf(h, w, |h|) <= i < |img|
      ensures i !in c
    {
      GapOutside(img, w, n, h, tag, p, |h|, i);
    }
    SumSkip(img, w, c, EndOf(h, w, |h|), |img|);
  }

  /** The points of a blob are the number of its pixels. */
  lemma {:induction false} PointsCount(img: seq<byte>, w: nat, c: set<nat>, n: nat)
    requires 0 < w && n <= |img|
    ensures SumPixels(img, w, c, n).points == |set i: nat | i in c && i < n|
  {
    if n == 0 {
      assert (set i: nat | i in c && i < 0) == {};
    } else {
      PointsCount(img, w, c, n - 1);
      var below := set i: nat | i in c && i < n - 1;
      assert (set i: nat | i in c && i < n) == if n - 1 in c then below + {n - 1} else below;
    }
  }

  // ----- the blob list against the components -----

  /** c is an 8-connected component of the lit pixels: with one pixel it holds exactly those joined to it. */
  ghost predicate IsComponent(img: seq<byte>, w: nat, c: set<nat>)
    requires 0 < w
  {
    && c != {}
    && forall i, j: nat {:trigger Joined(img, w, i, j)} :: i in c ==> Lit(img, i) && (j in c <==> Joined(img, w, i, j))
  }

  /** Each accumulator of the list belongs to a component of its own, none is missing, and it holds its moments. */
  ghost predicate ListsComponents(img: seq<byte>, w: nat, ps: seq<Addr>, value: map<Addr, Moments>)
    requires 0 < w
  {
    exists cs: seq<set<nat>> :: Lists(img, w, ps, value, cs)
  }

  ghost predicate Lists(img: seq<byte>, w: nat, ps: seq<Addr>, value: map<Addr, Moments>, cs: seq<set<nat>>)
    requires 0 < w
  {
    && |cs| == |ps|
    && (forall k :: 0 <= k < |cs| ==> IsComponent(img, w, cs[k]))
    && (forall k :: 0 <= k < |cs| ==> ps[k] in value && value[ps[k]] == SumPixels(img, w, cs[k], |img|))
    && (forall k, l :: 0 <= k < l < |cs| ==> cs[k] !! cs[l])
    && (forall i: nat {:trigger Lit(img, i)} :: Lit(img, i) ==> exists k :: 0 <= k < |cs| && i in cs[k])
  }

  lemma BlobIsComponent<P>(img: seq<byte>, w: nat, n: nat, h: seq<Stripe>, tag: seq<P>, k: nat)
    requires 0 < w && FrameExact(img, w, n, h) && n * w == |img| && |tag| == |h| && TagsComponents(h, tag) && k < |h|
    ensures IsComponent(img, w, BlobOf(h, w, |img|, tag, tag[k]))
  {
    hide FrameExact, TagsComponents, Joined, Begin, Last;
    var p := tag[k];
    var c := BlobOf(h, w, |img|, tag, p);
    RunOrder(img, w, n, h, k);
    RunInside(img, w, n, h, tag, p, k, Begin(h[k], w));
    forall i: nat, j: nat | i in c
      ensures Lit(img, i) && (j in c <==> Joined(img, w, i, j))
    {
      var l :| 0 <= l < |h| && Holds(h[l], w, i) && tag[l] == p;
      FrameRun(img, w, n, h, l);
      Position(img, w, n, h[l], i);
      if Joined(img, w, i, j) {
        JoinedLit(img, w, i, j);
        var m := Owner(img, w, n, h, j);
        TagsJoin(img, w, n, h, tag, i, j, l, m);
      }
      if j in c {
        var m :| 0 <= m < |h| && Holds(h[m], w, j) && tag[m] == p;
        TagsJoin(img, w, n, h, tag, i, j, l, m);
      }
    }
  }

  lemma JoinedLit(img: seq<byte>, w: nat, i: nat, j: nat)
    requires 0 < w && Joined(img, w, i, j)
    ensures Lit(img, i) && Lit(img, j)
  {
  }

  lemma BlobsDisjoint<P>(img: seq<byte>, w: nat, n: nat, h: seq<Stripe>, tag: seq<P>, p: P, q: P)
    requires FrameExact(img, w, n, h) && |tag| == |h| && p != q
    ensures BlobOf(h, w, |img|, tag, p) !! BlobOf(h, w, |img|, tag, q)
  {
    hide FrameExact, Begin, Last;
    forall i: nat | i in BlobOf(h, w, |img|, tag, p)
      ensures i !in BlobOf(h, w, |img|, tag, q)
    {
      var l :| 0 <= l < |h| && Holds(h[l], w, i) && tag[l] == p;
      RunInside(img, w, n, h, tag, q, l, i);
    }
  }

  /** A list of every tag, each once, with the totals, is the list of the components with their moments. */
  lemma TagsListComponents(img: seq<byte>, w: nat, n: nat, h: seq<Stripe>, tag: seq<Addr>, ps: seq<Addr>,
          value: map<Addr, Moments>)
    requires 0 < w && FrameExact(img, w, n, h) && n * w == |img| && |tag| == |h| && TagsComponents(h, tag)
    requires Distinct(ps) && forall p :: p in ps <==> p in tag
    requires forall p :: p in ps ==> p in value && value[p] == Total(h, tag, p)
    ensures ListsComponents(img, w, ps, value)
  {
    hide FrameExact, TagsComponents, BlobOf, IsComponent, Total, Lit, Holds, SumPixels;
    var cs := seq(|ps|, k requires 0 <= k < |ps| => BlobOf(h, w, |img|, tag, ps[k]));
    forall k | 0 <= k < |cs|
      ensures IsComponent(img, w, cs[k])
      ensures ps[k] in value && value[ps[k]] == SumPixels(img, w, cs[k], |img|)
    {
      assert ps[k] in ps;
      var i :| 0 <= i < |tag| && tag[i] == ps[k];
      BlobIsComponent(img, w, n, h, tag, i);
      BlobTotal(img, w, n, h, tag, ps[k]);
    }
    forall k, l | 0 <= k < l < |cs|
      ensures cs[k] !! cs[l]
    {
      BlobsDisjoint(img, w, n, h, tag, ps[k], ps[l]);
    }
    forall i: nat | Lit(img, i)
      ensures exists k :: 0 <= k < |cs| && i in cs[k]
    {
      var l := Owner(img, w, n, h, i);
      var p := tag[l];
      assert p in tag && p in ps;
      var k :| 0 <= k < |ps| && ps[k] == p;
      RunInside(img, w, n, h, tag, ps[k], l, i);
      assert i in cs[k];
    }
    assert Lists(img, w, ps, value, cs);
  }
}

/** Where the reported blobs lie: always inside the frame. */
module Places {
  import opened Stripes
  import opened Tags
  import opened Crosses
  import opened Image
  import opened Pixels
  import opened Labeller

  /** A finite position within the outermost pixel centres, the middle of the frame being the origin. */
  predicate InFrame(place: Place, w: nat, h: nat) {
    && place.At?
    && -(w as real - 1.0) / 2.0 <= place.x <= (w as real - 1.0) / 2.0
    && -(h as real - 1.0) / 2.0 <= place.y <= (h as real - 1.0) / 2.0
  }

  // ----- moments of lit pixels -----

  /** The centre of mass does not lie beyond column w - 1 and line h - 1, and no pixel weighs less than one. */
  predicate Bounded(m: Moments, w: nat, h: nat) {
    0 <= m.points <= m.sum && Share(m.sum, m.sumX, w) && Share(m.sum, m.sumY, h)
  }

  predicate Share(sum: int, moment: int, size: nat) {
    0 <= moment <= sum * (size - 1)
  }

  lemma ShareMore(sum: int, moment: int, size: nat, v: nat, at: nat)
    requires Share(sum, moment, size) && at < size
    ensures Share(sum + v, moment + v * at, size)
  {
    assert (sum + v) * (size - 1) == sum * (size - 1) + v * (size - 1);
    assert v * at <= v * (size - 1) && 0 <= v * at;
  }

  lemma LessByProduct(a: nat, b: nat, w: nat)
    requires a * w < b * w
    ensures a < b
  {
    if a >= b {
      MulMono(b, a, w);
    }
  }

  lemma PositionInFrame(w: nat, h: nat, i: nat)
    requires 0 < w && i < w * h
    ensures Column(w, i) < w && Line(w, i) < h
  {
    FlatIndex(w, i);
    LessByProduct(Line(w, i), h, w);
  }

  lemma {:induction false} SumBounded(img: seq<byte>, w: nat, h: nat, c: set<nat>, n: nat)
    requires 0 < w && n <= |img| == w * h && forall i :: i in c ==> Lit(img, i)
    ensures Bounded(SumPixels(img, w, c, n), w, h)
    ensures (exists i :: i in c && i < n) ==> SumPixels(img, w, c, n).sum > 0
  {
    hide Column, Line, Share;
    if n == 0 {
      NothingBounded(w, h);
    } else {
      SumBounded(img, w, h, c, n - 1);
      if n - 1 in c {
        var m := SumPixels(img, w, c, n - 1);
        assert Lit(img, n - 1);
        PositionInFrame(w, h, n - 1);
        ShareMore(m.sum, m.sumX, w, img[n - 1], Column(w, n - 1));
        ShareMore(m.sum, m.sumY, h, img[n - 1], Line(w, n - 1));
      }
    }
  }

  lemma NothingBounded(w: nat, h: nat)
    ensures Share(0, 0, w) && Share(0, 0, h)
  {
  }

  // ----- places -----

  lemma Stretched(q: real, r: real, s: real)
    requires r < q && 0.0 < s
    ensures r * s < q * s
  {
  }

  lemma OrderByProduct(q: real, r: real, s: real)
    requires 0.0 < s && q * s <= r * s
    ensures q <= r
  {
    if r < q {
      Stretched(q, r, s);
    }
  }

  lemma ProductAsReal(a: int, b: int, p: int)
    requires p == a * b
    ensures p as real == a as real * b as real
  {
  }

  lemma QuotientTimes(m: real, s: real, q: real)
    requires s > 0.0 && q == m / s
    ensures q * s == m
  {
  }

  lemma QuotientInside(moment: int, sum: int, size: nat, q: real)
    requires sum > 0 && Share(sum, moment, size) && q == moment as real / sum as real
    ensures 0.0 <= q <= size as real - 1.0
  {
    hide Share;
    QuotientTimes(moment as real, sum as real, q);
    ShareAsReal(sum, moment, size);
    OrderByProduct(0.0, q, sum as real);
    OrderByProduct(q, size as real - 1.0, sum as real);
  }

  lemma ShareAsReal(sum: int, moment: int, size: nat)
    requires Share(sum, moment, size)
    ensures 0.0 <= moment as real <= (size as real - 1.0) * sum as real
  {
    var p := sum * (size - 1);
    ProductAsReal(sum, size - 1, p);
    assert (size - 1) as real == size as real - 1.0;
  }

  lemma PlaceInFrame(m: Moments, w: nat, h: nat)
    requires m.sum > 0 && Bounded(m, w, h)
    ensures InFrame(BlobAt(m, w, h).place, w, h)
  {
    hide Share;
    QuotientInside(m.sumX, m.sum, w, m.sumX as real / m.sum as real);
    QuotientInside(m.sumY, m.sum, h, m.sumY as real / m.sum as real);
  }

  /** The blob of a component lies inside the frame, and its score is the number of its pixels. */
  lemma ComponentInFrame(img: seq<byte>, w: nat, h: nat, c: set<nat>)
    requires 0 < w && |img| == w * h && IsComponent(img, w, c)
    ensures var blob := BlobAt(SumPixels(img, w, c, |img|), w, h);
      InFrame(blob.place, w, h) && blob.score == |c|
  {
    hide SumPixels, Bounded, InFrame, Joined;
    ComponentLit(img, w, c);
    SumBounded(img, w, h, c, |img|);
    PlaceInFrame(SumPixels(img, w, c, |img|), w, h);
    PointsCount(img, w, c, |img|);
    assert (set i: nat | i in c && i < |img|) == c;
  }

  lemma ComponentLit(img: seq<byte>, w: nat, c: set<nat>)
    requires 0 < w && IsComponent(img, w, c)
    ensures (forall i :: i in c ==> Lit(img, i)) && exists i :: i in c && i < |img|
  {
    var i :| i in c;
    forall j | j in c
      ensures Lit(img, j)
    {
      var self := Joined(img, w, j, j);
    }
  }

  /** No component is without brightness, so every quotient by it is defined. */
  lemma ComponentsBright(img: seq<byte>, w: nat, h: nat, ps: seq<Addr>, value: map<Addr, Moments>)
    requires 0 < w && |img| == w * h && ListsComponents(img, w, ps, value)
    ensures forall p :: p in ps ==> p in value && value[p].sum > 0 && value[p].sumX >= 0 && value[p].sumY >= 0
  {
    hide SumPixels, IsComponent;
    var cs :| Lists(img, w, ps, value, cs);
    forall p | p in ps
      ensures p in value && value[p].sum > 0 && value[p].sumX >= 0 && value[p].sumY >= 0
    {
      var l :| 0 <= l < |ps| && ps[l] == p;
      ComponentLit(img, w, cs[l]);
      SumBounded(img, w, h, cs[l], |img|);
    }
  }

  /** Every blob reported for a frame has a finite place inside it. */
  lemma ReportedInFrame(img: seq<byte>, w: nat, h: nat, blobs: seq<Blob>, ps: seq<Addr>, value: map<Addr, Moments>,
                        numBlobs: nat, minPts: int, maxPts: int)
    requires 0 < w && |img| == w * h && ListsComponents(img, w, ps, value) && forall p :: p in ps ==> p in value
    requires Reports(blobs, ps, value, numBlobs, minPts, maxPts, w, h)
    ensures forall k :: 0 <= k < |blobs| ==> InFrame(blobs[k].place, w, h) && minPts <= blobs[k].score <= maxPts
  {
    hide InFrame, SumPixels, IsComponent;
    var cs :| Lists(img, w, ps, value, cs);
    var chosen := Chosen(ps, |ps|, value, minPts, maxPts);
    ChosenExact(ps, |ps|, value, minPts, maxPts);
    forall k | 0 <= k < |blobs|
      ensures InFrame(blobs[k].place, w, h) && minPts <= blobs[k].score <= maxPts
    {
      var p: Addr := chosen[k];
      assert p in chosen;
      var l :| 0 <= l < |ps| && ps[l] == p;
      ComponentInFrame(img, w, h, cs[l]);
    }
  }

  // ----- the reported blobs over the pixels -----

  ghost function Brightness(img: seq<byte>, c: set<nat>, n: nat): int
    requires n <= |img|
  {
    if n == 0 then 0 else Brightness(img, c, n - 1) + if n - 1 in c then img[n - 1] else 0
  }

  /** Every pixel of c below n pulls with its brightness and its distance from the middle column, to the left. */
  ghost function PullLeft(img: seq<byte>, w: nat, c: set<nat>, n: nat): real
    requires 0 < w && n <= |img|
  {
    if n == 0 then 0.0
    else
      PullLeft(img, w, c, n - 1)
      + if n - 1 in c then img[n - 1] as real * ((w as real - 1.0) / 2.0 - ((n - 1) % w) as real) else 0.0
  }

  ghost function PullUp(img: seq<byte>, w: nat, h: nat, c: set<nat>, n: nat): real
    requires 0 < w && n <= |img|
  {
    if n == 0 then 0.0
    else
      PullUp(img, w, h, c, n - 1)
      + if n - 1 in c then img[n - 1] as real * ((h as real - 1.0) / 2.0 - ((n - 1) / w) as real) else 0.0
  }

  /** The place balances the pulls of the pixels of c. */
  ghost predicate CentreOfMass(img: seq<byte>, w: nat, h: nat, c: set<nat>, place: Place)
    requires 0 < w
  {
    && place.At?
    && place.x * Brightness(img, c, |img|) as real == PullLeft(img, w, c, |img|)
    && place.y * Brightness(img, c, |img|) as real == PullUp(img, w, h, c, |img|)
  }

  function Pull(half: real, sum: int, moment: int): real {
    half * sum as real - moment as real
  }

  /** What one pixel adds to the pull, and to the moment. */
  function Drag(half: real, v: int, at: int): real {
    v as real * (half - at as real)
  }

  function Weighted(v: int, at: int): int {
    v * at
  }

  lemma PullStep(half: real, sum: int, moment: int, v: int, at: int)
    ensures Pull(half, sum, moment) + Drag(half, v, at) == Pull(half, sum + v, moment + Weighted(v, at))
  {
    ProductAsReal(v, at, v * at);
    assert v as real * (half - at as real) == half * v as real - v as real * at as real;
    assert half * (sum + v) as real == half * sum as real + half * v as real;
  }

  lemma PixelPulls(img: seq<byte>, w: nat, h: nat, c: set<nat>, n: nat)
    requires 0 < w && n < |img|
    ensures var m, m', v := SumPixels(img, w, c, n), SumPixels(img, w, c, n + 1), if n in c then img[n] else 0;
      && m'.sum == m.sum + v && Brightness(img, c, n + 1) == Brightness(img, c, n) + v
      && m'.sumX == m.sumX + Weighted(v, Column(w, n)) && m'.sumY == m.sumY + Weighted(v, Line(w, n))
      && PullLeft(img, w, c, n + 1)
         == PullLeft(img, w, c, n) + Drag((w as real - 1.0) / 2.0, v, Column(w, n))
      && PullUp(img, w, h, c, n + 1)
         == PullUp(img, w, h, c, n) + Drag((h as real - 1.0) / 2.0, v, Line(w, n))
  {
  }

  /** The pulls are what the moments say. */
  lemma {:induction false} PullsByMoments(img: seq<byte>, w: nat, h: nat, c: set<nat>, n: nat)
    requires 0 < w && n <= |img|
    ensures var m := SumPixels(img, w, c, n);
      && m.sum == Brightness(img, c, n)
      && PullLeft(img, w, c, n) == Pull((w as real - 1.0) / 2.0, m.sum, m.sumX)
      && PullUp(img, w, h, c, n) == Pull((h as real - 1.0) / 2.0, m.sum, m.sumY)
  {
    if n == 0 {
      NothingPulls(img, w, h, c);
    } else {
      hide SumPixels, Brightness, PullLeft, PullUp, Pull, Column, Line, Drag, Weighted;
      PullsByMoments(img, w, h, c, n - 1);
      PixelPulls(img, w, h, c, n - 1);
      var m, v := SumPixels(img, w, c, n - 1), if n - 1 in c then img[n - 1] else 0;
      PullStep((w as real - 1.0) / 2.0, m.sum, m.sumX, v, Column(w, n - 1));
      PullStep((h as real - 1.0) / 2.0, m.sum, m.sumY, v, Line(w, n - 1));
    }
  }

  lemma NothingPulls(img: seq<byte>, w: nat, h: nat, c: set<nat>)
    requires 0 < w
    ensures SumPixels(img, w, c, 0) == Moments(0, 0, 0, 0) && Brightness(img, c, 0) == 0
    ensures PullLeft(img, w, c, 0) == 0.0 == Pull((w as real - 1.0) / 2.0, 0, 0)
    ensures PullUp(img, w, h, c, 0) == 0.0 == Pull((h as real - 1.0) / 2.0, 0, 0)
  {
  }

  lemma Balanced(half: real, sum: int, moment: int, x: real)
    requires sum > 0 && x == half - moment as real / sum as real
    ensures x * sum as real == Pull(half, sum, moment)
  {
    var q := moment as real / sum as real;
    QuotientTimes(moment as real, sum as real, q);
    assert x * sum as real == half * sum as real - q * sum as real;
  }

  /** The blob of a component lies at its centre of mass. */
  lemma ComponentBalanced(img: seq<byte>, w: nat, h: nat, c: set<nat>)
    requires 0 < w && |img| == w * h && IsComponent(img, w, c)
    ensures CentreOfMass(img, w, h, c, BlobAt(SumPixels(img, w, c, |img|), w, h).place)
  {
    hide SumPixels, Brightness, PullLeft, PullUp, Bounded;
    var m := SumPixels(img, w, c, |img|);
    ComponentLit(img, w, c);
    SumBounded(img, w, h, c, |img|);
    PullsByMoments(img, w, h, c, |img|);
    var place := BlobAt(m, w, h).place;
    Balanced((w as real - 1.0) / 2.0, m.sum, m.sumX, place.x);
    Balanced((h as real - 1.0) / 2.0, m.sum, m.sumY, place.y);
  }

  /** Components that share a pixel are the same. */
  lemma ComponentsMeet(img: seq<byte>, w: nat, c: set<nat>, d: set<nat>, i: nat)
    requires 0 < w && IsComponent(img, w, c) && IsComponent(img, w, d) && i in c && i in d
    ensures c == d
  {
    hide Joined;
    forall j: nat
      ensures j in c <==> j in d
    {
      assert j in c <==> Joined(img, w, i, j);
    }
  }

  /** Blob k is the centre of mass and the pixel count of component cs[k]; only components within the limits are
      reported, none twice, and none is left out unless there are too many. */
  ghost predicate ReportedAs(img: seq<byte>, w: nat, h: nat, blobs: seq<Blob>, cs: seq<set<nat>>, numBlobs: nat,
                             minPts: int, maxPts: int)
    requires 0 < w
  {
    && |cs| == |blobs| <= numBlobs
    && (forall k :: 0 <= k < |cs| ==> IsComponent(img, w, cs[k]) && minPts <= |cs[k]| <= maxPts)
    && (forall k :: 0 <= k < |cs| ==> CentreOfMass(img, w, h, cs[k], blobs[k].place) && blobs[k].score == |cs[k]|)
    && (forall k, l :: 0 <= k < l < |cs| ==> cs[k] !! cs[l])
    && (|blobs| < numBlobs ==> forall c :: IsComponent(img, w, c) && minPts <= |c| <= maxPts ==> c in cs)
  }

  ghost function IndexOf(ps: seq<Addr>, p: Addr): (l: nat)
    requires p in ps
    ensures l < |ps| && ps[l] == p
  {
    var l: nat :| l < |ps| && ps[l] == p;
    l
  }

  /** The components of the chosen accumulators. */
  ghost function ComponentsOf(ps: seq<Addr>, cs: seq<set<nat>>, chosen: seq<Addr>, n: nat): (r: seq<set<nat>>)
    requires |cs| == |ps| && n <= |chosen| && forall k :: 0 <= k < n ==> chosen[k] in ps
    ensures |r| == n
  {
    seq(n, k requires 0 <= k < n => cs[IndexOf(ps, chosen[k])])
  }

  lemma ChosenApart(ps: seq<Addr>, value: map<Addr, Moments>, minPts: int, maxPts: int, k: nat, l: nat)
    requires Distinct(ps) && forall p :: p in ps ==> p in value
    requires k < l < |Chosen(ps, |ps|, value, minPts, maxPts)|
    ensures var r := Chosen(ps, |ps|, value, minPts, maxPts); r[k] != r[l]
  {
    ChosenInOrder(ps, |ps|, value, minPts, maxPts);
    var r := Chosen(ps, |ps|, value, minPts, maxPts);
    assert Ahead(ps, |ps|, r[k], r[l]);
  }

  lemma ChosenWithin(ps: seq<Addr>, value: map<Addr, Moments>, minPts: int, maxPts: int, k: nat)
    requires forall p :: p in ps ==> p in value
    requires k < |Chosen(ps, |ps|, value, minPts, maxPts)|
    ensures var p := Chosen(ps, |ps|, value, minPts, maxPts)[k]; p in ps && minPts <= value[p].points <= maxPts
  {
    ChosenExact(ps, |ps|, value, minPts, maxPts);
    assert ps[..|ps|] == ps;
    var p: Addr := Chosen(ps, |ps|, value, minPts, maxPts)[k];
    assert p in Chosen(ps, |ps|, value, minPts, maxPts);
  }

  /** What is reported for a frame, said over its pixels. */
  lemma ReportsComponents(img: seq<byte>, w: nat, h: nat, blobs: seq<Blob>, ps: seq<Addr>, value: map<Addr, Moments>,
                          numBlobs: nat, minPts: int, maxPts: int) returns (parts: seq<set<nat>>)
    requires 0 < w && |img| == w * h && Distinct(ps)
    requires ListsComponents(img, w, ps, value) && forall p :: p in ps ==> p in value
    requires Reports(blobs, ps, value, numBlobs, minPts, maxPts, w, h)
    ensures ReportedAs(img, w, h, blobs, parts, numBlobs, minPts, maxPts)
  {
    hide InFrame, SumPixels, IsComponent, CentreOfMass, Distinct, Chosen, BlobAt;
    var cs :| Lists(img, w, ps, value, cs);
    var chosen := Chosen(ps, |ps|, value, minPts, maxPts);
    forall k | 0 <= k < |chosen|
      ensures chosen[k] in ps && minPts <= value[chosen[k]].points <= maxPts
    {
      ChosenWithin(ps, value, minPts, maxPts, k);
    }
    parts := ComponentsOf(ps, cs, chosen, |blobs|);
    forall k | 0 <= k < |parts|
      ensures IsComponent(img, w, parts[k]) && minPts <= |parts[k]| <= maxPts
      ensures CentreOfMass(img, w, h, parts[k], blobs[k].place) && blobs[k].score == |parts[k]|
    {
      var l := IndexOf(ps, chosen[k]);
      ComponentPoints(img, w, h, cs[l]);
      ComponentInFrame(img, w, h, cs[l]);
      ComponentBalanced(img, w, h, cs[l]);
    }
    forall k, l | 0 <= k < l < |parts|
      ensures parts[k] !! parts[l]
    {
      ChosenApart(ps, value, minPts, maxPts, k, l);
    }
    if |blobs| < numBlobs {
      forall c | IsComponent(img, w, c) && minPts <= |c| <= maxPts
        ensures c in parts
      {
        var i := Listed(img, w, h, ps, value, cs, c);
        var k := ChosenAt(ps, value, minPts, maxPts, i);
        OneIndex(ps, IndexOf(ps, chosen[k]), i);
        assert parts[k] == c;
      }
    }
  }

  lemma ComponentPoints(img: seq<byte>, w: nat, h: nat, c: set<nat>)
    requires 0 < w && |img| == w * h && IsComponent(img, w, c)
    ensures SumPixels(img, w, c, |img|).points == |c|
  {
    hide SumPixels;
    ComponentInFrame(img, w, h, c);
  }

  lemma ChosenAt(ps: seq<Addr>, value: map<Addr, Moments>, minPts: int, maxPts: int, i: nat) returns (k: nat)
    requires i < |ps| && forall p :: p in ps ==> p in value
    requires ps[i] in value && minPts <= value[ps[i]].points <= maxPts
    ensures var chosen := Chosen(ps, |ps|, value, minPts, maxPts); k < |chosen| && chosen[k] == ps[i]
  {
    ChosenExact(ps, |ps|, value, minPts, maxPts);
    assert ps[..|ps|] == ps;
    var p: Addr := ps[i];
    assert p in ps;
    var chosen := Chosen(ps, |ps|, value, minPts, maxPts);
    assert p in chosen;
    k :| k < |chosen| && chosen[k] == p;
  }

  lemma OneIndex(ps: seq<Addr>, i: nat, j: nat)
    requires Distinct(ps) && i < |ps| && j < |ps| && ps[i] == ps[j]
    ensures i == j
  {
  }

  /** Every component of the frame belongs to an accumulator of the list. */
  lemma Listed(img: seq<byte>, w: nat, h: nat, ps: seq<Addr>, value: map<Addr, Moments>, cs: seq<set<nat>>, c: set<nat>)
    returns (k: nat)
    requires 0 < w && |img| == w * h && Lists(img, w, ps, value, cs) && IsComponent(img, w, c)
    ensures k < |cs| && cs[k] == c && ps[k] in value && value[ps[k]].points == |c|
  {
    hide SumPixels, Joined;
    ComponentLit(img, w, c);
    var i :| i in c;
    assert Lit(img, i);
    k :| 0 <= k < |cs| && i in cs[k];
    ComponentsMeet(img, w, c, cs[k], i);
    ComponentInFrame(img, w, h, c);
  }

  // ----- crosses -----

  lemma FloorOfQuotient(a: int, b: int, n: int, q: real)
    requires a >= 0 && b > 0 && n == a / b && q == a as real / b as real
    ensures q.Floor == n
  {
    var low, high := n * b, (n + 1) * b;
    assert low <= a < high by {
      assert a == b * n + a % b;
    }
    ProductAsReal(n, b, low);
    ProductAsReal(n + 1, b, high);
    QuotientTimes(a as real, b as real, q);
    Between(n, q, b as real, a as real, low as real, high as real);
  }

  lemma Between(n: int, q: real, b: real, a: real, low: real, high: real)
    requires b > 0.0 && q * b == a && low == n as real * b && high == (n + 1) as real * b && low <= a < high
    ensures n as real <= q < (n + 1) as real && q.Floor == n
  {
    OrderByProduct(n as real, q, b);
    if (n + 1) as real < q {
      Stretched(q, (n + 1) as real, b);
    }
  }

  /** The cross of a reported blob: its centre is the place of the blob, measured from the upper left corner. */
  ghost predicate CrossOver(c: Cross, k: nat, blob: Blob, expected: nat, w: nat, h: nat) {
    && blob.place.At? && c.size == (if k < expected then w / 50 else w / 100)
    && c.x == ((w as real - 1.0) / 2.0 - blob.place.x).Floor
    && c.y == ((h as real - 1.0) / 2.0 - blob.place.y).Floor
  }

  lemma CrossOverPlace(m: Moments, k: nat, expected: nat, w: nat, h: nat, c: Cross)
    requires m.sum > 0 && m.sumX >= 0 && m.sumY >= 0 && CrossAt(m, k, expected, w, c)
    ensures CrossOver(c, k, BlobAt(m, w, h), expected, w, h)
  {
    FloorOfQuotient(m.sumX, m.sum, m.sumX / m.sum, m.sumX as real / m.sum as real);
    FloorOfQuotient(m.sumY, m.sum, m.sumY / m.sum, m.sumY as real / m.sum as real);
  }

  lemma CrossesOver(crosses: seq<Cross>, blobs: seq<Blob>, ps: seq<Addr>, value: map<Addr, Moments>, numBlobs: nat,
                    expected: nat, minPts: int, maxPts: int, w: nat, h: nat)
    requires forall p :: p in ps ==> p in value && value[p].sum > 0 && value[p].sumX >= 0 && value[p].sumY >= 0
    requires Reports(blobs, ps, value, numBlobs, minPts, maxPts, w, h)
    requires Marks(crosses, |blobs|, ps, value, expected, minPts, maxPts, w)
    ensures |crosses| == |blobs| && forall k :: 0 <= k < |blobs| ==> CrossOver(crosses[k], k, blobs[k], expected, w, h)
  {
    hide CrossOver, CrossAt, BlobAt;
    var chosen := Chosen(ps, |ps|, value, minPts, maxPts);
    ChosenExact(ps, |ps|, value, minPts, maxPts);
    forall k | 0 <= k < |blobs|
      ensures CrossOver(crosses[k], k, blobs[k], expected, w, h)
    {
      var p: Addr := chosen[k];
      assert p in chosen && p in ps;
      CrossOverPlace(value[p], k, expected, w, h, crosses[k]);
    }
  }
}

/** Horizontal runs of lit pixels, the links between them, and connectedness.

    A history is the sequence of stripes accepted since the last flush, in
    arrival order.  Two stripes are linked when they lie on consecutive lines,
    their columns touch (diagonals included), and nothing arrived between them
    except stripes of those two lines, in line order.
 */
module Stripes {

  datatype Stripe = Stripe(
    vline: nat,
    hstart: nat,
    hstop: nat,
    sumX: nat,
    sum: nat,
    points: nat
  )

  /** The four running totals kept for a blob; columns of a stripe are relative to hstart. */
  datatype Moments = Moments(sum: int, sumX: int, sumY: int, points: int) {
    function Plus(that: Moments): Moments {
      Moments(sum + that.sum, sumX + that.sumX, sumY + that.sumY, points + that.points)
    }
  }

  function MomentsOf(s: Stripe): Moments {
    Moments(s.sum, s.sum * s.hstart + s.sumX, s.sum * s.vline, s.points)
  }

  // ----- connectedness -----

  predicate ColumnsTouch(s: Stripe, t: Stripe) {
    s.hstart <= t.hstop + 1 && t.hstart <= s.hstop + 1
  }

  ghost predicate LinesAscend(h: seq<Stripe>, i: nat, j: nat)
    requires i <= j < |h|
  {
    forall k, l :: i <= k <= l <= j ==> h[k].vline <= h[l].vline
  }

  ghost predicate Linked(h: seq<Stripe>, i: nat, j: nat)
    requires i < j < |h|
  {
    && h[j].vline == h[i].vline + 1
    && ColumnsTouch(h[i], h[j])
    && LinesAscend(h, i, j)
  }

  /** No link of h leaves the set, in either direction. */
  ghost predicate Closed(h: seq<Stripe>, s: set<nat>) {
    forall i: nat, j: nat {:trigger Linked(h, i, j)} :: i < j < |h| && Linked(h, i, j) ==> (i in s <==> j in s)
  }

  /** No closed set tells the two stripes apart. */
  ghost predicate Connected(h: seq<Stripe>, i: nat, j: nat) {
    forall s {:trigger Closed(h, s)} :: Closed(h, s) ==> (i in s <==> j in s)
  }

  /** Two stripes carry the same tag exactly when they are connected. */
  ghost predicate TagsComponents<P>(h: seq<Stripe>, tag: seq<P>)
    requires |tag| == |h|
  {
    forall i: nat, j: nat {:trigger Connected(h, i, j)} ::
      i < |h| && j < |h| ==> (tag[i] == tag[j] <==> Connected(h, i, j))
  }

  ghost predicate RespectsLinks<P>(h: seq<Stripe>, tag: seq<P>)
    requires |tag| == |h|
  {
    forall i: nat, j: nat {:trigger Linked(h, i, j)} :: i < j < |h| && Linked(h, i, j) ==> tag[i] == tag[j]
  }

  lemma LinkedConnected(h: seq<Stripe>, i: nat, j: nat)
    requires i < j < |h| && Linked(h, i, j)
    ensures Connected(h, i, j)
  {
  }

  lemma TagsRespectLinks<P>(h: seq<Stripe>, tag: seq<P>)
    requires |tag| == |h| && TagsComponents(h, tag)
    ensures RespectsLinks(h, tag)
  {
    forall i: nat, j: nat | i < j < |h| && Linked(h, i, j)
      ensures tag[i] == tag[j]
    {
      LinkedConnected(h, i, j);
    }
  }

  /** Labels that respect every link separate whatever they distinguish. */
  lemma ConnectedSameTag<P>(h: seq<Stripe>, tag: seq<P>, i: nat, j: nat)
    requires |tag| == |h| && RespectsLinks(h, tag)
    requires i < |h| && j < |h| && Connected(h, i, j)
    ensures tag[i] == tag[j]
  {
    var s := set k: nat | k < |h| && tag[k] == tag[i];
    assert Closed(h, s);
  }

  // ----- a newcomer -----

  lemma LinkedPrefix(h: seq<Stripe>, s: Stripe, i: nat, j: nat)
    requires i < j < |h|
    ensures Linked(h + [s], i, j) <==> Linked(h, i, j)
  {
    var g := h + [s];
    assert forall k :: i <= k <= j ==> g[k] == h[k];
    if LinesAscend(g, i, j) {
      forall k, l | i <= k <= l <= j
        ensures h[k].vline <= h[l].vline
      {
        assert g[k].vline <= g[l].vline;
      }
    }
  }

  lemma ClosedPrefix(h: seq<Stripe>, s: Stripe, t: set<nat>)
    requires Closed(h + [s], t)
    ensures Closed(h, t)
  {
    forall i: nat, j: nat | i < j < |h| && Linked(h, i, j)
      ensures i in t <==> j in t
    {
      LinkedPrefix(h, s, i, j);
    }
  }

  /** The stripes of h that the newcomer s links to. */
  ghost predicate AreNeighbours(h: seq<Stripe>, s: Stripe, touched: set<nat>) {
    && (forall i :: i in touched ==> i < |h|)
    && forall i: nat {:trigger Linked(h + [s], i, |h|)} :: i < |h| ==> (i in touched <==> Linked(h + [s], i, |h|))
  }

  ghost predicate SharesTag<P>(tag: seq<P>, touched: set<nat>, i: nat)
    requires i < |tag|
  {
    exists t :: t in touched && t < |tag| && tag[t] == tag[i]
  }

  /** Welding: the tags of the touched stripes are replaced by one tag, which the newcomer gets too. */
  ghost predicate Welds<P>(tag: seq<P>, touched: set<nat>, p: P, tag': seq<P>) {
    && |tag'| == |tag| + 1 && tag'[|tag|] == p
    && (forall i: nat {:trigger tag'[i]} :: i < |tag| ==>
          if SharesTag(tag, touched, i) then tag'[i] == p else tag'[i] == tag[i] != p)
  }

  lemma WeldRespectsLinks<P>(h: seq<Stripe>, s: Stripe, tag: seq<P>, touched: set<nat>, p: P, tag': seq<P>)
    requires |tag| == |h| && TagsComponents(h, tag)
    requires AreNeighbours(h, s, touched) && Welds(tag, touched, p, tag')
    ensures RespectsLinks(h + [s], tag')
  {
    var g, n := h + [s], |h|;
    TagsRespectLinks(h, tag);
    forall i: nat, j: nat | i < j < |g| && Linked(g, i, j)
      ensures tag'[i] == tag'[j]
    {
      if j < n {
        LinkedPrefix(h, s, i, j);
        assert tag[i] == tag[j];
      } else {
        assert i in touched;
        assert SharesTag(tag, touched, i);
      }
    }
  }

  lemma WeldedAreConnected<P>(h: seq<Stripe>, s: Stripe, tag: seq<P>, touched: set<nat>, p: P, tag': seq<P>,
                              i: nat, j: nat)
    requires |tag| == |h| && TagsComponents(h, tag)
    requires AreNeighbours(h, s, touched) && Welds(tag, touched, p, tag')
    requires i <= |h| && j <= |h| && tag'[i] == tag'[j]
    ensures Connected(h + [s], i, j)
  {
    var g, n := h + [s], |h|;
    forall t | Closed(g, t)
      ensures i in t <==> j in t
    {
      ClosedPrefix(h, s, t);
      if tag'[i] == p {
        WeldedToNewcomer(h, s, tag, touched, p, tag', i, t);
        WeldedToNewcomer(h, s, tag, touched, p, tag', j, t);
      } else {
        assert Connected(h, i, j);
      }
    }
  }

  lemma WeldedToNewcomer<P>(h: seq<Stripe>, s: Stripe, tag: seq<P>, touched: set<nat>, p: P, tag': seq<P>,
                            i: nat, t: set<nat>)
    requires |tag| == |h| && TagsComponents(h, tag)
    requires AreNeighbours(h, s, touched) && Welds(tag, touched, p, tag')
    requires i <= |h| && tag'[i] == p && Closed(h + [s], t)
    ensures i in t <==> |h| in t
  {
    if i < |h| {
      assert SharesTag(tag, touched, i);
      var k :| k in touched && tag[k] == tag[i];
      ClosedPrefix(h, s, t);
      assert Connected(h, k, i);
      assert Linked(h + [s], k, |h|);
    }
  }

  /** The heart of the labeller: welding keeps "same tag if and only if connected". */
  lemma WeldTagsComponents<P>(h: seq<Stripe>, s: Stripe, tag: seq<P>, touched: set<nat>, p: P, tag': seq<P>)
    requires |tag| == |h| && TagsComponents(h, tag)
    requires AreNeighbours(h, s, touched) && Welds(tag, touched, p, tag')
    ensures TagsComponents(h + [s], tag')
  {
    WeldRespectsLinks(h, s, tag, touched, p, tag');
    forall i: nat, j: nat | i <= |h| && j <= |h|
      ensures tag'[i] == tag'[j] <==> Connected(h + [s], i, j)
    {
      if tag'[i] == tag'[j] {
        WeldedAreConnected(h, s, tag, touched, p, tag', i, j);
      }
      if Connected(h + [s], i, j) {
        ConnectedSameTag(h + [s], tag', i, j);
      }
    }
  }

  // ----- totals -----

  /** The sum of those of the first n weights that carry tag p. */
  ghost function SumTo<P>(ws: seq<int>, tag: seq<P>, n: nat, p: P): int
    requires n <= |ws| && n <= |tag|
  {
    if n == 0 then 0
    else SumTo(ws, tag, n - 1, p) + if tag[n - 1] == p then ws[n - 1] else 0
  }

  ghost function Sums(h: seq<Stripe>): seq<int> {
    seq(|h|, i requires 0 <= i < |h| => MomentsOf(h[i]).sum)
  }

  ghost function SumXs(h: seq<Stripe>): seq<int> {
    seq(|h|, i requires 0 <= i < |h| => MomentsOf(h[i]).sumX)
  }

  ghost function SumYs(h: seq<Stripe>): seq<int> {
    seq(|h|, i requires 0 <= i < |h| => MomentsOf(h[i]).sumY)
  }

  ghost function Points(h: seq<Stripe>): seq<int> {
    seq(|h|, i requires 0 <= i < |h| => MomentsOf(h[i]).points)
  }

  /** What an accumulator labelled p has to hold. */
  ghost function Total<P>(h: seq<Stripe>, tag: seq<P>, p: P): Moments
    requires |tag| == |h|
  {
    Moments(SumTo(Sums(h), tag, |h|, p), SumTo(SumXs(h), tag, |h|, p),
            SumTo(SumYs(h), tag, |h|, p), SumTo(Points(h), tag, |h|, p))
  }

  ghost function Rename<P>(tag: seq<P>, from: P, to: P): (r: seq<P>)
    ensures |r| == |tag|
    ensures forall i {:trigger r[i]} :: 0 <= i < |tag| ==> r[i] == if tag[i] == from then to else tag[i]
  {
    seq(|tag|, i requires 0 <= i < |tag| => if tag[i] == from then to else tag[i])
  }

  lemma {:induction false} SumRename<P>(ws: seq<int>, tag: seq<P>, n: nat, from: P, to: P, p: P)
    requires n <= |ws| && n <= |tag| && from != to && p != from
    ensures SumTo(ws, Rename(tag, from, to), n, p)
         == SumTo(ws, tag, n, p) + if p == to then SumTo(ws, tag, n, from) else 0
  {
    if n != 0 {
      SumRename(ws, tag, n - 1, from, to, p);
    }
  }

  lemma TotalRename<P>(h: seq<Stripe>, tag: seq<P>, from: P, to: P, p: P)
    requires |tag| == |h| && from != to && p != from
    ensures Total(h, Rename(tag, from, to), p)
         == if p == to then Total(h, tag, p).Plus(Total(h, tag, from)) else Total(h, tag, p)
  {
    SumRename(Sums(h), tag, |h|, from, to, p);
    SumRename(SumXs(h), tag, |h|, from, to, p);
    SumRename(SumYs(h), tag, |h|, from, to, p);
    SumRename(Points(h), tag, |h|, from, to, p);
  }

  lemma {:induction false} SumPrefix<P>(ws: seq<int>, vs: seq<int>, tag: seq<P>, tags: seq<P>, n: nat, p: P)
    requires n <= |ws| && n <= |tag| && ws <= vs && tag <= tags
    ensures SumTo(vs, tags, n, p) == SumTo(ws, tag, n, p)
  {
    if n != 0 {
      SumPrefix(ws, vs, tag, tags, n - 1, p);
    }
  }

  lemma SumAppend<P>(ws: seq<int>, w: int, tag: seq<P>, q: P, p: P)
    requires |ws| == |tag|
    ensures SumTo(ws + [w], tag + [q], |ws| + 1, p)
         == SumTo(ws, tag, |ws|, p) + if p == q then w else 0
  {
    SumPrefix(ws, ws + [w], tag, tag + [q], |ws|, p);
  }

  lemma TotalAppend<P>(h: seq<Stripe>, s: Stripe, tag: seq<P>, q: P, p: P)
    requires |tag| == |h|
    ensures Total(h + [s], tag + [q], p)
         == if p == q then Total(h, tag, p).Plus(MomentsOf(s)) else Total(h, tag, p)
  {
    var m := MomentsOf(s);
    assert Sums(h + [s]) == Sums(h) + [m.sum];
    assert SumXs(h + [s]) == SumXs(h) + [m.sumX];
    assert SumYs(h + [s]) == SumYs(h) + [m.sumY];
    assert Points(h + [s]) == Points(h) + [m.points];
    SumAppend(Sums(h), m.sum, tag, q, p);
    SumAppend(SumXs(h), m.sumX, tag, q, p);
    SumAppend(SumYs(h), m.sumY, tag, q, p);
    SumAppend(Points(h), m.points, tag, q, p);
  }

  lemma {:induction false} SumAbsent<P>(ws: seq<int>, tag: seq<P>, n: nat, p: P)
    requires n <= |ws| && n <= |tag| && p !in tag[..n]
    ensures SumTo(ws, tag, n, p) == 0
  {
    if n != 0 {
      assert tag[..n][..n - 1] == tag[..n - 1] && tag[..n][n - 1] == tag[n - 1];
      SumAbsent(ws, tag, n - 1, p);
    }
  }

  lemma TotalAbsent<P>(h: seq<Stripe>, tag: seq<P>, p: P)
    requires |tag| == |h| && p !in tag
    ensures Total(h, tag, p) == Moments(0, 0, 0, 0)
  {
    assert tag[..|h|] == tag;
    SumAbsent(Sums(h), tag, |h|, p);
    SumAbsent(SumXs(h), tag, |h|, p);
    SumAbsent(SumYs(h), tag, |h|, p);
    SumAbsent(Points(h), tag, |h|, p);
  }
}

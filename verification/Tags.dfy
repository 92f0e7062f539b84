/** Bookkeeping on tags: the tag of a stripe is the address of the accumulator it went to. */
module Tags {
  import opened Stripes

  /** Where malloc put an accumulator. */
  type Addr = int

  ghost predicate Distinct(ps: seq<Addr>) {
    forall i, j :: 0 <= i < j < |ps| ==> ps[i] != ps[j]
  }

  ghost function TagsIn(tag: seq<Addr>, lo: nat, hi: nat): set<Addr>
    requires lo <= hi <= |tag|
  {
    set i | lo <= i < hi :: tag[i]
  }

  ghost function TagsFrom(tag: seq<Addr>, lo: nat): set<Addr>
    requires lo <= |tag|
  {
    TagsIn(tag, lo, |tag|)
  }

  /** Lines of the stripes: from mid on the current line v, from lo to mid all of line v - 1. */
  ghost predicate Lines(h: seq<Stripe>, v: int, lo: nat, mid: nat)
    requires lo <= mid <= |h|
  {
    && (forall i :: lo <= i < mid ==> h[i].vline == v - 1)
    && (forall i :: mid <= i < |h| ==> h[i].vline == v)
    && (0 < lo ==> h[lo - 1].vline != v - 1)
    && (0 < mid ==> h[mid - 1].vline != v)
  }

  /** Finished accumulators are listed once; the others are still in use by a range. */
  ghost predicate Placed(tag: seq<Addr>, lo: nat, done: seq<Addr>, listed: set<Addr>)
    requires lo <= |tag|
  {
    && Distinct(done) && Elements(done) == listed
    && listed !! TagsFrom(tag, lo)
    && listed <= Elements(tag) <= listed + TagsFrom(tag, lo)
  }

  ghost function Elements(ps: seq<Addr>): set<Addr> {
    set p | p in ps
  }

  /** The first n addresses without those in skip, each once, in order of first appearance. */
  ghost function FirstSeen(ps: seq<Addr>, n: nat, skip: set<Addr>): seq<Addr>
    requires n <= |ps|
  {
    if n == 0 then []
    else
      var front := FirstSeen(ps, n - 1, skip);
      if ps[n - 1] in skip + TagsIn(ps, 0, n - 1) then front else front + [ps[n - 1]]
  }

  lemma TagsInStep(ps: seq<Addr>, n: nat)
    requires n < |ps|
    ensures TagsIn(ps, 0, n + 1) == TagsIn(ps, 0, n) + {ps[n]}
  {
  }

  lemma FirstSeenStep(ps: seq<Addr>, n: nat, skip: set<Addr>)
    requires n < |ps|
    ensures FirstSeen(ps, n + 1, skip)
         == if ps[n] in skip + TagsIn(ps, 0, n) then FirstSeen(ps, n, skip) else FirstSeen(ps, n, skip) + [ps[n]]
  {
  }

  lemma {:induction false} FirstSeenExact(ps: seq<Addr>, n: nat, skip: set<Addr>)
    requires n <= |ps|
    ensures Distinct(FirstSeen(ps, n, skip))
    ensures Elements(FirstSeen(ps, n, skip)) == TagsIn(ps, 0, n) - skip
  {
    if n != 0 {
      FirstSeenExact(ps, n - 1, skip);
      var front, p := FirstSeen(ps, n - 1, skip), ps[n - 1];
      TagsInStep(ps, n - 1);
      assert p in Elements(front) <==> p in front;
      assert Elements(front + [p]) == Elements(front) + {p};
    }
  }

  lemma TagsOfSlice(tag: seq<Addr>, lo: nat, hi: nat)
    requires lo <= hi <= |tag|
    ensures TagsIn(tag[lo..hi], 0, hi - lo) == TagsIn(tag, lo, hi)
  {
    var ps := tag[lo..hi];
    forall i | lo <= i < hi
      ensures tag[i] in TagsIn(ps, 0, hi - lo)
    {
      assert ps[i - lo] == tag[i];
    }
  }

  lemma ListMore(done: seq<Addr>, news: seq<Addr>)
    requires Distinct(done) && Distinct(news) && Elements(done) !! Elements(news)
    ensures Distinct(done + news) && Elements(done + news) == Elements(done) + Elements(news)
  {
    assert forall i :: 0 <= i < |done| ==> done[i] in Elements(done);
    assert forall i :: 0 <= i < |news| ==> news[i] in Elements(news);
  }

  /** Blobs of the previous line that this line did not continue. */
  ghost function Finished(tag: seq<Addr>, lo: nat, mid: nat): seq<Addr>
    requires lo <= mid <= |tag|
  {
    FirstSeen(tag[lo..mid], mid - lo, TagsFrom(tag, mid))
  }

  /** The blobs of the previous line that this line did not continue are finished. */
  lemma NextLinePlaces(tag: seq<Addr>, lo: nat, mid: nat, done: seq<Addr>, listed: set<Addr>)
    requires lo <= mid <= |tag| && Placed(tag, lo, done, listed)
    ensures
      var done' := done + Finished(tag, lo, mid);
      Placed(tag, mid, done', listed + (TagsIn(tag, lo, mid) - TagsFrom(tag, mid)))
  {
    FirstSeenExact(tag[lo..mid], mid - lo, TagsFrom(tag, mid));
    TagsOfSlice(tag, lo, mid);
    assert TagsFrom(tag, lo) == TagsIn(tag, lo, mid) + TagsFrom(tag, mid);
    ListMore(done, Finished(tag, lo, mid));
  }

  /** When lines were skipped, the blobs of the current line are finished as well. */
  lemma FlushPlaces(tag: seq<Addr>, lo: nat, mid: nat, done: seq<Addr>, listed: set<Addr>)
    requires lo <= mid <= |tag| && Placed(tag, lo, done, listed)
    ensures
      var done' := done + Finished(tag, lo, mid) + Finished(tag, mid, |tag|);
      Placed(tag, |tag|, done', listed + TagsFrom(tag, lo))
  {
    NextLinePlaces(tag, lo, mid, done, listed);
    assert TagsFrom(tag, |tag|) == {};
    NextLinePlaces(tag, mid, |tag|, done + Finished(tag, lo, mid),
      listed + (TagsIn(tag, lo, mid) - TagsFrom(tag, mid)));
    assert TagsFrom(tag, lo) == TagsIn(tag, lo, mid) + TagsFrom(tag, mid);
  }

  lemma RenameTagsIn(tag: seq<Addr>, lo: nat, root: Addr, dead: Addr)
    requires lo <= |tag| && dead in TagsFrom(tag, lo)
    ensures TagsFrom(Rename(tag, dead, root), lo) == TagsFrom(tag, lo) - {dead} + {root}
  {
    var tag' := Rename(tag, dead, root);
    forall p | p in TagsFrom(tag, lo) - {dead} + {root}
      ensures p in TagsFrom(tag', lo)
    {
      var q := if p == root && p !in TagsFrom(tag, lo) then dead else p;
      var i :| lo <= i < |tag| && tag[i] == q;
      assert tag'[i] in TagsFrom(tag', lo);
    }
  }

  lemma ElementsAreTags(tag: seq<Addr>)
    ensures Elements(tag) == TagsFrom(tag, 0)
  {
  }

  /** Absorbing dead into root, both in use, leaves everything placed. */
  lemma RenamePlaces(tag: seq<Addr>, lo: nat, done: seq<Addr>, listed: set<Addr>, root: Addr, dead: Addr)
    requires lo <= |tag| && Placed(tag, lo, done, listed)
    requires root in TagsFrom(tag, lo) && dead in TagsFrom(tag, lo)
    ensures Placed(Rename(tag, dead, root), lo, done, listed)
    ensures Elements(Rename(tag, dead, root)) == Elements(tag) - {dead} + {root}
  {
    RenameTagsIn(tag, lo, root, dead);
    RenameTagsIn(tag, 0, root, dead);
    ElementsAreTags(tag);
    ElementsAreTags(Rename(tag, dead, root));
  }

  lemma AppendPlaces(tag: seq<Addr>, lo: nat, done: seq<Addr>, listed: set<Addr>, p: Addr)
    requires lo <= |tag| && Placed(tag, lo, done, listed) && p !in listed
    ensures Placed(tag + [p], lo, done, listed)
    ensures Elements(tag + [p]) == Elements(tag) + {p}
  {
    assert (tag + [p])[|tag|] == p && forall i :: lo <= i < |tag| ==> (tag + [p])[i] == tag[i];
    assert TagsFrom(tag + [p], lo) == TagsFrom(tag, lo) + {p};
  }

  // ----- range tests find exactly the links of the newcomer -----

  ghost function Touched(h: seq<Stripe>, s: Stripe, lo: nat, n: nat): set<nat>
    requires lo <= n <= |h|
  {
    set i: nat | lo <= i < n && ColumnsTouch(h[i], s)
  }

  lemma TouchedStep(h: seq<Stripe>, s: Stripe, lo: nat, n: nat)
    requires lo <= n < |h|
    ensures Touched(h, s, lo, n + 1) == Touched(h, s, lo, n) + if ColumnsTouch(h[n], s) then {n} else {}
  {
  }

  lemma AscendBetween(g: seq<Stripe>, i: nat, k: nat, n: nat)
    requires i <= n < |g| && k <= n && LinesAscend(g, i, n)
    ensures i < k ==> g[i].vline <= g[k - 1].vline <= g[k].vline <= g[n].vline
  {
  }

  lemma TouchedAreNeighbours(h: seq<Stripe>, s: Stripe, lo: nat, mid: nat)
    requires lo <= mid <= |h| && Lines(h, s.vline, lo, mid)
    ensures AreNeighbours(h, s, Touched(h, s, lo, mid))
  {
    var g, n := h + [s], |h|;
    forall i: nat | i < n
      ensures i in Touched(h, s, lo, mid) <==> Linked(g, i, n)
    {
      if Linked(g, i, n) {
        AscendBetween(g, i, lo, n);
        assert lo <= i;
        assert i < mid;
      }
      if i in Touched(h, s, lo, mid) {
        assert forall k :: i <= k < mid ==> g[k] == h[k];
        assert forall k :: mid <= k < n ==> g[k] == h[k];
      }
    }
  }

  /** What the tags look like after the touched ranges met so far were joined under root. */
  ghost predicate Gathers(tag: seq<Addr>, touched: set<nat>, root: Addr, tag': seq<Addr>) {
    && |tag'| == |tag|
    && (forall i :: i in touched ==> i < |tag|)
    && (forall i: nat {:trigger tag'[i]} :: i < |tag| ==> (tag'[i] == root <==> SharesTag(tag, touched, i)))
    && (forall i: nat {:trigger tag'[i]} :: i < |tag| && tag'[i] != root ==> tag'[i] == tag[i])
  }

  lemma GatherFirst(tag: seq<Addr>, i: nat)
    requires i < |tag|
    ensures Gathers(tag, {i}, tag[i], tag)
  {
    forall j: nat | j < |tag|
      ensures tag[j] == tag[i] <==> SharesTag(tag, {i}, j)
    {
      assert i in {i};
    }
  }

  lemma ShareMore(tag: seq<Addr>, touched: set<nat>, i: nat, j: nat)
    requires i < |tag| && j < |tag|
    ensures SharesTag(tag, touched + {i}, j) <==> (SharesTag(tag, touched, j) || tag[i] == tag[j])
  {
    if SharesTag(tag, touched, j) {
      var t :| t in touched && t < |tag| && tag[t] == tag[j];
      assert t in touched + {i};
    }
    assert i in touched + {i};
  }

  /** A further touched range: its accumulator is absorbed into root unless it is root already. */
  lemma GatherMore(tag: seq<Addr>, touched: set<nat>, root: Addr, tag': seq<Addr>, i: nat)
    requires Gathers(tag, touched, root, tag') && i < |tag|
    ensures Gathers(tag, touched + {i}, root, Rename(tag', tag'[i], root))
  {
    forall j: nat | j < |tag|
      ensures Rename(tag', tag'[i], root)[j] == root <==> SharesTag(tag, touched + {i}, j)
    {
      ShareMore(tag, touched, i, j);
    }
  }

  lemma RenameSame(tag: seq<Addr>, p: Addr)
    ensures Rename(tag, p, p) == tag
  {
  }

  lemma GatheredWelds(tag: seq<Addr>, touched: set<nat>, root: Addr, tag': seq<Addr>)
    requires Gathers(tag, touched, root, tag')
    ensures Welds(tag, touched, root, tag' + [root])
  {
    forall i: nat | i < |tag|
      ensures if SharesTag(tag, touched, i) then (tag' + [root])[i] == root else (tag' + [root])[i] == tag[i] != root
    {
      assert (tag' + [root])[i] == tag'[i];
    }
  }

  lemma UntouchedWelds(tag: seq<Addr>, p: Addr)
    requires p !in tag
    ensures Welds(tag, {}, p, tag + [p])
  {
    forall i: nat | i < |tag|
      ensures !SharesTag(tag, {}, i) && (tag + [p])[i] == tag[i] != p
    {
      assert tag[i] in tag;
    }
  }
}

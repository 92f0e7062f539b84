/** The labeller of src/image_process.c itself: static arrays, heap and list, updated in place. */
module Labeller {
  import opened Stripes
  import opened Tags
  import opened LabelSteps
  import opened LabelProofs
  import opened Image
  import opened Crosses

  /** The checks at the head of ltr_int_add_stripe; the last column and line are off by one there. */
  predicate Accepts(w: nat, h: nat, s: Stripe) {
    s.vline <= h && s.hstart <= w && s.hstop <= w && s.hstart <= s.hstop
  }

  /** An allocator that never hands out an address in use; it may reuse freed ones. */
  method Malloc(taken: set<Addr>) returns (p: Addr)
    ensures p !in taken
  {
    p := 0;
    while p in taken
      decreases |set q | q in taken && p <= q|
    {
      assert (set q | q in taken && p + 1 <= q) == (set q | q in taken && p <= q) - {p};
      p := p + 1;
    }
  }

  /** Where a blob is: its centre of mass against the middle of the frame, axes pointing left and up. */
  datatype Place = At(x: real, y: real) | NotFinite

  datatype Blob = Blob(place: Place, score: int)

  function BlobAt(m: Moments, w: nat, h: nat): Blob {
    var place :=
      if m.sum == 0 then NotFinite
      else At((w as real - 1.0) / 2.0 - m.sumX as real / m.sum as real,
              (h as real - 1.0) / 2.0 - m.sumY as real / m.sum as real);
    Blob(place, m.points)
  }

  /** Those of the first n accumulators whose pixel count is within the limits, in list order. */
  ghost function Chosen(ps: seq<Addr>, n: nat, value: map<Addr, Moments>, minPts: int, maxPts: int): (r: seq<Addr>)
    requires n <= |ps| && forall p :: p in ps ==> p in value
    ensures |r| <= n && forall p :: p in r ==> p in value
  {
    if n == 0 then []
    else
      var front := Chosen(ps, n - 1, value, minPts, maxPts);
      if minPts <= value[ps[n - 1]].points <= maxPts then front + [ps[n - 1]] else front
  }

  lemma {:induction false} ChosenExact(ps: seq<Addr>, n: nat, value: map<Addr, Moments>, minPts: int, maxPts: int)
    requires n <= |ps| && forall p :: p in ps ==> p in value
    ensures forall p ::
      p in Chosen(ps, n, value, minPts, maxPts) <==> p in ps[..n] && minPts <= value[p].points <= maxPts
  {
    if n != 0 {
      ChosenExact(ps, n - 1, value, minPts, maxPts);
      assert ps[..n] == ps[..n - 1] + [ps[n - 1]];
    }
  }

  /** Among the first n accumulators p comes before q. */
  ghost predicate Ahead(ps: seq<Addr>, n: nat, p: Addr, q: Addr)
    requires n <= |ps|
  {
    exists a, b :: 0 <= a < b < n && ps[a] == p && ps[b] == q
  }

  /** r keeps the order of the first n accumulators. */
  ghost predicate InOrder(ps: seq<Addr>, n: nat, r: seq<Addr>)
    requires n <= |ps|
  {
    forall i, j :: 0 <= i < j < |r| ==> Ahead(ps, n, r[i], r[j])
  }

  lemma InOrderMore(ps: seq<Addr>, n: nat, r: seq<Addr>)
    requires n < |ps| && InOrder(ps, n, r) && forall p :: p in r ==> p in ps[..n]
    ensures InOrder(ps, n + 1, r) && InOrder(ps, n + 1, r + [ps[n]])
  {
    var more := r + [ps[n]];
    forall i, j | 0 <= i < j < |more|
      ensures Ahead(ps, n + 1, more[i], more[j])
    {
      var p: Addr := r[i];
      if j < |r| {
        assert Ahead(ps, n, p, r[j]);
      } else {
        assert p in r;
        var a :| 0 <= a < n && ps[..n][a] == p;
        assert ps[a] == p;
      }
    }
    assert forall i :: 0 <= i < |r| ==> more[i] == r[i];
  }

  lemma {:induction false} ChosenInOrder(ps: seq<Addr>, n: nat, value: map<Addr, Moments>, minPts: int, maxPts: int)
    requires n <= |ps| && forall p :: p in ps ==> p in value
    ensures InOrder(ps, n, Chosen(ps, n, value, minPts, maxPts))
  {
    if n != 0 {
      ChosenInOrder(ps, n - 1, value, minPts, maxPts);
      ChosenExact(ps, n - 1, value, minPts, maxPts);
      hide InOrder;
      InOrderMore(ps, n - 1, Chosen(ps, n - 1, value, minPts, maxPts));
    }
  }

  /** The blobs reported for a list of accumulators: the first numBlobs of those within the limits. */
  ghost predicate Reports(blobs: seq<Blob>, ps: seq<Addr>, value: map<Addr, Moments>, numBlobs: nat, minPts: int,
          maxPts: int, w: nat, h: nat)
    requires forall p :: p in ps ==> p in value
  {
    var chosen := Chosen(ps, |ps|, value, minPts, maxPts);
    && |blobs| == (if |chosen| <= numBlobs then |chosen| else numBlobs)
    && forall k :: 0 <= k < |blobs| ==> blobs[k] == BlobAt(value[chosen[k]], w, h)
  }

  /** The crosses for a list of accumulators: one for each blob reported. */
  ghost predicate Marks(crosses: seq<Cross>, n: nat, ps: seq<Addr>, value: map<Addr, Moments>, expected: nat,
          minPts: int, maxPts: int, w: nat)
    requires forall p :: p in ps ==> p in value
  {
    var chosen := Chosen(ps, |ps|, value, minPts, maxPts);
    && |crosses| == n <= |chosen|
    && forall k :: 0 <= k < n ==> CrossAt(value[chosen[k]], k, expected, w, crosses[k])
  }

  class Labeller {
    var current: array<Range>
    var curLimit: nat
    var next: array<Range>
    var nextLimit: nat
    var heap: map<Addr, Preblob>
    var preblobs: seq<Addr>
    var currentVline: int

    ghost var hist: seq<Stripe>  // stripes accepted since the last flush
    ghost var tag: seq<Addr>  // the accumulator each of them is in

    /** ltr_int_prepare_for_processing for frames of width w */
    constructor (w: nat)
      ensures Valid() && hist == [] && currentVline == -2 && nextLimit == 0
      ensures next.Length == w / 2 + 1
    {
      current := new Range[w / 2 + 1](i => Range(0, 0, 0));
      next := new Range[w / 2 + 1](i => Range(0, 0, 0));
      curLimit, nextLimit := 0, 0;
      heap, preblobs := map[], [];
      currentVline := -2;
      hist, tag := [], [];
      new;
      EmptyInv(-2);
    }

    ghost predicate Bounded()
      reads `current, `curLimit, `next, `nextLimit
    {
      current != next && 1 <= current.Length == next.Length && curLimit <= current.Length && nextLimit <= next.Length
    }

    ghost function State(): Lab
      requires Bounded()
      reads `current, `curLimit, `next, `nextLimit, `heap, `preblobs, current, next
    {
      Lab(current[..curLimit], next[..nextLimit], heap, preblobs)
    }

    ghost predicate Valid()
      reads this, current, next
    {
      Bounded() && Live(State()) && Inv(State(), hist, tag, currentVline)
    }

    /** There is a free slot for the stripe in the array it goes to. */
    predicate Room(s: Stripe)
      reads `currentVline, `next, `nextLimit
    {
      currentVline == s.vline ==> nextLimit < next.Length
    }

    method ListOnce(pb: Addr)
      requires pb in heap
      modifies `heap, `preblobs
      ensures heap == if old(heap)[pb].added then old(heap) else old(heap)[pb := old(heap)[pb].(added := true)]
      ensures preblobs == if old(heap)[pb].added then old(preblobs) else old(preblobs) + [pb]
    {
      if !heap[pb].added {
        heap := heap[pb := heap[pb].(added := true)];
        preblobs := preblobs + [pb];
      }
    }

    /** The first loop of store_preblobs. */
    method StoreUnmatched()
      requires Bounded() && Live(State())
      modifies `heap, `preblobs
      ensures State() == LabelSteps.StoreUnmatched(old(State()), curLimit)
    {
      ghost var st := State();
      for i := 0 to curLimit
        invariant State() == LabelSteps.StoreUnmatched(st, i)
      {
        assert st.current[i] == current[i];
        if !heap[current[i].pb].matched {
          ListOnce(current[i].pb);
        }
      }
    }

    /** The second loop of store_preblobs. */
    method ReleaseNext(all: bool)
      requires Bounded() && Live(State())
      modifies `heap, `preblobs
      ensures State() == LabelSteps.ReleaseNext(old(State()), nextLimit, all)
    {
      ghost var st := State();
      for i := 0 to nextLimit
        invariant State() == LabelSteps.ReleaseNext(st, i, all)
      {
        assert st.next[i] == next[i];
        heap := heap[next[i].pb := heap[next[i].pb].(matched := false)];
        if all {
          ListOnce(next[i].pb);
        }
      }
    }

    method StorePreblobs(all: bool)
      requires Bounded() && Live(State())
      modifies `heap, `preblobs
      ensures State() == LabelSteps.StorePreblobs(old(State()), all)
    {
      StoreUnmatched();
      ReleaseNext(all);
    }

    /** The block of ltr_int_add_stripe that prepares the arrays for line v. */
    method Advance(v: nat)
      requires Bounded() && Live(State())
      modifies `heap, `preblobs, `current, `curLimit, `next, `nextLimit, `currentVline
      ensures Bounded() && {current, next} == {old(current), old(next)} && currentVline == v
      ensures State() == LabelSteps.Advance(old(State()), old(currentVline), v)
      ensures nextLimit == if old(currentVline) == v then old(nextLimit) else 0
    {
      if currentVline != v {
        if currentVline + 1 != v {
          StorePreblobs(true);
          curLimit := 0;
          nextLimit := 0;
        } else {
          StorePreblobs(false);
          current, next := next, current;
          curLimit := nextLimit;
          nextLimit := 0;
        }
        currentVline := v;
      }
    }

    method Relabel(rs: array<Range>, limit: nat, dead: Addr, root: Addr)
      requires limit <= rs.Length
      modifies rs
      ensures rs[..limit] == Relabelled(old(rs[..limit]), dead, root)
    {
      for j := 0 to limit
        invariant forall k :: 0 <= k < limit ==>
          rs[k] == if k < j then Relabelled(old(rs[..limit]), dead, root)[k] else old(rs[..limit])[k]
      {
        if rs[j].pb == dead {
          rs[j] := rs[j].(pb := root);
        }
      }
    }

    /** Merge, relabel every slot, free the loser. */
    method Absorb(root: Addr, dead: Addr)
      requires Bounded() && Live(State()) && root in heap && dead in heap && root != dead
      modifies `heap, current, next
      ensures State() == LabelSteps.Absorb(old(State()), root, dead)
    {
      heap := heap[root := heap[root].(value := heap[root].value.Plus(heap[dead].value))];
      Relabel(current, curLimit, dead, root);
      Relabel(next, nextLimit, dead, root);
      heap := heap - {dead};
    }

    /** The loop of ltr_int_add_stripe over the ranges of the previous line. */
    method MatchRanges(stripe: Stripe) returns (r: int)
      requires Bounded() && Live(State())
      modifies `heap, current, next
      ensures (State(), r) == LabelSteps.MatchRanges(old(State()), stripe, curLimit)
    {
      ghost var st := State();
      r := -1;
      for i := 0 to curLimit
        invariant (State(), r) == LabelSteps.MatchRanges(st, stripe, i)
        invariant Live(State())
      {
        assert State().current[i] == current[i];
        if StripeInRange(stripe, current[i]) {
          var pb := current[i].pb;
          heap := heap[pb := heap[pb].(matched := true)];
          if r < 0 {
            r := i;
          } else {
            assert State().current[r] == current[r];
            if current[r].pb != pb {
              Absorb(current[r].pb, pb);
            }
          }
        }
      }
    }

    /** ltr_int_add_stripe */
    method AddStripe(stripe: Stripe, img: Image) returns (ok: bool)
      requires Valid() && img.Valid() && (Accepts(img.w, img.h, stripe) ==> Room(stripe))
      modifies this, current, next, img.Pixels()
      ensures ok == Accepts(img.w, img.h, stripe)
      ensures ok == (stripe.vline <= img.h && stripe.hstart <= stripe.hstop <= img.w)
      ensures Valid() && {current, next} == {old(current), old(next)}
      ensures !ok ==> State() == old(State()) && currentVline == old(currentVline) && nextLimit == old(nextLimit)
      ensures hist == if ok then old(hist) + [stripe] else old(hist)
      ensures ok ==> currentVline == stripe.vline
      ensures ok ==> nextLimit == (if old(currentVline) == stripe.vline then old(nextLimit) else 0) + 1
      ensures ok ==> exists spare ::
        spare !in old(heap) && State() == LabelSteps.AddStripe(old(State()), old(currentVline), stripe, spare)
      ensures img.bitmap != null && !ok ==> img.bitmap[..] == old(img.bitmap[..])
      ensures img.bitmap != null && ok ==>
        var x0, y0, x1 :=
          Clip(stripe.hstart, 0, img.w - 1), Clip(stripe.vline, 0, img.h - 1), Clip(stripe.hstop, 0, img.w - 1);
        forall i :: 0 <= i < img.bitmap.Length ==>
          img.bitmap[i] == if y0 * img.w + x0 <= i <= y0 * img.w + x1 then 0x80 else old(img.bitmap[i])
    {
      ok := Accepts(img.w, img.h, stripe);
      if !ok {
        return;
      }
      if img.bitmap != null {
        DrawStripe(img, stripe.hstart, stripe.vline, stripe.hstop, 0x80);
      }
      EnterStripe(stripe);
    }

    /** The new range, in the accumulator of the first range touched or in a new one. */
    method Enter(stripe: Stripe, pb: Addr)
      requires Bounded() && Live(State()) && nextLimit < next.Length
      modifies `heap, `nextLimit, next
      ensures Bounded() && State() == LabelSteps.Enter(old(State()), stripe, pb) && nextLimit == old(nextLimit) + 1
    {
      ghost var slots := next[..nextLimit];
      if pb !in heap {
        heap := heap[pb := Preblob(MomentsOf(stripe), false, true)];
      } else {
        heap := heap[pb := heap[pb].(value := heap[pb].value.Plus(MomentsOf(stripe)))];
      }
      next[nextLimit] := Range(stripe.hstart, stripe.hstop, pb);
      nextLimit := nextLimit + 1;
      assert next[..nextLimit] == slots + [Range(stripe.hstart, stripe.hstop, pb)];
    }

    /** The labelling part of ltr_int_add_stripe; malloc would deliver the address spare. */
    method RunSteps(stripe: Stripe, spare: Addr)
      requires Bounded() && Live(State()) && Room(stripe)
      modifies `heap, `preblobs, `current, `curLimit, `next, `nextLimit, `currentVline, current, next
      ensures Bounded() && {current, next} == {old(current), old(next)} && currentVline == stripe.vline
      ensures nextLimit == (if old(currentVline) == stripe.vline then old(nextLimit) else 0) + 1
      ensures State() == LabelSteps.AddStripe(old(State()), old(currentVline), stripe, spare)
    {
      hide LabelSteps.Advance, LabelSteps.MatchRanges, LabelSteps.Enter;
      Advance(stripe.vline);
      var r := MatchRanges(stripe);
      if r < 0 {
        Enter(stripe, spare);
      } else {
        assert State().current[r] == current[r];
        Enter(stripe, current[r].pb);
      }
    }

    method EnterStripe(stripe: Stripe)
      requires Valid() && Room(stripe)
      modifies this, current, next
      ensures Valid() && {current, next} == {old(current), old(next)}
      ensures hist == old(hist) + [stripe] && currentVline == stripe.vline
      ensures nextLimit == (if old(currentVline) == stripe.vline then old(nextLimit) else 0) + 1
      ensures exists spare ::
        spare !in old(heap) && State() == LabelSteps.AddStripe(old(State()), old(currentVline), stripe, spare)
    {
      hide Inv, LabelSteps.AddStripe, AddTags, Live;
      ghost var st, line := State(), currentVline;
      var spare := Malloc(heap.Keys);
      AddStripeKeeps(st, hist, tag, line, stripe, spare);
      ghost var tag' := AddTags(st, tag, line, stripe, spare);
      RunSteps(stripe, spare);
      hist, tag := hist + [stripe], tag';
      assert State() == LabelSteps.AddStripe(st, line, stripe, spare);
    }

    /** ltr_int_free_list on the list of finished blobs, with the payloads. */
    method FreeList()
      requires Distinct(preblobs) && Elements(preblobs) == heap.Keys
      modifies `heap, `preblobs
      ensures heap == map[] && preblobs == []
    {
      ghost var left := preblobs;
      while preblobs != []
        invariant Distinct(preblobs) && Elements(preblobs) == heap.Keys
        decreases |preblobs|
      {
        assert preblobs[0] in Elements(preblobs) && preblobs[0] in heap;
        assert Elements(preblobs[1..]) == Elements(preblobs) - {preblobs[0]};
        heap := heap - {preblobs[0]};
        preblobs := preblobs[1..];
      }
    }

    /** The loop of ltr_int_stripes_to_blobs over the list, with the crosses it draws over a bitmap. */
    method Collect(numBlobs: nat, expected: nat, minPts: int, maxPts: int, img: Image, ghost value: map<Addr, Moments>)
      returns (blobs: seq<Blob>, ghost crosses: seq<Cross>)
      requires img.Valid() && forall p :: p in preblobs ==> p in heap && p in value && heap[p].value == value[p]
      modifies img.Pixels()
      ensures Reports(blobs, preblobs, value, numBlobs, minPts, maxPts, img.w, img.h)
      ensures img.bitmap != null ==>
        && Marks(crosses, |blobs|, preblobs, value, expected, minPts, maxPts, img.w)
        && forall i :: 0 <= i < img.bitmap.Length ==>
             img.bitmap[i] == if Marked(img.w, img.h, crosses, i) then 0xFF else old(img.bitmap[i])
    {
      hide BlobAt, OnCross, Marked, CrossAt;
      blobs, crosses := [], [];
      var counter := 0;
      if img.bitmap != null {
        NothingMarked(img.w, img.h);
      }
      for i := 0 to |preblobs|
        invariant counter == |Chosen(preblobs, i, value, minPts, maxPts)|
        invariant |blobs| == (if counter <= numBlobs then counter else numBlobs)
        invariant forall k :: 0 <= k < |blobs| ==>
          blobs[k] == BlobAt(value[Chosen(preblobs, i, value, minPts, maxPts)[k]], img.w, img.h)
        invariant img.bitmap != null ==>
          && |crosses| == |blobs|
          && (forall k :: 0 <= k < |blobs| ==>
                CrossAt(value[Chosen(preblobs, i, value, minPts, maxPts)[k]], k, expected, img.w, crosses[k]))
          && forall k :: 0 <= k < img.bitmap.Length ==>
               img.bitmap[k] == if Marked(img.w, img.h, crosses, k) then 0xFF else old(img.bitmap[k])
      {
        var p := preblobs[i];
        assert p in preblobs;
        var pb := heap[p];
        if pb.value.points < minPts || pb.value.points > maxPts {
          continue;
        }
        if counter < numBlobs {
          blobs := blobs + [BlobAt(pb.value, img.w, img.h)];
          if img.bitmap != null {
            ghost var c := MarkBlob(img, pb.value, counter, expected);
            forall k: nat | k < img.bitmap.Length
              ensures Marked(img.w, img.h, crosses + [c], k)
                  <==> Marked(img.w, img.h, crosses, k) || OnCross(img.w, img.h, c, k)
            {
              MarkedMore(img.w, img.h, crosses, c, k);
            }
            crosses := crosses + [c];
          }
        }
        counter := counter + 1;
      }
    }

    /** ltr_int_stripes_to_blobs: done lists the finished accumulators, value their contents, before they are freed. */
    method StripesToBlobs(numBlobs: nat, expected: nat, minPts: int, maxPts: int, img: Image)
      returns (blobs: seq<Blob>, ghost done: seq<Addr>, ghost value: map<Addr, Moments>, ghost crosses: seq<Cross>)
      requires Valid() && img.Valid()
      modifies this, img.Pixels()
      ensures Valid() && hist == [] && currentVline == -2 && heap == map[] && preblobs == []
      ensures current == old(current) && next == old(next)
      ensures Distinct(done) && Elements(done) == Elements(old(tag)) == value.Keys
      ensures |old(tag)| == |old(hist)| && TagsComponents(old(hist), old(tag))
      ensures forall p :: p in value ==> value[p] == Total(old(hist), old(tag), p)
      ensures forall p :: p in done ==> p in value
      ensures Reports(blobs, done, value, numBlobs, minPts, maxPts, img.w, img.h)
      ensures img.bitmap != null ==>
        && Marks(crosses, |blobs|, done, value, expected, minPts, maxPts, img.w)
        && forall i :: 0 <= i < img.bitmap.Length ==>
             img.bitmap[i] == if Marked(img.w, img.h, crosses, i) then 0xFF else old(img.bitmap[i])
    {
      hide Marked, Marks, Inv, Live, Distinct, Elements, Total, Reports, TagsComponents, LabelSteps.StorePreblobs;
      FlushLists(State(), hist, tag, currentVline);
      InvTags(State(), hist, tag, currentVline);
      StorePreblobs(true);
      curLimit, nextLimit, currentVline := 0, 0, -2;
      done, value := preblobs, map p | p in heap :: heap[p].value;
      ListedInUse(preblobs, heap);
      blobs, crosses := Collect(numBlobs, expected, minPts, maxPts, img, value);
      Empty();
    }

    /** After the last accumulator is freed the labeller is as at the start. */
    method Empty()
      requires Bounded() && curLimit == nextLimit == 0 && currentVline == -2
      requires Distinct(preblobs) && Elements(preblobs) == heap.Keys
      modifies `heap, `preblobs, `hist, `tag
      ensures Valid() && hist == [] && heap == map[] && preblobs == []
    {
      hide Inv, Distinct, Elements;
      FreeList();
      hist, tag := [], [];
      EmptyInv(-2);
      assert State() == Lab([], [], map[], []);
    }
  }

  lemma NothingMarked(w: nat, h: nat)
    requires 1 <= w && 1 <= h
    ensures forall i: nat :: !Marked(w, h, [], i)
  {
  }

  lemma InvTags(st: Lab, h: seq<Stripe>, tag: seq<Addr>, line: int)
    requires Inv(st, h, tag, line)
    ensures |tag| == |h| && TagsComponents(h, tag)
  {
  }

  lemma ListedInUse(ps: seq<Addr>, heap: map<Addr, Preblob>)
    requires Elements(ps) == heap.Keys
    ensures forall p :: p in ps ==> p in heap
  {
    assert forall p :: p in ps ==> p in Elements(ps);
  }
}

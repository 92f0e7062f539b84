/** The steps of the one-pass blob labeller of src/image_process.c, as functions on its state.

    Two range arrays hold the stripes of the previous and of the current line;
    every range points at a heap accumulator shared by all ranges of one blob.
    When a stripe touches ranges of several accumulators these are merged, the
    losers are relabelled away and freed.  An accumulator that a whole line
    leaves unmatched is finished and moves to the list.
 */
module LabelSteps {
  import opened Stripes
  import opened Tags

  datatype Preblob = Preblob(value: Moments, added: bool, matched: bool)

  datatype Range = Range(x1: nat, x2: nat, pb: Addr)

  /** The slots in use of both arrays, the heap and the list of finished blobs. */
  datatype Lab = Lab(current: seq<Range>, next: seq<Range>, heap: map<Addr, Preblob>, preblobs: seq<Addr>)

  /** No slot points at freed memory. */
  predicate Live(st: Lab) {
    && (forall k :: 0 <= k < |st.current| ==> st.current[k].pb in st.heap)
    && (forall k :: 0 <= k < |st.next| ==> st.next[k].pb in st.heap)
  }

  predicate StripeInRange(s: Stripe, r: Range) {
    s.hstart - 1 <= r.x2 && s.hstop + 1 >= r.x1
  }

  // ----- store_preblobs -----

  function ListOnce(st: Lab, pb: Addr): Lab
    requires pb in st.heap
  {
    if st.heap[pb].added then st
    else st.(heap := st.heap[pb := st.heap[pb].(added := true)], preblobs := st.preblobs + [pb])
  }

  /** The loop over the first n ranges of the previous line. */
  function StoreUnmatched(st: Lab, n: nat): (r: Lab)
    requires Live(st) && n <= |st.current|
    ensures r.current == st.current && r.next == st.next && r.heap.Keys == st.heap.Keys
  {
    if n == 0 then st
    else
      var t, pb := StoreUnmatched(st, n - 1), st.current[n - 1].pb;
      if t.heap[pb].matched then t else ListOnce(t, pb)
  }

  function Release(st: Lab, pb: Addr, all: bool): Lab
    requires pb in st.heap
  {
    var t := st.(heap := st.heap[pb := st.heap[pb].(matched := false)]);
    if all then ListOnce(t, pb) else t
  }

  /** The loop over the first n ranges of the current line. */
  function ReleaseNext(st: Lab, n: nat, all: bool): (r: Lab)
    requires Live(st) && n <= |st.next|
    ensures r.current == st.current && r.next == st.next && r.heap.Keys == st.heap.Keys
  {
    if n == 0 then st
    else Release(ReleaseNext(st, n - 1, all), st.next[n - 1].pb, all)
  }

  function StorePreblobs(st: Lab, all: bool): (r: Lab)
    requires Live(st)
    ensures r.current == st.current && r.next == st.next && r.heap.Keys == st.heap.Keys
  {
    ReleaseNext(StoreUnmatched(st, |st.current|), |st.next|, all)
  }

  /** The arrays are prepared for a stripe of line v; line was the line before. */
  function Advance(st: Lab, line: int, v: int): (r: Lab)
    requires Live(st)
    ensures Live(r)
  {
    if line == v then st
    else if line + 1 != v then StorePreblobs(st, true).(current := [], next := [])
    else StorePreblobs(st, false).(current := st.next, next := [])
  }

  // ----- ltr_int_add_stripe -----

  function Relabelled(rs: seq<Range>, dead: Addr, root: Addr): (r: seq<Range>)
    ensures |r| == |rs|
    ensures forall k {:trigger r[k]} :: 0 <= k < |rs| ==> r[k] == if rs[k].pb == dead then rs[k].(pb := root) else rs[k]
  {
    seq(|rs|, k requires 0 <= k < |rs| => if rs[k].pb == dead then rs[k].(pb := root) else rs[k])
  }

  /** Merge dead into root, relabel every slot, free dead. */
  function Absorb(st: Lab, root: Addr, dead: Addr): (r: Lab)
    requires Live(st) && root in st.heap && dead in st.heap && root != dead
    ensures Live(r)
    ensures |r.current| == |st.current| && |r.next| == |st.next|
  {
    var sum := st.heap[root].value.Plus(st.heap[dead].value);
    st.(current := Relabelled(st.current, dead, root), next := Relabelled(st.next, dead, root),
        heap := st.heap[root := st.heap[root].(value := sum)] - {dead})
  }

  /** Range i of the previous line against the stripe; r is the first range touched so far, or -1. */
  function TestRange(st: Lab, s: Stripe, i: nat, r: int): (t: (Lab, int))
    requires Live(st) && r < i < |st.current|
    ensures Live(t.0) && t.1 <= i
    ensures |t.0.current| == |st.current| && |t.0.next| == |st.next|
  {
    if !StripeInRange(s, st.current[i]) then (st, r)
    else
      var pb := st.current[i].pb;
      var st' := st.(heap := st.heap[pb := st.heap[pb].(matched := true)]);
      if r < 0 then (st', i)
      else if st.current[r].pb != pb then (Absorb(st', st.current[r].pb, pb), r)
      else (st', r)
  }

  /** The loop over the first n ranges of the previous line. */
  function MatchRanges(st: Lab, s: Stripe, n: nat): (t: (Lab, int))
    requires Live(st) && n <= |st.current|
    ensures Live(t.0) && t.1 < n
    ensures |t.0.current| == |st.current| && |t.0.next| == |st.next|
  {
    if n == 0 then (st, -1)
    else
      var (t, r) := MatchRanges(st, s, n - 1);
      TestRange(t, s, n - 1, r)
  }

  /** The stripe enters accumulator p: that of range r, or a new one if no range was touched. */
  function Enter(st: Lab, s: Stripe, p: Addr): (t: Lab)
    requires Live(st)
    ensures Live(t)
  {
    var pb := if p in st.heap then st.heap[p].(value := st.heap[p].value.Plus(MomentsOf(s)))
              else Preblob(MomentsOf(s), false, true);
    st.(heap := st.heap[p := pb], next := st.next + [Range(s.hstart, s.hstop, p)])
  }

  /** One accepted stripe; malloc delivers the address spare if it is asked. */
  function AddStripe(st: Lab, line: int, s: Stripe, spare: Addr): (t: Lab)
    requires Live(st)
    ensures Live(t)
  {
    var st0 := Advance(st, line, s.vline);
    var (st1, r) := MatchRanges(st0, s, |st0.current|);
    Enter(st1, s, if r < 0 then spare else st1.current[r].pb)
  }
}

/** What the labeller keeps: its state against the history of accepted stripes. */
module LabelProofs {
  import opened Stripes
  import opened Tags
  import opened LabelSteps

  /** The slots rs describe the stripes from lo on. */
  ghost predicate Mirrors(h: seq<Stripe>, tag: seq<Addr>, lo: nat, rs: seq<Range>) {
    && |tag| == |h| && lo + |rs| <= |h|
    && forall k :: 0 <= k < |rs| ==> rs[k] == Range(h[lo + k].hstart, h[lo + k].hstop, tag[lo + k])
  }

  ghost predicate Arrays(st: Lab, h: seq<Stripe>, tag: seq<Addr>) {
    && |st.current| + |st.next| <= |h|
    && Mirrors(h, tag, |h| - |st.next| - |st.current|, st.current)
    && Mirrors(h, tag, |h| - |st.next|, st.next)
  }

  /** Live memory is exactly what the stripes went to, and holds their totals: nothing dangles, nothing leaks. */
  ghost predicate Memory(st: Lab, h: seq<Stripe>, tag: seq<Addr>) {
    && |tag| == |h| && st.heap.Keys == Elements(tag)
    && forall p :: p in st.heap ==> st.heap[p].value == Total(h, tag, p)
  }

  /** Flags: added marks the listed accumulators; of those in use, matched marks the given set. */
  ghost predicate Flags(st: Lab, matched: set<Addr>) {
    forall p :: p in st.heap ==>
      && (st.heap[p].added <==> p in Elements(st.preblobs))
      && (p !in Elements(st.preblobs) ==> (st.heap[p].matched <==> p in matched))
  }

  /** Everything but the flags. */
  ghost predicate Consistent(st: Lab, h: seq<Stripe>, tag: seq<Addr>, v: int) {
    && Arrays(st, h, tag) && Memory(st, h, tag)
    && Lines(h, v, |h| - |st.next| - |st.current|, |h| - |st.next|)
    && Placed(tag, |h| - |st.next| - |st.current|, st.preblobs, Elements(st.preblobs))
  }

  /** The arrays are set up for line v; its first stripe may still be missing. */
  ghost predicate Ready(st: Lab, h: seq<Stripe>, tag: seq<Addr>, v: int) {
    Consistent(st, h, tag, v) && Flags(st, TagsFrom(tag, |h| - |st.next|))
  }

  ghost predicate Inv(st: Lab, h: seq<Stripe>, tag: seq<Addr>, v: int) {
    && Ready(st, h, tag, v) && TagsComponents(h, tag)
    && (h != [] ==> st.next != [])
  }

  lemma SlotTag(st: Lab, h: seq<Stripe>, tag: seq<Addr>, v: int, i: nat)
    requires Consistent(st, h, tag, v) && |h| - |st.next| - |st.current| <= i < |h|
    ensures tag[i] in st.heap && tag[i] !in Elements(st.preblobs)
        && tag[i] in TagsFrom(tag, |h| - |st.next| - |st.current|)
  {
    assert tag[i] in Elements(tag) && tag[i] in TagsFrom(tag, |h| - |st.next| - |st.current|);
  }

  lemma Sizes(st: Lab, h: seq<Stripe>, tag: seq<Addr>, v: int)
    requires Consistent(st, h, tag, v)
    ensures |st.next| + |st.current| <= |h| == |tag|
  {
  }

  lemma ConsistentIsLive(st: Lab, h: seq<Stripe>, tag: seq<Addr>, v: int)
    requires Consistent(st, h, tag, v)
    ensures Live(st)
  {
    forall i | |h| - |st.next| - |st.current| <= i < |h|
      ensures tag[i] in st.heap
    {
      SlotTag(st, h, tag, v, i);
    }
  }

  // ----- store_preblobs -----

  ghost function Pbs(rs: seq<Range>): (r: seq<Addr>) {
    seq(|rs|, k requires 0 <= k < |rs| => rs[k].pb)
  }

  ghost predicate SameValues(st: Lab, st': Lab) {
    st.heap.Keys == st'.heap.Keys && forall p :: p in st.heap ==> st'.heap[p].value == st.heap[p].value
  }

  lemma ElementsAppend(ps: seq<Addr>, p: Addr)
    ensures Elements(ps + [p]) == Elements(ps) + {p}
  {
  }

  lemma ListOnceEffect(st: Lab, pb: Addr, skip: set<Addr>)
    requires pb in st.heap && Flags(st, skip)
    ensures
      var r := ListOnce(st, pb);
      && r.preblobs == (if pb in Elements(st.preblobs) then st.preblobs else st.preblobs + [pb])
      && Elements(r.preblobs) == Elements(st.preblobs) + {pb}
      && Flags(r, skip) && SameValues(st, r)
  {
    ElementsAppend(st.preblobs, pb);
    hide Elements;
    assert pb in Elements(st.preblobs) ==> Elements(st.preblobs) + {pb} == Elements(st.preblobs);
  }

  lemma StoreStep(t: Lab, pb: Addr, skip: set<Addr>, before: set<Addr>, seen: set<Addr>)
    requires pb in t.heap && Flags(t, skip) && Elements(t.preblobs) == before + (seen - skip) && pb !in before
    ensures
      var r := if t.heap[pb].matched then t else ListOnce(t, pb);
      && r.preblobs == (if pb in skip + seen then t.preblobs else t.preblobs + [pb])
      && Elements(r.preblobs) == before + (seen + {pb} - skip)
      && Flags(r, skip) && SameValues(t, r)
  {
    ListOnceEffect(t, pb, skip);
    hide Elements, ListOnce;
    if pb !in skip {
      assert before + (seen - skip) + {pb} == before + (seen + {pb} - skip);
    } else {
      assert seen + {pb} - skip == seen - skip;
    }
  }

  /** What the loop over the first n ranges of the previous line does; ps are their accumulators. */
  ghost predicate Stored(st: Lab, r: Lab, ps: seq<Addr>, n: nat, skip: set<Addr>)
    requires n <= |ps|
  {
    && r.preblobs == st.preblobs + FirstSeen(ps, n, skip)
    && Elements(r.preblobs) == Elements(st.preblobs) + (TagsIn(ps, 0, n) - skip)
    && Flags(r, skip) && SameValues(st, r)
  }

  lemma StoredNothing(st: Lab, ps: seq<Addr>, skip: set<Addr>)
    requires Flags(st, skip)
    ensures Stored(st, st, ps, 0, skip)
  {
    assert TagsIn(ps, 0, 0) == {};
  }

  lemma StoredStep(st: Lab, t: Lab, ps: seq<Addr>, n: nat, skip: set<Addr>)
    requires n < |ps| && Stored(st, t, ps, n, skip) && ps[n] in t.heap && ps[n] !in Elements(st.preblobs)
    ensures Stored(st, if t.heap[ps[n]].matched then t else ListOnce(t, ps[n]), ps, n + 1, skip)
  {
    var front := FirstSeen(ps, n, skip);
    TagsInStep(ps, n);
    FirstSeenStep(ps, n, skip);
    hide TagsIn, Elements, Flags, ListOnce, FirstSeen;
    StoreStep(t, ps[n], skip, Elements(st.preblobs), TagsIn(ps, 0, n));
    assert st.preblobs + (front + [ps[n]]) == st.preblobs + front + [ps[n]];
  }

  lemma {:induction false} StoreUnmatchedEffect(st: Lab, n: nat, skip: set<Addr>)
    requires Live(st) && n <= |st.current| && Flags(st, skip)
    requires forall k :: 0 <= k < |st.current| ==> st.current[k].pb !in Elements(st.preblobs)
    ensures Stored(st, StoreUnmatched(st, n), Pbs(st.current), n, skip)
  {
    hide Stored, Elements, ListOnce, Flags;
    StoredNothing(st, Pbs(st.current), skip);
    if n != 0 {
      StoreUnmatchedEffect(st, n - 1, skip);
      StoredStep(st, StoreUnmatched(st, n - 1), Pbs(st.current), n - 1, skip);
    }
  }

  lemma ReleaseEffect(st: Lab, pb: Addr, all: bool, skip: set<Addr>)
    requires pb in st.heap && Flags(st, skip)
    ensures
      var r := Release(st, pb, all);
      && r.preblobs == (if all && pb !in Elements(st.preblobs) then st.preblobs + [pb] else st.preblobs)
      && Elements(r.preblobs) == (if all then Elements(st.preblobs) + {pb} else Elements(st.preblobs))
      && Flags(r, skip - {pb}) && SameValues(st, r)
  {
    ElementsAppend(st.preblobs, pb);
  }

  /** What the loop over the first n ranges of the current line does; ps are their accumulators. */
  ghost predicate Released(st: Lab, r: Lab, ps: seq<Addr>, n: nat, all: bool, skip: set<Addr>)
    requires n <= |ps|
  {
    && r.preblobs == (if all then st.preblobs + FirstSeen(ps, n, {}) else st.preblobs)
    && Elements(r.preblobs) == (if all then Elements(st.preblobs) + TagsIn(ps, 0, n) else Elements(st.preblobs))
    && Flags(r, skip - TagsIn(ps, 0, n)) && SameValues(st, r)
  }

  lemma ReleaseStep(t: Lab, pb: Addr, all: bool, skip: set<Addr>, before: set<Addr>, seen: set<Addr>)
    requires pb in t.heap && Flags(t, skip - seen) && pb !in before
    requires Elements(t.preblobs) == if all then before + seen else before
    ensures
      var r := Release(t, pb, all);
      && r.preblobs == (if all && pb !in seen then t.preblobs + [pb] else t.preblobs)
      && Elements(r.preblobs) == (if all then before + (seen + {pb}) else before)
      && Flags(r, skip - (seen + {pb})) && SameValues(t, r)
  {
    ReleaseEffect(t, pb, all, skip - seen);
    assert before + seen + {pb} == before + (seen + {pb});
    assert skip - seen - {pb} == skip - (seen + {pb});
    hide Elements, Release, Flags, SameValues;
  }

  lemma ReleasedNothing(st: Lab, ps: seq<Addr>, all: bool, skip: set<Addr>)
    requires Flags(st, skip)
    ensures Released(st, st, ps, 0, all, skip)
  {
    assert TagsIn(ps, 0, 0) == {} && skip - {} == skip;
  }

  lemma ReleasedStep(st: Lab, t: Lab, ps: seq<Addr>, n: nat, all: bool, skip: set<Addr>)
    requires n < |ps| && Released(st, t, ps, n, all, skip) && ps[n] in t.heap && ps[n] !in Elements(st.preblobs)
    ensures Released(st, Release(t, ps[n], all), ps, n + 1, all, skip)
  {
    var front, seen := FirstSeen(ps, n, {}), TagsIn(ps, 0, n);
    TagsInStep(ps, n);
    FirstSeenStep(ps, n, {});
    hide TagsIn, Elements, Flags, Release, FirstSeen;
    ReleaseStep(t, ps[n], all, skip, Elements(st.preblobs), seen);
    assert {} + seen == seen && st.preblobs + (front + [ps[n]]) == st.preblobs + front + [ps[n]];
  }

  lemma {:induction false} ReleaseNextEffect(st: Lab, n: nat, all: bool, skip: set<Addr>)
    requires Live(st) && n <= |st.next| && Flags(st, skip)
    requires forall k :: 0 <= k < |st.next| ==> st.next[k].pb !in Elements(st.preblobs)
    ensures Released(st, ReleaseNext(st, n, all), Pbs(st.next), n, all, skip)
  {
    hide Released, Elements, Release, Flags;
    ReleasedNothing(st, Pbs(st.next), all, skip);
    if n != 0 {
      ReleaseNextEffect(st, n - 1, all, skip);
      ReleasedStep(st, ReleaseNext(st, n - 1, all), Pbs(st.next), n - 1, all, skip);
    }
  }

  lemma PbsAreTags(h: seq<Stripe>, tag: seq<Addr>, lo: nat, rs: seq<Range>)
    requires Mirrors(h, tag, lo, rs)
    ensures Pbs(rs) == tag[lo..lo + |rs|]
    ensures TagsIn(Pbs(rs), 0, |rs|) == TagsIn(tag, lo, lo + |rs|)
  {
    TagsOfSlice(tag, lo, lo + |rs|);
  }

  lemma TagsSplit(tag: seq<Addr>, lo: nat, mid: nat)
    requires lo <= mid <= |tag|
    ensures TagsFrom(tag, lo) == TagsIn(tag, lo, mid) + TagsFrom(tag, mid)
    ensures TagsFrom(tag, |tag|) == {}
  {
  }

  lemma UnlistedSlots(rs: seq<Range>, tags: set<Addr>, listed: set<Addr>)
    requires TagsIn(Pbs(rs), 0, |rs|) <= tags && tags !! listed
    ensures forall k :: 0 <= k < |rs| ==> rs[k].pb !in listed
  {
    forall k | 0 <= k < |rs|
      ensures rs[k].pb !in listed
    {
      assert Pbs(rs)[k] in TagsIn(Pbs(rs), 0, |rs|);
    }
  }

  /** What store_preblobs lists, in which order, and the flags it leaves. */
  lemma StorePreblobsEffect(st: Lab, tag: seq<Addr>, lo: nat, mid: nat, all: bool)
    requires Live(st) && lo <= mid <= |tag| && Flags(st, TagsFrom(tag, mid))
    requires Pbs(st.current) == tag[lo..mid] && Pbs(st.next) == tag[mid..|tag|]
    requires Elements(st.preblobs) !! TagsFrom(tag, lo)
    ensures
      var r := StorePreblobs(st, all);
      && r.preblobs == (if all then st.preblobs + Finished(tag, lo, mid) + Finished(tag, mid, |tag|)
                        else st.preblobs + Finished(tag, lo, mid))
      && Elements(r.preblobs) == Elements(st.preblobs)
           + (if all then TagsFrom(tag, lo) else TagsIn(tag, lo, mid) - TagsFrom(tag, mid))
      && Flags(r, {}) && SameValues(st, r)
  {
    hide TagsIn, Elements, FirstSeen, Stored, Released, StoreUnmatched, ReleaseNext, Flags;
    var skip := TagsFrom(tag, mid);
    TagsOfSlice(tag, lo, mid);
    TagsOfSlice(tag, mid, |tag|);
    TagsSplit(tag, lo, mid);
    UnlistedSlots(st.current, TagsFrom(tag, lo), Elements(st.preblobs));
    StoreUnmatchedEffect(st, |st.current|, skip);
    var t := StoreUnmatched(st, |st.current|);
    StoredOnce(st, t, tag, lo, mid);
    UnlistedSlots(st.next, skip, Elements(t.preblobs));
    ReleaseNextEffect(t, |st.next|, all, skip);
    ListsAppended(st, t, StorePreblobs(st, all), tag, lo, mid, all);
  }

  lemma StoredOnce(st: Lab, t: Lab, tag: seq<Addr>, lo: nat, mid: nat)
    requires lo <= mid <= |tag| && Stored(st, t, tag[lo..mid], mid - lo, TagsFrom(tag, mid))
    ensures Elements(t.preblobs) == Elements(st.preblobs) + (TagsIn(tag, lo, mid) - TagsFrom(tag, mid))
    ensures Flags(t, TagsFrom(tag, mid))
  {
    hide TagsIn, Elements, FirstSeen, Flags;
    TagsOfSlice(tag, lo, mid);
  }

  /** The two loops one after the other. */
  lemma ListsAppended(st: Lab, t: Lab, r: Lab, tag: seq<Addr>, lo: nat, mid: nat, all: bool)
    requires lo <= mid <= |tag| && Stored(st, t, tag[lo..mid], mid - lo, TagsFrom(tag, mid))
    requires Released(t, r, tag[mid..|tag|], |tag| - mid, all, TagsFrom(tag, mid))
    ensures
      && r.preblobs == (if all then st.preblobs + Finished(tag, lo, mid) + Finished(tag, mid, |tag|)
                        else st.preblobs + Finished(tag, lo, mid))
      && Elements(r.preblobs) == Elements(st.preblobs)
           + (if all then TagsFrom(tag, lo) else TagsIn(tag, lo, mid) - TagsFrom(tag, mid))
      && Flags(r, {}) && SameValues(st, r)
  {
    hide TagsIn, Elements, FirstSeen, Flags;
    StoredOnce(st, t, tag, lo, mid);
    TagsOfSlice(tag, mid, |tag|);
    TagsSplit(tag, lo, mid);
    assert TagsFrom(tag, mid) - TagsFrom(tag, mid) == {};
  }

  lemma LastLine(h: seq<Stripe>, v: int, lo: nat, mid: nat)
    requires lo <= mid <= |h| && Lines(h, v, lo, mid) && (h != [] ==> mid < |h|)
    ensures Lines(h, v + 1, mid, |h|)
    ensures forall v' :: v' != v && v' != v + 1 ==> Lines(h, v', |h|, |h|)
  {
  }

  lemma MemoryKept(st: Lab, st': Lab, h: seq<Stripe>, tag: seq<Addr>)
    requires Memory(st, h, tag) && SameValues(st, st')
    ensures Memory(st', h, tag)
  {
    hide Elements, Total;
  }

  lemma NothingMirrored(h: seq<Stripe>, tag: seq<Addr>)
    requires |tag| == |h|
    ensures Mirrors(h, tag, |h|, [])
  {
  }

  lemma SkipKeeps(st: Lab, h: seq<Stripe>, tag: seq<Addr>, line: int, v: int)
    requires Inv(st, h, tag, line) && Live(st) && v != line && v != line + 1
    ensures Ready(Advance(st, line, v), h, tag, v)
  {
    hide TagsIn, Elements, FirstSeen, TagsComponents, Lines, Placed, Total, Flags, Memory, Mirrors, SameValues,
      Finished, Pbs, StorePreblobs;
    Sizes(st, h, tag, line);
    var lo, mid := |h| - |st.next| - |st.current|, |h| - |st.next|;
    PbsAreTags(h, tag, lo, st.current);
    PbsAreTags(h, tag, mid, st.next);
    PlacedUnlisted(tag, lo, st.preblobs);
    StorePreblobsEffect(st, tag, lo, mid, true);
    FlushPlaces(tag, lo, mid, st.preblobs, Elements(st.preblobs));
    LastLine(h, line, lo, mid);
    TagsSplit(tag, lo, mid);
    StoredKeeps(st, h, tag, true, [], []);
    NothingMirrored(h, tag);
  }

  lemma StepKeeps(st: Lab, h: seq<Stripe>, tag: seq<Addr>, line: int)
    requires Inv(st, h, tag, line) && Live(st)
    ensures Ready(Advance(st, line, line + 1), h, tag, line + 1)
  {
    hide TagsIn, Elements, FirstSeen, TagsComponents, Lines, Placed, Total, Flags, Memory, Mirrors, SameValues,
      Finished, Pbs, StorePreblobs;
    Sizes(st, h, tag, line);
    var lo, mid := |h| - |st.next| - |st.current|, |h| - |st.next|;
    PbsAreTags(h, tag, lo, st.current);
    PbsAreTags(h, tag, mid, st.next);
    PlacedUnlisted(tag, lo, st.preblobs);
    StorePreblobsEffect(st, tag, lo, mid, false);
    NextLinePlaces(tag, lo, mid, st.preblobs, Elements(st.preblobs));
    LastLine(h, line, lo, mid);
    TagsSplit(tag, lo, mid);
    StoredKeeps(st, h, tag, false, st.next, []);
    NothingMirrored(h, tag);
  }

  /** Whatever the arrays are set to afterwards, store_preblobs leaves memory as it has to be and no flag set. */
  lemma StoredKeeps(st: Lab, h: seq<Stripe>, tag: seq<Addr>, all: bool, current: seq<Range>, next: seq<Range>)
    requires Live(st) && Memory(st, h, tag)
    requires Flags(StorePreblobs(st, all), {}) && SameValues(st, StorePreblobs(st, all))
    ensures
      var r := StorePreblobs(st, all).(current := current, next := next);
      Flags(r, {}) && Memory(r, h, tag)
  {
    hide StorePreblobs, Elements;
    MemoryKept(st, StorePreblobs(st, all), h, tag);
  }

  lemma PlacedUnlisted(tag: seq<Addr>, lo: nat, done: seq<Addr>)
    requires lo <= |tag| && Placed(tag, lo, done, Elements(done))
    ensures Elements(done) !! TagsFrom(tag, lo)
  {
  }

  /** Moving to the line of the next stripe. */
  lemma AdvanceKeeps(st: Lab, h: seq<Stripe>, tag: seq<Addr>, line: int, v: int)
    requires Inv(st, h, tag, line) && Live(st)
    ensures Ready(Advance(st, line, v), h, tag, v)
  {
    if line == v {
    } else if line + 1 != v {
      SkipKeeps(st, h, tag, line, v);
    } else {
      StepKeeps(st, h, tag, line);
    }
  }

  // ----- the range tests -----

  lemma AbsorbArrays(st: Lab, h: seq<Stripe>, tag: seq<Addr>, root: Addr, dead: Addr)
    requires Live(st) && root in st.heap && dead in st.heap && root != dead
    requires Arrays(st, h, tag)
    ensures Arrays(Absorb(st, root, dead), h, Rename(tag, dead, root))
  {
  }

  lemma AbsorbMemory(st: Lab, h: seq<Stripe>, tag: seq<Addr>, root: Addr, dead: Addr)
    requires Live(st) && root in st.heap && dead in st.heap && root != dead
    requires Memory(st, h, tag) && Elements(Rename(tag, dead, root)) == Elements(tag) - {dead} + {root}
    ensures Memory(Absorb(st, root, dead), h, Rename(tag, dead, root))
  {
    hide Elements, Rename, Total;
    var r, tag' := Absorb(st, root, dead), Rename(tag, dead, root);
    forall p | p in r.heap
      ensures r.heap[p].value == Total(h, tag', p)
    {
      TotalRename(h, tag, dead, root, p);
    }
  }

  lemma AbsorbKeeps(st: Lab, h: seq<Stripe>, tag: seq<Addr>, v: int, root: Addr, dead: Addr)
    requires Live(st) && root in st.heap && dead in st.heap && root != dead
    requires Consistent(st, h, tag, v)
    requires var lo := |h| - |st.next| - |st.current|; root in TagsFrom(tag, lo) && dead in TagsFrom(tag, lo)
    ensures Consistent(Absorb(st, root, dead), h, Rename(tag, dead, root), v)
  {
    hide Elements, TagsIn, Total, Lines, Placed, Mirrors;
    RenamePlaces(tag, |h| - |st.next| - |st.current|, st.preblobs, Elements(st.preblobs), root, dead);
    AbsorbArrays(st, h, tag, root, dead);
    AbsorbMemory(st, h, tag, root, dead);
  }

  ghost function RootAt(st: Lab, r: int): set<Addr>
    requires r < |st.current|
  {
    if r < 0 then {} else {st.current[r].pb}
  }

  /** In the middle of the range tests; r is the first range touched so far, or -1. */
  ghost predicate Matching(st: Lab, h: seq<Stripe>, tag: seq<Addr>, v: int, r: int) {
    Consistent(st, h, tag, v) && r < |st.current| && Flags(st, TagsFrom(tag, |h| - |st.next|) + RootAt(st, r))
  }

  /** The tags after range i was tested. */
  ghost function TestTags(st: Lab, tag: seq<Addr>, s: Stripe, i: nat, r: int): seq<Addr>
    requires r < i < |st.current|
  {
    if StripeInRange(s, st.current[i]) && 0 <= r then Rename(tag, st.current[i].pb, st.current[r].pb) else tag
  }

  lemma RenameTagsFrom(tag: seq<Addr>, mid: nat, root: Addr, dead: Addr)
    requires mid <= |tag| && root != dead
    ensures TagsFrom(Rename(tag, dead, root), mid) + {root} + {dead} == TagsFrom(tag, mid) + {root} + {dead}
    ensures dead !in TagsFrom(Rename(tag, dead, root), mid)
  {
    var tag' := Rename(tag, dead, root);
    forall p | p in TagsFrom(tag, mid) && p != dead
      ensures p in TagsFrom(tag', mid)
    {
      var i :| mid <= i < |tag| && tag[i] == p;
      assert tag'[i] == p;
    }
    forall p | p in TagsFrom(tag', mid) && p != root
      ensures p in TagsFrom(tag, mid)
    {
      var i :| mid <= i < |tag| && tag'[i] == p;
      assert tag[i] == p;
    }
  }

  lemma AbsorbFlags(st: Lab, tag: seq<Addr>, mid: nat, root: Addr, dead: Addr)
    requires Live(st) && root in st.heap && dead in st.heap && root != dead && mid <= |tag|
    requires Flags(st, TagsFrom(tag, mid) + {root} + {dead})
    ensures Flags(Absorb(st, root, dead), TagsFrom(Rename(tag, dead, root), mid) + {root})
  {
    hide TagsIn, Elements;
    RenameTagsFrom(tag, mid, root, dead);
  }

  lemma MarkKeeps(st: Lab, h: seq<Stripe>, tag: seq<Addr>, v: int, pb: Addr, matched: set<Addr>)
    requires Consistent(st, h, tag, v) && pb in st.heap && Flags(st, matched)
    ensures
      var st' := st.(heap := st.heap[pb := st.heap[pb].(matched := true)]);
      Consistent(st', h, tag, v) && Flags(st', matched + {pb})
  {
    hide Elements, TagsIn, Total, Lines, Placed, Mirrors;
  }

  lemma TestKeeps(st: Lab, h: seq<Stripe>, tag: seq<Addr>, v: int, s: Stripe, i: nat, r: int)
    requires Live(st) && Matching(st, h, tag, v, r) && r < i < |st.current|
    ensures var (st', r') := TestRange(st, s, i, r);
      Matching(st', h, TestTags(st, tag, s, i, r), v, r')
  {
    hide Elements, TagsIn, Total, Lines, Placed, Flags, Consistent;
    if StripeInRange(s, st.current[i]) {
      var lo, mid, pb := |h| - |st.next| - |st.current|, |h| - |st.next|, st.current[i].pb;
      SlotInUse(st, h, tag, v, i);
      MarkKeeps(st, h, tag, v, pb, TagsFrom(tag, mid) + RootAt(st, r));
      var st' := st.(heap := st.heap[pb := st.heap[pb].(matched := true)]);
      if r < 0 {
        assert TagsFrom(tag, mid) + RootAt(st, r) + {pb} == TagsFrom(tag, mid) + {pb};
      } else {
        SlotInUse(st, h, tag, v, r);
        var root := st.current[r].pb;
        if root != pb {
          AbsorbKeeps(st', h, tag, v, root, pb);
          AbsorbFlags(st', tag, mid, root, pb);
          assert Absorb(st', root, pb).current[r].pb == root;
        } else {
          RenameSame(tag, pb);
          assert TagsFrom(tag, mid) + {root} + {pb} == TagsFrom(tag, mid) + {root};
        }
      }
    }
  }

  lemma SlotInUse(st: Lab, h: seq<Stripe>, tag: seq<Addr>, v: int, i: nat)
    requires Consistent(st, h, tag, v) && i < |st.current|
    ensures |st.current| + |st.next| <= |h| == |tag|
    ensures var lo := |h| - |st.next| - |st.current|;
      st.current[i].pb == tag[lo + i] && st.current[i].pb in st.heap && st.current[i].pb in TagsFrom(tag, lo)
      && st.current[i].x1 == h[lo + i].hstart && st.current[i].x2 == h[lo + i].hstop
  {
    SlotTag(st, h, tag, v, |h| - |st.next| - |st.current| + i);
  }

  ghost function MatchTags(st: Lab, tag: seq<Addr>, s: Stripe, n: nat): seq<Addr>
    requires Live(st) && n <= |st.current|
  {
    if n == 0 then tag
    else
      var (t, r) := MatchRanges(st, s, n - 1);
      TestTags(t, MatchTags(st, tag, s, n - 1), s, n - 1, r)
  }

  /** The tags against those of before the range tests. */
  ghost predicate Gathered(st: Lab, r: int, tag: seq<Addr>, touched: set<nat>, tag': seq<Addr>)
    requires r < |st.current|
  {
    if r < 0 then tag' == tag && touched == {} else Gathers(tag, touched, st.current[r].pb, tag')
  }

  lemma TestGathers(st: Lab, h: seq<Stripe>, tag0: seq<Addr>, tag: seq<Addr>, v: int, s: Stripe, i: nat, r: int)
    requires Live(st) && Matching(st, h, tag, v, r) && r < i < |st.current|
    requires |tag0| == |h| && var lo := |h| - |st.next| - |st.current|;
      Gathered(st, r, tag0, Touched(h, s, lo, lo + i), tag)
    ensures var (st', r') := TestRange(st, s, i, r);
      var lo := |h| - |st.next| - |st.current|;
      Gathered(st', r', tag0, Touched(h, s, lo, lo + i + 1), TestTags(st, tag, s, i, r))
  {
    hide Elements, TagsIn, Total, Lines, Placed, Flags, Consistent, Gathers, Touched;
    Sizes(st, h, tag, v);
    var lo := |h| - |st.next| - |st.current|;
    var touched := Touched(h, s, lo, lo + i);
    SlotInUse(st, h, tag, v, i);
    TouchedStep(h, s, lo, lo + i);
    if StripeInRange(s, st.current[i]) {
      if r < 0 {
        GatherFirst(tag0, lo + i);
        assert touched + {lo + i} == {lo + i};
      } else {
        var pb := st.current[i].pb;
        var st' := st.(heap := st.heap[pb := st.heap[pb].(matched := true)]);
        GatherMore(tag0, touched, st.current[r].pb, tag, lo + i);
        assert pb != st.current[r].pb ==> Absorb(st', st.current[r].pb, pb).current[r].pb == st.current[r].pb;
      }
    } else {
      assert touched + {} == touched;
    }
  }

  lemma {:induction false} MatchKeeps(st: Lab, h: seq<Stripe>, tag: seq<Addr>, v: int, s: Stripe, n: nat)
    requires Ready(st, h, tag, v) && Live(st) && n <= |st.current|
    ensures |st.next| + |st.current| <= |h| == |tag|
    ensures var (t, r) := MatchRanges(st, s, n);
      var tag', lo := MatchTags(st, tag, s, n), |h| - |st.next| - |st.current|;
      Matching(t, h, tag', v, r) && Gathered(t, r, tag, Touched(h, s, lo, lo + n), tag')
  {
    hide Elements, TagsIn, Total, Lines, Placed, Flags, Gathered, TestTags, Memory, Mirrors;
    Sizes(st, h, tag, v);
    if n == 0 {
      assert TagsFrom(tag, |h| - |st.next|) + {} == TagsFrom(tag, |h| - |st.next|);
      NothingTouched(st, h, tag, s);
    } else {
      MatchKeeps(st, h, tag, v, s, n - 1);
      var (t, r) := MatchRanges(st, s, n - 1);
      var tag' := MatchTags(st, tag, s, n - 1);
      TestKeeps(t, h, tag', v, s, n - 1, r);
      TestGathers(t, h, tag, tag', v, s, n - 1, r);
    }
  }

  lemma NothingTouched(st: Lab, h: seq<Stripe>, tag: seq<Addr>, s: Stripe)
    requires |st.next| + |st.current| <= |h|
    ensures var lo := |h| - |st.next| - |st.current|; Gathered(st, -1, tag, Touched(h, s, lo, lo), tag)
  {
  }

  // ----- the stripe itself -----

  lemma EnterArrays(st: Lab, h: seq<Stripe>, tag: seq<Addr>, s: Stripe, p: Addr)
    requires Live(st) && Arrays(st, h, tag)
    ensures Arrays(Enter(st, s, p), h + [s], tag + [p])
  {
  }

  lemma EnterMemory(st: Lab, h: seq<Stripe>, tag: seq<Addr>, s: Stripe, p: Addr)
    requires Live(st) && Memory(st, h, tag)
    ensures Memory(Enter(st, s, p), h + [s], tag + [p])
  {
    var r := Enter(st, s, p);
    ElementsAppend(tag, p);
    assert p in Elements(tag) <==> p in tag;
    hide Elements, Total;
    forall q | q in r.heap
      ensures r.heap[q].value == Total(h + [s], tag + [p], q)
    {
      TotalAppend(h, s, tag, p, q);
      if q !in st.heap {
        TotalAbsent(h, tag, q);
      }
    }
  }

  lemma EnterFlags(st: Lab, tag: seq<Addr>, mid: nat, s: Stripe, p: Addr, root: set<Addr>)
    requires Live(st) && mid <= |tag| && Flags(st, TagsFrom(tag, mid) + root)
    requires if p in st.heap then root == {p} else root == {} && p !in Elements(st.preblobs)
    ensures Flags(Enter(st, s, p), TagsFrom(tag + [p], mid))
  {
    assert (tag + [p])[|tag|] == p && forall i :: mid <= i < |tag| ==> (tag + [p])[i] == tag[i];
    assert TagsFrom(tag + [p], mid) == TagsFrom(tag, mid) + {p};
    hide TagsIn, Elements;
  }

  lemma LinesAppend(h: seq<Stripe>, s: Stripe, lo: nat, mid: nat)
    requires lo <= mid <= |h| && Lines(h, s.vline, lo, mid)
    ensures Lines(h + [s], s.vline, lo, mid)
  {
  }

  lemma EnterKeeps(st: Lab, h: seq<Stripe>, tag: seq<Addr>, s: Stripe, r: int, p: Addr)
    requires Live(st) && Matching(st, h, tag, s.vline, r)
    requires if r < 0 then p !in st.heap else p == st.current[r].pb
    ensures Ready(Enter(st, s, p), h + [s], tag + [p], s.vline)
  {
    var lo, mid := |h| - |st.next| - |st.current|, |h| - |st.next|;
    NewAddressUnlisted(st, h, tag, s.vline, r, p);
    hide TagsIn, Elements, Lines, Placed, Total, Flags, Mirrors;
    EnterArrays(st, h, tag, s, p);
    EnterMemory(st, h, tag, s, p);
    EnterFlags(st, tag, mid, s, p, RootAt(st, r));
    LinesAppend(h, s, lo, mid);
    AppendPlaces(tag, lo, st.preblobs, Elements(st.preblobs), p);
  }

  lemma NewAddressUnlisted(st: Lab, h: seq<Stripe>, tag: seq<Addr>, v: int, r: int, p: Addr)
    requires Matching(st, h, tag, v, r)
    requires if r < 0 then p !in st.heap else p == st.current[r].pb
    ensures p !in Elements(st.preblobs)
    ensures 0 <= r ==> p in st.heap
  {
    if 0 <= r {
      SlotTag(st, h, tag, v, |h| - |st.next| - |st.current| + r);
    }
  }

  /** The tags after a stripe was accepted. */
  ghost function AddTags(st: Lab, tag: seq<Addr>, line: int, s: Stripe, spare: Addr): seq<Addr>
    requires Live(st)
  {
    var st0 := Advance(st, line, s.vline);
    var (st1, r) := MatchRanges(st0, s, |st0.current|);
    MatchTags(st0, tag, s, |st0.current|) + [if r < 0 then spare else st1.current[r].pb]
  }

  /** What the whole step keeps: every accepted stripe preserves the invariant of the labeller. */
  lemma AddStripeKeeps(st: Lab, h: seq<Stripe>, tag: seq<Addr>, line: int, s: Stripe, spare: Addr)
    requires Inv(st, h, tag, line) && Live(st) && spare !in st.heap
    ensures Inv(AddStripe(st, line, s, spare), h + [s], AddTags(st, tag, line, s, spare), s.vline)
  {
    hide TagsIn, Elements, Lines, Placed, Total, Flags, Memory, Mirrors, Gathers, TagsComponents, MatchRanges,
      MatchTags, Advance;
    AdvanceKeeps(st, h, tag, line, s.vline);
    var st0 := Advance(st, line, s.vline);
    var n, lo := |st0.current|, |h| - |st0.next| - |st0.current|;
    MatchKeeps(st0, h, tag, s.vline, s, n);
    var (st1, r) := MatchRanges(st0, s, n);
    var tag1 := MatchTags(st0, tag, s, n);
    var p := if r < 0 then spare else st1.current[r].pb;
    TouchedAreNeighbours(h, s, lo, lo + n);
    SpareIsNew(st, st0, st1, h, tag, tag1, line, s, r, spare);
    if r < 0 {
      UntouchedWelds(tag, p);
    } else {
      GatheredWelds(tag, Touched(h, s, lo, lo + n), p, tag1);
    }
    WeldTagsComponents(h, s, tag, Touched(h, s, lo, lo + n), p, tag1 + [p]);
    EnterKeeps(st1, h, tag1, s, r, p);
  }

  lemma SpareIsNew(st: Lab, st0: Lab, st1: Lab, h: seq<Stripe>, tag: seq<Addr>, tag1: seq<Addr>,
                   line: int, s: Stripe, r: int, spare: Addr)
    requires Memory(st, h, tag) && Memory(st1, h, tag1) && (r < 0 ==> tag1 == tag) && spare !in st.heap
    ensures spare !in tag && (r < 0 ==> spare !in st1.heap)
  {
    assert spare !in Elements(tag);
  }

  // ----- the flush, and conservation -----

  /** store_preblobs(true) lists every accumulator exactly once; each holds the total of its blob. */
  lemma FlushLists(st: Lab, h: seq<Stripe>, tag: seq<Addr>, line: int)
    requires Inv(st, h, tag, line) && Live(st)
    ensures var r := StorePreblobs(st, true);
      && Distinct(r.preblobs) && Elements(r.preblobs) == r.heap.Keys == Elements(tag)
      && forall p :: p in r.heap ==> r.heap[p].value == Total(h, tag, p)
  {
    hide TagsComponents, Lines, Total, Flags;
    SkipKeeps(st, h, tag, line, line + 2);
    assert TagsFrom(tag, |tag|) == {};
  }

  /** No slot or list entry points at freed memory, nothing is listed twice, and everything allocated is reachable. */
  lemma NothingDanglesOrLeaks(st: Lab, h: seq<Stripe>, tag: seq<Addr>, line: int)
    requires Inv(st, h, tag, line)
    ensures Live(st) && Distinct(st.preblobs)
    ensures st.heap.Keys == Elements(st.preblobs) + Elements(Pbs(st.current)) + Elements(Pbs(st.next))
  {
    hide TagsComponents, Lines, Total, Flags;
    var lo, mid := |h| - |st.next| - |st.current|, |h| - |st.next|;
    ConsistentIsLive(st, h, tag, line);
    PbsAreTags(h, tag, lo, st.current);
    PbsAreTags(h, tag, mid, st.next);
    TagsSplit(tag, lo, mid);
    assert Elements(Pbs(st.current)) == TagsIn(Pbs(st.current), 0, |st.current|);
    assert Elements(Pbs(st.next)) == TagsIn(Pbs(st.next), 0, |st.next|);
    assert TagsFrom(tag, lo) <= Elements(tag);
  }

  /** Before the first stripe nothing is held. */
  lemma EmptyInv(line: int)
    ensures Inv(Lab([], [], map[], []), [], [], line) && Live(Lab([], [], map[], []))
  {
  }

  /** The moments of the first n accumulators of a list. */
  ghost function Held(heap: map<Addr, Preblob>, ps: seq<Addr>, n: nat): Moments
    requires n <= |ps| && forall p :: p in ps ==> p in heap
  {
    if n == 0 then Moments(0, 0, 0, 0) else Held(heap, ps, n - 1).Plus(heap[ps[n - 1]].value)
  }

  ghost function All(h: seq<Stripe>): Moments {
    if h == [] then Moments(0, 0, 0, 0) else All(h[..|h| - 1]).Plus(MomentsOf(h[|h| - 1]))
  }

  /** The stripes that went to one of the first n accumulators of a list. */
  ghost function Share(h: seq<Stripe>, tag: seq<Addr>, ps: seq<Addr>, n: nat): Moments
    requires |tag| == |h| && n <= |ps|
  {
    if n == 0 then Moments(0, 0, 0, 0) else Share(h, tag, ps, n - 1).Plus(Total(h, tag, ps[n - 1]))
  }

  lemma {:induction false} HeldIsShare(st: Lab, h: seq<Stripe>, tag: seq<Addr>, ps: seq<Addr>, n: nat)
    requires Memory(st, h, tag) && n <= |ps| && forall p :: p in ps ==> p in st.heap
    ensures Held(st.heap, ps, n) == Share(h, tag, ps, n)
  {
    hide Total, Elements;
    if n != 0 {
      HeldIsShare(st, h, tag, ps, n - 1);
      assert ps[n - 1] in ps;
      assert st.heap[ps[n - 1]].value == Total(h, tag, ps[n - 1]);
    }
  }

  lemma {:induction false} ShareAppend(h: seq<Stripe>, s: Stripe, tag: seq<Addr>, q: Addr, ps: seq<Addr>, n: nat)
    requires |tag| == |h| && n <= |ps| && Distinct(ps)
    ensures Share(h + [s], tag + [q], ps, n)
         == if q in ps[..n] then Share(h, tag, ps, n).Plus(MomentsOf(s)) else Share(h, tag, ps, n)
  {
    if n != 0 {
      ShareAppend(h, s, tag, q, ps, n - 1);
      TotalAppend(h, s, tag, q, ps[n - 1]);
      assert ps[..n] == ps[..n - 1] + [ps[n - 1]];
    }
  }

  lemma {:induction false} NothingShared(ps: seq<Addr>, n: nat)
    requires n <= |ps|
    ensures Share([], [], ps, n) == Moments(0, 0, 0, 0)
  {
    if n != 0 {
      NothingShared(ps, n - 1);
    }
  }

  lemma {:induction false} ShareIsAll(h: seq<Stripe>, tag: seq<Addr>, ps: seq<Addr>)
    requires |tag| == |h| && Distinct(ps) && forall i :: 0 <= i < |tag| ==> tag[i] in ps
    ensures Share(h, tag, ps, |ps|) == All(h)
  {
    hide Share, Distinct;
    if h == [] {
      NothingShared(ps, |ps|);
    } else {
      var n := |h| - 1;
      var h', tag' := h[..n], tag[..n];
      ShareIsAll(h', tag', ps);
      assert h' + [h[n]] == h && tag' + [tag[n]] == tag && ps[..|ps|] == ps;
      ShareAppend(h', h[n], tag', tag[n], ps, |ps|);
    }
  }

  /** Conservation: the live accumulators, each counted once, hold together what all accepted stripes brought. */
  lemma Conservation(st: Lab, h: seq<Stripe>, tag: seq<Addr>, line: int, ps: seq<Addr>)
    requires Inv(st, h, tag, line) && Distinct(ps) && Elements(ps) == st.heap.Keys
    ensures forall p :: p in ps ==> p in st.heap
    ensures Held(st.heap, ps, |ps|) == All(h)
  {
    assert forall p :: p in ps <==> p in Elements(ps);
    HeldIsShare(st, h, tag, ps, |ps|);
    assert forall i :: 0 <= i < |tag| ==> tag[i] in Elements(tag);
    hide Share, All;
    ShareIsAll(h, tag, ps);
  }
}

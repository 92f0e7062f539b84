/** Stripes that come from a device instead of a bitmap: which streams the range arrays are large enough for. */
module Streams {
  import opened Image
  import Labeller
  import opened Stripes

  /** Those of the stripes that the labeller accepts. */
  function Accepted(stripes: seq<Stripe>, w: nat, h: nat): (rs: seq<Stripe>)
    ensures forall i :: 0 <= i < |rs| ==> Labeller.Accepts(w, h, rs[i])
  {
    if stripes == [] then []
    else
      var n := |stripes| - 1;
      var front := Accepted(stripes[..n], w, h);
      if Labeller.Accepts(w, h, stripes[n]) then front + [stripes[n]] else front
  }

  lemma {:induction false} AcceptedPrefix(stripes: seq<Stripe>, n: nat, w: nat, h: nat)
    requires n <= |stripes|
    ensures Accepted(stripes[..n], w, h) <= Accepted(stripes, w, h)
    decreases |stripes|
  {
    if n == |stripes| {
      assert stripes[..n] == stripes;
    } else {
      var m := |stripes| - 1;
      assert stripes[..m][..n] == stripes[..n];
      AcceptedPrefix(stripes[..m], n, w, h);
    }
  }

  lemma AcceptedNext(stripes: seq<Stripe>, i: nat, w: nat, h: nat)
    requires i < |stripes|
    ensures Accepted(stripes[..i + 1], w, h)
         == Accepted(stripes[..i], w, h) + if Labeller.Accepts(w, h, stripes[i]) then [stripes[i]] else []
  {
    assert stripes[..i + 1][..i] == stripes[..i];
  }

  // ----- the slots a stream takes -----

  /** How many stripes at the end lie on the line of the last one. */
  function LineLength(rs: seq<Stripe>): nat {
    if |rs| < 2 then |rs|
    else
      var n := |rs| - 1;
      if rs[n].vline == rs[n - 1].vline then LineLength(rs[..n]) + 1 else 1
  }

  /** No line gets more stripes than there are slots. */
  ghost predicate Fits(rs: seq<Stripe>, slots: nat) {
    forall n :: 0 <= n <= |rs| ==> LineLength(rs[..n]) <= slots
  }

  lemma FitsPrefix(rs: seq<Stripe>, all: seq<Stripe>, slots: nat)
    requires rs <= all && Fits(all, slots)
    ensures Fits(rs, slots)
  {
    forall n | 0 <= n <= |rs| ensures LineLength(rs[..n]) <= slots {
      assert rs[..n] == all[..n];
    }
  }

  lemma FitsNext(rs: seq<Stripe>, s: Stripe, slots: nat)
    ensures Fits(rs + [s], slots) <==> Fits(rs, slots) && LineLength(rs + [s]) <= slots
  {
    var all := rs + [s];
    assert all[..|all|] == all;
    if Fits(all, slots) {
      FitsPrefix(rs, all, slots);
    }
    if Fits(rs, slots) && LineLength(all) <= slots {
      forall n | 0 <= n <= |all| ensures LineLength(all[..n]) <= slots {
        if n <= |rs| {
          assert all[..n] == rs[..n];
        }
      }
    }
  }

  /** Two stripes of one line have a dark column between them, and the left one comes first. */
  ghost predicate Separate(rs: seq<Stripe>) {
    forall i, j :: 0 <= i < j < |rs| && rs[i].vline == rs[j].vline ==> rs[i].hstop + 1 < rs[j].hstart
  }

  lemma {:induction false} SeparateStart(rs: seq<Stripe>, w: nat, h: nat)
    requires rs != [] && Separate(rs)
    requires forall i :: 0 <= i < |rs| ==> Labeller.Accepts(w, h, rs[i])
    ensures 2 * LineLength(rs) <= rs[|rs| - 1].hstart + 2
  {
    if |rs| > 1 {
      var front := rs[..|rs| - 1];
      assert front[|front| - 1] == rs[|rs| - 2];
      SeparateStart(front, w, h);
    }
  }

  /** Separate stripes always fit, those that end in the off-by-one column w included. */
  lemma SeparateFits(stripes: seq<Stripe>, w: nat, h: nat)
    requires Separate(Accepted(stripes, w, h))
    ensures Fits(Accepted(stripes, w, h), w / 2 + 1)
  {
    var all := Accepted(stripes, w, h);
    forall n | 0 < n <= |all| ensures LineLength(all[..n]) <= w / 2 + 1 {
      SeparateStart(all[..n], w, h);
    }
  }

  lemma {:induction false} RepeatedLength(n: nat, s: Stripe)
    ensures LineLength(seq(n, _ => s)) == n
  {
    if n >= 2 {
      assert seq(n, _ => s)[..n - 1] == seq(n - 1, _ => s);
      RepeatedLength(n - 1, s);
    }
  }

  lemma {:induction false} RepeatedAccepted(n: nat, s: Stripe, w: nat, h: nat)
    requires Labeller.Accepts(w, h, s)
    ensures Accepted(seq(n, _ => s), w, h) == seq(n, _ => s)
  {
    if n != 0 {
      assert seq(n, _ => s)[..n - 1] == seq(n - 1, _ => s);
      RepeatedAccepted(n - 1, s, w, h);
    }
  }

  lemma PartRepeated(n: nat, k: nat, s: Stripe)
    requires k <= n
    ensures LineLength(seq(n, _ => s)[..k]) == k
  {
    hide LineLength;
    assert seq(n, _ => s)[..k] == seq(k, _ => s);
    RepeatedLength(k, s);
  }

  /** One stripe that comes over and over fits exactly w/2 + 1 times. */
  lemma RepeatedFits(n: nat, s: Stripe, w: nat, h: nat)
    requires Labeller.Accepts(w, h, s)
    ensures Fits(Accepted(seq(n, _ => s), w, h), w / 2 + 1) <==> n <= w / 2 + 1
  {
    RepeatedAccepted(n, s, w, h);
    hide Accepted, Labeller.Accepts;
    var rs := seq(n, _ => s);
    forall k | 0 <= k <= n
      ensures LineLength(rs[..k]) == k
    {
      PartRepeated(n, k, s);
    }
    assert LineLength(rs[..n]) == n;
  }

  // ----- a stream into the labeller -----

  /** What the labeller remembers of the stripes it has accepted. */
  ghost predicate AtLine(hist: seq<Stripe>, vline: int, used: nat) {
    used == LineLength(hist) && (hist != [] ==> vline == hist[|hist| - 1].vline)
  }

  lemma AtLineNext(hist: seq<Stripe>, vline: int, used: nat, s: Stripe)
    requires AtLine(hist, vline, used)
    ensures AtLine(hist + [s], s.vline, (if vline == s.vline then used else 0) + 1)
  {
    assert (hist + [s])[..|hist|] == hist;
  }

  lemma NextFits(hist: seq<Stripe>, vline: int, used: nat, s: Stripe, slots: nat)
    requires AtLine(hist, vline, used) && Fits(hist, slots) && 1 <= slots
    ensures Fits(hist + [s], slots) <==> (vline == s.vline ==> used < slots)
  {
    AtLineNext(hist, vline, used, s);
    FitsNext(hist, s, slots);
  }

  lemma Start(vline: int, slots: nat)
    ensures AtLine([], vline, 0) && Fits([], slots)
    ensures forall w: nat, h: nat :: Accepted([], w, h) == []
  {
  }

  /** The next stripe of a stream that fitted so far has no slot exactly if the stream does not fit with it. */
  lemma StreamNext(hist: seq<Stripe>, vline: int, used: nat, stripes: seq<Stripe>, i: nat, w: nat, h: nat, slots: nat)
    requires AtLine(hist, vline, used) && Fits(hist, slots) && 1 <= slots
    requires i < |stripes| && hist == Accepted(stripes[..i], w, h)
    ensures Accepted(stripes[..i + 1], w, h)
         == hist + if Labeller.Accepts(w, h, stripes[i]) then [stripes[i]] else []
    ensures AtLine(hist + [stripes[i]], stripes[i].vline, (if vline == stripes[i].vline then used else 0) + 1)
    ensures (vline == stripes[i].vline ==> used < slots) ==> Fits(hist + [stripes[i]], slots)
    ensures Labeller.Accepts(w, h, stripes[i]) && vline == stripes[i].vline && used >= slots
        ==> !Fits(Accepted(stripes, w, h), slots)
  {
    hide Labeller.Accepts, Accepted, Fits, AtLine;
    AcceptedNext(stripes, i, w, h);
    AtLineNext(hist, vline, used, stripes[i]);
    NextFits(hist, vline, used, stripes[i], slots);
    AcceptedPrefix(stripes, i + 1, w, h);
    if Labeller.Accepts(w, h, stripes[i]) && Fits(Accepted(stripes, w, h), slots) {
      FitsPrefix(hist + [stripes[i]], Accepted(stripes, w, h), slots);
    }
  }

  lemma Slots(lab: Labeller.Labeller)
    requires lab.Valid()
    ensures 1 <= lab.current.Length == lab.next.Length
  {
  }

  /** Feeding a stream to a new labeller: it takes all of it if and only if the accepted stripes fit, and otherwise it
      comes to an accepted stripe that has no slot. */
  method AddStream(lab: Labeller.Labeller, stripes: seq<Stripe>, img: Image) returns (n: nat)
    requires lab.Valid() && lab.hist == [] && lab.nextLimit == 0 && img.Valid()
    modifies lab, lab.current, lab.next, img.Pixels()
    ensures lab.Valid() && n <= |stripes| && lab.hist == Accepted(stripes[..n], img.w, img.h)
    ensures lab.next.Length == old(lab.next.Length)
    ensures n == |stripes| <==> Fits(Accepted(stripes, img.w, img.h), lab.next.Length)
    ensures n < |stripes| ==> Labeller.Accepts(img.w, img.h, stripes[n]) && !lab.Room(stripes[n])
  {
    hide Labeller.Labeller.Valid, Labeller.Labeller.State, Labeller.Accepts, Accepted, Fits, AtLine;
    ghost var slots := lab.next.Length;
    Start(lab.currentVline, slots);
    n := 0;
    while n < |stripes|
      invariant lab.Valid() && {lab.current, lab.next} == old({lab.current, lab.next}) && lab.next.Length == slots
      invariant n <= |stripes| && lab.hist == Accepted(stripes[..n], img.w, img.h)
      invariant AtLine(lab.hist, lab.currentVline, lab.nextLimit) && Fits(lab.hist, slots)
    {
      Slots(lab);
      StreamNext(lab.hist, lab.currentVline, lab.nextLimit, stripes, n, img.w, img.h, slots);
      if Labeller.Accepts(img.w, img.h, stripes[n]) && !lab.Room(stripes[n]) {
        return;
      }
      var ok := lab.AddStripe(stripes[n], img);
      n := n + 1;
    }
    assert stripes[..n] == stripes;
  }
}

/** The runs of a frame are exactly its maximal horizontal stretches of lit pixels. */
module RunProofs {
  import opened Stripes
  import opened Image
  import opened Runs

  // ----- one row -----

  predicate Covers(s: Stripe, x: nat) {
    s.hstart <= x <= s.hstop
  }

  ghost predicate CoveredBy(rs: seq<Stripe>, x: nat) {
    exists k :: 0 <= k < |rs| && Covers(rs[k], x)
  }

  ghost predicate IsRun(s: Stripe, row: seq<byte>, y: nat, limit: nat) {
    && s.hstart <= s.hstop < limit && s.hstop < |row|
    && s == RunOf(row, y, s.hstart, s.hstop + 1)
    && forall x :: s.hstart <= x <= s.hstop ==> row[x] != 0
  }

  /** The runs rs of columns below limit: in order, apart, and missing no lit pixel. */
  ghost predicate RowExact(row: seq<byte>, y: nat, limit: nat, rs: seq<Stripe>) {
    && limit <= |row|
    && (forall k :: 0 <= k < |rs| ==> IsRun(rs[k], row, y, limit))
    && (forall k, l :: 0 <= k < l < |rs| ==> rs[k].hstop + 1 < rs[l].hstart)
    && (forall x: nat {:trigger row[x]} :: x < limit && row[x] != 0 ==> CoveredBy(rs, x))
  }

  ghost predicate Apart(rs: seq<Stripe>, limit: nat) {
    forall k :: 0 <= k < |rs| ==> rs[k].hstop + 1 < limit
  }

  lemma RunStartFacts(row: seq<byte>, x: nat)
    requires x <= |row|
    ensures var a := RunStart(row, x);
      (forall i :: a <= i < x ==> row[i] != 0) && (0 < a ==> row[a - 1] == 0)
  {
    if x != 0 && row[x - 1] != 0 {
      RunStartFacts(row, x - 1);
    }
  }

  lemma AddRun(row: seq<byte>, y: nat, limit: nat, rs: seq<Stripe>, x: nat)
    requires RowExact(row, y, limit, rs) && Apart(rs, limit)
    requires limit < x <= |row| && forall i :: limit <= i < x ==> row[i] != 0
    ensures RowExact(row, y, x, rs + [RunOf(row, y, limit, x)])
  {
    var r := RunOf(row, y, limit, x);
    var rs' := rs + [r];
    assert IsRun(r, row, y, x);
    forall k | 0 <= k < |rs'|
      ensures IsRun(rs'[k], row, y, x)
    {
      if k < |rs| {
        assert IsRun(rs[k], row, y, limit);
      }
    }
    forall i: nat | i < x && row[i] != 0
      ensures CoveredBy(rs', i)
    {
      if i < limit {
        var k :| 0 <= k < |rs| && Covers(rs[k], i);
        assert Covers(rs'[k], i);
      } else {
        assert Covers(rs'[|rs|], i);
      }
    }
  }

  lemma SkipZero(row: seq<byte>, y: nat, x: nat, rs: seq<Stripe>)
    requires RowExact(row, y, x, rs) && x < |row| && row[x] == 0
    ensures RowExact(row, y, x + 1, rs) && Apart(rs, x + 1)
  {
    forall k | 0 <= k < |rs|
      ensures IsRun(rs[k], row, y, x + 1) && rs[k].hstop + 1 < x + 1
    {
      assert IsRun(rs[k], row, y, x);
    }
  }

  lemma NoRuns(row: seq<byte>, y: nat)
    ensures RowExact(row, y, 0, []) && Apart([], 0)
  {
  }

  lemma {:induction false} EndedExact(row: seq<byte>, y: nat, x: nat)
    requires x <= |row|
    ensures RowExact(row, y, RunStart(row, x), Ended(row, y, x)) && Apart(Ended(row, y, x), RunStart(row, x))
  {
    hide RowExact, Apart, RunOf;
    if x == 0 {
      NoRuns(row, y);
    } else {
      EndedExact(row, y, x - 1);
      var a := RunStart(row, x - 1);
      assert !(row[x - 1] == 0 && a < x - 1) ==> Ended(row, y, x) == Ended(row, y, x - 1);
      if row[x - 1] == 0 {
        RunStartFacts(row, x - 1);
        if a < x - 1 {
          AddRun(row, y, a, Ended(row, y, x - 1), x - 1);
        }
        SkipZero(row, y, x - 1, Ended(row, y, x));
      }
    }
  }

  lemma RowRunsExact(row: seq<byte>, y: nat)
    ensures RowExact(row, y, |row|, RowRuns(row, y))
  {
    var a := RunStart(row, |row|);
    EndedExact(row, y, |row|);
    RunStartFacts(row, |row|);
    if a < |row| {
      AddRun(row, y, a, Ended(row, y, |row|), |row|);
    } else {
      assert RowRuns(row, y) == Ended(row, y, |row|);
    }
  }

  // ----- the whole frame; a pixel is its index in the frame -----

  function Begin(s: Stripe, w: nat): (i: nat) {
    s.vline * w + s.hstart
  }

  function Last(s: Stripe, w: nat): (i: nat) {
    s.vline * w + s.hstop
  }

  predicate Holds(s: Stripe, w: nat, i: nat) {
    Begin(s, w) <= i <= Last(s, w)
  }

  ghost predicate Held(h: seq<Stripe>, w: nat, i: nat) {
    exists k :: 0 <= k < |h| && Holds(h[k], w, i)
  }

  /** A run of row s.vline of the frame, with its weights. */
  ghost predicate IsFrameRun(s: Stripe, img: seq<byte>, w: nat, n: nat) {
    && s.vline < n && s.vline * w + w <= |img| && s.hstart <= s.hstop < w
    && s == RunOf(Row(img, w, s.vline), s.vline, s.hstart, s.hstop + 1)
    && forall i :: Begin(s, w) <= i <= Last(s, w) ==> img[i] != 0
  }

  ghost predicate Before(s: Stripe, t: Stripe) {
    s.vline < t.vline || (s.vline == t.vline && s.hstop + 1 < t.hstart)
  }

  /** h lists the runs of the first n rows in scan order. */
  ghost predicate FrameExact(img: seq<byte>, w: nat, n: nat, h: seq<Stripe>) {
    && n * w <= |img|
    && (forall k :: 0 <= k < |h| ==> IsFrameRun(h[k], img, w, n))
    && (forall k, l :: 0 <= k < l < |h| ==> Before(h[k], h[l]))
    && (forall i: nat {:trigger img[i]} :: i < n * w && img[i] != 0 ==> Held(h, w, i))
  }

  lemma RunInFrame(s: Stripe, img: seq<byte>, w: nat, y: nat)
    requires y * w + w <= |img| && IsRun(s, Row(img, w, y), y, w)
    ensures IsFrameRun(s, img, w, y + 1)
  {
    var row := Row(img, w, y);
    forall i | Begin(s, w) <= i <= Last(s, w)
      ensures img[i] != 0
    {
      assert row[i - y * w] == img[i];
    }
  }

  lemma RowHeld(img: seq<byte>, w: nat, y: nat, rs: seq<Stripe>, i: nat)
    requires y * w + w <= |img| && RowExact(Row(img, w, y), y, w, rs)
    requires y * w <= i < y * w + w && img[i] != 0
    ensures Held(rs, w, i)
  {
    var row, x := Row(img, w, y), i - y * w;
    assert row[x] == img[i];
    assert CoveredBy(rs, x);
    var k :| 0 <= k < |rs| && Covers(rs[k], x);
    assert IsRun(rs[k], row, y, w);
    assert Holds(rs[k], w, i);
  }

  lemma HeldMore(h: seq<Stripe>, g: seq<Stripe>, w: nat, i: nat)
    ensures Held(h, w, i) || Held(g, w, i) ==> Held(h + g, w, i)
  {
    if Held(h, w, i) {
      var k :| 0 <= k < |h| && Holds(h[k], w, i);
      assert Holds((h + g)[k], w, i);
    } else if Held(g, w, i) {
      var k :| 0 <= k < |g| && Holds(g[k], w, i);
      assert Holds((h + g)[|h| + k], w, i);
    }
  }

  lemma AddRow(img: seq<byte>, w: nat, y: nat, h: seq<Stripe>, rs: seq<Stripe>)
    requires y * w + w <= |img| && FrameExact(img, w, y, h) && RowExact(Row(img, w, y), y, w, rs)
    ensures FrameExact(img, w, y + 1, h + rs)
  {
    hide RunOf, Row, Begin, Last, CoveredBy, Held;
    var g := h + rs;
    assert (y + 1) * w == y * w + w;
    forall k | 0 <= k < |g|
      ensures IsFrameRun(g[k], img, w, y + 1)
      ensures k >= |h| ==> g[k].vline == y
    {
      if k < |h| {
        assert IsFrameRun(h[k], img, w, y);
      } else {
        RunInFrame(rs[k - |h|], img, w, y);
        assert IsRun(rs[k - |h|], Row(img, w, y), y, w);
        RunLine(rs[k - |h|], Row(img, w, y), y, w);
      }
    }
    forall k, l | 0 <= k < l < |g|
      ensures Before(g[k], g[l])
    {
      if k < |h| {
        assert IsFrameRun(h[k], img, w, y);
      }
    }
    forall i: nat | i < (y + 1) * w && img[i] != 0
      ensures Held(g, w, i)
    {
      HeldMore(h, rs, w, i);
      if i >= y * w {
        RowHeld(img, w, y, rs, i);
      }
    }
  }

  lemma RunLine(s: Stripe, row: seq<byte>, y: nat, limit: nat)
    requires IsRun(s, row, y, limit)
    ensures s.vline == y
  {
  }

  /** What the scan hands to the labeller is exactly the runs of the frame. */
  lemma {:induction false} AllRunsExact(img: seq<byte>, w: nat, n: nat)
    requires n * w <= |img|
    ensures FrameExact(img, w, n, AllRuns(img, w, n))
  {
    if n != 0 {
      RowFits(w, n, |img|);
      AllRunsExact(img, w, n - 1);
      RowRunsExact(Row(img, w, n - 1), n - 1);
      AddRow(img, w, n - 1, AllRuns(img, w, n - 1), RowRuns(Row(img, w, n - 1), n - 1));
    }
  }
}

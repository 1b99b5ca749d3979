/** Splitting a digit band into per-digit column runs (score.py `_segment_digits`). */
module DigitSegments {

  /** First and last column of a run, inclusive. */
  datatype Span = Span(lo: nat, hi: nat)

  /** Where the run after run `i` starts, or the number of columns when there is none. */
  function NextLo(runs: seq<Span>, i: nat, end: nat): nat
  {
    if i + 1 < |runs| then runs[i + 1].lo else end
  }

  predicate InSpan(s: Span, x: nat) { s.lo <= x <= s.hi }

  /** Columns `x..=x+gap` are all empty: the gap that parts two digits. */
  predicate Blank(col: seq<nat>, gap: nat, x: nat)
  {
    x + gap < |col| && forall j :: x <= j <= x + gap ==> col[j] == 0
  }

  /** A run starts on ink and holds no parting gap. */
  predicate Solid(col: seq<nat>, gap: nat, s: Span)
  {
    && s.lo <= s.hi < |col| && col[s.lo] > 0
    && forall x :: s.lo <= x && x + gap <= s.hi ==> !Blank(col, gap, x)
  }

  /** A run ends on ink with a parting gap before `next`. */
  predicate Closed(col: seq<nat>, gap: nat, s: Span, next: nat)
  {
    s.hi < |col| && col[s.hi] > 0 && s.hi + gap + 1 < next
  }

  ghost predicate InSome(runs: seq<Span>, x: nat)
  {
    exists i :: 0 <= i < |runs| && InSpan(runs[i], x)
  }

  /** Run `i` is solid and ends properly before the one after it. */
  ghost predicate Fits(col: seq<nat>, gap: nat, runs: seq<Span>, i: nat, end: nat)
    requires i < |runs|
  {
    && Solid(col, gap, runs[i])
    && (Closed(col, gap, runs[i], NextLo(runs, i, end)) || (i == |runs| - 1 && end == |col| && runs[i].hi == end - 1))
  }

  /** What a segmentation is: solid runs in order, parted by more than `gap` empty columns, the last
    * one possibly open at the right edge, holding every inked column. */
  ghost predicate Segmentation(col: seq<nat>, gap: nat, runs: seq<Span>)
  {
    && (forall i {:trigger Fits(col, gap, runs, i, |col|)} :: 0 <= i < |runs| ==> Fits(col, gap, runs, i, |col|))
    && forall x {:trigger InSome(runs, x)} :: 0 <= x < |col| && col[x] > 0 ==> InSome(runs, x)
  }

  ghost predicate FitsClosed(col: seq<nat>, gap: nat, runs: seq<Span>, i: nat, end: nat)
    requires i < |runs|
  {
    Solid(col, gap, runs[i]) && Closed(col, gap, runs[i], NextLo(runs, i, end))
  }

  /** The closed runs, all before column `end`, hold every inked column before `end`. */
  ghost predicate Settled(col: seq<nat>, gap: nat, runs: seq<Span>, end: nat)
  {
    && (forall i {:trigger FitsClosed(col, gap, runs, i, end)} :: 0 <= i < |runs| ==> FitsClosed(col, gap, runs, i, end))
    && forall x {:trigger InSome(runs, x)} :: 0 <= x < end && x < |col| && col[x] > 0 ==> InSome(runs, x)
  }

  /** The run open since `start`: its last `blanks` columns are empty, the one before them inked. */
  ghost predicate Open(col: seq<nat>, gap: nat, start: nat, blanks: nat, x: nat)
  {
    && x <= |col| && start + blanks < x && blanks <= gap
    && col[start] > 0 && col[x - blanks - 1] > 0
    && (forall j :: x - blanks <= j < x ==> col[j] == 0)
    && forall j :: start <= j && j + gap < x ==> !Blank(col, gap, j)
  }

  lemma Opens(col: seq<nat>, gap: nat, x: nat)
    requires x < |col| && col[x] > 0
    ensures Open(col, gap, x, 0, x + 1)
  {
  }

  lemma Extends(col: seq<nat>, gap: nat, start: nat, blanks: nat, x: nat)
    requires Open(col, gap, start, blanks, x) && x < |col| && col[x] > 0
    ensures Open(col, gap, start, 0, x + 1)
  {
    forall j | start <= j && j + gap < x + 1
      ensures !Blank(col, gap, j)
    {
      if j + gap == x { assert col[x] > 0; }
    }
  }

  lemma Waits(col: seq<nat>, gap: nat, start: nat, blanks: nat, x: nat)
    requires Open(col, gap, start, blanks, x) && x < |col| && col[x] == 0 && blanks < gap
    ensures Open(col, gap, start, blanks + 1, x + 1)
  {
    forall j | start <= j && j + gap < x + 1
      ensures !Blank(col, gap, j)
    {
      if j + gap == x { assert j <= x - blanks - 1 <= j + gap; }
    }
  }

  lemma Closes(col: seq<nat>, gap: nat, runs: seq<Span>, start: nat, x: nat)
    requires Settled(col, gap, runs, start) && Open(col, gap, start, gap, x) && x < |col| && col[x] == 0
    ensures Settled(col, gap, runs + [Span(start, x - gap - 1)], x + 1)
  {
    var s := Span(start, x - gap - 1);
    var all, end := runs + [s], x + 1;
    forall i | 0 <= i < |all|
      ensures FitsClosed(col, gap, all, i, end)
    {
      if i < |runs| { assert FitsClosed(col, gap, runs, i, start); }
    }
    Joined(runs, s);
  }

  lemma Joined(runs: seq<Span>, s: Span)
    ensures forall x :: InSome(runs, x) || InSpan(s, x) ==> InSome(runs + [s], x)
  {
    forall x | InSome(runs, x) || InSpan(s, x)
      ensures InSome(runs + [s], x)
    {
      if InSome(runs, x) {
        var i :| 0 <= i < |runs| && InSpan(runs[i], x);
        assert (runs + [s])[i] == runs[i];
      } else {
        assert (runs + [s])[|runs|] == s;
      }
    }
  }

  lemma Idle(col: seq<nat>, gap: nat, runs: seq<Span>, x: nat)
    requires Settled(col, gap, runs, x) && x < |col| && col[x] == 0
    ensures Settled(col, gap, runs, x + 1)
  {
    var end := x + 1;
    forall i | 0 <= i < |runs|
      ensures FitsClosed(col, gap, runs, i, end)
    {
      assert FitsClosed(col, gap, runs, i, x);
    }
  }

  lemma EndsClosed(col: seq<nat>, gap: nat, runs: seq<Span>)
    requires Settled(col, gap, runs, |col|)
    ensures Segmentation(col, gap, runs)
  {
    forall i | 0 <= i < |runs|
      ensures Fits(col, gap, runs, i, |col|)
    {
      assert FitsClosed(col, gap, runs, i, |col|);
    }
  }

  lemma EndsOpen(col: seq<nat>, gap: nat, runs: seq<Span>, start: nat, blanks: nat)
    requires Settled(col, gap, runs, start) && Open(col, gap, start, blanks, |col|)
    ensures Segmentation(col, gap, runs + [Span(start, |col| - 1)])
  {
    var s := Span(start, |col| - 1);
    var all := runs + [s];
    forall i | 0 <= i < |all|
      ensures Fits(col, gap, all, i, |col|)
    {
      if i < |runs| { assert FitsClosed(col, gap, runs, i, start); }
    }
    Joined(runs, s);
  }

  /** The scan of `_segment_digits`, before specks are dropped; with no run open `start` is -1. */
  method Segment(col: seq<nat>, minGap: nat) returns (runs: seq<Span>)
    ensures Segmentation(col, minGap, runs)
  {
    runs := [];
    var start: int, gap: nat := -1, 0;
    for x := 0 to |col|
      invariant start < 0 ==> Settled(col, minGap, runs, x)
      invariant start >= 0 ==> Settled(col, minGap, runs, start) && Open(col, minGap, start, gap, x)
    {
      if col[x] > 0 {
        if start < 0 {
          Opens(col, minGap, x);
          start := x;
        } else {
          Extends(col, minGap, start, gap, x);
        }
        gap := 0;
      } else if start >= 0 {
        gap := gap + 1;
        if gap > minGap {
          Closes(col, minGap, runs, start, x);
          runs := runs + [Span(start, x - gap)];
          start := -1;
        } else {
          Waits(col, minGap, start, gap - 1, x);
        }
      } else {
        Idle(col, minGap, runs, x);
      }
    }
    if start >= 0 {
      EndsOpen(col, minGap, runs, start, gap);
      runs := runs + [Span(start, |col| - 1)];
    } else {
      EndsClosed(col, minGap, runs);
    }
  }

  // ----- the segmentation is unique -----

  lemma {:induction false} InOrder(col: seq<nat>, gap: nat, runs: seq<Span>, i: nat, j: nat)
    requires Segmentation(col, gap, runs) && i < j < |runs|
    ensures runs[i].hi + gap + 1 < runs[j].lo
    decreases j
  {
    var k := j - 1;
    assert Fits(col, gap, runs, k, |col|);
    if i < k {
      InOrder(col, gap, runs, i, k);
    }
  }

  /** Both lists agree on the runs before the `i`-th, so the next runs start alike. */
  lemma StartsBefore(col: seq<nat>, gap: nat, r: seq<Span>, s: seq<Span>, i: nat)
    requires Segmentation(col, gap, r) && Segmentation(col, gap, s)
    requires i < |r| && i <= |s| && forall j :: 0 <= j < i ==> r[j] == s[j]
    ensures i < |s| && s[i].lo <= r[i].lo
  {
    var x := r[i].lo;
    assert Fits(col, gap, r, i, |col|);
    assert InSome(s, x);
    var k :| 0 <= k < |s| && InSpan(s[k], x);
    if k < i {
      InOrder(col, gap, r, k, i);
      assert false;
    }
    if k > i {
      InOrder(col, gap, s, i, k);
      assert Fits(col, gap, s, i, |col|);
    }
  }

  lemma GapIsEmpty(col: seq<nat>, gap: nat, r: seq<Span>, i: nat, x: nat)
    requires Segmentation(col, gap, r) && i < |r| && r[i].hi < x < NextLo(r, i, |col|) && x < |col|
    ensures col[x] == 0
  {
    if col[x] > 0 {
      assert InSome(r, x);
      var k :| 0 <= k < |r| && InSpan(r[k], x);
      assert Fits(col, gap, r, i, |col|);
      if k < i {
        InOrder(col, gap, r, k, i);
      } else if k > i + 1 {
        assert Fits(col, gap, r, i + 1, |col|);
        InOrder(col, gap, r, i + 1, k);
      }
    }
  }

  /** Runs that start alike end alike. */
  lemma EndsNotBefore(col: seq<nat>, gap: nat, r: seq<Span>, s: seq<Span>, i: nat)
    requires Segmentation(col, gap, r) && Segmentation(col, gap, s)
    requires i < |r| && i < |s| && r[i].lo == s[i].lo
    ensures s[i].hi <= r[i].hi
  {
    assert Fits(col, gap, r, i, |col|) && Fits(col, gap, s, i, |col|);
    var h := r[i].hi;
    if h < s[i].hi {
      NextInside(col, gap, r, i);
      forall x | h < x <= h + gap + 1
        ensures col[x] == 0
      {
        GapIsEmpty(col, gap, r, i, x);
      }
      assert Blank(col, gap, h + 1);
    }
  }

  lemma NextInside(col: seq<nat>, gap: nat, r: seq<Span>, i: nat)
    requires Segmentation(col, gap, r) && i < |r|
    ensures NextLo(r, i, |col|) <= |col|
  {
    if i + 1 < |r| {
      assert Fits(col, gap, r, i + 1, |col|);
    }
  }

  lemma {:induction false} AgreeUpTo(col: seq<nat>, gap: nat, r: seq<Span>, s: seq<Span>, n: nat)
    requires Segmentation(col, gap, r) && Segmentation(col, gap, s) && n <= |r|
    ensures n <= |s| && forall j :: 0 <= j < n ==> r[j] == s[j]
  {
    if n > 0 {
      var i := n - 1;
      AgreeUpTo(col, gap, r, s, i);
      StartsBefore(col, gap, r, s, i);
      StartsBefore(col, gap, s, r, i);
      EndsNotBefore(col, gap, r, s, i);
      EndsNotBefore(col, gap, s, r, i);
    }
  }

  /** No other list of runs meets the description: it pins down what `Segment` returns. */
  lemma SegmentationUnique(col: seq<nat>, gap: nat, r: seq<Span>, s: seq<Span>)
    requires Segmentation(col, gap, r) && Segmentation(col, gap, s)
    ensures r == s
  {
    AgreeUpTo(col, gap, r, s, |r|);
    AgreeUpTo(col, gap, s, r, |s|);
  }

  /** Every inked column lies in exactly one run. */
  lemma InkInOneRun(col: seq<nat>, gap: nat, runs: seq<Span>, x: nat)
    requires Segmentation(col, gap, runs) && x < |col| && col[x] > 0
    ensures exists i :: 0 <= i < |runs| && InSpan(runs[i], x) && forall j :: 0 <= j < |runs| && j != i ==> !InSpan(runs[j], x)
  {
    assert InSome(runs, x);
    var i :| 0 <= i < |runs| && InSpan(runs[i], x);
    forall j | 0 <= j < |runs| && j != i
      ensures !InSpan(runs[j], x)
    {
      if j < i { InOrder(col, gap, runs, j, i); } else { InOrder(col, gap, runs, i, j); }
    }
  }

  // ----- dropping specks -----

  function Sum(col: seq<nat>, lo: nat, hi: nat): nat
    requires lo <= hi <= |col|
  {
    if lo == hi then 0 else Sum(col, lo, hi - 1) + col[hi - 1]
  }

  /** Wide enough and with enough ink to be a digit. */
  predicate Digit(col: seq<nat>, minWidth: int, minInk: int, s: Span)
  {
    s.lo <= s.hi < |col| && s.hi - s.lo + 1 >= minWidth && Sum(col, s.lo, s.hi + 1) >= minInk
  }

  function Digits(col: seq<nat>, minWidth: int, minInk: int, runs: seq<Span>): seq<Span>
  {
    if runs == [] then [] else
    var last := runs[|runs| - 1];
    Digits(col, minWidth, minInk, runs[..|runs| - 1]) + if Digit(col, minWidth, minInk, last) then [last] else []
  }

  /** `_segment_digits`: the one segmentation of the columns, less its specks. */
  method SegmentDigits(col: seq<nat>, minGap: nat, minWidth: int, minInk: int) returns (digits: seq<Span>)
    ensures exists runs :: Segmentation(col, minGap, runs) && digits == Digits(col, minWidth, minInk, runs)
  {
    var runs := Segment(col, minGap);
    digits := [];
    for i := 0 to |runs|
      invariant digits == Digits(col, minWidth, minInk, runs[..i])
    {
      assert runs[..i + 1][..i] == runs[..i];
      if Digit(col, minWidth, minInk, runs[i]) {
        digits := digits + [runs[i]];
      }
    }
    assert runs[..|runs|] == runs;
  }

  // ----- which runs are digits -----

  /** The ink of some columns. */
  function Total(col: seq<nat>): nat { if col == [] then 0 else col[0] + Total(col[1..]) }

  lemma {:induction false} TotalGrows(col: seq<nat>, last: nat)
    ensures Total(col + [last]) == Total(col) + last
  {
    if col != [] {
      assert (col + [last])[1..] == col[1..] + [last];
      TotalGrows(col[1..], last);
    }
  }

  lemma {:induction false} SumIsTotal(col: seq<nat>, lo: nat, hi: nat)
    requires lo <= hi <= |col|
    ensures Sum(col, lo, hi) == Total(col[lo..hi])
  {
    if lo < hi {
      SumIsTotal(col, lo, hi - 1);
      TotalGrows(col[lo..hi - 1], col[hi - 1]);
      assert col[lo..hi] == col[lo..hi - 1] + [col[hi - 1]];
    }
  }

  /** At least `minWidth` columns wide and holding at least `minInk` ink. */
  predicate Substantial(col: seq<nat>, minWidth: int, minInk: int, s: Span)
  {
    s.lo <= s.hi < |col| && s.hi + 1 - s.lo >= minWidth && Total(col[s.lo..s.hi + 1]) >= minInk
  }

  lemma {:induction false} DigitsAre(col: seq<nat>, minWidth: int, minInk: int, runs: seq<Span>, s: Span)
    ensures s in Digits(col, minWidth, minInk, runs) <==> s in runs && Substantial(col, minWidth, minInk, s)
  {
    if runs != [] {
      var front, last := runs[..|runs| - 1], runs[|runs| - 1];
      DigitsAre(col, minWidth, minInk, front, s);
      SubstantialIsDigit(col, minWidth, minInk, last);
      assert runs == front + [last];
    }
  }

  lemma SubstantialIsDigit(col: seq<nat>, minWidth: int, minInk: int, s: Span)
    ensures Digit(col, minWidth, minInk, s) <==> Substantial(col, minWidth, minInk, s)
  {
    if s.lo <= s.hi < |col| { SumIsTotal(col, s.lo, s.hi + 1); }
  }

  ghost predicate Ascending(runs: seq<Span>) { forall i, j :: 0 <= i < j < |runs| ==> runs[i].hi < runs[j].lo }

  lemma {:induction false} DigitsAscend(col: seq<nat>, minWidth: int, minInk: int, runs: seq<Span>)
    requires Ascending(runs)
    ensures Ascending(Digits(col, minWidth, minInk, runs))
  {
    if runs != [] {
      var front, last := runs[..|runs| - 1], runs[|runs| - 1];
      var ds := Digits(col, minWidth, minInk, front);
      DigitsAscend(col, minWidth, minInk, front);
      forall i | 0 <= i < |ds|
        ensures ds[i].hi < last.lo
      {
        DigitsAre(col, minWidth, minInk, front, ds[i]);
        var j :| 0 <= j < |front| && front[j] == ds[i];
        assert runs[j].hi < runs[|runs| - 1].lo;
      }
    }
  }

  /** The digits are exactly the substantial runs of the segmentation, each once, from left to right. */
  lemma DigitsExactly(col: seq<nat>, minGap: nat, minWidth: int, minInk: int, runs: seq<Span>)
    requires Segmentation(col, minGap, runs)
    ensures var ds := Digits(col, minWidth, minInk, runs);
      Ascending(ds) && forall s :: s in ds <==> s in runs && Substantial(col, minWidth, minInk, s)
  {
    forall i, j | 0 <= i < j < |runs|
      ensures runs[i].hi < runs[j].lo
    {
      InOrder(col, minGap, runs, i, j);
    }
    DigitsAscend(col, minWidth, minInk, runs);
    forall s
      ensures s in Digits(col, minWidth, minInk, runs) <==> s in runs && Substantial(col, minWidth, minInk, s)
    {
      DigitsAre(col, minWidth, minInk, runs, s);
    }
  }
}

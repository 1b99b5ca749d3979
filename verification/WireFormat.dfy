/** The perf-log wire format byte by byte, and the parser against it: what it yields, what it drops and
  * what it counts is decided by the bytes alone. */
module WireFormat {
  import opened Bytes
  import opened Wrappers
  import opened Fletcher
  import opened Framing
  import opened FramingTheorems

  /** The four start bytes. */
  predicate SofHere(b: seq<Byte>) { |b| >= 4 && b[0] == 0x55 && b[1] == 0x4D && b[2] == 0x52 && b[3] == 0x56 }

  /** The length field, low byte first. */
  function Announced(b: seq<Byte>): nat
    requires |b| >= 6
  {
    var lo: int, hi: int := b[4], b[5];
    lo + 256 * hi
  }

  /** The check field of a record of `n` payload bytes, low byte first. */
  function Carried(b: seq<Byte>, n: nat): nat
    requires |b| >= n + 8
  {
    var lo: int, hi: int := b[6 + n], b[7 + n];
    lo + 256 * hi
  }

  /** `b` begins with a whole record of `n` payload bytes. */
  ghost predicate StartsFrame(b: seq<Byte>, n: nat)
  {
    && 16 <= n <= 65028 && n + 8 <= |b|
    && SofHere(b) && Announced(b) == n && Carried(b, n) == Checksum(b[4..6 + n])
  }

  predicate LengthWrong(b: seq<Byte>) { |b| >= 6 && SofHere(b) && !(16 <= Announced(b) <= 65028) }

  predicate SumWrong(b: seq<Byte>)
  {
    |b| >= 6 && SofHere(b) && 16 <= Announced(b) <= 65028 && Announced(b) + 8 <= |b| &&
    Carried(b, Announced(b)) != Checksum(b[4..6 + Announced(b)])
  }

  // ----- encoder -----

  /** `frame_encode`, byte by byte. */
  lemma EncodedBytes(payload: seq<Byte>)
    requires |payload| <= 0xFFFF
    ensures FrameEncode(payload).Ok?
    ensures var n, e := |payload|, FrameEncode(payload).value;
      && |e| == n + 8 && SofHere(e) && Announced(e) == n && e[6..6 + n] == payload
      && Carried(e, n) == Checksum(e[4..6 + n])
  {
    var n, e := |payload|, Encoded(payload);
    assert e[4..6 + n] == LittleEndian(n) + payload;
    assert e[6..6 + n] == payload;
  }

  // ----- parser: one record -----

  /** What the parser makes of a buffer that begins with the start bytes. */
  lemma JudgedExactly(b: seq<Byte>)
    requires SofHere(b)
    ensures SofAt(b, 0)
    ensures Judge(b) == Good <==> exists n: nat :: StartsFrame(b, n)
    ensures Judge(b) == BadLength <==> LengthWrong(b)
    ensures Judge(b) == BadFcs <==> SumWrong(b)
    ensures |b| >= 6 ==> LengthField(b) == Announced(b)
  {
    if Judge(b) == Good {
      assert StartsFrame(b, Announced(b));
    }
  }

  /** A record at the head of the buffer is yielded, and nothing else is yielded from there. */
  lemma HeadYields(p: Parser)
    requires SofHere(p.buf)
    ensures (exists n: nat :: StartsFrame(p.buf, n)) <==>
              Drain(p).1 != [] && Drain(p).1[0].skippedBefore == p.skipped
    ensures forall n: nat :: StartsFrame(p.buf, n) ==>
              Drain(p).1 != [] && Drain(p).1[0] == Frame(p.buf[6..6 + n], p.skipped, p.buf[..n + 8])
  {
    JudgedExactly(p.buf);
    DrainAtSof(p);
    match Judge(p.buf)
    case Good => SettleGood(p);
    case NeedMore => SettleWaits(p);
    case _ =>
      SettleBad(p);
      SkipsNeverShrink(StepPast(p));
  }

  /** The first frame counts at least the bytes already skipped. */
  lemma {:induction false} SkipsNeverShrink(p: Parser)
    ensures Drain(p).1 != [] ==> Drain(p).1[0].skippedBefore >= p.skipped
    decreases |p.buf|
  {
    var i := Find(p.buf, 0);
    if i >= 0 {
      var s := Skip(p, i);
      match Judge(s.buf)
      case Good => SettleGood(s);
      case NeedMore => SettleWaits(s);
      case _ =>
        SettleBad(s);
        SkipsNeverShrink(StepPast(s));
    }
  }

  // ----- parser: the whole stream -----

  /** Whatever follows, no record begins at `s[j]`. */
  ghost predicate NoStart(s: seq<Byte>, j: nat)
    requires j <= |s|
  {
    forall more: seq<Byte>, n: nat :: !StartsFrame(s[j..] + more, n)
  }

  ghost predicate NoneStart(s: seq<Byte>, a: int, b: int)
  {
    forall j: nat | a <= j < b && j <= |s| :: NoStart(s, j)
  }

  /** The bytes of `s` outside the frames `fs`, the first gap starting at `gap`, are bytes at which no
    * record can begin. */
  ghost predicate GapsBarren(s: seq<Byte>, gap: int, fs: seq<Frame>, q: Parser)
    decreases |fs|
  {
    if fs == [] then NoneStart(s, gap, gap + q.skipped)
    else
      var at := gap + fs[0].skippedBefore;
      NoneStart(s, gap, at) && GapsBarren(s, at + |fs[0].framed|, fs[1..], q)
  }

  lemma BadNeverStarts(s: seq<Byte>)
    requires (!SofHere(s) && |s| >= 4) || LengthWrong(s) || SumWrong(s)
    ensures NoStart(s, 0)
  {
    forall more: seq<Byte>, n: nat
      ensures !StartsFrame(s[0..] + more, n)
    {
      assert s[0..] == s;
      if SumWrong(s) {
        var length := Announced(s);
        assert (s + more)[4..6 + length] == s[4..6 + length];
      }
    }
  }

  lemma StartShifts(s: seq<Byte>, k: nat, j: nat)
    requires k <= j <= |s|
    ensures NoStart(s, j) <==> NoStart(s[k..], j - k)
  {
    assert s[k..][j - k..] == s[j..];
  }

  lemma NoneBefore(s: seq<Byte>, k: nat, a: int, b: int)
    requires k <= |s| && NoneStart(s, a, k) && NoneStart(s[k..], a - k, b - k)
    ensures NoneStart(s, a, b)
  {
    forall j: nat | a <= j < b && j <= |s|
      ensures NoStart(s, j)
    {
      if j >= k { StartShifts(s, k, j); }
    }
  }

  /** Barren gaps of a suffix are barren gaps of the stream if the bytes before it are. */
  lemma {:induction false} GapsShift(s: seq<Byte>, k: nat, gap: int, fs: seq<Frame>, q: Parser)
    requires k <= |s| && NoneStart(s, gap, k) && GapsBarren(s[k..], gap - k, fs, q)
    ensures GapsBarren(s, gap, fs, q)
    decreases |fs|
  {
    if fs == [] {
      NoneBefore(s, k, gap, gap + q.skipped);
    } else {
      var at := gap + fs[0].skippedBefore;
      NoneBefore(s, k, gap, at);
      GapsShift(s, k, at + |fs[0].framed|, fs[1..], q);
    }
  }

  ghost predicate Barren(p: Parser)
  {
    GapsBarren(p.buf, 0 - p.skipped, Drain(p).1, Drain(p).0)
  }

  lemma NoSofBarren(p: Parser, i: nat)
    requires i + 3 <= |p.buf| && forall j: nat | j < i :: !SofAt(p.buf, j)
    ensures NoneStart(p.buf, 0 - p.skipped, i)
  {
    forall j: nat | j < i
      ensures NoStart(p.buf, j)
    {
      assert SofHere(p.buf[j..]) == SofAt(p.buf, j);
      BadNeverStarts(p.buf[j..]);
      StartShifts(p.buf, j, j);
    }
  }

  lemma HeadThenTail(s: Parser)
    requires SofAt(s.buf, 0) && Judge(s.buf) == Good
    ensures var f := HeadFrame(s);
      |f.framed| <= |s.buf| && ConsumeFrame(s).buf == s.buf[|f.framed|..] && f.skippedBefore == s.skipped
  {
  }

  lemma GoodBarren(s: Parser, q: Parser, fs: seq<Frame>)
    requires SofAt(s.buf, 0) && Judge(s.buf) == Good && GapsBarren(ConsumeFrame(s).buf, 0, fs, q)
    ensures GapsBarren(s.buf, 0 - s.skipped, [HeadFrame(s)] + fs, q)
  {
    HeadThenTail(s);
    FrameInFront(s.buf, HeadFrame(s), fs, q);
  }

  lemma FrameInFront(b: seq<Byte>, f: Frame, fs: seq<Frame>, q: Parser)
    requires |f.framed| <= |b| && GapsBarren(b[|f.framed|..], 0, fs, q)
    ensures GapsBarren(b, 0 - f.skippedBefore, [f] + fs, q)
  {
    var k := |f.framed|;
    GapsShift(b, k, k, fs, q);
    assert ([f] + fs)[1..] == fs;
  }

  lemma BadBarren(s: Parser, q: Parser, fs: seq<Frame>)
    requires SofAt(s.buf, 0) && (Judge(s.buf) == BadLength || Judge(s.buf) == BadFcs)
    requires GapsBarren(StepPast(s).buf, 0 - StepPast(s).skipped, fs, q)
    ensures GapsBarren(s.buf, 0 - s.skipped, fs, q)
  {
    JudgedExactly(s.buf);
    BadNeverStarts(s.buf);
    ByteInFront(s.buf, s.skipped, fs, q);
  }

  lemma ByteInFront(b: seq<Byte>, skipped: nat, fs: seq<Frame>, q: Parser)
    requires b != [] && NoStart(b, 0) && GapsBarren(b[1..], 0 - (skipped + 1), fs, q)
    ensures GapsBarren(b, 0 - skipped, fs, q)
  {
    GapsShift(b, 1, 0 - skipped, fs, q);
  }

  lemma JunkInFront(b: seq<Byte>, i: nat, skipped: nat, fs: seq<Frame>, q: Parser)
    requires i <= |b| && NoneStart(b, 0 - skipped, i)
    requires GapsBarren(if i == 0 then b else b[i..], 0 - (skipped + i), fs, q)
    ensures GapsBarren(b, 0 - skipped, fs, q)
  {
    if i > 0 { GapsShift(b, i, 0 - skipped, fs, q); }
  }

  lemma SkipBarren(p: Parser, i: nat)
    requires SofAt(p.buf, i) && (forall j: nat | j < i :: !SofAt(p.buf, j)) && Barren(Skip(p, i))
    ensures Barren(p)
  {
    DrainSkips(p, i);
    NoSofBarren(p, i);
    JunkInFront(p.buf, i, p.skipped, Drain(p).1, Drain(p).0);
  }

  lemma {:induction false} SofBarren(s: Parser)
    requires SofAt(s.buf, 0)
    ensures Barren(s)
    decreases |s.buf|, 0
  {
    match Judge(s.buf) {
      case NeedMore =>
        DrainAtSof(s);
        SettleWaits(s);
      case Good =>
        AllBarren(ConsumeFrame(s));
        DrainAtSof(s);
        SettleGood(s);
        GoodBarren(s, Drain(ConsumeFrame(s)).0, Drain(ConsumeFrame(s)).1);
      case _ =>
        AllBarren(StepPast(s));
        DrainAtSof(s);
        SettleBad(s);
        BadBarren(s, Drain(s).0, Drain(s).1);
    }
  }

  /** No record is missed: no continuation of the stream makes a record begin at a dropped byte. */
  lemma {:induction false} AllBarren(p: Parser)
    ensures Barren(p)
    decreases |p.buf|, 1
  {
    var i := Find(p.buf, 0);
    if i >= 0 {
      SofBarren(Skip(p, i));
      SkipBarren(p, i);
    } else if |p.buf| > 3 {
      NoSofBarren(p, |p.buf| - 3);
    }
  }

  /** The whole stream in any chunks: what is dropped never was and never becomes a record. */
  lemma NothingMissed(chunks: seq<seq<Byte>>)
    ensures var (q, fs) := FeedAll(START, chunks); GapsBarren(Concat(chunks), 0, fs, q)
  {
    NothingToFind([]);
    ChunkingIrrelevant(START, chunks);
    var stream := Concat(chunks);
    if stream != [] {
      assert START.buf + stream == stream;
      AllBarren(START.(buf := stream));
    }
  }

  // ----- what stays behind, and the counters -----

  /** Too little to decide on: no start bytes' length, or a record not all there yet. */
  predicate Waiting(b: seq<Byte>)
  {
    |b| <= 3 || (SofHere(b) && (|b| < 6 || (16 <= Announced(b) <= 65028 && |b| < Announced(b) + 8)))
  }

  lemma {:induction false} LeftoverWaits(p: Parser)
    ensures Waiting(Drain(p).0.buf)
    decreases |p.buf|
  {
    var i := Find(p.buf, 0);
    if i >= 0 {
      var s := Skip(p, i);
      assert SofHere(s.buf);
      JudgedExactly(s.buf);
      match Judge(s.buf)
      case Good =>
        SettleGood(s);
        LeftoverWaits(ConsumeFrame(s));
      case NeedMore => SettleWaits(s);
      case _ =>
        SettleBad(s);
        LeftoverWaits(StepPast(s));
    }
  }

  datatype Fault = OfLength | OfSum

  predicate Faulty(fault: Fault, b: seq<Byte>) { if fault == OfLength then LengthWrong(b) else SumWrong(b) }

  /** How many of the bytes from `a` up to `b` begin a record with this fault. */
  function Tally(fault: Fault, s: seq<Byte>, a: int, b: int): nat
    decreases b - a
  {
    if b <= a then 0
    else Tally(fault, s, a, b - 1) + if 0 <= b - 1 <= |s| && Faulty(fault, s[b - 1..]) then 1 else 0
  }

  /** The same over all bytes outside the frames. */
  function GapTally(fault: Fault, s: seq<Byte>, gap: int, fs: seq<Frame>, q: Parser): nat
    decreases |fs|
  {
    if fs == [] then Tally(fault, s, gap, gap + q.skipped)
    else
      var at := gap + fs[0].skippedBefore;
      Tally(fault, s, gap, at) + GapTally(fault, s, at + |fs[0].framed|, fs[1..], q)
  }

  lemma {:induction false} TallySplits(fault: Fault, s: seq<Byte>, k: nat, a: int, b: int)
    requires k <= |s| && k <= b
    ensures Tally(fault, s, a, b) == Tally(fault, s, a, k) + Tally(fault, s[k..], a - k, b - k)
    decreases b - a
  {
    if b <= a {
    } else if b == k {
      NegativesFree(fault, s[k..], a - k);
    } else {
      TallySplits(fault, s, k, a, b - 1);
      if b - 1 <= |s| { assert s[k..][b - 1 - k..] == s[b - 1..]; }
    }
  }

  lemma {:induction false} NegativesFree(fault: Fault, s: seq<Byte>, a: int)
    ensures forall b: int | b <= 0 :: Tally(fault, s, a, b) == 0
  {
    forall b: int | b <= 0
      ensures Tally(fault, s, a, b) == 0
    {
      NegativeFree(fault, s, a, b);
    }
  }

  lemma {:induction false} NegativeFree(fault: Fault, s: seq<Byte>, a: int, b: int)
    requires b <= 0
    ensures Tally(fault, s, a, b) == 0
    decreases b - a
  {
    if b > a { NegativeFree(fault, s, a, b - 1); }
  }

  /** Tallies over `s` are those up to `k` plus those over `t`, which begins there. */
  ghost predicate Splits(fault: Fault, s: seq<Byte>, t: seq<Byte>, k: nat)
  {
    forall a: int, b: int | k <= b :: Tally(fault, s, a, b) == Tally(fault, s, a, k) + Tally(fault, t, a - k, b - k)
  }

  lemma SuffixSplits(fault: Fault, s: seq<Byte>, k: nat)
    requires k <= |s|
    ensures Splits(fault, s, s[k..], k)
  {
    forall a: int, b: int | k <= b
      ensures Tally(fault, s, a, b) == Tally(fault, s, a, k) + Tally(fault, s[k..], a - k, b - k)
    {
      TallySplits(fault, s, k, a, b);
    }
  }

  lemma {:induction false} GapTallyShifts(fault: Fault, s: seq<Byte>, t: seq<Byte>, k: nat, gap: int, fs: seq<Frame>, q: Parser)
    requires Splits(fault, s, t, k) && Accounts(t, gap - k, fs, q)
    ensures GapTally(fault, s, gap, fs, q) == Tally(fault, s, gap, k) + GapTally(fault, t, gap - k, fs, q)
    decreases |fs|
  {
    if fs != [] {
      var next := gap + fs[0].skippedBefore + |fs[0].framed|;
      GapTallyShifts(fault, s, t, k, next, fs[1..], q);
      NothingToTally(fault, s, next, k);
    }
  }

  lemma RestTally(fault: Fault, s: seq<Byte>, t: seq<Byte>, k: nat, gap: int, rest: int, fs: seq<Frame>, q: Parser)
    requires k <= |s| && t == s[k..] && rest == gap - k && Accounts(t, rest, fs, q)
    ensures GapTally(fault, s, gap, fs, q) == Tally(fault, s, gap, k) + GapTally(fault, t, rest, fs, q)
  {
    SuffixSplits(fault, s, k);
    GapTallyShifts(fault, s, t, k, gap, fs, q);
  }

  lemma NothingToTally(fault: Fault, s: seq<Byte>, a: int, b: int)
    requires b <= a
    ensures Tally(fault, s, a, b) == 0
  {
  }

  /** Both error counters of `q` are those before plus the tallies of its gaps. */
  ghost predicate Counted(before: Parser, q: Parser, fs: seq<Frame>)
  {
    && q.lengthBad == before.lengthBad + GapTally(OfLength, before.buf, 0 - before.skipped, fs, q)
    && q.fcsBad == before.fcsBad + GapTally(OfSum, before.buf, 0 - before.skipped, fs, q)
  }

  lemma {:induction false} NoSofNoFault(fault: Fault, b: seq<Byte>, a: int, n: int)
    requires n <= |b| && forall j: nat | j < n :: !SofAt(b, j)
    ensures Tally(fault, b, a, n) == 0
    decreases n - a
  {
    if n > a {
      NoSofNoFault(fault, b, a, n - 1);
      if n >= 1 { assert SofHere(b[n - 1..]) == SofAt(b, n - 1); }
    }
  }

  lemma JunkCounted(p: Parser, i: nat, fs: seq<Frame>, q: Parser)
    requires i <= |p.buf| && Accounts(Skip(p, i).buf, 0 - Skip(p, i).skipped, fs, q) && Counted(Skip(p, i), q, fs)
    requires Tally(OfLength, p.buf, 0 - p.skipped, i) == 0 == Tally(OfSum, p.buf, 0 - p.skipped, i)
    ensures Counted(p, q, fs)
  {
    if i > 0 {
      JunkTally(OfLength, p, i, fs, q);
      JunkTally(OfSum, p, i, fs, q);
    }
  }

  lemma JunkTally(fault: Fault, p: Parser, i: nat, fs: seq<Frame>, q: Parser)
    requires 0 < i <= |p.buf| && Accounts(p.buf[i..], 0 - (p.skipped + i), fs, q)
    requires Tally(fault, p.buf, 0 - p.skipped, i) == 0
    ensures GapTally(fault, p.buf, 0 - p.skipped, fs, q) == GapTally(fault, p.buf[i..], 0 - (p.skipped + i), fs, q)
  {
    RestTally(fault, p.buf, p.buf[i..], i, 0 - p.skipped, 0 - (p.skipped + i), fs, q);
  }

  lemma FrameCounted(s: Parser, fs: seq<Frame>, q: Parser)
    requires SofAt(s.buf, 0) && Judge(s.buf) == Good && Counted(ConsumeFrame(s), q, fs)
    requires Accounts(ConsumeFrame(s).buf, 0, fs, q)
    ensures Counted(s, q, [HeadFrame(s)] + fs)
  {
    HeadThenTail(s);
    FrameTally(OfLength, s.buf, HeadFrame(s), fs, q);
    FrameTally(OfSum, s.buf, HeadFrame(s), fs, q);
  }

  lemma FrameTally(fault: Fault, b: seq<Byte>, f: Frame, fs: seq<Frame>, q: Parser)
    requires |f.framed| <= |b| && Accounts(b[|f.framed|..], 0, fs, q)
    ensures GapTally(fault, b, 0 - f.skippedBefore, [f] + fs, q) == GapTally(fault, b[|f.framed|..], 0, fs, q)
  {
    var k := |f.framed|;
    assert ([f] + fs)[1..] == fs;
    NegativeFree(fault, b, 0 - f.skippedBefore, 0);
    RestTally(fault, b, b[k..], k, k, 0, fs, q);
    NothingToTally(fault, b, k, k);
  }

  lemma FirstByteTally(fault: Fault, b: seq<Byte>, a: int)
    requires b != [] && a <= 0
    ensures Tally(fault, b, a, 1) == if Faulty(fault, b) then 1 else 0
  {
    NegativeFree(fault, b, a, 0);
    assert b[0..] == b;
  }

  lemma FaultCounted(s: Parser, fs: seq<Frame>, q: Parser)
    requires SofAt(s.buf, 0) && (Judge(s.buf) == BadLength || Judge(s.buf) == BadFcs)
    requires Accounts(StepPast(s).buf, 0 - StepPast(s).skipped, fs, q) && Counted(StepPast(s), q, fs)
    ensures Counted(s, q, fs)
  {
    JudgedExactly(s.buf);
    FirstByteTally(OfLength, s.buf, 0 - s.skipped);
    FirstByteTally(OfSum, s.buf, 0 - s.skipped);
    RestTally(OfLength, s.buf, StepPast(s).buf, 1, 0 - s.skipped, 0 - StepPast(s).skipped, fs, q);
    RestTally(OfSum, s.buf, StepPast(s).buf, 1, 0 - s.skipped, 0 - StepPast(s).skipped, fs, q);
  }

  lemma WaitCounted(s: Parser)
    ensures Counted(s, s, [])
  {
    NegativeFree(OfLength, s.buf, 0 - s.skipped, 0);
    NegativeFree(OfSum, s.buf, 0 - s.skipped, 0);
  }

  lemma GoodCounted(s: Parser, r: (Parser, seq<Frame>))
    requires SofAt(s.buf, 0) && Judge(s.buf) == Good && r == Drain(ConsumeFrame(s)) && Counted(ConsumeFrame(s), r.0, r.1)
    ensures Counted(s, Drain(s).0, Drain(s).1)
  {
    assert Accounts(ConsumeFrame(s).buf, 0, r.1, r.0) by { Conservation(ConsumeFrame(s)); }
    FrameCounted(s, r.1, r.0);
    assert Drain(s) == (r.0, [HeadFrame(s)] + r.1) by {
      DrainAtSof(s);
      SettleGood(s);
    }
  }

  lemma BadCounted(s: Parser, r: (Parser, seq<Frame>))
    requires SofAt(s.buf, 0) && (Judge(s.buf) == BadLength || Judge(s.buf) == BadFcs)
    requires r == Drain(StepPast(s)) && Counted(StepPast(s), r.0, r.1)
    ensures Counted(s, Drain(s).0, Drain(s).1)
  {
    Conservation(StepPast(s));
    FaultCounted(s, r.1, r.0);
    DrainAtSof(s);
    SettleBad(s);
  }

  lemma {:induction false} SofCounted(s: Parser)
    requires SofAt(s.buf, 0)
    ensures Counted(s, Drain(s).0, Drain(s).1)
    decreases |s.buf|, 0
  {
    match Judge(s.buf)
    case NeedMore =>
      DrainAtSof(s);
      SettleWaits(s);
      WaitCounted(s);
    case Good =>
      AllCounted(ConsumeFrame(s));
      GoodCounted(s, Drain(ConsumeFrame(s)));
    case _ =>
      AllCounted(StepPast(s));
      BadCounted(s, Drain(StepPast(s)));
  }

  lemma NoSofCounted(p: Parser)
    requires Find(p.buf, 0) < 0
    ensures Counted(p, Skip(p, NoSofDrop(|p.buf|)), [])
  {
    var n := NoSofDrop(|p.buf|);
    NoSofNoFault(OfLength, p.buf, 0 - p.skipped, n);
    NoSofNoFault(OfSum, p.buf, 0 - p.skipped, n);
  }

  lemma SkippedCounted(p: Parser, i: nat, r: (Parser, seq<Frame>))
    requires SofAt(p.buf, i) && (forall j: nat | j < i :: !SofAt(p.buf, j))
    requires r == Drain(Skip(p, i)) && Counted(Skip(p, i), r.0, r.1)
    ensures Counted(p, Drain(p).0, Drain(p).1)
  {
    assert Drain(p) == r by { DrainSkips(p, i); }
    assert Accounts(Skip(p, i).buf, 0 - Skip(p, i).skipped, r.1, r.0) by { Conservation(Skip(p, i)); }
    NoSofNoFault(OfLength, p.buf, 0 - p.skipped, i);
    NoSofNoFault(OfSum, p.buf, 0 - p.skipped, i);
    JunkCounted(p, i, r.1, r.0);
  }

  /** The error counters count exactly the dropped bytes at which a record with a bad length, or a whole
    * record with a bad checksum, begins. */
  lemma {:induction false} AllCounted(p: Parser)
    ensures Counted(p, Drain(p).0, Drain(p).1)
    decreases |p.buf|, 1
  {
    var i := Find(p.buf, 0);
    if i < 0 {
      NoSofCounted(p);
    } else {
      SofCounted(Skip(p, i));
      SkippedCounted(p, i, Drain(Skip(p, i)));
    }
  }

  /** The same for a whole stream in any chunks. */
  lemma ErrorsCounted(chunks: seq<seq<Byte>>)
    ensures var (q, fs) := FeedAll(START, chunks);
            q.lengthBad == GapTally(OfLength, Concat(chunks), 0, fs, q) &&
            q.fcsBad == GapTally(OfSum, Concat(chunks), 0, fs, q)
  {
    NothingToFind([]);
    ChunkingIrrelevant(START, chunks);
    var stream := Concat(chunks);
    if stream != [] {
      assert START.buf + stream == stream;
      AllCounted(START.(buf := stream));
    }
  }
}

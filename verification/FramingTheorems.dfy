/** What the framer promises about every byte stream: the way it is cut into chunks does
  * not matter, no byte is lost track of, and encoded payloads come back. */
module FramingTheorems {
  import opened Bytes
  import opened Wrappers
  import opened Fletcher
  import opened Framing

  // ----- chunk independence -----

  function Append(p: Parser, c: seq<Byte>): Parser { p.(buf := p.buf + c) }

  lemma FindIsFirst(buf: seq<Byte>, i: nat)
    requires SofAt(buf, i) && forall j: nat | j < i :: !SofAt(buf, j)
    ensures Find(buf, 0) == i
  {
  }

  lemma NothingToFind(buf: seq<Byte>)
    requires forall j: nat :: !SofAt(buf, j)
    ensures Find(buf, 0) < 0
  {
  }

  lemma FindShifted(buf: seq<Byte>, k: nat)
    requires k <= |buf| && forall j: nat | j < k :: !SofAt(buf, j)
    ensures if Find(buf, 0) < 0 then Find(buf[k..], 0) < 0 else Find(buf[k..], 0) == Find(buf, 0) - k
  {
    var i, tail := Find(buf, 0), buf[k..];
    assert forall j: nat | j + k + 4 <= |buf| :: SofAt(tail, j) == SofAt(buf, j + k);
    if i >= 0 {
      FindIsFirst(tail, i - k);
    } else {
      NothingToFind(tail);
    }
  }

  /** Bytes that start no SOF may be dropped early: draining later gives the same result. */
  lemma DropEarly(p: Parser, k: nat)
    requires k <= |p.buf| && forall j: nat | j < k :: !SofAt(p.buf, j)
    requires Find(p.buf, 0) < 0 ==> k <= NoSofDrop(|p.buf|)
    ensures Drain(p) == Drain(Skip(p, k))
  {
    var i, q := Find(p.buf, 0), Skip(p, k);
    if k > 0 {
      FindShifted(p.buf, k);
      if i >= 0 {
        SkipTwice(p, k, i - k);
        assert Find(q.buf, 0) == i - k;
      } else {
        SkipTwice(p, k, NoSofDrop(|p.buf|) - k);
        assert NoSofDrop(|q.buf|) == NoSofDrop(|p.buf|) - k;
      }
    }
  }

  lemma SkipTwice(p: Parser, a: nat, b: nat)
    requires a + b <= |p.buf|
    ensures Skip(Skip(p, a), b) == Skip(p, a + b)
  {
    assert p.buf[a..][b..] == p.buf[a + b..];
  }

  lemma SkipAppend(p: Parser, k: nat, c: seq<Byte>)
    requires k <= |p.buf|
    ensures Skip(Append(p, c), k) == Append(Skip(p, k), c)
  {
    assert (p.buf + c)[k..] == p.buf[k..] + c;
  }

  /** A verdict other than "need more" does not depend on later bytes. */
  lemma JudgeAppend(buf: seq<Byte>, c: seq<Byte>)
    requires Judge(buf) != NeedMore
    ensures Judge(buf + c) == Judge(buf) && LengthField(buf + c) == LengthField(buf)
  {
    var n := LengthField(buf);
    if Judge(buf) != BadLength {
      assert (buf + c)[4..6 + n] == buf[4..6 + n];
    }
  }

  lemma ConsumeAppend(p: Parser, c: seq<Byte>)
    requires Judge(p.buf) == Good
    ensures Judge(p.buf + c) == Good
    ensures ConsumeFrame(Append(p, c)) == Append(ConsumeFrame(p), c)
    ensures HeadFrame(Append(p, c)) == HeadFrame(p)
  {
    JudgeAppend(p.buf, c);
    var n := LengthField(p.buf);
    assert (p.buf + c)[6 + n + 2..] == p.buf[6 + n + 2..] + c;
    assert (p.buf + c)[6..6 + n] == p.buf[6..6 + n];
    assert (p.buf + c)[..6 + n + 2] == p.buf[..6 + n + 2];
  }

  lemma StepPastAppend(p: Parser, c: seq<Byte>)
    requires Judge(p.buf) == BadLength || Judge(p.buf) == BadFcs
    ensures Judge(p.buf + c) == Judge(p.buf) && StepPast(Append(p, c)) == Append(StepPast(p), c)
  {
    JudgeAppend(p.buf, c);
    SkipAppend(p, 1, c);
  }

  /** Draining, then appending and draining again, is draining the appended buffer. */
  ghost predicate TwoParts(p: Parser, c: seq<Byte>)
  {
    var (q, fs) := Drain(p);
    var (r, gs) := Drain(Append(q, c));
    Drain(Append(p, c)) == (r, fs + gs)
  }

  lemma DrainAtSof(s: Parser)
    requires SofAt(s.buf, 0)
    ensures Drain(s) == Settle(s)
  {
    FindIsFirst(s.buf, 0);
    SkipNothing(s);
  }

  lemma SkipNothing(s: Parser)
    ensures Skip(s, 0) == s
  {
    assert s.buf[0..] == s.buf;
  }

  lemma SettleGood(s: Parser)
    requires SofAt(s.buf, 0) && Judge(s.buf) == Good
    ensures var (q, fs) := Drain(ConsumeFrame(s)); Settle(s) == (q, [HeadFrame(s)] + fs)
  {
  }

  lemma SettleBad(s: Parser)
    requires SofAt(s.buf, 0) && (Judge(s.buf) == BadLength || Judge(s.buf) == BadFcs)
    ensures Settle(s) == Drain(StepPast(s))
  {
  }

  lemma SettleWaits(s: Parser)
    requires SofAt(s.buf, 0) && Judge(s.buf) == NeedMore
    ensures Settle(s) == (s, [])
  {
  }

  lemma AppendKeepsSof(s: Parser, c: seq<Byte>)
    requires SofAt(s.buf, 0)
    ensures SofAt(Append(s, c).buf, 0)
  {
  }

  /** A frame in front of what two parts make of the rest. */
  lemma FrameInFront(h: Frame, hs: seq<Frame>, gs: seq<Frame>)
    ensures [h] + (hs + gs) == ([h] + hs) + gs
  {
  }

  lemma GoodInTwoParts(s: Parser, c: seq<Byte>)
    requires SofAt(s.buf, 0) && Judge(s.buf) == Good && TwoParts(ConsumeFrame(s), c)
    ensures TwoParts(s, c)
  {
    var sc, next := Append(s, c), ConsumeFrame(s);
    ConsumeAppend(s, c);
    AppendKeepsSof(s, c);
    DrainAtSof(s);
    DrainAtSof(sc);
    SettleGood(s);
    SettleGood(sc);
    FrameInFront(HeadFrame(s), Drain(next).1, Drain(Append(Drain(next).0, c)).1);
  }

  lemma BadInTwoParts(s: Parser, c: seq<Byte>)
    requires SofAt(s.buf, 0) && (Judge(s.buf) == BadLength || Judge(s.buf) == BadFcs) && TwoParts(StepPast(s), c)
    ensures TwoParts(s, c)
  {
    var sc := Append(s, c);
    StepPastAppend(s, c);
    AppendKeepsSof(s, c);
    DrainAtSof(s);
    DrainAtSof(sc);
    SettleBad(s);
    SettleBad(sc);
  }

  lemma NothingInFront(gs: seq<Frame>)
    ensures [] + gs == gs
  {
  }

  lemma WaitInTwoParts(s: Parser, c: seq<Byte>)
    requires SofAt(s.buf, 0) && Judge(s.buf) == NeedMore
    ensures TwoParts(s, c)
  {
    DrainAtSof(s);
    SettleWaits(s);
    NothingInFront(Drain(Append(s, c)).1);
  }

  lemma {:induction false} SofInTwoParts(s: Parser, c: seq<Byte>)
    requires SofAt(s.buf, 0)
    ensures TwoParts(s, c)
    decreases |s.buf|, 0
  {
    match Judge(s.buf) {
      case NeedMore =>
        WaitInTwoParts(s, c);
      case Good =>
        DrainInTwoParts(ConsumeFrame(s), c);
        GoodInTwoParts(s, c);
      case _ =>
        DrainInTwoParts(StepPast(s), c);
        BadInTwoParts(s, c);
    }
  }

  lemma DrainSkips(p: Parser, i: nat)
    requires SofAt(p.buf, i) && forall j: nat | j < i :: !SofAt(p.buf, j)
    ensures Drain(p) == Drain(Skip(p, i)) && SofAt(Skip(p, i).buf, 0)
  {
    FindIsFirst(p.buf, i);
    DrainAtSof(Skip(p, i));
  }

  lemma SkipInTwoParts(p: Parser, i: nat, c: seq<Byte>)
    requires SofAt(p.buf, i) && (forall j: nat | j < i :: !SofAt(p.buf, j)) && TwoParts(Skip(p, i), c)
    ensures TwoParts(p, c)
  {
    var pc := Append(p, c);
    forall j: nat | j <= i
      ensures SofAt(pc.buf, j) == SofAt(p.buf, j)
    {
    }
    DrainSkips(p, i);
    DrainSkips(pc, i);
    SkipAppend(p, i, c);
  }

  lemma NoSofInTwoParts(p: Parser, c: seq<Byte>)
    requires Find(p.buf, 0) < 0
    ensures TwoParts(p, c)
  {
    var pc, k := Append(p, c), NoSofDrop(|p.buf|);
    forall j: nat | j + 4 <= |p.buf|
      ensures !SofAt(pc.buf, j)
    {
      assert SofAt(pc.buf, j) == SofAt(p.buf, j);
    }
    DropEarly(pc, k);
    SkipAppend(p, k, c);
    NothingInFront(Drain(Append(Skip(p, k), c)).1);
  }

  lemma {:induction false} DrainInTwoParts(p: Parser, c: seq<Byte>)
    ensures TwoParts(p, c)
    decreases |p.buf|
  {
    var i := Find(p.buf, 0);
    if i < 0 {
      NoSofInTwoParts(p, c);
    } else {
      DrainSkips(p, i);
      SofInTwoParts(Skip(p, i), c);
      SkipInTwoParts(p, i, c);
    }
  }

  /** A parser between chunks: draining it yields nothing and changes nothing. */
  ghost predicate Drained(p: Parser) { Drain(p) == (p, []) }

  lemma {:induction false} DrainSettles(p: Parser)
    ensures Drained(Drain(p).0)
    decreases |p.buf|
  {
    var i := Find(p.buf, 0);
    if i < 0 {
      var q := Drain(p).0;
      assert forall j: nat | j + 4 <= |q.buf| :: SofAt(q.buf, j) == SofAt(p.buf, j + NoSofDrop(|p.buf|));
      NothingToFind(q.buf);
    } else {
      var s := Skip(p, i);
      match Judge(s.buf) {
        case NeedMore => FindIsFirst(s.buf, 0);
        case Good => DrainSettles(ConsumeFrame(s));
        case _ => DrainSettles(StepPast(s));
      }
    }
  }

  lemma FeedSettles(p: Parser, c: seq<Byte>)
    requires Drained(p)
    ensures Drained(Feed(p, c).0)
  {
    if c != [] { DrainSettles(Append(p, c)); }
  }

  lemma FeedTwice(p: Parser, c: seq<Byte>, d: seq<Byte>)
    requires Drained(p)
    ensures var (q, fs) := Feed(p, c);
            var (r, gs) := Feed(q, d);
            Feed(p, c + d) == (r, fs + gs)
  {
    if c != [] && d != [] {
      FeedTwoChunks(p, c, d);
    } else {
      assert c == [] ==> c + d == d;
      assert d == [] ==> c + d == c;
      NoFrames(Feed(p, c).1);
      NoFrames(Feed(Feed(p, c).0, d).1);
    }
  }

  lemma NoFrames(fs: seq<Frame>)
    ensures fs + [] == fs && [] + fs == fs
  {
  }

  lemma FeedTwoChunks(p: Parser, c: seq<Byte>, d: seq<Byte>)
    requires c != [] && d != []
    ensures var (q, fs) := Feed(p, c);
            var (r, gs) := Feed(q, d);
            Feed(p, c + d) == (r, fs + gs)
  {
    DrainInTwoParts(Append(p, c), d);
    assert (p.buf + c) + d == p.buf + (c + d);
    assert Append(Append(p, c), d) == Append(p, c + d);
  }

  /** However a byte stream is cut into chunks, the frames, their skip counts, the counters
    * and the bytes left over are those of feeding it whole. */
  lemma {:induction false} ChunkingIrrelevant(p: Parser, chunks: seq<seq<Byte>>)
    requires Drained(p)
    ensures FeedAll(p, chunks) == Feed(p, Concat(chunks))
    decreases |chunks|
  {
    if chunks != [] {
      var (q, fs) := Feed(p, chunks[0]);
      FeedSettles(p, chunks[0]);
      ChunkingIrrelevant(q, chunks[1..]);
      FeedTwice(p, chunks[0], Concat(chunks[1..]));
    }
  }

  /** Two ways of cutting the same stream are indistinguishable. */
  lemma AnyTwoChunkings(a: seq<seq<Byte>>, b: seq<seq<Byte>>)
    requires Concat(a) == Concat(b)
    ensures FeedAll(START, a) == FeedAll(START, b)
  {
    NothingToFind([]);
    ChunkingIrrelevant(START, a);
    ChunkingIrrelevant(START, b);
  }

  // ----- conservation -----

  /** `part` is what `s` holds from `at` on. */
  ghost predicate Occurs(part: seq<Byte>, s: seq<Byte>, at: int)
  {
    0 <= at && at + |part| <= |s| && forall j | 0 <= j < |part| :: s[at + j] == part[j]
  }

  /** The frames lie in the stream `s` in order without overlap: each one `skippedBefore`
    * bytes after the end of the previous (the first: after `gap`, which is negative when
    * bytes had been dropped before `s`), and `q` holds the rest of `s`. */
  ghost predicate Accounts(s: seq<Byte>, gap: int, fs: seq<Frame>, q: Parser)
    decreases |fs|
  {
    if fs == [] then
      Occurs(q.buf, s, gap + q.skipped) && gap + q.skipped + |q.buf| == |s|
    else
      var at := gap + fs[0].skippedBefore;
      Occurs(fs[0].framed, s, at) && Accounts(s, at + |fs[0].framed|, fs[1..], q)
  }

  lemma {:induction false} AccountsShift(s: seq<Byte>, t: seq<Byte>, k: nat, gap: int, fs: seq<Frame>, q: Parser)
    requires k + |t| == |s| && Occurs(t, s, k) && Accounts(t, gap - k, fs, q)
    ensures Accounts(s, gap, fs, q)
    decreases |fs|
  {
    if fs == [] {
      OccursShift(s, t, k, q.buf, gap + q.skipped);
    } else {
      var at := gap + fs[0].skippedBefore;
      OccursShift(s, t, k, fs[0].framed, at);
      AccountsShift(s, t, k, at + |fs[0].framed|, fs[1..], q);
    }
  }

  lemma OccursShift(s: seq<Byte>, t: seq<Byte>, k: nat, part: seq<Byte>, at: int)
    requires k + |t| == |s| && Occurs(t, s, k) && Occurs(part, t, at - k)
    ensures Occurs(part, s, at)
  {
    forall j | 0 <= j < |part|
      ensures s[at + j] == part[j]
    {
      assert s[k + (at - k + j)] == t[at - k + j];
    }
  }

  lemma AccountsAfterSkip(p: Parser, i: nat, fs: seq<Frame>, q: Parser)
    requires i <= |p.buf| && Accounts(Skip(p, i).buf, 0 - Skip(p, i).skipped, fs, q)
    ensures Accounts(p.buf, 0 - p.skipped, fs, q)
  {
    SkipOccurs(p, i);
    AccountsShift(p.buf, Skip(p, i).buf, i, 0 - p.skipped, fs, q);
  }

  lemma SkipOccurs(p: Parser, k: nat)
    requires k <= |p.buf|
    ensures Occurs(Skip(p, k).buf, p.buf, k) && k + |Skip(p, k).buf| == |p.buf|
    ensures Skip(p, k).skipped == p.skipped + k
  {
  }

  lemma AccountsAfterFrame(s: Parser, fs: seq<Frame>, q: Parser)
    requires SofAt(s.buf, 0) && Judge(s.buf) == Good
    requires Accounts(ConsumeFrame(s).buf, 0, fs, q)
    ensures Accounts(s.buf, 0 - s.skipped, [HeadFrame(s)] + fs, q)
  {
    var total := 6 + LengthField(s.buf) + 2;
    AccountsShift(s.buf, ConsumeFrame(s).buf, total, total, fs, q);
    assert ([HeadFrame(s)] + fs)[1..] == fs;
  }

  ghost predicate Conserves(p: Parser)
  {
    var (q, fs) := Drain(p);
    Accounts(p.buf, 0 - p.skipped, fs, q)
  }

  lemma NothingElse(p: Parser, k: nat)
    requires k <= |p.buf|
    ensures Accounts(p.buf, 0 - p.skipped, [], Skip(p, k))
  {
    SkipOccurs(p, k);
  }

  lemma WaitConserves(s: Parser)
    requires SofAt(s.buf, 0) && Judge(s.buf) == NeedMore
    ensures Conserves(s)
  {
    DrainAtSof(s);
    SettleWaits(s);
    SkipNothing(s);
    NothingElse(s, 0);
  }

  lemma GoodConserves(s: Parser)
    requires SofAt(s.buf, 0) && Judge(s.buf) == Good && Conserves(ConsumeFrame(s))
    ensures Conserves(s)
  {
    DrainAtSof(s);
    SettleGood(s);
    AccountsAfterFrame(s, Drain(ConsumeFrame(s)).1, Drain(ConsumeFrame(s)).0);
  }

  lemma BadConserves(s: Parser)
    requires SofAt(s.buf, 0) && (Judge(s.buf) == BadLength || Judge(s.buf) == BadFcs) && Conserves(StepPast(s))
    ensures Conserves(s)
  {
    DrainAtSof(s);
    SettleBad(s);
    AccountsAfterStep(s, Drain(StepPast(s)).1, Drain(StepPast(s)).0);
  }

  lemma AccountsAfterStep(s: Parser, fs: seq<Frame>, q: Parser)
    requires Judge(s.buf) == BadLength || Judge(s.buf) == BadFcs
    requires Accounts(StepPast(s).buf, 0 - StepPast(s).skipped, fs, q)
    ensures Accounts(s.buf, 0 - s.skipped, fs, q)
  {
    StepOccurs(s);
    AccountsShift(s.buf, StepPast(s).buf, 1, 0 - s.skipped, fs, q);
  }

  lemma StepOccurs(s: Parser)
    requires Judge(s.buf) == BadLength || Judge(s.buf) == BadFcs
    ensures Occurs(StepPast(s).buf, s.buf, 1) && 1 + |StepPast(s).buf| == |s.buf| && StepPast(s).skipped == s.skipped + 1
  {
  }

  lemma SkipConserves(p: Parser, i: nat)
    requires SofAt(p.buf, i) && (forall j: nat | j < i :: !SofAt(p.buf, j)) && Conserves(Skip(p, i))
    ensures Conserves(p)
  {
    DrainSkips(p, i);
    AccountsAfterSkip(p, i, Drain(Skip(p, i)).1, Drain(Skip(p, i)).0);
  }

  lemma {:induction false} SofConserves(s: Parser)
    requires SofAt(s.buf, 0)
    ensures Conserves(s)
    decreases |s.buf|, 0
  {
    match Judge(s.buf) {
      case NeedMore =>
        WaitConserves(s);
      case Good =>
        AllConserve(ConsumeFrame(s));
        GoodConserves(s);
      case _ =>
        AllConserve(StepPast(s));
        BadConserves(s);
    }
  }

  lemma {:induction false} AllConserve(p: Parser)
    ensures Conserves(p)
    decreases |p.buf|, 1
  {
    var i := Find(p.buf, 0);
    if i < 0 {
      NothingElse(p, NoSofDrop(|p.buf|));
    } else {
      SofConserves(Skip(p, i));
      SkipConserves(p, i);
    }
  }

  /** Every byte of the stream is inside exactly one frame, counted as skipped, or still buffered. */
  lemma Conservation(p: Parser)
    ensures var (q, fs) := Drain(p);
            Accounts(p.buf, 0 - p.skipped, fs, q)
  {
    AllConserve(p);
  }

  function FramedBytes(fs: seq<Frame>): nat
  {
    if fs == [] then 0 else |fs[0].framed| + FramedBytes(fs[1..])
  }

  /** Bytes in == bytes yielded + bytes dropped + bytes still buffered. */
  lemma {:induction false} BytesConserved(p: Parser)
    ensures var (q, fs) := Drain(p);
            p.dropped + |p.buf| == q.dropped + FramedBytes(fs) + |q.buf| &&
            q.framesOk == p.framesOk + |fs|
    decreases |p.buf|
  {
    var i := Find(p.buf, 0);
    if i >= 0 {
      var s := Skip(p, i);
      match Judge(s.buf) {
        case NeedMore =>
        case Good => BytesConserved(ConsumeFrame(s));
        case _ => BytesConserved(StepPast(s));
      }
    }
  }

  /** The whole stream, however chunked: frames in place, and every byte accounted for. */
  lemma StreamAccounted(chunks: seq<seq<Byte>>)
    ensures var (q, fs) := FeedAll(START, chunks);
            Accounts(Concat(chunks), 0, fs, q) &&
            |Concat(chunks)| == q.dropped + FramedBytes(fs) + |q.buf| && q.framesOk == |fs|
  {
    NothingToFind([]);
    ChunkingIrrelevant(START, chunks);
    var stream := Concat(chunks);
    var p := START.(buf := stream);
    if stream != [] {
      assert START.buf + stream == stream;
      Conservation(p);
      BytesConserved(p);
    }
  }

  // ----- round trip -----

  predicate Parsable(payload: seq<Byte>) { MIN_PAYLOAD <= |payload| <= MAX_RECORD_BYTES }

  lemma GoodLength(buf: seq<Byte>)
    requires SofAt(buf, 0) && Judge(buf) == Good
    ensures var n := LengthField(buf);
      MIN_PAYLOAD <= n <= MAX_RECORD_BYTES && 6 + n + 2 <= |buf| && buf[4..6] == LittleEndian(n)
      && buf[6 + n..6 + n + 2] == LittleEndian(Checksum(buf[4..6 + n]))
  {
  }

  lemma HeadIsEncoded(p: Parser)
    requires SofAt(p.buf, 0) && Judge(p.buf) == Good
    ensures Parsable(HeadFrame(p).payload) && HeadFrame(p).framed == Encoded(HeadFrame(p).payload)
  {
    var buf, n := p.buf, LengthField(p.buf);
    GoodLength(buf);
    Assembled(buf, n);
  }

  /** The parts of a framed record put together again. */
  lemma Assembled(buf: seq<Byte>, n: nat)
    requires n < 0x10000 && 6 + n + 2 <= |buf| && SofAt(buf, 0) && buf[4..6] == LittleEndian(n)
    requires buf[6 + n..6 + n + 2] == LittleEndian(Checksum(buf[4..6 + n]))
    ensures buf[..6 + n + 2] == Encoded(buf[6..6 + n])
  {
    assert buf[..4] == SOF;
    assert buf[4..6 + n] == buf[4..6] + buf[6..6 + n];
    assert buf[..6 + n + 2] == buf[..4] + buf[4..6] + buf[6..6 + n] + buf[6 + n..6 + n + 2];
  }

  /** Every yielded frame is the encoding of its payload, which has a parsable length. */
  lemma {:induction false} FramesReEncode(p: Parser)
    ensures forall f | f in Drain(p).1 :: Parsable(f.payload) && f.framed == Encoded(f.payload)
    decreases |p.buf|
  {
    var i := Find(p.buf, 0);
    if i >= 0 {
      var s := Skip(p, i);
      match Judge(s.buf) {
        case NeedMore =>
        case Good =>
          FramesReEncode(ConsumeFrame(s));
          HeadIsEncoded(s);
        case _ => FramesReEncode(StepPast(s));
      }
    }
  }

  ghost predicate SofFree(junk: seq<Byte>) { forall j: nat :: !SofAt(junk, j) }

  /** SOF has no border, so junk in front of a frame cannot complete an earlier SOF. */
  lemma SofAfterJunk(junk: seq<Byte>, rest: seq<Byte>)
    requires SofFree(junk) && SofAt(rest, 0)
    ensures Find(junk + rest, 0) == |junk|
  {
    var buf := junk + rest;
    forall j: nat | j < |junk|
      ensures !SofAt(buf, j)
    {
      if j + 4 <= |junk| {
        assert SofAt(buf, j) == SofAt(junk, j);
      }
    }
    FindIsFirst(buf, |junk|);
  }

  lemma EncodedJudgedGood(p: Parser, payload: seq<Byte>, rest: seq<Byte>)
    requires Parsable(payload) && p.buf == Encoded(payload) + rest
    ensures SofAt(p.buf, 0) && Judge(p.buf) == Good
    ensures HeadFrame(p) == Frame(payload, p.skipped, Encoded(payload))
    ensures ConsumeFrame(p) == p.(buf := rest, skipped := 0, framesOk := p.framesOk + 1)
  {
    var buf, n := p.buf, |payload|;
    assert LengthField(buf) == n;
    assert buf[6..6 + n] == payload;
    assert buf[4..6 + n] == LittleEndian(n) + payload;
    assert buf[..6 + n + 2] == Encoded(payload);
    assert buf[6 + n + 2..] == rest;
  }

  function PastFrame(p: Parser, rest: seq<Byte>): Parser
  {
    p.(buf := rest, skipped := 0, framesOk := p.framesOk + 1)
  }

  function PastJunk(p: Parser, junk: seq<Byte>, tail: seq<Byte>): Parser
  {
    p.(buf := tail, skipped := p.skipped + |junk|, dropped := p.dropped + |junk|)
  }

  datatype Item = Item(junk: seq<Byte>, payload: seq<Byte>)

  lemma JunkThenSof(p: Parser, junk: seq<Byte>, tail: seq<Byte>)
    requires SofFree(junk) && SofAt(tail, 0) && p.buf == junk + tail
    ensures Drain(p) == Settle(PastJunk(p, junk, tail))
  {
    SofAfterJunk(junk, tail);
    SkipJunk(p, junk, tail);
  }

  lemma FrameThenRest(s: Parser, payload: seq<Byte>, rest: seq<Byte>)
    requires Parsable(payload) && s.buf == Encoded(payload) + rest
    ensures SofAt(s.buf, 0)
    ensures var (q, fs) := Drain(PastFrame(s, rest)); Settle(s) == (q, [Frame(payload, s.skipped, Encoded(payload))] + fs)
  {
    EncodedJudgedGood(s, payload, rest);
    SettleGood(s);
  }

  /** One item of the wire in front of what the rest of it yields. */
  lemma ItemInFront(p: Parser, item: Item, rest: seq<Byte>, more: seq<Frame>)
    requires SofFree(item.junk) && Parsable(item.payload) && p.buf == item.junk + (Encoded(item.payload) + rest)
    requires Drain(PastFrame(PastJunk(p, item.junk, rest), rest)).1 == more
    ensures Drain(p).1 == [Frame(item.payload, p.skipped + |item.junk|, Encoded(item.payload))] + more
  {
    var tail := Encoded(item.payload) + rest;
    FrameAfterJunk(p, item, rest, tail, more);
    JunkThenSof(p, item.junk, tail);
  }

  lemma FrameAfterJunk(p: Parser, item: Item, rest: seq<Byte>, tail: seq<Byte>, more: seq<Frame>)
    requires Parsable(item.payload) && tail == Encoded(item.payload) + rest
    requires Drain(PastFrame(PastJunk(p, item.junk, rest), rest)).1 == more
    ensures SofAt(tail, 0)
    ensures Settle(PastJunk(p, item.junk, tail)).1 == [Frame(item.payload, p.skipped + |item.junk|, Encoded(item.payload))] + more
  {
    FrameThenRest(PastJunk(p, item.junk, tail), item.payload, rest);
    JunkThenFrame(p, item.junk, tail, rest);
  }

  lemma JunkThenFrame(p: Parser, junk: seq<Byte>, tail: seq<Byte>, rest: seq<Byte>)
    ensures PastFrame(PastJunk(p, junk, tail), rest) == PastFrame(PastJunk(p, junk, rest), rest)
  {
  }

  lemma SkipJunk(p: Parser, junk: seq<Byte>, tail: seq<Byte>)
    requires p.buf == junk + tail
    ensures Skip(p, |junk|) == p.(buf := tail, skipped := p.skipped + |junk|, dropped := p.dropped + |junk|)
  {
    assert |junk| > 0 ==> p.buf[|junk|..] == tail;
    assert junk == [] ==> p.buf == tail;
  }

  ghost predicate ItemsOk(items: seq<Item>)
  {
    forall i | 0 <= i < |items| :: SofFree(items[i].junk) && Parsable(items[i].payload)
  }

  /** A wire stream: junk, what `frame_encode` makes of a payload, junk, ..., trailing junk. */
  function Wire(items: seq<Item>, trailing: seq<Byte>): seq<Byte>
    requires forall i | 0 <= i < |items| :: FrameEncode(items[i].payload).Ok?
  {
    if items == [] then trailing
    else items[0].junk + (FrameEncode(items[0].payload).value + Wire(items[1..], trailing))
  }

  function Expected(items: seq<Item>, skipped: nat): seq<Frame>
    requires forall i | 0 <= i < |items| :: |items[i].payload| < 0x10000
  {
    if items == [] then []
    else [Frame(items[0].payload, skipped + |items[0].junk|, Encoded(items[0].payload))] + Expected(items[1..], 0)
  }

  lemma WireStarts(items: seq<Item>, trailing: seq<Byte>)
    requires ItemsOk(items) && items != []
    ensures Wire(items, trailing) == items[0].junk + (Encoded(items[0].payload) + Wire(items[1..], trailing))
  {
  }

  lemma ExpectedStarts(items: seq<Item>, skipped: nat)
    requires ItemsOk(items) && items != []
    ensures Expected(items, skipped) ==
              [Frame(items[0].payload, skipped + |items[0].junk|, Encoded(items[0].payload))] + Expected(items[1..], 0)
  {
  }

  lemma {:induction false} DrainWire(p: Parser, items: seq<Item>, trailing: seq<Byte>)
    requires ItemsOk(items) && SofFree(trailing) && p.buf == Wire(items, trailing)
    ensures Drain(p).1 == Expected(items, p.skipped)
    decreases |items|
  {
    if items == [] {
      NothingToFind(p.buf);
    } else {
      var item, later := items[0], items[1..];
      var rest := Wire(later, trailing);
      WireStarts(items, trailing);
      ExpectedStarts(items, p.skipped);
      DrainWire(PastFrame(PastJunk(p, item.junk, rest), rest), later, trailing);
      ItemInFront(p, item, rest, Expected(later, 0));
    }
  }

  /** Round trip: payloads of parsable length separated by SOF-free junk come back exactly,
    * in order, each with the length of its junk, however the wire is cut into chunks. */
  lemma RoundTrip(items: seq<Item>, trailing: seq<Byte>, chunks: seq<seq<Byte>>)
    requires ItemsOk(items) && SofFree(trailing) && Concat(chunks) == Wire(items, trailing)
    ensures FeedAll(START, chunks).1 == Expected(items, 0)
  {
    NothingToFind([]);
    ChunkingIrrelevant(START, chunks);
    var wire := Wire(items, trailing);
    if wire != [] {
      assert START.buf + wire == wire;
      DrainWire(START.(buf := wire), items, trailing);
    }
  }

  lemma ParsableAlone(p: Parser, payload: seq<Byte>)
    requires Parsable(payload) && p == START.(buf := Encoded(payload))
    ensures Drain(p).1 == [Frame(payload, 0, Encoded(payload))]
  {
    assert p.buf == Encoded(payload) + [];
    EncodedJudgedGood(p, payload, []);
    FindIsFirst(p.buf, 0);
    NothingToFind([]);
    assert Drain(ConsumeFrame(p)).1 == [];
    assert Drain(p) == Settle(p);
  }

  /** The parser never yields more than it was fed, nor a payload of unparsable length. */
  lemma UnparsableAlone(p: Parser, payload: seq<Byte>)
    requires |payload| <= 0xFFFF && p == START.(buf := Encoded(payload)) && !Parsable(payload)
    ensures Drain(p).1 != [Frame(payload, 0, Encoded(payload))]
    ensures |payload| < MIN_PAYLOAD ==> Drain(p).1 == []
  {
    FramesReEncode(p);
    BytesConserved(p);
    var fs := Drain(p).1;
    if fs != [] {
      assert fs[0] in fs;
      assert |fs[0].framed| == |fs[0].payload| + 8;
    }
  }

  /** A lone encoded payload comes back exactly when its length is 16..65028: the encoder
    * also accepts shorter and longer ones, which the parser never yields. */
  lemma LoneFrame(payload: seq<Byte>)
    requires FrameEncode(payload).Ok?
    ensures var wire := FrameEncode(payload).value;
      && (Feed(START, wire).1 == [Frame(payload, 0, wire)] <==> Parsable(payload))
      && (|payload| < MIN_PAYLOAD ==> Feed(START, wire).1 == [])
  {
    var wire := Encoded(payload);
    var p := START.(buf := wire);
    assert START.buf + wire == p.buf;
    if Parsable(payload) {
      ParsableAlone(p, payload);
    } else {
      UnparsableAlone(p, payload);
    }
  }
}

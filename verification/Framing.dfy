/** The perf-log framer (framing.py): SOF(4) | LEN(u16 LE) | PAYLOAD | FCS(u16 LE). */
module Framing {
  import opened Bytes
  import opened Wrappers
  import opened Fletcher

  const SOF: seq<Byte> := [0x55, 0x4D, 0x52, 0x56]
  const MIN_PAYLOAD := 16
  const MAX_RECORD_BYTES := 65028

  // ----- encoder -----

  datatype EncodeError = PayloadTooLarge

  function LittleEndian(x: nat): (r: seq<Byte>)
    requires x < 0x10000
    ensures |r| == 2
  {
    [x % 256, x / 256]
  }

  function Word16(lo: nat, hi: nat): nat { lo + 256 * hi }

  function Encoded(payload: seq<Byte>): seq<Byte>
    requires |payload| < 0x10000
  {
    SOF + LittleEndian(|payload|) + payload + LittleEndian(Checksum(LittleEndian(|payload|) + payload))
  }

  /** `frame_encode`. */
  function FrameEncode(payload: seq<Byte>): (r: Result<seq<Byte>, EncodeError>)
    ensures r.Ok? <==> |payload| <= 0xFFFF
    ensures r.Ok? ==> |r.value| == |payload| + 8
  {
    if |payload| > 0xFFFF then Err(PayloadTooLarge) else Ok(Encoded(payload))
  }

  // ----- parser -----

  datatype Frame = Frame(payload: seq<Byte>, skippedBefore: nat, framed: seq<Byte>)

  /** `iter_frames`' locals and its FrameStats. */
  datatype Parser = Parser(buf: seq<Byte>, skipped: nat, framesOk: nat, dropped: nat, fcsBad: nat, lengthBad: nat)

  const START := Parser([], 0, 0, 0, 0, 0)

  predicate SofAt(buf: seq<Byte>, i: nat)
  {
    i + 4 <= |buf| && buf[i] == SOF[0] && buf[i + 1] == SOF[1] && buf[i + 2] == SOF[2] && buf[i + 3] == SOF[3]
  }

  /** `buf.find(SOF_BYTES)` from index `from`: the first occurrence, or -1. */
  function Find(buf: seq<Byte>, from: nat): (r: int)
    ensures r < 0 ==> forall i: nat | from <= i :: !SofAt(buf, i)
    ensures r >= 0 ==> from <= r && SofAt(buf, r) && forall i: nat | from <= i < r :: !SofAt(buf, i)
    decreases |buf| - from
  {
    if from + 4 > |buf| then -1
    else if SofAt(buf, from) then from
    else Find(buf, from + 1)
  }

  /** Drops `k` bytes as resync loss. */
  function Skip(p: Parser, k: nat): Parser
    requires k <= |p.buf|
  {
    if k == 0 then p else p.(buf := p.buf[k..], skipped := p.skipped + k, dropped := p.dropped + k)
  }

  datatype Judgement = NeedMore | BadLength | BadFcs | Good

  function LengthField(buf: seq<Byte>): nat
    requires |buf| >= 6
  {
    Word16(buf[4], buf[5])
  }

  /** The verdict on a buffer that starts with SOF. */
  function Judge(buf: seq<Byte>): Judgement
  {
    if |buf| < 6 then NeedMore else
    var length := LengthField(buf);
    if length < MIN_PAYLOAD || length > MAX_RECORD_BYTES then BadLength else
    if |buf| < 6 + length + 2 then NeedMore else
    if Word16(buf[6 + length], buf[6 + length + 1]) != Checksum(buf[4..6 + length]) then BadFcs else Good
  }

  /** The good frame at the head of the buffer. */
  function HeadFrame(p: Parser): Frame
    requires Judge(p.buf) == Good
  {
    var length := LengthField(p.buf);
    Frame(p.buf[6..6 + length], p.skipped, p.buf[..6 + length + 2])
  }

  function ConsumeFrame(p: Parser): Parser
    requires Judge(p.buf) == Good
  {
    p.(buf := p.buf[6 + LengthField(p.buf) + 2..], skipped := 0, framesOk := p.framesOk + 1)
  }

  function StepPast(p: Parser): Parser
    requires Judge(p.buf) == BadLength || Judge(p.buf) == BadFcs
  {
    var q := Skip(p, 1);
    if Judge(p.buf) == BadLength then q.(lengthBad := q.lengthBad + 1) else q.(fcsBad := q.fcsBad + 1)
  }

  /** Everything but the last three bytes of a buffer without SOF. */
  function NoSofDrop(n: nat): nat { if n > 3 then n - 3 else 0 }

  /** The inner loop, run until it needs more input. */
  function Drain(p: Parser): (Parser, seq<Frame>)
    decreases |p.buf|
  {
    var i := Find(p.buf, 0);
    if i < 0 then (Skip(p, NoSofDrop(|p.buf|)), []) else
    Settle(Skip(p, i))
  }

  /** The inner loop from a buffer that starts with SOF. */
  function Settle(p: Parser): (Parser, seq<Frame>)
    requires SofAt(p.buf, 0)
    decreases |p.buf|, 0
  {
    match Judge(p.buf)
    case NeedMore => (p, [])
    case Good =>
      var (q, fs) := Drain(ConsumeFrame(p));
      (q, [HeadFrame(p)] + fs)
    case _ => Drain(StepPast(p))
  }

  /** One chunk. */
  function Feed(p: Parser, chunk: seq<Byte>): (Parser, seq<Frame>)
  {
    if chunk == [] then (p, []) else Drain(p.(buf := p.buf + chunk))
  }

  function FeedAll(p: Parser, chunks: seq<seq<Byte>>): (Parser, seq<Frame>)
    decreases |chunks|
  {
    if chunks == [] then (p, []) else
    var (q, fs) := Feed(p, chunks[0]);
    var (r, gs) := FeedAll(q, chunks[1..]);
    (r, fs + gs)
  }

  function Concat(chunks: seq<seq<Byte>>): seq<Byte>
  {
    if chunks == [] then [] else chunks[0] + Concat(chunks[1..])
  }

  // ----- the generator as written -----

  lemma NoFramesYet(fs: seq<Frame>)
    ensures [] + fs == fs
  {
  }

  lemma NoFramesLeft(fs: seq<Frame>)
    ensures fs + [] == fs
  {
  }

  lemma FrameMoves(fs: seq<Frame>, f: Frame, rest: seq<Frame>)
    ensures fs + ([f] + rest) == (fs + [f]) + rest
  {
  }

  /** `iter_frames` with its loop-carried locals as fields; `Feed` is one round of the outer loop. */
  class FrameReader {
    var buf: seq<Byte>
    var skipped: nat
    var framesOk: nat
    var dropped: nat
    var fcsBad: nat
    var lengthBad: nat

    function Now(): Parser
      reads this
    {
      Parser(buf, skipped, framesOk, dropped, fcsBad, lengthBad)
    }

    constructor ()
      ensures Now() == START
    {
      buf, skipped, framesOk, dropped, fcsBad, lengthBad := [], 0, 0, 0, 0, 0;
    }

    method DropBytes(k: nat)
      requires k <= |buf|
      modifies this
      ensures Now() == Skip(old(Now()), k)
    {
      if k > 0 {
        skipped := skipped + k;
        dropped := dropped + k;
        buf := buf[k..];
      }
    }

    /** One pass of the inner `while True`: `more` is false where the source breaks out. */
    method Pass() returns (frame: Option<Frame>, more: bool)
      modifies this
      ensures more ==> |buf| < old(|buf|)
      ensures !more ==> frame == None && Drain(old(Now())) == (Now(), [])
      ensures more && frame == None ==> Drain(old(Now())) == Drain(Now())
      ensures more && frame.Some? ==> Drain(old(Now())) == (Drain(Now()).0, [frame.value] + Drain(Now()).1)
    {
      var sofIdx := Find(buf, 0);
      if sofIdx < 0 {
        if |buf| > 3 { DropBytes(|buf| - 3); }
        return None, false;
      }
      if sofIdx > 0 { DropBytes(sofIdx); }
      assert Drain(old(Now())) == Settle(Now());
      frame, more := PassAtSof();
    }

    /** The rest of the pass, from a buffer that starts with SOF. */
    method PassAtSof() returns (frame: Option<Frame>, more: bool)
      requires SofAt(buf, 0)
      modifies this
      ensures more ==> |buf| < old(|buf|)
      ensures !more ==> frame == None && Settle(old(Now())) == (Now(), [])
      ensures more && frame == None ==> Settle(old(Now())) == Drain(Now())
      ensures more && frame.Some? ==> Settle(old(Now())) == (Drain(Now()).0, [frame.value] + Drain(Now()).1)
    {
      if |buf| < 6 { return None, false; }
      var length := Word16(buf[4], buf[5]);
      if length < MIN_PAYLOAD || length > MAX_RECORD_BYTES {
        lengthBad := lengthBad + 1;
        DropBytes(1);
        return None, true;
      }
      var total := 6 + length + 2;
      if |buf| < total { return None, false; }
      var payload := buf[6..6 + length];
      var observed := Word16(buf[6 + length], buf[6 + length + 1]);
      var expected := Fletcher16(buf[4..6 + length], INIT);
      if observed != expected {
        fcsBad := fcsBad + 1;
        DropBytes(1);
        return None, true;
      }
      frame := TakeFrame(payload, total);
      more := true;
    }

    /** A checked frame leaves the buffer. */
    method TakeFrame(payload: seq<Byte>, total: nat) returns (frame: Option<Frame>)
      requires Judge(buf) == Good && payload == buf[6..6 + LengthField(buf)] && total == 6 + LengthField(buf) + 2
      modifies this`buf, this`framesOk, this`skipped
      ensures frame == Some(HeadFrame(old(Now()))) && Now() == ConsumeFrame(old(Now()))
    {
      frame := Some(Frame(payload, skipped, buf[..total]));
      buf := buf[total..];
      framesOk := framesOk + 1;
      skipped := 0;
    }

    /** One chunk, drained to the point where it needs more input. */
    method FeedChunk(chunk: seq<Byte>) returns (frames: seq<Frame>)
      modifies this
      ensures (Now(), frames) == Feed(old(Now()), chunk)
    {
      frames := [];
      if chunk == [] { return; }
      buf := buf + chunk;
      ghost var start, rest := Drain(Now()), Drain(Now()).1;
      NoFramesYet(rest);
      var more := true;
      while more
        invariant more ==> Drain(Now()) == (start.0, rest) && frames + rest == start.1
        invariant !more ==> start == (Now(), frames)
        decreases more, |buf|
      {
        var frame;
        frame, more := Pass();
        if frame.Some? {
          FrameMoves(frames, frame.value, Drain(Now()).1);
          frames := frames + [frame.value];
        } else if !more {
          NoFramesLeft(frames);
        }
        rest := Drain(Now()).1;
      }
    }
  }
}

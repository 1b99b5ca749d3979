/** The UART link to fauxmote (marvin_link.c, mf_proto.h): SOF | TYPE | LEN | payload | CRC-8,
  * parsed one byte at a time. */
module MarvinLink {
  import opened Wrappers

  const MF_SOF: bv8 := 0x7E
  const MF_MAX_PAYLOAD := 8

  // ----- CRC-8, polynomial 0x07 -----

  function CrcShift(crc: bv8): bv8
  {
    if crc & 0x80 != 0 then (crc << 1) ^ 0x07 else crc << 1
  }

  function CrcShifts(crc: bv8, n: nat): bv8
  {
    if n == 0 then crc else CrcShift(CrcShifts(crc, n - 1))
  }

  function CrcByte(crc: bv8, b: bv8, bits: nat): bv8 { CrcShifts(crc ^ b, bits) }

  function Crc(data: seq<bv8>, bits: nat): bv8
  {
    if data == [] then 0 else CrcByte(Crc(data[..|data| - 1], bits), data[|data| - 1], bits)
  }

  function Crc8(data: seq<bv8>): bv8 { Crc(data, 8) }

  /** `mf_crc8`. */
  method MfCrc8(data: seq<bv8>) returns (crc: bv8)
    ensures crc == Crc8(data)
  {
    crc := 0;
    for i := 0 to |data|
      invariant crc == Crc(data[..i], 8)
    {
      ghost var before := crc;
      assert data[..i + 1][..i] == data[..i];
      crc := crc ^ data[i];
      for b := 0 to 8
        invariant crc == CrcShifts(before ^ data[i], b)
      {
        crc := if crc & 0x80 != 0 then (crc << 1) ^ 0x07 else crc << 1;
      }
    }
    assert data[..|data|] == data;
  }

  lemma ShiftInjective(a: bv8, b: bv8)
    ensures CrcShift(a) == CrcShift(b) <==> a == b
  {
  }

  lemma {:induction false} ShiftsInjective(a: bv8, b: bv8, n: nat)
    ensures CrcShifts(a, n) == CrcShifts(b, n) <==> a == b
  {
    if n > 0 {
      ShiftsInjective(a, b, n - 1);
      ShiftInjective(CrcShifts(a, n - 1), CrcShifts(b, n - 1));
    }
  }

  lemma XorInjective(a: bv8, b: bv8, c: bv8)
    ensures a ^ c == b ^ c <==> a == b
    ensures c ^ a == c ^ b <==> a == b
  {
  }

  /** Each CRC step is injective both in the running value and in the byte. */
  lemma StepInjective(c: bv8, d: bv8, x: bv8, y: bv8, bits: nat)
    ensures CrcByte(c, x, bits) == CrcByte(d, x, bits) <==> c == d
    ensures CrcByte(c, x, bits) == CrcByte(c, y, bits) <==> x == y
  {
    ShiftsInjective(c ^ x, d ^ x, bits);
    ShiftsInjective(c ^ x, c ^ y, bits);
    XorInjective(c, d, x);
    XorInjective(x, y, c);
  }

  lemma {:induction false} OneByteSeenBy(data: seq<bv8>, i: nat, x: bv8, bits: nat)
    requires i < |data| && x != data[i]
    ensures Crc(data[i := x], bits) != Crc(data, bits)
  {
    var n := |data| - 1;
    var changed := data[i := x];
    if i < n {
      assert changed[..n] == data[..n][i := x];
      OneByteSeenBy(data[..n], i, x, bits);
      StepInjective(Crc(changed[..n], bits), Crc(data[..n], bits), data[n], data[n], bits);
    } else {
      assert changed[..n] == data[..n];
      StepInjective(Crc(data[..n], bits), Crc(data[..n], bits), x, data[n], bits);
    }
  }

  /** Changing one byte always changes the CRC. */
  lemma OneByteSeen(data: seq<bv8>, i: nat, x: bv8)
    requires i < |data| && x != data[i]
    ensures Crc8(data[i := x]) != Crc8(data)
  {
    OneByteSeenBy(data, i, x, 8);
  }

  // ----- sender -----

  /** A message as `mf_send` is given it. */
  datatype Message = Message(kind: bv8, payload: seq<bv8>)

  /** Types are nonzero, payloads at most 8 bytes. */
  predicate Sendable(m: Message) { m.kind != 0 && |m.payload| <= MF_MAX_PAYLOAD }

  /** Length bytes 0..8 and back; any larger byte is no length. */
  function LenByte(n: nat): bv8
    requires n <= MF_MAX_PAYLOAD
  {
    if n == 0 then 0 else if n == 1 then 1 else if n == 2 then 2 else if n == 3 then 3 else if n == 4 then 4
    else if n == 5 then 5 else if n == 6 then 6 else if n == 7 then 7 else 8
  }

  function LenOf(b: bv8): Option<nat>
  {
    if b == 0 then Some(0) else if b == 1 then Some(1) else if b == 2 then Some(2) else if b == 3 then Some(3)
    else if b == 4 then Some(4) else if b == 5 then Some(5) else if b == 6 then Some(6) else if b == 7 then Some(7)
    else if b == 8 then Some(8) else None
  }

  function Header(m: Message): seq<bv8>
    requires |m.payload| <= MF_MAX_PAYLOAD
  {
    [m.kind, LenByte(|m.payload|)]
  }

  /** The wire frame of a message. */
  function Frame(m: Message): seq<bv8>
    requires |m.payload| <= MF_MAX_PAYLOAD
  {
    [MF_SOF] + Header(m) + m.payload + [Crc8(Header(m) + m.payload)]
  }

  /** `mf_send`. */
  method MfSend(m: Message) returns (frame: seq<bv8>)
    requires |m.payload| <= MF_MAX_PAYLOAD
    ensures frame == Frame(m)
  {
    var hdr := [m.kind, LenByte(|m.payload|)];
    frame := [MF_SOF, m.kind, LenByte(|m.payload|)];
    for i := 0 to |m.payload|
      invariant frame == [MF_SOF] + Header(m) + m.payload[..i]
      invariant hdr == Header(m) + m.payload[..i]
    {
      assert m.payload[..i + 1] == m.payload[..i] + [m.payload[i]];
      frame := frame + [m.payload[i]];
      hdr := hdr + [m.payload[i]];
    }
    assert m.payload[..|m.payload|] == m.payload;
    var crc := MfCrc8(hdr);
    frame := frame + [crc];
  }

  // ----- parser -----

  datatype State = PSof | PType | PLen | PPayload | PCrc

  /** `parser_t`; `payload` is the 8-byte buffer. */
  datatype Parser = Parser(state: State, kind: bv8, len: nat, idx: nat, payload: seq<bv8>)

  predicate ParserOk(p: Parser)
  {
    |p.payload| == MF_MAX_PAYLOAD && p.len <= MF_MAX_PAYLOAD && (p.state == PPayload ==> p.idx < p.len) && (p.state == PCrc ==> p.idx == p.len)
  }

  /** `parse_byte`. */
  function ParseByte(p: Parser, b: bv8): (r: (Parser, Option<Message>))
    requires ParserOk(p)
    ensures ParserOk(r.0)
  {
    match p.state
    case PSof => (if b == MF_SOF then p.(state := PType) else p, None)
    case PType => (if b == 0 then p.(state := PSof) else p.(kind := b, state := PLen), None)
    case PLen =>
      if LenOf(b) == None then (p.(state := PSof), None)
      else (p.(len := LenOf(b).value, idx := 0, state := if b == 0 then PCrc else PPayload), None)
    case PPayload =>
      var q := p.(payload := p.payload[p.idx := b], idx := p.idx + 1);
      (if q.idx >= q.len then q.(state := PCrc) else q, None)
    case PCrc =>
      var m := Message(p.kind, p.payload[..p.len]);
      (p.(state := PSof), if Crc8(Header(m) + m.payload) == b then Some(m) else None)
  }

  class LinkParser {
    var state: State
    var kind: bv8
    var len: nat
    var idx: nat
    const payload: array<bv8>

    ghost function Now(): Parser
      reads this, payload
    {
      Parser(state, kind, len, idx, payload[..])
    }

    constructor ()
      ensures ParserOk(Now()) && state == PSof && fresh(payload)
    {
      state, kind, len, idx := PSof, 0, 0, 0;
      payload := new bv8[MF_MAX_PAYLOAD](_ => 0);
    }

    method Parse(b: bv8) returns (delivered: Option<Message>)
      requires ParserOk(Now())
      modifies this, payload
      ensures ParserOk(Now()) && (Now(), delivered) == ParseByte(old(Now()), b)
    {
      delivered := None;
      match state
      case PSof =>
        if b == MF_SOF { state := PType; }
      case PType =>
        if b == 0 { state := PSof; return; }
        kind := b;
        state := PLen;
      case PLen =>
        if b > 8 { state := PSof; return; }
        len := LenOf(b).value;
        idx := 0;
        state := if b == 0 then PCrc else PPayload;
      case PPayload =>
        payload[idx] := b;
        idx := idx + 1;
        if idx >= len { state := PCrc; }
      case PCrc =>
        var m := Message(kind, payload[..len]);
        state := PSof;
        var crc := MfCrc8([kind, LenByte(len)] + m.payload);
        if crc != b { return; }
        delivered := Some(m);
    }
  }

  function ParseAll(p: Parser, bytes: seq<bv8>): (r: (Parser, seq<Message>))
    requires ParserOk(p)
    ensures ParserOk(r.0)
  {
    if bytes == [] then (p, []) else ThenByte(ParseAll(p, bytes[..|bytes| - 1]), bytes[|bytes| - 1])
  }

  /** One more byte after a parser and what it has delivered so far. */
  function ThenByte(sofar: (Parser, seq<Message>), b: bv8): (r: (Parser, seq<Message>))
    requires ParserOk(sofar.0)
    ensures ParserOk(r.0)
  {
    var (p, m) := ParseByte(sofar.0, b);
    (p, if m.Some? then sofar.1 + [m.value] else sofar.1)
  }

  lemma ThenByteAfter(earlier: seq<Message>, sofar: (Parser, seq<Message>), b: bv8)
    requires ParserOk(sofar.0)
    ensures ThenByte((sofar.0, earlier + sofar.1), b) == (ThenByte(sofar, b).0, earlier + ThenByte(sofar, b).1)
  {
    var m := ParseByte(sofar.0, b).1;
    if m.Some? { assert earlier + sofar.1 + [m.value] == earlier + (sofar.1 + [m.value]); }
  }

  // ----- the link as a whole -----

  lemma ParseGrows(p: Parser, bytes: seq<bv8>, b: bv8, longer: seq<bv8>)
    requires ParserOk(p) && longer == bytes + [b]
    ensures ParseAll(p, longer) == ThenByte(ParseAll(p, bytes), b)
  {
    assert longer[..|longer| - 1] == bytes;
  }

  lemma PartsGrow(p: Parser, q: Parser, ms: seq<Message>, whole: seq<bv8>, part: seq<bv8>, b: bv8)
    requires ParserOk(p) && ParserOk(q)
    requires ParseAll(p, whole).0 == ParseAll(q, part).0 && ParseAll(p, whole).1 == ms + ParseAll(q, part).1
    ensures ParseAll(p, whole + [b]).0 == ParseAll(q, part + [b]).0
    ensures ParseAll(p, whole + [b]).1 == ms + ParseAll(q, part + [b]).1
  {
    ParseGrows(p, whole, b, whole + [b]);
    ParseGrows(q, part, b, part + [b]);
    ThenByteAfter(ms, ParseAll(q, part), b);
  }

  lemma {:induction false} ParseOnward(p: Parser, a: seq<bv8>, b: seq<bv8>, n: nat, part: seq<bv8>, whole: seq<bv8>)
    requires ParserOk(p) && n == |part| <= |b| && part == b[..n] && whole == a + part
    ensures ParseAll(p, whole).0 == ParseAll(ParseAll(p, a).0, part).0
    ensures ParseAll(p, whole).1 == ParseAll(p, a).1 + ParseAll(ParseAll(p, a).0, part).1
    decreases n
  {
    if n == 0 {
      assert whole == a;
    } else {
      var front, last := b[..n - 1], b[n - 1];
      ParseOnward(p, a, b, n - 1, front, a + front);
      PartsGrow(p, ParseAll(p, a).0, ParseAll(p, a).1, a + front, front, last);
      PartsMeet(a, b, n, part, whole);
    }
  }

  lemma PartsMeet(a: seq<bv8>, b: seq<bv8>, n: nat, part: seq<bv8>, whole: seq<bv8>)
    requires 0 < n <= |b| && part == b[..n] && whole == a + part
    ensures part == b[..n - 1] + [b[n - 1]] && whole == (a + b[..n - 1]) + [b[n - 1]]
  {
  }

  /** Parsing is compositional: bytes may arrive in any portions. */
  lemma ParseInParts(p: Parser, a: seq<bv8>, b: seq<bv8>)
    requires ParserOk(p)
    ensures ParseAll(p, a + b).0 == ParseAll(ParseAll(p, a).0, b).0
    ensures ParseAll(p, a + b).1 == ParseAll(p, a).1 + ParseAll(ParseAll(p, a).0, b).1
  {
    assert b[..|b|] == b;
    ParseOnward(p, a, b, |b|, b, a + b);
  }

  lemma {:induction false} NoiseIgnored(p: Parser, noise: seq<bv8>)
    requires ParserOk(p) && p.state == PSof && MF_SOF !in noise
    ensures ParseAll(p, noise) == (p, [])
  {
    if noise != [] {
      NoiseIgnored(p, noise[..|noise| - 1]);
    }
  }

  /** A frame carrying `m` with any CRC byte at all. */
  function Raw(m: Message, crc: bv8): seq<bv8>
    requires |m.payload| <= MF_MAX_PAYLOAD
  {
    [MF_SOF] + Header(m) + m.payload + [crc]
  }

  function Opening(m: Message, k: nat): seq<bv8>
    requires k <= |m.payload| <= MF_MAX_PAYLOAD
  {
    [MF_SOF] + Header(m) + m.payload[..k]
  }

  predicate MidFrame(p: Parser, m: Message, k: nat)
    requires k <= |m.payload| <= MF_MAX_PAYLOAD
  {
    && ParserOk(p)
    && p.state == (if k == |m.payload| then PCrc else PPayload)
    && p.kind == m.kind && p.len == |m.payload| && p.idx == k
    && forall j :: 0 <= j < k ==> p.payload[j] == m.payload[j]
  }

  lemma LenRoundTrip(n: nat)
    requires n <= MF_MAX_PAYLOAD
    ensures LenOf(LenByte(n)) == Some(n) && (LenByte(n) == 0 <==> n == 0)
  {
  }

  lemma {:induction false} HeaderParsed(p: Parser, m: Message)
    requires ParserOk(p) && p.state == PSof && Sendable(m)
    ensures MidFrame(ParseAll(p, Opening(m, 0)).0, m, 0) && ParseAll(p, Opening(m, 0)).1 == []
  {
    var b := LenByte(|m.payload|);
    LenRoundTrip(|m.payload|);
    var one, two, three := [MF_SOF], [MF_SOF, m.kind], [MF_SOF, m.kind, b];
    assert one[..|one| - 1] == [] && two[..|two| - 1] == one && three[..|three| - 1] == two;
    assert ParseAll(p, one) == (p.(state := PType), []);
    assert ParseAll(p, two) == (p.(kind := m.kind, state := PLen), []);
    assert Opening(m, 0) == [MF_SOF, m.kind, b];
  }

  lemma {:induction false} OpeningParsed(p: Parser, m: Message, k: nat)
    requires ParserOk(p) && p.state == PSof && Sendable(m) && k <= |m.payload|
    ensures MidFrame(ParseAll(p, Opening(m, k)).0, m, k) && ParseAll(p, Opening(m, k)).1 == []
  {
    if k == 0 {
      HeaderParsed(p, m);
    } else {
      OpeningParsed(p, m, k - 1);
      assert Opening(m, k)[..|Opening(m, k)| - 1] == Opening(m, k - 1);
    }
  }

  /** A whole frame is delivered exactly when its CRC byte is the one of its contents, and either
    * way the parser is back looking for a start byte. */
  lemma RawParsed(p: Parser, m: Message, crc: bv8)
    requires ParserOk(p) && p.state == PSof && Sendable(m)
    ensures ParseAll(p, Raw(m, crc)).0.state == PSof
    ensures ParseAll(p, Raw(m, crc)).1 == if crc == Crc8(Header(m) + m.payload) then [m] else []
  {
    var n := |m.payload|;
    OpeningParsed(p, m, n);
    var q := ParseAll(p, Opening(m, n)).0;
    assert m.payload[..n] == m.payload == q.payload[..n];
    assert Raw(m, crc)[..|Raw(m, crc)| - 1] == Opening(m, n);
  }

  /** What the line did to one frame. */
  datatype Damage = Clean | KindHit(now: bv8) | PayloadHit(at: nat, now: bv8) | CrcHit(now: bv8)

  /** One frame as put on the wire, with line noise before it. */
  datatype Sending = Sending(noise: seq<bv8>, m: Message, damage: Damage)

  /** Noise holds no start byte; damage really changes a byte, and not the type to the reserved 0. */
  predicate Physical(s: Sending)
  {
    && Sendable(s.m)
    && MF_SOF !in s.noise
    && match s.damage
       case Clean => true
       case KindHit(x) => x != s.m.kind && x != 0
       case PayloadHit(i, x) => i < |s.m.payload| && x != s.m.payload[i]
       case CrcHit(x) => x != Frame(s.m)[|s.m.payload| + 3]
  }

  function Received(s: Sending): seq<bv8>
    requires Physical(s)
  {
    var f := Frame(s.m);
    match s.damage
    case Clean => s.noise + f
    case KindHit(x) => s.noise + f[1 := x]
    case PayloadHit(i, x) => s.noise + f[3 + i := x]
    case CrcHit(x) => s.noise + f[|f| - 1 := x]
  }

  function Line(sent: seq<Sending>): seq<bv8>
    requires forall s :: s in sent ==> Physical(s)
  {
    if sent == [] then [] else Line(sent[..|sent| - 1]) + Received(sent[|sent| - 1])
  }

  /** The messages whose frames arrived whole, in order. */
  function Unharmed(sent: seq<Sending>): seq<Message>
  {
    if sent == [] then [] else
    var last := sent[|sent| - 1];
    Unharmed(sent[..|sent| - 1]) + if last.damage.Clean? then [last.m] else []
  }

  /** A changed type byte makes the frame of another message, whose CRC differs. */
  lemma KindHitRaw(was: Message, x: bv8) returns (m: Message)
    requires Sendable(was) && x != was.kind && x != 0
    ensures Sendable(m)
    ensures var crc := Crc8(Header(was) + was.payload);
            Frame(was)[1 := x] == Raw(m, crc) && crc != Crc8(Header(m) + m.payload)
  {
    var body := Header(was) + was.payload;
    m := was.(kind := x);
    OneByteSeen(body, 0, x);
    assert Header(m) + m.payload == body[0 := x];
    assert Frame(was)[1 := x] == Raw(m, Crc8(body));
  }

  /** So does a changed payload byte. */
  lemma PayloadHitRaw(was: Message, i: nat, x: bv8) returns (m: Message)
    requires Sendable(was) && i < |was.payload| && x != was.payload[i]
    ensures Sendable(m)
    ensures var crc := Crc8(Header(was) + was.payload);
            Frame(was)[3 + i := x] == Raw(m, crc) && crc != Crc8(Header(m) + m.payload)
  {
    var body := Header(was) + was.payload;
    m := was.(payload := was.payload[i := x]);
    OneByteSeen(body, 2 + i, x);
    assert Header(m) + m.payload == body[2 + i := x];
    assert Frame(was)[3 + i := x] == Raw(m, Crc8(body));
  }

  /** Any received frame is the frame of some contents with some CRC byte; they match only when clean. */
  lemma ReceivedAsRaw(s: Sending) returns (m: Message, crc: bv8)
    requires Physical(s)
    ensures Sendable(m) && Received(s) == s.noise + Raw(m, crc)
    ensures crc == Crc8(Header(m) + m.payload) <==> s.damage.Clean?
    ensures s.damage.Clean? ==> m == s.m
  {
    m, crc := s.m, Crc8(Header(s.m) + s.m.payload);
    match s.damage
    case Clean =>
    case KindHit(x) => m := KindHitRaw(s.m, x);
    case PayloadHit(i, x) => m := PayloadHitRaw(s.m, i, x);
    case CrcHit(x) =>
      crc := x;
      assert Frame(s.m)[|Frame(s.m)| - 1 := x] == Raw(m, crc);
  }

  /** Every undamaged message is delivered exactly once and in order; a frame with one changed byte
    * loses its own message and no other. */
  lemma {:induction false} DeliversUnharmed(p: Parser, sent: seq<Sending>)
    requires ParserOk(p) && p.state == PSof
    requires forall s :: s in sent ==> Physical(s)
    ensures ParseAll(p, Line(sent)).0.state == PSof
    ensures ParseAll(p, Line(sent)).1 == Unharmed(sent)
  {
    if sent != [] {
      var n := |sent| - 1;
      DeliversUnharmed(p, sent[..n]);
      var q := ParseAll(p, Line(sent[..n])).0;
      ParseInParts(p, Line(sent[..n]), Received(sent[n]));
      var m, crc := ReceivedAsRaw(sent[n]);
      ParseInParts(q, sent[n].noise, Raw(m, crc));
      NoiseIgnored(q, sent[n].noise);
      RawParsed(q, m, crc);
    }
  }

  // ----- the check byte as polynomial division -----

  /** The bits of a byte, the highest first. */
  function Bits(b: bv8): (bits: seq<bool>)
    ensures |bits| == 8
  {
    [b & 0x80 != 0, b & 0x40 != 0, b & 0x20 != 0, b & 0x10 != 0, b & 0x08 != 0, b & 0x04 != 0, b & 0x02 != 0, b & 0x01 != 0]
  }

  function BitsOf(data: seq<bv8>): seq<bool>
  {
    if data == [] then [] else BitsOf(data[..|data| - 1]) + Bits(data[|data| - 1])
  }

  function Bit(bit: bool): bv8 { if bit then 1 else 0 }

  /** The remainder so far, times x plus the next bit, modulo x^8 + x^2 + x + 1. */
  function NextBit(r: bv8, bit: bool): bv8
  {
    var shifted := (r << 1) | Bit(bit);
    if r & 0x80 != 0 then shifted ^ 0x07 else shifted
  }

  /** The remainder of a bit string, read as a polynomial, by x^8 + x^2 + x + 1. */
  function Remainder(bits: seq<bool>): bv8
  {
    if bits == [] then 0 else NextBit(Remainder(bits[..|bits| - 1]), bits[|bits| - 1])
  }

  /** A number without its top bit passes through a step unreduced. */
  lemma BitAtBottom(s: bv8, x: bv8, bit: bool)
    requires x & 0x80 == 0
    ensures NextBit(s ^ x, bit) == CrcShift(s) ^ ((x << 1) | Bit(bit))
  {
  }

  /** The number the first `n` bits of `b` make. */
  function Top(b: bv8, n: nat): bv8
  {
    match n
    case 0 => 0 case 1 => b >> 7 case 2 => b >> 6 case 3 => b >> 5 case 4 => b >> 4
    case 5 => b >> 3 case 6 => b >> 2 case 7 => b >> 1 case _ => b
  }

  lemma TopGrows(b: bv8, n: nat)
    requires n < 8
    ensures Top(b, n) & 0x80 == 0 && (Top(b, n) << 1) | Bit(Bits(b)[n]) == Top(b, n + 1)
  {
    if n < 4 { TopGrowsEarly(b, n); } else { TopGrowsLate(b, n); }
  }

  lemma TopGrowsEarly(b: bv8, n: nat)
    requires n < 4
    ensures Top(b, n) & 0x80 == 0 && (Top(b, n) << 1) | Bit(Bits(b)[n]) == Top(b, n + 1)
  {
  }

  lemma TopGrowsLate(b: bv8, n: nat)
    requires 4 <= n < 8
    ensures Top(b, n) & 0x80 == 0 && (Top(b, n) << 1) | Bit(Bits(b)[n]) == Top(b, n + 1)
  {
  }

  lemma {:induction false} BitsAtBottom(before: seq<bool>, b: bv8, n: nat)
    requires n <= 8
    ensures Remainder(before + Bits(b)[..n]) == CrcShifts(Remainder(before), n) ^ Top(b, n)
  {
    var bits := Bits(b);
    if n == 0 {
      assert before + bits[..0] == before;
    } else {
      BitsAtBottom(before, b, n - 1);
      TopGrows(b, n - 1);
      BitAtBottom(CrcShifts(Remainder(before), n - 1), Top(b, n - 1), bits[n - 1]);
      RemainderGrows(before, bits, n);
    }
  }

  lemma RemainderGrows(before: seq<bool>, bits: seq<bool>, n: nat)
    requires 0 < n <= |bits|
    ensures Remainder(before + bits[..n]) == NextBit(Remainder(before + bits[..n - 1]), bits[n - 1])
  {
    var all := before + bits[..n];
    assert all[..|all| - 1] == before + bits[..n - 1];
  }

  lemma ByteAtBottom(before: seq<bool>, b: bv8, bits: nat)
    requires bits == 8
    ensures Remainder(before + Bits(b)) == CrcShifts(Remainder(before), bits) ^ b
  {
    BitsAtBottom(before, b, bits);
    assert Bits(b)[..bits] == Bits(b);
  }

  lemma {:induction false} CrcIsShiftedRemainder(data: seq<bv8>, bits: nat)
    requires bits == 8
    ensures Crc(data, bits) == CrcShifts(Remainder(BitsOf(data)), bits)
  {
    if data != [] {
      var front, b := data[..|data| - 1], data[|data| - 1];
      CrcIsShiftedRemainder(front, bits);
      ByteAtBottom(BitsOf(front), b, bits);
    } else {
      ZeroShifts(bits);
    }
  }

  lemma {:induction false} ZeroShifts(n: nat)
    ensures CrcShifts(0, n) == 0
  {
    if n > 0 { ZeroShifts(n - 1); }
  }

  lemma XorZero(a: bv8, b: bv8)
    ensures a ^ b == 0 <==> a == b
  {
  }

  lemma DivisibleBy(data: seq<bv8>, crc: bv8, bits: nat)
    requires bits == 8
    ensures Remainder(BitsOf(data) + Bits(crc)) == 0 <==> crc == Crc(data, bits)
  {
    CrcIsShiftedRemainder(data, bits);
    ByteAtBottom(BitsOf(data), crc, bits);
    XorZero(Crc(data, bits), crc);
  }

  /** A check byte fits exactly when the data followed by it are divisible. */
  lemma DivisibleExactly(data: seq<bv8>, crc: bv8)
    ensures Remainder(BitsOf(data + [crc])) == 0 <==> crc == Crc8(data)
  {
    DivisibleBy(data, crc, 8);
    assert (data + [crc])[..|data|] == data;
  }

  // ----- frames and nothing but frames -----

  /** The wire frame byte by byte: start, type, length, payload, and a check byte that makes all but the
    * start divisible. */
  lemma FrameBytes(m: Message)
    requires |m.payload| <= 8
    ensures var f, n := Frame(m), |m.payload|;
      && |f| == n + 4 && f[0] == 0x7E && f[1] == m.kind && f[2] as int == n && f[3..3 + n] == m.payload
      && Remainder(BitsOf(f[1..])) == 0
  {
    var f, body := Frame(m), Header(m) + m.payload;
    DivisibleExactly(body, Crc8(body));
    assert f[1..] == body + [Crc8(body)];
  }

  ghost predicate EndsWith(bytes: seq<bv8>, tail: seq<bv8>)
  {
    |tail| <= |bytes| && bytes[|bytes| - |tail|..] == tail
  }

  /** The parser is in the middle of the frame whose first bytes came last. */
  ghost predicate Midway(p: Parser, bytes: seq<bv8>)
  {
    ParserOk(p) &&
    match p.state
    case PSof => true
    case PType => EndsWith(bytes, [MF_SOF])
    case PLen => p.kind != 0 && EndsWith(bytes, [MF_SOF, p.kind])
    case PPayload => p.kind != 0 && EndsWith(bytes, [MF_SOF, p.kind, LenByte(p.len)] + p.payload[..p.idx])
    case PCrc => p.kind != 0 && EndsWith(bytes, [MF_SOF, p.kind, LenByte(p.len)] + p.payload[..p.len])
  }

  lemma EndGrows(bytes: seq<bv8>, tail: seq<bv8>, b: bv8)
    requires EndsWith(bytes, tail)
    ensures EndsWith(bytes + [b], tail + [b])
  {
  }

  lemma LengthRead(b: bv8)
    requires LenOf(b).Some?
    ensures LenOf(b).value <= 8 && LenByte(LenOf(b).value) == b && (b == 0 <==> LenOf(b).value == 0)
  {
  }

  lemma StartMidway(p: Parser, bytes: seq<bv8>, b: bv8)
    requires Midway(p, bytes) && p.state == PSof
    ensures Midway(ParseByte(p, b).0, bytes + [b]) && ParseByte(p, b).1 == None
  {
    EndGrows(bytes, [], b);
    assert [] + [b] == [b];
  }

  lemma TypeMidway(p: Parser, bytes: seq<bv8>, b: bv8)
    requires Midway(p, bytes) && p.state == PType
    ensures Midway(ParseByte(p, b).0, bytes + [b]) && ParseByte(p, b).1 == None
  {
    EndGrows(bytes, [MF_SOF], b);
    assert [MF_SOF] + [b] == [MF_SOF, b];
  }

  lemma LenMidway(p: Parser, bytes: seq<bv8>, b: bv8)
    requires Midway(p, bytes) && p.state == PLen
    ensures Midway(ParseByte(p, b).0, bytes + [b]) && ParseByte(p, b).1 == None
  {
    EndGrows(bytes, [MF_SOF, p.kind], b);
    if LenOf(b).Some? { LengthMidway(p, bytes, b); }
  }

  lemma LengthMidway(p: Parser, bytes: seq<bv8>, b: bv8)
    requires ParserOk(p) && p.state == PLen && p.kind != 0 && LenOf(b).Some?
    requires EndsWith(bytes + [b], [MF_SOF, p.kind] + [b])
    ensures Midway(ParseByte(p, b).0, bytes + [b])
  {
    LengthRead(b);
    var q := ParseByte(p, b).0;
    assert [MF_SOF, p.kind, LenByte(q.len)] + q.payload[..0] == [MF_SOF, p.kind] + [b];
  }

  lemma PayloadMidway(p: Parser, bytes: seq<bv8>, b: bv8)
    requires Midway(p, bytes) && p.state == PPayload
    ensures Midway(ParseByte(p, b).0, bytes + [b]) && ParseByte(p, b).1 == None
  {
    var head, part := [MF_SOF, p.kind, LenByte(p.len)], p.payload[..p.idx];
    EndGrows(bytes, head + part, b);
    assert p.payload[p.idx := b][..p.idx + 1] == part + [b];
    assert head + part + [b] == head + (part + [b]);
  }

  lemma CheckMidway(p: Parser, bytes: seq<bv8>, b: bv8)
    requires Midway(p, bytes) && p.state == PCrc
    ensures var (q, d) := ParseByte(p, b);
      Midway(q, bytes + [b]) && (d.Some? ==> Sendable(d.value) && EndsWith(bytes + [b], Frame(d.value)))
  {
    var m := Message(p.kind, p.payload[..p.len]);
    var head := [MF_SOF, p.kind, LenByte(p.len)];
    EndGrows(bytes, head + m.payload, b);
    assert head == [MF_SOF] + Header(m);
  }

  /** One byte keeps the parser in step with the end of the stream, and delivers only a whole frame. */
  lemma ByteMidway(p: Parser, bytes: seq<bv8>, b: bv8)
    requires Midway(p, bytes)
    ensures var (q, d) := ParseByte(p, b);
      Midway(q, bytes + [b]) && (d.Some? ==> Sendable(d.value) && EndsWith(bytes + [b], Frame(d.value)))
  {
    match p.state
    case PPayload => PayloadMidway(p, bytes, b);
    case PCrc => CheckMidway(p, bytes, b);
    case PLen => LenMidway(p, bytes, b);
    case PType => TypeMidway(p, bytes, b);
    case PSof => StartMidway(p, bytes, b);
  }

  lemma {:induction false} AlwaysMidway(p: Parser, bytes: seq<bv8>)
    requires ParserOk(p) && p.state == PSof
    ensures Midway(ParseAll(p, bytes).0, bytes)
  {
    if bytes != [] {
      var front := bytes[..|bytes| - 1];
      AlwaysMidway(p, front);
      ByteMidway(ParseAll(p, front).0, front, bytes[|bytes| - 1]);
      assert front + [bytes[|bytes| - 1]] == bytes;
    }
  }

  /** Whatever bytes arrive, a message is delivered only at the end of its own whole frame. */
  lemma DeliversOnlyFrames(p: Parser, bytes: seq<bv8>, b: bv8)
    requires ParserOk(p) && p.state == PSof
    ensures var d := ParseByte(ParseAll(p, bytes).0, b).1;
      d.Some? ==> Sendable(d.value) && EndsWith(bytes + [b], Frame(d.value))
  {
    AlwaysMidway(p, bytes);
    ByteMidway(ParseAll(p, bytes).0, bytes, b);
  }
}

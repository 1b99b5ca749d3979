/** The extension's cipher bit by bit and its handshake write by write. */
module CipherMeaning {
  import opened Bytes
  import opened Words
  import opened Extension

  // ----- C's operators on bytes -----

  /** Bit `i` of `x`, the lowest being bit 0. */
  predicate Bit(x: nat, i: nat) { if i == 0 then x % 2 == 1 else Bit(x / 2, i - 1) }

  lemma {:induction false} HalfIsQuotient(a: nat)
    ensures Half(a) == a / 2 && (Odd(a) <==> a % 2 == 1)
  {
  }

  /** `^` compares bits. */
  lemma {:induction false} XorBits(a: nat, b: nat, i: nat)
    ensures Bit(Xor(a, b), i) <==> Bit(a, i) != Bit(b, i)
    decreases i
  {
    HalfIsQuotient(a);
    HalfIsQuotient(b);
    XorHalves(a, b);
    if i > 0 { XorBits(a / 2, b / 2, i - 1); }
  }

  lemma XorHalves(a: nat, b: nat)
    ensures Xor(a, b) / 2 == Xor(a / 2, b / 2) && (Xor(a, b) % 2 == 1 <==> a % 2 != b % 2)
  {
    HalfIsQuotient(a);
    HalfIsQuotient(b);
    if a == 0 && b == 0 { assert Xor(0, 0) == 0; }
  }

  /** Subtraction wraps modulo 256. */
  lemma MinusWraps(a: Byte, b: Byte)
    ensures Minus(a, b) == (a - b) % 256 && Plus(a, b) == (a + b) % 256
  {
  }

  /** A rotation by one moves every bit down, the lowest to the top. */
  lemma OneRotation(v: Byte, i: nat)
    requires i < 8
    ensures var r := if Odd(v) then Half(v) + 128 else Half(v);
            Bit(r, i) <==> Bit(v, if i == 7 then 0 else i + 1)
  {
    HalfIsQuotient(v);
    var h := v / 2;
    if v % 2 == 1 { TopBit(h, 7, 128, i); } else { TopClear(h, 7, 128); }
  }

  /** Bit `k` of a number below 2^k is clear. */
  lemma {:induction false} TopClear(h: nat, k: nat, p: nat)
    requires p == Pow2(k) && h < p
    ensures !Bit(h, k)
    decreases k
  {
    if k > 0 { TopClear(h / 2, k - 1, Pow2(k - 1)); }
  }

  /** Adding 2^k to a number below it sets bit `k` and no other. */
  lemma {:induction false} TopBit(h: nat, k: nat, p: nat, i: nat)
    requires p == Pow2(k) && h < p
    ensures Bit(h + p, i) <==> i == k || Bit(h, i)
    decreases k
  {
    if k > 0 {
      var q := Pow2(k - 1);
      assert (h + p) / 2 == h / 2 + q && (h + p) % 2 == h % 2;
      if i > 0 { TopBit(h / 2, k - 1, q, i - 1); }
    } else {
      assert h == 0;
      if i > 0 { ZeroBits(i - 1); }
    }
  }

  lemma {:induction false} ZeroBits(i: nat)
    ensures !Bit(0, i)
  {
    if i > 0 { ZeroBits(i - 1); }
  }

  lemma {:induction false} SlotIsRemainder(n: nat)
    ensures Slot(n) == n % 8
  {
    if n >= 8 { SlotIsRemainder(n - 8); }
  }

  /** Rotating right by `n` brings bit `i + n` to bit `i`, counting around eight bits. */
  lemma {:induction false} RotatedBits(v: Byte, n: nat, i: nat)
    requires i < 8
    ensures Bit(Rotated(v, n), i) <==> Bit(v, (i + n) % 8)
    decreases n
  {
    if n > 0 {
      var from := if i == 7 then 0 else i + 1;
      OneRotation(Rotated(v, n - 1), i);
      RotatedBits(v, n - 1, from);
      assert (from + (n - 1)) % 8 == (i + n) % 8;
    }
  }

  lemma AroundByte(i: nat, n: nat)
    ensures (i + n % 8) % 8 == (i + n) % 8
  {
  }

  lemma RorBits(v: Byte, n: Byte, i: nat)
    requires i < 8
    ensures Bit(Ror8(v, n), i) <==> Bit(v, (i + n) % 8)
  {
    SlotIsRemainder(n);
    RotatedBits(v, Slot(n), i);
    AroundByte(i, n);
  }

  // ----- key tables -----

  /** `r` has the bits in which `a` and `b` differ. */
  ghost predicate Differ(r: Byte, a: Byte, b: Byte) { forall i: nat | i < 8 :: Bit(r, i) <==> Bit(a, i) != Bit(b, i) }

  /** `r` is `v` with its bits moved down by `n` around the byte. */
  ghost predicate Turned(r: Byte, v: Byte, n: nat) { forall i: nat | i < 8 :: Bit(r, i) <==> Bit(v, (i + n) % 8) }

  lemma XorDiffers(a: Byte, b: Byte)
    ensures Differ(XorByte(a, b), a, b)
  {
    forall i: nat | i < 8
      ensures Bit(XorByte(a, b), i) <==> Bit(a, i) != Bit(b, i)
    {
      XorBits(a, b, i);
    }
  }

  /** Subtraction modulo 256. */
  function Less(a: int, b: int): Byte { (a - b) % 256 }

  /** One answer: exclusive-or, rotation, subtraction modulo 256 and exclusive-or again. */
  lemma AnswerMeans(a: Byte, x: Byte, turn: Byte, less: Byte, y: Byte) returns (mixed: Byte, turned: Byte)
    ensures Differ(mixed, a, x) && Turned(turned, mixed, turn) && Differ(Answer(a, x, turn, less, y), Less(turned, less), y)
  {
    mixed := XorByte(a, x);
    turned := Ror8(mixed, turn);
    XorDiffers(a, x);
    forall i: nat | i < 8
      ensures Bit(turned, i) <==> Bit(mixed, (i + turn) % 8)
    {
      RorBits(mixed, turn, i);
    }
    MinusWraps(turned, less);
    XorDiffers(Minus(turned, less), y);
  }

  /** Which scrambled bytes enter the answers for key bytes 15 down to 10. */
  datatype Places = Places(x: nat, turn: nat, less: nat, y: nat)

  const PLACES: seq<Places> :=
    [Places(5, 2, 9, 4), Places(1, 0, 5, 7), Places(6, 8, 2, 0), Places(4, 7, 3, 2), Places(1, 6, 3, 4), Places(7, 8, 5, 9)]

  /** Scrambled byte `i`: the key's first ten bytes, last first, through `k_keygen`. */
  function ScrambledByte(c: Constants, key: seq<Byte>, i: nat): Byte
    requires Sized(c) && |key| == 16 && i < 10
  {
    c.keygen[key[9 - i]]
  }

  /** Row `j` answers the key in key byte `15 - n`. */
  ghost predicate AnswersIn(c: Constants, key: seq<Byte>, j: nat, n: nat)
    requires Sized(c) && |key| == 16 && j < 7 && n < 6
  {
    var p := PLACES[n];
    key[15 - n] == Answer(c.ans[j][n], ScrambledByte(c, key, p.x), ScrambledByte(c, key, p.turn),
                          ScrambledByte(c, key, p.less), ScrambledByte(c, key, p.y))
  }

  ghost predicate RowFits(c: Constants, key: seq<Byte>, j: nat)
    requires Sized(c) && |key| == 16 && j < 7
  {
    && AnswersIn(c, key, j, 0) && AnswersIn(c, key, j, 1) && AnswersIn(c, key, j, 2)
    && AnswersIn(c, key, j, 3) && AnswersIn(c, key, j, 4) && AnswersIn(c, key, j, 5)
  }

  lemma FitsIsAnswers(c: Constants, key: seq<Byte>, j: nat)
    requires Sized(c) && |key| == 16 && j < 7
    ensures RowFits(c, key, j) <==> Answers(c.ans[j], Scrambled(c, key), key)
  {
  }

  lemma RowStep(c: Constants, key: seq<Byte>, from: nat)
    requires Sized(c) && |key| == 16 && from < 7
    ensures RowFits(c, key, from) ==> Row(c, key, from) == from
    ensures !RowFits(c, key, from) ==> Row(c, key, from) == Row(c, key, from + 1)
  {
    FitsIsAnswers(c, key, from);
  }

  /** Row `j` against the scan from `from` on. */
  ghost predicate Passed(c: Constants, key: seq<Byte>, from: nat, j: nat)
    requires Sized(c) && |key| == 16 && from <= 7 && j < 7
  {
    var r := Row(c, key, from);
    (from <= j < r ==> !RowFits(c, key, j)) && (from <= j == r < 6 ==> RowFits(c, key, j))
  }

  lemma {:induction false} RowFrom(c: Constants, key: seq<Byte>, from: nat, j: nat)
    requires Sized(c) && |key| == 16 && from <= 7 && j < 7
    ensures Passed(c, key, from, j) && (from < 7 ==> from <= Row(c, key, from) || Row(c, key, from) == 6)
    decreases 7 - from
  {
    if from < 7 {
      RowStep(c, key, from);
      RowFrom(c, key, from + 1, j);
    }
  }

  /** The row used is the first one that answers all six high key bytes, or the last: for every row `j`. */
  lemma RowIsFirst(c: Constants, key: seq<Byte>, j: nat)
    requires Sized(c) && |key| == 16 && j < 7
    ensures var r := Row(c, key, 0);
      r <= 6 && (j < r ==> !RowFits(c, key, j)) && (j == r < 6 ==> RowFits(c, key, j))
  {
    RowFrom(c, key, 0, j);
  }

  /** Every table entry is the exclusive-or of two box entries, at the key bytes listed in `FT_PAIRS` and
    * `SB_PAIRS`. */
  lemma EntriesMean(c: Constants, key: seq<Byte>, n: nat)
    requires Sized(c) && |key| == 16 && n < 8
    ensures var r, t := Row(c, key, 0), Derived(c, key);
            var f, s := FT_PAIRS[n], SB_PAIRS[n];
      && InKey(f) && Differ(t.ft[n], c.sbox[r][key[f.0]], c.sbox[r + 1][key[f.1]])
      && InKey(s) && Differ(t.sb[n], c.sbox[r][key[s.0]], c.sbox[r + 1][key[s.1]])
  {
    FtMeans(c, Row(c, key, 0), key, n);
    SbMeans(c, Row(c, key, 0), key, n);
  }

  lemma FtMeans(c: Constants, r: nat, key: seq<Byte>, n: nat)
    requires Sized(c) && |key| == 16 && n < 8 && r <= 6
    ensures var f := FT_PAIRS[n]; InKey(f) && Differ(Entries(c, r, key).ft[n], c.sbox[r][key[f.0]], c.sbox[r + 1][key[f.1]])
  {
    FtEntry(c, r, key, n);
    XorDiffers(c.sbox[r][key[FT_PAIRS[n].0]], c.sbox[r + 1][key[FT_PAIRS[n].1]]);
  }

  lemma SbMeans(c: Constants, r: nat, key: seq<Byte>, n: nat)
    requires Sized(c) && |key| == 16 && n < 8 && r <= 6
    ensures var s := SB_PAIRS[n]; InKey(s) && Differ(Entries(c, r, key).sb[n], c.sbox[r][key[s.0]], c.sbox[r + 1][key[s.1]])
  {
    SbEntry(c, r, key, n);
    XorDiffers(c.sbox[r][key[SB_PAIRS[n].0]], c.sbox[r + 1][key[SB_PAIRS[n].1]]);
  }

  /** An enciphered byte: the plain one less one table entry modulo 256, exclusive-or the other, the entries
    * chosen by the address modulo 8. */
  lemma EncryptMeans(t: Tables, data: seq<Byte>, addr: nat, i: nat)
    requires TablesOk(t) && i < |data|
    ensures var k := (addr + i) % 8;
            |Encrypt(t, data, addr)| == |data| && Differ(Encrypt(t, data, addr)[i], Less(data[i], t.ft[k]), t.sb[k])
  {
    var k := Slot(addr + i);
    SlotIsRemainder(addr + i);
    MinusWraps(data[i], t.ft[k]);
    XorDiffers(Minus(data[i], t.ft[k]), t.sb[k]);
  }

  // ----- bank and handshake, from the writes alone -----

  /** The write goes to the extension's registers. */
  predicate Reaches(w: Write) { w.at.space == 0xA4 || w.at.space == 0xA5 }

  /** The latest command to the control register was to arm. */
  predicate Armed(ws: seq<Write>)
  {
    ws != [] &&
    var front, w := ws[..|ws| - 1], ws[|ws| - 1];
    if Reaches(w) && w.at.idx == 0xF0 && w.data != [] && w.data[0] == 0x55 then false
    else if Reaches(w) && w.at.idx == 0xF0 && w.data != [] && w.data[0] == 0xAA then true
    else Armed(front)
  }

  /** Since the latest end command a write began in the key area while armed. */
  predicate Enciphered(ws: seq<Write>)
  {
    ws != [] &&
    var front, w := ws[..|ws| - 1], ws[|ws| - 1];
    if Reaches(w) && w.at.idx == 0xF0 && w.data != [] && w.data[0] == 0x55 then false
    else (Reaches(w) && 0x40 <= w.at.idx <= 0x4F && Armed(ws)) || Enciphered(front)
  }

  /** Bank byte `k`: what the latest write over it put there, or what it was. */
  function BankByte(regs: seq<Byte>, ws: seq<Write>, k: nat): Byte
    requires k < |regs|
  {
    if ws == [] then regs[k] else
    var front, w := ws[..|ws| - 1], ws[|ws| - 1];
    if Reaches(w) && w.at.idx <= k < w.at.idx + |w.data| then w.data[k - w.at.idx] else BankByte(regs, front, k)
  }

  /** Over any writes to a freshly connected extension: the cipher is armed, and on, exactly as the writes
    * say, and every bank byte is the latest one written there. */
  lemma {:induction false} FollowsWrites(c: Constants, p: Port, ws: seq<Write>, k: nat)
    requires Sized(c) && PortOk(p) && p.attached && !p.armed && !p.cryptOn && k < 256
    ensures var q := Run(c, p, ws);
      q.attached && q.armed == Armed(ws) && q.cryptOn == Enciphered(ws) && q.regs[k] == BankByte(p.regs, ws, k)
  {
    if ws != [] {
      FollowsWrites(c, p, ws[..|ws| - 1], k);
    }
  }

  /** The tables in use are those of the key as it stood at the latest write that began in the key area
    * while armed. */
  lemma KeyWriteDerives(c: Constants, p: Port, ws: seq<Write>, w: Write)
    requires Sized(c) && PortOk(p) && p.attached && !p.armed && !p.cryptOn
    requires Reaches(w) && 0x40 <= w.at.idx <= 0x4F && Armed(ws)
    ensures var q := Run(c, p, ws + [w]); q.cryptOn && q.tables == Derived(c, q.regs[0x40..0x50])
  {
    FollowsWrites(c, p, ws, 0);
    assert (ws + [w])[..|ws|] == ws;
    var q := Run(c, p, ws);
    ShakeInside(c, q.(regs := Stored(q.regs, w.at.idx, w.data)), w.at.idx, w.data);
  }

  /** Any other write leaves them alone. */
  lemma OtherWriteKeepsTables(c: Constants, p: Port, w: Write)
    requires Sized(c) && PortOk(p)
    requires !Reaches(w) || !p.attached || !(0x40 <= w.at.idx <= 0x4F) || !p.armed
    ensures Written(c, p, w.at, w.data).tables == p.tables
  {
  }

  // ----- reads -----

  /** What a read puts on the air: the bank from the start index to its end at most, each byte enciphered by
    * its own address while the cipher is on, and zeros when the registers are not backed. */
  lemma ReadMeans(p: Port, at: Address, size: nat, i: nat)
    requires PortOk(p)
    ensures var heard := OnAir(p, at, size);
      && |heard| == (if at.idx + size <= 256 then size else 256 - at.idx)
      && (i < |heard| && !(p.attached && (at.space == 0xA4 || at.space == 0xA5)) ==> heard[i] == 0)
      && (i < |heard| && p.attached && (at.space == 0xA4 || at.space == 0xA5) ==>
            if p.cryptOn then
              Differ(heard[i], Less(p.regs[at.idx + i], p.tables.ft[(at.idx + i) % 8]), p.tables.sb[(at.idx + i) % 8])
            else heard[i] == p.regs[at.idx + i])
  {
    var from, to := at.idx, End(at, size);
    if p.cryptOn && i < to - from { EncryptMeans(p.tables, p.regs[from..to], from, i); }
  }

  /** Replies cut as `ReadRegister` promises carry 16 bytes each but the last, one after the other. */
  lemma {:induction false} CutsAreSixteen(rs: seq<Reply>, page: Byte, lo: nat, hi: nat, i: nat)
    requires WellCut(rs, page, lo, hi) && i < |rs|
    ensures rs[i].page == page && rs[i].idx == lo + 16 * i && 1 <= |rs[i].data| <= 16
    ensures i < |rs| - 1 ==> |rs[i].data| == 16
    ensures i == |rs| - 1 ==> rs[i].idx + |rs[i].data| == hi
  {
    var front, last := rs[..|rs| - 1], rs[|rs| - 1];
    if i < |front| {
      CutsAreSixteen(front, page, lo, last.idx, i);
      assert front[i] == rs[i];
    } else {
      CutEnds(front, page, lo, last.idx);
    }
  }

  lemma {:induction false} CutEnds(rs: seq<Reply>, page: Byte, lo: nat, hi: nat)
    requires WellCut(rs, page, lo, hi) && AllFull(rs)
    ensures hi == lo + 16 * |rs|
  {
    if rs != [] {
      var front, last := rs[..|rs| - 1], rs[|rs| - 1];
      assert AllFull(front);
      CutEnds(front, page, lo, last.idx);
    }
  }
}

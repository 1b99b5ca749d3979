module Bytes {
  type Byte = x: int | 0 <= x < 0x100
}

/** Machine words and the few C operators whose behaviour differs from Dafny's. */
module Words {
  import opened Bytes

  const U32 := 0x1_0000_0000
  const INT32_MAX := 0x7fff_ffff
  const INT64_MAX := 0x7fff_ffff_ffff_ffff

  /** A value stored in a `uint32_t`. */
  function Wrap32(x: int): nat { x % U32 }

  predicate IsInt32(x: int) { -INT32_MAX - 1 <= x <= INT32_MAX }

  predicate IsInt64(x: int) { -INT64_MAX - 1 <= x <= INT64_MAX }

  function Pow2(n: nat): (r: nat)
    ensures r >= 1
  {
    if n == 0 then 1 else 2 * Pow2(n - 1)
  }

  /** C's remainder takes the sign of its first operand, Dafny's never goes negative. */
  function CRem(a: int, b: int): int
    requires b > 0
  {
    if a >= 0 then a % b else -((-a) % b)
  }

  /** The idiom `((head - off) % len + len) % len`: the slot `off` places behind `head`. */
  lemma RingIndexIdiom(head: nat, off: nat, len: nat)
    requires head < len && off < len
    ensures CRem(CRem(head - off, len) + len, len) == if off <= head then head - off else head - off + len
  {
    var d := head - off;
    if d >= 0 {
      SmallMod(d, len);
      ModPlus(d, len);
    } else {
      SmallMod(-d, len);
      SmallMod(d + len, len);
    }
  }

  lemma SmallMod(a: nat, b: nat)
    requires a < b
    ensures a % b == a
  {
  }

  lemma ModPlus(a: nat, b: nat)
    requires a < b
    ensures (a + b) % b == a
  {
    DivUnique(a + b, b, 1, a);
  }

  lemma DivUnique(a: int, b: int, q: int, r: int)
    requires b > 0 && 0 <= r < b && a == q * b + r
    ensures a / b == q && a % b == r
  {
    var q1, r1 := a / b, a % b;
    assert a == q1 * b + r1;
    if q1 > q {
      assert (q1 - q) * b >= b by { MulAtLeast(q1 - q, b); }
    } else if q1 < q {
      assert (q - q1) * b >= b by { MulAtLeast(q - q1, b); }
    }
  }

  lemma MulAtLeast(k: int, b: int)
    requires k >= 1 && b >= 0
    ensures k * b >= b
  {
  }

  // ----- bytes and bits, without division -----

  /** C's `a >> 1`. */
  function Half(a: nat): (h: nat)
    ensures a == h + h || a == h + h + 1
  {
    if a < 2 then 0 else 1 + Half(a - 2)
  }

  predicate Odd(a: nat) { a != Half(a) + Half(a) }

  lemma {:induction false} HalfOf(h: nat)
    ensures Half(h + h) == h && Half(h + h + 1) == h
  {
  }

  /** Subtraction and addition of `uint8_t`. */
  function Minus(a: Byte, b: Byte): Byte { if a >= b then a - b else a - b + 256 }

  function Plus(a: Byte, b: Byte): Byte { if a + b < 256 then a + b else a + b - 256 }

  /** C's `^`, bit by bit. */
  function Xor(a: nat, b: nat): nat
    decreases a + b
  {
    if a == 0 && b == 0 then 0 else
    var high := Xor(Half(a), Half(b));
    if Odd(a) == Odd(b) then high + high else high + high + 1
  }

  /** The limit doubles with every bit. */
  predicate IsPower(limit: nat)
    decreases limit
  {
    limit == 1 || (limit > 1 && !Odd(limit) && IsPower(Half(limit)))
  }

  lemma {:induction false} XorBelow(a: nat, b: nat, limit: nat)
    requires IsPower(limit) && a < limit && b < limit
    ensures Xor(a, b) < limit
    decreases limit
  {
    if a > 0 || b > 0 {
      XorBelow(Half(a), Half(b), Half(limit));
    }
  }

  lemma {:induction false} XorUndone(a: nat, b: nat)
    ensures Xor(Xor(a, b), b) == a
    decreases a + b
  {
    if a > 0 || b > 0 {
      XorUndone(Half(a), Half(b));
      HalfOf(Xor(Half(a), Half(b)));
    }
  }

  lemma ByteLimit()
    ensures IsPower(256)
  {
    HalfOf(1);
    HalfOf(2);
    HalfOf(4);
    HalfOf(8);
    HalfOf(16);
    HalfOf(32);
    HalfOf(64);
    HalfOf(128);
    assert IsPower(2) && IsPower(4);
    assert IsPower(8) && IsPower(16);
    assert IsPower(32) && IsPower(64);
  }

  function XorByte(a: Byte, b: Byte): Byte
  {
    ByteLimit();
    XorBelow(a, b, 256);
    Xor(a, b)
  }

  lemma XorTwice(a: Byte, b: Byte)
    ensures XorByte(XorByte(a, b), b) == a
  {
    XorUndone(a, b);
  }

  lemma {:induction false} XorCommutes(a: nat, b: nat)
    ensures Xor(a, b) == Xor(b, a)
    decreases a + b
  {
    if a > 0 || b > 0 {
      XorCommutes(Half(a), Half(b));
    }
  }

  lemma XorCancels(a: Byte, x: Byte, y: Byte)
    ensures XorByte(a, x) == XorByte(a, y) <==> x == y
  {
    XorCommutes(a, x);
    XorCommutes(a, y);
    XorUndone(x, a);
    XorUndone(y, a);
  }

  lemma {:induction false} XorSelf(a: nat)
    ensures Xor(a, a) == 0
  {
    if a > 0 {
      XorSelf(Half(a));
    }
  }

  lemma XorZero(a: Byte, b: Byte)
    ensures XorByte(a, b) == 0 <==> a == b
  {
    XorSelf(b);
    XorUndone(a, b);
    XorUndone(b, b);
  }

  lemma {:induction false} XorAtMost(a: nat, b: nat)
    ensures Xor(a, b) <= a + b
    decreases a + b
  {
    if a > 0 || b > 0 {
      XorAtMost(Half(a), Half(b));
    }
  }

  /** Two numbers have the same low `n` bits. */
  predicate SameLow(a: nat, b: nat, n: nat)
  {
    n == 0 || (Odd(a) == Odd(b) && SameLow(Half(a), Half(b), n - 1))
  }

  /** Exclusive-or with a number whose low `n` bits are 0 leaves them alone. */
  lemma {:induction false} XorKeepsLow(a: nat, b: nat, n: nat)
    requires SameLow(b, 0, n)
    ensures SameLow(Xor(a, b), a, n)
  {
    if n > 0 {
      HalfOf(Xor(Half(a), Half(b)));
      XorKeepsLow(Half(a), Half(b), n - 1);
    }
  }
}

/** The perf-log checksum (framing.py): Fletcher-16 modulo 255. */
module Fletcher {
  import opened Bytes

  /** The default start value; its two bytes are both 255. */
  const INIT: nat := 0xFFFF

  /** Low and high byte of a start value. */
  function Halves(init: nat): (Byte, Byte) { (init % 256, init / 256 % 256) }

  /** Both running sums after `data`, from the sums in `start`. */
  function SumsFrom(start: (Byte, Byte), data: seq<Byte>): (Byte, Byte)
  {
    if data == [] then start else
    var (s1, s2) := SumsFrom(start, data[..|data| - 1]);
    var t1 := (s1 + data[|data| - 1]) % 255;
    (t1, (s2 + t1) % 255)
  }

  function Sums(data: seq<Byte>): (Byte, Byte) { SumsFrom((255, 255), data) }

  function Packed(sums: (Byte, Byte)): (r: nat)
    ensures r < 0x10000
  {
    sums.1 * 256 + sums.0
  }

  function Checksum(data: seq<Byte>): (r: nat)
    ensures r < 0x10000
  {
    Packed(Sums(data))
  }

  /** `fletcher16`, its start value defaulting to 0xFFFF. */
  method Fletcher16(data: seq<Byte>, init: nat) returns (fcs: nat)
    ensures fcs == Packed(SumsFrom(Halves(init), data))
    ensures init == INIT ==> fcs == Checksum(data)
  {
    var s1: Byte, s2: Byte := init % 256, init / 256 % 256;
    for i := 0 to |data|
      invariant (s1, s2) == SumsFrom(Halves(init), data[..i])
    {
      assert data[..i + 1][..i] == data[..i];
      s1 := (s1 + data[i]) % 255;
      s2 := (s2 + s1) % 255;
    }
    assert data[..|data|] == data;
    return s2 * 256 + s1;
  }

  /** Data may be summed in portions: the checksum of the first is the start value of the next. */
  lemma {:induction false} Chains(start: (Byte, Byte), a: seq<Byte>, b: seq<Byte>)
    ensures SumsFrom(start, a + b) == SumsFrom(SumsFrom(start, a), b)
  {
    if b == [] {
      assert a + b == a;
    } else {
      Chains(start, a, b[..|b| - 1]);
      assert (a + b)[..|a + b| - 1] == a + b[..|b| - 1];
    }
  }

  lemma PackedHalves(sums: (Byte, Byte))
    ensures Halves(Packed(sums)) == sums
  {
  }

  /** `fletcher16(b, fletcher16(a, init))` is `fletcher16(a + b, init)`. */
  lemma ChecksumInPortions(init: nat, a: seq<Byte>, b: seq<Byte>)
    ensures Packed(SumsFrom(Halves(Packed(SumsFrom(Halves(init), a))), b)) == Packed(SumsFrom(Halves(init), a + b))
  {
    Chains(Halves(init), a, b);
    PackedHalves(SumsFrom(Halves(init), a));
  }

  // ----- closed form -----

  function Sum(data: seq<Byte>): nat
  {
    if data == [] then 0 else Sum(data[..|data| - 1]) + data[|data| - 1]
  }

  /** Byte `j` counted `n - j` times; with n == |data| the last byte counts once. */
  function Weighted(data: seq<Byte>, n: int): int
  {
    if data == [] then 0
    else Weighted(data[..|data| - 1], n) + (n - (|data| - 1)) * data[|data| - 1]
  }

  lemma {:induction false} HeavierByOne(data: seq<Byte>, n: int)
    ensures Weighted(data, n + 1) == Weighted(data, n) + Sum(data)
  {
    if data != [] {
      HeavierByOne(data[..|data| - 1], n);
      var k, b := |data| - 1, data[|data| - 1];
      assert (n + 1 - k) * b == (n - k) * b + b;
    }
  }

  lemma AddResidues(s1: int, s2: int, p: int, t: int, b: int)
    requires s1 % 255 == p % 255 && s2 % 255 == t % 255
    ensures var t1 := (s1 + b) % 255; t1 < 255 && t1 % 255 == (p + b) % 255
    ensures var t2 := (s2 + (s1 + b) % 255) % 255; t2 < 255 && t2 % 255 == (t + (p + b)) % 255
  {
  }

  lemma WeightedGrows(data: seq<Byte>)
    requires data != []
    ensures var n := |data| - 1;
            Weighted(data, |data|) == Weighted(data[..n], n) + (Sum(data[..n]) + data[n])
  {
    HeavierByOne(data[..|data| - 1], |data| - 1);
  }

  /** `n` times `x`. */
  function Times(n: nat, x: int): int { if n == 0 then 0 else Times(n - 1, x) + x }

  /** A start value's low byte counts like a byte before the data, its high byte once. */
  function PlainFrom(start: (Byte, Byte), data: seq<Byte>): int { start.0 + Sum(data) }

  function WeightedFrom(start: (Byte, Byte), data: seq<Byte>): int
  {
    start.1 + Times(|data|, start.0) + Weighted(data, |data|)
  }

  lemma FromGrows(start: (Byte, Byte), data: seq<Byte>)
    requires data != []
    ensures var n := |data| - 1;
      && PlainFrom(start, data) == PlainFrom(start, data[..n]) + data[n]
      && WeightedFrom(start, data) == WeightedFrom(start, data[..n]) + (PlainFrom(start, data[..n]) + data[n])
  {
    WeightedGrows(data);
  }

  lemma SumsGrow(start: (Byte, Byte), data: seq<Byte>, s1: int, s2: int)
    requires data != [] && SumsFrom(start, data[..|data| - 1]) == (s1, s2)
    ensures var t := (s1 + data[|data| - 1]) % 255; SumsFrom(start, data) == (t, (s2 + t) % 255)
  {
  }

  /** The running sums are the plain sum and the position-weighted sum modulo 255. */
  lemma {:induction false} ClosedForm(start: (Byte, Byte), data: seq<Byte>)
    ensures SumsFrom(start, data).0 % 255 == PlainFrom(start, data) % 255
    ensures SumsFrom(start, data).1 % 255 == WeightedFrom(start, data) % 255
    ensures data != [] ==> SumsFrom(start, data).0 < 255 && SumsFrom(start, data).1 < 255
  {
    if data == [] {
      assert PlainFrom(start, data) == start.0 && WeightedFrom(start, data) == start.1;
    } else {
      var front, last := data[..|data| - 1], data[|data| - 1];
      ClosedForm(start, front);
      var (s1, s2) := SumsFrom(start, front);
      SumsGrow(start, data, s1, s2);
      FromGrows(start, data);
      AddResidues(s1, s2, PlainFrom(start, front), WeightedFrom(start, front), last);
    }
  }

  lemma Drop255(a: int)
    ensures (255 + a) % 255 == a % 255
  {
  }

  /** A start value of 0xFFFF is as good as 0 once there is data. */
  lemma {:induction false} FullStartVanishes(n: nat, a: int)
    ensures (255 + Times(n, 255) + a) % 255 == a % 255
  {
    Drop255(Times(n, 255) + a);
    if n > 0 { FullStartVanishes(n - 1, a); }
  }

  // ----- what the checksum cannot see -----

  lemma SameResidues(d1: int, d2: int, e1: int, e2: int, a: int, b: int, v: int, w: int)
    requires 0 <= d1 < 255 && 0 <= d2 < 255 && 0 <= e1 < 255 && 0 <= e2 < 255
    requires d1 == a % 255 && e1 == b % 255 && d2 == v % 255 && e2 == w % 255
    ensures d2 * 256 + d1 == e2 * 256 + e1 <==> (b - a) % 255 == 0 && (w - v) % 255 == 0
  {
  }

  lemma FullStartSums(d: seq<Byte>)
    ensures PlainFrom((255, 255), d) % 255 == Sum(d) % 255
    ensures WeightedFrom((255, 255), d) % 255 == Weighted(d, |d|) % 255
  {
    Drop255(Sum(d));
    FullStartVanishes(|d|, Weighted(d, |d|));
  }

  lemma Reduced(r: int, x: int)
    requires 0 <= r < 255 && r % 255 == x % 255
    ensures r == x % 255
  {
  }

  lemma CheckedSums(d: seq<Byte>, v: int)
    requires d != [] && v == Weighted(d, |d|)
    ensures var (d1, d2) := Sums(d);
            d1 < 255 && d2 < 255 && d1 == Sum(d) % 255 && d2 == v % 255
  {
    ClosedForm((255, 255), d);
    FullStartSums(d);
    Reduced(Sums(d).0, Sum(d));
    Reduced(Sums(d).1, v);
  }

  /** The checksum as a number: the plain sum modulo 255 in the low byte, the position-weighted sum modulo
    * 255 in the high byte, and 0xFFFF of no data. */
  lemma ChecksumValue(data: seq<Byte>)
    ensures data == [] ==> Checksum(data) == 0xFFFF
    ensures data != [] ==> Checksum(data) == 256 * (Weighted(data, |data|) % 255) + Sum(data) % 255
  {
    if data != [] { CheckedSums(data, Weighted(data, |data|)); }
  }

  /** The first `n` digits from 1 on in ASCII, with their plain and weighted sums. */
  function AsciiDigits(n: nat): seq<Byte>
    requires n <= 9
  {
    if n == 0 then [] else AsciiDigits(n - 1) + [0x30 + n]
  }

  function DigitSum(n: nat): int { if n == 0 then 0 else DigitSum(n - 1) + 0x30 + n }

  function DigitWeights(n: nat): int { if n == 0 then 0 else DigitWeights(n - 1) + (10 - n) * (0x30 + n) }

  lemma {:induction false} DigitSums(n: nat)
    requires n <= 9
    ensures var d := AsciiDigits(n); |d| == n && Sum(d) == DigitSum(n) && Weighted(d, 9) == DigitWeights(n)
  {
    if n > 0 {
      DigitSums(n - 1);
      assert AsciiDigits(n)[..n - 1] == AsciiDigits(n - 1);
    }
  }

  /** The digits 1 to 9 in ASCII check to 0x1EDE, the value the repository's tests expect. */
  lemma CheckOfDigits()
    ensures Checksum(AsciiDigits(9)) == 0x1EDE
  {
    DigitSums(9);
    ChecksumValue(AsciiDigits(9));
    assert DigitSum(9) == 477 && DigitWeights(9) == 2325;
  }

  /** Nonempty data check the same exactly when both sums agree modulo 255. */
  lemma SameChecksum(d: seq<Byte>, e: seq<Byte>, v: int, w: int)
    requires d != [] && e != []
    requires v == Weighted(d, |d|) && w == Weighted(e, |e|)
    ensures Checksum(d) == Checksum(e) <==> (Sum(e) - Sum(d)) % 255 == 0 && (w - v) % 255 == 0
  {
    CheckedSums(d, v);
    CheckedSums(e, w);
    SameResidues(Sums(d).0, Sums(d).1, Sums(e).0, Sums(e).1, Sum(d), Sum(e), v, w);
  }

  lemma {:induction false} SumAfterChange(data: seq<Byte>, i: nat, x: Byte, n: int)
    requires i < |data|
    ensures Sum(data[i := x]) == Sum(data) + (x - data[i])
    ensures Weighted(data[i := x], n) == Weighted(data, n) + (n - i) * (x - data[i])
  {
    var k := |data| - 1;
    var changed := data[i := x];
    if i < k {
      SumAfterChange(data[..k], i, x, n);
      assert changed[..k] == data[..k][i := x];
    } else {
      assert changed[..k] == data[..k];
      assert (n - k) * x == (n - k) * data[k] + (n - k) * (x - data[k]);
    }
  }

  lemma MultipleOf255(k: int, d: int)
    requires d % 255 == 0
    ensures (k * d) % 255 == 0
  {
    var q := d / 255;
    assert k * d == (k * q) * 255;
  }

  /** A one-byte change goes unseen exactly when it turns 0x00 into 0xFF or back (or changes nothing). */
  lemma OneByteChange(data: seq<Byte>, i: nat, x: Byte)
    requires i < |data|
    ensures Checksum(data[i := x]) == Checksum(data) <==>
              x == data[i] || (x == 0 && data[i] == 255) || (x == 255 && data[i] == 0)
  {
    var d, k := x - data[i], |data| - i;
    var v := Weighted(data, |data|);
    SumAfterChange(data, i, x, |data|);
    SameChecksum(data, data[i := x], v, v + k * d);
    if d % 255 == 0 {
      MultipleOf255(k, d);
    }
  }

  lemma ExchangeWeight(n: int, i: int, j: int, a: int, b: int)
    ensures (n - i) * (b - a) + (n - j) * (a - b) == -((a - b) * (j - i))
  {
  }

  lemma NegatedResidue(d: int)
    ensures (-d) % 255 == 0 <==> d % 255 == 0
  {
  }

  /** Exchanging the bytes at `i` and `j` goes unseen exactly when 255 divides the product
    * of their difference and their distance. */
  lemma Exchange(data: seq<Byte>, i: nat, j: nat)
    requires i < j < |data|
    ensures Checksum(data[i := data[j]][j := data[i]]) == Checksum(data) <==>
              ((data[i] - data[j]) * (j - i)) % 255 == 0
  {
    var a, b, n := data[i], data[j], |data|;
    var half := data[i := b];
    SumAfterChange(data, i, b, n);
    SumAfterChange(half, j, a, n);
    var d := (a - b) * (j - i);
    ExchangeWeight(n, i, j, a, b);
    var v := Weighted(data, n);
    SameChecksum(data, half[j := a], v, v - d);
    NegatedResidue(d);
  }
}

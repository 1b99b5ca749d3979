/** The Wiimote extension port (wiimote.c, ext_crypto.c): a 256-byte register bank read in replies of
  * at most 16 bytes, enciphered once the host has written its 16-byte key. The constant tables of
  * the cipher are parameters. */
module Extension {
  import opened Bytes
  import opened Words

  const BANK := 256
  const CHUNK := 16
  const KEY_AT := 0x40
  const KEY_END := 0x50
  const CONTROL := 0xF0

  // ----- the cipher -----

  /** `k_keygen`, `k_ans` and `k_sbox`. */
  datatype Constants = Constants(keygen: seq<Byte>, ans: seq<seq<Byte>>, sbox: seq<seq<Byte>>)

  ghost predicate Sized(c: Constants)
  {
    && |c.keygen| == 256
    && |c.ans| == 7 && (forall i :: 0 <= i < 7 ==> |c.ans[i]| == 6)
    && |c.sbox| == 8 && forall i :: 0 <= i < 8 ==> |c.sbox[i]| == 256
  }

  /** `ext_crypto_t`. */
  datatype Tables = Tables(ft: seq<Byte>, sb: seq<Byte>)

  ghost predicate TablesOk(t: Tables) { |t.ft| == 8 && |t.sb| == 8 }

  function At(table: seq<Byte>, i: Byte): Byte
    requires |table| == 256
  {
    table[i]
  }

  /** `addr & 7`. */
  function Slot(addr: nat): (k: nat)
    ensures k < 8
  {
    if addr < 8 then addr else Slot(addr - 8)
  }

  /** `v` rotated right `n` times by one bit. */
  function Rotated(v: Byte, n: nat): Byte
  {
    if n == 0 then v else
    var r := Rotated(v, n - 1);
    if Odd(r) then Half(r) + 128 else Half(r)
  }

  function Ror8(v: Byte, n: Byte): Byte { Rotated(v, Slot(n)) }

  function Scrambled(c: Constants, key: seq<Byte>): (t: seq<Byte>)
    requires Sized(c) && |key| == 16
    ensures |t| == 10
  {
    seq(10, i requires 0 <= i < 10 => At(c.keygen, key[9 - i]))
  }

  function Answer(a: Byte, x: Byte, turn: Byte, less: Byte, y: Byte): Byte
  {
    XorByte(Minus(Ror8(XorByte(a, x), turn), less), y)
  }

  /** The test `ExtCrypto_GenTables` puts to each candidate row of answers. */
  predicate Answers(a: seq<Byte>, t0: seq<Byte>, key: seq<Byte>)
    requires |a| == 6 && |t0| == 10 && |key| == 16
  {
    && key[0xf] == Answer(a[0], t0[5], t0[2], t0[9], t0[4])
    && key[0xe] == Answer(a[1], t0[1], t0[0], t0[5], t0[7])
    && key[0xd] == Answer(a[2], t0[6], t0[8], t0[2], t0[0])
    && key[0xc] == Answer(a[3], t0[4], t0[7], t0[3], t0[2])
    && key[0xb] == Answer(a[4], t0[1], t0[6], t0[3], t0[4])
    && key[0xa] == Answer(a[5], t0[7], t0[8], t0[5], t0[9])
  }

  /** The first answering row from `from` on, or the last row. */
  function Row(c: Constants, key: seq<Byte>, from: nat): (idx: nat)
    requires Sized(c) && |key| == 16 && from <= 7
    ensures idx <= 6
    decreases 7 - from, c
  {
    if from == 7 then 6
    else if Answers(c.ans[from], Scrambled(c, key), key) then from
    else Row(c, key, from + 1)
  }

  function Mix(c: Constants, row: nat, x: Byte, y: Byte): Byte
    requires Sized(c) && row <= 6
  {
    XorByte(At(c.sbox[row], x), At(c.sbox[row + 1], y))
  }

  /** The sixteen entries of a key under one pair of boxes. */
  function Entries(c: Constants, r: nat, key: seq<Byte>): (t: Tables)
    requires Sized(c) && r <= 6 && |key| == 16
    ensures TablesOk(t)
  {
    Tables([Mix(c, r, key[0xb], key[0x6]), Mix(c, r, key[0xd], key[0x4]), Mix(c, r, key[0xa], key[0x2]),
            Mix(c, r, key[0xf], key[0x7]), Mix(c, r, key[0xe], key[0x5]), Mix(c, r, key[0xc], key[0x0]),
            Mix(c, r, key[0x9], key[0x3]), Mix(c, r, key[0x8], key[0x1])],
           [Mix(c, r, key[0xf], key[0x8]), Mix(c, r, key[0xa], key[0x5]), Mix(c, r, key[0xc], key[0x9]),
            Mix(c, r, key[0xd], key[0x0]), Mix(c, r, key[0xb], key[0x2]), Mix(c, r, key[0xe], key[0x1]),
            Mix(c, r, key[0x6], key[0x4]), Mix(c, r, key[0x7], key[0x3])])
  }

  /** The tables derived from a key. */
  function Derived(c: Constants, key: seq<Byte>): (t: Tables)
    requires Sized(c) && |key| == 16
    ensures TablesOk(t)
  {
    Entries(c, Row(c, key, 0), key)
  }

  /** `ExtCrypto_GenTables`: the scan over the candidate rows, then the sixteen entries. */
  method GenTables(c: Constants, key: seq<Byte>) returns (t: Tables)
    requires Sized(c) && |key| == 16
    ensures t == Derived(c, key)
  {
    var t0 := Scrambled(c, key);
    var idx := 0;
    while idx < 7 && !Answers(c.ans[idx], t0, key)
      invariant 0 <= idx <= 7
      invariant Row(c, key, 0) == Row(c, key, idx)
    {
      idx := idx + 1;
    }
    if idx > 6 { idx := 6; }
    t := Entries(c, idx, key);
  }

  /** One byte through one pair of table entries, and back. */
  function Mask(b: Byte, f: Byte, s: Byte): Byte { XorByte(Minus(b, f), s) }

  function Unmask(b: Byte, f: Byte, s: Byte): Byte { Plus(XorByte(b, s), f) }

  lemma UnmaskMask(b: Byte, f: Byte, s: Byte)
    ensures Unmask(Mask(b, f, s), f, s) == b
  {
    XorTwice(Minus(b, f), s);
  }

  function Encrypt(t: Tables, data: seq<Byte>, addr: nat): seq<Byte>
    requires TablesOk(t)
  {
    seq(|data|, i requires 0 <= i < |data| => Mask(data[i], t.ft[Slot(addr + i)], t.sb[Slot(addr + i)]))
  }

  function Decrypt(t: Tables, data: seq<Byte>, addr: nat): seq<Byte>
    requires TablesOk(t)
  {
    seq(|data|, i requires 0 <= i < |data| => Unmask(data[i], t.ft[Slot(addr + i)], t.sb[Slot(addr + i)]))
  }

  /** Deciphering undoes enciphering, at any address and length. */
  lemma CipherRoundTrip(t: Tables, data: seq<Byte>, addr: nat)
    requires TablesOk(t)
    ensures Decrypt(t, Encrypt(t, data, addr), addr) == data
  {
    var coded := Encrypt(t, data, addr);
    forall i | 0 <= i < |data|
      ensures Decrypt(t, coded, addr)[i] == data[i]
    {
      var f, s := t.ft[Slot(addr + i)], t.sb[Slot(addr + i)];
      UnmaskMask(data[i], f, s);
    }
  }

  /** `ExtCrypto_Encrypt`, in place. */
  method ExtCryptoEncrypt(t: Tables, buf: array<Byte>, addr: nat, len: nat)
    requires TablesOk(t) && len <= buf.Length
    modifies buf
    ensures buf[..len] == Encrypt(t, old(buf[..len]), addr)
    ensures forall j :: len <= j < buf.Length ==> buf[j] == old(buf[j])
  {
    ghost var coded := Encrypt(t, buf[..len], addr);
    for i := 0 to len
      invariant forall j :: 0 <= j < i ==> buf[j] == coded[j]
      invariant forall j :: i <= j < buf.Length ==> buf[j] == old(buf[j])
    {
      var k := Slot(i + addr);
      buf[i] := Mask(buf[i], t.ft[k], t.sb[k]);
    }
  }

  // ----- the port -----

  /** The port's static state: the registered extension's bank and the cipher handshake. */
  datatype Port = Port(attached: bool, regs: seq<Byte>, cryptOn: bool, armed: bool, tables: Tables)

  ghost predicate PortOk(p: Port)
  {
    |p.regs| == BANK && TablesOk(p.tables) && (p.cryptOn ==> p.armed)
  }

  /** A register address, as the three bytes it arrives in. */
  datatype Address = Address(space: Byte, page: Byte, idx: Byte)

  /** Only spaces 0xA4 and 0xA5 are backed, and only with an extension registered. */
  predicate Backed(attached: bool, at: Address)
  {
    attached && (at.space == 0xA4 || at.space == 0xA5)
  }

  function Stored(regs: seq<Byte>, idx: nat, data: seq<Byte>): (r: seq<Byte>)
    requires |regs| == BANK
    ensures |r| == BANK
    ensures forall i :: 0 <= i < BANK ==> r[i] == if idx <= i < idx + |data| then data[i - idx] else regs[i]
  {
    seq(BANK, i requires 0 <= i < BANK => if idx <= i < idx + |data| then data[i - idx] else regs[i])
  }

  function KeyOf(regs: seq<Byte>): (key: seq<Byte>)
    requires |regs| == BANK
    ensures |key| == 16
  {
    regs[KEY_AT..KEY_END]
  }

  predicate StartsInKey(idx: nat) { KEY_AT <= idx < KEY_END }

  /** The cipher handshake a write at bank index `idx` may carry: 0x55 to 0xF0 ends it, 0xAA to 0xF0
    * arms it, and once armed any write starting in the key area derives the tables anew. */
  function Handshake(c: Constants, p: Port, idx: nat, data: seq<Byte>): (q: Port)
    requires Sized(c) && PortOk(p)
    ensures PortOk(q)
  {
    var h := if idx == CONTROL && |data| >= 1 then
               if data[0] == 0x55 then p.(cryptOn := false, armed := false)
               else if data[0] == 0xAA then p.(armed := true) else p
             else p;
    if h.armed && StartsInKey(idx) then h.(tables := Derived(c, KeyOf(h.regs)), cryptOn := true) else h
  }

  /** `write_register`. */
  function Written(c: Constants, p: Port, at: Address, data: seq<Byte>): (q: Port)
    requires Sized(c) && PortOk(p)
    ensures PortOk(q)
  {
    if !Backed(p.attached, at) then p
    else Handshake(c, p.(regs := Stored(p.regs, at.idx, data)), at.idx, data)
  }

  /** One 0x21 reply: the low two bytes of its address, and its data. */
  datatype Reply = Reply(page: Byte, idx: nat, data: seq<Byte>)

  function Joined(rs: seq<Reply>): seq<Byte>
  {
    if rs == [] then [] else Joined(rs[..|rs| - 1]) + rs[|rs| - 1].data
  }

  /** The bank index a read of `size` bytes from `idx` stops at. */
  function Stop(idx: nat, size: nat): (stop: nat)
    requires idx <= BANK
    ensures idx <= stop <= BANK
  {
    if idx + size <= BANK then idx + size else BANK
  }

  function End(at: Address, size: nat): nat { Stop(at.idx, size) }

  /** Bank byte `i` as replied. */
  function Aired(p: Port, ext: bool, i: nat): Byte
    requires PortOk(p) && i < BANK
  {
    if !ext then 0
    else if p.cryptOn then Mask(p.regs[i], p.tables.ft[Slot(i)], p.tables.sb[Slot(i)])
    else p.regs[i]
  }

  function Piece(p: Port, ext: bool, lo: nat, hi: nat): (data: seq<Byte>)
    requires PortOk(p) && lo <= hi <= BANK
    ensures |data| == hi - lo
  {
    if lo == hi then [] else Piece(p, ext, lo, hi - 1) + [Aired(p, ext, hi - 1)]
  }

  lemma {:induction false} PieceAt(p: Port, ext: bool, lo: nat, hi: nat)
    requires PortOk(p) && lo <= hi <= BANK
    ensures forall i :: lo <= i < hi ==> Piece(p, ext, lo, hi)[i - lo] == Aired(p, ext, i)
  {
    if lo < hi {
      PieceAt(p, ext, lo, hi - 1);
    }
  }

  /** The same bytes as one enciphered slice. */
  function Slice(p: Port, ext: bool, lo: nat, hi: nat): (data: seq<Byte>)
    requires PortOk(p) && lo <= hi <= BANK
    ensures |data| == hi - lo
  {
    if !ext then seq(hi - lo, _ => 0)
    else if p.cryptOn then Encrypt(p.tables, p.regs[lo..hi], lo)
    else p.regs[lo..hi]
  }

  lemma SliceAt(p: Port, ext: bool, lo: nat, hi: nat, j: nat)
    requires PortOk(p) && lo <= hi <= BANK && j < hi - lo
    ensures Slice(p, ext, lo, hi)[j] == Aired(p, ext, lo + j)
  {
  }

  lemma PieceIsSlice(p: Port, ext: bool, lo: nat, hi: nat)
    requires PortOk(p) && lo <= hi <= BANK
    ensures Piece(p, ext, lo, hi) == Slice(p, ext, lo, hi)
  {
    PieceAt(p, ext, lo, hi);
    var a, b := Piece(p, ext, lo, hi), Slice(p, ext, lo, hi);
    forall j | 0 <= j < hi - lo
      ensures a[j] == b[j]
    {
      var i := lo + j;
      SliceAt(p, ext, lo, hi, j);
      assert a[i - lo] == Aired(p, ext, i);
    }
  }

  /** The bytes a read of `size` bytes at `at` puts on the air, taken together. */
  function OnAir(p: Port, at: Address, size: nat): seq<Byte>
    requires PortOk(p)
  {
    Slice(p, Backed(p.attached, at), at.idx, End(at, size))
  }

  lemma {:induction false} PiecesMeet(p: Port, ext: bool, lo: nat, mid: nat, hi: nat)
    requires PortOk(p) && lo <= mid <= hi <= BANK
    ensures Piece(p, ext, lo, mid) + Piece(p, ext, mid, hi) == Piece(p, ext, lo, hi)
  {
    if mid < hi {
      PiecesMeet(p, ext, lo, mid, hi - 1);
      assert Piece(p, ext, lo, mid) + (Piece(p, ext, mid, hi - 1) + [Aired(p, ext, hi - 1)])
          == (Piece(p, ext, lo, mid) + Piece(p, ext, mid, hi - 1)) + [Aired(p, ext, hi - 1)];
    }
  }

  predicate AllFull(rs: seq<Reply>) { forall i :: 0 <= i < |rs| ==> |rs[i].data| == CHUNK }

  /** The replies follow each other through the page from bank index `lo` to `hi`, 16 bytes each but
    * the last, which has 1 to 16. */
  predicate WellCut(rs: seq<Reply>, page: Byte, lo: nat, hi: nat)
  {
    if rs == [] then lo == hi else
    var front, last := rs[..|rs| - 1], rs[|rs| - 1];
    && last.page == page && last.idx + |last.data| == hi && 1 <= |last.data| <= CHUNK
    && AllFull(front) && WellCut(front, page, lo, last.idx)
  }

  /** How many bytes the next reply carries: at most 16, what is left, and up to the bank's end. */
  function NextSize(idx: nat, left: nat): (n: nat)
    requires idx < BANK && left > 0
    ensures 1 <= n <= CHUNK && n <= left && idx + n <= BANK
    ensures n == CHUNK || n == left || idx + n == BANK
  {
    var chunk := if left > CHUNK then CHUNK else left;
    if idx + chunk > BANK then BANK - idx else chunk
  }

  /** The payload of one reply: a copy of the bank, enciphered in place when the cipher is on. */
  method Payload(p: Port, ext: bool, idx: nat, chunk: nat) returns (data: seq<Byte>)
    requires PortOk(p) && chunk <= CHUNK && idx + chunk <= BANK
    ensures data == Slice(p, ext, idx, idx + chunk)
  {
    if !ext { return seq(chunk, _ => 0); }
    var buf := new Byte[CHUNK](i requires 0 <= i < CHUNK => if i < chunk && idx + i < BANK then p.regs[idx + i] else 0);
    assert buf[..chunk] == p.regs[idx..idx + chunk];
    if p.cryptOn {
      ExtCryptoEncrypt(p.tables, buf, idx, chunk);
    }
    data := buf[..chunk];
  }

  /** One turn of the reply loop. */
  method MakeReply(p: Port, ext: bool, page: Byte, idx: nat, left: nat) returns (r: Reply)
    requires PortOk(p) && idx < BANK && left > 0
    ensures r.page == page && r.idx == idx && |r.data| == NextSize(idx, left)
    ensures r.data == Piece(p, ext, idx, idx + |r.data|)
  {
    var chunk := if left > CHUNK then CHUNK else left;
    if idx + chunk > BANK { chunk := BANK - idx; }
    var data := Payload(p, ext, idx, chunk);
    PieceIsSlice(p, ext, idx, idx + chunk);
    r := Reply(page, idx, data);
  }

  lemma FrontOf(rs: seq<Reply>, r: Reply)
    ensures var all := rs + [r]; all[..|all| - 1] == rs && all[|all| - 1] == r
  {
  }

  lemma CutOne(rs: seq<Reply>, r: Reply, page: Byte, lo: nat)
    requires AllFull(rs) && WellCut(rs, page, lo, r.idx) && r.page == page && 1 <= |r.data| <= CHUNK
    ensures WellCut(rs + [r], page, lo, r.idx + |r.data|) && (|r.data| == CHUNK ==> AllFull(rs + [r]))
  {
    FrontOf(rs, r);
  }

  lemma JoinOne(p: Port, ext: bool, rs: seq<Reply>, r: Reply, lo: nat)
    requires PortOk(p) && lo <= r.idx && r.idx + |r.data| <= BANK
    requires Joined(rs) == Piece(p, ext, lo, r.idx) && r.data == Piece(p, ext, r.idx, r.idx + |r.data|)
    ensures Joined(rs + [r]) == Piece(p, ext, lo, r.idx + |r.data|)
  {
    FrontOf(rs, r);
    PiecesMeet(p, ext, lo, r.idx, r.idx + |r.data|);
  }

  /** The reply loop of `read_register`; the address advances within its page until the loop ends. */
  method SendReplies(p: Port, ext: bool, at: Address, size: nat) returns (replies: seq<Reply>)
    requires PortOk(p)
    ensures Joined(replies) == Piece(p, ext, at.idx, End(at, size))
    ensures WellCut(replies, at.page, at.idx, End(at, size))
  {
    var idx: nat, left: nat := at.idx, size;
    replies := [];
    while left > 0
      invariant at.idx <= idx <= BANK && Stop(idx, left) == End(at, size)
      invariant left > 0 ==> idx < BANK && AllFull(replies)
      invariant Joined(replies) == Piece(p, ext, at.idx, idx)
      invariant WellCut(replies, at.page, at.idx, idx)
      decreases left
    {
      var r := MakeReply(p, ext, at.page, idx, left);
      CutOne(replies, r, at.page, at.idx);
      JoinOne(p, ext, replies, r, at.idx);
      replies := replies + [r];
      idx := idx + |r.data|;
      left := left - |r.data|;
      if idx >= BANK { break; }
    }
  }

  /** The bank part of `write_register`, byte by byte, dropping what would run past the end. */
  method StoreBytes(bank: array<Byte>, idx: nat, data: seq<Byte>)
    requires bank.Length == BANK && idx < BANK
    modifies bank
    ensures bank[..] == Stored(old(bank[..]), idx, data)
  {
    var i := 0;
    while i < |data| && idx + i < BANK
      invariant 0 <= i <= |data| && idx + i <= BANK
      invariant forall j :: 0 <= j < BANK ==>
        bank[j] == if idx <= j < idx + i then data[j - idx] else old(bank[j])
    {
      bank[idx + i] := data[i];
      i := i + 1;
    }
  }

  class ExtensionPort {
    const consts: Constants
    var attached: bool
    const regs: array<Byte>
    var cryptOn: bool
    var armed: bool
    var tables: Tables

    ghost function Now(): Port
      reads this, regs
    {
      Port(attached, regs[..], cryptOn, armed, tables)
    }

    ghost predicate Valid()
      reads this, regs
    {
      Sized(consts) && PortOk(Now())
    }

    constructor (c: Constants, bank: array<Byte>)
      requires Sized(c) && bank.Length == BANK
      ensures Valid() && consts == c && regs == bank
      ensures Now() == Port(true, bank[..], false, false, Tables(seq(8, _ => 0), seq(8, _ => 0)))
    {
      consts, attached, regs, cryptOn, armed := c, true, bank, false, false;
      tables := Tables(seq(8, _ => 0), seq(8, _ => 0));
    }

    method WriteRegister(at: Address, data: seq<Byte>)
      requires Valid()
      modifies this, regs
      ensures Valid() && Now() == Written(consts, old(Now()), at, data)
    {
      if !Backed(attached, at) { return; }
      var idx := at.idx;
      StoreBytes(regs, idx, data);
      Shake(idx, data);
    }

    method Shake(idx: nat, data: seq<Byte>)
      requires Valid()
      modifies `cryptOn, `armed, `tables
      ensures Valid() && Now() == Handshake(consts, old(Now()), idx, data)
    {
      if idx == CONTROL && |data| >= 1 {
        if data[0] == 0x55 {
          cryptOn, armed := false, false;
        } else if data[0] == 0xAA {
          armed := true;
        }
      }
      if armed && KEY_AT <= idx <= 0x4F {
        tables := GenTables(consts, KeyOf(regs[..]));
        cryptOn := true;
      }
    }

    method ReadRegister(at: Address, size: nat) returns (replies: seq<Reply>)
      requires Valid()
      ensures Joined(replies) == OnAir(Now(), at, size)
      ensures WellCut(replies, at.page, at.idx, End(at, size))
    {
      var p, ext := Port(attached, regs[..], cryptOn, armed, tables), Backed(attached, at);
      replies := SendReplies(p, ext, at, size);
      PieceIsSlice(p, ext, at.idx, End(at, size));
    }
  }

  // ----- the key handshake over whole runs -----

  /** One write as the host sends it. */
  datatype Write = Write(at: Address, data: seq<Byte>)

  function Run(c: Constants, p: Port, ws: seq<Write>): (q: Port)
    requires Sized(c) && PortOk(p)
    ensures PortOk(q)
  {
    if ws == [] then p else
    var w := ws[|ws| - 1];
    Written(c, Run(c, p, ws[..|ws| - 1]), w.at, w.data)
  }

  /** The cipher is using the key the bank holds. */
  ghost predicate Synced(c: Constants, p: Port)
    requires Sized(c) && PortOk(p)
  {
    p.cryptOn && p.tables == Derived(c, KeyOf(p.regs))
  }

  /** The write reaches bank byte `k` from a start inside the key area. */
  predicate Hits(w: Write, k: nat)
  {
    var idx := w.at.idx;
    Backed(true, w.at) && StartsInKey(idx) && idx <= k < idx + |w.data|
  }

  /** A piece of the key: it starts inside the key area and every byte it puts there is the key's. */
  predicate KeyPiece(key: seq<Byte>, w: Write)
    requires |key| == 16
  {
    var idx := w.at.idx;
    && Backed(true, w.at) && StartsInKey(idx)
    && forall k :: KEY_AT <= k < KEY_END && Hits(w, k) ==> w.data[k - idx] == key[k - KEY_AT]
  }

  /** A write that leaves the key area and the control byte alone. */
  predicate Elsewhere(w: Write)
  {
    var idx := w.at.idx;
    !Backed(true, w.at) || (idx != CONTROL && (KEY_END <= idx || (idx < KEY_AT && idx + |w.data| <= KEY_AT)))
  }

  predicate Covered(ws: seq<Write>, k: nat)
  {
    ws != [] && (Hits(ws[|ws| - 1], k) || Covered(ws[..|ws| - 1], k))
  }

  /** What holds while an armed port is being given its key: the bytes so far covered are the key's,
    * and once any piece has come the tables belong to the bank's present key bytes. */
  ghost predicate Assembling(c: Constants, q: Port, key: seq<Byte>, ws: seq<Write>)
    requires Sized(c) && PortOk(q) && |key| == 16
  {
    && q.attached && q.armed
    && (forall k :: KEY_AT <= k < KEY_END && Covered(ws, k) ==> q.regs[k] == key[k - KEY_AT])
    && (Covered(ws, KEY_AT) ==> Synced(c, q))
  }

  lemma SameKey(r: seq<Byte>, q: seq<Byte>)
    requires |r| == BANK && |q| == BANK && forall k :: KEY_AT <= k < KEY_END ==> r[k] == q[k]
    ensures KeyOf(r) == KeyOf(q)
  {
  }

  lemma ShakeOutside(c: Constants, p: Port, idx: nat, data: seq<Byte>)
    requires Sized(c) && PortOk(p) && !StartsInKey(idx) && idx != CONTROL
    ensures Handshake(c, p, idx, data) == p
  {
  }

  lemma ShakeInside(c: Constants, p: Port, idx: nat, data: seq<Byte>)
    requires Sized(c) && PortOk(p) && StartsInKey(idx) && p.armed
    ensures Handshake(c, p, idx, data) == p.(tables := Derived(c, KeyOf(p.regs)), cryptOn := true)
  {
  }

  lemma ElsewhereKeeps(c: Constants, q: Port, w: Write)
    requires Sized(c) && PortOk(q) && Elsewhere(w)
    ensures var r := Written(c, q, w.at, w.data);
      && r == q.(regs := r.regs)
      && KeyOf(r.regs) == KeyOf(q.regs) && forall k :: KEY_AT <= k < KEY_END ==> r.regs[k] == q.regs[k]
  {
    if Backed(q.attached, w.at) {
      var idx := w.at.idx;
      var regs := Stored(q.regs, idx, w.data);
      ShakeOutside(c, q.(regs := regs), idx, w.data);
      SameKey(regs, q.regs);
    }
  }

  lemma PieceLands(c: Constants, q: Port, key: seq<Byte>, w: Write)
    requires Sized(c) && PortOk(q) && q.attached && q.armed && |key| == 16 && KeyPiece(key, w)
    ensures var r := Written(c, q, w.at, w.data);
      && r.attached && r.armed && Synced(c, r)
      && forall k :: KEY_AT <= k < KEY_END ==> r.regs[k] == if Hits(w, k) then key[k - KEY_AT] else q.regs[k]
  {
    var idx := w.at.idx;
    var regs := Stored(q.regs, idx, w.data);
    ShakeInside(c, q.(regs := regs), idx, w.data);
  }

  lemma {:induction false} KeyAssembles(c: Constants, p: Port, key: seq<Byte>, ws: seq<Write>)
    requires Sized(c) && PortOk(p) && p.attached && p.armed && |key| == 16
    requires forall w :: w in ws ==> KeyPiece(key, w) || Elsewhere(w)
    ensures Assembling(c, Run(c, p, ws), key, ws)
  {
    if ws != [] {
      var n := |ws| - 1;
      KeyAssembles(c, p, key, ws[..n]);
      var q := Run(c, p, ws[..n]);
      if KeyPiece(key, ws[n]) {
        PieceLands(c, q, key, ws[n]);
      } else {
        ElsewhereKeeps(c, q, ws[n]);
      }
    }
  }

  lemma Arms(c: Constants, p: Port, w: Write)
    requires Sized(c) && PortOk(p) && p.attached && Backed(true, w.at)
    requires w.at.idx == CONTROL && |w.data| >= 1 && w.data[0] == 0xAA
    ensures Written(c, p, w.at, w.data).attached && Written(c, p, w.at, w.data).armed
  {
  }

  lemma KeyIs(regs: seq<Byte>, key: seq<Byte>)
    requires |regs| == BANK && |key| == 16 && forall k :: KEY_AT <= k < KEY_END ==> regs[k] == key[k - KEY_AT]
    ensures KeyOf(regs) == key
  {
  }

  /** Once armed, the key may be written in any pieces and order, among other writes: the cipher ends
    * up on, running on the tables of the full key. */
  lemma KeyInAnyOrder(c: Constants, p: Port, arm: Write, ws: seq<Write>, key: seq<Byte>)
    requires Sized(c) && PortOk(p) && p.attached && |key| == 16
    requires Backed(true, arm.at) && arm.at.idx == CONTROL && |arm.data| >= 1 && arm.data[0] == 0xAA
    requires forall w :: w in ws ==> KeyPiece(key, w) || Elsewhere(w)
    requires forall k :: KEY_AT <= k < KEY_END ==> Covered(ws, k)
    ensures var q := Run(c, Written(c, p, arm.at, arm.data), ws);
      && q.cryptOn && q.tables == Derived(c, key) && KeyOf(q.regs) == key
  {
    var armed := Written(c, p, arm.at, arm.data);
    Arms(c, p, arm);
    KeyAssembles(c, armed, key, ws);
    KeyIs(Run(c, armed, ws).regs, key);
  }

  /** Putting the replies of any read together, and deciphering them when the cipher is on, gives the
    * bank from the start of the read to its end or the end of the bank. */
  lemma HostRecovers(p: Port, at: Address, size: nat)
    requires PortOk(p) && Backed(p.attached, at)
    ensures var heard := OnAir(p, at, size);
      && (if p.cryptOn then Decrypt(p.tables, heard, at.idx) else heard)
         == p.regs[at.idx..End(at, size)]
  {
    if p.cryptOn {
      CipherRoundTrip(p.tables, p.regs[at.idx..End(at, size)], at.idx);
    }
  }

  // ----- when a write leaves the cipher behind the key -----

  /** Every box is injective, as the rows of `k_sbox` are: each lists all 256 byte values. */
  ghost predicate InjectiveBoxes(c: Constants)
    requires Sized(c)
  {
    forall i, x: Byte, y: Byte :: 0 <= i < 8 && At(c.sbox[i], x) == At(c.sbox[i], y) ==> x == y
  }

  /** One table entry and one of its two key bytes fix the other. */
  lemma MixFixes(c: Constants, r: nat, x: Byte, y: Byte, x': Byte, y': Byte)
    requires Sized(c) && InjectiveBoxes(c) && r <= 6 && Mix(c, r, x, y) == Mix(c, r, x', y')
    ensures x == x' <==> y == y'
  {
    var a, b := At(c.sbox[r], x), At(c.sbox[r + 1], y);
    var a', b' := At(c.sbox[r], x'), At(c.sbox[r + 1], y');
    XorCancels(a, b, b');
    XorCancels(b, a, a');
    XorCommutes(a, b);
    XorCommutes(a', b);
  }

  /** Two keys agree on byte `i` exactly if they agree on byte `j`. */
  predicate Linked(key: seq<Byte>, other: seq<Byte>, i: nat, j: nat)
    requires |key| == 16 == |other| && i < 16 && j < 16
  {
    key[i] == other[i] <==> key[j] == other[j]
  }

  /** Pairs of key bytes behind the two halves of the tables. */
  const FT_PAIRS: seq<(nat, nat)> := [(0xb, 0x6), (0xd, 0x4), (0xa, 0x2), (0xf, 0x7), (0xe, 0x5), (0xc, 0x0), (0x9, 0x3), (0x8, 0x1)]
  const SB_PAIRS: seq<(nat, nat)> := [(0xf, 0x8), (0xa, 0x5), (0xc, 0x9), (0xd, 0x0), (0xb, 0x2), (0xe, 0x1), (0x6, 0x4), (0x7, 0x3)]

  ghost predicate InKey(pair: (nat, nat)) { pair.0 < 16 && pair.1 < 16 }

  lemma FtEntry(c: Constants, r: nat, key: seq<Byte>, n: nat)
    requires Sized(c) && r <= 6 && |key| == 16 && n < 8
    ensures InKey(FT_PAIRS[n]) && Entries(c, r, key).ft[n] == Mix(c, r, key[FT_PAIRS[n].0], key[FT_PAIRS[n].1])
  {
  }

  lemma SbEntry(c: Constants, r: nat, key: seq<Byte>, n: nat)
    requires Sized(c) && r <= 6 && |key| == 16 && n < 8
    ensures InKey(SB_PAIRS[n]) && Entries(c, r, key).sb[n] == Mix(c, r, key[SB_PAIRS[n].0], key[SB_PAIRS[n].1])
  {
  }

  lemma EntriesLink(c: Constants, r: nat, key: seq<Byte>, other: seq<Byte>, n: nat)
    requires Sized(c) && InjectiveBoxes(c) && r <= 6 && |key| == 16 == |other| && n < 8
    requires Entries(c, r, key) == Entries(c, r, other)
    ensures InKey(FT_PAIRS[n]) && Linked(key, other, FT_PAIRS[n].0, FT_PAIRS[n].1)
    ensures InKey(SB_PAIRS[n]) && Linked(key, other, SB_PAIRS[n].0, SB_PAIRS[n].1)
  {
    FtEntry(c, r, key, n);
    FtEntry(c, r, other, n);
    SbEntry(c, r, key, n);
    SbEntry(c, r, other, n);
    var f, s := FT_PAIRS[n], SB_PAIRS[n];
    MixFixes(c, r, key[f.0], key[f.1], other[f.0], other[f.1]);
    MixFixes(c, r, key[s.0], key[s.1], other[s.0], other[s.1]);
  }

  /** The pairs link the sixteen key bytes in one cycle. */
  lemma CycleCloses(key: seq<Byte>, other: seq<Byte>)
    requires |key| == 16 == |other| && key[0xf] == other[0xf]
    requires forall n | 0 <= n < 8 :: InKey(FT_PAIRS[n]) && Linked(key, other, FT_PAIRS[n].0, FT_PAIRS[n].1)
    requires forall n | 0 <= n < 8 :: InKey(SB_PAIRS[n]) && Linked(key, other, SB_PAIRS[n].0, SB_PAIRS[n].1)
    ensures key == other
  {
    assert FT_PAIRS[0] == (0xb, 0x6) && FT_PAIRS[1] == (0xd, 0x4) && FT_PAIRS[2] == (0xa, 0x2) && FT_PAIRS[3] == (0xf, 0x7);
    assert FT_PAIRS[4] == (0xe, 0x5) && FT_PAIRS[5] == (0xc, 0x0) && FT_PAIRS[6] == (0x9, 0x3) && FT_PAIRS[7] == (0x8, 0x1);
    assert SB_PAIRS[0] == (0xf, 0x8) && SB_PAIRS[1] == (0xa, 0x5) && SB_PAIRS[2] == (0xc, 0x9) && SB_PAIRS[3] == (0xd, 0x0);
    assert SB_PAIRS[4] == (0xb, 0x2) && SB_PAIRS[5] == (0xe, 0x1) && SB_PAIRS[6] == (0x6, 0x4) && SB_PAIRS[7] == (0x7, 0x3);
  }

  /** So two keys with the same entries and one byte in common are the same. */
  lemma EntriesFix(c: Constants, r: nat, key: seq<Byte>, other: seq<Byte>)
    requires Sized(c) && InjectiveBoxes(c) && r <= 6 && |key| == 16 == |other|
    requires Entries(c, r, key) == Entries(c, r, other) && key[0xf] == other[0xf]
    ensures key == other
  {
    forall n | 0 <= n < 8
      ensures InKey(FT_PAIRS[n]) && Linked(key, other, FT_PAIRS[n].0, FT_PAIRS[n].1)
      ensures InKey(SB_PAIRS[n]) && Linked(key, other, SB_PAIRS[n].0, SB_PAIRS[n].1)
    {
      EntriesLink(c, r, key, other, n);
    }
    CycleCloses(key, other);
  }

  /** The write puts into the key area only bytes that are there already. */
  predicate Agrees(regs: seq<Byte>, w: Write)
    requires |regs| == BANK
  {
    var idx := w.at.idx;
    forall k :: KEY_AT <= k < KEY_END && idx <= k < idx + |w.data| ==> w.data[k - idx] == regs[k]
  }

  /** The host's command to end the cipher. */
  predicate Ends(w: Write)
  {
    w.at.idx == CONTROL && |w.data| >= 1 && w.data[0] == 0x55
  }

  /** The key the bank will hold after the write. */
  function KeyAfter(regs: seq<Byte>, w: Write): (key: seq<Byte>)
    requires |regs| == BANK
    ensures |key| == 16
  {
    KeyOf(Stored(regs, w.at.idx, w.data))
  }

  lemma AgreeingKey(regs: seq<Byte>, w: Write)
    requires |regs| == BANK
    ensures KeyAfter(regs, w) == KeyOf(regs) <==> Agrees(regs, w)
  {
    var stored, idx := Stored(regs, w.at.idx, w.data), w.at.idx;
    if KeyAfter(regs, w) == KeyOf(regs) {
      forall k | KEY_AT <= k < KEY_END && idx <= k < idx + |w.data|
        ensures w.data[k - idx] == regs[k]
      {
        assert KeyOf(stored)[k - KEY_AT] == KeyOf(regs)[k - KEY_AT];
      }
    }
  }

  lemma LastByteStays(regs: seq<Byte>, w: Write)
    requires |regs| == BANK && w.at.idx + |w.data| < KEY_END
    ensures KeyAfter(regs, w)[0xf] == KeyOf(regs)[0xf]
  {
  }

  lemma ShakeControl(c: Constants, p: Port, data: seq<Byte>)
    requires Sized(c) && PortOk(p) && p.cryptOn
    ensures var q := Handshake(c, p, CONTROL, data);
            q.regs == p.regs && q.tables == p.tables && q.cryptOn == !(|data| >= 1 && data[0] == 0x55)
  {
  }

  /** Outside the key area a write never touches the tables. */
  lemma TablesStay(c: Constants, p: Port, w: Write)
    requires Sized(c) && PortOk(p) && p.cryptOn && Backed(p.attached, w.at) && !StartsInKey(w.at.idx)
    ensures var q := Written(c, p, w.at, w.data);
            q.tables == p.tables && KeyOf(q.regs) == KeyAfter(p.regs, w) && q.cryptOn == !Ends(w)
  {
    var idx := w.at.idx;
    var s := p.(regs := Stored(p.regs, idx, w.data));
    if idx == CONTROL { ShakeControl(c, s, w.data); } else { ShakeOutside(c, s, idx, w.data); }
  }

  lemma TablesFollow(c: Constants, p: Port, w: Write)
    requires Sized(c) && PortOk(p) && p.cryptOn && Backed(p.attached, w.at) && StartsInKey(w.at.idx)
    ensures Synced(c, Written(c, p, w.at, w.data))
  {
    ShakeInside(c, p.(regs := Stored(p.regs, w.at.idx, w.data)), w.at.idx, w.data);
  }

  /** Exactly which writes keep a running cipher on the bank's key: those that start inside the key
    * area, and of the others those that neither end it nor change a key byte. A write that starts
    * below the key area must leave the last key byte alone, as every write of up to 16 bytes does,
    * and the changed key must be answered by the same candidate row. */
  lemma StaysSynced(c: Constants, p: Port, w: Write)
    requires Sized(c) && InjectiveBoxes(c) && PortOk(p) && Synced(c, p) && Backed(p.attached, w.at)
    requires w.at.idx < KEY_AT ==> w.at.idx + |w.data| < KEY_END
    requires StartsInKey(w.at.idx) || Row(c, KeyAfter(p.regs, w), 0) == Row(c, KeyOf(p.regs), 0)
    ensures Synced(c, Written(c, p, w.at, w.data)) <==>
              StartsInKey(w.at.idx) || (!Ends(w) && Agrees(p.regs, w))
  {
    if StartsInKey(w.at.idx) {
      TablesFollow(c, p, w);
    } else {
      TablesStay(c, p, w);
      AgreeingKey(p.regs, w);
      var key, was := KeyAfter(p.regs, w), KeyOf(p.regs);
      if w.at.idx < KEY_AT && Derived(c, key) == Derived(c, was) {
        LastByteStays(p.regs, w);
        EntriesFix(c, Row(c, was, 0), key, was);
      }
    }
  }

  /** Whatever the boxes and rows, a write that changes no key byte and does not end the cipher, or
    * that starts inside the key area, keeps it on the bank's key. */
  lemma HarmlessWrites(c: Constants, p: Port, w: Write)
    requires Sized(c) && PortOk(p) && Synced(c, p) && Backed(p.attached, w.at)
    requires StartsInKey(w.at.idx) || (!Ends(w) && Agrees(p.regs, w))
    ensures Synced(c, Written(c, p, w.at, w.data))
  {
    if StartsInKey(w.at.idx) {
      TablesFollow(c, p, w);
    } else {
      TablesStay(c, p, w);
      AgreeingKey(p.regs, w);
    }
  }

  /** The constants of the source as far as the example below meets them: two entries of `k_keygen`
    * and the first column of `k_ans`. */
  ghost predicate SourceEntries(c: Constants)
    requires Sized(c)
  {
    && c.keygen[0] == 0x70 && c.keygen[1] == 0x51
    && c.ans[0][0] == 0xa8 && c.ans[1][0] == 0x5a && c.ans[2][0] == 0x8f && c.ans[3][0] == 0x0d
    && c.ans[4][0] == 0x20 && c.ans[5][0] == 0xa9 && c.ans[6][0] == 0x30
  }

  /** A key that is zero but for its first byte, 0 or 1. */
  ghost predicate NearlyZero(key: seq<Byte>)
  {
    |key| == 16 && key[0] <= 1 && forall i | 1 <= i < 16 :: key[i] == 0
  }

  lemma ScrambledBytes(c: Constants, key: seq<Byte>)
    requires Sized(c) && SourceEntries(c) && NearlyZero(key)
    ensures var t0 := Scrambled(c, key);
      t0[2] == 0x70 && t0[4] == 0x70 && t0[5] == 0x70 && (t0[9] == 0x70 || t0[9] == 0x51)
  {
  }

  predicate SourceAnswer(a: nat)
  {
    a == 0xa8 || a == 0x5a || a == 0x8f || a == 0x0d || a == 0x20 || a == 0xa9 || a == 0x30
  }

  lemma FirstColumn(c: Constants, i: nat)
    requires Sized(c) && SourceEntries(c) && i < 7
    ensures SourceAnswer(c.ans[i][0])
  {
  }

  lemma {:induction false} SlotOfMultiple(k: nat)
    ensures Slot(8 * k) == 0
  {
    if k > 0 { SlotOfMultiple(k - 1); }
  }

  lemma AnswerNotZero(a: Byte, t: Byte, less: Byte)
    requires SourceAnswer(a) && t == 0x70 && (less == 0x70 || less == 0x51)
    ensures Answer(a, t, t, less, t) != 0
  {
    SlotOfMultiple(14);
    AnswersWhen(a, t, less);
    FirstEquationFails(a, t, less);
  }

  lemma FirstAnswerNotZero(c: Constants, key: seq<Byte>, i: nat)
    requires Sized(c) && SourceEntries(c) && NearlyZero(key) && i < 7
    ensures var t0 := Scrambled(c, key); Answer(c.ans[i][0], t0[5], t0[2], t0[9], t0[4]) != 0
  {
    var t0 := Scrambled(c, key);
    ScrambledBytes(c, key);
    FirstColumn(c, i);
    AnswerNotZero(c.ans[i][0], t0[2], t0[9]);
  }

  lemma RowFails(c: Constants, key: seq<Byte>, i: nat)
    requires Sized(c) && SourceEntries(c) && NearlyZero(key) && i < 7
    ensures !Answers(c.ans[i], Scrambled(c, key), key)
  {
    FirstAnswerNotZero(c, key, i);
    FirstEquation(c.ans[i], Scrambled(c, key), key);
  }

  lemma FirstEquation(a: seq<Byte>, t0: seq<Byte>, key: seq<Byte>)
    requires |a| == 6 && |t0| == 10 && |key| == 16
    ensures Answers(a, t0, key) ==> key[0xf] == Answer(a[0], t0[5], t0[2], t0[9], t0[4])
  {
  }

  lemma {:induction false} NoRowAnswers(c: Constants, key: seq<Byte>, from: nat)
    requires Sized(c) && SourceEntries(c) && NearlyZero(key) && from <= 7
    ensures Row(c, key, from) == 6
    decreases 7 - from, c
  {
    if from < 7 {
      RowFails(c, key, from);
      NoRowAnswers(c, key, from + 1);
    }
  }

  /** When a row's first equation holds, all scrambled bytes but the subtracted one being `t`. */
  lemma AnswersWhen(a: Byte, t: Byte, less: Byte)
    requires Slot(t) == 0
    ensures Answer(a, t, t, less, t) == 0 <==> XorByte(a, t) == Plus(t, less)
  {
    var x := XorByte(a, t);
    assert Ror8(x, t) == x;
    XorZero(Minus(x, less), t);
  }

  /** It fails for every row: 0x70 leaves the low four bits alone, which rules 0xC1 out, and of the two
    * bytes with the low bits of 0xE0 neither is large enough. */
  lemma FirstEquationFails(a: Byte, t: Byte, less: Byte)
    requires SourceAnswer(a) && t == 0x70 && (less == 0x70 || less == 0x51)
    ensures XorByte(a, t) != Plus(t, less)
  {
    LowFourKept(a, t);
    XorAtMost(a, t);
    LowFourDiffer(a, Plus(t, less));
  }

  lemma LowFourDiffer(a: nat, x: nat)
    requires SourceAnswer(a) && (x == 0xE0 || x == 0xC1)
    ensures SameLow(x, a, 4) ==> x == 0xE0 && a <= 0x30
  {
  }

  lemma LowFourKept(a: nat, t: nat)
    requires t == 0x70
    ensures SameLow(Xor(a, t), a, 4)
  {
    assert SameLow(t, 0, 4);
    XorKeepsLow(a, t, 4);
  }

  /** The failing input, met with the source's constants: the cipher is running on the all-zero key
    * and two bytes, 0 and 1, are written from one byte below the key area. The bank's key is then
    * 1, 0, ... but the tables stay those of the zero key. */
  lemma RunInGoesStale(c: Constants, p: Port, w: Write)
    requires Sized(c) && InjectiveBoxes(c) && SourceEntries(c)
    requires PortOk(p) && p.attached && Synced(c, p) && forall i | 0 <= i < 16 :: KeyOf(p.regs)[i] == 0
    requires w.at == Address(0xA4, 0, 0x3F) && w.data == [0, 1]
    ensures !Synced(c, Written(c, p, w.at, w.data))
  {
    ZeroKeyTouched(p.regs, w);
    NoRowAnswers(c, KeyAfter(p.regs, w), 0);
    NoRowAnswers(c, KeyOf(p.regs), 0);
    StaysSynced(c, p, w);
  }

  lemma ZeroKeyTouched(regs: seq<Byte>, w: Write)
    requires |regs| == BANK && forall i | 0 <= i < 16 :: KeyOf(regs)[i] == 0
    requires w.at == Address(0xA4, 0, 0x3F) && w.data == [0, 1]
    ensures w.at.idx == 0x3F && Backed(true, w.at) && !Agrees(regs, w)
    ensures KeyAfter(regs, w)[0] == 1 && forall i | 1 <= i < 16 :: KeyAfter(regs, w)[i] == 0
  {
    var k := KEY_AT;
    assert regs[k] == KeyOf(regs)[0];
    assert w.data[k - 0x3F] == 1;
    forall i | 1 <= i < 16
      ensures KeyAfter(regs, w)[i] == 0
    {
      assert KeyAfter(regs, w)[i] == KeyOf(regs)[i];
    }
  }
}

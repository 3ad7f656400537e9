/** Numbers as bit strings, least significant bit first. */
module BitStrings {
  import opened Bytes

  function Pow2(n: nat): (r: nat)
    ensures r > 0
  {
    if n == 0 then 1 else 2 * Pow2(n - 1)
  }

  function Bit(b: bool): nat { if b then 1 else 0 }

  /** Bitwise or, `v << n` and `v >>> n`. */
  function Or(a: nat, b: nat): nat
    decreases a + b
  {
    if a == 0 && b == 0 then 0
    else Bit(a % 2 == 1 || b % 2 == 1) + 2 * Or(a / 2, b / 2)
  }

  function Shl(v: nat, n: nat): nat
    decreases n, v
  {
    if n == 0 then v else 2 * Shl(v, n - 1)
  }

  function Shr(v: nat, n: nat): nat
    decreases n, v
  {
    if n == 0 then v else Shr(v / 2, n - 1)
  }

  /** `v & (1 << n) - 1`. */
  function Mask(v: nat, n: nat): nat
    decreases n, v
  {
    if n == 0 then 0 else v % 2 + 2 * Mask(v / 2, n - 1)
  }

  /** The low `n` bits of `v`. */
  function BitsOf(v: nat, n: nat): (r: seq<bool>)
    ensures |r| == n
    decreases n, v
  {
    if n == 0 then [] else [v % 2 == 1] + BitsOf(v / 2, n - 1)
  }

  /** The number a bit string stands for. */
  function Value(bits: seq<bool>): nat {
    if bits == [] then 0 else Bit(bits[0]) + 2 * Value(bits[1..])
  }

  function BytesBits(s: seq<byte>): (r: seq<bool>)
    ensures |r| == 8 * |s|
  {
    if s == [] then [] else BitsOf(s[0], 8) + BytesBits(s[1..])
  }

  lemma Pow2Literals()
    ensures Pow2(8) == 256 && Pow2(15) == 32768 && Pow2(16) == 65536
  {
    assert Pow2(4) == 16;
    assert Pow2(8) == 16 * Pow2(4);
    assert Pow2(12) == 16 * Pow2(8);
    assert Pow2(15) == 8 * Pow2(12);
  }

  lemma {:induction false} ValueOfBits(v: nat, n: nat)
    requires v < Pow2(n)
    ensures Value(BitsOf(v, n)) == v
    decreases n
  {
    if n > 0 {
      ValueOfBits(v / 2, n - 1);
      assert BitsOf(v, n)[1..] == BitsOf(v / 2, n - 1);
    }
  }

  lemma {:induction false} BitsOfValue(bits: seq<bool>)
    ensures Value(bits) < Pow2(|bits|)
    ensures BitsOf(Value(bits), |bits|) == bits
    decreases |bits|
  {
    if bits != [] {
      BitsOfValue(bits[1..]);
      assert bits == [bits[0]] + bits[1..];
    }
  }

  lemma {:induction false} BitsSplit(v: nat, n: nat, m: nat)
    ensures BitsOf(v, n + m) == BitsOf(v, n) + BitsOf(Shr(v, n), m)
    decreases n
  {
    if n == 0 {
      assert BitsOf(v, 0) + BitsOf(v, m) == BitsOf(v, m);
    } else {
      BitsSplit(v / 2, n - 1, m);
    }
  }

  lemma {:induction false} ShrBound(v: nat, n: nat, m: nat)
    requires v < Pow2(n + m)
    ensures Shr(v, n) < Pow2(m)
    decreases n
  {
    if n > 0 {
      ShrBound(v / 2, n - 1, m);
    }
  }

  lemma {:induction false} ShlBound(v: nat, n: nat, m: nat)
    requires v < Pow2(m)
    ensures Shl(v, n) < Pow2(n + m)
    decreases n
  {
    if n > 0 {
      ShlBound(v, n - 1, m);
    }
  }

  lemma {:induction false} OrBound(a: nat, b: nat, n: nat)
    requires a < Pow2(n) && b < Pow2(n)
    ensures Or(a, b) < Pow2(n)
    decreases n
  {
    if n > 0 {
      OrBound(a / 2, b / 2, n - 1);
    }
  }

  lemma {:induction false} OrZero(b: nat)
    ensures Or(0, b) == b
  {
    if b > 0 {
      OrZero(b / 2);
    }
  }

  lemma {:induction false} OrLowBit(a: nat, b: nat)
    requires b < 2
    ensures Or(2 * a, b) == 2 * a + b && Or(a, 0) == a
    decreases a
  {
    if a > 0 {
      OrLowBit(a / 2, 0);
    }
  }

  /** Or-ing in a field above the bits in use puts it after them. */
  lemma {:induction false} OrAppends(a: nat, n: nat, b: nat, m: nat)
    requires a < Pow2(n)
    ensures BitsOf(Or(a, Shl(b, n)), n + m) == BitsOf(a, n) + BitsOf(b, m)
    decreases n
  {
    if n == 0 {
      OrZero(b);
      assert BitsOf(a, 0) + BitsOf(b, m) == BitsOf(b, m);
    } else {
      OrAppends(a / 2, n - 1, b, m);
      OrSplit(a, Shl(b, n - 1));
    }
  }

  lemma OrSplit(a: nat, x: nat)
    ensures Or(a, 2 * x) % 2 == a % 2 && Or(a, 2 * x) / 2 == Or(a / 2, x)
  {
  }

  /** Only the low bits of an operand reach the low bits of the result. */
  lemma {:induction false} OrLow(a: nat, b: nat, c: nat, n: nat)
    requires BitsOf(b, n) == BitsOf(c, n)
    ensures BitsOf(Or(a, b), n) == BitsOf(Or(a, c), n)
    decreases n
  {
    if n > 0 {
      assert BitsOf(b, n)[0] == BitsOf(c, n)[0];
      assert BitsOf(b / 2, n - 1) == BitsOf(b, n)[1..] && BitsOf(c / 2, n - 1) == BitsOf(c, n)[1..];
      OrLow(a / 2, b / 2, c / 2, n - 1);
    }
  }

  lemma {:induction false} HighBitsDrop(v: nat, q: nat, n: nat)
    ensures BitsOf(v + Shl(q, n), n) == BitsOf(v, n)
    decreases n
  {
    if n > 0 {
      HighBitsDrop(v / 2, q, n - 1);
      assert (v + 2 * Shl(q, n - 1)) / 2 == v / 2 + Shl(q, n - 1);
    }
  }

  lemma ShlFour(q: nat, n: nat)
    ensures Shl(q, n + 4) == 16 * Shl(q, n)
  {
    assert Shl(q, n + 4) == 4 * Shl(q, n + 2);
  }

  /** `v & 65535`. */
  lemma Mask16(v: nat)
    ensures BitsOf(v % 65536, 16) == BitsOf(v, 16)
  {
    var q := v / 65536;
    ShlFour(q, 0);
    ShlFour(q, 4);
    ShlFour(q, 8);
    ShlFour(q, 12);
    HighBitsDrop(v % 65536, q, 16);
  }

  lemma {:induction false} BytesBitsAppend(a: seq<byte>, b: seq<byte>)
    ensures BytesBits(a + b) == BytesBits(a) + BytesBits(b)
    decreases |a|
  {
    if a == [] {
      assert a + b == b;
    } else {
      assert (a + b)[1..] == a[1..] + b;
      BytesBitsAppend(a[1..], b);
    }
  }
}

/** The bit buffer of the deflater and the bit accumulator of the inflater. */
module BitStream {
  import opened Bytes
  import opened BitStrings

  /** Every bit of a pending buffer and a bit buffer. */
  function AllBits(pending: seq<byte>, buf: nat, valid: nat): seq<bool> {
    BytesBits(pending) + BitsOf(buf, valid)
  }

  function Short(w: nat): seq<byte> { [w % 256, w / 256 % 256] }

  lemma OneByte(b: byte)
    ensures BytesBits([b]) == BitsOf(b, 8)
  {
    assert BytesBits([b]) == BitsOf(b, 8) + [];
  }

  lemma ShortBits(w: nat)
    requires w < 65536
    ensures BytesBits(Short(w)) == BitsOf(w, 16)
  {
    var lo, hi := w % 256, w / 256;
    assert Short(w) == [lo] + [hi];
    BytesBitsAppend([lo], [hi]);
    OneByte(lo);
    OneByte(hi);
    ShlFour(hi, 0);
    ShlFour(hi, 4);
    HighBitsDrop(lo, hi, 8);
    BitsSplit(w, 8, 8);
    ByteAbove(w);
  }

  lemma ByteAbove(w: nat)
    ensures Shr(w, 8) == w / 256
  {
    ShrFour(w, 4);
    ShrFour(w / 16, 0);
  }

  lemma ShrFour(w: nat, n: nat)
    ensures Shr(w, n + 4) == Shr(w / 16, n)
  {
    var a := w / 2;
    var b := a / 2;
    var c := b / 2;
    assert Shr(w, n + 4) == Shr(a, n + 3) == Shr(b, n + 2) == Shr(c, n + 1) == Shr(c / 2, n);
    assert c / 2 == w / 16;
  }

  /** A field that fits above the bits already buffered. */
  lemma SendFits(pending: seq<byte>, buf: nat, valid: nat, value: nat, length: nat, x: nat)
    requires buf < Pow2(valid) && value < Pow2(length) && x == Shl(value, valid)
    ensures Or(buf, x) < Pow2(valid + length)
    ensures AllBits(pending, Or(buf, x), valid + length) == AllBits(pending, buf, valid) + BitsOf(value, length)
  {
    ShlBound(value, valid, length);
    Pow2Monotone(valid, valid + length);
    OrBound(buf, x, valid + length);
    OrAppends(buf, valid, value, length);
  }

  lemma NoMask(value: nat, valid: nat, length: nat)
    requires value < Pow2(length) && valid + length <= 16
    ensures Shl(value, valid) % 65536 == Shl(value, valid)
  {
    ShlBound(value, valid, length);
    Pow2Literals();
    Pow2Monotone(valid + length, 16);
  }

  lemma {:induction false} Pow2Monotone(a: nat, b: nat)
    requires a <= b
    ensures Pow2(a) <= Pow2(b)
    decreases b - a
  {
    if a < b {
      Pow2Monotone(a, b - 1);
    }
  }

  lemma SpillWord(buf: nat, valid: nat, value: nat, word: nat)
    requires buf < Pow2(valid) && valid <= 16
    requires word == Or(buf, Shl(value, valid) % 65536)
    ensures BytesBits(Short(word)) == BitsOf(buf, valid) + BitsOf(value, 16 - valid)
  {
    var x := Shl(value, valid);
    Pow2Literals();
    Pow2Monotone(valid, 16);
    OrBound(buf, x % 65536, 16);
    Mask16(x);
    OrLow(buf, x % 65536, x, 16);
    OrAppends(buf, valid, value, 16 - valid);
    ShortBits(word);
  }

  /** A field that fills the buffer and leaves its high part for the next one. */
  lemma SendSpills(pending: seq<byte>, buf: nat, valid: nat, value: nat, length: nat, short: seq<byte>, room: nat)
    requires value < Pow2(length) && room < length
    requires BytesBits(short) == BitsOf(buf, valid) + BitsOf(value, room)
    ensures Shr(value, room) < Pow2(length - room)
    ensures AllBits(pending + short, Shr(value, room), length - room)
         == AllBits(pending, buf, valid) + BitsOf(value, length)
  {
    ShrBound(value, room, length - room);
    BytesBitsAppend(pending, short);
    BitsSplit(value, room, length - room);
    Reassociate(BytesBits(pending), BitsOf(buf, valid), BitsOf(value, room), BitsOf(Shr(value, room), length - room));
  }

  lemma Reassociate<T>(a: seq<T>, b: seq<T>, c: seq<T>, d: seq<T>)
    ensures (a + (b + c)) + d == (a + b) + (c + d)
  {
  }

  /** `bi_buf`, `bi_valid` and the pending output. */
  class BitWriter {
    var pending: seq<byte>
    var biBuf: nat
    var biValid: nat

    ghost predicate Valid()
      reads this
    {
      biValid <= 16 && biBuf < Pow2(biValid)
    }

    /** Every bit sent so far. */
    ghost function Sent(): seq<bool>
      reads this
    {
      AllBits(pending, biBuf, biValid)
    }

    constructor ()
      ensures Valid() && Sent() == [] && pending == []
    {
      pending, biBuf, biValid := [], 0, 0;
    }

    /** Low byte first. */
    method PutShort(w: nat)
      modifies this`pending
      ensures pending == old(pending) + Short(w)
    {
      pending := pending + [w % 256];
      pending := pending + [w / 256 % 256];
    }

    /** `send_bits`: append the low `length` bits of `value` to the stream. */
    method SendBits(value: nat, length: nat)
      requires Valid() && length <= 16 && value < Pow2(length)
      modifies this
      ensures Valid() && Sent() == old(Sent()) + BitsOf(value, length)
    {
      if biValid > 16 - length {
        var word := Or(biBuf, Shl(value, biValid) % 65536);
        SpillWord(biBuf, biValid, value, word);
        SendSpills(pending, biBuf, biValid, value, length, Short(word), 16 - biValid);
        biBuf := word;
        PutShort(biBuf);
        biBuf := Shr(value, 16 - biValid);
        biValid := biValid + length - 16;
      } else {
        NoMask(value, biValid, length);
        SendFits(pending, biBuf, biValid, value, length, Shl(value, biValid));
        biBuf := Or(biBuf, Shl(value, biValid) % 65536);
        biValid := biValid + length;
      }
    }

    /** `bi_windup`: fill up with zero bits to a whole number of bytes. */
    method Windup()
      requires Valid()
      modifies this
      ensures Valid() && biValid == 0
      ensures exists k: nat :: k < 8 && BytesBits(pending) == old(Sent()) + BitsOf(0, k)
    {
      Pow2Literals();
      ghost var before := pending;
      if biValid > 8 {
        Padded(before, biBuf, biValid, 16 - biValid);
        Pow2Monotone(biValid, 16);
        ShortBits(biBuf);
        BytesBitsAppend(before, Short(biBuf));
        PutShort(biBuf);
      } else if biValid > 0 {
        Padded(before, biBuf, biValid, 8 - biValid);
        Pow2Monotone(biValid, 8);
        OneByte(biBuf);
        BytesBitsAppend(before, [biBuf]);
        pending := pending + [biBuf];
      } else {
        assert AllBits(before, biBuf, 0) + BitsOf(0, 0) == BytesBits(before);
      }
      biBuf, biValid := 0, 0;
    }
  }

  lemma Padded(pending: seq<byte>, buf: nat, valid: nat, pad: nat)
    requires buf < Pow2(valid)
    ensures BytesBits(pending) + BitsOf(buf, valid + pad) == AllBits(pending, buf, valid) + BitsOf(0, pad)
  {
    BitsSplit(buf, valid, pad);
    ShrBound(buf, valid, 0);
  }

  /** `hold`, `bits` and the input: bits are taken from the front of `Left()`. */
  class BitReader {
    var input: seq<byte>
    var next: nat
    var hold: nat
    var bits: nat

    ghost predicate Valid()
      reads this
    {
      next <= |input| && hold < Pow2(bits)
    }

    /** Every bit of the input not yet taken. */
    ghost function Left(): seq<bool>
      requires next <= |input|
      reads this
    {
      BitsOf(hold, bits) + BytesBits(input[next..])
    }

    constructor (input: seq<byte>)
      ensures Valid() && Left() == BytesBits(input) && bits == 0
    {
      this.input, next, hold, bits := input, 0, 0, 0;
    }

    /** `for (; l < n; ) { u += input[next++] << l; l += 8 }`, stopping when the input
        is used up; what is held is kept for the next call. */
    method Need(n: nat) returns (ok: bool)
      requires Valid()
      modifies this`next, this`hold, this`bits
      ensures Valid() && Left() == old(Left())
      ensures ok <==> n <= |Left()|
      ensures if ok then n <= bits else next == |input|
      ensures bits % 8 == old(bits) % 8 && bits <= if old(bits) < n then n + 7 else old(bits)
    {
      while bits < n
        invariant Valid() && Left() == old(Left())
        invariant bits % 8 == old(bits) % 8 && bits <= if old(bits) < n then n + 7 else old(bits)
        decreases |input| - next
      {
        if next == |input| {
          return false;
        }
        Load();
      }
      ok := true;
    }

    /** One byte more. */
    method Load()
      requires Valid() && next < |input|
      modifies this`next, this`hold, this`bits
      ensures Valid() && Left() == old(Left()) && bits == old(bits) + 8 && next == old(next) + 1
    {
      hide BitsOf, Pow2, Shl;
      LoadByte(hold, bits, input[next]);
      assert input[next..] == [input[next]] + input[next + 1..];
      hold := hold + Shl(input[next], bits);
      bits := bits + 8;
      next := next + 1;
    }

    /** The caller supplies the next stretch of input. */
    method Refill(more: seq<byte>)
      requires Valid() && next == |input|
      modifies this`input, this`next
      ensures Valid() && Left() == old(Left()) + BytesBits(more)
    {
      input, next := more, 0;
    }

    /** `u & (1 << n) - 1`, then `u >>>= n; l -= n`. */
    method Take(n: nat) returns (value: nat)
      requires Valid() && n <= bits
      modifies this`hold, this`bits
      ensures Valid() && bits == old(bits) - n
      ensures value < Pow2(n) && BitsOf(value, n) == old(Left())[..n] && Left() == old(Left())[n..]
    {
      MaskBits(hold, n);
      BitsSplit(hold, n, bits - n);
      ShrBound(hold, n, bits - n);
      value := Mask(hold, n);
      hold := Shr(hold, n);
      bits := bits - n;
    }
  }

  lemma LoadByte(hold: nat, bits: nat, b: byte)
    requires hold < Pow2(bits)
    ensures hold + Shl(b, bits) < Pow2(bits + 8)
    ensures BitsOf(hold + Shl(b, bits), bits + 8) == BitsOf(hold, bits) + BitsOf(b, 8)
  {
    Pow2Literals();
    AddAppends(hold, bits, b, 8);
  }

  lemma {:induction false} AddAppends(a: nat, n: nat, b: nat, m: nat)
    requires a < Pow2(n) && b < Pow2(m)
    ensures a + Shl(b, n) < Pow2(n + m)
    ensures BitsOf(a + Shl(b, n), n + m) == BitsOf(a, n) + BitsOf(b, m)
    decreases n
  {
    if n == 0 {
      assert BitsOf(a, 0) + BitsOf(b, m) == BitsOf(b, m);
    } else {
      AddAppends(a / 2, n - 1, b, m);
      assert (a + 2 * Shl(b, n - 1)) / 2 == a / 2 + Shl(b, n - 1);
      assert [a % 2 == 1] + (BitsOf(a / 2, n - 1) + BitsOf(b, m)) == BitsOf(a, n) + BitsOf(b, m);
    }
  }

  lemma {:induction false} MaskBits(v: nat, n: nat)
    ensures Mask(v, n) < Pow2(n) && BitsOf(Mask(v, n), n) == BitsOf(v, n)
    decreases n
  {
    if n > 0 {
      MaskBits(v / 2, n - 1);
    }
  }

  /** A value and the number of bits it is sent in. */
  datatype Field = Field(value: nat, width: nat)

  predicate Sendable(f: Field) { f.width <= 16 && f.value < Pow2(f.width) }

  function FieldBits(fs: seq<Field>): seq<bool> {
    if fs == [] then [] else BitsOf(fs[0].value, fs[0].width) + FieldBits(fs[1..])
  }

  lemma {:induction false} FieldBitsAppend(a: seq<Field>, b: seq<Field>)
    ensures FieldBits(a + b) == FieldBits(a) + FieldBits(b)
    decreases |a|
  {
    if a == [] {
      assert a + b == b;
    } else {
      assert (a + b)[1..] == a[1..] + b;
      FieldBitsAppend(a[1..], b);
    }
  }

  /** Any fields, sent one after the other and wound up: the bytes carry exactly the
      fields' bits, then fewer than eight zeros. */
  method SendFields(fs: seq<Field>) returns (bytes: seq<byte>)
    requires forall i :: 0 <= i < |fs| ==> Sendable(fs[i])
    ensures exists k: nat :: k < 8 && BytesBits(bytes) == FieldBits(fs) + BitsOf(0, k)
  {
    var w := new BitWriter();
    for i := 0 to |fs|
      invariant fresh(w) && w.Valid() && w.Sent() == FieldBits(fs[..i])
    {
      assert fs[..i + 1] == fs[..i] + [fs[i]];
      FieldBitsAppend(fs[..i], [fs[i]]);
      assert FieldBits([fs[i]]) == BitsOf(fs[i].value, fs[i].width) + [];
      w.SendBits(fs[i].value, fs[i].width);
    }
    assert fs[..|fs|] == fs;
    w.Windup();
    bytes := w.pending;
  }

  /** The input still to come: what the reader has, then the chunks from `c` on. */
  ghost function Ahead(r: BitReader, chunks: seq<seq<byte>>, c: nat): seq<bool>
    requires r.next <= |r.input| && c <= |chunks|
    reads r
  {
    r.Left() + BytesBits(Flatten(chunks[c..]))
  }

  /** The reader has used up its input and is given the next chunk. */
  method Feed(r: BitReader, chunks: seq<seq<byte>>, c: nat)
    requires r.Valid() && c < |chunks| && r.next == |r.input|
    modifies r
    ensures r.Valid() && Ahead(r, chunks, c + 1) == old(Ahead(r, chunks, c)) && r.bits == old(r.bits)
  {
    hide BitsOf, Pow2, BytesBits, Flatten;
    NextChunk(chunks, c, r.Left());
    r.Refill(chunks[c]);
  }

  lemma LastChunk(r: BitReader, chunks: seq<seq<byte>>)
    requires r.next <= |r.input|
    ensures Ahead(r, chunks, |chunks|) == r.Left()
  {
    assert chunks[|chunks|..] == [] && r.Left() + [] == r.Left();
  }

  /** Wait for `n` bits, taking further chunks of input as needed and as long as there are any. */
  method Await(r: BitReader, n: nat, chunks: seq<seq<byte>>, c0: nat) returns (ok: bool, c: nat)
    requires r.Valid() && c0 <= |chunks|
    modifies r
    ensures r.Valid() && c0 <= c <= |chunks| && Ahead(r, chunks, c) == old(Ahead(r, chunks, c0))
    ensures ok <==> n <= |old(Ahead(r, chunks, c0))|
    ensures ok ==> n <= r.bits
    ensures r.bits % 8 == old(r.bits) % 8 && r.bits <= if old(r.bits) < n then n + 7 else old(r.bits)
  {
    hide BitsOf, Pow2, BytesBits, Flatten;
    c := c0;
    ok := r.Need(n);
    while !ok && c < |chunks|
      invariant r.Valid() && c0 <= c <= |chunks| && Ahead(r, chunks, c) == old(Ahead(r, chunks, c0))
      invariant if ok then n <= r.bits else |r.Left()| < n && r.next == |r.input|
      invariant r.bits % 8 == old(r.bits) % 8 && r.bits <= if old(r.bits) < n then n + 7 else old(r.bits)
      decreases |chunks| - c
    {
      Feed(r, chunks, c);
      c := c + 1;
      ok := r.Need(n);
    }
    if c == |chunks| {
      LastChunk(r, chunks);
    }
  }

  /** Reading the same widths back, from input cut into chunks anywhere, even inside a
      field, returns the values that were sent. */
  method ReceiveFields(chunks: seq<seq<byte>>, widths: seq<nat>, ghost fs: seq<Field>) returns (values: seq<nat>)
    requires |fs| == |widths| && forall i :: 0 <= i < |fs| ==> fs[i].width == widths[i] && fs[i].value < Pow2(widths[i])
    requires FieldBits(fs) <= BytesBits(Flatten(chunks))
    ensures |values| == |fs| && forall i :: 0 <= i < |fs| ==> values[i] == fs[i].value
  {
    var r := new BitReader([]);
    var c := 0;
    values := [];
    assert chunks[0..] == chunks;
    for i := 0 to |widths|
      invariant fresh(r) && r.Valid() && 0 <= c <= |chunks|
      invariant FieldBits(fs[i..]) <= r.Left() + BytesBits(Flatten(chunks[c..]))
      invariant |values| == i && forall j :: 0 <= j < i ==> values[j] == fs[j].value
    {
      assert fs[i..] == [fs[i]] + fs[i + 1..];
      FirstWidth(fs[i], fs[i + 1..]);
      var _, here := Await(r, widths[i], chunks, c);
      c := here;
      ghost var left := r.Left();
      var value := r.Take(widths[i]);
      FirstField(fs[i], fs[i + 1..], left, BytesBits(Flatten(chunks[c..])), value);
      values := values + [value];
    }
  }

  lemma FirstWidth(f: Field, rest: seq<Field>)
    ensures f.width <= |FieldBits([f] + rest)|
  {
    assert ([f] + rest)[1..] == rest;
  }

  lemma NextChunk(chunks: seq<seq<byte>>, c: nat, left: seq<bool>)
    requires c < |chunks|
    ensures left + BytesBits(Flatten(chunks[c..]))
            == (left + BytesBits(chunks[c])) + BytesBits(Flatten(chunks[c + 1..]))
  {
    assert chunks[c..][1..] == chunks[c + 1..];
    BytesBitsAppend(chunks[c], Flatten(chunks[c + 1..]));
  }

  /** The first field of a bit string is found by its width. */
  lemma FirstField(f: Field, rest: seq<Field>, left: seq<bool>, later: seq<bool>, value: nat)
    requires FieldBits([f] + rest) <= left + later && f.width <= |left|
    requires f.value < Pow2(f.width) && value < Pow2(f.width) && BitsOf(value, f.width) == left[..f.width]
    ensures value == f.value && FieldBits(rest) <= left[f.width..] + later
  {
    assert ([f] + rest)[1..] == rest;
    var n := f.width;
    var all := left + later;
    assert all[..n] == left[..n] && all[n..] == left[n..] + later;
    assert FieldBits([f] + rest)[..n] == BitsOf(f.value, n) && FieldBits([f] + rest)[n..] == FieldBits(rest);
    assert all[..n] == FieldBits([f] + rest)[..n];
    ValueOfBits(value, n);
    ValueOfBits(f.value, n);
  }
}

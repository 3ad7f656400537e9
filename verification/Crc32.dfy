/** Division by a generator polynomial in a shift register, for any word type.  Keeping the
    words abstract keeps each induction free of bit-level reasoning. */
module ShiftRegister {

  datatype Register<!W(!new)> = Register(
    xor: (W, W) -> W,
    half: W -> W,       // one position down
    low: W -> bool,
    zero: W,
    one: W,
    generator: W)
  {
    // The laws are named so that each is used only where it is mentioned

    ghost predicate Commutes(a: W, b: W) { xor(a, b) == xor(b, a) }

    ghost predicate Associates(a: W, b: W, c: W) { xor(xor(a, b), c) == xor(a, xor(b, c)) }

    ghost predicate Cancels(a: W, b: W) { xor(xor(a, b), b) == a }

    ghost predicate ZeroUnit(a: W) { xor(zero, a) == a }

    ghost predicate HalfOfXor(a: W, b: W) { half(xor(a, b)) == xor(half(a), half(b)) }

    ghost predicate LowOfXor(a: W, b: W) { low(xor(a, b)) <==> low(a) != low(b) }

    ghost predicate Determined(a: W, b: W) { low(a) == low(b) && half(a) == half(b) ==> a == b }

    ghost predicate TopBitTells(a: W, b: W) { xor(generator, half(a)) != half(b) }

    /** Addition without carry, and its relation to the two parts of a word. */
    ghost predicate Lawful() {
      && (forall a, b :: Commutes(a, b))
      && (forall a, b, c :: Associates(a, b, c))
      && (forall a, b :: Cancels(a, b))
      && (forall a :: ZeroUnit(a))
      && (forall a, b :: HalfOfXor(a, b))
      && (forall a, b :: LowOfXor(a, b))
      && (forall a, b :: Determined(a, b))
      && (forall a, b :: TopBitTells(a, b))
      && half(zero) == zero && half(one) == zero && low(one) && !low(zero)
    }

    function Bit(b: bool): W { if b then one else zero }

    /** One position down, reduced by the generator. */
    function Shift(c: W): W { if low(c) then xor(generator, half(c)) else half(c) }

    lemma Regroup(x: W, y: W, p: W)
      requires Lawful()
      ensures xor(xor(p, x), y) == xor(p, xor(x, y))
      ensures xor(x, xor(p, y)) == xor(p, xor(x, y))
      ensures xor(xor(p, x), xor(p, y)) == xor(x, y)
    {
      assert Associates(p, x, y) && Associates(x, p, y) && Commutes(x, p);
      assert Associates(x, p, xor(p, y));
      assert Commutes(p, xor(p, y)) && Commutes(p, y) && Cancels(y, p);
    }

    lemma ShiftLinear(a: W, b: W)
      requires Lawful()
      ensures Shift(xor(a, b)) == xor(Shift(a), Shift(b))
    {
      assert HalfOfXor(a, b) && LowOfXor(a, b);
      Regroup(half(a), half(b), generator);
    }

    /** The bits of a word that are still to come can be added to the register early. */
    lemma ShiftAhead(c: W, w: W)
      requires Lawful()
      ensures Shift(xor(c, w)) == xor(Shift(xor(c, Bit(low(w)))), half(w))
    {
      var bit := Bit(low(w));
      var rest := xor(bit, w);
      assert xor(xor(c, bit), rest) == xor(c, w) by {
        Regroup(c, w, bit);
        assert Commutes(c, bit);
      }
      ShiftLinear(xor(c, bit), rest);
      assert LowOfXor(bit, w) && HalfOfXor(bit, w) && ZeroUnit(half(w));
    }

    lemma ShiftInjective(a: W, b: W)
      requires Lawful() && Shift(a) == Shift(b)
      ensures a == b
    {
      assert TopBitTells(a, b) && TopBitTells(b, a) && Determined(a, b);
      assert Commutes(generator, half(a)) && Commutes(generator, half(b));
      assert Cancels(half(a), generator) && Cancels(half(b), generator);
    }

    ghost predicate Linear(a: W, b: W) { Shift(xor(a, b)) == xor(Shift(a), Shift(b)) }

    ghost predicate Ahead(c: W, w: W) { Shift(xor(c, w)) == xor(Shift(xor(c, Bit(low(w)))), half(w)) }

    ghost predicate Injective(a: W, b: W) { Shift(a) == Shift(b) ==> a == b }

    /** What the inductions below use. */
    ghost predicate ShiftLaws() {
      && (forall a, b :: Linear(a, b))
      && (forall c, w :: Ahead(c, w))
      && (forall c, w :: Cancels(c, w))
      && (forall a, b :: Injective(a, b))
    }

    lemma LawfulShift()
      requires Lawful()
      ensures ShiftLaws()
    {
      forall a, b ensures Linear(a, b) { ShiftLinear(a, b); }
      forall c, w ensures Ahead(c, w) { ShiftAhead(c, w); }
      forall a, b ensures Injective(a, b) {
        if Shift(a) == Shift(b) { ShiftInjective(a, b); }
      }
    }

    /** Polynomial division, one message bit at a time. */
    function Divide(c: W, bits: seq<bool>): W
      decreases |bits|
    {
      if bits == [] then c else Divide(Shift(xor(c, Bit(bits[0]))), bits[1..])
    }

    function ShiftN(c: W, n: nat): W
      decreases n, c
    {
      if n == 0 then c else ShiftN(Shift(c), n - 1)
    }

    lemma {:induction false} ShiftNAdds(c: W, m: nat, n: nat)
      ensures ShiftN(c, m + n) == ShiftN(ShiftN(c, m), n)
      decreases m
    {
      if m > 0 {
        ShiftNAdds(Shift(c), m - 1, n);
      }
    }

    lemma ShiftSplit(c: W, hi: W, lo: W, n: nat, top: W)
      requires ShiftLaws() && xor(hi, lo) == c && ShiftN(hi, n) == top
      ensures ShiftN(c, n) == xor(top, ShiftN(lo, n))
    {
      ShiftNLinear(hi, lo, n);
    }

    function Drop(w: W, n: nat): W
      decreases n, w
    {
      if n == 0 then w else Drop(half(w), n - 1)
    }

    /** The low `n` bits of a word, least significant first. */
    function LowBits(w: W, n: nat): (r: seq<bool>)
      ensures |r| == n
      decreases n, w
    {
      if n == 0 then [] else [low(w)] + LowBits(half(w), n - 1)
    }

    lemma {:induction false} ShiftNLinear(a: W, b: W, n: nat)
      requires ShiftLaws()
      ensures ShiftN(xor(a, b), n) == xor(ShiftN(a, n), ShiftN(b, n))
      decreases n
    {
      if n > 0 {
        assert Linear(a, b);
        ShiftNLinear(Shift(a), Shift(b), n - 1);
      }
    }

    predicate LowZeros(w: W, n: nat)
      decreases n, w
    {
      n == 0 || (!low(w) && LowZeros(half(w), n - 1))
    }

    /** Shifting out zeros does not touch the rest. */
    lemma {:induction false} ShiftZeros(w: W, n: nat)
      requires ShiftLaws() && LowZeros(w, n)
      ensures ShiftN(w, n) == Drop(w, n)
      decreases n
    {
      if n > 0 {
        ShiftZeros(half(w), n - 1);
      }
    }

    /** Dividing by the low `n` bits of a word is `n` shifts of the whole word. */
    lemma {:induction false} DivideWord(c: W, w: W, n: nat, rest: seq<bool>)
      requires ShiftLaws()
      ensures Divide(c, LowBits(w, n) + rest) == Divide(xor(ShiftN(xor(c, w), n), Drop(w, n)), rest)
      decreases n
    {
      var bits := LowBits(w, n) + rest;
      if n == 0 {
        assert bits == rest && Cancels(c, w);
      } else {
        assert bits[1..] == LowBits(half(w), n - 1) + rest && Ahead(c, w);
        DivideWord(Shift(xor(c, Bit(low(w)))), half(w), n - 1, rest);
      }
    }

    lemma DivideByTable(c: W, w: W, n: nat, rest: seq<bool>, top: W, entry: W)
      requires ShiftLaws() && Drop(w, n) == zero && ShiftN(xor(c, w), n) == xor(top, entry)
      requires xor(xor(top, entry), zero) == xor(top, entry)
      ensures Divide(c, LowBits(w, n) + rest) == Divide(xor(top, entry), rest)
    {
      DivideWord(c, w, n, rest);
    }

    lemma {:induction false} DivideAppend(c: W, a: seq<bool>, b: seq<bool>)
      ensures Divide(c, a + b) == Divide(Divide(c, a), b)
      decreases |a|
    {
      if a == [] {
        assert a + b == b;
      } else {
        assert (a + b)[1..] == a[1..] + b;
        DivideAppend(Shift(xor(c, Bit(a[0]))), a[1..], b);
      }
    }

    /** Registers that differ stay different under the same message. */
    lemma {:induction false} DivideInjective(c: W, d: W, bits: seq<bool>)
      requires ShiftLaws() && c != d
      ensures Divide(c, bits) != Divide(d, bits)
      decreases |bits|
    {
      if bits != [] {
        var b := Bit(bits[0]);
        assert Cancels(c, b) && Cancels(d, b) && Injective(xor(c, b), xor(d, b));
        DivideInjective(Shift(xor(c, b)), Shift(xor(d, b)), bits[1..]);
      }
    }

    // Error detection

    ghost predicate DifferenceMoves(c: W, d: W, p: bool, q: bool) {
      xor(Shift(xor(c, Bit(p))), Shift(xor(d, Bit(q)))) == Shift(xor(xor(c, d), Bit(p != q)))
    }

    ghost predicate ZeroDifference(c: W, d: W) { xor(c, d) == zero <==> c == d }

    ghost predicate HalfOfBit(c: W, p: bool) { half(xor(c, Bit(p))) == half(c) }

    ghost predicate HasWidth(c: W, width: nat) { Drop(c, width) == zero }

    /** How the difference of two registers moves, for words of `width` bits. */
    ghost predicate DifferenceLaws(width: nat) {
      && 0 < width
      && (forall c, d, p, q :: DifferenceMoves(c, d, p, q))
      && (forall c, d :: ZeroDifference(c, d))
      && (forall c, d :: HalfOfXor(c, d))
      && (forall c, p :: HalfOfBit(c, p))
      && (forall c :: HasWidth(c, width))
      && half(zero) == zero
      && xor(zero, one) == one && Shift(one) == generator
      && Drop(generator, width - 1) != zero
    }

    lemma {:induction false} DropFacts(a: W, b: W, n: nat)
      requires (forall c, d :: HalfOfXor(c, d)) && half(zero) == zero
      ensures Drop(xor(a, b), n) == xor(Drop(a, n), Drop(b, n))
      ensures Drop(zero, n) == zero
      decreases n
    {
      if n > 0 {
        assert HalfOfXor(a, b);
        DropFacts(half(a), half(b), n - 1);
      }
    }

    lemma {:induction false} DropAdds(a: W, m: nat, n: nat)
      ensures Drop(a, m + n) == Drop(Drop(a, m), n)
      decreases m
    {
      if m > 0 {
        DropAdds(half(a), m - 1, n);
      }
    }

    /** A difference above position `m` is still above position `m - 1` one shift later:
        it either moves down by one or the generator sets the top bit. */
    lemma ShiftKeepsHigh(width: nat, x: W, p: bool, m: nat)
      requires DifferenceLaws(width) && 1 <= m <= width - 1
      requires Drop(x, m) != zero
      ensures Drop(Shift(xor(x, Bit(p))), m - 1) != zero
    {
      var y := half(x);
      assert HalfOfBit(x, p) && HasWidth(x, width);
      if low(xor(x, Bit(p))) {
        DropFacts(generator, y, m - 1);
        assert ZeroDifference(Drop(generator, m - 1), Drop(y, m - 1));
        if Drop(generator, m - 1) == Drop(y, m - 1) {
          DropAdds(generator, m - 1, width - m);
          DropAdds(y, m - 1, width - m);
        }
      }
    }

    lemma {:induction false} DivideApart(width: nat, c: W, d: W, x: seq<bool>, y: seq<bool>, m: nat)
      requires DifferenceLaws(width) && |x| == |y| <= m <= width - 1
      requires Drop(xor(c, d), m) != zero
      ensures Divide(c, x) != Divide(d, y)
      decreases |x|
    {
      if x == [] {
        DropFacts(c, d, m);
        assert ZeroDifference(c, d);
      } else {
        var c', d' := Shift(xor(c, Bit(x[0]))), Shift(xor(d, Bit(y[0])));
        assert DifferenceMoves(c, d, x[0], y[0]);
        ShiftKeepsHigh(width, xor(c, d), x[0] != y[0], m);
        DivideApart(width, c', d', x[1..], y[1..], m - 1);
      }
    }

    /** Two bit strings no longer than the register leave it in different states. */
    lemma {:induction false} BurstSeparates(width: nat, c: W, x: seq<bool>, y: seq<bool>)
      requires DifferenceLaws(width) && |x| == |y| <= width && x != y
      ensures Divide(c, x) != Divide(c, y)
      decreases |x|
    {
      var c', d' := Shift(xor(c, Bit(x[0]))), Shift(xor(c, Bit(y[0])));
      if x[0] == y[0] {
        assert x == [x[0]] + x[1..] && y == [y[0]] + y[1..];
        BurstSeparates(width, c', x[1..], y[1..]);
      } else {
        assert DifferenceMoves(c, c, x[0], y[0]) && ZeroDifference(c, c);
        assert xor(c', d') == generator;
        DivideApart(width, c', d', x[1..], y[1..], width - 1);
      }
    }

    lemma Rearrange(c: W, p: W, d: W, q: W)
      requires Lawful()
      ensures xor(xor(c, p), xor(d, q)) == xor(xor(c, d), xor(p, q))
    {
      assert Associates(c, p, xor(d, q)) && Associates(c, d, xor(p, q));
      assert Associates(p, d, q) && Commutes(p, d) && Associates(d, p, q);
    }

    lemma LawfulDifference(width: nat)
      requires Lawful() && 0 < width
      requires Drop(generator, width - 1) != zero
      requires forall c :: HasWidth(c, width)
      ensures DifferenceLaws(width)
    {
      assert ZeroUnit(one) && Commutes(generator, zero) && ZeroUnit(generator);
      forall c, d ensures ZeroDifference(c, d) {
        assert Cancels(c, d) && ZeroUnit(d) && Cancels(zero, d);
      }
      forall c, d, p, q ensures DifferenceMoves(c, d, p, q) {
        Rearrange(c, Bit(p), d, Bit(q));
        ShiftLinear(xor(c, Bit(p)), xor(d, Bit(q)));
        assert ZeroDifference(Bit(p), Bit(q)) && ZeroUnit(one) && Commutes(one, zero);
      }
      forall c, p ensures HalfOfBit(c, p) {
        assert HalfOfXor(c, Bit(p)) && Commutes(half(c), zero) && ZeroUnit(half(c));
      }
    }
  }
}

/** The CRC-32 of section 8 of RFC 1952, over the reflected generator 0xEDB88320. */
module Crc32 {
  import opened ShiftRegister

  function Xor(a: bv32, b: bv32): bv32 { a ^ b }

  function Half(a: bv32): bv32 { a >> 1 }

  predicate Low(a: bv32) { a & 1 == 1 }

  const CRC := Register(Xor, Half, Low, 0 as bv32, 1 as bv32, 0xEDB88320 as bv32)

  // One fact about words each

  lemma XorCommutes(a: bv32, b: bv32)
    ensures CRC.Commutes(a, b)
  {
  }

  lemma AssociativeBits(a: bv32, b: bv32, c: bv32)
    ensures Xor(Xor(a, b), c) == Xor(a, Xor(b, c))
  {
  }

  lemma XorAssociates(a: bv32, b: bv32, c: bv32)
    ensures CRC.Associates(a, b, c)
  {
    AssociativeBits(a, b, c);
  }

  lemma CancelBits(a: bv32, b: bv32)
    ensures (a ^ b) ^ b == a
  {
  }

  lemma XorCancels(a: bv32, b: bv32)
    ensures CRC.Cancels(a, b)
  {
    CancelBits(a, b);
  }

  lemma XorZeroUnit(a: bv32)
    ensures CRC.ZeroUnit(a)
  {
  }

  lemma HalfBits(a: bv32, b: bv32)
    ensures (a ^ b) >> 1 == (a >> 1) ^ (b >> 1)
  {
  }

  lemma XorHalf(a: bv32, b: bv32)
    ensures CRC.HalfOfXor(a, b)
  {
    HalfBits(a, b);
  }

  lemma LowBits(a: bv32, b: bv32)
    ensures (a ^ b) & 1 == (a & 1) ^ (b & 1)
  {
  }

  lemma LowBit(a: bv32)
    ensures a & 1 == 0 || a & 1 == 1
  {
  }

  lemma XorLow(a: bv32, b: bv32)
    ensures CRC.LowOfXor(a, b)
  {
    LowBits(a, b);
    LowBit(a);
    LowBit(b);
  }

  lemma DeterminedBits(a: bv32, b: bv32)
    requires a & 1 == b & 1 && a >> 1 == b >> 1
    ensures a == b
  {
  }

  lemma WordDetermined(a: bv32, b: bv32)
    ensures CRC.Determined(a, b)
  {
    LowBit(a);
    LowBit(b);
    if a & 1 == b & 1 && a >> 1 == b >> 1 { DeterminedBits(a, b); }
  }

  lemma TopBits(a: bv32, b: bv32)
    ensures 0xEDB88320 ^ (a >> 1) != b >> 1
  {
  }

  lemma WordTopBit(a: bv32, b: bv32)
    ensures CRC.TopBitTells(a, b)
  {
    TopBits(a, b);
  }

  lemma CrcLawful()
    ensures CRC.Lawful()
  {
    forall a, b ensures CRC.Commutes(a, b) { XorCommutes(a, b); }
    forall a, b, c ensures CRC.Associates(a, b, c) { XorAssociates(a, b, c); }
    forall a, b ensures CRC.Cancels(a, b) { XorCancels(a, b); }
    forall a ensures CRC.ZeroUnit(a) { XorZeroUnit(a); }
    forall a, b ensures CRC.HalfOfXor(a, b) { XorHalf(a, b); }
    forall a, b ensures CRC.LowOfXor(a, b) { XorLow(a, b); }
    forall a, b ensures CRC.Determined(a, b) { WordDetermined(a, b); }
    forall a, b ensures CRC.TopBitTells(a, b) { WordTopBit(a, b); }
  }

  lemma ShiftAmounts(c: bv32)
    ensures c >> 1 >> 1 == c >> 2
    ensures c >> 2 >> 2 == c >> 4
    ensures c >> 4 >> 4 == c >> 8
    ensures c >> 8 >> 8 == c >> 16
    ensures c >> 16 >> 16 == 0
  {
  }

  lemma Drop2(c: bv32)
    ensures CRC.Drop(c, 2) == c >> 2
  {
    ShiftAmounts(c);
    assert CRC.Drop(c >> 1, 1) == CRC.Drop(c >> 1 >> 1, 0);
  }

  lemma Drop4(c: bv32)
    ensures CRC.Drop(c, 4) == c >> 4
  {
    ShiftAmounts(c);
    CRC.DropAdds(c, 2, 2);
    Drop2(c);
    Drop2(c >> 2);
  }

  lemma Drop8(c: bv32)
    ensures CRC.Drop(c, 8) == c >> 8
  {
    ShiftAmounts(c);
    CRC.DropAdds(c, 4, 4);
    Drop4(c);
    Drop4(c >> 4);
  }

  lemma Drop16(c: bv32)
    ensures CRC.Drop(c, 16) == c >> 16
  {
    ShiftAmounts(c);
    CRC.DropAdds(c, 8, 8);
    Drop8(c);
    Drop8(c >> 8);
  }

  lemma Drop32(c: bv32)
    ensures CRC.HasWidth(c, 32)
  {
    ShiftAmounts(c);
    CRC.DropAdds(c, 16, 16);
    Drop16(c);
    Drop16(c >> 16);
  }

  lemma Zeros4(c: bv32)
    requires c & 0xF == 0
    ensures CRC.LowZeros(c, 4)
  {
    assert c & 1 == 0 && (c >> 1) & 1 == 0 && (c >> 1 >> 1) & 1 == 0 && (c >> 1 >> 1 >> 1) & 1 == 0;
    assert CRC.LowZeros(c >> 1 >> 1, 2);
  }

  lemma ZeroByteShifts(c: bv32)
    requires c & 0xFF == 0
    ensures CRC.ShiftN(c, 8) == c >> 8
  {
    CrcLawful();
    CRC.LawfulShift();
    assert c & 0xF == 0 && (c >> 4) & 0xF == 0;
    Zeros4(c);
    Zeros4(c >> 4);
    CRC.ShiftZeros(c, 4);
    CRC.ShiftZeros(c >> 4, 4);
    CRC.ShiftNAdds(c, 4, 4);
    Drop4(c);
    Drop4(c >> 4);
    assert c >> 4 >> 4 == c >> 8;
  }

  lemma SplitByte(c: bv32)
    ensures Xor(c & 0xFFFFFF00, c & 0xFF) == c
    ensures (c & 0xFFFFFF00) & 0xFF == 0 && (c & 0xFFFFFF00) >> 8 == c >> 8
  {
  }

  /** Eight shifts see only the low byte; the rest moves down unchanged. */
  lemma Shift8ByTable(c: bv32, n: nat)
    requires n == 8
    ensures CRC.ShiftN(c, n) == Xor(c >> 8, CRC.ShiftN(c & 0xFF, n))
  {
    var hi, lo := c & 0xFFFFFF00, c & 0xFF;
    assert CRC.xor(hi, lo) == c by { SplitByte(c); }
    assert CRC.ShiftN(hi, n) == c >> 8 by {
      SplitByte(c);
      ZeroByteShifts(hi);
    }
    assert CRC.ShiftLaws() by {
      CrcLawful();
      CRC.LawfulShift();
    }
    CRC.ShiftSplit(c, hi, lo, n, c >> 8);
  }

  /** The table: what eight shifts make of each byte. */
  ghost predicate IsTable(table: seq<bv32>) {
    |table| == 256 && forall t :: HasEntry(table, t, 8)
  }

  ghost predicate HasEntry(table: seq<bv32>, t: bv32, n: nat)
    requires |table| == 256
  {
    t < 256 ==> IsEntry(table[t as int], t, n)
  }

  ghost predicate IsEntry(e: bv32, t: bv32, n: nat) {
    e == CRC.ShiftN(t, n)
  }

  function Step(e: bv32): (r: bv32)
    ensures r == CRC.Shift(e)
  {
    if e & 1 == 1 then 0xEDB88320 ^ (e >> 1) else e >> 1
  }

  method MakeEntry(t: bv32, bits: nat) returns (e: bv32)
    ensures IsEntry(e, t, bits)
  {
    e := t;
    for n := 0 to bits
      invariant CRC.ShiftN(t, bits) == CRC.ShiftN(e, bits - n)
    {
      e := Step(e);
    }
  }

  method MakeTable() returns (table: seq<bv32>)
    ensures IsTable(table)
  {
    table := [];
    for t := 0 to 256
      invariant |table| == t
      invariant forall i :: 0 <= i < t ==> IsEntry(table[i], i as bv32, 8)
    {
      var e := MakeEntry(t as bv32, 8);
      table := table + [e];
    }
    forall t ensures HasEntry(table, t, 8) {
      if t < 256 {
        WordOfIndex(t);
      }
    }
  }

  lemma WordOfIndex(t: bv32)
    requires t < 256
    ensures (t as int) as bv32 == t
  {
  }

  /** The message as a bit string: bytes in order, least significant bit first. */
  function Bits(data: seq<bv8>): seq<bool> {
    if data == [] then [] else CRC.LowBits(data[0] as bv32, 8) + Bits(data[1..])
  }

  lemma {:induction false} BitsAppend(a: seq<bv8>, b: seq<bv8>)
    ensures Bits(a + b) == Bits(a) + Bits(b)
  {
    if a == [] {
      assert a + b == b;
    } else {
      assert (a + b)[1..] == a[1..] + b;
      BitsAppend(a[1..], b);
    }
  }

  /** The checksum of `data` continued from `crc`, by division of the bit string. */
  function Checksum(crc: bv32, data: seq<bv8>): bv32 {
    Xor(CRC.Divide(Xor(crc, 0xFFFFFFFF), Bits(data)), 0xFFFFFFFF)
  }

  lemma ByteFacts(c: bv32, b: bv8)
    ensures Xor(c, b as bv32) >> 8 == c >> 8
    ensures (b as bv32) >> 8 == 0
  {
  }

  lemma ByteRange(x: bv32)
    ensures x & 255 < 256
  {
  }

  function TableUpdate(table: seq<bv32>, c: bv32, b: bv8): bv32
    requires |table| == 256
  {
    Xor(c >> 8, table[(Xor(c, b as bv32) & 255) as int])
  }

  lemma XorZero(a: bv32)
    ensures CRC.xor(a, CRC.zero) == a
  {
  }

  lemma EntryOf(table: seq<bv32>, x: bv32, n: nat)
    requires IsTable(table) && n == 8
    ensures table[(x & 255) as int] == CRC.ShiftN(x & 255, n)
  {
    ByteRange(x);
    assert HasEntry(table, x & 255, n);
  }

  lemma ShiftByte(table: seq<bv32>, c: bv32, b: bv8, n: nat)
    requires IsTable(table) && n == 8
    ensures CRC.ShiftN(CRC.xor(c, b as bv32), n) == TableUpdate(table, c, b)
  {
    var x := Xor(c, b as bv32);
    EntryOf(table, x, n);
    Shift8ByTable(x, n);
    ByteFacts(c, b);
  }

  /** One table look-up divides by the eight bits of a byte. */
  lemma TableStep(table: seq<bv32>, c: bv32, b: bv8, n: nat, rest: seq<bool>)
    requires IsTable(table) && n == 8
    ensures CRC.Divide(c, CRC.LowBits(b as bv32, n) + rest) == CRC.Divide(TableUpdate(table, c, b), rest)
  {
    var w, entry := b as bv32, table[(Xor(c, b as bv32) & 255) as int];
    assert CRC.ShiftLaws() by {
      CrcLawful();
      CRC.LawfulShift();
    }
    assert CRC.Drop(w, n) == CRC.zero by {
      Drop8(w);
      ByteFacts(c, b);
    }
    ShiftByte(table, c, b, n);
    XorZero(CRC.xor(c >> 8, entry));
    CRC.DivideByTable(c, w, n, rest, c >> 8, entry);
  }

  /** The table-driven loop computes the division, whatever the starting value. */
  method Update(crc: bv32, buf: seq<bv8>, len: nat, pos: nat) returns (r: bv32)
    requires pos + len <= |buf|
    ensures r == Checksum(crc, buf[pos..pos + len])
  {
    var table := MakeTable();
    var e := Xor(crc, 0xFFFFFFFF);
    ghost var total := CRC.Divide(e, Bits(buf[pos..pos + len]));
    for o := pos to pos + len
      invariant CRC.Divide(e, Bits(buf[o..pos + len])) == total
    {
      ghost var rest := buf[o..pos + len];
      assert rest[1..] == buf[o + 1..pos + len];
      TableStep(table, e, buf[o], 8, Bits(rest[1..]));
      e := TableUpdate(table, e, buf[o]);
    }
    r := Xor(e, 0xFFFFFFFF);
  }

  /** A message may be summed in pieces. */
  lemma ChecksumAppend(crc: bv32, a: seq<bv8>, b: seq<bv8>)
    ensures Checksum(Checksum(crc, a), b) == Checksum(crc, a + b)
  {
    var c := Xor(crc, 0xFFFFFFFF);
    BitsAppend(a, b);
    CRC.DivideAppend(c, Bits(a), Bits(b));
    XorCancels(CRC.Divide(c, Bits(a)), 0xFFFFFFFF);
  }

  /** Two messages whose bit strings agree except in a stretch of at most 32 bits have
      different checksums, from any starting value. */
  lemma BurstDetected(crc: bv32, a: seq<bv8>, b: seq<bv8>, p: seq<bool>, x: seq<bool>, y: seq<bool>, s: seq<bool>)
    requires Bits(a) == p + x + s && Bits(b) == p + y + s
    requires |x| == |y| <= 32 && x != y
    ensures Checksum(crc, a) != Checksum(crc, b)
  {
    CrcLawful();
    var c := Xor(crc, 0xFFFFFFFF);
    var da, db := CRC.Divide(c, Bits(a)), CRC.Divide(c, Bits(b));
    DivisionsDiffer(c, p, x, y, s);
    XorCancels(da, 0xFFFFFFFF);
    XorCancels(db, 0xFFFFFFFF);
  }

  lemma DivisionsDiffer(c: bv32, p: seq<bool>, x: seq<bool>, y: seq<bool>, s: seq<bool>)
    requires |x| == |y| <= 32 && x != y
    ensures CRC.Divide(c, p + x + s) != CRC.Divide(c, p + y + s)
  {
    CrcLawful();
    CRC.LawfulShift();
    CrcDifferenceLaws();
    CRC.DivideAppend(c, p + x, s);
    CRC.DivideAppend(c, p, x);
    CRC.DivideAppend(c, p + y, s);
    CRC.DivideAppend(c, p, y);
    CRC.BurstSeparates(32, CRC.Divide(c, p), x, y);
    CRC.DivideInjective(CRC.Divide(c, p + x), CRC.Divide(c, p + y), s);
  }

  lemma CrcDifferenceLaws()
    ensures CRC.DifferenceLaws(32)
  {
    CrcLawful();
    forall c ensures CRC.HasWidth(c, 32) { Drop32(c); }
    GeneratorTop();
    CRC.LawfulDifference(32);
  }

  lemma GeneratorTop()
    ensures CRC.Drop(CRC.generator, 31) != CRC.zero
  {
    CRC.DropAdds(CRC.generator, 31, 1);
    var g := CRC.generator;
    CRC.DropAdds(g, 16, 15);
    Drop16(g);
    CRC.DropAdds(g >> 16, 8, 7);
    Drop8(g >> 16);
    CRC.DropAdds(g >> 16 >> 8, 4, 3);
    Drop4(g >> 16 >> 8);
    CRC.DropAdds(g >> 16 >> 8 >> 4, 2, 1);
    Drop2(g >> 16 >> 8 >> 4);
    assert g >> 16 >> 8 >> 4 >> 2 == 3;
    assert CRC.Drop(3, 1) == CRC.Drop(1, 0);
  }
}

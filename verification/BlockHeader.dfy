/**
 * The bits of a block: of its header, which describes two codes, of its tokens, and of the two kinds of
 * block that need no header.
 */
module BlockHeader {
  import opened Bytes
  import opened BitStrings
  import opened CanonicalCodes
  import opened HuffmanLengths
  import opened InflateTable
  import opened HuffmanStream
  import opened LengthCodes
  import opened BlockBody
  import opened Lz77
  import Rle = CodeLengthRle

  const BL_CODES: nat := 19
  const MAX_BL_BITS: nat := 7

  /** The order in which the lengths of the code-length code are sent. */
  const BL_ORDER: seq<nat> := [16, 17, 18, 0, 8, 7, 9, 6, 10, 5, 11, 4, 12, 3, 13, 2, 14, 1, 15]

  lemma OrderCovers()
    ensures |BL_ORDER| == BL_CODES && (forall k | 0 <= k < BL_CODES :: BL_ORDER[k] < BL_CODES)
    ensures forall i, j | 0 <= i < j < BL_CODES :: BL_ORDER[i] != BL_ORDER[j]
    ensures forall o | 0 <= o < BL_CODES :: o in BL_ORDER
  {
  }

  function PlaceOf(k: nat): (o: nat)
    requires k < BL_CODES
    ensures o < BL_CODES
  {
    OrderCovers();
    BL_ORDER[k]
  }

  ghost predicate CompleteCode(lens: seq<nat>) {
    Lengths15(lens) && Matches(Counts(lens), lens) && Kraft(Counts(lens), MAX_BITS) == Pow2(MAX_BITS)
  }

  ghost predicate Within(lens: seq<nat>, s: nat) { forall o | 0 <= o < |lens| :: lens[o] <= s }

  /** What a header says: the two codes, the code the lengths are sent with, how many lengths of that one
      are sent, and the run-length form of the others. */
  datatype Header = Header(u: Codes, bl: seq<nat>, blCodes: nat, runs: seq<Rle.Token>)

  ghost predicate RunsInUse(bl: seq<nat>, ts: seq<Rle.Token>) {
    forall i | 0 <= i < |ts| :: InUse(bl, ts[i].sym) && ts[i].extra < Pow2(Rle.ExtraBits(ts[i].sym))
  }

  /** Reading the run-length form after `acc` brings `want`, and takes all of it. */
  ghost predicate RunsTo(acc: seq<nat>, ts: seq<Rle.Token>, want: seq<nat>) {
    Rle.Fill(acc, ts, |want|) == Rle.Done(want) && Rle.Fill(acc, ts, |want| + 1) == Rle.NeedInput
  }

  ghost predicate Described(h: Header) {
    && TwoCodes(h.u) && Acceptable(Lens, h.u.lens) && Acceptable(Dists, h.u.dists)
    && 257 <= |h.u.lens| <= L_CODES && 1 <= |h.u.dists| <= D_CODES
    && |h.bl| == BL_CODES && CompleteCode(h.bl) && Within(h.bl, MAX_BL_BITS) && 4 <= h.blCodes <= BL_CODES
    && (forall k | h.blCodes <= k < BL_CODES :: h.bl[PlaceOf(k)] == 0)
    && RunsInUse(h.bl, h.runs) && RunsTo([], h.runs, h.u.lens + h.u.dists)
  }

  /** The lengths of the code-length code for the places from `k` to `n`. */
  ghost function BlBits(bl: seq<nat>, n: nat, k: nat): seq<bool>
    requires |bl| == BL_CODES && n <= BL_CODES
    decreases n - k
  {
    if n <= k then [] else BitsOf(bl[PlaceOf(k)], 3) + BlBits(bl, n, k + 1)
  }

  ghost function RunBits(bl: seq<nat>, ts: seq<Rle.Token>): seq<bool>
    requires Lengths15(bl) && RunsInUse(bl, ts)
  {
    if ts == [] then []
    else (Spelled(bl, ts[0].sym) + BitsOf(ts[0].extra, Rle.ExtraBits(ts[0].sym))) + RunBits(bl, ts[1..])
  }

  ghost function CountBits(nlen: nat, ndist: nat, ncode: nat): seq<bool>
    requires 257 <= nlen && 1 <= ndist && 4 <= ncode
  {
    BitsOf(nlen - 257, 5) + (BitsOf(ndist - 1, 5) + BitsOf(ncode - 4, 4))
  }

  ghost function TreeBits(h: Header): seq<bool>
    requires Described(h)
  {
    CountBits(|h.u.lens|, |h.u.dists|, h.blCodes) + (BlBits(h.bl, h.blCodes, 0) + RunBits(h.bl, h.runs))
  }

  // The fixed codes

  function FixedLength(o: nat): nat { if o < 144 then 8 else if o < 256 then 9 else if o < 280 then 7 else 8 }

  /** The lengths of section 3.2.6 of RFC 1951; of the 32 distances the last two are never sent. */
  function FixedLens(n: nat): (lens: seq<nat>)
    ensures |lens| == n && forall o | 0 <= o < n :: lens[o] == FixedLength(o)
  {
    seq(n, o requires 0 <= o => FixedLength(o))
  }

  function Fives(n: nat): (lens: seq<nat>)
    ensures |lens| == n && forall o | 0 <= o < n :: lens[o] == 5
  {
    seq(n, _ => 5)
  }

  ghost function FixedCodes(): Codes { Codes.Codes(FixedLens(288), Fives(32)) }

  lemma {:induction false} CountOfMany(lens: seq<nat>, l: nat, x: nat)
    requires forall o | 0 <= o < |lens| :: lens[o] == x
    ensures Count(lens, l) == if l == x then |lens| else 0
    decreases |lens|
  {
    if lens != [] {
      CountOfMany(lens[..|lens| - 1], l, x);
    }
  }

  lemma FixedCounts(l: nat)
    ensures Count(FixedLens(288), l) == if l == 7 then 24 else if l == 8 then 152 else if l == 9 then 112 else 0
  {
    var lens := FixedLens(288);
    var a, b, c, d := lens[..144], lens[144..256], lens[256..280], lens[280..];
    assert lens == ((a + b) + c) + d;
    CountSplits((a + b) + c, d, l);
    CountSplits(a + b, c, l);
    CountSplits(a, b, l);
    CountOfMany(a, l, 8);
    CountOfMany(b, l, 9);
    CountOfMany(c, l, 7);
    CountOfMany(d, l, 8);
  }

  lemma KraftOfFixed(counts: seq<nat>)
    requires |counts| == MAX_BITS + 1 && counts[0] == 0
    requires forall l | 1 <= l <= MAX_BITS ::
               counts[l] == if l == 7 then 24 else if l == 8 then 152 else if l == 9 then 112 else 0
    ensures Kraft(counts, MAX_BITS) == Pow2(MAX_BITS)
  {
    KraftZero(counts, 6);
    assert Kraft(counts, 7) == 24;
    assert Kraft(counts, 8) == 200;
    assert Kraft(counts, 9) == 512;
    SmallPowers();
    KraftOfZeros(counts, 9, MAX_BITS);
  }

  lemma KraftOfFives(counts: seq<nat>)
    requires |counts| == MAX_BITS + 1 && counts[0] == 0
    requires forall l | 1 <= l <= MAX_BITS :: counts[l] == if l == 5 then 32 else 0
    ensures Kraft(counts, MAX_BITS) == Pow2(MAX_BITS)
  {
    KraftZero(counts, 4);
    assert Kraft(counts, 5) == 32;
    SmallPowers();
    KraftOfZeros(counts, 5, MAX_BITS);
  }

  /** Both fixed codes leave no gap. */
  lemma FixedFull()
    ensures CompleteCode(FixedLens(288)) && CompleteCode(Fives(32))
  {
    hide Kraft, Pow2;
    forall l | 1 <= l <= MAX_BITS
      ensures Count(FixedLens(288), l) == if l == 7 then 24 else if l == 8 then 152 else if l == 9 then 112 else 0
    {
      FixedCounts(l);
    }
    KraftOfFixed(Counts(FixedLens(288)));
    forall l | 1 <= l <= MAX_BITS ensures Count(Fives(32), l) == if l == 5 then 32 else 0 {
      CountOfMany(Fives(32), l, 5);
    }
    KraftOfFives(Counts(Fives(32)));
    MatchesCounts(FixedLens(288));
    MatchesCounts(Fives(32));
  }

  lemma CompleteIsFull(kind: Kind, lens: seq<nat>)
    requires CompleteCode(lens)
    ensures Full(lens) && Readable(lens) && Acceptable(kind, lens)
  {
    hide Kraft, Matches;
  }

  lemma FixedTwo()
    ensures var u := FixedCodes(); TwoCodes(u) && CompleteCode(u.lens) && CompleteCode(u.dists)
    ensures Readable(FixedCodes().lens) && Readable(FixedCodes().dists)
  {
    hide Kraft, Matches;
    FixedFull();
    CompleteIsFull(Lens, FixedLens(288));
    CompleteIsFull(Dists, Fives(32));
  }

  // Blocks

  /** A block as sent: with codes of its own, with the fixed codes, or as it is, from the next byte on. */
  datatype Sent =
    | Dynamic(last: bool, h: Header, cs: seq<Coded>)
    | Fixed(last: bool, cs: seq<Coded>)
    | Raw(last: bool, pad: seq<bool>, data: seq<byte>)

  ghost predicate Legible(b: Sent) {
    match b
    case Dynamic(_, h, cs) => Described(h) && AllHaveCodes(h.u, cs)
    case Fixed(_, cs) => TwoCodes(FixedCodes()) && AllHaveCodes(FixedCodes(), cs)
    case Raw(_, pad, data) => |pad| < 8 && |data| <= 65535
  }

  ghost function TypeBits(kind: nat, last: bool): seq<bool> { BitsOf(2 * kind + if last then 1 else 0, 3) }

  ghost function RawBits(pad: seq<bool>, data: seq<byte>): seq<bool>
    requires |data| <= 65535
  {
    pad + (BitsOf(|data|, 16) + (BitsOf(65535 - |data|, 16) + BytesBits(data)))
  }

  ghost function BlockBits(b: Sent): seq<bool>
    requires Legible(b)
  {
    match b
    case Dynamic(last, h, cs) => TypeBits(2, last) + (TreeBits(h) + BodyBits(h.u, cs))
    case Fixed(last, cs) => TypeBits(1, last) + BodyBits(FixedCodes(), cs)
    case Raw(last, pad, data) => TypeBits(0, last) + RawBits(pad, data)
  }

  lemma AllSound(u: Codes, cs: seq<Coded>)
    requires AllHaveCodes(u, cs)
    ensures forall i | 0 <= i < |cs| :: Sound(cs[i])
  {
    forall i | 0 <= i < |cs| ensures Sound(cs[i]) {
      assert HasCodes(u, cs[i]);
    }
  }

  /** What a block stands for. */
  ghost function TokensOf(b: Sent): seq<Token>
    requires Legible(b)
  {
    match b
    case Dynamic(_, h, cs) => AllSound(h.u, cs); Meanings(cs)
    case Fixed(_, cs) => AllSound(FixedCodes(), cs); Meanings(cs)
    case Raw(_, _, data) => [Stored(data)]
  }
}

/** The LEN, LENEXT, DIST and DISTEXT states of `inflate`: a block's tokens, from whatever bits come. */
module InflateBody {
  import opened Bytes
  import opened BitStrings
  import opened BitStream
  import opened BitParse
  import opened CanonicalCodes
  import opened DecodeTable
  import opened InflateTable
  import opened HuffmanStream
  import opened LengthCodes
  import opened Lz77
  import opened Sequences
  import opened BlockBody

  datatype Item = Tok(token: Token) | End

  ghost predicate BothFit(u: Codes) { Lengths15(u.lens) && Lengths15(u.dists) }

  ghost predicate BothReadable(u: Codes) { Readable(u.lens) && Readable(u.dists) }

  // The rows of the inflater's tables

  function LengthExtra(l: nat): (n: nat)
    requires l < 29
    ensures n <= MAX_BITS
  {
    Sizes();
    EXTRA_LBITS[l]
  }

  function LengthBase(l: nat): nat
    requires l < 29
  {
    Sizes();
    LBASE[l]
  }

  function DistanceExtra(d: nat): (n: nat)
    requires d < 30
    ensures n <= MAX_BITS
  {
    Sizes();
    EXTRA_DBITS[d]
  }

  function DistanceBase(d: nat): nat
    requires d < 30
  {
    Sizes();
    DBASE[d]
  }

  // What the bits say

  /** The distance of a match. The last two of the 32 symbols of the fixed code have no meaning. */
  ghost function DistanceAt(u: Codes, length: nat, bits: seq<bool>): (p: Parse<Item>)
    requires BothFit(u)
    ensures p.Got? ==> |p.rest| <= |bits|
  {
    var (d, rest) :- WordAt(u.dists, bits, DistanceCode);
    if d >= 30 then Wrong(DistanceCode)
    else
      var (extra, end) :- NumberAt(rest, DistanceExtra(d));
      Got(Tok(Match(length, DistanceBase(d) + extra)), end)
  }

  /** The rest of a match after its length symbol. */
  ghost function MatchAt(u: Codes, l: nat, bits: seq<bool>): (p: Parse<Item>)
    requires BothFit(u) && l < 29
    ensures p.Got? ==> |p.rest| <= |bits|
  {
    var (extra, rest) :- NumberAt(bits, LengthExtra(l));
    DistanceAt(u, LengthBase(l) + extra, rest)
  }

  /** A token, or the end of the block. */
  ghost function ItemAt(u: Codes, bits: seq<bool>): (p: Parse<Item>)
    requires BothFit(u)
    ensures p.Got? ==> |p.rest| < |bits|
  {
    var (sym, rest) :- WordAt(u.lens, bits, LengthCode);
    if sym < 256 then Got(Tok(Literal(sym)), rest)
    else if sym == END_BLOCK then Got(End, rest)
    else if sym >= 286 then Wrong(LengthCode)
    else MatchAt(u, sym - 257, rest)
  }

  /** The tokens read so far, before those still to be read. */
  function Joined(done: seq<Token>, p: Parse<seq<Token>>): Parse<seq<Token>> {
    if p.Got? then Got(done + p.value, p.rest) else p
  }

  /** The tokens up to the end of the block. */
  ghost function BodyAt(u: Codes, bits: seq<bool>): (p: Parse<seq<Token>>)
    requires BothFit(u)
    ensures p.Got? ==> |p.rest| < |bits|
    decreases |bits|
  {
    var (item, rest) :- ItemAt(u, bits);
    if item.End? then Got([], rest) else Joined([item.token], BodyAt(u, rest))
  }

  // Tokens that were sent are read back

  lemma DistanceIs(u: Codes, c: Coded, length: nat, rest: seq<bool>)
    requires TwoCodes(u) && BothReadable(u) && HasCodes(u, c) && c.CMatch? && |DBASE| == 30
    ensures DistanceAt(u, length, DistBits(u, c) + rest) == Got(Tok(Match(length, DBASE[c.dcode] + c.dextra)), rest)
  {
    hide BitsOf, Spelled, WordAt, NumberAt, Pow2, Readable, Lengths15;
    Sizes();
    var d, de := Spelled(u.dists, c.dcode), BitsOf(c.dextra, EXTRA_DBITS[c.dcode]);
    Regroup(d, de, rest);
    WordIs(u.dists, c.dcode, de + rest, DistanceCode);
    NumberIs(c.dextra, EXTRA_DBITS[c.dcode], rest);
  }

  lemma MatchIs(u: Codes, c: Coded, rest: seq<bool>)
    requires TwoCodes(u) && BothReadable(u) && HasCodes(u, c) && c.CMatch? && |EXTRA_LBITS| == 29
    ensures MatchAt(u, c.lcode, (BitsOf(c.lextra, EXTRA_LBITS[c.lcode]) + DistBits(u, c)) + rest)
         == Got(Tok(Meaning(c)), rest)
  {
    hide BitsOf, DistanceAt, NumberAt, Pow2, Readable, Lengths15, DistBits;
    Sizes();
    Regroup(BitsOf(c.lextra, EXTRA_LBITS[c.lcode]), DistBits(u, c), rest);
    NumberIs(c.lextra, EXTRA_LBITS[c.lcode], DistBits(u, c) + rest);
    DistanceIs(u, c, LBASE[c.lcode] + c.lextra, rest);
  }

  lemma ItemIs(u: Codes, c: Coded, rest: seq<bool>)
    requires TwoCodes(u) && BothReadable(u) && HasCodes(u, c)
    ensures ItemAt(u, CodedBits(u, c) + rest) == Got(Tok(Meaning(c)), rest)
  {
    hide BitsOf, Spelled, WordAt, MatchAt, Pow2, Readable, Lengths15, DistBits;
    Sizes();
    if c.CLiteral? {
      WordIs(u.lens, LitSym(c), rest, LengthCode);
    } else {
      var w, x := Spelled(u.lens, LitSym(c)), BitsOf(c.lextra, EXTRA_LBITS[c.lcode]) + DistBits(u, c);
      assert (w + x) + rest == w + (x + rest);
      WordIs(u.lens, LitSym(c), x + rest, LengthCode);
      MatchIs(u, c, rest);
    }
  }

  lemma EndIs(u: Codes, rest: seq<bool>)
    requires TwoCodes(u) && BothReadable(u)
    ensures ItemAt(u, Spelled(u.lens, END_BLOCK) + rest) == Got(End, rest)
  {
    hide Spelled, WordAt;
    WordIs(u.lens, END_BLOCK, rest, LengthCode);
  }

  /** What was sent is what is read, and nothing beyond it. */
  lemma {:induction false} BodyIs(u: Codes, cs: seq<Coded>, rest: seq<bool>)
    requires TwoCodes(u) && BothReadable(u) && AllHaveCodes(u, cs)
    ensures forall i | 0 <= i < |cs| :: Sound(cs[i])
    ensures BodyAt(u, BodyBits(u, cs) + rest) == Got(Meanings(cs), rest)
    decreases |cs|
  {
    hide Spelled, ItemAt, CodedBits, Readable, Lengths15, Meaning;
    if cs == [] {
      EndIs(u, rest);
    } else {
      BodyIs(u, cs[1..], rest);
      assert HasCodes(u, cs[0]);
      assert (CodedBits(u, cs[0]) + BodyBits(u, cs[1..])) + rest == CodedBits(u, cs[0]) + (BodyBits(u, cs[1..]) + rest);
      ItemIs(u, cs[0], BodyBits(u, cs[1..]) + rest);
      assert [Meaning(cs[0])] + Meanings(cs[1..]) == Meanings(cs);
    }
  }

  // Whatever is read could have been sent

  lemma DistanceWas(u: Codes, length: nat, bits: seq<bool>) returns (d: nat, extra: nat)
    requires BothFit(u) && DistanceAt(u, length, bits).Got?
    ensures |EXTRA_DBITS| == 30 == |DBASE| && InUse(u.dists, d) && d < 30 && extra < Pow2(EXTRA_DBITS[d])
    ensures DistanceAt(u, length, bits).value == Tok(Match(length, DBASE[d] + extra))
    ensures bits == (Spelled(u.dists, d) + BitsOf(extra, EXTRA_DBITS[d])) + DistanceAt(u, length, bits).rest
  {
    hide BitsOf, Spelled, WordAt, NumberAt, Pow2, Lengths15;
    Sizes();
    var q := WordAt(u.dists, bits, DistanceCode);
    d := q.value;
    NumberWas(q.rest, EXTRA_DBITS[d]);
    extra := NumberAt(q.rest, EXTRA_DBITS[d]).value;
    Regroup(Spelled(u.dists, d), BitsOf(extra, EXTRA_DBITS[d]), DistanceAt(u, length, bits).rest);
  }

  lemma MatchWas(u: Codes, l: nat, bits: seq<bool>) returns (c: Coded)
    requires TwoCodes(u) && InUse(u.lens, 257 + l) && l < 29 && MatchAt(u, l, bits).Got?
    ensures c.CMatch? && c.lcode == l && HasCodes(u, c) && MatchAt(u, l, bits).value == Tok(Meaning(c))
    ensures |EXTRA_LBITS| == 29
    ensures bits == (BitsOf(c.lextra, EXTRA_LBITS[l]) + DistBits(u, c)) + MatchAt(u, l, bits).rest
  {
    hide BitsOf, Spelled, DistanceAt, NumberAt, Pow2, Lengths15;
    Sizes();
    var p := NumberAt(bits, EXTRA_LBITS[l]);
    NumberWas(bits, EXTRA_LBITS[l]);
    var d, extra := DistanceWas(u, LBASE[l] + p.value, p.rest);
    c := CMatch(l, p.value, d, extra);
    Regroup(BitsOf(p.value, EXTRA_LBITS[l]), DistBits(u, c), MatchAt(u, l, bits).rest);
  }

  lemma ItemWas(u: Codes, bits: seq<bool>) returns (c: Coded)
    requires TwoCodes(u) && ItemAt(u, bits).Got? && ItemAt(u, bits).value.Tok?
    ensures HasCodes(u, c) && ItemAt(u, bits).value.token == Meaning(c)
    ensures bits == CodedBits(u, c) + ItemAt(u, bits).rest
  {
    hide BitsOf, Spelled, WordAt, Pow2, Lengths15, MatchAt, DistBits;
    Sizes();
    var p := WordAt(u.lens, bits, LengthCode);
    if p.value < 256 {
      c := CLiteral(p.value);
    } else {
      c := MatchWas(u, p.value - 257, p.rest);
      var w, x := Spelled(u.lens, p.value), BitsOf(c.lextra, EXTRA_LBITS[c.lcode]) + DistBits(u, c);
      assert (w + x) + ItemAt(u, bits).rest == w + (x + ItemAt(u, bits).rest);
    }
  }

  lemma EndWas(u: Codes, bits: seq<bool>)
    requires BothFit(u) && ItemAt(u, bits).Got? && ItemAt(u, bits).value.End?
    ensures InUse(u.lens, END_BLOCK) && bits == Spelled(u.lens, END_BLOCK) + ItemAt(u, bits).rest
  {
    hide Spelled, WordAt;
  }

  lemma {:induction false} BodyWas(u: Codes, bits: seq<bool>) returns (cs: seq<Coded>)
    requires TwoCodes(u) && BodyAt(u, bits).Got?
    ensures AllHaveCodes(u, cs) && forall i | 0 <= i < |cs| :: Sound(cs[i])
    ensures BodyAt(u, bits).value == Meanings(cs) && bits == BodyBits(u, cs) + BodyAt(u, bits).rest
    decreases |bits|
  {
    hide Spelled, ItemAt, CodedBits, Lengths15, Meaning;
    var p := ItemAt(u, bits);
    if p.value.End? {
      EndWas(u, bits);
      cs := [];
    } else {
      var c := ItemWas(u, bits);
      var more := BodyWas(u, p.rest);
      cs := [c] + more;
      assert cs[1..] == more;
      assert [Meaning(c)] + Meanings(more) == Meanings(cs);
      var rest := BodyAt(u, bits).rest;
      assert (CodedBits(u, c) + BodyBits(u, more)) + rest == CodedBits(u, c) + (BodyBits(u, more) + rest);
    }
  }

  // No verdict is revised by more input

  lemma DistanceMore(u: Codes, length: nat, bits: seq<bool>, more: seq<bool>)
    requires BothReadable(u) && DistanceAt(u, length, bits) != Short
    ensures DistanceAt(u, length, bits + more) == DistanceAt(u, length, bits).Then(more)
  {
    hide WordAt, NumberAt, DistanceExtra, DistanceBase;
    WordMore(u.dists, bits, DistanceCode, more);
    var q := WordAt(u.dists, bits, DistanceCode);
    if q.Got? && q.value < 30 {
      NumberMore(q.rest, DistanceExtra(q.value), more);
    }
  }

  lemma MatchMore(u: Codes, l: nat, bits: seq<bool>, more: seq<bool>)
    requires BothReadable(u) && l < 29 && MatchAt(u, l, bits) != Short
    ensures MatchAt(u, l, bits + more) == MatchAt(u, l, bits).Then(more)
  {
    hide DistanceAt, NumberAt, Readable, LengthExtra, LengthBase;
    NumberMore(bits, LengthExtra(l), more);
    var p := NumberAt(bits, LengthExtra(l));
    DistanceMore(u, LengthBase(l) + p.value, p.rest, more);
  }

  lemma ItemMore(u: Codes, bits: seq<bool>, more: seq<bool>)
    requires BothReadable(u) && ItemAt(u, bits) != Short
    ensures ItemAt(u, bits + more) == ItemAt(u, bits).Then(more)
  {
    hide WordAt, MatchAt;
    WordMore(u.lens, bits, LengthCode, more);
    var p := WordAt(u.lens, bits, LengthCode);
    if p.Got? && 257 <= p.value < 286 {
      MatchMore(u, p.value - 257, p.rest, more);
    }
  }

  lemma {:induction false} BodyMore(u: Codes, bits: seq<bool>, more: seq<bool>)
    requires BothReadable(u) && BodyAt(u, bits) != Short
    ensures BodyAt(u, bits + more) == BodyAt(u, bits).Then(more)
    decreases |bits|
  {
    hide ItemAt;
    ItemMore(u, bits, more);
    var p := ItemAt(u, bits);
    if p.Got? && p.value.Tok? {
      BodyMore(u, p.rest, more);
    }
  }

  // The states

  /** Two codes with the tables built from them. */
  datatype Decoder = Decoder(ltable: seq<Entry>, lroot: nat, dtable: seq<Entry>, droot: nat)

  ghost predicate Decoding(k: Decoder, u: Codes) {
    OneDecodes(k.ltable, k.lroot, u.lens) && OneDecodes(k.dtable, k.droot, u.dists)
  }

  lemma DecodingFits(k: Decoder, u: Codes)
    requires Decoding(k, u)
    ensures BothFit(u) && BothReadable(u)
  {
  }

  /** The failure of a part is the failure of the whole. */
  function Fails<T, U>(r: Reading<T>): Reading<U>
    requires !r.Done?
  {
    if r.Starved? then Starved else Failed(r.fault)
  }

  /** Extra bits. */
  method AwaitExtra(r: BitReader, n: nat, chunks: seq<seq<byte>>, c0: nat) returns (res: Reading<nat>, c: nat)
    requires Steady(r) && n <= MAX_BITS && c0 <= |chunks|
    modifies r
    ensures Steady(r) && c0 <= c <= |chunks|
    ensures Tells(NumberAt(old(Ahead(r, chunks, c0)), n), res, Ahead(r, chunks, c))
  {
    hide NumberAt, Ahead;
    res, c := AwaitNumber(r, n, chunks, c0);
  }

  /** DIST and DISTEXT. */
  method ReadDistance(r: BitReader, k: Decoder, length: nat, chunks: seq<seq<byte>>, c0: nat, ghost u: Codes)
    returns (res: Reading<Item>, c: nat)
    requires Steady(r) && Decoding(k, u) && c0 <= |chunks|
    modifies r
    ensures Steady(r) && c0 <= c <= |chunks| && BothFit(u)
    ensures Tells(DistanceAt(u, length, old(Ahead(r, chunks, c0))), res, Ahead(r, chunks, c))
  {
    hide OneDecodes, WordAt, NumberAt, Ahead, Lengths15, Readable, Pow2, DistanceExtra, DistanceBase;
    DecodingFits(k, u);
    var d, extra;
    d, c := AwaitSymbol(r, k.dtable, k.droot, chunks, c0, DistanceCode, u.dists);
    if !d.Done? {
      return Fails(d), c;
    }
    if d.value >= 30 {
      return Failed(DistanceCode), c;
    }
    extra, c := AwaitExtra(r, DistanceExtra(d.value), chunks, c);
    res := if extra.Done? then Done(Tok(Match(length, DistanceBase(d.value) + extra.value))) else Fails(extra);
  }

  /** LENEXT, then the distance. */
  method ReadMatch(r: BitReader, k: Decoder, l: nat, chunks: seq<seq<byte>>, c0: nat, ghost u: Codes)
    returns (res: Reading<Item>, c: nat)
    requires Steady(r) && Decoding(k, u) && c0 <= |chunks| && l < 29
    modifies r
    ensures Steady(r) && c0 <= c <= |chunks| && BothFit(u)
    ensures Tells(MatchAt(u, l, old(Ahead(r, chunks, c0))), res, Ahead(r, chunks, c))
  {
    hide Decoding, DistanceAt, NumberAt, Ahead, BothFit, BothReadable, Pow2, LengthExtra, LengthBase;
    DecodingFits(k, u);
    var extra;
    extra, c := AwaitExtra(r, LengthExtra(l), chunks, c0);
    if !extra.Done? {
      return Fails(extra), c;
    }
    res, c := ReadDistance(r, k, LengthBase(l) + extra.value, chunks, c, u);
  }

  /** LEN: a literal, the end of the block, or a match. */
  method ReadItem(r: BitReader, k: Decoder, chunks: seq<seq<byte>>, c0: nat, ghost u: Codes)
    returns (res: Reading<Item>, c: nat)
    requires Steady(r) && Decoding(k, u) && c0 <= |chunks|
    modifies r
    ensures Steady(r) && c0 <= c <= |chunks| && BothFit(u)
    ensures Tells(ItemAt(u, old(Ahead(r, chunks, c0))), res, Ahead(r, chunks, c))
  {
    hide OneDecodes, WordAt, MatchAt, Ahead, Lengths15, Readable, Pow2;
    DecodingFits(k, u);
    var sym;
    sym, c := AwaitSymbol(r, k.ltable, k.lroot, chunks, c0, LengthCode, u.lens);
    if !sym.Done? {
      return Fails(sym), c;
    }
    if sym.value < 256 {
      return Done(Tok(Literal(sym.value))), c;
    }
    if sym.value == 256 {
      return Done(End), c;
    }
    if sym.value >= 286 {
      return Failed(LengthCode), c;
    }
    res, c := ReadMatch(r, k, sym.value - 257, chunks, c, u);
  }

  /** A whole block body, from input cut anywhere. */
  method ReadBody(r: BitReader, k: Decoder, chunks: seq<seq<byte>>, c0: nat, ghost u: Codes)
    returns (res: Reading<seq<Token>>, c: nat)
    requires Steady(r) && Decoding(k, u) && c0 <= |chunks|
    modifies r
    ensures Steady(r) && c0 <= c <= |chunks| && BothFit(u)
    ensures Tells(BodyAt(u, old(Ahead(r, chunks, c0))), res, Ahead(r, chunks, c))
  {
    hide Decoding, BothFit, BothReadable, BodyAt, ItemAt, Ahead, Joined, Pow2;
    DecodingFits(k, u);
    c := c0;
    var tokens, open := [], true;
    ghost var all := BodyAt(u, Ahead(r, chunks, c0));
    JoinedNone(all);
    while open
      invariant Steady(r) && c0 <= c <= |chunks|
      invariant open ==> Joined(tokens, BodyAt(u, Ahead(r, chunks, c))) == all
      invariant !open ==> all == Got(tokens, Ahead(r, chunks, c))
      decreases |Ahead(r, chunks, c)|, open
    {
      ghost var before := Ahead(r, chunks, c);
      var item;
      item, c := ReadItem(r, k, chunks, c, u);
      BodyStep(u, tokens, before);
      if !item.Done? {
        return Fails(item), c;
      }
      if item.value.End? {
        open := false;
      } else {
        tokens := tokens + [item.value.token];
      }
    }
    res := Done(tokens);
  }

  lemma JoinedNone(p: Parse<seq<Token>>)
    ensures Joined([], p) == p
  {
    if p.Got? {
      assert [] + p.value == p.value;
    }
  }

  lemma BodyStep(u: Codes, tokens: seq<Token>, bits: seq<bool>)
    requires BothFit(u)
    ensures var p := ItemAt(u, bits); var whole := Joined(tokens, BodyAt(u, bits));
            && (!p.Got? ==> Said(whole) == Fails(Said(p)))
            && (p.Got? && p.value.End? ==> whole == Got(tokens, p.rest))
            && (p.Got? && p.value.Tok? ==> whole == Joined(tokens + [p.value.token], BodyAt(u, p.rest)))
            && (p.Got? ==> |p.rest| < |bits|)
  {
    hide ItemAt;
    var p := ItemAt(u, bits);
    if p.Got? {
      if p.value.End? {
        assert tokens + [] == tokens;
      } else {
        var q := BodyAt(u, p.rest);
        if q.Got? {
          assert tokens + ([p.value.token] + q.value) == (tokens + [p.value.token]) + q.value;
        }
      }
    }
  }
}

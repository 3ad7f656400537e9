/** Lengths and distances as codes with extra bits: section 3.2.5 of RFC 1951. */
module LengthCodes {
  import opened BitStrings

  /** The deflater's extra bits. */
  const EXTRA_LBITS: seq<nat> := [0, 0, 0, 0, 0, 0, 0, 0, 1, 1, 1, 1, 2, 2, 2, 2, 3, 3, 3, 3, 4, 4, 4, 4, 5, 5, 5, 5, 0]
  const EXTRA_DBITS: seq<nat> :=
    [0, 0, 0, 0, 1, 1, 2, 2, 3, 3, 4, 4, 5, 5, 6, 6, 7, 7, 8, 8, 9, 9, 10, 10, 11, 11, 12, 12, 13, 13]

  /** The inflater's base values; its extra bits are the deflater's. */
  const LBASE: seq<nat> :=
    [3, 4, 5, 6, 7, 8, 9, 10, 11, 13, 15, 17, 19, 23, 27, 31, 35, 43, 51, 59, 67, 83, 99, 115, 131, 163, 195, 227, 258]
  const DBASE: seq<nat> :=
    [1, 2, 3, 4, 5, 7, 9, 13, 17, 25, 33, 49, 65, 97, 129, 193, 257, 385, 513, 769, 1025, 1537, 2049, 3073, 4097,
     6145, 8193,
     12289, 16385, 24577]

  lemma Sizes()
    ensures |EXTRA_LBITS| == 29 == |LBASE| && |EXTRA_DBITS| == 30 == |DBASE|
    ensures forall k | 0 <= k < 29 :: EXTRA_LBITS[k] <= 5
    ensures forall k | 0 <= k < 30 :: EXTRA_DBITS[k] <= 13
  {
  }

  /** The values before code `n`, when each code takes as many as its extra bits can tell apart. */
  function Before(extra: seq<nat>, n: nat): nat
    requires n <= |extra|
    decreases n, extra
  {
    if n == 0 then 0 else Before(extra, n - 1) + Pow2(extra[n - 1])
  }

  lemma SmallPowers()
    ensures Pow2(0) == 1 && Pow2(1) == 2 && Pow2(2) == 4 && Pow2(3) == 8 && Pow2(4) == 16 && Pow2(5) == 32
            && Pow2(6) == 64
    ensures Pow2(7) == 128 && Pow2(8) == 256 && Pow2(9) == 512 && Pow2(10) == 1024 && Pow2(11) == 2048
            && Pow2(12) == 4096
    ensures Pow2(13) == 8192
  {
  }

  lemma LengthSteps(k: nat)
    requires k < 27
    ensures |EXTRA_LBITS| == 29 == |LBASE| && LBASE[k + 1] == LBASE[k] + Pow2(EXTRA_LBITS[k])
  {
    hide Pow2;
    SmallPowers();
  }

  lemma DistanceSteps(k: nat)
    requires k < 29
    ensures |EXTRA_DBITS| == 30 == |DBASE| && DBASE[k + 1] == DBASE[k] + Pow2(EXTRA_DBITS[k])
  {
    hide Pow2;
    SmallPowers();
  }

  lemma {:induction false} BasesUpTo(extra: seq<nat>, base: seq<nat>, n: nat, first: nat)
    requires n <= |extra| && n <= |base| && 0 < n && base[0] == first
             && forall k | 0 <= k < n - 1 :: base[k + 1] == base[k] + Pow2(extra[k])
    ensures forall k | 0 <= k < n :: base[k] == first + Before(extra, k)
    ensures Before(extra, n) == base[n - 1] - first + Pow2(extra[n - 1])
    decreases n
  {
    if n > 1 {
      BasesUpTo(extra, base, n - 1, first);
    }
  }

  /** The inflater's bases are where the deflater's codes start. */
  lemma LengthBases()
    ensures |EXTRA_LBITS| == 29 == |LBASE| && forall k | 0 <= k < 28 :: LBASE[k] == 3 + Before(EXTRA_LBITS, k)
    ensures Before(EXTRA_LBITS, 28) == 256
  {
    hide Pow2, Before;
    Sizes();
    SmallPowers();
    forall k | 0 <= k < 27 ensures LBASE[k + 1] == LBASE[k] + Pow2(EXTRA_LBITS[k]) {
      LengthSteps(k);
    }
    BasesUpTo(EXTRA_LBITS, LBASE, 28, 3);
  }

  lemma DistanceBases()
    ensures |EXTRA_DBITS| == 30 == |DBASE| && forall k | 0 <= k < 30 :: DBASE[k] == 1 + Before(EXTRA_DBITS, k)
    ensures Before(EXTRA_DBITS, 16) == 256 && Before(EXTRA_DBITS, 30) == 32768
  {
    hide Pow2, Before;
    Sizes();
    SmallPowers();
    forall k | 0 <= k < 29 ensures DBASE[k + 1] == DBASE[k] + Pow2(EXTRA_DBITS[k]) {
      DistanceSteps(k);
    }
    BasesUpTo(EXTRA_DBITS, DBASE, 30, 1);
    assert DBASE[16] == 257;
  }

  // The deflater's tables, as `tr_static_init` fills them

  /** Code `c` covers the value `v`. */
  predicate Covers(extra: seq<nat>, c: nat, v: nat) {
    c < |extra| && Before(extra, c) <= v < Before(extra, c + 1)
  }

  ghost predicate AllCovered(extra: seq<nat>, code: seq<nat>, n: nat) {
    forall v {:trigger code[v]} | 0 <= v < |code| :: code[v] < n && Covers(extra, code[v], v)
  }

  lemma BeforeNext(extra: seq<nat>, c: nat)
    requires c < |extra|
    ensures Before(extra, c + 1) == Before(extra, c) + Pow2(extra[c]) && Before(extra, 0) == 0
  {
  }

  lemma CoversNext(extra: seq<nat>, c: nat, e: nat)
    requires c < |extra| && e < Pow2(extra[c])
    ensures Covers(extra, c, Before(extra, c) + e)
  {
  }

  /** One entry for each value of code `c`. */
  method SpreadOne(extra: seq<nat>, n: nat, code0: seq<nat>, c: nat) returns (code: seq<nat>)
    requires c < n <= |extra| && |code0| == Before(extra, c) && AllCovered(extra, code0, n)
    ensures |code| == Before(extra, c + 1) && AllCovered(extra, code, n)
  {
    hide Pow2, Covers, Before;
    BeforeNext(extra, c);
    code := code0;
    for e := 0 to Pow2(extra[c])
      invariant |code| == Before(extra, c) + e && AllCovered(extra, code, n)
    {
      CoversNext(extra, c, e);
      code := code + [c];
    }
  }

  /** One entry for each value of the codes below `n`. */
  method Spread(extra: seq<nat>, n: nat) returns (code: seq<nat>, base: seq<nat>)
    requires n <= |extra|
    ensures |code| == Before(extra, n) && |base| == n && forall c | 0 <= c < n :: base[c] == Before(extra, c)
    ensures AllCovered(extra, code, n)
  {
    hide Pow2, Covers;
    code, base := [], [];
    for c := 0 to n
      invariant |base| == c && forall k | 0 <= k < c :: base[k] == Before(extra, k)
      invariant |code| == Before(extra, c) && AllCovered(extra, code, n)
    {
      base := base + [|code|];
      code := SpreadOne(extra, n, code, c);
    }
  }

  /** The codes of the lengths less three, 258 with a code of its own. */
  method LengthTables() returns (code: seq<nat>, base: seq<nat>)
    ensures |code| == 256 && |base| == 29 && |EXTRA_LBITS| == 29
    ensures forall c | 0 <= c < 28 :: base[c] == Before(EXTRA_LBITS, c)
    ensures code[255] == 28
    ensures forall v {:trigger code[v]} | 0 <= v < 255 :: code[v] < 28 && Covers(EXTRA_LBITS, code[v], v)
  {
    hide Pow2, Covers, Before;
    LengthBases();
    code, base := Spread(EXTRA_LBITS, 28);
    code := code[255 := 28];
    base := base + [0];
  }

  /** In the second half of the distance table an entry stands for 128 distances. */
  predicate CoversFar(extra: seq<nat>, c: nat, i: nat) {
    c < |extra| && Before(extra, c) <= 128 * i && 128 * i + 128 <= Before(extra, c + 1)
  }

  ghost predicate FarCovered(extra: seq<nat>, far: seq<nat>) {
    forall i {:trigger far[i]} | 2 <= i < |far| :: CoversFar(extra, far[i], i)
  }

  lemma {:induction false} PowerIn128s(n: nat)
    requires n >= 7
    ensures Pow2(n) == 128 * Pow2(n - 7)
    decreases n
  {
    if n > 7 {
      PowerIn128s(n - 1);
    } else {
      SmallPowers();
    }
  }

  lemma FarNext(extra: seq<nat>, c: nat, i: nat, e: nat)
    requires c < |extra| && extra[c] >= 7 && e < Pow2(extra[c] - 7) && 128 * i == Before(extra, c) + 128 * e
    ensures CoversFar(extra, c, i)
  {
    PowerIn128s(extra[c]);
  }

  /** One entry for each 128 values of code `c`. */
  method SpreadFar(extra: seq<nat>, far0: seq<nat>, c: nat) returns (far: seq<nat>)
    requires c < |extra| && extra[c] >= 7 && 2 <= |far0| && 128 * |far0| == Before(extra, c) && FarCovered(extra, far0)
    ensures 2 <= |far| && 128 * |far| == Before(extra, c + 1) && FarCovered(extra, far)
  {
    hide Pow2, CoversFar, Before;
    BeforeNext(extra, c);
    PowerIn128s(extra[c]);
    far := far0;
    for e := 0 to Pow2(extra[c] - 7)
      invariant 2 <= |far| && 128 * |far| == Before(extra, c) + 128 * e && FarCovered(extra, far)
    {
      FarNext(extra, c, |far|, e);
      far := far + [c];
    }
  }

  /** The codes of the distances less one. */
  method Distances(extra: seq<nat>) returns (code: seq<nat>, base: seq<nat>)
    requires |extra| == 30 && Before(extra, 16) == 256 && Before(extra, 30) == 32768
             && forall c | 16 <= c < 30 :: extra[c] >= 7
    ensures |code| == 512 && |base| == 30 && forall c | 0 <= c < 30 :: base[c] == Before(extra, c)
    ensures forall d | 0 <= d < 32768 :: Covers(extra, DCode(code, d), d)
  {
    hide Pow2, Covers, CoversFar, Before;
    var near, far;
    near, base := Spread(extra, 16);
    far := [0, 0];
    for c := 16 to 30
      invariant |base| == c && forall k | 0 <= k < c :: base[k] == Before(extra, k)
      invariant 2 <= |far| && 128 * |far| == Before(extra, c) && FarCovered(extra, far)
    {
      base := base + [128 * |far|];
      far := SpreadFar(extra, far, c);
    }
    code := near + far;
    forall d | 0 <= d < 32768 ensures Covers(extra, DCode(code, d), d) {
      DCodeCovers(extra, near, far, d);
    }
  }

  method DistanceTables() returns (code: seq<nat>, base: seq<nat>)
    ensures |code| == 512 && |base| == 30 == |EXTRA_DBITS|
            && forall c | 0 <= c < 30 :: base[c] == Before(EXTRA_DBITS, c)
    ensures forall d | 0 <= d < 32768 :: Covers(EXTRA_DBITS, DCode(code, d), d)
  {
    hide Before, Covers, DCode;
    DistanceBases();
    code, base := Distances(EXTRA_DBITS);
  }

  /** `d_code`. */
  function DCode(code: seq<nat>, d: nat): nat
    requires |code| == 512 && d < 32768
  {
    if d < 256 then code[d] else code[256 + d / 128]
  }

  lemma DCodeCovers(extra: seq<nat>, near: seq<nat>, far: seq<nat>, d: nat)
    requires |near| == 256 == |far| && AllCovered(extra, near, 16) && FarCovered(extra, far) && d < 32768
    ensures Covers(extra, DCode(near + far, d), d)
  {
    hide Before, Pow2;
    if d < 256 {
      assert near[d] < 16;
    } else {
      assert CoversFar(extra, far[d / 128], d / 128);
    }
  }
}

/** The body of a compressed block: its tokens taken apart into symbols and extra bits, counted by
    `_tr_tally` and sent by `compress_block`. */
module BlockBody {
  import opened Bytes
  import opened BitStrings
  import opened BitStream
  import opened CanonicalCodes
  import opened InflateTable
  import opened HuffmanStream
  import opened LengthCodes
  import opened Lz77
  import opened Sequences

  const END_BLOCK: nat := 256

  /** A token taken apart into symbols and extra bits. */
  datatype Coded = CLiteral(b: byte) | CMatch(lcode: nat, lextra: nat, dcode: nat, dextra: nat)

  predicate Sound(c: Coded) {
    Sizes();
    c.CMatch? ==>
      && c.lcode < 29 && c.lextra < Pow2(EXTRA_LBITS[c.lcode])
      && c.dcode < 30 && c.dextra < Pow2(EXTRA_DBITS[c.dcode])
  }

  /** What the inflater makes of it. */
  function Meaning(c: Coded): Token
    requires Sound(c)
  {
    Sizes();
    match c
    case CLiteral(b) => Literal(b)
    case CMatch(l, le, d, de) => Match(LBASE[l] + le, DBASE[d] + de)
  }

  /** A token of the deflater: a byte, or 3 to 258 bytes from 1 to 32768 back. */
  predicate Tallied(t: Token) {
    t.Literal? || (t.Match? && 3 <= t.length <= 258 && 1 <= t.offset <= 32768)
  }

  lemma LengthMeant(v: nat, c: nat)
    requires v < 256 && |EXTRA_LBITS| == 29 == |LBASE|
    requires if v == 255 then c == 28 else c < 28 && Covers(EXTRA_LBITS, c, v)
    ensures c < 29 && (c == 28 ==> LBASE[c] == v + 3)
    ensures c < 28 ==>
              Before(EXTRA_LBITS, c) <= v && v - Before(EXTRA_LBITS, c) < Pow2(EXTRA_LBITS[c])
              && LBASE[c] + (v - Before(EXTRA_LBITS, c)) == v + 3
  {
    hide Before, Pow2;
    LengthBases();
    if c < 28 {
      BeforeNext(EXTRA_LBITS, c);
    }
  }

  lemma DistanceMeant(v: nat, c: nat)
    requires |EXTRA_DBITS| == 30 == |DBASE| && Covers(EXTRA_DBITS, c, v)
    ensures c < 30 && Before(EXTRA_DBITS, c) <= v && v - Before(EXTRA_DBITS, c) < Pow2(EXTRA_DBITS[c])
    ensures DBASE[c] + (v - Before(EXTRA_DBITS, c)) == v + 1
  {
    hide Before, Pow2;
    DistanceBases();
    BeforeNext(EXTRA_DBITS, c);
  }

  /** The static tables of the deflater. */
  datatype Tables = Tables(lcode: seq<nat>, lbase: seq<nat>, dcode: seq<nat>, dbase: seq<nat>)

  ghost predicate Filled(t: Tables) {
    && |EXTRA_LBITS| == 29 == |LBASE| && |EXTRA_DBITS| == 30 == |DBASE|
    && |t.lcode| == 256 && |t.lbase| == 29 && |t.dcode| == 512 && |t.dbase| == 30
    && (forall c | 0 <= c < 28 :: t.lbase[c] == Before(EXTRA_LBITS, c))
    && (forall c | 0 <= c < 30 :: t.dbase[c] == Before(EXTRA_DBITS, c))
    && t.lcode[255] == 28
    && (forall v {:trigger t.lcode[v]} | 0 <= v < 255 :: t.lcode[v] < 28 && Covers(EXTRA_LBITS, t.lcode[v], v))
    && forall d | 0 <= d < 32768 :: Covers(EXTRA_DBITS, DCode(t.dcode, d), d)
  }

  /** `tr_static_init`, as far as lengths and distances go. */
  method StaticInit() returns (t: Tables)
    ensures Filled(t)
  {
    hide Covers, Before, DCode;
    Sizes();
    var lcode, lbase := LengthTables();
    var dcode, dbase := DistanceTables();
    t := Tables(lcode, lbase, dcode, dbase);
  }

  /** The symbols and extra bits of a token, as `compress_block` works them out. */
  function CodeToken(t: Tables, token: Token): Coded
    requires Filled(t) && Tallied(token)
  {
    match token
    case Literal(b) => CLiteral(b)
    case Match(length, offset) =>
      var lc, dist := length - 3, offset - 1;
      var l, d := t.lcode[lc], DCode(t.dcode, dist);
      LengthMeant(lc, l);
      DistanceMeant(dist, d);
      CMatch(l, if EXTRA_LBITS[l] != 0 then lc - t.lbase[l] else 0, d,
             if EXTRA_DBITS[d] != 0 then dist - t.dbase[d] else 0)
  }

  /** The inflater gets back the length and the distance. */
  lemma CodeTokenMeans(t: Tables, token: Token)
    requires Filled(t) && Tallied(token)
    ensures Sound(CodeToken(t, token)) && Meaning(CodeToken(t, token)) == token
  {
    hide Covers, Before, DCode, Pow2;
    if token.Match? {
      var lc, dist := token.length - 3, token.offset - 1;
      LengthMeant(lc, t.lcode[lc]);
      DistanceMeant(dist, DCode(t.dcode, dist));
      LastHasNone();
    }
  }

  lemma LastHasNone()
    ensures |EXTRA_LBITS| == 29 && EXTRA_LBITS[28] == 0 && Pow2(0) == 1
  {
  }

  // The bits of a block

  /** The code lengths of the two codes. */
  datatype Codes = Codes(lens: seq<nat>, dists: seq<nat>)

  ghost predicate TwoCodes(u: Codes) { Lengths15(u.lens) && Lengths15(u.dists) && InUse(u.lens, END_BLOCK) }

  function LitSym(c: Coded): nat { if c.CLiteral? then c.b else 257 + c.lcode }

  /** The symbols of the token have codes. */
  ghost predicate HasCodes(u: Codes, c: Coded) {
    Sound(c) && InUse(u.lens, LitSym(c)) && (c.CMatch? ==> InUse(u.dists, c.dcode))
  }

  ghost function DistBits(u: Codes, c: Coded): seq<bool>
    requires TwoCodes(u) && HasCodes(u, c) && c.CMatch?
  {
    Sizes();
    Spelled(u.dists, c.dcode) + BitsOf(c.dextra, EXTRA_DBITS[c.dcode])
  }

  ghost function CodedBits(u: Codes, c: Coded): seq<bool>
    requires TwoCodes(u) && HasCodes(u, c)
  {
    Sizes();
    if c.CLiteral? then Spelled(u.lens, LitSym(c))
    else Spelled(u.lens, LitSym(c)) + (BitsOf(c.lextra, EXTRA_LBITS[c.lcode]) + DistBits(u, c))
  }

  ghost predicate AllHaveCodes(u: Codes, cs: seq<Coded>) { forall i | 0 <= i < |cs| :: HasCodes(u, cs[i]) }

  ghost function BodyBits(u: Codes, cs: seq<Coded>): seq<bool>
    requires TwoCodes(u) && AllHaveCodes(u, cs)
  {
    if cs == [] then Spelled(u.lens, END_BLOCK) else CodedBits(u, cs[0]) + BodyBits(u, cs[1..])
  }

  // Sending

  /** `send_code`. */
  method SendCode(w: BitWriter, tree: seq<Cell>, o: nat, ghost lens: seq<nat>)
    requires w.Valid() && CodedTree(tree, lens) && InUse(lens, o)
    modifies w
    ensures w.Valid() && w.Sent() == old(w.Sent()) + Spelled(lens, o)
  {
    w.SendBits(tree[o].fc, tree[o].dl);
  }

  /** Extra bits, if there are any. */
  method SendExtra(w: BitWriter, v: nat, n: nat)
    requires w.Valid() && v < Pow2(n) && n <= 16
    modifies w
    ensures w.Valid() && w.Sent() == old(w.Sent()) + BitsOf(v, n)
  {
    if n != 0 {
      w.SendBits(v, n);
    }
  }

  method SendCoded(w: BitWriter, tree: seq<Cell>, dtree: seq<Cell>, c: Coded, ghost u: Codes)
    requires w.Valid() && TwoCodes(u) && CodedTree(tree, u.lens) && CodedTree(dtree, u.dists) && HasCodes(u, c)
    modifies w
    ensures w.Valid() && w.Sent() == old(w.Sent()) + CodedBits(u, c)
  {
    hide CodedTree, Spelled, BitsOf, Pow2, AllBits, Lengths15;
    Sizes();
    SendCode(w, tree, LitSym(c), u.lens);
    if c.CMatch? {
      ghost var start, l := old(w.Sent()), Spelled(u.lens, LitSym(c));
      ghost var le, d := BitsOf(c.lextra, EXTRA_LBITS[c.lcode]), Spelled(u.dists, c.dcode);
      ghost var de := BitsOf(c.dextra, EXTRA_DBITS[c.dcode]);
      SendExtra(w, c.lextra, EXTRA_LBITS[c.lcode]);
      SendCode(w, dtree, c.dcode, u.dists);
      SendExtra(w, c.dextra, EXTRA_DBITS[c.dcode]);
      Regroup4(start, l, le, d, de);
    }
  }

  /** The tokens a list of coded tokens stands for. */
  function Meanings(cs: seq<Coded>): seq<Token>
    requires forall i | 0 <= i < |cs| :: Sound(cs[i])
  {
    seq(|cs|, i requires 0 <= i < |cs| => Meaning(cs[i]))
  }

  /** The tokens of a block as `compress_block` codes them. */
  ghost function AllCoded(t: Tables, tokens: seq<Token>): (cs: seq<Coded>)
    requires Filled(t) && forall i | 0 <= i < |tokens| :: Tallied(tokens[i])
    ensures |cs| == |tokens|
  {
    seq(|tokens|, i requires 0 <= i < |tokens| => CodeToken(t, tokens[i]))
  }

  lemma AllCodedMean(t: Tables, tokens: seq<Token>)
    requires Filled(t) && forall i | 0 <= i < |tokens| :: Tallied(tokens[i])
    ensures var cs := AllCoded(t, tokens); (forall i | 0 <= i < |cs| :: Sound(cs[i])) && Meanings(cs) == tokens
  {
    hide Filled, CodeToken, Sound, Meaning;
    forall i | 0 <= i < |tokens| ensures Sound(AllCoded(t, tokens)[i]) && Meaning(AllCoded(t, tokens)[i]) == tokens[i] {
      CodeTokenMeans(t, tokens[i]);
    }
  }

  /** `compress_block`: the tokens, then the end of the block. */
  method SendBody(w: BitWriter, t: Tables, tree: seq<Cell>, dtree: seq<Cell>, tokens: seq<Token>, ghost u: Codes)
    requires w.Valid() && Filled(t) && TwoCodes(u) && CodedTree(tree, u.lens) && CodedTree(dtree, u.dists)
    requires (forall i | 0 <= i < |tokens| :: Tallied(tokens[i])) && AllHaveCodes(u, AllCoded(t, tokens))
    modifies w
    ensures w.Valid() && w.Sent() == old(w.Sent()) + BodyBits(u, AllCoded(t, tokens))
  {
    hide Filled, CodedTree, Spelled, CodedBits, HasCodes, CodeToken, TwoCodes;
    ghost var cs := AllCoded(t, tokens);
    assert cs[0..] == cs;
    for i := 0 to |tokens|
      invariant w.Valid() && AllHaveCodes(u, cs[i..])
                && w.Sent() + BodyBits(u, cs[i..]) == old(w.Sent()) + BodyBits(u, cs)
    {
      var c := CodeToken(t, tokens[i]);
      assert cs[i..][0] == c && cs[i..][1..] == cs[i + 1..];
      ghost var before := w.Sent();
      SendCoded(w, tree, dtree, c, u);
      assert (before + CodedBits(u, c)) + BodyBits(u, cs[i + 1..])
          == before + (CodedBits(u, c) + BodyBits(u, cs[i + 1..]));
    }
    EndInUse(u);
    SendCode(w, tree, END_BLOCK, u.lens);
  }

  lemma EndInUse(u: Codes)
    requires TwoCodes(u)
    ensures InUse(u.lens, END_BLOCK)
  {
  }

  // Counting

  const L_CODES := 286
  const D_CODES := 30

  /** How often a symbol of the first code is needed, the end of the block included. */
  ghost function LitUses(cs: seq<Coded>, o: nat): nat {
    if cs == [] then (if o == END_BLOCK then 1 else 0)
    else LitUses(cs[..|cs| - 1], o) + if LitSym(cs[|cs| - 1]) == o then 1 else 0
  }

  /** How often a symbol of the second code is needed. */
  ghost function DistUses(cs: seq<Coded>, o: nat): nat {
    if cs == [] then 0
    else DistUses(cs[..|cs| - 1], o) + if cs[|cs| - 1].CMatch? && cs[|cs| - 1].dcode == o then 1 else 0
  }

  lemma {:induction false} UsedIsCounted(cs: seq<Coded>, i: nat)
    requires i < |cs|
    ensures 0 < LitUses(cs, LitSym(cs[i])) && (cs[i].CMatch? ==> 0 < DistUses(cs, cs[i].dcode))
    decreases |cs|
  {
    if i < |cs| - 1 {
      UsedIsCounted(cs[..|cs| - 1], i);
    }
  }

  lemma {:induction false} EndIsCounted(cs: seq<Coded>)
    ensures 0 < LitUses(cs, END_BLOCK)
    decreases |cs|
  {
    if cs != [] {
      EndIsCounted(cs[..|cs| - 1]);
    }
  }

  ghost predicate CountsUses(cells: seq<Cell>, dcells: seq<Cell>, cs: seq<Coded>) {
    && L_CODES <= |cells| && D_CODES <= |dcells|
    && (forall o | 0 <= o < L_CODES :: cells[o].fc == LitUses(cs, o))
    && forall o | 0 <= o < D_CODES :: dcells[o].fc == DistUses(cs, o)
  }

  /** `init_block`: nothing is counted but the end of the block. */
  method InitBlock(tree: array<Cell>, dtree: array<Cell>)
    requires L_CODES <= tree.Length && D_CODES <= dtree.Length && tree != dtree
    modifies tree, dtree
    ensures CountsUses(tree[..], dtree[..], [])
  {
    for n := 0 to L_CODES
      invariant forall o | 0 <= o < n :: tree[o].fc == 0
    {
      tree[n] := tree[n].(fc := 0);
    }
    for n := 0 to D_CODES
      invariant forall o | 0 <= o < L_CODES :: tree[o].fc == 0
      invariant forall o | 0 <= o < n :: dtree[o].fc == 0
    {
      dtree[n] := dtree[n].(fc := 0);
    }
    tree[END_BLOCK] := tree[END_BLOCK].(fc := 1);
  }

  /** One token counted, as `_tr_tally` does. */
  method TallyOne(t: Tables, token: Token, tree: array<Cell>, dtree: array<Cell>, ghost cs: seq<Coded>)
    requires tree != dtree && CountsUses(tree[..], dtree[..], cs) && Filled(t) && Tallied(token)
    modifies tree, dtree
    ensures CountsUses(tree[..], dtree[..], cs + [CodeToken(t, token)])
  {
    hide Filled, CodeToken, Meaning, DCode, Pow2;
    var c := CodeToken(t, token);
    CodeTokenMeans(t, token);
    SymbolBounds(c);
    assert (cs + [c])[..|cs|] == cs;
    tree[LitSym(c)] := tree[LitSym(c)].(fc := tree[LitSym(c)].fc + 1);
    if c.CMatch? {
      dtree[c.dcode] := dtree[c.dcode].(fc := dtree[c.dcode].fc + 1);
    }
  }

  lemma SymbolBounds(c: Coded)
    requires Sound(c)
    ensures LitSym(c) < L_CODES && (c.CMatch? ==> c.dcode < D_CODES)
  {
    Sizes();
  }

  method Tally(t: Tables, tokens: seq<Token>, tree: array<Cell>, dtree: array<Cell>)
    requires L_CODES <= tree.Length && D_CODES <= dtree.Length && tree != dtree
    requires Filled(t) && forall i | 0 <= i < |tokens| :: Tallied(tokens[i])
    modifies tree, dtree
    ensures CountsUses(tree[..], dtree[..], AllCoded(t, tokens))
  {
    hide Filled, CodeToken, CountsUses;
    InitBlock(tree, dtree);
    ghost var cs := AllCoded(t, tokens);
    assert cs[..0] == [];
    for i := 0 to |tokens|
      invariant CountsUses(tree[..], dtree[..], cs[..i])
    {
      assert cs[..i] + [CodeToken(t, tokens[i])] == cs[..i + 1];
      TallyOne(t, tokens[i], tree, dtree, cs[..i]);
    }
    assert cs[..|tokens|] == cs;
  }
}

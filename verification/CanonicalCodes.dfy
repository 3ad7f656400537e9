/** Canonical Huffman codes: section 3.2.2 of RFC 1951, as `gen_codes` computes them. */
module CanonicalCodes {
  import opened BitStrings

  const MAX_BITS: nat := 15

  /** How many symbols have length `l`. */
  function Count(lens: seq<nat>, l: nat): nat {
    if lens == [] then 0
    else Count(lens[..|lens| - 1], l) + (if lens[|lens| - 1] == l then 1 else 0)
  }

  /** The Kraft sum of the counts up to length `l`, in units of 2^-l:
      counts[0] * 2^l + counts[1] * 2^(l - 1) + ... + counts[l]. */
  function Kraft(counts: seq<nat>, l: nat): nat
    requires l < |counts|
    decreases l, counts
  {
    if l == 0 then counts[0] else 2 * Kraft(counts, l - 1) + counts[l]
  }

  /** The first code of length `l`. */
  function First(counts: seq<nat>, l: nat): nat
    requires l < |counts|
  {
    if l == 0 then 0 else 2 * Kraft(counts, l - 1)
  }

  /** The code of symbol `o`, most significant bit first. */
  function CodeOf(counts: seq<nat>, lens: seq<nat>, o: nat): nat
    requires o < |lens| && lens[o] < |counts|
  {
    First(counts, lens[o]) + Count(lens[..o], lens[o])
  }

  function Rev<T>(s: seq<T>): (r: seq<T>)
    ensures |r| == |s|
  {
    if s == [] then [] else Rev(s[1..]) + [s[0]]
  }

  /** The code word as it appears in the stream. */
  function CodeWord(code: nat, len: nat): seq<bool> {
    Rev(BitsOf(code, len))
  }

  // Bit reversal

  function Reversed(e: nat, n: nat, acc: nat): nat
    decreases n, e, acc
  {
    if n == 0 then acc else Reversed(e / 2, n - 1, 2 * acc + e % 2)
  }

  lemma {:induction false} ReversedBits(e: nat, n: nat, acc: nat, m: nat)
    ensures BitsOf(Reversed(e, n, acc), n + m) == Rev(BitsOf(e, n)) + BitsOf(acc, m)
    decreases n
  {
    if n == 0 {
      assert Rev(BitsOf(e, 0)) + BitsOf(acc, m) == BitsOf(acc, m);
    } else {
      ReversedBits(e / 2, n - 1, 2 * acc + e % 2, m + 1);
      assert BitsOf(e, n)[1..] == BitsOf(e / 2, n - 1);
    }
  }

  lemma {:induction false} ReversedBound(e: nat, n: nat, acc: nat, m: nat)
    requires acc < Pow2(m)
    ensures Reversed(e, n, acc) < Pow2(n + m)
    decreases n
  {
    if n > 0 {
      ReversedBound(e / 2, n - 1, 2 * acc + e % 2, m + 1);
    }
  }

  /** Sending `r` in `len` bits sends the code word of `code`. */
  ghost predicate IsReverse(r: nat, code: nat, len: nat) {
    r < Pow2(len) && BitsOf(r, len) == CodeWord(code, len)
  }

  /** `bi_reverse`. */
  method BiReverse(code: nat, len: nat) returns (r: nat)
    requires 1 <= len
    ensures IsReverse(r, code, len)
  {
    var t, e, left := 0, code, len;
    ghost var acc := 0;
    while left > 0
      invariant t == 2 * acc
      invariant Reversed(e, left, acc) == Reversed(code, len, 0)
      decreases left
    {
      OrLowBit(acc, e % 2);
      acc := 2 * acc + e % 2;
      t := Or(t, e % 2);
      e, t, left := e / 2, 2 * t, left - 1;
    }
    r := t / 2;
    ReversedBound(code, len, 0, 0);
    ReversedBits(code, len, 0, 0);
  }

  // What the codes of a set of lengths promise

  /** `counts` are the numbers of symbols of each length, with no zero lengths counted. */
  ghost predicate Matches(counts: seq<nat>, lens: seq<nat>) {
    && |counts| == MAX_BITS + 1
    && counts[0] == 0
    && (forall l :: 1 <= l <= MAX_BITS ==> counts[l] == Count(lens, l))
    && forall o :: 0 <= o < |lens| ==> lens[o] <= MAX_BITS
  }

  lemma {:induction false} CountSplits(a: seq<nat>, b: seq<nat>, l: nat)
    ensures Count(a + b, l) == Count(a, l) + Count(b, l)
    decreases |b|
  {
    if b == [] {
      assert a + b == a;
    } else {
      var n := |b| - 1;
      assert (a + b)[..|a + b| - 1] == a + b[..n];
      CountSplits(a, b[..n], l);
    }
  }

  /** A symbol's rank among those of its length is below their number, and ranks rise. */
  lemma RankRises(lens: seq<nat>, o: nat, q: nat)
    requires o < q <= |lens|
    ensures Count(lens[..o], lens[o]) < Count(lens[..q], lens[o])
  {
    var l := lens[o];
    CountSplits(lens[..o + 1], lens[o + 1..q], l);
    assert lens[..q] == lens[..o + 1] + lens[o + 1..q];
    assert lens[..o + 1][..o] == lens[..o];
  }

  lemma {:induction false} NoSymbol(lens: seq<nat>, l: nat)
    requires forall o | 0 <= o < |lens| :: lens[o] != l
    ensures Count(lens, l) == 0
  {
    if lens != [] {
      NoSymbol(lens[..|lens| - 1], l);
    }
  }

  /** Codes of one length rise with the symbol, by one from each symbol to the next. */
  lemma CodesRise(counts: seq<nat>, lens: seq<nat>, o: nat, q: nat)
    requires |counts| == MAX_BITS + 1 && o < q < |lens| && lens[o] == lens[q] <= MAX_BITS
    ensures CodeOf(counts, lens, o) < CodeOf(counts, lens, q)
    ensures CodeOf(counts, lens, q) == CodeOf(counts, lens, o) + 1 <==> forall p | o < p < q :: lens[p] != lens[o]
  {
    var l, between := lens[o], lens[o + 1..q];
    assert lens[..q] == lens[..o + 1] + between && lens[..o + 1][..o] == lens[..o];
    CountSplits(lens[..o + 1], between, l);
    if p :| o < p < q && lens[p] == l {
      assert between[p - o - 1] == l;
      RankRises(between, p - o - 1, |between|);
      assert between[..|between|] == between;
    } else {
      NoSymbol(between, l);
    }
  }

  /** The codes of length `l` lie in [First, Kraft). */
  lemma CodeInRange(counts: seq<nat>, lens: seq<nat>, o: nat)
    requires Matches(counts, lens) && o < |lens| && lens[o] != 0
    ensures First(counts, lens[o]) <= CodeOf(counts, lens, o) < Kraft(counts, lens[o])
  {
    RankRises(lens, o, |lens|);
    assert lens[..|lens|] == lens;
  }

  lemma {:induction false} KraftGrows(counts: seq<nat>, l: nat, m: nat)
    requires l <= m < |counts|
    ensures Shl(Kraft(counts, l), m - l) <= Kraft(counts, m)
    ensures l < m ==> Shl(Kraft(counts, l), m - l) <= First(counts, m)
    decreases m
  {
    if l < m {
      KraftGrows(counts, l, m - 1);
    }
  }

  lemma {:induction false} KraftFits(counts: seq<nat>, l: nat, m: nat)
    requires l <= m < |counts| && Kraft(counts, m) <= Pow2(m)
    ensures Kraft(counts, l) <= Pow2(l)
    decreases m
  {
    if l < m {
      KraftFits(counts, l, m - 1);
    }
  }

  lemma {:induction false} ShrOfShl(x: nat, v: nat, d: nat)
    requires Shl(x, d) <= v
    ensures x <= Shr(v, d)
    decreases d
  {
    if d > 0 {
      ShrOfShl(x, v / 2, d - 1);
    }
  }

  lemma {:induction false} RevAppends<T>(a: seq<T>, b: seq<T>)
    ensures Rev(a + b) == Rev(b) + Rev(a)
    decreases |a|
  {
    if a == [] {
      assert a + b == b;
    } else {
      assert (a + b)[1..] == a[1..] + b;
      RevAppends(a[1..], b);
    }
  }

  lemma {:induction false} RevTwice<T>(s: seq<T>)
    ensures Rev(Rev(s)) == s
  {
    if s != [] {
      RevTwice(s[1..]);
      RevAppends(Rev(s[1..]), [s[0]]);
      assert Rev([s[0]]) == [s[0]];
    }
  }

  /** The first `f` bits of a longer code word are the code word of its leading part. */
  lemma CodeWordPrefix(code: nat, f: nat, len: nat)
    requires f <= len
    ensures CodeWord(code, len)[..f] == CodeWord(Shr(code, len - f), f)
  {
    BitsSplit(code, len - f, f);
    RevAppends(BitsOf(code, len - f), BitsOf(Shr(code, len - f), f));
  }

  lemma CodeWordInjective(a: nat, b: nat, f: nat)
    requires a < Pow2(f) && b < Pow2(f) && CodeWord(a, f) == CodeWord(b, f)
    ensures a == b
  {
    RevTwice(BitsOf(a, f));
    RevTwice(BitsOf(b, f));
    ValueOfBits(a, f);
    ValueOfBits(b, f);
  }

  /** Every code fits its length. */
  lemma CodeFits(counts: seq<nat>, lens: seq<nat>, o: nat)
    requires Matches(counts, lens) && Kraft(counts, MAX_BITS) <= Pow2(MAX_BITS)
    requires o < |lens| && lens[o] != 0
    ensures CodeOf(counts, lens, o) < Pow2(lens[o])
  {
    CodeInRange(counts, lens, o);
    KraftFits(counts, lens[o], MAX_BITS);
  }

  /** A code lies before the leading part of every longer code. */
  lemma ShorterIsLess(counts: seq<nat>, lens: seq<nat>, o: nat, q: nat)
    requires Matches(counts, lens)
    requires o < |lens| && q < |lens| && 0 < lens[o] < lens[q]
    ensures CodeOf(counts, lens, o) < Shr(CodeOf(counts, lens, q), lens[q] - lens[o])
  {
    CodeInRange(counts, lens, o);
    CodeInRange(counts, lens, q);
    KraftGrows(counts, lens[o], lens[q]);
    ShrOfShl(Kraft(counts, lens[o]), CodeOf(counts, lens, q), lens[q] - lens[o]);
  }

  /** Two code words start alike only if the codes do. */
  lemma PrefixMeansEqual(c: nat, f: nat, d: nat, g: nat)
    requires c < Pow2(f) && d < Pow2(g) && CodeWord(c, f) <= CodeWord(d, g)
    ensures f <= g && c == Shr(d, g - f)
  {
    CodeWordPrefix(d, f, g);
    ShrBound(d, g - f, f);
    CodeWordInjective(c, Shr(d, g - f), f);
  }

  /** No code word is a prefix of another. */
  lemma PrefixFree(counts: seq<nat>, lens: seq<nat>, o: nat, q: nat)
    requires Matches(counts, lens) && Kraft(counts, MAX_BITS) <= Pow2(MAX_BITS)
    requires o < |lens| && q < |lens| && o != q && lens[o] != 0 && lens[q] != 0
    ensures !(CodeWord(CodeOf(counts, lens, o), lens[o]) <= CodeWord(CodeOf(counts, lens, q), lens[q]))
  {
    var f, g := lens[o], lens[q];
    var c, d := CodeOf(counts, lens, o), CodeOf(counts, lens, q);
    CodeFits(counts, lens, o);
    CodeFits(counts, lens, q);
    if f < g {
      ShorterIsLess(counts, lens, o, q);
    } else if o < q {
      RankRises(lens, o, q);
    } else {
      RankRises(lens, q, o);
    }
    if CodeWord(c, f) <= CodeWord(d, g) {
      PrefixMeansEqual(c, f, d, g);
    }
  }

  lemma {:induction false} ShrStep(v: nat, d: nat)
    ensures Shr(v, d + 1) == Shr(v, d) / 2
    decreases d
  {
    if d > 0 {
      ShrStep(v / 2, d - 1);
    }
  }

  lemma {:induction false} SymbolOfRank(lens: seq<nat>, l: nat, r: nat) returns (o: nat)
    requires r < Count(lens, l)
    ensures o < |lens| && lens[o] == l && Count(lens[..o], l) == r
    decreases |lens|
  {
    var n := |lens| - 1;
    if r < Count(lens[..n], l) {
      o := SymbolOfRank(lens[..n], l, r);
      assert lens[..n][..o] == lens[..o];
    } else {
      o := n;
    }
  }

  /** The length at which the leading part of `x` first falls among the codes. */
  lemma {:induction false} LengthOf(counts: seq<nat>, x: nat, f: nat) returns (l: nat)
    requires |counts| == MAX_BITS + 1 && counts[0] == 0
    requires f <= MAX_BITS && Shr(x, MAX_BITS - f) < Kraft(counts, f)
    ensures 1 <= l <= f && First(counts, l) <= Shr(x, MAX_BITS - l) < Kraft(counts, l)
    decreases f
  {
    ShrStep(x, MAX_BITS - f);
    if Shr(x, MAX_BITS - f + 1) < Kraft(counts, f - 1) {
      l := LengthOf(counts, x, f - 1);
    } else {
      l := f;
    }
  }

  /** A set of lengths whose Kraft sum is 1 leaves no gap: any 15 bits begin with a code
      word (and with only one, by PrefixFree). */
  lemma Complete(counts: seq<nat>, lens: seq<nat>, w: seq<bool>) returns (o: nat)
    requires Matches(counts, lens) && Kraft(counts, MAX_BITS) == Pow2(MAX_BITS)
    requires |w| == MAX_BITS
    ensures o < |lens| && lens[o] != 0
    ensures CodeWord(CodeOf(counts, lens, o), lens[o]) <= w
  {
    var x := WordValue(w);
    var l := LengthOf(counts, x, MAX_BITS);
    o := SymbolAt(counts, lens, w, x, l);
  }

  lemma SymbolAt(counts: seq<nat>, lens: seq<nat>, w: seq<bool>, x: nat, l: nat) returns (o: nat)
    requires Matches(counts, lens) && 1 <= l <= MAX_BITS && l <= |w| && x < Pow2(|w|) && w == CodeWord(x, |w|)
    requires First(counts, l) <= Shr(x, |w| - l) < Kraft(counts, l)
    ensures o < |lens| && lens[o] == l && CodeWord(CodeOf(counts, lens, o), l) == w[..l]
  {
    CodeWordPrefix(x, l, |w|);
    o := SymbolOfRank(lens, l, Shr(x, |w| - l) - First(counts, l));
  }

  /** The number a bit string spells. */
  lemma WordValue(w: seq<bool>) returns (x: nat)
    ensures x < Pow2(|w|) && w == CodeWord(x, |w|)
  {
    x := Value(Rev(w));
    BitsOfValue(Rev(w));
    RevTwice(w);
  }

  /** The bits of a list of symbols. */
  function Words(counts: seq<nat>, lens: seq<nat>, syms: seq<nat>): seq<bool>
    requires Codable(counts, lens, syms)
    decreases |syms|
  {
    if syms == [] then []
    else CodeWord(CodeOf(counts, lens, syms[0]), lens[syms[0]]) + Words(counts, lens, syms[1..])
  }

  predicate Codable(counts: seq<nat>, lens: seq<nat>, syms: seq<nat>) {
    forall i :: 0 <= i < |syms| ==> syms[i] < |lens| && 0 < lens[syms[i]] < |counts|
  }

  /** Whatever follows, a bit string begins with the word of one symbol only. */
  lemma HeadDetermined(counts: seq<nat>, lens: seq<nat>, o: nat, q: nat, u: seq<bool>, p: seq<bool>, v: seq<bool>,
                       r: seq<bool>)
    requires Matches(counts, lens) && Kraft(counts, MAX_BITS) <= Pow2(MAX_BITS)
    requires o < |lens| && q < |lens| && lens[o] != 0 && lens[q] != 0
    requires u == CodeWord(CodeOf(counts, lens, o), lens[o]) && v == CodeWord(CodeOf(counts, lens, q), lens[q])
    requires u + p == v + r
    ensures o == q && p == r
  {
    SameHead(u, p, v, r);
    if o != q {
      PrefixFree(counts, lens, o, q);
      PrefixFree(counts, lens, q, o);
    }
    assert p == (u + p)[|u|..] && r == (v + r)[|v|..];
  }

  lemma WordsFirst(counts: seq<nat>, lens: seq<nat>, a: seq<nat>, x: seq<bool>)
    requires Codable(counts, lens, a) && a != []
    ensures Words(counts, lens, a) + x
         == CodeWord(CodeOf(counts, lens, a[0]), lens[a[0]]) + (Words(counts, lens, a[1..]) + x)
  {
  }

  /** Whatever follows, a bit string can be read as symbols in one way only. */
  lemma {:induction false} UniquelyDecodable(counts: seq<nat>, lens: seq<nat>, a: seq<nat>, b: seq<nat>, x: seq<bool>,
                                             y: seq<bool>)
    requires Matches(counts, lens) && Kraft(counts, MAX_BITS) <= Pow2(MAX_BITS)
    requires Codable(counts, lens, a) && Codable(counts, lens, b) && |a| == |b|
    requires Words(counts, lens, a) + x == Words(counts, lens, b) + y
    ensures a == b && x == y
    decreases |a|
  {
    hide Matches, Kraft, CodeOf, CodeWord;
    if a == [] {
      assert x == [] + x && y == [] + y;
    } else {
      WordsFirst(counts, lens, a, x);
      WordsFirst(counts, lens, b, y);
      HeadDetermined(counts, lens, a[0], b[0],
                     CodeWord(CodeOf(counts, lens, a[0]), lens[a[0]]), Words(counts, lens, a[1..]) + x,
                     CodeWord(CodeOf(counts, lens, b[0]), lens[b[0]]), Words(counts, lens, b[1..]) + y);
      UniquelyDecodable(counts, lens, a[1..], b[1..], x, y);
      assert a == [a[0]] + a[1..] && b == [b[0]] + b[1..];
    }
  }

  lemma SameHead(u: seq<bool>, p: seq<bool>, v: seq<bool>, q: seq<bool>)
    requires u + p == v + q
    ensures u <= v || v <= u
  {
    if |u| <= |v| {
      assert u == (u + p)[..|u|] && v[..|u|] == (v + q)[..|u|];
    } else {
      assert v == (v + q)[..|v|] && u[..|v|] == (u + p)[..|v|];
    }
  }

  // gen_codes

  /** Cell `o` of a tree: the source's pair of array cells 2o (frequency or code) and
      2o + 1 (parent or length). */
  datatype Cell = Cell(fc: nat, dl: nat)

  function Lengths(tree: seq<Cell>): (r: seq<nat>)
    ensures |r| == |tree| && forall o :: 0 <= o < |tree| ==> r[o] == tree[o].dl
  {
    seq(|tree|, i requires 0 <= i < |tree| => tree[i].dl)
  }

  /** `code` is what the stream needs to send symbol `o`. */
  ghost predicate Sends(code: nat, counts: seq<nat>, lens: seq<nat>, o: nat)
    requires o < |lens| && lens[o] < |counts|
  {
    IsReverse(code, CodeOf(counts, lens, o), lens[o])
  }

  method FirstCodes(counts: seq<nat>) returns (next: seq<nat>)
    requires |counts| == MAX_BITS + 1
    ensures |next| == MAX_BITS + 1 && forall l :: 1 <= l <= MAX_BITS ==> next[l] == First(counts, l)
  {
    next := seq(MAX_BITS + 1, i => 0);
    var code := 0;
    for bits := 1 to MAX_BITS + 1
      invariant |next| == MAX_BITS + 1
      invariant code == First(counts, bits - 1)
      invariant forall l :: 1 <= l < bits ==> next[l] == First(counts, l)
    {
      code := 2 * (code + counts[bits - 1]);
      next := next[bits := code];
    }
  }

  /** `next[l]` is the code the next symbol of length `l` gets, once `o` are done. */
  ghost predicate NextCodes(next: seq<nat>, counts: seq<nat>, lens: seq<nat>, o: nat)
    requires |counts| == MAX_BITS + 1 && o <= |lens|
  {
    |next| == MAX_BITS + 1 && forall l :: 1 <= l <= MAX_BITS ==> next[l] == First(counts, l) + Count(lens[..o], l)
  }

  lemma NextCodesStep(next: seq<nat>, counts: seq<nat>, lens: seq<nat>, o: nat)
    requires |counts| == MAX_BITS + 1 && o < |lens| && lens[o] <= MAX_BITS
    requires NextCodes(next, counts, lens, o)
    ensures lens[o] == 0 ==> NextCodes(next, counts, lens, o + 1)
    ensures lens[o] != 0 ==> next[lens[o]] == CodeOf(counts, lens, o)
    ensures lens[o] != 0 ==> NextCodes(next[lens[o] := next[lens[o]] + 1], counts, lens, o + 1)
  {
    assert lens[..o + 1][..o] == lens[..o];
  }

  /** The first `o` symbols in use have their codes. */
  ghost predicate Coded(cells: seq<Cell>, counts: seq<nat>, lens: seq<nat>, o: nat)
    requires |counts| == MAX_BITS + 1 && o <= |lens| && o <= |cells|
             && forall q :: 0 <= q < |lens| ==> lens[q] <= MAX_BITS
  {
    forall q {:trigger Sends(cells[q].fc, counts, lens, q)} ::
      0 <= q < o && lens[q] != 0 ==> Sends(cells[q].fc, counts, lens, q)
  }

  lemma CodedStep(cells: seq<Cell>, after: seq<Cell>, counts: seq<nat>, lens: seq<nat>, o: nat)
    requires |counts| == MAX_BITS + 1 && o < |lens| && o < |cells| == |after|
             && forall q :: 0 <= q < |lens| ==> lens[q] <= MAX_BITS
    requires Coded(cells, counts, lens, o) && forall q :: 0 <= q < |cells| && q != o ==> after[q] == cells[q]
    requires lens[o] != 0 ==> Sends(after[o].fc, counts, lens, o)
    ensures Coded(after, counts, lens, o + 1)
  {
    forall q | 0 <= q < o + 1 && lens[q] != 0 ensures Sends(after[q].fc, counts, lens, q) {
      if q < o {
        assert Sends(cells[q].fc, counts, lens, q);
      }
    }
  }

  lemma NoneCoded(cells: seq<Cell>, next: seq<nat>, counts: seq<nat>, lens: seq<nat>)
    requires |counts| == |next| == MAX_BITS + 1 && forall q :: 0 <= q < |lens| ==> lens[q] <= MAX_BITS
    requires forall l :: 1 <= l <= MAX_BITS ==> next[l] == First(counts, l)
    ensures NextCodes(next, counts, lens, 0) && Coded(cells, counts, lens, 0)
  {
    assert lens[..0] == [];
  }

  /** `gen_codes`: replace the frequencies by the bit-reversed codes. */
  method GenCodes(tree: array<Cell>, maxCode: nat, counts: seq<nat>)
    requires |counts| == MAX_BITS + 1 && maxCode < tree.Length
    requires forall o :: 0 <= o <= maxCode ==> tree[o].dl <= MAX_BITS
    modifies tree
    ensures forall o :: 0 <= o < tree.Length ==> tree[o].dl == old(tree[o].dl)
    ensures forall o :: maxCode < o < tree.Length ==> tree[o] == old(tree[o])
    ensures Coded(tree[..], counts, Lengths(tree[..maxCode + 1]), maxCode + 1)
  {
    hide NextCodes, Coded, IsReverse, CodeOf, Kraft;
    ghost var lens := Lengths(tree[..maxCode + 1]);
    var next := FirstCodes(counts);
    NoneCoded(tree[..], next, counts, lens);
    for o := 0 to maxCode + 1
      invariant |next| == MAX_BITS + 1 && NextCodes(next, counts, lens, o)
      invariant forall q :: 0 <= q < tree.Length ==> tree[q].dl == old(tree[q].dl)
      invariant forall q :: o <= q < tree.Length ==> tree[q] == old(tree[q])
      invariant Coded(tree[..], counts, lens, o)
    {
      NextCodesStep(next, counts, lens, o);
      ghost var before := tree[..];
      var len := tree[o].dl;
      if len != 0 {
        next := GiveCode(tree, o, next);
      }
      CodedStep(before, tree[..], counts, lens, o);
    }
    assert Lengths(tree[..maxCode + 1]) == lens;
  }

  /** One round: the next code of this length, reversed. */
  method GiveCode(tree: array<Cell>, o: nat, next: seq<nat>) returns (after: seq<nat>)
    requires o < tree.Length && 1 <= tree[o].dl < |next|
    modifies tree
    ensures forall q :: 0 <= q < tree.Length && q != o ==> tree[q] == old(tree[q])
    ensures tree[o].dl == old(tree[o].dl) && IsReverse(tree[o].fc, next[tree[o].dl], tree[o].dl)
    ensures after == next[tree[o].dl := next[tree[o].dl] + 1]
  {
    var len := tree[o].dl;
    var r := BiReverse(next[len], len);
    tree[o] := Cell(r, len);
    after := next[len := next[len] + 1];
  }
}

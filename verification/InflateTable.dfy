/** `inflate_table`: decoding tables for a canonical code. */
module InflateTable {
  import opened BitStrings
  import opened CanonicalCodes
  import opened DecodeTable
  import opened TableRoom

  // The words of the code, in the order the table builder meets them

  function Rank(lens: seq<nat>, o: nat): nat
    requires o < |lens|
  {
    Count(lens[..o], lens[o])
  }

  ghost predicate InUse(lens: seq<nat>, o: nat) { o < |lens| && 1 <= lens[o] <= MAX_BITS }

  /** `work` lists the symbols in use by length, then by number. */
  ghost predicate SortedSyms(work: seq<nat>, counts: seq<nat>, lens: seq<nat>)
    requires |counts| == MAX_BITS + 1
  {
    && |work| == Offs(counts, MAX_BITS + 1) && WorkOk(work, lens)
    && forall c {:trigger InPlace(work, counts, lens, c)} | 0 <= c < |work| :: InPlace(work, counts, lens, c)
  }

  ghost predicate WorkOk(work: seq<nat>, lens: seq<nat>) {
    forall c | 0 <= c < |work| :: InUse(lens, work[c])
  }

  ghost predicate InPlace(work: seq<nat>, counts: seq<nat>, lens: seq<nat>, c: nat)
    requires |counts| == MAX_BITS + 1 && c < |work| && InUse(lens, work[c])
  {
    Offs(counts, lens[work[c]]) + Rank(lens, work[c]) == c
  }

  function WordOf(counts: seq<nat>, lens: seq<nat>, o: nat): Word
    requires o < |lens| && lens[o] < |counts|
  {
    Word(lens[o], Value(CodeWord(CodeOf(counts, lens, o), lens[o])))
  }

  ghost function Book(counts: seq<nat>, lens: seq<nat>, work: seq<nat>): (ws: seq<Word>)
    requires |counts| == MAX_BITS + 1 && SortedSyms(work, counts, lens)
    ensures |ws| == |work|
  {
    seq(|work|, c requires 0 <= c < |work| => WordOf(counts, lens, work[c]))
  }

  lemma {:induction false} MaskIsValue(x: nat, n: nat)
    ensures Mask(x, n) == Value(BitsOf(x, n))
    decreases n
  {
    if n > 0 {
      MaskIsValue(x / 2, n - 1);
      assert BitsOf(x, n)[1..] == BitsOf(x / 2, n - 1);
    }
  }

  /** Agreeing with a word is having its code word as the first bits. */
  lemma AgreesIsPrefix(counts: seq<nat>, lens: seq<nat>, o: nat, x: nat)
    requires o < |lens| && lens[o] < |counts|
    ensures Agrees(x, WordOf(counts, lens, o)) <==> BitsOf(x, lens[o]) == CodeWord(CodeOf(counts, lens, o), lens[o])
  {
    var word := CodeWord(CodeOf(counts, lens, o), lens[o]);
    MaskIsValue(x, lens[o]);
    BitsOfValue(word);
    BitsOfValue(BitsOf(x, lens[o]));
  }

  lemma WordBits(counts: seq<nat>, lens: seq<nat>, o: nat)
    requires o < |lens| && lens[o] < |counts|
    ensures WordOf(counts, lens, o).bits < Pow2(lens[o])
    ensures BitsOf(WordOf(counts, lens, o).bits, lens[o]) == CodeWord(CodeOf(counts, lens, o), lens[o])
    ensures Agrees(WordOf(counts, lens, o).bits, WordOf(counts, lens, o))
  {
    BitsOfValue(CodeWord(CodeOf(counts, lens, o), lens[o]));
    AgreesIsPrefix(counts, lens, o, WordOf(counts, lens, o).bits);
  }

  lemma RankInRange(counts: seq<nat>, lens: seq<nat>, o: nat)
    requires Matches(counts, lens) && InUse(lens, o)
    ensures Rank(lens, o) < counts[lens[o]]
  {
    RankRises(lens, o, |lens|);
    assert lens[..|lens|] == lens;
  }

  /** The list is sorted by length, and codes rise within a length. */
  lemma SortedOrder(counts: seq<nat>, lens: seq<nat>, work: seq<nat>, i: nat, j: nat)
    requires Matches(counts, lens) && SortedSyms(work, counts, lens) && i < j < |work|
    ensures lens[work[i]] <= lens[work[j]] && work[i] != work[j]
    ensures lens[work[i]] == lens[work[j]] ==> CodeOf(counts, lens, work[i]) < CodeOf(counts, lens, work[j])
  {
    assert InPlace(work, counts, lens, i) && InPlace(work, counts, lens, j);
    RankInRange(counts, lens, work[i]);
    RankInRange(counts, lens, work[j]);
    if lens[work[j]] < lens[work[i]] {
      OffsMonotone(counts, lens[work[j]], lens[work[i]]);
    }
  }

  lemma BookApart(counts: seq<nat>, lens: seq<nat>, work: seq<nat>)
    requires Matches(counts, lens) && SortedSyms(work, counts, lens) && Kraft(counts, MAX_BITS) <= Pow2(MAX_BITS)
    ensures Apart(Book(counts, lens, work))
  {
    hide Kraft, Pow2, Count, BitsOf;
    var ws := Book(counts, lens, work);
    forall i, j, x: nat | 0 <= i < j < |ws| && Agrees(x, ws[i]) ensures !Agrees(x, ws[j]) {
      var o, q := work[i], work[j];
      SortedOrder(counts, lens, work, i, j);
      AgreesIsPrefix(counts, lens, o, x);
      AgreesIsPrefix(counts, lens, q, x);
      BitsSplit(x, lens[o], lens[q] - lens[o]);
      PrefixFree(counts, lens, o, q);
    }
  }

  // The words behind one root entry

  lemma {:induction false} ShrMonotone(a: nat, b: nat, d: nat)
    requires a <= b
    ensures Shr(a, d) <= Shr(b, d)
    decreases d
  {
    if d > 0 {
      ShrMonotone(a / 2, b / 2, d - 1);
    }
  }

  lemma {:induction false} ShrAdds(v: nat, a: nat, b: nat)
    ensures Shr(v, a + b) == Shr(Shr(v, a), b)
    decreases a
  {
    if a > 0 {
      ShrAdds(v / 2, a - 1, b);
    }
  }

  lemma {:induction false} ShrOfShlExact(v: nat, d: nat)
    ensures Shr(Shl(v, d), d) == v
    decreases d
  {
    if d > 0 {
      ShrOfShlExact(v, d - 1);
    }
  }

  lemma {:induction false} ShrOneMore(v: nat, d: nat)
    ensures Shr(Pow2(d) + v, d) == 1 + Shr(v, d)
    decreases d
  {
    if d > 0 {
      ShrOneMore(v / 2, d - 1);
      assert (2 * Pow2(d - 1) + v) / 2 == Pow2(d - 1) + v / 2;
    }
  }

  /** The leading `root` bits of a code. */
  function Top(counts: seq<nat>, lens: seq<nat>, o: nat, root: nat): nat
    requires o < |lens| && root <= lens[o] < |counts|
  {
    Shr(CodeOf(counts, lens, o), lens[o] - root)
  }

  lemma RootBits(counts: seq<nat>, lens: seq<nat>, o: nat, root: nat)
    requires Matches(counts, lens) && Kraft(counts, MAX_BITS) <= Pow2(MAX_BITS) && InUse(lens, o) && root <= lens[o]
    ensures Top(counts, lens, o, root) < Pow2(root)
    ensures BitsOf(WordOf(counts, lens, o).bits, root) == CodeWord(Top(counts, lens, o, root), root)
  {
    var code, len, w := CodeOf(counts, lens, o), lens[o], WordOf(counts, lens, o);
    CodeFits(counts, lens, o);
    ShrBound(code, len - root, root);
    WordBits(counts, lens, o);
    BitsSplit(w.bits, root, len - root);
    CodeWordPrefix(code, root, len);
  }

  lemma SameMask(a: nat, b: nat, n: nat)
    ensures Mask(a, n) == Mask(b, n) <==> BitsOf(a, n) == BitsOf(b, n)
  {
    MaskIsValue(a, n);
    MaskIsValue(b, n);
    BitsOfValue(BitsOf(a, n));
    BitsOfValue(BitsOf(b, n));
  }

  /** Two words share a root entry exactly when their codes share the leading bits. */
  lemma SameRoot(counts: seq<nat>, lens: seq<nat>, o: nat, q: nat, root: nat)
    requires Matches(counts, lens) && Kraft(counts, MAX_BITS) <= Pow2(MAX_BITS)
    requires InUse(lens, o) && InUse(lens, q) && root <= lens[o] && root <= lens[q]
    ensures Mask(WordOf(counts, lens, o).bits, root) == Mask(WordOf(counts, lens, q).bits, root)
       <==> Top(counts, lens, o, root) == Top(counts, lens, q, root)
  {
    RootBits(counts, lens, o, root);
    RootBits(counts, lens, q, root);
    SameMask(WordOf(counts, lens, o).bits, WordOf(counts, lens, q).bits, root);
    if CodeWord(Top(counts, lens, o, root), root) == CodeWord(Top(counts, lens, q, root), root) {
      CodeWordInjective(Top(counts, lens, o, root), Top(counts, lens, q, root), root);
    }
  }

  lemma TopRises(counts: seq<nat>, lens: seq<nat>, work: seq<nat>, i: nat, j: nat, root: nat)
    requires Matches(counts, lens) && SortedSyms(work, counts, lens) && i <= j < |work| && root <= lens[work[i]]
    ensures lens[work[i]] <= lens[work[j]]
    ensures Top(counts, lens, work[i], root) <= Top(counts, lens, work[j], root)
  {
    if i < j {
      var o, q := work[i], work[j];
      var l, m := lens[o], lens[q];
      SortedOrder(counts, lens, work, i, j);
      if l < m {
        ShorterIsLess(counts, lens, o, q);
        ShrAdds(CodeOf(counts, lens, q), m - l, l - root);
        ShrMonotone(CodeOf(counts, lens, o), Shr(CodeOf(counts, lens, q), m - l), l - root);
      } else {
        ShrMonotone(CodeOf(counts, lens, o), CodeOf(counts, lens, q), l - root);
      }
    }
  }

  /** The words behind a root entry are next to each other. */
  lemma Neighbours(counts: seq<nat>, lens: seq<nat>, work: seq<nat>, i: nat, j: nat, c: nat, root: nat)
    requires Matches(counts, lens) && SortedSyms(work, counts, lens) && Kraft(counts, MAX_BITS) <= Pow2(MAX_BITS)
    requires i <= j <= c < |work| && root < lens[work[i]]
    requires Mask(Book(counts, lens, work)[i].bits, root) == Mask(Book(counts, lens, work)[c].bits, root)
    ensures root < lens[work[j]]
            && Mask(Book(counts, lens, work)[j].bits, root) == Mask(Book(counts, lens, work)[c].bits, root)
  {
    TopRises(counts, lens, work, i, j, root);
    TopRises(counts, lens, work, j, c, root);
    SameRoot(counts, lens, work[i], work[c], root);
    SameRoot(counts, lens, work[j], work[c], root);
  }

  // How large a second table must be

  /** A second table of `curr` bits is large enough for the symbols behind its root entry: when the
      remaining symbols of at most `root + curr` bits fill it, the longer ones lie behind others. */
  lemma LongerElsewhere(rem: seq<nat>, counts: seq<nat>, lens: seq<nat>, o: nat, r: nat, q: nat, root: nat, m: nat)
    requires Matches(counts, lens) && InUse(lens, o) && InUse(lens, q)
    requires root < lens[o] <= m < lens[q] && Remaining(rem, counts, lens[o], r) && r == Rank(lens, o)
    requires Pow2(m - root) <= Kraft(rem, m)
    ensures Top(counts, lens, o, root) < Top(counts, lens, q, root)
  {
    hide Shr, Shl, Pow2, Kraft, Count, Remaining;
    var l, n := lens[o], lens[q];
    var code, far, full := CodeOf(counts, lens, o), CodeOf(counts, lens, q), Kraft(counts, m);
    RemainingKraft(rem, counts, l, r, m);
    CodeInRange(counts, lens, q);
    KraftGrows(counts, m, n);
    ShrOfShl(full, far, n - m);
    ShrAdds(far, n - m, m - root);
    ShrMonotone(full, Shr(far, n - m), m - root);
    ShrMonotone(Pow2(m - root) + Shl(code, m - l), full, m - root);
    ShrOneMore(Shl(code, m - l), m - root);
    ShrAdds(Shl(code, m - l), m - l, l - root);
    ShrOfShlExact(code, m - l);
  }

  /** The search for the size of a second table. */
  method SubTableBits(rem: seq<nat>, l: nat, root: nat, max: nat) returns (curr: nat)
    requires |rem| == MAX_BITS + 1 && root < l <= max <= MAX_BITS
    requires forall k | 0 <= k < l :: rem[k] == 0
    ensures l <= root + curr <= max
    ensures root + curr < max ==> Pow2(curr) <= Kraft(rem, root + curr)
    ensures forall j | l <= j < root + curr :: Kraft(rem, j) < Pow2(j - root)
  {
    hide Kraft, Pow2;
    curr := l - root;
    var left: int := Pow2(curr);
    NoneShorter(rem, l - 1);
    while curr + root < max
      invariant l <= root + curr <= max
      invariant left == Pow2(curr) - 2 * Kraft(rem, root + curr - 1)
      invariant forall j | l <= j < root + curr :: Kraft(rem, j) < Pow2(j - root)
    {
      FillNext(rem, root + curr, curr);
      left := left - rem[curr + root];
      if left <= 0 {
        break;
      }
      curr := curr + 1;
      left := 2 * left;
    }
  }

  lemma FillNext(rem: seq<nat>, m: nat, curr: nat)
    requires 1 <= m < |rem|
    ensures Kraft(rem, m) == 2 * Kraft(rem, m - 1) + rem[m] && Pow2(curr + 1) == 2 * Pow2(curr)
  {
  }

  // The next code, kept bit-reversed

  predicate BitSet(h: nat, k: nat) { Shr(h, k) % 2 == 1 }

  function IncRev(h: nat, len: nat): nat
    decreases len
  {
    if len == 0 then 0
    else if BitSet(h, len - 1) then IncRev(Mask(h, len - 1), len - 1)
    else Mask(h, len - 1) + Pow2(len - 1)
  }

  /** A code word is that of its leading bits and its last bit. */
  lemma CodeWordLast(c: nat, len: nat)
    requires len > 0
    ensures CodeWord(c, len) == CodeWord(c / 2, len - 1) + [c % 2 == 1]
  {
    assert BitsOf(c, len)[1..] == BitsOf(c / 2, len - 1);
  }

  lemma BitsLast(h: nat, len: nat)
    requires len > 0
    ensures BitsOf(h, len) == BitsOf(h, len - 1) + [BitSet(h, len - 1)]
  {
    BitsSplit(h, len - 1, 1);
    assert BitsOf(Shr(h, len - 1), 1) == [BitSet(h, len - 1)] + BitsOf(Shr(h, len - 1) / 2, 0);
  }

  lemma {:induction false} MaskWhole(h: nat, n: nat)
    requires h < Pow2(n)
    ensures Mask(h, n) == h
    decreases n
  {
    if n > 0 {
      MaskWhole(h / 2, n - 1);
    }
  }

  lemma MaskKeepsBits(h: nat, n: nat)
    ensures BitsOf(Mask(h, n), n) == BitsOf(h, n)
  {
    MaskBound(h, n);
    MaskWhole(Mask(h, n), n);
    SameMask(Mask(h, n), h, n);
  }

  /** Setting the bit above the word appends a one, leaving it clear a zero. */
  lemma {:induction false} AppendBit(h: nat, n: nat)
    requires h < Pow2(n)
    ensures BitsOf(h, n + 1) == BitsOf(h, n) + [false]
    ensures BitsOf(h + Pow2(n), n + 1) == BitsOf(h, n) + [true]
    decreases n
  {
    if n > 0 {
      AppendBit(h / 2, n - 1);
      var v := h + Pow2(n);
      assert v / 2 == h / 2 + Pow2(n - 1) && v % 2 == h % 2;
      assert BitsOf(v, n + 1) == [v % 2 == 1] + BitsOf(v / 2, n);
      assert BitsOf(h, n + 1) == [h % 2 == 1] + BitsOf(h / 2, n);
    } else {
      assert BitsOf(0, 1) == [false] + BitsOf(0, 0) && BitsOf(1, 1) == [true] + BitsOf(0, 0);
    }
  }

  lemma {:induction false} IncRevRight(h: nat, c: nat, len: nat)
    requires IsReverse(h, c, len) && c < Pow2(len)
    ensures c + 1 < Pow2(len) ==> IsReverse(IncRev(h, len), c + 1, len)
    ensures c + 1 == Pow2(len) ==> IncRev(h, len) == 0
    decreases len
  {
    hide CodeWord, BitsOf, Mask, Shr;
    if len > 0 {
      var n := len - 1;
      CodeWordLast(c, len);
      CodeWordLast(c + 1, len);
      BitsLast(h, len);
      SplitEnd(BitsOf(h, n), BitSet(h, n), CodeWord(c / 2, n), c % 2 == 1);
      var low := Mask(h, n);
      MaskKeepsBits(h, n);
      MaskBound(h, n);
      if BitSet(h, n) {
        IncRevRight(low, c / 2, n);
        if c + 1 < Pow2(len) {
          AppendBit(IncRev(low, n), n);
        }
      } else {
        AppendBit(low, n);
      }
    }
  }

  lemma SplitEnd(a: seq<bool>, x: bool, b: seq<bool>, y: bool)
    requires a + [x] == b + [y]
    ensures a == b && x == y
  {
    assert |a| == |b|;
    assert a == (a + [x])[..|a|] && b == (b + [y])[..|b|];
    assert (a + [x])[|a|] == x && (b + [y])[|b|] == y;
  }

  lemma {:induction false} LengthenReverse(h: nat, c: nat, len: nat, d: nat)
    requires IsReverse(h, c, len)
    ensures IsReverse(h, Shl(c, d), len + d)
    decreases d
  {
    if d > 0 {
      LengthenReverse(h, c, len, d - 1);
      CodeWordLast(Shl(c, d), len + d);
      AppendBit(h, len + d - 1);
    }
  }

  /** Adding one at the far end: find the highest clear bit, set it, and clear those above. */
  method NextReversed(h: nat, len: nat) returns (next: nat)
    ensures next == IncRev(h, len)
  {
    var t: nat := len;
    ghost var low := h;
    while t > 0 && BitSet(h, t - 1)
      invariant t <= len && low == (if t == len then h else Mask(h, t)) && IncRev(low, t) == IncRev(h, len)
    {
      t := t - 1;
      TopBitOf(h, t + 1, low);
      low := Mask(h, t);
    }
    if t > 0 {
      TopBitOf(h, t, low);
      next := Mask(h, t - 1) + Pow2(t - 1);
    } else {
      next := 0;
    }
  }

  lemma TopBitOf(h: nat, t: nat, low: nat)
    requires t > 0 && (low == h || low == Mask(h, t))
    ensures BitSet(low, t - 1) == BitSet(h, t - 1) && Mask(low, t - 1) == Mask(h, t - 1)
  {
    if low == Mask(h, t) {
      MaskKeepsBits(h, t);
      BitsLast(h, t);
      BitsLast(low, t);
      SplitEnd(BitsOf(low, t - 1), BitSet(low, t - 1), BitsOf(h, t - 1), BitSet(h, t - 1));
      MaskMask(h, t, t - 1);
    }
  }

  // From one symbol to the next

  /** The symbol with rank `r` among those of length `l`. */
  lemma SymbolInPlace(counts: seq<nat>, lens: seq<nat>, work: seq<nat>, l: nat, r: nat)
    requires Matches(counts, lens) && SortedSyms(work, counts, lens) && 1 <= l <= MAX_BITS && r < counts[l]
    ensures Offs(counts, l) + r < |work|
    ensures var o := work[Offs(counts, l) + r];
            lens[o] == l && Rank(lens, o) == r && CodeOf(counts, lens, o) == First(counts, l) + r
  {
    OffsMonotone(counts, l, MAX_BITS + 1);
    var o := work[Offs(counts, l) + r];
    assert InPlace(work, counts, lens, Offs(counts, l) + r);
    RankInRange(counts, lens, o);
    if lens[o] < l {
      OffsMonotone(counts, lens[o], l);
    } else if l < lens[o] {
      OffsMonotone(counts, l, lens[o]);
    }
  }

  lemma {:induction false} FirstSkips(counts: seq<nat>, l: nat, m: nat)
    requires 1 <= l < m < |counts| && Offs(counts, m) == Offs(counts, l + 1)
    ensures First(counts, m) == Shl(Kraft(counts, l), m - l)
    ensures forall k | l < k < m :: counts[k] == 0
    decreases m
  {
    if l + 1 < m {
      OffsMonotone(counts, l + 1, m - 1);
      FirstSkips(counts, l, m - 1);
    }
  }

  /** The builder is at symbol `c`: the one of rank `r` among those of length `l`, whose word is `huff`. */
  ghost predicate At(counts: seq<nat>, c: nat, l: nat, r: nat, huff: nat, rem: seq<nat>)
    requires |counts| == MAX_BITS + 1
  {
    && 1 <= l <= MAX_BITS && r < counts[l] && c == Offs(counts, l) + r
    && Remaining(rem, counts, l, r) && IsReverse(huff, First(counts, l) + r, l)
    && |rem| == MAX_BITS + 1 && forall k | 0 <= k < l :: rem[k] == 0
  }

  lemma AtWord(counts: seq<nat>, lens: seq<nat>, work: seq<nat>, c: nat, l: nat, r: nat, huff: nat, rem: seq<nat>)
    requires Matches(counts, lens) && SortedSyms(work, counts, lens) && At(counts, c, l, r, huff, rem)
    ensures c < |work| && lens[work[c]] == l && Rank(lens, work[c]) == r
    ensures Book(counts, lens, work)[c] == Word(l, huff) && huff < Pow2(l)
  {
    hide Matches, Remaining, BitsOf, Kraft;
    SymbolInPlace(counts, lens, work, l, r);
    ValueOfBits(huff, l);
  }

  lemma CodeStays(counts: seq<nat>, l: nat, r: nat)
    requires |counts| == MAX_BITS + 1 && 1 <= l <= MAX_BITS && r < counts[l]
             && Kraft(counts, MAX_BITS) <= Pow2(MAX_BITS)
    ensures First(counts, l) + r < Kraft(counts, l) <= Pow2(l)
  {
    KraftFits(counts, l, MAX_BITS);
  }

  lemma NextInLength(counts: seq<nat>, c: nat, l: nat, r: nat, huff: nat, rem: seq<nat>)
    requires |counts| == MAX_BITS + 1 && At(counts, c, l, r, huff, rem) && Kraft(counts, MAX_BITS) <= Pow2(MAX_BITS)
    requires r + 1 < counts[l]
    ensures At(counts, c + 1, l, r + 1, IncRev(huff, l), rem[l := rem[l] - 1])
  {
    hide IsReverse, Kraft, Pow2, IncRev, Offs;
    CodeStays(counts, l, r + 1);
    IncRevRight(huff, First(counts, l) + r, l);
  }

  /** The first symbol after the last one of length `l`. */
  lemma NextIsFirst(counts: seq<nat>, lens: seq<nat>, work: seq<nat>, l: nat, c: nat)
    requires Matches(counts, lens) && SortedSyms(work, counts, lens) && 1 <= l <= MAX_BITS
    requires c == Offs(counts, l) + counts[l] && c < |work|
    ensures l < lens[work[c]] && Offs(counts, lens[work[c]]) == c == Offs(counts, l + 1) && 0 < counts[lens[work[c]]]
  {
    var m := lens[work[c]];
    assert InPlace(work, counts, lens, c);
    RankInRange(counts, lens, work[c]);
    if m <= l {
      OffsMonotone(counts, m, l + 1);
    }
    OffsMonotone(counts, l + 1, m);
  }

  lemma NextWord(counts: seq<nat>, l: nat, m: nat, huff: nat)
    requires |counts| == MAX_BITS + 1 && Kraft(counts, MAX_BITS) <= Pow2(MAX_BITS) && 1 <= l < m <= MAX_BITS
    requires 0 < Kraft(counts, l) && 0 < counts[m] && First(counts, m) == Shl(Kraft(counts, l), m - l)
    requires IsReverse(huff, Kraft(counts, l) - 1, l)
    ensures IsReverse(IncRev(huff, l), First(counts, m), m)
  {
    hide IsReverse, Kraft, Pow2, IncRev;
    FitsBelow(counts, l, m);
    IncRevRight(huff, Kraft(counts, l) - 1, l);
    LengthenReverse(IncRev(huff, l), Kraft(counts, l), l, m - l);
  }

  lemma NextLength(counts: seq<nat>, lens: seq<nat>, work: seq<nat>, c: nat, l: nat, r: nat, huff: nat, rem: seq<nat>)
    requires |counts| == MAX_BITS + 1 && Matches(counts, lens) && SortedSyms(work, counts, lens)
    requires Kraft(counts, MAX_BITS) <= Pow2(MAX_BITS)
    requires At(counts, c, l, r, huff, rem) && r + 1 == counts[l] && c + 1 < |work|
    ensures l < lens[work[c + 1]] && At(counts, c + 1, lens[work[c + 1]], 0, IncRev(huff, l), rem[l := rem[l] - 1])
  {
    hide IsReverse, Pow2, IncRev, Matches, Shl;
    NextIsFirst(counts, lens, work, l, c + 1);
    FirstSkips(counts, l, lens[work[c + 1]]);
    NextWord(counts, l, lens[work[c + 1]], huff);
  }

  /** With a longer code still to come, the shorter codes leave room. */
  lemma FitsBelow(counts: seq<nat>, l: nat, m: nat)
    requires |counts| == MAX_BITS + 1 && 1 <= l < m <= MAX_BITS && Kraft(counts, MAX_BITS) <= Pow2(MAX_BITS)
    requires First(counts, m) == Shl(Kraft(counts, l), m - l) && 0 < counts[m]
    ensures Kraft(counts, l) < Pow2(l)
  {
    hide Shl, Pow2;
    KraftFits(counts, m, MAX_BITS);
    if Pow2(l) <= Kraft(counts, l) {
      ShlAtLeast(Kraft(counts, l), l, m - l);
    }
  }

  lemma {:induction false} ShlAtLeast(v: nat, l: nat, d: nat)
    requires Pow2(l) <= v
    ensures Pow2(l + d) <= Shl(v, d)
    decreases d
  {
    if d > 0 {
      ShlAtLeast(v, l, d - 1);
    }
  }

  // Keeping to the plan

  /** The second table being filled has room for the words still to come behind its root entry. */
  ghost predicate Roomy(ws: seq<Word>, k: Cursor, c: nat) {
    k.low >= 0 ==>
      forall i | c <= i < |ws| && k.root < ws[i].len && Mask(ws[i].bits, k.root) == k.low ::
        ws[i].len <= k.root + k.curr
  }

  lemma RoomyWhenOpened(counts: seq<nat>, lens: seq<nat>, work: seq<nat>, c: nat, l: nat, r: nat, huff: nat,
                        rem: seq<nat>, k: Cursor, max: nat)
    requires |counts| == MAX_BITS + 1 && Matches(counts, lens) && SortedSyms(work, counts, lens)
             && Kraft(counts, MAX_BITS) <= Pow2(MAX_BITS)
    requires At(counts, c, l, r, huff, rem) && k.low == Mask(huff, k.root)
             && k.root < l <= k.root + k.curr <= max <= MAX_BITS
    requires k.root + k.curr < max ==> Pow2(k.curr) <= Kraft(rem, k.root + k.curr)
    requires forall o | 0 <= o < |lens| :: lens[o] <= max
    ensures Roomy(Book(counts, lens, work), k, c)
  {
    hide Matches, Remaining, IsReverse, Kraft, Mask, CodeOf, Pow2, Offs;
    var ws := Book(counts, lens, work);
    AtWord(counts, lens, work, c, l, r, huff, rem);
    forall i | c <= i < |ws| && k.root < ws[i].len && Mask(ws[i].bits, k.root) == k.low
      ensures ws[i].len <= k.root + k.curr
    {
      SameRoot(counts, lens, work[c], work[i], k.root);
      if k.root + k.curr < ws[i].len {
        LongerElsewhere(rem, counts, lens, work[c], r, work[i], k.root, k.root + k.curr);
      }
    }
  }

  /** When the root entry of a long word is not the one being filled, no symbol so far goes through it. */
  lemma FreshRoot(counts: seq<nat>, lens: seq<nat>, work: seq<nat>, k: Cursor, c: nat, i: nat, x: nat)
    requires Matches(counts, lens) && SortedSyms(work, counts, lens) && Kraft(counts, MAX_BITS) <= Pow2(MAX_BITS)
    requires 0 < c < |work| && i < c && Agrees(x, Book(counts, lens, work)[i]) && k.root < lens[work[c]]
    requires k.root < lens[work[c - 1]] ==> k.low == Mask(Book(counts, lens, work)[c - 1].bits, k.root)
    requires Mask(Book(counts, lens, work)[c].bits, k.root) != k.low
    ensures Mask(x, k.root) != Mask(Book(counts, lens, work)[c].bits, k.root)
  {
    var ws := Book(counts, lens, work);
    var low := Mask(ws[c].bits, k.root);
    if Mask(x, k.root) == low {
      WordBits(counts, lens, work[c]);
      if ws[i].len <= k.root {
        BookApart(counts, lens, work);
        MaskMask(x, k.root, ws[i].len);
        MaskMask(ws[c].bits, k.root, ws[i].len);
        assert Agrees(ws[c].bits, ws[i]);
      } else {
        MaskMask(x, ws[i].len, k.root);
        Neighbours(counts, lens, work, i, c - 1, c, k.root);
      }
    }
  }

  // Filling

  lemma {:induction false} SameLow(a: nat, b: nat, n: nat)
    requires Mask(a, n) == Mask(b, n) && a <= b < a + Pow2(n)
    ensures a == b
    decreases n
  {
    if n > 0 {
      SameLow(a / 2, b / 2, n - 1);
    }
  }

  lemma {:induction false} AddMultiple(v: nat, f: nat, n: nat)
    requires v < Pow2(n) && Mask(f, n) == 0
    ensures Mask(v + f, n) == v
    decreases n
  {
    if n > 0 {
      AddMultiple(v / 2, f / 2, n - 1);
      assert (v + f) / 2 == v / 2 + f / 2;
    }
  }

  lemma {:induction false} MultipleDown(f: nat, n: nat)
    requires 0 < f && Mask(f, n) == 0
    ensures Pow2(n) <= f && Mask(f - Pow2(n), n) == 0
    decreases n
  {
    if n > 0 {
      MultipleDown(f / 2, n - 1);
      assert (f - 2 * Pow2(n - 1)) / 2 == f / 2 - Pow2(n - 1);
    }
  }

  lemma {:induction false} PowerIsMultiple(m: nat, n: nat)
    requires n <= m
    ensures Mask(Pow2(m), n) == 0 && Pow2(n) <= Pow2(m)
    decreases n
  {
    if n > 0 {
      PowerIsMultiple(m - 1, n - 1);
    }
  }

  /** An entry to set, at or after the one for `fill`. */
  predicate Wanted(base: nat, curr: nat, n: nat, v: nat, fill: nat, j: nat) {
    base <= j < base + Pow2(curr) && Mask(j - base, n) == v && v + fill <= j - base
  }

  lemma WantedStep(base: nat, curr: nat, n: nat, v: nat, fill: nat, j: nat)
    requires v < Pow2(n) && Mask(fill, n) == 0 && v + fill < Pow2(curr)
    ensures Wanted(base, curr, n, v, fill, j) <==> j == base + v + fill || Wanted(base, curr, n, v, fill + Pow2(n), j)
  {
    AddMultiple(v, fill, n);
    if Wanted(base, curr, n, v, fill, j) && j - base < v + fill + Pow2(n) {
      SameLow(v + fill, j - base, n);
    }
  }

  ghost predicate FilledFrom(table: seq<Entry>, after: seq<Entry>, base: nat, curr: nat, n: nat, v: nat, e: Entry,
                             fill: nat) {
    && |after| == |table|
    && forall j | 0 <= j < |table| :: after[j] == if Wanted(base, curr, n, v, fill, j) then e else table[j]
  }

  lemma FillOne(table: seq<Entry>, before: seq<Entry>, after: seq<Entry>, base: nat, curr: nat, n: nat, v: nat,
                e: Entry, fill: nat)
    requires FilledFrom(table, before, base, curr, n, v, e, fill + Pow2(n))
    requires v < Pow2(n) && Mask(fill, n) == 0 && v + fill < Pow2(curr) && base + Pow2(curr) <= |table|
    requires after == before[base + v + fill := e]
    ensures FilledFrom(table, after, base, curr, n, v, e, fill)
  {
    forall j | 0 <= j < |table| ensures after[j] == if Wanted(base, curr, n, v, fill, j) then e else table[j] {
      WantedStep(base, curr, n, v, fill, j);
    }
  }

  lemma NoneWanted(base: nat, curr: nat, n: nat, v: nat, table: seq<Entry>, e: Entry)
    ensures FilledFrom(table, table, base, curr, n, v, e, Pow2(curr))
  {
  }

  lemma AllWanted(table: seq<Entry>, after: seq<Entry>, base: nat, curr: nat, n: nat, v: nat, e: Entry)
    requires FilledFrom(table, after, base, curr, n, v, e, 0)
    ensures Filled(table, after, base, curr, n, v, e)
  {
    forall j | 0 <= j < |table|
      ensures after[j] == if base <= j < base + Pow2(curr) && Mask(j - base, n) == v then e else table[j]
    {
      if base <= j {
        MaskLeast(j - base, n);
      }
    }
  }

  lemma {:induction false} MaskLeast(j: nat, n: nat)
    ensures Mask(j, n) <= j
    decreases n
  {
    if n > 0 {
      MaskLeast(j / 2, n - 1);
    }
  }

  /** Every entry of a table of `curr` bits at `base` whose index ends in the `n` bits `v`. */
  method FillEntries(table: array<Entry>, base: nat, curr: nat, n: nat, v: nat, e: Entry)
    requires base + Pow2(curr) <= table.Length && n <= curr && v < Pow2(n)
    modifies table
    ensures Filled(old(table[..]), table[..], base, curr, n, v, e)
  {
    var incr := Pow2(n);
    var fill: nat := Pow2(curr);
    PowerIsMultiple(curr, n);
    NoneWanted(base, curr, n, v, table[..], e);
    while fill != 0
      invariant fill <= Pow2(curr) && Mask(fill, n) == 0
      invariant FilledFrom(old(table[..]), table[..], base, curr, n, v, e, fill)
    {
      MultipleDown(fill, n);
      fill := fill - incr;
      ghost var before := table[..];
      table[base + v + fill] := e;
      FillOne(old(table[..]), before, table[..], base, curr, n, v, e, fill);
    }
    AllWanted(old(table[..]), table[..], base, curr, n, v, e);
  }

  // The main loop

  datatype Code = Code(counts: seq<nat>, lens: seq<nat>, work: seq<nat>, root: nat, max: nat)

  ghost predicate Usable(u: Code) {
    && Matches(u.counts, u.lens) && SortedSyms(u.work, u.counts, u.lens) && Kraft(u.counts, MAX_BITS) <= Pow2(MAX_BITS)
    && |u.counts| == MAX_BITS + 1 && WorkOk(u.work, u.lens)
    && 1 <= u.root <= u.max <= MAX_BITS && 0 < u.counts[u.max] && forall o | 0 <= o < |u.lens| :: u.lens[o] <= u.max
  }

  ghost function Ws(u: Code): (ws: seq<Word>)
    requires Usable(u)
    ensures |ws| == |u.work|
  {
    Book(u.counts, u.lens, u.work)
  }

  // The room taken

  /** Where a second table of `curr` bits was opened: at symbol `c`, of rank `r` among those of length
      `l`, the first behind its root entry, with `rem` still to come. */
  datatype Opening = Opening(c: nat, l: nat, r: nat, rem: seq<nat>, curr: nat)

  function CodeAt(u: Code, l: nat, r: nat): nat
    requires l < |u.counts|
  {
    First(u.counts, l) + r
  }

  ghost predicate OpenedAt(u: Code, o: Opening)
    requires Usable(u)
  {
    && u.root < o.l <= u.root + o.curr <= u.max && o.r < u.counts[o.l] && o.c == Offs(u.counts, o.l) + o.r
    && Remaining(o.rem, u.counts, o.l, o.r) && |o.rem| == MAX_BITS + 1 && (forall k | 0 <= k < o.l :: o.rem[k] == 0)
    && CodeAt(u, o.l, o.r) == Shl(Shr(CodeAt(u, o.l, o.r), o.l - u.root), o.l - u.root)
    && (forall j | o.l <= j < u.root + o.curr :: Kraft(o.rem, j) < Pow2(j - u.root))
    && (u.root + o.curr < u.max ==> Pow2(o.curr) <= Kraft(o.rem, u.root + o.curr))
  }

  /** The symbols such a table is sure to hold. */
  function Held(u: Code, o: Opening): nat
    requires u.root < o.l <= u.root + o.curr
  {
    Pow2(o.l - u.root) + (u.root + o.curr - o.l)
  }

  /** Held, as counted level by level. */
  lemma HeldCounted(u: Code, o: Opening)
    requires Usable(u) && OpenedAt(u, o)
    ensures var m := u.root + o.curr;
            && Kraft(o.rem, m) + Held(u, o) <= Offs(o.rem, m + 1) + Pow2(o.curr)
            && (o.l < m ==> 2 * Kraft(o.rem, m - 1) + Held(u, o) <= Offs(o.rem, m) + Pow2(o.curr))
  {
    hide Matches, SortedSyms, WorkOk, Shr, Shl, Pow2, Remaining;
    LeavesGrow(o.rem, o.l, u.root, u.root + o.curr);
  }

  /** The codes of a later length, counted from the first code of the table. */
  lemma LaterCode(u: Code, o: Opening, l: nat, r: nat)
    requires Usable(u) && OpenedAt(u, o) && o.l < l <= MAX_BITS && r < u.counts[l]
    requires Shr(CodeAt(u, o.l, o.r), o.l - u.root) < Shr(CodeAt(u, l, r), l - u.root)
    ensures Pow2(l - u.root) <= 2 * Kraft(o.rem, l - 1) + r
    ensures Offs(u.counts, l) + r == o.c + Offs(o.rem, l) + r
  {
    hide Matches, SortedSyms, WorkOk, Shr, Shl, Pow2, Kraft, Remaining;
    var code := CodeAt(u, o.l, o.r);
    var top := Shr(code, o.l - u.root);
    RemainingKraft(o.rem, u.counts, o.l, o.r, l - 1);
    RemainingOffs(o.rem, u.counts, o.l, o.r, l);
    BeyondTop(top, CodeAt(u, l, r), l - u.root);
    ShlTwice(top, o.l - u.root, l - o.l);
    ShlStep(code, l - o.l);
  }

  /** A symbol behind a later root entry comes after all the table is sure to hold, and is at least
      as long as the table is deep. */
  lemma PastTable(u: Code, o: Opening, c: nat, l: nat, r: nat)
    requires Usable(u) && OpenedAt(u, o) && o.l <= l <= u.max && r < u.counts[l] && c == Offs(u.counts, l) + r
    requires Shr(CodeAt(u, o.l, o.r), o.l - u.root) < Shr(CodeAt(u, l, r), l - u.root)
    ensures o.c + Held(u, o) <= c && u.root + o.curr <= l
  {
    hide Matches, SortedSyms, WorkOk, Shr, Shl, Kraft, Pow2, Offs, Remaining;
    var m := u.root + o.curr;
    FirstLevel(u, o);
    HeldCounted(u, o);
    if l == o.l {
      BeyondTop(Shr(CodeAt(u, o.l, o.r), o.l - u.root), CodeAt(u, l, r), l - u.root);
      assert r - o.r < o.rem[l];
    } else {
      LaterCode(u, o, l, r);
      KraftLast(u, o, l);
      if m < l {
        OffsMonotone(o.rem, m + 1, l);
      }
    }
  }

  lemma FirstLevel(u: Code, o: Opening)
    requires Usable(u) && OpenedAt(u, o)
    ensures Kraft(o.rem, o.l) == o.rem[o.l] == u.counts[o.l] - o.r
  {
    hide Matches, SortedSyms, WorkOk, Shr, Shl, Pow2;
    NoneShorter(o.rem, o.l - 1);
  }

  lemma KraftLast(u: Code, o: Opening, l: nat)
    requires Usable(u) && OpenedAt(u, o) && o.l < l <= MAX_BITS
    ensures Kraft(o.rem, l) == 2 * Kraft(o.rem, l - 1) + u.counts[l]
  {
    hide Matches, SortedSyms, WorkOk, Shr, Shl, Pow2;
  }

  /** The symbols of a complete code fill every table. */
  lemma TableFull(u: Code, o: Opening)
    requires Usable(u) && OpenedAt(u, o) && Kraft(u.counts, u.max) == Pow2(u.max)
    ensures o.c + Held(u, o) <= |u.work|
  {
    hide Matches, WorkOk, Shr, Kraft, Pow2, Offs, Remaining, Held, InPlace;
    var m := u.root + o.curr;
    HeldCounted(u, o);
    RemainingOffs(o.rem, u.counts, o.l, o.r, MAX_BITS + 1);
    OffsMonotone(o.rem, m + 1, MAX_BITS + 1);
    if m == u.max {
      FillsToMax(u, o);
    }
  }

  lemma FillsToMax(u: Code, o: Opening)
    requires Usable(u) && OpenedAt(u, o) && Kraft(u.counts, u.max) == Pow2(u.max) && u.root + o.curr == u.max
    ensures Pow2(o.curr) <= Kraft(o.rem, u.max)
  {
    hide Matches, SortedSyms, WorkOk, Shr, Shl, Kraft, Pow2, Offs, Remaining;
    var code := CodeAt(u, o.l, o.r);
    var top := Shr(code, o.l - u.root);
    RemainingKraft(o.rem, u.counts, o.l, o.r, u.max);
    ShlTwice(top, o.l - u.root, u.max - o.l);
    CodeStays(u.counts, o.l, o.r);
    ShrBound(code, o.l - u.root, u.root);
    ShlOrder(top + 1, Pow2(u.root), o.curr);
    ShlSum(top, 1, o.curr);
    ShlOne(o.curr);
    ShlOne(u.root);
    ShlTwice(1, u.root, o.curr);
    ShlOne(u.max);
  }

  /** The next code is one more, lengthened with zeros. */
  lemma NextCode(u: Code, c: nat, l: nat, r: nat, huff: nat, rem: seq<nat>, l': nat, r': nat, huff': nat,
                 rem': seq<nat>)
    requires Usable(u) && At(u.counts, c, l, r, huff, rem) && At(u.counts, c + 1, l', r', huff', rem') && l <= l'
    ensures CodeAt(u, l', r') == Shl(CodeAt(u, l, r) + 1, l' - l)
  {
    hide Matches, SortedSyms, WorkOk, IsReverse, Remaining;
    if l < l' {
      OffsMonotone(u.counts, l + 1, l');
      FirstSkips(u.counts, l, l');
    }
  }

  /** The first symbol behind a root entry starts it. */
  lemma StartsEntry(u: Code, c: nat, l: nat, r: nat, huff: nat, rem: seq<nat>, l': nat, r': nat, huff': nat,
                    rem': seq<nat>)
    requires Usable(u) && At(u.counts, c, l, r, huff, rem) && At(u.counts, c + 1, l', r', huff', rem') && l <= l'
             && u.root < l'
    requires u.root < l ==> Shr(CodeAt(u, l, r), l - u.root) != Shr(CodeAt(u, l', r'), l' - u.root)
    ensures CodeAt(u, l', r') == Shl(Shr(CodeAt(u, l', r'), l' - u.root), l' - u.root)
  {
    hide Matches, SortedSyms, WorkOk, IsReverse, Remaining, CodeAt, Kraft, Pow2, Offs, Shr, Shl;
    NextCode(u, c, l, r, huff, rem, l', r', huff', rem');
    var next := CodeAt(u, l, r) + 1;
    if l <= u.root {
      ShlTwice(next, u.root - l, l' - u.root);
      ShrOfShlExact(Shl(next, u.root - l), l' - u.root);
    } else {
      ShrAdds(CodeAt(u, l', r'), l' - l, l - u.root);
      ShrOfShlExact(next, l' - l);
      CarryAligned(CodeAt(u, l, r), l - u.root);
      ShlTwice(Shr(next, l - u.root), l - u.root, l' - l);
    }
  }

  /** The entries taken before the table being filled are few for the symbols they hold. */
  ghost predicate Thrifty(u: Code, k: Cursor, o: Opening, c: nat)
    requires Usable(u)
  {
    k.low >= 0 ==>
      && OpenedAt(u, o) && o.curr == k.curr && o.c <= c && o.c < |u.work| && k.low == Mask(Ws(u)[o.c].bits, u.root)
      && k.next % 2 == 0 && k.next + Offs(u.counts, u.root + 1) + 1 <= Pow2(u.root) + o.c + Slack(o.l - u.root)
  }

  /** What all tables of the code may take. */
  ghost predicate Suffices(u: Code, room: nat)
    requires Usable(u)
  {
    && Kraft(u.counts, u.max) == Pow2(u.max) && room % 2 == 0
    && Pow2(u.root) + |u.work| + Slack(u.max - u.root) <= room + 2 + Offs(u.counts, u.root + 1)
  }

  lemma PowerEven(x: nat)
    requires 0 < x
    ensures Pow2(x) % 2 == 0
  {
  }

  /** A second table opened at `o` after the others fits the room. */
  lemma OpeningFits(u: Code, o: Opening, next: nat, room: nat)
    requires Usable(u) && OpenedAt(u, o) && Suffices(u, room)
    requires next % 2 == 0 && next + Offs(u.counts, u.root + 1) + 1 <= Pow2(u.root) + o.c + Slack(o.l - u.root)
    ensures next + Pow2(o.curr) <= room
  {
    hide Matches, SortedSyms, WorkOk, Kraft, Shl, Shr, Offs, Remaining, Pow2, OpenedAt, Usable, Slack;
    OpenedSizes(u, o);
    TableFull(u, o);
    SlackRises(o.curr, u.max - u.root);
    PowerEven(o.curr);
    EvenBelow(next, Pow2(o.curr), room);
  }

  lemma OpenedSizes(u: Code, o: Opening)
    requires Usable(u) && OpenedAt(u, o)
    ensures u.root < o.l <= u.root + o.curr <= u.max
    ensures Pow2(o.curr) + Slack(o.l - u.root) <= Held(u, o) + Slack(o.curr)
  {
  }

  lemma EvenBelow(a: nat, b: nat, room: nat)
    requires a % 2 == 0 && b % 2 == 0 && room % 2 == 0 && a + b <= room + 1
    ensures a + b <= room
  {
  }

  /** The table behind the one being filled starts within the means of the symbols so far. */
  lemma StaysThrifty(u: Code, k: Cursor, o: Opening, c: nat, n: Opening)
    requires Usable(u) && Thrifty(u, k, o, c) && OpenedAt(u, n) && n.c == c + 1 < |u.work| && k.root == u.root
    requires k.low < 0 ==> k.next == 0 && k.curr == u.root
    requires k.low >= 0 ==> k.low != Mask(Ws(u)[n.c].bits, u.root)
    ensures var next := k.next + Pow2(k.curr);
            next % 2 == 0 && next + Offs(u.counts, u.root + 1) + 1 <= Pow2(u.root) + n.c + Slack(n.l - u.root)
  {
    hide Matches, SortedSyms, WorkOk, Kraft, Shl, Shr, Offs, Remaining, Pow2, Mask, Book;
    PowerEven(k.curr);
    OffsMonotone(u.counts, u.root + 1, n.l);
    if k.low >= 0 {
      LaterEntry(u, o, n);
      PastTable(u, o, n.c, n.l, n.r);
      SlackRises(o.curr, n.l - u.root);
    }
  }

  lemma LaterEntry(u: Code, o: Opening, n: Opening)
    requires Usable(u) && OpenedAt(u, o) && OpenedAt(u, n) && o.c < n.c < |u.work|
    requires Mask(Ws(u)[o.c].bits, u.root) != Mask(Ws(u)[n.c].bits, u.root)
    ensures o.l <= n.l && Shr(CodeAt(u, o.l, o.r), o.l - u.root) < Shr(CodeAt(u, n.l, n.r), n.l - u.root)
  {
    hide Kraft, Shl, Shr, Offs, Remaining, Mask;
    SymbolInPlace(u.counts, u.lens, u.work, o.l, o.r);
    SymbolInPlace(u.counts, u.lens, u.work, n.l, n.r);
    TopRises(u.counts, u.lens, u.work, o.c, n.c, u.root);
    SameRoot(u.counts, u.lens, u.work[o.c], u.work[n.c], u.root);
  }

  /** Symbol `c` is next, and the cursor is where its entries go. */
  ghost predicate Going(u: Code, table: seq<Entry>, k: Cursor, c: nat, l: nat, r: nat, huff: nat, rem: seq<nat>)
    requires Usable(u)
  {
    && At(u.counts, c, l, r, huff, rem) && c < |u.work| && u.lens[u.work[c]] == l && Ws(u)[c] == Word(l, huff)
    && k.root == u.root && Shape(table, k) && AllPlaced(table, k, Ws(u), u.work, c)
    && Ready(table, k, Ws(u)[c]) && Roomy(Ws(u), k, c)
  }

  lemma AfterFill(u: Code, table: seq<Entry>, after: seq<Entry>, k: Cursor, c: nat, l: nat, r: nat, huff: nat,
                  rem: seq<nat>)
    requires Usable(u) && Going(u, table, k, c, l, r, huff, rem)
    requires Filled(table, after, k.next, k.curr, l - Drop(k), Shr(huff, Drop(k)), Leaf(u.work[c], l - Drop(k)))
    ensures Shape(after, k) && AllPlaced(after, k, Ws(u), u.work, c + 1)
    ensures l > k.root ==> after[k.low] == table[k.low]
  {
    hide Matches, Remaining, IsReverse, Kraft, Mask, Pow2, Offs, AllPlaced, Roomy, Book;
    BookApart(u.counts, u.lens, u.work);
    FillStep(table, after, k, Ws(u), u.work, c);
    assert Shape(table, k);
  }

  lemma EndsAtMax(u: Code, c: nat, l: nat, r: nat, huff: nat, rem: seq<nat>)
    requires Usable(u) && At(u.counts, c, l, r, huff, rem) && r + 1 == u.counts[l]
    ensures l <= u.max && (l == u.max <==> c + 1 == |u.work|)
  {
    AtWord(u.counts, u.lens, u.work, c, l, r, huff, rem);
    if l < u.max {
      OffsMonotone(u.counts, l, u.max);
      OffsMonotone(u.counts, u.max, MAX_BITS + 1);
    } else {
      NoneLonger(u, MAX_BITS + 1);
    }
  }

  lemma {:induction false} NoneLonger(u: Code, m: nat)
    requires Usable(u) && u.max < m <= MAX_BITS + 1
    ensures Offs(u.counts, m) == Offs(u.counts, u.max + 1)
    decreases m
  {
    if u.max + 1 < m {
      NoneLonger(u, m - 1);
      NoSymbol(u.lens, m - 1);
    }
  }

  /** After the last symbol of a complete code the count of codes wraps to zero. */
  lemma LastWord(u: Code, l: nat, r: nat, huff: nat)
    requires |u.counts| == MAX_BITS + 1 && Kraft(u.counts, MAX_BITS) <= Pow2(MAX_BITS)
    requires 1 <= l <= MAX_BITS && r + 1 == u.counts[l] && IsReverse(huff, First(u.counts, l) + r, l)
    ensures Kraft(u.counts, l) == Pow2(l) ==> IncRev(huff, l) == 0
    ensures l == 1 ==> IncRev(huff, l) == 1 || Kraft(u.counts, 1) == 2
  {
    hide IsReverse;
    CodeStays(u.counts, l, r);
    IncRevRight(huff, First(u.counts, l) + r, l);
    if l == 1 && Kraft(u.counts, 1) != 2 {
      assert IsReverse(IncRev(huff, 1), 1, 1);
      ReverseOfOne(IncRev(huff, 1));
    }
  }

  lemma ReverseOfOne(h: nat)
    requires IsReverse(h, 1, 1)
    ensures h == 1
  {
    assert BitsOf(1, 1) == [true] && Rev([true]) == [true];
    assert BitsOf(h, 1) == [h % 2 == 1];
  }

  /** On to the next symbol: its word, and its length if the old length is used up. */
  method Advance(u: Code, c: nat, l: nat, ghost r: nat, huff: nat, rem: seq<nat>)
    returns (done: bool, l': nat, ghost r': nat, huff': nat, rem': seq<nat>)
    requires Usable(u) && At(u.counts, c, l, r, huff, rem) && l <= u.max
    ensures huff' == IncRev(huff, l)
    ensures done ==> c + 1 == |u.work| && l' == l == u.max && r + 1 == u.counts[l]
    ensures done ==>
              (Kraft(u.counts, l) == Pow2(l) ==> huff' == 0) && (l == 1 ==> huff' == 1 || Kraft(u.counts, 1) == 2)
    ensures !done ==> At(u.counts, c + 1, l', r', huff', rem') && l <= l' <= u.max
  {
    huff' := NextReversed(huff, l);
    rem' := rem[l := rem[l] - 1];
    l', r' := l, r + 1;
    done := false;
    if rem'[l] == 0 {
      EndsAtMax(u, c, l, r, huff, rem);
      if l == u.max {
        done := true;
        LastWord(u, l, r, huff);
      } else {
        OffsMonotone(u.counts, l, MAX_BITS + 1);
        NextLength(u.counts, u.lens, u.work, c, l, r, huff, rem);
        l', r' := u.lens[u.work[c + 1]], 0;
      }
    } else {
      NextInLength(u.counts, c, l, r, huff, rem);
    }
  }

  /** The next symbol goes into the table being filled. */
  lemma Stays(u: Code, table: seq<Entry>, after: seq<Entry>, k: Cursor, c: nat, l: nat, r: nat, huff: nat,
              rem: seq<nat>, l': nat, r': nat, huff': nat, rem': seq<nat>)
    requires Usable(u) && Going(u, table, k, c, l, r, huff, rem) && At(u.counts, c + 1, l', r', huff', rem') && l <= l'
    requires Shape(after, k) && AllPlaced(after, k, Ws(u), u.work, c + 1)
             && (l > k.root ==> after[k.low] == table[k.low])
    requires l' <= k.root || Mask(huff', k.root) == k.low
    ensures Going(u, after, k, c + 1, l', r', huff', rem')
  {
    hide Matches, SortedSyms, AllPlaced, IsReverse, Remaining, Book;
    AtWord(u.counts, u.lens, u.work, c + 1, l', r', huff', rem');
  }

  /** The next symbol goes into a new second table of `curr` bits. */
  lemma Opens(u: Code, table: seq<Entry>, k: Cursor, c: nat, l: nat, huff: nat, curr: nat,
              l': nat, r': nat, huff': nat, rem': seq<nat>)
    requires Usable(u) && At(u.counts, c + 1, l', r', huff', rem')
    requires c < |u.work| && Ws(u)[c] == Word(l, huff) && u.lens[u.work[c]] == l
    requires k.root == u.root && Shape(table, k) && AllPlaced(table, k, Ws(u), u.work, c + 1)
    requires l > k.root ==> k.low == Mask(huff, k.root)
    requires k.root < l' && Mask(huff', k.root) != k.low && k.next + Pow2(k.curr) + Pow2(curr) <= |table|
    requires l' <= k.root + curr <= u.max && (k.root + curr < u.max ==> Pow2(curr) <= Kraft(rem', k.root + curr))
    ensures var low := Mask(huff', k.root);
            var next := Opened(k, curr, low);
            low < Pow2(k.root) <= |table|
            && Going(u, table[low := Link(curr, next.next)], next, c + 1, l', r', huff', rem')
  {
    hide Matches, SortedSyms, IsReverse, Remaining, Kraft, Book, AllPlaced, Mask, Shr;
    var low := Mask(huff', k.root);
    var next := Opened(k, curr, low);
    MaskBound(huff', k.root);
    AtWord(u.counts, u.lens, u.work, c + 1, l', r', huff', rem');
    forall i, x: nat | 0 <= i < c + 1 && Agrees(x, Ws(u)[i]) ensures Mask(x, k.root) != low {
      FreshRoot(u.counts, u.lens, u.work, k, c + 1, i, x);
    }
    OpenStep(table, k, curr, low, Ws(u), u.work, c + 1);
    RoomyWhenOpened(u.counts, u.lens, u.work, c + 1, l', r', huff', rem', next, u.max);
  }

  lemma {:induction false} ShlZero(d: nat)
    ensures Shl(0, d) == 0
    decreases d
  {
    if d > 0 {
      ShlZero(d - 1);
    }
  }

  lemma {:induction false} NothingBefore(counts: seq<nat>, l: nat)
    requires 1 <= l < |counts| && forall k | 0 <= k < l :: counts[k] == 0
    ensures Offs(counts, l) == 0 && First(counts, l) == 0
    decreases l
  {
    NoneShorter(counts, l - 1);
    if l > 1 {
      NothingBefore(counts, l - 1);
    }
  }

  lemma Begins(u: Code, table: seq<Entry>, min: nat)
    requires Usable(u) && 1 <= min <= u.root && 0 < u.counts[min] && (forall k | 0 <= k < min :: u.counts[k] == 0)
    requires Pow2(u.root) <= |table|
    ensures Going(u, table, Cursor(u.root, 0, u.root, -1), 0, min, 0, 0, u.counts)
  {
    NothingBefore(u.counts, min);
    assert IsReverse(0, 0, 0);
    LengthenReverse(0, 0, 0, min);
    ShlZero(min);
    AtWord(u.counts, u.lens, u.work, 0, min, 0, 0, u.counts);
    WordBits(u.counts, u.lens, u.work[0]);
  }

  /** Opening a second table at the next symbol is within means. */
  lemma OpensThrifty(u: Code, table: seq<Entry>, k: Cursor, o: Opening, c: nat, l: nat, r: nat, huff: nat,
                     rem: seq<nat>, curr: nat, l': nat, r': nat, huff': nat, rem': seq<nat>)
    requires Usable(u) && Going(u, table, k, c, l, r, huff, rem) && At(u.counts, c + 1, l', r', huff', rem') && l <= l'
    requires Thrifty(u, k, o, c) && k.root < l' && Mask(huff', k.root) != k.low
    requires l' <= k.root + curr <= u.max && (k.root + curr < u.max ==> Pow2(curr) <= Kraft(rem', k.root + curr))
    requires forall j | l' <= j < k.root + curr :: Kraft(rem', j) < Pow2(j - k.root)
    ensures var n := Opening(c + 1, l', r', rem', curr);
            && Thrifty(u, Opened(k, curr, Mask(huff', k.root)), n, c + 1)
            && forall room: nat | Suffices(u, room) :: k.next + Pow2(k.curr) + Pow2(curr) <= room
  {
    hide Matches, SortedSyms, IsReverse, Remaining, Kraft, Book, AllPlaced, Mask, Shr, Shl, Pow2, Offs, Suffices,
         CodeAt;
    var n := Opening(c + 1, l', r', rem', curr);
    AtWord(u.counts, u.lens, u.work, c + 1, l', r', huff', rem');
    if u.root < l {
      TopsDiffer(u, c, l, r, huff, rem, l', r', huff', rem');
    }
    StartsEntry(u, c, l, r, huff, rem, l', r', huff', rem');
    assert OpenedAt(u, n);
    StaysThrifty(u, k, o, c, n);
    forall room: nat | Suffices(u, room) ensures k.next + Pow2(k.curr) + Pow2(curr) <= room {
      OpeningFits(u, n, k.next + Pow2(k.curr), room);
    }
  }

  lemma TopAt(u: Code, c: nat, l: nat, r: nat, huff: nat, rem: seq<nat>)
    requires Usable(u) && At(u.counts, c, l, r, huff, rem) && u.root < l
    ensures c < |u.work| && InUse(u.lens, u.work[c]) && u.lens[u.work[c]] == l
            && WordOf(u.counts, u.lens, u.work[c]).bits == huff
    ensures Top(u.counts, u.lens, u.work[c], u.root) == Shr(CodeAt(u, l, r), l - u.root)
  {
    hide IsReverse, Remaining, Kraft, Mask, Shr, Pow2, Matches, InPlace;
    AtWord(u.counts, u.lens, u.work, c, l, r, huff, rem);
    SymbolInPlace(u.counts, u.lens, u.work, l, r);
  }

  lemma TopsDiffer(u: Code, c: nat, l: nat, r: nat, huff: nat, rem: seq<nat>, l': nat, r': nat, huff': nat,
                   rem': seq<nat>)
    requires Usable(u) && At(u.counts, c, l, r, huff, rem) && At(u.counts, c + 1, l', r', huff', rem')
    requires u.root < l && u.root < l' && Mask(huff, u.root) != Mask(huff', u.root)
    ensures Shr(CodeAt(u, l, r), l - u.root) != Shr(CodeAt(u, l', r'), l' - u.root)
  {
    hide At, Kraft, Mask, Shr, Pow2, Matches, SortedSyms, WorkOk, WordOf, Top, CodeAt;
    TopAt(u, c, l, r, huff, rem);
    TopAt(u, c + 1, l', r', huff', rem');
    SameRoot(u.counts, u.lens, u.work[c], u.work[c + 1], u.root);
  }

  /** A second table is opened where it fits, and it fits when the room suffices. */
  lemma OpenNext(u: Code, before: seq<Entry>, filled: seq<Entry>, k: Cursor, o: Opening, c: nat, l: nat, r: nat,
                 huff: nat, rem: seq<nat>, curr: nat, l': nat, r': nat, huff': nat, rem': seq<nat>)
    requires Usable(u) && Going(u, before, k, c, l, r, huff, rem) && At(u.counts, c + 1, l', r', huff', rem') && l <= l'
    requires Shape(filled, k) && AllPlaced(filled, k, Ws(u), u.work, c + 1) && k.root == u.root
    requires Thrifty(u, k, o, c) && k.root < l' && Mask(huff', k.root) != k.low
    requires l' <= k.root + curr <= u.max && (k.root + curr < u.max ==> Pow2(curr) <= Kraft(rem', k.root + curr))
    requires forall j | l' <= j < k.root + curr :: Kraft(rem', j) < Pow2(j - k.root)
    ensures var low := Mask(huff', k.root);
            && Thrifty(u, Opened(k, curr, low), Opening(c + 1, l', r', rem', curr), c + 1)
            && (forall room: nat | Suffices(u, room) :: k.next + Pow2(k.curr) + Pow2(curr) <= room)
            && (k.next + Pow2(k.curr) + Pow2(curr) <= |filled| ==>
                  && low < Pow2(k.root) <= |filled|
                  && Going(u, filled[low := Link(curr, k.next + Pow2(k.curr))], Opened(k, curr, low), c + 1,
                           l', r', huff', rem'))
  {
    hide Matches, SortedSyms, AllPlaced, IsReverse, Remaining, Book, Roomy, Suffices, OpenedAt, Thrifty, Kraft, Mask,
         Offs, Pow2, Shr;
    OpensThrifty(u, before, k, o, c, l, r, huff, rem, curr, l', r', huff', rem');
    if k.next + Pow2(k.curr) + Pow2(curr) <= |filled| {
      Opens(u, filled, k, c, l, huff, curr, l', r', huff', rem');
    }
  }

  /** One round after a symbol is filled in: on to the next, opening a second table if it needs one. */
  method Continue(table: array<Entry>, u: Code, ghost before: seq<Entry>, ghost k: Cursor, c: nat, l: nat, ghost r: nat,
                  huff: nat, rem: seq<nat>, next: nat, curr: nat, low: int,
                  l': nat, ghost r': nat, huff': nat, rem': seq<nat>, room: nat, ghost o: Opening)
    returns (ok: bool, ghost k': Cursor, next': nat, curr': nat, low': int, ghost o': Opening)
    requires Usable(u) && Going(u, before, k, c, l, r, huff, rem) && At(u.counts, c + 1, l', r', huff', rem')
             && l <= l' <= u.max
    requires k == Cursor(u.root, next, curr, low) && Shape(table[..], k)
             && AllPlaced(table[..], k, Ws(u), u.work, c + 1)
    requires l > k.root ==> table[k.low] == before[k.low]
    requires room <= table.Length && Thrifty(u, k, o, c)
    modifies table
    ensures u.root == u.max ==> ok && low' == low
    ensures Suffices(u, room) ==> ok
    ensures ok ==> Thrifty(u, k', o', c + 1)
    ensures ok ==> k' == Cursor(u.root, next', curr', low') && Going(u, table[..], k', c + 1, l', r', huff', rem')
  {
    hide Matches, SortedSyms, AllPlaced, Book, Going, Suffices, Thrifty, Kraft, Mask, Offs, Pow2, Remaining, IsReverse;
    ok, k', next', curr', low', o' := true, k, next, curr, low, o;
    if l' > u.root && Mask(huff', u.root) != low {
      curr' := SubTableBits(rem', l', u.root, u.max);
      OpenNext(u, before, table[..], k, o, c, l, r, huff, rem, curr', l', r', huff', rem');
      o' := Opening(c + 1, l', r', rem', curr');
      if next + Pow2(curr) + Pow2(curr') > room {
        ok := false;
        return;
      }
      ghost var filled := table[..];
      next' := next + Pow2(curr);
      low' := Mask(huff', u.root);
      k' := Cursor(u.root, next', curr', low');
      table[low'] := Link(curr', next');
      assert table[..] == filled[low' := Link(curr', next')];
    } else {
      Stays(u, before, table[..], k, c, l, r, huff, rem, l', r', huff', rem');
      StillThrifty(u, k, o, c);
    }
  }

  lemma StillThrifty(u: Code, k: Cursor, o: Opening, c: nat)
    requires Usable(u) && Thrifty(u, k, o, c)
    ensures Thrifty(u, k, o, c + 1)
  {
  }

  /** Fill in all symbols. */
  method Build(table: array<Entry>, u: Code, min: nat, room: nat)
    returns (ok: bool, ghost k: Cursor, next: nat, drop: nat, huff: nat)
    requires Usable(u) && 1 <= min <= u.root && 0 < u.counts[min] && forall j | 0 <= j < min :: u.counts[j] == 0
    requires room <= table.Length
    modifies table
    ensures ok ==> k.root == u.root && Shape(table[..], k) && AllPlaced(table[..], k, Ws(u), u.work, |u.work|)
    ensures u.root == u.max && Pow2(u.root) <= room ==> ok && k.low < 0
    ensures Suffices(u, room) && Pow2(u.root) <= room ==> ok
    ensures u.max == 1 && ok ==> (huff == 1 || Kraft(u.counts, 1) == 2) && k.low < 0
    ensures ok ==> next == k.next && drop == Drop(k)
    ensures ok ==> Kraft(u.counts, u.max) == Pow2(u.max) ==> huff == 0
  {
    hide Matches, SortedSyms, AllPlaced, IsReverse, Remaining, Kraft, Book, Roomy, Filled, Mask, Shr, Pow2, IncRev,
         Offs;
    hide Suffices, OpenedAt;
    ok, k, next, drop, huff := false, Cursor(u.root, 0, u.root, -1), 0, 0, 0;
    if Pow2(u.root) > room {
      return;
    }
    var c: nat, l: nat, curr: nat, low: int, rem := 0, min, u.root, -1, u.counts;
    ghost var r: nat := 0;
    ghost var o := Opening(0, 0, 0, [], 0);
    Begins(u, table[..], min);
    while true
      invariant k == Cursor(u.root, next, curr, low) && Going(u, table[..], k, c, l, r, huff, rem)
      invariant l <= u.max && (u.root == u.max ==> low < 0) && Thrifty(u, k, o, c)
      decreases |u.work| - c
    {
      drop := if low < 0 then 0 else u.root;
      ghost var before := table[..];
      ShrBound(huff, drop, l - drop);
      FillEntries(table, next, curr, l - drop, Shr(huff, drop), Leaf(u.work[c], l - drop));
      AfterFill(u, before, table[..], k, c, l, r, huff, rem);
      var done, l', huff', rem';
      ghost var r';
      done, l', r', huff', rem' := Advance(u, c, l, r, huff, rem);
      if done {
        ok, huff := true, huff';
        return;
      }
      ok, k, next, curr, low, o := Continue(table, u, before, k, c, l, r, huff, rem, next, curr, low, l', r', huff',
                                            rem', room, o);
      if !ok {
        return;
      }
      c, l, r, huff, rem := c + 1, l', r', huff', rem';
    }
  }

  // Preparing

  /** How many symbols have each length. */
  ghost function Counts(lens: seq<nat>): (counts: seq<nat>)
    ensures |counts| == MAX_BITS + 1
  {
    seq(MAX_BITS + 1, l requires 0 <= l => if l == 0 then 0 else Count(lens, l))
  }

  method CountLengths(lens: seq<nat>) returns (counts: seq<nat>)
    requires forall o | 0 <= o < |lens| :: lens[o] <= MAX_BITS
    ensures counts == Counts(lens) && Matches(counts, lens) && counts[0] == 0
  {
    counts := seq(MAX_BITS + 1, _ => 0);
    for o := 0 to |lens|
      invariant |counts| == MAX_BITS + 1 && forall l | 1 <= l <= MAX_BITS :: counts[l] == Count(lens[..o], l)
    {
      assert lens[..o + 1][..o] == lens[..o];
      counts := counts[lens[o] := counts[lens[o]] + 1];
    }
    assert lens[..|lens|] == lens;
    counts := counts[0 := 0];
  }

  /** What is left of the code space: negative if the lengths ask for too much. */
  method SpaceLeft(counts: seq<nat>) returns (left: int)
    requires |counts| == MAX_BITS + 1 && counts[0] == 0
    ensures left < 0 <==> Pow2(MAX_BITS) < Kraft(counts, MAX_BITS)
    ensures left >= 0 ==> left == Pow2(MAX_BITS) - Kraft(counts, MAX_BITS)
  {
    left := 1;
    for l := 1 to MAX_BITS + 1
      invariant left == Pow2(l - 1) - Kraft(counts, l - 1) && left >= 0
    {
      left := 2 * left;
      left := left - counts[l];
      if left < 0 {
        if Kraft(counts, MAX_BITS) <= Pow2(MAX_BITS) {
          KraftFits(counts, l, MAX_BITS);
        }
        return;
      }
    }
  }

  // Sorting the symbols

  lemma PlacesApart(counts: seq<nat>, lens: seq<nat>, o: nat, q: nat)
    requires Matches(counts, lens) && InUse(lens, o) && InUse(lens, q) && o < q
    ensures Offs(counts, lens[o]) + Rank(lens, o) != Offs(counts, lens[q]) + Rank(lens, q)
  {
    RankInRange(counts, lens, o);
    RankInRange(counts, lens, q);
    if lens[o] < lens[q] {
      OffsMonotone(counts, lens[o], lens[q]);
    } else if lens[q] < lens[o] {
      OffsMonotone(counts, lens[q], lens[o]);
    } else {
      RankRises(lens, o, q);
    }
  }

  lemma PlaceInRange(counts: seq<nat>, lens: seq<nat>, o: nat)
    requires Matches(counts, lens) && InUse(lens, o)
    ensures Offs(counts, lens[o]) + Rank(lens, o) < Offs(counts, MAX_BITS + 1)
  {
    RankInRange(counts, lens, o);
    OffsMonotone(counts, lens[o], MAX_BITS + 1);
  }

  /** The length whose symbols hold position `c`. */
  lemma {:induction false} LengthAt(counts: seq<nat>, c: nat, m: nat) returns (l: nat)
    requires m <= |counts| && c < Offs(counts, m)
    ensures 1 <= l < m && Offs(counts, l) <= c < Offs(counts, l) + counts[l]
    decreases m
  {
    if c < Offs(counts, m - 1) {
      l := LengthAt(counts, c, m - 1);
    } else {
      l := m - 1;
    }
  }

  ghost predicate SortedUpTo(work: seq<nat>, counts: seq<nat>, lens: seq<nat>, n: nat)
    requires |counts| == MAX_BITS + 1
  {
    && |work| == Offs(counts, MAX_BITS + 1)
    && forall o {:trigger Rank(lens, o)} | 0 <= o < n && InUse(lens, o) ::
         Offs(counts, lens[o]) + Rank(lens, o) < |work| && work[Offs(counts, lens[o]) + Rank(lens, o)] == o
  }

  lemma SkipUnused(work: seq<nat>, counts: seq<nat>, lens: seq<nat>, o: nat)
    requires |counts| == MAX_BITS + 1 && o < |lens| && lens[o] == 0 && SortedUpTo(work, counts, lens, o)
    ensures SortedUpTo(work, counts, lens, o + 1)
  {
  }

  lemma AllSorted(work: seq<nat>, counts: seq<nat>, lens: seq<nat>)
    requires Matches(counts, lens) && SortedUpTo(work, counts, lens, |lens|)
    ensures SortedSyms(work, counts, lens)
  {
    forall c | 0 <= c < |work| ensures InUse(lens, work[c]) && InPlace(work, counts, lens, c) {
      var l := LengthAt(counts, c, MAX_BITS + 1);
      var o := SymbolOfRank(lens, l, c - Offs(counts, l));
      assert Rank(lens, o) == c - Offs(counts, l);
    }
  }

  lemma PlaceOne(work: seq<nat>, counts: seq<nat>, lens: seq<nat>, o: nat)
    requires Matches(counts, lens) && o < |lens| && SortedUpTo(work, counts, lens, o) && InUse(lens, o)
    ensures Offs(counts, lens[o]) + Rank(lens, o) < |work|
    ensures SortedUpTo(work[Offs(counts, lens[o]) + Rank(lens, o) := o], counts, lens, o + 1)
  {
    PlaceInRange(counts, lens, o);
    var after := work[Offs(counts, lens[o]) + Rank(lens, o) := o];
    forall q | 0 <= q < o + 1 && InUse(lens, q)
      ensures Offs(counts, lens[q]) + Rank(lens, q) < |after| && after[Offs(counts, lens[q]) + Rank(lens, q)] == q
    {
      if q < o {
        PlacesApart(counts, lens, q, o);
      }
    }
  }

  ghost predicate NextPlaces(offs: seq<nat>, counts: seq<nat>, lens: seq<nat>, o: nat)
    requires |counts| == MAX_BITS + 1 && o <= |lens|
  {
    |offs| == MAX_BITS + 1 && forall l | 1 <= l <= MAX_BITS :: offs[l] == Offs(counts, l) + Count(lens[..o], l)
  }

  /** The symbols by length, then by number. */
  method SortSymbols(lens: seq<nat>, counts: seq<nat>) returns (work: seq<nat>)
    requires |counts| == MAX_BITS + 1 && (forall o | 0 <= o < |lens| :: lens[o] <= MAX_BITS) && Matches(counts, lens)
    ensures SortedSyms(work, counts, lens)
  {
    hide SortedUpTo, NextPlaces, Matches, Offs;
    var offs := FirstPlaces(counts);
    work := seq(offs[MAX_BITS] + counts[MAX_BITS], _ => 0);
    NonePlaced(work, offs, counts, lens);
    for o := 0 to |lens|
      invariant |offs| == MAX_BITS + 1 && NextPlaces(offs, counts, lens, o) && SortedUpTo(work, counts, lens, o)
    {
      PlaceStep(offs, counts, lens, o);
      if lens[o] != 0 {
        PlaceOne(work, counts, lens, o);
        work := work[offs[lens[o]] := o];
        offs := offs[lens[o] := offs[lens[o]] + 1];
      } else {
        SkipUnused(work, counts, lens, o);
      }
    }
    AllSorted(work, counts, lens);
  }

  method FirstPlaces(counts: seq<nat>) returns (offs: seq<nat>)
    requires |counts| == MAX_BITS + 1
    ensures |offs| == MAX_BITS + 1 && forall k | 1 <= k <= MAX_BITS :: offs[k] == Offs(counts, k)
  {
    offs := seq(MAX_BITS + 1, _ => 0);
    for l := 1 to MAX_BITS
      invariant |offs| == MAX_BITS + 1 && forall k | 1 <= k <= l :: offs[k] == Offs(counts, k)
    {
      offs := offs[l + 1 := offs[l] + counts[l]];
    }
  }

  lemma NonePlaced(work: seq<nat>, offs: seq<nat>, counts: seq<nat>, lens: seq<nat>)
    requires |counts| == MAX_BITS + 1 && |offs| == MAX_BITS + 1
             && (forall k | 1 <= k <= MAX_BITS :: offs[k] == Offs(counts, k))
    requires |work| == offs[MAX_BITS] + counts[MAX_BITS]
    ensures NextPlaces(offs, counts, lens, 0) && SortedUpTo(work, counts, lens, 0)
  {
    assert lens[..0] == [];
  }

  lemma PlaceStep(offs: seq<nat>, counts: seq<nat>, lens: seq<nat>, o: nat)
    requires |counts| == MAX_BITS + 1 && o < |lens| && lens[o] <= MAX_BITS && NextPlaces(offs, counts, lens, o)
    ensures |offs| == MAX_BITS + 1
    ensures lens[o] == 0 ==> NextPlaces(offs, counts, lens, o + 1)
    ensures lens[o] != 0 ==> offs[lens[o]] == Offs(counts, lens[o]) + Rank(lens, o)
    ensures lens[o] != 0 ==> NextPlaces(offs[lens[o] := offs[lens[o]] + 1], counts, lens, o + 1)
  {
    assert lens[..o + 1][..o] == lens[..o];
  }

  // The whole

  datatype Kind = Codes | Lens | Dists

  datatype Outcome = Built(bits: nat) | Invalid | TooBig

  /** The room the decoder sets aside. */
  function Enough(kind: Kind): nat {
    match kind
    case Codes => 128
    case Lens => 852
    case Dists => 592
  }

  /** The lengths make a code a decoder can use: none in use, all of the code space taken, or, except
      for the code-length code, a single code of one bit. */
  ghost predicate Acceptable(kind: Kind, lens: seq<nat>) {
    var kraft := Kraft(Counts(lens), MAX_BITS);
    || (forall o | 0 <= o < |lens| :: lens[o] == 0)
    || kraft == Pow2(MAX_BITS)
    || (kraft < Pow2(MAX_BITS) && kind != Codes && forall o | 0 <= o < |lens| :: lens[o] <= 1)
  }

  /** Every input that starts with a code word is looked up as its symbol, every other as none; and a
      look-up is sure of itself: it fails only on a whole root index, and a link leads to a symbol. */
  ghost predicate Decodes(table: seq<Entry>, root: nat, lens: seq<nat>)
    requires forall o | 0 <= o < |lens| :: lens[o] <= MAX_BITS
  {
    && Pow2(root) <= |table|
    && (forall q | 0 <= q < Pow2(root) && table[q].Bad? :: table[q].bits == root)
    && (forall x: nat | RootEntry(table, root, x).Link? :: !NoWord(lens, x))
    && (forall o: nat, x: nat | InUse(lens, o) && Agrees(x, WordOf(Counts(lens), lens, o)) ::
          Find(table, root, x) == Found(o, lens[o]))
    && forall x: nat | NoWord(lens, x) :: Find(table, root, x) == NotFound
  }

  function RootEntry(table: seq<Entry>, root: nat, x: nat): Entry
    requires Pow2(root) <= |table|
  {
    MaskBound(x, root);
    table[Mask(x, root)]
  }

  ghost predicate NoWord(lens: seq<nat>, x: nat)
    requires forall o | 0 <= o < |lens| :: lens[o] <= MAX_BITS
  {
    forall o: nat | InUse(lens, o) :: !Agrees(x, WordOf(Counts(lens), lens, o))
  }

  /** With the whole code space taken every input starts with a code word. */
  lemma SomeWord(lens: seq<nat>, x: nat)
    requires Matches(Counts(lens), lens) && Kraft(Counts(lens), MAX_BITS) == Pow2(MAX_BITS)
    ensures !NoWord(lens, x)
  {
    var counts := Counts(lens);
    var o := Complete(counts, lens, BitsOf(x, MAX_BITS));
    BitsSplit(x, lens[o], MAX_BITS - lens[o]);
    AgreesIsPrefix(counts, lens, o, x);
  }

  lemma EverySymbolListed(u: Code, o: nat) returns (c: nat)
    requires Usable(u) && InUse(u.lens, o)
    ensures c < |u.work| && u.work[c] == o
  {
    RankInRange(u.counts, u.lens, o);
    SymbolInPlace(u.counts, u.lens, u.work, u.lens[o], Rank(u.lens, o));
    c := Offs(u.counts, u.lens[o]) + Rank(u.lens, o);
    var q := u.work[c];
    if q < o { RankRises(u.lens, q, o); }
    if o < q { RankRises(u.lens, o, q); }
  }

  lemma PlacedDecodes(u: Code, table: seq<Entry>, k: Cursor, o: nat, x: nat)
    requires Usable(u) && u.counts == Counts(u.lens) && k.root == u.root && Shape(table, k)
             && AllPlaced(table, k, Ws(u), u.work, |u.work|)
    requires InUse(u.lens, o) && Agrees(x, WordOf(u.counts, u.lens, o))
    ensures Find(table, u.root, x) == Found(o, u.lens[o])
  {
    var c := EverySymbolListed(u, o);
    PlacedIsFound(table, k, Ws(u), u.work, c, x);
  }

  lemma {:induction false} NoneCounted(lens: seq<nat>, l: nat, o: nat)
    requires Count(lens, l) == 0 && o < |lens|
    ensures lens[o] != l
    decreases |lens|
  {
    if o < |lens| - 1 {
      NoneCounted(lens[..|lens| - 1], l, o);
    }
  }

  lemma {:induction false} KraftTail(counts: seq<nat>, l: nat, m: nat)
    requires l <= m < |counts| && forall k | l < k <= m :: counts[k] == 0
    ensures Kraft(counts, m) == Pow2(m) <==> Kraft(counts, l) == Pow2(l)
    decreases m
  {
    if l < m {
      KraftTail(counts, l, m - 1);
    }
  }

  lemma CompleteDecodes(u: Code, table: seq<Entry>, k: Cursor)
    requires Usable(u) && u.counts == Counts(u.lens) && k.root == u.root && Shape(table, k)
             && AllPlaced(table, k, Ws(u), u.work, |u.work|)
    requires Kraft(u.counts, MAX_BITS) == Pow2(MAX_BITS)
    ensures Decodes(table, u.root, u.lens)
  {
    hide Kraft, Find, AllPlaced, Mask, NoWord, WordOf;
    forall o: nat, x: nat | InUse(u.lens, o) && Agrees(x, WordOf(Counts(u.lens), u.lens, o))
      ensures Find(table, u.root, x) == Found(o, u.lens[o])
    {
      PlacedDecodes(u, table, k, o, x);
    }
    forall x: nat ensures !NoWord(u.lens, x) {
      SomeWord(u.lens, x);
    }
    forall q | 0 <= q < Pow2(u.root) ensures !table[q].Bad? {
      NeverBad(u, table, k, q);
    }
  }

  lemma NeverBad(u: Code, table: seq<Entry>, k: Cursor, q: nat)
    requires Usable(u) && u.counts == Counts(u.lens) && k.root == u.root && Shape(table, k)
             && AllPlaced(table, k, Ws(u), u.work, |u.work|)
    requires Kraft(u.counts, MAX_BITS) == Pow2(MAX_BITS) && q < Pow2(u.root)
    ensures !table[q].Bad?
  {
    hide AllPlaced, Kraft, Matches;
    SomeWord(u.lens, q);
    var o: nat :| InUse(u.lens, o) && Agrees(q, WordOf(Counts(u.lens), u.lens, o));
    PlacedDecodes(u, table, k, o, q);
    MaskWhole(q, u.root);
  }

  /** One symbol with the word "0". */
  lemma OnlyWord(u: Code, o: nat)
    requires Usable(u) && u.max == 1 && u.counts[1] == 1 && InUse(u.lens, o)
    ensures WordOf(u.counts, u.lens, o) == Word(1, 0)
  {
    RankInRange(u.counts, u.lens, o);
    assert CodeOf(u.counts, u.lens, o) == 0;
    assert BitsOf(0, 1) == [false] && Rev([false]) == [false] && Value([false]) == 0;
  }

  lemma SingleDecodes(u: Code, table: seq<Entry>, k: Cursor)
    requires Usable(u) && u.counts == Counts(u.lens) && k.root == u.root && Shape(table, k)
             && AllPlaced(table, k, Ws(u), u.work, |u.work|)
    requires u.max == 1 && u.counts[1] == 1 && 2 <= |table|
    ensures Decodes(table[1 := Bad(1)], u.root, u.lens)
  {
    var after := table[1 := Bad(1)];
    SymbolInPlace(u.counts, u.lens, u.work, 1, 0);
    var o := u.work[0];
    OnlyWord(u, o);
    assert Pow2(1) == 2;
    forall q: nat, x: nat | InUse(u.lens, q) && Agrees(x, WordOf(Counts(u.lens), u.lens, q))
      ensures Find(after, 1, x) == Found(q, u.lens[q])
    {
      OnlyWord(u, q);
      var c := EverySymbolListed(u, q);
      assert Placed(table, k, Ws(u)[c], u.work[c], x);
      assert Mask(x, 1) == 0;
    }
    forall x: nat | NoWord(u.lens, x) ensures Find(after, 1, x) == NotFound {
      assert !Agrees(x, WordOf(Counts(u.lens), u.lens, o));
      MaskBound(x, 1);
      assert Mask(x, 1) == 1;
    }
    assert Placed(table, k, Ws(u)[0], o, 0);
    assert after[0] == Leaf(o, 1);
    forall x: nat ensures !RootEntry(after, 1, x).Link? {
      MaskBound(x, 1);
    }
  }

  /** The longest and the shortest length in use. */
  method Extremes(lens: seq<nat>, counts: seq<nat>) returns (min: nat, max: nat)
    requires Matches(counts, lens)
    ensures max <= MAX_BITS && forall o | 0 <= o < |lens| :: lens[o] <= max
    ensures max > 0 ==> exists o :: 0 <= o < |lens| && lens[o] == max
    ensures max > 0 ==>
              0 < counts[max] && 1 <= min <= max && 0 < counts[min] && forall k | 0 <= k < min :: counts[k] == 0
    ensures forall k | max < k <= MAX_BITS :: counts[k] == 0
  {
    max := MAX_BITS;
    while max >= 1 && counts[max] == 0
      invariant max <= MAX_BITS && forall k | max < k <= MAX_BITS :: counts[k] == 0
    {
      max := max - 1;
    }
    forall o | 0 <= o < |lens| ensures lens[o] <= max {
      if max < lens[o] {
        NoneCounted(lens, lens[o], o);
      }
    }
    if max > 0 {
      var _ := SymbolOfRank(lens, max, 0);
    }
    min := 1;
    while min < max && counts[min] == 0
      invariant 1 <= min && (max > 0 ==> min <= max) && forall k | 0 <= k < min && k <= MAX_BITS :: counts[k] == 0
    {
      min := min + 1;
    }
  }

  lemma NothingInUse(table: seq<Entry>, lens: seq<nat>)
    requires (forall o | 0 <= o < |lens| :: lens[o] == 0) && 2 <= |table| && table[0] == Bad(1) && table[1] == Bad(1)
    ensures Decodes(table, 1, lens)
  {
    assert Pow2(1) == 2;
    forall x: nat ensures Find(table, 1, x) == NotFound && RootEntry(table, 1, x) == Bad(1) {
      MaskBound(x, 1);
    }
  }

  lemma OneSymbol(u: Code)
    requires Usable(u) && u.max == 1 && Kraft(u.counts, MAX_BITS) < Pow2(MAX_BITS)
    requires forall k | 1 < k <= MAX_BITS :: u.counts[k] == 0
    ensures u.counts[1] == 1 && Kraft(u.counts, 1) == 1
  {
    KraftFits(u.counts, 1, MAX_BITS);
    KraftTail(u.counts, 1, MAX_BITS);
    assert Pow2(1) == 2 && Kraft(u.counts, 1) == u.counts[1];
  }

  lemma SortedWork(work: seq<nat>, counts: seq<nat>, lens: seq<nat>)
    requires |counts| == MAX_BITS + 1 && SortedSyms(work, counts, lens)
    ensures WorkOk(work, lens)
  {
  }

  lemma AcceptableIff(kind: Kind, lens: seq<nat>, max: nat, left: int)
    requires (forall o | 0 <= o < |lens| :: lens[o] <= max) && 0 < max && exists o :: 0 <= o < |lens| && lens[o] == max
    requires left < 0 <==> Pow2(MAX_BITS) < Kraft(Counts(lens), MAX_BITS)
    requires left >= 0 ==> left == Pow2(MAX_BITS) - Kraft(Counts(lens), MAX_BITS)
    ensures Acceptable(kind, lens) <==> left == 0 || (left > 0 && kind != Codes && max == 1)
  {
    hide Kraft;
    var o :| 0 <= o < |lens| && lens[o] == max;
  }

  /** Build the table and close off an incomplete code. */
  method FillTable(kind: Kind, u: Code, min: nat, left: int, table: array<Entry>) returns (r: Outcome)
    requires Usable(u) && u.counts == Counts(u.lens) && 1 <= min <= u.root && 0 < u.counts[min]
    requires (forall k | 0 <= k < min :: u.counts[k] == 0) && forall k | u.max < k <= MAX_BITS :: u.counts[k] == 0
    requires left == Pow2(MAX_BITS) - Kraft(u.counts, MAX_BITS) && (left > 0 ==> u.max == 1)
    requires Enough(kind) <= table.Length
    modifies table
    ensures r.TooBig? || (r == Built(u.root) && Decodes(table[..], u.root, u.lens))
    ensures Pow2(u.root) <= Enough(kind) && (u.root == u.max || Suffices(u, Enough(kind))) ==> r != TooBig
  {
    hide Kraft, Decodes, AllPlaced, Book, Find, SortedSyms, Matches, Suffices;
    var ok, next, drop, huff;
    ghost var k;
    ok, k, next, drop, huff := Build(table, u, min, Enough(kind));
    if !ok {
      return TooBig;
    }
    KraftTail(u.counts, u.max, MAX_BITS);
    if left == 0 {
      CompleteDecodes(u, table[..], k);
    } else {
      OneSymbol(u);
      SingleDecodes(u, table[..], k);
      assert Pow2(1) == 2;
    }
    if huff != 0 {
      ghost var filled := table[..];
      table[next + huff] := Bad(u.max - drop);
      assert table[..] == filled[next + huff := Bad(u.max - drop)];
    }
    return Built(u.root);
  }

  /** The sizes `inflate` asks tables for: 7 bits for the code-length code, 9 for up to 286 literals and
      lengths, 6 for up to 30 distances. */
  predicate Sized(kind: Kind, n: nat, bits: nat) {
    match kind
    case Codes => bits == 7
    case Lens => bits == 9 && n <= 286
    case Dists => bits == 6 && n <= 30
  }

  /** Those tables fit the room set aside for them, whatever the lengths. */
  lemma RoomEnough(kind: Kind, u: Code, bits: nat)
    requires Usable(u) && Kraft(u.counts, MAX_BITS) == Pow2(MAX_BITS) && Sized(kind, |u.lens|, bits) && kind != Codes
    requires u.root == bits < u.max && forall k | u.max < k <= MAX_BITS :: u.counts[k] == 0
    ensures Pow2(u.root) <= Enough(kind) && Suffices(u, Enough(kind))
  {
    hide Kraft, SortedSyms, InPlace;
    KraftTail(u.counts, u.max, MAX_BITS);
    FewSymbols(u.counts, u.lens, u.work);
    SomeShort(u.counts);
    SlackRises(u.max - u.root, MAX_BITS - u.root);
    SlackValues();
    if kind == Dists {
      LongIsLeft(u);
    }
  }

  lemma PowerSeven()
    ensures Pow2(7) == 128
  {
    assert Pow2(6) == 64;
  }

  lemma SlackValues()
    ensures Pow2(6) == 64 && Pow2(9) == 512 && Slack(6) == 58 && Slack(9) == 503
  {
    assert Pow2(6) == 64;
  }

  function Below(lens: seq<nat>, m: nat): nat {
    if lens == [] then 0 else Below(lens[..|lens| - 1], m) + if lens[|lens| - 1] < m then 1 else 0
  }

  lemma {:induction false} BelowNext(lens: seq<nat>, m: nat)
    ensures Below(lens, m + 1) == Below(lens, m) + Count(lens, m) && Below(lens, m) <= |lens|
  {
    if lens != [] {
      BelowNext(lens[..|lens| - 1], m);
    }
  }

  lemma {:induction false} CountedOnce(counts: seq<nat>, lens: seq<nat>, m: nat)
    requires Matches(counts, lens) && m <= MAX_BITS + 1
    ensures Offs(counts, m) <= Below(lens, m) <= |lens|
    decreases m
  {
    BelowNext(lens, m);
    if m > 1 {
      CountedOnce(counts, lens, m - 1);
      BelowNext(lens, m - 1);
    }
  }

  lemma FewSymbols(counts: seq<nat>, lens: seq<nat>, work: seq<nat>)
    requires Matches(counts, lens) && SortedSyms(work, counts, lens)
    ensures |work| == Offs(counts, MAX_BITS + 1) <= |lens|
  {
    CountedOnce(counts, lens, MAX_BITS + 1);
  }

  /** The root table need not be made larger for the sake of the shortest code. */
  lemma ShortInUse(kind: Kind, lens: seq<nat>, counts: seq<nat>, work: seq<nat>, min: nat, bits: nat)
    requires Matches(counts, lens) && SortedSyms(work, counts, lens) && Kraft(counts, MAX_BITS) == Pow2(MAX_BITS)
    requires Sized(kind, |lens|, bits) && kind != Codes && min <= MAX_BITS && forall k | 0 <= k < min :: counts[k] == 0
    ensures min <= bits
  {
    hide Kraft, SortedSyms, InPlace;
    FewSymbols(counts, lens, work);
    SomeShort(counts);
    SlackValues();
    if bits < min {
      NoneShorter(counts, bits);
    }
  }

  /** With longer codes in use the short ones leave a root entry. */
  lemma LongIsLeft(u: Code)
    requires Usable(u) && u.root < u.max
    ensures Kraft(u.counts, u.root) < Pow2(u.root)
  {
    hide Shl, Pow2, Matches, SortedSyms, WorkOk;
    KraftFits(u.counts, u.max, MAX_BITS);
    if Pow2(u.root) <= Kraft(u.counts, u.root) {
      ShlAtLeast(Kraft(u.counts, u.root), u.root, u.max - u.root);
      KraftGrows(u.counts, u.root, u.max);
    }
  }

  /** `inflate_table`. */
  method BuildTable(kind: Kind, lens: seq<nat>, bits: nat, table: array<Entry>) returns (r: Outcome)
    requires (forall o | 0 <= o < |lens| :: lens[o] <= MAX_BITS) && 1 <= bits <= MAX_BITS
             && Enough(kind) <= table.Length
    requires kind == Codes ==> bits == 7 && forall o | 0 <= o < |lens| :: lens[o] <= 7
    modifies table
    ensures r == Invalid <==> !Acceptable(kind, lens)
    ensures r.Built? ==> 1 <= r.bits <= MAX_BITS && Decodes(table[..], r.bits, lens)
    ensures r.Built? && Kraft(Counts(lens), MAX_BITS) < Pow2(MAX_BITS) ==> r.bits == 1
    ensures (forall o | 0 <= o < |lens| :: lens[o] <= bits) && Pow2(bits) <= Enough(kind) ==> r != TooBig
    ensures Sized(kind, |lens|, bits) ==> r != TooBig
  {
    hide Kraft, Decodes, SortedSyms, Matches, Count, Pow2;
    var counts := CountLengths(lens);
    var min, max := Extremes(lens, counts);
    var root := bits;
    if root > max {
      root := max;
    }
    if max == 0 {
      table[0], table[1] := Bad(1), Bad(1);
      NothingInUse(table[..], lens);
      return Built(1);
    }
    if root < min {
      root := min;
    }
    var left := SpaceLeft(counts);
    AcceptableIff(kind, lens, max, left);
    if left < 0 {
      return Invalid;
    }
    if left > 0 && (kind == Codes || max != 1) {
      return Invalid;
    }
    var work := SortSymbols(lens, counts);
    SortedWork(work, counts, lens);
    PowerIsMultiple(if root < bits then bits else root, root);
    SlackValues();
    PowerSeven();
    if Sized(kind, |lens|, bits) && bits < max {
      ShortInUse(kind, lens, counts, work, min, bits);
      RoomEnough(kind, Code(counts, lens, work, root, max), bits);
    }
    r := FillTable(kind, Code(counts, lens, work, root, max), min, left, table);
  }
}

/**
 * Blocks from tokens to bits: the codes `build_tree` gives a block, the header `send_all_trees` sends for
 * them, and the three ways `_tr_flush_block` has of sending a block.
 */
module DeflateBlock {
  import opened Bytes
  import opened BitStrings
  import opened BitStream
  import opened CanonicalCodes
  import opened InflateTable
  import opened HuffmanLengths
  import opened HuffmanTree
  import opened HuffmanStream
  import opened LengthCodes
  import opened BlockBody
  import opened BlockHeader
  import opened Lz77
  import opened Sequences
  import Rle = CodeLengthRle
  import Opt = HuffmanOptimal

  // Codes from frequencies

  /** The symbols among the first `m` nodes. */
  ghost function LeafSyms(nodes: seq<nat>, leaf: seq<bool>, m: nat): multiset<nat>
    requires m <= |nodes| == |leaf|
  {
    if m == 0 then multiset{}
    else LeafSyms(nodes, leaf, m - 1) + if leaf[m - 1] then multiset{nodes[m - 1]} else multiset{}
  }

  lemma {:induction false} LeafSymsAre(nodes: seq<nat>, leaf: seq<bool>, m: nat, x: nat)
    requires m <= |nodes| == |leaf|
    ensures x in LeafSyms(nodes, leaf, m) <==> exists k :: 0 <= k < m && leaf[k] && nodes[k] == x
    decreases m
  {
    if m > 0 {
      LeafSymsAre(nodes, leaf, m - 1, x);
    }
  }

  /** The cost of the leaves at their depths is that of their symbols with those lengths. */
  lemma {:induction false} LeafCostIsCost(nodes: seq<nat>, leaf: seq<bool>, w: seq<nat>, l: seq<nat>, d: seq<nat>,
                                          m: nat)
    requires m <= |nodes| == |leaf| == |d| && |l| == |w| && Distinct(nodes)
             && forall k | 0 <= k < |nodes| :: nodes[k] < |w|
    requires forall k | 0 <= k < |nodes| && leaf[k] :: l[nodes[k]] == d[k]
    ensures Opt.Cost(LeafSyms(nodes, leaf, m), w, l) == Opt.LeafCost(leaf, NodeWeights(nodes, w), d, m)
    decreases m
  {
    hide Opt.Mul, Opt.Cost, NodeWeights;
    if m == 0 {
      NoCost(w, l);
    } else {
      LeafCostIsCost(nodes, leaf, w, l, d, m - 1);
      LeafSymsAre(nodes, leaf, m - 1, nodes[m - 1]);
      if leaf[m - 1] {
        OneMoreSym(LeafSyms(nodes, leaf, m - 1), w, l, nodes[m - 1]);
      } else {
        assert LeafSyms(nodes, leaf, m) == LeafSyms(nodes, leaf, m - 1);
      }
    }
  }

  lemma OneMoreSym(q: multiset<nat>, w: seq<nat>, l: seq<nat>, x: nat)
    requires x !in q && x < |w| == |l|
    ensures Opt.Cost(q + multiset{x}, w, l) == Opt.Cost(q, w, l) + Opt.Mul(w[x], l[x])
  {
    hide Opt.Mul, Opt.Total, Opt.CostTerms;
    var before := Opt.CostTerms(q, w, l);
    assert Opt.CostTerms(q + multiset{x}, w, l) == before[x := Opt.Mul(w[x], l[x])];
    Opt.TotalUpdate(before, x, Opt.Mul(w[x], l[x]));
  }

  lemma {:induction false} NoCost(w: seq<nat>, l: seq<nat>)
    requires |w| == |l|
    ensures Opt.Cost(multiset{}, w, l) == 0
    decreases |w|
  {
    var c := Opt.CostTerms(multiset{}, w, l);
    if |w| > 0 {
      var n := |w| - 1;
      NoCost(w[..n], l[..n]);
      assert c[..n] == Opt.CostTerms(multiset{}, w[..n], l[..n]);
    }
  }

  /** No prefix code for the symbols `syms` with weights `w` costs less than the lengths `l`. */
  ghost predicate Optimal(syms: multiset<nat>, w: seq<nat>, l: seq<nat>) {
    && |l| == |w|
    && forall other, m | |other| == |w| && Opt.Prefixed(syms, other, m) ::
         Opt.Cost(syms, w, l) <= Opt.Cost(syms, w, other)
  }

  lemma CodeIsOptimal(syms: multiset<nat>, w: seq<nat>, cells: seq<Cell>, nodes: seq<nat>, dad: seq<nat>,
                      leaf: seq<bool>, maxCode: nat)
    requires Cheapest(syms, w, nodes, dad, leaf) && AtDepth(cells, nodes, dad) && Distinct(nodes) && |cells| == |w|
    requires forall k | 0 <= k < |nodes| :: leaf[k] <==> nodes[k] <= maxCode
    requires forall x: nat :: x in syms <==> x in nodes && x <= maxCode
    ensures Optimal(syms, w, Lengths(cells))
  {
    hide Opt.Prefixed, Opt.LeafCost, Opt.Cost;
    var d, l := NodeWeights(nodes, Lengths(cells)), Lengths(cells);
    assert Opt.Deep(dad, d);
    LeafCostIsCost(nodes, leaf, w, l, d, |nodes|);
    forall x: nat ensures x in LeafSyms(nodes, leaf, |nodes|) <==> x in syms {
      LeafSymsAre(nodes, leaf, |nodes|, x);
    }
    SameSyms(syms, LeafSyms(nodes, leaf, |nodes|), w, l);
  }

  lemma SameSyms(p: multiset<nat>, q: multiset<nat>, w: seq<nat>, l: seq<nat>)
    requires |w| == |l| && forall x: nat :: x in p <==> x in q
    ensures Opt.Cost(p, w, l) == Opt.Cost(q, w, l)
  {
    assert Opt.CostTerms(p, w, l) == Opt.CostTerms(q, w, l);
  }

  lemma {:induction false} KraftBump(counts: seq<nat>, more: seq<nat>, l: nat, m: nat)
    requires l < |counts| && m < |counts| && more == counts[l := counts[l] + 1]
    ensures Kraft(more, m) == Kraft(counts, m) + if l <= m then Pow2(m - l) else 0
    decreases m
  {
    if m > 0 {
      KraftBump(counts, more, l, m - 1);
    }
  }

  lemma CountsBump(lens: seq<nat>)
    requires lens != [] && Lengths15(lens)
    ensures var n := |lens| - 1; var before, l := Counts(lens[..n]), lens[n];
            Counts(lens) == if l == 0 then before else before[l := before[l] + 1]
  {
  }

  /** The Kraft sum over the symbols is the one over the lengths. */
  lemma {:induction false} KraftOverSymbols(q: multiset<nat>, lens: seq<nat>)
    requires Lengths15(lens) && forall x: nat | x < |lens| :: x in q <==> InUse(lens, x)
    ensures Opt.Total(Opt.KraftTerms(q, lens, MAX_BITS)) == Kraft(Counts(lens), MAX_BITS)
    decreases |lens|
  {
    hide Opt.KraftTerms, Opt.Total, Kraft, Counts, Pow2;
    if lens == [] {
      NoKraft(lens, MAX_BITS);
      NoTotal(q);
    } else {
      var n := |lens| - 1;
      KraftOverSymbols(q, lens[..n]);
      Opt.KraftSplits(q, lens, MAX_BITS);
      CountsBump(lens);
      if lens[n] != 0 {
        KraftBump(Counts(lens[..n]), Counts(lens), lens[n], MAX_BITS);
      }
    }
  }

  lemma NoTotal(q: multiset<nat>)
    ensures Opt.Total(Opt.KraftTerms(q, [], MAX_BITS)) == 0
  {
  }

  lemma {:induction false} KraftPadded(q: multiset<nat>, l: seq<nat>, n: nat)
    requires n <= |l| && forall x | x in q :: x < n
    ensures Opt.Total(Opt.KraftTerms(q, l, MAX_BITS)) == Opt.Total(Opt.KraftTerms(q, l[..n], MAX_BITS))
    decreases |l|
  {
    hide Opt.KraftTerms, Opt.Total, Pow2;
    if n == |l| {
      assert l[..n] == l;
    } else {
      Opt.KraftSplits(q, l, MAX_BITS);
      KraftPadded(q, l[..|l| - 1], n);
      assert l[..|l| - 1][..n] == l[..n];
    }
  }

  lemma CodeIsPrefixed(syms: multiset<nat>, l: seq<nat>, n: nat)
    requires n <= |l| && CompleteCode(l[..n]) && (forall x: nat :: syms[x] <= 1)
    requires forall x: nat :: x in syms <==> InUse(l[..n], x)
    ensures Opt.Prefixed(syms, l, MAX_BITS)
  {
    hide Opt.KraftTerms, Opt.Total, Kraft, Counts, Matches, Pow2;
    KraftOverSymbols(syms, l[..n]);
    KraftPadded(syms, l, n);
  }

  /** Where the list falls in weight and rises in length, lighter symbols have codes no shorter. */
  lemma ListIsGraded(syms: multiset<nat>, w: seq<nat>, cells: seq<Cell>, nodes: seq<nat>, maxCode: nat)
    requires Falling(w, nodes, maxCode) && Rising(cells, nodes, maxCode, 0) && |cells| == |w|
    requires forall x: nat :: x in syms <==> x in nodes && x <= maxCode
    ensures Opt.Graded(syms, w, Lengths(cells))
  {
    forall x, y | x in syms && y in syms && x < |w| && y < |w| && w[x] < w[y]
      ensures Lengths(cells)[y] <= Lengths(cells)[x]
    {
      var j :| 0 <= j < |nodes| && nodes[j] == x;
      var k :| 0 <= k < |nodes| && nodes[k] == y;
    }
  }

  lemma CodeIsGraded(syms: multiset<nat>, w: seq<nat>, cells: seq<Cell>, n: nat)
    requires n <= |cells| && CompleteCode(Lengths(cells[..n])) && (forall x: nat :: syms[x] <= 1)
    requires (forall x: nat :: x in syms <==> InUse(Lengths(cells[..n]), x)) && Optimal(syms, w, Lengths(cells))
    ensures Opt.Graded(syms, w, Lengths(cells))
  {
    hide Opt.Prefixed, Opt.Cost, CompleteCode, Opt.Graded;
    assert Lengths(cells)[..n] == Lengths(cells[..n]);
    CodeIsPrefixed(syms, Lengths(cells), n);
    Opt.CheapestIsGraded(syms, w, Lengths(cells), MAX_BITS);
  }

  /** `build_tree` with `gen_bitlen` and `gen_codes`: a complete code of at most `s` bits, and one that
      no prefix code betters unless the limit was reached or the frequencies add up to 2^16. At the limit
      too a lighter symbol has no shorter code. */
  method Coding(tree: array<Cell>, elems: nat, s: nat)
    returns (maxCode: nat, ghost syms: multiset<nat>, ghost weights: seq<nat>)
    requires 3 <= elems <= Pow2(s) && 1 <= s <= MAX_BITS && 2 * elems <= tree.Length
    modifies tree
    ensures maxCode < elems
    ensures var lens := Lengths(tree[..maxCode + 1]);
            && CodedTree(tree[..], lens) && CompleteCode(lens) && Within(lens, s)
            && forall o | 0 <= o < elems && old(tree[o].fc) != 0 :: InUse(lens, o)
    ensures forall o | maxCode < o < elems :: tree[o].dl == 0
    // the symbols weighed are those that got a code, each once
    ensures (forall x: nat :: syms[x] <= 1) && |weights| == tree.Length
    ensures forall x: nat :: x in syms <==> InUse(Lengths(tree[..maxCode + 1]), x)
    ensures forall o | 0 <= o < elems ::
              weights[o] == if old(tree[o].fc) != 0 then old(tree[o].fc) else if o in syms then 1 else 0
    ensures Within(Lengths(tree[..maxCode + 1]), s - 1) && Light(syms, weights) ==>
              Optimal(syms, weights, Lengths(tree[..]))
    ensures Light(syms, weights) ==> Opt.Graded(syms, weights, Lengths(tree[..]))
  {
    hide Opt.Graded, Rising, Falling, CompleteCode, Laid, Kraft, Matches, CanonicalCodes.Coded, Leaves, Pow2, CodedTree,
         Cheapest, Light, Optimal, AtDepth;
    var nodes;
    ghost var dad, leaf;
    nodes, maxCode, dad, leaf, syms, weights := BuildTree(tree, elems);
    LaidParts(tree[..], nodes, maxCode, dad, leaf);
    var counts := GenTreeCodes(tree, nodes, maxCode, s, dad, leaf);
    ghost var lens := Lengths(tree[..maxCode + 1]);
    LengthsFit(counts, lens);
    CountsOfTree(counts, lens);
    TreeIsCoded(tree[..], counts, lens);
    ShortOnly(counts, lens, s);
    IsComplete(counts, lens);
    if Within(lens, s - 1) {
      NoneAtLimit(counts, lens, s);
    }
    if Light(syms, weights) {
      if AtDepth(tree[..], nodes, dad) {
        CodeIsOptimal(syms, weights, tree[..], nodes, dad, leaf, maxCode);
        assert tree[..][..maxCode + 1] == tree[..maxCode + 1];
        CodeIsGraded(syms, weights, tree[..], maxCode + 1);
      } else {
        ListIsGraded(syms, weights, tree[..], nodes, maxCode);
      }
    }
  }

  lemma IsComplete(counts: seq<nat>, lens: seq<nat>)
    requires counts == Counts(lens) && Matches(counts, lens) && Kraft(counts, MAX_BITS) == Pow2(MAX_BITS)
    ensures CompleteCode(lens)
  {
  }

  lemma LaidParts(cells: seq<Cell>, nodes: seq<nat>, maxCode: nat, dad: seq<nat>, leaf: seq<bool>)
    requires Laid(cells, nodes, maxCode, dad, leaf)
    ensures Distinct(nodes) && |leaf| == |nodes| && forall k | 0 <= k < |nodes| :: leaf[k] <==> nodes[k] <= maxCode
  {
  }

  lemma NoneAtLimit(counts: seq<nat>, lens: seq<nat>, s: nat)
    requires Matches(counts, lens) && 1 <= s <= MAX_BITS && Within(lens, s - 1)
    ensures counts[s] == 0
  {
    NoSymbol(lens, s);
  }

  lemma ShortOnly(counts: seq<nat>, lens: seq<nat>, s: nat)
    requires Matches(counts, lens) && s <= MAX_BITS && forall l | s < l <= MAX_BITS :: counts[l] == 0
    ensures Within(lens, s)
  {
    forall o | 0 <= o < |lens| ensures lens[o] <= s {
      if s < lens[o] {
        NoneCounted(lens, lens[o], o);
      }
    }
  }

  /** Lengths of zero at the end change no code. */
  lemma PaddedCounts(lens: seq<nat>, padded: seq<nat>)
    requires |lens| <= |padded| && padded[..|lens|] == lens && forall o | |lens| <= o < |padded| :: padded[o] == 0
    ensures Counts(padded) == Counts(lens)
  {
    var zeros := padded[|lens|..];
    assert padded == lens + zeros;
    forall l | 1 <= l <= MAX_BITS ensures Count(padded, l) == Count(lens, l) {
      CountSplits(lens, zeros, l);
      NoSymbol(zeros, l);
    }
  }

  lemma PaddedCode(tree: seq<Cell>, lens: seq<nat>, padded: seq<nat>)
    requires |lens| <= |padded| <= |tree| && padded[..|lens|] == lens
             && forall o | |lens| <= o < |padded| :: padded[o] == 0
    requires CodedTree(tree, lens) && CompleteCode(lens) && forall o | 0 <= o < |padded| :: tree[o].dl == padded[o]
    ensures CodedTree(tree, padded) && CompleteCode(padded)
  {
    hide Kraft, IsReverse;
    PaddedCounts(lens, padded);
    forall l | 1 <= l <= MAX_BITS ensures Counts(padded)[l] == Count(padded, l) {
    }
    forall o | 0 <= o < |padded| && padded[o] != 0
      ensures IsReverse(tree[o].fc, CodeOf(Counts(padded), padded, o), padded[o])
    {
      assert padded[o] == lens[o] && padded[..o] == lens[..o];
    }
  }

  /** The run-length form of the lengths. */
  function Runs(u: Codes): seq<Rle.Token> { Rle.AllTokens(u.lens) + Rle.AllTokens(u.dists) }

  // Sending

  /** `max_blindex`: how many lengths of the code-length code must be sent. There are never fewer than
      four, because some length is sent as itself, and the first three places are those of the runs. */
  method BlCodes(bl: seq<nat>, ghost o: nat) returns (n: nat)
    requires |bl| == BL_CODES && o < 16 && bl[o] != 0
    ensures 4 <= n <= BL_CODES && forall k | n <= k < BL_CODES :: bl[PlaceOf(k)] == 0
    ensures bl[PlaceOf(n - 1)] != 0
  {
    var r: nat := BL_CODES - 1;
    while r >= 3 && bl[PlaceOf(r)] == 0
      invariant 2 <= r < BL_CODES && forall k | r < k < BL_CODES :: bl[PlaceOf(k)] == 0
    {
      r := r - 1;
    }
    assert r >= 3 by {
      OrderCovers();
      assert o in BL_ORDER;
      var k :| 0 <= k < BL_CODES && BL_ORDER[k] == o;
      assert PlaceOf(k) == o && k <= r;
    }
    n := r + 1;
  }

  /** A token for a length that is not zero, sent as itself. */
  predicate Plain(t: Rle.Token) { 1 <= t.sym < 16 }

  lemma {:induction false} OnlyZeros(acc: seq<nat>, ts: seq<Rle.Token>, total: nat)
    requires (forall i | 0 <= i < |acc| :: acc[i] == 0) && forall i | 0 <= i < |ts| :: !Plain(ts[i])
    ensures var r := Rle.Fill(acc, ts, total); r.Done? ==> forall i | 0 <= i < |r.lens| :: r.lens[i] == 0
    decreases |ts|
  {
    if |acc| < total && ts != [] {
      if ts[0].sym < 16 {
        OnlyZeros(acc + [ts[0].sym], ts[1..], total);
      } else if ts[0].sym != Rle.REP_3_6 || acc != [] {
        var run := Rle.Run(acc, ts[0]);
        assert forall i | 0 <= i < |run| :: run[i] == 0;
        assert Rle.Fill(acc, ts, total)
            == if |acc| + |run| > total then Rle.BadRepeat else Rle.Fill(acc + run, ts[1..], total);
        OnlyZeros(acc + run, ts[1..], total);
      }
    }
  }

  lemma SomePlain(u: Codes) returns (i: nat)
    requires TwoCodes(u)
    ensures i < |Runs(u)| && Plain(Runs(u)[i])
  {
    var ts := Runs(u);
    Rle.HeaderRoundTrip(u.lens, u.dists);
    assert (u.lens + u.dists)[END_BLOCK] == u.lens[END_BLOCK] != 0;
    if forall k | 0 <= k < |ts| :: !Plain(ts[k]) {
      OnlyZeros([], ts, |u.lens| + |u.dists|);
    }
    i :| i < |ts| && Plain(ts[i]);
  }

  /** The tokens of `send_tree`, each a code word with its extra bits. */
  method SendRuns(w: BitWriter, tree: seq<Cell>, ts: seq<Rle.Token>, ghost bl: seq<nat>)
    requires w.Valid() && CodedTree(tree, bl) && RunsInUse(bl, ts)
    modifies w
    ensures w.Valid() && w.Sent() == old(w.Sent()) + RunBits(bl, ts)
  {
    hide CodedTree, Spelled, BitsOf, Pow2, AllBits;
    TreeLengths(tree, bl);
    assert ts[0..] == ts;
    for i := 0 to |ts|
      invariant w.Valid() && w.Sent() + RunBits(bl, ts[i..]) == old(w.Sent()) + RunBits(bl, ts)
    {
      ghost var before, later := w.Sent(), RunBits(bl, ts[i + 1..]);
      assert ts[i..][1..] == ts[i + 1..];
      SendCode(w, tree, ts[i].sym, bl);
      SendExtra(w, ts[i].extra, Rle.ExtraBits(ts[i].sym));
      Appended3(before, Spelled(bl, ts[i].sym), BitsOf(ts[i].extra, Rle.ExtraBits(ts[i].sym)), later);
    }
    assert ts[|ts|..] == [];
  }

  lemma Appended3(a: seq<bool>, b: seq<bool>, c: seq<bool>, d: seq<bool>)
    ensures ((a + b) + c) + d == a + ((b + c) + d)
  {
  }

  lemma TreeLengths(tree: seq<Cell>, lens: seq<nat>)
    requires CodedTree(tree, lens)
    ensures Lengths15(lens) && |lens| <= |tree|
  {
  }

  method SendBlLengths(w: BitWriter, bl: seq<nat>, n: nat)
    requires w.Valid() && |bl| == BL_CODES && n <= BL_CODES && Within(bl, MAX_BL_BITS)
    modifies w
    ensures w.Valid() && w.Sent() == old(w.Sent()) + BlBits(bl, n, 0)
  {
    hide AllBits, BitsOf, Pow2, PlaceOf;
    for k := 0 to n
      invariant w.Valid() && w.Sent() + BlBits(bl, n, k) == old(w.Sent()) + BlBits(bl, n, 0)
    {
      ghost var before := w.Sent();
      EightIsPower();
      w.SendBits(bl[PlaceOf(k)], 3);
      Regroup(before, BitsOf(bl[PlaceOf(k)], 3), BlBits(bl, n, k + 1));
    }
    assert w.Sent() + [] == w.Sent();
  }

  lemma EightIsPower()
    ensures Pow2(3) == 8
  {
  }

  /** `send_all_trees`. */
  method SendTrees(w: BitWriter, tree: seq<Cell>, h: Header)
    requires w.Valid() && Described(h) && CodedTree(tree, h.bl)
    modifies w
    ensures w.Valid() && w.Sent() == old(w.Sent()) + TreeBits(h)
  {
    hide CompleteCode, TwoCodes, RunsInUse, AllBits, BitsOf, CodedTree, BlBits, RunBits, Within, Pow2, Acceptable,
         RunsTo;
    SmallPowers();
    TreeLengths(tree, h.bl);
    w.SendBits(|h.u.lens| - 257, 5);
    w.SendBits(|h.u.dists| - 1, 5);
    w.SendBits(h.blCodes - 4, 4);
    ghost var a, b, c := BitsOf(|h.u.lens| - 257, 5), BitsOf(|h.u.dists| - 1, 5), BitsOf(h.blCodes - 4, 4);
    SendBlLengths(w, h.bl, h.blCodes);
    SendRuns(w, tree, h.runs, h.bl);
    Appended5(old(w.Sent()), a, b, c, BlBits(h.bl, h.blCodes, 0), RunBits(h.bl, h.runs));
  }

  lemma Appended5(s: seq<bool>, a: seq<bool>, b: seq<bool>, c: seq<bool>, d: seq<bool>, e: seq<bool>)
    ensures ((((s + a) + b) + c) + d) + e == s + ((a + (b + c)) + (d + e))
  {
  }

  // The code of the lengths

  /** The code for the run-length form, from its frequencies. */
  method BlCoding(freq: seq<nat>, bltree: array<Cell>) returns (bl: seq<nat>)
    requires |freq| == BL_CODES && 2 * BL_CODES <= bltree.Length
    modifies bltree
    ensures |bl| == BL_CODES && CodedTree(bltree[..], bl) && CompleteCode(bl) && Within(bl, MAX_BL_BITS)
    ensures forall o | 0 <= o < BL_CODES && freq[o] != 0 :: InUse(bl, o)
  {
    hide CodedTree, CompleteCode, Optimal, Light, Pow2;
    for o := 0 to BL_CODES
      invariant forall q | 0 <= q < o :: bltree[q].fc == freq[q]
    {
      bltree[o] := bltree[o].(fc := freq[o]);
    }
    SmallPowers();
    var maxCode;
    ghost var syms, weights;
    maxCode, syms, weights := Coding(bltree, BL_CODES, MAX_BL_BITS);
    bl := Lengths(bltree[..BL_CODES]);
    ghost var lens := Lengths(bltree[..maxCode + 1]);
    assert bl[..maxCode + 1] == lens;
    PaddedCode(bltree[..], lens, bl);
  }

  lemma {:induction false} TallyPositive(ts: seq<Rle.Token>, i: nat)
    requires i < |ts|
    ensures 0 < Rle.Tally(ts, ts[i].sym)
    decreases |ts|
  {
    if i < |ts| - 1 {
      TallyPositive(ts[..|ts| - 1], i);
    }
  }

  lemma LimitIsPower(sym: nat)
    ensures Rle.Limit(Rle.ExtraBits(sym)) == Pow2(Rle.ExtraBits(sym)) && Rle.ExtraBits(sym) <= 16
  {
    assert Pow2(2) == 4 && Pow2(3) == 8;
    assert Pow2(7) == 16 * Pow2(3);
  }

  lemma TokensFitAll(lens: seq<nat>)
    requires Lengths15(lens)
    ensures forall i | 0 <= i < |Rle.AllTokens(lens)| :: Rle.Fits(Rle.AllTokens(lens)[i])
  {
    Rle.TokensFit(lens, 0, -1, 0);
  }

  /** Every token of the run-length form has a code word. */
  lemma RunsHaveCodes(u: Codes, freq: seq<nat>, mid: seq<nat>, zeros: seq<nat>, bl: seq<nat>)
    requires Lengths15(u.lens) && Lengths15(u.dists) && |freq| == BL_CODES && |zeros| == BL_CODES
    requires Rle.Counts(mid, zeros, Rle.AllTokens(u.lens)) && Rle.Counts(freq, mid, Rle.AllTokens(u.dists))
    requires forall o | 0 <= o < BL_CODES && freq[o] != 0 :: InUse(bl, o)
    ensures RunsInUse(bl, Runs(u))
  {
    hide Rle.AllTokens, Rle.ExtraBits, Rle.Limit;
    var ts := Runs(u);
    TokensFitAll(u.lens);
    TokensFitAll(u.dists);
    forall i | 0 <= i < |ts| ensures InUse(bl, ts[i].sym) && ts[i].extra < Pow2(Rle.ExtraBits(ts[i].sym)) {
      assert Rle.Fits(ts[i]);
      LimitIsPower(ts[i].sym);
      TallyPositive(ts, i);
      Rle.TallyAppends(Rle.AllTokens(u.lens), Rle.AllTokens(u.dists), ts[i].sym);
    }
  }

  /** A guard behind the last length leaves the code as it is. */
  lemma GuardKeeps(cells: seq<Cell>, after: seq<Cell>, maxCode: nat, lens: seq<nat>)
    requires maxCode + 1 < |cells| && lens == Lengths(cells[..maxCode + 1]) && CodedTree(cells, lens)
    requires after == cells[maxCode + 1 := cells[maxCode + 1].(dl := Rle.GUARD)]
    ensures CodedTree(after, lens) && Lengths(after[..maxCode + 1]) == lens
  {
    assert after[..maxCode + 1] == cells[..maxCode + 1];
  }

  /** `scan_tree` on one tree. */
  method Scan(tree: array<Cell>, maxCode: nat, freq0: seq<nat>, ghost lens: seq<nat>) returns (freq: seq<nat>)
    requires maxCode + 1 < tree.Length && |freq0| == BL_CODES && lens == Lengths(tree[..maxCode + 1])
             && CodedTree(tree[..], lens)
    modifies tree
    ensures |freq| == BL_CODES && Rle.Counts(freq, freq0, Rle.AllTokens(lens))
    ensures CodedTree(tree[..], lens) && Lengths(tree[..maxCode + 1]) == lens && tree[maxCode + 1].dl == Rle.GUARD
    ensures forall o | 0 <= o <= maxCode :: tree[o].dl <= 15
  {
    hide Rle.AllTokens, Rle.Tally, IsReverse, CodeOf;
    freq := Rle.ScanTree(tree, maxCode, freq0);
    GuardKeeps(old(tree[..]), tree[..], maxCode, lens);
  }

  lemma RunsToHeader(u: Codes)
    requires Lengths15(u.lens) && Lengths15(u.dists)
    ensures RunsTo([], Runs(u), u.lens + u.dists)
  {
    var total := |u.lens| + |u.dists|;
    Rle.HeaderRoundTrip(u.lens, u.dists);
    Rle.TreeRoundTrip([], u.lens, Rle.AllTokens(u.dists), total + 1);
    assert [] + u.lens == u.lens;
    Rle.TreeRoundTrip(u.lens, u.dists, [], total + 1);
    assert Rle.AllTokens(u.dists) + [] == Rle.AllTokens(u.dists);
  }

  /** Everything about a block with codes of its own that is settled before it is sent. */
  method PrepareBlock(t: Tables, tokens: seq<Token>, tree: array<Cell>, dtree: array<Cell>, bltree: array<Cell>)
    returns (h: Header)
    requires BlockBody.Filled(t) && forall i | 0 <= i < |tokens| :: Tallied(tokens[i])
    requires 2 * L_CODES < tree.Length && 2 * D_CODES < dtree.Length && 2 * BL_CODES < bltree.Length
    requires tree != dtree && bltree != tree && bltree != dtree
    modifies tree, dtree, bltree
    ensures Described(h) && AllHaveCodes(h.u, AllCoded(t, tokens))
    ensures CodedTree(tree[..], h.u.lens) && CodedTree(dtree[..], h.u.dists) && CodedTree(bltree[..], h.bl)
  {
    hide BlockBody.Filled, CodeToken, CodedTree, CompleteCode, LitUses, DistUses, Within, Rle.Counts, Rle.AllTokens,
         Runs, Lengths15, HasCodes, RunsTo, Acceptable, RunsInUse;
    Tally(t, tokens, tree, dtree);
    ghost var freqs, dfreqs, cs := tree[..], dtree[..], AllCoded(t, tokens);
    EndIsCounted(cs);
    EnoughWords();
    var lmax, dmax;
    ghost var syms, weights;
    lmax, syms, weights := Coding(tree, L_CODES, MAX_BITS);
    dmax, syms, weights := Coding(dtree, D_CODES, MAX_BITS);
    var u := Codes.Codes(Lengths(tree[..lmax + 1]), Lengths(dtree[..dmax + 1]));
    assert InUse(u.lens, END_BLOCK);
    AreTwoCodes(tree[..], dtree[..], u);
    forall i | 0 <= i < |tokens| ensures HasCodes(u, cs[i]) {
      CodesFor(t, tokens, freqs, dfreqs, u, i);
    }
    var bl, n, runs := CodeLengths(tree, lmax, dtree, dmax, bltree, u);
    h := Header(u, bl, n, runs);
    CompleteIsFull(Lens, u.lens);
    CompleteIsFull(Dists, u.dists);
  }

  /** `build_bl_tree`, and the run-length form `send_tree` is going to send. */
  method CodeLengths(tree: array<Cell>, lmax: nat, dtree: array<Cell>, dmax: nat, bltree: array<Cell>, ghost u: Codes)
    returns (bl: seq<nat>, n: nat, runs: seq<Rle.Token>)
    requires lmax + 1 < tree.Length && dmax + 1 < dtree.Length && 2 * BL_CODES < bltree.Length
    requires tree != dtree && bltree != tree && bltree != dtree
    requires u == Codes.Codes(Lengths(tree[..lmax + 1]), Lengths(dtree[..dmax + 1])) && TwoCodes(u)
    requires CodedTree(tree[..], u.lens) && CodedTree(dtree[..], u.dists)
    modifies tree, dtree, bltree
    ensures CodedTree(tree[..], u.lens) && CodedTree(dtree[..], u.dists) && CodedTree(bltree[..], bl)
    ensures |bl| == BL_CODES && CompleteCode(bl) && Within(bl, MAX_BL_BITS) && 4 <= n <= BL_CODES
    ensures forall k | n <= k < BL_CODES :: bl[PlaceOf(k)] == 0
    ensures RunsInUse(bl, runs) && RunsTo([], runs, u.lens + u.dists)
  {
    hide CodedTree, CompleteCode, Within, Rle.Counts, Rle.AllTokens, RunsInUse, RunsTo, Rle.Tally;
    var zeros := seq(BL_CODES, _ => 0);
    var mid := Scan(tree, lmax, zeros, u.lens);
    var freq := Scan(dtree, dmax, mid, u.dists);
    bl := BlCoding(freq, bltree);
    RunsHaveCodes(u, freq, mid, zeros, bl);
    ghost var i := SomePlain(u);
    RunUsed(bl, Runs(u), i);
    n := BlCodes(bl, Runs(u)[i].sym);
    var lruns := Rle.SendTree(tree, lmax);
    var druns := Rle.SendTree(dtree, dmax);
    runs := lruns + druns;
    RunsToHeader(u);
  }

  lemma RunUsed(bl: seq<nat>, ts: seq<Rle.Token>, i: nat)
    requires RunsInUse(bl, ts) && i < |ts|
    ensures InUse(bl, ts[i].sym)
  {
  }

  lemma EnoughWords()
    ensures D_CODES <= L_CODES <= Pow2(MAX_BITS)
  {
    SmallPowers();
    Pow2Monotone(9, MAX_BITS);
  }

  lemma AreTwoCodes(cells: seq<Cell>, dcells: seq<Cell>, u: Codes)
    requires CodedTree(cells, u.lens) && CodedTree(dcells, u.dists) && InUse(u.lens, END_BLOCK)
    ensures TwoCodes(u) && Lengths15(u.lens) && Lengths15(u.dists)
  {
  }

  lemma CodesFor(t: Tables, tokens: seq<Token>, freqs: seq<Cell>, dfreqs: seq<Cell>, u: Codes, i: nat)
    requires BlockBody.Filled(t) && (forall k | 0 <= k < |tokens| :: Tallied(tokens[k])) && i < |tokens|
    requires CountsUses(freqs, dfreqs, AllCoded(t, tokens))
    requires forall o | 0 <= o < L_CODES && freqs[o].fc != 0 :: InUse(u.lens, o)
    requires forall o | 0 <= o < D_CODES && dfreqs[o].fc != 0 :: InUse(u.dists, o)
    ensures HasCodes(u, AllCoded(t, tokens)[i])
  {
    hide BlockBody.Filled, CodeToken, Meaning, InUse, LitUses, DistUses, Sound;
    var cs, c := AllCoded(t, tokens), CodeToken(t, tokens[i]);
    CodeTokenMeans(t, tokens[i]);
    SymbolBounds(c);
    assert cs[i] == c;
    UsedIsCounted(cs, i);
  }

  /** A block with codes of its own. */
  method SendDynamic(w: BitWriter, t: Tables, tokens: seq<Token>, last: bool, tree: array<Cell>, dtree: array<Cell>,
                     bltree: array<Cell>)
    returns (ghost b: Sent)
    requires w.Valid() && BlockBody.Filled(t) && forall i | 0 <= i < |tokens| :: Tallied(tokens[i])
    requires 2 * L_CODES < tree.Length && 2 * D_CODES < dtree.Length && 2 * BL_CODES < bltree.Length
    requires tree != dtree && bltree != tree && bltree != dtree
    modifies w, tree, dtree, bltree
    ensures w.Valid() && Legible(b) && b.last == last && !b.Raw? && TokensOf(b) == tokens
    ensures w.Sent() == old(w.Sent()) + BlockBits(b)
  {
    hide BlockBody.Filled, CodeToken, CodedTree, AllBits, BitsOf, Sound, Meaning, AllHaveCodes, Described, TreeBits,
         BodyBits, AllCoded, Pow2;
    SmallPowers();
    var h := PrepareBlock(t, tokens, tree, dtree, bltree);
    ghost var cs := AllCoded(t, tokens);
    AllCodedMean(t, tokens);
    DescribedCodes(h);
    var v := if last then 5 else 4;
    w.SendBits(v, 3);
    SendTrees(w, bltree[..], h);
    SendBody(w, t, tree[..], dtree[..], tokens, h.u);
    b := Dynamic(last, h, cs);
    Regroup(old(w.Sent()), BitsOf(v, 3), TreeBits(h));
    Regroup3(old(w.Sent()), BitsOf(v, 3), TreeBits(h), BodyBits(h.u, cs));
  }

  lemma DescribedCodes(h: Header)
    requires Described(h)
    ensures TwoCodes(h.u)
  {
  }

  // The fixed codes

  /** One of the loops of `tr_static_init` that give a range of symbols their length. */
  method GiveLengths(tree: array<Cell>, from: nat, to: nat, l: nat, counts0: seq<nat>) returns (counts: seq<nat>)
    requires from <= to <= tree.Length && l < |counts0|
    modifies tree
    ensures forall o | 0 <= o < tree.Length :: tree[o].dl == if from <= o < to then l else old(tree[o].dl)
    ensures counts == counts0[l := counts0[l] + (to - from)]
  {
    counts := counts0;
    for n := from to to
      invariant forall o | 0 <= o < tree.Length :: tree[o].dl == if from <= o < n then l else old(tree[o].dl)
      invariant counts == counts0[l := counts0[l] + (n - from)]
    {
      tree[n] := tree[n].(dl := l);
      counts := counts[l := counts[l] + 1];
    }
  }

  lemma FixedMatches(counts: seq<nat>)
    requires |counts| == MAX_BITS + 1
    requires forall l | 0 <= l <= MAX_BITS ::
               counts[l] == if l == 7 then 24 else if l == 8 then 152 else if l == 9 then 112 else 0
    ensures Matches(counts, FixedLens(288))
  {
    forall l | 1 <= l <= MAX_BITS ensures counts[l] == Count(FixedLens(288), l) {
      FixedCounts(l);
    }
  }

  /** The literal and length codes of `tr_static_init`. */
  method StaticLengths() returns (stree: seq<Cell>)
    ensures CodedTree(stree, FixedLens(288))
  {
    hide CodedTree, Kraft, CanonicalCodes.Coded, Count, FixedLens, Matches;
    var tree := new Cell[288];
    var counts := seq(MAX_BITS + 1, _ => 0);
    counts := GiveLengths(tree, 0, 144, 8, counts);
    counts := GiveLengths(tree, 144, 256, 9, counts);
    counts := GiveLengths(tree, 256, 280, 7, counts);
    counts := GiveLengths(tree, 280, 288, 8, counts);
    FixedMatches(counts);
    GenCodes(tree, 287, counts);
    assert Lengths(tree[..288]) == FixedLens(288) && tree[..288] == tree[..];
    TreeIsCoded(tree[..], counts, FixedLens(288));
    stree := tree[..];
  }

  /** The code of a distance symbol is its number. */
  lemma FiveIs(n: nat, o: nat)
    requires o < n
    ensures CodeOf(Counts(Fives(n)), Fives(n), o) == o
  {
    var lens := Fives(n);
    forall l | 1 <= l <= 4 ensures Count(lens, l) == 0 {
      CountOfMany(lens, l, 5);
    }
    KraftZero(Counts(lens), 4);
    CountOfMany(lens[..o], 5, 5);
  }

  /** The distance codes of `tr_static_init`. */
  method StaticDistances() returns (sdtree: seq<Cell>)
    ensures CodedTree(sdtree, Fives(D_CODES))
  {
    hide IsReverse, Kraft, Count, CodeOf;
    var tree := new Cell[D_CODES];
    for n := 0 to D_CODES
      invariant forall o | 0 <= o < n :: tree[o].dl == 5 && IsReverse(tree[o].fc, o, 5)
    {
      var code := BiReverse(n, 5);
      tree[n] := Cell(code, 5);
    }
    sdtree := tree[..];
    forall o | 0 <= o < D_CODES
      ensures IsReverse(sdtree[o].fc, CodeOf(Counts(Fives(D_CODES)), Fives(D_CODES), o), 5)
    {
      FiveIs(D_CODES, o);
    }
  }

  /** The codes the deflater sends a fixed block with: of the distances it has only those it needs. */
  ghost function SenderCodes(): Codes { Codes.Codes(FixedLens(288), Fives(D_CODES)) }

  lemma SameDistance(c: Coded)
    requires TwoCodes(SenderCodes()) && TwoCodes(FixedCodes()) && HasCodes(SenderCodes(), c)
    ensures HasCodes(FixedCodes(), c) && CodedBits(FixedCodes(), c) == CodedBits(SenderCodes(), c)
  {
    hide CodeWord, CodeOf;
    if c.CMatch? {
      FiveIs(D_CODES, c.dcode);
      FiveIs(32, c.dcode);
    }
  }

  lemma {:induction false} SameBody(cs: seq<Coded>)
    requires TwoCodes(SenderCodes()) && TwoCodes(FixedCodes()) && AllHaveCodes(SenderCodes(), cs)
    ensures AllHaveCodes(FixedCodes(), cs) && BodyBits(FixedCodes(), cs) == BodyBits(SenderCodes(), cs)
    decreases |cs|
  {
    hide CodedBits, HasCodes, Spelled;
    if cs != [] {
      SameDistance(cs[0]);
      SameBody(cs[1..]);
      forall i | 0 <= i < |cs| ensures HasCodes(FixedCodes(), cs[i]) {
        SameDistance(cs[i]);
      }
    } else {
      SameEnd();
    }
  }

  lemma SameEnd()
    requires TwoCodes(SenderCodes()) && TwoCodes(FixedCodes())
    ensures Spelled(FixedCodes().lens, END_BLOCK) == Spelled(SenderCodes().lens, END_BLOCK)
  {
  }

  /** Every token has a fixed code. */
  lemma FixedHasCodes(t: Tables, tokens: seq<Token>)
    requires BlockBody.Filled(t) && forall i | 0 <= i < |tokens| :: Tallied(tokens[i])
    ensures AllHaveCodes(SenderCodes(), AllCoded(t, tokens))
  {
    hide BlockBody.Filled, CodeToken, Meaning;
    forall i | 0 <= i < |tokens| ensures HasCodes(SenderCodes(), AllCoded(t, tokens)[i]) {
      CodeTokenMeans(t, tokens[i]);
      SymbolBounds(CodeToken(t, tokens[i]));
    }
  }

  lemma SenderTwo()
    ensures TwoCodes(SenderCodes())
  {
  }

  /** A block with the fixed codes. */
  method SendFixed(w: BitWriter, t: Tables, tokens: seq<Token>, last: bool, stree: seq<Cell>, sdtree: seq<Cell>)
    returns (ghost b: Sent)
    requires w.Valid() && BlockBody.Filled(t) && forall i | 0 <= i < |tokens| :: Tallied(tokens[i])
    requires CodedTree(stree, FixedLens(288)) && CodedTree(sdtree, Fives(D_CODES))
    modifies w
    ensures w.Valid() && Legible(b) && b.last == last && !b.Raw? && TokensOf(b) == tokens
    ensures w.Sent() == old(w.Sent()) + BlockBits(b)
  {
    hide BlockBody.Filled, CodeToken, CodedTree, AllBits, BitsOf, Sound, Meaning, AllHaveCodes, BodyBits, AllCoded,
         Pow2, FixedCodes, TwoCodes, CompleteCode, Readable;
    SmallPowers();
    FixedTwo();
    SenderTwo();
    ghost var cs := AllCoded(t, tokens);
    AllCodedMean(t, tokens);
    FixedHasCodes(t, tokens);
    SameBody(cs);
    var v := if last then 3 else 2;
    w.SendBits(v, 3);
    SendBody(w, t, stree, sdtree, tokens, SenderCodes());
    b := Fixed(last, cs);
    Regroup(old(w.Sent()), BitsOf(v, 3), BodyBits(FixedCodes(), cs));
  }

  // Blocks sent as they are

  /** `copy_block` after `bi_windup`. */
  method CopyBlock(w: BitWriter, data: seq<byte>)
    requires w.Valid() && w.biValid == 0 && |data| <= 65535
    modifies w
    ensures w.Valid() && w.biValid == 0
    ensures BytesBits(w.pending)
         == BytesBits(old(w.pending)) + (BitsOf(|data|, 16) + (BitsOf(65535 - |data|, 16) + BytesBits(data)))
  {
    hide BitsOf, Pow2, BytesBits;
    Pow2Literals();
    ghost var start := w.pending;
    w.PutShort(|data|);
    w.PutShort(65535 - |data|);
    w.pending := w.pending + data;
    ShortBits(|data|);
    ShortBits(65535 - |data|);
    BytesBitsAppend(start + Short(|data|) + Short(65535 - |data|), data);
    BytesBitsAppend(start + Short(|data|), Short(65535 - |data|));
    BytesBitsAppend(start, Short(|data|));
    Regroup3(BytesBits(start), BitsOf(|data|, 16), BitsOf(65535 - |data|, 16), BytesBits(data));
  }

  /** `bi_windup`, with the bits it fills up. */
  method PadOut(w: BitWriter) returns (ghost pad: seq<bool>)
    requires w.Valid()
    modifies w
    ensures w.Valid() && w.biValid == 0 && |pad| < 8 && BytesBits(w.pending) == old(w.Sent()) + pad
  {
    hide BitsOf, Pow2, BytesBits, AllBits;
    ghost var sent := w.Sent();
    w.Windup();
    ghost var k: nat :| k < 8 && BytesBits(w.pending) == sent + BitsOf(0, k);
    pad := BitsOf(0, k);
  }

  /** `_tr_stored_block`. */
  method SendRaw(w: BitWriter, data: seq<byte>, last: bool) returns (ghost b: Sent)
    requires w.Valid() && |data| <= 65535
    modifies w
    ensures w.Valid() && Legible(b) && b.last == last && b.Raw? && TokensOf(b) == [Stored(data)]
    ensures w.Sent() == old(w.Sent()) + BlockBits(b) && |w.Sent()| % 8 == 0
  {
    hide BitsOf, Pow2, BytesBits, AllBits, RawBits;
    SmallPowers();
    var v := if last then 1 else 0;
    w.SendBits(v, 3);
    ghost var pad := PadOut(w);
    CopyBlock(w, data);
    SentWhole(w);
    b := Raw(last, pad, data);
    RawBitsAre(old(w.Sent()), BitsOf(v, 3), pad, data);
  }

  lemma RawBitsAre(sent: seq<bool>, kind: seq<bool>, pad: seq<bool>, data: seq<byte>)
    requires |data| <= 65535
    ensures ((sent + kind) + pad) + (BitsOf(|data|, 16) + (BitsOf(65535 - |data|, 16) + BytesBits(data)))
         == sent + (kind + RawBits(pad, data))
  {
    hide BitsOf, BytesBits;
    Regroup3(sent, kind, pad, BitsOf(|data|, 16) + (BitsOf(65535 - |data|, 16) + BytesBits(data)));
  }

  lemma SentWhole(w: BitWriter)
    requires w.Valid() && w.biValid == 0
    ensures w.Sent() == BytesBits(w.pending)
  {
    assert BytesBits(w.pending) + [] == BytesBits(w.pending);
  }

  // `_tr_flush_block`

  /** What is to be sent, and how; which way is the shortest does not matter here. */
  datatype Block = Own(tokens: seq<Token>) | Common(tokens: seq<Token>) | AsIs(data: seq<byte>)

  predicate Sendable(k: Block) {
    match k
    case Own(tokens) => forall i | 0 <= i < |tokens| :: Tallied(tokens[i])
    case Common(tokens) => forall i | 0 <= i < |tokens| :: Tallied(tokens[i])
    case AsIs(data) => |data| <= 65535
  }

  function Content(k: Block): seq<Token> {
    match k
    case Own(tokens) => tokens
    case Common(tokens) => tokens
    case AsIs(data) => [Stored(data)]
  }

  /** The trees the deflater has: its own for a block, and those of the fixed codes. */
  class Trees {
    const t: Tables
    const tree: array<Cell>
    const dtree: array<Cell>
    const bltree: array<Cell>
    const stree: seq<Cell>
    const sdtree: seq<Cell>

    ghost predicate Valid() {
      && BlockBody.Filled(t) && CodedTree(stree, FixedLens(288)) && CodedTree(sdtree, Fives(D_CODES))
      && 2 * L_CODES < tree.Length && 2 * D_CODES < dtree.Length && 2 * BL_CODES < bltree.Length
      && tree != dtree && bltree != tree && bltree != dtree
    }

    /** `_tr_init`. */
    constructor ()
      ensures Valid() && fresh(tree) && fresh(dtree) && fresh(bltree)
    {
      hide BlockBody.Filled, CodedTree;
      var table := StaticInit();
      var st := StaticLengths();
      var sd := StaticDistances();
      t, stree, sdtree := table, st, sd;
      tree := new Cell[2 * L_CODES + 1];
      dtree := new Cell[2 * D_CODES + 1];
      bltree := new Cell[2 * BL_CODES + 1];
    }
  }

  method FlushBlock(w: BitWriter, z: Trees, k: Block, last: bool) returns (ghost b: Sent)
    requires w.Valid() && z.Valid() && Sendable(k)
    modifies w, z.tree, z.dtree, z.bltree
    ensures w.Valid() && Legible(b) && b.last == last && TokensOf(b) == Content(k)
    ensures w.Sent() == old(w.Sent()) + BlockBits(b) && (b.Raw? ==> |w.Sent()| % 8 == 0)
  {
    hide BlockBody.Filled, CodedTree, Legible, BlockBits, TokensOf, AllBits;
    match k
    case Own(tokens) => b := SendDynamic(w, z.t, tokens, last, z.tree, z.dtree, z.bltree);
    case Common(tokens) => b := SendFixed(w, z.t, tokens, last, z.stree, z.sdtree);
    case AsIs(data) => b := SendRaw(w, data, last);
  }
}

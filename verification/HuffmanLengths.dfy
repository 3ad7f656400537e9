/** Full binary trees laid out with every parent before its children, and what clamping
    their depths does to the Kraft sum. */
module TreeShape {
  import opened BitStrings

  /** How many positions from `j` on have parent `k`. */
  function Kids(dad: seq<nat>, k: nat, j: nat): nat
    decreases |dad| - j
  {
    if j >= |dad| then 0 else (if dad[j] == k then 1 else 0) + Kids(dad, k, j + 1)
  }

  /** Position 0 is the root; every inner node has exactly two children, further on. */
  ghost predicate FullTree(dad: seq<nat>, leaf: seq<bool>) {
    && |dad| == |leaf| >= 1
    && !leaf[0]
    && (forall k :: 1 <= k < |dad| ==> dad[k] < k)
    && (forall k :: 0 <= k < |dad| ==> Kids(dad, k, k + 1) == if leaf[k] then 0 else 2)
  }

  function LeafSum(leaf: seq<bool>, x: seq<int>, m: nat): int
    requires m <= |leaf| == |x|
  {
    if m == 0 then 0 else LeafSum(leaf, x, m - 1) + (if leaf[m - 1] then x[m - 1] else 0)
  }

  function SumFrom1(x: seq<int>, m: nat): int
    requires m <= |x|
  {
    if m <= 1 then 0 else SumFrom1(x, m - 1) + x[m - 1]
  }

  /** What the nodes before `m` owe to their children from `j` on. */
  function Owed(dad: seq<nat>, h: seq<int>, m: nat, j: nat): int
    requires m <= |h|
    decreases |dad| - j
  {
    if j >= |dad| then 0 else (if dad[j] < m then h[dad[j]] else 0) + Owed(dad, h, m, j + 1)
  }

  function Times(x: int, n: nat): int {
    if n == 0 then 0 else x + Times(x, n - 1)
  }

  lemma {:induction false} OwedStep(dad: seq<nat>, h: seq<int>, m: nat, j: nat)
    requires m < |h|
    ensures Owed(dad, h, m + 1, j) == Owed(dad, h, m, j) + Times(h[m], Kids(dad, m, j))
    decreases |dad| - j
  {
    if j < |dad| {
      OwedStep(dad, h, m, j + 1);
    }
  }

  lemma OwedByNode(dad: seq<nat>, leaf: seq<bool>, h: seq<int>, m: nat)
    requires FullTree(dad, leaf) && |h| == |dad| && m < |dad|
    ensures Owed(dad, h, m + 1, m + 1) == Owed(dad, h, m, m + 1) + (if leaf[m] then 0 else 2 * h[m])
  {
    OwedStep(dad, h, m, m + 1);
    assert Times(h[m], 2) == h[m] + Times(h[m], 1);
  }

  /** Let every inner node `k` hand `h[k]` to each child, and every node lose or gain
      `e[k]` on the way.  Then the leaves receive twice the root's share, plus the sum of
      the gains. */
  lemma {:induction false} Conservation(dad: seq<nat>, leaf: seq<bool>, h: seq<int>, x: seq<int>, e: seq<int>, m: nat)
    requires FullTree(dad, leaf) && |h| == |x| == |e| == |dad|
    requires forall k :: 1 <= k < |dad| ==> (if leaf[k] then x[k] else 2 * h[k]) == h[dad[k]] + e[k]
    requires 1 <= m <= |dad|
    ensures LeafSum(leaf, x, m) + Owed(dad, h, m, m) == 2 * h[0] + SumFrom1(e, m)
    decreases m
  {
    OwedByNode(dad, leaf, h, m - 1);
    if m == 1 {
      OwedNothing(dad, h, 1);
      assert LeafSum(leaf, x, 1) == LeafSum(leaf, x, 0);
    } else {
      Conservation(dad, leaf, h, x, e, m - 1);
      assert Owed(dad, h, m - 1, m - 1) == h[dad[m - 1]] + Owed(dad, h, m - 1, m);
    }
  }

  lemma {:induction false} OwedNothing(dad: seq<nat>, h: seq<int>, j: nat)
    ensures Owed(dad, h, 0, j) == 0
    decreases |dad| - j
  {
    if j < |dad| {
      OwedNothing(dad, h, j + 1);
    }
  }

  // Clamped depths

  function Depth(dad: seq<nat>, s: nat, k: nat): (d: nat)
    requires forall i :: 1 <= i < |dad| ==> dad[i] < i
    requires k < |dad|
    ensures d <= s
  {
    if k == 0 then 0
    else
      var p := Depth(dad, s, dad[k]) + 1;
      if p > s then s else p
  }

  function Depths(dad: seq<nat>, s: nat): (r: seq<nat>)
    requires forall i :: 1 <= i < |dad| ==> dad[i] < i
    ensures |r| == |dad| && forall k {:trigger r[k]} :: 0 <= k < |dad| ==> r[k] == Depth(dad, s, k) <= s
  {
    seq(|dad|, k requires 0 <= k < |dad| => Depth(dad, s, k))
  }

  /** The nodes among the first `m` whose depth had to be clamped. */
  function Overflow(dad: seq<nat>, lens: seq<nat>, s: nat, m: nat): nat
    requires m <= |dad| == |lens|
    requires forall i :: 1 <= i < |dad| ==> dad[i] < i
  {
    if m <= 1 then 0 else Overflow(dad, lens, s, m - 1) + (if lens[dad[m - 1]] + 1 > s then 1 else 0)
  }

  /** The weight of a leaf in the Kraft sum, in units of 2^-s. */
  function Weight(s: nat, l: nat): nat {
    if l <= s then Pow2(s - l) else 0
  }

  function LeafWeights(leaf: seq<bool>, lens: seq<nat>, s: nat, m: nat): nat
    requires m <= |leaf| == |lens|
  {
    if m == 0 then 0 else LeafWeights(leaf, lens, s, m - 1) + (if leaf[m - 1] then Weight(s, lens[m - 1]) else 0)
  }

  function LeafCount(leaf: seq<bool>, lens: seq<nat>, l: nat, m: nat): nat
    requires m <= |leaf| == |lens|
  {
    if m == 0 then 0 else LeafCount(leaf, lens, l, m - 1) + (if leaf[m - 1] && lens[m - 1] == l then 1 else 0)
  }

  /** Clamping adds half a unit for every clamped node. */
  lemma ClampedKraft(dad: seq<nat>, leaf: seq<bool>, s: nat)
    requires FullTree(dad, leaf) && 1 <= s
    ensures var lens := Depths(dad, s);
            2 * LeafWeights(leaf, lens, s, |dad|) == 2 * Pow2(s) + Overflow(dad, lens, s, |dad|)
  {
    var lens, n := Depths(dad, s), |dad|;
    var h := seq(n, k requires 0 <= k < n => Weight(s, lens[k]) as int);
    var x := seq(n, k requires 0 <= k < n => 2 * Weight(s, lens[k]));
    var e := seq(n, k requires 0 <= k < n => if 0 < k && lens[dad[k]] + 1 > s then 1 else 0);
    forall k | 1 <= k < n
      ensures (if leaf[k] then x[k] else 2 * h[k]) == h[dad[k]] + e[k]
    {
      assert Pow2(0) == 1;
    }
    Conservation(dad, leaf, h, x, e, n);
    WeightsAreSum(leaf, lens, s, x, n);
    OverflowIsSum(dad, lens, s, e, n);
  }

  lemma {:induction false} WeightsAreSum(leaf: seq<bool>, lens: seq<nat>, s: nat, x: seq<int>, m: nat)
    requires m <= |leaf| == |lens| == |x|
    requires forall k :: 0 <= k < |x| ==> x[k] == 2 * Weight(s, lens[k])
    ensures LeafSum(leaf, x, m) == 2 * LeafWeights(leaf, lens, s, m)
    decreases m
  {
    if m > 0 {
      WeightsAreSum(leaf, lens, s, x, m - 1);
    }
  }

  lemma {:induction false} OverflowIsSum(dad: seq<nat>, lens: seq<nat>, s: nat, e: seq<int>, m: nat)
    requires m <= |dad| == |lens| == |e|
    requires forall i :: 1 <= i < |dad| ==> dad[i] < i
    requires forall k :: 1 <= k < |e| ==> e[k] == if lens[dad[k]] + 1 > s then 1 else 0
    ensures SumFrom1(e, m) == Overflow(dad, lens, s, m)
    decreases m
  {
    if m > 1 {
      OverflowIsSum(dad, lens, s, e, m - 1);
    }
  }

  /** A node at the limit whose parent is above it. */
  ghost predicate Border(dad: seq<nat>, lens: seq<nat>, s: nat, k: nat)
    requires |dad| == |lens|
  {
    1 <= k < |dad| && dad[k] < k && lens[dad[k]] < s && lens[k] == s
  }

  lemma {:induction false} BorderAbove(dad: seq<nat>, s: nat, j: nat) returns (k: nat)
    requires forall i :: 1 <= i < |dad| ==> dad[i] < i
    requires 1 <= s && j < |dad| && Depth(dad, s, j) == s
    ensures Border(dad, Depths(dad, s), s, k)
    decreases j
  {
    if Depth(dad, s, dad[j]) < s {
      k := j;
    } else {
      k := BorderAbove(dad, s, dad[j]);
    }
  }

  lemma {:induction false} SomeOverflow(dad: seq<nat>, lens: seq<nat>, s: nat, m: nat) returns (k: nat)
    requires m <= |dad| == |lens| && forall i :: 1 <= i < |dad| ==> dad[i] < i
    requires 0 < Overflow(dad, lens, s, m)
    ensures 1 <= k < m && lens[dad[k]] + 1 > s
    decreases m
  {
    if lens[dad[m - 1]] + 1 > s {
      k := m - 1;
    } else {
      k := SomeOverflow(dad, lens, s, m - 1);
    }
  }

  lemma {:induction false} BorderCost(e: seq<int>, k: nat, m: nat)
    requires m <= |e| && forall i :: 1 <= i < |e| ==> e[i] <= 0
    requires 1 <= k < |e| && e[k] == -2
    ensures SumFrom1(e, m) <= if k < m then -2 else 0
    decreases m
  {
    if m > 1 {
      BorderCost(e, k, m - 1);
    }
  }

  lemma {:induction false} ShallowAndBottom(leaf: seq<bool>, lens: seq<nat>, s: nat, x: seq<int>, m: nat)
    requires m <= |leaf| == |lens| == |x| && forall k :: 0 <= k < |lens| ==> lens[k] <= s
    requires forall k :: 0 <= k < |x| ==> x[k] == if lens[k] < s then 2 * Weight(s, lens[k]) else 0
    ensures 2 * LeafWeights(leaf, lens, s, m) == LeafSum(leaf, x, m) + 2 * LeafCount(leaf, lens, s, m)
    decreases m
  {
    if m > 0 {
      ShallowAndBottom(leaf, lens, s, x, m - 1);
    }
  }

  /** When anything was clamped, more than half as many leaves sit at the limit. */
  lemma BottomLeaves(dad: seq<nat>, leaf: seq<bool>, s: nat)
    requires FullTree(dad, leaf) && 1 <= s
    requires 0 < Overflow(dad, Depths(dad, s), s, |dad|)
    ensures var lens := Depths(dad, s);
            Overflow(dad, lens, s, |dad|) + 2 <= 2 * LeafCount(leaf, lens, s, |dad|)
  {
    var lens, n := Depths(dad, s), |dad|;
    var h := seq(n, k requires 0 <= k < n => if lens[k] < s then Weight(s, lens[k]) as int else 0);
    var x := seq(n, k requires 0 <= k < n => if lens[k] < s then 2 * Weight(s, lens[k]) else 0);
    var e := seq(n, k requires 0 <= k < n => if 0 < k && lens[dad[k]] < s && lens[k] == s then -2 else 0);
    forall k | 1 <= k < n
      ensures (if leaf[k] then x[k] else 2 * h[k]) == h[dad[k]] + e[k]
    {
      assert Pow2(1) == 2;
    }
    Conservation(dad, leaf, h, x, e, n);
    var o := SomeOverflow(dad, lens, s, n);
    var k := BorderAbove(dad, s, dad[o]);
    BorderCost(e, k, n);
    ShallowAndBottom(leaf, lens, s, x, n);
    ClampedKraft(dad, leaf, s);
  }
}

/** `gen_bitlen`: code lengths from a Huffman tree, limited to what the format allows. */
module HuffmanLengths {
  import opened BitStrings
  import opened CanonicalCodes
  import opened TreeShape

  function TotalTo(counts: seq<nat>, m: nat): nat
    requires m <= |counts|
    decreases m, counts
  {
    if m == 0 then 0 else TotalTo(counts, m - 1) + counts[m - 1]
  }

  function Total(counts: seq<nat>): nat { TotalTo(counts, |counts|) }

  lemma {:induction false} TotalUpdate(counts: seq<nat>, l: nat, v: nat, m: nat)
    requires l < |counts| && m <= |counts|
    ensures TotalTo(counts[l := v], m) == TotalTo(counts, m) + if l < m then v - counts[l] else 0
    decreases m
  {
    if m > 0 {
      TotalUpdate(counts, l, v, m - 1);
    }
  }

  lemma {:induction false} KraftOneMore(counts: seq<nat>, l: nat, s: nat)
    requires l < |counts| && s < |counts|
    ensures Kraft(counts[l := counts[l] + 1], s) == Kraft(counts, s) + Weight(s, l)
    decreases s
  {
    if s > 0 {
      KraftOneMore(counts, l, s - 1);
    }
  }

  /** From `x` to `y` the Kraft sum changes by `k` and the total by `t`. */
  ghost predicate Changes(x: seq<nat>, y: seq<nat>, s: nat, k: int, t: int) {
    && s < |x| == |y|
    && Kraft(y, s) == Kraft(x, s) + k
    && Total(y) == Total(x) + t
  }

  lemma ChangesOneMore(x: seq<nat>, y: seq<nat>, l: nat, s: nat)
    requires l < |x| && s < |x| && y == x[l := x[l] + 1]
    ensures Changes(x, y, s, Weight(s, l), 1)
  {
    KraftOneMore(x, l, s);
    TotalUpdate(x, l, x[l] + 1, |x|);
  }

  lemma ChangesOneLess(x: seq<nat>, y: seq<nat>, l: nat, s: nat)
    requires l < |x| && s < |x| && x[l] > 0 && y == x[l := x[l] - 1]
    ensures Changes(x, y, s, 0 - Weight(s, l), -1)
  {
    assert y[l := y[l] + 1] == x;
    ChangesOneMore(y, x, l, s);
  }

  lemma ChangesThen(x: seq<nat>, y: seq<nat>, z: seq<nat>, s: nat, k: int, t: int, k': int, t': int)
    requires Changes(x, y, s, k, t) && Changes(y, z, s, k', t')
    ensures Changes(x, z, s, k + k', t + t')
  {
  }

  lemma ChangesTwoMore(x: seq<nat>, z: seq<nat>, l: nat, s: nat)
    requires l < |x| && s < |x| && z == x[l := x[l] + 2]
    ensures Changes(x, z, s, 2 * Weight(s, l), 2)
  {
    var y := x[l := x[l] + 1];
    assert z == y[l := y[l] + 1];
    ChangesOneMore(x, y, l, s);
    ChangesOneMore(y, z, l, s);
    ChangesThen(x, y, z, s, Weight(s, l), 1, Weight(s, l), 1);
  }

  /** All leaves at the limit: then the Kraft sum is just their number. */
  lemma {:induction false} OnlyBottom(counts: seq<nat>, s: nat, m: nat)
    requires s < |counts| && m <= |counts|
    requires forall l :: 0 <= l < s ==> counts[l] == 0
    requires forall l :: s < l < |counts| ==> counts[l] == 0
    ensures TotalTo(counts, m) == if m > s then counts[s] else 0
    decreases m
  {
    if m > 0 {
      OnlyBottom(counts, s, m - 1);
    }
  }

  lemma {:induction false} KraftZero(counts: seq<nat>, s: nat)
    requires s < |counts| && forall l :: 0 <= l <= s ==> counts[l] == 0
    ensures Kraft(counts, s) == 0
    decreases s
  {
    if s > 0 {
      KraftZero(counts, s - 1);
    }
  }

  /** What holds of the counts while `overflow` nodes are still to be paid for. */
  ghost predicate Pays(counts: seq<nat>, s: nat, overflow: int, leaves: nat) {
    && |counts| == MAX_BITS + 1 && 1 <= s <= MAX_BITS
    && counts[0] == 0 && (forall l :: s < l <= MAX_BITS ==> counts[l] == 0)
    && 0 <= overflow
    && 2 * Kraft(counts, s) == 2 * Pow2(s) + overflow
    && (0 < overflow ==> overflow + 2 <= 2 * counts[s])
    && Total(counts) == leaves <= Pow2(s)
  }

  /** While there is anything to pay, some shorter length is in use. */
  lemma ShorterInUse(counts: seq<nat>, s: nat, overflow: int, leaves: nat)
    requires Pays(counts, s, overflow, leaves) && 0 < overflow
    ensures exists l :: 1 <= l < s && counts[l] != 0
  {
    if forall l :: 1 <= l < s ==> counts[l] == 0 {
      KraftZero(counts, s - 1);
      OnlyBottom(counts, s, |counts|);
    }
  }

  /** One leaf moves down beside one from the limit: the Kraft sum drops by one unit. */
  function Moved(counts: seq<nat>, p: nat, s: nat): seq<nat>
    requires p < s < |counts| && counts[p] > 0 && counts[s] > 0
  {
    var a := counts[p := counts[p] - 1];
    var b := a[p + 1 := a[p + 1] + 2];
    b[s := b[s] - 1]
  }

  lemma MovedKraft(x: seq<nat>, a: seq<nat>, b: seq<nat>, d: seq<nat>, p: nat, s: nat)
    requires p < s < |x| && x[p] > 0 && x[s] > 0
    requires a == x[p := x[p] - 1] && b == a[p + 1 := a[p + 1] + 2] && d == b[s := b[s] - 1]
    ensures Changes(x, d, s, -1, 0)
  {
    var w: int := Weight(s, p + 1);
    HalfWeight(s, p);
    assert Changes(x, a, s, -2 * w, -1) by { ChangesOneLess(x, a, p, s); }
    assert Changes(a, b, s, 2 * w, 2) by { ChangesTwoMore(a, b, p + 1, s); }
    assert Changes(b, d, s, -1, -1) by { ChangesOneLess(b, d, s, s); }
    ChangesThen(x, a, b, s, -2 * w, -1, 2 * w, 2);
    ChangesThen(x, b, d, s, 0, 1, -1, -1);
  }

  lemma HalfWeight(s: nat, p: nat)
    requires p < s
    ensures Weight(s, p) == 2 * Weight(s, p + 1) && Weight(s, s) == 1
  {
  }

  lemma MovedPays(counts: seq<nat>, p: nat, s: nat, overflow: int, leaves: nat)
    requires Pays(counts, s, overflow, leaves) && 0 < overflow
    requires 1 <= p < s && counts[p] != 0
    ensures Pays(Moved(counts, p, s), s, overflow - 2, leaves)
  {
    var a := counts[p := counts[p] - 1];
    var b := a[p + 1 := a[p + 1] + 2];
    MovedKraft(counts, a, b, Moved(counts, p, s), p, s);
  }

  /** The redistribution loop ends with a complete code on the same number of leaves. */
  method Redistribute(counts0: seq<nat>, s: nat, overflow0: nat, ghost leaves: nat) returns (counts: seq<nat>)
    requires Pays(counts0, s, overflow0, leaves)
    ensures Pays(counts, s, 0, leaves)
    ensures 0 < overflow0 ==> 0 < counts[s]
  {
    hide Kraft, Total, Pow2;
    counts := counts0;
    var overflow := overflow0;
    while overflow > 0
      invariant Pays(counts, s, overflow, leaves) && (0 < overflow0 ==> 0 < counts[s])
      decreases overflow
    {
      ShorterInUse(counts, s, overflow, leaves);
      var p := s - 1;
      while counts[p] == 0
        invariant 0 <= p < s
        invariant exists l :: 1 <= l <= p && counts[l] != 0
        decreases p
      {
        p := p - 1;
      }
      MovedPays(counts, p, s, overflow, leaves);
      counts := counts[p := counts[p] - 1];
      counts := counts[p + 1 := counts[p + 1] + 2];
      counts := counts[s := counts[s] - 1];
      overflow := overflow - 2;
    }
  }

  // The tree in memory

  ghost predicate Distinct(nodes: seq<nat>) {
    forall j, k :: 0 <= j < k < |nodes| ==> nodes[j] != nodes[k]
  }

  /** `nodes` lists a full tree, the root first and every parent before its children;
      symbols up to `maxCode` are leaves.  Each cell but the root's names its parent. */
  ghost predicate Laid(tree: seq<Cell>, nodes: seq<nat>, maxCode: nat, dad: seq<nat>, leaf: seq<bool>) {
    && FullTree(dad, leaf) && |nodes| == |dad| && Distinct(nodes)
    && (forall k :: 0 <= k < |nodes| ==> nodes[k] < |tree|)
    && (forall k :: 0 <= k < |nodes| ==> (leaf[k] <==> nodes[k] <= maxCode))
    && (forall k :: 1 <= k < |nodes| ==> NamesParent(tree, nodes, dad, k))
  }

  ghost predicate NamesParent(tree: seq<Cell>, nodes: seq<nat>, dad: seq<nat>, k: nat)
    requires 1 <= k < |nodes| == |dad| && dad[k] < k && nodes[k] < |tree|
  {
    tree[nodes[k]].dl == nodes[dad[k]]
  }

  function Leaves(leaf: seq<bool>, m: nat): nat
    requires m <= |leaf|
  {
    if m == 0 then 0 else Leaves(leaf, m - 1) + (if leaf[m - 1] then 1 else 0)
  }

  /** The histogram of the leaves' lengths among the first `m` nodes. */
  ghost predicate Histogram(counts: seq<nat>, leaf: seq<bool>, lens: seq<nat>, s: nat, m: nat)
    requires m <= |leaf| == |lens|
  {
    && |counts| == MAX_BITS + 1 && s <= MAX_BITS
    && (forall l :: 0 <= l <= MAX_BITS ==> counts[l] == LeafCount(leaf, lens, l, m))
    && Kraft(counts, s) == LeafWeights(leaf, lens, s, m)
    && Total(counts) == Leaves(leaf, m)
  }

  lemma HistogramStep(counts: seq<nat>, counts': seq<nat>, leaf: seq<bool>, lens: seq<nat>, s: nat, m: nat, p: nat)
    requires m < |leaf| == |lens| && p == lens[m] <= s && Histogram(counts, leaf, lens, s, m)
    requires counts' == if leaf[m] then counts[p := counts[p] + 1] else counts
    ensures Histogram(counts', leaf, lens, s, m + 1)
  {
    if leaf[m] {
      KraftOneMore(counts, p, s);
      TotalUpdate(counts, p, counts[p] + 1, |counts|);
    }
  }

  /** `tree` with the lengths of the first `k` nodes filled in. */
  function Filled(tree: seq<Cell>, nodes: seq<nat>, lens: seq<nat>, k: nat): (r: seq<Cell>)
    requires k <= |nodes| == |lens| && forall j :: 0 <= j < |nodes| ==> nodes[j] < |tree|
    ensures |r| == |tree|
    decreases k
  {
    if k == 0 then tree
    else
      var t := Filled(tree, nodes, lens, k - 1);
      t[nodes[k - 1] := t[nodes[k - 1]].(dl := lens[k - 1])]
  }

  lemma {:induction false} FilledCells(tree: seq<Cell>, nodes: seq<nat>, lens: seq<nat>, k: nat)
    requires k <= |nodes| == |lens| && (forall j :: 0 <= j < |nodes| ==> nodes[j] < |tree|) && Distinct(nodes)
    ensures forall i :: 0 <= i < |tree| ==> Filled(tree, nodes, lens, k)[i].fc == tree[i].fc
    ensures forall i :: 0 <= i < |tree| && i !in nodes ==> Filled(tree, nodes, lens, k)[i] == tree[i]
    ensures forall j :: 0 <= j < |nodes| ==>
              Filled(tree, nodes, lens, k)[nodes[j]].dl == if j < k then lens[j] else tree[nodes[j]].dl
    decreases k
  {
    if k > 0 {
      FilledCells(tree, nodes, lens, k - 1);
    }
  }

  /** When a node's turn comes, its cell still names the parent, whose length is known. */
  lemma ParentLength(before: seq<Cell>, nodes: seq<nat>, maxCode: nat, s: nat, dad: seq<nat>, leaf: seq<bool>, k: nat)
    requires Laid(before, nodes, maxCode, dad, leaf) && 1 <= k < |nodes|
    ensures var t := Filled(before, nodes, Depths(dad, s), k);
            && t[nodes[k]].dl == nodes[dad[k]]
            && t[nodes[dad[k]]].dl == Depths(dad, s)[dad[k]]
  {
    FilledCells(before, nodes, Depths(dad, s), k);
    assert NamesParent(before, nodes, dad, k);
  }

  /** One turn of the first loop: the parent's length plus one, clamped. */
  method SetDepth(tree: array<Cell>, l: nat, s: nat) returns (p: nat, clamped: bool)
    requires l < tree.Length && tree[l].dl < tree.Length
    modifies tree
    ensures clamped == (old(tree[tree[l].dl].dl) + 1 > s)
    ensures p == if clamped then s else old(tree[tree[l].dl].dl) + 1
    ensures tree[..] == old(tree[..])[l := old(tree[l]).(dl := p)]
  {
    p := tree[tree[l].dl].dl + 1;
    clamped := p > s;
    if clamped {
      p := s;
    }
    tree[l] := tree[l].(dl := p);
  }

  lemma DepthStep(dad: seq<nat>, s: nat, k: nat, p: nat, clamped: bool)
    requires (forall i :: 1 <= i < |dad| ==> dad[i] < i) && 1 <= k < |dad|
    requires clamped == (Depths(dad, s)[dad[k]] + 1 > s)
    requires p == if clamped then s else Depths(dad, s)[dad[k]] + 1
    ensures p == Depths(dad, s)[k]
    ensures Overflow(dad, Depths(dad, s), s, k + 1) == Overflow(dad, Depths(dad, s), s, k) + if clamped then 1 else 0
  {
  }

  /** The state of the first loop after `k` nodes. */
  ghost predicate Visited(cells: seq<Cell>, before: seq<Cell>, nodes: seq<nat>, s: nat, dad: seq<nat>, leaf: seq<bool>,
                          counts: seq<nat>, overflow: nat, k: nat)
    requires FullTree(dad, leaf) && k <= |nodes| == |dad| && forall j :: 0 <= j < |nodes| ==> nodes[j] < |before|
  {
    var lens := Depths(dad, s);
    && cells == Filled(before, nodes, lens, k)
    && overflow == Overflow(dad, lens, s, k)
    && Histogram(counts, leaf, lens, s, k)
  }

  lemma Visit(cells: seq<Cell>, cells': seq<Cell>, before: seq<Cell>, nodes: seq<nat>, maxCode: nat, s: nat,
              dad: seq<nat>, leaf: seq<bool>, counts: seq<nat>, counts': seq<nat>, overflow: nat, k: nat, p: nat,
              clamped: bool)
    requires Laid(before, nodes, maxCode, dad, leaf) && 1 <= k < |nodes| && 1 <= s <= MAX_BITS
    requires Visited(cells, before, nodes, s, dad, leaf, counts, overflow, k)
    requires clamped == (Depths(dad, s)[dad[k]] + 1 > s)
    requires p == if clamped then s else Depths(dad, s)[dad[k]] + 1
    requires cells' == cells[nodes[k] := cells[nodes[k]].(dl := p)]
    requires counts' == if nodes[k] <= maxCode then counts[p := counts[p] + 1] else counts
    ensures Visited(cells', before, nodes, s, dad, leaf, counts', overflow + if clamped then 1 else 0, k + 1)
  {
    DepthStep(dad, s, k, p, clamped);
    HistogramStep(counts, counts', leaf, Depths(dad, s), s, k, p);
  }

  lemma VisitRoot(before: seq<Cell>, after: seq<Cell>, nodes: seq<nat>, maxCode: nat, s: nat,
                  dad: seq<nat>, leaf: seq<bool>, counts: seq<nat>)
    requires Laid(before, nodes, maxCode, dad, leaf) && 1 <= s <= MAX_BITS
    requires after == before[nodes[0] := before[nodes[0]].(dl := 0)]
    requires |counts| == MAX_BITS + 1 && forall l :: 0 <= l <= MAX_BITS ==> counts[l] == 0
    ensures Visited(after, before, nodes, s, dad, leaf, counts, 0, 1)
  {
    EmptyHistogram(counts, leaf, Depths(dad, s), s);
    assert Filled(before, nodes, Depths(dad, s), 0) == before;
  }

  /** What the cells say when the turn of node `k` comes. */
  lemma TurnCells(cells: seq<Cell>, before: seq<Cell>, nodes: seq<nat>, maxCode: nat, s: nat,
                  dad: seq<nat>, leaf: seq<bool>, counts: seq<nat>, overflow: nat, k: nat)
    requires Laid(before, nodes, maxCode, dad, leaf) && 1 <= k < |nodes| && 1 <= s <= MAX_BITS
    requires Visited(cells, before, nodes, s, dad, leaf, counts, overflow, k)
    ensures |cells| == |before| && |counts| == MAX_BITS + 1 && dad[k] < k && nodes[k] < |cells|
            && nodes[dad[k]] < |cells|
    ensures cells[nodes[k]].dl == nodes[dad[k]] && cells[nodes[dad[k]]].dl == Depths(dad, s)[dad[k]] <= s
  {
    ParentLength(before, nodes, maxCode, s, dad, leaf, k);
  }

  /** The first loop: depths replace parents, clamped at `s`. */
  method ClampLengths(tree: array<Cell>, nodes: seq<nat>, maxCode: nat, s: nat, ghost dad: seq<nat>,
                      ghost leaf: seq<bool>)
    returns (counts: seq<nat>, overflow: nat)
    requires Laid(tree[..], nodes, maxCode, dad, leaf) && 1 <= s <= MAX_BITS
    modifies tree
    ensures Visited(tree[..], old(tree[..]), nodes, s, dad, leaf, counts, overflow, |nodes|)
  {
    hide Visited, NamesParent;
    ghost var before := tree[..];
    counts := seq(MAX_BITS + 1, i => 0);
    overflow := 0;
    tree[nodes[0]] := tree[nodes[0]].(dl := 0);
    VisitRoot(before, tree[..], nodes, maxCode, s, dad, leaf, counts);
    for k := 1 to |nodes|
      invariant Visited(tree[..], before, nodes, s, dad, leaf, counts, overflow, k)
    {
      ghost var cells, counted, spilled := tree[..], counts, overflow;
      TurnCells(cells, before, nodes, maxCode, s, dad, leaf, counts, overflow, k);
      assert tree[nodes[k]] == cells[nodes[k]] && tree[nodes[dad[k]]] == cells[nodes[dad[k]]];
      var p, clamped := SetDepth(tree, nodes[k], s);
      if clamped {
        overflow := overflow + 1;
      }
      if nodes[k] <= maxCode {
        counts := counts[p := counts[p] + 1];
      }
      Visit(cells, tree[..], before, nodes, maxCode, s, dad, leaf, counted, counts, spilled, k, p, clamped);
    }
  }

  lemma EmptyHistogram(counts: seq<nat>, leaf: seq<bool>, lens: seq<nat>, s: nat)
    requires |counts| == MAX_BITS + 1 && s <= MAX_BITS && forall l :: 0 <= l <= MAX_BITS ==> counts[l] == 0
    requires 1 <= |leaf| == |lens| && !leaf[0]
    ensures Histogram(counts, leaf, lens, s, 1)
  {
    KraftZero(counts, s);
    OnlyBottom(counts, s, |counts|);
    forall l | 0 <= l <= MAX_BITS ensures counts[l] == LeafCount(leaf, lens, l, 1) {
      assert LeafCount(leaf, lens, l, 0) == 0;
    }
    assert Leaves(leaf, 0) == 0 && LeafWeights(leaf, lens, s, 0) == 0;
  }

  lemma {:induction false} NoLeafAt(leaf: seq<bool>, lens: seq<nat>, l: nat, m: nat)
    requires m <= |leaf| == |lens|
    requires forall k :: 0 <= k < |leaf| && leaf[k] ==> lens[k] != l
    ensures LeafCount(leaf, lens, l, m) == 0
    decreases m
  {
    if m > 0 {
      NoLeafAt(leaf, lens, l, m - 1);
    }
  }

  /** The counts that come out of the first loop can be paid off by the second. */
  lemma ClampedPays(counts: seq<nat>, dad: seq<nat>, leaf: seq<bool>, s: nat)
    requires FullTree(dad, leaf) && 1 <= s <= MAX_BITS && Leaves(leaf, |leaf|) <= Pow2(s)
    requires Histogram(counts, leaf, Depths(dad, s), s, |dad|)
    ensures Pays(counts, s, Overflow(dad, Depths(dad, s), s, |dad|), Leaves(leaf, |leaf|))
  {
    var lens := Depths(dad, s);
    ClampedKraft(dad, leaf, s);
    if 0 < Overflow(dad, lens, s, |dad|) {
      BottomLeaves(dad, leaf, s);
    }
    NoLeafAt(leaf, lens, 0, |dad|);
    forall l | s < l <= MAX_BITS ensures counts[l] == 0 {
      NoLeafAt(leaf, lens, l, |dad|);
    }
  }

  // The last loop: hand out the lengths

  /** The symbols among `ids` whose length is `l`. */
  function WithLength(tree: seq<Cell>, ids: set<nat>, l: nat): set<nat> {
    set o | o in ids && o < |tree| && tree[o].dl == l
  }

  /** The leaves from position `u` on. */
  function LeafIds(nodes: seq<nat>, maxCode: nat, u: nat): set<nat> {
    set k | u <= k < |nodes| && nodes[k] <= maxCode :: nodes[k]
  }

  function TotalFrom(counts: seq<nat>, p: nat): nat
    decreases |counts| - p
  {
    if p >= |counts| then 0 else counts[p] + TotalFrom(counts, p + 1)
  }

  lemma {:induction false} TotalFromTo(counts: seq<nat>, p: nat)
    requires p <= |counts|
    ensures TotalTo(counts, p) + TotalFrom(counts, p) == Total(counts)
    decreases |counts| - p
  {
    if p < |counts| {
      TotalFromTo(counts, p + 1);
    }
  }

  lemma LeafIdsStep(nodes: seq<nat>, maxCode: nat, u: nat)
    requires u < |nodes| && Distinct(nodes)
    ensures LeafIds(nodes, maxCode, u)
         == LeafIds(nodes, maxCode, u + 1) + (if nodes[u] <= maxCode then {nodes[u]} else {})
    ensures nodes[u] !in LeafIds(nodes, maxCode, u + 1)
  {
  }

  lemma NoLeafIds(nodes: seq<nat>, maxCode: nat)
    ensures LeafIds(nodes, maxCode, |nodes|) == {}
  {
  }

  lemma {:induction false} LeafIdsNumber(nodes: seq<nat>, leaf: seq<bool>, maxCode: nat, u: nat)
    requires u <= |nodes| == |leaf| && Distinct(nodes)
    requires forall k :: 0 <= k < |nodes| ==> (leaf[k] <==> nodes[k] <= maxCode)
    ensures |LeafIds(nodes, maxCode, u)| + Leaves(leaf, u) == Leaves(leaf, |leaf|)
    decreases |nodes| - u
  {
    hide LeafIds;
    if u < |nodes| {
      LeafIdsNumber(nodes, leaf, maxCode, u + 1);
      LeafIdsStep(nodes, maxCode, u);
    } else {
      NoLeafIds(nodes, maxCode);
    }
  }

  /** So far the leaves from `u` on have got their lengths: all those above `p`, and all
      but `left` of length `p`. */
  ghost predicate Assigned(tree: seq<Cell>, nodes: seq<nat>, maxCode: nat, counts: seq<nat>, u: nat, p: nat, left: nat)
    requires p < |counts|
  {
    var ids := LeafIds(nodes, maxCode, u);
    && left <= counts[p]
    && (forall o :: o in ids ==> o < |tree| && p <= tree[o].dl < |counts|)
    && (forall l :: p < l < |counts| ==> |WithLength(tree, ids, l)| == counts[l])
    && |WithLength(tree, ids, p)| == counts[p] - left
    && |ids| == TotalFrom(counts, p + 1) + counts[p] - left
  }

  lemma OneMoreWithLength(tree: seq<Cell>, tree': seq<Cell>, ids: set<nat>, c: nat, p: nat, l: nat)
    requires c < |tree| && c !in ids && tree' == tree[c := tree[c].(dl := p)]
    ensures |WithLength(tree', ids + {c}, l)| == |WithLength(tree, ids, l)| + if l == p then 1 else 0
  {
    assert WithLength(tree', ids + {c}, l) == WithLength(tree, ids, l) + if l == p then {c} else {};
  }

  lemma AssignLeaf(tree: seq<Cell>, tree': seq<Cell>, nodes: seq<nat>, maxCode: nat, counts: seq<nat>, u: nat, p: nat,
                   left: nat)
    requires p < |counts| && 0 < left && 0 < u <= |nodes| && Distinct(nodes)
    requires nodes[u - 1] <= maxCode && nodes[u - 1] < |tree|
    requires Assigned(tree, nodes, maxCode, counts, u, p, left)
    requires tree' == tree[nodes[u - 1] := tree[nodes[u - 1]].(dl := p)]
    ensures Assigned(tree', nodes, maxCode, counts, u - 1, p, left - 1)
  {
    var c, ids := nodes[u - 1], LeafIds(nodes, maxCode, u);
    LeafIdsStep(nodes, maxCode, u - 1);
    forall l | p <= l < |counts|
      ensures |WithLength(tree', ids + {c}, l)| == |WithLength(tree, ids, l)| + if l == p then 1 else 0
    {
      OneMoreWithLength(tree, tree', ids, c, p, l);
    }
  }

  lemma NextLength(tree: seq<Cell>, nodes: seq<nat>, maxCode: nat, counts: seq<nat>, u: nat, p: nat)
    requires 0 < p < |counts| && Assigned(tree, nodes, maxCode, counts, u, p, 0)
    ensures Assigned(tree, nodes, maxCode, counts, u, p - 1, counts[p - 1])
  {
    assert WithLength(tree, LeafIds(nodes, maxCode, u), p - 1) == {};
  }

  lemma {:induction false} TotalFromZero(counts: seq<nat>, p: nat)
    requires forall l :: p <= l < |counts| ==> counts[l] == 0
    ensures TotalFrom(counts, p) == 0
    decreases |counts| - p
  {
    if p < |counts| {
      TotalFromZero(counts, p + 1);
    }
  }

  lemma {:induction false} TotalFromMonotone(counts: seq<nat>, p: nat, q: nat)
    requires p <= q <= |counts|
    ensures TotalFrom(counts, q) <= TotalFrom(counts, p)
    decreases q - p
  {
    if p < q {
      TotalFromMonotone(counts, p + 1, q);
    }
  }

  /** `nodes` are distinct cells of `tree`, and there are `Total(counts)` leaves. */
  ghost predicate CanAssign(size: nat, nodes: seq<nat>, maxCode: nat, counts: seq<nat>, s: nat) {
    && |counts| == MAX_BITS + 1 && 1 <= s <= MAX_BITS && counts[0] == 0
    && (forall l :: s < l <= MAX_BITS ==> counts[l] == 0)
    && Distinct(nodes) && (forall k :: 0 <= k < |nodes| ==> nodes[k] < size)
    && |LeafIds(nodes, maxCode, 0)| == Total(counts)
  }

  /** While lengths are left to hand out, a leaf is left to take one. */
  lemma LeafRemains(tree: seq<Cell>, nodes: seq<nat>, maxCode: nat, counts: seq<nat>, s: nat, u: nat, p: nat, left: nat)
    requires CanAssign(|tree|, nodes, maxCode, counts, s) && 1 <= p <= s && u <= |nodes|
    requires Assigned(tree, nodes, maxCode, counts, u, p, left) && 0 < left
    ensures 0 < u
  {
    TotalFromTo(counts, 0);
    TotalFromMonotone(counts, 0, p);
  }

  lemma SkipInner(tree: seq<Cell>, nodes: seq<nat>, maxCode: nat, counts: seq<nat>, u: nat, p: nat, left: nat)
    requires p < |counts| && 0 < u <= |nodes| && Distinct(nodes) && maxCode < nodes[u - 1]
    requires Assigned(tree, nodes, maxCode, counts, u, p, left)
    ensures Assigned(tree, nodes, maxCode, counts, u - 1, p, left)
  {
    LeafIdsStep(nodes, maxCode, u - 1);
    assert LeafIds(nodes, maxCode, u - 1) == LeafIds(nodes, maxCode, u);
  }

  lemma AllAssigned(tree: seq<Cell>, nodes: seq<nat>, maxCode: nat, counts: seq<nat>, s: nat, u: nat)
    requires CanAssign(|tree|, nodes, maxCode, counts, s) && u <= |nodes|
    requires Assigned(tree, nodes, maxCode, counts, u, 0, counts[0])
    ensures LeafIds(nodes, maxCode, u) == LeafIds(nodes, maxCode, 0)
    ensures forall o :: o in LeafIds(nodes, maxCode, 0) ==> o < |tree| && 1 <= tree[o].dl <= MAX_BITS
    ensures forall l :: 1 <= l <= MAX_BITS ==> |WithLength(tree, LeafIds(nodes, maxCode, 0), l)| == counts[l]
  {
    TotalFromTo(counts, 0);
    assert WithLength(tree, LeafIds(nodes, maxCode, u), 0) == {};
    var a, b := LeafIds(nodes, maxCode, u), LeafIds(nodes, maxCode, 0);
    assert a <= b && |b - a| == |b| - |a|;
    assert b == a + (b - a);
  }

  /** Only lengths of cells in `ids` differ. */
  ghost predicate OnlyLengths(a: seq<Cell>, b: seq<Cell>, ids: set<nat>) {
    |a| == |b| && forall i :: 0 <= i < |a| ==> a[i].fc == b[i].fc && (i in ids || a[i] == b[i])
  }

  lemma OneLength(a: seq<Cell>, b: seq<Cell>, b': seq<Cell>, ids: set<nat>, c: nat, p: nat)
    requires OnlyLengths(a, b, ids) && c in ids && c < |b| && b' == b[c := b[c].(dl := p)]
    ensures OnlyLengths(a, b', ids)
  {
  }

  lemma NoneAssigned(tree: seq<Cell>, nodes: seq<nat>, maxCode: nat, counts: seq<nat>, s: nat)
    requires CanAssign(|tree|, nodes, maxCode, counts, s)
    ensures Assigned(tree, nodes, maxCode, counts, |nodes|, s, counts[s])
    ensures OnlyLengths(tree, tree, LeafIds(nodes, maxCode, 0))
  {
    assert LeafIds(nodes, maxCode, |nodes|) == {};
    TotalFromZero(counts, s + 1);
  }

  /** From `u` on, no leaf has a longer code than one listed after it. */
  ghost predicate Rising(tree: seq<Cell>, nodes: seq<nat>, maxCode: nat, u: nat) {
    forall j, k | u <= j < k < |nodes| && nodes[j] <= maxCode && nodes[k] <= maxCode ::
      nodes[j] < |tree| && nodes[k] < |tree| && tree[nodes[j]].dl <= tree[nodes[k]].dl
  }

  lemma RisesOn(tree: seq<Cell>, tree': seq<Cell>, nodes: seq<nat>, maxCode: nat, counts: seq<nat>, u: nat, p: nat,
                left: nat)
    requires p < |counts| && 0 < u <= |nodes| && Distinct(nodes) && nodes[u - 1] <= maxCode && nodes[u - 1] < |tree|
    requires Assigned(tree, nodes, maxCode, counts, u, p, left) && Rising(tree, nodes, maxCode, u)
    requires tree' == tree[nodes[u - 1] := tree[nodes[u - 1]].(dl := p)]
    ensures Rising(tree', nodes, maxCode, u - 1)
  {
    forall k | u <= k < |nodes| && nodes[k] <= maxCode
      ensures nodes[k] < |tree| && p <= tree[nodes[k]].dl && tree'[nodes[k]] == tree[nodes[k]]
    {
      assert nodes[k] in LeafIds(nodes, maxCode, u);
    }
  }

  lemma RisesOver(tree: seq<Cell>, nodes: seq<nat>, maxCode: nat, u: nat)
    requires 0 < u <= |nodes| && maxCode < nodes[u - 1] && Rising(tree, nodes, maxCode, u)
    ensures Rising(tree, nodes, maxCode, u - 1)
  {
  }

  /** The last loop: from the far end of the heap, `counts[s]` leaves get length `s`,
      the next `counts[s - 1]` get `s - 1`, and so on. */
  method AssignLengths(tree: array<Cell>, nodes: seq<nat>, maxCode: nat, s: nat, counts: seq<nat>)
    requires CanAssign(tree.Length, nodes, maxCode, counts, s)
    modifies tree
    ensures OnlyLengths(old(tree[..]), tree[..], LeafIds(nodes, maxCode, 0))
    ensures forall l :: 1 <= l <= MAX_BITS ==> |WithLength(tree[..], LeafIds(nodes, maxCode, 0), l)| == counts[l]
    ensures forall o :: o in LeafIds(nodes, maxCode, 0) ==> o < tree.Length && 1 <= tree[o].dl <= MAX_BITS
    ensures Rising(tree[..], nodes, maxCode, 0)
  {
    hide Assigned, WithLength, LeafIds, OnlyLengths, Rising;
    NoneRise(tree[..], nodes, maxCode);
    var u, p := |nodes|, s;
    NoneAssigned(tree[..], nodes, maxCode, counts, s);
    while p != 0
      invariant 0 <= p <= s && 0 <= u <= |nodes|
      invariant Assigned(tree[..], nodes, maxCode, counts, u, p, counts[p]) && Rising(tree[..], nodes, maxCode, u)
      invariant OnlyLengths(old(tree[..]), tree[..], LeafIds(nodes, maxCode, 0))
    {
      u := GiveLength(tree, nodes, maxCode, s, counts, u, p, old(tree[..]));
      NextLength(tree[..], nodes, maxCode, counts, u, p);
      p := p - 1;
    }
    AllAssigned(tree[..], nodes, maxCode, counts, s, u);
    AllRise(tree[..], nodes, maxCode, u);
  }

  lemma NoneRise(tree: seq<Cell>, nodes: seq<nat>, maxCode: nat)
    ensures Rising(tree, nodes, maxCode, |nodes|)
  {
  }

  /** What is left before `u` are no leaves. */
  lemma AllRise(tree: seq<Cell>, nodes: seq<nat>, maxCode: nat, u: nat)
    requires Rising(tree, nodes, maxCode, u) && Distinct(nodes) && u <= |nodes|
    requires LeafIds(nodes, maxCode, u) == LeafIds(nodes, maxCode, 0)
    ensures Rising(tree, nodes, maxCode, 0)
  {
    forall k | 0 <= k < |nodes| && nodes[k] <= maxCode ensures u <= k {
      assert nodes[k] in LeafIds(nodes, maxCode, 0);
    }
  }

  method GiveLength(tree: array<Cell>, nodes: seq<nat>, maxCode: nat, ghost s: nat, counts: seq<nat>, u0: nat, p: nat,
                    ghost before: seq<Cell>)
    returns (u: nat)
    requires CanAssign(tree.Length, nodes, maxCode, counts, s) && 1 <= p <= s && u0 <= |nodes|
    requires Assigned(tree[..], nodes, maxCode, counts, u0, p, counts[p])
    requires OnlyLengths(before, tree[..], LeafIds(nodes, maxCode, 0)) && Rising(tree[..], nodes, maxCode, u0)
    modifies tree
    ensures u <= |nodes| && Assigned(tree[..], nodes, maxCode, counts, u, p, 0) && Rising(tree[..], nodes, maxCode, u)
    ensures OnlyLengths(before, tree[..], LeafIds(nodes, maxCode, 0))
  {
    hide Assigned, LeafIds, OnlyLengths, Rising;
    u := u0;
    var left := counts[p];
    while left != 0
      invariant 0 <= u <= |nodes|
      invariant Assigned(tree[..], nodes, maxCode, counts, u, p, left) && Rising(tree[..], nodes, maxCode, u)
      invariant OnlyLengths(before, tree[..], LeafIds(nodes, maxCode, 0))
      decreases u
    {
      ghost var cells := tree[..];
      LeafRemains(cells, nodes, maxCode, counts, s, u, p, left);
      u := u - 1;
      if nodes[u] > maxCode {
        SkipInner(cells, nodes, maxCode, counts, u + 1, p, left);
        RisesOver(cells, nodes, maxCode, u + 1);
      } else {
        SetLength(tree, nodes[u], p);
        AssignLeaf(cells, tree[..], nodes, maxCode, counts, u + 1, p, left);
        RisesOn(cells, tree[..], nodes, maxCode, counts, u + 1, p, left);
        IsLeafId(nodes, maxCode, u);
        OneLength(before, cells, tree[..], LeafIds(nodes, maxCode, 0), nodes[u], p);
        left := left - 1;
      }
    }
  }

  lemma IsLeafId(nodes: seq<nat>, maxCode: nat, u: nat)
    requires u < |nodes| && nodes[u] <= maxCode
    ensures nodes[u] in LeafIds(nodes, maxCode, 0)
  {
  }

  method SetLength(tree: array<Cell>, c: nat, p: nat)
    requires c < tree.Length
    modifies tree
    ensures tree[..] == old(tree[..])[c := old(tree[c]).(dl := p)]
  {
    if tree[c].dl != p {
      tree[c] := tree[c].(dl := p);
    }
  }

  // gen_bitlen as a whole

  lemma {:induction false} LeafCountIsSet(cells: seq<Cell>, nodes: seq<nat>, leaf: seq<bool>, lens: seq<nat>,
                                          maxCode: nat, l: nat, u: nat)
    requires u <= |nodes| == |leaf| == |lens| && Distinct(nodes)
    requires forall k :: 0 <= k < |nodes| ==> nodes[k] < |cells| && cells[nodes[k]].dl == lens[k]
    requires forall k :: 0 <= k < |nodes| ==> (leaf[k] <==> nodes[k] <= maxCode)
    ensures |WithLength(cells, LeafIds(nodes, maxCode, u), l)| + LeafCount(leaf, lens, l, u)
            == LeafCount(leaf, lens, l, |leaf|)
    decreases |nodes| - u
  {
    if u == |nodes| {
      assert LeafIds(nodes, maxCode, u) == {};
      assert WithLength(cells, {}, l) == {};
    } else {
      LeafCountIsSet(cells, nodes, leaf, lens, maxCode, l, u + 1);
      LeafIdsStep(nodes, maxCode, u);
      AddToWithLength(cells, LeafIds(nodes, maxCode, u + 1), nodes[u], l);
    }
  }

  lemma AddToWithLength(cells: seq<Cell>, ids: set<nat>, c: nat, l: nat)
    requires c < |cells| && c !in ids
    ensures |WithLength(cells, ids + {c}, l)| == |WithLength(cells, ids, l)| + if cells[c].dl == l then 1 else 0
    ensures ids + {} == ids
  {
    assert WithLength(cells, ids + {c}, l) == WithLength(cells, ids, l) + if cells[c].dl == l then {c} else {};
  }

  lemma {:induction false} CountIsSet(lens: seq<nat>, l: nat)
    ensures Count(lens, l) == |set o: nat | o < |lens| && lens[o] == l|
    decreases |lens|
  {
    var all := set o: nat | o < |lens| && lens[o] == l;
    if lens == [] {
      assert all == {};
    } else {
      var n := |lens| - 1;
      var fewer := set o: nat | o < |lens[..n]| && lens[..n][o] == l;
      CountIsSet(lens[..n], l);
      assert all == fewer + if lens[n] == l then {n} else {};
    }
  }

  lemma {:induction false} KraftOfZeros(counts: seq<nat>, s: nat, m: nat)
    requires s <= m < |counts| && Kraft(counts, s) == Pow2(s)
    requires forall l :: s < l <= m ==> counts[l] == 0
    ensures Kraft(counts, m) == Pow2(m)
    decreases m
  {
    if s < m {
      KraftOfZeros(counts, s, m - 1);
    }
  }

  /** Exactly the leaves have a length, and each length as often as `counts` says. */
  ghost predicate Lengthened(tree: seq<Cell>, nodes: seq<nat>, maxCode: nat, counts: seq<nat>) {
    && |counts| == MAX_BITS + 1
    && (forall o :: 0 <= o <= maxCode && o < |tree| && o !in nodes ==> tree[o].dl == 0)
    && (forall o :: o in LeafIds(nodes, maxCode, 0) ==> o < |tree| && 1 <= tree[o].dl <= MAX_BITS)
    && (forall l :: 1 <= l <= MAX_BITS ==> |WithLength(tree, LeafIds(nodes, maxCode, 0), l)| == counts[l])
  }

  lemma LengthenedCount(tree: seq<Cell>, nodes: seq<nat>, maxCode: nat, counts: seq<nat>, l: nat)
    requires Lengthened(tree, nodes, maxCode, counts) && maxCode < |tree| && 1 <= l <= MAX_BITS
    ensures Count(Lengths(tree[..maxCode + 1]), l) == counts[l]
  {
    var lens := Lengths(tree[..maxCode + 1]);
    CountIsSet(lens, l);
    var byLen := set o: nat | o < |lens| && lens[o] == l;
    assert byLen == WithLength(tree, LeafIds(nodes, maxCode, 0), l);
  }

  lemma LengthenedMatches(tree: seq<Cell>, nodes: seq<nat>, maxCode: nat, counts: seq<nat>)
    requires Lengthened(tree, nodes, maxCode, counts) && maxCode < |tree| && counts[0] == 0
    ensures Matches(counts, Lengths(tree[..maxCode + 1]))
  {
    var lens := Lengths(tree[..maxCode + 1]);
    forall l | 1 <= l <= MAX_BITS ensures counts[l] == Count(lens, l) {
      LengthenedCount(tree, nodes, maxCode, counts, l);
    }
    forall o | 0 <= o < |lens| ensures lens[o] <= MAX_BITS {
      if o in nodes {
        assert o in LeafIds(nodes, maxCode, 0);
      }
    }
  }

  /** Nothing was clamped: the depths are the lengths. */
  lemma DepthsLengthen(before: seq<Cell>, cells: seq<Cell>, nodes: seq<nat>, maxCode: nat, s: nat,
                       dad: seq<nat>, leaf: seq<bool>, counts: seq<nat>, overflow: nat)
    requires Laid(before, nodes, maxCode, dad, leaf) && 1 <= s <= MAX_BITS
    requires Visited(cells, before, nodes, s, dad, leaf, counts, overflow, |nodes|)
    requires forall o :: 0 <= o <= maxCode && o < |before| && o !in nodes ==> before[o].dl == 0
    ensures Lengthened(cells, nodes, maxCode, counts)
  {
    var lens := Depths(dad, s);
    FilledCells(before, nodes, lens, |nodes|);
    forall l | 1 <= l <= MAX_BITS
      ensures |WithLength(cells, LeafIds(nodes, maxCode, 0), l)| == counts[l]
    {
      LeafCountIsSet(cells, nodes, leaf, lens, maxCode, l, 0);
    }
    forall o | o in LeafIds(nodes, maxCode, 0)
      ensures o < |cells| && 1 <= cells[o].dl <= MAX_BITS
    {
      var k :| 0 <= k < |nodes| && nodes[k] <= maxCode && nodes[k] == o;
      assert cells[nodes[k]].dl == lens[k] && leaf[k];
    }
  }

  /** `gen_bitlen`: for a Huffman tree of at most 2^s leaves every leaf gets a length of
      at most `s` bits, and the lengths make up a complete code. */
  method GenBitLen(tree: array<Cell>, nodes: seq<nat>, maxCode: nat, s: nat, ghost dad: seq<nat>, ghost leaf: seq<bool>)
    returns (counts: seq<nat>)
    requires Laid(tree[..], nodes, maxCode, dad, leaf) && 1 <= s <= MAX_BITS && maxCode < tree.Length
    requires Leaves(leaf, |leaf|) <= Pow2(s)
    requires forall o :: 0 <= o <= maxCode && o !in nodes ==> tree[o].dl == 0
    modifies tree
    ensures Lengthened(tree[..], nodes, maxCode, counts) && counts[0] == 0
    ensures forall l :: s < l <= MAX_BITS ==> counts[l] == 0
    ensures Kraft(counts, MAX_BITS) == Pow2(MAX_BITS)
    ensures forall o :: 0 <= o < tree.Length && o !in nodes ==> tree[o].dl == old(tree[o].dl)
    ensures counts[s] == 0 ==> AtDepth(tree[..], nodes, dad)
    ensures AtDepth(tree[..], nodes, dad) || Rising(tree[..], nodes, maxCode, 0)
  {
    hide Visited, Kraft, Pow2, WithLength, Rising;
    ghost var before := tree[..];
    var overflow;
    counts, overflow := ClampLengths(tree, nodes, maxCode, s, dad, leaf);
    ghost var cells, leaves := tree[..], Leaves(leaf, |leaf|);
    AfterClamp(before, cells, nodes, maxCode, s, dad, leaf, counts, overflow);
    if overflow != 0 {
      counts := Redistribute(counts, s, overflow, leaves);
      AssignLengths(tree, nodes, maxCode, s, counts);
      StillLengthened(cells, tree[..], nodes, maxCode, counts);
      LeavesAreNodes(nodes, maxCode);
    }
    KraftOfZeros(counts, s, MAX_BITS);
    if overflow == 0 {
      NothingClamped(before, cells, nodes, maxCode, s, dad, leaf, counts);
    }
  }

  /** Every node has its depth for length. */
  ghost predicate AtDepth(cells: seq<Cell>, nodes: seq<nat>, dad: seq<nat>) {
    && |nodes| == |dad| >= 1 && (forall k :: 0 <= k < |nodes| ==> nodes[k] < |cells|) && cells[nodes[0]].dl == 0
    && forall k :: 1 <= k < |nodes| ==> dad[k] < k && cells[nodes[k]].dl == cells[nodes[dad[k]]].dl + 1
  }

  lemma NothingClamped(before: seq<Cell>, cells: seq<Cell>, nodes: seq<nat>, maxCode: nat, s: nat,
                       dad: seq<nat>, leaf: seq<bool>, counts: seq<nat>)
    requires Laid(before, nodes, maxCode, dad, leaf) && Visited(cells, before, nodes, s, dad, leaf, counts, 0, |nodes|)
    ensures AtDepth(cells, nodes, dad)
  {
    FilledCells(before, nodes, Depths(dad, s), |nodes|);
    forall k | 1 <= k < |nodes| ensures cells[nodes[k]].dl == cells[nodes[dad[k]]].dl + 1 {
      NoOverflowAt(dad, Depths(dad, s), s, |dad|, k);
    }
  }

  lemma {:induction false} NoOverflowAt(dad: seq<nat>, lens: seq<nat>, s: nat, m: nat, k: nat)
    requires m <= |dad| == |lens| && (forall i :: 1 <= i < |dad| ==> dad[i] < i) && 1 <= k < m
    requires Overflow(dad, lens, s, m) == 0
    ensures lens[dad[k]] + 1 <= s
    decreases m
  {
    if k < m - 1 {
      NoOverflowAt(dad, lens, s, m - 1, k);
    }
  }

  lemma LeavesAreNodes(nodes: seq<nat>, maxCode: nat)
    ensures forall o :: o in LeafIds(nodes, maxCode, 0) ==> o in nodes
  {
  }

  lemma AfterClamp(before: seq<Cell>, cells: seq<Cell>, nodes: seq<nat>, maxCode: nat, s: nat,
                   dad: seq<nat>, leaf: seq<bool>, counts: seq<nat>, overflow: nat)
    requires Laid(before, nodes, maxCode, dad, leaf) && 1 <= s <= MAX_BITS && Leaves(leaf, |leaf|) <= Pow2(s)
    requires Visited(cells, before, nodes, s, dad, leaf, counts, overflow, |nodes|)
    requires forall o :: 0 <= o <= maxCode && o < |before| && o !in nodes ==> before[o].dl == 0
    ensures Pays(counts, s, overflow, Leaves(leaf, |leaf|))
    ensures Lengthened(cells, nodes, maxCode, counts)
    ensures |LeafIds(nodes, maxCode, 0)| == Leaves(leaf, |leaf|)
    ensures |cells| == |before| && forall o :: 0 <= o < |before| && o !in nodes ==> cells[o].dl == before[o].dl
  {
    FilledCells(before, nodes, Depths(dad, s), |nodes|);
    ClampedPays(counts, dad, leaf, s);
    DepthsLengthen(before, cells, nodes, maxCode, s, dad, leaf, counts, overflow);
    LeafIdsNumber(nodes, leaf, maxCode, 0);
  }

  lemma StillLengthened(cells: seq<Cell>, cells': seq<Cell>, nodes: seq<nat>, maxCode: nat, counts: seq<nat>)
    requires |counts| == MAX_BITS + 1 && OnlyLengths(cells, cells', LeafIds(nodes, maxCode, 0))
    requires forall o :: 0 <= o <= maxCode && o < |cells| && o !in nodes ==> cells[o].dl == 0
    requires forall l :: 1 <= l <= MAX_BITS ==> |WithLength(cells', LeafIds(nodes, maxCode, 0), l)| == counts[l]
    requires forall o :: o in LeafIds(nodes, maxCode, 0) ==> o < |cells'| && 1 <= cells'[o].dl <= MAX_BITS
    ensures Lengthened(cells', nodes, maxCode, counts)
  {
  }

  /** `gen_bitlen` then `gen_codes`: the symbols of the tree get a complete prefix code. */
  method GenTreeCodes(tree: array<Cell>, nodes: seq<nat>, maxCode: nat, s: nat, ghost dad: seq<nat>,
                      ghost leaf: seq<bool>)
    returns (counts: seq<nat>)
    requires Laid(tree[..], nodes, maxCode, dad, leaf) && 1 <= s <= MAX_BITS && maxCode < tree.Length
    requires Leaves(leaf, |leaf|) <= Pow2(s)
    requires forall o :: 0 <= o <= maxCode && o !in nodes ==> tree[o].dl == 0
    modifies tree
    ensures var lens := Lengths(tree[..maxCode + 1]);
            && Matches(counts, lens) && Kraft(counts, MAX_BITS) == Pow2(MAX_BITS)
            && (forall o :: 0 <= o <= maxCode ==> (lens[o] != 0 <==> o in nodes))
            && Coded(tree[..], counts, lens, maxCode + 1)
    ensures forall l :: s < l <= MAX_BITS ==> counts[l] == 0
    ensures forall o :: 0 <= o < tree.Length && o !in nodes ==> tree[o].dl == old(tree[o].dl)
    ensures counts[s] == 0 ==> AtDepth(tree[..], nodes, dad)
    ensures AtDepth(tree[..], nodes, dad) || Rising(tree[..], nodes, maxCode, 0)
  {
    hide Laid, Kraft, Pow2, Coded, Leaves, WithLength, Count, AtDepth, Rising;
    counts := GenBitLen(tree, nodes, maxCode, s, dad, leaf);
    LengthenedMatches(tree[..], nodes, maxCode, counts);
    assert tree[..][..maxCode + 1] == tree[..maxCode + 1];
    LengthenedInUse(tree[..], nodes, maxCode, counts);
    ghost var lens := Lengths(tree[..maxCode + 1]);
    ghost var deep := tree[..];
    GenCodes(tree, maxCode, counts);
    assert Lengths(tree[..maxCode + 1]) == lens;
    SameDepths(deep, tree[..], nodes, dad);
    SameRise(deep, tree[..], nodes, maxCode);
  }

  lemma SameRise(cells: seq<Cell>, after: seq<Cell>, nodes: seq<nat>, maxCode: nat)
    requires |after| == |cells| && forall o :: 0 <= o < |cells| ==> after[o].dl == cells[o].dl
    ensures Rising(cells, nodes, maxCode, 0) ==> Rising(after, nodes, maxCode, 0)
  {
  }

  lemma SameDepths(cells: seq<Cell>, after: seq<Cell>, nodes: seq<nat>, dad: seq<nat>)
    requires |after| == |cells| && forall o :: 0 <= o < |cells| ==> after[o].dl == cells[o].dl
    ensures AtDepth(cells, nodes, dad) ==> AtDepth(after, nodes, dad)
  {
  }

  lemma LengthenedInUse(cells: seq<Cell>, nodes: seq<nat>, maxCode: nat, counts: seq<nat>)
    requires |counts| == MAX_BITS + 1 && maxCode < |cells| && Lengthened(cells, nodes, maxCode, counts)
    ensures forall o :: 0 <= o <= maxCode ==> (Lengths(cells[..maxCode + 1])[o] != 0 <==> o in nodes)
  {
    forall o | 0 <= o <= maxCode ensures Lengths(cells[..maxCode + 1])[o] != 0 <==> o in nodes {
      if o in nodes {
        assert o in LeafIds(nodes, maxCode, 0);
      }
    }
  }
}

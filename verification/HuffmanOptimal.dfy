/**
 * Why merging the two least weights is best: no code whose Kraft sum is at most 1 costs less than the
 * weights merged on the way.
 */
module HuffmanOptimal {
  import opened BitStrings
  import opened TableRoom
  import opened TreeShape

  function Total(g: seq<nat>): nat {
    if g == [] then 0 else Total(g[..|g| - 1]) + g[|g| - 1]
  }

  lemma {:induction false} TotalUpdate(g: seq<nat>, x: nat, v: nat)
    requires x < |g|
    ensures Total(g[x := v]) + g[x] == Total(g) + v
    decreases |g|
  {
    var n := |g| - 1;
    if x == n {
      assert g[x := v][..n] == g[..n];
    } else {
      TotalUpdate(g[..n], x, v);
      assert g[x := v][..n] == g[..n][x := v];
    }
  }

  lemma TotalUpdate2(g: seq<nat>, x: nat, v: nat, y: nat, w: nat)
    requires x < |g| && y < |g| && x != y
    ensures Total(g[x := v][y := w]) + g[x] + g[y] == Total(g) + v + w
    ensures g[x] + g[y] <= Total(g)
  {
    TotalUpdate(g, x, v);
    TotalUpdate(g[x := v], y, w);
    TotalUpdate(g, x, 0);
    TotalUpdate(g[x := 0], y, 0);
  }

  function Mul(a: nat, b: nat): nat { a * b }

  // Codes for the trees in the queue

  /** What a tree adds to the cost of lengths `l` with weights `w`, if it is queued. */
  ghost function CostOf(q: multiset<nat>, w: seq<nat>, l: seq<nat>, x: nat): nat
    requires x < |w| == |l|
  {
    if x in q then Mul(w[x], l[x]) else 0
  }

  ghost function CostTerms(q: multiset<nat>, w: seq<nat>, l: seq<nat>): (g: seq<nat>)
    requires |w| == |l|
    ensures |g| == |w| && forall x | 0 <= x < |w| :: g[x] == CostOf(q, w, l, x)
  {
    seq(|w|, x requires 0 <= x < |w| => CostOf(q, w, l, x))
  }

  ghost function Cost(q: multiset<nat>, w: seq<nat>, l: seq<nat>): nat
    requires |w| == |l|
  {
    Total(CostTerms(q, w, l))
  }

  /** What it adds to the Kraft sum, in units of 2^-m. */
  ghost function Share(q: multiset<nat>, l: seq<nat>, m: nat, x: nat): nat
    requires x < |l|
  {
    if x in q && l[x] <= m then Pow2(m - l[x]) else 0
  }

  ghost function KraftTerms(q: multiset<nat>, l: seq<nat>, m: nat): (g: seq<nat>)
    ensures |g| == |l| && forall x | 0 <= x < |l| :: g[x] == Share(q, l, m, x)
  {
    seq(|l|, x requires 0 <= x < |l| => Share(q, l, m, x))
  }

  /** The lengths `l` of the trees in the queue, none above `m`, are those of a prefix code. */
  ghost predicate Prefixed(q: multiset<nat>, l: seq<nat>, m: nat) {
    && (forall x | x in q :: x < |l| && q[x] == 1 && l[x] <= m)
    && Total(KraftTerms(q, l, m)) <= Pow2(m)
  }

  lemma Rearrange(a: nat, b: nat, p: nat, q: nat)
    requires a <= b && p <= q
    ensures Mul(a, q) + Mul(b, p) <= Mul(a, p) + Mul(b, q)
  {
    assert (b - a) * (q - p) >= 0;
  }

  lemma SwapCost(q: multiset<nat>, w: seq<nat>, l: seq<nat>, o: nat, x: nat)
    requires |w| == |l| && o in q && x in q && o < |l| && x < |l| && o != x && w[o] <= w[x] && l[o] <= l[x]
    ensures Cost(q, w, l[o := l[x]][x := l[o]]) <= Cost(q, w, l)
  {
    hide Total, Mul, CostTerms;
    var c, l' := CostTerms(q, w, l), l[o := l[x]][x := l[o]];
    var co, cx := Mul(w[o], l[x]), Mul(w[x], l[o]);
    assert CostTerms(q, w, l') == c[o := co][x := cx];
    TotalUpdate2(c, o, co, x, cx);
    Rearrange(w[o], w[x], l[o], l[x]);
  }

  lemma SwapKraft(q: multiset<nat>, l: seq<nat>, m: nat, o: nat, x: nat)
    requires o in q && x in q && o < |l| && x < |l| && o != x
    ensures Total(KraftTerms(q, l[o := l[x]][x := l[o]], m)) == Total(KraftTerms(q, l, m))
  {
    hide Total, Pow2, KraftTerms;
    var k := KraftTerms(q, l, m);
    assert KraftTerms(q, l[o := l[x]][x := l[o]], m) == k[o := k[x]][x := k[o]];
    TotalUpdate2(k, o, k[x], x, k[o]);
  }

  /** Giving the greater length to the lesser weight costs no more. */
  lemma Swap(q: multiset<nat>, w: seq<nat>, l: seq<nat>, m: nat, o: nat, x: nat)
    requires |w| == |l| && Prefixed(q, l, m) && o in q && x in q && w[o] <= w[x] && l[o] <= l[x]
    ensures var l' := l[o := l[x]][x := l[o]]; Prefixed(q, l', m) && Cost(q, w, l') <= Cost(q, w, l)
  {
    hide Cost, KraftTerms, Total, Pow2;
    if o == x {
      assert l[o := l[x]][x := l[o]] == l;
    } else {
      SwapCost(q, w, l, o, x);
      SwapKraft(q, l, m, o, x);
    }
  }

  lemma RearrangeMore(a: nat, b: nat, p: nat, q: nat)
    requires a < b && p < q
    ensures Mul(a, q) + Mul(b, p) < Mul(a, p) + Mul(b, q)
  {
    assert (b - a) * (q - p) > 0;
  }

  lemma SwapSaves(q: multiset<nat>, w: seq<nat>, l: seq<nat>, o: nat, x: nat)
    requires |w| == |l| && o in q && x in q && o < |l| && x < |l| && w[o] < w[x] && l[o] < l[x]
    ensures Cost(q, w, l[o := l[x]][x := l[o]]) < Cost(q, w, l)
  {
    hide Total, Mul, CostTerms;
    var c, l' := CostTerms(q, w, l), l[o := l[x]][x := l[o]];
    var co, cx := Mul(w[o], l[x]), Mul(w[x], l[o]);
    assert CostTerms(q, w, l') == c[o := co][x := cx];
    TotalUpdate2(c, o, co, x, cx);
    RearrangeMore(w[o], w[x], l[o], l[x]);
  }

  /** A lighter symbol never has a shorter code. */
  ghost predicate Graded(q: multiset<nat>, w: seq<nat>, l: seq<nat>) {
    forall x, y | x in q && y in q && x < |w| == |l| && y < |w| && w[x] < w[y] :: l[y] <= l[x]
  }

  /** The lengths of a cheapest code are graded. */
  lemma CheapestIsGraded(q: multiset<nat>, w: seq<nat>, l: seq<nat>, m: nat)
    requires |w| == |l| && Prefixed(q, l, m)
    requires forall other, k | |other| == |w| && Prefixed(q, other, k) :: Cost(q, w, l) <= Cost(q, w, other)
    ensures Graded(q, w, l)
  {
    hide Cost, Prefixed;
    forall x, y | x in q && y in q && x < |w| && y < |w| && w[x] < w[y] ensures l[y] <= l[x] {
      if l[x] < l[y] {
        Swap(q, w, l, m, x, y);
        SwapSaves(q, w, l, x, y);
      }
    }
  }

  /** The longest among those below `n`. */
  lemma {:induction false} Longest(q: multiset<nat>, l: seq<nat>, n: nat, y: nat) returns (x: nat)
    requires n <= |l| && y in q && y < n
    ensures x in q && x < n && forall z | z in q && z < n :: l[z] <= l[x]
    decreases n
  {
    if n - 1 !in q {
      x := Longest(q, l, n - 1, y);
    } else if exists z | z in q :: z < n - 1 {
      var z :| z in q && z < n - 1;
      x := Longest(q, l, n - 1, z);
      if l[x] < l[n - 1] {
        x := n - 1;
      }
    } else {
      x := n - 1;
    }
  }

  /** The Kraft sum in smaller units. */
  lemma {:induction false} Rebased(q: multiset<nat>, l: seq<nat>, m: nat, d: nat)
    requires forall x | x in q && x < |l| :: l[x] <= m
    ensures Total(KraftTerms(q, l, m + d)) == Shl(Total(KraftTerms(q, l, m)), d)
    decreases |l|
  {
    hide Pow2, Shl, KraftTerms;
    if l == [] {
      ShlNothing(d);
    } else {
      var n := |l| - 1;
      KraftSplits(q, l, m);
      KraftSplits(q, l, m + d);
      Rebased(q, l[..n], m, d);
      var last := if n in q then Pow2(m - l[n]) else 0;
      ShlSum(Total(KraftTerms(q, l[..n], m)), last, d);
      if n in q {
        PowerShifted(m - l[n], d);
      } else {
        ShlNothing(d);
      }
    }
  }

  lemma KraftSplits(q: multiset<nat>, l: seq<nat>, m: nat)
    requires l != []
    ensures var n := |l| - 1;
            Total(KraftTerms(q, l, m))
            == Total(KraftTerms(q, l[..n], m)) + if n in q && l[n] <= m then Pow2(m - l[n]) else 0
  {
    hide Pow2, KraftTerms;
    var n := |l| - 1;
    assert KraftTerms(q, l, m)[..n] == KraftTerms(q, l[..n], m);
  }

  lemma {:induction false} ShlNothing(d: nat)
    ensures Shl(0, d) == 0
    decreases d
  {
    if d > 0 {
      ShlNothing(d - 1);
    }
  }

  lemma {:induction false} PowerShifted(a: nat, d: nat)
    ensures Shl(Pow2(a), d) == Pow2(a + d)
    decreases d
  {
    if d > 0 {
      PowerShifted(a, d - 1);
    }
  }

  /** The one longest code may be cut to the length of the next. */
  lemma Shorten(q: multiset<nat>, w: seq<nat>, l: seq<nat>, m: nat, o: nat, f: nat)
    requires |w| == |l| && Prefixed(q, l, m) && o in q && f in q && o != f && l[f] <= l[o]
    requires forall x | x in q && x != o :: l[x] <= l[f]
    ensures var l' := l[o := l[f]]; Prefixed(q, l', l[f]) && Cost(q, w, l') <= Cost(q, w, l)
  {
    hide Total, KraftTerms, Pow2, Cost;
    ShortenKraft(q, l, m, o, l[f]);
    ShortenCost(q, w, l, o, l[f]);
  }

  lemma ShortenKraft(q: multiset<nat>, l: seq<nat>, m: nat, o: nat, b: nat)
    requires Prefixed(q, l, m) && o in q && b <= l[o] && forall x | x in q && x != o :: l[x] <= b
    ensures Total(KraftTerms(q, l[o := b], b)) <= Pow2(b)
  {
    hide Total, Pow2, Shl, KraftTerms;
    var l', rest := l[o := b], q - multiset{o};
    var k := KraftTerms(q, l, m);
    assert KraftTerms(rest, l, m) == k[o := 0];
    TotalUpdate(k, o, 0);
    Rebased(rest, l, b, m - b);
    var t := KraftTerms(rest, l, b);
    PowerShifted(b, m - b);
    if Pow2(b) <= Total(t) {
      ShlOrder(Pow2(b), Total(t), m - b);
    }
    PowerOfNone();
    assert KraftTerms(q, l', b) == t[o := 1];
    TotalUpdate(t, o, 1);
  }

  lemma PowerOfNone()
    ensures Pow2(0) == 1 && Pow2(1) == 2
  {
  }

  lemma ShortenCost(q: multiset<nat>, w: seq<nat>, l: seq<nat>, o: nat, b: nat)
    requires |w| == |l| && o in q && o < |l| && b <= l[o]
    ensures Cost(q, w, l[o := b]) <= Cost(q, w, l)
  {
    hide Total, Mul, CostTerms;
    var c := CostTerms(q, w, l);
    assert CostTerms(q, w, l[o := b]) == c[o := Mul(w[o], b)];
    TotalUpdate(c, o, Mul(w[o], b));
    Scaled(w[o], b, l[o]);
  }

  lemma Scaled(a: nat, b: nat, c: nat)
    requires b <= c
    ensures Mul(a, b) <= Mul(a, c)
  {
  }

  /** Two codes of the greatest length give way to one that is shorter. */
  lemma Join(q: multiset<nat>, w: seq<nat>, l: seq<nat>, m: nat, o: nat, f: nat, u: nat)
    requires |w| == |l| && Prefixed(q, l, m) && o in q && f in q && o != f && l[o] == l[f] == m && u !in q && u < |l|
    ensures 1 <= m
    ensures var q' := q - multiset{o} - multiset{f} + multiset{u};
            var w', l' := w[u := w[o] + w[f]], l[u := m - 1];
            Prefixed(q', l', m) && Cost(q', w', l') + w[o] + w[f] == Cost(q, w, l)
  {
    hide Total, KraftTerms, Pow2, Cost;
    JoinKraft(q, l, m, o, f, u);
    JoinCost(q, w, l, m, o, f, u);
  }

  lemma JoinKraft(q: multiset<nat>, l: seq<nat>, m: nat, o: nat, f: nat, u: nat)
    requires Prefixed(q, l, m) && o in q && f in q && o != f && l[o] == l[f] == m && u !in q && u < |l|
    ensures 1 <= m
    ensures Total(KraftTerms(q - multiset{o} - multiset{f} + multiset{u}, l[u := m - 1], m))
            == Total(KraftTerms(q, l, m))
  {
    hide Total, Pow2, KraftTerms;
    PowerOfNone();
    var k := KraftTerms(q, l, m);
    TotalUpdate2(k, o, 0, f, 0);
    var k' := k[o := 0][f := 0];
    assert KraftTerms(q - multiset{o} - multiset{f} + multiset{u}, l[u := m - 1], m) == k'[u := 2];
    TotalUpdate(k', u, 2);
  }

  lemma JoinCost(q: multiset<nat>, w: seq<nat>, l: seq<nat>, m: nat, o: nat, f: nat, u: nat)
    requires |w| == |l| && (forall x | x in q :: x < |l| && q[x] == 1)
    requires o in q && f in q && o != f && l[o] == l[f] == m && u !in q && u < |l| && 1 <= m
    ensures Cost(q - multiset{o} - multiset{f} + multiset{u}, w[u := w[o] + w[f]], l[u := m - 1]) + w[o] + w[f]
            == Cost(q, w, l)
  {
    hide Total, Mul, CostTerms;
    var q' := q - multiset{o} - multiset{f} + multiset{u};
    var w', l' := w[u := w[o] + w[f]], l[u := m - 1];
    var c, joined := CostTerms(q, w, l), Mul(w[o] + w[f], m - 1);
    var c' := c[o := 0][f := 0];
    assert CostTerms(q', w', l') == c'[u := joined];
    TotalUpdate2(c, o, 0, f, 0);
    TotalUpdate(c', u, joined);
    Distribute(w[o], w[f], m);
  }

  lemma Distribute(a: nat, b: nat, m: nat)
    requires 1 <= m
    ensures Mul(a, m) + Mul(b, m) == Mul(a + b, m - 1) + a + b
  {
  }

  // One round

  /** `o` and `f` are the two least of the queue. */
  ghost predicate Least(q: multiset<nat>, w: seq<nat>, o: nat, f: nat) {
    && o in q && f in q && o != f && (forall x | x in q :: x < |w|)
    && (forall x | x in q :: w[o] <= w[x]) && forall x | x in q && x != o :: w[f] <= w[x]
  }

  ghost function Joined(q: multiset<nat>, o: nat, f: nat, u: nat): multiset<nat> {
    q - multiset{o} - multiset{f} + multiset{u}
  }

  /** Any code before the two least are merged gives one after it that costs less by their weights. */
  lemma Round(q: multiset<nat>, w: seq<nat>, l: seq<nat>, m: nat, o: nat, f: nat, u: nat)
    returns (l': seq<nat>, m': nat)
    requires |w| == |l| && Prefixed(q, l, m) && Least(q, w, o, f) && u !in q && u < |l|
    ensures |l'| == |w| && Prefixed(Joined(q, o, f, u), l', m')
    ensures Cost(Joined(q, o, f, u), w[u := w[o] + w[f]], l') + w[o] + w[f] <= Cost(q, w, l)
  {
    hide Cost, KraftTerms, Total, Pow2;
    var x := Longest(q, l, |l|, o);
    Swap(q, w, l, m, o, x);
    var l1 := l[o := l[x]][x := l[o]];
    var rest := q - multiset{o};
    var y := Longest(rest, l1, |l1|, f);
    Swap(q, w, l1, m, f, y);
    var l2 := l1[f := l1[y]][y := l1[f]];
    Shorten(q, w, l2, m, o, f);
    var l3 := l2[o := l2[f]];
    m' := l2[f];
    Join(q, w, l3, m', o, f, u);
    l' := l3[u := m' - 1];
  }

  // All rounds

  /** Some code for the queue costs no more than `c - spent`. */
  ghost predicate Affordable(q: multiset<nat>, w: seq<nat>, spent: nat, c: nat) {
    exists l, m :: |l| == |w| && Prefixed(q, l, m) && Cost(q, w, l) + spent <= c
  }

  /** From any code for the first queue there is one for this queue that costs less by what was merged. */
  ghost predicate Dominates(q0: multiset<nat>, w0: seq<nat>, q: multiset<nat>, w: seq<nat>, spent: nat) {
    forall l, m | |l| == |w0| && Prefixed(q0, l, m) :: Affordable(q, w, spent, Cost(q0, w0, l))
  }

  lemma AtFirst(q: multiset<nat>, w: seq<nat>)
    ensures Dominates(q, w, q, w, 0)
  {
    hide Prefixed, Cost;
    forall l, m | |l| == |w| && Prefixed(q, l, m) ensures Affordable(q, w, 0, Cost(q, w, l)) {
      assert Cost(q, w, l) + 0 <= Cost(q, w, l);
    }
  }

  lemma NextRound(q0: multiset<nat>, w0: seq<nat>, q: multiset<nat>, w: seq<nat>, spent: nat, o: nat, f: nat, u: nat)
    requires Dominates(q0, w0, q, w, spent) && Least(q, w, o, f) && u !in q && u < |w|
    ensures Dominates(q0, w0, Joined(q, o, f, u), w[u := w[o] + w[f]], spent + w[o] + w[f])
  {
    hide Prefixed, Cost, Joined;
    var q', w' := Joined(q, o, f, u), w[u := w[o] + w[f]];
    forall l, m | |l| == |w0| && Prefixed(q0, l, m) ensures Affordable(q', w', spent + w[o] + w[f], Cost(q0, w0, l)) {
      assert Affordable(q, w, spent, Cost(q0, w0, l));
      var k, n :| |k| == |w| && Prefixed(q, k, n) && Cost(q, w, k) + spent <= Cost(q0, w0, l);
      var k', n' := Round(q, w, k, n, o, f, u);
      assert Cost(q', w', k') + (spent + w[o] + w[f]) <= Cost(q0, w0, l);
    }
  }

  /** Once all is merged: no code for the first queue costs less than what was merged. */
  lemma NoneCheaper(q0: multiset<nat>, w0: seq<nat>, q: multiset<nat>, w: seq<nat>, spent: nat, l: seq<nat>, m: nat)
    requires Dominates(q0, w0, q, w, spent) && |l| == |w0| && Prefixed(q0, l, m)
    ensures spent <= Cost(q0, w0, l)
  {
    assert Affordable(q, w, spent, Cost(q0, w0, l));
  }

  // The weights in the queue stay the same in sum

  ghost function WeightOf(q: multiset<nat>, w: seq<nat>, x: nat): nat
    requires x < |w|
  {
    if x in q then w[x] else 0
  }

  ghost function Weights(q: multiset<nat>, w: seq<nat>): (g: seq<nat>)
    ensures |g| == |w| && forall x | 0 <= x < |w| :: g[x] == WeightOf(q, w, x)
  {
    seq(|w|, x requires 0 <= x < |w| => WeightOf(q, w, x))
  }

  lemma WeightsKept(q: multiset<nat>, w: seq<nat>, o: nat, f: nat, u: nat)
    requires o in q && f in q && o != f && u !in q && o < |w| && f < |w| && u < |w| && forall x | x in q :: q[x] == 1
    ensures w[o] + w[f] <= Total(Weights(q, w))
    ensures Total(Weights(Joined(q, o, f, u), w[u := w[o] + w[f]])) == Total(Weights(q, w))
  {
    hide Total, Weights;
    var g := Weights(q, w);
    var g' := g[o := 0][f := 0];
    TotalUpdate2(g, o, 0, f, 0);
    assert Weights(Joined(q, o, f, u), w[u := w[o] + w[f]]) == g'[u := w[o] + w[f]];
    TotalUpdate(g', u, w[o] + w[f]);
  }

  // What a tree costs is what was merged to make it

  /** The weights of the children of node `k` from position `j` on. */
  function KidSum(dad: seq<nat>, v: seq<nat>, k: nat, j: nat): nat
    requires |v| == |dad|
    decreases |dad| - j
  {
    if j >= |dad| then 0 else (if dad[j] == k then v[j] else 0) + KidSum(dad, v, k, j + 1)
  }

  lemma {:induction false} NoKids(dad: seq<nat>, v: seq<nat>, k: nat, j: nat)
    requires |v| == |dad| && Kids(dad, k, j) == 0
    ensures KidSum(dad, v, k, j) == 0
    decreases |dad| - j
  {
    if j < |dad| {
      NoKids(dad, v, k, j + 1);
    }
  }

  /** The depth of every node. */
  ghost predicate Deep(dad: seq<nat>, d: seq<nat>) {
    |d| == |dad| >= 1 && d[0] == 0 && forall k | 1 <= k < |dad| :: dad[k] < k && d[k] == d[dad[k]] + 1
  }

  /** The leaves before `m`, each at its depth. */
  function LeafCost(leaf: seq<bool>, v: seq<nat>, d: seq<nat>, m: nat): nat
    requires m <= |leaf| == |v| == |d|
  {
    if m == 0 then 0 else LeafCost(leaf, v, d, m - 1) + if leaf[m - 1] then Mul(v[m - 1], d[m - 1]) else 0
  }

  /** The nodes from `j` on whose parents come before `m`, each at its parent's depth. */
  function ParentCost(dad: seq<nat>, v: seq<nat>, d: seq<nat>, m: nat, j: nat): nat
    requires m <= |d| == |v| == |dad|
    decreases |dad| - j
  {
    if j >= |dad| then 0
    else (if dad[j] < m then Mul(v[j], d[dad[j]]) else 0) + ParentCost(dad, v, d, m, j + 1)
  }

  lemma MulAdds(a: nat, b: nat, c: nat)
    ensures Mul(a + b, c) == Mul(a, c) + Mul(b, c) && Mul(a, c + 1) == Mul(a, c) + a && Mul(0, c) == 0
  {
    assert (a + b) * c == a * c + b * c;
  }

  lemma {:induction false} OneMoreParent(dad: seq<nat>, v: seq<nat>, d: seq<nat>, m: nat, j: nat)
    requires m < |d| == |v| == |dad|
    ensures ParentCost(dad, v, d, m + 1, j) == ParentCost(dad, v, d, m, j) + Mul(KidSum(dad, v, m, j), d[m])
    decreases |dad| - j
  {
    hide Mul;
    if j < |dad| {
      OneMoreParent(dad, v, d, m, j + 1);
      MulAdds(if dad[j] == m then v[j] else 0, KidSum(dad, v, m, j + 1), d[m]);
      MulAdds(0, 0, d[m]);
    } else {
      MulAdds(0, 0, d[m]);
    }
  }

  function SumAfterRoot(v: seq<nat>, m: nat): nat
    requires m <= |v|
  {
    if m <= 1 then 0 else SumAfterRoot(v, m - 1) + v[m - 1]
  }

  lemma {:induction false} NoParents(dad: seq<nat>, v: seq<nat>, d: seq<nat>, j: nat)
    requires |d| == |v| == |dad| >= 1 && d[0] == 0
    ensures ParentCost(dad, v, d, 1, j) == 0
    decreases |dad| - j
  {
    if j < |dad| {
      NoParents(dad, v, d, j + 1);
    }
  }

  lemma {:induction false} DepthsCount(dad: seq<nat>, leaf: seq<bool>, v: seq<nat>, d: seq<nat>, m: nat)
    requires FullTree(dad, leaf) && Deep(dad, d) && |v| == |dad| && 1 <= m <= |dad|
    requires forall k | 1 <= k < |dad| && !leaf[k] :: KidSum(dad, v, k, k + 1) == v[k]
    ensures LeafCost(leaf, v, d, m) + ParentCost(dad, v, d, m, m) == SumAfterRoot(v, m)
    decreases m
  {
    hide Mul;
    if m == 1 {
      NoParents(dad, v, d, 1);
      assert LeafCost(leaf, v, d, 1) == LeafCost(leaf, v, d, 0);
    } else {
      var k := m - 1;
      DepthsCount(dad, leaf, v, d, k);
      OneMoreParent(dad, v, d, k, m);
      MulAdds(v[k], 0, d[dad[k]]);
      MulAdds(0, 0, d[k]);
      if leaf[k] {
        NoKids(dad, v, k, m);
      }
      assert ParentCost(dad, v, d, k, k) == Mul(v[k], d[dad[k]]) + ParentCost(dad, v, d, k, m);
    }
  }

  /** A full tree whose inner nodes weigh what their children do costs the sum of all but the root. */
  lemma TreeCost(dad: seq<nat>, leaf: seq<bool>, v: seq<nat>, d: seq<nat>)
    requires FullTree(dad, leaf) && Deep(dad, d) && |v| == |dad|
    requires forall k | 1 <= k < |dad| && !leaf[k] :: KidSum(dad, v, k, k + 1) == v[k]
    ensures LeafCost(leaf, v, d, |dad|) == SumAfterRoot(v, |dad|)
  {
    DepthsCount(dad, leaf, v, d, |dad|);
  }
}

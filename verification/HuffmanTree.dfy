/** The priority queue and the Huffman tree built with it: `pqdownheap` and `build_tree`. */
module PriorityQueue {

  /** A node's frequency and the depth of its tree. */
  datatype Key = Key(freq: nat, depth: nat)

  /** `smaller`, which also says yes to equals. */
  predicate Leq(keys: seq<Key>, a: nat, b: nat)
    requires a < |keys| && b < |keys|
  {
    keys[a].freq < keys[b].freq || (keys[a].freq == keys[b].freq && keys[a].depth <= keys[b].depth)
  }

  ghost predicate Known(h: seq<nat>, keys: seq<Key>) { forall i | 0 <= i < |h| :: h[i] < |keys| }

  /** Node `i` of the heap does not come before its parent. */
  predicate Below(h: seq<nat>, keys: seq<Key>, i: nat)
    requires 1 <= i < |h| && h[i] < |keys| && h[i / 2] < |keys|
  {
    Leq(keys, h[i / 2], h[i])
  }

  /** In the heap h[1..], every node whose parent is at `lo` or later is in order with it. */
  ghost predicate Heap(h: seq<nat>, keys: seq<Key>, lo: nat)
    requires Known(h, keys)
  {
    forall i | 2 <= i < |h| && lo <= i / 2 :: Below(h, keys, i)
  }

  // Moving a hole

  lemma HoleMoves(h: seq<nat>, k: nat, c: nat, n: nat)
    requires k < |h| && c < |h| && k != c
    ensures multiset(h[k := h[c]][c := n]) == multiset(h[k := n])
  {
    var g := h[k := h[c]];
    assert multiset(g) == multiset(h) - multiset{h[k]} + multiset{h[c]};
    assert multiset(g[c := n]) == multiset(g) - multiset{g[c]} + multiset{n};
    assert multiset(h[k := n]) == multiset(h) - multiset{h[k]} + multiset{n};
  }

  /** The heap with a hole at `k` for the value `n`: in order except around the hole, and what is
      above the hole comes before `n` and before what is under the hole. */
  ghost predicate Holed(h: seq<nat>, keys: seq<Key>, lo: nat, k: nat, n: nat)
    requires Known(h, keys) && n < |keys|
  {
    && lo <= k < |h| && 1 <= lo
    && (forall i | 2 <= i < |h| && lo <= i / 2 && i != k && i / 2 != k :: Below(h, keys, i))
    && (lo <= k / 2 ==> Leq(keys, h[k / 2], n))
    && (lo <= k / 2 ==> forall i | 2 <= i < |h| && i / 2 == k :: Leq(keys, h[k / 2], h[i]))
  }

  lemma HoleDown(h: seq<nat>, keys: seq<Key>, lo: nat, k: nat, n: nat, c: nat)
    requires Known(h, keys) && n < |keys| && Holed(h, keys, lo, k, n) && 2 <= c < |h| && c / 2 == k
    requires Leq(keys, h[c], n) && forall i | 2 <= i < |h| && i / 2 == k :: Leq(keys, h[c], h[i])
    ensures Known(h[k := h[c]], keys) && Holed(h[k := h[c]], keys, lo, c, n)
  {
    var g := h[k := h[c]];
    forall i | 2 <= i < |g| && lo <= i / 2 && i != c && i / 2 != c ensures Below(g, keys, i) {
      if i == k {
        assert Leq(keys, h[k / 2], h[c]);
      } else if i / 2 != k {
        assert Below(h, keys, i);
      }
    }
    forall i | 2 <= i < |g| && i / 2 == c ensures Leq(keys, g[k], g[i]) {
      assert Below(h, keys, i);
    }
  }

  lemma HoleFilled(h: seq<nat>, keys: seq<Key>, lo: nat, k: nat, n: nat)
    requires Known(h, keys) && n < |keys| && Holed(h, keys, lo, k, n)
    requires forall i | 2 <= i < |h| && i / 2 == k :: Leq(keys, n, h[i])
    ensures Known(h[k := n], keys) && Heap(h[k := n], keys, lo)
  {
    var g := h[k := n];
    forall i | 2 <= i < |g| && lo <= i / 2 ensures Below(g, keys, i) {
      if i != k && i / 2 != k {
        assert Below(h, keys, i);
      }
    }
  }

  lemma StartHole(h: seq<nat>, keys: seq<Key>, t: nat)
    requires Known(h, keys) && 1 <= t < |h| && Heap(h, keys, t + 1)
    ensures Holed(h, keys, t, t, h[t])
  {
  }

  /** The child that goes up. */
  function Child(h: seq<nat>, keys: seq<Key>, k: nat): (c: nat)
    requires Known(h, keys) && 1 <= k && 2 * k < |h|
    ensures 2 <= c < |h| && c / 2 == k && forall i | 2 <= i < |h| && i / 2 == k :: Leq(keys, h[c], h[i])
  {
    if 2 * k + 1 < |h| && Leq(keys, h[2 * k + 1], h[2 * k]) then 2 * k + 1 else 2 * k
  }

  /** `pqdownheap`: the value at `t` sinks to its place among h[t..]. */
  method DownHeap(h0: seq<nat>, keys: seq<Key>, t: nat) returns (h: seq<nat>)
    requires Known(h0, keys) && 1 <= t < |h0| && Heap(h0, keys, t + 1)
    ensures |h| == |h0| && Known(h, keys) && Heap(h, keys, t) && multiset(h) == multiset(h0) && h[0] == h0[0]
  {
    hide Below, Holed, Heap;
    h := h0;
    var n, k: nat := h[t], t;
    StartHole(h, keys, t);
    assert h[k := n] == h0;
    while 2 * k < |h|
      invariant |h| == |h0| && Known(h, keys) && 1 <= k < |h| && Holed(h, keys, t, k, n) && h[0] == h0[0]
      invariant multiset(h[k := n]) == multiset(h0)
      decreases |h| - k
    {
      var i := Child(h, keys, k);
      if Leq(keys, n, h[i]) {
        HoleFilled(h, keys, t, k, n);
        return h[k := n];
      }
      HoleDown(h, keys, t, k, n, i);
      HoleMoves(h, k, i, n);
      h := h[k := h[i]];
      k := i;
    }
    HoleFilled(h, keys, t, k, n);
    h := h[k := n];
  }

  /** The top of a heap comes before everything in it. */
  lemma {:induction false} TopIsLeast(h: seq<nat>, keys: seq<Key>, i: nat)
    requires Known(h, keys) && Heap(h, keys, 1) && 1 <= i < |h|
    ensures Leq(keys, h[1], h[i])
    decreases i
  {
    if i > 1 {
      assert Below(h, keys, i);
      TopIsLeast(h, keys, i / 2);
    }
  }

  /** Heap order throughout, from any start. */
  method MakeHeap(h0: seq<nat>, keys: seq<Key>) returns (h: seq<nat>)
    requires Known(h0, keys) && 1 <= |h0|
    ensures |h| == |h0| && Known(h, keys) && Heap(h, keys, 1) && multiset(h) == multiset(h0) && h[0] == h0[0]
  {
    h := h0;
    var o := (|h| - 1) / 2;
    while o >= 1
      invariant 0 <= o && 2 * o < |h| && |h| == |h0| && Known(h, keys) && Heap(h, keys, o + 1)
                && multiset(h) == multiset(h0) && h[0] == h0[0]
    {
      h := DownHeap(h, keys, o);
      o := o - 1;
    }
  }

  /** What is in the queue. */
  ghost function Queued(h: seq<nat>): multiset<nat>
    requires 1 <= |h|
  {
    multiset(h[1..])
  }

  lemma QueuedKept(h: seq<nat>, g: seq<nat>)
    requires 1 <= |h| == |g| && h[0] == g[0] && multiset(h) == multiset(g)
    ensures Queued(h) == Queued(g)
  {
    assert h == [h[0]] + h[1..] && g == [g[0]] + g[1..];
    assert Queued(h) == multiset(h) - multiset{h[0]} && Queued(g) == multiset(g) - multiset{g[0]};
  }

  /** Replacing the top by the last. */
  function Popped(h: seq<nat>): seq<nat>
    requires 3 <= |h|
  {
    h[..|h| - 1][1 := h[|h| - 1]]
  }

  lemma PoppedKeeps(h: seq<nat>, keys: seq<Key>)
    requires 3 <= |h| && Known(h, keys) && Heap(h, keys, 1)
    ensures Known(Popped(h), keys) && Heap(Popped(h), keys, 2)
    ensures Queued(Popped(h)) == Queued(h) - multiset{h[1]} && h[1] in Queued(h)
  {
    var g, n := Popped(h), |h| - 1;
    forall i | 2 <= i < |g| && 2 <= i / 2 ensures Below(g, keys, i) {
      assert Below(h, keys, i);
    }
    assert h[1..] == [h[1]] + h[2..n] + [h[n]];
    assert g[1..] == [h[n]] + h[2..n];
  }

  /** `pqremove`: take the least. */
  method Remove(h0: seq<nat>, keys: seq<Key>) returns (top: nat, h: seq<nat>)
    requires 3 <= |h0| && Known(h0, keys) && Heap(h0, keys, 1)
    ensures |h| == |h0| - 1 && Known(h, keys) && Heap(h, keys, 1) && h[0] == h0[0]
    ensures top < |keys| && top in Queued(h0) && Queued(h) == Queued(h0) - multiset{top}
    ensures forall x | x in Queued(h0) :: x < |keys| && Leq(keys, top, x)
  {
    hide Heap, Leq;
    top := h0[1];
    forall x | x in Queued(h0) ensures x < |keys| && Leq(keys, top, x) {
      var i :| 1 <= i < |h0| && h0[i] == x;
      TopIsLeast(h0, keys, i);
    }
    PoppedKeeps(h0, keys);
    h := DownHeap(Popped(h0), keys, 1);
    QueuedKept(Popped(h0), h);
  }

  /** Put a new node in the place of the top. */
  method ReplaceTop(h0: seq<nat>, keys: seq<Key>, u: nat) returns (h: seq<nat>)
    requires 2 <= |h0| && Known(h0, keys) && u < |keys| && Heap(h0, keys, 2)
    ensures |h| == |h0| && Known(h, keys) && Heap(h, keys, 1) && h[0] == h0[0]
    ensures Queued(h) == Queued(h0) - multiset{h0[1]} + multiset{u}
  {
    h := h0[1 := u];
    assert Heap(h, keys, 2) by {
      forall i | 2 <= i < |h| && 2 <= i / 2 ensures Below(h, keys, i) {
        assert Below(h0, keys, i);
      }
    }
    assert h0[1..] == [h0[1]] + h0[2..] && h[1..] == [u] + h0[2..];
    ghost var g := h;
    h := DownHeap(h, keys, 1);
    QueuedKept(g, h);
  }

  /** The queue does not look at the keys of nodes that are not in it. */
  lemma OtherKeys(h: seq<nat>, keys: seq<Key>, more: seq<Key>, lo: nat)
    requires Known(h, keys) && Heap(h, keys, lo) && |keys| <= |more|
             && forall i | 0 <= i < |h| :: more[h[i]] == keys[h[i]]
    ensures Known(h, more) && Heap(h, more, lo)
  {
    forall i | 2 <= i < |h| && lo <= i / 2 ensures Below(h, more, i) {
      assert Below(h, keys, i);
    }
  }
}

/** The forest that the merging rounds leave behind. */
module HuffmanTree {
  import opened PriorityQueue
  import opened BitStrings
  import opened CanonicalCodes
  import opened TreeShape
  import opened HuffmanLengths
  import Opt = HuffmanOptimal

  /** How many of the listed nodes from `i` on have parent `p`. */
  function Children(list: seq<nat>, par: seq<nat>, p: nat, i: nat): nat
    requires forall j | 0 <= j < |list| :: list[j] < |par|
    decreases |list| - i
  {
    if i >= |list| then 0 else (if par[list[i]] == p then 1 else 0) + Children(list, par, p, i + 1)
  }

  /** Nodes below `elems` are symbols, from `elems` up to `node` inner nodes. */
  datatype Shape = Shape(elems: nat, node: nat)

  /** The parent of a listed node is still queued or comes earlier in the list. */
  ghost predicate HasParent(list: seq<nat>, queue: multiset<nat>, par: seq<nat>, sh: Shape, i: nat)
    requires i < |list| && list[i] < |par|
  {
    var p := par[list[i]];
    sh.elems <= p < sh.node && (p in queue || exists j :: 0 <= j < i && list[j] == p)
  }

  ghost predicate Known(list: seq<nat>, queue: multiset<nat>, par: seq<nat>, sh: Shape) {
    && sh.elems <= sh.node <= |par|
    && (forall j | 0 <= j < |list| :: list[j] < sh.node) && forall x | x in queue :: x < sh.node
  }

  ghost predicate Forest(list: seq<nat>, queue: multiset<nat>, par: seq<nat>, sh: Shape) {
    && Known(list, queue, par, sh)
    && (forall x :: (queue + multiset(list))[x] <= 1)
    && (forall i | 0 <= i < |list| :: HasParent(list, queue, par, sh, i))
    && forall p | sh.elems <= p < sh.node :: Children(list, par, p, 0) == 2
  }

  lemma {:induction false} ChildrenShift(front: seq<nat>, list: seq<nat>, par: seq<nat>, par': seq<nat>, p: nat, i: nat)
    requires |par| <= |par'| && (forall j | 0 <= j < |list| :: list[j] < |par|)
             && forall j | 0 <= j < |front| :: front[j] < |par'|
    requires forall j {:trigger list[j]} | 0 <= j < |list| :: par'[list[j]] == par[list[j]]
    ensures Children(front + list, par', p, |front| + i) == Children(list, par, p, i)
    decreases |list| - i
  {
    if i < |list| {
      ChildrenShift(front, list, par, par', p, i + 1);
    }
  }

  /** Merging two queued trees under a new node. */
  lemma Merge(list: seq<nat>, queue: multiset<nat>, par: seq<nat>, sh: Shape, o: nat, f: nat)
    requires Forest(list, queue, par, sh) && sh.node < |par| && o in queue && f in queue - multiset{o}
    ensures o < |par| && f < |par|
    ensures Forest([f, o] + list, queue - multiset{o} - multiset{f} + multiset{sh.node},
                   par[o := sh.node][f := sh.node], sh.(node := sh.node + 1))
  {
    var u, par' := sh.node, par[o := sh.node][f := sh.node];
    var list', queue', sh' := [f, o] + list, queue - multiset{o} - multiset{f} + multiset{u}, sh.(node := u + 1);
    assert multiset(list') == multiset{f, o} + multiset(list);
    assert (queue + multiset(list))[o] <= 1 && (queue + multiset(list))[f] <= 1;
    assert o !in multiset(list) && f !in multiset(list) && o != f;
    forall i | 0 <= i < |list'| ensures HasParent(list', queue', par', sh', i) {
      if i >= 2 {
        MergeParent(list, queue, par, sh, o, f, i - 2);
      } else {
        assert par'[list'[i]] == u && u in queue';
      }
    }
    forall p | sh.elems <= p < u + 1 ensures Children(list', par', p, 0) == 2 {
      ChildrenShift([f, o], list, par, par', p, 0);
      if p == u {
        NoChildren(list, par, sh, queue, p, 0);
      }
    }
    forall x ensures (queue' + multiset(list'))[x] <= 1 {
      if x == u {
        assert u !in queue && u !in multiset(list);
      } else {
        assert (queue' + multiset(list'))[x] == (queue + multiset(list))[x];
      }
    }
  }

  lemma {:induction false} NoChildren(list: seq<nat>, par: seq<nat>, sh: Shape, queue: multiset<nat>, p: nat, i: nat)
    requires Known(list, queue, par, sh) && forall j | 0 <= j < |list| :: HasParent(list, queue, par, sh, j)
    requires p >= sh.node || p < sh.elems
    ensures Children(list, par, p, i) == 0
    decreases |list| - i
  {
    if i < |list| {
      assert HasParent(list, queue, par, sh, i);
      NoChildren(list, par, sh, queue, p, i + 1);
    }
  }

  lemma MergeParent(list: seq<nat>, queue: multiset<nat>, par: seq<nat>, sh: Shape, o: nat, f: nat, i: nat)
    requires Forest(list, queue, par, sh) && sh.node < |par| && o in queue && f in queue && o != f && i < |list|
    requires o !in list && f !in list
    ensures o < |par| && f < |par|
    ensures HasParent([f, o] + list, queue - multiset{o} - multiset{f} + multiset{sh.node},
                      par[o := sh.node][f := sh.node], sh.(node := sh.node + 1), i + 2)
  {
    assert HasParent(list, queue, par, sh, i);
    var p, list' := par[list[i]], [f, o] + list;
    assert list'[i + 2] == list[i] && list[i] != o && list[i] != f;
    if p == o {
      assert list'[1] == p;
    } else if p == f {
      assert list'[0] == p;
    } else if p !in queue {
      var j :| 0 <= j < i && list[j] == p;
      assert list'[j + 2] == p;
    }
  }

  // One tree left

  ghost function IndexOf(s: seq<nat>, x: nat): nat {
    if s == [] || s[0] == x then 0 else 1 + IndexOf(s[1..], x)
  }

  lemma {:induction false} IndexFound(s: seq<nat>, j: nat)
    requires j < |s| && Distinct(s)
    ensures IndexOf(s, s[j]) == j
    decreases |s|
  {
    if j > 0 {
      IndexFound(s[1..], j - 1);
    }
  }

  ghost function Dads(nodes: seq<nat>, par: seq<nat>): (dad: seq<nat>)
    requires forall k | 0 <= k < |nodes| :: nodes[k] < |par|
    ensures |dad| == |nodes|
  {
    seq(|nodes|, k requires 0 <= k < |nodes| => if k == 0 then 0 else IndexOf(nodes, par[nodes[k]]))
  }

  lemma ListedOnce(list: seq<nat>, r: nat)
    requires forall x :: (multiset{r} + multiset(list))[x] <= 1
    ensures Distinct([r] + list)
  {
    var nodes := [r] + list;
    assert multiset(nodes) == multiset{r} + multiset(list);
    forall j, k | 0 <= j < k < |nodes| ensures nodes[j] != nodes[k] {
      var x := nodes[k];
      assert nodes == nodes[..k] + [x] + nodes[k + 1..];
      assert multiset(nodes) == multiset(nodes[..k]) + multiset{x} + multiset(nodes[k + 1..]);
      assert multiset(nodes)[x] <= 1;
      assert nodes[..k][j] == nodes[j];
    }
  }

  /** Every node but the first names a node before it. */
  lemma DadBefore(list: seq<nat>, r: nat, par: seq<nat>, sh: Shape, k: nat)
    requires Forest(list, multiset{r}, par, sh) && 1 <= k <= |list|
    ensures var nodes := [r] + list;
            Dads(nodes, par)[k] < k && nodes[Dads(nodes, par)[k]] == par[nodes[k]]
  {
    var nodes := [r] + list;
    ListedOnce(list, r);
    assert HasParent(list, multiset{r}, par, sh, k - 1);
    var p := par[nodes[k]];
    if p == r {
      IndexFound(nodes, 0);
    } else {
      var j :| 0 <= j < k - 1 && list[j] == p;
      IndexFound(nodes, j + 1);
    }
  }

  lemma {:induction false} KidsAreChildren(list: seq<nat>, r: nat, par: seq<nat>, sh: Shape, k: nat, j: nat)
    requires Forest(list, multiset{r}, par, sh) && 1 <= j && k <= |list|
    ensures Kids(Dads([r] + list, par), k, j) == Children(list, par, ([r] + list)[k], j - 1)
    decreases |list| + 1 - j
  {
    var nodes := [r] + list;
    if j <= |list| {
      KidsAreChildren(list, r, par, sh, k, j + 1);
      DadBefore(list, r, par, sh, j);
      ListedOnce(list, r);
      assert nodes[j] == list[j - 1];
    }
  }

  lemma {:induction false} KidsComeLater(list: seq<nat>, r: nat, par: seq<nat>, sh: Shape, k: nat, j: nat)
    requires Forest(list, multiset{r}, par, sh) && 1 <= j <= k + 1 <= |list| + 1
    ensures Kids(Dads([r] + list, par), k, j) == Kids(Dads([r] + list, par), k, k + 1)
    decreases k + 1 - j
  {
    if j <= k {
      DadBefore(list, r, par, sh, j);
      KidsComeLater(list, r, par, sh, k, j + 1);
    }
  }

  ghost function LeafMarks(nodes: seq<nat>, maxCode: nat): (leaf: seq<bool>)
    ensures |leaf| == |nodes|
  {
    seq(|nodes|, k requires 0 <= k < |nodes| => nodes[k] <= maxCode)
  }

  /** The list, with the last node left in the queue in front, is a full tree with the symbols as leaves. */
  lemma ForestIsTree(list: seq<nat>, r: nat, par: seq<nat>, sh: Shape, maxCode: nat)
    requires Forest(list, multiset{r}, par, sh) && sh.elems <= r && maxCode < sh.elems
    requires forall i | 0 <= i < |list| && list[i] < sh.elems :: list[i] <= maxCode
    ensures FullTree(Dads([r] + list, par), LeafMarks([r] + list, maxCode)) && Distinct([r] + list)
  {
    var nodes := [r] + list;
    var dad, leaf := Dads(nodes, par), LeafMarks(nodes, maxCode);
    ListedOnce(list, r);
    forall k | 1 <= k < |dad| ensures dad[k] < k {
      DadBefore(list, r, par, sh, k);
    }
    forall k | 0 <= k < |dad| ensures Kids(dad, k, k + 1) == if leaf[k] then 0 else 2 {
      KidsComeLater(list, r, par, sh, k, 1);
      KidsAreChildren(list, r, par, sh, k, 1);
      if nodes[k] < sh.elems {
        NoChildren(list, par, sh, multiset{r}, nodes[k], 0);
      }
    }
  }

  lemma TreeIsLaid(list: seq<nat>, r: nat, cells: seq<Cell>, sh: Shape, maxCode: nat)
    requires Forest(list, multiset{r}, Lengths(cells), sh) && sh.elems <= r && maxCode < sh.elems
    requires forall i | 0 <= i < |list| && list[i] < sh.elems :: list[i] <= maxCode
    ensures Laid(cells, [r] + list, maxCode, Dads([r] + list, Lengths(cells)), LeafMarks([r] + list, maxCode))
  {
    var nodes, par := [r] + list, Lengths(cells);
    ForestIsTree(list, r, par, sh, maxCode);
    forall k | 1 <= k < |nodes| ensures cells[nodes[k]].dl == nodes[Dads(nodes, par)[k]] {
      DadBefore(list, r, par, sh, k);
    }
  }

  // Building

  function Freqs(cells: seq<Cell>): (fs: seq<nat>)
    ensures |fs| == |cells| && forall o | 0 <= o < |cells| :: fs[o] == cells[o].fc
  {
    seq(|cells|, o requires 0 <= o < |cells| => cells[o].fc)
  }

  /** The symbols in use among the first `n`, behind an unused first place, in rising order. */
  ghost predicate Collected(h: seq<nat>, freqs: seq<nat>, n: nat) {
    && 1 <= |h| <= n + 1 && h[0] == 0 && n <= |freqs|
    && (forall i | 1 <= i < |h| :: h[i] < n && freqs[h[i]] != 0)
    && (forall i, j | 1 <= i < j < |h| :: h[i] < h[j])
    && forall o | 0 <= o < n && freqs[o] != 0 :: o in h[1..]
  }

  lemma CollectStep(h: seq<nat>, freqs: seq<nat>, o: nat)
    requires o < |freqs| && Collected(h, freqs, o)
    ensures freqs[o] == 0 ==> Collected(h, freqs, o + 1)
    ensures freqs[o] != 0 ==> Collected(h + [o], freqs, o + 1)
  {
    assert (h + [o])[1..] == h[1..] + [o];
  }

  method Collect(tree: array<Cell>, elems: nat) returns (h: seq<nat>, last: int)
    requires elems <= tree.Length
    modifies tree
    ensures Collected(h, Freqs(tree[..]), elems) && last == if |h| == 1 then -1 else h[|h| - 1]
    ensures Freqs(tree[..]) == old(Freqs(tree[..]))
    ensures forall o | 0 <= o < elems && tree[o].fc == 0 :: tree[o].dl == 0
  {
    hide Collected;
    h, last := [0], -1;
    ghost var freqs := Freqs(tree[..]);
    NoneCollected(freqs);
    for o := 0 to elems
      invariant 1 <= |h| && Collected(h, freqs, o) && last == if |h| == 1 then -1 else h[|h| - 1]
      invariant forall q | 0 <= q < tree.Length :: tree[q].fc == freqs[q]
      invariant forall q | 0 <= q < o && tree[q].fc == 0 :: tree[q].dl == 0
    {
      CollectStep(h, freqs, o);
      if tree[o].fc != 0 {
        h, last := h + [o], o;
      } else {
        tree[o] := Cell(0, 0);
      }
    }
    assert Freqs(tree[..]) == freqs;
  }

  lemma NoneCollected(freqs: seq<nat>)
    ensures Collected([0], freqs, 0)
  {
  }

  /** What is queued before the first merge: at least two symbols, every one in use among them. */
  ghost predicate Primed(h: seq<nat>, cells: seq<Cell>, elems: nat, maxCode: nat) {
    && 3 <= |h| <= elems + 1 && h[0] == 0 && maxCode < elems <= |cells|
    && (forall i | 1 <= i < |h| :: h[i] <= maxCode)
    && (forall i, j | 1 <= i < j < |h| :: h[i] != h[j])
    && (forall o | 0 <= o < elems && o !in h[1..] :: cells[o].dl == 0)
  }

  /** A code needs two symbols: the first of 0, 1, 2 not in use are made up. */
  method ForceTwo(tree: array<Cell>, elems: nat, h0: seq<nat>, last: int) returns (h: seq<nat>, maxCode: nat)
    requires 3 <= elems <= tree.Length && Collected(h0, Freqs(tree[..]), elems)
             && last == if |h0| == 1 then -1 else h0[|h0| - 1]
    requires forall o | 0 <= o < elems && tree[o].fc == 0 :: tree[o].dl == 0
    modifies tree
    ensures Primed(h, tree[..], elems, maxCode) && h0 <= h
    ensures |h0| >= 3 ==> h == h0
    ensures Forced(old(Freqs(tree[..])), tree[..], h, elems)
  {
    hide Forced, Collected, Growing;
    ghost var freqs := Freqs(tree[..]);
    NoneForced(freqs, tree[..], h0, elems);
    GrowsFrom(h0, freqs, tree[..], elems, last);
    h := h0;
    var s := last;
    while |h| < 3
      invariant h0 <= h && (|h0| >= 3 ==> h == h0)
      invariant Growing(h, tree[..], elems, s) && Forced(freqs, tree[..], h, elems)
      decreases 3 - |h|
    {
      var u: nat := 0;
      GrowsOn(h, tree[..], elems, s);
      if s < 2 {
        s := s + 1;
        u := s;
      }
      ForceOne(freqs, tree[..], h0, h, elems, u);
      tree[u] := tree[u].(fc := 1);
      h := h + [u];
    }
    IsPrimed(h, tree[..], elems, s);
    maxCode := s;
  }

  /** The heap while symbols are made up: `s` is the last of them, or the last in use. */
  ghost predicate Growing(h: seq<nat>, cells: seq<Cell>, elems: nat, s: int) {
    && 3 <= elems <= |cells| && 1 <= |h| <= elems + 1 && h[0] == 0 && -1 <= s < elems && (|h| >= 2 ==> 0 <= s)
    && (|h| < 3 ==> s == if |h| == 1 then -1 else h[1])
    && (forall i | 1 <= i < |h| :: h[i] <= s) && (forall i, j | 1 <= i < j < |h| :: h[i] != h[j])
    && forall o | 0 <= o < elems && o !in h[1..] :: cells[o].dl == 0
  }

  lemma GrowsFrom(h0: seq<nat>, freqs: seq<nat>, cells: seq<Cell>, elems: nat, last: int)
    requires 3 <= elems <= |cells| && freqs == Freqs(cells) && Collected(h0, freqs, elems)
             && last == if |h0| == 1 then -1 else h0[|h0| - 1]
    requires forall o | 0 <= o < elems && cells[o].fc == 0 :: cells[o].dl == 0
    ensures Growing(h0, cells, elems, last)
  {
  }

  /** The next symbol made up is a new one. */
  lemma GrowsOn(h: seq<nat>, cells: seq<Cell>, elems: nat, s: int)
    requires Growing(h, cells, elems, s) && |h| < 3
    ensures var u: nat := if s < 2 then s + 1 else 0;
            && -1 <= s && u < elems && (forall i | 1 <= i < |h| :: h[i] != u)
            && Growing(h + [u], cells[u := cells[u].(fc := 1)], elems, if s < 2 then s + 1 else s)
  {
    var u: nat := if s < 2 then s + 1 else 0;
    assert (h + [u])[1..] == h[1..] + [u];
  }

  lemma IsPrimed(h: seq<nat>, cells: seq<Cell>, elems: nat, s: int)
    requires Growing(h, cells, elems, s) && 3 <= |h|
    ensures 0 <= s && Primed(h, cells, elems, s)
  {
  }

  /** A made-up symbol has frequency 1, every other the one it had. */
  ghost predicate Forced(freqs: seq<nat>, cells: seq<Cell>, h: seq<nat>, elems: nat) {
    && elems <= |freqs| && elems <= |cells| && 1 <= |h|
    && forall o | 0 <= o < elems :: cells[o].fc == if freqs[o] != 0 then freqs[o] else if o in h[1..] then 1 else 0
  }

  lemma NoneForced(freqs: seq<nat>, cells: seq<Cell>, h: seq<nat>, elems: nat)
    requires freqs == Freqs(cells) && Collected(h, freqs, elems)
    ensures Forced(freqs, cells, h, elems)
  {
    forall o | 0 <= o < elems && o in h[1..] ensures freqs[o] != 0 {
      var i :| 0 <= i < |h[1..]| && h[1..][i] == o;
      assert h[i + 1] == o;
    }
  }

  lemma ForceOne(freqs: seq<nat>, cells: seq<Cell>, h0: seq<nat>, h: seq<nat>, elems: nat, u: nat)
    requires Collected(h0, freqs, elems) && h0 <= h && Forced(freqs, cells, h, elems) && u < elems
    requires forall i | 1 <= i < |h| :: h[i] != u
    ensures Forced(freqs, cells[u := cells[u].(fc := 1)], h + [u], elems)
  {
    assert (h + [u])[1..] == h[1..] + [u];
  }

  /** Every symbol that was queued at first is still queued or listed, once, and no other is. */
  ghost predicate Kept(list: seq<nat>, queue: multiset<nat>, first: seq<nat>, elems: nat)
    requires 1 <= |first|
  {
    forall x | 0 <= x < elems :: (queue + multiset(list))[x] == Queued(first)[x]
  }

  ghost predicate Unused(cells: seq<Cell>, first: seq<nat>, elems: nat)
    requires 1 <= |first| && elems <= |cells|
  {
    forall o | 0 <= o < elems && o !in first[1..] :: cells[o].dl == 0
  }

  ghost predicate Merging(h: seq<nat>, list: seq<nat>, keys: seq<Key>, cells: seq<Cell>, first: seq<nat>, sh: Shape)
    requires 1 <= |first|
  {
    && 2 <= |h| && h[0] == 0 && PriorityQueue.Known(h, keys) && Heap(h, keys, 1) && |keys| == |cells|
    && Forest(list, Queued(h), Lengths(cells), sh) && Kept(list, Queued(h), first, sh.elems)
    && sh.elems <= |cells| && Unused(cells, first, sh.elems)
    && (|h| - 1) + (sh.node - sh.elems) == |first| - 1
    && forall x | 0 <= x < |keys| :: keys[x].freq == cells[x].fc
  }

  /** The cells and keys after the merge of `o` and `f` into node `u`. */
  function MergedCells(cells: seq<Cell>, o: nat, f: nat, u: nat): seq<Cell>
    requires o < |cells| && f < |cells| && u < |cells|
  {
    var sum := (cells[o].fc + cells[f].fc) % 0x1_0000;
    var c := cells[u := cells[u].(fc := sum)];
    var d := c[o := c[o].(dl := u)];
    d[f := d[f].(dl := u)]
  }

  function MergedKey(keys: seq<Key>, o: nat, f: nat): Key
    requires o < |keys| && f < |keys|
  {
    Key((keys[o].freq + keys[f].freq) % 0x1_0000,
        (if keys[o].depth >= keys[f].depth then keys[o].depth else keys[f].depth) + 1)
  }

  lemma MergedLengths(cells: seq<Cell>, o: nat, f: nat, u: nat)
    requires o < |cells| && f < |cells| && u < |cells| && o != u && f != u
    ensures |MergedCells(cells, o, f, u)| == |cells|
    ensures Lengths(MergedCells(cells, o, f, u)) == Lengths(cells)[o := u][f := u]
  {
  }

  lemma MergeKeeps(h: seq<nat>, list: seq<nat>, cells: seq<Cell>, first: seq<nat>, sh: Shape, o: nat, f: nat)
    requires 1 <= |first| && 1 <= |h| && Forest(list, Queued(h), Lengths(cells), sh)
             && Kept(list, Queued(h), first, sh.elems)
    requires sh.node < |cells| && Unused(cells, first, sh.elems) && o in Queued(h) && f in Queued(h) - multiset{o}
    ensures o < sh.node && f < sh.node
    ensures var queue := Queued(h) - multiset{o} - multiset{f} + multiset{sh.node};
            var cells' := MergedCells(cells, o, f, sh.node);
            && Forest([f, o] + list, queue, Lengths(cells'), sh.(node := sh.node + 1))
            && Kept([f, o] + list, queue, first, sh.elems) && |cells'| == |cells| && Unused(cells', first, sh.elems)
  {
    Merge(list, Queued(h), Lengths(cells), sh, o, f);
    MergedLengths(cells, o, f, sh.node);
    assert multiset([f, o] + list) == multiset{f, o} + multiset(list);
    forall x | 0 <= x < sh.elems
      ensures (Queued(h) - multiset{o} - multiset{f} + multiset{sh.node} + multiset([f, o] + list))[x]
              == Queued(first)[x]
    {
      assert (Queued(h) + multiset(list))[x] == Queued(first)[x];
    }
    forall q | 0 <= q < sh.elems && q !in first[1..] ensures MergedCells(cells, o, f, sh.node)[q].dl == 0 {
      assert (Queued(h) + multiset(list))[q] == Queued(first)[q];
    }
  }

  // What the rounds cost

  /** The weights of the listed nodes from `i` on that have parent `p`. */
  ghost function ChildSum(list: seq<nat>, par: seq<nat>, w: seq<nat>, p: nat, i: nat): nat
    requires |w| == |par| && forall j | 0 <= j < |list| :: list[j] < |par|
    decreases |list| - i
  {
    if i >= |list| then 0 else (if par[list[i]] == p then w[list[i]] else 0) + ChildSum(list, par, w, p, i + 1)
  }

  ghost function ListSum(list: seq<nat>, w: seq<nat>): nat
    requires forall j | 0 <= j < |list| :: list[j] < |w|
  {
    if list == [] then 0 else w[list[0]] + ListSum(list[1..], w)
  }

  /** Every inner node weighs what its children do. */
  ghost predicate Weighed(list: seq<nat>, par: seq<nat>, w: seq<nat>, sh: Shape) {
    && |w| == |par| && sh.node <= |par| && (forall j | 0 <= j < |list| :: list[j] < |par|)
    && forall p | sh.elems <= p < sh.node :: ChildSum(list, par, w, p, 0) == w[p]
  }

  lemma {:induction false} ChildSumShift(front: seq<nat>, list: seq<nat>, par: seq<nat>, par': seq<nat>,
                                         w: seq<nat>, w': seq<nat>, p: nat, i: nat)
    requires |w| == |par| == |par'| == |w'| && (forall j | 0 <= j < |list| :: list[j] < |par|)
    requires forall j | 0 <= j < |front| :: front[j] < |par'|
    requires forall j {:trigger list[j]} | 0 <= j < |list| :: par'[list[j]] == par[list[j]] && w'[list[j]] == w[list[j]]
    ensures ChildSum(front + list, par', w', p, |front| + i) == ChildSum(list, par, w, p, i)
    decreases |list| - i
  {
    if i < |list| {
      ChildSumShift(front, list, par, par', w, w', p, i + 1);
    }
  }

  lemma {:induction false} ListSumKept(list: seq<nat>, w: seq<nat>, w': seq<nat>)
    requires |w| == |w'| && forall j {:trigger list[j]} | 0 <= j < |list| :: list[j] < |w| && w'[list[j]] == w[list[j]]
    ensures ListSum(list, w') == ListSum(list, w)
  {
    if list != [] {
      ListSumKept(list[1..], w, w');
    }
  }

  lemma {:induction false} NoChildSum(list: seq<nat>, par: seq<nat>, w: seq<nat>, p: nat, i: nat)
    requires |w| == |par| && (forall j | 0 <= j < |list| :: list[j] < |par|) && Children(list, par, p, i) == 0
    ensures ChildSum(list, par, w, p, i) == 0
    decreases |list| - i
  {
    if i < |list| {
      NoChildSum(list, par, w, p, i + 1);
    }
  }

  lemma MergeWeighs(list: seq<nat>, queue: multiset<nat>, par: seq<nat>, w: seq<nat>, sh: Shape, o: nat, f: nat)
    requires Forest(list, queue, par, sh) && sh.node < |par| && o in queue && f in queue && o != f
             && Weighed(list, par, w, sh)
    ensures o < sh.node && f < sh.node
    ensures var par', w' := par[o := sh.node][f := sh.node], w[sh.node := w[o] + w[f]];
            Weighed([f, o] + list, par', w', sh.(node := sh.node + 1))
    ensures ListSum([f, o] + list, w[sh.node := w[o] + w[f]]) == ListSum(list, w) + w[o] + w[f]
  {
    var u := sh.node;
    var par', w' := par[o := u][f := u], w[u := w[o] + w[f]];
    assert (queue + multiset(list))[o] <= 1 && (queue + multiset(list))[f] <= 1;
    assert o !in list && f !in list;
    forall p | sh.elems <= p < u + 1 ensures ChildSum([f, o] + list, par', w', p, 0) == w'[p] {
      ChildSumShift([f, o], list, par, par', w, w', p, 0);
      var both := [f, o] + list;
      assert ChildSum(both, par', w', p, 1) == (if par'[o] == p then w'[o] else 0) + ChildSum(both, par', w', p, 2);
      if p == u {
        NoChildren(list, par, sh, queue, p, 0);
        NoChildSum(list, par, w, p, 0);
      }
    }
    ListSumKept(list, w, w');
    assert ([f, o] + list)[1..] == [o] + list && ([o] + list)[1..] == list;
  }

  /** The rounds so far keep the weights in the queue, and no code for the symbols first queued (`q0`,
      with weights `w0`) is cheaper than what was merged and a code for what is queued now. */
  ghost predicate Priced(q0: multiset<nat>, w0: seq<nat>, q: multiset<nat>, list: seq<nat>, cells: seq<Cell>,
                         sh: Shape) {
    var w := Freqs(cells);
    && |w0| == |w| && sh.elems <= |w| && Weighed(list, Lengths(cells), w, sh)
    && Opt.Total(Opt.Weights(q, w)) == Opt.Total(Opt.Weights(q0, w0))
    && Opt.Dominates(q0, w0, q, w, ListSum(list, w)) && Falls(list, q, w)
    && forall x | 0 <= x < sh.elems :: w[x] == w0[x]
  }

  /** No listed node weighs more than one listed before it, or than one still queued. */
  ghost predicate Falls(list: seq<nat>, q: multiset<nat>, w: seq<nat>) {
    && (forall i | 0 <= i < |list| :: list[i] < |w|) && (forall x | x in q :: x < |w|)
    && (forall i, j | 0 <= i < j < |list| :: w[list[j]] <= w[list[i]])
    && forall i, x | 0 <= i < |list| && x in q :: w[list[i]] <= w[x]
  }

  lemma FallsOn(list: seq<nat>, q: multiset<nat>, w: seq<nat>, o: nat, f: nat, u: nat)
    requires Falls(list, q, w) && Opt.Least(q, w, o, f) && u < |w| && u !in q && u !in list
    requires forall x | x in q :: q[x] == 1
    ensures Falls([f, o] + list, Opt.Joined(q, o, f, u), w[u := w[o] + w[f]])
  {
    var list', w' := [f, o] + list, w[u := w[o] + w[f]];
    forall i | 0 <= i < |list| ensures w'[list[i]] == w[list[i]] && w[list[i]] <= w[o] {
      assert list[i] in list;
    }
    forall i, j | 0 <= i < j < |list'| ensures w'[list'[j]] <= w'[list'[i]] {
      if 2 <= i {
        assert w[list[j - 2]] <= w[list[i - 2]];
      }
    }
    forall i | 0 <= i < |list'| ensures list'[i] != u && w[list'[i]] <= w[f] {
      if 2 <= i {
        assert list'[i] == list[i - 2] && list[i - 2] in list;
      }
    }
    forall x | x in Opt.Joined(q, o, f, u) ensures w[f] <= w'[x] {
      if x != u {
        assert x in q && x != o;
      }
    }
  }

  /** Sums of frequencies fit 16 bits. */
  ghost predicate Light(q0: multiset<nat>, w0: seq<nat>) { Opt.Total(Opt.Weights(q0, w0)) < 0x1_0000 }

  lemma PricedNext(q0: multiset<nat>, w0: seq<nat>, q: multiset<nat>, list: seq<nat>, cells: seq<Cell>, sh: Shape,
                   o: nat, f: nat)
    requires Forest(list, q, Lengths(cells), sh) && sh.node < |cells| && Light(q0, w0)
             && Priced(q0, w0, q, list, cells, sh)
    requires Opt.Least(q, Freqs(cells), o, f)
    ensures Priced(q0, w0, Opt.Joined(q, o, f, sh.node), [f, o] + list, MergedCells(cells, o, f, sh.node),
                   sh.(node := sh.node + 1))
  {
    hide Opt.Dominates, Opt.Total, Opt.Weights, Forest, Weighed, ListSum;
    var w, u := Freqs(cells), sh.node;
    QueueOnce(list, q, Lengths(cells), sh);
    Opt.WeightsKept(q, w, o, f, u);
    Opt.NextRound(q0, w0, q, w, ListSum(list, w), o, f, u);
    NotListed(list, q, Lengths(cells), sh);
    FallsOn(list, q, w, o, f, u);
    MergeWeighs(list, q, Lengths(cells), w, sh, o, f);
    MergedLengths(cells, o, f, u);
    assert Freqs(MergedCells(cells, o, f, u)) == w[u := w[o] + w[f]];
  }

  lemma NotListed(list: seq<nat>, q: multiset<nat>, par: seq<nat>, sh: Shape)
    requires Forest(list, q, par, sh)
    ensures sh.node !in list
  {
  }

  lemma QueueOnce(list: seq<nat>, q: multiset<nat>, par: seq<nat>, sh: Shape)
    requires Forest(list, q, par, sh)
    ensures (forall x | x in q :: q[x] == 1 && x < sh.node) && sh.node !in q && sh.elems <= sh.node
    ensures forall j | 0 <= j < |list| :: list[j] < |par|
  {
    forall x | x in q ensures q[x] == 1 {
      assert (q + multiset(list))[x] <= 1;
    }
  }

  lemma PricedFirst(q0: multiset<nat>, cells: seq<Cell>, elems: nat)
    requires elems <= |cells| && forall x | x in q0 :: x < |cells|
    ensures Priced(q0, Freqs(cells), q0, [], cells, Shape(elems, elems))
  {
    hide Opt.Dominates, Opt.Total, Opt.Weights;
    Opt.AtFirst(q0, Freqs(cells));
  }

  lemma LeastByKeys(q: multiset<nat>, keys: seq<Key>, cells: seq<Cell>, o: nat, f: nat)
    requires |keys| == |cells| && forall x | 0 <= x < |keys| :: keys[x].freq == cells[x].fc
    requires (forall x | x in q :: q[x] == 1) && o in q && f in q - multiset{o}
    requires forall x | x in q :: x < |keys| && o < |keys| && Leq(keys, o, x)
    requires forall x | x in q - multiset{o} :: x < |keys| && f < |keys| && Leq(keys, f, x)
    ensures Opt.Least(q, Freqs(cells), o, f)
  {
    forall x | x in q && x != o ensures x in q - multiset{o} {
    }
  }

  /** One round: the two least trees become one. */
  method MergeTwo(tree: array<Cell>, h0: seq<nat>, list0: seq<nat>, keys0: seq<Key>, node: nat, ghost elems: nat,
                  ghost first: seq<nat>)
    returns (h: seq<nat>, list: seq<nat>, keys: seq<Key>, o: nat, f: nat)
    requires 1 <= |first| <= elems + 1 && 3 <= |h0| && 2 * elems <= tree.Length && elems <= node
    requires Merging(h0, list0, keys0, tree[..], first, Shape(elems, node))
    modifies tree
    ensures Merging(h, list, keys, tree[..], first, Shape(elems, node + 1)) && |h| == |h0| - 1
    ensures o < |keys0| && f < |keys0| && node < |keys0| && list == [f, o] + list0 && node in Queued(h)
    ensures forall x | x in Queued(h0) :: x < |keys0| && Leq(keys0, o, x)
    ensures forall x | x in Queued(h0) - multiset{o} :: x < |keys0| && Leq(keys0, f, x)
    ensures Queued(h) == Queued(h0) - multiset{o} - multiset{f} + multiset{node}
    ensures o in Queued(h0) && f in Queued(h0) - multiset{o} && tree[..] == MergedCells(old(tree[..]), o, f, node)
  {
    hide Forest, Kept, Unused, Heap, Leq;
    ghost var cells, sh := tree[..], Shape(elems, node);
    h := h0;
    o, h := Remove(h, keys0);
    f := h[1];
    LeastIsTop(h, keys0);
    MergeKeeps(h0, list0, cells, first, sh, o, f);
    NodeIsNew(h0, list0, Lengths(cells), sh);
    list := [o] + list0;
    list := [f] + list;
    assert list == [f, o] + list0;
    tree[node] := tree[node].(fc := (tree[o].fc + tree[f].fc) % 0x1_0000);
    keys := keys0[node := MergedKey(keys0, o, f)];
    tree[o] := tree[o].(dl := node);
    tree[f] := tree[f].(dl := node);
    assert tree[..] == MergedCells(cells, o, f, node);
    OtherKeys(h, keys0, keys, 1);
    FromTwo(h, keys);
    h := ReplaceTop(h, keys, node);
  }

  lemma FromTwo(h: seq<nat>, keys: seq<Key>)
    requires PriorityQueue.Known(h, keys) && Heap(h, keys, 1)
    ensures Heap(h, keys, 2)
  {
  }

  lemma LeastIsTop(h: seq<nat>, keys: seq<Key>)
    requires 2 <= |h| && PriorityQueue.Known(h, keys) && Heap(h, keys, 1)
    ensures h[1] in Queued(h) && forall x | x in Queued(h) :: x < |keys| && Leq(keys, h[1], x)
  {
    assert h[1..][0] == h[1];
    forall x | x in Queued(h) ensures x < |keys| && Leq(keys, h[1], x) {
      var i :| 1 <= i < |h| && h[i] == x;
      TopIsLeast(h, keys, i);
    }
  }

  lemma NodeIsNew(h: seq<nat>, list: seq<nat>, par: seq<nat>, sh: Shape)
    requires 1 <= |h| && Forest(list, Queued(h), par, sh)
    ensures forall i | 1 <= i < |h| :: h[i] < sh.node
  {
    forall i | 1 <= i < |h| ensures h[i] < sh.node {
      assert h[1..][i - 1] == h[i];
      assert h[i] in Queued(h);
    }
  }

  lemma Begins(h: seq<nat>, g: seq<nat>, keys: seq<Key>, cells: seq<Cell>, elems: nat, maxCode: nat)
    requires Primed(h, cells, elems, maxCode) && |keys| == |cells|
             && (forall x | 0 <= x < |keys| :: keys[x].freq == cells[x].fc)
    requires |g| == |h| && g[0] == 0 && multiset(g) == multiset(h) && PriorityQueue.Known(g, keys) && Heap(g, keys, 1)
    ensures Merging(g, [], keys, cells, h, Shape(elems, elems))
  {
    QueuedKept(h, g);
    forall x ensures Queued(h)[x] <= 1 {
      Once(h[1..], x);
    }
    forall x | x in Queued(h) ensures x < elems {
      var i :| 0 <= i < |h[1..]| && h[1..][i] == x;
      assert h[i + 1] == x;
    }
  }

  lemma {:induction false} Once(s: seq<nat>, x: nat)
    requires forall i, j | 0 <= i < j < |s| :: s[i] != s[j]
    ensures multiset(s)[x] <= 1
  {
    if s != [] {
      Once(s[1..], x);
      assert s == [s[0]] + s[1..];
      if s[0] == x {
        assert x !in s[1..];
      }
    }
  }

  /** Listed symbols are among those queued at first. */
  lemma ListedWereQueued(list: seq<nat>, queue: multiset<nat>, first: seq<nat>, elems: nat, maxCode: nat)
    requires 1 <= |first| && Kept(list, queue, first, elems) && forall i | 1 <= i < |first| :: first[i] <= maxCode
    ensures forall i | 0 <= i < |list| && list[i] < elems :: list[i] <= maxCode
  {
    forall i | 0 <= i < |list| && list[i] < elems ensures list[i] <= maxCode {
      var x := list[i];
      assert x in multiset(list);
      assert Queued(first)[x] > 0;
      var j :| 0 <= j < |first[1..]| && first[1..][j] == x;
      assert first[j + 1] == x;
    }
  }

  lemma QueuedAreListed(list: seq<nat>, r: nat, first: seq<nat>, elems: nat, x: nat)
    requires 1 <= |first| && Kept(list, multiset{r}, first, elems) && x < elems <= r && x in first[1..]
    ensures x in [r] + list
  {
    assert x in Queued(first);
    assert (multiset{r} + multiset(list))[x] > 0;
    assert x in multiset(list);
  }

  lemma {:induction false} BoundedSet(s: set<nat>, n: nat)
    requires forall x | x in s :: x < n
    ensures |s| <= n
    decreases n
  {
    if n > 0 {
      BoundedSet(s - {n - 1}, n - 1);
    } else {
      assert s == {};
    }
  }

  lemma FewLeaves(nodes: seq<nat>, maxCode: nat, elems: nat)
    requires Distinct(nodes) && maxCode < elems
    ensures Leaves(LeafMarks(nodes, maxCode), |nodes|) <= elems
  {
    LeafIdsNumber(nodes, LeafMarks(nodes, maxCode), maxCode, 0);
    BoundedSet(LeafIds(nodes, maxCode, 0), maxCode + 1);
  }

  lemma MergingParts(h: seq<nat>, list: seq<nat>, keys: seq<Key>, cells: seq<Cell>, first: seq<nat>, sh: Shape)
    requires 1 <= |first| && Merging(h, list, keys, cells, first, sh)
    ensures 1 <= |h| && Forest(list, Queued(h), Lengths(cells), sh) && |keys| == |cells|
    ensures (forall x | 0 <= x < |keys| :: keys[x].freq == cells[x].fc)
            && forall x | x in Queued(h) :: Queued(h)[x] == 1
  {
    QueueOnce(list, Queued(h), Lengths(cells), sh);
  }

  lemma QueuedInside(h: seq<nat>, list: seq<nat>, keys: seq<Key>, cells: seq<Cell>, first: seq<nat>, sh: Shape)
    requires 1 <= |first| && Merging(h, list, keys, cells, first, sh)
    ensures forall x | x in Queued(h) :: x < |cells|
  {
  }

  method MergeRound(tree: array<Cell>, h0: seq<nat>, list0: seq<nat>, keys0: seq<Key>, node: nat, ghost elems: nat,
                    ghost first: seq<nat>, ghost q0: multiset<nat>, ghost w0: seq<nat>)
    returns (h: seq<nat>, list: seq<nat>, keys: seq<Key>)
    requires 1 <= |first| <= elems + 1 && 3 <= |h0| && 2 * elems <= tree.Length && elems <= node
    requires Merging(h0, list0, keys0, tree[..], first, Shape(elems, node))
    requires Light(q0, w0) ==> Priced(q0, w0, Queued(h0), list0, tree[..], Shape(elems, node))
    modifies tree
    ensures Merging(h, list, keys, tree[..], first, Shape(elems, node + 1)) && |h| == |h0| - 1 && node in Queued(h)
    ensures Light(q0, w0) ==> Priced(q0, w0, Queued(h), list, tree[..], Shape(elems, node + 1))
  {
    hide Merging, Heap, Priced, Forest, MergedCells, Leq;
    ghost var q, cells := Queued(h0), tree[..];
    MergingParts(h0, list0, keys0, cells, first, Shape(elems, node));
    var o, f;
    h, list, keys, o, f := MergeTwo(tree, h0, list0, keys0, node, elems, first);
    if Light(q0, w0) {
      LeastByKeys(q, keys0, cells, o, f);
      PricedNext(q0, w0, q, list0, cells, Shape(elems, node), o, f);
    }
  }

  /** Merge until one tree is left. */
  method MergeAll(tree: array<Cell>, h0: seq<nat>, keys0: seq<Key>, elems: nat, ghost first: seq<nat>,
                  ghost q0: multiset<nat>, ghost w0: seq<nat>)
    returns (h: seq<nat>, list: seq<nat>, ghost keys: seq<Key>, ghost node: nat)
    requires 3 <= |h0| && 1 <= |first| <= elems + 1 && 2 * elems <= tree.Length
    requires Merging(h0, [], keys0, tree[..], first, Shape(elems, elems))
    requires Priced(q0, w0, Queued(h0), [], tree[..], Shape(elems, elems))
    modifies tree
    ensures Merging(h, list, keys, tree[..], first, Shape(elems, node)) && |h| == 2 && elems < node
            && node - 1 in Queued(h)
    ensures Light(q0, w0) ==> Priced(q0, w0, Queued(h), list, tree[..], Shape(elems, node))
  {
    hide Merging, Heap, Priced, Light, Queued;
    h, list := h0, [];
    var n, ks := elems, keys0;
    while |h| >= 3
      invariant elems <= n && 2 <= |h| && Merging(h, list, ks, tree[..], first, Shape(elems, n))
      invariant |h| < 3 ==> n > elems && n - 1 in Queued(h)
      invariant Light(q0, w0) ==> Priced(q0, w0, Queued(h), list, tree[..], Shape(elems, n))
      decreases |h|
    {
      h, list, ks := MergeRound(tree, h, list, ks, n, elems, first, q0, w0);
      n := n + 1;
    }
    keys, node := ks, n;
  }

  // The finished tree is as cheap as can be

  ghost function NodeWeights(nodes: seq<nat>, w: seq<nat>): (v: seq<nat>)
    requires forall k | 0 <= k < |nodes| :: nodes[k] < |w|
    ensures |v| == |nodes| && forall k | 0 <= k < |v| :: v[k] == w[nodes[k]]
  {
    seq(|nodes|, k requires 0 <= k < |nodes| => w[nodes[k]])
  }

  lemma {:induction false} KidSumIsChildSum(list: seq<nat>, r: nat, par: seq<nat>, w: seq<nat>, sh: Shape, k: nat,
                                            j: nat)
    requires Forest(list, multiset{r}, par, sh) && |w| == |par| && 1 <= j && k <= |list|
    requires forall i | 0 <= i <= |list| :: ([r] + list)[i] < |par|
    ensures Opt.KidSum(Dads([r] + list, par), NodeWeights([r] + list, w), k, j)
            == ChildSum(list, par, w, ([r] + list)[k], j - 1)
    decreases |list| + 1 - j
  {
    hide Forest, Dads, NodeWeights;
    if j <= |list| {
      KidSumIsChildSum(list, r, par, w, sh, k, j + 1);
      DadIs(list, r, par, sh, k, j);
    }
  }

  lemma DadIs(list: seq<nat>, r: nat, par: seq<nat>, sh: Shape, k: nat, j: nat)
    requires Forest(list, multiset{r}, par, sh) && 1 <= j <= |list| && k <= |list|
    requires forall i | 0 <= i <= |list| :: ([r] + list)[i] < |par|
    ensures ([r] + list)[j] == list[j - 1]
    ensures Dads([r] + list, par)[j] == k <==> par[list[j - 1]] == ([r] + list)[k]
  {
    hide Forest, Dads;
    DadBefore(list, r, par, sh, j);
    TreeListed(list, r, par, sh);
  }

  lemma TreeListed(list: seq<nat>, r: nat, par: seq<nat>, sh: Shape)
    requires Forest(list, multiset{r}, par, sh)
    ensures Distinct([r] + list) && forall i | 0 <= i <= |list| :: ([r] + list)[i] < sh.node <= |par|
  {
    ListedOnce(list, r);
    assert r in multiset{r};
  }

  lemma {:induction false} KidSumLater(list: seq<nat>, r: nat, par: seq<nat>, w: seq<nat>, sh: Shape, k: nat, j: nat)
    requires Forest(list, multiset{r}, par, sh) && |w| == |par| && 1 <= j <= k + 1 <= |list| + 1
    requires forall i | 0 <= i <= |list| :: ([r] + list)[i] < |par|
    ensures var dad, v := Dads([r] + list, par), NodeWeights([r] + list, w);
            Opt.KidSum(dad, v, k, j) == Opt.KidSum(dad, v, k, k + 1)
    decreases k + 1 - j
  {
    hide Forest;
    if j <= k {
      DadBefore(list, r, par, sh, j);
      KidSumLater(list, r, par, w, sh, k, j + 1);
    }
  }

  lemma {:induction false} ListedSum(r: nat, list: seq<nat>, w: seq<nat>, m: nat)
    requires m <= |list| && r < |w| && forall j | 0 <= j < |list| :: list[j] < |w|
    ensures forall i | 0 <= i <= |list| :: ([r] + list)[i] < |w|
    ensures Opt.SumAfterRoot(NodeWeights([r] + list, w), m + 1) + ListSum(list[m..], w) == ListSum(list, w)
    decreases m
  {
    if m == 0 {
      assert list[0..] == list;
    } else {
      ListedSum(r, list, w, m - 1);
      assert list[m - 1..][1..] == list[m..];
    }
  }

  lemma {:induction false} LeafCostSame(leaf: seq<bool>, v: seq<nat>, v': seq<nat>, d: seq<nat>, m: nat)
    requires m <= |leaf| == |v| == |v'| == |d| && forall k | 0 <= k < |leaf| && leaf[k] :: v[k] == v'[k]
    ensures Opt.LeafCost(leaf, v, d, m) == Opt.LeafCost(leaf, v', d, m)
    decreases m
  {
    if m > 0 {
      LeafCostSame(leaf, v, v', d, m - 1);
    }
  }

  /** No prefix code for the symbols `syms` costs less than the tree, each leaf at its depth. */
  ghost predicate Cheapest(syms: multiset<nat>, w: seq<nat>, nodes: seq<nat>, dad: seq<nat>, leaf: seq<bool>) {
    && |nodes| == |dad| == |leaf| && (forall k | 0 <= k < |nodes| :: nodes[k] < |w|)
    && forall d, l, m | Opt.Deep(dad, d) && |l| == |w| && Opt.Prefixed(syms, l, m) ::
         Opt.LeafCost(leaf, NodeWeights(nodes, w), d, |leaf|) <= Opt.Cost(syms, w, l)
  }

  lemma TreeIsCheapest(syms: multiset<nat>, w0: seq<nat>, list: seq<nat>, r: nat, cells: seq<Cell>, sh: Shape,
                       maxCode: nat)
    requires Forest(list, multiset{r}, Lengths(cells), sh) && sh.elems <= r && maxCode < sh.elems
    requires forall i | 0 <= i < |list| && list[i] < sh.elems :: list[i] <= maxCode
    requires Priced(syms, w0, multiset{r}, list, cells, sh)
    ensures forall k | 0 <= k <= |list| :: ([r] + list)[k] < |cells|
    ensures Cheapest(syms, w0, [r] + list, Dads([r] + list, Lengths(cells)), LeafMarks([r] + list, maxCode))
  {
    hide Forest, Opt.Dominates, Opt.Prefixed, Opt.Cost, FullTree, Falls, Opt.Total, Opt.Weights, Opt.LeafCost;
    var nodes, par, w := [r] + list, Lengths(cells), Freqs(cells);
    TreeListed(list, r, par, sh);
    var dad, leaf := Dads(nodes, par), LeafMarks(nodes, maxCode);
    ForestIsTree(list, r, par, sh, maxCode);
    var v, v0 := NodeWeights(nodes, w), NodeWeights(nodes, w0);
    forall k | 1 <= k < |nodes| && !leaf[k] ensures Opt.KidSum(dad, v, k, k + 1) == v[k] {
      assert nodes[k] == list[k - 1];
      KidSumLater(list, r, par, w, sh, k, 1);
      KidSumIsChildSum(list, r, par, w, sh, k, 1);
    }
    assert list[|list|..] == [];
    ListedSum(r, list, w, |list|);
    forall d, l, m | Opt.Deep(dad, d) && |l| == |w0| && Opt.Prefixed(syms, l, m)
      ensures Opt.LeafCost(leaf, v0, d, |leaf|) <= Opt.Cost(syms, w0, l)
    {
      Opt.TreeCost(dad, leaf, v, d);
      LeafCostSame(leaf, v, v0, d, |leaf|);
      Opt.NoneCheaper(syms, w0, multiset{r}, w, ListSum(list, w), l, m);
    }
  }

  /** The symbols in use, or made up, queued as a heap. */
  method QueueSymbols(tree: array<Cell>, elems: nat)
    returns (h: seq<nat>, keys: seq<Key>, maxCode: nat, ghost first: seq<nat>)
    requires 3 <= elems && 2 * elems <= tree.Length
    modifies tree
    ensures 3 <= |h| == |first| <= elems + 1 && Merging(h, [], keys, tree[..], first, Shape(elems, elems))
    ensures maxCode < elems && (forall i | 0 <= i < |first| :: first[i] <= maxCode)
    ensures (forall i, j | 1 <= i < j < |first| :: first[i] != first[j]) && Queued(h) == Queued(first)
    ensures forall o | 0 <= o < elems && old(tree[o].fc) != 0 :: o in first[1..]
    ensures Forced(old(Freqs(tree[..])), tree[..], first, elems)
  {
    hide Merging, Primed, Heap, Collected, Forced, Queued;
    ghost var freqs := Freqs(tree[..]);
    var last;
    h, last := Collect(tree, elems);
    ghost var used := h;
    h, maxCode := ForceTwo(tree, elems, h, last);
    first := h;
    PrimedSizes(first, tree[..], elems, maxCode);
    keys := seq(tree.Length, o requires 0 <= o < tree.Length reads tree => Key(tree[o].fc, 0));
    h := MakeHeap(h, keys);
    Begins(first, h, keys, tree[..], elems, maxCode);
    QueuedKept(first, h);
    forall o | 0 <= o < elems && freqs[o] != 0 ensures o in first[1..] {
      UsedAreFirst(used, freqs, first, elems, o);
    }
  }

  lemma UsedAreFirst(used: seq<nat>, freqs: seq<nat>, first: seq<nat>, elems: nat, o: nat)
    requires Collected(used, freqs, elems) && used <= first && o < elems <= |freqs| && freqs[o] != 0
    ensures o in first[1..]
  {
    var i :| 0 <= i < |used[1..]| && used[1..][i] == o;
    assert first[1..][i] == first[i + 1] == o;
  }

  lemma QueuedFirst(first: seq<nat>)
    requires 1 <= |first|
    ensures forall x: nat :: x in Queued(first) <==> x in first[1..]
  {
  }

  lemma ForcedWeights(freqs: seq<nat>, cells: seq<Cell>, first: seq<nat>, elems: nat, syms: multiset<nat>)
    requires Forced(freqs, cells, first, elems) && forall x: nat :: x in syms <==> x in first[1..]
    ensures elems <= |freqs| && elems <= |cells|
    ensures forall o | 0 <= o < elems ::
              Freqs(cells)[o] == if freqs[o] != 0 then freqs[o] else if o in syms then 1 else 0
  {
  }

  /** `build_tree` up to the call of `gen_bitlen`: whatever the frequencies, the nodes listed are a full
      tree whose leaves are the symbols in use, two at least, every parent before its children; and as
      long as the frequencies add up to less than 2^16, no prefix code for those symbols is cheaper, and
      they are listed with the heaviest first. */
  method BuildTree(tree: array<Cell>, elems: nat)
    returns (nodes: seq<nat>, maxCode: nat, ghost dad: seq<nat>, ghost leaf: seq<bool>, ghost syms: multiset<nat>,
             ghost weights: seq<nat>)
    requires 3 <= elems && 2 * elems <= tree.Length
    modifies tree
    ensures Laid(tree[..], nodes, maxCode, dad, leaf) && maxCode < elems && Leaves(leaf, |leaf|) <= elems
    ensures forall o | 0 <= o < elems && old(tree[o].fc) != 0 :: o in nodes && o <= maxCode
    ensures forall o | 0 <= o < elems && o !in nodes :: tree[o].dl == 0
    ensures forall o | maxCode < o < elems :: o !in nodes
    ensures (forall x: nat :: syms[x] <= 1) && forall x: nat :: x in syms <==> x in nodes && x <= maxCode
    ensures |weights| == tree.Length
    ensures forall o | 0 <= o < elems ::
              weights[o] == if old(tree[o].fc) != 0 then old(tree[o].fc) else if o in syms then 1 else 0
    ensures Light(syms, weights) ==> Cheapest(syms, weights, nodes, dad, leaf) && Falling(weights, nodes, maxCode)
  {
    hide Falling, Merging, Heap, Laid, Kept, Leaves, Queued, Priced, Light, Cheapest, Forest, Forced;
    ghost var freqs, first, ks, node := Freqs(tree[..]), [], [], 0;
    var h, keys, list;
    h, keys, maxCode, first := QueueSymbols(tree, elems);
    syms, weights := Queued(h), Freqs(tree[..]);
    QueuedInside(h, [], keys, tree[..], first, Shape(elems, elems));
    PricedFirst(syms, tree[..], elems);
    QueuedFirst(first);
    ForcedWeights(freqs, tree[..], first, elems, syms);
    h, list, ks, node := MergeAll(tree, h, keys, elems, first, syms, weights);
    nodes := [h[1]] + list;
    Finished(h, list, ks, tree[..], first, node, elems, maxCode);
    dad, leaf := Dads(nodes, Lengths(tree[..])), LeafMarks(nodes, maxCode);
    FirstAreLeaves(list, h[1], first, elems, maxCode);
    if Light(syms, weights) {
      EndsCheapest(h, list, ks, tree[..], first, node, elems, maxCode, syms, weights);
      EndsFalling(list, h[1], Queued(h), tree[..], Shape(elems, node), maxCode, syms, weights);
    }
  }

  /** A symbol weighs no more than one listed before it. */
  ghost predicate Falling(w: seq<nat>, nodes: seq<nat>, maxCode: nat) {
    forall j, k | 0 <= j < k < |nodes| && nodes[j] <= maxCode && nodes[k] <= maxCode ::
      nodes[j] < |w| && nodes[k] < |w| && w[nodes[k]] <= w[nodes[j]]
  }

  lemma EndsFalling(list: seq<nat>, r: nat, q: multiset<nat>, cells: seq<Cell>, sh: Shape, maxCode: nat,
                    syms: multiset<nat>, weights: seq<nat>)
    requires Priced(syms, weights, q, list, cells, sh) && maxCode < sh.elems <= r
    ensures Falling(weights, [r] + list, maxCode)
  {
    hide Opt.Dominates, Opt.Total, Opt.Weights, Weighed;
    var nodes := [r] + list;
    forall j, k | 0 <= j < k < |nodes| && nodes[j] <= maxCode && nodes[k] <= maxCode
      ensures nodes[j] < |weights| && nodes[k] < |weights| && weights[nodes[k]] <= weights[nodes[j]]
    {
      assert nodes[j] == list[j - 1] && nodes[k] == list[k - 1];
    }
  }

  lemma FirstAreLeaves(list: seq<nat>, r: nat, first: seq<nat>, elems: nat, maxCode: nat)
    requires 1 <= |first| && Kept(list, multiset{r}, first, elems) && elems <= r && maxCode < elems
    requires (forall i | 0 <= i < |first| :: first[i] <= maxCode)
             && forall i, j | 1 <= i < j < |first| :: first[i] != first[j]
    ensures (forall x: nat :: Queued(first)[x] <= 1)
    ensures forall x: nat :: x in Queued(first) <==> x in [r] + list && x <= maxCode
    ensures forall x: nat :: x in Queued(first) <==> x in first[1..]
  {
    forall x: nat ensures Queued(first)[x] <= 1 && (x in Queued(first) <==> x in [r] + list && x <= maxCode) {
      Once(first[1..], x);
      if x in Queued(first) {
        var i :| 0 <= i < |first[1..]| && first[1..][i] == x;
        assert first[i + 1] == x;
      }
      if x < elems {
        assert (multiset{r} + multiset(list))[x] == Queued(first)[x];
      }
    }
  }

  lemma EndsCheapest(h: seq<nat>, list: seq<nat>, keys: seq<Key>, cells: seq<Cell>, first: seq<nat>, node: nat,
                     elems: nat, maxCode: nat, syms: multiset<nat>, weights: seq<nat>)
    requires 1 <= |first| && |h| == 2 && Merging(h, list, keys, cells, first, Shape(elems, node))
    requires maxCode < elems <= h[1] && forall i | 0 <= i < |first| :: first[i] <= maxCode
    requires Priced(syms, weights, Queued(h), list, cells, Shape(elems, node))
    ensures forall k | 0 <= k <= |list| :: ([h[1]] + list)[k] < |cells|
    ensures Cheapest(syms, weights, [h[1]] + list, Dads([h[1]] + list, Lengths(cells)),
                     LeafMarks([h[1]] + list, maxCode))
  {
    hide Heap, Priced, Forest, Cheapest, Kept, Unused;
    assert h[1..] == [h[1]];
    assert Queued(h) == multiset{h[1]};
    ListedWereQueued(list, Queued(h), first, elems, maxCode);
    TreeIsCheapest(syms, weights, list, h[1], cells, Shape(elems, node), maxCode);
  }

  lemma PrimedSizes(h: seq<nat>, cells: seq<Cell>, elems: nat, maxCode: nat)
    requires Primed(h, cells, elems, maxCode)
    ensures 3 <= |h| <= elems + 1 && h[0] == 0 && maxCode < elems && forall i | 0 <= i < |h| :: h[i] <= maxCode
    ensures forall i, j | 1 <= i < j < |h| :: h[i] != h[j]
  {
  }

  lemma Finished(h: seq<nat>, list: seq<nat>, keys: seq<Key>, cells: seq<Cell>, first: seq<nat>, node: nat, elems: nat,
                 maxCode: nat)
    requires 1 <= |first| && |h| == 2 && Merging(h, list, keys, cells, first, Shape(elems, node)) && elems < node
             && node - 1 in Queued(h)
    requires maxCode < elems && forall i | 0 <= i < |first| :: first[i] <= maxCode
    ensures var nodes := [h[1]] + list;
            && |Lengths(cells)| == |cells| && (forall k | 0 <= k < |nodes| :: nodes[k] < |cells|)
            && Laid(cells, nodes, maxCode, Dads(nodes, Lengths(cells)), LeafMarks(nodes, maxCode))
            && Leaves(LeafMarks(nodes, maxCode), |nodes|) <= elems
            && elems <= h[1] && Kept(list, multiset{h[1]}, first, elems)
            && (forall o | 0 <= o < elems && o !in nodes :: cells[o].dl == 0)
            && forall o | maxCode < o < elems :: o !in nodes
  {
    hide Heap, Leq;
    assert h[1..] == [h[1]];
    assert Queued(h) == multiset{h[1]};
    ListedWereQueued(list, Queued(h), first, elems, maxCode);
    TreeIsLaid(list, h[1], cells, Shape(elems, node), maxCode);
    FewLeaves([h[1]] + list, maxCode, elems);
    forall o | 0 <= o < elems && o !in [h[1]] + list ensures cells[o].dl == 0 {
      if o in first[1..] {
        QueuedAreListed(list, h[1], first, elems, o);
      }
    }
  }
}

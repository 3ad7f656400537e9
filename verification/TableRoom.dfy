/**
 * How much room decoding tables take, counted on the numbers of code lengths alone: why 852 entries
 * are enough for 286 symbols behind 9 bits, and 592 for 30 symbols behind 6.
 */
module TableRoom {
  import opened BitStrings
  import opened CanonicalCodes

  /** The position of the first symbol of length `l` in the list sorted by length. */
  function Offs(counts: seq<nat>, l: nat): nat
    requires l <= |counts|
    decreases l, counts
  {
    if l <= 1 then 0 else Offs(counts, l - 1) + counts[l - 1]
  }

  lemma {:induction false} OffsMonotone(counts: seq<nat>, l: nat, m: nat)
    requires l <= m <= |counts|
    ensures Offs(counts, l) <= Offs(counts, m)
    ensures 1 <= l < m ==> Offs(counts, l) + counts[l] <= Offs(counts, m)
    decreases m
  {
    if l < m {
      OffsMonotone(counts, l, m - 1);
    }
  }

  /** The counts when `r` symbols of length `l`, and all shorter ones, are done. */
  ghost predicate Remaining(rem: seq<nat>, counts: seq<nat>, l: nat, r: nat)
    requires |counts| == MAX_BITS + 1 && l <= MAX_BITS
  {
    && |rem| == MAX_BITS + 1 && r <= counts[l]
    && forall k | 0 <= k <= MAX_BITS :: rem[k] == if k < l then 0 else if k == l then counts[l] - r else counts[k]
  }

  lemma {:induction false} NoneShorter(rem: seq<nat>, l: nat)
    requires l < |rem| && forall k | 0 <= k <= l :: rem[k] == 0
    ensures Kraft(rem, l) == 0 && Offs(rem, l + 1) == 0
    decreases l
  {
    if l > 0 {
      NoneShorter(rem, l - 1);
    }
  }

  lemma {:induction false} RemainingKraft(rem: seq<nat>, counts: seq<nat>, l: nat, r: nat, m: nat)
    requires |counts| == MAX_BITS + 1 && 1 <= l <= m <= MAX_BITS && Remaining(rem, counts, l, r)
    ensures Kraft(rem, m) + Shl(First(counts, l) + r, m - l) == Kraft(counts, m)
    decreases m
  {
    if l == m {
      NoneShorter(rem, l - 1);
    } else {
      RemainingKraft(rem, counts, l, r, m - 1);
    }
  }

  lemma {:induction false} RemainingOffs(rem: seq<nat>, counts: seq<nat>, l: nat, r: nat, m: nat)
    requires |counts| == MAX_BITS + 1 && 1 <= l < m <= MAX_BITS + 1 && Remaining(rem, counts, l, r)
    ensures Offs(counts, l) + r + Offs(rem, m) == Offs(counts, m)
    decreases m
  {
    if l + 1 == m {
      NoneShorter(rem, l - 1);
    } else {
      RemainingOffs(rem, counts, l, r, m - 1);
    }
  }

  // One second table

  /** What a table of 2^x entries has more than symbols, at most. */
  function Slack(x: nat): (s: nat)
    ensures 1 <= s
  {
    PowerExceeds(x);
    Pow2(x) - x
  }

  lemma {:induction false} PowerExceeds(x: nat)
    ensures x < Pow2(x)
  {
    if x > 0 {
      PowerExceeds(x - 1);
    }
  }

  lemma {:induction false} SlackRises(x: nat, y: nat)
    requires x <= y
    ensures Slack(x) <= Slack(y)
    decreases y
  {
    if x < y {
      SlackRises(x, y - 1);
    }
  }

  /** A tree whose shortest leaf is at depth `l - root`, and that is not full above depth `m - root`,
      has 2^(l - root) leaves and one more for each level between. */
  lemma {:induction false} LeavesGrow(rem: seq<nat>, l: nat, root: nat, m: nat)
    requires 1 <= l <= m < |rem| && root < l && (forall k | 0 <= k < l :: rem[k] == 0)
    requires forall j | l <= j < m :: Kraft(rem, j) < Pow2(j - root)
    ensures Kraft(rem, m) + Pow2(l - root) + (m - l) <= Offs(rem, m + 1) + Pow2(m - root)
    decreases m
  {
    if l == m {
      NoneShorter(rem, l - 1);
    } else {
      LeavesGrow(rem, l, root, m - 1);
    }
  }

  lemma {:induction false} ShlSum(a: nat, b: nat, d: nat)
    ensures Shl(a + b, d) == Shl(a, d) + Shl(b, d)
    decreases d
  {
    if d > 0 {
      ShlSum(a, b, d - 1);
    }
  }

  lemma {:induction false} ShlOne(d: nat)
    ensures Shl(1, d) == Pow2(d)
    decreases d
  {
    if d > 0 {
      ShlOne(d - 1);
    }
  }

  lemma {:induction false} ShlTwice(v: nat, a: nat, b: nat)
    ensures Shl(Shl(v, a), b) == Shl(v, a + b)
    decreases b
  {
    if b > 0 {
      ShlTwice(v, a, b - 1);
    }
  }

  lemma ShlStep(v: nat, n: nat)
    requires 0 < n
    ensures Shl(v, n) == 2 * Shl(v, n - 1)
  {
  }

  lemma {:induction false} ShlOrder(a: nat, b: nat, d: nat)
    requires a <= b
    ensures Shl(a, d) <= Shl(b, d)
    decreases d
  {
    if d > 0 {
      ShlOrder(a, b, d - 1);
    }
  }

  lemma {:induction false} ShlOfShr(v: nat, d: nat)
    ensures Shl(Shr(v, d), d) <= v
    decreases d
  {
    if d > 0 {
      ShlOfShr(v / 2, d - 1);
    }
  }

  /** A code behind a later root entry than `top` is at least 2^d further on. */
  lemma BeyondTop(top: nat, v: nat, d: nat)
    requires top < Shr(v, d)
    ensures Shl(top, d) + Pow2(d) <= v
  {
    ShlOrder(top + 1, Shr(v, d), d);
    ShlSum(top, 1, d);
    ShlOne(d);
    ShlOfShr(v, d);
  }

  /** Counting up changes the leading bits only when the others start again at zero. */
  lemma {:induction false} CarryAligned(v: nat, d: nat)
    requires Shr(v + 1, d) != Shr(v, d)
    ensures v + 1 == Shl(Shr(v + 1, d), d)
    decreases d
  {
    if d > 0 {
      if v % 2 == 1 {
        assert (v + 1) / 2 == v / 2 + 1;
        CarryAligned(v / 2, d - 1);
      }
    }
  }

  // The symbols in the root table

  /** How many codes are longer than `root` bits, but not longer than `m`. */
  function Long(counts: seq<nat>, root: nat, m: nat): (n: nat)
    requires root <= m < |counts|
  {
    OffsMonotone(counts, root + 1, m + 1);
    Offs(counts, m + 1) - Offs(counts, root + 1)
  }

  /** Codes longer than `root` bits take at most half a root entry each. */
  lemma {:induction false} LongTakeLittle(counts: seq<nat>, root: nat, m: nat)
    requires root < m < |counts|
    ensures Kraft(counts, m) <= Shl(2 * Kraft(counts, root) + Long(counts, root, m), m - root - 1)
    decreases m
  {
    if root + 1 < m {
      LongTakeLittle(counts, root, m - 1);
      ShlSum(2 * Kraft(counts, root) + Long(counts, root, m - 1), counts[m], m - root - 1);
      ShlAtLeastItself(counts[m], m - root - 1);
    }
  }

  lemma {:induction false} ShlAtLeastItself(v: nat, d: nat)
    ensures v <= Shl(v, d)
    decreases d
  {
    if d > 0 {
      ShlAtLeastItself(v, d - 1);
    }
  }

  /** So they leave the short ones all root entries but half their number. */
  lemma RootEntriesTaken(counts: seq<nat>, root: nat)
    requires |counts| == MAX_BITS + 1 && root < MAX_BITS && Kraft(counts, MAX_BITS) == Pow2(MAX_BITS)
    ensures 2 * Pow2(root) <= 2 * Kraft(counts, root) + Long(counts, root, MAX_BITS)
  {
    hide Kraft, Long;
    LongTakeLittle(counts, root, MAX_BITS);
    var x := 2 * Kraft(counts, root) + Long(counts, root, MAX_BITS);
    if x < Pow2(root + 1) {
      ShlBound(x, MAX_BITS - root - 1, root + 1);
    }
  }

  lemma {:induction false} FewShort(counts: seq<nat>, l: nat)
    requires l < |counts| && counts[0] == 0
    ensures Offs(counts, l + 1) == 0 ==> Kraft(counts, l) == 0
    ensures Offs(counts, l + 1) <= 1 ==> 2 * Kraft(counts, l) <= Pow2(l)
    ensures Offs(counts, l + 1) <= 2 && Kraft(counts, l) < Pow2(l) ==> 4 * Kraft(counts, l) <= 3 * Pow2(l)
    decreases l
  {
    if l > 0 {
      FewShort(counts, l - 1);
    }
  }

  /** At least two of 286 lengths are at most 9, and at least three of 30 are at most 6, unless there
      are no longer ones. */
  lemma SomeShort(counts: seq<nat>)
    requires |counts| == MAX_BITS + 1 && counts[0] == 0 && Kraft(counts, MAX_BITS) == Pow2(MAX_BITS)
    ensures Offs(counts, MAX_BITS + 1) <= 286 ==> 2 <= Offs(counts, 10)
    ensures Offs(counts, MAX_BITS + 1) <= 30 && Kraft(counts, 6) < Pow2(6) ==> 3 <= Offs(counts, 7)
  {
    assert Pow2(6) == 64;
    assert Pow2(9) == 8 * Pow2(6);
    RootEntriesTaken(counts, 9);
    RootEntriesTaken(counts, 6);
    FewShort(counts, 9);
    FewShort(counts, 6);
  }
}

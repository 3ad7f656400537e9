/** The run-length form in which a dynamic block sends its code lengths: section 3.2.7 of
    RFC 1951, as `scan_tree`, `send_tree` and the CODELENS state of `inflate` have it. */
module CodeLengthRle {
  import opened CanonicalCodes
  import opened Sequences

  const REP_3_6: nat := 16
  const REPZ_3_10: nat := 17
  const REPZ_11_138: nat := 18
  const GUARD: nat := 65535

  /** A symbol of the code-length alphabet, and the value of its extra bits. */
  datatype Token = Token(sym: nat, extra: nat)

  /** The number of extra bits of a symbol. */
  function ExtraBits(sym: nat): nat {
    if sym == REP_3_6 then 2 else if sym == REPZ_3_10 then 3 else if sym == REPZ_11_138 then 7 else 0
  }

  function Limit(bits: nat): nat {
    if bits == 2 then 4 else if bits == 3 then 8 else if bits == 7 then 128 else 1
  }

  predicate Fits(t: Token) {
    t.sym <= REPZ_11_138 && t.extra < Limit(ExtraBits(t.sym))
  }

  function Repeat<T>(x: T, n: nat): (r: seq<T>)
    ensures |r| == n && forall i :: 0 <= i < n ==> r[i] == x
  {
    if n == 0 then [] else [x] + Repeat(x, n - 1)
  }

  // The sender

  /** The longest run to collect, and the shortest worth a repeat code, when the length is
      `cur` and the last one sent was `prev` (-1 at the start). */
  function MaxCount(cur: nat, prev: int): nat {
    if cur == 0 then 138 else if cur == prev then 6 else 7
  }

  function MinCount(cur: nat, prev: int): nat {
    if cur != 0 && cur != prev then 4 else 3
  }

  /** What is sent for `count` times the length `cur`. */
  function RunTokens(cur: nat, prev: int, count: nat): seq<Token>
    requires 1 <= count
  {
    if count < MinCount(cur, prev) then Repeat(Token(cur, 0), count)
    else if cur != 0 then
      if cur != prev then [Token(cur, 0), Token(REP_3_6, count - 4)] else [Token(REP_3_6, count - 3)]
    else if count <= 10 then [Token(REPZ_3_10, count - 3)]
    else if count >= 11 then [Token(REPZ_11_138, count - 11)] else []
  }

  function LengthAt(lens: seq<nat>, n: nat): nat {
    if n < |lens| then lens[n] else GUARD
  }

  /** What is sent from position `n` on, with a run of `count` lengths already collected. */
  function Tokens(lens: seq<nat>, n: nat, prev: int, count: nat): seq<Token>
    decreases |lens| - n
  {
    if n >= |lens| then []
    else if count + 1 < MaxCount(lens[n], prev) && lens[n] == LengthAt(lens, n + 1) then
      Tokens(lens, n + 1, prev, count + 1)
    else RunTokens(lens[n], prev, count + 1) + Tokens(lens, n + 1, lens[n], 0)
  }

  function AllTokens(lens: seq<nat>): seq<Token> { Tokens(lens, 0, -1, 0) }

  /** One turn of the loops of `send_tree` and `scan_tree`: go on collecting, or send. */
  lemma TokensTurn(lens: seq<nat>, n: nat, prev: int, count: nat, sent: seq<Token>)
    requires n < |lens|
    ensures if count + 1 < MaxCount(lens[n], prev) && lens[n] == LengthAt(lens, n + 1)
            then Tokens(lens, n, prev, count) == Tokens(lens, n + 1, prev, count + 1)
            else sent + Tokens(lens, n, prev, count)
                 == sent + RunTokens(lens[n], prev, count + 1) + Tokens(lens, n + 1, lens[n], 0)
  {
  }

  /** Send one run, as the body of `send_tree` does. */
  method SendRun(cur: nat, prev: int, count0: nat, min: nat, sent0: seq<Token>) returns (sent: seq<Token>)
    requires 1 <= count0 && min == MinCount(cur, prev)
    ensures sent == sent0 + RunTokens(cur, prev, count0)
  {
    var count := count0;
    sent := sent0;
    if count < min {
      while count != 0
        invariant 0 <= count <= count0
        invariant sent + Repeat(Token(cur, 0), count) == sent0 + Repeat(Token(cur, 0), count0)
      {
        sent := sent + [Token(cur, 0)];
        count := count - 1;
      }
    } else if cur != 0 {
      if cur != prev {
        sent := sent + [Token(cur, 0)];
        count := count - 1;
      }
      sent := sent + [Token(REP_3_6, count - 3)];
    } else if count <= 10 {
      sent := sent + [Token(REPZ_3_10, count - 3)];
    } else {
      sent := sent + [Token(REPZ_11_138, count - 11)];
    }
  }

  /** The counts to work with for the next run. */
  method NextCounts(next: nat, cur: int) returns (max: nat, min: nat)
    ensures max == MaxCount(next, cur) && min == MinCount(next, cur)
  {
    if next == 0 {
      max, min := 138, 3;
    } else if cur == next {
      max, min := 6, 3;
    } else {
      max, min := 7, 4;
    }
  }

  /** `send_tree`. */
  method SendTree(tree: array<Cell>, maxCode: nat) returns (sent: seq<Token>)
    requires maxCode + 1 < tree.Length && tree[maxCode + 1].dl == GUARD
    requires forall o :: 0 <= o <= maxCode ==> tree[o].dl <= 15
    ensures sent == AllTokens(Lengths(tree[..maxCode + 1]))
  {
    ghost var lens := Lengths(tree[..maxCode + 1]);
    var prev: int := -1;
    var next, count := tree[0].dl, 0;
    var max, min := NextCounts(next, prev);
    sent := [];
    for n := 0 to maxCode + 1
      invariant next == LengthAt(lens, n)
      invariant max == MaxCount(next, prev) && min == MinCount(next, prev)
      invariant sent + Tokens(lens, n, prev, count) == AllTokens(lens)
    {
      TokensTurn(lens, n, prev, count, sent);
      var cur := next;
      next := tree[n + 1].dl;
      count := count + 1;
      if !(count < max && cur == next) {
        sent := SendRun(cur, prev, count, min, sent);
        count, prev := 0, cur;
        max, min := NextCounts(next, cur);
      }
    }
  }

  /** How often a symbol is sent. */
  function Tally(ts: seq<Token>, sym: nat): nat {
    if ts == [] then 0 else Tally(ts[..|ts| - 1], sym) + (if ts[|ts| - 1].sym == sym then 1 else 0)
  }

  lemma {:induction false} TallyAppends(a: seq<Token>, b: seq<Token>, sym: nat)
    ensures Tally(a + b, sym) == Tally(a, sym) + Tally(b, sym)
    decreases |b|
  {
    if b == [] {
      assert a + b == a;
    } else {
      var n := |b| - 1;
      assert (a + b)[..|a + b| - 1] == a + b[..n];
      TallyAppends(a, b[..n], sym);
    }
  }

  lemma {:induction false} TallyRepeat(x: nat, n: nat, sym: nat)
    ensures Tally(Repeat(Token(x, 0), n), sym) == if sym == x then n else 0
    decreases n
  {
    if n > 0 {
      TallyAppends([Token(x, 0)], Repeat(Token(x, 0), n - 1), sym);
      TallyRepeat(x, n - 1, sym);
      TallyOne(Token(x, 0), sym);
    }
  }

  lemma TallyOne(t: Token, sym: nat)
    ensures Tally([t], sym) == if t.sym == sym then 1 else 0
  {
    assert [t][..0] == [];
  }

  /** The change of the frequencies that one run causes. */
  function Counted(freq: seq<nat>, cur: nat, prev: int, count: nat): seq<nat>
    requires |freq| == 19 && cur <= 15 && 1 <= count
  {
    if count < MinCount(cur, prev) then freq[cur := freq[cur] + count]
    else if cur != 0 then
      var f := if cur != prev then freq[cur := freq[cur] + 1] else freq;
      f[REP_3_6 := f[REP_3_6] + 1]
    else if count <= 10 then freq[REPZ_3_10 := freq[REPZ_3_10] + 1]
    else freq[REPZ_11_138 := freq[REPZ_11_138] + 1]
  }

  lemma CountedTally(freq: seq<nat>, cur: nat, prev: int, count: nat, sym: nat)
    requires |freq| == 19 && cur <= 15 && 1 <= count && sym < 19
    ensures Counted(freq, cur, prev, count)[sym] == freq[sym] + Tally(RunTokens(cur, prev, count), sym)
  {
    var run := RunTokens(cur, prev, count);
    if count < MinCount(cur, prev) {
      TallyRepeat(cur, count, sym);
    } else if cur != 0 && cur != prev {
      assert run == [run[0]] + [run[1]];
      TallyAppends([run[0]], [run[1]], sym);
      TallyOne(run[0], sym);
      TallyOne(run[1], sym);
    } else {
      TallyOne(run[0], sym);
    }
  }

  ghost predicate Counts(freq: seq<nat>, freq0: seq<nat>, sent: seq<Token>) {
    |freq| == |freq0| == 19 && forall sym :: 0 <= sym < 19 ==> freq[sym] == freq0[sym] + Tally(sent, sym)
  }

  /** Count one run, as the body of `scan_tree` does. */
  method CountRun(cur: nat, prev: int, count: nat, min: nat, freq: seq<nat>, ghost freq0: seq<nat>,
                  ghost sent: seq<Token>)
    returns (freq': seq<nat>)
    requires 1 <= count && cur <= 15 && min == MinCount(cur, prev) && Counts(freq, freq0, sent)
    ensures Counts(freq', freq0, sent + RunTokens(cur, prev, count))
  {
    if count < min {
      freq' := freq[cur := freq[cur] + count];
    } else if cur != 0 {
      freq' := freq;
      if cur != prev {
        freq' := freq'[cur := freq'[cur] + 1];
      }
      freq' := freq'[REP_3_6 := freq'[REP_3_6] + 1];
    } else if count <= 10 {
      freq' := freq[REPZ_3_10 := freq[REPZ_3_10] + 1];
    } else {
      freq' := freq[REPZ_11_138 := freq[REPZ_11_138] + 1];
    }
    assert freq' == Counted(freq, cur, prev, count);
    forall sym | 0 <= sym < 19
      ensures freq'[sym] == freq0[sym] + Tally(sent + RunTokens(cur, prev, count), sym)
    {
      CountedTally(freq, cur, prev, count, sym);
      TallyAppends(sent, RunTokens(cur, prev, count), sym);
    }
  }

  /** `scan_tree`: plant the guard and count the symbols `send_tree` is going to send. */
  method ScanTree(tree: array<Cell>, maxCode: nat, freq0: seq<nat>) returns (freq: seq<nat>)
    requires maxCode + 1 < tree.Length && |freq0| == 19
    requires forall o :: 0 <= o <= maxCode ==> tree[o].dl <= 15
    modifies tree
    ensures tree[..] == old(tree[..])[maxCode + 1 := old(tree[maxCode + 1]).(dl := GUARD)]
    ensures Counts(freq, freq0, AllTokens(Lengths(old(tree[..maxCode + 1]))))
  {
    ghost var lens := Lengths(tree[..maxCode + 1]);
    tree[maxCode + 1] := tree[maxCode + 1].(dl := GUARD);
    freq := CountTokens(tree, maxCode, freq0);
    assert Lengths(tree[..maxCode + 1]) == lens;
  }

  method CountTokens(tree: array<Cell>, maxCode: nat, freq0: seq<nat>) returns (freq: seq<nat>)
    requires maxCode + 1 < tree.Length && |freq0| == 19 && tree[maxCode + 1].dl == GUARD
    requires forall o :: 0 <= o <= maxCode ==> tree[o].dl <= 15
    ensures Counts(freq, freq0, AllTokens(Lengths(tree[..maxCode + 1])))
  {
    ghost var lens := Lengths(tree[..maxCode + 1]);
    var prev: int := -1;
    var next, count := tree[0].dl, 0;
    var max, min := NextCounts(next, prev);
    freq := freq0;
    ghost var sent: seq<Token> := [];
    for n := 0 to maxCode + 1
      invariant next == LengthAt(lens, n)
      invariant max == MaxCount(next, prev) && min == MinCount(next, prev)
      invariant sent + Tokens(lens, n, prev, count) == AllTokens(lens)
      invariant Counts(freq, freq0, sent)
    {
      TokensTurn(lens, n, prev, count, sent);
      var cur := next;
      next := tree[n + 1].dl;
      count := count + 1;
      if !(count < max && cur == next) {
        freq := CountRun(cur, prev, count, min, freq, freq0, sent);
        sent := sent + RunTokens(cur, prev, count);
        count, prev := 0, cur;
        max, min := NextCounts(next, cur);
      }
    }
    assert sent + [] == sent;
  }

  // The receiver

  datatype Outcome = Done(lens: seq<nat>) | NeedInput | BadRepeat

  /** The CODELENS state: read until `total` lengths are known. */
  function Fill(acc: seq<nat>, ts: seq<Token>, total: nat): Outcome
    decreases |ts|
  {
    if |acc| >= total then Done(acc)
    else if ts == [] then NeedInput
    else if ts[0].sym < 16 then Fill(acc + [ts[0].sym], ts[1..], total)
    else if ts[0].sym == REP_3_6 && acc == [] then BadRepeat
    else
      var run := Run(acc, ts[0]);
      if |acc| + |run| > total then BadRepeat else Fill(acc + run, ts[1..], total)
  }

  /** What a repeat code stands for. */
  function Run(acc: seq<nat>, t: Token): seq<nat>
    requires t.sym >= 16 && (t.sym == REP_3_6 ==> acc != [])
  {
    if t.sym == REP_3_6 then Repeat(acc[|acc| - 1], 3 + t.extra)
    else if t.sym == REPZ_3_10 then Repeat(0, 3 + t.extra)
    else Repeat(0, 11 + t.extra)
  }

  /** The same, storing the lengths in place as they come. */
  method ReadLengths(lens: array<nat>, ts: seq<Token>, total: nat) returns (r: Outcome)
    requires total <= lens.Length
    modifies lens
    ensures r == Fill([], ts, total)
    ensures r.Done? ==> |r.lens| == total && lens[..total] == r.lens
  {
    var have, i := 0, 0;
    while have < total
      invariant 0 <= have <= total && 0 <= i <= |ts|
      invariant Fill(lens[..have], ts[i..], total) == Fill([], ts, total)
      decreases |ts| - i
    {
      if i == |ts| {
        return NeedInput;
      }
      ghost var acc := lens[..have];
      assert ts[i..][1..] == ts[i + 1..];
      var t := ts[i];
      i := i + 1;
      if t.sym < 16 {
        lens[have] := t.sym;
        have := have + 1;
        assert lens[..have] == acc + [t.sym];
      } else {
        if t.sym == REP_3_6 && have == 0 {
          return BadRepeat;
        }
        var value := if t.sym == REP_3_6 then lens[have - 1] else 0;
        var copy := if t.sym >= REPZ_11_138 then 11 + t.extra else 3 + t.extra;
        if have + copy > total {
          return BadRepeat;
        }
        have := StoreRun(lens, have, value, copy);
        assert lens[..have] == acc + Run(acc, t);
      }
    }
    r := Done(lens[..have]);
  }

  method StoreRun(lens: array<nat>, have0: nat, value: nat, copy: nat) returns (have: nat)
    requires have0 + copy <= lens.Length
    modifies lens
    ensures have == have0 + copy && lens[..have] == old(lens[..have0]) + Repeat(value, copy)
  {
    have := have0;
    var k := 0;
    while k < copy
      invariant 0 <= k <= copy && have == have0 + k
      invariant forall j :: 0 <= j < have ==> lens[j] == if j < have0 then old(lens[j]) else value
    {
      lens[have] := value;
      have := have + 1;
      k := k + 1;
    }
  }

  // The round trip

  lemma {:induction false} FillLiterals(acc: seq<nat>, cur: nat, n: nat, rest: seq<Token>, total: nat)
    requires cur <= 15 && |acc| + n <= total
    ensures Fill(acc, Repeat(Token(cur, 0), n) + rest, total) == Fill(acc + Repeat(cur, n), rest, total)
    decreases n
  {
    if n == 0 {
      assert Repeat(Token(cur, 0), 0) + rest == rest && acc + Repeat(cur, 0) == acc;
    } else {
      var ts := Repeat(Token(cur, 0), n) + rest;
      assert ts[1..] == Repeat(Token(cur, 0), n - 1) + rest;
      FillLiterals(acc + [cur], cur, n - 1, rest, total);
      assert acc + [cur] + Repeat(cur, n - 1) == acc + Repeat(cur, n);
    }
  }

  lemma FillRepeat(acc: seq<nat>, t: Token, rest: seq<Token>, total: nat)
    requires t.sym >= 16 && (t.sym == REP_3_6 ==> acc != []) && |acc| + |Run(acc, t)| <= total
    ensures Fill(acc, [t] + rest, total) == Fill(acc + Run(acc, t), rest, total)
  {
    assert ([t] + rest)[1..] == rest;
  }

  /** The state the sender keeps: `prev` is the last length sent, if any. */
  ghost predicate Follows(acc: seq<nat>, prev: int) {
    prev == -1 || (acc != [] && acc[|acc| - 1] == prev)
  }

  /** Reading back a run. */
  lemma RunRoundTrip(acc: seq<nat>, cur: nat, prev: int, count: nat, rest: seq<Token>, total: nat)
    requires cur <= 15 && 1 <= count <= MaxCount(cur, prev) && Follows(acc, prev) && |acc| + count <= total
    ensures Fill(acc, RunTokens(cur, prev, count) + rest, total) == Fill(acc + Repeat(cur, count), rest, total)
  {
    var run := RunTokens(cur, prev, count);
    if count < MinCount(cur, prev) {
      FillLiterals(acc, cur, count, rest, total);
    } else if cur != 0 && cur != prev {
      assert run + rest == Repeat(run[0], 1) + ([run[1]] + rest);
      FillLiterals(acc, cur, 1, [run[1]] + rest, total);
      FillRepeat(acc + [cur], run[1], rest, total);
      assert acc + [cur] + Run(acc + [cur], run[1]) == acc + Repeat(cur, count);
      assert Repeat(cur, 1) == [cur];
    } else {
      assert run + rest == [run[0]] + rest;
      FillRepeat(acc, run[0], rest, total);
      assert Run(acc, run[0]) == Repeat(cur, count);
    }
  }

  lemma RunThen(acc: seq<nat>, cur: nat, prev: int, count: nat, later: seq<Token>, rest: seq<Token>, total: nat)
    requires cur <= 15 && 1 <= count <= MaxCount(cur, prev) && Follows(acc, prev) && |acc| + count <= total
    ensures Fill(acc, (RunTokens(cur, prev, count) + later) + rest, total)
            == Fill(acc + Repeat(cur, count), later + rest, total)
  {
    Regroup(RunTokens(cur, prev, count), later, rest);
    RunRoundTrip(acc, cur, prev, count, later + rest, total);
  }

  /** Reading back everything sent from position `n` on. */
  lemma {:induction false} TokensRoundTrip(acc: seq<nat>, lens: seq<nat>, n: nat, prev: int, count: nat,
                                           rest: seq<Token>, total: nat)
    requires (forall o :: 0 <= o < |lens| ==> lens[o] <= 15) && count <= n <= |lens| && Follows(acc, prev)
    requires if n == |lens| then count == 0 else count < MaxCount(lens[n], prev)
    requires forall j :: n - count <= j < n ==> lens[j] == lens[n]
    requires |acc| + |lens| - (n - count) <= total
    ensures Fill(acc, Tokens(lens, n, prev, count) + rest, total) == Fill(acc + lens[n - count..], rest, total)
    decreases |lens| - n
  {
    if n == |lens| {
      assert Tokens(lens, n, prev, count) + rest == rest && acc + lens[n - count..] == acc;
    } else if count + 1 < MaxCount(lens[n], prev) && lens[n] == LengthAt(lens, n + 1) {
      TokensRoundTrip(acc, lens, n + 1, prev, count + 1, rest, total);
    } else {
      var cur, later := lens[n], Tokens(lens, n + 1, lens[n], 0);
      TokensRoundTrip(acc + Repeat(cur, count + 1), lens, n + 1, cur, 0, rest, total);
      RunThen(acc, cur, prev, count + 1, later, rest, total);
      RunIsSlice(acc, lens, n, count);
    }
  }

  lemma RunIsSlice(acc: seq<nat>, lens: seq<nat>, n: nat, count: nat)
    requires count <= n < |lens| && forall j :: n - count <= j < n ==> lens[j] == lens[n]
    ensures acc + Repeat(lens[n], count + 1) + lens[n + 1..] == acc + lens[n - count..]
  {
    assert lens[n - count..] == Repeat(lens[n], count + 1) + lens[n + 1..];
  }

  lemma TreeRoundTrip(acc: seq<nat>, lens: seq<nat>, rest: seq<Token>, total: nat)
    requires (forall o :: 0 <= o < |lens| ==> lens[o] <= 15) && |acc| + |lens| <= total
    ensures Fill(acc, AllTokens(lens) + rest, total) == Fill(acc + lens, rest, total)
  {
    TokensRoundTrip(acc, lens, 0, -1, 0, rest, total);
    assert lens[0 - 0..] == lens;
  }

  /** The literal and distance lengths of a block, sent one after the other, are read back
      as one array. */
  lemma HeaderRoundTrip(literal: seq<nat>, distance: seq<nat>)
    requires forall o :: 0 <= o < |literal| ==> literal[o] <= 15
    requires forall o :: 0 <= o < |distance| ==> distance[o] <= 15
    ensures Fill([], AllTokens(literal) + AllTokens(distance), |literal| + |distance|) == Done(literal + distance)
  {
    var total := |literal| + |distance|;
    TreeRoundTrip([], literal, AllTokens(distance), total);
    assert [] + literal == literal;
    TreeRoundTrip(literal, distance, [], total);
    assert AllTokens(distance) + [] == AllTokens(distance);
  }

  /** Every repeat field fits its 2, 3 or 7 bits. */
  lemma {:induction false} TokensFit(lens: seq<nat>, n: nat, prev: int, count: nat)
    requires (forall o :: 0 <= o < |lens| ==> lens[o] <= 15) && n <= |lens|
    requires n < |lens| ==> count < MaxCount(lens[n], prev)
    ensures forall i :: 0 <= i < |Tokens(lens, n, prev, count)| ==> Fits(Tokens(lens, n, prev, count)[i])
    decreases |lens| - n
  {
    if n < |lens| {
      if count + 1 < MaxCount(lens[n], prev) && lens[n] == LengthAt(lens, n + 1) {
        TokensFit(lens, n + 1, prev, count + 1);
      } else {
        RunFits(lens[n], prev, count + 1);
        TokensFit(lens, n + 1, lens[n], 0);
      }
    }
  }

  lemma RunFits(cur: nat, prev: int, count: nat)
    requires cur <= 15 && 1 <= count <= MaxCount(cur, prev)
    ensures forall i :: 0 <= i < |RunTokens(cur, prev, count)| ==> Fits(RunTokens(cur, prev, count)[i])
  {
  }
}

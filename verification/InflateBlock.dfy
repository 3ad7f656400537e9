/**
 * The block and header states of `inflate` on any input whatever: what the bits say, that exactly the
 * blocks some deflater could have sent are read, and that the reader, fed in chunks, says the same.
 */
module InflateBlock {
  import opened Bytes
  import opened BitStrings
  import opened BitStream
  import opened BitParse
  import opened CanonicalCodes
  import opened DecodeTable
  import opened InflateTable
  import opened HuffmanStream
  import opened LengthCodes
  import opened BlockBody
  import opened InflateBody
  import opened BlockHeader
  import opened Lz77
  import opened Sequences
  import Rle = CodeLengthRle

  // What the bits say: the header

  /** LENLENS: the places from `k` to `n` in the order they are sent. */
  function BlAt(bits: seq<bool>, k: nat, n: nat, bl: seq<nat>): (p: Parse<seq<nat>>)
    requires k <= n <= BL_CODES == |bl|
    ensures p.Got? ==> |p.value| == BL_CODES && |p.rest| <= |bits|
    decreases n - k
  {
    if k == n then Got(bl, bits)
    else
      var (v, rest) :- NumberAt(bits, 3);
      BlAt(rest, k + 1, n, bl[PlaceOf(k) := v])
  }

  function Zeros(n: nat): (r: seq<nat>)
    ensures |r| == n && forall i | 0 <= i < n :: r[i] == 0
  {
    seq(n, _ => 0)
  }

  /** A symbol of the code-length code. CODELENS does not look at the mark of an entry that has no code:
      such an entry has the value 0 and takes one bit. */
  ghost function LengthSymbolAt(bl: seq<nat>, bits: seq<bool>): (p: Parse<nat>)
    requires Lengths15(bl) && |bl| == BL_CODES
    ensures p.Got? ==> p.value < BL_CODES && |p.rest| < |bits|
    ensures !p.Wrong?
  {
    var p := WordAt(bl, bits, BitLengthRepeat);
    if p.Wrong? then Got(0, bits[1..]) else p
  }

  /** CODELENS: lengths and runs of lengths after `acc`, until there are `total`. */
  ghost function RunsAt(bl: seq<nat>, bits: seq<bool>, acc: seq<nat>, total: nat): (p: Parse<seq<nat>>)
    requires Lengths15(bl) && |bl| == BL_CODES && |acc| <= total
    ensures p.Got? ==> |p.value| == total && |p.rest| <= |bits|
    decreases total - |acc|
  {
    if |acc| == total then Got(acc, bits)
    else
      var (sym, b1) :- LengthSymbolAt(bl, bits);
      var (extra, b2) :- NumberAt(b1, Rle.ExtraBits(sym));
      if sym < 16 then RunsAt(bl, b2, acc + [sym], total)
      else if sym == Rle.REP_3_6 && acc == [] then Wrong(BitLengthRepeat)
      else
        var run := Rle.Run(acc, Rle.Token(sym, extra));
        if |acc| + |run| > total then Wrong(BitLengthRepeat) else RunsAt(bl, b2, acc + run, total)
  }

  /** The two codes, or why they are none. */
  ghost function CodesIn(lens: seq<nat>, nlen: nat, rest: seq<bool>): (p: Parse<Codes>)
    requires 257 <= nlen <= |lens|
    ensures p.Got? ==> p.rest == rest
  {
    if lens[END_BLOCK] == 0 then Wrong(MissingEnd)
    else if !Acceptable(Lens, lens[..nlen]) then Wrong(LengthsSet)
    else if !Acceptable(Dists, lens[nlen..]) then Wrong(DistancesSet)
    else Got(Codes.Codes(lens[..nlen], lens[nlen..]), rest)
  }

  /** CODELENS to the tables. */
  ghost function LengthsAt(bl: seq<nat>, nlen: nat, ndist: nat, bits: seq<bool>): (p: Parse<Codes>)
    requires Within(bl, MAX_BL_BITS) && |bl| == BL_CODES && 257 <= nlen
    ensures p.Got? ==> |p.rest| <= |bits|
  {
    if !Acceptable(Kind.Codes, bl) then Wrong(CodeLengthsSet)
    else
      var (lens, rest) :- RunsAt(bl, bits, [], nlen + ndist);
      CodesIn(lens, nlen, rest)
  }

  /** LENLENS and what follows. */
  ghost function TreesAt(nlen: nat, ndist: nat, ncode: nat, bits: seq<bool>): (p: Parse<Codes>)
    requires 257 <= nlen && ncode <= BL_CODES
    ensures p.Got? ==> |p.rest| <= |bits|
  {
    BlSmall(bits, 0, ncode, Zeros(BL_CODES));
    var (bl, rest) :- BlAt(bits, 0, ncode, Zeros(BL_CODES));
    LengthsAt(bl, nlen, ndist, rest)
  }

  /** TABLE: how many lengths of each kind there are. */
  function CountsAt(bits: seq<bool>): (p: Parse<(nat, nat, nat)>)
    ensures p.Got? ==> 257 <= p.value.0 && 1 <= p.value.1 && 4 <= p.value.2 <= BL_CODES && |p.rest| == |bits| - 14
    ensures !p.Wrong?
  {
    SmallPowers();
    var (a, b1) :- NumberAt(bits, 5);
    var (b, b2) :- NumberAt(b1, 5);
    var (c, b3) :- NumberAt(b2, 4);
    Got((a + 257, b + 1, c + 4), b3)
  }

  /** TABLE and what follows. */
  ghost function HeaderAt(bits: seq<bool>): (p: Parse<Codes>)
    ensures p.Got? ==> |p.rest| <= |bits|
  {
    var (counts, rest) :- CountsAt(bits);
    if counts.0 > 286 || counts.1 > 30 then Wrong(TooMany) else TreesAt(counts.0, counts.1, counts.2, rest)
  }

  lemma {:induction false} BlSmall(bits: seq<bool>, k: nat, n: nat, bl: seq<nat>)
    requires k <= n <= BL_CODES == |bl| && Within(bl, MAX_BL_BITS)
    ensures var p := BlAt(bits, k, n, bl); p.Got? ==> Within(p.value, MAX_BL_BITS)
    decreases n - k
  {
    var p := NumberAt(bits, 3);
    if k < n && p.Got? {
      NumberWas(bits, 3);
      assert Pow2(3) == 8;
      BlSmall(p.rest, k + 1, n, bl[PlaceOf(k) := p.value]);
    }
  }

  // A header that was sent is read back

  lemma CountsIs(nlen: nat, ndist: nat, ncode: nat, rest: seq<bool>)
    requires 257 <= nlen < 289 && 1 <= ndist < 33 && 4 <= ncode < 20
    ensures CountsAt(CountBits(nlen, ndist, ncode) + rest) == Got((nlen, ndist, ncode), rest)
  {
    hide NumberAt, BitsOf, Pow2;
    SmallPowers();
    var x, y, z := BitsOf(nlen - 257, 5), BitsOf(ndist - 1, 5), BitsOf(ncode - 4, 4);
    assert (x + (y + z)) + rest == x + (y + (z + rest));
    NumberIs(nlen - 257, 5, y + (z + rest));
    NumberIs(ndist - 1, 5, z + rest);
    NumberIs(ncode - 4, 4, rest);
  }

  /** The lengths for the places before `k` are those of `bl`; the others are zero. */
  ghost predicate Placed(acc: seq<nat>, bl: seq<nat>, k: nat) {
    |acc| == |bl| == BL_CODES && forall j | 0 <= j < BL_CODES :: acc[PlaceOf(j)] == if j < k then bl[PlaceOf(j)] else 0
  }

  lemma PlacedNext(acc: seq<nat>, bl: seq<nat>, k: nat)
    requires k < BL_CODES && Placed(acc, bl, k)
    ensures Placed(acc[PlaceOf(k) := bl[PlaceOf(k)]], bl, k + 1)
  {
    OrderCovers();
  }

  lemma PlacedAll(acc: seq<nat>, bl: seq<nat>, n: nat)
    requires n <= BL_CODES && Placed(acc, bl, n) && forall k | n <= k < BL_CODES :: bl[PlaceOf(k)] == 0
    ensures acc == bl
  {
    OrderCovers();
    forall o | 0 <= o < BL_CODES ensures acc[o] == bl[o] {
      assert o in BL_ORDER;
      var j :| 0 <= j < BL_CODES && BL_ORDER[j] == o;
      assert PlaceOf(j) == o;
    }
  }

  lemma {:induction false} BlIs(bl: seq<nat>, k: nat, n: nat, acc: seq<nat>, rest: seq<bool>)
    requires k <= n <= BL_CODES && Placed(acc, bl, k) && Within(bl, MAX_BL_BITS)
    requires forall j | n <= j < BL_CODES :: bl[PlaceOf(j)] == 0
    ensures BlAt(BlBits(bl, n, k) + rest, k, n, acc) == Got(bl, rest)
    decreases n - k
  {
    hide NumberAt, BitsOf, PlaceOf, Placed;
    PlacedSizes(acc, bl, k);
    if k == n {
      PlacedAll(acc, bl, n);
      assert BlBits(bl, n, k) + rest == rest;
    } else {
      var v := bl[PlaceOf(k)];
      Regroup(BitsOf(v, 3), BlBits(bl, n, k + 1), rest);
      assert Pow2(3) == 8;
      NumberIs(v, 3, BlBits(bl, n, k + 1) + rest);
      PlacedNext(acc, bl, k);
      BlIs(bl, k + 1, n, acc[PlaceOf(k) := v], rest);
    }
  }

  lemma PlacedSizes(acc: seq<nat>, bl: seq<nat>, k: nat)
    requires Placed(acc, bl, k)
    ensures |acc| == |bl| == BL_CODES
  {
  }

  lemma LengthSymbolIs(bl: seq<nat>, o: nat, rest: seq<bool>)
    requires |bl| == BL_CODES && Readable(bl) && InUse(bl, o)
    ensures LengthSymbolAt(bl, Spelled(bl, o) + rest) == Got(o, rest)
  {
    hide WordAt, Spelled;
    WordIs(bl, o, rest, BitLengthRepeat);
  }

  /** What a turn of CODELENS makes of one token. */
  lemma RunsStep(bl: seq<nat>, bits: seq<bool>, acc: seq<nat>, total: nat, t: Rle.Token, b1: seq<bool>, b2: seq<bool>)
    requires Lengths15(bl) && |bl| == BL_CODES && |acc| < total && LengthSymbolAt(bl, bits) == Got(t.sym, b1)
    requires NumberAt(b1, Rle.ExtraBits(t.sym)) == Got(t.extra, b2)
    ensures t.sym < 16 ==> RunsAt(bl, bits, acc, total) == RunsAt(bl, b2, acc + [t.sym], total)
    ensures t.sym >= 16 && (t.sym == Rle.REP_3_6 ==> acc != []) ==>
              RunsAt(bl, bits, acc, total)
              == if |acc| + |Rle.Run(acc, t)| > total then Wrong(BitLengthRepeat)
                 else RunsAt(bl, b2, acc + Rle.Run(acc, t), total)
    ensures t.sym == Rle.REP_3_6 && acc == [] ==> RunsAt(bl, bits, acc, total) == Wrong(BitLengthRepeat)
  {
    hide LengthSymbolAt, NumberAt, Rle.ExtraBits;
  }

  /** With all lengths known there are no tokens left. */
  lemma NoneLeft(acc: seq<nat>, ts: seq<Rle.Token>, total: nat)
    requires |acc| == total && Rle.Fill(acc, ts, total + 1) == Rle.NeedInput
    ensures ts == [] && Rle.Fill(acc, ts, total) == Rle.Done(acc)
  {
  }

  /** A symbol below 16 is a length. */
  lemma PlainRead(acc: seq<nat>, ts: seq<Rle.Token>, total: nat)
    requires |acc| < total && ts != [] && ts[0].sym < 16
    ensures Rle.Fill(acc, ts, total) == Rle.Fill(acc + [ts[0].sym], ts[1..], total)
  {
  }

  /** Any other is a run, unless it cannot be. */
  lemma RunRead(acc: seq<nat>, ts: seq<Rle.Token>, total: nat)
    requires |acc| < total && ts != [] && 16 <= ts[0].sym && !Rle.Fill(acc, ts, total).BadRepeat?
    ensures (ts[0].sym == Rle.REP_3_6 ==> acc != []) && |acc| + |Rle.Run(acc, ts[0])| <= total
    ensures Rle.Fill(acc, ts, total) == Rle.Fill(acc + Rle.Run(acc, ts[0]), ts[1..], total)
  {
  }

  lemma RunsToNext(acc: seq<nat>, ts: seq<Rle.Token>, want: seq<nat>)
    requires RunsTo(acc, ts, want) && |acc| < |want|
    ensures ts != []
    ensures ts[0].sym < 16 ==> RunsTo(acc + [ts[0].sym], ts[1..], want)
    ensures ts[0].sym >= 16 ==>
              && (ts[0].sym == Rle.REP_3_6 ==> acc != []) && |acc| + |Rle.Run(acc, ts[0])| <= |want|
              && RunsTo(acc + Rle.Run(acc, ts[0]), ts[1..], want)
  {
    if ts != [] {
      if ts[0].sym < 16 {
        PlainRead(acc, ts, |want|);
        PlainRead(acc, ts, |want| + 1);
      } else {
        RunRead(acc, ts, |want|);
        RunRead(acc, ts, |want| + 1);
      }
    }
  }

  lemma Finish(acc: seq<nat>, ts: seq<Rle.Token>, want: seq<nat>)
    requires |acc| == |want| && RunsTo(acc, ts, want)
    ensures ts == [] && acc == want
  {
    NoneLeft(acc, ts, |want|);
  }

  lemma {:induction false} RunsIs(bl: seq<nat>, ts: seq<Rle.Token>, acc: seq<nat>, want: seq<nat>, rest: seq<bool>)
    requires |bl| == BL_CODES && Readable(bl) && RunsInUse(bl, ts) && RunsTo(acc, ts, want) && |acc| <= |want|
    ensures RunsAt(bl, RunBits(bl, ts) + rest, acc, |want|) == Got(want, rest)
    decreases |ts|
  {
    hide RunsAt, LengthSymbolAt, NumberAt, Spelled, BitsOf, Readable, RunsTo, Pow2, Rle.ExtraBits, Rle.Run, Lengths15;
    ReadableFits(bl);
    if |acc| == |want| {
      Finish(acc, ts, want);
      assert RunBits(bl, ts) + rest == rest;
      RunsDone(bl, rest, acc);
    } else {
      RunsToNext(acc, ts, want);
      var t, later := ts[0], RunBits(bl, ts[1..]);
      var w, x := Spelled(bl, t.sym), BitsOf(t.extra, Rle.ExtraBits(t.sym));
      Regroup(w + x, later, rest);
      Regroup(w, x, later + rest);
      LengthSymbolIs(bl, t.sym, x + (later + rest));
      NumberIs(t.extra, Rle.ExtraBits(t.sym), later + rest);
      RunsStep(bl, RunBits(bl, ts) + rest, acc, |want|, t, x + (later + rest), later + rest);
      RunsIs(bl, ts[1..], if t.sym < 16 then acc + [t.sym] else acc + Rle.Run(acc, t), want, rest);
    }
  }

  lemma RunsDone(bl: seq<nat>, bits: seq<bool>, acc: seq<nat>)
    requires Lengths15(bl) && |bl| == BL_CODES
    ensures RunsAt(bl, bits, acc, |acc|) == Got(acc, bits)
  {
  }

  lemma DescribedParts(h: Header)
    requires Described(h)
    ensures |h.bl| == BL_CODES && Readable(h.bl) && Acceptable(Kind.Codes, h.bl) && Within(h.bl, MAX_BL_BITS)
    ensures RunsInUse(h.bl, h.runs) && RunsTo([], h.runs, h.u.lens + h.u.dists) && 4 <= h.blCodes <= BL_CODES
    ensures forall k | h.blCodes <= k < BL_CODES :: h.bl[PlaceOf(k)] == 0
    ensures 257 <= |h.u.lens| <= 286 && 1 <= |h.u.dists| <= 30 && TwoCodes(h.u)
    ensures BothReadable(h.u) && Acceptable(Lens, h.u.lens) && Acceptable(Dists, h.u.dists)
  {
    hide Kraft, Matches, Acceptable;
    CompleteIsFull(Kind.Codes, h.bl);
    AcceptableReadable(Lens, h.u.lens);
    AcceptableReadable(Dists, h.u.dists);
  }

  lemma CodesInIs(u: Codes, rest: seq<bool>)
    requires 257 <= |u.lens| && TwoCodes(u) && Acceptable(Lens, u.lens) && Acceptable(Dists, u.dists)
    ensures CodesIn(u.lens + u.dists, |u.lens|, rest) == Got(u, rest)
  {
    hide Acceptable;
    var all := u.lens + u.dists;
    assert all[..|u.lens|] == u.lens && all[|u.lens|..] == u.dists;
  }

  /** A header is read as what it says, and nothing beyond it. */
  lemma HeaderIs(h: Header, rest: seq<bool>)
    requires Described(h)
    ensures HeaderAt(TreeBits(h) + rest) == Got(h.u, rest)
  {
    hide Described, CountsAt, BlAt, RunsAt, CodesIn, CountBits, BlBits, RunBits, RunsTo, RunsInUse, Readable,
         Acceptable, Within, TwoCodes;
    DescribedParts(h);
    ReadableFits(h.bl);
    var a, b := BlBits(h.bl, h.blCodes, 0), RunBits(h.bl, h.runs);
    TreeBitsAre(h, rest);
    CountsIs(|h.u.lens|, |h.u.dists|, h.blCodes, a + (b + rest));
    NonePlaced(h.bl);
    BlIs(h.bl, 0, h.blCodes, Zeros(BL_CODES), b + rest);
    RunsIs(h.bl, h.runs, [], h.u.lens + h.u.dists, rest);
    CodesInIs(h.u, rest);
  }

  lemma TreeBitsAre(h: Header, rest: seq<bool>)
    requires Described(h)
    ensures TreeBits(h) + rest
         == CountBits(|h.u.lens|, |h.u.dists|, h.blCodes)
            + (BlBits(h.bl, h.blCodes, 0) + (RunBits(h.bl, h.runs) + rest))
  {
    hide CountBits, BlBits, RunBits;
    Regroup(CountBits(|h.u.lens|, |h.u.dists|, h.blCodes), BlBits(h.bl, h.blCodes, 0) + RunBits(h.bl, h.runs), rest);
    Regroup(BlBits(h.bl, h.blCodes, 0), RunBits(h.bl, h.runs), rest);
  }

  lemma NonePlaced(bl: seq<nat>)
    requires |bl| == BL_CODES
    ensures Placed(Zeros(BL_CODES), bl, 0)
  {
  }

  // Whatever header is read could have been sent

  lemma CountsWas(bits: seq<bool>)
    requires CountsAt(bits).Got?
    ensures var p := CountsAt(bits); var (nlen, ndist, ncode) := p.value;
            && nlen < 289 && ndist < 33 && ncode < 20 && bits == CountBits(nlen, ndist, ncode) + p.rest
  {
    hide NumberAt, BitsOf, Pow2;
    SmallPowers();
    NumberWas(bits, 5);
    var p := NumberAt(bits, 5);
    NumberWas(p.rest, 5);
    var q := NumberAt(p.rest, 5);
    NumberWas(q.rest, 4);
    var s := NumberAt(q.rest, 4);
    var x, y, z := BitsOf(p.value, 5), BitsOf(q.value, 5), BitsOf(s.value, 4);
    assert (x + (y + z)) + s.rest == x + (y + (z + s.rest));
  }

  /** What is placed stays, and what is not asked for stays as it was. */
  lemma {:induction false} BlWas(bits: seq<bool>, k: nat, n: nat, acc: seq<nat>)
    requires k <= n <= BL_CODES == |acc| && BlAt(bits, k, n, acc).Got?
    ensures var p := BlAt(bits, k, n, acc);
            && bits == BlBits(p.value, n, k) + p.rest
            && forall j | 0 <= j < BL_CODES && !(k <= j < n) :: p.value[PlaceOf(j)] == acc[PlaceOf(j)]
    decreases n - k
  {
    hide NumberAt, BitsOf;
    if k < n {
      OrderCovers();
      var v := NumberAt(bits, 3);
      NumberWas(bits, 3);
      var next := acc[PlaceOf(k) := v.value];
      BlWas(v.rest, k + 1, n, next);
      var p := BlAt(v.rest, k + 1, n, next);
      assert p.value[PlaceOf(k)] == v.value;
      assert (BitsOf(v.value, 3) + BlBits(p.value, n, k + 1)) + p.rest
          == BitsOf(v.value, 3) + (BlBits(p.value, n, k + 1) + p.rest);
    }
  }

  /** With a code of no words every length is zero. */
  lemma {:induction false} RunsOfNone(bl: seq<nat>, bits: seq<bool>, acc: seq<nat>, total: nat)
    requires |bl| == BL_CODES && (forall o | 0 <= o < |bl| :: bl[o] == 0) && |acc| <= total
    requires forall i | 0 <= i < |acc| :: acc[i] == 0
    ensures Lengths15(bl)
    ensures var p := RunsAt(bl, bits, acc, total); p.Got? ==> forall i | 0 <= i < total :: p.value[i] == 0
    decreases total - |acc|
  {
    hide Full, Rle.Run;
    if |acc| < total && LengthSymbolAt(bl, bits).Got? {
      var b1 := LengthSymbolAt(bl, bits).rest;
      assert LengthSymbolAt(bl, bits).value == 0;
      RunsOfNone(bl, NumberAt(b1, 0).rest, acc + [0], total);
    }
  }

  lemma {:induction false} RunsWas(bl: seq<nat>, bits: seq<bool>, acc: seq<nat>, total: nat)
    returns (ts: seq<Rle.Token>)
    requires |bl| == BL_CODES && Lengths15(bl) && Full(bl) && |acc| <= total && RunsAt(bl, bits, acc, total).Got?
    ensures var p := RunsAt(bl, bits, acc, total);
            RunsInUse(bl, ts) && RunsTo(acc, ts, p.value) && bits == RunBits(bl, ts) + p.rest
    decreases total - |acc|
  {
    hide WordAt, NumberAt, Spelled, BitsOf, Pow2, Rle.ExtraBits, Full, Lengths15, Rle.Run, RunsTo;
    var all := RunsAt(bl, bits, acc, total);
    if |acc| == total {
      ts := [];
      NoRuns(acc);
    } else {
      SymbolWas(bl, bits);
      var p := LengthSymbolAt(bl, bits);
      NumberWas(p.rest, Rle.ExtraBits(p.value));
      var q := NumberAt(p.rest, Rle.ExtraBits(p.value));
      var t := Rle.Token(p.value, q.value);
      RunLong(acc, t);
      var more := RunsWas(bl, q.rest, if t.sym < 16 then acc + [t.sym] else acc + Rle.Run(acc, t), total);
      ts := [t] + more;
      assert ts[1..] == more;
      RunsToFirst(acc, t, more, all.value);
      var w, x := Spelled(bl, t.sym), BitsOf(t.extra, Rle.ExtraBits(t.sym));
      Regroup(w + x, RunBits(bl, more), all.rest);
      Regroup(w, x, RunBits(bl, more) + all.rest);
    }
  }

  lemma SymbolWas(bl: seq<nat>, bits: seq<bool>)
    requires |bl| == BL_CODES && Lengths15(bl) && Full(bl) && LengthSymbolAt(bl, bits).Got?
    ensures var p := LengthSymbolAt(bl, bits); InUse(bl, p.value) && bits == Spelled(bl, p.value) + p.rest
  {
  }

  lemma RunLong(acc: seq<nat>, t: Rle.Token)
    requires t.sym == Rle.REP_3_6 ==> acc != []
    ensures t.sym >= 16 ==> 3 <= |Rle.Run(acc, t)|
  {
  }

  lemma NoRuns(acc: seq<nat>)
    ensures RunsTo(acc, [], acc)
  {
  }

  lemma RunsToFirst(acc: seq<nat>, t: Rle.Token, more: seq<Rle.Token>, want: seq<nat>)
    requires |acc| < |want|
    requires t.sym >= 16 ==> (t.sym == Rle.REP_3_6 ==> acc != []) && |acc| + |Rle.Run(acc, t)| <= |want|
    requires RunsTo(if t.sym < 16 then acc + [t.sym] else acc + Rle.Run(acc, t), more, want)
    ensures RunsTo(acc, [t] + more, want)
  {
    assert ([t] + more)[1..] == more;
  }

  lemma HeaderWas(bits: seq<bool>) returns (h: Header)
    requires HeaderAt(bits).Got?
    ensures Described(h) && HeaderAt(bits).value == h.u && bits == TreeBits(h) + HeaderAt(bits).rest
  {
    hide CountsAt, BlAt, RunsAt, CountBits, BlBits, RunBits, RunsTo, RunsInUse, Full, Acceptable, Within, Kraft;
    CountsWas(bits);
    var (nlen, ndist, ncode) := CountsAt(bits).value;
    var b1 := CountsAt(bits).rest;
    BlWas(b1, 0, ncode, Zeros(BL_CODES));
    BlSmall(b1, 0, ncode, Zeros(BL_CODES));
    var bl, b2 := BlAt(b1, 0, ncode, Zeros(BL_CODES)).value, BlAt(b1, 0, ncode, Zeros(BL_CODES)).rest;
    SomeCode(bl, b2, nlen, ndist);
    var p := RunsAt(bl, b2, [], nlen + ndist);
    var runs := RunsWas(bl, b2, [], nlen + ndist);
    h := Header(Codes.Codes(p.value[..nlen], p.value[nlen..]), bl, ncode, runs);
    assert h.u.lens + h.u.dists == p.value;
    LengthsSmall(runs, [], p.value);
    HeaderIsDescribed(h);
    TreeBitsAre(h, p.rest);
  }

  /** A header that is read has a code for its lengths. */
  lemma SomeCode(bl: seq<nat>, bits: seq<bool>, nlen: nat, ndist: nat)
    requires |bl| == BL_CODES && Within(bl, MAX_BL_BITS) && 257 <= nlen && LengthsAt(bl, nlen, ndist, bits).Got?
    ensures Lengths15(bl) && Full(bl)
  {
    hide RunsAt, Kraft;
    if forall o | 0 <= o < |bl| :: bl[o] == 0 {
      RunsOfNone(bl, bits, [], nlen + ndist);
    }
  }

  /** No run brings a length of more than 15. */
  lemma {:induction false} LengthsSmall(ts: seq<Rle.Token>, acc: seq<nat>, want: seq<nat>)
    requires RunsTo(acc, ts, want) && Lengths15(acc)
    ensures Lengths15(want)
    decreases |ts|
  {
    if |acc| < |want| {
      RunsToNext(acc, ts, want);
      LengthsSmall(ts[1..], if ts[0].sym < 16 then acc + [ts[0].sym] else acc + Rle.Run(acc, ts[0]), want);
    } else {
      Finish(acc, ts, want);
    }
  }

  lemma HeaderIsDescribed(h: Header)
    requires 257 <= |h.u.lens| <= 286 && 1 <= |h.u.dists| <= 30 && h.u.lens[END_BLOCK] != 0
    requires Lengths15(h.u.lens + h.u.dists) && Acceptable(Lens, h.u.lens) && Acceptable(Dists, h.u.dists)
    requires |h.bl| == BL_CODES && Lengths15(h.bl) && Full(h.bl) && Within(h.bl, MAX_BL_BITS)
             && 4 <= h.blCodes <= BL_CODES
    requires forall k | h.blCodes <= k < BL_CODES :: h.bl[PlaceOf(k)] == 0
    requires RunsInUse(h.bl, h.runs) && RunsTo([], h.runs, h.u.lens + h.u.dists)
    ensures Described(h)
  {
    hide Kraft, Acceptable;
    MatchesCounts(h.bl);
    forall o | 0 <= o < |h.u.lens| ensures h.u.lens[o] <= MAX_BITS {
      assert h.u.lens[o] == (h.u.lens + h.u.dists)[o];
    }
    forall o | 0 <= o < |h.u.dists| ensures h.u.dists[o] <= MAX_BITS {
      assert h.u.dists[o] == (h.u.lens + h.u.dists)[|h.u.lens| + o];
    }
  }

  // No verdict on a header is revised by more input

  lemma CountsMore(bits: seq<bool>, more: seq<bool>)
    requires CountsAt(bits).Got?
    ensures CountsAt(bits + more) == CountsAt(bits).Then(more)
  {
    hide NumberAt;
    NumberMore(bits, 5, more);
    var p := NumberAt(bits, 5);
    NumberMore(p.rest, 5, more);
    NumberMore(NumberAt(p.rest, 5).rest, 4, more);
  }

  lemma {:induction false} BlMore(bits: seq<bool>, k: nat, n: nat, acc: seq<nat>, more: seq<bool>)
    requires k <= n <= BL_CODES == |acc| && BlAt(bits, k, n, acc) != Short
    ensures BlAt(bits + more, k, n, acc) == BlAt(bits, k, n, acc).Then(more)
    decreases n - k
  {
    hide NumberAt;
    if k < n {
      NumberMore(bits, 3, more);
      var v := NumberAt(bits, 3);
      BlMore(v.rest, k + 1, n, acc[PlaceOf(k) := v.value], more);
    }
  }

  lemma LengthSymbolMore(bl: seq<nat>, bits: seq<bool>, more: seq<bool>)
    requires |bl| == BL_CODES && Readable(bl) && LengthSymbolAt(bl, bits).Got?
    ensures LengthSymbolAt(bl, bits + more) == LengthSymbolAt(bl, bits).Then(more)
  {
    hide Readable, Full, Spelled;
    ReadableFits(bl);
    WordMore(bl, bits, BitLengthRepeat, more);
    if WordAt(bl, bits, BitLengthRepeat).Wrong? {
      assert (bits + more)[1..] == bits[1..] + more;
    }
  }

  lemma {:induction false} RunsMore(bl: seq<nat>, bits: seq<bool>, acc: seq<nat>, total: nat, more: seq<bool>)
    requires |bl| == BL_CODES && Readable(bl) && |acc| <= total && RunsAt(bl, bits, acc, total) != Short
    ensures RunsAt(bl, bits + more, acc, total) == RunsAt(bl, bits, acc, total).Then(more)
    decreases total - |acc|
  {
    hide LengthSymbolAt, NumberAt, Rle.ExtraBits, Rle.Run, Full;
    if |acc| < total {
      LengthSymbolMore(bl, bits, more);
      var p := LengthSymbolAt(bl, bits);
      NumberMore(p.rest, Rle.ExtraBits(p.value), more);
      var q := NumberAt(p.rest, Rle.ExtraBits(p.value));
      var t := Rle.Token(p.value, q.value);
      if t.sym < 16 {
        RunsMore(bl, q.rest, acc + [t.sym], total, more);
      } else if t.sym != Rle.REP_3_6 || acc != [] {
        RunLong(acc, t);
        if |acc| + |Rle.Run(acc, t)| <= total {
          RunsMore(bl, q.rest, acc + Rle.Run(acc, t), total, more);
        }
      }
    }
  }

  lemma LengthsMore(bl: seq<nat>, nlen: nat, ndist: nat, bits: seq<bool>, more: seq<bool>)
    requires Within(bl, MAX_BL_BITS) && |bl| == BL_CODES && 257 <= nlen && LengthsAt(bl, nlen, ndist, bits) != Short
    ensures LengthsAt(bl, nlen, ndist, bits + more) == LengthsAt(bl, nlen, ndist, bits).Then(more)
  {
    hide RunsAt, Acceptable;
    if Acceptable(Kind.Codes, bl) {
      AcceptableReadable(Kind.Codes, bl);
      RunsMore(bl, bits, [], nlen + ndist, more);
    }
  }

  lemma TreesMore(nlen: nat, ndist: nat, ncode: nat, bits: seq<bool>, more: seq<bool>)
    requires 257 <= nlen && ncode <= BL_CODES && TreesAt(nlen, ndist, ncode, bits) != Short
    ensures TreesAt(nlen, ndist, ncode, bits + more) == TreesAt(nlen, ndist, ncode, bits).Then(more)
  {
    hide BlAt, LengthsAt;
    BlMore(bits, 0, ncode, Zeros(BL_CODES), more);
    var p := BlAt(bits, 0, ncode, Zeros(BL_CODES));
    if p.Got? {
      BlSmall(bits, 0, ncode, Zeros(BL_CODES));
      LengthsMore(p.value, nlen, ndist, p.rest, more);
    }
  }

  lemma HeaderMore(bits: seq<bool>, more: seq<bool>)
    requires HeaderAt(bits) != Short
    ensures HeaderAt(bits + more) == HeaderAt(bits).Then(more)
  {
    hide CountsAt, TreesAt;
    CountsMore(bits, more);
    var p := CountsAt(bits);
    if p.value.0 <= 286 && p.value.1 <= 30 {
      TreesMore(p.value.0, p.value.1, p.value.2, p.rest, more);
    }
  }

  // What the bits say: blocks and streams

  /** Eight bits make a byte. */
  function Octets(bits: seq<bool>): (s: seq<byte>)
    requires |bits| % 8 == 0
    ensures |s| == |bits| / 8 && BytesBits(s) == bits
  {
    if bits == [] then []
    else
      BitsOfValue(bits[..8]);
      Pow2Literals();
      [Value(bits[..8])] + Octets(bits[8..])
  }

  lemma {:induction false} OctetsIs(s: seq<byte>)
    ensures Octets(BytesBits(s)) == s
    decreases |s|
  {
    if s != [] {
      OctetsIs(s[1..]);
      Pow2Literals();
      ValueOfBits(s[0], 8);
      assert BytesBits(s)[..8] == BitsOf(s[0], 8) && BytesBits(s)[8..] == BytesBits(s[1..]);
    }
  }

  function BytesAt(bits: seq<bool>, n: nat): (p: Parse<seq<byte>>)
    ensures p.Got? ==> |p.rest| == |bits| - 8 * n && bits == BytesBits(p.value) + p.rest && |p.value| == n
    ensures !p.Wrong?
  {
    if 8 * n <= |bits| then Got(Octets(bits[..8 * n]), bits[8 * n..]) else Short
  }

  lemma BytesIs(s: seq<byte>, rest: seq<bool>)
    ensures BytesAt(BytesBits(s) + rest, |s|) == Got(s, rest)
  {
    OctetsIs(s);
    var bits := BytesBits(s) + rest;
    assert bits[..8 * |s|] == BytesBits(s) && bits[8 * |s|..] == rest;
  }

  lemma BytesMore(bits: seq<bool>, n: nat, more: seq<bool>)
    requires BytesAt(bits, n).Got?
    ensures BytesAt(bits + more, n) == BytesAt(bits, n).Then(more)
  {
    hide Octets;
    assert (bits + more)[..8 * n] == bits[..8 * n] && (bits + more)[8 * n..] == bits[8 * n..] + more;
  }

  /** The bits from the next byte on; the whole input is one of bytes. */
  function Aligned(bits: seq<bool>): (r: seq<bool>)
    ensures |r| <= |bits| && |r| % 8 == 0
  {
    bits[|bits| % 8..]
  }

  /** STORED: the length and its complement. */
  function StoredLengthAt(bits: seq<bool>): (p: Parse<nat>)
    ensures p.Got? ==> p.value <= 65535 && |p.rest| == |bits| - 32
  {
    Pow2Literals();
    var (len, rest) :- NumberAt(bits, 16);
    var (nlen, end) :- NumberAt(rest, 16);
    if len != 65535 - nlen then Wrong(StoredLengths) else Got(len, end)
  }

  function StoredAt(bits: seq<bool>): (p: Parse<seq<Token>>)
    ensures p.Got? ==> |p.rest| <= |bits|
  {
    var (len, rest) :- StoredLengthAt(Aligned(bits));
    var (data, end) :- BytesAt(rest, len);
    Got([Stored(data)], end)
  }

  ghost function FixedAt(bits: seq<bool>): (p: Parse<seq<Token>>)
    ensures p.Got? ==> |p.rest| <= |bits|
  {
    FixedFits();
    BodyAt(FixedCodes(), bits)
  }

  lemma FixedFits()
    ensures BothFit(FixedCodes())
  {
  }

  lemma HeaderFits(bits: seq<bool>)
    ensures var p := HeaderAt(bits); p.Got? ==> BothFit(p.value) && BothReadable(p.value) && TwoCodes(p.value)
  {
    hide HeaderAt;
    if HeaderAt(bits).Got? {
      var h := HeaderWas(bits);
      DescribedParts(h);
    }
  }

  ghost function DynamicAt(bits: seq<bool>): (p: Parse<seq<Token>>)
    ensures p.Got? ==> |p.rest| <= |bits|
  {
    HeaderFits(bits);
    var (u, rest) :- HeaderAt(bits);
    BodyAt(u, rest)
  }

  /** The block after its three bits. */
  ghost function KindAt(kind: nat, bits: seq<bool>): (p: Parse<seq<Token>>)
    ensures p.Got? ==> |p.rest| <= |bits|
  {
    if kind == 0 then StoredAt(bits)
    else if kind == 1 then FixedAt(bits)
    else if kind == 2 then DynamicAt(bits)
    else Wrong(BlockType)
  }

  /** A block: its tokens, and whether it is the last. */
  ghost function BlockAt(bits: seq<bool>): (p: Parse<(seq<Token>, bool)>)
    ensures p.Got? ==> |p.rest| < |bits|
  {
    var (v, rest) :- NumberAt(bits, 3);
    var (tokens, end) :- KindAt(v / 2, rest);
    Got((tokens, v % 2 == 1), end)
  }

  /** The tokens of all blocks up to the last. */
  ghost function StreamAt(bits: seq<bool>): (p: Parse<seq<Token>>)
    decreases |bits|
  {
    var (block, rest) :- BlockAt(bits);
    if block.1 then Got(block.0, rest) else Joined(block.0, StreamAt(rest))
  }

  // A block that was sent is read back

  lemma StoredLengthIs(n: nat, rest: seq<bool>)
    requires n <= 65535
    ensures StoredLengthAt(BitsOf(n, 16) + (BitsOf(65535 - n, 16) + rest)) == Got(n, rest)
  {
    hide NumberAt, BitsOf, Pow2;
    Pow2Literals();
    NumberIs(n, 16, BitsOf(65535 - n, 16) + rest);
    NumberIs(65535 - n, 16, rest);
  }

  lemma StoredIs(pad: seq<bool>, data: seq<byte>, rest: seq<bool>)
    requires |pad| < 8 && |data| <= 65535 && |rest| % 8 == 0
    ensures StoredAt(RawBits(pad, data) + rest) == Got([Stored(data)], rest)
  {
    hide StoredLengthAt, BytesAt, BitsOf, BytesBits;
    var x, y, z := BitsOf(|data|, 16), BitsOf(65535 - |data|, 16), BytesBits(data);
    assert (pad + (x + (y + z))) + rest == pad + (x + (y + (z + rest)));
    var bits := pad + (x + (y + (z + rest)));
    PadOff(pad, x + (y + (z + rest)), |data|);
    StoredLengthIs(|data|, z + rest);
    BytesIs(data, rest);
  }

  lemma PadOff(pad: seq<bool>, bits: seq<bool>, n: nat)
    requires |pad| < 8 && |bits| % 8 == 0
    ensures Aligned(pad + bits) == bits
  {
    assert |pad + bits| % 8 == |pad|;
  }

  lemma FixedIs(cs: seq<Coded>, rest: seq<bool>)
    requires TwoCodes(FixedCodes()) && AllHaveCodes(FixedCodes(), cs)
    ensures FixedAt(BodyBits(FixedCodes(), cs) + rest) == Got(TokensOf(Fixed(false, cs)), rest)
  {
    hide BodyAt, BodyBits, FixedCodes, AllHaveCodes, TwoCodes, CompleteCode, Readable;
    FixedTwo();
    BodyIs(FixedCodes(), cs, rest);
  }

  lemma DynamicIs(h: Header, cs: seq<Coded>, rest: seq<bool>)
    requires Described(h) && AllHaveCodes(h.u, cs)
    ensures DynamicAt((TreeBits(h) + BodyBits(h.u, cs)) + rest) == Got(TokensOf(Dynamic(false, h, cs)), rest)
  {
    hide BodyAt, BodyBits, HeaderAt, TreeBits, Described, AllHaveCodes, TwoCodes, Readable, Acceptable, RunsTo;
    DescribedParts(h);
    Regroup(TreeBits(h), BodyBits(h.u, cs), rest);
    HeaderIs(h, BodyBits(h.u, cs) + rest);
    BodyIs(h.u, cs, rest);
  }

  /** Every block is read as what it stands for, and nothing beyond it. */
  lemma BlockIs(b: Sent, rest: seq<bool>)
    requires Legible(b) && (b.Raw? ==> |rest| % 8 == 0)
    ensures BlockAt(BlockBits(b) + rest) == Got((TokensOf(b), b.last), rest)
  {
    hide NumberAt, StoredAt, FixedAt, DynamicAt, BitsOf, BodyBits, TreeBits, RawBits, FixedCodes, Described,
         AllHaveCodes, Pow2;
    SmallPowers();
    var kind := match b case Dynamic(_, _, _) => 2 case Fixed(_, _) => 1 case Raw(_, _, _) => 0;
    var v := 2 * kind + if b.last then 1 else 0;
    match b {
      case Dynamic(_, h, cs) =>
        DescribedParts(h);
        Regroup(BitsOf(v, 3), TreeBits(h) + BodyBits(h.u, cs), rest);
        NumberIs(v, 3, (TreeBits(h) + BodyBits(h.u, cs)) + rest);
        DynamicIs(h, cs, rest);
      case Fixed(_, cs) =>
        Regroup(BitsOf(v, 3), BodyBits(FixedCodes(), cs), rest);
        NumberIs(v, 3, BodyBits(FixedCodes(), cs) + rest);
        FixedIs(cs, rest);
      case Raw(_, pad, data) =>
        Regroup(BitsOf(v, 3), RawBits(pad, data), rest);
        NumberIs(v, 3, RawBits(pad, data) + rest);
        StoredIs(pad, data, rest);
    }
  }

  // Whatever block is read could have been sent

  lemma StoredWas(bits: seq<bool>) returns (pad: seq<bool>, data: seq<byte>)
    requires StoredAt(bits).Got?
    ensures |pad| < 8 && |data| <= 65535 && StoredAt(bits).value == [Stored(data)] && |StoredAt(bits).rest| % 8 == 0
    ensures bits == RawBits(pad, data) + StoredAt(bits).rest
  {
    hide NumberAt, BytesAt, BitsOf, BytesBits, Pow2;
    Pow2Literals();
    var from := Aligned(bits);
    pad := bits[..|bits| % 8];
    NumberWas(from, 16);
    var p := NumberAt(from, 16);
    NumberWas(p.rest, 16);
    var q := NumberAt(p.rest, 16);
    data := BytesAt(q.rest, p.value).value;
    var rest := StoredAt(bits).rest;
    assert bits == pad + from;
    var x, y, z := BitsOf(|data|, 16), BitsOf(65535 - |data|, 16), BytesBits(data);
    assert (pad + (x + (y + z))) + rest == pad + (x + (y + (z + rest)));
  }

  lemma BlockWas(bits: seq<bool>) returns (b: Sent)
    requires BlockAt(bits).Got?
    ensures Legible(b) && BlockAt(bits).value == (TokensOf(b), b.last) && bits == BlockBits(b) + BlockAt(bits).rest
    ensures b.Raw? ==> |BlockAt(bits).rest| % 8 == 0
  {
    hide NumberAt, StoredAt, BodyAt, HeaderAt, BitsOf, BodyBits, TreeBits, RawBits, FixedCodes, Described,
         AllHaveCodes, Pow2, Readable, CompleteCode;
    SmallPowers();
    NumberWas(bits, 3);
    var p, rest := NumberAt(bits, 3), BlockAt(bits).rest;
    var last := p.value % 2 == 1;
    if p.value / 2 == 0 {
      var pad, data := StoredWas(p.rest);
      b := Raw(last, pad, data);
      Regroup(BitsOf(p.value, 3), RawBits(pad, data), rest);
    } else if p.value / 2 == 1 {
      FixedTwo();
      var cs := BodyWas(FixedCodes(), p.rest);
      b := Fixed(last, cs);
      Regroup(BitsOf(p.value, 3), BodyBits(FixedCodes(), cs), rest);
    } else {
      HeaderFits(p.rest);
      var h := HeaderWas(p.rest);
      var q := HeaderAt(p.rest);
      var cs := BodyWas(h.u, q.rest);
      b := Dynamic(last, h, cs);
      Regroup(TreeBits(h), BodyBits(h.u, cs), rest);
      Regroup(BitsOf(p.value, 3), TreeBits(h) + BodyBits(h.u, cs), rest);
    }
  }

  /** A block is read exactly when it is one that could have been sent. */
  lemma BlockExactly(bits: seq<bool>, tokens: seq<Token>, last: bool, rest: seq<bool>)
    ensures BlockAt(bits) == Got((tokens, last), rest) <==>
            exists b :: Spells(b, bits, rest) && TokensOf(b) == tokens && b.last == last
  {
    hide BlockAt, Legible, BlockBits, TokensOf;
    if BlockAt(bits) == Got((tokens, last), rest) {
      var b := BlockWas(bits);
      assert Spells(b, bits, rest);
    }
    forall b | Spells(b, bits, rest) ensures BlockAt(bits) == Got((TokensOf(b), b.last), rest) {
      BlockIs(b, rest);
    }
  }

  /** The bits are those of the block, then the rest; what is not coded ends with a byte. */
  ghost predicate Spells(b: Sent, bits: seq<bool>, rest: seq<bool>) {
    Legible(b) && (b.Raw? ==> |rest| % 8 == 0) && bits == BlockBits(b) + rest
  }

  // No verdict on a block is revised by more input

  lemma AlignedMore(bits: seq<bool>, more: seq<bool>)
    requires |more| % 8 == 0
    ensures Aligned(bits + more) == Aligned(bits) + more
  {
  }

  lemma StoredLengthMore(bits: seq<bool>, more: seq<bool>)
    requires StoredLengthAt(bits) != Short
    ensures StoredLengthAt(bits + more) == StoredLengthAt(bits).Then(more)
  {
    hide NumberAt, Pow2;
    NumberMore(bits, 16, more);
    NumberMore(NumberAt(bits, 16).rest, 16, more);
  }

  lemma StoredMore(bits: seq<bool>, more: seq<bool>)
    requires StoredAt(bits) != Short && |more| % 8 == 0
    ensures StoredAt(bits + more) == StoredAt(bits).Then(more)
  {
    hide StoredLengthAt, BytesAt, Aligned;
    AlignedMore(bits, more);
    StoredLengthMore(Aligned(bits), more);
    var p := StoredLengthAt(Aligned(bits));
    if p.Got? {
      BytesMore(p.rest, p.value, more);
    }
  }

  lemma DynamicMore(bits: seq<bool>, more: seq<bool>)
    requires DynamicAt(bits) != Short
    ensures DynamicAt(bits + more) == DynamicAt(bits).Then(more)
  {
    hide HeaderAt, BodyAt;
    HeaderMore(bits, more);
    HeaderFits(bits);
    var p := HeaderAt(bits);
    if p.Got? {
      BodyMore(p.value, p.rest, more);
    }
  }

  lemma BlockMore(bits: seq<bool>, more: seq<bool>)
    requires BlockAt(bits) != Short && |more| % 8 == 0
    ensures BlockAt(bits + more) == BlockAt(bits).Then(more)
  {
    hide NumberAt, StoredAt, BodyAt, DynamicAt, FixedCodes, CompleteCode, Readable;
    NumberMore(bits, 3, more);
    var p := NumberAt(bits, 3);
    var kind := p.value / 2;
    if kind == 0 {
      StoredMore(p.rest, more);
    } else if kind == 1 {
      FixedTwo();
      BodyMore(FixedCodes(), p.rest, more);
    } else if kind == 2 {
      DynamicMore(p.rest, more);
    }
  }

  // Streams

  ghost predicate AllLegible(ss: seq<Sent>) { forall i | 0 <= i < |ss| :: Legible(ss[i]) }

  ghost function StreamBits(ss: seq<Sent>): seq<bool>
    requires AllLegible(ss)
  {
    if ss == [] then [] else BlockBits(ss[0]) + StreamBits(ss[1..])
  }

  ghost function AllTokens(ss: seq<Sent>): seq<Token>
    requires AllLegible(ss)
  {
    if ss == [] then [] else TokensOf(ss[0]) + AllTokens(ss[1..])
  }

  /** A stream of blocks before `rest`: the last one and no other says so, and where a block is not
      coded it ends with a byte. */
  ghost predicate Flows(ss: seq<Sent>, rest: seq<bool>) {
    && ss != [] && AllLegible(ss) && (ss[0].last <==> |ss| == 1)
    && (ss[0].Raw? ==> (|StreamBits(ss[1..])| + |rest|) % 8 == 0)
    && (|ss| > 1 ==> Flows(ss[1..], rest))
  }

  lemma {:induction false} StreamIs(ss: seq<Sent>, rest: seq<bool>)
    requires Flows(ss, rest)
    ensures StreamAt(StreamBits(ss) + rest) == Got(AllTokens(ss), rest)
    decreases |ss|
  {
    hide BlockAt, Legible, BlockBits, TokensOf;
    var b, later := ss[0], StreamBits(ss[1..]) + rest;
    Regroup(BlockBits(b), StreamBits(ss[1..]), rest);
    BlockIs(b, later);
    if |ss| == 1 {
      assert ss[1..] == [];
      assert TokensOf(b) + [] == TokensOf(b) && [] + rest == rest;
    } else {
      StreamIs(ss[1..], rest);
    }
  }

  lemma {:induction false} StreamWas(bits: seq<bool>) returns (ss: seq<Sent>)
    requires StreamAt(bits).Got?
    ensures Flows(ss, StreamAt(bits).rest) && StreamAt(bits).value == AllTokens(ss)
    ensures bits == StreamBits(ss) + StreamAt(bits).rest
    decreases |bits|
  {
    hide BlockAt, Legible, BlockBits, TokensOf;
    var b := BlockWas(bits);
    var p, rest := BlockAt(bits), StreamAt(bits).rest;
    if b.last {
      ss := [b];
      assert ss[1..] == [];
      assert TokensOf(b) + [] == TokensOf(b) && BlockBits(b) + [] == BlockBits(b);
    } else {
      var more := StreamWas(p.rest);
      ss := [b] + more;
      assert ss[1..] == more;
      Regroup(BlockBits(b), StreamBits(more), rest);
    }
  }

  lemma {:induction false} StreamMore(bits: seq<bool>, more: seq<bool>)
    requires StreamAt(bits) != Short && |more| % 8 == 0
    ensures StreamAt(bits + more) == StreamAt(bits).Then(more)
    decreases |bits|
  {
    hide BlockAt;
    BlockMore(bits, more);
    var p := BlockAt(bits);
    if p.Got? && !p.value.1 {
      StreamMore(p.rest, more);
    }
  }

  /** A stream is read exactly when it is one that could have been sent: `inflate` accepts the streams of
      legible blocks and no others, and reads each in one way only. */
  lemma StreamExactly(bits: seq<bool>, tokens: seq<Token>, rest: seq<bool>)
    ensures StreamAt(bits) == Got(tokens, rest) <==>
            exists ss :: Flows(ss, rest) && AllTokens(ss) == tokens && StreamBits(ss) + rest == bits
  {
    hide StreamAt, Legible, StreamBits, AllTokens;
    if StreamAt(bits) == Got(tokens, rest) {
      var ss := StreamWas(bits);
      assert Flows(ss, rest);
    }
    forall ss | Flows(ss, rest) ensures StreamAt(StreamBits(ss) + rest) == Got(AllTokens(ss), rest) {
      StreamIs(ss, rest);
    }
  }

  // The states

  /** TABLE: all fourteen bits are waited for at once. */
  method ReadCounts(r: BitReader, chunks: seq<seq<byte>>, c0: nat) returns (res: Reading<(nat, nat, nat)>, c: nat)
    requires Steady(r) && c0 <= |chunks|
    modifies r
    ensures Steady(r) && c0 <= c <= |chunks|
    ensures Tells(CountsAt(old(Ahead(r, chunks, c0))), res, Ahead(r, chunks, c))
  {
    hide Value, Ahead, Pow2;
    var ok;
    ok, c := Await(r, 14, chunks, c0);
    if !ok {
      return Starved, c;
    }
    var nlen, ndist, ncode;
    nlen, c := AwaitExtra(r, 5, chunks, c);
    ndist, c := AwaitExtra(r, 5, chunks, c);
    ncode, c := AwaitExtra(r, 4, chunks, c);
    res := Done((nlen.value + 257, ndist.value + 1, ncode.value + 4));
  }

  /** The lengths read so far are in their places. */
  ghost predicate Holding(lens: seq<nat>, acc: seq<nat>, k: nat) {
    && |acc| == BL_CODES <= |lens| && k <= BL_CODES
    && forall j | 0 <= j < BL_CODES :: acc[PlaceOf(j)] == if j < k then lens[PlaceOf(j)] else 0
  }

  lemma HoldingNext(lens: seq<nat>, acc: seq<nat>, k: nat, v: nat)
    requires k < BL_CODES && Holding(lens, acc, k)
    ensures Holding(lens[PlaceOf(k) := v], acc[PlaceOf(k) := v], k + 1)
  {
    OrderCovers();
  }

  lemma HoldingAll(lens: seq<nat>, acc: seq<nat>)
    requires Holding(lens, acc, BL_CODES)
    ensures lens[..BL_CODES] == acc
  {
    OrderCovers();
    forall o | 0 <= o < BL_CODES ensures lens[o] == acc[o] {
      assert o in BL_ORDER;
      var j :| 0 <= j < BL_CODES && BL_ORDER[j] == o;
      assert PlaceOf(j) == o;
    }
  }

  /** LENLENS: the lengths of the code-length code, in the order they are sent; the others are zero. */
  method ReadBlLengths(r: BitReader, chunks: seq<seq<byte>>, c0: nat, ncode: nat, lens: array<nat>)
    returns (res: Reading<seq<nat>>, c: nat)
    requires Steady(r) && c0 <= |chunks| && ncode <= BL_CODES <= lens.Length
    modifies r, lens
    ensures Steady(r) && c0 <= c <= |chunks|
    ensures Tells(BlAt(old(Ahead(r, chunks, c0)), 0, ncode, Zeros(BL_CODES)), res, Ahead(r, chunks, c))
    ensures res.Done? ==> res.value == lens[..BL_CODES]
  {
    hide NumberAt, Ahead, Pow2, Holding, PlaceOf;
    c := c0;
    ghost var acc: seq<nat> := Zeros(BL_CODES);
    ghost var all := BlAt(Ahead(r, chunks, c0), 0, ncode, acc);
    NoneHeld(lens[..], acc);
    for have := 0 to ncode
      invariant Steady(r) && c0 <= c <= |chunks| && |acc| == BL_CODES && Holding(lens[..], acc, have)
      invariant BlAt(Ahead(r, chunks, c), have, ncode, acc) == all
    {
      var value;
      value, c := AwaitExtra(r, 3, chunks, c);
      if !value.Done? {
        return Starved, c;
      }
      HoldingNext(lens[..], acc, have, value.value);
      lens[PlaceOf(have)] := value.value;
      acc := acc[PlaceOf(have) := value.value];
    }
    for have := ncode to BL_CODES
      invariant Steady(r) && c0 <= c <= |chunks| && |acc| == BL_CODES && Holding(lens[..], acc, have)
      invariant all == Got(acc, Ahead(r, chunks, c))
    {
      HoldingNext(lens[..], acc, have, 0);
      StillZero(lens[..], acc, have);
      lens[PlaceOf(have)] := 0;
    }
    HoldingAll(lens[..], acc);
    res := Done(lens[..BL_CODES]);
  }

  lemma NoneHeld(lens: seq<nat>, acc: seq<nat>)
    requires BL_CODES <= |lens| && acc == Zeros(BL_CODES)
    ensures Holding(lens, acc, 0)
  {
  }

  lemma StillZero(lens: seq<nat>, acc: seq<nat>, k: nat)
    requires k < BL_CODES && Holding(lens, acc, k)
    ensures acc[PlaceOf(k) := 0] == acc
  {
  }

  method ReadLengthSymbol(r: BitReader, table: seq<Entry>, root: nat, chunks: seq<seq<byte>>, c0: nat,
                          ghost bl: seq<nat>)
    returns (res: Reading<nat>, c: nat)
    requires Steady(r) && OneDecodes(table, root, bl) && |bl| == BL_CODES && c0 <= |chunks|
    modifies r
    ensures Steady(r) && c0 <= c <= |chunks| && Lengths15(bl)
    ensures Tells(LengthSymbolAt(bl, old(Ahead(r, chunks, c0))), res, Ahead(r, chunks, c))
  {
    hide OneDecodes, WordAt, Lengths15, BytesBits, Flatten, Pow2, BitsOf;
    res, c := AwaitSymbol(r, table, root, chunks, c0, BitLengthRepeat, bl);
    if res.Failed? {
      ghost var left, later := r.Left(), BytesBits(Flatten(chunks[c..]));
      var _ := r.Take(1);
      assert left[1..] + later == (left + later)[1..];
      res := Done(0);
    }
  }

  /** The turn when nothing could be read. */
  lemma RunsStuck(bl: seq<nat>, bits: seq<bool>, acc: seq<nat>, total: nat)
    requires Lengths15(bl) && |bl| == BL_CODES && |acc| < total
    ensures var p := LengthSymbolAt(bl, bits);
            && (p.Short? ==> RunsAt(bl, bits, acc, total) == Short)
            && (p.Got? && NumberAt(p.rest, Rle.ExtraBits(p.value)).Short? ==> RunsAt(bl, bits, acc, total) == Short)
  {
    hide LengthSymbolAt, NumberAt, Rle.ExtraBits;
  }

  /** One turn of CODELENS: a length, or a run of them. */
  method ReadRun(r: BitReader, table: seq<Entry>, root: nat, chunks: seq<seq<byte>>, c0: nat, lens: array<nat>,
                 have: nat, total: nat, ghost bl: seq<nat>)
    returns (res: Reading<nat>, c: nat)
    requires Steady(r) && OneDecodes(table, root, bl) && |bl| == BL_CODES && c0 <= |chunks|
    requires have < total <= lens.Length
    modifies r, lens
    ensures Steady(r) && c0 <= c <= |chunks| && Lengths15(bl)
    ensures res.Done? ==> have < res.value <= total
    ensures res.Done? ==>
              RunsAt(bl, old(Ahead(r, chunks, c0)), old(lens[..have]), total)
              == RunsAt(bl, Ahead(r, chunks, c), lens[..res.value], total)
    ensures !res.Done? ==> Said(RunsAt(bl, old(Ahead(r, chunks, c0)), old(lens[..have]), total)) == Fails(res)
  {
    hide OneDecodes, LengthSymbolAt, NumberAt, RunsAt, Lengths15, Ahead, Pow2, Rle.Repeat;
    ghost var before, acc := Ahead(r, chunks, c0), lens[..have];
    LensFit(table, root, bl);
    RunsStuck(bl, before, acc, total);
    var sym, extra;
    sym, c := ReadLengthSymbol(r, table, root, chunks, c0, bl);
    if !sym.Done? {
      return Starved, c;
    }
    ghost var b1 := Ahead(r, chunks, c);
    extra, c := AwaitExtra(r, Rle.ExtraBits(sym.value), chunks, c);
    if !extra.Done? {
      return Starved, c;
    }
    ghost var t := Rle.Token(sym.value, extra.value);
    RunsStep(bl, before, acc, total, t, b1, Ahead(r, chunks, c));
    if sym.value < 16 {
      lens[have] := sym.value;
      assert lens[..have + 1] == acc + [sym.value];
      return Done(have + 1), c;
    }
    if sym.value == Rle.REP_3_6 && have == 0 {
      return Failed(BitLengthRepeat), c;
    }
    var value := if sym.value == Rle.REP_3_6 then lens[have - 1] else 0;
    var copy := if sym.value == Rle.REPZ_11_138 then 11 + extra.value else 3 + extra.value;
    RunIs(acc, t, value, copy);
    if have + copy > total {
      return Failed(BitLengthRepeat), c;
    }
    var next := Rle.StoreRun(lens, have, value, copy);
    res := Done(next);
  }

  lemma RunIs(acc: seq<nat>, t: Rle.Token, value: nat, copy: nat)
    requires 16 <= t.sym < BL_CODES && (t.sym == Rle.REP_3_6 ==> acc != [])
    requires value == (if t.sym == Rle.REP_3_6 then acc[|acc| - 1] else 0)
    requires copy == if t.sym == Rle.REPZ_11_138 then 11 + t.extra else 3 + t.extra
    ensures Rle.Run(acc, t) == Rle.Repeat(value, copy) && |Rle.Run(acc, t)| == copy
  {
  }

  /** CODELENS: until all lengths are known. */
  method ReadRuns(r: BitReader, table: seq<Entry>, root: nat, chunks: seq<seq<byte>>, c0: nat, lens: array<nat>,
                  total: nat, ghost bl: seq<nat>)
    returns (res: Reading<seq<nat>>, c: nat)
    requires Steady(r) && OneDecodes(table, root, bl) && |bl| == BL_CODES && c0 <= |chunks| && total <= lens.Length
    modifies r, lens
    ensures Steady(r) && c0 <= c <= |chunks| && Lengths15(bl)
    ensures Tells(RunsAt(bl, old(Ahead(r, chunks, c0)), [], total), res, Ahead(r, chunks, c))
    ensures res.Done? ==> res.value == lens[..total]
  {
    hide OneDecodes, RunsAt, Lengths15, Ahead, Pow2;
    LensFit(table, root, bl);
    ghost var all := RunsAt(bl, Ahead(r, chunks, c0), [], total);
    c := c0;
    var have := 0;
    assert lens[..0] == [];
    while have < total
      invariant Steady(r) && c0 <= c <= |chunks| && have <= total
      invariant RunsAt(bl, Ahead(r, chunks, c), lens[..have], total) == all
    {
      var next;
      next, c := ReadRun(r, table, root, chunks, c, lens, have, total, bl);
      if !next.Done? {
        return Fails(next), c;
      }
      have := next.value;
    }
    RunsDone(bl, Ahead(r, chunks, c), lens[..total]);
    res := Done(lens[..total]);
  }

  /** `inflate_table` for the sizes `inflate` asks for: the table is refused only if the lengths make no
      code, and never for want of room. */
  method OpenTable(kind: Kind, lens: seq<nat>, bits: nat, table: array<Entry>) returns (ok: bool, root: nat)
    requires Lengths15(lens) && 1 <= bits <= MAX_BITS && Enough(kind) <= table.Length
    requires Sized(kind, |lens|, bits) || (Within(lens, bits) && Pow2(bits) <= Enough(kind))
    requires kind == Kind.Codes ==> bits == 7 && Within(lens, 7)
    modifies table
    ensures ok <==> Acceptable(kind, lens)
    ensures ok ==> OneDecodes(table[..], root, lens)
  {
    hide Decodes, Kraft, Acceptable, Pow2, OneDecodes;
    var r := BuildTable(kind, lens, bits, table);
    if r.Invalid? {
      return false, 0;
    }
    TableReady(kind, lens, r.bits, table[..]);
    return true, r.bits;
  }

  /** The end of CODELENS: the two tables, or why there are none. */
  method OpenBoth(lens: seq<nat>, nlen: nat, ltable: array<Entry>, dtable: array<Entry>, ghost rest: seq<bool>)
    returns (res: Reading<Decoder>, ghost u: Codes)
    requires Lengths15(lens) && 257 <= nlen <= 286 && nlen <= |lens| <= nlen + 30
    requires Enough(Lens) <= ltable.Length && Enough(Dists) <= dtable.Length && ltable != dtable
    modifies ltable, dtable
    ensures var p := CodesIn(lens, nlen, rest);
            if p.Got? then res.Done? && p.value == u && Decoding(res.value, u) else res == Fails(Said(p))
  {
    hide OneDecodes, Acceptable, Pow2;
    u := Codes.Codes(lens[..nlen], lens[nlen..]);
    if lens[256] == 0 {
      return Failed(MissingEnd), u;
    }
    var ok, lroot := OpenTable(Lens, lens[..nlen], 9, ltable);
    if !ok {
      return Failed(LengthsSet), u;
    }
    var droot;
    ok, droot := OpenTable(Dists, lens[nlen..], 6, dtable);
    if !ok {
      return Failed(DistancesSet), u;
    }
    res := Done(Decoder(ltable[..], lroot, dtable[..], droot));
  }

  /** The arrays of the inflater: the lengths, and the room for its tables. */
  ghost predicate Roomy(lens: array<nat>, ltable: array<Entry>, dtable: array<Entry>) {
    320 <= lens.Length && Enough(Lens) <= ltable.Length && Enough(Dists) <= dtable.Length && ltable != dtable
  }

  /** What a reader of tables reports: the tables of the two codes the bits describe. */
  ghost predicate Opens(p: Parse<Codes>, res: Reading<Decoder>, u: Codes, after: seq<bool>) {
    if p.Got? then res.Done? && p.value == u && Decoding(res.value, u) && after == p.rest else res == Fails(Said(p))
  }

  /** CODELENS, from the table of the code-length code to the tables of the two codes. */
  method ReadLengths(r: BitReader, chunks: seq<seq<byte>>, c0: nat, lens: array<nat>, ltable: array<Entry>,
                     dtable: array<Entry>, nlen: nat, ndist: nat)
    returns (res: Reading<Decoder>, c: nat, ghost u: Codes)
    requires Steady(r) && c0 <= |chunks| && Roomy(lens, ltable, dtable) && 257 <= nlen <= 286 && ndist <= 30
    requires Within(lens[..BL_CODES], MAX_BL_BITS)
    modifies r, lens, ltable, dtable
    ensures Steady(r) && c0 <= c <= |chunks|
    ensures Opens(LengthsAt(old(lens[..BL_CODES]), nlen, ndist, old(Ahead(r, chunks, c0))), res, u, Ahead(r, chunks, c))
  {
    hide OneDecodes, Acceptable, RunsAt, CodesIn, Ahead, Pow2, Decoding;
    c, u := c0, Codes.Codes([], []);
    var bl := lens[..BL_CODES];
    var ok, root := OpenTable(Kind.Codes, bl, 7, ltable);
    if !ok {
      return Failed(CodeLengthsSet), c, u;
    }
    var all;
    all, c := ReadRuns(r, ltable[..], root, chunks, c, lens, nlen + ndist, bl);
    if !all.Done? {
      return Fails(all), c, u;
    }
    RunsSmall(bl, old(Ahead(r, chunks, c0)), [], nlen + ndist);
    res, u := OpenBoth(all.value, nlen, ltable, dtable, Ahead(r, chunks, c));
  }

  /** No run brings a length of more than 15. */
  lemma {:induction false} RunsSmall(bl: seq<nat>, bits: seq<bool>, acc: seq<nat>, total: nat)
    requires |bl| == BL_CODES && Lengths15(bl) && |acc| <= total && Lengths15(acc)
    ensures var p := RunsAt(bl, bits, acc, total); p.Got? ==> Lengths15(p.value)
    decreases total - |acc|
  {
    hide LengthSymbolAt, NumberAt, Rle.ExtraBits;
    var p := LengthSymbolAt(bl, bits);
    if |acc| < total && p.Got? {
      var q := NumberAt(p.rest, Rle.ExtraBits(p.value));
      if q.Got? {
        var t := Rle.Token(p.value, q.value);
        if t.sym < 16 {
          RunsSmall(bl, q.rest, acc + [t.sym], total);
        } else if t.sym != Rle.REP_3_6 || acc != [] {
          RunLong(acc, t);
          if |acc| + |Rle.Run(acc, t)| <= total {
            RunsSmall(bl, q.rest, acc + Rle.Run(acc, t), total);
          }
        }
      }
    }
  }

  /** TABLE to the end of CODELENS. */
  method ReadHeader(r: BitReader, chunks: seq<seq<byte>>, c0: nat, lens: array<nat>, ltable: array<Entry>,
                    dtable: array<Entry>)
    returns (res: Reading<Decoder>, c: nat, ghost u: Codes)
    requires Steady(r) && c0 <= |chunks| && Roomy(lens, ltable, dtable)
    modifies r, lens, ltable, dtable
    ensures Steady(r) && c0 <= c <= |chunks|
    ensures Opens(HeaderAt(old(Ahead(r, chunks, c0))), res, u, Ahead(r, chunks, c))
  {
    hide CountsAt, BlAt, LengthsAt, Ahead, Pow2, Decoding, Within;
    u := Codes.Codes([], []);
    var counts, bl;
    counts, c := ReadCounts(r, chunks, c0);
    if !counts.Done? {
      return Fails(counts), c, u;
    }
    var (nlen, ndist, ncode) := counts.value;
    if nlen > 286 || ndist > 30 {
      return Failed(TooMany), c, u;
    }
    ghost var before := Ahead(r, chunks, c);
    ZerosSmall();
    BlSmall(before, 0, ncode, Zeros(BL_CODES));
    bl, c := ReadBlLengths(r, chunks, c, ncode, lens);
    if !bl.Done? {
      return Fails(bl), c, u;
    }
    res, c, u := ReadLengths(r, chunks, c, lens, ltable, dtable, nlen, ndist);
  }

  lemma ZerosSmall()
    ensures Within(Zeros(BL_CODES), MAX_BL_BITS)
  {
  }

  /** Drop the bits up to the next byte. */
  method Align(r: BitReader, chunks: seq<seq<byte>>, c: nat)
    requires Steady(r) && c <= |chunks|
    modifies r
    ensures Steady(r) && r.bits % 8 == 0 && Ahead(r, chunks, c) == Aligned(old(Ahead(r, chunks, c)))
  {
    hide BitsOf, BytesBits, Flatten, Pow2;
    ghost var left, later := r.Left(), BytesBits(Flatten(chunks[c..]));
    var n := r.bits % 8;
    OddBits(r, chunks, c);
    var _ := r.Take(n);
    assert left[n..] + later == (left + later)[n..];
  }

  lemma OddBits(r: BitReader, chunks: seq<seq<byte>>, c: nat)
    requires r.Valid() && c <= |chunks|
    ensures |Ahead(r, chunks, c)| % 8 == r.bits % 8
  {
    hide BitsOf, BytesBits, Flatten;
    var k := |r.input[r.next..]| + |Flatten(chunks[c..])|;
    assert |Ahead(r, chunks, c)| == r.bits + 8 * k;
  }

  /** STORED: the length and its complement, for which exactly 32 bits are held; so clearing `hold`
      afterwards loses nothing. */
  method ReadStoredLength(r: BitReader, chunks: seq<seq<byte>>, c0: nat) returns (res: Reading<nat>, c: nat)
    requires Steady(r) && r.bits % 8 == 0 && c0 <= |chunks|
    modifies r
    ensures r.Valid() && c0 <= c <= |chunks| && (res.Done? ==> r.bits == 0)
    ensures Tells(StoredLengthAt(old(Ahead(r, chunks, c0))), res, Ahead(r, chunks, c))
  {
    hide BitsOf, BytesBits, Flatten, Pow2, NumberAt;
    Pow2Literals();
    var ok;
    ok, c := Await(r, 32, chunks, c0);
    if !ok {
      Fewer(old(Ahead(r, chunks, c0)));
      return Starved, c;
    }
    ghost var left, later := r.Left(), BytesBits(Flatten(chunks[c..]));
    var len := r.Take(16);
    FirstBits(left, later, 16, len);
    ghost var left', later' := r.Left(), later;
    var nlen := r.Take(16);
    FirstBits(left', later', 16, nlen);
    if len != 65535 - nlen {
      return Failed(StoredLengths), c;
    }
    res := Done(len);
  }

  lemma Fewer(bits: seq<bool>)
    requires |bits| < 32
    ensures StoredLengthAt(bits) == Short
  {
  }

  /** COPY: as much as there is of the chunk at hand, and so on. */
  method CopyStored(r: BitReader, n: nat, chunks: seq<seq<byte>>, c0: nat) returns (res: Reading<seq<byte>>, c: nat)
    requires r.Valid() && r.bits == 0 && c0 <= |chunks|
    modifies r
    ensures Steady(r) && c0 <= c <= |chunks|
    ensures Tells(BytesAt(old(Ahead(r, chunks, c0)), n), res, Ahead(r, chunks, c))
  {
    hide BytesAt, Ahead, Pow2, BitsOf;
    c := c0;
    var data: seq<byte> := [];
    ghost var all := Ahead(r, chunks, c0);
    assert BytesBits([]) + all == all;
    while |data| < n
      invariant r.Valid() && r.bits == 0 && c0 <= c <= |chunks| && |data| <= n
      invariant all == BytesBits(data) + Ahead(r, chunks, c)
      decreases |chunks| - c, |r.input| - r.next
    {
      if r.next == |r.input| {
        if c == |chunks| {
          NothingAhead(r, chunks);
          TooFew(all, n);
          return Starved, c;
        }
        Feed(r, chunks, c);
        c := c + 1;
      } else {
        var h := n - |data|;
        if h > |r.input| - r.next {
          h := |r.input| - r.next;
        }
        ghost var before := Ahead(r, chunks, c);
        var piece := TakeBytes(r, h, chunks, c);
        BytesBitsAppend(data, piece);
        Regroup(BytesBits(data), BytesBits(piece), Ahead(r, chunks, c));
        data := data + piece;
      }
    }
    BytesIs(data, Ahead(r, chunks, c));
    res := Done(data);
  }

  /** `arraySet` from the input. */
  method TakeBytes(r: BitReader, h: nat, chunks: seq<seq<byte>>, c: nat) returns (piece: seq<byte>)
    requires r.Valid() && r.bits == 0 && c <= |chunks| && r.next + h <= |r.input|
    modifies r`next
    ensures r.Valid() && |piece| == h && old(Ahead(r, chunks, c)) == BytesBits(piece) + Ahead(r, chunks, c)
    ensures r.next == old(r.next) + h
  {
    hide Flatten;
    piece := r.input[r.next..r.next + h];
    assert r.input[r.next..] == piece + r.input[r.next + h..];
    BytesBitsAppend(piece, r.input[r.next + h..]);
    r.next := r.next + h;
  }

  lemma NothingAhead(r: BitReader, chunks: seq<seq<byte>>)
    requires r.Valid() && r.bits == 0 && r.next == |r.input|
    ensures Ahead(r, chunks, |chunks|) == []
  {
    LastChunk(r, chunks);
  }

  lemma TooFew(bits: seq<bool>, n: nat)
    requires |bits| < 8 * n
    ensures BytesAt(bits, n) == Short
  {
  }

  /** A stored block. */
  method ReadStored(r: BitReader, chunks: seq<seq<byte>>, c0: nat) returns (res: Reading<seq<Token>>, c: nat)
    requires Steady(r) && c0 <= |chunks|
    modifies r
    ensures r.Valid() && (res.Done? ==> Steady(r)) && c0 <= c <= |chunks|
    ensures Tells(StoredAt(old(Ahead(r, chunks, c0))), res, Ahead(r, chunks, c))
  {
    hide StoredLengthAt, BytesAt, Ahead, Aligned, Pow2;
    Align(r, chunks, c0);
    var len, data;
    len, c := ReadStoredLength(r, chunks, c0);
    if !len.Done? {
      return Fails(len), c;
    }
    data, c := CopyStored(r, len.value, chunks, c);
    if !data.Done? {
      return Fails(data), c;
    }
    res := Done([Stored(data.value)]);
  }

  /** The tables of the fixed codes. */
  method OpenFixed() returns (k: Decoder)
    ensures Decoding(k, FixedCodes())
  {
    hide OneDecodes, Kraft, Matches, Pow2, Acceptable, CompleteCode;
    var lens, dists := FixedLens(288), Fives(32);
    var ltable, dtable := new Entry[Enough(Lens)], new Entry[Enough(Dists)];
    SmallPowers();
    FixedFull();
    CompleteIsFull(Lens, lens);
    CompleteIsFull(Dists, dists);
    var ok, lroot := OpenTable(Lens, lens, 9, ltable);
    var droot;
    ok, droot := OpenTable(Dists, dists, 5, dtable);
    k := Decoder(ltable[..], lroot, dtable[..], droot);
  }

  /** The block after its three bits. */
  method ReadKind(kind: nat, r: BitReader, chunks: seq<seq<byte>>, c0: nat, lens: array<nat>, ltable: array<Entry>,
                  dtable: array<Entry>)
    returns (res: Reading<seq<Token>>, c: nat)
    requires Steady(r) && c0 <= |chunks| && Roomy(lens, ltable, dtable)
    modifies r, lens, ltable, dtable
    ensures r.Valid() && (res.Done? ==> Steady(r)) && c0 <= c <= |chunks|
    ensures Tells(KindAt(kind, old(Ahead(r, chunks, c0))), res, Ahead(r, chunks, c))
  {
    hide StoredAt, HeaderAt, BodyAt, Ahead, Pow2, Decoding, FixedCodes;
    c := c0;
    if kind == 0 {
      res, c := ReadStored(r, chunks, c);
    } else if kind == 1 {
      var k := OpenFixed();
      res, c := ReadBody(r, k, chunks, c, FixedCodes());
    } else if kind == 2 {
      var k;
      ghost var u;
      k, c, u := ReadHeader(r, chunks, c, lens, ltable, dtable);
      if !k.Done? {
        return Fails(k), c;
      }
      res, c := ReadBody(r, k.value, chunks, c, u);
    } else {
      res := Failed(BlockType);
    }
  }

  /** TYPE and the states of the block. */
  method ReadBlock(r: BitReader, chunks: seq<seq<byte>>, c0: nat, lens: array<nat>, ltable: array<Entry>,
                   dtable: array<Entry>)
    returns (res: Reading<(seq<Token>, bool)>, c: nat)
    requires Steady(r) && c0 <= |chunks| && Roomy(lens, ltable, dtable)
    modifies r, lens, ltable, dtable
    ensures r.Valid() && (res.Done? ==> Steady(r)) && c0 <= c <= |chunks|
    ensures Tells(BlockAt(old(Ahead(r, chunks, c0))), res, Ahead(r, chunks, c))
  {
    hide NumberAt, KindAt, Ahead, Pow2;
    var bits, tokens;
    bits, c := AwaitExtra(r, 3, chunks, c0);
    if !bits.Done? {
      return Starved, c;
    }
    tokens, c := ReadKind(bits.value / 2, r, chunks, c, lens, ltable, dtable);
    if !tokens.Done? {
      return Fails(tokens), c;
    }
    res := Done((tokens.value, bits.value % 2 == 1));
  }

  lemma StreamStep(tokens: seq<Token>, bits: seq<bool>)
    ensures var p := BlockAt(bits); var whole := Joined(tokens, StreamAt(bits));
            && (!p.Got? ==> Said(whole) == Fails(Said(p)))
            && (p.Got? && p.value.1 ==> whole == Got(tokens + p.value.0, p.rest))
            && (p.Got? && !p.value.1 ==> whole == Joined(tokens + p.value.0, StreamAt(p.rest)))
            && (p.Got? ==> |p.rest| < |bits|)
  {
    hide BlockAt;
    var p := BlockAt(bits);
    if p.Got? && !p.value.1 {
      var q := StreamAt(p.rest);
      if q.Got? {
        Regroup(tokens, p.value.0, q.value);
      }
    }
  }

  /** `inflate` on any bytes, cut anywhere: block by block until one says it is the last. */
  method InflateBlocks(chunks: seq<seq<byte>>) returns (res: Reading<seq<Token>>)
    ensures res == Said(StreamAt(BytesBits(Flatten(chunks))))
  {
    hide BlockAt, StreamAt, Joined, Ahead, Pow2, Flatten, BytesBits;
    var r := NewReader(chunks);
    var lens, ltable, dtable := new nat[320], new Entry[Enough(Lens)], new Entry[Enough(Dists)];
    var tokens, last, c := [], false, 0;
    ghost var all := StreamAt(BytesBits(Flatten(chunks)));
    JoinedNone(all);
    while !last
      invariant fresh(r) && Steady(r) && c <= |chunks|
      invariant !last ==> Joined(tokens, StreamAt(Ahead(r, chunks, c))) == all
      invariant last ==> all == Got(tokens, Ahead(r, chunks, c))
      decreases |Ahead(r, chunks, c)|, !last
    {
      StreamStep(tokens, Ahead(r, chunks, c));
      var b;
      b, c := ReadBlock(r, chunks, c, lens, ltable, dtable);
      if !b.Done? {
        return Fails(b);
      }
      tokens, last := tokens + b.value.0, b.value.1;
    }
    res := Done(tokens);
  }

  method NewReader(chunks: seq<seq<byte>>) returns (r: BitReader)
    ensures fresh(r) && Steady(r) && Ahead(r, chunks, 0) == BytesBits(Flatten(chunks))
  {
    r := new BitReader([]);
    AllAhead(r, chunks);
  }
}

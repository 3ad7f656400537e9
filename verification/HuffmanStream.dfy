/** Symbols on the wire: sent with canonical codes through the bit buffer, read back through the
    decoding tables and the bit accumulator. */
module HuffmanStream {
  import opened Bytes
  import opened BitStrings
  import opened BitStream
  import opened CanonicalCodes
  import opened DecodeTable
  import opened InflateTable
  import opened HuffmanLengths
  import opened HuffmanTree
  import opened BitParse

  ghost predicate Lengths15(lens: seq<nat>) { forall o | 0 <= o < |lens| :: lens[o] <= MAX_BITS }

  ghost function Spelled(lens: seq<nat>, o: nat): seq<bool>
    requires Lengths15(lens) && o < |lens|
  {
    CodeWord(CodeOf(Counts(lens), lens, o), lens[o])
  }

  /** The code words leave no gap. */
  ghost predicate Full(lens: seq<nat>) { Kraft(Counts(lens), MAX_BITS) == Pow2(MAX_BITS) }

  /** The lengths `inflate_table` accepts: with no gap, or with no word of more than one bit. */
  ghost predicate Readable(lens: seq<nat>) {
    && Lengths15(lens) && Kraft(Counts(lens), MAX_BITS) <= Pow2(MAX_BITS)
    && (!Full(lens) ==> forall o | 0 <= o < |lens| :: lens[o] <= 1)
  }

  /** No code word is at the front. */
  ghost predicate NoneAt(lens: seq<nat>, left: seq<bool>)
    requires Lengths15(lens)
  {
    forall o: nat | InUse(lens, o) :: !(Spelled(lens, o) <= left)
  }

  // What the held bits say

  /** The bits an entry must have been looked up with. */
  function Width(e: Entry, root: nat): nat {
    match e
    case Leaf(_, bits) => bits
    case Bad(bits) => bits
    case Link(_, _) => root
  }

  lemma HeldAgrees(lens: seq<nat>, o: nat, hold: nat, bits: nat, rest: seq<bool>)
    requires Lengths15(lens) && InUse(lens, o) && lens[o] <= bits
    ensures Agrees(hold, WordOf(Counts(lens), lens, o)) <==> Spelled(lens, o) <= BitsOf(hold, bits) + rest
  {
    AgreesIsPrefix(Counts(lens), lens, o, hold);
    BitsSplit(hold, lens[o], bits - lens[o]);
    assert (BitsOf(hold, bits) + rest)[..lens[o]] == BitsOf(hold, lens[o]);
  }

  lemma LookedUp(table: seq<Entry>, root: nat, lens: seq<nat>, o: nat, x: nat)
    requires Lengths15(lens) && Decodes(table, root, lens) && InUse(lens, o) && Agrees(x, WordOf(Counts(lens), lens, o))
    ensures Find(table, root, x) == Found(o, lens[o]) && Width(RootEntry(table, root, x), root) <= lens[o]
    ensures !RootEntry(table, root, x).Bad?
  {
  }

  lemma BadWidth(table: seq<Entry>, root: nat, lens: seq<nat>, x: nat)
    requires Lengths15(lens) && Decodes(table, root, lens) && RootEntry(table, root, x).Bad?
    ensures RootEntry(table, root, x).bits == root
  {
    MaskBound(x, root);
  }

  /** No look-up asks for more bits than the longest word or the root have. */
  lemma WidthBound(table: seq<Entry>, root: nat, lens: seq<nat>, x: nat, m: nat)
    requires Lengths15(lens) && Pow2(root) <= |table| && Decodes(table, root, lens) && root <= m
    requires forall o | 0 <= o < |lens| :: lens[o] <= m
    ensures Width(RootEntry(table, root, x), root) <= m
    ensures Find(table, root, x).Found? ==> Find(table, root, x).len <= m
  {
    MaskBound(x, root);
    LeafFound(table, root, x);
    if NoWord(lens, x) {
    } else {
      var q: nat :| InUse(lens, q) && Agrees(x, WordOf(Counts(lens), lens, q));
      assert Find(table, root, x) == Found(q, lens[q]);
    }
  }

  /** An entry wider than the bits held: no code word is there yet. */
  lemma NotYet(table: seq<Entry>, root: nat, lens: seq<nat>, hold: nat, bits: nat)
    requires Lengths15(lens) && Decodes(table, root, lens)
    requires bits < Width(RootEntry(table, root, hold), root)
             || (Find(table, root, hold).Found? && bits < Find(table, root, hold).len)
    ensures NoneAt(lens, BitsOf(hold, bits))
  {
    hide Decodes, Find, Width, RootEntry, WordOf, Spelled;
    forall o: nat | InUse(lens, o) ensures !(Spelled(lens, o) <= BitsOf(hold, bits)) {
      SpelledLength(lens, o);
      if lens[o] <= bits {
        assert BitsOf(hold, bits) + [] == BitsOf(hold, bits);
        HeldAgrees(lens, o, hold, bits, []);
        if Agrees(hold, WordOf(Counts(lens), lens, o)) {
          LookedUp(table, root, lens, o, hold);
        }
      }
    }
  }

  lemma SpelledLength(lens: seq<nat>, o: nat)
    requires Lengths15(lens) && o < |lens|
    ensures |Spelled(lens, o)| == lens[o]
  {
  }

  /** A symbol found with bits that are all held is the one at the front. */
  lemma LeafIsFront(table: seq<Entry>, root: nat, lens: seq<nat>, hold: nat, bits: nat, rest: seq<bool>, o: nat, w: nat)
    requires Lengths15(lens) && Decodes(table, root, lens) && Find(table, root, hold) == Found(o, w) && w <= bits
    ensures InUse(lens, o) && lens[o] == w && Spelled(lens, o) <= BitsOf(hold, bits) + rest
  {
    assert !NoWord(lens, hold);
    var q: nat :| InUse(lens, q) && Agrees(hold, WordOf(Counts(lens), lens, q));
    HeldAgrees(lens, q, hold, bits, rest);
  }

  /** A failed look-up with a whole root index: no code word is at the front. */
  lemma BadIsNone(table: seq<Entry>, root: nat, lens: seq<nat>, hold: nat, bits: nat, rest: seq<bool>)
    requires Lengths15(lens) && Pow2(root) <= |table| && Decodes(table, root, lens)
    requires RootEntry(table, root, hold).Bad? && root <= bits
    ensures NoneAt(lens, BitsOf(hold, bits) + rest)
  {
    hide Decodes, Find, Width, WordOf, Spelled;
    var left := BitsOf(hold, bits) + rest;
    var x := Value(left);
    BitsOfValue(left);
    assert BitsOf(x, |left|) + [] == left;
    assert RootEntry(table, root, x) == RootEntry(table, root, hold) by {
      BitsSplit(x, root, |left| - root);
      BitsSplit(hold, root, bits - root);
      assert left[..root] == BitsOf(hold, root);
      SameMask(x, hold, root);
    }
    forall o: nat | InUse(lens, o) ensures !(Spelled(lens, o) <= left) {
      SpelledLength(lens, o);
      if lens[o] <= |left| {
        HeldAgrees(lens, o, x, |left|, []);
        if Agrees(x, WordOf(Counts(lens), lens, o)) {
          LookedUp(table, root, lens, o, x);
        }
      }
    }
  }

  datatype Read = Symbol(o: nat) | NeedInput | BadCode

  /** What reading one symbol does to the bits left. */
  ghost predicate Reads(lens: seq<nat>, before: seq<bool>, res: Read, after: seq<bool>)
    requires Lengths15(lens)
  {
    match res
    case Symbol(o) => InUse(lens, o) && before == Spelled(lens, o) + after
    case NeedInput => after == before && NoneAt(lens, before)
    case BadCode => after == before && forall more: seq<bool> :: NoneAt(lens, before + more)
  }

  lemma HoldBits(r: BitReader, n: nat)
    requires r.Valid() && n <= r.bits
    ensures BitsOf(r.hold, n) == r.Left()[..n]
  {
    BitsSplit(r.hold, n, r.bits - n);
  }

  /** The most bits a reader holds between two values. */
  const MOST_HELD: nat := 22

  ghost predicate Steady(r: BitReader)
    reads r
  {
    r.Valid() && r.bits <= MOST_HELD
  }

  /** A table that decodes the lengths. */
  ghost predicate OneDecodes(table: seq<Entry>, root: nat, lens: seq<nat>) {
    && Readable(lens) && 1 <= root <= MAX_BITS && Pow2(root) <= |table| && Decodes(table, root, lens)
    && (!Full(lens) ==> root == 1)
  }

  lemma DecodesParts(table: seq<Entry>, root: nat, lens: seq<nat>)
    requires OneDecodes(table, root, lens)
    ensures Lengths15(lens) && 1 <= root <= MAX_BITS && Pow2(root) <= |table| && Decodes(table, root, lens)
    ensures !Full(lens) ==> root == 1 && forall o | 0 <= o < |lens| :: lens[o] <= 1
  {
  }

  /** How many bits a look-up may ask for. */
  ghost function Reach(lens: seq<nat>): nat { if Full(lens) then MAX_BITS else 1 }

  /** Take input while the entry at hand needs more bits than are held. */
  method HoldEntry(r: BitReader, table: seq<Entry>, root: nat, ghost lens: seq<nat>) returns (ok: bool, e: Entry)
    requires Steady(r) && OneDecodes(table, root, lens)
    modifies r
    ensures Steady(r) && r.Left() == old(r.Left()) && e == RootEntry(table, root, r.hold)
    ensures ok <==> Width(e, root) <= r.bits
    ensures !ok ==> r.next == |r.input| && |r.Left()| < Reach(lens)
  {
    hide RootEntry, Pow2, BitsOf, Reach, OneDecodes, Lengths15, BytesBits, Decodes;
    DecodesParts(table, root, lens);
    e := RootEntry(table, root, r.hold);
    while Width(e, root) > r.bits
      invariant Steady(r) && r.Left() == old(r.Left()) && e == RootEntry(table, root, r.hold)
      decreases |r.input| - r.next
    {
      ReachBound(table, root, lens, r.hold);
      if r.next == |r.input| {
        AllHeld(r);
        return false, e;
      }
      r.Load();
      e := RootEntry(table, root, r.hold);
    }
    ok := true;
  }

  lemma AllHeld(r: BitReader)
    requires r.Valid() && r.next == |r.input|
    ensures r.Left() == BitsOf(r.hold, r.bits) && |r.Left()| == r.bits
  {
  }

  /** The LEN state: look up the next symbol, taking input while its entry needs more bits. */
  method ReadSymbol(r: BitReader, table: seq<Entry>, root: nat, ghost lens: seq<nat>) returns (res: Read)
    requires Steady(r) && OneDecodes(table, root, lens)
    modifies r
    ensures Steady(r) && Lengths15(lens) && Reads(lens, old(r.Left()), res, r.Left())
    ensures res == NeedInput ==> r.next == |r.input| && |r.Left()| < Reach(lens)
    ensures res == BadCode ==> 1 <= r.bits
  {
    hide Decodes, Find, RootEntry, Spelled, NoneAt, Pow2, BitsOf, Reach, Full, OneDecodes, Lengths15, BytesBits;
    DecodesParts(table, root, lens);
    var ok, e := HoldEntry(r, table, root, lens);
    if !ok {
      NotYet(table, root, lens, r.hold, r.bits);
      AllHeld(r);
      return NeedInput;
    }
    match e
    case Bad(_) =>
      BadWidth(table, root, lens, r.hold);
      BadForGood(r, table, root, lens);
      return BadCode;
    case Leaf(sym, bits) =>
      LeafFound(table, root, r.hold);
      TakeFound(r, table, root, sym, bits, lens);
      return Symbol(sym);
    case Link(curr, offset) =>
      res := ReadLinked(r, table, root, curr, offset, lens);
  }

  lemma BadForGood(r: BitReader, table: seq<Entry>, root: nat, lens: seq<nat>)
    requires r.Valid() && Lengths15(lens) && Pow2(root) <= |table| && Decodes(table, root, lens)
    requires RootEntry(table, root, r.hold).Bad? && root <= r.bits
    ensures forall more: seq<bool> :: NoneAt(lens, r.Left() + more)
  {
    hide Decodes, RootEntry, NoneAt, Pow2, BitsOf, BytesBits, Lengths15;
    var rest := BytesBits(r.input[r.next..]);
    forall more: seq<bool> ensures NoneAt(lens, r.Left() + more) {
      BadIsNone(table, root, lens, r.hold, r.bits, rest + more);
      assert BitsOf(r.hold, r.bits) + (rest + more) == r.Left() + more;
    }
  }

  lemma ReachBound(table: seq<Entry>, root: nat, lens: seq<nat>, x: nat)
    requires OneDecodes(table, root, lens)
    ensures Width(RootEntry(table, root, x), root) <= Reach(lens) <= MAX_BITS
    ensures Find(table, root, x).Found? ==> Find(table, root, x).len <= Reach(lens)
  {
    hide Decodes, Find, RootEntry;
    WidthBound(table, root, lens, x, Reach(lens));
  }

  lemma LeafFound(table: seq<Entry>, root: nat, x: nat)
    requires Pow2(root) <= |table|
    ensures var e := RootEntry(table, root, x); e.Leaf? ==> Find(table, root, x) == Found(e.sym, e.bits)
  {
  }

  /** One byte more leaves the root index as it is. */
  method LoadBehindRoot(r: BitReader, table: seq<Entry>, root: nat)
    requires r.Valid() && Pow2(root) <= |table| && root <= r.bits && r.next < |r.input|
    modifies r
    ensures r.Valid() && r.Left() == old(r.Left()) && r.bits == old(r.bits) + 8 && r.next == old(r.next) + 1
    ensures RootEntry(table, root, r.hold) == old(RootEntry(table, root, r.hold)) && r.input == old(r.input)
  {
    hide RootEntry, Pow2, BitsOf, BytesBits;
    ghost var hold := r.hold;
    HoldBits(r, root);
    r.Load();
    HoldBits(r, root);
    SameEntry(table, root, hold, r.hold);
  }

  /** The symbol found with bits that are all held is taken. */
  method TakeFound(r: BitReader, table: seq<Entry>, root: nat, sym: nat, w: nat, ghost lens: seq<nat>)
    requires Steady(r) && Lengths15(lens) && Pow2(root) <= |table| && Decodes(table, root, lens)
    requires Find(table, root, r.hold) == Found(sym, w) && w <= r.bits
    modifies r
    ensures Steady(r) && Reads(lens, old(r.Left()), Symbol(sym), r.Left())
  {
    hide Decodes, Find, Spelled, Pow2, BitsOf, BytesBits, Lengths15;
    LeafIsFront(table, root, lens, r.hold, r.bits, BytesBits(r.input[r.next..]), sym, w);
    SpelledLength(lens, sym);
    var _ := r.Take(w);
  }

  /** The second look-up. */
  method ReadLinked(r: BitReader, table: seq<Entry>, root: nat, curr: nat, offset: nat, ghost lens: seq<nat>)
    returns (res: Read)
    requires Steady(r) && OneDecodes(table, root, lens)
    requires root <= r.bits && RootEntry(table, root, r.hold) == Link(curr, offset)
    modifies r
    ensures Steady(r) && Lengths15(lens) && Reads(lens, old(r.Left()), res, r.Left())
    ensures res == NeedInput ==> r.next == |r.input| && |r.Left()| < Reach(lens)
    ensures res != BadCode
  {
    hide Decodes, Find, RootEntry, Reads, Spelled, NoneAt, Pow2, BitsOf, Full, OneDecodes, Lengths15, Reach, BytesBits;
    hide Mask, Shr;
    DecodesParts(table, root, lens);
    while true
      invariant Steady(r) && r.Left() == old(r.Left()) && root <= r.bits
      invariant RootEntry(table, root, r.hold) == Link(curr, offset)
      decreases |r.input| - r.next
    {
      LinkLeads(table, root, lens, r.hold, curr, offset);
      ReachBound(table, root, lens, r.hold);
      var e := table[offset + Mask(Shr(r.hold, root), curr)];
      if root + e.bits <= r.bits {
        TakeFound(r, table, root, e.sym, root + e.bits, lens);
        return Symbol(e.sym);
      }
      if r.next == |r.input| {
        NotYet(table, root, lens, r.hold, r.bits);
        AllHeld(r);
        StillNone(lens, r.Left());
        return NeedInput;
      }
      LoadBehindRoot(r, table, root);
    }
  }

  lemma StillNone(lens: seq<nat>, left: seq<bool>)
    requires Lengths15(lens) && NoneAt(lens, left)
    ensures Reads(lens, left, NeedInput, left)
  {
  }

  lemma SameEntry(table: seq<Entry>, root: nat, a: nat, b: nat)
    requires Pow2(root) <= |table| && BitsOf(a, root) == BitsOf(b, root)
    ensures RootEntry(table, root, a) == RootEntry(table, root, b)
  {
    SameMask(a, b, root);
  }

  lemma LinkLeads(table: seq<Entry>, root: nat, lens: seq<nat>, hold: nat, curr: nat, offset: nat)
    requires Lengths15(lens) && Decodes(table, root, lens) && RootEntry(table, root, hold) == Link(curr, offset)
    ensures offset + Mask(Shr(hold, root), curr) < |table| && table[offset + Mask(Shr(hold, root), curr)].Leaf?
    ensures var e := table[offset + Mask(Shr(hold, root), curr)]; Find(table, root, hold) == Found(e.sym, root + e.bits)
  {
    assert !NoWord(lens, hold);
    var q: nat :| InUse(lens, q) && Agrees(hold, WordOf(Counts(lens), lens, q));
    assert Find(table, root, hold) == Found(q, lens[q]);
  }

  // A list of symbols

  ghost predicate AllInUse(lens: seq<nat>, syms: seq<nat>) { forall i | 0 <= i < |syms| :: InUse(lens, syms[i]) }

  /** The bits of the symbols, one after the other. */
  ghost function SpelledAll(lens: seq<nat>, syms: seq<nat>): seq<bool>
    requires Lengths15(lens) && AllInUse(lens, syms)
  {
    if syms == [] then [] else Spelled(lens, syms[0]) + SpelledAll(lens, syms[1..])
  }

  function Fields(tree: seq<Cell>, syms: seq<nat>): (fs: seq<Field>)
    requires forall i | 0 <= i < |syms| :: syms[i] < |tree|
    ensures |fs| == |syms|
  {
    seq(|syms|, i requires 0 <= i < |syms| => Field(tree[syms[i]].fc, tree[syms[i]].dl))
  }

  /** The tree's codes, as `gen_codes` left them, are those of its lengths. */
  ghost predicate CodedTree(tree: seq<Cell>, lens: seq<nat>) {
    && |lens| <= |tree| && Lengths15(lens) && (forall o | 0 <= o < |lens| :: tree[o].dl == lens[o])
    && forall o | 0 <= o < |lens| && lens[o] != 0 :: IsReverse(tree[o].fc, CodeOf(Counts(lens), lens, o), lens[o])
  }

  lemma {:induction false} FieldsSpell(tree: seq<Cell>, lens: seq<nat>, syms: seq<nat>)
    requires CodedTree(tree, lens) && AllInUse(lens, syms)
    ensures FieldBits(Fields(tree, syms)) == SpelledAll(lens, syms)
    decreases |syms|
  {
    if syms != [] {
      FieldsSpell(tree, lens, syms[1..]);
      assert Fields(tree, syms)[1..] == Fields(tree, syms[1..]);
    }
  }

  /** Send the symbols and wind up. */
  method SendSymbols(tree: seq<Cell>, syms: seq<nat>, ghost lens: seq<nat>) returns (bytes: seq<byte>)
    requires CodedTree(tree, lens) && AllInUse(lens, syms)
    ensures SpelledAll(lens, syms) <= BytesBits(bytes) && |BytesBits(bytes)| < |SpelledAll(lens, syms)| + 8
  {
    var fs := Fields(tree, syms);
    forall i | 0 <= i < |fs| ensures Sendable(fs[i]) {
      assert InUse(lens, syms[i]);
    }
    FieldsSpell(tree, lens, syms);
    bytes := SendFields(fs);
  }

  // Reading them back

  ghost predicate Begins(lens: seq<nat>, o: nat, bits: seq<bool>)
    requires Lengths15(lens)
  {
    InUse(lens, o) && Spelled(lens, o) <= bits
  }

  /** The symbol whose word is at the front. Where there is none, more bits may bring one, unless the
      code has gaps: then its words have one bit, and the first bit tells. */
  ghost function WordAt(lens: seq<nat>, bits: seq<bool>, fault: Fault): (p: Parse<nat>)
    requires Lengths15(lens)
    ensures p.Got? ==> InUse(lens, p.value) && bits == Spelled(lens, p.value) + p.rest && |p.rest| < |bits|
  {
    if exists o: nat :: Begins(lens, o, bits) then
      var o: nat :| Begins(lens, o, bits);
      SpelledLength(lens, o);
      Got(o, bits[lens[o]..])
    else if bits == [] || Full(lens) then Short
    else Wrong(fault)
  }

  lemma MatchesCounts(lens: seq<nat>)
    requires Lengths15(lens)
    ensures Matches(Counts(lens), lens)
  {
  }

  lemma WordIs(lens: seq<nat>, o: nat, rest: seq<bool>, fault: Fault)
    requires Readable(lens) && InUse(lens, o)
    ensures WordAt(lens, Spelled(lens, o) + rest, fault) == Got(o, rest)
  {
    hide Kraft, Counts, Matches;
    var bits := Spelled(lens, o) + rest;
    MatchesCounts(lens);
    assert Begins(lens, o, bits);
    var p := WordAt(lens, bits, fault);
    HeadDetermined(Counts(lens), lens, o, p.value, Spelled(lens, o), rest, Spelled(lens, p.value), p.rest);
  }

  lemma NoWordAt(lens: seq<nat>, bits: seq<bool>, fault: Fault)
    requires Lengths15(lens) && NoneAt(lens, bits)
    ensures WordAt(lens, bits, fault) == if bits == [] || Full(lens) then Short else Wrong(fault)
  {
  }

  /** Fifteen bits always begin with a word of a code without gaps. */
  lemma SomeWord(lens: seq<nat>, bits: seq<bool>)
    requires Lengths15(lens) && Full(lens) && MAX_BITS <= |bits|
    ensures !NoneAt(lens, bits)
  {
    MatchesCounts(lens);
    var o := Complete(Counts(lens), lens, bits[..MAX_BITS]);
    assert Spelled(lens, o) <= bits[..MAX_BITS] <= bits;
  }

  /** What is read stays so, whatever bits follow. */
  lemma WordMore(lens: seq<nat>, bits: seq<bool>, fault: Fault, more: seq<bool>)
    requires Readable(lens) && WordAt(lens, bits, fault) != Short
    ensures WordAt(lens, bits + more, fault) == WordAt(lens, bits, fault).Then(more)
  {
    hide Kraft, Counts;
    var p := WordAt(lens, bits, fault);
    if p.Got? {
      WordIs(lens, p.value, p.rest + more, fault);
      assert bits + more == Spelled(lens, p.value) + (p.rest + more);
    } else {
      forall o: nat ensures Begins(lens, o, bits + more) <==> Begins(lens, o, bits) {
        if InUse(lens, o) {
          SpelledLength(lens, o);
          assert bits[0] == (bits + more)[0];
        }
      }
    }
  }

  /** One attempt with the input at hand. */
  method TryRead(r: BitReader, table: seq<Entry>, root: nat, chunks: seq<seq<byte>>, c: nat, ghost lens: seq<nat>)
    returns (one: Read)
    requires Steady(r) && OneDecodes(table, root, lens) && c <= |chunks|
    modifies r
    ensures Steady(r) && Lengths15(lens)
    ensures one.Symbol? ==> InUse(lens, one.o) && old(Ahead(r, chunks, c)) == Spelled(lens, one.o) + Ahead(r, chunks, c)
    ensures !one.Symbol? ==> Ahead(r, chunks, c) == old(Ahead(r, chunks, c))
    ensures one.NeedInput? ==> r.next == |r.input| && NoneAt(lens, r.Left()) && |r.Left()| < Reach(lens)
    ensures one.BadCode? ==> 1 <= r.bits && NoneAt(lens, Ahead(r, chunks, c)) && !Full(lens)
  {
    hide OneDecodes, Spelled, NoneAt, BytesBits, Flatten, BitsOf, Pow2, Full, Lengths15;
    DecodesParts(table, root, lens);
    ghost var before, later := r.Left(), BytesBits(Flatten(chunks[c..]));
    one := ReadSymbol(r, table, root, lens);
    if one.Symbol? {
      assert (Spelled(lens, one.o) + r.Left()) + later == Spelled(lens, one.o) + (r.Left() + later);
    }
    if one.BadCode? {
      assert NoneAt(lens, before + later);
      if Full(lens) {
        ghost var fifteen := seq(MAX_BITS, _ => false);
        SomeWord(lens, before + fifteen);
      }
    }
  }

  /** Read one symbol, supplying further chunks of input as they are asked for. */
  method AwaitSymbol(r: BitReader, table: seq<Entry>, root: nat, chunks: seq<seq<byte>>, c0: nat, fault: Fault,
                     ghost lens: seq<nat>)
    returns (res: Reading<nat>, c: nat)
    requires Steady(r) && OneDecodes(table, root, lens) && c0 <= |chunks|
    modifies r
    ensures Steady(r) && c0 <= c <= |chunks| && Lengths15(lens)
    ensures Tells(WordAt(lens, old(Ahead(r, chunks, c0)), fault), res, Ahead(r, chunks, c))
    ensures res.Failed? ==> 1 <= r.bits && Ahead(r, chunks, c) == old(Ahead(r, chunks, c0))
  {
    hide OneDecodes, Spelled, NoneAt, Full, Ahead, WordAt, Lengths15;
    c := c0;
    var one := TryRead(r, table, root, chunks, c, lens);
    while one == NeedInput && c < |chunks|
      invariant Steady(r) && c0 <= c <= |chunks| && Lengths15(lens)
      invariant one.Symbol? ==>
                  InUse(lens, one.o) && old(Ahead(r, chunks, c0)) == Spelled(lens, one.o) + Ahead(r, chunks, c)
      invariant !one.Symbol? ==> Ahead(r, chunks, c) == old(Ahead(r, chunks, c0))
      invariant one.NeedInput? ==> r.next == |r.input| && NoneAt(lens, r.Left()) && |r.Left()| < Reach(lens)
      invariant one.BadCode? ==> 1 <= r.bits && NoneAt(lens, Ahead(r, chunks, c)) && !Full(lens)
      decreases |chunks| - c
    {
      Feed(r, chunks, c);
      c := c + 1;
      one := TryRead(r, table, root, chunks, c, lens);
    }
    match one
    case Symbol(o) =>
      ReadableOnly(table, root, lens);
      WordIs(lens, o, Ahead(r, chunks, c), fault);
      res := Done(o);
    case NeedInput =>
      LastChunk(r, chunks);
      NoWordAt(lens, r.Left(), fault);
      res := Starved;
    case BadCode =>
      NoWordAt(lens, Ahead(r, chunks, c), fault);
      HeldAhead(r, chunks, c);
      res := Failed(fault);
  }

  lemma ReadableOnly(table: seq<Entry>, root: nat, lens: seq<nat>)
    requires OneDecodes(table, root, lens)
    ensures Readable(lens)
  {
  }

  lemma HeldAhead(r: BitReader, chunks: seq<seq<byte>>, c: nat)
    requires r.Valid() && 1 <= r.bits && c <= |chunks|
    ensures Ahead(r, chunks, c) != []
  {
  }

  lemma ReadableFits(lens: seq<nat>)
    requires Readable(lens)
    ensures Lengths15(lens)
  {
  }

  /** The next `n` symbols. */
  ghost function WordsAt(lens: seq<nat>, bits: seq<bool>, n: nat, fault: Fault): Parse<seq<nat>>
    requires Lengths15(lens)
    decreases n
  {
    if n == 0 then Got([], bits)
    else
      var (o, rest) :- WordAt(lens, bits, fault);
      var (os, end) :- WordsAt(lens, rest, n - 1, fault);
      Got([o] + os, end)
  }

  lemma {:induction false} WordsAre(lens: seq<nat>, syms: seq<nat>, rest: seq<bool>, fault: Fault)
    requires Readable(lens) && AllInUse(lens, syms)
    ensures WordsAt(lens, SpelledAll(lens, syms) + rest, |syms|, fault) == Got(syms, rest)
    decreases |syms|
  {
    hide WordAt, Spelled, Readable, Lengths15, WordsAt, After;
    ReadableFits(lens);
    if syms == [] {
      assert SpelledAll(lens, syms) + rest == rest;
      NoMoreWords(lens, [], rest, fault);
      AfterNone(WordsAt(lens, rest, 0, fault));
    } else {
      ghost var first, more := Spelled(lens, syms[0]), SpelledAll(lens, syms[1..]);
      assert (first + more) + rest == first + (more + rest);
      WordIs(lens, syms[0], more + rest, fault);
      WordsAre(lens, syms[1..], rest, fault);
      FirstWord(lens, first + (more + rest), |syms|, fault);
      GotAfter(syms[0], syms[1..], rest);
      assert [syms[0]] + syms[1..] == syms;
    }
  }

  lemma GotAfter(o: nat, os: seq<nat>, rest: seq<bool>)
    ensures After([o], Got(os, rest)) == Got([o] + os, rest)
  {
  }

  lemma FirstWord(lens: seq<nat>, bits: seq<bool>, n: nat, fault: Fault)
    requires Lengths15(lens) && 0 < n && WordAt(lens, bits, fault).Got?
    ensures var p := WordAt(lens, bits, fault);
            WordsAt(lens, bits, n, fault) == After([p.value], WordsAt(lens, p.rest, n - 1, fault))
  {
    hide WordAt;
  }

  /** The symbols read so far, before those still to be read. */
  ghost function After(done: seq<nat>, p: Parse<seq<nat>>): Parse<seq<nat>> {
    if p.Got? then Got(done + p.value, p.rest) else p
  }

  lemma AfterNone(p: Parse<seq<nat>>)
    ensures After([], p) == p
  {
    if p.Got? {
      assert [] + p.value == p.value;
    }
  }

  lemma LensFit(table: seq<Entry>, root: nat, lens: seq<nat>)
    requires OneDecodes(table, root, lens)
    ensures Lengths15(lens)
  {
  }

  /** One more of `n` symbols. */
  method ReadNext(r: BitReader, table: seq<Entry>, root: nat, chunks: seq<seq<byte>>, c0: nat, n: nat, fault: Fault,
                  out: seq<nat>, ghost lens: seq<nat>)
    returns (res: Reading<seq<nat>>, c: nat)
    requires Steady(r) && OneDecodes(table, root, lens) && c0 <= |chunks| && 0 < n
    modifies r
    ensures Steady(r) && c0 <= c <= |chunks| && Lengths15(lens)
    ensures var all := After(out, WordsAt(lens, old(Ahead(r, chunks, c0)), n, fault));
            if res.Done? then all == After(res.value, WordsAt(lens, Ahead(r, chunks, c), n - 1, fault))
            else res == Said(all)
  {
    hide OneDecodes, WordAt, WordsAt, After, Ahead, Spelled, Lengths15;
    ghost var before := Ahead(r, chunks, c0);
    var one;
    one, c := AwaitSymbol(r, table, root, chunks, c0, fault, lens);
    if one.Done? {
      OneMoreWord(lens, out, before, n, fault);
      res := Done(out + [one.value]);
    } else {
      WordFails(lens, out, before, n, fault);
      res := if one.Starved? then Starved else Failed(one.fault);
    }
  }

  /** `n` symbols more. */
  method ReadOn(r: BitReader, table: seq<Entry>, root: nat, chunks: seq<seq<byte>>, n: nat, fault: Fault,
                ghost lens: seq<nat>)
    returns (res: Reading<seq<nat>>)
    requires Steady(r) && OneDecodes(table, root, lens)
    modifies r
    ensures Lengths15(lens) && res == Said(WordsAt(lens, old(Ahead(r, chunks, 0)), n, fault))
  {
    hide OneDecodes, WordsAt, After, Ahead, Lengths15;
    LensFit(table, root, lens);
    var out, c := [], 0;
    ghost var all := WordsAt(lens, Ahead(r, chunks, 0), n, fault);
    AfterNone(all);
    for i := 0 to n
      invariant Steady(r) && c <= |chunks| && After(out, WordsAt(lens, Ahead(r, chunks, c), n - i, fault)) == all
    {
      res, c := ReadNext(r, table, root, chunks, c, n - i, fault, out, lens);
      if !res.Done? {
        return;
      }
      out := res.value;
    }
    NoMoreWords(lens, out, Ahead(r, chunks, c), fault);
    res := Done(out);
  }

  /** Any number of symbols, from input cut anywhere: what the bits say. */
  method ReadSymbols(table: seq<Entry>, root: nat, chunks: seq<seq<byte>>, n: nat, fault: Fault, ghost lens: seq<nat>)
    returns (res: Reading<seq<nat>>)
    requires OneDecodes(table, root, lens)
    ensures Lengths15(lens) && res == Said(WordsAt(lens, BytesBits(Flatten(chunks)), n, fault))
  {
    hide OneDecodes, WordsAt, Flatten, Lengths15;
    var r := new BitReader([]);
    AllAhead(r, chunks);
    res := ReadOn(r, table, root, chunks, n, fault, lens);
  }

  lemma WordFails(lens: seq<nat>, out: seq<nat>, bits: seq<bool>, n: nat, fault: Fault)
    requires Lengths15(lens) && 0 < n && !WordAt(lens, bits, fault).Got?
    ensures var p := WordAt(lens, bits, fault);
            After(out, WordsAt(lens, bits, n, fault)) == if p.Short? then Short else Wrong(p.fault)
  {
    hide WordAt;
  }

  lemma NoMoreWords(lens: seq<nat>, out: seq<nat>, bits: seq<bool>, fault: Fault)
    requires Lengths15(lens)
    ensures After(out, WordsAt(lens, bits, 0, fault)) == Got(out, bits)
  {
    assert out + [] == out;
  }

  lemma OneMoreWord(lens: seq<nat>, out: seq<nat>, bits: seq<bool>, n: nat, fault: Fault)
    requires Lengths15(lens) && 0 < n && WordAt(lens, bits, fault).Got?
    ensures var p := WordAt(lens, bits, fault);
            After(out, WordsAt(lens, bits, n, fault)) == After(out + [p.value], WordsAt(lens, p.rest, n - 1, fault))
  {
    hide WordAt;
    var p := WordAt(lens, bits, fault);
    var q := WordsAt(lens, p.rest, n - 1, fault);
    if q.Got? {
      assert out + ([p.value] + q.value) == (out + [p.value]) + q.value;
    }
  }

  lemma AllAhead(r: BitReader, chunks: seq<seq<byte>>)
    requires r.next <= |r.input| && r.Left() == []
    ensures Ahead(r, chunks, 0) == BytesBits(Flatten(chunks))
  {
    assert chunks[0..] == chunks && [] + BytesBits(Flatten(chunks)) == BytesBits(Flatten(chunks));
  }

  // From the tree to the symbols at the other end

  /** The input a reader may be given: the bytes cut into chunks of the given sizes. */
  function Cut(bytes: seq<byte>, sizes: seq<nat>): (chunks: seq<seq<byte>>)
    ensures Flatten(chunks) == bytes
  {
    if sizes == [] || |bytes| < sizes[0] then
      assert [bytes][1..] == [] && bytes + [] == bytes;
      [bytes]
    else
      var more := Cut(bytes[sizes[0]..], sizes[1..]);
      assert ([bytes[..sizes[0]]] + more)[1..] == more;
      [bytes[..sizes[0]]] + more
  }

  lemma CountsOfTree(counts: seq<nat>, lens: seq<nat>)
    requires Matches(counts, lens)
    ensures counts == Counts(lens)
  {
    forall l | 0 <= l <= MAX_BITS ensures counts[l] == Counts(lens)[l] {
    }
  }

  lemma TreeIsCoded(tree: seq<Cell>, counts: seq<nat>, lens: seq<nat>)
    requires Matches(counts, lens) && |lens| <= |tree| && (forall o | 0 <= o < |lens| :: tree[o].dl == lens[o])
    requires Coded(tree, counts, lens, |lens|)
    ensures CodedTree(tree, lens)
  {
    CountsOfTree(counts, lens);
    forall o | 0 <= o < |lens| && lens[o] != 0 ensures IsReverse(tree[o].fc, CodeOf(Counts(lens), lens, o), lens[o]) {
      assert Sends(tree[o].fc, counts, lens, o);
    }
  }

  /** The deflater's half: a tree and a code from the frequencies of the symbols, and the symbols sent
      with it. */
  method SendWithOwnCode(tree: array<Cell>, elems: nat, s: nat, syms: seq<nat>)
    returns (lens: seq<nat>, bytes: seq<byte>)
    requires 3 <= elems <= Pow2(s) && 2 * elems <= tree.Length && 1 <= s <= MAX_BITS
    requires forall i | 0 <= i < |syms| :: syms[i] < elems && tree[syms[i]].fc != 0
    modifies tree
    ensures |lens| <= elems && Lengths15(lens) && Full(lens) && AllInUse(lens, syms)
    ensures SpelledAll(lens, syms) <= BytesBits(bytes) && |BytesBits(bytes)| < |SpelledAll(lens, syms)| + 8
  {
    hide Laid, Kraft, Matches, Coded, Leaves, Pow2;
    var nodes, maxCode;
    ghost var dad, leaf, first, weights;
    nodes, maxCode, dad, leaf, first, weights := BuildTree(tree, elems);
    var counts := GenTreeCodes(tree, nodes, maxCode, s, dad, leaf);
    lens := Lengths(tree[..maxCode + 1]);
    LengthsFit(counts, lens);
    CountsOfTree(counts, lens);
    TreeIsCoded(tree[..], counts, lens);
    bytes := SendSymbols(tree[..], syms, lens);
  }

  /** The inflater's half, which has the lengths and the bytes, cut anywhere: it refuses the lengths that
      make no code, and otherwise reads what the bits say. */
  method ReceiveSymbols(lens: seq<nat>, chunks: seq<seq<byte>>, n: nat, table: array<Entry>)
    returns (res: Reading<seq<nat>>)
    requires |lens| <= 286 && Lengths15(lens) && Enough(Lens) <= table.Length
    modifies table
    ensures res == if Acceptable(Lens, lens) then Said(WordsAt(lens, BytesBits(Flatten(chunks)), n, LengthCode))
                   else Failed(LengthsSet)
  {
    hide Kraft, Matches, Decodes, Pow2, WordsAt, Acceptable;
    var r := BuildTable(Lens, lens, 9, table);
    if r.Invalid? {
      return Failed(LengthsSet);
    }
    TableReady(Lens, lens, r.bits, table[..]);
    res := ReadSymbols(table[..], r.bits, chunks, n, LengthCode, lens);
  }

  lemma TableReady(kind: Kind, lens: seq<nat>, root: nat, table: seq<Entry>)
    requires Acceptable(kind, lens) && Lengths15(lens) && 1 <= root <= MAX_BITS && Decodes(table, root, lens)
    requires Kraft(Counts(lens), MAX_BITS) < Pow2(MAX_BITS) ==> root == 1
    ensures OneDecodes(table, root, lens)
  {
    hide Kraft, Decodes;
    RootFits(table, root, lens);
    AcceptableReadable(kind, lens);
  }

  lemma AcceptableReadable(kind: Kind, lens: seq<nat>)
    requires Acceptable(kind, lens) && Lengths15(lens)
    ensures Readable(lens)
  {
    hide Kraft;
    if forall o | 0 <= o < |lens| :: lens[o] == 0 {
      NoKraft(lens, MAX_BITS);
    }
  }

  lemma {:induction false} NoKraft(lens: seq<nat>, l: nat)
    requires l <= MAX_BITS && forall o | 0 <= o < |lens| :: lens[o] == 0
    ensures Kraft(Counts(lens), l) == 0
    decreases l
  {
    if l > 0 {
      NoKraft(lens, l - 1);
      NoSymbol(lens, l);
    }
  }

  /** One after the other: whatever the bytes are cut into, the symbols come back one for one. */
  method Transmit(tree: array<Cell>, elems: nat, s: nat, syms: seq<nat>, sizes: seq<nat>, table: array<Entry>)
    returns (lens: seq<nat>, bytes: seq<byte>, res: Reading<seq<nat>>)
    requires 3 <= elems <= Pow2(s) && elems <= 286 && 2 * elems <= tree.Length && 1 <= s <= MAX_BITS
    requires Enough(Lens) <= table.Length
    requires forall i | 0 <= i < |syms| :: syms[i] < elems && tree[syms[i]].fc != 0
    modifies tree, table
    ensures Lengths15(lens) && AllInUse(lens, syms) && SpelledAll(lens, syms) <= BytesBits(bytes)
    ensures res == Done(syms)
  {
    hide Kraft, Matches, Pow2, WordsAt, BytesBits, SpelledAll, Acceptable;
    lens, bytes := SendWithOwnCode(tree, elems, s, syms);
    res := ReceiveSymbols(lens, Cut(bytes, sizes), |syms|, table);
    CompleteIsAcceptable(Lens, lens);
    AcceptableReadable(Lens, lens);
    ghost var all := SpelledAll(lens, syms);
    WordsAre(lens, syms, BytesBits(bytes)[|all|..], LengthCode);
    assert all + BytesBits(bytes)[|all|..] == BytesBits(bytes);
  }

  lemma LengthsFit(counts: seq<nat>, lens: seq<nat>)
    requires Matches(counts, lens)
    ensures Lengths15(lens)
  {
  }

  lemma CompleteIsAcceptable(kind: Kind, lens: seq<nat>)
    requires Lengths15(lens) && Kraft(Counts(lens), MAX_BITS) == Pow2(MAX_BITS)
    ensures Acceptable(kind, lens)
  {
  }

  lemma RootFits(table: seq<Entry>, root: nat, lens: seq<nat>)
    requires Lengths15(lens) && Decodes(table, root, lens)
    ensures Pow2(root) <= |table|
  {
  }
}

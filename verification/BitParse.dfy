/**
 * What a reader makes of a string of bits: a value and the bits after it, too few bits to tell, or an
 * error. A reader that is fed bytes in chunks is held against such a function of all the bits.
 */
module BitParse {
  import opened Bytes
  import opened BitStrings
  import opened BitStream

  /** The messages of `inflate`. */
  datatype Fault =
    | BlockType
    | StoredLengths
    | TooMany
    | CodeLengthsSet
    | BitLengthRepeat
    | MissingEnd
    | LengthsSet
    | DistancesSet
    | LengthCode
    | DistanceCode

  datatype Parse<+T> = Got(value: T, rest: seq<bool>) | Short | Wrong(fault: Fault) {
    predicate IsFailure() { !Got? }

    function PropagateFailure<U>(): Parse<U>
      requires !Got?
    {
      if Short? then Short else Wrong(fault)
    }

    function Extract(): (T, seq<bool>)
      requires Got?
    {
      (value, rest)
    }

    /** The same with `more` bits to come. */
    function Then(more: seq<bool>): Parse<T> { if Got? then Got(value, rest + more) else this }
  }

  /** What a reader reports. */
  datatype Reading<+T> = Done(value: T) | Starved | Failed(fault: Fault)

  function Said<T>(p: Parse<T>): Reading<T> {
    match p
    case Got(value, _) => Done(value)
    case Short => Starved
    case Wrong(fault) => Failed(fault)
  }

  /** The reader reports what the bits say, and goes on where the value ends. */
  ghost predicate Tells<T>(p: Parse<T>, res: Reading<T>, after: seq<bool>) {
    res == Said(p) && (p.Got? ==> after == p.rest)
  }

  /** `n` bits as a number. */
  function NumberAt(bits: seq<bool>, n: nat): (p: Parse<nat>)
    ensures p.Got? ==> p.value < Pow2(n) && |p.rest| == |bits| - n
    ensures !p.Wrong?
  {
    if n <= |bits| then
      BitsOfValue(bits[..n]);
      Got(Value(bits[..n]), bits[n..])
    else Short
  }

  lemma NumberIs(v: nat, n: nat, rest: seq<bool>)
    requires v < Pow2(n)
    ensures NumberAt(BitsOf(v, n) + rest, n) == Got(v, rest)
  {
    ValueOfBits(v, n);
    assert (BitsOf(v, n) + rest)[..n] == BitsOf(v, n) && (BitsOf(v, n) + rest)[n..] == rest;
  }

  lemma NumberWas(bits: seq<bool>, n: nat)
    ensures var p := NumberAt(bits, n); p.Got? ==> p.value < Pow2(n) && bits == BitsOf(p.value, n) + p.rest
  {
    if n <= |bits| {
      BitsOfValue(bits[..n]);
      assert bits == bits[..n] + bits[n..];
    }
  }

  lemma NumberMore(bits: seq<bool>, n: nat, more: seq<bool>)
    requires NumberAt(bits, n).Got?
    ensures NumberAt(bits + more, n) == NumberAt(bits, n).Then(more)
  {
    assert (bits + more)[..n] == bits[..n] && (bits + more)[n..] == bits[n..] + more;
  }

  /** Wait for a field and take it; none is waited for when it has no bits. */
  method AwaitNumber(r: BitReader, n: nat, chunks: seq<seq<byte>>, c0: nat) returns (res: Reading<nat>, c: nat)
    requires r.Valid() && c0 <= |chunks|
    modifies r
    ensures r.Valid() && c0 <= c <= |chunks|
    ensures Tells(NumberAt(old(Ahead(r, chunks, c0)), n), res, Ahead(r, chunks, c))
    ensures r.bits <= if old(r.bits) < n then n + 7 else old(r.bits)
  {
    hide BytesBits, Flatten, BitsOf, Pow2, Value;
    var ok;
    ok, c := Await(r, n, chunks, c0);
    if !ok {
      return Starved, c;
    }
    ghost var left, later := r.Left(), BytesBits(Flatten(chunks[c..]));
    var value := r.Take(n);
    FirstBits(left, later, n, value);
    res := Done(value);
  }

  lemma FirstBits(left: seq<bool>, later: seq<bool>, n: nat, value: nat)
    requires n <= |left| && value < Pow2(n) && BitsOf(value, n) == left[..n]
    ensures NumberAt(left + later, n) == Got(value, left[n..] + later)
  {
    ValueOfBits(value, n);
    assert (left + later)[..n] == left[..n] && (left + later)[n..] == left[n..] + later;
  }
}

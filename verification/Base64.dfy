/** The base64 codec of the runtime bridge, on machine words. Text is its UTF-8 bytes. */
module Base64 {
  import opened Options

  type u8 = bv8

  const PAD: u8 := 61

  // One chunk

  /** The alphabet: A-Z, a-z, 0-9, + and /. */
  function Symbol(v: u8): u8
    requires v < 64
  {
    if v < 26 then 65 + v
    else if v < 52 then 97 + (v - 26)
    else if v < 62 then 48 + (v - 52)
    else if v == 62 then 43
    else 47
  }

  function DecodeChar(c: u8): (r: Option<u8>)
    ensures r.Some? ==> r.value < 64
  {
    if 65 <= c <= 90 then Some(c - 65)
    else if 97 <= c <= 122 then Some(c - 97 + 26)
    else if 48 <= c <= 57 then Some(c - 48 + 52)
    else if c == 43 then Some(62)
    else if c == 47 then Some(63)
    else if c == PAD then Some(0)
    else None
  }

  function Low8(w: bv32): u8 { (w & 0xFF) as bv8 }

  function Join3(b0: u8, b1: u8, b2: u8): bv32 {
    ((b0 as bv32) << 16) | ((b1 as bv32) << 8) | (b2 as bv32)
  }

  function Join4(a: u8, b: u8, c: u8, d: u8): bv32 {
    ((a as bv32) << 18) | ((b as bv32) << 12) | ((c as bv32) << 6) | (d as bv32)
  }

  function Digit0(triple: bv32): (d: u8) ensures d < 64 { ((triple >> 18) & 0x3F) as bv8 }
  function Digit1(triple: bv32): (d: u8) ensures d < 64 { ((triple >> 12) & 0x3F) as bv8 }
  function Digit2(triple: bv32): (d: u8) ensures d < 64 { ((triple >> 6) & 0x3F) as bv8 }
  function Digit3(triple: bv32): (d: u8) ensures d < 64 { (triple & 0x3F) as bv8 }

  /** The four characters written for `n` bytes. */
  function Symbols(a: u8, b: u8, c: u8, d: u8, n: nat): (q: seq<u8>)
    requires a < 64 && b < 64 && c < 64 && d < 64
    ensures |q| == 4
  {
    [Symbol(a), Symbol(b), if n > 1 then Symbol(c) else PAD, if n > 2 then Symbol(d) else PAD]
  }

  function At(c: seq<u8>, i: nat): u8 { if i < |c| then c[i] else 0 }

  function EncodeChunk(c: seq<u8>): (q: seq<u8>)
    requires 1 <= |c| <= 3
    ensures |q| == 4
  {
    var triple := Join3(c[0], At(c, 1), At(c, 2));
    Symbols(Digit0(triple), Digit1(triple), Digit2(triple), Digit3(triple), |c|)
  }

  /** The bytes of four six-bit digits; padding in the last places drops bytes. */
  function Bytes3(triple: bv32, third: bool, fourth: bool): (r: seq<u8>)
    ensures 1 <= |r| <= 3
  {
    [Low8(triple >> 16)] + (if third then [Low8(triple >> 8)] else []) + (if fourth then [Low8(triple)] else [])
  }

  function DecodeChunk(q: seq<u8>): (r: Option<seq<u8>>)
    requires |q| == 4
    ensures r.Some? ==> 1 <= |r.value| <= 3
  {
    var a :- DecodeChar(q[0]);
    var b :- DecodeChar(q[1]);
    var c :- DecodeChar(q[2]);
    var d :- DecodeChar(q[3]);
    Some(Bytes3(Join4(a, b, c, d), q[2] != PAD, q[3] != PAD))
  }

  // Whole strings

  function Chunk(data: seq<u8>): (n: nat)
    requires data != []
    ensures 1 <= n <= 3 && n <= |data|
  {
    if |data| < 3 then |data| else 3
  }

  function Encode(data: seq<u8>): seq<u8> {
    if data == [] then []
    else EncodeChunk(data[..Chunk(data)]) + Encode(data[Chunk(data)..])
  }

  function Decode(s: seq<u8>): Option<seq<u8>> {
    if s == [] then Some([])
    else if |s| < 4 then None
    else
      var head :- DecodeChunk(s[..4]);
      var tail :- Decode(s[4..]);
      Some(head + tail)
  }

  // Decoding undoes encoding

  lemma SymbolDecodes(v: u8)
    requires v < 64
    ensures DecodeChar(Symbol(v)) == Some(v) && Symbol(v) != PAD
  {
  }

  lemma JoinedBytes(b0: u8, b1: u8, b2: u8)
    ensures Low8(Join3(b0, b1, b2) >> 16) == b0
    ensures Low8(Join3(b0, b1, b2) >> 8) == b1
    ensures Low8(Join3(b0, b1, b2)) == b2
  {
  }

  lemma Regrouped(b0: u8, b1: u8, b2: u8, t: bv32)
    requires t == Join3(b0, b1, b2)
    ensures Join4(Digit0(t), Digit1(t), Digit2(t), Digit3(t)) == t
  {
  }

  lemma PaddingIsZero(b0: u8, b1: u8, b2: u8, t: bv32)
    requires t == Join3(b0, b1, b2)
    ensures b2 == 0 ==> Digit3(t) == 0
    ensures b2 == 0 && b1 == 0 ==> Digit2(t) == 0
  {
  }

  lemma SymbolsDecode(a: u8, b: u8, c: u8, d: u8, n: nat)
    requires a < 64 && b < 64 && c < 64 && d < 64
    requires 1 <= n <= 3 && (n < 3 ==> d == 0) && (n < 2 ==> c == 0)
    ensures DecodeChunk(Symbols(a, b, c, d, n)) == Some(Bytes3(Join4(a, b, c, d), n > 1, n > 2))
  {
    SymbolDecodes(a);
    SymbolDecodes(b);
    SymbolDecodes(c);
    SymbolDecodes(d);
  }

  lemma JoinedSplits(b0: u8, b1: u8, b2: u8, third: bool, fourth: bool)
    ensures Bytes3(Join3(b0, b1, b2), third, fourth)
         == [b0] + (if third then [b1] else []) + (if fourth then [b2] else [])
  {
    JoinedBytes(b0, b1, b2);
  }

  lemma TripleRoundTrip(b0: u8, b1: u8, b2: u8, n: nat, t: bv32)
    requires 1 <= n <= 3 && (n < 3 ==> b2 == 0) && (n < 2 ==> b1 == 0) && t == Join3(b0, b1, b2)
    ensures DecodeChunk(Symbols(Digit0(t), Digit1(t), Digit2(t), Digit3(t), n)) == Some(Bytes3(t, n > 1, n > 2))
  {
    PaddingIsZero(b0, b1, b2, t);
    SymbolsDecode(Digit0(t), Digit1(t), Digit2(t), Digit3(t), n);
    Regrouped(b0, b1, b2, t);
  }

  lemma ChunkRoundTrip(c: seq<u8>)
    requires 1 <= |c| <= 3
    ensures DecodeChunk(EncodeChunk(c)) == Some(c)
  {
    var t := Join3(c[0], At(c, 1), At(c, 2));
    TripleRoundTrip(c[0], At(c, 1), At(c, 2), |c|, t);
    TripleBytes(c, t);
  }

  lemma TripleBytes(c: seq<u8>, t: bv32)
    requires 1 <= |c| <= 3 && t == Join3(c[0], At(c, 1), At(c, 2))
    ensures Bytes3(t, |c| > 1, |c| > 2) == c
  {
    JoinedSplits(c[0], At(c, 1), At(c, 2), |c| > 1, |c| > 2);
    assert c == [c[0]] + (if |c| > 1 then [At(c, 1)] else []) + (if |c| > 2 then [At(c, 2)] else []);
  }

  /** Every byte string survives encoding and decoding. */
  lemma {:induction false} RoundTrip(data: seq<u8>)
    ensures Decode(Encode(data)) == Some(data)
  {
    if data != [] {
      var n := Chunk(data);
      ChunkRoundTrip(data[..n]);
      RoundTrip(data[n..]);
      assert Encode(data)[..4] == EncodeChunk(data[..n]);
      assert Encode(data)[4..] == Encode(data[n..]);
      assert data == data[..n] + data[n..];
    }
  }

  // What the decoder accepts, and where it is the exact inverse

  predicate Digit(c: u8) { DecodeChar(c).Some? && c != PAD }

  predicate Readable(c: u8) { Digit(c) || c == PAD }

  lemma ChunkAccepts(q: seq<u8>)
    requires |q| == 4
    ensures DecodeChunk(q).Some? <==> Readable(q[0]) && Readable(q[1]) && Readable(q[2]) && Readable(q[3])
  {
  }

  /** The decoder takes padding anywhere, in any amount. */
  lemma {:induction false} Accepts(s: seq<u8>)
    ensures Decode(s).Some? <==> |s| % 4 == 0 && forall i | 0 <= i < |s| :: Readable(s[i])
  {
    if |s| >= 4 {
      var q, rest := s[..4], s[4..];
      ChunkAccepts(q);
      Accepts(rest);
      assert q[0] == s[0] && q[1] == s[1] && q[2] == s[2] && q[3] == s[3];
      assert forall i | 4 <= i < |s| :: s[i] == rest[i - 4];
    }
  }

  /** As section 4 of RFC 4648 writes a quantum: padding only in the last one, and the bits it
      leaves over are zero. */
  predicate CanonicalChunk(q: seq<u8>, last: bool)
    requires |q| == 4
  {
    && Digit(q[0]) && Digit(q[1])
    && ( || (Digit(q[2]) && Digit(q[3]))
         || (last && Digit(q[2]) && q[3] == PAD && DecodeChar(q[2]).value & 0x03 == 0)
         || (last && q[2] == PAD && q[3] == PAD && DecodeChar(q[1]).value & 0x0F == 0))
  }

  predicate Canonical(s: seq<u8>) {
    s == [] || (|s| >= 4 && CanonicalChunk(s[..4], |s| == 4) && Canonical(s[4..]))
  }

  lemma SpareBits(b0: u8, b1: u8, b2: u8, t: bv32)
    requires t == Join3(b0, b1, b2)
    ensures b2 == 0 ==> Digit2(t) & 0x03 == 0
    ensures b1 == 0 ==> Digit1(t) & 0x0F == 0
  {
  }

  lemma SymbolsCanonical(a: u8, b: u8, c: u8, d: u8, n: nat)
    requires a < 64 && b < 64 && c < 64 && d < 64
    requires 1 <= n <= 3 && (n < 3 ==> c & 0x03 == 0) && (n < 2 ==> b & 0x0F == 0)
    ensures CanonicalChunk(Symbols(a, b, c, d, n), n < 3)
  {
    SymbolDecodes(a);
    SymbolDecodes(b);
    SymbolDecodes(c);
    SymbolDecodes(d);
  }

  lemma ChunkIsCanonical(c: seq<u8>)
    requires 1 <= |c| <= 3
    ensures CanonicalChunk(EncodeChunk(c), |c| < 3)
  {
    var t := Join3(c[0], At(c, 1), At(c, 2));
    SpareBits(c[0], At(c, 1), At(c, 2), t);
    SymbolsCanonical(Digit0(t), Digit1(t), Digit2(t), Digit3(t), |c|);
  }

  lemma {:induction false} EncodingIsCanonical(data: seq<u8>)
    ensures Canonical(Encode(data))
    ensures |Encode(data)| == (|data| + 2) / 3 * 4
  {
    if data != [] {
      var n := Chunk(data);
      ChunkIsCanonical(data[..n]);
      EncodingIsCanonical(data[n..]);
      assert Encode(data)[..4] == EncodeChunk(data[..n]);
      assert Encode(data)[4..] == Encode(data[n..]);
    }
  }

  // Going back: the digits of the bytes are the symbols

  lemma DigitIsSymbol(c: u8)
    requires Digit(c)
    ensures Symbol(DecodeChar(c).value) == c
  {
  }

  lemma Resplit(a: u8, b: u8, c: u8, d: u8, t: bv32)
    requires a < 64 && b < 64 && c < 64 && d < 64 && t == Join4(a, b, c, d)
    ensures Join3(Low8(t >> 16), Low8(t >> 8), Low8(t)) == t
  {
  }

  lemma DigitsOf(a: u8, b: u8, c: u8, d: u8, t: bv32)
    requires a < 64 && b < 64 && c < 64 && d < 64 && t == Join4(a, b, c, d)
    ensures Digit0(t) == a && Digit1(t) == b && Digit2(t) == c && Digit3(t) == d
  {
  }

  lemma SpareIsZero(a: u8, b: u8, c: u8, t: bv32)
    requires a < 64 && b < 64 && c < 64 && t == Join4(a, b, c, 0)
    ensures c & 0x03 == 0 ==> Low8(t) == 0
    ensures c == 0 && b & 0x0F == 0 ==> Low8(t >> 8) == 0 && Low8(t) == 0
  {
  }

  lemma BytesReencode(bytes: seq<u8>, a: u8, b: u8, c: u8, d: u8, t: bv32)
    requires a < 64 && b < 64 && c < 64 && d < 64 && t == Join4(a, b, c, d)
    requires 1 <= |bytes| <= 3 && bytes[0] == Low8(t >> 16) && At(bytes, 1) == Low8(t >> 8) && At(bytes, 2) == Low8(t)
    ensures EncodeChunk(bytes) == Symbols(a, b, c, d, |bytes|)
  {
    Resplit(a, b, c, d, t);
    DigitsOf(a, b, c, d, t);
  }

  lemma SymbolsBack(q: seq<u8>, a: u8, b: u8, c: u8, d: u8, n: nat)
    requires |q| == 4 && Digit(q[0]) && Digit(q[1])
    requires DecodeChar(q[0]) == Some(a) && DecodeChar(q[1]) == Some(b) && DecodeChar(q[2]) == Some(c)
             && DecodeChar(q[3]) == Some(d)
    requires (if n > 1 then Digit(q[2]) else q[2] == PAD) && (if n > 2 then Digit(q[3]) else q[3] == PAD)
    ensures Symbols(a, b, c, d, n) == q
  {
    DigitIsSymbol(q[0]);
    DigitIsSymbol(q[1]);
    if n > 1 { DigitIsSymbol(q[2]); }
    if n > 2 { DigitIsSymbol(q[3]); }
  }

  lemma BytesAt(t: bv32, n: nat)
    requires 1 <= n <= 3 && (n < 3 ==> Low8(t) == 0) && (n < 2 ==> Low8(t >> 8) == 0)
    ensures var bytes := Bytes3(t, n > 1, n > 2);
            |bytes| == n && bytes[0] == Low8(t >> 16) && At(bytes, 1) == Low8(t >> 8) && At(bytes, 2) == Low8(t)
  {
  }

  lemma CanonicalBytes(a: u8, b: u8, c: u8, d: u8, n: nat, t: bv32)
    requires a < 64 && b < 64 && c < 64 && d < 64 && t == Join4(a, b, c, d)
    requires 1 <= n <= 3 && (n < 3 ==> d == 0 && c & 0x03 == 0) && (n < 2 ==> c == 0 && b & 0x0F == 0)
    ensures |Bytes3(t, n > 1, n > 2)| == n
    ensures EncodeChunk(Bytes3(t, n > 1, n > 2)) == Symbols(a, b, c, d, n)
  {
    if n < 3 { SpareIsZero(a, b, c, t); }
    BytesAt(t, n);
    BytesReencode(Bytes3(t, n > 1, n > 2), a, b, c, d, t);
  }

  lemma CanonicalChunkReencodes(q: seq<u8>, last: bool)
    requires |q| == 4 && CanonicalChunk(q, last)
    ensures DecodeChunk(q).Some? && EncodeChunk(DecodeChunk(q).value) == q
    ensures !last ==> |DecodeChunk(q).value| == 3
  {
    var n := if q[2] == PAD then 1 else if q[3] == PAD then 2 else 3;
    var a, b, c, d := DecodeChar(q[0]).value, DecodeChar(q[1]).value, DecodeChar(q[2]).value, DecodeChar(q[3]).value;
    CanonicalBytes(a, b, c, d, n, Join4(a, b, c, d));
    SymbolsBack(q, a, b, c, d, n);
  }

  lemma {:induction false} CanonicalReencodes(s: seq<u8>)
    requires Canonical(s)
    ensures Decode(s).Some? && Encode(Decode(s).value) == s
  {
    if s != [] {
      CanonicalChunkReencodes(s[..4], |s| == 4);
      CanonicalReencodes(s[4..]);
      EncodeHead(DecodeChunk(s[..4]).value, Decode(s[4..]).value);
      assert s == s[..4] + s[4..];
    }
  }

  lemma EncodeHead(head: seq<u8>, tail: seq<u8>)
    requires 1 <= |head| <= 3 && (tail == [] || |head| == 3)
    ensures Encode(head + tail) == EncodeChunk(head) + Encode(tail)
  {
    var n := Chunk(head + tail);
    assert (head + tail)[..n] == head && (head + tail)[n..] == tail;
  }

  /** An accepted string is the encoding of what it decodes to exactly when it is canonical. */
  lemma ReencodesIffCanonical(s: seq<u8>)
    requires Decode(s).Some?
    ensures Encode(Decode(s).value) == s <==> Canonical(s)
  {
    EncodingIsCanonical(Decode(s).value);
    if Canonical(s) {
      CanonicalReencodes(s);
    }
  }

  // The loops

  /** `base64_encode`. */
  method Base64Encode(data: seq<u8>) returns (result: seq<u8>)
    ensures result == Encode(data)
  {
    result := [];
    var i := 0;
    while i < |data|
      invariant i <= |data|
      invariant result + Encode(data[i..]) == Encode(data)
    {
      var n := if |data| - i < 3 then |data| - i else 3;
      var q := EncodeTriple(data[i..i + n]);
      EncodeStep(data, i, n, q, result);
      result := result + q;
      i := i + n;
    }
  }

  /** The four pushes of one round. */
  method EncodeTriple(chunk: seq<u8>) returns (q: seq<u8>)
    requires 1 <= |chunk| <= 3
    ensures q == EncodeChunk(chunk)
  {
    var b0 := chunk[0];
    var b1 := if |chunk| > 1 then chunk[1] else 0;
    var b2 := if |chunk| > 2 then chunk[2] else 0;
    var triple := Join3(b0, b1, b2);
    q := [];
    q := q + [Symbol(Digit0(triple))];
    q := q + [Symbol(Digit1(triple))];
    if |chunk| > 1 {
      q := q + [Symbol(Digit2(triple))];
    } else {
      q := q + [PAD];
    }
    if |chunk| > 2 {
      q := q + [Symbol(Digit3(triple))];
    } else {
      q := q + [PAD];
    }
  }

  lemma EncodeStep(data: seq<u8>, i: nat, n: nat, q: seq<u8>, before: seq<u8>)
    requires i < |data| && n == Chunk(data[i..]) && i + n <= |data|
    requires q == EncodeChunk(data[i..i + n])
    ensures (before + q) + Encode(data[i + n..]) == before + Encode(data[i..])
  {
    var rest := data[i..];
    assert rest[..n] == data[i..i + n];
    assert rest[n..] == data[i + n..];
    assert Encode(rest) == q + Encode(data[i + n..]);
  }

  /** One round of the decoder. */
  method DecodeQuad(chunk: seq<u8>) returns (r: Option<seq<u8>>)
    requires |chunk| == 4
    ensures r == DecodeChunk(chunk)
  {
    var a :- DecodeChar(chunk[0]);
    var b :- DecodeChar(chunk[1]);
    var c :- DecodeChar(chunk[2]);
    var d :- DecodeChar(chunk[3]);
    var triple := Join4(a, b, c, d);
    var result := [Low8(triple >> 16)];
    if chunk[2] != PAD {
      result := result + [Low8(triple >> 8)];
    }
    if chunk[3] != PAD {
      result := result + [Low8(triple)];
    }
    assert result == Bytes3(triple, chunk[2] != PAD, chunk[3] != PAD);
    return Some(result);
  }

  /** What the rest decodes to, after the bytes already decoded. */
  ghost function After(done: seq<u8>, rest: Option<seq<u8>>): Option<seq<u8>> {
    match rest
    case Some(tail) => Some(done + tail)
    case None => None
  }

  lemma AfterNothing(rest: Option<seq<u8>>)
    ensures After([], rest) == rest
  {
    if rest.Some? {
      assert [] + rest.value == rest.value;
    }
  }

  /** `base64_decode`. */
  method Base64Decode(input: seq<u8>) returns (r: Option<seq<u8>>)
    ensures r == Decode(input)
  {
    var result := [];
    var i := 0;
    assert input[0..] == input;
    AfterNothing(Decode(input));
    while i < |input|
      invariant i <= |input|
      invariant Decode(input) == After(result, Decode(input[i..]))
    {
      if |input| - i < 4 {
        return None;
      }
      var q := DecodeQuad(input[i..i + 4]);
      DecodeStep(input[i..], input[i..i + 4], input[i + 4..], result);
      var bytes :- q;
      result := result + bytes;
      i := i + 4;
    }
    assert input[i..] == [] && result + [] == result;
    return Some(result);
  }

  lemma DecodeStep(s: seq<u8>, q: seq<u8>, rest: seq<u8>, done: seq<u8>)
    requires s == q + rest && |q| == 4
    ensures After(done, Decode(s)) ==
            match DecodeChunk(q) case Some(head) => After(done + head, Decode(rest)) case None => None
  {
    assert s[..4] == q && s[4..] == rest;
    if DecodeChunk(q).Some? && Decode(rest).Some? {
      var head, tail := DecodeChunk(q).value, Decode(rest).value;
      assert done + (head + tail) == (done + head) + tail;
    }
  }
}

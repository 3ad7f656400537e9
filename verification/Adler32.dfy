/** The Adler-32 of section 8.2 of RFC 1950, with the modulo put off over runs of 2000
    bytes. */
module Adler32 {
  import opened Bytes

  const BASE: nat := 65521

  /** JavaScript's `| 0`. */
  function ToInt32(x: int): (r: int)
    ensures -0x8000_0000 <= r < 0x8000_0000 && (r - x) % 0x1_0000_0000 == 0
    ensures -0x8000_0000 <= x < 0x8000_0000 ==> r == x
  {
    var u := x % 0x1_0000_0000;
    if u < 0x8000_0000 then u else u - 0x1_0000_0000
  }

  /** Both sums after `data`, reduced after every byte. */
  function Sums(s1: nat, s2: nat, data: seq<byte>): (nat, nat)
    decreases |data|
  {
    if data == [] then (s1, s2)
    else
      var t1 := (s1 + data[0]) % BASE;
      Sums(t1, (s2 + t1) % BASE, data[1..])
  }

  function Low(adler: int): nat { adler % 0x1_0000_0000 % 65536 }

  function High(adler: int): nat { adler % 0x1_0000_0000 / 65536 }

  /** The checksum as the signed word the source returns. */
  function Checksum(adler: int, data: seq<byte>): int {
    var (s1, s2) := Sums(Low(adler), High(adler), data);
    ToInt32(s1 + s2 * 65536)
  }

  /** `i` and `a` are the reference sums up to multiples of the base. */
  ghost predicate Congruent(i: int, a: int, s1: int, s2: int, k1: int, k2: int) {
    i == s1 + k1 * BASE && a == s2 + k2 * BASE
  }

  lemma Reduce(i: int, s: int, k: int)
    requires i == s + k * BASE && 0 <= s < BASE
    ensures i % BASE == s
  {
  }

  method Adler(adler: int, buf: seq<byte>, len: nat, pos: nat) returns (r: int)
    requires pos + len <= |buf|
    ensures r == Checksum(adler, buf[pos..pos + len])
  {
    var i, a := Low(adler), High(adler);
    var t, n := len, pos;
    ghost var s1, s2 := i, a;
    ghost var goal := Sums(i, a, buf[pos..pos + len]);
    while t != 0
      invariant 0 <= t <= len && n == pos + len - t
      invariant 0 <= i < 65536 && 0 <= a < 65536 && i == s1 && a == s2
      invariant Sums(s1, s2, buf[n..pos + len]) == goal
    {
      var o := if t > 2000 then 2000 else t;
      t := t - o;
      i, a, n, s1, s2 := Run(i, a, buf, o, n, pos + len);
      ghost var k1, k2 :| Congruent(i, a, s1, s2, k1, k2);
      Reduce(i, s1, k1);
      Reduce(a, s2, k2);
      i, a := i % BASE, a % BASE;
    }
    assert buf[n..pos + len] == [];
    r := ToInt32(i + a * 65536);
  }

  /** Adding a byte keeps the running sums and the reduced ones congruent. */
  lemma ByteCongruent(i: int, a: int, s1: nat, s2: nat, k1: int, k2: int, b: byte)
    returns (t1: nat, t2: nat, j1: int, j2: int)
    requires Congruent(i, a, s1, s2, k1, k2)
    ensures t1 == (s1 + b) % BASE && t2 == (s2 + t1) % BASE
    ensures Congruent(i + b, a + i + b, t1, t2, j1, j2)
  {
    t1 := (s1 + b) % BASE;
    t2 := (s2 + t1) % BASE;
    j1 := k1 + (s1 + b) / BASE;
    j2 := k2 + j1 + (s2 + t1) / BASE;
  }

  /** `do i = i + buf[n++] | 0, a = a + i | 0; while (--o)`: neither addition wraps. */
  method Run(i0: nat, a0: nat, buf: seq<byte>, o: nat, n0: nat, ghost end: nat)
    returns (i: int, a: int, n: nat, ghost s1: nat, ghost s2: nat)
    requires i0 < 65536 && a0 < 65536 && 1 <= o <= 2000 && n0 + o <= end <= |buf|
    ensures n == n0 + o && 0 <= i <= 65535 + 255 * o && 0 <= a <= 65535 + 575535 * o < 0x8000_0000
    ensures s1 < BASE && s2 < BASE && exists k1, k2 :: Congruent(i, a, s1, s2, k1, k2)
    ensures Sums(s1, s2, buf[n..end]) == Sums(i0, a0, buf[n0..end])
  {
    i, a, n, s1, s2 := i0, a0, n0, i0, a0;
    ghost var k1, k2 := 0, 0;
    var k := 0;
    while k < o
      invariant 0 <= k <= o && n == n0 + k
      invariant 0 <= i <= 65535 + 255 * k && 0 <= a <= 65535 + 575535 * k
      invariant 0 < k ==> s1 < BASE && s2 < BASE
      invariant Congruent(i, a, s1, s2, k1, k2)
      invariant Sums(s1, s2, buf[n..end]) == Sums(i0, a0, buf[n0..end])
    {
      assert buf[n..end][1..] == buf[n + 1..end];
      s1, s2, k1, k2 := ByteCongruent(i, a, s1, s2, k1, k2, buf[n]);
      i := ToInt32(i + buf[n]);
      a := ToInt32(a + i);
      n, k := n + 1, k + 1;
    }
  }

  lemma {:induction false} SumsAppend(s1: nat, s2: nat, a: seq<byte>, b: seq<byte>)
    ensures Sums(s1, s2, a + b) == var (t1, t2) := Sums(s1, s2, a); Sums(t1, t2, b)
    ensures s1 < 65536 && s2 < 65536 ==> var (t1, t2) := Sums(s1, s2, a); t1 < 65536 && t2 < 65536
    decreases |a|
  {
    if a == [] {
      assert a + b == b;
    } else {
      var t1 := (s1 + a[0]) % BASE;
      assert (a + b)[1..] == a[1..] + b;
      SumsAppend(t1, (s2 + t1) % BASE, a[1..], b);
    }
  }

  /** A message may be summed in pieces. */
  lemma ChecksumAppend(adler: int, a: seq<byte>, b: seq<byte>)
    ensures Checksum(Checksum(adler, a), b) == Checksum(adler, a + b)
  {
    SumsAppend(Low(adler), High(adler), a, b);
    var (t1, t2) := Sums(Low(adler), High(adler), a);
    Split(t1, t2);
  }

  lemma Split(t1: nat, t2: nat)
    requires t1 < 65536 && t2 < 65536
    ensures Low(ToInt32(t1 + t2 * 65536)) == t1 && High(ToInt32(t1 + t2 * 65536)) == t2
  {
  }
}

/** Octets as the source's typed arrays and byte vectors hold them. */
module Bytes {
  type byte = x: int | 0 <= x < 256

  /** A stream handed over in chunks. */
  function Flatten(chunks: seq<seq<byte>>): seq<byte> {
    if chunks == [] then [] else chunks[0] + Flatten(chunks[1..])
  }

  lemma {:induction false} FlattenNext(chunks: seq<seq<byte>>, next: seq<byte>)
    ensures Flatten(chunks + [next]) == Flatten(chunks) + next
    decreases |chunks|
  {
    if chunks == [] {
      assert [next][1..] == [] && [] + [next] == [next];
    } else {
      assert (chunks + [next])[1..] == chunks[1..] + [next];
      FlattenNext(chunks[1..], next);
    }
  }
}

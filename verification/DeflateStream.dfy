/**
 * Whole streams: any number of blocks of any kind deflated to bytes, and any bytes inflated to what they
 * stand for, as far as there is room.
 */
module DeflateStream {
  import opened Bytes
  import opened BitStrings
  import opened BitStream
  import opened BitParse
  import opened HuffmanStream
  import opened BlockBody
  import opened BlockHeader
  import opened DeflateBlock
  import opened InflateBody
  import opened InflateBlock
  import opened InflateWindow
  import opened Lz77
  import opened Sequences

  // Deflating

  lemma {:induction false} OneMoreBlock(ss: seq<Sent>, b: Sent)
    requires AllLegible(ss) && Legible(b)
    ensures AllLegible(ss + [b]) && StreamBits(ss + [b]) == StreamBits(ss) + BlockBits(b)
    ensures AllTokens(ss + [b]) == AllTokens(ss) + TokensOf(b)
    decreases |ss|
  {
    hide Legible, BlockBits, TokensOf;
    if ss == [] {
      assert ss + [b] == [b] && [b][1..] == [];
      assert BlockBits(b) + [] == [] + BlockBits(b) && TokensOf(b) + [] == [] + TokensOf(b);
    } else {
      assert (ss + [b])[1..] == ss[1..] + [b];
      OneMoreBlock(ss[1..], b);
      Regroup(BlockBits(ss[0]), StreamBits(ss[1..]), BlockBits(b));
      Regroup(TokensOf(ss[0]), AllTokens(ss[1..]), TokensOf(b));
    }
  }

  lemma {:induction false} BitsInTwo(ss: seq<Sent>, k: nat)
    requires AllLegible(ss) && k <= |ss|
    ensures |StreamBits(ss)| == |StreamBits(ss[..k])| + |StreamBits(ss[k..])|
    decreases |ss| - k
  {
    hide Legible, BlockBits;
    if k == |ss| {
      assert ss[..k] == ss && ss[k..] == [];
    } else {
      BitsInTwo(ss, k + 1);
      assert ss[..k + 1] == ss[..k] + [ss[k]];
      OneMoreBlock(ss[..k], ss[k]);
      assert ss[k..][1..] == ss[k + 1..];
    }
  }

  /** Where a block is sent as it is, the bits so far make whole bytes. */
  ghost predicate WholeBytes(ss: seq<Sent>)
    requires AllLegible(ss)
  {
    forall k | 0 <= k < |ss| && ss[k].Raw? :: |StreamBits(ss[..k + 1])| % 8 == 0
  }

  lemma {:induction false} FlowsOn(ss: seq<Sent>, k: nat, pad: seq<bool>)
    requires AllLegible(ss) && WholeBytes(ss) && k < |ss| && (|StreamBits(ss)| + |pad|) % 8 == 0
    requires forall i | 0 <= i < |ss| :: ss[i].last <==> i == |ss| - 1
    ensures Flows(ss[k..], pad)
    decreases |ss| - k
  {
    hide Legible, BlockBits, StreamBits;
    assert ss[k..][1..] == ss[k + 1..];
    if ss[k].Raw? {
      BitsInTwo(ss, k + 1);
    }
    if k + 1 < |ss| {
      FlowsOn(ss, k + 1, pad);
    }
  }

  lemma WholeBytesNext(ss: seq<Sent>, b: Sent)
    requires AllLegible(ss) && Legible(b) && WholeBytes(ss) && (b.Raw? ==> |StreamBits(ss) + BlockBits(b)| % 8 == 0)
    ensures AllLegible(ss + [b]) && WholeBytes(ss + [b])
  {
    hide Legible, BlockBits, StreamBits;
    OneMoreBlock(ss, b);
    forall k | 0 <= k < |ss + [b]| && (ss + [b])[k].Raw? ensures |StreamBits((ss + [b])[..k + 1])| % 8 == 0 {
      if k < |ss| {
        assert (ss + [b])[..k + 1] == ss[..k + 1];
      } else {
        assert (ss + [b])[..k + 1] == ss + [b];
      }
    }
  }

  function Contents(blocks: seq<Block>): seq<Token> {
    if blocks == [] then [] else Contents(blocks[..|blocks| - 1]) + Content(blocks[|blocks| - 1])
  }

  /** The blocks one after the other, the last marked, and the bits wound up. */
  method DeflateBlocks(blocks: seq<Block>) returns (bytes: seq<byte>, ghost ss: seq<Sent>, ghost pad: seq<bool>)
    requires blocks != [] && forall i | 0 <= i < |blocks| :: DeflateBlock.Sendable(blocks[i])
    ensures Flows(ss, pad) && AllTokens(ss) == Contents(blocks)
    ensures StreamBits(ss) + pad == BytesBits(bytes) && |pad| < 8
  {
    hide Legible, BlockBits, TokensOf, StreamBits, AllTokens, AllBits, BytesBits, DeflateBlock.Sendable, Content, Flows;
    var w := new BitWriter();
    var z := new Trees();
    ss := [];
    NoBlocks();
    for i := 0 to |blocks|
      invariant w.Valid() && z.Valid() && |ss| == i && AllLegible(ss) && WholeBytes(ss) && w.Sent() == StreamBits(ss)
      invariant AllTokens(ss) == Contents(blocks[..i])
      invariant forall k | 0 <= k < i :: ss[k].last <==> k == |blocks| - 1
    {
      ghost var b := FlushBlock(w, z, blocks[i], i == |blocks| - 1);
      OneMoreBlock(ss, b);
      WholeBytesNext(ss, b);
      assert blocks[..i + 1][..i] == blocks[..i];
      ss := ss + [b];
    }
    pad := PadOut(w);
    bytes := w.pending;
    FlowsOn(ss, 0, pad);
    assert ss[0..] == ss && blocks[..|blocks|] == blocks;
  }

  lemma NoBlocks()
    ensures AllLegible([]) && StreamBits([]) == [] && AllTokens([]) == [] && WholeBytes([]) && Contents([]) == []
  {
  }

  // Inflating

  lemma ItemWell(u: Codes, bits: seq<bool>)
    requires BothFit(u)
    ensures var p := ItemAt(u, bits); p.Got? && p.value.Tok? ==> WellFormed([p.value.token])
  {
    hide WordAt, NumberAt;
    BasesPositive();
  }

  lemma BasesPositive()
    ensures forall l | 0 <= l < 29 :: 1 <= LengthBase(l)
    ensures forall d | 0 <= d < 30 :: 1 <= DistanceBase(d)
  {
  }

  lemma WellJoined(a: seq<Token>, b: seq<Token>)
    requires WellFormed(a) && WellFormed(b)
    ensures WellFormed(a + b)
  {
  }

  lemma {:induction false} BodyWell(u: Codes, bits: seq<bool>)
    requires BothFit(u)
    ensures var p := BodyAt(u, bits); p.Got? ==> WellFormed(p.value)
    decreases |bits|
  {
    hide ItemAt, WellFormed;
    ItemWell(u, bits);
    var p := ItemAt(u, bits);
    if p.Got? && p.value.Tok? {
      BodyWell(u, p.rest);
      if BodyAt(u, p.rest).Got? {
        WellJoined([p.value.token], BodyAt(u, p.rest).value);
      }
    } else {
      NoneIsWell();
    }
  }

  lemma NoneIsWell()
    ensures WellFormed([])
  {
  }

  lemma BlockWell(bits: seq<bool>)
    ensures var p := BlockAt(bits); p.Got? ==> WellFormed(p.value.0)
  {
    hide NumberAt, BodyAt, HeaderAt, StoredLengthAt, BytesAt, Aligned, FixedCodes, BothReadable, TwoCodes;
    var p := NumberAt(bits, 3);
    if p.Got? {
      FixedFits();
      BodyWell(FixedCodes(), p.rest);
      HeaderFits(p.rest);
      var q := HeaderAt(p.rest);
      if q.Got? {
        BodyWell(q.value, q.rest);
      }
    }
  }

  lemma {:induction false} StreamWell(bits: seq<bool>)
    ensures var p := StreamAt(bits); p.Got? ==> WellFormed(p.value)
    decreases |bits|
  {
    hide BlockAt, WellFormed;
    BlockWell(bits);
    var p := BlockAt(bits);
    if p.Got? && !p.value.1 {
      StreamWell(p.rest);
      if StreamAt(p.rest).Got? {
        WellJoined(p.value.0, StreamAt(p.rest).value);
      }
    }
  }

  /** `chunks` are the first bytes of `all`, as many as there are or there is room for, every buffer filled
      before the next is begun. */
  ghost predicate Delivers(chunks: seq<seq<byte>>, rooms: seq<nat>, all: seq<byte>) {
    && |chunks| == |rooms| && Flatten(chunks) <= all && |Flatten(chunks)| == Min(|all|, Sum(rooms))
    && Shared(chunks, rooms, |Flatten(chunks)|)
  }

  /** `inflate` on any bytes, cut anywhere, with buffers of any sizes. It is the bits that decide: if they
      are a stream it delivers its plain LZ77 expansion, up to a match that reaches too far back; if they
      are not, it says what is wrong, or that there is more to come. */
  method Inflate(chunks: seq<seq<byte>>, rooms: seq<nat>) returns (res: Reading<seq<seq<byte>>>, refused: bool)
    ensures var p := StreamAt(BytesBits(Flatten(chunks)));
            if !p.Got? then res == Fails(Said(p))
            else
              var plain := Expand([], p.value, 32768);
              && res.Done? && Delivers(res.value, rooms, plain.bytes)
              && (refused ==> plain.rest != [])
              && (plain.rest != [] && |plain.bytes| < Sum(rooms) ==> refused)
  {
    hide Expand, StreamAt, BytesBits, Flatten, Refused, Sum, Told, RefusedAt, Shared;
    refused := false;
    var read := InflateBlocks(chunks);
    if !read.Done? {
      return Fails(read), refused;
    }
    StreamWell(BytesBits(Flatten(chunks)));
    var win := new Window(32768);
    var out, finished;
    ghost var left;
    out, refused, finished, left := InflateStream(win, 32768, [], read.value, rooms, true);
    res := Done(out);
    assert [] + Flatten(out) == Flatten(out);
    NothingLeft(Flatten(out), 32768);
    AtMostRoom(out, rooms);
  }

  lemma AtMostRoom(chunks: seq<seq<byte>>, rooms: seq<nat>)
    requires |chunks| == |rooms| && forall i | 0 <= i < |rooms| :: |chunks[i]| <= rooms[i]
    ensures |Flatten(chunks)| <= Sum(rooms)
    decreases |rooms|
  {
    if rooms != [] {
      var n := |rooms| - 1;
      AtMostRoom(chunks[..n], rooms[..n]);
      assert chunks == chunks[..n] + [chunks[n]];
      FlattenNext(chunks[..n], chunks[n]);
    }
  }

  /** Any data, as tokens in any number of blocks of any kind, deflated and inflated again: whatever the
      input is cut into, and whatever room the output is given, what is delivered is the data, or as much
      of it as there is room for. */
  method InflateDeflated(blocks: seq<Block>, ghost data: seq<byte>, sizes: seq<nat>, rooms: seq<nat>)
    returns (bytes: seq<byte>, res: Reading<seq<seq<byte>>>, ghost ss: seq<Sent>, ghost pad: seq<bool>)
    requires blocks != [] && forall i | 0 <= i < |blocks| :: DeflateBlock.Sendable(blocks[i])
    requires Expand([], Contents(blocks), 32768) == Stop(data, [])
    ensures Flows(ss, pad) && AllTokens(ss) == Contents(blocks) && StreamBits(ss) + pad == BytesBits(bytes)
    ensures res.Done? && Delivers(res.value, rooms, data)
  {
    hide Expand, StreamAt, BytesBits, Flatten, Flows, AllTokens, StreamBits, Delivers, DeflateBlock.Sendable, Contents;
    bytes, ss, pad := DeflateBlocks(blocks);
    StreamIs(ss, pad);
    var refused;
    res, refused := Inflate(Cut(bytes, sizes), rooms);
  }
}

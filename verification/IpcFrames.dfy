/** Octet strings, big-endian integers and UTF-8, as the frame format uses them. */
module Wire {
  import opened Bytes

  datatype ErrorKind = InvalidData | InvalidInput | UnexpectedEof

  datatype Result<+T> = Ok(value: T) | Err(kind: ErrorKind)
  {
    predicate IsFailure() { Err? }

    function PropagateFailure<U>(): Result<U>
      requires Err?
    {
      Err(kind)
    }

    function Extract(): T
      requires Ok?
    {
      value
    }
  }

  type u16 = x: int | 0 <= x < 0x1_0000
  type u32 = x: int | 0 <= x < 0x1_0000_0000
  type u64 = x: int | 0 <= x < 0x1_0000_0000_0000_0000
  type i32 = x: int | -0x8000_0000 <= x < 0x8000_0000

  function Be16(v: u16): (r: seq<byte>)
    ensures |r| == 2
  {
    [v / 256, v % 256]
  }

  function Be32(v: u32): (r: seq<byte>)
    ensures |r| == 4
  {
    Be16(v / 0x1_0000) + Be16(v % 0x1_0000)
  }

  function Be64(v: u64): (r: seq<byte>)
    ensures |r| == 8
  {
    Be32(v / 0x1_0000_0000) + Be32(v % 0x1_0000_0000)
  }

  /** Two's complement. */
  function BeI32(v: i32): (r: seq<byte>)
    ensures |r| == 4
  {
    Be32(if v < 0 then v + 0x1_0000_0000 else v)
  }

  function FromBe16(s: seq<byte>): u16
    requires |s| == 2
  {
    var hi: int := s[0];
    hi * 256 + s[1]
  }

  function FromBe32(s: seq<byte>): u32
    requires |s| == 4
  {
    FromBe16(s[..2]) * 0x1_0000 + FromBe16(s[2..])
  }

  function FromBe64(s: seq<byte>): u64
    requires |s| == 8
  {
    FromBe32(s[..4]) * 0x1_0000_0000 + FromBe32(s[4..])
  }

  function ToI32(v: u32): i32 {
    if v < 0x8000_0000 then v else v - 0x1_0000_0000
  }

  lemma Be32RoundTrip(v: u32)
    ensures FromBe32(Be32(v)) == v
  {
    assert Be32(v)[..2] == Be16(v / 0x1_0000) && Be32(v)[2..] == Be16(v % 0x1_0000);
  }

  lemma Be64RoundTrip(v: u64)
    ensures FromBe64(Be64(v)) == v
  {
    assert Be64(v)[..4] == Be32(v / 0x1_0000_0000) && Be64(v)[4..] == Be32(v % 0x1_0000_0000);
    Be32RoundTrip(v / 0x1_0000_0000);
    Be32RoundTrip(v % 0x1_0000_0000);
  }

  // UTF-8, section 4 of RFC 3629

  predicate Tail(b: byte) { 0x80 <= b <= 0xBF }

  /** The length of the character `s` starts with, or 0. */
  function CharLength(s: seq<byte>): (n: nat)
    ensures n <= |s|
  {
    if s == [] then 0
    else if s[0] < 0x80 then 1
    else if |s| >= 2 && 0xC2 <= s[0] <= 0xDF && Tail(s[1]) then 2
    else if |s| >= 3 && 0xE0 <= s[0] <= 0xEF && Tail(s[1]) && Tail(s[2])
         && (s[0] == 0xE0 ==> s[1] >= 0xA0) && (s[0] == 0xED ==> s[1] <= 0x9F) then 3
    else if |s| >= 4 && 0xF0 <= s[0] <= 0xF4 && Tail(s[1]) && Tail(s[2]) && Tail(s[3])
         && (s[0] == 0xF0 ==> s[1] >= 0x90) && (s[0] == 0xF4 ==> s[1] <= 0x8F) then 4
    else 0
  }

  predicate Utf8(s: seq<byte>)
    decreases |s|
  {
    s == [] || (CharLength(s) > 0 && Utf8(s[CharLength(s)..]))
  }

  /** A Rust `String`, by its bytes. */
  type Str = s: seq<byte> | Utf8(s)

  // Parsers: the value read and what is left

  function PU8(s: seq<byte>): (r: Result<(byte, seq<byte>)>)
    ensures r.Ok? ==> |s| == 1 + |r.value.1|
  {
    if |s| < 1 then Err(UnexpectedEof) else Ok((s[0], s[1..]))
  }

  function PU16(s: seq<byte>): (r: Result<(u16, seq<byte>)>)
    ensures r.Ok? ==> |s| == 2 + |r.value.1|
  {
    if |s| < 2 then Err(UnexpectedEof) else Ok((FromBe16(s[..2]), s[2..]))
  }

  function PU32(s: seq<byte>): (r: Result<(u32, seq<byte>)>)
    ensures r.Ok? ==> |s| == 4 + |r.value.1|
  {
    if |s| < 4 then Err(UnexpectedEof) else Ok((FromBe32(s[..4]), s[4..]))
  }

  function PI32(s: seq<byte>): (r: Result<(i32, seq<byte>)>)
    ensures r.Ok? ==> |s| == 4 + |r.value.1|
  {
    if |s| < 4 then Err(UnexpectedEof) else Ok((ToI32(FromBe32(s[..4])), s[4..]))
  }

  function PU64(s: seq<byte>): (r: Result<(u64, seq<byte>)>)
    ensures r.Ok? ==> |s| == 8 + |r.value.1|
  {
    if |s| < 8 then Err(UnexpectedEof) else Ok((FromBe64(s[..8]), s[8..]))
  }

  function PBytes(s: seq<byte>, n: nat): (r: Result<(seq<byte>, seq<byte>)>)
    ensures r.Ok? ==> |r.value.0| == n && |s| == n + |r.value.1|
  {
    if |s| < n then Err(UnexpectedEof) else Ok((s[..n], s[n..]))
  }

  function PStr(s: seq<byte>, n: nat): (r: Result<(Str, seq<byte>)>)
    ensures r.Ok? ==> |r.value.0| == n && |s| == n + |r.value.1|
  {
    if |s| < n then Err(UnexpectedEof)
    else if Utf8(s[..n]) then Ok((s[..n], s[n..]))
    else Err(InvalidData)
  }

  function PStr16(s: seq<byte>): (r: Result<(Str, seq<byte>)>)
    ensures r.Ok? ==> |r.value.0| <= 0xFFFF && |s| == 2 + |r.value.0| + |r.value.1|
  {
    var (n, s') :- PU16(s);
    PStr(s', n)
  }

  function PStr32(s: seq<byte>): (r: Result<(Str, seq<byte>)>)
    ensures r.Ok? ==> |s| == 4 + |r.value.0| + |r.value.1|
  {
    var (n, s') :- PU32(s);
    PStr(s', n)
  }

  // Each parser undoes its writer

  lemma ReadU8(v: byte, rest: seq<byte>)
    ensures PU8([v] + rest) == Ok((v, rest))
  {
  }

  lemma ReadU16(v: u16, rest: seq<byte>)
    ensures PU16(Be16(v) + rest) == Ok((v, rest))
  {
    var s := Be16(v) + rest;
    assert s[..2] == Be16(v) && s[2..] == rest;
  }

  lemma ReadU32(v: u32, rest: seq<byte>)
    ensures PU32(Be32(v) + rest) == Ok((v, rest))
  {
    var s := Be32(v) + rest;
    assert s[..4] == Be32(v) && s[4..] == rest;
    Be32RoundTrip(v);
  }

  lemma ReadI32(v: i32, rest: seq<byte>)
    ensures PI32(BeI32(v) + rest) == Ok((v, rest))
  {
    var s := BeI32(v) + rest;
    assert s[..4] == BeI32(v) && s[4..] == rest;
    Be32RoundTrip(if v < 0 then v + 0x1_0000_0000 else v);
  }

  lemma ReadU64(v: u64, rest: seq<byte>)
    ensures PU64(Be64(v) + rest) == Ok((v, rest))
  {
    var s := Be64(v) + rest;
    assert s[..8] == Be64(v) && s[8..] == rest;
    Be64RoundTrip(v);
  }

  lemma ReadBytes(x: seq<byte>, rest: seq<byte>)
    ensures PBytes(x + rest, |x|) == Ok((x, rest))
  {
    assert (x + rest)[..|x|] == x && (x + rest)[|x|..] == rest;
  }

  lemma ReadStr(x: Str, rest: seq<byte>)
    ensures PStr(x + rest, |x|) == Ok((x, rest))
  {
    assert (x + rest)[..|x|] == x && (x + rest)[|x|..] == rest;
  }

  // And what a parser has read can be written again

  lemma Be16Back(s: seq<byte>)
    requires |s| == 2
    ensures Be16(FromBe16(s)) == s
  {
  }

  lemma Be32Back(s: seq<byte>)
    requires |s| == 4
    ensures Be32(FromBe32(s)) == s
  {
    Be16Back(s[..2]);
    Be16Back(s[2..]);
    assert FromBe32(s) / 0x1_0000 == FromBe16(s[..2]) && FromBe32(s) % 0x1_0000 == FromBe16(s[2..]);
  }

  lemma Be64Back(s: seq<byte>)
    requires |s| == 8
    ensures Be64(FromBe64(s)) == s
  {
    Be32Back(s[..4]);
    Be32Back(s[4..]);
    assert FromBe64(s) / 0x1_0000_0000 == FromBe32(s[..4]) && FromBe64(s) % 0x1_0000_0000 == FromBe32(s[4..]);
  }

  lemma WriteU32(s: seq<byte>)
    requires PU32(s).Ok?
    ensures s == Be32(PU32(s).value.0) + PU32(s).value.1
  {
    Be32Back(s[..4]);
  }

  lemma WriteI32(s: seq<byte>)
    requires PI32(s).Ok?
    ensures s == BeI32(PI32(s).value.0) + PI32(s).value.1
  {
    Be32Back(s[..4]);
  }

  lemma WriteU64(s: seq<byte>)
    requires PU64(s).Ok?
    ensures s == Be64(PU64(s).value.0) + PU64(s).value.1
  {
    Be64Back(s[..8]);
  }

  lemma WriteStr16(s: seq<byte>)
    requires PStr16(s).Ok?
    ensures s == Be16(|PStr16(s).value.0|) + (PStr16(s).value.0 + PStr16(s).value.1)
  {
    Be16Back(s[..2]);
    assert s == s[..2] + s[2..];
  }

  lemma WriteStr32(s: seq<byte>)
    requires PStr32(s).Ok?
    ensures s == Be32(|PStr32(s).value.0|) + (PStr32(s).value.0 + PStr32(s).value.1)
  {
    WriteU32(s);
  }
}

/** Binary frames between the host and the V8 runtime. */
module IpcFrames {
  import opened Bytes
  import opened Options
  import opened Sequences
  import opened Wire

  const MAX_FRAME_SIZE: nat := 64 * 1024 * 1024

  datatype ExecutionError = ExecutionError(errorType: Str, message: Str, stack: Str, code: Str)

  datatype Frame =
    | Authenticate(token: Str)
    | CreateSession(sid: Str, heapLimitMb: u32, cpuTimeLimitMs: u32)
    | DestroySession(sid: Str)
    | InjectGlobals(sid: Str, payload: seq<byte>)
    | Execute(sid: Str, mode: byte, filePath: Str, bridgeCode: Str, postRestoreScript: Str, userCode: Str)
    | BridgeResponse(sid: Str, callId: u64, status: byte, payload: seq<byte>)
    | StreamEvent(sid: Str, eventType: Str, payload: seq<byte>)
    | TerminateExecution(sid: Str)
    | BridgeCall(sid: Str, callId: u64, bridgeMethod: Str, payload: seq<byte>)
    | ExecutionResult(sid: Str, exitCode: i32, exports: Option<seq<byte>>, error: Option<ExecutionError>)
    | Log(sid: Str, channel: byte, text: Str)
    | StreamCallback(sid: Str, callbackType: Str, payload: seq<byte>)

  // The wire layout

  /** `len() as u32`: the low 32 bits of a length. */
  function Len32(n: nat): u32 { n % 0x1_0000_0000 }

  function Prefix8(s: seq<byte>): seq<byte>
    requires |s| <= 255
  {
    [|s|] + s
  }

  function Prefix16(s: seq<byte>): seq<byte>
    requires |s| <= 0xFFFF
  {
    Be16(|s|) + s
  }

  function Prefix32(s: seq<byte>): seq<byte> { Be32(Len32(|s|)) + s }

  predicate FitsError(e: ExecutionError) {
    |e.errorType| <= 0xFFFF && |e.message| <= 0xFFFF && |e.stack| <= 0xFFFF && |e.code| <= 0xFFFF
  }

  /** No field is too long for its one- or two-byte length. */
  predicate Fits(f: Frame) {
    && (!f.Authenticate? ==> |f.sid| <= 255)
    && match f {
         case Execute(_, _, path, _, _, _) => |path| <= 0xFFFF
         case StreamEvent(_, t, _) => |t| <= 0xFFFF
         case BridgeCall(_, _, m, _) => |m| <= 0xFFFF
         case ExecutionResult(_, _, _, e) => e.Some? ==> FitsError(e.value)
         case StreamCallback(_, t, _) => |t| <= 0xFFFF
         case _ => true
       }
  }

  function ErrorBytes(e: ExecutionError): seq<byte>
    requires FitsError(e)
  {
    Prefix16(e.errorType) + (Prefix16(e.message) + (Prefix16(e.stack) + Prefix16(e.code)))
  }

  function Flags(f: Frame): byte
    requires f.ExecutionResult?
  {
    (if f.exports.Some? then 1 else 0) + (if f.error.Some? then 2 else 0)
  }

  function Code(f: Frame): byte {
    match f
    case Authenticate(_) => 0x01
    case CreateSession(_, _, _) => 0x02
    case DestroySession(_) => 0x03
    case InjectGlobals(_, _) => 0x04
    case Execute(_, _, _, _, _, _) => 0x05
    case BridgeResponse(_, _, _, _) => 0x06
    case StreamEvent(_, _, _) => 0x07
    case TerminateExecution(_) => 0x08
    case BridgeCall(_, _, _, _) => 0x81
    case ExecutionResult(_, _, _, _) => 0x82
    case Log(_, _, _) => 0x83
    case StreamCallback(_, _, _) => 0x84
  }

  /** What follows the session id. */
  function Fields(f: Frame): seq<byte>
    requires Fits(f)
  {
    match f
    case Authenticate(token) => token
    case CreateSession(_, heap, cpu) => Be32(heap) + Be32(cpu)
    case DestroySession(_) => []
    case InjectGlobals(_, payload) => payload
    case Execute(_, mode, path, bridge, script, user) =>
      [mode] + (Prefix16(path) + (Prefix32(bridge) + (Prefix32(script) + user)))
    case BridgeResponse(_, id, status, payload) => Be64(id) + ([status] + payload)
    case StreamEvent(_, t, payload) => Prefix16(t) + payload
    case TerminateExecution(_) => []
    case BridgeCall(_, id, m, payload) => Be64(id) + (Prefix16(m) + payload)
    case ExecutionResult(_, exit, exports, error) =>
      BeI32(exit) + ([Flags(f)]
        + ((if exports.Some? then Prefix32(exports.value) else [])
          + (if error.Some? then ErrorBytes(error.value) else [])))
    case Log(_, channel, text) => [channel] + text
    case StreamCallback(_, t, payload) => Prefix16(t) + payload
  }

  function SessionId(f: Frame): Str { if f.Authenticate? then [] else f.sid }

  function Body(f: Frame): seq<byte>
    requires Fits(f)
  {
    [Code(f)] + (Prefix8(SessionId(f)) + Fields(f))
  }

  /** `encode_frame`. */
  function Encode(f: Frame): Result<seq<byte>> {
    if !Fits(f) then Err(InvalidInput)
    else if |Body(f)| > MAX_FRAME_SIZE then Err(InvalidData)
    else Ok(Be32(|Body(f)|) + Body(f))
  }

  // The decoder

  function DecodeExports(flags: byte, s: seq<byte>): (r: Result<(Option<seq<byte>>, seq<byte>)>)
    ensures r.Ok? ==> |s| == |r.value.1| + if r.value.0.Some? then 4 + |r.value.0.value| else 0
  {
    if flags % 2 == 1 then
      var (n, s1) :- PU32(s);
      var (data, s2) :- PBytes(s1, n);
      Ok((Some(data), s2))
    else Ok((None, s))
  }

  function DecodeError(flags: byte, s: seq<byte>): (r: Result<(Option<ExecutionError>, seq<byte>)>)
    ensures r.Ok? && r.value.0.Some? ==> FitsError(r.value.0.value)
    ensures r.Ok? ==> |s| == |r.value.1| + if r.value.0.Some? then |ErrorBytes(r.value.0.value)| else 0
  {
    if flags / 2 % 2 == 1 then
      var (t, s1) :- PStr16(s);
      var (m, s2) :- PStr16(s1);
      var (k, s3) :- PStr16(s2);
      var (c, s4) :- PStr16(s3);
      Ok((Some(ExecutionError(t, m, k, c)), s4))
    else Ok((None, s))
  }

  function DecodeExecute(sid: Str, s: seq<byte>): Result<Frame> {
    var (mode, s1) :- PU8(s);
    var (path, s2) :- PStr16(s1);
    var (bridge, s3) :- PStr32(s2);
    var (script, s4) :- PStr32(s3);
    var (user, _) :- PStr(s4, |s4|);
    Ok(Execute(sid, mode, path, bridge, script, user))
  }

  function DecodeResult(sid: Str, s: seq<byte>): Result<Frame> {
    var (exit, s1) :- PI32(s);
    var (flags, s2) :- PU8(s1);
    var (exports, s3) :- DecodeExports(flags, s2);
    var (error, _) :- DecodeError(flags, s3);
    Ok(ExecutionResult(sid, exit, exports, error))
  }

  function DecodeFields(code: byte, sid: Str, s: seq<byte>): Result<Frame> {
    if code == 0x01 then
      var (token, _) :- PStr(s, |s|);
      Ok(Authenticate(token))
    else if code == 0x02 then
      var (heap, s1) :- PU32(s);
      var (cpu, _) :- PU32(s1);
      Ok(CreateSession(sid, heap, cpu))
    else if code == 0x03 then Ok(DestroySession(sid))
    else if code == 0x04 then Ok(InjectGlobals(sid, s))
    else if code == 0x05 then DecodeExecute(sid, s)
    else if code == 0x06 then
      var (id, s1) :- PU64(s);
      var (status, s2) :- PU8(s1);
      Ok(BridgeResponse(sid, id, status, s2))
    else if code == 0x07 then
      var (t, s1) :- PStr16(s);
      Ok(StreamEvent(sid, t, s1))
    else if code == 0x08 then Ok(TerminateExecution(sid))
    else if code == 0x81 then
      var (id, s1) :- PU64(s);
      var (m, s2) :- PStr16(s1);
      Ok(BridgeCall(sid, id, m, s2))
    else if code == 0x82 then DecodeResult(sid, s)
    else if code == 0x83 then
      var (channel, s1) :- PU8(s);
      var (text, _) :- PStr(s1, |s1|);
      Ok(Log(sid, channel, text))
    else if code == 0x84 then
      var (t, s1) :- PStr16(s);
      Ok(StreamCallback(sid, t, s1))
    else Err(InvalidData)
  }

  /** `decode_frame`. */
  function Decode(buf: seq<byte>): Result<Frame> {
    if buf == [] then Err(InvalidData)
    else
      var (n, s1) :- PU8(buf[1..]);
      var (sid, s2) :- PStr(s1, n);
      DecodeFields(buf[0], sid, s2)
  }

  // The round trip

  lemma ReadPrefix16(x: Str, rest: seq<byte>)
    requires |x| <= 0xFFFF
    ensures PStr16(Prefix16(x) + rest) == Ok((x, rest))
  {
    assert Prefix16(x) + rest == Be16(|x|) + (x + rest);
    ReadU16(|x|, x + rest);
    ReadStr(x, rest);
  }

  lemma ErrorRoundTrip(e: ExecutionError, rest: seq<byte>, flags: byte)
    requires FitsError(e) && flags / 2 % 2 == 1
    ensures DecodeError(flags, ErrorBytes(e) + rest) == Ok((Some(e), rest))
  {
    var c := Prefix16(e.code) + rest;
    var k := Prefix16(e.stack) + c;
    var m := Prefix16(e.message) + k;
    assert ErrorBytes(e) + rest == Prefix16(e.errorType) + m;
    ReadPrefix16(e.errorType, m);
    ReadPrefix16(e.message, k);
    ReadPrefix16(e.stack, c);
    ReadPrefix16(e.code, rest);
  }

  lemma ReadPrefix32(x: seq<byte>, rest: seq<byte>)
    requires |x| < 0x1_0000_0000
    ensures PU32(Prefix32(x) + rest) == Ok((|x|, x + rest))
  {
    ReadU32(|x|, x + rest);
    Regroup(Be32(|x|), x, rest);
  }

  lemma ExportsRoundTrip(x: seq<byte>, rest: seq<byte>, flags: byte)
    requires |x| < 0x1_0000_0000 && flags % 2 == 1
    ensures DecodeExports(flags, Prefix32(x) + rest) == Ok((Some(x), rest))
  {
    ReadPrefix32(x, rest);
    ReadBytes(x, rest);
  }

  lemma ReadAll(x: Str)
    ensures PStr(x, |x|) == Ok((x, []))
  {
    assert x + [] == x;
    ReadStr(x, []);
  }

  lemma ResultParts(sid: Str, exit: i32, flags: byte, exports: Option<seq<byte>>, error: Option<ExecutionError>,
                    exp: seq<byte>, err: seq<byte>)
    requires DecodeExports(flags, exp) == Ok((exports, err)) && DecodeError(flags, err) == Ok((error, []))
    ensures DecodeResult(sid, BeI32(exit) + ([flags] + exp)) == Ok(ExecutionResult(sid, exit, exports, error))
  {
    ReadI32(exit, [flags] + exp);
    ReadU8(flags, exp);
  }

  lemma OptionalExports(exports: Option<seq<byte>>, err: seq<byte>, flags: byte)
    requires exports.Some? ==> |exports.value| < 0x1_0000_0000
    requires flags % 2 == 1 <==> exports.Some?
    ensures DecodeExports(flags, (if exports.Some? then Prefix32(exports.value) else []) + err) == Ok((exports, err))
  {
    if exports.Some? {
      ExportsRoundTrip(exports.value, err, flags);
    } else {
      assert [] + err == err;
    }
  }

  lemma OptionalError(error: Option<ExecutionError>, flags: byte)
    requires error.Some? ==> FitsError(error.value)
    requires flags / 2 % 2 == 1 <==> error.Some?
    ensures DecodeError(flags, if error.Some? then ErrorBytes(error.value) else []) == Ok((error, []))
  {
    if error.Some? {
      assert ErrorBytes(error.value) + [] == ErrorBytes(error.value);
      ErrorRoundTrip(error.value, [], flags);
    }
  }

  lemma ResultRoundTrip(f: Frame)
    requires Fits(f) && f.ExecutionResult? && (f.exports.Some? ==> |f.exports.value| < 0x1_0000_0000)
    ensures DecodeResult(f.sid, Fields(f)) == Ok(f)
  {
    var err := if f.error.Some? then ErrorBytes(f.error.value) else [];
    OptionalExports(f.exports, err, Flags(f));
    OptionalError(f.error, Flags(f));
    ResultParts(f.sid, f.exitCode, Flags(f), f.exports, f.error,
                (if f.exports.Some? then Prefix32(f.exports.value) else []) + err, err);
  }

  lemma ExecuteRoundTrip(f: Frame)
    requires Fits(f) && f.Execute? && |f.bridgeCode| < 0x1_0000_0000 && |f.postRestoreScript| < 0x1_0000_0000
    ensures DecodeExecute(f.sid, Fields(f)) == Ok(f)
  {
    var s4 := Prefix32(f.postRestoreScript) + f.userCode;
    var s2 := Prefix32(f.bridgeCode) + s4;
    ReadU8(f.mode, Prefix16(f.filePath) + s2);
    ReadPrefix16(f.filePath, s2);
    ReadPrefix32(f.bridgeCode, s4);
    ReadStr(f.bridgeCode, s4);
    ReadPrefix32(f.postRestoreScript, f.userCode);
    ReadStr(f.postRestoreScript, f.userCode);
    ReadAll(f.userCode);
  }

  /** Lengths that went through `as u32` were not cut, in a frame within the size limit. */
  lemma CastsAreExact(f: Frame)
    requires Fits(f) && |Body(f)| <= MAX_FRAME_SIZE
    ensures f.Execute? ==>
              Len32(|f.bridgeCode|) == |f.bridgeCode| && Len32(|f.postRestoreScript|) == |f.postRestoreScript|
    ensures f.ExecutionResult? && f.exports.Some? ==> Len32(|f.exports.value|) == |f.exports.value|
  {
    hide Be16, Be32, Be64, BeI32, ErrorBytes, Fits, Flags;
    assert |Fields(f)| <= |Body(f)|;
    match f
    case Execute(_, mode, path, bridge, script, user) =>
      assert |bridge| + |script| <= |Fields(f)|;
    case ExecutionResult(_, _, exports, _) =>
      assert exports.Some? ==> |exports.value| <= |Fields(f)|;
    case _ =>
  }

  lemma SessionRoundTrip(f: Frame)
    requires Fits(f) && f.CreateSession?
    ensures DecodeFields(Code(f), SessionId(f), Fields(f)) == Ok(f)
  {
    hide Be16, Be32, Be64;
    ReadU32(f.heapLimitMb, Be32(f.cpuTimeLimitMs));
    assert Be32(f.cpuTimeLimitMs) + [] == Be32(f.cpuTimeLimitMs);
    ReadU32(f.cpuTimeLimitMs, []);
  }

  lemma ResponseRoundTrip(f: Frame)
    requires Fits(f) && f.BridgeResponse?
    ensures DecodeFields(Code(f), SessionId(f), Fields(f)) == Ok(f)
  {
    hide Be16, Be32, Be64;
    ReadU64(f.callId, [f.status] + f.payload);
    ReadU8(f.status, f.payload);
  }

  lemma CallRoundTrip(f: Frame)
    requires Fits(f) && f.BridgeCall?
    ensures DecodeFields(Code(f), SessionId(f), Fields(f)) == Ok(f)
  {
    hide Be16, Be32, Be64;
    ReadU64(f.callId, Prefix16(f.bridgeMethod) + f.payload);
    ReadPrefix16(f.bridgeMethod, f.payload);
  }

  /** The frames with at most one field of fixed width. */
  lemma PlainRoundTrip(f: Frame)
    requires Fits(f)
    requires f.Authenticate? || f.DestroySession? || f.InjectGlobals? || f.StreamEvent? || f.TerminateExecution?
             || f.Log? || f.StreamCallback?
    ensures DecodeFields(Code(f), SessionId(f), Fields(f)) == Ok(f)
  {
    hide Be16, Be32, Be64;
    match f
    case Authenticate(token) => ReadAll(token);
    case StreamEvent(_, t, payload) => ReadPrefix16(t, payload);
    case Log(_, channel, text) =>
      ReadU8(channel, text);
      ReadAll(text);
    case StreamCallback(_, t, payload) => ReadPrefix16(t, payload);
    case _ =>
  }

  lemma FieldsRoundTrip(f: Frame)
    requires Fits(f) && |Body(f)| <= MAX_FRAME_SIZE
    ensures DecodeFields(Code(f), SessionId(f), Fields(f)) == Ok(f)
  {
    hide Be16, Be32, Be64, Fields, Fits;
    CastsAreExact(f);
    match f
    case CreateSession(_, _, _) => SessionRoundTrip(f);
    case Execute(_, _, _, _, _, _) => ExecuteRoundTrip(f);
    case BridgeResponse(_, _, _, _) => ResponseRoundTrip(f);
    case BridgeCall(_, _, _, _) => CallRoundTrip(f);
    case ExecutionResult(_, _, _, _) => ResultRoundTrip(f);
    case _ => PlainRoundTrip(f);
  }

  lemma HeadRoundTrip(code: byte, sid: Str, fields: seq<byte>)
    requires |sid| <= 255
    ensures Decode([code] + (Prefix8(sid) + fields)) == DecodeFields(code, sid, fields)
  {
    var buf := [code] + (Prefix8(sid) + fields);
    assert buf[1..] == [|sid|] + (sid + fields);
    ReadU8(|sid|, sid + fields);
    ReadStr(sid, fields);
  }

  lemma BodyRoundTrip(f: Frame)
    requires Fits(f) && |Body(f)| <= MAX_FRAME_SIZE
    ensures Decode(Body(f)) == Ok(f)
  {
    HeadRoundTrip(Code(f), SessionId(f), Fields(f));
    FieldsRoundTrip(f);
  }

  /** Whatever frame encodes, its bytes after the length prefix decode to it. */
  lemma FrameRoundTrip(f: Frame)
    requires Encode(f).Ok?
    ensures |Encode(f).value| >= 4 && Decode(Encode(f).value[4..]) == Ok(f)
  {
    BodyRoundTrip(f);
    assert Encode(f).value[4..] == Body(f);
  }

  // The decoder's normal form

  lemma DecodedFields(code: byte, sid: Str, s: seq<byte>)
    requires |sid| <= 255 && DecodeFields(code, sid, s).Ok?
    ensures var f := DecodeFields(code, sid, s).value;
            Fits(f) && |Prefix8(SessionId(f)) + Fields(f)| <= 1 + |sid| + |s|
  {
    if code == 0x82 {
      DecodedResult(sid, s);
    } else if code == 0x05 {
      DecodedExecute(sid, s);
    }
  }

  lemma DecodedResult(sid: Str, s: seq<byte>)
    requires |sid| <= 255 && DecodeResult(sid, s).Ok?
    ensures var f := DecodeResult(sid, s).value;
            f.ExecutionResult? && f.sid == sid && Fits(f) && |Fields(f)| <= |s|
  {
  }

  lemma DecodedExecute(sid: Str, s: seq<byte>)
    requires |sid| <= 255 && DecodeExecute(sid, s).Ok?
    ensures var f := DecodeExecute(sid, s).value;
            f.Execute? && f.sid == sid && Fits(f) && |Fields(f)| <= |s|
  {
  }

  /** Whatever bytes the decoder accepts, trailing bytes, unknown flag bits and a stray
      session id included, the frame encodes again, no longer than the input, and that
      encoding decodes to the same frame. */
  lemma NormalForm(buf: seq<byte>)
    requires |buf| <= MAX_FRAME_SIZE && Decode(buf).Ok?
    ensures Encode(Decode(buf).value).Ok?
    ensures |Encode(Decode(buf).value).value| <= 4 + |buf|
    ensures Decode(Encode(Decode(buf).value).value[4..]) == Decode(buf)
  {
    var f := Decode(buf).value;
    var (n, s1) := PU8(buf[1..]).value;
    var (sid, s2) := PStr(s1, n).value;
    DecodedFields(buf[0], sid, s2);
    FrameRoundTrip(f);
  }

  /** The bytes of `s` that no field takes. */
  function Trailing(code: byte, sid: Str, s: seq<byte>): seq<byte>
    requires DecodeFields(code, sid, s).Ok?
  {
    if code == 0x02 then s[8..]
    else if code == 0x03 || code == 0x08 then s
    else if code == 0x82 then
      var (exports, s3) := DecodeExports(s[4], s[5..]).value;
      DecodeError(s[4], s3).value.1
    else []
  }

  /** No stray session id, no bytes left over, no unknown flag. */
  predicate Canonical(buf: seq<byte>)
    requires Decode(buf).Ok?
  {
    var (n, s1) := PU8(buf[1..]).value;
    var (sid, s) := PStr(s1, n).value;
    && (buf[0] == 0x01 ==> sid == []) && Trailing(buf[0], sid, s) == []
    && (buf[0] == 0x82 ==> s[4] < 4)
  }

  lemma WritePrefix16(s: seq<byte>)
    requires PStr16(s).Ok?
    ensures s == Prefix16(PStr16(s).value.0) + PStr16(s).value.1
  {
    WriteStr16(s);
    Regroup(Be16(|PStr16(s).value.0|), PStr16(s).value.0, PStr16(s).value.1);
  }

  lemma WritePrefix32(s: seq<byte>)
    requires PStr32(s).Ok?
    ensures s == Prefix32(PStr32(s).value.0) + PStr32(s).value.1
  {
    WriteStr32(s);
    Regroup(Be32(|PStr32(s).value.0|), PStr32(s).value.0, PStr32(s).value.1);
  }

  lemma Chain4<T>(a: seq<T>, b: seq<T>, c: seq<T>, d: seq<T>, rest: seq<T>)
    ensures a + (b + (c + (d + rest))) == (a + (b + (c + d))) + rest
  {
    Regroup(a, b + (c + d), rest);
    Regroup(b, c + d, rest);
    Regroup(c, d, rest);
  }

  lemma WriteError(flags: byte, s: seq<byte>)
    requires DecodeError(flags, s).Ok?
    ensures var (e, rest) := DecodeError(flags, s).value;
            s == (if e.Some? then ErrorBytes(e.value) else []) + rest
  {
    hide PStr16, Prefix16;
    if flags / 2 % 2 == 1 {
      var (t, s1) := PStr16(s).value;
      var (m, s2) := PStr16(s1).value;
      var (k, s3) := PStr16(s2).value;
      var (c, s4) := PStr16(s3).value;
      WritePrefix16(s);
      WritePrefix16(s1);
      WritePrefix16(s2);
      WritePrefix16(s3);
      Chain4(Prefix16(t), Prefix16(m), Prefix16(k), Prefix16(c), s4);
    } else {
      assert [] + s == s;
    }
  }

  lemma WriteExports(flags: byte, s: seq<byte>)
    requires DecodeExports(flags, s).Ok?
    ensures var (x, rest) := DecodeExports(flags, s).value;
            s == (if x.Some? then Prefix32(x.value) else []) + rest
  {
    hide PU32, Be32;
    if flags % 2 == 1 {
      WriteU32(s);
      var (n, s1) := PU32(s).value;
      var (data, s2) := PBytes(s1, n).value;
      assert s1 == data + s2;
      Regroup(Be32(n), data, s2);
      assert Len32(n) == n;
    } else {
      assert [] + s == s;
    }
  }

  lemma WriteResult(sid: Str, s: seq<byte>)
    requires |sid| <= 255 && DecodeResult(sid, s).Ok? && s[4] < 4
    ensures var f := DecodeResult(sid, s).value; Fits(f) && s == Fields(f) + Trailing(0x82, sid, s)
  {
    hide PI32, DecodeExports, DecodeError, Prefix32, ErrorBytes, BeI32, ResultBytes;
    DecodedResult(sid, s);
    var (exit, s1) := PI32(s).value;
    SkipI32(s);
    var (flags, s2) := PU8(s1).value;
    var (x, s3) := DecodeExports(flags, s2).value;
    var (e, s4) := DecodeError(flags, s3).value;
    ResultWritten(s, exit, flags, s2, x, s3, e, s4);
    assert s == Fields(ExecutionResult(sid, exit, x, e)) + s4 by { ResultIsFields(sid, exit, flags, x, e); }
  }

  lemma ResultIsFields(sid: Str, exit: i32, flags: byte, x: Option<seq<byte>>, e: Option<ExecutionError>)
    requires |sid| <= 255 && (e.Some? ==> FitsError(e.value))
    requires flags == (if x.Some? then 1 else 0) + if e.Some? then 2 else 0
    ensures Fits(ExecutionResult(sid, exit, x, e))
    ensures Fields(ExecutionResult(sid, exit, x, e)) == ResultBytes(exit, flags, x, e)
  {
    hide BeI32, Prefix32, ErrorBytes;
  }

  lemma ResultWritten(s: seq<byte>, exit: i32, flags: byte, s2: seq<byte>, x: Option<seq<byte>>, s3: seq<byte>,
                      e: Option<ExecutionError>, s4: seq<byte>)
    requires PI32(s) == Ok((exit, [flags] + s2)) && flags < 4
    requires DecodeExports(flags, s2) == Ok((x, s3)) && DecodeError(flags, s3) == Ok((e, s4))
    ensures (e.Some? ==> FitsError(e.value)) && s == ResultBytes(exit, flags, x, e) + s4
    ensures flags == (if x.Some? then 1 else 0) + if e.Some? then 2 else 0
  {
    hide PI32, DecodeExports, DecodeError, Prefix32, ErrorBytes, BeI32, FitsError;
    WriteI32(s);
    WriteExports(flags, s2);
    WriteError(flags, s3);
    FlagsOf(flags, s2, s3);
    var xs, es := if x.Some? then Prefix32(x.value) else [], if e.Some? then ErrorBytes(e.value) else [];
    Chain4(BeI32(exit), [flags], xs, es, s4);
  }

  function ResultBytes(exit: i32, flags: byte, x: Option<seq<byte>>, e: Option<ExecutionError>): seq<byte>
    requires e.Some? ==> FitsError(e.value)
  {
    BeI32(exit) + ([flags] + ((if x.Some? then Prefix32(x.value) else [])
        + (if e.Some? then ErrorBytes(e.value) else [])))
  }

  lemma SkipI32(s: seq<byte>)
    requires |s| >= 5
    ensures PI32(s).Ok? && PI32(s).value.1[0] == s[4] && PI32(s).value.1[1..] == s[5..]
    ensures PI32(s).value.1 == [s[4]] + s[5..]
  {
  }

  lemma FlagsOf(flags: byte, s: seq<byte>, s3: seq<byte>)
    requires flags < 4 && DecodeExports(flags, s).Ok? && DecodeError(flags, s3).Ok?
    ensures flags == (if DecodeExports(flags, s).value.0.Some? then 1 else 0)
            + if DecodeError(flags, s3).value.0.Some? then 2 else 0
  {
    hide PU32, PBytes, PStr16;
  }

  lemma WriteExecute(sid: Str, s: seq<byte>)
    requires |sid| <= 255 && DecodeExecute(sid, s).Ok?
    ensures var f := DecodeExecute(sid, s).value; Fits(f) && s == Fields(f)
  {
    hide PStr16, PStr32, Prefix16, Prefix32;
    DecodedExecute(sid, s);
    var (mode, s1) := PU8(s).value;
    var (path, s2) := PStr16(s1).value;
    var (bridge, s3) := PStr32(s2).value;
    var (script, s4) := PStr32(s3).value;
    WritePrefix16(s1);
    WritePrefix32(s2);
    WritePrefix32(s3);
    assert s == [mode] + s1 && PStr(s4, |s4|).value.0 == s4;
  }

  lemma WriteFields(code: byte, sid: Str, s: seq<byte>)
    requires |sid| <= 255 && DecodeFields(code, sid, s).Ok? && (code == 0x82 ==> |s| >= 5 && s[4] < 4)
    ensures var f := DecodeFields(code, sid, s).value;
            Fits(f) && Code(f) == code && SessionId(f) == (if code == 0x01 then [] else sid)
                && s == Fields(f) + Trailing(code, sid, s)
  {
    hide PStr16, PU32, PU64, Prefix16, Be32, Be64, DecodeResult, DecodeExecute;
    DecodedFields(code, sid, s);
    if code == 0x02 {
      WriteU32(s);
      var s1 := PU32(s).value.1;
      WriteU32(s1);
      Regroup(Be32(PU32(s).value.0), Be32(PU32(s1).value.0), PU32(s1).value.1);
      SkipU32s(s);
    } else if code == 0x05 {
      DecodedExecute(sid, s);
      WriteExecute(sid, s);
    } else if code == 0x06 {
      WriteU64(s);
      var s1 := PU64(s).value.1;
      assert s1 == [s1[0]] + s1[1..];
    } else if code == 0x07 || code == 0x84 {
      WritePrefix16(s);
    } else if code == 0x81 {
      WriteU64(s);
      WritePrefix16(PU64(s).value.1);
    } else if code == 0x82 {
      DecodedResult(sid, s);
      WriteResult(sid, s);
    } else if code == 0x83 {
      assert s == [s[0]] + s[1..];
    }
  }

  lemma SkipU32s(s: seq<byte>)
    requires PU32(s).Ok? && PU32(PU32(s).value.1).Ok?
    ensures |s| >= 8 && PU32(PU32(s).value.1).value.1 == s[8..]
  {
  }

  lemma BytesCanonical(buf: seq<byte>)
    requires |buf| <= MAX_FRAME_SIZE && Decode(buf).Ok? && Canonical(buf)
    ensures Fits(Decode(buf).value) && Body(Decode(buf).value) == buf
  {
    hide DecodeFields, Trailing, Fields, Fits;
    var (n, s1) := PU8(buf[1..]).value;
    var (sid, s) := PStr(s1, n).value;
    ResultSize(buf[0], sid, s);
    WriteFields(buf[0], sid, s);
    assert s1 == sid + s && buf == [buf[0]] + ([n] + s1);
    Regroup([n], sid, s);
  }

  /** Exactly the bytes with nothing left over survive being decoded and encoded. */
  lemma ReencodesIffCanonical(buf: seq<byte>)
    requires |buf| <= MAX_FRAME_SIZE && Decode(buf).Ok?
    ensures Encode(Decode(buf).value).Ok?
    ensures Encode(Decode(buf).value).value[4..] == buf <==> Canonical(buf)
  {
    NormalForm(buf);
    var f := Decode(buf).value;
    assert Encode(f).value[4..] == Body(f);
    if Canonical(buf) {
      BytesCanonical(buf);
    }
    if Body(f) == buf {
      BodyCanonical(f, buf);
    }
  }

  lemma ResultSize(code: byte, sid: Str, s: seq<byte>)
    requires DecodeFields(code, sid, s).Ok?
    ensures code == 0x82 ==> |s| >= 5
  {
  }

  lemma BodyCanonical(f: Frame, buf: seq<byte>)
    requires Fits(f) && |Body(f)| <= MAX_FRAME_SIZE && buf == Body(f) && Decode(buf).Ok?
    ensures Canonical(buf)
  {
    hide DecodeFields, Trailing, Fields, Fits;
    var sid, s := SessionId(f), Fields(f);
    assert buf[1..] == [|sid|] + (sid + s);
    ReadU8(|sid|, sid + s);
    ReadStr(sid, s);
    FieldsTaken(f);
  }

  lemma FieldsTaken(f: Frame)
    requires Fits(f) && |Body(f)| <= MAX_FRAME_SIZE
    ensures DecodeFields(Code(f), SessionId(f), Fields(f)).Ok? && Trailing(Code(f), SessionId(f), Fields(f)) == []
    ensures f.ExecutionResult? ==> |Fields(f)| >= 5 && Fields(f)[4] < 4
  {
    hide DecodeExecute, DecodeResult, PStr16, Prefix16, Prefix32, ErrorBytes;
    FieldsRoundTrip(f);
    CastsAreExact(f);
    if f.ExecutionResult? {
      ResultTakesAll(f);
    }
  }

  lemma ResultTakesAll(f: Frame)
    requires Fits(f) && f.ExecutionResult? && (f.exports.Some? ==> |f.exports.value| < 0x1_0000_0000)
    ensures DecodeResult(f.sid, Fields(f)).Ok? && Trailing(0x82, f.sid, Fields(f)) == []
    ensures |Fields(f)| >= 5 && Fields(f)[4] == Flags(f)
  {
    ResultRoundTrip(f);
    var err := if f.error.Some? then ErrorBytes(f.error.value) else [];
    var exp := (if f.exports.Some? then Prefix32(f.exports.value) else []) + err;
    assert Fields(f)[4] == Flags(f) && Fields(f)[5..] == exp;
    OptionalExports(f.exports, err, Flags(f));
    OptionalError(f.error, Flags(f));
  }

  // The stream

  /** `read_frame`: the frame and what is left of the stream. */
  function ReadFrame(s: seq<byte>): Result<(Frame, seq<byte>)> {
    var (n, s1) :- PU32(s);
    if n > 64 * 1024 * 1024 then Err(InvalidData)
    else
      var (buf, s2) :- PBytes(s1, n);
      var f :- Decode(buf);
      Ok((f, s2))
  }

  lemma StreamStep(f: Frame, rest: seq<byte>)
    requires Encode(f).Ok?
    ensures ReadFrame(Encode(f).value + rest) == Ok((f, rest))
  {
    hide Decode, Fits, Body;
    var body := Body(f);
    assert Encode(f).value + rest == Be32(|body|) + (body + rest);
    ReadU32(|body|, body + rest);
    ReadBytes(body, rest);
    BodyRoundTrip(f);
  }

  /** The bytes of a list of frames. */
  function Sent(fs: seq<Frame>): seq<byte>
    requires forall i :: 0 <= i < |fs| ==> Encode(fs[i]).Ok?
  {
    if fs == [] then [] else Encode(fs[0]).value + Sent(fs[1..])
  }

  /** Reading `n` frames from a stream. */
  function ReadFrames(s: seq<byte>, n: nat): Result<(seq<Frame>, seq<byte>)>
    decreases n
  {
    if n == 0 then Ok(([], s))
    else
      var (f, s1) :- ReadFrame(s);
      var (fs, s2) :- ReadFrames(s1, n - 1);
      Ok(([f] + fs, s2))
  }

  /** Reading back a list of frames gives the list and uses up exactly its bytes. */
  lemma {:induction false} StreamRoundTrip(fs: seq<Frame>, rest: seq<byte>)
    requires forall i :: 0 <= i < |fs| ==> Encode(fs[i]).Ok?
    ensures ReadFrames(Sent(fs) + rest, |fs|) == Ok((fs, rest))
    decreases |fs|
  {
    hide ReadFrame, Encode;
    if fs == [] {
      assert Sent(fs) + rest == rest;
    } else {
      StreamFirst(fs[0], fs[1..], Sent(fs[1..]), rest);
      StreamRoundTrip(fs[1..], rest);
      assert fs == [fs[0]] + fs[1..];
    }
  }

  lemma StreamFirst(f: Frame, fs: seq<Frame>, more: seq<byte>, rest: seq<byte>)
    requires Encode(f).Ok?
    ensures ReadFrame((Encode(f).value + more) + rest) == Ok((f, more + rest))
  {
    Regroup(Encode(f).value, more, rest);
    StreamStep(f, more + rest);
  }

  /** No encoded frame is a proper prefix of another. */
  lemma EncodingsPrefixFree(f: Frame, g: Frame)
    requires Encode(f).Ok? && Encode(g).Ok? && Encode(f).value <= Encode(g).value
    ensures f == g
  {
    var a, b := Encode(f).value, Encode(g).value;
    assert b == a + b[|a|..] && b == b + [];
    StreamStep(f, b[|a|..]);
    StreamStep(g, []);
  }

  // The code itself: a growing buffer and a cursor

  /** The `Vec<u8>` the encoder appends to. */
  class FrameBuffer {
    var buf: seq<byte>

    constructor ()
      ensures buf == []
    {
      buf := [];
    }

    method Extend(bytes: seq<byte>)
      modifies this
      ensures buf == old(buf) + bytes
    {
      buf := buf + bytes;
    }

    method WriteSessionId(sid: Str) returns (ok: bool)
      modifies this
      ensures ok <==> |sid| <= 255
      ensures ok ==> buf == old(buf) + Prefix8(sid)
    {
      if |sid| > 255 {
        return false;
      }
      buf := buf + [|sid|];
      buf := buf + sid;
      return true;
    }

    method WriteLenPrefixed16(s: Str) returns (ok: bool)
      modifies this
      ensures ok <==> |s| <= 0xFFFF
      ensures ok ==> buf == old(buf) + Prefix16(s)
    {
      if |s| > 0xFFFF {
        return false;
      }
      buf := buf + Be16(|s|);
      buf := buf + s;
      return true;
    }

    method WriteLen32(s: seq<byte>)
      modifies this
      ensures buf == old(buf) + Prefix32(s)
    {
      buf := buf + Be32(Len32(|s|));
      buf := buf + s;
    }

    method WriteError(e: ExecutionError) returns (ok: bool)
      modifies this
      ensures ok <==> FitsError(e)
      ensures ok ==> buf == old(buf) + ErrorBytes(e)
    {
      ok := WriteLenPrefixed16(e.errorType);
      if !ok { return; }
      ok := WriteLenPrefixed16(e.message);
      if !ok { return; }
      ok := WriteLenPrefixed16(e.stack);
      if !ok { return; }
      ok := WriteLenPrefixed16(e.code);
      if ok {
        Regroup4(old(buf), Prefix16(e.errorType), Prefix16(e.message), Prefix16(e.stack), Prefix16(e.code));
      }
    }

    method WriteExecute(f: Frame) returns (ok: bool)
      requires f.Execute? && |f.sid| <= 255
      modifies this
      ensures ok <==> Fits(f)
      ensures ok ==> buf == old(buf) + Fields(f)
    {
      Extend([f.mode]);
      ok := WriteLenPrefixed16(f.filePath);
      if !ok { return; }
      WriteLen32(f.bridgeCode);
      WriteLen32(f.postRestoreScript);
      Extend(f.userCode);
      Regroup5(old(buf), [f.mode], Prefix16(f.filePath), Prefix32(f.bridgeCode), Prefix32(f.postRestoreScript),
               f.userCode);
    }

    method WriteExports(exports: Option<seq<byte>>)
      modifies this
      ensures buf == old(buf) + if exports.Some? then Prefix32(exports.value) else []
    {
      if exports.Some? {
        WriteLen32(exports.value);
      }
    }

    method WriteErrorField(error: Option<ExecutionError>) returns (ok: bool)
      modifies this
      ensures ok <==> (error.Some? ==> FitsError(error.value))
      ensures ok ==> buf == old(buf) + if error.Some? then ErrorBytes(error.value) else []
    {
      ok := true;
      if error.Some? {
        ok := WriteError(error.value);
      }
    }

    method WriteResult(f: Frame) returns (ok: bool)
      requires f.ExecutionResult? && |f.sid| <= 255
      modifies this
      ensures ok <==> Fits(f)
      ensures ok ==> buf == old(buf) + Fields(f)
    {
      ok := true;
      Extend(BeI32(f.exitCode));
      var flags := 0;
      if f.exports.Some? { flags := flags + 1; }
      if f.error.Some? { flags := flags + 2; }
      Extend([flags]);
      ghost var exports := if f.exports.Some? then Prefix32(f.exports.value) else [];
      WriteExports(f.exports);
      ok := WriteErrorField(f.error);
      if ok {
        Regroup4(old(buf), BeI32(f.exitCode), [flags], exports,
                 if f.error.Some? then ErrorBytes(f.error.value) else []);
      }
    }

    /** The part of `encode_body` after the session id. */
    method WriteFields(f: Frame) returns (ok: bool)
      requires f.Authenticate? || |f.sid| <= 255
      modifies this
      ensures ok <==> Fits(f)
      ensures ok ==> buf == old(buf) + Fields(f)
    {
      ok := true;
      match f
      case Authenticate(token) => Extend(token);
      case CreateSession(_, heap, cpu) =>
        Extend(Be32(heap));
        Extend(Be32(cpu));
        Regroup(old(buf), Be32(heap), Be32(cpu));
      case DestroySession(_) =>
      case InjectGlobals(_, payload) => Extend(payload);
      case Execute(_, _, _, _, _, _) => ok := WriteExecute(f);
      case BridgeResponse(_, id, status, payload) =>
        Extend(Be64(id));
        Extend([status]);
        Extend(payload);
        Regroup3(old(buf), Be64(id), [status], payload);
      case StreamEvent(_, t, payload) =>
        ok := WriteLenPrefixed16(t);
        if !ok { return; }
        Extend(payload);
        Regroup(old(buf), Prefix16(t), payload);
      case TerminateExecution(_) =>
      case BridgeCall(_, id, m, payload) =>
        Extend(Be64(id));
        ok := WriteLenPrefixed16(m);
        if !ok { return; }
        Extend(payload);
        Regroup3(old(buf), Be64(id), Prefix16(m), payload);
      case ExecutionResult(_, _, _, _) => ok := WriteResult(f);
      case Log(_, channel, text) =>
        Extend([channel]);
        Extend(text);
        Regroup(old(buf), [channel], text);
      case StreamCallback(_, t, payload) =>
        ok := WriteLenPrefixed16(t);
        if !ok { return; }
        Extend(payload);
        Regroup(old(buf), Prefix16(t), payload);
    }

    /** The message type and the session id; `Authenticate` carries an empty one. */
    method WriteHead(code: byte, f: Frame) returns (ok: bool)
      modifies this
      ensures ok <==> |SessionId(f)| <= 255
      ensures ok ==> buf == (old(buf) + [code]) + Prefix8(SessionId(f))
    {
      Extend([code]);
      if f.Authenticate? {
        Extend([0]);
        assert Prefix8([]) == [0];
        return true;
      }
      ok := WriteSessionId(f.sid);
    }

    /** `encode_body`. */
    method EncodeBody(f: Frame) returns (ok: bool)
      modifies this
      ensures ok <==> Fits(f)
      ensures ok ==> buf == old(buf) + Body(f)
    {
      ok := WriteHead(Code(f), f);
      if !ok { return; }
      ok := WriteFields(f);
      if ok {
        Regroup3(old(buf), [Code(f)], Prefix8(SessionId(f)), Fields(f));
      }
    }
  }

  /** `encode_frame`: reserve four bytes, write the body, patch the length in. */
  method EncodeFrame(f: Frame) returns (r: Result<seq<byte>>)
    ensures r == Encode(f)
  {
    var b := new FrameBuffer();
    b.Extend([0, 0, 0, 0]);
    var ok := b.EncodeBody(f);
    if !ok {
      return Err(InvalidInput);
    }
    var total := |b.buf| - 4;
    if total > MAX_FRAME_SIZE {
      return Err(InvalidData);
    }
    return Ok(Be32(total) + b.buf[4..]);
  }

  /** A frame's bytes and the position the readers advance. */
  class Cursor {
    const buf: seq<byte>
    var pos: nat

    ghost predicate Valid()
      reads this
    {
      pos <= |buf|
    }

    /** What is still to be read. */
    ghost function Rest(): seq<byte>
      requires Valid()
      reads this
    {
      buf[pos..]
    }

    constructor (buf: seq<byte>, pos: nat)
      requires pos <= |buf|
      ensures Valid() && Rest() == buf[pos..] && this.buf == buf && this.pos == pos
    {
      this.buf, this.pos := buf, pos;
    }

    method ReadU8() returns (r: Result<byte>)
      requires Valid()
      modifies this
      ensures Valid()
      ensures match PU8(old(Rest())) case Ok((v, rest)) => r == Ok(v) && Rest() == rest case Err(k) => r == Err(k)
    {
      if pos >= |buf| {
        return Err(UnexpectedEof);
      }
      var v := buf[pos];
      pos := pos + 1;
      return Ok(v);
    }

    method ReadU16() returns (r: Result<u16>)
      requires Valid()
      modifies this
      ensures Valid()
      ensures match PU16(old(Rest())) case Ok((v, rest)) => r == Ok(v) && Rest() == rest case Err(k) => r == Err(k)
    {
      if pos + 2 > |buf| {
        return Err(UnexpectedEof);
      }
      assert buf[pos..][..2] == [buf[pos], buf[pos + 1]];
      var v := FromBe16([buf[pos], buf[pos + 1]]);
      pos := pos + 2;
      return Ok(v);
    }

    method ReadU32() returns (r: Result<u32>)
      requires Valid()
      modifies this
      ensures Valid()
      ensures match PU32(old(Rest())) case Ok((v, rest)) => r == Ok(v) && Rest() == rest case Err(k) => r == Err(k)
    {
      if pos + 4 > |buf| {
        return Err(UnexpectedEof);
      }
      assert buf[pos..][..4] == [buf[pos], buf[pos + 1], buf[pos + 2], buf[pos + 3]];
      var v := FromBe32([buf[pos], buf[pos + 1], buf[pos + 2], buf[pos + 3]]);
      pos := pos + 4;
      return Ok(v);
    }

    method ReadI32() returns (r: Result<i32>)
      requires Valid()
      modifies this
      ensures Valid()
      ensures match PI32(old(Rest())) case Ok((v, rest)) => r == Ok(v) && Rest() == rest case Err(k) => r == Err(k)
    {
      if pos + 4 > |buf| {
        return Err(UnexpectedEof);
      }
      assert buf[pos..][..4] == [buf[pos], buf[pos + 1], buf[pos + 2], buf[pos + 3]];
      var v := ToI32(FromBe32([buf[pos], buf[pos + 1], buf[pos + 2], buf[pos + 3]]));
      pos := pos + 4;
      return Ok(v);
    }

    method ReadU64() returns (r: Result<u64>)
      requires Valid()
      modifies this
      ensures Valid()
      ensures match PU64(old(Rest())) case Ok((v, rest)) => r == Ok(v) && Rest() == rest case Err(k) => r == Err(k)
    {
      if pos + 8 > |buf| {
        return Err(UnexpectedEof);
      }
      assert buf[pos..][..8] == buf[pos..pos + 8];
      var v := FromBe64(buf[pos..pos + 8]);
      pos := pos + 8;
      return Ok(v);
    }

    method ReadStr(len: nat) returns (r: Result<Str>)
      requires Valid()
      modifies this
      ensures Valid()
      ensures match PStr(old(Rest()), len) case Ok((v, rest)) => r == Ok(v) && Rest() == rest case Err(k) => r == Err(k)
    {
      if pos + len > |buf| {
        return Err(UnexpectedEof);
      }
      assert buf[pos..][..len] == buf[pos..pos + len];
      var s := buf[pos..pos + len];
      if !Utf8(s) {
        return Err(InvalidData);
      }
      pos := pos + len;
      return Ok(s);
    }

    method ReadBytes(len: nat) returns (r: Result<seq<byte>>)
      requires Valid()
      modifies this
      ensures Valid()
      ensures match PBytes(old(Rest()), len) {
                case Ok((v, rest)) => r == Ok(v) && Rest() == rest
                case Err(k) => r == Err(k)
              }
    {
      if pos + len > |buf| {
        return Err(UnexpectedEof);
      }
      assert buf[pos..][..len] == buf[pos..pos + len];
      var data := buf[pos..pos + len];
      pos := pos + len;
      return Ok(data);
    }

    method ReadLenPrefixed16() returns (r: Result<Str>)
      requires Valid()
      modifies this
      ensures Valid()
      ensures match PStr16(old(Rest())) case Ok((v, rest)) => r == Ok(v) && Rest() == rest case Err(k) => r == Err(k)
    {
      var len :- ReadU16();
      r := ReadStr(len);
    }

    method ReadLenPrefixed32() returns (r: Result<Str>)
      requires Valid()
      modifies this
      ensures Valid()
      ensures match PStr32(old(Rest())) case Ok((v, rest)) => r == Ok(v) && Rest() == rest case Err(k) => r == Err(k)
    {
      var len :- ReadU32();
      r := ReadStr(len);
    }

    method ReadExecute(sid: Str) returns (r: Result<Frame>)
      requires Valid()
      modifies this
      ensures r == DecodeExecute(sid, old(Rest()))
    {
      hide PU8, PStr16, PStr32;
      var mode :- ReadU8();
      var path :- ReadLenPrefixed16();
      var bridge :- ReadLenPrefixed32();
      var script :- ReadLenPrefixed32();
      var user :- ReadStr(|buf| - pos);
      return Ok(Execute(sid, mode, path, bridge, script, user));
    }

    method ReadError() returns (r: Result<ExecutionError>)
      requires Valid()
      modifies this
      ensures forall flags: byte | flags / 2 % 2 == 1 ::
                match DecodeError(flags, old(Rest())) {
                  case Ok((v, _)) => v.Some? && r == Ok(v.value)
                  case Err(k) => r == Err(k)
                }
    {
      var t :- ReadLenPrefixed16();
      var m :- ReadLenPrefixed16();
      var k :- ReadLenPrefixed16();
      var c :- ReadLenPrefixed16();
      return Ok(ExecutionError(t, m, k, c));
    }

    method ReadResult(sid: Str) returns (r: Result<Frame>)
      requires Valid()
      modifies this
      ensures r == DecodeResult(sid, old(Rest()))
    {
      hide PI32, PU32, PBytes, PU8;
      var exit :- ReadI32();
      var flags :- ReadU8();
      var exports: Option<seq<byte>> := None;
      if flags % 2 == 1 {
        var n :- ReadU32();
        var data :- ReadBytes(n);
        exports := Some(data);
      }
      var error: Option<ExecutionError> := None;
      if flags / 2 % 2 == 1 {
        var e :- ReadError();
        error := Some(e);
      }
      return Ok(ExecutionResult(sid, exit, exports, error));
    }

    method ReadFields(code: byte, sid: Str) returns (r: Result<Frame>)
      requires Valid()
      modifies this
      ensures r == DecodeFields(code, sid, old(Rest()))
    {
      if code == 0x01 {
        var token :- ReadStr(|buf| - pos);
        return Ok(Authenticate(token));
      } else if code == 0x02 {
        var heap :- ReadU32();
        var cpu :- ReadU32();
        return Ok(CreateSession(sid, heap, cpu));
      } else if code == 0x03 {
        return Ok(DestroySession(sid));
      } else if code == 0x04 {
        return Ok(InjectGlobals(sid, buf[pos..]));
      } else if code == 0x05 {
        r := ReadExecute(sid);
      } else if code == 0x06 {
        var id :- ReadU64();
        var status :- ReadU8();
        return Ok(BridgeResponse(sid, id, status, buf[pos..]));
      } else if code == 0x07 {
        var t :- ReadLenPrefixed16();
        return Ok(StreamEvent(sid, t, buf[pos..]));
      } else if code == 0x08 {
        return Ok(TerminateExecution(sid));
      } else if code == 0x81 {
        var id :- ReadU64();
        var m :- ReadLenPrefixed16();
        return Ok(BridgeCall(sid, id, m, buf[pos..]));
      } else if code == 0x82 {
        r := ReadResult(sid);
      } else if code == 0x83 {
        var channel :- ReadU8();
        var text :- ReadStr(|buf| - pos);
        return Ok(Log(sid, channel, text));
      } else if code == 0x84 {
        var t :- ReadLenPrefixed16();
        return Ok(StreamCallback(sid, t, buf[pos..]));
      } else {
        return Err(InvalidData);
      }
    }
  }

  /** `decode_frame`. */
  method DecodeFrame(buf: seq<byte>) returns (r: Result<Frame>)
    ensures r == Decode(buf)
  {
    if buf == [] {
      return Err(InvalidData);
    }
    var c := new Cursor(buf, 1);
    var n :- c.ReadU8();
    var sid :- c.ReadStr(n);
    r := c.ReadFields(buf[0], sid);
  }

  /** The two ends of the connection. */
  class Connection {
    var incoming: seq<byte>
    var outgoing: seq<byte>

    /** `send_frame`: all of the frame is written, or nothing. */
    method SendFrame(f: Frame) returns (r: Result<()>)
      modifies this`outgoing
      ensures r.Ok? <==> Encode(f).Ok?
      ensures outgoing == old(outgoing) + if r.Ok? then Encode(f).value else []
    {
      var bytes := EncodeFrame(f);
      if bytes.Err? {
        return Err(bytes.kind);
      }
      outgoing := outgoing + bytes.value;
      return Ok(());
    }

    /** `read_exact`. */
    method ReadExact(n: nat) returns (r: Result<seq<byte>>)
      modifies this`incoming
      ensures match PBytes(old(incoming), n) {
                case Ok((v, rest)) => r == Ok(v) && incoming == rest
                case Err(k) => r == Err(k)
              }
    {
      if |incoming| < n {
        incoming := [];
        return Err(UnexpectedEof);
      }
      var v := incoming[..n];
      incoming := incoming[n..];
      return Ok(v);
    }

    /** `read_frame`. */
    method ReceiveFrame() returns (r: Result<Frame>)
      modifies this`incoming
      ensures match ReadFrame(old(incoming)) {
                case Ok((f, rest)) => r == Ok(f) && incoming == rest
                case Err(k) => r == Err(k)
              }
    {
      var lenBuf :- ReadExact(4);
      var total := FromBe32(lenBuf);
      if total > 64 * 1024 * 1024 {
        return Err(InvalidData);
      }
      var buf :- ReadExact(total);
      r := DecodeFrame(buf);
    }
  }
}

/**
 * The hand-written JSON printer for strings, lists and maps of strings, and a reader after
 * RFC 8259 to hold it against. A character is a Unicode scalar value on both sides.
 */
module JsonPrinter {
  import opened Options
  import opened Sequences

  /** A UTF-16 code unit. */
  type Unit = u: int | 0 <= u < 0x1_0000

  // The printer

  predicate IsControl(c: char) { c as int < 0x20 || 0x7F <= c as int <= 0x9F }

  function HexDigit(v: nat): char
    requires v < 16
  {
    if v < 10 then (48 + v) as char else (97 + (v - 10)) as char
  }

  function Hex4(unit: Unit): (s: string)
    ensures |s| == 4
  {
    [HexDigit(unit / 4096), HexDigit(unit / 256 % 16), HexDigit(unit / 16 % 16), HexDigit(unit % 16)]
  }

  function UnitEscape(unit: Unit): (s: string)
    ensures |s| == 6
  {
    ['\\', 'u'] + Hex4(unit)
  }

  /** `encode_utf16`. */
  function Utf16(c: char): (units: seq<Unit>)
    ensures 1 <= |units| <= 2
  {
    var v := c as int;
    if v < 0x1_0000 then [v]
    else [0xD800 + (v - 0x1_0000) / 0x400, 0xDC00 + (v - 0x1_0000) % 0x400]
  }

  function Escapes(units: seq<Unit>): string {
    if units == [] then [] else UnitEscape(units[0]) + Escapes(units[1..])
  }

  function PrintChar(c: char): string {
    if c == '"' then ['\\', '"']
    else if c == '\\' then ['\\', '\\']
    else if c == '\n' then ['\\', 'n']
    else if c == '\r' then ['\\', 'r']
    else if c == '\t' then ['\\', 't']
    else if c as int == 8 then ['\\', 'b']
    else if c as int == 12 then ['\\', 'f']
    else if IsControl(c) || c as int > 0xFFFF then Escapes(Utf16(c))
    else [c]
  }

  function PrintChars(s: string): string {
    if s == [] then [] else PrintChar(s[0]) + PrintChars(s[1..])
  }

  function PrintString(s: string): string { ['"'] + (PrintChars(s) + ['"']) }

  function PrintItems(vs: seq<string>): string {
    if vs == [] then []
    else if |vs| == 1 then PrintString(vs[0])
    else PrintString(vs[0]) + ([','] + PrintItems(vs[1..]))
  }

  function PrintArray(vs: seq<string>): string { ['['] + (PrintItems(vs) + [']']) }

  function PrintPair(e: (string, string)): string { PrintString(e.0) + ([':'] + PrintString(e.1)) }

  function PrintEntries(es: seq<(string, string)>): string {
    if es == [] then []
    else if |es| == 1 then PrintPair(es[0])
    else PrintPair(es[0]) + ([','] + PrintEntries(es[1..]))
  }

  function PrintMap(es: seq<(string, string)>): string { ['{'] + (PrintEntries(es) + ['}']) }

  // A reader after RFC 8259

  function HexValue(c: char): (r: Option<nat>)
    ensures r.Some? ==> r.value < 16
  {
    var v := c as int;
    if 48 <= v <= 57 then Some(v - 48)
    else if 97 <= v <= 102 then Some(v - 97 + 10)
    else if 65 <= v <= 70 then Some(v - 65 + 10)
    else None
  }

  /** The code unit of `\uXXXX`. */
  function ReadUnit(s: string): (r: Option<Unit>)
    ensures r.Some? ==> |s| >= 6
  {
    if |s| < 6 || s[0] != '\\' || s[1] != 'u' then None
    else
      var a :- HexValue(s[2]);
      var b :- HexValue(s[3]);
      var c :- HexValue(s[4]);
      var d :- HexValue(s[5]);
      Some(a * 4096 + b * 256 + c * 16 + d)
  }

  function ReadEscape(s: string): (r: Option<(char, nat)>)
    ensures r.Some? ==> 1 <= r.value.1 <= |s|
  {
    if |s| < 2 then None
    else
      match s[1]
      case '"' => Some(('"', 2))
      case '\\' => Some(('\\', 2))
      case '/' => Some(('/', 2))
      case 'b' => Some((8 as char, 2))
      case 'f' => Some((12 as char, 2))
      case 'n' => Some(('\n', 2))
      case 'r' => Some(('\r', 2))
      case 't' => Some(('\t', 2))
      case _ =>
        var hi :- ReadUnit(s);
        if 0xD800 <= hi < 0xDC00 then
          var lo :- ReadUnit(s[6..]);
          if 0xDC00 <= lo < 0xE000 then Some(((0x1_0000 + (hi - 0xD800) * 0x400 + (lo - 0xDC00)) as char, 12))
          else None
        else if 0xDC00 <= hi < 0xE000 then None
        else Some((hi as char, 6))
  }

  /** One character of a string and how much of the text it takes: section 7. */
  function ReadChar(s: string): (r: Option<(char, nat)>)
    ensures r.Some? ==> 1 <= r.value.1 <= |s|
  {
    if s == [] || s[0] == '"' || s[0] as int < 0x20 then None
    else if s[0] == '\\' then ReadEscape(s)
    else Some((s[0], 1))
  }

  function ReadChars(s: string): (r: Option<(string, string)>)
    ensures r.Some? ==> |r.value.1| < |s|
    decreases |s|
  {
    if s != [] && s[0] == '"' then Some(([], s[1..]))
    else
      var (c, n) :- ReadChar(s);
      var (cs, rest) :- ReadChars(s[n..]);
      Some(([c] + cs, rest))
  }

  function ReadString(s: string): (r: Option<(string, string)>)
    ensures r.Some? ==> |r.value.1| < |s|
  {
    if s != [] && s[0] == '"' then ReadChars(s[1..]) else None
  }

  function SkipSpace(s: string): (r: string)
    ensures |r| <= |s|
  {
    if s != [] && s[0] in " \t\n\r" then SkipSpace(s[1..]) else s
  }

  predicate At(s: string, c: char) { s != [] && s[0] == c }

  /** Items after the first bracket, at least one: section 5. */
  function ReadItems(s: string): (r: Option<(seq<string>, string)>)
    decreases |s|
  {
    var (v, rest) :- ReadString(SkipSpace(s));
    var rest' := SkipSpace(rest);
    if At(rest', ']') then Some(([v], rest'[1..]))
    else if At(rest', ',') then
      var (vs, end) :- ReadItems(rest'[1..]);
      Some(([v] + vs, end))
    else None
  }

  function ReadArray(s: string): Option<(seq<string>, string)> {
    var s' := SkipSpace(s);
    if !At(s', '[') then None
    else
      var s'' := SkipSpace(s'[1..]);
      if At(s'', ']') then Some(([], s''[1..])) else ReadItems(s'')
  }

  function ReadPair(s: string): (r: Option<((string, string), string)>)
    ensures r.Some? ==> |r.value.1| < |s|
  {
    var (k, rest) :- ReadString(SkipSpace(s));
    var rest' := SkipSpace(rest);
    if !At(rest', ':') then None
    else
      var (v, end) :- ReadString(SkipSpace(rest'[1..]));
      Some(((k, v), end))
  }

  /** Members after the first brace, at least one: section 4. */
  function ReadEntries(s: string): (r: Option<(seq<(string, string)>, string)>)
    decreases |s|
  {
    var (e, rest) :- ReadPair(s);
    var rest' := SkipSpace(rest);
    if At(rest', '}') then Some(([e], rest'[1..]))
    else if At(rest', ',') then
      var (es, end) :- ReadEntries(rest'[1..]);
      Some(([e] + es, end))
    else None
  }

  function ReadObject(s: string): Option<(seq<(string, string)>, string)> {
    var s' := SkipSpace(s);
    if !At(s', '{') then None
    else
      var s'' := SkipSpace(s'[1..]);
      if At(s'', '}') then Some(([], s''[1..])) else ReadEntries(s'')
  }

  // Reading undoes printing

  lemma HexBack(v: nat)
    requires v < 16
    ensures HexValue(HexDigit(v)) == Some(v)
  {
  }

  lemma Nibbles(unit: Unit)
    ensures unit / 4096 < 16
    ensures unit / 4096 * 4096 + unit / 256 % 16 * 256 + unit / 16 % 16 * 16 + unit % 16 == unit
  {
  }

  lemma UnitBack(unit: Unit, rest: string)
    ensures ReadUnit(UnitEscape(unit) + rest) == Some(unit)
  {
    var s := UnitEscape(unit) + rest;
    Nibbles(unit);
    HexBack(unit / 4096);
    HexBack(unit / 256 % 16);
    HexBack(unit / 16 % 16);
    HexBack(unit % 16);
    assert s[2] == HexDigit(unit / 4096) && s[3] == HexDigit(unit / 256 % 16);
    assert s[4] == HexDigit(unit / 16 % 16) && s[5] == HexDigit(unit % 16);
  }

  lemma SurrogatesBack(v: int, hi: int, lo: int)
    requires 0x1_0000 <= v < 0x11_0000 && hi == 0xD800 + (v - 0x1_0000) / 0x400 && lo == 0xDC00 + (v - 0x1_0000) % 0x400
    ensures 0xD800 <= hi < 0xDC00 <= lo < 0xE000
    ensures 0x1_0000 + (hi - 0xD800) * 0x400 + (lo - 0xDC00) == v
  {
  }

  lemma PairBack(c: char, rest: string)
    requires c as int > 0xFFFF
    ensures ReadEscape(Escapes(Utf16(c)) + rest) == Some((c, 12)) && |Escapes(Utf16(c))| == 12
  {
    var hi, lo := Utf16(c)[0], Utf16(c)[1];
    SurrogatesBack(c as int, hi, lo);
    EscapesOfTwo(hi, lo);
    assert Utf16(c) == [hi, lo];
    var s := UnitEscape(hi) + UnitEscape(lo) + rest;
    assert s == UnitEscape(hi) + (UnitEscape(lo) + rest);
    UnitBack(hi, UnitEscape(lo) + rest);
    assert s[6..] == UnitEscape(lo) + rest;
    UnitBack(lo, rest);
    assert s[1] == 'u';
  }

  lemma EscapesOfTwo(a: Unit, b: Unit)
    ensures Escapes([a]) == UnitEscape(a) && Escapes([a, b]) == UnitEscape(a) + UnitEscape(b)
  {
    assert [a][1..] == [] && [a, b][1..] == [b] && [b][1..] == [];
    assert Escapes([b]) == UnitEscape(b) + [] == UnitEscape(b);
    assert UnitEscape(a) + [] == UnitEscape(a);
  }

  lemma ControlBack(c: char, rest: string)
    requires IsControl(c)
    ensures ReadEscape(Escapes(Utf16(c)) + rest) == Some((c, 6)) && |Escapes(Utf16(c))| == 6
  {
    var u: Unit := c as int;
    assert Utf16(c) == [u];
    EscapesOfTwo(u, u);
    var s := UnitEscape(u) + rest;
    UnitBack(u, rest);
    assert s[1] == 'u';
  }

  /** One printed character reads back, whatever follows. */
  lemma CharBack(c: char, rest: string)
    ensures ReadChar(PrintChar(c) + rest) == Some((c, |PrintChar(c)|)) && PrintChar(c) != []
    ensures !At(PrintChar(c) + rest, '"')
  {
    var s := PrintChar(c) + rest;
    if c in "\"\\\n\r\t" || c as int == 8 || c as int == 12 {
      assert s[0] == '\\' && s[1] == PrintChar(c)[1];
    } else if IsControl(c) {
      ControlBack(c, rest);
      assert s[0] == '\\';
    } else if c as int > 0xFFFF {
      PairBack(c, rest);
      assert s[0] == '\\';
    } else {
      assert s[0] == c;
    }
  }

  lemma Regroup2<T>(a: seq<T>, b: seq<T>, c: seq<T>, d: seq<T>)
    ensures ((a + (b + c)) + d) == a + (b + (c + d))
  {
    Regroup(a, b + c, d);
    Regroup(b, c, d);
  }

  lemma Tail<T>(first: T, rest: seq<T>)
    ensures ([first] + rest)[1..] == rest
  {
  }

  lemma CharsStep(c: char, first: string, more: string, cs: string, rest: string)
    requires first != [] && !At(first + more, '"')
    requires ReadChar(first + more) == Some((c, |first|)) && ReadChars(more) == Some((cs, rest))
    ensures ReadChars(first + more) == Some(([c] + cs, rest))
  {
    assert (first + more)[|first|..] == more;
  }

  lemma {:induction false} CharsBack(s: string, rest: string)
    ensures ReadChars(PrintChars(s) + (['"'] + rest)) == Some((s, rest))
  {
    var end := ['"'] + rest;
    if s == [] {
      assert PrintChars(s) + end == end;
      Tail('"', rest);
    } else {
      var first, more := PrintChar(s[0]), PrintChars(s[1..]) + end;
      Regroup(first, PrintChars(s[1..]), end);
      CharBack(s[0], more);
      CharsBack(s[1..], rest);
      CharsStep(s[0], first, more, s[1..], rest);
      assert s == [s[0]] + s[1..];
    }
  }

  /** A printed string reads back as itself, and what follows it is left. */
  lemma StringBack(s: string, rest: string)
    ensures ReadString(PrintString(s) + rest) == Some((s, rest))
    ensures At(PrintString(s) + rest, '"')
  {
    CharsBack(s, rest);
    Regroup2(['"'], PrintChars(s), ['"'], rest);
    Tail('"', PrintChars(s) + (['"'] + rest));
  }

  lemma ItemsEnd(first: string, v: string, rest: string)
    requires ReadString(first + ([']'] + rest)) == Some((v, [']'] + rest)) && At(first + ([']'] + rest), '"')
    ensures ReadItems(first + ([']'] + rest)) == Some(([v], rest))
  {
    Tail(']', rest);
  }

  lemma ItemsMore(first: string, v: string, more: string, vs: seq<string>, rest: string)
    requires ReadString(first + ([','] + more)) == Some((v, [','] + more)) && At(first + ([','] + more), '"')
    requires ReadItems(more) == Some((vs, rest))
    ensures ReadItems(first + ([','] + more)) == Some(([v] + vs, rest))
  {
    Tail(',', more);
  }

  lemma {:induction false} ItemsBack(vs: seq<string>, rest: string)
    requires vs != []
    ensures ReadItems(PrintItems(vs) + ([']'] + rest)) == Some((vs, rest))
    ensures At(PrintItems(vs) + ([']'] + rest), '"')
  {
    hide ReadItems, PrintString;
    var first, end := PrintString(vs[0]), [']'] + rest;
    if |vs| == 1 {
      StringBack(vs[0], end);
      ItemsEnd(first, vs[0], rest);
      assert vs == [vs[0]];
    } else {
      var more := PrintItems(vs[1..]) + end;
      Regroup2(first, [','], PrintItems(vs[1..]), end);
      StringBack(vs[0], [','] + more);
      ItemsBack(vs[1..], rest);
      ItemsMore(first, vs[0], more, vs[1..], rest);
      assert vs == [vs[0]] + vs[1..];
    }
  }

  lemma ArrayOf(items: string, vs: seq<string>, rest: string)
    requires if vs == [] then items == []
             else At(items + ([']'] + rest), '"') && ReadItems(items + ([']'] + rest)) == Some((vs, rest))
    ensures ReadArray(['['] + (items + ([']'] + rest))) == Some((vs, rest))
  {
    Tail('[', items + ([']'] + rest));
    if vs == [] {
      assert items + ([']'] + rest) == [']'] + rest;
      Tail(']', rest);
    }
  }

  /** Every list of strings is read back from its printed form. */
  lemma ArrayBack(vs: seq<string>, rest: string)
    ensures ReadArray(PrintArray(vs) + rest) == Some((vs, rest))
  {
    if vs != [] {
      ItemsBack(vs, rest);
    }
    ArrayOf(PrintItems(vs), vs, rest);
    Regroup2(['['], PrintItems(vs), [']'], rest);
  }

  lemma PairOf(first: string, k: string, second: string, v: string, rest: string)
    requires At(first + ([':'] + (second + rest)), '"') && At(second + rest, '"')
    requires ReadString(first + ([':'] + (second + rest))) == Some((k, [':'] + (second + rest)))
    requires ReadString(second + rest) == Some((v, rest))
    ensures ReadPair(first + ([':'] + (second + rest))) == Some(((k, v), rest))
  {
    Tail(':', second + rest);
  }

  lemma PairReadBack(e: (string, string), rest: string)
    ensures ReadPair(PrintPair(e) + rest) == Some((e, rest))
    ensures At(PrintPair(e) + rest, '"')
  {
    var first, second := PrintString(e.0), PrintString(e.1);
    StringBack(e.0, [':'] + (second + rest));
    StringBack(e.1, rest);
    PairOf(first, e.0, second, e.1, rest);
    Regroup2(first, [':'], second, rest);
  }

  lemma EntriesEnd(first: string, e: (string, string), rest: string)
    requires ReadPair(first + (['}'] + rest)) == Some((e, ['}'] + rest))
    ensures ReadEntries(first + (['}'] + rest)) == Some(([e], rest))
  {
    Tail('}', rest);
  }

  lemma EntriesMore(first: string, e: (string, string), more: string, es: seq<(string, string)>, rest: string)
    requires ReadPair(first + ([','] + more)) == Some((e, [','] + more)) && ReadEntries(more) == Some((es, rest))
    ensures ReadEntries(first + ([','] + more)) == Some(([e] + es, rest))
  {
    Tail(',', more);
  }

  lemma EntriesJoin(first: string, e: (string, string), text: string, es: seq<(string, string)>, rest: string,
                    end: string)
    requires ReadPair(first + ([','] + (text + end))) == Some((e, [','] + (text + end)))
    requires At(first + ([','] + (text + end)), '"') && ReadEntries(text + end) == Some((es, rest))
    ensures ReadEntries((first + ([','] + text)) + end) == Some(([e] + es, rest))
            && At((first + ([','] + text)) + end, '"')
  {
    Regroup2(first, [','], text, end);
    EntriesMore(first, e, text + end, es, rest);
  }

  lemma EntryThen(e: (string, string), text: string, es: seq<(string, string)>, rest: string, end: string)
    requires ReadEntries(text + end) == Some((es, rest))
    ensures ReadEntries((PrintPair(e) + ([','] + text)) + end) == Some(([e] + es, rest))
    ensures At((PrintPair(e) + ([','] + text)) + end, '"')
  {
    PairReadBack(e, [','] + (text + end));
    EntriesJoin(PrintPair(e), e, text, es, rest, end);
  }

  lemma EntryBack(e: (string, string), rest: string)
    ensures ReadEntries(PrintPair(e) + (['}'] + rest)) == Some(([e], rest))
    ensures At(PrintPair(e) + (['}'] + rest), '"')
  {
    PairReadBack(e, ['}'] + rest);
    EntriesEnd(PrintPair(e), e, rest);
  }

  lemma {:induction false} EntriesBack(es: seq<(string, string)>, rest: string)
    requires es != []
    ensures ReadEntries(PrintEntries(es) + (['}'] + rest)) == Some((es, rest))
    ensures At(PrintEntries(es) + (['}'] + rest), '"')
  {
    var end := ['}'] + rest;
    if |es| == 1 {
      EntryBack(es[0], rest);
      assert es == [es[0]];
    } else {
      EntriesBack(es[1..], rest);
      EntryThen(es[0], PrintEntries(es[1..]), es[1..], rest, end);
      assert es == [es[0]] + es[1..];
    }
  }

  lemma MapOf(entries: string, es: seq<(string, string)>, rest: string)
    requires if es == [] then entries == []
             else At(entries + (['}'] + rest), '"') && ReadEntries(entries + (['}'] + rest)) == Some((es, rest))
    ensures ReadObject(['{'] + (entries + (['}'] + rest))) == Some((es, rest))
  {
    Tail('{', entries + (['}'] + rest));
    if es == [] {
      assert entries + (['}'] + rest) == ['}'] + rest;
      Tail('}', rest);
    }
  }

  /** Every map, in its iteration order, is read back from its printed form. */
  lemma MapBack(es: seq<(string, string)>, rest: string)
    ensures ReadObject(PrintMap(es) + rest) == Some((es, rest))
  {
    if es != [] {
      EntriesBack(es, rest);
    }
    MapOf(PrintEntries(es), es, rest);
    Regroup2(['{'], PrintEntries(es), ['}'], rest);
  }

  /** Different lists print differently, and neither form is a proper prefix of the other. */
  lemma ArraysPrefixFree(a: seq<string>, b: seq<string>)
    requires PrintArray(a) <= PrintArray(b)
    ensures a == b
  {
    var rest := PrintArray(b)[|PrintArray(a)|..];
    assert PrintArray(b) == PrintArray(a) + rest && PrintArray(b) == PrintArray(b) + [];
    ArrayBack(a, rest);
    ArrayBack(b, []);
  }

  lemma MapsPrefixFree(a: seq<(string, string)>, b: seq<(string, string)>)
    requires PrintMap(a) <= PrintMap(b)
    ensures a == b
  {
    var rest := PrintMap(b)[|PrintMap(a)|..];
    assert PrintMap(b) == PrintMap(a) + rest && PrintMap(b) == PrintMap(b) + [];
    MapBack(a, rest);
    MapBack(b, []);
  }

  // The text is safe to pass on

  /** No control character and nothing outside the basic plane. */
  predicate Clean(s: string) { forall i | 0 <= i < |s| :: !IsControl(s[i]) && s[i] as int <= 0xFFFF }

  lemma {:induction false} EscapesClean(units: seq<Unit>)
    ensures Clean(Escapes(units))
  {
    if units != [] {
      EscapesClean(units[1..]);
      HexClean(units[0]);
    }
  }

  lemma HexClean(unit: Unit)
    ensures Clean(UnitEscape(unit))
  {
    Nibbles(unit);
  }

  lemma {:induction false} PrintedClean(s: string)
    ensures Clean(PrintChars(s)) && Clean(PrintString(s))
  {
    if s != [] {
      PrintedClean(s[1..]);
      EscapesClean(Utf16(s[0]));
    }
  }

  // The loops

  /** `push_utf16_escape`. */
  method PushUtf16Escape(json: string, c: char) returns (out: string)
    ensures out == json + Escapes(Utf16(c))
  {
    var units := Utf16(c);
    out := json;
    for i := 0 to |units|
      invariant out + Escapes(units[i..]) == json + Escapes(units)
    {
      Regroup(out, UnitEscape(units[i]), Escapes(units[i..][1..]));
      assert units[i..][1..] == units[i + 1..];
      out := out + UnitEscape(units[i]);
    }
    assert units[|units|..] == [];
  }

  /** The arms of the match. */
  method PushChar(json: string, c: char) returns (out: string)
    ensures out == json + PrintChar(c)
  {
    match c
    case '"' => out := json + ['\\', '"'];
    case '\\' => out := json + ['\\', '\\'];
    case '\n' => out := json + ['\\', 'n'];
    case '\r' => out := json + ['\\', 'r'];
    case '\t' => out := json + ['\\', 't'];
    case _ =>
      if c as int == 8 {
        out := json + ['\\', 'b'];
      } else if c as int == 12 {
        out := json + ['\\', 'f'];
      } else if IsControl(c) || c as int > 0xFFFF {
        out := PushUtf16Escape(json, c);
      } else {
        out := json + [c];
      }
  }

  lemma CharsFrom(value: string, i: nat)
    requires i < |value|
    ensures PrintChars(value[i..]) == PrintChar(value[i]) + PrintChars(value[i + 1..])
  {
    assert value[i..][1..] == value[i + 1..];
  }

  /** `encode_json_string`. */
  method EncodeJsonString(value: string) returns (json: string)
    ensures json == PrintString(value)
  {
    json := ['"'];
    for i := 0 to |value|
      invariant json + PrintChars(value[i..]) == ['"'] + PrintChars(value)
    {
      CharsFrom(value, i);
      Regroup(json, PrintChar(value[i]), PrintChars(value[i + 1..]));
      json := PushChar(json, value[i]);
    }
    assert value[|value|..] == [] && json + [] == json;
    Regroup(['"'], PrintChars(value), ['"']);
    json := json + ['"'];
  }

  /** The comma that goes before all but the first item, and the items still to come. */
  function Remaining(i: nat, n: nat, text: string): string {
    if 0 < i < n then [','] + text else text
  }

  lemma ItemsFrom(values: seq<string>, i: nat)
    requires i < |values|
    ensures PrintItems(values[i..]) == PrintString(values[i]) + Remaining(i + 1, |values|, PrintItems(values[i + 1..]))
  {
    assert values[i..][1..] == values[i + 1..];
    if i + 1 == |values| {
      assert PrintString(values[i]) + [] == PrintString(values[i]);
    }
  }

  /** Pushing the separator and an item. */
  lemma Pushed(json: string, i: nat, n: nat, text: string, item: string, more: string, out: string)
    requires i < n && text == item + more && out == (if i > 0 then json + [','] else json) + item
    ensures out + more == json + Remaining(i, n, text)
  {
    if i > 0 {
      Regroup(json + [','], item, more);
      Regroup(json, [','], item + more);
    } else {
      Regroup(json, item, more);
    }
  }

  /** `encode_json_string_array`. */
  method EncodeJsonStringArray(values: seq<string>) returns (json: string)
    ensures json == PrintArray(values)
  {
    json := ['['];
    for i := 0 to |values|
      invariant json + Remaining(i, |values|, PrintItems(values[i..])) == ['['] + PrintItems(values)
    {
      ghost var before := json;
      if i > 0 {
        json := json + [','];
      }
      var item := EncodeJsonString(values[i]);
      json := json + item;
      ItemsFrom(values, i);
      Pushed(before, i, |values|, PrintItems(values[i..]), item,
             Remaining(i + 1, |values|, PrintItems(values[i + 1..])), json);
    }
    assert values[|values|..] == [] && json + [] == json;
    Regroup(['['], PrintItems(values), [']']);
    json := json + [']'];
  }

  lemma EntriesFrom(values: seq<(string, string)>, i: nat)
    requires i < |values|
    ensures PrintEntries(values[i..])
            == PrintPair(values[i]) + Remaining(i + 1, |values|, PrintEntries(values[i + 1..]))
  {
    assert values[i..][1..] == values[i + 1..];
    if i + 1 == |values| {
      assert PrintPair(values[i]) + [] == PrintPair(values[i]);
    }
  }

  /** A key, a colon and a value. */
  method PushPair(json: string, e: (string, string)) returns (out: string)
    ensures out == json + PrintPair(e)
  {
    var key := EncodeJsonString(e.0);
    out := json + key;
    out := out + [':'];
    var value := EncodeJsonString(e.1);
    out := out + value;
    Regroup(json + key, [':'], value);
    Regroup(json, key, [':'] + value);
  }

  /** `encode_json_string_map`. */
  method EncodeJsonStringMap(values: seq<(string, string)>) returns (json: string)
    ensures json == PrintMap(values)
  {
    json := ['{'];
    for i := 0 to |values|
      invariant json + Remaining(i, |values|, PrintEntries(values[i..])) == ['{'] + PrintEntries(values)
    {
      ghost var before := json;
      if i > 0 {
        json := json + [','];
      }
      json := PushPair(json, values[i]);
      EntriesFrom(values, i);
      Pushed(before, i, |values|, PrintEntries(values[i..]), PrintPair(values[i]),
             Remaining(i + 1, |values|, PrintEntries(values[i + 1..])), json);
    }
    assert values[|values|..] == [] && json + [] == json;
    Regroup(['{'], PrintEntries(values), ['}']);
    json := json + ['}'];
  }
}

/** The values that cross the bridge: CBOR on the wire, JSON in the handlers. */
module BridgeValues {
  import opened Base64
  import opened Options

  type Text = seq<u8>

  const TYPE_KEY: Text := [95, 95, 116, 121, 112, 101]
  const BUFFER: Text := [66, 117, 102, 102, 101, 114]
  const DATA_KEY: Text := [100, 97, 116, 97]

  const I64_MIN: int := -0x8000_0000_0000_0000
  const I64_MAX: int := 0x7FFF_FFFF_FFFF_FFFF
  const U64_MAX: int := 0xFFFF_FFFF_FFFF_FFFF

  /** A double. What `from_f64` asks of it is whether it is finite. */
  datatype Double = Finite(bits: bv64) | Infinite(negative: bool) | NaN

  /** A major type 0 or 1 integer: 64 bits and a sign. */
  type CborInt = i: int | -0x1_0000_0000_0000_0000 <= i <= 0xFFFF_FFFF_FFFF_FFFF

  datatype Cbor =
    | CNull
    | CBool(b: bool)
    | CInteger(i: CborInt)
    | CFloat(f: Double)
    | CText(t: Text)
    | CBytes(bytes: seq<u8>)
    | CArray(items: seq<Cbor>)
    | CMap(entries: seq<(Cbor, Cbor)>)
    | CTag(tag: nat, inner: Cbor)
    | COther

  datatype Number = PosInt(u: nat) | NegInt(i: int) | FloatNumber(f: Double)

  datatype Json =
    | JNull
    | JBool(b: bool)
    | JNumber(n: Number)
    | JString(s: Text)
    | JArray(items: seq<Json>)
    | JObject(entries: seq<(Text, Json)>)

  /** Casting an integer to a double, and the debug form of a map key. */
  datatype Env = Env(asDouble: CborInt -> Double, debug: Cbor -> Text)

  // Objects: the entries of an ordered map

  predicate Less(a: Text, b: Text) {
    b != [] && (a == [] || if a[0] != b[0] then a[0] < b[0] else Less(a[1..], b[1..]))
  }

  predicate Sorted<V>(es: seq<(Text, V)>) {
    forall i, j | 0 <= i < j < |es| :: Less(es[i].0, es[j].0)
  }

  function Insert<V>(es: seq<(Text, V)>, k: Text, v: V): seq<(Text, V)> {
    if es == [] then [(k, v)]
    else if k == es[0].0 then [(k, v)] + es[1..]
    else if Less(k, es[0].0) then [(k, v)] + es
    else [es[0]] + Insert(es[1..], k, v)
  }

  function Get<V>(es: seq<(Text, V)>, k: Text): Option<V> {
    if es == [] then None else if es[0].0 == k then Some(es[0].1) else Get(es[1..], k)
  }

  /** Inserting the pairs one by one. */
  function FromPairs<V>(ps: seq<(Text, V)>): seq<(Text, V)> {
    if ps == [] then []
    else
      var last := ps[|ps| - 1];
      Insert(FromPairs(ps[..|ps| - 1]), last.0, last.1)
  }

  // The two conversions

  function FromFloat(f: Double): Option<Number> {
    if f.Finite? then Some(FloatNumber(f)) else None
  }

  function FromI64(i: int): Number {
    if i < 0 then NegInt(i) else PosInt(i)
  }

  function NumberOf(env: Env, i: CborInt): Number {
    if I64_MIN <= i <= I64_MAX then FromI64(i)
    else if 0 <= i <= U64_MAX then PosInt(i)
    else match FromFloat(env.asDouble(i)) case Some(n) => n case None => PosInt(0)
  }

  function Digits(n: nat): Text {
    (if n < 10 then [] else Digits(n / 10)) + [48 + (n % 10) as bv8]
  }

  function Decimal(i: int): Text {
    if i < 0 then [45] + Digits(-i) else Digits(i)
  }

  function KeyOf(env: Env, k: Cbor): Text {
    match k
    case CText(s) => s
    case CInteger(i) => Decimal(i)
    case _ => env.debug(k)
  }

  function BufferObject(bytes: seq<u8>): Json {
    JObject([(TYPE_KEY, JString(BUFFER)), (DATA_KEY, JString(Encode(bytes)))])
  }

  /** `cbor_to_json`. */
  function ToJson(env: Env, v: Cbor): Json {
    match v
    case CNull => JNull
    case CBool(b) => JBool(b)
    case CInteger(i) => JNumber(NumberOf(env, i))
    case CFloat(f) => (match FromFloat(f) case Some(n) => JNumber(n) case None => JNull)
    case CText(t) => JString(t)
    case CBytes(b) => BufferObject(b)
    case CArray(items) => JArray(seq(|items|, i requires 0 <= i < |items| => ToJson(env, items[i])))
    case CMap(entries) =>
      JObject(FromPairs(seq(|entries|,
                            i requires 0 <= i < |entries| => (KeyOf(env, entries[i].0), ToJson(env, entries[i].1)))))
    case CTag(_, inner) => ToJson(env, inner)
    case COther => JNull
  }

  function AsI64(n: Number): Option<int> {
    match n
    case PosInt(u) => if u <= I64_MAX then Some(u) else None
    case NegInt(i) => Some(i)
    case FloatNumber(_) => None
  }

  function AsU64(n: Number): Option<int> {
    match n
    case PosInt(u) => Some(u)
    case _ => None
  }

  /** The marker the handlers use for binary data. */
  function Marker(es: seq<(Text, Json)>): Option<seq<u8>> {
    var data := Get(es, DATA_KEY);
    if Get(es, TYPE_KEY) == Some(JString(BUFFER)) && data.Some? && data.value.JString? then Decode(data.value.s)
    else None
  }

  /** The values a JSON tree can hold: 64-bit or finite numbers, objects with ordered keys. */
  ghost predicate WellFormed(j: Json) {
    match j
    case JNumber(PosInt(u)) => u <= U64_MAX
    case JNumber(NegInt(i)) => I64_MIN <= i < 0
    case JNumber(FloatNumber(f)) => f.Finite?
    case JArray(items) => forall i | 0 <= i < |items| :: WellFormed(items[i])
    case JObject(es) => Sorted(es) && forall i | 0 <= i < |es| :: WellFormed(es[i].1)
    case _ => true
  }

  function NumberToCbor(n: Number): Cbor
    requires WellFormed(JNumber(n))
  {
    match AsI64(n)
    case Some(i) => CInteger(i)
    case None =>
      match AsU64(n)
      case Some(u) => CInteger(u)
      case None => CFloat(n.f)
  }

  /** `json_to_cbor`. */
  function ToCbor(j: Json): Cbor
    requires WellFormed(j)
  {
    match j
    case JNull => CNull
    case JBool(b) => CBool(b)
    case JNumber(n) => NumberToCbor(n)
    case JString(s) => CText(s)
    case JArray(items) => CArray(seq(|items|, i requires 0 <= i < |items| => ToCbor(items[i])))
    case JObject(es) =>
      match Marker(es)
      case Some(bytes) => CBytes(bytes)
      case None => CMap(seq(|es|, i requires 0 <= i < |es| => (CText(es[i].0), ToCbor(es[i].1))))
  }

  // The order on keys

  lemma {:induction false} LessIrreflexive(a: Text)
    ensures !Less(a, a)
  {
    if a != [] { LessIrreflexive(a[1..]); }
  }

  lemma {:induction false} LessTotal(a: Text, b: Text)
    ensures a == b || Less(a, b) || Less(b, a)
  {
    if a != [] && b != [] && a[0] == b[0] {
      LessTotal(a[1..], b[1..]);
      assert a == [a[0]] + a[1..] && b == [b[0]] + b[1..];
    }
  }

  lemma {:induction false} LessTransitive(a: Text, b: Text, c: Text)
    requires Less(a, b) && Less(b, c)
    ensures Less(a, c)
  {
    if a != [] && a[0] == b[0] == c[0] {
      LessTransitive(a[1..], b[1..], c[1..]);
    }
  }

  // Inserting keeps the keys ordered and replaces

  predicate Above<V>(es: seq<(Text, V)>, k: Text) {
    forall i | 0 <= i < |es| :: Less(k, es[i].0)
  }

  lemma {:induction false} InsertAbove<V>(es: seq<(Text, V)>, k: Text, v: V, x: Text)
    requires Above(es, x) && Less(x, k)
    ensures Above(Insert(es, k, v), x)
  {
    if es != [] && k != es[0].0 && !Less(k, es[0].0) {
      InsertAbove(es[1..], k, v, x);
    }
  }

  lemma SortedCons<V>(e: (Text, V), es: seq<(Text, V)>)
    requires Above(es, e.0) && Sorted(es)
    ensures Sorted([e] + es)
  {
  }

  lemma {:induction false} InsertSorted<V>(es: seq<(Text, V)>, k: Text, v: V)
    requires Sorted(es)
    ensures Sorted(Insert(es, k, v))
  {
    if es == [] {
    } else if k == es[0].0 {
      SortedCons((k, v), es[1..]);
    } else if Less(k, es[0].0) {
      forall i | 0 < i < |es| ensures Less(k, es[i].0) {
        LessTransitive(k, es[0].0, es[i].0);
      }
      SortedCons((k, v), es);
    } else {
      LessTotal(k, es[0].0);
      InsertSorted(es[1..], k, v);
      InsertAbove(es[1..], k, v, es[0].0);
      SortedCons(es[0], Insert(es[1..], k, v));
    }
  }

  lemma {:induction false} InsertGet<V>(es: seq<(Text, V)>, k: Text, v: V, other: Text)
    ensures Get(Insert(es, k, v), other) == if other == k then Some(v) else Get(es, other)
  {
    if es != [] && k != es[0].0 {
      if Less(k, es[0].0) {
        assert ([(k, v)] + es)[1..] == es;
      } else {
        InsertGet(es[1..], k, v, other);
      }
    }
  }

  lemma {:induction false} InsertLast<V>(es: seq<(Text, V)>, k: Text, v: V)
    requires forall i | 0 <= i < |es| :: Less(es[i].0, k)
    ensures Insert(es, k, v) == es + [(k, v)]
  {
    if es != [] {
      LessIrreflexive(k);
      if Less(k, es[0].0) {
        LessTransitive(k, es[0].0, k);
      }
      InsertLast(es[1..], k, v);
    }
  }

  lemma {:induction false} FromPairsSorted<V>(ps: seq<(Text, V)>)
    ensures Sorted(FromPairs(ps))
  {
    if ps != [] {
      FromPairsSorted(ps[..|ps| - 1]);
      InsertSorted(FromPairs(ps[..|ps| - 1]), ps[|ps| - 1].0, ps[|ps| - 1].1);
    }
  }

  /** The value of the last pair with the key. */
  function LastOf<V>(ps: seq<(Text, V)>, k: Text): Option<V> {
    if ps == [] then None
    else if ps[|ps| - 1].0 == k then Some(ps[|ps| - 1].1)
    else LastOf(ps[..|ps| - 1], k)
  }

  /** Of several entries whose keys have the same text the last one is kept. */
  lemma {:induction false} FromPairsGet<V>(ps: seq<(Text, V)>, k: Text)
    ensures Get(FromPairs(ps), k) == LastOf(ps, k)
  {
    if ps != [] {
      FromPairsGet(ps[..|ps| - 1], k);
      InsertGet(FromPairs(ps[..|ps| - 1]), ps[|ps| - 1].0, ps[|ps| - 1].1, k);
    }
  }

  lemma {:induction false} FromSorted<V>(ps: seq<(Text, V)>)
    requires Sorted(ps)
    ensures FromPairs(ps) == ps
  {
    if ps != [] {
      var front, last := ps[..|ps| - 1], ps[|ps| - 1];
      FromSorted(front);
      InsertLast(front, last.0, last.1);
      assert ps == front + [last];
    }
  }

  // What the conversion produces is a JSON tree

  ghost predicate AllWellFormed(es: seq<(Text, Json)>) {
    forall i | 0 <= i < |es| :: WellFormed(es[i].1)
  }

  lemma {:induction false} InsertWellFormed(es: seq<(Text, Json)>, k: Text, v: Json)
    requires AllWellFormed(es) && WellFormed(v)
    ensures AllWellFormed(Insert(es, k, v))
  {
    if es != [] && k != es[0].0 && !Less(k, es[0].0) {
      InsertWellFormed(es[1..], k, v);
    }
  }

  lemma {:induction false} FromPairsWellFormed(ps: seq<(Text, Json)>)
    requires AllWellFormed(ps)
    ensures AllWellFormed(FromPairs(ps))
  {
    if ps != [] {
      FromPairsWellFormed(ps[..|ps| - 1]);
      InsertWellFormed(FromPairs(ps[..|ps| - 1]), ps[|ps| - 1].0, ps[|ps| - 1].1);
    }
  }

  /** The pairs `cbor_to_json` inserts for a map. */
  function Pairs(env: Env, es: seq<(Cbor, Cbor)>): (ps: seq<(Text, Json)>)
    ensures |ps| == |es|
  {
    seq(|es|, i requires 0 <= i < |es| => (KeyOf(env, es[i].0), ToJson(env, es[i].1)))
  }

  lemma BufferIsWellFormed(bytes: seq<u8>)
    ensures WellFormed(BufferObject(bytes))
  {
    assert Less(TYPE_KEY, DATA_KEY);
  }

  lemma {:induction false} ToJsonWellFormed(env: Env, v: Cbor)
    ensures WellFormed(ToJson(env, v))
  {
    match v
    case CBytes(b) => BufferIsWellFormed(b);
    case CArray(items) =>
      forall i | 0 <= i < |items| ensures WellFormed(ToJson(env, items[i])) {
        ToJsonWellFormed(env, items[i]);
      }
    case CMap(es) =>
      var ps := Pairs(env, es);
      forall i | 0 <= i < |es| ensures WellFormed(ps[i].1) {
        ToJsonWellFormed(env, es[i].1);
      }
      FromPairsWellFormed(ps);
      FromPairsSorted(ps);
    case CTag(_, inner) => ToJsonWellFormed(env, inner);
    case _ =>
  }

  // Back and forth from JSON

  /** A JSON value sent as CBOR and read back. */
  ghost function Recast(env: Env, j: Json): Json
    requires WellFormed(j)
  {
    ToJson(env, ToCbor(j))
  }

  lemma NumberReturns(env: Env, n: Number)
    requires WellFormed(JNumber(n))
    ensures Recast(env, JNumber(n)) == JNumber(n)
  {
  }

  lemma MarkerOfBuffer(bytes: seq<u8>)
    ensures WellFormed(BufferObject(bytes)) && Marker(BufferObject(bytes).entries) == Some(bytes)
  {
    BufferIsWellFormed(bytes);
    RoundTrip(bytes);
    var es := BufferObject(bytes).entries;
    assert TYPE_KEY != DATA_KEY;
    assert es[1..][0] == (DATA_KEY, JString(Encode(bytes)));
    assert Get(es, DATA_KEY) == Get(es[1..], DATA_KEY) == Some(JString(Encode(bytes)));
  }

  /** Whichever of the two is a string, they are the same string. */
  predicate SameStrings(a: Json, b: Json) { a.JString? || b.JString? ==> a == b }

  predicate SameShape(es: seq<(Text, Json)>, ps: seq<(Text, Json)>) {
    |es| == |ps| && forall i | 0 <= i < |es| :: es[i].0 == ps[i].0 && SameStrings(es[i].1, ps[i].1)
  }

  lemma {:induction false} GetSame(es: seq<(Text, Json)>, ps: seq<(Text, Json)>, k: Text)
    requires SameShape(es, ps)
    ensures Get(es, k).Some? <==> Get(ps, k).Some?
    ensures Get(es, k).Some? ==> SameStrings(Get(es, k).value, Get(ps, k).value)
  {
    if es != [] {
      GetSame(es[1..], ps[1..], k);
    }
  }

  lemma MarkerSame(es: seq<(Text, Json)>, ps: seq<(Text, Json)>)
    requires SameShape(es, ps)
    ensures Marker(es) == Marker(ps)
  {
    GetSame(es, ps, TYPE_KEY);
    GetSame(es, ps, DATA_KEY);
  }

  lemma RecastKind(env: Env, j: Json)
    requires WellFormed(j)
    ensures SameStrings(j, Recast(env, j))
  {
  }

  ghost function RecastAll(env: Env, es: seq<(Text, Json)>): (ps: seq<(Text, Json)>)
    requires AllWellFormed(es)
    ensures |ps| == |es|
  {
    seq(|es|, i requires 0 <= i < |es| => (es[i].0, Recast(env, es[i].1)))
  }

  lemma SameKeysSorted<U, V>(es: seq<(Text, U)>, ps: seq<(Text, V)>)
    requires Sorted(es) && |es| == |ps| && forall i | 0 <= i < |es| :: ps[i].0 == es[i].0
    ensures Sorted(ps)
  {
    forall i, j | 0 <= i < j < |ps| ensures Less(ps[i].0, ps[j].0) {
      assert Less(es[i].0, es[j].0);
    }
  }

  lemma RecastShape(env: Env, es: seq<(Text, Json)>)
    requires AllWellFormed(es)
    ensures SameShape(es, RecastAll(env, es))
  {
    forall i | 0 <= i < |es| ensures SameStrings(es[i].1, Recast(env, es[i].1)) {
      RecastKind(env, es[i].1);
    }
  }

  lemma RecastPairs(env: Env, es: seq<(Text, Json)>)
    requires WellFormed(JObject(es)) && Marker(es).None?
    ensures Recast(env, JObject(es)) == JObject(FromPairs(RecastAll(env, es)))
  {
    assert Pairs(env, ToCbor(JObject(es)).entries) == RecastAll(env, es);
  }

  lemma RecastObject(env: Env, es: seq<(Text, Json)>)
    requires WellFormed(JObject(es)) && Marker(es).None?
    ensures Recast(env, JObject(es)) == JObject(RecastAll(env, es))
    ensures Marker(RecastAll(env, es)).None?
  {
    var ps := RecastAll(env, es);
    RecastPairs(env, es);
    SameKeysSorted(es, ps);
    FromSorted(ps);
    RecastShape(env, es);
    MarkerSame(es, ps);
  }

  /** Whatever is sent once arrives unchanged from then on. */
  lemma {:induction false} SentAgain(env: Env, j: Json)
    requires WellFormed(j)
    ensures WellFormed(Recast(env, j)) && ToCbor(Recast(env, j)) == ToCbor(j)
  {
    ToJsonWellFormed(env, ToCbor(j));
    match j
    case JNumber(n) => NumberReturns(env, n);
    case JArray(items) =>
      forall i | 0 <= i < |items|
        ensures WellFormed(Recast(env, items[i])) && ToCbor(Recast(env, items[i])) == ToCbor(items[i])
      {
        SentAgain(env, items[i]);
      }
    case JObject(es) =>
      if Marker(es).Some? {
        MarkerOfBuffer(Marker(es).value);
      } else {
        RecastObject(env, es);
        forall i | 0 <= i < |es|
          ensures WellFormed(Recast(env, es[i].1)) && ToCbor(Recast(env, es[i].1)) == ToCbor(es[i].1)
        {
          SentAgain(env, es[i].1);
        }
      }
    case _ =>
  }

  /** A CBOR value through the handlers and out again. */
  ghost function Bridged(env: Env, v: Cbor): Cbor {
    ToJsonWellFormed(env, v);
    ToCbor(ToJson(env, v))
  }

  /** Crossing the bridge twice is crossing it once. */
  lemma BridgedTwice(env: Env, v: Cbor)
    ensures Bridged(env, Bridged(env, v)) == Bridged(env, v)
  {
    ToJsonWellFormed(env, v);
    SentAgain(env, ToJson(env, v));
  }

  /** No object is mistaken for binary data: one that carries the marker is exactly the
      two-entry object the bridge itself would write. */
  ghost predicate Plain(j: Json) {
    match j
    case JArray(items) => forall i | 0 <= i < |items| :: Plain(items[i])
    case JObject(es) =>
      if Marker(es).Some? then |es| == 2 && Canonical(Get(es, DATA_KEY).value.s)
      else forall i | 0 <= i < |es| :: Plain(es[i].1)
    case _ => true
  }

  lemma GetOfTwo<V>(es: seq<(Text, V)>, k: Text)
    requires |es| == 2
    ensures Get(es, k) == if es[0].0 == k then Some(es[0].1) else if es[1].0 == k then Some(es[1].1) else None
  {
    assert es[1..] == [es[1]];
    assert Get(es[1..], k) == if es[1].0 == k then Some(es[1].1) else None;
  }

  lemma TypeBeforeData()
    ensures Less(TYPE_KEY, DATA_KEY) && !Less(DATA_KEY, TYPE_KEY) && TYPE_KEY != DATA_KEY
  {
    assert TYPE_KEY[0] == 95 && DATA_KEY[0] == 100;
  }

  lemma MarkedPair(es: seq<(Text, Json)>)
    requires Sorted(es) && Marker(es).Some? && |es| == 2
    ensures es == [(TYPE_KEY, JString(BUFFER)), (DATA_KEY, JString(Get(es, DATA_KEY).value.s))]
  {
    GetOfTwo(es, TYPE_KEY);
    GetOfTwo(es, DATA_KEY);
    TypeBeforeData();
    assert Less(es[0].0, es[1].0);
  }

  lemma MarkedReturns(es: seq<(Text, Json)>, data: Text, back: seq<(Text, Json)>)
    requires WellFormed(JObject(es)) && Marker(es).Some? && Get(es, DATA_KEY) == Some(JString(data))
    requires back == [(TYPE_KEY, JString(BUFFER)), (DATA_KEY, JString(Encode(Decode(data).value)))]
    ensures back == es <==> |es| == 2 && Canonical(data)
  {
    ReencodesIffCanonical(data);
    if |es| == 2 {
      MarkedPair(es);
    }
  }

  /** A JSON value comes back unchanged exactly when nothing in it is mistaken for binary data. */
  lemma {:induction false} ReturnsIffPlain(env: Env, j: Json)
    requires WellFormed(j)
    ensures Recast(env, j) == j <==> Plain(j)
  {
    match j
    case JNumber(n) => NumberReturns(env, n);
    case JArray(items) =>
      forall i | 0 <= i < |items| ensures Recast(env, items[i]) == items[i] <==> Plain(items[i]) {
        ReturnsIffPlain(env, items[i]);
      }
      var back := Recast(env, j).items;
      assert |back| == |items| && forall i | 0 <= i < |items| :: back[i] == Recast(env, items[i]);
    case JObject(es) =>
      if Marker(es).Some? {
        var data := Get(es, DATA_KEY).value.s;
        MarkedReturns(es, data, BufferObject(Decode(data).value).entries);
      } else {
        RecastObject(env, es);
        forall i | 0 <= i < |es| ensures Recast(env, es[i].1) == es[i].1 <==> Plain(es[i].1) {
          ReturnsIffPlain(env, es[i].1);
        }
        var back := RecastAll(env, es);
        assert back == es <==> forall i | 0 <= i < |es| :: back[i] == es[i];
      }
    case _ =>
  }

  // Back and forth from CBOR

  function CborGet(es: seq<(Cbor, Cbor)>, k: Text): Option<Cbor> {
    if es == [] then None else if es[0].0 == CText(k) then Some(es[0].1) else CborGet(es[1..], k)
  }

  /** A map that reads as the marked object. */
  predicate Disguised(es: seq<(Cbor, Cbor)>) {
    var data := CborGet(es, DATA_KEY);
    CborGet(es, TYPE_KEY) == Some(CText(BUFFER)) && data.Some? && data.value.CText? && Decode(data.value.t).Some?
  }

  predicate TextKeys(es: seq<(Cbor, Cbor)>) {
    && (forall i | 0 <= i < |es| :: es[i].0.CText?)
    && forall i, j | 0 <= i < j < |es| :: Less(es[i].0.t, es[j].0.t)
  }

  /** What has a place in a JSON tree: integers of 64 bits, finite floats, maps whose keys are
      distinct texts in order, no tags. */
  ghost predicate Portable(v: Cbor) {
    match v
    case CInteger(i) => i >= I64_MIN
    case CFloat(f) => f.Finite?
    case CArray(items) => forall i | 0 <= i < |items| :: Portable(items[i])
    case CMap(es) => TextKeys(es) && !Disguised(es) && forall i | 0 <= i < |es| :: Portable(es[i].1)
    case CTag(_, _) => false
    case COther => false
    case _ => true
  }

  /** The map value and the JSON value it became, as far as strings go. */
  predicate SameText(v: Cbor, j: Json) { v.CText? || j.JString? ==> v.CText? && j == JString(v.t) }

  predicate SameTexts(es: seq<(Cbor, Cbor)>, ps: seq<(Text, Json)>) {
    |es| == |ps| && forall i | 0 <= i < |es| :: es[i].0 == CText(ps[i].0) && SameText(es[i].1, ps[i].1)
  }

  lemma {:induction false} GetMapped(es: seq<(Cbor, Cbor)>, ps: seq<(Text, Json)>, k: Text)
    requires SameTexts(es, ps)
    ensures CborGet(es, k).Some? <==> Get(ps, k).Some?
    ensures CborGet(es, k).Some? ==> SameText(CborGet(es, k).value, Get(ps, k).value)
  {
    if es != [] {
      GetMapped(es[1..], ps[1..], k);
    }
  }

  lemma DisguisedMeansMarked(es: seq<(Cbor, Cbor)>, ps: seq<(Text, Json)>)
    requires SameTexts(es, ps)
    ensures Disguised(es) <==> Marker(ps).Some?
  {
    GetMapped(es, ps, TYPE_KEY);
    GetMapped(es, ps, DATA_KEY);
  }

  lemma PortableText(env: Env, v: Cbor)
    requires Portable(v)
    ensures SameText(v, ToJson(env, v))
  {
  }

  lemma PairsOfText(env: Env, es: seq<(Cbor, Cbor)>)
    requires TextKeys(es)
    ensures FromPairs(Pairs(env, es)) == Pairs(env, es)
  {
    var ps := Pairs(env, es);
    forall i, j | 0 <= i < j < |ps| ensures Less(ps[i].0, ps[j].0) {
      assert Less(es[i].0.t, es[j].0.t);
    }
    FromSorted(ps);
  }

  /** The keys of a map that arrives are texts in order. */
  lemma BridgedKeys(env: Env, v: Cbor)
    requires Bridged(env, v).CMap?
    ensures TextKeys(Bridged(env, v).entries)
  {
    ToJsonWellFormed(env, v);
    var es := ToJson(env, v).entries;
    var out := Bridged(env, v).entries;
    assert |out| == |es| && forall i | 0 <= i < |es| :: out[i].0 == CText(es[i].0);
  }

  lemma MapOfObject(env: Env, es: seq<(Cbor, Cbor)>, ps: seq<(Text, Json)>)
    requires WellFormed(JObject(ps)) && Marker(ps).None? && |ps| == |es|
    requires forall i | 0 <= i < |es| :: es[i].0 == CText(ps[i].0) && ps[i].1 == ToJson(env, es[i].1)
    ensures ToCbor(JObject(ps)).CMap? && |ToCbor(JObject(ps)).entries| == |es|
    ensures forall i | 0 <= i < |es| :: ToCbor(JObject(ps)).entries[i] == (es[i].0, Bridged(env, es[i].1))
  {
  }

  lemma ObjectOfText(env: Env, es: seq<(Cbor, Cbor)>)
    requires TextKeys(es)
    ensures ToJson(env, CMap(es)) == JObject(Pairs(env, es)) && WellFormed(JObject(Pairs(env, es)))
  {
    PairsOfText(env, es);
    ToJsonWellFormed(env, CMap(es));
  }

  ghost function BridgedAll(env: Env, es: seq<(Cbor, Cbor)>): (out: seq<(Cbor, Cbor)>)
    ensures |out| == |es|
  {
    seq(|es|, i requires 0 <= i < |es| => (es[i].0, Bridged(env, es[i].1)))
  }

  lemma BridgedMap(env: Env, es: seq<(Cbor, Cbor)>)
    requires TextKeys(es) && Marker(Pairs(env, es)).None?
    ensures Bridged(env, CMap(es)) == CMap(BridgedAll(env, es))
  {
    ObjectOfText(env, es);
    MapOfObject(env, es, Pairs(env, es));
    assert ToCbor(JObject(Pairs(env, es))).entries == BridgedAll(env, es);
  }

  lemma PairsSameTexts(env: Env, es: seq<(Cbor, Cbor)>)
    requires TextKeys(es) && forall i | 0 <= i < |es| :: Portable(es[i].1)
    ensures SameTexts(es, Pairs(env, es))
  {
    forall i | 0 <= i < |es| ensures SameText(es[i].1, ToJson(env, es[i].1)) {
      PortableText(env, es[i].1);
    }
  }

  lemma MarkedBridges(env: Env, es: seq<(Cbor, Cbor)>)
    requires TextKeys(es) && Marker(Pairs(env, es)).Some?
    ensures Bridged(env, CMap(es)).CBytes?
  {
    ObjectOfText(env, es);
  }

  /** A CBOR value crosses the bridge unchanged exactly when it has a place in a JSON tree and is
      not mistaken for binary data. */
  lemma {:induction false} CrossesIffPortable(env: Env, v: Cbor)
    ensures Bridged(env, v) == v <==> Portable(v)
  {
    match v
    case CBytes(b) => MarkerOfBuffer(b);
    case CArray(items) =>
      forall i | 0 <= i < |items| ensures Bridged(env, items[i]) == items[i] <==> Portable(items[i]) {
        CrossesIffPortable(env, items[i]);
      }
      var out := Bridged(env, v).items;
      assert |out| == |items| && forall i | 0 <= i < |items| :: out[i] == Bridged(env, items[i]);
      assert out == items <==> forall i | 0 <= i < |items| :: out[i] == items[i];
    case CMap(es) =>
      forall i | 0 <= i < |es| ensures Bridged(env, es[i].1) == es[i].1 <==> Portable(es[i].1) {
        CrossesIffPortable(env, es[i].1);
      }
      MapCrosses(env, es);
    case _ =>
  }

  lemma MapCrosses(env: Env, es: seq<(Cbor, Cbor)>)
    requires forall i | 0 <= i < |es| :: Bridged(env, es[i].1) == es[i].1 <==> Portable(es[i].1)
    ensures Bridged(env, CMap(es)) == CMap(es) <==> Portable(CMap(es))
  {
    if TextKeys(es) {
      if Marker(Pairs(env, es)).Some? {
        MarkedBridges(env, es);
      } else {
        BridgedMap(env, es);
        var out := BridgedAll(env, es);
        assert out == es <==> forall i | 0 <= i < |es| :: out[i] == es[i];
      }
      if forall i | 0 <= i < |es| :: Portable(es[i].1) {
        PairsSameTexts(env, es);
        DisguisedMeansMarked(es, Pairs(env, es));
      }
    } else if Bridged(env, CMap(es)) == CMap(es) {
      BridgedKeys(env, CMap(es));
    }
  }

  // Maps whose keys are not in order

  predicate DistinctKeys<V>(ps: seq<(Text, V)>) {
    forall i, j | 0 <= i < j < |ps| :: ps[i].0 != ps[j].0
  }

  lemma {:induction false} InsertNew<V>(es: seq<(Text, V)>, k: Text, v: V)
    requires forall i | 0 <= i < |es| :: es[i].0 != k
    ensures multiset(Insert(es, k, v)) == multiset(es) + multiset{(k, v)}
  {
    if es != [] {
      assert es == [es[0]] + es[1..];
      if !Less(k, es[0].0) {
        InsertNew(es[1..], k, v);
      }
    }
  }

  lemma {:induction false} FromDistinct<V>(ps: seq<(Text, V)>)
    requires DistinctKeys(ps)
    ensures multiset(FromPairs(ps)) == multiset(ps)
  {
    if ps != [] {
      var front, last := ps[..|ps| - 1], ps[|ps| - 1];
      FromDistinct(front);
      assert ps == front + [last];
      forall i | 0 <= i < |FromPairs(front)| ensures FromPairs(front)[i].0 != last.0 {
        assert FromPairs(front)[i] in multiset(front);
      }
      InsertNew(FromPairs(front), last.0, last.1);
    }
  }

  lemma {:induction false} LastIsFirst<V>(ps: seq<(Text, V)>, k: Text)
    requires DistinctKeys(ps)
    ensures LastOf(ps, k) == Get(ps, k)
  {
    if ps != [] {
      var n := |ps| - 1;
      LastIsFirst(ps[..n], k);
      GetAppend(ps[..n], ps[n], k);
      assert ps == ps[..n] + [ps[n]];
      if ps[n].0 == k {
        GetNone(ps[..n], k);
      }
    }
  }

  lemma {:induction false} GetNone<V>(ps: seq<(Text, V)>, k: Text)
    requires forall i | 0 <= i < |ps| :: ps[i].0 != k
    ensures Get(ps, k) == None
  {
    if ps != [] {
      GetNone(ps[1..], k);
    }
  }

  lemma {:induction false} GetAppend<V>(ps: seq<(Text, V)>, e: (Text, V), k: Text)
    ensures Get(ps + [e], k) == if Get(ps, k).Some? then Get(ps, k) else if e.0 == k then Some(e.1) else None
  {
    if ps == [] {
      assert ps + [e] == [e] && [e][1..] == [];
    } else {
      GetAppend(ps[1..], e, k);
      assert (ps + [e])[1..] == ps[1..] + [e];
    }
  }

  predicate DistinctTexts(es: seq<(Cbor, Cbor)>) {
    && (forall i | 0 <= i < |es| :: es[i].0.CText?)
    && forall i, j | 0 <= i < j < |es| :: es[i].0 != es[j].0
  }

  /** Like `Portable`, with the map entries in any order. */
  ghost predicate Carried(v: Cbor) {
    match v
    case CInteger(i) => i >= I64_MIN
    case CFloat(f) => f.Finite?
    case CArray(items) => forall i | 0 <= i < |items| :: Carried(items[i])
    case CMap(es) => DistinctTexts(es) && !Disguised(es) && forall i | 0 <= i < |es| :: Carried(es[i].1)
    case CTag(_, _) => false
    case COther => false
    case _ => true
  }

  function Rekeyed(o: seq<(Text, Cbor)>): seq<(Cbor, Cbor)> {
    seq(|o|, i requires 0 <= i < |o| => (CText(o[i].0), o[i].1))
  }

  /** The same value with the entries of every map in the order of their keys. */
  function Ordered(v: Cbor): Cbor {
    match v
    case CArray(items) => CArray(seq(|items|, i requires 0 <= i < |items| => Ordered(items[i])))
    case CMap(es) =>
      if forall i | 0 <= i < |es| :: es[i].0.CText? then
        CMap(Rekeyed(FromPairs(seq(|es|, i requires 0 <= i < |es| => (es[i].0.t, Ordered(es[i].1))))))
      else v
    case _ => v
  }

  function OrderedPairs(es: seq<(Cbor, Cbor)>): (ps: seq<(Text, Cbor)>)
    requires forall i | 0 <= i < |es| :: es[i].0.CText?
    ensures |ps| == |es|
  {
    seq(|es|, i requires 0 <= i < |es| => (es[i].0.t, Ordered(es[i].1)))
  }

  /** Ordering moves the entries of such a map and keeps every one. */
  lemma OrderedPermutes(es: seq<(Cbor, Cbor)>)
    requires DistinctTexts(es)
    ensures Ordered(CMap(es)) == CMap(Rekeyed(FromPairs(OrderedPairs(es))))
    ensures multiset(FromPairs(OrderedPairs(es))) == multiset(OrderedPairs(es))
    ensures Sorted(FromPairs(OrderedPairs(es)))
  {
    var ps := OrderedPairs(es);
    forall i, j | 0 <= i < j < |ps| ensures ps[i].0 != ps[j].0 {
      assert es[i].0 != es[j].0;
    }
    FromDistinct(ps);
    FromPairsSorted(ps);
  }

  // Building the object and building the ordered map go in step

  ghost predicate InStep(es: seq<(Text, Json)>, fs: seq<(Text, Cbor)>) {
    |es| == |fs| && forall i | 0 <= i < |es| :: StepEntry(es[i], fs[i])
  }

  ghost predicate StepEntry(e: (Text, Json), f: (Text, Cbor)) {
    e.0 == f.0 && WellFormed(e.1) && f.1 == ToCbor(e.1)
  }

  lemma {:induction false} InsertInStep(es: seq<(Text, Json)>, fs: seq<(Text, Cbor)>, k: Text, j: Json)
    requires InStep(es, fs) && WellFormed(j)
    ensures InStep(Insert(es, k, j), Insert(fs, k, ToCbor(j)))
  {
    if es == [] {
      assert StepEntry((k, j), (k, ToCbor(j)));
    } else {
      assert StepEntry(es[0], fs[0]) && StepEntry((k, j), (k, ToCbor(j)));
      if k != es[0].0 && !Less(k, es[0].0) {
        InsertInStep(es[1..], fs[1..], k, j);
      }
    }
  }

  lemma {:induction false} FromPairsInStep(ps: seq<(Text, Json)>, qs: seq<(Text, Cbor)>)
    requires InStep(ps, qs)
    ensures InStep(FromPairs(ps), FromPairs(qs))
  {
    if ps != [] {
      var n := |ps| - 1;
      FromPairsInStep(ps[..n], qs[..n]);
      assert StepEntry(ps[n], qs[n]);
      InsertInStep(FromPairs(ps[..n]), FromPairs(qs[..n]), ps[n].0, ps[n].1);
    }
  }

  lemma CarriedText(env: Env, v: Cbor)
    requires Carried(v)
    ensures SameText(v, ToJson(env, v))
  {
  }

  lemma PairsCarryTexts(env: Env, es: seq<(Cbor, Cbor)>)
    requires DistinctTexts(es) && forall i | 0 <= i < |es| :: Carried(es[i].1)
    ensures SameTexts(es, Pairs(env, es)) && DistinctKeys(Pairs(env, es))
  {
    var ps := Pairs(env, es);
    forall i | 0 <= i < |es| ensures SameText(es[i].1, ps[i].1) {
      CarriedText(env, es[i].1);
    }
    forall i, j | 0 <= i < j < |ps| ensures ps[i].0 != ps[j].0 {
      assert es[i].0 != es[j].0;
    }
  }

  lemma MarkerOfDistinct(ps: seq<(Text, Json)>)
    requires DistinctKeys(ps)
    ensures Marker(FromPairs(ps)) == Marker(ps)
  {
    FromPairsGet(ps, TYPE_KEY);
    FromPairsGet(ps, DATA_KEY);
    LastIsFirst(ps, TYPE_KEY);
    LastIsFirst(ps, DATA_KEY);
  }

  lemma ObjectOfDistinct(env: Env, es: seq<(Cbor, Cbor)>)
    requires DistinctTexts(es) && !Disguised(es) && forall i | 0 <= i < |es| :: Carried(es[i].1)
    ensures Marker(FromPairs(Pairs(env, es))).None?
  {
    PairsCarryTexts(env, es);
    DisguisedMeansMarked(es, Pairs(env, es));
    MarkerOfDistinct(Pairs(env, es));
  }

  lemma PairsInStep(env: Env, es: seq<(Cbor, Cbor)>)
    requires DistinctTexts(es) && forall i | 0 <= i < |es| :: Bridged(env, es[i].1) == Ordered(es[i].1)
    ensures InStep(Pairs(env, es), OrderedPairs(es))
  {
    forall i | 0 <= i < |es| ensures StepEntry(Pairs(env, es)[i], OrderedPairs(es)[i]) {
      ToJsonWellFormed(env, es[i].1);
    }
  }

  lemma MapInStep(obj: seq<(Text, Json)>, fs: seq<(Text, Cbor)>)
    requires WellFormed(JObject(obj)) && Marker(obj).None? && InStep(obj, fs)
    ensures ToCbor(JObject(obj)) == CMap(Rekeyed(fs))
  {
    var out := ToCbor(JObject(obj)).entries;
    assert |out| == |fs|;
    forall i | 0 <= i < |out| ensures out[i] == Rekeyed(fs)[i] {
      assert StepEntry(obj[i], fs[i]);
    }
  }

  lemma MapToJson(env: Env, es: seq<(Cbor, Cbor)>)
    ensures ToJson(env, CMap(es)) == JObject(FromPairs(Pairs(env, es)))
  {
  }

  lemma MapCarried(env: Env, es: seq<(Cbor, Cbor)>)
    requires DistinctTexts(es) && !Disguised(es)
    requires forall i | 0 <= i < |es| :: Carried(es[i].1) && Bridged(env, es[i].1) == Ordered(es[i].1)
    ensures Bridged(env, CMap(es)) == Ordered(CMap(es))
  {
    hide Carried, Disguised, ToJson, ToCbor, Ordered, FromPairs, Marker, WellFormed, InStep;
    MapToJson(env, es);
    ObjectOfDistinct(env, es);
    PairsInStep(env, es);
    FromPairsInStep(Pairs(env, es), OrderedPairs(es));
    ToJsonWellFormed(env, CMap(es));
    MapInStep(FromPairs(Pairs(env, es)), FromPairs(OrderedPairs(es)));
    OrderedPermutes(es);
  }

  /** Such a value crosses the bridge unchanged but for the order of map entries. */
  lemma {:induction false} CarriedUpToOrder(env: Env, v: Cbor)
    requires Carried(v)
    ensures Bridged(env, v) == Ordered(v)
  {
    match v
    case CBytes(b) => MarkerOfBuffer(b);
    case CArray(items) =>
      forall i | 0 <= i < |items| ensures Bridged(env, items[i]) == Ordered(items[i]) {
        CarriedUpToOrder(env, items[i]);
      }
      var out := Bridged(env, v).items;
      assert |out| == |items| && forall i | 0 <= i < |items| :: out[i] == Bridged(env, items[i]);
      assert out == Ordered(v).items;
    case CMap(es) =>
      forall i | 0 <= i < |es| ensures Bridged(env, es[i].1) == Ordered(es[i].1) {
        CarriedUpToOrder(env, es[i].1);
      }
      MapCarried(env, es);
    case _ =>
  }

  // The recursive walk itself

  /** `cbor_to_json`. */
  method CborToJson(env: Env, v: Cbor) returns (j: Json)
    ensures j == ToJson(env, v)
    decreases v
  {
    match v
    case CNull => j := JNull;
    case CBool(b) => j := JBool(b);
    case CInteger(i) => j := JNumber(NumberOf(env, i));
    case CFloat(f) =>
      var n := FromFloat(f);
      j := if n.Some? then JNumber(n.value) else JNull;
    case CText(t) => j := JString(t);
    case CBytes(b) =>
      var data := Base64Encode(b);
      j := JObject([(TYPE_KEY, JString(BUFFER)), (DATA_KEY, JString(data))]);
    case CArray(items) =>
      var out: seq<Json> := [];
      for k := 0 to |items|
        invariant |out| == k && forall i | 0 <= i < k :: out[i] == ToJson(env, items[i])
      {
        var item := CborToJson(env, items[k]);
        out := out + [item];
      }
      j := JArray(out);
    case CMap(es) =>
      var obj: seq<(Text, Json)> := [];
      for k := 0 to |es|
        invariant obj == FromPairs(Pairs(env, es)[..k])
      {
        var value := CborToJson(env, es[k].1);
        assert Pairs(env, es)[..k + 1][..k] == Pairs(env, es)[..k];
        obj := Insert(obj, KeyOf(env, es[k].0), value);
      }
      assert Pairs(env, es)[..|es|] == Pairs(env, es);
      j := JObject(obj);
    case CTag(_, inner) => j := CborToJson(env, inner);
    case COther => j := JNull;
  }

  /** `json_to_cbor`. */
  method JsonToCbor(j: Json) returns (v: Cbor)
    requires WellFormed(j)
    ensures v == ToCbor(j)
    decreases j
  {
    match j
    case JNull => v := CNull;
    case JBool(b) => v := CBool(b);
    case JNumber(n) => v := NumberToCbor(n);
    case JString(s) => v := CText(s);
    case JArray(items) =>
      var out: seq<Cbor> := [];
      for k := 0 to |items|
        invariant |out| == k && forall i | 0 <= i < k :: out[i] == ToCbor(items[i])
      {
        var item := JsonToCbor(items[k]);
        out := out + [item];
      }
      v := CArray(out);
    case JObject(es) =>
      var kind, data := Get(es, TYPE_KEY), Get(es, DATA_KEY);
      if kind == Some(JString(BUFFER)) && data.Some? && data.value.JString? {
        var bytes := Base64Decode(data.value.s);
        if bytes.Some? {
          return CBytes(bytes.value);
        }
      }
      var out: seq<(Cbor, Cbor)> := [];
      for k := 0 to |es|
        invariant |out| == k && forall i | 0 <= i < k :: out[i] == (CText(es[i].0), ToCbor(es[i].1))
      {
        var value := JsonToCbor(es[k].1);
        out := out + [(CText(es[k].0), value)];
      }
      v := CMap(out);
  }
}

/** The values the cache stores, and the byte codec it stores them with.

    `Value` is a Python value as far as JSON serialisation goes: `None`,
    booleans, integers, strings, lists and string-keyed dicts (kept as an
    ordered list of fields, as a Python dict keeps insertion order), plus
    `Opaque` for any other object (a `datetime`, say), which JSON cannot
    represent.

    The codec stands in for `json.dumps(v).encode('utf-8')` and
    `json.loads(b.decode('utf-8'))`: a tagged binary encoding with the same
    contract -- it is defined exactly on representable values, it reads
    back what it wrote, and bytes it cannot read give `None`. */
module Json {
  import opened Wrappers

  newtype byte = x: int | 0 <= x < 256

  /** A Python value as `json.dumps` sees it. An `Object` is a dict's
      items in order; the type admits repeated keys, which no dict holds,
      so the codec lemmas range over a few values the program never
      builds (they hold for those too). */
  datatype Value =
    | Null
    | Bool(b: bool)
    | Int(i: int)
    | Str(s: string)
    | List(items: seq<Value>)
    | Object(fields: seq<Field>)
    | Opaque(typeName: string)

  datatype Field = Field(key: string, value: Value)

  /** The keys of a dict, in order. */
  function FieldKeys(fs: seq<Field>): (ks: seq<string>)
    ensures |ks| == |fs|
  {
    if fs == [] then [] else [fs[0].key] + FieldKeys(fs[1..])
  }

  /** `d.get(key)` on a dict without repeated keys. */
  function FieldValue(fs: seq<Field>, key: string): (r: Option<Value>)
    ensures r.None? <==> key !in FieldKeys(fs)
  {
    if fs == [] then None
    else if fs[0].key == key then Some(fs[0].value)
    else FieldValue(fs[1..], key)
  }

  /** Looking up a key finds the value of its first occurrence. */
  lemma {:induction false} FieldValueAt(fs: seq<Field>, key: string, i: nat)
    requires i < |fs| && fs[i].key == key
    requires forall j :: 0 <= j < i ==> fs[j].key != key
    ensures FieldValue(fs, key) == Some(fs[i].value)
    decreases i
  {
    if i > 0 {
      FieldValueAt(fs[1..], key, i - 1);
    }
  }

  /** Whether `json.dumps` accepts the value: no opaque object anywhere in it. */
  predicate Representable(v: Value)
    decreases v, 1
  {
    match v
    case Opaque(_) => false
    case List(items) => RepresentableItems(items)
    case Object(fields) => RepresentableFields(fields)
    case _ => true
  }

  predicate RepresentableItems(items: seq<Value>)
    decreases items, 0
  {
    items == [] || (Representable(items[0]) && RepresentableItems(items[1..]))
  }

  predicate RepresentableFields(fields: seq<Field>)
    decreases fields, 0
  {
    fields == [] || (Representable(fields[0].value) && RepresentableFields(fields[1..]))
  }

  /** A dict whose values are all representable is. */
  lemma {:induction false} FieldsRepresentable(fs: seq<Field>)
    requires forall i :: 0 <= i < |fs| ==> Representable(fs[i].value)
    ensures RepresentableFields(fs)
    decreases |fs|
  {
    if fs != [] {
      FieldsRepresentable(fs[1..]);
    }
  }

  /** Python truthiness, as `if cached_result:` reads it. */
  predicate Truthy(v: Value) {
    match v
    case Null => false
    case Bool(b) => b
    case Int(i) => i != 0
    case Str(s) => s != ""
    case List(items) => items != []
    case Object(fields) => fields != []
    case Opaque(_) => true
  }

  // ---- encoding -------------------------------------------------------------

  /** Base-128 digits, least significant first, high bit set on all but the last. */
  function EncodeNat(n: nat): (b: seq<byte>)
    ensures |b| >= 1
  {
    if n < 128 then [n as byte] else [(128 + n % 128) as byte] + EncodeNat(n / 128)
  }

  function EncodeChars(s: string): seq<byte> {
    if s == [] then [] else EncodeNat(s[0] as int) + EncodeChars(s[1..])
  }

  function EncodeString(s: string): seq<byte> {
    EncodeNat(|s|) + EncodeChars(s)
  }

  function Encode(v: Value): (b: seq<byte>)
    requires Representable(v)
    ensures |b| >= 1
    decreases v, 1
  {
    match v
    case Null => [0]
    case Bool(b) => [if b then 2 else 1]
    case Int(i) => if i >= 0 then [3] + EncodeNat(i) else [4] + EncodeNat(-i - 1)
    case Str(s) => [5] + EncodeString(s)
    case List(items) => [6] + EncodeNat(|items|) + EncodeItems(items)
    case Object(fields) => [7] + EncodeNat(|fields|) + EncodeFields(fields)
  }

  function EncodeItems(items: seq<Value>): seq<byte>
    requires RepresentableItems(items)
    decreases items, 0
  {
    if items == [] then [] else Encode(items[0]) + EncodeItems(items[1..])
  }

  function EncodeFields(fields: seq<Field>): seq<byte>
    requires RepresentableFields(fields)
    decreases fields, 0
  {
    if fields == [] then [] else EncodeField(fields[0]) + EncodeFields(fields[1..])
  }

  function EncodeField(f: Field): seq<byte>
    requires Representable(f.value)
    decreases f.value, 2
  {
    EncodeString(f.key) + Encode(f.value)
  }

  // ---- decoding -------------------------------------------------------------

  function DecodeNat(b: seq<byte>): (r: Option<(nat, nat)>)
    ensures r.Some? ==> 1 <= r.value.1 <= |b|
  {
    if |b| == 0 then None
    else if b[0] < 128 then Some((b[0] as nat, 1))
    else
      match DecodeNat(b[1..])
      case None => None
      case Some((n, k)) => Some(((b[0] as nat - 128) + 128 * n, k + 1))
  }

  predicate IsScalar(n: nat) {
    n < 0xD800 || (0xE000 <= n < 0x11_0000)
  }

  function DecodeChars(b: seq<byte>, count: nat): (r: Option<(string, nat)>)
    ensures r.Some? ==> r.value.1 <= |b| && |r.value.0| == count
    decreases count
  {
    if count == 0 then Some(([], 0))
    else
      match DecodeNat(b)
      case None => None
      case Some((n, k)) =>
        if !IsScalar(n) then None
        else
          match DecodeChars(b[k..], count - 1)
          case None => None
          case Some((s, j)) => Some(([n as char] + s, k + j))
  }

  function DecodeString(b: seq<byte>): (r: Option<(string, nat)>)
    ensures r.Some? ==> 1 <= r.value.1 <= |b|
  {
    match DecodeNat(b)
    case None => None
    case Some((len, k)) =>
      match DecodeChars(b[k..], len)
      case None => None
      case Some((s, j)) => Some((s, k + j))
  }

  /** Reads one value from the front of `b`, with the number of bytes used. */
  function Decode(b: seq<byte>): (r: Option<(Value, nat)>)
    ensures r.Some? ==> 1 <= r.value.1 <= |b|
    decreases |b|, 0
  {
    if |b| == 0 then None
    else if b[0] == 0 then Some((Null, 1))
    else if b[0] == 1 then Some((Bool(false), 1))
    else if b[0] == 2 then Some((Bool(true), 1))
    else if b[0] == 3 then Then(DecodeInt(b[1..], false))
    else if b[0] == 4 then Then(DecodeInt(b[1..], true))
    else if b[0] == 5 then Then(DecodeStr(b[1..]))
    else if b[0] == 6 then Then(DecodeList(b[1..]))
    else if b[0] == 7 then Then(DecodeObject(b[1..]))
    else None
  }

  /** Accounts for the tag byte in front of a body that was read. */
  function Then(r: Option<(Value, nat)>): (r': Option<(Value, nat)>)
    ensures r.None? <==> r'.None?
    ensures r.Some? ==> r' == Some((r.value.0, r.value.1 + 1))
  {
    match r
    case None => None
    case Some((v, k)) => Some((v, k + 1))
  }

  function DecodeInt(b: seq<byte>, negative: bool): (r: Option<(Value, nat)>)
    ensures r.Some? ==> r.value.1 <= |b|
  {
    match DecodeNat(b)
    case None => None
    case Some((n, k)) => Some((if negative then Int(-(n as int) - 1) else Int(n), k))
  }

  function DecodeStr(b: seq<byte>): (r: Option<(Value, nat)>)
    ensures r.Some? ==> r.value.1 <= |b|
  {
    match DecodeString(b)
    case None => None
    case Some((s, k)) => Some((Str(s), k))
  }

  function DecodeList(b: seq<byte>): (r: Option<(Value, nat)>)
    ensures r.Some? ==> r.value.1 <= |b|
    decreases |b|, 2
  {
    match DecodeNat(b)
    case None => None
    case Some((count, k)) =>
      match DecodeItems(b[k..], count)
      case None => None
      case Some((items, j)) => Some((List(items), k + j))
  }

  function DecodeObject(b: seq<byte>): (r: Option<(Value, nat)>)
    ensures r.Some? ==> r.value.1 <= |b|
    decreases |b|, 2
  {
    match DecodeNat(b)
    case None => None
    case Some((count, k)) =>
      match DecodeFields(b[k..], count)
      case None => None
      case Some((fields, j)) => Some((Object(fields), k + j))
  }

  function DecodeItems(b: seq<byte>, count: nat): (r: Option<(seq<Value>, nat)>)
    ensures r.Some? ==> r.value.1 <= |b|
    decreases |b|, 1, count
  {
    if count == 0 then Some(([], 0))
    else
      match Decode(b)
      case None => None
      case Some((v, k)) =>
        match DecodeItems(b[k..], count - 1)
        case None => None
        case Some((vs, j)) => Some(([v] + vs, k + j))
  }

  function DecodeFields(b: seq<byte>, count: nat): (r: Option<(seq<Field>, nat)>)
    ensures r.Some? ==> r.value.1 <= |b|
    decreases |b|, 1, count
  {
    if count == 0 then Some(([], 0))
    else
      match DecodeField(b)
      case None => None
      case Some((f, k)) =>
        match DecodeFields(b[k..], count - 1)
        case None => None
        case Some((fs, j)) => Some(([f] + fs, k + j))
  }

  /** One key/value pair of an object. */
  function DecodeField(b: seq<byte>): (r: Option<(Field, nat)>)
    ensures r.Some? ==> 1 <= r.value.1 <= |b|
    decreases |b|, 1, 0
  {
    match DecodeString(b)
    case None => None
    case Some((key, k)) =>
      match Decode(b[k..])
      case None => None
      case Some((v, j)) => Some((Field(key, v), k + j))
  }

  // ---- the cache's two entry points ------------------------------------------

  /** `_serialize`: the bytes of a representable value, or the `ValueError`
      the cache raises for any other value. */
  function Serialize(v: Value): (r: Reply<seq<byte>>)
    ensures r.Ok? <==> Representable(v)
  {
    if Representable(v) then Ok(Encode(v))
    else Raised("ValueError: Could not serialize value to JSON")
  }

  /** `_deserialize`: the value the bytes hold, or `None` when they are not
      exactly one well-formed value. */
  function Deserialize(b: seq<byte>): Value {
    match Decode(b)
    case Some((v, k)) => if k == |b| then v else Null
    case None => Null
  }

  // ---- round trip -------------------------------------------------------------

  lemma {:induction false} DecodeNatEncode(n: nat, rest: seq<byte>)
    ensures DecodeNat(EncodeNat(n) + rest) == Some((n, |EncodeNat(n)|))
    decreases n
  {
    var b := EncodeNat(n) + rest;
    if n >= 128 {
      DecodeNatEncode(n / 128, rest);
      assert b[1..] == EncodeNat(n / 128) + rest;
    }
  }

  lemma {:induction false} DecodeCharsEncode(s: string, rest: seq<byte>)
    ensures DecodeChars(EncodeChars(s) + rest, |s|) == Some((s, |EncodeChars(s)|))
    decreases |s|
  {
    if s != [] {
      var e := EncodeNat(s[0] as int);
      var tail := EncodeChars(s[1..]) + rest;
      var b := EncodeChars(s) + rest;
      EncodeCharsCons(s, rest);
      DecodeNatEncode(s[0] as int, tail);
      DropPrefix(e, tail);
      DecodeCharsEncode(s[1..], rest);
      DecodeCharsStep(b, |s|, s[0] as int, |e|, s[1..], |EncodeChars(s[1..])|);
      assert [(s[0] as int) as char] + s[1..] == s;
      assert DecodeChars(b, |s|) == Some((s, |e| + |EncodeChars(s[1..])|));
    } else {
      assert EncodeChars(s) + rest == rest;
    }
  }

  lemma EncodeCharsCons(s: string, rest: seq<byte>)
    requires s != []
    ensures EncodeChars(s) + rest == EncodeNat(s[0] as int) + (EncodeChars(s[1..]) + rest)
    ensures |EncodeChars(s)| == |EncodeNat(s[0] as int)| + |EncodeChars(s[1..])|
  {
    Assoc(EncodeNat(s[0] as int), EncodeChars(s[1..]), rest);
  }

  /** One character of `DecodeChars`. */
  lemma DecodeCharsStep(b: seq<byte>, count: nat, n: nat, k: nat, s: string, j: nat)
    requires count > 0 && k <= |b| && DecodeNat(b) == Some((n, k)) && IsScalar(n)
    requires DecodeChars(b[k..], count - 1) == Some((s, j))
    ensures DecodeChars(b, count) == Some(([n as char] + s, k + j))
  {
  }

  lemma DecodeStringEncode(s: string, rest: seq<byte>)
    ensures DecodeString(EncodeString(s) + rest) == Some((s, |EncodeString(s)|))
  {
    var b := EncodeString(s) + rest;
    var e := EncodeNat(|s|);
    assert b == e + (EncodeChars(s) + rest);
    DecodeNatEncode(|s|, EncodeChars(s) + rest);
    assert b[|e|..] == EncodeChars(s) + rest;
    DecodeCharsEncode(s, rest);
  }

  /** Decoding reads back exactly what encoding wrote, whatever follows it. */
  lemma {:induction false} DecodeEncode(v: Value, rest: seq<byte>)
    requires Representable(v)
    ensures Decode(Encode(v) + rest) == Some((v, |Encode(v)|))
    decreases v, 2
  {
    match v
    case Null =>
    case Bool(_) =>
    case Int(i) =>
      DecodeEncodeInt(i, rest);
    case Str(s) =>
      DecodeEncodeStr(s, rest);
    case List(items) =>
      DecodeEncodeList(items, rest);
    case Object(fields) =>
      DecodeEncodeObject(fields, rest);
  }

  lemma DecodeEncodeInt(i: int, rest: seq<byte>)
    ensures Decode(Encode(Int(i)) + rest) == Some((Int(i), |Encode(Int(i))|))
  {
    var n: nat := if i >= 0 then i else -i - 1;
    var b := Encode(Int(i)) + rest;
    assert b[1..] == EncodeNat(n) + rest;
    DecodeNatEncode(n, rest);
    assert DecodeInt(b[1..], i < 0) == Some((Int(i), |EncodeNat(n)|));
  }

  lemma DecodeEncodeStr(s: string, rest: seq<byte>)
    ensures Decode(Encode(Str(s)) + rest) == Some((Str(s), |Encode(Str(s))|))
  {
    var b := Encode(Str(s)) + rest;
    assert b[1..] == EncodeString(s) + rest;
    DecodeStringEncode(s, rest);
    assert DecodeStr(b[1..]) == Some((Str(s), |EncodeString(s)|));
  }

  lemma {:induction false} DecodeEncodeList(items: seq<Value>, rest: seq<byte>)
    requires RepresentableItems(items)
    ensures Representable(List(items))
    ensures Decode(Encode(List(items)) + rest) == Some((List(items), |Encode(List(items))|))
    decreases List(items), 1
  {
    var e := EncodeNat(|items|);
    var tail := EncodeItems(items) + rest;
    Assoc4([6], e, EncodeItems(items), rest);
    DecodeListTag(e + tail);
    DecodeNatEncode(|items|, tail);
    DropPrefix(e, tail);
    DecodeItemsEncode(items, rest);
    DecodeListStep(e + tail, |items|, |e|, items, |EncodeItems(items)|);
  }

  lemma {:induction false} DecodeEncodeObject(fields: seq<Field>, rest: seq<byte>)
    requires RepresentableFields(fields)
    ensures Representable(Object(fields))
    ensures Decode(Encode(Object(fields)) + rest) == Some((Object(fields), |Encode(Object(fields))|))
    decreases Object(fields), 1
  {
    var e := EncodeNat(|fields|);
    var tail := EncodeFields(fields) + rest;
    Assoc4([7], e, EncodeFields(fields), rest);
    DecodeObjectTag(e + tail);
    DecodeNatEncode(|fields|, tail);
    DropPrefix(e, tail);
    DecodeFieldsEncode(fields, rest);
    DecodeObjectStep(e + tail, |fields|, |e|, fields, |EncodeFields(fields)|);
  }

  lemma {:induction false} DecodeItemsEncode(items: seq<Value>, rest: seq<byte>)
    requires RepresentableItems(items)
    ensures DecodeItems(EncodeItems(items) + rest, |items|) == Some((items, |EncodeItems(items)|))
    decreases items, 0
  {
    if items != [] {
      var e := Encode(items[0]);
      var tail := EncodeItems(items[1..]) + rest;
      Assoc(e, EncodeItems(items[1..]), rest);
      DecodeEncode(items[0], tail);
      DropPrefix(e, tail);
      DecodeItemsEncode(items[1..], rest);
      DecodeItemsCons(e + tail, items, |e|, |EncodeItems(items[1..])|);
    }
  }

  lemma {:induction false} DecodeFieldsEncode(fields: seq<Field>, rest: seq<byte>)
    requires RepresentableFields(fields)
    ensures DecodeFields(EncodeFields(fields) + rest, |fields|) == Some((fields, |EncodeFields(fields)|))
    decreases fields, 0
  {
    if fields != [] {
      var e := EncodeField(fields[0]);
      var tail := EncodeFields(fields[1..]) + rest;
      Assoc(e, EncodeFields(fields[1..]), rest);
      DecodeFieldEncode(fields[0], tail);
      DropPrefix(e, tail);
      DecodeFieldsEncode(fields[1..], rest);
      DecodeFieldsCons(e + tail, fields, |e|, |EncodeFields(fields[1..])|);
    }
  }

  lemma {:induction false} DecodeFieldEncode(f: Field, rest: seq<byte>)
    requires Representable(f.value)
    ensures DecodeField(EncodeField(f) + rest) == Some((f, |EncodeField(f)|))
    decreases f.value, 3
  {
    var ek := EncodeString(f.key);
    var ev := Encode(f.value);
    Assoc(ek, ev, rest);
    DecodeStringEncode(f.key, ev + rest);
    DropPrefix(ek, ev + rest);
    DecodeEncode(f.value, rest);
  }

  // One unfolding of each decoder, stated over opaque arguments.

  lemma DecodeListTag(body: seq<byte>)
    ensures Decode([6] + body) == Then(DecodeList(body))
  {
    DropPrefix([6], body);
  }

  lemma DecodeObjectTag(body: seq<byte>)
    ensures Decode([7] + body) == Then(DecodeObject(body))
  {
    DropPrefix([7], body);
  }

  lemma DecodeListStep(b: seq<byte>, count: nat, k: nat, items: seq<Value>, j: nat)
    requires k <= |b| && DecodeNat(b) == Some((count, k))
    requires DecodeItems(b[k..], count) == Some((items, j))
    ensures DecodeList(b) == Some((List(items), k + j))
  {
  }

  lemma DecodeObjectStep(b: seq<byte>, count: nat, k: nat, fields: seq<Field>, j: nat)
    requires k <= |b| && DecodeNat(b) == Some((count, k))
    requires DecodeFields(b[k..], count) == Some((fields, j))
    ensures DecodeObject(b) == Some((Object(fields), k + j))
  {
  }

  lemma DecodeItemsStep(b: seq<byte>, count: nat, v: Value, k: nat, vs: seq<Value>, j: nat)
    requires count > 0 && k <= |b|
    requires Decode(b) == Some((v, k))
    requires DecodeItems(b[k..], count - 1) == Some((vs, j))
    ensures DecodeItems(b, count) == Some(([v] + vs, k + j))
  {
  }

  lemma DecodeFieldsStep(b: seq<byte>, count: nat, f: Field, k: nat, fs: seq<Field>, j: nat)
    requires count > 0 && k <= |b|
    requires DecodeField(b) == Some((f, k))
    requires DecodeFields(b[k..], count - 1) == Some((fs, j))
    ensures DecodeFields(b, count) == Some(([f] + fs, k + j))
  {
  }

  lemma DecodeItemsCons(b: seq<byte>, items: seq<Value>, k: nat, j: nat)
    requires items != [] && k <= |b|
    requires Decode(b) == Some((items[0], k))
    requires DecodeItems(b[k..], |items| - 1) == Some((items[1..], j))
    ensures DecodeItems(b, |items|) == Some((items, k + j))
  {
    DecodeItemsStep(b, |items|, items[0], k, items[1..], j);
    ConsSplit(items);
  }

  lemma DecodeFieldsCons(b: seq<byte>, fields: seq<Field>, k: nat, j: nat)
    requires fields != [] && k <= |b|
    requires DecodeField(b) == Some((fields[0], k))
    requires DecodeFields(b[k..], |fields| - 1) == Some((fields[1..], j))
    ensures DecodeFields(b, |fields|) == Some((fields, k + j))
  {
    DecodeFieldsStep(b, |fields|, fields[0], k, fields[1..], j);
    ConsSplit(fields);
  }

  // Sequence facts, proved away from the decoders.

  lemma ConsSplit<T>(s: seq<T>)
    requires s != []
    ensures [s[0]] + s[1..] == s
  {
  }

  lemma DropPrefix<T>(e: seq<T>, tail: seq<T>)
    ensures (e + tail)[|e|..] == tail
  {
  }

  lemma Assoc<T>(a: seq<T>, b: seq<T>, c: seq<T>)
    ensures a + b + c == a + (b + c)
  {
  }

  lemma Assoc4<T>(a: seq<T>, b: seq<T>, c: seq<T>, d: seq<T>)
    ensures a + b + c + d == a + (b + (c + d))
  {
  }

  /** `_deserialize(_serialize(v)) == v` for every value JSON can represent. */
  lemma RoundTrip(v: Value)
    requires Representable(v)
    ensures Serialize(v).Ok? && Deserialize(Serialize(v).value) == v
  {
    DecodeEncode(v, []);
    assert Encode(v) + [] == Encode(v);
  }

  /** Serialisation is injective on representable values. */
  lemma SerializeInjective(v: Value, w: Value)
    requires Representable(v) && Representable(w)
    requires Serialize(v) == Serialize(w)
    ensures v == w
  {
    RoundTrip(v);
    RoundTrip(w);
  }

  /** Bytes that are not a whole value (here: trailing garbage after one)
      read as `None`. */
  lemma TrailingBytesAreMalformed(v: Value, extra: seq<byte>)
    requires Representable(v) && extra != []
    ensures Deserialize(Encode(v) + extra) == Null
  {
    DecodeEncode(v, extra);
  }
}

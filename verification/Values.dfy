/** Convex values, their wire trees and the Go values callers see.

    A wire tree is the value that encoding/json hands over or is handed: printing and
    parsing JSON text is not modelled.  Floats are carried as their 64-bit patterns. */
module Values {
  import opened Prelude
  import opened NumberCodecs

  datatype Value =
    | Null
    | Int64(i: int64)
    | Float64(bits: Word)
    | Boolean(b: bool)
    | Str(s: string)
    | Bytes(data: seq<byte>)
    | Array(items: seq<Value>)
    | Object(fields: map<string, Value>)

  /** WNumber is a JSON number literal with the float it parses to, if it is in range. */
  datatype Wire =
    | WNull
    | WBool(b: bool)
    | WString(s: string)
    | WNumber(parsed: Option<Word>)
    | WFloat(bits: Word)
    | WArray(items: seq<Wire>)
    | WObject(fields: map<string, Wire>)

  datatype GoValue =
    | GoNil
    | GoInt64(i: int64)
    | GoFloat64(bits: Word)
    | GoBool(b: bool)
    | GoString(s: string)
    | GoBytes(data: seq<byte>)
    | GoSlice(items: seq<GoValue>)
    | GoMap(fields: map<string, GoValue>)

  const MAX_FIELD_LENGTH := 1024

  predicate ValidFieldChar(c: char) { 32 <= c as int < 127 }

  predicate ValidField(k: string) {
    |k| <= MAX_FIELD_LENGTH && !("$" <= k) && forall i :: 0 <= i < |k| ==> ValidFieldChar(k[i])
  }

  /** validateObjectField, with its scan over the characters. */
  method ValidateObjectField(k: string) returns (ok: bool)
    ensures ok <==> ValidField(k)
  {
    if |k| > MAX_FIELD_LENGTH {
      return false;
    }
    if "$" <= k {
      return false;
    }
    for i := 0 to |k|
      invariant forall j :: 0 <= j < i ==> ValidFieldChar(k[j])
    {
      if k[i] as int < 32 || k[i] as int >= 127 {
        assert !ValidFieldChar(k[i]);
        return false;
      }
    }
    return true;
  }

  /** NaN and the infinities have all exponent bits set; -0 has only the sign bit. */
  predicate IsSpecialFloat(bits: Word) {
    bits / 0x10_0000_0000_0000 % 2048 == 2047 || bits == 0x8000_0000_0000_0000
  }

  predicate IsNaNOrInf(bits: Word) {
    bits / 0x10_0000_0000_0000 % 2048 == 2047
  }

  // ---- typed values to wire ----

  function EncodedInt64(n: int64): Wire { WObject(map["$integer" := WString(EncodeInt64(n))]) }

  function EncodedFloat64(bits: Word): Wire {
    if IsSpecialFloat(bits) then WObject(map["$float" := WString(EncodeWord(bits))]) else WFloat(bits)
  }

  function EncodedBytes(data: seq<byte>): Wire { WObject(map["$bytes" := WString(Encode(Std, data))]) }

  function ConvexJSON(v: Value): Option<Wire> {
    match v
    case Null => Some(WNull)
    case Int64(i) => Some(EncodedInt64(i))
    case Float64(bits) => Some(EncodedFloat64(bits))
    case Boolean(b) => Some(WBool(b))
    case Str(s) => Some(WString(s))
    case Bytes(data) => Some(EncodedBytes(data))
    case Array(items) =>
      if forall i :: 0 <= i < |items| ==> ConvexJSON(items[i]).Some? then
        Some(WArray(seq(|items|, i requires 0 <= i < |items| => ConvexJSON(items[i]).value)))
      else None
    case Object(fields) =>
      if forall k :: k in fields ==> ValidField(k) && ConvexJSON(fields[k]).Some? then
        Some(WObject(map k | k in fields :: ConvexJSON(fields[k]).value))
      else None
  }

  /** Values whose object fields, at every depth, have permitted names. */
  predicate WellFormed(v: Value) {
    match v
    case Array(items) => forall i :: 0 <= i < |items| ==> WellFormed(items[i])
    case Object(fields) => forall k :: k in fields ==> ValidField(k) && WellFormed(fields[k])
    case _ => true
  }

  // ---- wire to typed values ----

  function DecodeTextWord(raw: Wire): Option<Word> {
    if raw.WString? then DecodeWord(raw.s) else None
  }

  function DecodeTextBytes(raw: Wire): Option<seq<byte>> {
    if raw.WString? then DecodeCompat(raw.s) else None
  }

  function TaggedValue(key: string, raw: Wire): Option<Value> {
    match key
    case "$bytes" => (match DecodeTextBytes(raw) case Some(bs) => Some(Bytes(bs)) case None => None)
    case "$integer" => (match DecodeTextWord(raw) case Some(w) => Some(Int64(ToSigned(w))) case None => None)
    case "$float" =>
      (match DecodeTextWord(raw)
       case Some(w) => if IsSpecialFloat(w) then Some(Float64(w)) else None
       case None => None)
    case _ => None
  }

  const RESERVED_KEYS: set<string> := {"$bytes", "$integer", "$float", "$set", "$map"}

  /** The reserved key of a one-field object, if that is what the fields are. */
  function ReservedKey(fields: map<string, Wire>): (r: Option<string>)
    ensures r.Some? ==> r.value in RESERVED_KEYS && fields.Keys == {r.value}
    ensures r.None? ==> !exists k :: k in RESERVED_KEYS && fields.Keys == {k}
  {
    if fields.Keys == {"$bytes"} then Some("$bytes")
    else if fields.Keys == {"$integer"} then Some("$integer")
    else if fields.Keys == {"$float"} then Some("$float")
    else if fields.Keys == {"$set"} then Some("$set")
    else if fields.Keys == {"$map"} then Some("$map")
    else None
  }

  function ValueFromWire(w: Wire): Option<Value> {
    match w
    case WNull => Some(Null)
    case WBool(b) => Some(Boolean(b))
    case WString(s) => Some(Str(s))
    case WNumber(parsed) => (match parsed case Some(bits) => Some(Float64(bits)) case None => None)
    case WFloat(bits) => Some(Float64(bits))
    case WArray(items) =>
      if forall i :: 0 <= i < |items| ==> ValueFromWire(items[i]).Some? then
        Some(Array(seq(|items|, i requires 0 <= i < |items| => ValueFromWire(items[i]).value)))
      else None
    case WObject(fields) =>
      match ReservedKey(fields)
      case Some(key) => TaggedValue(key, fields[key])
      case None =>
        if forall k :: k in fields ==> ValidField(k) && ValueFromWire(fields[k]).Some? then
          Some(Object(map k | k in fields :: ValueFromWire(fields[k]).value))
        else None
  }

  // ---- Go values ----

  function ToGo(v: Value): GoValue {
    match v
    case Null => GoNil
    case Int64(i) => GoInt64(i)
    case Float64(bits) => GoFloat64(bits)
    case Boolean(b) => GoBool(b)
    case Str(s) => GoString(s)
    case Bytes(data) => GoBytes(data)
    case Array(items) => GoSlice(seq(|items|, i requires 0 <= i < |items| => ToGo(items[i])))
    case Object(fields) => GoMap(map k | k in fields :: ToGo(fields[k]))
  }

  function TaggedGo(key: string, raw: Wire): Option<GoValue> {
    match key
    case "$bytes" => (match DecodeTextBytes(raw) case Some(bs) => Some(GoBytes(bs)) case None => None)
    case "$integer" => (match DecodeTextWord(raw) case Some(w) => Some(GoInt64(ToSigned(w))) case None => None)
    case "$float" => (match DecodeTextWord(raw) case Some(w) => Some(GoFloat64(w)) case None => None)
    case _ => None
  }

  /** decodeValue: straight from the wire to Go values. */
  function DecodeValue(w: Wire): Option<GoValue> {
    match w
    case WNull => Some(GoNil)
    case WBool(b) => Some(GoBool(b))
    case WString(s) => Some(GoString(s))
    case WNumber(parsed) => (match parsed case Some(bits) => Some(GoFloat64(bits)) case None => None)
    case WFloat(bits) => Some(GoFloat64(bits))
    case WArray(items) =>
      if forall i :: 0 <= i < |items| ==> DecodeValue(items[i]).Some? then
        Some(GoSlice(seq(|items|, i requires 0 <= i < |items| => DecodeValue(items[i]).value)))
      else None
    case WObject(fields) =>
      match ReservedKey(fields)
      case Some(key) => TaggedGo(key, fields[key])
      case None =>
        if forall k :: k in fields ==> ValidField(k) && DecodeValue(fields[k]).Some? then
          Some(GoMap(map k | k in fields :: DecodeValue(fields[k]).value))
        else None
  }

  /** encodeValue on the shapes ToGo produces. */
  function EncodeGo(g: GoValue): Option<Wire> {
    match g
    case GoNil => Some(WNull)
    case GoInt64(i) => Some(EncodedInt64(i))
    case GoFloat64(bits) => Some(EncodedFloat64(bits))
    case GoBool(b) => Some(WBool(b))
    case GoString(s) => Some(WString(s))
    case GoBytes(data) => Some(EncodedBytes(data))
    case GoSlice(items) =>
      if forall i :: 0 <= i < |items| ==> EncodeGo(items[i]).Some? then
        Some(WArray(seq(|items|, i requires 0 <= i < |items| => EncodeGo(items[i]).value)))
      else None
    case GoMap(fields) =>
      if forall k :: k in fields ==> ValidField(k) && EncodeGo(fields[k]).Some? then
        Some(WObject(map k | k in fields :: EncodeGo(fields[k]).value))
      else None
  }

  // ---- round trips ----

  lemma {:induction false} EncodesExactlyWellFormed(v: Value)
    ensures ConvexJSON(v).Some? <==> WellFormed(v)
  {
    match v
    case Array(items) =>
      forall i | 0 <= i < |items| { EncodesExactlyWellFormed(items[i]); }
    case Object(fields) =>
      forall k | k in fields { EncodesExactlyWellFormed(fields[k]); }
    case _ =>
  }

  lemma TaggedRoundTrip(v: Value)
    requires v.Int64? || v.Float64? || v.Bytes?
    ensures ValueFromWire(ConvexJSON(v).value) == Some(v)
  {
    hide EncodeWord, DecodeWord, DecodeCompat, Encode, IsSpecialFloat;
    match v
    case Int64(i) =>
      WordRoundTrip(ToUnsigned(i));
      assert ConvexJSON(v).value.fields.Keys == {"$integer"};
    case Float64(bits) =>
      if IsSpecialFloat(bits) {
        WordRoundTrip(bits);
        assert ConvexJSON(v).value.fields.Keys == {"$float"};
      }
    case Bytes(data) =>
      DecodeCompatInvertsEncode(Std, data);
      assert ConvexJSON(v).value.fields.Keys == {"$bytes"};
  }

  lemma ValidFieldsAreNotReserved(fields: map<string, Wire>)
    requires forall k :: k in fields ==> ValidField(k)
    ensures ReservedKey(fields).None?
  {
    forall k | k in RESERVED_KEYS ensures !ValidField(k) {
      assert k[0] == '$';
      assert "$" <= k;
    }
  }

  /** Decoding the wire form of a well-formed value gives that value back. */
  lemma {:induction false} ValueRoundTrip(v: Value)
    requires WellFormed(v)
    ensures ConvexJSON(v).Some? && ValueFromWire(ConvexJSON(v).value) == Some(v)
  {
    EncodesExactlyWellFormed(v);
    match v
    case Array(items) =>
      forall i | 0 <= i < |items|
        ensures ConvexJSON(items[i]).Some? && ValueFromWire(ConvexJSON(items[i]).value) == Some(items[i])
      {
        ValueRoundTrip(items[i]);
      }
      var w := ConvexJSON(v).value;
      assert forall i :: 0 <= i < |items| ==> w.items[i] == ConvexJSON(items[i]).value;
      assert ValueFromWire(w).value.items == items;
    case Object(fields) =>
      forall k | k in fields
        ensures ConvexJSON(fields[k]).Some? && ValueFromWire(ConvexJSON(fields[k]).value) == Some(fields[k])
      {
        ValueRoundTrip(fields[k]);
      }
      var w := ConvexJSON(v).value;
      ValidFieldsAreNotReserved(w.fields);
      assert ValueFromWire(w).value.fields == fields;
    case Null =>
    case Boolean(b) =>
    case Str(s) =>
    case _ => TaggedRoundTrip(v);
  }

  lemma {:induction false} DecodedIsWellFormed(w: Wire)
    requires ValueFromWire(w).Some?
    ensures WellFormed(ValueFromWire(w).value)
  {
    match w
    case WArray(items) =>
      forall i | 0 <= i < |items| { DecodedIsWellFormed(items[i]); }
    case WObject(fields) =>
      if ReservedKey(fields).None? {
        forall k | k in fields { DecodedIsWellFormed(fields[k]); }
      }
    case _ =>
  }

  /** Wire trees the encoder could have written: no number literals, no bare special
      floats, and every tag carries the padded standard-alphabet text of its bytes. */
  predicate Normal(w: Wire) {
    match w
    case WNumber(_) => false
    case WFloat(bits) => !IsSpecialFloat(bits)
    case WArray(items) => forall i :: 0 <= i < |items| ==> Normal(items[i])
    case WObject(fields) =>
      (match ReservedKey(fields)
       case Some(key) =>
         DecodeTextBytes(fields[key]).Some? && fields[key].s == Encode(Std, DecodeTextBytes(fields[key]).value)
       case None => forall k :: k in fields ==> Normal(fields[k]))
    case _ => true
  }

  /** Every accepted wire tree has a normal form: it re-encodes, and the result decodes
      to the same value.  Re-encoding changes the tree exactly when it was not normal. */
  lemma NormalForm(w: Wire)
    requires ValueFromWire(w).Some?
    ensures var v := ValueFromWire(w).value;
      && ConvexJSON(v).Some?
      && ValueFromWire(ConvexJSON(v).value) == Some(v)
      && (ConvexJSON(v).value == w <==> Normal(w))
  {
    DecodedIsWellFormed(w);
    ValueRoundTrip(ValueFromWire(w).value);
    ReencodesToItself(w);
  }

  lemma TagReencodes(key: string, raw: Wire)
    requires TaggedValue(key, raw).Some?
    ensures DecodeTextBytes(raw).Some?
    ensures ConvexJSON(TaggedValue(key, raw).value) ==
            Some(WObject(map[key := WString(Encode(Std, DecodeTextBytes(raw).value))]))
  {
    hide DecodeCompat, Encode, LittleEndian, FromLittleEndian, IsSpecialFloat;
    if key != "$bytes" {
      var bs := DecodeTextBytes(raw).value;
      FromLittleEndianRoundTrip(bs);
      assert ToUnsigned(ToSigned(FromLittleEndian(bs))) == FromLittleEndian(bs);
    }
  }

  lemma {:induction false} ReencodesToItself(w: Wire)
    requires ValueFromWire(w).Some?
    ensures ConvexJSON(ValueFromWire(w).value) == Some(w) <==> Normal(w)
  {
    hide DecodeCompat, Encode, EncodeWord, DecodeWord, TaggedValue, WellFormed, ValidField, IsSpecialFloat;
    DecodedIsWellFormed(w);
    var v := ValueFromWire(w).value;
    EncodesExactlyWellFormed(v);
    match w
    case WArray(items) =>
      forall i | 0 <= i < |items| { ReencodesToItself(items[i]); }
      assert forall i :: 0 <= i < |items| ==> v.items[i] == ValueFromWire(items[i]).value;
      if Normal(w) {
        assert ConvexJSON(v).value.items == items;
      } else {
        var i :| 0 <= i < |items| && !Normal(items[i]);
        assert ConvexJSON(v).value.items[i] != items[i];
      }
    case WObject(fields) =>
      if ReservedKey(fields).Some? {
        var key := ReservedKey(fields).value;
        TagReencodes(key, fields[key]);
        assert fields == map[key := fields[key]];
        assert (map[key := WString(Encode(Std, DecodeTextBytes(fields[key]).value))])[key].s
            == Encode(Std, DecodeTextBytes(fields[key]).value);
      } else {
        forall k | k in fields { ReencodesToItself(fields[k]); }
        if Normal(w) {
          assert ConvexJSON(v).value.fields == fields;
        } else {
          var k :| k in fields && !Normal(fields[k]);
          assert ConvexJSON(v).value.fields[k] != fields[k];
        }
      }
    case _ =>
  }

  /** Distinct well-formed values have distinct wire forms. */
  lemma ConvexJSONInjective(v: Value, u: Value)
    requires WellFormed(v) && WellFormed(u)
    ensures ConvexJSON(v) == ConvexJSON(u) <==> v == u
  {
    ValueRoundTrip(v);
    ValueRoundTrip(u);
  }

  // ---- the two decoders and the two encoders agree ----

  /** A $float tag around a float that has an ordinary number spelling, at any depth
      that the decoders reach. */
  predicate WrapsOrdinaryFloat(w: Wire) {
    match w
    case WArray(items) => exists i :: 0 <= i < |items| && WrapsOrdinaryFloat(items[i])
    case WObject(fields) =>
      (match ReservedKey(fields)
       case Some(key) =>
         key == "$float" && DecodeTextWord(fields[key]).Some? && !IsSpecialFloat(DecodeTextWord(fields[key]).value)
       case None => exists k :: k in fields && WrapsOrdinaryFloat(fields[k]))
    case _ => false
  }

  /** Whatever the typed decoder accepts, the direct decoder accepts as the same Go value;
      and the direct decoder accepts more exactly where an ordinary float is wrapped. */
  lemma {:induction false} DecodersAgree(w: Wire)
    ensures ValueFromWire(w).Some? <==> DecodeValue(w).Some? && !WrapsOrdinaryFloat(w)
    ensures ValueFromWire(w).Some? ==> DecodeValue(w) == Some(ToGo(ValueFromWire(w).value))
  {
    match w
    case WArray(items) =>
      forall i | 0 <= i < |items|
        ensures ValueFromWire(items[i]).Some? <==> DecodeValue(items[i]).Some? && !WrapsOrdinaryFloat(items[i])
        ensures ValueFromWire(items[i]).Some? ==> DecodeValue(items[i]) == Some(ToGo(ValueFromWire(items[i]).value))
      {
        DecodersAgree(items[i]);
      }
      if ValueFromWire(w).Some? {
        assert DecodeValue(w).value.items == ToGo(ValueFromWire(w).value).items;
      }
    case WObject(fields) =>
      if ReservedKey(fields).None? {
        forall k | k in fields
          ensures ValueFromWire(fields[k]).Some? <==> DecodeValue(fields[k]).Some? && !WrapsOrdinaryFloat(fields[k])
          ensures ValueFromWire(fields[k]).Some? ==>
            DecodeValue(fields[k]) == Some(ToGo(ValueFromWire(fields[k]).value))
        {
          DecodersAgree(fields[k]);
        }
        if ValueFromWire(w).Some? {
          assert DecodeValue(w).value.fields == ToGo(ValueFromWire(w).value).fields;
        }
      }
    case _ =>
  }

  /** Encoding the Go form of a value is encoding the value, errors included. */
  lemma {:induction false} EncodersAgree(v: Value)
    ensures EncodeGo(ToGo(v)) == ConvexJSON(v)
  {
    hide EncodeWord, Encode, ValidField, IsSpecialFloat;
    match v
    case Array(items) =>
      forall i | 0 <= i < |items| ensures EncodeGo(ToGo(items[i])) == ConvexJSON(items[i]) {
        EncodersAgree(items[i]);
      }
      var g := ToGo(v);
      assert forall i :: 0 <= i < |items| ==> g.items[i] == ToGo(items[i]);
      if ConvexJSON(v).Some? {
        assert EncodeGo(g).value.items == ConvexJSON(v).value.items;
      } else {
        var i :| 0 <= i < |items| && ConvexJSON(items[i]).None?;
        assert EncodeGo(g.items[i]).None?;
      }
    case Object(fields) =>
      forall k | k in fields ensures EncodeGo(ToGo(fields[k])) == ConvexJSON(fields[k]) {
        EncodersAgree(fields[k]);
      }
      var g := ToGo(v);
      if ConvexJSON(v).Some? {
        assert EncodeGo(g).value.fields == ConvexJSON(v).value.fields;
      } else {
        var k :| k in fields && !(ValidField(k) && ConvexJSON(fields[k]).Some?);
        assert k in g.fields && g.fields[k] == ToGo(fields[k]);
      }
    case _ =>
  }
}

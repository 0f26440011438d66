/** The wire format as a relation between trees and values, and the codec against it. */
module WireGrammar {
  import opened Prelude
  import opened NumberCodecs
  import opened Values
  import opened NumberTheorems

  /** The tree w stands for the value v. */
  ghost predicate StandsFor(w: Wire, v: Value)
    decreases v
  {
    match v
    case Null => w == WNull
    case Boolean(b) => w == WBool(b)
    case Str(s) => w == WString(s)
    case Int64(i) => exists bs :: |bs| == 8 && Tagged(w, "$integer", bs) && SameBits(Weighted(bs), i)
    case Float64(bits) =>
      || w == WFloat(bits) || w == WNumber(Some(bits))
      || (IsSpecialFloat(bits) && exists bs :: |bs| == 8 && Tagged(w, "$float", bs) && Weighted(bs) == bits)
    case Bytes(data) => Tagged(w, "$bytes", data)
    case Array(items) =>
      w.WArray? && |w.items| == |items| && forall i :: 0 <= i < |items| ==> StandsFor(w.items[i], items[i])
    case Object(fields) =>
      && w.WObject? && w.fields.Keys == fields.Keys
      && forall k :: k in fields ==> ValidField(k) && StandsFor(w.fields[k], fields[k])
  }

  lemma IntegerStandsFor(w: Wire, i: int64)
    ensures StandsFor(w, Int64(i)) <==>
      w.WObject? && w.fields.Keys == {"$integer"} && w.fields["$integer"].WString? &&
      DecodeInt64(w.fields["$integer"].s) == Some(i)
  {
    hide Weighted, DecodeCompat, DecodeInt64, EncodeInt64;
    if w.WObject? && w.fields.Keys == {"$integer"} && w.fields["$integer"].WString? {
      var s := w.fields["$integer"].s;
      IntegersAreTwosComplement(0, s);
      match DecodeCompat(s)
      case None =>
      case Some(bs) =>
        if |bs| == 8 {
          assert Tagged(w, "$integer", bs);
          SameBitsOnce(Weighted(bs), i, DecodeInt64(s).value);
        }
    }
  }

  lemma SameBitsOnce(x: int, i: int64, j: int64)
    ensures SameBits(x, i) && SameBits(x, j) ==> i == j
  {
  }

  lemma FloatStandsFor(w: Wire, bits: Word)
    requires w.WObject?
    ensures StandsFor(w, Float64(bits)) <==>
      w.fields.Keys == {"$float"} && w.fields["$float"].WString? && IsSpecialFloat(bits) &&
      DecodeWord(w.fields["$float"].s) == Some(bits)
  {
    hide Weighted, DecodeCompat, DecodeWord, EncodeWord, IsSpecialFloat;
    if w.fields.Keys == {"$float"} && w.fields["$float"].WString? {
      var s := w.fields["$float"].s;
      WordsAreLittleEndian(0, s);
      match DecodeCompat(s)
      case None =>
      case Some(bs) =>
        if |bs| == 8 {
          assert Tagged(w, "$float", bs);
        }
    }
  }

  /** On one-field objects with a reserved key, the tag decides. */
  lemma TaggedDecodesExactly(w: Wire, v: Value)
    requires w.WObject? && ReservedKey(w.fields).Some?
    ensures ValueFromWire(w) == Some(v) <==> StandsFor(w, v)
  {
    hide DecodeCompat, DecodeWord, Weighted, IsSpecialFloat, ValidField;
    var key := ReservedKey(w.fields).value;
    ReservedIsInvalid();
    match v
    case Int64(i) => IntegerStandsFor(w, i);
    case Float64(bits) => FloatStandsFor(w, bits);
    case Object(fields) => assert key in w.fields;
    case _ =>
  }

  lemma ReservedIsInvalid()
    ensures forall k :: k in RESERVED_KEYS ==> !ValidField(k)
  {
    forall k | k in RESERVED_KEYS ensures !ValidField(k) {
    }
  }

  /** The decoder reads exactly the format: it gives a value for a tree if and only if the tree
      stands for that value. */
  lemma {:induction false} DecodesExactly(w: Wire, v: Value)
    ensures ValueFromWire(w) == Some(v) <==> StandsFor(w, v)
    decreases w
  {
    hide DecodeCompat, DecodeWord, Weighted, IsSpecialFloat, ValidField, TaggedValue;
    match w
    case WArray(items) =>
      ArrayDecodesExactly(items, v) by {
        forall i, u | 0 <= i < |items| ensures ValueFromWire(items[i]) == Some(u) <==> StandsFor(items[i], u) {
          DecodesExactly(items[i], u);
        }
      }
    case WObject(fields) =>
      if ReservedKey(fields).Some? {
        TaggedDecodesExactly(w, v);
      } else {
        ObjectDecodesExactly(fields, v) by {
          forall k, u | k in fields ensures ValueFromWire(fields[k]) == Some(u) <==> StandsFor(fields[k], u) {
            DecodesExactly(fields[k], u);
          }
        }
      }
    case _ =>
  }

  lemma ArrayDecodesExactly(items: seq<Wire>, v: Value)
    requires forall i, u :: 0 <= i < |items| ==> (ValueFromWire(items[i]) == Some(u) <==> StandsFor(items[i], u))
    ensures ValueFromWire(WArray(items)) == Some(v) <==> StandsFor(WArray(items), v)
  {
    hide Weighted, DecodeCompat, IsSpecialFloat;
    var w := WArray(items);
    if v.Array? && StandsFor(w, v) {
      forall i | 0 <= i < |items| ensures ValueFromWire(items[i]) == Some(v.items[i]) {
        assert StandsFor(w.items[i], v.items[i]);
      }
      assert ValueFromWire(w).value.items == v.items;
    }
    if v.Array? && ValueFromWire(w) == Some(v) {
      forall i | 0 <= i < |items| ensures StandsFor(items[i], v.items[i]) {
        assert ValueFromWire(items[i]) == Some(v.items[i]);
      }
    }
  }

  lemma ObjectDecodesExactly(fields: map<string, Wire>, v: Value)
    requires ReservedKey(fields).None?
    requires forall k, u :: k in fields ==> (ValueFromWire(fields[k]) == Some(u) <==> StandsFor(fields[k], u))
    ensures ValueFromWire(WObject(fields)) == Some(v) <==> StandsFor(WObject(fields), v)
  {
    hide Weighted, DecodeCompat, IsSpecialFloat, ValidField, Tagged;
    if v.Object? {
      ObjectsMatch(fields, v.fields);
    } else {
      NothingElseMatches(fields, v);
    }
  }

  lemma NothingElseMatches(fields: map<string, Wire>, v: Value)
    requires ReservedKey(fields).None? && !v.Object?
    ensures !StandsFor(WObject(fields), v)
  {
    hide Weighted, DecodeCompat, IsSpecialFloat, ValidField;
    assert "$integer" in RESERVED_KEYS && "$float" in RESERVED_KEYS && "$bytes" in RESERVED_KEYS;
  }

  lemma ObjectsMatch(fields: map<string, Wire>, values: map<string, Value>)
    requires ReservedKey(fields).None?
    requires forall k, u :: k in fields ==> (ValueFromWire(fields[k]) == Some(u) <==> StandsFor(fields[k], u))
    ensures ValueFromWire(WObject(fields)) == Some(Object(values)) <==> StandsFor(WObject(fields), Object(values))
  {
    hide ValueFromWire, StandsFor, ReservedKey, ValidField;
    ObjectDecoded(fields, values);
    ObjectStands(fields, values);
    if fields.Keys == values.Keys {
      assert forall k :: k in fields ==>
        (ValueFromWire(fields[k]) == Some(values[k]) <==> StandsFor(fields[k], values[k]));
    }
  }

  lemma ObjectStands(fields: map<string, Wire>, values: map<string, Value>)
    ensures StandsFor(WObject(fields), Object(values)) <==>
      && fields.Keys == values.Keys
      && forall k :: k in fields ==> ValidField(k) && StandsFor(fields[k], values[k])
  {
    hide ValidField, Tagged;
  }

  lemma ObjectDecoded(fields: map<string, Wire>, values: map<string, Value>)
    requires ReservedKey(fields).None?
    ensures ValueFromWire(WObject(fields)) == Some(Object(values)) <==>
      && fields.Keys == values.Keys
      && forall k :: k in fields ==> ValidField(k) && ValueFromWire(fields[k]) == Some(values[k])
  {
    hide DecodeCompat, ValidField, TaggedValue;
    if fields.Keys == values.Keys &&
       forall k :: k in fields ==> ValidField(k) && ValueFromWire(fields[k]) == Some(values[k]) {
      assert ValueFromWire(WObject(fields)).value.fields == values;
    }
  }

  /** The encoder writes the format: what it writes stands for the value, and of all trees that
      do it is the one the normal form describes. */
  lemma EncodesCorrectly(v: Value)
    requires WellFormed(v)
    ensures ConvexJSON(v).Some? && StandsFor(ConvexJSON(v).value, v) && Normal(ConvexJSON(v).value)
    ensures forall w :: StandsFor(w, v) && Normal(w) ==> w == ConvexJSON(v).value
  {
    hide StandsFor, ConvexJSON, Normal, WellFormed;
    ValueRoundTrip(v);
    DecodesExactly(ConvexJSON(v).value, v);
    NormalForm(ConvexJSON(v).value);
    forall w | StandsFor(w, v) && Normal(w) ensures w == ConvexJSON(v).value {
      DecodesExactly(w, v);
      NormalForm(w);
    }
  }

  // ---- Go values ----

  /** The Go value g presents the value v: the same kind of value at every depth. */
  ghost predicate Presents(g: GoValue, v: Value)
    decreases v
  {
    match v
    case Null => g == GoNil
    case Boolean(b) => g == GoBool(b)
    case Str(s) => g == GoString(s)
    case Int64(i) => g == GoInt64(i)
    case Float64(bits) => g == GoFloat64(bits)
    case Bytes(data) => g == GoBytes(data)
    case Array(items) =>
      g.GoSlice? && |g.items| == |items| && forall i :: 0 <= i < |items| ==> Presents(g.items[i], items[i])
    case Object(fields) =>
      g.GoMap? && g.fields.Keys == fields.Keys && forall k :: k in fields ==> Presents(g.fields[k], fields[k])
  }

  lemma {:induction false} PresentedOnce(g: GoValue, v: Value)
    ensures Presents(g, v) <==> g == ToGo(v)
    decreases v
  {
    match v
    case Array(items) =>
      if g.GoSlice? && |g.items| == |items| {
        forall i | 0 <= i < |items| ensures Presents(g.items[i], items[i]) <==> g.items[i] == ToGo(items[i]) {
          PresentedOnce(g.items[i], items[i]);
        }
        assert g == ToGo(v) <==> forall i :: 0 <= i < |items| ==> g.items[i] == ToGo(items[i]);
      }
    case Object(fields) =>
      if g.GoMap? && g.fields.Keys == fields.Keys {
        forall k | k in fields ensures Presents(g.fields[k], fields[k]) <==> g.fields[k] == ToGo(fields[k]) {
          PresentedOnce(g.fields[k], fields[k]);
        }
        assert g == ToGo(v) <==> forall k :: k in fields ==> g.fields[k] == ToGo(fields[k]) by {
          if forall k :: k in fields ==> g.fields[k] == ToGo(fields[k]) {
            assert g.fields == ToGo(v).fields;
          }
        }
      }
    case _ =>
  }

  /** From the wire to the caller: a tree that stands for a value is decoded to the Go value
      that presents it, and encoding that Go value writes a tree that stands for it again. */
  lemma CallersSeeTheValue(w: Wire, v: Value)
    requires StandsFor(w, v)
    ensures DecodeValue(w).Some? && Presents(DecodeValue(w).value, v)
    ensures EncodeGo(DecodeValue(w).value).Some? && StandsFor(EncodeGo(DecodeValue(w).value).value, v)
  {
    hide StandsFor, Presents, DecodeValue, EncodeGo, ConvexJSON;
    DecodesExactly(w, v);
    DecodersAgree(w);
    PresentedOnce(ToGo(v), v);
    EncodersAgree(v);
    DecodedIsWellFormed(w);
    EncodesCorrectly(v);
  }
}

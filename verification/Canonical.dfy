/** Query identity: the canonical path, the argument value and the token built from both,
    which decides whether two subscriptions share one server query. */
module Canonical {
  import opened Prelude
  import opened NumberCodecs
  import opened Strings
  import opened Paths
  import opened Spellings
  import opened Values

  datatype QueryKey = QueryKey(path: string, args: seq<Value>, token: Wire)

  /** json.Marshal followed by a decode that keeps number literals: floats come back as
      literals (finite-float printing is taken to be exact), NaN and infinities fail. */
  function Reparse(w: Wire): Option<Wire> {
    match w
    case WFloat(bits) => if IsNaNOrInf(bits) then None else Some(WNumber(Some(bits)))
    case WArray(items) =>
      if forall i :: 0 <= i < |items| ==> Reparse(items[i]).Some? then
        Some(WArray(seq(|items|, i requires 0 <= i < |items| => Reparse(items[i]).value)))
      else None
    case WObject(fields) =>
      if forall k :: k in fields ==> Reparse(fields[k]).Some? then
        Some(WObject(map k | k in fields :: Reparse(fields[k]).value))
      else None
    case _ => Some(w)
  }

  /** Arguments must encode to a JSON object; absent arguments are the empty object. */
  function EncodeArgs(args: GoValue): Option<Wire> {
    if args.GoNil? then Some(WObject(map[]))
    else
      match EncodeGo(args)
      case Some(w) => if w.WObject? then Some(w) else None
      case None => None
  }

  function ArgValue(args: GoValue): Option<Value> {
    match EncodeArgs(args)
    case None => None
    case Some(w) =>
      match Reparse(w)
      case None => None
      case Some(r) => ValueFromWire(r)
  }

  /** stableJSONValue: refuses number literals, keeps everything else.  Trees carry no key
      order, so sorting the keys has no counterpart here. */
  function StableJSON(w: Wire): Option<Wire> {
    match w
    case WNumber(_) => None
    case WArray(items) =>
      if forall i :: 0 <= i < |items| ==> StableJSON(items[i]).Some? then
        Some(WArray(seq(|items|, i requires 0 <= i < |items| => StableJSON(items[i]).value)))
      else None
    case WObject(fields) =>
      if forall k :: k in fields ==> StableJSON(fields[k]).Some? then
        Some(WObject(map k | k in fields :: StableJSON(fields[k]).value))
      else None
    case _ => Some(w)
  }

  function TokenTree(path: string, arg: Wire): Wire {
    WObject(map["udfPath" := WString(path), "args" := WArray([arg])])
  }

  function CanonicalQuery(path: string, args: GoValue): Option<QueryKey> {
    match (CanonicalQueryPath(path), ArgValue(args))
    case (Some(p), Some(v)) =>
      (match ConvexJSON(v)
       case None => None
       case Some(w) =>
         match StableJSON(TokenTree(p, w))
         case None => None
         case Some(token) => Some(QueryKey(p, [v], token)))
    case _ => None
  }

  function CanonicalRequest(path: string, args: GoValue): Option<(string, seq<Value>)> {
    match (CanonicalQueryPath(path), ArgValue(args))
    case (Some(p), Some(v)) => Some((p, [v]))
    case _ => None
  }

  /** Printing and re-reading a wire tree does not change the value it stands for. */
  lemma {:induction false} ReparseKeepsValue(w: Wire)
    requires Reparse(w).Some?
    ensures ValueFromWire(Reparse(w).value) == ValueFromWire(w)
  {
    hide DecodeCompat, DecodeWord, ValidField;
    match w
    case WArray(items) =>
      var r := Reparse(w).value;
      forall i | 0 <= i < |items| ensures ValueFromWire(r.items[i]) == ValueFromWire(items[i]) {
        ReparseKeepsValue(items[i]);
      }
      if ValueFromWire(w).Some? {
        assert ValueFromWire(r).value.items == ValueFromWire(w).value.items;
      } else {
        var i :| 0 <= i < |items| && ValueFromWire(items[i]).None?;
        assert ValueFromWire(r.items[i]).None?;
      }
    case WObject(fields) =>
      var r := Reparse(w).value;
      assert r.fields.Keys == fields.Keys;
      if ReservedKey(fields).Some? {
        ReparseKeepsText(fields[ReservedKey(fields).value]);
      } else {
        forall k | k in fields ensures ValueFromWire(r.fields[k]) == ValueFromWire(fields[k]) {
          ReparseKeepsValue(fields[k]);
        }
        if ValueFromWire(w).Some? {
          assert ValueFromWire(r).value.fields == ValueFromWire(w).value.fields;
        } else {
          var k :| k in fields && !(ValidField(k) && ValueFromWire(fields[k]).Some?);
          assert k in r.fields;
        }
      }
    case _ =>
  }

  lemma ReparseKeepsText(w: Wire)
    requires Reparse(w).Some?
    ensures var r := Reparse(w).value; (w.WString? <==> r.WString?) && (w.WString? ==> r == w)
  {
  }

  lemma {:induction false} NormalIsPrintable(w: Wire)
    requires Normal(w)
    ensures Reparse(w).Some? && StableJSON(w) == Some(w)
  {
    match w
    case WArray(items) =>
      forall i | 0 <= i < |items| { NormalIsPrintable(items[i]); }
      assert StableJSON(w).value.items == items;
    case WObject(fields) =>
      forall k | k in fields ensures Reparse(fields[k]).Some? && StableJSON(fields[k]) == Some(fields[k]) {
        if ReservedKey(fields).None? {
          NormalIsPrintable(fields[k]);
        }
      }
      assert StableJSON(w).value.fields == fields;
    case _ =>
  }

  lemma EncodedIsNormal(v: Value)
    requires WellFormed(v)
    ensures ConvexJSON(v).Some? && Normal(ConvexJSON(v).value)
  {
    ValueRoundTrip(v);
    NormalForm(ConvexJSON(v).value);
  }

  /** Arguments reach the query set unchanged: absent arguments stand for the empty object,
      the Go form of a well-formed value whose wire form is an object is canonicalized to
      that very value, and nothing else is accepted. */
  lemma ArgValueOfGo(v: Value)
    ensures ArgValue(ToGo(v)) ==
            if v == Null then Some(Object(map[]))
            else if ConvexJSON(v).Some? && ConvexJSON(v).value.WObject? then Some(v)
            else None
  {
    if v == Null {
      NoArguments();
    } else {
      EncodersAgree(v);
      EncodesExactlyWellFormed(v);
      if WellFormed(v) {
        EncodedIsNormal(v);
        NormalIsPrintable(ConvexJSON(v).value);
        ReparseKeepsValue(ConvexJSON(v).value);
        ValueRoundTrip(v);
      }
    }
  }

  lemma NoArguments()
    ensures ArgValue(GoNil) == Some(Object(map[]))
  {
    var empty := WObject(map[]);
    assert Reparse(empty).value.fields == map[];
    assert ReservedKey(empty.fields).None?;
    assert ValueFromWire(empty).value.fields == map[];
  }

  lemma ArgValueIsWellFormed(args: GoValue)
    requires ArgValue(args).Some?
    ensures WellFormed(ArgValue(args).value)
  {
    DecodedIsWellFormed(Reparse(EncodeArgs(args).value).value);
  }

  lemma TokenTreeIsStable(path: string, arg: Wire)
    requires StableJSON(arg) == Some(arg)
    ensures StableJSON(TokenTree(path, arg)) == Some(TokenTree(path, arg))
  {
    var fields := TokenTree(path, arg).fields;
    var args := WArray([arg]);
    assert args.items[0] == arg;
    assert StableJSON(args).value.items == [arg];
    assert StableJSON(WString(path)) == Some(WString(path));
    assert forall k :: k in fields ==> fields[k] == args || fields[k] == WString(path);
    assert StableJSON(TokenTree(path, arg)).value.fields == fields;
  }

  /** Canonicalization fails only on a bad path or bad arguments, and the token determines
      and is determined by the path and the argument. */
  lemma CanonicalQueryShape(path: string, args: GoValue)
    ensures CanonicalQuery(path, args).Some? <==> CanonicalQueryPath(path).Some? && ArgValue(args).Some?
    ensures CanonicalQuery(path, args).Some? ==>
      var k := CanonicalQuery(path, args).value;
      && k.path == CanonicalQueryPath(path).value && k.args == [ArgValue(args).value]
      && IsKey(k)
      && CanonicalRequest(path, args) == Some((k.path, k.args))
  {
    if CanonicalQueryPath(path).Some? && ArgValue(args).Some? {
      var v := ArgValue(args).value;
      ArgValueIsWellFormed(args);
      EncodedIsNormal(v);
      NormalIsPrintable(ConvexJSON(v).value);
      TokenTreeIsStable(CanonicalQueryPath(path).value, ConvexJSON(v).value);
    }
  }

  /** The keys canonicalization produces. */
  ghost predicate IsKey(k: QueryKey) {
    && |k.args| == 1 && WellFormed(k.args[0]) && ConvexJSON(k.args[0]).Some?
    && k.token == TokenTree(k.path, ConvexJSON(k.args[0]).value)
  }

  /** Deduplication is exact: equal tokens mean equal path and equal argument value. */
  lemma TokensAreExact(k: QueryKey, l: QueryKey)
    requires IsKey(k) && IsKey(l)
    ensures k.token == l.token <==> k.path == l.path && k.args == l.args
  {
    ConvexJSONInjective(k.args[0], l.args[0]);
    assert k.args == [k.args[0]] && l.args == [l.args[0]];
    var kf, lf := k.token.fields, l.token.fields;
    if k.token == l.token {
      assert kf["udfPath"] == lf["udfPath"] && kf["args"] == lf["args"];
      assert [ConvexJSON(k.args[0]).value][0] == [ConvexJSON(l.args[0]).value][0];
    }
  }

  /** Two subscriptions to functions of dot-free modules, in any accepted spellings, share a
      server query exactly when module, function and argument value are the same. */
  lemma SubscriptionsShare(comps: seq<string>, fn: string, sp: Spelling, args: GoValue,
                           comps': seq<string>, fn': string, sp': Spelling, args': GoValue)
    requires DotFreeModule(comps) && ValidIdentifier(fn) && ValidSpelling(sp) && !Refused(comps, sp)
    requires DotFreeModule(comps') && ValidIdentifier(fn') && ValidSpelling(sp') && !Refused(comps', sp')
    requires ArgValue(args).Some? && ArgValue(args').Some?
    ensures var k, l := CanonicalQuery(Spell(comps, fn, sp), args), CanonicalQuery(Spell(comps', fn', sp'), args');
      && k.Some? && l.Some?
      && (k.value.token == l.value.token <==>
          comps == comps' && fn == fn' && ArgValue(args) == ArgValue(args'))
  {
    SpellingsCollapse(comps, fn, sp);
    SpellingsCollapse(comps', fn', sp');
    CanonicalQueryShape(Spell(comps, fn, sp), args);
    CanonicalQueryShape(Spell(comps', fn', sp'), args');
    TokensAreExact(CanonicalQuery(Spell(comps, fn, sp), args).value,
                   CanonicalQuery(Spell(comps', fn', sp'), args').value);
    if Join(comps, '/') + ":" + fn == Join(comps', '/') + ":" + fn' {
      WirePathsDistinct(comps, fn, comps', fn');
    }
  }
}

/** The number and byte-string encodings of the Convex wire format: base64 in the two
    alphabets of sections 4 and 5 of RFC 4648, and 8-byte little-endian words. */
module NumberCodecs {
  import opened Prelude

  type byte = b: nat | b < 256
  type Word = n: nat | n < 0x1_0000_0000_0000_0000
  type int64 = n: int | -0x8000_0000_0000_0000 <= n < 0x8000_0000_0000_0000

  const MAX_INT64 := 0x7FFF_FFFF_FFFF_FFFF

  // ---- base64 ----

  datatype Alphabet = Std | Url

  function Digit(a: Alphabet, v: nat): (c: char)
    requires v < 64
    ensures Index(a, c) == Some(v)
    ensures c != '=' && c != '\r' && c != '\n'
  {
    if v < 26 then ('A' as int + v) as char
    else if v < 52 then ('a' as int + v - 26) as char
    else if v < 62 then ('0' as int + v - 52) as char
    else if v == 62 then (if a == Std then '+' else '-')
    else (if a == Std then '/' else '_')
  }

  function Index(a: Alphabet, c: char): (r: Option<nat>)
    ensures r.Some? ==> r.value < 64
  {
    if 'A' <= c <= 'Z' then Some(c as int - 'A' as int)
    else if 'a' <= c <= 'z' then Some(c as int - 'a' as int + 26)
    else if '0' <= c <= '9' then Some(c as int - '0' as int + 52)
    else if c == (if a == Std then '+' else '-') then Some(62)
    else if c == (if a == Std then '/' else '_') then Some(63)
    else None
  }

  /** EncodeToString: groups of three bytes, the last one padded. */
  function Encode(a: Alphabet, bs: seq<byte>): string {
    if |bs| == 0 then ""
    else if |bs| == 1 then
      [Digit(a, bs[0] / 4), Digit(a, bs[0] % 4 * 16), '=', '=']
    else if |bs| == 2 then
      [Digit(a, bs[0] / 4), Digit(a, bs[0] % 4 * 16 + bs[1] / 16), Digit(a, bs[1] % 16 * 4), '=']
    else
      [Digit(a, bs[0] / 4), Digit(a, bs[0] % 4 * 16 + bs[1] / 16),
       Digit(a, bs[1] % 16 * 4 + bs[2] / 64), Digit(a, bs[2] % 64)] + Encode(a, bs[3..])
  }

  /** DecodeString skips line breaks anywhere in the text. */
  function SkipLineBreaks(s: string): string {
    if s == "" then ""
    else SkipHead(s[0]) + SkipLineBreaks(s[1..])
  }

  function SkipHead(c: char): string {
    if c == '\r' || c == '\n' then "" else [c]
  }

  function HighByte(x: nat, y: nat): byte requires x < 64 && y < 64 { x * 4 + y / 16 }
  function MidByte(y: nat, z: nat): byte requires y < 64 && z < 64 { y % 16 * 16 + z / 4 }
  function LowByte(z: nat, w: nat): byte requires z < 64 && w < 64 { z % 4 * 64 + w }

  /** Quanta of four digits; padding only in the last one; the bits below the last
      decoded byte are ignored (the decoder is not in strict mode). */
  function DecodeQuanta(a: Alphabet, s: string): Option<seq<byte>> {
    if s == "" then Some([])
    else if |s| < 4 then None
    else
      match (Index(a, s[0]), Index(a, s[1]))
      case (Some(x), Some(y)) =>
        if s[2] == '=' then
          if |s| == 4 && s[3] == '=' then Some([HighByte(x, y)]) else None
        else if s[3] == '=' then
          match Index(a, s[2])
          case Some(z) => if |s| == 4 then Some([HighByte(x, y), MidByte(y, z)]) else None
          case None => None
        else
          (match (Index(a, s[2]), Index(a, s[3]), DecodeQuanta(a, s[4..]))
           case (Some(z), Some(w), Some(rest)) =>
             Some([HighByte(x, y), MidByte(y, z), LowByte(z, w)] + rest)
           case _ => None)
      case _ => None
  }

  function Decode(a: Alphabet, s: string): Option<seq<byte>> {
    DecodeQuanta(a, SkipLineBreaks(s))
  }

  /** Standard alphabet first, URL alphabet second. */
  function DecodeCompat(s: string): Option<seq<byte>> {
    match Decode(Std, s)
    case Some(bs) => Some(bs)
    case None => Decode(Url, s)
  }

  lemma {:induction false} EncodeHasNoLineBreaks(a: Alphabet, bs: seq<byte>)
    ensures SkipLineBreaks(Encode(a, bs)) == Encode(a, bs)
  {
    if |bs| == 0 {
    } else {
      var s := Encode(a, bs);
      if |bs| <= 2 {
        NothingToSkip(s);
      } else {
        var rest := Encode(a, bs[3..]);
        EncodeHasNoLineBreaks(a, bs[3..]);
        SkipAppend(s[..4], rest);
        NothingToSkip(s[..4]);
        assert s == s[..4] + rest;
      }
    }
  }

  lemma {:induction false} NothingToSkip(s: string)
    requires forall i :: 0 <= i < |s| ==> s[i] != '\r' && s[i] != '\n'
    ensures SkipLineBreaks(s) == s
  {
    if s != "" {
      NothingToSkip(s[1..]);
      assert s == [s[0]] + s[1..];
    }
  }

  lemma {:induction false} SkipAppend(s: string, t: string)
    ensures SkipLineBreaks(s + t) == SkipLineBreaks(s) + SkipLineBreaks(t)
  {
    if s == "" {
      assert s + t == t;
    } else {
      SkipAppend(s[1..], t);
      assert (s + t)[1..] == s[1..] + t && (s + t)[0] == s[0];
      var h := SkipHead(s[0]);
      calc {
        SkipLineBreaks(s + t);
        h + SkipLineBreaks(s[1..] + t);
        h + (SkipLineBreaks(s[1..]) + SkipLineBreaks(t));
        (h + SkipLineBreaks(s[1..])) + SkipLineBreaks(t);
        SkipLineBreaks(s) + SkipLineBreaks(t);
      }
    }
  }

  predicate OnlyLineBreaks(s: string) {
    forall i :: 0 <= i < |s| ==> s[i] == '\r' || s[i] == '\n'
  }

  lemma {:induction false} BreaksAreSkipped(s: string)
    requires OnlyLineBreaks(s)
    ensures SkipLineBreaks(s) == ""
  {
    if s != "" {
      BreaksAreSkipped(s[1..]);
    }
  }

  /** Carriage returns and line feeds, alone or together, may be inserted anywhere without
      changing what is decoded. */
  lemma LineBreaksIgnored(s: string, breaks: string, t: string)
    requires OnlyLineBreaks(breaks)
    ensures DecodeCompat(s + breaks + t) == DecodeCompat(s + t)
  {
    SkipAppend(s + breaks, t);
    SkipAppend(s, breaks);
    SkipAppend(s, t);
    BreaksAreSkipped(breaks);
    assert SkipLineBreaks(s) + "" == SkipLineBreaks(s);
  }

  lemma SextetsInvert(b0: byte, b1: byte, b2: byte)
    ensures HighByte(b0 / 4, b0 % 4 * 16 + b1 / 16) == b0
    ensures MidByte(b0 % 4 * 16 + b1 / 16, b1 % 16 * 4 + b2 / 64) == b1
    ensures LowByte(b1 % 16 * 4 + b2 / 64, b2 % 64) == b2
  {
  }

  lemma {:induction false} QuantaInvertEncode(a: Alphabet, bs: seq<byte>)
    ensures DecodeQuanta(a, Encode(a, bs)) == Some(bs)
  {
    hide HighByte, MidByte, LowByte, Index, Digit;
    var s := Encode(a, bs);
    if |bs| > 2 {
      QuantaInvertEncode(a, bs[3..]);
      SextetsInvert(bs[0], bs[1], bs[2]);
      QuantumUnfold(a, bs);
      assert bs == [bs[0], bs[1], bs[2]] + bs[3..];
    } else if |bs| == 2 {
      SextetsInvert(bs[0], bs[1], 0);
      assert bs == [bs[0], bs[1]];
    } else if |bs| == 1 {
      SextetsInvert(bs[0], 0, 0);
      assert bs == [bs[0]];
    }
  }

  lemma QuantumUnfold(a: Alphabet, bs: seq<byte>)
    requires |bs| > 2
    ensures var s := Encode(a, bs);
      && |s| >= 4 && s[4..] == Encode(a, bs[3..])
      && Index(a, s[0]) == Some(bs[0] / 4)
      && Index(a, s[1]) == Some(bs[0] % 4 * 16 + bs[1] / 16)
      && Index(a, s[2]) == Some(bs[1] % 16 * 4 + bs[2] / 64) && s[2] != '='
      && Index(a, s[3]) == Some(bs[2] % 64) && s[3] != '='
  {
  }

  /** A text both alphabets accept uses only the 62 digits they share. */
  lemma {:induction false} AlphabetsAgree(s: string)
    requires DecodeQuanta(Std, s).Some? && DecodeQuanta(Url, s).Some?
    ensures DecodeQuanta(Std, s) == DecodeQuanta(Url, s)
  {
    if |s| > 4 {
      AlphabetsAgree(s[4..]);
    }
  }

  /** The two-alphabet decoder inverts both encoders on every byte string. */
  lemma DecodeCompatInvertsEncode(a: Alphabet, bs: seq<byte>)
    ensures DecodeCompat(Encode(a, bs)) == Some(bs)
  {
    EncodeHasNoLineBreaks(a, bs);
    QuantaInvertEncode(a, bs);
    if a == Url && Decode(Std, Encode(a, bs)).Some? {
      AlphabetsAgree(Encode(a, bs));
    }
  }

  // ---- little-endian words ----

  function Pow256(k: nat): nat { if k == 0 then 1 else 256 * Pow256(k - 1) }

  /** The k low-order bytes of n, least significant first. */
  function LittleEndian(n: nat, k: nat): (bs: seq<byte>)
    ensures |bs| == k
  {
    if k == 0 then [] else [n % 256] + LittleEndian(n / 256, k - 1)
  }

  function FromLittleEndian(bs: seq<byte>): nat {
    if bs == [] then 0 else bs[0] + 256 * FromLittleEndian(bs[1..])
  }

  lemma {:induction false} LittleEndianRoundTrip(n: nat, k: nat)
    requires n < Pow256(k)
    ensures FromLittleEndian(LittleEndian(n, k)) == n
  {
    if k > 0 {
      LittleEndianRoundTrip(n / 256, k - 1);
      assert LittleEndian(n, k)[1..] == LittleEndian(n / 256, k - 1);
    }
  }

  lemma {:induction false} FromLittleEndianRoundTrip(bs: seq<byte>)
    ensures FromLittleEndian(bs) < Pow256(|bs|)
    ensures LittleEndian(FromLittleEndian(bs), |bs|) == bs
  {
    if bs != [] {
      FromLittleEndianRoundTrip(bs[1..]);
      var n := FromLittleEndian(bs);
      assert n % 256 == bs[0] && n / 256 == FromLittleEndian(bs[1..]);
    }
  }

  lemma EightBytesAreAWord()
    ensures Pow256(8) == 0x1_0000_0000_0000_0000
  {
    assert Pow256(4) == 0x1_0000_0000;
    assert Pow256(6) == 0x1_0000_0000_0000;
  }

  /** base64 of an 8-byte little-endian word. */
  function EncodeWord(n: Word): string {
    Encode(Std, LittleEndian(n, 8))
  }

  function DecodeWord(s: string): (r: Option<Word>)
  {
    match DecodeCompat(s)
    case None => None
    case Some(bs) =>
      if |bs| != 8 then None
      else
        FromLittleEndianRoundTrip(bs); EightBytesAreAWord();
        Some(FromLittleEndian(bs))
  }

  lemma WordRoundTrip(n: Word)
    ensures DecodeWord(EncodeWord(n)) == Some(n)
  {
    DecodeCompatInvertsEncode(Std, LittleEndian(n, 8));
    EightBytesAreAWord();
    LittleEndianRoundTrip(n, 8);
  }

  // ---- int64: two's complement ----

  function ToUnsigned(n: int64): Word {
    if n < 0 then n + 0x1_0000_0000_0000_0000 else n
  }

  function ToSigned(w: Word): int64 {
    if w > MAX_INT64 then w - 0x1_0000_0000_0000_0000 else w
  }

  function EncodeInt64(n: int64): string { EncodeWord(ToUnsigned(n)) }

  function DecodeInt64(s: string): Option<int64> {
    match DecodeWord(s)
    case None => None
    case Some(w) => Some(ToSigned(w))
  }

  /** Every int64 survives the wire, and no two share an encoding. */
  lemma Int64RoundTrip(n: int64, m: int64)
    ensures DecodeInt64(EncodeInt64(n)) == Some(n)
    ensures EncodeInt64(n) == EncodeInt64(m) <==> n == m
  {
    WordRoundTrip(ToUnsigned(n));
    WordRoundTrip(ToUnsigned(m));
  }

  // ---- sync timestamps ----

  function MarshalTimestamp(t: Word): Option<string> {
    if t > MAX_INT64 then None else Some(EncodeWord(t))
  }

  function UnmarshalTimestamp(s: string): Option<Word> {
    match DecodeWord(s)
    case None => None
    case Some(w) => if w > MAX_INT64 then None else Some(w)
  }

  /** Timestamps round-trip exactly when they fit in 63 bits; both directions refuse
      larger ones, so a wire text for a larger word is never accepted either. */
  lemma TimestampRoundTrip(t: Word)
    ensures MarshalTimestamp(t).Some? <==> t <= MAX_INT64
    ensures MarshalTimestamp(t).Some? ==> UnmarshalTimestamp(MarshalTimestamp(t).value) == Some(t)
    ensures UnmarshalTimestamp(EncodeWord(t)).Some? <==> t <= MAX_INT64
  {
    WordRoundTrip(t);
  }
}

/** What the number encodings look like on the wire, said in bits and byte weights rather than
    through the functions that compute them. */
module NumberTheorems {
  import opened Prelude
  import opened NumberCodecs
  import opened Values

  // ---- base64 digits ----

  function Upper(): string { "ABCDEFGHIJKLMNOPQRSTUVWXYZ" }
  function Lower(): string { "abcdefghijklmnopqrstuvwxyz" }
  function Digits(): string { "0123456789" }

  /** The alphabets of tables 1 and 2 of RFC 4648. */
  function Table(a: Alphabet): (t: string)
    ensures |t| == 64
  {
    Upper() + Lower() + Digits() + (if a == Std then "+/" else "-_")
  }

  lemma LettersAreConsecutive(v: nat)
    ensures |Upper()| == 26 && (v < 26 ==> Upper()[v] == ('A' as int + v) as char)
    ensures |Lower()| == 26 && (v < 26 ==> Lower()[v] == ('a' as int + v) as char)
    ensures |Digits()| == 10 && (v < 10 ==> Digits()[v] == ('0' as int + v) as char)
  {
  }

  lemma DigitsAreTheTable(a: Alphabet, v: nat)
    requires v < 64
    ensures Digit(a, v) == Table(a)[v]
  {
    hide Upper, Lower, Digits;
    LettersAreConsecutive(if v < 26 then v else if v < 52 then v - 26 else if v < 62 then v - 52 else 0);
  }

  function ByteAt(bs: seq<byte>, i: nat): int { if i < |bs| then bs[i] else 0 }

  /** The 24 bits of the three bytes from position i, zero bits past the end. */
  function Group(bs: seq<byte>, i: nat): int {
    65536 * ByteAt(bs, i) + 256 * ByteAt(bs, i + 1) + ByteAt(bs, i + 2)
  }

  /** Four base-64 digits that make up a number, most significant first. */
  predicate Sextets(x: int, y: int, z: int, w: int, n: int) {
    0 <= x < 64 && 0 <= y < 64 && 0 <= z < 64 && 0 <= w < 64 && 262144 * x + 4096 * y + 64 * z + w == n
  }

  /** The text shows the first k of those digits in the alphabet, and pads the others. */
  predicate Shows(text: string, a: Alphabet, x: nat, y: nat, z: nat, w: nat, k: nat)
    requires |text| == 4 && x < 64 && y < 64 && z < 64 && w < 64
  {
    && text[0] == Table(a)[x] && text[1] == Table(a)[y]
    && text[2] == (if k > 2 then Table(a)[z] else '=')
    && text[3] == (if k > 3 then Table(a)[w] else '=')
  }

  ghost predicate ShowsGroup(text: string, a: Alphabet, n: int, k: nat)
    requires |text| == 4
  {
    exists x, y, z, w :: Sextets(x, y, z, w, n) && Shows(text, a, x, y, z, w, k)
  }

  lemma {:induction false} EncodeLength(a: Alphabet, bs: seq<byte>)
    ensures |Encode(a, bs)| == (|bs| + 2) / 3 * 4
  {
    hide Digit;
    if |bs| > 2 {
      EncodeLength(a, bs[3..]);
    }
  }

  /** The text of a byte string: every three bytes are four base-64 digits of the alphabet, most
      significant first; one or two last bytes are two or three digits, padded. */
  lemma {:induction false} EncodeFollowsRFC4648(a: Alphabet, bs: seq<byte>, g: nat)
    requires 3 * g < |bs|
    ensures |Encode(a, bs)| == (|bs| + 2) / 3 * 4
    ensures ShowsGroup(Encode(a, bs)[4 * g..4 * g + 4], a, Group(bs, 3 * g), |bs| - 3 * g + 1)
  {
    hide Digit, Encode, ShowsGroup, Group;
    EncodeLength(a, bs);
    if g == 0 {
      FirstGroup(a, bs);
    } else {
      EncodeFollowsRFC4648(a, bs[3..], g - 1);
      EncodeLength(a, bs[3..]);
      LaterGroup(a, bs, g);
    }
  }

  lemma LaterGroup(a: Alphabet, bs: seq<byte>, g: nat)
    requires 0 < g && 3 * g < |bs| && |Encode(a, bs[3..])| >= 4 * g
    ensures |Encode(a, bs)| >= 4 * g + 4
    ensures Encode(a, bs)[4 * g..4 * g + 4] == Encode(a, bs[3..])[4 * (g - 1)..4 * (g - 1) + 4]
    ensures Group(bs, 3 * g) == Group(bs[3..], 3 * (g - 1))
  {
    hide Digit;
    assert Encode(a, bs)[4..] == Encode(a, bs[3..]);
  }

  lemma SplitsIntoSextets(b0: byte, b1: byte, b2: byte)
    ensures Sextets(b0 / 4, b0 % 4 * 16 + b1 / 16, b1 % 16 * 4 + b2 / 64, b2 % 64,
                    65536 * b0 as int + 256 * b1 as int + b2)
  {
  }

  /** The first four characters, as digits. */
  lemma FirstDigits(a: Alphabet, bs: seq<byte>)
    requires |bs| > 0
    ensures var b0, b1, b2 := ByteAt(bs, 0), ByteAt(bs, 1), ByteAt(bs, 2);
      && 0 <= b0 < 256 && 0 <= b1 < 256 && 0 <= b2 < 256 && |Encode(a, bs)| >= 4
      && Encode(a, bs)[0] == Digit(a, b0 / 4) && Encode(a, bs)[1] == Digit(a, b0 % 4 * 16 + b1 / 16)
      && Encode(a, bs)[2] == (if |bs| > 1 then Digit(a, b1 % 16 * 4 + b2 / 64) else '=')
      && Encode(a, bs)[3] == (if |bs| > 2 then Digit(a, b2 % 64) else '=')
  {
    hide Digit;
  }

  lemma FirstGroup(a: Alphabet, bs: seq<byte>)
    requires |bs| > 0
    ensures |Encode(a, bs)| >= 4 && ShowsGroup(Encode(a, bs)[0..4], a, Group(bs, 0), |bs| + 1)
  {
    hide Digit, Table, Encode, Sextets;
    FirstDigits(a, bs);
    var b0, b1, b2 := ByteAt(bs, 0), ByteAt(bs, 1), ByteAt(bs, 2);
    var x, y, z, w := b0 / 4, b0 % 4 * 16 + b1 / 16, b1 % 16 * 4 + b2 / 64, b2 % 64;
    SplitsIntoSextets(b0, b1, b2);
    DigitsAreTheTable(a, x);
    DigitsAreTheTable(a, y);
    DigitsAreTheTable(a, z);
    DigitsAreTheTable(a, w);
    assert Shows(Encode(a, bs)[0..4], a, x, y, z, w, |bs| + 1);
  }

  // ---- words and integers ----

  /** The value of eight bytes, least significant first. */
  function Weighted(bs: seq<byte>): nat
    requires |bs| == 8
  {
    ByteAt(bs, 0) + 0x100 * ByteAt(bs, 1) + 0x1_0000 * ByteAt(bs, 2) + 0x100_0000 * ByteAt(bs, 3)
    + 0x1_0000_0000 * (ByteAt(bs, 4) + 0x100 * ByteAt(bs, 5) + 0x1_0000 * ByteAt(bs, 6) + 0x100_0000 * ByteAt(bs, 7))
  }

  lemma FromLittleEndianIsWeighted(bs: seq<byte>)
    requires |bs| == 8
    ensures FromLittleEndian(bs) == Weighted(bs)
  {
    FirstFour(bs);
    FirstFour(bs[4..]);
    assert bs[4..][4..] == [];
  }

  lemma FirstFour(bs: seq<byte>)
    requires |bs| >= 4
    ensures FromLittleEndian(bs) ==
      bs[0] as int + 0x100 * bs[1] as int + 0x1_0000 * bs[2] as int + 0x100_0000 * bs[3] as int
      + 0x1_0000_0000 * FromLittleEndian(bs[4..])
  {
    assert bs[1..][1..] == bs[2..] && bs[2..][1..] == bs[3..] && bs[3..][1..] == bs[4..];
  }

  /** A word goes out as the eight bytes that weigh exactly that much, and any text of eight
      bytes is read as their weight; nothing else is read as a word. */
  lemma WordsAreLittleEndian(n: Word, s: string)
    ensures exists bs :: DecodeCompat(EncodeWord(n)) == Some(bs) && |bs| == 8 && Weighted(bs) == n
    ensures match DecodeCompat(s)
      case None => DecodeWord(s) == None
      case Some(bs) => if |bs| == 8 then DecodeWord(s) == Some(Weighted(bs)) else DecodeWord(s) == None
  {
    var bs := LittleEndian(n, 8);
    DecodeCompatInvertsEncode(Std, bs);
    EightBytesAreAWord();
    LittleEndianRoundTrip(n, 8);
    FromLittleEndianIsWeighted(bs);
    match DecodeCompat(s)
    case None =>
    case Some(cs) =>
      if |cs| == 8 {
        FromLittleEndianIsWeighted(cs);
      }
  }

  /** Two integers with the same low 64 bits. */
  predicate SameBits(x: int, y: int) { (x - y) % 0x1_0000_0000_0000_0000 == 0 }

  /** An int64 goes out as its two's complement bytes, least significant first, and any text of
      eight bytes is read as the int64 with those bits. */
  lemma IntegersAreTwosComplement(n: int64, s: string)
    ensures exists bs :: DecodeCompat(EncodeInt64(n)) == Some(bs) && |bs| == 8 && SameBits(Weighted(bs), n)
    ensures match DecodeCompat(s)
      case None => DecodeInt64(s) == None
      case Some(bs) =>
        if |bs| == 8 then DecodeInt64(s).Some? && SameBits(Weighted(bs), DecodeInt64(s).value)
        else DecodeInt64(s) == None
  {
    hide Weighted, DecodeCompat, DecodeWord, EncodeWord;
    WordsAreLittleEndian(ToUnsigned(n), s);
  }

  /** A timestamp goes out as the eight bytes that weigh as much, and a text is read as the
      weight of its eight bytes; more than 2^63-1 is refused both ways. */
  lemma TimestampsAreLittleEndian(t: Word, s: string)
    ensures match MarshalTimestamp(t)
      case None => t >= 0x8000_0000_0000_0000
      case Some(text) => exists bs :: DecodeCompat(text) == Some(bs) && |bs| == 8 && Weighted(bs) == t
    ensures UnmarshalTimestamp(s) ==
      match DecodeCompat(s) {
        case None => None
        case Some(bs) => if |bs| == 8 && Weighted(bs) < 0x8000_0000_0000_0000 then Some(Weighted(bs)) else None
      }
  {
    hide Weighted, DecodeCompat, DecodeWord, EncodeWord;
    WordsAreLittleEndian(t, s);
  }

  // ---- tagged values ----

  /** The object has this one field, and its text decodes to bs. */
  predicate Tagged(w: Wire, key: string, bs: seq<byte>) {
    && w.WObject? && w.fields.Keys == {key} && w.fields[key].WString? && DecodeCompat(w.fields[key].s) == Some(bs)
  }

  /** The wire form of the values JSON has no literal for: integers, byte strings, and the
      floats that are NaN, infinite or negative zero.  Every other float is a bare number. */
  lemma TagsOnTheWire(n: int64, data: seq<byte>, bits: Word)
    ensures exists bs :: |bs| == 8 && SameBits(Weighted(bs), n) && Tagged(ConvexJSON(Int64(n)).value, "$integer", bs)
    ensures Tagged(ConvexJSON(Bytes(data)).value, "$bytes", data)
    ensures var w := ConvexJSON(Float64(bits)).value;
      if bits % 0x8000_0000_0000_0000 >= 0x7FF0_0000_0000_0000 || bits == 0x8000_0000_0000_0000
      then exists bs :: |bs| == 8 && Weighted(bs) == bits && Tagged(w, "$float", bs)
      else w == WFloat(bits)
  {
    hide Weighted, DecodeCompat, DecodeWord, EncodeWord, EncodeInt64, Encode;
    IntegersAreTwosComplement(n, "");
    WordsAreLittleEndian(bits, "");
    DecodeCompatInvertsEncode(Std, data);
    SpecialExponents(bits);
    var bs :| DecodeCompat(EncodeInt64(n)) == Some(bs) && |bs| == 8 && SameBits(Weighted(bs), n);
    assert Tagged(ConvexJSON(Int64(n)).value, "$integer", bs);
    if IsSpecialFloat(bits) {
      var cs :| DecodeCompat(EncodeWord(bits)) == Some(cs) && |cs| == 8 && Weighted(cs) == bits;
      assert Tagged(ConvexJSON(Float64(bits)).value, "$float", cs);
    }
  }

  lemma SpecialExponents(bits: Word)
    ensures IsSpecialFloat(bits) <==>
      bits % 0x8000_0000_0000_0000 >= 0x7FF0_0000_0000_0000 || bits == 0x8000_0000_0000_0000
  {
  }
}

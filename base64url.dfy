/** Unpadded base64 with the URL- and filename-safe alphabet of section 5 of RFC 4648
    (the `URL_SAFE_NO_PAD` engine used to turn random bytes into login tokens), and
    its inverse. */
module Base64Url {
  import opened Values

  /** The 64 characters of the alphabet: A-Z, a-z, 0-9, '-' and '_'. */
  predicate IsUrlSafe(c: char)
  {
    ('A' <= c <= 'Z') || ('a' <= c <= 'z') || ('0' <= c <= '9') || c == '-' || c == '_'
  }

  /** The character that encodes a 6-bit value. */
  function SextetChar(v: int): (c: char)
    requires 0 <= v < 64
    ensures IsUrlSafe(c)
  {
    if v < 26 then ('A' as int + v) as char
    else if v < 52 then ('a' as int + (v - 26)) as char
    else if v < 62 then ('0' as int + (v - 52)) as char
    else if v == 62 then '-'
    else '_'
  }

  /** The 6-bit value a character encodes, if it is in the alphabet. */
  function CharSextet(c: char): (v: Option<int>)
    ensures v.Some? <==> IsUrlSafe(c)
    ensures v.Some? ==> 0 <= v.value < 64 && SextetChar(v.value) == c
  {
    if 'A' <= c <= 'Z' then Some(c as int - 'A' as int)
    else if 'a' <= c <= 'z' then Some(c as int - 'a' as int + 26)
    else if '0' <= c <= '9' then Some(c as int - '0' as int + 52)
    else if c == '-' then Some(62)
    else if c == '_' then Some(63)
    else None
  }

  lemma SextetRoundTrip(v: int)
    requires 0 <= v < 64
    ensures CharSextet(SextetChar(v)) == Some(v)
  {
  }

  /** The length of the unpadded encoding of n bytes: four characters per three bytes,
      and two or three characters for a trailing one or two bytes. */
  function EncodedLength(n: nat): nat
  {
    4 * (n / 3) + (if n % 3 == 0 then 0 else n % 3 + 1)
  }

  /** Three bytes become four characters. */
  function EncodeGroup(b0: byte, b1: byte, b2: byte): (s: string)
    ensures |s| == 4
  {
    var x0, x1, x2 := b0 as int, b1 as int, b2 as int;
    [SextetChar(x0 / 4), SextetChar(x0 % 4 * 16 + x1 / 16),
     SextetChar(x1 % 16 * 4 + x2 / 64), SextetChar(x2 % 64)]
  }

  /** The last one or two bytes, without padding. */
  function EncodeTail(b: seq<byte>): (s: string)
    requires 1 <= |b| <= 2
    ensures |s| == |b| + 1
  {
    var x0 := b[0] as int;
    if |b| == 1 then [SextetChar(x0 / 4), SextetChar(x0 % 4 * 16)]
    else
      var x1 := b[1] as int;
      [SextetChar(x0 / 4), SextetChar(x0 % 4 * 16 + x1 / 16), SextetChar(x1 % 16 * 4)]
  }

  /** `URL_SAFE_NO_PAD.encode`. */
  function Encode(b: seq<byte>): (s: string)
    ensures |s| == EncodedLength(|b|)
    ensures forall i :: 0 <= i < |s| ==> IsUrlSafe(s[i])
    decreases |b|
  {
    if |b| == 0 then []
    else if |b| < 3 then EncodeTail(b)
    else EncodeGroup(b[0], b[1], b[2]) + Encode(b[3..])
  }

  /** Four characters back to three bytes. */
  function DecodeGroup(s: string): (r: Option<seq<byte>>)
    requires |s| == 4
    ensures r.Some? ==> |r.value| == 3
  {
    match (CharSextet(s[0]), CharSextet(s[1]), CharSextet(s[2]), CharSextet(s[3]))
    case (Some(c0), Some(c1), Some(c2), Some(c3)) =>
      Some([(c0 * 4 + c1 / 16) as byte, (c1 % 16 * 16 + c2 / 4) as byte, (c2 % 4 * 64 + c3) as byte])
    case _ => None
  }

  /** Two or three trailing characters back to one or two bytes. */
  function DecodeTail(s: string): (r: Option<seq<byte>>)
    requires 2 <= |s| <= 3
    ensures r.Some? ==> |r.value| == |s| - 1
  {
    match (CharSextet(s[0]), CharSextet(s[1]))
    case (Some(c0), Some(c1)) =>
      if |s| == 2 then Some([(c0 * 4 + c1 / 16) as byte])
      else (match CharSextet(s[2])
            case Some(c2) => Some([(c0 * 4 + c1 / 16) as byte, (c1 % 16 * 16 + c2 / 4) as byte])
            case None => None)
    case _ => None
  }

  /** The inverse of Encode; None for characters outside the alphabet and for a length
      that no byte string encodes to. */
  function Decode(s: string): (r: Option<seq<byte>>)
    decreases |s|
  {
    if |s| == 0 then Some([])
    else if |s| == 1 then None
    else if |s| < 4 then DecodeTail(s)
    else
      match (DecodeGroup(s[..4]), Decode(s[4..]))
      case (Some(g), Some(rest)) => Some(g + rest)
      case _ => None
  }

  /** The bit arithmetic of a group: the four sextets of three bytes reassemble into
      those bytes. */
  lemma GroupArithmetic(x0: int, x1: int, x2: int)
    requires 0 <= x0 < 256 && 0 <= x1 < 256 && 0 <= x2 < 256
    ensures var c0, c1, c2, c3 := x0 / 4, x0 % 4 * 16 + x1 / 16, x1 % 16 * 4 + x2 / 64, x2 % 64;
            && 0 <= c0 < 64 && 0 <= c1 < 64 && 0 <= c2 < 64 && 0 <= c3 < 64
            && c0 * 4 + c1 / 16 == x0 && c1 % 16 * 16 + c2 / 4 == x1 && c2 % 4 * 64 + c3 == x2
  {
    var c1, c2 := x0 % 4 * 16 + x1 / 16, x1 % 16 * 4 + x2 / 64;
    assert c1 / 16 == x0 % 4 && c1 % 16 == x1 / 16;
    assert c2 / 4 == x1 % 16 && c2 % 4 == x2 / 64;
  }

  /** Four characters whose sextets are known decode to the bytes those sextets
      spell. */
  lemma DecodeGroupOf(s: string, c0: int, c1: int, c2: int, c3: int)
    requires |s| == 4
    requires CharSextet(s[0]) == Some(c0) && CharSextet(s[1]) == Some(c1)
    requires CharSextet(s[2]) == Some(c2) && CharSextet(s[3]) == Some(c3)
    ensures DecodeGroup(s) == Some([(c0 * 4 + c1 / 16) as byte, (c1 % 16 * 16 + c2 / 4) as byte, (c2 % 4 * 64 + c3) as byte])
  {
  }

  lemma GroupRoundTrip(b0: byte, b1: byte, b2: byte)
    ensures DecodeGroup(EncodeGroup(b0, b1, b2)) == Some([b0, b1, b2])
  {
    var x0, x1, x2 := b0 as int, b1 as int, b2 as int;
    var c0, c1, c2, c3 := x0 / 4, x0 % 4 * 16 + x1 / 16, x1 % 16 * 4 + x2 / 64, x2 % 64;
    GroupArithmetic(x0, x1, x2);
    SextetRoundTrip(c0);
    SextetRoundTrip(c1);
    SextetRoundTrip(c2);
    SextetRoundTrip(c3);
    DecodeGroupOf(EncodeGroup(b0, b1, b2), c0, c1, c2, c3);
  }

  /** Two or three characters whose sextets are known decode to the bytes those
      sextets spell. */
  lemma DecodeTailOf(s: string, c0: int, c1: int, c2: int)
    requires 2 <= |s| <= 3
    requires CharSextet(s[0]) == Some(c0) && CharSextet(s[1]) == Some(c1)
    requires |s| == 3 ==> CharSextet(s[2]) == Some(c2)
    ensures |s| == 2 ==> DecodeTail(s) == Some([(c0 * 4 + c1 / 16) as byte])
    ensures |s| == 3 ==> DecodeTail(s) == Some([(c0 * 4 + c1 / 16) as byte, (c1 % 16 * 16 + c2 / 4) as byte])
  {
  }

  lemma TailOneRoundTrip(b0: byte)
    ensures DecodeTail(EncodeTail([b0])) == Some([b0])
  {
    var x0 := b0 as int;
    var c0, c1 := x0 / 4, x0 % 4 * 16;
    GroupArithmetic(x0, 0, 0);
    SextetRoundTrip(c0);
    SextetRoundTrip(c1);
    DecodeTailOf(EncodeTail([b0]), c0, c1, 0);
  }

  lemma TailTwoRoundTrip(b0: byte, b1: byte)
    ensures DecodeTail(EncodeTail([b0, b1])) == Some([b0, b1])
  {
    var x0, x1 := b0 as int, b1 as int;
    var c0, c1, c2 := x0 / 4, x0 % 4 * 16 + x1 / 16, x1 % 16 * 4;
    GroupArithmetic(x0, x1, 0);
    SextetRoundTrip(c0);
    SextetRoundTrip(c1);
    SextetRoundTrip(c2);
    DecodeTailOf(EncodeTail([b0, b1]), c0, c1, c2);
  }

  lemma TailRoundTrip(b: seq<byte>)
    requires 1 <= |b| <= 2
    ensures DecodeTail(EncodeTail(b)) == Some(b)
  {
    if |b| == 1 {
      TailOneRoundTrip(b[0]);
      assert b == [b[0]];
    } else {
      TailTwoRoundTrip(b[0], b[1]);
      assert b == [b[0], b[1]];
    }
  }

  /** Decoding a full group followed by more text decodes the two separately. */
  lemma DecodeAfterGroup(g: string, rest: string)
    requires |g| == 4
    ensures Decode(g + rest) ==
      match (DecodeGroup(g), Decode(rest))
      case (Some(x), Some(y)) => Some(x + y)
      case _ => None
  {
    var s := g + rest;
    assert s[..4] == g && s[4..] == rest;
  }

  /** Encoding three or more bytes emits the first group and then the rest. */
  lemma EncodeFirstGroup(b: seq<byte>)
    requires |b| >= 3
    ensures Encode(b) == EncodeGroup(b[0], b[1], b[2]) + Encode(b[3..])
  {
  }

  /** The round trip for the short encodings (no full group). */
  lemma DecodeEncodeShort(b: seq<byte>)
    requires |b| < 3
    ensures Decode(Encode(b)) == Some(b)
  {
    if |b| > 0 {
      TailRoundTrip(b);
    }
  }

  /** The round trip extends from the bytes after the first group to the whole. */
  lemma DecodeEncodeStep(b: seq<byte>)
    requires |b| >= 3 && Decode(Encode(b[3..])) == Some(b[3..])
    ensures Decode(Encode(b)) == Some(b)
  {
    EncodeFirstGroup(b);
    GroupRoundTrip(b[0], b[1], b[2]);
    DecodeJoined(b, EncodeGroup(b[0], b[1], b[2]), Encode(b[3..]));
  }

  /** A group decoding to the first three bytes, followed by text decoding to the
      rest, decodes to all of them. */
  lemma DecodeJoined(b: seq<byte>, g: string, e: string)
    requires |b| >= 3 && |g| == 4
    requires DecodeGroup(g) == Some([b[0], b[1], b[2]]) && Decode(e) == Some(b[3..])
    ensures Decode(g + e) == Some(b)
  {
    DecodeAfterGroup(g, e);
    assert [b[0], b[1], b[2]] + b[3..] == b;
  }

  /** Decoding an encoding gives back the bytes. */
  lemma {:induction false} DecodeEncode(b: seq<byte>)
    ensures Decode(Encode(b)) == Some(b)
    decreases |b|
  {
    if |b| < 3 {
      DecodeEncodeShort(b);
    } else {
      DecodeEncode(b[3..]);
      DecodeEncodeStep(b);
    }
  }

  /** Distinct byte strings have distinct encodings. */
  lemma EncodeInjective(a: seq<byte>, b: seq<byte>)
    ensures Encode(a) == Encode(b) ==> a == b
  {
    DecodeEncode(a);
    DecodeEncode(b);
  }
}

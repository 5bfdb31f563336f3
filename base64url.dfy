/**
 * The URL- and filename-safe base64 alphabet of section 5 of RFC 4648,
 * with '=' padding, as Go's base64.URLEncoding writes it. The decoder is
 * the partner that shows the encoding loses nothing.
 */
module Base64Url {
  import opened Wrappers

  type Byte = b: int | 0 <= b < 256
  type Sextet = x: int | 0 <= x < 64

  /** The 64-letter alphabet of section 5 of RFC 4648: A-Z, a-z, 0-9, '-', '_'. */
  function Alphabet(x: Sextet): (c: char)
    ensures c != '=' && c != '+' && c != '/'
  {
    if x < 26 then ('A' as int + x) as char
    else if x < 52 then ('a' as int + (x - 26)) as char
    else if x < 62 then ('0' as int + (x - 52)) as char
    else if x == 62 then '-'
    else '_'
  }

  /** The value of an alphabet letter; None for anything else, padding included. */
  function SextetOf(c: char): Option<Sextet>
  {
    if 'A' <= c <= 'Z' then Some(c as int - 'A' as int)
    else if 'a' <= c <= 'z' then Some(c as int - 'a' as int + 26)
    else if '0' <= c <= '9' then Some(c as int - '0' as int + 52)
    else if c == '-' then Some(62)
    else if c == '_' then Some(63)
    else None
  }

  lemma SextetOfAlphabet(x: Sextet)
    ensures SextetOf(Alphabet(x)) == Some(x)
  {
  }

  predicate InAlphabetOrPad(c: char)
  {
    SextetOf(c).Some? || c == '='
  }

  // The four six-bit letters of a three-byte group, most significant first.
  function Hi6(b0: Byte): Sextet { b0 / 4 }
  function Mid6(b0: Byte, b1: Byte): Sextet { (b0 % 4) * 16 + b1 / 16 }
  function Mid6b(b1: Byte, b2: Byte): Sextet { (b1 % 16) * 4 + b2 / 64 }
  function Lo6(b2: Byte): Sextet { b2 % 64 }

  // The three bytes of a four-letter group.
  function Byte0(x0: Sextet, x1: Sextet): Byte { x0 * 4 + x1 / 16 }
  function Byte1(x1: Sextet, x2: Sextet): Byte { (x1 % 16) * 16 + x2 / 4 }
  function Byte2(x2: Sextet, x3: Sextet): Byte { (x2 % 4) * 64 + x3 }

  lemma Byte0Inverse(b0: Byte, b1: Byte)
    ensures Byte0(Hi6(b0), Mid6(b0, b1)) == b0
  {
    var q, r := b0 % 4, b1 / 16;
    assert 0 <= r < 16;
    assert (q * 16 + r) / 16 == q;
  }

  lemma Byte1Inverse(b0: Byte, b1: Byte, b2: Byte)
    ensures Byte1(Mid6(b0, b1), Mid6b(b1, b2)) == b1
  {
    var q, r := b0 % 4, b1 / 16;
    assert 0 <= r < 16;
    assert (q * 16 + r) % 16 == r;
    var u, v := b1 % 16, b2 / 64;
    assert 0 <= v < 4;
    assert (u * 4 + v) / 4 == u;
  }

  lemma Byte2Inverse(b1: Byte, b2: Byte)
    ensures Byte2(Mid6b(b1, b2), Lo6(b2)) == b2
  {
    var u, v := b1 % 16, b2 / 64;
    assert 0 <= v < 4;
    assert (u * 4 + v) % 4 == v;
  }

  /** Three bytes become four letters. */
  function EncodeGroup(b0: Byte, b1: Byte, b2: Byte): string
  {
    [Alphabet(Hi6(b0)), Alphabet(Mid6(b0, b1)), Alphabet(Mid6b(b1, b2)), Alphabet(Lo6(b2))]
  }

  /** The last one or two bytes: two or three letters and the padding; nothing for no bytes. */
  function EncodeTail(b: seq<Byte>): string
    requires |b| < 3
  {
    if |b| == 0 then ""
    else if |b| == 1 then [Alphabet(Hi6(b[0])), Alphabet(Mid6(b[0], 0)), '=', '=']
    else [Alphabet(Hi6(b[0])), Alphabet(Mid6(b[0], b[1])), Alphabet(Mid6b(b[1], 0)), '=']
  }

  /**
   * Base64url encoding with padding: whole groups of four letters, with the
   * pad '=' only among the last two letters.
   */
  function Encode(b: seq<Byte>): (r: string)
    ensures |r| % 4 == 0
    ensures forall k :: 0 <= k < |r| - 2 ==> r[k] != '='
  {
    if |b| < 3 then EncodeTail(b)
    else
      var g, rest := EncodeGroup(b[0], b[1], b[2]), Encode(b[3..]);
      PadOnlyAtEnd(g, rest);
      g + rest
  }

  /** A group without pads in front of an encoding keeps the pads among the last two letters. */
  lemma PadOnlyAtEnd(g: string, rest: string)
    requires |g| == 4 && '=' !in g
    requires |rest| % 4 == 0 && forall k :: 0 <= k < |rest| - 2 ==> rest[k] != '='
    ensures |g + rest| % 4 == 0
    ensures forall k :: 0 <= k < |g + rest| - 2 ==> (g + rest)[k] != '='
  {
    forall k | 0 <= k < |g + rest| - 2
      ensures (g + rest)[k] != '='
    {
      if k >= 4 {
        assert (g + rest)[k] == rest[k - 4];
      }
    }
  }

  /** The bytes of four letters without padding, or None if one is not a letter. */
  function DecodeGroup(c0: char, c1: char, c2: char, c3: char): (r: Option<seq<Byte>>)
    ensures r.Some? ==> |r.value| == 3
  {
    match (SextetOf(c0), SextetOf(c1), SextetOf(c2), SextetOf(c3))
    case (Some(x0), Some(x1), Some(x2), Some(x3)) =>
      Some([Byte0(x0, x1), Byte1(x1, x2), Byte2(x2, x3)])
    case _ => None
  }

  /** The bytes of the last four letters, which may end in one or two pads. */
  function DecodeLast(c0: char, c1: char, c2: char, c3: char): (r: Option<seq<Byte>>)
    ensures r.Some? ==> 1 <= |r.value| <= 3
  {
    if c2 == '=' && c3 == '=' then
      match (SextetOf(c0), SextetOf(c1))
      case (Some(x0), Some(x1)) => Some([Byte0(x0, x1)])
      case _ => None
    else if c3 == '=' then
      match (SextetOf(c0), SextetOf(c1), SextetOf(c2))
      case (Some(x0), Some(x1), Some(x2)) => Some([Byte0(x0, x1), Byte1(x1, x2)])
      case _ => None
    else
      DecodeGroup(c0, c1, c2, c3)
  }

  /**
   * Base64url decoding with padding; None on anything Encode cannot produce.
   * Only whole groups of four letters decode, each to three bytes, the last
   * to one, two or three.
   */
  function Decode(s: string): (r: Option<seq<Byte>>)
    ensures r.Some? ==> |s| % 4 == 0
    ensures r.Some? ==> 4 * |r.value| <= 3 * |s| <= 4 * |r.value| + 8
    decreases |s|
  {
    if |s| == 0 then Some([])
    else if |s| < 4 then None
    else if |s| == 4 then DecodeLast(s[0], s[1], s[2], s[3])
    else
      var head, tail := DecodeGroup(s[0], s[1], s[2], s[3]), Decode(s[4..]);
      if head.None? || tail.None? then None
      else
        DecodedLengthStep(|s[4..]|, |tail.value|);
        Some(head.value + tail.value)
  }

  /** A group of four letters and three bytes in front keeps the length bounds of Decode. */
  lemma DecodedLengthStep(letters: nat, bytes: nat)
    requires letters % 4 == 0 && 4 * bytes <= 3 * letters <= 4 * bytes + 8
    ensures (letters + 4) % 4 == 0 && 4 * (bytes + 3) <= 3 * (letters + 4) <= 4 * (bytes + 3) + 8
  {
  }

  lemma DecodeEncodeGroup(b0: Byte, b1: Byte, b2: Byte)
    ensures var e := EncodeGroup(b0, b1, b2);
      DecodeGroup(e[0], e[1], e[2], e[3]) == Some([b0, b1, b2])
  {
    SextetOfAlphabet(Hi6(b0));
    SextetOfAlphabet(Mid6(b0, b1));
    SextetOfAlphabet(Mid6b(b1, b2));
    SextetOfAlphabet(Lo6(b2));
    Byte0Inverse(b0, b1);
    Byte1Inverse(b0, b1, b2);
    Byte2Inverse(b1, b2);
  }

  lemma DecodeEncodeOne(b0: Byte)
    ensures Decode(Encode([b0])) == Some([b0])
  {
    SextetOfAlphabet(Hi6(b0));
    SextetOfAlphabet(Mid6(b0, 0));
    Byte0Inverse(b0, 0);
  }

  lemma DecodeEncodeTwo(b0: Byte, b1: Byte)
    ensures Decode(Encode([b0, b1])) == Some([b0, b1])
  {
    var s := Encode([b0, b1]);
    SextetOfAlphabet(Hi6(b0));
    SextetOfAlphabet(Mid6(b0, b1));
    SextetOfAlphabet(Mid6b(b1, 0));
    Byte0Inverse(b0, b1);
    Byte1Inverse(b0, b1, 0);
    assert s[2] != '=' && s[3] == '=';
  }

  /** Decoding an encoding gives back the bytes: base64url loses nothing. */
  lemma {:induction false} DecodeEncode(b: seq<Byte>)
    ensures Decode(Encode(b)) == Some(b)
  {
    if |b| == 1 {
      assert b == [b[0]];
      DecodeEncodeOne(b[0]);
    } else if |b| == 2 {
      assert b == [b[0], b[1]];
      DecodeEncodeTwo(b[0], b[1]);
    } else if |b| >= 3 {
      DecodeEncode(b[3..]);
      assert Encode(b) == EncodeGroup(b[0], b[1], b[2]) + Encode(b[3..]);
      DecodeEncodeStep(b, Encode(b[3..]));
    }
  }

  /** One full group in front of an encoding that decodes correctly keeps it decoding correctly. */
  lemma DecodeEncodeStep(b: seq<Byte>, e: string)
    requires |b| >= 3
    requires Decode(e) == Some(b[3..])
    ensures Decode(EncodeGroup(b[0], b[1], b[2]) + e) == Some(b)
  {
    var head := [b[0], b[1], b[2]];
    assert b == head + b[3..];
    DecodeEncodeGroup(b[0], b[1], b[2]);
    DecodeGroupThenRest(EncodeGroup(b[0], b[1], b[2]), e, head, b[3..]);
  }

  /** A full group of four letters followed by a decodable rest decodes to the group's bytes then the rest's. */
  lemma DecodeGroupThenRest(g: string, rest: string, bytes: seq<Byte>, restBytes: seq<Byte>)
    requires |g| == 4 && g[3] != '='
    requires DecodeGroup(g[0], g[1], g[2], g[3]) == Some(bytes)
    requires Decode(rest) == Some(restBytes)
    ensures Decode(g + rest) == Some(bytes + restBytes)
  {
    var s := g + rest;
    assert s[0] == g[0] && s[1] == g[1] && s[2] == g[2] && s[3] == g[3];
    if |rest| == 0 {
      assert s == g;
      assert bytes + restBytes == bytes;
    } else {
      assert s[4..] == rest;
    }
  }

  /** Every letter of an encoding is in the URL-safe alphabet or is the pad '='. */
  lemma {:induction false} EncodeInAlphabet(b: seq<Byte>)
    ensures forall k :: 0 <= k < |Encode(b)| ==> InAlphabetOrPad(Encode(b)[k])
  {
    if |b| >= 3 {
      EncodeInAlphabet(b[3..]);
      var g := EncodeGroup(b[0], b[1], b[2]);
      var rest := Encode(b[3..]);
      assert Encode(b) == g + rest;
      forall k | 0 <= k < |Encode(b)| ensures InAlphabetOrPad(Encode(b)[k]) {
        if k < 4 {
          SextetOfAlphabet(Hi6(b[0]));
          SextetOfAlphabet(Mid6(b[0], b[1]));
          SextetOfAlphabet(Mid6b(b[1], b[2]));
          SextetOfAlphabet(Lo6(b[2]));
        } else {
          assert Encode(b)[k] == rest[k - 4];
        }
      }
    } else if |b| > 0 {
      SextetOfAlphabet(Hi6(b[0]));
      SextetOfAlphabet(Mid6(b[0], if |b| == 2 then b[1] else 0));
      if |b| == 2 {
        SextetOfAlphabet(Mid6b(b[1], 0));
      }
    }
  }

  /** Every three input bytes, or the last one or two, take four letters. */
  lemma {:induction false} EncodedLength(b: seq<Byte>)
    ensures |Encode(b)| == 4 * ((|b| + 2) / 3)
  {
    if |b| >= 3 {
      EncodedLength(b[3..]);
      assert |Encode(b)| == 4 + |Encode(b[3..])|;
      assert (|b| + 2) / 3 == 1 + (|b[3..]| + 2) / 3;
    }
  }

  /** A 32-byte buffer encodes to 44 letters. */
  lemma EncodedLength32(b: seq<Byte>)
    requires |b| == 32
    ensures |Encode(b)| == 44
  {
    EncodedLength(b);
    assert (|b| + 2) / 3 == 11;
  }
}

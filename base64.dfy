/** Base64 as defined in section 4 of RFC 4648: the encoding PHP's
    `base64_encode` produces, with `=` padding, and a decoder used as its
    partner. */
module Base64 {
  import opened Wrappers

  type Byte = b: int | 0 <= b < 256
  type Bytes = seq<Byte>

  /** A 6-bit group, the index of one character of the alphabet. */
  type Sextet = x: int | 0 <= x < 64

  /** The character that encodes `i` (Table 1 of RFC 4648). */
  function Char(i: Sextet): (c: char)
    ensures IsAlphabet(c) && c != '='
  {
    if i < 26 then (i + 65) as char
    else if i < 52 then (i - 26 + 97) as char
    else if i < 62 then (i - 52 + 48) as char
    else if i == 62 then '+'
    else '/'
  }

  predicate IsAlphabet(c: char) {
    ('A' <= c <= 'Z') || ('a' <= c <= 'z') || ('0' <= c <= '9') || c == '+' || c == '/'
  }

  function Index(c: char): (i: Sextet)
    requires IsAlphabet(c)
    ensures Char(i) == c
  {
    if 'A' <= c <= 'Z' then c as int - 65
    else if 'a' <= c <= 'z' then c as int - 97 + 26
    else if '0' <= c <= '9' then c as int - 48 + 52
    else if c == '+' then 62
    else 63
  }

  lemma CharIndex(i: Sextet)
    ensures Index(Char(i)) == i
  {
  }

  /** Encodes three octets or fewer; a short final group is padded with `=`. */
  function EncodeGroup(s: Bytes): (r: string)
    requires 1 <= |s| <= 3
    ensures |r| == 4
    ensures forall k :: 0 <= k < 4 ==> IsAlphabet(r[k]) || r[k] == '='
  {
    if |s| == 1 then
      [Char(s[0] / 4), Char((s[0] % 4) * 16), '=', '=']
    else if |s| == 2 then
      [Char(s[0] / 4), Char((s[0] % 4) * 16 + s[1] / 16), Char((s[1] % 16) * 4), '=']
    else
      [Char(s[0] / 4), Char((s[0] % 4) * 16 + s[1] / 16), Char((s[1] % 16) * 4 + s[2] / 64), Char(s[2] % 64)]
  }

  /** `base64_encode`. */
  function Encode(s: Bytes): (r: string)
    ensures |r| == 4 * ((|s| + 2) / 3)
    ensures forall k :: 0 <= k < |r| ==> IsAlphabet(r[k]) || r[k] == '='
    decreases |s|
  {
    if |s| == 0 then []
    else if |s| <= 3 then EncodeGroup(s)
    else
      EncodedLength(|s|);
      EncodeGroup(s[..3]) + Encode(s[3..])
  }

  /** Each group of three octets adds four characters. */
  lemma EncodedLength(n: nat)
    requires n > 3
    ensures 4 + 4 * ((n - 3 + 2) / 3) == 4 * ((n + 2) / 3)
  {
  }

  /** Decodes four characters: a full group, or a final group with one or
      two `=` of padding. */
  function DecodeGroup(t: string): (r: Option<Bytes>)
    requires |t| == 4
  {
    if !IsAlphabet(t[0]) || !IsAlphabet(t[1]) then None
    else
      var c0, c1 := Index(t[0]), Index(t[1]);
      if t[2] == '=' && t[3] == '=' then Some([c0 * 4 + c1 / 16])
      else if !IsAlphabet(t[2]) then None
      else
        var c2 := Index(t[2]);
        if t[3] == '=' then Some([c0 * 4 + c1 / 16, (c1 % 16) * 16 + c2 / 4])
        else if !IsAlphabet(t[3]) then None
        else
          var c3 := Index(t[3]);
          Some([c0 * 4 + c1 / 16, (c1 % 16) * 16 + c2 / 4, (c2 % 4) * 64 + c3])
  }

  /** The inverse of `Encode`: padding is accepted only in the last group. */
  function Decode(t: string): (r: Option<Bytes>)
    decreases |t|
  {
    if |t| == 0 then Some([])
    else if |t| < 4 then None
    else if |t| == 4 then DecodeGroup(t)
    else if '=' in t[..4] then None
    else
      match (DecodeGroup(t[..4]), Decode(t[4..]))
      case (Some(g), Some(rest)) => Some(g + rest)
      case _ => None
  }

  /** The bit arithmetic of one group: the sextets recombine into the octets. */
  lemma GroupArithmetic(b0: Byte, b1: Byte, b2: Byte)
    ensures (b0 / 4) * 4 + ((b0 % 4) * 16 + b1 / 16) / 16 == b0
    ensures (((b0 % 4) * 16 + b1 / 16) % 16) * 16 + ((b1 % 16) * 4 + b2 / 64) / 4 == b1
    ensures (((b1 % 16) * 4 + b2 / 64) % 4) * 64 + b2 % 64 == b2
  {
  }

  /** Decoding the characters of whole sextets yields the octets they
      recombine into. */
  lemma DecodeSextets2(c0: Sextet, c1: Sextet, b0: Byte)
    requires c0 * 4 + c1 / 16 == b0
    ensures DecodeGroup([Char(c0), Char(c1), '=', '=']) == Some([b0])
  {
    CharIndex(c0);
    CharIndex(c1);
  }

  lemma DecodeSextets3(c0: Sextet, c1: Sextet, c2: Sextet, b0: Byte, b1: Byte)
    requires c0 * 4 + c1 / 16 == b0
    requires (c1 % 16) * 16 + c2 / 4 == b1
    ensures DecodeGroup([Char(c0), Char(c1), Char(c2), '=']) == Some([b0, b1])
  {
    CharIndex(c0);
    CharIndex(c1);
    CharIndex(c2);
  }

  lemma DecodeSextets4(c0: Sextet, c1: Sextet, c2: Sextet, c3: Sextet, b0: Byte, b1: Byte, b2: Byte)
    requires c0 * 4 + c1 / 16 == b0
    requires (c1 % 16) * 16 + c2 / 4 == b1
    requires (c2 % 4) * 64 + c3 == b2
    ensures DecodeGroup([Char(c0), Char(c1), Char(c2), Char(c3)]) == Some([b0, b1, b2])
  {
    CharIndex(c0);
    CharIndex(c1);
    CharIndex(c2);
    CharIndex(c3);
  }

  lemma DecodeEncodeGroup1(b0: Byte)
    ensures DecodeGroup(EncodeGroup([b0])) == Some([b0])
  {
    var c0: Sextet, c1: Sextet := b0 / 4, (b0 % 4) * 16;
    assert EncodeGroup([b0]) == [Char(c0), Char(c1), '=', '='];
    GroupArithmetic(b0, 0, 0);
    DecodeSextets2(c0, c1, b0);
  }

  lemma DecodeEncodeGroup2(b0: Byte, b1: Byte)
    ensures DecodeGroup(EncodeGroup([b0, b1])) == Some([b0, b1])
  {
    var c0: Sextet, c1: Sextet, c2: Sextet := b0 / 4, (b0 % 4) * 16 + b1 / 16, (b1 % 16) * 4;
    assert EncodeGroup([b0, b1]) == [Char(c0), Char(c1), Char(c2), '='];
    GroupArithmetic(b0, b1, 0);
    DecodeSextets3(c0, c1, c2, b0, b1);
  }

  lemma DecodeEncodeGroup3(b0: Byte, b1: Byte, b2: Byte)
    ensures DecodeGroup(EncodeGroup([b0, b1, b2])) == Some([b0, b1, b2])
    ensures '=' !in EncodeGroup([b0, b1, b2])
  {
    var c0: Sextet, c1: Sextet := b0 / 4, (b0 % 4) * 16 + b1 / 16;
    var c2: Sextet, c3: Sextet := (b1 % 16) * 4 + b2 / 64, b2 % 64;
    var t := [Char(c0), Char(c1), Char(c2), Char(c3)];
    assert EncodeGroup([b0, b1, b2]) == t;
    assert '=' !in t by {
      assert forall k :: 0 <= k < 4 ==> t[k] != '=';
    }
    GroupArithmetic(b0, b1, b2);
    DecodeSextets4(c0, c1, c2, c3, b0, b1, b2);
  }

  lemma DecodeEncodeGroup(s: Bytes)
    requires 1 <= |s| <= 3
    ensures DecodeGroup(EncodeGroup(s)) == Some(s)
    ensures |s| == 3 ==> '=' !in EncodeGroup(s)
  {
    if |s| == 1 {
      assert s == [s[0]];
      DecodeEncodeGroup1(s[0]);
    } else if |s| == 2 {
      assert s == [s[0], s[1]];
      DecodeEncodeGroup2(s[0], s[1]);
    } else {
      assert s == [s[0], s[1], s[2]];
      DecodeEncodeGroup3(s[0], s[1], s[2]);
    }
  }

  /** Decoding an encoding gives back the octets (round trip). */
  lemma {:induction false} DecodeEncode(s: Bytes)
    ensures Decode(Encode(s)) == Some(s)
    decreases |s|
  {
    if |s| == 0 {
    } else if |s| <= 3 {
      DecodeEncodeGroup(s);
    } else {
      var t := Encode(s);
      DecodeEncodeGroup(s[..3]);
      DecodeEncode(s[3..]);
      assert t[..4] == EncodeGroup(s[..3]);
      assert t[4..] == Encode(s[3..]);
      assert s == s[..3] + s[3..];
    }
  }
}

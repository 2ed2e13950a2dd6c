/** The padded "URL and Filename safe" base64 encoding of section 5 of RFC 4648, as Go's
    `base64.URLEncoding.EncodeToString` produces it, and a decoder that inverts it. */
module Base64Url {
  import opened Wrappers

  type byte = x: int | 0 <= x < 256

  const Pad: char := '='

  /** The 64 characters of the URL-safe alphabet (Table 2 of RFC 4648). */
  predicate IsUrlSafe(c: char)
  {
    ('A' <= c <= 'Z') || ('a' <= c <= 'z') || ('0' <= c <= '9') || c == '-' || c == '_'
  }

  /** The character that encodes the 6-bit value `v`. */
  function EncodeSextet(v: nat): (c: char)
    requires v < 64
    ensures IsUrlSafe(c) && c != Pad
  {
    if v < 26 then (('A' as int) + v) as char
    else if v < 52 then (('a' as int) + v - 26) as char
    else if v < 62 then (('0' as int) + v - 52) as char
    else if v == 62 then '-'
    else '_'
  }

  /** The 6-bit value an alphabet character encodes. */
  function DecodeSextet(c: char): (v: nat)
    requires IsUrlSafe(c)
    ensures v < 64 && EncodeSextet(v) == c
  {
    if 'A' <= c <= 'Z' then (c as int) - ('A' as int)
    else if 'a' <= c <= 'z' then (c as int) - ('a' as int) + 26
    else if '0' <= c <= '9' then (c as int) - ('0' as int) + 52
    else if c == '-' then 62
    else 63
  }

  lemma DecodeEncodeSextet(v: nat)
    requires v < 64
    ensures DecodeSextet(EncodeSextet(v)) == v
  {
  }

  /** Number of alphabet characters (non-padding) in the encoding of `n` bytes: ceil(4n/3). */
  function UnpaddedLength(n: nat): nat
  {
    4 * (n / 3) + (if n % 3 == 0 then 0 else n % 3 + 1)
  }

  /** The four characters a full group of three bytes encodes to. */
  function Group(b0: byte, b1: byte, b2: byte): (g: string)
    ensures |g| == 4 && forall i | 0 <= i < 4 :: IsUrlSafe(g[i]) && g[i] != Pad
  {
    [EncodeSextet(b0 / 4), EncodeSextet((b0 % 4) * 16 + b1 / 16),
     EncodeSextet((b1 % 16) * 4 + b2 / 64), EncodeSextet(b2 % 64)]
  }

  /** The last group when one byte is left: two characters and two `=`. */
  function FinalOne(b0: byte): (g: string)
    ensures |g| == 4 && IsUrlSafe(g[0]) && g[0] != Pad && IsUrlSafe(g[1]) && g[1] != Pad
    ensures g[2] == Pad && g[3] == Pad
  {
    [EncodeSextet(b0 / 4), EncodeSextet((b0 % 4) * 16), Pad, Pad]
  }

  /** The last group when two bytes are left: three characters and one `=`. */
  function FinalTwo(b0: byte, b1: byte): (g: string)
    ensures |g| == 4 && forall i | 0 <= i < 3 :: IsUrlSafe(g[i]) && g[i] != Pad
    ensures g[3] == Pad
  {
    [EncodeSextet(b0 / 4), EncodeSextet((b0 % 4) * 16 + b1 / 16), EncodeSextet((b1 % 16) * 4), Pad]
  }

  /** Where the padding of an `n`-byte encoding starts, one full group at a time. */
  lemma UnpaddedLengthStep(n: nat)
    requires n >= 3
    ensures UnpaddedLength(n) == 4 + UnpaddedLength(n - 3)
    ensures 4 * ((n + 2) / 3) == 4 + 4 * ((n - 1) / 3)
  {
    assert n / 3 == (n - 3) / 3 + 1;
    assert n % 3 == (n - 3) % 3;
  }

  /** A full group in front of the encoding of the remaining `n - 3` bytes has the shape of the
      encoding of `n` bytes. */
  lemma EncodedShapeStep(head: string, tail: string, n: nat)
    requires n >= 3
    requires |head| == 4 && forall i | 0 <= i < 4 :: IsUrlSafe(head[i]) && head[i] != Pad
    requires |tail| == 4 * ((n - 3 + 2) / 3)
    requires forall i | 0 <= i < |tail| ::
      if i < UnpaddedLength(n - 3) then IsUrlSafe(tail[i]) && tail[i] != Pad else tail[i] == Pad
    ensures |head + tail| == 4 * ((n + 2) / 3)
    ensures forall i | 0 <= i < |head + tail| ::
      if i < UnpaddedLength(n) then IsUrlSafe((head + tail)[i]) && (head + tail)[i] != Pad
      else (head + tail)[i] == Pad
  {
    UnpaddedLengthStep(n);
    assert forall i | 4 <= i < |head + tail| :: (head + tail)[i] == tail[i - 4];
  }

  /** Padded encoding: every 3 bytes become 4 characters; a final group of 1 or 2 bytes becomes
      2 or 3 characters followed by `=` up to 4. */
  function Encode(b: seq<byte>): (s: string)
    ensures |s| == 4 * ((|b| + 2) / 3)
    ensures forall i | 0 <= i < |s| ::
      if i < UnpaddedLength(|b|) then IsUrlSafe(s[i]) && s[i] != Pad else s[i] == Pad
    decreases |b|
  {
    if |b| == 0 then ""
    else if |b| == 1 then FinalOne(b[0])
    else if |b| == 2 then FinalTwo(b[0], b[1])
    else
      var head := Group(b[0], b[1], b[2]);
      var tail := Encode(b[3..]);
      EncodedShapeStep(head, tail, |b|);
      head + tail
  }

  /** Decoding of a padded URL-safe string; `None` when a group is not four characters of the
      alphabet with padding only at the end of the last group. */
  function Decode(s: string): (r: Option<seq<byte>>)
    decreases |s|
  {
    if |s| == 0 then Some([])
    else if |s| < 4 || !IsUrlSafe(s[0]) || !IsUrlSafe(s[1]) then None
    else
      var c0, c1 := DecodeSextet(s[0]), DecodeSextet(s[1]);
      var b0: byte := c0 * 4 + c1 / 16;
      if |s| == 4 && s[2] == Pad && s[3] == Pad then Some([b0])
      else if !IsUrlSafe(s[2]) then None
      else
        var c2 := DecodeSextet(s[2]);
        var b1: byte := (c1 % 16) * 16 + c2 / 4;
        if |s| == 4 && s[3] == Pad then Some([b0, b1])
        else if !IsUrlSafe(s[3]) then None
        else
          var b2: byte := (c2 % 4) * 64 + DecodeSextet(s[3]);
          match Decode(s[4..])
          case None => None
          case Some(rest) => Some([b0, b1, b2] + rest)
  }

  /** The bit arithmetic of one group: each byte is rebuilt from the sextets that hold its bits. */
  lemma FirstByteBits(b0: byte, b1: byte)
    ensures (b0 / 4) * 4 + ((b0 % 4) * 16 + b1 / 16) / 16 == b0
  {
    assert ((b0 % 4) * 16 + b1 / 16) / 16 == b0 % 4;
  }

  lemma SecondByteBits(b0: byte, b1: byte, b2: byte)
    ensures (((b0 % 4) * 16 + b1 / 16) % 16) * 16 + ((b1 % 16) * 4 + b2 / 64) / 4 == b1
  {
    assert ((b0 % 4) * 16 + b1 / 16) % 16 == b1 / 16;
    assert ((b1 % 16) * 4 + b2 / 64) / 4 == b1 % 16;
  }

  lemma ThirdByteBits(b1: byte, b2: byte)
    ensures (((b1 % 16) * 4 + b2 / 64) % 4) * 64 + b2 % 64 == b2
  {
    assert ((b1 % 16) * 4 + b2 / 64) % 4 == b2 / 64;
  }

  /** The three bytes of a group are rebuilt from its four sextets. */
  lemma RebuildGroup(b0: byte, b1: byte, b2: byte, v0: nat, v1: nat, v2: nat, v3: nat)
    requires v0 == b0 / 4 && v1 == (b0 % 4) * 16 + b1 / 16
    requires v2 == (b1 % 16) * 4 + b2 / 64 && v3 == b2 % 64
    ensures v0 * 4 + v1 / 16 == b0
    ensures (v1 % 16) * 16 + v2 / 4 == b1
    ensures (v2 % 4) * 64 + v3 == b2
  {
    FirstByteBits(b0, b1);
    SecondByteBits(b0, b1, b2);
    ThirdByteBits(b1, b2);
  }

  lemma DecodeEncodeOne(b0: byte)
    ensures Decode(Encode([b0])) == Some([b0])
  {
    DecodeEncodeSextet(b0 / 4);
    DecodeEncodeSextet((b0 % 4) * 16);
    FirstByteBits(b0, 0);
  }

  lemma DecodeEncodeTwo(b0: byte, b1: byte)
    ensures Decode(Encode([b0, b1])) == Some([b0, b1])
  {
    DecodeEncodeSextet(b0 / 4);
    DecodeEncodeSextet((b0 % 4) * 16 + b1 / 16);
    DecodeEncodeSextet((b1 % 16) * 4);
    FirstByteBits(b0, b1);
    SecondByteBits(b0, b1, 0);
  }

  /** One full group of four alphabet characters decodes to three bytes ahead of the rest. */
  lemma DecodeFullGroup(s: string, rest: seq<byte>)
    requires |s| >= 4 && IsUrlSafe(s[0]) && IsUrlSafe(s[1]) && IsUrlSafe(s[2]) && IsUrlSafe(s[3])
    requires s[2] != Pad && s[3] != Pad
    requires Decode(s[4..]) == Some(rest)
    ensures Decode(s) == Some([DecodeSextet(s[0]) * 4 + DecodeSextet(s[1]) / 16,
                               (DecodeSextet(s[1]) % 16) * 16 + DecodeSextet(s[2]) / 4,
                               (DecodeSextet(s[2]) % 4) * 64 + DecodeSextet(s[3])] + rest)
  {
  }

  lemma EncodeStep(b: seq<byte>)
    requires |b| >= 3
    ensures Encode(b) == Group(b[0], b[1], b[2]) + Encode(b[3..])
  {
  }

  /** Four encoded sextets ahead of a decodable text decode to the three bytes they hold. */
  lemma DecodeSextets(v0: nat, v1: nat, v2: nat, v3: nat, t: string, rest: seq<byte>)
    requires v0 < 64 && v1 < 64 && v2 < 64 && v3 < 64
    requires Decode(t) == Some(rest)
    ensures Decode([EncodeSextet(v0), EncodeSextet(v1), EncodeSextet(v2), EncodeSextet(v3)] + t)
      == Some([v0 * 4 + v1 / 16, (v1 % 16) * 16 + v2 / 4, (v2 % 4) * 64 + v3] + rest)
  {
    var s := [EncodeSextet(v0), EncodeSextet(v1), EncodeSextet(v2), EncodeSextet(v3)] + t;
    assert s[4..] == t;
    DecodeEncodeSextet(v0);
    DecodeEncodeSextet(v1);
    DecodeEncodeSextet(v2);
    DecodeEncodeSextet(v3);
    DecodeFullGroup(s, rest);
  }

  /** A full group ahead of a decodable text decodes to its three bytes ahead of the rest. */
  lemma DecodeGroup(b0: byte, b1: byte, b2: byte, t: string, rest: seq<byte>)
    requires Decode(t) == Some(rest)
    ensures Decode(Group(b0, b1, b2) + t) == Some([b0, b1, b2] + rest)
  {
    var v0, v1 := b0 / 4, (b0 % 4) * 16 + b1 / 16;
    var v2, v3 := (b1 % 16) * 4 + b2 / 64, b2 % 64;
    assert Group(b0, b1, b2) == [EncodeSextet(v0), EncodeSextet(v1), EncodeSextet(v2), EncodeSextet(v3)];
    DecodeSextets(v0, v1, v2, v3, t, rest);
    RebuildGroup(b0, b1, b2, v0, v1, v2, v3);
    assert [v0 * 4 + v1 / 16, (v1 % 16) * 16 + v2 / 4, (v2 % 4) * 64 + v3] == [b0, b1, b2];
  }

  /** Round trip: decoding an encoding gives back the bytes. */
  lemma {:induction false} DecodeEncode(b: seq<byte>)
    ensures Decode(Encode(b)) == Some(b)
    decreases |b|
  {
    if |b| == 0 {
    } else if |b| == 1 {
      assert b == [b[0]];
      DecodeEncodeOne(b[0]);
    } else if |b| == 2 {
      assert b == [b[0], b[1]];
      DecodeEncodeTwo(b[0], b[1]);
    } else {
      assert b == [b[0], b[1], b[2]] + b[3..];
      DecodeEncode(b[3..]);
      EncodeStep(b);
      DecodeGroup(b[0], b[1], b[2], Encode(b[3..]), b[3..]);
    }
  }
}

/**
 * The base64 encoding with the URL- and filename-safe alphabet of section 5
 * of RFC 4648, as `base64.urlsafe_b64encode` and `base64.urlsafe_b64decode`
 * apply it to the invite tokens of raspisanie_bot/encoded_invite.py.
 *
 * Three bytes become four characters; a final one or two bytes become two or
 * three characters followed by `==` or `=`.
 */
module Base64 {
  import opened Wrappers
  import opened Text

  type byte = x: int | 0 <= x < 256

  /** The 64 characters of the alphabet, by value. */
  function Char(v: nat): (c: char)
    requires v < 64
    ensures IsChar(c)
  {
    if v < 26 then ('A' as int + v) as char
    else if v < 52 then ('a' as int + (v - 26)) as char
    else if v < 62 then ('0' as int + (v - 52)) as char
    else if v == 62 then '-'
    else '_'
  }

  predicate IsChar(c: char) {
    ('A' <= c <= 'Z') || ('a' <= c <= 'z') || ('0' <= c <= '9') || c == '-' || c == '_'
  }

  /** The value of an alphabet character. */
  function Value(c: char): (v: nat)
    requires IsChar(c)
    ensures v < 64 && Char(v) == c
  {
    if 'A' <= c <= 'Z' then c as int - 'A' as int
    else if 'a' <= c <= 'z' then c as int - 'a' as int + 26
    else if '0' <= c <= '9' then c as int - '0' as int + 52
    else if c == '-' then 62
    else 63
  }

  /** Every value is written by exactly one character, and read back from it. */
  lemma ValueChar(v: nat)
    requires v < 64
    ensures IsChar(Char(v)) && Value(Char(v)) == v
  {
  }

  // ---------------------------------------------------------------- encoding

  /** Three bytes, 24 bits, as four 6-bit characters. */
  function Block(b0: byte, b1: byte, b2: byte): string {
    [Char(b0 / 4), Char(b0 % 4 * 16 + b1 / 16), Char(b1 % 16 * 4 + b2 / 64), Char(b2 % 64)]
  }

  /** The characters of a final group of one byte, before its padding. */
  function Tail1(b0: byte): string {
    [Char(b0 / 4), Char(b0 % 4 * 16)]
  }

  /** The characters of a final group of two bytes, before its padding. */
  function Tail2(b0: byte, b1: byte): string {
    [Char(b0 / 4), Char(b0 % 4 * 16 + b1 / 16), Char(b1 % 16 * 4)]
  }

  /** The encoded characters without the padding. */
  function EncodeUnpadded(b: seq<byte>): (s: string)
    ensures forall i :: 0 <= i < |s| ==> IsChar(s[i])
    decreases |b|
  {
    if |b| == 0 then ""
    else if |b| == 1 then Tail1(b[0])
    else if |b| == 2 then Tail2(b[0], b[1])
    else Block(b[0], b[1], b[2]) + EncodeUnpadded(b[3..])
  }

  /** The `=` characters that fill the last group of `n` bytes to four characters. */
  function Padding(n: nat): (p: string)
    ensures forall i :: 0 <= i < |p| ==> p[i] == '='
  {
    if n % 3 == 1 then "==" else if n % 3 == 2 then "=" else ""
  }

  /** `base64.urlsafe_b64encode`. */
  function Encode(b: seq<byte>): string {
    EncodeUnpadded(b) + Padding(|b|)
  }

  /** Four characters for every three bytes, and two or three for the bytes left over. */
  lemma {:induction false} EncodeUnpaddedLength(b: seq<byte>)
    ensures |EncodeUnpadded(b)| == 4 * (|b| / 3) + (if |b| % 3 == 0 then 0 else |b| % 3 + 1)
    decreases |b|
  {
    if |b| >= 3 {
      EncodeUnpaddedLength(b[3..]);
    }
  }

  // ---------------------------------------------------------------- decoding

  /** Four characters back to three bytes. */
  function BlockBytes(c0: char, c1: char, c2: char, c3: char): seq<byte>
    requires IsChar(c0) && IsChar(c1) && IsChar(c2) && IsChar(c3)
  {
    var v0, v1, v2, v3 := Value(c0), Value(c1), Value(c2), Value(c3);
    [v0 * 4 + v1 / 16, v1 % 16 * 16 + v2 / 4, v2 % 4 * 64 + v3]
  }

  /**
   * A strict decoder of padded URL-safe base64 (section 5 of RFC 4648):
   * `None` for a length that is not a multiple of four, a character outside
   * the URL-safe alphabet, or padding anywhere but in the last group.  On
   * text of that form it agrees with `base64.urlsafe_b64decode`, which is
   * more lenient: it skips characters outside the alphabet, also reads `+`
   * and `/`, and stops at the first complete padding group, ignoring
   * whatever follows; it raises `binascii.Error` only when the characters it
   * keeps cannot be regrouped.
   */
  function Decode(s: string): (r: Option<seq<byte>>)
    decreases |s|
  {
    if s == [] then Some([])
    else if |s| < 4 then None
    else if IsChar(s[0]) && IsChar(s[1]) && IsChar(s[2]) && IsChar(s[3]) then
      match Decode(s[4..])
      case None => None
      case Some(rest) => Some(BlockBytes(s[0], s[1], s[2], s[3]) + rest)
    else if |s| == 4 && IsChar(s[0]) && IsChar(s[1]) && s[2] == '=' && s[3] == '=' then
      Some([BlockBytes(s[0], s[1], 'A', 'A')[0]])
    else if |s| == 4 && IsChar(s[0]) && IsChar(s[1]) && IsChar(s[2]) && s[3] == '=' then
      Some(BlockBytes(s[0], s[1], s[2], 'A')[..2])
    else None
  }

  /** The arithmetic of one group: the four 6-bit values give the three bytes back. */
  lemma BlockRoundTrip(b0: byte, b1: byte, b2: byte)
    ensures var s := Block(b0, b1, b2);
      IsChar(s[0]) && IsChar(s[1]) && IsChar(s[2]) && IsChar(s[3]) &&
      BlockBytes(s[0], s[1], s[2], s[3]) == [b0, b1, b2]
  {
    var v0, v1, v2, v3 := b0 / 4, b0 % 4 * 16 + b1 / 16, b1 % 16 * 4 + b2 / 64, b2 % 64;
    ValueChar(v0);
    ValueChar(v1);
    ValueChar(v2);
    ValueChar(v3);
    var s := Block(b0, b1, b2);
    assert Value(s[0]) == v0 && Value(s[1]) == v1 && Value(s[2]) == v2 && Value(s[3]) == v3;
    Regroup(b0, b1, b2);
  }

  /** The bit arithmetic of one group: the 6-bit values put back together give the bytes. */
  lemma Regroup(b0: byte, b1: byte, b2: byte)
    ensures var v0, v1, v2, v3 := b0 / 4, b0 % 4 * 16 + b1 / 16, b1 % 16 * 4 + b2 / 64, b2 % 64;
      v0 * 4 + v1 / 16 == b0 && v1 % 16 * 16 + v2 / 4 == b1 && v2 % 4 * 64 + v3 == b2
  {
    var v1, v2 := b0 % 4 * 16 + b1 / 16, b1 % 16 * 4 + b2 / 64;
    assert v1 / 16 == b0 % 4 && v1 % 16 == b1 / 16;
    assert v2 / 4 == b1 % 16 && v2 % 4 == b2 / 64;
  }

  /** A final group of one byte. */
  lemma DecodeTail1(b0: byte)
    ensures Decode(Tail1(b0) + "==") == Some([b0])
  {
    var v0, v1 := b0 / 4, b0 % 4 * 16;
    ValueChar(v0);
    ValueChar(v1);
    var s := Tail1(b0) + "==";
    assert s == [Char(v0), Char(v1), '=', '='];
    assert v1 / 16 == b0 % 4;
  }

  /** A final group of two bytes. */
  lemma DecodeTail2(b0: byte, b1: byte)
    ensures Decode(Tail2(b0, b1) + "=") == Some([b0, b1])
  {
    var v0, v1, v2 := b0 / 4, b0 % 4 * 16 + b1 / 16, b1 % 16 * 4;
    ValueChar(v0);
    ValueChar(v1);
    ValueChar(v2);
    var s := Tail2(b0, b1) + "=";
    assert s == [Char(v0), Char(v1), Char(v2), '='];
    assert v1 / 16 == b0 % 4 && v1 % 16 == b1 / 16 && v2 / 4 == b1 % 16;
    var d := BlockBytes(s[0], s[1], s[2], 'A');
    assert d[0] == b0 && d[1] == b1;
    assert Decode(s) == Some(d[..2]);
    assert d[..2] == [b0, b1];
  }

  /** Three more bytes need the same padding. */
  lemma PaddingShift(n: nat)
    ensures Padding(n + 3) == Padding(n)
  {
    assert (n + 3) % 3 == n % 3;
  }

  /** Decoding a group of four alphabet characters in front of the rest. */
  lemma DecodeCons(g: string, t: string, rest: seq<byte>)
    requires |g| == 4 && IsChar(g[0]) && IsChar(g[1]) && IsChar(g[2]) && IsChar(g[3])
    requires Decode(t) == Some(rest)
    ensures Decode(g + t) == Some(BlockBytes(g[0], g[1], g[2], g[3]) + rest)
  {
    var s := g + t;
    assert s[4..] == t;
    assert s[0] == g[0] && s[1] == g[1] && s[2] == g[2] && s[3] == g[3];
  }

  /** A whole group of three bytes in front of the rest. */
  lemma DecodeBlock(b: seq<byte>)
    requires |b| >= 3 && Decode(Encode(b[3..])) == Some(b[3..])
    ensures Decode(Encode(b)) == Some(b)
  {
    var blk := Block(b[0], b[1], b[2]);
    EncodeCons(b);
    BlockRoundTrip(b[0], b[1], b[2]);
    DecodeCons(blk, Encode(b[3..]), b[3..]);
    assert b == [b[0], b[1], b[2]] + b[3..];
  }

  /** The encoding of three bytes or more starts with the group of the first three. */
  lemma EncodeCons(b: seq<byte>)
    requires |b| >= 3
    ensures Encode(b) == Block(b[0], b[1], b[2]) + Encode(b[3..])
  {
    PaddingShift(|b[3..]|);
    assert EncodeUnpadded(b) == Block(b[0], b[1], b[2]) + EncodeUnpadded(b[3..]);
    ConcatAssoc(Block(b[0], b[1], b[2]), EncodeUnpadded(b[3..]), Padding(|b[3..]|));
  }

  /** Decoding what was encoded gives the bytes back. */
  lemma {:induction false} DecodeEncode(b: seq<byte>)
    ensures Decode(Encode(b)) == Some(b)
    decreases |b|
  {
    if |b| == 1 {
      DecodeTail1(b[0]);
      assert b == [b[0]];
    } else if |b| == 2 {
      DecodeTail2(b[0], b[1]);
      assert b == [b[0], b[1]];
    } else if |b| >= 3 {
      DecodeEncode(b[3..]);
      DecodeBlock(b);
    }
  }
}

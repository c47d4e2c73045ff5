/**
 * Invite tokens (raspisanie_bot/encoded_invite.py): the invite id packed as
 * eight little-endian bytes, followed by its HMAC-SHA256 tag (RFC 2104), in
 * the URL-safe base64 of section 5 of RFC 4648 with the `=` padding removed.
 * Decoding restores the padding from the length, checks the tag and unpacks
 * the id.  The keyed digest `hmac.digest(key, data, 'sha256')` is the
 * parameter `hmac`.
 */
module EncodedInvite {
  import opened Wrappers
  import opened Text
  import Base64

  type byte = Base64.byte

  /** `PACK_SIZE = struct.calcsize("<Q")`. */
  const PackSize: nat := 8

  /** The bound of an unsigned 64-bit integer, the range of `<Q`. */
  const Two64: nat := 0x1_0000_0000_0000_0000

  /**
   * Why an invite is refused: `struct.error`, a token that does not decode
   * (`binascii.Error`, or `UnicodeEncodeError` for a non-ASCII token), or
   * `InviteSignatureError`.
   */
  datatype InviteError = PackError | DecodeError | InviteSignatureError

  // ---------------------------------------------------------------- struct "<Q"

  function Pow256(count: nat): (p: nat)
    ensures p >= 1
  {
    if count == 0 then 1 else 256 * Pow256(count - 1)
  }

  /** `count` little-endian bytes of `n`, least significant first. */
  function PackLE(n: nat, count: nat): (r: seq<byte>)
    ensures |r| == count
  {
    if count == 0 then [] else [n % 256] + PackLE(n / 256, count - 1)
  }

  /** The unsigned value of little-endian bytes. */
  function UnpackLE(b: seq<byte>): nat {
    if b == [] then 0 else b[0] + 256 * UnpackLE(b[1..])
  }

  lemma DivBound(n: nat, p: nat)
    requires n < 256 * p
    ensures n / 256 < p
  {
  }

  /** Unpacking what was packed into enough bytes gives the number back. */
  lemma {:induction false} UnpackPack(n: nat, count: nat)
    requires n < Pow256(count)
    ensures UnpackLE(PackLE(n, count)) == n
  {
    if count > 0 {
      DivBound(n, Pow256(count - 1));
      UnpackPack(n / 256, count - 1);
      var r := PackLE(n, count);
      assert r[1..] == PackLE(n / 256, count - 1);
    }
  }

  /** Eight bytes hold exactly the unsigned 64-bit numbers. */
  lemma Pow256Eight()
    ensures Pow256(PackSize) == Two64
  {
  }

  /** Every eight bytes unpack below `2^64`. */
  lemma {:induction false} UnpackBound(b: seq<byte>)
    ensures UnpackLE(b) < Pow256(|b|)
  {
    if b != [] {
      UnpackBound(b[1..]);
    }
  }

  // ---------------------------------------------------------------- padding

  predicate NotPad(c: char) {
    c != '='
  }

  /** Line 20: `3 - ((len(data) - 1) % 4)` characters `=` fill the text to a multiple of four. */
  function PadCount(n: nat): (k: nat)
    ensures k <= 3 && (n + k) % 4 == 0
  {
    3 - ((n - 1) % 4)
  }

  /** The padding computed from the length of the stripped text is the padding that was stripped. */
  lemma PadCountRestores(b: seq<byte>)
    ensures Repeat('=', PadCount(|Base64.EncodeUnpadded(b)|)) == Base64.Padding(|b|)
  {
    Base64.EncodeUnpaddedLength(b);
    PadCountOfLength(|Base64.EncodeUnpadded(b)|, |b|);
  }

  /** The same for the stripped length that `len` bytes encode to. */
  lemma PadCountOfLength(n: nat, len: nat)
    requires n == 4 * (len / 3) + (if len % 3 == 0 then 0 else len % 3 + 1)
    ensures Repeat('=', PadCount(n)) == Base64.Padding(len)
  {
    var q, r := len / 3, len % 3;
    if r == 0 {
      assert n == 4 * q;
      assert PadCount(n) == 0;
    } else if r == 1 {
      assert n == 4 * q + 2;
      assert PadCount(n) == 2;
    } else {
      assert n == 4 * q + 3;
      assert PadCount(n) == 1;
    }
  }

  /** `.replace("=", "")` leaves the encoded characters and drops the padding. */
  lemma StripPadding(b: seq<byte>)
    ensures Filter(Base64.Encode(b), NotPad) == Base64.EncodeUnpadded(b)
  {
    var e := Base64.EncodeUnpadded(b);
    FilterAppend(e, Base64.Padding(|b|), NotPad);
    FilterAll(e, NotPad);
    FilterNone(Base64.Padding(|b|), NotPad);
  }

  // ---------------------------------------------------------------- invites

  /** `data[:PACK_SIZE]` and `data[PACK_SIZE:]`, which Python allows on shorter data. */
  function Take(data: seq<byte>, n: nat): seq<byte> {
    if |data| <= n then data else data[..n]
  }

  function Drop(data: seq<byte>, n: nat): seq<byte> {
    if |data| <= n then [] else data[n..]
  }

  /** The bytes an invite carries: the packed id and its tag. */
  function Payload<K>(key: K, iid: nat, hmac: (K, seq<byte>) -> seq<byte>): seq<byte>
    requires iid < Two64
  {
    var data := PackLE(iid, PackSize);
    data + hmac(key, data)
  }

  /** `encode_invite(key, iid)`; `struct.pack` refuses an id outside `0 <= iid < 2^64`. */
  function EncodeInvite<K>(key: K, iid: int, hmac: (K, seq<byte>) -> seq<byte>): (r: Result<string, InviteError>)
    ensures r.Err? <==> !(0 <= iid < Two64)
    ensures r.Ok? ==> forall i :: 0 <= i < |r.value| ==> Base64.IsChar(r.value[i])
  {
    if 0 <= iid < Two64 then
      var payload := Payload(key, iid, hmac);
      StripPadding(payload);
      Ok(Filter(Base64.Encode(payload), NotPad))
    else Err(PackError)
  }

  /** `decode_invite(key, text)`. */
  function DecodeInvite<K>(key: K, text: string, hmac: (K, seq<byte>) -> seq<byte>): (r: Result<nat, InviteError>)
    ensures r.Ok? ==> r.value < Two64
    ensures r == Err(DecodeError) <==> Base64.Decode(text + Repeat('=', PadCount(|text|))).None?
    ensures r == Err(InviteSignatureError) <==>
      (match Base64.Decode(text + Repeat('=', PadCount(|text|)))
       case None => false
       case Some(data) => Drop(data, PackSize) != hmac(key, Take(data, PackSize)))
    ensures r.Ok? ==>
      var data := Base64.Decode(text + Repeat('=', PadCount(|text|))).value;
      |data| >= PackSize && data[PackSize..] == hmac(key, data[..PackSize]) && r.value == UnpackLE(data[..PackSize])
  {
    match Base64.Decode(text + Repeat('=', PadCount(|text|)))
    case None => Err(DecodeError)
    case Some(data) =>
      if Drop(data, PackSize) != hmac(key, Take(data, PackSize)) then Err(InviteSignatureError)
      else if |data| < PackSize then Err(PackError)
      else
        assert Take(data, PackSize) == data[..PackSize] && Drop(data, PackSize) == data[PackSize..];
        UnpackBound(data[..PackSize]);
        Pow256Eight();
        Ok(UnpackLE(data[..PackSize]))
  }

  /** Every id of 64 bits survives a round trip through an invite token. */
  lemma InviteRoundTrip<K>(key: K, iid: nat, hmac: (K, seq<byte>) -> seq<byte>)
    requires iid < Two64
    ensures EncodeInvite(key, iid, hmac).Ok?
    ensures DecodeInvite(key, EncodeInvite(key, iid, hmac).value, hmac) == Ok(iid)
  {
    var payload := Payload(key, iid, hmac);
    var data := PackLE(iid, PackSize);
    var text := EncodeInvite(key, iid, hmac).value;
    StripPadding(payload);
    assert text == Base64.EncodeUnpadded(payload);
    PadCountRestores(payload);
    assert text + Repeat('=', PadCount(|text|)) == Base64.Encode(payload);
    Base64.DecodeEncode(payload);
    assert Take(payload, PackSize) == data && Drop(payload, PackSize) == hmac(key, data);
    assert payload[..PackSize] == data;
    Pow256Eight();
    UnpackPack(iid, PackSize);
  }

  /** A token whose tag was made for another id is refused. */
  lemma ForgedTagRefused<K>(key: K, iid: nat, tag: seq<byte>, hmac: (K, seq<byte>) -> seq<byte>)
    requires iid < Two64
    requires tag != hmac(key, PackLE(iid, PackSize))
    ensures DecodeInvite(key, Filter(Base64.Encode(PackLE(iid, PackSize) + tag), NotPad), hmac) == Err(InviteSignatureError)
  {
    var data := PackLE(iid, PackSize);
    var payload := data + tag;
    var text := Filter(Base64.Encode(payload), NotPad);
    StripPadding(payload);
    PadCountRestores(payload);
    assert text + Repeat('=', PadCount(|text|)) == Base64.Encode(payload);
    Base64.DecodeEncode(payload);
    if |payload| <= PackSize {
      assert tag == [];
    } else {
      assert Take(payload, PackSize) == data && Drop(payload, PackSize) == tag;
    }
  }
}

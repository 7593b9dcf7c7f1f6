/** hash.cpp: the hexadecimal text of a digest. The digest itself is a parameter. */
module Hashing {
  import opened Streams
  import opened Codec

  type Byte = n: nat | n < 256

  /** SHA_DIGEST_LENGTH. */
  const DIGEST_LENGTH := 20

  type Digest = d: seq<Byte> | |d| == DIGEST_LENGTH witness seq(DIGEST_LENGTH, i => 0)

  function HexDigit(n: nat): char
    requires n < 16
  {
    if n < 10 then ('0' as int + n) as char else ('a' as int + (n - 10)) as char
  }

  /** `snprintf` with "%02x". */
  function HexByte(b: Byte): (s: string)
    ensures |s| == 2
  {
    [HexDigit(b / 16), HexDigit(b % 16)]
  }

  function Hex(bytes: seq<Byte>): (s: string)
    ensures |s| == 2 * |bytes|
  {
    if bytes == [] then "" else HexByte(bytes[0]) + Hex(bytes[1..])
  }

  function Sha1(digest: string -> Digest, data: string): (s: string)
    ensures |s| == 2 * DIGEST_LENGTH
  {
    Hex(digest(data))
  }

  method GetSha1(digest: string -> Digest, data: string) returns (s: string)
    ensures s == Sha1(digest, data)
  {
    var bytes := digest(data);
    s := "";
    for i := 0 to DIGEST_LENGTH
      invariant s == Hex(bytes[..i])
    {
      s := s + HexByte(bytes[i]);
      HexSnoc(bytes[..i], bytes[i]);
      assert bytes[..i + 1] == bytes[..i] + [bytes[i]];
    }
    assert bytes[..DIGEST_LENGTH] == bytes;
  }

  lemma {:induction false} HexSnoc(bytes: seq<Byte>, b: Byte)
    ensures Hex(bytes + [b]) == Hex(bytes) + HexByte(b)
  {
    if bytes == [] {
      assert Hex([b]) == HexByte(b) + Hex([]);
    } else {
      assert (bytes + [b])[1..] == bytes[1..] + [b];
      HexSnoc(bytes[1..], b);
    }
  }

  lemma {:induction false} HexHasNoSpace(bytes: seq<Byte>)
    ensures NoSpace(Hex(bytes))
  {
    if bytes != [] {
      HexHasNoSpace(bytes[1..]);
    }
  }

  /** The value of a hexadecimal digit. */
  function HexValue(c: char): nat {
    if '0' <= c <= '9' then c as int - '0' as int
    else if 'a' <= c <= 'f' then c as int - 'a' as int + 10
    else 0
  }

  /** Read as hexadecimal numbers, high digit first, the pairs of characters are the bytes. */
  lemma {:induction false} HexIsRead(bytes: seq<Byte>, i: nat)
    requires i < |bytes|
    ensures var s := Hex(bytes); 16 * HexValue(s[2 * i]) + HexValue(s[2 * i + 1]) == bytes[i]
    decreases |bytes|
  {
    hide HexByte, HexValue;
    var first, rest := HexByte(bytes[0]), Hex(bytes[1..]);
    assert Hex(bytes) == first + rest;
    if i == 0 {
      HexByteIsRead(bytes[0]);
      assert (first + rest)[0] == first[0] && (first + rest)[1] == first[1];
    } else {
      HexIsRead(bytes[1..], i - 1);
      var k := 2 * (i - 1);
      assert (first + rest)[k + 2] == rest[k] && (first + rest)[k + 3] == rest[k + 1];
    }
  }

  lemma HexByteIsRead(b: Byte)
    ensures 16 * HexValue(HexByte(b)[0]) + HexValue(HexByte(b)[1]) == b
  {
    HexDigitIsRead(b / 16);
    HexDigitIsRead(b % 16);
  }

  lemma HexDigitIsRead(n: nat)
    requires n < 16
    ensures HexValue(HexDigit(n)) == n
  {
  }

  /** A hash is a token of forty characters: it survives every stream that it passes. */
  lemma HashesAreWords(digest: string -> Digest, data: string)
    ensures IsWord(Sha1(digest, data)) && |Sha1(digest, data)| == 40
  {
    HexHasNoSpace(digest(data));
  }

  /** The text determines the digest. */
  lemma {:induction false} HexIsInjective(a: seq<Byte>, b: seq<Byte>)
    requires Hex(a) == Hex(b)
    ensures a == b
  {
    assert |a| == |b|;
    if a != [] {
      var s, t := HexByte(a[0]) + Hex(a[1..]), HexByte(b[0]) + Hex(b[1..]);
      assert s == t;
      assert s[..2] == HexByte(a[0]) && t[..2] == HexByte(b[0]);
      assert s[2..] == Hex(a[1..]) && t[2..] == Hex(b[1..]);
      assert HexByte(a[0])[0] == HexByte(b[0])[0] && HexByte(a[0])[1] == HexByte(b[0])[1];
      HexIsInjective(a[1..], b[1..]);
    }
  }

  /** Pieces of equal width are determined by their concatenation, so files of equal hash have equal pieces. */
  lemma {:induction false} EqualHashesMeanEqualPieces(a: seq<string>, b: seq<string>)
    requires forall i :: 0 <= i < |a| ==> |a[i]| == 40
    requires forall i :: 0 <= i < |b| ==> |b[i]| == 40
    requires Concat(a) == Concat(b)
    ensures a == b
  {
    if a == [] || b == [] {
      assert a == [] && b == [];
    } else {
      var s, t := a[0] + Concat(a[1..]), b[0] + Concat(b[1..]);
      assert s == t;
      assert s[..40] == a[0] && t[..40] == b[0];
      assert s[40..] == Concat(a[1..]) && t[40..] == Concat(b[1..]);
      EqualHashesMeanEqualPieces(a[1..], b[1..]);
    }
  }
}

/** HMAC-SHA-256 in lower-case hexadecimal: lib/vox_common/hmac_sha256.cpp over the hasher of Sha256,
    against section 2 of RFC 2104. */
module Hmac {
  import F = Fips180
  import S = Sha256

  // ---- Section 2 of RFC 2104 ------------------------------------------------------------------

  /** The key as one block: hashed first if it is longer than a block, then padded with zeros. */
  function KeyBlock(key: seq<bv8>): F.Block {
    if |key| > 64 then F.Sha256(key) + F.Zeros(32) else key + F.Zeros(64 - |key|)
  }

  function XorByte(x: bv8, y: bv8): bv8 { x ^ y }

  function XorWith(block: F.Block, pad: bv8): F.Block {
    seq(64, i requires 0 <= i < 64 => XorByte(block[i], pad))
  }

  function Hmac(key: seq<bv8>, message: seq<bv8>): (mac: seq<bv8>)
    ensures |mac| == 32
  {
    F.Sha256(XorWith(KeyBlock(key), 0x5c) + F.Sha256(XorWith(KeyBlock(key), 0x36) + message))
  }

  /** A key longer than a block is equivalent to its own digest. */
  lemma LongKeyIsItsDigest(key: seq<bv8>, message: seq<bv8>)
    requires |key| > 64
    ensures Hmac(key, message) == Hmac(F.Sha256(key), message)
  {}

  /** Keys that differ only in trailing zero bytes, within one block, are equivalent. */
  lemma TrailingZerosAreFree(key: seq<bv8>, n: nat, message: seq<bv8>)
    requires |key| + n <= 64
    ensures Hmac(key + F.Zeros(n), message) == Hmac(key, message)
  {
    assert KeyBlock(key + F.Zeros(n)) == KeyBlock(key);
  }

  // ---- Hexadecimal ----------------------------------------------------------------------------

  function HexDigit(n: bv8): (c: char)
    requires n < 16
  {
    if n == 0 then '0' else if n == 1 then '1' else if n == 2 then '2' else if n == 3 then '3'
    else if n == 4 then '4' else if n == 5 then '5' else if n == 6 then '6' else if n == 7 then '7'
    else if n == 8 then '8' else if n == 9 then '9' else if n == 10 then 'a' else if n == 11 then 'b'
    else if n == 12 then 'c' else if n == 13 then 'd' else if n == 14 then 'e' else 'f'
  }

  /** What `os << std::hex << x` prints for an unsigned x below 256, before padding. */
  function PlainHex(x: bv8): (s: string)
    ensures 1 <= |s| <= 2
  {
    if x < 16 then [HexDigit(x)] else [HexDigit(x >> 4), HexDigit(x & 0xf)]
  }

  function Hex(bytes: seq<bv8>): (s: string)
    ensures |s| == 2 * |bytes|
  {
    if bytes == [] then [] else Hex(bytes[..|bytes| - 1]) + HexPair(bytes[|bytes| - 1])
  }

  function HexPair(x: bv8): (s: string)
    ensures |s| == 2
  {
    [HexDigit(x >> 4), HexDigit(x & 0xf)]
  }

  function HexValue(c: char): (n: bv8) {
    if c == '0' then 0 else if c == '1' then 1 else if c == '2' then 2 else if c == '3' then 3
    else if c == '4' then 4 else if c == '5' then 5 else if c == '6' then 6 else if c == '7' then 7
    else if c == '8' then 8 else if c == '9' then 9 else if c == 'a' then 10 else if c == 'b' then 11
    else if c == 'c' then 12 else if c == 'd' then 13 else if c == 'e' then 14 else if c == 'f' then 15
    else 255
  }

  function PairValue(s: string): bv8
    requires |s| == 2
  {
    (HexValue(s[0]) << 4) | HexValue(s[1])
  }

  predicate IsHexDigit(c: char) { '0' <= c <= '9' || 'a' <= c <= 'f' }

  /** Two digits, one byte. */
  function Unhex(s: string): (bytes: seq<bv8>)
    requires |s| % 2 == 0
  {
    seq(|s| / 2, i requires 0 <= i < |s| / 2 => PairValue(s[2 * i..2 * i + 2]))
  }

  lemma HexDigitValue(n: bv8)
    requires n < 16
    ensures HexValue(HexDigit(n)) == n
  {}

  lemma Nibbles(x: bv8)
    ensures ((x >> 4) << 4) | (x & 0xf) == x && x >> 4 < 16 && x & 0xf < 16
  {}

  lemma HexPairValue(x: bv8)
    ensures PairValue(HexPair(x)) == x
  {
    Nibbles(x);
    HexDigitValue(x >> 4);
    HexDigitValue(x & 0xf);
  }

  lemma HexDigitIsHex(n: bv8)
    requires n < 16
    ensures IsHexDigit(HexDigit(n))
  {}

  lemma {:induction false} HexIsHex(bytes: seq<bv8>)
    ensures forall c :: c in Hex(bytes) ==> IsHexDigit(c)
  {
    if bytes != [] {
      var x := bytes[|bytes| - 1];
      HexIsHex(bytes[..|bytes| - 1]);
      HexDigitIsHex(x >> 4);
      HexDigitIsHex(x & 0xf);
    }
  }

  lemma {:induction false} HexAt(bytes: seq<bv8>, i: nat)
    requires i < |bytes|
    ensures Hex(bytes)[2 * i..2 * i + 2] == HexPair(bytes[i])
  {
    if i < |bytes| - 1 {
      var rest := bytes[..|bytes| - 1];
      HexAt(rest, i);
      assert Hex(bytes)[2 * i..2 * i + 2] == Hex(rest)[2 * i..2 * i + 2];
    }
  }

  lemma ByteBack(bytes: seq<bv8>, i: nat)
    requires i < |bytes|
    ensures PairValue(Hex(bytes)[2 * i..2 * i + 2]) == bytes[i]
  {
    HexAt(bytes, i);
    HexPairValue(bytes[i]);
  }

  lemma UnhexIs(s: string, bytes: seq<bv8>)
    requires |s| == 2 * |bytes| && forall i :: 0 <= i < |bytes| ==> PairValue(s[2 * i..2 * i + 2]) == bytes[i]
    ensures Unhex(s) == bytes
  {}

  /** The hexadecimal form is lower-case and loses nothing. */
  lemma HexRoundTrip(bytes: seq<bv8>)
    ensures forall c :: c in Hex(bytes) ==> IsHexDigit(c)
    ensures Unhex(Hex(bytes)) == bytes
  {
    HexIsHex(bytes);
    forall i | 0 <= i < |bytes| ensures PairValue(Hex(bytes)[2 * i..2 * i + 2]) == bytes[i] { ByteBack(bytes, i); }
    UnhexIs(Hex(bytes), bytes);
  }

  /** bytes_to_hex_string: width 2, filled with '0', for each byte. */
  method BytesToHexString(bytes: seq<bv8>) returns (s: string)
    ensures s == Hex(bytes)
  {
    s := "";
    for i := 0 to |bytes|
      invariant s == Hex(bytes[..i])
    {
      var plain := PlainHex(bytes[i]);
      if |plain| < 2 {
        plain := ['0'] + plain;
      }
      PaddedHex(bytes[i]);
      assert bytes[..i + 1][..i] == bytes[..i];
      s := s + plain;
    }
    assert bytes[..|bytes|] == bytes;
  }

  lemma PaddedHex(x: bv8)
    ensures HexPair(x) == if |PlainHex(x)| < 2 then ['0'] + PlainHex(x) else PlainHex(x)
  {}

  // ---- HmacSha256Hex --------------------------------------------------------------------------

  /** A zeroed block with `data` copied to its front. */
  method ZeroPadded(data: seq<bv8>) returns (block: array<bv8>)
    requires |data| <= 64
    ensures fresh(block) && block.Length == 64 && block[..] == data + F.Zeros(64 - |data|)
  {
    block := new bv8[64](_ => 0);
    S.CopyInto(block, 0, data);
  }

  method LoadKey(key: seq<bv8>) returns (keyBlock: array<bv8>)
    requires |key| < S.MAX_DISTANCE
    ensures fresh(keyBlock) && keyBlock.Length == 64 && keyBlock[..] == KeyBlock(key)
  {
    if |key| > 64 {
      var kh := S.Hash256(key);
      keyBlock := ZeroPadded(kh);
    } else {
      keyBlock := ZeroPadded(key);
    }
  }

  method HmacSha256Hex(key: seq<bv8>, message: seq<bv8>) returns (hex: string)
    requires |key| < S.MAX_DISTANCE && 64 + |message| < S.MAX_DISTANCE
    ensures hex == Hex(Hmac(key, message)) && |hex| == 64
  {
    var keyBlock := LoadKey(key);
    var ipad := XorPad(keyBlock, 0x36);
    var opad := XorPad(keyBlock, 0x5c);
    var innerHash := S.Hash256(ipad[..] + message);
    var outerHash := S.Hash256(opad[..] + innerHash);
    hex := BytesToHexString(outerHash);
  }

  method XorPad(keyBlock: array<bv8>, pad: bv8) returns (out: array<bv8>)
    requires keyBlock.Length == 64
    ensures fresh(out) && out.Length == 64 && out[..] == XorWith(keyBlock[..], pad)
  {
    out := new bv8[64](_ => 0);
    for i := 0 to 64
      invariant forall j :: 0 <= j < i ==> out[j] == XorByte(keyBlock[j], pad)
    {
      out[i] := XorByte(keyBlock[i], pad);
    }
  }
}

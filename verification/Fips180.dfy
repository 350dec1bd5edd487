/** SHA-256 as FIPS 180-4 states it: 32-bit words, addition modulo 2^32, one-shot padding.
    This module is the reference; Sha256.dfy models the code and is proved against it. */
module Fips180 {

  type Block = s: seq<bv8> | |s| == 64 witness seq(64, _ => 0)
  type State = s: seq<bv32> | |s| == 8 witness seq(8, _ => 0)

  // Sections 4.2.2 and 5.3.3, as picosha2.h writes them out; Sha256Constants proves them to be the prime roots.
  const K0: seq<bv32> := [0x428a2f98, 0x71374491, 0xb5c0fbcf, 0xe9b5dba5, 0x3956c25b, 0x59f111f1, 0x923f82a4, 0xab1c5ed5]
  const K1: seq<bv32> := [0xd807aa98, 0x12835b01, 0x243185be, 0x550c7dc3, 0x72be5d74, 0x80deb1fe, 0x9bdc06a7, 0xc19bf174]
  const K2: seq<bv32> := [0xe49b69c1, 0xefbe4786, 0x0fc19dc6, 0x240ca1cc, 0x2de92c6f, 0x4a7484aa, 0x5cb0a9dc, 0x76f988da]
  const K3: seq<bv32> := [0x983e5152, 0xa831c66d, 0xb00327c8, 0xbf597fc7, 0xc6e00bf3, 0xd5a79147, 0x06ca6351, 0x14292967]
  const K4: seq<bv32> := [0x27b70a85, 0x2e1b2138, 0x4d2c6dfc, 0x53380d13, 0x650a7354, 0x766a0abb, 0x81c2c92e, 0x92722c85]
  const K5: seq<bv32> := [0xa2bfe8a1, 0xa81a664b, 0xc24b8b70, 0xc76c51a3, 0xd192e819, 0xd6990624, 0xf40e3585, 0x106aa070]
  const K6: seq<bv32> := [0x19a4c116, 0x1e376c08, 0x2748774c, 0x34b0bcb5, 0x391c0cb3, 0x4ed8aa4a, 0x5b9cca4f, 0x682e6ff3]
  const K7: seq<bv32> := [0x748f82ee, 0x78a5636f, 0x84c87814, 0x8cc70208, 0x90befffa, 0xa4506ceb, 0xbef9a3f7, 0xc67178f2]
  const K: seq<bv32> := K0 + K1 + K2 + K3 + K4 + K5 + K6 + K7

  const H0: State := [
    0x6a09e667, 0xbb67ae85, 0x3c6ef372, 0xa54ff53a, 0x510e527f, 0x9b05688c, 0x1f83d9ab, 0x5be0cd19]

  // Section 4.1.2.
  function ShR(x: bv32, n: bv6): bv32
    requires n < 32
  {
    x >> n
  }
  function ShL(x: bv32, n: bv6): bv32
    requires n <= 32
  {
    x << n
  }
  function Or(x: bv32, y: bv32): bv32 { x | y }
  function RotR(x: bv32, n: bv6): bv32
    requires n < 32
  {
    Or(ShR(x, n), ShL(x, 32 - n))
  }
  function Xor3(x: bv32, y: bv32, z: bv32): bv32 { x ^ y ^ z }
  function Ch(x: bv32, y: bv32, z: bv32): bv32 { (x & y) ^ (!x & z) }
  function Maj(x: bv32, y: bv32, z: bv32): bv32 { (x & y) ^ (x & z) ^ (y & z) }
  function BigSigma0(x: bv32): bv32 { Xor3(RotR(x, 2), RotR(x, 13), RotR(x, 22)) }
  function BigSigma1(x: bv32): bv32 { Xor3(RotR(x, 6), RotR(x, 11), RotR(x, 25)) }
  function SmallSigma0(x: bv32): bv32 { Xor3(RotR(x, 7), RotR(x, 18), ShR(x, 3)) }
  function SmallSigma1(x: bv32): bv32 { Xor3(RotR(x, 17), RotR(x, 19), ShR(x, 10)) }

  function WordOf(b0: bv8, b1: bv8, b2: bv8, b3: bv8): bv32 {
    (b0 as bv32 << 24) | (b1 as bv32 << 16) | (b2 as bv32 << 8) | b3 as bv32
  }

  /** The message schedule W_t of section 6.2.2, step 1. */
  function W(block: Block, t: nat): bv32
    requires t < 64
  {
    if t < 16 then
      WordOf(block[4 * t], block[4 * t + 1], block[4 * t + 2], block[4 * t + 3])
    else
      ScheduleSum(SmallSigma1(W(block, t - 2)), W(block, t - 7), SmallSigma0(W(block, t - 15)), W(block, t - 16))
  }

  function ScheduleSum(s1: bv32, w7: bv32, s0: bv32, w16: bv32): bv32 { Plus(Plus(Plus(s1, w7), s0), w16) }

  /** The eight working variables. */
  datatype Vars = Vars(a: bv32, b: bv32, c: bv32, d: bv32, e: bv32, f: bv32, g: bv32, h: bv32)

  function Plus(x: bv32, y: bv32): bv32 { x + y }
  function T1(h: bv32, s1: bv32, ch: bv32, k: bv32, w: bv32): bv32 { Plus(Plus(Plus(Plus(h, s1), ch), k), w) }

  /** One round of section 6.2.2, step 3. */
  function Round(v: Vars, k: bv32, w: bv32): Vars {
    var t1 := T1(v.h, BigSigma1(v.e), Ch(v.e, v.f, v.g), k, w);
    var t2 := Plus(BigSigma0(v.a), Maj(v.a, v.b, v.c));
    Vars(Plus(t1, t2), v.a, v.b, v.c, Plus(v.d, t1), v.e, v.f, v.g)
  }

  function Start(cv: State): Vars { Vars(cv[0], cv[1], cv[2], cv[3], cv[4], cv[5], cv[6], cv[7]) }

  function Rounds(cv: State, block: Block, t: nat): Vars
    requires t <= 64
  {
    if t == 0 then Start(cv) else Round(Rounds(cv, block, t - 1), K[t - 1], W(block, t - 1))
  }

  function Word(v: Vars, i: nat): bv32 {
    if i == 0 then v.a else if i == 1 then v.b else if i == 2 then v.c else if i == 3 then v.d
    else if i == 4 then v.e else if i == 5 then v.f else if i == 6 then v.g else v.h
  }

  /** Steps 2 to 4: the chaining value after one block. */
  function Compress(cv: State, block: Block): State {
    var v := Rounds(cv, block, 64);
    seq(8, i requires 0 <= i < 8 => Plus(cv[i], Word(v, i)))
  }

  /** Compress folded over the whole blocks of `m`. */
  function Fold(cv: State, m: seq<bv8>): State
    decreases |m|
  {
    if |m| < 64 then cv else Fold(Compress(cv, m[..64]), m[64..])
  }

  lemma {:induction false} FoldConcat(cv: State, a: seq<bv8>, b: seq<bv8>)
    requires |a| % 64 == 0
    ensures Fold(cv, a + b) == Fold(Fold(cv, a), b)
    decreases |a|
  {
    if a == [] {
      assert a + b == b;
    } else {
      assert (a + b)[..64] == a[..64] && (a + b)[64..] == a[64..] + b;
      FoldConcat(Compress(cv, a[..64]), a[64..], b);
    }
  }

  // ---- Section 5.1.1: padding -------------------------------------------------------------

  /** The number of zero bytes between the 0x80 byte and the length field of an `n`-byte message. */
  function ZeroBytes(n: nat): (k: nat)
    ensures (n + 1 + k) % 64 == 56
    ensures k < 64
  {
    (119 - n % 64) % 64
  }

  /** `v` modulo 2^64 as eight big-endian bytes. */
  function BigEndian64(v: nat): (s: seq<bv8>)
    ensures |s| == 8
  {
    [ByteOf(v / 0x100_0000_0000_0000), ByteOf(v / 0x1_0000_0000_0000), ByteOf(v / 0x100_0000_0000),
     ByteOf(v / 0x1_0000_0000), ByteOf(v / 0x100_0000), ByteOf(v / 0x1_0000), ByteOf(v / 0x100), ByteOf(v)]
  }

  function ByteOf(v: nat): bv8 { (v % 256) as bv8 }

  function Zeros(n: nat): (s: seq<bv8>)
    ensures |s| == n && forall i :: 0 <= i < n ==> s[i] == 0
  {
    seq(n, _ => 0)
  }

  /** The 0x80 byte, `k` zeros and the length field. */
  function TailOf(k: nat, length: seq<bv8>): (t: seq<bv8>)
    ensures |t| == 1 + k + |length|
  {
    [0x80] + Zeros(k) + length
  }

  function Pad(m: seq<bv8>): (p: seq<bv8>) { m + TailOf(ZeroBytes(|m|), BigEndian64(8 * |m|)) }

  // ---- Section 6.2 ------------------------------------------------------------------------

  /** The i-th byte of a word, the most significant first. */
  function WordByte(w: bv32, i: nat): bv8 {
    if i == 0 then (w >> 24) as bv8
    else if i == 1 then ((w >> 16) & 0xff) as bv8
    else if i == 2 then ((w >> 8) & 0xff) as bv8
    else (w & 0xff) as bv8
  }

  function StateBytes(ws: State): (s: seq<bv8>)
    ensures |s| == 32
  {
    seq(32, p requires 0 <= p < 32 => WordByte(ws[p / 4], p % 4))
  }

  function Sha256(m: seq<bv8>): (digest: seq<bv8>)
    ensures |digest| == 32
  {
    StateBytes(Fold(H0, Pad(m)))
  }
}

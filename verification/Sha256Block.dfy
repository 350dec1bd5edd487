/** The block function of lib/vox_common/picosha2.h.  All its words are 64-bit `unsigned long`s: the
    schedule, the working variables and the digest.  A mask is applied only where the code applies one;
    that every word stays below 2^32 in between, and that no sum wraps around, is proved. */
module Sha256Block {
  import F = Fips180

  /** mask_32bit. */
  function Mask(x: bv64): bv64 { x & 0xffff_ffff }

  function ShR(x: bv64, n: bv6): bv64
    requires n < 32
  {
    x >> n
  }
  function ShL(x: bv64, n: bv6): bv64
    requires n <= 32
  {
    x << n
  }
  function Or(x: bv64, y: bv64): bv64 { x | y }
  function RotR(x: bv64, n: bv6): bv64
    requires n < 32
  {
    Mask(Or(ShR(x, n), ShL(x, 32 - n)))
  }
  function Xor3(x: bv64, y: bv64, z: bv64): bv64 { x ^ y ^ z }
  function Ch(x: bv64, y: bv64, z: bv64): bv64 { (x & y) ^ (!x & z) }
  function Maj(x: bv64, y: bv64, z: bv64): bv64 { (x & y) ^ (x & z) ^ (y & z) }
  function BSig0(x: bv64): bv64 { Xor3(RotR(x, 2), RotR(x, 13), RotR(x, 22)) }
  function BSig1(x: bv64): bv64 { Xor3(RotR(x, 6), RotR(x, 11), RotR(x, 25)) }
  function SSig0(x: bv64): bv64 { Xor3(RotR(x, 7), RotR(x, 18), ShR(x, 3)) }
  function SSig1(x: bv64): bv64 { Xor3(RotR(x, 17), RotR(x, 19), ShR(x, 10)) }

  function LoadWord(b0: bv8, b1: bv8, b2: bv8, b3: bv8): bv64 {
    (b0 as bv64 << 24) | (b1 as bv64 << 16) | (b2 as bv64 << 8) | b3 as bv64
  }

  /** The 64-bit sum is the sum: nothing is carried out of the word. */
  predicate NoWrap(x: bv64, y: bv64) { (x + y) as bv65 == x as bv65 + y as bv65 }

  /** Every sum of the block function, so none of them can be written where it would wrap. */
  function Plus(x: bv64, y: bv64): bv64
    requires NoWrap(x, y)
  {
    x + y
  }

  /** A word whose upper half is zero, and its lower half. */
  predicate Fits(x: bv64) { x <= 0xffff_ffff }

  function Low(x: bv64): bv32 { (x & 0xffff_ffff) as bv32 }

  // ---- Masked and bitwise operations ----------------------------------------------------------

  lemma MaskLow(x: bv64)
    ensures Fits(Mask(x)) && Low(Mask(x)) == Low(x)
  {}

  /** A 32-bit constant as a word. */
  function Wide(x: bv32): bv64 { x as bv64 }

  lemma WideLow(x: bv32)
    ensures Fits(Wide(x)) && Low(Wide(x)) == x
  {}

  lemma ShRLow(x: bv64, n: bv6)
    requires n < 32 && Fits(x)
    ensures Low(ShR(x, n)) == F.ShR(Low(x), n)
  {}

  lemma ShRFits(x: bv64, n: bv6)
    requires n < 32 && Fits(x)
    ensures Fits(ShR(x, n))
  {}

  lemma ShLLow(x: bv64, n: bv6)
    requires n <= 32
    ensures Low(ShL(x, n)) == F.ShL(Low(x), n)
  {}

  lemma OrLow(x: bv64, y: bv64)
    ensures Low(Or(x, y)) == F.Or(Low(x), Low(y))
  {}

  lemma RotRLow(x: bv64, n: bv6)
    requires n < 32 && Fits(x)
    ensures Fits(RotR(x, n)) && Low(RotR(x, n)) == F.RotR(Low(x), n)
  {
    ShRLow(x, n);
    ShLLow(x, 32 - n);
    OrLow(ShR(x, n), ShL(x, 32 - n));
    MaskLow(Or(ShR(x, n), ShL(x, 32 - n)));
  }

  lemma ChLow(x: bv64, y: bv64, z: bv64)
    requires Fits(x) && Fits(y) && Fits(z)
    ensures Fits(Ch(x, y, z)) && Low(Ch(x, y, z)) == F.Ch(Low(x), Low(y), Low(z))
  {}

  lemma MajLow(x: bv64, y: bv64, z: bv64)
    requires Fits(x) && Fits(y) && Fits(z)
    ensures Fits(Maj(x, y, z)) && Low(Maj(x, y, z)) == F.Maj(Low(x), Low(y), Low(z))
  {}

  lemma Xor3Low(x: bv64, y: bv64, z: bv64)
    requires Fits(x) && Fits(y) && Fits(z)
    ensures Fits(Xor3(x, y, z)) && Low(Xor3(x, y, z)) == F.Xor3(Low(x), Low(y), Low(z))
  {}

  lemma LoadLow(b0: bv8, b1: bv8, b2: bv8, b3: bv8)
    ensures Fits(LoadWord(b0, b1, b2, b3)) && Low(LoadWord(b0, b1, b2, b3)) == F.WordOf(b0, b1, b2, b3)
  {}

  // ---- Sums -----------------------------------------------------------------------------------

  /** Masking a sum at the end gives the same word as masking after every addition. */
  lemma PlusLow(x: bv64, y: bv64)
    requires NoWrap(x, y)
    ensures Low(Plus(x, y)) == F.Plus(Low(x), Low(y))
  {
    assert Low(x + y) == (x & 0xffff_ffff) as bv32 + (y & 0xffff_ffff) as bv32;
    assert F.Plus((x & 0xffff_ffff) as bv32, (y & 0xffff_ffff) as bv32)
        == (x & 0xffff_ffff) as bv32 + (y & 0xffff_ffff) as bv32;
  }

  // The bounds of partial sums, by the number of bits they need.
  predicate Bits33(x: bv64) { x <= 0x1_ffff_ffff }
  predicate Bits34(x: bv64) { x <= 0x3_ffff_ffff }
  predicate Bits35(x: bv64) { x <= 0x7_ffff_ffff }
  predicate Bits36(x: bv64) { x <= 0xf_ffff_ffff }

  lemma TwoWords(x: bv64, y: bv64)
    requires Fits(x) && Fits(y)
    ensures NoWrap(x, y) && Bits33(Plus(x, y))
  {}

  lemma ThirdWord(x: bv64, y: bv64)
    requires Bits33(x) && Fits(y)
    ensures NoWrap(x, y) && Bits34(Plus(x, y))
  {}

  lemma FourthWord(x: bv64, y: bv64)
    requires Bits34(x) && Fits(y)
    ensures NoWrap(x, y) && Bits35(Plus(x, y))
  {}

  lemma FifthWord(x: bv64, y: bv64)
    requires Bits35(x) && Fits(y)
    ensures NoWrap(x, y) && Bits36(Plus(x, y))
  {}

  lemma LastSums(d: bv64, temp1: bv64, temp2: bv64)
    requires Fits(d) && Bits36(temp1) && Bits33(temp2)
    ensures NoWrap(d, temp1) && NoWrap(temp1, temp2)
  {}

  /** The schedule sum, added from left to right. */
  function ScheduleSum(s1: bv64, w7: bv64, s0: bv64, w16: bv64): (sum: bv64)
    requires Fits(s1) && Fits(w7) && Fits(s0) && Fits(w16)
    ensures Low(sum) == F.ScheduleSum(Low(s1), Low(w7), Low(s0), Low(w16))
  {
    TwoWords(s1, w7);
    PlusLow(s1, w7);
    var two := Plus(s1, w7);
    ThirdWord(two, s0);
    PlusLow(two, s0);
    var three := Plus(two, s0);
    FourthWord(three, w16);
    PlusLow(three, w16);
    Plus(three, w16)
  }

  /** temp1 of a round, added from left to right. */
  function Temp1(h: bv64, s1: bv64, ch: bv64, k: bv64, w: bv64): (sum: bv64)
    requires Fits(h) && Fits(s1) && Fits(ch) && Fits(k) && Fits(w)
    ensures Bits36(sum) && Low(sum) == F.T1(Low(h), Low(s1), Low(ch), Low(k), Low(w))
  {
    TwoWords(h, s1);
    PlusLow(h, s1);
    var two := Plus(h, s1);
    ThirdWord(two, ch);
    PlusLow(two, ch);
    var three := Plus(two, ch);
    FourthWord(three, k);
    PlusLow(three, k);
    var four := Plus(three, k);
    FifthWord(four, w);
    PlusLow(four, w);
    Plus(four, w)
  }

  /** temp2 of a round. */
  function Temp2(s0: bv64, maj: bv64): (sum: bv64)
    requires Fits(s0) && Fits(maj)
    ensures Bits33(sum) && Low(sum) == F.Plus(Low(s0), Low(maj))
  {
    TwoWords(s0, maj);
    PlusLow(s0, maj);
    Plus(s0, maj)
  }

  // ---- hash256_block --------------------------------------------------------------------------

  /** The working variables, all 64-bit. */
  datatype Vars = Vars(a: bv64, b: bv64, c: bv64, d: bv64, e: bv64, f: bv64, g: bv64, h: bv64)

  predicate VarsFit(v: Vars) {
    Fits(v.a) && Fits(v.b) && Fits(v.c) && Fits(v.d) && Fits(v.e) && Fits(v.f) && Fits(v.g) && Fits(v.h)
  }

  function LowVars(v: Vars): F.Vars {
    F.Vars(Low(v.a), Low(v.b), Low(v.c), Low(v.d), Low(v.e), Low(v.f), Low(v.g), Low(v.h))
  }

  /** The new `a` and `e`: one masked sum each. */
  method NewWords(v: Vars, k: bv64, w: bv64) returns (a: bv64, e: bv64)
    requires VarsFit(v) && Fits(k) && Fits(w)
    ensures Fits(a) && Fits(e)
    ensures Low(a) == F.Round(LowVars(v), Low(k), Low(w)).a && Low(e) == F.Round(LowVars(v), Low(k), Low(w)).e
  {
    RotRLow(v.e, 6); RotRLow(v.e, 11); RotRLow(v.e, 25);
    Xor3Low(RotR(v.e, 6), RotR(v.e, 11), RotR(v.e, 25));
    ChLow(v.e, v.f, v.g);
    RotRLow(v.a, 2); RotRLow(v.a, 13); RotRLow(v.a, 22);
    Xor3Low(RotR(v.a, 2), RotR(v.a, 13), RotR(v.a, 22));
    MajLow(v.a, v.b, v.c);
    var temp1 := Temp1(v.h, BSig1(v.e), Ch(v.e, v.f, v.g), k, w);
    var temp2 := Temp2(BSig0(v.a), Maj(v.a, v.b, v.c));
    LastSums(v.d, temp1, temp2);
    PlusLow(v.d, temp1);
    PlusLow(temp1, temp2);
    MaskLow(Plus(v.d, temp1));
    MaskLow(Plus(temp1, temp2));
    e := Mask(Plus(v.d, temp1));
    a := Mask(Plus(temp1, temp2));
  }

  method Round(v: Vars, k: bv64, w: bv64) returns (next: Vars)
    requires VarsFit(v) && Fits(k) && Fits(w)
    ensures VarsFit(next) && LowVars(next) == F.Round(LowVars(v), Low(k), Low(w))
  {
    var a, e := NewWords(v, k, w);
    next := Vars(a, v.a, v.b, v.c, e, v.e, v.f, v.g);
  }

  method ExtendSchedule(w2: bv64, w7: bv64, w15: bv64, w16: bv64) returns (word: bv64)
    requires Fits(w2) && Fits(w7) && Fits(w15) && Fits(w16)
    ensures Fits(word)
    ensures Low(word) == F.ScheduleSum(F.SmallSigma1(Low(w2)), Low(w7), F.SmallSigma0(Low(w15)), Low(w16))
  {
    RotRLow(w2, 17); RotRLow(w2, 19); ShRLow(w2, 10); ShRFits(w2, 10);
    Xor3Low(RotR(w2, 17), RotR(w2, 19), ShR(w2, 10));
    RotRLow(w15, 7); RotRLow(w15, 18); ShRLow(w15, 3); ShRFits(w15, 3);
    Xor3Low(RotR(w15, 7), RotR(w15, 18), ShR(w15, 3));
    var sum := ScheduleSum(SSig1(w2), w7, SSig0(w15), w16);
    MaskLow(sum);
    word := Mask(sum);
  }

  /** The word fits and stands for `x`. */
  predicate Holds(word: bv64, x: bv32) { Fits(word) && Low(word) == x }

  /** No mask here: four shifted bytes fit by themselves. */
  method Load(b0: bv8, b1: bv8, b2: bv8, b3: bv8) returns (word: bv64)
    ensures Holds(word, F.WordOf(b0, b1, b2, b3))
  {
    LoadLow(b0, b1, b2, b3);
    word := LoadWord(b0, b1, b2, b3);
  }

  method LoadBlock(w: array<bv64>, block: F.Block)
    requires w.Length == 64
    modifies w
    ensures forall t :: 0 <= t < 16 ==> Holds(w[t], F.W(block, t))
  {
    for i := 0 to 16
      invariant forall t :: 0 <= t < i ==> Holds(w[t], F.W(block, t))
    {
      var word := Load(block[4 * i], block[4 * i + 1], block[4 * i + 2], block[4 * i + 3]);
      w[i] := word;
    }
  }

  method FillSchedule(block: F.Block) returns (w: array<bv64>)
    ensures fresh(w) && w.Length == 64 && forall t :: 0 <= t < 64 ==> Holds(w[t], F.W(block, t))
  {
    w := new bv64[64](_ => 0);
    LoadBlock(w, block);
    for i := 16 to 64
      invariant forall t :: 0 <= t < i ==> Holds(w[t], F.W(block, t))
    {
      var word := ExtendSchedule(w[i - 2], w[i - 7], w[i - 15], w[i - 16]);
      w[i] := word;
    }
  }

  /** Eight words that all fit. */
  predicate AllFit(ws: seq<bv64>) { |ws| == 8 && forall i :: 0 <= i < 8 ==> Fits(ws[i]) }

  function Lows(ws: seq<bv64>): F.State
    requires |ws| == 8
  {
    seq(8, i requires 0 <= i < 8 => Low(ws[i]))
  }

  method AllRounds(digest: seq<bv64>, block: F.Block) returns (v: Vars)
    requires AllFit(digest)
    ensures VarsFit(v) && LowVars(v) == F.Rounds(Lows(digest), block, 64)
  {
    var w := FillSchedule(block);
    v := Vars(digest[0], digest[1], digest[2], digest[3], digest[4], digest[5], digest[6], digest[7]);
    for i := 0 to 64
      invariant forall t :: 0 <= t < 64 ==> Holds(w[t], F.W(block, t))
      invariant VarsFit(v) && LowVars(v) == F.Rounds(Lows(digest), block, i)
    {
      WideLow(F.K[i]);
      v := Round(v, Wide(F.K[i]), w[i]);
    }
  }

  /** What a digest word holds after the unmasked addition. */
  predicate Added(word: bv64, x: bv64, y: bv64) { Low(word) == F.Plus(Low(x), Low(y)) }

  method Add(x: bv64, y: bv64) returns (sum: bv64)
    requires Fits(x) && Fits(y)
    ensures Added(sum, x, y)
  {
    TwoWords(x, y);
    PlusLow(x, y);
    sum := Plus(x, y);
  }

  function Word(v: Vars, i: nat): bv64 {
    if i == 0 then v.a else if i == 1 then v.b else if i == 2 then v.c else if i == 3 then v.d
    else if i == 4 then v.e else if i == 5 then v.f else if i == 6 then v.g else v.h
  }

  /** The eight additions of the working variables to the digest, not yet masked. */
  method AddVars(digest: array<bv64>, v: Vars)
    requires digest.Length == 8 && AllFit(digest[..]) && VarsFit(v)
    modifies digest
    ensures forall t :: 0 <= t < 8 ==> Added(digest[t], old(digest[t]), Word(v, t))
  {
    for i := 0 to 8
      invariant forall t :: 0 <= t < i ==> Added(digest[t], old(digest[t]), Word(v, t))
      invariant forall t :: i <= t < 8 ==> digest[t] == old(digest[t])
    {
      assert digest[i] == old(digest[..])[i];
      var sum := Add(digest[i], Word(v, i));
      digest[i] := sum;
    }
  }

  /** The masking loop at the end. */
  method MaskAll(digest: array<bv64>)
    requires digest.Length == 8
    modifies digest
    ensures AllFit(digest[..]) && forall t :: 0 <= t < 8 ==> Low(digest[t]) == Low(old(digest[t]))
  {
    for i := 0 to 8
      invariant forall t :: 0 <= t < i ==> Fits(digest[t]) && Low(digest[t]) == Low(old(digest[t]))
      invariant forall t :: i <= t < 8 ==> digest[t] == old(digest[t])
    {
      MaskLow(digest[i]);
      digest[i] := Mask(digest[i]);
    }
  }

  lemma LowWord(v: Vars, i: nat)
    ensures Low(Word(v, i)) == F.Word(LowVars(v), i)
  {}

  /** The block function on 64-bit words: given words that fit it leaves words that fit, and they are the
      compression of section 6.2.2 of FIPS 180-4. */
  method Hash256Block(digest: array<bv64>, block: F.Block)
    requires digest.Length == 8 && AllFit(digest[..])
    modifies digest
    ensures AllFit(digest[..]) && Lows(digest[..]) == F.Compress(Lows(old(digest[..])), block)
  {
    var v := AllRounds(digest[..], block);
    AddVars(digest, v);
    MaskAll(digest);
    forall t | 0 <= t < 8 ensures Lows(digest[..])[t] == F.Compress(Lows(old(digest[..])), block)[t] {
      LowWord(v, t);
    }
  }
}

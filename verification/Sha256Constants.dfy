/** The constants of lib/vox_common/picosha2.h against their definition in FIPS 180-4: the first 32 bits of the
    fractional parts of the cube roots (section 4.2.2) and square roots (section 5.3.3) of the first primes. */
module Sha256Constants {
  import F = Fips180

  const TWO32: nat := 0x1_0000_0000

  const P0: seq<nat> := [2, 3, 5, 7, 11, 13, 17, 19]
  const P1: seq<nat> := [23, 29, 31, 37, 41, 43, 47, 53]
  const P2: seq<nat> := [59, 61, 67, 71, 73, 79, 83, 89]
  const P3: seq<nat> := [97, 101, 103, 107, 109, 113, 127, 131]
  const P4: seq<nat> := [137, 139, 149, 151, 157, 163, 167, 173]
  const P5: seq<nat> := [179, 181, 191, 193, 197, 199, 211, 223]
  const P6: seq<nat> := [227, 229, 233, 239, 241, 251, 257, 263]
  const P7: seq<nat> := [269, 271, 277, 281, 283, 293, 307, 311]
  const PRIMES: seq<nat> := P0 + P1 + P2 + P3 + P4 + P5 + P6 + P7

  /** `n` is the cube root of `p`, in units of 2^-32, rounded down; likewise the square root. */
  predicate IsCubeRoot(n: nat, p: nat) { n * n * n <= TWO32 * TWO32 * TWO32 * p < (n + 1) * (n + 1) * (n + 1) }
  predicate IsSquareRoot(n: nat, p: nat) { n * n <= TWO32 * TWO32 * p < (n + 1) * (n + 1) }

  /** The whole parts; that they are right follows, as a number has only one such root. */
  function WholeCube(p: nat): nat {
    if p < 8 then 1 else if p < 27 then 2 else if p < 64 then 3 else if p < 125 then 4 else if p < 216 then 5 else 6
  }
  function WholeSquare(p: nat): nat { if p < 4 then 1 else if p < 9 then 2 else if p < 16 then 3 else 4 }

  predicate CubeBits(k: bv32, p: nat) { IsCubeRoot(TWO32 * WholeCube(p) + k as nat, p) }
  predicate SquareBits(h: bv32, p: nat) { IsSquareRoot(TWO32 * WholeSquare(p) + h as nat, p) }

  /** Each of `ks` is the fraction of the cube root of its prime. */
  ghost predicate CubeTable(ks: seq<bv32>, ps: seq<nat>) {
    |ks| == |ps| && forall i :: 0 <= i < |ks| ==> CubeBits(ks[i], ps[i])
  }

  predicate CubeRow(ks: seq<bv32>, ps: seq<nat>) {
    && |ks| == 8 == |ps|
    && CubeBits(ks[0], ps[0]) && CubeBits(ks[1], ps[1]) && CubeBits(ks[2], ps[2]) && CubeBits(ks[3], ps[3])
    && CubeBits(ks[4], ps[4]) && CubeBits(ks[5], ps[5]) && CubeBits(ks[6], ps[6]) && CubeBits(ks[7], ps[7])
  }

  lemma RowIsTable(ks: seq<bv32>, ps: seq<nat>)
    requires CubeRow(ks, ps)
    ensures CubeTable(ks, ps)
  {}

  lemma Join(ks: seq<bv32>, ps: seq<nat>, ls: seq<bv32>, qs: seq<nat>)
    requires CubeTable(ks, ps) && CubeTable(ls, qs)
    ensures CubeTable(ks + ls, ps + qs)
  {}

  lemma Row0()
    ensures CubeRow(F.K0, P0)
  {}

  lemma Row1()
    ensures CubeRow(F.K1, P1)
  {}

  lemma Row2()
    ensures CubeRow(F.K2, P2)
  {}

  lemma Row3()
    ensures CubeRow(F.K3, P3)
  {}

  lemma Row4()
    ensures CubeRow(F.K4, P4)
  {}

  lemma Row5()
    ensures CubeRow(F.K5, P5)
  {}

  lemma Row6()
    ensures CubeRow(F.K6, P6)
  {}

  lemma Row7()
    ensures CubeRow(F.K7, P7)
  {}

  lemma FirstHalf()
    ensures CubeTable(F.K0 + F.K1 + F.K2 + F.K3, P0 + P1 + P2 + P3)
  {
    Row0();
    RowIsTable(F.K0, P0);
    Row1();
    RowIsTable(F.K1, P1);
    Row2();
    RowIsTable(F.K2, P2);
    Row3();
    RowIsTable(F.K3, P3);
    Join(F.K0, P0, F.K1, P1);
    Join(F.K0 + F.K1, P0 + P1, F.K2, P2);
    Join(F.K0 + F.K1 + F.K2, P0 + P1 + P2, F.K3, P3);
  }

  /** The table of round constants. */
  lemma RoundConstants()
    ensures |F.K| == 64 && CubeTable(F.K, PRIMES)
  {
    FirstHalf();
    Row4();
    RowIsTable(F.K4, P4);
    Row5();
    RowIsTable(F.K5, P5);
    Row6();
    RowIsTable(F.K6, P6);
    Row7();
    RowIsTable(F.K7, P7);
    var k, p := F.K0 + F.K1 + F.K2 + F.K3, P0 + P1 + P2 + P3;
    Join(k, p, F.K4, P4);
    Join(k + F.K4, p + P4, F.K5, P5);
    Join(k + F.K4 + F.K5, p + P4 + P5, F.K6, P6);
    Join(k + F.K4 + F.K5 + F.K6, p + P4 + P5 + P6, F.K7, P7);
  }

  /** The initial digest. */
  lemma InitialDigest(i: nat)
    requires i < 8
    ensures SquareBits(F.H0[i], PRIMES[i])
  {}
}

/** The four-digit base-65536 byte counter of picosha2's hash256_one_by_one. */
module LengthCounter {
  import opened Common
  import F = Fips180

  const BASE: nat := 0x1_0000
  const B2: nat := 0x1_0000_0000
  const B3: nat := 0x1_0000_0000_0000

  ghost predicate IsCounter(d: seq<nat>) {
    |d| == 4 && forall i :: 0 <= i < 4 ==> d[i] < BASE
  }

  ghost function Value(d: seq<nat>): nat
    requires |d| == 4
  {
    d[0] + BASE * d[1] + B2 * d[2] + B3 * d[3]
  }

  /** The counter after `n` bytes: it wraps at 2^64. */
  ghost predicate Counts(d: seq<nat>, n: nat) {
    IsCounter(d) && Value(d) == n % TWO64
  }

  /** A carry into digit `i`, scaled by that digit's weight. */
  ghost function Scaled(i: nat, carry: nat): nat
    requires i <= 4
  {
    if i == 0 then carry else if i == 1 then BASE * carry else if i == 2 then B2 * carry
    else if i == 3 then B3 * carry else TWO64 * carry
  }

  /** Moving what exceeds digit `i` into the carry for digit `i + 1` keeps the total. */
  lemma CarryStep(d: seq<nat>, i: nat, carry: nat)
    requires |d| == 4 && i < 4
    ensures var x := d[i] + carry;
            Value(d[i := x % BASE]) + Scaled(i + 1, x / BASE) == Value(d) + Scaled(i, carry)
  {}

  lemma ValueBound(d: seq<nat>)
    requires IsCounter(d)
    ensures Value(d) < TWO64
  {}

  /** The carry loop, from digit `i` on. */
  function Propagate(d: seq<nat>, i: nat, carry: nat): (r: seq<nat>)
    requires |d| == 4 && i <= 4
    ensures |r| == 4
    decreases 4 - i
  {
    if i == 4 then d
    else
      var x: nat := d[i] + carry;
      if x >= BASE then Propagate(d[i := x % BASE], i + 1, x / BASE) else d[i := x]
  }

  /** `lost` is the carry out of the last digit. */
  lemma {:induction false} PropagateTotal(d: seq<nat>, i: nat, carry: nat) returns (lost: nat)
    requires |d| == 4 && i <= 4 && forall j :: 0 <= j < 4 && j != i ==> d[j] < BASE
    ensures IsCounter(Propagate(d, i, carry))
    ensures Value(Propagate(d, i, carry)) + TWO64 * lost == Value(d) + Scaled(i, carry)
    decreases 4 - i
  {
    if i == 4 {
      lost := carry;
    } else {
      CarryStep(d, i, carry);
      var x: nat := d[i] + carry;
      if x >= BASE {
        var e := d[i := x % BASE];
        lost := PropagateTotal(e, i + 1, x / BASE);
        assert Propagate(d, i, carry) == Propagate(e, i + 1, x / BASE);
      } else {
        assert Propagate(d, i, carry) == d[i := x % BASE];
        assert Scaled(i + 1, 0) == 0;
        lost := 0;
      }
    }
  }

  lemma PropagateValue(d: seq<nat>)
    requires |d| == 4 && forall j :: 1 <= j < 4 ==> d[j] < BASE
    ensures IsCounter(Propagate(d, 0, 0))
    ensures Value(Propagate(d, 0, 0)) == Value(d) % TWO64
  {
    var lost := PropagateTotal(d, 0, 0);
    ValueBound(Propagate(d, 0, 0));
    ModIs(Value(d), lost, Value(Propagate(d, 0, 0)));
  }

  lemma ModIs(x: nat, q: nat, r: nat)
    requires x == r + TWO64 * q && r < TWO64
    ensures x % TWO64 == r
  {}

  /** One turn of the carry loop on the array: the digit becomes `digit`. */
  method SetDigit(d: array<nat>, i: nat, digit: nat)
    requires d.Length == 4 && i < 4
    modifies d
    ensures d[..] == old(d[..])[i := digit]
  {
    d[i] := digit;
  }

  /** The additions wrap like the source's unsigned long, and the proof shows that they never do: past the first
      digit a carry is below 2^48. */
  method CarryLoop(d: array<nat>)
    requires d.Length == 4 && d[0] < TWO64 && forall j :: 1 <= j < 4 ==> d[j] < BASE
    modifies d
    ensures d[..] == Propagate(old(d[..]), 0, 0)
  {
    var carry: nat := 0;
    ghost var start := d[..];
    var i := 0;
    while i < 4
      invariant 0 <= i <= 4
      invariant Propagate(d[..], i, carry) == Propagate(start, 0, 0)
      invariant if i == 0 then carry == 0 && d[0] < TWO64 else carry < B3
      invariant forall j :: 1 <= i <= j < 4 || i < j < 4 ==> d[j] < BASE
    {
      ModIs(d[i] + carry, 0, d[i] + carry);
      var x: nat := (d[i] + carry) % TWO64;
      if x < BASE {
        SetDigit(d, i, x);
        return;
      }
      carry := x / BASE;
      SetDigit(d, i, x % BASE);
      i := i + 1;
    }
  }

  /** add_to_data_length.  `n` is a std::distance, a ptrdiff_t, so it is below 2^63; the first
      addition wraps like the source's unsigned long, and the proof shows that it never does. */
  method AddToDataLength(d: array<nat>, n: nat, ghost before: nat)
    requires Counts(d[..], before) && n < 0x8000_0000_0000_0000
    modifies d
    ensures Counts(d[..], before + n)
  {
    ghost var was := d[..];
    ModIs(d[0] + n, 0, d[0] + n);
    d[0] := (d[0] + n) % TWO64;
    assert d[..] == was[0 := was[0] + n];
    PropagateValue(d[..]);
    LengthAdds(before, n);
    CarryLoop(d);
  }

  lemma LengthAdds(n: nat, k: nat)
    ensures (n % TWO64 + k) % TWO64 == (n + k) % TWO64
  {}

  // ---- write_data_bit_length ------------------------------------------------------------------

  /** Bitwise or of two unsigned words. */
  function BitOr(x: nat, y: nat): nat
    decreases x + y
  {
    if x == 0 && y == 0 then 0
    else (if x % 2 == 1 || y % 2 == 1 then 1 else 0) + 2 * BitOr(x / 2, y / 2)
  }

  lemma {:induction false} BitOrZero(x: nat)
    ensures BitOr(x, 0) == x
  {
    if x != 0 { BitOrZero(x / 2); }
  }

  lemma OrEven(x: nat, c: nat)
    ensures BitOr(2 * x, c) == c % 2 + 2 * BitOr(x, c / 2)
  {}

  /** The three low bits of `8 * x` are free, so or-ing a carry below 8 adds it. */
  lemma OrCarry(x: nat, carry: nat)
    requires carry < 8
    ensures BitOr(8 * x, carry) == 8 * x + carry
  {
    var y, z := 2 * x, 4 * x;
    OrEven(z, carry);
    OrEven(y, carry / 2);
    OrEven(x, carry / 2 / 2);
    BitOrZero(x);
    assert carry == carry % 2 + 2 * (carry / 2 % 2) + 4 * (carry / 2 / 2) && carry / 2 / 2 < 2;
  }

  /** One step of the shift-left-by-three loop: the new digit and the carry out. */
  function ShiftDigit(d: nat, carry: nat): nat { BitOr(8 * d, carry) % BASE }
  function ShiftCarry(d: nat): nat { d / 0x2000 % BASE }

  lemma ShiftArithmetic(d: nat, carry: nat)
    requires d < BASE && carry < 8
    ensures (8 * d + carry) % BASE + BASE * (d / 0x2000) == 8 * d + carry
    ensures d / 0x2000 < 8 && d / 0x2000 % BASE == d / 0x2000
  {}

  lemma ShiftStep(d: nat, carry: nat)
    requires d < BASE && carry < 8
    ensures ShiftDigit(d, carry) + BASE * ShiftCarry(d) == 8 * d + carry
    ensures ShiftDigit(d, carry) < BASE && ShiftCarry(d) < 8
  {
    assert ShiftDigit(d, carry) == (8 * d + carry) % BASE by {
      OrCarry(d, carry);
    }
    ShiftArithmetic(d, carry);
  }

  /** `bits` is `d` shifted left by three, digit by digit, with the carries between digits. */
  ghost predicate Shifted(d: seq<nat>, bits: seq<nat>) {
    && |d| == 4 == |bits|
    && bits[0] == ShiftDigit(d[0], 0)
    && forall j :: 1 <= j < 4 ==> bits[j] == ShiftDigit(d[j], ShiftCarry(d[j - 1]))
  }

  lemma ShiftValue(d: seq<nat>, bits: seq<nat>)
    requires IsCounter(d) && Shifted(d, bits)
    ensures IsCounter(bits) && Value(bits) == 8 * Value(d) % TWO64
  {
    var c0, c1, c2, c3 := ShiftCarry(d[0]), ShiftCarry(d[1]), ShiftCarry(d[2]), ShiftCarry(d[3]);
    ShiftStep(d[0], 0);
    ShiftStep(d[1], c0);
    ShiftStep(d[2], c1);
    ShiftStep(d[3], c2);
    assert Value(bits) + TWO64 * c3 == 8 * Value(d);
    ValueBound(bits);
    ModIs(8 * Value(d), c3, Value(bits));
  }

  method ShiftLeft3(d: array<nat>) returns (bits: seq<nat>)
    requires d.Length == 4
    ensures Shifted(d[..], bits)
  {
    bits := [];
    var carry := 0;
    for i := 0 to 4
      invariant |bits| == i
      invariant carry == if i == 0 then 0 else ShiftCarry(d[i - 1])
      invariant i > 0 ==> bits[0] == ShiftDigit(d[0], 0)
      invariant forall j :: 1 <= j < i ==> bits[j] == ShiftDigit(d[j], ShiftCarry(d[j - 1]))
    {
      bits := bits + [ShiftDigit(d[i], carry)];
      carry := ShiftCarry(d[i]);
    }
  }

  lemma MulAtLeast(m: nat, k: nat)
    requires k >= 1
    ensures m * k >= m
  {}

  lemma Unique(m: nat, p: nat, s: nat, q: nat, r: nat)
    requires m * p + s == m * q + r && s < m && r < m
    ensures p == q
  {
    if p < q {
      MulAtLeast(m, q - p);
    } else if q < p {
      MulAtLeast(m, p - q);
    }
  }

  lemma DivIs(v: nat, m: nat, q: nat, r: nat)
    requires v == m * q + r && r < m
    ensures v / m == q
  {
    Unique(m, v / m, v % m, q, r);
  }

  lemma SameMod(q: nat, x: nat)
    ensures (256 * q + x) % 256 == x % 256
  {}

  /** Byte `x` of a number whose higher digits are `q`. */
  lemma ByteIs(v: nat, m: nat, q: nat, x: nat, r: nat)
    requires v == m * (256 * q + x) + r && r < m && m > 0
    ensures F.ByteOf(v / m) == F.ByteOf(x)
  {
    DivIs(v, m, 256 * q + x, r);
    SameMod(q, x);
  }

  lemma HighDigitBytes(v: nat, q: nat, b3: nat, b2: nat, rest: nat)
    requires v == TWO64 * q + B3 * b3 + B2 * b2 + rest && rest < B2 && b3 < BASE && b2 < BASE
    ensures F.ByteOf(v / 0x100_0000_0000_0000) == F.ByteOf(b3 / 256) && F.ByteOf(v / B3) == F.ByteOf(b3)
    ensures F.ByteOf(v / 0x100_0000_0000) == F.ByteOf(b2 / 256) && F.ByteOf(v / B2) == F.ByteOf(b2)
  {
    var h3, l3, h2, l2 := b3 / 256, b3 % 256, b2 / 256, b2 % 256;
    ByteIs(v, 0x100_0000_0000_0000, q, h3, B3 * l3 + B2 * b2 + rest);
    ByteIs(v, B3, 256 * q, b3, B2 * b2 + rest);
    ByteIs(v, 0x100_0000_0000, BASE * q + b3, h2, B2 * l2 + rest);
    ByteIs(v, B2, 256 * (BASE * q + b3), b2, rest);
  }

  lemma LowDigitBytes(v: nat, q: nat, b1: nat, b0: nat)
    requires v == B2 * q + BASE * b1 + b0 && b1 < BASE && b0 < BASE
    ensures F.ByteOf(v / 0x100_0000) == F.ByteOf(b1 / 256) && F.ByteOf(v / BASE) == F.ByteOf(b1)
    ensures F.ByteOf(v / 0x100) == F.ByteOf(b0 / 256) && F.ByteOf(v) == F.ByteOf(b0)
  {
    var h1, l1, h0, l0 := b1 / 256, b1 % 256, b0 / 256, b0 % 256;
    ByteIs(v, 0x100_0000, q, h1, BASE * l1 + b0);
    ByteIs(v, BASE, 256 * q, b1, b0);
    ByteIs(v, 0x100, BASE * q + b1, h0, l0);
    ByteIs(v, 1, 256 * (BASE * q + b1), b0, 0);
    assert v / 1 == v;
  }

  /** Two bytes per digit, most significant digit first. */
  ghost predicate DigitBytes(bits: seq<nat>, bytes: seq<bv8>) {
    && |bits| == 4 && |bytes| == 8
    && forall j :: 0 <= j < 4 ==>
         bytes[2 * j] == F.ByteOf(bits[3 - j] / 256) && bytes[2 * j + 1] == F.ByteOf(bits[3 - j])
  }

  lemma BigEndianDigits(v: nat, bits: seq<nat>, bytes: seq<bv8>)
    requires IsCounter(bits) && Value(bits) == v % TWO64 && DigitBytes(bits, bytes)
    ensures bytes == F.BigEndian64(v)
  {
    var q := v / TWO64;
    assert v == TWO64 * q + Value(bits);
    HighDigitBytes(v, q, bits[3], bits[2], BASE * bits[1] + bits[0]);
    LowDigitBytes(v, B2 * q + BASE * bits[3] + bits[2], bits[1], bits[0]);
    assert bytes == [bytes[2 * 0], bytes[2 * 0 + 1], bytes[2 * 1], bytes[2 * 1 + 1],
                     bytes[2 * 2], bytes[2 * 2 + 1], bytes[2 * 3], bytes[2 * 3 + 1]];
  }

  lemma EightTimes(n: nat, value: nat)
    requires value == n % TWO64
    ensures 8 * value % TWO64 == 8 * n % TWO64
  {}

  method WriteDigits(bits: seq<nat>) returns (bytes: seq<bv8>)
    requires |bits| == 4
    ensures DigitBytes(bits, bytes)
  {
    bytes := [];
    for i := 0 to 4
      invariant |bytes| == 2 * i
      invariant forall j :: 0 <= j < i ==>
                  bytes[2 * j] == F.ByteOf(bits[3 - j] / 256) && bytes[2 * j + 1] == F.ByteOf(bits[3 - j])
    {
      bytes := bytes + [F.ByteOf(bits[3 - i] / 256), F.ByteOf(bits[3 - i])];
    }
  }

  /** write_data_bit_length: eight times the byte count, modulo 2^64, big-endian. */
  method WriteDataBitLength(d: array<nat>, ghost n: nat) returns (bytes: seq<bv8>)
    requires Counts(d[..], n)
    ensures bytes == F.BigEndian64(8 * n)
  {
    var bits := ShiftLeft3(d);
    ShiftValue(d[..], bits);
    bytes := WriteDigits(bits);
    EightTimes(n, Value(d[..]));
    BigEndianDigits(8 * n, bits, bytes);
  }
}

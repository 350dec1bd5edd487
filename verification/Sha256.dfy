/** The streaming hasher hash256_one_by_one of lib/vox_common/picosha2.h, and the two hash256_impl
    drivers, proved equal to one-shot SHA-256 for every split of the input.  Its words are 64-bit; `B.Lows`
    is the 32-bit state they stand for. */
module Sha256 {
  import F = Fips180
  import B = Sha256Block
  import L = LengthCounter

  const MAX_DISTANCE: nat := 0x8000_0000_0000_0000

  lemma FoldBlock(cv: F.State, a: seq<bv8>, block: F.Block)
    requires |a| % 64 == 0
    ensures F.Fold(cv, a + block) == F.Compress(F.Fold(cv, a), block)
  {
    F.FoldConcat(cv, a, block);
    assert block[..64] == block && block[64..] == [];
    assert F.Fold(F.Compress(F.Fold(cv, a), block), []) == F.Compress(F.Fold(cv, a), block);
  }

  /** Hashes the whole blocks of `data` into `h` and returns how many bytes that took. */
  method HashWholeBlocks(h: array<bv64>, data: seq<bv8>) returns (i: nat)
    requires h.Length == 8 && B.AllFit(h[..])
    modifies h
    ensures i % 64 == 0 && i <= |data| < i + 64
    ensures B.AllFit(h[..]) && B.Lows(h[..]) == F.Fold(B.Lows(old(h[..])), data[..i])
  {
    ghost var cv := B.Lows(h[..]);
    i := 0;
    while i + 64 <= |data|
      invariant i <= |data| && i % 64 == 0
      invariant B.AllFit(h[..]) && B.Lows(h[..]) == F.Fold(cv, data[..i])
    {
      B.Hash256Block(h, data[i..i + 64]);
      FoldBlock(cv, data[..i], data[i..i + 64]);
      assert data[..i] + data[i..i + 64] == data[..i + 64];
      i := i + 64;
    }
  }

  /** `h` has absorbed `consumed`, a whole number of blocks; less than a block is buffered. */
  ghost predicate Absorbed(consumed: seq<bv8>, buffer: seq<bv8>, h: seq<bv32>) {
    |buffer| < 64 && |consumed| % 64 == 0 && h == F.Fold(F.H0, consumed)
  }

  lemma AbsorbMore(consumed: seq<bv8>, buffer: seq<bv8>, h: seq<bv32>, pending: seq<bv8>, i: nat)
    requires Absorbed(consumed, buffer, h)
    requires i % 64 == 0 && i <= |pending| < i + 64
    ensures Absorbed(consumed + pending[..i], pending[i..], F.Fold(h, pending[..i]))
  {
    F.FoldConcat(F.H0, consumed, pending[..i]);
    assert |consumed + pending[..i]| == |consumed| + i;
  }

  lemma Regroup(consumed: seq<bv8>, buffer: seq<bv8>, data: seq<bv8>, i: nat)
    requires i <= |buffer + data|
    ensures (consumed + (buffer + data)[..i]) + (buffer + data)[i..] == (consumed + buffer) + data
  {}

  // ---- The two padding branches ---------------------------------------------------------------

  /** The last block when the 0x80 byte and the length fit behind the buffered bytes. */
  function OneBlock(buffer: seq<bv8>, length: seq<bv8>): F.Block
    requires |buffer| <= 55 && |length| == 8
  {
    buffer + [0x80] + F.Zeros(55 - |buffer|) + length
  }

  /** Otherwise the 0x80 byte ends one block and the length ends another. */
  function FirstOfTwo(buffer: seq<bv8>): F.Block
    requires 55 < |buffer| < 64
  {
    buffer + [0x80] + F.Zeros(63 - |buffer|)
  }

  function SecondOfTwo(length: seq<bv8>): F.Block
    requires |length| == 8
  {
    F.Zeros(56) + length
  }

  lemma PadOneBlock(buffer: seq<bv8>, length: seq<bv8>)
    requires |buffer| <= 55 && |length| == 8
    ensures buffer + F.TailOf(55 - |buffer|, length) == OneBlock(buffer, length)
  {}

  lemma PadTwoBlocks(buffer: seq<bv8>, length: seq<bv8>)
    requires 55 < |buffer| < 64 && |length| == 8
    ensures buffer + F.TailOf(119 - |buffer|, length) == FirstOfTwo(buffer) + SecondOfTwo(length)
  {}

  ghost function Final(h: F.State, buffer: seq<bv8>, length: seq<bv8>): F.State
    requires |buffer| < 64 && |length| == 8
  {
    if |buffer| > 55 then F.Compress(F.Compress(h, FirstOfTwo(buffer)), SecondOfTwo(length))
    else F.Compress(h, OneBlock(buffer, length))
  }

  lemma FoldOne(cv: F.State, a: F.Block)
    ensures F.Fold(cv, a) == F.Compress(cv, a)
  {
    FoldBlock(cv, [], a);
    assert [] + a == a;
  }

  lemma FoldTail(h: F.State, buffer: seq<bv8>, k: nat, length: seq<bv8>)
    requires |buffer| < 64 && |length| == 8
    requires k == if |buffer| > 55 then 119 - |buffer| else 55 - |buffer|
    ensures F.Fold(h, buffer + F.TailOf(k, length)) == Final(h, buffer, length)
  {
    if |buffer| > 55 {
      PadTwoBlocks(buffer, length);
      FoldOne(h, FirstOfTwo(buffer));
      FoldBlock(h, FirstOfTwo(buffer), SecondOfTwo(length));
    } else {
      PadOneBlock(buffer, length);
      FoldOne(h, OneBlock(buffer, length));
    }
  }

  lemma ZeroBytesBehind(consumed: nat, r: nat)
    requires consumed % 64 == 0 && r < 64
    ensures F.ZeroBytes(consumed + r) == if r > 55 then 119 - r else 55 - r
  {}

  lemma FinalIsPadded(consumed: seq<bv8>, buffer: seq<bv8>, h: F.State, length: seq<bv8>)
    requires Absorbed(consumed, buffer, h)
    requires length == F.BigEndian64(8 * |consumed + buffer|)
    ensures Final(h, buffer, length) == F.Fold(F.H0, F.Pad(consumed + buffer))
  {
    ZeroBytesBehind(|consumed|, |buffer|);
    var tail := F.TailOf(F.ZeroBytes(|consumed + buffer|), length);
    F.FoldConcat(F.H0, consumed, buffer + tail);
    assert (consumed + buffer) + tail == consumed + (buffer + tail);
    FoldTail(h, buffer, F.ZeroBytes(|consumed + buffer|), length);
  }

  /** std::copy into `temp` from position `at`. */
  method CopyInto(temp: array<bv8>, at: nat, data: seq<bv8>)
    requires at + |data| <= temp.Length
    modifies temp
    ensures temp[..] == old(temp[..at]) + data + old(temp[at + |data|..])
  {
    forall i | 0 <= i < |data| { temp[at + i] := data[i]; }
  }

  /** finish() when the length does not fit: the block that ends the message, then the length block. */
  method HashTwoBlocks(h: array<bv64>, temp: array<bv8>, buffer: seq<bv8>, length: seq<bv8>)
    requires h.Length == 8 && B.AllFit(h[..])
    requires temp.Length == 64 && 55 < |buffer| < 64 && |length| == 8
    requires temp[..] == FirstOfTwo(buffer)
    modifies h, temp
    ensures B.Lows(h[..]) == F.Compress(F.Compress(B.Lows(old(h[..])), FirstOfTwo(buffer)), SecondOfTwo(length))
  {
    B.Hash256Block(h, temp[..]);
    CopyInto(temp, 0, F.Zeros(60));
    CopyInto(temp, 56, length);
    assert temp[..] == SecondOfTwo(length);
    B.Hash256Block(h, temp[..]);
  }

  /** finish() when the length fits behind the 0x80 byte. */
  method PadInPlace(temp: array<bv8>, buffer: seq<bv8>, length: seq<bv8>)
    requires temp.Length == 64 && |buffer| <= 55 && |length| == 8
    requires temp[..|buffer| + 1] == buffer + [0x80]
    modifies temp
    ensures temp[..] == OneBlock(buffer, length)
  {
    CopyInto(temp, |buffer| + 1, F.Zeros(59 - |buffer|));
    CopyInto(temp, 56, length);
  }

  /** The body of finish(): copies the buffer into a 64-byte block and pads it in place. */
  method HashLastBlocks(h: array<bv64>, buffer: seq<bv8>, length: seq<bv8>)
    requires h.Length == 8 && B.AllFit(h[..]) && |buffer| < 64 && |length| == 8
    modifies h
    ensures B.Lows(h[..]) == Final(B.Lows(old(h[..])), buffer, length)
  {
    var temp := new bv8[64](_ => 0);
    var remains := |buffer|;
    CopyInto(temp, 0, buffer);
    temp[remains] := 0x80;
    if remains > 55 {
      CopyInto(temp, remains + 1, F.Zeros(63 - remains));
      assert temp[..] == FirstOfTwo(buffer);
      HashTwoBlocks(h, temp, buffer, length);
    } else {
      PadInPlace(temp, buffer, length);
      B.Hash256Block(h, temp[..]);
    }
  }

  /** mask_8bit of the word shifted right by 24 - 8 * i, cast to a byte. */
  function ByteAt(x: bv64, i: nat): bv8
    requires i < 4
  {
    if i == 0 then ((x >> 24) & 0xff) as bv8
    else if i == 1 then ((x >> 16) & 0xff) as bv8
    else if i == 2 then ((x >> 8) & 0xff) as bv8
    else (x & 0xff) as bv8
  }

  lemma ByteIs(x: bv64, i: nat)
    requires i < 4
    ensures ByteAt(x, i) == F.WordByte(B.Low(x), i)
  {}

  class Hasher {
    var buffer: seq<bv8>
    const digits: array<nat>
    const h: array<bv64>
    ghost var consumed: seq<bv8>  // what left the buffer through hash256_block

    /** Everything processed so far. */
    ghost function Message(): seq<bv8>
      reads this
    {
      consumed + buffer
    }

    ghost predicate Valid()
      reads this, digits, h
    {
      && digits.Length == 4 && h.Length == 8 && B.AllFit(h[..])
      && Absorbed(consumed, buffer, B.Lows(h[..]))
      && L.Counts(digits[..], |Message()|)
    }

    constructor ()
      ensures Valid() && fresh(digits) && fresh(h) && Message() == []
    {
      buffer := [];
      digits := new nat[4](_ => 0);
      h := new bv64[8](i requires 0 <= i < 8 => B.Wide(F.H0[i]));
      consumed := [];
      new;
      forall i | 0 <= i < 8 ensures B.Holds(h[i], F.H0[i]) { B.WideLow(F.H0[i]); }
      assert B.Lows(h[..]) == F.H0;
    }

    method Process(data: seq<bv8>)
      requires Valid() && |data| < MAX_DISTANCE
      modifies this, digits, h
      ensures Valid() && Message() == old(Message()) + data
    {
      ghost var before, pending, cv := Message(), buffer + data, B.Lows(h[..]);
      L.AddToDataLength(digits, |data|, |before|);
      var i := HashWholeBlocks(h, buffer + data);
      AbsorbMore(consumed, buffer, cv, pending, i);
      Regroup(consumed, buffer, data, i);
      consumed := consumed + pending[..i];
      buffer := (buffer + data)[i..];
      assert Message() == before + data;
    }

    method Finish()
      requires Valid()
      modifies h
      ensures B.Lows(h[..]) == F.Fold(F.H0, F.Pad(Message()))
    {
      var length := L.WriteDataBitLength(digits, |Message()|);
      FinalIsPadded(consumed, buffer, B.Lows(h[..]), length);
      HashLastBlocks(h, buffer, length);
    }

    /** get_hash_bytes: fills `out`, or its first 32 bytes if it is longer. */
    method GetHashBytes(out: array<bv8>)
      requires h.Length == 8
      modifies out
      ensures forall p :: 0 <= p < out.Length ==>
                out[p] == if p < 32 then F.StateBytes(B.Lows(h[..]))[p] else old(out[p])
    {
      var first := 0;
      for iter := 0 to 8
        invariant first == if 4 * iter < out.Length then 4 * iter else out.Length
        invariant forall p :: 0 <= p < out.Length ==>
                    out[p] == if p < 4 * iter then F.StateBytes(B.Lows(h[..]))[p] else old(out[p])
      {
        var i := 0;
        while i < 4 && first != out.Length
          invariant 0 <= i <= 4 && first == (if 4 * iter + i < out.Length then 4 * iter + i else out.Length)
          invariant forall p :: 0 <= p < out.Length ==>
                      out[p] == if p < 4 * iter + i then F.StateBytes(B.Lows(h[..]))[p] else old(out[p])
        {
          assert first / 4 == iter && first % 4 == i;
          ByteIs(h[iter], i);
          out[first] := ByteAt(h[iter], i);
          first := first + 1;
          i := i + 1;
        }
      }
    }

    /** finish() and get_hash_bytes() into a 32-byte array. */
    method Digest() returns (digest: seq<bv8>)
      requires Valid()
      modifies h
      ensures digest == F.Sha256(Message())
    {
      Finish();
      var out := new bv8[32](_ => 0);
      GetHashBytes(out);
      digest := out[..];
    }
  }

  ghost function Concat(chunks: seq<seq<bv8>>): seq<bv8> {
    if chunks == [] then [] else Concat(chunks[..|chunks| - 1]) + chunks[|chunks| - 1]
  }

  /** Any number of process() calls, then finish() and get_hash_bytes(). */
  method HashChunks(chunks: seq<seq<bv8>>) returns (digest: seq<bv8>)
    requires forall c :: c in chunks ==> |c| < MAX_DISTANCE
    ensures digest == F.Sha256(Concat(chunks))
  {
    var hasher := new Hasher();
    for i := 0 to |chunks|
      invariant hasher.Valid() && fresh(hasher) && fresh(hasher.h) && fresh(hasher.digits)
      invariant hasher.Message() == Concat(chunks[..i])
    {
      hasher.Process(chunks[i]);
      assert chunks[..i + 1][..i] == chunks[..i];
    }
    assert chunks[..|chunks|] == chunks;
    digest := hasher.Digest();
  }

  /** hash256 on a random-access range: one process() call. */
  method Hash256(data: seq<bv8>) returns (digest: seq<bv8>)
    requires |data| < MAX_DISTANCE
    ensures digest == F.Sha256(data)
  {
    digest := HashChunks([data]);
    assert Concat([data][..0]) == [];
    assert Concat([data]) == data;
  }

  /** Fills `buffer` from position `pos` of the input and says how many bytes that gave. */
  method ReadInto(buffer: array<bv8>, data: seq<bv8>, pos: nat) returns (size: nat)
    requires pos <= |data|
    modifies buffer
    ensures size <= buffer.Length && pos + size <= |data| && buffer[..size] == data[pos..pos + size]
    ensures size < buffer.Length ==> pos + size == |data|
  {
    size := buffer.Length;
    for i := 0 to buffer.Length
      invariant size == buffer.Length && pos + i <= |data| && buffer[..i] == data[pos..pos + i]
    {
      if pos + i == |data| {
        size := i;
        break;
      }
      buffer[i] := data[pos + i];
    }
  }

  /** One turn of the reading loop: fill the buffer and process it. */
  method ProcessNext(hasher: Hasher, buffer: array<bv8>, data: seq<bv8>, pos: nat) returns (next: nat)
    requires hasher.Valid() && pos < |data| && 0 < buffer.Length < MAX_DISTANCE
    requires {buffer as object} !! {hasher.digits as object, hasher.h as object}
    requires hasher.Message() == data[..pos]
    modifies buffer, hasher, hasher.digits, hasher.h
    ensures hasher.Valid() && pos < next <= |data| && hasher.Message() == data[..next]
  {
    var size := ReadInto(buffer, data, pos);
    assert data[..pos] + data[pos..pos + size] == data[..pos + size];
    hasher.Process(buffer[..size]);
    next := pos + size;
  }

  /** hash256 on an input range: one process() call for every buffer that was read. */
  method HashStream(data: seq<bv8>, bufferSize: nat) returns (digest: seq<bv8>)
    requires 0 < bufferSize < MAX_DISTANCE
    ensures digest == F.Sha256(data)
  {
    var buffer := new bv8[bufferSize](_ => 0);
    var hasher := new Hasher();
    var pos := 0;
    while pos != |data|
      invariant pos <= |data| && hasher.Message() == data[..pos]
      invariant {buffer as object} !! {hasher.digits as object, hasher.h as object}
      invariant hasher.Valid() && fresh(hasher) && fresh(hasher.h) && fresh(hasher.digits)
      decreases |data| - pos
    {
      pos := ProcessNext(hasher, buffer, data, pos);
    }
    assert data[..pos] == data;
    digest := hasher.Digest();
  }
}

/** Unaligned bit streams over a growing byte buffer. */
module BitStream {
  import opened Basics
  import opened Bits
  import opened BitGrowth

  /** The i-th bit of a byte sequence. */
  function BitAt(bytes: seq<bv8>, i: nat): bool
    requires i < 8 * |bytes|
  {
    Bit(bytes[i / 8], i % 8)
  }

  /** `n` bits of a byte sequence from bit `from` on. */
  function BitsOf(bytes: seq<bv8>, from: nat, n: nat): (bits: seq<bool>)
    requires from + n <= 8 * |bytes|
    ensures |bits| == n
  {
    seq(n, i requires 0 <= i < n => BitAt(bytes, from + i))
  }

  /** What one byte write leaves in the byte at the head: the bits below the head stay, the
      data goes above them. */
  function MergeByte(cur: bv8, data: bv8, off: nat): bv8
    requires off < 8
  {
    Or(And(cur, Not(Shl(0xff, off))), Shl(data, off))
  }

  lemma MergeBit(cur: bv8, data: bv8, off: nat, i: nat)
    requires off < 8 && i < 8
    ensures Bit(MergeByte(cur, data, off), i) == if i < off then Bit(cur, i) else Bit(data, i - off)
  {
    hide Bit, Shl, Or, And, Not;
    var mask, shifted := Not(Shl(0xff, off)), Shl(data, off);
    OrBit(And(cur, mask), shifted, i);
    AndBit(cur, mask, i);
    MaskBit(off, i);
    ShlBit(data, off, i);
  }

  /** The mask keeps exactly the bits below n. */
  lemma MaskBit(n: nat, i: nat)
    requires n <= 8 && i < 8
    ensures Bit(Not(Shl(0xff, n)), i) == (i < n)
  {
    hide Bit, Shl, Not;
    NotBit(Shl(0xff, n), i);
    ShlBit(0xff, n, i);
    if i >= n {
      OnesBit(i - n);
    }
  }

  /** What one byte read assembles from the byte at the head and the one after it. */
  function ExtractByte(cur: bv8, next: bv8, off: nat, n: nat): bv8
    requires off < 8 && n <= 8
  {
    And(if 8 - off < n then Or(Shr(cur, off), Shl(next, 8 - off)) else Shr(cur, off), Not(Shl(0xff, n)))
  }

  lemma ExtractBit(cur: bv8, next: bv8, off: nat, n: nat, i: nat)
    requires off < 8 && n <= 8 && i < 8
    ensures Bit(ExtractByte(cur, next, off, n), i)
         == (i < n && if off + i < 8 then Bit(cur, off + i) else Bit(next, off + i - 8))
  {
    hide Bit, Shl, Shr, Or, And, Not;
    var low, high, mask := Shr(cur, off), Shl(next, 8 - off), Not(Shl(0xff, n));
    var raw := if 8 - off < n then Or(low, high) else low;
    AndBit(raw, mask, i);
    MaskBit(n, i);
    OrBit(low, high, i);
    ShrBit(cur, off, i);
    ShlBit(next, 8 - off, i);
  }

  class OutputMemoryBitStream {
    var mBuffer: array<bv8>
    var mBitHead: nat
    var mBitCapacity: nat
    /** Bits copied by reallocations so far. */
    ghost var copied: nat

    ghost predicate Valid()
      reads this, mBuffer
    {
      mBitHead <= mBitCapacity < UINT32_LIMIT && mBitCapacity % 8 == 0 &&
      INITIAL_CAPACITY <= mBitCapacity && mBuffer.Length == mBitCapacity / 8
    }

    /** The bits written so far. Whatever the last byte holds above them is not among them. */
    ghost function Written(): seq<bool>
      requires Valid()
      reads this, mBuffer
    {
      BitsOf(mBuffer[..], 0, mBitHead)
    }

    ghost function State(): Growth
      reads this
    {
      Growth(mBitCapacity, mBitHead, copied)
    }

    /** In a state that writes from a fresh stream lead to. */
    ghost predicate Regular()
      reads this
    {
      Reached(State())
    }

    constructor ()
      ensures Valid() && Written() == [] && State() == FRESH && fresh(mBuffer)
    {
      mBuffer := new bv8[INITIAL_CAPACITY / 8](_ => 0);
      mBitHead, mBitCapacity, copied := 0, INITIAL_CAPACITY, 0;
    }

    /** The old bytes move to the front of a zeroed, larger buffer. */
    method ReallocBuffer(newCapacity: nat)
      requires Valid() && mBitCapacity < newCapacity < UINT32_LIMIT && newCapacity % 8 == 0
      modifies this`mBuffer, this`mBitCapacity, this`copied
      ensures Valid() && fresh(mBuffer) && mBitCapacity == newCapacity && Written() == old(Written())
      ensures copied == old(copied) + old(mBitCapacity)
    {
      var bytes := mBitCapacity / 8;
      var tempBuffer := new bv8[newCapacity / 8](_ => 0);
      forall i | 0 <= i < bytes {
        tempBuffer[i] := mBuffer[i];
      }
      copied := copied + mBitCapacity;
      mBuffer := tempBuffer;
      mBitCapacity := newCapacity;
    }

    /** Makes room for a write that ends at bit `next`. */
    method Reserve(next: nat)
      requires Valid() && mBitHead < next <= mBitHead + 8 && next < UINT32_LIMIT && Fits(mBitCapacity, next)
      modifies this`mBuffer, this`mBitCapacity, this`copied
      ensures Valid() && (mBuffer == old(mBuffer) || fresh(mBuffer))
      ensures next <= mBitCapacity && Written() == old(Written())
      ensures Growth(mBitCapacity, next, copied) == Step(old(State()), next - old(mBitHead))
    {
      hide BitsOf, NewCapacity, Fits;
      if next > mBitCapacity {
        GrowthLegal(mBitCapacity, mBitHead, next);
        ReallocBuffer(NewCapacity(mBitCapacity, next));
      }
    }

    /** Appends the `n` low bits of a byte. */
    method WriteByteBits(data: bv8, n: nat)
      requires Valid() && 1 <= n <= 8
      requires mBitHead + n < UINT32_LIMIT && Fits(mBitCapacity, mBitHead + n)
      modifies this, mBuffer
      ensures Valid() && (mBuffer == old(mBuffer) || fresh(mBuffer))
      ensures Written() == old(Written()) + BitsOf([data], 0, n)
      ensures State() == Step(old(State()), n)
    {
      hide Bit, BitsOf, Shl, Shr, MergeByte, Fits, NewCapacity;
      var nextBitHead := mBitHead + n;
      Reserve(nextBitHead);
      var byteOffset, bitOffset := mBitHead / 8, mBitHead % 8;
      ghost var before := mBuffer[..];
      mBuffer[byteOffset] := MergeByte(mBuffer[byteOffset], data, bitOffset);
      var bitsFreeThisByte := 8 - bitOffset;
      if bitsFreeThisByte < n {
        mBuffer[byteOffset + 1] := Shr(data, bitsFreeThisByte);
      }
      assert mBuffer[..] == AfterWrite(before, mBitHead, data, n);
      WriteAppends(before, mBitHead, data, n);
      mBitHead := nextBitHead;
    }

    /** Appends the first `count` bits of the source bytes. The guard is the one under which all
        its byte writes find their bytes. */
    method WriteBits(data: seq<bv8>, count: nat)
      requires Valid() && Regular() && count <= 8 * |data|
      requires mBitHead + count < UINT32_LIMIT && CallAligned(mBitHead, count)
      modifies this, mBuffer
      ensures Valid() && Regular() && (mBuffer == old(mBuffer) || fresh(mBuffer))
      ensures Written() == old(Written()) + BitsOf(data, 0, count)
      ensures mBitHead == old(mBitHead) + count && State() == Run(old(State()), Pieces(count))
      ensures copied == 0 || copied < 2 * mBitHead <==> mBitHead <= DOUBLING_LIMIT + 8
    {
      hide Bit, BitsOf, BitGrowth.Step, Reached, Run, Pieces, Fits, CallAligned;
      ghost var before, start := Written(), State();
      NoBits(data);
      NoRun(State());
      var srcByte, rest := 0, count;
      while rest > 8
        invariant srcByte * 8 + rest == count && mBitHead + rest == old(mBitHead) + count
        invariant Valid() && Regular() && (mBuffer == old(mBuffer) || fresh(mBuffer))
        invariant CallAligned(mBitHead, rest) && Run(start, Pieces(count)) == Run(State(), Pieces(rest))
        invariant Written() == before + BitsOf(data, 0, srcByte * 8)
      {
        NextWrite(State(), rest);
        WriteByteBits(data[srcByte], 8);
        ByteAfter(before, data, srcByte, 8);
        srcByte := srcByte + 1;
        rest := rest - 8;
      }
      if rest > 0 {
        NextWrite(State(), rest);
        WriteByteBits(data[srcByte], rest);
        ByteAfter(before, data, srcByte, rest);
      }
      NoRun(State());
      MovedExact(State());
    }

    /** The bytes a receiver needs. */
    function GetByteLength(): nat
      reads this
    {
      (mBitHead + 7) / 8
    }
  }

  lemma GrowthLegal(capacity: nat, head: nat, next: nat)
    requires INITIAL_CAPACITY <= capacity < next <= head + 8 && head <= capacity && capacity % 8 == 0
    requires next < UINT32_LIMIT && Fits(capacity, next)
    ensures next <= NewCapacity(capacity, next) < UINT32_LIMIT && NewCapacity(capacity, next) % 8 == 0
  {
    hide NewCapacity;
    GrownCapacity(capacity, next);
  }

  lemma NoBits(data: seq<bv8>)
    ensures BitsOf(data, 0, 0) == []
  {
  }

  /** The buffer after one byte write at `head`. */
  function AfterWrite(before: seq<bv8>, head: nat, data: bv8, n: nat): (after: seq<bv8>)
    requires 1 <= n <= 8 && head + n <= 8 * |before|
    ensures |after| == |before|
  {
    var merged := before[head / 8 := MergeByte(before[head / 8], data, head % 8)];
    if 8 - head % 8 < n then merged[head / 8 + 1 := Shr(data, 8 - head % 8)] else merged
  }

  lemma WriteBitAt(before: seq<bv8>, head: nat, data: bv8, n: nat, i: nat)
    requires 1 <= n <= 8 && head + n <= 8 * |before| && i < head + n
    ensures BitAt(AfterWrite(before, head, data, n), i) == if i < head then BitAt(before, i) else Bit(data, i - head)
  {
    hide Bit, Shr, MergeByte;
    var off := head % 8;
    if i / 8 == head / 8 {
      MergeBit(before[head / 8], data, off, i % 8);
    } else if i >= head {
      assert i / 8 == head / 8 + 1;
      ShrBit(data, 8 - off, i % 8);
    }
  }

  /** A byte write keeps every earlier bit and appends the low bits of its datum. */
  lemma WriteAppends(before: seq<bv8>, head: nat, data: bv8, n: nat)
    requires 1 <= n <= 8 && head + n <= 8 * |before|
    ensures BitsOf(AfterWrite(before, head, data, n), 0, head + n) == BitsOf(before, 0, head) + BitsOf([data], 0, n)
  {
    hide Bit, AfterWrite, BitAt;
    var after := AfterWrite(before, head, data, n);
    forall i | 0 <= i < head + n
      ensures BitsOf(after, 0, head + n)[i] == (BitsOf(before, 0, head) + BitsOf([data], 0, n))[i]
    {
      WriteBitAt(before, head, data, n, i);
      if i >= head {
        OneByte(data, i - head);
      }
    }
  }

  lemma OneByte(data: bv8, k: nat)
    requires k < 8
    ensures BitAt([data], k) == Bit(data, k)
  {
  }

  lemma ByteAfter(before: seq<bool>, data: seq<bv8>, k: nat, n: nat)
    requires n <= 8 && 8 * k + n <= 8 * |data| && k < |data|
    ensures before + BitsOf(data, 0, 8 * k) + BitsOf([data[k]], 0, n) == before + BitsOf(data, 0, 8 * k + n)
  {
    forall i | 0 <= i < n
      ensures BitAt([data[k]], i) == BitAt(data, 8 * k + i)
    {
      assert (8 * k + i) / 8 == k;
    }
    assert BitsOf(data, 0, 8 * k) + BitsOf([data[k]], 0, n) == BitsOf(data, 0, 8 * k + n);
  }

  class InputMemoryBitStream {
    const mBuffer: array<bv8>
    const mBitCapacity: nat
    var mBitHead: nat

    ghost predicate Valid()
      reads this, mBuffer
    {
      mBitHead <= mBitCapacity <= 8 * mBuffer.Length
    }

    constructor (buffer: array<bv8>, bitCount: nat)
      requires bitCount <= 8 * buffer.Length
      ensures Valid() && mBuffer == buffer && mBitCapacity == bitCount && mBitHead == 0
    {
      mBuffer, mBitCapacity, mBitHead := buffer, bitCount, 0;
    }

    function GetRemainingBitCount(): nat
      requires Valid()
      reads this, mBuffer
    {
      mBitCapacity - mBitHead
    }

    /** Takes the next `n` bits; the bits of the result above them are clear. */
    method ReadByteBits(n: nat) returns (data: bv8)
      requires Valid() && 1 <= n <= 8 && n <= GetRemainingBitCount()
      modifies this`mBitHead
      ensures Valid() && mBitHead == old(mBitHead) + n
      ensures BitsOf([data], 0, n) == BitsOf(mBuffer[..], old(mBitHead), n)
      ensures forall i :: n <= i < 8 ==> !Bit(data, i)
    {
      hide Bit, BitsOf, Shl, Shr, Or, And, Not;
      var byteOffset, bitOffset := mBitHead / 8, mBitHead % 8;
      data := Shr(mBuffer[byteOffset], bitOffset);
      var bitsFreeThisByte := 8 - bitOffset;
      if bitsFreeThisByte < n {
        data := Or(data, Shl(mBuffer[byteOffset + 1], bitsFreeThisByte));
      }
      data := And(data, Not(Shl(0xff, n)));
      ghost var next: bv8 := if bitsFreeThisByte < n then mBuffer[byteOffset + 1] else 0;
      assert data == ExtractByte(mBuffer[byteOffset], next, bitOffset, n);
      ReadExtracts(mBuffer[..], mBitHead, next, n);
      mBitHead := mBitHead + n;
    }

    /** Takes the next `count` bits into bytes, the last of them padded with clear bits. */
    method ReadBits(count: nat) returns (data: seq<bv8>)
      requires Valid() && count <= GetRemainingBitCount()
      modifies this`mBitHead
      ensures Valid() && mBitHead == old(mBitHead) + count
      ensures |data| == (count + 7) / 8
      ensures BitsOf(data, 0, count) == BitsOf(mBuffer[..], old(mBitHead), count)
      ensures forall i :: count <= i < 8 * |data| ==> !BitAt(data, i)
    {
      data := [];
      var rest := count;
      ghost var start := mBitHead;
      while rest > 8
        invariant |data| * 8 + rest == count && mBitHead + rest == start + count
        invariant Valid()
        invariant BitsOf(data, 0, 8 * |data|) == BitsOf(mBuffer[..], start, 8 * |data|)
      {
        var byte := ReadByteBits(8);
        ReadAfter(data, byte, mBuffer[..], start, 8);
        data := data + [byte];
        rest := rest - 8;
      }
      if rest > 0 {
        var byte := ReadByteBits(rest);
        ReadAfter(data, byte, mBuffer[..], start, rest);
        data := data + [byte];
        forall i | count <= i < 8 * |data|
          ensures !BitAt(data, i)
        {
          assert i / 8 == |data| - 1 && i % 8 == i - 8 * (|data| - 1);
        }
      }
    }
  }

  lemma ReadExtracts(buffer: seq<bv8>, head: nat, next: bv8, n: nat)
    requires 1 <= n <= 8 && head + n <= 8 * |buffer|
    requires 8 - head % 8 < n ==> next == buffer[head / 8 + 1]
    ensures var data := ExtractByte(buffer[head / 8], next, head % 8, n);
            BitsOf([data], 0, n) == BitsOf(buffer, head, n) && forall i :: n <= i < 8 ==> !Bit(data, i)
  {
    hide Bit, ExtractByte, BitAt;
    var data := ExtractByte(buffer[head / 8], next, head % 8, n);
    forall i | 0 <= i < 8
      ensures i < n ==> BitAt([data], i) == BitAt(buffer, head + i)
      ensures i >= n ==> !Bit(data, i)
    {
      ReadBitAt(buffer, head, next, n, i);
      OneByte(data, i);
    }
  }

  lemma ReadBitAt(buffer: seq<bv8>, head: nat, next: bv8, n: nat, i: nat)
    requires 1 <= n <= 8 && head + n <= 8 * |buffer| && i < 8
    requires 8 - head % 8 < n ==> next == buffer[head / 8 + 1]
    ensures Bit(ExtractByte(buffer[head / 8], next, head % 8, n), i) == (i < n && BitAt(buffer, head + i))
  {
    hide Bit, ExtractByte;
    ExtractBit(buffer[head / 8], next, head % 8, n, i);
    if i < n {
      if head % 8 + i < 8 {
        assert (head + i) / 8 == head / 8 && (head + i) % 8 == head % 8 + i;
      } else {
        assert (head + i) / 8 == head / 8 + 1 && (head + i) % 8 == head % 8 + i - 8;
      }
    }
  }

  lemma ReadAfter(data: seq<bv8>, byte: bv8, buffer: seq<bv8>, start: nat, n: nat)
    requires n <= 8 && start + 8 * |data| + n <= 8 * |buffer|
    requires BitsOf(data, 0, 8 * |data|) == BitsOf(buffer, start, 8 * |data|)
    requires BitsOf([byte], 0, n) == BitsOf(buffer, start + 8 * |data|, n)
    ensures BitsOf(data + [byte], 0, 8 * |data| + n) == BitsOf(buffer, start, 8 * |data| + n)
  {
    hide Bit, BitAt;
    var k, all := 8 * |data|, data + [byte];
    forall i | 0 <= i < k + n
      ensures BitAt(all, i) == BitAt(buffer, start + i)
    {
      if i < k {
        assert BitsOf(data, 0, k)[i] == BitsOf(buffer, start, k)[i];
        FrontBit(data, byte, i);
      } else {
        assert BitsOf([byte], 0, n)[i - k] == BitsOf(buffer, start + k, n)[i - k];
        assert start + k + (i - k) == start + i;
        BitOfByte(all, |data|, i - k);
        BitOfByte([byte], 0, i - k);
      }
    }
  }

  lemma FrontBit(data: seq<bv8>, byte: bv8, i: nat)
    requires i < 8 * |data|
    ensures BitAt(data + [byte], i) == BitAt(data, i)
  {
    hide Bit;
    assert i / 8 < |data| && (data + [byte])[i / 8] == data[i / 8];
  }

  // ---- Numbers and strings ----

  /** The k low bits of a number, the least significant first. */
  function NumberBits(n: nat, k: nat): (bits: seq<bool>)
    ensures |bits| == k
  {
    if k == 0 then [] else [n % 2 == 1] + NumberBits(n / 2, k - 1)
  }

  function BitsNumber(bits: seq<bool>): nat {
    if bits == [] then 0 else (if bits[0] then 1 else 0) + 2 * BitsNumber(bits[1..])
  }

  lemma {:induction false} NumberRoundTrip(n: nat, k: nat)
    requires n < Pow2(k)
    ensures BitsNumber(NumberBits(n, k)) == n
  {
    if k > 0 {
      NumberRoundTrip(n / 2, k - 1);
      assert NumberBits(n, k)[1..] == NumberBits(n / 2, k - 1);
    }
  }

  /** The byte with these bits. */
  function Pack(bits: seq<bool>): bv8
    requires |bits| == 8
  {
    (if bits[0] then 1 else 0) | (if bits[1] then 2 else 0) | (if bits[2] then 4 else 0) | (if bits[3] then 8 else 0) |
    (if bits[4] then 16 else 0) | (if bits[5] then 32 else 0) | (if bits[6] then 64 else 0) | (if bits[7] then 128 else 0)
  }

  lemma PackBit(bits: seq<bool>, i: nat)
    requires |bits| == 8 && i < 8
    ensures Bit(Pack(bits), i) == bits[i]
  {
  }

  /** A 32-bit unsigned number in memory: four bytes, the low one first. */
  function Uint32Bytes(n: nat): (bytes: seq<bv8>)
    ensures |bytes| == 4
  {
    var b := NumberBits(n, 32);
    [Pack(b[0..8]), Pack(b[8..16]), Pack(b[16..24]), Pack(b[24..32])]
  }

  function BytesUint32(bytes: seq<bv8>): nat
    requires |bytes| == 4
  {
    BitsNumber(BitsOf(bytes, 0, 32))
  }

  lemma Uint32Bits(n: nat)
    ensures BitsOf(Uint32Bytes(n), 0, 32) == NumberBits(n, 32)
  {
    hide Bit, Pack, NumberBits;
    var b := NumberBits(n, 32);
    forall i | 0 <= i < 32
      ensures BitAt(Uint32Bytes(n), i) == b[i]
    {
      var part := if i < 8 then b[0..8] else if i < 16 then b[8..16] else if i < 24 then b[16..24] else b[24..32];
      assert Uint32Bytes(n)[i / 8] == Pack(part);
      PackBit(part, i % 8);
    }
  }

  lemma {:induction false} Pow2Of32()
    ensures Pow2(32) == UINT32_LIMIT
  {
    assert Pow2(8) == 256;
    assert Pow2(16) == 65536;
    assert Pow2(24) == 16777216;
  }

  /** What a string is on the wire: its length as 32 bits, then eight bits a character. */
  function StringBits(s: seq<bv8>): seq<bool>
    requires |s| < UINT32_LIMIT
  {
    NumberBits(|s|, 32) + BitsOf(s, 0, 8 * |s|)
  }

  method WriteString(stream: OutputMemoryBitStream, s: seq<bv8>)
    requires stream.Valid() && stream.Regular() && |s| < UINT32_LIMIT
    requires stream.mBitHead + 32 + 8 * |s| < UINT32_LIMIT && CallAligned(stream.mBitHead, 32 + 8 * |s|)
    modifies stream, stream.mBuffer
    ensures stream.Valid() && stream.Regular()
    ensures stream.mBuffer == old(stream.mBuffer) || fresh(stream.mBuffer)
    ensures stream.mBitHead == old(stream.mBitHead) + 32 + 8 * |s|
    ensures stream.Written() == old(stream.Written()) + StringBits(s)
  {
    hide NumberBits, BitsOf, Uint32Bytes, Reached, Run, Pieces, CallAligned;
    ghost var before, head := stream.Written(), stream.mBitHead;
    StringAligned(head, |s|, 0);
    stream.WriteBits(Uint32Bytes(|s|), 32);
    Uint32Bits(|s|);
    ghost var header := before + NumberBits(|s|, 32);
    NoBits(s);
    assert header + BitsOf(s, 0, 0) == header;
    var i := 0;
    while i < |s|
      invariant 0 <= i <= |s| && stream.Valid() && stream.Regular()
      invariant stream.mBuffer == old(stream.mBuffer) || fresh(stream.mBuffer)
      invariant stream.mBitHead == head + 32 + 8 * i
      invariant stream.Written() == header + BitsOf(s, 0, 8 * i)
    {
      StringAligned(head, |s|, i);
      stream.WriteBits([s[i]], 8);
      ByteAfter(header, s, i, 8);
      i := i + 1;
    }
    assert header + BitsOf(s, 0, 8 * |s|) == before + StringBits(s);
  }

  /** If a string as a whole is aligned, so are its length and each of its characters. */
  lemma StringAligned(head: nat, n: nat, i: nat)
    requires CallAligned(head, 32 + 8 * n) && i <= n
    ensures CallAligned(head, 32) && (i < n ==> CallAligned(head + 32 + 8 * i, 8))
  {
    assert (head + 32) % 8 == head % 8 && (head + 32 + 8 * i) % 8 == head % 8 && (head + 32 + 8 * i + 8) % 8 == head % 8;
  }

  /** Reads a length, then that many characters. */
  method ReadString(stream: InputMemoryBitStream, ghost s: seq<bv8>) returns (out: seq<bv8>)
    requires stream.Valid() && |s| < UINT32_LIMIT && 32 + 8 * |s| <= stream.GetRemainingBitCount()
    requires BitsOf(stream.mBuffer[..], stream.mBitHead, 32 + 8 * |s|) == StringBits(s)
    modifies stream`mBitHead
    ensures stream.Valid() && stream.mBitHead == old(stream.mBitHead) + 32 + 8 * |s|
    ensures out == s
  {
    hide Pow2, NumberBits, Bit, BitsNumber;
    ghost var start := stream.mBitHead;
    ghost var wire := stream.mBuffer[..];
    StringParts(wire, start, s);
    var header := stream.ReadBits(32);
    Pow2Of32();
    NumberRoundTrip(|s|, 32);
    var elementCount := BytesUint32(header);
    out := [];
    while |out| < elementCount
      invariant elementCount == |s| && |out| <= |s|
      invariant stream.Valid() && stream.mBitHead == start + 32 + 8 * |out|
      invariant out == s[..|out|]
    {
      var c := stream.ReadBits(8);
      CharacterRead(wire, start, s, |out|, c);
      out := out + [c[0]];
    }
  }

  lemma BitsSlice(bytes: seq<bv8>, from: nat, n: nat, a: nat, b: nat)
    requires from + n <= 8 * |bytes| && a <= b <= n
    ensures |BitsOf(bytes, from, n)| == n
    ensures BitsOf(bytes, from, n)[a..b] == BitsOf(bytes, from + a, b - a)
  {
    hide BitAt;
  }

  /** Where the bits of a stretch are known, so are those of a part of it. */
  lemma KnownBits(bytes: seq<bv8>, from: nat, all: seq<bool>, a: nat, n: nat)
    requires a + n <= |all| && from + |all| <= 8 * |bytes| && BitsOf(bytes, from, |all|) == all
    ensures BitsOf(bytes, from + a, n) == all[a..a + n]
  {
    hide BitsOf, BitAt;
    BitsSlice(bytes, from, |all|, a, a + n);
  }

  lemma Halves<T>(a: seq<T>, b: seq<T>)
    ensures (a + b)[0..|a|] == a && (a + b)[|a|..|a| + |b|] == b
  {
  }

  lemma StringParts(wire: seq<bv8>, start: nat, s: seq<bv8>)
    requires |s| < UINT32_LIMIT && start + 32 + 8 * |s| <= 8 * |wire|
    requires BitsOf(wire, start, 32 + 8 * |s|) == StringBits(s)
    ensures BitsOf(wire, start, 32) == NumberBits(|s|, 32)
    ensures BitsOf(wire, start + 32, 8 * |s|) == BitsOf(s, 0, 8 * |s|)
  {
    hide NumberBits, BitsOf, BitAt;
    var n := 8 * |s|;
    Halves(NumberBits(|s|, 32), BitsOf(s, 0, n));
    KnownBits(wire, start, StringBits(s), 0, 32);
    KnownBits(wire, start, StringBits(s), 32, n);
  }

  lemma CharacterRead(wire: seq<bv8>, start: nat, s: seq<bv8>, k: nat, c: seq<bv8>)
    requires k < |s| && start + 32 + 8 * |s| <= 8 * |wire| && |c| == 1
    requires BitsOf(wire, start + 32, 8 * |s|) == BitsOf(s, 0, 8 * |s|)
    requires BitsOf(c, 0, 8) == BitsOf(wire, start + 32 + 8 * k, 8)
    ensures c[0] == s[k]
  {
    hide Bit, BitAt;
    forall i | 0 <= i < 8
      ensures Bit(c[0], i) == Bit(s[k], i)
    {
      assert BitsOf(wire, start + 32, 8 * |s|)[8 * k + i] == BitsOf(s, 0, 8 * |s|)[8 * k + i];
      assert BitsOf(c, 0, 8)[i] == BitsOf(wire, start + 32 + 8 * k, 8)[i];
      assert start + 32 + (8 * k + i) == start + 32 + 8 * k + i;
      assert BitAt(c, i) == BitAt(s, 8 * k + i);
      BitOfByte(c, 0, i);
      BitOfByte(s, k, i);
    }
    SameBits(c[0], s[k]);
  }

  /** The i-th bit of the k-th byte. */
  lemma BitOfByte(bytes: seq<bv8>, k: nat, i: nat)
    requires k < |bytes| && i < 8
    ensures BitAt(bytes, 8 * k + i) == Bit(bytes[k], i)
  {
    hide Bit;
    assert (8 * k + i) / 8 == k && (8 * k + i) % 8 == i;
  }

  lemma SameBits(a: bv8, b: bv8)
    requires forall i :: 0 <= i < 8 ==> Bit(a, i) == Bit(b, i)
    ensures a == b
  {
    assert Bit(a, 0) == Bit(b, 0) && Bit(a, 1) == Bit(b, 1) && Bit(a, 2) == Bit(b, 2) && Bit(a, 3) == Bit(b, 3);
    assert Bit(a, 4) == Bit(b, 4) && Bit(a, 5) == Bit(b, 5) && Bit(a, 6) == Bit(b, 6) && Bit(a, 7) == Bit(b, 7);
  }

  /** A string written to a fresh stream is read back from the bytes that are sent, for every
      length the 32-bit head can take. */
  method StringRoundTrip(s: seq<bv8>) returns (out: seq<bv8>)
    requires 32 + 8 * |s| < UINT32_LIMIT
    ensures out == s
  {
    hide BitsOf, StringBits, Reached;
    var writer := new OutputMemoryBitStream();
    FreshReached();
    NoBits(writer.mBuffer[..]);
    assert CallAligned(0, 32 + 8 * |s|) by { WholeBytes(|s|); }
    WriteString(writer, s);
    assert [] + StringBits(s) == StringBits(s);
    var reader := Sent(writer);
    out := ReadString(reader, s);
  }

  lemma WholeBytes(n: nat)
    ensures CallAligned(0, 32 + 8 * n)
  {
    assert (32 + 8 * n) % 8 == 0;
  }

  /** What a receiver gets: the first GetByteLength bytes. */
  method Sent(writer: OutputMemoryBitStream) returns (reader: InputMemoryBitStream)
    requires writer.Valid()
    ensures fresh(reader) && reader.Valid() && reader.mBitHead == 0 && reader.mBitCapacity == writer.mBitHead
    ensures BitsOf(reader.mBuffer[..], 0, writer.mBitHead) == writer.Written()
  {
    hide BitsOf;
    var bytes := writer.mBuffer[..writer.GetByteLength()];
    SentBits(writer.mBuffer[..], bytes, writer.mBitHead);
    var received := new bv8[|bytes|](i requires 0 <= i < |bytes| => bytes[i]);
    assert received[..] == bytes;
    reader := new InputMemoryBitStream(received, writer.mBitHead);
  }

  // ---- Round trip ----

  datatype Datum = Datum(bytes: seq<bv8>, count: nat)

  ghost predicate Legal(items: seq<Datum>) {
    forall i :: 0 <= i < |items| ==> items[i].count <= 8 * |items[i].bytes|
  }

  function TotalBits(items: seq<Datum>): nat {
    if items == [] then 0 else TotalBits(items[..|items| - 1]) + items[|items| - 1].count
  }

  function AllBits(items: seq<Datum>): (bits: seq<bool>)
    requires Legal(items)
    ensures |bits| == TotalBits(items)
  {
    if items == [] then []
    else AllBits(items[..|items| - 1]) + BitsOf(items[|items| - 1].bytes, 0, items[|items| - 1].count)
  }

  function Counts(items: seq<Datum>): (counts: seq<nat>)
    ensures |counts| == |items|
  {
    if items == [] then [] else Counts(items[..|items| - 1]) + [items[|items| - 1].count]
  }

  /** Every write that ends above the doubling limit starts and ends at a whole byte. */
  predicate Aligned(items: seq<Datum>) {
    items == [] ||
    (Aligned(items[..|items| - 1]) && CallAligned(TotalBits(items[..|items| - 1]), items[|items| - 1].count))
  }

  lemma {:induction false} CountsOf(items: seq<Datum>)
    ensures Total(Counts(items)) == TotalBits(items)
    ensures CallsAligned(Counts(items)) <==> Aligned(items)
  {
    if items != [] {
      var last := |items| - 1;
      CountsOf(items[..last]);
      assert Counts(items)[..last] == Counts(items[..last]);
    }
  }

  /** The byte writes of a run from a fresh stream, below 2^32 bits in all, find their bytes in the
      buffer if and only if the run is aligned. */
  lemma HoldsExact(items: seq<Datum>)
    requires TotalBits(items) < UINT32_LIMIT
    ensures AllFound(FRESH, AllPieces(Counts(items))) <==> Aligned(items)
  {
    hide AllFound, AllPieces, Aligned, CallsAligned, Counts;
    CountsOf(items);
    CallsExact(Counts(items));
  }

  /** Any run of writes that the buffer can hold, aligned or not below the limit, growing the
      buffer or not: reading the bytes that are sent with the same counts gives back the low bits
      of each datum and nothing else. */
  method RoundTrip(items: seq<Datum>) returns (outs: seq<seq<bv8>>)
    requires Legal(items) && TotalBits(items) < UINT32_LIMIT && Aligned(items)
    ensures |outs| == |items|
    ensures forall i :: 0 <= i < |items| ==>
              |outs[i]| == (items[i].count + 7) / 8 &&
              BitsOf(outs[i], 0, items[i].count) == BitsOf(items[i].bytes, 0, items[i].count) &&
              (forall k :: items[i].count <= k < 8 * |outs[i]| ==> !BitAt(outs[i], k))
  {
    var writer := new OutputMemoryBitStream();
    FreshReached();
    WriteAll(writer, items);
    var reader := Sent(writer);
    outs := ReadAll(reader, items);
    assert forall j :: 0 <= j < |items| ==> Recovered(outs[j], items[j]);
  }

  method WriteAll(writer: OutputMemoryBitStream, items: seq<Datum>)
    requires writer.Valid() && writer.Regular() && writer.mBitHead == 0
    requires Legal(items) && TotalBits(items) < UINT32_LIMIT && Aligned(items)
    modifies writer, writer.mBuffer
    ensures writer.Valid() && writer.mBitHead == TotalBits(items) && writer.Written() == AllBits(items)
    ensures writer.copied == 0 || writer.copied < 2 * writer.mBitHead <==> writer.mBitHead <= DOUBLING_LIMIT + 8
  {
    hide BitsOf, Reached, Run, Pieces, CallAligned, Aligned;
    NoBits(writer.mBuffer[..]);
    assert items[..0] == [];
    for i := 0 to |items|
      invariant writer.Valid() && writer.Regular()
      invariant writer.mBuffer == old(writer.mBuffer) || fresh(writer.mBuffer)
      invariant writer.mBitHead == TotalBits(items[..i])
      invariant writer.Written() == AllBits(items[..i])
    {
      PrefixBits(items, i);
      PrefixAligned(items, i);
      writer.WriteBits(items[i].bytes, items[i].count);
    }
    assert items[..|items|] == items;
    MovedExact(writer.State());
  }

  lemma {:induction false} PrefixAligned(items: seq<Datum>, i: nat)
    requires Aligned(items) && i < |items|
    ensures Aligned(items[..i + 1]) && CallAligned(TotalBits(items[..i]), items[i].count)
    decreases |items| - i
  {
    hide CallAligned, TotalBits;
    assert items[..i + 1][..i] == items[..i];
    if i + 1 < |items| {
      PrefixAligned(items, i + 1);
      assert items[..i + 2][..i + 1] == items[..i + 1];
    } else {
      assert items[..i + 1] == items;
    }
  }

  method ReadAll(reader: InputMemoryBitStream, items: seq<Datum>) returns (outs: seq<seq<bv8>>)
    requires reader.Valid() && reader.mBitHead == 0
    requires Legal(items) && reader.mBitCapacity == TotalBits(items)
    requires BitsOf(reader.mBuffer[..], 0, TotalBits(items)) == AllBits(items)
    modifies reader`mBitHead
    ensures |outs| == |items| && forall j :: 0 <= j < |items| ==> Recovered(outs[j], items[j])
  {
    hide BitsOf, BitAt;
    ghost var bytes := reader.mBuffer[..];
    outs := [];
    for i := 0 to |items|
      invariant reader.Valid()
      invariant reader.mBitHead == TotalBits(items[..i])
      invariant |outs| == i
      invariant forall j :: 0 <= j < i ==> Recovered(outs[j], items[j])
    {
      PrefixBits(items, i);
      SliceOfAll(items, i, bytes);
      var out := reader.ReadBits(items[i].count);
      assert Recovered(out, items[i]);
      outs := outs + [out];
    }
  }

  ghost predicate Recovered(out: seq<bv8>, item: Datum) {
    |out| == (item.count + 7) / 8 && item.count <= 8 * |item.bytes| &&
    BitsOf(out, 0, item.count) == BitsOf(item.bytes, 0, item.count) &&
    (forall k :: item.count <= k < 8 * |out| ==> !BitAt(out, k))
  }

  lemma {:induction false} PrefixBits(items: seq<Datum>, i: nat)
    requires Legal(items) && i < |items|
    ensures TotalBits(items[..i + 1]) == TotalBits(items[..i]) + items[i].count <= TotalBits(items)
    ensures AllBits(items[..i + 1]) == AllBits(items[..i]) + BitsOf(items[i].bytes, 0, items[i].count)
    decreases |items| - i
  {
    assert items[..i + 1][..i] == items[..i];
    if i + 1 < |items| {
      PrefixBits(items, i + 1);
    } else {
      assert items[..i + 1] == items;
    }
  }

  lemma SentBits(buffer: seq<bv8>, bytes: seq<bv8>, head: nat)
    requires head <= 8 * |buffer| && bytes == buffer[..(head + 7) / 8]
    ensures BitsOf(bytes, 0, head) == BitsOf(buffer, 0, head)
  {
    hide Bit;
    forall i | 0 <= i < head
      ensures BitAt(bytes, i) == BitAt(buffer, i)
    {
      assert bytes[i / 8] == buffer[i / 8];
    }
  }

  lemma {:induction false} PrefixOfAll(items: seq<Datum>, i: nat)
    requires Legal(items) && i <= |items|
    ensures TotalBits(items[..i]) <= TotalBits(items)
    ensures AllBits(items[..i]) == AllBits(items)[..TotalBits(items[..i])]
    decreases |items| - i
  {
    hide TotalBits, AllBits, BitsOf;
    if i < |items| {
      PrefixOfAll(items, i + 1);
      PrefixBits(items, i);
    } else {
      assert items[..i] == items;
    }
  }

  /** The bits of the i-th item among the bits of all. */
  lemma PartOfAll(items: seq<Datum>, i: nat)
    requires Legal(items) && i < |items|
    ensures var a, n := TotalBits(items[..i]), items[i].count;
            a + n <= TotalBits(items) && AllBits(items)[a..a + n] == BitsOf(items[i].bytes, 0, n)
  {
    hide BitsOf, TotalBits, AllBits;
    PrefixBits(items, i);
    PrefixOfAll(items, i + 1);
    MiddlePart(AllBits(items), AllBits(items[..i]), BitsOf(items[i].bytes, 0, items[i].count));
  }

  lemma SliceOfAll(items: seq<Datum>, i: nat, bytes: seq<bv8>)
    requires Legal(items) && i < |items| && TotalBits(items) <= 8 * |bytes|
    requires BitsOf(bytes, 0, TotalBits(items)) == AllBits(items)
    ensures TotalBits(items[..i]) + items[i].count <= TotalBits(items)
    ensures BitsOf(bytes, TotalBits(items[..i]), items[i].count) == BitsOf(items[i].bytes, 0, items[i].count)
  {
    hide BitsOf, BitAt, TotalBits, AllBits;
    PartOfAll(items, i);
    KnownBits(bytes, 0, AllBits(items), TotalBits(items[..i]), items[i].count);
  }

  lemma MiddlePart(all: seq<bool>, front: seq<bool>, part: seq<bool>)
    requires |front| + |part| <= |all| && front + part == all[..|front| + |part|]
    ensures all[|front|..|front| + |part|] == part
  {
    assert all[|front|..|front| + |part|] == all[..|front| + |part|][|front|..];
  }
}

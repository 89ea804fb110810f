/** The growing byte stream packets are written to, and the reader of a finished one. */
module MemoryStream {
  import opened Basics
  import opened Framing
  import opened ByteGrowth

  class OutputMemoryStream {
    var mBuffer: array<Byte>
    var mHead: nat
    var mCapacity: nat
    /** Bytes moved by reallocations so far, and how often doubling the capacity has wrapped. */
    ghost var copied: nat
    ghost var wrapped: nat

    ghost predicate Valid()
      reads this
    {
      mHead <= mCapacity == mBuffer.Length < UINT32_LIMIT
    }

    ghost function Written(): seq<Byte>
      requires Valid()
      reads this, mBuffer
    {
      mBuffer[..mHead]
    }

    ghost function State(): Growth
      reads this
    {
      Growth(mCapacity, mHead, copied, wrapped)
    }

    constructor (capacity: nat)
      requires capacity < UINT32_LIMIT
      ensures Valid() && Written() == [] && State() == Start(capacity) && fresh(mBuffer)
    {
      mBuffer := new Byte[capacity](_ => 0);
      mHead, mCapacity, copied, wrapped := 0, capacity, 0, 0;
    }

    method ReallocBuffer(newLength: nat)
      requires Valid() && mCapacity <= newLength < UINT32_LIMIT
      modifies this`mBuffer, this`mCapacity, this`copied, this`wrapped
      ensures Valid() && fresh(mBuffer) && mCapacity == newLength && Written() == old(Written())
      ensures copied == old(copied) + old(mCapacity) && wrapped == old(wrapped) + (if old(mCapacity) < HALF then 0 else 1)
    {
      var larger := new Byte[newLength](_ => 0);
      forall i | 0 <= i < mCapacity {
        larger[i] := mBuffer[i];
      }
      copied, wrapped := copied + mCapacity, if mCapacity < HALF then wrapped else wrapped + 1;
      mBuffer := larger;
      mCapacity := newLength;
    }

    /** Makes room for a write that ends at `resultHead`. */
    method Reserve(resultHead: nat)
      requires Valid() && mHead <= resultHead < UINT32_LIMIT
      modifies this`mBuffer, this`mCapacity, this`copied, this`wrapped
      ensures Valid() && (mBuffer == old(mBuffer) || fresh(mBuffer)) && resultHead <= mCapacity
      ensures Written() == old(Written())
      ensures Growth(mCapacity, resultHead, copied, wrapped) == Step(old(State()), resultHead - mHead)
    {
      if resultHead > mCapacity {
        GrownCapacity(mCapacity, resultHead);
        ReallocBuffer(Max((2 * mCapacity) % UINT32_LIMIT, resultHead));
      }
    }

    method CopyIn(data: seq<Byte>)
      requires Valid() && mHead + |data| <= mCapacity
      modifies mBuffer
      ensures mBuffer[..mHead + |data|] == old(Written()) + data
    {
      ghost var before := mBuffer[..mHead];
      for i := 0 to |data|
        invariant mBuffer[..mHead] == before && mBuffer[mHead..mHead + i] == data[..i]
      {
        mBuffer[mHead + i] := data[i];
      }
      assert mBuffer[..mHead + |data|] == mBuffer[..mHead] + mBuffer[mHead..mHead + |data|];
    }

    /** Appends the bytes, at any head below 2^32; the buffer grows as `Step` says. */
    method Write(data: seq<Byte>)
      requires Valid() && mHead + |data| < UINT32_LIMIT
      modifies this, mBuffer
      ensures Valid() && (mBuffer == old(mBuffer) || fresh(mBuffer))
      ensures Written() == old(Written()) + data
      ensures State() == Step(old(State()), |data|)
    {
      hide Step;
      var resultHead := mHead + |data|;
      Reserve(resultHead);
      CopyIn(data);
      mHead := resultHead;
    }
  }

  class InputMemoryStream {
    const mBuffer: array<Byte>
    var mHead: nat
    const mCapacity: nat

    ghost predicate Valid()
      reads this
    {
      mHead <= mCapacity == mBuffer.Length
    }

    ghost function Rest(): seq<Byte>
      requires Valid()
      reads this, mBuffer
    {
      mBuffer[mHead..]
    }

    constructor (buffer: array<Byte>)
      ensures Valid() && mBuffer == buffer && mHead == 0
    {
      mBuffer, mHead, mCapacity := buffer, 0, buffer.Length;
    }

    method Read(count: nat) returns (data: seq<Byte>)
      requires Valid() && count <= |Rest()|
      modifies this`mHead
      ensures Valid() && data == old(Rest())[..count] && Rest() == old(Rest())[count..]
    {
      data := mBuffer[mHead..mHead + count];
      mHead := mHead + count;
    }
  }

  function Lengths(items: seq<seq<Byte>>): (counts: seq<nat>)
    ensures |counts| == |items|
  {
    if items == [] then [] else Lengths(items[..|items| - 1]) + [|items[|items| - 1]|]
  }

  lemma {:induction false} LengthsSum(items: seq<seq<Byte>>)
    ensures Sum(Lengths(items)) == |Flatten(items)|
  {
    hide Flatten;
    if items != [] {
      var last := |items| - 1;
      LengthsSum(items[..last]);
      ItemFits(items, last);
      assert items[..last + 1] == items;
      assert Lengths(items)[..last] == Lengths(items[..last]);
    } else {
      FlattenNone(items);
    }
  }

  /** One more item. */
  lemma RunMore(g: Growth, items: seq<seq<Byte>>, i: nat)
    requires i < |items|
    ensures Run(g, Lengths(items[..i + 1])) == Step(Run(g, Lengths(items[..i])), |items[i]|)
  {
    hide Step;
    assert items[..i + 1][..i] == items[..i];
    var counts := Lengths(items[..i + 1]);
    assert counts[..i] == Lengths(items[..i]);
  }

  /** Writes the items one after the other, however often the buffer has to grow. */
  method WriteAll(stream: OutputMemoryStream, items: seq<seq<Byte>>)
    requires stream.Valid() && stream.mHead + |Flatten(items)| < UINT32_LIMIT
    modifies stream, stream.mBuffer
    ensures stream.Valid() && (stream.mBuffer == old(stream.mBuffer) || fresh(stream.mBuffer))
    ensures stream.Written() == old(stream.Written()) + Flatten(items)
    ensures stream.State() == Run(old(stream.State()), Lengths(items))
  {
    hide Step, Run, Flatten, Lengths;
    ghost var before, start := stream.Written(), stream.State();
    FlattenNone(items[..0]);
    NothingRun(start);
    assert items[..0] == [];
    for i := 0 to |items|
      invariant stream.Valid() && (stream.mBuffer == old(stream.mBuffer) || fresh(stream.mBuffer))
      invariant stream.Written() == before + Flatten(items[..i])
      invariant stream.State() == Run(start, Lengths(items[..i]))
    {
      ItemFits(items, i);
      RunMore(start, items, i);
      stream.Write(items[i]);
    }
    assert items[..|items|] == items;
  }

  lemma NothingRun(g: Growth)
    ensures Run(g, Lengths([])) == g
  {
  }

  /** Reads as many bytes as each item has, one after the other. */
  method ReadAll(stream: InputMemoryStream, items: seq<seq<Byte>>) returns (outs: seq<seq<Byte>>)
    requires stream.Valid() && Flatten(items) <= stream.Rest()
    modifies stream`mHead
    ensures stream.Valid() && outs == items && stream.Rest() == old(stream.Rest())[|Flatten(items)|..]
  {
    hide Flatten;
    ghost var all := stream.Rest();
    FlattenNone(items[..0]);
    assert items[..0] == [];
    outs := [];
    for i := 0 to |items|
      invariant stream.Valid() && outs == items[..i]
      invariant |Flatten(items[..i])| <= |all| && stream.Rest() == all[|Flatten(items[..i])|..]
    {
      ItemFits(items, i);
      ItemPlace(items, i);
      var out := stream.Read(|items[i]|);
      TakeMiddle(all, Flatten(items), |Flatten(items[..i])|, |items[i]|);
      assert items[..i + 1] == items[..i] + [items[i]];
      outs := outs + [out];
    }
    assert items[..|items|] == items;
  }

  lemma TakeMiddle(all: seq<Byte>, front: seq<Byte>, at: nat, n: nat)
    requires front <= all && at + n <= |front|
    ensures all[at..][..n] == front[at..at + n] && all[at..][n..] == all[at + n..]
  {
    assert front == all[..|front|];
  }

  /** Where the i-th item lies. */
  lemma ItemPlace(items: seq<seq<Byte>>, i: nat)
    requires i < |items|
    ensures |Flatten(items[..i])| + |items[i]| <= |Flatten(items)|
    ensures Flatten(items)[|Flatten(items[..i])|..|Flatten(items[..i])| + |items[i]|] == items[i]
  {
    hide Flatten;
    ItemFits(items, i);
    FlattenAppend(items[..i + 1], items[i + 1..]);
    assert items == items[..i + 1] + items[i + 1..];
  }

  /** Whatever is written item by item to a stream of any capacity is read back from its bytes with
      the same counts. */
  method RoundTrip(capacity: nat, items: seq<seq<Byte>>) returns (outs: seq<seq<Byte>>)
    requires capacity < UINT32_LIMIT && |Flatten(items)| < UINT32_LIMIT
    ensures outs == items
  {
    hide Flatten;
    var writer := new OutputMemoryStream(capacity);
    WriteAll(writer, items);
    assert [] + Flatten(items) == Flatten(items);
    var bytes := writer.mBuffer[..writer.mHead];
    var received := new Byte[|bytes|](i requires 0 <= i < |bytes| => bytes[i]);
    assert received[..] == bytes;
    var reader := new InputMemoryStream(received);
    assert reader.Rest() == bytes;
    outs := ReadAll(reader, items);
  }

  lemma ItemFits(items: seq<seq<Byte>>, i: nat)
    requires i < |items|
    ensures Flatten(items[..i + 1]) == Flatten(items[..i]) + items[i]
    ensures |Flatten(items[..i])| + |items[i]| <= |Flatten(items)|
  {
    FlattenAppend(items[..i], [items[i]]);
    FlattenAppend(items[..i + 1], items[i + 1..]);
    assert items[..i + 1] == items[..i] + [items[i]] && items == items[..i + 1] + items[i + 1..];
    assert Flatten([items[i]]) == items[i] + Flatten([]);
  }
}

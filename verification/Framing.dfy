/** Size-prefixed frames: what a byte stream means, independently of how it arrives. */
module Framing {
  import opened Basics

  type Byte = x: int | 0 <= x < 256

  const MAX_PACKET_SIZE := 1300

  /** The little-endian 16-bit value of two neighbouring bytes. */
  function SizeField(lo: Byte, hi: Byte): nat { lo + 256 * hi }

  function FrameSize(s: seq<Byte>): nat
    requires |s| >= 2
  {
    SizeField(s[0], s[1])
  }

  datatype Parsed = Parsed(frames: seq<seq<Byte>>, tail: seq<Byte>)

  /** A frame is exactly as long as its own size field says. */
  ghost predicate IsFrame(f: seq<Byte>) {
    2 <= |f| <= MAX_PACKET_SIZE && FrameSize(f) == |f|
  }

  /** A frame of which some bytes are still missing; its size field, once known, is legal. */
  ghost predicate Incomplete(t: seq<Byte>) {
    |t| < 2 || |t| < FrameSize(t) <= MAX_PACKET_SIZE
  }

  /** Every size field met while the stream is cut into frames is legal. */
  ghost predicate WellFormed(s: seq<Byte>) {
    |s| < 2 ||
    (2 <= FrameSize(s) <= MAX_PACKET_SIZE &&
     (FrameSize(s) <= |s| ==> WellFormed(s[FrameSize(s)..])))
  }

  /** Cuts a stream into its complete frames and the incomplete rest. */
  function Split(s: seq<Byte>): Parsed
    requires WellFormed(s)
  {
    if |s| < 2 || |s| < FrameSize(s) then Parsed([], s)
    else
      var rest := Split(s[FrameSize(s)..]);
      Parsed([s[..FrameSize(s)]] + rest.frames, rest.tail)
  }

  /** Cutting loses and reorders nothing, and yields frames and an incomplete rest only. */
  lemma {:induction false} SplitSound(s: seq<Byte>)
    requires WellFormed(s)
    ensures Flatten(Split(s).frames) + Split(s).tail == s
    ensures forall i :: 0 <= i < |Split(s).frames| ==> IsFrame(Split(s).frames[i])
    ensures Incomplete(Split(s).tail)
  {
    hide Split, WellFormed, Flatten;
    if |s| >= 2 && FrameSize(s) <= |s| {
      var k := FrameSize(s);
      var first, rest := s[..k], s[k..];
      NothingMore(s);
      SplitStep(s, []);
      NothingMore(rest);
      SplitHead(s);
      SplitSound(rest);
      var r := Split(rest);
      assert FrameSize(first) == k;
      FlattenCons(first, r.frames, r.tail);
      assert first + rest == s;
    } else {
      SplitRest(s);
    }
  }

  lemma NothingMore(s: seq<Byte>)
    ensures s + [] == s
  {
  }

  lemma OnlyRest(t: seq<Byte>)
    requires Incomplete(t)
    ensures WellFormed(t) && Split(t) == Parsed([], t)
  {
  }

  lemma SplitRest(s: seq<Byte>)
    requires |s| < 2 || |s| < FrameSize(s)
    requires WellFormed(s)
    ensures Split(s) == Parsed([], s) && Incomplete(s) && Flatten([]) + s == s
  {
  }

  lemma FlattenCons(f: seq<Byte>, frames: seq<seq<Byte>>, t: seq<Byte>)
    ensures Flatten([f] + frames) + t == f + (Flatten(frames) + t)
  {
    hide Flatten;
    FlattenFirst([f] + frames);
    assert ([f] + frames)[1..] == frames;
  }

  /** There is only one way to read a stream as frames followed by an incomplete rest:
      whatever batch of packets is written back to back is read back as itself. */
  lemma {:induction false} SplitUnique(frames: seq<seq<Byte>>, t: seq<Byte>)
    requires forall i :: 0 <= i < |frames| ==> IsFrame(frames[i])
    requires Incomplete(t)
    ensures WellFormed(Flatten(frames) + t)
    ensures Split(Flatten(frames) + t) == Parsed(frames, t)
  {
    hide Flatten, Split, WellFormed;
    var s := Flatten(frames) + t;
    if frames == [] {
      FlattenNone(frames);
      assert s == t;
      OnlyRest(t);
    } else {
      SplitUnique(frames[1..], t);
      FlattenFirst(frames);
      var k := |frames[0]|;
      assert s == frames[0] + (Flatten(frames[1..]) + t);
      assert s[k..] == Flatten(frames[1..]) + t;
      assert s[..k] == frames[0];
      assert FrameSize(s) == k;
      SplitHead(s);
      assert frames == [frames[0]] + frames[1..];
    }
  }

  /** Cutting can be resumed: the rest of a prefix is all that the remaining bytes need. */
  lemma {:induction false} SplitResume(a: seq<Byte>, b: seq<Byte>)
    requires WellFormed(a + b)
    ensures WellFormed(a) && WellFormed(Split(a).tail + b)
    ensures var more := Split(Split(a).tail + b);
            Split(a + b) == Parsed(Split(a).frames + more.frames, more.tail)
    decreases |a|
  {
    hide Split, WellFormed;
    if |a| >= 2 && FrameSize(a) <= |a| {
      var k := FrameSize(a);
      var rest := a[k..];
      SplitStep(a, b);
      SplitResume(rest, b);
      SplitHead(a);
      var more := Split(Split(rest).tail + b);
      assert [a[..k]] + (Split(rest).frames + more.frames) == ([a[..k]] + Split(rest).frames) + more.frames;
    } else {
      SplitShort(a, b);
    }
  }

  lemma SplitShort(a: seq<Byte>, b: seq<Byte>)
    requires |a| < 2 || |a| < FrameSize(a)
    requires WellFormed(a + b) || Incomplete(a)
    ensures WellFormed(a) && Split(a) == Parsed([], a)
  {
    if |a| >= 2 {
      assert FrameSize(a + b) == FrameSize(a);
    }
  }

  lemma SplitHead(a: seq<Byte>)
    requires |a| >= 2 && 2 <= FrameSize(a) <= |a| && FrameSize(a) <= MAX_PACKET_SIZE
    requires WellFormed(a[FrameSize(a)..])
    ensures WellFormed(a)
    ensures var r := Split(a[FrameSize(a)..]); Split(a) == Parsed([a[..FrameSize(a)]] + r.frames, r.tail)
  {
  }

  lemma SplitStep(a: seq<Byte>, b: seq<Byte>)
    requires |a| >= 2 && FrameSize(a) <= |a| && WellFormed(a + b)
    ensures 2 <= FrameSize(a) <= MAX_PACKET_SIZE && WellFormed(a[FrameSize(a)..] + b)
    ensures var k := FrameSize(a); var r := Split(a[k..] + b);
            Split(a + b) == Parsed([a[..k]] + r.frames, r.tail)
  {
    var k := FrameSize(a);
    assert FrameSize(a + b) == k;
    assert (a + b)[k..] == a[k..] + b;
    assert (a + b)[..k] == a[..k];
  }
}

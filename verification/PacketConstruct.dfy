/** Rebuilding packets from receive chunks: the server's PacketConstruct, step by step. */
module PacketConstruct {
  import opened Basics
  import opened Framing

  /** What one call leaves behind: the partial buffer, how much of it is filled, and the
      packets handed on. `Broken` stands for a read beyond the receive buffer, for a copy of
      negative or oversized length, and for the loop that hands on an empty packet for ever. */
  datatype Outcome = Done(buf: seq<Byte>, prev: nat, packets: seq<seq<Byte>>) | Broken

  function Prepend(packets: seq<seq<Byte>>, o: Outcome): Outcome {
    if o.Done? then Done(o.buf, o.prev, packets + o.packets) else Broken
  }

  /** A memory copy of `data` to offset `at` of the buffer. */
  function Overlay(buf: seq<Byte>, at: nat, data: seq<Byte>): seq<Byte>
    requires at + |data| <= |buf|
  {
    buf[..at] + data + buf[at + |data|..]
  }

  /** The loop of PacketConstruct from position `p` of the `n` received bytes. `size` is the
      size of the packet in progress, 0 when it is not known. Both bytes of a size field are
      read at once, also the one behind the last received byte, if the buffer goes on there. */
  function Construct(buf: seq<Byte>, prev: nat, io: seq<Byte>, p: nat, n: nat, size: nat): Outcome
    requires |buf| == MAX_PACKET_SIZE && prev <= MAX_PACKET_SIZE
    requires p <= n <= |io|
    decreases n - p, prev
  {
    if p == n then Done(buf, prev, [])
    else if size == 0 && p + 1 == |io| then Broken
    else
      var size' := if size == 0 then SizeField(io[p], io[p + 1]) else size;
      if size' <= n - p + prev then
        if size' == 0 || size' < prev || size' > MAX_PACKET_SIZE then Broken
        else
          var buf' := Overlay(buf, prev, io[p..p + (size' - prev)]);
          Prepend([buf'[..size']], Construct(buf', 0, io, p + (size' - prev), n, 0))
      else if prev + (n - p) > MAX_PACKET_SIZE then Broken
      else Done(Overlay(buf, prev, io[p..n]), prev + (n - p), [])
  }

  /** One whole call: the size of a pending packet is read from the partial buffer. */
  function Call(buf: seq<Byte>, prev: nat, io: seq<Byte>, n: nat): Outcome
    requires |buf| == MAX_PACKET_SIZE && prev <= MAX_PACKET_SIZE && n <= |io|
  {
    Construct(buf, prev, io, 0, n, if prev != 0 then SizeField(buf[0], buf[1]) else 0)
  }

  /** The outcome delivers exactly these frames and keeps exactly this rest. */
  ghost predicate Delivers(o: Outcome, parsed: Parsed) {
    o.Done? && o.packets == parsed.frames && o.prev == |parsed.tail| <= |o.buf| &&
    o.buf[..o.prev] == parsed.tail
  }

  /** The size the call works with when only one byte of the size field was kept: the second
      byte comes from whatever the partial buffer holds, and a zero makes the call look at the
      new bytes instead. */
  function GuessedSize(buf: seq<Byte>, io: seq<Byte>): nat
    requires |buf| >= 2 && |io| >= 2
  {
    if SizeField(buf[0], buf[1]) != 0 then SizeField(buf[0], buf[1]) else SizeField(io[0], io[1])
  }

  /** The last received byte is not taken for a size field below 2. */
  ghost predicate HarmlessEnd(io: seq<Byte>, n: nat) { 0 < n < |io| && SizeField(io[n - 1], io[n]) >= 2 }

  /** When the call sees a size field that has only half arrived, at its start or at its end,
      the stale byte it reads instead does no harm. */
  ghost predicate StaleByteHarmless(buf: seq<Byte>, prev: nat, io: seq<Byte>, n: nat)
    requires |buf| == MAX_PACKET_SIZE && prev <= MAX_PACKET_SIZE && n <= |io| && |io| >= 2
    requires WellFormed(buf[..prev] + io[..n])
  {
    n == 0 ||
    ((prev == 1 ==> var size, guess := SizeField(buf[0], io[0]), GuessedSize(buf, io);
                    guess == size || (n + 1 < guess && n + 1 < size)) &&
     (|Split(buf[..prev] + io[..n]).tail| == 1 ==> HarmlessEnd(io, n)))
  }

  /** A packet in progress whose size is in reach: it is completed and handed on whole. */
  lemma Complete(buf: seq<Byte>, prev: nat, io: seq<Byte>, p: nat, n: nat, size: nat)
    requires |buf| == MAX_PACKET_SIZE && p < n <= |io|
    requires 0 < size <= MAX_PACKET_SIZE && prev <= size <= n - p + prev
    ensures var k := size - prev;
            var buf' := Overlay(buf, prev, io[p..p + k]);
            Construct(buf, prev, io, p, n, size)
            == Prepend([(buf[..prev] + io[p..n])[..size]], Construct(buf', 0, io, p + k, n, 0))
  {
    var k := size - prev;
    var buf' := Overlay(buf, prev, io[p..p + k]);
    assert buf'[..size] == (buf[..prev] + io[p..n])[..size];
  }

  lemma ConstructKnown(buf: seq<Byte>, io: seq<Byte>, p: nat, n: nat)
    requires |buf| == MAX_PACKET_SIZE && p < n <= |io| && p + 1 < |io|
    ensures Construct(buf, 0, io, p, n, 0) == Construct(buf, 0, io, p, n, SizeField(io[p], io[p + 1]))
  {
  }

  lemma SliceSplit(io: seq<Byte>, p: nat, n: nat)
    requires p + 2 <= n <= |io| && WellFormed(io[p..n])
    ensures var size := FrameSize(io[p..n]);
            size == SizeField(io[p], io[p + 1]) && 2 <= size <= MAX_PACKET_SIZE &&
            if size <= n - p then
              WellFormed(io[p + size..n]) &&
              var r := Split(io[p + size..n]);
              Split(io[p..n]) == Parsed([io[p..p + size]] + r.frames, r.tail)
            else Split(io[p..n]) == Parsed([], io[p..n])
  {
    var s := io[p..n];
    var size := FrameSize(s);
    if size <= n - p {
      assert s[size..] == io[p + size..n];
      assert s[..size] == io[p..p + size];
    }
  }

  /** From a frame boundary the loop delivers the frames of the remaining bytes, unless the
      last of them is half a size field and the stale byte after it makes the size 0 or 1. */
  lemma {:induction false} FromBoundary(buf: seq<Byte>, io: seq<Byte>, p: nat, n: nat)
    requires |buf| == MAX_PACKET_SIZE && p <= n <= |io| && WellFormed(io[p..n])
    ensures Delivers(Construct(buf, 0, io, p, n, 0), Split(io[p..n]))
       <==> (|Split(io[p..n]).tail| == 1 ==> HarmlessEnd(io, n))
    decreases n - p
  {
    hide Construct, Split, WellFormed, Delivers;
    if p == n {
      BoundaryEnd(buf, io, n);
    } else if p + 1 == n {
      LastByte(buf, io, p, n);
      assert |io[p..n]| == 1;
    } else {
      SliceSplit(io, p, n);
      var size := FrameSize(io[p..n]);
      if size <= n - p {
        BoundaryFrame(buf, io, p, n, size);
        FromBoundary(Overlay(buf, 0, io[p..p + size]), io, p + size, n);
        PrependDelivers(io[p..p + size], Construct(Overlay(buf, 0, io[p..p + size]), 0, io, p + size, n, 0),
                        Split(io[p + size..n]));
      } else {
        BoundaryRest(buf, io, p, n);
      }
    }
  }

  lemma BoundaryEnd(buf: seq<Byte>, io: seq<Byte>, n: nat)
    requires |buf| == MAX_PACKET_SIZE && n <= |io|
    ensures Split(io[n..n]) == Parsed([], [])
    ensures Delivers(Construct(buf, 0, io, n, n, 0), Split(io[n..n]))
  {
  }

  lemma BoundaryFrame(buf: seq<Byte>, io: seq<Byte>, p: nat, n: nat, size: nat)
    requires |buf| == MAX_PACKET_SIZE && p + 1 < n <= |io| && size == SizeField(io[p], io[p + 1])
    requires 0 < size <= n - p && size <= MAX_PACKET_SIZE
    ensures Construct(buf, 0, io, p, n, 0)
         == Prepend([io[p..p + size]], Construct(Overlay(buf, 0, io[p..p + size]), 0, io, p + size, n, 0))
  {
    hide Construct;
    ConstructKnown(buf, io, p, n);
    Complete(buf, 0, io, p, n, size);
    assert (buf[..0] + io[p..n])[..size] == io[p..p + size];
  }

  lemma BoundaryRest(buf: seq<Byte>, io: seq<Byte>, p: nat, n: nat)
    requires |buf| == MAX_PACKET_SIZE && p + 1 < n <= |io|
    requires n - p < SizeField(io[p], io[p + 1]) <= MAX_PACKET_SIZE
    ensures Delivers(Construct(buf, 0, io, p, n, 0), Parsed([], io[p..n]))
  {
    var o := Construct(buf, 0, io, p, n, 0);
    assert o == Done(Overlay(buf, 0, io[p..n]), n - p, []);
    assert o.buf[..n - p] == io[p..n];
  }

  lemma LastByte(buf: seq<Byte>, io: seq<Byte>, p: nat, n: nat)
    requires |buf| == MAX_PACKET_SIZE && p + 1 == n <= |io|
    ensures Split(io[p..n]) == Parsed([], io[p..n])
    ensures Delivers(Construct(buf, 0, io, p, n, 0), Split(io[p..n])) <==> HarmlessEnd(io, n)
  {
    var o := Construct(buf, 0, io, p, n, 0);
    if n < |io| {
      var z := SizeField(io[p], io[n]);
      ConstructKnown(buf, io, p, n);
      if z >= 2 {
        assert o == Done(Overlay(buf, 0, io[p..n]), 1, []);
        assert o.buf[..1] == io[p..n];
      } else if z == 1 {
        Complete(buf, 0, io, p, n, 1);
        assert o.Done? ==> |o.packets| > 0;
      }
    }
  }

  lemma PrependDelivers(f: seq<Byte>, o: Outcome, parsed: Parsed)
    ensures Delivers(Prepend([f], o), Parsed([f] + parsed.frames, parsed.tail)) <==> Delivers(o, parsed)
  {
    if o.Done? {
      assert ([f] + o.packets)[1..] == o.packets;
      assert ([f] + parsed.frames)[1..] == parsed.frames;
    }
  }

  /** A pending packet whose true size the call knows. */
  lemma KnownSize(buf: seq<Byte>, prev: nat, io: seq<Byte>, n: nat, size: nat)
    requires |buf| == MAX_PACKET_SIZE && 0 < prev <= MAX_PACKET_SIZE && 0 < n <= |io| && |io| >= 2
    requires WellFormed(buf[..prev] + io[..n])
    requires size == FrameSize(buf[..prev] + io[..n]) && prev < size
    ensures Delivers(Construct(buf, prev, io, 0, n, size), Split(buf[..prev] + io[..n]))
       <==> (|Split(buf[..prev] + io[..n]).tail| == 1 ==> HarmlessEnd(io, n))
  {
    hide SizeField;
    var s := buf[..prev] + io[..n];
    assert io[0..n] == io[..n];
    if size <= n + prev {
      var k := size - prev;
      var buf' := Overlay(buf, prev, io[0..k]);
      Complete(buf, prev, io, 0, n, size);
      assert s[size..] == io[k..n];
      FromBoundary(buf', io, k, n);
      PrependDelivers(s[..size], Construct(buf', 0, io, k, n, 0), Split(io[k..n]));
    } else {
      var o := Construct(buf, prev, io, 0, n, size);
      assert o == Done(Overlay(buf, prev, io[0..n]), prev + n, []);
      assert o.buf[..prev + n] == s;
    }
  }

  /** A pending packet of which the call guesses a size other than the true one. */
  lemma WrongSize(buf: seq<Byte>, io: seq<Byte>, n: nat, guess: nat)
    requires |buf| == MAX_PACKET_SIZE && 0 < n <= |io| && |io| >= 2
    requires WellFormed(buf[..1] + io[..n])
    requires guess != FrameSize(buf[..1] + io[..n])
    requires guess != 0 || SizeField(io[0], io[1]) == 0
    ensures Delivers(Construct(buf, 1, io, 0, n, guess), Split(buf[..1] + io[..n]))
       <==> n + 1 < guess && n + 1 < FrameSize(buf[..1] + io[..n])
    ensures n + 1 < FrameSize(buf[..1] + io[..n]) ==> |Split(buf[..1] + io[..n]).tail| == n + 1
  {
    var s := buf[..1] + io[..n];
    var o := Construct(buf, 1, io, 0, n, guess);
    if n + 1 < FrameSize(s) {
      assert Split(s) == Parsed([], s);
    } else {
      assert |Split(s).frames| > 0 && |Split(s).frames[0]| == FrameSize(s);
    }
    if guess <= n + 1 {
      if guess != 0 && guess <= MAX_PACKET_SIZE {
        Complete(buf, 1, io, 0, n, guess);
        assert o.Done? ==> |o.packets| > 0 && |o.packets[0]| == guess;
      }
    } else if n + 1 <= MAX_PACKET_SIZE {
      assert o == Done(Overlay(buf, 1, io[0..n]), 1 + n, []);
      assert o.buf[..n + 1] == s;
    }
  }

  lemma CallGuesses(buf: seq<Byte>, io: seq<Byte>, n: nat)
    requires |buf| == MAX_PACKET_SIZE && 0 < n <= |io| && |io| >= 2
    ensures Call(buf, 1, io, n) == Construct(buf, 1, io, 0, n, GuessedSize(buf, io))
  {
  }

  lemma LegalSize(s: seq<Byte>)
    requires |s| >= 2 && WellFormed(s)
    ensures 2 <= FrameSize(s) <= MAX_PACKET_SIZE
  {
  }

  lemma CallExactOne(buf: seq<Byte>, io: seq<Byte>, n: nat)
    requires |buf| == MAX_PACKET_SIZE && 0 < n <= |io| && |io| >= 2
    requires WellFormed(buf[..1] + io[..n])
    ensures Delivers(Call(buf, 1, io, n), Split(buf[..1] + io[..n]))
       <==> StaleByteHarmless(buf, 1, io, n)
  {
    hide Split, WellFormed, Construct, Delivers, Call;
    var guess := GuessedSize(buf, io);
    var size := FrameSize(buf[..1] + io[..n]);
    LegalSize(buf[..1] + io[..n]);
    assert size == SizeField(buf[0], io[0]);
    CallGuesses(buf, io, n);
    if guess == size {
      KnownSize(buf, 1, io, n, guess);
    } else {
      WrongSize(buf, io, n, guess);
    }
  }

  lemma CallExactMany(buf: seq<Byte>, prev: nat, io: seq<Byte>, n: nat)
    requires |buf| == MAX_PACKET_SIZE && 2 <= prev <= MAX_PACKET_SIZE && 0 < n <= |io| && |io| >= 2
    requires Incomplete(buf[..prev]) && WellFormed(buf[..prev] + io[..n])
    ensures Delivers(Call(buf, prev, io, n), Split(buf[..prev] + io[..n]))
       <==> StaleByteHarmless(buf, prev, io, n)
  {
    hide Split, WellFormed, Construct, Delivers;
    var size := FrameSize(buf[..prev]);
    assert FrameSize(buf[..prev] + io[..n]) == size == SizeField(buf[0], buf[1]);
    KnownSize(buf, prev, io, n, size);
  }

  /** One call delivers the frames of the pending rest and the received bytes, and keeps what
      is left of them, exactly when the stale bytes it may read do no harm. */
  lemma CallExact(buf: seq<Byte>, prev: nat, io: seq<Byte>, n: nat)
    requires |buf| == MAX_PACKET_SIZE && prev <= MAX_PACKET_SIZE && n <= |io| && |io| >= 2
    requires Incomplete(buf[..prev]) && WellFormed(buf[..prev] + io[..n])
    ensures Delivers(Call(buf, prev, io, n), Split(buf[..prev] + io[..n]))
       <==> StaleByteHarmless(buf, prev, io, n)
  {
    hide WellFormed, Construct;
    var t, c := buf[..prev], io[..n];
    if n == 0 {
      assert t + c == t;
      assert Split(t) == Parsed([], t);
      NothingLeft(buf, prev, io, n, if prev != 0 then SizeField(buf[0], buf[1]) else 0);
    } else if prev == 0 {
      assert t + c == c == io[0..n];
      FromBoundary(buf, io, 0, n);
    } else if prev == 1 {
      CallExactOne(buf, io, n);
    } else {
      CallExactMany(buf, prev, io, n);
    }
  }

  /** The receive buffer after one receive: `n` new bytes, then whatever was there before. */
  datatype Receive = Receive(io: seq<Byte>, n: nat)

  ghost predicate Legal(rs: seq<Receive>) {
    forall i :: 0 <= i < |rs| ==> rs[i].n <= |rs[i].io| && |rs[i].io| >= 2
  }

  /** The byte stream that arrived, whatever the chunking. */
  function Received(rs: seq<Receive>): seq<Byte>
    requires Legal(rs)
  {
    if rs == [] then [] else rs[0].io[..rs[0].n] + Received(rs[1..])
  }

  /** One call after another, each continuing with the buffer the previous one left. */
  function Run(buf: seq<Byte>, prev: nat, rs: seq<Receive>): Outcome
    requires |buf| == MAX_PACKET_SIZE && prev <= MAX_PACKET_SIZE && Legal(rs)
    decreases |rs|
  {
    if rs == [] then Done(buf, prev, [])
    else
      var o := Call(buf, prev, rs[0].io, rs[0].n);
      if o.Broken? || |o.buf| != MAX_PACKET_SIZE || o.prev > MAX_PACKET_SIZE then Broken
      else Prepend(o.packets, Run(o.buf, o.prev, rs[1..]))
  }

  lemma ReceivedCons(t: seq<Byte>, rs: seq<Receive>)
    requires Legal(rs) && rs != [] && WellFormed(t + Received(rs))
    ensures var s := t + rs[0].io[..rs[0].n];
            WellFormed(s) && WellFormed(Split(s).tail + Received(rs[1..])) &&
            var more := Split(Split(s).tail + Received(rs[1..]));
            Split(t + Received(rs)) == Parsed(Split(s).frames + more.frames, more.tail)
  {
    hide WellFormed, Split;
    var c := rs[0].io[..rs[0].n];
    assert t + (c + Received(rs[1..])) == (t + c) + Received(rs[1..]);
    SplitResume(t + c, Received(rs[1..]));
  }

  /** A pending rest in a buffer, and bytes that are still to come. */
  ghost predicate Expecting(buf: seq<Byte>, prev: nat, rs: seq<Receive>) {
    |buf| == MAX_PACKET_SIZE && prev <= MAX_PACKET_SIZE && Legal(rs) &&
    Incomplete(buf[..prev]) && WellFormed(buf[..prev] + Received(rs))
  }

  /** The first call of a run, when its stale bytes do no harm, leaves a state that expects the
      other receives. */
  lemma FirstCall(buf: seq<Byte>, prev: nat, rs: seq<Receive>)
    requires Expecting(buf, prev, rs) && rs != []
    ensures var s := buf[..prev] + rs[0].io[..rs[0].n];
            var o := Call(buf, prev, rs[0].io, rs[0].n);
            WellFormed(s) && (StaleByteHarmless(buf, prev, rs[0].io, rs[0].n) <==> Delivers(o, Split(s))) &&
            (Delivers(o, Split(s)) ==> Expecting(o.buf, o.prev, rs[1..]))
  {
    hide Split, WellFormed, Received, Construct, Call, StaleByteHarmless;
    var r := rs[0];
    ReceivedCons(buf[..prev], rs);
    SplitSound(buf[..prev] + r.io[..r.n]);
    CallKeepsLength(buf, prev, r.io, r.n);
    CallExact(buf, prev, r.io, r.n);
  }

  /** In every call of the run the stale bytes do no harm. */
  ghost predicate AlwaysHarmless(buf: seq<Byte>, prev: nat, rs: seq<Receive>)
    requires Expecting(buf, prev, rs)
    decreases |rs|
  {
    rs != [] ==>
      var r := rs[0];
      FirstCall(buf, prev, rs);
      StaleByteHarmless(buf, prev, r.io, r.n) &&
      var o := Call(buf, prev, r.io, r.n);
      AlwaysHarmless(o.buf, o.prev, rs[1..])
  }

  lemma LoopKeepsLength(buf: seq<Byte>, prev: nat, io: seq<Byte>, p: nat, n: nat, size: nat)
    requires |buf| == MAX_PACKET_SIZE && prev <= MAX_PACKET_SIZE && p <= n <= |io|
    ensures var o := Construct(buf, prev, io, p, n, size);
            o.Done? ==> |o.buf| == MAX_PACKET_SIZE && o.prev <= MAX_PACKET_SIZE
    decreases n - p, prev
  {
  }

  lemma CallKeepsLength(buf: seq<Byte>, prev: nat, io: seq<Byte>, n: nat)
    requires |buf| == MAX_PACKET_SIZE && prev <= MAX_PACKET_SIZE && n <= |io|
    ensures var o := Call(buf, prev, io, n); o.Done? ==> |o.buf| == MAX_PACKET_SIZE && o.prev <= MAX_PACKET_SIZE
  {
    LoopKeepsLength(buf, prev, io, 0, n, if prev != 0 then SizeField(buf[0], buf[1]) else 0);
  }

  /** After k of the receives everything that has arrived whole has been handed on. */
  ghost predicate OnTime(buf: seq<Byte>, prev: nat, rs: seq<Receive>, k: nat)
    requires Expecting(buf, prev, rs) && k <= |rs|
  {
    WellFormed(buf[..prev] + Received(rs[..k])) &&
    Delivers(Run(buf, prev, rs[..k]), Split(buf[..prev] + Received(rs[..k])))
  }

  lemma OnTimeFirst(buf: seq<Byte>, prev: nat, rs: seq<Receive>)
    requires Expecting(buf, prev, rs)
    ensures OnTime(buf, prev, rs, 0)
  {
    assert buf[..prev] + [] == buf[..prev];
    SplitShort(buf[..prev], []);
  }

  lemma ParsedAfter(o: Outcome, frames: seq<seq<Byte>>, more: Parsed)
    ensures Delivers(Prepend(frames, o), Parsed(frames + more.frames, more.tail)) <==> Delivers(o, more)
  {
    if o.Done? {
      assert (frames + o.packets)[|frames|..] == o.packets;
      assert (frames + more.frames)[|frames|..] == more.frames;
    }
  }

  /** The first k + 1 receives of a run, when the first call has delivered. */
  lemma OnTimeNext(buf: seq<Byte>, prev: nat, rs: seq<Receive>, k: nat)
    requires Expecting(buf, prev, rs) && k < |rs|
    requires WellFormed(buf[..prev] + rs[0].io[..rs[0].n]) && StaleByteHarmless(buf, prev, rs[0].io, rs[0].n)
    ensures var o := Call(buf, prev, rs[0].io, rs[0].n);
            o.Done? && Expecting(o.buf, o.prev, rs[1..]) && (OnTime(buf, prev, rs, k + 1) <==> OnTime(o.buf, o.prev, rs[1..], k))
  {
    hide Split, WellFormed, Received, Construct, Call, StaleByteHarmless;
    FirstCall(buf, prev, rs);
    var r, front, later := rs[0], rs[..k + 1], rs[1..][..k];
    var o := Call(buf, prev, r.io, r.n);
    assert front[0] == r && front[1..] == later;
    PrefixFormed(buf[..prev], rs, k + 1);
    ReceivedCons(buf[..prev], front);
    var more := Split(o.buf[..o.prev] + Received(later));
    ParsedAfter(Run(o.buf, o.prev, later), o.packets, more);
  }

  lemma {:induction false} ReceivedAppend(rs: seq<Receive>, k: nat)
    requires Legal(rs) && k <= |rs|
    ensures Received(rs) == Received(rs[..k]) + Received(rs[k..])
  {
    if k > 0 {
      ReceivedAppend(rs[1..], k - 1);
      assert rs[..k][1..] == rs[1..][..k - 1] && rs[1..][k - 1..] == rs[k..];
    } else {
      assert rs[0..] == rs;
    }
  }

  lemma PrefixFormed(t: seq<Byte>, rs: seq<Receive>, k: nat)
    requires Legal(rs) && k <= |rs| && WellFormed(t + Received(rs))
    ensures WellFormed(t + Received(rs[..k]))
  {
    hide WellFormed, Split, Received;
    ReceivedAppend(rs, k);
    assert t + (Received(rs[..k]) + Received(rs[k..])) == (t + Received(rs[..k])) + Received(rs[k..]);
    SplitResume(t + Received(rs[..k]), Received(rs[k..]));
  }

  /** Over any number of receives the packets handed on are, after every single call, the
      frames of everything received so far in order, and the partial buffer holds the
      incomplete rest, exactly when no call of the run is harmed by a stale byte. */
  lemma {:induction false} RunExact(buf: seq<Byte>, prev: nat, rs: seq<Receive>)
    requires Expecting(buf, prev, rs)
    ensures AlwaysHarmless(buf, prev, rs) <==> forall k :: 0 <= k <= |rs| ==> OnTime(buf, prev, rs, k)
    decreases |rs|
  {
    hide Expecting, OnTime, StaleByteHarmless, Call;
    OnTimeFirst(buf, prev, rs);
    Expected(buf, prev, rs);
    if rs != [] {
      var harmless := FirstOnTime(buf, prev, rs);
      if harmless {
        var o := Call(buf, prev, rs[0].io, rs[0].n);
        OnTimeNext(buf, prev, rs, 0);
        RunExact(o.buf, o.prev, rs[1..]);
        forall k | 0 <= k < |rs|
          ensures OnTime(buf, prev, rs, k + 1) <==> OnTime(o.buf, o.prev, rs[1..], k)
        {
          OnTimeNext(buf, prev, rs, k);
        }
        OnTimeShift(buf, prev, rs, o);
      }
    }
  }

  lemma OnTimeShift(buf: seq<Byte>, prev: nat, rs: seq<Receive>, o: Outcome)
    requires Expecting(buf, prev, rs) && rs != [] && o.Done? && Expecting(o.buf, o.prev, rs[1..]) && OnTime(buf, prev, rs, 0)
    requires forall k :: 0 <= k < |rs| ==> (OnTime(buf, prev, rs, k + 1) <==> OnTime(o.buf, o.prev, rs[1..], k))
    ensures (forall k :: 0 <= k <= |rs| ==> OnTime(buf, prev, rs, k)) <==> (forall k :: 0 <= k <= |rs[1..]| ==> OnTime(o.buf, o.prev, rs[1..], k))
  {
    hide Expecting, OnTime;
    if forall k :: 0 <= k <= |rs[1..]| ==> OnTime(o.buf, o.prev, rs[1..], k) {
      forall k | 0 <= k <= |rs|
        ensures OnTime(buf, prev, rs, k)
      {
        if k > 0 {
          assert OnTime(o.buf, o.prev, rs[1..], k - 1);
        }
      }
    }
    if forall k :: 0 <= k <= |rs| ==> OnTime(buf, prev, rs, k) {
      forall k | 0 <= k <= |rs[1..]|
        ensures OnTime(o.buf, o.prev, rs[1..], k)
      {
        assert OnTime(buf, prev, rs, k + 1);
      }
    }
  }

  lemma FirstOnTime(buf: seq<Byte>, prev: nat, rs: seq<Receive>) returns (harmless: bool)
    requires Expecting(buf, prev, rs) && rs != []
    ensures WellFormed(buf[..prev] + rs[0].io[..rs[0].n])
    ensures harmless == StaleByteHarmless(buf, prev, rs[0].io, rs[0].n)
    ensures OnTime(buf, prev, rs, 1) <==> harmless
  {
    hide Split, WellFormed, Construct, Call, StaleByteHarmless, Expecting;
    assert |buf| == MAX_PACKET_SIZE && prev <= MAX_PACKET_SIZE && Legal(rs) by { Expected(buf, prev, rs); }
    FirstCall(buf, prev, rs);
    var r := rs[0];
    var o := Call(buf, prev, r.io, r.n);
    assert rs[..1] == [r];
    assert Received([r]) == r.io[..r.n] + Received([r][1..]);
    assert Received([r]) == r.io[..r.n];
    assert [r][1..] == [];
    CallKeepsLength(buf, prev, r.io, r.n);
    assert o.Done? ==> Run(buf, prev, [r]) == Prepend(o.packets, Run(o.buf, o.prev, []));
    harmless := Delivers(o, Split(buf[..prev] + r.io[..r.n]));
  }

  lemma Expected(buf: seq<Byte>, prev: nat, rs: seq<Receive>)
    requires Expecting(buf, prev, rs)
    ensures |buf| == MAX_PACKET_SIZE && prev <= MAX_PACKET_SIZE && Legal(rs)
  {
  }

  /** Chunking does not matter: the packets handed on over the run are the frames of the whole
      stream in order, and the partial buffer holds its incomplete rest. */
  lemma ChunkingDoesNotMatter(buf: seq<Byte>, prev: nat, rs: seq<Receive>)
    requires Expecting(buf, prev, rs) && AlwaysHarmless(buf, prev, rs)
    ensures Delivers(Run(buf, prev, rs), Split(buf[..prev] + Received(rs)))
  {
    hide AlwaysHarmless, Split, Delivers, WellFormed;
    RunExact(buf, prev, rs);
    assert OnTime(buf, prev, rs, |rs|);
    assert rs[..|rs|] == rs;
  }

  /** Starting from a pending rest, no receive ends one byte into a frame. */
  ghost predicate NoHalfSize(t: seq<Byte>, rs: seq<Receive>)
    requires Legal(rs) && WellFormed(t + Received(rs))
    decreases |rs|
  {
    |t| != 1 &&
    (rs != [] ==>
       var c := rs[0].io[..rs[0].n];
       ReceivedCons(t, rs);
       NoHalfSize(Split(t + c).tail, rs[1..]))
  }

  /** A run none of whose receives ends in the middle of a size field is never harmed. */
  lemma {:induction false} WholeSizesHarmless(buf: seq<Byte>, prev: nat, rs: seq<Receive>)
    requires Expecting(buf, prev, rs) && NoHalfSize(buf[..prev], rs)
    ensures AlwaysHarmless(buf, prev, rs)
    decreases |rs|
  {
    hide Split, WellFormed, Received, Construct, Call;
    if rs != [] {
      FirstCall(buf, prev, rs);
      var o := Call(buf, prev, rs[0].io, rs[0].n);
      assert |Split(buf[..prev] + rs[0].io[..rs[0].n]).tail| != 1;
      WholeSizesHarmless(o.buf, o.prev, rs[1..]);
    }
  }

  /** The condition is needed: a three-byte frame cut after its first byte is not delivered
      when an earlier packet left a 1 in the second byte of the partial buffer. */
  lemma HalfSizeMisread(buf: seq<Byte>, io: seq<Byte>)
    requires |buf| == MAX_PACKET_SIZE && buf[0] == 3 && buf[1] == 1
    requires |io| == 3 && io[..2] == [0, 7]
    ensures WellFormed(buf[..1] + io[..2]) && Split(buf[..1] + io[..2]) == Parsed([[3, 0, 7]], [])
    ensures !Delivers(Call(buf, 1, io, 2), Split(buf[..1] + io[..2]))
  {
    hide Construct, Call, Delivers;
    var s := buf[..1] + io[..2];
    assert s == [3, 0, 7];
    assert FrameSize(s) == 3 && s[3..] == [] && s[..3] == s;
    assert io[0] == io[..2][0];
    CallExactOne(buf, io, 2);
  }

  /** memcpy between two buffers. */
  method CopyBytes(dst: array<Byte>, at: nat, src: array<Byte>, from: nat, k: nat)
    requires dst != src && at + k <= dst.Length && from + k <= src.Length
    modifies dst
    ensures dst[..] == Overlay(old(dst[..]), at, src[..][from..from + k])
  {
    forall i | 0 <= i < k {
      dst[at + i] := src[from + i];
    }
  }

  /** A connection's partial buffer. */
  class Connection {
    const packetBuf: array<Byte>
    var prevSize: nat

    ghost predicate Valid()
      reads this, packetBuf
    {
      packetBuf.Length == MAX_PACKET_SIZE && prevSize <= MAX_PACKET_SIZE && Incomplete(Pending())
    }

    ghost function Pending(): seq<Byte>
      requires packetBuf.Length == MAX_PACKET_SIZE && prevSize <= MAX_PACKET_SIZE
      reads this, packetBuf
    {
      packetBuf[..prevSize]
    }

    constructor ()
      ensures Valid() && Pending() == [] && fresh(packetBuf)
    {
      packetBuf := new Byte[MAX_PACKET_SIZE](_ => 0);
      prevSize := 0;
    }

    /** Appends the received bytes to the pending ones and hands on every packet that
        completes. */
    method PacketConstruct(io: array<Byte>, n: nat) returns (packets: seq<seq<Byte>>)
      requires Valid() && io != packetBuf && n <= io.Length && io.Length >= 2
      requires WellFormed(Pending() + io[..n])
      requires StaleByteHarmless(packetBuf[..], prevSize, io[..], n)
      modifies this`prevSize, packetBuf
      ensures Valid()
      ensures Parsed(packets, Pending()) == Split(old(Pending() + io[..n]))
    {
      ghost var stream := Pending() + io[..n];
      assert packetBuf[..][..prevSize] == Pending() && io[..][..n] == io[..n];
      CallExact(packetBuf[..], prevSize, io[..], n);
      SplitSound(stream);
      packets := Rebuild(io, n);
      assert packetBuf[..][..prevSize] == Pending();
    }

    /** The loop itself, on every input on which it stays inside its buffers. */
    method Rebuild(io: array<Byte>, n: nat) returns (packets: seq<seq<Byte>>)
      requires packetBuf.Length == MAX_PACKET_SIZE && prevSize <= MAX_PACKET_SIZE
      requires io != packetBuf && n <= io.Length
      requires Call(packetBuf[..], prevSize, io[..], n).Done?
      modifies this`prevSize, packetBuf
      ensures prevSize <= MAX_PACKET_SIZE
      ensures Done(packetBuf[..], prevSize, packets) == old(Call(packetBuf[..], prevSize, io[..], n))
    {
      hide Construct, Overlay;
      ghost var goal := Call(packetBuf[..], prevSize, io[..], n);
      ghost var bytes := io[..];
      packets := [];
      var p: nat, packetSize: nat := 0, 0;
      if prevSize != 0 {
        packetSize := SizeField(packetBuf[0], packetBuf[1]);
      }
      while p < n
        invariant p <= n <= io.Length && prevSize <= MAX_PACKET_SIZE == packetBuf.Length
        invariant io[..] == bytes
        invariant Prepend(packets, Construct(packetBuf[..], prevSize, bytes, p, n, packetSize)) == goal
        decreases n - p, prevSize
      {
        ghost var start, prev, size := packetBuf[..], prevSize, packetSize;
        ConstructStep(start, prev, bytes, p, n, size);
        if packetSize == 0 {
          packetSize := SizeField(io[p], io[p + 1]);
        }
        if packetSize <= n - p + prevSize {
          var k := packetSize - prevSize;
          CopyBytes(packetBuf, prevSize, io, p, k);
          PrependTwice(packets, [packetBuf[..packetSize]], Construct(packetBuf[..], 0, bytes, p + k, n, 0));
          assert packetBuf[..packetSize] == packetBuf[..][..packetSize];
          packets := packets + [packetBuf[..packetSize]];
          p := p + k;
          packetSize := 0;
          prevSize := 0;
        } else {
          CopyBytes(packetBuf, prevSize, io, p, n - p);
          prevSize := prevSize + (n - p);
          p := n;
          NothingLeft(packetBuf[..], prevSize, bytes, n, packetSize);
        }
      }
      NothingLeft(packetBuf[..], prevSize, bytes, n, packetSize);
    }
  }

  lemma NothingLeft(buf: seq<Byte>, prev: nat, io: seq<Byte>, n: nat, size: nat)
    requires |buf| == MAX_PACKET_SIZE && prev <= MAX_PACKET_SIZE && n <= |io|
    ensures Construct(buf, prev, io, n, n, size) == Done(buf, prev, [])
  {
  }

  /** One unfolding of the loop that does not break. */
  lemma ConstructStep(buf: seq<Byte>, prev: nat, io: seq<Byte>, p: nat, n: nat, size: nat)
    requires |buf| == MAX_PACKET_SIZE && prev <= MAX_PACKET_SIZE
    requires p < n <= |io|
    requires Construct(buf, prev, io, p, n, size).Done?
    ensures size == 0 ==> p + 1 < |io|
    ensures var size' := if size == 0 then SizeField(io[p], io[p + 1]) else size;
            if size' <= n - p + prev then
              0 < size' <= MAX_PACKET_SIZE && prev <= size' &&
              var buf' := Overlay(buf, prev, io[p..p + (size' - prev)]);
              Construct(buf, prev, io, p, n, size)
              == Prepend([buf'[..size']], Construct(buf', 0, io, p + (size' - prev), n, 0))
            else
              prev + (n - p) <= MAX_PACKET_SIZE &&
              Construct(buf, prev, io, p, n, size) == Done(Overlay(buf, prev, io[p..n]), prev + (n - p), [])
  {
  }

  lemma PrependTwice(a: seq<seq<Byte>>, b: seq<seq<Byte>>, o: Outcome)
    ensures Prepend(a, Prepend(b, o)) == Prepend(a + b, o)
  {
    if o.Done? {
      assert a + (b + o.packets) == a + b + o.packets;
    }
  }
}

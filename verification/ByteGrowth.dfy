/** How the byte stream's buffer grows in 32-bit arithmetic, and how much growing moves. */
module ByteGrowth {
  import opened Basics

  /** From this capacity on doubling wraps around. */
  const HALF: nat := 0x8000_0000

  /** The buffer as numbers: capacity and head, the bytes moved by growing so far, and how often
      doubling has wrapped. */
  datatype Growth = Growth(capacity: nat, head: nat, moved: nat, wrapped: nat)

  function Start(capacity: nat): Growth { Growth(capacity, 0, 0, 0) }

  /** The capacity the buffer is grown to when a write that ends at `next` finds it too small. */
  function NewCapacity(capacity: nat, next: nat): nat { Max((2 * capacity) % UINT32_LIMIT, next) }

  /** A write of n bytes. */
  function Step(g: Growth, n: nat): Growth {
    if g.head + n > g.capacity then
      Growth(NewCapacity(g.capacity, g.head + n), g.head + n, g.moved + g.capacity,
             if g.capacity < HALF then g.wrapped else g.wrapped + 1)
    else g.(head := g.head + n)
  }

  /** A grown buffer always has room for the write: doubling if it does not wrap, exactly the
      write's end if it does. */
  lemma GrownCapacity(capacity: nat, next: nat)
    requires capacity < next < UINT32_LIMIT
    ensures NewCapacity(capacity, next) == if capacity < HALF then Max(2 * capacity, next) else next
  {
    if capacity < HALF {
      assert (2 * capacity) % UINT32_LIMIT == 2 * capacity;
    } else {
      assert (2 * capacity) % UINT32_LIMIT == 2 * capacity - UINT32_LIMIT;
    }
  }

  /** Growing has moved less than twice what was written. */
  ghost predicate Bounded(g: Growth) { g.moved == 0 || g.moved < 2 * g.head }

  /** The states that writes lead to. Once doubling has wrapped the buffer is always full. */
  ghost predicate Reached(g: Growth) {
    g.head <= g.capacity < UINT32_LIMIT &&
    (g.wrapped == 0 ==> g.moved <= g.capacity) &&
    (g.wrapped <= 1 ==> Bounded(g)) &&
    (g.wrapped >= 1 ==> g.capacity == g.head >= HALF && g.moved >= g.wrapped * HALF)
  }

  /** Every write keeps to these states; afterwards the bound holds if and only if doubling has not
      wrapped before this write, or nothing was written and it held, or the write is longer than
      half of what was moved beyond the head. */
  lemma StepBounded(g: Growth, n: nat)
    requires Reached(g) && g.head + n < UINT32_LIMIT
    ensures Reached(Step(g, n))
    ensures Bounded(Step(g, n)) <==> g.wrapped == 0 || (n == 0 && Bounded(g)) || (n > 0 && g.moved < g.head + 2 * n)
  {
    hide NewCapacity;
    if g.head + n > g.capacity {
      GrownCapacity(g.capacity, g.head + n);
      assert (g.wrapped + 1) * HALF == g.wrapped * HALF + HALF;
    }
  }

  // ---- Runs ----

  function Run(g: Growth, ns: seq<nat>): Growth {
    if ns == [] then g else Step(Run(g, ns[..|ns| - 1]), ns[|ns| - 1])
  }

  function Sum(ns: seq<nat>): nat { if ns == [] then 0 else Sum(ns[..|ns| - 1]) + ns[|ns| - 1] }

  lemma {:induction false} RunReached(g: Growth, ns: seq<nat>)
    requires Reached(g) && g.head + Sum(ns) < UINT32_LIMIT
    ensures Reached(Run(g, ns)) && Run(g, ns).head == g.head + Sum(ns)
  {
    hide Reached, NewCapacity;
    if ns != [] {
      RunReached(g, ns[..|ns| - 1]);
      StepBounded(Run(g, ns[..|ns| - 1]), ns[|ns| - 1]);
    }
  }

  /** From a fresh stream: while doubling has wrapped at most once, growing has moved less than
      twice what was written; after four wraps it never has again. */
  lemma RunBounded(capacity: nat, ns: seq<nat>)
    requires capacity < UINT32_LIMIT && Sum(ns) < UINT32_LIMIT
    ensures var g := Run(Start(capacity), ns);
            (g.wrapped <= 1 ==> Bounded(g)) && (g.wrapped >= 4 ==> !Bounded(g)) && (Sum(ns) <= HALF && capacity < HALF ==> g.wrapped == 0)
  {
    hide Run, Sum;
    RunReached(Start(capacity), ns);
    var g := Run(Start(capacity), ns);
    if g.wrapped >= 4 {
      assert g.wrapped * HALF >= 4 * HALF;
    }
    if Sum(ns) <= HALF && capacity < HALF {
      NoWrap(Start(capacity), ns);
    }
  }

  /** Doubling wraps only when a buffer of 2^31 bytes is too small. */
  lemma {:induction false} NoWrap(g: Growth, ns: seq<nat>)
    requires Reached(g) && g.wrapped == 0 && g.head + Sum(ns) <= HALF
    ensures Run(g, ns).wrapped == 0
  {
    hide NewCapacity, Reached;
    if ns != [] {
      NoWrap(g, ns[..|ns| - 1]);
      RunReached(g, ns[..|ns| - 1]);
    }
  }

  // ---- Streams of packets ----

  /** No packet, and no stream the server opens, is longer than this at first. */
  const LONGEST: nat := 2048

  /** What writes of packet length lead to: all earlier buffers together are about as large as the
      present one, so the second wrapped growth is already too much. */
  ghost predicate Packed(g: Growth) {
    Reached(g) &&
    (g.wrapped == 0 ==> g.capacity <= 2 * g.moved + LONGEST) &&
    (g.wrapped == 1 ==> g.moved >= g.head + 2 * LONGEST) &&
    (g.wrapped >= 2 ==> g.moved >= 2 * g.head)
  }

  lemma StepPacked(g: Growth, n: nat)
    requires Packed(g) && n <= LONGEST && g.head + n < UINT32_LIMIT
    ensures Packed(Step(g, n))
  {
    hide NewCapacity, Reached;
    StepBounded(g, n);
    Inside(g);
    if g.head + n > g.capacity {
      GrownCapacity(g.capacity, g.head + n);
    }
  }

  lemma Inside(g: Growth)
    requires Reached(g)
    ensures g.head <= g.capacity && (g.wrapped >= 1 ==> g.capacity == g.head >= HALF)
  {
  }

  lemma {:induction false} RunPacked(g: Growth, ns: seq<nat>)
    requires Packed(g) && g.head + Sum(ns) < UINT32_LIMIT && forall i :: 0 <= i < |ns| ==> ns[i] <= LONGEST
    ensures Packed(Run(g, ns)) && Run(g, ns).head == g.head + Sum(ns)
  {
    hide Packed, NewCapacity;
    if ns != [] {
      RunPacked(g, ns[..|ns| - 1]);
      StepPacked(Run(g, ns[..|ns| - 1]), ns[|ns| - 1]);
    }
  }

  /** For a stream of packets below 2^32 bytes growing has moved less than twice what was written
      if and only if doubling has wrapped at most once. */
  lemma PacketsBounded(capacity: nat, ns: seq<nat>)
    requires capacity <= LONGEST && Sum(ns) < UINT32_LIMIT && forall i :: 0 <= i < |ns| ==> ns[i] <= LONGEST
    ensures Bounded(Run(Start(capacity), ns)) <==> Run(Start(capacity), ns).wrapped <= 1
  {
    hide Run, Sum;
    RunPacked(Start(capacity), ns);
  }

  /** A full buffer of 2^31 bytes and two writes of one byte: the bound survives only if next to
      nothing had been moved before. */
  lemma TwoMoreBytes(moved: nat)
    requires Bounded(Growth(HALF, HALF, moved, 0))
    ensures Bounded(Step(Step(Growth(HALF, HALF, moved, 0), 1), 1)) <==> moved <= 2
  {
    var g := Growth(HALF, HALF, moved, 0);
    GrownCapacity(HALF, HALF + 1);
    GrownCapacity(HALF + 1, HALF + 2);
    assert Step(g, 1) == Growth(HALF + 1, HALF + 1, moved + HALF, 1);
    assert Step(Step(g, 1), 1) == Growth(HALF + 2, HALF + 2, moved + HALF + (HALF + 1), 2);
  }

  /** A stream of the default capacity reaches such a buffer with one write, and then breaks the
      bound. */
  lemma BoundBreaks()
    ensures var g := Run(Start(32), [HALF, 1, 1]);
            g == Growth(HALF + 2, HALF + 2, 2 * HALF + 33, 2) && !Bounded(g)
  {
    hide NewCapacity;
    var ns := [HALF, 1, 1];
    assert ns[..2] == [HALF, 1] && [HALF, 1][..1] == [HALF] && [HALF][..0] == [];
    GrownCapacity(32, HALF);
    GrownCapacity(HALF, HALF + 1);
    GrownCapacity(HALF + 1, HALF + 2);
    assert Run(Start(32), [HALF]) == Growth(HALF, HALF, 32, 0);
    assert Run(Start(32), [HALF, 1]) == Growth(HALF + 1, HALF + 1, HALF + 32, 1);
  }
}

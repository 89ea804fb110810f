/** How the bit stream's buffer grows in 32-bit arithmetic, and which runs of writes it can hold. */
module BitGrowth {
  import opened Basics

  /** 1500 bytes. */
  const INITIAL_CAPACITY: nat := 12000
  /** The largest capacity that doubling reaches before a 32-bit capacity wraps around. */
  const DOUBLING_LIMIT: nat := 3145728000

  /** The capacity ReallocBuffer is asked for, with the wrap-around of 32-bit doubling. */
  function NewCapacity(capacity: nat, next: nat): nat {
    var doubled := (2 * capacity) % UINT32_LIMIT;
    if doubled < next then next else doubled
  }

  /** Doubling counts until it wraps; after that the capacity only just suffices. */
  lemma GrownCapacity(capacity: nat, next: nat)
    requires capacity < next < UINT32_LIMIT
    ensures NewCapacity(capacity, next) == if next <= 2 * capacity < UINT32_LIMIT then 2 * capacity else next
  {
    if 2 * capacity < UINT32_LIMIT {
      assert (2 * capacity) % UINT32_LIMIT == 2 * capacity;
    } else {
      assert (2 * capacity) % UINT32_LIMIT == 2 * capacity - UINT32_LIMIT;
    }
  }

  /** The buffer as one number each: capacity and head in bits, and the bits moved so far. */
  datatype Growth = Growth(capacity: nat, head: nat, moved: nat)

  const FRESH := Growth(INITIAL_CAPACITY, 0, 0)

  /** A write of n bits. */
  function Step(g: Growth, n: nat): Growth {
    if g.head + n > g.capacity then Growth(NewCapacity(g.capacity, g.head + n), g.head + n, g.moved + g.capacity)
    else Growth(g.capacity, g.head + n, g.moved)
  }

  /** A write of n bits, one to eight, finds its last byte inside the buffer, whose size in
      bytes is the capacity divided by 8 and rounded down. */
  predicate Found(g: Growth, n: nat) {
    (g.head + n - 1) / 8 < Step(g, n).capacity / 8
  }

  /** A write that ends at bit `next` finds its bytes inside the buffer. */
  predicate Fits(capacity: nat, next: nat) {
    next <= capacity || 2 * capacity < UINT32_LIMIT || next % 8 == 0
  }

  /** For a capacity of whole bytes, exactly these writes find their bytes. */
  lemma FitsExact(g: Growth, n: nat)
    requires 8 <= g.capacity < UINT32_LIMIT && g.capacity % 8 == 0
    requires g.head <= g.capacity && 1 <= n <= 8 && g.head + n < UINT32_LIMIT
    ensures Found(g, n) <==> Fits(g.capacity, g.head + n)
  {
    hide NewCapacity;
    if g.head + n > g.capacity {
      GrownCapacity(g.capacity, g.head + n);
    }
  }

  // ---- The states a stream can reach ----

  ghost predicate IsPower(capacity: nat) { exists k: nat :: capacity == INITIAL_CAPACITY * Pow2(k) }

  /** Only doubled so far, each time because the buffer was full. */
  ghost predicate Doubling(g: Growth) {
    IsPower(g.capacity) && g.head <= g.capacity <= DOUBLING_LIMIT &&
    g.moved == g.capacity - INITIAL_CAPACITY && (g.moved > 0 ==> g.capacity < 2 * g.head)
  }

  /** What m reallocations past the limit move, each by one byte. */
  function MovedPast(m: nat): nat { if m == 0 then 0 else MovedPast(m - 1) + DOUBLING_LIMIT + 8 * (m - 1) }

  /** Past the limit every write is a whole byte and fills the buffer exactly. */
  ghost predicate Tight(g: Growth) {
    g.head == g.capacity > DOUBLING_LIMIT && g.head % 8 == 0 &&
    g.moved == DOUBLING_LIMIT - INITIAL_CAPACITY + MovedPast((g.head - DOUBLING_LIMIT) / 8)
  }

  ghost predicate Reached(g: Growth) { Doubling(g) || Tight(g) }

  lemma {:induction false} PowersBelow(k: nat)
    ensures Pow2(k) >= 1
    ensures Pow2(18) == 262144
    ensures k >= 18 ==> Pow2(k) >= Pow2(18)
    ensures k <= 17 ==> 2 * Pow2(k) <= Pow2(18)
  {
    assert Pow2(4) == 16 && Pow2(8) == 256 && Pow2(12) == 4096 && Pow2(16) == 65536;
    if k > 0 {
      PowersBelow(k - 1);
    }
  }

  lemma FreshReached()
    ensures Reached(FRESH)
  {
    assert INITIAL_CAPACITY == INITIAL_CAPACITY * Pow2(0);
  }

  /** A doubled capacity is the limit, or can be doubled again without passing it. */
  lemma NextPower(capacity: nat)
    requires IsPower(capacity) && capacity <= DOUBLING_LIMIT
    ensures 8 <= capacity && capacity % 8 == 0
    ensures capacity == DOUBLING_LIMIT || (2 * capacity <= DOUBLING_LIMIT && IsPower(2 * capacity))
  {
    var k: nat :| capacity == INITIAL_CAPACITY * Pow2(k);
    PowersBelow(k);
    assert 2 * capacity == INITIAL_CAPACITY * Pow2(k + 1);
    assert capacity == 8 * (1500 * Pow2(k));
    if k >= 18 {
      assert capacity >= INITIAL_CAPACITY * Pow2(18);
    }
  }

  /** In a reached state exactly the writes that end within the limit, or at a whole byte, find
      their bytes. */
  lemma StepFound(g: Growth, n: nat)
    requires Reached(g) && 1 <= n <= 8 && g.head + n < UINT32_LIMIT
    ensures 8 <= g.capacity < UINT32_LIMIT && g.capacity % 8 == 0 && g.head <= g.capacity
    ensures Found(g, n) <==> Fits(g.capacity, g.head + n)
    ensures Found(g, n) <==> g.head + n <= DOUBLING_LIMIT || (g.head + n) % 8 == 0
  {
    hide Found, NewCapacity, MovedPast, IsPower;
    if Doubling(g) {
      NextPower(g.capacity);
    }
    FitsExact(g, n);
  }

  lemma DoublingStep(g: Growth, n: nat)
    requires Doubling(g) && 1 <= n <= 8 && g.head + n <= DOUBLING_LIMIT
    ensures Doubling(Step(g, n))
  {
    hide NewCapacity, IsPower;
    if g.head + n > g.capacity {
      NextPower(g.capacity);
      GrownCapacity(g.capacity, g.head + n);
    }
  }

  /** Crossing the limit: the buffer was full. */
  lemma CrossingStep(g: Growth, n: nat)
    requires Doubling(g) && 1 <= n <= 8 && g.head + n > DOUBLING_LIMIT && (g.head + n) % 8 == 0
    ensures Tight(Step(g, n))
  {
    hide NewCapacity, IsPower;
    NextPower(g.capacity);
    assert g.head == DOUBLING_LIMIT == g.capacity && n == 8;
    GrownCapacity(g.capacity, g.head + n);
    assert MovedPast(1) == MovedPast(0) + DOUBLING_LIMIT;
  }

  lemma TightStep(g: Growth, n: nat)
    requires Tight(g) && 1 <= n <= 8 && g.head + n < UINT32_LIMIT && (g.head + n) % 8 == 0
    ensures Tight(Step(g, n))
  {
    hide NewCapacity;
    assert n == 8;
    GrownCapacity(g.capacity, g.head + n);
    var m := (g.head - DOUBLING_LIMIT) / 8;
    assert g.head == DOUBLING_LIMIT + 8 * m && (g.head + n - DOUBLING_LIMIT) / 8 == m + 1;
    assert MovedPast(m + 1) == MovedPast(m) + DOUBLING_LIMIT + 8 * m;
  }

  lemma StepReached(g: Growth, n: nat)
    requires Reached(g) && 1 <= n <= 8 && g.head + n < UINT32_LIMIT && Found(g, n)
    ensures Reached(Step(g, n))
  {
    hide Found, Step, Tight;
    StepFound(g, n);
    if !Doubling(g) {
      assert g.head > DOUBLING_LIMIT by { TightHead(g); }
      TightStep(g, n);
    } else if g.head + n <= DOUBLING_LIMIT {
      DoublingStep(g, n);
    } else {
      CrossingStep(g, n);
    }
  }

  lemma TightHead(g: Growth)
    requires Tight(g)
    ensures g.head > DOUBLING_LIMIT
  {
  }

  // ---- Runs of writes ----

  function Run(g: Growth, ns: seq<nat>): Growth
    decreases |ns|
  {
    if ns == [] then g else Run(Step(g, ns[0]), ns[1..])
  }

  ghost predicate AllFound(g: Growth, ns: seq<nat>)
    decreases |ns|
  {
    ns == [] || (Found(g, ns[0]) && AllFound(Step(g, ns[0]), ns[1..]))
  }

  /** Every write that ends above the limit ends at a whole byte. */
  predicate AlignedAbove(head: nat, ns: seq<nat>)
    decreases |ns|
  {
    ns == [] || ((head + ns[0] <= DOUBLING_LIMIT || (head + ns[0]) % 8 == 0) && AlignedAbove(head + ns[0], ns[1..]))
  }

  function Sum(ns: seq<nat>): nat { if ns == [] then 0 else ns[0] + Sum(ns[1..]) }

  ghost predicate ByteWrites(ns: seq<nat>) { forall i :: 0 <= i < |ns| ==> 1 <= ns[i] <= 8 }

  /** Every write of a run finds its bytes if and only if those above the limit end at whole
      bytes; it takes the head as far as the sum. */
  lemma {:induction false} RunExact(g: Growth, ns: seq<nat>)
    requires Reached(g) && ByteWrites(ns) && g.head + Sum(ns) < UINT32_LIMIT
    ensures AllFound(g, ns) <==> AlignedAbove(g.head, ns)
    ensures AllFound(g, ns) ==> Reached(Run(g, ns)) && Run(g, ns).head == g.head + Sum(ns)
    decreases |ns|
  {
    hide Found, Reached;
    if ns != [] {
      StepFound(g, ns[0]);
      if Found(g, ns[0]) {
        StepReached(g, ns[0]);
        assert ByteWrites(ns[1..]);
        StepHead(g, ns[0]);
        RunExact(Step(g, ns[0]), ns[1..]);
      }
    }
  }

  lemma StepHead(g: Growth, n: nat)
    ensures Step(g, n).head == g.head + n
  {
  }

  /** One write beyond a full buffer of the limit's size is the first that can fail: a single bit
      more does. */
  lemma OneBitTooMany(ns: seq<nat>)
    requires ByteWrites(ns) && Sum(ns) == DOUBLING_LIMIT && AlignedAbove(0, ns)
    ensures AllFound(FRESH, ns) && !Found(Run(FRESH, ns), 1) && !Fits(Run(FRESH, ns).capacity, DOUBLING_LIMIT + 1)
  {
    hide Found, Reached, AlignedAbove, AllFound, Run;
    FreshReached();
    RunExact(FRESH, ns);
    StepFound(Run(FRESH, ns), 1);
  }

  // ---- Calls of any length ----

  /** The byte writes of one call: whole bytes, then the rest. */
  function Pieces(count: nat): (ns: seq<nat>)
    ensures ByteWrites(ns)
  {
    if count == 0 then [] else if count <= 8 then [count] else [8] + Pieces(count - 8)
  }

  /** A call that starts at `head`: it ends within the limit, or starts and ends at whole bytes. */
  predicate CallAligned(head: nat, count: nat) {
    count == 0 || head + count <= DOUBLING_LIMIT || (head % 8 == 0 && (head + count) % 8 == 0)
  }

  /** A head within the limit or at a whole byte: all that aligned calls lead to. */
  predicate Usable(head: nat) { head <= DOUBLING_LIMIT || head % 8 == 0 }

  /** A call of more than a byte is aligned if its first byte and its rest are. */
  lemma CallStep(head: nat, count: nat)
    requires Usable(head) && count > 8
    ensures CallAligned(head, count) <==> Usable(head + 8) && CallAligned(head + 8, count - 8)
  {
    assert (head + 8) % 8 == head % 8;
  }

  lemma CallOnce(head: nat, count: nat)
    requires Usable(head) && 1 <= count <= 8
    ensures CallAligned(head, count) <==> Usable(head + count)
  {
  }

  lemma {:induction false} CallExact(head: nat, count: nat)
    requires Usable(head)
    ensures Sum(Pieces(count)) == count
    ensures AlignedAbove(head, Pieces(count)) <==> CallAligned(head, count)
    ensures CallAligned(head, count) ==> Usable(head + count)
    decreases count
  {
    hide CallAligned, AlignedAbove, Sum;
    var ns := Pieces(count);
    if count > 8 {
      assert ns[1..] == Pieces(count - 8);
      FirstPiece(head, ns);
      CallStep(head, count);
      if Usable(head + 8) {
        CallExact(head + 8, count - 8);
      } else {
        SumOfPieces(count - 8);
      }
    } else if count > 0 {
      assert ns == [count] && ns[1..] == [];
      FirstPiece(head, ns);
      Nothing(head + count);
      CallOnce(head, count);
    } else {
      Nothing(head);
      NoCall(head);
    }
  }

  lemma NoCall(head: nat)
    ensures CallAligned(head, 0)
  {
  }

  lemma FirstPiece(head: nat, ns: seq<nat>)
    requires ns != []
    ensures AlignedAbove(head, ns) <==> Usable(head + ns[0]) && AlignedAbove(head + ns[0], ns[1..])
    ensures Sum(ns) == ns[0] + Sum(ns[1..])
  {
  }

  lemma {:induction false} SumOfPieces(count: nat)
    ensures Sum(Pieces(count)) == count
    decreases count
  {
    var ns := Pieces(count);
    if count > 8 {
      assert ns[1..] == Pieces(count - 8);
      SumOfPieces(count - 8);
    } else if count > 0 {
      assert ns[1..] == [];
    }
  }

  lemma NoRun(g: Growth)
    ensures Run(g, Pieces(0)) == g
  {
  }

  /** The next byte write of an aligned call in a reached state. */
  lemma NextWrite(g: Growth, count: nat)
    requires Reached(g) && count > 0 && CallAligned(g.head, count) && g.head + count < UINT32_LIMIT
    ensures var n := if count < 8 then count else 8;
            Fits(g.capacity, g.head + n) && Reached(Step(g, n)) && Step(g, n).head == g.head + n &&
            CallAligned(g.head + n, count - n) && Run(g, Pieces(count)) == Run(Step(g, n), Pieces(count - n))
  {
    hide Found, Step, Reached, Fits, CallAligned;
    var n := if count < 8 then count else 8;
    ReachedUsable(g);
    if count > 8 {
      CallStep(g.head, count);
    } else {
      CallOnce(g.head, count);
      NoCall(g.head + n);
    }
    StepFound(g, n);
    StepReached(g, n);
    StepHead(g, n);
    assert Pieces(count)[1..] == Pieces(count - n);
  }

  lemma ReachedUsable(g: Growth)
    requires Reached(g)
    ensures Usable(g.head)
  {
  }

  function Total(counts: seq<nat>): nat {
    if counts == [] then 0 else Total(counts[..|counts| - 1]) + counts[|counts| - 1]
  }

  function AllPieces(counts: seq<nat>): (ns: seq<nat>)
    ensures ByteWrites(ns)
  {
    if counts == [] then [] else AllPieces(counts[..|counts| - 1]) + Pieces(counts[|counts| - 1])
  }

  predicate CallsAligned(counts: seq<nat>) {
    counts == [] ||
    (CallsAligned(counts[..|counts| - 1]) && CallAligned(Total(counts[..|counts| - 1]), counts[|counts| - 1]))
  }

  lemma {:induction false} AlignedAppend(head: nat, a: seq<nat>, b: seq<nat>)
    ensures Sum(a + b) == Sum(a) + Sum(b)
    ensures AlignedAbove(head, a + b) <==> AlignedAbove(head, a) && AlignedAbove(head + Sum(a), b)
    decreases |a|
  {
    if a == [] {
      assert a + b == b;
    } else {
      assert (a + b)[1..] == a[1..] + b;
      AlignedAppend(head + a[0], a[1..], b);
    }
  }

  lemma {:induction false} PiecesAligned(counts: seq<nat>)
    ensures Sum(AllPieces(counts)) == Total(counts)
    ensures AlignedAbove(0, AllPieces(counts)) <==> CallsAligned(counts)
    ensures CallsAligned(counts) ==> Usable(Total(counts))
  {
    hide AlignedAbove, Sum, Pieces, CallAligned, Usable;
    if counts != [] {
      var last := |counts| - 1;
      PiecesAligned(counts[..last]);
      AlignedAppend(0, AllPieces(counts[..last]), Pieces(counts[last]));
      SumOfPieces(counts[last]);
      if CallsAligned(counts[..last]) {
        CallExact(Total(counts[..last]), counts[last]);
      }
    } else {
      Nothing(0);
    }
  }

  lemma Nothing(head: nat)
    ensures Sum([]) == 0 && AlignedAbove(head, []) && Usable(0)
  {
  }

  /** From a fresh stream, a run of calls below 2^32 bits finds all its bytes if and only if every
      call that ends above the limit starts and ends at a whole byte. */
  lemma CallsExact(counts: seq<nat>)
    requires Total(counts) < UINT32_LIMIT
    ensures AllFound(FRESH, AllPieces(counts)) <==> CallsAligned(counts)
  {
    hide AllFound, Reached, AlignedAbove, CallsAligned, Sum;
    FreshReached();
    PiecesAligned(counts);
    RunExact(FRESH, AllPieces(counts));
  }

  /** A full stream of the limit's size and one more bit: the last write misses the buffer. */
  lemma WrappingRunFails()
    ensures !AllFound(FRESH, AllPieces([DOUBLING_LIMIT, 1]))
  {
    var counts := [DOUBLING_LIMIT, 1];
    assert counts[..1] == [DOUBLING_LIMIT] && [DOUBLING_LIMIT][..0] == [];
    assert Total([DOUBLING_LIMIT]) == DOUBLING_LIMIT;
    hide AllPieces;
    CallsExact(counts);
  }

  // ---- What growing moves ----

  lemma {:induction false} MovedPastSize(m: nat)
    ensures MovedPast(m) >= m * DOUBLING_LIMIT
  {
    if m > 0 {
      MovedPastSize(m - 1);
    }
  }

  /** The bits moved by growing stay below twice the bits written as long as the head is at most
      one byte past the limit, and no longer. */
  lemma MovedExact(g: Growth)
    requires Reached(g) && g.head < UINT32_LIMIT
    ensures g.moved == 0 || g.moved < 2 * g.head <==> g.head <= DOUBLING_LIMIT + 8
  {
    hide IsPower;
    if Tight(g) {
      var m := (g.head - DOUBLING_LIMIT) / 8;
      assert g.head == DOUBLING_LIMIT + 8 * m;
      MovedPastSize(m);
      if m == 1 {
        assert MovedPast(1) == DOUBLING_LIMIT;
      } else {
        assert m * DOUBLING_LIMIT == 2 * DOUBLING_LIMIT + (m - 2) * DOUBLING_LIMIT;
        assert (m - 2) * DOUBLING_LIMIT >= (m - 2) * 16;
      }
    }
  }

  /** Two whole bytes past the limit growing has moved too much. */
  lemma MovingBreaks()
    ensures var ns, g := Pieces(DOUBLING_LIMIT + 16), Run(FRESH, Pieces(DOUBLING_LIMIT + 16));
            AllFound(FRESH, ns) && g.head == DOUBLING_LIMIT + 16 && g.moved > 0 && g.moved >= 2 * g.head
  {
    hide AllFound, Run, Pieces, AlignedAbove, Reached;
    FreshReached();
    CallExact(0, DOUBLING_LIMIT + 16);
    RunExact(FRESH, Pieces(DOUBLING_LIMIT + 16));
    MovedExact(Run(FRESH, Pieces(DOUBLING_LIMIT + 16)));
  }
}

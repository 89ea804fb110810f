/** What every inventory operation does to a client's sixteen slots, and what it conserves. */
module InventorySpec {
  import opened Basics
  import opened Items

  const SLOT_COUNT: nat := MAX_USING_ITEM_COUNT + MAX_UN_USING_ITEM_COUNT
  const MAX_UPGRADE: nat := 2

  /** A slot: its relic, and the activation weight and number it keeps for ever. */
  datatype Slot = Slot(code: nat, upgrade: nat, percent: nat, number: nat) {
    predicate Free() { code == EMPTY_ITEM }

    function Holding(newCode: nat, newUpgrade: nat): Slot { Slot(newCode, newUpgrade, percent, number) }

    function Emptied(): Slot { Holding(EMPTY_ITEM, 0) }
  }

  /** Slots 0 to 5 are equipped, 6 to 15 are stored. */
  ghost predicate Good(s: seq<Slot>) {
    |s| == SLOT_COUNT && forall i :: 0 <= i < |s| ==> GoodSlot(s[i])
  }

  /** A free slot has upgrade 0, and nothing is upgraded more than twice. */
  ghost predicate GoodSlot(x: Slot) {
    x.code < ITEM_CODES && x.upgrade <= MAX_UPGRADE && (x.Free() ==> x.upgrade == 0)
  }

  /** Numbers and activation weights are where they were. */
  ghost predicate SameFrame(s: seq<Slot>, s': seq<Slot>) {
    |s| == |s'| && forall i :: 0 <= i < |s| ==> s'[i].percent == s[i].percent && s'[i].number == s[i].number
  }

  // ---- What a relic is worth ----

  /** An upgraded relic is worth the 2^upgrade plain ones that went into it. */
  function Share(x: Slot, code: nat): nat { if x.code == code then Pow2(x.upgrade) else 0 }

  function Weight(s: seq<Slot>, code: nat): nat {
    if s == [] then 0 else Weight(s[..|s| - 1], code) + Share(s[|s| - 1], code)
  }

  lemma {:induction false} WeightUpdate(s: seq<Slot>, i: nat, x: Slot, code: nat)
    requires i < |s|
    ensures Weight(s[i := x], code) == Weight(s, code) - Share(s[i], code) + Share(x, code)
  {
    var last := |s| - 1;
    if i == last {
      assert s[i := x][..last] == s[..last];
    } else {
      assert s[i := x][..last] == s[..last][i := x];
      WeightUpdate(s[..last], i, x, code);
    }
  }

  // ---- The operations ----

  function Swapped(s: seq<Slot>, i: nat, j: nat): seq<Slot>
    requires i < |s| && j < |s|
  {
    s[i := s[i].Holding(s[j].code, s[j].upgrade)][j := s[j].Holding(s[i].code, s[i].upgrade)]
  }

  /** The first free slot from `from` on, or `to`. */
  function FreeFrom(s: seq<Slot>, from: nat, to: nat): (k: nat)
    requires from <= to <= |s|
    ensures from <= k <= to
    ensures forall i :: from <= i < k ==> !s[i].Free()
    ensures k < to ==> s[k].Free()
    decreases |s| - from
  {
    if from == to || s[from].Free() then from else FreeFrom(s, from + 1, to)
  }

  /** Storage is searched first, then the equipped slots; SLOT_COUNT when everything is taken. */
  function FirstFree(s: seq<Slot>): (k: nat)
    requires |s| == SLOT_COUNT
    ensures k <= SLOT_COUNT
    ensures k < SLOT_COUNT ==> s[k].Free()
    ensures k == SLOT_COUNT <==> forall i :: 0 <= i < |s| ==> !s[i].Free()
    ensures k < MAX_USING_ITEM_COUNT ==> forall i :: MAX_USING_ITEM_COUNT <= i < SLOT_COUNT ==> !s[i].Free()
    ensures forall i :: (if k < MAX_USING_ITEM_COUNT then 0 else MAX_USING_ITEM_COUNT) <= i < k ==> !s[i].Free()
  {
    var stored := FreeFrom(s, MAX_USING_ITEM_COUNT, SLOT_COUNT);
    if stored < SLOT_COUNT then stored
    else
      var equipped := FreeFrom(s, 0, MAX_USING_ITEM_COUNT);
      if equipped < MAX_USING_ITEM_COUNT then equipped else SLOT_COUNT
  }

  /** A new relic goes to the first free slot; its upgrade is not touched. */
  function Added(s: seq<Slot>, code: nat): seq<Slot>
    requires |s| == SLOT_COUNT
  {
    var k := FirstFree(s);
    if k < SLOT_COUNT then s[k := s[k].Holding(code, s[k].upgrade)] else s
  }

  function Dropped(s: seq<Slot>, i: nat): seq<Slot>
    requires i < |s|
  {
    if s[i].Free() then s else s[i := s[i].Emptied()]
  }

  /** Two different slots with the same relic at the same level below the highest. */
  predicate CanUpgrade(s: seq<Slot>, i: nat, j: nat)
    requires i < |s| && j < |s|
  {
    i != j && s[i].code == s[j].code && !s[i].Free() && s[i].upgrade == s[j].upgrade && s[i].upgrade < MAX_UPGRADE
  }

  function Upgraded(s: seq<Slot>, i: nat, j: nat): seq<Slot>
    requires i < |s| && j < |s|
  {
    if CanUpgrade(s, i, j) then
      s[i := s[i].Holding(s[i].code, s[i].upgrade + 1)][j := s[j].Emptied()]
    else s
  }

  /** The first of the draws that is none of the three, or the last draw. */
  function FreshDraw(draws: seq<nat>, a: nat, b: nat, c: nat): (code: nat)
    requires draws != []
    ensures code in draws
    ensures code == a || code == b || code == c ==> forall d :: d in draws ==> d == a || d == b || d == c
  {
    assert draws == [draws[0]] + draws[1..];
    if (draws[0] != a && draws[0] != b && draws[0] != c) || |draws| == 1 then draws[0] else FreshDraw(draws[1..], a, b, c)
  }

  function AllEmptied(s: seq<Slot>, i: nat, j: nat, k: nat): seq<Slot>
    requires i < |s| && j < |s| && k < |s|
  {
    s[i := s[i].Emptied()][j := s[j].Emptied()][k := s[k].Emptied()]
  }

  /** Three relics for one new one; nothing asks for three different slots. */
  function Combined(s: seq<Slot>, i: nat, j: nat, k: nat, draws: seq<nat>): (s': seq<Slot>)
    requires |s| == SLOT_COUNT && i < |s| && j < |s| && k < |s| && draws != []
    ensures |s'| == SLOT_COUNT
  {
    if s[i].Free() || s[j].Free() || s[k].Free() then s
    else
      var emptied := AllEmptied(s, i, j, k);
      var free := FirstFree(emptied);
      assert emptied[i].Free();
      emptied[free := emptied[free].Holding(FreshDraw(draws, s[i].code, s[j].code, s[k].code), 0)]
  }

  // ---- Slot by slot ----

  /** Nothing but these slots differs. */
  ghost predicate OnlyAt(s: seq<Slot>, s': seq<Slot>, places: set<int>) {
    |s'| == |s| && forall i :: 0 <= i < |s| && i !in places ==> s'[i] == s[i]
  }

  ghost predicate Holds(s: seq<Slot>, i: nat, code: nat, upgrade: nat)
    requires i < |s|
  {
    s[i].code == code && s[i].upgrade == upgrade
  }

  lemma SwapLaw(s: seq<Slot>, i: nat, j: nat)
    requires i < |s| && j < |s|
    ensures var s' := Swapped(s, i, j);
            OnlyAt(s, s', {i, j}) && SameFrame(s, s') && Holds(s', i, s[j].code, s[j].upgrade) && Holds(s', j, s[i].code, s[i].upgrade)
  {
  }

  lemma DropLaw(s: seq<Slot>, i: nat)
    requires Good(s) && i < |s|
    ensures var s' := Dropped(s, i); OnlyAt(s, s', {i}) && SameFrame(s, s') && Holds(s', i, EMPTY_ITEM, 0)
  {
  }

  /** The first slot keeps the relic, one level higher, and the second is free; every other
      request changes nothing. */
  lemma UpgradeLaw(s: seq<Slot>, i: nat, j: nat)
    requires i < |s| && j < |s|
    ensures var s' := Upgraded(s, i, j);
            OnlyAt(s, s', {i, j}) && SameFrame(s, s') &&
            if i != j && s[i].code == s[j].code != EMPTY_ITEM && s[i].upgrade == s[j].upgrade < MAX_UPGRADE then
              Holds(s', i, s[i].code, s[i].upgrade + 1) && Holds(s', j, EMPTY_ITEM, 0)
            else s' == s
  {
  }

  /** A new relic goes to the first free stored slot, or with none to the first free equipped one. */
  lemma AddLaw(s: seq<Slot>, code: nat)
    requires Good(s)
    ensures var s', k := Added(s, code), FirstFree(s);
            if k < SLOT_COUNT then s[k].Free() && OnlyAt(s, s', {k}) && SameFrame(s, s') && Holds(s', k, code, 0) else s' == s
  {
  }

  /** The three slots are emptied and the new relic, at level zero, goes to the first free slot
      then. */
  lemma CombineLaw(s: seq<Slot>, i: nat, j: nat, k: nat, draws: seq<nat>)
    requires |s| == SLOT_COUNT && i < |s| && j < |s| && k < |s| && draws != []
    requires !s[i].Free() && !s[j].Free() && !s[k].Free()
    ensures exists empty: seq<Slot> ::
              OnlyAt(s, empty, {i, j, k}) && SameFrame(s, empty) &&
              Holds(empty, i, EMPTY_ITEM, 0) && Holds(empty, j, EMPTY_ITEM, 0) && Holds(empty, k, EMPTY_ITEM, 0) &&
              var s', free := Combined(s, i, j, k, draws), FirstFree(empty);
              free < SLOT_COUNT && OnlyAt(empty, s', {free}) && SameFrame(empty, s') &&
              Holds(s', free, FreshDraw(draws, s[i].code, s[j].code, s[k].code), 0)
  {
    var empty := AllEmptied(s, i, j, k);
    assert Holds(empty, i, EMPTY_ITEM, 0) && Holds(empty, j, EMPTY_ITEM, 0) && Holds(empty, k, EMPTY_ITEM, 0);
    assert empty[i].Free();
  }

  // ---- Default equipment ----

  ghost predicate ExactlyFirst(s: seq<Slot>, n: nat, picks: seq<nat>)
    requires MAX_USING_ITEM_COUNT <= n <= |s| && forall m :: 0 <= m < |picks| ==> MAX_USING_ITEM_COUNT <= picks[m] < n
  {
    (forall m :: 0 <= m < |picks| ==> IsFirst(s, picks[m])) &&
    (forall m, l :: 0 <= m < l < |picks| ==> picks[m] < picks[l]) &&
    (forall p :: MAX_USING_ITEM_COUNT <= p < n && IsFirst(s, p) ==> p in picks)
  }

  ghost predicate ExactlyTaken(s: seq<Slot>, n: nat, places: seq<nat>)
    requires MAX_USING_ITEM_COUNT <= n <= |s| && forall v :: 0 <= v < |places| ==> MAX_USING_ITEM_COUNT <= places[v] < n
  {
    (forall v :: 0 <= v < |places| ==> !s[places[v]].Free()) &&
    (forall v, w :: 0 <= v < w < |places| ==> places[v] < places[w]) &&
    (forall p :: MAX_USING_ITEM_COUNT <= p < n && !s[p].Free() ==> p in places)
  }

  /** Stored positions before n that hold the first relic of their kind, in order. */
  function FirstOnes(s: seq<Slot>, n: nat): (picks: seq<nat>)
    requires MAX_USING_ITEM_COUNT <= n <= |s|
    ensures forall m :: 0 <= m < |picks| ==> MAX_USING_ITEM_COUNT <= picks[m] < n
    decreases n
  {
    if n == MAX_USING_ITEM_COUNT then []
    else
      var picks := FirstOnes(s, n - 1);
      if IsFirst(s, n - 1) then picks + [n - 1] else picks
  }

  predicate IsFirst(s: seq<Slot>, p: nat)
    requires MAX_USING_ITEM_COUNT <= p < |s|
  {
    !s[p].Free() && forall q :: MAX_USING_ITEM_COUNT <= q < p ==> s[q].code != s[p].code
  }

  /** The occupied stored positions before n, in order. */
  function Taken(s: seq<Slot>, n: nat): (places: seq<nat>)
    requires MAX_USING_ITEM_COUNT <= n <= |s|
    ensures forall v :: 0 <= v < |places| ==> MAX_USING_ITEM_COUNT <= places[v] < n
    decreases n
  {
    if n == MAX_USING_ITEM_COUNT then []
    else
      var places := Taken(s, n - 1);
      if s[n - 1].Free() then places else places + [n - 1]
  }

  lemma {:induction false} OnesExact(s: seq<Slot>, n: nat)
    requires MAX_USING_ITEM_COUNT <= n <= |s|
    ensures ExactlyFirst(s, n, FirstOnes(s, n))
    decreases n
  {
    hide IsFirst, FirstOnes, ExactlyFirst;
    if n > MAX_USING_ITEM_COUNT {
      OnesExact(s, n - 1);
      OneMore(s, n - 1);
      ExactlyOneMoreFirst(s, n - 1, FirstOnes(s, n - 1));
    } else {
      NoOnes(s);
      assert ExactlyFirst(s, n, []) by { NothingFirst(s); }
    }
  }

  lemma NothingFirst(s: seq<Slot>)
    requires MAX_USING_ITEM_COUNT <= |s|
    ensures ExactlyFirst(s, MAX_USING_ITEM_COUNT, [])
  {
  }

  lemma ExactlyOneMoreFirst(s: seq<Slot>, p: nat, picks: seq<nat>)
    requires MAX_USING_ITEM_COUNT <= p < |s| && forall m :: 0 <= m < |picks| ==> MAX_USING_ITEM_COUNT <= picks[m] < p
    requires ExactlyFirst(s, p, picks)
    ensures ExactlyFirst(s, p + 1, if IsFirst(s, p) then picks + [p] else picks)
  {
    hide IsFirst;
    var now := if IsFirst(s, p) then picks + [p] else picks;
    forall q | MAX_USING_ITEM_COUNT <= q < p + 1 && IsFirst(s, q)
      ensures q in now
    {
      if q == p {
        assert now[|picks|] == p;
      } else {
        assert q in picks;
      }
    }
  }

  lemma NoOnes(s: seq<Slot>)
    requires MAX_USING_ITEM_COUNT <= |s|
    ensures FirstOnes(s, MAX_USING_ITEM_COUNT) == [] && Taken(s, MAX_USING_ITEM_COUNT) == []
  {
  }

  lemma {:induction false} TakenExact(s: seq<Slot>, n: nat)
    requires MAX_USING_ITEM_COUNT <= n <= |s|
    ensures ExactlyTaken(s, n, Taken(s, n))
    decreases n
  {
    hide Taken, ExactlyTaken;
    if n > MAX_USING_ITEM_COUNT {
      TakenExact(s, n - 1);
      TakenMore(s, n - 1);
      ExactlyOneMore(s, n - 1, Taken(s, n - 1));
    } else {
      NoOnes(s);
      assert ExactlyTaken(s, n, []) by { NothingTaken(s); }
    }
  }

  lemma NothingTaken(s: seq<Slot>)
    requires MAX_USING_ITEM_COUNT <= |s|
    ensures ExactlyTaken(s, MAX_USING_ITEM_COUNT, [])
  {
  }

  lemma ExactlyOneMore(s: seq<Slot>, p: nat, places: seq<nat>)
    requires MAX_USING_ITEM_COUNT <= p < |s| && forall v :: 0 <= v < |places| ==> MAX_USING_ITEM_COUNT <= places[v] < p
    requires ExactlyTaken(s, p, places)
    ensures ExactlyTaken(s, p + 1, if s[p].Free() then places else places + [p])
  {
    var now := if s[p].Free() then places else places + [p];
    forall q | MAX_USING_ITEM_COUNT <= q < p + 1 && !s[q].Free()
      ensures q in now
    {
      if q == p {
        assert now[|places|] == p;
      } else {
        assert q in places;
      }
    }
  }

  lemma TakenMore(s: seq<Slot>, p: nat)
    requires MAX_USING_ITEM_COUNT <= p < |s|
    ensures Taken(s, p + 1) == if s[p].Free() then Taken(s, p) else Taken(s, p) + [p]
  {
  }

  lemma OneMore(s: seq<Slot>, p: nat)
    requires MAX_USING_ITEM_COUNT <= p < |s|
    ensures FirstOnes(s, p + 1) == if IsFirst(s, p) then FirstOnes(s, p) + [p] else FirstOnes(s, p)
  {
    hide IsFirst;
  }

  /** Free positions add nothing. */
  lemma {:induction false} OnesOverGap(s: seq<Slot>, a: nat, b: nat)
    requires MAX_USING_ITEM_COUNT <= a <= b <= |s| && forall p :: a <= p < b ==> s[p].Free()
    ensures FirstOnes(s, b) == FirstOnes(s, a)
    decreases b
  {
    hide FirstOnes;
    if a < b {
      OnesOverGap(s, a, b - 1);
      OneMore(s, b - 1);
    }
  }

  lemma {:induction false} OnesPrefix(s: seq<Slot>, a: nat, b: nat)
    requires MAX_USING_ITEM_COUNT <= a <= b <= |s|
    ensures FirstOnes(s, a) <= FirstOnes(s, b)
    decreases b
  {
    hide FirstOnes, IsFirst;
    if a < b {
      OnesPrefix(s, a, b - 1);
      OneMore(s, b - 1);
    }
  }

  lemma {:induction false} EarliestOfKind(s: seq<Slot>, q: nat) returns (e: nat)
    requires MAX_USING_ITEM_COUNT <= q < |s| && !s[q].Free()
    ensures MAX_USING_ITEM_COUNT <= e <= q && s[e].code == s[q].code && IsFirst(s, e)
  {
    if IsFirst(s, q) {
      e := q;
    } else {
      var r :| MAX_USING_ITEM_COUNT <= r < q && s[r].code == s[q].code;
      e := EarliestOfKind(s, r);
    }
  }

  ghost predicate NewKind(s: seq<Slot>, picks: seq<nat>, p: nat)
    requires p < |s| && forall m :: 0 <= m < |picks| ==> picks[m] < |s|
  {
    forall m :: 0 <= m < |picks| ==> s[picks[m]].code != s[p].code
  }

  /** A stored relic is the first of its kind exactly if no pick before it has its kind. */
  lemma FirstOfItsKind(s: seq<Slot>, n: nat, p: nat, picks: seq<nat>)
    requires MAX_USING_ITEM_COUNT <= n <= p < |s| && !s[p].Free() && forall q :: n <= q < p ==> s[q].Free()
    requires picks == FirstOnes(s, n)
    ensures IsFirst(s, p) <==> NewKind(s, picks, p)
  {
    hide FirstOnes;
    OnesExact(s, n);
    if !IsFirst(s, p) {
      var q :| MAX_USING_ITEM_COUNT <= q < p && s[q].code == s[p].code;
      var e := EarliestOfKind(s, q);
      assert e in picks;
      var m :| 0 <= m < |picks| && picks[m] == e;
      assert s[picks[m]].code == s[p].code;
    } else {
      forall m | 0 <= m < |picks|
        ensures s[picks[m]].code != s[p].code
      {
        assert MAX_USING_ITEM_COUNT <= picks[m] < n;
      }
    }
  }

  /** The kinds of relics stored before n. */
  ghost function StoredKinds(s: seq<Slot>, n: nat): set<nat>
    requires MAX_USING_ITEM_COUNT <= n <= |s|
  {
    set p | MAX_USING_ITEM_COUNT <= p < n && !s[p].Free() :: s[p].code
  }

  lemma StoredKindsMore(s: seq<Slot>, p: nat)
    requires MAX_USING_ITEM_COUNT <= p < |s|
    ensures StoredKinds(s, p + 1) == if s[p].Free() then StoredKinds(s, p) else StoredKinds(s, p) + {s[p].code}
    ensures IsFirst(s, p) <==> !s[p].Free() && s[p].code !in StoredKinds(s, p)
  {
    forall x
      ensures x in StoredKinds(s, p + 1) <==> x in StoredKinds(s, p) || (!s[p].Free() && x == s[p].code)
    {
      if x in StoredKinds(s, p + 1) {
        var q :| MAX_USING_ITEM_COUNT <= q < p + 1 && !s[q].Free() && s[q].code == x;
      }
    }
  }

  lemma OneMoreKind(s: seq<Slot>, p: nat)
    requires MAX_USING_ITEM_COUNT <= p < |s|
    ensures |StoredKinds(s, p + 1)| == |StoredKinds(s, p)| + (if IsFirst(s, p) then 1 else 0)
  {
    hide StoredKinds, IsFirst;
    StoredKindsMore(s, p);
    var kinds, code := StoredKinds(s, p), s[p].code;
    if code in kinds {
      assert kinds + {code} == kinds;
    } else {
      assert |kinds + {code}| == |kinds| + 1;
    }
  }

  /** As many first relics as kinds. */
  lemma {:induction false} OnePerKind(s: seq<Slot>, n: nat)
    requires MAX_USING_ITEM_COUNT <= n <= |s|
    ensures |FirstOnes(s, n)| == |StoredKinds(s, n)|
    decreases n
  {
    hide FirstOnes, StoredKinds, IsFirst;
    if n > MAX_USING_ITEM_COUNT {
      OnePerKind(s, n - 1);
      OneMore(s, n - 1);
      OneMoreKind(s, n - 1);
    } else {
      NoOnes(s);
      assert StoredKinds(s, n) == {} by { NoKinds(s); }
    }
  }

  lemma NoKinds(s: seq<Slot>)
    requires MAX_USING_ITEM_COUNT <= |s|
    ensures StoredKinds(s, MAX_USING_ITEM_COUNT) == {}
  {
  }

  /** Position m of the equipment gets the m-th pick, one swap after the other. */
  function EquippedUpTo(s: seq<Slot>, picks: seq<nat>, m: nat): (s': seq<Slot>)
    requires m <= |picks| && m <= MAX_USING_ITEM_COUNT && |s| == SLOT_COUNT
    requires forall l :: 0 <= l < |picks| ==> MAX_USING_ITEM_COUNT <= picks[l] < |s|
    ensures |s'| == |s|
  {
    if m == 0 then s else Swapped(EquippedUpTo(s, picks, m - 1), m - 1, picks[m - 1])
  }

  ghost predicate NothingEquipped(s: seq<Slot>)
    requires |s| == SLOT_COUNT
  {
    forall i :: 0 <= i < MAX_USING_ITEM_COUNT ==> s[i].Free()
  }

  function Equipped(s: seq<Slot>): seq<Slot>
    requires |s| == SLOT_COUNT
  {
    var picks := FirstOnes(s, SLOT_COUNT);
    EquippedUpTo(s, picks, Min(|picks|, MAX_USING_ITEM_COUNT))
  }

  function Pairs(s: seq<Slot>): (pairs: seq<(nat, nat)>)
    ensures |pairs| == |s|
  {
    seq(|s|, i requires 0 <= i < |s| => (s[i].code, s[i].upgrade))
  }

  /** The relics with their levels, wherever they are. */
  function Relics(s: seq<Slot>): multiset<(nat, nat)> { multiset(Pairs(s)) }

  lemma SwapMultiset<T>(s: seq<T>, i: nat, j: nat)
    requires i < |s| && j < |s|
    ensures multiset(s[i := s[j]][j := s[i]]) == multiset(s)
  {
  }

  lemma SwapPairs(s: seq<Slot>, i: nat, j: nat)
    requires i < |s| && j < |s|
    ensures SameFrame(s, Swapped(s, i, j))
    ensures Pairs(Swapped(s, i, j)) == Pairs(s)[i := Pairs(s)[j]][j := Pairs(s)[i]]
  {
  }

  lemma SwapKeepsRelics(s: seq<Slot>, i: nat, j: nat)
    requires i < |s| && j < |s|
    ensures Relics(Swapped(s, i, j)) == Relics(s) && SameFrame(s, Swapped(s, i, j))
  {
    hide Swapped, Pairs, SameFrame;
    SwapPairs(s, i, j);
    SwapMultiset(Pairs(s), i, j);
  }

  lemma SwapKeepsWeight(s: seq<Slot>, i: nat, j: nat, code: nat)
    requires i < |s| && j < |s|
    ensures Weight(Swapped(s, i, j), code) == Weight(s, code)
  {
    hide Weight;
    var first := s[i := s[i].Holding(s[j].code, s[j].upgrade)];
    WeightUpdate(s, i, first[i], code);
    WeightUpdate(first, j, s[j].Holding(s[i].code, s[i].upgrade), code);
  }

  lemma {:induction false} EquipPrefix(s: seq<Slot>, picks: seq<nat>, all: seq<nat>, m: nat)
    requires |s| == SLOT_COUNT && m <= |picks| && m <= MAX_USING_ITEM_COUNT && picks <= all
    requires forall l :: 0 <= l < |all| ==> MAX_USING_ITEM_COUNT <= all[l] < |s|
    ensures EquippedUpTo(s, picks, m) == EquippedUpTo(s, all, m)
  {
    if m > 0 {
      EquipPrefix(s, picks, all, m - 1);
    }
  }

  /** After m swaps: the first m equipped slots hold the first m picks, which left free slots
      behind, and everything else is as it was. */
  ghost predicate HalfEquipped(s: seq<Slot>, s': seq<Slot>, picks: seq<nat>, m: nat)
    requires |s| == SLOT_COUNT && m <= |picks| && m <= MAX_USING_ITEM_COUNT
    requires forall l :: 0 <= l < |picks| ==> MAX_USING_ITEM_COUNT <= picks[l] < |s|
  {
    |s'| == SLOT_COUNT &&
    (forall l :: 0 <= l < m ==> s'[l] == s[l].Holding(s[picks[l]].code, s[picks[l]].upgrade)) &&
    (forall l :: 0 <= l < m ==> s'[picks[l]] == s[picks[l]].Holding(s[l].code, s[l].upgrade)) &&
    (forall i :: m <= i < MAX_USING_ITEM_COUNT ==> s'[i] == s[i]) &&
    (forall p :: MAX_USING_ITEM_COUNT <= p < |s| && p !in picks[..m] ==> s'[p] == s[p])
  }

  lemma {:induction false} EquipSteps(s: seq<Slot>, picks: seq<nat>, m: nat)
    requires |s| == SLOT_COUNT && m <= |picks| && m <= MAX_USING_ITEM_COUNT
    requires forall l :: 0 <= l < |picks| ==> MAX_USING_ITEM_COUNT <= picks[l] < |s|
    requires forall l, k :: 0 <= l < k < |picks| ==> picks[l] < picks[k]
    ensures HalfEquipped(s, EquippedUpTo(s, picks, m), picks, m)
    ensures Relics(EquippedUpTo(s, picks, m)) == Relics(s) && SameFrame(s, EquippedUpTo(s, picks, m))
  {
    hide Relics;
    if m > 0 {
      EquipSteps(s, picks, m - 1);
      var before := EquippedUpTo(s, picks, m - 1);
      SwapKeepsRelics(before, m - 1, picks[m - 1]);
      EquipOne(s, before, picks, m);
    }
  }

  lemma EquipOne(s: seq<Slot>, before: seq<Slot>, picks: seq<nat>, m: nat)
    requires |s| == SLOT_COUNT && 0 < m <= |picks| && m <= MAX_USING_ITEM_COUNT
    requires forall l :: 0 <= l < |picks| ==> MAX_USING_ITEM_COUNT <= picks[l] < |s|
    requires forall l, k :: 0 <= l < k < |picks| ==> picks[l] < picks[k]
    requires HalfEquipped(s, before, picks, m - 1)
    ensures HalfEquipped(s, Swapped(before, m - 1, picks[m - 1]), picks, m)
  {
    assert picks[..m] == picks[..m - 1] + [picks[m - 1]];
    assert picks[m - 1] !in picks[..m - 1];
    assert before[picks[m - 1]] == s[picks[m - 1]] && before[m - 1] == s[m - 1];
  }

  /** With nothing equipped, exactly min(6, stored kinds) relics are equipped: one of each kind,
      the first stored one, in stored order from slot 0 on; all relics with their levels are
      kept, and so are the slots' numbers and activation weights. */
  lemma DefaultEquipment(s: seq<Slot>)
    requires |s| == SLOT_COUNT && NothingEquipped(s)
    ensures var picks, s' := FirstOnes(s, SLOT_COUNT), Equipped(s);
            var n := Min(|StoredKinds(s, SLOT_COUNT)|, MAX_USING_ITEM_COUNT);
            |s'| == SLOT_COUNT && n <= |picks| && Relics(s') == Relics(s) && SameFrame(s, s') &&
            (forall i :: 0 <= i < n ==> s'[i].code == s[picks[i]].code && s'[i].upgrade == s[picks[i]].upgrade && s'[picks[i]].Free()) &&
            (forall i :: n <= i < MAX_USING_ITEM_COUNT ==> s'[i] == s[i]) &&
            (forall p :: MAX_USING_ITEM_COUNT <= p < SLOT_COUNT && p !in picks[..n] ==> s'[p] == s[p])
    ensures forall i, j :: 0 <= i < j < MAX_USING_ITEM_COUNT && !Equipped(s)[j].Free() ==> Equipped(s)[i].code != Equipped(s)[j].code
  {
    hide Relics, EquippedUpTo, FirstOnes;
    OnePerKind(s, SLOT_COUNT);
    OnesExact(s, SLOT_COUNT);
    var picks := FirstOnes(s, SLOT_COUNT);
    var n := Min(|picks|, MAX_USING_ITEM_COUNT);
    EquipSteps(s, picks, n);
    forall i, j | 0 <= i < j < MAX_USING_ITEM_COUNT && !Equipped(s)[j].Free()
      ensures Equipped(s)[i].code != Equipped(s)[j].code
    {
      if j < n {
        assert IsFirst(s, picks[j]) && picks[i] < picks[j];
      }
    }
  }

  lemma {:induction false} EquipKeepsWeight(s: seq<Slot>, picks: seq<nat>, m: nat, code: nat)
    requires |s| == SLOT_COUNT && m <= |picks| && m <= MAX_USING_ITEM_COUNT
    requires forall l :: 0 <= l < |picks| ==> MAX_USING_ITEM_COUNT <= picks[l] < |s|
    ensures Weight(EquippedUpTo(s, picks, m), code) == Weight(s, code)
  {
    hide Weight;
    if m > 0 {
      EquipKeepsWeight(s, picks, m - 1, code);
      SwapKeepsWeight(EquippedUpTo(s, picks, m - 1), m - 1, picks[m - 1], code);
    }
  }

  lemma {:induction false} EquipKeepsGood(s: seq<Slot>, picks: seq<nat>, m: nat)
    requires Good(s) && m <= |picks| && m <= MAX_USING_ITEM_COUNT
    requires forall l :: 0 <= l < |picks| ==> MAX_USING_ITEM_COUNT <= picks[l] < |s|
    ensures Good(EquippedUpTo(s, picks, m))
  {
    if m > 0 {
      EquipKeepsGood(s, picks, m - 1);
    }
  }

  // ---- Whole runs ----

  datatype Event =
    | Swap(i: nat, j: nat)
    | Add(code: nat)
    | Drop(i: nat)
    | Upgrade(i: nat, j: nat)
    | Combine(i: nat, j: nat, k: nat, draws: seq<nat>)
    | EquipDefault

  /** Indices name slots; what is added or drawn is a relic. */
  ghost predicate Possible(e: Event) {
    match e
    case Swap(i, j) => i < SLOT_COUNT && j < SLOT_COUNT
    case Add(code) => IsRelic(code)
    case Drop(i) => i < SLOT_COUNT
    case Upgrade(i, j) => i < SLOT_COUNT && j < SLOT_COUNT
    case Combine(i, j, k, draws) =>
      i < SLOT_COUNT && j < SLOT_COUNT && k < SLOT_COUNT && draws != [] && forall d :: d in draws ==> IsRelic(d)
    case EquipDefault => true
  }

  predicate IsRelic(code: nat) { code != EMPTY_ITEM && code < ITEM_CODES }

  function Step(s: seq<Slot>, e: Event): (s': seq<Slot>)
    requires |s| == SLOT_COUNT && Possible(e)
    ensures |s'| == SLOT_COUNT
  {
    match e
    case Swap(i, j) => Swapped(s, i, j)
    case Add(code) => Added(s, code)
    case Drop(i) => Dropped(s, i)
    case Upgrade(i, j) => Upgraded(s, i, j)
    case Combine(i, j, k, draws) => Combined(s, i, j, k, draws)
    case EquipDefault => if forall i :: 0 <= i < MAX_USING_ITEM_COUNT ==> s[i].Free() then Equipped(s) else s
  }

  lemma AddKeepsGood(s: seq<Slot>, code: nat)
    requires Good(s) && IsRelic(code)
    ensures Good(Added(s, code)) && SameFrame(s, Added(s, code))
  {
  }

  lemma CombineKeepsGood(s: seq<Slot>, i: nat, j: nat, k: nat, draws: seq<nat>)
    requires Good(s) && Possible(Combine(i, j, k, draws))
    ensures Good(Combined(s, i, j, k, draws)) && SameFrame(s, Combined(s, i, j, k, draws))
  {
    hide FreshDraw;
    var emptied := AllEmptied(s, i, j, k);
    assert Good(emptied) && SameFrame(s, emptied);
    var code := FreshDraw(draws, s[i].code, s[j].code, s[k].code);
    assert IsRelic(code);
  }

  /** In every reachable inventory a free slot has upgrade 0 and no upgrade exceeds 2; slot
      numbers and activation weights never change. */
  lemma StepKeepsGood(s: seq<Slot>, e: Event)
    requires Good(s) && Possible(e)
    ensures Good(Step(s, e)) && SameFrame(s, Step(s, e))
  {
    hide Combined, Added, Equipped, FirstOnes;
    match e
    case Add(code) => AddKeepsGood(s, code);
    case Combine(i, j, k, draws) => CombineKeepsGood(s, i, j, k, draws);
    case EquipDefault =>
      if NothingEquipped(s) {
        EquipmentGood(s);
      }
    case _ =>
  }

  lemma EquipmentGood(s: seq<Slot>)
    requires Good(s) && NothingEquipped(s)
    ensures Good(Equipped(s)) && SameFrame(s, Equipped(s))
  {
    hide EquippedUpTo, FirstOnes;
    var picks := FirstOnes(s, SLOT_COUNT);
    EquipKeepsGood(s, picks, Min(|picks|, MAX_USING_ITEM_COUNT));
    DefaultEquipment(s);
  }

  // ---- What is conserved ----

  /** What taking a slot's contents away loses, unless the slot was emptied before. */
  function Loss(s: seq<Slot>, i: nat, already: bool, code: nat): nat
    requires i < |s|
  {
    if already then 0 else Share(s[i], code)
  }

  /** How an event changes the weight of a relic. */
  function Delta(s: seq<Slot>, e: Event, code: nat): int
    requires |s| == SLOT_COUNT && Possible(e)
  {
    match e
    case Add(added) => if added == code && FirstFree(s) < SLOT_COUNT then 1 else 0
    case Drop(i) =>
      var lost: int := Share(s[i], code);
      -lost
    case Combine(i, j, k, draws) =>
      if s[i].Free() || s[j].Free() || s[k].Free() then 0
      else
        (if FreshDraw(draws, s[i].code, s[j].code, s[k].code) == code then 1 else 0)
        - Loss(s, i, false, code) - Loss(s, j, j == i, code) - Loss(s, k, k == i || k == j, code)
    case _ => 0
  }

  /** Adding counts one, and it does so because a free slot has upgrade 0. */
  lemma AddWeight(s: seq<Slot>, added: nat, code: nat)
    requires |s| == SLOT_COUNT && IsRelic(added) && IsRelic(code)
    requires FirstFree(s) < SLOT_COUNT
    ensures Weight(Added(s, added), code) == Weight(s, code) + (if added == code then Pow2(s[FirstFree(s)].upgrade) else 0)
    ensures Weight(Added(s, added), added) == Weight(s, added) + 1 <==> s[FirstFree(s)].upgrade == 0
  {
    hide Weight;
    var k := FirstFree(s);
    WeightUpdate(s, k, s[k].Holding(added, s[k].upgrade), code);
    WeightUpdate(s, k, s[k].Holding(added, s[k].upgrade), added);
  }

  lemma UpgradeWeight(s: seq<Slot>, i: nat, j: nat, code: nat)
    requires i < |s| && j < |s| && IsRelic(code)
    ensures Weight(Upgraded(s, i, j), code) == Weight(s, code)
  {
    hide Weight;
    if CanUpgrade(s, i, j) {
      var first := s[i := s[i].Holding(s[i].code, s[i].upgrade + 1)];
      WeightUpdate(s, i, first[i], code);
      WeightUpdate(first, j, s[j].Emptied(), code);
    }
  }

  lemma EmptiedWeight(s: seq<Slot>, i: nat, j: nat, k: nat, code: nat)
    requires i < |s| && j < |s| && k < |s| && IsRelic(code)
    ensures Weight(AllEmptied(s, i, j, k), code)
         == Weight(s, code) - Loss(s, i, false, code) - Loss(s, j, j == i, code) - Loss(s, k, k == i || k == j, code)
  {
    hide Weight;
    var first := s[i := s[i].Emptied()];
    var second := first[j := s[j].Emptied()];
    WeightUpdate(s, i, s[i].Emptied(), code);
    WeightUpdate(first, j, s[j].Emptied(), code);
    WeightUpdate(second, k, s[k].Emptied(), code);
  }

  lemma CombineWeight(s: seq<Slot>, i: nat, j: nat, k: nat, draws: seq<nat>, code: nat)
    requires |s| == SLOT_COUNT && Possible(Combine(i, j, k, draws)) && IsRelic(code)
    ensures Weight(Combined(s, i, j, k, draws), code) == Weight(s, code) + Delta(s, Combine(i, j, k, draws), code)
  {
    hide Weight, FreshDraw, Loss;
    if !(s[i].Free() || s[j].Free() || s[k].Free()) {
      var emptied := AllEmptied(s, i, j, k);
      EmptiedWeight(s, i, j, k, code);
      assert emptied[i].Free();
      var free := FirstFree(emptied);
      var fresh' := FreshDraw(draws, s[i].code, s[j].code, s[k].code);
      WeightUpdate(emptied, free, emptied[free].Holding(fresh', 0), code);
      assert Share(emptied[free].Holding(fresh', 0), code) == if fresh' == code then 1 else 0;
    }
  }

  /** Swapping, equipping and upgrading conserve the weight of every relic; adding one counts
      one if a slot is free; dropping loses 2^upgrade; a combination loses what its distinct
      slots held and gains the new relic. */
  lemma StepWeight(s: seq<Slot>, e: Event, code: nat)
    requires Good(s) && Possible(e) && IsRelic(code)
    ensures Weight(Step(s, e), code) == Weight(s, code) + Delta(s, e, code)
  {
    hide Weight, Combined, Equipped, Swapped, Upgraded, Loss;
    match e
    case Swap(i, j) => SwapKeepsWeight(s, i, j, code);
    case Add(added) =>
      if FirstFree(s) < SLOT_COUNT {
        AddWeight(s, added, code);
      }
    case Drop(i) => WeightUpdate(s, i, s[i].Emptied(), code);
    case Upgrade(i, j) => UpgradeWeight(s, i, j, code);
    case Combine(i, j, k, draws) => CombineWeight(s, i, j, k, draws, code);
    case EquipDefault => EquipmentWeight(s, code);
  }

  lemma EquipmentWeight(s: seq<Slot>, code: nat)
    requires |s| == SLOT_COUNT
    ensures Weight(Equipped(s), code) == Weight(s, code)
  {
    hide Weight, EquippedUpTo, FirstOnes;
    var picks := FirstOnes(s, SLOT_COUNT);
    EquipKeepsWeight(s, picks, Min(|picks|, MAX_USING_ITEM_COUNT), code);
  }

  ghost predicate AllPossible(events: seq<Event>) {
    forall i :: 0 <= i < |events| ==> Possible(events[i])
  }

  function Run(s: seq<Slot>, events: seq<Event>): (s': seq<Slot>)
    requires |s| == SLOT_COUNT && AllPossible(events)
    ensures |s'| == SLOT_COUNT
  {
    if events == [] then s else Step(Run(s, events[..|events| - 1]), events[|events| - 1])
  }

  /** The changes of all events together. */
  function Ledger(s: seq<Slot>, events: seq<Event>, code: nat): int
    requires |s| == SLOT_COUNT && AllPossible(events)
  {
    if events == [] then 0
    else
      var before := events[..|events| - 1];
      Ledger(s, before, code) + Delta(Run(s, before), events[|events| - 1], code)
  }

  /** Over any run of events: every inventory is in good order, its frame is the first one's,
      and the weight of every relic is what it was plus what the events added and took. */
  lemma {:induction false} Conservation(s: seq<Slot>, events: seq<Event>, code: nat)
    requires |s| == SLOT_COUNT && Good(s) && AllPossible(events) && IsRelic(code)
    ensures Good(Run(s, events)) && SameFrame(s, Run(s, events))
    ensures Weight(Run(s, events), code) == Weight(s, code) + Ledger(s, events, code)
  {
    hide Good, SameFrame, Step, Delta, Weight, Possible;
    if events != [] {
      var before := events[..|events| - 1];
      Conservation(s, before, code);
      var middle := Run(s, before);
      StepKeepsGood(middle, events[|events| - 1]);
      StepWeight(middle, events[|events| - 1], code);
      FrameTransitive(s, middle, Run(s, events));
    } else {
      FrameTransitive(s, s, s);
    }
  }

  lemma FrameTransitive(a: seq<Slot>, b: seq<Slot>, c: seq<Slot>)
    ensures SameFrame(a, a)
    ensures SameFrame(a, b) && SameFrame(b, c) ==> SameFrame(a, c)
  {
  }
}

/** Weighted random draws: the activation order of the relics, and the tier of a ticket. */
module Draws {
  import opened Basics
  import opened Items

  /** The weights still in play from position j on. */
  function SumFrom(w: seq<nat>, used: seq<bool>, j: nat): nat
    requires |w| == |used| && j <= |w|
    decreases |w| - j
  {
    if j == |w| then 0 else (if used[j] then 0 else w[j]) + SumFrom(w, used, j + 1)
  }

  /** Where the draw r ends up: weights are subtracted in order until it turns negative. */
  function PickFrom(w: seq<nat>, used: seq<bool>, r: int, j: nat): nat
    requires |w| == |used| && j <= |w|
    decreases |w| - j
  {
    if j == |w| then |w|
    else if used[j] then PickFrom(w, used, r, j + 1)
    else if r - w[j] < 0 then j
    else PickFrom(w, used, r - w[j], j + 1)
  }

  /** The weights in play from j up to k. */
  function SumBetween(w: seq<nat>, used: seq<bool>, j: nat, k: nat): nat
    requires |w| == |used| && j <= k <= |w|
    decreases k - j
  {
    if j == k then 0 else (if used[j] then 0 else w[j]) + SumBetween(w, used, j + 1, k)
  }

  /** A draw picks k exactly when it falls into k's stretch of the line, and a used position has
      no stretch. */
  lemma {:induction false} PickExact(w: seq<nat>, used: seq<bool>, r: nat, j: nat, k: nat)
    requires |w| == |used| && j <= k < |w|
    ensures PickFrom(w, used, r, j) == k <==>
              !used[k] && SumBetween(w, used, j, k) <= r < SumBetween(w, used, j, k) + w[k]
    decreases k - j
  {
    if j < k {
      if used[j] {
        PickExact(w, used, r, j + 1, k);
      } else if r >= w[j] {
        PickExact(w, used, r - w[j], j + 1, k);
      }
    } else if used[j] || r >= w[j] {
      PickLater(w, used, if used[j] then r else r - w[j], j + 1);
    }
  }

  lemma {:induction false} PickLater(w: seq<nat>, used: seq<bool>, r: nat, j: nat)
    requires |w| == |used| && j <= |w|
    ensures j <= PickFrom(w, used, r, j) <= |w|
    decreases |w| - j
  {
    if j < |w| {
      if used[j] {
        PickLater(w, used, r, j + 1);
      } else if r >= w[j] {
        PickLater(w, used, r - w[j], j + 1);
      }
    }
  }

  /** A draw below the total weight always picks a position in play. */
  lemma {:induction false} PickInRange(w: seq<nat>, used: seq<bool>, r: nat, j: nat)
    requires |w| == |used| && j <= |w| && r < SumFrom(w, used, j)
    ensures j <= PickFrom(w, used, r, j) < |w| && !used[PickFrom(w, used, r, j)]
    decreases |w| - j
  {
    if used[j] {
      PickInRange(w, used, r, j + 1);
    } else if r >= w[j] {
      PickInRange(w, used, r - w[j], j + 1);
    }
  }

  ghost function Interval(a: nat, b: nat): set<nat>
    requires a <= b
    decreases b - a
  {
    if a == b then {} else {a} + Interval(a + 1, b)
  }

  lemma {:induction false} IntervalSize(a: nat, b: nat)
    requires a <= b
    ensures |Interval(a, b)| == b - a
    ensures forall r: nat :: r in Interval(a, b) <==> a <= r < b
    decreases b - a
  {
    if a < b {
      IntervalSize(a + 1, b);
    }
  }

  lemma {:induction false} StretchFits(w: seq<nat>, used: seq<bool>, j: nat, k: nat)
    requires |w| == |used| && j <= k < |w| && !used[k]
    ensures SumBetween(w, used, j, k) + w[k] <= SumFrom(w, used, j)
    decreases k - j
  {
    if j < k {
      StretchFits(w, used, j + 1, k);
    }
  }

  /** The draws below the total that pick k. */
  ghost function DrawsPicking(w: seq<nat>, used: seq<bool>, k: nat): set<nat>
    requires |w| == |used|
  {
    set r: nat | r < SumFrom(w, used, 0) && PickFrom(w, used, r, 0) == k
  }

  /** Of all draws below the total, exactly as many pick a position as its weight says, and
      none pick a used one. */
  lemma DrawsProportional(w: seq<nat>, used: seq<bool>, k: nat)
    requires |w| == |used| && k < |w|
    ensures |DrawsPicking(w, used, k)| == if used[k] then 0 else w[k]
  {
    var hits := DrawsPicking(w, used, k);
    var a := SumBetween(w, used, 0, k);
    forall r: nat
      ensures PickFrom(w, used, r, 0) == k <==> !used[k] && a <= r < a + w[k]
    {
      PickExact(w, used, r, 0, k);
    }
    if used[k] {
      assert hits == {};
    } else {
      StretchFits(w, used, 0, k);
      IntervalSize(a, a + w[k]);
      forall r: nat
        ensures r in hits <==> r in Interval(a, a + w[k])
      {
        assert PickFrom(w, used, r, 0) == k <==> !used[k] && a <= r < a + w[k];
      }
      assert hits == Interval(a, a + w[k]);
    }
  }

  // ---- The activation order ----

  /** Every slot exactly once. */
  ghost predicate IsOrder(queue: seq<nat>) {
    |queue| == MAX_USING_ITEM_COUNT && (forall i :: 0 <= i < |queue| ==> queue[i] < MAX_USING_ITEM_COUNT) &&
    (forall i, j :: 0 <= i < j < |queue| ==> queue[i] != queue[j])
  }

  /** Exactly the slots in the queue are used. */
  ghost predicate Marks(used: seq<bool>, queue: seq<nat>) {
    |used| == MAX_USING_ITEM_COUNT && forall s :: 0 <= s < |used| ==> (used[s] <==> s in queue)
  }

  ghost predicate Fresh(queue: seq<nat>) {
    (forall i :: 0 <= i < |queue| ==> queue[i] < MAX_USING_ITEM_COUNT) &&
    (forall i, j :: 0 <= i < j < |queue| ==> queue[i] != queue[j])
  }

  lemma {:induction false} PositiveSum(w: seq<nat>, used: seq<bool>, j: nat, k: nat)
    requires |w| == |used| && j <= k < |w| && !used[k] && w[k] > 0
    ensures SumFrom(w, used, j) > 0
    decreases k - j
  {
    if j < k {
      PositiveSum(w, used, j + 1, k);
    }
  }

  /** As long as fewer than six slots are used, one is left to draw. */
  lemma SomeoneLeft(w: seq<nat>, used: seq<bool>, queue: seq<nat>)
    requires |w| == MAX_USING_ITEM_COUNT && Marks(used, queue) && |queue| < MAX_USING_ITEM_COUNT
    requires forall i :: 0 <= i < |w| ==> w[i] > 0
    ensures SumFrom(w, used, 0) > 0
  {
    if forall s :: 0 <= s < 6 ==> used[s] {
      var slots: set<nat> := {0, 1, 2, 3, 4, 5};
      var drawn := set i: nat | i < |queue| :: queue[i];
      forall s | s in slots
        ensures s in drawn
      {
        assert s in queue;
      }
      DrawnSize(queue);
      SubsetSize(slots, drawn);
      assert false;
    }
    var k :| 0 <= k < 6 && !used[k];
    PositiveSum(w, used, 0, k);
  }

  lemma {:induction false} DrawnSize(queue: seq<nat>)
    ensures |set i: nat | i < |queue| :: queue[i]| <= |queue|
    decreases |queue|
  {
    var drawn := set i: nat | i < |queue| :: queue[i];
    if queue == [] {
      assert drawn == {};
    } else {
      var n := |queue| - 1;
      var front := queue[..n];
      DrawnSize(front);
      var before := set i: nat | i < |front| :: front[i];
      assert drawn == before + {queue[n]} by {
        assert forall i: nat :: i < n ==> front[i] == queue[i];
        forall x | x in drawn
          ensures x in before + {queue[n]}
        {
          var i: nat :| i < |queue| && queue[i] == x;
          if i < n {
            assert front[i] == x;
          }
        }
        forall x | x in before
          ensures x in drawn
        {
          var i: nat :| i < |front| && front[i] == x;
          assert queue[i] == x;
        }
      }
    }
  }

  lemma {:induction false} SubsetSize(a: set<nat>, b: set<nat>)
    requires a <= b
    ensures |a| <= |b|
    decreases a
  {
    if a != {} {
      var x :| x in a;
      SubsetSize(a - {x}, b - {x});
    }
  }

  /** The weights of the six slots, set once for every client. */
  const ACTIVE_PERCENTS: seq<nat> := [45, 45, 33, 33, 23, 23]

  /** Which slots are in the queue already. */
  function Used(queue: seq<nat>): seq<bool> { seq(MAX_USING_ITEM_COUNT, s => s in queue) }

  ghost predicate Weights(w: seq<nat>) {
    |w| == MAX_USING_ITEM_COUNT && forall i :: 0 <= i < |w| ==> w[i] > 0
  }

  /** The first n slots of the activation order. Any number may come up; it is taken within the
      weight that is left. */
  ghost function Drawn(w: seq<nat>, draw: nat -> nat, n: nat): (queue: seq<nat>)
    requires Weights(w) && n <= MAX_USING_ITEM_COUNT
    ensures |queue| == n && Fresh(queue)
  {
    if n == 0 then []
    else
      var queue := Drawn(w, draw, n - 1);
      SomeoneLeft(w, Used(queue), queue);
      var rand := draw(n - 1) % SumFrom(w, Used(queue), 0);
      PickInRange(w, Used(queue), rand, 0);
      queue + [PickFrom(w, Used(queue), rand, 0)]
  }

  /** The next slot is k exactly when k is still free and the draw falls into k's stretch of the
      weight that is left. */
  lemma DrawnExact(w: seq<nat>, draw: nat -> nat, n: nat, k: nat)
    requires Weights(w) && n < MAX_USING_ITEM_COUNT && k < MAX_USING_ITEM_COUNT
    ensures var queue, next := Drawn(w, draw, n), Drawn(w, draw, n + 1);
            var left := SumFrom(w, Used(queue), 0);
            next[..n] == queue && left > 0 &&
            (next[n] == k <==>
               k !in queue && SumBetween(w, Used(queue), 0, k) <= draw(n) % left < SumBetween(w, Used(queue), 0, k) + w[k])
  {
    var queue := Drawn(w, draw, n);
    SomeoneLeft(w, Used(queue), queue);
    hide SumFrom, SumBetween, PickFrom;
    PickExact(w, Used(queue), draw(n) % SumFrom(w, Used(queue), 0), 0, k);
  }

  /** The draw that picks a slot not used yet: the weight in front of it. */
  ghost function DrawFor(w: seq<nat>, queue: seq<nat>, i: nat): nat
    requires Weights(w) && Fresh(queue)
  {
    if i < |queue| then SumBetween(w, Used(queue[..i]), 0, queue[i]) else 0
  }

  lemma {:induction false} DrawnAgain(w: seq<nat>, queue: seq<nat>, draw: nat -> nat, n: nat)
    requires Weights(w) && IsOrder(queue) && n <= |queue|
    requires forall i: nat :: draw(i) == DrawFor(w, queue, i)
    ensures Drawn(w, draw, n) == queue[..n]
  {
    hide SumFrom, SumBetween, PickFrom;
    if n > 0 {
      DrawnAgain(w, queue, draw, n - 1);
      var front, k := queue[..n - 1], queue[n - 1];
      var used := Used(front);
      assert !used[k];
      StretchFits(w, used, 0, k);
      PickExact(w, used, draw(n - 1), 0, k);
      RestOfSmall(draw(n - 1), SumFrom(w, used, 0));
    }
  }

  lemma RestOfSmall(r: nat, sum: nat)
    requires r < sum
    ensures r % sum == r
  {
  }

  /** Every order of the six slots can come up. */
  lemma EveryOrderDrawn(w: seq<nat>, queue: seq<nat>)
    requires Weights(w) && IsOrder(queue)
    ensures exists draw: nat -> nat :: Drawn(w, draw, MAX_USING_ITEM_COUNT) == queue
  {
    var draw := (i: nat) => DrawFor(w, queue, i);
    DrawnAgain(w, queue, draw, MAX_USING_ITEM_COUNT);
    assert queue[..MAX_USING_ITEM_COUNT] == queue;
  }

  /** Weighted drawing without replacement: whatever the draws, the activation order holds
      every slot exactly once. */
  method GetItemActiveQueue(percents: seq<nat>, draw: nat -> nat) returns (activeQueue: seq<nat>)
    requires Weights(percents)
    ensures IsOrder(activeQueue) && activeQueue == Drawn(percents, draw, MAX_USING_ITEM_COUNT)
  {
    hide SumFrom, PickFrom;
    activeQueue := [];
    var isIncludeList: seq<bool> := seq(MAX_USING_ITEM_COUNT, _ => false);
    for i := 0 to MAX_USING_ITEM_COUNT
      invariant activeQueue == Drawn(percents, draw, i) && Marks(isIncludeList, activeQueue)
    {
      var sum := WeightLeft(percents, isIncludeList);
      SomeoneLeft(percents, isIncludeList, activeQueue);
      var rand := draw(i) % sum;
      var picked := Select(percents, isIncludeList, rand);
      PickInRange(percents, isIncludeList, rand, 0);
      assert isIncludeList == Used(activeQueue);
      activeQueue := activeQueue + [picked];
      isIncludeList := isIncludeList[picked := true];
    }
  }

  /** The weights of the slots not used yet. */
  method WeightLeft(w: seq<nat>, used: seq<bool>) returns (sum: nat)
    requires |w| == |used|
    ensures sum == SumFrom(w, used, 0)
  {
    sum := 0;
    for j := 0 to |w|
      invariant sum + SumFrom(w, used, j) == SumFrom(w, used, 0)
    {
      if !used[j] {
        sum := sum + w[j];
      }
    }
  }

  /** The subtracting loop of a draw. */
  method Select(w: seq<nat>, used: seq<bool>, draw: nat) returns (k: nat)
    requires |w| == |used|
    ensures k == PickFrom(w, used, draw, 0)
  {
    var rand: int := draw;
    k := 0;
    while k < |w|
      invariant 0 <= k <= |w| && PickFrom(w, used, draw, 0) == PickFrom(w, used, rand, k)
    {
      if !used[k] {
        if rand - w[k] < 0 {
          return;
        }
        rand := rand - w[k];
      }
      k := k + 1;
    }
  }

  // ---- Ticket tiers ----

  const MAX_ITEM_UPGRADE: nat := 5

  /** How many of 100 draws give each tier, by round. */
  function ItemProbability(round: nat): (row: seq<nat>)
    requires round < 6
    ensures |row| == MAX_ITEM_UPGRADE
  {
    match round
    case 0 => [100, 0, 0, 0, 0]
    case 1 => [75, 25, 0, 0, 0]
    case 2 => [55, 30, 15, 0, 0]
    case 3 => [25, 40, 30, 5, 0]
    case 4 => [19, 44, 27, 9, 1]
    case _ => [11, 30, 40, 15, 4]
  }

  const NONE_USED: seq<bool> := [false, false, false, false, false]

  lemma RowsAddUp(round: nat)
    requires round < 6
    ensures SumFrom(ItemProbability(round), NONE_USED, 0) == 100
  {
    var w := ItemProbability(round);
    assert SumFrom(w, NONE_USED, 5) == 0;
    assert SumFrom(w, NONE_USED, 4) == w[4];
    assert SumFrom(w, NONE_USED, 3) == w[3] + w[4];
    assert SumFrom(w, NONE_USED, 2) == w[2] + w[3] + w[4];
    assert SumFrom(w, NONE_USED, 1) == w[1] + w[2] + w[3] + w[4];
  }

  /** In every round exactly the table's number of the 100 draws gives each tier. */
  lemma TierProportional(round: nat, tier: nat)
    requires round < 6 && tier < MAX_ITEM_UPGRADE
    ensures SumFrom(ItemProbability(round), NONE_USED, 0) == 100
    ensures |DrawsPicking(ItemProbability(round), NONE_USED, tier)| == ItemProbability(round)[tier]
  {
    RowsAddUp(round);
    DrawsProportional(ItemProbability(round), NONE_USED, tier);
  }

  /** Of the draws from 0 to 99, those that give tier k. */
  predicate InStretch(row: seq<nat>, k: nat, draw: nat)
    requires |row| == MAX_ITEM_UPGRADE && k < |row|
  {
    SumBetween(row, NONE_USED, 0, k) <= draw < SumBetween(row, NONE_USED, 0, k) + row[k]
  }

  function RowOf(round: nat): (row: seq<nat>)
    ensures |row| == MAX_ITEM_UPGRADE
  {
    ItemProbability(Min(round, 5))
  }

  /** The relic of a tier that a draw picks, taken within the tier's table. */
  function TierRelic(tier: nat, itemDraw: nat): (code: nat)
    requires tier < 5
    ensures 1 <= code <= 37 && TierOf(code) == tier
  {
    var k := itemDraw % |TierItems(tier)|;
    TablesMatchTiers(tier, k);
    TierItems(tier)[k]
  }

  lemma OneHit(items: seq<nat>, code: nat)
    requires code in items && forall k, l :: 0 <= k < l < |items| ==> items[k] != items[l]
    ensures |set draw: nat | draw < |items| && items[draw] == code| == 1
  {
    var k: nat :| k < |items| && items[k] == code;
    assert (set draw: nat | draw < |items| && items[draw] == code) == {k};
  }

  /** Drawing evenly from a table gives each of its relics once. */
  lemma EvenlyDrawn(tier: nat, code: nat)
    requires tier < 5 && code in TierItems(tier)
    ensures |set draw: nat | draw < |TierItems(tier)| && TierRelic(tier, draw) == code| == 1
  {
    var items := TierItems(tier);
    TableOnce(tier);
    hide TierItems;
    OneHit(items, code);
    forall draw: nat | draw < |items|
      ensures TierRelic(tier, draw) == items[draw]
    {
      RestOfSmall(draw, |items|);
    }
    assert (set draw: nat | draw < |items| && TierRelic(tier, draw) == code) == (set draw: nat | draw < |items| && items[draw] == code);
  }

  lemma TableOnce(tier: nat)
    requires tier < 5
    ensures forall k, l :: 0 <= k < l < |TierItems(tier)| ==> TierItems(tier)[k] != TierItems(tier)[l]
  {
    EveryRelicListed(1);
  }

  /** What a normal ticket gives for a draw from 0 to 99 and a draw in the table. */
  function NormalRelic(round: nat, draw: nat, itemDraw: nat): (code: nat)
    requires draw < 100
    ensures 1 <= code <= 37
  {
    RowsAddUp(Min(round, 5));
    PickInRange(RowOf(round), NONE_USED, draw, 0);
    TierRelic(PickFrom(RowOf(round), NONE_USED, draw, 0), itemDraw)
  }

  /** The relic is of tier k exactly when the draw lies in the stretch of k. */
  lemma NormalTier(round: nat, draw: nat, itemDraw: nat, k: nat)
    requires draw < 100 && k < MAX_ITEM_UPGRADE
    ensures TierOf(NormalRelic(round, draw, itemDraw)) == k <==> InStretch(RowOf(round), k, draw)
  {
    PickExact(RowOf(round), NONE_USED, draw, 0, k);
  }

  /** Over the 100 draws a normal ticket gives each tier exactly as often as the table says. */
  lemma TicketsProportional(round: nat, itemDraw: nat, k: nat)
    requires k < MAX_ITEM_UPGRADE
    ensures |set draw: nat | draw < 100 && TierOf(NormalRelic(round, draw, itemDraw)) == k| == RowOf(round)[k]
  {
    hide PickFrom, SumFrom;
    TierProportional(Min(round, 5), k);
    var row := RowOf(round);
    var gives := set draw: nat | draw < 100 && TierOf(NormalRelic(round, draw, itemDraw)) == k;
    assert gives == DrawsPicking(row, NONE_USED, k) by {
      forall draw: nat | draw < 100
        ensures TierOf(NormalRelic(round, draw, itemDraw)) == PickFrom(row, NONE_USED, draw, 0)
      {
      }
    }
  }

  /** A normal ticket: the tier loop never runs past the last tier, and the draws alone decide
      the tier and the relic in its table. */
  method NormalTicket(tickets: nat, round: nat, draw: nat, itemDraw: nat) returns (code: nat)
    requires draw < 100
    ensures tickets == 0 ==> code == EMPTY_ITEM
    ensures tickets > 0 ==> 1 <= code <= 37 && code == NormalRelic(round, draw, itemDraw) && code == TierRelic(TierOf(code), itemDraw)
    ensures tickets > 0 ==>
              forall k :: 0 <= k < MAX_ITEM_UPGRADE ==> (TierOf(code) == k <==> InStretch(ItemProbability(Min(round, 5)), k, draw))
  {
    if tickets == 0 {
      return EMPTY_ITEM;
    }
    var roomRound := Min(round, 5);
    var row := ItemProbability(roomRound);
    RowsAddUp(roomRound);
    PickInRange(row, NONE_USED, draw, 0);
    var tier := Select(row, NONE_USED, draw);
    var items := TierItems(tier);
    code := items[itemDraw % |items|];
    forall k: nat | k < MAX_ITEM_UPGRADE
      ensures TierOf(NormalRelic(round, draw, itemDraw)) == k <==> InStretch(row, k, draw)
    {
      NormalTier(round, draw, itemDraw, k);
    }
  }

  /** Advanced, top and supreme tickets draw evenly from fixed tiers. */
  method TierTicket(tickets: nat, low: nat, high: nat, draw: nat, itemDraw: nat) returns (code: nat)
    requires low <= high < 5
    ensures tickets == 0 ==> code == EMPTY_ITEM
    ensures tickets > 0 ==>
              1 <= code <= 37 && TierOf(code) == (if draw % 2 == 0 then low else high) && code == TierRelic(TierOf(code), itemDraw)
  {
    if tickets == 0 {
      return EMPTY_ITEM;
    }
    var tier := if draw % 2 == 0 then low else high;
    var items := TierItems(tier);
    assert TierOf(TierRelic(tier, itemDraw)) == tier;
    code := items[itemDraw % |items|];
  }

  datatype TicketType = Normal | Advanced | Top | Supreme

  /** What each kind of ticket gives. */
  function TicketRelic(ticketType: TicketType, round: nat, draw: nat, itemDraw: nat): (code: nat)
    requires draw < 100
    ensures 1 <= code <= 37
    ensures ticketType.Advanced? ==> TierOf(code) == 1 + draw % 2
    ensures ticketType.Top? ==> TierOf(code) == 2 + draw % 2
    ensures ticketType.Supreme? ==> TierOf(code) == 4
  {
    match ticketType
    case Normal => NormalRelic(round, draw, itemDraw)
    case Advanced => TierRelic(if draw % 2 == 0 then 1 else 2, itemDraw)
    case Top => TierRelic(if draw % 2 == 0 then 2 else 3, itemDraw)
    case Supreme => TierRelic(4, itemDraw)
  }
}

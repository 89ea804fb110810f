/** The loops of the battle and creep stages around the moves of each pair. */
module StageLoops {
  import opened Basics
  import opened Items
  import opened BattleStats
  import opened BattleRules
  import opened Avatar
  import opened Clients
  import opened Draws
  import opened Creeps
  import opened BattleStage

  // ---- The schedule ----

  /** Two turns for each of six relics, and the end of the cycle. */
  const CYCLE: nat := 2 * MAX_USING_ITEM_COUNT + 1

  /** Who draws in a cycle: in a battle whoever still fights, in a creep stage every player. */
  predicate DrawsOrder(rules: Rules, finished: bool, j: nat) {
    (rules.Battle? && !finished) || (rules.Creep? && j % 2 == 0)
  }

  /** The draws of the n-th cycle for avatar j. */
  function DrawsOf(draws: (nat, nat, nat) -> nat, n: nat, j: nat): nat -> nat { i => draws(n, j, i) }

  /** What the activation orders of a stage come from: draws, or the order an avatar came with. */
  datatype Plan = Plan(draws: (nat, nat, nat) -> nat, kept: seq<seq<nat>>)

  /** The order in which avatar j activates its relics in the n-th cycle. */
  ghost function OrderOf(rules: Rules, plan: Plan, n: nat, j: nat): seq<nat>
    requires j < |plan.kept|
  {
    if DrawsOrder(rules, false, j) then Drawn(ACTIVE_PERCENTS, DrawsOf(plan.draws, n, j), MAX_USING_ITEM_COUNT) else plan.kept[j]
  }

  /** Move t of a fight that keeps to the schedule: in the n-th cycle the first and the second
      avatar act in turns, each with the next relic of its order of that cycle; then the cycle
      ends. */
  ghost predicate InPlan(c: Cast, rules: Rules, plan: Plan, k: nat, t: nat, m: Move)
    requires |c.gear| == |c.avatars| == |plan.kept| && 2 * k + 1 < |c.avatars|
  {
    var n, r := t / CYCLE, t % CYCLE;
    if r == CYCLE - 1 then m.EndCycle?
    else ActsAt(m, r % 2 == 1, c.gear[2 * k], OrderOf(rules, plan, n, 2 * k), c.gear[2 * k + 1], OrderOf(rules, plan, n, 2 * k + 1), r / 2)
  }

  ghost predicate OnSchedule(c: Cast, rules: Rules, plan: Plan, k: nat, moves: seq<Move>)
    requires |c.gear| == |c.avatars| == |plan.kept| && 2 * k + 1 < |c.avatars|
  {
    forall t :: 0 <= t < |moves| ==> InPlan(c, rules, plan, k, t, moves[t])
  }

  /** How many moves n whole cycles are. */
  function MovesOf(n: nat): nat { 13 * n }

  lemma PlaceOf(n: nat, r: nat)
    requires r < CYCLE
    ensures (MovesOf(n) + r) / CYCLE == n && (MovesOf(n) + r) % CYCLE == r
    ensures MovesOf(n + 1) == MovesOf(n) + CYCLE
  {
  }

  /** The next move, in its place. */
  lemma ScheduleGrows(c: Cast, rules: Rules, plan: Plan, k: nat, moves: seq<Move>, m: Move, n: nat, r: nat)
    requires |c.gear| == |c.avatars| == |plan.kept| && 2 * k + 1 < |c.avatars|
    requires OnSchedule(c, rules, plan, k, moves) && |moves| == MovesOf(n) + r && r < CYCLE
    requires if r == CYCLE - 1 then m.EndCycle?
             else ActsAt(m, r % 2 == 1, c.gear[2 * k], OrderOf(rules, plan, n, 2 * k), c.gear[2 * k + 1], OrderOf(rules, plan, n, 2 * k + 1), r / 2)
    ensures OnSchedule(c, rules, plan, k, moves + [m])
  {
    hide ActsAt, OrderOf, MovesOf;
    PlaceOf(n, r);
    var now := moves + [m];
    assert InPlan(c, rules, plan, k, |moves|, m);
    forall t | 0 <= t < |now|
      ensures InPlan(c, rules, plan, k, t, now[t])
    {
      if t < |moves| {
        assert now[t] == moves[t];
      }
    }
  }

  ghost predicate Planned(c: Cast, course: Course, plan: Plan, k: nat)
    requires k < |course.moves|
  {
    |c.gear| == |c.avatars| == |plan.kept| && 2 * k + 1 < |c.avatars| && OnSchedule(c, course.rules, plan, k, course.moves[k])
  }

  /** Pair k in the n-th cycle: on schedule, and as long as it fights, after n1 turns of its first
      avatar and n2 of its second, with the orders of this cycle. */
  ghost predicate InCycle(c: Cast, course: Course, plan: Plan, n: nat, k: nat, n1: nat, n2: nat)
    requires k < |c.avatars| / 2 && k < |course.moves|
    reads c.avatars[2 * k], c.avatars[2 * k + 1]
  {
    Planned(c, course, plan, k) &&
    var a, b := c.avatars[2 * k], c.avatars[2 * k + 1];
    (!a.mIsFinish ==>
       |course.moves[k]| == MovesOf(n) + n1 + n2 && n2 <= n1 <= n2 + 1 && a.mEffectItemCount == n1 && b.mEffectItemCount == n2 &&
       a.mActiveQueue == OrderOf(course.rules, plan, n, 2 * k) && b.mActiveQueue == OrderOf(course.rules, plan, n, 2 * k + 1))
  }

  /** Pair k between two cycles: on schedule, and as long as it fights, after n whole cycles. */
  ghost predicate BetweenCycles(c: Cast, course: Course, plan: Plan, n: nat, k: nat)
    requires k < |c.avatars| / 2 && k < |course.moves|
    reads c.avatars[2 * k], c.avatars[2 * k + 1]
  {
    Planned(c, course, plan, k) &&
    var a, b := c.avatars[2 * k], c.avatars[2 * k + 1];
    (!a.mIsFinish ==>
       |course.moves[k]| == MovesOf(n) && a.mEffectItemCount == 0 && b.mEffectItemCount == 0 &&
       (!DrawsOrder(course.rules, false, 2 * k) ==> a.mActiveQueue == plan.kept[2 * k]) &&
       (!DrawsOrder(course.rules, false, 2 * k + 1) ==> b.mActiveQueue == plan.kept[2 * k + 1]))
  }

  /** Both avatars of a pair always carry the same finish flag. */
  lemma FlagsAgree(c: Cast, course: Course, k: nat)
    requires Casting(c) && StageGood(c, course) && k < |c.avatars| / 2
    ensures c.avatars[2 * k].mIsFinish == c.avatars[2 * k + 1].mIsFinish
    ensures !c.avatars[2 * k].mIsFinish ==> c.avatars[2 * k].mHp > 0 && c.avatars[2 * k + 1].mHp > 0
  {
    hide BattleAvatar.View, Run, AvatarGood;
    assert FightGood(c.avatars[2 * k], c.avatars[2 * k + 1], course.rules, course.start[k], course.moves[k]);
    Seen(c.avatars[2 * k]);
    Seen(c.avatars[2 * k + 1]);
  }

  /** Anybody may leave the room at any time, and nobody comes back. */
  method Departures(c: Cast, ghost course: Course)
    requires Casting(c) && StageGood(c, course)
    modifies c.clients`mInRoom
    ensures StageGood(c, course)
  {
    hide FightGood, BattleAvatar.View;
    for i := 0 to |c.clients|
      invariant StageGood(c, course)
    {
      var gone: bool := *;
      var client := c.clients[i];
      if gone && client != null {
        Leaves(c, course, client);
      }
    }
  }

  method Leaves(c: Cast, ghost course: Course, client: Client)
    requires Casting(c) && StageGood(c, course)
    modifies client`mInRoom
    ensures StageGood(c, course)
  {
    hide FightGood, AvatarGood, PrizeGood, Penalty, BattleAvatar.View;
    label before:
    client.mInRoom := false;
    assert forall i :: 0 <= i < |c.avatars| ==> OnlyLeft(c.clients[i]);
    AllKept@before(c, course);
    forall k | 0 <= k < |course.start|
      ensures FightGood(c.avatars[2 * k], c.avatars[2 * k + 1], course.rules, course.start[k], course.moves[k])
    {
      assert old(FightGood(c.avatars[2 * k], c.avatars[2 * k + 1], course.rules, course.start[k], course.moves[k]));
    }
    assert forall i :: 0 <= i < |c.avatars| ==> c.avatars[i].mUsingItem == c.gear[i];
  }

  /** Nothing but leaving the room can have happened to the client. */
  twostate predicate OnlyLeft(client: Client?)
    reads client
  {
    client != null ==>
      client.mHp == old(client.mHp) && client.damageCalls == old(client.damageCalls) && client.Won() == old(client.Won()) &&
      (client.mInRoom ==> old(client.mInRoom))
  }

  twostate lemma AllKept(c: Cast, new course: Course)
    requires Casting(c) && old(StageGood(c, course)) && Shaped(c, course)
    requires forall i :: 0 <= i < |c.avatars| ==> unchanged(c.avatars[i]) && OnlyLeft(c.clients[i])
    ensures forall i :: 0 <= i < |c.avatars| ==> AvatarGood(c.avatars[i], TermsOf(c, course, i), i < 2 * course.judged)
    ensures PrizesGood(c, course)
  {
    hide FightGood, AvatarGood, PrizeGood, OnlyLeft, BattleAvatar.View, TermsOf;
    forall i | 0 <= i < |c.avatars|
      ensures AvatarGood(c.avatars[i], TermsOf(c, course, i), i < 2 * course.judged)
    {
      assert old(AvatarGood(c.avatars[i], TermsOf(c, course, i), i < 2 * course.judged));
      AccountKept(c, course, i, i < 2 * course.judged);
    }
    forall k | 0 <= k < |course.gifts|
      ensures PrizeGood(c.avatars[2 * k + 1], c.clients[2 * k], c.ghosts[2 * k], course.rules, course.gifts[k])
    {
      assert old(PrizeGood(c.avatars[2 * k + 1], c.clients[2 * k], c.ghosts[2 * k], course.rules, course.gifts[k]));
      PrizeKept(c, course, k);
    }
  }

  twostate lemma AccountKept(c: Cast, new course: Course, new i: nat, new late: bool)
    requires Casting(c) && Shaped(c, course) && i < |c.avatars| && unchanged(c.avatars[i]) && OnlyLeft(c.clients[i])
    requires old(AvatarGood(c.avatars[i], TermsOf(c, course, i), late))
    ensures AvatarGood(c.avatars[i], TermsOf(c, course, i), late)
  {
    hide BattleAvatar.View, HealthAfter, TermsOf, Casting;
    TermsAre(c, course, i);
    assert c.avatars[i].View() == old(c.avatars[i].View());
    assert c.avatars[i].Equipped();
  }

  twostate lemma PrizeKept(c: Cast, new course: Course, new k: nat)
    requires Casting(c) && Shaped(c, course) && k < |c.avatars| / 2 && unchanged(c.avatars[2 * k + 1]) && OnlyLeft(c.clients[2 * k])
    requires old(PrizeGood(c.avatars[2 * k + 1], c.clients[2 * k], c.ghosts[2 * k], course.rules, course.gifts[k]))
    ensures PrizeGood(c.avatars[2 * k + 1], c.clients[2 * k], c.ghosts[2 * k], course.rules, course.gifts[k])
  {
    hide BattleAvatar.View, Rewarded;
    assert c.avatars[2 * k + 1].View() == old(c.avatars[2 * k + 1].View());
  }

  method AllFinished(c: Cast) returns (over: bool)
    ensures over <==> forall i :: 0 <= i < |c.avatars| ==> c.avatars[i].mIsFinish
  {
    for k := 0 to |c.avatars|
      invariant forall i :: 0 <= i < k ==> c.avatars[i].mIsFinish
    {
      if !c.avatars[k].mIsFinish {
        return false;
      }
    }
    return true;
  }

  /** Same stage, more moves. */
  ghost predicate Later(course: Course, now: Course) {
    now == course.(moves := now.moves) && |now.moves| == |course.moves| &&
    (forall k :: 0 <= k < |course.moves| ==> course.moves[k] <= now.moves[k])
  }

  ghost predicate Fits(course: Course, rules: Rules, round: nat) { course.judged == 0 && course.rules == rules && course.round == round }

  /** What a stage in order says about one pair. */
  lemma PairFacts(c: Cast, course: Course, k: nat)
    requires Casting(c) && StageGood(c, course) && k < |c.avatars| / 2
    ensures c.avatars[2 * k].Equipped() && c.avatars[2 * k + 1].Equipped()
    ensures c.avatars[2 * k].mUsingItem == c.gear[2 * k] && c.avatars[2 * k + 1].mUsingItem == c.gear[2 * k + 1]
  {
    hide FightGood, BattleAvatar.View, Penalty;
    assert AvatarGood(c.avatars[2 * k], TermsOf(c, course, 2 * k), 2 * k < 2 * course.judged);
    assert AvatarGood(c.avatars[2 * k + 1], TermsOf(c, course, 2 * k + 1), 2 * k + 1 < 2 * course.judged);
    GearOf(c, course, k);
  }

  /** Pair k of the half round: passed over if it is finished. */
  method Act(c: Cast, ghost course: Course, rules: Rules, k: nat, second: bool, index: nat, round: nat, ghost plan: Plan, ghost n: nat)
      returns (ghost now: Course)
    requires Casting(c) && StageGood(c, course) && Fits(course, rules, round)
    requires k < |c.avatars| / 2 && index < MAX_USING_ITEM_COUNT
    requires |course.moves| == |c.avatars| / 2 && InCycle(c, course, plan, n, k, if second then index + 1 else index, index)
    modifies c.avatars[2 * k], c.avatars[2 * k + 1], c.avatars[2 * k].Owner(), c.avatars[2 * k + 1].Owner()
    ensures StageGood(c, now) && Later(course, now)
    ensures forall j :: 0 <= j < |course.moves| && j != k ==> now.moves[j] == course.moves[j]
    ensures InCycle(c, now, plan, n, k, index + 1, if second then index + 1 else index)
  {
    hide StageGood, BattleAvatar.View, ActsAt, OnSchedule, OrderOf, MovesOf;
    now := course;
    FlagsAgree(c, course, k);
    PairFacts(c, course, k);
    var finished := if second then c.avatars[2 * k + 1].mIsFinish else c.avatars[2 * k].mIsFinish;
    if !finished {
      ghost var move := PairTurn(c, course, rules, k, second, index, round);
      now := MovedOn(course, k, move);
      ScheduleGrows(c, rules, plan, k, course.moves[k], move, n, if second then 2 * index + 1 else 2 * index);
    }
  }

  ghost predicate AllInCycle(c: Cast, course: Course, plan: Plan, n: nat, from: nat, to: nat, n1: nat, n2: nat)
    requires to <= |c.avatars| / 2 && to <= |course.moves|
    reads c.avatars
  {
    forall k :: from <= k < to ==> InCycle(c, course, plan, n, k, n1, n2)
  }

  ghost predicate AllBetween(c: Cast, course: Course, plan: Plan, n: nat, to: nat)
    requires to <= |c.avatars| / 2 && to <= |course.moves|
    reads c.avatars
  {
    forall k :: 0 <= k < to ==> BetweenCycles(c, course, plan, n, k)
  }

  ghost predicate AllPlanned(c: Cast, course: Course, plan: Plan) {
    forall k :: 0 <= k < |course.moves| ==> Planned(c, course, plan, k)
  }

  lemma PairsDisjoint(c: Cast, j: nat, k: nat)
    requires Casting(c) && j < |c.avatars| / 2 && k < |c.avatars| / 2 && j != k
    ensures c.avatars[2 * j] != c.avatars[2 * k] && c.avatars[2 * j] != c.avatars[2 * k + 1]
    ensures c.avatars[2 * j + 1] != c.avatars[2 * k] && c.avatars[2 * j + 1] != c.avatars[2 * k + 1]
  {
  }

  /** One pair's step of a half round; the other pairs stay where they are in the cycle. */
  method ActAmongOthers(c: Cast, ghost course: Course, rules: Rules, k: nat, second: bool, index: nat, round: nat, ghost plan: Plan, ghost n: nat)
      returns (ghost now: Course)
    requires Casting(c) && StageGood(c, course) && Fits(course, rules, round)
    requires k < |c.avatars| / 2 == |course.moves| && index < MAX_USING_ITEM_COUNT
    requires AllInCycle(c, course, plan, n, 0, k, index + 1, if second then index + 1 else index)
    requires AllInCycle(c, course, plan, n, k, |course.moves|, if second then index + 1 else index, index)
    modifies c.avatars, c.clients
    ensures StageGood(c, now) && Later(course, now)
    ensures AllInCycle(c, now, plan, n, 0, k + 1, index + 1, if second then index + 1 else index)
    ensures AllInCycle(c, now, plan, n, k + 1, |course.moves|, if second then index + 1 else index, index)
  {
    hide Casting, StageGood, BattleAvatar.View, InCycle;
    Departures(c, course);
    OwnersAreClients(c, course, k);
    assert InCycle(c, course, plan, n, k, if second then index + 1 else index, index);
    label before:
    now := Act(c, course, rules, k, second, index, round, plan, n);
    ghost var first, done := index + 1, if second then index + 1 else index;
    forall j | 0 <= j < k
      ensures InCycle(c, now, plan, n, j, first, done)
    {
      assert old@before(InCycle(c, course, plan, n, j, first, done));
      PairsDisjoint(c, j, k);
      CycleFrame(c, j, course, now, plan, n, first, done);
    }
    forall j | k < j < |course.moves|
      ensures InCycle(c, now, plan, n, j, done, index)
    {
      assert old@before(InCycle(c, course, plan, n, j, done, index));
      PairsDisjoint(c, j, k);
      CycleFrame(c, j, course, now, plan, n, done, index);
    }
  }

  lemma CycleFrame(c: Cast, j: nat, course: Course, now: Course, plan: Plan, n: nat, n1: nat, n2: nat)
    requires j < |c.avatars| / 2 && j < |course.moves| && j < |now.moves| && course.moves[j] == now.moves[j] && course.rules == now.rules
    ensures InCycle(c, course, plan, n, j, n1, n2) == InCycle(c, now, plan, n, j, n1, n2)
    ensures BetweenCycles(c, course, plan, n, j) == BetweenCycles(c, now, plan, n, j)
  {
    hide OnSchedule, OrderOf;
  }

  lemma NoneYet(c: Cast, course: Course, plan: Plan, n: nat, n1: nat, n2: nat)
    ensures AllInCycle(c, course, plan, n, 0, 0, n1, n2) && AllBetween(c, course, plan, n, 0)
  {
  }

  /** The first (or the second) avatar of every pair activates its index-th relic. */
  method HalfRound(c: Cast, ghost course: Course, rules: Rules, second: bool, index: nat, round: nat, ghost plan: Plan, ghost n: nat)
      returns (ghost now: Course)
    requires Casting(c) && StageGood(c, course) && Fits(course, rules, round)
    requires |c.avatars| / 2 == |course.moves| && index < MAX_USING_ITEM_COUNT
    requires AllInCycle(c, course, plan, n, 0, |course.moves|, if second then index + 1 else index, index)
    modifies c.avatars, c.clients
    ensures StageGood(c, now) && Later(course, now)
    ensures AllInCycle(c, now, plan, n, 0, |course.moves|, index + 1, if second then index + 1 else index)
  {
    hide Casting, StageGood, AllInCycle;
    now := course;
    NoneYet(c, now, plan, n, index + 1, if second then index + 1 else index);
    for k := 0 to |c.avatars| / 2
      invariant StageGood(c, now) && Later(course, now)
      invariant AllInCycle(c, now, plan, n, 0, k, index + 1, if second then index + 1 else index)
      invariant AllInCycle(c, now, plan, n, k, |course.moves|, if second then index + 1 else index, index)
    {
      now := ActAmongOthers(c, now, rules, k, second, index, round, plan, n);
    }
  }

  lemma OwnersAreClients(c: Cast, course: Course, k: nat)
    requires Casting(c) && StageGood(c, course) && k < |c.avatars| / 2
    ensures |c.clients| == |c.avatars|
    ensures c.avatars[2 * k].mClient == c.clients[2 * k] && c.avatars[2 * k + 1].mClient == c.clients[2 * k + 1]
  {
    hide FightGood, BattleAvatar.View, Penalty;
    assert AvatarGood(c.avatars[2 * k], TermsOf(c, course, 2 * k), 2 * k < 2 * course.judged);
    assert AvatarGood(c.avatars[2 * k + 1], TermsOf(c, course, 2 * k + 1), 2 * k + 1 < 2 * course.judged);
  }

  // ---- The end of a cycle ----

  /** The end of the cycle for pair k, unless it is finished. */
  method Close(c: Cast, ghost course: Course, rules: Rules, k: nat, round: nat, ghost plan: Plan, ghost n: nat) returns (ghost now: Course)
    requires Casting(c) && StageGood(c, course) && Fits(course, rules, round)
    requires k < |c.avatars| / 2 == |course.moves|
    requires InCycle(c, course, plan, n, k, MAX_USING_ITEM_COUNT, MAX_USING_ITEM_COUNT)
    modifies c.avatars[2 * k], c.avatars[2 * k + 1], c.avatars[2 * k].Owner(), c.avatars[2 * k + 1].Owner()
    ensures StageGood(c, now) && Later(course, now)
    ensures forall j :: 0 <= j < |course.moves| && j != k ==> now.moves[j] == course.moves[j]
    ensures BetweenCycles(c, now, plan, n + 1, k)
  {
    hide StageGood, BattleAvatar.View, ActsAt, OnSchedule, BattleAvatar.Equipped, OrderOf, DrawsOrder, MovesOf;
    now := course;
    OrdersKept(course.rules, plan, n);
    PlaceOf(n, CYCLE - 1);
    if !c.avatars[2 * k].mIsFinish {
      ghost var move := PairEndCycle(c, course, rules, k, round);
      now := MovedOn(course, k, move);
      ScheduleGrows(c, rules, plan, k, course.moves[k], move, n, CYCLE - 1);
    }
  }

  lemma OrdersKept(rules: Rules, plan: Plan, n: nat)
    ensures forall j :: 0 <= j < |plan.kept| && !DrawsOrder(rules, false, j) ==> OrderOf(rules, plan, n, j) == plan.kept[j]
  {
  }

  method CloseAmongOthers(c: Cast, ghost course: Course, rules: Rules, k: nat, round: nat, ghost plan: Plan, ghost n: nat) returns (ghost now: Course)
    requires Casting(c) && StageGood(c, course) && Fits(course, rules, round)
    requires k < |c.avatars| / 2 == |course.moves|
    requires AllBetween(c, course, plan, n + 1, k)
    requires AllInCycle(c, course, plan, n, k, |course.moves|, MAX_USING_ITEM_COUNT, MAX_USING_ITEM_COUNT)
    modifies c.avatars, c.clients
    ensures StageGood(c, now) && Later(course, now)
    ensures AllBetween(c, now, plan, n + 1, k + 1)
    ensures AllInCycle(c, now, plan, n, k + 1, |course.moves|, MAX_USING_ITEM_COUNT, MAX_USING_ITEM_COUNT)
  {
    hide Casting, StageGood, BattleAvatar.View, InCycle, BetweenCycles;
    Departures(c, course);
    OwnersAreClients(c, course, k);
    assert InCycle(c, course, plan, n, k, MAX_USING_ITEM_COUNT, MAX_USING_ITEM_COUNT);
    label before:
    now := Close(c, course, rules, k, round, plan, n);
    ghost var next := n + 1;
    forall j | 0 <= j < k
      ensures BetweenCycles(c, now, plan, next, j)
    {
      assert old@before(BetweenCycles(c, course, plan, next, j));
      PairsDisjoint(c, j, k);
      CycleFrame(c, j, course, now, plan, next, 0, 0);
    }
    forall j | k < j < |course.moves|
      ensures InCycle(c, now, plan, n, j, MAX_USING_ITEM_COUNT, MAX_USING_ITEM_COUNT)
    {
      assert old@before(InCycle(c, course, plan, n, j, MAX_USING_ITEM_COUNT, MAX_USING_ITEM_COUNT));
      PairsDisjoint(c, j, k);
      CycleFrame(c, j, course, now, plan, n, MAX_USING_ITEM_COUNT, MAX_USING_ITEM_COUNT);
    }
  }

  /** Bombs and the end of the cycle, for every pair. */
  method EndCycles(c: Cast, ghost course: Course, rules: Rules, round: nat, ghost plan: Plan, ghost n: nat) returns (ghost now: Course)
    requires Casting(c) && StageGood(c, course) && Fits(course, rules, round)
    requires |c.avatars| / 2 == |course.moves|
    requires AllInCycle(c, course, plan, n, 0, |course.moves|, MAX_USING_ITEM_COUNT, MAX_USING_ITEM_COUNT)
    modifies c.avatars, c.clients
    ensures StageGood(c, now) && Later(course, now) && AllBetween(c, now, plan, n + 1, |course.moves|)
  {
    hide Casting, StageGood, AllInCycle, AllBetween;
    now := course;
    NoneYet(c, now, plan, n + 1, 0, 0);
    for k := 0 to |c.avatars| / 2
      invariant StageGood(c, now) && Later(course, now)
      invariant AllBetween(c, now, plan, n + 1, k)
      invariant AllInCycle(c, now, plan, n, k, |course.moves|, MAX_USING_ITEM_COUNT, MAX_USING_ITEM_COUNT)
    {
      now := CloseAmongOthers(c, now, rules, k, round, plan, n);
    }
  }

  // ---- The cycle ----

  method SetQueue(c: Cast, ghost course: Course, avatar: BattleAvatar, queue: seq<nat>)
    requires Casting(c) && StageGood(c, course) && IsOrder(queue)
    modifies avatar`mActiveQueue
    ensures StageGood(c, course) && avatar.mActiveQueue == queue
  {
    hide Run, Settled, Judged, IsOrder, BattleAvatar.View, Fighting, KnownMoves, Penalty, HealthAfter, Rewarded;
    avatar.SetActiveQueue(queue);
    forall i | 0 <= i < |c.avatars|
      ensures c.avatars[i].View() == old(c.avatars[i].View())
    {
      assert c.avatars[i] != avatar ==> unchanged(c.avatars[i]);
    }
    forall i | 0 <= i < |c.avatars|
      ensures AvatarGood(c.avatars[i], TermsOf(c, course, i), i < 2 * course.judged)
    {
      assert old(AvatarGood(c.avatars[i], TermsOf(c, course, i), i < 2 * course.judged));
    }
    forall k | 0 <= k < |course.gifts|
      ensures PrizeGood(c.avatars[2 * k + 1], c.clients[2 * k], c.ghosts[2 * k], course.rules, course.gifts[k])
    {
      assert old(PrizeGood(c.avatars[2 * k + 1], c.clients[2 * k], c.ghosts[2 * k], course.rules, course.gifts[k]));
    }
    forall k | 0 <= k < |course.start|
      ensures FightGood(c.avatars[2 * k], c.avatars[2 * k + 1], course.rules, course.start[k], course.moves[k])
    {
      assert old(FightGood(c.avatars[2 * k], c.avatars[2 * k + 1], course.rules, course.start[k], course.moves[k]));
    }
  }

  /** Who draws gets the order its draws give; the others keep theirs. */
  twostate predicate QueuesDrawn(c: Cast, rules: Rules, draws: (nat, nat, nat) -> nat, n: nat, to: nat)
    requires to <= |c.avatars|
    reads c.avatars
  {
    forall j :: 0 <= j < |c.avatars| ==>
      if j < to && DrawsOrder(rules, c.avatars[j].mIsFinish, j) then QueueOf(c.avatars[j], draws, n, j)
      else c.avatars[j].mActiveQueue == old(c.avatars[j].mActiveQueue)
  }

  ghost predicate QueueOf(a: BattleAvatar, draws: (nat, nat, nat) -> nat, n: nat, j: nat)
    reads a
  {
    a.mActiveQueue == Drawn(ACTIVE_PERCENTS, DrawsOf(draws, n, j), MAX_USING_ITEM_COUNT)
  }

  method DrawQueue(c: Cast, ghost course: Course, rules: Rules, j: nat, draws: (nat, nat, nat) -> nat, n: nat)
    requires Casting(c) && StageGood(c, course) && j < |c.avatars|
    modifies {c.avatars[j]}`mActiveQueue
    ensures StageGood(c, course)
    ensures if DrawsOrder(rules, c.avatars[j].mIsFinish, j) then QueueOf(c.avatars[j], draws, n, j)
            else c.avatars[j].mActiveQueue == old(c.avatars[j].mActiveQueue)
  {
    hide Casting, StageGood, IsOrder, Drawn;
    if DrawsOrder(rules, c.avatars[j].mIsFinish, j) {
      var queue := GetItemActiveQueue(ACTIVE_PERCENTS, DrawsOf(draws, n, j));
      SetQueue(c, course, c.avatars[j], queue);
    }
  }

  /** The drawing loop over the avatars. */
  method DrawQueues(c: Cast, ghost course: Course, rules: Rules, draws: (nat, nat, nat) -> nat, n: nat)
    requires Casting(c) && StageGood(c, course)
    modifies c.avatars`mActiveQueue
    ensures StageGood(c, course)
    ensures QueuesDrawn(c, rules, draws, n, |c.avatars|)
  {
    hide StageGood, QueueOf;
    for j := 0 to |c.avatars|
      invariant StageGood(c, course)
      invariant QueuesDrawn(c, rules, draws, n, j)
    {
      DrawQueue(c, course, rules, j, draws, n);
    }
  }

  /** With the orders drawn the n-th cycle can begin. */
  twostate lemma CycleBegins(c: Cast, new course: Course, new plan: Plan, new n: nat)
    requires Casting(c) && |course.moves| == |c.avatars| / 2 && StageGood(c, course)
    requires old(AllBetween(c, course, plan, n, |course.moves|)) && QueuesDrawn(c, course.rules, plan.draws, n, |c.avatars|)
    requires forall i :: 0 <= i < |c.avatars| ==>
               c.avatars[i].mIsFinish == old(c.avatars[i].mIsFinish) && c.avatars[i].mEffectItemCount == old(c.avatars[i].mEffectItemCount)
    ensures AllInCycle(c, course, plan, n, 0, |course.moves|, 0, 0)
  {
    hide StageGood, OnSchedule, Drawn;
    forall k | 0 <= k < |course.moves|
      ensures InCycle(c, course, plan, n, k, 0, 0)
    {
      assert old(BetweenCycles(c, course, plan, n, k));
      FlagsAgree(c, course, k);
    }
  }

  /** What one cycle of the stage can come to. */
  datatype Verdict = Continues | AllOver | Closed

  /** Whether the room is found closed after round i of the n-th cycle. */
  predicate ClosesAt(closes: nat -> bool, n: nat, i: nat) { closes(MAX_USING_ITEM_COUNT * n + i) }

  /** The stage stops after round i of the n-th cycle: no round before it closed the room, and the
      pairs that still fight have made all their turns up to it. */
  ghost predicate StoppedAt(c: Cast, course: Course, closes: nat -> bool, n: nat, i: nat)
    requires |course.moves| == |c.avatars| / 2
    reads c.avatars
  {
    i < MAX_USING_ITEM_COUNT && ClosesAt(closes, n, i) && (forall j :: 0 <= j < i ==> !ClosesAt(closes, n, j)) &&
    forall k :: 0 <= k < |course.moves| && !c.avatars[2 * k].mIsFinish ==> |course.moves[k]| == MovesOf(n) + 2 * (i + 1)
  }

  lemma StopsHere(c: Cast, course: Course, plan: Plan, closes: nat -> bool, n: nat, i: nat)
    requires |course.moves| == |c.avatars| / 2 && i < MAX_USING_ITEM_COUNT
    requires AllInCycle(c, course, plan, n, 0, |course.moves|, i + 1, i + 1)
    requires ClosesAt(closes, n, i) && forall j :: 0 <= j < i ==> !ClosesAt(closes, n, j)
    ensures StoppedAt(c, course, closes, n, i)
  {
    hide ClosesAt, Planned, OrderOf, MovesOf;
    ghost var m := i + 1;
    forall k | 0 <= k < |course.moves| && !c.avatars[2 * k].mIsFinish
      ensures |course.moves[k]| == MovesOf(n) + 2 * (i + 1)
    {
      assert InCycle(c, course, plan, n, k, m, m);
    }
  }

  lemma CyclePlanned(c: Cast, course: Course, plan: Plan, n: nat, n1: nat, n2: nat)
    requires |course.moves| == |c.avatars| / 2 && AllInCycle(c, course, plan, n, 0, |course.moves|, n1, n2)
    ensures AllPlanned(c, course, plan)
  {
    hide Planned;
    forall k | 0 <= k < |course.moves|
      ensures Planned(c, course, plan, k)
    {
      assert InCycle(c, course, plan, n, k, n1, n2);
    }
  }

  lemma BetweenPlanned(c: Cast, course: Course, plan: Plan, n: nat)
    requires |course.moves| == |c.avatars| / 2 && AllBetween(c, course, plan, n, |course.moves|)
    ensures AllPlanned(c, course, plan)
  {
    hide Planned;
    forall k | 0 <= k < |course.moves|
      ensures Planned(c, course, plan, k)
    {
      assert BetweenCycles(c, course, plan, n, k);
    }
  }

  /** The six rounds of both sides; the room may turn out closed after any of them. */
  method Rounds(c: Cast, ghost course: Course, rules: Rules, round: nat, closes: nat -> bool, n: nat, ghost plan: Plan)
      returns (verdict: Verdict, ghost now: Course)
    requires Casting(c) && StageGood(c, course) && Fits(course, rules, round)
    requires |course.moves| == |c.avatars| / 2 && AllInCycle(c, course, plan, n, 0, |course.moves|, 0, 0)
    modifies c.avatars, c.clients
    ensures StageGood(c, now) && Later(course, now) && AllPlanned(c, now, plan)
    ensures verdict.AllOver? ==> forall i :: 0 <= i < |c.avatars| ==> c.avatars[i].mIsFinish
    ensures verdict.Continues? ==> AllInCycle(c, now, plan, n, 0, |course.moves|, MAX_USING_ITEM_COUNT, MAX_USING_ITEM_COUNT)
    ensures verdict.Continues? ==> forall i :: 0 <= i < MAX_USING_ITEM_COUNT ==> !ClosesAt(closes, n, i)
    ensures verdict.Closed? ==> exists i :: 0 <= i && StoppedAt(c, now, closes, n, i)
  {
    hide Casting, StageGood, AllInCycle, AllPlanned, ClosesAt, StoppedAt;
    now := course;
    CyclePlanned(c, now, plan, n, 0, 0);
    for activeItemIndex := 0 to MAX_USING_ITEM_COUNT
      invariant StageGood(c, now) && Later(course, now) && AllPlanned(c, now, plan)
      invariant AllInCycle(c, now, plan, n, 0, |course.moves|, activeItemIndex, activeItemIndex)
      invariant forall j :: 0 <= j < activeItemIndex ==> !ClosesAt(closes, n, j)
    {
      now := HalfRound(c, now, rules, false, activeItemIndex, round, plan, n);
      CyclePlanned(c, now, plan, n, activeItemIndex + 1, activeItemIndex);
      var over := AllFinished(c);
      if over {
        return AllOver, now;
      }
      now := HalfRound(c, now, rules, true, activeItemIndex, round, plan, n);
      CyclePlanned(c, now, plan, n, activeItemIndex + 1, activeItemIndex + 1);
      over := AllFinished(c);
      if over {
        return AllOver, now;
      }
      if ClosesAt(closes, n, activeItemIndex) {
        StopsHere(c, now, plan, closes, n, activeItemIndex);
        return Closed, now;
      }
    }
    verdict := Continues;
  }

  /** The n-th cycle: the orders its draws give, six rounds of both sides, then the end of the
      cycle. Whatever becomes of it, every pair has kept to the schedule. */
  method Cycle(c: Cast, ghost course: Course, rules: Rules, round: nat, draws: (nat, nat, nat) -> nat, closes: nat -> bool, n: nat, ghost plan: Plan)
      returns (verdict: Verdict, ghost now: Course)
    requires Casting(c) && StageGood(c, course) && Fits(course, rules, round) && plan.draws == draws
    requires |course.moves| == |c.avatars| / 2 && AllBetween(c, course, plan, n, |course.moves|)
    modifies c.avatars, c.clients
    ensures StageGood(c, now) && Later(course, now) && AllPlanned(c, now, plan)
    ensures verdict.AllOver? ==> forall i :: 0 <= i < |c.avatars| ==> c.avatars[i].mIsFinish
    ensures verdict.Continues? ==> AllBetween(c, now, plan, n + 1, |course.moves|)
    ensures verdict.Continues? ==> forall i :: 0 <= i < MAX_USING_ITEM_COUNT ==> !ClosesAt(closes, n, i)
    ensures verdict.Closed? ==> exists i :: 0 <= i && StoppedAt(c, now, closes, n, i)
  {
    hide Casting, StageGood, AllInCycle, AllBetween, AllPlanned, QueuesDrawn, ClosesAt, StoppedAt;
    Departures(c, course);
    assert AllBetween(c, course, plan, n, |course.moves|);
    label before:
    DrawQueues(c, course, rules, draws, n);
    assert QueuesDrawn@before(c, rules, draws, n, |c.avatars|);
    CycleBegins@before(c, course, plan, n);
    verdict, now := Rounds(c, course, rules, round, closes, n, plan);
    if !verdict.Continues? {
      return;
    }
    now := EndCycles(c, now, rules, round, plan, n);
    BetweenPlanned(c, now, plan, n + 1);
  }

  // ---- The bell and the whole stage ----

  /** A finished pair was settled before the bell. */
  lemma FinishedIsJudged(c: Cast, course: Course, k: nat)
    requires Casting(c) && StageGood(c, course) && course.judged == k < |c.avatars| / 2 && c.avatars[2 * k].mIsFinish
    ensures StageGood(c, course.(judged := k + 1))
  {
    hide FightGood, AvatarGood, PrizeGood, Geared, Penalty;
    FlagsAgree(c, course, k);
    var next := course.(judged := k + 1);
    forall i | 0 <= i < |c.avatars|
      ensures AvatarGood(c.avatars[i], TermsOf(c, next, i), i < 2 * (k + 1))
    {
      assert TermsOf(c, next, i) == TermsOf(c, course, i);
      assert AvatarGood(c.avatars[i], TermsOf(c, course, i), i < 2 * k);
      if i / 2 == k {
        assert i == 2 * k || i == 2 * k + 1;
        JudgedEarly(c.avatars[i], TermsOf(c, course, i));
      }
    }
  }

  lemma JudgedEarly(a: BattleAvatar, t: Terms)
    requires AvatarGood(a, t, false) && a.mIsFinish
    ensures AvatarGood(a, t, true)
  {
    hide BattleAvatar.View, HealthAfter, BattleAvatar.Equipped;
    Seen(a);
  }

  ghost predicate CreepsHaveNoClient(c: Cast, rules: Rules)
    requires Casting(c)
  {
    rules.Creep? ==> forall k {:trigger c.avatars[2 * k]} :: 0 <= k < |c.avatars| / 2 ==> c.clients[2 * k + 1] == null
  }

  /** Time is up: the pairs still fighting are judged. */
  method Bell(c: Cast, ghost course: Course, rules: Rules, round: nat) returns (ghost now: Course)
    requires Casting(c) && StageGood(c, course) && Fits(course, rules, round)
    requires CreepsHaveNoClient(c, rules)
    modifies c.avatars, c.clients
    ensures StageGood(c, now) && Later(course, now.(judged := 0)) && now.judged == |c.avatars| / 2
    ensures forall k :: 0 <= k < |course.moves| ==> Rung(course.moves[k], now.moves[k])
  {
    hide Casting, StageGood;
    ShapeOf(c, course);
    now := course;
    for k := 0 to |c.avatars| / 2
      invariant StageGood(c, now) && Later(course, now.(judged := 0)) && now.judged == k
      invariant forall j :: 0 <= j < |course.moves| ==> Rung(course.moves[j], now.moves[j])
      invariant forall j :: k <= j < |course.moves| ==> course.moves[j] == now.moves[j]
    {
      Departures(c, now);
      OwnersAreClients(c, now, k);
      if c.avatars[2 * k].mIsFinish {
        FinishedIsJudged(c, now, k);
        now := now.(judged := k + 1);
      } else {
        ghost var move := PairTimeUp(c, now, rules, k, round);
        now := MovedOn(now, k, move);
      }
    }
  }

  ghost predicate Rung(before: seq<Move>, after: seq<Move>) {
    after == before || (|after| == |before| + 1 && after[..|before|] == before && after[|before|].TimeUp?)
  }

  /** Everybody in place: equipped, standing, unhurt, with nothing activated yet. A pair whose
      client has already left enters finished. */
  ghost predicate Ready(c: Cast)
    requires Casting(c)
    reads c.avatars
  {
    (forall i :: 0 <= i < |c.avatars| ==> Newly(c.avatars[i], c.clients[i], c.ghosts[i], c.gear[i])) &&
    forall k :: 0 <= k < |c.avatars| / 2 ==> c.avatars[2 * k].mIsFinish == c.avatars[2 * k + 1].mIsFinish
  }

  ghost predicate Newly(a: BattleAvatar, client: Client?, isGhost: bool, gear: seq<Item>)
    reads a
  {
    a.Equipped() && a.mClient == client && a.mIsGhost == isGhost && a.mUsingItem == gear &&
    a.View().Sound() && a.mHp > 0 && !a.mIsCharacterDamage && a.mEffectItemCount == 0
  }

  ghost function Calls(c: Cast): (calls: seq<nat>)
    requires Casting(c)
    reads c.clients
    ensures |calls| == |c.avatars| && forall i :: 0 <= i < |calls| && c.clients[i] != null ==> calls[i] == c.clients[i].damageCalls
  {
    seq(|c.avatars|, i requires 0 <= i < |c.avatars| reads c.clients => if c.clients[i] == null then 0 else c.clients[i].damageCalls)
  }

  ghost function Healths(c: Cast): (healths: seq<int>)
    requires Casting(c)
    reads c.clients
    ensures |healths| == |c.avatars| && forall i :: 0 <= i < |healths| && c.clients[i] != null ==> healths[i] == c.clients[i].mHp
  {
    seq(|c.avatars|, i requires 0 <= i < |c.avatars| reads c.clients => if c.clients[i] == null then 0 else c.clients[i].mHp)
  }

  /** What the client of each pair's first avatar had won. */
  ghost function Gifts(c: Cast): (gifts: seq<Winnings>)
    requires Casting(c)
    reads c.clients
    ensures |gifts| == |c.avatars| / 2
    ensures forall k :: 0 <= k < |gifts| && c.clients[2 * k] != null ==> gifts[k] == c.clients[2 * k].Won()
  {
    seq(|c.avatars| / 2, k requires 0 <= k < |c.avatars| / 2 reads c.clients =>
      if c.clients[2 * k] == null then Winnings(0, 0, 0, 0) else c.clients[2 * k].Won())
  }

  ghost function Starts(c: Cast): (start: seq<Pair>)
    requires Casting(c)
    reads c.avatars
    ensures |start| == |c.avatars| / 2
    ensures forall k :: 0 <= k < |start| ==> start[k] == Pair(c.avatars[2 * k].View(), c.avatars[2 * k + 1].View())
  {
    seq(|c.avatars| / 2, k requires 0 <= k < |c.avatars| / 2 reads c.avatars => Pair(c.avatars[2 * k].View(), c.avatars[2 * k + 1].View()))
  }

  ghost function NoMoves(n: nat): (moves: seq<seq<Move>>)
    ensures |moves| == n && forall k :: 0 <= k < n ==> moves[k] == []
  {
    seq(n, _ => [])
  }

  /** A stage before anything has happened. */
  ghost function Beginning(c: Cast, rules: Rules, round: nat): Course
    requires Casting(c)
    reads c.avatars, c.clients
  {
    Course(rules, round, Starts(c), NoMoves(|c.avatars| / 2), Calls(c), Healths(c), Gifts(c), 0)
  }

  /** The orders the avatars came with. */
  ghost function Kept(c: Cast): (kept: seq<seq<nat>>)
    requires Casting(c)
    reads c.avatars
    ensures |kept| == |c.avatars| && forall j :: 0 <= j < |kept| ==> kept[j] == c.avatars[j].mActiveQueue
  {
    seq(|c.avatars|, j requires 0 <= j < |c.avatars| reads c.avatars => c.avatars[j].mActiveQueue)
  }

  lemma Opening(c: Cast, rules: Rules, round: nat, draws: (nat, nat, nat) -> nat)
    requires Casting(c) && Ready(c)
    ensures var course := Beginning(c, rules, round);
            StageGood(c, course) && |course.moves| == |c.avatars| / 2 && AllBetween(c, course, Plan(draws, Kept(c)), 0, |course.moves|)
  {
    hide BattleAvatar.View, PrizeGood, AvatarGood, FightGood, Newly;
    var course := Beginning(c, rules, round);
    assert Shaped(c, course);
    forall k | 0 <= k < |course.start|
      ensures PrizeGood(c.avatars[2 * k + 1], c.clients[2 * k], c.ghosts[2 * k], rules, course.gifts[k])
      ensures FightGood(c.avatars[2 * k], c.avatars[2 * k + 1], rules, course.start[k], [])
      ensures BetweenCycles(c, course, Plan(draws, Kept(c)), 0, k)
    {
      NewPair(c.avatars[2 * k], c.avatars[2 * k + 1], c.clients[2 * k], c.clients[2 * k + 1], c.ghosts[2 * k], c.ghosts[2 * k + 1],
              c.gear[2 * k], c.gear[2 * k + 1], rules);
    }
    forall i | 0 <= i < |c.avatars|
      ensures AvatarGood(c.avatars[i], TermsOf(c, course, i), false) && c.avatars[i].mUsingItem == c.gear[i]
    {
      NewAvatar(c.avatars[i], c.gear[i], TermsOf(c, course, i));
    }
  }

  lemma NewAvatar(a: BattleAvatar, gear: seq<Item>, t: Terms)
    requires Newly(a, t.client, t.isGhost, gear)
    requires t.client != null ==> t.client.damageCalls == t.calls && t.client.mHp == t.health
    ensures AvatarGood(a, t, false) && a.mUsingItem == gear
  {
    hide BattleAvatar.View;
    Seen(a);
    GhostSeen(a);
  }

  lemma NewPair(a: BattleAvatar, b: BattleAvatar, client: Client?, other: Client?, isGhost: bool, isGhost': bool, gear: seq<Item>, gear': seq<Item>, rules: Rules)
    requires Newly(a, client, isGhost, gear) && Newly(b, other, isGhost', gear') && a.mIsFinish == b.mIsFinish
    ensures FightGood(a, b, rules, Pair(a.View(), b.View()), [])
    ensures PrizeGood(b, client, isGhost, rules, if client == null then Winnings(0, 0, 0, 0) else client.Won())
    ensures a.mEffectItemCount == 0 && b.mEffectItemCount == 0
  {
    hide BattleAvatar.View;
    Seen(a);
    Seen(b);
  }

  lemma GhostSeen(a: BattleAvatar)
    ensures a.View().role.isGhost == a.mIsGhost
  {
  }

  /** Once a pair is finished it stays finished. */
  lemma FinishedBefore(rules: Rules, start: Pair, before: seq<Move>, now: seq<Move>)
    requires KnownMoves(now) && Fighting(start) && before <= now
    ensures KnownMoves(before) && (Run(rules, start, before).first.role.isFinish ==> Run(rules, start, now).first.role.isFinish)
  {
    hide Run;
    assert before == now[..|before|];
    ZeroIsAbsorbing(rules, start, now, |before|);
  }

  twostate lemma StillFighting(c: Cast, new course: Course, new now: Course)
    requires Casting(c) && Shaped(c, course) && old(StageGood(c, course)) && StageGood(c, now)
    requires Later(course, now.(judged := course.judged))
    ensures forall k :: 0 <= k < |course.moves| && !c.avatars[2 * k].mIsFinish ==> old(!c.avatars[2 * k].mIsFinish)
  {
    hide BattleAvatar.View, AvatarGood, Run, KnownMoves, Penalty;
    forall k | 0 <= k < |course.moves| && !c.avatars[2 * k].mIsFinish
      ensures old(!c.avatars[2 * k].mIsFinish)
    {
      assert old(FightGood(c.avatars[2 * k], c.avatars[2 * k + 1], course.rules, course.start[k], course.moves[k]));
      assert FightGood(c.avatars[2 * k], c.avatars[2 * k + 1], now.rules, now.start[k], now.moves[k]);
      FinishedBefore(course.rules, course.start[k], course.moves[k], now.moves[k]);
      Seen(c.avatars[2 * k]);
      assert old(c.avatars[2 * k].View().role.isFinish) == old(c.avatars[2 * k].mIsFinish) by { SeenBefore(c.avatars[2 * k]); }
    }
  }

  twostate lemma SeenBefore(a: BattleAvatar)
    ensures old(a.View().role.isFinish) == old(a.mIsFinish)
  {
  }

  lemma {:induction false} AllJudged(c: Cast, course: Course, n: nat)
    requires Casting(c) && StageGood(c, course) && course.judged == 0 && n <= |c.avatars| / 2
    requires forall i :: 0 <= i < |c.avatars| ==> c.avatars[i].mIsFinish
    ensures StageGood(c, course.(judged := n))
  {
    hide StageGood;
    if n > 0 {
      AllJudged(c, course, n - 1);
      FinishedIsJudged(c, course.(judged := n - 1), n - 1);
    } else {
      assert course == course.(judged := 0);
    }
  }

  // ---- What the clients pay and win ----

  /** How often the client of the i-th avatar was hurt in the stage, if the avatar is a real one. */
  twostate predicate HurtAtMostOnce(c: Cast)
    requires Casting(c)
    reads c.clients
  {
    forall i :: 0 <= i < |c.clients| && !c.ghosts[i] ==>
      old(c.clients[i].damageCalls) <= c.clients[i].damageCalls <= old(c.clients[i].damageCalls) + 1
  }

  twostate predicate HurtExactly(c: Cast)
    requires Casting(c)
    reads c.avatars, c.clients
  {
    forall i :: 0 <= i < |c.clients| && !c.ghosts[i] && c.clients[i].mInRoom ==>
      c.clients[i].damageCalls == old(c.clients[i].damageCalls) + (if c.avatars[i].mHp == 0 || !c.avatars[i].mIsFinish then 1 else 0)
  }

  /** A hurt client has lost what it owes, down to zero at most, and nobody else has lost
      anything: for a beaten avatar one more than the tier of each relic the winner wears and twice
      the round, for an undecided fight ten and twice the round. */
  twostate predicate HealthPaid(c: Cast, round: nat)
    requires Casting(c)
    reads c.avatars, c.clients
  {
    forall i :: 0 <= i < |c.clients| && !c.ghosts[i] ==>
      PaysOnce(c.clients[i], BeatenDue(c, i, round), 10 + 2 * round, c.avatars[i])
  }

  twostate predicate PaysOnce(client: Client?, beaten: nat, undecided: nat, new a: BattleAvatar)
    reads client, a
  {
    client != null ==>
      client.mHp ==
        if client.damageCalls == old(client.damageCalls) then old(client.mHp)
        else Max(0, old(client.mHp) - (if a.mHp == 0 then beaten else undecided))
  }

  twostate lemma HurtAsJudged(c: Cast, new course: Course)
    requires Casting(c) && StageGood(c, course) && course.calls == old(Calls(c)) && course.healths == old(Healths(c))
    ensures HurtAtMostOnce(c) && HealthPaid(c, course.round)
    ensures course.judged == |c.avatars| / 2 ==> HurtExactly(c)
  {
    hide FightGood, BattleAvatar.View, BattleAvatar.Equipped, Penalty;
    forall i | 0 <= i < |c.clients| && !c.ghosts[i]
      ensures old(c.clients[i].damageCalls) <= c.clients[i].damageCalls <= old(c.clients[i].damageCalls) + 1
      ensures PaysOnce(c.clients[i], BeatenDue(c, i, course.round), 10 + 2 * course.round, c.avatars[i])
      ensures course.judged == |c.avatars| / 2 && c.clients[i].mInRoom ==>
                c.clients[i].damageCalls == old(c.clients[i].damageCalls) + (if c.avatars[i].mHp == 0 || !c.avatars[i].mIsFinish then 1 else 0)
    {
      assert AvatarGood(c.avatars[i], TermsOf(c, course, i), i < 2 * course.judged);
      assert course.calls[i] == old(c.clients[i].damageCalls) && course.healths[i] == old(c.clients[i].mHp);
      Seen(c.avatars[i]);
    }
  }

  /** In a creep stage each player's client was rewarded once at most, only if its creep fell to
      zero, and exactly then if it stayed in the room; each time with what the counter says. */
  twostate predicate RewardedForCreeps(c: Cast, creepRound: nat)
    requires Casting(c)
    reads c.avatars, c.clients
  {
    forall k :: 0 <= k < |c.avatars| / 2 && !c.ghosts[2 * k] ==>
      RewardedFor(c.clients[2 * k], c.avatars[2 * k + 1], creepRound)
  }

  twostate predicate RewardedFor(client: Client?, new creep: BattleAvatar, creepRound: nat)
    reads client, creep
  {
    client != null ==>
      (client.Won() == old(client.Won()) && (creep.mHp == 0 ==> !client.mInRoom)) ||
      (creep.mHp == 0 && Rewarded(old(client.Won()), client.Won(), creepRound))
  }

  twostate lemma RewardedAsGood(c: Cast, new course: Course)
    requires Casting(c) && StageGood(c, course) && course.rules.Creep? && course.gifts == old(Gifts(c))
    ensures RewardedForCreeps(c, course.rules.creepRound)
  {
    hide StageGood;
    forall k | 0 <= k < |c.avatars| / 2 && !c.ghosts[2 * k]
      ensures RewardedFor(c.clients[2 * k], c.avatars[2 * k + 1], course.rules.creepRound)
    {
      PrizeCounted(c, course, k);
    }
  }

  twostate lemma PrizeCounted(c: Cast, new course: Course, new k: nat)
    requires Casting(c) && StageGood(c, course) && course.rules.Creep? && course.gifts == old(Gifts(c))
    requires k < |c.avatars| / 2 && !c.ghosts[2 * k]
    ensures RewardedFor(c.clients[2 * k], c.avatars[2 * k + 1], course.rules.creepRound)
  {
    hide FightGood, AvatarGood, BattleAvatar.View, Rewarded, TermsOf;
    assert PrizeGood(c.avatars[2 * k + 1], c.clients[2 * k], c.ghosts[2 * k], course.rules, course.gifts[k]);
    assert course.gifts[k] == old(c.clients[2 * k].Won());
    Seen(c.avatars[2 * k + 1]);
  }

  /** What a stage does to the clients, however it ends. */
  twostate lemma StageAccounts(c: Cast, new course: Course)
    requires Casting(c) && StageGood(c, course)
    requires course.calls == old(Calls(c)) && course.healths == old(Healths(c)) && course.gifts == old(Gifts(c))
    ensures HurtAtMostOnce(c) && HealthPaid(c, course.round) && (course.rules.Creep? ==> RewardedForCreeps(c, course.rules.creepRound))
    ensures course.judged == |c.avatars| / 2 ==> HurtExactly(c)
  {
    hide Casting, StageGood, HurtAtMostOnce, HurtExactly, HealthPaid, RewardedForCreeps;
    HurtAsJudged(c, course);
    if course.rules.Creep? {
      RewardedAsGood(c, course);
    }
  }

  // ---- The stage ----

  /** The moves before the bell. */
  function Fight(moves: seq<Move>): seq<Move> {
    if moves != [] && moves[|moves| - 1].TimeUp? then moves[..|moves| - 1] else moves
  }

  /** Every fight keeps to the schedule from the first move to the bell. */
  ghost predicate AllScheduled(c: Cast, course: Course, plan: Plan) {
    |c.gear| == |c.avatars| == |plan.kept| && |course.moves| == |c.avatars| / 2 &&
    forall k :: 0 <= k < |course.moves| ==> OnSchedule(c, course.rules, plan, k, Fight(course.moves[k]))
  }

  lemma NoBellYet(c: Cast, rules: Rules, plan: Plan, k: nat, before: seq<Move>, after: seq<Move>)
    requires |c.gear| == |c.avatars| == |plan.kept| && 2 * k + 1 < |c.avatars|
    requires OnSchedule(c, rules, plan, k, before) && Rung(before, after)
    ensures Fight(after) == before
  {
    hide OrderOf;
    if before != [] {
      assert InPlan(c, rules, plan, k, |before| - 1, before[|before| - 1]);
    }
  }

  lemma ScheduledToTheBell(c: Cast, course: Course, now: Course, plan: Plan)
    requires |c.avatars| % 2 == 0 && |course.moves| == |c.avatars| / 2 && AllPlanned(c, course, plan)
    requires now.rules == course.rules && |now.moves| == |course.moves| && forall k :: 0 <= k < |course.moves| ==> Rung(course.moves[k], now.moves[k])
    requires |c.gear| == |c.avatars| == |plan.kept|
    ensures AllScheduled(c, now, plan) && forall k :: 0 <= k < |course.moves| ==> Fight(now.moves[k]) == course.moves[k]
  {
    hide OnSchedule, Rung, Fight;
    forall k | 0 <= k < |course.moves|
      ensures Fight(now.moves[k]) == course.moves[k] && OnSchedule(c, course.rules, plan, k, course.moves[k])
    {
      assert Planned(c, course, plan, k);
      NoBellYet(c, course.rules, plan, k, course.moves[k], now.moves[k]);
    }
  }

  lemma NotRung(course: Course)
    ensures forall k :: 0 <= k < |course.moves| ==> Rung(course.moves[k], course.moves[k])
  {
  }

  /** The fights that are still undecided have gone through ten cycles. */
  ghost predicate TenCycles(c: Cast, course: Course)
    requires |course.moves| == |c.avatars| / 2
    reads c.avatars
  {
    forall k :: 0 <= k < |course.moves| && !c.avatars[2 * k].mIsFinish ==> |Fight(course.moves[k])| == MovesOf(10)
  }

  /** How long the stage lasts: a completed one went through ten cycles if a fight is undecided,
      and no round closed the room before; any other stopped after the first round that did. */
  ghost predicate Lasts(c: Cast, course: Course, closes: nat -> bool, completed: bool)
    requires |course.moves| == |c.avatars| / 2
    reads c.avatars
  {
    if completed then
      TenCycles(c, course) && ((forall i :: 0 <= i < |c.avatars| ==> c.avatars[i].mIsFinish) || OpenBefore(closes, 10))
    else exists n: nat, i: nat :: n < 10 && OpenBefore(closes, n) && StoppedAt(c, course, closes, n, i)
  }

  /** No round of the first n cycles closed the room. */
  ghost predicate OpenBefore(closes: nat -> bool, n: nat) {
    forall m: nat, i: nat :: m < n && i < MAX_USING_ITEM_COUNT ==> !ClosesAt(closes, m, i)
  }

  twostate lemma TenCyclesPlayed(c: Cast, new before: Course, new now: Course, new plan: Plan)
    requires Casting(c) && Shaped(c, before) && old(StageGood(c, before)) && StageGood(c, now) && Later(before, now.(judged := before.judged))
    requires old(AllBetween(c, before, plan, 10, |before.moves|))
    requires forall k :: 0 <= k < |before.moves| ==> Fight(now.moves[k]) == before.moves[k]
    ensures TenCycles(c, now)
  {
    hide StageGood, Fight, Planned;
    StillFighting(c, before, now);
    forall k | 0 <= k < |now.moves| && !c.avatars[2 * k].mIsFinish
      ensures |Fight(now.moves[k])| == MovesOf(10)
    {
      assert old(BetweenCycles(c, before, plan, 10, k));
    }
  }

  /** The stage: up to ten cycles, then the bell. It ends early when every fight is decided or
      the room closes. However it ends, every fight is a run of the machine that keeps to the
      schedule its draws give, cycle by cycle. */
  method Stage(c: Cast, rules: Rules, round: nat, draws: (nat, nat, nat) -> nat, closes: nat -> bool) returns (completed: bool, ghost course: Course)
    requires Casting(c) && Ready(c) && CreepsHaveNoClient(c, rules)
    modifies c.avatars, c.clients
    ensures StageGood(c, course) && course.rules == rules && course.round == round && course.start == old(Starts(c))
    ensures AllScheduled(c, course, old(Plan(draws, Kept(c)))) && Lasts(c, course, closes, completed)
    ensures HurtAtMostOnce(c) && (completed ==> HurtExactly(c)) && HealthPaid(c, round)
    ensures rules.Creep? ==> RewardedForCreeps(c, rules.creepRound)
  {
    hide Casting, StageGood, HurtAtMostOnce, HurtExactly, HealthPaid, RewardedForCreeps, AllBetween, AllPlanned, Ready, CreepsHaveNoClient, Rung, Fight,
         ClosesAt, StoppedAt;
    assert |c.gear| == |c.avatars| && |c.avatars| % 2 == 0 by { CastShape(c); }
    Opening(c, rules, round, draws);
    course := Beginning(c, rules, round);
    ghost var plan := Plan(draws, Kept(c));
    BetweenPlanned(c, course, plan, 0);
    for battleLoop := 0 to 10
      invariant StageGood(c, course) && Fits(course, rules, round) && AllPlanned(c, course, plan)
      invariant course.start == old(Starts(c)) && course.calls == old(Calls(c)) && course.healths == old(Healths(c)) && course.gifts == old(Gifts(c))
      invariant |course.moves| == |c.avatars| / 2 && AllBetween(c, course, plan, battleLoop, |course.moves|)
      invariant OpenBefore(closes, battleLoop)
    {
      var verdict;
      verdict, course := Cycle(c, course, rules, round, draws, closes, battleLoop, plan);
      if !verdict.Continues? {
        NotRung(course);
        ScheduledToTheBell(c, course, course, plan);
        completed := verdict.AllOver?;
        if verdict.AllOver? {
          AllJudged(c, course, |c.avatars| / 2);
          course := course.(judged := |c.avatars| / 2);
          assert TenCycles(c, course);
        }
        StageAccounts(c, course);
        return;
      }
    }
    ghost var before := course;
    assert Shaped(c, before) by { ShapeOf(c, before); }
    label bell:
    course := Bell(c, course, rules, round);
    ScheduledToTheBell(c, before, course, plan);
    TenCyclesPlayed@bell(c, before, course, plan);
    StageAccounts(c, course);
    completed := true;
  }

  lemma CastShape(c: Cast)
    requires Casting(c)
    ensures |c.gear| == |c.avatars| == |c.clients| == |c.ghosts| && |c.avatars| % 2 == 0
  {
  }

  /** In a creep stage the moves of a pair reach one reward if its creep is at zero, and none
      otherwise. */
  lemma StageRewards(c: Cast, course: Course, k: nat)
    requires Casting(c) && StageGood(c, course) && course.rules.Creep? && k < |c.avatars| / 2
    requires course.start[k].second.body.hp > 0
    ensures KnownMoves(course.moves[k]) && Fighting(course.start[k])
    ensures TotalRewards(course.rules, course.start[k], course.moves[k]) == if c.avatars[2 * k + 1].mHp == 0 then 1 else 0
  {
    hide BattleAvatar.View, Run, AvatarGood, TotalRewards;
    assert FightGood(c.avatars[2 * k], c.avatars[2 * k + 1], course.rules, course.start[k], course.moves[k]);
    Seen(c.avatars[2 * k + 1]);
    CreepRewardOnce(course.rules, course.start[k], course.moves[k]);
  }

  /** Whatever happened before move n: an avatar at zero then is at zero now, and a pair that
      was finished then looks the same now. */
  lemma StageZeroIsAbsorbing(c: Cast, course: Course, k: nat, n: nat)
    requires Casting(c) && StageGood(c, course) && k < |c.avatars| / 2 && n <= |course.moves[k]|
    ensures KnownMoves(course.moves[k][..n]) && Fighting(course.start[k])
    ensures var then', now := Run(course.rules, course.start[k], course.moves[k][..n]), Pair(c.avatars[2 * k].View(), c.avatars[2 * k + 1].View());
            BattleRules.GoesOn(then'.first, now.first) && BattleRules.GoesOn(then'.second, now.second) &&
            (then'.first.role.isFinish ==> now == then') &&
            (then'.first.body.hp == 0 || then'.second.body.hp == 0 ==> now == then')
  {
    hide BattleAvatar.View, Run, AvatarGood;
    assert FightGood(c.avatars[2 * k], c.avatars[2 * k + 1], course.rules, course.start[k], course.moves[k]);
    ZeroIsAbsorbing(course.rules, course.start[k], course.moves[k], n);
  }
}

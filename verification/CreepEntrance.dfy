/** How the players of a room and their creeps become the avatars of a creep stage. */
module CreepEntrance {
  import opened Basics
  import opened Items
  import opened BattleStats
  import opened BattleRules
  import opened BattleStage
  import opened StageLoops
  import opened Avatar
  import opened Creeps
  import opened Entrance
  import Clients

  const CREEP_ID: int := 1000000

  /** Different clients, each with six relics. */
  ghost predicate Party(players: seq<Player>) {
    (forall i, j :: 0 <= i < j < |players| ==> players[i].client != players[j].client) &&
    (forall i :: 0 <= i < |players| ==> SixKnown(players[i].items))
  }

  /** Player k's avatar, fitted, with its hamburger chosen; the doctor's tool stays a tool. */
  ghost predicate PlayerReady(a: BattleAvatar, player: Player, round: nat, burgers: nat -> Hamburger)
    reads a
  {
    Fitted(a, player, false, round) && a.Equipped() && !a.mIsFinish && a.mUsingItem == player.items &&
    a.mHamburgerType == BurgerOf(player.items, burgers)
  }

  /** A creep as the room's counter asks for it: nothing fitted, nobody behind it. */
  ghost predicate CreepReady(a: BattleAvatar, creepRound: nat)
    reads a
  {
    var creep := CurCreepType(creepRound);
    a.Equipped() && a.mClient == null && a.mUsingItem == CreepItems(creep) && a.mActiveQueue == SLOT_ORDER &&
    a.View() == Newcomer(CreepMaxHp(creep), 0, true)
  }

  /** The hamburgers of one player, slot by slot. */
  method ChooseHamburgers(me: BattleAvatar, burgers: nat -> Hamburger, ghost player: Player, ghost round: nat)
    requires me.Equipped() && Fitted(me, player, false, round) && me.mUsingItem == player.items && !me.mIsFinish && me.mHamburgerType == Fillet
    modifies me`mHamburgerType
    ensures PlayerReady(me, player, round, burgers)
  {
    hide BattleAvatar.View, FittedStats, BattleAvatar.Equipped;
    ItemsKnown(me);
    ghost var gear := me.mUsingItem;
    for j := 0 to MAX_USING_ITEM_COUNT
      invariant me.Equipped() && Fitted(me, player, false, round) && me.mUsingItem == gear && !me.mIsFinish
      invariant me.mHamburgerType == BurgerOf(gear[..j], burgers)
    {
      assert gear[..j + 1][..j] == gear[..j];
      if me.mUsingItem[j].code == HAMBURGER {
        SetHamburger(me, burgers(j), player, false, round);
      }
    }
    assert gear[..MAX_USING_ITEM_COUNT] == gear;
  }

  /** One player and its creep. */
  method SummonPair(player: Player, networkID: nat, creepRound: nat, round: nat, burgers: nat -> Hamburger)
      returns (me: BattleAvatar, creep: BattleAvatar)
    requires SixKnown(player.items)
    ensures fresh(me) && fresh(creep) && me != creep && PlayerReady(me, player, round, burgers) && CreepReady(creep, creepRound)
  {
    hide BattleAvatar.View, FittedStats;
    me := new BattleAvatar.SetAvatar(player.client, networkID, false, round, player.firstAttackState, player.items);
    Fitting(me, player, false, round);
    ChooseHamburgers(me, burgers, player, round);
    var type' := CurCreepType(creepRound);
    creep := new BattleAvatar.SetCreep(networkID + CREEP_ID, CreepMaxHp(type'), CreepItems(type'));
  }

  ghost predicate PairsReady(avatars: seq<BattleAvatar>, players: seq<Player>, creepRound: nat, round: nat, burgers: (nat, nat) -> Hamburger, to: nat)
    requires 2 * to <= |avatars| && to <= |players|
    reads avatars
  {
    forall k :: 0 <= k < to ==> PairReady(avatars, players, creepRound, round, burgers, k)
  }

  ghost predicate PairReady(avatars: seq<BattleAvatar>, players: seq<Player>, creepRound: nat, round: nat, burgers: (nat, nat) -> Hamburger, k: nat)
    requires 2 * k + 1 < |avatars| && k < |players|
    reads avatars[2 * k], avatars[2 * k + 1]
  {
    PlayerReady(avatars[2 * k], players[k], round, BurgersOf(burgers, k)) && CreepReady(avatars[2 * k + 1], creepRound)
  }

  function BurgersOf(burgers: (nat, nat) -> Hamburger, k: nat): nat -> Hamburger { (j: nat) => burgers(k, j) }

  /** Avatars 2k and 2k+1 are player k and its creep. Making the creep raises the room's counter,
      so the rewards of this stage are looked up with the next one. */
  method Enter(players: seq<Player>, networkIDs: seq<nat>, creepRound: nat, round: nat, burgers: (nat, nat) -> Hamburger)
      returns (c: Cast, nextRound: nat)
    requires Party(players) && |networkIDs| == |players|
    ensures nextRound == creepRound + 1 && |c.avatars| == 2 * |players| && fresh(c.avatars)
    ensures PairsReady(c.avatars, players, creepRound, round, burgers, |players|)
    ensures Casting(c) && Ready(c) && CreepsHaveNoClient(c, Creep(nextRound)) && Kept(c) == SlotOrders(c)
    ensures forall k {:trigger players[k]} :: 0 <= k < |players| ==> c.clients[2 * k] == players[k].client && !c.ghosts[2 * k]
  {
    hide PlayerReady, CreepReady, SixKnown, Casting, Ready, CreepsHaveNoClient;
    var avatars: seq<BattleAvatar> := [];
    for i := 0 to |players|
      invariant |avatars| == 2 * i && fresh(avatars) && Apart(avatars)
      invariant PairsReady(avatars, players, creepRound, round, burgers, i)
    {
      var me, creep := SummonPair(players[i], networkIDs[i], creepRound, round, BurgersOf(burgers, i));
      ghost var before := avatars;
      avatars := avatars + [me, creep];
      assert PairsReady(before, players, creepRound, round, burgers, i);
      OnePairMore(before, me, creep, players, creepRound, round, burgers, i);
    }
    c := CastOf(avatars, players);
    PartyReady(avatars, players, creepRound, round, burgers);
    nextRound := creepRound + 1;
    NoCreepClients(c, nextRound);
  }

  lemma OnePairMore(avatars: seq<BattleAvatar>, me: BattleAvatar, creep: BattleAvatar, players: seq<Player>, creepRound: nat, round: nat, burgers: (nat, nat) -> Hamburger, i: nat)
    requires |avatars| == 2 * i && i < |players| && PairsReady(avatars, players, creepRound, round, burgers, i)
    requires PlayerReady(me, players[i], round, BurgersOf(burgers, i)) && CreepReady(creep, creepRound)
    ensures PairsReady(avatars + [me, creep], players, creepRound, round, burgers, i + 1)
  {
    hide PlayerReady, CreepReady, BurgersOf;
    var now := avatars + [me, creep];
    forall k | 0 <= k < i + 1
      ensures PairReady(now, players, creepRound, round, burgers, k)
    {
      if k < i {
        assert PairReady(avatars, players, creepRound, round, burgers, k);
        assert now[2 * k] == avatars[2 * k] && now[2 * k + 1] == avatars[2 * k + 1];
      } else {
        assert now[2 * k] == me && now[2 * k + 1] == creep;
      }
    }
  }

  function CastOf(avatars: seq<BattleAvatar>, players: seq<Player>): (c: Cast)
    requires |avatars| == 2 * |players|
    reads avatars
  {
    Cast(avatars,
         seq(|avatars|, i requires 0 <= i < |avatars| => if i % 2 == 0 then players[i / 2].client else null),
         seq(|avatars|, i requires 0 <= i < |avatars| => i % 2 == 1),
         seq(|avatars|, i requires 0 <= i < |avatars| reads avatars => avatars[i].mUsingItem))
  }

  /** What a stage asks of a player and of a creep. */
  lemma PairIsNew(a: BattleAvatar, b: BattleAvatar, player: Player, creepRound: nat, round: nat, burgers: nat -> Hamburger)
    requires PlayerReady(a, player, round, burgers) && CreepReady(b, creepRound)
    ensures Newly(a, player.client, false, a.mUsingItem) && Newly(b, null, true, b.mUsingItem)
    ensures SixKnown(a.mUsingItem) && SixKnown(b.mUsingItem) && !a.mIsFinish && !b.mIsFinish
    ensures a.mActiveQueue == SLOT_ORDER && b.mActiveQueue == SLOT_ORDER
  {
    hide CreepItems;
    FittedIsNew(a, player, false, round);
  }

  lemma PartyReady(avatars: seq<BattleAvatar>, players: seq<Player>, creepRound: nat, round: nat, burgers: (nat, nat) -> Hamburger)
    requires |avatars| == 2 * |players| && Party(players) && Apart(avatars)
    requires PairsReady(avatars, players, creepRound, round, burgers, |players|)
    ensures var c := CastOf(avatars, players); Casting(c) && Ready(c) && Kept(c) == SlotOrders(c)
  {
    hide PlayerReady, CreepReady, SixKnown, Newly;
    var c := CastOf(avatars, players);
    forall i | 0 <= i < |avatars|
      ensures Newly(c.avatars[i], c.clients[i], c.ghosts[i], c.gear[i]) && SixKnown(c.gear[i]) && !c.avatars[i].mIsFinish
      ensures c.avatars[i].mActiveQueue == SLOT_ORDER
    {
      var k := i / 2;
      assert i == 2 * k || i == 2 * k + 1;
      assert PairReady(avatars, players, creepRound, round, burgers, k);
      PairIsNew(avatars[2 * k], avatars[2 * k + 1], players[k], creepRound, round, BurgersOf(burgers, k));
    }
    forall i, j | 0 <= i < j < |avatars| && !c.ghosts[i] && !c.ghosts[j]
      ensures c.clients[i] != c.clients[j]
    {
      assert i % 2 == 0 && j % 2 == 0 && i / 2 < j / 2;
    }
  }

  lemma NoCreepClients(c: Cast, creepRound: nat)
    requires Casting(c) && forall i :: 0 <= i < |c.clients| && i % 2 == 1 ==> c.clients[i] == null
    ensures CreepsHaveNoClient(c, Creep(creepRound))
  {
  }

  ghost function ClientsIn(players: seq<Player>): set<Clients.Client> { set k | 0 <= k < |players| :: players[k].client }

  /** A client at one moment. */
  datatype Account = Account(health: int, calls: nat, won: Clients.Winnings, inRoom: bool)

  ghost function AccountOf(client: Clients.Client): Account
    reads client
  {
    Account(client.mHp, client.damageCalls, client.Won(), client.mInRoom)
  }

  /** How the fight of a player went: its avatar's HP and finish flag, and the creep's HP. */
  datatype Result = Result(hp: int, isFinish: bool, creepHp: int)

  /** What a creep stage does to one player: one payment at most, for the creep's relics and the
      round or for the bell; one reward at most, that of the next creep, if its creep fell, and
      one if so and it stayed. */
  ghost predicate Fair(before: Account, after: Account, result: Result, beaten: nat, round: nat, nextRound: nat, completed: bool) {
    before.calls <= after.calls <= before.calls + 1 &&
    after.health == (if after.calls == before.calls then before.health
                     else Max(0, before.health - (if result.hp == 0 then beaten else 10 + 2 * round))) &&
    (completed && after.inRoom ==> after.calls == before.calls + (if result.hp == 0 || !result.isFinish then 1 else 0)) &&
    ((after.won == before.won && (result.creepHp == 0 ==> !after.inRoom)) ||
     (result.creepHp == 0 && Rewarded(before.won, after.won, nextRound)))
  }

  twostate predicate Outcome(client: Clients.Client?, new me: BattleAvatar, new creep: BattleAvatar, beaten: nat, round: nat, nextRound: nat, completed: bool)
    reads client, me, creep
  {
    client != null &&
    Fair(old(AccountOf(client)), AccountOf(client), Result(me.mHp, me.mIsFinish, creep.mHp), beaten, round, nextRound, completed)
  }

  /** A whole creep stage of a party. */
  method CreepStage(players: seq<Player>, networkIDs: seq<nat>, creepRound: nat, round: nat, burgers: (nat, nat) -> Hamburger, draws: (nat, nat, nat) -> nat, closes: nat -> bool)
      returns (completed: bool, c: Cast, nextRound: nat, ghost course: Course)
    requires Party(players) && |networkIDs| == |players|
    modifies ClientsIn(players)
    ensures nextRound == creepRound + 1 && |c.avatars| == 2 * |players| && fresh(c.avatars)
    ensures Casting(c) && StageGood(c, course) && AllScheduled(c, course, Plan(draws, SlotOrders(c))) && Lasts(c, course, closes, completed)
    ensures StartedReady(course.start, players, creepRound, round)
    ensures forall k {:trigger players[k]} :: 0 <= k < |players| ==>
              Outcome(players[k].client, c.avatars[2 * k], c.avatars[2 * k + 1], BeatenDue(c, 2 * k, round), round, nextRound, completed)
  {
    hide Party, Casting, Ready, CreepsHaveNoClient, StageGood, AllScheduled, Lasts, BeatenDue, PairsReady, Fair, StartedReady;
    c, nextRound := Enter(players, networkIDs, creepRound, round, burgers);
    assert |c.clients| == |c.avatars| by { CastShape(c); }
    OnlyPlayers(c, players, nextRound);
    StartsReady(c, players, creepRound, round, burgers);
    completed, course := Play(c, nextRound, round, draws, closes);
    forall k {:trigger players[k]} | 0 <= k < |players|
      ensures Outcome(players[k].client, c.avatars[2 * k], c.avatars[2 * k + 1], BeatenDue(c, 2 * k, round), round, nextRound, completed)
    {
      assert c.clients[2 * k] == players[k].client && !c.ghosts[2 * k];
    }
  }

  /** Every player starts fitted, and every creep as the counter stood before it was raised. */
  ghost predicate StartedReady(start: seq<Pair>, players: seq<Player>, creepRound: nat, round: nat) {
    |start| == |players| &&
    forall k :: 0 <= k < |start| ==>
      FittedStats(start[k].first, players[k], false, round) && start[k].second == Newcomer(CreepMaxHp(CurCreepType(creepRound)), 0, true)
  }

  lemma StartsReady(c: Cast, players: seq<Player>, creepRound: nat, round: nat, burgers: (nat, nat) -> Hamburger)
    requires Casting(c) && |c.avatars| == 2 * |players| && PairsReady(c.avatars, players, creepRound, round, burgers, |players|)
    ensures StartedReady(Starts(c), players, creepRound, round)
  {
    hide FittedStats, BattleAvatar.View, BattleAvatar.Equipped;
    forall k | 0 <= k < |players|
      ensures FittedStats(Starts(c)[k].first, players[k], false, round)
      ensures Starts(c)[k].second == Newcomer(CreepMaxHp(CurCreepType(creepRound)), 0, true)
    {
      assert c.avatars[2 * k] in c.avatars;
      assert PairReady(c.avatars, players, creepRound, round, burgers, k);
    }
  }

  lemma OnlyPlayers(c: Cast, players: seq<Player>, creepRound: nat)
    requires Casting(c) && CreepsHaveNoClient(c, Creep(creepRound)) && |c.avatars| == 2 * |players|
    requires forall k {:trigger players[k]} :: 0 <= k < |players| ==> c.clients[2 * k] == players[k].client
    ensures forall i :: 0 <= i < |c.clients| && c.clients[i] != null ==> c.clients[i] in ClientsIn(players)
  {
    forall i | 0 <= i < |c.clients| && c.clients[i] != null
      ensures c.clients[i] in ClientsIn(players)
    {
      var k := i / 2;
      assert i == 2 * k || i == 2 * k + 1;
      assert c.avatars[2 * k] in c.avatars;
      assert players[k].client in ClientsIn(players);
    }
  }

  twostate predicate PairOutcome(c: Cast, k: nat, round: nat, nextRound: nat, completed: bool)
    requires Casting(c) && 2 * k + 1 < |c.avatars|
    reads c.clients[2 * k], c.avatars[2 * k], c.avatars[2 * k + 1]
  {
    Outcome(c.clients[2 * k], c.avatars[2 * k], c.avatars[2 * k + 1], BeatenDue(c, 2 * k, round), round, nextRound, completed)
  }

  /** The stage of a party and its creeps. */
  method Play(c: Cast, nextRound: nat, round: nat, draws: (nat, nat, nat) -> nat, closes: nat -> bool) returns (completed: bool, ghost course: Course)
    requires Casting(c) && Ready(c) && CreepsHaveNoClient(c, Creep(nextRound)) && Kept(c) == SlotOrders(c)
    modifies c.avatars, c.clients
    ensures StageGood(c, course) && AllScheduled(c, course, Plan(draws, SlotOrders(c)))
    ensures course.start == old(Starts(c)) && Lasts(c, course, closes, completed)
    ensures |c.ghosts| == |c.avatars| && forall k :: 0 <= k < |c.avatars| / 2 && !c.ghosts[2 * k] ==> PairOutcome(c, k, round, nextRound, completed)
  {
    hide Casting, Ready, CreepsHaveNoClient, StageGood, AllScheduled, Rewarded, BeatenDue, HurtAtMostOnce, HurtExactly, HealthPaid;
    assert |c.ghosts| == |c.clients| == |c.avatars| && |c.avatars| % 2 == 0 by { CastShape(c); }
    completed, course := Stage(c, Creep(nextRound), round, draws, closes);
    forall k | 0 <= k < |c.avatars| / 2 && !c.ghosts[2 * k]
      ensures PairOutcome(c, k, round, nextRound, completed)
    {
      OneAccount(c, 2 * k, round, completed);
    }
  }
}

/** The battle stage: ten cycles of six activations for every pair of avatars at once. */
module BattleStage {
  import opened Basics
  import opened Items
  import opened BattleStats
  import opened BattleRules
  import opened Avatar
  import opened Clients
  import opened Creeps
  import opened Draws

  /** 1 when the client behind the avatar has been hurt. */
  function Latch(s: Stats): nat { if s.role.isCharacterDamage then 1 else 0 }

  /** What the losing side's client pays: the winner's relics and twice the round. */
  function Penalty(items: seq<Item>, round: nat): nat
    requires forall i :: 0 <= i < |items| ==> Known(items[i])
  {
    TierSum(items) + round * 2
  }

  /** In full: one for each relic of the lowest tier the winner wears up to five for each of the
      highest, and two for each round. */
  lemma PenaltyLaw(items: seq<Item>, round: nat)
    requires forall i :: 0 <= i < |items| ==> Known(items[i])
    ensures Penalty(items, round)
         == |WornOf(items, 0)| + 2 * |WornOf(items, 1)| + 3 * |WornOf(items, 2)| + 4 * |WornOf(items, 3)| + 5 * |WornOf(items, 4)| + 2 * round
  {
    hide TierSum, WornOf;
    TierSumLaw(items);
  }

  /** The client behind `me` pays for the relics of the enemy, if `me` is at zero. */
  method Pay(me: BattleAvatar, enemy: BattleAvatar, round: nat)
    requires me != enemy && enemy.Equipped()
    modifies me`mIsCharacterDamage, me.Owner()
    ensures me.View() == old(me.View()).CharacterDamaged(false, old(me.IsValidBattleAvatarInRoom()))
    ensures Charged(me.mClient, old(me.View()), me.View(), Penalty(enemy.mUsingItem, round)) && Gifted(me.mClient, 0, 0)
  {
    hide BattleAvatar.View, TierSum;
    var damage := enemy.GetDamage();
    me.ToDamageCharacter(damage + round * 2, false);
  }

  /** In a creep stage the player is rewarded for its creep; this says which of two avatars is
      the player, and what the room's creep counter stands at. */
  datatype Prize = NoPrize | ForMe(creepRound: nat) | ForEnemy(creepRound: nat) {
    function Counter(): nat { if NoPrize? then 0 else creepRound }
  }

  /** The reward at a check: its kind and size are those of the creep the counter stands for. */
  method HandOut(player: BattleAvatar, creep: BattleAvatar, creepRound: nat)
    modifies player.Owner()
    ensures Gifted(player.mClient, creepRound, Gain(player.View(), creep.View(), old(player.IsValidBattleAvatarInRoom())))
    ensures SameHealth(player.mClient)
  {
    hide BattleAvatar.PowerView, BattleAvatar.ReactionView, BattleAvatar.WardView, BattleAvatar.TallyView;
    if !player.mIsFinish && creep.mHp == 0 {
      var draw: nat :| draw < 100;
      var reward := CreepReward(CurCreepType(creepRound), draw);
      ghost var before := if player.mClient == null then Winnings(0, 0, 0, 0) else player.mClient.Won();
      var now := player.IncreaseItemTicket(reward.ticketType, reward.count);
      assert Rewarded(before, before.Plus(reward.ticketType, reward.count), creepRound);
    }
  }

  /** One reward of the creep that the counter stands for. */
  ghost predicate Rewarded(before: Winnings, after: Winnings, creepRound: nat) {
    exists draw: nat :: draw < 100 && after == Brought(before, CreepReward(CurCreepType(creepRound), draw))
  }

  ghost function Brought(before: Winnings, reward: Reward): Winnings { before.Plus(reward.ticketType, reward.count) }

  /** A client was handed out no reward, or one. */
  twostate predicate Gifted(client: Client?, creepRound: nat, n: nat)
    reads client
  {
    client != null ==>
      if n == 0 then client.Won() == old(client.Won()) else n == 1 && Rewarded(old(client.Won()), client.Won(), creepRound)
  }

  method PayBoth(me: BattleAvatar, enemy: BattleAvatar, round: nat)
    requires me != enemy && me.Equipped() && enemy.Equipped()
    requires me.mClient != null ==> me.mClient != enemy.mClient
    modifies me`mIsCharacterDamage, enemy`mIsCharacterDamage, me.Owner(), enemy.Owner()
    ensures me.View() == old(me.View()).CharacterDamaged(false, old(me.IsValidBattleAvatarInRoom()))
    ensures enemy.View() == old(enemy.View()).CharacterDamaged(false, old(enemy.IsValidBattleAvatarInRoom()))
    ensures Charged(me.mClient, old(me.View()), me.View(), Penalty(enemy.mUsingItem, round))
    ensures Charged(enemy.mClient, old(enemy.View()), enemy.View(), Penalty(me.mUsingItem, round))
    ensures Gifted(me.mClient, 0, 0) && Gifted(enemy.mClient, 0, 0)
  {
    hide BattleAvatar.View, Penalty, Stats.CharacterDamaged;
    Pay(me, enemy, round);
    Pay(enemy, me, round);
  }

  /** The player of the two, if there is one, gets what it has gained. */
  method HandOutPrize(me: BattleAvatar, enemy: BattleAvatar, prize: Prize)
    requires me.mClient != null ==> me.mClient != enemy.mClient
    modifies me.Owner(), enemy.Owner()
    ensures Gifted(me.mClient, prize.Counter(), if prize.ForMe? then old(Gain(me.View(), enemy.View(), me.IsValidBattleAvatarInRoom())) else 0)
    ensures Gifted(enemy.mClient, prize.Counter(), if prize.ForEnemy? then old(Gain(enemy.View(), me.View(), enemy.IsValidBattleAvatarInRoom())) else 0)
    ensures SameHealth(me.mClient) && SameHealth(enemy.mClient)
  {
    hide BattleAvatar.View, Gain;
    if prize.ForMe? {
      HandOut(me, enemy, prize.creepRound);
    } else if prize.ForEnemy? {
      HandOut(enemy, me, prize.creepRound);
    }
  }

  twostate predicate SameHealth(client: Client?)
    reads client
  {
    client != null ==> client.mHp == old(client.mHp) && client.damageCalls == old(client.damageCalls) && client.mInRoom == old(client.mInRoom)
  }

  /** Who gains what does not depend on the damage latches. */
  lemma GainAfterPay(player: Stats, creep: Stats, playerIn: bool, creepIn: bool, inRoom: bool)
    ensures Gain(player.CharacterDamaged(false, playerIn), creep.CharacterDamaged(false, creepIn), inRoom) == Gain(player, creep, inRoom)
  {
  }

  /** What a check does before both are finished. */
  method PayAndHandOut(me: BattleAvatar, enemy: BattleAvatar, round: nat, prize: Prize)
    requires me != enemy && me.Equipped() && enemy.Equipped()
    requires me.mClient != null ==> me.mClient != enemy.mClient
    modifies me`mIsCharacterDamage, enemy`mIsCharacterDamage, me.Owner(), enemy.Owner()
    ensures me.View() == old(me.View()).CharacterDamaged(false, old(me.IsValidBattleAvatarInRoom()))
    ensures enemy.View() == old(enemy.View()).CharacterDamaged(false, old(enemy.IsValidBattleAvatarInRoom()))
    ensures Charged(me.mClient, old(me.View()), me.View(), Penalty(enemy.mUsingItem, round))
    ensures Charged(enemy.mClient, old(enemy.View()), enemy.View(), Penalty(me.mUsingItem, round))
    ensures Gifted(me.mClient, prize.Counter(), if prize.ForMe? then old(Gain(me.View(), enemy.View(), me.IsValidBattleAvatarInRoom())) else 0)
    ensures Gifted(enemy.mClient, prize.Counter(), if prize.ForEnemy? then old(Gain(enemy.View(), me.View(), enemy.IsValidBattleAvatarInRoom())) else 0)
  {
    hide BattleAvatar.View, Penalty, Stats.CharacterDamaged, Gain;
    GainAfterPay(me.View(), enemy.View(), me.IsValidBattleAvatarInRoom(), enemy.IsValidBattleAvatarInRoom(), me.IsValidBattleAvatarInRoom());
    GainAfterPay(enemy.View(), me.View(), enemy.IsValidBattleAvatarInRoom(), me.IsValidBattleAvatarInRoom(), enemy.IsValidBattleAvatarInRoom());
    PayBoth(me, enemy, round);
    HandOutPrize(me, enemy, prize);
  }

  method FinishBoth(me: BattleAvatar, enemy: BattleAvatar)
    requires me != enemy
    modifies me`mIsFinish, enemy`mIsFinish
    ensures me.View() == old(me.View()).Finished() && enemy.View() == old(enemy.View()).Finished()
  {
    hide BattleAvatar.View;
    me.SetFinish();
    enemy.SetFinish();
  }

  lemma NoGain(player: Stats, creep: Stats, inRoom: bool)
    ensures creep.body.hp != 0 ==> Gain(player, creep, inRoom) == 0
  {
  }

  lemma FinishKeepsLatch(s: Stats)
    ensures s.Finished().role.isCharacterDamage == s.role.isCharacterDamage
  {
  }

  /** Ends the fight of two avatars when one of them is at zero. */
  method CheckFinish(me: BattleAvatar, enemy: BattleAvatar, round: nat, prize: Prize)
    requires me != enemy && me.Equipped() && enemy.Equipped()
    requires me.mClient != null ==> me.mClient != enemy.mClient
    modifies me`mIsCharacterDamage, me`mIsFinish, enemy`mIsCharacterDamage, enemy`mIsFinish, me.Owner(), enemy.Owner()
    ensures Duel(me.View(), enemy.View())
         == Checked(old(Duel(me.View(), enemy.View())), old(me.IsValidBattleAvatarInRoom()), old(enemy.IsValidBattleAvatarInRoom()))
    ensures Charged(me.mClient, old(me.View()), me.View(), Penalty(enemy.mUsingItem, round))
    ensures Charged(enemy.mClient, old(enemy.View()), enemy.View(), Penalty(me.mUsingItem, round))
    ensures Gifted(me.mClient, prize.Counter(), if prize.ForMe? then old(Gain(me.View(), enemy.View(), me.IsValidBattleAvatarInRoom())) else 0)
    ensures Gifted(enemy.mClient, prize.Counter(), if prize.ForEnemy? then old(Gain(enemy.View(), me.View(), enemy.IsValidBattleAvatarInRoom())) else 0)
  {
    hide BattleAvatar.View, Penalty, Stats.CharacterDamaged, Stats.Finished, Rewarded, Gain;
    Seen(me);
    Seen(enemy);
    NoGain(me.View(), enemy.View(), me.IsValidBattleAvatarInRoom());
    NoGain(enemy.View(), me.View(), enemy.IsValidBattleAvatarInRoom());
    if me.mHp == 0 || enemy.mHp == 0 {
      PayAndHandOut(me, enemy, round, prize);
      FinishKeepsLatch(me.View());
      FinishKeepsLatch(enemy.View());
      FinishBoth(me, enemy);
    }
  }

  /** A client paid once if its avatar's latch went up, and nothing else happened to it. */
  twostate predicate Charged(client: Client?, before: Stats, after: Stats, penalty: nat)
    reads client
  {
    client != null ==>
      client.mInRoom == old(client.mInRoom) &&
      (if after.role.isCharacterDamage && !before.role.isCharacterDamage then
         client.mHp == Max(0, old(client.mHp) - penalty) && client.damageCalls == old(client.damageCalls) + 1
       else
         client.mHp == old(client.mHp) && client.damageCalls == old(client.damageCalls))
  }

  /** Nothing between the checks touches a latch. */
  lemma LatchesOnlyAtChecks(item: Item, d: Duel, draw: Draw, counters: bool, meInRoom: bool, enemyInRoom: bool)
    requires Known(item) && Standing(d)
    ensures var a := Activated(item, d, draw);
            var b := Checked(a, meInRoom, enemyInRoom);
            var c := AfterCheck(item, b, counters);
            SoundDuel(a) && SoundDuel(b) && a.me.role == d.me.role && a.enemy.role == d.enemy.role &&
            c.me.role == b.me.role && c.enemy.role == b.enemy.role &&
            (a.me.role.isCharacterDamage ==> b.me.role.isCharacterDamage) &&
            (a.enemy.role.isCharacterDamage ==> b.enemy.role.isCharacterDamage) &&
            var d' := Checked(c, meInRoom, enemyInRoom);
            (c.me.role.isCharacterDamage ==> d'.me.role.isCharacterDamage) &&
            (c.enemy.role.isCharacterDamage ==> d'.enemy.role.isCharacterDamage)
  {
    hide Activated, Checked, AfterCheck;
    ActivationSound(item, d, draw);
    var a := Activated(item, d, draw);
    CheckedDuel(a, meInRoom, enemyInRoom);
    var b := Checked(a, meInRoom, enemyInRoom);
    if b.me.role.isFinish {
      AfterCheckFrozen(item, b, counters);
    } else {
      AfterCheckSound(item, b, counters);
    }
    CheckedDuel(AfterCheck(item, b, counters), meInRoom, enemyInRoom);
  }

  /** The enemy's counter and the actor's bleeding. */
  method AnswerAndBleed(me: BattleAvatar, enemy: BattleAvatar, slot: nat, counters: bool)
    requires me != enemy && me.Equipped() && slot < |me.mUsingItem|
    modifies me, enemy
    ensures Known(old(me.mUsingItem)[slot])
    ensures Duel(me.View(), enemy.View()) == AfterCheck(old(me.mUsingItem)[slot], old(Duel(me.View(), enemy.View())), counters)
    ensures me.SameGear(old(me.mClient), old(me.mNetworkID), old(me.mUsingItem), old(me.mActiveQueue))
    ensures enemy.SameGear(old(enemy.mClient), old(enemy.mNetworkID), old(enemy.mUsingItem), old(enemy.mActiveQueue))
  {
    hide BattleAvatar.BodyView, BattleAvatar.PowerView, BattleAvatar.ReactionView, BattleAvatar.WardView, BattleAvatar.TallyView, Countered;
    assert Known(me.mUsingItem[slot]);
    if counters && KindOf(me.mUsingItem[slot].code) == Attack {
      enemy.EffectCounter(me);
    }
    if !me.mIsFinish && !enemy.mIsFinish {
      me.EffectBleeding();
    }
  }

  /** The first half of a turn: the relic acts, and the fight may end. */
  method ActAndCheck(me: BattleAvatar, enemy: BattleAvatar, index: nat, round: nat, coin: bool, percent: nat, prize: Prize)
      returns (slot: nat)
    requires me != enemy && me.Equipped() && enemy.Equipped() && index < MAX_USING_ITEM_COUNT
    requires me.mClient != null ==> me.mClient != enemy.mClient
    requires Standing(Duel(me.View(), enemy.View()))
    modifies me, enemy, me.Owner(), enemy.Owner()
    ensures slot == old(me.mActiveQueue)[index] && slot < |me.mUsingItem|
    ensures var a := Activated(old(me.mUsingItem)[old(me.mActiveQueue)[index]], old(Duel(me.View(), enemy.View())), Draw(coin, percent, old(me.Tickets())));
            Duel(me.View(), enemy.View()) == Checked(a, old(me.IsValidBattleAvatarInRoom()), old(enemy.IsValidBattleAvatarInRoom())) &&
            Gifted(old(me.mClient), prize.Counter(), if prize.ForMe? then Gain(a.me, a.enemy, old(me.IsValidBattleAvatarInRoom())) else 0) &&
            Gifted(old(enemy.mClient), prize.Counter(), if prize.ForEnemy? then Gain(a.enemy, a.me, old(enemy.IsValidBattleAvatarInRoom())) else 0)
    ensures me.SameGear(old(me.mClient), old(me.mNetworkID), old(me.mUsingItem), old(me.mActiveQueue))
    ensures enemy.SameGear(old(enemy.mClient), old(enemy.mNetworkID), old(enemy.mUsingItem), old(enemy.mActiveQueue))
    ensures Charged(me.mClient, old(me.View()), me.View(), Penalty(enemy.mUsingItem, round))
    ensures Charged(enemy.mClient, old(enemy.View()), enemy.View(), Penalty(me.mUsingItem, round))
  {
    hide BattleAvatar.View, Activated, Checked, TierSum, Gain, Penalty;
    ActivationSound(me.mUsingItem[me.mActiveQueue[index]], Duel(me.View(), enemy.View()), Draw(coin, percent, me.Tickets()));
    slot := me.ActiveItem(index, enemy, coin, percent);
    CheckFinish(me, enemy, round, prize);
  }

  /** The second half: the enemy counters, the actor bleeds, and the fight may end. */
  method AnswerAndCheck(me: BattleAvatar, enemy: BattleAvatar, slot: nat, counters: bool, round: nat, prize: Prize)
    requires me != enemy && me.Equipped() && enemy.Equipped() && slot < |me.mUsingItem|
    requires me.mClient != null ==> me.mClient != enemy.mClient
    requires Known(me.mUsingItem[slot])
    requires var c := AfterCheck(me.mUsingItem[slot], Duel(me.View(), enemy.View()), counters);
             c.me.role == me.View().role && c.enemy.role == enemy.View().role
    modifies me, enemy, me.Owner(), enemy.Owner()
    ensures var c := AfterCheck(old(me.mUsingItem)[slot], old(Duel(me.View(), enemy.View())), counters);
            Duel(me.View(), enemy.View()) == Checked(c, old(me.IsValidBattleAvatarInRoom()), old(enemy.IsValidBattleAvatarInRoom())) &&
            Gifted(old(me.mClient), prize.Counter(), if prize.ForMe? then Gain(c.me, c.enemy, old(me.IsValidBattleAvatarInRoom())) else 0) &&
            Gifted(old(enemy.mClient), prize.Counter(), if prize.ForEnemy? then Gain(c.enemy, c.me, old(enemy.IsValidBattleAvatarInRoom())) else 0)
    ensures me.SameGear(old(me.mClient), old(me.mNetworkID), old(me.mUsingItem), old(me.mActiveQueue))
    ensures enemy.SameGear(old(enemy.mClient), old(enemy.mNetworkID), old(enemy.mUsingItem), old(enemy.mActiveQueue))
    ensures Charged(me.mClient, old(me.View()), me.View(), Penalty(enemy.mUsingItem, round))
    ensures Charged(enemy.mClient, old(enemy.View()), enemy.View(), Penalty(me.mUsingItem, round))
  {
    hide BattleAvatar.View, AfterCheck, Checked, TierSum, Gain, Penalty;
    AnswerAndBleed(me, enemy, slot, counters);
    CheckFinish(me, enemy, round, prize);
  }

  /** One turn of `me` against `enemy`. */
  method TakeTurn(me: BattleAvatar, enemy: BattleAvatar, index: nat, counters: bool, round: nat, coin: bool, percent: nat, prize: Prize)
      returns (ghost item: Item, ghost draw: Draw)
    requires me != enemy && me.Equipped() && enemy.Equipped() && index < MAX_USING_ITEM_COUNT
    requires me.mClient != null ==> me.mClient != enemy.mClient
    requires Standing(Duel(me.View(), enemy.View()))
    modifies me, enemy, me.Owner(), enemy.Owner()
    ensures Known(item) && item == old(me.mUsingItem)[old(me.mActiveQueue)[index]]
    ensures Duel(me.View(), enemy.View())
         == Turn(item, old(Duel(me.View(), enemy.View())), draw, counters,
                 old(me.IsValidBattleAvatarInRoom()), old(enemy.IsValidBattleAvatarInRoom()))
    ensures me.SameGear(old(me.mClient), old(me.mNetworkID), old(me.mUsingItem), old(me.mActiveQueue))
    ensures enemy.SameGear(old(enemy.mClient), old(enemy.mNetworkID), old(enemy.mUsingItem), old(enemy.mActiveQueue))
    ensures Charged(me.mClient, old(me.View()), me.View(), Penalty(enemy.mUsingItem, round))
    ensures Charged(enemy.mClient, old(enemy.View()), enemy.View(), Penalty(me.mUsingItem, round))
    ensures Gifted(me.mClient, prize.Counter(), if prize.ForMe? && !old(me.View()).role.isGhost && old(me.IsValidBattleAvatarInRoom()) && enemy.View().body.hp == 0 then 1 else 0)
    ensures Gifted(enemy.mClient, prize.Counter(), if prize.ForEnemy? && !old(enemy.View()).role.isGhost && old(enemy.IsValidBattleAvatarInRoom()) && me.View().body.hp == 0 then 1 else 0)
  {
    hide BattleAvatar.View, Activated, Checked, AfterCheck, TierSum, Gain, Penalty, Rewarded;
    item := me.mUsingItem[me.mActiveQueue[index]];
    draw := Draw(coin, percent, me.Tickets());
    LatchesOnlyAtChecks(item, Duel(me.View(), enemy.View()), draw, counters,
                        me.IsValidBattleAvatarInRoom(), enemy.IsValidBattleAvatarInRoom());
    TurnGain(item, Duel(me.View(), enemy.View()), draw, counters, me.IsValidBattleAvatarInRoom(), enemy.IsValidBattleAvatarInRoom(),
             if prize.ForMe? then me.IsValidBattleAvatarInRoom() else enemy.IsValidBattleAvatarInRoom());
    var slot := ActAndCheck(me, enemy, index, round, coin, percent, prize);
    AnswerAndCheck(me, enemy, slot, counters, round, prize);
  }

  // ---- Many pairs ----

  /** Who takes part: avatars 2k and 2k+1 fight each other. A creep has no client; a ghost
      shares the client of somebody else's real avatar. */
  datatype Cast = Cast(avatars: seq<BattleAvatar>, clients: seq<Client?>, ghosts: seq<bool>, gear: seq<seq<Item>>)

  ghost predicate SixKnown(items: seq<Item>) {
    |items| == MAX_USING_ITEM_COUNT && forall j :: 0 <= j < |items| ==> Known(items[j])
  }

  ghost predicate Casting(c: Cast) {
    |c.avatars| == |c.clients| == |c.ghosts| == |c.gear| && |c.avatars| % 2 == 0 &&
    (forall i :: 0 <= i < |c.gear| ==> SixKnown(c.gear[i])) &&
    (forall i, j :: 0 <= i < j < |c.avatars| ==> c.avatars[i] != c.avatars[j]) &&
    (forall i, j :: 0 <= i < j < |c.avatars| && !c.ghosts[i] && !c.ghosts[j] ==> c.clients[i] != c.clients[j]) &&
    (forall i :: 0 <= i < |c.avatars| && !c.ghosts[i] ==> c.clients[i] != null) &&
    (forall k {:trigger c.avatars[2 * k]} :: 0 <= k < |c.avatars| / 2 && c.clients[2 * k] != null ==> c.clients[2 * k] != c.clients[2 * k + 1])
  }

  ghost predicate InRoom(client: Client?)
    reads client
  {
    client != null && client.mInRoom
  }

  /** After the bell: hurt exactly when the avatar is at zero or its fight was undecided. */
  ghost predicate Judged(s: Stats, inRoom: bool) {
    (s.role.isCharacterDamage ==> !s.role.isGhost && (s.body.hp == 0 || !s.role.isFinish)) &&
    (!s.role.isGhost && inRoom && (s.body.hp == 0 || !s.role.isFinish) ==> s.role.isCharacterDamage)
  }

  ghost predicate Account(s: Stats, inRoom: bool, late: bool) {
    if late then Judged(s, inRoom) else Settled(s, inRoom)
  }

  /** Whom the other avatar of the pair stands for: i is 2k or 2k + 1. */
  function Partner(i: nat): nat { if i % 2 == 0 then i + 1 else i - 1 }

  /** What the client of the i-th avatar pays when it is beaten. */
  ghost function BeatenDue(c: Cast, i: nat, round: nat): nat
    requires Casting(c) && i < |c.avatars|
  {
    Penalty(c.gear[Partner(i)], round)
  }

  /** What one avatar brings into the stage: its client, how often that was hurt before and its
      health, and what it pays when it is beaten and at the bell. */
  datatype Terms = Terms(client: Client?, isGhost: bool, calls: nat, health: int, beaten: nat, undecided: nat)

  /** The health of a client whose avatar has come to s. */
  function HealthAfter(t: Terms, s: Stats): int {
    if !s.role.isCharacterDamage then t.health
    else Max(0, t.health - (if s.body.hp == 0 then t.beaten else t.undecided))
  }

  /** The avatar is equipped, and its client was charged exactly as its latch says. */
  ghost predicate AvatarGood(a: BattleAvatar, t: Terms, late: bool)
    reads a, t.client
  {
    a.Equipped() && a.mClient == t.client && a.View().role.isGhost == t.isGhost &&
    Account(a.View(), InRoom(t.client), late) &&
    (!t.isGhost && t.client != null ==>
       t.client.damageCalls == t.calls + Latch(a.View()) && t.client.mHp == HealthAfter(t, a.View()))
  }

  /** The two avatars are where the moves so far have led them from the start. */
  ghost predicate FightGood(a: BattleAvatar, b: BattleAvatar, rules: Rules, start: Pair, moves: seq<Move>)
    reads a, b
  {
    KnownMoves(moves) && Fighting(start) && Run(rules, start, moves) == Pair(a.View(), b.View())
  }

  /** A stage on its way: its rules and round, where the fights started, what happened, how often
      each client had been hurt and its health, what each first player had won, and how many pairs
      the bell has judged. */
  datatype Course = Course(rules: Rules, round: nat, start: seq<Pair>, moves: seq<seq<Move>>,
                           calls: seq<nat>, healths: seq<int>, gifts: seq<Winnings>, judged: nat)

  ghost predicate Shaped(c: Cast, course: Course) {
    |course.start| == |course.moves| == |course.gifts| == |c.avatars| / 2 && |course.calls| == |course.healths| == |c.avatars|
  }

  ghost function TermsOf(c: Cast, course: Course, i: nat): Terms
    requires Casting(c) && Shaped(c, course) && i < |c.avatars|
  {
    Terms(c.clients[i], c.ghosts[i], course.calls[i], course.healths[i], BeatenDue(c, i, course.round), 10 + course.round * 2)
  }

  /** Nobody's relics change during the stage. */
  ghost predicate Geared(c: Cast)
    requires Casting(c)
    reads c.avatars
  {
    forall i :: 0 <= i < |c.avatars| ==> c.avatars[i].mUsingItem == c.gear[i]
  }

  /** In a creep stage the player of the pair has gained nothing, and its creep still stands or it
      has left; or its creep is at zero, and it has gained one reward. */
  ghost predicate PrizeGood(creep: BattleAvatar, client: Client?, isGhost: bool, rules: Rules, gift: Winnings)
    reads creep, client
  {
    rules.Creep? && !isGhost && client != null ==>
      (client.Won() == gift && (creep.View().body.hp == 0 ==> !client.mInRoom)) ||
      (creep.View().body.hp == 0 && Rewarded(gift, client.Won(), rules.creepRound))
  }

  ghost predicate PrizesGood(c: Cast, course: Course)
    requires Casting(c) && Shaped(c, course)
    reads c.avatars, c.clients
  {
    forall k :: 0 <= k < |course.gifts| ==>
      PrizeGood(c.avatars[2 * k + 1], c.clients[2 * k], c.ghosts[2 * k], course.rules, course.gifts[k])
  }

  ghost predicate StageGood(c: Cast, course: Course)
    requires Casting(c)
    reads c.avatars, c.clients
  {
    Shaped(c, course) && Geared(c) && PrizesGood(c, course) &&
    (forall i :: 0 <= i < |c.avatars| ==> AvatarGood(c.avatars[i], TermsOf(c, course, i), i < 2 * course.judged)) &&
    (forall k :: 0 <= k < |course.start| ==> FightGood(c.avatars[2 * k], c.avatars[2 * k + 1], course.rules, course.start[k], course.moves[k]))
  }

  lemma RunAppend(rules: Rules, p: Pair, moves: seq<Move>, m: Move)
    requires KnownMoves(moves) && KnownMove(m) && Fighting(p)
    ensures KnownMoves(moves + [m]) && Run(rules, p, moves + [m]) == Step(rules, Run(rules, p, moves), m)
  {
    assert (moves + [m])[..|moves|] == moves;
  }

  function CounterOf(rules: Rules): nat { if rules.Creep? then rules.creepRound else 0 }

  /** What a client pays in this move if it has to. */
  ghost function Due(c: Cast, course: Course, i: nat, move: Move): nat
    requires Casting(c) && Shaped(c, course) && i < |c.avatars|
  {
    if move.TimeUp? then TermsOf(c, course, i).undecided else TermsOf(c, course, i).beaten
  }

  /** One move of pair k: its two avatars change as the machine says, and so do their clients. */
  twostate predicate PairMoved(c: Cast, course: Course, k: nat, move: Move)
    requires Casting(c) && Shaped(c, course) && k < |c.avatars| / 2
    reads c.avatars[2 * k], c.avatars[2 * k + 1], c.clients[2 * k], c.clients[2 * k + 1]
  {
    var a, b := c.avatars[2 * k], c.avatars[2 * k + 1];
    var before := old(Pair(a.View(), b.View()));
    KnownMove(move) && Fighting(before) && Pair(a.View(), b.View()) == Step(course.rules, before, move) &&
    !before.first.role.isFinish &&
    move.firstIn == old(InRoom(c.clients[2 * k])) && move.secondIn == old(InRoom(c.clients[2 * k + 1])) &&
    Charged(c.clients[2 * k], before.first, a.View(), Due(c, course, 2 * k, move)) &&
    Charged(c.clients[2 * k + 1], before.second, b.View(), Due(c, course, 2 * k + 1, move)) &&
    Gifted(c.clients[2 * k], CounterOf(course.rules),
           MoveGain(course.rules, before, Pair(a.View(), b.View()), old(InRoom(c.clients[2 * k])))) &&
    Gifted(c.clients[2 * k + 1], 0, 0) &&
    a.SameGear(old(a.mClient), old(a.mNetworkID), old(a.mUsingItem), old(a.mActiveQueue)) &&
    b.SameGear(old(b.mClient), old(b.mNetworkID), old(b.mUsingItem), old(b.mActiveQueue))
  }

  /** Where a move leaves the accounts of the two fighters. */
  lemma StepAccounts(rules: Rules, p: Pair, m: Move)
    requires KnownMove(m) && Fighting(p) && !p.first.role.isFinish
    requires Settled(p.first, m.firstIn) && Settled(p.second, m.secondIn)
    ensures var q := Step(rules, p, m);
            Account(q.first, m.firstIn, m.TimeUp?) && Account(q.second, m.secondIn, m.TimeUp?) &&
            GoesOn(p.first, q.first) && GoesOn(p.second, q.second) &&
            (m.TimeUp? ==> q.first.body == p.first.body && q.second.body == p.second.body)
  {
    hide Turn, Checked;
    StepSound(rules, p, m);
  }

  twostate predicate WasGood(c: Cast, course: Course)
    requires Casting(c)
  {
    old(StageGood(c, course))
  }

  /** Everybody outside pair k, and every client of theirs, is as before. */
  twostate predicate RestLeftAlone(c: Cast, k: nat)
    requires Casting(c) && k < |c.avatars| / 2
    reads c.avatars, c.clients
  {
    forall i :: 0 <= i < |c.avatars| && i / 2 != k ==>
      unchanged(c.avatars[i]) &&
      (c.clients[i] != c.clients[2 * k] && c.clients[i] != c.clients[2 * k + 1] ==> LeftAlone(c.clients[i]))
  }

  twostate predicate LeftAlone(client: Client?)
    reads client
  {
    client != null ==> client.mInRoom == old(client.mInRoom) && client.mHp == old(client.mHp) &&
                       client.damageCalls == old(client.damageCalls) && client.Won() == old(client.Won())
  }

  /** The client of a real avatar outside the pair: neither fighter's, or one that fights there
      as a ghost, and nobody is charged for a ghost. */
  twostate lemma ClientOutside(c: Cast, new course: Course, new k: nat, new i: nat, new move: Move)
    requires Casting(c) && Shaped(c, course) && k < |c.avatars| / 2 && i < |c.avatars| && i / 2 != k && c.clients[i] != null
    requires WasGood(c, course) && k >= course.judged && PairMoved(c, course, k, move)
    requires c.clients[i] != c.clients[2 * k] && c.clients[i] != c.clients[2 * k + 1] ==> LeftAlone(c.clients[i])
    ensures InRoom(c.clients[i]) == old(InRoom(c.clients[i]))
    ensures !c.ghosts[i] ==> c.clients[i].damageCalls == old(c.clients[i].damageCalls) && c.clients[i].mHp == old(c.clients[i].mHp)
  {
    hide BattleAvatar.View, Step, FightGood, Due, HealthAfter, Rewarded;
    GhostsUncharged(c, course, k, move);
    var client := c.clients[i];
    if !c.ghosts[i] {
      assert client == c.clients[2 * k] ==> c.ghosts[2 * k];
      assert client == c.clients[2 * k + 1] ==> c.ghosts[2 * k + 1];
    }
  }

  twostate lemma GhostsUncharged(c: Cast, new course: Course, new k: nat, new move: Move)
    requires Casting(c) && Shaped(c, course) && k < |c.avatars| / 2
    requires WasGood(c, course) && k >= course.judged && PairMoved(c, course, k, move)
    ensures var a, b := c.avatars[2 * k], c.avatars[2 * k + 1];
            (c.ghosts[2 * k] ==> !a.View().role.isCharacterDamage) && (c.ghosts[2 * k + 1] ==> !b.View().role.isCharacterDamage)
  {
    hide BattleAvatar.View, Step, FightGood, Due, HealthAfter, Rewarded, Charged, Gifted, TermsOf;
    TermsAre(c, course, 2 * k);
    TermsAre(c, course, 2 * k + 1);
    assert old(AvatarGood(c.avatars[2 * k], TermsOf(c, course, 2 * k), false));
    assert old(AvatarGood(c.avatars[2 * k + 1], TermsOf(c, course, 2 * k + 1), false));
    StepAccounts(course.rules, old(Pair(c.avatars[2 * k].View(), c.avatars[2 * k + 1].View())), move);
  }

  lemma TermsAre(c: Cast, course: Course, i: nat)
    requires Casting(c) && Shaped(c, course) && i < |c.avatars|
    ensures var t := TermsOf(c, course, i);
            t.client == c.clients[i] && t.isGhost == c.ghosts[i] && t.calls == course.calls[i] && t.health == course.healths[i]
  {
  }

  /** An avatar that nobody touches keeps its account if its client does. */
  twostate lemma AvatarKept(c: Cast, new course: Course, new i: nat, new late: bool)
    requires Casting(c) && Shaped(c, course) && i < |c.avatars|
    requires old(AvatarGood(c.avatars[i], TermsOf(c, course, i), late)) && unchanged(c.avatars[i])
    requires c.clients[i] != null ==> InRoom(c.clients[i]) == old(InRoom(c.clients[i]))
    requires c.clients[i] != null && !c.ghosts[i] ==>
               c.clients[i].damageCalls == old(c.clients[i].damageCalls) && c.clients[i].mHp == old(c.clients[i].mHp)
    ensures AvatarGood(c.avatars[i], TermsOf(c, course, i), late)
  {
    hide BattleAvatar.View, Account, HealthAfter, TermsOf, Casting;
    TermsAre(c, course, i);
    assert c.avatars[i].View() == old(c.avatars[i].View());
    assert c.avatars[i].Equipped();
  }

  twostate lemma OtherAvatarGood(c: Cast, new course: Course, new k: nat, new i: nat, new move: Move)
    requires Casting(c) && Shaped(c, course) && k < |c.avatars| / 2 && i < |c.avatars| && i / 2 != k
    requires WasGood(c, course) && k >= course.judged
    requires PairMoved(c, course, k, move)
    requires unchanged(c.avatars[i])
    requires c.clients[i] != c.clients[2 * k] && c.clients[i] != c.clients[2 * k + 1] ==> LeftAlone(c.clients[i])
    ensures AvatarGood(c.avatars[i], TermsOf(c, course, i), i < 2 * course.judged)
  {
    hide BattleAvatar.View, Step, FightGood, PairMoved, AvatarGood, TermsOf, LeftAlone;
    assert old(AvatarGood(c.avatars[i], TermsOf(c, course, i), i < 2 * course.judged));
    TermsAre(c, course, i);
    if c.clients[i] != null {
      ClientOutside(c, course, k, i, move);
    }
    AvatarKept(c, course, i, i < 2 * course.judged);
  }

  function MovedOn(course: Course, k: nat, move: Move): Course
    requires k < |course.moves|
  {
    course.(moves := course.moves[k := course.moves[k] + [move]], judged := if move.TimeUp? then k + 1 else course.judged)
  }

  /** One side of the moved pair: a latch that goes up pays what is due. */
  lemma HealthMoves(t: Terms, s: Stats, s': Stats, timeUp: bool)
    requires GoesOn(s, s') && Calm(s) && if timeUp then s'.body == s.body && s.body.hp > 0 else Calm(s')
    ensures HealthAfter(t, s')
         == if s'.role.isCharacterDamage && !s.role.isCharacterDamage then Max(0, HealthAfter(t, s) - (if timeUp then t.undecided else t.beaten))
            else HealthAfter(t, s)
  {
  }

  /** One fighter of the moved pair. */
  twostate lemma SideGood(c: Cast, new course: Course, new i: nat, new move: Move)
    requires Casting(c) && Shaped(c, course) && i < |c.avatars| && old(AvatarGood(c.avatars[i], TermsOf(c, course, i), false))
    requires var a, s := c.avatars[i], old(c.avatars[i].View());
             a.SameGear(old(a.mClient), old(a.mNetworkID), old(a.mUsingItem), old(a.mActiveQueue)) &&
             Charged(c.clients[i], s, a.View(), Due(c, course, i, move)) && GoesOn(s, a.View()) && Calm(s) &&
             Account(a.View(), old(InRoom(c.clients[i])), move.TimeUp?) &&
             if move.TimeUp? then a.View().body == s.body && s.body.hp > 0 else Calm(a.View())
    ensures AvatarGood(c.avatars[i], TermsOf(c, course, i), move.TimeUp?)
  {
    hide BattleAvatar.View, Account, BeatenDue, HealthAfter, Calm, Casting, Known, IsOrder;
    HealthMoves(TermsOf(c, course, i), old(c.avatars[i].View()), c.avatars[i].View(), move.TimeUp?);
  }

  twostate lemma WasSettled(c: Cast, new course: Course, new i: nat)
    requires Casting(c) && Shaped(c, course) && i < |c.avatars| && WasGood(c, course) && i >= 2 * course.judged
    ensures old(AvatarGood(c.avatars[i], TermsOf(c, course, i), false)) && Settled(old(c.avatars[i].View()), old(InRoom(c.clients[i])))
  {
    hide BattleAvatar.View, FightGood, PrizesGood, Geared, Settled, HealthAfter, BeatenDue, Known, IsOrder;
    assert old(AvatarGood(c.avatars[i], TermsOf(c, course, i), i < 2 * course.judged));
  }

  twostate lemma PairAvatarsGood(c: Cast, new course: Course, new k: nat, new move: Move)
    requires Casting(c) && Shaped(c, course) && k < |c.avatars| / 2
    requires WasGood(c, course) && k >= course.judged
    requires PairMoved(c, course, k, move)
    ensures AvatarGood(c.avatars[2 * k], TermsOf(c, course, 2 * k), move.TimeUp?)
    ensures AvatarGood(c.avatars[2 * k + 1], TermsOf(c, course, 2 * k + 1), move.TimeUp?)
  {
    hide BattleAvatar.View, Step, Settled, Judged, Due, Charged, Gifted, AvatarGood, TermsOf, WasGood, BattleAvatar.SameGear;
    WasSettled(c, course, 2 * k);
    WasSettled(c, course, 2 * k + 1);
    var p, q := old(Pair(c.avatars[2 * k].View(), c.avatars[2 * k + 1].View())), Pair(c.avatars[2 * k].View(), c.avatars[2 * k + 1].View());
    StepAccounts(course.rules, p, move);
    PairIsCalm(p, move.firstIn, move.secondIn);
    if !move.TimeUp? {
      PairIsCalm(q, move.firstIn, move.secondIn);
    }
    SideGood(c, course, 2 * k, move);
    SideGood(c, course, 2 * k + 1, move);
  }

  lemma PairIsCalm(p: Pair, firstIn: bool, secondIn: bool)
    requires Settled(p.first, firstIn) && Settled(p.second, secondIn)
    ensures Calm(p.first) && Calm(p.second)
  {
  }

  twostate lemma FightsGood(c: Cast, new course: Course, new k: nat, new move: Move)
    requires Casting(c) && Shaped(c, course) && k < |c.avatars| / 2
    requires WasGood(c, course) && RestLeftAlone(c, k)
    requires PairMoved(c, course, k, move)
    ensures var moves := course.moves[k := course.moves[k] + [move]];
            forall j :: 0 <= j < |course.start| ==>
              FightGood(c.avatars[2 * j], c.avatars[2 * j + 1], course.rules, course.start[j], moves[j])
  {
    hide BattleAvatar.View, Step, AvatarGood, Run, Penalty;
    forall j | 0 <= j < |course.start|
      ensures FightGood(c.avatars[2 * j], c.avatars[2 * j + 1], course.rules, course.start[j],
                        course.moves[k := course.moves[k] + [move]][j])
    {
      assert old(FightGood(c.avatars[2 * j], c.avatars[2 * j + 1], course.rules, course.start[j], course.moves[j]));
      if j == k {
        RunAppend(course.rules, course.start[k], course.moves[k], move);
      } else {
        assert unchanged(c.avatars[2 * j]) && unchanged(c.avatars[2 * j + 1]);
      }
    }
  }

  twostate lemma GearAfter(c: Cast, new course: Course, new k: nat, new move: Move)
    requires Casting(c) && Shaped(c, course) && k < |c.avatars| / 2
    requires old(Geared(c)) && RestLeftAlone(c, k) && PairMoved(c, course, k, move)
    ensures Geared(c)
  {
    hide BattleAvatar.View, Step, Penalty;
    forall i | 0 <= i < |c.avatars|
      ensures c.avatars[i].mUsingItem == c.gear[i]
    {
      assert old(c.avatars[i].mUsingItem) == c.gear[i];
      if i / 2 == k {
        assert i == 2 * k || i == 2 * k + 1;
      }
    }
  }

  /** The player of the moved pair: rewarded once its creep has fallen. */
  twostate lemma OwnPrizeGood(c: Cast, new course: Course, new k: nat, new move: Move)
    requires Casting(c) && k < |c.avatars| / 2 && Shaped(c, course)
    requires WasGood(c, course) && PairMoved(c, course, k, move)
    ensures PrizeGood(c.avatars[2 * k + 1], c.clients[2 * k], c.ghosts[2 * k], course.rules, course.gifts[k])
  {
    hide BattleAvatar.View, Step, FightGood, Geared, Penalty, Rewarded;
    assert old(PrizeGood(c.avatars[2 * k + 1], c.clients[2 * k], c.ghosts[2 * k], course.rules, course.gifts[k]));
    assert old(AvatarGood(c.avatars[2 * k], TermsOf(c, course, 2 * k), 2 * k < 2 * course.judged));
  }

  /** The player of another pair: its client is another one, or the moved player is a ghost and
      gains nothing. */
  twostate lemma OtherPrizeGood(c: Cast, new course: Course, new k: nat, new j: nat, new move: Move)
    requires Casting(c) && k < |c.avatars| / 2 && j < |c.avatars| / 2 && j != k && Shaped(c, course)
    requires WasGood(c, course) && PairMoved(c, course, k, move) && RestLeftAlone(c, k)
    ensures PrizeGood(c.avatars[2 * j + 1], c.clients[2 * j], c.ghosts[2 * j], course.rules, course.gifts[j])
  {
    hide BattleAvatar.View, Step, FightGood, Geared, Penalty, Rewarded;
    assert old(PrizeGood(c.avatars[2 * j + 1], c.clients[2 * j], c.ghosts[2 * j], course.rules, course.gifts[j]));
    assert old(AvatarGood(c.avatars[2 * k], TermsOf(c, course, 2 * k), 2 * k < 2 * course.judged));
    assert unchanged(c.avatars[2 * j]) && unchanged(c.avatars[2 * j + 1]);
    assert c.avatars[2 * j + 1].View() == old(c.avatars[2 * j + 1].View());
    var client := c.clients[2 * j];
    if client != null && !c.ghosts[2 * j] {
      assert client == c.clients[2 * k] ==> c.ghosts[2 * k];
      assert client.Won() == old(client.Won()) && client.mInRoom == old(client.mInRoom);
    }
  }

  twostate lemma PrizesAfter(c: Cast, new course: Course, new k: nat, new move: Move)
    requires Casting(c) && k < |c.avatars| / 2 && Shaped(c, course)
    requires WasGood(c, course) && PairMoved(c, course, k, move) && RestLeftAlone(c, k)
    ensures PrizesGood(c, MovedOn(course, k, move))
  {
    hide WasGood, PairMoved, RestLeftAlone, PrizeGood;
    OwnPrizeGood(c, course, k, move);
    forall j | 0 <= j < |course.gifts|
      ensures PrizeGood(c.avatars[2 * j + 1], c.clients[2 * j], c.ghosts[2 * j], course.rules, course.gifts[j])
    {
      if j != k {
        OtherPrizeGood(c, course, k, j, move);
      }
    }
  }

  /** A move of one pair keeps the whole stage in order. */
  twostate lemma StageAfter(c: Cast, new course: Course, new k: nat, new move: Move)
    requires Casting(c) && k < |c.avatars| / 2 && Shaped(c, course)
    requires WasGood(c, course) && RestLeftAlone(c, k)
    requires if move.TimeUp? then k == course.judged else course.judged == 0
    requires PairMoved(c, course, k, move)
    ensures StageGood(c, MovedOn(course, k, move))
  {
    hide PairMoved, LeftAlone, AvatarGood, FightGood, Geared, PrizesGood, Penalty;
    assert old(Geared(c));
    PrizesAfter(c, course, k, move);
    GearAfter(c, course, k, move);
    FightsGood(c, course, k, move);
    PairAvatarsGood(c, course, k, move);
    var next := MovedOn(course, k, move);
    forall i | 0 <= i < |c.avatars|
      ensures AvatarGood(c.avatars[i], TermsOf(c, next, i), i < 2 * next.judged)
    {
      assert TermsOf(c, next, i) == TermsOf(c, course, i);
      if i / 2 != k {
        OtherAvatarGood(c, course, k, i, move);
      } else {
        assert i == 2 * k || i == 2 * k + 1;
      }
    }
  }

  /** The turn of one side at the given position of its own activation order. */
  ghost predicate ActsAt(m: Move, second: bool, items1: seq<Item>, queue1: seq<nat>, items2: seq<Item>, queue2: seq<nat>, index: nat)
  {
    if second then m.SecondActs? && index < |queue2| && queue2[index] < |items2| && m.item == items2[queue2[index]]
    else m.FirstActs? && index < |queue1| && queue1[index] < |items1| && m.item == items1[queue1[index]]
  }

  twostate predicate KeepsGear(c: Cast, k: nat)
    requires k < |c.avatars| / 2
    reads c.avatars[2 * k], c.avatars[2 * k + 1]
  {
    var a, b := c.avatars[2 * k], c.avatars[2 * k + 1];
    a.mUsingItem == old(a.mUsingItem) && a.mActiveQueue == old(a.mActiveQueue) &&
    b.mUsingItem == old(b.mUsingItem) && b.mActiveQueue == old(b.mActiveQueue)
  }

  lemma TurnCounts(rules: Rules, p: Pair, m: Move)
    requires KnownMove(m) && Fighting(p) && !p.first.role.isFinish && (m.FirstActs? || m.SecondActs?)
    ensures var q := Step(rules, p, m);
            q.first.tally.effectItemCount == p.first.tally.effectItemCount + (if m.FirstActs? then 1 else 0) &&
            q.second.tally.effectItemCount == p.second.tally.effectItemCount + (if m.SecondActs? then 1 else 0)
  {
    hide Turn;
    match m
    case FirstActs(item, draw, firstIn, secondIn) =>
      TurnSound(item, Duel(p.first, p.second), draw, rules.Battle?, firstIn, secondIn);
    case SecondActs(item, draw, firstIn, secondIn) =>
      TurnSound(item, Duel(p.second, p.first), draw, true, secondIn, firstIn);
  }

  /** What is known of a pair that is still fighting. */
  lemma FightersOf(c: Cast, course: Course, k: nat)
    requires Casting(c) && StageGood(c, course) && course.judged <= k < |c.avatars| / 2 && !c.avatars[2 * k].mIsFinish
    ensures var a, b := c.avatars[2 * k], c.avatars[2 * k + 1];
            a != b && a.Equipped() && b.Equipped() && a.mClient == c.clients[2 * k] && b.mClient == c.clients[2 * k + 1] &&
            (a.mClient != null ==> a.mClient != b.mClient) &&
            Standing(Duel(a.View(), b.View())) && Standing(Duel(b.View(), a.View())) && Fighting(Pair(a.View(), b.View()))
  {
    hide BattleAvatar.View, Run, Settled;
    var a, b := c.avatars[2 * k], c.avatars[2 * k + 1];
    assert FightGood(a, b, course.rules, course.start[k], course.moves[k]);
    assert AvatarGood(a, TermsOf(c, course, 2 * k), false);
    assert AvatarGood(b, TermsOf(c, course, 2 * k + 1), false);
    Seen(a);
    Seen(b);
  }

  /** Whoever is beaten pays for the relics the other one wears. */
  lemma DueInFight(c: Cast, course: Course, k: nat)
    requires Casting(c) && StageGood(c, course) && k < |c.avatars| / 2
    ensures c.avatars[2 * k].mUsingItem == c.gear[2 * k] && c.avatars[2 * k + 1].mUsingItem == c.gear[2 * k + 1]
    ensures forall move: Move :: !move.TimeUp? ==>
              Due(c, course, 2 * k, move) == Penalty(c.gear[2 * k + 1], course.round) &&
              Due(c, course, 2 * k + 1, move) == Penalty(c.gear[2 * k], course.round)
  {
    hide StageGood, Casting, Penalty;
    GearOf(c, course, k);
    assert Partner(2 * k) == 2 * k + 1 && Partner(2 * k + 1) == 2 * k;
  }

  lemma OthersApart(c: Cast, course: Course, k: nat)
    requires Casting(c) && StageGood(c, course) && k < |c.avatars| / 2
    ensures Shaped(c, course) && |c.clients| == |c.avatars|
    ensures forall i :: 0 <= i < |c.avatars| && i / 2 != k ==> c.avatars[i] != c.avatars[2 * k] && c.avatars[i] != c.avatars[2 * k + 1]
  {
    hide StageGood;
    assert Shaped(c, course) by { ShapeOf(c, course); }
  }

  lemma ShapeOf(c: Cast, course: Course)
    requires Casting(c) && StageGood(c, course)
    ensures Shaped(c, course)
  {
  }

  lemma DueAtBell(c: Cast, course: Course, k: nat)
    requires Casting(c) && Shaped(c, course) && k < |c.avatars| / 2
    ensures forall move: Move :: move.TimeUp? ==> Due(c, course, 2 * k, move) == Due(c, course, 2 * k + 1, move) == 10 + course.round * 2
  {
  }

  lemma GearOf(c: Cast, course: Course, k: nat)
    requires Casting(c) && StageGood(c, course) && k < |c.avatars| / 2
    ensures Shaped(c, course) && |c.gear| == |c.avatars| && SixKnown(c.gear[2 * k]) && SixKnown(c.gear[2 * k + 1])
    ensures c.avatars[2 * k].mUsingItem == c.gear[2 * k] && c.avatars[2 * k + 1].mUsingItem == c.gear[2 * k + 1]
  {
    hide AvatarGood, FightGood, PrizesGood, Penalty, SixKnown;
    assert Geared(c);
  }

  /** A turn of one avatar of pair k, at its index-th relic of the cycle. */
  method PairTurn(c: Cast, ghost course: Course, rules: Rules, k: nat, second: bool, index: nat, round: nat)
      returns (ghost move: Move)
    requires Casting(c) && StageGood(c, course) && course.judged == 0 && course.rules == rules && course.round == round
    requires k < |c.avatars| / 2 && index < MAX_USING_ITEM_COUNT && !c.avatars[2 * k].mIsFinish
    modifies c.avatars[2 * k], c.avatars[2 * k + 1], c.avatars[2 * k].Owner(), c.avatars[2 * k + 1].Owner()
    ensures StageGood(c, MovedOn(course, k, move)) && !move.TimeUp?
    ensures ActsAt(move, second, old(c.avatars[2 * k].mUsingItem), old(c.avatars[2 * k].mActiveQueue),
                   old(c.avatars[2 * k + 1].mUsingItem), old(c.avatars[2 * k + 1].mActiveQueue), index)
    ensures KeepsGear(c, k)
    ensures c.avatars[2 * k].mEffectItemCount == old(c.avatars[2 * k].mEffectItemCount) + (if second then 0 else 1)
    ensures c.avatars[2 * k + 1].mEffectItemCount == old(c.avatars[2 * k + 1].mEffectItemCount) + (if second then 1 else 0)
  {
    hide BattleAvatar.View, Penalty, StageGood, Casting, Shaped, BattleRules.Step, MoveGain, Due;
    OthersApart(c, course, k);
    var a, b := c.avatars[2 * k], c.avatars[2 * k + 1];
    FightersOf(c, course, k);
    DueInFight(c, course, k);
    Seen(a);
    Seen(b);
    ghost var before := Pair(a.View(), b.View());
    move := SideTurn(a, b, rules, second, index, round);
    StageAfter(c, course, k, move);
    Seen(a);
    Seen(b);
    TurnCounts(rules, before, move);
  }

  /** A turn of one side, as a move of the machine. */
  method SideTurn(a: BattleAvatar, b: BattleAvatar, rules: Rules, second: bool, index: nat, round: nat) returns (ghost move: Move)
    requires a != b && a.Equipped() && b.Equipped() && index < MAX_USING_ITEM_COUNT
    requires a.mClient != null ==> a.mClient != b.mClient
    requires Standing(Duel(a.View(), b.View())) && Standing(Duel(b.View(), a.View()))
    modifies a, b, a.Owner(), b.Owner()
    ensures KnownMove(move) && (if second then move.SecondActs? else move.FirstActs?)
    ensures move.firstIn == old(a.IsValidBattleAvatarInRoom()) && move.secondIn == old(b.IsValidBattleAvatarInRoom())
    ensures Pair(a.View(), b.View()) == BattleRules.Step(rules, old(Pair(a.View(), b.View())), move)
    ensures ActsAt(move, second, old(a.mUsingItem), old(a.mActiveQueue), old(b.mUsingItem), old(b.mActiveQueue), index)
    ensures a.SameGear(old(a.mClient), old(a.mNetworkID), old(a.mUsingItem), old(a.mActiveQueue))
    ensures b.SameGear(old(b.mClient), old(b.mNetworkID), old(b.mUsingItem), old(b.mActiveQueue))
    ensures Charged(a.mClient, old(a.View()), a.View(), Penalty(b.mUsingItem, round))
    ensures Charged(b.mClient, old(b.View()), b.View(), Penalty(a.mUsingItem, round))
    ensures Gifted(a.mClient, CounterOf(rules), MoveGain(rules, old(Pair(a.View(), b.View())), Pair(a.View(), b.View()), old(a.IsValidBattleAvatarInRoom())))
    ensures Gifted(b.mClient, 0, 0)
  {
    hide BattleAvatar.View, Turn, Penalty;
    var coin: bool := *;
    var percent: nat := *;
    ghost var item, draw;
    if second {
      item, draw := TakeTurn(b, a, index, true, round, coin, percent, if rules.Creep? then ForEnemy(rules.creepRound) else NoPrize);
      move := SecondActs(item, draw, old(a.IsValidBattleAvatarInRoom()), old(b.IsValidBattleAvatarInRoom()));
    } else {
      item, draw := TakeTurn(a, b, index, rules.Battle?, round, coin, percent, if rules.Creep? then ForMe(rules.creepRound) else NoPrize);
      move := FirstActs(item, draw, old(a.IsValidBattleAvatarInRoom()), old(b.IsValidBattleAvatarInRoom()));
    }
  }

  lemma Seen(a: BattleAvatar)
    ensures a.View().role.isFinish == a.mIsFinish && a.View().tally.effectItemCount == a.mEffectItemCount
    ensures a.View().body.hp == a.mHp && a.View().role.isCharacterDamage == a.mIsCharacterDamage
  {
  }

  /** The end of a cycle for pair k: bombs go off, and what lasts one cycle is cleared. */
  method PairEndCycle(c: Cast, ghost course: Course, rules: Rules, k: nat, round: nat) returns (ghost move: Move)
    requires Casting(c) && StageGood(c, course) && course.judged == 0 && course.rules == rules && course.round == round
    requires k < |c.avatars| / 2 && !c.avatars[2 * k].mIsFinish
    modifies c.avatars[2 * k], c.avatars[2 * k + 1], c.avatars[2 * k].Owner(), c.avatars[2 * k + 1].Owner()
    ensures StageGood(c, MovedOn(course, k, move)) && move.EndCycle?
    ensures KeepsGear(c, k)
    ensures c.avatars[2 * k].mEffectItemCount == 0 && c.avatars[2 * k + 1].mEffectItemCount == 0
  {
    hide BattleAvatar.View, Penalty, StageGood, Casting, Shaped, BattleRules.Step, MoveGain, Due;
    OthersApart(c, course, k);
    var a, b := c.avatars[2 * k], c.avatars[2 * k + 1];
    FightersOf(c, course, k);
    DueInFight(c, course, k);
    Seen(a);
    Seen(b);
    move := EndCycleMove(a, b, rules, round);
    StageAfter(c, course, k, move);
  }

  /** The end of a cycle of two avatars, as a move of the machine. */
  method EndCycleMove(a: BattleAvatar, b: BattleAvatar, rules: Rules, round: nat) returns (ghost move: Move)
    requires a != b && a.Equipped() && b.Equipped() && !a.mIsFinish && a.View().Sound() && b.View().Sound()
    requires a.mClient != null ==> a.mClient != b.mClient
    modifies a, b, a.Owner(), b.Owner()
    ensures move == EndCycle(old(a.IsValidBattleAvatarInRoom()), old(b.IsValidBattleAvatarInRoom()))
    ensures Pair(a.View(), b.View()) == BattleRules.Step(rules, old(Pair(a.View(), b.View())), move)
    ensures a.mEffectItemCount == 0 && b.mEffectItemCount == 0
    ensures a.SameGear(old(a.mClient), old(a.mNetworkID), old(a.mUsingItem), old(a.mActiveQueue))
    ensures b.SameGear(old(b.mClient), old(b.mNetworkID), old(b.mUsingItem), old(b.mActiveQueue))
    ensures Charged(a.mClient, old(a.View()), a.View(), Penalty(b.mUsingItem, round))
    ensures Charged(b.mClient, old(b.View()), b.View(), Penalty(a.mUsingItem, round))
    ensures Gifted(a.mClient, CounterOf(rules), MoveGain(rules, old(Pair(a.View(), b.View())), Pair(a.View(), b.View()), old(a.IsValidBattleAvatarInRoom())))
    ensures Gifted(b.mClient, 0, 0)
  {
    hide BattleAvatar.View, Penalty, CycleEnded, Checked, Rewarded;
    Seen(a);
    Seen(b);
    move := EndCycle(a.IsValidBattleAvatarInRoom(), b.IsValidBattleAvatarInRoom());
    EndCycleOf(a, b, round, if rules.Creep? then ForMe(rules.creepRound) else NoPrize);
    Seen(a);
    Seen(b);
  }

  lemma CycleKeepsRole(s: Stats)
    ensures s.Bombed().NewCycle().role == s.role && s.Bombed().NewCycle().tally.effectItemCount == 0
  {
  }

  method EndCycleFor(a: BattleAvatar)
    modifies a
    ensures a.View() == old(a.View()).Bombed().NewCycle()
    ensures a.SameGear(old(a.mClient), old(a.mNetworkID), old(a.mUsingItem), old(a.mActiveQueue))
  {
    hide BattleAvatar.View;
    a.EffectBomb();
    a.InitCycle();
  }

  /** The end of a cycle of two avatars. */
  method EndCycleOf(a: BattleAvatar, b: BattleAvatar, round: nat, prize: Prize)
    requires a != b && a.Equipped() && b.Equipped() && !a.View().role.isFinish && !prize.ForEnemy?
    requires a.mClient != null ==> a.mClient != b.mClient
    modifies a, b, a.Owner(), b.Owner()
    ensures Duel(a.View(), b.View())
         == Checked(CycleEnded(old(Duel(a.View(), b.View()))), old(a.IsValidBattleAvatarInRoom()), old(b.IsValidBattleAvatarInRoom()))
    ensures a.View().tally.effectItemCount == 0 && b.View().tally.effectItemCount == 0
    ensures a.SameGear(old(a.mClient), old(a.mNetworkID), old(a.mUsingItem), old(a.mActiveQueue))
    ensures b.SameGear(old(b.mClient), old(b.mNetworkID), old(b.mUsingItem), old(b.mActiveQueue))
    ensures Charged(a.mClient, old(a.View()), a.View(), Penalty(b.mUsingItem, round))
    ensures Charged(b.mClient, old(b.View()), b.View(), Penalty(a.mUsingItem, round))
    ensures Gifted(a.mClient, prize.Counter(), if prize.ForMe? && !old(a.View()).role.isGhost && old(a.IsValidBattleAvatarInRoom()) && b.View().body.hp == 0 then 1 else 0)
    ensures Gifted(b.mClient, 0, 0)
  {
    hide BattleAvatar.View, Stats.Bombed, Stats.NewCycle, TierSum, Penalty;
    CycleKeepsRole(a.View());
    CycleKeepsRole(b.View());
    EndCycleFor(a);
    EndCycleFor(b);
    CheckFinish(a, b, round, prize);
  }

  lemma BellKeepsBody(s: Stats, inRoom: bool)
    ensures s.CharacterDamaged(true, inRoom).body == s.body
  {
  }

  method BellFor(a: BattleAvatar, b: BattleAvatar, rules: Rules, round: nat)
    requires a != b
    requires a.mClient != null ==> a.mClient != b.mClient
    requires rules.Creep? ==> b.mClient == null
    modifies a`mIsCharacterDamage, b`mIsCharacterDamage, a.Owner(), b.Owner()
    ensures a.View() == old(a.View()).CharacterDamaged(true, old(a.IsValidBattleAvatarInRoom()))
    ensures b.View() == old(b.View()).CharacterDamaged(true, old(b.IsValidBattleAvatarInRoom()))
    ensures Charged(a.mClient, old(a.View()), a.View(), 10 + round * 2)
    ensures Charged(b.mClient, old(b.View()), b.View(), 10 + round * 2)
    ensures Gifted(a.mClient, 0, 0) && Gifted(b.mClient, 0, 0)
  {
    hide BattleAvatar.BodyView, BattleAvatar.PowerView, BattleAvatar.ReactionView, BattleAvatar.WardView, BattleAvatar.TallyView;
    a.ToDamageCharacter(10 + round * 2, true);
    if rules.Battle? {
      b.ToDamageCharacter(10 + round * 2, true);
    }
  }

  /** The bell for two avatars, as a move of the machine. */
  method BellMove(a: BattleAvatar, b: BattleAvatar, rules: Rules, round: nat) returns (ghost move: Move)
    requires a != b && !a.mIsFinish && b.mHp > 0 && a.View().Sound() && b.View().Sound()
    requires a.mClient != null ==> a.mClient != b.mClient
    requires rules.Creep? ==> b.mClient == null
    modifies a`mIsCharacterDamage, b`mIsCharacterDamage, a.Owner(), b.Owner()
    ensures move == TimeUp(old(a.IsValidBattleAvatarInRoom()), old(b.IsValidBattleAvatarInRoom()))
    ensures Pair(a.View(), b.View()) == BattleRules.Step(rules, old(Pair(a.View(), b.View())), move)
    ensures Charged(a.mClient, old(a.View()), a.View(), 10 + round * 2)
    ensures Charged(b.mClient, old(b.View()), b.View(), 10 + round * 2)
    ensures Gifted(a.mClient, CounterOf(rules), MoveGain(rules, old(Pair(a.View(), b.View())), Pair(a.View(), b.View()), old(a.IsValidBattleAvatarInRoom())))
    ensures Gifted(b.mClient, 0, 0)
  {
    hide BattleAvatar.View, Stats.CharacterDamaged, Rewarded;
    Seen(a);
    Seen(b);
    move := TimeUp(a.IsValidBattleAvatarInRoom(), b.IsValidBattleAvatarInRoom());
    BellKeepsBody(b.View(), b.IsValidBattleAvatarInRoom());
    BellFor(a, b, rules, round);
  }

  /** The bell: whoever is still fighting pays ten and twice the round. A creep has no client,
      and the creep stage does not ask it. */
  method PairTimeUp(c: Cast, ghost course: Course, rules: Rules, k: nat, round: nat) returns (ghost move: Move)
    requires Casting(c) && StageGood(c, course) && course.judged == k && course.rules == rules && course.round == round
    requires k < |c.avatars| / 2 && !c.avatars[2 * k].mIsFinish
    requires rules.Creep? ==> c.clients[2 * k + 1] == null
    modifies c.avatars[2 * k], c.avatars[2 * k + 1], c.avatars[2 * k].Owner(), c.avatars[2 * k + 1].Owner()
    ensures StageGood(c, MovedOn(course, k, move)) && move.TimeUp?
  {
    hide BattleAvatar.View, Penalty, StageGood, Casting, Shaped, BattleRules.Step, MoveGain, Due;
    OthersApart(c, course, k);
    var a, b := c.avatars[2 * k], c.avatars[2 * k + 1];
    FightersOf(c, course, k);
    DueAtBell(c, course, k);
    Seen(a);
    Seen(b);
    move := BellMove(a, b, rules, round);
    StageAfter(c, course, k, move);
  }
}

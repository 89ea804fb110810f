/** One pair of fighters over a whole stage, as a machine that takes one move at a time. */
module BattleRules {
  import opened Basics
  import opened Items
  import opened BattleStats

  /** In a battle both sides counter attacks; in a creep stage only the player does, and its
      reward depends on the room's creep counter. */
  datatype Rules = Battle | Creep(creepRound: nat)

  /** The fight ends as soon as somebody is at zero: both finish, and a beaten client is hurt. */
  function Checked(d: Duel, meInRoom: bool, enemyInRoom: bool): Duel {
    if d.me.body.hp == 0 || d.enemy.body.hp == 0 then
      Duel(d.me.CharacterDamaged(false, meInRoom).Finished(), d.enemy.CharacterDamaged(false, enemyInRoom).Finished())
    else d
  }

  /** The enemy answers an attack. */
  function Answered(item: Item, d: Duel, counters: bool): Duel
    requires Known(item)
  {
    if counters && KindOf(item.code) == Attack then
      var c := Countered(Duel(d.enemy, d.me));
      Duel(c.enemy, c.me)
    else d
  }

  function BledOut(d: Duel): Duel {
    if !d.me.role.isFinish && !d.enemy.role.isFinish then Duel(d.me.Bled(), d.enemy) else d
  }

  /** What happens between the two checks of a turn. */
  function AfterCheck(item: Item, d: Duel, counters: bool): Duel
    requires Known(item)
  {
    BledOut(Answered(item, d, counters))
  }

  /** A turn: the relic acts, the fight may end, the enemy counters, the actor bleeds, and the
      fight may end again. */
  function Turn(item: Item, d: Duel, draw: Draw, counters: bool, meInRoom: bool, enemyInRoom: bool): Duel
    requires Known(item) && SoundDuel(d)
  {
    Checked(AfterCheck(item, Checked(Activated(item, d, draw), meInRoom, enemyInRoom), counters), meInRoom, enemyInRoom)
  }

  datatype Pair = Pair(first: Stats, second: Stats)

  /** One thing the stage does to a pair; the flags say who still belongs to the room. */
  datatype Move =
    | FirstActs(item: Item, draw: Draw, firstIn: bool, secondIn: bool)
    | SecondActs(item: Item, draw: Draw, firstIn: bool, secondIn: bool)
    | EndCycle(firstIn: bool, secondIn: bool)
    | TimeUp(firstIn: bool, secondIn: bool)

  ghost predicate KnownMove(m: Move) { m.FirstActs? || m.SecondActs? ==> Known(m.item) }

  function CycleEnded(d: Duel): Duel { Duel(d.me.Bombed().NewCycle(), d.enemy.Bombed().NewCycle()) }

  /** A finished pair is passed over. */
  function Step(rules: Rules, p: Pair, m: Move): Pair
    requires KnownMove(m) && p.first.Sound() && p.second.Sound()
  {
    match m
    case FirstActs(item, draw, firstIn, secondIn) =>
      if p.first.role.isFinish then p
      else
        var d := Turn(item, Duel(p.first, p.second), draw, rules.Battle?, firstIn, secondIn);
        Pair(d.me, d.enemy)
    case SecondActs(item, draw, firstIn, secondIn) =>
      if p.second.role.isFinish then p
      else
        var d := Turn(item, Duel(p.second, p.first), draw, true, secondIn, firstIn);
        Pair(d.enemy, d.me)
    case EndCycle(firstIn, secondIn) =>
      if p.first.role.isFinish then p
      else
        var d := Checked(CycleEnded(Duel(p.first, p.second)), firstIn, secondIn);
        Pair(d.me, d.enemy)
    case TimeUp(firstIn, secondIn) =>
      if p.first.role.isFinish then p
      else Pair(p.first.CharacterDamaged(true, firstIn), p.second.CharacterDamaged(true, secondIn))
  }

  // ---- What every move keeps ----

  /** Both sound, both carry the same finish flag, and nobody is at zero while they fight. */
  ghost predicate Fighting(p: Pair) {
    p.first.Sound() && p.second.Sound() && p.first.role.isFinish == p.second.role.isFinish &&
    (!p.first.role.isFinish ==> p.first.body.hp > 0 && p.second.body.hp > 0)
  }

  /** From s to s' in a fight: no return from zero, same maximum, and of the role only the
      finish and the damage latch may go up. */
  ghost predicate GoesOn(s: Stats, s': Stats) {
    s'.Sound() && (s.body.hp == 0 ==> s'.body.hp == 0) && s'.body.maxHp == s.body.maxHp &&
    (s.role.isFinish ==> s'.role.isFinish) && (s.role.isCharacterDamage ==> s'.role.isCharacterDamage) &&
    s'.role.isGhost == s.role.isGhost
  }

  /** A client was hurt exactly when its avatar is at zero, if it is a real one in the room. */
  ghost predicate Settled(s: Stats, inRoom: bool) {
    Calm(s) && (!s.role.isGhost && inRoom && s.body.hp == 0 ==> s.role.isCharacterDamage)
  }

  /** Nobody was hurt for a ghost, or for an avatar that still stands. */
  ghost predicate Calm(s: Stats) {
    s.role.isCharacterDamage ==> !s.role.isGhost && s.body.hp == 0
  }

  lemma CheckedOne(s: Stats, inRoom: bool)
    requires s.Sound()
    ensures var s' := s.CharacterDamaged(false, inRoom).Finished();
            GoesOn(s, s') && s'.role.isFinish && s'.body == s.body && s'.tally == s.tally && (Calm(s) ==> Settled(s', inRoom))
  {
  }

  /** A check changes no numbers; it ends the fight exactly when somebody is at zero. */
  lemma CheckedDuel(d: Duel, meInRoom: bool, enemyInRoom: bool)
    requires SoundDuel(d)
    ensures var d' := Checked(d, meInRoom, enemyInRoom);
            GoesOn(d.me, d'.me) && GoesOn(d.enemy, d'.enemy) &&
            d'.me.body == d.me.body && d'.enemy.body == d.enemy.body && d'.me.tally == d.me.tally && d'.enemy.tally == d.enemy.tally &&
            (Calm(d.me) ==> Settled(d'.me, meInRoom)) && (Calm(d.enemy) ==> Settled(d'.enemy, enemyInRoom)) &&
            if d.me.body.hp == 0 || d.enemy.body.hp == 0 then d'.me.role.isFinish && d'.enemy.role.isFinish else d' == d
  {
    hide Stats.CharacterDamaged, Stats.Finished;
    CheckedOne(d.me, meInRoom);
    CheckedOne(d.enemy, enemyInRoom);
  }

  /** After the first check of a turn, a finished fight is left exactly as it is. */
  lemma AfterCheckFrozen(item: Item, d: Duel, counters: bool)
    requires Known(item) && d.me.role.isFinish && d.enemy.role.isFinish
    ensures AfterCheck(item, d, counters) == d
  {
  }

  lemma AfterCheckSound(item: Item, d: Duel, counters: bool)
    requires Known(item) && SoundDuel(d) && !d.me.role.isFinish && !d.enemy.role.isFinish
    requires d.me.body.hp > 0 && d.enemy.body.hp > 0
    ensures var d' := AfterCheck(item, d, counters);
            Evolves(d.me, d'.me) && Evolves(d.enemy, d'.enemy) && SameCount(d.me, d'.me) && SameCount(d.enemy, d'.enemy)
  {
    hide Countered;
    CounterSound(Duel(d.enemy, d.me));
  }

  /** A fighter before and after a move. */
  ghost predicate MoveResult(s: Stats, s': Stats, inRoom: bool) {
    GoesOn(s, s') && (Calm(s) ==> Settled(s', inRoom))
  }

  ghost predicate Standing(d: Duel) {
    SoundDuel(d) && d.me.body.hp > 0 && d.enemy.body.hp > 0 && !d.me.role.isFinish && !d.enemy.role.isFinish
  }

  /** Any turn of a running fight: nobody revived, flags in step, clients hurt as they should
      be, one more activation counted. */
  lemma TurnSound(item: Item, d: Duel, draw: Draw, counters: bool, meInRoom: bool, enemyInRoom: bool)
    requires Known(item) && Standing(d)
    ensures var d' := Turn(item, d, draw, counters, meInRoom, enemyInRoom);
            MoveResult(d.me, d'.me, meInRoom) && MoveResult(d.enemy, d'.enemy, enemyInRoom) &&
            Fighting(Pair(d'.me, d'.enemy)) &&
            d'.me.tally.effectItemCount == d.me.tally.effectItemCount + 1 && SameCount(d.enemy, d'.enemy)
  {
    hide Activated, Checked, AfterCheck;
    ActivationSound(item, d, draw);
    var a := Activated(item, d, draw);
    CheckedDuel(a, meInRoom, enemyInRoom);
    var b := Checked(a, meInRoom, enemyInRoom);
    if b.me.role.isFinish {
      AfterCheckFrozen(item, b, counters);
    } else {
      AfterCheckSound(item, b, counters);
    }
    CheckedDuel(AfterCheck(item, b, counters), meInRoom, enemyInRoom);
  }

  lemma CycleSound(s: Stats)
    requires s.Sound()
    ensures var s' := s.Bombed().NewCycle();
            Evolves(s, s') && s'.tally.effectItemCount == 0
  {
  }

  /** One move, whatever it is, of any fight in good order. */
  lemma StepSound(rules: Rules, p: Pair, m: Move)
    requires KnownMove(m) && Fighting(p)
    ensures var p' := Step(rules, p, m);
            Fighting(p') && GoesOn(p.first, p'.first) && GoesOn(p.second, p'.second) &&
            (p.first.role.isFinish ==> p' == p) &&
            (!m.TimeUp? && !p.first.role.isFinish ==>
               MoveResult(p.first, p'.first, m.firstIn) && MoveResult(p.second, p'.second, m.secondIn))
  {
    hide Turn, Checked;
    if !p.first.role.isFinish {
      match m
      case FirstActs(item, draw, firstIn, secondIn) =>
        TurnSound(item, Duel(p.first, p.second), draw, rules.Battle?, firstIn, secondIn);
      case SecondActs(item, draw, firstIn, secondIn) =>
        TurnSound(item, Duel(p.second, p.first), draw, true, secondIn, firstIn);
      case EndCycle(firstIn, secondIn) =>
        CycleSound(p.first);
        CycleSound(p.second);
        CheckedDuel(CycleEnded(Duel(p.first, p.second)), firstIn, secondIn);
      case TimeUp(firstIn, secondIn) =>
    }
  }

  // ---- Whole runs ----

  ghost predicate KnownMoves(moves: seq<Move>) {
    forall i :: 0 <= i < |moves| ==> KnownMove(moves[i])
  }

  ghost function Run(rules: Rules, p: Pair, moves: seq<Move>): (q: Pair)
    requires KnownMoves(moves) && Fighting(p)
    ensures Fighting(q)
  {
    if moves == [] then p
    else
      var q := Run(rules, p, moves[..|moves| - 1]);
      StepSound(rules, q, moves[|moves| - 1]);
      Step(rules, q, moves[|moves| - 1])
  }

  /** Zero HP is final, and so is the end of a fight: whatever is done to a pair in whatever
      order, 0 <= HP <= MaxHP always, an avatar at zero stays at zero, both finish flags agree,
      a finished pair never changes again, and an unfinished one has both HPs positive. */
  lemma {:induction false} ZeroIsAbsorbing(rules: Rules, p: Pair, moves: seq<Move>, n: nat)
    requires KnownMoves(moves) && Fighting(p) && n <= |moves|
    ensures var early, late := Run(rules, p, moves[..n]), Run(rules, p, moves);
            GoesOn(early.first, late.first) && GoesOn(early.second, late.second) &&
            late.first.role.isFinish == late.second.role.isFinish &&
            (early.first.role.isFinish ==> late == early) &&
            (early.first.body.hp == 0 || early.second.body.hp == 0 ==> late == early)
    decreases |moves|
  {
    hide Step, KnownMove;
    if n < |moves| {
      var m := |moves| - 1;
      ZeroIsAbsorbing(rules, p, moves[..m], n);
      assert moves[..m][..n] == moves[..n];
      StepSound(rules, Run(rules, p, moves[..m]), moves[m]);
    } else {
      assert moves[..n] == moves;
    }
  }

  /** Nobody comes back: whoever is in the room at the end (the two flags) was in it during
      every move. */
  ghost predicate NobodyReturns(moves: seq<Move>, firstIn: bool, secondIn: bool) {
    (forall i :: 0 <= i < |moves| ==> (firstIn ==> moves[i].firstIn) && (secondIn ==> moves[i].secondIn))
  }

  lemma {:induction false} SettledThroughout(rules: Rules, p: Pair, moves: seq<Move>, firstIn: bool, secondIn: bool)
    requires KnownMoves(moves) && Fighting(p) && NobodyReturns(moves, firstIn, secondIn)
    requires forall i :: 0 <= i < |moves| ==> !moves[i].TimeUp?
    requires Settled(p.first, firstIn) && Settled(p.second, secondIn)
    ensures var q := Run(rules, p, moves); Settled(q.first, firstIn) && Settled(q.second, secondIn)
  {
    hide Step, KnownMove;
    if moves != [] {
      var m := |moves| - 1;
      SettledThroughout(rules, p, moves[..m], firstIn, secondIn);
      StepSound(rules, Run(rules, p, moves[..m]), moves[m]);
    }
  }

  /** Two avatars that just entered the stage. */
  ghost predicate Entered(p: Pair) {
    Fighting(p) && p.first.body.hp > 0 && p.second.body.hp > 0 &&
    !p.first.role.isCharacterDamage && !p.second.role.isCharacterDamage
  }

  /** A stage that ran its full time hurts a real client that is still in the room exactly when
      its avatar fell to zero or its fight was still undecided; it never hurts a client through
      a ghost. */
  lemma CharacterDamagedExactly(rules: Rules, p: Pair, moves: seq<Move>, firstIn: bool, secondIn: bool)
    requires KnownMoves(moves) && Entered(p) && NobodyReturns(moves, firstIn, secondIn)
    requires forall i :: 0 <= i < |moves| ==> !moves[i].TimeUp?
    ensures var q := Step(rules, Run(rules, p, moves), TimeUp(firstIn, secondIn));
            (!q.first.role.isGhost && firstIn ==>
               (q.first.role.isCharacterDamage <==> q.first.body.hp == 0 || !q.first.role.isFinish)) &&
            (!q.second.role.isGhost && secondIn ==>
               (q.second.role.isCharacterDamage <==> q.second.body.hp == 0 || !q.second.role.isFinish)) &&
            (q.first.role.isGhost ==> !q.first.role.isCharacterDamage) &&
            (q.second.role.isGhost ==> !q.second.role.isCharacterDamage)
  {
    SettledThroughout(rules, p, moves, firstIn, secondIn);
  }

  // ---- Creep rewards ----

  /** A check rewards the player when the creep is at zero and the pair has not finished yet. */
  function RewardAt(player: Stats, creep: Stats): nat {
    if !player.role.isFinish && creep.body.hp == 0 then 1 else 0
  }

  /** What a player gains at a check: a reward it reaches, unless it is a ghost or has left. */
  function Gain(player: Stats, creep: Stats, inRoom: bool): nat {
    if !player.role.isGhost && inRoom then RewardAt(player, creep) else 0
  }

  /** Rewards reached at the check right after a relic has acted. */
  function EarlyRewards(p: Pair, m: Move): nat
    requires KnownMove(m) && p.first.Sound() && p.second.Sound()
  {
    match m
    case FirstActs(item, draw, firstIn, secondIn) =>
      if p.first.role.isFinish then 0
      else
        var a := Activated(item, Duel(p.first, p.second), draw);
        RewardAt(a.me, a.enemy)
    case SecondActs(item, draw, firstIn, secondIn) =>
      if p.second.role.isFinish then 0
      else
        var a := Activated(item, Duel(p.second, p.first), draw);
        RewardAt(a.enemy, a.me)
    case EndCycle(_, _) => 0
    case TimeUp(_, _) => 0
  }

  /** Rewards reached at the last check of a move. */
  function LateRewards(p: Pair, m: Move): nat
    requires KnownMove(m) && p.first.Sound() && p.second.Sound()
  {
    match m
    case FirstActs(item, draw, firstIn, secondIn) =>
      if p.first.role.isFinish then 0
      else
        var c := AfterCheck(item, Checked(Activated(item, Duel(p.first, p.second), draw), firstIn, secondIn), false);
        RewardAt(c.me, c.enemy)
    case SecondActs(item, draw, firstIn, secondIn) =>
      if p.second.role.isFinish then 0
      else
        var c := AfterCheck(item, Checked(Activated(item, Duel(p.second, p.first), draw), secondIn, firstIn), true);
        RewardAt(c.enemy, c.me)
    case EndCycle(firstIn, secondIn) =>
      if p.first.role.isFinish then 0
      else
        var d := CycleEnded(Duel(p.first, p.second));
        RewardAt(d.me, d.enemy)
    case TimeUp(_, _) => 0
  }

  /** How often a move reaches a reward, over the checks it goes through. */
  function Rewards(p: Pair, m: Move): nat
    requires KnownMove(m) && p.first.Sound() && p.second.Sound()
  {
    EarlyRewards(p, m) + LateRewards(p, m)
  }

  ghost function TotalRewards(rules: Rules, p: Pair, moves: seq<Move>): nat
    requires rules.Creep? && KnownMoves(moves) && Fighting(p)
  {
    if moves == [] then 0
    else
      var m := |moves| - 1;
      TotalRewards(rules, p, moves[..m]) + Rewards(Run(rules, p, moves[..m]), moves[m])
  }

  /** A turn reaches exactly one reward if the creep falls in it, and none otherwise. */
  lemma TurnRewards(item: Item, d: Duel, draw: Draw, counters: bool, meInRoom: bool, enemyInRoom: bool)
    requires Known(item) && Standing(d)
    ensures var a := Activated(item, d, draw);
            var c := AfterCheck(item, Checked(a, meInRoom, enemyInRoom), counters);
            var d' := Turn(item, d, draw, counters, meInRoom, enemyInRoom);
            RewardAt(a.me, a.enemy) + RewardAt(c.me, c.enemy) == (if d'.enemy.body.hp == 0 then 1 else 0) &&
            RewardAt(a.enemy, a.me) + RewardAt(c.enemy, c.me) == (if d'.me.body.hp == 0 then 1 else 0)
  {
    hide Activated, Checked, AfterCheck;
    ActivationSound(item, d, draw);
    var a := Activated(item, d, draw);
    CheckedDuel(a, meInRoom, enemyInRoom);
    var b := Checked(a, meInRoom, enemyInRoom);
    if b.me.role.isFinish {
      AfterCheckFrozen(item, b, counters);
    } else {
      AfterCheckSound(item, b, counters);
    }
    CheckedDuel(AfterCheck(item, b, counters), meInRoom, enemyInRoom);
  }

  /** Over both checks of a turn a player gains one reward exactly if its creep fell in it. */
  lemma TurnGain(item: Item, d: Duel, draw: Draw, counters: bool, meInRoom: bool, enemyInRoom: bool, inRoom: bool)
    requires Known(item) && Standing(d)
    ensures var a := Activated(item, d, draw);
            var c := AfterCheck(item, Checked(a, meInRoom, enemyInRoom), counters);
            var d' := Turn(item, d, draw, counters, meInRoom, enemyInRoom);
            Gain(a.me, a.enemy, inRoom) + Gain(c.me, c.enemy, inRoom)
              == (if !d.me.role.isGhost && inRoom && d'.enemy.body.hp == 0 then 1 else 0) &&
            Gain(a.enemy, a.me, inRoom) + Gain(c.enemy, c.me, inRoom)
              == (if !d.enemy.role.isGhost && inRoom && d'.me.body.hp == 0 then 1 else 0)
  {
    hide Activated, Checked, AfterCheck, Turn, RewardAt;
    TurnRewards(item, d, draw, counters, meInRoom, enemyInRoom);
    GhostsStay(item, d, draw, counters, meInRoom, enemyInRoom);
  }

  lemma GhostsStay(item: Item, d: Duel, draw: Draw, counters: bool, meInRoom: bool, enemyInRoom: bool)
    requires Known(item) && Standing(d)
    ensures var a := Activated(item, d, draw);
            var c := AfterCheck(item, Checked(a, meInRoom, enemyInRoom), counters);
            a.me.role.isGhost == d.me.role.isGhost && a.enemy.role.isGhost == d.enemy.role.isGhost &&
            c.me.role.isGhost == d.me.role.isGhost && c.enemy.role.isGhost == d.enemy.role.isGhost
  {
    hide Activated, Checked, AfterCheck;
    ActivationSound(item, d, draw);
    var a := Activated(item, d, draw);
    CheckedDuel(a, meInRoom, enemyInRoom);
    var b := Checked(a, meInRoom, enemyInRoom);
    if b.me.role.isFinish {
      AfterCheckFrozen(item, b, counters);
    } else {
      AfterCheckSound(item, b, counters);
    }
  }

  /** What the first player of a pair gains in a whole move. */
  function MoveGain(rules: Rules, before: Pair, after: Pair, inRoom: bool): nat {
    if rules.Creep? && !before.first.role.isGhost && inRoom && after.second.body.hp == 0 then 1 else 0
  }

  lemma StepRewards(rules: Rules, p: Pair, m: Move)
    requires rules.Creep? && KnownMove(m) && Fighting(p)
    ensures Rewards(p, m)
         == if !p.first.role.isFinish && Step(rules, p, m).second.body.hp == 0 then 1 else 0
  {
    hide Turn, Checked, Activated, AfterCheck;
    if !p.first.role.isFinish {
      match m
      case FirstActs(item, draw, firstIn, secondIn) =>
        TurnRewards(item, Duel(p.first, p.second), draw, false, firstIn, secondIn);
      case SecondActs(item, draw, firstIn, secondIn) =>
        TurnRewards(item, Duel(p.second, p.first), draw, true, secondIn, firstIn);
      case EndCycle(firstIn, secondIn) =>
        CheckedDuel(CycleEnded(Duel(p.first, p.second)), firstIn, secondIn);
      case TimeUp(firstIn, secondIn) =>
    }
  }

  /** Over a whole creep stage a player is rewarded once if its creep fell to zero, and never
      otherwise. */
  lemma {:induction false} CreepRewardOnce(rules: Rules, p: Pair, moves: seq<Move>)
    requires rules.Creep? && KnownMoves(moves) && Fighting(p) && p.second.body.hp > 0
    ensures TotalRewards(rules, p, moves) == if Run(rules, p, moves).second.body.hp == 0 then 1 else 0
  {
    hide Step, KnownMove, Rewards;
    if moves != [] {
      var m := |moves| - 1;
      CreepRewardOnce(rules, p, moves[..m]);
      var q := Run(rules, p, moves[..m]);
      StepRewards(rules, q, moves[m]);
      StepSound(rules, q, moves[m]);
    }
  }
}

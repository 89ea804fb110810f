/** What hits, effects and turns come to in numbers, whichever way they are computed. */
module BattleLaws {
  import opened Basics
  import opened Items
  import opened BattleStats
  import opened BattleRules

  /** A hit of strength d: HP and defence together lose d, the defence first, and nothing else
      changes. */
  ghost predicate TakesHit(s: Stats, s': Stats, d: int) {
    s' == s.(body := s'.body) && TakesBlow(s.body, s'.body, d)
  }

  ghost predicate TakesBlow(b: Body, b': Body, d: int) {
    b'.maxHp == b.maxHp && 0 <= b'.hp <= b.hp && 0 <= b'.defensive <= b.defensive &&
    b'.hp + b'.defensive == Max(0, b.hp + b.defensive - d) && (b'.hp < b.hp ==> b'.defensive == 0)
  }

  /** There is only one way to take a blow. */
  lemma OneBlow(b: Body, a: Body, c: Body, d: int)
    requires b.Sound() && d >= 0 && TakesBlow(b, a, d) && TakesBlow(b, c, d)
    ensures a == c
  {
  }

  /** Offence raises a strike by exactly its amount and weakening lowers it by exactly its own,
      but never below zero. */
  lemma StrikeLaw(s: Stats, n: nat)
    requires s.Sound()
    ensures s.Strike(n) >= 0
    ensures n + s.power.offensePower >= s.power.weakening ==> s.Strike(n) + s.power.weakening == n + s.power.offensePower
    ensures n + s.power.offensePower < s.power.weakening ==> s.Strike(n) == 0
  {
  }

  lemma BlowLaw(b: Body, d: int)
    requires b.Sound() && d >= 0
    ensures TakesBlow(b, b.Struck(d), d)
  {
  }

  ghost predicate IgnoresOnce(s: Stats, s': Stats) {
    s.ward.isIgnoreNextDamage && s' == s.(ward := Ward(s.ward.canDefendNegativeEffect, false))
  }

  /** HP grows by the healing that is not reduced away, up to the maximum. */
  ghost predicate HealsBy(s: Stats, s': Stats, n: int) {
    s' == s.(body := s'.body) && s'.body == s.body.(hp := s'.body.hp) &&
    var room, left := s.body.maxHp - s.body.hp, n - s.power.reducedHealing;
    s'.body.hp - s.body.hp == if left <= 0 then 0 else if left <= room then left else room
  }

  /** A bad effect: the cape takes it once, otherwise the effect is there. */
  ghost predicate Suffers(s: Stats, s': Stats, effect: Stats) {
    if s.ward.canDefendNegativeEffect then s' == s.(ward := Ward(false, s.ward.isIgnoreNextDamage)) else s' == effect
  }

  /** What each call on the enemy does to it. */
  ghost predicate TargetChanges(op: Op, me: Stats, s: Stats, s': Stats)
    requires OnEnemy(op)
  {
    match op
    case Hit(n) => if s.ward.isIgnoreNextDamage then IgnoresOnce(s, s') else TakesHit(s, s', me.Strike(n))
    case Pierce(n) =>
      if s.ward.isIgnoreNextDamage then IgnoresOnce(s, s')
      else s' == s.(body := Body(s.body.maxHp, if me.Strike(n) <= s.body.hp then s.body.hp - me.Strike(n) else 0, s.body.defensive))
    case Weaken(n) => Suffers(s, s', s.(power := s.power.(weakening := s.power.weakening + n)))
    case Bleed(n) => Suffers(s, s', s.(power := s.power.(bleeding := s.power.bleeding + n)))
    case ReduceHealing(n) => Suffers(s, s', s.(power := s.power.(reducedHealing := s.power.reducedHealing + n)))
    case InstallBomb(n) =>
      Suffers(s, s', s.(reaction := s.reaction.(isInstallBomb := true, installBombDamage := s.reaction.installBombDamage + n)))
    case StripOffensePower => s' == s.(power := s.power.(offensePower := 0))
  }

  lemma TargetLaw(op: Op, me: Stats, enemy: Stats)
    requires OnEnemy(op) && me.Sound() && enemy.Sound()
    ensures TargetChanges(op, me, enemy, OnTarget(op, me, enemy))
  {
    hide Body.Struck;
    if op.Hit? {
      StrikeLaw(me, op.damage);
      BlowLaw(enemy.body, me.Strike(op.damage));
    }
  }

  /** What each call on its user does. */
  ghost predicate SelfChanges(op: Op, s: Stats, s': Stats)
    requires !OnEnemy(op)
  {
    match op
    case Guard(n) => s' == s.(body := s.body.(defensive := s.body.defensive + n + s.power.additionDefensive))
    case GuardAgain => s' == s.(body := s.body.(defensive := 2 * s.body.defensive + s.power.additionDefensive))
    case Strengthen(n) => s' == s.(power := s.power.(offensePower := s.power.offensePower + n))
    case Ribbon(n) => s' == s.(power := s.power.(additionDefensive := s.power.additionDefensive + n))
    case WeakenMe(n) => Suffers(s, s', s.(power := s.power.(weakening := s.power.weakening + n)))
    case ShedWeakening => s' == s.(power := s.power.(weakening := 0))
    case HurtMe(n) => s' == s.(body := s.body.(hp := if n <= s.body.hp then s.body.hp - n else 0))
    case HealMe(n) => HealsBy(s, s', n)
    case Cleanse =>
      s' == s.(power := Power(s.power.offensePower, s.power.additionDefensive, 0, 0, 0),
               reaction := s.reaction.(isInstallBomb := false, installBombDamage := 0))
    case CounterAttack(n) =>
      s' == s.(reaction := s.reaction.(isCounterAttack := true, counterAttackDamage := s.reaction.counterAttackDamage + n))
    case CounterHeal(n) => s' == s.(reaction := s.reaction.(isCounterHeal := true, counterHeal := s.reaction.counterHeal + n))
    case EffectHeal(n) => s' == s.(reaction := s.reaction.(isEffectHeal := true, effectHeal := s.reaction.effectHeal + n))
    case UseKeyCap => s' == s.(tally := Tally(s.tally.effectItemCount, s.tally.useKeyCapCount + 1))
    case DefendNegative => s' == s.(ward := Ward(true, s.ward.isIgnoreNextDamage))
    case IgnoreNextDamage => s' == s.(ward := Ward(s.ward.canDefendNegativeEffect, true))
    case GainTicket => s' == s
  }

  lemma SelfLaw(op: Op, me: Stats)
    requires !OnEnemy(op) && me.Sound()
    ensures SelfChanges(op, me, OnSelf(op, me))
  {
  }

  /** The calls of a relic act one after the other. */
  lemma {:induction false} CallsInOrder(first: seq<Op>, then': seq<Op>, d: Duel)
    ensures RunOps(first + then', d) == RunOps(then', RunOps(first, d))
  {
    if then' == [] {
      assert first + then' == first;
    } else {
      var n := |then'| - 1;
      assert (first + then')[..|first| + n] == first + then'[..n];
      CallsInOrder(first, then'[..n], d);
    }
  }

  /** An activation: counted first, then the relic's calls, then the pastry, which comes too late
      at zero HP. */
  lemma ActivationLaw(item: Item, d: Duel, draw: Draw)
    requires Known(item) && SoundDuel(d) && d.me.body.hp > 0
    ensures var start := Duel(d.me.(tally := d.me.tally.(effectItemCount := d.me.tally.effectItemCount + 1)), d.enemy);
            SoundDuel(start) &&
            var after, a := RunOps(Program(item.code, item.upgrade, Look(start, draw)), start), Activated(item, d, draw);
            a.enemy == after.enemy &&
            (if after.me.reaction.isEffectHeal && after.me.body.hp > 0 then HealsBy(after.me, a.me, after.me.reaction.effectHeal)
             else a.me == after.me)
  {
    hide Program, RunOps, HealsFirst;
    var start := Duel(Counted(d.me), d.enemy);
    var ops := Program(item.code, item.upgrade, Look(start, draw));
    EveryRelicHealsFirst(item.code, item.upgrade, Look(start, draw));
    OpsSound(ops, start);
  }

  // ---- What follows an activation ----

  /** The counter of `me` against an attacker: the pending hit lands, unless ignored, the pending
      healing comes, and both are used up; after the finish nothing happens. */
  ghost predicate CounterChanges(d: Duel, d': Duel) {
    if d.me.role.isFinish then d' == d
    else
      var r := d.me.reaction;
      (if r.isCounterAttack then
         if d.enemy.ward.isIgnoreNextDamage then IgnoresOnce(d.enemy, d'.enemy)
         else TakesHit(d.enemy, d'.enemy, d.me.Strike(r.counterAttackDamage))
       else d'.enemy == d.enemy) &&
      var r1 := if r.isCounterAttack then r.(isCounterAttack := false, counterAttackDamage := 0) else r;
      var r2 := if r.isCounterHeal then r1.(isCounterHeal := false, counterHeal := 0) else r1;
      d'.me.reaction == r2 && HealsBy(d.me, d'.me.(reaction := r), if r.isCounterHeal then r.counterHeal else 0)
  }

  lemma CounterLaw(d: Duel)
    requires SoundDuel(d)
    ensures CounterChanges(d, Countered(d))
  {
    hide Body.Struck;
    if d.me.reaction.isCounterAttack {
      StrikeLaw(d.me, d.me.reaction.counterAttackDamage);
      BlowLaw(d.enemy.body, d.me.Strike(d.me.reaction.counterAttackDamage));
    }
  }

  /** Bleeding passes the defence. */
  ghost predicate Bleeds(s: Stats, s': Stats) {
    s' == s.(body := s.body.(hp := if s.power.bleeding <= s.body.hp then s.body.hp - s.power.bleeding else 0))
  }

  /** What a turn adds to the activation while both still stand after it: an attack is countered
      where counters count, then the actor bleeds. */
  ghost predicate Aftermath(item: Item, a: Duel, d: Duel, counters: bool)
    requires Known(item)
  {
    if counters && KindOf(item.code) == Attack then
      exists c: Duel :: CounterChanges(Duel(a.enemy, a.me), Duel(c.enemy, c.me)) && Bleeds(c.me, d.me) && d.enemy == c.enemy
    else Bleeds(a.me, d.me) && d.enemy == a.enemy
  }

  /** Only flags differ. */
  ghost predicate SameNumbers(s: Stats, s': Stats) { s' == s.(role := s'.role) }

  /** A turn: when the activation takes somebody to zero its numbers stand; otherwise the
      aftermath's do. */
  ghost predicate TurnChanges(item: Item, d: Duel, draw: Draw, counters: bool, d': Duel)
    requires Known(item) && SoundDuel(d)
  {
    var a := Activated(item, d, draw);
    if a.me.body.hp == 0 || a.enemy.body.hp == 0 then SameNumbers(a.me, d'.me) && SameNumbers(a.enemy, d'.enemy)
    else exists e: Duel :: Aftermath(item, a, e, counters) && SameNumbers(e.me, d'.me) && SameNumbers(e.enemy, d'.enemy)
  }

  lemma TurnLaw(item: Item, d: Duel, draw: Draw, counters: bool, meInRoom: bool, enemyInRoom: bool)
    requires Known(item) && Standing(d)
    ensures TurnChanges(item, d, draw, counters, Turn(item, d, draw, counters, meInRoom, enemyInRoom))
  {
    hide Activated, Body.Struck, Countered;
    ActivationSound(item, d, draw);
    var a := Activated(item, d, draw);
    CheckLaw(a, meInRoom, enemyInRoom);
    if a.me.body.hp == 0 || a.enemy.body.hp == 0 {
      AfterCheckFrozen(item, Checked(a, meInRoom, enemyInRoom), counters);
      CheckLaw(Checked(a, meInRoom, enemyInRoom), meInRoom, enemyInRoom);
    } else {
      var e := AfterCheck(item, a, counters);
      CounterLaw(Duel(a.enemy, a.me));
      CounterRoles(Duel(a.enemy, a.me));
      if counters && KindOf(item.code) == Attack {
        var c := Countered(Duel(a.enemy, a.me));
        assert CounterChanges(Duel(a.enemy, a.me), Duel(Duel(c.enemy, c.me).enemy, Duel(c.enemy, c.me).me));
      }
      assert Aftermath(item, a, e, counters);
      CheckLaw(e, meInRoom, enemyInRoom);
    }
  }

  lemma CheckLaw(d: Duel, meInRoom: bool, enemyInRoom: bool)
    ensures var d' := Checked(d, meInRoom, enemyInRoom);
            SameNumbers(d.me, d'.me) && SameNumbers(d.enemy, d'.enemy)
  {
  }

  lemma CounterRoles(d: Duel)
    ensures Countered(d).me.role == d.me.role && Countered(d).enemy.role == d.enemy.role
  {
  }

  /** The end of a cycle: the bomb goes off, unless ignored, and what lasts one cycle is gone. */
  ghost predicate CycleChanges(s: Stats, s': Stats) {
    (if s.ward.isIgnoreNextDamage then s'.body == s.body else TakesBlow(s.body, s'.body, s.reaction.installBombDamage)) &&
    s'.power == Power(0, 0, 0, 0, 0) && s'.reaction == Reaction(false, 0, false, 0, false, 0, false, 0) &&
    s'.ward == Ward(false, false) && s'.tally == Tally(0, s.tally.useKeyCapCount)
  }

  lemma CycleEndLaw(s: Stats)
    requires s.Sound()
    ensures CycleChanges(s, s.Bombed().NewCycle()) && s.Bombed().NewCycle().role == s.role
  {
    hide Body.Struck;
    BlowLaw(s.body, s.reaction.installBombDamage);
  }

  /** What each move does to the numbers of a pair that still fights. In a creep stage the creep
      does not counter. */
  ghost predicate MoveChanges(rules: Rules, p: Pair, m: Move, q: Pair)
    requires KnownMove(m) && p.first.Sound() && p.second.Sound()
  {
    match m
    case FirstActs(item, draw, _, _) => TurnChanges(item, Duel(p.first, p.second), draw, rules.Battle?, Duel(q.first, q.second))
    case SecondActs(item, draw, _, _) => TurnChanges(item, Duel(p.second, p.first), draw, true, Duel(q.second, q.first))
    case EndCycle(_, _) => CycleChanges(p.first, q.first) && CycleChanges(p.second, q.second)
    case TimeUp(_, _) => SameNumbers(p.first, q.first) && SameNumbers(p.second, q.second)
  }

  lemma MoveLaw(rules: Rules, p: Pair, m: Move)
    requires KnownMove(m) && Fighting(p) && !p.first.role.isFinish
    ensures MoveChanges(rules, p, m, Step(rules, p, m))
  {
    hide Turn, TurnChanges, Checked;
    match m
    case FirstActs(item, draw, firstIn, secondIn) =>
      TurnLaw(item, Duel(p.first, p.second), draw, rules.Battle?, firstIn, secondIn);
    case SecondActs(item, draw, firstIn, secondIn) =>
      TurnLaw(item, Duel(p.second, p.first), draw, true, secondIn, firstIn);
    case EndCycle(firstIn, secondIn) =>
      CycleEndLaw(p.first);
      CycleEndLaw(p.second);
      CheckLaw(CycleEnded(Duel(p.first, p.second)), firstIn, secondIn);
    case TimeUp(_, _) =>
  }
}

/** The numbers of one fighter, and every way a battle changes them. */
module BattleStats {
  import opened Basics
  import opened Items

  datatype Item = Item(code: nat, upgrade: nat)

  datatype Body = Body(maxHp: int, hp: int, defensive: int) {
    ghost predicate Sound() { 5 <= maxHp && 0 <= hp <= maxHp && 0 <= defensive }

    /** Damage is taken by the defence first. */
    function Struck(d: int): Body { Body(maxHp, Max(0, hp - Max(0, d - defensive)), Max(0, defensive - d)) }
    function Lost(d: int): Body { this.(hp := Max(0, hp - d)) }
    function Healed(n: int): Body { this.(hp := Min(maxHp, hp + n)) }
  }

  datatype Power = Power(offensePower: int, additionDefensive: int, weakening: int, bleeding: int, reducedHealing: int) {
    ghost predicate Sound() {
      0 <= offensePower && 0 <= additionDefensive && 0 <= weakening && 0 <= bleeding && 0 <= reducedHealing
    }
  }

  /** Effects that wait for something to happen. */
  datatype Reaction = Reaction(isCounterAttack: bool, counterAttackDamage: int, isCounterHeal: bool, counterHeal: int,
                               isEffectHeal: bool, effectHeal: int, isInstallBomb: bool, installBombDamage: int)
  {
    ghost predicate Sound() {
      0 <= counterAttackDamage && 0 <= counterHeal && 0 <= effectHeal && 0 <= installBombDamage
    }
  }

  datatype Ward = Ward(canDefendNegativeEffect: bool, isIgnoreNextDamage: bool)

  datatype Tally = Tally(effectItemCount: int, useKeyCapCount: int)

  datatype Role = Role(hamburger: Hamburger, firstAttackState: int, isGhost: bool, isFinish: bool, isCharacterDamage: bool)

  const NO_POWER := Power(0, 0, 0, 0, 0)
  const NO_REACTION := Reaction(false, 0, false, 0, false, 0, false, 0)
  const NO_WARD := Ward(false, false)

  /** The numbers of an avatar at one moment. */
  datatype Stats = Stats(body: Body, power: Power, reaction: Reaction, ward: Ward, tally: Tally, role: Role) {

    /** 0 <= HP <= MaxHP and no number is negative. */
    ghost predicate Sound() {
      body.Sound() && power.Sound() && reaction.Sound() && 0 <= tally.effectItemCount && 0 <= tally.useKeyCapCount
    }

    /** What a hit of this strength does when this avatar lands it. */
    function Strike(damage: int): int { Max(0, damage + power.offensePower - power.weakening) }

    function Damaged(d: int): Stats {
      if ward.isIgnoreNextDamage then this.(ward := ward.(isIgnoreNextDamage := false))
      else this.(body := body.Struck(d))
    }

    function Pierced(d: int): Stats {
      if ward.isIgnoreNextDamage then this.(ward := ward.(isIgnoreNextDamage := false))
      else this.(body := body.Lost(d))
    }

    function Bombed(): Stats {
      if ward.isIgnoreNextDamage then this.(ward := ward.(isIgnoreNextDamage := false))
      else this.(body := body.Struck(reaction.installBombDamage),
                 reaction := reaction.(installBombDamage := 0, isInstallBomb := false))
    }

    function Bled(): Stats { this.(body := body.Lost(power.bleeding)) }

    function Healed(heal: int): Stats { this.(body := body.Healed(Max(0, heal - power.reducedHealing))) }

    /** A negative effect is warded off once by the hero's cape. */
    function Afflicted(effect: Stats): Stats {
      if ward.canDefendNegativeEffect then this.(ward := ward.(canDefendNegativeEffect := false)) else effect
    }

    function Weakened(n: int): Stats { Afflicted(this.(power := power.(weakening := Max(0, power.weakening + n)))) }
    function Bleeding(n: int): Stats { Afflicted(this.(power := power.(bleeding := Max(0, power.bleeding + n)))) }
    function HealingReduced(n: int): Stats {
      Afflicted(this.(power := power.(reducedHealing := Max(0, power.reducedHealing + n))))
    }
    function BombInstalled(n: int): Stats {
      Afflicted(this.(reaction := reaction.(isInstallBomb := true, installBombDamage := reaction.installBombDamage + n)))
    }

    function Guarded(n: int): Stats {
      this.(body := body.(defensive := Max(0, body.defensive + n + power.additionDefensive)))
    }

    /** The start of a new cycle. */
    function NewCycle(): Stats {
      Stats(body, NO_POWER, NO_REACTION, NO_WARD, tally.(effectItemCount := 0), role)
    }

    function Finished(): Stats { this.(role := role.(isFinish := true)) }

    /** Whether the client behind this avatar is hurt now. */
    predicate Hurts(isNotFinishBattle: bool, inRoom: bool) {
      !role.isGhost && !role.isCharacterDamage && (isNotFinishBattle || body.hp <= 0) && inRoom
    }

    function CharacterDamaged(isNotFinishBattle: bool, inRoom: bool): Stats {
      if Hurts(isNotFinishBattle, inRoom) then this.(role := role.(isCharacterDamage := true)) else this
    }

    function Fitted(item: Item): Stats
      requires item.code < ITEM_CODES
    {
      match FitmentOf(item.code, item.upgrade)
      case FitMaxHp(n) => this.(body := Body(body.maxHp + n, body.maxHp + n, body.defensive))
      case FitDefensive(n) => Guarded(n)
      case FitFirstAttack(n) => this.(role := role.(firstAttackState := role.firstAttackState + n))
      case NoFitment => this
    }
  }

  function Newcomer(hp: int, attackState: int, isGhost: bool): Stats {
    Stats(Body(hp, hp, 0), NO_POWER, NO_REACTION, NO_WARD, Tally(0, 0), Role(Fillet, attackState, isGhost, false, false))
  }

  /** Two avatars facing each other: the acting one and its enemy. */
  datatype Duel = Duel(me: Stats, enemy: Stats)

  predicate OnEnemy(op: Op) {
    op.Hit? || op.Pierce? || op.Weaken? || op.Bleed? || op.ReduceHealing? || op.InstallBomb? || op.StripOffensePower?
  }

  /** A call on the enemy; the actor's numbers only matter for its strike. */
  function OnTarget(op: Op, me: Stats, enemy: Stats): Stats
    requires OnEnemy(op)
  {
    match op
    case Hit(n) => enemy.Damaged(me.Strike(n))
    case Pierce(n) => enemy.Pierced(me.Strike(n))
    case Weaken(n) => enemy.Weakened(n)
    case Bleed(n) => enemy.Bleeding(n)
    case ReduceHealing(n) => enemy.HealingReduced(n)
    case InstallBomb(n) => enemy.BombInstalled(n)
    case StripOffensePower => enemy.(power := enemy.power.(offensePower := 0))
  }

  /** A call on the actor itself. */
  function OnSelf(op: Op, me: Stats): Stats
    requires !OnEnemy(op)
  {
    match op
    case Guard(n) => me.Guarded(n)
    case GuardAgain => me.Guarded(me.body.defensive)
    case Strengthen(n) => me.(power := me.power.(offensePower := Max(0, me.power.offensePower + n)))
    case Ribbon(n) => me.(power := me.power.(additionDefensive := Max(0, me.power.additionDefensive + n)))
    case WeakenMe(n) => me.Weakened(n)
    case ShedWeakening => me.(power := me.power.(weakening := 0))
    case HurtMe(n) => me.(body := me.body.Lost(n))
    case HealMe(n) => me.Healed(n)
    case Cleanse =>
      me.(power := me.power.(bleeding := 0, weakening := 0, reducedHealing := 0),
          reaction := me.reaction.(isInstallBomb := false, installBombDamage := 0))
    case CounterAttack(n) =>
      me.(reaction := me.reaction.(isCounterAttack := true, counterAttackDamage := me.reaction.counterAttackDamage + n))
    case CounterHeal(n) =>
      me.(reaction := me.reaction.(isCounterHeal := true, counterHeal := me.reaction.counterHeal + n))
    case EffectHeal(n) =>
      me.(reaction := me.reaction.(isEffectHeal := true, effectHeal := me.reaction.effectHeal + n))
    case UseKeyCap => me.(tally := me.tally.(useKeyCapCount := me.tally.useKeyCapCount + 1))
    case DefendNegative => me.(ward := me.ward.(canDefendNegativeEffect := true))
    case IgnoreNextDamage => me.(ward := me.ward.(isIgnoreNextDamage := true))
    case GainTicket => me
  }

  function Apply(op: Op, d: Duel): Duel {
    if OnEnemy(op) then Duel(d.me, OnTarget(op, d.me, d.enemy)) else Duel(OnSelf(op, d.me), d.enemy)
  }

  function RunOps(ops: seq<Op>, d: Duel): Duel {
    if ops == [] then d else Apply(ops[|ops| - 1], RunOps(ops[..|ops| - 1], d))
  }

  /** The random draws of one activation, and the tickets its client holds. */
  datatype Draw = Draw(coin: bool, percent: nat, tickets: nat)

  function Look(d: Duel, draw: Draw): Sight
    requires d.me.Sound() && d.enemy.Sound()
  {
    Sight(d.me.role.hamburger, d.me.body.defensive, d.me.body.hp, d.me.body.maxHp,
          d.me.tally.effectItemCount, d.me.tally.useKeyCapCount,
          d.enemy.body.defensive, d.enemy.body.hp, d.enemy.body.maxHp, draw.tickets, draw.coin, draw.percent)
  }

  /** Relics exist and are upgraded at most twice. */
  ghost predicate Known(item: Item) { item.code < ITEM_CODES && item.upgrade <= 2 }

  function Counted(s: Stats): Stats { s.(tally := s.tally.(effectItemCount := s.tally.effectItemCount + 1)) }

  /** The healing a pastry promised for each activation, unless it is too late. */
  function Snacked(s: Stats): Stats {
    if s.reaction.isEffectHeal && s.body.hp > 0 then s.Healed(s.reaction.effectHeal) else s
  }

  /** One activation: the relic's calls, then the pastry. */
  function Activated(item: Item, d: Duel, draw: Draw): Duel
    requires Known(item) && d.me.Sound() && d.enemy.Sound()
  {
    var start := Duel(Counted(d.me), d.enemy);
    var after := RunOps(Program(item.code, item.upgrade, Look(start, draw)), start);
    Duel(Snacked(after.me), after.enemy)
  }

  function CounterAttacked(d: Duel): Duel {
    if d.me.reaction.isCounterAttack then
      Duel(d.me.(reaction := d.me.reaction.(isCounterAttack := false, counterAttackDamage := 0)),
           d.enemy.Damaged(d.me.Strike(d.me.reaction.counterAttackDamage)))
    else d
  }

  function CounterHealed(s: Stats): Stats {
    if s.reaction.isCounterHeal then
      s.Healed(s.reaction.counterHeal).(reaction := s.reaction.(isCounterHeal := false, counterHeal := 0))
    else s
  }

  /** The counter effects of `me` against the enemy that just attacked. */
  function Countered(d: Duel): Duel {
    if d.me.role.isFinish then d
    else
      var attacked := CounterAttacked(d);
      Duel(CounterHealed(attacked.me), attacked.enemy)
  }

  // ---- What every step keeps ----

  ghost predicate SoundDuel(d: Duel) { d.me.Sound() && d.enemy.Sound() }

  /** Sound afterwards, not back from zero HP, same role, same maximum. */
  ghost predicate Evolves(s: Stats, s': Stats) {
    s'.Sound() && (s.body.hp == 0 ==> s'.body.hp == 0) && s'.body.maxHp == s.body.maxHp && s'.role == s.role
  }

  ghost predicate SameCount(s: Stats, s': Stats) { s'.tally.effectItemCount == s.tally.effectItemCount }

  lemma TargetEvolves(op: Op, me: Stats, enemy: Stats)
    requires OnEnemy(op) && me.Sound() && enemy.Sound()
    ensures Evolves(enemy, OnTarget(op, me, enemy)) && SameCount(enemy, OnTarget(op, me, enemy))
  {
  }

  /** Only healing brings somebody back from zero HP, and only hurting takes somebody there. */
  lemma SelfEvolves(op: Op, me: Stats)
    requires !OnEnemy(op) && me.Sound()
    ensures OnSelf(op, me).Sound() && SameCount(me, OnSelf(op, me))
    ensures !op.HealMe? || me.body.hp > 0 ==> Evolves(me, OnSelf(op, me))
    ensures !op.HurtMe? && me.body.hp > 0 ==> OnSelf(op, me).body.hp > 0
  {
  }

  lemma {:induction false} OpsSound(ops: seq<Op>, d: Duel)
    requires SoundDuel(d) && HealsFirst(ops) && d.me.body.hp > 0
    ensures Evolves(d.me, RunOps(ops, d).me) && Evolves(d.enemy, RunOps(ops, d).enemy)
    ensures SameCount(d.me, RunOps(ops, d).me) && SameCount(d.enemy, RunOps(ops, d).enemy)
    ensures (forall i :: 0 <= i < |ops| ==> !ops[i].HurtMe?) ==> RunOps(ops, d).me.body.hp > 0
  {
    hide OnTarget, OnSelf;
    if ops != [] {
      var n := |ops| - 1;
      OpsSound(ops[..n], d);
      assert forall i :: 0 <= i < n ==> ops[..n][i] == ops[i];
      var before := RunOps(ops[..n], d);
      if OnEnemy(ops[n]) {
        TargetEvolves(ops[n], before.me, before.enemy);
      } else {
        SelfEvolves(ops[n], before.me);
      }
    }
  }

  /** Activating any relic, at any upgrade level, with any draws: HP stays within bounds, no
      number turns negative, and neither avatar leaves zero HP once it got there. */
  lemma ActivationSound(item: Item, d: Duel, draw: Draw)
    requires Known(item) && SoundDuel(d) && d.me.body.hp > 0
    ensures Evolves(d.me, Activated(item, d, draw).me) && Evolves(d.enemy, Activated(item, d, draw).enemy)
    ensures Activated(item, d, draw).me.tally.effectItemCount == d.me.tally.effectItemCount + 1
    ensures SameCount(d.enemy, Activated(item, d, draw).enemy)
  {
    hide Program, RunOps, HealsFirst;
    var start := Duel(Counted(d.me), d.enemy);
    var ops := Program(item.code, item.upgrade, Look(start, draw));
    EveryRelicHealsFirst(item.code, item.upgrade, Look(start, draw));
    OpsSound(ops, start);
  }

  /** A counter by an avatar that is still standing. */
  lemma CounterSound(d: Duel)
    requires SoundDuel(d) && (d.me.body.hp > 0 || d.me.role.isFinish)
    ensures Evolves(d.me, Countered(d).me) && Evolves(d.enemy, Countered(d).enemy)
    ensures SameCount(d.me, Countered(d).me) && SameCount(d.enemy, Countered(d).enemy)
  {
  }
}

/** The relic tables: tier, kind, and what each relic does when it is activated or fitted. */
module Items {
  import opened Basics

  const MAX_USING_ITEM_COUNT: nat := 6
  const MAX_UN_USING_ITEM_COUNT: nat := 10
  const EMPTY_ITEM: nat := 0
  const ITEM_CODES: nat := 46

  datatype ItemKind = Attack | Defense | Effect | Heal | Empty

  /** 0 for tier One up to 4 for tier Five. */
  function TierOf(code: nat): (tier: nat)
    requires code < ITEM_CODES
    ensures tier < 5
  {
    if code in {15, 27, 32} then 4
    else if code in {5, 13, 17, 18, 25} then 3
    else if code in {6, 11, 23, 24, 28, 29, 34, 35, 36} then 2
    else if code in {7, 9, 10, 12, 14, 16, 19, 20, 21, 22, 26, 30, 31, 37, 41, 42, 43, 44, 45} then 1
    else 0
  }

  function KindOf(code: nat): ItemKind
    requires code < ITEM_CODES
  {
    if code == EMPTY_ITEM then Empty
    else if code in {2, 9, 10, 14, 27, 30, 35, 36, 43} then Defense
    else if code in {3, 7, 8, 11, 16, 17, 20, 23, 25, 29, 34, 37} then Effect
    else if code in {6, 12, 32, 33} then Heal
    else Attack
  }

  /** The relics a ticket or a combination can produce, by tier. */
  function TierItems(tier: nat): (codes: seq<nat>)
    requires tier < 5
    ensures codes != []
  {
    match tier
    case 0 => [1, 2, 3, 4, 8, 33]
    case 1 => [7, 9, 10, 12, 14, 16, 19, 20, 21, 22, 26, 30, 31, 37]
    case 2 => [6, 11, 23, 24, 28, 29, 34, 35, 36]
    case 3 => [5, 13, 17, 18, 25]
    case _ => [15, 27, 32]
  }

  /** The tables agree with the relics: a tier's table holds relics of that tier only, and the
      tables together hold every player relic (1 to 37) once. */
  lemma TablesMatchTiers(tier: nat, k: nat)
    requires tier < 5 && k < |TierItems(tier)|
    ensures 1 <= TierItems(tier)[k] <= 37 && TierOf(TierItems(tier)[k]) == tier
  {
  }

  lemma EveryRelicListed(code: nat)
    requires 1 <= code <= 37
    ensures code in TierItems(TierOf(code))
    ensures forall tier, k, l :: 0 <= tier < 5 && 0 <= k < l < |TierItems(tier)| ==> TierItems(tier)[k] != TierItems(tier)[l]
  {
  }

  datatype Hamburger = Fillet | Guinness | WhiteGarlic | Rice

  /** One call a relic makes on the avatar that activates it (me) or on its enemy. */
  datatype Op =
    | Hit(damage: nat)            // enemy.ToDamage
    | Pierce(damage: nat)         // enemy.ToPiercingDamage
    | Weaken(n: nat)              // enemy.ToWeakening
    | Bleed(n: nat)               // enemy.ToBleeding
    | ReduceHealing(n: nat)       // enemy.ToReducedHealing
    | InstallBomb(n: nat)         // enemy.SetInstallBomb
    | StripOffensePower           // enemy.SetOffensePower(0)
    | Guard(n: nat)               // me.ToDefensive
    | GuardAgain                  // me.ToDefensive(me.GetDefensive())
    | Strengthen(n: nat)          // me.ToOffensePower
    | Ribbon(n: nat)              // me.ToAdditionDefensive
    | WeakenMe(n: nat)            // me.ToWeakening
    | ShedWeakening               // me.SetWeakening(0)
    | HurtMe(n: nat)              // me.ToJustDamage
    | HealMe(n: nat)              // me.ToHeal
    | Cleanse                     // me.Clear
    | CounterAttack(n: nat)       // me.SetCounterAttack
    | CounterHeal(n: nat)         // me.SetCounterHeal
    | EffectHeal(n: nat)          // me.SetEffectHeal
    | UseKeyCap                   // me.UseKeyCap
    | DefendNegative              // me.SetDefendNegativeEffect(true)
    | IgnoreNextDamage            // me.SetIgnoreNextDamage(true)
    | GainTicket                  // one more normal ticket for my client, if still in the room

  /** What an effect can look at: both avatars, the client's tickets and the random draws. */
  datatype Sight = Sight(
    hamburger: Hamburger,
    defensive: nat,          // mine
    hp: nat, maxHp: nat,     // mine
    effectItemCount: nat,    // relics I activated this cycle, this one included
    keyCaps: nat,            // key caps I activated before this one
    enemyDefensive: nat, enemyHp: nat, enemyMaxHp: nat,
    tickets: nat,            // all tickets of my client
    coin: bool,              // the magic stick deals damage
    percent: nat)            // a draw from 0 to 99

  function Times(n: nat, op: Op): seq<Op> { seq(n, _ => op) }

  /** Upgrade levels 0, 1 and 2 pick one of three values. */
  function Star<T>(up: nat, one: T, two: T, three: T): T {
    if up == 0 then one else if up == 1 then two else three
  }

  /** The calls of a relic's `Active` at upgrade level 0, 1 or 2, in order. */
  function Program(code: nat, up: nat, s: Sight): seq<Op>
    requires code < ITEM_CODES && up <= 2
    requires s.enemyMaxHp >= 5 && s.enemyHp <= s.enemyMaxHp && s.hp <= s.maxHp && s.effectItemCount >= 1
  {
    if code < 20 then Program00(code, up, s) else Program20(code, up, s)
  }

  function Program00(code: nat, up: nat, s: Sight): seq<Op>
    requires code < 20
  {
    match code
    case 0 => []
    case 1 => [Hit(Star(up, 5, 8, 12))]
    case 2 => [Guard(Star(up, 3, 5, 7))]
    case 3 => [Weaken(Star(up, 1, 2, 3))]
    case 4 => Times(2, Hit(Star(up, 3, 4, 6)))
    case 5 => [Hit(5 + s.defensive * Star(up, 3, 4, 6))]
    case 6 => [Cleanse]
    case 7 =>
      (match s.hamburger
       case Fillet => [Weaken(Star(up, 2, 3, 4))]
       case Guinness => [Hit(Star(up, 7, 9, 12))]
       case WhiteGarlic => [HealMe(Star(up, 4, 6, 9))]
       case Rice => [Guard(Star(up, 4, 6, 9))])
    case 8 => [Strengthen(Star(up, 2, 3, 5))]
    case 9 => [Guard(4), CounterAttack(Star(up, 5, 7, 10))]
    case 10 => [Guard(4), CounterHeal(Star(up, 6, 8, 11))]
    case 11 => [Ribbon(Star(up, 2, 4, 6))]
    case 12 => [EffectHeal(Star(up, 1, 3, 4))]
    case 13 => [InstallBomb(Star(up, 15, 20, 30))]
    case 14 => [HurtMe(Star(up, 3, 4, 5)), Guard(3 * Star(up, 3, 4, 5))]
    case 15 => Times(s.effectItemCount, Hit(Star(up, 10, 20, 30)))
    case 16 => [Hit(5)]
    case 17 => [Hit(Star(up, s.tickets / 2, s.tickets, 2 * s.tickets))]
    case 18 => [Hit(Star(up, 10, 15, 20) * (if s.enemyDefensive == 0 then 1 else 2))]
    case _ => [Weaken(1), Hit(Star(up, 6, 9, 13))]
  }

  function Program20(code: nat, up: nat, s: Sight): seq<Op>
    requires 20 <= code < ITEM_CODES
    requires s.enemyMaxHp >= 5 && s.enemyHp <= s.enemyMaxHp && s.hp <= s.maxHp && s.effectItemCount >= 1
  {
    match code
    case 20 => Star(up, [Weaken(2)], [Weaken(3), WeakenMe(1)], [Weaken(4), WeakenMe(2)])
    case 21 => if s.coin then [Hit(Star(up, 6, 9, 13))] else [HealMe(Star(up, 7, 10, 14))]
    case 22 => [Bleed(2), Hit(Star(up, 3, 6, 11))]
    case 23 => [StripOffensePower, ShedWeakening]
    case 24 => [Hit(Star(up, 7, 11, 15) + (s.enemyMaxHp - s.enemyHp) / (s.enemyMaxHp / 5))]
    case 25 => [Strengthen(if s.effectItemCount < 4 then Star(up, 3, 4, 5) else Star(up, 5, 6, 7))]
    case 26 => [Hit(10), ReduceHealing(Star(up, 2, 4, 6))]
    case 27 => [Guard(Star(up, 3, 5, 10)), GuardAgain]
    case 28 => [Bleed(Star(up, 2, 3, 5)), Hit(6)]
    case 29 => if s.percent < Star(up, 30, 50, 100) then [GainTicket] else []
    case 30 => [IgnoreNextDamage]
    case 31 => [Pierce(Star(up, 6, 9, 13))]
    case 32 =>
      var lostHp := s.maxHp - s.hp;
      [HealMe(Star(up, lostHp / 4, 2 * lostHp / 5, lostHp / 2))]
    case 33 => [HealMe(Star(up, 3, 5, 7))]
    case 34 => [UseKeyCap] + Times(s.keyCaps + 1, Hit(Star(up, 3, 4, 6)))
    case 35 => [Guard(Star(up, 5, 9, 13))]
    case 36 => [Guard(if s.effectItemCount < 4 then 4 else Star(up, 7, 9, 11))]
    case 37 => [DefendNegative]
    case 38 => [Hit(1)]
    case 39 => [Hit(2)]
    case 40 => [Hit(3)]
    case 41 => [Hit(2), HealMe(3)]
    case 42 => [Hit(10)]
    case 43 => [Guard(8)]
    case 44 => [Hit(20)]
    case _ => [Hit(Pow2(s.effectItemCount - 1))]
  }

  /** No relic heals its user after hurting it. */
  ghost predicate HealsFirst(ops: seq<Op>) {
    forall i, j :: 0 <= i < j < |ops| ==> !(ops[i].HurtMe? && ops[j].HealMe?)
  }

  lemma EveryRelicHealsFirst(code: nat, up: nat, s: Sight)
    requires code < ITEM_CODES && up <= 2
    requires s.enemyMaxHp >= 5 && s.enemyHp <= s.enemyMaxHp && s.hp <= s.maxHp && s.effectItemCount >= 1
    ensures HealsFirst(Program(code, up, s))
  {
  }

  /** What wearing a relic changes before the fight. */
  datatype Fitment = NoFitment | FitMaxHp(n: nat) | FitDefensive(n: nat) | FitFirstAttack(n: nat)

  function FitmentOf(code: nat, up: nat): Fitment
    requires code < ITEM_CODES
  {
    match code
    case 6 => FitMaxHp(5 + 5 * up)
    case 7 => FitDefensive(3 + 3 * up)
    case 15 => FitFirstAttack(2 + up)
    case 16 => FitMaxHp(5 + 5 * up)
    case 23 => FitFirstAttack(up + 1)
    case 27 => FitDefensive(5 + 5 * up)
    case 30 => FitDefensive(3 + 3 * up)
    case 32 => if up == 0 then FitMaxHp(7) else if up == 1 then FitMaxHp(12) else if up == 2 then FitMaxHp(20) else NoFitment
    case 36 => FitMaxHp(5 + 5 * up)
    case 37 => FitDefensive(3 + 3 * up)
    case _ => NoFitment
  }
}

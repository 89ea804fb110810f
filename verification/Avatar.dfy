/** The avatar object of a battle, updated in place. */
module Avatar {
  import opened Basics
  import opened Items
  import opened BattleStats
  import opened Clients
  import opened Draws

  /** The activation order of an avatar that has not drawn one. */
  const SLOT_ORDER: seq<nat> := [0, 1, 2, 3, 4, 5]

  class BattleAvatar {
    var mClient: Client?            // none for a creep
    var mNetworkID: int
    var mUsingItem: seq<Item>
    var mActiveQueue: seq<nat>
    var mMaxHp: int
    var mHp: int
    var mDefensive: int
    var mOffensePower: int
    var mAdditionDefensive: int
    var mWeakening: int
    var mBleeding: int
    var mReducedHealing: int
    var mIsGhost: bool
    var mIsFinish: bool
    var mIsCounterAttack: bool
    var mCounterAttackDamage: int
    var mIsCounterHeal: bool
    var mCounterHeal: int
    var mHamburgerType: Hamburger
    var mIsEffectHeal: bool
    var mEffectHeal: int
    var mIsInstallBomb: bool
    var mInstallBombDamage: int
    var mEffectItemCount: int
    var mUseKeyCapCount: int
    var mCanDefendNegativeEffect: bool
    var mIsIgnoreNextDamage: bool
    var mIsCharacterDamage: bool
    var mFirstAttackState: int

    function BodyView(): Body
      reads `mMaxHp, `mHp, `mDefensive
    {
      Body(mMaxHp, mHp, mDefensive)
    }

    function PowerView(): Power
      reads `mOffensePower, `mAdditionDefensive, `mWeakening, `mBleeding, `mReducedHealing
    {
      Power(mOffensePower, mAdditionDefensive, mWeakening, mBleeding, mReducedHealing)
    }

    function ReactionView(): Reaction
      reads `mIsCounterAttack, `mCounterAttackDamage, `mIsCounterHeal, `mCounterHeal
      reads `mIsEffectHeal, `mEffectHeal, `mIsInstallBomb, `mInstallBombDamage
    {
      Reaction(mIsCounterAttack, mCounterAttackDamage, mIsCounterHeal, mCounterHeal,
               mIsEffectHeal, mEffectHeal, mIsInstallBomb, mInstallBombDamage)
    }

    function WardView(): Ward
      reads `mCanDefendNegativeEffect, `mIsIgnoreNextDamage
    {
      Ward(mCanDefendNegativeEffect, mIsIgnoreNextDamage)
    }

    function TallyView(): Tally
      reads `mEffectItemCount, `mUseKeyCapCount
    {
      Tally(mEffectItemCount, mUseKeyCapCount)
    }

    function RoleView(): Role
      reads `mHamburgerType, `mFirstAttackState, `mIsGhost, `mIsFinish, `mIsCharacterDamage
    {
      Role(mHamburgerType, mFirstAttackState, mIsGhost, mIsFinish, mIsCharacterDamage)
    }

    function View(): Stats
      reads this
    {
      Stats(BodyView(), PowerView(), ReactionView(), WardView(), TallyView(), RoleView())
    }

    /** Six known relics, and an activation order that uses every slot once. */
    ghost predicate Equipped()
      reads this
    {
      |mUsingItem| == MAX_USING_ITEM_COUNT && (forall i :: 0 <= i < |mUsingItem| ==> Known(mUsingItem[i])) &&
      IsOrder(mActiveQueue)
    }

    ghost predicate SameGear(client: Client?, id: int, items: seq<Item>, queue: seq<nat>)
      reads this
    {
      mClient == client && mNetworkID == id && mUsingItem == items && mActiveQueue == queue
    }

    /** A fresh avatar of a client for a battle of the given round. */
    constructor SetAvatar(client: Client, networkID: int, isGhost: bool, round: nat, attackState: int, items: seq<Item>)
      requires |items| == MAX_USING_ITEM_COUNT && forall i :: 0 <= i < |items| ==> Known(items[i])
      ensures Equipped() && SameGear(client, networkID, items, SLOT_ORDER)
      ensures View() == Newcomer(50 + 10 * Min(5, round), attackState, isGhost)
    {
      mClient, mNetworkID := client, networkID;
      mMaxHp := 50 + 10 * Min(5, round);
      mHp := 50 + 10 * Min(5, round);
      mDefensive, mOffensePower, mAdditionDefensive, mWeakening, mBleeding, mReducedHealing := 0, 0, 0, 0, 0, 0;
      mIsGhost, mIsFinish := isGhost, false;
      mIsCounterAttack, mCounterAttackDamage, mIsCounterHeal, mCounterHeal := false, 0, false, 0;
      mHamburgerType := Fillet;
      mIsEffectHeal, mEffectHeal, mIsInstallBomb, mInstallBombDamage := false, 0, false, 0;
      mEffectItemCount, mUseKeyCapCount := 0, 0;
      mCanDefendNegativeEffect, mIsIgnoreNextDamage, mIsCharacterDamage := false, false, false;
      mFirstAttackState := attackState;
      mUsingItem, mActiveQueue := items, SLOT_ORDER;
    }

    /** A creep: a ghost without a client. */
    constructor SetCreep(networkID: int, maxHp: nat, items: seq<Item>)
      requires |items| == MAX_USING_ITEM_COUNT && forall i :: 0 <= i < |items| ==> Known(items[i])
      ensures Equipped() && SameGear(null, networkID, items, SLOT_ORDER)
      ensures View() == Newcomer(maxHp, 0, true)
    {
      mClient, mNetworkID := null, networkID;
      mMaxHp, mHp := maxHp, maxHp;
      mDefensive, mOffensePower, mAdditionDefensive, mWeakening, mBleeding, mReducedHealing := 0, 0, 0, 0, 0, 0;
      mIsGhost, mIsFinish := true, false;
      mIsCounterAttack, mCounterAttackDamage, mIsCounterHeal, mCounterHeal := false, 0, false, 0;
      mHamburgerType := Fillet;
      mIsEffectHeal, mEffectHeal, mIsInstallBomb, mInstallBombDamage := false, 0, false, 0;
      mEffectItemCount, mUseKeyCapCount := 0, 0;
      mCanDefendNegativeEffect, mIsIgnoreNextDamage, mIsCharacterDamage := false, false, false;
      mFirstAttackState := 0;
      mUsingItem, mActiveQueue := items, SLOT_ORDER;
    }

    method FitmentEffect()
      requires Equipped() && View().Sound()
      modifies `mMaxHp, `mHp, `mDefensive, `mFirstAttackState
      ensures View() == FittedAll(old(View()), mUsingItem)
    {
      hide BattleAvatar.View, Stats.Fitted;
      ghost var before := View();
      for i := 0 to |mUsingItem|
        invariant View() == FittedAll(before, mUsingItem[..i])
      {
        assert mUsingItem[..i + 1][..i] == mUsingItem[..i];
        assert Known(mUsingItem[i]);
        Fit(mUsingItem[i]);
      }
      assert mUsingItem[..|mUsingItem|] == mUsingItem;
    }

    /** Fits one relic. */
    method Fit(item: Item)
      requires Known(item)
      modifies `mMaxHp, `mHp, `mDefensive, `mFirstAttackState
      ensures View() == old(View()).Fitted(item)
    {
      hide BattleAvatar.PowerView, BattleAvatar.ReactionView, BattleAvatar.WardView, BattleAvatar.TallyView;
      match FitmentOf(item.code, item.upgrade) {
        case FitMaxHp(n) =>
          mMaxHp := mMaxHp + n;
          mHp := mMaxHp;
        case FitDefensive(n) => ToDefensive(n);
        case FitFirstAttack(n) => mFirstAttackState := mFirstAttackState + n;
        case NoFitment =>
      }
    }

    method SetActiveQueue(queue: seq<nat>)
      requires IsOrder(queue)
      modifies `mActiveQueue
      ensures mActiveQueue == queue && View() == old(View())
    {
      mActiveQueue := queue;
    }

    method ToDamage(damage: int, opponent: BattleAvatar)
      modifies `mIsIgnoreNextDamage, `mDefensive, `mHp
      ensures View() == old(View()).Damaged(old(opponent.View().Strike(damage)))
      ensures old(mHp) >= 0 && old(mDefensive) >= 0 ==>
                var d := Max(0, damage + old(opponent.mOffensePower) - old(opponent.mWeakening));
                if old(mIsIgnoreNextDamage) then !mIsIgnoreNextDamage && mHp == old(mHp) && mDefensive == old(mDefensive)
                else
                  mHp + mDefensive == Max(0, old(mHp) + old(mDefensive) - d) && mHp <= old(mHp) && (mHp < old(mHp) ==> mDefensive == 0)
    {
      if mIsIgnoreNextDamage {
        mIsIgnoreNextDamage := false;
        return;
      }
      var d := damage + opponent.mOffensePower;
      d := Max(0, d - opponent.mWeakening);
      var oldDefensive := mDefensive;
      mDefensive := Max(0, mDefensive - d);
      d := Max(0, d - oldDefensive);
      mHp := Max(0, mHp - d);
    }

    method ToPiercingDamage(damage: int, opponent: BattleAvatar)
      modifies `mIsIgnoreNextDamage, `mHp
      ensures View() == old(View()).Pierced(old(opponent.View().Strike(damage)))
    {
      if mIsIgnoreNextDamage {
        mIsIgnoreNextDamage := false;
        return;
      }
      var d := damage + opponent.mOffensePower;
      d := Max(0, d - opponent.mWeakening);
      mHp := Max(0, mHp - d);
    }

    method ToDefensive(n: int)
      modifies `mDefensive
      ensures View() == old(View()).Guarded(n)
    {
      mDefensive := Max(0, mDefensive + n + mAdditionDefensive);
    }

    /** The hero's cape takes the effect and is used up. */
    method WardsOff() returns (warded: bool)
      modifies `mCanDefendNegativeEffect
      ensures warded == old(mCanDefendNegativeEffect) && !mCanDefendNegativeEffect
    {
      warded := mCanDefendNegativeEffect;
      mCanDefendNegativeEffect := false;
    }

    method ToWeakening(n: int)
      modifies `mCanDefendNegativeEffect, `mWeakening
      ensures View() == old(View()).Weakened(n)
    {
      var warded := WardsOff();
      if !warded {
        mWeakening := Max(0, mWeakening + n);
      }
    }

    method ToBleeding(n: int)
      modifies `mCanDefendNegativeEffect, `mBleeding
      ensures View() == old(View()).Bleeding(n)
    {
      var warded := WardsOff();
      if !warded {
        mBleeding := Max(0, mBleeding + n);
      }
    }

    method ToReducedHealing(n: int)
      modifies `mCanDefendNegativeEffect, `mReducedHealing
      ensures View() == old(View()).HealingReduced(n)
    {
      var warded := WardsOff();
      if !warded {
        mReducedHealing := Max(0, mReducedHealing + n);
      }
    }

    method SetInstallBomb(n: int)
      modifies `mCanDefendNegativeEffect, `mIsInstallBomb, `mInstallBombDamage
      ensures View() == old(View()).BombInstalled(n)
    {
      var warded := WardsOff();
      if !warded {
        mIsInstallBomb := true;
        mInstallBombDamage := mInstallBombDamage + n;
      }
    }

    method ToHeal(n: int)
      modifies `mHp
      ensures View() == old(View()).Healed(n)
    {
      var heal := Max(0, n - mReducedHealing);
      mHp := Min(mMaxHp, mHp + heal);
    }

    method EffectBleeding()
      modifies `mHp
      ensures View() == old(View()).Bled()
    {
      mHp := Max(0, mHp - mBleeding);
    }

    method EffectBomb()
      modifies `mIsIgnoreNextDamage, `mDefensive, `mHp, `mInstallBombDamage, `mIsInstallBomb
      ensures View() == old(View()).Bombed()
      ensures old(mHp) >= 0 && old(mDefensive) >= 0 && old(mInstallBombDamage) >= 0 ==>
                if old(mIsIgnoreNextDamage) then
                  !mIsIgnoreNextDamage && mHp == old(mHp) && mDefensive == old(mDefensive) && mInstallBombDamage == old(mInstallBombDamage)
                else
                  mHp + mDefensive == Max(0, old(mHp) + old(mDefensive) - old(mInstallBombDamage)) && mHp <= old(mHp) &&
                  (mHp < old(mHp) ==> mDefensive == 0) && !mIsInstallBomb && mInstallBombDamage == 0
    {
      hide BattleAvatar.PowerView, BattleAvatar.TallyView, BattleAvatar.RoleView, BattleAvatar.BodyView, BattleAvatar.ReactionView, Body.Struck;
      if mIsIgnoreNextDamage {
        mIsIgnoreNextDamage := false;
        return;
      }
      Explode();
    }

    method Explode()
      modifies `mDefensive, `mHp, `mInstallBombDamage, `mIsInstallBomb
      ensures BodyView() == old(BodyView()).Struck(old(ReactionView()).installBombDamage)
      ensures old(mHp) >= 0 && old(mDefensive) >= 0 && old(mInstallBombDamage) >= 0 ==>
                mHp + mDefensive == Max(0, old(mHp) + old(mDefensive) - old(mInstallBombDamage)) && mHp <= old(mHp) &&
                (mHp < old(mHp) ==> mDefensive == 0)
      ensures ReactionView() == old(ReactionView()).(installBombDamage := 0, isInstallBomb := false)
      ensures !mIsInstallBomb && mInstallBombDamage == 0
    {
      hide BattleAvatar.View;
      var oldDefensive := mDefensive;
      mDefensive := Max(0, mDefensive - mInstallBombDamage);
      mInstallBombDamage := Max(0, mInstallBombDamage - oldDefensive);
      mHp := Max(0, mHp - mInstallBombDamage);
      mInstallBombDamage := 0;
      mIsInstallBomb := false;
    }

    method ClearPower()
      modifies `mOffensePower, `mAdditionDefensive, `mWeakening, `mBleeding, `mReducedHealing
      ensures PowerView() == NO_POWER
    {
      mOffensePower, mAdditionDefensive, mWeakening, mBleeding, mReducedHealing := 0, 0, 0, 0, 0;
    }

    method ClearReactions()
      modifies `mIsCounterAttack, `mCounterAttackDamage, `mIsCounterHeal, `mCounterHeal
      modifies `mIsEffectHeal, `mEffectHeal, `mIsInstallBomb, `mInstallBombDamage
      ensures ReactionView() == NO_REACTION
    {
      mIsCounterAttack, mCounterAttackDamage, mIsCounterHeal, mCounterHeal := false, 0, false, 0;
      mIsEffectHeal, mEffectHeal, mIsInstallBomb, mInstallBombDamage := false, 0, false, 0;
    }

    /** Everything that lasts one cycle only is cleared. */
    method InitCycle()
      modifies `mOffensePower, `mAdditionDefensive, `mWeakening, `mBleeding, `mReducedHealing
      modifies `mIsCounterAttack, `mCounterAttackDamage, `mIsCounterHeal, `mCounterHeal
      modifies `mIsEffectHeal, `mEffectHeal, `mIsInstallBomb, `mInstallBombDamage
      modifies `mEffectItemCount, `mCanDefendNegativeEffect, `mIsIgnoreNextDamage
      ensures View() == old(View()).NewCycle()
    {
      hide BattleAvatar.PowerView, BattleAvatar.ReactionView, BattleAvatar.BodyView, BattleAvatar.RoleView, BattleAvatar.TallyView, BattleAvatar.WardView;
      ClearPower();
      ClearReactions();
      ClearCount();
    }

    method ClearCount()
      modifies `mEffectItemCount, `mCanDefendNegativeEffect, `mIsIgnoreNextDamage
      ensures TallyView() == old(TallyView()).(effectItemCount := 0) && WardView() == NO_WARD
    {
      mEffectItemCount, mCanDefendNegativeEffect, mIsIgnoreNextDamage := 0, false, false;
    }

    method SetFinish()
      modifies `mIsFinish
      ensures View() == old(View()).Finished()
    {
      mIsFinish := true;
    }

    method CounterStrike(opponent: BattleAvatar)
      requires opponent != this
      modifies `mIsCounterAttack, `mCounterAttackDamage
      modifies opponent`mIsIgnoreNextDamage, opponent`mDefensive, opponent`mHp
      ensures Duel(View(), opponent.View()) == CounterAttacked(old(Duel(View(), opponent.View())))
      ensures old(opponent.mHp) >= 0 && old(opponent.mDefensive) >= 0 && old(mIsCounterAttack && !opponent.mIsIgnoreNextDamage) ==>
                var d := Max(0, old(mCounterAttackDamage) + mOffensePower - mWeakening);
                opponent.mHp + opponent.mDefensive == Max(0, old(opponent.mHp) + old(opponent.mDefensive) - d) &&
                opponent.mHp <= old(opponent.mHp) && (opponent.mHp < old(opponent.mHp) ==> opponent.mDefensive == 0)
    {
      hide BattleAvatar.BodyView, BattleAvatar.PowerView, BattleAvatar.TallyView, BattleAvatar.RoleView, BattleAvatar.WardView;
      if mIsCounterAttack {
        mIsCounterAttack := false;
        opponent.ToDamage(mCounterAttackDamage, this);
        mCounterAttackDamage := 0;
      }
    }

    method CounterHealing()
      modifies `mIsCounterHeal, `mCounterHeal, `mHp
      ensures View() == CounterHealed(old(View()))
    {
      hide BattleAvatar.BodyView, BattleAvatar.PowerView, BattleAvatar.TallyView, BattleAvatar.RoleView, BattleAvatar.WardView;
      if mIsCounterHeal {
        mIsCounterHeal := false;
        ToHeal(mCounterHeal);
        mCounterHeal := 0;
      }
    }

    /** Counters an attack of `opponent`, unless the fight is over. */
    method EffectCounter(opponent: BattleAvatar)
      requires opponent != this
      modifies `mIsCounterAttack, `mCounterAttackDamage, `mIsCounterHeal, `mCounterHeal, `mHp
      modifies opponent`mIsIgnoreNextDamage, opponent`mDefensive, opponent`mHp
      ensures Duel(View(), opponent.View()) == Countered(old(Duel(View(), opponent.View())))
    {
      hide BattleAvatar.BodyView, BattleAvatar.PowerView, BattleAvatar.TallyView, BattleAvatar.ReactionView, BattleAvatar.WardView;
      if mIsFinish {
        return;
      }
      CounterStrike(opponent);
      CounterHealing();
    }

    predicate IsValidBattleAvatarInRoom()
      reads this, mClient
    {
      mClient != null && mClient.mInRoom
    }

    /** Damages the client behind the avatar, at most once in the avatar's life. */
    method ToDamageCharacter(damage: int, isNotFinishBattle: bool)
      modifies `mIsCharacterDamage, if mClient == null then {} else {mClient}
      ensures View() == old(View()).CharacterDamaged(isNotFinishBattle, old(IsValidBattleAvatarInRoom()))
      ensures mClient != null ==>
                if old(View()).Hurts(isNotFinishBattle, old(IsValidBattleAvatarInRoom())) then
                  mClient.mHp == Max(0, old(mClient.mHp) - damage) && mClient.damageCalls == old(mClient.damageCalls) + 1
                else
                  mClient.mHp == old(mClient.mHp) && mClient.damageCalls == old(mClient.damageCalls)
      ensures mClient != null ==> mClient.mInRoom == old(mClient.mInRoom) && mClient.Tickets() == old(mClient.Tickets()) &&
                                  mClient.Won() == old(mClient.Won())
    {
      if mIsGhost {
        return;
      }
      if mIsCharacterDamage {
        return;
      }
      if !isNotFinishBattle && mHp > 0 {
        return;
      }
      if !IsValidBattleAvatarInRoom() {
        return;
      }
      mClient.ToDamage(damage);
      mIsCharacterDamage := true;
    }

    /** One call of a relic on the enemy. */
    method CallOnEnemy(op: Op, enemy: BattleAvatar)
      requires OnEnemy(op) && enemy != this
      modifies enemy
      ensures enemy.View() == OnTarget(op, View(), old(enemy.View()))
      ensures enemy.SameGear(old(enemy.mClient), old(enemy.mNetworkID), old(enemy.mUsingItem), old(enemy.mActiveQueue))
    {
      hide BattleAvatar.BodyView, BattleAvatar.TallyView, BattleAvatar.ReactionView, BattleAvatar.WardView, BattleAvatar.RoleView;
      match op
      case Hit(n) => enemy.ToDamage(n, this);
      case Pierce(n) => enemy.ToPiercingDamage(n, this);
      case Weaken(n) => enemy.ToWeakening(n);
      case Bleed(n) => enemy.ToBleeding(n);
      case ReduceHealing(n) => enemy.ToReducedHealing(n);
      case InstallBomb(n) => enemy.SetInstallBomb(n);
      case StripOffensePower => enemy.mOffensePower := 0;
    }

    /** Clears every negative effect. */
    method Clear()
      modifies `mBleeding, `mWeakening, `mReducedHealing, `mIsInstallBomb, `mInstallBombDamage
      ensures PowerView() == old(PowerView()).(bleeding := 0, weakening := 0, reducedHealing := 0)
      ensures ReactionView() == old(ReactionView()).(isInstallBomb := false, installBombDamage := 0)
    {
      hide BattleAvatar.BodyView, BattleAvatar.TallyView, BattleAvatar.WardView, BattleAvatar.RoleView;
      mBleeding, mWeakening, mReducedHealing := 0, 0, 0;
      mIsInstallBomb, mInstallBombDamage := false, 0;
    }

    /** One call of a relic on its user that is more than setting a field. */
    method CallOnBody(op: Op)
      requires op.Guard? || op.GuardAgain? || op.WeakenMe? || op.HurtMe? || op.HealMe? || op.Cleanse?
      modifies this
      ensures View() == OnSelf(op, old(View()))
      ensures SameGear(old(mClient), old(mNetworkID), old(mUsingItem), old(mActiveQueue))
    {
      hide BattleAvatar.PowerView, BattleAvatar.TallyView, BattleAvatar.ReactionView, BattleAvatar.WardView, BattleAvatar.RoleView;
      ghost var before := View();
      match op
      case Guard(n) => ToDefensive(n);
      case GuardAgain => ToDefensive(mDefensive);
      case WeakenMe(n) => ToWeakening(n);
      case HurtMe(n) => mHp := Max(0, mHp - n);
      case HealMe(n) => ToHeal(n);
      case Cleanse => Clear();
    }

    method CallOnPower(op: Op)
      requires op.Strengthen? || op.Ribbon? || op.ShedWeakening?
      modifies `mOffensePower, `mAdditionDefensive, `mWeakening
      ensures View() == OnSelf(op, old(View()))
    {
      hide BattleAvatar.BodyView, BattleAvatar.TallyView, BattleAvatar.ReactionView, BattleAvatar.WardView, BattleAvatar.RoleView;
      match op
      case Strengthen(n) => mOffensePower := Max(0, mOffensePower + n);
      case Ribbon(n) => mAdditionDefensive := Max(0, mAdditionDefensive + n);
      case ShedWeakening => mWeakening := 0;
    }

    method CallOnReaction(op: Op)
      requires op.CounterAttack? || op.CounterHeal? || op.EffectHeal?
      modifies `mIsCounterAttack, `mCounterAttackDamage, `mIsCounterHeal, `mCounterHeal, `mIsEffectHeal, `mEffectHeal
      ensures View() == OnSelf(op, old(View()))
    {
      hide BattleAvatar.BodyView, BattleAvatar.TallyView, BattleAvatar.PowerView, BattleAvatar.WardView, BattleAvatar.RoleView;
      match op
      case CounterAttack(n) =>
        mIsCounterAttack := true;
        mCounterAttackDamage := mCounterAttackDamage + n;
      case CounterHeal(n) =>
        mIsCounterHeal := true;
        mCounterHeal := mCounterHeal + n;
      case EffectHeal(n) =>
        mIsEffectHeal := true;
        mEffectHeal := mEffectHeal + n;
    }

    method CallOnTally(op: Op)
      requires op.UseKeyCap? || op.DefendNegative? || op.IgnoreNextDamage?
      modifies `mUseKeyCapCount, `mCanDefendNegativeEffect, `mIsIgnoreNextDamage
      ensures View() == OnSelf(op, old(View()))
    {
      hide BattleAvatar.BodyView, BattleAvatar.PowerView, BattleAvatar.ReactionView, BattleAvatar.RoleView;
      match op
      case UseKeyCap => mUseKeyCapCount := mUseKeyCapCount + 1;
      case DefendNegative => mCanDefendNegativeEffect := true;
      case IgnoreNextDamage => mIsIgnoreNextDamage := true;
    }

    ghost function Owner(): set<object>
      reads `mClient
    {
      if mClient == null then {} else {mClient}
    }

    /** One more normal ticket, if the client still belongs to the room. */
    method GainTicket()
      modifies Owner()
      ensures mClient != null ==>
                mClient.mHp == old(mClient.mHp) && mClient.damageCalls == old(mClient.damageCalls) &&
                mClient.Won() == old(mClient.Won()) && mClient.mInRoom == old(mClient.mInRoom) &&
                mClient.Held() == old(mClient.Held()).(normal := old(mClient.Held()).normal + if mClient.mInRoom then 1 else 0)
    {
      if IsValidBattleAvatarInRoom() {
        mClient.mNormalItemTicketCount := mClient.mNormalItemTicketCount + 1;
      }
    }

    /** Tickets for the client behind the avatar, unless it is a ghost or its client has left. */
    method IncreaseItemTicket(ticketType: TicketType, count: nat) returns (now: nat)
      modifies Owner()
      ensures mClient != null ==>
                mClient.mHp == old(mClient.mHp) && mClient.damageCalls == old(mClient.damageCalls) && mClient.mInRoom == old(mClient.mInRoom) &&
                if !mIsGhost && mClient.mInRoom then
                  mClient.Won() == old(mClient.Won()).Plus(ticketType, count) &&
                  mClient.Held() == old(mClient.Held()).With(ticketType, old(mClient.Held()).Of(ticketType) + count)
                else
                  mClient.Won() == old(mClient.Won()) && mClient.Held() == old(mClient.Held())
    {
      if mIsGhost {
        return 0;
      }
      if !IsValidBattleAvatarInRoom() {
        return 0;
      }
      mClient.AddTickets(ticketType, count);
      mClient.rewardCalls := mClient.rewardCalls + 1;
      now := match ticketType
        case Normal => mClient.mNormalItemTicketCount
        case Advanced => mClient.mAdvancedItemTicketCount
        case Top => mClient.mTopItemTicketCount
        case Supreme => mClient.mSupremeItemTicketCount;
    }

    /** Runs one call of a relic. */
    method Perform(op: Op, enemy: BattleAvatar)
      requires enemy != this
      modifies this, enemy, Owner()
      ensures Duel(View(), enemy.View()) == Apply(op, old(Duel(View(), enemy.View())))
      ensures SameGear(old(mClient), old(mNetworkID), old(mUsingItem), old(mActiveQueue))
      ensures enemy.SameGear(old(enemy.mClient), old(enemy.mNetworkID), old(enemy.mUsingItem), old(enemy.mActiveQueue))
      ensures mClient != null ==> mClient.mHp == old(mClient.mHp) && mClient.damageCalls == old(mClient.damageCalls) &&
                                  mClient.Won() == old(mClient.Won()) && mClient.mInRoom == old(mClient.mInRoom)
    {
      hide BattleAvatar.View, OnTarget, OnSelf;
      ghost var me, other := View(), enemy.View();
      if OnEnemy(op) {
        CallOnEnemy(op, enemy);
      } else if op.Guard? || op.GuardAgain? || op.WeakenMe? || op.HurtMe? || op.HealMe? || op.Cleanse? {
        CallOnBody(op);
      } else if op.Strengthen? || op.Ribbon? || op.ShedWeakening? {
        CallOnPower(op);
      } else if op.CounterAttack? || op.CounterHeal? || op.EffectHeal? {
        CallOnReaction(op);
      } else if op.GainTicket? {
        GainTicket();
        TicketIsOutside(me);
      } else {
        CallOnTally(op);
      }
    }

    function Tickets(): nat
      reads this, mClient
    {
      if mClient == null then 0 else mClient.Tickets()
    }

    /** Activates the relic at the given position of the activation order. */
    method ActiveItem(index: nat, enemy: BattleAvatar, coin: bool, percent: nat) returns (slot: nat)
      requires Equipped() && index < MAX_USING_ITEM_COUNT && enemy != this
      requires View().Sound() && enemy.View().Sound()
      modifies this, enemy, Owner()
      ensures slot == old(mActiveQueue)[index]
      ensures slot < |mUsingItem|
      ensures Duel(View(), enemy.View())
           == Activated(old(mUsingItem)[old(mActiveQueue)[index]], old(Duel(View(), enemy.View())), Draw(coin, percent, old(Tickets())))
      ensures SameGear(old(mClient), old(mNetworkID), old(mUsingItem), old(mActiveQueue))
      ensures enemy.SameGear(old(enemy.mClient), old(enemy.mNetworkID), old(enemy.mUsingItem), old(enemy.mActiveQueue))
      ensures mClient != null ==> mClient.mHp == old(mClient.mHp) && mClient.damageCalls == old(mClient.damageCalls) &&
                                  mClient.Won() == old(mClient.Won()) && mClient.mInRoom == old(mClient.mInRoom)
    {
      hide Program, Apply;
      slot := mActiveQueue[index];
      var item := mUsingItem[slot];
      assert Known(item);
      var tickets := Tickets();
      CountActivation();
      ghost var start := Duel(View(), enemy.View());
      var ops := ProgramNow(item, enemy, Draw(coin, percent, tickets));
      ghost var owner := mClient;
      var i := 0;
      while i < |ops|
        invariant 0 <= i <= |ops|
        invariant Duel(View(), enemy.View()) == RunOps(ops[..i], start)
        invariant SameGear(old(mClient), old(mNetworkID), old(mUsingItem), old(mActiveQueue))
        invariant enemy.SameGear(old(enemy.mClient), old(enemy.mNetworkID), old(enemy.mUsingItem), old(enemy.mActiveQueue))
        invariant mClient != null ==> mClient.mHp == old(mClient.mHp) && mClient.damageCalls == old(mClient.damageCalls) &&
                                      mClient.Won() == old(mClient.Won()) && mClient.mInRoom == old(mClient.mInRoom)
      {
        assert ops[..i + 1][..i] == ops[..i];
        Perform(ops[i], enemy);
        i := i + 1;
      }
      assert ops[..|ops|] == ops;
      Snack();
    }

    method CountActivation()
      modifies `mEffectItemCount
      ensures View() == Counted(old(View()))
    {
      mEffectItemCount := mEffectItemCount + 1;
    }

    /** The calls of a relic as things stand now. */
    method ProgramNow(item: Item, enemy: BattleAvatar, draw: Draw) returns (ops: seq<Op>)
      requires Known(item) && View().Sound() && enemy.View().Sound() && mEffectItemCount >= 1
      ensures ops == Program(item.code, item.upgrade, Look(Duel(View(), enemy.View()), draw))
    {
      hide Program;
      ops := Program(item.code, item.upgrade,
        Sight(mHamburgerType, mDefensive, mHp, mMaxHp, mEffectItemCount, mUseKeyCapCount,
              enemy.mDefensive, enemy.mHp, enemy.mMaxHp, draw.tickets, draw.coin, draw.percent));
    }

    /** The pastry's healing after an activation, unless HP is already zero. */
    method Snack()
      modifies `mHp
      ensures View() == Snacked(old(View()))
    {
      if mIsEffectHeal && mHp > 0 {
        ToHeal(mEffectHeal);
      }
    }

    /** The damage this avatar's relics do to a beaten client: one more than the tier, each. */
    method GetDamage() returns (sum: nat)
      requires Equipped()
      ensures sum == TierSum(mUsingItem)
    {
      sum := 0;
      for i := 0 to |mUsingItem|
        invariant sum == TierSum(mUsingItem[..i])
      {
        assert mUsingItem[..i + 1][..i] == mUsingItem[..i];
        assert Known(mUsingItem[i]);
        if mUsingItem[i].code != EMPTY_ITEM {
          sum := sum + TierOf(mUsingItem[i].code) + 1;
        }
      }
      assert mUsingItem[..|mUsingItem|] == mUsingItem;
    }
  }

  lemma TicketIsOutside(me: Stats)
    ensures OnSelf(Op.GainTicket, me) == me
  {
  }

  function FittedAll(s: Stats, items: seq<Item>): Stats
    requires forall i :: 0 <= i < |items| ==> Known(items[i])
  {
    if items == [] then s
    else
      assert Known(items[|items| - 1]);
      FittedAll(s, items[..|items| - 1]).Fitted(items[|items| - 1])
  }

  function TierSum(items: seq<Item>): nat
    requires forall i :: 0 <= i < |items| ==> Known(items[i])
  {
    if items == [] then 0
    else
      var item := items[|items| - 1];
      assert Known(item);
      TierSum(items[..|items| - 1]) + (if item.code == EMPTY_ITEM then 0 else TierOf(item.code) + 1)
  }

  // ---- What wearing relics adds up to ----

  function MaxHpFit(item: Item): nat {
    if item.code >= ITEM_CODES then 0
    else match FitmentOf(item.code, item.upgrade) case FitMaxHp(n) => n case _ => 0
  }

  function DefensiveFit(item: Item): nat {
    if item.code >= ITEM_CODES then 0
    else match FitmentOf(item.code, item.upgrade) case FitDefensive(n) => n case _ => 0
  }

  function FirstAttackFit(item: Item): nat {
    if item.code >= ITEM_CODES then 0
    else match FitmentOf(item.code, item.upgrade) case FitFirstAttack(n) => n case _ => 0
  }

  function Sum(items: seq<Item>, fit: Item -> nat): nat {
    if items == [] then 0 else Sum(items[..|items| - 1], fit) + fit(items[|items| - 1])
  }

  /** Fitting relics one after the other adds their fitments up: HP and its maximum, defence and
      attack state grow by their sums, and nothing else changes. */
  lemma {:induction false} FittedSums(s: Stats, items: seq<Item>)
    requires s.Sound() && s.body.hp == s.body.maxHp && s.power.additionDefensive == 0
    requires forall i :: 0 <= i < |items| ==> Known(items[i])
    ensures var hp := s.body.maxHp + Sum(items, MaxHpFit);
            FittedAll(s, items) == s.(body := Body(hp, hp, s.body.defensive + Sum(items, DefensiveFit)),
                                      role := s.role.(firstAttackState := s.role.firstAttackState + Sum(items, FirstAttackFit)))
  {
    if items != [] {
      FittedSums(s, items[..|items| - 1]);
    }
  }

  // ---- What a beaten client pays for ----

  ghost predicate IsOfTier(item: Item, tier: nat) { item.code != EMPTY_ITEM && item.code < ITEM_CODES && TierOf(item.code) == tier }

  /** The positions of the relics of a tier. */
  ghost function WornOf(items: seq<Item>, tier: nat): set<int> { set i | 0 <= i < |items| && IsOfTier(items[i], tier) }

  lemma WornMore(items: seq<Item>, tier: nat)
    requires items != []
    ensures var n := |items| - 1; |WornOf(items, tier)| == |WornOf(items[..n], tier)| + (if IsOfTier(items[n], tier) then 1 else 0)
  {
    hide IsOfTier;
    var n := |items| - 1;
    var front := WornOf(items[..n], tier);
    if IsOfTier(items[n], tier) {
      assert WornOf(items, tier) == front + {n};
    } else {
      assert WornOf(items, tier) == front;
    }
  }

  /** One for each relic of the lowest tier worn, up to five for each of the highest. */
  lemma {:induction false} TierSumLaw(items: seq<Item>)
    requires forall i :: 0 <= i < |items| ==> Known(items[i])
    ensures TierSum(items)
         == |WornOf(items, 0)| + 2 * |WornOf(items, 1)| + 3 * |WornOf(items, 2)| + 4 * |WornOf(items, 3)| + 5 * |WornOf(items, 4)|
  {
    hide WornOf;
    if items != [] {
      TierSumLaw(items[..|items| - 1]);
      assert Known(items[|items| - 1]);
      WornMore(items, 0);
      WornMore(items, 1);
      WornMore(items, 2);
      WornMore(items, 3);
      WornMore(items, 4);
    } else {
      NothingWorn();
    }
  }

  lemma NothingWorn()
    ensures |WornOf([], 0)| + 2 * |WornOf([], 1)| + 3 * |WornOf([], 2)| + 4 * |WornOf([], 3)| + 5 * |WornOf([], 4)| == 0
  {
  }
}

/** The client object: its health, tickets and inventory, updated in place. */
module Clients {
  import opened Basics
  import opened Items
  import opened InventorySpec
  import opened Draws

  const MAX_CHARACTER_MAX_HP: int := 100

  /** How many tickets of each kind. */
  datatype Purse = Counts(normal: nat, advanced: nat, top: nat, supreme: nat) {
    function Of(ticketType: TicketType): nat {
      match ticketType
      case Normal => normal
      case Advanced => advanced
      case Top => top
      case Supreme => supreme
    }

    /** The same but for one kind. */
    function With(ticketType: TicketType, n: nat): Purse {
      match ticketType
      case Normal => this.(normal := n)
      case Advanced => this.(advanced := n)
      case Top => this.(top := n)
      case Supreme => this.(supreme := n)
    }
  }

  datatype Winnings = Winnings(calls: nat, advanced: nat, top: nat, supreme: nat) {
    ghost function Plus(ticketType: TicketType, count: nat): Winnings {
      Winnings(calls + 1, advanced + (if ticketType.Advanced? then count else 0),
               top + (if ticketType.Top? then count else 0), supreme + (if ticketType.Supreme? then count else 0))
    }
  }

  class Client {
    const mUsingItems: array<Slot>
    const mUnUsingItems: array<Slot>
    var mHp: int
    var mNormalItemTicketCount: nat
    var mAdvancedItemTicketCount: nat
    var mTopItemTicketCount: nat
    var mSupremeItemTicketCount: nat
    /** Whether the client belongs to the room it plays in. */
    var mInRoom: bool
    /** How often the client itself was damaged. */
    ghost var damageCalls: nat
    /** How often a creep's reward was handed out to it. */
    ghost var rewardCalls: nat

    ghost predicate Valid() {
      mUsingItems.Length == MAX_USING_ITEM_COUNT && mUnUsingItems.Length == MAX_UN_USING_ITEM_COUNT && mUsingItems != mUnUsingItems
    }

    /** All sixteen slots: the equipped ones, then the stored ones. */
    function Slots(): (s: seq<Slot>)
      requires Valid()
      reads mUsingItems, mUnUsingItems
      ensures |s| == SLOT_COUNT
    {
      mUsingItems[..] + mUnUsingItems[..]
    }

    /** Sixteen free slots with their numbers and activation weights, no tickets, full health. */
    constructor ()
      ensures mHp == MAX_CHARACTER_MAX_HP && !mInRoom && damageCalls == 0 && rewardCalls == 0 && Tickets() == 0
      ensures Valid() && fresh(mUsingItems) && fresh(mUnUsingItems) && Good(Slots())
      ensures forall i :: 0 <= i < SLOT_COUNT ==>
                Slots()[i].Free() && Slots()[i].number == i && (i < MAX_USING_ITEM_COUNT ==> Slots()[i].percent == Draws.ACTIVE_PERCENTS[i])
    {
      mUsingItems := new Slot[MAX_USING_ITEM_COUNT](i requires 0 <= i < MAX_USING_ITEM_COUNT => Slot(EMPTY_ITEM, 0, Draws.ACTIVE_PERCENTS[i], i));
      mUnUsingItems := new Slot[MAX_UN_USING_ITEM_COUNT](i requires 0 <= i => Slot(EMPTY_ITEM, 0, 0, i + MAX_USING_ITEM_COUNT));
      mNormalItemTicketCount, mAdvancedItemTicketCount, mTopItemTicketCount, mSupremeItemTicketCount := 0, 0, 0, 0;
      mHp, mInRoom, damageCalls, rewardCalls := MAX_CHARACTER_MAX_HP, false, 0, 0;
    }

    function Tickets(): nat
      reads this
    {
      mNormalItemTicketCount + mAdvancedItemTicketCount + mTopItemTicketCount + mSupremeItemTicketCount
    }

    function Held(): Purse
      reads `mNormalItemTicketCount, `mAdvancedItemTicketCount, `mTopItemTicketCount, `mSupremeItemTicketCount
    {
      Counts(mNormalItemTicketCount, mAdvancedItemTicketCount, mTopItemTicketCount, mSupremeItemTicketCount)
    }

    /** What creeps have brought it: how often, and the tickets of the kinds they give. */
    ghost function Won(): Winnings
      reads this
    {
      Winnings(rewardCalls, mAdvancedItemTicketCount, mTopItemTicketCount, mSupremeItemTicketCount)
    }

    /** More tickets of one kind. */
    method AddTickets(ticketType: TicketType, count: nat)
      modifies `mNormalItemTicketCount, `mAdvancedItemTicketCount, `mTopItemTicketCount, `mSupremeItemTicketCount
      ensures Held() == old(Held()).With(ticketType, old(Held()).Of(ticketType) + count)
      ensures mNormalItemTicketCount == old(mNormalItemTicketCount) + (if ticketType.Normal? then count else 0)
      ensures mAdvancedItemTicketCount == old(mAdvancedItemTicketCount) + (if ticketType.Advanced? then count else 0)
      ensures mTopItemTicketCount == old(mTopItemTicketCount) + (if ticketType.Top? then count else 0)
      ensures mSupremeItemTicketCount == old(mSupremeItemTicketCount) + (if ticketType.Supreme? then count else 0)
      ensures Tickets() == old(Tickets()) + count
    {
      match ticketType
      case Normal => mNormalItemTicketCount := mNormalItemTicketCount + count;
      case Advanced => mAdvancedItemTicketCount := mAdvancedItemTicketCount + count;
      case Top => mTopItemTicketCount := mTopItemTicketCount + count;
      case Supreme => mSupremeItemTicketCount := mSupremeItemTicketCount + count;
    }

    method ToDamage(damage: int)
      modifies `mHp, `damageCalls
      ensures mHp == Max(0, old(mHp) - damage) && damageCalls == old(damageCalls) + 1
    {
      mHp := mHp - damage;
      mHp := if mHp > 0 then mHp else 0;
      damageCalls := damageCalls + 1;
    }

    /** The slot behind an index. */
    method GetItem(index: nat) returns (item: Slot)
      requires Valid() && index < SLOT_COUNT
      ensures item == Slots()[index]
    {
      item := if index < MAX_USING_ITEM_COUNT then mUsingItems[index] else mUnUsingItems[index - MAX_USING_ITEM_COUNT];
    }

    method SetItem(index: nat, item: Slot)
      requires Valid() && index < SLOT_COUNT
      modifies mUsingItems, mUnUsingItems
      ensures Slots() == old(Slots())[index := item]
    {
      if index < MAX_USING_ITEM_COUNT {
        mUsingItems[index] := item;
      } else {
        mUnUsingItems[index - MAX_USING_ITEM_COUNT] := item;
      }
    }

    method SwapItem(index1: nat, index2: nat)
      requires Valid() && index1 < SLOT_COUNT && index2 < SLOT_COUNT
      modifies mUsingItems, mUnUsingItems
      ensures Slots() == Swapped(old(Slots()), index1, index2)
    {
      hide Client.Slots;
      var item1 := GetItem(index1);
      var item2 := GetItem(index2);
      SetItem(index2, item2.Holding(item1.code, item1.upgrade));
      item1 := GetItem(index1);
      SetItem(index1, item1.Holding(item2.code, item2.upgrade));
      SwapEitherWay(old(Slots()), index1, index2);
    }

    /** The first free slot, storage first. */
    method FindEmptyItemSlotIndex() returns (index: nat)
      requires Valid()
      ensures index == FirstFree(Slots())
    {
      for i := 0 to MAX_UN_USING_ITEM_COUNT
        invariant FreeFrom(Slots(), MAX_USING_ITEM_COUNT, SLOT_COUNT) == FreeFrom(Slots(), MAX_USING_ITEM_COUNT + i, SLOT_COUNT)
      {
        if mUnUsingItems[i].code == EMPTY_ITEM {
          return i + MAX_USING_ITEM_COUNT;
        }
      }
      for i := 0 to MAX_USING_ITEM_COUNT
        invariant FreeFrom(Slots(), 0, MAX_USING_ITEM_COUNT) == FreeFrom(Slots(), i, MAX_USING_ITEM_COUNT)
      {
        if mUsingItems[i].code == EMPTY_ITEM {
          return i;
        }
      }
      index := MAX_UN_USING_ITEM_COUNT + MAX_USING_ITEM_COUNT;
    }

    /** Puts a new relic into the first free slot. */
    method AddItem(code: nat) returns (index: nat)
      requires Valid()
      modifies mUsingItems, mUnUsingItems
      ensures index == FirstFree(old(Slots())) && Slots() == Added(old(Slots()), code)
    {
      hide Client.Slots;
      index := FindEmptyItemSlotIndex();
      if index < SLOT_COUNT {
        var item := GetItem(index);
        SetItem(index, item.Holding(code, item.upgrade));
      }
    }

    /** The handler of a drop request. */
    method DropItem(index: nat, inReadyStage: bool)
      requires Valid() && index < SLOT_COUNT
      modifies mUsingItems, mUnUsingItems
      ensures Slots() == if inReadyStage then Dropped(old(Slots()), index) else old(Slots())
    {
      hide Client.Slots;
      if !inReadyStage {
        return;
      }
      var item := GetItem(index);
      if item.code == EMPTY_ITEM {
        return;
      }
      SetItem(index, item.Emptied());
    }

    /** The handler of an upgrade request: two different slots with one relic at one level below
        the highest. */
    method UpgradeItem(slot1: nat, slot2: nat, inReadyStage: bool)
      requires Valid() && slot1 < SLOT_COUNT && slot2 < SLOT_COUNT
      modifies mUsingItems, mUnUsingItems
      ensures Slots() == if inReadyStage then Upgraded(old(Slots()), slot1, slot2) else old(Slots())
      ensures var s, s' := old(Slots()), Slots();
              if inReadyStage && slot1 != slot2 && s[slot1].code == s[slot2].code != EMPTY_ITEM && s[slot1].upgrade == s[slot2].upgrade < MAX_UPGRADE then
                Holds(s', slot1, s[slot1].code, s[slot1].upgrade + 1) && Holds(s', slot2, EMPTY_ITEM, 0) && OnlyAt(s, s', {slot1, slot2})
              else s' == s
    {
      hide Client.Slots;
      UpgradeLaw(Slots(), slot1, slot2);
      if !inReadyStage {
        return;
      }
      var upgradeItem := GetItem(slot1);
      var materialItem := GetItem(slot2);
      if slot1 == slot2 {
        return;
      }
      if upgradeItem.code != materialItem.code {
        return;
      }
      if upgradeItem.code == 0 {
        return;
      }
      if upgradeItem.upgrade != materialItem.upgrade {
        return;
      }
      if upgradeItem.upgrade >= MAX_UPGRADE {
        return;
      }
      SetItem(slot1, upgradeItem.Holding(upgradeItem.code, upgradeItem.upgrade + 1));
      SetItem(slot2, materialItem.Emptied());
    }

    /** A relic of a tier between the two, both ends included. */
    method GetRandomItemTypeByCombination(minTier: nat, maxTier: nat, tierDraw: nat, itemDraw: nat) returns (code: nat)
      requires minTier <= maxTier < 5
      ensures DrawnBetween(code, minTier, maxTier, tierDraw, itemDraw)
    {
      var tier := minTier + tierDraw % (maxTier - minTier + 1);
      assert TierOf(TierRelic(tier, itemDraw)) == tier;
      code := TierItems(tier)[itemDraw % |TierItems(tier)|];
    }

    /** The handler of a combination request. Outside the ready stage the source only answers
        with the inventory and goes on, so the stage does not matter. Up to ten draws are made
        until one differs from all three relics. */
    method CombineItems(index1: nat, index2: nat, index3: nat, tierDraw: nat -> nat, itemDraw: nat -> nat) returns (ghost draws: seq<nat>)
      requires Valid() && index1 < SLOT_COUNT && index2 < SLOT_COUNT && index3 < SLOT_COUNT && Good(Slots())
      modifies mUsingItems, mUnUsingItems
      ensures if AllTaken(old(Slots()), index1, index2, index3) then
                Redrawn(draws, old(Slots())[index1].code, old(Slots())[index2].code, old(Slots())[index3].code, tierDraw, itemDraw) &&
                Slots() == Combined(old(Slots()), index1, index2, index3, draws)
              else draws == [] && Slots() == old(Slots())
    {
      hide Client.Slots, Good, AllEmptied, Redrawn, FreshDraw, FirstFree, TierOf, Combined;
      draws := [];
      var item1 := GetItem(index1);
      var item2 := GetItem(index2);
      var item3 := GetItem(index3);
      assert GoodSlot(item1) && GoodSlot(item2) && GoodSlot(item3) by { GoodSlots(Slots()); }
      if item1.code == EMPTY_ITEM || item2.code == EMPTY_ITEM || item3.code == EMPTY_ITEM {
        return;
      }
      EmptyAll(index1, index2, index3);
      var newItemType;
      newItemType, draws := DrawNewItem(item1.code, item2.code, item3.code, tierDraw, itemDraw);
      EmptiedAtLeastOne(old(Slots()), index1, index2, index3);
      CombinedIs(old(Slots()), index1, index2, index3, draws);
      var findEmptyItemSlot := FindEmptyItemSlotIndex();
      var newItem := GetItem(findEmptyItemSlot);
      SetItem(findEmptyItemSlot, newItem.Holding(newItemType, 0));
    }

    method EmptyAll(index1: nat, index2: nat, index3: nat)
      requires Valid() && index1 < SLOT_COUNT && index2 < SLOT_COUNT && index3 < SLOT_COUNT
      modifies mUsingItems, mUnUsingItems
      ensures Slots() == AllEmptied(old(Slots()), index1, index2, index3)
    {
      hide Client.Slots;
      var item1 := GetItem(index1);
      SetItem(index1, item1.Emptied());
      var item2 := GetItem(index2);
      SetItem(index2, item2.Emptied());
      var item3 := GetItem(index3);
      SetItem(index3, item3.Emptied());
    }

    /** Up to ten draws, until one differs from all three. */
    method DrawNewItem(type1: nat, type2: nat, type3: nat, tierDraw: nat -> nat, itemDraw: nat -> nat)
        returns (newItemType: nat, ghost draws: seq<nat>)
      requires type1 < ITEM_CODES && type2 < ITEM_CODES && type3 < ITEM_CODES
      ensures draws != [] && Redrawn(draws, type1, type2, type3, tierDraw, itemDraw) && newItemType == FreshDraw(draws, type1, type2, type3)
      ensures IsRelic(newItemType)
    {
      hide DrawnBetween, TierOf, FreshDraw;
      var minTier := Min(Min(TierOf(type1), TierOf(type2)), TierOf(type3));
      var maxTier := Max(Max(TierOf(type3), TierOf(type2)), TierOf(type1));
      draws := [];
      newItemType := EMPTY_ITEM;
      var i := 0;
      while i < 10
        invariant 0 <= i <= 10 && |draws| == i && (i > 0 ==> newItemType == draws[i - 1])
        invariant Stale(draws, i, type1, type2, type3)
        invariant forall m :: 0 <= m < |draws| ==> DrawnBetween(draws[m], minTier, maxTier, tierDraw(m), itemDraw(m))
      {
        newItemType := GetRandomItemTypeByCombination(minTier, maxTier, tierDraw(i), itemDraw(i));
        draws := draws + [newItemType];
        if type1 != newItemType && type2 != newItemType && type3 != newItemType {
          break;
        }
        i := i + 1;
      }
      LastIsFresh(draws, type1, type2, type3);
      DrawnIsRelic(newItemType, minTier, maxTier, tierDraw(|draws| - 1), itemDraw(|draws| - 1));
    }

    /** The handlers of the four tickets: the ticket is spent even when no slot is free. */
    method UseItemTicket(ticketType: TicketType, inReadyStage: bool, round: nat, draw: nat, itemDraw: nat)
      requires Valid() && draw < 100
      modifies `mNormalItemTicketCount, `mAdvancedItemTicketCount, `mTopItemTicketCount, `mSupremeItemTicketCount
      modifies mUsingItems, mUnUsingItems
      ensures if inReadyStage && old(Held()).Of(ticketType) > 0 then
                Held() == old(Held()).With(ticketType, old(Held()).Of(ticketType) - 1) &&
                Slots() == Added(old(Slots()), TicketRelic(ticketType, round, draw, itemDraw))
              else Held() == old(Held()) && Slots() == old(Slots())
    {
      hide Client.Slots, Added, NormalRelic;
      if !inReadyStage {
        return;
      }
      var newItemType := GetRandomItemTypeOfTicket(ticketType, round, draw, itemDraw);
      if newItemType != EMPTY_ITEM {
        var slot := AddItem(newItemType);
        match ticketType
        case Normal => mNormalItemTicketCount := mNormalItemTicketCount - 1;
        case Advanced => mAdvancedItemTicketCount := mAdvancedItemTicketCount - 1;
        case Top => mTopItemTicketCount := mTopItemTicketCount - 1;
        case Supreme => mSupremeItemTicketCount := mSupremeItemTicketCount - 1;
      }
    }

    method GetRandomItemTypeOfTicket(ticketType: TicketType, round: nat, draw: nat, itemDraw: nat) returns (code: nat)
      requires draw < 100
      ensures code == if Held().Of(ticketType) == 0 then EMPTY_ITEM else TicketRelic(ticketType, round, draw, itemDraw)
    {
      hide NormalRelic, TierRelic;
      match ticketType
      case Normal => code := NormalTicket(mNormalItemTicketCount, round, draw, itemDraw);
      case Advanced => code := TierTicket(mAdvancedItemTicketCount, 1, 2, draw, itemDraw);
      case Top => code := TierTicket(mTopItemTicketCount, 2, 3, draw, itemDraw);
      case Supreme => code := TierTicket(mSupremeItemTicketCount, 4, 4, draw, itemDraw);
    }

    lemma StoredAt(i: nat)
      requires Valid() && i < MAX_UN_USING_ITEM_COUNT
      ensures Slots()[i + MAX_USING_ITEM_COUNT] == mUnUsingItems[i]
    {
    }

    /** The stored slots that hold something, with what they hold now. */
    method GetValidUnUsingItems() returns (items: seq<(nat, Slot)>)
      requires Valid()
      ensures Listed(Slots(), items, Taken(Slots(), SLOT_COUNT))
    {
      hide Taken, Listed, Client.Slots;
      items := [];
      NoOnes(Slots());
      assert Listed(Slots(), items, []) by { NothingListed(Slots()); }
      for i := 0 to MAX_UN_USING_ITEM_COUNT
        invariant Listed(Slots(), items, Taken(Slots(), i + MAX_USING_ITEM_COUNT))
      {
        TakenMore(Slots(), i + MAX_USING_ITEM_COUNT);
        StoredAt(i);
        if mUnUsingItems[i].code > EMPTY_ITEM {
          ListedMore(Slots(), items, Taken(Slots(), i + MAX_USING_ITEM_COUNT), i + MAX_USING_ITEM_COUNT);
          items := items + [(i + MAX_USING_ITEM_COUNT, mUnUsingItems[i])];
        }
      }
    }

    method IsNothingEquipped() returns (nothing: bool)
      requires Valid()
      ensures nothing <==> NothingEquipped(Slots())
    {
      nothing := true;
      for i := 0 to MAX_USING_ITEM_COUNT
        invariant nothing <==> forall j :: 0 <= j < i ==> Slots()[j].Free()
      {
        assert Slots()[i] == mUsingItems[i];
        if mUsingItems[i].code > EMPTY_ITEM {
          nothing := false;
        }
      }
    }

    /** Equips one stored relic of each kind if nothing is equipped. */
    method TrySetDefaultUsingItem() returns (isSetDefaultUsingItem: bool)
      requires Valid()
      modifies mUsingItems, mUnUsingItems
      ensures Slots() == if NothingEquipped(old(Slots())) then Equipped(old(Slots())) else old(Slots())
      ensures isSetDefaultUsingItem <==> NothingEquipped(old(Slots())) && exists p :: MAX_USING_ITEM_COUNT <= p < SLOT_COUNT && !old(Slots())[p].Free()
    {
      hide Client.Slots, Taken, Equipped, Listed;
      isSetDefaultUsingItem := false;
      ghost var s := Slots();
      var validUnUsingItems := GetValidUnUsingItems();
      ListedSize(s, validUnUsingItems, Taken(s, SLOT_COUNT));
      var nothing := IsNothingEquipped();
      NoneStored(s);
      if validUnUsingItems != [] && nothing {
        EquipEach(validUnUsingItems);
        isSetDefaultUsingItem := true;
      }
    }

    /** Equips the relics of the list whose kind is not equipped yet, until six are. */
    method EquipEach(validUnUsingItems: seq<(nat, Slot)>)
      requires Valid() && validUnUsingItems != [] && Listed(Slots(), validUnUsingItems, Taken(Slots(), SLOT_COUNT))
      modifies mUsingItems, mUnUsingItems
      ensures Slots() == Equipped(old(Slots()))
    {
      hide Client.Slots, EquippedUpTo, FirstOnes, Taken, IsFirst, Listed, Kinds, Swapped, Equipped;
      ghost var s := Slots();
      ghost var places := Taken(s, SLOT_COUNT);
      ListedSize(s, validUnUsingItems, places);
      var usingItemTypes: seq<nat> := [];
      var slot1 := 0;
      ghost var picks: seq<nat> := [];
      NoPicksYet(s);
      KindsNone(s);
      var v := 0;
      while v < |validUnUsingItems|
        invariant 0 <= v <= |places| == |validUnUsingItems|
        invariant picks == FirstOnes(s, Bound(places, v)) && slot1 == |picks| < MAX_USING_ITEM_COUNT
        invariant Kinds(s, picks, usingItemTypes) && Slots() == EquippedUpTo(s, picks, slot1)
      {
        var item := validUnUsingItems[v];
        ListedAt(s, validUnUsingItems, places, v);
        PickOrPass(s, places, v, picks, usingItemTypes);
        if item.1.code !in usingItemTypes {
          KindsMore(s, picks, usingItemTypes, item.0);
          usingItemTypes := usingItemTypes + [item.1.code];
          EquipNext(s, picks, item.0);
          SwapItem(slot1, item.0);
          picks := picks + [item.0];
          slot1 := slot1 + 1;
          if |usingItemTypes| == MAX_USING_ITEM_COUNT {
            v := v + 1;
            break;
          }
        }
        v := v + 1;
      }
      EquippedSoFar(s, places, v, picks);
    }
  }

  /** These places with what they hold. */
  ghost predicate Listed(s: seq<Slot>, items: seq<(nat, Slot)>, places: seq<nat>)
    requires forall v :: 0 <= v < |places| ==> places[v] < |s|
  {
    |items| == |places| && forall v :: 0 <= v < |items| ==> items[v] == (places[v], s[places[v]])
  }

  lemma NothingListed(s: seq<Slot>)
    ensures Listed(s, [], [])
  {
  }

  lemma ListedMore(s: seq<Slot>, items: seq<(nat, Slot)>, places: seq<nat>, p: nat)
    requires p < |s| && (forall v :: 0 <= v < |places| ==> places[v] < |s|) && Listed(s, items, places)
    ensures Listed(s, items + [(p, s[p])], places + [p])
  {
  }

  ghost predicate Kinds(s: seq<Slot>, picks: seq<nat>, types: seq<nat>)
    requires forall m :: 0 <= m < |picks| ==> picks[m] < |s|
  {
    |types| == |picks| && forall m :: 0 <= m < |types| ==> types[m] == s[picks[m]].code
  }

  /** Where the v-th occupied place is. */
  function Bound(places: seq<nat>, v: nat): nat { if v < |places| then places[v] else SLOT_COUNT }

  lemma NoneStored(s: seq<Slot>)
    requires |s| == SLOT_COUNT
    ensures Taken(s, SLOT_COUNT) == [] ==> FirstOnes(s, SLOT_COUNT) == [] && forall p :: MAX_USING_ITEM_COUNT <= p < SLOT_COUNT ==> s[p].Free()
    ensures Taken(s, SLOT_COUNT) == [] ==> Equipped(s) == s
    ensures Taken(s, SLOT_COUNT) != [] ==> exists p :: MAX_USING_ITEM_COUNT <= p < SLOT_COUNT && !s[p].Free()
  {
    TakenExact(s, SLOT_COUNT);
    assert Taken(s, SLOT_COUNT) != [] ==> !s[Taken(s, SLOT_COUNT)[0]].Free();
    if Taken(s, SLOT_COUNT) == [] {
      GapsAreFree(s, 0);
      OnesOverGap(s, MAX_USING_ITEM_COUNT, SLOT_COUNT);
    }
  }

  /** Between two neighbouring occupied places everything is free. */
  lemma GapsAreFree(s: seq<Slot>, v: nat)
    requires |s| == SLOT_COUNT && v <= |Taken(s, SLOT_COUNT)|
    ensures var places := Taken(s, SLOT_COUNT);
            var from := if v == 0 then MAX_USING_ITEM_COUNT else places[v - 1] + 1;
            from <= Bound(places, v) && forall p :: from <= p < Bound(places, v) ==> s[p].Free()
  {
    hide Taken;
    TakenExact(s, SLOT_COUNT);
    var places := Taken(s, SLOT_COUNT);
    var from := if v == 0 then MAX_USING_ITEM_COUNT else places[v - 1] + 1;
    forall p | from <= p < Bound(places, v)
      ensures s[p].Free()
    {
      forall w | 0 <= w < |places|
        ensures places[w] != p
      {
        assert if w < v then places[w] < from else Bound(places, v) <= places[w];
      }
      assert p !in places;
    }
  }

  lemma NoPicksYet(s: seq<Slot>)
    requires |s| == SLOT_COUNT
    ensures FirstOnes(s, Bound(Taken(s, SLOT_COUNT), 0)) == [] && EquippedUpTo(s, [], 0) == s
  {
    GapsAreFree(s, 0);
    OnesOverGap(s, MAX_USING_ITEM_COUNT, Bound(Taken(s, SLOT_COUNT), 0));
  }

  lemma KnownKind(s: seq<Slot>, picks: seq<nat>, types: seq<nat>, p: nat)
    requires p < |s| && (forall m :: 0 <= m < |picks| ==> picks[m] < |s|) && Kinds(s, picks, types)
    ensures s[p].code in types <==> !NewKind(s, picks, p)
  {
    if s[p].code in types {
      var m :| 0 <= m < |types| && types[m] == s[p].code;
      assert s[picks[m]].code == s[p].code;
    }
  }

  /** The next occupied place is picked exactly if its kind is new. */
  lemma PickOrPass(s: seq<Slot>, places: seq<nat>, v: nat, picks: seq<nat>, types: seq<nat>)
    requires |s| == SLOT_COUNT && places == Taken(s, SLOT_COUNT) && v < |places|
    requires picks == FirstOnes(s, places[v]) && Kinds(s, picks, types)
    ensures FirstOnes(s, Bound(places, v + 1)) == if s[places[v]].code in types then picks else picks + [places[v]]
    ensures v == 0 ==> picks == []
  {
    hide Taken, IsFirst, FirstOnes, NewKind, Kinds;
    var p := places[v];
    TakenExact(s, SLOT_COUNT);
    FirstOfItsKind(s, p, p, picks);
    KnownKind(s, picks, types, p);
    OneMore(s, p);
    GapsAreFree(s, v + 1);
    OnesOverGap(s, p + 1, Bound(places, v + 1));
    if v == 0 {
      NoPicksYet(s);
    }
  }

  lemma EquipNext(s: seq<Slot>, picks: seq<nat>, p: nat)
    requires |s| == SLOT_COUNT && |picks| < MAX_USING_ITEM_COUNT && MAX_USING_ITEM_COUNT <= p < |s|
    requires forall l :: 0 <= l < |picks| ==> MAX_USING_ITEM_COUNT <= picks[l] < |s|
    ensures EquippedUpTo(s, picks + [p], |picks| + 1) == Swapped(EquippedUpTo(s, picks, |picks|), |picks|, p)
  {
    EquipPrefix(s, picks, picks + [p], |picks|);
  }

  /** A full set of picks, or all of them, is what the default equipment asks for. */
  lemma EquippedSoFar(s: seq<Slot>, places: seq<nat>, v: nat, picks: seq<nat>)
    requires |s| == SLOT_COUNT && places == Taken(s, SLOT_COUNT) && v <= |places|
    requires picks == FirstOnes(s, Bound(places, v)) && |picks| <= MAX_USING_ITEM_COUNT
    requires |picks| == MAX_USING_ITEM_COUNT || v == |places|
    ensures EquippedUpTo(s, picks, |picks|) == Equipped(s)
  {
    hide FirstOnes, Taken, EquippedUpTo;
    OnesPrefix(s, Bound(places, v), SLOT_COUNT);
    EquipPrefix(s, picks, FirstOnes(s, SLOT_COUNT), |picks|);
  }

  lemma ListedSize(s: seq<Slot>, items: seq<(nat, Slot)>, places: seq<nat>)
    requires forall v :: 0 <= v < |places| ==> places[v] < |s|
    requires Listed(s, items, places)
    ensures |items| == |places|
  {
  }

  lemma ListedAt(s: seq<Slot>, items: seq<(nat, Slot)>, places: seq<nat>, v: nat)
    requires forall v :: 0 <= v < |places| ==> places[v] < |s|
    requires Listed(s, items, places) && v < |items|
    ensures v < |places| && items[v] == (places[v], s[places[v]])
  {
  }

  lemma KindsNone(s: seq<Slot>)
    ensures Kinds(s, [], [])
  {
  }

  lemma KindsMore(s: seq<Slot>, picks: seq<nat>, types: seq<nat>, p: nat)
    requires (forall m :: 0 <= m < |picks| ==> picks[m] < |s|) && p < |s| && Kinds(s, picks, types)
    ensures Kinds(s, picks + [p], types + [s[p].code])
    ensures |types| == |picks|
  {
  }

  /** A relic of a tier drawn evenly between two, drawn evenly from its table. */
  ghost predicate DrawnBetween(code: nat, minTier: nat, maxTier: nat, tierDraw: nat, itemDraw: nat) {
    IsRelic(code) && minTier <= maxTier && TierOf(code) == minTier + tierDraw % (maxTier - minTier + 1) && code == TierRelic(TierOf(code), itemDraw)
  }

  lemma DrawnIsRelic(code: nat, minTier: nat, maxTier: nat, tierDraw: nat, itemDraw: nat)
    requires DrawnBetween(code, minTier, maxTier, tierDraw, itemDraw)
    ensures IsRelic(code)
  {
  }

  /** The lowest tier of three relics. */
  ghost function LowestTier(a: nat, b: nat, c: nat): (tier: nat)
    ensures a < ITEM_CODES && b < ITEM_CODES && c < ITEM_CODES ==>
              tier <= TierOf(a) && tier <= TierOf(b) && tier <= TierOf(c) && (tier == TierOf(a) || tier == TierOf(b) || tier == TierOf(c))
  {
    if a < ITEM_CODES && b < ITEM_CODES && c < ITEM_CODES then Min(Min(TierOf(a), TierOf(b)), TierOf(c)) else 0
  }

  ghost function HighestTier(a: nat, b: nat, c: nat): (tier: nat)
    ensures a < ITEM_CODES && b < ITEM_CODES && c < ITEM_CODES ==>
              tier >= TierOf(a) && tier >= TierOf(b) && tier >= TierOf(c) && (tier == TierOf(a) || tier == TierOf(b) || tier == TierOf(c))
  {
    if a < ITEM_CODES && b < ITEM_CODES && c < ITEM_CODES then Max(Max(TierOf(a), TierOf(b)), TierOf(c)) else 0
  }

  /** The first n draws gave one of the three. */
  ghost predicate Stale(draws: seq<nat>, n: nat, a: nat, b: nat, c: nat)
    requires n <= |draws|
  {
    forall m :: 0 <= m < n ==> draws[m] == a || draws[m] == b || draws[m] == c
  }

  /** Draws between the tiers; all but the last gave one of the three, and so did the last only
      after ten. */
  ghost predicate Redrawn(draws: seq<nat>, a: nat, b: nat, c: nat, tierDraw: nat -> nat, itemDraw: nat -> nat) {
    draws != [] && |draws| <= 10 &&
    (forall m :: 0 <= m < |draws| ==> DrawnBetween(draws[m], LowestTier(a, b, c), HighestTier(a, b, c), tierDraw(m), itemDraw(m))) &&
    Stale(draws, |draws| - 1, a, b, c) &&
    var last := draws[|draws| - 1];
    (last == a || last == b || last == c ==> |draws| == 10)
  }

  predicate AllTaken(s: seq<Slot>, i: nat, j: nat, k: nat)
    requires i < |s| && j < |s| && k < |s|
  {
    !s[i].Free() && !s[j].Free() && !s[k].Free()
  }

  lemma GoodSlots(s: seq<Slot>)
    requires Good(s)
    ensures forall i :: 0 <= i < |s| ==> GoodSlot(s[i])
  {
  }

  lemma CombinedIs(s: seq<Slot>, i: nat, j: nat, k: nat, draws: seq<nat>)
    requires |s| == SLOT_COUNT && i < |s| && j < |s| && k < |s| && draws != [] && AllTaken(s, i, j, k)
    ensures var emptied := AllEmptied(s, i, j, k);
            var free := FirstFree(emptied);
            free < SLOT_COUNT &&
            Combined(s, i, j, k, draws) == emptied[free := emptied[free].Holding(FreshDraw(draws, s[i].code, s[j].code, s[k].code), 0)]
  {
    hide FreshDraw;
    EmptiedAtLeastOne(s, i, j, k);
  }

  lemma EmptiedAtLeastOne(s: seq<Slot>, i: nat, j: nat, k: nat)
    requires |s| == SLOT_COUNT && i < |s| && j < |s| && k < |s|
    ensures FirstFree(AllEmptied(s, i, j, k)) < SLOT_COUNT
  {
    assert AllEmptied(s, i, j, k)[i].Free();
  }

  lemma {:induction false} LastIsFresh(draws: seq<nat>, a: nat, b: nat, c: nat)
    requires draws != [] && Stale(draws, |draws| - 1, a, b, c)
    ensures FreshDraw(draws, a, b, c) == draws[|draws| - 1]
  {
    if |draws| > 1 {
      LastIsFresh(draws[1..], a, b, c);
    }
  }

  lemma SwapEitherWay(s: seq<Slot>, i: nat, j: nat)
    requires i < |s| && j < |s|
    ensures var first := s[j := s[j].Holding(s[i].code, s[i].upgrade)];
            first[i := first[i].Holding(s[j].code, s[j].upgrade)] == Swapped(s, i, j)
  {
  }
}

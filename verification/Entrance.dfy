/** How the opponents of a round become the avatars of a battle stage, and how it goes on. */
module Entrance {
  import opened Basics
  import opened Items
  import opened BattleStats
  import opened BattleStage
  import opened StageLoops
  import opened Avatar
  import opened Pairings
  import opened Matching
  import Clients
  import BattleRules
  import Draws

  const HAMBURGER: nat := 7
  const DOCTOR_TOOL: nat := 16

  /** What is known of the players of the room. */
  datatype Player = Player(client: Clients.Client, items: seq<Item>, firstAttackState: int)

  ghost predicate Roster(players: map<nat, Player>, opponents: seq<int>) {
    (forall i :: 0 <= i < |opponents| ==> Fighter(opponents[i]) in players) &&
    (forall a, b :: a in players && b in players && a != b ==> players[a].client != players[b].client) &&
    (forall a :: a in players ==> SixKnown(players[a].items))
  }

  // ---- Getting ready ----

  predicate CanCopy(item: Item) {
    item.code != HAMBURGER && item.code != DOCTOR_TOOL && item.code != EMPTY_ITEM
  }

  function ValidItems(items: seq<Item>): seq<Item> {
    if items == [] then []
    else ValidItems(items[..|items| - 1]) + (if CanCopy(items[|items| - 1]) then [items[|items| - 1]] else [])
  }

  /** What the doctor's tool turns into: one of the copyable relics, taken within their number. */
  function CopyItem(items: seq<Item>, draw: nat): Item {
    var validItems := ValidItems(items);
    if validItems != [] then validItems[draw % |validItems|] else Item(DOCTOR_TOOL, 0)
  }

  lemma {:induction false} ValidExact(items: seq<Item>)
    ensures forall x :: x in ValidItems(items) <==> x in items && CanCopy(x)
  {
    if items != [] {
      var n := |items| - 1;
      ValidExact(items[..n]);
      assert items == items[..n] + [items[n]];
    }
  }

  /** A copyable relic of the enemy if it wears one, and the bare tool otherwise. */
  lemma CopyLaw(items: seq<Item>, draw: nat)
    ensures if exists x :: x in items && CanCopy(x) then CopyItem(items, draw) in items && CanCopy(CopyItem(items, draw))
            else CopyItem(items, draw) == Item(DOCTOR_TOOL, 0)
  {
    hide ValidItems, CanCopy;
    ValidExact(items);
    var validItems := ValidItems(items);
    if validItems != [] {
      assert validItems[draw % |validItems|] in validItems;
    }
  }

  /** Each copyable relic is what some draw gives. */
  lemma EveryCopyDrawn(items: seq<Item>, x: Item)
    requires x in items && CanCopy(x)
    ensures exists draw: nat :: CopyItem(items, draw) == x
  {
    hide ValidItems, CanCopy;
    ValidExact(items);
    var validItems := ValidItems(items);
    var d: nat :| d < |validItems| && validItems[d] == x;
    Draws.RestOfSmall(d, |validItems|);
    assert CopyItem(items, d) == x;
  }

  method GetRandomCopyItem(items: seq<Item>, draw: nat) returns (item: Item)
    ensures item == CopyItem(items, draw)
  {
    var validItems: seq<Item> := [];
    for i := 0 to |items|
      invariant validItems == ValidItems(items[..i])
    {
      assert items[..i + 1][..i] == items[..i];
      if CanCopy(items[i]) {
        validItems := validItems + [items[i]];
      }
    }
    assert items[..|items|] == items;
    if validItems != [] {
      item := validItems[draw % |validItems|];
    } else {
      item := Item(DOCTOR_TOOL, 0);
    }
  }

  lemma CopyKnown(items: seq<Item>, draw: nat)
    requires SixKnown(items)
    ensures Known(CopyItem(items, draw))
  {
    CopyLaw(items, draw);
  }

  /** An avatar as its client brought it: nothing fitted yet. */
  ghost predicate Young(a: BattleAvatar, player: Player, isGhost: bool, round: nat)
    reads a
  {
    a.Equipped() && a.mClient == player.client && a.mUsingItem == player.items && a.mActiveQueue == SLOT_ORDER &&
    a.View() == Newcomer(50 + 10 * Min(5, round), player.firstAttackState, isGhost)
  }

  /** The numbers of an avatar once everything its player brought is fitted: the round's HP and
      the fitments' sums, and nothing pending. */
  ghost predicate FittedStats(s: Stats, player: Player, isGhost: bool, round: nat) {
    var hp := 50 + 10 * Min(5, round) + Sum(player.items, MaxHpFit);
    s.body == Body(hp, hp, Sum(player.items, DefensiveFit)) &&
    s.power == Power(0, 0, 0, 0, 0) && s.reaction == Reaction(false, 0, false, 0, false, 0, false, 0) &&
    s.ward == Ward(false, false) && s.tally == Tally(0, 0) &&
    s.role.firstAttackState == player.firstAttackState + Sum(player.items, FirstAttackFit) &&
    s.role.isGhost == isGhost && !s.role.isCharacterDamage
  }

  ghost predicate Fitted(a: BattleAvatar, player: Player, isGhost: bool, round: nat)
    reads a
  {
    a.mClient == player.client && a.mActiveQueue == SLOT_ORDER && FittedStats(a.View(), player, isGhost, round)
  }

  method Fitting(me: BattleAvatar, ghost player: Player, ghost isGhost: bool, ghost round: nat)
    requires Young(me, player, isGhost, round)
    modifies me`mMaxHp, me`mHp, me`mDefensive, me`mFirstAttackState
    ensures Fitted(me, player, isGhost, round) && me.Equipped() && !me.mIsFinish && me.mHamburgerType == Fillet
  {
    hide FittedAll, Sum, Known, Draws.IsOrder;
    ItemsKnown(me);
    FittedSums(me.View(), me.mUsingItem);
    me.FitmentEffect();
  }

  lemma ItemsKnown(a: BattleAvatar)
    requires a.Equipped()
    ensures SixKnown(a.mUsingItem)
  {
  }

  /** Nothing is pending, and HP is positive: what a stage asks of a newcomer. */
  lemma FittedIsNew(a: BattleAvatar, player: Player, isGhost: bool, round: nat)
    requires Fitted(a, player, isGhost, round) && a.Equipped()
    ensures Newly(a, player.client, isGhost, a.mUsingItem)
  {
    hide BattleAvatar.Equipped, Sum;
  }

  /** The last hamburger's draw counts. */
  function BurgerOf(items: seq<Item>, burgers: nat -> Hamburger): Hamburger {
    if items == [] then Fillet
    else if items[|items| - 1].code == HAMBURGER then burgers(|items| - 1)
    else BurgerOf(items[..|items| - 1], burgers)
  }

  lemma {:induction false} LastBurger(items: seq<Item>, burgers: nat -> Hamburger, j: nat)
    requires j <= |items| && forall i :: j <= i < |items| ==> items[i].code != HAMBURGER
    ensures j == 0 ==> BurgerOf(items, burgers) == Fillet
    ensures j > 0 && items[j - 1].code == HAMBURGER ==> BurgerOf(items, burgers) == burgers(j - 1)
  {
    if j < |items| {
      LastBurger(items[..|items| - 1], burgers, j);
    }
  }

  /** The relics brought, with every doctor's tool turned into a copy. */
  function Copies(items: seq<Item>, enemy: seq<Item>, draws: nat -> nat): seq<Item> {
    seq(|items|, j requires 0 <= j < |items| => if items[j].code == DOCTOR_TOOL then CopyItem(enemy, draws(j)) else items[j])
  }

  /** Fits the relics, then lets the draws pick the hamburgers and what the doctor's tools copy. */
  method Prepare(me: BattleAvatar, opponent: BattleAvatar, burgers: nat -> Hamburger, draws: nat -> nat,
                 ghost player: Player, ghost isGhost: bool, ghost round: nat)
    requires me != opponent && Young(me, player, isGhost, round) && opponent.Equipped()
    modifies me
    ensures Fitted(me, player, isGhost, round) && me.Equipped() && !me.mIsFinish
    ensures me.mUsingItem == Copies(player.items, opponent.mUsingItem, draws)
    ensures me.mHamburgerType == BurgerOf(player.items, burgers)
  {
    hide BattleAvatar.View, CopyItem, FittedStats, BattleAvatar.Equipped;
    Fitting(me, player, isGhost, round);
    ItemsKnown(me);
    ghost var gear := me.mUsingItem;
    for j := 0 to MAX_USING_ITEM_COUNT
      invariant Fitted(me, player, isGhost, round) && me.Equipped() && !me.mIsFinish && |me.mUsingItem| == |gear|
      invariant forall i :: 0 <= i < |gear| ==>
                  me.mUsingItem[i] == if i < j && gear[i].code == DOCTOR_TOOL then CopyItem(opponent.mUsingItem, draws(i)) else gear[i]
      invariant me.mHamburgerType == BurgerOf(gear[..j], burgers)
    {
      assert gear[..j + 1][..j] == gear[..j];
      PrepareSlot(me, opponent, j, burgers(j), draws(j), player, isGhost, round);
    }
    assert gear[..MAX_USING_ITEM_COUNT] == gear;
  }

  /** One slot: a hamburger is chosen, a doctor's tool becomes a copy. */
  method PrepareSlot(me: BattleAvatar, opponent: BattleAvatar, j: nat, burger: Hamburger, draw: nat,
                     ghost player: Player, ghost isGhost: bool, ghost round: nat)
    requires me != opponent && opponent.Equipped() && me.Equipped() && Fitted(me, player, isGhost, round) && j < MAX_USING_ITEM_COUNT
    modifies me`mHamburgerType, me`mUsingItem
    ensures me.Equipped() && Fitted(me, player, isGhost, round) && j < |old(me.mUsingItem)|
    ensures var item := old(me.mUsingItem)[j];
            me.mUsingItem == old(me.mUsingItem)[j := if item.code == DOCTOR_TOOL then CopyItem(opponent.mUsingItem, draw) else item] &&
            me.mHamburgerType == if item.code == HAMBURGER then burger else old(me.mHamburgerType)
  {
    hide BattleAvatar.View, CopyItem, FittedStats;
    ItemsKnown(opponent);
    if me.mUsingItem[j].code == HAMBURGER {
      SetHamburger(me, burger, player, isGhost, round);
    } else if me.mUsingItem[j].code == DOCTOR_TOOL {
      var choice := GetRandomCopyItem(opponent.mUsingItem, draw);
      CopyKnown(opponent.mUsingItem, draw);
      SetItem(me, j, choice, player, isGhost, round);
    }
  }

  method SetHamburger(me: BattleAvatar, hamburger: Hamburger, ghost player: Player, ghost isGhost: bool, ghost round: nat)
    requires me.Equipped() && Fitted(me, player, isGhost, round)
    modifies me`mHamburgerType
    ensures me.Equipped() && Fitted(me, player, isGhost, round) && me.mHamburgerType == hamburger
  {
    me.mHamburgerType := hamburger;
  }

  method SetItem(me: BattleAvatar, j: nat, item: Item, ghost player: Player, ghost isGhost: bool, ghost round: nat)
    requires me.Equipped() && j < MAX_USING_ITEM_COUNT && Known(item) && Fitted(me, player, isGhost, round)
    modifies me`mUsingItem
    ensures me.Equipped() && Fitted(me, player, isGhost, round) && j < |old(me.mUsingItem)|
    ensures me.mUsingItem == old(me.mUsingItem)[j := item]
  {
    me.mUsingItem := me.mUsingItem[j := item];
  }

  ghost predicate Apart(avatars: seq<BattleAvatar>) {
    forall i, j :: 0 <= i < j < |avatars| ==> avatars[i] != avatars[j]
  }

  /** One avatar for every entry. */
  method Summon(opponents: seq<int>, players: map<nat, Player>, round: nat) returns (avatars: seq<BattleAvatar>)
    requires Roster(players, opponents)
    ensures |avatars| == |opponents| && Apart(avatars) && fresh(avatars)
    ensures forall i :: 0 <= i < |avatars| ==> Young(avatars[i], players[Fighter(opponents[i])], opponents[i] < 0, round)
  {
    hide BattleAvatar.View;
    avatars := [];
    for i := 0 to |opponents|
      invariant |avatars| == i && Apart(avatars) && fresh(avatars)
      invariant forall j :: 0 <= j < i ==> Young(avatars[j], players[Fighter(opponents[j])], opponents[j] < 0, round)
    {
      var player := players[Fighter(opponents[i])];
      var avatar := new BattleAvatar.SetAvatar(player.client, Fighter(opponents[i]), opponents[i] < 0, round, player.firstAttackState, player.items);
      avatars := avatars + [avatar];
    }
  }

  /** The draws at the entrance: the hamburger and the copy of every slot of every avatar. */
  datatype EntryDraws = EntryDraws(burgers: (nat, nat) -> Hamburger, copies: (nat, nat) -> nat) {
    function BurgerDraws(i: nat): nat -> Hamburger { (j: nat) => burgers(i, j) }
    function CopyDraws(i: nat): nat -> nat { (j: nat) => copies(i, j) }
  }

  /** The relics the i-th avatar goes into the fight with: the first of a pair copies from what the
      second brought, the second from what the first has got. */
  ghost function GearFor(opponents: seq<int>, players: map<nat, Player>, draws: EntryDraws, i: nat): seq<Item>
    requires Roster(players, opponents) && |opponents| % 2 == 0 && i < |opponents|
  {
    var own, other := players[Fighter(opponents[i])].items, players[Fighter(opponents[Partner(i)])].items;
    Copies(own, if i % 2 == 0 then other else Copies(other, own, draws.CopyDraws(i - 1)), draws.CopyDraws(i))
  }

  /** The i-th avatar is fitted and equipped for the fight. */
  ghost predicate Prepared(a: BattleAvatar, opponents: seq<int>, players: map<nat, Player>, round: nat, draws: EntryDraws, i: nat)
    requires Roster(players, opponents) && |opponents| % 2 == 0 && i < |opponents|
    reads a
  {
    Fitted(a, players[Fighter(opponents[i])], opponents[i] < 0, round) && a.Equipped() &&
    a.mUsingItem == GearFor(opponents, players, draws, i) && a.mHamburgerType == BurgerOf(players[Fighter(opponents[i])].items, draws.BurgerDraws(i))
  }

  ghost predicate AllPrepared(avatars: seq<BattleAvatar>, opponents: seq<int>, players: map<nat, Player>, round: nat, draws: EntryDraws)
    requires Roster(players, opponents) && |opponents| % 2 == 0 && |avatars| == |opponents|
    reads avatars
  {
    forall i :: 0 <= i < |avatars| ==> Prepared(avatars[i], opponents, players, round, draws, i)
  }

  method PrepareOne(avatars: seq<BattleAvatar>, ghost opponents: seq<int>, ghost players: map<nat, Player>, ghost round: nat, draws: EntryDraws, i: nat)
    requires Roster(players, opponents) && |avatars| == |opponents| && |avatars| % 2 == 0 && i < |avatars|
    requires avatars[i] != avatars[Partner(i)] && Young(avatars[i], players[Fighter(opponents[i])], opponents[i] < 0, round)
    requires if i % 2 == 0 then Young(avatars[i + 1], players[Fighter(opponents[i + 1])], opponents[i + 1] < 0, round)
             else Prepared(avatars[i - 1], opponents, players, round, draws, i - 1)
    modifies avatars[i]
    ensures Prepared(avatars[i], opponents, players, round, draws, i) && !avatars[i].mIsFinish
  {
    hide BattleAvatar.View, BattleAvatar.Equipped, Fitted, BurgerOf, Copies, SixKnown;
    var opponent := avatars[if i % 2 == 0 then i + 1 else i - 1];
    Prepare(avatars[i], opponent, draws.BurgerDraws(i), draws.CopyDraws(i), players[Fighter(opponents[i])], opponents[i] < 0, round);
  }

  /** Everybody gets ready, one after the other. */
  method PrepareAll(avatars: seq<BattleAvatar>, ghost opponents: seq<int>, ghost players: map<nat, Player>, ghost round: nat, draws: EntryDraws)
    requires Roster(players, opponents) && |avatars| == |opponents| && |avatars| % 2 == 0 && Apart(avatars)
    requires forall i :: 0 <= i < |avatars| ==> Young(avatars[i], players[Fighter(opponents[i])], opponents[i] < 0, round)
    modifies avatars
    ensures AllPrepared(avatars, opponents, players, round, draws)
    ensures forall i :: 0 <= i < |avatars| ==> !avatars[i].mIsFinish
  {
    hide Prepared, Young, SixKnown;
    for i := 0 to |avatars|
      invariant forall j :: 0 <= j < i ==> Prepared(avatars[j], opponents, players, round, draws, j) && !avatars[j].mIsFinish
      invariant forall j :: i <= j < |avatars| ==> Young(avatars[j], players[Fighter(opponents[j])], opponents[j] < 0, round)
    {
      PrepareOne(avatars, opponents, players, round, draws, i);
    }
  }

  // ---- Who stands first ----

  /** The k-th pair as it goes into the fight: the other way round if the second has the higher
      attack state. */
  ghost predicate PairArranged(avatars: seq<BattleAvatar>, opponents: seq<int>, states: seq<int>, lined: seq<BattleAvatar>, entries: seq<int>, k: nat)
    requires |lined| == |entries| == |avatars| == |opponents| == |states| && 2 * k + 1 < |avatars|
  {
    var (first, second) := if states[2 * k] < states[2 * k + 1] then (2 * k + 1, 2 * k) else (2 * k, 2 * k + 1);
    lined[2 * k] == avatars[first] && lined[2 * k + 1] == avatars[second] &&
    entries[2 * k] == opponents[first] && entries[2 * k + 1] == opponents[second]
  }

  ghost function States(avatars: seq<BattleAvatar>): (states: seq<int>)
    reads avatars
    ensures |states| == |avatars| && forall i :: 0 <= i < |states| ==> states[i] == avatars[i].mFirstAttackState
  {
    seq(|avatars|, i requires 0 <= i < |avatars| reads avatars => avatars[i].mFirstAttackState)
  }

  ghost predicate Arranged(avatars: seq<BattleAvatar>, opponents: seq<int>, states: seq<int>, lined: seq<BattleAvatar>, entries: seq<int>) {
    |lined| == |entries| == |avatars| == |opponents| == |states| && |avatars| % 2 == 0 &&
    forall k :: 0 <= k < |avatars| / 2 ==> PairArranged(avatars, opponents, states, lined, entries, k)
  }

  /** Exactly the pairs that somebody has left are out. */
  ghost predicate OutIfLeft(avatars: seq<BattleAvatar>, opponents: seq<int>, players: map<nat, Player>, k: nat)
    requires Roster(players, opponents) && |avatars| == |opponents| && 2 * k + 1 < |avatars|
    reads avatars[2 * k], avatars[2 * k + 1], players[Fighter(opponents[2 * k])].client, players[Fighter(opponents[2 * k + 1])].client
  {
    Out(avatars[2 * k], avatars[2 * k + 1], players[Fighter(opponents[2 * k])].client, players[Fighter(opponents[2 * k + 1])].client)
  }

  ghost predicate Out(a: BattleAvatar, b: BattleAvatar, client: Clients.Client, other: Clients.Client)
    reads a, b, client, other
  {
    a.mIsFinish == b.mIsFinish == !(client.mInRoom && other.mInRoom)
  }

  method ArrangePair(avatars: seq<BattleAvatar>, opponents: seq<int>, players: map<nat, Player>, k: nat) returns (turned: bool)
    requires Roster(players, opponents) && |avatars| == |opponents| && 2 * k + 1 < |avatars| && Apart(avatars)
    requires !avatars[2 * k].mIsFinish && !avatars[2 * k + 1].mIsFinish
    modifies {avatars[2 * k], avatars[2 * k + 1]}`mIsFinish
    ensures OutIfLeft(avatars, opponents, players, k)
    ensures turned == (avatars[2 * k].mFirstAttackState < avatars[2 * k + 1].mFirstAttackState)
  {
    var first, second := avatars[2 * k], avatars[2 * k + 1];
    if !players[Fighter(opponents[2 * k])].client.mInRoom || !players[Fighter(opponents[2 * k + 1])].client.mInRoom {
      first.SetFinish();
      second.SetFinish();
    }
    turned := first.mFirstAttackState < second.mFirstAttackState;
  }

  /** Pairs somebody left are out; the higher attack state stands first. */
  method Arrange(avatars: seq<BattleAvatar>, opponents: seq<int>, players: map<nat, Player>)
      returns (lined: seq<BattleAvatar>, entries: seq<int>)
    requires |avatars| == |opponents| && |opponents| % 2 == 0 && Roster(players, opponents) && Apart(avatars)
    requires forall i :: 0 <= i < |avatars| ==> !avatars[i].mIsFinish
    modifies avatars`mIsFinish
    ensures Arranged(avatars, opponents, States(avatars), lined, entries)
    ensures forall k :: 0 <= k < |avatars| / 2 ==> OutIfLeft(avatars, opponents, players, k)
  {
    hide Roster, PairArranged, Apart, Out, SwapAt;
    lined, entries := avatars, opponents;
    ghost var states := States(avatars);
    for k := 0 to |avatars| / 2
      invariant |lined| == |entries| == |avatars| && states == States(avatars)
      invariant forall i :: 2 * k <= i < |avatars| ==> lined[i] == avatars[i] && entries[i] == opponents[i] && !avatars[i].mIsFinish
      invariant forall j :: 0 <= j < k ==> OutIfLeft(avatars, opponents, players, j)
      invariant forall j :: 0 <= j < k ==> PairArranged(avatars, opponents, states, lined, entries, j)
    {
      NotYet(avatars, k);
      label before:
      var turned := ArrangePair(avatars, opponents, players, k);
      forall j | 0 <= j < k
        ensures OutIfLeft(avatars, opponents, players, j)
      {
        PairsApart(avatars, j, k);
        InRoster(players, opponents, 2 * j);
        InRoster(players, opponents, 2 * j + 1);
        assert old@before(OutIfLeft(avatars, opponents, players, j));
      }
      ghost var lined', entries' := lined, entries;
      if turned {
        lined, entries := SwapAt(lined, k), SwapAt(entries, k);
      }
      OneMorePair(avatars, opponents, states, lined', entries', lined, entries, k);
    }
  }

  /** The k-th pair the other way round. */
  function SwapAt<T>(s: seq<T>, k: nat): (s': seq<T>)
    requires 2 * k + 1 < |s|
    ensures |s'| == |s| && forall i :: 2 * k + 2 <= i < |s| ==> s'[i] == s[i]
  {
    s[2 * k := s[2 * k + 1]][2 * k + 1 := s[2 * k]]
  }

  lemma OneMorePair(avatars: seq<BattleAvatar>, opponents: seq<int>, states: seq<int>, lined: seq<BattleAvatar>, entries: seq<int>,
                    lined': seq<BattleAvatar>, entries': seq<int>, k: nat)
    requires |lined| == |entries| == |avatars| == |opponents| == |states| && 2 * k + 1 < |avatars|
    requires forall j :: 0 <= j < k ==> PairArranged(avatars, opponents, states, lined, entries, j)
    requires lined[2 * k] == avatars[2 * k] && lined[2 * k + 1] == avatars[2 * k + 1]
    requires entries[2 * k] == opponents[2 * k] && entries[2 * k + 1] == opponents[2 * k + 1]
    requires if states[2 * k] < states[2 * k + 1] then lined' == SwapAt(lined, k) && entries' == SwapAt(entries, k)
             else lined' == lined && entries' == entries
    ensures forall j :: 0 <= j <= k ==> PairArranged(avatars, opponents, states, lined', entries', j)
  {
    forall j | 0 <= j <= k
      ensures PairArranged(avatars, opponents, states, lined', entries', j)
    {
      if j < k {
        assert PairArranged(avatars, opponents, states, lined, entries, j);
      }
    }
  }

  lemma InRoster(players: map<nat, Player>, opponents: seq<int>, i: nat)
    requires Roster(players, opponents) && i < |opponents|
    ensures Fighter(opponents[i]) in players
  {
  }

  lemma PairsApart(avatars: seq<BattleAvatar>, j: nat, k: nat)
    requires Apart(avatars) && 2 * j + 1 < |avatars| && 2 * k + 1 < |avatars| && j != k
    ensures avatars[2 * j] != avatars[2 * k] && avatars[2 * j] != avatars[2 * k + 1]
    ensures avatars[2 * j + 1] != avatars[2 * k] && avatars[2 * j + 1] != avatars[2 * k + 1]
  {
  }

  lemma NotYet(avatars: seq<BattleAvatar>, k: nat)
    requires Apart(avatars) && 2 * k + 1 < |avatars|
    ensures forall i :: 2 * k + 2 <= i < |avatars| ==> avatars[i] != avatars[2 * k] && avatars[i] != avatars[2 * k + 1]
  {
  }

  // ---- The cast ----

  /** Where the i-th of the arranged avatars stood before: in the same pair. */
  lemma Origin(avatars: seq<BattleAvatar>, opponents: seq<int>, states: seq<int>, lined: seq<BattleAvatar>, entries: seq<int>, i: nat) returns (j: nat)
    requires Arranged(avatars, opponents, states, lined, entries) && i < |lined|
    ensures j < |avatars| && lined[i] == avatars[j] && entries[i] == opponents[j] && j / 2 == i / 2
    ensures j == if states[2 * (i / 2)] < states[2 * (i / 2) + 1] then Partner(i) else i
  {
    var k := i / 2;
    assert PairArranged(avatars, opponents, states, lined, entries, k);
    j := if states[2 * k] < states[2 * k + 1] then Partner(i) else i;
    assert i == 2 * k || i == 2 * k + 1;
  }

  lemma ArrangedOpponents(avatars: seq<BattleAvatar>, opponents: seq<int>, states: seq<int>, lined: seq<BattleAvatar>, entries: seq<int>)
    requires Opponents(opponents) && Arranged(avatars, opponents, states, lined, entries) && Apart(avatars)
    ensures Opponents(entries) && Apart(lined)
    ensures forall i :: 0 <= i < |lined| ==> lined[i] in avatars
  {
    hide PairArranged;
    forall k | 0 <= k < |entries| / 2
      ensures Fighter(entries[2 * k]) != Fighter(entries[2 * k + 1])
    {
      assert Fighter(opponents[2 * k]) != Fighter(opponents[2 * k + 1]);
      var u := Origin(avatars, opponents, states, lined, entries, 2 * k);
      var v := Origin(avatars, opponents, states, lined, entries, 2 * k + 1);
    }
    forall i | 0 <= i < |lined|
      ensures lined[i] in avatars
    {
      var j := Origin(avatars, opponents, states, lined, entries, i);
    }
    forall i, j | 0 <= i < j < |entries|
      ensures lined[i] != lined[j] && (entries[i] >= 0 && entries[j] >= 0 ==> entries[i] != entries[j])
    {
      StillDifferent(avatars, opponents, states, lined, entries, i, j);
    }
  }

  lemma StillDifferent(avatars: seq<BattleAvatar>, opponents: seq<int>, states: seq<int>, lined: seq<BattleAvatar>, entries: seq<int>, i: nat, j: nat)
    requires Opponents(opponents) && Arranged(avatars, opponents, states, lined, entries) && Apart(avatars) && i < j < |entries|
    ensures lined[i] != lined[j] && (entries[i] >= 0 && entries[j] >= 0 ==> entries[i] != entries[j])
  {
    hide PairArranged;
    var u := Origin(avatars, opponents, states, lined, entries, i);
    var v := Origin(avatars, opponents, states, lined, entries, j);
    assert u != v;
    var a, b := if u < v then u else v, if u < v then v else u;
    assert avatars[a] != avatars[b];
    assert opponents[a] >= 0 && opponents[b] >= 0 ==> opponents[a] != opponents[b];
  }

  lemma RosterKept(avatars: seq<BattleAvatar>, opponents: seq<int>, states: seq<int>, lined: seq<BattleAvatar>, entries: seq<int>, players: map<nat, Player>)
    requires Arranged(avatars, opponents, states, lined, entries) && Roster(players, opponents)
    ensures Roster(players, entries)
  {
    hide PairArranged, SixKnown;
    forall i | 0 <= i < |entries|
      ensures Fighter(entries[i]) in players
    {
      var j := Origin(avatars, opponents, states, lined, entries, i);
    }
  }

  /** The cast of avatars that stand for these entries. */
  function CastOf(avatars: seq<BattleAvatar>, entries: seq<int>, players: map<nat, Player>): (c: Cast)
    requires |avatars| == |entries| && Roster(players, entries)
    reads avatars
  {
    Cast(avatars,
         seq(|entries|, i requires 0 <= i < |entries| => players[Fighter(entries[i])].client),
         seq(|entries|, i requires 0 <= i < |entries| => entries[i] < 0),
         seq(|entries|, i requires 0 <= i < |entries| reads avatars => avatars[i].mUsingItem))
  }

  lemma ReadyToFight(lined: seq<BattleAvatar>, entries: seq<int>, players: map<nat, Player>)
    requires |lined| == |entries| && Roster(players, entries) && Opponents(entries) && Apart(lined)
    requires forall i :: 0 <= i < |lined| ==> Newly(lined[i], players[Fighter(entries[i])].client, entries[i] < 0, lined[i].mUsingItem)
    requires forall k {:trigger lined[2 * k]} :: 0 <= k < |lined| / 2 ==> lined[2 * k].mIsFinish == lined[2 * k + 1].mIsFinish
    ensures var c := CastOf(lined, entries, players); Casting(c) && Ready(c)
  {
    hide Newly, SixKnown;
    var c := CastOf(lined, entries, players);
    forall i | 0 <= i < |c.gear|
      ensures SixKnown(c.gear[i])
    {
      NewIsKnown(lined[i], players[Fighter(entries[i])].client, entries[i] < 0);
    }
    forall k | 0 <= k < |c.avatars| / 2
      ensures c.clients[2 * k] != c.clients[2 * k + 1]
    {
      assert Fighter(entries[2 * k]) != Fighter(entries[2 * k + 1]);
    }
  }

  lemma NewIsKnown(a: BattleAvatar, client: Clients.Client?, isGhost: bool)
    requires Newly(a, client, isGhost, a.mUsingItem)
    ensures SixKnown(a.mUsingItem)
  {
  }

  /** After arranging everybody is new, and both of a pair are out or neither. */
  lemma LinedUp(avatars: seq<BattleAvatar>, opponents: seq<int>, states: seq<int>, lined: seq<BattleAvatar>, entries: seq<int>,
                players: map<nat, Player>, round: nat, draws: EntryDraws)
    requires Roster(players, opponents) && Roster(players, entries) && Arranged(avatars, opponents, states, lined, entries)
    requires AllPrepared(avatars, opponents, players, round, draws)
    requires forall k :: 0 <= k < |avatars| / 2 ==> OutIfLeft(avatars, opponents, players, k)
    ensures forall i :: 0 <= i < |lined| ==> Newly(lined[i], players[Fighter(entries[i])].client, entries[i] < 0, lined[i].mUsingItem)
    ensures forall i :: 0 <= i < |lined| ==> Fitted(lined[i], players[Fighter(entries[i])], entries[i] < 0, round)
    ensures forall k {:trigger lined[2 * k]} :: 0 <= k < |lined| / 2 ==> lined[2 * k].mIsFinish == lined[2 * k + 1].mIsFinish
  {
    hide Newly, PairArranged, Fitted, GearFor, BurgerOf, BattleAvatar.Equipped, SixKnown;
    forall i | 0 <= i < |lined|
      ensures Newly(lined[i], players[Fighter(entries[i])].client, entries[i] < 0, lined[i].mUsingItem) &&
              Fitted(lined[i], players[Fighter(entries[i])], entries[i] < 0, round)
    {
      var j := Origin(avatars, opponents, states, lined, entries, i);
      assert Prepared(avatars[j], opponents, players, round, draws, j);
      FittedIsNew(lined[i], players[Fighter(entries[i])], entries[i] < 0, round);
    }
    forall k {:trigger lined[2 * k]} | 0 <= k < |lined| / 2
      ensures lined[2 * k].mIsFinish == lined[2 * k + 1].mIsFinish
    {
      assert OutIfLeft(avatars, opponents, players, k);
      var u := Origin(avatars, opponents, states, lined, entries, 2 * k);
      var v := Origin(avatars, opponents, states, lined, entries, 2 * k + 1);
    }
  }

  /** From the opponent list of the matching to a stage ready to fight. `summoned` are the avatars
      in the order of the list. */
  method Enter(opponents: seq<int>, players: map<nat, Player>, round: nat, draws: EntryDraws)
      returns (c: Cast, ghost summoned: seq<BattleAvatar>, ghost entries: seq<int>)
    requires Opponents(opponents) && Roster(players, opponents)
    ensures |summoned| == |opponents| && |opponents| % 2 == 0 && AllPrepared(summoned, opponents, players, round, draws)
    ensures Arranged(summoned, opponents, States(summoned), c.avatars, entries)
    ensures forall k :: 0 <= k < |summoned| / 2 ==> OutIfLeft(summoned, opponents, players, k)
    ensures Roster(players, entries) && |c.avatars| == |entries| && c == CastOf(c.avatars, entries, players)
    ensures Casting(c) && Ready(c) && CreepsHaveNoClient(c, BattleRules.Battle) && fresh(c.avatars) && fresh(summoned)
    ensures forall i :: 0 <= i < |c.avatars| ==> Fitted(c.avatars[i], players[Fighter(entries[i])], entries[i] < 0, round)
  {
    hide Newly, SixKnown, Young, Opponents, Prepared, PairArranged, OutIfLeft, Casting, Ready;
    assert |opponents| % 2 == 0 by { EvenList(opponents); }
    var avatars := Summon(opponents, players, round);
    PrepareAll(avatars, opponents, players, round, draws);
    var lined, order := ArrangePrepared(avatars, opponents, players, round, draws);
    ghost var states := States(avatars);
    ArrangedOpponents(avatars, opponents, states, lined, order);
    RosterKept(avatars, opponents, states, lined, order, players);
    LinedUp(avatars, opponents, states, lined, order, players, round, draws);
    ReadyToFight(lined, order, players);
    c, summoned, entries := CastOf(lined, order, players), avatars, order;
  }

  lemma FlagIsFree(s: Stats, player: Player, isGhost: bool, round: nat, isFinish: bool)
    ensures FittedStats(s.(role := s.role.(isFinish := isFinish)), player, isGhost, round) == FittedStats(s, player, isGhost, round)
  {
  }

  /** Arranging leaves everybody prepared. */
  method ArrangePrepared(avatars: seq<BattleAvatar>, opponents: seq<int>, players: map<nat, Player>, ghost round: nat, ghost draws: EntryDraws)
      returns (lined: seq<BattleAvatar>, entries: seq<int>)
    requires |avatars| == |opponents| && |opponents| % 2 == 0 && Roster(players, opponents) && Apart(avatars)
    requires AllPrepared(avatars, opponents, players, round, draws) && forall i :: 0 <= i < |avatars| ==> !avatars[i].mIsFinish
    modifies avatars`mIsFinish
    ensures AllPrepared(avatars, opponents, players, round, draws) && Arranged(avatars, opponents, States(avatars), lined, entries)
    ensures forall k :: 0 <= k < |avatars| / 2 ==> OutIfLeft(avatars, opponents, players, k)
  {
    hide SixKnown, GearFor, BurgerOf, OutIfLeft, PairArranged, FittedStats, Known, Draws.IsOrder, BattleAvatar.BodyView,
         BattleAvatar.PowerView, BattleAvatar.ReactionView, BattleAvatar.WardView, BattleAvatar.TallyView;
    lined, entries := Arrange(avatars, opponents, players);
    forall i | 0 <= i < |avatars|
      ensures Prepared(avatars[i], opponents, players, round, draws, i)
    {
      assert old(Prepared(avatars[i], opponents, players, round, draws, i));
      var s := old(avatars[i].View());
      assert avatars[i].View() == s.(role := s.role.(isFinish := avatars[i].mIsFinish));
      FlagIsFree(s, players[Fighter(opponents[i])], opponents[i] < 0, round, avatars[i].mIsFinish);
    }
  }

  lemma EvenList(opponents: seq<int>)
    requires Opponents(opponents)
    ensures |opponents| % 2 == 0
  {
  }

  // ---- The battle ----

  ghost function ClientsOf(players: map<nat, Player>): set<Clients.Client> {
    set a | a in players :: players[a].client
  }

  /** The orders the avatars of a stage came with. */
  ghost function SlotOrders(c: Cast): seq<seq<nat>> { seq(|c.avatars|, _ => SLOT_ORDER) }

  /** The stage of a cast, seen from the clients. */
  method FightOut(c: Cast, round: nat, draws: (nat, nat, nat) -> nat, closes: nat -> bool) returns (completed: bool, ghost course: Course)
    requires Casting(c) && Ready(c) && CreepsHaveNoClient(c, BattleRules.Battle) && Kept(c) == SlotOrders(c)
    modifies c.avatars, c.clients
    ensures StageGood(c, course) && AllScheduled(c, course, Plan(draws, SlotOrders(c)))
    ensures course.start == old(Starts(c)) && Lasts(c, course, closes, completed)
    ensures forall i :: 0 <= i < |c.clients| && !c.ghosts[i] ==> Settles(c, i, round, completed)
  {
    hide Casting, Ready, StageGood, AllScheduled, Settles, HurtAtMostOnce, HurtExactly, HealthPaid;
    assert |c.ghosts| == |c.clients| by { CastShape(c); }
    completed, course := Stage(c, BattleRules.Battle, round, draws, closes);
    forall i | 0 <= i < |c.clients| && !c.ghosts[i]
      ensures Settles(c, i, round, completed)
    {
      OneAccount(c, i, round, completed);
    }
  }

  /** A real avatar's client has paid once at most, what it owes; after a stage that ran to its end
      it has paid exactly if the avatar is at zero or its fight undecided, unless it has left. */
  twostate predicate Settles(c: Cast, i: nat, round: nat, completed: bool)
    requires Casting(c) && i < |c.clients|
    reads c.clients[i], c.avatars[i]
  {
    c.clients[i] != null && PaidOnce(c.clients[i]) &&
    PaysOnce(c.clients[i], BeatenDue(c, i, round), 10 + 2 * round, c.avatars[i]) &&
    (completed && c.clients[i].mInRoom ==> PaidExactly(c.clients[i], c.avatars[i].mHp == 0 || !c.avatars[i].mIsFinish))
  }

  /** Where the i-th avatar started. */
  function StartOf(start: seq<BattleRules.Pair>, i: nat): Stats
    requires i / 2 < |start|
  {
    if i % 2 == 0 then start[i / 2].first else start[i / 2].second
  }

  /** A whole battle: however the opponents were matched, whoever leaves, whatever the draws,
      every player pays at most once, although it may fight twice, once as a ghost; after a
      battle that ran to its end a player still in the room has paid exactly if its own avatar
      fell to zero or its fight was undecided. Who paid paid for the winner's relics and the
      round, or the bell's ten and the round. Every fight keeps to the schedule of its draws. */
  method Battle(opponents: seq<int>, players: map<nat, Player>, round: nat, entering: EntryDraws, draws: (nat, nat, nat) -> nat, closes: nat -> bool)
      returns (completed: bool, c: Cast, ghost entries: seq<int>, ghost course: Course)
    requires Opponents(opponents) && Roster(players, opponents)
    modifies ClientsOf(players)
    ensures Roster(players, entries) && |c.avatars| == |entries| && fresh(c.avatars) && Casting(c) && StageGood(c, course)
    ensures AllScheduled(c, course, Plan(draws, SlotOrders(c))) && Lasts(c, course, closes, completed)
    ensures |course.start| == |entries| / 2 && |entries| % 2 == 0
    ensures forall i :: 0 <= i < |entries| ==> FittedStats(StartOf(course.start, i), players[Fighter(entries[i])], entries[i] < 0, round)
    ensures forall i :: 0 <= i < |entries| && entries[i] >= 0 ==>
              PaidOnce(players[Fighter(entries[i])].client) &&
              PaysOnce(players[Fighter(entries[i])].client, BeatenDue(c, i, round), 10 + 2 * round, c.avatars[i])
    ensures completed ==>
              forall i :: 0 <= i < |entries| && entries[i] >= 0 && players[Fighter(entries[i])].client.mInRoom ==>
                PaidExactly(players[Fighter(entries[i])].client, c.avatars[i].mHp == 0 || !c.avatars[i].mIsFinish)
  {
    hide SixKnown, Opponents, Casting, Ready, StageGood, Arranged, OutIfLeft, AllPrepared, AllScheduled, BeatenDue, Lasts, FittedStats, BattleAvatar.View;
    ghost var summoned;
    c, summoned, entries := Enter(opponents, players, round, entering);
    ListsAgree(c, entries, players);
    AllStartFitted(c, entries, players, round);
    completed, course := FightOut(c, round, draws, closes);
    forall i | 0 <= i < |entries| && entries[i] >= 0
      ensures PaidOnce(players[Fighter(entries[i])].client) &&
              PaysOnce(players[Fighter(entries[i])].client, BeatenDue(c, i, round), 10 + 2 * round, c.avatars[i])
      ensures completed && players[Fighter(entries[i])].client.mInRoom ==>
                PaidExactly(players[Fighter(entries[i])].client, c.avatars[i].mHp == 0 || !c.avatars[i].mIsFinish)
    {
      assert c.clients[i] == players[Fighter(entries[i])].client && !c.ghosts[i];
    }
  }

  /** What a stage did to the client of one real avatar. */
  twostate lemma OneAccount(c: Cast, new i: nat, new round: nat, new completed: bool)
    requires Casting(c) && i < |c.clients| && !c.ghosts[i]
    requires HurtAtMostOnce(c) && HealthPaid(c, round) && (completed ==> HurtExactly(c))
    ensures Settles(c, i, round, completed)
  {
    hide PaysOnce, BeatenDue;
  }

  twostate predicate PaidOnce(client: Clients.Client)
    reads client
  {
    old(client.damageCalls) <= client.damageCalls <= old(client.damageCalls) + 1
  }

  twostate predicate PaidExactly(client: Clients.Client, lost: bool)
    reads client
  {
    client.damageCalls == old(client.damageCalls) + (if lost then 1 else 0)
  }

  lemma AllStartFitted(c: Cast, entries: seq<int>, players: map<nat, Player>, round: nat)
    requires Casting(c) && |c.avatars| == |entries| && Roster(players, entries)
    requires forall i :: 0 <= i < |c.avatars| ==> Fitted(c.avatars[i], players[Fighter(entries[i])], entries[i] < 0, round)
    ensures Kept(c) == SlotOrders(c) && |entries| % 2 == 0
    ensures forall i :: 0 <= i < |entries| ==> FittedStats(StartOf(Starts(c), i), players[Fighter(entries[i])], entries[i] < 0, round)
  {
    hide FittedStats, BattleAvatar.View, SixKnown;
    forall i | 0 <= i < |entries|
      ensures FittedStats(StartOf(Starts(c), i), players[Fighter(entries[i])], entries[i] < 0, round)
    {
      assert Fitted(c.avatars[i], players[Fighter(entries[i])], entries[i] < 0, round);
      assert i == 2 * (i / 2) || i == 2 * (i / 2) + 1;
    }
  }

  lemma ListsAgree(c: Cast, entries: seq<int>, players: map<nat, Player>)
    requires |c.avatars| == |entries| && Roster(players, entries) && c == CastOf(c.avatars, entries, players)
    ensures |c.clients| == |c.ghosts| == |entries| && forall i :: 0 <= i < |entries| ==> Fighter(entries[i]) in players
    ensures forall i :: 0 <= i < |entries| ==> c.clients[i] == players[Fighter(entries[i])].client && c.ghosts[i] == (entries[i] < 0)
    ensures forall i :: 0 <= i < |entries| ==> c.clients[i] in ClientsOf(players)
  {
  }
}

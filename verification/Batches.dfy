/** The batches a room of at most eight clients sends in one piece fit the send buffer. */
module Batches {
  import opened Basics
  import opened Framing
  import opened Packets
  import BattleRules

  function SizeOf(batch: seq<Message>): nat {
    if batch == [] then 0 else DeclaredSize(batch[0]) + SizeOf(batch[1..])
  }

  function Concat(parts: seq<seq<Message>>): seq<Message> {
    if parts == [] then [] else parts[0] + Concat(parts[1..])
  }

  lemma {:induction false} SizeAppend(a: seq<Message>, b: seq<Message>)
    ensures SizeOf(a + b) == SizeOf(a) + SizeOf(b)
  {
    hide DeclaredSize;
    if a == [] {
      assert a + b == b;
    } else {
      SizeAppend(a[1..], b);
      assert (a + b)[1..] == a[1..] + b;
    }
  }

  lemma {:induction false} SizeOfParts(parts: seq<seq<Message>>, limit: nat)
    requires forall i :: 0 <= i < |parts| ==> SizeOf(parts[i]) <= limit
    ensures SizeOf(Concat(parts)) <= limit * |parts|
  {
    hide SizeOf;
    if parts != [] {
      SizeOfParts(parts[1..], limit);
      SizeAppend(parts[0], Concat(parts[1..]));
    } else {
      NoSize();
    }
  }

  lemma NoSize()
    ensures SizeOf([]) == 0
  {
  }

  lemma {:induction false} SizeOfEach(batch: seq<Message>, limit: nat)
    requires forall i :: 0 <= i < |batch| ==> DeclaredSize(batch[i]) <= limit
    ensures SizeOf(batch) <= limit * |batch|
  {
    hide DeclaredSize;
    if batch != [] {
      SizeOfEach(batch[1..], limit);
    }
  }

  /** The bytes of a batch are the declared sizes of its packets together. */
  lemma {:induction false} BatchBytes(batch: seq<Message>)
    requires AllWellTyped(batch)
    ensures |Flatten(EncodeAll(batch))| == SizeOf(batch)
  {
    hide DeclaredSize, Encode, WellTyped;
    if batch != [] {
      EncodeIsFrame(batch[0]);
      BatchBytes(batch[1..]);
      assert EncodeAll(batch)[1..] == EncodeAll(batch[1..]);
    }
  }

  // ---- The batches ----

  datatype CharacterReport = CharacterReport(networkID: nat, hp: nat, avatarHp: nat, slots: seq<SlotItem>, tickets: nat)

  function CharacterPart(r: CharacterReport): seq<Message> {
    [UpdateCharacterInfo(r.networkID, r.hp, r.avatarHp, r.slots), SetItemTicket(r.networkID, 0, r.tickets)]
  }

  /** Entering the ready stage; the opponents are announced before a battle only. */
  function ReadyBatch(isNextStageBattle: bool, opponents: seq<nat>, time: nat, clients: seq<CharacterReport>): seq<Message> {
    (if isNextStageBattle then [BattleOpponents(opponents)] else []) +
    ([SetReadyTime(time), Notification(0, 5)] +
     Concat(seq(|clients|, i requires 0 <= i < |clients| => CharacterPart(clients[i]))))
  }

  /** Entering a battle or creep stage: what the hamburgers and doctor's tools of each avatar
      became, then everybody's numbers. */
  function EntranceBatch(head: seq<Message>, specials: seq<seq<Message>>, avatars: seq<AvatarInfo>): seq<Message> {
    head + (Concat(specials) + Concat(seq(|avatars|, i requires 0 <= i < |avatars| => [BattleAvatarInfo(avatars[i])])))
  }

  const INIT_BATTLE_SLOT: nat := 11
  const SET_DEFAULT_USING_ITEM: nat := 16

  function Notifications(networkIDs: seq<nat>, notificationType: nat): seq<Message> {
    seq(|networkIDs|, i requires 0 <= i < |networkIDs| => Notification(networkIDs[i], notificationType))
  }

  /** The end of the ready stage: who was equipped by default, then everybody's character. */
  function ReadyEndBatch(defaulted: seq<nat>, clients: seq<CharacterReport>): seq<Message> {
    Notifications(defaulted, SET_DEFAULT_USING_ITEM) +
    seq(|clients|, i requires 0 <= i < |clients| => CharacterPart(clients[i])[0])
  }

  /** The slots of every fighting avatar are reset as a cycle begins; a ghost goes by the
      complement of its id. */
  function ResetBatch(fighting: seq<nat>): seq<Message> { Notifications(fighting, INIT_BATTLE_SLOT) }

  predicate Special(m: Message) { m.SetHamburgerType? || m.DoctorToolInfo? }

  /** One turn; in a creep stage a ticket may be rewarded at either check. */
  datatype TurnReport = TurnReport(early: seq<Message>, networkID: nat, slot: nat, me: AvatarInfo, enemy: AvatarInfo, late: seq<Message>)

  /** One ticket packet for each reward that is reached. */
  ghost predicate Tickets(messages: seq<Message>, reached: nat) {
    |messages| == reached && forall i :: 0 <= i < |messages| ==> messages[i].SetItemTicket?
  }

  /** What the checks of this move write. */
  ghost predicate Rewarding(early: seq<Message>, late: seq<Message>, rules: BattleRules.Rules, p: BattleRules.Pair, m: BattleRules.Move)
    requires BattleRules.KnownMove(m) && BattleRules.Fighting(p)
  {
    Tickets(early, if rules.Creep? then BattleRules.EarlyRewards(p, m) else 0) &&
    Tickets(late, if rules.Creep? then BattleRules.LateRewards(p, m) else 0)
  }

  ghost predicate ReportsTurn(r: TurnReport, rules: BattleRules.Rules) {
    exists p, m :: BattleRules.KnownMove(m) && BattleRules.Fighting(p) && Rewarding(r.early, r.late, rules, p, m)
  }

  ghost predicate ReportsCycleEnd(r: CycleReport, rules: BattleRules.Rules) {
    exists p, m :: BattleRules.KnownMove(m) && BattleRules.Fighting(p) && m.EndCycle? && Rewarding([], r.late, rules, p, m)
  }

  function TurnPart(r: TurnReport): seq<Message> {
    r.early + ([ActiveItem(r.networkID, r.slot), BattleAvatarInfo(r.me), BattleAvatarInfo(r.enemy)] + r.late)
  }

  function Goodbyes(leavers: seq<nat>): seq<Message> {
    Notifications(leavers, 3)
  }

  function RoundBatch(turns: seq<TurnReport>, time: nat, leavers: seq<nat>): seq<Message> {
    Concat(seq(|turns|, i requires 0 <= i < |turns| => TurnPart(turns[i]))) + ([BattleTimeInfo(time)] + Goodbyes(leavers))
  }

  /** The end of a cycle: both avatars of every fighting pair. */
  datatype CycleReport = CycleReport(me: AvatarInfo, enemy: AvatarInfo, late: seq<Message>)

  function CyclePart(r: CycleReport): seq<Message> { [BattleAvatarInfo(r.me), BattleAvatarInfo(r.enemy)] + r.late }

  function CycleBatch(pairs: seq<CycleReport>, leavers: seq<nat>): seq<Message> {
    Concat(seq(|pairs|, i requires 0 <= i < |pairs| => CyclePart(pairs[i]))) + Goodbyes(leavers)
  }

  // ---- They fit ----

  lemma Size1(a: Message)
    ensures SizeOf([a]) == DeclaredSize(a)
  {
  }

  lemma Size2(a: Message, b: Message)
    ensures SizeOf([a, b]) == DeclaredSize(a) + DeclaredSize(b)
  {
    hide DeclaredSize;
    assert [a, b][1..] == [b];
    Size1(b);
  }

  lemma Size3(a: Message, b: Message, c: Message)
    ensures SizeOf([a, b, c]) == DeclaredSize(a) + DeclaredSize(b) + DeclaredSize(c)
  {
    hide DeclaredSize;
    assert [a, b, c][1..] == [b, c];
    Size2(b, c);
  }

  lemma ReadyFits(isNextStageBattle: bool, opponents: seq<nat>, time: nat, clients: seq<CharacterReport>)
    requires |clients| <= MAX_ROOM_PLAYER
    ensures SizeOf(ReadyBatch(isNextStageBattle, opponents, time, clients)) <= 463
  {
    hide SizeOf, Concat;
    var parts := seq(|clients|, i requires 0 <= i < |clients| => CharacterPart(clients[i]));
    forall i | 0 <= i < |parts|
      ensures SizeOf(parts[i]) <= 52
    {
      Size2(CharacterPart(clients[i])[0], CharacterPart(clients[i])[1]);
    }
    SizeOfParts(parts, 52);
    Size2(SetReadyTime(time), Notification(0, 5));
    Size1(BattleOpponents(opponents));
    NoSize();
    var rest := [SetReadyTime(time), Notification(0, 5)];
    SizeAppend(rest, Concat(parts));
    SizeAppend(if isNextStageBattle then [BattleOpponents(opponents)] else [], rest + Concat(parts));
  }

  lemma AvatarsSize(avatars: seq<AvatarInfo>)
    ensures SizeOf(Concat(seq(|avatars|, i requires 0 <= i < |avatars| => [BattleAvatarInfo(avatars[i])]))) <= 33 * |avatars|
  {
    hide SizeOf, Concat;
    var parts := seq(|avatars|, i requires 0 <= i < |avatars| => [BattleAvatarInfo(avatars[i])]);
    forall i | 0 <= i < |parts|
      ensures SizeOf(parts[i]) <= 33
    {
      Size1(BattleAvatarInfo(avatars[i]));
    }
    SizeOfParts(parts, 33);
  }

  /** Eight clients make eight avatars in a battle and sixteen in a creep stage; each of the
      eight players has at most six special relics. */
  lemma EntranceFits(head: seq<Message>, specials: seq<seq<Message>>, avatars: seq<AvatarInfo>)
    requires |head| <= 2 && forall i :: 0 <= i < |head| ==> head[i].Notification? || head[i].CreepStageInfo?
    requires |specials| <= MAX_ROOM_PLAYER && |avatars| <= 2 * MAX_ROOM_PLAYER
    requires forall i :: 0 <= i < |specials| ==> |specials[i]| <= 6 && forall j :: 0 <= j < |specials[i]| ==> Special(specials[i][j])
    ensures SizeOf(EntranceBatch(head, specials, avatars)) <= 1024
  {
    hide SizeOf, Concat;
    SizeOfEach(head, 8);
    forall i | 0 <= i < |specials|
      ensures SizeOf(specials[i]) <= 60
    {
      SizeOfEach(specials[i], 10);
    }
    SizeOfParts(specials, 60);
    AvatarsSize(avatars);
    var infos := Concat(seq(|avatars|, i requires 0 <= i < |avatars| => [BattleAvatarInfo(avatars[i])]));
    SizeAppend(Concat(specials), infos);
    SizeAppend(head, Concat(specials) + infos);
  }

  lemma NotificationsSize(networkIDs: seq<nat>, notificationType: nat)
    ensures SizeOf(Notifications(networkIDs, notificationType)) <= 8 * |networkIDs|
  {
    hide SizeOf;
    SizeOfEach(Notifications(networkIDs, notificationType), 8);
  }

  /** Everybody may be equipped by default. */
  lemma ReadyEndFits(defaulted: seq<nat>, clients: seq<CharacterReport>)
    requires |defaulted| <= |clients| <= MAX_ROOM_PLAYER
    ensures SizeOf(ReadyEndBatch(defaulted, clients)) <= 408
  {
    hide SizeOf;
    NotificationsSize(defaulted, SET_DEFAULT_USING_ITEM);
    var characters := seq(|clients|, i requires 0 <= i < |clients| => CharacterPart(clients[i])[0]);
    SizeOfEach(characters, 43);
    SizeAppend(Notifications(defaulted, SET_DEFAULT_USING_ITEM), characters);
  }

  lemma ResetFits(fighting: seq<nat>)
    requires |fighting| <= 2 * MAX_ROOM_PLAYER
    ensures SizeOf(ResetBatch(fighting)) <= 128
  {
    NotificationsSize(fighting, INIT_BATTLE_SLOT);
  }

  /** The bell sends nothing but goodbyes. */
  lemma GoodbyesFit(leavers: seq<nat>)
    requires |leavers| <= MAX_ROOM_PLAYER
    ensures SizeOf(Goodbyes(leavers)) <= 64
  {
    NotificationsSize(leavers, 3);
  }

  /** A move reaches one reward at most, at whichever check. */
  lemma OneTicket(early: seq<Message>, late: seq<Message>, rules: BattleRules.Rules, p: BattleRules.Pair, m: BattleRules.Move)
    requires BattleRules.KnownMove(m) && BattleRules.Fighting(p) && Rewarding(early, late, rules, p, m)
    ensures SizeOf(early) + SizeOf(late) <= 9
  {
    hide SizeOf, BattleRules.EarlyRewards, BattleRules.LateRewards, BattleRules.Step;
    if rules.Creep? {
      BattleRules.StepRewards(rules, p, m);
    }
    SizeOfEach(early, 9);
    SizeOfEach(late, 9);
  }

  lemma TurnSize(r: TurnReport, rules: BattleRules.Rules)
    requires ReportsTurn(r, rules)
    ensures SizeOf(TurnPart(r)) <= 83
  {
    hide SizeOf, Rewarding;
    var p, m :| BattleRules.KnownMove(m) && BattleRules.Fighting(p) && Rewarding(r.early, r.late, rules, p, m);
    OneTicket(r.early, r.late, rules, p, m);
    var middle := [ActiveItem(r.networkID, r.slot), BattleAvatarInfo(r.me), BattleAvatarInfo(r.enemy)];
    Size3(middle[0], middle[1], middle[2]);
    SizeAppend(middle, r.late);
    SizeAppend(r.early, middle + r.late);
  }

  lemma RoundFits(rules: BattleRules.Rules, turns: seq<TurnReport>, time: nat, leavers: seq<nat>)
    requires |turns| <= MAX_ROOM_PLAYER && |leavers| <= MAX_ROOM_PLAYER
    requires forall i :: 0 <= i < |turns| ==> ReportsTurn(turns[i], rules)
    ensures SizeOf(RoundBatch(turns, time, leavers)) <= 732
  {
    hide SizeOf, Concat, TurnPart, Goodbyes, ReportsTurn;
    var parts := seq(|turns|, i requires 0 <= i < |turns| => TurnPart(turns[i]));
    forall i | 0 <= i < |parts|
      ensures SizeOf(parts[i]) <= 83
    {
      TurnSize(turns[i], rules);
    }
    SizeOfParts(parts, 83);
    Size1(BattleTimeInfo(time));
    GoodbyesFit(leavers);
    SizeAppend([BattleTimeInfo(time)], Goodbyes(leavers));
    SizeAppend(Concat(parts), [BattleTimeInfo(time)] + Goodbyes(leavers));
  }

  lemma CycleSize(r: CycleReport, rules: BattleRules.Rules)
    requires ReportsCycleEnd(r, rules)
    ensures SizeOf(CyclePart(r)) <= 75
  {
    hide SizeOf, Rewarding;
    var p, m :| BattleRules.KnownMove(m) && BattleRules.Fighting(p) && m.EndCycle? && Rewarding([], r.late, rules, p, m);
    OneTicket([], r.late, rules, p, m);
    Size2(BattleAvatarInfo(r.me), BattleAvatarInfo(r.enemy));
    SizeAppend([BattleAvatarInfo(r.me), BattleAvatarInfo(r.enemy)], r.late);
  }

  lemma CycleFits(rules: BattleRules.Rules, pairs: seq<CycleReport>, leavers: seq<nat>)
    requires |pairs| <= MAX_ROOM_PLAYER && |leavers| <= MAX_ROOM_PLAYER
    requires forall i :: 0 <= i < |pairs| ==> ReportsCycleEnd(pairs[i], rules)
    ensures SizeOf(CycleBatch(pairs, leavers)) <= 664
  {
    hide SizeOf, Concat, CyclePart, Goodbyes, ReportsCycleEnd;
    var parts := seq(|pairs|, i requires 0 <= i < |pairs| => CyclePart(pairs[i]));
    forall i | 0 <= i < |parts|
      ensures SizeOf(parts[i]) <= 75
    {
      CycleSize(pairs[i], rules);
    }
    SizeOfParts(parts, 75);
    GoodbyesFit(leavers);
    SizeAppend(Concat(parts), Goodbyes(leavers));
  }

  /** Any of these batches, once written, is no longer than the send buffer, and the client's
      splitting gives back exactly its packets. */
  lemma BatchArrives(batch: seq<Message>)
    requires AllWellTyped(batch) && SizeOf(batch) <= MAX_PACKET_SIZE
    ensures |Flatten(EncodeAll(batch))| <= MAX_PACKET_SIZE
    ensures WellFormed(Flatten(EncodeAll(batch)) + []) && Split(Flatten(EncodeAll(batch)) + []) == Parsed(EncodeAll(batch), [])
  {
    BatchBytes(batch);
    BatchRoundTrip(batch);
  }
}

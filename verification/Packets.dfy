/** The packets the server writes: their packed layouts, their size fields, and the batches a
    room sends in one piece. */
module Packets {
  import opened Basics
  import opened Framing
  import opened ByteGrowth
  import opened MemoryStream

  const MAX_USER_NAME_LENGTH: nat := 11
  const SLOTS: nat := 16
  const QUEUE_LENGTH: nat := 60

  // ---- Fields ----

  /** A field of `width` bytes; a larger value is truncated by the cast into the field. */
  datatype Field = Field(width: nat, value: nat)

  function Power256(w: nat): (p: nat)
    ensures p >= 1
  {
    if w == 0 then 1 else 256 * Power256(w - 1)
  }

  function LittleEndian(width: nat, value: nat): (bytes: seq<Byte>)
    ensures |bytes| == width
  {
    if width == 0 then [] else [value % 256] + LittleEndian(width - 1, value / 256)
  }

  function Value(bytes: seq<Byte>): nat {
    if bytes == [] then 0 else bytes[0] + 256 * Value(bytes[1..])
  }

  lemma {:induction false} FieldRoundTrip(width: nat, value: nat)
    requires value < Power256(width)
    ensures Value(LittleEndian(width, value)) == value
  {
    if width > 0 {
      assert value / 256 < Power256(width - 1);
      FieldRoundTrip(width - 1, value / 256);
      assert LittleEndian(width, value)[1..] == LittleEndian(width - 1, value / 256);
    }
  }

  function U8(v: nat): Field { Field(1, v) }
  function U16(v: nat): Field { Field(2, v) }
  function I32(v: nat): Field { Field(4, v) }

  function Width(fields: seq<Field>): nat {
    if fields == [] then 0 else fields[0].width + Width(fields[1..])
  }

  /** What writing the fields one after the other appends. */
  function Bytes(fields: seq<Field>): (bytes: seq<Byte>)
    ensures |bytes| == Width(fields)
  {
    if fields == [] then [] else LittleEndian(fields[0].width, fields[0].value) + Bytes(fields[1..])
  }

  /** Reading a structure with the same widths off the bytes. */
  function ReadFields(bytes: seq<Byte>, widths: seq<nat>): seq<Field> {
    if widths == [] || widths[0] > |bytes| then []
    else [Field(widths[0], Value(bytes[..widths[0]]))] + ReadFields(bytes[widths[0]..], widths[1..])
  }

  function Widths(fields: seq<Field>): seq<nat> {
    if fields == [] then [] else [fields[0].width] + Widths(fields[1..])
  }

  ghost predicate InRange(fields: seq<Field>) {
    forall i :: 0 <= i < |fields| ==> fields[i].value < Power256(fields[i].width)
  }

  lemma ReadFirst(width: nat, widths: seq<nat>, first: seq<Byte>, more: seq<Byte>)
    requires |first| == width
    ensures ReadFields(first + more, [width] + widths) == [Field(width, Value(first))] + ReadFields(more, widths)
  {
    hide Value;
    assert ([width] + widths)[1..] == widths;
    assert (first + more)[..width] == first && (first + more)[width..] == more;
  }

  /** A receiver that lays the same packed structure over the bytes sees the values written. */
  lemma {:induction false} FieldsRoundTrip(fields: seq<Field>, rest: seq<Byte>)
    requires InRange(fields)
    ensures ReadFields(Bytes(fields) + rest, Widths(fields)) == fields
  {
    hide LittleEndian, Value, Power256, ReadFields;
    if fields != [] {
      var first := LittleEndian(fields[0].width, fields[0].value);
      FieldRoundTrip(fields[0].width, fields[0].value);
      FieldsRoundTrip(fields[1..], rest);
      ReadFirst(fields[0].width, Widths(fields[1..]), first, Bytes(fields[1..]) + rest);
      assert Bytes(fields) + rest == first + (Bytes(fields[1..]) + rest);
    } else {
      ReadNothing(rest);
    }
  }

  lemma ReadNothing(rest: seq<Byte>)
    ensures ReadFields(Bytes([]) + rest, Widths([])) == []
  {
  }

  lemma {:induction false} WidthAppend(a: seq<Field>, b: seq<Field>)
    ensures Width(a + b) == Width(a) + Width(b)
  {
    if a == [] {
      assert a + b == b;
    } else {
      WidthAppend(a[1..], b);
      assert (a + b)[1..] == a[1..] + b;
    }
  }

  /** An array of fields of one width. */
  function ArrayOf(width: nat, values: seq<nat>): (fields: seq<Field>)
    ensures |fields| == |values|
  {
    seq(|values|, i requires 0 <= i < |values| => Field(width, values[i]))
  }

  lemma {:induction false} ArrayWidth(width: nat, values: seq<nat>)
    ensures Width(ArrayOf(width, values)) == width * |values|
  {
    if values != [] {
      ArrayWidth(width, values[1..]);
      assert ArrayOf(width, values)[1..] == ArrayOf(width, values[1..]);
    }
  }

  function Rows(rows: seq<seq<Field>>): seq<Field> {
    if rows == [] then [] else rows[0] + Rows(rows[1..])
  }

  lemma {:induction false} RowsWidth(rows: seq<seq<Field>>, w: nat)
    requires forall i :: 0 <= i < |rows| ==> Width(rows[i]) == w
    ensures Width(Rows(rows)) == w * |rows|
  {
    hide Width;
    if rows != [] {
      WidthAppend(rows[0], Rows(rows[1..]));
      RowsWidth(rows[1..], w);
    } else {
      NoWidth();
    }
  }

  lemma NoWidth()
    ensures Width([]) == 0
  {
  }

  lemma Width1(a: Field)
    ensures Width([a]) == a.width
  {
  }

  lemma Width2(a: Field, b: Field)
    ensures Width([a, b]) == a.width + b.width
  {
    assert [a, b][1..] == [b];
    Width1(b);
  }

  lemma Width3(a: Field, b: Field, c: Field)
    ensures Width([a, b, c]) == a.width + b.width + c.width
  {
    assert [a, b, c][1..] == [b, c];
    Width2(b, c);
  }

  lemma Width4(a: Field, b: Field, c: Field, d: Field)
    ensures Width([a, b, c, d]) == a.width + b.width + c.width + d.width
  {
    assert [a, b, c, d][1..] == [b, c, d];
    Width3(b, c, d);
  }

  // ---- Packets ----

  datatype User = User(networkID: nat, name: seq<nat>)

  datatype ItemQueue = ItemQueue(networkID: nat, items: seq<nat>)

  datatype SlotItem = SlotItem(code: nat, upgrade: nat)

  datatype AvatarInfo = AvatarInfo(networkID: nat, playerHp: nat, maxHp: nat, hp: nat, firstAttackState: nat, offensePower: nat,
    defensive: nat, additionDefensive: nat, weakening: nat, bleeding: nat, reducedHealing: nat, isEffectHeal: nat, effectHeal: nat,
    isInstallBomb: nat, installBombDamage: nat, isIgnoreNextDamage: nat, canDefendNegativeEffect: nat,
    isCounterAttack: nat, counterAttackDamage: nat, isCounterHeal: nat, counterHeal: nat)

  datatype Message =
    | ConnectRoom(users: seq<User>)
    | StartMatching(networkID: nat, name: seq<nat>)
    | AddNewItem(networkID: nat, slot: nat, itemCode: nat)
    | ChangeItemSlot(networkID: nat, slot1: nat, slot2: nat)
    | UpgradeItem(networkID: nat, slot: nat, upgrade: nat)
    | ChangeCharacter(networkID: nat, characterType: nat)
    | BattleInfo(opponents: seq<nat>, queues: seq<ItemQueue>)
    | Notification(networkID: nat, notificationType: nat)
    | UseEmoticon(networkID: nat, emoticonType: nat)
    | UpdateCharacterInfo(networkID: nat, hp: nat, avatarHp: nat, slots: seq<SlotItem>)
    | SetChoiceCharacterTime(time: nat)
    | SetReadyTime(time: nat)
    | DropItem(networkID: nat, index: nat)
    | SetItemTicket(networkID: nat, ticketType: nat, count: nat)
    | ActiveItem(networkID: nat, slot: nat)
    | FadeIn(seconds: nat)
    | FadeOut(seconds: nat)
    | BattleOpponents(opponents: seq<nat>)
    | SetHamburgerType(networkID: nat, slot: nat, burgerType: nat)
    | MagicStickInfo(networkID: nat, isDamage: nat)
    | DoctorToolInfo(networkID: nat, slot: nat, itemType: nat, upgrade: nat)
    | CreepStageInfo(creepType: nat)
    | BattleAvatarInfo(info: AvatarInfo)
    | InventoryInfo(networkID: nat, slots: seq<SlotItem>)
    | MatchingInfo(matchingQueueCount: nat, connectionCount: nat)
    | BattleTimeInfo(time: nat)

  /** The type byte: the position in the enumeration; two of its entries are requests that only
      clients write. */
  function TypeOf(m: Message): nat {
    match m
    case ConnectRoom(_) => 0
    case StartMatching(_, _) => 1
    case AddNewItem(_, _, _) => 2
    case ChangeItemSlot(_, _, _) => 3
    case UpgradeItem(_, _, _) => 4
    case ChangeCharacter(_, _) => 5
    case BattleInfo(_, _) => 6
    case Notification(_, _) => 7
    case UseEmoticon(_, _) => 8
    case UpdateCharacterInfo(_, _, _, _) => 9
    case SetChoiceCharacterTime(_) => 10
    case SetReadyTime(_) => 11
    case DropItem(_, _) => 12
    case SetItemTicket(_, _, _) => 14
    case ActiveItem(_, _) => 15
    case FadeIn(_) => 16
    case FadeOut(_) => 17
    case BattleOpponents(_) => 18
    case SetHamburgerType(_, _, _) => 19
    case MagicStickInfo(_, _) => 20
    case DoctorToolInfo(_, _, _, _) => 22
    case CreepStageInfo(_) => 23
    case BattleAvatarInfo(_) => 24
    case InventoryInfo(_, _) => 25
    case MatchingInfo(_, _) => 26
    case BattleTimeInfo(_) => 27
  }

  /** The arrays of a structure have their declared lengths. */
  ghost predicate WellTyped(m: Message) {
    match m
    case ConnectRoom(users) => |users| == MAX_ROOM_PLAYER && forall i :: 0 <= i < |users| ==> |users[i].name| == MAX_USER_NAME_LENGTH
    case StartMatching(_, name) => |name| == MAX_USER_NAME_LENGTH
    case BattleInfo(opponents, queues) =>
      |opponents| == MAX_ROOM_PLAYER && |queues| == MAX_ROOM_PLAYER && forall i :: 0 <= i < |queues| ==> |queues[i].items| == QUEUE_LENGTH
    case UpdateCharacterInfo(_, _, _, slots) => |slots| == SLOTS
    case BattleOpponents(opponents) => |opponents| == MAX_ROOM_PLAYER
    case InventoryInfo(_, slots) => |slots| == SLOTS
    case _ => true
  }

  function UserRow(user: User): seq<Field> { [I32(user.networkID)] + ArrayOf(2, user.name) }
  function QueueRow(queue: ItemQueue): seq<Field> { [I32(queue.networkID)] + ArrayOf(1, queue.items) }
  function SlotRow(slot: SlotItem): seq<Field> { [U8(slot.code), U8(slot.upgrade)] }

  function UserRows(users: seq<User>): seq<seq<Field>> { seq(|users|, i requires 0 <= i < |users| => UserRow(users[i])) }
  function QueueRows(queues: seq<ItemQueue>): seq<seq<Field>> { seq(|queues|, i requires 0 <= i < |queues| => QueueRow(queues[i])) }
  function SlotRows(slots: seq<SlotItem>): seq<seq<Field>> { seq(|slots|, i requires 0 <= i < |slots| => SlotRow(slots[i])) }

  function AvatarRows(a: AvatarInfo): seq<seq<Field>> {
    [[I32(a.networkID), U8(a.playerHp), U16(a.maxHp), U16(a.hp)],
     [U8(a.firstAttackState), U8(a.offensePower), Field(4, a.defensive), U8(a.additionDefensive)],
     [U8(a.weakening), U16(a.bleeding), U8(a.reducedHealing)],
     [U8(a.isEffectHeal), U8(a.effectHeal), U8(a.isInstallBomb), U8(a.installBombDamage)],
     [U8(a.isIgnoreNextDamage), U8(a.canDefendNegativeEffect)],
     [U8(a.isCounterAttack), U8(a.counterAttackDamage), U8(a.isCounterHeal), U8(a.counterHeal)]]
  }

  /** What a packet writes after its header, in order. */
  function Fields(m: Message): seq<Field> {
    match m
    case ConnectRoom(users) => Rows(UserRows(users))
    case StartMatching(networkID, name) => [I32(networkID)] + ArrayOf(2, name)
    case AddNewItem(networkID, slot, itemCode) => [I32(networkID), U8(slot), U8(itemCode)]
    case ChangeItemSlot(networkID, slot1, slot2) => [I32(networkID), U8(slot1), U8(slot2)]
    case UpgradeItem(networkID, slot, upgrade) => [I32(networkID), U8(slot), U8(upgrade)]
    case ChangeCharacter(networkID, characterType) => [I32(networkID), U8(characterType)]
    case BattleInfo(opponents, queues) => ArrayOf(4, opponents) + Rows(QueueRows(queues))
    case Notification(networkID, notificationType) => [I32(networkID), U8(notificationType)]
    case UseEmoticon(networkID, emoticonType) => [I32(networkID), U8(emoticonType)]
    case UpdateCharacterInfo(networkID, hp, avatarHp, slots) => [I32(networkID), U16(hp), U16(avatarHp)] + Rows(SlotRows(slots))
    case SetChoiceCharacterTime(time) => [U8(time)]
    case SetReadyTime(time) => [U8(time)]
    case DropItem(networkID, index) => [I32(networkID), U8(index)]
    case SetItemTicket(networkID, ticketType, count) => [I32(networkID), U8(ticketType), U8(count)]
    case ActiveItem(networkID, slot) => [I32(networkID), U8(slot)]
    case FadeIn(seconds) => [U8(seconds)]
    case FadeOut(seconds) => [U8(seconds)]
    case BattleOpponents(opponents) => ArrayOf(4, opponents)
    case SetHamburgerType(networkID, slot, burgerType) => [I32(networkID), U8(slot), U8(burgerType)]
    case MagicStickInfo(networkID, isDamage) => [I32(networkID), U8(isDamage)]
    case DoctorToolInfo(networkID, slot, itemType, upgrade) => [I32(networkID), U8(slot), U8(itemType), U8(upgrade)]
    case CreepStageInfo(creepType) => [U8(creepType)]
    case BattleAvatarInfo(info) => Rows(AvatarRows(info))
    case InventoryInfo(networkID, slots) => [I32(networkID)] + Rows(SlotRows(slots))
    case MatchingInfo(matchingQueueCount, connectionCount) => [U8(matchingQueueCount), U16(connectionCount)]
    case BattleTimeInfo(time) => [U8(time)]
  }

  /** The size a packed structure declares, header included. */
  function DeclaredSize(m: Message): nat {
    match m
    case ConnectRoom(_) => 211
    case StartMatching(_, _) => 29
    case AddNewItem(_, _, _) | ChangeItemSlot(_, _, _) | UpgradeItem(_, _, _) => 9
    case SetItemTicket(_, _, _) | SetHamburgerType(_, _, _) => 9
    case ChangeCharacter(_, _) | Notification(_, _) | UseEmoticon(_, _) | DropItem(_, _) | ActiveItem(_, _) | MagicStickInfo(_, _) => 8
    case BattleInfo(_, _) => 547
    case UpdateCharacterInfo(_, _, _, _) => 43
    case SetChoiceCharacterTime(_) | SetReadyTime(_) | FadeIn(_) | FadeOut(_) | CreepStageInfo(_) | BattleTimeInfo(_) => 4
    case BattleOpponents(_) => 35
    case DoctorToolInfo(_, _, _, _) => 10
    case BattleAvatarInfo(_) => 33
    case InventoryInfo(_, _) => 39
    case MatchingInfo(_, _) => 6
  }

  lemma UsersWidth(users: seq<User>)
    requires |users| == MAX_ROOM_PLAYER && forall i :: 0 <= i < |users| ==> |users[i].name| == MAX_USER_NAME_LENGTH
    ensures Width(Rows(UserRows(users))) == 208
  {
    forall i | 0 <= i < |users|
      ensures Width(UserRow(users[i])) == 26
    {
      HeadedArray(users[i].networkID, 2, users[i].name);
    }
    RowsWidth(UserRows(users), 26);
  }

  lemma HeadedArray(networkID: nat, width: nat, values: seq<nat>)
    ensures Width([I32(networkID)] + ArrayOf(width, values)) == 4 + width * |values|
  {
    Width1(I32(networkID));
    ArrayWidth(width, values);
    WidthAppend([I32(networkID)], ArrayOf(width, values));
  }

  lemma QueuesWidth(queues: seq<ItemQueue>)
    requires |queues| == MAX_ROOM_PLAYER && forall i :: 0 <= i < |queues| ==> |queues[i].items| == QUEUE_LENGTH
    ensures Width(Rows(QueueRows(queues))) == 512
  {
    forall i | 0 <= i < |queues|
      ensures Width(QueueRow(queues[i])) == 64
    {
      HeadedArray(queues[i].networkID, 1, queues[i].items);
    }
    RowsWidth(QueueRows(queues), 64);
  }

  lemma SlotsWidth(slots: seq<SlotItem>)
    ensures Width(Rows(SlotRows(slots))) == 2 * |slots|
  {
    forall i | 0 <= i < |slots|
      ensures Width(SlotRow(slots[i])) == 2
    {
      Width2(U8(slots[i].code), U8(slots[i].upgrade));
    }
    RowsWidth(SlotRows(slots), 2);
  }

  lemma RowsCons(row: seq<Field>, rows: seq<seq<Field>>)
    ensures Width(Rows([row] + rows)) == Width(row) + Width(Rows(rows))
  {
    assert ([row] + rows)[1..] == rows;
    WidthAppend(row, Rows(rows));
  }

  lemma AvatarWidth(a: AvatarInfo)
    ensures Width(Rows(AvatarRows(a))) == 30
  {
    hide Width, Rows;
    var rows := AvatarRows(a);
    Width4(I32(a.networkID), U8(a.playerHp), U16(a.maxHp), U16(a.hp));
    Width4(U8(a.firstAttackState), U8(a.offensePower), Field(4, a.defensive), U8(a.additionDefensive));
    Width3(U8(a.weakening), U16(a.bleeding), U8(a.reducedHealing));
    Width4(U8(a.isEffectHeal), U8(a.effectHeal), U8(a.isInstallBomb), U8(a.installBombDamage));
    Width2(U8(a.isIgnoreNextDamage), U8(a.canDefendNegativeEffect));
    Width4(U8(a.isCounterAttack), U8(a.counterAttackDamage), U8(a.isCounterHeal), U8(a.counterHeal));
    assert rows == [rows[0]] + ([rows[1]] + ([rows[2]] + ([rows[3]] + ([rows[4]] + ([rows[5]] + [])))));
    RowsCons(rows[0], [rows[1]] + ([rows[2]] + ([rows[3]] + ([rows[4]] + ([rows[5]] + [])))));
    RowsCons(rows[1], [rows[2]] + ([rows[3]] + ([rows[4]] + ([rows[5]] + []))));
    RowsCons(rows[2], [rows[3]] + ([rows[4]] + ([rows[5]] + [])));
    RowsCons(rows[3], [rows[4]] + ([rows[5]] + []));
    RowsCons(rows[4], [rows[5]] + []);
    RowsCons(rows[5], []);
    EmptyRows();
  }

  lemma EmptyRows()
    ensures Width(Rows([])) == 0
  {
  }

  lemma SmallPackets(m: Message)
    requires WellTyped(m) && !m.ConnectRoom? && !m.BattleInfo? && !m.UpdateCharacterInfo? && !m.InventoryInfo? && !m.BattleAvatarInfo?
    ensures 3 + Width(Fields(m)) == DeclaredSize(m)
  {
    hide Width;
    match m
    case StartMatching(networkID, name) => HeadedArray(networkID, 2, name);
    case AddNewItem(a, b, c) => Width3(I32(a), U8(b), U8(c));
    case ChangeItemSlot(a, b, c) => Width3(I32(a), U8(b), U8(c));
    case UpgradeItem(a, b, c) => Width3(I32(a), U8(b), U8(c));
    case SetItemTicket(a, b, c) => Width3(I32(a), U8(b), U8(c));
    case SetHamburgerType(a, b, c) => Width3(I32(a), U8(b), U8(c));
    case ChangeCharacter(a, b) => Width2(I32(a), U8(b));
    case Notification(a, b) => Width2(I32(a), U8(b));
    case UseEmoticon(a, b) => Width2(I32(a), U8(b));
    case DropItem(a, b) => Width2(I32(a), U8(b));
    case ActiveItem(a, b) => Width2(I32(a), U8(b));
    case MagicStickInfo(a, b) => Width2(I32(a), U8(b));
    case SetChoiceCharacterTime(a) => Width1(U8(a));
    case SetReadyTime(a) => Width1(U8(a));
    case FadeIn(a) => Width1(U8(a));
    case FadeOut(a) => Width1(U8(a));
    case CreepStageInfo(a) => Width1(U8(a));
    case BattleTimeInfo(a) => Width1(U8(a));
    case BattleOpponents(opponents) => ArrayWidth(4, opponents);
    case DoctorToolInfo(a, b, c, d) => Width4(I32(a), U8(b), U8(c), U8(d));
    case MatchingInfo(a, b) => Width2(U8(a), U16(b));
  }

  /** Every packet writes exactly as many bytes as its structure declares. */
  lemma WritesDeclaredSize(m: Message)
    requires WellTyped(m)
    ensures 3 + Width(Fields(m)) == DeclaredSize(m) <= MAX_PACKET_SIZE
  {
    hide Width, Rows;
    match m
    case ConnectRoom(users) => UsersWidth(users);
    case BattleInfo(opponents, queues) =>
      ArrayWidth(4, opponents);
      QueuesWidth(queues);
      WidthAppend(ArrayOf(4, opponents), Rows(QueueRows(queues)));
    case UpdateCharacterInfo(networkID, hp, avatarHp, slots) =>
      Width3(I32(networkID), U16(hp), U16(avatarHp));
      SlotsWidth(slots);
      WidthAppend([I32(networkID), U16(hp), U16(avatarHp)], Rows(SlotRows(slots)));
    case InventoryInfo(networkID, slots) =>
      Width1(I32(networkID));
      SlotsWidth(slots);
      WidthAppend([I32(networkID)], Rows(SlotRows(slots)));
    case BattleAvatarInfo(info) => AvatarWidth(info);
    case _ => SmallPackets(m);
  }

  // ---- On the wire ----

  function Header(m: Message): seq<Field> { [U16(DeclaredSize(m)), U8(TypeOf(m))] }

  /** The bytes of a packet: the size field, the type, then the fields. */
  function Encode(m: Message): seq<Byte> { Bytes(Header(m) + Fields(m)) }

  lemma TwoBytes(v: nat)
    requires v < 65536
    ensures |LittleEndian(2, v)| == 2 && SizeField(LittleEndian(2, v)[0], LittleEndian(2, v)[1]) == v
  {
    assert LittleEndian(2, v) == [v % 256] + LittleEndian(1, v / 256);
    assert LittleEndian(1, v / 256) == [(v / 256) % 256] + LittleEndian(0, v / 256 / 256);
  }

  /** A written packet is a frame: its first two bytes say how long it is. */
  lemma EncodeIsFrame(m: Message)
    requires WellTyped(m)
    ensures |Encode(m)| == DeclaredSize(m) && IsFrame(Encode(m))
  {
    hide Fields, DeclaredSize, TypeOf, LittleEndian, WellTyped;
    WritesDeclaredSize(m);
    var header := Header(m);
    WidthAppend(header, Fields(m));
    Width2(header[0], header[1]);
    TwoBytes(DeclaredSize(m));
    var all := header + Fields(m);
    assert all[0] == header[0];
    assert Bytes(all) == LittleEndian(2, DeclaredSize(m)) + Bytes(all[1..]);
    SizePositive(m);
  }

  lemma SizePositive(m: Message)
    ensures 2 <= DeclaredSize(m)
  {
  }

  function EncodeAll(batch: seq<Message>): (frames: seq<seq<Byte>>)
    ensures |frames| == |batch|
  {
    seq(|batch|, i requires 0 <= i < |batch| => Encode(batch[i]))
  }

  ghost predicate AllWellTyped(batch: seq<Message>) {
    forall i :: 0 <= i < |batch| ==> WellTyped(batch[i])
  }

  /** Any batch of packets written back to back is cut into exactly these packets again. */
  lemma BatchRoundTrip(batch: seq<Message>)
    requires AllWellTyped(batch)
    ensures WellFormed(Flatten(EncodeAll(batch)) + [])
    ensures Split(Flatten(EncodeAll(batch)) + []) == Parsed(EncodeAll(batch), [])
  {
    hide Encode, WellTyped, IsFrame;
    forall i | 0 <= i < |batch|
      ensures IsFrame(EncodeAll(batch)[i])
    {
      EncodeIsFrame(batch[i]);
    }
    SplitUnique(EncodeAll(batch), []);
  }

  /** The receiver reads every field of a packet as it was put in. */
  lemma PacketRoundTrip(m: Message)
    requires WellTyped(m) && InRange(Header(m) + Fields(m))
    ensures ReadFields(Encode(m), Widths(Header(m) + Fields(m))) == Header(m) + Fields(m)
  {
    hide Fields, DeclaredSize, TypeOf, LittleEndian, WellTyped, ReadFields, Widths, InRange;
    FieldsRoundTrip(Header(m) + Fields(m), []);
    assert Encode(m) + [] == Encode(m);
  }

  // ---- Writing to a stream ----

  function Pieces(fields: seq<Field>): seq<seq<Byte>> {
    if fields == [] then [] else [LittleEndian(fields[0].width, fields[0].value)] + Pieces(fields[1..])
  }

  lemma {:induction false} PiecesTogether(fields: seq<Field>)
    ensures Flatten(Pieces(fields)) == Bytes(fields)
  {
    hide LittleEndian;
    if fields != [] {
      PiecesTogether(fields[1..]);
      assert Pieces(fields)[1..] == Pieces(fields[1..]);
    }
  }

  /** A packet appends its encoding to the stream, field by field. */
  method WritePacket(stream: OutputMemoryStream, m: Message)
    requires stream.Valid() && WellTyped(m) && stream.mHead + DeclaredSize(m) < UINT32_LIMIT
    modifies stream, stream.mBuffer
    ensures stream.Valid() && (stream.mBuffer == old(stream.mBuffer) || fresh(stream.mBuffer))
    ensures stream.Written() == old(stream.Written()) + Encode(m)
  {
    hide Fields, DeclaredSize, TypeOf, LittleEndian, Bytes, Pieces, Flatten;
    EncodeIsFrame(m);
    PiecesTogether(Header(m) + Fields(m));
    WriteAll(stream, Pieces(Header(m) + Fields(m)));
  }
}

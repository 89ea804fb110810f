/** Packets with the same bytes are the same packets: no field is lost, doubled or shared. */
module PacketContents {
  import opened Basics
  import opened Framing
  import opened Packets

  lemma {:induction false} WidthsAppend(a: seq<Field>, b: seq<Field>)
    ensures Widths(a + b) == Widths(a) + Widths(b)
  {
    if a == [] {
      assert a + b == b;
    } else {
      WidthsAppend(a[1..], b);
      assert (a + b)[1..] == a[1..] + b;
    }
  }

  lemma {:induction false} WidthsAt(fields: seq<Field>)
    ensures |Widths(fields)| == |fields| && forall i :: 0 <= i < |fields| ==> Widths(fields)[i] == fields[i].width
  {
    if fields != [] {
      WidthsAt(fields[1..]);
    }
  }

  lemma SameWidths(a: seq<Field>, b: seq<Field>)
    requires |a| == |b| && forall i :: 0 <= i < |a| ==> a[i].width == b[i].width
    ensures Widths(a) == Widths(b)
  {
    WidthsAt(a);
    WidthsAt(b);
  }

  /** Two lists of rows of the same shape. */
  ghost predicate SameShape(rows: seq<seq<Field>>, rows': seq<seq<Field>>) {
    |rows| == |rows'| && forall i :: 0 <= i < |rows| ==> |rows[i]| == |rows'[i]| && Widths(rows[i]) == Widths(rows'[i])
  }

  lemma {:induction false} RowsWidths(rows: seq<seq<Field>>, rows': seq<seq<Field>>)
    requires SameShape(rows, rows')
    ensures |Rows(rows)| == |Rows(rows')| && Widths(Rows(rows)) == Widths(Rows(rows'))
  {
    hide Widths;
    if rows != [] {
      RowsWidths(rows[1..], rows'[1..]);
      WidthsAppend(rows[0], Rows(rows[1..]));
      WidthsAppend(rows'[0], Rows(rows'[1..]));
    }
  }

  lemma {:induction false} RowsEqual(rows: seq<seq<Field>>, rows': seq<seq<Field>>)
    requires SameShape(rows, rows') && Rows(rows) == Rows(rows')
    ensures rows == rows'
  {
    hide Widths;
    if rows != [] {
      var a, b := Rows(rows[1..]), Rows(rows'[1..]);
      assert rows[0] == (rows[0] + a)[..|rows[0]|] == (rows'[0] + b)[..|rows[0]|] == rows'[0];
      assert a == (rows[0] + a)[|rows[0]|..] == (rows'[0] + b)[|rows[0]|..] == b;
      RowsEqual(rows[1..], rows'[1..]);
      assert rows == [rows[0]] + rows[1..] && rows' == [rows'[0]] + rows'[1..];
    }
  }

  lemma Apart<T>(a: seq<T>, a': seq<T>, b: seq<T>, b': seq<T>)
    requires |a| == |a'| && a + b == a' + b'
    ensures a == a' && b == b'
  {
    assert a == (a + b)[..|a|] && b == (a + b)[|a|..];
    assert a' == (a' + b')[..|a'|] && b' == (a' + b')[|a'|..];
  }

  lemma ArraysEqual(width: nat, a: seq<nat>, b: seq<nat>)
    requires ArrayOf(width, a) == ArrayOf(width, b)
    ensures a == b
  {
    assert |ArrayOf(width, a)| == |a| && |ArrayOf(width, b)| == |b|;
    forall i | 0 <= i < |a|
      ensures a[i] == b[i]
    {
      assert ArrayOf(width, a)[i].value == a[i] && ArrayOf(width, b)[i].value == b[i];
    }
  }

  // ---- The arrays of structures ----

  lemma UsersShape(users: seq<User>, users': seq<User>)
    requires |users| == |users'| && forall i :: 0 <= i < |users| ==> |users[i].name| == |users'[i].name|
    ensures SameShape(UserRows(users), UserRows(users'))
  {
    hide Widths;
    forall i | 0 <= i < |users|
      ensures |UserRow(users[i])| == |UserRow(users'[i])| && Widths(UserRow(users[i])) == Widths(UserRow(users'[i]))
    {
      SameWidths(UserRow(users[i]), UserRow(users'[i]));
    }
  }

  lemma UsersEqual(users: seq<User>, users': seq<User>)
    requires UserRows(users) == UserRows(users')
    ensures users == users'
  {
    assert |UserRows(users)| == |users| && |UserRows(users')| == |users'|;
    forall i | 0 <= i < |users|
      ensures users[i] == users'[i]
    {
      assert UserRows(users)[i] == UserRow(users[i]) && UserRows(users')[i] == UserRow(users'[i]);
      Apart([I32(users[i].networkID)], [I32(users'[i].networkID)], ArrayOf(2, users[i].name), ArrayOf(2, users'[i].name));
      assert I32(users[i].networkID) == I32(users'[i].networkID);
      ArraysEqual(2, users[i].name, users'[i].name);
    }
  }

  lemma QueuesShape(queues: seq<ItemQueue>, queues': seq<ItemQueue>)
    requires |queues| == |queues'| && forall i :: 0 <= i < |queues| ==> |queues[i].items| == |queues'[i].items|
    ensures SameShape(QueueRows(queues), QueueRows(queues'))
  {
    hide Widths;
    forall i | 0 <= i < |queues|
      ensures |QueueRow(queues[i])| == |QueueRow(queues'[i])| && Widths(QueueRow(queues[i])) == Widths(QueueRow(queues'[i]))
    {
      SameWidths(QueueRow(queues[i]), QueueRow(queues'[i]));
    }
  }

  lemma QueuesEqual(queues: seq<ItemQueue>, queues': seq<ItemQueue>)
    requires QueueRows(queues) == QueueRows(queues')
    ensures queues == queues'
  {
    assert |QueueRows(queues)| == |queues| && |QueueRows(queues')| == |queues'|;
    forall i | 0 <= i < |queues|
      ensures queues[i] == queues'[i]
    {
      assert QueueRows(queues)[i] == QueueRow(queues[i]) && QueueRows(queues')[i] == QueueRow(queues'[i]);
      Apart([I32(queues[i].networkID)], [I32(queues'[i].networkID)], ArrayOf(1, queues[i].items), ArrayOf(1, queues'[i].items));
      assert I32(queues[i].networkID) == I32(queues'[i].networkID);
      ArraysEqual(1, queues[i].items, queues'[i].items);
    }
  }

  lemma SlotsShape(slots: seq<SlotItem>, slots': seq<SlotItem>)
    requires |slots| == |slots'|
    ensures SameShape(SlotRows(slots), SlotRows(slots'))
  {
    hide Widths;
    forall i | 0 <= i < |slots|
      ensures |SlotRow(slots[i])| == |SlotRow(slots'[i])| && Widths(SlotRow(slots[i])) == Widths(SlotRow(slots'[i]))
    {
      SameWidths(SlotRow(slots[i]), SlotRow(slots'[i]));
    }
  }

  lemma SlotsEqual(slots: seq<SlotItem>, slots': seq<SlotItem>)
    requires SlotRows(slots) == SlotRows(slots')
    ensures slots == slots'
  {
    assert |SlotRows(slots)| == |slots| && |SlotRows(slots')| == |slots'|;
    forall i | 0 <= i < |slots|
      ensures slots[i] == slots'[i]
    {
      var a, b := SlotRow(slots[i]), SlotRow(slots'[i]);
      assert SlotRows(slots)[i] == a && SlotRows(slots')[i] == b;
      assert a[0] == b[0] && a[1] == b[1];
    }
  }

  lemma AvatarsShape(a: AvatarInfo, b: AvatarInfo)
    ensures SameShape(AvatarRows(a), AvatarRows(b))
  {
    hide Widths;
    forall i | 0 <= i < 6
      ensures |AvatarRows(a)[i]| == |AvatarRows(b)[i]| && Widths(AvatarRows(a)[i]) == Widths(AvatarRows(b)[i])
    {
      SameWidths(AvatarRows(a)[i], AvatarRows(b)[i]);
    }
  }

  lemma AvatarsEqual(a: AvatarInfo, b: AvatarInfo)
    requires AvatarRows(a) == AvatarRows(b)
    ensures a == b
  {
    var r, s := AvatarRows(a), AvatarRows(b);
    assert r[0][0] == s[0][0] && r[0][1] == s[0][1] && r[0][2] == s[0][2] && r[0][3] == s[0][3];
    assert r[1][0] == s[1][0] && r[1][1] == s[1][1] && r[1][2] == s[1][2] && r[1][3] == s[1][3];
    assert r[2][0] == s[2][0] && r[2][1] == s[2][1] && r[2][2] == s[2][2];
    assert r[3][0] == s[3][0] && r[3][1] == s[3][1] && r[3][2] == s[3][2] && r[3][3] == s[3][3];
    assert r[4][0] == s[4][0] && r[4][1] == s[4][1];
    assert r[5][0] == s[5][0] && r[5][1] == s[5][1] && r[5][2] == s[5][2] && r[5][3] == s[5][3];
  }

  // ---- Whole packets ----

  /** The type byte tells the layouts apart. */
  lemma SameLayout(m: Message, m': Message)
    requires WellTyped(m) && WellTyped(m') && TypeOf(m) == TypeOf(m')
    ensures |Fields(m)| == |Fields(m')| && Widths(Fields(m)) == Widths(Fields(m'))
  {
    hide Widths, Rows;
    if m.ConnectRoom? {
      UsersShape(m.users, m'.users);
      RowsWidths(UserRows(m.users), UserRows(m'.users));
    } else if m.BattleInfo? {
      QueuesShape(m.queues, m'.queues);
      RowsWidths(QueueRows(m.queues), QueueRows(m'.queues));
      SameWidths(ArrayOf(4, m.opponents), ArrayOf(4, m'.opponents));
      WidthsAppend(ArrayOf(4, m.opponents), Rows(QueueRows(m.queues)));
      WidthsAppend(ArrayOf(4, m'.opponents), Rows(QueueRows(m'.queues)));
    } else if m.UpdateCharacterInfo? {
      HeadThenSlots([I32(m.networkID), U16(m.hp), U16(m.avatarHp)], [I32(m'.networkID), U16(m'.hp), U16(m'.avatarHp)], m.slots, m'.slots);
    } else if m.InventoryInfo? {
      HeadThenSlots([I32(m.networkID)], [I32(m'.networkID)], m.slots, m'.slots);
    } else if m.BattleAvatarInfo? {
      AvatarsShape(m.info, m'.info);
      RowsWidths(AvatarRows(m.info), AvatarRows(m'.info));
    } else {
      FlatLayout(m, m');
    }
  }

  lemma HeadThenSlots(head: seq<Field>, head': seq<Field>, slots: seq<SlotItem>, slots': seq<SlotItem>)
    requires |head| == |head'| && (forall i :: 0 <= i < |head| ==> head[i].width == head'[i].width) && |slots| == |slots'|
    ensures |head + Rows(SlotRows(slots))| == |head' + Rows(SlotRows(slots'))|
    ensures Widths(head + Rows(SlotRows(slots))) == Widths(head' + Rows(SlotRows(slots')))
  {
    hide Widths, Rows;
    SlotsShape(slots, slots');
    RowsWidths(SlotRows(slots), SlotRows(slots'));
    SameWidths(head, head');
    WidthsAppend(head, Rows(SlotRows(slots)));
    WidthsAppend(head', Rows(SlotRows(slots')));
  }

  lemma FlatLayout(m: Message, m': Message)
    requires WellTyped(m) && WellTyped(m') && TypeOf(m) == TypeOf(m')
    requires !m.ConnectRoom? && !m.BattleInfo? && !m.UpdateCharacterInfo? && !m.InventoryInfo? && !m.BattleAvatarInfo?
    ensures |Fields(m)| == |Fields(m')| && Widths(Fields(m)) == Widths(Fields(m'))
  {
    hide Widths, Rows;
    if m.StartMatching? || m.BattleOpponents? {
      SameWidths(Fields(m), Fields(m'));
    } else {
      ShortLayout(m, m');
    }
  }

  lemma ShortLayout(m: Message, m': Message)
    requires TypeOf(m) == TypeOf(m') && !m.StartMatching? && !m.BattleOpponents?
    requires !m.ConnectRoom? && !m.BattleInfo? && !m.UpdateCharacterInfo? && !m.InventoryInfo? && !m.BattleAvatarInfo?
    ensures |Fields(m)| == |Fields(m')| && Widths(Fields(m)) == Widths(Fields(m'))
  {
    hide Widths, Rows, ArrayOf;
    SameWidths(Fields(m), Fields(m'));
  }

  lemma SameFields(m: Message, m': Message)
    requires WellTyped(m) && WellTyped(m') && TypeOf(m) == TypeOf(m') && Fields(m) == Fields(m')
    ensures m == m'
  {
    hide Widths, Rows;
    if m.ConnectRoom? {
      UsersShape(m.users, m'.users);
      RowsEqual(UserRows(m.users), UserRows(m'.users));
      UsersEqual(m.users, m'.users);
    } else if m.BattleInfo? {
      Apart(ArrayOf(4, m.opponents), ArrayOf(4, m'.opponents), Rows(QueueRows(m.queues)), Rows(QueueRows(m'.queues)));
      ArraysEqual(4, m.opponents, m'.opponents);
      QueuesShape(m.queues, m'.queues);
      RowsEqual(QueueRows(m.queues), QueueRows(m'.queues));
      QueuesEqual(m.queues, m'.queues);
    } else if m.UpdateCharacterInfo? {
      var head, head' := [I32(m.networkID), U16(m.hp), U16(m.avatarHp)], [I32(m'.networkID), U16(m'.hp), U16(m'.avatarHp)];
      Apart(head, head', Rows(SlotRows(m.slots)), Rows(SlotRows(m'.slots)));
      assert head[0] == head'[0] && head[1] == head'[1] && head[2] == head'[2];
      SlotsAgree(m.slots, m'.slots);
    } else if m.InventoryInfo? {
      var head, head' := [I32(m.networkID)], [I32(m'.networkID)];
      Apart(head, head', Rows(SlotRows(m.slots)), Rows(SlotRows(m'.slots)));
      assert head[0] == head'[0];
      SlotsAgree(m.slots, m'.slots);
    } else if m.BattleAvatarInfo? {
      AvatarsShape(m.info, m'.info);
      RowsEqual(AvatarRows(m.info), AvatarRows(m'.info));
      AvatarsEqual(m.info, m'.info);
    } else {
      FlatFields(m, m');
    }
  }

  lemma SlotsAgree(slots: seq<SlotItem>, slots': seq<SlotItem>)
    requires |slots| == |slots'| && Rows(SlotRows(slots)) == Rows(SlotRows(slots'))
    ensures slots == slots'
  {
    SlotsShape(slots, slots');
    RowsEqual(SlotRows(slots), SlotRows(slots'));
    SlotsEqual(slots, slots');
  }

  lemma FlatFields(m: Message, m': Message)
    requires WellTyped(m) && WellTyped(m') && TypeOf(m) == TypeOf(m') && Fields(m) == Fields(m')
    requires !m.ConnectRoom? && !m.BattleInfo? && !m.UpdateCharacterInfo? && !m.InventoryInfo? && !m.BattleAvatarInfo?
    ensures m == m'
  {
    hide Widths, Rows;
    if m.StartMatching? {
      Apart([I32(m.networkID)], [I32(m'.networkID)], ArrayOf(2, m.name), ArrayOf(2, m'.name));
      assert [I32(m.networkID)][0] == [I32(m'.networkID)][0];
      ArraysEqual(2, m.name, m'.name);
    } else if m.BattleOpponents? {
      ArraysEqual(4, m.opponents, m'.opponents);
    } else {
      var f, f' := Fields(m), Fields(m');
      assert f[0] == f'[0] && (|f| > 1 ==> f[1] == f'[1]) && (|f| > 2 ==> f[2] == f'[2]) && (|f| > 3 ==> f[3] == f'[3]);
    }
  }

  /** Packets whose values fit their fields and whose bytes agree are the same packet. */
  lemma EqualEncodings(m: Message, m': Message)
    requires WellTyped(m) && WellTyped(m') && InRange(Header(m) + Fields(m)) && InRange(Header(m') + Fields(m'))
    requires Encode(m) == Encode(m')
    ensures m == m'
  {
    hide Fields, WellTyped, ReadFields, Widths, InRange, Encode, DeclaredSize, TypeOf;
    SameType(m, m');
    SameLayout(m, m');
    var h, h' := Header(m), Header(m');
    SameWidths(h, h');
    WidthsAppend(h, Fields(m));
    WidthsAppend(h', Fields(m'));
    PacketRoundTrip(m);
    PacketRoundTrip(m');
    Apart(h, h', Fields(m), Fields(m'));
    SameFields(m, m');
  }

  /** The third byte of a packet is its type. */
  lemma SameType(m: Message, m': Message)
    requires WellTyped(m) && WellTyped(m') && Encode(m) == Encode(m')
    ensures TypeOf(m) == TypeOf(m')
  {
    hide Fields, WellTyped, DeclaredSize, TypeOf, LittleEndian;
    ThirdByte(m);
    ThirdByte(m');
  }

  lemma ThirdByte(m: Message)
    ensures |Encode(m)| >= 3 && Encode(m)[2] == TypeOf(m)
  {
    hide Fields, DeclaredSize, TypeOf, LittleEndian;
    var all := Header(m) + Fields(m);
    assert all[0] == U16(DeclaredSize(m)) && all[1..][0] == U8(TypeOf(m));
    assert Bytes(all) == LittleEndian(2, DeclaredSize(m)) + Bytes(all[1..]);
    assert Bytes(all[1..]) == LittleEndian(1, TypeOf(m)) + Bytes(all[1..][1..]);
    OneByteType(m);
  }

  lemma OneByteType(m: Message)
    ensures LittleEndian(1, TypeOf(m)) == [TypeOf(m)]
  {
    assert LittleEndian(0, TypeOf(m) / 256) == [];
  }
}

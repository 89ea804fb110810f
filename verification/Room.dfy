/** The roster of a room and of its battle manager. */
module Room {
  import opened Basics
  import opened Matching
  import opened BattleManager
  import Pairings

  class Room {
    var mClients: seq<ClientId>
    var mSize: nat
    var mBattleOpponents: seq<int>
    const mBattleManager: BattleManager

    /** The two rosters have the same members. A room emptied by Init keeps stale records in
        its battle manager until clients are added again. */
    ghost predicate Agree()
      reads this, mBattleManager
    {
      mClients != [] ==> forall c :: c in Clients(mBattleManager.mUnMatchingClients) <==> c in mClients
    }

    ghost predicate Valid()
      reads this, mBattleManager
    {
      mSize == |mClients| && Distinct(mClients) && mBattleManager.Valid() && Agree()
    }

    constructor ()
      ensures Valid() && mClients == [] && fresh(mBattleManager)
    {
      mClients, mSize, mBattleOpponents := [], 0, [];
      mBattleManager := new BattleManager();
    }

    /** The rosters agree afterwards exactly when the room was empty or already full. */
    method AddClients(clients: seq<ClientId>)
      requires Valid() && |clients| == MAX_ROOM_PLAYER && Distinct(clients)
      requires forall c :: c in clients ==> c !in mClients
      modifies this`mClients, this`mSize, mBattleManager
      ensures mSize == |mClients| && Distinct(mClients) && mBattleManager.Valid()
      ensures mClients == if old(mSize) == MAX_ROOM_PLAYER then old(mClients) else old(mClients) + clients
      ensures old(mSize) == MAX_ROOM_PLAYER ==> mBattleManager.mUnMatchingClients == old(mBattleManager.mUnMatchingClients)
      ensures Agree() <==> old(mSize) == 0 || old(mSize) == MAX_ROOM_PLAYER
    {
      if mSize == MAX_ROOM_PLAYER {
        return;
      }
      ghost var before := mClients;
      for i := 0 to |clients|
        invariant mClients == before + clients[..i] && mSize == |mClients|
        invariant mBattleManager.Valid()
      {
        mSize := mSize + 1;
        mClients := mClients + [clients[i]];
      }
      assert clients[..|clients|] == clients;
      DistinctAppend(before, clients);
      mBattleManager.SetClients(clients);
      if before != [] {
        assert before[0] in mClients && before[0] !in clients;
        assert before[0] !in Clients(mBattleManager.mUnMatchingClients);
      }
    }

    method RemoveClient(c: ClientId)
      requires Valid()
      modifies this`mClients, this`mSize, mBattleManager
      ensures Valid()
      ensures forall b :: b in mClients <==> b in old(mClients) && b != c
      ensures mSize == old(mSize) - (if c in old(mClients) then 1 else 0)
      ensures mClients != [] ==> forall b ::
                b in Clients(mBattleManager.mUnMatchingClients) <==> b in old(Clients(mBattleManager.mUnMatchingClients)) && b != c
    {
      var it := 0;
      while it < |mClients|
        invariant 0 <= it <= |mClients|
        invariant c !in mClients[..it]
      {
        if mClients[it] == c {
          break;
        }
        it := it + 1;
      }
      if it < |mClients| {
        RemoveDistinct(mClients, it);
        mClients := RemoveAt(mClients, it);
        mBattleManager.RemoveClient(c);
        mSize := mSize - 1;
      }
      if mSize == 0 {
        Init();
      }
    }

    method Init()
      requires mBattleManager.Valid()
      modifies this`mClients, this`mSize
      ensures Valid() && mClients == []
    {
      mClients := [];
      mSize := 0;
    }

    /** With two or more clients the opponent list holds every member of the room exactly once
        as a real opponent, and nobody meets itself: it is fit for a battle. */
    method ApplyRandomBattleOpponent(shuffled: seq<BattleInfo>, attack: ClientId -> int, coins: nat -> bool)
      requires Valid() && |mBattleManager.log| + 1 < INT64_MAX
      requires multiset(shuffled) == multiset(mBattleManager.mUnMatchingClients)
      modifies this`mBattleOpponents, mBattleManager
      ensures Valid()
      ensures mSize < 2 ==> mBattleOpponents == old(mBattleOpponents) && mBattleManager.log == old(mBattleManager.log)
      ensures mSize >= 2 ==>
                multiset(Real(mBattleOpponents)) == multiset(mClients) &&
                |mBattleOpponents| == 2 * ((mSize + 1) / 2) && Pairings.Opponents(mBattleOpponents) && HigherFirst(mBattleOpponents, attack) &&
                mBattleManager.log == old(mBattleManager.log) + [mBattleOpponents]
    {
      hide PairUp, Recorded;
      if mSize < 2 {
        return;
      }
      SameMembers(shuffled, mBattleManager.mUnMatchingClients);
      SameRoster(mBattleManager.mUnMatchingClients, mClients);
      HistoryShuffled(mBattleManager.mUnMatchingClients, shuffled, mBattleManager.log);
      ghost var members := Clients(mBattleManager.mUnMatchingClients);
      mBattleOpponents := mBattleManager.GetBattleOpponent(shuffled, attack, coins);
      SameMembers(Clients(mBattleManager.mUnMatchingClients), members);
      Pairings.MatchedOpponents(shuffled, attack, coins);
    }
  }

  lemma DistinctAppend<T>(a: seq<T>, b: seq<T>)
    requires Distinct(a) && Distinct(b) && forall x :: x in b ==> x !in a
    ensures Distinct(a + b)
  {
    var s := a + b;
    forall i, j | 0 <= i < j < |s|
      ensures s[i] != s[j]
    {
      if i < |a| <= j {
        assert s[i] in a && s[j] in b;
      }
    }
  }

  lemma RemoveDistinct<T>(s: seq<T>, i: nat)
    requires Distinct(s) && i < |s|
    ensures Distinct(RemoveAt(s, i))
    ensures forall x :: x in RemoveAt(s, i) <==> x in s && x != s[i]
  {
    var r := RemoveAt(s, i);
    assert forall k :: 0 <= k < |r| ==> r[k] == s[if k < i then k else k + 1];
    forall x | x in s && x != s[i]
      ensures x in r
    {
      var k :| 0 <= k < |s| && s[k] == x;
      assert r[if k < i then k else k - 1] == x;
    }
  }

  lemma SameRoster(infos: seq<BattleInfo>, clients: seq<ClientId>)
    requires Distinct(Clients(infos)) && Distinct(clients)
    requires forall c :: c in Clients(infos) <==> c in clients
    ensures multiset(Clients(infos)) == multiset(clients) && |infos| == |clients|
  {
    DistinctSameMembers(Clients(infos), clients);
    SameMembers(Clients(infos), clients);
  }
}

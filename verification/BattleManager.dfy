/** The opponent history of a room, kept by the battle manager over any run of calls. */
module BattleManager {
  import opened Basics
  import opened Matching

  const INT64_MAX: nat := 0x7fff_ffff_ffff_ffff

  /** In how many of these opponent lists a and b were a pair. */
  function Meetings(log: seq<seq<int>>, a: int, b: int): nat {
    if log == [] then 0
    else Meetings(log[..|log| - 1], a, b) + (if Meets(log[|log| - 1], a, b) then 1 else 0)
  }

  function Opponents(info: BattleInfo): seq<ClientId> {
    seq(|info.histories|, i requires 0 <= i < |info.histories| => info.histories[i].client)
  }

  /** The record lists every other member of the roster once and counts the rounds in which
      its owner was paired with that member. */
  ghost predicate Recorded(info: BattleInfo, roster: seq<ClientId>, log: seq<seq<int>>) {
    Distinct(Opponents(info)) &&
    (forall c :: c in Opponents(info) <==> c in roster && c != info.client) &&
    (forall k :: 0 <= k < |info.histories| ==>
       info.histories[k].count == Meetings(log, info.client, info.histories[k].client))
  }

  ghost predicate HistoryOK(infos: seq<BattleInfo>, log: seq<seq<int>>) {
    Distinct(Clients(infos)) &&
    (forall info :: info in infos ==> Recorded(info, Clients(infos), log))
  }

  ghost predicate CountsAtMost(infos: seq<BattleInfo>, m: nat) {
    forall info, h :: info in infos && h in info.histories ==> h.count <= m
  }

  lemma {:induction false} MeetsSymmetric(list: seq<int>, a: int, b: int)
    ensures Meets(list, a, b) == Meets(list, b, a)
  {
    if |list| >= 2 {
      MeetsSymmetric(list[2..], a, b);
    }
  }

  lemma {:induction false} MeetingsSymmetric(log: seq<seq<int>>, a: int, b: int)
    ensures Meetings(log, a, b) == Meetings(log, b, a) <= |log|
  {
    if log != [] {
      MeetingsSymmetric(log[..|log| - 1], a, b);
      MeetsSymmetric(log[|log| - 1], a, b);
    }
  }

  lemma {:induction false} CountOf(hs: seq<History>, k: nat)
    requires k < |hs|
    requires forall i, j :: 0 <= i < j < |hs| ==> hs[i].client != hs[j].client
    ensures Count(hs, hs[k].client) == hs[k].count
  {
    if k > 0 {
      CountOf(hs[1..], k - 1);
    }
  }

  lemma {:induction false} CountBound(hs: seq<History>, c: ClientId, m: nat)
    requires forall h :: h in hs ==> h.count <= m
    ensures Count(hs, c) <= m
  {
    if hs != [] {
      assert hs[0] in hs;
      CountBound(hs[1..], c, m);
    }
  }

  /** What two members have stored about each other is the same number: how many of the rounds
      so far had them as a pair. */
  lemma StoredCount(infos: seq<BattleInfo>, log: seq<seq<int>>, i: nat, j: nat)
    requires HistoryOK(infos, log) && i < |infos| && j < |infos| && i != j
    ensures Count(infos[i].histories, infos[j].client) == Meetings(log, infos[i].client, infos[j].client)
    ensures Count(infos[i].histories, infos[j].client) == Count(infos[j].histories, infos[i].client)
  {
    StoredAt(infos, log, i, j);
    StoredAt(infos, log, j, i);
    MeetingsSymmetric(log, infos[i].client, infos[j].client);
  }

  lemma StoredAt(infos: seq<BattleInfo>, log: seq<seq<int>>, i: nat, j: nat)
    requires HistoryOK(infos, log) && i < |infos| && j < |infos| && i != j
    ensures Count(infos[i].histories, infos[j].client) == Meetings(log, infos[i].client, infos[j].client)
  {
    var info, c := infos[i], infos[j].client;
    assert info in infos;
    assert Clients(infos)[i] == info.client && Clients(infos)[j] == c;
    assert c in Opponents(info);
    var k :| 0 <= k < |info.histories| && Opponents(info)[k] == c;
    assert forall a :: 0 <= a < |info.histories| ==> Opponents(info)[a] == info.histories[a].client;
    CountOf(info.histories, k);
  }

  lemma SameMembers<T>(a: seq<T>, b: seq<T>)
    requires multiset(a) == multiset(b)
    ensures |a| == |b|
    ensures forall x :: x in a <==> x in b
  {
    assert |multiset(a)| == |a| && |multiset(b)| == |b|;
    forall x
      ensures x in a <==> x in b
    {
      assert x in multiset(a) <==> x in a;
      assert x in multiset(b) <==> x in b;
    }
  }

  /** Distinctness does not depend on the order. */
  lemma {:induction false} DistinctMultiset<T>(s: seq<T>)
    ensures Distinct(s) <==> forall x :: x in s ==> multiset(s)[x] == 1
  {
    if s != [] {
      var last := s[|s| - 1];
      var front := s[..|s| - 1];
      assert s == front + [last];
      DistinctMultiset(front);
      if Distinct(s) {
        assert last !in front;
        assert multiset(front)[last] == 0;
      }
      if forall x :: x in s ==> multiset(s)[x] == 1 {
        assert last in s;
        assert last !in multiset(front);
        forall x | x in front
          ensures multiset(front)[x] == 1
        {
          assert x in s;
        }
      }
    }
  }

  lemma DistinctPermutation<T>(a: seq<T>, b: seq<T>)
    requires multiset(a) == multiset(b) && Distinct(a)
    ensures Distinct(b)
  {
    DistinctMultiset(a);
    DistinctMultiset(b);
    SameMembers(a, b);
  }

  lemma OpponentsAfter(info: BattleInfo, list: seq<int>)
    ensures Opponents(AfterRound(info, list)) == Opponents(info)
  {
  }

  /** A record stays right when a round is logged. */
  lemma RecordedAfter(info: BattleInfo, roster: seq<ClientId>, roster': seq<ClientId>, log: seq<seq<int>>, list: seq<int>)
    requires Recorded(info, roster, log)
    requires multiset(roster) == multiset(roster')
    ensures Recorded(AfterRound(info, list), roster', log + [list])
  {
    SameMembers(roster, roster');
    OpponentsAfter(info, list);
    assert (log + [list])[..|log|] == log;
  }

  /** One round keeps the history right, in whatever order the records end up. */
  lemma HistoryAfterRound(queue: seq<BattleInfo>, log: seq<seq<int>>, list: seq<int>, infos: seq<BattleInfo>)
    requires HistoryOK(queue, log)
    requires multiset(infos) == multiset(AllAfter(queue, list))
    requires multiset(Clients(infos)) == multiset(Clients(queue))
    ensures HistoryOK(infos, log + [list])
  {
    DistinctPermutation(Clients(queue), Clients(infos));
    forall info | info in infos
      ensures Recorded(info, Clients(infos), log + [list])
    {
      assert info in multiset(infos);
      assert info in AllAfter(queue, list);
      var i :| 0 <= i < |queue| && AfterRound(queue[i], list) == info;
      assert queue[i] in queue;
      RecordedAfter(queue[i], Clients(queue), Clients(infos), log, list);
    }
  }

  lemma DistinctSameMembers<T>(a: seq<T>, b: seq<T>)
    requires Distinct(a) && Distinct(b)
    requires forall x :: x in a <==> x in b
    ensures multiset(a) == multiset(b)
  {
    DistinctMultiset(a);
    DistinctMultiset(b);
    forall x
      ensures multiset(a)[x] == multiset(b)[x]
    {
      assert x in multiset(a) <==> x in a;
      assert x in multiset(b) <==> x in b;
    }
  }

  /** Shuffling the records keeps the history right. */
  lemma HistoryShuffled(infos: seq<BattleInfo>, shuffled: seq<BattleInfo>, log: seq<seq<int>>)
    requires HistoryOK(infos, log) && multiset(infos) == multiset(shuffled)
    ensures HistoryOK(shuffled, log)
    ensures multiset(Clients(shuffled)) == multiset(Clients(infos))
  {
    ShuffledClients(infos, shuffled);
    SameMembers(Clients(infos), Clients(shuffled));
    SameMembers(infos, shuffled);
    forall info | info in shuffled
      ensures Recorded(info, Clients(shuffled), log)
    {
      assert Recorded(info, Clients(infos), log);
    }
  }

  lemma ShuffledClients(infos: seq<BattleInfo>, shuffled: seq<BattleInfo>)
    requires Distinct(Clients(infos)) && multiset(infos) == multiset(shuffled)
    ensures Distinct(Clients(shuffled))
    ensures multiset(Clients(shuffled)) == multiset(Clients(infos))
  {
    assert forall p :: 0 <= p < |infos| ==> Clients(infos)[p] == infos[p].client;
    assert forall p :: 0 <= p < |shuffled| ==> Clients(shuffled)[p] == shuffled[p].client;
    DistinctPermutation(infos, shuffled);
    SameMembers(infos, shuffled);
    forall i, j | 0 <= i < j < |shuffled|
      ensures Clients(shuffled)[i] != Clients(shuffled)[j]
    {
      assert shuffled[i] in infos && shuffled[j] in infos;
      var p :| 0 <= p < |infos| && infos[p] == shuffled[i];
      var q :| 0 <= q < |infos| && infos[q] == shuffled[j];
    }
    forall c
      ensures c in Clients(infos) <==> c in Clients(shuffled)
    {
      if c in Clients(infos) {
        var p :| 0 <= p < |infos| && infos[p].client == c;
        assert infos[p] in shuffled;
      }
      if c in Clients(shuffled) {
        var p :| 0 <= p < |shuffled| && shuffled[p].client == c;
        assert shuffled[p] in infos;
      }
    }
    DistinctSameMembers(Clients(infos), Clients(shuffled));
  }

  lemma CountsBounded(infos: seq<BattleInfo>, log: seq<seq<int>>)
    requires HistoryOK(infos, log)
    ensures CountsAtMost(infos, |log|)
  {
    forall info, h | info in infos && h in info.histories
      ensures h.count <= |log|
    {
      assert Recorded(info, Clients(infos), log);
      MeetingsSymmetric(log, info.client, h.client);
    }
  }

  // ---- Leaving the room ----

  /** The list without the first entry of `c`. */
  function Without(hs: seq<History>, c: ClientId): seq<History> {
    if hs == [] then []
    else if hs[0].client == c then hs[1..]
    else [hs[0]] + Without(hs[1..], c)
  }

  /** The records of the players other than `c`, each without its entry for `c`. */
  function Left(infos: seq<BattleInfo>, c: ClientId): seq<BattleInfo> {
    if infos == [] then []
    else (if infos[0].client == c then [] else [BattleInfo(infos[0].client, Without(infos[0].histories, c))])
         + Left(infos[1..], c)
  }

  lemma WithoutFirst(hs: seq<History>, c: ClientId)
    requires hs != []
    ensures Without(hs, c) == if hs[0].client == c then hs[1..] else [hs[0]] + Without(hs[1..], c)
  {
  }

  lemma WithoutNothing(hs: seq<History>, c: ClientId)
    requires hs == []
    ensures Without(hs, c) == []
  {
  }

  /** Everybody has one entry at most. */
  ghost predicate OneEach(hs: seq<History>) {
    forall i, j :: 0 <= i < j < |hs| ==> hs[i].client != hs[j].client
  }

  lemma OneEachTail(hs: seq<History>)
    requires hs != [] && OneEach(hs)
    ensures OneEach(hs[1..]) && forall h :: h in hs[1..] ==> h.client != hs[0].client
  {
    forall h | h in hs[1..]
      ensures h.client != hs[0].client
    {
      var i :| 0 <= i < |hs[1..]| && hs[1..][i] == h;
      assert hs[i + 1] == h;
    }
  }

  lemma OneEachCons(first: History, rest: seq<History>)
    requires OneEach(rest) && forall h :: h in rest ==> h.client != first.client
    ensures OneEach([first] + rest)
  {
    var hs := [first] + rest;
    forall i, j | 0 <= i < j < |hs|
      ensures hs[i].client != hs[j].client
    {
      assert hs[j] == rest[j - 1] && rest[j - 1] in rest;
    }
  }

  lemma {:induction false} WithoutMembers(hs: seq<History>, c: ClientId)
    requires OneEach(hs)
    ensures forall h :: h in Without(hs, c) <==> h in hs && h.client != c
    ensures OneEach(Without(hs, c))
  {
    hide Without, OneEach;
    if hs == [] {
      WithoutNothing(hs, c);
      assert OneEach([]) by { NobodyTwice(); }
    } else {
      var first, rest := hs[0], hs[1..];
      WithoutFirst(hs, c);
      OneEachTail(hs);
      WithoutMembers(rest, c);
      assert forall h :: h in hs <==> h == first || h in rest;
      if first.client != c {
        OneEachCons(first, Without(rest, c));
      }
    }
  }

  lemma NobodyTwice()
    ensures OneEach([])
  {
  }

  lemma LeftUnfold(infos: seq<BattleInfo>, c: ClientId)
    requires infos != []
    ensures Left(infos, c)
         == (if infos[0].client == c then [] else [BattleInfo(infos[0].client, Without(infos[0].histories, c))])
            + Left(infos[1..], c)
  {
  }

  lemma {:induction false} LeftMembers(infos: seq<BattleInfo>, c: ClientId)
    ensures forall x :: x in Left(infos, c) <==>
              exists info :: info in infos && info.client != c && x == BattleInfo(info.client, Without(info.histories, c))
  {
    if infos != [] {
      LeftUnfold(infos, c);
      LeftMembers(infos[1..], c);
      assert infos == [infos[0]] + infos[1..];
    }
  }

  lemma {:induction false} LeftClients(infos: seq<BattleInfo>, c: ClientId)
    ensures forall b :: b in Clients(Left(infos, c)) <==> b in Clients(infos) && b != c
    ensures Distinct(Clients(infos)) ==> Distinct(Clients(Left(infos, c)))
  {
    hide Left, Clients, Distinct;
    if infos != [] {
      var x, rest := infos[0], infos[1..];
      LeftUnfold(infos, c);
      LeftClients(rest, c);
      assert infos == [x] + rest;
      ClientsCons(x, rest);
      DistinctCons(x.client, Clients(rest));
      if x.client != c {
        ClientsCons(BattleInfo(x.client, Without(x.histories, c)), Left(rest, c));
        DistinctCons(x.client, Clients(Left(rest, c)));
      } else {
        assert Left(infos, c) == Left(rest, c);
      }
    } else {
      NobodyLeft(c);
    }
  }

  lemma NobodyLeft(c: ClientId)
    ensures Left([], c) == [] && Clients([]) == [] && Distinct(Clients([]))
  {
  }

  lemma ClientsCons(x: BattleInfo, rest: seq<BattleInfo>)
    ensures Clients([x] + rest) == [x.client] + Clients(rest)
  {
  }

  lemma DistinctCons<T>(x: T, s: seq<T>)
    ensures Distinct([x] + s) <==> Distinct(s) && x !in s
  {
    var all := [x] + s;
    forall i | 0 <= i < |s|
      ensures all[i + 1] == s[i]
    {
    }
    if Distinct(all) {
      forall i, j | 0 <= i < j < |s|
        ensures s[i] != s[j]
      {
        assert all[i + 1] != all[j + 1];
      }
      forall i | 0 <= i < |s|
        ensures s[i] != x
      {
        assert all[0] != all[i + 1];
      }
    }
  }

  lemma RecordedLeft(info: BattleInfo, roster: seq<ClientId>, roster': seq<ClientId>, log: seq<seq<int>>, c: ClientId)
    requires Recorded(info, roster, log) && info.client != c
    requires forall b :: b in roster' <==> b in roster && b != c
    ensures Recorded(BattleInfo(info.client, Without(info.histories, c)), roster', log)
  {
    var hs := info.histories;
    assert forall i :: 0 <= i < |hs| ==> Opponents(info)[i] == hs[i].client;
    WithoutMembers(hs, c);
    var w := Without(hs, c);
    var left := BattleInfo(info.client, w);
    forall b
      ensures b in Opponents(left) <==> b in roster' && b != info.client
    {
      if b in Opponents(left) {
        var i :| 0 <= i < |w| && w[i].client == b;
        assert w[i] in w;
        assert b in Opponents(info);
      }
      if b in roster' && b != info.client {
        assert b in Opponents(info);
        var i :| 0 <= i < |hs| && Opponents(info)[i] == b;
        assert hs[i] in hs;
        assert hs[i] in w;
        var j :| 0 <= j < |w| && w[j] == hs[i];
        assert Opponents(left)[j] == b;
      }
    }
    forall k | 0 <= k < |w|
      ensures w[k].count == Meetings(log, info.client, w[k].client)
    {
      assert w[k] in w;
    }
  }

  /** A departure keeps the history of everyone else right. */
  lemma HistoryLeft(infos: seq<BattleInfo>, log: seq<seq<int>>, c: ClientId)
    requires HistoryOK(infos, log)
    ensures HistoryOK(Left(infos, c), log)
  {
    LeftClients(infos, c);
    LeftMembers(infos, c);
    forall x | x in Left(infos, c)
      ensures Recorded(x, Clients(Left(infos, c)), log)
    {
      var info :| info in infos && info.client != c && x == BattleInfo(info.client, Without(info.histories, c));
      RecordedLeft(info, Clients(infos), Clients(Left(infos, c)), log, c);
    }
  }

  // ---- The object ----

  /** A linear scan with early exit. */
  method GetBattleCount(hs: seq<History>, c: ClientId) returns (count: nat)
    ensures count == Count(hs, c)
  {
    var i := 0;
    while i < |hs|
      invariant 0 <= i <= |hs|
      invariant Count(hs, c) == Count(hs[i..], c)
    {
      if hs[i].client == c {
        return hs[i].count;
      }
      assert hs[i..][1..] == hs[i + 1..];
      i := i + 1;
    }
    count := 0;
  }

  method AddBattleCount(info: BattleInfo, c: ClientId) returns (r: BattleInfo)
    ensures r == Bump(info, c)
  {
    var hs := info.histories;
    var i := 0;
    while i < |hs|
      invariant 0 <= i <= |hs| == |info.histories|
      invariant hs[..i] == Bumped(info.histories, c)[..i]
      invariant hs[i..] == info.histories[i..]
    {
      var h := hs[i];
      assert h == hs[i..][0] == info.histories[i];
      if h.client == c {
        hs := hs[i := History(h.client, h.count + 1)];
      }
      i := i + 1;
    }
    r := BattleInfo(info.client, hs);
  }

  method DropHistory(info: BattleInfo, c: ClientId) returns (r: BattleInfo)
    ensures r == BattleInfo(info.client, Without(info.histories, c))
  {
    hide Without;
    var hs := info.histories;
    var i := 0;
    while i < |hs|
      invariant 0 <= i <= |hs|
      invariant Without(hs, c) == hs[..i] + Without(hs[i..], c)
    {
      WithoutFirst(hs[i..], c);
      assert hs[i..][1..] == hs[i + 1..];
      if hs[i].client == c {
        return BattleInfo(info.client, hs[..i] + hs[i + 1..]);
      }
      assert hs[..i] + [hs[i]] == hs[..i + 1];
      i := i + 1;
    }
    WithoutNothing(hs[|hs|..], c);
    r := info;
  }

  lemma MinIndexStep(s: seq<BattleInfo>, x: BattleInfo, c: ClientId)
    ensures MinIndex(s + [x], c)
         == if s == [] then 0
            else if Count(x.histories, c) < Count(s[MinIndex(s, c)].histories, c) then |s|
            else MinIndex(s, c)
  {
    hide Count;
    assert (s + [x])[..|s|] == s;
  }

  /** The records from position `first` on are searched for the one that met `c` least often;
      one past the end when there are none. */
  method LeastMet(infos: seq<BattleInfo>, first: nat, c: ClientId) returns (min: nat)
    requires first <= |infos|
    requires forall info :: info in infos ==> Count(info.histories, c) < INT64_MAX
    ensures if first == |infos| then min == |infos| else min == first + MinIndex(infos[first..], c)
  {
    hide MinIndex, Count;
    min := |infos|;
    var minCount := INT64_MAX;
    for it := first to |infos|
      invariant it == first ==> min == |infos| && minCount == INT64_MAX
      invariant it > first ==> min == first + MinIndex(infos[first..it], c) && min < it &&
                               minCount == Count(infos[min].histories, c)
    {
      var battleCount := GetBattleCount(infos[it].histories, c);
      assert infos[it] in infos;
      MinIndexStep(infos[first..it], infos[it], c);
      assert infos[first..it + 1] == infos[first..it] + [infos[it]];
      if battleCount < minCount {
        min := it;
        minCount := battleCount;
      }
    }
    assert infos[first..|infos|] == infos[first..];
  }

  class BattleManager {
    var mUnMatchingClients: seq<BattleInfo>
    var mMatchingClients: seq<BattleInfo>
    /** The opponent lists handed out since the clients were set. */
    ghost var log: seq<seq<int>>

    ghost predicate Valid()
      reads this
    {
      mMatchingClients == [] && HistoryOK(mUnMatchingClients, log)
    }

    constructor ()
      ensures Valid() && mUnMatchingClients == [] && log == []
    {
      mUnMatchingClients, mMatchingClients, log := [], [], [];
    }

    /** Every client starts with a record of zeros for each of the others. */
    method SetClients(clients: seq<ClientId>)
      requires |clients| == MAX_ROOM_PLAYER && Distinct(clients)
      modifies this
      ensures Valid() && log == [] && Clients(mUnMatchingClients) == clients
    {
      mMatchingClients := [];
      mUnMatchingClients := [];
      log := [];
      for player := 0 to MAX_ROOM_PLAYER
        invariant mMatchingClients == [] && log == []
        invariant Clients(mUnMatchingClients) == clients[..player]
        invariant forall info :: info in mUnMatchingClients ==> Recorded(info, clients, [])
      {
        var info := NewRecord(clients[player], clients);
        ClientsAppend(mUnMatchingClients, [info]);
        assert Clients([info]) == [clients[player]];
        mUnMatchingClients := mUnMatchingClients + [info];
      }
      assert clients[..MAX_ROOM_PLAYER] == clients;
    }

    /** One round of opponent selection on the shuffled records. */
    method GetBattleOpponent(shuffled: seq<BattleInfo>, attack: ClientId -> int, coins: nat -> bool) returns (list: seq<int>)
      requires Valid() && |mUnMatchingClients| >= 2 && |log| + 1 < INT64_MAX
      requires |shuffled| == |mUnMatchingClients| && multiset(shuffled) == multiset(mUnMatchingClients)
      modifies this
      ensures Valid() && log == old(log) + [list]
      ensures Round(list, mUnMatchingClients) == PairUp(shuffled, [], attack, coins)
      ensures Covers(shuffled, [], Round(list, mUnMatchingClients)) && HigherFirst(list, attack)
      ensures multiset(Clients(mUnMatchingClients)) == multiset(Clients(old(mUnMatchingClients)))
    {
      HistoryShuffled(mUnMatchingClients, shuffled, log);
      SameMembers(mUnMatchingClients, shuffled);
      CountsBounded(shuffled, log);
      list := MatchAll(shuffled, attack, coins);
      ExactCover(shuffled, [], attack, coins);
      PairsInOrder(shuffled, [], attack, coins);
      RecordsAfterRound(shuffled, [], attack, coins);
      HistoryAfterRound(shuffled, log, list, mUnMatchingClients);
      log := log + [list];
    }

    /** The matching loop: erases from one list and appends to the other until nobody waits. */
    method MatchAll(shuffled: seq<BattleInfo>, attack: ClientId -> int, coins: nat -> bool) returns (list: seq<int>)
      requires |shuffled| >= 2 && mMatchingClients == []
      requires CountsAtMost(shuffled, |log|) && |log| + 1 < INT64_MAX
      modifies this`mUnMatchingClients, this`mMatchingClients
      ensures mMatchingClients == []
      ensures Round(list, mUnMatchingClients) == PairUp(shuffled, [], attack, coins)
    {
      hide PairUp, CountsAtMost;
      NobodyBounded(|log| + 1);
      mUnMatchingClients := shuffled;
      list := [];
      while mUnMatchingClients != []
        invariant |mUnMatchingClients| == 1 ==> mMatchingClients != []
        invariant CountsAtMost(mUnMatchingClients, |log|) && CountsAtMost(mMatchingClients, |log| + 1)
        invariant var rest := PairUp(mUnMatchingClients, mMatchingClients, attack, coins);
                  PairUp(shuffled, [], attack, coins) == Round(list + rest.list, rest.infos)
        decreases |mUnMatchingClients|
      {
        var pair := MatchFront(attack, coins);
        ghost var rest := PairUp(mUnMatchingClients, mMatchingClients, attack, coins);
        assert list + (pair + rest.list) == (list + pair) + rest.list;
        list := list + pair;
      }
      NoneLeft(mMatchingClients, attack, coins);
      mUnMatchingClients := mMatchingClients;
      mMatchingClients := [];
    }

    /** One pass of the matching loop: the front leaves the queue with the waiting player it
        has met least, or, left alone, fights the ghost of a player already matched. */
    method MatchFront(attack: ClientId -> int, coins: nat -> bool) returns (pair: seq<int>)
      requires mUnMatchingClients != [] && (|mUnMatchingClients| == 1 ==> mMatchingClients != [])
      requires CountsAtMost(mUnMatchingClients, |log|) && CountsAtMost(mMatchingClients, |log| + 1)
      requires |log| + 1 < INT64_MAX
      modifies this`mUnMatchingClients, this`mMatchingClients
      ensures |mUnMatchingClients| < |old(mUnMatchingClients)|
      ensures mMatchingClients != []
      ensures CountsAtMost(mUnMatchingClients, |log|) && CountsAtMost(mMatchingClients, |log| + 1)
      ensures var rest := PairUp(mUnMatchingClients, mMatchingClients, attack, coins);
              PairUp(old(mUnMatchingClients), old(mMatchingClients), attack, coins) == Round(pair + rest.list, rest.infos)
    {
      hide PairUp, MinIndex, Count, Bump, Ordered, Ghost, CountsAtMost;
      var un, mat := mUnMatchingClients, mMatchingClients;
      var x := un[0];
      CountsUsable(un, |log|, x.client);
      CountsUsable(mat, |log| + 1, x.client);
      var min := LeastMet(un, 1, x.client);
      if min < |un| {
        var y := un[min];
        PairStep(un, mat, attack, coins);
        BumpAtMost(un, mat, min, |log|);
        pair := Ordered(x.client, y.client, attack(x.client), attack(y.client), coins(|un|));
        var x' := AddBattleCount(x, y.client);
        var y' := AddBattleCount(y, x.client);
        mMatchingClients := mMatchingClients + [y'];
        mUnMatchingClients := RemoveAt(mUnMatchingClients, min);
        mMatchingClients := mMatchingClients + [x'];
        mUnMatchingClients := mUnMatchingClients[1..];
        assert mMatchingClients == mat + [y', x'];
      } else {
        var ghostOf := LeastMet(mat, 0, x.client);
        assert mat[0..] == mat;
        GhostStep(un, mat, attack, coins);
        GhostAtMost(un, mat, |log|);
        var y := mat[ghostOf].client;
        pair := Ordered(x.client, Ghost(y), attack(x.client), attack(y), coins(1));
        mMatchingClients := mMatchingClients + [x];
        mUnMatchingClients := mUnMatchingClients[1..];
      }
    }

    /** The client's record is erased, and its entry in every other record. */
    method RemoveClient(c: ClientId)
      requires Valid()
      modifies this`mUnMatchingClients
      ensures Valid()
      ensures mUnMatchingClients == Left(old(mUnMatchingClients), c)
      ensures forall b :: b in Clients(mUnMatchingClients) <==> b in Clients(old(mUnMatchingClients)) && b != c
    {
      hide HistoryOK, Without, Left;
      ghost var before := mUnMatchingClients;
      HistoryLeft(before, log, c);
      LeftClients(before, c);
      var it := 0;
      while it < |mUnMatchingClients|
        invariant 0 <= it <= |mUnMatchingClients|
        invariant mUnMatchingClients[..it] + Left(mUnMatchingClients[it..], c) == Left(before, c)
        decreases |mUnMatchingClients| - it
      {
        LeftStep(mUnMatchingClients, it, c);
        if mUnMatchingClients[it].client != c {
          var info := DropHistory(mUnMatchingClients[it], c);
          mUnMatchingClients := mUnMatchingClients[it := info];
          it := it + 1;
        } else {
          mUnMatchingClients := RemoveAt(mUnMatchingClients, it);
        }
      }
      LeftDone(mUnMatchingClients, c);
    }
  }

  lemma LeftStep(infos: seq<BattleInfo>, it: nat, c: ClientId)
    requires it < |infos|
    ensures var info := BattleInfo(infos[it].client, Without(infos[it].histories, c));
            infos[..it] + Left(infos[it..], c)
            == if infos[it].client != c then infos[it := info][..it + 1] + Left(infos[it := info][it + 1..], c)
               else RemoveAt(infos, it)[..it] + Left(RemoveAt(infos, it)[it..], c)
  {
    hide Left, Without;
    var info := BattleInfo(infos[it].client, Without(infos[it].histories, c));
    LeftUnfold(infos[it..], c);
    assert infos[it..][1..] == infos[it + 1..];
    assert infos[it := info][..it + 1] == infos[..it] + [info];
    assert infos[it := info][it + 1..] == infos[it + 1..];
    assert RemoveAt(infos, it)[..it] == infos[..it] && RemoveAt(infos, it)[it..] == infos[it + 1..];
    var rest := Left(infos[it + 1..], c);
    assert infos[..it] + ([info] + rest) == (infos[..it] + [info]) + rest;
    assert [] + rest == rest;
  }

  lemma LeftDone(infos: seq<BattleInfo>, c: ClientId)
    ensures infos[..|infos|] + Left(infos[|infos|..], c) == infos
  {
  }

  method NewRecord(client: ClientId, clients: seq<ClientId>) returns (info: BattleInfo)
    requires Distinct(clients)
    ensures info.client == client && Recorded(info, clients, [])
  {
    var hs: seq<History> := [];
    for i := 0 to |clients|
      invariant forall h :: h in hs ==> h.count == 0 && h.client != client
      invariant forall c :: (exists k :: 0 <= k < |hs| && hs[k].client == c) <==> c in clients[..i] && c != client
      invariant forall k, l :: 0 <= k < l < |hs| ==> hs[k].client != hs[l].client
    {
      if clients[i] != client {
        ghost var old_hs := hs;
        assert clients[i] !in clients[..i];
        hs := hs + [History(clients[i], 0)];
        assert hs[|old_hs|].client == clients[i];
        assert forall k :: 0 <= k < |old_hs| ==> hs[k] == old_hs[k];
      }
      assert clients[..i + 1] == clients[..i] + [clients[i]];
    }
    assert clients[..|clients|] == clients;
    info := BattleInfo(client, hs);
    assert forall k :: 0 <= k < |hs| ==> Opponents(info)[k] == hs[k].client;
    forall k | 0 <= k < |hs|
      ensures hs[k].count == Meetings([], client, hs[k].client)
    {
      assert hs[k] in hs;
    }
  }

  lemma CountsUsable(infos: seq<BattleInfo>, m: nat, c: ClientId)
    requires CountsAtMost(infos, m)
    ensures forall info :: info in infos ==> Count(info.histories, c) <= m
  {
    forall info | info in infos
      ensures Count(info.histories, c) <= m
    {
      CountBound(info.histories, c, m);
    }
  }

  lemma BumpAtMost(un: seq<BattleInfo>, mat: seq<BattleInfo>, j: nat, m: nat)
    requires 1 <= j < |un| && CountsAtMost(un, m) && CountsAtMost(mat, m + 1)
    ensures CountsAtMost(Others(un, j), m)
    ensures CountsAtMost(mat + [Bump(un[j], un[0].client), Bump(un[0], un[j].client)], m + 1)
  {
    QueueSplit(un, j);
    forall info | info in Others(un, j)
      ensures info in un
    {
    }
    BumpOne(un[j], un[0].client, m);
    BumpOne(un[0], un[j].client, m);
  }

  lemma GhostAtMost(un: seq<BattleInfo>, mat: seq<BattleInfo>, m: nat)
    requires |un| == 1 && CountsAtMost(un, m) && CountsAtMost(mat, m + 1)
    ensures CountsAtMost(un[1..], m) && CountsAtMost(mat + [un[0]], m + 1)
  {
    assert un[0] in un;
  }

  lemma NobodyBounded(m: nat)
    ensures CountsAtMost([], m)
  {
  }

  lemma BumpOne(info: BattleInfo, c: ClientId, m: nat)
    requires forall h :: h in info.histories ==> h.count <= m
    ensures forall h :: h in Bump(info, c).histories ==> h.count <= m + 1
  {
    forall h | h in Bump(info, c).histories
      ensures h.count <= m + 1
    {
      var k :| 0 <= k < |info.histories| && Bumped(info.histories, c)[k] == h;
      assert info.histories[k] in info.histories;
    }
  }

  lemma PairStep(queue: seq<BattleInfo>, done: seq<BattleInfo>, attack: ClientId -> int, coins: nat -> bool)
    requires |queue| >= 2
    ensures var j := 1 + MinIndex(queue[1..], queue[0].client);
            var x, y := queue[0], queue[j];
            var rest := PairUp(Others(queue, j), done + [Bump(y, x.client), Bump(x, y.client)], attack, coins);
            PairUp(queue, done, attack, coins)
            == Round(Ordered(x.client, y.client, attack(x.client), attack(y.client), coins(|queue|)) + rest.list, rest.infos)
  {
    hide Count, Bump, MinIndex, Ordered;
  }

  lemma GhostStep(queue: seq<BattleInfo>, done: seq<BattleInfo>, attack: ClientId -> int, coins: nat -> bool)
    requires |queue| == 1 && done != []
    ensures var x := queue[0];
            var y := done[MinIndex(done, x.client)].client;
            var rest := PairUp(queue[1..], done + [x], attack, coins);
            PairUp(queue, done, attack, coins)
            == Round(Ordered(x.client, Ghost(y), attack(x.client), attack(y), coins(1)) + rest.list, rest.infos)
  {
    assert queue[1..] == [];
  }

  lemma NoneLeft(done: seq<BattleInfo>, attack: ClientId -> int, coins: nat -> bool)
    ensures PairUp([], done, attack, coins) == Round([], done)
  {
  }
}

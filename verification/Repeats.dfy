/** When a round of opponent selection pairs two players again who have already met. */
module Repeats {
  import opened Matching
  import opened BattleManager
  import opened Fairness

  /** What two players have stored about each other is the same number. */
  ghost predicate Symmetric(queue: seq<BattleInfo>) {
    forall i, k :: 0 <= i < |queue| && 0 <= k < |queue| && i != k ==>
      Count(queue[i].histories, queue[k].client) == Count(queue[k].histories, queue[i].client)
  }

  /** The i-th and the k-th player have met before and stand side by side in the list. */
  ghost predicate Again(queue: seq<BattleInfo>, list: seq<int>, i: nat, k: nat)
    requires i < |queue| && k < |queue|
  {
    i != k && Meets(list, queue[i].client, queue[k].client) && Count(queue[k].histories, queue[i].client) > 0
  }

  ghost predicate Repeated(queue: seq<BattleInfo>, list: seq<int>) {
    exists i, k :: 0 <= i < |queue| && 0 <= k < |queue| && Again(queue, list, i, k)
  }

  /** Everybody who still waits has met the player in front. */
  predicate NobodyFresh(queue: seq<BattleInfo>)
    requires queue != []
  {
    forall k :: 1 <= k < |queue| ==> Count(queue[k].histories, queue[0].client) > 0
  }

  /** In a shuffled queue: the player in front has met everybody behind it, or that is so later on,
      each time the front has left with its least-met opponent. */
  predicate Stuck(queue: seq<BattleInfo>)
    decreases |queue|
  {
    |queue| >= 2 && (NobodyFresh(queue) || Stuck(Others(queue, 1 + MinIndex(queue[1..], queue[0].client))))
  }

  /** The front of the queue fights somebody again exactly when it has already fought everybody
      who still waits. */
  lemma RepeatsOnlyWhenNobodyFresh(queue: seq<BattleInfo>)
    requires |queue| >= 2
    ensures Count(queue[1 + MinIndex(queue[1..], queue[0].client)].histories, queue[0].client) > 0
       <==> forall k :: 1 <= k < |queue| ==> Count(queue[k].histories, queue[0].client) > 0
  {
    var j := 1 + MinIndex(queue[1..], queue[0].client);
    forall k | 1 <= k < |queue|
      ensures Count(queue[j].histories, queue[0].client) <= Count(queue[k].histories, queue[0].client)
    {
      assert queue[1..][k - 1] == queue[k];
    }
  }

  lemma PickIsOld(queue: seq<BattleInfo>, j: nat)
    requires |queue| >= 2 && j == 1 + MinIndex(queue[1..], queue[0].client)
    ensures Count(queue[j].histories, queue[0].client) > 0 <==> NobodyFresh(queue)
  {
    RepeatsOnlyWhenNobodyFresh(queue);
  }

  /** Where the k-th of the others stood. */
  function Place(j: nat, k: nat): nat { if k + 1 < j then k + 1 else k + 2 }

  lemma OthersAt(queue: seq<BattleInfo>, j: nat, k: nat)
    requires 1 <= j < |queue| && k < |queue| - 2
    ensures |Others(queue, j)| == |queue| - 2 && Others(queue, j)[k] == queue[Place(j, k)]
    ensures Place(j, k) < |queue| && Place(j, k) != 0 && Place(j, k) != j
  {
  }

  /** Everybody else is among the others. */
  lemma AmongOthers(queue: seq<BattleInfo>, j: nat, i: nat) returns (k: nat)
    requires 1 <= j < |queue| && i < |queue| && i != 0 && i != j
    ensures k < |queue| - 2 && Place(j, k) == i && Others(queue, j)[k] == queue[i]
  {
    k := if i < j then i - 1 else i - 2;
    OthersAt(queue, j, k);
  }

  lemma OthersSymmetric(queue: seq<BattleInfo>, j: nat)
    requires 1 <= j < |queue| && Symmetric(queue)
    ensures Symmetric(Others(queue, j))
  {
    hide Count;
    var rest := Others(queue, j);
    forall i, k | 0 <= i < |rest| && 0 <= k < |rest| && i != k
      ensures Count(rest[i].histories, rest[k].client) == Count(rest[k].histories, rest[i].client)
    {
      OthersAt(queue, j, i);
      OthersAt(queue, j, k);
      assert Place(j, i) != Place(j, k);
    }
  }

  lemma ClientsSize(infos: seq<BattleInfo>)
    ensures |Clients(infos)| == |infos|
  {
  }

  lemma ClientIn(queue: seq<BattleInfo>, i: nat)
    requires i < |queue|
    ensures Clients(queue)[i] == queue[i].client && queue[i].client in Clients(queue)
  {
    assert Clients(queue)[i] == queue[i].client;
  }

  lemma SameSeat(queue: seq<BattleInfo>, i: nat, k: nat)
    requires Distinct(Clients(queue)) && i < |queue| && k < |queue| && queue[i].client == queue[k].client
    ensures i == k
  {
    ClientIn(queue, i);
    ClientIn(queue, k);
  }

  /** Who is paired with somebody in the rest of the list is one of the others. */
  lemma PairedLater(queue: seq<BattleInfo>, j: nat, done: seq<BattleInfo>, attack: ClientId -> int, coins: nat -> bool, i: nat, b: int)
    requires 1 <= j < |queue| && Distinct(Clients(queue)) && i < |queue| && (|queue| == 3 ==> done != [])
    requires Meets(PairUp(Others(queue, j), done, attack, coins).list, queue[i].client, b)
    ensures i != 0 && i != j
  {
    hide PairUp, Meets, Real, Clients, Others;
    var rest := Others(queue, j);
    OthersSize(queue, j);
    OthersDistinct(queue, j);
    ExactCover(rest, done, attack, coins);
    var list := PairUp(rest, done, attack, coins).list;
    MeetsReal(list, queue[i].client, b);
    SameMembers(Real(list), Clients(rest));
  }

  lemma OthersSize(queue: seq<BattleInfo>, j: nat)
    requires 1 <= j < |queue|
    ensures |Others(queue, j)| == |queue| - 2
  {
  }

  /** A repetition among the others is one of the whole round. */
  lemma RepeatedLater(queue: seq<BattleInfo>, j: nat, pair: seq<int>, list: seq<int>)
    requires 1 <= j < |queue| && |pair| == 2 && Repeated(Others(queue, j), list)
    ensures Repeated(queue, pair + list)
  {
    hide Meets, Count;
    var rest := Others(queue, j);
    var i, k :| 0 <= i < |rest| && 0 <= k < |rest| && Again(rest, list, i, k);
    OthersSize(queue, j);
    OthersAt(queue, j, i);
    OthersAt(queue, j, k);
    MeetsCons(pair, list, rest[i].client, rest[k].client);
    assert Again(queue, pair + list, Place(j, i), Place(j, k));
  }

  /** A repetition is in the first pair, or later among the others. */
  lemma RepeatedNowOrLater(queue: seq<BattleInfo>, done: seq<BattleInfo>, attack: ClientId -> int, coins: nat -> bool, j: nat, pair: seq<int>, i: nat, k: nat)
    requires Distinct(Clients(queue)) && Symmetric(queue) && 1 <= j < |queue| && (|queue| == 3 ==> done != [])
    requires pair == [queue[0].client, queue[j].client] || pair == [queue[j].client, queue[0].client]
    requires i < |queue| && k < |queue| && Again(queue, pair + PairUp(Others(queue, j), done, attack, coins).list, i, k)
    ensures Count(queue[j].histories, queue[0].client) > 0 || Repeated(Others(queue, j), PairUp(Others(queue, j), done, attack, coins).list)
  {
    hide PairUp, Meets, Count, Clients;
    var list := PairUp(Others(queue, j), done, attack, coins).list;
    var a, b := queue[i].client, queue[k].client;
    MeetsCons(pair, list, a, b);
    ClientIn(queue, 0);
    ClientIn(queue, j);
    ClientIn(queue, i);
    ClientIn(queue, k);
    if pair == [a, b] || pair == [b, a] {
      if queue[i].client == queue[0].client {
        SameSeat(queue, i, 0);
        SameSeat(queue, k, j);
      } else {
        SameSeat(queue, i, j);
        SameSeat(queue, k, 0);
      }
    } else {
      MeetsSymmetric(list, a, b);
      PairedLater(queue, j, done, attack, coins, i, b);
      PairedLater(queue, j, done, attack, coins, k, a);
      var i' := AmongOthers(queue, j, i);
      var k' := AmongOthers(queue, j, k);
      OthersSize(queue, j);
      assert Again(Others(queue, j), list, i', k');
    }
  }

  /** A round repeats a pair if and only if its shuffled queue is stuck; attack states and coins
      have no part in it. */
  lemma {:induction false} RoundRepeats(queue: seq<BattleInfo>, done: seq<BattleInfo>, attack: ClientId -> int, coins: nat -> bool)
    requires Distinct(Clients(queue)) && Symmetric(queue) && (|queue| == 1 ==> done != [])
    ensures Repeated(queue, PairUp(queue, done, attack, coins).list) <==> Stuck(queue)
    decreases |queue|
  {
    hide PairUp, Meets, Count, Clients, Symmetric, Distinct, Others, MinIndex, Bump;
    if |queue| >= 2 {
      var j := 1 + MinIndex(queue[1..], queue[0].client);
      var x, y := queue[0], queue[j];
      var pair := Ordered(x.client, y.client, attack(x.client), attack(y.client), coins(|queue|));
      var done' := done + [Bump(y, x.client), Bump(x, y.client)];
      PairStep(queue, done, attack, coins);
      OthersSize(queue, j);
      OthersDistinct(queue, j);
      OthersSymmetric(queue, j);
      var rest := Others(queue, j);
      RoundRepeats(rest, done', attack, coins);
      PickIsOld(queue, j);
      var list := PairUp(rest, done', attack, coins).list;
      if Stuck(rest) {
        RepeatedLater(queue, j, pair, list);
      }
      if NobodyFresh(queue) {
        MeetsCons(pair, list, x.client, y.client);
        assert Again(queue, pair + list, 0, j);
      }
      if Repeated(queue, pair + list) {
        var i, k :| 0 <= i < |queue| && 0 <= k < |queue| && Again(queue, pair + list, i, k);
        RepeatedNowOrLater(queue, done', attack, coins, j, pair, i, k);
      }
    }
  }

  /** For the battle manager's own state: two players who have met in an earlier round are paired
      again exactly when the shuffled records are stuck. */
  lemma SelectionRepeats(shuffled: seq<BattleInfo>, log: seq<seq<int>>, attack: ClientId -> int, coins: nat -> bool)
    requires |shuffled| >= 2 && HistoryOK(shuffled, log)
    ensures (exists i, k :: 0 <= i < |shuffled| && 0 <= k < |shuffled| && i != k &&
               Meetings(log, shuffled[k].client, shuffled[i].client) > 0 &&
               Meets(PairUp(shuffled, [], attack, coins).list, shuffled[i].client, shuffled[k].client))
       <==> Stuck(shuffled)
  {
    hide PairUp, Meets, Count, Clients, HistoryOK, Meetings, Stuck;
    var list := PairUp(shuffled, [], attack, coins).list;
    HistoryDistinct(shuffled, log);
    assert Symmetric(shuffled) by {
      forall i, k | 0 <= i < |shuffled| && 0 <= k < |shuffled| && i != k
        ensures Count(shuffled[i].histories, shuffled[k].client) == Count(shuffled[k].histories, shuffled[i].client)
      {
        StoredCount(shuffled, log, i, k);
      }
    }
    RoundRepeats(shuffled, [], attack, coins);
    if Repeated(shuffled, list) {
      var i, k :| 0 <= i < |shuffled| && 0 <= k < |shuffled| && Again(shuffled, list, i, k);
      StoredCount(shuffled, log, k, i);
    }
    forall i, k | 0 <= i < |shuffled| && 0 <= k < |shuffled| && i != k &&
        Meetings(log, shuffled[k].client, shuffled[i].client) > 0 && Meets(list, shuffled[i].client, shuffled[k].client)
      ensures Repeated(shuffled, list)
    {
      StoredCount(shuffled, log, k, i);
      assert Again(shuffled, list, i, k);
    }
  }

  // ---- Eight players ----

  /** A fresh opponent right behind the front is taken. */
  lemma FreshSecond(queue: seq<BattleInfo>, done: seq<BattleInfo>, attack: ClientId -> int, coins: nat -> bool)
      returns (pair: seq<int>, done': seq<BattleInfo>)
    requires |queue| >= 2 && Count(queue[1].histories, queue[0].client) == 0
    requires |queue| == 3 ==> done != []
    ensures pair == [queue[0].client, queue[1].client] || pair == [queue[1].client, queue[0].client]
    ensures done' != []
    ensures PairUp(queue, done, attack, coins).list == pair + PairUp(queue[2..], done', attack, coins).list
  {
    hide PairUp, Bump;
    assert queue[1..][0] == queue[1];
    PairStep(queue, done, attack, coins);
    var x, y := queue[0], queue[1];
    pair := Ordered(x.client, y.client, attack(x.client), attack(y.client), coins(|queue|));
    done' := done + [Bump(y, x.client), Bump(x, y.client)];
    assert Others(queue, 1) == queue[2..];
  }

  lemma OneRoundMeetings(list: seq<int>, a: int, b: int)
    ensures Meetings([list], a, b) == if Meets(list, a, b) then 1 else 0
  {
    assert Meetings([list][..0], a, b) == 0;
  }

  /** When each of the first three fronts finds a fresh opponent right behind, the last two are
      left for each other, fresh or not. */
  lemma LastTwoMeet(queue: seq<BattleInfo>, attack: ClientId -> int, coins: nat -> bool)
    requires |queue| == 8
    requires Count(queue[1].histories, queue[0].client) == 0
    requires Count(queue[3].histories, queue[2].client) == 0
    requires Count(queue[5].histories, queue[4].client) == 0
    ensures Meets(PairUp(queue, [], attack, coins).list, queue[6].client, queue[7].client)
  {
    hide PairUp, Count, Meets;
    var p1, d1 := FreshSecond(queue, [], attack, coins);
    var p2, d2 := FreshSecond(queue[2..], d1, attack, coins);
    assert queue[2..][2..] == queue[4..];
    var p3, d3 := FreshSecond(queue[4..], d2, attack, coins);
    assert queue[4..][2..] == queue[6..];
    var p4 := TwoList(queue[6..], d3, attack, coins);
    var a, b := queue[6].client, queue[7].client;
    TwoPairs(p3, p4, a, b);
    MeetsCons(p2, p3 + p4, a, b);
    MeetsCons(p1, p2 + (p3 + p4), a, b);
  }

  /** The same records in another order. */
  lemma {:induction false} Arranged(infos: seq<BattleInfo>, order: seq<ClientId>) returns (queue: seq<BattleInfo>)
    requires multiset(Clients(infos)) == multiset(order)
    ensures multiset(queue) == multiset(infos) && Clients(queue) == order && |queue| == |infos|
    decreases |order|
  {
    hide Clients;
    SameMembers(Clients(infos), order);
    ClientsSize(infos);
    if order == [] {
      queue := [];
      ClientsSize(queue);
    } else {
      assert order[0] in Clients(infos);
      var i :| 0 <= i < |Clients(infos)| && Clients(infos)[i] == order[0];
      ClientIn(infos, i);
      var rest := infos[..i] + infos[i + 1..];
      OneOut(infos, i);
      FirstOf(order);
      Cancel(order[0], multiset(Clients(rest)), multiset(order[1..]));
      var arranged := Arranged(rest, order[1..]);
      queue := [infos[i]] + arranged;
      ClientsCons(infos[i], arranged);
    }
  }

  lemma FirstOf<T>(s: seq<T>)
    requires s != []
    ensures s == [s[0]] + s[1..] && multiset(s) == multiset{s[0]} + multiset(s[1..])
  {
    assert s == [s[0]] + s[1..];
  }

  lemma Cancel<T>(x: T, a: multiset<T>, b: multiset<T>)
    requires multiset{x} + a == multiset{x} + b
    ensures a == b
  {
    forall y
      ensures a[y] == b[y]
    {
      assert (multiset{x} + a)[y] == (multiset{x} + b)[y];
    }
  }

  lemma OneOut(infos: seq<BattleInfo>, i: nat)
    requires i < |infos|
    ensures multiset(infos) == multiset([infos[i]]) + multiset(infos[..i] + infos[i + 1..])
    ensures multiset(Clients(infos)) == multiset{infos[i].client} + multiset(Clients(infos[..i] + infos[i + 1..]))
  {
    assert infos == infos[..i] + ([infos[i]] + infos[i + 1..]);
    ClientsAppend(infos[..i], [infos[i]] + infos[i + 1..]);
    ClientsAppend([infos[i]], infos[i + 1..]);
    ClientsAppend(infos[..i], infos[i + 1..]);
    assert Clients([infos[i]]) == [infos[i].client];
  }

  /** The pairs of a round of eight fresh players: neighbours. */
  ghost predicate Neighbours(list: seq<int>, c: seq<ClientId>)
    requires |c| == 8
  {
    forall a: int, b: int :: Meets(list, a, b) <==> IsPair(c[0], c[1], a, b) || IsPair(c[2], c[3], a, b) ||
                                                    IsPair(c[4], c[5], a, b) || IsPair(c[6], c[7], a, b)
  }

  predicate IsPair(x: int, y: int, a: int, b: int) { (a == x && b == y) || (a == y && b == x) }

  lemma FreshRound(queue: seq<BattleInfo>, attack: ClientId -> int, coins: nat -> bool)
    requires |queue| == 8 && HistoryOK(queue, [])
    ensures Neighbours(PairUp(queue, [], attack, coins).list, Clients(queue))
  {
    hide PairUp, Meets, HistoryOK, Count;
    StoredCount(queue, [], 1, 0);
    StoredCount(queue, [], 3, 2);
    StoredCount(queue, [], 5, 4);
    var p1, d1 := FreshSecond(queue, [], attack, coins);
    var p2, d2 := FreshSecond(queue[2..], d1, attack, coins);
    assert queue[2..][2..] == queue[4..];
    var p3, d3 := FreshSecond(queue[4..], d2, attack, coins);
    assert queue[4..][2..] == queue[6..];
    var p4 := TwoList(queue[6..], d3, attack, coins);
    var c := Clients(queue);
    forall a: int, b: int
      ensures Meets(p1 + (p2 + (p3 + p4)), a, b) <==> IsPair(c[0], c[1], a, b) || IsPair(c[2], c[3], a, b) ||
                                                      IsPair(c[4], c[5], a, b) || IsPair(c[6], c[7], a, b)
    {
      MeetsCons(p1, p2 + (p3 + p4), a, b);
      MeetsCons(p2, p3 + p4, a, b);
      TwoPairs(p3, p4, a, b);
    }
  }

  /** The failing run: from fresh records of eight players, whatever the attack states and coins,
      two shuffles lead to a second round that pairs two players again, although everybody still
      has six others to meet. */
  lemma EightCanRepeat(s: State, attack1: ClientId -> int, coins1: nat -> bool, attack2: ClientId -> int, coins2: nat -> bool)
      returns (s1: State, s2: State)
    requires |s.infos| == 8 && s.log == [] && HistoryOK(s.infos, [])
    ensures RoundStep(s, s1) && RoundStep(s1, s2) && |s2.log| == 2
    ensures exists a, b :: a in Clients(s.infos) && b in Clients(s.infos) && a != b && Meets(s2.log[0], a, b) && Meets(s2.log[1], a, b)
  {
    hide PairUp, Meets, HistoryOK, Count, Clients, Neighbours, RoundStep, SecondOrder;
    var c := Clients(s.infos);
    HistoryDistinct(s.infos, []);
    var r1 := PairUp(s.infos, [], attack1, coins1);
    s1 := PlayRound(s, s.infos, attack1, coins1);
    assert [] + [r1.list] == [r1.list];
    FreshRound(s.infos, attack1, coins1);
    assert |c| == 8 by { ClientsSize(s.infos); }
    var order := SecondOrder(c);
    SecondOrderKeeps(c);
    SameMembers(Clients(s1.infos), order);
    var queue := Arranged(s1.infos, order);
    ClientsSize(queue);
    HistoryShuffled(s1.infos, queue, s1.log);
    ThreeFresh(queue, c, r1.list);
    LastTwoMeet(queue, attack2, coins2);
    s2 := PlayRound(s1, queue, attack2, coins2);
    assert s2.log[0] == r1.list;
    LastPair(queue, c, r1.list);
    assert c[6] in c && c[7] in c;
  }

  /** One round from this shuffle. */
  lemma PlayRound(s: State, shuffled: seq<BattleInfo>, attack: ClientId -> int, coins: nat -> bool) returns (s': State)
    requires |s.infos| >= 2 && |shuffled| == |s.infos| && multiset(shuffled) == multiset(s.infos) && HistoryOK(s.infos, s.log)
    ensures s' == State(PairUp(shuffled, [], attack, coins).infos, s.log + [PairUp(shuffled, [], attack, coins).list])
    ensures RoundStep(s, s') && HistoryOK(s'.infos, s'.log)
    ensures multiset(Clients(s'.infos)) == multiset(Clients(s.infos))
  {
    hide PairUp, HistoryOK, Clients;
    s' := State(PairUp(shuffled, [], attack, coins).infos, s.log + [PairUp(shuffled, [], attack, coins).list]);
    StepKeepsHistory(s, s');
  }

  function SecondOrder<T>(c: seq<T>): (order: seq<T>)
    requires |c| == 8
    ensures |order| == 8
  {
    [c[0], c[2], c[1], c[4], c[3], c[5], c[6], c[7]]
  }

  lemma Exchange<T>(s: seq<T>, i: nat, j: nat)
    requires i < |s| && j < |s|
    ensures multiset(SwapOf(s, i, j)) == multiset(s)
  {
  }

  function SwapOf<T>(s: seq<T>, i: nat, j: nat): (s': seq<T>)
    requires i < |s| && j < |s|
    ensures |s'| == |s|
  {
    s[i := s[j]][j := s[i]]
  }

  lemma TwoSwaps<T>(c: seq<T>)
    requires |c| == 8
    ensures SecondOrder(c) == SwapOf(SwapOf(c, 1, 2), 3, 4)
  {
  }

  lemma SecondOrderKeeps<T>(c: seq<T>)
    requires |c| == 8
    ensures multiset(SecondOrder(c)) == multiset(c)
  {
    hide SecondOrder, SwapOf;
    TwoSwaps(c);
    Exchange(c, 1, 2);
    Exchange(SwapOf(c, 1, 2), 3, 4);
  }

  /** In this order the first three fronts find somebody new right behind them. */
  lemma ThreeFresh(queue: seq<BattleInfo>, c: seq<ClientId>, list: seq<int>)
    requires |c| == 8 && Distinct(c) && Clients(queue) == SecondOrder(c) && |queue| == 8
    requires HistoryOK(queue, [list]) && Neighbours(list, c)
    ensures Count(queue[1].histories, queue[0].client) == 0
    ensures Count(queue[3].histories, queue[2].client) == 0
    ensures Count(queue[5].histories, queue[4].client) == 0
  {
    hide HistoryOK, Count, Meets;
    StoredCount(queue, [list], 1, 0);
    StoredCount(queue, [list], 3, 2);
    StoredCount(queue, [list], 5, 4);
    assert forall i :: 0 <= i < 8 ==> Clients(queue)[i] == queue[i].client;
    OneRoundMeetings(list, c[2], c[0]);
    OneRoundMeetings(list, c[4], c[1]);
    OneRoundMeetings(list, c[5], c[3]);
  }

  /** The last two have met in the first round. */
  lemma LastPair(queue: seq<BattleInfo>, c: seq<ClientId>, list: seq<int>)
    requires |c| == 8 && Distinct(c) && Clients(queue) == SecondOrder(c) && |queue| == 8 && Neighbours(list, c)
    ensures queue[6].client == c[6] && queue[7].client == c[7] && c[6] != c[7] && Meets(list, c[6], c[7])
  {
    hide Meets;
    assert Clients(queue)[6] == queue[6].client && Clients(queue)[7] == queue[7].client;
  }
}

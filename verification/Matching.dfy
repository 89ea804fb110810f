/** Pairing the players of a room: what one round of opponent selection computes. */
module Matching {

  type ClientId = nat

  /** How often the owner of the list has fought `client`. */
  datatype History = History(client: ClientId, count: nat)

  datatype BattleInfo = BattleInfo(client: ClientId, histories: seq<History>)

  /** The stored count of `c`, 0 when `c` is not listed. */
  function Count(hs: seq<History>, c: ClientId): nat {
    if hs == [] then 0
    else if hs[0].client == c then hs[0].count
    else Count(hs[1..], c)
  }

  /** Every entry of `c` one higher. */
  function Bumped(hs: seq<History>, c: ClientId): seq<History> {
    seq(|hs|, i requires 0 <= i < |hs| =>
      if hs[i].client == c then History(c, hs[i].count + 1) else hs[i])
  }

  function Bump(info: BattleInfo, c: ClientId): BattleInfo {
    BattleInfo(info.client, Bumped(info.histories, c))
  }

  /** The first position whose owner has met `c` least often. */
  function MinIndex(infos: seq<BattleInfo>, c: ClientId): (k: nat)
    requires infos != []
    ensures k < |infos|
    ensures forall j :: 0 <= j < |infos| ==> Count(infos[k].histories, c) <= Count(infos[j].histories, c)
    ensures forall j :: 0 <= j < k ==> Count(infos[k].histories, c) < Count(infos[j].histories, c)
  {
    if |infos| == 1 then 0
    else
      var k := MinIndex(infos[..|infos| - 1], c);
      if Count(infos[|infos| - 1].histories, c) < Count(infos[k].histories, c) then |infos| - 1 else k
  }

  /** Bitwise complement: the id under which a player fights a second time, as a ghost. */
  function Ghost(id: ClientId): int { -1 - id }

  /** Whose avatar an entry of the opponent list is. */
  function Fighter(entry: int): ClientId { if entry >= 0 then entry else -1 - entry }

  /** Who strikes first: the higher attack state, and a coin when they are equal. */
  function Ordered(a: int, b: int, stateA: int, stateB: int, coin: bool): seq<int> {
    if stateA == stateB then (if coin then [a, b] else [b, a])
    else if stateA > stateB then [a, b] else [b, a]
  }

  /** The opponent list of a round, and everyone's record after it. */
  datatype Round = Round(list: seq<int>, infos: seq<BattleInfo>)

  function RemoveAt<T>(s: seq<T>, i: nat): seq<T>
    requires i < |s|
  {
    s[..i] + s[i + 1..]
  }

  /** Pairs the players waiting in `queue`, front first; `done` are those already paired. */
  function PairUp(queue: seq<BattleInfo>, done: seq<BattleInfo>, attack: ClientId -> int, coins: nat -> bool): Round
    requires |queue| == 1 ==> done != []
    decreases |queue|
  {
    if queue == [] then Round([], done)
    else
      var x := queue[0];
      if |queue| == 1 then
        var y := done[MinIndex(done, x.client)].client;
        Round(Ordered(x.client, Ghost(y), attack(x.client), attack(y), coins(1)), done + [x])
      else
        var j := 1 + MinIndex(queue[1..], x.client);
        var y := queue[j];
        var rest := PairUp(RemoveAt(queue, j)[1..], done + [Bump(y, x.client), Bump(x, y.client)], attack, coins);
        Round(Ordered(x.client, y.client, attack(x.client), attack(y.client), coins(|queue|)) + rest.list, rest.infos)
  }

  function Clients(infos: seq<BattleInfo>): seq<ClientId> {
    seq(|infos|, i requires 0 <= i < |infos| => infos[i].client)
  }

  ghost predicate Distinct<T>(s: seq<T>) {
    forall i, j :: 0 <= i < j < |s| ==> s[i] != s[j]
  }

  /** The real (non-ghost) entries of an opponent list. */
  function Real(list: seq<int>): seq<ClientId> {
    if list == [] then []
    else (if list[0] >= 0 then [list[0]] else []) + Real(list[1..])
  }

  /** a and b stand side by side as a pair of the list. */
  predicate Meets(list: seq<int>, a: int, b: int) {
    |list| >= 2 &&
    ((list[0] == a && list[1] == b) || (list[0] == b && list[1] == a) || Meets(list[2..], a, b))
  }

  /** The record of a player once the meetings of the list are added. */
  function AfterRound(info: BattleInfo, list: seq<int>): BattleInfo {
    BattleInfo(info.client,
      seq(|info.histories|, i requires 0 <= i < |info.histories| =>
        var h := info.histories[i];
        History(h.client, h.count + if Meets(list, info.client, h.client) then 1 else 0)))
  }

  function AllAfter(infos: seq<BattleInfo>, list: seq<int>): seq<BattleInfo> {
    seq(|infos|, i requires 0 <= i < |infos| => AfterRound(infos[i], list))
  }

  // ---- Exact cover ----

  lemma {:induction false} RealAppend(a: seq<int>, b: seq<int>)
    ensures Real(a + b) == Real(a) + Real(b)
  {
    hide Real;
    RealEmpty();
    if a == [] {
      assert a + b == b;
    } else {
      RealUnfold(a);
      RealUnfold(a + b);
      RealAppend(a[1..], b);
      assert (a + b)[1..] == a[1..] + b;
      var head := if a[0] >= 0 then [a[0]] else [];
      assert head + (Real(a[1..]) + Real(b)) == (head + Real(a[1..])) + Real(b);
    }
  }

  lemma RealEmpty()
    ensures Real([]) == []
  {
  }

  lemma RealUnfold(a: seq<int>)
    requires a != []
    ensures Real(a) == (if a[0] >= 0 then [a[0]] else []) + Real(a[1..])
  {
  }

  lemma RealPair(a: int, b: int)
    ensures Real([a, b]) == (if a >= 0 then [a] else []) + (if b >= 0 then [b] else [])
  {
    assert [a, b][1..] == [b];
    assert [b][1..] == [];
    assert Real([]) == [];
    assert Real([b]) == (if b >= 0 then [b] else []);
  }

  /** What is left of the queue when the front and the j-th player leave it. */
  function Others(queue: seq<BattleInfo>, j: nat): seq<BattleInfo>
    requires 1 <= j < |queue|
  {
    RemoveAt(queue, j)[1..]
  }

  lemma ClientsAppend(a: seq<BattleInfo>, b: seq<BattleInfo>)
    ensures Clients(a + b) == Clients(a) + Clients(b)
  {
  }

  lemma QueueSplit(queue: seq<BattleInfo>, j: nat)
    requires 1 <= j < |queue|
    ensures multiset(Clients(queue)) == multiset{queue[0].client, queue[j].client} + multiset(Clients(Others(queue, j)))
    ensures Others(queue, j) == queue[1..j] + queue[j + 1..]
  {
    var a, b := queue[1..j], queue[j + 1..];
    assert queue == [queue[0]] + (a + ([queue[j]] + b));
    ClientsAppend([queue[0]], a + ([queue[j]] + b));
    ClientsAppend(a, [queue[j]] + b);
    ClientsAppend([queue[j]], b);
    ClientsAppend(a, b);
    assert Others(queue, j) == a + b;
    assert Clients([queue[0]]) == [queue[0].client];
    assert Clients([queue[j]]) == [queue[j].client];
  }

  /** The first step of pairing two or more players. */
  lemma PairFirst(queue: seq<BattleInfo>, done: seq<BattleInfo>, attack: ClientId -> int, coins: nat -> bool)
      returns (j: nat, pair: seq<int>, done': seq<BattleInfo>)
    requires |queue| >= 2
    ensures 1 <= j < |queue|
    ensures forall k :: 1 <= k < |queue| ==>
              Count(queue[j].histories, queue[0].client) <= Count(queue[k].histories, queue[0].client)
    ensures var x, y := queue[0], queue[j];
            pair == Ordered(x.client, y.client, attack(x.client), attack(y.client), coins(|queue|)) &&
            done' == done + [Bump(y, x.client), Bump(x, y.client)]
    ensures var rest := PairUp(Others(queue, j), done', attack, coins);
            PairUp(queue, done, attack, coins) == Round(pair + rest.list, rest.infos)
  {
    j := 1 + MinIndex(queue[1..], queue[0].client);
    var x, y := queue[0], queue[j];
    pair := Ordered(x.client, y.client, attack(x.client), attack(y.client), coins(|queue|));
    done' := done + [Bump(y, x.client), Bump(x, y.client)];
    forall k | 1 <= k < |queue|
      ensures Count(queue[j].histories, x.client) <= Count(queue[k].histories, x.client)
    {
      assert queue[1..][k - 1] == queue[k];
    }
  }

  ghost predicate Covers(queue: seq<BattleInfo>, done: seq<BattleInfo>, r: Round) {
    multiset(Real(r.list)) == multiset(Clients(queue)) &&
    multiset(Clients(r.infos)) == multiset(Clients(done)) + multiset(Clients(queue)) &&
    Seats(|queue|, r.list)
  }

  /** Two seats a pair, and a ghost only in the last pair of an odd number. */
  ghost predicate Seats(n: nat, list: seq<int>) {
    |list| == 2 * ((n + 1) / 2) &&
    (forall i :: 0 <= i < |list| && list[i] < 0 ==> n % 2 == 1 && i >= |list| - 2)
  }

  lemma CoverOne(queue: seq<BattleInfo>, done: seq<BattleInfo>, attack: ClientId -> int, coins: nat -> bool)
    requires |queue| == 1 && done != []
    ensures Covers(queue, done, PairUp(queue, done, attack, coins))
  {
    var x := queue[0];
    var y := done[MinIndex(done, x.client)].client;
    RealPair(x.client, Ghost(y));
    RealPair(Ghost(y), x.client);
    assert Clients(queue) == [x.client];
    ClientsAppend(done, [x]);
    assert Clients([x]) == [x.client];
  }

  /** Every waiting player is listed exactly once, everyone's record is kept, and only with an
      odd number the last pair holds a ghost. */
  lemma {:induction false} ExactCover(queue: seq<BattleInfo>, done: seq<BattleInfo>, attack: ClientId -> int, coins: nat -> bool)
    requires |queue| == 1 ==> done != []
    ensures Covers(queue, done, PairUp(queue, done, attack, coins))
    decreases |queue|
  {
    if |queue| == 1 {
      CoverOne(queue, done, attack, coins);
    } else if |queue| > 1 {
      var j, pair, done' := PairFirst(queue, done, attack, coins);
      hide PairUp, Count;
      var x, y := queue[0], queue[j];
      var rest := Others(queue, j);
      ExactCover(rest, done', attack, coins);
      var r := PairUp(rest, done', attack, coins);
      QueueSplit(queue, j);
      CoverPair(queue, done, j, pair, r);
    }
  }

  lemma CoverPair(queue: seq<BattleInfo>, done: seq<BattleInfo>, j: nat, pair: seq<int>, r: Round)
    requires 1 <= j < |queue|
    requires pair == [queue[0].client, queue[j].client] || pair == [queue[j].client, queue[0].client]
    requires Covers(Others(queue, j), done + [Bump(queue[j], queue[0].client), Bump(queue[0], queue[j].client)], r)
    ensures Covers(queue, done, Round(pair + r.list, r.infos))
  {
    hide Others, Clients, Real, Seats;
    QueueSplit(queue, j);
    PairReal(queue, j, pair, r.list);
    PairInfos(queue, done, j, r.infos);
    PairSeats(|queue|, pair, r.list);
  }

  lemma PairSeats(n: nat, pair: seq<int>, list: seq<int>)
    requires n >= 2 && |pair| == 2 && pair[0] >= 0 && pair[1] >= 0
    requires Seats(n - 2, list)
    ensures Seats(n, pair + list)
  {
    var all := pair + list;
    forall i | 0 <= i < |all| && all[i] < 0
      ensures n % 2 == 1 && i >= |all| - 2
    {
      assert all[i] == list[i - 2];
    }
  }

  lemma PairReal(queue: seq<BattleInfo>, j: nat, pair: seq<int>, list: seq<int>)
    requires 1 <= j < |queue|
    requires pair == [queue[0].client, queue[j].client] || pair == [queue[j].client, queue[0].client]
    requires multiset(Real(list)) == multiset(Clients(Others(queue, j)))
    ensures multiset(Real(pair + list)) == multiset(Clients(queue))
  {
    hide Real, Clients, Others;
    QueueSplit(queue, j);
    RealAppend(pair, list);
    RealPair(pair[0], pair[1]);
  }

  lemma PairInfos(queue: seq<BattleInfo>, done: seq<BattleInfo>, j: nat, infos: seq<BattleInfo>)
    requires 1 <= j < |queue|
    requires var added := [Bump(queue[j], queue[0].client), Bump(queue[0], queue[j].client)];
             multiset(Clients(infos)) == multiset(Clients(done + added)) + multiset(Clients(Others(queue, j)))
    ensures multiset(Clients(infos)) == multiset(Clients(done)) + multiset(Clients(queue))
  {
    hide Others;
    var added := [Bump(queue[j], queue[0].client), Bump(queue[0], queue[j].client)];
    assert Clients(added) == [queue[j].client, queue[0].client];
    ClientsAppend(done, added);
    hide Clients;
    QueueSplit(queue, j);
  }

  // ---- Who stands first ----

  /** In every pair the attack state of the first is no lower than that of the second. */
  ghost predicate HigherFirst(list: seq<int>, attack: ClientId -> int) {
    |list| % 2 == 0 &&
    forall k {:trigger list[2 * k]} :: 0 <= k < |list| / 2 ==> attack(Fighter(list[2 * k])) >= attack(Fighter(list[2 * k + 1]))
  }

  lemma HigherCons(pair: seq<int>, list: seq<int>, attack: ClientId -> int)
    requires |pair| == 2 && attack(Fighter(pair[0])) >= attack(Fighter(pair[1])) && HigherFirst(list, attack)
    ensures HigherFirst(pair + list, attack)
  {
    var all := pair + list;
    forall k {:trigger all[2 * k]} | 0 <= k < |all| / 2
      ensures attack(Fighter(all[2 * k])) >= attack(Fighter(all[2 * k + 1]))
    {
      if k > 0 {
        assert all[2 * k] == list[2 * (k - 1)] && all[2 * k + 1] == list[2 * (k - 1) + 1];
      }
    }
  }

  lemma {:induction false} PairsInOrder(queue: seq<BattleInfo>, done: seq<BattleInfo>, attack: ClientId -> int, coins: nat -> bool)
    requires |queue| == 1 ==> done != []
    ensures HigherFirst(PairUp(queue, done, attack, coins).list, attack)
    decreases |queue|
  {
    if |queue| > 1 {
      var j, pair, done' := PairFirst(queue, done, attack, coins);
      hide PairUp, Count;
      PairsInOrder(Others(queue, j), done', attack, coins);
      HigherCons(pair, PairUp(Others(queue, j), done', attack, coins).list, attack);
    }
  }

  /** The k-th pair of two lists: the same, or the other way round. */
  ghost predicate SamePair(list: seq<int>, list': seq<int>, k: nat, turned: bool)
    requires 2 * k + 1 < |list| == |list'|
  {
    if turned then list'[2 * k] == list[2 * k + 1] && list'[2 * k + 1] == list[2 * k]
    else list'[2 * k] == list[2 * k] && list'[2 * k + 1] == list[2 * k + 1]
  }

  /** Two rounds of n players that differ in their coins only: the pairs are the same, and a pair
      is turned exactly when its states are equal and its own coins differ. */
  ghost predicate CoinsTurn(n: nat, list: seq<int>, list': seq<int>, attack: ClientId -> int, coins: nat -> bool, coins': nat -> bool) {
    |list| == |list'| == 2 * ((n + 1) / 2) &&
    forall k :: 0 <= k < |list| / 2 ==>
      SamePair(list, list', k, attack(Fighter(list[2 * k])) == attack(Fighter(list[2 * k + 1])) && coins(n - 2 * k) != coins'(n - 2 * k))
  }

  lemma CoinsCons(n: nat, pair: seq<int>, pair': seq<int>, list: seq<int>, list': seq<int>, attack: ClientId -> int, coins: nat -> bool, coins': nat -> bool)
    requires n >= 2 && |pair| == |pair'| == 2 && CoinsTurn(n - 2, list, list', attack, coins, coins')
    requires SamePair(pair, pair', 0, attack(Fighter(pair[0])) == attack(Fighter(pair[1])) && coins(n) != coins'(n))
    ensures CoinsTurn(n, pair + list, pair' + list', attack, coins, coins')
  {
    var all, all' := pair + list, pair' + list';
    forall k | 0 <= k < |all| / 2
      ensures SamePair(all, all', k, attack(Fighter(all[2 * k])) == attack(Fighter(all[2 * k + 1])) && coins(n - 2 * k) != coins'(n - 2 * k))
    {
      if k > 0 {
        var i := k - 1;
        assert n - 2 * k == n - 2 - 2 * i;
        assert all[2 * k] == list[2 * i] && all[2 * k + 1] == list[2 * i + 1];
        assert all'[2 * k] == list'[2 * i] && all'[2 * k + 1] == list'[2 * i + 1];
        assert SamePair(list, list', i, attack(Fighter(list[2 * i])) == attack(Fighter(list[2 * i + 1])) && coins(n - 2 - 2 * i) != coins'(n - 2 - 2 * i));
      }
    }
  }

  /** With equal states a pair's own coin alone decides who stands first, and coins decide
      nothing else. */
  lemma {:induction false} CoinsDecide(queue: seq<BattleInfo>, done: seq<BattleInfo>, attack: ClientId -> int, coins: nat -> bool, coins': nat -> bool)
    requires |queue| == 1 ==> done != []
    ensures var r, r' := PairUp(queue, done, attack, coins), PairUp(queue, done, attack, coins');
            r.infos == r'.infos && CoinsTurn(|queue|, r.list, r'.list, attack, coins, coins')
    decreases |queue|
  {
    hide PairUp, Count, CoinsTurn;
    if |queue| > 1 {
      var j, pair, pair', done' := PairEither(queue, done, attack, coins, coins');
      CoinsDecide(Others(queue, j), done', attack, coins, coins');
      CoinsCons(|queue|, pair, pair', PairUp(Others(queue, j), done', attack, coins).list,
                PairUp(Others(queue, j), done', attack, coins').list, attack, coins, coins');
    } else if |queue| == 0 {
      NobodyToPair(done, attack, coins, coins');
    } else if |queue| == 1 {
      GhostCoin(queue, done, attack, coins, coins');
    }
  }

  lemma NobodyToPair(done: seq<BattleInfo>, attack: ClientId -> int, coins: nat -> bool, coins': nat -> bool)
    ensures PairUp([], done, attack, coins) == PairUp([], done, attack, coins') == Round([], done)
    ensures CoinsTurn(0, [], [], attack, coins, coins')
  {
  }

  /** The first step of pairing with one or the other coins. */
  lemma PairEither(queue: seq<BattleInfo>, done: seq<BattleInfo>, attack: ClientId -> int, coins: nat -> bool, coins': nat -> bool)
      returns (j: nat, pair: seq<int>, pair': seq<int>, done': seq<BattleInfo>)
    requires |queue| >= 2
    ensures 1 <= j < |queue| && |Others(queue, j)| == |queue| - 2 && |pair| == |pair'| == 2 && |done'| == |done| + 2
    ensures SamePair(pair, pair', 0, attack(Fighter(pair[0])) == attack(Fighter(pair[1])) && coins(|queue|) != coins'(|queue|))
    ensures var rest := PairUp(Others(queue, j), done', attack, coins);
            PairUp(queue, done, attack, coins) == Round(pair + rest.list, rest.infos)
    ensures var rest' := PairUp(Others(queue, j), done', attack, coins');
            PairUp(queue, done, attack, coins') == Round(pair' + rest'.list, rest'.infos)
  {
    hide Count;
    j := 1 + MinIndex(queue[1..], queue[0].client);
    var x, y := queue[0], queue[j];
    pair := Ordered(x.client, y.client, attack(x.client), attack(y.client), coins(|queue|));
    pair' := Ordered(x.client, y.client, attack(x.client), attack(y.client), coins'(|queue|));
    done' := done + [Bump(y, x.client), Bump(x, y.client)];
  }

  lemma GhostCoin(queue: seq<BattleInfo>, done: seq<BattleInfo>, attack: ClientId -> int, coins: nat -> bool, coins': nat -> bool)
    requires |queue| == 1 && done != []
    ensures var r, r' := PairUp(queue, done, attack, coins), PairUp(queue, done, attack, coins');
            r.infos == r'.infos && CoinsTurn(1, r.list, r'.list, attack, coins, coins')
  {
    var x, y := queue[0].client, done[MinIndex(done, queue[0].client)].client;
    assert Fighter(Ghost(y)) == y;
    var list := PairUp(queue, done, attack, coins).list;
    var list' := PairUp(queue, done, attack, coins').list;
    assert list == Ordered(x, Ghost(y), attack(x), attack(y), coins(1));
    assert list' == Ordered(x, Ghost(y), attack(x), attack(y), coins'(1));
    assert SamePair(list, list', 0, attack(Fighter(list[0])) == attack(Fighter(list[1])) && coins(1) != coins'(1));
  }

  // ---- What a round adds to the records ----

  lemma MeetsCons(pair: seq<int>, list: seq<int>, a: int, b: int)
    requires |pair| == 2
    ensures Meets(pair + list, a, b) <==> pair == [a, b] || pair == [b, a] || Meets(list, a, b)
  {
    assert (pair + list)[2..] == list;
    assert pair == [pair[0], pair[1]];
  }

  lemma {:induction false} MeetsReal(list: seq<int>, a: ClientId, b: int)
    requires Meets(list, a, b)
    ensures a in Real(list)
  {
    assert list == [list[0], list[1]] + list[2..];
    RealAppend([list[0], list[1]], list[2..]);
    RealPair(list[0], list[1]);
    if list[0] != a && list[1] != a {
      MeetsReal(list[2..], a, b);
    }
  }

  /** A pair changes nothing in the records of the players outside it. */
  lemma AfterOthers(info: BattleInfo, pair: seq<int>, list: seq<int>)
    requires |pair| == 2 && pair[0] != info.client && pair[1] != info.client
    ensures AfterRound(info, pair + list) == AfterRound(info, list)
  {
    forall h: History
      ensures Meets(pair + list, info.client, h.client) == Meets(list, info.client, h.client)
    {
      MeetsCons(pair, list, info.client, h.client);
    }
  }

  /** A player of the first pair meets exactly the other one. */
  lemma AfterPaired(info: BattleInfo, y: ClientId, pair: seq<int>, list: seq<int>)
    requires pair == [info.client, y] || pair == [y, info.client]
    requires info.client !in Real(list)
    ensures AfterRound(info, pair + list) == Bump(info, y)
  {
    forall h: History
      ensures Meets(pair + list, info.client, h.client) <==> h.client == y
    {
      MeetsCons(pair, list, info.client, h.client);
      if Meets(list, info.client, h.client) {
        MeetsReal(list, info.client, h.client);
      }
    }
  }

  lemma AllAfterAppend(a: seq<BattleInfo>, b: seq<BattleInfo>, list: seq<int>)
    ensures AllAfter(a + b, list) == AllAfter(a, list) + AllAfter(b, list)
  {
  }

  lemma AllAfterSplit(queue: seq<BattleInfo>, j: nat, list: seq<int>)
    requires 1 <= j < |queue|
    ensures multiset(AllAfter(queue, list))
         == multiset{AfterRound(queue[0], list), AfterRound(queue[j], list)} + multiset(AllAfter(Others(queue, j), list))
  {
    var a, b := queue[1..j], queue[j + 1..];
    assert queue == [queue[0]] + (a + ([queue[j]] + b));
    AllAfterAppend([queue[0]], a + ([queue[j]] + b), list);
    AllAfterAppend(a, [queue[j]] + b, list);
    AllAfterAppend([queue[j]], b, list);
    AllAfterAppend(a, b, list);
    assert Others(queue, j) == a + b;
    assert AllAfter([queue[0]], list) == [AfterRound(queue[0], list)];
    assert AllAfter([queue[j]], list) == [AfterRound(queue[j], list)];
  }

  /** The other players of a distinct queue are distinct, and none of the pair is among them. */
  lemma OthersDistinct(queue: seq<BattleInfo>, j: nat)
    requires 1 <= j < |queue| && Distinct(Clients(queue))
    ensures Distinct(Clients(Others(queue, j)))
    ensures queue[0].client != queue[j].client
    ensures queue[0].client !in Clients(Others(queue, j)) && queue[j].client !in Clients(Others(queue, j))
  {
    var rest := Others(queue, j);
    QueueSplit(queue, j);
    assert forall k :: 0 <= k < |queue| ==> Clients(queue)[k] == queue[k].client;
    assert forall k :: 0 <= k < |rest| ==> rest[k] == queue[if k < j - 1 then k + 1 else k + 2];
  }

  /** A round changes a record exactly by the real meetings in its list: ghost fights leave no
      trace, and nobody's record is lost or doubled. */
  lemma {:induction false} RecordsAfterRound(queue: seq<BattleInfo>, done: seq<BattleInfo>, attack: ClientId -> int, coins: nat -> bool)
    requires |queue| == 1 ==> done != []
    requires Distinct(Clients(queue))
    ensures var r := PairUp(queue, done, attack, coins);
            multiset(r.infos) == multiset(done) + multiset(AllAfter(queue, r.list))
    decreases |queue|
  {
    if queue == [] {
      assert AllAfter(queue, []) == [];
    } else if |queue| == 1 {
      RecordOfGhostFight(queue, done, attack, coins);
    } else {
      var j, pair, done' := PairFirst(queue, done, attack, coins);
      hide PairUp, Others, AllAfter, Distinct;
      OthersDistinct(queue, j);
      RecordsAfterRound(Others(queue, j), done', attack, coins);
      ExactCover(Others(queue, j), done', attack, coins);
      RecordsStep(queue, done, j, pair, PairUp(Others(queue, j), done', attack, coins));
    }
  }

  lemma RecordsStep(queue: seq<BattleInfo>, done: seq<BattleInfo>, j: nat, pair: seq<int>, r: Round)
    requires 1 <= j < |queue| && Distinct(Clients(queue))
    requires pair == [queue[0].client, queue[j].client] || pair == [queue[j].client, queue[0].client]
    requires var done' := done + [Bump(queue[j], queue[0].client), Bump(queue[0], queue[j].client)];
             Covers(Others(queue, j), done', r) &&
             multiset(r.infos) == multiset(done') + multiset(AllAfter(Others(queue, j), r.list))
    ensures multiset(r.infos) == multiset(done) + multiset(AllAfter(queue, pair + r.list))
  {
    hide Others, AllAfter, Distinct, Real, Clients, Seats;
    RecordsAfterPair(queue, j, pair, r.list);
  }

  lemma RecordOfGhostFight(queue: seq<BattleInfo>, done: seq<BattleInfo>, attack: ClientId -> int, coins: nat -> bool)
    requires |queue| == 1 && done != []
    ensures var r := PairUp(queue, done, attack, coins);
            r.infos == done + AllAfter(queue, r.list)
  {
    var x := queue[0];
    var list := PairUp(queue, done, attack, coins).list;
    forall h: History
      ensures !Meets(list, x.client, h.client)
    {
      assert list[2..] == [];
    }
    assert AfterRound(x, list) == x;
    assert AllAfter(queue, list) == [x];
  }

  lemma RecordsAfterPair(queue: seq<BattleInfo>, j: nat, pair: seq<int>, list: seq<int>)
    requires 1 <= j < |queue| && Distinct(Clients(queue))
    requires pair == [queue[0].client, queue[j].client] || pair == [queue[j].client, queue[0].client]
    requires multiset(Real(list)) == multiset(Clients(Others(queue, j)))
    ensures multiset(AllAfter(queue, pair + list))
         == multiset{Bump(queue[j], queue[0].client), Bump(queue[0], queue[j].client)} + multiset(AllAfter(Others(queue, j), list))
  {
    hide Others, Real, Distinct, AfterRound, Bump;
    var x, y := queue[0], queue[j];
    var rest := Others(queue, j);
    OthersDistinct(queue, j);
    assert x.client !in multiset(Real(list)) && y.client !in multiset(Real(list));
    AfterPaired(x, y.client, pair, list);
    AfterPaired(y, x.client, pair, list);
    AllAfterSplit(queue, j, pair + list);
    forall i | 0 <= i < |rest|
      ensures AfterRound(rest[i], pair + list) == AfterRound(rest[i], list)
    {
      assert Clients(rest)[i] == rest[i].client;
      AfterOthers(rest[i], pair, list);
    }
    assert AllAfter(rest, pair + list) == AllAfter(rest, list);
  }
}

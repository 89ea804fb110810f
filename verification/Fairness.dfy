/** How evenly opponent selection spreads the fights. */
module Fairness {
  import opened Matching
  import opened BattleManager

  // ---- Each round adds two meetings per pair ----

  function SumCounts(hs: seq<History>): nat {
    if hs == [] then 0 else hs[0].count + SumCounts(hs[1..])
  }

  function Total(infos: seq<BattleInfo>): nat {
    if infos == [] then 0 else SumCounts(infos[0].histories) + Total(infos[1..])
  }

  ghost predicate ListedOnce(hs: seq<History>, c: ClientId) {
    (exists k :: 0 <= k < |hs| && hs[k].client == c) &&
    (forall i, j :: 0 <= i < j < |hs| ==> hs[i].client != hs[j].client)
  }

  /** Everyone in the queue lists everyone else of the queue once. */
  ghost predicate KnowEachOther(queue: seq<BattleInfo>) {
    forall i, j :: 0 <= i < |queue| && 0 <= j < |queue| && i != j ==>
      ListedOnce(queue[i].histories, queue[j].client)
  }

  lemma {:induction false} SumBumpedNone(hs: seq<History>, c: ClientId)
    requires forall k :: 0 <= k < |hs| ==> hs[k].client != c
    ensures Bumped(hs, c) == hs
  {
  }

  lemma {:induction false} SumBumped(hs: seq<History>, c: ClientId)
    requires ListedOnce(hs, c)
    ensures SumCounts(Bumped(hs, c)) == SumCounts(hs) + 1
  {
    var b := Bumped(hs, c);
    assert b[1..] == Bumped(hs[1..], c);
    if hs[0].client == c {
      SumBumpedNone(hs[1..], c);
    } else {
      var k :| 0 <= k < |hs| && hs[k].client == c;
      assert hs[1..][k - 1].client == c;
      SumBumped(hs[1..], c);
    }
  }

  lemma {:induction false} TotalAppend(a: seq<BattleInfo>, b: seq<BattleInfo>)
    ensures Total(a + b) == Total(a) + Total(b)
  {
    if a == [] {
      assert a + b == b;
    } else {
      TotalAppend(a[1..], b);
      assert (a + b)[1..] == a[1..] + b;
    }
  }

  lemma TotalOne(x: BattleInfo)
    ensures Total([x]) == SumCounts(x.histories)
  {
    assert [x][1..] == [];
  }

  lemma TotalTakeOut(s: seq<BattleInfo>, k: nat)
    requires k < |s|
    ensures Total(s) == SumCounts(s[k].histories) + Total(s[..k] + s[k + 1..])
  {
    hide Total;
    assert s == s[..k] + ([s[k]] + s[k + 1..]);
    TotalAppend(s[..k], [s[k]] + s[k + 1..]);
    TotalAppend([s[k]], s[k + 1..]);
    TotalAppend(s[..k], s[k + 1..]);
    TotalOne(s[k]);
  }

  /** Each pair of real opponents adds one meeting on either side; a ghost fight adds none. */
  lemma {:induction false} RoundTotal(queue: seq<BattleInfo>, done: seq<BattleInfo>, attack: ClientId -> int, coins: nat -> bool)
    requires |queue| == 1 ==> done != []
    requires KnowEachOther(queue)
    ensures Total(PairUp(queue, done, attack, coins).infos) == Total(done) + Total(queue) + 2 * (|queue| / 2)
    decreases |queue|
  {
    hide PairUp, KnowEachOther, Total, Others, Bump, Ordered;
    if |queue| <= 1 {
      AloneTotal(queue, done, attack, coins);
    } else {
      var j, pair, done' := PairFirst(queue, done, attack, coins);
      OthersKnow(queue, j);
      RoundTotal(Others(queue, j), done', attack, coins);
      TotalDone(done, Bump(queue[0], queue[j].client), Bump(queue[j], queue[0].client));
      TotalPair(queue, j);
    }
  }

  lemma AloneTotal(queue: seq<BattleInfo>, done: seq<BattleInfo>, attack: ClientId -> int, coins: nat -> bool)
    requires |queue| <= 1 && (|queue| == 1 ==> done != [])
    ensures Total(PairUp(queue, done, attack, coins).infos) == Total(done) + Total(queue)
  {
    assert PairUp(queue, done, attack, coins).infos == done + queue;
    TotalAppend(done, queue);
  }

  lemma TotalDone(done: seq<BattleInfo>, x: BattleInfo, y: BattleInfo)
    ensures Total(done + [y, x]) == Total(done) + SumCounts(y.histories) + SumCounts(x.histories)
  {
    hide Total;
    TotalAppend(done, [y, x]);
    assert [y, x] == [y] + [x];
    TotalAppend([y], [x]);
    TotalOne(y);
    TotalOne(x);
  }

  lemma OthersKnow(queue: seq<BattleInfo>, j: nat)
    requires 1 <= j < |queue| && KnowEachOther(queue)
    ensures KnowEachOther(Others(queue, j)) && |Others(queue, j)| == |queue| - 2
    ensures SumCounts(Bump(queue[0], queue[j].client).histories) == SumCounts(queue[0].histories) + 1
    ensures SumCounts(Bump(queue[j], queue[0].client).histories) == SumCounts(queue[j].histories) + 1
  {
    hide ListedOnce;
    var rest := Others(queue, j);
    QueueSplit(queue, j);
    assert forall k :: 0 <= k < |rest| ==> rest[k] == queue[if k < j - 1 then k + 1 else k + 2];
    SumBumped(queue[0].histories, queue[j].client);
    SumBumped(queue[j].histories, queue[0].client);
  }

  lemma TotalPair(queue: seq<BattleInfo>, j: nat)
    requires 1 <= j < |queue|
    ensures Total(queue) == SumCounts(queue[0].histories) + SumCounts(queue[j].histories) + Total(Others(queue, j))
  {
    hide Total;
    var tail := queue[1..];
    TotalTakeOut(queue, 0);
    assert queue[..0] + queue[1..] == tail;
    TotalTakeOut(tail, j - 1);
    QueueSplit(queue, j);
    assert tail[..j - 1] == queue[1..j] && tail[j..] == queue[j + 1..];
  }

  lemma HistoryKnowsEachOther(infos: seq<BattleInfo>, log: seq<seq<int>>)
    requires HistoryOK(infos, log)
    ensures KnowEachOther(infos)
  {
    forall i, j | 0 <= i < |infos| && 0 <= j < |infos| && i != j
      ensures ListedOnce(infos[i].histories, infos[j].client)
    {
      var info, c := infos[i], infos[j].client;
      assert info in infos;
      assert Clients(infos)[i] == info.client && Clients(infos)[j] == c;
      assert c in Opponents(info);
      assert forall k :: 0 <= k < |info.histories| ==> Opponents(info)[k] == info.histories[k].client;
    }
  }

  lemma {:induction false} TotalShuffled(a: seq<BattleInfo>, b: seq<BattleInfo>)
    requires multiset(a) == multiset(b)
    ensures Total(a) == Total(b)
  {
    hide Total;
    if a == [] {
      SameMembers(a, b);
    } else {
      var b' := Rest(a, b);
      TotalShuffled(a[1..], b');
      TotalTakeOut(a, 0);
      assert a[..0] + a[1..] == a[1..];
    }
  }

  /** The other arrangement without the head of this one. */
  lemma Rest(a: seq<BattleInfo>, b: seq<BattleInfo>) returns (b': seq<BattleInfo>)
    requires a != [] && multiset(a) == multiset(b)
    ensures multiset(a[1..]) == multiset(b')
    ensures Total(b) == SumCounts(a[0].histories) + Total(b')
  {
    hide Total;
    assert a[0] in multiset(b);
    var k := Find(a[0], b);
    b' := b[..k] + b[k + 1..];
    SameRest(a, b, k);
    TotalTakeOut(b, k);
  }

  lemma SameRest<T>(a: seq<T>, b: seq<T>, k: nat)
    requires a != [] && k < |b| && b[k] == a[0] && multiset(a) == multiset(b)
    ensures multiset(a[1..]) == multiset(b[..k] + b[k + 1..])
  {
    TakeOut(b, k);
    assert a == [a[0]] + a[1..];
    assert multiset(a[1..]) == multiset(a) - multiset{a[0]};
  }

  lemma Find<T>(x: T, s: seq<T>) returns (k: nat)
    requires x in s
    ensures k < |s| && s[k] == x
  {
    k :| 0 <= k < |s| && s[k] == x;
  }

  lemma TakeOut<T>(s: seq<T>, k: nat)
    requires k < |s|
    ensures multiset(s[..k] + s[k + 1..]) == multiset(s) - multiset{s[k]}
  {
    assert s == s[..k] + [s[k]] + s[k + 1..];
  }

  // ---- A whole run of rounds ----

  datatype State = State(infos: seq<BattleInfo>, log: seq<seq<int>>)

  /** One call of GetBattleOpponent: some shuffle, some attack states, some coin flips. */
  ghost predicate RoundStep(s: State, s': State) {
    |s.infos| >= 2 &&
    exists shuffled: seq<BattleInfo>, attack: ClientId -> int, coins: nat -> bool ::
      |shuffled| == |s.infos| && multiset(shuffled) == multiset(s.infos) &&
      s'.infos == PairUp(shuffled, [], attack, coins).infos &&
      s'.log == s.log + [PairUp(shuffled, [], attack, coins).list]
  }

  /** Every round keeps the history right and adds exactly two meetings per pair. */
  lemma StepKeepsHistory(s: State, s': State)
    requires HistoryOK(s.infos, s.log) && RoundStep(s, s')
    ensures HistoryOK(s'.infos, s'.log)
    ensures multiset(Clients(s'.infos)) == multiset(Clients(s.infos)) && |s'.infos| == |s.infos|
    ensures Total(s'.infos) == Total(s.infos) + 2 * (|s.infos| / 2)
  {
    hide PairUp, HistoryOK, Total;
    var shuffled: seq<BattleInfo>, attack: ClientId -> int, coins: nat -> bool :|
      |shuffled| == |s.infos| && multiset(shuffled) == multiset(s.infos) &&
      s'.infos == PairUp(shuffled, [], attack, coins).infos &&
      s'.log == s.log + [PairUp(shuffled, [], attack, coins).list];
    HistoryShuffled(s.infos, shuffled, s.log);
    HistoryDistinct(shuffled, s.log);
    ExactCover(shuffled, [], attack, coins);
    RecordsAfterRound(shuffled, [], attack, coins);
    NobodyListed(Clients(shuffled), Clients(s'.infos));
    HistoryAfterRound(shuffled, s.log, PairUp(shuffled, [], attack, coins).list, s'.infos);
    HistoryKnowsEachOther(shuffled, s.log);
    RoundTotal(shuffled, [], attack, coins);
    EmptyTotal();
    TotalShuffled(shuffled, s.infos);
  }

  lemma EmptyTotal()
    ensures Total([]) == 0
  {
  }

  lemma HistoryDistinct(infos: seq<BattleInfo>, log: seq<seq<int>>)
    requires HistoryOK(infos, log)
    ensures Distinct(Clients(infos))
  {
  }

  lemma NobodyListed(a: seq<ClientId>, b: seq<ClientId>)
    requires multiset(b) == multiset(Clients([])) + multiset(a)
    ensures multiset(b) == multiset(a) && |a| == |b|
  {
    SameMembers(a, b);
  }

  // ---- Four players ----

  /** The six pairs of four seats form three matchings; this is the one of seats p and q. */
  function Kind(p: nat, q: nat): (k: nat)
    requires p < 4 && q < 4 && p != q
    ensures k < 3
  {
    if (p < 2) == (q < 2) then 0 else if p + q == 2 || p + q == 4 then 1 else 2
  }

  /** The two pairs of a matching have met equally often: `g` holds the three numbers. */
  ghost predicate Balanced(log: seq<seq<int>>, r: seq<ClientId>, g: seq<nat>) {
    |r| == 4 && |g| == 3 &&
    forall p, q :: 0 <= p < 4 && 0 <= q < 4 && p != q ==> Meetings(log, r[p], r[q]) == g[Kind(p, q)]
  }

  /** Where the i-th player of the queue sits. */
  ghost predicate Seated(queue: seq<BattleInfo>, r: seq<ClientId>, seat: seq<nat>) {
    |queue| == |seat| == |r| == 4 &&
    (forall i :: 0 <= i < 4 ==> seat[i] < 4 && r[seat[i]] == queue[i].client) &&
    (forall i, j :: 0 <= i < j < 4 ==> seat[i] != seat[j])
  }

  lemma FindSeats(queue: seq<BattleInfo>, r: seq<ClientId>) returns (seat: seq<nat>)
    requires |queue| == 4 && |r| == 4 && Distinct(Clients(queue))
    requires multiset(Clients(queue)) == multiset(r)
    ensures Seated(queue, r, seat)
  {
    SameMembers(Clients(queue), r);
    assert forall i :: 0 <= i < 4 ==> Clients(queue)[i] == queue[i].client;
    var a := Find(Clients(queue)[0], r);
    var b := Find(Clients(queue)[1], r);
    var c := Find(Clients(queue)[2], r);
    var d := Find(Clients(queue)[3], r);
    seat := [a, b, c, d];
  }

  /** a and b are the front and the j-th of the queue, or the u-th and the v-th. */
  ghost predicate InPairs(queue: seq<BattleInfo>, j: nat, u: nat, v: nat, a: int, b: int)
    requires |queue| == 4 && j < 4 && u < 4 && v < 4
  {
    (a == queue[0].client && b == queue[j].client) || (a == queue[j].client && b == queue[0].client) ||
    (a == queue[u].client && b == queue[v].client) || (a == queue[v].client && b == queue[u].client)
  }

  /** In a queue of four, the list is the front's pair and the pair of the two others. */
  lemma FourList(queue: seq<BattleInfo>, attack: ClientId -> int, coins: nat -> bool) returns (j: nat, u: nat, v: nat)
    requires |queue| == 4
    ensures 1 <= j < 4 && 1 <= u < 4 && 1 <= v < 4 && j != u && j != v && u != v
    ensures forall i :: 1 <= i < 4 ==>
              Count(queue[j].histories, queue[0].client) <= Count(queue[i].histories, queue[0].client)
    ensures var list := PairUp(queue, [], attack, coins).list;
            forall a: int, b: int :: Meets(list, a, b) <==> InPairs(queue, j, u, v, a, b)
  {
    hide PairUp, Bump;
    var first, done';
    j, first, done' := PairFirst(queue, [], attack, coins);
    u, v := OtherTwo(queue, j);
    hide Others;
    var second := TwoList(Others(queue, j), done', attack, coins);
    forall a: int, b: int
      ensures Meets(first + second, a, b) <==> first == [a, b] || first == [b, a] || second == [a, b] || second == [b, a]
    {
      TwoPairs(first, second, a, b);
    }
  }

  lemma OtherTwo(queue: seq<BattleInfo>, j: nat) returns (u: nat, v: nat)
    requires |queue| == 4 && 1 <= j < 4
    ensures 1 <= u < 4 && 1 <= v < 4 && j != u && j != v && u != v
    ensures Others(queue, j) == [queue[u], queue[v]]
  {
    QueueSplit(queue, j);
    u := if j == 1 then 2 else 1;
    v := if j == 3 then 2 else 3;
  }

  lemma TwoList(rest: seq<BattleInfo>, done: seq<BattleInfo>, attack: ClientId -> int, coins: nat -> bool)
      returns (pair: seq<int>)
    requires |rest| == 2
    ensures pair == [rest[0].client, rest[1].client] || pair == [rest[1].client, rest[0].client]
    ensures PairUp(rest, done, attack, coins).list == pair
  {
    hide PairUp, Count, Bump;
    var one, done';
    one, pair, done' := PairFirst(rest, done, attack, coins);
    assert Others(rest, one) == [];
    NoneLeft(done', attack, coins);
    assert pair + [] == pair;
  }

  lemma TwoPairs(first: seq<int>, second: seq<int>, a: int, b: int)
    requires |first| == |second| == 2
    ensures Meets(first + second, a, b) <==> first == [a, b] || first == [b, a] || second == [a, b] || second == [b, a]
  {
    MeetsCons(first, second, a, b);
    MeetsCons(second, [], a, b);
    assert second + [] == second;
  }

  lemma StoredKind(queue: seq<BattleInfo>, log: seq<seq<int>>, r: seq<ClientId>, g: seq<nat>, seat: seq<nat>, i: nat)
    requires HistoryOK(queue, log) && Seated(queue, r, seat) && Balanced(log, r, g) && 1 <= i < 4
    ensures Count(queue[i].histories, queue[0].client) == g[Kind(seat[0], seat[i])]
  {
    hide HistoryOK, Count, Meetings;
    StoredCount(queue, log, i, 0);
    assert Meetings(log, r[seat[i]], r[seat[0]]) == g[Kind(seat[i], seat[0])];
  }

  /** Among four players a round plays one whole matching, and one that was played least. */
  lemma FourRound(queue: seq<BattleInfo>, log: seq<seq<int>>, r: seq<ClientId>, g: seq<nat>,
                  attack: ClientId -> int, coins: nat -> bool) returns (k: nat)
    requires |queue| == 4 && Distinct(r) && multiset(Clients(queue)) == multiset(r)
    requires HistoryOK(queue, log) && Balanced(log, r, g)
    ensures k < 3 && forall k' :: 0 <= k' < 3 ==> g[k] <= g[k']
    ensures var list := PairUp(queue, [], attack, coins).list;
            forall p, q :: 0 <= p < 4 && 0 <= q < 4 && p != q ==> (Meets(list, r[p], r[q]) <==> Kind(p, q) == k)
  {
    hide PairUp, HistoryOK, Meetings, InPairs;
    HistoryDistinct(queue, log);
    var seat := FindSeats(queue, r);
    var j, u, v := FourList(queue, attack, coins);
    k := Kind(seat[0], seat[j]);
    forall i | 1 <= i < 4
      ensures g[k] <= g[Kind(seat[0], seat[i])]
    {
      StoredKind(queue, log, r, g, seat, i);
      StoredKind(queue, log, r, g, seat, j);
      assert Count(queue[j].histories, queue[0].client) <= Count(queue[i].histories, queue[0].client);
      assert g[k] == Count(queue[j].histories, queue[0].client);
    }
    LeastKind(seat, g, k);
    var list := PairUp(queue, [], attack, coins).list;
    forall p, q | 0 <= p < 4 && 0 <= q < 4 && p != q
      ensures Meets(list, r[p], r[q]) <==> Kind(p, q) == k
    {
      assert Meets(list, r[p], r[q]) <==> InPairs(queue, j, u, v, r[p], r[q]);
      SeatsInPairs(queue, r, seat, j, u, v, p, q);
    }
  }

  lemma SeatsInPairs(queue: seq<BattleInfo>, r: seq<ClientId>, seat: seq<nat>, j: nat, u: nat, v: nat, p: nat, q: nat)
    requires Seated(queue, r, seat) && Distinct(r)
    requires 1 <= j < 4 && 1 <= u < 4 && 1 <= v < 4 && j != u && j != v && u != v
    requires p < 4 && q < 4 && p != q
    ensures InPairs(queue, j, u, v, r[p], r[q]) <==> Kind(p, q) == Kind(seat[0], seat[j])
  {
    SeatOf(queue, r, seat, p);
    SeatOf(queue, r, seat, q);
    SameKind(seat[0], seat[j], seat[u], seat[v], p, q);
  }

  lemma SeatOf(queue: seq<BattleInfo>, r: seq<ClientId>, seat: seq<nat>, p: nat)
    requires Seated(queue, r, seat) && Distinct(r) && p < 4
    ensures forall i :: 0 <= i < 4 ==> (r[p] == queue[i].client <==> p == seat[i])
  {
    forall i | 0 <= i < 4
      ensures r[p] == queue[i].client <==> p == seat[i]
    {
      assert r[seat[i]] == queue[i].client;
    }
  }

  lemma LeastKind(seat: seq<nat>, g: seq<nat>, k: nat)
    requires |seat| == 4 && |g| == 3 && k < 3
    requires forall i :: 0 <= i < 4 ==> seat[i] < 4
    requires forall i, j :: 0 <= i < j < 4 ==> seat[i] != seat[j]
    requires forall i :: 1 <= i < 4 ==> g[k] <= g[Kind(seat[0], seat[i])]
    ensures forall k' :: 0 <= k' < 3 ==> g[k] <= g[k']
  {
    assert g[k] <= g[Kind(seat[0], seat[1])];
    assert g[k] <= g[Kind(seat[0], seat[2])];
    assert g[k] <= g[Kind(seat[0], seat[3])];
    assert Kind(seat[0], seat[1]) != Kind(seat[0], seat[2]) && Kind(seat[0], seat[1]) != Kind(seat[0], seat[3]);
    assert Kind(seat[0], seat[2]) != Kind(seat[0], seat[3]);
  }

  lemma SameKind(a: nat, b: nat, c: nat, d: nat, p: nat, q: nat)
    requires a < 4 && b < 4 && c < 4 && d < 4 && p < 4 && q < 4 && p != q
    requires a != b && a != c && a != d && b != c && b != d && c != d
    ensures Kind(p, q) == Kind(a, b) <==>
            (p == a && q == b) || (p == b && q == a) || (p == c && q == d) || (p == d && q == c)
  {
  }

  /** One more round of four players: some least-played matching is played once more. */
  lemma FourStep(s: State, s': State, r: seq<ClientId>, g: seq<nat>) returns (k: nat)
    requires HistoryOK(s.infos, s.log) && RoundStep(s, s')
    requires |s.infos| == 4 && Distinct(r) && multiset(Clients(s.infos)) == multiset(r) && Balanced(s.log, r, g)
    ensures k < 3 && forall k' :: 0 <= k' < 3 ==> g[k] <= g[k']
    ensures Balanced(s'.log, r, g[k := g[k] + 1])
  {
    hide PairUp, HistoryOK;
    var shuffled: seq<BattleInfo>, attack: ClientId -> int, coins: nat -> bool :|
      |shuffled| == |s.infos| && multiset(shuffled) == multiset(s.infos) &&
      s'.infos == PairUp(shuffled, [], attack, coins).infos &&
      s'.log == s.log + [PairUp(shuffled, [], attack, coins).list];
    HistoryShuffled(s.infos, shuffled, s.log);
    k := FourRound(shuffled, s.log, r, g, attack, coins);
    var list := PairUp(shuffled, [], attack, coins).list;
    assert (s.log + [list])[..|s.log|] == s.log;
  }

  /** A run: every state follows from the one before by a round. */
  ghost predicate Rounds(states: seq<State>) {
    states != [] && forall i :: 0 <= i < |states| - 1 ==> RoundStep(states[i], states[i + 1])
  }

  ghost predicate Even(g: seq<nat>) {
    |g| == 3 && forall a, b :: 0 <= a < 3 && 0 <= b < 3 ==> g[a] <= g[b] + 1
  }

  /** Four players, any run: the pair counts never differ by more than one. */
  lemma {:induction false} FourStayEven(states: seq<State>, r: seq<ClientId>, c: nat) returns (g: seq<nat>)
    requires Rounds(states) && |states[0].infos| == 4 && Distinct(r)
    requires multiset(Clients(states[0].infos)) == multiset(r) && HistoryOK(states[0].infos, states[0].log)
    requires Balanced(states[0].log, r, [c, c, c])
    ensures Balanced(states[|states| - 1].log, r, g) && Even(g)
    ensures g[0] + g[1] + g[2] == 3 * c + |states| - 1
    ensures HistoryOK(states[|states| - 1].infos, states[|states| - 1].log)
    ensures |states[|states| - 1].infos| == 4 && multiset(Clients(states[|states| - 1].infos)) == multiset(r)
    decreases |states|
  {
    hide HistoryOK, Balanced, RoundStep;
    if |states| == 1 {
      g := [c, c, c];
    } else {
      var n := |states|;
      var g' := FourStayEven(states[..n - 1], r, c);
      BalancedSize(states[n - 2].log, r, g');
      assert RoundStep(states[n - 2], states[n - 2 + 1]);
      var k := FourStep(states[n - 2], states[n - 1], r, g');
      StepKeepsHistory(states[n - 2], states[n - 1]);
      g := g'[k := g'[k] + 1];
    }
  }

  lemma BalancedSize(log: seq<seq<int>>, r: seq<ClientId>, g: seq<nat>)
    requires Balanced(log, r, g)
    ensures |g| == 3
  {
  }

  /** Four players who have all met c times have all met c + k times after 3k rounds, whatever
      the shuffles, attack states and coins. */
  lemma FourPlayerFairness(states: seq<State>, r: seq<ClientId>, c: nat, k: nat)
    requires Rounds(states) && |states| == 3 * k + 1 && |states[0].infos| == 4 && Distinct(r)
    requires multiset(Clients(states[0].infos)) == multiset(r) && HistoryOK(states[0].infos, states[0].log)
    requires forall a, b :: a in r && b in r && a != b ==> Meetings(states[0].log, a, b) == c
    ensures forall a, b :: a in r && b in r && a != b ==> Meetings(states[3 * k].log, a, b) == c + k
  {
    hide Meetings, HistoryOK, RoundStep;
    SameMembers(Clients(states[0].infos), r);
    var g := FourStayEven(states, r, c);
    assert g == [c + k, c + k, c + k];
    forall a, b | a in r && b in r && a != b
      ensures Meetings(states[3 * k].log, a, b) == c + k
    {
      var p := Find(a, r);
      var q := Find(b, r);
      assert Meetings(states[3 * k].log, r[p], r[q]) == g[Kind(p, q)];
    }
  }

  // ---- The odd one out ----

  /** With an odd number the last pair is a waiting player and the ghost of one of those who have
      met it least. */
  lemma {:induction false} GhostFight(queue: seq<BattleInfo>, done: seq<BattleInfo>, attack: ClientId -> int, coins: nat -> bool)
      returns (x: ClientId, y: BattleInfo)
    requires |queue| % 2 == 1 && (|queue| == 1 ==> done != [])
    requires Distinct(Clients(queue)) && forall c :: c in Clients(queue) ==> c !in Clients(done)
    ensures x in Clients(queue) && y in queue + done && x != y.client
    ensures var list := PairUp(queue, done, attack, coins).list;
            |list| >= 2 && (list[|list| - 2..] == [x, Ghost(y.client)] || list[|list| - 2..] == [Ghost(y.client), x])
    ensures forall info :: info in queue + done && info.client != x ==> Count(y.histories, x) <= Count(info.histories, x)
    decreases |queue|
  {
    hide PairUp, Others, Bump, Clients, Distinct;
    if |queue| == 1 {
      x, y := LastGhost(queue, done, attack, coins);
    } else {
      var j, pair, done' := PairFirst(queue, done, attack, coins);
      OthersDistinct(queue, j);
      StillApart(queue, done, j);
      var z;
      x, z := GhostFight(Others(queue, j), done', attack, coins);
      y := BeforeStep(queue, done, j, x, z);
    }
  }

  /** A pairing step changes nobody's count of a player outside the pair. */
  lemma BeforeStep(queue: seq<BattleInfo>, done: seq<BattleInfo>, j: nat, x: ClientId, z: BattleInfo) returns (y: BattleInfo)
    requires 1 <= j < |queue| && Distinct(Clients(queue)) && x in Clients(Others(queue, j))
    requires var after := Others(queue, j) + (done + [Bump(queue[j], queue[0].client), Bump(queue[0], queue[j].client)]);
             z in after && forall info :: info in after && info.client != x ==> Count(z.histories, x) <= Count(info.histories, x)
    ensures y in queue + done && y.client == z.client
    ensures forall info :: info in queue + done && info.client != x ==> Count(y.histories, x) <= Count(info.histories, x)
  {
    hide Clients, Count, Distinct;
    var a, b := queue[0], queue[j];
    var after := Others(queue, j) + (done + [Bump(b, a.client), Bump(a, b.client)]);
    NotInPair(queue, j, x);
    BumpKeepsCount(a, b.client, x);
    BumpKeepsCount(b, a.client, x);
    assert Others(queue, j) == queue[1..j] + queue[j + 1..] by { QueueSplit(queue, j); }
    y := if z == Bump(b, a.client) then b else if z == Bump(a, b.client) then a else z;
    forall info | info in queue + done && info.client != x
      ensures Count(y.histories, x) <= Count(info.histories, x)
    {
      var info' := if info == a then Bump(a, b.client) else if info == b then Bump(b, a.client) else info;
      if info == a {
        assert after[|after| - 1] == info';
      } else if info == b {
        assert after[|after| - 2] == info';
      } else if info in done {
        assert info in after;
      } else {
        var i :| 0 <= i < |queue| && queue[i] == info;
        assert info in queue[1..j] || info in queue[j + 1..] by { assert if i < j then queue[1..j][i - 1] == info else queue[j + 1..][i - j - 1] == info; }
      }
      assert info' in after;
    }
  }

  lemma NotInPair(queue: seq<BattleInfo>, j: nat, x: ClientId)
    requires 1 <= j < |queue| && Distinct(Clients(queue)) && x in Clients(Others(queue, j))
    ensures x != queue[0].client && x != queue[j].client
  {
    OthersDistinct(queue, j);
  }

  lemma {:induction false} BumpedCount(hs: seq<History>, c: ClientId, x: ClientId)
    requires c != x
    ensures Count(Bumped(hs, c), x) == Count(hs, x)
  {
    if hs != [] {
      assert Bumped(hs, c)[1..] == Bumped(hs[1..], c);
      BumpedCount(hs[1..], c, x);
    }
  }

  lemma BumpKeepsCount(info: BattleInfo, c: ClientId, x: ClientId)
    requires c != x
    ensures Count(Bump(info, c).histories, x) == Count(info.histories, x) && Bump(info, c).client == info.client
  {
    BumpedCount(info.histories, c, x);
  }

  lemma LastGhost(queue: seq<BattleInfo>, done: seq<BattleInfo>, attack: ClientId -> int, coins: nat -> bool)
      returns (x: ClientId, y: BattleInfo)
    requires |queue| == 1 && done != []
    ensures x == queue[0].client && x in Clients(queue) && y in done && y.client in Clients(done)
    ensures var list := PairUp(queue, done, attack, coins).list;
            list == [x, Ghost(y.client)] || list == [Ghost(y.client), x]
    ensures forall info :: info in done ==> Count(y.histories, x) <= Count(info.histories, x)
  {
    x := queue[0].client;
    y := done[MinIndex(done, x)];
    assert Clients(queue)[0] == x;
    assert Clients(done)[MinIndex(done, x)] == y.client;
  }

  lemma StillApart(queue: seq<BattleInfo>, done: seq<BattleInfo>, j: nat)
    requires 1 <= j < |queue| && Distinct(Clients(queue))
    requires forall c :: c in Clients(queue) ==> c !in Clients(done)
    ensures |Others(queue, j)| == |queue| - 2
    ensures var done' := done + [Bump(queue[j], queue[0].client), Bump(queue[0], queue[j].client)];
            (forall c :: c in Clients(Others(queue, j)) ==> c in Clients(queue) && c !in Clients(done')) &&
            (forall c :: c in Clients(done') ==> c in Clients(done) || c in Clients(queue))
  {
    var added := [Bump(queue[j], queue[0].client), Bump(queue[0], queue[j].client)];
    OthersDistinct(queue, j);
    QueueSplit(queue, j);
    ClientsAppend(done, added);
    assert Clients(added) == [queue[j].client, queue[0].client];
    forall c | c in Clients(Others(queue, j))
      ensures c in Clients(queue)
    {
      assert c in multiset(Clients(queue));
    }
    assert Clients(queue)[0] == queue[0].client && Clients(queue)[j] == queue[j].client;
  }
}

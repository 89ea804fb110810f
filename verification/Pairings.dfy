/** What a list of opponents promises to a battle: everybody in it once, nobody against itself. */
module Pairings {
  import Matching
  import BattleManager
  import Fairness

  /** Everybody appears once for real, and nobody fights itself. */
  ghost predicate Opponents(list: seq<int>) {
    |list| % 2 == 0 &&
    (forall i, j :: 0 <= i < j < |list| && list[i] >= 0 && list[j] >= 0 ==> list[i] != list[j]) &&
    (forall k {:trigger list[2 * k]} :: 0 <= k < |list| / 2 ==> Matching.Fighter(list[2 * k]) != Matching.Fighter(list[2 * k + 1]))
  }

  lemma {:induction false} InReal(list: seq<int>, i: nat) returns (m: nat)
    requires i < |list| && list[i] >= 0
    ensures m < |Matching.Real(list)| && Matching.Real(list)[m] == list[i]
  {
    if i == 0 {
      m := 0;
    } else {
      m := InReal(list[1..], i - 1);
      if list[0] >= 0 {
        m := m + 1;
      }
    }
  }

  lemma {:induction false} RealApart(list: seq<int>, i: nat, j: nat)
    requires i < j < |list| && list[i] >= 0 && list[j] >= 0 && Matching.Distinct(Matching.Real(list))
    ensures list[i] != list[j]
  {
    var rest := Matching.Real(list[1..]);
    var head := if list[0] >= 0 then [list[0]] else [];
    assert Matching.Real(list) == head + rest;
    if i == 0 {
      var m := InReal(list[1..], j - 1);
      assert Matching.Real(list)[0] == list[0] && Matching.Real(list)[m + 1] == list[j];
    } else {
      forall u, v | 0 <= u < v < |rest|
        ensures rest[u] != rest[v]
      {
        assert Matching.Real(list)[u + |head|] == rest[u] && Matching.Real(list)[v + |head|] == rest[v];
      }
      RealApart(list[1..], i - 1, j - 1);
    }
  }

  lemma NoClients()
    ensures Matching.Clients([]) == []
  {
  }

  /** What the matching produces is always fit for a battle. */
  lemma MatchedOpponents(queue: seq<Matching.BattleInfo>, attack: Matching.ClientId -> int, coins: nat -> bool)
    requires |queue| >= 2 && Matching.Distinct(Matching.Clients(queue))
    ensures Opponents(Matching.PairUp(queue, [], attack, coins).list)
  {
    hide Matching.PairUp, Matching.Real, Matching.Clients;
    var list := Matching.PairUp(queue, [], attack, coins).list;
    Matching.ExactCover(queue, [], attack, coins);
    var ids, reals := Matching.Clients(queue), Matching.Real(list);
    BattleManager.SameMembers(ids, reals);
    BattleManager.DistinctMultiset(ids);
    BattleManager.DistinctMultiset(reals);
    assert Matching.Distinct(reals) by {
      forall x | x in reals
        ensures multiset(reals)[x] == 1
      {
        assert x in ids;
      }
    }
    forall i, j | 0 <= i < j < |list| && list[i] >= 0 && list[j] >= 0
      ensures list[i] != list[j]
    {
      RealApart(list, i, j);
    }
    if |queue| % 2 == 1 {
      NoClients();
      var x, y := Fairness.GhostFight(queue, [], attack, coins);
      assert list[|list| - 2..][0] == list[|list| - 2] && list[|list| - 2..][1] == list[|list| - 1];
    }
  }
}

/** The matchmaking queue: a doubly linked list that behaves as a first-in-first-out line. */
module ServerQueue {
  import opened Basics

  type ClientId = nat

  function RemoveFirst(s: seq<ClientId>, c: ClientId): seq<ClientId> {
    if s == [] then []
    else if s[0] == c then s[1..]
    else [s[0]] + RemoveFirst(s[1..], c)
  }

  lemma {:induction false} RemoveFirstAt(s: seq<ClientId>, c: ClientId, i: nat)
    requires i < |s| && s[i] == c && c !in s[..i]
    ensures RemoveFirst(s, c) == s[..i] + s[i + 1..]
  {
    if i > 0 {
      assert s[0] == s[..i][0];
      assert s[1..][..i - 1] == s[..i][1..];
      RemoveFirstAt(s[1..], c, i - 1);
      assert s[..i] == [s[0]] + s[1..][..i - 1];
      assert s[1..][i..] == s[i + 1..];
    }
  }

  lemma {:induction false} RemoveAbsent(s: seq<ClientId>, c: ClientId)
    requires c !in s
    ensures RemoveFirst(s, c) == s
  {
    if s != [] {
      RemoveAbsent(s[1..], c);
    }
  }

  lemma {:induction false} RemoveFirstLength(s: seq<ClientId>, c: ClientId)
    ensures |RemoveFirst(s, c)| == |s| - (if c in s then 1 else 0)
  {
    if s != [] {
      RemoveFirstLength(s[1..], c);
      assert s == [s[0]] + s[1..];
    }
  }

  class Node {
    const client: ClientId
    var next: Node?
    var prev: Node?

    constructor (client: ClientId)
      ensures this.client == client && next == null && prev == null
    {
      this.client := client;
      next, prev := null, null;
    }
  }

  /** The nodes form a chain in both directions. */
  ghost predicate Chain(nodes: seq<Node>)
    reads nodes
  {
    (forall i, j :: 0 <= i < j < |nodes| ==> nodes[i] != nodes[j]) &&
    (forall i {:trigger nodes[i].next} :: 0 <= i < |nodes| - 1 ==> nodes[i].next == nodes[i + 1]) &&
    (forall i {:trigger nodes[i].prev} :: 1 <= i < |nodes| ==> nodes[i].prev == nodes[i - 1]) &&
    (nodes != [] ==> nodes[|nodes| - 1].next == null && nodes[0].prev == null)
  }

  ghost function ClientsOf(nodes: seq<Node>): seq<ClientId> {
    seq(|nodes|, i requires 0 <= i < |nodes| => nodes[i].client)
  }

  class ServerQueue {
    var mClientQueue: Node?
    var mSize: nat
    ghost var nodes: seq<Node>

    ghost predicate Valid()
      reads this, nodes
    {
      mSize == |nodes| && Chain(nodes) &&
      mClientQueue == (if nodes == [] then null else nodes[0])
    }

    ghost function Contents(): seq<ClientId>
      reads this
    {
      ClientsOf(nodes)
    }

    constructor ()
      ensures Valid() && Contents() == []
    {
      mClientQueue, mSize, nodes := null, 0, [];
    }

    method AddClient(client: ClientId)
      requires Valid()
      modifies this, nodes
      ensures Valid() && fresh(set n | n in nodes && n !in old(nodes))
      ensures Contents() == old(Contents()) + [client]
    {

      var newClient := new Node(client);
      if mSize == 0 {
        mClientQueue := newClient;
      } else {
        var node := mClientQueue;
        var i := 0;
        while i < mSize - 1
          invariant 0 <= i <= mSize - 1 && node == nodes[i]
        {
          assert nodes[i].next == nodes[i + 1];
          node := node.next;
          i := i + 1;
        }
        node.next := newClient;
        newClient.prev := node;
      }
      nodes := nodes + [newClient];
      mSize := mSize + 1;
    }

    method RemoveClient(client: ClientId)
      requires Valid()
      modifies this, nodes
      ensures Valid() && (forall n :: n in nodes ==> n in old(nodes))
      ensures Contents() == RemoveFirst(old(Contents()), client)
    {
      var node := mClientQueue;
      var i := 0;
      while i < mSize
        invariant 0 <= i <= mSize
        invariant i < mSize ==> node == nodes[i]
        invariant client !in Contents()[..i]
      {
        if node.client == client {
          RemoveFirstAt(Contents(), client, i);
          Unlink(node, i);
          return;
        }
        assert i + 1 < |nodes| ==> nodes[i].next == nodes[i + 1];
        node := node.next;
        i := i + 1;
      }
      assert Contents()[..mSize] == Contents();
      RemoveAbsent(Contents(), client);
    }

    /** The i-th node is taken out of the chain. */
    method Unlink(node: Node, ghost i: nat)
      requires Valid() && i < |nodes| && node == nodes[i]
      modifies this, nodes
      ensures Valid() && nodes == old(nodes)[..i] + old(nodes)[i + 1..]
    {
      assert i > 0 ==> nodes[i].prev == nodes[i - 1];
      assert i + 1 < |nodes| ==> nodes[i].next == nodes[i + 1];
      if node == mClientQueue {
        mClientQueue := node.next;
        if mClientQueue != null {
          mClientQueue.prev := null;
        }
      } else {
        node.prev.next := node.next;
        if node.next != null {
          node.next.prev := node.prev;
        }
      }
      mSize := mSize - 1;
      nodes := nodes[..i] + nodes[i + 1..];
    }

    /** The first eight clients in the queue leave it for a room; an empty result when there
        are fewer. */
    method TryCreateRoom() returns (clients: seq<ClientId>)
      requires Valid()
      modifies this, nodes
      ensures Valid() && (forall n :: n in nodes ==> n in old(nodes))
      ensures old(mSize) < MAX_ROOM_PLAYER ==> clients == [] && Contents() == old(Contents())
      ensures old(mSize) >= MAX_ROOM_PLAYER ==>
                |clients| == MAX_ROOM_PLAYER && clients + Contents() == old(Contents())
    {
      clients := [];
      if mSize >= MAX_ROOM_PLAYER {
        var node := mClientQueue;
        var i := 0;
        while i < MAX_ROOM_PLAYER
          invariant 0 <= i <= MAX_ROOM_PLAYER
          invariant node == if i < |nodes| then nodes[i] else null
          invariant clients == Contents()[..i]
        {
          assert i + 1 < |nodes| ==> nodes[i].next == nodes[i + 1];
          clients := clients + [node.client];
          node := node.next;
          i := i + 1;
        }
        mClientQueue := node;
        if node != null {
          node.prev := null;
        }
        mSize := mSize - MAX_ROOM_PLAYER;
        nodes := nodes[MAX_ROOM_PLAYER..];
      }
    }

    /** The locked section of a start-matching request. */
    method StartMatching(client: ClientId) returns (room: seq<ClientId>)
      requires Valid() && |Contents()| < MAX_ROOM_PLAYER
      modifies this, nodes
      ensures Valid() && |Contents()| < MAX_ROOM_PLAYER
      ensures fresh(set n | n in nodes && n !in old(nodes))
      ensures Lobby([], old(Contents())).After(Arrive(client)) == Lobby(if room == [] then [] else [room], Contents())
    {
      AddClient(client);
      room := TryCreateRoom();
    }
  }

  // ---- Whole runs ----

  datatype Event = Arrive(client: ClientId) | Leave(client: ClientId)

  /** The rooms formed so far and the clients still waiting. */
  datatype Lobby = Lobby(rooms: seq<seq<ClientId>>, queue: seq<ClientId>) {
    function After(e: Event): Lobby {
      match e
      case Arrive(c) =>
        var q := queue + [c];
        if |q| >= MAX_ROOM_PLAYER then Lobby(rooms + [q[..MAX_ROOM_PLAYER]], q[MAX_ROOM_PLAYER..])
        else Lobby(rooms, q)
      case Leave(c) => Lobby(rooms, RemoveFirst(queue, c))
    }
  }

  function Run(events: seq<Event>): Lobby {
    if events == [] then Lobby([], []) else Run(events[..|events| - 1]).After(events[|events| - 1])
  }

  /** One line of everybody who was ever admitted: arrivals join at the end, and somebody who
      leaves is crossed out unless already among the complete groups of eight at the front. */
  function Line(events: seq<Event>): seq<ClientId> {
    if events == [] then []
    else
      var line := Line(events[..|events| - 1]);
      match events[|events| - 1]
      case Arrive(c) => line + [c]
      case Leave(c) => line[..Seated(line)] + RemoveFirst(line[Seated(line)..], c)
  }

  /** How many of the line are in complete groups. */
  function Seated(line: seq<ClientId>): (k: nat)
    ensures k <= |line| < k + MAX_ROOM_PLAYER && k % MAX_ROOM_PLAYER == 0
  {
    |line| / MAX_ROOM_PLAYER * MAX_ROOM_PLAYER
  }

  lemma SeatedUnique(line: seq<ClientId>, k: nat)
    requires k <= |line| < k + MAX_ROOM_PLAYER && k % MAX_ROOM_PLAYER == 0
    ensures Seated(line) == k
  {
  }

  /** The rooms are the complete groups of eight of the line, the queue is the rest. */
  ghost predicate Splits(l: Lobby, line: seq<ClientId>) {
    Flatten(l.rooms) == line[..Seated(line)] && l.queue == line[Seated(line)..] &&
    |l.queue| < MAX_ROOM_PLAYER &&
    (forall i :: 0 <= i < |l.rooms| ==> |l.rooms[i]| == MAX_ROOM_PLAYER)
  }

  lemma ArriveSplits(l: Lobby, line: seq<ClientId>, c: ClientId)
    requires Splits(l, line)
    ensures Splits(l.After(Arrive(c)), line + [c])
  {
    var k := Seated(line);
    var line' := line + [c];
    hide Seated, Flatten;
    assert line'[k..] == l.queue + [c];
    assert line'[..k] == line[..k];
    if |line'| == k + MAX_ROOM_PLAYER {
      SeatedUnique(line', k + MAX_ROOM_PLAYER);
      var q := l.queue + [c];
      FlattenLast(l.rooms, q);
      assert q[..MAX_ROOM_PLAYER] == q;
      assert line'[..k] + q == line'[..|line'|];
    } else {
      SeatedUnique(line', k);
    }
  }

  lemma LeaveSplits(l: Lobby, line: seq<ClientId>, c: ClientId)
    requires Splits(l, line)
    ensures Splits(l.After(Leave(c)), line[..Seated(line)] + RemoveFirst(line[Seated(line)..], c))
  {
    var k := Seated(line);
    var rest := RemoveFirst(line[k..], c);
    RemoveFirstLength(line[k..], c);
    hide Seated, Flatten, RemoveFirst;
    var line' := line[..k] + rest;
    SeatedUnique(line', k);
    assert line'[..k] == line[..k] && line'[k..] == rest;
  }

  /** Nobody is lost, doubled or overtaken: over any run of arrivals and departures the rooms
      are the complete groups of eight of the line, in order, and the queue is the rest, always
      fewer than eight. */
  lemma {:induction false} FirstInFirstOut(events: seq<Event>)
    ensures Splits(Run(events), Line(events))
  {
    if events != [] {
      var front, e := events[..|events| - 1], events[|events| - 1];
      FirstInFirstOut(front);
      match e
      case Arrive(c) => ArriveSplits(Run(front), Line(front), c);
      case Leave(c) => LeaveSplits(Run(front), Line(front), c);
    }
  }
}

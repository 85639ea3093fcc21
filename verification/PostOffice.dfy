/** The registry of connected clients and its operations, one call at a time
    (openaimp-fsd/fsd/postoffice.go, the broadcasts of openaimp-fsd/fsd/util.go). */
module PostOffices {
  import opened Packets
  import opened Geometry
  import opened Results
  import opened Routing

  /** math.MaxFloat64. */
  const MAX_DISTANCE: real :=
    179769313486231570814527423731704356798070567525844996598917476803157260780028538760589558632766878171540458953514382464234321326889464182768467546703537516986049910576551282076245490090389328944075868508455133942304583236903222948165808559332123348274797826204144723168738177180919299881250404026184124858368.0

  class Client {
    const callsign: string
    const isAtc: bool
    const protoRevision: int
    const networkRating: int
    var position: Point
    var visRange: real
    var closestVelocityClientDistance: real
    var facilityType: int
    var sendFastEnabled: bool
    var flightPlan: string
    var cancelled: bool
    var queued: seq<string>  // every packet put on the outbound channel, in order

    constructor (callsign: string, isAtc: bool, protoRevision: int, networkRating: int)
      ensures this.callsign == callsign && this.isAtc == isAtc
      ensures this.protoRevision == protoRevision && this.networkRating == networkRating
      ensures position == Point(0.0, 0.0) && visRange == 0.0 && facilityType == 0 && flightPlan == ""
      ensures !sendFastEnabled && !cancelled && queued == []
    {
      this.callsign, this.isAtc := callsign, isAtc;
      this.protoRevision, this.networkRating := protoRevision, networkRating;
      position, visRange, closestVelocityClientDistance := Point(0.0, 0.0), 0.0, 0.0;
      facilityType, sendFastEnabled, flightPlan := 0, false, "";
      cancelled, queued := false, [];
    }

    /** Queue a packet. A live client gets it once its channel has room; after cancellation the
        select statement may take either branch. */
    method Send(packet: string) returns (ok: bool)
      modifies this`queued
      ensures !cancelled ==> ok
      ensures queued == old(queued) + if ok then [packet] else []
    {
      ok := true;
      if cancelled {
        ok :| true;
      }
      if ok {
        queued := queued + [packet];
      }
    }
  }

  /** Which recipients a broadcast selects. */
  predicate Selects(audience: Audience, c: Client) {
    match audience
    case Everyone => true
    case VelocityClients => c.protoRevision == 101
    case Controllers => c.isAtc
    case Supervisors => c.networkRating >= SUPERVISOR
  }

  ghost function Chosen(clients: set<Client>, audience: Audience): set<Client> {
    set c | c in clients && Selects(audience, c)
  }

  /** What a broadcast does to one client's queue: a live selected client gets exactly one copy, a
      cancelled one at most one, and any other none. */
  predicate Receives(before: seq<string>, after: seq<string>, packet: string, selected: bool, cancelled: bool) {
    if !selected then after == before
    else after == before + [packet] || (cancelled && after == before)
  }

  /** What one handled packet does to all the queues: the sender gets at most a reply, and the packet
      goes once to each selected client and to nobody else. */
  ghost predicate Outcome(before: map<Client, seq<string>>, after: map<Client, seq<string>>, cancelled: set<Client>,
                          sender: Client, packet: string, selected: set<Client>, reply: string, replied: bool) {
    && after.Keys == before.Keys
    && forall c :: c in before ==>
         if c == sender then Receives(before[c], after[c], reply, replied, c in cancelled)
         else Receives(before[c], after[c], packet, c in selected, c in cancelled)
  }

  /** The clients whose distance a search of `client` measures. */
  predicate Measured(client: Client, found: Client) {
    !client.isAtc && client.protoRevision == 101 && found.protoRevision == 101
  }

  function Positions(clients: set<Client>): map<Client, Point>
    reads clients`position
  {
    map c | c in clients :: c.position
  }

  function Closer(earth: Earth, client: Client, found: Client, from: Point, to: Point, d: real): real {
    if Measured(client, found) && earth.distance(from, to) < d then earth.distance(from, to) else d
  }

  /** For a pilot of revision 101, d is the smallest distance from `from` to a client of revision 101 among
      `found`, whose positions are given, or the largest float when none is closer; for anyone else it is the
      largest float. */
  ghost predicate IsClosest(earth: Earth, client: Client, from: Point, at: map<Client, Point>, found: set<Client>, d: real)
    requires found <= at.Keys
  {
    var measures := !client.isAtc && client.protoRevision == 101;
    && d <= MAX_DISTANCE
    && (measures ==> forall c :: c in found && c.protoRevision == 101 ==> d <= earth.distance(from, at[c]))
    && (d == MAX_DISTANCE || (measures && exists c :: c in found && c.protoRevision == 101 && d == earth.distance(from, at[c])))
  }

  lemma NoneIsClosest(earth: Earth, client: Client, from: Point, at: map<Client, Point>)
    ensures IsClosest(earth, client, from, at, {}, MAX_DISTANCE)
  {
  }

  lemma ClosestGrows(earth: Earth, client: Client, from: Point, at: map<Client, Point>, found: set<Client>, c: Client, d: real)
    requires found <= at.Keys && c in at && IsClosest(earth, client, from, at, found, d)
    ensures IsClosest(earth, client, from, at, found + {c}, Closer(earth, client, c, from, at[c], d))
  {
  }

  /** What validity says about the tree a search of `client` walks. */
  ghost predicate Walkable(tree: multiset<(Box, Client)>, client: Client, box: Box, inRange: set<Client>) {
    && (forall e :: e in tree ==> tree[e] == 1 && (e.1 in inRange <==> e.1 != client && Meets(e.0, box)))
    && (forall e, f :: e in tree && f in tree && e.1 == f.1 ==> e == f)
    && (forall c :: c in inRange ==> exists e :: e in tree && e.1 == c)
  }

  /** A walk of which `rest` remains has called back for `done`, each once. */
  ghost predicate Walked(tree: multiset<(Box, Client)>, inRange: set<Client>, rest: multiset<(Box, Client)>,
                         done: set<Client>, visited: seq<Client>) {
    && rest <= tree && done <= inRange && multiset(visited) == multiset(done)
    && forall e :: e in tree && e.1 in inRange ==> (e in rest <==> e.1 !in done)
  }

  lemma WalkStart(tree: multiset<(Box, Client)>, client: Client, box: Box, inRange: set<Client>)
    requires Walkable(tree, client, box, inRange)
    ensures Walked(tree, inRange, tree, {}, [])
  {
  }

  lemma WalkOn(tree: multiset<(Box, Client)>, client: Client, box: Box, inRange: set<Client>,
               rest: multiset<(Box, Client)>, done: set<Client>, visited: seq<Client>, entry: (Box, Client))
    requires Walkable(tree, client, box, inRange) && Walked(tree, inRange, rest, done, visited) && entry in rest
    ensures var now := rest - multiset{entry};
            if entry.1 != client && Meets(entry.0, box) then
              Walked(tree, inRange, now, done + {entry.1}, visited + [entry.1])
            else Walked(tree, inRange, now, done, visited)
  {
    hide Meets;
    assert entry in tree && rest[entry] == 1;
  }

  lemma WalkEnd(tree: multiset<(Box, Client)>, client: Client, box: Box, inRange: set<Client>,
                done: set<Client>, visited: seq<Client>)
    requires Walkable(tree, client, box, inRange) && Walked(tree, inRange, multiset{}, done, visited)
    ensures done == inRange && multiset(visited) == multiset(inRange)
  {
    hide Meets;
  }

  /** The tree holds exactly the given box of each client. */
  ghost predicate Indexes(tree: multiset<(Box, Client)>, boxes: map<Client, Box>) {
    && (forall c :: c in boxes ==> tree[(boxes[c], c)] == 1)
    && (forall e :: e in tree ==> e.1 in boxes && e.0 == boxes[e.1])
  }

  lemma MapInsertValues(m: map<string, Client>, key: string, c: Client)
    requires key !in m
    ensures m[key := c].Values == m.Values + {c}
  {
    assert forall k :: k in m ==> m[key := c][k] == m[k];
    assert m[key := c][key] == c;
  }

  lemma MapDeleteValues(m: map<string, Client>, key: string)
    requires key in m && forall k :: k in m ==> m[k].callsign == k
    ensures (m - {key}).Values == m.Values - {m[key]}
  {
    assert forall k :: k in m && k != key ==> (m - {key})[k] == m[k];
  }

  lemma IndexesInsert(tree: multiset<(Box, Client)>, boxes: map<Client, Box>, c: Client, box: Box)
    requires Indexes(tree, boxes) && c !in boxes
    ensures Indexes(tree + multiset{(box, c)}, boxes[c := box])
  {
  }

  lemma IndexesDelete(tree: multiset<(Box, Client)>, boxes: map<Client, Box>, c: Client)
    requires Indexes(tree, boxes) && c in boxes
    ensures Indexes(tree - multiset{(boxes[c], c)}, boxes - {c})
  {
  }

  lemma IndexesSwap(tree: multiset<(Box, Client)>, boxes: map<Client, Box>, c: Client, box: Box)
    requires Indexes(tree, boxes) && c in boxes
    ensures (boxes[c], c) in tree
    ensures Indexes(tree - multiset{(boxes[c], c)} + multiset{(box, c)}, boxes[c := box])
  {
    IndexesDelete(tree, boxes, c);
    IndexesInsert(tree - multiset{(boxes[c], c)}, boxes - {c}, c, box);
    assert (boxes - {c})[c := box] == boxes[c := box];
  }

  class PostOffice {
    const earth: Earth
    var clientMap: map<string, Client>
    var tree: multiset<(Box, Client)>

    function BoxOf(c: Client): Box
      reads c`position, c`visRange
    {
      CalculateBoundingBox(earth, c.position, c.visRange)
    }

    ghost function Boxes(): map<Client, Box>
      reads this`clientMap, clientMap.Values`position, clientMap.Values`visRange
    {
      map c | c in clientMap.Values :: BoxOf(c)
    }

    /** Both indexes describe the same clients: the map files each under its callsign, and the tree
        has one entry for each, the box of its current position and range. */
    ghost predicate Valid()
      reads this, clientMap.Values`position, clientMap.Values`visRange
    {
      && (forall callsign :: callsign in clientMap ==> clientMap[callsign].callsign == callsign)
      && Indexes(tree, Boxes())
    }

    predicate Registered(c: Client)
      reads this
    {
      c.callsign in clientMap && clientMap[c.callsign] == c
    }

    /** The other registered clients whose box meets the client's. */
    ghost function InRange(client: Client): set<Client>
      reads this, client`position, client`visRange, clientMap.Values`position, clientMap.Values`visRange
    {
      set c | c in clientMap.Values && Registered(c) && c != client && Meets(BoxOf(c), BoxOf(client))
    }

    ghost function Queues(): map<Client, seq<string>>
      reads this`clientMap, clientMap.Values`queued
    {
      map c | c in clientMap.Values :: c.queued
    }

    ghost function Cancelled(): set<Client>
      reads this`clientMap, clientMap.Values`cancelled
    {
      set c | c in clientMap.Values && c.cancelled
    }

    constructor (earth: Earth)
      ensures Valid() && clientMap == map[] && tree == multiset{} && this.earth == earth
    {
      this.earth := earth;
      clientMap, tree := map[], multiset{};
    }

    method Register(client: Client) returns (ok: bool)
      requires Valid()
      modifies this
      ensures Valid()
      ensures ok <==> client.callsign !in old(clientMap)
      ensures clientMap == if ok then old(clientMap)[client.callsign := client] else old(clientMap)
      ensures tree == if ok then old(tree) + multiset{(BoxOf(client), client)} else old(tree)
    {
      hide CalculateBoundingBox, Indexes;
      if client.callsign in clientMap {
        return false;
      }
      assert client !in clientMap.Values;
      IndexesInsert(tree, Boxes(), client, BoxOf(client));
      clientMap := clientMap[client.callsign := client];
      tree := tree + multiset{(BoxOf(client), client)};
      assert Boxes() == old(Boxes())[client := BoxOf(client)] by {
        MapInsertValues(old(clientMap), client.callsign, client);
      }
      return true;
    }

    method Release(client: Client)
      requires Valid() && Registered(client)
      modifies this
      ensures Valid()
      ensures clientMap == old(clientMap) - {client.callsign}
      ensures tree == old(tree) - multiset{(BoxOf(client), client)}
      ensures !Registered(client)
    {
      hide CalculateBoundingBox, Indexes;
      IndexesDelete(tree, Boxes(), client);
      tree := tree - multiset{(BoxOf(client), client)};
      clientMap := clientMap - {client.callsign};
      assert Boxes() == old(Boxes()) - {client} by {
        MapDeleteValues(old(clientMap), client.callsign);
      }
    }

    method UpdatePosition(client: Client, newCenter: Point, newVisRange: real)
      requires Valid() && Registered(client)
      modifies this`tree, client`position, client`visRange
      ensures Valid()
      ensures client.position == newCenter && client.visRange == newVisRange
      ensures tree == old(tree) - multiset{(old(BoxOf(client)), client)} + multiset{(BoxOf(client), client)}
    {
      hide CalculateBoundingBox, Indexes;
      var oldBox := BoxOf(client);
      var newBox := CalculateBoundingBox(earth, newCenter, newVisRange);
      client.position := newCenter;
      client.visRange := newVisRange;
      assert Boxes() == old(Boxes())[client := newBox];
      IndexesSwap(tree, old(Boxes()), client, newBox);
      if oldBox == newBox {
        assert tree == tree - multiset{(oldBox, client)} + multiset{(newBox, client)};
        return;
      }
      tree := tree - multiset{(oldBox, client)};
      tree := tree + multiset{(newBox, client)};
    }

    method Find(callsign: string) returns (client: Option<Client>)
      requires Valid()
      ensures client.Some? <==> callsign in clientMap
      ensures client.Some? ==> Registered(client.value) && client.value.callsign == callsign
    {
      if callsign in clientMap {
        client := Some(clientMap[callsign]);
      } else {
        client := None;
      }
    }

    lemma ValidIsWalkable(client: Client)
      requires Valid()
      ensures Walkable(tree, client, BoxOf(client), InRange(client))
    {
      hide CalculateBoundingBox, Meets;
      forall c | c in InRange(client) ensures exists e :: e in tree && e.1 == c {
        assert Boxes()[c] == BoxOf(c);
        assert (BoxOf(c), c) in tree;
      }
    }

    /** The part of search's callback that tracks the closest client. */
    method Measure(client: Client, found: Client)
      modifies client`closestVelocityClientDistance
      ensures client.closestVelocityClientDistance
           == Closer(earth, client, found, client.position, found.position, old(client.closestVelocityClientDistance))
    {
      if Measured(client, found) {
        var dist := earth.distance(client.position, found.position);
        if dist < client.closestVelocityClientDistance {
          client.closestVelocityClientDistance := dist;
        }
      }
    }

    /** The walk over the tree's entries, in any order, with its callback. */
    method Walk(client: Client, box: Box, ghost inRange: set<Client>, ghost at: map<Client, Point>)
      returns (visited: seq<Client>, ghost done: set<Client>)
      requires Walkable(tree, client, box, inRange) && at == Positions(inRange)
      modifies client`closestVelocityClientDistance
      ensures Walked(tree, inRange, multiset{}, done, visited) && done <= inRange
      ensures IsClosest(earth, client, client.position, at, done, client.closestVelocityClientDistance)
    {
      client.closestVelocityClientDistance := MAX_DISTANCE;
      visited, done := [], {};
      var rest := tree;
      WalkStart(tree, client, box, inRange);
      NoneIsClosest(earth, client, client.position, at);
      hide Meets, IsClosest, Closer, Walkable;
      while rest != multiset{}
        invariant Walked(tree, inRange, rest, done, visited) && done <= inRange
        invariant IsClosest(earth, client, client.position, at, done, client.closestVelocityClientDistance)
        decreases |rest|
      {
        var entry :| entry in rest;
        WalkOn(tree, client, box, inRange, rest, done, visited, entry);
        rest := rest - multiset{entry};
        if entry.1 != client && Meets(entry.0, box) {
          ClosestGrows(earth, client, client.position, at, done, entry.1, client.closestVelocityClientDistance);
          Measure(client, entry.1);
          visited := visited + [entry.1];
          done := done + {entry.1};
        }
      }
    }

    /** search: every other registered client in range is called back exactly once, and the closest
        distance is reset and recomputed. */
    method Search(client: Client) returns (visited: seq<Client>)
      requires Valid()
      modifies client`closestVelocityClientDistance
      ensures Valid()
      ensures multiset(visited) == multiset(InRange(client))
      ensures IsClosest(earth, client, client.position, Positions(InRange(client)), InRange(client),
                        client.closestVelocityClientDistance)
    {
      hide CalculateBoundingBox, BoxOf, Meets, Valid, InRange, IsClosest, Walkable, Walked, Positions;
      ValidIsWalkable(client);
      ghost var inRange, done := InRange(client), {};
      ghost var at := Positions(inRange);
      visited, done := Walk(client, BoxOf(client), inRange, at);
      WalkEnd(tree, client, BoxOf(client), inRange, done, visited);
    }

    /** all: every registered client but the given one, each once, in the map's own order. */
    method All(client: Client) returns (visited: seq<Client>)
      requires Valid()
      ensures multiset(visited) == multiset(clientMap.Values - {client})
    {
      hide Valid;
      visited := [];
      var rest := clientMap.Values - {client};
      while rest != {}
        invariant multiset(visited) + multiset(rest) == multiset(clientMap.Values - {client})
        decreases |rest|
      {
        var recipient :| recipient in rest;
        assert multiset(rest) == multiset(rest - {recipient}) + multiset{recipient};
        rest := rest - {recipient};
        visited := visited + [recipient];
      }
    }

    /** The broadcasting callback: recipient.send for the selected ones. */
    method Deliver(recipients: seq<Client>, audience: Audience, packet: string)
      requires forall i, j :: 0 <= i < j < |recipients| ==> recipients[i] != recipients[j]
      modifies recipients`queued
      ensures forall i :: 0 <= i < |recipients| ==>
        var c := recipients[i]; Receives(old(c.queued), c.queued, packet, Selects(audience, c), c.cancelled)
    {
      for k := 0 to |recipients|
        invariant forall i :: 0 <= i < k ==>
          var c := recipients[i]; Receives(old(c.queued), c.queued, packet, Selects(audience, c), c.cancelled)
        invariant forall i :: k <= i < |recipients| ==> recipients[i].queued == old(recipients[i].queued)
      {
        if Selects(audience, recipients[k]) {
          var ok := recipients[k].Send(packet);
        }
      }
    }

    lemma EachOnce(visited: seq<Client>, clients: set<Client>)
      requires multiset(visited) == multiset(clients)
      ensures forall c :: c in clients <==> c in visited
      ensures forall i, j :: 0 <= i < j < |visited| ==> visited[i] != visited[j]
    {
      forall c ensures c in clients <==> c in visited {
        assert c in multiset(visited) <==> c in visited;
      }
      forall i, j | 0 <= i < j < |visited| ensures visited[i] != visited[j] {
        var before, after := visited[..j], visited[j..];
        assert visited == before + after;
        assert before[i] in multiset(before) && after[0] in multiset(after);
        assert multiset(visited)[visited[i]] == multiset(before)[visited[i]] + multiset(after)[visited[i]];
        assert multiset(clients)[visited[i]] <= 1;
      }
    }

    /** broadcastRanged and its velocity and controller variants. */
    method BroadcastRanged(client: Client, packet: string, audience: Audience)
      requires Valid()
      modifies client`closestVelocityClientDistance, clientMap.Values`queued
      ensures Valid()
      ensures Outcome(old(Queues()), Queues(), Cancelled(), client, packet,
                      Chosen(InRange(client), audience), "", false)
      ensures IsClosest(earth, client, client.position, Positions(InRange(client)), InRange(client),
                        client.closestVelocityClientDistance)
    {
      hide CalculateBoundingBox, Meets, Valid, IsClosest, Selects, Registered;
      var visited := Search(client);
      EachOnce(visited, InRange(client));
      assert forall c :: c in visited ==> c in clientMap.Values;
      Deliver(visited, audience, packet);
      forall c | c in clientMap.Values
        ensures Receives(old(c.queued), c.queued, packet, c in InRange(client) && Selects(audience, c), c.cancelled)
      {
        if c in visited {
          var i :| 0 <= i < |visited| && visited[i] == c;
        }
      }
    }

    /** broadcastAll and its controller and supervisor variants. */
    method BroadcastAll(client: Client, packet: string, audience: Audience)
      requires Valid()
      modifies clientMap.Values`queued
      ensures Valid()
      ensures Outcome(old(Queues()), Queues(), Cancelled(), client, packet,
                      Chosen(clientMap.Values, audience), "", false)
    {
      hide Valid, Selects;
      var visited := All(client);
      EachOnce(visited, clientMap.Values - {client});
      assert forall c :: c in visited ==> c in clientMap.Values;
      Deliver(visited, audience, packet);
      forall c | c in clientMap.Values
        ensures Receives(old(c.queued), c.queued, packet, c != client && Selects(audience, c), c.cancelled)
      {
        if c in visited {
          var i :| 0 <= i < |visited| && visited[i] == c;
        }
      }
    }
  }
}

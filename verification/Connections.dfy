/** Every interleaving of the connection goroutines, at the granularity of their critical sections
    and atomic stores (openaimp-fsd/fsd/conn.go and openaimp-fsd/fsd/postoffice.go). */
module Connections {
  import opened Fields
  import opened Packets
  import opened Geometry
  import opened Results
  import opened Routing

  /** The fixed surroundings of a run: the geometry and the number parser. */
  datatype World = World(earth: Earth, numbers: Numbers)

  /** Where a connection's goroutine stands in handleConn, register, updatePosition or release. */
  datatype Pc =
    | Fresh                  // reading and checking the login packets
    | LoggedIn               // about to lock the callsign map
    | InMap                  // callsign taken, tree insert pending
    | Registered             // register returned, welcome message pending
    | Greeted                // about to broadcast the add packet
    | Serving                // in the event loop
    | Moving(oldBox: Box, newBox: Box, target: Point, range: real)  // boxes computed, nothing stored
    | Moved(oldBox: Box, newBox: Box, range: real)                  // coordinates stored
    | Stored(oldBox: Box, newBox: Box)                              // range stored, swap pending
    | Leaving                // event loop over, about to broadcast the disconnect packet
    | Releasing              // about to delete the tree entry
    | OutOfTree              // about to delete the callsign
    | Closed

  datatype Conn = Conn(
    pc: Pc,
    sender: Sender,
    protoRevision: int,
    maxRating: int,
    position: Point,
    visRange: real)

  /** What a client asks for in its login packets. */
  datatype LoginData = LoginData(callsign: string, isAtc: bool, rating: int, protoRevision: int, challenged: bool)

  datatype Event =
    | Joined(callsign: string, who: nat, registry: map<string, nat>)
    | Left(callsign: string, who: nat, registry: map<string, nat>)
    | Passed(who: nat, packet: string, packetType: PacketType)

  datatype State = State(
    conns: seq<Conn>,
    clientMap: map<string, nat>,
    tree: multiset<(Box, nat)>,
    log: seq<Event>)

  datatype Step =
    | Accept
    | Login(data: LoginData, granted: int)
    | Abort
    | InsertCallsign
    | InsertBox
    | Greet(sent: bool)
    | AnnounceJoin
    | Receive(packet: string)
    | StoreCoords
    | StoreRange
    | SwapBox
    | Stop
    | AnnounceLeave
    | DeleteBox
    | DeleteCallsign

  const NewConn := Conn(Fresh, Sender("", false, 0, 0, false), 0, 0, Point(0.0, 0.0), 0.0)

  const Init := State([], map[], multiset{}, [])

  function BoxOf(w: World, c: Conn): Box {
    CalculateBoundingBox(w.earth, c.position, c.visRange)
  }

  /** The checks of readLoginPackets, handleConn and attemptAuthentication. */
  predicate LoginAllowed(data: LoginData, granted: int) {
    && 100 <= data.protoRevision <= 101
    && IsValidClientCallsign(data.callsign)
    && OBSERVER <= data.rating <= granted
  }

  function LoggedInConn(data: LoginData, granted: int): Conn {
    Conn(LoggedIn, Sender(data.callsign, data.isAtc, data.rating, 0, data.challenged),
         data.protoRevision, granted, Point(0.0, 0.0), 0.0)
  }

  /** The connection after its handler decided on an action: position reports start an update. */
  function Handled(w: World, c: Conn, action: Action): Conn {
    match action
    case TakeFacility(facilityType, fix) =>
      StartMove(w, c.(sender := c.sender.(facilityType := facilityType)), fix)
    case ReportPilot(fix, _, _, _, _) => StartMove(w, c, fix)
    case _ => c
  }

  function StartMove(w: World, c: Conn, fix: Fix): Conn {
    match fix
    case Fix(point, range) =>
      c.(pc := Moving(BoxOf(w, c), CalculateBoundingBox(w.earth, point, range), point, range))
    case BadFix(_) => c
  }

  /** What a step does to the shared state. */
  datatype Effect =
    | Nothing
    | TakeCallsign
    | PlantBox(box: Box)
    | SwapBoxes(removed: Box, inserted: Box)
    | UprootBox(box: Box)
    | FreeCallsign
    | SayJoined
    | SayLeft
    | Pass(packet: string, packetType: PacketType)

  function Received(w: World, c: Conn, packet: string): (Conn, Effect) {
    match VerifyPacket(packet, c.sender.callsign)
    case Rejected(_, _) => (c, Nothing)
    case Accepted(t) =>
      var action := Decide(c.sender, packet, t, w.numbers);
      (Handled(w, c, action), if Forwards(action) then Pass(packet, t) else Nothing)
  }

  /** The step of one connection: its own next state and its effect; None when it cannot take the
      step. `taken` tells whether its callsign is in the map. */
  function Act(w: World, c: Conn, step: Step, taken: bool): Option<(Conn, Effect)> {
    match (step, c.pc)
    case (Login(data, granted), Fresh) =>
      Some((if LoginAllowed(data, granted) then LoggedInConn(data, granted) else c.(pc := Closed), Nothing))
    case (Abort, Fresh) => Some((c.(pc := Closed), Nothing))
    case (InsertCallsign, LoggedIn) =>
      Some(if taken then (c.(pc := Closed), Nothing) else (c.(pc := InMap), TakeCallsign))
    case (InsertBox, InMap) => Some((c.(pc := Registered), PlantBox(BoxOf(w, c))))
    case (Greet(sent), Registered) => Some((c.(pc := if sent then Greeted else Releasing), Nothing))
    case (AnnounceJoin, Greeted) => Some((c.(pc := Serving), SayJoined))
    case (Receive(packet), Serving) => Some(Received(w, c, packet))
    case (StoreCoords, Moving(oldBox, newBox, target, range)) =>
      Some((c.(pc := Moved(oldBox, newBox, range), position := target), Nothing))
    case (StoreRange, Moved(oldBox, newBox, range)) =>
      Some((c.(pc := Stored(oldBox, newBox), visRange := range), Nothing))
    case (SwapBox, Stored(oldBox, newBox)) =>
      Some((c.(pc := Serving), if oldBox == newBox then Nothing else SwapBoxes(oldBox, newBox)))
    case (Stop, Serving) => Some((c.(pc := Leaving), Nothing))
    case (AnnounceLeave, Leaving) => Some((c.(pc := Releasing), SayLeft))
    case (DeleteBox, Releasing) => Some((c.(pc := OutOfTree), UprootBox(BoxOf(w, c))))
    case (DeleteCallsign, OutOfTree) => Some((c.(pc := Closed), FreeCallsign))
    case _ => None
  }

  function ApplyEffect(s: State, who: nat, callsign: string, effect: Effect): State {
    match effect
    case Nothing => s
    case TakeCallsign => s.(clientMap := s.clientMap[callsign := who])
    case PlantBox(box) => s.(tree := s.tree + multiset{(box, who)})
    case SwapBoxes(removed, inserted) =>
      s.(tree := s.tree - multiset{(removed, who)} + multiset{(inserted, who)})
    case UprootBox(box) => s.(tree := s.tree - multiset{(box, who)})
    case FreeCallsign => s.(clientMap := s.clientMap - {callsign})
    case SayJoined => s.(log := s.log + [Joined(callsign, who, s.clientMap)])
    case SayLeft => s.(log := s.log + [Left(callsign, who, s.clientMap)])
    case Pass(packet, t) => s.(log := s.log + [Passed(who, packet, t)])
  }

  /** One step of connection `who`; None when it cannot take that step. */
  function Next(w: World, s: State, who: nat, step: Step): Option<State> {
    if step.Accept? then
      if who == |s.conns| then Some(s.(conns := s.conns + [NewConn])) else None
    else if who >= |s.conns| then None
    else
      var c := s.conns[who];
      match Act(w, c, step, c.sender.callsign in s.clientMap)
      case None => None
      case Some((c', effect)) =>
        Some(ApplyEffect(s.(conns := s.conns[who := c']), who, c.sender.callsign, effect))
  }

  /** A run: any connection may take the next step. */
  function Run(w: World, trace: seq<(nat, Step)>): Option<State> {
    if trace == [] then Some(Init)
    else
      var last := |trace| - 1;
      match Run(w, trace[..last])
      case None => None
      case Some(s) => Next(w, s, trace[last].0, trace[last].1)
  }

  ghost predicate Reachable(w: World, s: State) {
    exists trace :: Run(w, trace) == Some(s)
  }

  // ----- which connections hold what -----

  predicate Holds(pc: Pc) {
    !(pc.Fresh? || pc.LoggedIn? || pc.Closed?)
  }

  predicate InTree(pc: Pc) {
    Holds(pc) && !pc.InMap? && !pc.OutOfTree?
  }

  predicate Updating(pc: Pc) {
    pc.Moving? || pc.Moved? || pc.Stored?
  }

  /** Between the add broadcast and the disconnect broadcast. */
  predicate Announced(pc: Pc) {
    pc.Serving? || Updating(pc) || pc.Leaving?
  }

  /** The box of the connection's tree entry. */
  function EntryBox(w: World, c: Conn): Box {
    if Updating(c.pc) then c.pc.oldBox else BoxOf(w, c)
  }

  // ----- the invariant -----

  /** Every callsign in the map leads to a connection that holds it. */
  ghost predicate MapSound(s: State) {
    forall callsign :: callsign in s.clientMap ==>
      && s.clientMap[callsign] < |s.conns|
      && Holds(s.conns[s.clientMap[callsign]].pc)
      && s.conns[s.clientMap[callsign]].sender.callsign == callsign
  }

  /** Every connection past its map insert is what the map says about its callsign. */
  ghost predicate HoldersMapped(s: State) {
    forall id: nat :: id < |s.conns| && Holds(s.conns[id].pc) ==>
      && s.conns[id].sender.callsign in s.clientMap
      && s.clientMap[s.conns[id].sender.callsign] == id
  }

  ghost predicate CallsignsIndexed(s: State) {
    MapSound(s) && HoldersMapped(s)
  }

  ghost predicate BoxesIndexed(w: World, s: State) {
    && (forall e :: e in s.tree ==>
          e.1 < |s.conns| && InTree(s.conns[e.1].pc) && e.0 == EntryBox(w, s.conns[e.1]) && s.tree[e] == 1)
    && (forall id: nat :: id < |s.conns| && InTree(s.conns[id].pc) ==> (EntryBox(w, s.conns[id]), id) in s.tree)
  }

  /** The local variables of an update agree with the stored position. */
  predicate UpdateConsistent(w: World, c: Conn) {
    match c.pc
    case Moving(oldBox, newBox, target, range) =>
      oldBox == BoxOf(w, c) && newBox == CalculateBoundingBox(w.earth, target, range)
    case Moved(oldBox, newBox, range) => newBox == CalculateBoundingBox(w.earth, c.position, range)
    case Stored(oldBox, newBox) => newBox == BoxOf(w, c)
    case _ => true
  }

  predicate Entitled(c: Conn) {
    && IsValidClientCallsign(c.sender.callsign)
    && 100 <= c.protoRevision <= 101
    && 1 <= c.sender.rating <= c.maxRating
    && IsAllowedFacilityType(c.sender.rating, c.sender.facilityType)
  }

  ghost predicate ConnsSound(w: World, s: State) {
    forall id: nat :: id < |s.conns| ==>
      && UpdateConsistent(w, s.conns[id])
      && (Holds(s.conns[id].pc) || s.conns[id].pc.LoggedIn? ==> Entitled(s.conns[id]))
  }

  /** The server's own announcements about one callsign, in order. */
  function History(log: seq<Event>, callsign: string): seq<Event> {
    if log == [] then []
    else
      var last := log[|log| - 1];
      History(log[..|log| - 1], callsign)
        + if !last.Passed? && last.callsign == callsign then [last] else []
  }

  predicate InTurn(h: seq<Event>, i: nat)
    requires i < |h|
  {
    if i % 2 == 0 then h[i].Joined? else h[i].Left? && !h[i - 1].Passed? && h[i].who == h[i - 1].who
  }

  /** Joined, Left, Joined, Left, ..., each Left by the connection of the Joined before it. */
  ghost predicate Alternates(h: seq<Event>) {
    forall i: nat :: i < |h| ==> InTurn(h, i)
  }

  /** The history h of a callsign is odd exactly while one connection is announced under it, and
      then that connection's Joined comes last. */
  ghost predicate Announcing(h: seq<Event>, conns: seq<Conn>, callsign: string) {
    && Alternates(h)
    && (|h| % 2 == 1 ==>
          var last := h[|h| - 1];
          !last.Passed? && last.who < |conns|
          && Announced(conns[last.who].pc) && conns[last.who].sender.callsign == callsign)
    && (|h| % 2 == 0 ==>
          forall id: nat :: id < |conns| && conns[id].sender.callsign == callsign ==> !Announced(conns[id].pc))
  }

  ghost predicate AnnouncementsSound(s: State) {
    forall callsign :: Announcing(History(s.log, callsign), s.conns, callsign)
  }

  /** What the log shows of each event. */
  ghost predicate EventSound(s: State, e: Event) {
    e.who < |s.conns| && s.conns[e.who].pc != Fresh
    && match e
       case Joined(callsign, who, registry) => callsign in registry && registry[callsign] == who
       case Left(callsign, who, registry) => callsign in registry && registry[callsign] == who
       case Passed(who, packet, t) =>
         && VerifyPacket(packet, s.conns[who].sender.callsign) == Accepted(t)
         && (IsPrivileged(packet, t) ==> s.conns[who].sender.isAtc && s.conns[who].sender.rating >= STUDENT1)
  }

  ghost predicate LogSound(s: State) {
    forall i :: 0 <= i < |s.log| ==> EventSound(s, s.log[i])
  }

  ghost predicate Inv(w: World, s: State) {
    CallsignsIndexed(s) && BoxesIndexed(w, s) && ConnsSound(w, s) && AnnouncementsSound(s) && LogSound(s)
  }

  // ----- one connection's step -----

  /** What a connection holds before and after a step determines the step's effect. */
  ghost predicate Standing(w: World, c: Conn, c': Conn, effect: Effect, taken: bool) {
    && (Holds(c.pc) || Holds(c'.pc) ==>
          c'.sender.callsign == c.sender.callsign && (c'.sender == c.sender || effect.Nothing? || effect.Pass?))
    && (if effect.TakeCallsign? then !taken && !Holds(c.pc) && Holds(c'.pc)
        else if effect.FreeCallsign? then Holds(c.pc) && !Holds(c'.pc)
        else Holds(c'.pc) == Holds(c.pc))
    && (match effect
        case PlantBox(box) => !InTree(c.pc) && InTree(c'.pc) && box == EntryBox(w, c')
        case UprootBox(box) => InTree(c.pc) && !InTree(c'.pc) && box == EntryBox(w, c)
        case SwapBoxes(removed, inserted) =>
          InTree(c.pc) && InTree(c'.pc) && removed == EntryBox(w, c) && inserted == EntryBox(w, c') && removed != inserted
        case _ => InTree(c'.pc) == InTree(c.pc) && (InTree(c.pc) ==> EntryBox(w, c') == EntryBox(w, c)))
    && (if effect.SayJoined? then Holds(c.pc) && !Announced(c.pc) && Announced(c'.pc)
        else if effect.SayLeft? then Announced(c.pc) && !Announced(c'.pc)
        else Announced(c'.pc) == Announced(c.pc))
  }

  lemma ActStanding(w: World, c: Conn, step: Step, taken: bool, c': Conn, effect: Effect)
    requires UpdateConsistent(w, c)
    requires Act(w, c, step, taken) == Some((c', effect))
    ensures Standing(w, c, c', effect, taken)
  {
    hide Decide, VerifyPacket, CalculateBoundingBox, LoginAllowed;
  }

  lemma ActSound(w: World, c: Conn, step: Step, taken: bool, c': Conn, effect: Effect)
    requires UpdateConsistent(w, c) && (Holds(c.pc) || c.pc.LoggedIn? ==> Entitled(c))
    requires Act(w, c, step, taken) == Some((c', effect))
    ensures UpdateConsistent(w, c')
    ensures Holds(c'.pc) || c'.pc.LoggedIn? ==> Entitled(c')
    ensures c'.pc != Fresh && (c.pc != Fresh ==> c'.sender.(facilityType := c.sender.facilityType) == c.sender)
  {
    hide Decide, VerifyPacket, CalculateBoundingBox, IsValidClientCallsign;
    match step {
      case Receive(packet) =>
        ReceivedFacility(w, c, packet);
      case _ =>
    }
  }

  lemma ReceivedFacility(w: World, c: Conn, packet: string)
    requires IsAllowedFacilityType(c.sender.rating, c.sender.facilityType)
    ensures IsAllowedFacilityType(c.sender.rating, Received(w, c, packet).0.sender.facilityType)
  {
    hide Decide, VerifyPacket;
    match VerifyPacket(packet, c.sender.callsign) {
      case Rejected(_, _) =>
      case Accepted(t) => FacilityIsAllowed(c.sender, packet, t, w.numbers);
    }
  }

  // ----- every step keeps the invariant -----

  ghost predicate Grows(s: State, s': State) {
    s' == s.(conns := s.conns + [NewConn])
  }

  /** Connection `who` moves from c to c' with the given effect on the shared state. */
  ghost predicate Moves(w: World, s: State, who: nat, c': Conn, effect: Effect, s': State) {
    && who < |s.conns|
    && Standing(w, s.conns[who], c', effect, s.conns[who].sender.callsign in s.clientMap)
    && s' == ApplyEffect(s.(conns := s.conns[who := c']), who, s.conns[who].sender.callsign, effect)
  }

  lemma MovesConns(w: World, s: State, who: nat, c': Conn, effect: Effect, s': State)
    requires Moves(w, s, who, c', effect, s')
    ensures s'.conns == s.conns[who := c']
  {
  }

  lemma MoveKeepsMap(w: World, s: State, who: nat, c': Conn, effect: Effect, s': State)
    requires Moves(w, s, who, c', effect, s') && CallsignsIndexed(s)
    ensures MapSound(s')
  {
    hide Holds, InTree, Announced, EntryBox;
    MovesConns(w, s, who, c', effect, s');
  }

  lemma MoveKeepsHolders(w: World, s: State, who: nat, c': Conn, effect: Effect, s': State)
    requires Moves(w, s, who, c', effect, s') && CallsignsIndexed(s)
    ensures HoldersMapped(s')
  {
    hide Holds, InTree, Announced, EntryBox;
    MovesConns(w, s, who, c', effect, s');
  }

  lemma MoveKeepsBoxes(w: World, s: State, who: nat, c': Conn, effect: Effect, s': State)
    requires Moves(w, s, who, c', effect, s') && BoxesIndexed(w, s)
    ensures BoxesIndexed(w, s')
  {
    hide Holds, InTree, Announced, EntryBox;
    MovesConns(w, s, who, c', effect, s');
    var mine := (EntryBox(w, s.conns[who]), who);
    forall e | e in s'.tree
      ensures e.1 < |s'.conns| && InTree(s'.conns[e.1].pc) && e.0 == EntryBox(w, s'.conns[e.1]) && s'.tree[e] == 1
    {
    }
  }

  lemma HistoryAppend(log: seq<Event>, e: Event, callsign: string)
    ensures History(log + [e], callsign)
         == History(log, callsign) + if !e.Passed? && e.callsign == callsign then [e] else []
  {
    assert (log + [e])[..|log|] == log;
  }

  lemma KeepsAnnouncing(h: seq<Event>, conns: seq<Conn>, who: nat, c': Conn, callsign: string)
    requires Announcing(h, conns, callsign) && who < |conns|
    requires Announced(c'.pc) == Announced(conns[who].pc)
    requires Announced(c'.pc) ==> c'.sender.callsign == conns[who].sender.callsign
    ensures Announcing(h, conns[who := c'], callsign)
  {
    hide Announced;
  }

  /** Only connection `who` can be announced under its callsign. */
  ghost predicate OnlyHolder(conns: seq<Conn>, who: nat) {
    && who < |conns|
    && forall id: nat :: id < |conns| && conns[id].sender.callsign == conns[who].sender.callsign ==>
         id == who || !Announced(conns[id].pc)
  }

  lemma AlternatesAppend(h: seq<Event>, e: Event)
    requires Alternates(h) && !e.Passed?
    requires if |h| % 2 == 0 then e.Joined? else e.Left? && !h[|h| - 1].Passed? && e.who == h[|h| - 1].who
    ensures Alternates(h + [e])
  {
    forall i: nat | i < |h + [e]| ensures InTurn(h + [e], i) {
      if i < |h| {
        assert InTurn(h, i);
      }
    }
  }

  lemma JoinsAnnouncing(h: seq<Event>, conns: seq<Conn>, who: nat, c': Conn, registry: map<string, nat>)
    requires OnlyHolder(conns, who) && Announcing(h, conns, conns[who].sender.callsign)
    requires !Announced(conns[who].pc) && Announced(c'.pc) && c'.sender == conns[who].sender
    ensures Announcing(h + [Joined(c'.sender.callsign, who, registry)], conns[who := c'], c'.sender.callsign)
  {
    assert |h| % 2 == 0;
    hide Announced, Alternates;
    AlternatesAppend(h, Joined(c'.sender.callsign, who, registry));
  }

  lemma LeavesAnnouncing(h: seq<Event>, conns: seq<Conn>, who: nat, c': Conn, registry: map<string, nat>)
    requires OnlyHolder(conns, who) && Announcing(h, conns, conns[who].sender.callsign)
    requires Announced(conns[who].pc) && !Announced(c'.pc) && c'.sender == conns[who].sender
    ensures Announcing(h + [Left(c'.sender.callsign, who, registry)], conns[who := c'], c'.sender.callsign)
  {
    assert |h| % 2 == 1 && h[|h| - 1].who == who;
    hide Announced, Alternates;
    AlternatesAppend(h, Left(c'.sender.callsign, who, registry));
  }

  /** Another callsign's announcements are not concerned. */
  lemma OthersAnnouncing(h: seq<Event>, conns: seq<Conn>, who: nat, c': Conn, callsign: string)
    requires Announcing(h, conns, callsign) && who < |conns|
    requires conns[who].sender.callsign != callsign && c'.sender == conns[who].sender
    ensures Announcing(h, conns[who := c'], callsign)
  {
    hide Announced;
  }

  lemma HolderIsOnly(s: State, who: nat)
    requires CallsignsIndexed(s) && who < |s.conns| && Holds(s.conns[who].pc)
    ensures OnlyHolder(s.conns, who)
  {
  }

  lemma MoveKeepsAnnouncing(w: World, s: State, who: nat, c': Conn, effect: Effect, s': State, callsign: string)
    requires Moves(w, s, who, c', effect, s') && CallsignsIndexed(s)
    requires Announcing(History(s.log, callsign), s.conns, callsign)
    ensures Announcing(History(s'.log, callsign), s'.conns, callsign)
  {
    MovesConns(w, s, who, c', effect, s');
    var c, h := s.conns[who], History(s.log, callsign);
    assert Announced(c.pc) ==> Holds(c.pc);
    assert Announced(c'.pc) ==> Holds(c'.pc);
    hide Holds, InTree, Announced, EntryBox, History, Announcing;
    match effect {
      case SayJoined =>
        HistoryAppend(s.log, Joined(c.sender.callsign, who, s.clientMap), callsign);
        HolderIsOnly(s, who);
        if callsign == c.sender.callsign {
          JoinsAnnouncing(h, s.conns, who, c', s.clientMap);
        } else {
          OthersAnnouncing(h, s.conns, who, c', callsign);
          assert h + [] == h;
        }
      case SayLeft =>
        HistoryAppend(s.log, Left(c.sender.callsign, who, s.clientMap), callsign);
        HolderIsOnly(s, who);
        if callsign == c.sender.callsign {
          LeavesAnnouncing(h, s.conns, who, c', s.clientMap);
        } else {
          OthersAnnouncing(h, s.conns, who, c', callsign);
          assert h + [] == h;
        }
      case Pass(packet, t) =>
        HistoryAppend(s.log, Passed(who, packet, t), callsign);
        assert h + [] == h;
        KeepsAnnouncing(h, s.conns, who, c', callsign);
      case _ =>
        KeepsAnnouncing(h, s.conns, who, c', callsign);
    }
  }

  /** The event a step appends is what it claims to be. */
  lemma PassIsSound(w: World, c: Conn, packet: string, t: PacketType)
    requires Received(w, c, packet).1 == Pass(packet, t)
    requires Entitled(c)
    ensures VerifyPacket(packet, c.sender.callsign) == Accepted(t)
    ensures IsPrivileged(packet, t) ==> c.sender.isAtc && c.sender.rating >= STUDENT1
  {
    hide Decide, IsPrivileged;
    if IsPrivileged(packet, t) {
      PrivilegedIsRated(c.sender, packet, t, w.numbers);
    }
  }

  /** Identity and rating of a logged-in connection never change. */
  ghost predicate SendersKept(s: State, s': State) {
    && |s.conns| <= |s'.conns|
    && forall id: nat :: id < |s.conns| && s.conns[id].pc != Fresh ==>
         && s'.conns[id].pc != Fresh
         && s'.conns[id].sender.callsign == s.conns[id].sender.callsign
         && s'.conns[id].sender.isAtc == s.conns[id].sender.isAtc
         && s'.conns[id].sender.rating == s.conns[id].sender.rating
  }

  lemma EventStays(s: State, s': State, e: Event)
    requires EventSound(s, e) && SendersKept(s, s')
    ensures EventSound(s', e)
  {
    hide VerifyPacket, IsPrivileged;
  }

  lemma AcceptKeepsIndexes(w: World, s: State, s': State)
    requires CallsignsIndexed(s) && BoxesIndexed(w, s) && ConnsSound(w, s) && Grows(s, s')
    ensures CallsignsIndexed(s') && BoxesIndexed(w, s') && ConnsSound(w, s')
  {
    hide EntryBox, Entitled;
  }

  lemma AcceptKeepsAnnouncing(h: seq<Event>, conns: seq<Conn>, callsign: string)
    requires Announcing(h, conns, callsign)
    ensures Announcing(h, conns + [NewConn], callsign)
  {
    hide Alternates;
  }

  /** Accepting a connection adds one that holds nothing. */
  lemma AcceptKeeps(w: World, s: State, s': State)
    requires Inv(w, s) && Grows(s, s')
    ensures Inv(w, s')
  {
    AcceptKeepsIndexes(w, s, s');
    assert SendersKept(s, s');
    hide CallsignsIndexed, BoxesIndexed, ConnsSound, Announcing, History, EventSound, SendersKept;
    forall callsign ensures Announcing(History(s'.log, callsign), s'.conns, callsign) {
      AcceptKeepsAnnouncing(History(s.log, callsign), s.conns, callsign);
    }
    forall i | 0 <= i < |s'.log| ensures EventSound(s', s'.log[i]) {
      EventStays(s, s', s.log[i]);
    }
  }

  /** The event a step appends to the log, if any, is sound. */
  lemma NewEventSound(w: World, s: State, who: nat, step: Step, c': Conn, effect: Effect, s': State)
    requires Inv(w, s) && Moves(w, s, who, c', effect, s') && SendersKept(s, s')
    requires Act(w, s.conns[who], step, s.conns[who].sender.callsign in s.clientMap) == Some((c', effect))
    ensures s'.log == s.log || (|s'.log| == |s.log| + 1 && s'.log[..|s.log|] == s.log && EventSound(s', s'.log[|s.log|]))
  {
    hide VerifyPacket, IsPrivileged, Decide, AnnouncementsSound, BoxesIndexed;
    var c := s.conns[who];
    match effect {
      case Pass(packet, t) => PassIsSound(w, c, packet, t);
      case _ =>
    }
  }

  lemma StepKeepsLog(w: World, s: State, who: nat, step: Step, c': Conn, effect: Effect, s': State)
    requires Inv(w, s) && Moves(w, s, who, c', effect, s') && SendersKept(s, s')
    requires Act(w, s.conns[who], step, s.conns[who].sender.callsign in s.clientMap) == Some((c', effect))
    ensures LogSound(s')
  {
    hide Act, Moves, SendersKept, EventSound, AnnouncementsSound, BoxesIndexed, CallsignsIndexed, ConnsSound;
    NewEventSound(w, s, who, step, c', effect, s');
    forall i | 0 <= i < |s.log| ensures EventSound(s', s.log[i]) {
      EventStays(s, s', s.log[i]);
    }
  }

  lemma ActKeepsConns(w: World, s: State, who: nat, step: Step, c': Conn, effect: Effect, s': State)
    requires Inv(w, s) && Moves(w, s, who, c', effect, s')
    requires Act(w, s.conns[who], step, s.conns[who].sender.callsign in s.clientMap) == Some((c', effect))
    ensures ConnsSound(w, s') && SendersKept(s, s')
  {
    hide Standing, Holds, Entitled, UpdateConsistent, BoxesIndexed, CallsignsIndexed, AnnouncementsSound, LogSound, Act;
    ActSound(w, s.conns[who], step, s.conns[who].sender.callsign in s.clientMap, c', effect);
    MovesConns(w, s, who, c', effect, s');
  }

  /** Every step of every connection, in any reachable situation, keeps the whole invariant. */
  lemma StepKeepsInv(w: World, s: State, who: nat, step: Step, s': State)
    requires Inv(w, s) && Next(w, s, who, step) == Some(s')
    ensures Inv(w, s')
  {
    if step.Accept? {
      AcceptKeeps(w, s, s');
    } else {
      var taken := s.conns[who].sender.callsign in s.clientMap;
      var (c', effect) := Act(w, s.conns[who], step, taken).value;
      ActStanding(w, s.conns[who], step, taken, c', effect);
      assert Moves(w, s, who, c', effect, s');
      hide Act, Standing, ApplyEffect, MapSound, HoldersMapped, BoxesIndexed, ConnsSound, LogSound, Next, Moves, Announcing;
      ActKeepsConns(w, s, who, step, c', effect, s');
      StepKeepsLog(w, s, who, step, c', effect, s');
      MoveKeepsMap(w, s, who, c', effect, s');
      MoveKeepsHolders(w, s, who, c', effect, s');
      MoveKeepsBoxes(w, s, who, c', effect, s');
      forall callsign ensures Announcing(History(s'.log, callsign), s'.conns, callsign) {
        MoveKeepsAnnouncing(w, s, who, c', effect, s', callsign);
      }
    }
  }

  /** The invariant holds after every run, however the connections are interleaved. */
  lemma {:induction false} RunKeepsInv(w: World, trace: seq<(nat, Step)>)
    requires Run(w, trace).Some?
    ensures Inv(w, Run(w, trace).value)
  {
    if trace == [] {
    } else {
      var last := |trace| - 1;
      RunKeepsInv(w, trace[..last]);
      hide Inv, Next;
      StepKeepsInv(w, Run(w, trace[..last]).value, trace[last].0, trace[last].1, Run(w, trace).value);
    }
  }

  // ----- what it means -----

  /** A callsign is held by at most one connection at a time, and the map leads to that one. */
  lemma CallsignsAreUnique(w: World, s: State, a: nat, b: nat)
    requires Reachable(w, s) && a < |s.conns| && b < |s.conns|
    requires Holds(s.conns[a].pc) && Holds(s.conns[b].pc)
    requires s.conns[a].sender.callsign == s.conns[b].sender.callsign
    ensures a == b && s.conns[a].sender.callsign in s.clientMap && s.clientMap[s.conns[a].sender.callsign] == a
  {
    var trace :| Run(w, trace) == Some(s);
    RunKeepsInv(w, trace);
  }

  /** From its tree insert to its tree delete a connection has exactly one tree entry and is in the
      map; outside an update the entry is the box of its position and range. Otherwise it has none. */
  lemma OneEntryEach(w: World, s: State, id: nat, box: Box)
    requires Reachable(w, s)
    ensures s.tree[(box, id)]
         == if id < |s.conns| && InTree(s.conns[id].pc) && box == EntryBox(w, s.conns[id]) then 1 else 0
    ensures (box, id) in s.tree ==>
      && s.conns[id].sender.callsign in s.clientMap && s.clientMap[s.conns[id].sender.callsign] == id
      && (!Updating(s.conns[id].pc) ==> box == CalculateBoundingBox(w.earth, s.conns[id].position, s.conns[id].visRange))
  {
    var trace :| Run(w, trace) == Some(s);
    RunKeepsInv(w, trace);
    assert MapSound(s) && HoldersMapped(s) && BoxesIndexed(w, s);
    assert (box, id) in s.tree <==> s.tree[(box, id)] > 0;
  }

  /** The entries `search` calls back for: those meeting the searcher's box, except its own. */
  ghost function Found(w: World, s: State, who: nat): set<(Box, nat)>
    requires who < |s.conns|
  {
    set e | e in s.tree && e.1 != who && Meets(e.0, BoxOf(w, s.conns[who]))
  }

  /** In every reachable state, search calls back for another client exactly when that client's entry
      meets the searcher's box, and each entry occurs once. */
  lemma SearchFinds(w: World, s: State, who: nat, id: nat)
    requires Reachable(w, s) && who < |s.conns| && id < |s.conns| && id != who
    ensures (exists e :: e in Found(w, s, who) && e.1 == id)
       <==> InTree(s.conns[id].pc) && Meets(EntryBox(w, s.conns[id]), BoxOf(w, s.conns[who]))
    ensures forall e, f :: e in Found(w, s, who) && f in Found(w, s, who) && e.1 == f.1 ==> e == f && s.tree[e] == 1
  {
    var trace :| Run(w, trace) == Some(s);
    RunKeepsInv(w, trace);
    hide Meets, InTree, EntryBox, BoxOf;
    assert BoxesIndexed(w, s);
    if InTree(s.conns[id].pc) && Meets(EntryBox(w, s.conns[id]), BoxOf(w, s.conns[who])) {
      assert (EntryBox(w, s.conns[id]), id) in Found(w, s, who);
    }
  }

  /** No registration, release or position update is in progress. */
  ghost predicate Quiescent(s: State) {
    forall id: nat :: id < |s.conns| ==>
      var pc := s.conns[id].pc;
      !Updating(pc) && !pc.InMap? && !pc.OutOfTree?
  }

  /** With nothing in progress, search is a brute-force scan of the callsign map: it calls back for
      every other registered client whose visibility box meets the searcher's, and for no one else. */
  lemma SearchIsScan(w: World, s: State, who: nat, id: nat)
    requires Reachable(w, s) && Quiescent(s) && who < |s.conns| && id != who
    ensures (exists e :: e in Found(w, s, who) && e.1 == id)
       <==> id in s.clientMap.Values && id < |s.conns| && Meets(BoxOf(w, s.conns[id]), BoxOf(w, s.conns[who]))
  {
    var trace :| Run(w, trace) == Some(s);
    RunKeepsInv(w, trace);
    assert MapSound(s) && HoldersMapped(s) && BoxesIndexed(w, s);
    if id < |s.conns| {
      SearchFinds(w, s, who, id);
      if Holds(s.conns[id].pc) {
        assert s.clientMap[s.conns[id].sender.callsign] == id;
      }
    }
  }

  /** The add and disconnect broadcasts of any callsign strictly alternate, starting with an add, and
      each disconnect is by the connection that was added last. */
  lemma AnnouncementsAlternate(w: World, s: State, callsign: string)
    requires Reachable(w, s)
    ensures Alternates(History(s.log, callsign))
  {
    var trace :| Run(w, trace) == Some(s);
    RunKeepsInv(w, trace);
    assert Announcing(History(s.log, callsign), s.conns, callsign);
  }

  /** Each of these broadcasts happens while the connection still holds the callsign: the map it goes
      out to contains it. */
  lemma AnnouncedWhileHeld(w: World, s: State, i: nat)
    requires Reachable(w, s) && i < |s.log| && !s.log[i].Passed?
    ensures s.log[i].callsign in s.log[i].registry && s.log[i].registry[s.log[i].callsign] == s.log[i].who
  {
    var trace :| Run(w, trace) == Some(s);
    RunKeepsInv(w, trace);
    assert EventSound(s, s.log[i]);
  }

  /** Every registered client has a valid, unreserved callsign, revision 100 or 101, a rating between
      Observer and its maximum, and a facility type allowed for its rating. */
  lemma RegisteredAreEntitled(w: World, s: State, callsign: string)
    requires Reachable(w, s) && callsign in s.clientMap
    ensures s.clientMap[callsign] < |s.conns| && Entitled(s.conns[s.clientMap[callsign]])
    ensures s.conns[s.clientMap[callsign]].sender.callsign == callsign
  {
    var trace :| Run(w, trace) == Some(s);
    RunKeepsInv(w, trace);
    assert MapSound(s);
  }

  /** Every privileged packet ever passed on came, verified, from a controller rated Student 1 or above. */
  lemma PrivilegedAreRated(w: World, s: State, i: nat)
    requires Reachable(w, s) && i < |s.log| && s.log[i].Passed?
    ensures s.log[i].who < |s.conns|
    ensures var sender := s.conns[s.log[i].who].sender;
            && VerifyPacket(s.log[i].packet, sender.callsign) == Accepted(s.log[i].packetType)
            && (IsPrivileged(s.log[i].packet, s.log[i].packetType) ==> sender.isAtc && sender.rating >= STUDENT1)
  {
    var trace :| Run(w, trace) == Some(s);
    RunKeepsInv(w, trace);
    assert EventSound(s, s.log[i]);
  }

  /** Nothing leaks: once no connection holds a callsign any more, the map and the tree are empty and
      every callsign's last broadcast was a disconnect. */
  lemma NothingLeaks(w: World, s: State)
    requires Reachable(w, s)
    requires forall id: nat :: id < |s.conns| ==> !Holds(s.conns[id].pc)
    ensures s.clientMap == map[] && s.tree == multiset{}
    ensures forall callsign :: |History(s.log, callsign)| % 2 == 0
  {
    var trace :| Run(w, trace) == Some(s);
    RunKeepsInv(w, trace);
    hide Run, Inv, MapSound, BoxesIndexed, Announcing, History, ConnsSound, LogSound;
    InvParts(w, s);
    EmptyIndexes(w, s);
    forall callsign ensures |History(s.log, callsign)| % 2 == 0 {
      LastWasLeft(History(s.log, callsign), s.conns, callsign);
    }
  }

  lemma InvParts(w: World, s: State)
    requires Inv(w, s)
    ensures MapSound(s) && HoldersMapped(s) && BoxesIndexed(w, s)
    ensures forall callsign :: Announcing(History(s.log, callsign), s.conns, callsign)
  {
    hide MapSound, HoldersMapped, BoxesIndexed, Announcing, ConnsSound, LogSound;
  }

  lemma EmptyIndexes(w: World, s: State)
    requires MapSound(s) && BoxesIndexed(w, s)
    requires forall id: nat :: id < |s.conns| ==> !Holds(s.conns[id].pc)
    ensures s.clientMap == map[] && s.tree == multiset{}
  {
    hide EntryBox;
    assert forall callsign :: callsign !in s.clientMap;
    assert forall e :: e !in s.tree;
  }

  lemma LastWasLeft(h: seq<Event>, conns: seq<Conn>, callsign: string)
    requires Announcing(h, conns, callsign)
    requires forall id: nat :: id < |conns| ==> !Holds(conns[id].pc)
    ensures |h| % 2 == 0
  {
  }

  function Follow(w: World, s: State, who: nat, steps: seq<Step>): Option<State>
    decreases |steps|
  {
    if steps == [] then Some(s)
    else match Next(w, s, who, steps[0])
         case None => None
         case Some(s') => Follow(w, s', who, steps[1..])
  }

  /** s' differs from s in the program counter of `who`, the map and the tree. */
  ghost predicate At(s: State, s': State, who: nat, pc: Pc, clientMap: map<string, nat>, tree: multiset<(Box, nat)>)
    requires who < |s.conns|
  {
    s' == State(s.conns[who := s.conns[who].(pc := pc)], clientMap, tree, s.log)
  }

  lemma TakeStep(w: World, s: State, at: State, who: nat, pc: Pc, step: Step, pc': Pc, effect: Effect)
    requires who < |s.conns| && !step.Accept?
    requires At(s, at, who, pc, at.clientMap, at.tree)
    requires var c := s.conns[who];
             Act(w, c.(pc := pc), step, c.sender.callsign in at.clientMap) == Some((c.(pc := pc'), effect))
    requires !effect.SayJoined? && !effect.SayLeft? && !effect.Pass?
    ensures Next(w, at, who, step).Some?
    ensures var done := ApplyEffect(at, who, s.conns[who].sender.callsign, effect);
            At(s, Next(w, at, who, step).value, who, pc', done.clientMap, done.tree)
  {
    hide Act;
    var c := s.conns[who];
    assert at.conns[who := c.(pc := pc')] == s.conns[who := c.(pc := pc')];
  }

  /** A registration that is released at once, because the welcome message could not be sent, leaves
      the map, the tree and the log as they were. */
  lemma ReleaseUndoesRegister(w: World, s: State, who: nat)
    requires who < |s.conns| && s.conns[who].pc == LoggedIn
    requires s.conns[who].sender.callsign !in s.clientMap
    ensures Follow(w, s, who, [InsertCallsign, InsertBox, Greet(false), DeleteBox, DeleteCallsign])
         == Some(s.(conns := s.conns[who := s.conns[who].(pc := Closed)]))
  {
    var c := s.conns[who];
    var box := BoxOf(w, c);
    ActsOfVisit(w, c);
    hide Act, Next, BoxOf, Follow;
    TakeStep(w, s, s, who, LoggedIn, InsertCallsign, InMap, TakeCallsign);
    var s1 := Next(w, s, who, InsertCallsign).value;
    TakeStep(w, s, s1, who, InMap, InsertBox, Registered, PlantBox(box));
    var s2 := Next(w, s1, who, InsertBox).value;
    TakeStep(w, s, s2, who, Registered, Greet(false), Releasing, Nothing);
    var s3 := Next(w, s2, who, Greet(false)).value;
    TakeStep(w, s, s3, who, Releasing, DeleteBox, OutOfTree, UprootBox(box));
    var s4 := Next(w, s3, who, DeleteBox).value;
    TakeStep(w, s, s4, who, OutOfTree, DeleteCallsign, Closed, FreeCallsign);
    var s5 := Next(w, s4, who, DeleteCallsign).value;
    Undone(s.clientMap, s.tree, c.sender.callsign, who, box);
    FollowFive(w, s, who, [InsertCallsign, InsertBox, Greet(false), DeleteBox, DeleteCallsign], s1, s2, s3, s4, s5);
  }

  lemma Undone(clientMap: map<string, nat>, tree: multiset<(Box, nat)>, callsign: string, who: nat, box: Box)
    requires callsign !in clientMap
    ensures clientMap[callsign := who] - {callsign} == clientMap
    ensures tree + multiset{(box, who)} - multiset{(box, who)} == tree
  {
  }

  lemma ActsOfVisit(w: World, c: Conn)
    ensures Act(w, c.(pc := LoggedIn), InsertCallsign, false) == Some((c.(pc := InMap), TakeCallsign))
    ensures Act(w, c.(pc := InMap), InsertBox, true) == Some((c.(pc := Registered), PlantBox(BoxOf(w, c))))
    ensures Act(w, c.(pc := Registered), Greet(false), true) == Some((c.(pc := Releasing), Nothing))
    ensures Act(w, c.(pc := Releasing), DeleteBox, true) == Some((c.(pc := OutOfTree), UprootBox(BoxOf(w, c))))
    ensures Act(w, c.(pc := OutOfTree), DeleteCallsign, true) == Some((c.(pc := Closed), FreeCallsign))
  {
  }

  lemma FollowFive(w: World, s: State, who: nat, steps: seq<Step>, s1: State, s2: State, s3: State, s4: State, s5: State)
    requires |steps| == 5
    requires Next(w, s, who, steps[0]) == Some(s1) && Next(w, s1, who, steps[1]) == Some(s2)
    requires Next(w, s2, who, steps[2]) == Some(s3) && Next(w, s3, who, steps[3]) == Some(s4)
    requires Next(w, s4, who, steps[4]) == Some(s5)
    ensures Follow(w, s, who, steps) == Some(s5)
  {
    hide Next;
    assert Follow(w, s4, who, steps[1..][1..][1..][1..]) == Some(s5);
    assert Follow(w, s3, who, steps[1..][1..][1..]) == Some(s5);
    assert Follow(w, s2, who, steps[1..][1..]) == Some(s5);
    assert Follow(w, s1, who, steps[1..]) == Some(s5);
  }

  // ----- positions follow the reports -----

  /** The connection stands at the point with the range, of this facility type, serving. */
  function Placed(c: Conn, facilityType: int, point: Point, range: real): Conn {
    c.(pc := Serving, sender := c.sender.(facilityType := facilityType), position := point, visRange := range)
  }

  /** The connection on its way there from where it stands. */
  function MovingTo(w: World, c: Conn, facilityType: int, point: Point, range: real): Conn {
    c.(pc := Moving(BoxOf(w, c), CalculateBoundingBox(w.earth, point, range), point, range),
       sender := c.sender.(facilityType := facilityType))
  }

  /** The four steps of an accepted position report, from the packet to the swapped box: the connection
      serves on, at the point and with the range its fields give, and the tree has lost the old box and
      gained the box of exactly that point and range. */
  lemma ReportMoves(w: World, s: State, who: nat, packet: string)
    requires who < |s.conns| && s.conns[who].pc == Serving && (BoxOf(w, s.conns[who]), who) in s.tree
    requires ReportedFix(w.numbers, s.conns[who].sender.callsign, s.conns[who].sender.rating, packet).Some?
    ensures
      var c := s.conns[who];
      var (point, range) := ReportedFix(w.numbers, c.sender.callsign, c.sender.rating, packet).value;
      var facility := ReportedFacility(w.numbers, c.sender.callsign, c.sender.rating, packet);
      Follow(w, s, who, [Receive(packet), StoreCoords, StoreRange, SwapBox])
        == Some(s.(conns := s.conns[who := Placed(c, if facility.Some? then facility.value else c.sender.facilityType, point, range)],
                   tree := s.tree - multiset{(BoxOf(w, c), who)} + multiset{(CalculateBoundingBox(w.earth, point, range), who)}))
  {
    var c := s.conns[who];
    var fix := ReportedFix(w.numbers, c.sender.callsign, c.sender.rating, packet).value;
    var facility := ReportedFacility(w.numbers, c.sender.callsign, c.sender.rating, packet);
    ReceivedFix(w, c, packet);
    hide ReportedFix, ReportedFacility, BoxOf, CalculateBoundingBox, Follow, Next, Act, Received;
    StoresRun(w, s, who, packet, if facility.Some? then facility.value else c.sender.facilityType, fix.0, fix.1);
  }

  /** The same, whatever made the packet a report. */
  lemma StoresRun(w: World, s: State, who: nat, packet: string, facilityType: int, point: Point, range: real)
    requires who < |s.conns| && s.conns[who].pc == Serving && (BoxOf(w, s.conns[who]), who) in s.tree
    requires Received(w, s.conns[who], packet)
          == (MovingTo(w, s.conns[who], facilityType, point, range), Nothing)
    ensures
      var c := s.conns[who];
      Follow(w, s, who, [Receive(packet), StoreCoords, StoreRange, SwapBox])
        == Some(s.(conns := s.conns[who := Placed(c, facilityType, point, range)],
                   tree := s.tree - multiset{(BoxOf(w, c), who)} + multiset{(CalculateBoundingBox(w.earth, point, range), who)}))
  {
    hide Received, BoxOf, CalculateBoundingBox, Follow, Next, Act, ApplyEffect;
    var c := s.conns[who];
    var oldBox, newBox := BoxOf(w, c), CalculateBoundingBox(w.earth, point, range);
    var effect := if oldBox == newBox then Nothing else SwapBoxes(oldBox, newBox);
    var c' := Placed(c, facilityType, point, range);
    var c1 := MovingTo(w, c, facilityType, point, range);
    var c2 := c'.(pc := Moved(oldBox, newBox, range), visRange := c.visRange);
    var c3 := c'.(pc := Stored(oldBox, newBox));
    ActsOfMove(w, c, packet, c1, c2, c3, c', effect, c.sender.callsign in s.clientMap);
    var swapped := s.tree - multiset{(oldBox, who)} + multiset{(newBox, who)};
    SwapEffect(s.(conns := s.conns[who := c']), who, c.sender.callsign, oldBox, newBox, effect);
    var s4 := s.(conns := s.conns[who := c'], tree := swapped);
    hide Placed, MovingTo;
    var s1, s2, s3 := s.(conns := s.conns[who := c1]), s.(conns := s.conns[who := c2]), s.(conns := s.conns[who := c3]);
    ActsQuietly(w, s, s, who, c, Receive(packet), c1);
    ActsQuietly(w, s, s1, who, c1, StoreCoords, c2);
    ActsQuietly(w, s, s2, who, c2, StoreRange, c3);
    ActsThen(w, s, s3, who, c3, SwapBox, c', effect);
    FollowFour(w, s, who, [Receive(packet), StoreCoords, StoreRange, SwapBox], s1, s2, s3, s4);
  }

  lemma ActsOfMove(w: World, c: Conn, packet: string, c1: Conn, c2: Conn, c3: Conn, c': Conn, effect: Effect, taken: bool)
    requires c.pc == Serving && c1.pc.Moving? && Received(w, c, packet) == (c1, Nothing)
    requires c2 == c1.(pc := Moved(c1.pc.oldBox, c1.pc.newBox, c1.pc.range), position := c1.pc.target)
    requires c3 == c2.(pc := Stored(c1.pc.oldBox, c1.pc.newBox), visRange := c1.pc.range) && c' == c3.(pc := Serving)
    requires effect == if c1.pc.oldBox == c1.pc.newBox then Nothing else SwapBoxes(c1.pc.oldBox, c1.pc.newBox)
    ensures Act(w, c, Receive(packet), taken) == Some((c1, Nothing))
    ensures Act(w, c1, StoreCoords, taken) == Some((c2, Nothing))
    ensures Act(w, c2, StoreRange, taken) == Some((c3, Nothing))
    ensures Act(w, c3, SwapBox, taken) == Some((c', effect))
  {
    hide Received, BoxOf, LoginAllowed;
  }

  lemma SwapEffect(s: State, who: nat, callsign: string, oldBox: Box, newBox: Box, effect: Effect)
    requires (oldBox, who) in s.tree && effect == if oldBox == newBox then Nothing else SwapBoxes(oldBox, newBox)
    ensures ApplyEffect(s, who, callsign, effect)
         == s.(tree := s.tree - multiset{(oldBox, who)} + multiset{(newBox, who)})
  {
    assert oldBox == newBox ==> s.tree == s.tree - multiset{(oldBox, who)} + multiset{(newBox, who)};
  }

  /** What the packet of a report makes of its connection. */
  lemma ReceivedFix(w: World, c: Conn, packet: string)
    ensures
      var fix := ReportedFix(w.numbers, c.sender.callsign, c.sender.rating, packet);
      var facility := ReportedFacility(w.numbers, c.sender.callsign, c.sender.rating, packet);
      var facilityType := if facility.Some? then facility.value else c.sender.facilityType;
      if fix.Some? then Received(w, c, packet) == (MovingTo(w, c, facilityType, fix.value.0, fix.value.1), Nothing)
      else Received(w, c, packet).0 == c.(sender := c.sender.(facilityType := facilityType))
  {
    hide ReportedFix, ReportedFacility, VerifyPacket, Decide, CalculateBoundingBox;
    match VerifyPacket(packet, c.sender.callsign)
    case Accepted(t) => ReportIsTaken(c.sender, packet, t, w.numbers);
    case Rejected(_, _) => NothingReported(w.numbers, c.sender.callsign, c.sender.rating, packet);
  }

  lemma NothingReported(numbers: Numbers, callsign: string, rating: int, packet: string)
    requires VerifyPacket(packet, callsign).Rejected?
    ensures ReportedFix(numbers, callsign, rating, packet).None? && ReportedFacility(numbers, callsign, rating, packet).None?
  {
    hide VerifyPacket;
  }

  lemma ActsThen(w: World, s: State, at: State, who: nat, c: Conn, step: Step, c': Conn, effect: Effect)
    requires who < |s.conns| && !step.Accept? && at == s.(conns := s.conns[who := c])
    requires c'.sender.callsign == c.sender.callsign
    requires Act(w, c, step, c.sender.callsign in s.clientMap) == Some((c', effect))
    ensures Next(w, at, who, step) == Some(ApplyEffect(s.(conns := s.conns[who := c']), who, c.sender.callsign, effect))
  {
    hide Act;
    assert at.conns[who := c'] == s.conns[who := c'];
  }

  lemma ActsQuietly(w: World, s: State, at: State, who: nat, c: Conn, step: Step, c': Conn)
    requires who < |s.conns| && !step.Accept? && at == s.(conns := s.conns[who := c])
    requires c'.sender.callsign == c.sender.callsign
    requires Act(w, c, step, c.sender.callsign in s.clientMap) == Some((c', Nothing))
    ensures Next(w, at, who, step) == Some(s.(conns := s.conns[who := c']))
  {
    hide Act, Next;
    ActsThen(w, s, at, who, c, step, c', Nothing);
  }

  lemma FollowFour(w: World, s: State, who: nat, steps: seq<Step>, s1: State, s2: State, s3: State, s4: State)
    requires |steps| == 4
    requires Next(w, s, who, steps[0]) == Some(s1) && Next(w, s1, who, steps[1]) == Some(s2)
    requires Next(w, s2, who, steps[2]) == Some(s3) && Next(w, s3, who, steps[3]) == Some(s4)
    ensures Follow(w, s, who, steps) == Some(s4)
  {
    hide Next;
    assert Follow(w, s3, who, steps[1..][1..][1..]) == Some(s4);
    assert Follow(w, s2, who, steps[1..][1..]) == Some(s4);
    assert Follow(w, s1, who, steps[1..]) == Some(s4);
  }

  /** The packets connection `who` received in a run, in order. */
  function PacketsOf(trace: seq<(nat, Step)>, who: nat): seq<string> {
    if trace == [] then []
    else
      var last := trace[|trace| - 1];
      PacketsOf(trace[..|trace| - 1], who)
        + if last.0 == who && last.1.Receive? then [last.1.packet] else []
  }

  /** The place of the last report that was taken; the origin before the first. */
  function LastFix(numbers: Numbers, callsign: string, rating: int, packets: seq<string>): (Point, real) {
    if packets == [] then (Point(0.0, 0.0), 0.0)
    else
      var fix := ReportedFix(numbers, callsign, rating, packets[|packets| - 1]);
      if fix.Some? then fix.value else LastFix(numbers, callsign, rating, packets[..|packets| - 1])
  }

  /** The facility type of the last controller's report that was taken; none before the first. */
  function LastFacility(numbers: Numbers, callsign: string, rating: int, packets: seq<string>): int {
    if packets == [] then 0
    else
      var facility := ReportedFacility(numbers, callsign, rating, packets[|packets| - 1]);
      if facility.Some? then facility.value else LastFacility(numbers, callsign, rating, packets[..|packets| - 1])
  }

  /** Where the connection stands, or is on its way to. */
  function Heading(c: Conn): (Point, real) {
    match c.pc
    case Moving(_, _, target, range) => (target, range)
    case Moved(_, _, range) => (c.position, range)
    case _ => (c.position, c.visRange)
  }

  /** The connection heads for the place of the last report among these packets, with its facility type. */
  ghost predicate Tracks(w: World, c: Conn, packets: seq<string>) {
    && Heading(c) == LastFix(w.numbers, c.sender.callsign, c.sender.rating, packets)
    && c.sender.facilityType == LastFacility(w.numbers, c.sender.callsign, c.sender.rating, packets)
    && (c.pc.Fresh? ==> packets == [])
  }

  lemma ActTracks(w: World, c: Conn, step: Step, taken: bool, c': Conn, effect: Effect, packets: seq<string>)
    requires Tracks(w, c, packets) && Act(w, c, step, taken) == Some((c', effect))
    ensures Tracks(w, c', packets + if step.Receive? then [step.packet] else [])
  {
    hide ReportedFix, ReportedFacility, BoxOf, CalculateBoundingBox, LoginAllowed, Received;
    assert packets + [] == packets;
    if step.Receive? {
      assert (packets + [step.packet])[..|packets|] == packets;
      ReceivedFix(w, c, step.packet);
    }
  }

  ghost predicate AllTrack(w: World, s: State, trace: seq<(nat, Step)>) {
    forall who: nat ::
      if who < |s.conns| then Tracks(w, s.conns[who], PacketsOf(trace, who)) else PacketsOf(trace, who) == []
  }

  lemma StepTracks(w: World, s: State, who: nat, step: Step, s': State, id: nat, packets: seq<string>)
    requires Next(w, s, who, step) == Some(s')
    requires if id < |s.conns| then Tracks(w, s.conns[id], packets) else packets == []
    ensures var now := packets + if who == id && step.Receive? then [step.packet] else [];
            if id < |s'.conns| then Tracks(w, s'.conns[id], now) else now == []
  {
    assert packets + [] == packets;
    if step.Accept? {
      assert Tracks(w, NewConn, []);
    } else {
      var c := s.conns[who];
      var (c', effect) := Act(w, c, step, c.sender.callsign in s.clientMap).value;
      hide Act, Tracks;
      EffectKeepsConns(s.(conns := s.conns[who := c']), who, c.sender.callsign, effect);
      if id == who {
        ActTracks(w, c, step, c.sender.callsign in s.clientMap, c', effect, packets);
      }
    }
  }

  lemma EffectKeepsConns(s: State, who: nat, callsign: string, effect: Effect)
    ensures ApplyEffect(s, who, callsign, effect).conns == s.conns
  {
  }

  /** After every run, however interleaved, every connection stands at, or is on its way to, the place its
      last taken position report gives, and has the facility type of its last taken controller's report. */
  lemma {:induction false} PositionsFollowReports(w: World, trace: seq<(nat, Step)>)
    requires Run(w, trace).Some?
    ensures AllTrack(w, Run(w, trace).value, trace)
  {
    hide Tracks, Next;
    if trace != [] {
      var last := |trace| - 1;
      PositionsFollowReports(w, trace[..last]);
      var s, s' := Run(w, trace[..last]).value, Run(w, trace).value;
      forall id: nat
        ensures if id < |s'.conns| then Tracks(w, s'.conns[id], PacketsOf(trace, id)) else PacketsOf(trace, id) == []
      {
        StepTracks(w, s, trace[last].0, trace[last].1, s', id, PacketsOf(trace[..last], id));
      }
    }
  }

  lemma PrivilegedIsNoReport(packet: string, t: PacketType)
    requires |packet| >= 8 && CountFields(packet) >= 3 && CountFields(packet) >= MinFields(t)
    requires IsPrivileged(packet, t)
    ensures !t.PilotPosition? && !t.ATCPosition?
  {
  }

  /** A privileged packet is passed on and logged exactly for a controller in command; nothing else changes. */
  lemma PrivilegedIsPassed(w: World, s: State, who: nat, packet: string, t: PacketType)
    requires who < |s.conns| && s.conns[who].pc == Serving
    requires VerifyPacket(packet, s.conns[who].sender.callsign) == Accepted(t) && IsPrivileged(packet, t)
    ensures Next(w, s, who, Receive(packet))
         == Some(if InCommand(s.conns[who].sender, t, Field(packet, 1)) then s.(log := s.log + [Passed(who, packet, t)]) else s)
  {
    hide Decide, VerifyPacket, IsPrivileged, Field, InCommand, Received, Next;
    var c := s.conns[who];
    PrivilegedIsReceived(w, c, packet, t);
    assert s.conns[who := c] == s.conns;
    ActsThen(w, s, s, who, c, Receive(packet), c, Received(w, c, packet).1);
  }

  lemma PrivilegedIsReceived(w: World, c: Conn, packet: string, t: PacketType)
    requires VerifyPacket(packet, c.sender.callsign) == Accepted(t) && IsPrivileged(packet, t)
    ensures Received(w, c, packet)
         == (c, if InCommand(c.sender, t, Field(packet, 1)) then Pass(packet, t) else Nothing)
  {
    PrivilegedIsNoReport(packet, t);
    PrivilegedExactly(c.sender, packet, t, w.numbers);
    VelocityAudience(c.sender, packet, t, w.numbers);
    hide Decide, VerifyPacket, IsPrivileged, Field, InCommand;
  }

  // ----- whole sessions -----

  /** The client of these login packets, registered and announced. */
  function ServingConn(data: LoginData, granted: int): Conn {
    Conn(Serving, Sender(data.callsign, data.isAtc, data.rating, 0, data.challenged),
         data.protoRevision, granted, Point(0.0, 0.0), 0.0)
  }

  /** In any state, an allowed login under a free callsign can be carried through: the new connection serves,
      the map leads to it, the tree has its box, and its announcement, with itself in the map, is the one
      new broadcast. */
  lemma SessionBegins(w: World, s: State, data: LoginData, granted: int)
    requires LoginAllowed(data, granted) && data.callsign !in s.clientMap
    ensures
      var who := |s.conns|;
      var c := ServingConn(data, granted);
      Follow(w, s, who, [Accept, Login(data, granted), InsertCallsign, InsertBox, Greet(true), AnnounceJoin])
        == Some(State(s.conns + [c], s.clientMap[data.callsign := who],
                      s.tree + multiset{(CalculateBoundingBox(w.earth, Point(0.0, 0.0), 0.0), who)},
                      s.log + [Joined(data.callsign, who, s.clientMap[data.callsign := who])]))
  {
    var who := |s.conns|;
    var c := ServingConn(data, granted);
    var clientMap, box := s.clientMap[data.callsign := who], BoxOf(w, c);
    var tree, log := s.tree + multiset{(box, who)}, s.log + [Joined(data.callsign, who, clientMap)];
    ActsOfBeginning(w, data, granted, c, box);
    assert box == CalculateBoundingBox(w.earth, Point(0.0, 0.0), 0.0);
    hide Act, BoxOf, CalculateBoundingBox, Follow, LoginAllowed;
    var s1 := State(s.conns + [NewConn], s.clientMap, s.tree, s.log);
    var s2 := State(s.conns + [c.(pc := LoggedIn)], s.clientMap, s.tree, s.log);
    var s3 := State(s.conns + [c.(pc := InMap)], clientMap, s.tree, s.log);
    var s4 := State(s.conns + [c.(pc := Registered)], clientMap, tree, s.log);
    var s5 := State(s.conns + [c.(pc := Greeted)], clientMap, tree, s.log);
    var s6 := State(s.conns + [c], clientMap, tree, log);
    LastActs(w, s.conns, s1, NewConn, Login(data, granted), c.(pc := LoggedIn), Nothing);
    LastActs(w, s.conns, s2, c.(pc := LoggedIn), InsertCallsign, c.(pc := InMap), TakeCallsign);
    LastActs(w, s.conns, s3, c.(pc := InMap), InsertBox, c.(pc := Registered), PlantBox(box));
    LastActs(w, s.conns, s4, c.(pc := Registered), Greet(true), c.(pc := Greeted), Nothing);
    LastActs(w, s.conns, s5, c.(pc := Greeted), AnnounceJoin, c, SayJoined);
    assert Next(w, s, who, Accept) == Some(s1);
    hide Next;
    FollowSix(w, s, who, [Accept, Login(data, granted), InsertCallsign, InsertBox, Greet(true), AnnounceJoin],
              s1, s2, s3, s4, s5, s6);
  }

  lemma ActsOfBeginning(w: World, data: LoginData, granted: int, c: Conn, box: Box)
    requires LoginAllowed(data, granted) && c == ServingConn(data, granted) && box == BoxOf(w, c)
    ensures forall taken :: Act(w, NewConn, Login(data, granted), taken) == Some((c.(pc := LoggedIn), Nothing))
    ensures Act(w, c.(pc := LoggedIn), InsertCallsign, false) == Some((c.(pc := InMap), TakeCallsign))
    ensures Act(w, c.(pc := InMap), InsertBox, true) == Some((c.(pc := Registered), PlantBox(box)))
    ensures Act(w, c.(pc := Registered), Greet(true), true) == Some((c.(pc := Greeted), Nothing))
    ensures Act(w, c.(pc := Greeted), AnnounceJoin, true) == Some((c, SayJoined))
  {
    hide LoginAllowed;
  }

  /** A step of the connection accepted last. */
  lemma LastActs(w: World, conns: seq<Conn>, s: State, c: Conn, step: Step, c': Conn, effect: Effect)
    requires s.conns == conns + [c] && !step.Accept?
    requires Act(w, c, step, c.sender.callsign in s.clientMap) == Some((c', effect))
    ensures Next(w, s, |conns|, step)
         == Some(ApplyEffect(s.(conns := conns + [c']), |conns|, c.sender.callsign, effect))
  {
    hide Act, ApplyEffect;
    assert (conns + [c])[|conns| := c'] == conns + [c'];
  }

  lemma FollowSix(w: World, s: State, who: nat, steps: seq<Step>, s1: State, s2: State, s3: State, s4: State, s5: State, s6: State)
    requires |steps| == 6
    requires Next(w, s, who, steps[0]) == Some(s1) && Next(w, s1, who, steps[1]) == Some(s2)
    requires Next(w, s2, who, steps[2]) == Some(s3) && Next(w, s3, who, steps[3]) == Some(s4)
    requires Next(w, s4, who, steps[4]) == Some(s5) && Next(w, s5, who, steps[5]) == Some(s6)
    ensures Follow(w, s, who, steps) == Some(s6)
  {
    hide Next;
    FollowFive(w, s1, who, steps[1..], s2, s3, s4, s5, s6);
  }

  /** A serving connection can always leave: its announcement, made with itself in the map, is the one new
      broadcast, and then its tree entry and its callsign go and nothing else. */
  lemma SessionEnds(w: World, s: State, who: nat)
    requires who < |s.conns| && s.conns[who].pc == Serving && s.conns[who].sender.callsign in s.clientMap
    ensures
      var c := s.conns[who];
      Follow(w, s, who, [Stop, AnnounceLeave, DeleteBox, DeleteCallsign])
        == Some(State(s.conns[who := c.(pc := Closed)], s.clientMap - {c.sender.callsign},
                      s.tree - multiset{(CalculateBoundingBox(w.earth, c.position, c.visRange), who)},
                      s.log + [Left(c.sender.callsign, who, s.clientMap)]))
  {
    var c := s.conns[who];
    var box := BoxOf(w, c);
    var tree, log := s.tree - multiset{(box, who)}, s.log + [Left(c.sender.callsign, who, s.clientMap)];
    ActsOfEnding(w, c, box);
    assert box == CalculateBoundingBox(w.earth, c.position, c.visRange);
    hide Act, BoxOf, CalculateBoundingBox, Follow, Next;
    var s1 := s.(conns := s.conns[who := c.(pc := Leaving)]);
    var s2 := State(s.conns[who := c.(pc := Releasing)], s.clientMap, s.tree, log);
    var s3 := State(s.conns[who := c.(pc := OutOfTree)], s.clientMap, tree, log);
    var s4 := State(s.conns[who := c.(pc := Closed)], s.clientMap - {c.sender.callsign}, tree, log);
    ActsQuietly(w, s, s, who, c, Stop, c.(pc := Leaving));
    ActsThen(w, s, s1, who, c.(pc := Leaving), AnnounceLeave, c.(pc := Releasing), SayLeft);
    var t := s.(log := log);
    ActsThen(w, t, s2, who, c.(pc := Releasing), DeleteBox, c.(pc := OutOfTree), UprootBox(box));
    ActsThen(w, t.(tree := tree), s3, who, c.(pc := OutOfTree), DeleteCallsign, c.(pc := Closed), FreeCallsign);
    FollowFour(w, s, who, [Stop, AnnounceLeave, DeleteBox, DeleteCallsign], s1, s2, s3, s4);
  }

  lemma ActsOfEnding(w: World, c: Conn, box: Box)
    requires c.pc == Serving && box == BoxOf(w, c)
    ensures Act(w, c, Stop, true) == Some((c.(pc := Leaving), Nothing))
    ensures Act(w, c.(pc := Leaving), AnnounceLeave, true) == Some((c.(pc := Releasing), SayLeft))
    ensures Act(w, c.(pc := Releasing), DeleteBox, true) == Some((c.(pc := OutOfTree), UprootBox(box)))
    ensures Act(w, c.(pc := OutOfTree), DeleteCallsign, true) == Some((c.(pc := Closed), FreeCallsign))
  {
  }

  /** A login that is not allowed, or under a callsign that is taken, ends the connection and changes nothing
      else. */
  lemma RefusedLeavesNothing(w: World, s: State, who: nat, data: LoginData, granted: int)
    requires who < |s.conns|
    ensures s.conns[who].pc == Fresh && !LoginAllowed(data, granted) ==>
      Next(w, s, who, Login(data, granted)) == Some(s.(conns := s.conns[who := s.conns[who].(pc := Closed)]))
    ensures s.conns[who].pc == LoggedIn && s.conns[who].sender.callsign in s.clientMap ==>
      Next(w, s, who, InsertCallsign) == Some(s.(conns := s.conns[who := s.conns[who].(pc := Closed)]))
  {
    hide LoginAllowed;
  }
}

/** Plane geometry of visibility boxes (openaimp-fsd/fsd/postoffice.go). */
module Geometry {
  type Scale = x: real | x > 0.0 witness 1.0

  datatype Point = Point(lat: real, lon: real)

  datatype Box = Box(minLat: real, minLon: real, maxLat: real, maxLon: real)

  /** The parts of spherical geometry the server computes with floating point: the length of a degree
      on each axis and the great-circle distance. They are parameters of the model. */
  datatype Earth = Earth(
    metersPerDegreeLat: Scale,
    metersPerDegreeLon: real -> Scale,
    distance: (Point, Point) -> real)

  function CalculateBoundingBox(earth: Earth, center: Point, radius: real): Box {
    var deltaLat := radius / earth.metersPerDegreeLat;
    var deltaLon := radius / earth.metersPerDegreeLon(center.lat);
    Box(center.lat - deltaLat, center.lon - deltaLon, center.lat + deltaLat, center.lon + deltaLon)
  }

  /** The tree's search condition: the boxes share at least a boundary point on both axes. */
  predicate Meets(a: Box, b: Box) {
    a.minLat <= b.maxLat && b.minLat <= a.maxLat && a.minLon <= b.maxLon && b.minLon <= a.maxLon
  }

  function Abs(x: real): real {
    if x < 0.0 then -x else x
  }

  /** Two visibility boxes meet exactly when the centre gaps are at most the sums of the
      half-extents on both axes; the relation is symmetric. */
  lemma MeetsMeansGaps(earth: Earth, a: Point, ra: real, b: Point, rb: real)
    ensures Meets(CalculateBoundingBox(earth, a, ra), CalculateBoundingBox(earth, b, rb))
       <==> && Abs(a.lat - b.lat) <= ra / earth.metersPerDegreeLat + rb / earth.metersPerDegreeLat
            && Abs(a.lon - b.lon) <= ra / earth.metersPerDegreeLon(a.lat) + rb / earth.metersPerDegreeLon(b.lat)
    ensures Meets(CalculateBoundingBox(earth, a, ra), CalculateBoundingBox(earth, b, rb))
       <==> Meets(CalculateBoundingBox(earth, b, rb), CalculateBoundingBox(earth, a, ra))
  {
  }
}

/** What each packet handler decides to do with an accepted packet (openaimp-fsd/fsd/handler.go). */
module Routing {
  import opened Fields
  import opened Packets
  import opened FlightPlans
  import opened Geometry
  import opened Results

  /** strconv, whose number grammar is not part of this model. */
  datatype Numbers = Numbers(parseFloat: string -> Option<real>, parseInt32: string -> Option<int>)

  /** What a handler looks at in the sending client. */
  datatype Sender = Sender(
    callsign: string,
    isAtc: bool,
    rating: int,
    facilityType: int,
    challenged: bool)

  datatype Audience = Everyone | VelocityClients | Controllers | Supervisors

  datatype Fix = Fix(point: Point, visRange: real) | BadFix(message: string)

  datatype Action =
    | Ignore
    | Reply(code: nat, message: string)
    | ReplyAndClose(code: nat, message: string)
    | ForwardInRange(audience: Audience)
    | ForwardToAll(audience: Audience)
    | ForwardTo(recipient: string)
    | Leave
    | Kill(victim: string)
    | Authenticate(challenge: string)
    | FetchMetar(icao: string)
    | AskAtc(target: string)
    | AskAddress
    | AskPlan(target: string)
    | FilePlan(info: string)
    | AmendPlan(target: string, info: string)
    | TakeFacility(facilityType: int, fix: Fix)
    | ReportPilot(fix: Fix, transponder: string, altitude: string, groundspeed: string, attitude: string)

  const PRIVILEGED_REQUESTS: set<string> := {"IH", "SC", "GD", "TA", "FA", "VT", "BC", "HC", "PT", "DP", "ST"}
  const OPEN_REQUESTS: set<string> :=
    {"VER", "ID", "DI", "IC", "IK", "IB", "IO", "OC", "OK", "OB", "OO", "MC", "MK", "MB", "MO"}
  const PRIVILEGED_QUERIES: set<string> := {"IT", "DR", "HT", "TA", "FA", "BC", "SC", "VT", "EST", "GD", "IPC"}
  const CONTROLLER_QUERIES: set<string> := {"BY", "HI", "HLP", "NOHLP", "WH", "NEWATIS", "NEWINFO"}
  const OPEN_QUERIES: set<string> := {"ACC", "CAPS", "C?", "RN", "ATIS", "SV"}

  /** The packet passed verification for this sender and has type t. */
  predicate Verified(sender: Sender, packet: string, t: PacketType) {
    VerifyPacket(packet, sender.callsign) == Accepted(t)
  }

  /** A field the handlers read: the index must be below the packet's field count, so the accessor
      never falls back to the last field. */
  function FieldAt(packet: string, index: nat): string
    requires index < CountFields(packet)
  {
    Field(packet, index)
  }

  lemma FieldAtIsExact(packet: string, index: nat)
    requires index < CountFields(packet)
    ensures FieldAt(packet, index) == CutSuffix(Split(packet)[Min(index, |Split(packet)| - 1)], CRLF)
    ensures Min(index, |Split(packet)| - 1) == index
  {
    SplitIsExact(packet);
  }

  function ParseFix(numbers: Numbers, packet: string, latIndex: nat, lonIndex: nat): Option<Point>
    requires latIndex < CountFields(packet) && lonIndex < CountFields(packet)
  {
    var lat, lon := numbers.parseFloat(FieldAt(packet, latIndex)), numbers.parseFloat(FieldAt(packet, lonIndex));
    if lat.Some? && lon.Some? then Some(Point(lat.value, lon.value)) else None
  }

  const NO_CHALLENGE := "Cannot reply to auth challenge since no initial challenge was recieved"

  const METERS_PER_NAUTICAL_MILE := 1852.0
  const PILOT_VIS_RANGE := 50.0 * METERS_PER_NAUTICAL_MILE

  function HandleTextMessage(sender: Sender, packet: string): Action
    requires CountFields(packet) >= 3
  {
    var recipient := FieldAt(packet, 1);
    if recipient == "@49999" then (if sender.isAtc then ForwardInRange(Controllers) else Ignore)
    else if "@" <= recipient then ForwardInRange(Everyone)
    else if recipient == "*S" then ForwardToAll(Supervisors)
    else if recipient == "*" then (if sender.rating < SUPERVISOR then Ignore else ForwardToAll(Everyone))
    else if recipient == "FP" || recipient == "SERVER" then Ignore
    else ForwardTo(recipient)
  }

  function HandleATCPosition(sender: Sender, packet: string, numbers: Numbers): Action
    requires CountFields(packet) >= 7
  {
    var facilityType := numbers.parseInt32(FieldAt(packet, 2));
    if facilityType.None? then Reply(SYNTAX_ERROR, "Invalid facility type")
    else if !IsAllowedFacilityType(sender.rating, facilityType.value) then
      ReplyAndClose(INVALID_POSITION_FOR_RATING_ERROR, "Invalid position for rating")
    else
      var point := ParseFix(numbers, packet, 5, 6);
      var visRange := numbers.parseFloat(FieldAt(packet, 3));
      TakeFacility(facilityType.value,
        if point.None? then BadFix("Invalid latitude/longitude")
        else if visRange.None? then BadFix("Invalid visibility range")
        else Fix(point.value, visRange.value * METERS_PER_NAUTICAL_MILE))
  }

  function HandlePilotPosition(sender: Sender, packet: string, numbers: Numbers): Action
    requires CountFields(packet) >= 9
  {
    var point := ParseFix(numbers, packet, 4, 5);
    if point.None? then Reply(SYNTAX_ERROR, "Invalid latitude/longitude")
    else ReportPilot(Fix(point.value, PILOT_VIS_RANGE),
                     FieldAt(packet, 2), FieldAt(packet, 6), FieldAt(packet, 7), FieldAt(packet, 8))
  }

  function HandleProController(sender: Sender, packet: string): Action
    requires CountFields(packet) >= 4
  {
    var recipient, request := FieldAt(packet, 1), FieldAt(packet, 3);
    if !sender.isAtc then Ignore
    else if |recipient| < 2 then Reply(SYNTAX_ERROR, "Invalid recipient")
    else if request in OPEN_REQUESTS then ForwardTo(recipient)
    else if request in PRIVILEGED_REQUESTS then
      if sender.facilityType <= 0 then Reply(INVALID_CONTROL_ERROR, "Invalid control")
      else if recipient[0] == '@' then ForwardInRange(Controllers)
      else ForwardTo(recipient)
    else Ignore
  }

  function ForwardClientQuery(packet: string): Action
    requires CountFields(packet) >= 3
  {
    var recipient := FieldAt(packet, 1);
    if |recipient| < 2 then Reply(NO_SUCH_CALLSIGN_ERROR, "Invalid recipient")
    else if recipient == "@94835" then ForwardInRange(Controllers)
    else if recipient == "@94836" then ForwardInRange(Everyone)
    else ForwardTo(recipient)
  }

  function HandleServerQuery(sender: Sender, packet: string): Action
    requires CountFields(packet) >= 3
  {
    var query := FieldAt(packet, 2);
    if query == "ATC" then
      if CountFields(packet) != 4 then Reply(SYNTAX_ERROR, "Invalid ATC request") else AskAtc(FieldAt(packet, 3))
    else if query == "IP" then AskAddress
    else if query == "FP" && sender.isAtc then
      if CountFields(packet) != 4 then Reply(SYNTAX_ERROR, "Invalid flightplan request syntax")
      else AskPlan(FieldAt(packet, 3))
    else Ignore
  }

  function HandleClientQuery(sender: Sender, packet: string, t: PacketType): Action
    requires CountFields(packet) >= 3
  {
    var recipient, query := FieldAt(packet, 1), FieldAt(packet, 2);
    if recipient == "SERVER" then HandleServerQuery(sender, packet)
    else if query in CONTROLLER_QUERIES then
      if sender.isAtc then ForwardClientQuery(packet) else Reply(INVALID_CONTROL_ERROR, "Invalid control")
    else if query in PRIVILEGED_QUERIES then
      if !sender.isAtc || sender.facilityType <= 0 then Reply(INVALID_CONTROL_ERROR, "Invalid control")
      else ForwardClientQuery(packet)
    else if query in OPEN_QUERIES then ForwardClientQuery(packet)
    else if query == "INF" then
      if t.ClientQueryResponse? then ForwardTo(recipient)
      else if sender.rating < SUPERVISOR then Reply(INVALID_CONTROL_ERROR, "Invalid control")
      else ForwardClientQuery(packet)
    else Ignore
  }

  /** getHandler followed by the handler's decision. Every read goes through FieldAt, so this
      definition is accepted only because the minimum field counts cover all the reads. */
  function Decide(sender: Sender, packet: string, t: PacketType, numbers: Numbers): Action
    requires Verified(sender, packet, t)
  {
    match t
    case TextMessage => HandleTextMessage(sender, packet)
    case ATCPosition => HandleATCPosition(sender, packet, numbers)
    case PilotPosition => HandlePilotPosition(sender, packet, numbers)
    case PilotPositionFast | PilotPositionSlow | PilotPositionStopped => ForwardInRange(VelocityClients)
    case DeletePilot | DeleteATC => Leave
    case Squawkbox => ForwardTo(FieldAt(packet, 1))
    case ProController => HandleProController(sender, packet)
    case ClientQuery | ClientQueryResponse => HandleClientQuery(sender, packet, t)
    case KillRequest => if sender.rating < SUPERVISOR then Ignore else Kill(FieldAt(packet, 1))
    case AuthChallenge =>
      if !sender.challenged then
        Reply(UNAUTHORIZED_SOFTWARE_ERROR, NO_CHALLENGE)
      else Authenticate(FieldAt(packet, 2))
    case HandoffRequest | HandoffAccept =>
      if !sender.isAtc || sender.facilityType <= 1 then Ignore else ForwardTo(FieldAt(packet, 1))
    case MetarRequest =>
      if FieldAt(packet, 1) != "SERVER" || FieldAt(packet, 2) != "METAR" then Ignore
      else FetchMetar(FieldAt(packet, 3))
    case FlightPlan => FilePlan(PlanSection(packet))
    case FlightPlanAmendment =>
      if !sender.isAtc || sender.facilityType <= 0 then Ignore
      else AmendPlan(FieldAt(packet, 2), PlanSection(packet))
    case Unknown => Ignore
  }

  /** The packets that take control of traffic: privileged controller requests, privileged queries to
      other clients, handoffs and flight-plan amendments. */
  predicate IsPrivileged(packet: string, t: PacketType)
    requires |packet| >= 8 && CountFields(packet) >= 3 && CountFields(packet) >= MinFields(t)
  {
    match t
    case ProController => FieldAt(packet, 3) in PRIVILEGED_REQUESTS
    case ClientQuery | ClientQueryResponse =>
      FieldAt(packet, 1) != "SERVER" && FieldAt(packet, 2) in PRIVILEGED_QUERIES
    case HandoffRequest | HandoffAccept | FlightPlanAmendment => true
    case _ => false
  }

  predicate Forwards(action: Action) {
    action.ForwardInRange? || action.ForwardToAll? || action.ForwardTo? || action.AmendPlan?
  }

  /** The code lists of the switch statements do not overlap where their order would matter. */
  lemma RequestsAreDisjoint()
    ensures PRIVILEGED_REQUESTS !! OPEN_REQUESTS
  {
  }

  lemma QueriesAreDisjoint()
    ensures PRIVILEGED_QUERIES !! CONTROLLER_QUERIES
    ensures PRIVILEGED_QUERIES !! OPEN_QUERIES
  {
  }

  /** A controller who has taken a facility (above flight service for handoffs) and names a recipient of at
      least two characters where one is needed. */
  predicate InCommand(sender: Sender, t: PacketType, recipient: string) {
    && sender.isAtc
    && sender.facilityType > (if t.HandoffRequest? || t.HandoffAccept? then 1 else 0)
    && (t in {ProController, ClientQuery, ClientQueryResponse} ==> |recipient| >= 2)
  }

  /** A privileged packet is passed on exactly for a controller in command. */
  lemma PrivilegedExactly(sender: Sender, packet: string, t: PacketType, numbers: Numbers)
    requires Verified(sender, packet, t) && IsPrivileged(packet, t)
    ensures Forwards(Decide(sender, packet, t, numbers)) <==> InCommand(sender, t, Field(packet, 1))
  {
    hide Field, ParseFix, VerifyPacket, PlanSection, IsAllowedFacilityType, CountFields;
    RequestsAreDisjoint();
    QueriesAreDisjoint();
  }

  /** With a facility type allowed for the rating, a forwarded privileged packet comes from a
      controller rated Student 1 or above. */
  lemma PrivilegedIsRated(sender: Sender, packet: string, t: PacketType, numbers: Numbers)
    requires Verified(sender, packet, t) && IsPrivileged(packet, t)
    requires IsAllowedFacilityType(sender.rating, sender.facilityType)
    requires Forwards(Decide(sender, packet, t, numbers))
    ensures sender.isAtc && sender.rating >= STUDENT1
  {
    hide Decide, IsPrivileged, VerifyPacket, Field, FieldAt, CountFields;
    PrivilegedExactly(sender, packet, t, numbers);
  }

  /** Only supervisors disconnect others or address the whole server, and each does so with one
      packet type. */
  lemma SupervisorActions(sender: Sender, packet: string, t: PacketType, numbers: Numbers)
    requires Verified(sender, packet, t)
    ensures Decide(sender, packet, t, numbers).Kill? <==> t == KillRequest && sender.rating >= SUPERVISOR
    ensures Decide(sender, packet, t, numbers) == ForwardToAll(Everyone)
       <==> t == TextMessage && FieldAt(packet, 1) == "*" && sender.rating >= SUPERVISOR
  {
    hide PRIVILEGED_REQUESTS, OPEN_REQUESTS, PRIVILEGED_QUERIES, CONTROLLER_QUERIES, OPEN_QUERIES, CLIENT_QUERIES;
    hide Field, FieldAt, ParseFix, VerifyPacket, PlanSection, HandleTextMessage, IsAllowedFacilityType;
    hide HandleATCPosition, HandlePilotPosition, GetPacketType, GetSourceCallsign, CountFields, Section;
    AcceptedHas(packet, sender.callsign, t);
    PositionActions(sender, packet, numbers);
    if t == TextMessage {
      BroadcastText(sender, packet);
    }
  }

  lemma BroadcastText(sender: Sender, packet: string)
    requires CountFields(packet) >= 3
    ensures HandleTextMessage(sender, packet) == ForwardToAll(Everyone)
       <==> FieldAt(packet, 1) == "*" && sender.rating >= SUPERVISOR
    ensures !HandleTextMessage(sender, packet).Kill?
  {
    hide Field;
    if FieldAt(packet, 1) == "*" {
      assert FieldAt(packet, 1)[0] == '*';
    }
  }

  /** The handlers of positions answer, or move the client. */
  predicate IsPositionAction(action: Action) {
    action.Reply? || action.ReplyAndClose? || action.TakeFacility? || action.ReportPilot?
  }

  lemma PositionActions(sender: Sender, packet: string, numbers: Numbers)
    ensures CountFields(packet) >= 7 ==> IsPositionAction(HandleATCPosition(sender, packet, numbers))
    ensures CountFields(packet) >= 9 ==> IsPositionAction(HandlePilotPosition(sender, packet, numbers))
  {
    hide FieldAt, ParseFix, IsAllowedFacilityType;
  }

  predicate AddressedTo(action: Action, recipient: string) {
    match action
    case ForwardTo(target) => target == recipient
    case Kill(victim) => victim == recipient
    case _ => true
  }

  lemma QueryIsAddressed(sender: Sender, packet: string, t: PacketType)
    requires CountFields(packet) >= 3
    ensures AddressedTo(HandleClientQuery(sender, packet, t), FieldAt(packet, 1))
    ensures AddressedTo(HandleTextMessage(sender, packet), FieldAt(packet, 1))
  {
    hide PRIVILEGED_REQUESTS, OPEN_REQUESTS, PRIVILEGED_QUERIES, CONTROLLER_QUERIES, OPEN_QUERIES, CLIENT_QUERIES;
    hide FieldAt;
  }

  lemma RequestIsAddressed(sender: Sender, packet: string)
    requires CountFields(packet) >= 4
    ensures AddressedTo(HandleProController(sender, packet), FieldAt(packet, 1))
  {
    hide PRIVILEGED_REQUESTS, OPEN_REQUESTS, PRIVILEGED_QUERIES, CONTROLLER_QUERIES, OPEN_QUERIES, CLIENT_QUERIES;
    hide FieldAt;
  }

  /** Direct messages and kills go to the callsign in field 1 of the packet. */
  lemma AddressedByFieldOne(sender: Sender, packet: string, t: PacketType, numbers: Numbers)
    requires Verified(sender, packet, t)
    ensures AddressedTo(Decide(sender, packet, t, numbers), FieldAt(packet, 1))
  {
    hide PRIVILEGED_REQUESTS, OPEN_REQUESTS, PRIVILEGED_QUERIES, CONTROLLER_QUERIES, OPEN_QUERIES, CLIENT_QUERIES;
    hide Field, FieldAt, ParseFix, VerifyPacket, PlanSection, IsAllowedFacilityType, GetPacketType, GetSourceCallsign;
    hide HandleClientQuery, HandleTextMessage, HandleProController, HandleATCPosition, HandlePilotPosition;
    hide CountFields, Section;
    AcceptedHas(packet, sender.callsign, t);
    PositionActions(sender, packet, numbers);
    if t.ClientQuery? || t.ClientQueryResponse? || t.TextMessage? {
      QueryIsAddressed(sender, packet, t);
    } else if t.ProController? {
      RequestIsAddressed(sender, packet);
    }
  }

  // ----- where each packet goes, by its fields -----

  /** Where a text message goes: to the frequency, to the controllers nearby, to the supervisors, to
      everyone, to one callsign, or nowhere. */
  predicate TextGoes(sender: Sender, to: string, action: Action) {
    && (action == ForwardInRange(Everyone) <==> "@" <= to && to != "@49999")
    && (action == ForwardInRange(Controllers) <==> to == "@49999" && sender.isAtc)
    && (action == ForwardToAll(Supervisors) <==> to == "*S")
    && (action == ForwardToAll(Everyone) <==> to == "*" && sender.rating >= 11)
    && (action == ForwardTo(to) <==> !("@" <= to) && to !in {"*S", "*", "FP", "SERVER"})
    && (action == Ignore <==>
          || (to == "@49999" && !sender.isAtc)
          || (to == "*" && sender.rating < 11) || to in {"FP", "SERVER"})
  }

  lemma TextAudience(sender: Sender, packet: string, numbers: Numbers)
    requires Verified(sender, packet, TextMessage)
    ensures TextGoes(sender, Field(packet, 1), Decide(sender, packet, TextMessage, numbers))
  {
    hide Field, VerifyPacket, HandleTextMessage, TextGoes;
    AcceptedHas(packet, sender.callsign, TextMessage);
    TextIsRouted(sender, packet);
  }

  lemma TextIsRouted(sender: Sender, packet: string)
    requires CountFields(packet) >= 3
    ensures TextGoes(sender, Field(packet, 1), HandleTextMessage(sender, packet))
  {
    hide Field, CountFields;
    var to := Field(packet, 1);
    assert "@" <= to ==> to[0] == '@';
  }

  /** Every callsign a client may have can be written to: no text to it is taken for a frequency, a broadcast
      or a message to the server. */
  lemma CallsignsAreAddressable(sender: Sender, packet: string, numbers: Numbers)
    requires Verified(sender, packet, TextMessage) && IsValidClientCallsign(Field(packet, 1))
    ensures Decide(sender, packet, TextMessage, numbers) == ForwardTo(Field(packet, 1))
  {
    hide Field, VerifyPacket, Decide;
    TextAudience(sender, packet, numbers);
    var to := Field(packet, 1);
    assert IsCallsignChar(to[0]);
  }

  /** Where a controller's request goes: a privileged one to '@' to the controllers nearby, an open one, or a
      privileged one to a callsign, to that callsign. */
  predicate RequestGoes(sender: Sender, to: string, request: string, action: Action) {
    var heard := sender.isAtc && |to| >= 2;
    var known, privileged := request in PRIVILEGED_REQUESTS + OPEN_REQUESTS, request in PRIVILEGED_REQUESTS;
    var ranged := privileged && "@" <= to;
    && (action == ForwardInRange(Controllers) <==> heard && ranged && sender.facilityType > 0)
    && (action == ForwardTo(to) <==> heard && known && !ranged && (privileged ==> sender.facilityType > 0))
    && (action == Reply(INVALID_CONTROL_ERROR, "Invalid control") <==> heard && privileged && sender.facilityType <= 0)
    && (action == Reply(SYNTAX_ERROR, "Invalid recipient") <==> sender.isAtc && |to| < 2)
    && (action == Ignore <==> !sender.isAtc || (heard && !known))
  }

  lemma RequestAudience(sender: Sender, packet: string, numbers: Numbers)
    requires Verified(sender, packet, ProController)
    ensures RequestGoes(sender, Field(packet, 1), Field(packet, 3), Decide(sender, packet, ProController, numbers))
  {
    hide Field, VerifyPacket, PRIVILEGED_REQUESTS, OPEN_REQUESTS;
    AcceptedHas(packet, sender.callsign, ProController);
    RequestsAreDisjoint();
  }

  /** May the sender ask, or answer, this of another client? */
  predicate MayQuery(sender: Sender, query: string, t: PacketType) {
    && (query in CONTROLLER_QUERIES + PRIVILEGED_QUERIES ==> sender.isAtc)
    && (query in PRIVILEGED_QUERIES ==> sender.facilityType > 0)
    && (query == "INF" && t == ClientQuery ==> sender.rating >= 11)
  }

  /** The queries between clients. */
  const CLIENT_QUERIES: set<string> := CONTROLLER_QUERIES + PRIVILEGED_QUERIES + OPEN_QUERIES + {"INF"}

  /** Where a query to another client, or the answer, goes; an answer to INF always to the callsign. */
  predicate QueryGoes(sender: Sender, to: string, query: string, t: PacketType, action: Action) {
    var known := query in CLIENT_QUERIES;
    var passes := known && MayQuery(sender, query, t);
    var direct := query == "INF" && t == ClientQueryResponse;
    && (action == ForwardInRange(Controllers) <==> passes && !direct && to == "@94835")
    && (action == ForwardInRange(Everyone) <==> passes && !direct && to == "@94836")
    && (action == ForwardTo(to) <==> passes && (direct || (|to| >= 2 && to !in {"@94835", "@94836"})))
    && (action == Reply(NO_SUCH_CALLSIGN_ERROR, "Invalid recipient") <==> passes && !direct && |to| < 2)
    && (action == Reply(INVALID_CONTROL_ERROR, "Invalid control") <==> known && !passes)
    && (action == Ignore <==> !known)
  }

  lemma QueryAudience(sender: Sender, packet: string, t: PacketType, numbers: Numbers)
    requires Verified(sender, packet, t) && (t.ClientQuery? || t.ClientQueryResponse?)
    requires Field(packet, 1) != "SERVER"
    ensures QueryGoes(sender, Field(packet, 1), Field(packet, 2), t, Decide(sender, packet, t, numbers))
  {
    hide Field, VerifyPacket, CONTROLLER_QUERIES, PRIVILEGED_QUERIES, OPEN_QUERIES;
    AcceptedHas(packet, sender.callsign, t);
    QueriesAreDisjoint();
    InfIsApart();
  }

  lemma InfIsApart()
    ensures "INF" !in CONTROLLER_QUERIES + PRIVILEGED_QUERIES + OPEN_QUERIES
    ensures CONTROLLER_QUERIES !! OPEN_QUERIES
  {
  }

  /** What a query to the server asks for. */
  predicate ServerQueryGoes(sender: Sender, packet: string, action: Action) {
    var query, complete := Field(packet, 2), |Split(packet)| == 4;
    && (action == AskAddress <==> query == "IP")
    && (action == AskAtc(Field(packet, 3)) <==> query == "ATC" && complete)
    && (action == Reply(SYNTAX_ERROR, "Invalid ATC request") <==> query == "ATC" && !complete)
    && (action == AskPlan(Field(packet, 3)) <==> query == "FP" && sender.isAtc && complete)
    && (action == Reply(SYNTAX_ERROR, "Invalid flightplan request syntax") <==>
          query == "FP" && sender.isAtc && !complete)
    && (action == Ignore <==> query !in {"IP", "ATC", "FP"} || (query == "FP" && !sender.isAtc))
  }

  lemma ServerQueryAnswer(sender: Sender, packet: string, t: PacketType, numbers: Numbers)
    requires Verified(sender, packet, t) && (t.ClientQuery? || t.ClientQueryResponse?)
    requires Field(packet, 1) == "SERVER"
    ensures ServerQueryGoes(sender, packet, Decide(sender, packet, t, numbers))
  {
    hide Field, VerifyPacket, CONTROLLER_QUERIES, PRIVILEGED_QUERIES, OPEN_QUERIES, Split;
    AcceptedHas(packet, sender.callsign, t);
    SplitIsExact(packet);
  }

  /** Kills, challenges, weather requests, handoffs, plans and plain forwards, and what else is read of a
      pilot's report. */
  predicate OtherGoes(sender: Sender, packet: string, t: PacketType, action: Action)
    requires |packet| >= 3
  {
    && (t.FlightPlan? ==> action == FilePlan(PlanSection(packet)))
    && (t.FlightPlanAmendment? ==>
          if sender.isAtc && sender.facilityType > 0 then action == AmendPlan(Field(packet, 2), PlanSection(packet))
          else action == Ignore)
    && (t.PilotPosition? && action.ReportPilot? ==>
          && action.transponder == Field(packet, 2) && action.altitude == Field(packet, 6)
          && action.groundspeed == Field(packet, 7) && action.attitude == Field(packet, 8))
    && (t.KillRequest? ==> if sender.rating >= 11 then action == Kill(Field(packet, 1)) else action == Ignore)
    && (t.AuthChallenge? ==> if sender.challenged then action == Authenticate(Field(packet, 2))
          else action == Reply(UNAUTHORIZED_SOFTWARE_ERROR, NO_CHALLENGE))
    && (t.MetarRequest? ==>
          if Field(packet, 1) == "SERVER" && Field(packet, 2) == "METAR" then action == FetchMetar(Field(packet, 3))
          else action == Ignore)
    && (t.HandoffRequest? || t.HandoffAccept? ==>
          if sender.isAtc && sender.facilityType > 1 then action == ForwardTo(Field(packet, 1)) else action == Ignore)
    && (t.Squawkbox? ==> action == ForwardTo(Field(packet, 1)))
    && (t.DeleteATC? || t.DeletePilot? ==> action == Leave)
    && (t.PilotPositionFast? || t.PilotPositionSlow? || t.PilotPositionStopped? ==> action == ForwardInRange(VelocityClients))
  }

  lemma OtherActions(sender: Sender, packet: string, t: PacketType, numbers: Numbers)
    requires Verified(sender, packet, t)
    ensures |packet| >= 3 && OtherGoes(sender, packet, t, Decide(sender, packet, t, numbers))
  {
    hide Field, VerifyPacket, PlanSection, HandleClientQuery, HandleTextMessage, HandleProController;
    hide HandleATCPosition, ParseFix;
    AcceptedHas(packet, sender.callsign, t);
  }

  // ----- position reports -----

  /** The place a position report of this sender gives, by its fields, if it is taken. */
  function ReportedFix(numbers: Numbers, callsign: string, rating: int, packet: string): Option<(Point, real)> {
    var t := VerifyPacket(packet, callsign);
    if t == Accepted(PilotPosition) then
      var lat, lon := numbers.parseFloat(Field(packet, 4)), numbers.parseFloat(Field(packet, 5));
      if lat.Some? && lon.Some? then Some((Point(lat.value, lon.value), 92600.0)) else None
    else if t == Accepted(ATCPosition) && ReportedFacility(numbers, callsign, rating, packet).Some? then
      var lat, lon := numbers.parseFloat(Field(packet, 5)), numbers.parseFloat(Field(packet, 6));
      var miles := numbers.parseFloat(Field(packet, 3));
      if lat.Some? && lon.Some? && miles.Some? then Some((Point(lat.value, lon.value), miles.value * 1852.0)) else None
    else None
  }

  /** The facility type a controller's position report gives, if it is taken. */
  function ReportedFacility(numbers: Numbers, callsign: string, rating: int, packet: string): Option<int> {
    var facility := numbers.parseInt32(Field(packet, 2));
    if VerifyPacket(packet, callsign) == Accepted(ATCPosition) && facility.Some? && IsAllowedFacilityType(rating, facility.value)
    then facility else None
  }

  predicate IsReport(action: Action) {
    action.TakeFacility? || action.ReportPilot?
  }

  predicate IsNeither(action: Action) {
    !IsReport(action) && action != ForwardInRange(VelocityClients)
  }

  lemma MessagesAreNoReports(sender: Sender, packet: string)
    requires CountFields(packet) >= 3
    ensures IsNeither(HandleTextMessage(sender, packet))
    ensures CountFields(packet) >= 4 ==> IsNeither(HandleProController(sender, packet))
  {
    hide PRIVILEGED_REQUESTS, OPEN_REQUESTS, PRIVILEGED_QUERIES, CONTROLLER_QUERIES, OPEN_QUERIES, CLIENT_QUERIES;
    hide FieldAt;
  }

  lemma QueriesAreNoReports(sender: Sender, packet: string, t: PacketType)
    requires CountFields(packet) >= 3
    ensures IsNeither(HandleClientQuery(sender, packet, t))
  {
    hide PRIVILEGED_REQUESTS, OPEN_REQUESTS, PRIVILEGED_QUERIES, CONTROLLER_QUERIES, OPEN_QUERIES, CLIENT_QUERIES;
    hide FieldAt;
  }

  /** Only the fast, slow and stopped positions go to the velocity clients, and only the other two move the
      client. */
  lemma VelocityAudience(sender: Sender, packet: string, t: PacketType, numbers: Numbers)
    requires Verified(sender, packet, t) && !t.PilotPosition? && !t.ATCPosition?
    ensures !IsReport(Decide(sender, packet, t, numbers))
    ensures Decide(sender, packet, t, numbers) == ForwardInRange(VelocityClients)
       <==> t.PilotPositionFast? || t.PilotPositionSlow? || t.PilotPositionStopped?
  {
    hide Field, FieldAt, VerifyPacket, PlanSection, GetPacketType, GetSourceCallsign, CountFields, Section;
    hide PRIVILEGED_REQUESTS, OPEN_REQUESTS, PRIVILEGED_QUERIES, CONTROLLER_QUERIES, OPEN_QUERIES, CLIENT_QUERIES;
    hide HandleClientQuery, HandleTextMessage, HandleProController, HandleATCPosition, HandlePilotPosition;
    AcceptedHas(packet, sender.callsign, t);
    MessagesAreNoReports(sender, packet);
    QueriesAreNoReports(sender, packet, t);
  }

  /** The action takes this fix and this facility type, or none. */
  predicate Takes(action: Action, fix: Option<(Point, real)>, facility: Option<int>) {
    && (action.TakeFacility? <==> facility.Some?)
    && (action.TakeFacility? ==> facility == Some(action.facilityType))
    && (IsReport(action) && action.fix.Fix? <==> fix.Some?)
    && (fix.Some? ==> action.fix == Fix(fix.value.0, fix.value.1))
  }

  lemma PilotFix(sender: Sender, packet: string, numbers: Numbers)
    requires VerifyPacket(packet, sender.callsign) == Accepted(PilotPosition) && CountFields(packet) >= 9
    ensures Takes(HandlePilotPosition(sender, packet, numbers),
                  ReportedFix(numbers, sender.callsign, sender.rating, packet),
                  ReportedFacility(numbers, sender.callsign, sender.rating, packet))
  {
    hide Field, VerifyPacket;
  }

  lemma ATCFix(sender: Sender, packet: string, numbers: Numbers)
    requires VerifyPacket(packet, sender.callsign) == Accepted(ATCPosition) && CountFields(packet) >= 7
    ensures Takes(HandleATCPosition(sender, packet, numbers),
                  ReportedFix(numbers, sender.callsign, sender.rating, packet),
                  ReportedFacility(numbers, sender.callsign, sender.rating, packet))
  {
    hide Field, VerifyPacket, IsAllowedFacilityType;
  }

  /** The handlers take exactly the fix and the facility type the packet's fields give. */
  lemma ReportIsTaken(sender: Sender, packet: string, t: PacketType, numbers: Numbers)
    requires Verified(sender, packet, t)
    ensures Takes(Decide(sender, packet, t, numbers),
                  ReportedFix(numbers, sender.callsign, sender.rating, packet),
                  ReportedFacility(numbers, sender.callsign, sender.rating, packet))
  {
    AcceptedHas(packet, sender.callsign, t);
    if t.PilotPosition? {
      PilotFix(sender, packet, numbers);
    } else if t.ATCPosition? {
      ATCFix(sender, packet, numbers);
    } else {
      NoFix(sender, packet, t, numbers);
      VelocityAudience(sender, packet, t, numbers);
    }
    hide Field, VerifyPacket, HandleATCPosition, HandlePilotPosition, HandleClientQuery, HandleTextMessage;
    hide HandleProController, ReportedFix, ReportedFacility;
  }

  /** The errors a position report is answered with. */
  predicate ReportFails(sender: Sender, packet: string, numbers: Numbers, t: PacketType, action: Action) {
    && (t.PilotPosition? ==>
          var lat, lon := numbers.parseFloat(Field(packet, 4)), numbers.parseFloat(Field(packet, 5));
          if lat.None? || lon.None? then action == Reply(4, "Invalid latitude/longitude") else action.ReportPilot?)
    && (t.ATCPosition? ==>
          var facility := numbers.parseInt32(Field(packet, 2));
          var lat, lon := numbers.parseFloat(Field(packet, 5)), numbers.parseFloat(Field(packet, 6));
          if facility.None? then action == Reply(4, "Invalid facility type")
          else if !IsAllowedFacilityType(sender.rating, facility.value) then
            action == ReplyAndClose(15, "Invalid position for rating")
          else
            && action.TakeFacility?
            && (lat.None? || lon.None? ==> action.fix == BadFix("Invalid latitude/longitude"))
            && (lat.Some? && lon.Some? && numbers.parseFloat(Field(packet, 3)).None? ==>
                  action.fix == BadFix("Invalid visibility range")))
  }

  lemma ReportErrors(sender: Sender, packet: string, t: PacketType, numbers: Numbers)
    requires Verified(sender, packet, t)
    ensures ReportFails(sender, packet, numbers, t, Decide(sender, packet, t, numbers))
  {
    hide Field, VerifyPacket, PlanSection, HandleClientQuery, HandleTextMessage, HandleProController;
    hide IsAllowedFacilityType, GetPacketType, GetSourceCallsign, CountFields, Section;
    hide PRIVILEGED_REQUESTS, OPEN_REQUESTS, PRIVILEGED_QUERIES, CONTROLLER_QUERIES, OPEN_QUERIES, CLIENT_QUERIES;
    AcceptedHas(packet, sender.callsign, t);
  }

  lemma NoFix(sender: Sender, packet: string, t: PacketType, numbers: Numbers)
    requires Verified(sender, packet, t) && !t.PilotPosition? && !t.ATCPosition?
    ensures ReportedFix(numbers, sender.callsign, sender.rating, packet).None?
    ensures ReportedFacility(numbers, sender.callsign, sender.rating, packet).None?
  {
    hide Field, VerifyPacket;
  }

  /** A handler changes the facility type only to one allowed for the sender's rating. */
  lemma FacilityIsAllowed(sender: Sender, packet: string, t: PacketType, numbers: Numbers)
    requires Verified(sender, packet, t)
    ensures Decide(sender, packet, t, numbers).TakeFacility?
        ==> IsAllowedFacilityType(sender.rating, Decide(sender, packet, t, numbers).facilityType)
  {
    hide PRIVILEGED_REQUESTS, OPEN_REQUESTS, PRIVILEGED_QUERIES, CONTROLLER_QUERIES, OPEN_QUERIES, CLIENT_QUERIES;
    hide Field, FieldAt, ParseFix, VerifyPacket, PlanSection, IsAllowedFacilityType;
  }
}

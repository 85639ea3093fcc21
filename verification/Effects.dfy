/** What a packet does to the registered clients, told by its fields and not by the handlers' code
    (openaimp-fsd/fsd/handler.go, openaimp-fsd/fsd/util.go, openaimp-fsd/fsd/client.go). */
module Effects {
  import opened Fields
  import opened Packets
  import opened FlightPlans
  import opened Geometry
  import opened Results
  import opened Routing
  import opened PostOffices
  import opened SendFast

  // ----- what there is to change -----

  /** The registered clients: who gets a packet under a callsign, the packets queued for each client, who
      is cancelled, and what each client last reported, filed or was told. */
  datatype View = View(
    clientMap: map<string, Client>,
    queues: map<Client, seq<string>>,
    cancelled: set<Client>,
    positions: map<Client, Point>,
    ranges: map<Client, real>,
    facilities: map<Client, int>,
    flags: map<Client, bool>,
    plans: map<Client, string>)

  ghost function Ranges(clients: set<Client>): map<Client, real>
    reads clients`visRange
  {
    map c | c in clients :: c.visRange
  }

  ghost function Facilities(clients: set<Client>): map<Client, int>
    reads clients`facilityType
  {
    map c | c in clients :: c.facilityType
  }

  ghost function SendFastFlags(clients: set<Client>): map<Client, bool>
    reads clients`sendFastEnabled
  {
    map c | c in clients :: c.sendFastEnabled
  }

  ghost function Plans(clients: set<Client>): map<Client, string>
    reads clients`flightPlan
  {
    map c | c in clients :: c.flightPlan
  }

  ghost function ViewOf(postOffice: PostOffice): View
    reads postOffice`clientMap, postOffice.clientMap.Values
  {
    var clients := postOffice.clientMap.Values;
    View(postOffice.clientMap, postOffice.Queues(), postOffice.Cancelled(), Positions(clients), Ranges(clients),
         Facilities(clients), SendFastFlags(clients), Plans(clients))
  }

  /** Everything is known of every registered client, and of nobody else. */
  ghost predicate Whole(v: View) {
    && v.queues.Keys == v.clientMap.Values && v.cancelled <= v.clientMap.Values
    && v.positions.Keys == v.clientMap.Values && v.ranges.Keys == v.clientMap.Values
    && v.facilities.Keys == v.clientMap.Values && v.flags.Keys == v.clientMap.Values
    && v.plans.Keys == v.clientMap.Values
  }

  ghost predicate Known(v: View, client: Client) {
    Whole(v) && client in v.clientMap.Values
  }

  // ----- error packets -----

  /** strconv.AppendInt in base 10. */
  function Decimal(n: nat): string {
    if n < 10 then [('0' as int + n) as char] else Decimal(n / 10) + Decimal(n % 10)
  }

  function ErrorPacket(code: nat, message: string): string {
    "$ERserver:unknown:" + Decimal(code) + "::" + message + CRLF
  }

  predicate IsDigits(s: string) {
    s != [] && forall i :: 0 <= i < |s| ==> '0' <= s[i] <= '9'
  }

  /** The number a string of digits denotes. */
  function ValueOf(digits: string): int {
    if digits == [] then 0
    else 10 * ValueOf(digits[..|digits| - 1]) + (digits[|digits| - 1] as int - '0' as int)
  }

  lemma {:induction false} DecimalIsExact(n: nat)
    ensures IsDigits(Decimal(n)) && ValueOf(Decimal(n)) == n
  {
    if n < 10 {
      assert Decimal(n)[..0] == [];
    } else {
      DecimalIsExact(n / 10);
      var last := Decimal(n % 10);
      assert |last| == 1;
      assert Decimal(n)[..|Decimal(n)| - 1] == Decimal(n / 10);
    }
  }

  lemma DigitsArePlain(digits: string)
    requires IsDigits(digits)
    ensures ':' !in digits && CutSuffix(digits, CRLF) == digits
  {
    assert digits[|digits| - 1] != '\n';
    assert |digits| >= 2 ==> digits[|digits| - 2..][1] == digits[|digits| - 1];
  }

  lemma Reassociate(head: string, digits: string, message: string)
    ensures head + digits + "::" + message + CRLF == head + digits + ":" + ("" + ":" + (message + CRLF))
  {
  }

  lemma ErrorPacketSplits(digits: string, message: string)
    requires ':' !in message && ':' !in digits
    ensures Split("$ERserver:unknown:" + digits + "::" + message + CRLF)
         == ["$ERserver", "unknown", digits, "", message + CRLF]
  {
    var head := "$ERserver" + ":" + "unknown" + ":";
    var text := message + CRLF;
    assert head == "$ERserver:unknown:";
    LastFieldsSplit(text);
    ThreeColons("$ERserver", "unknown", digits, "" + ":" + text);
    hide Split;
    Reassociate(head, digits, message);
  }

  lemma LastFieldsSplit(text: string)
    requires ':' !in text
    ensures Split("" + ":" + text) == ["", text]
  {
    FirstColon("", text);
    NoColonSplits(text);
  }

  lemma CrlfIsCut(message: string)
    ensures CutSuffix(message + CRLF, CRLF) == message
  {
    assert HasSuffix(message + CRLF, CRLF);
  }

  /** A client reads the code in field 2 of an error packet and the message in field 4. */
  lemma ErrorPacketFields(code: nat, message: string)
    requires ':' !in message
    ensures var packet := ErrorPacket(code, message);
      && Split(packet) == ["$ERserver", "unknown", Decimal(code), "", message + CRLF]
      && ValueOf(Field(packet, 2)) == code && Field(packet, 4) == message
  {
    DecimalIsExact(code);
    DigitsArePlain(Decimal(code));
    ErrorPacketSplits(Decimal(code), message);
    CrlfIsCut(message);
    hide Decimal, ValueOf, Split, IsDigits, CutSuffix;
  }

  lemma NoColonSplits(s: string)
    requires ':' !in s
    ensures Split(s) == [s]
  {
  }

  // ----- who gets what -----

  function Append(v: View, client: Client, packet: string): View
    requires client in v.queues
  {
    v.(queues := v.queues[client := v.queues[client] + [packet]])
  }

  /** The client, and nobody else, gets the packet; one that is cancelled may miss it. */
  ghost predicate Replied(v: View, v': View, client: Client, packet: string) {
    && client in v.queues
    && (v' == Append(v, client, packet) || (client in v.cancelled && v' == v))
  }

  /** Each of the selected clients but the sender gets one copy, those that are cancelled at most one, and
      nobody else anything. */
  ghost predicate Broadcast(v: View, v': View, sender: Client, packet: string, selected: set<Client>) {
    && v' == v.(queues := v'.queues)
    && Outcome(v.queues, v'.queues, v.cancelled, sender, packet, selected, "", false)
  }

  /** The packet reaches the client of that callsign; without one, or if that one is cancelled and refuses
      it, an error reaches the sender. */
  ghost predicate Direct(v: View, v': View, sender: Client, recipient: string, packet: string)
    requires Whole(v)
  {
    var error := ErrorPacket(7, "No such callsign");
    if recipient in v.clientMap then
      var target := v.clientMap[recipient];
      v' == Append(v, target, packet) || (target in v.cancelled && Replied(v, v', sender, error))
    else Replied(v, v', sender, error)
  }

  ghost function AtcOf(clients: set<Client>): set<Client> {
    set c | c in clients && c.isAtc
  }

  ghost function SupervisorsOf(clients: set<Client>): set<Client> {
    set c | c in clients && c.networkRating >= 11
  }

  /** The clients of the Vatsim2022 protocol revision. */
  ghost function VelocityOf(clients: set<Client>): set<Client> {
    set c | c in clients && c.protoRevision == 101
  }

  ghost function BoxIn(earth: Earth, v: View, c: Client): Box
    requires Known(v, c)
  {
    CalculateBoundingBox(earth, v.positions[c], v.ranges[c])
  }

  /** The other clients whose visibility box meets the client's. */
  ghost function Near(earth: Earth, v: View, client: Client): set<Client>
    requires Known(v, client)
  {
    set c | c in v.clientMap.Values && c != client && Meets(BoxIn(earth, v, c), BoxIn(earth, v, client))
  }

  /** d is the distance from the client to the closest one near it that a search measures. */
  ghost predicate Closest(earth: Earth, v: View, client: Client, d: real)
    requires Known(v, client)
  {
    IsClosest(earth, client, v.positions[client], v.positions, Near(earth, v, client), d)
  }

  /** Only the positions of those found matter. */
  lemma ClosestAmong(earth: Earth, client: Client, from: Point, at: map<Client, Point>, at': map<Client, Point>,
                     found: set<Client>, d: real)
    requires found <= at.Keys && found <= at'.Keys && forall c :: c in found ==> at[c] == at'[c]
    requires IsClosest(earth, client, from, at, found, d)
    ensures IsClosest(earth, client, from, at', found, d)
  {
  }

  /** The audiences of the broadcasts, by what the clients are. */
  lemma AudiencesAre(clients: set<Client>)
    ensures Chosen(clients, Everyone) == clients && Chosen(clients, Controllers) == AtcOf(clients)
    ensures Chosen(clients, Supervisors) == SupervisorsOf(clients)
    ensures Chosen(clients, VelocityClients) == VelocityOf(clients)
  {
  }

  /** The client is at this place now. */
  ghost function MovedTo(v: View, client: Client, point: Point, visRange: real): (r: View)
    requires Known(v, client)
    ensures Known(r, client)
  {
    v.(positions := v.positions[client := point], ranges := v.ranges[client := visRange])
  }

  // ----- what the packets do -----

  /** What replies take from outside this model: whether the client logged in with a challenge, its network
      address, its answer to a challenge, the weather report and the beacon code asked for. */
  datatype Surroundings = Surroundings(
    challenged: bool, address: string, answer: string, metar: Option<string>, beaconCode: string)

  /** #TM */
  ghost predicate TextSent(earth: Earth, v: View, v': View, client: Client, packet: string)
    requires Known(v, client)
  {
    var to := Field(packet, 1);
    if to in {"FP", "SERVER"} || (to == "@49999" && !client.isAtc) || (to == "*" && client.networkRating < 11) then
      v' == v
    else if "@" <= to then
      var near := Near(earth, v, client);
      Broadcast(v, v', client, packet, if to == "@49999" then AtcOf(near) else near)
    else if to == "*S" || to == "*" then
      var all := v.clientMap.Values;
      Broadcast(v, v', client, packet, if to == "*S" then SupervisorsOf(all) else all)
    else Direct(v, v', client, to, packet)
  }

  /** ^, #SL and #ST */
  ghost predicate FastPositionSent(earth: Earth, v: View, v': View, client: Client, packet: string)
    requires Known(v, client)
  {
    Broadcast(v, v', client, packet, VelocityOf(Near(earth, v, client)))
  }

  /** #DA and #DP */
  ghost predicate SignedOff(v: View, v': View, client: Client, packet: string) {
    && v' == v.(queues := v'.queues, cancelled := v.cancelled + {client})
    && Outcome(v.queues, v'.queues, v.cancelled, client, packet, v.clientMap.Values, "", false)
  }

  /** #PC */
  ghost predicate ControllerRequestSent(earth: Earth, v: View, v': View, client: Client, packet: string)
    requires Known(v, client)
  {
    var to, request := Field(packet, 1), Field(packet, 3);
    if !client.isAtc then v' == v
    else if |to| < 2 then Replied(v, v', client, ErrorPacket(4, "Invalid recipient"))
    else if request !in PRIVILEGED_REQUESTS + OPEN_REQUESTS then v' == v
    else if request in PRIVILEGED_REQUESTS && v.facilities[client] <= 0 then
      Replied(v, v', client, ErrorPacket(14, "Invalid control"))
    else if request in PRIVILEGED_REQUESTS && "@" <= to then
      Broadcast(v, v', client, packet, AtcOf(Near(earth, v, client)))
    else Direct(v, v', client, to, packet)
  }

  /** A client query on its way to other clients. */
  ghost predicate QueryForwarded(earth: Earth, v: View, v': View, client: Client, packet: string)
    requires Known(v, client)
  {
    var to := Field(packet, 1);
    if |to| < 2 then Replied(v, v', client, ErrorPacket(7, "Invalid recipient"))
    else if to in {"@94835", "@94836"} then
      var near := Near(earth, v, client);
      Broadcast(v, v', client, packet, if to == "@94835" then AtcOf(near) else near)
    else Direct(v, v', client, to, packet)
  }

  /** The client as the handlers see it. */
  ghost function SenderIn(v: View, client: Client, challenged: bool): Sender
    requires Known(v, client)
  {
    Sender(client.callsign, client.isAtc, client.networkRating, v.facilities[client], challenged)
  }

  ghost predicate AtcAnswered(v: View, v': View, client: Client, target: string)
    requires Known(v, client)
  {
    if target !in v.clientMap then Replied(v, v', client, ErrorPacket(7, "No such callsign"))
    else
      var answer := if v.facilities[v.clientMap[target]] > 0 then "Y" else "N";
      Replied(v, v', client, "$CRSERVER:" + client.callsign + ":ATC:" + answer + ":" + target + CRLF)
  }

  /** An empty plan is not sent. */
  ghost predicate PlanAnswered(v: View, v': View, client: Client, target: string, beaconCode: string)
    requires Known(v, client)
  {
    if target !in v.clientMap then Replied(v, v', client, ErrorPacket(7, "No such callsign: " + target))
    else if v.plans[v.clientMap[target]] == "" then v' == v
    else
      var plan := "$FP" + target + ":*A:" + v.plans[v.clientMap[target]] + CRLF;
      var code := "#PCserver:" + client.callsign + ":CCP:BC:" + target + ":"
                  + (if beaconCode == "" then "0" else beaconCode) + CRLF;
      || Replied(Append(v, client, plan), v', client, code)
      || (client in v.cancelled && Replied(v, v', client, code))
  }

  ghost predicate ServerQueryAnswered(v: View, v': View, client: Client, packet: string, around: Surroundings)
    requires Known(v, client)
  {
    var query := Field(packet, 2);
    if query == "IP" then Replied(v, v', client, "$CRSERVER:" + client.callsign + ":IP:" + around.address + CRLF)
    else if query == "ATC" then
      if |Split(packet)| != 4 then Replied(v, v', client, ErrorPacket(4, "Invalid ATC request"))
      else AtcAnswered(v, v', client, Field(packet, 3))
    else if query == "FP" && client.isAtc then
      if |Split(packet)| != 4 then Replied(v, v', client, ErrorPacket(4, "Invalid flightplan request syntax"))
      else PlanAnswered(v, v', client, Field(packet, 3), around.beaconCode)
    else v' == v
  }

  /** $CQ and $CR */
  ghost predicate QueryHandled(earth: Earth, v: View, v': View, client: Client, packet: string, t: PacketType, around: Surroundings)
    requires Known(v, client)
  {
    var to, query := Field(packet, 1), Field(packet, 2);
    if to == "SERVER" then ServerQueryAnswered(v, v', client, packet, around)
    else if query !in CLIENT_QUERIES then v' == v
    else if !MayQuery(SenderIn(v, client, around.challenged), query, t) then Replied(v, v', client, ErrorPacket(14, "Invalid control"))
    else if query == "INF" && t == ClientQueryResponse then Direct(v, v', client, to, packet)
    else QueryForwarded(earth, v, v', client, packet)
  }

  /** $!! */
  ghost predicate KillHandled(v: View, v': View, client: Client, packet: string)
    requires Known(v, client)
  {
    var victim := Field(packet, 1);
    if client.networkRating < 11 then v' == v
    else if victim in v.clientMap then v' == v.(cancelled := v.cancelled + {v.clientMap[victim]})
    else Replied(v, v', client, ErrorPacket(7, "No such callsign"))
  }

  /** $ZC */
  ghost predicate ChallengeAnswered(v: View, v': View, client: Client, around: Surroundings) {
    if around.challenged then Replied(v, v', client, "$ZRSERVER:" + client.callsign + ":" + around.answer + CRLF)
    else Replied(v, v', client, ErrorPacket(16, NO_CHALLENGE))
  }

  /** $HO and $HA */
  ghost predicate HandoffSent(v: View, v': View, client: Client, packet: string)
    requires Known(v, client)
  {
    if client.isAtc && v.facilities[client] > 1 then Direct(v, v', client, Field(packet, 1), packet) else v' == v
  }

  /** $AX */
  ghost predicate WeatherAnswered(v: View, v': View, client: Client, packet: string, around: Surroundings) {
    if Field(packet, 1) != "SERVER" || Field(packet, 2) != "METAR" then v' == v
    else if around.metar.Some? then
      Replied(v, v', client, "$ARSERVER:" + client.callsign + ":METAR:" + around.metar.value + CRLF)
    else Replied(v, v', client, ErrorPacket(9, "Error fetching METAR for " + Field(packet, 3)))
  }

  /** $FP */
  ghost predicate PlanFiled(v: View, v': View, client: Client, packet: string)
    requires Known(v, client) && |packet| >= 3
  {
    var plan := PlanSection(packet);
    Broadcast(v.(plans := v.plans[client := plan]), v', client, "$FP" + client.callsign + ":*A:" + plan + CRLF,
              AtcOf(v.clientMap.Values))
  }

  /** $AM */
  ghost predicate PlanAmended(v: View, v': View, client: Client, packet: string)
    requires Known(v, client) && |packet| >= 3
  {
    var target, plan := Field(packet, 2), PlanSection(packet);
    if !client.isAtc || v.facilities[client] <= 0 then v' == v
    else if target !in v.clientMap then Replied(v, v', client, ErrorPacket(7, "No such callsign: " + target))
    else
      Broadcast(v.(plans := v.plans[v.clientMap[target] := plan]), v', client,
                "$AM" + client.callsign + ":*A:" + target + ":" + plan + CRLF,
                AtcOf(v.clientMap.Values))
  }

  /** The pilot stands where it is in `at`; all in range of there get the packet, and the Send Fast flag
      follows the closest distance d measured there, a $SF packet telling of a change. */
  ghost predicate PilotArrived(earth: Earth, at: View, v': View, client: Client, packet: string, d: real)
    requires Known(at, client)
  {
    var flag := NextFlag(at.flags[client], client.protoRevision, d);
    && Closest(earth, at, client, d)
    && v' == at.(queues := v'.queues, flags := at.flags[client := flag])
    && Outcome(at.queues, v'.queues, at.cancelled, client, packet, Near(earth, at, client),
               SendFastPacket(client.callsign, flag), flag != at.flags[client])
  }

  /** @ */
  ghost predicate PilotReported(earth: Earth, numbers: Numbers, v: View, v': View, client: Client, packet: string)
    requires Known(v, client)
  {
    var lat, lon := numbers.parseFloat(Field(packet, 4)), numbers.parseFloat(Field(packet, 5));
    if lat.None? || lon.None? then Replied(v, v', client, ErrorPacket(4, "Invalid latitude/longitude"))
    else
      var at := MovedTo(v, client, Point(lat.value, lon.value), 92600.0);
      exists d: real :: PilotArrived(earth, at, v', client, packet, d)
  }

  /** % from a controller whose facility type was taken */
  ghost predicate ControllerPlaced(earth: Earth, numbers: Numbers, v: View, v': View, client: Client, packet: string)
    requires Known(v, client)
  {
    var lat, lon := numbers.parseFloat(Field(packet, 5)), numbers.parseFloat(Field(packet, 6));
    var miles := numbers.parseFloat(Field(packet, 3));
    if lat.None? || lon.None? then Replied(v, v', client, ErrorPacket(4, "Invalid latitude/longitude"))
    else if miles.None? then Replied(v, v', client, ErrorPacket(4, "Invalid visibility range"))
    else
      var at := MovedTo(v, client, Point(lat.value, lon.value), miles.value * 1852.0);
      Broadcast(at, v', client, packet, Near(earth, at, client))
  }

  /** % */
  ghost predicate ControllerReported(earth: Earth, numbers: Numbers, v: View, v': View, client: Client, packet: string)
    requires Known(v, client)
  {
    var facility := numbers.parseInt32(Field(packet, 2));
    if facility.None? then Replied(v, v', client, ErrorPacket(4, "Invalid facility type"))
    else if !IsAllowedFacilityType(client.networkRating, facility.value) then
      && Replied(v, v'.(cancelled := v.cancelled), client, ErrorPacket(15, "Invalid position for rating"))
      && v'.cancelled == v.cancelled + {client}
    else ControllerPlaced(earth, numbers, v.(facilities := v.facilities[client := facility.value]), v', client, packet)
  }

  /** An accepted packet of type t. */
  ghost predicate AcceptedHandled(earth: Earth, numbers: Numbers, v: View, v': View, client: Client, packet: string,
                                  t: PacketType, around: Surroundings)
    requires Known(v, client) && |packet| >= 3
  {
    match t
    case TextMessage => TextSent(earth, v, v', client, packet)
    case PilotPosition => PilotReported(earth, numbers, v, v', client, packet)
    case PilotPositionFast | PilotPositionSlow | PilotPositionStopped => FastPositionSent(earth, v, v', client, packet)
    case ATCPosition => ControllerReported(earth, numbers, v, v', client, packet)
    case DeleteATC | DeletePilot => SignedOff(v, v', client, packet)
    case ClientQuery | ClientQueryResponse => QueryHandled(earth, v, v', client, packet, t, around)
    case ProController => ControllerRequestSent(earth, v, v', client, packet)
    case Squawkbox => Direct(v, v', client, Field(packet, 1), packet)
    case MetarRequest => WeatherAnswered(v, v', client, packet, around)
    case KillRequest => KillHandled(v, v', client, packet)
    case AuthChallenge => ChallengeAnswered(v, v', client, around)
    case HandoffRequest | HandoffAccept => HandoffSent(v, v', client, packet)
    case FlightPlan => PlanFiled(v, v', client, packet)
    case FlightPlanAmendment => PlanAmended(v, v', client, packet)
    case Unknown => false
  }

  /** Any bytes a client sends: an error reply unless they are accepted. */
  ghost predicate Handled(earth: Earth, numbers: Numbers, v: View, v': View, client: Client, packet: string, around: Surroundings)
    requires Known(v, client)
  {
    match VerifyPacket(packet, client.callsign)
    case Rejected(code, message) => Replied(v, v', client, ErrorPacket(code, message))
    case Accepted(t) => |packet| >= 3 && AcceptedHandled(earth, numbers, v, v', client, packet, t, around)
  }
}

/** The packet handlers (openaimp-fsd/fsd/handler.go), each with what it does to the registered clients. */
module Handlers {
  import opened Fields
  import opened Packets
  import opened FlightPlans
  import opened Geometry
  import opened Results
  import opened Routing
  import opened PostOffices
  import opened Effects

  function SenderOf(client: Client, challenged: bool): Sender
    reads client`facilityType
  {
    Sender(client.callsign, client.isAtc, client.networkRating, client.facilityType, challenged)
  }

  lemma SenderIsIn(postOffice: PostOffice, v: View, client: Client, challenged: bool)
    requires v == ViewOf(postOffice) && Known(v, client)
    ensures SenderOf(client, challenged) == SenderIn(v, client, challenged)
  {
  }

  /** A search's range is what the view calls near. */
  lemma InRangeIsNear(postOffice: PostOffice, v: View, client: Client)
    requires postOffice.Valid() && v == ViewOf(postOffice) && Known(v, client)
    ensures postOffice.InRange(client) == Near(postOffice.earth, v, client)
  {
    hide CalculateBoundingBox, Meets, Indexes;
  }

  lemma NearIsRegistered(earth: Earth, v: View, client: Client)
    requires Known(v, client)
    ensures Near(earth, v, client) <= v.positions.Keys
  {
    hide Meets, BoxIn;
  }

  /** A broadcast followed by a reply to the sender. */
  lemma ThenReply(before: map<Client, seq<string>>, between: map<Client, seq<string>>, after: map<Client, seq<string>>,
                  cancelled: set<Client>, sender: Client, packet: string, selected: set<Client>, reply: string, replied: bool)
    requires Outcome(before, between, cancelled, sender, packet, selected, "", false)
    requires Outcome(between, after, cancelled, sender, "", {}, reply, replied)
    ensures Outcome(before, after, cancelled, sender, packet, selected, reply, replied)
  {
  }

  lemma KnownFlags(v: View, client: Client)
    requires Known(v, client)
    ensures client in v.flags
  {
  }

  lemma RepliedIsKnown(v: View, v': View, client: Client, packet: string)
    requires Known(v, client) && Replied(v, v', client, packet)
    ensures Known(v', client) && v'.cancelled == v.cancelled
    ensures v'.(cancelled := v.cancelled) == v'
  {
  }

  lemma BroadcastIsKnown(v: View, v': View, client: Client, packet: string, selected: set<Client>)
    requires Known(v, client) && Broadcast(v, v', client, packet, selected)
    ensures Known(v', client)
  {
  }

  lemma FilingIs(source: string, info: string)
    ensures BuildFileFlightplanPacket(source, "*A", info) == "$FP" + source + ":*A:" + info + CRLF
  {
    assert ":" + "*A" + ":" == ":*A:";
  }

  lemma AmendmentIs(source: string, target: string, info: string)
    ensures BuildAmendFlightplanPacket(source, "*A", target, info) == "$AM" + source + ":*A:" + target + ":" + info + CRLF
  {
    assert ":" + "*A" + ":" == ":*A:";
  }

  const NO_WEATHER_PROFILE_ERROR := 9

  /** What carrying out an action does. */
  ghost predicate Performed(earth: Earth, v: View, v': View, client: Client, packet: string, action: Action, around: Surroundings)
    requires Known(v, client)
  {
    match action
    case Reply(code, message) => Replied(v, v', client, ErrorPacket(code, message))
    case ForwardInRange(audience) => Broadcast(v, v', client, packet, Chosen(Near(earth, v, client), audience))
    case ForwardToAll(audience) => Broadcast(v, v', client, packet, Chosen(v.clientMap.Values, audience))
    case ForwardTo(recipient) => Direct(v, v', client, recipient, packet)
    case Leave => SignedOff(v, v', client, packet)
    case Kill(victim) => Killed(v, v', client, victim)
    case AskAtc(target) => AtcAnswered(v, v', client, target)
    case AskPlan(target) => PlanAnswered(v, v', client, target, around.beaconCode)
    case AskAddress => Replied(v, v', client, TextReply("$CR", client.callsign, "IP:" + around.address))
    case Authenticate(_) => Replied(v, v', client, TextReply("$ZR", client.callsign, around.answer))
    case FetchMetar(icao) =>
      if around.metar.Some? then Replied(v, v', client, TextReply("$AR", client.callsign, "METAR:" + around.metar.value))
      else Replied(v, v', client, ErrorPacket(NO_WEATHER_PROFILE_ERROR, "Error fetching METAR for " + icao))
    case _ => v' == v
  }

  ghost predicate Killed(v: View, v': View, client: Client, victim: string) {
    if victim in v.clientMap then v' == v.(cancelled := v.cancelled + {v.clientMap[victim]})
    else Replied(v, v', client, ErrorPacket(7, "No such callsign"))
  }

  function TextReply(prefix: string, callsign: string, text: string): string {
    prefix + "SERVER:" + callsign + ":" + text + CRLF
  }

  function BeaconCodePacket(source: string, recipient: string, target: string, beaconCode: string): string {
    "#PC" + source + ":" + recipient + ":CCP:BC:" + target + ":" + beaconCode + CRLF
  }

  lemma TextReplies(callsign: string, text: string)
    ensures TextReply("$CR", callsign, "IP:" + text) == "$CRSERVER:" + callsign + ":IP:" + text + CRLF
    ensures TextReply("$AR", callsign, "METAR:" + text) == "$ARSERVER:" + callsign + ":METAR:" + text + CRLF
    ensures TextReply("$ZR", callsign, text) == "$ZRSERVER:" + callsign + ":" + text + CRLF
  {
    assert ":" + "IP:" == ":IP:" && ":" + "METAR:" == ":METAR:";
  }

  lemma BeaconReply(callsign: string, target: string, code: string)
    ensures BeaconCodePacket("server", callsign, target, code)
         == "#PCserver:" + callsign + ":CCP:BC:" + target + ":" + code + CRLF
  {
    assert "#PC" + "server" + ":" == "#PCserver:";
  }

  lemma TwoReplies(v: View, between: View, v': View, client: Client, first: string, second: string)
    requires Known(v, client) && Replied(v, between, client, first) && Replied(between, v', client, second)
    ensures Known(v, client) && client in v.queues
    ensures Replied(Append(v, client, first), v', client, second)
         || (client in v.cancelled && Replied(v, v', client, second))
  {
  }

  lemma AtcReply(callsign: string, answer: string, target: string)
    ensures TextReply("$CR", callsign, "ATC:" + answer + ":" + target)
         == "$CRSERVER:" + callsign + ":ATC:" + answer + ":" + target + CRLF
  {
    assert ":" + "ATC:" == ":ATC:";
  }

  class Server {
    const postOffice: PostOffice
    const numbers: Numbers

    constructor (postOffice: PostOffice, numbers: Numbers)
      ensures this.postOffice == postOffice && this.numbers == numbers
    {
      this.postOffice, this.numbers := postOffice, numbers;
    }

    /** The registry is sound, v is what it shows, and the client is in it. */
    ghost predicate Shows(v: View, client: Client)
      reads postOffice, postOffice.clientMap.Values
    {
      postOffice.Valid() && v == ViewOf(postOffice) && Known(v, client)
    }

    lemma Unfold(v: View, client: Client)
      requires v == ViewOf(postOffice) && Known(v, client)
      ensures client in postOffice.clientMap.Values && client in v.queues && client in v.positions
      ensures client in v.facilities && client in v.flags && client in v.plans
      ensures client.facilityType == v.facilities[client] && client.sendFastEnabled == v.flags[client]
      ensures client.position == v.positions[client] && client.flightPlan == v.plans[client]
    {
    }

    lemma FacilityIs(v: View, client: Client)
      requires v == ViewOf(postOffice) && Known(v, client)
      ensures client in v.facilities && client.facilityType == v.facilities[client]
    {
    }

    lemma PlansNow(v: View, client: Client)
      requires v == ViewOf(postOffice) && Known(v, client)
      ensures client in v.plans && v.plans.Keys == postOffice.clientMap.Values
      ensures forall c :: c in v.plans ==> v.plans[c] == c.flightPlan
    {
    }

    lemma ArrivedIsThere(v: View, point: Point, visRange: real, client: Client, packet: string, d: real)
      requires Known(v, client) && v.clientMap == postOffice.clientMap
      requires PilotArrived(postOffice.earth, MovedTo(v, client, point, visRange), ViewOf(postOffice), client, packet, d)
      ensures client.position == point && client.visRange == visRange
    {
      hide Closest, Near, Outcome, PostOffice.Queues, PostOffice.Cancelled, SendFast.NextFlag;
      assert ViewOf(postOffice).positions[client] == point;
    }

    lemma FlagsNow(flags: map<Client, bool>)
      requires flags == SendFastFlags(postOffice.clientMap.Values)
      ensures flags.Keys == postOffice.clientMap.Values && forall c :: c in flags ==> flags[c] == c.sendFastEnabled
    {
    }

    lemma IsRegistered(v: View, client: Client)
      requires Shows(v, client)
      ensures postOffice.Registered(client) && client in postOffice.clientMap.Values && v.clientMap == postOffice.clientMap
    {
      hide Indexes;
    }

    /** The handlers may be called for every registered client of a sound registry. */
    lemma RegisteredShows(client: Client)
      requires postOffice.Valid() && postOffice.Registered(client)
      ensures Shows(ViewOf(postOffice), client)
    {
      hide PostOffice.Valid;
      assert client in postOffice.clientMap.Values;
    }

    // ----- replies and forwards -----

    lemma OneCancelled(before: set<Client>, client: Client)
      requires client in postOffice.clientMap.Values && before <= postOffice.clientMap.Values
      requires forall c :: c in postOffice.clientMap.Values && c != client ==> (c.cancelled <==> c in before)
      requires client.cancelled
      ensures postOffice.Cancelled() == before + {client}
    {
    }

    lemma OneQueue(before: map<Client, seq<string>>, target: Client)
      requires before.Keys == postOffice.clientMap.Values && target in before
      requires forall c :: c in before && c != target ==> c.queued == before[c]
      ensures postOffice.Queues() == before[target := target.queued]
    {
    }

    /** client.send */
    method Queue(target: Client, packet: string, ghost v: View) returns (ok: bool)
      requires v == ViewOf(postOffice) && Known(v, target)
      modifies target`queued
      ensures ok ==> ViewOf(postOffice) == Append(v, target, packet)
      ensures !ok ==> target in v.cancelled && ViewOf(postOffice) == v
    {
      ok := target.Send(packet);
      OneQueue(v.queues, target);
      assert target.queued == if ok then v.queues[target] + [packet] else v.queues[target];
      hide PostOffice.Queues;
    }

    method Reply(client: Client, packet: string, ghost v: View)
      requires v == ViewOf(postOffice) && Known(v, client)
      modifies client`queued
      ensures Replied(v, ViewOf(postOffice), client, packet)
    {
      hide ViewOf;
      var ok := Queue(client, packet, v);
    }

    method SendError(client: Client, code: nat, message: string, ghost v: View)
      requires v == ViewOf(postOffice) && Known(v, client)
      modifies client`queued
      ensures Replied(v, ViewOf(postOffice), client, ErrorPacket(code, message))
    {
      hide Replied, ErrorPacket, ViewOf, Known;
      Reply(client, ErrorPacket(code, message), v);
    }

    method ForwardRanged(client: Client, packet: string, audience: Audience, ghost v: View)
      requires Shows(v, client)
      modifies client`closestVelocityClientDistance, postOffice.clientMap.Values`queued
      ensures postOffice.Valid()
      ensures Broadcast(v, ViewOf(postOffice), client, packet, Chosen(Near(postOffice.earth, v, client), audience))
    {
      hide PostOffice.Valid, PostOffice.InRange, Near, Known, Outcome, Chosen, IsClosest;
      hide PostOffice.Queues, PostOffice.Cancelled, Positions, Ranges, Facilities, SendFastFlags, Plans;
      InRangeIsNear(postOffice, v, client);
      Unfold(v, client);
      postOffice.BroadcastRanged(client, packet, audience);
    }

    method ForwardToAll(client: Client, packet: string, audience: Audience, ghost v: View)
      requires postOffice.Valid() && v == ViewOf(postOffice)
      modifies postOffice.clientMap.Values`queued
      ensures postOffice.Valid()
      ensures Broadcast(v, ViewOf(postOffice), client, packet, Chosen(v.clientMap.Values, audience))
    {
      hide PostOffice.Valid, Outcome, Chosen;
      postOffice.BroadcastAll(client, packet, audience);
    }

    /** postOffice.find */
    method Find(callsign: string, ghost v: View, ghost client: Client) returns (found: Option<Client>)
      requires Shows(v, client)
      ensures found == if callsign in v.clientMap then Some(v.clientMap[callsign]) else None
      ensures found.Some? ==> Known(v, found.value) && found.value in postOffice.clientMap.Values
    {
      hide PostOffice.Valid, Whole;
      found := postOffice.Find(callsign);
    }

    /** sendDirectOrErr: an unknown callsign, and a recipient that refuses, end in an error to the sender. */
    method ForwardDirect(client: Client, recipient: string, packet: string, ghost v: View)
      requires Shows(v, client)
      modifies postOffice.clientMap.Values`queued
      ensures postOffice.Valid()
      ensures Direct(v, ViewOf(postOffice), client, recipient, packet)
    {
      hide PostOffice.Valid, ErrorPacket, Known, Append, Replied, ViewOf;
      IsRegistered(v, client);
      var target := Find(recipient, v, client);
      var ok := false;
      if target.Some? {
        ok := Queue(target.value, packet, v);
      }
      if !ok {
        SendError(client, NO_SUCH_CALLSIGN_ERROR, "No such callsign", v);
      }
    }

    /** cancelCtx */
    method Disconnect(victim: Client, ghost v: View)
      requires v == ViewOf(postOffice) && Known(v, victim)
      modifies victim`cancelled
      ensures ViewOf(postOffice) == v.(cancelled := v.cancelled + {victim})
    {
      hide Positions, Ranges, Facilities, SendFastFlags, Plans, PostOffice.Queues;
      victim.cancelled := true;
      OneCancelled(v.cancelled, victim);
      hide PostOffice.Cancelled;
    }

    // ----- position reports -----

    /** The Send Fast part of handlePilotPosition: a $SF packet for each change of the flag. */
    method UpdateSendFast(client: Client)
      requires client in postOffice.clientMap.Values
      modifies client`sendFastEnabled, client`queued
      ensures client.sendFastEnabled
           == SendFast.NextFlag(old(client.sendFastEnabled), client.protoRevision, client.closestVelocityClientDistance)
      ensures Outcome(old(postOffice.Queues()), postOffice.Queues(), postOffice.Cancelled(), client, "", {},
                      SendFast.SendFastPacket(client.callsign, client.sendFastEnabled),
                      client.sendFastEnabled != old(client.sendFastEnabled))
    {
      if client.protoRevision == 101 {
        if client.sendFastEnabled {
          if client.closestVelocityClientDistance / 1852.0 > 5.0 {
            client.sendFastEnabled := false;
            var ok := client.Send(SendFast.SendFastPacket(client.callsign, false));
          }
        } else {
          if client.closestVelocityClientDistance / 1852.0 < 5.0 {
            client.sendFastEnabled := true;
            var ok := client.Send(SendFast.SendFastPacket(client.callsign, true));
          }
        }
      }
    }

    lemma OneFlag(before: map<Client, bool>, client: Client)
      requires before.Keys == postOffice.clientMap.Values && client in before
      requires forall c :: c in before && c != client ==> c.sendFastEnabled == before[c]
      ensures SendFastFlags(postOffice.clientMap.Values) == before[client := client.sendFastEnabled]
    {
    }

    lemma OnePlace(positions: map<Client, Point>, ranges: map<Client, real>, client: Client)
      requires positions.Keys == ranges.Keys == postOffice.clientMap.Values && client in positions
      requires forall c :: c in positions && c != client ==> c.position == positions[c] && c.visRange == ranges[c]
      ensures Positions(postOffice.clientMap.Values) == positions[client := client.position]
      ensures Ranges(postOffice.clientMap.Values) == ranges[client := client.visRange]
    {
    }

    /** UpdatePosition, seen from the view. */
    method Place(client: Client, point: Point, visRange: real, ghost v: View)
      requires Shows(v, client)
      modifies postOffice`tree, client`position, client`visRange
      ensures Shows(MovedTo(v, client, point, visRange), client)
    {
      hide PostOffice.Valid, CalculateBoundingBox, Facilities, SendFastFlags, Plans, PostOffice.Queues, PostOffice.Cancelled;
      IsRegistered(v, client);
      postOffice.UpdatePosition(client, point, visRange);
      OnePlace(v.positions, v.ranges, client);
      hide Positions, Ranges;
    }

    /** The common part of both position handlers: the client and its tree entry move, and everyone in
        its new range, and nobody else, gets the packet. */
    method Move(client: Client, packet: string, point: Point, visRange: real, ghost v: View)
      requires Shows(v, client)
      modifies postOffice`tree, client`position, client`visRange, client`closestVelocityClientDistance
      modifies postOffice.clientMap.Values`queued
      ensures postOffice.Valid()
      ensures var at := MovedTo(v, client, point, visRange);
        && Broadcast(at, ViewOf(postOffice), client, packet, Near(postOffice.earth, at, client))
        && Closest(postOffice.earth, at, client, client.closestVelocityClientDistance)
    {
      ghost var at := MovedTo(v, client, point, visRange);
      hide MovedTo;
      Place(client, point, visRange, v);
      Spread(client, packet, at);
    }

    method Spread(client: Client, packet: string, ghost at: View)
      requires Shows(at, client)
      modifies client`closestVelocityClientDistance, postOffice.clientMap.Values`queued
      ensures postOffice.Valid()
      ensures Broadcast(at, ViewOf(postOffice), client, packet, Near(postOffice.earth, at, client))
      ensures Closest(postOffice.earth, at, client, client.closestVelocityClientDistance)
    {
      hide PostOffice.Valid, PostOffice.InRange, Near, Known, Outcome, Chosen, IsClosest;
      hide PostOffice.Queues, PostOffice.Cancelled, Ranges, Facilities, SendFastFlags, Plans;
      InRangeIsNear(postOffice, at, client);
      NearIsRegistered(postOffice.earth, at, client);
      Unfold(at, client);
      ghost var near := postOffice.InRange(client);
      AudiencesAre(near);
      postOffice.BroadcastRanged(client, packet, Everyone);
      ClosestAmong(postOffice.earth, client, client.position, Positions(near), at.positions, near,
                   client.closestVelocityClientDistance);
    }

    method MovePilot(client: Client, packet: string, point: Point, visRange: real, ghost v: View)
      requires Shows(v, client)
      modifies postOffice`tree, client`position, client`visRange, client`closestVelocityClientDistance
      modifies client`sendFastEnabled, postOffice.clientMap.Values`queued
      ensures postOffice.Valid()
      ensures PilotArrived(postOffice.earth, MovedTo(v, client, point, visRange), ViewOf(postOffice), client, packet,
                           client.closestVelocityClientDistance)
    {
      hide PostOffice.Valid, Closest, Near, Broadcast, Known, PilotArrived, MovedTo, ViewOf;
      IsRegistered(v, client);
      Move(client, packet, point, visRange, v);
      TellSendFast(client, packet, MovedTo(v, client, point, visRange), ViewOf(postOffice));
    }

    /** The end of a pilot's report, its packet having been sent to those near. */
    method TellSendFast(client: Client, packet: string, ghost at: View, ghost v: View)
      requires postOffice.Valid() && Known(at, client) && v == ViewOf(postOffice)
      requires Broadcast(at, v, client, packet, Near(postOffice.earth, at, client))
      requires Closest(postOffice.earth, at, client, client.closestVelocityClientDistance)
      modifies client`sendFastEnabled, postOffice.clientMap.Values`queued
      ensures postOffice.Valid()
      ensures PilotArrived(postOffice.earth, at, ViewOf(postOffice), client, packet, client.closestVelocityClientDistance)
    {
      hide PostOffice.Valid, Closest, Near, Outcome, Known, SendFast.NextFlag, SendFast.SendFastPacket;
      hide PostOffice.Queues, PostOffice.Cancelled, Positions, Ranges, Facilities, SendFastFlags, Plans;
      KnownFlags(at, client);
      FlagsNow(at.flags);
      UpdateSendFast(client);
      OneFlag(at.flags, client);
      ThenReply(at.queues, v.queues, postOffice.Queues(), at.cancelled, client, packet,
                Near(postOffice.earth, at, client), SendFast.SendFastPacket(client.callsign, client.sendFastEnabled),
                client.sendFastEnabled != at.flags[client]);
    }

    /** handlePilotPosition: with valid coordinates the pilot stands there, otherwise only an error goes back. */
    method HandlePilotPosition(client: Client, packet: string, ghost v: View)
      requires Shows(v, client)
      requires CountFields(packet) >= MinFields(PilotPosition)
      modifies postOffice`tree, client`position, client`visRange, client`closestVelocityClientDistance
      modifies client`sendFastEnabled, postOffice.clientMap.Values`queued
      ensures postOffice.Valid()
      ensures PilotReported(postOffice.earth, numbers, v, ViewOf(postOffice), client, packet)
      ensures numbers.parseFloat(Field(packet, 4)).Some? && numbers.parseFloat(Field(packet, 5)).Some? ==>
        && numbers.parseFloat(Field(packet, 4)) == Some(client.position.lat)
        && numbers.parseFloat(Field(packet, 5)) == Some(client.position.lon)
        && client.visRange == 92600.0
    {
      hide PostOffice.Valid, Field, CountFields, Replied, PilotArrived, Known, ErrorPacket, ViewOf, MovedTo;
      IsRegistered(v, client);
      var fix := ParseFix(numbers, packet, 4, 5);
      if fix.None? {
        SendError(client, SYNTAX_ERROR, "Invalid latitude/longitude", v);
      } else {
        MovePilot(client, packet, fix.value, PILOT_VIS_RANGE, v);
        ArrivedIsThere(v, fix.value, PILOT_VIS_RANGE, client, packet, client.closestVelocityClientDistance);
      }
    }

    /** The part of handleATCPosition after the facility type is taken. */
    method PlaceController(client: Client, packet: string, ghost v: View)
      requires Shows(v, client)
      requires CountFields(packet) >= MinFields(ATCPosition)
      modifies postOffice`tree, client`position, client`visRange, client`closestVelocityClientDistance
      modifies postOffice.clientMap.Values`queued
      ensures postOffice.Valid()
      ensures ControllerPlaced(postOffice.earth, numbers, v, ViewOf(postOffice), client, packet)
    {
      hide PostOffice.Valid, Field, CountFields, Replied, Broadcast, Closest, Near, Known, ErrorPacket, ViewOf, MovedTo;
      IsRegistered(v, client);
      var point := ParseFix(numbers, packet, 5, 6);
      if point.None? {
        SendError(client, SYNTAX_ERROR, "Invalid latitude/longitude", v);
        return;
      }
      var visRange := numbers.parseFloat(FieldAt(packet, 3));
      if visRange.None? {
        SendError(client, SYNTAX_ERROR, "Invalid visibility range", v);
        return;
      }
      Move(client, packet, point.value, visRange.value * METERS_PER_NAUTICAL_MILE, v);
    }

    lemma OneFacility(before: map<Client, int>, client: Client)
      requires before.Keys == postOffice.clientMap.Values && client in before
      requires forall c :: c in before && c != client ==> c.facilityType == before[c]
      ensures Facilities(postOffice.clientMap.Values) == before[client := client.facilityType]
    {
    }

    method TakeFacility(client: Client, facilityType: int, ghost v: View)
      requires Shows(v, client)
      modifies client`facilityType
      ensures Shows(v.(facilities := v.facilities[client := facilityType]), client)
    {
      hide PostOffice.Valid, PostOffice.Queues, PostOffice.Cancelled, Positions, Ranges, SendFastFlags, Plans;
      client.facilityType := facilityType;
      OneFacility(v.facilities, client);
      hide Facilities;
    }

    /** handleATCPosition: the facility type is taken only if the rating allows it, and before the
        coordinates are read; a forbidden one cancels the client. Only a complete, valid report moves
        the client. */
    method HandleATCPosition(client: Client, packet: string, ghost v: View)
      requires Shows(v, client)
      requires CountFields(packet) >= MinFields(ATCPosition)
      modifies postOffice`tree, client`position, client`visRange, client`closestVelocityClientDistance
      modifies client`facilityType, client`cancelled, postOffice.clientMap.Values`queued
      ensures postOffice.Valid()
      ensures ControllerReported(postOffice.earth, numbers, v, ViewOf(postOffice), client, packet)
    {
      hide PostOffice.Valid, Field, CountFields, Replied, ControllerPlaced, ErrorPacket, ViewOf, IsAllowedFacilityType, Known;
      IsRegistered(v, client);
      var facilityType := numbers.parseInt32(FieldAt(packet, 2));
      if facilityType.None? {
        SendError(client, SYNTAX_ERROR, "Invalid facility type", v);
      } else if !IsAllowedFacilityType(client.networkRating, facilityType.value) {
        SendError(client, INVALID_POSITION_FOR_RATING_ERROR, "Invalid position for rating", v);
        RepliedIsKnown(v, ViewOf(postOffice), client, ErrorPacket(15, "Invalid position for rating"));
        Disconnect(client, ViewOf(postOffice));
      } else {
        TakeFacility(client, facilityType.value, v);
        PlaceController(client, packet, v.(facilities := v.facilities[client := facilityType.value]));
      }
    }

    // ----- flight plans -----

    lemma OnePlan(before: map<Client, string>, client: Client)
      requires before.Keys == postOffice.clientMap.Values && client in before
      requires forall c :: c in before && c != client ==> c.flightPlan == before[c]
      ensures Plans(postOffice.clientMap.Values) == before[client := client.flightPlan]
    {
    }

    method StorePlan(target: Client, info: string, ghost v: View)
      requires Shows(v, target)
      modifies target`flightPlan
      ensures postOffice.Valid() && ViewOf(postOffice) == v.(plans := v.plans[target := info])
    {
      hide PostOffice.Valid, Known, PostOffice.Queues, PostOffice.Cancelled, Positions, Ranges, SendFastFlags, Facilities;
      PlansNow(v, target);
      hide Plans;
      target.flightPlan := info;
      OnePlan(v.plans, target);
    }

    /** handleFileFlightplan: the plan is stored and every other controller gets the rebuilt packet. */
    method HandleFileFlightplan(client: Client, packet: string, ghost v: View)
      requires Shows(v, client) && |packet| >= 3
      modifies client`flightPlan, postOffice.clientMap.Values`queued
      ensures postOffice.Valid()
      ensures PlanFiled(v, ViewOf(postOffice), client, packet)
    {
      hide PostOffice.Valid, PlanSection, Broadcast, ViewOf, Known, Chosen;
      var info := ExtractFlightplanInfoSection(packet);
      StorePlan(client, info, v);
      AudiencesAre(v.clientMap.Values);
      FilingIs(client.callsign, info);
      hide BuildFileFlightplanPacket;
      ForwardToAll(client, BuildFileFlightplanPacket(client.callsign, "*A", info), Controllers,
                   v.(plans := v.plans[client := info]));
    }

    /** handleAmendFlightplan: only a controller with a facility may amend, and the target is the
        callsign in field 2; from anyone else the packet changes nothing. */
    method HandleAmendFlightplan(client: Client, packet: string, ghost v: View)
      requires Shows(v, client)
      requires |packet| >= 3 && CountFields(packet) >= MinFields(FlightPlanAmendment)
      modifies postOffice.clientMap.Values`flightPlan, postOffice.clientMap.Values`queued
      ensures postOffice.Valid()
      ensures PlanAmended(v, ViewOf(postOffice), client, packet)
    {
      hide PostOffice.Valid, PlanSection, Broadcast, ViewOf, Known, Chosen, Field, CountFields, ErrorPacket, Replied;
      hide BuildAmendFlightplanPacket;
      IsRegistered(v, client);
      FacilityIs(v, client);
      if !client.isAtc || client.facilityType <= 0 {
        return;
      }
      var info := ExtractFlightplanInfoSection(packet);
      var target := GetField(packet, 2);
      var found := Find(target, v, client);
      if found.None? {
        SendError(client, NO_SUCH_CALLSIGN_ERROR, "No such callsign: " + target, v);
        return;
      }
      StorePlan(found.value, info, v);
      AudiencesAre(v.clientMap.Values);
      AmendmentIs(client.callsign, target, info);
      ForwardToAll(client, BuildAmendFlightplanPacket(client.callsign, "*A", target, info), Controllers,
                   v.(plans := v.plans[found.value := info]));
    }
    // ----- answers -----

    /** handleClientQueryATCRequest, its target given. */
    method AnswerAtc(client: Client, target: string, ghost v: View)
      requires Shows(v, client)
      modifies client`queued
      ensures AtcAnswered(v, ViewOf(postOffice), client, target)
    {
      hide PostOffice.Valid, ErrorPacket, Replied, Known, ViewOf, TextReply;
      IsRegistered(v, client);
      var found := Find(target, v, client);
      if found.None? {
        SendError(client, NO_SUCH_CALLSIGN_ERROR, "No such callsign", v);
        return;
      }
      FacilityIs(v, found.value);
      var answer := if found.value.facilityType > 0 then "Y" else "N";
      AtcReply(client.callsign, answer, target);
      Reply(client, TextReply("$CR", client.callsign, "ATC:" + answer + ":" + target), v);
    }

    /** handleClientQueryFlightplanRequest, its target given: the plan, unless there is none, and the beacon
        code. */
    method AnswerPlan(client: Client, target: string, beaconCode: string, ghost v: View)
      requires Shows(v, client)
      modifies client`queued
      ensures PlanAnswered(v, ViewOf(postOffice), client, target, beaconCode)
    {
      hide PostOffice.Valid, ErrorPacket, Known, ViewOf, Append, Replied, BuildFileFlightplanPacket;
      hide BeaconCodePacket;
      IsRegistered(v, client);
      var found := Find(target, v, client);
      if found.None? {
        SendError(client, NO_SUCH_CALLSIGN_ERROR, "No such callsign: " + target, v);
        return;
      }
      PlansNow(v, found.value);
      var info := found.value.flightPlan;
      if info == "" {
        return;
      }
      FilingIs(target, info);
      var code := if beaconCode == "" then "0" else beaconCode;
      Reply(client, BuildFileFlightplanPacket(target, "*A", info), v);
      ghost var between := ViewOf(postOffice);
      RepliedIsKnown(v, between, client, BuildFileFlightplanPacket(target, "*A", info));
      BeaconReply(client.callsign, target, code);
      Reply(client, BeaconCodePacket("server", client.callsign, target, code), between);
      TwoReplies(v, between, ViewOf(postOffice), client, BuildFileFlightplanPacket(target, "*A", info),
                 BeaconCodePacket("server", client.callsign, target, code));
    }

    /** handleMetarRequest, its reply included. */
    method AnswerMetar(client: Client, icao: string, metar: Option<string>, ghost v: View)
      requires Shows(v, client)
      modifies client`queued
      ensures if metar.Some? then Replied(v, ViewOf(postOffice), client, TextReply("$AR", client.callsign, "METAR:" + metar.value))
        else Replied(v, ViewOf(postOffice), client, ErrorPacket(NO_WEATHER_PROFILE_ERROR, "Error fetching METAR for " + icao))
    {
      hide PostOffice.Valid, ErrorPacket, Replied, Known, ViewOf, TextReply;
      IsRegistered(v, client);
      if metar.Some? {
        Reply(client, TextReply("$AR", client.callsign, "METAR:" + metar.value), v);
      } else {
        SendError(client, NO_WEATHER_PROFILE_ERROR, "Error fetching METAR for " + icao, v);
      }
    }

    /** handleDelete: the packet goes to everyone, then the client is cancelled. */
    method SignOff(client: Client, packet: string, ghost v: View)
      requires Shows(v, client)
      modifies client`cancelled, postOffice.clientMap.Values`queued
      ensures postOffice.Valid()
      ensures SignedOff(v, ViewOf(postOffice), client, packet)
    {
      hide PostOffice.Valid, Known, ViewOf, Outcome, Chosen;
      IsRegistered(v, client);
      AudiencesAre(v.clientMap.Values);
      ForwardToAll(client, packet, Everyone, v);
      BroadcastIsKnown(v, ViewOf(postOffice), client, packet, v.clientMap.Values);
      Disconnect(client, ViewOf(postOffice));
    }

    /** handleKillRequest of a supervisor. */
    method KillClient(client: Client, victim: string, ghost v: View)
      requires Shows(v, client)
      modifies client`queued, postOffice.clientMap.Values`cancelled
      ensures postOffice.Valid()
      ensures Killed(v, ViewOf(postOffice), client, victim)
    {
      hide PostOffice.Valid, ErrorPacket, Replied, Known, ViewOf;
      IsRegistered(v, client);
      var found := Find(victim, v, client);
      if found.None? {
        SendError(client, NO_SUCH_CALLSIGN_ERROR, "No such callsign", v);
      } else {
        Disconnect(found.value, v);
      }
    }

    /** The handlers that only pass on, answer or disconnect. */
    method Perform(client: Client, packet: string, action: Action, around: Surroundings, ghost v: View)
      requires Shows(v, client)
      modifies client`closestVelocityClientDistance, postOffice.clientMap.Values`queued
      modifies postOffice.clientMap.Values`cancelled
      ensures postOffice.Valid()
      ensures Performed(postOffice.earth, v, ViewOf(postOffice), client, packet, action, around)
    {
      hide PostOffice.Valid, ErrorPacket, Replied, Broadcast, Direct, SignedOff, Killed, AtcAnswered, PlanAnswered;
      hide Known, ViewOf, TextReply, Near, Chosen;
      IsRegistered(v, client);
      match action {
        case Reply(code, message) => SendError(client, code, message, v);
        case ForwardInRange(audience) => ForwardRanged(client, packet, audience, v);
        case ForwardToAll(audience) => ForwardToAll(client, packet, audience, v);
        case ForwardTo(recipient) => ForwardDirect(client, recipient, packet, v);
        case Leave => SignOff(client, packet, v);
        case Kill(victim) => KillClient(client, victim, v);
        case AskAtc(target) => AnswerAtc(client, target, v);
        case AskPlan(target) => AnswerPlan(client, target, around.beaconCode, v);
        case AskAddress => Reply(client, TextReply("$CR", client.callsign, "IP:" + around.address), v);
        case Authenticate(_) => Reply(client, TextReply("$ZR", client.callsign, around.answer), v);
        case FetchMetar(icao) => AnswerMetar(client, icao, around.metar, v);
        case _ =>
      }
    }
  }
}

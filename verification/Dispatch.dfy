/** One round of the event loop for a registered client: verifyPacket, getHandler and the handler
    (openaimp-fsd/fsd/client.go, openaimp-fsd/fsd/handler.go), what it does and what it keeps. */
module Dispatch {
  import opened Fields
  import opened Packets
  import opened FlightPlans
  import opened Geometry
  import opened Routing
  import opened PostOffices
  import opened Effects
  import opened Handlers
  import opened SendFast

  // ----- a decision carried out does what the packet's fields say -----

  lemma TextIsSent(earth: Earth, v: View, v': View, client: Client, packet: string, action: Action, around: Surroundings)
    requires Known(v, client) && Performed(earth, v, v', client, packet, action, around)
    requires TextGoes(SenderIn(v, client, around.challenged), Field(packet, 1), action)
    ensures TextSent(earth, v, v', client, packet)
  {
    hide Field, Broadcast, Direct, Near, Chosen, AtcOf, SupervisorsOf, VelocityOf, Known, Replied, ErrorPacket;
    var to := Field(packet, 1);
    AudiencesAre(Near(earth, v, client));
    AudiencesAre(v.clientMap.Values);
  }

  lemma RequestIsSent(earth: Earth, v: View, v': View, client: Client, packet: string, action: Action, around: Surroundings)
    requires Known(v, client) && Performed(earth, v, v', client, packet, action, around)
    requires RequestGoes(SenderIn(v, client, around.challenged), Field(packet, 1), Field(packet, 3), action)
    ensures ControllerRequestSent(earth, v, v', client, packet)
  {
    hide Field, Broadcast, Direct, Near, Chosen, AtcOf, SupervisorsOf, VelocityOf, Known, Replied, ErrorPacket, PRIVILEGED_REQUESTS, OPEN_REQUESTS;
    AudiencesAre(Near(earth, v, client));
  }

  lemma QueryIsSent(earth: Earth, v: View, v': View, client: Client, packet: string, t: PacketType, action: Action,
                    around: Surroundings)
    requires Known(v, client) && Performed(earth, v, v', client, packet, action, around) && Field(packet, 1) != "SERVER"
    requires QueryGoes(SenderIn(v, client, around.challenged), Field(packet, 1), Field(packet, 2), t, action)
    ensures QueryHandled(earth, v, v', client, packet, t, around)
  {
    hide Field, Broadcast, Direct, Near, Chosen, AtcOf, SupervisorsOf, VelocityOf, Known, Replied, ErrorPacket, MayQuery, CLIENT_QUERIES, SenderIn;
    AudiencesAre(Near(earth, v, client));
  }

  lemma ServerQueryIsAnswered(earth: Earth, v: View, v': View, client: Client, packet: string, t: PacketType, action: Action,
                              around: Surroundings)
    requires Known(v, client) && Performed(earth, v, v', client, packet, action, around) && Field(packet, 1) == "SERVER"
    requires ServerQueryGoes(SenderIn(v, client, around.challenged), packet, action)
    ensures QueryHandled(earth, v, v', client, packet, t, around)
  {
    hide Field, Split, Known, Replied, ErrorPacket, AtcAnswered, PlanAnswered, TextReply;
    TextReplies(client.callsign, around.address);
  }

  lemma ReplyIsSent(earth: Earth, v: View, v': View, client: Client, packet: string, t: PacketType, action: Action,
                    around: Surroundings)
    requires Known(v, client) && Performed(earth, v, v', client, packet, action, around)
    requires |packet| >= 3
    requires OtherGoes(SenderIn(v, client, around.challenged), packet, t, action)
    ensures t.AuthChallenge? ==> ChallengeAnswered(v, v', client, around)
    ensures t.KillRequest? ==> KillHandled(v, v', client, packet)
  {
    hide Field, Known, Replied, ErrorPacket, TextReply, NO_CHALLENGE;
    TextReplies(client.callsign, around.answer);
  }

  lemma WeatherIsSent(earth: Earth, v: View, v': View, client: Client, packet: string, t: PacketType, action: Action,
                      around: Surroundings)
    requires Known(v, client) && Performed(earth, v, v', client, packet, action, around)
    requires |packet| >= 3
    requires OtherGoes(SenderIn(v, client, around.challenged), packet, t, action) && t.MetarRequest?
    ensures WeatherAnswered(v, v', client, packet, around)
  {
    hide Field, Known, Replied, ErrorPacket, TextReply, NO_CHALLENGE;
    if around.metar.Some? {
      TextReplies(client.callsign, around.metar.value);
    }
  }

  lemma ForwardIsSent(earth: Earth, v: View, v': View, client: Client, packet: string, t: PacketType, action: Action,
                      around: Surroundings)
    requires Known(v, client) && Performed(earth, v, v', client, packet, action, around)
    requires |packet| >= 3
    requires OtherGoes(SenderIn(v, client, around.challenged), packet, t, action)
    ensures t.Squawkbox? ==> Direct(v, v', client, Field(packet, 1), packet)
    ensures t.HandoffRequest? || t.HandoffAccept? ==> HandoffSent(v, v', client, packet)
    ensures t.DeleteATC? || t.DeletePilot? ==> SignedOff(v, v', client, packet)
    ensures t.PilotPositionFast? || t.PilotPositionSlow? || t.PilotPositionStopped? ==>
      FastPositionSent(earth, v, v', client, packet)
  {
    hide Field, Known, Replied, ErrorPacket, TextReply, NO_CHALLENGE, Direct, Broadcast, SignedOff, Near, Chosen, VelocityOf;
    AudiencesAre(Near(earth, v, client));
  }

  /** The other packets: deletions, forwards to one callsign, kills, challenges and weather. */
  lemma OtherIsHandled(earth: Earth, numbers: Numbers, v: View, v': View, client: Client, packet: string, t: PacketType,
                       action: Action, around: Surroundings)
    requires Known(v, client) && Performed(earth, v, v', client, packet, action, around)
    requires !t.TextMessage? && !t.ProController? && !t.ClientQuery? && !t.ClientQueryResponse? && !t.Unknown?
    requires !t.PilotPosition? && !t.ATCPosition? && !t.FlightPlan? && !t.FlightPlanAmendment?
    requires |packet| >= 3
    requires OtherGoes(SenderIn(v, client, around.challenged), packet, t, action)
    ensures AcceptedHandled(earth, numbers, v, v', client, packet, t, around)
  {
    hide Performed, OtherGoes, Known, Field, Direct, HandoffSent, SignedOff, FastPositionSent;
    hide ChallengeAnswered, WeatherAnswered, KillHandled, SenderIn;
    ReplyIsSent(earth, v, v', client, packet, t, action, around);
    ForwardIsSent(earth, v, v', client, packet, t, action, around);
    if t.MetarRequest? {
      WeatherIsSent(earth, v, v', client, packet, t, action, around);
    }
  }

  lemma DecidedIsHandled(earth: Earth, numbers: Numbers, v: View, v': View, client: Client, packet: string, t: PacketType,
                         action: Action, around: Surroundings)
    requires Known(v, client) && Performed(earth, v, v', client, packet, action, around)
    requires !t.PilotPosition? && !t.ATCPosition? && !t.FlightPlan? && !t.FlightPlanAmendment?
    requires var sender := SenderIn(v, client, around.challenged);
      Verified(sender, packet, t) && action == Decide(sender, packet, t, numbers)
    ensures |packet| >= 3 && AcceptedHandled(earth, numbers, v, v', client, packet, t, around)
  {
    hide Field, Decide, Performed, Known, VerifyPacket, TextSent, ControllerRequestSent, QueryHandled;
    hide TextGoes, RequestGoes, QueryGoes, ServerQueryGoes, OtherGoes, GetPacketType, GetSourceCallsign, CountFields;
    var sender := SenderIn(v, client, around.challenged);
    AcceptedHas(packet, client.callsign, t);
    if t.TextMessage? {
      TextAudience(sender, packet, numbers);
      TextIsSent(earth, v, v', client, packet, action, around);
    } else if t.ProController? {
      RequestAudience(sender, packet, numbers);
      RequestIsSent(earth, v, v', client, packet, action, around);
    } else if t.ClientQuery? || t.ClientQueryResponse? {
      if Field(packet, 1) == "SERVER" {
        ServerQueryAnswer(sender, packet, t, numbers);
        ServerQueryIsAnswered(earth, v, v', client, packet, t, action, around);
      } else {
        QueryAudience(sender, packet, t, numbers);
        QueryIsSent(earth, v, v', client, packet, t, action, around);
      }
    } else {
      OtherActions(sender, packet, t, numbers);
      OtherIsHandled(earth, numbers, v, v', client, packet, t, action, around);
    }
  }

  // ----- what every packet keeps -----

  /** The $SF packets of every live client alternate, and its flag is what the last one said. */
  ghost predicate AllInStep(v: View) {
    v.queues.Keys == v.flags.Keys && forall c :: c in v.queues && c !in v.cancelled ==> InStep(v.queues[c], v.flags[c])
  }

  /** No flag moves, nobody is revived, and no $SF packet is queued. */
  ghost predicate Gentle(v: View, v': View) {
    && v'.flags == v.flags && v.cancelled <= v'.cancelled && v'.queues.Keys == v.queues.Keys
    && forall c :: c in v.queues ==> Flags(v'.queues[c]) == Flags(v.queues[c])
  }

  lemma GentleKeeps(v: View, v': View)
    requires AllInStep(v) && Gentle(v, v')
    ensures AllInStep(v')
  {
    hide Flags, Alternates;
    forall c | c in v'.queues && c !in v'.cancelled ensures InStep(v'.queues[c], v'.flags[c]) {
      assert InStep(v.queues[c], v.flags[c]);
    }
  }

  lemma RepliedIsGentle(v: View, v': View, client: Client, packet: string)
    requires Replied(v, v', client, packet) && !IsSendFast(packet)
    ensures Gentle(v, v')
  {
    FlagsAppend(v.queues[client], packet);
    hide Flags, IsSendFast;
  }

  lemma BroadcastIsGentle(v: View, v': View, sender: Client, packet: string, selected: set<Client>)
    requires Broadcast(v, v', sender, packet, selected) && !IsSendFast(packet)
    ensures Gentle(v, v')
  {
    hide Flags, IsSendFast;
    forall c | c in v.queues ensures Flags(v'.queues[c]) == Flags(v.queues[c]) {
      FlagsAppend(v.queues[c], packet);
    }
  }

  lemma DirectIsGentle(v: View, v': View, sender: Client, recipient: string, packet: string)
    requires Whole(v) && Direct(v, v', sender, recipient, packet) && !IsSendFast(packet)
    ensures Gentle(v, v')
  {
    NoErrorIsSendFast();
    hide Flags, IsSendFast, ErrorPacket, Replied;
    if Replied(v, v', sender, ErrorPacket(7, "No such callsign")) {
      RepliedIsGentle(v, v', sender, ErrorPacket(7, "No such callsign"));
    } else {
      FlagsAppend(v.queues[v.clientMap[recipient]], packet);
    }
  }

  lemma AppendIsNotSendFast(head: string, tail: string)
    requires |head| >= 3 && !IsSendFast(head)
    ensures |head + tail| >= 3 && !IsSendFast(head + tail)
  {
    assert (head + tail)[..3] == head[..3];
    StartsWith(head);
    StartsWith(head + tail);
  }

  lemma LongerIsNot(tag: string, a: string, b: string, c: string, d: string)
    requires |tag| >= 3 && !IsSendFast(tag)
    ensures |tag + a + b + c + d| >= 3 && !IsSendFast(tag + a + b + c + d)
  {
    hide IsSendFast;
    AppendIsNotSendFast(tag, a);
    AppendIsNotSendFast(tag + a, b);
    AppendIsNotSendFast(tag + a + b, c);
    AppendIsNotSendFast(tag + a + b + c, d);
  }

  lemma LongestIsNot(tag: string, a: string, b: string, c: string, d: string, e: string, f: string)
    requires |tag| >= 3 && !IsSendFast(tag)
    ensures !IsSendFast(tag + a + b + c + d + e + f)
  {
    hide IsSendFast;
    LongerIsNot(tag, a, b, c, d);
    AppendIsNotSendFast(tag + a + b + c + d, e);
    AppendIsNotSendFast(tag + a + b + c + d + e, f);
  }

  lemma OtherTagsAreNot()
    ensures !IsSendFast("$ERserver:unknown:") && !IsSendFast("$CRSERVER:") && !IsSendFast("$ZRSERVER:")
    ensures !IsSendFast("$ARSERVER:") && !IsSendFast("#PCserver:") && !IsSendFast("$FP") && !IsSendFast("$AM")
  {
    assert "$ERserver:unknown:"[1] == 'E' && "$CRSERVER:"[1] == 'C' && "$ZRSERVER:"[1] == 'Z';
    assert "$ARSERVER:"[1] == 'A' && "#PCserver:"[1] == 'P' && "$FP"[1] == 'F' && "$AM"[1] == 'A';
  }

  /** No error is a $SF packet. */
  lemma NoErrorIsSendFast()
    ensures forall code: nat, message :: !IsSendFast(ErrorPacket(code, message))
  {
    hide IsSendFast, Decimal;
    OtherTagsAreNot();
    forall code: nat, message ensures !IsSendFast(ErrorPacket(code, message)) {
      LongerIsNot("$ERserver:unknown:", Decimal(code), "::", message, CRLF);
    }
  }

  lemma GentleForwards(v: View, v': View, client: Client)
    requires Known(v, client)
    ensures forall packet :: !IsSendFast(packet) && Replied(v, v', client, packet) ==> Gentle(v, v')
    ensures forall packet, clients :: !IsSendFast(packet) && Broadcast(v, v', client, packet, clients) ==> Gentle(v, v')
    ensures forall packet, to :: !IsSendFast(packet) && Direct(v, v', client, to, packet) ==> Gentle(v, v')
  {
    assert Whole(v);
    hide Whole, Known, IsSendFast, Replied, Broadcast, Direct, Gentle;
    forall packet | !IsSendFast(packet) && Replied(v, v', client, packet) ensures Gentle(v, v') {
      RepliedIsGentle(v, v', client, packet);
    }
    forall packet, clients | !IsSendFast(packet) && Broadcast(v, v', client, packet, clients) ensures Gentle(v, v') {
      BroadcastIsGentle(v, v', client, packet, clients);
    }
    forall packet, to | !IsSendFast(packet) && Direct(v, v', client, to, packet) ensures Gentle(v, v') {
      DirectIsGentle(v, v', client, to, packet);
    }
  }

  lemma SameIsGentle(v: View, v': View)
    requires v' == v || exists client :: v' == v.(cancelled := v.cancelled + {client})
    ensures Gentle(v, v')
  {
    hide Flags;
  }

  lemma ForwardsAreGentle(earth: Earth, v: View, v': View, client: Client, packet: string)
    requires Known(v, client) && !IsSendFast(packet)
    ensures TextSent(earth, v, v', client, packet) ==> Gentle(v, v')
    ensures FastPositionSent(earth, v, v', client, packet) ==> Gentle(v, v')
    ensures ControllerRequestSent(earth, v, v', client, packet) ==> Gentle(v, v')
    ensures HandoffSent(v, v', client, packet) ==> Gentle(v, v')
    ensures QueryForwarded(earth, v, v', client, packet) ==> Gentle(v, v')
  {
    hide IsSendFast, Replied, Broadcast, Direct, Gentle, ErrorPacket, Field, Near, Known, PRIVILEGED_REQUESTS, OPEN_REQUESTS;
    GentleForwards(v, v', client);
    NoErrorIsSendFast();
    if v' == v {
      SameIsGentle(v, v');
    }
  }

  lemma AtcAnswerIsGentle(v: View, v': View, client: Client, target: string)
    requires Known(v, client) && AtcAnswered(v, v', client, target)
    ensures Gentle(v, v')
  {
    hide IsSendFast, Replied, Gentle, ErrorPacket;
    if target in v.clientMap {
      var answer := if v.facilities[v.clientMap[target]] > 0 then "Y" else "N";
      OtherTagsAreNot();
      LongestIsNot("$CRSERVER:", client.callsign, ":ATC:", answer, ":", target, CRLF);
      RepliedIsGentle(v, v', client, "$CRSERVER:" + client.callsign + ":ATC:" + answer + ":" + target + CRLF);
    } else {
      ErrorIsGentle(v, v', client, 7, "No such callsign");
    }
  }

  lemma ChallengeAnswerIsGentle(v: View, v': View, client: Client, around: Surroundings)
    requires ChallengeAnswered(v, v', client, around)
    ensures Gentle(v, v')
  {
    hide IsSendFast, Replied, Gentle, ErrorPacket, NO_CHALLENGE;
    if around.challenged {
      OtherTagsAreNot();
      LongerIsNot("$ZRSERVER:", client.callsign, ":", around.answer, CRLF);
      RepliedIsGentle(v, v', client, "$ZRSERVER:" + client.callsign + ":" + around.answer + CRLF);
    } else {
      ErrorIsGentle(v, v', client, 16, NO_CHALLENGE);
    }
  }

  lemma WeatherAnswerIsGentle(v: View, v': View, client: Client, packet: string, around: Surroundings)
    requires WeatherAnswered(v, v', client, packet, around)
    ensures Gentle(v, v')
  {
    hide IsSendFast, Replied, Gentle, ErrorPacket, Field;
    if Field(packet, 1) != "SERVER" || Field(packet, 2) != "METAR" {
      SameIsGentle(v, v');
    } else if around.metar.Some? {
      OtherTagsAreNot();
      LongerIsNot("$ARSERVER:", client.callsign, ":METAR:", around.metar.value, CRLF);
      RepliedIsGentle(v, v', client, "$ARSERVER:" + client.callsign + ":METAR:" + around.metar.value + CRLF);
    } else {
      ErrorIsGentle(v, v', client, 9, "Error fetching METAR for " + Field(packet, 3));
    }
  }

  lemma ErrorIsGentle(v: View, v': View, client: Client, code: nat, message: string)
    requires Replied(v, v', client, ErrorPacket(code, message))
    ensures Gentle(v, v')
  {
    hide IsSendFast, Replied, Gentle, ErrorPacket;
    NoErrorIsSendFast();
    RepliedIsGentle(v, v', client, ErrorPacket(code, message));
  }

  lemma KillIsGentle(v: View, v': View, client: Client, packet: string)
    requires Known(v, client) && KillHandled(v, v', client, packet)
    ensures Gentle(v, v')
  {
    hide IsSendFast, Replied, Gentle, ErrorPacket, Field, Known;
    GentleForwards(v, v', client);
    NoErrorIsSendFast();
    var victim := Field(packet, 1);
    if v' == v || (victim in v.clientMap && v' == v.(cancelled := v.cancelled + {v.clientMap[victim]})) {
      SameIsGentle(v, v');
    }
  }

  lemma GentleTwice(v: View, between: View, v': View)
    requires Gentle(v, between) && Gentle(between, v')
    ensures Gentle(v, v')
  {
    hide Flags;
  }

  lemma AppendIsGentle(v: View, client: Client, packet: string)
    requires Known(v, client) && !IsSendFast(packet)
    ensures Known(v, client) && client in v.queues
    ensures Gentle(v, Append(v, client, packet)) && Known(Append(v, client, packet), client)
  {
    FlagsAppend(v.queues[client], packet);
    hide Flags, IsSendFast;
  }

  /** Two replies in a row, of which a cancelled client may miss either. */
  lemma TwoRepliesAreGentle(v: View, v': View, client: Client, first: string, second: string)
    requires Known(v, client) && !IsSendFast(first) && !IsSendFast(second)
    requires client in v.queues
    requires Replied(Append(v, client, first), v', client, second) || Replied(v, v', client, second)
    ensures Gentle(v, v')
  {
    hide IsSendFast, Replied, Gentle, Append, Known;
    if Replied(v, v', client, second) {
      RepliedIsGentle(v, v', client, second);
    } else {
      AppendIsGentle(v, client, first);
      RepliedIsGentle(Append(v, client, first), v', client, second);
      GentleTwice(v, Append(v, client, first), v');
    }
  }

  lemma PlanAnswerIsGentle(v: View, v': View, client: Client, target: string, beaconCode: string)
    requires Known(v, client) && PlanAnswered(v, v', client, target, beaconCode)
    ensures Gentle(v, v')
  {
    hide IsSendFast, Replied, Gentle, ErrorPacket, Append;
    GentleForwards(v, v', client);
    NoErrorIsSendFast();
    OtherTagsAreNot();
    if v' == v {
      SameIsGentle(v, v');
    } else if target in v.clientMap {
      var plan := v.plans[v.clientMap[target]];
      var code := if beaconCode == "" then "0" else beaconCode;
      LongerIsNot("$FP", target, ":*A:", plan, CRLF);
      LongestIsNot("#PCserver:", client.callsign, ":CCP:BC:", target, ":", code, CRLF);
      TwoRepliesAreGentle(v, v', client, "$FP" + target + ":*A:" + plan + CRLF,
                          "#PCserver:" + client.callsign + ":CCP:BC:" + target + ":" + code + CRLF);
    }
  }

  lemma ServerAnswerIsGentle(v: View, v': View, client: Client, packet: string, around: Surroundings)
    requires Known(v, client) && ServerQueryAnswered(v, v', client, packet, around)
    ensures Gentle(v, v')
  {
    hide IsSendFast, Replied, Gentle, ErrorPacket, Field, Known, AtcAnswered, PlanAnswered, Split;
    GentleForwards(v, v', client);
    NoErrorIsSendFast();
    OtherTagsAreNot();
    LongerIsNot("$CRSERVER:", client.callsign, ":IP:", around.address, CRLF);
    if v' == v {
      SameIsGentle(v, v');
    } else if AtcAnswered(v, v', client, Field(packet, 3)) {
      AtcAnswerIsGentle(v, v', client, Field(packet, 3));
    } else if PlanAnswered(v, v', client, Field(packet, 3), around.beaconCode) {
      PlanAnswerIsGentle(v, v', client, Field(packet, 3), around.beaconCode);
    }
  }

  lemma QueryIsGentle(earth: Earth, v: View, v': View, client: Client, packet: string, t: PacketType, around: Surroundings)
    requires Known(v, client) && !IsSendFast(packet) && QueryHandled(earth, v, v', client, packet, t, around)
    ensures Gentle(v, v')
  {
    hide IsSendFast, Replied, Direct, Gentle, ErrorPacket, Field, Known, QueryForwarded, ServerQueryAnswered;
    hide MayQuery, CLIENT_QUERIES, SenderIn, TextSent, FastPositionSent, ControllerRequestSent, HandoffSent;
    GentleForwards(v, v', client);
    NoErrorIsSendFast();
    ForwardsAreGentle(earth, v, v', client, packet);
    if v' == v {
      SameIsGentle(v, v');
    } else if ServerQueryAnswered(v, v', client, packet, around) {
      ServerAnswerIsGentle(v, v', client, packet, around);
    }
  }

  lemma FilingIsGentle(v: View, v': View, client: Client, packet: string)
    requires Known(v, client) && |packet| >= 3 && PlanFiled(v, v', client, packet)
    ensures Gentle(v, v')
  {
    hide IsSendFast, Broadcast, Gentle, Field, PlanSection;
    OtherTagsAreNot();
    var plan := PlanSection(packet);
    LongerIsNot("$FP", client.callsign, ":*A:", plan, CRLF);
    NewPlanIsGentle(v, v', client, client, plan, "$FP" + client.callsign + ":*A:" + plan + CRLF, AtcOf(v.clientMap.Values));
  }

  lemma AmendmentIsGentle(v: View, v': View, client: Client, packet: string)
    requires Known(v, client) && |packet| >= 3 && PlanAmended(v, v', client, packet)
    ensures Gentle(v, v')
  {
    hide IsSendFast, Replied, Broadcast, Gentle, ErrorPacket, Field, PlanSection, Known;
    GentleForwards(v, v', client);
    NoErrorIsSendFast();
    OtherTagsAreNot();
    var target, plan := Field(packet, 2), PlanSection(packet);
    LongestIsNot("$AM", client.callsign, ":*A:", target, ":", plan, CRLF);
    if v' == v {
      SameIsGentle(v, v');
    } else if target in v.clientMap {
      NewPlanIsGentle(v, v', client, v.clientMap[target], plan,
                      "$AM" + client.callsign + ":*A:" + target + ":" + plan + CRLF, AtcOf(v.clientMap.Values));
    }
  }

  lemma NewPlanIsGentle(v: View, v': View, client: Client, c: Client, plan: string, packet: string, clients: set<Client>)
    requires !IsSendFast(packet) && Broadcast(v.(plans := v.plans[c := plan]), v', client, packet, clients)
    ensures Gentle(v, v')
  {
    hide IsSendFast, Outcome, Flags;
    BroadcastIsGentle(v.(plans := v.plans[c := plan]), v', client, packet, clients);
  }

  lemma SignOffIsGentle(v: View, v': View, client: Client, packet: string)
    requires SignedOff(v, v', client, packet) && !IsSendFast(packet)
    ensures Gentle(v, v')
  {
    hide IsSendFast, Outcome, Flags;
    BroadcastIsGentle(v, v'.(cancelled := v.cancelled), client, packet, v.clientMap.Values);
  }

  lemma ControllerIsGentle(earth: Earth, numbers: Numbers, v: View, v': View, client: Client, packet: string)
    requires Known(v, client) && !IsSendFast(packet) && ControllerPlaced(earth, numbers, v, v', client, packet)
    ensures Gentle(v, v')
  {
    hide IsSendFast, Replied, Broadcast, Flags, ErrorPacket, Field, Known, Near;
    GentleForwards(v, v', client);
    NoErrorIsSendFast();
    var lat, lon := numbers.parseFloat(Field(packet, 5)), numbers.parseFloat(Field(packet, 6));
    var miles := numbers.parseFloat(Field(packet, 3));
    if lat.Some? && lon.Some? && miles.Some? {
      var at := MovedTo(v, client, Point(lat.value, lon.value), miles.value * 1852.0);
      BroadcastIsGentle(at, v', client, packet, Near(earth, at, client));
    }
  }

  lemma ControllerReportIsGentle(earth: Earth, numbers: Numbers, v: View, v': View, client: Client, packet: string)
    requires Known(v, client) && !IsSendFast(packet) && ControllerReported(earth, numbers, v, v', client, packet)
    ensures Gentle(v, v')
  {
    hide IsSendFast, Replied, Flags, ErrorPacket, Field, ControllerPlaced, IsAllowedFacilityType, Decimal;
    GentleForwards(v, v', client);
    NoErrorIsSendFast();
    var facility := numbers.parseInt32(Field(packet, 2));
    if facility.Some? {
      if IsAllowedFacilityType(client.networkRating, facility.value) {
        var taken := v.(facilities := v.facilities[client := facility.value]);
        assert Known(taken, client);
        ControllerIsGentle(earth, numbers, taken, v', client, packet);
      } else {
        RepliedIsGentle(v, v'.(cancelled := v.cancelled), client, ErrorPacket(15, "Invalid position for rating"));
      }
    }
  }

  /** A pilot's report may move its flag, and then says so. */
  lemma PilotReportKeeps(earth: Earth, numbers: Numbers, v: View, v': View, client: Client, packet: string)
    requires Known(v, client) && !IsSendFast(packet) && AllInStep(v)
    requires PilotReported(earth, numbers, v, v', client, packet)
    ensures AllInStep(v')
  {
    hide IsSendFast, Replied, PilotArrived, ErrorPacket, Field, AllInStep;
    var lat, lon := numbers.parseFloat(Field(packet, 4)), numbers.parseFloat(Field(packet, 5));
    if lat.None? || lon.None? {
      NoErrorIsSendFast();
      RepliedIsGentle(v, v', client, ErrorPacket(4, "Invalid latitude/longitude"));
      GentleKeeps(v, v');
    } else {
      var at := MovedTo(v, client, Point(lat.value, lon.value), 92600.0);
      var d: real :| PilotArrived(earth, at, v', client, packet, d);
      MovedKeeps(v, at);
      ArrivalKeeps(earth, at, v', client, packet, d);
    }
  }

  lemma MovedKeeps(v: View, at: View)
    requires AllInStep(v) && at.queues == v.queues && at.flags == v.flags && at.cancelled == v.cancelled
    ensures AllInStep(at)
  {
    hide InStep;
  }

  lemma ArrivalKeeps(earth: Earth, at: View, v': View, client: Client, packet: string, d: real)
    requires Known(at, client) && !IsSendFast(packet) && AllInStep(at) && PilotArrived(earth, at, v', client, packet, d)
    ensures AllInStep(v')
  {
    hide InStep, SendFastPacket, IsSendFast, Closest, Near, NextFlag;
    var flag := NextFlag(at.flags[client], client.protoRevision, d);
    forall c | c in v'.queues && c !in v'.cancelled ensures InStep(v'.queues[c], v'.flags[c]) {
      assert InStep(at.queues[c], at.flags[c]);
      if c == client {
        if flag != at.flags[client] {
          FlipStaysInStep(at.queues[c], at.flags[c], client.callsign);
        }
      } else if v'.queues[c] != at.queues[c] {
        OtherStaysInStep(at.queues[c], at.flags[c], packet);
      }
    }
  }

  /** No packet of a client is a $SF packet. */
  lemma AcceptedIsNotSendFast(packet: string, callsign: string, t: PacketType)
    requires VerifyPacket(packet, callsign) == Accepted(t)
    ensures !IsSendFast(packet)
  {
    hide VerifyPacket, GetPacketType, IsSendFast, CountFields, GetSourceCallsign, MinFields;
    AcceptedHas(packet, callsign, t);
    TypeMeansPrefix(packet, t);
    var prefix := GetPacketPrefix(t);
    assert forall k :: 0 <= k < |prefix| ==> packet[k] == prefix[k];
    assert packet[..3] == [packet[0], packet[1], packet[2]];
    StartsWith(packet);
  }

  /** Whatever a client sends, the $SF packets queued for every live client still alternate 1, 0, 1, ...,
      the last one saying what its flag is. */
  lemma HandledKeeps(earth: Earth, numbers: Numbers, v: View, v': View, client: Client, packet: string, around: Surroundings)
    requires Known(v, client) && AllInStep(v) && Handled(earth, numbers, v, v', client, packet, around)
    ensures AllInStep(v')
  {
    hide VerifyPacket, AcceptedHandled, IsSendFast, Replied, Gentle, AllInStep, ErrorPacket;
    match VerifyPacket(packet, client.callsign)
    case Rejected(code, message) =>
      NoErrorIsSendFast();
      RepliedIsGentle(v, v', client, ErrorPacket(code, message));
      GentleKeeps(v, v');
    case Accepted(t) =>
      AcceptedIsNotSendFast(packet, client.callsign, t);
      AcceptedKeeps(earth, numbers, v, v', client, packet, t, around);
  }

  lemma AcceptedKeeps(earth: Earth, numbers: Numbers, v: View, v': View, client: Client, packet: string, t: PacketType,
                      around: Surroundings)
    requires Known(v, client) && AllInStep(v) && !IsSendFast(packet) && |packet| >= 3
    requires AcceptedHandled(earth, numbers, v, v', client, packet, t, around)
    ensures AllInStep(v')
  {
    hide IsSendFast, Gentle, AllInStep, Field, Known, Direct, TextSent, FastPositionSent, SignedOff, ControllerRequestSent;
    hide QueryHandled, QueryForwarded, KillHandled, ChallengeAnswered, HandoffSent, WeatherAnswered, AtcAnswered;
    hide PlanFiled, PlanAmended, PilotReported, ControllerReported, Replied, Broadcast;
    ForwardsAreGentle(earth, v, v', client, packet);
    match t {
      case PilotPosition => PilotReportKeeps(earth, numbers, v, v', client, packet);
      case ATCPosition => ControllerReportIsGentle(earth, numbers, v, v', client, packet);
      case ClientQuery | ClientQueryResponse => QueryIsGentle(earth, v, v', client, packet, t, around);
      case DeleteATC | DeletePilot => SignOffIsGentle(v, v', client, packet);
      case AuthChallenge => ChallengeAnswerIsGentle(v, v', client, around);
      case MetarRequest => WeatherAnswerIsGentle(v, v', client, packet, around);
      case KillRequest => KillIsGentle(v, v', client, packet);
      case Squawkbox => GentleForwards(v, v', client);
      case FlightPlan => FilingIsGentle(v, v', client, packet);
      case FlightPlanAmendment => AmendmentIsGentle(v, v', client, packet);
      case _ =>
    }
    if !t.PilotPosition? {
      GentleKeeps(v, v');
    }
  }

  // ----- one packet -----

  lemma AcceptedFacts(packet: string, callsign: string, t: PacketType)
    requires VerifyPacket(packet, callsign) == Accepted(t)
    ensures |packet| >= 3 && CountFields(packet) >= MinFields(t)
  {
    AcceptedHas(packet, callsign, t);
  }

  /** The handler of an accepted packet. */
  method HandleAccepted(server: Server, client: Client, packet: string, t: PacketType, around: Surroundings, ghost v: View)
    requires server.Shows(v, client) && VerifyPacket(packet, client.callsign) == Accepted(t)
    modifies server.postOffice`tree, server.postOffice.clientMap.Values
    ensures server.postOffice.Valid()
    ensures |packet| >= 3
    ensures AcceptedHandled(server.postOffice.earth, server.numbers, v, ViewOf(server.postOffice), client, packet, t, around)
  {
    hide PostOffice.Valid, Decide, VerifyPacket, ViewOf, Known, Performed, CountFields, Field;
    hide PilotReported, ControllerReported, PlanFiled, PlanAmended, TextSent, FastPositionSent, SignedOff, Direct;
    hide ControllerRequestSent, QueryHandled, WeatherAnswered, KillHandled, ChallengeAnswered, HandoffSent;
    server.IsRegistered(v, client);
    AcceptedFacts(packet, client.callsign, t);
    if t.PilotPosition? {
      server.HandlePilotPosition(client, packet, v);
    } else if t.ATCPosition? {
      server.HandleATCPosition(client, packet, v);
    } else if t.FlightPlan? {
      server.HandleFileFlightplan(client, packet, v);
    } else if t.FlightPlanAmendment? {
      server.HandleAmendFlightplan(client, packet, v);
    } else {
      Route(server, client, packet, t, around, v);
    }
  }

  /** The handlers that decide where a packet goes. */
  method Route(server: Server, client: Client, packet: string, t: PacketType, around: Surroundings, ghost v: View)
    requires server.Shows(v, client) && VerifyPacket(packet, client.callsign) == Accepted(t)
    requires !t.PilotPosition? && !t.ATCPosition? && !t.FlightPlan? && !t.FlightPlanAmendment?
    modifies client`closestVelocityClientDistance, server.postOffice.clientMap.Values`queued
    modifies server.postOffice.clientMap.Values`cancelled
    ensures server.postOffice.Valid()
    ensures |packet| >= 3
    ensures AcceptedHandled(server.postOffice.earth, server.numbers, v, ViewOf(server.postOffice), client, packet, t, around)
  {
    hide PostOffice.Valid, Decide, VerifyPacket, ViewOf, Known, Performed, AcceptedHandled;
    server.IsRegistered(v, client);
    SenderIsIn(server.postOffice, v, client, around.challenged);
    var action := Decide(SenderOf(client, around.challenged), packet, t, server.numbers);
    server.Perform(client, packet, action, around, v);
    DecidedIsHandled(server.postOffice.earth, server.numbers, v, ViewOf(server.postOffice), client, packet, t, action, around);
  }

  /** One round of the event loop for a registered client, whatever bytes it sent: the registry stays valid,
      the packet does what its fields say, and the $SF packets queued for every live client go on
      alternating. */
  method HandlePacket(server: Server, client: Client, packet: string, around: Surroundings, ghost v: View)
    requires server.Shows(v, client)
    modifies server.postOffice`tree, server.postOffice.clientMap.Values
    ensures server.postOffice.Valid()
    ensures Handled(server.postOffice.earth, server.numbers, v, ViewOf(server.postOffice), client, packet, around)
    ensures AllInStep(v) ==> AllInStep(ViewOf(server.postOffice))
  {
    hide PostOffice.Valid, VerifyPacket, ViewOf, Known, AcceptedHandled, AllInStep, Replied, ErrorPacket;
    server.IsRegistered(v, client);
    var verdict := VerifyPacket(packet, client.callsign);
    if verdict.Rejected? {
      server.SendError(client, verdict.code, verdict.message, v);
    } else {
      HandleAccepted(server, client, packet, verdict.packetType, around, v);
    }
    if AllInStep(v) {
      HandledKeeps(server.postOffice.earth, server.numbers, v, ViewOf(server.postOffice), client, packet, around);
    }
  }

  // ----- coming and going -----

  /** These clients have the queues and flags of this view. */
  ghost predicate AsIn(clients: set<Client>, v: View)
    reads clients`queued, clients`sendFastEnabled, clients`cancelled
  {
    forall c :: c in clients ==>
      && c in v.queues && c in v.flags
      && c.queued == v.queues[c] && c.sendFastEnabled == v.flags[c] && c.cancelled == (c in v.cancelled)
  }

  lemma ViewMap(postOffice: PostOffice, v: View)
    requires v == ViewOf(postOffice)
    ensures v.clientMap == postOffice.clientMap
  {
  }

  lemma RegisteredIsIn(postOffice: PostOffice, client: Client)
    requires postOffice.Registered(client)
    ensures client in postOffice.clientMap.Values
  {
  }

  lemma AsInNow(postOffice: PostOffice)
    ensures AsIn(postOffice.clientMap.Values, ViewOf(postOffice))
  {
  }

  lemma NewcomerKeeps(postOffice: PostOffice, clients: set<Client>, v: View, client: Client)
    requires AllInStep(v) && AsIn(clients, v)
    requires postOffice.clientMap.Values <= clients + {client}
    requires client in clients || (client.queued == [] && !client.sendFastEnabled)
    ensures AllInStep(ViewOf(postOffice))
  {
    assert InStep([], false);
    hide InStep;
    forall c | c in postOffice.clientMap.Values && !c.cancelled ensures InStep(c.queued, c.sendFastEnabled) {
      if c in clients {
        assert InStep(v.queues[c], v.flags[c]);
      }
    }
  }

  lemma ValuesGrow(m: map<string, Client>, key: string, c: Client)
    ensures m[key := c].Values <= m.Values + {c}
    ensures (m - {key}).Values <= m.Values
  {
    assert forall k :: k in m - {key} ==> (m - {key})[k] == m[k];
    assert forall k :: k in m[key := c] ==> m[key := c][k] == if k == key then c else m[k];
  }

  /** A new client is in step before its first packet. */
  method Admit(postOffice: PostOffice, client: Client, ghost v: View) returns (ok: bool)
    requires postOffice.Valid() && v == ViewOf(postOffice) && AllInStep(v)
    requires client.queued == [] && !client.sendFastEnabled
    modifies postOffice
    ensures postOffice.Valid() && AllInStep(ViewOf(postOffice))
    ensures ok <==> client.callsign !in v.clientMap
  {
    hide *;
    ViewMap(postOffice, v);
    AsInNow(postOffice);
    ValuesGrow(postOffice.clientMap, client.callsign, client);
    ghost var clients := postOffice.clientMap.Values;
    ok := postOffice.Register(client);
    NewcomerKeeps(postOffice, clients, v, client);
  }

  /** Those who stay are still in step when one leaves. */
  method Discharge(postOffice: PostOffice, client: Client, ghost v: View)
    requires postOffice.Valid() && v == ViewOf(postOffice) && AllInStep(v) && postOffice.Registered(client)
    modifies postOffice
    ensures postOffice.Valid() && AllInStep(ViewOf(postOffice)) && !postOffice.Registered(client)
  {
    hide *;
    RegisteredIsIn(postOffice, client);
    AsInNow(postOffice);
    ValuesGrow(postOffice.clientMap, client.callsign, client);
    ghost var clients := postOffice.clientMap.Values;
    postOffice.Release(client);
    NewcomerKeeps(postOffice, clients, v, client);
  }
}

/** Packet typing and verification (openaimp-fsd/fsd/packet.go) and the callsign and facility rules
    of openaimp-fsd/fsd/util.go. */
module Packets {
  import opened Fields

  datatype PacketType =
    | Unknown
    | TextMessage
    | PilotPosition
    | PilotPositionFast
    | PilotPositionSlow
    | PilotPositionStopped
    | ATCPosition
    | DeleteATC
    | DeletePilot
    | ClientQuery
    | ClientQueryResponse
    | ProController
    | Squawkbox
    | MetarRequest
    | KillRequest
    | AuthChallenge
    | HandoffRequest
    | HandoffAccept
    | FlightPlan
    | FlightPlanAmendment

  function SourceCallsignFieldIndex(t: PacketType): nat {
    if t.PilotPosition? then 1 else 0
  }

  /** The packet types that are told apart by three characters. */
  function LongType(tag: string): PacketType {
    match tag
    case "#DA" => DeleteATC
    case "#DP" => DeletePilot
    case "#TM" => TextMessage
    case "#SL" => PilotPositionSlow
    case "#ST" => PilotPositionStopped
    case "#PC" => ProController
    case "#SB" => Squawkbox
    case "$CQ" => ClientQuery
    case "$CR" => ClientQueryResponse
    case "$AX" => MetarRequest
    case "$!!" => KillRequest
    case "$ZC" => AuthChallenge
    case "$HO" => HandoffRequest
    case "$HA" => HandoffAccept
    case "$FP" => FlightPlan
    case "$AM" => FlightPlanAmendment
    case _ => Unknown
  }

  function GetPacketType(packet: string): PacketType
    requires |packet| >= 3
  {
    if packet[0] == '^' then PilotPositionFast
    else if packet[0] == '@' then PilotPosition
    else if packet[0] == '%' then ATCPosition
    else if packet[0] == '#' || packet[0] == '$' then LongType(packet[..3])
    else Unknown
  }

  function GetPacketPrefix(t: PacketType): string {
    match t
    case PilotPositionFast => "^"
    case PilotPosition => "@"
    case ATCPosition => "%"
    case DeleteATC => "#DA"
    case DeletePilot => "#DP"
    case TextMessage => "#TM"
    case PilotPositionSlow => "#SL"
    case PilotPositionStopped => "#ST"
    case ProController => "#PC"
    case Squawkbox => "#SB"
    case ClientQuery => "$CQ"
    case ClientQueryResponse => "$CR"
    case MetarRequest => "$AX"
    case KillRequest => "$!!"
    case AuthChallenge => "$ZC"
    case HandoffRequest => "$HO"
    case HandoffAccept => "$HA"
    case FlightPlan => "$FP"
    case FlightPlanAmendment => "$AM"
    case Unknown => ""
  }

  /** The typing and the prefix table are inverse: a packet has a known type exactly when it begins
      with that type's prefix. */
  lemma TypeMeansPrefix(packet: string, t: PacketType)
    requires |packet| >= 3 && t != Unknown
    ensures GetPacketType(packet) == t <==> GetPacketPrefix(t) <= packet
  {
    var tag := packet[..3];
    assert |GetPacketPrefix(t)| == 3 ==> (GetPacketPrefix(t) <= packet <==> tag == GetPacketPrefix(t));
    assert packet[0] == tag[0];
  }

  function MinFields(t: PacketType): int {
    match t
    case PilotPosition => 9
    case PilotPositionFast | PilotPositionSlow => 13
    case PilotPositionStopped => 7
    case ATCPosition => 7
    case DeleteATC | DeletePilot => 1
    case TextMessage => 3
    case ProController => 4
    case Squawkbox => 3
    case ClientQuery => 3
    case ClientQueryResponse => 3
    case MetarRequest => 4
    case KillRequest => 3
    case AuthChallenge => 3
    case HandoffRequest | HandoffAccept => 3
    case FlightPlan => 17
    case FlightPlanAmendment => 18
    case Unknown => -1
  }

  function GetSourceCallsign(packet: string, t: PacketType): string {
    CutPrefix(Field(packet, SourceCallsignFieldIndex(t)), GetPacketPrefix(t))
  }

  const SYNTAX_ERROR := 4
  const SOURCE_INVALID_ERROR := 5
  const NO_SUCH_CALLSIGN_ERROR := 7
  const INVALID_CONTROL_ERROR := 14
  const INVALID_POSITION_FOR_RATING_ERROR := 15
  const UNAUTHORIZED_SOFTWARE_ERROR := 16

  datatype Verdict = Accepted(packetType: PacketType) | Rejected(code: nat, message: string)

  /** verifyPacket: the sanity checks in the order the server makes them. */
  function VerifyPacket(packet: string, callsign: string): Verdict {
    var numFields := CountFields(packet);
    if |packet| < 8 || numFields < 3 then Rejected(SYNTAX_ERROR, "Packet too short")
    else
      var t := GetPacketType(packet);
      if t == Unknown then Rejected(SYNTAX_ERROR, "Unknown packet type")
      else if GetSourceCallsign(packet, t) != callsign then Rejected(SOURCE_INVALID_ERROR, "Source invalid")
      else if numFields < MinFields(t) then
        Rejected(SYNTAX_ERROR, "Minimum field count requirement not satisfied")
      else Accepted(t)
  }

  predicate IsCallsignChar(c: char) {
    '0' <= c <= '9' || 'A' <= c <= 'Z' || c == '-' || c == '_'
  }

  predicate IsValidClientCallsign(callsign: string) {
    && 2 <= |callsign| <= 10
    && (forall i :: 0 <= i < |callsign| ==> IsCallsignChar(callsign[i]))
    && callsign !in ["SERVER", "CLIENT", "FP"]
  }

  /** The callsigns a client may have, by their byte codes: two to ten digits, capitals, hyphens and
      underscores, three words excepted. */
  lemma CallsignRules(callsign: string)
    ensures IsValidClientCallsign(callsign) <==>
      && 2 <= |callsign| <= 10 && callsign != "SERVER" && callsign != "CLIENT" && callsign != "FP"
      && forall c :: c in callsign ==> var n := c as int; 48 <= n <= 57 || 65 <= n <= 90 || n == 45 || n == 95
  {
    var reserved := ["SERVER", "CLIENT", "FP"];
    assert reserved[0] in reserved && reserved[1] in reserved && reserved[2] in reserved;
    assert (forall i :: 0 <= i < |callsign| ==> IsCallsignChar(callsign[i]))
       <==> forall c :: c in callsign ==> IsCallsignChar(c);
  }

  const OBSERVER := 1
  const STUDENT1 := 2
  const STUDENT2 := 3
  const STUDENT3 := 4
  const CONTROLLER1 := 5
  const SUPERVISOR := 11

  /** The lowest rating for each facility type above observer; 0 for an unknown type. */
  function MinRating(facilityType: int): int {
    match facilityType
    case 1 => CONTROLLER1
    case 2 => STUDENT1
    case 3 => STUDENT1
    case 4 => STUDENT2
    case 5 => STUDENT3
    case 6 => CONTROLLER1
    case _ => 0
  }

  predicate IsAllowedFacilityType(rating: int, facilityType: int) {
    facilityType == 0 || (MinRating(facilityType) != 0 && rating >= MinRating(facilityType))
  }

  /** The ratings each facility type takes: any for none, Student 1 for delivery and ground, Student 2 for
      tower, Student 3 for approach, Controller 1 for flight service and centre; no other type is allowed. */
  lemma FacilityRatings(rating: int, facilityType: int)
    ensures IsAllowedFacilityType(rating, facilityType) <==>
      || facilityType == 0
      || (2 <= facilityType <= 3 && rating >= 2)
      || (facilityType == 4 && rating >= 3)
      || (facilityType == 5 && rating >= 4)
      || (facilityType in {1, 6} && rating >= 5)
  {
  }
}

/** What verifyPacket accepts, without reference to the order of its checks. */
module Acceptance {
  import opened Fields
  import opened Packets

  /** The sender field: the prefix and the callsign, or for a pilot position the bare callsign of
      field 1, in front of which a stray prefix is also tolerated. */
  ghost predicate NamesSender(packet: string, callsign: string, t: PacketType) {
    if t.PilotPosition? then Field(packet, 1) in {callsign, "@" + callsign}
    else Field(packet, 0) == GetPacketPrefix(t) + callsign
  }

  lemma CutPrefixMeans(s: string, prefix: string, rest: string)
    ensures CutPrefix(s, prefix) == rest <==> s == prefix + rest || (!(prefix <= s) && s == rest)
  {
    if prefix <= s {
      assert s == prefix + s[|prefix|..];
    }
    assert (prefix + rest)[|prefix|..] == rest;
  }

  /** The first field of a packet keeps its type's prefix. */
  lemma FirstFieldHasPrefix(packet: string, t: PacketType)
    requires |packet| >= 3 && t != Unknown && GetPacketPrefix(t) <= packet
    ensures GetPacketPrefix(t) <= Field(packet, 0)
  {
    hide Split, IndexByte;
    var prefix := GetPacketPrefix(t);
    assert ':' !in prefix && '\r' !in prefix && '\n' !in prefix;
    FirstFieldIs(packet);
    var i := IndexByte(packet, ':');
    var first := if i == -1 then packet else packet[..i];
    assert forall k :: 0 <= k < |prefix| ==> packet[k] == prefix[k];
    assert prefix <= first;
    PrefixSurvives(first, prefix);
  }

  lemma FirstFieldIs(packet: string)
    ensures var i := IndexByte(packet, ':'); Split(packet)[0] == if i == -1 then packet else packet[..i]
  {
  }

  lemma PrefixSurvives(s: string, prefix: string)
    requires prefix <= s && '\r' !in prefix && '\n' !in prefix
    ensures prefix <= CutSuffix(s, CRLF)
  {
    if HasSuffix(s, CRLF) {
      assert s[|s| - 2] == s[|s| - 2..][0] == '\r' && s[|s| - 1] == s[|s| - 2..][1] == '\n';
      assert forall k :: 0 <= k < |prefix| ==> prefix[k] == s[k];
    }
  }

  lemma SourceMeansSender(packet: string, callsign: string, t: PacketType)
    requires IsValidClientCallsign(callsign)
    requires |packet| >= 3 && t != Unknown && GetPacketPrefix(t) <= packet
    ensures GetSourceCallsign(packet, t) == callsign <==> NamesSender(packet, callsign, t)
  {
    hide Field;
    CutPrefixMeans(Field(packet, SourceCallsignFieldIndex(t)), GetPacketPrefix(t), callsign);
    if t == PilotPosition {
      assert IsCallsignChar(callsign[0]);
    } else {
      FirstFieldHasPrefix(packet, t);
    }
  }

  lemma EnoughMeans(t: PacketType, n: nat)
    ensures EnoughFields(t, n) <==> n >= 3 && n >= MinFields(t)
  {
  }

  /** The packet begins like one of a known type. */
  ghost predicate HasKnownPrefix(packet: string) {
    exists t :: t != Unknown && GetPacketPrefix(t) <= packet
  }

  /** The error a rejected packet is answered with. */
  lemma RejectedExactly(packet: string, callsign: string)
    requires IsValidClientCallsign(callsign) && VerifyPacket(packet, callsign).Rejected?
    ensures VerifyPacket(packet, callsign)
         == if |packet| < 8 || |Split(packet)| < 3 then Rejected(4, "Packet too short")
            else if !HasKnownPrefix(packet) then Rejected(4, "Unknown packet type")
            else if exists t :: t != Unknown && GetPacketPrefix(t) <= packet && !NamesSender(packet, callsign, t) then
              Rejected(5, "Source invalid")
            else Rejected(4, "Minimum field count requirement not satisfied")
  {
    SplitIsExact(packet);
    hide NamesSender, GetSourceCallsign, GetPacketPrefix, MinFields, Split, GetPacketType, IsValidClientCallsign;
    if |packet| >= 8 {
      forall t | t != Unknown && GetPacketPrefix(t) <= packet
        ensures t == GetPacketType(packet)
        ensures NamesSender(packet, callsign, t) <==> GetSourceCallsign(packet, t) == callsign
      {
        TypeMeansPrefix(packet, t);
        SourceMeansSender(packet, callsign, t);
      }
      if GetPacketType(packet) != Unknown {
        TypeMeansPrefix(packet, GetPacketType(packet));
      }
    }
  }

  /** The number of fields each type needs. */
  predicate EnoughFields(t: PacketType, n: nat) {
    && n >= 3
    && (t == ProController || t == MetarRequest ==> n >= 4)
    && (t == ATCPosition || t == PilotPositionStopped ==> n >= 7)
    && (t == PilotPosition ==> n >= 9)
    && (t == PilotPositionFast || t == PilotPositionSlow ==> n >= 13)
    && (t == FlightPlan ==> n >= 17)
    && (t == FlightPlanAmendment ==> n >= 18)
  }

  /** A packet is accepted as type t exactly when it is long enough, begins with t's prefix, names
      its sender and has at least three fields and t's minimum. */
  lemma AcceptedExactly(packet: string, callsign: string, t: PacketType)
    requires IsValidClientCallsign(callsign)
    ensures VerifyPacket(packet, callsign) == Accepted(t)
       <==> && |packet| >= 8 && t != Unknown && GetPacketPrefix(t) <= packet
            && EnoughFields(t, |Split(packet)|)
            && NamesSender(packet, callsign, t)
  {
    hide NamesSender, GetSourceCallsign, GetPacketPrefix, GetPacketType, MinFields, EnoughFields, Split, IsValidClientCallsign;
    EnoughMeans(t, |Split(packet)|);
    SplitIsExact(packet);
    if |packet| >= 8 && t != Unknown {
      TypeMeansPrefix(packet, t);
      if GetPacketPrefix(t) <= packet {
        SourceMeansSender(packet, callsign, t);
      }
    }
  }
}

/** Flight-plan packets: the section a handler extracts and the packets it rebuilds. */
module FlightPlans {
  import opened Fields
  import opened Packets

  /** The packet from its field k on, without one trailing CRLF. */
  function Section(packet: string, k: nat): string {
    CutSuffix(From(packet, k), CRLF)
  }

  /** The plan of a $FP or $AM packet: all but the leading fields. */
  function PlanSection(packet: string): string
    requires |packet| >= 3
  {
    Section(packet, if GetPacketType(packet).FlightPlan? then 2 else 3)
  }

  /** extractFlightplanInfoSection. */
  method ExtractFlightplanInfoSection(packet: string) returns (info: string)
    requires |packet| >= 3
    ensures info == PlanSection(packet)
  {
    var rest;
    match GetPacketType(packet) {
      case FlightPlan => rest := Rebase(packet, 2);
      case _ => rest := Rebase(packet, 3);
    }
    info := CutSuffix(rest, CRLF);
  }

  function BuildFileFlightplanPacket(source: string, recipient: string, info: string): string {
    "$FP" + source + ":" + recipient + ":" + info + CRLF
  }

  function BuildAmendFlightplanPacket(source: string, recipient: string, target: string, info: string): string {
    "$AM" + source + ":" + recipient + ":" + target + ":" + info + CRLF
  }

  lemma Regroup(a: string, b: string, tail: string)
    ensures a + ":" + b + ":" + tail == a + ":" + (b + ":" + tail)
  {
  }

  lemma TwoColons(a: string, b: string, tail: string)
    requires ':' !in a && ':' !in b
    ensures Split(a + ":" + b + ":" + tail) == [a, b] + Split(tail)
  {
    var rest := b + ":" + tail;
    FirstColon(b, tail);
    FirstColon(a, rest);
    Regroup(a, b, tail);
  }

  lemma ThreeColons(a: string, b: string, c: string, tail: string)
    requires ':' !in a && ':' !in b && ':' !in c
    ensures Split(a + ":" + b + ":" + c + ":" + tail) == [a, b, c] + Split(tail)
  {
    var rest := c + ":" + tail;
    FirstColon(c, tail);
    TwoColons(a, b, rest);
    Regroup(a + ":" + b, c, tail);
  }

  /** How a built $FP packet splits when its addresses contain no colon. */
  lemma FileSplits(source: string, recipient: string, info: string)
    requires ':' !in source && ':' !in recipient
    ensures Split(BuildFileFlightplanPacket(source, recipient, info))
         == ["$FP" + source, recipient] + Split(info + CRLF)
  {
    hide Split;
    var head := "$FP" + source;
    TwoColons(head, recipient, info + CRLF);
    assert BuildFileFlightplanPacket(source, recipient, info) == head + ":" + recipient + ":" + (info + CRLF);
  }

  lemma AmendSplits(source: string, recipient: string, target: string, info: string)
    requires ':' !in source && ':' !in recipient && ':' !in target
    ensures Split(BuildAmendFlightplanPacket(source, recipient, target, info))
         == ["$AM" + source, recipient, target] + Split(info + CRLF)
  {
    hide Split;
    var head := "$AM" + source;
    ThreeColons(head, recipient, target, info + CRLF);
    assert BuildAmendFlightplanPacket(source, recipient, target, info)
        == head + ":" + recipient + ":" + target + ":" + (info + CRLF);
  }

  lemma BuiltTypes(source: string, recipient: string, target: string, info: string)
    ensures GetPacketType(BuildFileFlightplanPacket(source, recipient, info)) == FlightPlan
    ensures GetPacketType(BuildAmendFlightplanPacket(source, recipient, target, info)) == FlightPlanAmendment
  {
    TypeMeansPrefix(BuildFileFlightplanPacket(source, recipient, info), FlightPlan);
    TypeMeansPrefix(BuildAmendFlightplanPacket(source, recipient, target, info), FlightPlanAmendment);
  }

  lemma SectionAfter(packet: string, lead: seq<string>, info: string)
    requires Split(packet) == lead + Split(info + CRLF)
    ensures Section(packet, |lead|) == info
  {
    assert Split(packet)[|lead|..] == Split(info + CRLF);
    SplitIsExact(info + CRLF);
    assert HasSuffix(info + CRLF, CRLF);
  }

  /** The colons of a section are those after its leading ones. */
  lemma SectionColons(packet: string, k: nat)
    requires CountFields(packet) > k
    ensures CountByte(Section(packet, k), ':') == CountFields(packet) - 1 - k
  {
    hide Split, Join, CountByte;
    SplitIsExact(packet);
    var rest := From(packet, k);
    JoinSplits(Split(packet)[k..]);
    SplitIsExact(rest);
    if HasSuffix(rest, CRLF) {
      var cut := CutSuffix(rest, CRLF);
      assert rest == cut + CRLF;
      NoColonInCrlf(cut);
    }
  }

  lemma NoColonInCrlf(s: string)
    ensures CountByte(s + CRLF, ':') == CountByte(s, ':')
  {
    CountAppend(s, CRLF, ':');
    CountAbsent(CRLF, ':');
  }

  /** A section can equal the text written after k colons only if those are all the colons before it. */
  lemma SectionOfBuilt(head: string, k: nat, info: string)
    requires CountByte(head, ':') >= k
    ensures CountByte(Section(head + info + CRLF, k), ':') == CountByte(info, ':') + CountByte(head, ':') - k
  {
    var packet := head + info + CRLF;
    NoColonInCrlf(head + info);
    CountAppend(head, info, ':');
    SectionColons(packet, k);
  }

  lemma CountColonAfter(a: string)
    ensures CountByte(a + ":", ':') == CountByte(a, ':') + 1
  {
    CountAppend(a, ":", ':');
  }

  lemma CountLead(tag: string, source: string, recipient: string)
    requires ':' !in tag
    ensures CountByte(tag + source + ":" + recipient + ":", ':')
         == CountByte(source, ':') + CountByte(recipient, ':') + 2
  {
    CountColonAfter(tag + source + ":" + recipient);
    CountAppend(tag + source + ":", recipient, ':');
    CountColonAfter(tag + source);
    CountAppend(tag, source, ':');
    CountAbsent(tag, ':');
  }

  /** Extracting from a built $FP packet gives the plan back exactly when the addresses contain no
      colon, whatever the plan text. */
  lemma FileRoundTrip(source: string, recipient: string, info: string)
    ensures PlanSection(BuildFileFlightplanPacket(source, recipient, info)) == info
       <==> ':' !in source && ':' !in recipient
  {
    var packet := BuildFileFlightplanPacket(source, recipient, info);
    BuiltTypes(source, recipient, "", info);
    assert PlanSection(packet) == Section(packet, 2);
    FileSectionRoundTrip(source, recipient, info);
  }

  lemma FileSectionRoundTrip(source: string, recipient: string, info: string)
    ensures Section(BuildFileFlightplanPacket(source, recipient, info), 2) == info
       <==> ':' !in source && ':' !in recipient
  {
    if ':' !in source && ':' !in recipient {
      FileSplits(source, recipient, info);
      SectionAfter(BuildFileFlightplanPacket(source, recipient, info), ["$FP" + source, recipient], info);
    } else {
      CountLead("$FP", source, recipient);
      SectionOfBuilt("$FP" + source + ":" + recipient + ":", 2, info);
      CountAbsent(source, ':');
      CountAbsent(recipient, ':');
    }
  }

  lemma AmendRoundTrip(source: string, recipient: string, target: string, info: string)
    ensures PlanSection(BuildAmendFlightplanPacket(source, recipient, target, info)) == info
       <==> ':' !in source && ':' !in recipient && ':' !in target
  {
    var packet := BuildAmendFlightplanPacket(source, recipient, target, info);
    BuiltTypes(source, recipient, target, info);
    assert PlanSection(packet) == Section(packet, 3);
    AmendSectionRoundTrip(source, recipient, target, info);
  }

  lemma AmendSectionRoundTrip(source: string, recipient: string, target: string, info: string)
    ensures Section(BuildAmendFlightplanPacket(source, recipient, target, info), 3) == info
       <==> ':' !in source && ':' !in recipient && ':' !in target
  {
    if ':' !in source && ':' !in recipient && ':' !in target {
      AmendSplits(source, recipient, target, info);
      SectionAfter(BuildAmendFlightplanPacket(source, recipient, target, info), ["$AM" + source, recipient, target], info);
    } else {
      var lead := "$AM" + source + ":" + recipient + ":";
      CountLead("$AM", source, recipient);
      CountAppend(lead, target, ':');
      CountColonAfter(lead + target);
      SectionOfBuilt(lead + target + ":", 3, info);
      CountAbsent(source, ':');
      CountAbsent(recipient, ':');
      CountAbsent(target, ':');
    }
  }

  lemma SuffixInTail(head: string, tail: string)
    ensures CutSuffix(head + ":" + tail, CRLF) == head + ":" + CutSuffix(tail, CRLF)
  {
    var s := head + ":" + tail;
    if |tail| >= 2 {
      assert s[|s| - 2..] == tail[|tail| - 2..];
    } else if |s| >= 2 {
      assert s[|s| - 2..][1 - |tail|] == s[|head|] == ':';
    }
  }

  /** t has the fields of s, up to a trailing CRLF in each. */
  ghost predicate SameFields(t: string, s: string) {
    && |Split(t)| == |Split(s)|
    && forall k :: 0 <= k < |Split(s)| ==> CutSuffix(Split(t)[k], CRLF) == CutSuffix(Split(s)[k], CRLF)
  }

  lemma SameFieldsAfter(head: string, t: string, s: string)
    requires ':' !in head && SameFields(t, s)
    ensures SameFields(head + ":" + t, head + ":" + s)
  {
    FirstColon(head, t);
    FirstColon(head, s);
  }

  /** Cutting a trailing CRLF and adding one back keeps every field. */
  lemma {:induction false} Terminated(s: string)
    ensures SameFields(CutSuffix(s, CRLF) + CRLF, s)
    decreases |s|
  {
    var i := IndexByte(s, ':');
    if i == -1 {
      TerminatedField(s);
    } else {
      var head, tail := s[..i], s[i + 1..];
      assert s == head + ":" + tail;
      Terminated(tail);
      TerminatedTail(head, tail);
    }
  }

  lemma TerminatedTail(head: string, tail: string)
    requires ':' !in head && SameFields(CutSuffix(tail, CRLF) + CRLF, tail)
    ensures SameFields(CutSuffix(head + ":" + tail, CRLF) + CRLF, head + ":" + tail)
  {
    hide CutSuffix, SameFields;
    var t := CutSuffix(tail, CRLF);
    SuffixInTail(head, tail);
    SameFieldsAfter(head, t + CRLF, tail);
    assert head + ":" + t + CRLF == head + ":" + (t + CRLF);
  }

  lemma TerminatedField(s: string)
    requires ':' !in s
    ensures SameFields(CutSuffix(s, CRLF) + CRLF, s)
  {
    var t := CutSuffix(s, CRLF) + CRLF;
    assert ':' !in t && t[|t| - 2..] == CRLF && t[..|t| - 2] == CutSuffix(s, CRLF);
    assert Split(t) == [t] && Split(s) == [s];
  }

  /** What the plan part of an accepted packet becomes when it is written out again. */
  lemma PlanRewritten(packet: string, k: nat)
    requires CountFields(packet) > k
    ensures var plan := Split(Section(packet, k) + CRLF);
            && |plan| == |Split(packet)| - k
            && forall q :: 0 <= q < |plan| ==> CutSuffix(plan[q], CRLF) == CutSuffix(Split(packet)[k + q], CRLF)
  {
    SplitIsExact(packet);
    JoinSplits(Split(packet)[k..]);
    Terminated(From(packet, k));
  }

  /** The packet `rebuilt` carries new leading fields and the rewritten plan of `packet`. */
  ghost predicate Rewrites(rebuilt: string, packet: string, lead: seq<string>) {
    CountFields(packet) > |lead| && Split(rebuilt) == lead + Split(Section(packet, |lead|) + CRLF)
  }

  lemma RewrittenCount(packet: string, rebuilt: string, lead: seq<string>)
    requires Rewrites(rebuilt, packet, lead)
    ensures CountFields(rebuilt) == CountFields(packet)
  {
    PlanRewritten(packet, |lead|);
    SplitIsExact(packet);
    SplitIsExact(rebuilt);
  }

  lemma RewrittenField(packet: string, rebuilt: string, lead: seq<string>, k: nat)
    requires Rewrites(rebuilt, packet, lead) && k >= |lead|
    ensures Field(rebuilt, k) == Field(packet, k)
  {
    hide Split, Join, CountFields, CountByte, CutSuffix, Section;
    var plan := Split(Section(packet, |lead|) + CRLF);
    PlanRewritten(packet, |lead|);
    SplitIsExact(packet);
    var last := Min(k, |Split(packet)| - 1);
    assert Split(rebuilt)[last] == plan[last - |lead|];
  }

  lemma CountBound(s: string)
    ensures CountFields(s) <= |s| + 1
  {
    if s != [] {
      CountBound(s[1..]);
    }
  }

  lemma CallsignText(callsign: string)
    requires IsValidClientCallsign(callsign)
    ensures ':' !in callsign && '\n' !in callsign && callsign != ""
  {
  }

  lemma NoTrailingCrlf(s: string)
    requires '\n' !in s
    ensures CutSuffix(s, CRLF) == s
  {
    if |s| >= 2 {
      assert s[|s| - 1] == s[|s| - 2..][1];
    }
  }

  /** The sender of a packet whose first field is the type's prefix and a callsign. */
  lemma SourceOfBuilt(packet: string, callsign: string, t: PacketType)
    requires IsValidClientCallsign(callsign) && t in {FlightPlan, FlightPlanAmendment}
    requires Split(packet)[0] == GetPacketPrefix(t) + callsign
    ensures GetSourceCallsign(packet, t) == callsign
  {
    CallsignText(callsign);
    NoTrailingCrlf(GetPacketPrefix(t) + callsign);
  }

  /** A field list that starts with a type's prefix and the sender's callsign is accepted. */
  lemma AcceptedFromSource(packet: string, callsign: string, t: PacketType)
    requires |packet| >= 8 && CountFields(packet) >= 17 && CountFields(packet) >= MinFields(t)
    requires t in {FlightPlan, FlightPlanAmendment} && GetPacketType(packet) == t
    requires GetSourceCallsign(packet, t) == callsign
    ensures VerifyPacket(packet, callsign) == Accepted(t)
  {
  }

  lemma AcceptedHas(packet: string, callsign: string, t: PacketType)
    requires VerifyPacket(packet, callsign) == Accepted(t)
    ensures |packet| >= 8 && GetPacketType(packet) == t && t != Unknown
    ensures CountFields(packet) >= 3 && CountFields(packet) >= MinFields(t)
    ensures GetSourceCallsign(packet, t) == callsign
    ensures t == FlightPlan ==> CountFields(packet) >= 17 && PlanSection(packet) == Section(packet, 2)
    ensures t == FlightPlanAmendment ==> CountFields(packet) >= 18 && PlanSection(packet) == Section(packet, 3)
  {
  }

  /** The broadcast a $FP handler builds from an accepted packet, for any recipient without colons,
      is itself an acceptable $FP packet of the same sender, with as many fields and the same plan. */
  lemma RebuiltFileIsAccepted(packet: string, callsign: string, recipient: string)
    requires IsValidClientCallsign(callsign) && ':' !in recipient
    requires VerifyPacket(packet, callsign) == Accepted(FlightPlan)
    ensures var rebuilt := BuildFileFlightplanPacket(callsign, recipient, PlanSection(packet));
            && VerifyPacket(rebuilt, callsign) == Accepted(FlightPlan)
            && CountFields(rebuilt) == CountFields(packet)
            && PlanSection(rebuilt) == PlanSection(packet)
  {
    hide *;
    AcceptedHas(packet, callsign, FlightPlan);
    CallsignText(callsign);
    var plan := PlanSection(packet);
    var rebuilt := BuildFileFlightplanPacket(callsign, recipient, plan);
    BuiltTypes(callsign, recipient, "", plan);
    FileRoundTrip(callsign, recipient, plan);
    FileRewrites(packet, callsign, recipient);
    RewrittenCount(packet, rebuilt, ["$FP" + callsign, recipient]);
    CountBound(rebuilt);
    AcceptedFromSource(rebuilt, callsign, FlightPlan);
  }

  lemma FileRewrites(packet: string, callsign: string, recipient: string)
    requires IsValidClientCallsign(callsign) && ':' !in recipient && CountFields(packet) > 2
    ensures var rebuilt := BuildFileFlightplanPacket(callsign, recipient, Section(packet, 2));
            && Rewrites(rebuilt, packet, ["$FP" + callsign, recipient])
            && GetSourceCallsign(rebuilt, FlightPlan) == callsign
  {
    CallsignText(callsign);
    FileSplits(callsign, recipient, Section(packet, 2));
    SourceOfBuilt(BuildFileFlightplanPacket(callsign, recipient, Section(packet, 2)), callsign, FlightPlan);
  }

  /** Every plan field of the rebuilt $FP packet is the sender's. */
  lemma RebuiltFileKeepsFields(packet: string, callsign: string, recipient: string, k: nat)
    requires IsValidClientCallsign(callsign) && ':' !in recipient
    requires VerifyPacket(packet, callsign) == Accepted(FlightPlan)
    requires k >= 2
    ensures Field(BuildFileFlightplanPacket(callsign, recipient, PlanSection(packet)), k) == Field(packet, k)
  {
    hide *;
    AcceptedHas(packet, callsign, FlightPlan);
    FileRewrites(packet, callsign, recipient);
    var rebuilt := BuildFileFlightplanPacket(callsign, recipient, Section(packet, 2));
    RewrittenField(packet, rebuilt, ["$FP" + callsign, recipient], k);
  }

  /** The same for amendments: accepted for the same sender, with as many fields and the same plan. */
  lemma RebuiltAmendmentIsAccepted(packet: string, callsign: string, recipient: string)
    requires IsValidClientCallsign(callsign) && ':' !in recipient
    requires VerifyPacket(packet, callsign) == Accepted(FlightPlanAmendment)
    ensures var rebuilt := BuildAmendFlightplanPacket(callsign, recipient, Field(packet, 2), PlanSection(packet));
            && VerifyPacket(rebuilt, callsign) == Accepted(FlightPlanAmendment)
            && CountFields(rebuilt) == CountFields(packet)
            && PlanSection(rebuilt) == PlanSection(packet)
  {
    hide *;
    AcceptedHas(packet, callsign, FlightPlanAmendment);
    CallsignText(callsign);
    FieldHasNoColon(packet, 2);
    var plan, target := PlanSection(packet), Field(packet, 2);
    var rebuilt := BuildAmendFlightplanPacket(callsign, recipient, target, plan);
    BuiltTypes(callsign, recipient, target, plan);
    AmendRoundTrip(callsign, recipient, target, plan);
    AmendRewrites(packet, callsign, recipient, target);
    RewrittenCount(packet, rebuilt, ["$AM" + callsign, recipient, target]);
    CountBound(rebuilt);
    AcceptedFromSource(rebuilt, callsign, FlightPlanAmendment);
  }

  lemma AmendRewrites(packet: string, callsign: string, recipient: string, target: string)
    requires IsValidClientCallsign(callsign) && ':' !in recipient && ':' !in target && CountFields(packet) > 3
    ensures var rebuilt := BuildAmendFlightplanPacket(callsign, recipient, target, Section(packet, 3));
            && Rewrites(rebuilt, packet, ["$AM" + callsign, recipient, target])
            && GetSourceCallsign(rebuilt, FlightPlanAmendment) == callsign
            && Field(rebuilt, 2) == CutSuffix(target, CRLF)
  {
    CallsignText(callsign);
    AmendSplits(callsign, recipient, target, Section(packet, 3));
    SourceOfBuilt(BuildAmendFlightplanPacket(callsign, recipient, target, Section(packet, 3)), callsign, FlightPlanAmendment);
  }

  /** Every plan field of the rebuilt amendment is the sender's. */
  lemma RebuiltAmendmentKeepsFields(packet: string, callsign: string, recipient: string, k: nat)
    requires IsValidClientCallsign(callsign) && ':' !in recipient
    requires VerifyPacket(packet, callsign) == Accepted(FlightPlanAmendment)
    requires k >= 3
    ensures Field(BuildAmendFlightplanPacket(callsign, recipient, Field(packet, 2), PlanSection(packet)), k)
         == Field(packet, k)
  {
    hide *;
    AcceptedHas(packet, callsign, FlightPlanAmendment);
    FieldHasNoColon(packet, 2);
    var target := Field(packet, 2);
    AmendRewrites(packet, callsign, recipient, target);
    var rebuilt := BuildAmendFlightplanPacket(callsign, recipient, target, Section(packet, 3));
    RewrittenField(packet, rebuilt, ["$AM" + callsign, recipient, target], k);
  }

  /** The rebuilt amendment keeps the target callsign exactly when the packet's target does not end in
      two line ends: reading it once more cuts the second. */
  lemma RebuiltAmendmentKeepsTarget(packet: string, callsign: string, recipient: string)
    requires IsValidClientCallsign(callsign) && ':' !in recipient
    requires VerifyPacket(packet, callsign) == Accepted(FlightPlanAmendment)
    ensures |Split(packet)| > 2
    ensures Field(BuildAmendFlightplanPacket(callsign, recipient, Field(packet, 2), PlanSection(packet)), 2)
         == Field(packet, 2)
       <==> !HasSuffix(Split(packet)[2], CRLF + CRLF)
  {
    hide *;
    AcceptedHas(packet, callsign, FlightPlanAmendment);
    FieldHasNoColon(packet, 2);
    SplitIsExact(packet);
    AmendRewrites(packet, callsign, recipient, Field(packet, 2));
    TargetCutTwice(packet);
  }

  /** The fields of an amendment whose target ends in two line ends. */
  const DOUBLED: seq<string> := ["$AMAB", "*A", "X\r\n\r\n"] + seq(15, _ => "")

  /** It is accepted, and the target in its rebuilt packet is another. */
  lemma TargetCanBeCut()
    ensures VerifyPacket(Join(DOUBLED), "AB") == Accepted(FlightPlanAmendment)
    ensures Field(BuildAmendFlightplanPacket("AB", "*A", Field(Join(DOUBLED), 2), PlanSection(Join(DOUBLED))), 2)
         != Field(Join(DOUBLED), 2)
  {
    var packet := Join(DOUBLED);
    DoubledText();
    JoinSplits(DOUBLED);
    hide Join;
    DoubledAccepted(packet);
    hide *;
    RebuiltAmendmentKeepsTarget(packet, "AB", "*A");
  }

  lemma DoubledText()
    ensures "$AMAB:*A:" <= Join(DOUBLED)
  {
    var fields := DOUBLED;
    assert Join(fields) == "$AMAB" + ":" + Join(fields[1..]);
    assert Join(fields[1..]) == "*A" + ":" + Join(fields[1..][1..]);
  }

  lemma DoubledTyped(packet: string)
    requires "$AMAB:*A:" <= packet
    ensures |packet| >= 8 && GetPacketType(packet) == FlightPlanAmendment
  {
    assert forall k :: 0 <= k < 3 ==> packet[k] == "$AMAB:*A:"[k];
    assert GetPacketPrefix(FlightPlanAmendment) <= packet;
    TypeMeansPrefix(packet, FlightPlanAmendment);
    hide GetPacketType;
  }

  lemma DoubledAccepted(packet: string)
    requires Split(packet) == DOUBLED && "$AMAB:*A:" <= packet
    ensures VerifyPacket(packet, "AB") == Accepted(FlightPlanAmendment)
    ensures HasSuffix(Split(packet)[2], CRLF + CRLF) && IsValidClientCallsign("AB") && ':' !in "*A"
  {
    hide Split, GetPacketType, GetSourceCallsign, VerifyPacket;
    DoubledTyped(packet);
    SplitIsExact(packet);
    SourceOfBuilt(packet, "AB", FlightPlanAmendment);
    AcceptedFromSource(packet, "AB", FlightPlanAmendment);
    assert "X\r\n\r\n"[1..] == CRLF + CRLF;
  }

  lemma TargetCutTwice(packet: string)
    requires |Split(packet)| > 2
    ensures CutSuffix(Field(packet, 2), CRLF) == Field(packet, 2) <==> !HasSuffix(Split(packet)[2], CRLF + CRLF)
  {
    var piece := Split(packet)[2];
    hide Split;
    if |piece| >= 4 {
      assert piece[|piece| - 4..][2..] == piece[|piece| - 2..];
    }
    if HasSuffix(piece, CRLF) {
      var field := piece[..|piece| - 2];
      assert piece == field + CRLF;
      if HasSuffix(field, CRLF) {
        assert piece[|piece| - 4..] == CRLF + CRLF;
      }
      if HasSuffix(piece, CRLF + CRLF) {
        assert field[|field| - 2..] == piece[|piece| - 4..][..2];
      }
    }
  }

  /** A framed packet, whose only line feed is its last byte, has no such target. */
  lemma FramedTargetIsKept(packet: string)
    requires CountFields(packet) > 3 && '\n' !in packet[..|packet| - 1]
    ensures |Split(packet)| > 2 && !HasSuffix(Split(packet)[2], CRLF + CRLF)
  {
    SplitIsExact(packet);
    assert forall q :: 0 <= q < |packet| - 1 ==> packet[q] == packet[..|packet| - 1][q];
    FieldInside(packet, 2, '\n');
    var piece := Split(packet)[2];
    hide Split;
    if |piece| >= 4 {
      assert piece[|piece| - 4..][3] == piece[|piece| - 1];
    }
  }

  /** A byte that occurs only at the end of the packet is in no field but the last. */
  lemma {:induction false} FieldInside(packet: string, k: nat, c: char)
    requires k + 1 < |Split(packet)|
    requires forall q :: 0 <= q < |packet| - 1 ==> packet[q] != c
    ensures c !in Split(packet)[k]
    decreases |packet|
  {
    var i := IndexByte(packet, ':');
    if k > 0 {
      FieldInside(packet[i + 1..], k - 1, c);
    }
  }
}

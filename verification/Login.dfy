/** The login of a connection: the two login packets and the authentication that decides whether it may
    register (openaimp-fsd/fsd/conn.go). */
module Login {
  import opened Fields
  import opened Packets
  import opened Results
  import Acceptance
  import Auth
  import Connections

  const CALLSIGN_INVALID_ERROR := 2
  const INVALID_LOGON_ERROR := 6
  const INVALID_PROTOCOL_REVISION_ERROR := 10
  const REQUESTED_LEVEL_TOO_HIGH_ERROR := 11
  const CERTIFICATE_SUSPENDED_ERROR := 13

  /** strconv.Atoi, and strconv.ParseUint of base 16 and 16 bits. */
  datatype Parsers = Parsers(atoi: string -> Option<int>, parseHex16: string -> Option<nat>)

  datatype LoginData = LoginData(
    clientChallenge: string, callsign: string, cid: int, realName: string,
    networkRating: int, protoRevision: int, clientId: nat, isAtc: bool)

  const NO_DATA := LoginData("", "", 0, "", 0, 0, 0, false)

  /** The error packet written before the connection is closed; a failing lookup writes none. */
  datatype Fault = Fault(code: nat, message: string) | Silent

  function Prefix(isAtc: bool): string {
    if isAtc then "#AA" else "#AP"
  }

  /** The fields of an add packet: where the numbers stand depends on the client's type. */
  datatype Layout = Layout(fields: nat, cid: nat, token: nat, rating: nat, revision: nat, realName: nat)

  function LayoutOf(isAtc: bool): Layout {
    if isAtc then Layout(7, 3, 4, 5, 6, 2) else Layout(8, 2, 3, 4, 5, 7)
  }

  /** What both login packets must be for the login to go on. */
  ghost predicate WellFormed(id: string, add: string, parsers: Parsers) {
    && (|Split(id)| == 9 ==> parsers.parseHex16(Field(id, 2)).Some?)
    && |add| >= 16 && ("#AA" <= add || "#AP" <= add)
    && (if "#AA" <= add then
          && |Split(add)| == 7 && parsers.atoi(Field(add, 3)).Some? && parsers.atoi(Field(add, 5)).Some?
          && IsRevision(parsers.atoi(Field(add, 6)))
        else
          && |Split(add)| == 8 && parsers.atoi(Field(add, 2)).Some? && parsers.atoi(Field(add, 4)).Some?
          && IsRevision(parsers.atoi(Field(add, 5))))
  }

  predicate IsRevision(revision: Option<int>) {
    revision.Some? && 100 <= revision.value <= 101
  }

  /** The data of well-formed login packets, and the token. */
  ghost predicate Describes(data: LoginData, token: string, id: string, add: string, parsers: Parsers) {
    && data.isAtc == ("#AA" <= add)
    && Field(add, 0) == (if data.isAtc then "#AA" else "#AP") + data.callsign
    && (if data.isAtc then
          && data.realName == Field(add, 2) && parsers.atoi(Field(add, 3)) == Some(data.cid)
          && token == Field(add, 4) && parsers.atoi(Field(add, 5)) == Some(data.networkRating)
          && parsers.atoi(Field(add, 6)) == Some(data.protoRevision)
        else
          && parsers.atoi(Field(add, 2)) == Some(data.cid) && token == Field(add, 3)
          && parsers.atoi(Field(add, 4)) == Some(data.networkRating)
          && parsers.atoi(Field(add, 5)) == Some(data.protoRevision) && data.realName == Field(add, 7))
    && (if |Split(id)| == 9 then
          data.clientChallenge == Field(id, 8) && parsers.parseHex16(Field(id, 2)) == Some(data.clientId)
        else data.clientChallenge == "" && data.clientId == 0)
  }

  /** An add packet keeps its prefix in its first field, so the callsign is always found. */
  lemma PrefixIsInFirstField(add: string, isAtc: bool)
    requires Prefix(isAtc) <= add
    ensures Prefix(isAtc) <= Field(add, 0)
  {
    hide Split, IndexByte;
    var prefix := Prefix(isAtc);
    Acceptance.FirstFieldIs(add);
    var i := IndexByte(add, ':');
    var first := if i == -1 then add else add[..i];
    assert forall k :: 0 <= k < |prefix| ==> add[k] == prefix[k];
    Acceptance.PrefixSurvives(first, prefix);
  }

  /** The first part of readLoginPackets: an identification packet of nine fields carries a challenge. */
  method ReadIdent(id: string, parsers: Parsers) returns (r: Result<LoginData, Fault>)
    ensures r.Ok? <==> (|Split(id)| == 9 ==> parsers.parseHex16(Field(id, 2)).Some?)
    ensures r.Err? ==> r.error.Fault? && r.error.code == SYNTAX_ERROR
    ensures r.Ok? ==> r.value == NO_DATA.(clientChallenge := r.value.clientChallenge, clientId := r.value.clientId)
    ensures r.Ok? ==> if |Split(id)| == 9 then
        r.value.clientChallenge == Field(id, 8) && parsers.parseHex16(Field(id, 2)) == Some(r.value.clientId)
      else r.value == NO_DATA
  {
    SplitIsExact(id);
    hide Split, Field, CountFields;
    var data := NO_DATA;
    if CountFields(id) == 9 {
      var challenge := GetField(id, 8);
      data := data.(clientChallenge := challenge);
      var field := GetField(id, 2);
      var clientId := parsers.parseHex16(field);
      if clientId.None? {
        return Err(Fault(SYNTAX_ERROR, "Error parsing client ID"));
      }
      data := data.(clientId := clientId.value);
    }
    r := Ok(data);
  }

  /** What the add packet must be, its protocol revision aside. */
  ghost predicate AddParses(add: string, parsers: Parsers) {
    && |add| >= 16 && (Prefix(true) <= add || Prefix(false) <= add)
    && var l := LayoutOf(Prefix(true) <= add);
       && |Split(add)| == l.fields
       && parsers.atoi(Field(add, l.cid)).Some? && parsers.atoi(Field(add, l.rating)).Some?
       && parsers.atoi(Field(add, l.revision)).Some?
  }

  /** The fields of an add packet with the right prefix and number of fields. */
  method ReadFields(data: LoginData, add: string, parsers: Parsers) returns (r: Result<(LoginData, string), Fault>)
    requires Prefix(data.isAtc) <= add
    ensures var l := LayoutOf(data.isAtc);
      r.Ok? <==> parsers.atoi(Field(add, l.cid)).Some? && parsers.atoi(Field(add, l.rating)).Some?
                 && parsers.atoi(Field(add, l.revision)).Some?
    ensures r.Err? ==> r.error.Fault? && r.error.code == SYNTAX_ERROR
    ensures r.Ok? ==>
      var l, d := LayoutOf(data.isAtc), r.value.0;
      && Field(add, 0) == Prefix(data.isAtc) + d.callsign && r.value.1 == Field(add, l.token)
      && d == data.(callsign := d.callsign, realName := Field(add, l.realName),
                    cid := parsers.atoi(Field(add, l.cid)).value,
                    networkRating := parsers.atoi(Field(add, l.rating)).value,
                    protoRevision := parsers.atoi(Field(add, l.revision)).value)
  {
    PrefixIsInFirstField(add, data.isAtc);
    hide Field;
    var kind := if data.isAtc then "ATC" else "pilot";
    var l := LayoutOf(data.isAtc);
    var first := GetField(add, 0);
    var callsign := CutPrefix(first, Prefix(data.isAtc));
    var realName := GetField(add, l.realName);
    var cidField := GetField(add, l.cid);
    var cid := parsers.atoi(cidField);
    if cid.None? {
      return Err(Fault(SYNTAX_ERROR, "Invalid CID in " + kind + " add packet"));
    }
    var token := GetField(add, l.token);
    var ratingField := GetField(add, l.rating);
    var rating := parsers.atoi(ratingField);
    if rating.None? {
      return Err(Fault(SYNTAX_ERROR, "Invalid network rating in pilot add packet"));
    }
    var revisionField := GetField(add, l.revision);
    var revision := parsers.atoi(revisionField);
    if revision.None? {
      return Err(Fault(SYNTAX_ERROR, "Invalid protocol revision in " + kind + " add packet"));
    }
    r := Ok((data.(callsign := callsign, realName := realName, cid := cid.value, networkRating := rating.value,
                   protoRevision := revision.value), token));
  }

  /** The second part of readLoginPackets. */
  method ReadAdd(data: LoginData, add: string, parsers: Parsers) returns (r: Result<(LoginData, string), Fault>)
    requires data == NO_DATA.(clientChallenge := data.clientChallenge, clientId := data.clientId)
    ensures r.Ok? <==>
      && AddParses(add, parsers)
      && 100 <= parsers.atoi(Field(add, LayoutOf(Prefix(true) <= add).revision)).value <= 101
    ensures r.Err? ==>
      && r.error.Fault?
      && r.error.code == if AddParses(add, parsers) then 10 else 4
    ensures r.Ok? ==>
      var l, d := LayoutOf(Prefix(true) <= add), r.value.0;
      && d.isAtc == (Prefix(true) <= add) && d.clientChallenge == data.clientChallenge && d.clientId == data.clientId
      && Field(add, 0) == Prefix(d.isAtc) + d.callsign && r.value.1 == Field(add, l.token)
      && d.realName == Field(add, l.realName) && parsers.atoi(Field(add, l.cid)) == Some(d.cid)
      && parsers.atoi(Field(add, l.rating)) == Some(d.networkRating)
      && parsers.atoi(Field(add, l.revision)) == Some(d.protoRevision)
  {
    SplitIsExact(add);
    hide Split, Field, CountFields;
    if |add| < 16 {
      return Err(Fault(SYNTAX_ERROR, "Invalid add packet"));
    }
    var isAtc := add[..3] == "#AA";
    assert Prefix(true) <= add <==> isAtc;
    if !isAtc && add[..3] != "#AP" {
      return Err(Fault(SYNTAX_ERROR, "Invalid add packet prefix"));
    }
    if CountFields(add) != LayoutOf(isAtc).fields {
      return Err(Fault(SYNTAX_ERROR, "Invalid number of fields in " + (if isAtc then "ATC" else "pilot") + " add packet"));
    }
    r := ReadFields(data.(isAtc := isAtc), add, parsers);
    if r.Ok? && !(100 <= r.value.0.protoRevision <= 101) {
      r := Err(Fault(INVALID_PROTOCOL_REVISION_ERROR, "Invalid protocol revision"));
    }
  }

  /** readLoginPackets: it succeeds exactly for two lines that form a login, and fills in what they say. A
      bad revision in otherwise well-formed packets is the only error that is not a syntax error. */
  method ReadLoginPackets(id: Option<string>, add: Option<string>, parsers: Parsers)
      returns (r: Result<(LoginData, string), Fault>)
    ensures r.Ok? <==> id.Some? && add.Some? && WellFormed(id.value, add.value, parsers)
    ensures r.Ok? ==>
      && Describes(r.value.0, r.value.1, id.value, add.value, parsers)
      && 100 <= r.value.0.protoRevision <= 101
    ensures r.Err? ==> r.error.Fault? && r.error.code in {4, 10}
  {
    hide Split, Field;
    if id.None? {
      return Err(Fault(SYNTAX_ERROR, "Error reading Client ident packet"));
    }
    if add.None? {
      return Err(Fault(SYNTAX_ERROR, "Error reading add packet"));
    }
    var ident := ReadIdent(id.value, parsers);
    if ident.Err? {
      return Err(ident.error);
    }
    r := ReadAdd(ident.value, add.value, parsers);
  }

  /** A field that survives the packet around it. */
  predicate Plain(s: string) {
    ':' !in s && !HasSuffix(s, CRLF)
  }

  lemma PlainFields(fields: seq<string>)
    requires |fields| > 0 && forall i :: 0 <= i < |fields| ==> Plain(fields[i])
    ensures Split(Join(fields)) == fields
    ensures forall i: nat :: i < |fields| ==> Field(Join(fields), i) == fields[i]
  {
    JoinSplits(fields);
    hide Split, Join;
  }

  /** A controller's login line is read back field by field: callsign, real name, number, token, rating and
      revision, in this order after the addressee. */
  lemma AtcLoginRoundTrip(callsign: string, to: string, realName: string, cid: string, token: string, rating: string,
                          revision: string, id: string, parsers: Parsers, data: LoginData, token': string)
    requires var fields := ["#AA" + callsign, to, realName, cid, token, rating, revision];
      && (forall i :: 0 <= i < 7 ==> Plain(fields[i]))
      && Describes(data, token', id, Join(fields), parsers)
    ensures data.isAtc && data.callsign == callsign && data.realName == realName && token' == token
    ensures parsers.atoi(cid) == Some(data.cid) && parsers.atoi(rating) == Some(data.networkRating)
    ensures parsers.atoi(revision) == Some(data.protoRevision)
  {
    var fields := ["#AA" + callsign, to, realName, cid, token, rating, revision];
    PlainFields(fields);
    StartsWithFirst("#AA", callsign, fields);
    hide Split, Join, Field;
    assert ("#AA" + callsign)[3..] == callsign && ("#AA" + data.callsign)[3..] == data.callsign;
  }

  /** A pilot's: callsign, number, token, rating, revision and, last, the real name. */
  lemma PilotLoginRoundTrip(callsign: string, to: string, cid: string, token: string, rating: string, revision: string,
                            simulator: string, realName: string, id: string, parsers: Parsers, data: LoginData, token': string)
    requires var fields := ["#AP" + callsign, to, cid, token, rating, revision, simulator, realName];
      && (forall i :: 0 <= i < 8 ==> Plain(fields[i]))
      && Describes(data, token', id, Join(fields), parsers)
    ensures !data.isAtc && data.callsign == callsign && data.realName == realName && token' == token
    ensures parsers.atoi(cid) == Some(data.cid) && parsers.atoi(rating) == Some(data.networkRating)
    ensures parsers.atoi(revision) == Some(data.protoRevision)
  {
    var fields := ["#AP" + callsign, to, cid, token, rating, revision, simulator, realName];
    PlainFields(fields);
    StartsWithFirst("#AP", callsign, fields);
    hide Split, Join, Field;
    assert ("#AP" + callsign)[3..] == callsign && ("#AP" + data.callsign)[3..] == data.callsign;
    assert "#AP"[2] == 'P' && "#AA"[2] == 'A';
  }

  lemma PrefixOfSum(prefix: string, s: string, tail: string)
    requires prefix <= s
    ensures prefix <= s + tail
  {
  }

  lemma StartsWithFirst(prefix: string, callsign: string, fields: seq<string>)
    requires |fields| > 1 && fields[0] == prefix + callsign
    ensures prefix <= Join(fields)
  {
    var tail := ":" + Join(fields[1..]);
    assert Join(fields) == fields[0] + tail;
    hide Join;
    PrefixOfSum(prefix, fields[0], tail);
  }

  // ----- authentication -----

  datatype Claims = Claims(isFsd: bool, cid: int, networkRating: int)

  /** What the token stands for: a signed token, checked with the configured secret, or a password,
      checked against the stored account. */
  datatype Credentials =
    | Jwt(secretKnown: bool, claims: Option<Claims>)
    | Password(storedRating: Option<int>, matches: bool)

  /** The rating the credentials entitle to, if they are the client's. */
  ghost function Entitlement(credentials: Credentials, cid: int): Option<int> {
    match credentials
    case Jwt(secretKnown, claims) =>
      if secretKnown && claims.Some? && claims.value.isFsd && claims.value.cid == cid then Some(claims.value.networkRating)
      else None
    case Password(storedRating, matches) => if matches then storedRating else None
  }

  ghost predicate Authentic(data: LoginData, credentials: Credentials) {
    && (data.clientChallenge != "" ==> data.clientId in Auth.KEYS)
    && var granted := Entitlement(credentials, data.cid);
       granted.Some? && OBSERVER <= data.networkRating <= granted.value
  }

  const INVALID_LOGON := "Invalid CID/password"

  /** The rating checks both kinds of credentials end with. */
  method CheckRating(requested: int, granted: int) returns (r: Result<int, Fault>)
    ensures r.Ok? <==> OBSERVER <= requested <= granted
    ensures r.Ok? ==> r.value == granted
    ensures r.Err? ==> r.error.Fault? && r.error.code == if requested > granted then 11 else 13
  {
    if requested > granted {
      return Err(Fault(REQUESTED_LEVEL_TOO_HIGH_ERROR, "Requested level too high"));
    }
    if requested < OBSERVER {
      return Err(Fault(CERTIFICATE_SUSPENDED_ERROR, "Certificate inactive or suspended"));
    }
    r := Ok(granted);
  }

  /** The refusal of a client that is not authentic: software without a key, a server without a secret, bad
      credentials, those of someone else or too low a rating, or a client suspended. */
  ghost predicate RefusedWith(data: LoginData, credentials: Credentials, fault: Fault) {
    var keyless := data.clientChallenge != "" && data.clientId !in Auth.KEYS;
    var granted := Entitlement(credentials, data.cid);
    var others := credentials.Jwt? && credentials.secretKnown && credentials.claims.Some? && credentials.claims.value.isFsd
                  && credentials.claims.value.cid != data.cid;
    if keyless then fault.Fault? && fault.code == 16
    else if credentials.Jwt? && !credentials.secretKnown then fault == Silent
    else if others then fault.Fault? && fault.code == 11
    else if granted.None? then fault.Fault? && fault.code == 6
    else fault.Fault? && fault.code == if data.networkRating > granted.value then 11 else 13
  }

  /** attemptAuthentication: it succeeds exactly for a client that is who it says, with software the
      challenges can be checked for, and asks for no more than its rating; then the authentication state
      follows the recurrence from the client's opening challenge. */
  method AttemptAuthentication(data: LoginData, credentials: Credentials, state: Auth.VatsimAuthState)
      returns (r: Result<int, Fault>)
    modifies state
    ensures r.Ok? <==> Authentic(data, credentials)
    ensures r.Err? ==> RefusedWith(data, credentials, r.error)
    ensures r.Ok? ==> Some(r.value) == Entitlement(credentials, data.cid)
    ensures r.Ok? && data.clientChallenge != "" ==>
      && state.Follows()
      && state.transcript == Auth.Transcript(data.clientId, Auth.KEYS[data.clientId], data.clientChallenge, [])
  {
    hide Auth.KEYS, Auth.VatsimAuthState.Follows;
    if data.clientChallenge != "" {
      var ok := state.Initialize(data.clientId, data.clientChallenge);
      if !ok {
        return Err(Fault(UNAUTHORIZED_SOFTWARE_ERROR, "Client incompatible with auth challenges"));
      }
    }
    match credentials {
      case Jwt(secretKnown, claims) =>
        if !secretKnown {
          return Err(Silent);
        }
        if claims.None? || !claims.value.isFsd {
          return Err(Fault(INVALID_LOGON_ERROR, INVALID_LOGON));
        }
        if data.cid != claims.value.cid {
          return Err(Fault(REQUESTED_LEVEL_TOO_HIGH_ERROR, INVALID_LOGON));
        }
        r := CheckRating(data.networkRating, claims.value.networkRating);
      case Password(storedRating, matches) =>
        if storedRating.None? || !matches {
          return Err(Fault(INVALID_LOGON_ERROR, INVALID_LOGON));
        }
        r := CheckRating(data.networkRating, storedRating.value);
    }
  }

  /** The login packets describe this client and it is who it says. */
  ghost predicate Admissible(id: string, add: string, parsers: Parsers, lookup: (string, int) -> Credentials, data: LoginData) {
    && WellFormed(id, add, parsers) && IsValidClientCallsign(data.callsign)
    && exists token :: Describes(data, token, id, add, parsers) && Authentic(data, lookup(token, data.cid))
  }

  /** The packets describe at most one client. */
  lemma DescribesOne(data: LoginData, token: string, data': LoginData, token': string, id: string, add: string, parsers: Parsers)
    requires Describes(data, token, id, add, parsers) && Describes(data', token', id, add, parsers)
    ensures data == data' && token == token'
  {
    hide Field, Split;
    var prefix := Prefix(data.isAtc);
    assert (prefix + data.callsign)[|prefix|..] == data.callsign;
    assert (prefix + data'.callsign)[|prefix|..] == data'.callsign;
  }

  lemma NotAdmissible(data: LoginData, token: string, id: string, add: string, parsers: Parsers, lookup: (string, int) -> Credentials)
    requires Describes(data, token, id, add, parsers)
    requires !(IsValidClientCallsign(data.callsign) && Authentic(data, lookup(token, data.cid)))
    ensures forall d :: !Admissible(id, add, parsers, lookup, d)
  {
    hide WellFormed, IsValidClientCallsign, Authentic;
    forall d ensures !Admissible(id, add, parsers, lookup, d) {
      forall t | Describes(d, t, id, add, parsers) ensures d == data && t == token {
        DescribesOne(d, t, data, token, id, add, parsers);
      }
      hide Describes;
    }
  }

  /** handleConn up to the registration: it goes on exactly for a client that is admissible, and whoever
      gets that far may take the login step of the transition system, whose theorems then hold for it. */
  method LogIn(id: Option<string>, add: Option<string>, parsers: Parsers,
               lookup: (string, int) -> Credentials, state: Auth.VatsimAuthState)
      returns (r: Result<(LoginData, int), Fault>)
    modifies state
    ensures r.Ok? ==>
      && id.Some? && add.Some? && Admissible(id.value, add.value, parsers, lookup, r.value.0)
      && var d := r.value.0;
         Connections.LoginAllowed(
           Connections.LoginData(d.callsign, d.isAtc, d.networkRating, d.protoRevision, d.clientChallenge != ""), r.value.1)
    ensures r.Err? && id.Some? && add.Some? ==> forall d :: !Admissible(id.value, add.value, parsers, lookup, d)
    ensures r.Ok? && r.value.0.clientChallenge != "" ==> state.Follows()
    ensures r.Err? && id.Some? && add.Some? && WellFormed(id.value, add.value, parsers) ==>
      exists data, token :: Describes(data, token, id.value, add.value, parsers)
        && if IsValidClientCallsign(data.callsign) then RefusedWith(data, lookup(token, data.cid), r.error)
           else r.error == Fault(2, "Callsign invalid")
  {
    hide RefusedWith;
    hide WellFormed, Describes, IsValidClientCallsign, Authentic, Entitlement, Auth.KEYS, Auth.VatsimAuthState.Follows;
    var login := ReadLoginPackets(id, add, parsers);
    if login.Err? {
      return Err(login.error);
    }
    var data, token := login.value.0, login.value.1;
    if !IsValidClientCallsign(data.callsign) {
      NotAdmissible(data, token, id.value, add.value, parsers, lookup);
      return Err(Fault(CALLSIGN_INVALID_ERROR, "Callsign invalid"));
    }
    var granted := AttemptAuthentication(data, lookup(token, data.cid), state);
    if granted.Err? {
      NotAdmissible(data, token, id.value, add.value, parsers, lookup);
      return Err(granted.error);
    }
    Entitled(data, lookup(token, data.cid), granted.value);
    r := Ok((data, granted.value));
  }

  lemma Entitled(data: LoginData, credentials: Credentials, granted: int)
    requires Authentic(data, credentials) && Some(granted) == Entitlement(credentials, data.cid)
    ensures OBSERVER <= data.networkRating <= granted
  {
  }
}

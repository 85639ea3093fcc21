/** Flight and control records and the totals cached in the user profiles
    (openaimp-backend, UserProfileStatsServiceImpl, FlightRecordServiceImpl, ControlRecordServiceImpl).
    Each service call is a transaction: it runs alone, and an exception leaves the database as it was. */
module Stats {
  import opened Results
  import opened Texts

  const INT_MAX := 0x7FFF_FFFF
  const NANOS_PER_MINUTE := 60_000_000_000

  datatype Error =
    | RequestMissing
    | NotPositive
    | NoSuchUser
    | NoSuchRecord
    | FieldMissing
    | FieldTooLong
    | EndNotAfterStart
    | DurationNotPositive
    | BadFacilityType
    | CountOverflow

  /** The cached totals; a row from before they existed has nulls. */
  datatype Profile = Profile(
    flightCount: Option<int>, flightMinutes: Option<int>,
    controlCount: Option<int>, controlMinutes: Option<int>)

  datatype FlightDetail = FlightDetail(
    callsign: string, departure: Option<string>, arrival: Option<string>,
    startedAt: int, endedAt: int, remarks: Option<string>)

  datatype ControlDetail = ControlDetail(
    position: string, airport: Option<string>, facilityType: int,
    startedAt: int, endedAt: int, remarks: Option<string>)

  /** A record: its owner, its duration and the rest. */
  datatype Owned<+D> = Owned(userCid: int, minutes: int, detail: D)

  /** A table whose ids are handed out in ascending order. */
  datatype Table<D> = Table(rows: map<nat, Owned<D>>, next: nat)

  datatype Database = Database(
    accounts: set<int>,
    profiles: map<int, Profile>,
    flights: Table<FlightDetail>,
    controls: Table<ControlDetail>)

  datatype FlightRequest = FlightRequest(
    callsign: Option<string>, departure: Option<string>, arrival: Option<string>,
    startedAt: Option<int>, endedAt: Option<int>, minutes: Option<int>, remarks: Option<string>)

  datatype ControlRequest = ControlRequest(
    position: Option<string>, airport: Option<string>, facilityType: Option<int>,
    startedAt: Option<int>, endedAt: Option<int>, minutes: Option<int>, remarks: Option<string>)

  // ----- checking a request -----

  function NormalizeNullable(value: Option<string>, maxLength: nat): Result<Option<string>, Error> {
    if value.None? || Trim(value.value) == [] then Ok(None)
    else if |Trim(value.value)| > maxLength then Err(FieldTooLong)
    else Ok(Some(Trim(value.value)))
  }

  function NormalizeRequired(value: Option<string>, maxLength: nat): Result<string, Error> {
    var normalized :- NormalizeNullable(value, maxLength);
    if normalized.None? then Err(FieldMissing) else Ok(normalized.value)
  }

  function RequireTime(value: Option<int>): Result<int, Error> {
    if value.None? then Err(FieldMissing) else Ok(value.value)
  }

  function RequireFacilityType(value: Option<int>): Result<int, Error> {
    if value.None? || value.value < 0 || value.value > 6 then Err(BadFacilityType) else Ok(value.value)
  }

  function ResolveDurationMinutes(startedAt: int, endedAt: int, minutes: Option<int>): Result<int, Error> {
    if endedAt <= startedAt then Err(EndNotAfterStart)
    else
      var calculated := (endedAt - startedAt) / NANOS_PER_MINUTE;
      if calculated <= 0 then Err(DurationNotPositive)
      else if minutes.None? then Ok(calculated)
      else if minutes.value <= 0 then Err(DurationNotPositive)
      else Ok(minutes.value)
  }

  /** A duration is accepted exactly for a period of at least one minute and a stated duration, if
      any, of at least one; the stated one wins. */
  lemma DurationIsAccepted(startedAt: int, endedAt: int, minutes: Option<int>)
    ensures ResolveDurationMinutes(startedAt, endedAt, minutes).Ok?
       <==> endedAt >= startedAt + NANOS_PER_MINUTE && (minutes.Some? ==> minutes.value >= 1)
    ensures var r := ResolveDurationMinutes(startedAt, endedAt, minutes);
            r.Ok? ==>
              if minutes.Some? then r.value == minutes.value
              else r.value * NANOS_PER_MINUTE <= endedAt - startedAt < (r.value + 1) * NANOS_PER_MINUTE
    ensures var r := ResolveDurationMinutes(startedAt, endedAt, minutes);
            r.Err? ==> r.error == if endedAt <= startedAt then EndNotAfterStart else DurationNotPositive
  {
  }

  function CheckFlight(cid: int, request: FlightRequest): Result<Owned<FlightDetail>, Error> {
    var startedAt :- RequireTime(request.startedAt);
    var endedAt :- RequireTime(request.endedAt);
    var minutes :- ResolveDurationMinutes(startedAt, endedAt, request.minutes);
    var callsign :- NormalizeRequired(request.callsign, 32);
    var departure :- NormalizeNullable(request.departure, 8);
    var arrival :- NormalizeNullable(request.arrival, 8);
    var remarks :- NormalizeNullable(request.remarks, 1000);
    Ok(Owned(cid, minutes, FlightDetail(callsign, departure, arrival, startedAt, endedAt, remarks)))
  }

  function CheckControl(cid: int, request: ControlRequest): Result<Owned<ControlDetail>, Error> {
    var startedAt :- RequireTime(request.startedAt);
    var endedAt :- RequireTime(request.endedAt);
    var minutes :- ResolveDurationMinutes(startedAt, endedAt, request.minutes);
    var position :- NormalizeRequired(request.position, 32);
    var airport :- NormalizeNullable(request.airport, 8);
    var facilityType :- RequireFacilityType(request.facilityType);
    var remarks :- NormalizeNullable(request.remarks, 1000);
    Ok(Owned(cid, minutes, ControlDetail(position, airport, facilityType, startedAt, endedAt, remarks)))
  }

  predicate Fits(value: Option<string>, maxLength: nat) {
    value.Some? ==> Trimmed(value.value) && |value.value| <= maxLength
  }

  predicate FlightStorable(r: Owned<FlightDetail>) {
    && Trimmed(r.detail.callsign) && |r.detail.callsign| <= 32
    && Fits(r.detail.departure, 8) && Fits(r.detail.arrival, 8) && Fits(r.detail.remarks, 1000)
    && r.detail.endedAt >= r.detail.startedAt + NANOS_PER_MINUTE && r.minutes >= 1
  }

  predicate ControlStorable(r: Owned<ControlDetail>) {
    && Trimmed(r.detail.position) && |r.detail.position| <= 32
    && Fits(r.detail.airport, 8) && Fits(r.detail.remarks, 1000) && 0 <= r.detail.facilityType <= 6
    && r.detail.endedAt >= r.detail.startedAt + NANOS_PER_MINUTE && r.minutes >= 1
  }

  lemma NormalizedFits(value: Option<string>, maxLength: nat)
    ensures var r := NormalizeNullable(value, maxLength); r.Ok? ==> Fits(r.value, maxLength)
    ensures var r := NormalizeRequired(value, maxLength); r.Ok? ==> Trimmed(r.value) && |r.value| <= maxLength
  {
    if value.Some? {
      TrimIsExact(value.value);
    }
  }

  lemma DurationFits(startedAt: Option<int>, endedAt: Option<int>, minutes: Option<int>)
    requires startedAt.Some? && endedAt.Some?
    ensures var r := ResolveDurationMinutes(startedAt.value, endedAt.value, minutes);
            r.Ok? ==> r.value >= 1 && endedAt.value >= startedAt.value + NANOS_PER_MINUTE
  {
    DurationIsAccepted(startedAt.value, endedAt.value, minutes);
  }

  /** What passes the checks is fit to store: trimmed, within the column lengths, at least a minute. */
  lemma CheckedFlightIsStorable(cid: int, request: FlightRequest)
    ensures var r := CheckFlight(cid, request); r.Ok? ==> FlightStorable(r.value) && r.value.userCid == cid
  {
    NormalizedFits(request.callsign, 32);
    NormalizedFits(request.departure, 8);
    NormalizedFits(request.arrival, 8);
    NormalizedFits(request.remarks, 1000);
    if request.startedAt.Some? && request.endedAt.Some? {
      DurationFits(request.startedAt, request.endedAt, request.minutes);
      hide NormalizeNullable, NormalizeRequired, ResolveDurationMinutes, Trimmed, Fits;
    }
  }

  lemma CheckedControlIsStorable(cid: int, request: ControlRequest)
    ensures var r := CheckControl(cid, request); r.Ok? ==> ControlStorable(r.value) && r.value.userCid == cid
  {
    NormalizedFits(request.position, 32);
    NormalizedFits(request.airport, 8);
    NormalizedFits(request.remarks, 1000);
    if request.startedAt.Some? && request.endedAt.Some? {
      DurationFits(request.startedAt, request.endedAt, request.minutes);
      hide NormalizeNullable, NormalizeRequired, ResolveDurationMinutes, Trimmed, Fits;
    }
  }

  /** An optional text is accepted unless it is too long between its blanks. */
  predicate TextAccepted(value: Option<string>, maxLength: nat) {
    value.Some? ==> |Trim(value.value)| <= maxLength
  }

  predicate NameAccepted(value: Option<string>, maxLength: nat) {
    value.Some? && !Blank(value.value, 0, |value.value|) && |Trim(value.value)| <= maxLength
  }

  predicate PeriodAccepted(startedAt: Option<int>, endedAt: Option<int>, minutes: Option<int>) {
    && startedAt.Some? && endedAt.Some? && endedAt.value >= startedAt.value + NANOS_PER_MINUTE
    && (minutes.Some? ==> minutes.value >= 1)
  }

  lemma TextIsAccepted(value: Option<string>, maxLength: nat)
    ensures NormalizeNullable(value, maxLength).Ok? <==> TextAccepted(value, maxLength)
    ensures NormalizeRequired(value, maxLength).Ok? <==> NameAccepted(value, maxLength)
    ensures NormalizeNullable(value, maxLength).Err? ==> NormalizeNullable(value, maxLength).error == FieldTooLong
    ensures NormalizeRequired(value, maxLength).Err? ==>
      NormalizeRequired(value, maxLength).error
        == if value.None? || Blank(value.value, 0, |value.value|) then FieldMissing else FieldTooLong
  {
    if value.Some? {
      TrimIsExact(value.value);
    }
  }

  lemma PeriodIsAccepted(startedAt: Option<int>, endedAt: Option<int>, minutes: Option<int>)
    requires startedAt.Some? && endedAt.Some?
    ensures ResolveDurationMinutes(startedAt.value, endedAt.value, minutes).Ok?
       <==> PeriodAccepted(startedAt, endedAt, minutes)
  {
    DurationIsAccepted(startedAt.value, endedAt.value, minutes);
  }

  /** Exactly the requests that are accepted. */
  lemma FlightIsAccepted(cid: int, request: FlightRequest)
    ensures CheckFlight(cid, request).Ok?
       <==> && PeriodAccepted(request.startedAt, request.endedAt, request.minutes)
            && NameAccepted(request.callsign, 32) && TextAccepted(request.departure, 8)
            && TextAccepted(request.arrival, 8) && TextAccepted(request.remarks, 1000)
  {
    TextIsAccepted(request.callsign, 32);
    TextIsAccepted(request.departure, 8);
    TextIsAccepted(request.arrival, 8);
    TextIsAccepted(request.remarks, 1000);
    if request.startedAt.Some? && request.endedAt.Some? {
      PeriodIsAccepted(request.startedAt, request.endedAt, request.minutes);
      hide NormalizeNullable, NormalizeRequired, ResolveDurationMinutes, PeriodAccepted, NameAccepted, TextAccepted;
    }
  }

  lemma ControlIsAccepted(cid: int, request: ControlRequest)
    ensures CheckControl(cid, request).Ok?
       <==> && PeriodAccepted(request.startedAt, request.endedAt, request.minutes)
            && NameAccepted(request.position, 32) && TextAccepted(request.airport, 8)
            && request.facilityType.Some? && 0 <= request.facilityType.value <= 6
            && TextAccepted(request.remarks, 1000)
  {
    TextIsAccepted(request.position, 32);
    TextIsAccepted(request.airport, 8);
    TextIsAccepted(request.remarks, 1000);
    if request.startedAt.Some? && request.endedAt.Some? {
      PeriodIsAccepted(request.startedAt, request.endedAt, request.minutes);
      hide NormalizeNullable, NormalizeRequired, ResolveDurationMinutes, PeriodAccepted, NameAccepted, TextAccepted;
    }
  }

  // ----- the aggregate queries -----

  datatype Totals = Totals(count: int, minutes: int)
  {
    function Plus(other: Totals): Totals {
      Totals(count + other.count, minutes + other.minutes)
    }

    function Minus(other: Totals): Totals {
      Totals(count - other.count, minutes - other.minutes)
    }
  }

  const NOTHING := Totals(0, 0)

  /** What the row with this id adds to the user's totals. */
  function Share<D>(rows: map<nat, Owned<D>>, cid: int, id: nat): Totals {
    if id in rows && rows[id].userCid == cid then Totals(1, rows[id].minutes) else NOTHING
  }

  /** The count and the sum over the rows with ids below n. */
  function Aggregate<D>(rows: map<nat, Owned<D>>, cid: int, n: nat): Totals {
    if n == 0 then NOTHING else Aggregate(rows, cid, n - 1).Plus(Share(rows, cid, n - 1))
  }

  function TotalsOf<D>(t: Table<D>, cid: int): Totals {
    Aggregate(t.rows, cid, t.next)
  }

  lemma {:induction false} AggregateSame<D>(rows: map<nat, Owned<D>>, rows': map<nat, Owned<D>>, cid: int, n: nat)
    requires forall id: nat :: id < n ==> Share(rows', cid, id) == Share(rows, cid, id)
    ensures Aggregate(rows', cid, n) == Aggregate(rows, cid, n)
  {
    if n > 0 {
      AggregateSame(rows, rows', cid, n - 1);
    }
  }

  lemma {:induction false} AggregateMoves<D>(rows: map<nat, Owned<D>>, rows': map<nat, Owned<D>>, cid: int, id: nat, n: nat)
    requires id < n
    requires forall k: nat :: k < n && k != id ==> Share(rows', cid, k) == Share(rows, cid, k)
    ensures Aggregate(rows', cid, n) == Aggregate(rows, cid, n).Minus(Share(rows, cid, id)).Plus(Share(rows', cid, id))
  {
    hide Share;
    if id == n - 1 {
      AggregateSame(rows, rows', cid, n - 1);
    } else {
      AggregateMoves(rows, rows', cid, id, n - 1);
      assert Share(rows', cid, n - 1) == Share(rows, cid, n - 1);
    }
  }

  function IdsOf<D>(rows: map<nat, Owned<D>>, cid: int, n: nat): set<nat> {
    set id | id in rows && id < n && rows[id].userCid == cid
  }

  /** The count is the number of the user's rows. */
  lemma {:induction false} CountIsCardinality<D>(rows: map<nat, Owned<D>>, cid: int, n: nat)
    ensures Aggregate(rows, cid, n).count == |IdsOf(rows, cid, n)|
  {
    if n == 0 {
      assert IdsOf(rows, cid, n) == {};
    } else {
      CountIsCardinality(rows, cid, n - 1);
      if n - 1 in rows && rows[n - 1].userCid == cid {
        assert IdsOf(rows, cid, n) == IdsOf(rows, cid, n - 1) + {n - 1};
      } else {
        assert IdsOf(rows, cid, n) == IdsOf(rows, cid, n - 1);
      }
    }
  }

  lemma {:induction false} MinutesCoverCount<D>(rows: map<nat, Owned<D>>, cid: int, n: nat)
    requires forall id :: id in rows ==> rows[id].minutes >= 1
    ensures Aggregate(rows, cid, n).minutes >= Aggregate(rows, cid, n).count >= 0
  {
    if n > 0 {
      MinutesCoverCount(rows, cid, n - 1);
    }
  }

  function Insert<D>(t: Table<D>, row: Owned<D>): Table<D> {
    Table(t.rows[t.next := row], t.next + 1)
  }

  function Replace<D>(t: Table<D>, id: nat, row: Owned<D>): Table<D> {
    Table(t.rows[id := row], t.next)
  }

  function Remove<D>(t: Table<D>, id: nat): Table<D> {
    Table(t.rows - {id}, t.next)
  }

  ghost predicate IdsSound<D>(t: Table<D>) {
    t.next >= 1 && forall id :: id in t.rows ==> 1 <= id < t.next
  }

  function ShareOf<D>(row: Owned<D>, cid: int): Totals {
    if row.userCid == cid then Totals(1, row.minutes) else NOTHING
  }

  /** Inserting, replacing and removing a row move its owner's totals by exactly the row's part, and
      nobody else's. */
  lemma InsertMoves<D>(t: Table<D>, row: Owned<D>, cid: int)
    requires IdsSound(t)
    ensures TotalsOf(Insert(t, row), cid) == TotalsOf(t, cid).Plus(ShareOf(row, cid))
  {
    AggregateSame(t.rows, Insert(t, row).rows, cid, t.next);
  }

  lemma ReplaceMoves<D>(t: Table<D>, id: nat, row: Owned<D>, cid: int)
    requires IdsSound(t) && id in t.rows
    ensures TotalsOf(Replace(t, id, row), cid) == TotalsOf(t, cid).Minus(ShareOf(t.rows[id], cid)).Plus(ShareOf(row, cid))
  {
    AggregateMoves(t.rows, Replace(t, id, row).rows, cid, id, t.next);
  }

  lemma RemoveMoves<D>(t: Table<D>, id: nat, cid: int)
    requires IdsSound(t) && id in t.rows
    ensures TotalsOf(Remove(t, id), cid) == TotalsOf(t, cid).Minus(ShareOf(t.rows[id], cid))
  {
    AggregateMoves(t.rows, Remove(t, id).rows, cid, id, t.next);
  }

  // ----- the transactions -----

  const EMPTY_PROFILE := Profile(Some(0), Some(0), Some(0), Some(0))

  function OrZero(value: Option<int>): Option<int> {
    if value.None? then Some(0) else value
  }

  function Filled(p: Profile): Profile {
    Profile(OrZero(p.flightCount), OrZero(p.flightMinutes), OrZero(p.controlCount), OrZero(p.controlMinutes))
  }

  /** ensureProfile. */
  function WithProfile(db: Database, cid: int): Result<Database, Error> {
    if cid <= 0 then Err(NotPositive)
    else if cid !in db.accounts then Err(NoSuchUser)
    else
      var profile := if cid in db.profiles then Filled(db.profiles[cid]) else EMPTY_PROFILE;
      Ok(db.(profiles := db.profiles[cid := profile]))
  }

  /** The profile that agrees with the user's records. */
  function Exact(db: Database, cid: int): Profile {
    var f, c := TotalsOf(db.flights, cid), TotalsOf(db.controls, cid);
    Profile(Some(f.count), Some(f.minutes), Some(c.count), Some(c.minutes))
  }

  /** refreshStats: both counts must fit an int. */
  function Refreshed(db: Database, cid: int): Result<Database, Error> {
    var ensured :- WithProfile(db, cid);
    if TotalsOf(db.flights, cid).count > INT_MAX || TotalsOf(db.controls, cid).count > INT_MAX then Err(CountOverflow)
    else Ok(ensured.(profiles := ensured.profiles[cid := Exact(db, cid)]))
  }

  datatype Op =
    | EnsureProfile(cid: int)
    | CreateFlight(cid: int, flight: Option<FlightRequest>)
    | UpdateFlight(id: int, flight: Option<FlightRequest>)
    | DeleteFlight(id: int)
    | CreateControl(cid: int, control: Option<ControlRequest>)
    | UpdateControl(id: int, control: Option<ControlRequest>)
    | DeleteControl(id: int)
    | SignUp(cid: int)

  function GetEntity<D>(t: Table<D>, id: int): Result<Owned<D>, Error> {
    if id <= 0 then Err(NotPositive)
    else if id !in t.rows then Err(NoSuchRecord)
    else Ok(t.rows[id])
  }

  function PerformFlight(db: Database, op: Op): Result<Database, Error>
    requires op.CreateFlight? || op.UpdateFlight? || op.DeleteFlight?
  {
    match op
    case CreateFlight(cid, request) =>
      if request.None? then Err(RequestMissing)
      else
        var ensured :- WithProfile(db, cid);
        var row :- CheckFlight(cid, request.value);
        Refreshed(ensured.(flights := Insert(ensured.flights, row)), cid)
    case UpdateFlight(id, request) =>
      if request.None? then Err(RequestMissing)
      else
        var record :- GetEntity(db.flights, id);
        var row :- CheckFlight(record.userCid, request.value);
        Refreshed(db.(flights := Replace(db.flights, id, row)), record.userCid)
    case DeleteFlight(id) =>
      var record :- GetEntity(db.flights, id);
      Refreshed(db.(flights := Remove(db.flights, id)), record.userCid)
  }

  function PerformControl(db: Database, op: Op): Result<Database, Error>
    requires op.CreateControl? || op.UpdateControl? || op.DeleteControl?
  {
    match op
    case CreateControl(cid, request) =>
      if request.None? then Err(RequestMissing)
      else
        var ensured :- WithProfile(db, cid);
        var row :- CheckControl(cid, request.value);
        Refreshed(ensured.(controls := Insert(ensured.controls, row)), cid)
    case UpdateControl(id, request) =>
      if request.None? then Err(RequestMissing)
      else
        var record :- GetEntity(db.controls, id);
        var row :- CheckControl(record.userCid, request.value);
        Refreshed(db.(controls := Replace(db.controls, id, row)), record.userCid)
    case DeleteControl(id) =>
      var record :- GetEntity(db.controls, id);
      Refreshed(db.(controls := Remove(db.controls, id)), record.userCid)
  }

  /** The committed outcome of a call, or the exception it ends with. */
  function Perform(db: Database, op: Op): Result<Database, Error> {
    match op
    case EnsureProfile(cid) => WithProfile(db, cid)
    case CreateFlight(_, _) | UpdateFlight(_, _) | DeleteFlight(_) => PerformFlight(db, op)
    case CreateControl(_, _) | UpdateControl(_, _) | DeleteControl(_) => PerformControl(db, op)
    case SignUp(cid) => Ok(db.(accounts := db.accounts + {cid}))
  }

  /** The database after the call: an exception rolls everything back. */
  function After(db: Database, op: Op): Database {
    var r := Perform(db, op);
    if r.Ok? then r.value else db
  }

  function Run(db: Database, ops: seq<Op>): Database {
    if ops == [] then db else After(Run(db, ops[..|ops| - 1]), ops[|ops| - 1])
  }

  // ----- the invariant -----

  ghost predicate RowsOwned<D>(t: Table<D>, db: Database) {
    forall id :: id in t.rows ==>
      t.rows[id].userCid > 0 && t.rows[id].userCid in db.accounts && t.rows[id].userCid in db.profiles
  }

  ghost predicate RowsStorable(db: Database) {
    && (forall id :: id in db.flights.rows ==> FlightStorable(db.flights.rows[id]))
    && (forall id :: id in db.controls.rows ==> ControlStorable(db.controls.rows[id]))
  }

  ghost predicate ProfilesExact(db: Database) {
    forall cid :: cid in db.profiles ==> db.profiles[cid] == Exact(db, cid)
  }

  /** Every cached total is the aggregate over the user's records, and every record has an owner with a
      profile. */
  ghost predicate Consistent(db: Database) {
    && IdsSound(db.flights) && IdsSound(db.controls)
    && RowsOwned(db.flights, db) && RowsOwned(db.controls, db)
    && RowsStorable(db) && ProfilesExact(db)
  }

  /** Where no row belongs to a user, the totals are zero. */
  lemma {:induction false} NoRowsNoTotals<D>(rows: map<nat, Owned<D>>, cid: int, n: nat)
    requires forall id :: id in rows ==> rows[id].userCid != cid
    ensures Aggregate(rows, cid, n) == NOTHING
  {
    if n > 0 {
      NoRowsNoTotals(rows, cid, n - 1);
    }
  }

  lemma WithProfileKeeps(db: Database, cid: int)
    requires Consistent(db) && WithProfile(db, cid).Ok?
    ensures Consistent(WithProfile(db, cid).value)
    ensures cid > 0 && cid in WithProfile(db, cid).value.accounts && cid in WithProfile(db, cid).value.profiles
  {
    hide FlightStorable, ControlStorable;
    if cid !in db.profiles {
      NoRowsNoTotals(db.flights.rows, cid, db.flights.next);
      NoRowsNoTotals(db.controls.rows, cid, db.controls.next);
    }
    hide Aggregate;
    var after := WithProfile(db, cid).value;
    assert forall c :: Exact(after, c) == Exact(db, c);
  }

  /** A database whose totals are right for everyone but one user is consistent after the refresh. */
  lemma RefreshRestores(db: Database, cid: int)
    requires IdsSound(db.flights) && IdsSound(db.controls) && RowsStorable(db)
    requires RowsOwned(db.flights, db) && RowsOwned(db.controls, db)
    requires forall c :: c in db.profiles && c != cid ==> db.profiles[c] == Exact(db, c)
    requires Refreshed(db, cid).Ok?
    ensures Consistent(Refreshed(db, cid).value)
    ensures Refreshed(db, cid).value == db.(profiles := db.profiles[cid := Exact(db, cid)])
  {
    hide FlightStorable, ControlStorable, Aggregate;
    var after := Refreshed(db, cid).value;
    assert forall c :: Exact(after, c) == Exact(db, c);
  }

  /** The flights changed so that only one user's totals may have moved. */
  ghost predicate FlightsMoved(db: Database, t: Table<FlightDetail>, cid: int) {
    && IdsSound(t) && RowsOwned(t, db)
    && (forall id :: id in t.rows ==> FlightStorable(t.rows[id]))
    && (forall c :: c != cid ==> TotalsOf(t, c) == TotalsOf(db.flights, c))
  }

  ghost predicate ControlsMoved(db: Database, t: Table<ControlDetail>, cid: int) {
    && IdsSound(t) && RowsOwned(t, db)
    && (forall id :: id in t.rows ==> ControlStorable(t.rows[id]))
    && (forall c :: c != cid ==> TotalsOf(t, c) == TotalsOf(db.controls, c))
  }

  lemma MovedFlightsRefresh(db: Database, t: Table<FlightDetail>, cid: int)
    requires Consistent(db) && FlightsMoved(db, t, cid) && Refreshed(db.(flights := t), cid).Ok?
    ensures Consistent(Refreshed(db.(flights := t), cid).value)
  {
    hide FlightStorable, ControlStorable, Aggregate, Refreshed;
    RefreshRestores(db.(flights := t), cid);
  }

  lemma MovedControlsRefresh(db: Database, t: Table<ControlDetail>, cid: int)
    requires Consistent(db) && ControlsMoved(db, t, cid) && Refreshed(db.(controls := t), cid).Ok?
    ensures Consistent(Refreshed(db.(controls := t), cid).value)
  {
    hide FlightStorable, ControlStorable, Aggregate, Refreshed;
    RefreshRestores(db.(controls := t), cid);
  }

  lemma InsertKeepsOthers<D>(t: Table<D>, row: Owned<D>)
    requires IdsSound(t)
    ensures forall c :: c != row.userCid ==> TotalsOf(Insert(t, row), c) == TotalsOf(t, c)
  {
    forall c | c != row.userCid ensures TotalsOf(Insert(t, row), c) == TotalsOf(t, c) {
      InsertMoves(t, row, c);
    }
  }

  lemma ReplaceKeepsOthers<D>(t: Table<D>, id: nat, row: Owned<D>)
    requires IdsSound(t) && id in t.rows && t.rows[id].userCid == row.userCid
    ensures forall c :: c != row.userCid ==> TotalsOf(Replace(t, id, row), c) == TotalsOf(t, c)
  {
    forall c | c != row.userCid ensures TotalsOf(Replace(t, id, row), c) == TotalsOf(t, c) {
      ReplaceMoves(t, id, row, c);
    }
  }

  lemma RemoveKeepsOthers<D>(t: Table<D>, id: nat)
    requires IdsSound(t) && id in t.rows
    ensures forall c :: c != t.rows[id].userCid ==> TotalsOf(Remove(t, id), c) == TotalsOf(t, c)
  {
    forall c | c != t.rows[id].userCid ensures TotalsOf(Remove(t, id), c) == TotalsOf(t, c) {
      RemoveMoves(t, id, c);
    }
  }

  lemma FlightKeepsConsistent(db: Database, op: Op)
    requires op.CreateFlight? || op.UpdateFlight? || op.DeleteFlight?
    requires Consistent(db) && PerformFlight(db, op).Ok?
    ensures Consistent(PerformFlight(db, op).value)
  {
    hide FlightStorable, ControlStorable, Aggregate, CheckFlight, Refreshed, WithProfile, TotalsOf;
    match op
    case CreateFlight(cid, request) =>
      WithProfileKeeps(db, cid);
      var ensured := WithProfile(db, cid).value;
      var row := CheckFlight(cid, request.value).value;
      CheckedFlightIsStorable(cid, request.value);
      InsertKeepsOthers(ensured.flights, row);
      MovedFlightsRefresh(ensured, Insert(ensured.flights, row), cid);
    case UpdateFlight(id, request) =>
      var cid := db.flights.rows[id].userCid;
      var row := CheckFlight(cid, request.value).value;
      CheckedFlightIsStorable(cid, request.value);
      ReplaceKeepsOthers(db.flights, id, row);
      MovedFlightsRefresh(db, Replace(db.flights, id, row), cid);
    case DeleteFlight(id) =>
      RemoveKeepsOthers(db.flights, id);
      MovedFlightsRefresh(db, Remove(db.flights, id), db.flights.rows[id].userCid);
  }

  lemma ControlKeepsConsistent(db: Database, op: Op)
    requires op.CreateControl? || op.UpdateControl? || op.DeleteControl?
    requires Consistent(db) && PerformControl(db, op).Ok?
    ensures Consistent(PerformControl(db, op).value)
  {
    hide FlightStorable, ControlStorable, Aggregate, CheckControl, Refreshed, WithProfile, TotalsOf;
    match op
    case CreateControl(cid, request) =>
      WithProfileKeeps(db, cid);
      var ensured := WithProfile(db, cid).value;
      var row := CheckControl(cid, request.value).value;
      CheckedControlIsStorable(cid, request.value);
      InsertKeepsOthers(ensured.controls, row);
      MovedControlsRefresh(ensured, Insert(ensured.controls, row), cid);
    case UpdateControl(id, request) =>
      var cid := db.controls.rows[id].userCid;
      var row := CheckControl(cid, request.value).value;
      CheckedControlIsStorable(cid, request.value);
      ReplaceKeepsOthers(db.controls, id, row);
      MovedControlsRefresh(db, Replace(db.controls, id, row), cid);
    case DeleteControl(id) =>
      RemoveKeepsOthers(db.controls, id);
      MovedControlsRefresh(db, Remove(db.controls, id), db.controls.rows[id].userCid);
  }

  /** Every call, whether it commits or rolls back, keeps every cached total exact. */
  lemma AfterKeepsConsistent(db: Database, op: Op)
    requires Consistent(db)
    ensures Consistent(After(db, op))
  {
    hide Consistent, PerformFlight, PerformControl, WithProfile;
    match op
    case EnsureProfile(cid) =>
      if WithProfile(db, cid).Ok? {
        WithProfileKeeps(db, cid);
      }
    case CreateFlight(_, _) | UpdateFlight(_, _) | DeleteFlight(_) =>
      if PerformFlight(db, op).Ok? {
        FlightKeepsConsistent(db, op);
      }
    case CreateControl(_, _) | UpdateControl(_, _) | DeleteControl(_) =>
      if PerformControl(db, op).Ok? {
        ControlKeepsConsistent(db, op);
      }
    case SignUp(cid) => SignUpKeepsConsistent(db, cid);
  }

  lemma SignUpKeepsConsistent(db: Database, cid: int)
    requires Consistent(db)
    ensures Consistent(db.(accounts := db.accounts + {cid}))
  {
    hide FlightStorable, ControlStorable, Aggregate, TotalsOf;
    var after := db.(accounts := db.accounts + {cid});
    assert forall c :: Exact(after, c) == Exact(db, c);
  }

  /** After any sequence of calls by any users, every profile's four totals are the aggregates over that
      user's records. */
  lemma {:induction false} RunKeepsConsistent(db: Database, ops: seq<Op>)
    requires Consistent(db)
    ensures Consistent(Run(db, ops))
  {
    hide Consistent, After;
    if ops == [] {
    } else {
      RunKeepsConsistent(db, ops[..|ops| - 1]);
      AfterKeepsConsistent(Run(db, ops[..|ops| - 1]), ops[|ops| - 1]);
    }
  }

  // ----- what it means -----

  /** Each cached duration is at least its count: no record is shorter than a minute. */
  lemma DurationsCoverCounts(db: Database, cid: int)
    requires Consistent(db) && cid in db.profiles
    ensures var p := db.profiles[cid];
            && p.flightCount.Some? && p.flightMinutes.Some? && p.flightMinutes.value >= p.flightCount.value >= 0
            && p.controlCount.Some? && p.controlMinutes.Some? && p.controlMinutes.value >= p.controlCount.value >= 0
  {
    MinutesCoverCount(db.flights.rows, cid, db.flights.next);
    MinutesCoverCount(db.controls.rows, cid, db.controls.next);
    hide Aggregate, Trimmed, Fits;
  }

  /** What a committed call changes in a user's flight and control totals. */
  function FlightDelta(db: Database, op: Op, user: int): Totals
    requires Perform(db, op).Ok?
  {
    match op
    case CreateFlight(cid, request) => ShareOf(CheckFlight(cid, request.value).value, user)
    case UpdateFlight(id, request) =>
      var row := db.flights.rows[id];
      ShareOf(CheckFlight(row.userCid, request.value).value, user).Minus(ShareOf(row, user))
    case DeleteFlight(id) => NOTHING.Minus(ShareOf(db.flights.rows[id], user))
    case _ => NOTHING
  }

  function ControlDelta(db: Database, op: Op, user: int): Totals
    requires Perform(db, op).Ok?
  {
    match op
    case CreateControl(cid, request) => ShareOf(CheckControl(cid, request.value).value, user)
    case UpdateControl(id, request) =>
      var row := db.controls.rows[id];
      ShareOf(CheckControl(row.userCid, request.value).value, user).Minus(ShareOf(row, user))
    case DeleteControl(id) => NOTHING.Minus(ShareOf(db.controls.rows[id], user))
    case _ => NOTHING
  }

  function Moved(p: Profile, flights: Totals, controls: Totals): Profile
    requires Filled(p) == p
  {
    Profile(Some(p.flightCount.value + flights.count), Some(p.flightMinutes.value + flights.minutes),
            Some(p.controlCount.value + controls.count), Some(p.controlMinutes.value + controls.minutes))
  }

  lemma FlightTotalsMove(db: Database, op: Op, user: int)
    requires op.CreateFlight? || op.UpdateFlight? || op.DeleteFlight?
    requires Consistent(db) && Perform(db, op).Ok?
    ensures TotalsOf(Perform(db, op).value.flights, user) == TotalsOf(db.flights, user).Plus(FlightDelta(db, op, user))
    ensures Perform(db, op).value.controls == db.controls
  {
    hide TotalsOf, CheckFlight, ProfilesExact, RowsOwned, RowsStorable;
    match op
    case CreateFlight(cid, request) => InsertMoves(db.flights, CheckFlight(cid, request.value).value, user);
    case UpdateFlight(id, request) =>
      ReplaceMoves(db.flights, id, CheckFlight(db.flights.rows[id].userCid, request.value).value, user);
    case DeleteFlight(id) => RemoveMoves(db.flights, id, user);
  }

  lemma ControlTotalsMove(db: Database, op: Op, user: int)
    requires op.CreateControl? || op.UpdateControl? || op.DeleteControl?
    requires Consistent(db) && Perform(db, op).Ok?
    ensures TotalsOf(Perform(db, op).value.controls, user) == TotalsOf(db.controls, user).Plus(ControlDelta(db, op, user))
    ensures Perform(db, op).value.flights == db.flights
  {
    hide TotalsOf, CheckControl, ProfilesExact, RowsOwned, RowsStorable;
    match op
    case CreateControl(cid, request) => InsertMoves(db.controls, CheckControl(cid, request.value).value, user);
    case UpdateControl(id, request) =>
      ReplaceMoves(db.controls, id, CheckControl(db.controls.rows[id].userCid, request.value).value, user);
    case DeleteControl(id) => RemoveMoves(db.controls, id, user);
  }

  lemma TotalsMove(db: Database, op: Op, user: int)
    requires Consistent(db) && Perform(db, op).Ok?
    ensures var after := Perform(db, op).value;
            && TotalsOf(after.flights, user) == TotalsOf(db.flights, user).Plus(FlightDelta(db, op, user))
            && TotalsOf(after.controls, user) == TotalsOf(db.controls, user).Plus(ControlDelta(db, op, user))
  {
    hide TotalsOf, PerformFlight, PerformControl, Consistent, CheckFlight, CheckControl;
    match op
    case CreateFlight(_, _) | UpdateFlight(_, _) | DeleteFlight(_) => FlightTotalsMove(db, op, user);
    case CreateControl(_, _) | UpdateControl(_, _) | DeleteControl(_) => ControlTotalsMove(db, op, user);
    case _ =>
  }

  /** A committed call moves its owner's cached totals by exactly the record's part - up by a new one,
      by the difference for a change, down by a deleted one - and leaves every other profile alone. */
  lemma ProfilesMoveExactly(db: Database, op: Op, user: int)
    requires Consistent(db) && Perform(db, op).Ok? && user in db.profiles
    ensures user in After(db, op).profiles && Filled(db.profiles[user]) == db.profiles[user]
    ensures After(db, op).profiles[user] == Moved(db.profiles[user], FlightDelta(db, op, user), ControlDelta(db, op, user))
  {
    var after, flights, controls := Perform(db, op).value, FlightDelta(db, op, user), ControlDelta(db, op, user);
    TotalsMove(db, op, user);
    AfterKeepsConsistent(db, op);
    ProfilesStay(db, op, user);
    assert After(db, op) == after;
    ConsistentProfile(db, user);
    ConsistentProfile(after, user);
    hide *;
    ExactMoves(db, after, user, flights, controls);
  }

  lemma ExactMoves(db: Database, after: Database, user: int, flights: Totals, controls: Totals)
    requires TotalsOf(after.flights, user) == TotalsOf(db.flights, user).Plus(flights)
    requires TotalsOf(after.controls, user) == TotalsOf(db.controls, user).Plus(controls)
    ensures Filled(Exact(db, user)) == Exact(db, user)
    ensures Exact(after, user) == Moved(Exact(db, user), flights, controls)
  {
    hide TotalsOf;
  }

  lemma ConsistentProfile(db: Database, user: int)
    requires Consistent(db) && user in db.profiles
    ensures db.profiles[user] == Exact(db, user)
  {
    hide Exact, RowsStorable, RowsOwned;
  }

  lemma ProfilesStay(db: Database, op: Op, user: int)
    requires Perform(db, op).Ok? && user in db.profiles
    ensures user in Perform(db, op).value.profiles
  {
    hide TotalsOf, CheckFlight, CheckControl;
  }

  /** Deleting the record just created puts the rows and every cached total back; only its id is used
      up. */
  lemma DeleteUndoesCreate(db: Database, cid: int, request: Option<FlightRequest>)
    requires Consistent(db) && cid in db.profiles && Perform(db, CreateFlight(cid, request)).Ok?
    ensures var created := After(db, CreateFlight(cid, request));
            var deleted := After(created, DeleteFlight(db.flights.next));
            deleted == db.(flights := Table(db.flights.rows, db.flights.next + 1))
  {
    hide TotalsOf, CheckFlight, RowsOwned, RowsStorable;
    var row := CheckFlight(cid, request.value).value;
    CheckedFlightIsStorable(cid, request.value);
    var created := After(db, CreateFlight(cid, request));
    var emptied := Remove(created.flights, db.flights.next);
    assert created.flights == Insert(db.flights, row) && created.controls == db.controls;
    assert created.profiles == db.profiles[cid := created.profiles[cid]];
    assert emptied == Table(db.flights.rows, db.flights.next + 1);
    InsertMoves(db.flights, row, cid);
    LastIdIsFree(db.flights, cid);
    assert Exact(db, cid) == db.profiles[cid];
  }

  lemma LastIdIsFree<D>(t: Table<D>, cid: int)
    requires IdsSound(t)
    ensures TotalsOf(Table(t.rows, t.next + 1), cid) == TotalsOf(t, cid)
  {
  }

  /** Creating a flight record commits exactly when the request is accepted, the user has an account, and
      neither count leaves the range of an int. */
  lemma CreateCommitsExactly(db: Database, cid: int, request: Option<FlightRequest>)
    requires Consistent(db)
    ensures Perform(db, CreateFlight(cid, request)).Ok?
       <==> && request.Some? && CheckFlight(cid, request.value).Ok?
            && cid > 0 && cid in db.accounts
            && TotalsOf(db.flights, cid).count < INT_MAX && TotalsOf(db.controls, cid).count <= INT_MAX
  {
    if request.Some? && CheckFlight(cid, request.value).Ok? {
      CheckedFlightIsStorable(cid, request.value);
      InsertMoves(db.flights, CheckFlight(cid, request.value).value, cid);
    }
    hide TotalsOf, CheckFlight, RowsOwned, RowsStorable, ProfilesExact;
  }

  /** Every user's counts fit an int. */
  ghost predicate CountsFit(db: Database) {
    forall cid :: TotalsOf(db.flights, cid).count <= INT_MAX && TotalsOf(db.controls, cid).count <= INT_MAX
  }

  /** Whose records a call changes. */
  function OwnerOf(db: Database, op: Op): int
    requires Perform(db, op).Ok?
  {
    match op
    case CreateFlight(cid, _) => cid
    case UpdateFlight(id, _) => db.flights.rows[id].userCid
    case DeleteFlight(id) => db.flights.rows[id].userCid
    case CreateControl(cid, _) => cid
    case UpdateControl(id, _) => db.controls.rows[id].userCid
    case DeleteControl(id) => db.controls.rows[id].userCid
    case _ => 0
  }

  lemma OwnersCountsFit(db: Database, op: Op)
    requires Perform(db, op).Ok? && !op.EnsureProfile? && !op.SignUp?
    ensures var after, owner := Perform(db, op).value, OwnerOf(db, op);
      TotalsOf(after.flights, owner).count <= INT_MAX && TotalsOf(after.controls, owner).count <= INT_MAX
  {
    hide TotalsOf, CheckFlight, CheckControl, Exact;
  }

  lemma OthersDoNotMove(db: Database, op: Op, user: int)
    requires Perform(db, op).Ok? && (op.EnsureProfile? || op.SignUp? || user != OwnerOf(db, op))
    ensures FlightDelta(db, op, user) == NOTHING && ControlDelta(db, op, user) == NOTHING
  {
    if op.CreateFlight? {
      CheckedFlightIsStorable(op.cid, op.flight.value);
    } else if op.UpdateFlight? {
      CheckedFlightIsStorable(db.flights.rows[op.id].userCid, op.flight.value);
    } else if op.CreateControl? {
      CheckedControlIsStorable(op.cid, op.control.value);
    } else if op.UpdateControl? {
      CheckedControlIsStorable(db.controls.rows[op.id].userCid, op.control.value);
    }
    hide CheckFlight, CheckControl, Refreshed, WithProfile, FlightStorable, ControlStorable;
  }

  /** No call, committed or rolled back, takes a count out of the range of an int. */
  lemma AfterKeepsCounts(db: Database, op: Op)
    requires Consistent(db) && CountsFit(db)
    ensures CountsFit(After(db, op))
  {
    if Perform(db, op).Ok? {
      var after := Perform(db, op).value;
      if !op.EnsureProfile? && !op.SignUp? {
        OwnersCountsFit(db, op);
      }
      forall cid ensures TotalsOf(after.flights, cid).count <= INT_MAX && TotalsOf(after.controls, cid).count <= INT_MAX {
        if op.EnsureProfile? || op.SignUp? || cid != OwnerOf(db, op) {
          OthersDoNotMove(db, op, cid);
          TotalsMove(db, op, cid);
        }
        hide Perform, TotalsOf, FlightDelta, ControlDelta, OwnerOf, Consistent;
      }
    }
  }

  lemma {:induction false} RunKeepsCounts(db: Database, ops: seq<Op>)
    requires Consistent(db) && CountsFit(db)
    ensures Consistent(Run(db, ops)) && CountsFit(Run(db, ops))
  {
    RunKeepsConsistent(db, ops);
    hide Consistent, CountsFit, After;
    if ops != [] {
      RunKeepsCounts(db, ops[..|ops| - 1]);
      AfterKeepsCounts(Run(db, ops[..|ops| - 1]), ops[|ops| - 1]);
    }
  }

  lemma RefreshCommits(db: Database, cid: int)
    ensures Refreshed(db, cid).Ok?
       <==> && cid > 0 && cid in db.accounts
            && TotalsOf(db.flights, cid).count <= INT_MAX && TotalsOf(db.controls, cid).count <= INT_MAX
  {
    hide TotalsOf;
  }

  /** When a call on flight records commits: creating, for an accepted request, an account, and a count that
      can still grow; changing, for an accepted request and an existing record; deleting, for an existing
      record. */
  lemma FlightCallsCommit(db: Database, cid: int, id: int, request: Option<FlightRequest>)
    requires Consistent(db) && CountsFit(db)
    ensures Perform(db, CreateFlight(cid, request)).Ok?
       <==> && request.Some? && CheckFlight(cid, request.value).Ok?
            && cid > 0 && cid in db.accounts && TotalsOf(db.flights, cid).count < INT_MAX
    ensures Perform(db, UpdateFlight(id, request)).Ok?
       <==> request.Some? && id in db.flights.rows && CheckFlight(db.flights.rows[id].userCid, request.value).Ok?
    ensures Perform(db, DeleteFlight(id)).Ok? <==> id in db.flights.rows
  {
    CreateCommitsExactly(db, cid, request);
    FlightUpdateCommits(db, id, request);
    if id in db.flights.rows {
      var owner := db.flights.rows[id].userCid;
      RemoveMoves(db.flights, id, owner);
      RefreshCommits(db.(flights := Remove(db.flights, id)), owner);
    }
    hide TotalsOf, CheckFlight, Refreshed, RowsStorable, ProfilesExact;
  }

  lemma FlightUpdateCommits(db: Database, id: int, request: Option<FlightRequest>)
    requires Consistent(db) && CountsFit(db)
    ensures Perform(db, UpdateFlight(id, request)).Ok?
       <==> request.Some? && id in db.flights.rows && CheckFlight(db.flights.rows[id].userCid, request.value).Ok?
  {
    if request.Some? && id in db.flights.rows {
      var owner := db.flights.rows[id].userCid;
      var checked := CheckFlight(owner, request.value);
      if checked.Ok? {
        CheckedFlightIsStorable(owner, request.value);
        ReplaceMoves(db.flights, id, checked.value, owner);
        RefreshCommits(db.(flights := Replace(db.flights, id, checked.value)), owner);
      }
    }
    hide TotalsOf, CheckFlight, Refreshed, RowsStorable, ProfilesExact;
  }

  /** The same for calls on control records. */
  lemma ControlCallsCommit(db: Database, cid: int, id: int, request: Option<ControlRequest>)
    requires Consistent(db) && CountsFit(db)
    ensures Perform(db, CreateControl(cid, request)).Ok?
       <==> && request.Some? && CheckControl(cid, request.value).Ok?
            && cid > 0 && cid in db.accounts && TotalsOf(db.controls, cid).count < INT_MAX
    ensures Perform(db, UpdateControl(id, request)).Ok?
       <==> request.Some? && id in db.controls.rows && CheckControl(db.controls.rows[id].userCid, request.value).Ok?
    ensures Perform(db, DeleteControl(id)).Ok? <==> id in db.controls.rows
  {
    ControlCreationCommits(db, cid, request);
    ControlUpdateCommits(db, id, request);
    if id in db.controls.rows {
      var owner := db.controls.rows[id].userCid;
      RemoveMoves(db.controls, id, owner);
      RefreshCommits(db.(controls := Remove(db.controls, id)), owner);
    }
    hide TotalsOf, CheckControl, Refreshed, RowsStorable, ProfilesExact;
  }

  lemma ControlCreationCommits(db: Database, cid: int, request: Option<ControlRequest>)
    requires Consistent(db) && CountsFit(db)
    ensures Perform(db, CreateControl(cid, request)).Ok?
       <==> && request.Some? && CheckControl(cid, request.value).Ok?
            && cid > 0 && cid in db.accounts && TotalsOf(db.controls, cid).count < INT_MAX
  {
    if request.Some? && CheckControl(cid, request.value).Ok? && WithProfile(db, cid).Ok? {
      CheckedControlIsStorable(cid, request.value);
      var row := CheckControl(cid, request.value).value;
      InsertMoves(db.controls, row, cid);
      RefreshCommits(WithProfile(db, cid).value.(controls := Insert(db.controls, row)), cid);
    }
    hide TotalsOf, CheckControl, Refreshed, RowsOwned, RowsStorable, ProfilesExact;
  }

  lemma ControlUpdateCommits(db: Database, id: int, request: Option<ControlRequest>)
    requires Consistent(db) && CountsFit(db)
    ensures Perform(db, UpdateControl(id, request)).Ok?
       <==> request.Some? && id in db.controls.rows && CheckControl(db.controls.rows[id].userCid, request.value).Ok?
  {
    if request.Some? && id in db.controls.rows {
      var owner := db.controls.rows[id].userCid;
      var checked := CheckControl(owner, request.value);
      if checked.Ok? {
        CheckedControlIsStorable(owner, request.value);
        ReplaceMoves(db.controls, id, checked.value, owner);
        RefreshCommits(db.(controls := Replace(db.controls, id, checked.value)), owner);
      }
    }
    hide TotalsOf, CheckControl, Refreshed, RowsStorable, ProfilesExact;
  }

  // ----- what is stored -----

  /** The stored text is the request's less the blanks at both ends; none for a missing or all-blank one. */
  ghost predicate IsTextOf(stored: Option<string>, given: Option<string>) {
    if given.None? || Blank(given.value, 0, |given.value|) then stored.None?
    else
      && stored.Some? && Trimmed(stored.value)
      && exists i, j :: 0 <= i <= j <= |given.value| && stored.value == given.value[i..j]
                        && Blank(given.value, 0, i) && Blank(given.value, j, |given.value|)
  }

  /** The stated minutes, or else the whole minutes of the period. */
  predicate AreMinutesOf(stored: int, startedAt: int, endedAt: int, minutes: Option<int>) {
    if minutes.Some? then stored == minutes.value
    else stored * 60_000_000_000 <= endedAt - startedAt < (stored + 1) * 60_000_000_000
  }

  ghost predicate FlightIsOf(row: Owned<FlightDetail>, cid: int, request: FlightRequest) {
    && row.userCid == cid
    && request.startedAt == Some(row.detail.startedAt) && request.endedAt == Some(row.detail.endedAt)
    && AreMinutesOf(row.minutes, row.detail.startedAt, row.detail.endedAt, request.minutes)
    && IsTextOf(Some(row.detail.callsign), request.callsign)
    && IsTextOf(row.detail.departure, request.departure) && IsTextOf(row.detail.arrival, request.arrival)
    && IsTextOf(row.detail.remarks, request.remarks)
  }

  ghost predicate ControlIsOf(row: Owned<ControlDetail>, cid: int, request: ControlRequest) {
    && row.userCid == cid
    && request.startedAt == Some(row.detail.startedAt) && request.endedAt == Some(row.detail.endedAt)
    && AreMinutesOf(row.minutes, row.detail.startedAt, row.detail.endedAt, request.minutes)
    && IsTextOf(Some(row.detail.position), request.position)
    && IsTextOf(row.detail.airport, request.airport) && IsTextOf(row.detail.remarks, request.remarks)
    && request.facilityType == Some(row.detail.facilityType)
  }

  lemma NormalizedIsText(value: Option<string>, maxLength: nat)
    ensures var r := NormalizeNullable(value, maxLength); r.Ok? ==> IsTextOf(r.value, value)
    ensures var r := NormalizeRequired(value, maxLength); r.Ok? ==> IsTextOf(Some(r.value), value)
  {
    if value.Some? {
      TrimIsExact(value.value);
    }
  }

  lemma MinutesAreOf(startedAt: int, endedAt: int, minutes: Option<int>)
    ensures var r := ResolveDurationMinutes(startedAt, endedAt, minutes);
      r.Ok? ==> AreMinutesOf(r.value, startedAt, endedAt, minutes)
  {
    DurationIsAccepted(startedAt, endedAt, minutes);
  }

  lemma CheckedFlightIsOf(cid: int, request: FlightRequest)
    ensures var r := CheckFlight(cid, request); r.Ok? ==> FlightIsOf(r.value, cid, request)
  {
    hide NormalizeNullable, NormalizeRequired, ResolveDurationMinutes, IsTextOf, AreMinutesOf;
    NormalizedIsText(request.callsign, 32);
    NormalizedIsText(request.departure, 8);
    NormalizedIsText(request.arrival, 8);
    NormalizedIsText(request.remarks, 1000);
    if request.startedAt.Some? && request.endedAt.Some? {
      MinutesAreOf(request.startedAt.value, request.endedAt.value, request.minutes);
    }
  }

  lemma CheckedControlIsOf(cid: int, request: ControlRequest)
    ensures var r := CheckControl(cid, request); r.Ok? ==> ControlIsOf(r.value, cid, request)
  {
    hide NormalizeNullable, NormalizeRequired, ResolveDurationMinutes, IsTextOf, AreMinutesOf;
    NormalizedIsText(request.position, 32);
    NormalizedIsText(request.airport, 8);
    NormalizedIsText(request.remarks, 1000);
    if request.startedAt.Some? && request.endedAt.Some? {
      MinutesAreOf(request.startedAt.value, request.endedAt.value, request.minutes);
    }
  }

  /** What a committed call on flight records leaves in the tables: the request's own record under a new id
      or in the place of the old one, or one record less; every other row stays. */
  lemma FlightCallsStore(db: Database, op: Op)
    requires Perform(db, op).Ok? && (op.CreateFlight? || op.UpdateFlight? || op.DeleteFlight?)
    ensures
      var after, rows := Perform(db, op).value, db.flights.rows;
      && after.accounts == db.accounts && after.controls == db.controls
      && (op.CreateFlight? ==>
            var id := db.flights.next;
            && op.flight.Some? && after.flights.next == id + 1
            && exists row :: after.flights.rows == rows[id := row] && FlightIsOf(row, op.cid, op.flight.value))
      && (op.UpdateFlight? ==>
            && op.flight.Some? && op.id in rows && after.flights.next == db.flights.next
            && exists row :: after.flights.rows == rows[op.id := row] && FlightIsOf(row, rows[op.id].userCid, op.flight.value))
      && (op.DeleteFlight? ==> op.id in rows && after.flights == Table(rows - {op.id}, db.flights.next))
  {
    hide CheckFlight, Exact, TotalsOf, FlightIsOf;
    if op.CreateFlight? {
      CheckedFlightIsOf(op.cid, op.flight.value);
    } else if op.UpdateFlight? {
      CheckedFlightIsOf(db.flights.rows[op.id].userCid, op.flight.value);
    }
  }

  /** The same for control records. */
  lemma ControlCallsStore(db: Database, op: Op)
    requires Perform(db, op).Ok? && (op.CreateControl? || op.UpdateControl? || op.DeleteControl?)
    ensures
      var after, rows := Perform(db, op).value, db.controls.rows;
      && after.accounts == db.accounts && after.flights == db.flights
      && (op.CreateControl? ==>
            var id := db.controls.next;
            && op.control.Some? && after.controls.next == id + 1
            && exists row :: after.controls.rows == rows[id := row] && ControlIsOf(row, op.cid, op.control.value))
      && (op.UpdateControl? ==>
            && op.control.Some? && op.id in rows && after.controls.next == db.controls.next
            && exists row :: after.controls.rows == rows[op.id := row] && ControlIsOf(row, rows[op.id].userCid, op.control.value))
      && (op.DeleteControl? ==> op.id in rows && after.controls == Table(rows - {op.id}, db.controls.next))
  {
    hide CheckControl, Exact, TotalsOf, ControlIsOf;
    if op.CreateControl? {
      CheckedControlIsOf(op.cid, op.control.value);
    } else if op.UpdateControl? {
      CheckedControlIsOf(db.controls.rows[op.id].userCid, op.control.value);
    }
  }

  // ----- startup -----

  /** What startup does for one account: fill in its profile and recompute its totals. */
  function Settled(db: Database, cid: int): Result<Database, Error> {
    var ensured :- WithProfile(db, cid);
    Refreshed(ensured, cid)
  }

  function Startup(db: Database, cids: seq<int>): Result<Database, Error> {
    if cids == [] then Ok(db)
    else
      var db' :- Startup(db, cids[..|cids| - 1]);
      Settled(db', cids[|cids| - 1])
  }

  /** Startup repairs any cached totals, whatever they were: with records and profiles of known accounts
      only, the database it leaves is consistent. */
  lemma StartupEstablishes(db: Database, cids: seq<int>)
    requires IdsSound(db.flights) && IdsSound(db.controls) && RowsStorable(db)
    requires forall id :: id in db.flights.rows ==> db.flights.rows[id].userCid in db.accounts
    requires forall id :: id in db.controls.rows ==> db.controls.rows[id].userCid in db.accounts
    requires forall cid :: cid in db.profiles ==> cid in db.accounts
    requires forall cid :: cid in db.accounts <==> cid in cids
    requires Startup(db, cids).Ok?
    ensures Consistent(Startup(db, cids).value)
  {
    var after := Startup(db, cids).value;
    StartupSettles(db, cids);
    hide Startup, Aggregate, RowsStorable, FlightStorable, ControlStorable;
    forall cid | cid in after.profiles ensures after.profiles[cid] == Exact(after, cid) {
      assert cid in cids;
    }
    OwnersSettled(db, after, db.flights, cids);
    OwnersSettled(db, after, db.controls, cids);
  }

  /** It also leaves every count in the range of an int, or it does not commit. */
  lemma StartupFits(db: Database, cids: seq<int>)
    requires forall id :: id in db.flights.rows ==> db.flights.rows[id].userCid in cids
    requires forall id :: id in db.controls.rows ==> db.controls.rows[id].userCid in cids
    requires Startup(db, cids).Ok?
    ensures CountsFit(Startup(db, cids).value)
  {
    StartupSettles(db, cids);
    CountsSettled(db, cids);
    forall cid | cid !in cids
      ensures TotalsOf(db.flights, cid) == NOTHING && TotalsOf(db.controls, cid) == NOTHING
    {
      NoRowsNoTotals(db.flights.rows, cid, db.flights.next);
      NoRowsNoTotals(db.controls.rows, cid, db.controls.next);
    }
    hide Startup, TotalsOf;
  }

  lemma {:induction false} CountsSettled(db: Database, cids: seq<int>)
    requires Startup(db, cids).Ok?
    ensures forall cid :: cid in cids ==>
      TotalsOf(db.flights, cid).count <= INT_MAX && TotalsOf(db.controls, cid).count <= INT_MAX
  {
    hide TotalsOf;
    if cids != [] {
      var init, last := cids[..|cids| - 1], cids[|cids| - 1];
      CountsSettled(db, init);
      StartupSettles(db, init);
      assert forall cid :: cid in cids <==> cid in init || cid == last;
    }
  }

  lemma OwnersSettled<D>(db: Database, after: Database, t: Table<D>, cids: seq<int>)
    requires forall id :: id in t.rows ==> t.rows[id].userCid in db.accounts
    requires forall cid :: cid in db.accounts ==> cid in cids
    requires forall cid :: cid in cids ==> cid > 0 && cid in after.profiles
    requires after.accounts == db.accounts
    ensures RowsOwned(t, after)
  {
  }

  lemma {:induction false} StartupSettles(db: Database, cids: seq<int>)
    requires Startup(db, cids).Ok?
    ensures var after := Startup(db, cids).value;
            && after == db.(profiles := after.profiles)
            && (forall cid :: cid in cids ==> cid > 0 && cid in after.profiles && after.profiles[cid] == Exact(db, cid))
            && (forall cid :: cid in after.profiles ==> cid in db.profiles || cid in cids)
  {
    hide TotalsOf;
    if cids == [] {
    } else {
      var init, last := cids[..|cids| - 1], cids[|cids| - 1];
      StartupSettles(db, init);
      SettledIs(Startup(db, init).value, last);
      hide Settled;
      assert forall cid :: cid in cids <==> cid in init || cid == last;
    }
  }

  lemma SettledIs(db: Database, cid: int)
    requires Settled(db, cid).Ok?
    ensures cid > 0 && Settled(db, cid).value == db.(profiles := db.profiles[cid := Exact(db, cid)])
  {
    hide TotalsOf;
  }

  lemma StartupStep(db: Database, cids: seq<int>, i: nat)
    requires i < |cids| && Startup(db, cids[..i]).Ok?
    ensures Startup(db, cids[..i + 1]) == Settled(Startup(db, cids[..i]).value, cids[i])
  {
    assert cids[..i + 1][..i] == cids[..i];
  }

  lemma {:induction false} StartupFails(db: Database, cids: seq<int>, i: nat)
    requires i < |cids| && Startup(db, cids[..i + 1]).Err?
    ensures Startup(db, cids) == Startup(db, cids[..i + 1])
    decreases |cids|
  {
    if i + 1 == |cids| {
      assert cids[..i + 1] == cids;
    } else {
      var init := cids[..|cids| - 1];
      assert init[..i + 1] == cids[..i + 1];
      StartupFails(db, init, i);
    }
  }

  // ----- the services -----

  class Services {
    var accounts: set<int>
    var profiles: map<int, Profile>
    var flights: Table<FlightDetail>
    var controls: Table<ControlDetail>

    ghost function Db(): Database
      reads this
    {
      Database(accounts, profiles, flights, controls)
    }

    constructor (accounts: set<int>, profiles: map<int, Profile>,
                 flights: Table<FlightDetail>, controls: Table<ControlDetail>)
      ensures Db() == Database(accounts, profiles, flights, controls)
    {
      this.accounts, this.profiles, this.flights, this.controls := accounts, profiles, flights, controls;
    }

    /** Create the profile, or fill the totals that are null. */
    method EnsureUserProfile(cid: int) returns (r: Result<Profile, Error>)
      modifies this`profiles
      ensures WithProfile(old(Db()), cid)
           == if r.Ok? then Ok(old(Db()).(profiles := profiles)) else Err(r.error)
      ensures r.Ok? ==> cid in profiles && r.value == profiles[cid]
      ensures r.Err? ==> profiles == old(profiles)
    {
      if cid <= 0 {
        return Err(NotPositive);
      }
      if cid !in accounts {
        return Err(NoSuchUser);
      }
      if cid in profiles {
        var profile := profiles[cid];
        var changed := false;
        if profile.flightCount.None? {
          profile := profile.(flightCount := Some(0));
          changed := true;
        }
        if profile.flightMinutes.None? {
          profile := profile.(flightMinutes := Some(0));
          changed := true;
        }
        if profile.controlCount.None? {
          profile := profile.(controlCount := Some(0));
          changed := true;
        }
        if profile.controlMinutes.None? {
          profile := profile.(controlMinutes := Some(0));
          changed := true;
        }
        if changed {
          profiles := profiles[cid := profile];
        }
        assert profiles == old(profiles)[cid := profile];
        return Ok(profile);
      }
      profiles := profiles[cid := EMPTY_PROFILE];
      r := Ok(EMPTY_PROFILE);
    }

    /** Recompute the four totals of one user. */
    method RefreshStats(cid: int) returns (r: Result<(), Error>)
      modifies this`profiles
      ensures Refreshed(old(Db()), cid)
           == if r.Ok? then Ok(old(Db()).(profiles := profiles)) else Err(r.error)
    {
      hide TotalsOf;
      var ensured := EnsureUserProfile(cid);
      if ensured.Err? {
        return Err(ensured.error);
      }
      var profile := ensured.value;
      if TotalsOf(flights, cid).count > INT_MAX {
        return Err(CountOverflow);
      }
      profile := profile.(flightCount := Some(TotalsOf(flights, cid).count));
      profile := profile.(flightMinutes := Some(TotalsOf(flights, cid).minutes));
      if TotalsOf(controls, cid).count > INT_MAX {
        return Err(CountOverflow);
      }
      profile := profile.(controlCount := Some(TotalsOf(controls, cid).count));
      profile := profile.(controlMinutes := Some(TotalsOf(controls, cid).minutes));
      profiles := profiles[cid := profile];
      r := Ok(());
    }

    method Rollback(before: Database)
      modifies this
      ensures Db() == before
    {
      accounts, profiles, flights, controls := before.accounts, before.profiles, before.flights, before.controls;
    }

    /** FlightRecordServiceImpl.create as a transaction: it commits what the steps did or nothing. */
    method CreateFlightRecord(cid: int, request: Option<FlightRequest>) returns (r: Result<(nat, Owned<FlightDetail>), Error>)
      modifies this
      ensures Db() == After(old(Db()), CreateFlight(cid, request))
      ensures Perform(old(Db()), CreateFlight(cid, request)) == if r.Ok? then Ok(Db()) else Err(r.error)
      ensures r.Ok? ==> r.value.0 == old(flights).next && r.value.0 in flights.rows && r.value.1 == flights.rows[r.value.0]
      ensures r.Ok? ==> request.Some? && FlightIsOf(r.value.1, cid, request.value)
    {
      hide PerformFlight, FlightIsOf;
      var before := Database(accounts, profiles, flights, controls);
      r := CreateFlightSteps(cid, request);
      if r.Err? {
        Rollback(before);
      }
    }

    method CreateFlightSteps(cid: int, request: Option<FlightRequest>) returns (r: Result<(nat, Owned<FlightDetail>), Error>)
      modifies this`profiles, this`flights
      ensures PerformFlight(old(Db()), CreateFlight(cid, request)) == if r.Ok? then Ok(Db()) else Err(r.error)
      ensures r.Ok? ==> r.value.0 == old(flights).next && r.value.0 in flights.rows && r.value.1 == flights.rows[r.value.0]
      ensures r.Ok? ==> request.Some? && FlightIsOf(r.value.1, cid, request.value)
    {
      hide CheckFlight, Exact, FlightIsOf;
      if request.None? {
        return Err(RequestMissing);
      }
      var ensured := EnsureUserProfile(cid);
      if ensured.Err? {
        return Err(ensured.error);
      }
      CheckedFlightIsOf(cid, request.value);
      var row := CheckFlight(cid, request.value);
      if row.Err? {
        return Err(row.error);
      }
      var id := flights.next;
      flights := Insert(flights, row.value);
      var refreshed := RefreshStats(cid);
      if refreshed.Err? {
        return Err(refreshed.error);
      }
      r := Ok((id, row.value));
    }

    method UpdateFlightRecord(id: int, request: Option<FlightRequest>) returns (r: Result<Owned<FlightDetail>, Error>)
      modifies this
      ensures Db() == After(old(Db()), UpdateFlight(id, request))
      ensures Perform(old(Db()), UpdateFlight(id, request)) == if r.Ok? then Ok(Db()) else Err(r.error)
      ensures r.Ok? ==> id in flights.rows && r.value == flights.rows[id]
      ensures r.Ok? ==> request.Some? && id in old(flights).rows && FlightIsOf(r.value, old(flights).rows[id].userCid, request.value)
    {
      hide PerformFlight, FlightIsOf;
      var before := Database(accounts, profiles, flights, controls);
      r := UpdateFlightSteps(id, request);
      if r.Err? {
        Rollback(before);
      }
    }

    method UpdateFlightSteps(id: int, request: Option<FlightRequest>) returns (r: Result<Owned<FlightDetail>, Error>)
      modifies this`profiles, this`flights
      ensures PerformFlight(old(Db()), UpdateFlight(id, request)) == if r.Ok? then Ok(Db()) else Err(r.error)
      ensures r.Ok? ==> id in flights.rows && r.value == flights.rows[id]
      ensures r.Ok? ==> request.Some? && id in old(flights).rows && FlightIsOf(r.value, old(flights).rows[id].userCid, request.value)
    {
      hide CheckFlight, Exact, FlightIsOf;
      if request.None? {
        return Err(RequestMissing);
      }
      var record := GetEntity(flights, id);
      if record.Err? {
        return Err(record.error);
      }
      CheckedFlightIsOf(record.value.userCid, request.value);
      var row := CheckFlight(record.value.userCid, request.value);
      if row.Err? {
        return Err(row.error);
      }
      flights := Replace(flights, id, row.value);
      var refreshed := RefreshStats(record.value.userCid);
      if refreshed.Err? {
        return Err(refreshed.error);
      }
      r := Ok(row.value);
    }

    method DeleteFlightRecord(id: int) returns (r: Result<(), Error>)
      modifies this
      ensures Db() == After(old(Db()), DeleteFlight(id))
      ensures Perform(old(Db()), DeleteFlight(id)) == if r.Ok? then Ok(Db()) else Err(r.error)
    {
      hide Refreshed;
      var before := Database(accounts, profiles, flights, controls);
      var record := GetEntity(flights, id);
      if record.Err? {
        return Err(record.error);
      }
      flights := Remove(flights, id);
      r := RefreshStats(record.value.userCid);
      if r.Err? {
        Rollback(before);
      }
    }

    /** ControlRecordServiceImpl.create as a transaction: it commits what the steps did or nothing. */
    method CreateControlRecord(cid: int, request: Option<ControlRequest>) returns (r: Result<(nat, Owned<ControlDetail>), Error>)
      modifies this
      ensures Db() == After(old(Db()), CreateControl(cid, request))
      ensures Perform(old(Db()), CreateControl(cid, request)) == if r.Ok? then Ok(Db()) else Err(r.error)
      ensures r.Ok? ==> r.value.0 == old(controls).next && r.value.0 in controls.rows && r.value.1 == controls.rows[r.value.0]
      ensures r.Ok? ==> request.Some? && ControlIsOf(r.value.1, cid, request.value)
    {
      hide PerformControl, ControlIsOf;
      var before := Database(accounts, profiles, flights, controls);
      r := CreateControlSteps(cid, request);
      if r.Err? {
        Rollback(before);
      }
    }

    method CreateControlSteps(cid: int, request: Option<ControlRequest>) returns (r: Result<(nat, Owned<ControlDetail>), Error>)
      modifies this`profiles, this`controls
      ensures PerformControl(old(Db()), CreateControl(cid, request)) == if r.Ok? then Ok(Db()) else Err(r.error)
      ensures r.Ok? ==> r.value.0 == old(controls).next && r.value.0 in controls.rows && r.value.1 == controls.rows[r.value.0]
      ensures r.Ok? ==> request.Some? && ControlIsOf(r.value.1, cid, request.value)
    {
      hide CheckControl, Exact, ControlIsOf;
      if request.None? {
        return Err(RequestMissing);
      }
      var ensured := EnsureUserProfile(cid);
      if ensured.Err? {
        return Err(ensured.error);
      }
      CheckedControlIsOf(cid, request.value);
      var row := CheckControl(cid, request.value);
      if row.Err? {
        return Err(row.error);
      }
      var id := controls.next;
      controls := Insert(controls, row.value);
      var refreshed := RefreshStats(cid);
      if refreshed.Err? {
        return Err(refreshed.error);
      }
      r := Ok((id, row.value));
    }

    method UpdateControlRecord(id: int, request: Option<ControlRequest>) returns (r: Result<Owned<ControlDetail>, Error>)
      modifies this
      ensures Db() == After(old(Db()), UpdateControl(id, request))
      ensures Perform(old(Db()), UpdateControl(id, request)) == if r.Ok? then Ok(Db()) else Err(r.error)
      ensures r.Ok? ==> id in controls.rows && r.value == controls.rows[id]
      ensures r.Ok? ==> request.Some? && id in old(controls).rows && ControlIsOf(r.value, old(controls).rows[id].userCid, request.value)
    {
      hide PerformControl, ControlIsOf;
      var before := Database(accounts, profiles, flights, controls);
      r := UpdateControlSteps(id, request);
      if r.Err? {
        Rollback(before);
      }
    }

    method UpdateControlSteps(id: int, request: Option<ControlRequest>) returns (r: Result<Owned<ControlDetail>, Error>)
      modifies this`profiles, this`controls
      ensures PerformControl(old(Db()), UpdateControl(id, request)) == if r.Ok? then Ok(Db()) else Err(r.error)
      ensures r.Ok? ==> id in controls.rows && r.value == controls.rows[id]
      ensures r.Ok? ==> request.Some? && id in old(controls).rows && ControlIsOf(r.value, old(controls).rows[id].userCid, request.value)
    {
      hide CheckControl, Exact, ControlIsOf;
      if request.None? {
        return Err(RequestMissing);
      }
      var record := GetEntity(controls, id);
      if record.Err? {
        return Err(record.error);
      }
      CheckedControlIsOf(record.value.userCid, request.value);
      var row := CheckControl(record.value.userCid, request.value);
      if row.Err? {
        return Err(row.error);
      }
      controls := Replace(controls, id, row.value);
      var refreshed := RefreshStats(record.value.userCid);
      if refreshed.Err? {
        return Err(refreshed.error);
      }
      r := Ok(row.value);
    }

    method DeleteControlRecord(id: int) returns (r: Result<(), Error>)
      modifies this
      ensures Db() == After(old(Db()), DeleteControl(id))
      ensures Perform(old(Db()), DeleteControl(id)) == if r.Ok? then Ok(Db()) else Err(r.error)
    {
      hide Refreshed;
      var before := Database(accounts, profiles, flights, controls);
      var record := GetEntity(controls, id);
      if record.Err? {
        return Err(record.error);
      }
      controls := Remove(controls, id);
      r := RefreshStats(record.value.userCid);
      if r.Err? {
        Rollback(before);
      }
    }

    /** The loop of ensureUserProfilesAndAuthTimestamps over the accounts. */
    method RefreshAll(cids: seq<int>) returns (r: Result<(), Error>)
      modifies this
      ensures Startup(old(Db()), cids) == if r.Ok? then Ok(Db()) else Err(r.error)
      ensures r.Err? ==> Db() == old(Db())
    {
      hide WithProfile, Refreshed;
      var before := Database(accounts, profiles, flights, controls);
      var i := 0;
      r := Ok(());
      while i < |cids|
        invariant 0 <= i <= |cids|
        invariant Startup(before, cids[..i]) == Ok(Db())
      {
        StartupStep(before, cids, i);
        hide Startup;
        var ensured := EnsureUserProfile(cids[i]);
        if ensured.Err? {
          StartupFails(before, cids, i);
          Rollback(before);
          return Err(ensured.error);
        }
        var refreshed := RefreshStats(cids[i]);
        if refreshed.Err? {
          StartupFails(before, cids, i);
          Rollback(before);
          return Err(refreshed.error);
        }
        i := i + 1;
      }
      assert cids[..i] == cids;
    }
  }
}

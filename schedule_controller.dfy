/**
 * src/controllers/rest/ScheduleController.ts: the dealer check, the
 * checks on the body's schedule_date and quota, the DTO built for an
 * update, and the mapping of service results onto replies.
 *
 * Body values are JSON values; `new Date(value)` is the parameter
 * `toDate`, because date parsing is not part of this model.
 */
module ScheduleController {
  import opened Wrappers
  import opened Service
  import opened Time
  import opened Db
  import opened JsText
  import opened HttpReply
  import opened ScheduleEntity
  import opened Store
  import ScheduleService

  const UnauthenticatedMessage: string := "Dealer tidak terautentikasi"
  const AvailableFailedMessage: string := "Gagal mengambil jadwal"
  const RequiredMessage: string := "jadwal dan quota harus diisi"
  const PositiveQuotaMessage: string := "quota harus berupa angka dan lebih besar dari 0"
  const InvalidIdMessage: string := "ID jadwal harus berupa angka"
  const NonNegativeQuotaMessage: string := "quota harus berupa angka dan tidak negatif"

  /** A value of the parsed JSON body or query; fractional numbers are not modelled. */
  datatype JsonValue = Undefined | Null | Bool(b: bool) | Num(n: int) | Str(s: string) | Composite

  /** JavaScript truthiness. */
  predicate Truthy(v: JsonValue) {
    match v
    case Undefined => false
    case Null => false
    case Bool(b) => b
    case Num(n) => n != 0
    case Str(s) => s != ""
    case Composite => true
  }

  /** `req.user?.id` passes `!dealerId` when it is present and not 0. */
  predicate Authenticated(dealerId: Option<int>) {
    dealerId.Some? && dealerId.value != 0
  }

  /** getAvailableSchedules: the service filters by `date` only when the query sends a truthy one. */
  function AvailableReply(db: Db, date: JsonValue, toDate: JsonValue -> ParsedDate, now: int)
    : (r: Reply<seq<ScheduleService.AvailableView>>)
    requires Wf(db)
    ensures var filter := if Truthy(date) then toDate(date) else Absent;
            && (filter.Invalid? ==> r == BadRequest(ScheduleService.InvalidDateMessage, []))
            && (!filter.Invalid? ==> r == Successful(ScheduleService.AvailableFetchedMessage,
                                                     ScheduleService.AvailableSchedules(db, filter, now).data))
  {
    var filter := if Truthy(date) then toDate(date) else Absent;
    match ScheduleService.AvailableSchedules(db, filter, now)
    case Success(message, data) => Successful(message, data)
    case Failure(err) => BadRequest(OrElse(err.message, AvailableFailedMessage), [])
  }

  /**
   * The checks createSchedule makes before calling the service: a
   * dealer, a truthy date and quota, and a quota that is a number above
   * zero. Ok carries the DTO.
   */
  function CreateScheduleChecks(dealerId: Option<int>, date: JsonValue, quota: JsonValue, toDate: JsonValue -> ParsedDate)
    : (r: Result<CreateScheduleRequest, Reply<ScheduleService.CreatedSchedule>>)
    ensures r.Ok? <==> Authenticated(dealerId) && Truthy(date) && quota.Num? && quota.n > 0
    ensures r.Ok? ==> r.value == CreateScheduleRequest(toDate(date), quota.n)
    ensures !Authenticated(dealerId) ==> r == Err(Unauthorized(UnauthenticatedMessage))
    ensures Authenticated(dealerId) && !(Truthy(date) && Truthy(quota)) ==> r == Err(BadRequest(RequiredMessage, []))
    ensures Authenticated(dealerId) && Truthy(date) && Truthy(quota) && !(quota.Num? && quota.n > 0)
            ==> r == Err(BadRequest(PositiveQuotaMessage, []))
  {
    if !Authenticated(dealerId) then Err(Unauthorized(UnauthenticatedMessage))
    else if !Truthy(date) || !Truthy(quota) then Err(BadRequest(RequiredMessage, []))
    else if !quota.Num? || quota.n <= 0 then Err(BadRequest(PositiveQuotaMessage, []))
    else Ok(CreateScheduleRequest(toDate(date), quota.n))
  }

  /** createSchedule's reply and the database after it: every service failure becomes a bad request. */
  function CreateScheduleReply(db: Db, dealerId: Option<int>, date: JsonValue, quota: JsonValue,
                               toDate: JsonValue -> ParsedDate, now: int)
    : (res: (Reply<ScheduleService.CreatedSchedule>, Db))
    ensures CreateScheduleChecks(dealerId, date, quota, toDate).Err?
            ==> res == (CreateScheduleChecks(dealerId, date, quota, toDate).error, db)
    ensures CreateScheduleChecks(dealerId, date, quota, toDate).Ok? ==>
            var (r, db') := ScheduleService.CreateSchedule(db, CreateScheduleChecks(dealerId, date, quota, toDate).value,
                                                           dealerId.value, now);
            && res.1 == db'
            && (r.Success? ==> res.0 == Created(Some(r.message), r.data))
            && (r.Failure? ==> res.0 == BadRequest(r.err.message, []))
  {
    match CreateScheduleChecks(dealerId, date, quota, toDate)
    case Err(reply) => (reply, db)
    case Ok(request) =>
      var (r, db') := ScheduleService.CreateSchedule(db, request, dealerId.value, now);
      match r
      case Success(message, data) => (Created(Some(message), data), db')
      case Failure(err) => (BadRequest(err.message, []), db')
  }

  /** A schedule is created only with a quota above zero, whatever the body sent. */
  lemma CreatedQuotaPositive(db: Db, dealerId: Option<int>, date: JsonValue, quota: JsonValue,
                             toDate: JsonValue -> ParsedDate, now: int)
    requires CreateScheduleReply(db, dealerId, date, quota, toDate, now).0.Created?
    ensures CreateScheduleReply(db, dealerId, date, quota, toDate, now).0.data.quota > 0
  {
  }

  method CreateSchedule(store: Store, dealerId: Option<int>, date: JsonValue, quota: JsonValue,
                        toDate: JsonValue -> ParsedDate, now: int)
    returns (reply: Reply<ScheduleService.CreatedSchedule>)
    requires store.Valid()
    modifies store
    ensures store.Valid()
    ensures (reply, store.State()) == CreateScheduleReply(old(store.State()), dealerId, date, quota, toDate, now)
  {
    if !Authenticated(dealerId) {
      return Unauthorized(UnauthenticatedMessage);
    }
    if !Truthy(date) || !Truthy(quota) {
      return BadRequest(RequiredMessage, []);
    }
    if !quota.Num? || quota.n <= 0 {
      return BadRequest(PositiveQuotaMessage, []);
    }
    var request := CreateScheduleRequest(toDate(date), quota.n);
    var result := store.CreateSchedule(request, dealerId.value, now);
    if result.Failure? {
      return BadRequest(result.err.message, []);
    }
    reply := Created(Some(result.message), result.data);
  }

  /**
   * The UpdateScheduleDTO the controller builds: the date only when it
   * is truthy, the quota whenever it is sent, provided it is a number
   * that is not negative.
   */
  function UpdatePatch(date: JsonValue, quota: JsonValue, toDate: JsonValue -> ParsedDate): (r: Result<SchedulePatch, string>)
    ensures r.Err? <==> quota != Undefined && !(quota.Num? && quota.n >= 0)
    ensures r.Err? ==> r.error == NonNegativeQuotaMessage
    ensures r.Ok? ==> r.value.scheduleDate == (if Truthy(date) then toDate(date) else Absent)
    ensures r.Ok? ==> (r.value.quota.Some? <==> quota != Undefined)
    ensures r.Ok? && quota != Undefined ==> r.value.quota.value == quota.n >= 0
  {
    var scheduleDate := if Truthy(date) then toDate(date) else Absent;
    if quota == Undefined then Ok(SchedulePatch(scheduleDate, None))
    else if !quota.Num? || quota.n < 0 then Err(NonNegativeQuotaMessage)
    else Ok(SchedulePatch(scheduleDate, Some(quota.n)))
  }

  /** updateSchedule's DTO, field by field (`const scheduleData = {}` and the two `if`s). */
  method BuildUpdatePatch(date: JsonValue, quota: JsonValue, toDate: JsonValue -> ParsedDate)
    returns (r: Result<SchedulePatch, string>)
    ensures r == UpdatePatch(date, quota, toDate)
  {
    var patch := SchedulePatch(Absent, None);
    if Truthy(date) {
      patch := patch.(scheduleDate := toDate(date));
    }
    if quota != Undefined {
      if !quota.Num? || quota.n < 0 {
        return Err(NonNegativeQuotaMessage);
      }
      patch := patch.(quota := Some(quota.n));
    }
    r := Ok(patch);
  }

  /**
   * A quota of 0 passes the controller but the service ignores it: the
   * update succeeds and the schedule keeps its quota.
   */
  lemma ZeroQuotaIsIgnored(db: Db, id: int, date: JsonValue, toDate: JsonValue -> ParsedDate, now: int)
    requires id in db.schedules && !Truthy(date)
    ensures UpdatePatch(date, Num(0), toDate).Ok?
    ensures var (r, db') := ScheduleService.UpdateSchedule(db, id, UpdatePatch(date, Num(0), toDate).value, now);
            r.Success? && db'.schedules[id].quota == db.schedules[id].quota
  {
  }

  /** updateSchedule's reply and the database after it. */
  function UpdateScheduleReply(db: Db, idParam: string, date: JsonValue, quota: JsonValue,
                               toDate: JsonValue -> ParsedDate, now: int)
    : (res: (Reply<ScheduleService.UpdatedSchedule>, Db))
    ensures ParseInt(idParam).None? ==> res == (BadRequest(InvalidIdMessage, []), db)
    ensures ParseInt(idParam).Some? && UpdatePatch(date, quota, toDate).Err?
            ==> res == (BadRequest(NonNegativeQuotaMessage, []), db)
    ensures ParseInt(idParam).Some? && UpdatePatch(date, quota, toDate).Ok? ==>
            var (r, db') := ScheduleService.UpdateSchedule(db, ParseInt(idParam).value, UpdatePatch(date, quota, toDate).value, now);
            && res.1 == db'
            && (r.Success? ==> res.0 == Successful(r.message, r.data))
            && (r.Failure? ==> res.0 == (if r.err.code == 404 then NotFound(r.err.message) else BadRequest(r.err.message, [])))
  {
    match ParseInt(idParam)
    case None => (BadRequest(InvalidIdMessage, []), db)
    case Some(id) =>
      match UpdatePatch(date, quota, toDate)
      case Err(message) => (BadRequest(message, []), db)
      case Ok(patch) =>
        var (r, db') := ScheduleService.UpdateSchedule(db, id, patch, now);
        match r
        case Success(message, data) => (Successful(message, data), db')
        case Failure(err) => (if err.code == 404 then NotFound(err.message) else BadRequest(err.message, []), db')
  }

  method UpdateSchedule(store: Store, idParam: string, date: JsonValue, quota: JsonValue,
                        toDate: JsonValue -> ParsedDate, now: int)
    returns (reply: Reply<ScheduleService.UpdatedSchedule>)
    requires store.Valid()
    modifies store
    ensures store.Valid()
    ensures (reply, store.State()) == UpdateScheduleReply(old(store.State()), idParam, date, quota, toDate, now)
  {
    var id := ParseInt(idParam);
    if id.None? {
      return BadRequest(InvalidIdMessage, []);
    }
    var patch := BuildUpdatePatch(date, quota, toDate);
    if patch.Err? {
      return BadRequest(patch.error, []);
    }
    var result := store.UpdateSchedule(id.value, patch.value, now);
    if result.Failure? {
      if result.err.code == 404 {
        return NotFound(result.err.message);
      }
      return BadRequest(result.err.message, []);
    }
    reply := Successful(result.message, result.data);
  }

  /** deleteSchedule's reply and the database after it. */
  function DeleteScheduleReply(db: Db, idParam: string): (res: (Reply<()>, Db))
    ensures ParseInt(idParam).None? ==> res == (BadRequest(InvalidIdMessage, []), db)
    ensures ParseInt(idParam).Some? ==>
            var (r, db') := ScheduleService.DeleteSchedule(db, ParseInt(idParam).value);
            && res.1 == db'
            && (r.Success? ==> res.0 == Successful(r.message, ()))
            && (r.Failure? ==> res.0 == (if r.err.code == 404 then NotFound(r.err.message) else BadRequest(r.err.message, [])))
  {
    match ParseInt(idParam)
    case None => (BadRequest(InvalidIdMessage, []), db)
    case Some(id) =>
      var (r, db') := ScheduleService.DeleteSchedule(db, id);
      match r
      case Success(message, _) => (Successful(message, ()), db')
      case Failure(err) => (if err.code == 404 then NotFound(err.message) else BadRequest(err.message, []), db')
  }

  method DeleteSchedule(store: Store, idParam: string) returns (reply: Reply<()>)
    requires store.Valid()
    modifies store
    ensures store.Valid()
    ensures (reply, store.State()) == DeleteScheduleReply(old(store.State()), idParam)
  {
    var id := ParseInt(idParam);
    if id.None? {
      return BadRequest(InvalidIdMessage, []);
    }
    var result := store.DeleteSchedule(id.value);
    if result.Failure? {
      if result.err.code == 404 {
        return NotFound(result.err.message);
      }
      return BadRequest(result.err.message, []);
    }
    reply := Successful(result.message, ());
  }

  /** getAllSchedules: the controller turns a missing dealer away before the service can. */
  function AllSchedulesReply(db: Db, dealerId: Option<int>): (r: Reply<seq<ScheduleService.DealerScheduleView>>)
    requires Wf(db)
    ensures !Authenticated(dealerId) ==> r == Unauthorized(UnauthenticatedMessage)
    ensures Authenticated(dealerId) ==>
            r == Successful(ScheduleService.DealerSchedulesFetchedMessage, ScheduleService.AllSchedules(db, dealerId.value).data)
  {
    if !Authenticated(dealerId) then Unauthorized(UnauthenticatedMessage)
    else
      match ScheduleService.AllSchedules(db, dealerId.value)
      case Success(message, data) => Successful(message, data)
      case Failure(err) => BadRequest(err.message, [])
  }

  /**
   * getScheduleById: after the dealer check every failure, the 404 for a
   * schedule that is missing or belongs to another dealer included, is
   * sent as a bad request.
   */
  function ScheduleByIdReply(db: Db, dealerId: Option<int>, scheduleId: int): (r: Reply<ScheduleService.ScheduleDetail>)
    requires Wf(db)
    ensures !Authenticated(dealerId) ==> r == Unauthorized(UnauthenticatedMessage)
    ensures Authenticated(dealerId) && (scheduleId !in db.schedules || db.schedules[scheduleId].dealerId != dealerId.value)
            ==> r == BadRequest(ScheduleService.NotOwnedMessage, [])
    ensures r.Successful? <==>
            Authenticated(dealerId) && scheduleId in db.schedules && db.schedules[scheduleId].dealerId == dealerId.value
    ensures r.Successful? ==> r.data == ScheduleService.ScheduleById(db, scheduleId, dealerId.value).data
  {
    if !Authenticated(dealerId) then Unauthorized(UnauthenticatedMessage)
    else
      match ScheduleService.ScheduleById(db, scheduleId, dealerId.value)
      case Success(message, data) => Successful(message, data)
      case Failure(err) => BadRequest(OrElse(err.message, AvailableFailedMessage), [])
  }
}

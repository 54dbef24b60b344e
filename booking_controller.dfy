/**
 * src/controllers/rest/BookingController.ts: validation and trimming of
 * the request body, parsing of the `:id` route parameter, the status
 * whitelist, and the mapping of service results onto replies.
 */
module BookingController {
  import opened Wrappers
  import opened Service
  import opened Db
  import opened JsText
  import opened HttpReply
  import opened BookingEntity
  import opened Store
  import BookingService

  const ValidationFailedMessage: string := "Validasi gagal"
  const CreateFailedMessage: string := "Gagal membuat booking"
  const ListFailedMessage: string := "Gagal mengambil bookings"
  const InvalidIdMessage: string := "ID booking harus berupa number"
  const FetchFailedMessage: string := "Gagal mengambil booking"
  const InvalidStatusMessage: string := "Status tidak valid"
  const UpdateFailedMessage: string := "Gagal update status booking"
  const DeleteFailedMessage: string := "Gagal menghapus booking"

  /** The five status names the controller lets through to the service. */
  const ValidStatuses: seq<string> :=
    ["menunggu konfirmasi", "konfirmasi batal", "konfirmasi datang", "tidak datang", "datang"]

  /**
   * The JSON body of a booking request. A field is None when it is
   * missing; a string field holds a string and the schedule id a number.
   */
  datatype BookingBody = BookingBody(
    name: Option<string>, phoneNo: Option<string>, vehicleType: Option<string>,
    licensePlate: Option<string>, vehicleProblem: Option<string>,
    scheduleId: Option<int>, serviceTime: Option<string>)

  /** A string field passes `!field` when it is present and not empty (spaces count). */
  predicate Filled(f: Option<string>) {
    f.Some? && f.value != ""
  }

  /** The schedule id passes when it is present and not 0. */
  predicate FilledId(f: Option<int>) {
    f.Some? && f.value != 0
  }

  predicate AllFilled(body: BookingBody) {
    Filled(body.name) && Filled(body.phoneNo) && Filled(body.vehicleType) && Filled(body.licensePlate)
    && Filled(body.vehicleProblem) && FilledId(body.scheduleId) && Filled(body.serviceTime)
  }

  /** The seven required fields of a booking request. */
  datatype Field = Name | PhoneNo | VehicleType | LicensePlate | VehicleProblem | ScheduleIdField | ServiceTime

  /** The key under which a field's error is reported. */
  function FieldKey(f: Field): string {
    match f
    case Name => "name"
    case PhoneNo => "phone_no"
    case VehicleType => "vehicle_type"
    case LicensePlate => "license_plate"
    case VehicleProblem => "vehicle_problem"
    case ScheduleIdField => "service_schedule_id"
    case ServiceTime => "service_time"
  }

  /** The message reported when a field is missing. */
  function MissingMessage(f: Field): string {
    match f
    case Name => "Nama harus diisi"
    case PhoneNo => "Nomor telepon harus diisi"
    case VehicleType => "Jenis kendaraan harus diisi"
    case LicensePlate => "Plat nomor harus diisi"
    case VehicleProblem => "Keluhan kendaraan harus diisi"
    case ScheduleIdField => "Jadwal servis harus dipilih"
    case ServiceTime => "Waktu servis harus diisi"
  }

  function Missing(f: Field): FieldError {
    FieldError(FieldKey(f), MissingMessage(f))
  }

  /** The error a required field contributes: one entry when it is missing, none otherwise. */
  function ErrorIf(missing: bool, f: Field): seq<FieldError> {
    if missing then [Missing(f)] else []
  }

  /** The errors createBooking collects, in the order it checks the seven required fields. */
  function RequiredErrors(body: BookingBody): seq<FieldError> {
    ErrorIf(!Filled(body.name), Name)
    + ErrorIf(!Filled(body.phoneNo), PhoneNo)
    + ErrorIf(!Filled(body.vehicleType), VehicleType)
    + ErrorIf(!Filled(body.licensePlate), LicensePlate)
    + ErrorIf(!Filled(body.vehicleProblem), VehicleProblem)
    + ErrorIf(!FilledId(body.scheduleId), ScheduleIdField)
    + ErrorIf(!Filled(body.serviceTime), ServiceTime)
  }

  /** One `if (!field) errors.push(...)` of createBooking. */
  method PushIf(errors: seq<FieldError>, missing: bool, f: Field) returns (r: seq<FieldError>)
    ensures r == errors + ErrorIf(missing, f)
  {
    r := errors;
    if missing { r := r + [Missing(f)]; }
  }

  /** createBooking's seven required-field checks, in the source's order. */
  method ValidateBooking(body: BookingBody) returns (errors: seq<FieldError>)
    ensures errors == RequiredErrors(body)
  {
    errors := [];
    errors := PushIf(errors, !Filled(body.name), Name);
    assert errors == ErrorIf(!Filled(body.name), Name);
    errors := PushIf(errors, !Filled(body.phoneNo), PhoneNo);
    errors := PushIf(errors, !Filled(body.vehicleType), VehicleType);
    errors := PushIf(errors, !Filled(body.licensePlate), LicensePlate);
    errors := PushIf(errors, !Filled(body.vehicleProblem), VehicleProblem);
    errors := PushIf(errors, !FilledId(body.scheduleId), ScheduleIdField);
    errors := PushIf(errors, !Filled(body.serviceTime), ServiceTime);
  }

  /** Validation passes exactly when every required field is filled. */
  lemma ValidationIffFilled(body: BookingBody)
    ensures RequiredErrors(body) == [] <==> AllFilled(body)
  {
  }

  /** Distinct fields report distinct errors. */
  lemma MissingInjective(f: Field, g: Field)
    ensures Missing(f) == Missing(g) ==> f == g
  {
  }

  lemma ErrorIfMember(m: bool, f: Field, g: Field)
    ensures Missing(g) in ErrorIf(m, f) <==> m && f == g
  {
    MissingInjective(f, g);
  }

  /** A missing name is reported, and only then. */
  lemma NameReported(body: BookingBody)
    ensures Missing(Name) in RequiredErrors(body) <==> !Filled(body.name)
  {
    ErrorIfMember(!Filled(body.name), Name, Name);
    ErrorIfMember(!Filled(body.phoneNo), PhoneNo, Name);
    ErrorIfMember(!Filled(body.vehicleType), VehicleType, Name);
    ErrorIfMember(!Filled(body.licensePlate), LicensePlate, Name);
    ErrorIfMember(!Filled(body.vehicleProblem), VehicleProblem, Name);
    ErrorIfMember(!FilledId(body.scheduleId), ScheduleIdField, Name);
    ErrorIfMember(!Filled(body.serviceTime), ServiceTime, Name);
  }

  /** A missing or zero schedule id is reported, and only then. */
  lemma ScheduleIdReported(body: BookingBody)
    ensures Missing(ScheduleIdField) in RequiredErrors(body) <==> !FilledId(body.scheduleId)
  {
    ErrorIfMember(!Filled(body.name), Name, ScheduleIdField);
    ErrorIfMember(!Filled(body.phoneNo), PhoneNo, ScheduleIdField);
    ErrorIfMember(!Filled(body.vehicleType), VehicleType, ScheduleIdField);
    ErrorIfMember(!Filled(body.licensePlate), LicensePlate, ScheduleIdField);
    ErrorIfMember(!Filled(body.vehicleProblem), VehicleProblem, ScheduleIdField);
    ErrorIfMember(!FilledId(body.scheduleId), ScheduleIdField, ScheduleIdField);
    ErrorIfMember(!Filled(body.serviceTime), ServiceTime, ScheduleIdField);
  }

  /** The request bookingData the controller builds: every string field trimmed, the schedule id as sent. */
  function ToRequest(body: BookingBody): (req: BookingRequest)
    requires AllFilled(body)
    ensures Trimmed(req.name) && Trimmed(req.phoneNo) && Trimmed(req.vehicleType) && Trimmed(req.licensePlate)
            && Trimmed(req.vehicleProblem) && Trimmed(req.serviceTime)
    ensures req.scheduleId == body.scheduleId.value
  {
    BookingRequest(Trim(body.name.value), Trim(body.phoneNo.value), Trim(body.vehicleType.value),
                   Trim(body.licensePlate.value), Trim(body.vehicleProblem.value),
                   body.scheduleId.value, Trim(body.serviceTime.value))
  }

  /** Validation runs before trimming: a name of spaces only passes and reaches the service empty. */
  lemma BlankNamePassesAsEmpty(body: BookingBody)
    requires AllFilled(body) && AllSpace(body.name.value)
    ensures RequiredErrors(body) == []
    ensures ToRequest(body).name == ""
  {
    ValidationIffFilled(body);
    TrimAllSpace(body.name.value);
  }

  /** Trimming again changes nothing: a request built from an already trimmed body is the same request. */
  lemma ToRequestIdempotent(body: BookingBody)
    requires AllFilled(body)
    requires forall f :: f in [body.name, body.phoneNo, body.vehicleType, body.licensePlate, body.vehicleProblem, body.serviceTime]
                         ==> Filled(f) && Trim(f.value) != ""
    ensures var req := ToRequest(body);
            var again := BookingBody(Some(req.name), Some(req.phoneNo), Some(req.vehicleType), Some(req.licensePlate),
                                     Some(req.vehicleProblem), Some(req.scheduleId), Some(req.serviceTime));
            AllFilled(again) && ToRequest(again) == req
  {
    TrimIdempotent(body.name.value);
    TrimIdempotent(body.phoneNo.value);
    TrimIdempotent(body.vehicleType.value);
    TrimIdempotent(body.licensePlate.value);
    TrimIdempotent(body.vehicleProblem.value);
    TrimIdempotent(body.serviceTime.value);
  }

  /**
   * createBooking's reply and the database after it: a validation
   * failure is a bad request carrying the field errors and changes
   * nothing; otherwise the trimmed request goes to the service, whose
   * failures all become bad requests and whose success is sent as
   * created, with no message (the handler reads `result.data.message`,
   * which the service never sets).
   */
  function CreateBookingReply(db: Db, body: BookingBody, now: int): (res: (Reply<CreatedBooking>, Db))
    ensures !AllFilled(body) ==> res == (BadRequest(ValidationFailedMessage, RequiredErrors(body)), db)
    ensures AllFilled(body) ==>
            var (r, db') := BookingService.CreateBooking(db, ToRequest(body), now);
            && res.1 == db'
            && (r.Success? ==> res.0 == Created(None, r.data))
            && (r.Failure? ==> res.0 == BadRequest(OrElse(r.err.message, CreateFailedMessage), []))
    ensures res.0.Created? || res.0.BadRequest?
  {
    ValidationIffFilled(body);
    if !AllFilled(body) then (BadRequest(ValidationFailedMessage, RequiredErrors(body)), db)
    else
      var (r, db') := BookingService.CreateBooking(db, ToRequest(body), now);
      match r
      case Success(_, data) => (Created(None, data), db')
      case Failure(err) => (BadRequest(OrElse(err.message, CreateFailedMessage), []), db')
  }

  method CreateBooking(store: Store, body: BookingBody, now: int) returns (reply: Reply<CreatedBooking>)
    requires store.Valid()
    modifies store
    ensures store.Valid()
    ensures (reply, store.State()) == CreateBookingReply(old(store.State()), body, now)
  {
    var errors := ValidateBooking(body);
    ValidationIffFilled(body);
    if |errors| > 0 {
      return BadRequest(ValidationFailedMessage, errors);
    }
    var request := BookingRequest(Trim(body.name.value), Trim(body.phoneNo.value), Trim(body.vehicleType.value),
                                  Trim(body.licensePlate.value), Trim(body.vehicleProblem.value),
                                  body.scheduleId.value, Trim(body.serviceTime.value));
    var result := store.CreateBooking(request, now);
    if result.Failure? {
      return BadRequest(OrElse(result.err.message, CreateFailedMessage), []);
    }
    reply := Created(None, result.data);
  }

  /** getAllBookings: the service's list; the paging and plate parameters it passes are ignored by the service. */
  function GetAllBookings(db: Db): (r: Reply<seq<BookingService.BookingView>>)
    requires Wf(db)
    ensures r.Successful? && r.message == BookingService.BookingsFetchedMessage
    ensures forall v :: v in r.data <==> v.id in db.bookings && v == BookingService.ViewOf(db, v.id)
  {
    match BookingService.GetBookings(db)
    case Success(message, data) => Successful(message, data)
    case Failure(err) => BadRequest(OrElse(err.message, ListFailedMessage), [])
  }

  /** getBookingById: a route id parseInt cannot read is a bad request; a missing booking is not found. */
  function GetBookingById(db: Db, idParam: string): (r: Reply<BookingService.BookingView>)
    requires Wf(db)
    ensures ParseInt(idParam).None? ==> r == BadRequest(InvalidIdMessage, [])
    ensures ParseInt(idParam).Some? && ParseInt(idParam).value !in db.bookings
            ==> r == NotFound(BookingService.BookingNotFoundMessage)
    ensures r.Successful? <==> ParseInt(idParam).Some? && ParseInt(idParam).value in db.bookings
    ensures r.Successful? ==> r.data == BookingService.ViewOf(db, ParseInt(idParam).value)
  {
    match ParseInt(idParam)
    case None => BadRequest(InvalidIdMessage, [])
    case Some(id) =>
      match BookingService.GetBookingById(db, id)
      case Success(message, data) => Successful(message, data)
      case Failure(err) => LookupFailure(err, FetchFailedMessage)
  }

  /** parseInt reads only the leading number: `/12abc` and `/12` address the same booking. */
  lemma TrailingTextInIdIgnored(db: Db, n: nat, rest: string)
    requires Wf(db) && EndsNumber(DecimalString(n), rest)
    ensures GetBookingById(db, DecimalString(n) + rest) == GetBookingById(db, DecimalString(n))
  {
    ParseIntOfDecimal(n, rest);
    ParseIntOfDecimal(n, []);
    assert DecimalString(n) + [] == DecimalString(n);
  }

  /**
   * updateBookingStatus: a bad id, then a status outside the five names,
   * are bad requests that change nothing; otherwise the service's result
   * is mapped (404 to not found, other failures to bad requests).
   */
  function UpdateStatusReply(db: Db, idParam: string, status: Option<string>, now: int): (res: (Reply<BookingService.StatusChange>, Db))
    requires Wf(db)
    ensures ParseInt(idParam).None? ==> res == (BadRequest(InvalidIdMessage, []), db)
    ensures ParseInt(idParam).Some? && !(status.Some? && status.value in ValidStatuses)
            ==> res == (BadRequest(InvalidStatusMessage, []), db)
    ensures ParseInt(idParam).Some? && status.Some? && status.value in ValidStatuses ==>
            var (r, db') := BookingService.UpdateBookingStatus(db, ParseInt(idParam).value, status.value, now);
            && res.1 == db'
            && (r.Success? ==> res.0 == Successful(r.message, r.data))
            && (r.Failure? ==> res.0 == LookupFailure(r.err, UpdateFailedMessage))
  {
    match ParseInt(idParam)
    case None => (BadRequest(InvalidIdMessage, []), db)
    case Some(id) =>
      if !(status.Some? && status.value in ValidStatuses) then (BadRequest(InvalidStatusMessage, []), db)
      else
        var (r, db') := BookingService.UpdateBookingStatus(db, id, status.value, now);
        match r
        case Success(message, data) => (Successful(message, data), db')
        case Failure(err) => (LookupFailure(err, UpdateFailedMessage), db')
  }

  /**
   * When the status table holds all five names (as the seeds make it),
   * a readable id and a whitelisted status are refused only for a
   * missing booking, and then as not found.
   */
  lemma SeededStatusesOnlyMissBookings(db: Db, idParam: string, status: string, now: int)
    requires Wf(db) && forall name :: name in ValidStatuses ==> FindStatusByName(db.statuses, name).Some?
    requires ParseInt(idParam).Some? && status in ValidStatuses
    ensures !UpdateStatusReply(db, idParam, Some(status), now).0.BadRequest?
    ensures UpdateStatusReply(db, idParam, Some(status), now).0.Successful? <==> ParseInt(idParam).value in db.bookings
  {
  }

  method UpdateBookingStatus(store: Store, idParam: string, status: Option<string>, now: int)
    returns (reply: Reply<BookingService.StatusChange>)
    requires store.Valid()
    modifies store
    ensures store.Valid()
    ensures (reply, store.State()) == UpdateStatusReply(old(store.State()), idParam, status, now)
  {
    var id := ParseInt(idParam);
    if id.None? {
      return BadRequest(InvalidIdMessage, []);
    }
    if !(status.Some? && status.value in ValidStatuses) {
      return BadRequest(InvalidStatusMessage, []);
    }
    var result := store.UpdateBookingStatus(id.value, status.value, now);
    if result.Failure? {
      return LookupFailure(result.err, UpdateFailedMessage);
    }
    reply := Successful(result.message, result.data);
  }

  /** deleteBooking: a bad id is a bad request; otherwise the service's result, mapped. */
  function DeleteBookingReply(db: Db, idParam: string): (res: (Reply<()>, Db))
    ensures ParseInt(idParam).None? ==> res == (BadRequest(InvalidIdMessage, []), db)
    ensures ParseInt(idParam).Some? ==>
            var (r, db') := BookingService.DeleteBooking(db, ParseInt(idParam).value);
            && res.1 == db'
            && (r.Success? ==> res.0 == Successful(r.message, ()))
            && (r.Failure? ==> res.0 == LookupFailure(r.err, DeleteFailedMessage))
  {
    match ParseInt(idParam)
    case None => (BadRequest(InvalidIdMessage, []), db)
    case Some(id) =>
      var (r, db') := BookingService.DeleteBooking(db, id);
      match r
      case Success(message, _) => (Successful(message, ()), db')
      case Failure(err) => (LookupFailure(err, DeleteFailedMessage), db')
  }

  /**
   * The handler's not-found branch is never taken: deleting a booking
   * that does not exist makes the store throw, and the client gets a bad
   * request carrying the generic server error message.
   */
  lemma DeleteMissingBookingIsBadRequest(db: Db, idParam: string)
    requires ParseInt(idParam).Some? && ParseInt(idParam).value !in db.bookings
    ensures DeleteBookingReply(db, idParam) == (BadRequest(InternalServerError.message, []), db)
  {
  }

  method DeleteBooking(store: Store, idParam: string) returns (reply: Reply<()>)
    requires store.Valid()
    modifies store
    ensures store.Valid()
    ensures (reply, store.State()) == DeleteBookingReply(old(store.State()), idParam)
  {
    var id := ParseInt(idParam);
    if id.None? {
      return BadRequest(InvalidIdMessage, []);
    }
    var result := store.DeleteBooking(id.value);
    if result.Failure? {
      return LookupFailure(result.err, DeleteFailedMessage);
    }
    reply := Successful(result.message, ());
  }
}

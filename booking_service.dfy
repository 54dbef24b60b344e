/**
 * src/services/BookingService.ts: the booking operations as functions
 * from the database before the call to the response and the database
 * after it. The Store class carries them out step by step.
 */
module BookingService {
  import opened Wrappers
  import opened Service
  import opened Time
  import opened Db
  import opened Sorting
  import opened BookingEntity

  const ScheduleNotFoundMessage: string := "Jadwal servis tidak ditemukan"
  const NextDayOnlyMessage: string := "Pemesanan hanya bisa untuk H+1 (hari berikutnya)"
  const QuotaFullMessage: string := "Kuota jadwal servis sudah penuh"
  const NoDefaultStatusMessage: string := "Status default tidak ditemukan"
  const BookingCreatedMessage: string := "Pemesanan service berhasil dibuat"
  const BookingsFetchedMessage: string := "Data booking berhasil diambil"
  const BookingNotFoundMessage: string := "Data booking tidak ditemukan"
  const InvalidStatusMessage: string := "Status tidak valid"
  const StatusChangedMessage: string := "Status booking berhasil diubah"
  const BookingDeletedMessage: string := "Data booking berhasil dihapus"

  /** A booking as getBookings and getBookingById format it. */
  datatype BookingView = BookingView(
    id: int, name: string, phoneNo: string, vehicleType: string, licensePlate: string,
    vehicleProblem: string, scheduleId: int, serviceTime: string, status: string,
    scheduleDate: int, createdAt: int, updatedAt: int)

  /** What updateBookingStatus returns. */
  datatype StatusChange = StatusChange(id: int, status: string, updatedAt: int)

  /** The schedule can take a booking now: it is dated on a later day than today and has quota left. */
  predicate Bookable(s: Schedule, now: int) {
    StartOfDay(s.scheduleDate) > StartOfDay(now) && s.quota > 0
  }

  function NewBooking(req: BookingRequest, statusId: int, now: int): Booking {
    Booking(req.name, req.phoneNo, req.vehicleType, req.licensePlate, req.vehicleProblem,
            req.scheduleId, req.serviceTime, statusId, now, now)
  }

  /**
   * createBooking: the schedule must exist (404), lie on a later day than
   * today (400), have quota left (400) and the default status must exist
   * (500); every failure leaves the database as it was. A success inserts
   * one booking with the default status and takes one unit of quota from
   * that schedule, which never drops below zero.
   */
  function CreateBooking(db: Db, req: BookingRequest, now: int): (res: (ServiceResponse<CreatedBooking>, Db))
    ensures res.0.Failure? ==> res.1 == db
    ensures req.scheduleId !in db.schedules ==> res.0 == Fail(404, ScheduleNotFoundMessage)
    ensures req.scheduleId in db.schedules && StartOfDay(db.schedules[req.scheduleId].scheduleDate) <= StartOfDay(now)
            ==> res.0 == Fail(400, NextDayOnlyMessage)
    ensures req.scheduleId in db.schedules && StartOfDay(db.schedules[req.scheduleId].scheduleDate) > StartOfDay(now)
            && db.schedules[req.scheduleId].quota <= 0
            ==> res.0 == Fail(400, QuotaFullMessage)
    ensures req.scheduleId in db.schedules && Bookable(db.schedules[req.scheduleId], now)
            && FindStatusByName(db.statuses, PendingStatus).None?
            ==> res.0 == Fail(500, NoDefaultStatusMessage)
    ensures res.0.Success? <==>
            req.scheduleId in db.schedules && Bookable(db.schedules[req.scheduleId], now)
            && FindStatusByName(db.statuses, PendingStatus).Some?
    ensures res.0.Success? ==>
            var id, sid := res.0.data.id, req.scheduleId;
            && id == db.nextBookingId
            && res.1.bookings == db.bookings[id := NewBooking(req, FindStatusByName(db.statuses, PendingStatus).value.id, now)]
            && res.1.schedules == db.schedules[sid := db.schedules[sid].(quota := db.schedules[sid].quota - 1, updatedAt := now)]
            && db.schedules[sid].quota - 1 >= 0
            && res.1.statuses == db.statuses
            && res.1.nextBookingId == db.nextBookingId + 1 && res.1.nextScheduleId == db.nextScheduleId
            && res.0.message == BookingCreatedMessage
            && res.0.data == CreatedBooking(id, req.name, req.phoneNo, req.vehicleType, req.licensePlate,
                                            req.vehicleProblem, sid, req.serviceTime, PendingStatus,
                                            db.schedules[sid].scheduleDate, now)
    ensures Wf(db) && res.0.Success? ==> res.0.data.id !in db.bookings && |res.1.bookings| == |db.bookings| + 1
    ensures Wf(db) ==> Wf(res.1)
  {
    var today := StartOfDay(now);
    if req.scheduleId !in db.schedules then (Fail(404, ScheduleNotFoundMessage), db)
    else
      var schedule := db.schedules[req.scheduleId];
      if StartOfDay(schedule.scheduleDate) <= today then (Fail(400, NextDayOnlyMessage), db)
      else if !(schedule.quota > 0) then (Fail(400, QuotaFullMessage), db)
      else match FindStatusByName(db.statuses, PendingStatus)
        case None => (Fail(500, NoDefaultStatusMessage), db)
        case Some(status) =>
          var id := db.nextBookingId;
          var inserted := db.(bookings := db.bookings[id := NewBooking(req, status.id, now)],
                              nextBookingId := id + 1);
          var db' := AdjustQuota(inserted, req.scheduleId, -1, now);
          var data := CreatedBooking(id, req.name, req.phoneNo, req.vehicleType, req.licensePlate,
                                     req.vehicleProblem, req.scheduleId, req.serviceTime, status.name,
                                     schedule.scheduleDate, now);
          assert Wf(db) ==> Wf(db') && id !in db.bookings by {
            if Wf(db) {
              FindStatusByIdOfRow(db.statuses, status);
              InsertBookingKeepsWf(db, NewBooking(req, status.id, now));
              AdjustQuotaKeepsWf(inserted, req.scheduleId, -1, now);
            }
          }
          assert db'.nextBookingId == id + 1;
          (Success(BookingCreatedMessage, data), db')
  }

  /** A booking as the read queries format it, joined with its schedule and status. */
  function ViewOf(db: Db, id: int): (v: BookingView)
    requires id in db.bookings && db.bookings[id].scheduleId in db.schedules
    ensures v.id == id
  {
    var b := db.bookings[id];
    BookingView(id, b.name, b.phoneNo, b.vehicleType, b.licensePlate, b.vehicleProblem,
                b.scheduleId, b.serviceTime, StatusName(db.statuses, b.statusId),
                db.schedules[b.scheduleId].scheduleDate, b.createdAt, b.updatedAt)
  }

  /** `orderBy: { created_at: 'desc' }`. */
  function NewestFirst(v: BookingView): Key {
    Key(-v.createdAt, 0)
  }

  /** Rows sorted by NewestFirst have non-increasing creation times. */
  lemma NewestFirstOrder(rows: seq<BookingView>)
    requires SortedBy(rows, NewestFirst)
    ensures forall i, j :: 0 <= i < j < |rows| ==> rows[i].createdAt >= rows[j].createdAt
  {
    forall i, j | 0 <= i < j < |rows| ensures rows[i].createdAt >= rows[j].createdAt {
      assert KeyLe(NewestFirst(rows[i]), NewestFirst(rows[j]));
    }
  }

  /** ViewOf applied to each id in turn. */
  function ViewsOf(db: Db, ids: seq<int>): (r: seq<BookingView>)
    requires forall k :: 0 <= k < |ids| ==> ids[k] in db.bookings && db.bookings[ids[k]].scheduleId in db.schedules
    ensures |r| == |ids|
    ensures forall k :: 0 <= k < |r| ==> r[k] == ViewOf(db, ids[k])
    ensures forall v :: v in r <==> v.id in ids && v == ViewOf(db, v.id)
  {
    if ids == [] then [] else [ViewOf(db, ids[0])] + ViewsOf(db, ids[1..])
  }

  /** Every booking formatted once, in primary-key order. */
  function AllViews(db: Db): (rows: seq<BookingView>)
    requires Wf(db)
    ensures forall v :: v in rows <==> v.id in db.bookings && v == ViewOf(db, v.id)
    ensures forall i, j :: 0 <= i < j < |rows| ==> rows[i].id < rows[j].id
  {
    var ids := IdsWhere(db.bookings, db.nextBookingId, (b: Booking) => true);
    var rows := ViewsOf(db, ids);
    rows
  }

  /**
   * getBookings: every booking, each exactly once and formatted with its
   * status name and schedule date, newest first.
   */
  function GetBookings(db: Db): (r: ServiceResponse<seq<BookingView>>)
    requires Wf(db)
    ensures r.Success? && r.message == BookingsFetchedMessage
    ensures forall v :: v in r.data <==> v.id in db.bookings && v == ViewOf(db, v.id)
    ensures forall i, j :: 0 <= i < j < |r.data| ==> r.data[i].createdAt >= r.data[j].createdAt
    ensures forall i, j :: 0 <= i < j < |r.data| ==> r.data[i].id != r.data[j].id
  {
    var rows := AllViews(db);
    var sorted := SortBy(rows, NewestFirst);
    SortByFacts(rows, NewestFirst, (v: BookingView) => v.id);
    NewestFirstOrder(sorted);
    Success(BookingsFetchedMessage, sorted)
  }

  /** getBookingById: the formatted booking, or 404 when there is none. */
  function GetBookingById(db: Db, id: int): (r: ServiceResponse<BookingView>)
    requires Wf(db)
    ensures r.Success? <==> id in db.bookings
    ensures r.Success? ==> r.data == ViewOf(db, id)
    ensures r.Failure? ==> r == Fail(404, BookingNotFoundMessage)
  {
    if id !in db.bookings then Fail(404, BookingNotFoundMessage)
    else Success(BookingsFetchedMessage, ViewOf(db, id))
  }

  /**
   * The quota change a status update makes, from the old and the new
   * status name: a new 'konfirmasi batal' gives one unit back, even when
   * the booking was already cancelled; leaving 'konfirmasi batal' takes
   * one unit, without checking that any is left; nothing else moves quota.
   */
  function QuotaDelta(oldName: string, newName: string): (d: int)
    ensures newName == CancelledStatus ==> d == 1
    ensures oldName == CancelledStatus && newName != CancelledStatus ==> d == -1
    ensures oldName != CancelledStatus && newName != CancelledStatus ==> d == 0
  {
    (if newName == CancelledStatus then 1 else 0)
    + (if oldName == CancelledStatus && newName != CancelledStatus then -1 else 0)
  }

  /**
   * updateBookingStatus: an unknown status name is refused (400) before
   * the booking is looked up (404); neither failure changes anything.
   * Otherwise the booking takes the new status and its schedule's quota
   * moves by QuotaDelta; no other row changes.
   */
  function UpdateBookingStatus(db: Db, id: int, newStatus: string, now: int): (res: (ServiceResponse<StatusChange>, Db))
    requires Wf(db)
    ensures res.0.Failure? ==> res.1 == db
    ensures FindStatusByName(db.statuses, newStatus).None? ==> res.0 == Fail(400, InvalidStatusMessage)
    ensures FindStatusByName(db.statuses, newStatus).Some? && id !in db.bookings
            ==> res.0 == Fail(404, BookingNotFoundMessage)
    ensures res.0.Success? <==> FindStatusByName(db.statuses, newStatus).Some? && id in db.bookings
    ensures res.0.Success? ==>
            var b, status := db.bookings[id], FindStatusByName(db.statuses, newStatus).value;
            && res.1.bookings == db.bookings[id := b.(statusId := status.id, updatedAt := now)]
            && StatusName(res.1.statuses, res.1.bookings[id].statusId) == newStatus
            && res.1.statuses == db.statuses
            && res.1.nextBookingId == db.nextBookingId && res.1.nextScheduleId == db.nextScheduleId
            && res.0.message == StatusChangedMessage
            && res.0.data == StatusChange(id, newStatus, now)
            && var delta, s := QuotaDelta(StatusName(db.statuses, b.statusId), newStatus), db.schedules[b.scheduleId];
               res.1.schedules
               == (if delta != 0 then db.schedules[b.scheduleId := s.(quota := s.quota + delta, updatedAt := now)]
                   else db.schedules)
    ensures Wf(res.1)
  {
    match FindStatusByName(db.statuses, newStatus)
    case None => (Fail(400, InvalidStatusMessage), db)
    case Some(status) =>
      if id !in db.bookings then (Fail(404, BookingNotFoundMessage), db)
      else
        var oldBooking := db.bookings[id];
        var newBooking := oldBooking.(statusId := status.id, updatedAt := now);
        FindStatusByIdOfRow(db.statuses, status);
        RewriteBookingKeepsWf(db, id, newBooking);
        var updated := db.(bookings := db.bookings[id := newBooking]);
        // At most one of the increment and the decrement runs.
        var delta := QuotaDelta(StatusName(db.statuses, oldBooking.statusId), newStatus);
        AdjustQuotaKeepsWf(updated, oldBooking.scheduleId, delta, now);
        var db' := if delta != 0 then AdjustQuota(updated, oldBooking.scheduleId, delta, now) else updated;
        (Success(StatusChangedMessage, StatusChange(id, status.name, now)), db')
  }

  /**
   * deleteBooking: removes only that booking and never touches a
   * schedule's quota. Deleting a missing id fails (the store throws and
   * the catch answers) and changes nothing.
   */
  function DeleteBooking(db: Db, id: int): (res: (ServiceResponse<()>, Db))
    ensures res.0.Success? <==> id in db.bookings
    ensures res.0.Failure? ==> res.1 == db
    ensures res.1.bookings == db.bookings - {id}
    ensures res.1.schedules == db.schedules && res.1.statuses == db.statuses
    ensures res.1.nextBookingId == db.nextBookingId && res.1.nextScheduleId == db.nextScheduleId
    ensures res.0.Success? ==> res.0.message == BookingDeletedMessage
    ensures Wf(db) ==> Wf(res.1)
  {
    if id in db.bookings then (Success(BookingDeletedMessage, ()), db.(bookings := db.bookings - {id}))
    else (Failure(InternalServerError), db)
  }
}

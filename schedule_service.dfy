/**
 * src/services/ScheduleService.ts: the schedule operations as functions
 * from the database before the call to the response and the database
 * after it. The Store class carries out the changing ones step by step.
 */
module ScheduleService {
  import opened Wrappers
  import opened Service
  import opened Time
  import opened Db
  import opened Sorting
  import opened ScheduleEntity

  const InvalidDateMessage: string := "Format tanggal tidak valid. Gunakan format YYYY-MM-DD"
  const AvailableFetchedMessage: string := "Jadwal yang tersedia berhasil diambil"
  const PastDateMessage: string := "Tanggal jadwal tidak boleh lebih kecil dari hari ini"
  const DuplicateDateMessage: string := "Jadwal sudah ada untuk tanggal ini"
  const ScheduleCreatedMessage: string := "Jadwal berhasil dibuat"
  const ScheduleNotFoundMessage: string := "Jadwal tidak ditemukan"
  const ScheduleUpdatedMessage: string := "Jadwal berhasil diupdate"
  const ScheduleInUseMessage: string := "Tidak dapat menghapus jadwal yang sudah memiliki booking"
  const ScheduleDeletedMessage: string := "Jadwal berhasil dihapus"
  const UnauthenticatedMessage: string := "Dealer tidak terautentikasi"
  const DealerSchedulesFetchedMessage: string := "Jadwal dealer berhasil diambil"
  const NotOwnedMessage: string := "Jadwal tidak ditemukan atau bukan milik dealer ini"
  const ScheduleFetchedMessage: string := "Jadwal berhasil diambil"

  /** A schedule as getAvailableSchedules lists it. */
  datatype AvailableView = AvailableView(id: int, scheduleDate: int, quota: int)

  /** What createSchedule returns. */
  datatype CreatedSchedule = CreatedSchedule(id: int, scheduleDate: int, quota: int, createdAt: int)

  /** What updateSchedule returns. */
  datatype UpdatedSchedule = UpdatedSchedule(id: int, scheduleDate: int, quota: int, updatedAt: int)

  /** A schedule as getAllSchedules lists it for its dealer. */
  datatype DealerScheduleView = DealerScheduleView(
    id: int, scheduleDate: int, quota: int, usedQuota: int, availableQuota: int,
    bookingCount: int, createdAt: int, updatedAt: int)

  /** One booking of a schedule in getScheduleById. */
  datatype BookingStatusView = BookingStatusView(id: int, status: string)

  /** What getScheduleById returns. */
  datatype ScheduleDetail = ScheduleDetail(
    id: int, scheduleDate: int, quota: int, usedQuota: int, availableQuota: int,
    bookings: seq<BookingStatusView>, createdAt: int, updatedAt: int)

  /**
   * The `where` of getAvailableSchedules: quota left, and either dated no
   * earlier than now (no date asked for) or anywhere on the day asked for,
   * from its midnight up to the next one.
   */
  predicate Listed(filter: DateInput, now: int, s: Schedule) {
    s.quota > 0 &&
    match filter
    case At(t) => StartOfDay(t) <= s.scheduleDate < StartOfDay(t) + DayMs
    case _ => s.scheduleDate >= now
  }

  function AvailableViewOf(db: Db, id: int): (v: AvailableView)
    requires id in db.schedules
    ensures v.id == id
  {
    AvailableView(id, db.schedules[id].scheduleDate, db.schedules[id].quota)
  }

  /** `orderBy: [{ schedule_date: 'asc' }, { quota: 'asc' }]`. */
  function ByDateThenQuota(v: AvailableView): Key {
    Key(v.scheduleDate, v.quota)
  }

  /** AvailableViewOf applied to each id in turn. */
  function AvailableViewsOf(db: Db, ids: seq<int>): (r: seq<AvailableView>)
    requires forall k :: 0 <= k < |ids| ==> ids[k] in db.schedules
    ensures |r| == |ids|
    ensures forall k :: 0 <= k < |r| ==> r[k] == AvailableViewOf(db, ids[k])
    ensures forall v :: v in r <==> v.id in ids && v == AvailableViewOf(db, v.id)
  {
    if ids == [] then [] else [AvailableViewOf(db, ids[0])] + AvailableViewsOf(db, ids[1..])
  }

  /** The schedules the filter selects, formatted, in primary-key order. */
  function AvailableRows(db: Db, filter: DateInput, now: int): (rows: seq<AvailableView>)
    requires KeysBelow(db.schedules, db.nextScheduleId)
    ensures forall v :: v in rows <==>
              v.id in db.schedules && Listed(filter, now, db.schedules[v.id]) && v == AvailableViewOf(db, v.id)
    ensures forall i, j :: 0 <= i < j < |rows| ==> rows[i].id < rows[j].id
  {
    var ids := IdsWhere(db.schedules, db.nextScheduleId, (s: Schedule) => Listed(filter, now, s));
    var rows := AvailableViewsOf(db, ids);
    rows
  }

  /**
   * getAvailableSchedules: a date that does not parse is refused (400);
   * otherwise every schedule the filter selects, each once, by date and
   * then by quota.
   */
  function AvailableSchedules(db: Db, filter: DateInput, now: int): (r: ServiceResponse<seq<AvailableView>>)
    requires KeysBelow(db.schedules, db.nextScheduleId)
    ensures r.Failure? <==> filter.Invalid?
    ensures r.Failure? ==> r == Fail(400, InvalidDateMessage)
    ensures r.Success? ==> r.message == AvailableFetchedMessage
    ensures r.Success? ==> forall v :: v in r.data <==>
              v.id in db.schedules && Listed(filter, now, db.schedules[v.id]) && v == AvailableViewOf(db, v.id)
    ensures r.Success? ==> forall i, j :: 0 <= i < j < |r.data| ==> KeyLe(ByDateThenQuota(r.data[i]), ByDateThenQuota(r.data[j]))
    ensures r.Success? ==> forall i, j :: 0 <= i < j < |r.data| ==> r.data[i].id != r.data[j].id
  {
    if filter.Invalid? then Fail(400, InvalidDateMessage)
    else
      var rows := AvailableRows(db, filter, now);
      var sorted := SortBy(rows, ByDateThenQuota);
      SortByFacts(rows, ByDateThenQuota, (v: AvailableView) => v.id);
      Success(AvailableFetchedMessage, sorted)
  }

  /** Some schedule of this dealer is dated exactly t (createSchedule's `findFirst`). */
  predicate DealerHasDate(db: Db, dealerId: int, t: int) {
    exists id :: id in db.schedules && db.schedules[id].dealerId == dealerId && db.schedules[id].scheduleDate == t
  }

  /**
   * createSchedule: a date that does not parse reaches the store, which
   * throws (500); a date before today's midnight is refused (400), and
   * so is a second schedule of the dealer at the same instant (400).
   * Failures change nothing; a success inserts exactly one schedule under
   * the next id, with the quota as given.
   */
  function CreateSchedule(db: Db, req: CreateScheduleRequest, dealerId: int, now: int): (res: (ServiceResponse<CreatedSchedule>, Db))
    ensures res.0.Failure? ==> res.1 == db
    ensures !req.scheduleDate.At? ==> res.0 == Failure(InternalServerError)
    ensures req.scheduleDate.At? && req.scheduleDate.t < StartOfDay(now) ==> res.0 == Fail(400, PastDateMessage)
    ensures req.scheduleDate.At? && req.scheduleDate.t >= StartOfDay(now) && DealerHasDate(db, dealerId, req.scheduleDate.t)
            ==> res.0 == Fail(400, DuplicateDateMessage)
    ensures res.0.Success? <==>
            req.scheduleDate.At? && req.scheduleDate.t >= StartOfDay(now) && !DealerHasDate(db, dealerId, req.scheduleDate.t)
    ensures res.0.Success? ==>
            var id := db.nextScheduleId;
            && res.0.data == CreatedSchedule(id, req.scheduleDate.t, req.quota, now)
            && res.1.schedules == db.schedules[id := Schedule(dealerId, req.scheduleDate.t, req.quota, now, now)]
            && res.1.bookings == db.bookings && res.1.statuses == db.statuses
            && res.1.nextScheduleId == db.nextScheduleId + 1 && res.1.nextBookingId == db.nextBookingId
            && res.0.message == ScheduleCreatedMessage
    ensures Wf(db) && res.0.Success? ==> res.0.data.id !in db.schedules
    ensures Wf(db) ==> Wf(res.1)
  {
    match req.scheduleDate
    case At(t) =>
      if t < StartOfDay(now) then (Fail(400, PastDateMessage), db)
      else if DealerHasDate(db, dealerId, t) then (Fail(400, DuplicateDateMessage), db)
      else
        var id := db.nextScheduleId;
        var db' := db.(schedules := db.schedules[id := Schedule(dealerId, t, req.quota, now, now)],
                       nextScheduleId := id + 1);
        (Success(ScheduleCreatedMessage, CreatedSchedule(id, t, req.quota, now)), db')
    case _ => (Failure(InternalServerError), db)
  }

  /** The row updateSchedule writes: a date or a quota replaces the old one only when given (a quota of 0 counts as not given). */
  function Patched(s: Schedule, patch: SchedulePatch, now: int): (s': Schedule)
    ensures s'.dealerId == s.dealerId && s'.createdAt == s.createdAt && s'.updatedAt == now
    ensures s'.scheduleDate == if patch.scheduleDate.At? then patch.scheduleDate.t else s.scheduleDate
    ensures s'.quota == if patch.quota.Some? && patch.quota.value != 0 then patch.quota.value else s.quota
  {
    var date := if patch.scheduleDate.At? then patch.scheduleDate.t else s.scheduleDate;
    var quota := match patch.quota
      case Some(q) => if q != 0 then q else s.quota
      case None => s.quota;
    s.(scheduleDate := date, quota := quota, updatedAt := now)
  }

  /**
   * updateSchedule: a missing schedule is refused (404), a new date
   * before today's midnight too (400), and a date that does not parse
   * makes the store throw (500); none of these changes anything. Nothing
   * checks the new date against the dealer's other schedules or the new
   * quota against the bookings already made.
   */
  function UpdateSchedule(db: Db, id: int, patch: SchedulePatch, now: int): (res: (ServiceResponse<UpdatedSchedule>, Db))
    ensures res.0.Failure? ==> res.1 == db
    ensures id !in db.schedules ==> res.0 == Fail(404, ScheduleNotFoundMessage)
    ensures id in db.schedules && patch.scheduleDate.At? && patch.scheduleDate.t < StartOfDay(now)
            ==> res.0 == Fail(400, PastDateMessage)
    ensures id in db.schedules && patch.scheduleDate.Invalid? ==> res.0 == Failure(InternalServerError)
    ensures res.0.Success? <==>
            id in db.schedules && !patch.scheduleDate.Invalid?
            && !(patch.scheduleDate.At? && patch.scheduleDate.t < StartOfDay(now))
    ensures res.0.Success? ==>
            var s' := Patched(db.schedules[id], patch, now);
            && res.1 == db.(schedules := db.schedules[id := s'])
            && res.0.data == UpdatedSchedule(id, s'.scheduleDate, s'.quota, now)
    ensures Wf(db) ==> Wf(res.1)
  {
    if id !in db.schedules then (Fail(404, ScheduleNotFoundMessage), db)
    else if patch.scheduleDate.At? && patch.scheduleDate.t < StartOfDay(now) then (Fail(400, PastDateMessage), db)
    else if patch.scheduleDate.Invalid? then (Failure(InternalServerError), db)
    else
      var s' := Patched(db.schedules[id], patch, now);
      (Success(ScheduleUpdatedMessage, UpdatedSchedule(id, s'.scheduleDate, s'.quota, now)),
       db.(schedules := db.schedules[id := s']))
  }

  /**
   * deleteSchedule: a missing schedule is refused (404) and so is one
   * that any booking references, whatever its status (400). Otherwise
   * only that schedule goes, so no booking is left without its schedule.
   */
  function DeleteSchedule(db: Db, id: int): (res: (ServiceResponse<()>, Db))
    ensures res.0.Failure? ==> res.1 == db
    ensures id !in db.schedules ==> res.0 == Fail(404, ScheduleNotFoundMessage)
    ensures id in db.schedules && BookingsOf(db.bookings, id) != {} ==> res.0 == Fail(400, ScheduleInUseMessage)
    ensures res.0.Success? <==> id in db.schedules && BookingsOf(db.bookings, id) == {}
    ensures res.0.Success? ==> res.1 == db.(schedules := db.schedules - {id})
    ensures Wf(db) ==> Wf(res.1)
  {
    if id !in db.schedules then (Fail(404, ScheduleNotFoundMessage), db)
    else if BookingsOf(db.bookings, id) != {} then (Fail(400, ScheduleInUseMessage), db)
    else
      var db' := db.(schedules := db.schedules - {id});
      assert Wf(db) ==> Wf(db') by {
        if Wf(db) {
          forall b | b in db.bookings ensures db.bookings[b].scheduleId in db'.schedules {
            assert b !in BookingsOf(db.bookings, id);
          }
        }
      }
      (Success(ScheduleDeletedMessage, ()), db')
  }

  /**
   * The counters of a dealer's schedule view: used_quota and
   * booking_count are the number of bookings of any status, and
   * available_quota subtracts that number from the stored quota.
   */
  function DealerViewOf(db: Db, id: int): (v: DealerScheduleView)
    requires id in db.schedules
    ensures v.id == id && v.quota == db.schedules[id].quota
    ensures v.usedQuota == v.bookingCount == |BookingsOf(db.bookings, id)|
    ensures v.availableQuota == v.quota - v.usedQuota
  {
    var s := db.schedules[id];
    var used := |BookingsOf(db.bookings, id)|;
    DealerScheduleView(id, s.scheduleDate, s.quota, used, s.quota - used, used, s.createdAt, s.updatedAt)
  }

  /** `orderBy: [{ schedule_date: 'asc' }]`. */
  function ByDate(v: DealerScheduleView): Key {
    Key(v.scheduleDate, 0)
  }

  /** Rows sorted by ByDate have non-decreasing dates. */
  lemma ByDateOrder(rows: seq<DealerScheduleView>)
    requires SortedBy(rows, ByDate)
    ensures forall i, j :: 0 <= i < j < |rows| ==> rows[i].scheduleDate <= rows[j].scheduleDate
  {
    forall i, j | 0 <= i < j < |rows| ensures rows[i].scheduleDate <= rows[j].scheduleDate {
      assert KeyLe(ByDate(rows[i]), ByDate(rows[j]));
    }
  }

  /** DealerViewOf applied to each id in turn. */
  function DealerViewsOf(db: Db, ids: seq<int>): (r: seq<DealerScheduleView>)
    requires forall k :: 0 <= k < |ids| ==> ids[k] in db.schedules
    ensures |r| == |ids|
    ensures forall k :: 0 <= k < |r| ==> r[k] == DealerViewOf(db, ids[k])
    ensures forall v :: v in r <==> v.id in ids && v == DealerViewOf(db, v.id)
  {
    if ids == [] then [] else [DealerViewOf(db, ids[0])] + DealerViewsOf(db, ids[1..])
  }

  function DealerRows(db: Db, dealerId: int): (rows: seq<DealerScheduleView>)
    requires KeysBelow(db.schedules, db.nextScheduleId)
    ensures forall v :: v in rows <==>
              v.id in db.schedules && db.schedules[v.id].dealerId == dealerId && v == DealerViewOf(db, v.id)
    ensures forall i, j :: 0 <= i < j < |rows| ==> rows[i].id < rows[j].id
  {
    var ids := IdsWhere(db.schedules, db.nextScheduleId, (s: Schedule) => s.dealerId == dealerId);
    var rows := DealerViewsOf(db, ids);
    rows
  }

  /**
   * getAllSchedules: without a dealer (id 0, the falsy number) 401;
   * otherwise exactly that dealer's schedules, each once, by date.
   */
  function AllSchedules(db: Db, dealerId: int): (r: ServiceResponse<seq<DealerScheduleView>>)
    requires KeysBelow(db.schedules, db.nextScheduleId)
    ensures r.Failure? <==> dealerId == 0
    ensures r.Failure? ==> r == Fail(401, UnauthenticatedMessage)
    ensures r.Success? ==> r.message == DealerSchedulesFetchedMessage
    ensures r.Success? ==> forall v :: v in r.data <==>
              v.id in db.schedules && db.schedules[v.id].dealerId == dealerId && v == DealerViewOf(db, v.id)
    ensures r.Success? ==> forall i, j :: 0 <= i < j < |r.data| ==> r.data[i].scheduleDate <= r.data[j].scheduleDate
    ensures r.Success? ==> forall i, j :: 0 <= i < j < |r.data| ==> r.data[i].id != r.data[j].id
  {
    if dealerId == 0 then Fail(401, UnauthenticatedMessage)
    else
      var rows := DealerRows(db, dealerId);
      var sorted := SortBy(rows, ByDate);
      SortByFacts(rows, ByDate, (v: DealerScheduleView) => v.id);
      ByDateOrder(sorted);
      Success(DealerSchedulesFetchedMessage, sorted)
  }

  /** The ids of the bookings of schedule sid, ascending. */
  function BookingIdsOf(db: Db, sid: int): (ids: seq<int>)
    requires Wf(db)
    ensures forall i :: 0 <= i < |ids| ==> ids[i] in db.bookings
    ensures forall x :: x in ids <==> x in BookingsOf(db.bookings, sid)
    ensures forall i, j :: 0 <= i < j < |ids| ==> ids[i] < ids[j]
    ensures |ids| == |BookingsOf(db.bookings, sid)|
  {
    var ids := IdsWhere(db.bookings, db.nextBookingId, (b: Booking) => b.scheduleId == sid);
    IdsCount(ids, BookingsOf(db.bookings, sid));
    ids
  }

  /** A booking as getScheduleById lists it: its id and its status name. */
  function StatusViewOf(db: Db, id: int): (v: BookingStatusView)
    requires id in db.bookings
    ensures v.id == id
  {
    BookingStatusView(id, StatusName(db.statuses, db.bookings[id].statusId))
  }

  /** StatusViewOf applied to each id in turn. */
  function StatusViewsOf(db: Db, ids: seq<int>): (r: seq<BookingStatusView>)
    requires forall k :: 0 <= k < |ids| ==> ids[k] in db.bookings
    ensures |r| == |ids|
    ensures forall k :: 0 <= k < |r| ==> r[k] == StatusViewOf(db, ids[k])
    ensures forall v :: v in r <==> v.id in ids && v == StatusViewOf(db, v.id)
  {
    if ids == [] then [] else [StatusViewOf(db, ids[0])] + StatusViewsOf(db, ids[1..])
  }

  /** The bookings of schedule sid with their status names, by booking id. */
  function BookingStatuses(db: Db, sid: int): (r: seq<BookingStatusView>)
    requires Wf(db)
    ensures forall v :: v in r <==> v.id in BookingsOf(db.bookings, sid) && v == StatusViewOf(db, v.id)
    ensures forall i, j :: 0 <= i < j < |r| ==> r[i].id < r[j].id
    ensures |r| == |BookingsOf(db.bookings, sid)|
  {
    var ids := BookingIdsOf(db, sid);
    StatusViewsOf(db, ids)
  }

  /** A strictly increasing sequence that lists exactly the members of a set has its size. */
  lemma {:induction false} IdsCount(ids: seq<int>, s: set<int>)
    requires forall i, j :: 0 <= i < j < |ids| ==> ids[i] < ids[j]
    requires forall x :: x in s <==> x in ids
    ensures |ids| == |s|
  {
    if ids != [] {
      var last := ids[|ids| - 1];
      var front := ids[..|ids| - 1];
      assert last !in front by {
        forall k | 0 <= k < |front| ensures front[k] != last {
          assert ids[k] < ids[|ids| - 1];
        }
      }
      assert forall x :: x in s - {last} <==> x in front by {
        forall x ensures x in s - {last} <==> x in front {
          assert x in ids <==> x in front || x == last by {
            assert ids == front + [last];
          }
        }
      }
      IdsCount(front, s - {last});
    } else {
      assert forall x :: x !in s;
      assert s == {};
    }
  }

  /**
   * getScheduleById: without a dealer 401; a schedule that does not exist
   * and one of another dealer both get the same 404; otherwise the
   * schedule with its bookings and their status names.
   */
  function ScheduleById(db: Db, id: int, dealerId: int): (r: ServiceResponse<ScheduleDetail>)
    requires Wf(db)
    ensures dealerId == 0 ==> r == Fail(401, UnauthenticatedMessage)
    ensures dealerId != 0 && (id !in db.schedules || db.schedules[id].dealerId != dealerId)
            ==> r == Fail(404, NotOwnedMessage)
    ensures r.Success? <==> dealerId != 0 && id in db.schedules && db.schedules[id].dealerId == dealerId
    ensures r.Success? ==>
            var s := db.schedules[id];
            && r.data.id == id && r.data.scheduleDate == s.scheduleDate && r.data.quota == s.quota
            && r.data.usedQuota == |r.data.bookings| == |BookingsOf(db.bookings, id)|
            && r.data.availableQuota == s.quota - r.data.usedQuota
            && r.data.bookings == BookingStatuses(db, id)
            && r.data.createdAt == s.createdAt && r.data.updatedAt == s.updatedAt
  {
    if dealerId == 0 then Fail(401, UnauthenticatedMessage)
    else if id !in db.schedules || db.schedules[id].dealerId != dealerId then Fail(404, NotOwnedMessage)
    else
      var s := db.schedules[id];
      var bookings := BookingStatuses(db, id);
      Success(ScheduleFetchedMessage,
              ScheduleDetail(id, s.scheduleDate, s.quota, |bookings|, s.quota - |bookings|, bookings, s.createdAt, s.updatedAt))
  }
}

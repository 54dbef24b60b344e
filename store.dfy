/**
 * The database as the services change it: one table per field, updated
 * in place the way the Prisma calls of src/services/BookingService.ts
 * and src/services/ScheduleService.ts update it, one write at a time.
 * Each method is proved to end in the state, and give the response, of
 * the function of the same name in BookingService or ScheduleService.
 */
module Store {
  import opened Wrappers
  import opened Service
  import opened Time
  import opened Db
  import opened BookingEntity
  import opened ScheduleEntity
  import BookingService
  import ScheduleService

  class Store {
    var schedules: map<int, Schedule>
    var bookings: map<int, Booking>
    /** serviceStatuses is filled by the seeds and never written by the services. */
    const statuses: seq<StatusRow>
    var nextScheduleId: int
    var nextBookingId: int

    function State(): Db
      reads this
    {
      Db(schedules, bookings, statuses, nextScheduleId, nextBookingId)
    }

    ghost predicate Valid()
      reads this
    {
      Wf(State())
    }

    /** Empty schedule and booking tables over a seeded status table. */
    constructor (statuses: seq<StatusRow>)
      requires DistinctStatusIds(statuses)
      ensures Valid()
      ensures State() == Db(map[], map[], statuses, 1, 1)
    {
      this.schedules := map[];
      this.bookings := map[];
      this.statuses := statuses;
      this.nextScheduleId := 1;
      this.nextBookingId := 1;
    }

    /** `serviceSchedules.update({ data: { quota: { increment/decrement } } })`. */
    method ChangeQuota(sid: int, delta: int, now: int)
      requires sid in schedules
      modifies this
      ensures State() == AdjustQuota(old(State()), sid, delta, now)
    {
      var s := schedules[sid];
      schedules := schedules[sid := s.(quota := s.quota + delta, updatedAt := now)];
    }

    /** createBooking (BookingService.ts 6-138). */
    method CreateBooking(req: BookingRequest, now: int) returns (r: ServiceResponse<CreatedBooking>)
      requires Valid()
      modifies this
      ensures Valid()
      ensures (r, State()) == BookingService.CreateBooking(old(State()), req, now)
    {
      var today := StartOfDay(now);
      if req.scheduleId !in schedules {
        return Fail(404, BookingService.ScheduleNotFoundMessage);
      }
      var schedule := schedules[req.scheduleId];
      if StartOfDay(schedule.scheduleDate) <= today {
        return Fail(400, BookingService.NextDayOnlyMessage);
      }
      if !(schedule.quota > 0) {
        return Fail(400, BookingService.QuotaFullMessage);
      }
      var found := FindStatusByName(statuses, PendingStatus);
      if found.None? {
        return Fail(500, BookingService.NoDefaultStatusMessage);
      }
      var status := found.value;
      var id := nextBookingId;
      bookings := bookings[id := BookingService.NewBooking(req, status.id, now)];
      nextBookingId := id + 1;
      ghost var inserted := State();
      ChangeQuota(req.scheduleId, -1, now);
      assert State() == AdjustQuota(inserted, req.scheduleId, -1, now);
      r := Success(BookingService.BookingCreatedMessage,
                   CreatedBooking(id, req.name, req.phoneNo, req.vehicleType, req.licensePlate,
                                  req.vehicleProblem, req.scheduleId, req.serviceTime, status.name,
                                  schedule.scheduleDate, now));
    }

    /** updateBookingStatus (BookingService.ts 251-334). */
    method UpdateBookingStatus(id: int, newStatus: string, now: int) returns (r: ServiceResponse<BookingService.StatusChange>)
      requires Valid()
      modifies this
      ensures Valid()
      ensures (r, State()) == BookingService.UpdateBookingStatus(old(State()), id, newStatus, now)
    {
      var found := FindStatusByName(statuses, newStatus);
      if found.None? {
        return Fail(400, BookingService.InvalidStatusMessage);
      }
      var status := found.value;
      if id !in bookings {
        return Fail(404, BookingService.BookingNotFoundMessage);
      }
      var oldBooking := bookings[id];
      bookings := bookings[id := oldBooking.(statusId := status.id, updatedAt := now)];
      if newStatus == CancelledStatus {
        ChangeQuota(oldBooking.scheduleId, 1, now);
      }
      var oldName := StatusName(statuses, oldBooking.statusId);
      if oldName == CancelledStatus && newStatus != CancelledStatus {
        ChangeQuota(oldBooking.scheduleId, -1, now);
      }
      r := Success(BookingService.StatusChangedMessage, BookingService.StatusChange(id, status.name, now));
    }

    /** deleteBooking (BookingService.ts 336-360). */
    method DeleteBooking(id: int) returns (r: ServiceResponse<()>)
      requires Valid()
      modifies this
      ensures Valid()
      ensures (r, State()) == BookingService.DeleteBooking(old(State()), id)
    {
      if id !in bookings {
        return Failure(InternalServerError);
      }
      bookings := bookings - {id};
      r := Success(BookingService.BookingDeletedMessage, ());
    }

    /** createSchedule (ScheduleService.ts 73-143). */
    method CreateSchedule(req: CreateScheduleRequest, dealerId: int, now: int) returns (r: ServiceResponse<ScheduleService.CreatedSchedule>)
      requires Valid()
      modifies this
      ensures Valid()
      ensures (r, State()) == ScheduleService.CreateSchedule(old(State()), req, dealerId, now)
    {
      if !req.scheduleDate.At? {
        return Failure(InternalServerError);
      }
      var t := req.scheduleDate.t;
      if t < StartOfDay(now) {
        return Fail(400, ScheduleService.PastDateMessage);
      }
      if ScheduleService.DealerHasDate(State(), dealerId, t) {
        return Fail(400, ScheduleService.DuplicateDateMessage);
      }
      var id := nextScheduleId;
      schedules := schedules[id := Schedule(dealerId, t, req.quota, now, now)];
      nextScheduleId := id + 1;
      r := Success(ScheduleService.ScheduleCreatedMessage, ScheduleService.CreatedSchedule(id, t, req.quota, now));
    }

    /** updateSchedule (ScheduleService.ts 145-214). */
    method UpdateSchedule(id: int, patch: SchedulePatch, now: int) returns (r: ServiceResponse<ScheduleService.UpdatedSchedule>)
      requires Valid()
      modifies this
      ensures Valid()
      ensures (r, State()) == ScheduleService.UpdateSchedule(old(State()), id, patch, now)
    {
      if id !in schedules {
        return Fail(404, ScheduleService.ScheduleNotFoundMessage);
      }
      if patch.scheduleDate.At? && patch.scheduleDate.t < StartOfDay(now) {
        return Fail(400, ScheduleService.PastDateMessage);
      }
      if patch.scheduleDate.Invalid? {
        return Failure(InternalServerError);
      }
      var s := schedules[id];
      if patch.scheduleDate.At? {
        s := s.(scheduleDate := patch.scheduleDate.t);
      }
      if patch.quota.Some? && patch.quota.value != 0 {
        s := s.(quota := patch.quota.value);
      }
      s := s.(updatedAt := now);
      schedules := schedules[id := s];
      r := Success(ScheduleService.ScheduleUpdatedMessage, ScheduleService.UpdatedSchedule(id, s.scheduleDate, s.quota, now));
    }

    /** deleteSchedule (ScheduleService.ts 216-261). */
    method DeleteSchedule(id: int) returns (r: ServiceResponse<()>)
      requires Valid()
      modifies this
      ensures Valid()
      ensures (r, State()) == ScheduleService.DeleteSchedule(old(State()), id)
    {
      if id !in schedules {
        return Fail(404, ScheduleService.ScheduleNotFoundMessage);
      }
      if BookingsOf(bookings, id) != {} {
        return Fail(400, ScheduleService.ScheduleInUseMessage);
      }
      schedules := schedules - {id};
      r := Success(ScheduleService.ScheduleDeletedMessage, ());
      assert State() == ScheduleService.DeleteSchedule(old(State()), id).1;
    }
  }
}

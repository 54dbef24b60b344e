/**
 * Properties that relate several operations of the two services: what
 * getAvailableSchedules lists against what createBooking accepts, what
 * the dealer's counters show after a booking, and what createSchedule,
 * updateSchedule and deleteSchedule do to the one-schedule-per-date rule.
 */
module ServiceRules {
  import opened Wrappers
  import opened Service
  import opened Time
  import opened Db
  import opened BookingEntity
  import opened BookingService
  import opened ScheduleEntity
  import opened ScheduleService

  /** Every schedule that createBooking would accept now is among the unfiltered available schedules. */
  lemma BookableIsListed(db: Db, sid: int, now: int)
    requires KeysBelow(db.schedules, db.nextScheduleId) && sid in db.schedules && Bookable(db.schedules[sid], now)
    ensures AvailableViewOf(db, sid) in AvailableSchedules(db, Absent, now).data
  {
    LaterDayIffAfterNextMidnight(db.schedules[sid].scheduleDate, now);
    assert Listed(Absent, now, db.schedules[sid]);
  }

  /**
   * A schedule later today with quota left is listed as available, yet
   * createBooking refuses it: the listing compares with the current
   * instant, the booking with tomorrow's midnight.
   */
  lemma ListedTodayIsRefused(db: Db, req: BookingRequest, now: int)
    requires KeysBelow(db.schedules, db.nextScheduleId) && req.scheduleId in db.schedules
    requires db.schedules[req.scheduleId].quota > 0
    requires now <= db.schedules[req.scheduleId].scheduleDate < StartOfDay(now) + DayMs
    ensures AvailableViewOf(db, req.scheduleId) in AvailableSchedules(db, Absent, now).data
    ensures CreateBooking(db, req, now).0 == Fail(400, NextDayOnlyMessage)
  {
    var s := db.schedules[req.scheduleId];
    LaterDayIffAfterNextMidnight(s.scheduleDate, now);
    assert Listed(Absent, now, s);
    assert StartOfDay(s.scheduleDate) <= StartOfDay(now);
  }

  /**
   * After a successful createBooking, the dealer view of that schedule
   * shows one more used unit but two fewer available ones: the stored
   * quota already dropped by one and available_quota subtracts the new
   * booking again.
   */
  lemma AvailableQuotaCountsBookingTwice(db: Db, req: BookingRequest, now: int)
    requires Wf(db) && CreateBooking(db, req, now).0.Success?
    ensures req.scheduleId in db.schedules && req.scheduleId in CreateBooking(db, req, now).1.schedules
    ensures DealerViewOf(CreateBooking(db, req, now).1, req.scheduleId).usedQuota
         == DealerViewOf(db, req.scheduleId).usedQuota + 1
    ensures DealerViewOf(CreateBooking(db, req, now).1, req.scheduleId).availableQuota
         == DealerViewOf(db, req.scheduleId).availableQuota - 2
  {
    var res := CreateBooking(db, req, now);
    var id, sid := res.0.data.id, req.scheduleId;
    assert BookingsOf(res.1.bookings, sid) == BookingsOf(db.bookings, sid) + {id};
    assert id !in BookingsOf(db.bookings, sid);
  }

  /** At most one schedule per dealer and instant, the rule createSchedule enforces. */
  ghost predicate UniqueDealerDates(db: Db) {
    forall i, j :: i in db.schedules && j in db.schedules && i != j
      ==> db.schedules[i].dealerId != db.schedules[j].dealerId
          || db.schedules[i].scheduleDate != db.schedules[j].scheduleDate
  }

  lemma CreateScheduleKeepsDatesUnique(db: Db, req: CreateScheduleRequest, dealerId: int, now: int)
    requires Wf(db) && UniqueDealerDates(db)
    ensures UniqueDealerDates(CreateSchedule(db, req, dealerId, now).1)
  {
    var res := CreateSchedule(db, req, dealerId, now);
    if res.0.Success? {
      var id := db.nextScheduleId;
      forall i, j | i in res.1.schedules && j in res.1.schedules && i != j && i == id
        ensures res.1.schedules[i].dealerId != res.1.schedules[j].dealerId
                || res.1.schedules[i].scheduleDate != res.1.schedules[j].scheduleDate
      {
        assert j in db.schedules;
      }
    }
  }

  /**
   * updateSchedule does not repeat that rule: moving a schedule onto the
   * date of another schedule of the same dealer succeeds, and the dealer
   * then has two schedules at the same instant.
   */
  lemma UpdateScheduleCanDuplicateDate(db: Db, id: int, other: int, now: int)
    requires Wf(db) && id in db.schedules && other in db.schedules && id != other
    requires db.schedules[id].dealerId == db.schedules[other].dealerId
    requires db.schedules[other].scheduleDate >= StartOfDay(now)
    ensures UpdateSchedule(db, id, SchedulePatch(At(db.schedules[other].scheduleDate), None), now).0.Success?
    ensures !UniqueDealerDates(UpdateSchedule(db, id, SchedulePatch(At(db.schedules[other].scheduleDate), None), now).1)
  {
    var db' := UpdateSchedule(db, id, SchedulePatch(At(db.schedules[other].scheduleDate), None), now).1;
    assert db'.schedules[id].scheduleDate == db'.schedules[other].scheduleDate;
  }

  /** A schedule just created has no booking, so deleting it succeeds and restores the schedule table. */
  lemma CreateThenDeleteSchedule(db: Db, req: CreateScheduleRequest, dealerId: int, now: int)
    requires Wf(db) && CreateSchedule(db, req, dealerId, now).0.Success?
    ensures var (r, db') := CreateSchedule(db, req, dealerId, now);
            var (d, db'') := DeleteSchedule(db', r.data.id);
            d.Success? && db''.schedules == db.schedules && db''.bookings == db.bookings
  {
    var (r, db') := CreateSchedule(db, req, dealerId, now);
    var id := r.data.id;
    assert BookingsOf(db'.bookings, id) == {} by {
      forall b | b in db.bookings ensures db.bookings[b].scheduleId != id {
        assert db.bookings[b].scheduleId in db.schedules;
      }
    }
    assert db'.schedules - {id} == db.schedules;
  }

  /** A booking just created is what getBookingById returns for its id. */
  lemma CreateThenGetBooking(db: Db, req: BookingRequest, now: int)
    requires Wf(db) && CreateBooking(db, req, now).0.Success?
    ensures var (r, db') := CreateBooking(db, req, now);
            var g := GetBookingById(db', r.data.id);
            && g.Success?
            && g.data.name == req.name && g.data.licensePlate == req.licensePlate
            && g.data.scheduleId == req.scheduleId && g.data.status == PendingStatus
            && g.data.scheduleDate == db.schedules[req.scheduleId].scheduleDate
            && g.data.createdAt == now
  {
    var (r, db') := CreateBooking(db, req, now);
    var row := FindStatusByName(db.statuses, PendingStatus).value;
    FindStatusByIdOfRow(db.statuses, row);
  }

  /**
   * A date filter replaces the bound by the current instant: a schedule
   * dated earlier today, or on a past day, is listed when that day is
   * asked for, though the unfiltered listing leaves it out.
   */
  lemma DayFilterListsPastSchedules(db: Db, sid: int, t: int, now: int)
    requires KeysBelow(db.schedules, db.nextScheduleId) && sid in db.schedules && db.schedules[sid].quota > 0
    requires StartOfDay(t) <= db.schedules[sid].scheduleDate < StartOfDay(t) + DayMs
    requires db.schedules[sid].scheduleDate < now
    ensures AvailableViewOf(db, sid) in AvailableSchedules(db, At(t), now).data
    ensures AvailableViewOf(db, sid) !in AvailableSchedules(db, Absent, now).data
  {
    var v := AvailableViewOf(db, sid);
    assert Listed(At(t), now, db.schedules[sid]);
    assert !Listed(Absent, now, db.schedules[sid]);
    var daily := AvailableSchedules(db, At(t), now);
    var all := AvailableSchedules(db, Absent, now);
    assert daily.Success? && all.Success?;
    assert v in daily.data;
    assert v !in all.data;
  }

  /**
   * The first booking of a schedule with one unit of quota leaves its
   * dealer view at available_quota -1.
   */
  lemma AvailableQuotaGoesNegative(db: Db, req: BookingRequest, now: int)
    requires Wf(db) && CreateBooking(db, req, now).0.Success?
    requires db.schedules[req.scheduleId].quota == 1 && BookingsOf(db.bookings, req.scheduleId) == {}
    ensures req.scheduleId in CreateBooking(db, req, now).1.schedules
    ensures DealerViewOf(CreateBooking(db, req, now).1, req.scheduleId).availableQuota == -1
  {
    AvailableQuotaCountsBookingTwice(db, req, now);
  }
}

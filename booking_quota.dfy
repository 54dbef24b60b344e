/**
 * How the booking operations move a schedule's quota, stated through
 * Capacity (open quota plus the quota held by active bookings): booking
 * and cancelling only move units between the two, except that
 * cancelling an already cancelled booking hands a unit back a second
 * time, and reinstating a cancelled booking takes a unit without
 * checking that one is left.
 */
module BookingQuota {
  import opened Wrappers
  import opened Service
  import opened Db
  import opened BookingEntity
  import opened BookingService

  /** The first row named `name` in the status table is found again by its id. */
  lemma NamedStatusName(statuses: seq<StatusRow>, name: string)
    requires DistinctStatusIds(statuses) && FindStatusByName(statuses, name).Some?
    ensures StatusName(statuses, FindStatusByName(statuses, name).value.id) == name
  {
    var row := FindStatusByName(statuses, name).value;
    FindStatusByIdOfRow(statuses, row);
  }

  /** Adding an active booking of schedule b while taking one unit from its quota keeps every capacity. */
  lemma AdmissionKeepsCapacity(db: Db, db': Db, id: int, sid: int)
    requires id !in db.bookings && id in db'.bookings && db'.bookings == db.bookings[id := db'.bookings[id]]
    requires db'.statuses == db.statuses && !IsCancelled(db', db'.bookings[id])
    requires sid in db.schedules && sid in db'.schedules
    requires db'.schedules[sid].quota
             == db.schedules[sid].quota - (if sid == db'.bookings[id].scheduleId then 1 else 0)
    ensures Capacity(db', sid) == Capacity(db, sid)
  {
    ActiveBookingsApartFrom(db, db', sid, id);
    SetsApartFrom(ActiveBookingsOf(db', sid), ActiveBookingsOf(db, sid), id);
    assert id !in ActiveBookingsOf(db, sid);
    assert id in ActiveBookingsOf(db', sid) <==> sid == db'.bookings[id].scheduleId;
  }

  /**
   * A successful createBooking leaves every schedule's capacity as it
   * was: the new booking is active and holds exactly the unit taken from
   * its schedule's quota.
   */
  lemma CreateBookingKeepsCapacity(db: Db, req: BookingRequest, now: int, sid: int)
    requires Wf(db) && sid in db.schedules
    requires CreateBooking(db, req, now).0.Success?
    ensures sid in CreateBooking(db, req, now).1.schedules
    ensures Capacity(CreateBooking(db, req, now).1, sid) == Capacity(db, sid)
  {
    var res := CreateBooking(db, req, now);
    var id := res.0.data.id;
    NamedStatusName(db.statuses, PendingStatus);
    assert PendingStatus[0] != CancelledStatus[0];
    assert !IsCancelled(res.1, res.1.bookings[id]);
    AdmissionKeepsCapacity(db, res.1, id, sid);
  }

  /** The capacity change of updateBookingStatus: one more unit only when a cancelled booking is cancelled again. */
  function StatusCapacityDelta(oldName: string, newName: string): int {
    if oldName == CancelledStatus && newName == CancelledStatus then 1 else 0
  }

  /**
   * A successful status update keeps the capacity of every schedule,
   * except that re-cancelling a cancelled booking adds one unit to its
   * schedule.
   */
  lemma UpdateStatusCapacity(db: Db, id: int, newStatus: string, now: int, sid: int)
    requires Wf(db) && sid in db.schedules
    requires UpdateBookingStatus(db, id, newStatus, now).0.Success?
    ensures sid in UpdateBookingStatus(db, id, newStatus, now).1.schedules
    ensures Capacity(UpdateBookingStatus(db, id, newStatus, now).1, sid)
         == Capacity(db, sid)
            + (if sid == db.bookings[id].scheduleId
               then StatusCapacityDelta(StatusName(db.statuses, db.bookings[id].statusId), newStatus)
               else 0)
  {
    var db' := UpdateBookingStatus(db, id, newStatus, now).1;
    var b := db.bookings[id];
    var oldName := StatusName(db.statuses, b.statusId);
    assert IsCancelled(db', db'.bookings[id]) <==> newStatus == CancelledStatus;
    assert IsCancelled(db, b) <==> oldName == CancelledStatus;
    var before := ActiveBookingsOf(db, sid);
    var after := ActiveBookingsOf(db', sid);
    ActiveBookingsApartFrom(db, db', sid, id);
    SetsApartFrom(after, before, id);
    assert id in before <==> sid == b.scheduleId && oldName != CancelledStatus;
    assert id in after <==> sid == b.scheduleId && newStatus != CancelledStatus;
  }

  /** Deleting a booking frees no quota: an active booking's unit is lost from its schedule's capacity. */
  lemma DeleteBookingCapacity(db: Db, id: int, sid: int)
    requires Wf(db) && sid in db.schedules
    ensures sid in DeleteBooking(db, id).1.schedules
    ensures Capacity(DeleteBooking(db, id).1, sid)
         == Capacity(db, sid) - (if id in ActiveBookingsOf(db, sid) then 1 else 0)
  {
    var db' := DeleteBooking(db, id).1;
    ActiveBookingsApartFrom(db, db', sid, id);
    assert id !in ActiveBookingsOf(db', sid);
    SetsApartFrom(ActiveBookingsOf(db', sid), ActiveBookingsOf(db, sid), id);
  }

  /**
   * Cancelling the same booking twice hands its unit back twice: after
   * the two updates its schedule's quota is two units higher and its
   * capacity one unit higher than before.
   */
  lemma CancelTwiceInflatesQuota(db: Db, id: int, now: int, later: int)
    requires Wf(db) && id in db.bookings
    requires FindStatusByName(db.statuses, CancelledStatus).Some?
    requires StatusName(db.statuses, db.bookings[id].statusId) != CancelledStatus
    ensures var sid := db.bookings[id].scheduleId;
            var db1 := UpdateBookingStatus(db, id, CancelledStatus, now).1;
            var db2 := UpdateBookingStatus(db1, id, CancelledStatus, later).1;
            && sid in db2.schedules
            && db2.schedules[sid].quota == db.schedules[sid].quota + 2
            && Capacity(db2, sid) == Capacity(db, sid) + 1
  {
    var sid := db.bookings[id].scheduleId;
    var db1 := UpdateBookingStatus(db, id, CancelledStatus, now).1;
    UpdateStatusCapacity(db, id, CancelledStatus, now, sid);
    assert StatusName(db1.statuses, db1.bookings[id].statusId) == CancelledStatus;
    UpdateStatusCapacity(db1, id, CancelledStatus, later, sid);
  }

  /**
   * Reinstating a cancelled booking takes a unit from its schedule even
   * when none is left: with quota 0 the update succeeds and the quota
   * becomes negative.
   */
  lemma ReinstatementIgnoresQuota(db: Db, id: int, newStatus: string, now: int)
    requires Wf(db) && id in db.bookings
    requires StatusName(db.statuses, db.bookings[id].statusId) == CancelledStatus
    requires newStatus != CancelledStatus && FindStatusByName(db.statuses, newStatus).Some?
    requires db.schedules[db.bookings[id].scheduleId].quota == 0
    ensures UpdateBookingStatus(db, id, newStatus, now).0.Success?
    ensures UpdateBookingStatus(db, id, newStatus, now).1.schedules[db.bookings[id].scheduleId].quota == -1
  {
  }
}

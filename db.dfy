/**
 * The database the services talk to, as a value: three tables keyed by
 * an auto-incremented id (serviceSchedules, serviceBookings) or listed
 * in table order (serviceStatuses), and the next id of each
 * auto-increment. Wf is what the foreign keys and the id sequence
 * guarantee about every reachable state.
 */
module Db {
  import opened Wrappers

  datatype Schedule = Schedule(dealerId: int, scheduleDate: int, quota: int, createdAt: int, updatedAt: int)

  datatype Booking = Booking(
    name: string, phoneNo: string, vehicleType: string, licensePlate: string,
    vehicleProblem: string, scheduleId: int, serviceTime: string, statusId: int,
    createdAt: int, updatedAt: int)

  datatype StatusRow = StatusRow(id: int, name: string)

  datatype Db = Db(
    schedules: map<int, Schedule>,
    bookings: map<int, Booking>,
    statuses: seq<StatusRow>,
    nextScheduleId: int,
    nextBookingId: int)

  /** The status names the services look up. */
  const PendingStatus: string := "menunggu konfirmasi"
  const CancelledStatus: string := "konfirmasi batal"

  predicate DistinctStatusIds(statuses: seq<StatusRow>) {
    forall i, j :: 0 <= i < j < |statuses| ==> statuses[i].id != statuses[j].id
  }

  /** `serviceStatuses.findFirst({ where: { name } })`: the first row of that name. */
  function FindStatusByName(statuses: seq<StatusRow>, name: string): (r: Option<StatusRow>)
    ensures r.Some? ==> exists i :: 0 <= i < |statuses| && statuses[i] == r.value && r.value.name == name
                          && forall j :: 0 <= j < i ==> statuses[j].name != name
    ensures r.None? ==> forall i :: 0 <= i < |statuses| ==> statuses[i].name != name
  {
    if statuses == [] then None
    else if statuses[0].name == name then Some(statuses[0])
    else
      var r := FindStatusByName(statuses[1..], name);
      assert r.Some? ==> exists i :: 0 <= i < |statuses| - 1 && statuses[1..][i] == r.value
                          && forall j :: 0 <= j < i ==> statuses[1..][j].name != name;
      r
  }

  /** `serviceStatuses.findUnique({ where: { id } })`. */
  function FindStatusById(statuses: seq<StatusRow>, id: int): (r: Option<StatusRow>)
    ensures r.Some? ==> r.value in statuses && r.value.id == id
    ensures r.None? ==> forall i :: 0 <= i < |statuses| ==> statuses[i].id != id
  {
    if statuses == [] then None
    else if statuses[0].id == id then Some(statuses[0])
    else FindStatusById(statuses[1..], id)
  }

  /** With distinct ids, looking a row up by its id finds that row. */
  lemma {:induction false} FindStatusByIdOfRow(statuses: seq<StatusRow>, row: StatusRow)
    requires DistinctStatusIds(statuses) && row in statuses
    ensures FindStatusById(statuses, row.id) == Some(row)
  {
    if statuses[0] != row {
      assert row in statuses[1..];
      assert statuses[0].id != row.id by {
        var k :| 0 <= k < |statuses| && statuses[k] == row;
      }
      FindStatusByIdOfRow(statuses[1..], row);
    }
  }

  /** The name of the status with this id; `oldStatus?.name` is undefined (here "") when there is none. */
  function StatusName(statuses: seq<StatusRow>, id: int): string {
    match FindStatusById(statuses, id)
    case Some(row) => row.name
    case None => ""
  }

  /** Every key of m is a positive id below the next one the table hands out. */
  predicate KeysBelow<V>(m: map<int, V>, n: int) {
    forall id :: id in m ==> 0 < id < n
  }

  ghost predicate Wf(db: Db) {
    && DistinctStatusIds(db.statuses)
    && db.nextScheduleId >= 1 && db.nextBookingId >= 1
    && KeysBelow(db.schedules, db.nextScheduleId)
    && KeysBelow(db.bookings, db.nextBookingId)
    && (forall id :: id in db.bookings ==> db.bookings[id].scheduleId in db.schedules)
    && (forall id :: id in db.bookings ==> FindStatusById(db.statuses, db.bookings[id].statusId).Some?)
  }

  /** The ids of the bookings that reference schedule sid, of any status. */
  function BookingsOf(bookings: map<int, Booking>, sid: int): set<int> {
    set id | id in bookings && bookings[id].scheduleId == sid
  }

  predicate IsCancelled(db: Db, b: Booking) {
    StatusName(db.statuses, b.statusId) == CancelledStatus
  }

  /** The ids of the bookings of schedule sid whose status consumes quota (any but cancelled). */
  function ActiveBookingsOf(db: Db, sid: int): set<int> {
    set id | id in db.bookings && db.bookings[id].scheduleId == sid && !IsCancelled(db, db.bookings[id])
  }

  /**
   * Active bookings of a schedule depend on the bookings table row by
   * row: two states that agree on the status table and on every booking
   * but `id` have the same active bookings apart from `id`.
   */
  lemma ActiveBookingsApartFrom(db: Db, db': Db, sid: int, id: int)
    requires db'.statuses == db.statuses
    requires forall k :: k != id ==> (k in db'.bookings <==> k in db.bookings)
    requires forall k :: k != id && k in db.bookings ==> db'.bookings[k] == db.bookings[k]
    ensures ActiveBookingsOf(db', sid) - {id} == ActiveBookingsOf(db, sid) - {id}
  {
    forall k ensures k in ActiveBookingsOf(db', sid) - {id} <==> k in ActiveBookingsOf(db, sid) - {id} {
      if k != id && k in db.bookings {
        assert IsCancelled(db', db'.bookings[k]) == IsCancelled(db, db.bookings[k]);
      }
    }
  }

  /** Two sets that agree apart from one element differ at most by that element. */
  lemma SetsApartFrom(a: set<int>, b: set<int>, id: int)
    requires a - {id} == b - {id}
    ensures (id in a <==> id in b) ==> a == b
    ensures id in a && id !in b ==> a == b + {id} && |a| == |b| + 1
    ensures id !in a && id in b ==> a == b - {id} && |a| == |b| - 1
  {
    forall x | x != id ensures x in a <==> x in b {
      assert x in a <==> x in a - {id};
      assert x in b <==> x in b - {id};
    }
    if id in a && id !in b {
      assert a == b + {id};
      assert |b + {id}| == |b| + 1;
    } else if id !in a && id in b {
      assert a == b - {id};
      assert b == a + {id};
      assert |a + {id}| == |a| + 1;
    } else {
      assert a == b;
    }
  }

  /**
   * What a schedule holds in all: the quota still open plus the quota its
   * active bookings consume. Admission and cancellation only move units
   * between the two.
   */
  function Capacity(db: Db, sid: int): int
    requires sid in db.schedules
  {
    db.schedules[sid].quota + |ActiveBookingsOf(db, sid)|
  }

  /** Adds delta to the quota of schedule sid (a Prisma increment/decrement, which stamps updated_at). */
  function AdjustQuota(db: Db, sid: int, delta: int, now: int): (r: Db)
    ensures r.bookings == db.bookings && r.statuses == db.statuses
    ensures r.nextScheduleId == db.nextScheduleId && r.nextBookingId == db.nextBookingId
    ensures r.schedules.Keys == db.schedules.Keys
    ensures forall k :: k in db.schedules && k != sid ==> r.schedules[k] == db.schedules[k]
    ensures sid in db.schedules ==> r.schedules[sid].quota == db.schedules[sid].quota + delta
    ensures sid in db.schedules ==> r.schedules[sid] == db.schedules[sid].(quota := db.schedules[sid].quota + delta, updatedAt := now)
    ensures sid !in db.schedules ==> r == db
  {
    if sid in db.schedules then
      var s := db.schedules[sid];
      db.(schedules := db.schedules[sid := s.(quota := s.quota + delta, updatedAt := now)])
    else db
  }

  /** Changing the quota of a schedule keeps the store well formed. */
  lemma AdjustQuotaKeepsWf(db: Db, sid: int, delta: int, now: int)
    requires Wf(db)
    ensures Wf(AdjustQuota(db, sid, delta, now))
  {
  }

  /** Rewriting a booking under the same schedule and with a known status keeps the store well formed. */
  lemma RewriteBookingKeepsWf(db: Db, id: int, b: Booking)
    requires Wf(db) && id in db.bookings
    requires b.scheduleId == db.bookings[id].scheduleId && FindStatusById(db.statuses, b.statusId).Some?
    ensures Wf(db.(bookings := db.bookings[id := b]))
  {
  }

  /** Inserting a booking under the next id, of an existing schedule and with a known status, keeps the store well formed. */
  lemma InsertBookingKeepsWf(db: Db, b: Booking)
    requires Wf(db)
    requires b.scheduleId in db.schedules && FindStatusById(db.statuses, b.statusId).Some?
    ensures db.nextBookingId !in db.bookings
    ensures Wf(db.(bookings := db.bookings[db.nextBookingId := b], nextBookingId := db.nextBookingId + 1))
  {
  }

  /**
   * A table scan in primary-key order: the ids below n of the rows of m
   * that satisfy p, ascending.
   */
  function IdsWhere<V>(m: map<int, V>, n: int, p: V -> bool): (r: seq<int>)
    decreases n
    ensures forall i :: 0 <= i < |r| ==> r[i] in m && p(m[r[i]])
    ensures forall id :: id in r <==> id in m && 0 <= id < n && p(m[id])
    ensures forall i, j :: 0 <= i < j < |r| ==> r[i] < r[j]
  {
    if n <= 0 then []
    else
      var rest := IdsWhere(m, n - 1, p);
      if n - 1 in m && p(m[n - 1]) then rest + [n - 1] else rest
  }
}

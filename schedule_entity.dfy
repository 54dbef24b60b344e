/**
 * src/entities/Schedule.ts: what the schedule controller hands to the
 * schedule service. A date arrives as a string that `new Date` parses;
 * DateInput records the outcome of that parse (no string, a string that
 * is not a date, or an instant).
 */
module ScheduleEntity {
  import opened Wrappers
  import opened Time

  /** CreateScheduleDTO. */
  datatype CreateScheduleRequest = CreateScheduleRequest(scheduleDate: DateInput, quota: int)

  /** UpdateScheduleDTO: a field is None when the controller left it out. */
  datatype SchedulePatch = SchedulePatch(scheduleDate: DateInput, quota: Option<int>)
}

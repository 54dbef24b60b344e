# Dealer service booking: schedules, bookings and their quota

This project models the core of a dealer service-booking backend.
Dealers publish service schedules, each with a quota of slots. Customers
book a slot on a schedule. A booking moves through the five status names
of the status table ('menunggu konfirmasi', 'konfirmasi batal',
'konfirmasi datang', 'tidak datang', 'datang'). The model covers:

- the two services, `BookingService` and `ScheduleService`, over a
  database of three tables (schedules, bookings, statuses);
- the two REST controllers that validate requests and map service results
  onto replies;
- the command-line argument parser of `src/index.ts`;
- the two `exclude` helpers of the entity files.

## How it is modelled

- **The database.** It is a value `Db.Db`: two maps keyed by
  auto-incremented ids, the status table as a sequence in table order, and
  the next id of each table. `Db.Wf` states what the foreign keys and the
  id sequence guarantee in every state the services reach.
- **Changing operations.** createBooking, updateBookingStatus,
  deleteBooking, createSchedule, updateSchedule and deleteSchedule are each
  modelled twice:
  - as a function from the database before the call to the response and
    the database after it (`BookingService.CreateBooking`, ...), which
    carries the stated properties;
  - as a method of the class `Store.Store`, whose fields are the tables.
    The method updates them one write at a time, as the service does, and
    is proved to end in the state the function describes.
- **Read queries.** getBookings, getBookingById, getAvailableSchedules,
  getAllSchedules and getScheduleById are functions of the database.
  A `findMany` is a scan of the table in primary-key order followed by an
  insertion sort on the `orderBy` key (`Sorting.SortBy`).
- **Quota accounting.** `Db.Capacity` is a schedule's open quota plus the
  number of its bookings in a status other than 'konfirmasi batal'. The
  lemmas of `BookingQuota` say how each booking operation changes it.
- **Controllers.** Each handler is a function from the database and the
  request to the reply and the database after it. A method on the store
  does the same steps in the handler's order. Replies are named after the
  response helper that sends them (`Successful`, `Created`, `BadRequest`,
  `NotFound`, `Unauthorized`).
- **JavaScript built-ins.** `JsText` models `String.prototype.trim` and
  `parseInt` without a radix as ECMAScript defines them. `Cli` models
  `replace(/^--/, '')` and `split('=')`.
- **Time.** Time is an integer number of milliseconds. `new Date()` is
  the parameter `now`.
  - `setHours(0, 0, 0, 0)` is `Time.StartOfDay`; the server's time zone
    offset is folded into the timestamps.
  - A date sent in a request is a `Time.DateInput`: absent, a string that
    does not parse, or an instant. The schedule controller turns a body
    value into a `Time.ParsedDate` (never absent, as `new Date(x)` always
    gives a date) through the parameter `toDate`.

Behaviours of the code worth knowing:

- **createBooking validates before it trims.** A field of spaces only
  passes validation and reaches the service as the empty string.
- **updateBookingStatus looks up the status before the booking.** An
  unknown status name gives 400 even for a missing booking.
- **Re-cancelling returns quota again.** Setting 'konfirmasi batal' on a
  booking that already has it adds one more unit of quota.
- **Reinstating a cancelled booking takes a unit unchecked.** Nothing
  checks that quota is left, so the quota can go negative.
- **deleteBooking on a missing id gives 500, not 404.**
  - The store's `delete` throws, so the service's 404 branch is never
    taken and the catch answers 500.
  - The controller sends that as a bad request with the generic
    server-error message.
- **getBookings and getAllSchedules take no paging or filter.** The
  controller passes page, limit and licence plate, and the service ignores
  them. The listing is the whole table.
- **getAvailableSchedules compares with the current instant.** Without a
  date filter it lists schedules dated at or after `now`, not from today's
  midnight. A schedule later today is listed, yet createBooking refuses
  it.
- **The dealer's counters count a booking twice.**
  - getAllSchedules and getScheduleById compute `available_quota` as the
    stored quota minus the number of bookings of any status.
  - createBooking has already taken one unit from the stored quota, so
    each booking is counted twice.
- **getScheduleById's 404 reaches the client as a bad request.** The
  controller maps every service failure to a bad request.
- **createBooking's created reply carries no message.** The controller
  passes `result.data.message`, which the service never sets.
- **updateSchedule does not check for a duplicate date.** Unlike
  createSchedule, it lets a dealer end up with two schedules at the same
  instant.

## Model

| member | source | states |
|---|---|---|
| HttpReply.OrElse | src/controllers/rest/BookingController.ts:35 | a non-empty message wins, the empty one gives way to the fallback |
| HttpReply.LookupFailure | src/controllers/rest/BookingController.ts:60-65 | a service 404 becomes not found with the service's message; any other failure becomes a bad request |
| Time.StartOfDay | src/services/BookingService.ts:8-9 | midnight of t's day: a multiple of a day, at most t and less than a day before it |
| Time.StartOfDayUnique | src/services/BookingService.ts:8-9 | the midnight of a day is the only multiple of a day within that day |
| Time.StartOfDayOfMidnight | src/services/BookingService.ts:8-9 | truncating a midnight to its day leaves it unchanged |
| Time.LaterDayIffAfterNextMidnight | src/services/BookingService.ts:28-40 | a date falls on a later day than now exactly when it is at or after the next midnight (both directions) |
| JsText.TrimStart | src/controllers/rest/BookingController.ts:24-30 | the result is a suffix of s, what it drops is all whitespace, and it does not start with whitespace |
| JsText.TrimEnd | src/controllers/rest/BookingController.ts:24-30 | the result is a prefix of s, what it drops is all whitespace, and it does not end with whitespace |
| JsText.LeadingSpace | src/controllers/rest/BookingController.ts:24-30 | the number of leading whitespace characters is at most the length |
| JsText.Trim | src/controllers/rest/BookingController.ts:24-30 | `trim()` gives the contiguous middle of s, whitespace only on either side of it, and neither starts nor ends with whitespace |
| JsText.TrimStartOfTrimmed | src/controllers/rest/BookingController.ts:24-30 | a text that does not start with whitespace loses nothing at its start |
| JsText.TrimStartOfPadded | src/controllers/rest/BookingController.ts:24-30 | leading whitespace before a non-space start is removed exactly |
| JsText.TrimEndOfPadded | src/controllers/rest/BookingController.ts:24-30 | trailing whitespace after a non-space end is removed exactly |
| JsText.TrimOfPadded | src/controllers/rest/BookingController.ts:24-30 | trimming a trimmed text padded with whitespace on both sides gives back that text |
| JsText.TrimIdempotent | src/controllers/rest/BookingController.ts:24-30 | trimming twice is trimming once |
| JsText.TrimAllSpace | src/controllers/rest/BookingController.ts:24-30 | a text made only of whitespace trims to the empty string |
| JsText.DigitValue | src/controllers/rest/BookingController.ts:52 | a character's digit value lies in the radix's range, or is -1 for a non-digit |
| JsText.DigitPrefixLength | src/controllers/rest/BookingController.ts:52 | the length of the longest run of digits at the start: all digits before it, none at it |
| JsText.DecimalString | src/controllers/rest/BookingController.ts:52 | the decimal rendering of a natural number has at least one character |
| JsText.DecimalStringDigits | src/controllers/rest/BookingController.ts:52 | the decimal rendering is all digits and denotes the number back |
| JsText.DigitPrefixOfDigits | src/controllers/rest/BookingController.ts:52 | the digit run of a digit string followed by a non-digit is exactly that digit string |
| JsText.NoHexPrefixOfDigits | src/controllers/rest/BookingController.ts:52 | a decimal number that is not a lone "0" before an x is not read as hexadecimal |
| JsText.ParseIntUnsigned | src/controllers/rest/BookingController.ts:52 | without whitespace, sign or 0x, parseInt reads the decimal digit run |
| JsText.ParseIntNegative | src/controllers/rest/BookingController.ts:52 | a leading minus negates the number read, and NaN stays NaN |
| JsText.DigitRunOfDigits | src/controllers/rest/BookingController.ts:52 | a decimal string followed by a non-number reads as its value and has no hex prefix |
| JsText.ParseIntOfDecimal | src/controllers/rest/BookingController.ts:52 | parseInt reads back the decimal rendering of every integer, even with trailing text that does not extend the number |
| JsText.ParseIntOfNonNumeric | src/controllers/rest/BookingController.ts:52-56 | a text of whitespace only is NaN |
| Cli.StripDashes | src/index.ts:9 | one leading "--" is removed when present; otherwise the word is unchanged |
| Cli.Split | src/index.ts:10-11 | `split('=')` gives at least one piece, no piece contains '=', and a word without '=' is one piece |
| Cli.FirstIndex | src/index.ts:10-11 | the first position of the character: it is there and not before |
| Cli.Selected | src/index.ts:8 | the loop reads exactly the words at positions 2, 4, 6, ..., and none when there are at most two |
| Cli.LastNamed | src/index.ts:12 | the last word carrying a name: it carries it, no later word does, and -1 means no word does |
| Cli.RecordContents | src/index.ts:8-12 | a name is in the record exactly when some word carries it and it is not `__proto__`, with the value of the last such word |
| Cli.ParseArguments | src/index.ts:5-16 | the loop builds the record of assigning the selected words in order |
| Cli.RecordStep | src/index.ts:12 | one more word extends the record by one assignment |
| Cli.ShortArgumentsGiveEmptyRecord | src/index.ts:8 | with at most two arguments the record is empty |
| Cli.UnreadPositionsIgnored | src/index.ts:8 | changing a word at position 0, 1 or any odd position changes nothing |
| Cli.NameValueRoundTrip | src/index.ts:9-11 | `--name=value` reads back as that name and value when neither contains '=' |
| Cli.SecondEqualsDropsRest | src/index.ts:11 | everything after a second '=' is dropped from the value |
| Cli.NoEqualsGivesEmptyValue | src/index.ts:10-11 | a word without '=' is a name with the empty value |
| Cli.OneDashPairStripped | src/index.ts:9 | only one leading "--" is removed: "----x" is the name "--x" |
| Cli.SplitAtFirst | src/index.ts:10-11 | splitting at the first '=' gives the text before it, then the pieces of the rest |
| JsObjects.JsObject.constructor | src/entities/Booking.ts:33 | a new object with exactly the given properties |
| JsObjects.Omit | src/entities/Booking.ts:34-36 | deleting the keys in turn leaves exactly the unlisted properties, with their values |
| JsObjects.OmitRedundantKey | src/entities/User.ts:23-25 | deleting a listed key again, or an absent key, has no further effect |
| JsObjects.OmitIdempotent | src/entities/User.ts:23-25 | deleting the same keys twice is deleting them once |
| JsObjects.OmitDependsOnKeySet | src/entities/User.ts:23-25 | only the set of listed keys matters, not their order or repetition |
| BookingEntity.Exclude | src/entities/Booking.ts:29-38 | returns a fresh object without the listed keys and with every other property; the argument is not modified |
| UserEntity.Exclude | src/entities/User.ts:19-27 | deletes the listed keys from the given object, keeps the rest, and returns that same object |
| Sorting.InsertBy | src/services/ScheduleService.ts:37-40 | inserting adds exactly one element and keeps a sorted sequence sorted |
| Sorting.InsertedElement | src/services/ScheduleService.ts:37-40 | an element of a sequence with x added is x or an element of the original |
| Sorting.SortBy | src/services/BookingService.ts:156-158 | the `orderBy` result is a permutation of the rows, sorted by the key |
| Sorting.DistinctCount | src/services/BookingService.ts:156-158 | a sequence without repetitions holds each value at most once |
| Sorting.DistinctPermutation | src/services/BookingService.ts:156-158 | a permutation of a sequence without repetitions has none either |
| Sorting.SortByMembers | src/services/BookingService.ts:156-158 | sorting keeps exactly the rows it was given |
| Sorting.SortByFacts | src/services/ScheduleService.ts:280-282 | rows with increasing ids come out as the same rows, sorted, with distinct ids |
| Db.FindStatusByName | src/services/BookingService.ts:60-62 | `findFirst` by name: the first row of that name, or none when no row has it |
| Db.FindStatusById | src/services/BookingService.ts:308-310 | `findUnique` by id: a row of the table with that id, or none when no row has it |
| Db.FindStatusByIdOfRow | src/services/BookingService.ts:308-310 | with distinct ids, looking up a row's id finds that row |
| Db.ActiveBookingsApartFrom | src/services/BookingService.ts:286-317 | two states that agree on every booking but one have the same active bookings apart from it |
| Db.SetsApartFrom | src/services/BookingService.ts:286-317 | sets that agree apart from one element are equal or differ by that element, with sizes to match |
| Db.AdjustQuota | src/services/BookingService.ts:101-104 | an increment or decrement changes that schedule's quota by delta and stamps it, keeps its other fields and every other row, key and counter; a missing schedule leaves the database as it was |
| Db.AdjustQuotaKeepsWf | src/services/BookingService.ts:101-104 | changing a quota keeps the database well formed |
| Db.RewriteBookingKeepsWf | src/services/BookingService.ts:286-299 | rewriting a booking with a known status under the same schedule keeps the database well formed |
| Db.InsertBookingKeepsWf | src/services/BookingService.ts:75-99 | inserting a booking of an existing schedule under the next id keeps the database well formed; the id is unused |
| Db.IdsWhere | src/services/ScheduleService.ts:35-36 | a table scan: exactly the ids of the rows that satisfy the filter, ascending |
| BookingService.CreateBooking | src/services/BookingService.ts:6-138 | 404 for a missing schedule; 400 for today or earlier; 400 for no quota; 500 with no default status; failures change nothing; success inserts one pending booking under the next id, advances only the booking counter, takes one unit from that schedule (never below zero) and stamps it, keeps every other field and row, and answers with all eleven fields of the created booking; keeps Wf |
| BookingService.ViewOf | src/services/BookingService.ts:161-174 | a formatted booking carries its own id |
| BookingService.NewestFirstOrder | src/services/BookingService.ts:156-158 | rows sorted by the descending created_at key have non-increasing creation times |
| BookingService.ViewsOf | src/services/BookingService.ts:161-174 | formats each id in turn: one view per id, in order, and exactly the views of those ids |
| BookingService.AllViews | src/services/BookingService.ts:142-174 | every booking formatted exactly once, by ascending id |
| BookingService.GetBookings | src/services/BookingService.ts:140-185 | succeeds with exactly every booking, formatted, each once, newest first |
| BookingService.GetBookingById | src/services/BookingService.ts:187-249 | succeeds exactly for an existing id, with its formatted booking; otherwise the 404 |
| BookingService.QuotaDelta | src/services/BookingService.ts:301-317 | a new cancel status adds one unit, even after a cancel; leaving cancel takes one; anything else moves nothing |
| BookingService.UpdateBookingStatus | src/services/BookingService.ts:251-334 | 400 for an unknown status before 404 for a missing booking, both changing nothing; success sets the status and stamp of that booking only; when QuotaDelta is non-zero it moves that schedule's quota by it and stamps it, otherwise the schedules are untouched; no other row or counter changes; keeps Wf |
| BookingService.DeleteBooking | src/services/BookingService.ts:336-360 | succeeds exactly for an existing id; removes only that booking and touches no schedule, status or counter |
| BookingQuota.NamedStatusName | src/services/BookingService.ts:308-312 | the status found by name is found again by its id under that name |
| BookingQuota.AdmissionKeepsCapacity | src/services/BookingService.ts:75-104 | adding an active booking while taking one unit from its schedule keeps every schedule's capacity |
| BookingQuota.CreateBookingKeepsCapacity | src/services/BookingService.ts:42-104 | a successful createBooking keeps every schedule's capacity |
| BookingQuota.UpdateStatusCapacity | src/services/BookingService.ts:301-317 | a status update keeps every capacity, except that re-cancelling a cancelled booking adds one unit to its schedule |
| BookingQuota.DeleteBookingCapacity | src/services/BookingService.ts:336-338 | deleting an active booking loses its unit from its schedule's capacity; other deletions keep it |
| BookingQuota.CancelTwiceInflatesQuota | src/services/BookingService.ts:301-306 | cancelling the same booking twice raises its schedule's quota by two and its capacity by one |
| BookingQuota.ReinstatementIgnoresQuota | src/services/BookingService.ts:312-317 | reinstating a cancelled booking on a schedule with quota 0 succeeds and leaves quota -1 |
| ScheduleService.AvailableViewOf | src/services/ScheduleService.ts:54-60 | a listed schedule carries its own id |
| ScheduleService.AvailableViewsOf | src/services/ScheduleService.ts:54-60 | formats each id in turn: one view per id, in order, and exactly the views of those ids |
| ScheduleService.AvailableRows | src/services/ScheduleService.ts:8-33 | exactly the schedules the `where` selects, formatted, by ascending id |
| ScheduleService.AvailableSchedules | src/services/ScheduleService.ts:6-71 | 400 exactly for an unparseable date; otherwise exactly the schedules with quota left dated at or after now, or within the asked day, each once, by date then quota |
| ScheduleService.CreateSchedule | src/services/ScheduleService.ts:73-143 | 500 for a date that does not parse; 400 before today's midnight; 400 for the dealer's same instant; failures change nothing; success adds exactly one schedule under the next id and advances only the schedule counter; keeps Wf |
| ScheduleService.Patched | src/services/ScheduleService.ts:179-184 | only a given date and a given non-zero quota replace the stored ones; the stamp is now |
| ScheduleService.UpdateSchedule | src/services/ScheduleService.ts:145-214 | 404 for a missing id; 400 for a past date; 500 for a date that does not parse; failures change nothing; success rewrites only that schedule with the patch; keeps Wf |
| ScheduleService.DeleteSchedule | src/services/ScheduleService.ts:216-261 | 404 for a missing id; 400 when any booking of any status references it; success removes only that schedule; keeps Wf |
| ScheduleService.DealerViewOf | src/services/ScheduleService.ts:299-310 | used_quota = booking_count = the number of bookings of any status, and available_quota = quota minus that number |
| ScheduleService.ByDateOrder | src/services/ScheduleService.ts:280-282 | rows sorted by the date key have non-decreasing dates |
| ScheduleService.DealerViewsOf | src/services/ScheduleService.ts:299-310 | formats each id in turn: one view per id, in order, and exactly the views of those ids |
| ScheduleService.DealerRows | src/services/ScheduleService.ts:276-279 | exactly the dealer's schedules, formatted, by ascending id |
| ScheduleService.AllSchedules | src/services/ScheduleService.ts:263-322 | 401 exactly for dealer id 0; otherwise exactly that dealer's schedules, each once, by date |
| ScheduleService.BookingIdsOf | src/services/ScheduleService.ts:344-348 | exactly the ids of the schedule's bookings, ascending, as many as there are bookings |
| ScheduleService.StatusViewOf | src/services/ScheduleService.ts:368-371 | a listed booking carries its own id |
| ScheduleService.StatusViewsOf | src/services/ScheduleService.ts:368-371 | formats each id in turn: one entry per id, in order, and exactly the entries of those ids |
| ScheduleService.BookingStatuses | src/services/ScheduleService.ts:368-371 | exactly the schedule's bookings with their status names, one entry each, by id |
| ScheduleService.IdsCount | src/services/ScheduleService.ts:364 | an increasing sequence that lists exactly a set's members has the set's size |
| ScheduleService.ScheduleById | src/services/ScheduleService.ts:324-385 | 401 for dealer id 0; the same 404 for a missing schedule and another dealer's; success exactly otherwise, with the counters and the bookings' statuses |
| ServiceRules.BookableIsListed | src/services/ScheduleService.ts:8-11 | every schedule createBooking would accept now is among the unfiltered available schedules |
| ServiceRules.ListedTodayIsRefused | src/services/BookingService.ts:28-40 | a schedule later today with quota is listed as available, yet createBooking refuses it with 400 |
| ServiceRules.AvailableQuotaCountsBookingTwice | src/services/ScheduleService.ts:303-304 | after a booking, the dealer view shows one more used unit and two fewer available ones |
| ServiceRules.CreateScheduleKeepsDatesUnique | src/services/ScheduleService.ts:90-106 | createSchedule keeps every dealer at no more than one schedule per instant |
| ServiceRules.UpdateScheduleCanDuplicateDate | src/services/ScheduleService.ts:162-193 | moving a schedule onto the date of another of the dealer's schedules succeeds and breaks that rule |
| ServiceRules.CreateThenDeleteSchedule | src/services/ScheduleService.ts:236-249 | a schedule just created can be deleted, which restores the schedule and booking tables |
| ServiceRules.CreateThenGetBooking | src/services/BookingService.ts:187-249 | a booking just created is found by its id, pending, with the request's fields and the schedule's date |
| ServiceRules.DayFilterListsPastSchedules | src/services/ScheduleService.ts:13-33 | a past schedule with quota is listed when its day is asked for, and not in the unfiltered listing |
| ServiceRules.AvailableQuotaGoesNegative | src/services/ScheduleService.ts:304 | the first booking of a schedule with quota 1 leaves its available_quota at -1 |
| BookingController.PushIf | src/controllers/rest/BookingController.ts:11-17 | one `if (!field) errors.push(...)`: the error is appended exactly when the field is missing |
| BookingController.ValidateBooking | src/controllers/rest/BookingController.ts:9-17 | collects the error of every missing field, in the order of the checks |
| BookingController.ValidationIffFilled | src/controllers/rest/BookingController.ts:19-21 | no error exactly when all seven fields are filled |
| BookingController.MissingInjective | src/controllers/rest/BookingController.ts:11-17 | distinct fields report distinct errors |
| BookingController.ErrorIfMember | src/controllers/rest/BookingController.ts:11-17 | a field's error is among one check's errors exactly when that check is for it and fails |
| BookingController.NameReported | src/controllers/rest/BookingController.ts:11 | the name's error is reported exactly when the name is missing or empty |
| BookingController.ScheduleIdReported | src/controllers/rest/BookingController.ts:16 | the schedule id's error is reported exactly when it is missing or 0 |
| BookingController.ToRequest | src/controllers/rest/BookingController.ts:23-31 | every string field of the request is trimmed; the schedule id is passed as sent |
| BookingController.BlankNamePassesAsEmpty | src/controllers/rest/BookingController.ts:11-31 | a name of spaces only passes validation and reaches the service as "" |
| BookingController.ToRequestIdempotent | src/controllers/rest/BookingController.ts:23-31 | building the request again from its own fields gives the same request |
| BookingController.CreateBookingReply | src/controllers/rest/BookingController.ts:7-38 | missing fields give a bad request with the errors and change nothing; every service failure is a bad request; success is created without a message |
| BookingController.CreateBooking | src/controllers/rest/BookingController.ts:7-38 | the handler on the store gives the reply and state of CreateBookingReply |
| BookingController.GetAllBookings | src/controllers/rest/BookingController.ts:40-49 | replies with exactly every booking, formatted |
| BookingController.GetBookingById | src/controllers/rest/BookingController.ts:51-68 | an id parseInt cannot read is a bad request; a missing booking is not found; otherwise that booking |
| BookingController.TrailingTextInIdIgnored | src/controllers/rest/BookingController.ts:52 | "12abc" addresses the same booking as "12" |
| BookingController.UpdateStatusReply | src/controllers/rest/BookingController.ts:70-94 | a bad id, then a status outside the five names, are bad requests that change nothing; otherwise the service result, 404 as not found |
| BookingController.SeededStatusesOnlyMissBookings | src/controllers/rest/BookingController.ts:79-91 | with all five names in the status table, an update fails only for a missing booking, as not found |
| BookingController.UpdateBookingStatus | src/controllers/rest/BookingController.ts:70-94 | the handler on the store gives the reply and state of UpdateStatusReply |
| BookingController.DeleteBookingReply | src/controllers/rest/BookingController.ts:96-113 | a bad id is a bad request that changes nothing; otherwise the service result, mapped |
| BookingController.DeleteMissingBookingIsBadRequest | src/controllers/rest/BookingController.ts:105-110 | deleting a missing booking is a bad request with the server-error message, never not found, and changes nothing |
| BookingController.DeleteBooking | src/controllers/rest/BookingController.ts:96-113 | the handler on the store gives the reply and state of DeleteBookingReply |
| ScheduleController.AvailableReply | src/controllers/rest/ScheduleController.ts:7-16 | filters by the query date only when it is truthy; an unparseable date is a bad request, otherwise the service's list |
| ScheduleController.CreateScheduleChecks | src/controllers/rest/ScheduleController.ts:19-30 | passes exactly with a dealer, a truthy date and a number quota above 0; otherwise unauthorized, then the two bad requests in order |
| ScheduleController.CreateScheduleReply | src/controllers/rest/ScheduleController.ts:18-44 | a failed check changes nothing; every service failure is a bad request; success is created with the service's message |
| ScheduleController.CreatedQuotaPositive | src/controllers/rest/ScheduleController.ts:28-30 | a created schedule always has a quota above 0 |
| ScheduleController.CreateSchedule | src/controllers/rest/ScheduleController.ts:18-44 | the handler on the store gives the reply and state of CreateScheduleReply |
| ScheduleController.UpdatePatch | src/controllers/rest/ScheduleController.ts:54-62 | the date only when truthy, the quota whenever sent; refused exactly when a sent quota is not a number at least 0 |
| ScheduleController.BuildUpdatePatch | src/controllers/rest/ScheduleController.ts:54-62 | the field-by-field construction of the DTO gives UpdatePatch |
| ScheduleController.ZeroQuotaIsIgnored | src/controllers/rest/ScheduleController.ts:57-61 | a quota of 0 passes the controller, the update succeeds, and the stored quota is kept |
| ScheduleController.UpdateScheduleReply | src/controllers/rest/ScheduleController.ts:46-74 | a bad id or quota is a bad request that changes nothing; otherwise the service result, 404 as not found |
| ScheduleController.UpdateSchedule | src/controllers/rest/ScheduleController.ts:46-74 | the handler on the store gives the reply and state of UpdateScheduleReply |
| ScheduleController.DeleteScheduleReply | src/controllers/rest/ScheduleController.ts:76-93 | a bad id is a bad request that changes nothing; otherwise the service result, 404 as not found |
| ScheduleController.DeleteSchedule | src/controllers/rest/ScheduleController.ts:76-93 | the handler on the store gives the reply and state of DeleteScheduleReply |
| ScheduleController.AllSchedulesReply | src/controllers/rest/ScheduleController.ts:95-105 | no dealer is unauthorized; otherwise the dealer's schedules |
| ScheduleController.ScheduleByIdReply | src/controllers/rest/ScheduleController.ts:107-120 | no dealer is unauthorized; a missing or foreign schedule is a bad request, not not found; otherwise the detail |
| Store.Store.constructor | prisma/seeds/seedServiceStatuses.ts:4-9 | empty schedule and booking tables over a status table with distinct ids, well formed |
| Store.Store.ChangeQuota | src/services/BookingService.ts:101-104 | one increment or decrement of a schedule's quota, as AdjustQuota |
| Store.Store.CreateBooking | src/services/BookingService.ts:6-138 | the writes of createBooking end in the state and give the response of BookingService.CreateBooking |
| Store.Store.UpdateBookingStatus | src/services/BookingService.ts:251-334 | the writes of updateBookingStatus end in the state and give the response of BookingService.UpdateBookingStatus |
| Store.Store.DeleteBooking | src/services/BookingService.ts:336-360 | the write of deleteBooking ends in the state and gives the response of BookingService.DeleteBooking |
| Store.Store.CreateSchedule | src/services/ScheduleService.ts:73-143 | the writes of createSchedule end in the state and give the response of ScheduleService.CreateSchedule |
| Store.Store.UpdateSchedule | src/services/ScheduleService.ts:145-214 | the write of updateSchedule ends in the state and gives the response of ScheduleService.UpdateSchedule |
| Store.Store.DeleteSchedule | src/services/ScheduleService.ts:216-261 | the write of deleteSchedule ends in the state and gives the response of ScheduleService.DeleteSchedule |

## Left out

- Prisma, Express, the routes, the response helpers and the logger: the database is the `Db` value and the `Store` class, and a reply is named by its helper.
- Concurrency: the services read, insert and adjust quota without a transaction, so concurrent requests can overbook. The model runs one operation at a time, so each is atomic.
- Authentication: `req.user?.id` is an input of the schedule handlers; the auth service and middleware are not part of this model.
- Seeds: the status table is a parameter of the store's constructor. The seeded names are not the names the services look up, so the seeds are not modelled.
- Date parsing and the time zone: `new Date(...)` on a request value is the parameter `toDate`, `new Date()` is `now`, and midnight is computed in the server's local time folded into the timestamps.
- Storage exceptions other than the ones stated: the catch blocks, including createBooking's mapping of a unique-constraint error (`P2002`) to 400, are not modelled, because the model's tables raise no such error.
- Joined display fields: dealer name and address are left out of every view.
- getAllBookings' `meta` argument to the success helper is always undefined and is left out.
- Body values that are not strings where the booking controller expects one (a number for `name`, say), and fractional numbers anywhere: a body string field is `Option<string>` and numbers are integers.
- parseInt: precision beyond 2^53 and the result `-0` are not modelled; numbers are unbounded integers.
- getScheduleById's `Number(req.params.id)` conversion: the schedule id reaches ScheduleByIdReply as an integer.
- ScheduleService.ScheduleById: the bookings of a schedule are listed by ascending id; the store's own order for that relation is not specified.
- Sorting.SortBy: rows with equal sort keys come out of the insertion sort in id order; the store's order for equal keys is not modelled.
- Every write of the model stamps `updated_at` with `now`, assuming the schema's `@updatedAt` column; the schema is not part of this model. This covers Db.AdjustQuota (and so Store.Store.ChangeQuota), BookingService.CreateBooking, BookingService.UpdateBookingStatus, ScheduleService.Patched and the Store.Store methods that carry them out.
- BookingController.NameReported: per-field error reporting is proved for the name and the schedule id only; the other five fields follow the same ErrorIf pattern, and ValidationIffFilled covers all seven together.

# Torim: booking, availability and messaging, verified

Torim is a booking system for small businesses. Customers pick an offered time on a public
page, the owner works from an admin day view, and a queue holds the confirmations and
reminders to be sent. This project models the parts of it that carry rules and proves what
those rules amount to, for every input, every reachable state and every run.

`dafny verify dfyconfig.toml` checks everything.

## What is modelled

**The booking writes** (`BookingRows`, `BookingProtocol`, `BookingInvariant`,
`BookingTheorems`, `BookingHistory`, `BookingProgress`, `BookingWitnesses`, `BookingSweep`,
`BookingEngine`). Create, reschedule, cancel, no-show, confirm and mark-seen are transaction
programs that interleave one SQL statement at a time. A statement sees the rows committed at
that moment; the advisory lock on (business, local day) and the row lock of an UPDATE are held
until the transaction ends. The hash behind the lock key and the local-day function are
arbitrary functions. A commit log records what each committed write did, so that "last placed
by a write that was allowed to overlap and said so" can be stated; no program reads it.
`BookingSweep` adds the one multi-row statement, mark-all-seen, which comes to its rows one by
one among the others. `BookingEngine` holds the programs as methods of a class, run one at a
time, each a run of the protocol.

**Availability** (`OpeningWindows`, `WindowOrder`, `RowOrder`, `Slots`, `Zones`, `SlotRepeats`,
`AdminHours`, `Availability`, `PublicBooking`, `ManagedBooking`). Opening windows are the weekly template or
a date's overrides, minus closures; the slot engine walks a grid over them; the loader selects
the rows; booking from the public page, and moving a booking from its manage link, check that
the time was offered and then write; the owner's day view flags what falls outside the hours.
Dates are day numbers and times of day minutes from local midnight. The timezone library is a
partial function from a date and a minute to an instant, undefined where the clocks skip, later
for later minutes, with offsets between -12 and +14 hours, and the two readings of an instant
that give its date and its minute back; `Zones` shows that UTC and Berlin around a change of
its clocks are such.

**The calendar file** (`UtcCalendar`, `IcsText`, `IcsDocument`). Escaping, octet-aware folding,
dates and assembly of one event (sections 3.1, 3.3.5, 3.3.11 and 3.8.7.4 of RFC 5545), and the
reader that undoes them, down to the instants. The calendar behind the dates is that of section
21.4.1 of ECMA-262.

**The rate limiter** (`RateLimiter`, `RateLimiterTheorems`, `RateLimiterBounds`,
`RateLimiterEffects`). The map of
recent hits, compacted on each check, swept once a window and capped in size, against the rule
"keep every allowed hit".

**The optimistic store** (`OptimisticStore`, `OptimisticTheorems`). Values the admin shows
ahead of the server, their settling and their expiry.

**The notification queue** (`NotifyQueue`, `NotifyTable`, `NotifyDrain`, `NotifyTheorems`,
`NotifyOnce`, `NotifyEffects`). The table, the hooks that follow booking writes, and the drainer over all
tenants.

`Common` holds instants, `Option`, `Result` and stable sorting.

## What the proofs found

Some expectations hold only under a condition. Each is named here with the theorem that says
exactly when it holds and, for most, with an input on which it does not.

- A customer's change can be hidden from the unseen-changes badge. `last_customer_change_at` is
  the start of the transaction that commits last, so an older change that commits later moves
  it back. Exactly when: `BookingHistory.UnseenChangeShowsUnlessOvertaken`; a run:
  `BookingWitnesses.OvertakenChangeIsHidden`.
- Mark-all-seen can leave bookings flagged, one it wrote included: its stamp is the moment it
  began. Exactly when: `BookingSweep.SweepLeavesExactly`, `BookingSweep.SweepLeavesZeroExactly`; a
  run: `BookingSweep.SweepLeavesWhatItWrote`.
- Approving a pending booking does not raise its revision, so the calendar file's STATUS can
  change while its SEQUENCE does not. Exactly when: `BookingHistory.SameSequenceExactly`; a run:
  `BookingWitnesses.ApprovalKeepsTheSequence`.
- The lock is per local start day, so bookings that overlap can both be taken when their starts
  do not share a lock key. Exactly when, for any two services:
  `BookingWitnesses.OverlapExactlyAcrossKeys`; either side of midnight:
  `BookingWitnesses.MidnightIsNotExcluded`.
- Nothing in the schema or the overrides form keeps a date's overrides from overlapping, and
  rows that share a start can give windows that depend on the order in which the database
  returns them. Exactly when: `RowOrder.RowOrderMattersExactly`; two rows:
  `RowOrder.TwoOverridesInTwoOrders`.
- Where open windows overlap, a day's slots can be out of order and the page can list a time
  twice. Exactly when, for given inputs: `Slots.AnswersMean`; for every clock and set of bookings:
  `Slots.AlwaysAscendsExactly`; seven slots with three of them twice:
  `SlotRepeats.MorningIsListedTwice`.
- A start that the booking page offers can be flagged as outside the hours once it is booked, on
  a night when the clocks go forward during the appointment. Exactly when:
  `AdminHours.OfferedSlotFlaggedExactly`; Berlin, 29 March 2026: `AdminHours.FlaggedOnChangeNight`.
- A customer who moves her booking to an offered time can be refused when the service's length
  or buffers were edited after she booked. Exactly when: `ManagedBooking.RescheduleManaged`; two
  bookings, an edit and a move: `ManagedBooking.MoveAfterShortening`.
- The admin's move does not look at the booking's status. Moving a cancelled booking queues a
  confirmation and a reminder for it. Exactly when: `NotifyTheorems.MoveKeepsPromisesExactly`; a
  run: `NotifyTheorems.MovedAfterCancelling`.
- A booking moved after its reminder has left the queue gets no new one. Exactly when:
  `NotifyTheorems.ReminderAfterMove`.
- Whatever throws while the drain is at a row, rendering, transport or mark, ends the drain. That
  row and everything behind it, of every tenant, stay due, and the next drain hands the same
  message over first, even if it was delivered and only the mark failed. Drains empty the queue exactly when:
  `NotifyDrain.EmptyExactlyWhenNothingThrows`, `NotifyDrain.APoisonRowBlocksTheRest`; a run:
  `NotifyOnce.APoisonedRun`.
- A prune can show when a later server state brings back what a hold had replaced. Exactly when:
  `OptimisticTheorems.PruneShowsExactly`; a batch: `OptimisticTheorems.PruneCanShow`.
- Dates outside the years 0 to 9999 do not survive the calendar file. Exactly when:
  `IcsDocument.InstantReadsBackExactly`.
- The comment on `escapeIcsText` says carriage returns are dropped; the code turns a lone one
  into a newline. Exactly when they leave no trace: `IcsText.CrsLeaveNoTraceExactly`; the text:
  `IcsText.LoneCrIsABreak`.

## Model

| member | source | states |
|---|---|---|
| BookingTheorems.NoUnreportedOverlapUnderOneKey | src/lib/booking.ts:128-291 | in every state any interleaving reaches, two live bookings of one business whose starts share a lock key and that overlap exist only if one was last placed by a write allowed to overlap that reported it |
| BookingTheorems.NoUnreportedOverlap | src/lib/booking.ts:138-154 | in particular two that start on one local day |
| BookingTheorems.NoUnreportedOverlapAcrossDays | src/lib/booking.ts:138-154 | the same across all days, for bookings whose buffered interval stays inside its own local day |
| BookingTheorems.SerialRunsHaveNoUnreportedOverlap | src/lib/booking.ts:190-195 | with one transaction at a time there is no day restriction, because the conflict query scans the whole table |
| BookingTheorems.CustomersNeverOverlap | src/lib/public-booking.ts:199-207 | since public callers never pass the override, two bookings last placed by customers on one local day never overlap |
| BookingInvariant.StepKeepsInv | src/lib/booking.ts:128-132 | every statement of every transaction keeps the invariant that ties locks, checked intervals, pending writes and committed rows together |
| BookingInvariant.RunKeepsInv | src/lib/db.ts:66-80 | so does every run, with commit visible before the locks are released |
| BookingHistory.RowsEvolve | src/lib/booking.ts:247-288 | a booking keeps its owner, duration, buffers and price over every interleaved run, a freed slot stays freed, and the revision never falls |
| BookingHistory.FreedNeverBlocks | src/lib/booking.ts:138-154 | over any run, a cancelled or missed booking stays so and no conflict query of any transaction returns it, so it never makes a create or a move of another fail |
| BookingHistory.SequenceAdvances | src/lib/booking.ts:333-347 | a later file with another start or end, or for a booking called off since, has a larger SEQUENCE |
| BookingHistory.SameSequenceExactly | src/app/admin/data.ts:423-430 | two files with one SEQUENCE name one start and end, and their STATUS differs if and only if the booking was approved in between, over any interleaved run |
| BookingHistory.BadgeExactly | src/lib/admin-bookings.ts:57-59 | in every reachable state the badge is on exactly when some customer change committed and the last mark-seen committed before it or began before it |
| BookingHistory.UnseenChangeShowsUnlessOvertaken | src/lib/admin-bookings.ts:150-152 | a change begun after every mark-seen that commits later shows if and only if no older change overtook it |
| BookingHistory.ChangesInOrderAreNeverLost | src/lib/booking.ts:280-283 | if changes commit in the order they began, no change the owner could not have seen is lost, in either commit order with a mark-seen |
| BookingHistory.SerialBadge | src/lib/admin-bookings.ts:57-59 | one transaction at a time, the badge is on exactly when a customer change follows the last mark-seen |
| BookingSweep.SweepLeavesExactly | src/lib/admin-bookings.ts:155-161 | whatever runs beside it, mark-all-seen leaves flagged exactly the rows it wrote whose last change began after it, and the rows it passed by whose badge came on since it looked |
| BookingSweep.SweepStampsExactly | src/lib/admin-bookings.ts:155-161 | the commit stamps exactly the rows it wrote, each of its own business and flagged until then, with the moment the sweep began, and leaves every other row and column alone |
| BookingSweep.SweepLeavesZeroExactly | src/lib/admin-bookings.ts:143-161 | with no other mark-seen in between, the count is zero afterwards if and only if no booking's last change came too late: begun after the sweep for a row it wrote, committed after its last look for a row it passed by |
| BookingSweep.SweepLeavesZero | src/lib/admin-bookings.ts:155-161 | so it is zero when no change began after the sweep and none committed since it looked |
| BookingSweep.SweepLeavesWhatItWrote | src/lib/admin-bookings.ts:155-161 | a run in which both changes commit before the sweep looks and the booking it writes stays flagged |
| BookingSweep.TurnKeepsWorld | src/lib/db.ts:66-80 | every statement of every booking write and every row visit of every sweep keeps the protocol's invariant and what each sweep knows of its rows |
| BookingSweep.NoUnreportedOverlapAmongSweeps | src/lib/booking.ts:138-154 | the overlap theorem holds with any number of sweeps among the writes |
| BookingSweep.BadgeAmongSweeps | src/lib/admin-bookings.ts:57-59 | and the badge still follows the commit log exactly |
| BookingProgress.SomeStepIsEnabled | src/lib/booking.ts:171-228 | with any transaction in flight, some transaction's next statement can run: the writes cannot deadlock |
| BookingProgress.StepsDecrease | src/lib/booking.ts:246-291 | every statement but a new BEGIN lowers the total of statements left |
| BookingProgress.MaximalRunsFinish | src/lib/db.ts:66-80 | every way of running the transactions in flight to a standstill finishes all of them, within the statements they had left |
| BookingWitnesses.OverlapExactlyAcrossKeys | src/lib/booking.ts:138-173 | two overlapping requests for any two bookable services can both be granted unreported if and only if their starts have different lock keys |
| BookingWitnesses.MidnightIsNotExcluded | src/lib/booking.ts:173 | a reachable state with two unforced live bookings that overlap across midnight |
| BookingWitnesses.ApprovalKeepsTheSequence | src/app/admin/data.ts:423-430 | a reachable pending booking and a run after which it is confirmed under the same revision |
| BookingWitnesses.OvertakenChangeIsHidden | src/lib/booking.ts:333-347 | a reachable state in which the badge is off although the owner's mark-seen began before the customer's change |
| BookingEngine.Database.CreateBooking | src/lib/booking.ts:168-229 | the error for a missing or inactive service; without the override, refused exactly when a pending or confirmed row of the business meets [start less buffer, end plus buffer), columns and minutes spelled out; otherwise the one new row and whether it overlapped |
| BookingEngine.Database.RescheduleBooking | src/lib/booking.ts:243-292 | not found; without the override, refused exactly when another pending or confirmed row of the business meets the moved interval; otherwise the one row moved with its length kept, revision raised and the customer's change stamped |
| BookingEngine.Database.CancelBooking | src/lib/booking.ts:306-349 | the notice window binds customers only; otherwise the row is cancelled, its revision raised and the change stamped |
| BookingEngine.Database.MarkNoShowBooking | src/lib/booking.ts:368-391 | refused until the appointment has finished; otherwise only status and revision change |
| BookingEngine.Database.ConfirmBooking | src/app/admin/data.ts:423-430 | true exactly when a pending booking was there, and then only its status changes |
| BookingEngine.Database.MarkBookingSeen | src/lib/admin-bookings.ts:150-152 | stamps the booking, and nothing when it is not visible |
| OpeningWindows.OpenWindowsForDate | src/lib/slots.ts:107-148 | the loops over closures and windows return windows whose minutes are exactly those that an override of the date holds, or with no override an hours row of its weekday, and that no closure of the date holds |
| OpeningWindows.OpenMinutes | src/lib/slots.ts:107-148 | for any rows, the open minutes are exactly the overrides' or else the template's, minus the closed ones; windows come sorted and none is empty |
| OpeningWindows.OpenExactly | src/lib/slots.ts:107-148 | the same over the rows themselves: a minute is open if and only if no closure of the date holds it and an override of the date does or, when the date has none, an hours row of its weekday |
| OpeningWindows.OpenWindowsAreDisjoint | src/lib/slots.ts:123-147 | given disjoint hours and ordered closures the windows are strictly laid out one after another |
| RowOrder.RowOrderMattersExactly | src/lib/slots.ts:113-147 | with the date's closures as they are, the same hours, closures and overrides give one list of windows in every order if and only if, of two template rows with one start, the shorter ends against a shut minute |
| RowOrder.OpenWindowsIgnoreRowOrder | src/lib/availability.ts:113-145 | under that condition the customer's unordered reads and the admin's ordered ones give the same list |
| RowOrder.DisjointHoursIgnoreRowOrder | src/lib/slots.ts:123-147 | disjoint hours meet it, whatever the closures |
| RowOrder.RemainsAreRuns | src/lib/slots.ts:123-143 | what the closures leave of a window are its longest runs of minutes that are not shut |
| RowOrder.TwoOverridesInTwoOrders | src/lib/slots.ts:113-121 | two overrides that the schema admits, and two orders of them that give different lists |
| WindowOrder.CutAllIgnoresOrder | src/lib/slots.ts:123-143 | closures may be subtracted in any order |
| Slots.AnswersMean | src/lib/slots.ts:171-225 | each day's state follows the order of the tests, its slots are exactly the existing grid times that fit a window, meet notice and clash with nothing, and they strictly ascend if and only if whatever an earlier window offers is before whatever a later one offers |
| Slots.AnswerExactly | src/lib/slots.ts:154-226 | with the notice as now plus minNoticeMin minutes and the horizon as the date of now plus maxAdvanceDays: the slots are exactly the existing fitting grid minutes at or past the one, up to the other and clear of every booking, and each state holds exactly when its reason does |
| Slots.AlwaysAscendsExactly | src/lib/slots.ts:192-220 | a date's slots strictly ascend for every clock, notice, horizon and set of bookings if and only if every existing fitting grid minute of one window is before every one of a later window |
| Slots.LaidOutAscends | src/lib/slots.ts:192-220 | so they do whenever the windows do not overlap |
| SlotRepeats.MorningIsListedTwice | src/lib/slots.ts:113-121 | two overrides that the schema admits, on any date, for which the day's seven slots list 09:00, 10:00 and 11:00 twice |
| Slots.GenerateAvailability | src/lib/slots.ts:154-226 | rejects a non-positive granularity or duration, otherwise gives one answer per day of the range in order, and no slot of it is inside the minimum notice or past the horizon |
| Slots.WalkWindow | src/lib/slots.ts:193-220 | the grid walk with its skips finds exactly the window's slots and whether any was withheld for notice |
| Availability.GetAvailability | src/lib/availability.ts:103-180 | every day of the range lists exactly the existing fitting grid times that meet notice and horizon and whose buffered interval no pending or confirmed booking of the business meets, and its state says why when there are none |
| Availability.OfferedExactlyWhenFree | src/lib/availability.ts:147-158 | a grid time that passes notice and horizon is offered if and only if the conflict query on the same table is empty |
| Availability.CandidateIsInsideWidened | src/lib/availability.ts:150-157 | with offsets of -12 to +14 hours, buffers up to 240 minutes and appointments inside a day, a candidate lies within one day before and two after the range |
| Availability.RangeIsEnough | src/lib/availability.ts:125-140 | reading only the range's closures and overrides changes no day in it |
| PublicBooking.BookPublicly | src/lib/public-booking.ts:120-210 | the first error that applies, in the code's order, and otherwise the whole new row; it succeeds exactly when the service is active, the time is offered, and the customer is neither blocked nor over the cap, so with nothing in flight the create never contradicts the offer; the write is logged as a customer's without override |
| ManagedBooking.RescheduleManaged | src/lib/manage.ts:126-155 | succeeds exactly when the token names a booking, the time is offered for the service as it is and free for the booking as it was made; while the two measure the same an offered time is never refused |
| ManagedBooking.MoveAfterShortening | src/lib/manage.ts:138-155 | two creates, a service made shorter and a move to a time that is offered, which the write refuses |
| AdminHours.MergeWindows | src/app/admin/opening-hours.ts:23-35 | windows separated by real gaps with the same covered minutes, for any input |
| AdminHours.IsOutsideOpeningHours | src/app/admin/opening-hours.ts:44-51 | true exactly when some minute of the interval is uncovered or, when it ends no later than it starts, no non-empty window holds it |
| AdminHours.OpeningHoursCheck | src/app/admin/view.ts:95-114 | over instants: an appointment that ends later on its own date is flagged exactly when some minute of it is closed or unscheduled, one that ends on another date exactly when some minute from its start to 1440 is, one whose end reads no later than its start exactly when no window of the date holds both |
| AdminHours.FlaggedByRows | src/app/admin/view.ts:95-114 | the three cases in terms of the date's overrides, hours and closures |
| AdminHours.OfferedSlotFlaggedExactly | src/app/admin/view.ts:103-114 | a start the booking page offers is flagged if and only if, between where the service's length would end on the clock and where it does, some minute is not open, an end on another date reading as 1440 |
| AdminHours.OfferedSlotNotFlagged | src/app/admin/view.ts:103-114 | so no offered start is flagged unless the clocks go forward during the appointment |
| AdminHours.FlaggedOnChangeNight | src/app/admin/view.ts:103-114 | one that is: an hour from 01:30 in Berlin on 29 March 2026, open until 02:30 |
| IcsText.ChainIsOnePass | src/app/b/lib/ics.ts:42-49 | the five chained replacements equal a single pass in which none sees another's output |
| IcsText.EscapeExactly | src/app/b/lib/ics.ts:42-49 | character by character: a backslash before a backslash, semicolon or comma, one escape for each kind of line break, everything else as it is |
| IcsText.UnescapeInvertsEscape | src/app/b/lib/ics.ts:42-49 | reading an escaped value gives the text back with every line break a newline |
| IcsText.WrittenAlike | src/app/b/lib/ics.ts:42-49 | two texts are written alike exactly when they differ at most in the kind of line break |
| IcsText.CrsLeaveNoTraceExactly | src/app/b/lib/ics.ts:37-49 | a text is written as it would be without its carriage returns if and only if each of them is followed by a newline |
| IcsText.LoneCrIsABreak | src/app/b/lib/ics.ts:37-49 | a carriage return alone is written as a newline |
| IcsText.EscapedHasNoBreaks | src/app/b/lib/ics.ts:37-41 | no escaped value holds a raw CR or LF |
| IcsText.FoldIcsLine | src/app/b/lib/ics.ts:57-81 | the loop over characters with its octet budget computes the fold the next rows are about |
| IcsText.FoldExactly | src/app/b/lib/ics.ts:57-81 | up to 75 octets a line is left alone; a longer one is cut into pieces, each as long as 75 and then 74 octets allow, joined by CRLF and one blank |
| IcsText.Utf8IsDecodable | src/app/b/lib/ics.ts:51 | the octets counted for a character are its well-formed, shortest UTF-8 encoding, which decodes to it |
| IcsText.UnfoldInvertsFold | src/app/b/lib/ics.ts:53-81 | unfolding gives the line back, whatever follows it |
| IcsText.PiecesFromFit | src/app/b/lib/ics.ts:64-77 | the first piece takes at most 75 octets and every later one at most 74, cutting only between characters |
| IcsDocument.ReadInvertsWrite | src/app/b/lib/ics.ts:157 | a reader that unfolds, splits at CRLF and at the first colon and unescapes recovers exactly the content lines and the original values |
| IcsDocument.PhysicalLinesFit | src/app/b/lib/ics.ts:157 | every physical line of the file holds at most 75 octets |
| IcsDocument.BuildIcs | src/app/b/lib/ics.ts:111-158 | the errors in their order, otherwise a file, with CRLF as its only line break and at its end, from which the reader recovers the whole list of properties with their values, absent and empty fields leaving no line; by name the UID, the dates, SUMMARY, DESCRIPTION, LOCATION and URL, STATUS as given or CONFIRMED, and SEQUENCE as a number |
| IcsDocument.InstantReadsBackExactly | src/app/b/lib/ics.ts:32-35 | an instant reads back from the file as its own second if and only if it falls in the years 0 to 9999, for every instant a date can hold |
| UtcCalendar.InstantOfInvertsUtcOf | src/app/b/lib/ics.ts:32-33 | every instant is the one its calendar fields name |
| UtcCalendar.MonthsLast | src/app/b/lib/ics.ts:33 | the months behind the dates last 31 and 30 days, February 28 or 29 |
| IcsDocument.DateReadsBackExactly | src/app/b/lib/ics.ts:32-35 | slicing the ISO text keeps the calendar fields if and only if the year has four digits |
| IcsDocument.DateShowsItsFields | src/app/b/lib/ics.ts:32-35 | year, month, day, T, hour, minute, second and Z stand in their columns, as decimal digits |
| IcsDocument.LongYearReadsBack | src/app/b/lib/ics.ts:33 | of the ISO text, a year outside 0 to 9999 is a sign and six digits |
| IcsDocument.DecimalReadsBack | src/app/b/lib/ics.ts:151 | the SEQUENCE value reads back as the number |
| IcsDocument.UidIdentifiesTheBooking | src/app/b/lib/ics.ts:27-29 | two bookings have one UID exactly when they are one booking |
| RateLimiter.CreateRateLimiter | src/lib/rate-limit.ts:49-57 | the two option errors in order, the default cap, and an empty limiter |
| RateLimiter.Limiter.Check | src/lib/rate-limit.ts:71-107 | sweep when due, compact, reject or record, and enforce the cap, as the state function the theorems are about; a rejection leaves nothing remaining and a delay of at least 1 |
| RateLimiter.Limiter.EvictStale | src/lib/rate-limit.ts:60-66 | deleting while iterating drops exactly the keys whose every hit has aged out and keeps the order of the rest |
| RateLimiter.Limiter.EvictOldest | src/lib/rate-limit.ts:97-104 | drops the longest-tracked keys down to the cap, sparing the one being checked |
| RateLimiter.Limiter.Reset | src/lib/rate-limit.ts:109-112 | forgets one key or all |
| RateLimiter.Limiter.Size | src/lib/rate-limit.ts:114-116 | the number of tracked keys |
| RateLimiterTheorems.AnswersAsIfNothingWereForgotten | src/lib/rate-limit.ts:71-107 | over any run with a clock that never goes back and no live key forced out, resets included, every answer is the one of a ledger that keeps every allowed hit; so sweeps and rejected checks change none |
| RateLimiterEffects.AnswerExactly | src/lib/rate-limit.ts:71-107 | in any such run, a check is allowed if and only if fewer than limit of the key's allowed checks since its last reset are later than now less windowMs; what remains is the rest of the limit, a rejection leaves nothing and waits until the first of them leaves the window |
| RateLimiterTheorems.AtMostLimitPerWindow | src/lib/rate-limit.ts:71-107 | any window of length windowMs holds at most limit allowed checks of a key |
| RateLimiterBounds.RetryAfterIsExact | src/lib/rate-limit.ts:83-92 | after a rejection, whatever other checks come between, every check of the key before the delay is rejected and one made at that moment is allowed |
| RateLimiterBounds.RemainingCountsDown | src/lib/rate-limit.ts:94-106 | in any state, checking again at once is allowed exactly when something remained, and then one less remains |
| RateLimiterEffects.CheckExactly | src/lib/rate-limit.ts:81-106 | in any state and at any clock, the answer from the timestamps the map holds: allowed exactly when fewer than limit of them are later than now less windowMs |
| RateLimiterEffects.RejectionLeaves | src/lib/rate-limit.ts:75-92 | a rejected check keeps the key's hits inside the window, records none and touches another key only by a sweep that is due |
| RateLimiterEffects.AdmissionRecords | src/lib/rate-limit.ts:75-95 | an allowed check leaves the key's hits inside the window and its own, and remembers a sweep that was due |
| RateLimiterEffects.AdmissionSpares | src/lib/rate-limit.ts:97-104 | another key goes only when a sweep is due and its last hit has aged out, or when the hit brings the map over the cap |
| RateLimiterEffects.ShedExactly | src/lib/rate-limit.ts:98-103 | of the keys in insertion order exactly the first ones over the cap go, passing over the checked one |
| RateLimiterBounds.SizeIsCappedAndTheCheckedKeySurvives | src/lib/rate-limit.ts:94-104 | after any run, even with clock jumps, a check leaves at most max(1, maxKeys) keys and its own among them |
| RateLimiterBounds.ShedDropsTheOldest | src/lib/rate-limit.ts:98-103 | nobody is forced out before a longer-tracked key other than the one checked |
| RateLimiterBounds.FewKeysNeverForce | src/lib/rate-limit.ts:98 | runs over no more keys than may be tracked never force one out |
| OptimisticStore.Store.Apply | src/app/admin/optimistic-store.ts:107-132 | the holds taken and dropped, the entry deleted when empty, and a new version exactly on a change |
| OptimisticTheorems.ApplyExactly | src/app/admin/optimistic-store.ts:107-132 | each field of a patch, status and needsAttention alike, is held over the base when it differs from it, its hold dropped when it does not, and left alone when absent; other bookings are untouched |
| OptimisticStore.Store.Resolve | src/app/admin/optimistic-store.ts:134-150 | each field shows its live hold's expectation and otherwise the server's value |
| OptimisticStore.Store.IsPending | src/app/admin/optimistic-store.ts:152-159 | pending exactly when what is shown differs from the server, by the invariant that no hold expects what it replaced |
| OptimisticStore.Store.Prune | src/app/admin/optimistic-store.ts:161-192 | settles the batch, expires the rest, and returns true exactly when some hold was dropped |
| OptimisticStore.Store.Forget | src/app/admin/optimistic-store.ts:194-196 | drops one booking's holds, a new version exactly when there were any |
| OptimisticTheorems.PruneIsInvisible | src/app/admin/optimistic-store.ts:161-192 | a prune changes nothing shown over the server states it was given, nor for bookings outside the batch, then or later |
| OptimisticTheorems.PruneDropsExactly | src/app/admin/optimistic-store.ts:161-182 | a prune keeps a hold exactly when it has not expired and nothing the batch reports for its booking contradicts what it replaced |
| OptimisticTheorems.PruneShowsExactly | src/app/admin/optimistic-store.ts:102-105 | over any server state, from the prune on, it shows if and only if a field has a live hold over that state and the batch reports another value of that field for the booking |
| OptimisticTheorems.PruneCanShow | src/app/admin/optimistic-store.ts:161-182 | holds, a batch and a later server state over which the prune shows |
| OptimisticTheorems.ShowsOnlyTheLastPromise | src/app/admin/optimistic-store.ts:134-150 | over any run, a value shown against the server's is the last one promised for that field, over the very value it replaced, within the deadline |
| OptimisticTheorems.PromiseSurvives | src/app/admin/optimistic-store.ts:107-132 | an applied status, and likewise an applied needsAttention, stays shown until its deadline while the server reports what it replaced, whatever other patches and prunes happen |
| OptimisticTheorems.AcknowledgedAtOnce | src/app/admin/_components/ChangesList.tsx:38-42 | a change the owner acknowledges stops needing attention at once, and stays so until the deadline while the server still reports it |
| OptimisticTheorems.NothingOutlivesTheDeadline | src/app/admin/optimistic-store.ts:171-182 | once every patch is older than the deadline the server is shown as it is and any prune empties the store |
| NotifyQueue.Queue.Enqueue | src/lib/notify/queue.ts:67-76 | a new queued row and its id, or nothing when the key is on the table |
| NotifyQueue.Queue.ListDue | src/lib/notify/queue.ts:79-91 | the tenant's queued due rows in sending order, cut at the clamped limit |
| NotifyQueue.Queue.Mark | src/lib/notify/queue.ts:100-147 | changes only the tenant's row with that id, counts an attempt unless skipped, and says whether there was one |
| NotifyEffects.MarkExactly | src/lib/notify/queue.ts:100-147 | row by row: the tenant's row with the id takes the status, and an attempt more unless it is skipped |
| NotifyQueue.Queue.DropPendingForBooking | src/lib/notify/queue.ts:159-167 | removes exactly the booking's queued rows and counts them |
| NotifyEffects.DropExactly | src/lib/notify/queue.ts:159-167 | what is left is everything but the tenant's queued rows of the booking, in its order |
| NotifyQueue.Queue.ScheduleForBooking | src/lib/notify/schedule.ts:29-75 | the immediate notice per channel, then reminders when the lead is set and their moment is still to come |
| NotifyQueue.Queue.AfterBookingCreated | src/lib/notify/hooks.ts:43-50 | schedules, with no channel nothing |
| NotifyQueue.Queue.AfterBookingCancelled | src/lib/notify/hooks.ts:52-65 | drops first, with or without channels, then schedules the notice |
| NotifyQueue.Queue.AfterBookingRescheduled | src/lib/notify/hooks.ts:71-80 | drops, then schedules as for a new booking |
| NotifyQueue.Queue.ListDueAcrossTenants | src/lib/notify/ops.ts:67-86 | the first rows, up to the clamped limit, of everything due business by business |
| NotifyQueue.Queue.DrainDue | src/lib/notify/ops.ts:102-140 | the table with each row it gets past marked by its outcome, and the counts: delivered, refused, and nothing to say or unsendable, or none when something threw |
| NotifyQueue.CountsExactly | src/lib/notify/ops.ts:114-137 | sent, failed and skipped are the numbers of considered rows delivered, refused, and with nothing to say or unsendable |
| NotifyEffects.DrainExactly | src/lib/notify/ops.ts:114-137 | a row the drain gets past is sent if it was delivered and failed if it was refused, with one attempt more, and skipped otherwise; every other row is untouched |
| NotifyEffects.ScheduleExactly | src/lib/notify/schedule.ts:29-75 | the table after scheduling: what was there, and for each channel the notice due now and, for a new booking with a lead whose moment is to come, the reminder due at the start less the lead, each only where its key was free |
| NotifyEffects.HooksExactly | src/lib/notify/hooks.ts:43-80 | the three hooks likewise, the cancelled or moved booking's queued rows gone first |
| NotifyEffects.ListingExactly | src/lib/notify/queue.ts:79-91 | a tenant's listing holds exactly its queued rows due by now, by send time and then creation |
| NotifyEffects.ListingOverTenants | src/lib/notify/ops.ts:67-86 | over all tenants, exactly the queued rows due by now, business by business |
| NotifyEffects.LimitExactly | src/lib/notify/ops.ts:71 | a limit between 1 and 500 is used as it is, any other moved to the nearer end, none taken as the default |
| NotifyTable.DueIsOldestFirst | src/lib/notify/queue.ts:83-89 | the listing holds exactly what is queued and due, earlier send time first and creation order between equals |
| NotifyDrain.DrainIsAccountedFor | src/lib/notify/ops.ts:106-139 | sent + failed + skipped = the rows settled, which are all of min(limit, everything due) exactly when no delivery throws |
| NotifyDrain.DrainChangesExactlyTheSettled | src/lib/notify/ops.ts:114-137 | throwing or not, every row settled leaves the queue with the status DrainExactly names and no other row changes |
| NotifyDrain.DrainLeavesTheRest | src/lib/notify/ops.ts:67-86 | with no arrivals, the next listing starts where this drain stopped, at the row that threw or after the last considered, in the same order |
| NotifyDrain.RoundsTakeInOrder | src/lib/notify/ops.ts:102-140 | after any number of drains, whatever each of them met, what is due is what they left, in the same order |
| NotifyDrain.EmptyExactlyWhenNothingThrows | src/lib/notify/ops.ts:102-140 | drains through one transport empty the due set if and only if rounds times limit reach the backlog and no delivery in it throws, for any number of tenants |
| NotifyDrain.EmptyExactlyAfterEnoughRounds | src/lib/notify/ops.ts:102-140 | when nothing throws the transport may differ from round to round |
| NotifyDrain.APoisonRowBlocksTheRest | src/lib/notify/ops.ts:114-137 | a row whose delivery throws every time keeps itself and everything behind it due after any number of drains |
| NotifyTheorems.QueuedRowsFollowTheirBookings | src/lib/notify/hooks.ts:43-80 | in every reachable state, if only live bookings are moved, a queued reminder is due at the current start less the lead and a cancelled booking has no confirmation or reminder waiting |
| NotifyTheorems.MoveKeepsPromisesExactly | src/app/admin/_actions/bookings.ts:213-229 | a move keeps that if and only if the booking is live or everything the move would queue has left the queue before |
| NotifyTheorems.MovedAfterCancelling | src/lib/notify/hooks.ts:71-80 | a run that leaves a confirmation waiting for a cancelled booking |
| NotifyTheorems.ReminderAfterMove | src/lib/notify/schedule.ts:59-72 | after a move, a reminder waits on a channel exactly when one is wanted, its moment is to come and none left the queue before |
| NotifyTheorems.ConfirmationAfterMove | src/lib/notify/schedule.ts:51-54 | and a confirmation exactly when none left the queue before |
| NotifyTheorems.NoticeAfterCallOff | src/lib/notify/hooks.ts:52-65 | after a cancellation a notice waits on a channel exactly when none left the queue before, and nothing else waits for the booking |
| NotifyTheorems.WaitingAfterBook | src/lib/notify/hooks.ts:43-50 | after a new booking a confirmation waits on each channel and a reminder exactly when one is wanted and its moment is to come |
| NotifyOnce.HandedAtMostOnce | src/lib/notify/ops.ts:125-137 | over any run, a (booking, kind, channel) is handed to the transport again only if the time before the transport threw, or answered and the mark threw |
| NotifyOnce.OnceDoneAlwaysDone | src/lib/notify/queue.ts:159-167 | a row that has left the queue is never dropped, queued again or replaced |
| NotifyOnce.TheThrowerGoesFirst | src/lib/notify/ops.ts:114-137 | wherever in the listing a row's rendering, delivery or mark throws, the next drain lists that row first and hands it over |
| NotifyOnce.APoisonedRun | src/lib/notify/ops.ts:102-140 | a run in which two confirmations stay queued for ever and one message is handed over in every drain, whether the transport throws or delivers it and the mark throws |

## Left out

- BookingTheorems.NoUnreportedOverlap: does not cover concurrent bookings that overlap across local midnight, because the lock is taken for the day of the start only; `BookingWitnesses.OverlapExactlyAcrossKeys` says which of them can happen.
- BookingProgress.SomeStepIsEnabled: foreign-key locks and multi-row updates are outside it; each modelled transaction holds at most one advisory lock and one row lock.
- BookingSweep.TurnKeepsWorld: two sweeps of one business that come to their rows in different orders may wait for each other; which of them the database then aborts is not modelled beyond `Drop`.
- BookingEngine.Database.CreateBooking: runs with nothing else in flight; interleaving is the protocol's subject. A business that does not exist, and columns no rule reads (customer, note, manage token, who cancelled), are not modelled.
- PublicBooking.BookPublicly: the cap on a customer's future bookings is the count the caller read; under concurrency it is not an invariant, since it is read outside the booking's transaction. Cleaning of name, phone and email and the insertion of the customer are not modelled.
- Availability.GetAvailability: assumes a database session in UTC.
- ManagedBooking.RescheduleManaged: starts from the booking and service the token was resolved to; the token lookup itself is not modelled, and nothing else is in flight.
- IcsDocument.BuildIcs: lone surrogates cannot occur in the model's strings.
- The file name of the calendar download: it depends on Unicode normalisation tables.
- RateLimiterTheorems.AnswersAsIfNothingWereForgotten: nothing is claimed of answers after the clock jumps back or after a live key was forced out.
- OptimisticStore.Store.Apply: the listeners notified on a change are represented by the version alone.
- NotifyTheorems.QueuedRowsFollowTheirBookings: each booking write and its hook are one step with a fixed lead and no hook failure; hooks racing other writes are not covered.
- NotifyOnce.HandedAtMostOnce: drains do not interleave with each other or with other queue writes.
- Rows without a booking, deletion of a booking with its notifications, rendering of messages, payload and locale, and the ops token comparison.
- The timezone database, the database's own implementation of locks, constraints and row-level security, whose effect is assumed: rows of other tenants are invisible, ids are unique, row locks last until the transaction ends and a commit is visible before its locks go.
- React components, dictionaries, sign-in, sessions, the SMTP transport, and the scripts that create and seed the database.

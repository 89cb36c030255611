# Verification of the library system

This project models the library system's circulation, seats, sessions, migrations,
tool-call streaming, recommendations, document search, trends, reminders and gate, and
proves what they promise. `dafny verify dfyconfig.toml` checks all of it.

## How it is modelled

**Circulation.** `Library` holds the tables and one function per database transaction.
`Circulation` is a state machine: any number of `Borrow`, `Return`, `Renew`, `PlaceHold`
and copy-delete calls are in flight, each with its program counter and what it has read,
and each step is one database access, because the SQLite pool has exactly one connection
(`internal/store/store.go:51`). Steps interleave at will; the per-patron mutex is part of
the state; every step has its own clock reading. `CirculationInvariant` says what every
step keeps and what a call may rely on, `CirculationTables` and `CirculationSafety` prove
it, and the remaining `Circulation...` files draw the conclusions;
`RemindersOverRuns` draws two for the reminder scan. `LibraryService` is the
same service as a class over mutable tables; its methods are proved against the functions
of `Library`, and three lemmas tie the machine's calls to the methods. `CirculationCalls`
says what each call accepts and changes in terms of the rows and the numbers of the lending
rules, and `CirculationChecks` what every interleaved call has seen when it succeeds, and
when its steps are refused. A `History` in the
state records how each loan was opened and closed and how many holds existed when a hold's
call began; no step looks at it.

**Dates.** `Calendar` is the calendar of RFC 3339 (sections 5.6 and 5.7), and `Dates` the
`YYYY-MM-DD` strings the tables hold, compared as text. The strings are what every other
module uses.

**Seats.** `Seats` has the desk's calls as a class, `SeatMachine` interleaves their
statements, and also runs whole calls over a date that never goes back. `SeatChecks` says
in hours and rows what a reservation, a check-in and a cancellation need, as whole calls and
under interleaving.

**Sessions.** A map with expiry times, in nanoseconds; the rate limiter and the login
lockout are properties of all runs in time order, and so are the answers to a login and the
life of a session (`LoginSessions`). Each call takes one clock reading.

**Loops over Go maps** take their keys in any order (`GoMaps.Any`), and the results are
proved to be formulas over sets. **Sorting** is a stable insertion sort with the source's
comparison (`StableSort`). Recommender similarity and search scores are exact rationals.

Row ids are positions counted from 0 where rows are never deleted. Methods that change
state give their whole new state and result as a function of the old one; what that
function means is proved in the lemmas beside it.

## What does not hold

These are places where the code does not keep what one would expect for every input; the
lemmas give the exact condition and an input that fails.

- A formatted date reads back only in years 0000 to 9999 (`Dates.DayRoundTrip`), so adding days in
  two steps agrees with adding them at once exactly there (`Dates.AddDaysComposes`,
  `Dates.TwoPeriodsFromTheLastDate`).
- Due dates of renewals agree with the calendar exactly there too
  (`CirculationChains.RenewalsTileTime`). A due date of the years 10000 to 19999 is as text before
  every date from 2000 on, so its loan counts as overdue and is not renewed: with clocks from 2000
  on and periods of at most ten thousand years, and the service only writes 14 days, renewals agree
  with the calendar without exception (`CirculationRenewals.ModernRenewalsTileTime`). A longer period
  can fail: a loan due in the year 20250 is renewed and gains no time
  (`CirculationRenewals.RenewalWithoutMoreTime`).
- Days between dates stop at 106751, the range of a 64-bit nanosecond duration
  (`Dates.DaysBetweenUndoesAddDays`, `Dates.LongestDaysBetween`).
- The comment on `CheckRate` calls it a sliding window. Each accepted check renews the expiry of the
  whole count, so a steady caller is refused earlier: exactly when the last allowed number of
  acceptances follow each other within the window up to now, even if the earliest of them has left
  it (`Sessions.RateRefusedExactlyWhenBlocked`, `Sessions.DiffersFromSlidingWindow`,
  `Sessions.SteadyCallerIsRefused`). The bound itself holds (`Sessions.RateLimitHolds`).
- Amounts in yuan drop cents that are not multiples of ten, and negative amounts that are not whole
  yuan are written with a second sign or lose it (`Money.YuanRoundTrip`, `Money.FifteenCents`). All
  fines are positive multiples of ten.
- A due date that has left year 9999 cannot be read. It counts as 0001-01-01, and as text it is
  before most returns, so the loan is charged for up to 106751 days however early it comes back
  (`CirculationLateFees.ChargeIsDaysLateIff`, `CirculationLateFees.FinesArePerDayLate`,
  `CirculationLateFees.LoanOfTheLastDay`).
- A loan whose copy belongs to a book that is not in the catalogue is never told that it is due, and
  such a copy can be added and lent (`RemindersOverRuns.ToldIffBookIsCatalogued`,
  `RemindersOverRuns.LoanOfUncataloguedBook`).
- A patron may wait twice for one book, at one position, when two of the patron's calls overlap
  (`CirculationHolds.OverlappingCallsBothWait`); otherwise at most once
  (`CirculationHolds.AtMostOneWaits`).
- Migrations do not converge, and no start succeeds any more, exactly when favourites or ratings
  hold repeated rows before their unique index is made (`Migrations.ShippedMigrationsConverge`,
  `Migrations.RepeatedFavouriteStopsEveryStart`).
- The trend's text range loses dates exactly when the window reaches back before year -1
  (`Trend.TrendIsDailyCounts`, `Trend.TrendMissesALoan`).
- A seat checked in today is released by the expiry if it also has a check-in from an earlier day,
  because past rows keep the status `checked_in` (`Seats.SeatKeptIffNoPastCheckin`,
  `SeatMachine.ReleasedUnderTheReader`); without such an earlier check-in it is occupied in every run
  (`SeatMachine.OccupiedIffCheckedInToday`).
- The comment on the expiry says that it releases a seat when its slot ends. It does so only on a
  later day: it looks at the date alone (`Seats.SeatKeptIffNoPastCheckin`,
  `SeatMachine.KeptAfterTheSlot`).

## Model

The results come first. From `Money.Itoa` on, the rows are programs: they say that the statements of the
program, in the order of the source, compute the functions that the results are about.

| member | source | states |
|---|---|---|
| Calendar.NextDateIsNextDay | internal/service/service.go:458-465 | Day numbers count calendar days: the next date by month lengths and leap years has the next number |
| Calendar.EarlierIffSmallerDay | internal/service/service.go:458-472 | Comparing dates by year, month and day is comparing day numbers, both ways; equal numbers mean equal dates |
| Dates.DayRoundTrip | internal/service/service.go:458-465 | A formatted day parses back, to the same day, if and only if it lies in years 0000 to 9999 |
| Dates.TextRoundTrip | internal/store/store.go:245 | Every string that parses as a date is the formatting of its own day, so a day has one text |
| Dates.TextOrderIsDayOrder | internal/service/service.go:254 | Lexicographic order and equality of date strings are order and equality of days |
| Dates.AddDaysIsDayArithmetic | internal/service/service.go:458-465 | `addDays` reads back as adding to the day number, exactly while the result stays in years 0000 to 9999 |
| Dates.AddOneDayIsNextDate | internal/service/service.go:458-465 | Adding one day to a date string gives the text of the next calendar date |
| Dates.AddDaysComposes | internal/service/service.go:458-465 | Adding m days then n days is adding m+n days if and only if the date in between is in years 0000 to 9999 (or n is 0) |
| Dates.TwoPeriodsFromTheLastDate | internal/service/service.go:458-465 | From 9999-12-31 a second period of 14 days is lost: adding 14 twice is not adding 28 |
| Dates.DaysBetweenIsClamped | internal/service/service.go:467-472 | `daysBetween` is the difference of day numbers, clamped to 106751 days either way by the 64-bit duration; a string that is no date counts as 0001-01-01 |
| Dates.DaysBetweenUndoesAddDays | internal/service/service.go:458-472 | For every date and every n, `daysBetween(a, addDays(a,n)) == n` if and only if the new date is in years 0000 to 9999 and n within 106751 days |
| Dates.LongestDaysBetween | internal/service/service.go:467-472 | 106752 days after 0001-01-01 count as 106751 |
| Dates.OverdueIffPositiveDays | internal/store/ops.go:127-133 | The text test `due < checkin` holds exactly when the computed number of days is positive |
| Money.YuanRoundTrip | internal/service/service.go:474-482 | The yuan text of any amount reads back as the amount if and only if it is a multiple of ten cents and, when negative, of a yuan; a positive amount otherwise loses its odd cents and nothing else |
| Money.FifteenCents | internal/service/service.go:474-482 | Fifteen cents read back as ten, and minus 150 cents is written -1.-5, which is no amount |
| Library.FirstWaitingIsLeast | internal/store/ops.go:153 | The woken hold is the least waiting hold of the book by (position, id), and none is woken exactly when none waits |
| Library.NextPosIsFresh | internal/store/entities.go:407-412 | The next queue position is above every position the book ever had, whatever the hold's status, and one above the largest |
| CirculationCalls.BorrowSucceedsIff | internal/service/service.go:268-310 | A borrow succeeds if and only if the patron exists and is not disabled, the copy is available, and the open loans number fewer than ten for a VIP and five otherwise; it adds exactly that loan, for the copy's period or 14 days; each error is answered exactly when its condition is the first to fail, and changes nothing |
| CirculationCalls.ReturnWakesFirst | internal/store/ops.go:109-170 | A return succeeds if and only if the loan is active; it closes the loan and frees the copy; if anyone waits for the book, exactly one hold changes, the waiting one least by (position, id): it is fulfilled with the copy and its patron is reported; otherwise no hold changes and nobody is reported |
| CirculationCalls.ReturnCharges | internal/store/ops.go:125-140 | One unpaid fine for the borrower, about the loan, of the amount reported, is added exactly when the amount is positive |
| CirculationCalls.RenewSucceedsIff | internal/service/service.go:247-265 | A renewal succeeds if and only if the loan is active, renewed fewer than two times, not overdue, its copy exists, and nobody waits for the book; the successor starts on the old due date, renewed once more; each error is answered exactly when its condition is the first to fail |
| CirculationCalls.HoldAcceptedIff | internal/service/service.go:395-431 | A hold is accepted if and only if patron and book exist, no copy of the book is available and the patron does not wait for it yet; one waiting row is added, behind all positions the book ever had; each error is answered exactly when its condition is the first to fail |
| CirculationCalls.CancelSucceedsIff | internal/store/entities.go:485-494 | A cancellation succeeds if and only if the hold is the patron's own and waits, and then only its status changes |
| CirculationCalls.DeleteSucceedsIff | internal/store/admin.go:114-123 | A copy is deleted if and only if it is available, and then only its row goes |
| CirculationChecks.StepRefusesIff | internal/service/service.go:268-431 | In every state of every run the step of an unfinished call is refused if and only if the rows it looks at say so, for each check of each call; a refusal ends the call, releases the borrower's lock and changes nothing else |
| CirculationChecks.LentCallsPassedTheChecks | internal/service/service.go:268-310 | In every interleaving every borrow that succeeded saw, in order, its patron existing and not disabled, the copy available, open loans below the limit, and the copy still available in the step that made the loan |
| CirculationChecks.RenewedCallsPassedTheChecks | internal/service/service.go:344-370 | In every interleaving every renewal that succeeded saw, in order, the loan active, fewer than two renewals and a due date not past, nobody waiting for the book, and the loan still active in the step that replaced it |
| CirculationChecks.HoldCallsPassedTheChecks | internal/service/service.go:395-431 | In every interleaving every hold that was accepted saw, in order, its patron, the book, no available copy, no own waiting hold, and the next position; and then its row was added |
| CirculationInvariant.CallStable | internal/service/service.go:268-310 | Whatever a call has read and relies on survives any step of others that only grows the tables, if nobody else lends to a patron whose lock it holds |
| CirculationTables.BorrowKeepsTables | internal/store/ops.go:17-41 | A checkout below the limit keeps the whole table invariant, and changes no other patron's count |
| CirculationTables.RenewKeepsTables | internal/store/ops.go:67-95 | A renewal of an active loan from its own terms keeps the whole table invariant and every patron's count |
| CirculationTables.ReturnKeepsTables | internal/store/ops.go:109-170 | A return of an active loan keeps the whole table invariant |
| CirculationTables.WokenKeepsHolds | internal/store/ops.go:149-165 | Waking fulfils at most one hold and never passes over a waiting one of the same book with a smaller position |
| CirculationTables.HoldKeepsTables | internal/store/entities.go:407-419 | Inserting a hold at a position above all that existed when its call began keeps the whole table invariant |
| CirculationTables.CancelKeepsTables | internal/store/entities.go:485-494 | Cancelling a hold keeps the whole table invariant |
| CirculationTables.DeleteKeepsTables | internal/store/admin.go:114-123 | Deleting an available copy keeps the whole table invariant, whatever the caller had checked before |
| CirculationSafety.StepKeepsInvariant | internal/store/ops.go:17-170 | Every step of every call, and every administrative step, keeps the invariant of tables, calls in flight, locks and winners |
| CirculationSafety.RunKeepsInvariant | internal/store/ops.go:17-170 | The invariant holds after every interleaving of any number of calls |
| CirculationTheorems.FreshLibraryStarts | internal/store/store.go:81-212 | Any patrons, books, available copies, holds and old fines without loans satisfy the invariant, so the theorems about runs apply |
| CirculationTheorems.StatsBalance | internal/store/stats.go:76-96 | From the copy invariant, copies are available plus borrowed, and borrowed copies are as many as active loans |
| CirculationTheorems.CopiesMatchLoans | internal/store/ops.go:17-170 | In every state of every interleaving a copy is borrowed exactly when it has one active loan and available exactly when it has none, no active loan points at a missing copy, and the statistics balance |
| CirculationTheorems.BorrowLimit | internal/service/service.go:268-310 | Under every interleaving no patron has more than ten active loans, nor more than five if never VIP |
| CirculationHistory.RunIsLater | internal/store/ops.go:67-170 | Over every run loan rows are only added and a closed loan is never touched again |
| CirculationHistory.OneCloserPerLoan | internal/store/ops.go:67-170 | Of all the returns and renewals of one loan in a run exactly one succeeds once the loan is closed, and none while it is active |
| CirculationHistory.HoldsAreFirstComeFirstServed | internal/store/entities.go:407-419 | A hold that existed when another's call began has the smaller position on the same book, and the later one is never fulfilled while the earlier waits, with the position read and the insert as separate steps |
| CirculationHolds.AtMostOneWaits | internal/service/service.go:414-425 | In every run in which no two calls of a patron for a book overlap, the patron has at most one hold waiting for the book |
| CirculationHolds.OverlappingCallsBothWait | internal/store/entities.go:407-419 | A run in which two overlapping calls of one patron for one book both succeed, at the same queue position |
| CirculationChains.ChainTerms | internal/store/ops.go:67-95 | Along a renewal chain copy and patron stay the same and the renewal count is the number of links, at most two |
| CirculationChains.ChainsAreLinear | internal/store/ops.go:67-95 | Chains do not branch: first loan and number of renewals identify a loan |
| CirculationChains.ReturnEndsChain | internal/store/ops.go:109-143 | A loan closed by a return is the last of its chain |
| CirculationChains.DueAlongChain | internal/service/service.go:356-365 | The due date after k renewals, in and beyond the years 0000 to 9999, by induction along the chain |
| CirculationChains.RenewalsTileTime | internal/service/service.go:344-370 | In every run, whatever the clocks and loan periods, a loan renewed k times is due exactly k+1 loan periods after the first checkout of its chain if and only if its own checkout day is in years 0000 to 9999 |
| CirculationRenewals.NotOverdueIsDate | internal/service/service.go:254-256 | From a checkout on a date and a period of at most ten thousand years, a due date that today, a date from the year 2000 on, does not find overdue is itself a date |
| CirculationRenewals.ModernRenewalsTileTime | internal/service/service.go:344-370 | In every run whose clocks show dates from the year 2000 on and whose loan periods are at most ten thousand years, every loan renewed k times is due exactly k+1 loan periods after the first checkout of its chain |
| CirculationRenewals.FreshLibraryIsModern | internal/store/store.go:81-212 | A library without loans whose periods are at most ten thousand years is a start state for the row before |
| CirculationRenewals.RenewalWithoutMoreTime | internal/service/service.go:364-365 | A run in which a loan of 2024 is due in the year 20250, is renewed at once, and stays due on the same day |
| CirculationChains.ChainsOverRuns | internal/store/ops.go:67-95 | In every run a loan is renewed at most once, chains have at most two renewals, and a successor starts on the date its predecessor was due and closed, with the same copy and patron |
| CirculationFines.ChargeIsPerDayLate | internal/store/ops.go:127-140 | The charge is ten cents for each calendar day late and zero on time, up to 106751 days |
| CirculationFines.StepBalances | internal/store/ops.go:109-170 | Every step keeps the balance of a patron's unpaid total against the charges of that patron's returned loans |
| CirculationFines.FinesAreConserved | internal/store/entities.go:398-402 | Over every run the unpaid total grows by exactly the charges of the patron's loans closed by returns |
| CirculationFines.OneFinePerChain | internal/store/ops.go:127-147 | A fine belongs to the last loan of its chain, is that loan's charge and a multiple of ten cents, and no other fine belongs to the same chain |
| CirculationLateFees.ChargeIsDaysLateIff | internal/store/ops.go:127-140 | A charge is never less than ten cents for each calendar day late, and is exactly that if and only if the due date is a date, or its text is not before the return, or the return is not after 0001-01-01 |
| CirculationLateFees.DueIsDateIff | internal/service/service.go:356-365 | In every run whose clocks show dates, a due date is a date if and only if k+1 periods after the first checkout of the chain lie in years 0000 to 9999 |
| CirculationLateFees.FinesArePerDayLate | internal/store/entities.go:398-402 | Over every run whose clocks show dates the unpaid total grows by at least ten cents for each day late, and by exactly that if and only if every returned loan's due date could be read |
| CirculationLateFees.LoanOfTheLastDay | internal/store/ops.go:127-140 | A run in which a copy is lent for 14 days and returned on 9999-12-31, and the fine is for 106751 days |
| Seats.InsertKeepsExclusive | internal/store/seats.go:125-155 | The conditional insert keeps at most one live reservation per seat, date and slot and per patron and date |
| Seats.SwapKeepsExclusive | internal/store/seats.go:202-209 | A status change from active keeps exclusivity, and no row that has left active changes |
| Seats.AvailableIffReservable | internal/store/seats.go:94-155 | For a patron with nothing that day, a seat is listed as available exactly when the insert takes it |
| Seats.ErrorNamesClause | internal/store/seats.go:146-153 | The reported error names the clause that failed, the seat clause first, and success is the insertion |
| Seats.ExpiryClearsThePast | internal/store/seats.go:234-267 | After expiry no active reservation is in the past and rows of today and later are untouched |
| Seats.ExpiryIsIdempotent | internal/store/seats.go:234-276 | A second expiry on the same day changes nothing and returns 0 |
| Seats.SeatKeptIffNoPastCheckin | internal/store/seats.go:251-274 | An occupied seat stays occupied through an expiry exactly when none of its check-ins is in the past, whatever is checked in today |
| Seats.StaleIdsAreStale | internal/store/seats.go:241-252 | The collected ids are the past active rows, each once |
| Seats.StaleSeatsAreReleased | internal/store/seats.go:241-255 | The collected seats are those with a past check-in |
| SeatChecks.SlotHours | internal/service/seats.go:21-25 | At any time of day the morning slot is open from 8 to 12, the afternoon slot from 13 to 17 and the evening slot from 18 to 22, and has ended from then on; there are no other slots |
| SeatChecks.ReserveSucceedsIff | internal/service/seats.go:138-167 | A reservation succeeds if and only if its slot exists and has not ended today, the date is not past, the seat exists, nobody holds the seat for the slot and the patron holds none that day; it adds one active row; each error is answered exactly when its condition is the first to fail |
| SeatChecks.CheckinSucceedsIff | internal/service/seats.go:192-223 | A check-in succeeds if and only if the reservation is the patron's own, active, for today, and its slot is open; each error is answered exactly when its condition is the first to fail |
| SeatChecks.ReservationsWereAllowed | internal/store/seats.go:125-155 | Under every interleaving every new row was added by a call that saw an open slot, a date not past and an existing seat, in a step that found the seat free for the slot and the patron free that day |
| SeatChecks.CheckinsWereAllowed | internal/service/seats.go:192-223 | Under every interleaving a row is checked in only by a call of its own patron that saw it active, dated today, with its slot open, and only while it is active |
| SeatChecks.CancelsWereOwn | internal/service/seats.go:170-189 | Under every interleaving a row is cancelled only by a call of its own patron, and only while it is active |
| SeatMachine.SeatsStayExclusive | internal/store/seats.go:122-276 | Under every interleaving of reserve, cancel, check-in and expiry, statement by statement: exclusivity holds, rows keep their terms, and a reservation leaves active at most once |
| SeatMachine.FreshDeskStarts | internal/store/seats.go:226-276 | A desk without check-ins and occupied seats is a start state for the next row |
| SeatMachine.OccupiedSeatsAreCheckedInToday | internal/store/seats.go:226-276 | With whole calls and a date that never goes back, an occupied seat has a check-in between the last expiry and today; right after an expiry, one of today |
| SeatMachine.OccupiedIffCheckedInToday | internal/store/seats.go:226-276 | In every run a seat without check-ins on earlier days is occupied exactly when somebody is checked in there today |
| SeatMachine.ReleasedUnderTheReader | internal/store/seats.go:251-274 | A run from a free seat: the reader checks in on one morning and on the next, and an expiry during the second visit frees the seat |
| SeatMachine.KeptAfterTheSlot | internal/store/seats.go:217-233 | A run in which the slot has ended, so that it can no longer be reserved, and the expiry of that day keeps the seat occupied |
| Sessions.LazyRefinesEager | internal/auth/memory_session.go:32-44 | Over every run in time order, deleting expired entries when they are read answers exactly as deleting them before every operation |
| Sessions.RateLimitHolds | internal/auth/auth.go:145-155 | In every run any time interval no longer than the window contains at most max accepted checks of a key, although each acceptance renews the expiry |
| Sessions.RateRefusedExactlyWhenBlocked | internal/auth/auth.go:147-155 | In every run a check is refused if and only if max is 0, or the last max acceptances follow each other within the window and the last of them is within the window of now |
| Sessions.DiffersFromSlidingWindow | internal/auth/auth.go:145-155 | In every run a check that a sliding window refuses is refused, and the answers differ if and only if the last max acceptances block the check although the earliest of them has left the window |
| Sessions.SteadyCallerIsRefused | internal/auth/auth.go:145-155 | With two checks allowed in ten, acceptances at 0 and 8 and a check at 12: refused, with one acceptance in the window |
| Sessions.LoginRefusedExactlyWhenLocked | internal/auth/auth.go:114-119 | In every run a login is refused exactly when the streak of failures has five and the fifth is at most 15 minutes old; the counter never exceeds five |
| Sessions.LockHolds | internal/auth/auth.go:116-119 | While the lock lasts no event changes the streak, so refusals do not extend it |
| Sessions.FailuresBuildTheStreak | internal/auth/auth.go:139-143 | Up to five failures, each within 15 minutes of the one before and among any other events without a success, are the streak |
| Sessions.FiveFailuresLockOut | internal/auth/auth.go:113-143 | After five such failures every login is refused exactly until 15 minutes after the fifth, however often it is tried meanwhile |
| LoginSessions.LoginAnswers | internal/auth/auth.go:113-137 | In every run a login is welcomed if and only if the credentials are right and the user is not locked out, told of bad credentials if and only if they are wrong and the user is not locked out, and refused otherwise |
| LoginSessions.LoginChanges | internal/auth/auth.go:113-143 | Unless a login is welcomed, readers of every key but the failure counter find what they found before; bad credentials raise the counter by one; a welcome clears it and touches only the token besides |
| LoginSessions.WelcomeOpensSession | internal/auth/auth.go:129-136 | After a welcome the token stands for the user exactly until its time to live is over, whatever else happens that does not write or delete it |
| LoginSessions.SessionLivesUntil | internal/auth/auth.go:113-137 | In every run right credentials of a user who is not locked out open such a session |
| Migrations.RunKeeps | internal/store/migrate.go:71-111 | Any run, stopped anywhere, keeps structures and records consistent |
| Migrations.CompleteRun | internal/store/migrate.go:79-104 | From any consistent database a run that is not stopped finishes, with every applicable version recorded, if no applicable unique index is over repeated rows |
| Migrations.RefusedRun | internal/store/migrate.go:91-100 | A run that comes to a unique index over repeated rows never finishes, and fails if it is not stopped |
| Migrations.CrashesConverge | internal/store/migrate.go:71-111 | After any runs stopped at any points, the next complete run finishes if and only if no applicable unique index is over repeated rows; it then ends with every applicable structure present once and exactly the applicable versions recorded, each once, and a further run executes nothing; otherwise it fails and no later run finishes |
| Migrations.ListHasTablesFirst | internal/store/migrate.go:11-60 | In the shipped list every table a migration needs is a base table or made earlier on both drivers |
| Migrations.ListIncreases | internal/store/migrate.go:11-60 | The shipped versions increase, so none is applied under another's record |
| Migrations.ShippedMigrationsConverge | internal/store/migrate.go:11-60 | On both drivers, from any schema that has the base tables and after any crashes, the shipped list converges if and only if neither favourites nor ratings hold repeated rows; otherwise every start fails |
| Migrations.RepeatedFavouriteStopsEveryStart | internal/store/migrate.go:55 | A book saved twice before its unique index was made: the start fails and so does the next |
| ToolCalls.Assemble | internal/agent/llm.go:206-280 | Returns one call per index in order of first appearance, spelled by that index's fragments, and the concatenation of all reported deltas |
| ToolCalls.FirstSeenInOrder | internal/agent/llm.go:256-262 | The order of the indices is the order of the positions where each appears first |
| ToolCalls.ReassemblyUndoesFragmentation | internal/agent/llm.go:255-279 | For every way of cutting calls into fragments and every interleaving across indices, the indices come once each in order of their first fragments and every call is rebuilt with its full arguments |
| Text.Words | internal/service/recommend.go:19-23 | No word is empty or holds white space |
| Text.WordsSplitText | internal/service/recommend.go:19-23 | The text is its words with nothing but white space around them, and some of it between every two neighbours |
| Text.Dedup | internal/service/recommend.go:233-243 | The same elements, without repeats |
| Text.TextTokensAre | internal/rag/index.go:106-132 | Tokens never repeat, and are exactly the words and the single characters that are neither white space nor lower-case ASCII letters or digits, of the text with marks replaced and then lowered by any character mapping, at most 40 bytes long |
| StableSort.SortedIsStableSort | internal/service/recommend.go:188 | Sorting permutes into order and keeps the order of ties |
| Recommend.SimilarReaders | internal/service/recommend.go:82-108 | In any order of readers, a book scores the sum over other readers of it of twenty times their Jaccard similarity, rounded down and dropped below one twentieth |
| Recommend.SharedReaders | internal/service/recommend.go:110-134 | In any order of readers, a book scores the number of other readers who share a book with me and read it |
| Recommend.SumSetRemove | internal/service/recommend.go:82-108 | A sum over a set may take out any element first: it does not depend on the order |
| Recommend.ScoredIffReason | internal/service/recommend.go:153-186 | A book scores positively exactly when there is a reason for it |
| Recommend.CandidatesAreNew | internal/service/recommend.go:147-187 | Candidates do not repeat, are not read yet, score positively and have a reason |
| Recommend.CandidatesAre | internal/service/recommend.go:147-187 | The candidates are exactly the unread books with a positive score, with their score, free copies and reasons |
| Recommend.CandidatesInOrder | internal/service/recommend.go:147-187 | Candidates come in catalogue order |
| Recommend.RankingDescends | internal/service/recommend.go:188 | The ranking holds the candidates from the highest score down, those of equal score in catalogue order |
| Recommend.CutLeavesTheBest | internal/service/recommend.go:188-229 | A candidate is left out only when the limit is reached, and scores no more than any book returned |
| Recommend.WorkedScore | internal/service/recommend.go:54-183 | A book worked by hand: 29 points and its five reasons |
| Recommend.FillingKeeps | internal/service/recommend.go:190-225 | Filling keeps the ranking as a prefix, adds no repeats and nothing read, stays within the limit, and falls short only when every popular book is read or listed |
| Recommend.FillingIsHot | internal/service/recommend.go:190-225 | Everything that filling adds after the ranking is one of the popular books |
| Recommend.FillingInOrder | internal/service/recommend.go:190-225 | What filling adds keeps the order of the popular books |
| Recommend.FillingSkipsNone | internal/service/recommend.go:195-210 | A popular book is added only after those before it have been added, listed or read |
| Recommend.RecommendationIsSound | internal/service/recommend.go:41-231 | At most `limit` books (5 if not positive, never more than 20), none repeated, none read; the scored part is the top of all positively scored unread books by descending score with equal scores in catalogue order, no candidate left out scores more than one returned, and when candidates run out the rest are popular books, short only when every popular book is read or listed |
| Rag.Index.constructor | internal/rag/index.go:31-45 | For any lower-case mapping, building the nested postings map leaves every token posted, once, at exactly the documents that hold it |
| Rag.Index.Search | internal/rag/index.go:51-92 | At most topK (3 if not positive) documents, each sharing a token and with the brute-force score, distinct, in descending order; a sharing document is left out only when topK are returned and none scores less than it |
| Rag.PointsAreShared | internal/rag/index.go:56-82 | Each query token shares out one point equally among the documents that hold it, and a document scores its points divided by its number of distinct tokens |
| Trend.LoanTrendRange | internal/store/aggregate.go:171-212 | The two grouped passes give, for every date, the counts if the date is in the text range and zeros otherwise |
| Trend.DayCountsLoans | internal/store/aggregate.go:171-212 | A day's point is the number of loans that went out and the number that came back that day |
| Trend.TrendDates | internal/store/tasks.go:103-114 | The trend has exactly `days` dates, each one day after the one before, the last one today |
| Trend.WindowInRange | internal/store/aggregate.go:171-174 | No date of a window that starts in year -1 or later is dropped by the text range |
| Trend.TrendIsDailyCounts | internal/store/tasks.go:102-116 | The trend is the direct per-day count for every loan table if and only if the window starts in year -1 or later |
| Trend.TrendMissesALoan | internal/store/tasks.go:102-116 | A window of 367 days ending 0000-01-01 shows no checkout on the last day of year -1 although one loan was made |
| Reminders.DueLoansAre | internal/store/tasks.go:22-42 | The query has an answer: exactly the active loans due today or before, of existing copies and books, each once, by due date, marked overdue when past |
| Reminders.RemindTells | internal/service/tasks.go:37-58 | A scan adds one notice for each due loan not yet told of its kind, and changes no other count |
| Reminders.SentToBorrowers | internal/service/tasks.go:30-58 | A scan only adds notices, and each of them goes to the borrower of an active loan, due today or past due as its kind says, of a catalogued copy |
| Reminders.ScanTellsEveryDueLoan | internal/service/tasks.go:30-58 | After a scan, whatever the order of equal due dates, every loan that the query lists, of an existing copy and book, has exactly one notice of the right kind: due if due today, overdue if before; if there was none, the new one goes to the borrower |
| Reminders.ScanTellsOnlyDueLoans | internal/service/tasks.go:30-58 | A scan adds nothing about a loan that is not due |
| Reminders.RescanAddsNothing | internal/service/tasks.go:44-47 | Scanning again the same day adds nothing, even in another order |
| Reminders.ToldAtMostOnce | internal/service/tasks.go:30-58 | Over any run of scans and other notices a loan is told at most once that it is due and at most once that it is overdue |
| RemindersOverRuns.ToldIffBookIsCatalogued | internal/store/tasks.go:22-42 | In every state of every run of the circulation service, an active loan due by today has exactly one notice of the right kind after a scan if and only if the book of its copy is catalogued or the notice was there before; a new one goes to the borrower; the copy always exists |
| RemindersOverRuns.LoanOfUncataloguedBook | internal/store/tasks.go:24-28 | A run in which a copy of an uncatalogued book is added and lent, and the scan on its due date tells nothing |
| RemindersOverRuns.NoticesReachBorrowers | internal/service/tasks.go:44-56 | However the steps of the service, scans of its tables and other notices interleave, every notice about a loan is addressed to its borrower |
| Gate.LegalIffAlternating | internal/service/gate.go:41-49 | Every row was allowed when written exactly when every patron's rows go in, out, in, out, starting with in |
| Gate.RunKeepsLegal | internal/service/gate.go:28-66 | Every run of scans, with patrons coming and going, keeps this |
| Gate.ScanPassesIff | internal/service/gate.go:28-66 | A scan passes if and only if the patron is known and goes in from outside or out from inside; it adds one row, and this patron and nobody else changes sides; each error is answered exactly when its condition holds, and changes nothing |
| Gate.WayIsOpenByTurns | internal/service/gate.go:41-49 | From an empty log, in every run, a known patron can go in exactly after an even number of passes and out exactly after an odd one |
| Gate.WarnedIff | internal/service/gate.go:69-89 | Of unpaid fines exactly when their sum is positive, of overdue loans exactly when an active one was due before today, of fines first |
| Gate.PatronsAlternate | internal/service/gate.go:41-49 | From an empty log every patron's rows alternate in every run |
| Gate.InsideIsInsMinusOuts | internal/store/gate.go:45-54 | The number of patrons inside is all entries minus all exits |
| Gate.SplitAtDay | internal/store/gate.go:85-91 | When time stamps do not go back, the rows of the day being read follow all rows of earlier days |
| Gate.DayIsChangeInOccupancy | internal/store/gate.go:85-99 | In every run whose clock does not go back, the entries minus the exits of the day being read are the change in occupancy since the rows of earlier days |
| Money.Itoa | internal/service/recommend.go:245-262 | Prepending digits in a loop gives the decimal text of the integer, sign included |
| LibraryService.LibraryStore.CheckoutTx | internal/store/ops.go:17-41 | Inserting the loan and conditionally taking the copy, or rolling back, is the atomic step `Checkout` |
| LibraryService.LibraryStore.RenewCheckoutTx | internal/store/ops.go:67-95 | Closing the old loan only while active and opening its successor is the atomic step `RenewCheckout` |
| LibraryService.LibraryStore.FindFirstWaiting | internal/store/ops.go:153 | The scan of the holds finds the hold that `FirstWaiting` specifies |
| LibraryService.LibraryStore.ReturnLoanTx | internal/store/ops.go:109-170 | Charging, closing, releasing and waking, row by row, is the atomic step `ReturnTx`, its report included |
| LibraryService.LibraryStore.DeleteItemSafe | internal/store/admin.go:114-123 | A copy is deleted only while available; otherwise nothing changes and the error says so |
| LibraryService.LibraryStore.ReadNextPos | internal/store/entities.go:407-411 | The scan of all the book's holds computes the next position |
| LibraryService.LibraryStore.CreateHold | internal/store/entities.go:407-419 | Adds one waiting hold at the next position and changes nothing else |
| LibraryService.LibraryStore.CancelHoldById | internal/store/entities.go:485-494 | Only the patron's own waiting hold becomes cancelled; any other request changes nothing and is refused |
| LibraryService.LibraryStore.CountActiveLoans | internal/store/entities.go:319-322 | The scan counts the patron's active loans |
| LibraryService.LibraryStore.Borrow | internal/service/service.go:268-310 | Every check in order with its error, the doubled VIP limit, the default loan period, and the checkout: the whole new state and result |
| LibraryService.LibraryStore.Return | internal/service/service.go:321-341 | The whole new state and report of a return at ten cents a day |
| LibraryService.LibraryStore.Renew | internal/service/service.go:344-370 | Every check in order with its error, and the successor loan that starts on the old due date: the whole new state and result |
| LibraryService.LibraryStore.PlaceHold | internal/service/service.go:395-431 | Every check in order with its error, and the new hold: the whole new state and result |
| LibraryService.BorrowAlone | internal/service/service.go:268-310 | The interleaved `Borrow`, run alone step by step, has the effect and result of the method, and releases the patron's lock |
| LibraryService.RenewAlone | internal/service/service.go:344-370 | The interleaved `Renew`, run alone step by step, has the effect and result of the method |
| LibraryService.PlaceHoldAlone | internal/service/service.go:395-431 | The interleaved `PlaceHold`, run alone step by step, has the effect and result of the method |
| Seats.SeatDesk.CreateReservation | internal/store/seats.go:125-155 | One conditional insert: taken only if neither the seat and slot nor the patron's day is taken, and the error of the clause that failed |
| Seats.SeatDesk.Swap | internal/store/seats.go:202-209 | The status changes only from the expected one, and the answer says whether it did |
| Seats.SeatDesk.ReserveSeat | internal/service/seats.go:138-167 | Every check in order with its error, and the insert: the whole new state and result |
| Seats.SeatDesk.Cancel | internal/service/seats.go:170-189 | The first check that fails gives the error, in order; otherwise the reservation becomes cancelled, and nothing else changes |
| Seats.SeatDesk.Checkin | internal/service/seats.go:192-223 | The first check that fails gives the error, in order; otherwise the reservation is checked in and its seat occupied, and nothing else changes |
| Seats.SeatDesk.CollectStale | internal/store/seats.go:234-259 | The scan collects exactly the past active rows and the seats of past check-ins |
| Seats.SeatDesk.ExpireRows | internal/store/seats.go:260-267 | Updating the collected ids one by one expires every past active row and no other, and counts them |
| Seats.SeatDesk.ReleaseSeats | internal/store/seats.go:268-274 | Updating the collected seats one by one, repeats included, frees each occupied one once and counts it once |
| Seats.SeatDesk.ExpireStale | internal/store/seats.go:234-276 | The whole expiry: every past active row expired, every seat with a past check-in released, and their number returned |
| Sessions.SessionManager.GetEntry | internal/auth/memory_session.go:32-44 | Answers the live value, or deletes the expired entry and answers nothing |
| Sessions.SessionManager.Check | internal/auth/auth.go:147-155 | Accepts while fewer than max are counted, counting one more with a renewed expiry; otherwise refuses |
| Sessions.SessionManager.RecordFail | internal/auth/auth.go:140-143 | One more failure with a fresh 15-minute expiry |
| Sessions.SessionManager.LogIn | internal/auth/auth.go:114-137 | Refusal when locked, a recorded failure on wrong credentials, and on success a cleared counter and a new session: the whole new store and result |
| Migrations.RunMigrations | internal/store/migrate.go:71-106 | The loop, stopped after any number of statements, is the recursive runner |
| ToolCalls.AddFragment | internal/agent/llm.go:255-270 | One fragment: the accumulator made on first sight, id and name overwritten when given, arguments appended |
| ToolCalls.AddFragments | internal/agent/llm.go:255-270 | A chunk's fragments take the accumulated calls of what was read before to those of what is read now |
| ToolCalls.ReadLine | internal/agent/llm.go:211-271 | One line adds its content to text and reports and its fragments to the calls, and noise adds nothing |
| ToolCalls.ReadStream | internal/agent/llm.go:211-271 | Reading stops at the end mark and has accumulated exactly the lines before it |
| Text.DedupStrings | internal/service/recommend.go:233-243 | The loop with a set of seen elements is `Dedup` |
| Text.Tokenize | internal/rag/index.go:106-132 | The pass over the words and the pass over the characters give these tokens, in order |
| Recommend.BuildInterest | internal/service/recommend.go:54-69 | The interest map is, for every keyword, the books on it plus the books by it plus three if the taste names it |
| Recommend.GroupByPatron | internal/service/recommend.go:74-81 | Every reader is mapped to exactly the set of books read |
| Recommend.Overlap | internal/service/recommend.go:88-95 | Counting in any order gives the sizes of intersection and union |
| Recommend.AddToOthers | internal/service/recommend.go:103-107 | In any order, every book of the set that is not mine gains the amount once, and no other |
| Recommend.SharesAny | internal/service/recommend.go:119-125 | Stops early, and says whether the two sets meet |
| Recommend.ScoreTokens | internal/service/recommend.go:155-161 | The guarded loop sums the weights of the wanted keywords and lists them in order |
| Recommend.ScoreBook | internal/service/recommend.go:153-183 | The guarded additions give the score formula: keyword weights, twice the author's, twice the similarity, the shared readers, two if a copy is free; and the reasons, one for each part that counts, without repeats |
| Recommend.FillUp | internal/service/recommend.go:190-225 | The loop over popular books with its skips and its early stop is `Filled` |
| Recommend.RecommendForPatron | internal/service/recommend.go:41-231 | The whole computation is the recommendation formula |
| Rag.Index.TokenTotal | internal/rag/index.go:95-103 | Counting the postings that name a document gives its number of distinct tokens |
| Rag.AddPostings | internal/rag/index.go:61-64 | In any order, each holder of a token gains one over its document frequency |
| Rag.Index.Accumulate | internal/rag/index.go:59-65 | The scores map holds exactly the documents sharing a token with the query, each with the sum over shared tokens |
| Rag.Index.Normalize | internal/rag/index.go:74-82 | The hits are exactly these documents, each once, with the sum divided by the number of distinct tokens |
| Trend.LoanTrend | internal/store/tasks.go:102-116 | The loop reads the map back day by day |
| Reminders.ReminderTask.Exists | internal/store/tasks.go:45-49 | Counts whether a notice of this kind about this loan exists |
| Reminders.DueLoans | internal/store/tasks.go:22-42 | Answers with such a listing, equal due dates in any order |
| Reminders.ReminderTask.CheckDueLoansNow | internal/service/tasks.go:30-58 | The loop with its duplicate check is the scan `Remind` of some listing of the due loans |
| Gate.GateDesk.LastGateDirection | internal/store/gate.go:32-42 | The newest row of the patron decides; no row gives the empty direction |
| Gate.NewestRows | internal/store/gate.go:47-51 | Grouping keeps each patron's newest row |
| Gate.GateDesk.InLibraryCount | internal/store/gate.go:45-54 | Joining each patron's newest row and counting those that say `in` counts the patrons inside |
| Gate.GateDesk.GateWarnings | internal/service/gate.go:69-89 | Unpaid fines are warned of when their sum is positive, and overdue loans when one is due before today, in this order |
| Gate.GateDesk.GateScan | internal/service/gate.go:28-66 | Every check in order with its error, the default gate, the appended row, the count after it, and the warnings on entering: the whole new log and result |
| Gate.GateDesk.GateStatsToday | internal/store/gate.go:85-99 | The day's entries and exits by date prefix, and the patrons inside |

## Left out

- MySQL deployment: `ReturnTx` closes the loan without a status guard (`internal/store/ops.go:143`), so its atomicity rests on the single SQLite connection, which the model assumes.
- Book deletion by administrators: its checks are outside the deleting transaction (`internal/service/admin.go:121-133`); books are only added in the model.
- Raw helpers that bypass the rules (`Checkin`, `FulfillHoldTx`, `CloseLoan`, `CreateLoan`, `UpdateItemStatus`, `CreateFine`) and all seeding: runs start from any state that satisfies the invariant.
- Failing statements: a statement succeeds unless its guard fails; a migration fails only when the structure it needs is missing or a unique index is over repeated rows, and no rows are added or removed between the runs.
- A fulfilled hold does not reserve the copy, because `Borrow` does not look at holds; nothing is claimed about who gets the copy.
- Two holds whose calls overlap may get the same position; only non-overlapping calls are ordered.
- Paying fines: no operation of the service does it, so `paid` never changes in a run.
- Machine integers: ids, counters and amounts are unbounded; only durations have their 64-bit range.
- Seats.ErrorNamesClause: whole calls only, because the statement that chooses the error runs after the insert (`internal/store/seats.go:148`) and other calls may come between.
- Seats.SeatDesk.ExpireStale: reads the date once, where the source reads the clock for every row.
- SeatMachine.OccupiedSeatsAreCheckedInToday: whole calls only, because a check-in marks its row and its seat in two statements.
- Sessions.RateLimitHolds: whole calls only, because the counter is read and written in two unguarded operations; all checks of a key are assumed to use one limit and window, as the callers do.
- Sessions.RateRefusedExactlyWhenBlocked: whole calls only, as for the bound.
- Sessions.LoginRefusedExactlyWhenLocked: whole calls only, for the same reason; the clock of a run does not go back, and other uses of the store do not touch the failure key.
- LoginSessions.LoginAnswers: whole calls only, as above; the token is whatever the random generator gives, and nothing is assumed about it.
- Recommend.RecommendForPatron: similarity is an exact fraction where the source uses floating point; the catalogue, the reading records, the copy counts and the popular list, with its entries complete, are inputs.
- Rag.Index.Search: scores are exact fractions where the source uses floating point; ties are in the order of the map iteration, so nothing is said about them.
- Text.Tokenize: texts are sequences of characters, and lower case is any mapping of characters to characters; invalid byte sequences are not modelled.
- Reminders.ReminderTask.CheckDueLoansNow: whole scans as steps, inserts succeeding; titles and texts of notices are not modelled.
- Gate.GateDesk.GateScan: whole calls as steps, because the check of the last direction and the insert are separate.
- Trend.LoanTrend: the number of days is not negative; the source's slice allocation stops the program otherwise.
- Popular-book and other report queries, favourites, ratings, conversations, location mapping, pagination: simple reads and upserts that would add only easy members.
- HTTP handlers, event streams, Redis, password hashing, model requests and retries, mock replies, prompts, configuration, metrics, logs, scripts, the web interface and the evaluation harness.

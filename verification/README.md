# Civic hub: proofs

Models of the parts of the civic hub whose correctness rests on more than one body, with proofs about every input and
every run: the analytics rollup and report, the Events package, the Briefs package, and announcements.

`dafny verify dfyconfig.toml` checks everything. One module per component; a class where the code changes rows or a
loaded record in place, and beside it a function that says what each step does, about which the theorems are proved.
Days are integers, instants are milliseconds, text is a sequence of Unicode characters, and UTF-8 is a sequence of octets.

- **Analytics** (`Calendar`, `IsoDate`, `EventLog`, `Rollup`, `RollupRuns`, `Plan`, `ReportData`, `Report`, `ReportRuns`,
  `Csv`). An append-only log, two derived tables a job brings up to date by re-reading little of it, and the report that
  reads them or counts live.
- **Events** (`Utf8`, `IcsFold`, `EventData`, `Ics`, `Duration`, `EventMachine`, `EventRuns`, `EventActions`, `EventHub`,
  `EventDraft`, `EventForms`).
  The process, its calendar row, its attendance and its records as one state machine with a queue of after-commit work;
  the calendar feed; durations; the round trip through an edit draft.
- **Briefs** (`KeepFirst`, `Recipients`, `Pictures`, `BriefApproval`, `BriefRuns`, `Anchors`). Review and publication with
  callbacks that may throw, the mailing list and its public receipt, and the rule that decides which official response
  gets a card in the feed.
- **Announcements** (`Announcement`). Edits and moderation against their own events.
- `Json`: what a jsonb column hands back. `Wrappers`, `Text`: results, decimal numbers, string order, trimming, UTF-16 length.

## What turned out not to hold

Each is stated with its exact condition, for all inputs, and with an input at which it fails.

- The daily table's window starts the day before the last stored day: an event logged late, dated before that, is missed,
  and when the last stored day is 2000-01-01 the window reaches a day too far (`RollupRuns.DailyExactIff`,
  `RollupRuns.LateEventIsMissed`, `RollupRuns.DayBeforeBeginningIsStored`).
- A job that does not run during a whole calendar week leaves weeks half counted until a full run (`RollupRuns.GapIff`,
  `RollupRuns.SkippedWeekStaysHalfCounted`). Running once every week is enough for months and quarters too.
- A period's vanished measures are found by one read of at most 500 rows, made after the new ones are written: counts each
  within 500 may together exceed it (`Rollup.ReadClearsIff`, `Rollup.TwoCountsMayStay`).
- The "all" report asked for a day gone by counts events to that day and residents to today
  (`ReportRuns.AllAtAPastDayIff`, `ReportRuns.AllAtAPastDayDiffers`).
- An event that starts in the last minute of a day is offered an end equal to its start, which its own times check then
  refuses (`Duration.DefaultEndIsLater`, `Duration.LastMinuteEndsAtStart`).
- In production an action run from a status its table does not declare is reported and goes through. A cancelled event can
  be published again, a past one cancelled, and an archived one left active off the calendar
  (`EventRuns.RunsSoundIff`, `EventRuns.OverIsAbsorbingIff`, `EventRuns.StepAgreesIff`, `EventRuns.PublishRevivesCancelled`,
  `EventRuns.CancelRewritesPast`, `EventRuns.PublishLeavesArchivedRow`). Where the refusal is enforced none of this happens
  (`EventRuns.TableKeepsOver`, `EventRuns.DeclaredIsOrderly`).
- Going and not going write attendance before the action lands, so a refused or aborted one leaves an attendance without a
  record, or a record's account gone (`EventRuns.StepRecordsIff`, `EventRuns.RefusedButGoing`).
- An edit writes its calendar row at once, and a row still queued by an earlier action overwrites it
  (`EventRuns.EditOvertakesIff`, `EventRuns.QueuedRowOvertakesEdit`); an edit that throws between its two writes leaves the
  row behind (`EventRuns.StepAgreesIff`).
- A hook that throws drops its row: a first publication is then live and on no calendar (`EventRuns.StepAgreesIff`,
  `EventRuns.LostRowLeavesNone`).
- Saving an event untouched keeps the event and is still an edit: the database hands a location and a picture back with
  their keys in another order, so their text differs, an update goes out, those going are told of a new place, and an edit
  is recorded (`EventRuns.SavesIff`, `EventForms.UntouchedSaveIsAnEdit`, `EventForms.HallAndLink`). An announcement's links
  sent again count as an edit in the same way (`Announcement.CountsAsNoneIff`, `Announcement.ResentLinksAreAnEdit`).
- A failed lookup of the last anchor anchors again, however soon (`Anchors.AllApartIff`, `Anchors.FailedLookupAnchorsAgain`).
- An approval that throws after a step leaves the brief pending with that step's effect already out; every later attempt
  that gets so far repeats it (`BriefRuns.EffectsOfARun`, `BriefRuns.FailedSaveAnnouncesTwice`).
- A synced announcement without a body cannot be edited in any field until it is given a body, because the edit checks
  content without the allowance its creation had (`Announcement.EditNeedsBodyIff`, `Announcement.SyncedTitleCannotBeCorrected`).
- A removal or restoration whose event went out and whose save failed leaves the events telling another story than the
  record, for good (`Announcement.EventsTellIff`, `Announcement.LostRemovalIsTold`).

## Model

| member | source | states |
|---|---|---|
| `Calendar.CivilRoundTrip` | features/analytics/periods.ts:26-33 | Day number to year, month, date and back is the identity, and the other way for every real date, leap years included |
| `Calendar.MonthLengths` | features/analytics/periods.ts:26-33 | Every month of every year has its Gregorian number of days, February 29 in the years it should |
| `Calendar.KnownDays` | features/analytics/periods.ts:26-33 | Day 0 is Thursday 1 January 1970, and 1 January 2000 is Saturday, day 10957 |
| `Calendar.PeriodHoldsItsDays` | features/analytics/periods.ts:40-60 | A period contains its day, and a day is inside it exactly when it yields the same period |
| `Calendar.WeekShape` | features/analytics/periods.ts:40-60 | Weeks run Monday to Sunday |
| `Calendar.MonthShape` | features/analytics/periods.ts:40-60 | Months run from day 1 to the day before the next month's day 1 |
| `Calendar.QuarterShape` | features/analytics/periods.ts:40-60 | Quarters start in January, April, July, October, three months apart |
| `Calendar.PreviousEndsTheDayBefore` | features/analytics/periods.ts:62-66 | The previous period ends the day before this one starts, and previous and next undo each other |
| `Calendar.PeriodsBetween` | features/analytics/periods.ts:68-74 | The loop terminates and lists the periods from the launch day's to today's |
| `Calendar.PeriodsTile` | features/analytics/periods.ts:68-74 | Those periods are contiguous, the first holds the launch day, the last today, and every day between is in exactly one |
| `IsoDate.IsoRoundTrip` | features/analytics/periods.ts:26-27 | A printed YYYY-MM-DD reads back as its day |
| `IsoDate.IsoOrder` | features/analytics/periods.ts:68-74 | For years 0 to 9999 string order is day order and equal strings are equal days |
| `EventLog.CountRows` | supabase/migrations/20261027100000_analytics.sql:1-289 | The day count lists each key of the window once with its number of events, samples left out |
| `EventLog.CountOfIsNumber` | supabase/migrations/20261027100000_analytics.sql:1-289 | The count of a day, type and event is the number of places in the log where they stand, samples left out |
| `Rollup.Job.LastStored` | features/analytics/rollup.ts:43-50 | The last stored day, none exactly when nothing is stored |
| `Rollup.Job.UpsertInChunks` | features/analytics/rollup.ts:53-61 | Writing in chunks of any remainder stores every counted row, once and nothing else |
| `Rollup.Job.DeleteVanished` | features/analytics/rollup.ts:62-71 | Exactly the stored keys the recount no longer returns go, and their number is returned |
| `Rollup.Job.RollDays` | features/analytics/rollup.ts:43-72 | The daily table after a run: the recount inside the window, what was stored outside it; with the counts reported |
| `Rollup.Job.SelectMeasures` | features/analytics/rollup.ts:89-94 | The read returns all of a period's stored measures, or some 500 of them, in no order |
| `Rollup.ReadClearsIff` | features/analytics/rollup.ts:88-98 | Every such read, made after the upsert, finds all that vanished if and only if stored and counted measures together are at most 500 or none has vanished |
| `Rollup.TwoCountsMayStay` | features/analytics/rollup.ts:88-98 | Two counts of 300 measures each, none shared, are within 500 and a read may still leave some of the first; so for any size from 251 to 500 |
| `Rollup.Job.RollPeriod` | features/analytics/rollup.ts:74-100 | Where the read is sure to clear, one period's rows become its counts up to today or its end, against the period `ComparesWithThePeriodBefore` names; other periods' rows stay, and every count is written, always |
| `Rollup.Job.PeriodsDue` | features/analytics/rollup.ts:107-119 | Current and previous period of each kind; every period since launch on a first or full run |
| `Rollup.Job.Rollup` | features/analytics/rollup.ts:102-127 | One run leaves the day table at the value the theorems below are about, and the period table too where each period in its turn is sure to clear |
| `RollupRuns.DailyExactIff` | features/analytics/rollup.ts:43-72 | An incremental run over a right table leaves the full recount exactly when nothing was logged since into the days it does not re-read (and nothing lies before the beginning where the window reaches it) |
| `RollupRuns.LateEventIsMissed` | features/analytics/rollup.ts:43-72 | An event dated two days before the last stored day is missed |
| `RollupRuns.DayBeforeBeginningIsStored` | features/analytics/rollup.ts:43-72 | With 2000-01-01 the last stored day, an event of 1999-12-31 is stored |
| `RollupRuns.FullDailyExactIff` | features/analytics/rollup.ts:43-72 | A full run is right, whatever was logged, if and only if every day stored before it lies between 2000-01-01 and today |
| `RollupRuns.RunKeepsCoherence` | features/analytics/rollup.ts:74-127 | A run keeps the period table right: every period since launch exact, no vanished measure, one start for "all" |
| `RollupRuns.FirstRunCoherent` | features/analytics/rollup.ts:74-127 | A first run over an empty table counts everything |
| `RollupRuns.GapIff` | features/analytics/rollup.ts:102-127 | With nothing new logged, an incremental run leaves the table right if and only if no whole week went by without a run |
| `RollupRuns.SkippedWeekStaysHalfCounted` | features/analytics/rollup.ts:102-127 | Runs on a Thursday and on the Monday eighteen days later: the table is right after the first and not after the second |
| `RollupRuns.AllHasOneStart` | features/analytics/rollup.ts:74-100 | After any run every "all" row starts at the launch day |
| `RollupRuns.RunsStayRight` | features/analytics/rollup.ts:43-127 | Over any sequence of appends and runs with a forward clock, late events within the window and a run each week, both tables equal a recount of the whole log |
| `RollupRuns.RightFromTheStart` | features/analytics/rollup.ts:43-127 | The same from empty tables |
| `RollupRuns.EndedPeriodsWhole` | features/analytics/rollup.ts:74-100 | A period that ended before the last run stores exactly its counts over its whole span, returning residents those of the whole period that ended the day before it |
| `RollupRuns.ComparesWithThePeriodBefore` | features/analytics/rollup.ts:74-81 | The window a week, month or quarter is counted over runs from its first day, and its returning residents are those of the whole period of its kind that ends the day before |
| `RollupRuns.CurrentPeriodSoFar` | features/analytics/rollup.ts:74-100 | The period today is in stores exactly its counts up to and with today, against the same |
| `RollupRuns.AllSinceLaunch` | features/analytics/rollup.ts:74-100 | "All" stores exactly the counts since the launch day, against none |
| `RollupRuns.RunStamps` | features/analytics/rollup.ts:74-100 | A run leaves the current period of each kind exact and every row of it with the run's time |
| `RollupRuns.FittingRunClears` | features/analytics/rollup.ts:74-127 | In a right world a run is sure to clear when, for each period due, what it last counted and what it counts now are at most 500 measures together or none is lost |
| `RollupRuns.FittingRunsClear` | features/analytics/rollup.ts:74-127 | So over whole fair runs that fit, every run of the job leaves exactly the tables the main result speaks of |
| `RollupRuns.CoherentUnique` | features/analytics/rollup.ts:74-100 | Two right tables for one log and day hold the same keys, ends and values |
| `RollupRuns.RerunChangesNothing` | features/analytics/rollup.ts:43-127 | Running again over the same log changes no count in either table |
| `Plan.BuildPlan` | features/analytics/plan.ts:40-62 | The loops build the plan the next two are about |
| `Plan.PlanMatchesRoles` | features/analytics/plan.ts:14-33 | An event pair is an act exactly when its roles give it participation, or creation on a resident-created type |
| `Plan.HostCountsEverywhere` | features/analytics/plan.ts:14-28 | Comments and submissions for review are taking part whatever the type, and nothing else is on a type the hub does not list |
| `Plan.PlanSourcesIff` | features/analytics/plan.ts:53-56 | The plan asks for a source if and only if some type feeds that funder measure by its outcomes, with that event and that field of its payload |
| `Plan.PlanTotalsIff` | features/analytics/plan.ts:58-61 | And for exactly the totals the types record, for the types whose participants act elsewhere |
| `Plan.ProvenanceNamesWhatIsCounted` | features/analytics/plan.ts:64-79 | For a feeding type that counts residents, the events a measure counts are exactly those its provenance names |
| `ReportData.SuppressHides` | features/analytics/report.ts:40-43 | Below admin two counts look alike only if equal or both 1 to 4; for admins never unless equal |
| `ReportBuilder.SumsCountTheLog` | features/analytics/report.ts:110-135 | Sums over day rows equal the number of the log's events picked, nothing lost or counted twice |
| `ReportBuilder.CollectBook` | features/analytics/report.ts:104-122 | The accumulating loop holds every sum by type and role, recorded totals from elsewhere added |
| `ReportBuilder.BuildMeasure` | features/analytics/report.ts:137-165 | A measure's residents and records from the feeding types |
| `ReportBuilder.BuildReport` | features/analytics/report.ts:58-189 | The report: counted live exactly when `CountedLiveIff` says, from the tables else |
| `ReportRuns.CountedLiveIff` | features/analytics/report.ts:86-108 | Whatever tables and log hold, a report is live if and only if its period reaches today and nothing of it was computed in the last 5,400,000 ms; then its numbers are the log's, else the tables' |
| `ReportRuns.LiveCountOf` | features/analytics/report.ts:96-104 | A live count of a week, month or quarter is of its days up to today, its returning residents those of the whole period before it |
| `ReportRuns.ReadForNinetyMinutes` | features/analytics/report.ts:86-108 | After a run the current period of each kind is read as of that run for 90 minutes, if anyone was counted in it, and live from then on |
| `ReportRuns.CountsStandWhereTheyBelong` | features/analytics/report.ts:164-189 | An exact report shows each resident count under its own name, zero where there is none; returning only where there is a period before; and the days it covers |
| `ReportRuns.MeasureRecordsCountTheLog` | features/analytics/report.ts:137-152 | A measure's records are the number of the log's events by which its types feed it, on the hub or by their outcomes |
| `ReportRuns.MeasureResidentsAre` | features/analytics/report.ts:137-152 | A measure's residents: totals recorded for its types elsewhere, those counted on the hub where a type lists participation, its sources where an outcome names a field |
| `ReportRuns.MeasureRowsShow` | features/analytics/report.ts:137-165 | One row to each of the three funder measures, showing these |
| `ReportRuns.StalenessIsInvisible` | features/analytics/report.ts:68-108 | Right after a run, for every kind and any period reaching today or ahead ("all" at today or later included), totals, rows, measures and retention are a live count's at any later clock |
| `ReportRuns.EndedPeriodReadsLive` | features/analytics/report.ts:68-108 | And for every week, month and quarter that ended since the launch |
| `ReportRuns.AllAtAPastDayMixesWindows` | features/analytics/report.ts:52-108 | "All" at a past day: events to that day, residents to today |
| `ReportRuns.AllAtAPastDayIff` | features/analytics/report.ts:52-108 | It reads as a live count if and only if the residents counted to today and to that day show the same numbers |
| `ReportRuns.QuietSinceReadsLive` | features/analytics/report.ts:52-108 | It does when nothing was logged after that day up to today, for a count that depends on a window's events only |
| `ReportRuns.AllAtAPastDayDiffers` | features/analytics/report.ts:52-108 | A run over two days with an event on each, where the report shows two residents and a live count one |
| `ReportRuns.TotalsCountTheLog` | features/analytics/report.ts:110-135 | Every additive total and type sum is the number of the log's events with that role, plus totals recorded elsewhere |
| `ReportRuns.RowsAddUp` | features/analytics/report.ts:110-135 | Created, closed and outcome totals equal the rows' sums; participations exceed them by exactly the host's events on unlisted types |
| `ReportRuns.RowsShowTheSums` | features/analytics/report.ts:124-135 | One row per type, in order, showing its own sums |
| `ReportRuns.ExactReportAddsUp` | features/analytics/report.ts:110-189 | On the exact report itself: each total is the sum of its column, participations with the host's events on unlisted types added |
| `Csv.ReportCsv` | features/analytics/csv.ts:14-37 | The row-pushing loops write the file of exactly the report's rows |
| `Csv.FileReadsBack` | features/analytics/csv.ts:7-12 | A quote-aware reader (section 2 of RFC 4180, LF line ends) gives back exactly the rows, each cell its guarded text, for any text |
| `Csv.PlainCell` | features/analytics/csv.ts:7-12 | A quote mark goes before a cell's text only where it would start a formula, and quotes around it only where a quote, a comma or a line end is in it |
| `Csv.ReportReadsBack` | features/analytics/csv.ts:14-37 | So does the download, and no cell read from it starts with =, +, - or @ |
| `Csv.TotalsUnderTheirNames` | features/analytics/csv.ts:15-36 | Each total and each retention number stands in its row under its own name |
| `Csv.TypesUnderTheirNames` | features/analytics/csv.ts:21-29 | Each of a type's five numbers under its name and the type's plural |
| `Csv.MeasuresUnderTheirNames` | features/analytics/csv.ts:30-34 | Each of a measure's numbers under its heading, with its derivation |
| `Csv.FilesDiffer` | features/analytics/csv.ts:7-37 | Two tables give one file exactly when their guarded cells are the same |
| `Csv.TypesHaveFive` | features/analytics/csv.ts:22-30 | Each type's five rows stand together, in the report's order |
| `Csv.MeasuresHaveThree` | features/analytics/csv.ts:31-35 | Each measure's three rows stand together, in order |
| `Csv.CountsReadBack` | features/analytics/csv.ts:7-12 | A count's text determines it and the guard never touches it |
| `Utf8.DecodeRoundTrip` | packages/civic.event/ics.ts:17-33 | Decoding the octets of a text gives the text |
| `Utf8.KnownEncodings` | packages/civic.event/ics.ts:17-19 | How many octets each character has, and four characters as RFC 3629 spells them |
| `Utf8.WithinCharacter` | packages/civic.event/ics.ts:24-26 | An octet passes the continuation test exactly when it is inside a character and not its first |
| `IcsFold.BackUp` | packages/civic.event/ics.ts:22-27 | Backing up from the limit ends at the start of the first character that does not fit, so no character is split |
| `IcsFold.Fold` | packages/civic.event/ics.ts:17-33 | The loop terminates and cuts the line into the most characters that fit each time |
| `IcsFold.FoldedLine` | packages/civic.event/ics.ts:17-33 | Unfolding (section 3.1 of RFC 5545) gives the line back, every physical line is at most 75 octets |
| `IcsFold.FileReadsBack` | packages/civic.event/ics.ts:54-85 | Unfolding and splitting a whole file gives exactly its logical lines |
| `Ics.EscapeRoundTrip` | packages/civic.event/ics.ts:7-10 | Un-escaping a TEXT value (section 3.3.11 of RFC 5545) gives it back with CRLF as LF, and it holds no line feed |
| `Ics.StampReadsBack` | packages/civic.event/ics.ts:12-15 | A printed UTC time reads back as its instant to the second |
| `Ics.ToIcs` | packages/civic.event/ics.ts:54-85 | The pushing loop writes the file of the logical lines |
| `Ics.FeedReadsBack` | packages/civic.event/ics.ts:54-85 | The feed reads back as one event per row, in order, with the properties written for it |
| `Ics.EventReadsBack` | packages/civic.event/ics.ts:64-80 | Identifier, summary, status, place and description of an event read back as the row's, the texts un-escaped; cancelled exactly when it is |
| `Ics.WordsReadBack` | packages/civic.event/ics.ts:64-81 | Un-escaped, the summary is the title, said to be cancelled if it is; the location the link's address or the place with its address in order; the description the time in the event's zone, its words and its page, blank ones left out |
| `Ics.LineEndsRead` | packages/civic.event/ics.ts:7-10 | CRLF reads back as LF, and a text without one as it was |
| `Ics.HeaderReadsBack` | packages/civic.event/ics.ts:55-63 | The calendar's name, its zone where one is given, and what it is, read back |
| `Ics.TimesAndAddressesReadBack` | packages/civic.event/ics.ts:64-80 | The stamp, start and end read back as their instants to the second, the page and the picture as their addresses, no picture where there is none |
| `Duration.ParseDuration` | packages/civic.event/event.ts:200-226 | The unit-by-unit loop terminates on any input with nothing or at least one minute: the reading the next rows are about |
| `Duration.TypedIsRead` | packages/civic.event/event.ts:200-226 | Any text of numbers with units, whole or with a fraction, in any of the spellings and spacings, and a bare number after hours, reads as the whole minutes nearest to their sum, a half going up, and as nothing under half a minute |
| `Duration.ClockTime` | packages/civic.event/event.ts:204-208 | Digits, a colon and one or two digits under 60 read as hours and minutes; nothing for 60 and more, or for zero |
| `Duration.ClockTimes` | packages/civic.event/event.ts:204-208 | So "1:30" is 90, "1:3" is 63, "1:60" and "0:00" are nothing, for all hours and minutes |
| `Duration.NumberAndUnit` | packages/civic.event/event.ts:200-226 | A whole number before any of the fourteen unit words is so many of it |
| `Duration.FractionOfHours` | packages/civic.event/event.ts:200-226 | Hours with a fraction are read to the nearest minute |
| `Duration.BareElsewhereIsRefused` | packages/civic.event/event.ts:219-220 | A number without a unit anywhere but after hours is refused |
| `Duration.NoNumberIsRefused` | packages/civic.event/event.ts:214-216 | Text that starts with no digit is refused |
| `Duration.Spellings` | packages/civic.event/event.ts:194-199 | Each spelling the function's own description gives reads as it should |
| `Duration.DurationRoundTrip` | packages/civic.event/event.ts:188-226 | Every positive duration printed reads back as itself |
| `Duration.PrintedAs` | packages/civic.event/event.ts:187-193 | A duration is printed as its days, hours under 24 and minutes under 60, none that is zero; "0 min" for nothing |
| `Duration.BareNumber` | packages/civic.event/event.ts:200-226 | A bare number is minutes, zero nothing |
| `Duration.HoursThenMinutes` | packages/civic.event/event.ts:200-226 | "1h30" is hours and minutes |
| `Duration.EndAfterRoundTrip` | packages/civic.event/event.ts:160-171 | The end a duration gives has that duration, for every start |
| `Duration.NearestMinute` | packages/civic.event/event.ts:160-171 | A duration is the nearest whole minute, a half going up, none under half a minute |
| `Duration.DefaultEnd` | packages/civic.event/event.ts:173-186 | The end offered is the last whole minute within the hour still on the start's day |
| `Duration.DefaultEndIsLater` | packages/civic.event/event.ts:173-186 | It is after the start exactly when the start's next minute is on the same day |
| `Duration.LastMinuteEndsAtStart` | packages/civic.event/event.ts:173-186 | At 23:59 the only end to offer is the start |
| `EventHub.EventStore.UpsertEvent` | packages/civic.event/store.ts:107-111 | Writes every column and never changes an existing row's archived flag |
| `EventHub.EventStore.Calendar` | packages/civic.event/store.ts:117-127 | Each unarchived row once, earliest start first, then by identifier |
| `EventHub.EventStore.InsertGoing` | packages/civic.event/store.ts:139-149 | Added, already there or full, with the attendance each leaves |
| `EventHub.EventStore.RemoveGoing` | packages/civic.event/store.ts:151-159 | Removed exactly when present, the others in order |
| `EventHub.Hub.HandleAction` | packages/civic.event/handler.ts:182-247 | The handler's new process, records and queued work are the step function's, or a refusal that changes nothing |
| `EventActions.RefusedIff` | packages/civic.event/handler.ts:182-247 | The handler refuses a reason over 500 characters, a going to a full event, a message with no or too long a subject or text, and nothing else |
| `EventActions.WhatActionsLeave` | packages/civic.event/handler.ts:182-247 | What each action that lands makes of the process, the attendance, the records and the queued work: its status, its reason and time, how many others a message went to |
| `EventActions.LostRowLosesTheMessage` | src/services/processService.ts:461 | A cancellation whose row write throws is never told to those going; one whose row is written still is to be |
| `EventActions.LandsIff` | packages/civic.event/manifest.ts:51-117 | Outside production a publication lands from pending review only and everything else from active only; in production from anywhere |
| `EventHub.Hub.ExecuteAction` | src/services/processService.ts:341-462 | Handler first, then the table's from-status, refusing outside production only, then the write: process, records and hooks land together or not at all, and no error is returned exactly when they land |
| `EventHub.Hub.LoseNext` | src/services/processService.ts:461 | A hook that throws does nothing, and the rest of its action's queue is not run |
| `EventHub.Hub.Drain` | src/services/processService.ts:461 | Hooks run in commit order to the end of the queue, each running or throwing |
| `EventHub.Hub.Perform` | packages/civic.event/handler.ts:107-127 | After one request and its hooks, every row is its process's projection, which `RowsShowTheirEvents` spells out, if and only if the action was safe for the calendar from where it ran and the write of its row did not throw or was not needed |
| `EventHub.Hub.EditEvent` | src/services/processEdits.ts:223-330 | Where a field differs as compared, the process, then its row, then what is recorded, up to whichever write throws |
| `EventActions.EditNamesIff` | src/services/processEdits.ts:166-261 | An edit names a time, zone or limit given another value, a place whenever given, a picture unless there is none either way, and words that differ in more than markup and spacing |
| `EventActions.WordsSaved` | src/services/processEdits.ts:166-209 | Words are saved trimmed exactly when trimming leaves them different |
| `EventActions.ToldOfIff` | packages/civic.event/event.ts:329-342 | Those going are told exactly when a place is given, a start or end moves, or the zone makes the time read otherwise |
| `EventHub.Hub.ArchiveEvent` | src/services/processService.ts:910-1008 | The process archived, its row's flag written unless that fails |
| `EventRuns.StepAgreesIff` | packages/civic.event/handler.ts:107-127 | One step, a hook that throws included, keeps every row its process's projection, written or about to be, if and only if it is orderly: a condition on the state before it |
| `EventRuns.RunsAgreeIff` | packages/civic.event/handler.ts:107-127 | A run of submit, revise, publish, cancel, going, announce, edit, close, archive and restore, committed, refused or aborted, its hooks running or throwing, keeps them so all through if and only if every step is orderly; then, once hooks have drained, every published event has its row, flagged as archived, and nothing else has one |
| `EventRuns.RowsShowTheirEvents` | packages/civic.event/handler.ts:112-127 | Column by column what that row holds: the process's words, start, end, place, zone, limit, cancelled and archived flags, and its picture's address and description, none when empty |
| `EventRuns.DeclaredIsOrderly` | src/processes/descriptor.ts:171-184 | Where the table's refusal is enforced every action is orderly |
| `EventRuns.RequestAgreesIff` | src/services/processService.ts:341-462 | The same if and only if for one request to the end of its queue: safe, and its row written or not needed |
| `EventRuns.LostRowLeavesNone` | src/services/processService.ts:461 | A first publication whose row write throws: the event is live and on no calendar |
| `EventRuns.PublishLeavesArchivedRow` | src/services/processService.ts:490-503 | In production: a publish of an archived event leaves it active with its row archived |
| `EventRuns.EditOvertakesIff` | packages/civic.event/handler.ts:275-283 | An edit's row survives draining exactly when nothing different was queued for it |
| `EventRuns.QueuedRowOvertakesEdit` | packages/civic.event/handler.ts:275-283 | An event renamed before its publication's row is written: the row shows the old name |
| `EventRuns.AbortLeavesOnlyAttendance` | src/services/processService.ts:341-462 | An attempt that is refused or lost after its handler ran leaves no trace but the attendance a going or not-going wrote |
| `Json.SentAgainAlikeIff` | src/services/processEdits.ts:250-258 | A value sent again as it was written has the text of the one the database hands back if and only if its keys are in the order a jsonb column keeps |
| `EventData.LocationNeverAlike` | packages/civic.event/event.ts:229-270 | A location as it is built never has the text of one stored, the same one included |
| `EventData.PicturesAlikeIff` | packages/civic.event/event.ts:137-151 | A picture never has either; only no picture reads as no picture |
| `EventRuns.SavesIff` | src/services/processEdits.ts:233-261 | An edit saves something if and only if it names a location, names a picture or takes one away, or gives another text, time, zone or limit |
| `EventRuns.EditLeavesNothingIff` | src/services/processEdits.ts:261-308 | An edit none of whose writes is lost leaves no trace if and only if it saves nothing |
| `EventRuns.RowStands` | packages/civic.event/handler.ts:275-283 | Writing an event's row again, where the calendar agrees and nothing is queued, changes nothing |
| `EventRuns.ActRecords` | packages/civic.event/handler.ts:212-223 | One attempt keeps every record fitting, and attendance its record if and only if it does not write attendance and then fail to land, told from the state before it |
| `EventRuns.StepRecordsIff` | packages/civic.event/handler.ts:212-223 | So does a step |
| `EventRuns.AttendanceReplays` | packages/civic.event/handler.ts:212-223 | Replaying Join and Leave gives the attendance, and each count is the number going just after it |
| `EventRuns.ComingsAlternate` | packages/civic.event/handler.ts:212-223 | One account's records strictly alternate from Join, and the last says whether it is going |
| `EventRuns.GrowsIff` | packages/civic.event/store.ts:139-149 | Attendance grows if and only if an account not going asks to, below the limit in force; whatever the status, and whether or not the attempt lands |
| `EventRuns.LimitInForce` | packages/civic.event/store.ts:139-149 | That limit is the event's own once published, even after an edit lowers it, and none before |
| `EventRuns.RefusedButGoing` | src/services/processService.ts:490-503 | Outside production: a going refused on a past event leaves the account going and no record |
| `EventRuns.WordsFit` | packages/civic.event/manifest.ts:288-295 | Where no cancelled event is open, each event's word declares its hub status |
| `EventRuns.RunsSoundIff` | packages/civic.event/manifest.ts:51-117 | A run keeps every cancelled event closed all through if and only if no step of it lands a publish on a cancelled one |
| `EventRuns.OverIsAbsorbingIff` | packages/civic.event/manifest.ts:51-117 | A past or cancelled event keeps its words, times, place and cancellation all through a run if and only if no step lands a publish or a new cancellation on it |
| `EventRuns.SameWord` | packages/civic.event/manifest.ts:288-295 | And then its word |
| `EventRuns.TableKeepsOver` | src/processes/descriptor.ts:171-184 | Where the table's refusal is enforced neither ever lands |
| `EventRuns.PublishRevivesCancelled` | src/services/processService.ts:490-503 | In production: publishing a cancelled event leaves it active and cancelled, under a word that declares it closed |
| `EventRuns.CancelRewritesPast` | src/services/processService.ts:490-503 | In production: cancelling a past event makes it a cancelled one |
| `EventRuns.ReadsAsItWillClose` | packages/civic.event/handler.ts:349-357 | An event reads as closed if and only if it is active and its end has passed, and then as the close action would leave it |
| `EventDraft.StatesComeInGood` | packages/civic.event/draftKind.ts:118-135 | Whatever a draft or an import builds passes the checks that built it |
| `EventDraft.TimesIff` | packages/civic.event/event.ts:84-93 | Times pass when the end is after the start, by at most 14 days, and not over; the first that fails is named |
| `EventDraft.WhereIff` | packages/civic.event/event.ts:229-256 | A venue or a link, not both and not neither; kept trimmed with what was given of its address, or as it is written out; which refusal comes first |
| `EventDraft.ImageIff` | packages/civic.event/event.ts:137-151 | A picture passes when its address is of the web and of this type's uploads, its description at most 200 characters |
| `EventDraft.InitializedIs` | packages/civic.event/handler.ts:151-169 | A checked state comes into being as it is, not cancelled, in the hub's zone when it has none |
| `EventDraft.LocationAgainIff` | packages/civic.event/event.ts:229-270 | A checked location is a fixed point of the check unless it is a link over 500 characters written out, then it is refused |
| `EventDraft.EditUntouchedIff` | packages/civic.event/store.ts:77-98 | Any checked state, to draft columns and built again, is itself exactly when its location rechecks; else it is refused as too long |
| `EventForms.BuiltRechecks` | packages/civic.event/draftKind.ts:93-98 | A draft's link is stored written out, so what is built from it is never longer than a link may be |
| `EventForms.EveryEventIsKept` | packages/civic.event/draftKind.ts:74-153 | However drafts are written, submitted, revised, opened and saved, and whatever actions run between, every event passes its own checks again |
| `EventForms.TypedIntoItsColumn` | packages/civic.event/draftKind.ts:74-117 | Each field of any event, typed into any draft, changes its own column to itself and no other |
| `EventForms.TypedIsCleaned` | packages/civic.event/draftKind.ts:50-117 | What is typed is stored trimmed, blank as none; a link and a picture's address as they are written out |
| `EventForms.SubmittedIff` | packages/civic.event/draftKind.ts:110-135 | A draft can be submitted if and only if it has a name of at most 120 characters and builds |
| `EventForms.FiledIsShown` | packages/civic.event/draftKind.ts:118-135 | A draft submitted, or made again over one still pending, and opened: the form builds what was submitted, in the hub's zone where it had none; pending, and not on the calendar |
| `EventForms.SavedIsShown` | packages/civic.event/draftKind.ts:136-153 | A changed draft saved over an upcoming event and opened again: the form builds what was saved |
| `EventForms.SavingUntouchedKeepsTheEvent` | packages/civic.event/draftKind.ts:118-153 | Every upcoming event such a run can reach, opened and saved untouched, is built as itself: its process, attendance and queue are the same after the save, and its row is written as the event reads |
| `EventForms.UntouchedSaveIsAnEdit` | src/services/processEdits.ts:250-327 | And yet that save updates, tells those going and records an edit, of the location, and of the picture where there is one, exactly |
| `EventForms.HallAndLink` | src/services/processEdits.ts:253 | A place and a link as the database keeps them, against what is sent |
| `KeepFirst.PositionsAreFirsts` | packages/civic.brief/service.ts:166-206 | Reading with a set of what was seen keeps exactly the positions no earlier mark equals, in order |
| `KeepFirst.MarksKept` | packages/civic.brief/service.ts:166-206 | Every mark stays, none twice |
| `Recipients.NormalizeRecipients` | packages/civic.brief/service.ts:161-206 | The loop with its seen set gives the normalised list or the first bad row's error |
| `Recipients.RowRead` | packages/civic.brief/service.ts:169-203 | One more row: skipped with neither address nor label, refused for the first thing wrong with it, or kept trimmed, its group only if it has one |
| `Recipients.AddressShapes` | packages/civic.brief/service.ts:148-154 | Addresses the shape takes and refuses: no at sign or two, nothing on a side of it, no dot after it or nothing beside that, a space |
| `Recipients.RefusedIff` | packages/civic.brief/service.ts:169-196 | Refused exactly when some row is bad, with the first bad row's error, duplicates included |
| `Recipients.NormalizedIsUnique` | packages/civic.brief/service.ts:197-203 | No address twice ignoring case, no address lost |
| `Recipients.NormalizedKeepsFirsts` | packages/civic.brief/service.ts:197-203 | Each address as first typed, in that order |
| `Recipients.NormalizeIdempotent` | packages/civic.brief/service.ts:161-206 | Normalising the stored list again changes nothing |
| `Recipients.CollapseRecipientLabels` | packages/civic.brief/service.ts:216-231 | The loop gives the collapsed names |
| `Recipients.NamedIff` | packages/civic.brief/service.ts:216-231 | A name is on the collapsed list exactly when someone on it goes by it |
| `Recipients.GroupStandsOnce` | packages/civic.brief/service.ts:216-231 | Each group once, where its first member stood; everyone else in place |
| `Recipients.SentIff` | packages/civic.brief/service.ts:335-357 | The receipt names as sent exactly those sent it, and as held back exactly those held back |
| `Recipients.EveryoneIsOnTheReceipt` | packages/civic.brief/service.ts:335-357 | When the mail report accounts for every address, everyone selected is named |
| `Recipients.SanitizeList` | packages/civic.brief/service.ts:253-264 | The comment loop gives the cleaned list |
| `Recipients.SanitizedIsClean` | packages/civic.brief/service.ts:253-264 | Comments come out trimmed, non-empty, unique, all kept, and stay so |
| `Pictures.SanitizeImageSettles` | packages/civic.brief/service.ts:127-144 | An accepted picture is accepted again as it is, and has no description without an address |
| `Pictures.PictureIff` | packages/civic.brief/service.ts:127-144 | What a picture becomes, its address and description trimmed or none, and exactly when it is refused |
| `BriefApproval.LoadedBrief.SetRecipients` | packages/civic.brief/service.ts:238-251 | The normalised list set while pending, or a refusal that changes nothing |
| `BriefApproval.LoadedBrief.EditContent` | packages/civic.brief/service.ts:91-125 | All of the patch or nothing, while pending |
| `BriefApproval.LoadedBrief.RecordDelivery` | packages/civic.brief/service.ts:335-357 | The delivery written down from the lists it is handed: the mailer's, by `PublishedAsReported` |
| `BriefApproval.Briefs.ApproveBrief` | packages/civic.brief/service.ts:291-376 | The seven steps halt where a callback throws, with exactly the earlier effects out and the state at the last good step |
| `BriefApproval.Briefs.HandlePatch` | packages/civic.brief/adminController.ts:114-150 | Saved whole or not at all, whatever throws |
| `BriefRuns.EditTakes` | packages/civic.brief/service.ts:91-146 | An accepted edit leaves each field it gives as given, cleaned, and every other as it was; a refused or lost one leaves the brief alone |
| `BriefRuns.EditRefusedIff` | packages/civic.brief/adminController.ts:114-150 | Refused exactly when no longer pending, for its list, or for its picture, in that order, with nothing announced |
| `BriefApproval.Briefs.HandleApprove` | packages/civic.brief/adminController.ts:171-213 | Saved published and finalized after every step, or the saved brief untouched; its receipt the mailer's account, by `PublishedAsReported` |
| `BriefRuns.PublishedAsReported` | packages/civic.brief/service.ts:308-357 | The request that publishes: sent to exactly those the mailer reports it sent and held back those it reports, or with no report sent to everyone selected, or the hub's list; dated if and only if someone was sent it, no receipt with no one to mail; stamped with its own times, its content and selection untouched |
| `BriefRuns.RunsKeepTheAccount` | packages/civic.brief/service.ts:335-357 | Over any run the saved receipt is the account given to the one attempt that published |
| `BriefRuns.RunsStayCoherent` | packages/civic.brief/lifecycle.ts:10-38 | Over any requests and any throws the saved brief is pending or published, never approved, finalized exactly when published, stamped exactly then |
| `BriefRuns.PublishedIsAbsorbing` | packages/civic.brief/adminController.ts:114-208 | Once published no edit, recipient change or approval changes it or lets anything out |
| `BriefRuns.PublishedByOne` | packages/civic.brief/service.ts:308-376 | A published brief was published by one attempt whose effects end the trace, and the row is what it found with stamps and receipt |
| `BriefRuns.TrailInOrder` | packages/civic.brief/service.ts:308-376 | That trace: mail if to anyone, outcome recorded, result published with the brief's content, source finalised, saved, then what waited on approval |
| `BriefRuns.EachThrowStops` | packages/civic.brief/service.ts:308-376 | What an approval has let out when each of its callbacks throws, step by step, and that the brief is saved only when the save went through |
| `BriefRuns.EffectsOfARun` | packages/civic.brief/adminController.ts:171-208 | Mail, each event and the finalisation went out once for the publication (the mail if there was anyone to mail) and once for each attempt that threw after it, exactly; the save at most once |
| `BriefRuns.FailedSaveAnnouncesTwice` | packages/civic.brief/adminController.ts:203-206 | One failed save: the mail and the result go out twice, the brief is saved once |
| `BriefRuns.RunsKeepReceiptsTrue` | packages/civic.brief/service.ts:335-357 | In every run the saved receipt names exactly the selected who were sent it and who were held back, nobody when none was selected |
| `BriefRuns.RunsStayTidy` | packages/civic.brief/service.ts:91-146 | Comments, picture and recipients stay fixed points of their checks through any run |
| `BriefRuns.SavingUntouchedChangesNothing` | packages/civic.brief/service.ts:91-125 | Saving a tidy pending brief's own fields is accepted and is the identity |
| `Anchors.Responses.Post` | packages/civic.brief/controller.ts:84-133 | Refused for the first thing wrong before anything is written, or stored whole, trimmed, with its anchor flag, then announced with it |
| `Anchors.AcceptedIff` | packages/civic.brief/responses.ts:67-106 | A response is taken from an official on a published brief with words of at most 5000 characters, and the first of these that fails is named |
| `Anchors.Responses.NewestAnchor` | src/services/briefResponses.ts:56-73 | The lookup's one pass gives the newest anchored stamp |
| `Anchors.LatestIsNewest` | src/services/briefResponses.ts:56-73 | That stamp is an anchored row's and none is later; none exactly when nothing is anchored |
| `Anchors.AnchorsIff` | packages/civic.brief/responses.ts:136-158 | A response anchors exactly when its lookup failed or no earlier anchor is under 24 hours old |
| `Anchors.AnchorsApart` | packages/civic.brief/responses.ts:136-158 | While lookups answer two anchors are stored at least 24 hours apart |
| `Anchors.UnanchoredIsCovered` | packages/civic.brief/responses.ts:136-158 | Every other response has an anchor stored less than 24 hours before it was decided |
| `Anchors.AllApartIff` | packages/civic.brief/responses.ts:136-158 | As the rule compares them, stored stamp to decision clock, a run's anchors are all 24 hours apart if and only if no lookup failed while an anchor was under 24 hours old |
| `Anchors.StampsApartIff` | packages/civic.brief/responses.ts:136-158 | By their stored stamps they are if and only if no response whose lookup failed was stored under 24 hours after an anchor |
| `Anchors.FailedLookupAnchorsAgain` | src/services/briefResponses.ts:66-72 | A failed lookup: two anchors a minute apart |
| `Anchors.GreedyIsLargest` | packages/civic.brief/responses.ts:136-158 | No choice of responses, each decided at least 24 hours after the one before it was stored, as the rule compares them, outnumbers the anchors |
| `Anchors.GreedyIsLargestByStamps` | packages/civic.brief/responses.ts:136-158 | Nor one spaced by its stored stamps, where no response is decided under 24 hours after another and stored 24 hours after it |
| `Anchors.SlowWriteBeatsGreedy` | packages/civic.brief/controller.ts:106-116 | Where one is, two responses are stored 24 hours apart and only one anchors |
| `Anchors.AnchorsAreSpaced` | packages/civic.brief/responses.ts:136-158 | The anchors are such a choice, so a largest one, under the same condition on failed lookups |
| `Anchors.ResponseStatus` | packages/civic.brief/responses.ts:115-131 | Awaiting exactly with no rows; else the earliest stamp, in whatever order rows come, and their number |
| `Anchors.FirstResponseStands` | packages/civic.brief/responses.ts:108-131 | Later responses never move the date |
| `Announcement.SanitizeContent` | packages/civic.announcement/service.ts:151-225 | The checks in their order and the link loop give the accepted content or the first error |
| `Announcement.ContentIff` | packages/civic.announcement/service.ts:151-225 | Content passes if and only if each of its limits is met, and is kept trimmed, its blank links left out in order |
| `Announcement.SanitizedSettles` | packages/civic.announcement/service.ts:151-225 | Accepted content is accepted again as it is, without the empty-body allowance unless its body is empty |
| `Announcement.CreatedIsSound` | packages/civic.announcement/service.ts:34-64 | What is created is such content, with an empty body only if synced |
| `Announcement.CreatedIs` | packages/civic.announcement/service.ts:34-64 | Made, an announcement is its author's, never edited and never removed |
| `Announcement.Announcements.UpdateAnnouncement` | packages/civic.announcement/service.ts:83-149 | An edit's whole new state, events and answer, whatever throws |
| `Announcement.OnlyAuthorOrAdmin` | packages/civic.announcement/service.ts:88-93 | Whatever throws, only the author or an admin changes anything by an edit, and anyone else is told so |
| `Announcement.EditLeaves` | packages/civic.announcement/service.ts:95-149 | An edit that goes through leaves the content as given and checked, one more edit counted, its time, and the rest as it was |
| `Announcement.Announcements.RemoveAnnouncement` | packages/civic.announcement/service.ts:238-280 | A removal's |
| `Announcement.RemovalLeaves` | packages/civic.announcement/service.ts:238-280 | A removal with a reason of 1 to 500 characters keeps it with who and when, and tells it; one already gone stays as it is |
| `Announcement.Announcements.RestoreAnnouncement` | packages/civic.announcement/service.ts:282-315 | A restoration's |
| `Announcement.RestorationLeaves` | packages/civic.announcement/service.ts:282-315 | A restoration takes the flag down at its time and keeps who removed it, when and why |
| `Announcement.RunsStaySound` | packages/civic.announcement/service.ts:83-225 | In every run content stays a fixed point of its check, with no body only if synced, and every moderation has a reason within bounds |
| `Announcement.FieldsCoverChanges` | packages/civic.announcement/service.ts:95-136 | Every field an edit really changed is named in its answer and its event |
| `Announcement.LinksAlikeIff` | packages/civic.announcement/service.ts:103-109 | Links sent never have the text of the links stored; only none reads as none |
| `Announcement.CountsAsNoneIff` | packages/civic.announcement/service.ts:95-132 | An edit counts as none if and only if it names no link, sent or stored, and gives nothing else another value |
| `Announcement.ResentLinksAreAnEdit` | packages/civic.announcement/service.ts:103-149 | An announcement's own links sent again: the content is the same, the edit is counted and announced |
| `Announcement.NoBodyNoEdit` | packages/civic.announcement/service.ts:134-136 | An announcement without a body refuses every edit that does not give it one |
| `Announcement.EditNeedsBodyIff` | packages/civic.announcement/service.ts:134-136 | An edit that passes every other check is accepted if and only if it leaves the announcement a body |
| `Announcement.SyncedTitleCannotBeCorrected` | packages/civic.announcement/service.ts:34-64 | A synced announcement made without a body: the correction of its title is refused |
| `Announcement.EditsAreCounted` | packages/civic.announcement/service.ts:134-149 | The edit count is the number of edit events less those whose save failed |
| `Announcement.EventsTellIff` | packages/civic.announcement/service.ts:238-315 | Removal and restoration events alternate, end at the removed flag and carry its reason exactly when none of them lost its save |
| `Announcement.LostRemovalIsTold` | packages/civic.announcement/service.ts:238-280 | A removal announced and not saved: told as gone, recorded as standing |

## Left out

- The database, PostgREST and its paging, routes, authentication and mail transport: each is the contract its caller relies on; the capacity trigger is part of `InsertGoing`.
- The count of residents is an uninterpreted function of the events up to the window's end, the window and the plan; its SQL is not modelled. New residents are counted from the accounts, not the log: no account is taken to be made or closed between a run and a report.
- Concurrency between two requests on one record; the version check that refuses a stale save appears only as a save that fails.
- Time zones, locale text and URL parsing are uninterpreted; a parsed URL's text is taken to parse to itself.
- Years before 0 and after 9999 in printed dates; day numbers are unbounded.
- Floating point in a typed duration such as "1.5 h" is exact arithmetic.
- Lower-casing a typed duration is for ASCII only; lone surrogates in text are not modelled.
- The dispatcher's checks of who calls, its refusal of residents past a deadline, and its retry after a lost write: the runs here include whatever they let through.
- The bundled sample events, which come in through one link check instead of two.
- The reads before an approval's first step (the hub's list, the source's identifier): a throw there changes nothing.
- A callback that both takes effect and throws: a throw is taken to come before the effect.
- Regenerating a published brief and its staged revision; the approval's regeneration step is an effect without content.
- The report's fixed sentences, its generated-at stamp and provenance text; the period's label and printed days are given to the CSV as text.
- The outcomes index, public read models, response excerpts, and sorting responses for display: projections with no state.
- JSON text is compared as values with their fields in order, keys ASCII; a jsonb column is taken to keep everything but that order.
- The messages hooks and edits send, but for the record that those going were told of a change.
- All user interface, previews, reporting keys and manifests other than the Events action table: plumbing.

# punch: a verified model of the time clock

`punch` is a command-line time clock. `punch in` and `punch out` append
timestamped records (`in: <timestamp>` / `out: <timestamp>`) to a timesheet
file. A marker file records whether the user is currently working. `punch
status` reports that flag. `punch report` replays the timesheet as working
intervals and prints, for each run of intervals that start on the same day,
the time worked as hours and minutes.

This project models that core in Dafny:

- `times.dfy` (module `Times`): broken-down times (`Tm`) reduced to their
  date and epoch seconds, the `empty_tm()` sentinel, intervals and their
  durations, and `same_day`.
- `timesheet.dfy` (module `Timesheet`): the record format, the check of each
  line (prefix, then timestamp), and the replay of the log into intervals.
  The replay (`ReplayFrom`) runs over the outcomes of the line checks, one per
  line, since a line's part in it depends on nothing else; `Reconstruct`
  replays a whole log. It also holds the pull-based `IntervalIter` class, a
  cursor over the lines whose `Next` is proved against the replay.
- `report.dfy` (module `Report`): the report loop as a fold (`Turn`, `Scan`,
  `Flush`), an independent definition of the day grouping (`Runs`), and the
  hours/minutes arithmetic of `print_time_worked` with Rust's truncating
  integer division.
- `timeclock.dfy` (module `Punch`): the `TimeClock` class, whose methods
  update the timesheet, the `currently_working` flag and the marker. It also
  holds the storage consistency invariant and `Dispatch`, the command
  dispatch of `main`.

Every panic on the log's data or on the command is an error value here: a
bad record prefix, a timestamp that does not parse, punching in twice,
punching out while not working, and a missing or unknown command. The lines
of the timesheet are modelled as the standard library's line reader of that
era returned them, each with its trailing newline. `parse_time` drops that last character before parsing, so a payload
with no characters at all panics (the `len() - 1` underflows). The model
treats that case as a timestamp that does not parse.

The program prints minutes without zero-padding (`{}:{}`, src/main.rs:173);
`DayLine` carries the integers and no padding is added.

## Model

| member | source | states |
|---|---|---|
| `Times.SameDay` | src/main.rs:166-170 | `same_day`: two times fall on the same day when year, month and day of month agree; characterised by `SameDayIsEquivalence` and `SentinelIsNoDay` |
| `Times.Duration` | src/main.rs:101 | the seconds from an interval's start to its end, in whole seconds; characterised by `ScanKeepsTotal` and `DailyTotalsAddUp` |
| `Times.SameDayIsEquivalence` | src/main.rs:166-170 | `same_day` compares exactly year, month and day of month; it is reflexive, symmetric and transitive |
| `Times.SentinelIsNoDay` | src/main.rs:88-93 | the `empty_tm()` starting day (day of month 0) is never the same day as a calendar date (day of month 1 to 31, the range of the parse's day field), so the first interval always opens a new day |
| `Timesheet.InRecord` | src/main.rs:63 | the record `punch_in` writes starts with "in: " and not with "out: ", then holds the timestamp and ends with the newline `writeln!` adds |
| `Timesheet.OutRecord` | src/main.rs:72 | the record `punch_out` writes starts with "out: " and not with "in: ", then holds the timestamp and ends with the newline `writeln!` adds |
| `Timesheet.ParseTime` | src/main.rs:162-164 | `parse_time`: the parse of the payload without its last character, and no time for an empty payload; characterised by `RecordsReadBack` |
| `Timesheet.CheckRecord` | src/main.rs:136-147 | the check of line i: "Bad data" unless it starts with the prefix its position demands, then the parse of the rest; characterised by `RecordsReadBack` and `AlternatingLogHasNoPrefixError` |
| `Timesheet.PairAt` | src/main.rs:134-151 | one call of `next` on the pair at line i: the start line's check first, then the end line's, or `now` without an end line; characterised by `ReplayPairsLines` and `ReplayStopsAtFirstBadLine` |
| `Timesheet.ReplayFrom` | src/main.rs:133-155 | the intervals `next` yields from line i on, up to the first failing line, with that line's failure; it fails only while lines remain; characterised by `ReplayTakesTwoLinesEach`, `ReplayPairsLines` and `ReplayStopsAtFirstBadLine` |
| `Timesheet.Reconstruct` | src/main.rs:91-92 | the replay of the whole log that the report loop consumes; characterised by `ReplayFailsAtNamedLine`, `ReplayedStartsAreDates` and `AppendToCleanReplay` |
| `Timesheet.ReplayedStartsAreDates` | src/main.rs:140 | every interval starts at a timestamp parsed from a start line, so when the parse yields only calendar dates, every start is one |
| `Timesheet.RecordsReadBack` | src/main.rs:162-164 | a record written as `in: <stamp>\n` or `out: <stamp>\n`, read at a position of its kind, yields exactly `parse(stamp)`: `parse_time` drops exactly the newline `writeln!` added |
| `Timesheet.ReplayTakesTwoLinesEach` | src/main.rs:133-155 | the replay consumes two lines per interval: with no line left it yields nothing and no error, and a clean replay of n lines yields ceil(n/2) intervals |
| `Timesheet.ReplayPairsLines` | src/main.rs:134-151 | interval k takes its start from the check of line 2k (an `in:` record with a parsable timestamp) and its end from the check of line 2k+1 (an `out:` record), or from `now` when line 2k+1 is missing |
| `Timesheet.ReplayStopsAtFirstBadLine` | src/main.rs:136-147 | a replay fails with the failure of the first line whose prefix or timestamp is wrong, after the floor(e/2) intervals of the pairs before that line e; every earlier line passes; a replay finishes without error if and only if every line passes |
| `Timesheet.ReplayFailsAtNamedLine` | src/main.rs:136-147 | the corruption a replay of a log stops with names its line: that line fails its check with exactly that corruption, every earlier line passes, and the intervals before it number half the line's index, rounded down |
| `Timesheet.AppendToCleanReplay` | src/main.rs:133-155 | after a log of complete pairs that replays cleanly, the checks of the appended lines replay as they would on their own: their intervals and failure follow the old intervals |
| `Timesheet.AppendKeepsAlternation` | src/main.rs:58-74 | appending the record a punch writes (`in:` after an even number of records, `out:` after an odd number) keeps the log alternating `in`/`out` from an `in` |
| `Timesheet.AlternatingLogHasNoPrefixError` | src/main.rs:137-146 | replaying an alternating log never fails with "Bad data", only on a timestamp; when it does not fail it yields ceil(n/2) intervals, and for an odd n the last one is open and ends `now` |
| `Timesheet.PunchPairReadsBack` | src/main.rs:58-74 | punching in with stamp s1 and out with stamp s2 after a clean log of complete pairs replays to the old intervals plus exactly one closed interval (parse(s1), parse(s2)) |
| `Timesheet.PunchInReadsBackOpen` | src/main.rs:141-142 | punching in with stamp s after a clean log of complete pairs replays to the old intervals plus one open interval (parse(s), now) |
| `Timesheet.IntervalIter.constructor` | src/main.rs:126-128 | the iterator starts at the first line, so what remains to replay is the whole log |
| `Timesheet.IntervalIter.Next` | src/main.rs:133-155 | `next` ends the sequence when the log is exhausted, and then the cursor and the rest stay put, so the sequence stays ended; it stops with the corruption when the next pair fails its check, and otherwise yields the first interval still to replay; the cursor moves forward and the rest replays to the remaining intervals |
| `Report.Turn` | src/main.rs:93-101 | one turn of the report loop: a start on another day flushes a non-zero running total and opens that day; the duration goes to the start's day; characterised by `ScanKeepsTotal` and `ScanFollowsRuns` |
| `Report.Scan` | src/main.rs:88-102 | the loop state after the given intervals, from the `empty_tm()` day and a zero total; characterised by `ScanKeepsTotal`, `DailyTotalsNonZero` and `ScanFollowsRuns` |
| `Report.Flush` | src/main.rs:104-106 | after the loop, the last day is printed too when its total is non-zero; characterised by `DailyTotalsAddUp` and `DailyTotalsNonZero` |
| `Report.DailyTotals` | src/main.rs:88-106 | every total a clean report prints; characterised by `DailyTotalsAddUp`, `DailyTotalsNonZero` and `DailyTotalsAreRunTotals` |
| `Report.ScanKeepsTotal` | src/main.rs:89-102 | at every point of the report loop, the totals already printed plus the running `time_worked_today` equal the sum of the durations of the intervals seen |
| `Report.DailyTotalsAddUp` | src/main.rs:89-106 | the printed totals add up to the sum of all interval durations: the only time not printed belongs to day runs whose total is zero |
| `Report.DailyTotalsNonZero` | src/main.rs:94-106 | a line is printed only for a day whose total is non-zero, both during the loop and at the final flush |
| `Report.Runs` | src/main.rs:92-99 | cutting the intervals into runs of consecutive same-day starts gives no runs exactly when there are no intervals, and no run is empty |
| `Report.RunsPartition` | src/main.rs:92-99 | the runs, concatenated, are exactly the intervals in their original order |
| `Report.RunsShareTheirDay` | src/main.rs:92-101 | every interval of a run starts on the day of the run's first start: an interval counts wholly for the day it starts |
| `Report.RunsAreMaximal` | src/main.rs:93-99 | neighbouring runs start on different days, so each run is a maximal block of same-day starts |
| `Report.ScanFollowsRuns` | src/main.rs:88-102 | during the loop the report has printed the non-zero totals of all runs but the last, `current_day` is the last run's first start and `time_worked_today` its total |
| `Report.DailyTotalsAreRunTotals` | src/main.rs:88-106 | when the first start is not on the `empty_tm()` day (true of every parsed start under `ParsesDates`), the report prints, in order, one total per maximal run of same-day starts, dated by the run's first start, leaving out exactly the runs whose total is zero |
| `Report.QuotRoundsTowardZero` | src/main.rs:175-176 | `Quot` is Rust's `/` on `i64` as `num_hours` and `num_minutes` use it: the quotient rounded toward zero, so q·b ≤ a < q·b + b for a ≥ 0 and q·b − b < a ≤ q·b for a < 0 |
| `Report.RemHasSignOfDividend` | src/main.rs:176 | `Rem` is Rust's `%` on `i64`: the remainder of `Quot` lies strictly between −b and b and has the sign of the dividend |
| `Report.PrintTimeWorked` | src/main.rs:172-177 | the printed line names the day it was given, with hours from `num_hours` and minutes from `num_minutes() % 60` |
| `Report.PrintedLineIsWholeMinutes` | src/main.rs:172-177 | hours and minutes together make the whole minutes of the total; minutes lie in 0..59 for a non-negative total and in -59..0 for a negative one; for a non-negative total, hours:minutes is the total rounded down to the minute |
| `Report.Printed` | src/main.rs:95-105 | one printed line per total, in order, each the hours and minutes of that total |
| `Report.MidnightSpanCountsForStartDay` | src/main.rs:92-101 | an interval of twenty minutes across midnight counts whole for the start day and prints as 0:20 |
| `Punch.Consistent` | src/main.rs:58-74 | the storage invariant the punches keep: records alternate `in:`/`out:` from an `in:`, and the marker exists exactly after an odd number of records; characterised by `MarkerMeansOpenRecord` and `ConsistentLogReports` |
| `Punch.DailyReport` | src/main.rs:84-107 | what `report_daily_hours` prints and the corruption that stops it: all daily totals for a clean replay, only the days flushed before the corruption otherwise; characterised by `ReportPrintsRunTotals` and `ReportDailyHours` |
| `Punch.ReportPrintsRunTotals` | src/main.rs:84-107 | when the parse yields only calendar dates, a clean log prints, in order, the non-zero total of every maximal run of same-day starts, dated by its first start; a corrupt log prints those of every run but the one in progress, and nothing when no interval came before the corruption |
| `Punch.MarkerMeansOpenRecord` | src/main.rs:58-74 | in consistent storage the marker exists exactly when the last record of the timesheet is an `in:` record |
| `Punch.ConsistentLogReports` | src/main.rs:58-107 | in consistent storage, the marker exists exactly when the last record is an `in:`; the replay fails only on a timestamp; a clean replay yields one interval per punch-in, prints no zero total, and its printed totals add up to all the time worked |
| `Punch.TimeClock.constructor` | src/main.rs:36-54 | the clock starts from the stored timesheet, and `currently_working` is whether the marker exists |
| `Punch.TimeClock.Valid` | src/main.rs:50 | the flag agrees with the marker and the storage is consistent; `PunchIn`, `PunchOut` and `Dispatch` keep it |
| `Punch.TimeClock.PunchIn` | src/main.rs:58-65 | when already working it fails and changes nothing; otherwise it appends exactly one `in: <stamp>` record after the earlier ones, sets the flag and creates the marker; it keeps the consistency invariant |
| `Punch.TimeClock.PunchOut` | src/main.rs:67-74 | when not working it fails and changes nothing; otherwise it appends exactly one `out: <stamp>` record, clears the flag and removes the marker; it keeps the consistency invariant |
| `Punch.TimeClock.Status` | src/main.rs:76-82 | reports whether the clock is working and changes neither the log nor the flag |
| `Punch.TimeClock.ReportDailyHours` | src/main.rs:84-107 | the loop over the interval iterator prints exactly the daily totals of the replayed intervals; on a corruption it returns that error after printing only the days completed before it, without the day in progress |
| `Punch.ReportMovesOn` | src/main.rs:91-102 | one turn of the report loop keeps its state: the interval moves from the iterator's rest to the intervals seen, the day in progress is printed exactly when the interval starts another day and that day's total is non-zero, and the day and total become those of `Turn` |
| `Punch.ReportStopsAt` | src/main.rs:91 | when the iterator stops at a corruption, the report is the lines already printed, with that corruption |
| `Punch.ReportEnds` | src/main.rs:104-106 | when the iterator ends cleanly, the report is the lines already printed followed by the day in progress when its total is non-zero |
| `Punch.TimeClock.SetCurrentWorkingState` | src/main.rs:111-118 | sets the flag and makes the marker's existence match it, leaving the timesheet alone |
| `Punch.Dispatch` | src/main.rs:12-26 | no command and an unknown command fail and leave the `Disk` unchanged; `in`, `out`, `status` and `report` act as their methods do; every command keeps consistent storage consistent |

## Left out

- The filesystem is replaced by a `Disk` value: the timesheet's lines and the marker's existence. This covers the home directory lookup, the creation of `~/.punch`, opening the log, seeking, creating and unlinking the marker, and the buffered reader. A failure of any of these (the `unwrap` on an I/O result and the "Weird IO error" arms) is not modelled.
- The clock, the RFC 822 rendering and the RFC 822 parsing are parameters. `now_utc()` becomes a `now: Tm` parameter. The rendering of the start-up time (`rfc822()`) becomes the `stamp` string given to the clock. `strptime` becomes a `parse` function that may fail. The calendar formatting of a printed day (`strftime`) is not modelled: a `DayLine` carries the day's `Tm`.
- A `Tm` keeps only year, month, day of month and epoch seconds. The sub-second part of `now_utc()` is dropped, so durations are whole seconds. A total of less than a second is therefore zero here, while the source would print it as `0:0`.
- `ParsesDates` states the range of the parse's day-of-month field (1 to 31) as an assumption about the `parse` parameter, since `strptime` is not modelled; the per-run description of the report (`ReportPrintsRunTotals`) holds under it.
- Strings are sequences of characters. The byte slicing of the source, which panics when the last character of a payload is not one byte, is not modelled.
- Integers are unbounded: an overflow of the 64-bit duration arithmetic is not modelled.
- `size_hint` of the iterator and the text of the messages are left out. The process exit status is left out too.
- Two program runs against the same storage at once (the race on the marker and the log) are out of scope, as the source does not lock.

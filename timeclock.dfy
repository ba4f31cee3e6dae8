/**
 * The time clock: punching in and out, the status query, the daily report,
 * and the command dispatch of the program's entry point.
 *
 * The storage root is modelled by its contents: the lines of the timesheet
 * file and whether the state marker file exists.
 */
module Punch {

  import opened Times
  import opened Timesheet
  import opened Report

  /** What the storage root holds: the timesheet's lines and the existence of the state marker. */
  datatype Disk = Disk(timesheet: seq<string>, marker: bool)

  /** Why a command fails (each is a panic in the source). */
  datatype Error =
    | NoCommand
    | UnknownCommand
    | AlreadyWorking         // "You're already working"
    | NotWorking             // "Can't punch out if you're not working!"
    | Corrupt(c: Corruption) // "Bad data in timesheet!" or a timestamp that does not parse

  /** What a command prints. */
  datatype Output =
    | Silent
    | StatusLine(working: bool)    // "You're punched in" / "You're punched out"
    | DayLines(lines: seq<DayLine>)

  /** The result of one run of the program: the storage afterwards, what it printed, how it failed. */
  datatype Effect = Effect(disk: Disk, output: Output, error: Option<Error>)

  /**
   * The storage is consistent: the log alternates "in"/"out" starting with "in",
   * and the marker exists exactly when the log ends in an unmatched "in".
   */
  predicate Consistent(d: Disk) {
    Alternates(d.timesheet) && d.marker == (|d.timesheet| % 2 == 1)
  }

  /**
   * What `report_daily_hours` prints for a log, and the corruption that stops
   * it: the days completed before a corruption are printed, the day in progress
   * is not.
   */
  function DailyReport(log: seq<string>, now: Tm, parse: string -> Option<Tm>): (seq<DayLine>, Option<Corruption>) {
    var r := Reconstruct(log, now, parse);
    (Printed(if r.failure == None then DailyTotals(r.intervals) else Scan(r.intervals).emitted), r.failure)
  }

  /** In consistent storage the marker exists exactly when the last record is a punch-in. */
  lemma MarkerMeansOpenRecord(d: Disk)
    requires Consistent(d)
    ensures d.marker <==> |d.timesheet| > 0 && StartsWith(d.timesheet[|d.timesheet| - 1], IN_PREFIX)
  {
    var log := d.timesheet;
    if |log| > 0 {
      var n := |log| - 1;
      assert StartsWith(log[n], PrefixAt(n));
      if n % 2 == 1 {
        OutRecordIsNoIn(log[n]);
      }
    }
  }

  /**
   * A consistent log reports without a prefix corruption. When its timestamps
   * all parse, it yields one interval per punch-in, every printed total is
   * non-zero, and the printed totals add up to all the time worked.
   */
  lemma ConsistentLogReports(d: Disk, now: Tm, parse: string -> Option<Tm>)
    requires Consistent(d)
    ensures d.marker <==> |d.timesheet| > 0 && StartsWith(d.timesheet[|d.timesheet| - 1], IN_PREFIX)
    ensures Reconstruct(d.timesheet, now, parse).failure == None ||
            Reconstruct(d.timesheet, now, parse).failure.value.BadTime?
    ensures Reconstruct(d.timesheet, now, parse).failure == None ==>
      |Reconstruct(d.timesheet, now, parse).intervals| == (|d.timesheet| + 1) / 2
    ensures Reconstruct(d.timesheet, now, parse).failure == None ==>
      SumWorked(DailyTotals(Reconstruct(d.timesheet, now, parse).intervals)) ==
      TotalWorked(Reconstruct(d.timesheet, now, parse).intervals)
    ensures Reconstruct(d.timesheet, now, parse).failure == None ==>
      NoZeroTotal(DailyTotals(Reconstruct(d.timesheet, now, parse).intervals))
  {
    MarkerMeansOpenRecord(d);
    var ivs := Reconstruct(d.timesheet, now, parse).intervals;
    AlternatingLogHasNoPrefixError(d.timesheet, now, parse);
    DailyTotalsAddUp(ivs);
    DailyTotalsNonZero(ivs);
  }

  /**
   * What the report prints, in terms of the runs of same-day starts: a clean
   * log prints the non-zero total of every run, in order, each dated by the
   * run's first start; a log stopped by a corruption prints those of every run
   * but the last, which was still in progress. This needs the parse to accept
   * only calendar dates, so that no start falls on the `empty_tm()` day.
   */
  lemma ReportPrintsRunTotals(log: seq<string>, now: Tm, parse: string -> Option<Tm>)
    requires ParsesDates(parse)
    ensures var r := Reconstruct(log, now, parse);
      r.failure == None ==> DailyReport(log, now, parse).0 == Printed(NonZeroTotals(Runs(r.intervals)))
    ensures var r := Reconstruct(log, now, parse);
      r.failure.Some? && r.intervals == [] ==> DailyReport(log, now, parse).0 == []
    ensures var r := Reconstruct(log, now, parse);
      r.failure.Some? && r.intervals != [] ==>
        DailyReport(log, now, parse).0 == Printed(NonZeroTotals(AllButLast(Runs(r.intervals))))
  {
    var r := Reconstruct(log, now, parse);
    var ivs := r.intervals;
    if ivs != [] {
      ReplayedStartsAreDates(log, now, parse);
      SentinelIsNoDay(ivs[0].start);
      if r.failure == None {
        DailyTotalsAreRunTotals(ivs);
      } else {
        ScanFollowsRuns(ivs);
      }
    }
  }

  /** A record that starts with "out: " does not start with "in: ". */
  lemma OutRecordIsNoIn(line: string)
    requires StartsWith(line, OUT_PREFIX)
    ensures !StartsWith(line, IN_PREFIX)
  {
    assert line[0] == OUT_PREFIX[0] == 'o';
    assert IN_PREFIX[0] == 'i';
  }

  /**
   * Where the report loop stands once the intervals `seen` are behind it: the
   * whole replay is `seen` followed by what the iterator has still to give
   * (`rest`), the totals of the finished days are `emitted` and were printed as
   * `lines`, and `day` is the day in progress with `worked` its total so far.
   */
  ghost predicate ReportSoFar(whole: Replay, seen: seq<Interval>, rest: Replay,
                              emitted: seq<DayTotal>, day: Tm, worked: int, lines: seq<DayLine>) {
    && whole == Replay(seen + rest.intervals, rest.failure)
    && Scan(seen) == Tally(emitted, day, worked)
    && lines == Printed(emitted)
  }

  /**
   * One turn of the loop: taking the next interval from the iterator moves it
   * to `seen`; the day in progress is printed when the interval starts another
   * day and the day's total is non-zero.
   */
  lemma ReportMovesOn(whole: Replay, seen: seq<Interval>, before: Replay, iv: Interval, after: Replay,
                      emitted: seq<DayTotal>, day: Tm, worked: int, lines: seq<DayLine>)
    requires ReportSoFar(whole, seen, before, emitted, day, worked, lines)
    requires before == Replay([iv] + after.intervals, after.failure)
    ensures var t := Turn(Tally(emitted, day, worked), iv);
      ReportSoFar(whole, seen + [iv], after, t.emitted, t.day, t.worked,
                  if !SameDay(iv.start, day) && worked != 0 then lines + [PrintTimeWorked(worked, day)] else lines)
  {
    assert seen + ([iv] + after.intervals) == (seen + [iv]) + after.intervals;
    ScanAppend(seen, iv);
    if !SameDay(iv.start, day) && worked != 0 {
      PrintedAppend(emitted, DayTotal(day, worked));
    }
  }

  /** When the iterator stops at a corruption, the lines printed so far are the whole report. */
  lemma ReportStopsAt(log: seq<string>, now: Tm, parse: string -> Option<Tm>, whole: Replay, seen: seq<Interval>,
                      c: Corruption, emitted: seq<DayTotal>, day: Tm, worked: int, lines: seq<DayLine>)
    requires whole == Reconstruct(log, now, parse)
    requires ReportSoFar(whole, seen, Replay([], Some(c)), emitted, day, worked, lines)
    ensures DailyReport(log, now, parse) == (lines, Some(c))
  {
    assert seen + [] == seen;
  }

  /** When the iterator ends cleanly, the report is the lines so far and the day in progress when non-zero. */
  lemma ReportEnds(log: seq<string>, now: Tm, parse: string -> Option<Tm>, whole: Replay, seen: seq<Interval>,
                   emitted: seq<DayTotal>, day: Tm, worked: int, lines: seq<DayLine>)
    requires whole == Reconstruct(log, now, parse)
    requires ReportSoFar(whole, seen, Replay([], None), emitted, day, worked, lines)
    ensures DailyReport(log, now, parse) == (if worked != 0 then lines + [PrintTimeWorked(worked, day)] else lines, None)
  {
    assert seen + [] == seen;
    if worked != 0 {
      PrintedAppend(emitted, DayTotal(day, worked));
    }
  }

  /**
   * The clock of one program run (`TimeClock`): the timesheet it appends to,
   * the `currently_working` flag read from the marker at start-up, and the
   * marker itself. `stamp` is the start-up time rendered in the RFC 822 layout.
   */
  class TimeClock {
    const stamp: string
    var timesheet: seq<string>
    var currentlyWorking: bool
    var marker: bool

    /** `TimeClock::new`: the flag is whether the marker exists. */
    constructor (disk: Disk, stamp: string)
      ensures this.stamp == stamp
      ensures timesheet == disk.timesheet && marker == disk.marker
      ensures currentlyWorking == disk.marker
    {
      this.stamp := stamp;
      timesheet := disk.timesheet;
      marker := disk.marker;
      currentlyWorking := disk.marker;
    }

    /** The flag and the marker agree, and the storage is consistent. */
    ghost predicate Valid()
      reads this
    {
      currentlyWorking == marker && Consistent(Disk(timesheet, marker))
    }

    /** `punch_in`: fails when already working; otherwise appends "in: <now>" and sets the flag. */
    method PunchIn() returns (error: Option<Error>)
      modifies this
      ensures old(currentlyWorking) ==> error == Some(AlreadyWorking) && unchanged(this)
      ensures !old(currentlyWorking) ==>
        && error == None
        && timesheet == old(timesheet) + [InRecord(stamp)]
        && currentlyWorking && marker
      ensures old(Valid()) ==> Valid()
    {
      if currentlyWorking {
        return Some(AlreadyWorking);
      }
      if Valid() {
        AppendKeepsAlternation(timesheet, stamp);
      }
      timesheet := timesheet + [InRecord(stamp)];
      SetCurrentWorkingState(true);
      error := None;
    }

    /** `punch_out`: fails when not working; otherwise appends "out: <now>" and clears the flag. */
    method PunchOut() returns (error: Option<Error>)
      modifies this
      ensures !old(currentlyWorking) ==> error == Some(NotWorking) && unchanged(this)
      ensures old(currentlyWorking) ==>
        && error == None
        && timesheet == old(timesheet) + [OutRecord(stamp)]
        && !currentlyWorking && !marker
      ensures old(Valid()) ==> Valid()
    {
      if !currentlyWorking {
        return Some(NotWorking);
      }
      if Valid() {
        AppendKeepsAlternation(timesheet, stamp);
      }
      timesheet := timesheet + [OutRecord(stamp)];
      SetCurrentWorkingState(false);
      error := None;
    }

    /** `status`: reports the flag and changes nothing. */
    method Status() returns (working: bool)
      ensures working == currentlyWorking
    {
      working := currentlyWorking;
    }

    /**
     * `report_daily_hours`: replays the timesheet and prints, day by day, the
     * time worked; a corruption stops it after the days already printed.
     * `now` is the clock reading the iterator takes for an open interval.
     */
    method ReportDailyHours(now: Tm, parse: string -> Option<Tm>) returns (lines: seq<DayLine>, failure: Option<Corruption>)
      ensures (lines, failure) == DailyReport(timesheet, now, parse)
    {
      var intervals := new IntervalIter(timesheet, now, parse);
      var currentDay := EMPTY_TM;
      var workedToday := 0;
      lines := [];
      ghost var whole := Reconstruct(timesheet, now, parse);
      ghost var seen: seq<Interval> := [];
      ghost var emitted: seq<DayTotal> := [];
      while true
        invariant intervals.Valid()
        invariant intervals.lines == timesheet && intervals.now == now && intervals.parse == parse
        invariant ReportSoFar(whole, seen, intervals.rest, emitted, currentDay, workedToday, lines)
        decreases |timesheet| - intervals.pos
      {
        ghost var before := intervals.rest;
        var step := intervals.Next();
        match step {
          case Done =>
            break;
          case Failed(c) =>
            ReportStopsAt(timesheet, now, parse, whole, seen, c, emitted, currentDay, workedToday, lines);
            return lines, Some(c);
          case Item(iv) =>
            ReportMovesOn(whole, seen, before, iv, intervals.rest, emitted, currentDay, workedToday, lines);
            ghost var t := Turn(Tally(emitted, currentDay, workedToday), iv);
            if !SameDay(iv.start, currentDay) {
              if workedToday != 0 {
                lines := lines + [PrintTimeWorked(workedToday, currentDay)];
              }
              currentDay := iv.start;
              workedToday := 0;
            }
            workedToday := workedToday + Duration(iv);
            seen := seen + [iv];
            emitted := t.emitted;
        }
      }
      ReportEnds(timesheet, now, parse, whole, seen, emitted, currentDay, workedToday, lines);
      if workedToday != 0 {
        lines := lines + [PrintTimeWorked(workedToday, currentDay)];
      }
      failure := None;
    }

    /** `set_current_working_state`: sets the flag and creates or removes the marker to match. */
    method SetCurrentWorkingState(working: bool)
      modifies this
      ensures currentlyWorking == working && marker == working
      ensures timesheet == old(timesheet)
    {
      currentlyWorking := working;
      marker := working;
    }
  }

  /**
   * The program's entry point: `args[1]` names the command. The clock is set up
   * from the storage, then "in", "out", "status" or "report" runs; anything else
   * fails. `stamp` is the start-up time in the RFC 822 layout, `now` the time
   * the report takes for an open interval, `parse` the RFC 822 timestamp parse.
   */
  method Dispatch(args: seq<string>, disk: Disk, stamp: string, now: Tm, parse: string -> Option<Tm>) returns (effect: Effect)
    ensures |args| < 2 ==> effect == Effect(disk, Silent, Some(NoCommand))
    ensures |args| >= 2 && args[1] !in {"in", "out", "status", "report"} ==>
      effect == Effect(disk, Silent, Some(UnknownCommand))
    ensures |args| >= 2 && args[1] == "in" ==>
      effect == if disk.marker then Effect(disk, Silent, Some(AlreadyWorking))
                else Effect(Disk(disk.timesheet + [InRecord(stamp)], true), Silent, None)
    ensures |args| >= 2 && args[1] == "out" ==>
      effect == if !disk.marker then Effect(disk, Silent, Some(NotWorking))
                else Effect(Disk(disk.timesheet + [OutRecord(stamp)], false), Silent, None)
    ensures |args| >= 2 && args[1] == "status" ==> effect == Effect(disk, StatusLine(disk.marker), None)
    ensures |args| >= 2 && args[1] == "report" ==>
      var (lines, failure) := DailyReport(disk.timesheet, now, parse);
      effect == Effect(disk, DayLines(lines), if failure == None then None else Some(Corrupt(failure.value)))
    ensures Consistent(disk) ==> Consistent(effect.disk)
  {
    if |args| < 2 {
      return Effect(disk, Silent, Some(NoCommand));
    }
    var clock := new TimeClock(disk, stamp);
    var command := args[1];
    if command == "in" {
      var error := clock.PunchIn();
      effect := Effect(Disk(clock.timesheet, clock.marker), Silent, error);
    } else if command == "out" {
      var error := clock.PunchOut();
      effect := Effect(Disk(clock.timesheet, clock.marker), Silent, error);
    } else if command == "status" {
      var working := clock.Status();
      effect := Effect(Disk(clock.timesheet, clock.marker), StatusLine(working), None);
    } else if command == "report" {
      var lines, failure := clock.ReportDailyHours(now, parse);
      var error := if failure == None then None else Some(Corrupt(failure.value));
      effect := Effect(Disk(clock.timesheet, clock.marker), DayLines(lines), error);
    } else {
      effect := Effect(disk, Silent, Some(UnknownCommand));
    }
  }
}

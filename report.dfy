/**
 * The daily report: working intervals rolled up into one total per run of
 * intervals that start on the same calendar day, printed as hours and minutes.
 */
module Report {

  import opened Times

  /** The total worked on one day, as `print_time_worked` receives it. */
  datatype DayTotal = DayTotal(day: Tm, worked: int)

  /** The state of the report loop: the totals printed so far, `current_day` and `time_worked_today`. */
  datatype Tally = Tally(emitted: seq<DayTotal>, day: Tm, worked: int)

  /** Before the first interval: nothing printed, the sentinel day, nothing worked. */
  const START: Tally := Tally([], EMPTY_TM, 0)

  /**
   * One turn of the report loop: an interval whose start falls on another day
   * flushes the running total (when non-zero) and opens that day; the
   * interval's whole duration goes to the day of its start.
   */
  function Turn(t: Tally, iv: Interval): Tally {
    if !SameDay(iv.start, t.day) then
      Tally(if t.worked != 0 then t.emitted + [DayTotal(t.day, t.worked)] else t.emitted, iv.start, Duration(iv))
    else
      Tally(t.emitted, t.day, t.worked + Duration(iv))
  }

  /** The loop state after the given intervals. */
  function Scan(ivs: seq<Interval>): Tally
    decreases |ivs|
  {
    if ivs == [] then START else Turn(Scan(ivs[..|ivs| - 1]), ivs[|ivs| - 1])
  }

  /** After the loop: the last day is printed too when its total is non-zero. */
  function Flush(t: Tally): seq<DayTotal> {
    if t.worked != 0 then t.emitted + [DayTotal(t.day, t.worked)] else t.emitted
  }

  /** Every total the report prints for a log that replays without corruption. */
  function DailyTotals(ivs: seq<Interval>): seq<DayTotal> {
    Flush(Scan(ivs))
  }

  lemma ScanAppend(ivs: seq<Interval>, iv: Interval)
    ensures Scan(ivs + [iv]) == Turn(Scan(ivs), iv)
  {
    assert (ivs + [iv])[..|ivs|] == ivs;
  }

  /** The sum of the durations of the intervals. */
  function TotalWorked(ivs: seq<Interval>): int
    decreases |ivs|
  {
    if ivs == [] then 0 else TotalWorked(ivs[..|ivs| - 1]) + Duration(ivs[|ivs| - 1])
  }

  /** The sum of printed totals. */
  function SumWorked(ts: seq<DayTotal>): int
    decreases |ts|
  {
    if ts == [] then 0 else SumWorked(ts[..|ts| - 1]) + ts[|ts| - 1].worked
  }

  lemma SumWorkedAppend(ts: seq<DayTotal>, d: DayTotal)
    ensures SumWorked(ts + [d]) == SumWorked(ts) + d.worked
  {
    assert (ts + [d])[..|ts|] == ts;
  }

  /** The loop keeps the work it has seen: what it printed plus what it holds is all of it. */
  lemma {:induction false} ScanKeepsTotal(ivs: seq<Interval>)
    ensures SumWorked(Scan(ivs).emitted) + Scan(ivs).worked == TotalWorked(ivs)
    decreases |ivs|
  {
    if ivs != [] {
      var init := ivs[..|ivs| - 1];
      ScanKeepsTotal(init);
      var t := Scan(init);
      if t.worked != 0 {
        SumWorkedAppend(t.emitted, DayTotal(t.day, t.worked));
      }
    }
  }

  /** The totals printed add up to all the time in the intervals: days left out had a zero total. */
  lemma DailyTotalsAddUp(ivs: seq<Interval>)
    ensures SumWorked(DailyTotals(ivs)) == TotalWorked(ivs)
  {
    ScanKeepsTotal(ivs);
    var t := Scan(ivs);
    if t.worked != 0 {
      SumWorkedAppend(t.emitted, DayTotal(t.day, t.worked));
    }
  }

  predicate NoZeroTotal(ts: seq<DayTotal>) {
    forall k :: 0 <= k < |ts| ==> ts[k].worked != 0
  }

  /** No printed total is zero: a day whose intervals sum to nothing prints no line. */
  lemma {:induction false} DailyTotalsNonZero(ivs: seq<Interval>)
    ensures NoZeroTotal(Scan(ivs).emitted)
    ensures NoZeroTotal(DailyTotals(ivs))
    decreases |ivs|
  {
    if ivs != [] {
      DailyTotalsNonZero(ivs[..|ivs| - 1]);
    }
  }

  /** The concatenation of runs of intervals. */
  function Concat(rs: seq<seq<Interval>>): seq<Interval>
    decreases |rs|
  {
    if rs == [] then [] else Concat(rs[..|rs| - 1]) + rs[|rs| - 1]
  }

  /**
   * Adds one interval to runs of intervals: it joins the last run when it
   * starts on that run's day, and opens a new run otherwise.
   */
  function Extend(rs: seq<seq<Interval>>, iv: Interval): (more: seq<seq<Interval>>)
    requires rs == [] || rs[|rs| - 1] != []
    ensures more != [] && more[|more| - 1] != []
    ensures (forall k :: 0 <= k < |rs| ==> rs[k] != []) ==> forall k :: 0 <= k < |more| ==> more[k] != []
  {
    if rs != [] && SameDay(iv.start, rs[|rs| - 1][0].start) then
      rs[..|rs| - 1] + [rs[|rs| - 1] + [iv]]
    else
      rs + [[iv]]
  }

  /**
   * The intervals cut into maximal runs whose starts fall on the same day: the
   * grouping the report intends, defined without the loop.
   */
  function Runs(ivs: seq<Interval>): (rs: seq<seq<Interval>>)
    ensures |rs| == 0 <==> |ivs| == 0
    ensures forall k :: 0 <= k < |rs| ==> rs[k] != []
    decreases |ivs|
  {
    if ivs == [] then [] else Extend(Runs(ivs[..|ivs| - 1]), ivs[|ivs| - 1])
  }

  lemma ConcatSnoc(rs: seq<seq<Interval>>, run: seq<Interval>)
    ensures Concat(rs + [run]) == Concat(rs) + run
  {
    assert (rs + [run])[..|rs|] == rs;
  }

  lemma ConcatExtend(rs: seq<seq<Interval>>, iv: Interval)
    requires rs == [] || rs[|rs| - 1] != []
    ensures Concat(Extend(rs, iv)) == Concat(rs) + [iv]
  {
    if rs != [] && SameDay(iv.start, rs[|rs| - 1][0].start) {
      ConcatJoin(rs[..|rs| - 1], rs[|rs| - 1], iv);
    } else {
      ConcatSnoc(rs, [iv]);
    }
  }

  lemma ConcatJoin(front: seq<seq<Interval>>, run: seq<Interval>, iv: Interval)
    ensures Concat(front + [run + [iv]]) == Concat(front) + run + [iv]
  {
    ConcatSnoc(front, run + [iv]);
    assert Concat(front) + (run + [iv]) == Concat(front) + run + [iv];
  }

  /** Concatenating the runs gives back the intervals, in order. */
  lemma {:induction false} RunsPartition(ivs: seq<Interval>)
    ensures Concat(Runs(ivs)) == ivs
    decreases |ivs|
  {
    if ivs != [] {
      var init := ivs[..|ivs| - 1];
      RunsPartition(init);
      ConcatExtend(Runs(init), ivs[|ivs| - 1]);
      assert ivs == init + [ivs[|ivs| - 1]];
    }
  }

  /** A grouping in which each group holds starts of one day only: that of the group's first start. */
  predicate EachRunOneDay(rs: seq<seq<Interval>>) {
    forall k, j :: 0 <= k < |rs| && 0 <= j < |rs[k]| ==> SameDay(rs[k][j].start, rs[k][0].start)
  }

  /** Neighbouring runs start on different days. */
  predicate NeighboursDiffer(rs: seq<seq<Interval>>)
    requires forall k :: 0 <= k < |rs| ==> rs[k] != []
  {
    forall k :: 0 <= k < |rs| - 1 ==> !SameDay(rs[k + 1][0].start, rs[k][0].start)
  }

  /** `Runs` groups only same-day starts: every interval of a run starts on the day of the run's first start. */
  lemma {:induction false} RunsShareTheirDay(ivs: seq<Interval>)
    ensures EachRunOneDay(Runs(ivs))
    decreases |ivs|
  {
    if ivs != [] {
      var init := ivs[..|ivs| - 1];
      RunsShareTheirDay(init);
      ExtendKeepsOneDay(Runs(init), ivs[|ivs| - 1]);
    }
  }

  lemma ExtendKeepsOneDay(rs: seq<seq<Interval>>, iv: Interval)
    requires (rs == [] || rs[|rs| - 1] != []) && EachRunOneDay(rs)
    ensures EachRunOneDay(Extend(rs, iv))
  {
    var more: seq<seq<Interval>> := Extend(rs, iv);
    var m := |rs| - 1;
    var joined := rs != [] && SameDay(iv.start, rs[m][0].start);
    forall k, j | 0 <= k < |more| && 0 <= j < |more[k]|
      ensures SameDay(more[k][j].start, more[k][0].start)
    {
      if k < m || (k == m && !joined) {
        assert more[k] == rs[k];
      } else if !joined {
        assert more[k] == [iv];
      } else if j < |rs[m]| {
        assert more[k] == rs[m] + [iv];
        assert more[k][j] == rs[m][j] && more[k][0] == rs[m][0];
      } else {
        assert more[k] == rs[m] + [iv];
        assert more[k][j] == iv && more[k][0] == rs[m][0];
      }
    }
  }

  /** Neighbouring runs start on different days: the runs are maximal. */
  lemma {:induction false} RunsAreMaximal(ivs: seq<Interval>)
    ensures NeighboursDiffer(Runs(ivs))
    decreases |ivs|
  {
    if ivs != [] {
      var init := ivs[..|ivs| - 1];
      RunsAreMaximal(init);
      ExtendKeepsNeighboursApart(Runs(init), ivs[|ivs| - 1]);
    }
  }

  lemma ExtendKeepsNeighboursApart(rs: seq<seq<Interval>>, iv: Interval)
    requires forall k :: 0 <= k < |rs| ==> rs[k] != []
    requires NeighboursDiffer(rs)
    ensures NeighboursDiffer(Extend(rs, iv))
  {
    var more: seq<seq<Interval>> := Extend(rs, iv);
    var m := |rs| - 1;
    if rs != [] && SameDay(iv.start, rs[m][0].start) {
      forall k | 0 <= k < |more| - 1
        ensures !SameDay(more[k + 1][0].start, more[k][0].start)
      {
        assert more[k] == rs[k];
        assert more[k + 1][0] == rs[k + 1][0];
      }
    } else {
      forall k | 0 <= k < |more| - 1
        ensures !SameDay(more[k + 1][0].start, more[k][0].start)
      {
        assert more[k] == rs[k];
        if k + 1 < |rs| {
          assert more[k + 1] == rs[k + 1];
        } else {
          assert more[k + 1][0] == iv;
        }
      }
    }
  }

  /** The total of each run of intervals, first start as its day, keeping only the non-zero ones. */
  function NonZeroTotals(rs: seq<seq<Interval>>): seq<DayTotal>
    decreases |rs|
  {
    if rs == [] then []
    else
      var last := rs[|rs| - 1];
      NonZeroTotals(rs[..|rs| - 1]) +
      if last != [] && TotalWorked(last) != 0 then [DayTotal(last[0].start, TotalWorked(last))] else []
  }

  /** Every run but the last. */
  function AllButLast(rs: seq<seq<Interval>>): seq<seq<Interval>>
    requires rs != []
  {
    rs[..|rs| - 1]
  }

  /**
   * The loop state that has printed the non-zero totals of every run but the
   * last, and holds the last run's first start and total.
   */
  function Following(rs: seq<seq<Interval>>): Tally
    requires rs != [] && rs[|rs| - 1] != []
  {
    Tally(NonZeroTotals(AllButLast(rs)), rs[|rs| - 1][0].start, TotalWorked(rs[|rs| - 1]))
  }

  lemma TotalOfOne(iv: Interval)
    ensures TotalWorked([iv]) == Duration(iv)
  {
    assert [iv][..0] == [];
  }

  /** One turn of the loop follows one extension of the runs. */
  lemma TurnFollowsExtend(rs: seq<seq<Interval>>, iv: Interval)
    requires rs != [] && rs[|rs| - 1] != []
    ensures Turn(Following(rs), iv) == Following(Extend(rs, iv))
  {
    var m := |rs| - 1;
    var more: seq<seq<Interval>> := Extend(rs, iv);
    TotalOfOne(iv);
    if SameDay(iv.start, rs[m][0].start) {
      assert more[..|more| - 1] == rs[..m];
      assert more[|more| - 1] == rs[m] + [iv];
      assert (rs[m] + [iv])[..|rs[m]|] == rs[m];
    } else {
      assert more[..|more| - 1] == rs;
      assert rs == rs[..m] + [rs[m]];
    }
  }

  /**
   * While the loop runs, it has printed the non-zero totals of every run but the
   * last, and holds the last run's first start and total.
   */
  lemma {:induction false} ScanFollowsRuns(ivs: seq<Interval>)
    requires ivs != [] && !SameDay(ivs[0].start, EMPTY_TM)
    ensures Scan(ivs) == Following(Runs(ivs))
    decreases |ivs|
  {
    var init := ivs[..|ivs| - 1];
    var last := ivs[|ivs| - 1];
    if init == [] {
      assert Scan(init) == START;
      assert last == ivs[0];
      assert Runs(ivs) == [[last]];
      TotalOfOne(last);
    } else {
      assert init[0] == ivs[0];
      ScanFollowsRuns(init);
      TurnFollowsExtend(Runs(init), last);
    }
  }

  /**
   * The report prints, in order, one total per maximal run of same-day starts,
   * leaving out the runs whose total is zero. This needs the first start to be a
   * real date (the `empty_tm()` sentinel is day 0, which no parsed date is).
   */
  lemma DailyTotalsAreRunTotals(ivs: seq<Interval>)
    requires ivs != [] ==> !SameDay(ivs[0].start, EMPTY_TM)
    ensures DailyTotals(ivs) == NonZeroTotals(Runs(ivs))
  {
    if ivs != [] {
      ScanFollowsRuns(ivs);
      var rs: seq<seq<Interval>> := Runs(ivs);
      assert rs == rs[..|rs| - 1] + [rs[|rs| - 1]];
    }
  }

  /** A printed report line: the day and the time worked as hours and minutes. */
  datatype DayLine = DayLine(day: Tm, hours: int, minutes: int)

  /** Integer division rounding toward zero, as Rust's `/` on `i64`. */
  function Quot(a: int, b: int): int
    requires b > 0
  {
    if a >= 0 then a / b else -((-a) / b)
  }

  /** The remainder of `Quot`, with the sign of `a`, as Rust's `%` on `i64`. */
  function Rem(a: int, b: int): int
    requires b > 0
  {
    a - Quot(a, b) * b
  }

  /** `Quot` rounds toward zero: down for a non-negative dividend, up for a negative one. */
  lemma QuotRoundsTowardZero(a: int, b: int)
    requires b > 0
    ensures a >= 0 ==> Quot(a, b) * b <= a < Quot(a, b) * b + b
    ensures a < 0 ==> Quot(a, b) * b - b < a <= Quot(a, b) * b
  {
  }

  /** `Rem` is smaller than the divisor in size and has the sign of the dividend. */
  lemma RemHasSignOfDividend(a: int, b: int)
    requires b > 0
    ensures -b < Rem(a, b) < b
    ensures a >= 0 ==> Rem(a, b) >= 0
    ensures a <= 0 ==> Rem(a, b) <= 0
  {
    QuotRoundsTowardZero(a, b);
  }

  lemma QuotOfQuot(a: int)
    ensures Quot(Quot(a, 60), 60) == Quot(a, 3600)
  {
    if a >= 0 {
      assert a / 60 / 60 == a / 3600;
    } else {
      assert (-a) / 60 / 60 == (-a) / 3600;
    }
  }

  /** `print_time_worked`: hours are `num_hours()` and minutes `num_minutes() % 60`. */
  function PrintTimeWorked(total: int, day: Tm): (line: DayLine)
    ensures line.day == day
  {
    DayLine(day, Quot(total, 3600), Rem(Quot(total, 60), 60))
  }

  /**
   * The two fields of a printed line together are the whole minutes of the
   * total; the minutes stay below 60 in size and carry the sign of the total.
   */
  lemma PrintedLineIsWholeMinutes(total: int, day: Tm)
    ensures var line := PrintTimeWorked(total, day);
      && line.hours * 60 + line.minutes == Quot(total, 60)
      && (total >= 0 ==> 0 <= line.minutes < 60 && line.hours >= 0)
      && (total <= 0 ==> -60 < line.minutes <= 0 && line.hours <= 0)
      && (total >= 0 ==> line.hours * 3600 + line.minutes * 60 <= total < line.hours * 3600 + line.minutes * 60 + 60)
  {
    QuotOfQuot(total);
    RemHasSignOfDividend(Quot(total, 60), 60);
    QuotRoundsTowardZero(Quot(total, 60), 60);
  }

  /** The lines printed for a sequence of totals. */
  function Printed(ts: seq<DayTotal>): (lines: seq<DayLine>)
    ensures |lines| == |ts|
    ensures forall k :: 0 <= k < |ts| ==> lines[k] == PrintTimeWorked(ts[k].worked, ts[k].day)
    decreases |ts|
  {
    if ts == [] then [] else Printed(ts[..|ts| - 1]) + [PrintTimeWorked(ts[|ts| - 1].worked, ts[|ts| - 1].day)]
  }

  lemma PrintedAppend(ts: seq<DayTotal>, d: DayTotal)
    ensures Printed(ts + [d]) == Printed(ts) + [PrintTimeWorked(d.worked, d.day)]
  {
    assert (ts + [d])[..|ts|] == ts;
  }

  /**
   * An interval from shortly before midnight to shortly after is counted whole
   * on the day it starts: twenty minutes print as 0:20 for that day.
   */
  lemma MidnightSpanCountsForStartDay(start: Tm, end: Tm)
    requires IsCalendarDate(start) && !SameDay(start, end)
    requires end.epoch == start.epoch + 20 * 60
    ensures DailyTotals([Interval(start, end)]) == [DayTotal(start, 1200)]
    ensures Printed(DailyTotals([Interval(start, end)])) == [DayLine(start, 0, 20)]
  {
    var ivs := [Interval(start, end)];
    SentinelIsNoDay(start);
    assert ivs[..|ivs| - 1] == [];
    assert Scan(ivs) == Turn(START, ivs[0]);
    assert Scan(ivs) == Tally([], start, 1200);
  }
}

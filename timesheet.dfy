/**
 * The timesheet log and its replay into working intervals.
 *
 * The log is the sequence of lines of the timesheet file, each line with its
 * trailing newline, as the reader hands them over. A punch-in writes
 * "in: <timestamp>\n", a punch-out "out: <timestamp>\n". Replaying the log reads
 * the lines two at a time: a start line that must carry the "in: " prefix and an
 * end line that must carry "out: "; a missing end line means the interval is
 * still open and ends "now".
 *
 * A line's part in the replay depends only on the outcome of checking it (its
 * prefix, then its timestamp), so the replay is defined over the sequence of
 * those outcomes, one per line.
 */
module Timesheet {

  import opened Times

  /** Why a replay of the log stops: the source panics at the first such line. */
  datatype Corruption =
    | BadData(line: nat)   // the line lacks the prefix its position demands
    | BadTime(line: nat)   // the line's timestamp does not parse

  datatype Result<T> = Ok(value: T) | Err(error: Corruption)

  const IN_PREFIX: string := "in: "
  const OUT_PREFIX: string := "out: "

  predicate StartsWith(s: string, prefix: string) {
    |prefix| <= |s| && s[..|prefix|] == prefix
  }

  /**
   * The line a punch-in appends (`writeln!` of "in: {}"): it carries the "in: "
   * prefix and not the "out: " one, then the timestamp, then the newline.
   */
  function InRecord(stamp: string): (line: string)
    ensures StartsWith(line, IN_PREFIX) && !StartsWith(line, OUT_PREFIX)
    ensures |line| == |IN_PREFIX| + |stamp| + 1
    ensures line[|IN_PREFIX|..|line| - 1] == stamp && line[|line| - 1] == '\n'
  {
    var line := IN_PREFIX + stamp + "\n";
    assert line[..|IN_PREFIX|] == IN_PREFIX && line[0] == 'i';
    line
  }

  /**
   * The line a punch-out appends (`writeln!` of "out: {}"): it carries the
   * "out: " prefix and not the "in: " one, then the timestamp, then the newline.
   */
  function OutRecord(stamp: string): (line: string)
    ensures StartsWith(line, OUT_PREFIX) && !StartsWith(line, IN_PREFIX)
    ensures |line| == |OUT_PREFIX| + |stamp| + 1
    ensures line[|OUT_PREFIX|..|line| - 1] == stamp && line[|line| - 1] == '\n'
  {
    var line := OUT_PREFIX + stamp + "\n";
    assert line[..|OUT_PREFIX|] == OUT_PREFIX && line[0] == 'o';
    line
  }

  /**
   * `parse_time`: drops the last character of the payload (the newline) and
   * parses the rest with the RFC 822 layout. `parse` stands for that library
   * parse; an empty payload underflows `len() - 1` and panics like a failed parse.
   */
  function ParseTime(payload: string, parse: string -> Option<Tm>): Option<Tm> {
    if |payload| == 0 then None else parse(payload[..|payload| - 1])
  }

  /**
   * Every timestamp the RFC 822 parse accepts names a calendar day: the
   * day-of-month field of the layout takes the values 1 to 31 only.
   */
  ghost predicate ParsesDates(parse: string -> Option<Tm>) {
    forall s :: parse(s).Some? ==> IsCalendarDate(parse(s).value)
  }

  /** The prefix that line `i` of the log must carry: start lines sit at even positions. */
  function PrefixAt(i: nat): string {
    if i % 2 == 0 then IN_PREFIX else OUT_PREFIX
  }

  /** Checks the text of line `i`: its prefix first, then its timestamp. */
  function CheckRecord(line: string, i: nat, parse: string -> Option<Tm>): Result<Tm> {
    var prefix := PrefixAt(i);
    if !StartsWith(line, prefix) then Err(BadData(i))
    else match ParseTime(line[|prefix|..], parse)
      case None => Err(BadTime(i))
      case Some(t) => Ok(t)
  }

  /** The outcome of checking each line of the log, line by line. */
  function Checks(lines: seq<string>, parse: string -> Option<Tm>): seq<Result<Tm>> {
    seq(|lines|, j requires 0 <= j < |lines| => CheckRecord(lines[j], j, parse))
  }

  /**
   * A punch record at a position of its kind reads back as the timestamp that
   * was written into it: `parse_time` drops exactly the newline `writeln!` added.
   */
  lemma RecordsReadBack(stamp: string, i: nat, parse: string -> Option<Tm>)
    ensures var expected := match parse(stamp) case None => Err(BadTime(i)) case Some(t) => Ok(t);
      && (i % 2 == 0 ==> CheckRecord(InRecord(stamp), i, parse) == expected)
      && (i % 2 == 1 ==> CheckRecord(OutRecord(stamp), i, parse) == expected)
  {
    var rin := InRecord(stamp);
    assert rin[..|IN_PREFIX|] == IN_PREFIX;
    assert rin[|IN_PREFIX|..][..|stamp|] == stamp;
    var rout := OutRecord(stamp);
    assert rout[..|OUT_PREFIX|] == OUT_PREFIX;
    assert rout[|OUT_PREFIX|..][..|stamp|] == stamp;
  }

  /**
   * One call of `IntervalIter::next` on the pair starting at line `i`, given the
   * outcomes of the line checks: the start line counts before the end line; with
   * no end line the interval ends `now`.
   */
  function PairAt(cs: seq<Result<Tm>>, i: nat, now: Tm): Result<Interval>
    requires i < |cs|
  {
    match cs[i]
    case Err(c) => Err(c)
    case Ok(start) =>
      if i + 1 == |cs| then Ok(Interval(start, now))
      else match cs[i + 1]
        case Err(c) => Err(c)
        case Ok(end) => Ok(Interval(start, end))
  }

  /** What replaying (part of) a log yields: the intervals, then the corruption that stopped it, if any. */
  datatype Replay = Replay(intervals: seq<Interval>, failure: Option<Corruption>)

  /**
   * The intervals the iterator yields from line `i` on, up to the first
   * failing line.
   */
  function ReplayFrom(cs: seq<Result<Tm>>, i: nat, now: Tm): (r: Replay)
    ensures r.failure.Some? ==> i < |cs|
    decreases |cs| - i
  {
    if i >= |cs| then Replay([], None)
    else match PairAt(cs, i, now)
      case Err(c) => Replay([], Some(c))
      case Ok(iv) =>
        var rest := ReplayFrom(cs, i + 2, now);
        Replay([iv] + rest.intervals, rest.failure)
  }

  /**
   * Each interval takes two lines: with no line left the replay yields nothing
   * and no error, and a clean replay of the n lines left yields ceil(n / 2)
   * intervals.
   */
  lemma {:induction false} ReplayTakesTwoLinesEach(cs: seq<Result<Tm>>, i: nat, now: Tm)
    ensures i >= |cs| ==> ReplayFrom(cs, i, now) == Replay([], None)
    ensures i < |cs| && ReplayFrom(cs, i, now).failure == None ==>
      |ReplayFrom(cs, i, now).intervals| == (|cs| - i + 1) / 2
    decreases |cs| - i
  {
    if i < |cs| && PairAt(cs, i, now).Ok? {
      ReplayTakesTwoLinesEach(cs, i + 2, now);
    }
  }

  /** Replaying the whole log, as `report_daily_hours` does. */
  function Reconstruct(lines: seq<string>, now: Tm, parse: string -> Option<Tm>): Replay {
    ReplayFrom(Checks(lines, parse), 0, now)
  }

  /**
   * The interval `iv` is made of the pair of lines starting at line j: the
   * start from line j, the end from line j + 1, or `now` when there is none.
   */
  predicate PairMatches(cs: seq<Result<Tm>>, j: nat, iv: Interval, now: Tm) {
    && j < |cs|
    && cs[j] == Ok(iv.start)
    && if j + 1 < |cs| then cs[j + 1] == Ok(iv.end) else iv.end == now
  }

  /**
   * Interval k of a replay from line i is made of lines i + 2k and i + 2k + 1;
   * only an interval without an end line (the last one of an odd-length log)
   * ends `now`.
   */
  lemma {:induction false} ReplayPairsLines(cs: seq<Result<Tm>>, i: nat, k: nat, now: Tm)
    requires k < |ReplayFrom(cs, i, now).intervals|
    ensures PairMatches(cs, i + 2 * k, ReplayFrom(cs, i, now).intervals[k], now)
    decreases k
  {
    var r := ReplayFrom(cs, i, now);
    var rest := ReplayFrom(cs, i + 2, now);
    assert r.intervals == [PairAt(cs, i, now).value] + rest.intervals;
    if k > 0 {
      ReplayPairsLines(cs, i + 2, k - 1, now);
      assert r.intervals[k] == rest.intervals[k - 1];
      assert i + 2 * k == (i + 2) + 2 * (k - 1);
    }
  }

  /** Every line from `i` on passes its check. */
  predicate AllOkFrom(cs: seq<Result<Tm>>, i: nat) {
    forall j :: i <= j < |cs| ==> cs[j].Ok?
  }

  /**
   * A replay stops exactly at the first line that fails its check, with that
   * line's failure, after the intervals of the pairs before it; it finishes
   * cleanly exactly when every line passes.
   */
  lemma {:induction false} ReplayStopsAtFirstBadLine(cs: seq<Result<Tm>>, i: nat, now: Tm)
    ensures ReplayFrom(cs, i, now).failure == None <==> AllOkFrom(cs, i)
    ensures ReplayFrom(cs, i, now).failure.Some? ==>
      exists e :: FirstBadLine(cs, i, e, ReplayFrom(cs, i, now))
    decreases |cs| - i
  {
    if i < |cs| {
      var r := ReplayFrom(cs, i, now);
      match PairAt(cs, i, now)
      case Err(c) =>
        assert r == Replay([], Some(c));
        if cs[i].Err? {
          assert FirstBadLine(cs, i, i, r);
        } else {
          assert FirstBadLine(cs, i, i + 1, r);
        }
      case Ok(iv) =>
        var rest := ReplayFrom(cs, i + 2, now);
        assert r == Replay([iv] + rest.intervals, rest.failure);
        ReplayStopsAtFirstBadLine(cs, i + 2, now);
        assert cs[i].Ok?;
        assert i + 1 < |cs| ==> cs[i + 1].Ok?;
        if r.failure.Some? {
          var e: nat :| FirstBadLine(cs, i + 2, e, rest);
          assert FirstBadLine(cs, i, e, r);
        }
    }
  }

  /** Line e is the first line from i on that fails, with the failure that stopped `r`, after (e - i) / 2 intervals. */
  predicate FirstBadLine(cs: seq<Result<Tm>>, i: nat, e: nat, r: Replay) {
    && i <= e < |cs|
    && r.failure.Some?
    && cs[e] == Err(r.failure.value)
    && (forall j :: i <= j < e ==> cs[j].Ok?)
    && |r.intervals| == (e - i) / 2
  }

  /**
   * Replaying a log stops at the line its corruption names: that line fails its
   * check with exactly that corruption, every earlier line passes, and the
   * replay has yielded the floor(e / 2) intervals before that line's pair.
   */
  lemma ReplayFailsAtNamedLine(lines: seq<string>, now: Tm, parse: string -> Option<Tm>)
    ensures var r := Reconstruct(lines, now, parse);
      r.failure.Some? ==>
        && r.failure.value.line < |lines|
        && CheckRecord(lines[r.failure.value.line], r.failure.value.line, parse) == Err(r.failure.value)
        && (forall j :: 0 <= j < r.failure.value.line ==> CheckRecord(lines[j], j, parse).Ok?)
        && |r.intervals| == r.failure.value.line / 2
  {
    var cs := Checks(lines, parse);
    var r := ReplayFrom(cs, 0, now);
    ReplayStopsAtFirstBadLine(cs, 0, now);
    if r.failure.Some? {
      var e: nat :| FirstBadLine(cs, 0, e, r);
      assert cs[e] == CheckRecord(lines[e], e, parse);
      assert r.failure.value.line == e;
      forall j | 0 <= j < e
        ensures CheckRecord(lines[j], j, parse).Ok?
      {
        assert cs[j] == CheckRecord(lines[j], j, parse);
      }
    }
  }

  /**
   * Every interval of a replay starts at a timestamp read from a start line, so
   * when the parse only accepts calendar dates, every start is one.
   */
  lemma ReplayedStartsAreDates(lines: seq<string>, now: Tm, parse: string -> Option<Tm>)
    requires ParsesDates(parse)
    ensures forall k :: 0 <= k < |Reconstruct(lines, now, parse).intervals| ==>
      IsCalendarDate(Reconstruct(lines, now, parse).intervals[k].start)
  {
    var cs := Checks(lines, parse);
    var ivs := ReplayFrom(cs, 0, now).intervals;
    forall k | 0 <= k < |ivs|
      ensures IsCalendarDate(ivs[k].start)
    {
      ReplayPairsLines(cs, 0, k, now);
      var j := 2 * k;
      assert cs[j] == CheckRecord(lines[j], j, parse);
    }
  }

  /** The log alternates "in: " and "out: " records, starting with "in: ". */
  predicate Alternates(lines: seq<string>) {
    forall i :: 0 <= i < |lines| ==> StartsWith(lines[i], PrefixAt(i))
  }

  /** Appending the next record in turn keeps a log alternating. */
  lemma {:induction false} AppendKeepsAlternation(lines: seq<string>, stamp: string)
    requires Alternates(lines)
    ensures |lines| % 2 == 0 ==> Alternates(lines + [InRecord(stamp)])
    ensures |lines| % 2 == 1 ==> Alternates(lines + [OutRecord(stamp)])
  {
    var rec := if |lines| % 2 == 0 then InRecord(stamp) else OutRecord(stamp);
    assert StartsWith(rec, PrefixAt(|lines|)) by {
      assert InRecord(stamp)[..|IN_PREFIX|] == IN_PREFIX;
      assert OutRecord(stamp)[..|OUT_PREFIX|] == OUT_PREFIX;
    }
    var longer := lines + [rec];
    forall i | 0 <= i < |longer|
      ensures StartsWith(longer[i], PrefixAt(i))
    {
      if i < |lines| {
        assert longer[i] == lines[i];
      }
    }
  }

  /**
   * An alternating log never stops on a prefix: the only corruption left is a
   * timestamp that does not parse. When every timestamp parses, it yields
   * ceil(n / 2) intervals and the last one is open exactly when n is odd.
   */
  lemma AlternatingLogHasNoPrefixError(lines: seq<string>, now: Tm, parse: string -> Option<Tm>)
    requires Alternates(lines)
    ensures var r := Reconstruct(lines, now, parse);
      && (r.failure == None || r.failure.value.BadTime?)
      && (r.failure == None ==> |r.intervals| == (|lines| + 1) / 2)
      && (r.failure == None && |lines| % 2 == 1 ==> r.intervals[|r.intervals| - 1].end == now)
  {
    var cs := Checks(lines, parse);
    var r := ReplayFrom(cs, 0, now);
    ReplayStopsAtFirstBadLine(cs, 0, now);
    ReplayTakesTwoLinesEach(cs, 0, now);
    if r.failure.Some? {
      var e: nat :| FirstBadLine(cs, 0, e, r);
      assert StartsWith(lines[e], PrefixAt(e));
      assert cs[e] == CheckRecord(lines[e], e, parse);
    } else if |lines| % 2 == 1 {
      var k := |r.intervals| - 1;
      ReplayPairsLines(cs, 0, k, now);
      assert 2 * k + 1 == |lines|;
    }
  }

  /**
   * Appending checked lines to a clean replay of complete pairs adds to its
   * intervals exactly what the appended lines replay to on their own.
   */
  lemma {:induction false} AppendToCleanReplay(cs: seq<Result<Tm>>, more: seq<Result<Tm>>, i: nat, now: Tm)
    requires i <= |cs| && (|cs| - i) % 2 == 0
    requires ReplayFrom(cs, i, now).failure == None
    ensures ReplayFrom(cs + more, i, now) ==
            Replay(ReplayFrom(cs, i, now).intervals + ReplayFrom(more, 0, now).intervals, ReplayFrom(more, 0, now).failure)
    decreases |cs| - i
  {
    var all := cs + more;
    var m := ReplayFrom(more, 0, now);
    if i == |cs| {
      ShiftedReplayFrom(cs, more, 0, now);
      assert |cs| + 0 == i;
      assert ReplayFrom(cs, i, now).intervals + m.intervals == m.intervals;
    } else {
      assert all[i] == cs[i] && all[i + 1] == cs[i + 1];
      var iv := PairAt(cs, i, now).value;
      assert PairAt(all, i, now) == Ok(iv);
      var rest := ReplayFrom(cs, i + 2, now);
      assert ReplayFrom(cs, i, now) == Replay([iv] + rest.intervals, None);
      AppendToCleanReplay(cs, more, i + 2, now);
      var tail := ReplayFrom(all, i + 2, now);
      assert tail.intervals == rest.intervals + m.intervals;
      assert ReplayFrom(all, i, now) == Replay([iv] + tail.intervals, m.failure);
      assert [iv] + (rest.intervals + m.intervals) == ([iv] + rest.intervals) + m.intervals;
    }
  }

  /** The lines appended after a log replay as they would on their own, from the matching position. */
  lemma {:induction false} ShiftedReplayFrom(cs: seq<Result<Tm>>, more: seq<Result<Tm>>, j: nat, now: Tm)
    ensures ReplayFrom(cs + more, |cs| + j, now) == ReplayFrom(more, j, now)
    decreases |more| - j
  {
    var all := cs + more;
    if j < |more| {
      assert all[|cs| + j] == more[j];
      assert j + 1 < |more| ==> all[|cs| + j + 1] == more[j + 1];
      assert PairAt(all, |cs| + j, now) == PairAt(more, j, now);
      ShiftedReplayFrom(cs, more, j + 2, now);
      assert |cs| + j + 2 == |cs| + (j + 2);
    }
  }

  /**
   * Appending lines whose checks at their new positions give `results` leaves
   * the checks of the earlier lines as they were.
   */
  lemma ChecksOfAppended(lines: seq<string>, more: seq<string>, results: seq<Result<Tm>>, parse: string -> Option<Tm>)
    requires |results| == |more|
    requires forall k :: 0 <= k < |more| ==> CheckRecord(more[k], |lines| + k, parse) == results[k]
    ensures Checks(lines + more, parse) == Checks(lines, parse) + results
  {
    var all := lines + more;
    forall j | 0 <= j < |all|
      ensures Checks(all, parse)[j] == (Checks(lines, parse) + results)[j]
    {
      if j < |lines| {
        assert all[j] == lines[j];
      } else {
        assert all[j] == more[j - |lines|];
      }
    }
  }

  /**
   * Punching in and then out appends a pair of records that replays to one
   * closed interval from the first timestamp written to the second, after the
   * intervals the log already held.
   */
  lemma PunchPairReadsBack(lines: seq<string>, s1: string, s2: string, t1: Tm, t2: Tm, now: Tm, parse: string -> Option<Tm>)
    requires |lines| % 2 == 0
    requires Reconstruct(lines, now, parse).failure == None
    requires parse(s1) == Some(t1) && parse(s2) == Some(t2)
    ensures Reconstruct(lines + [InRecord(s1), OutRecord(s2)], now, parse) ==
            Replay(Reconstruct(lines, now, parse).intervals + [Interval(t1, t2)], None)
  {
    var pair := [InRecord(s1), OutRecord(s2)];
    var cp := [Ok(t1), Ok(t2)];
    RecordsReadBack(s1, |lines|, parse);
    RecordsReadBack(s2, |lines| + 1, parse);
    ChecksOfAppended(lines, pair, cp, parse);
    assert ReplayFrom(cp, 0, now) == Replay([Interval(t1, t2)], None) by {
      assert ReplayFrom(cp, 2, now) == Replay([], None);
    }
    AppendToCleanReplay(Checks(lines, parse), cp, 0, now);
  }

  /**
   * Punching in appends a record that replays to one open interval, from the
   * timestamp written to `now`, after the intervals the log already held.
   */
  lemma PunchInReadsBackOpen(lines: seq<string>, s: string, t: Tm, now: Tm, parse: string -> Option<Tm>)
    requires |lines| % 2 == 0
    requires Reconstruct(lines, now, parse).failure == None
    requires parse(s) == Some(t)
    ensures Reconstruct(lines + [InRecord(s)], now, parse) ==
            Replay(Reconstruct(lines, now, parse).intervals + [Interval(t, now)], None)
  {
    var single := [InRecord(s)];
    var cp := [Ok(t)];
    RecordsReadBack(s, |lines|, parse);
    ChecksOfAppended(lines, single, cp, parse);
    assert ReplayFrom(cp, 0, now) == Replay([Interval(t, now)], None) by {
      assert ReplayFrom(cp, 2, now) == Replay([], None);
    }
    AppendToCleanReplay(Checks(lines, parse), cp, 0, now);
  }

  /** The pull-based reader of intervals (`IntervalIter`): a cursor into the log's lines. */
  class IntervalIter {
    const lines: seq<string>
    const now: Tm
    const parse: string -> Option<Tm>
    var pos: nat
    /** What the unread part of the log replays to. */
    ghost var rest: Replay

    /**
     * `rest` is the replay of the log from `pos` on. The link is stated for
     * every position equal to `pos`, so that it comes into play only where the
     * replay from that position is named, as in `Next`.
     */
    ghost predicate Valid()
      reads this
    {
      && pos <= |lines| && (pos % 2 == 0 || pos == |lines|)
      && forall k: nat :: k == pos ==> rest == ReplayFrom(Checks(lines, parse), k, now)
    }

    constructor (lines: seq<string>, now: Tm, parse: string -> Option<Tm>)
      ensures Valid() && this.lines == lines && this.now == now && this.parse == parse
      ensures rest == Reconstruct(lines, now, parse)
    {
      this.lines := lines;
      this.now := now;
      this.parse := parse;
      pos := 0;
      rest := Reconstruct(lines, now, parse);
    }

    /**
     * `IntervalIter::next`: pulls the next two lines. It ends the sequence when
     * no line is left, stops with the corruption when a line fails its check,
     * and otherwise yields the first interval of what remains.
     */
    method Next() returns (step: Step)
      requires Valid()
      modifies this
      ensures Valid()
      ensures step.Done? <==> old(rest) == Replay([], None)
      ensures step.Done? ==> pos == old(pos) && rest == old(rest)
      ensures step.Failed? <==> old(rest).intervals == [] && old(rest).failure.Some?
      ensures step.Failed? ==> old(rest).failure == Some(step.error)
      ensures step.Item? ==> old(rest) == Replay([step.iv] + rest.intervals, rest.failure)
      ensures step.Item? ==> pos > old(pos)
    {
      assert rest == ReplayFrom(Checks(lines, parse), pos, now);
      if pos == |lines| {
        return Done;
      }
      var i := pos;
      pos := if i + 2 <= |lines| then i + 2 else |lines|;
      rest := ReplayFrom(Checks(lines, parse), pos, now);
      var start := CheckRecord(lines[i], i, parse);
      if start.Err? {
        return Failed(start.error);
      }
      var end: Tm;
      if i + 1 == |lines| {
        ReplayTakesTwoLinesEach(Checks(lines, parse), i + 2, now);
        end := now;
      } else {
        var checked := CheckRecord(lines[i + 1], i + 1, parse);
        if checked.Err? {
          return Failed(checked.error);
        }
        end := checked.value;
      }
      step := Item(Interval(start.value, end));
    }
  }

  /** One result of the iterator: the end of the log, an interval, or a panic on corrupt data. */
  datatype Step = Done | Item(iv: Interval) | Failed(error: Corruption)
}

// The later revision of the weight cog (`cogs/weight_cog.py`), which splits
// recording into `insert_weight_entry` and `sort_weight_entries`, keeps a
// period table of its own and looks moving averages up in a table.
// Its `remove_weight_record` is the shared loop Ledger.RemoveWeightRecord.

module WeightCogRevised {
  import opened Errors
  import opened Ledger
  import WeightCog

  /** The `periods` table inside `date_inside_period`. A bare `except` turns
      the lookup failure into `ValueError("Invalid period.")`. */
  const Periods: PeriodTable := PeriodTable(map["last_week" := 7, "last_month" := 30, "last_year" := 365], false)

  /** `MOVING_AVG_PERIODS`: the window of each accepted moving average. */
  const MovingAvgPeriods: map<string, nat> := map["weekly_avg" := 7, "monthly_avg" := 30, "yearly_avg" := 365]

  /** `date_inside_period(period, date)`, with today's date as a day number:
      only the three `last_…` periods and `"all"` are known here. */
  function DateInsidePeriod(period: string, day: int, today: int): (r: Result<bool>)
    ensures period == "all" ==> r == Ok(true)
    ensures period == "last_week" ==> r == Ok(today - 7 <= day <= today)
    ensures period == "last_month" ==> r == Ok(today - 30 <= day <= today)
    ensures period == "last_year" ==> r == Ok(today - 365 <= day <= today)
    ensures r.Err? <==> period !in {"all", "last_week", "last_month", "last_year"}
    ensures r.Err? ==> r.error == ValueError("Invalid period.")
  {
    InsidePeriod(Periods, period, day, today)
  }

  /** Moving-average names are not periods in this revision. */
  lemma AverageNamesRejected(day: int, today: int)
    ensures DateInsidePeriod("weekly_avg", day, today) == Err(ValueError("Invalid period."))
    ensures DateInsidePeriod("monthly_avg", day, today) == Err(ValueError("Invalid period."))
    ensures DateInsidePeriod("yearly_avg", day, today) == Err(ValueError("Invalid period."))
  {
  }

  /** `insert_weight_entry`: the data rows of the existing file (`None` when
      it does not exist; its header row is read and dropped) with the new row
      appended last. An existing empty file makes `next` raise. */
  method InsertWeightEntry(existing: Option<seq<Row>>, date: string, weight: string) returns (r: Result<seq<Row>>)
    ensures existing == Some([]) ==> r == Err(StopIteration)
    ensures existing != Some([]) ==>
      var data := if existing.Some? then existing.value[1..] else [];
      && r.Ok? && |r.value| == |data| + 1
      && r.value[..|data|] == data
      && r.value[|data|] == Row(date, weight)
  {
    var entries: seq<Row> := [];
    if existing.Some? {
      var file := existing.value;
      if file == [] {
        return Err(StopIteration);
      }
      for i := 1 to |file|
        invariant entries == file[1..i]
      {
        entries := entries + [file[i]];
      }
      assert entries == file[1..];
    }
    entries := entries + [Row(date, weight)];
    return Ok(entries);
  }

  /** `sort_weight_entries`: the file it writes, the standard header followed
      by the entries stably sorted by date. */
  function SortWeightEntries(entries: seq<Row>): (file: seq<Row>)
    ensures |file| == |entries| + 1 && file[0] == HeaderRow
    ensures SortedByDate(file[1..])
    ensures multiset(file[1..]) == multiset(entries)
    ensures forall date :: RowsOn(file[1..], date) == RowsOn(entries, date)
  {
    SortByDateSorted(entries);
    SortByDatePermutes(entries);
    SortByDateStableAll(entries);
    [HeaderRow] + SortByDate(entries)
  }

  /** `weight` and `weight_goal` of this revision: the permission guard, then
      `insert_weight_entry` and `sort_weight_entries`. The file's own header
      row is not kept: the standard one is written. */
  method Record(existing: Option<seq<Row>>, user: Option<WeightCog.UserId>, author: WeightCog.UserId, hasBotInputRole: bool,
                weight: string, date: Option<string>, createdAt: string, parseWeight: string -> Option<real>)
    returns (outcome: WeightCog.RecordOutcome)
    ensures !WeightCog.MayActOn(user, author, hasBotInputRole) ==> outcome == WeightCog.NotAllowed
    ensures WeightCog.MayActOn(user, author, hasBotInputRole) && existing == Some([]) ==>
      outcome == WeightCog.Raised(AsCoroutineError(StopIteration), parseWeight(weight).None?)
    ensures WeightCog.MayActOn(user, author, hasBotInputRole) && existing != Some([]) ==>
      var data := if existing.Some? then existing.value[1..] else [];
      var row := Row(WeightCog.RecordDate(date, createdAt), weight);
      outcome == WeightCog.Recorded(WeightCog.Rewritten(HeaderRow, data, row), parseWeight(weight).None?)
  {
    if !WeightCog.MayActOn(user, author, hasBotInputRole) {
      return WeightCog.NotAllowed;
    }
    var invalid := parseWeight(weight).None?;
    var d := WeightCog.RecordDate(date, createdAt);
    var entries := InsertWeightEntry(existing, d, weight);
    if entries.Err? {
      return WeightCog.Raised(AsCoroutineError(entries.error), invalid);
    }
    ghost var data := if existing.Some? then existing.value[1..] else [];
    assert entries.value == data + [Row(d, weight)];
    return WeightCog.Recorded(SortWeightEntries(entries.value), invalid);
  }

  /** `read_weight_data` of this revision: it skips the first row only. */
  method ReadWeightData(file: seq<Row>, period: string, today: int, parse: CsvParsers)
    returns (r: Result<seq<Entry>>)
    ensures file == [] ==> r == Err(StopIteration)
    ensures file != [] ==> r == ReadSpec(file[1..], false, Periods, period, today, parse)
  {
    if file == [] {
      return Err(StopIteration);
    }
    r := ReadRows(file[1..], false, Periods, period, today, parse);
  }

  /** `stats` of this revision: as in the first one, except that the moving
      average is looked up in `MOVING_AVG_PERIODS`, and `"no_avg"` draws a
      plot but then falls through to that lookup, which fails. */
  method Stats(file: Option<seq<Row>>, user: Option<WeightCog.UserId>, author: WeightCog.UserId, hasBotInputRole: bool,
               movingAverage: string, period: string, today: int, parse: CsvParsers)
    returns (outcome: WeightCog.StatsOutcome)
    ensures !WeightCog.MayActOn(user, author, hasBotInputRole) ==> outcome == WeightCog.StatsNotAllowed
    ensures WeightCog.MayActOn(user, author, hasBotInputRole) && file.None? ==> outcome == WeightCog.NoData
    ensures WeightCog.MayActOn(user, author, hasBotInputRole) && file == Some([]) ==> outcome == WeightCog.StatsRaised(AsCoroutineError(StopIteration))
    ensures WeightCog.MayActOn(user, author, hasBotInputRole) && file.Some? && file.value != [] ==>
      var read := ReadSpec(file.value[1..], false, Periods, period, today, parse);
      && (read.Err? ==> outcome == WeightCog.StatsRaised(AsCoroutineError(read.error)))
      && (read == Ok([]) ==> outcome.StatsRaised? && outcome.error.ValueError?)
      && (read.Ok? && read.value != [] ==>
            if movingAverage in MovingAvgPeriods
            then outcome.Plotted? && WeightCog.PlotOf(outcome.plot, read.value, Some(MovingAvgPeriods[movingAverage]))
            else outcome == WeightCog.InvalidMovingAverage)
  {
    if !WeightCog.MayActOn(user, author, hasBotInputRole) {
      return WeightCog.StatsNotAllowed;
    }
    if file.None? {
      return WeightCog.NoData;
    }
    var read := ReadWeightData(file.value, period, today, parse);
    if read.Err? {
      return WeightCog.StatsRaised(AsCoroutineError(read.error));
    }
    var columns := Unzip(read.value);
    if columns.Err? {
      return WeightCog.StatsRaised(columns.error);
    }
    var (dates, weights) := columns.value;
    if movingAverage !in MovingAvgPeriods {
      return WeightCog.InvalidMovingAverage;
    }
    var window := MovingAvgPeriods[movingAverage];
    var averages := MovingAverages(weights, window);
    var avgDates := AverageDates(dates, window);
    return WeightCog.Plotted(WeightCog.Plot(dates, weights, Some((avgDates, averages))));
  }

  /** Both revisions accept the same moving averages with the same windows;
      they differ on `"no_avg"` alone, which only the first one accepts. */
  lemma AverageWindowsAgree(movingAverage: string)
    ensures movingAverage != "no_avg" ==>
      (movingAverage in MovingAvgPeriods <==> WeightCog.AverageWindow(movingAverage).Some?)
    ensures movingAverage in MovingAvgPeriods ==>
      WeightCog.AverageWindow(movingAverage) == Some(MovingAvgPeriods[movingAverage])
    ensures "no_avg" !in MovingAvgPeriods
  {
  }

  /** `.stats no_avg all` on a file with one weight: this revision answers
      with the invalid-moving-average message, where the first one plots the
      weight without an average. */
  method NoAvgCounterexample() returns (revised: WeightCog.StatsOutcome, first: WeightCog.StatsOutcome)
    ensures revised == WeightCog.InvalidMovingAverage
    ensures first == WeightCog.Plotted(WeightCog.Plot([0], [70.0], None))
  {
    var file := [HeaderRow, Row("2024-01-01", "70")];
    var parse := CsvParsers(cell => Some(0), cell => Some(70.0));
    assert file[1..] == [Row("2024-01-01", "70")];
    revised := Stats(Some(file), None, 1, false, "no_avg", "all", 0, parse);
    first := WeightCog.Stats(Some(file), None, 1, false, "no_avg", "all", 0, parse);
  }
}

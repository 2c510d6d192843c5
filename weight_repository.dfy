// The weight repository of the infrastructure library: its period table,
// `date_inside_period`, `read_weight_data` and `remove_weight_record`.
// `cogs/weightcog.py` carries the same table, the same period test and the
// same two helpers, and is modelled by the members below as well.

module WeightRepository {
  import opened Errors
  import opened Ledger

  /** `MOVING_AVG_PERIODS`: each window length in days, under its moving
      average name and under its period name. */
  const MovingAvgPeriods: map<string, nat> := map[
    "weekly_avg" := 7, "last_week" := 7,
    "monthly_avg" := 30, "last_month" := 30,
    "yearly_avg" := 365, "last_year" := 365]

  /** Only `ValueError` is caught around the lookup, so the `KeyError` of an
      unknown period escapes. */
  const Periods: PeriodTable := PeriodTable(MovingAvgPeriods, true)

  /** `date_inside_period(period, date)`, with today's date as a day number. */
  function DateInsidePeriod(period: string, day: int, today: int): (r: Result<bool>)
    ensures period == "all" ==> r == Ok(true)
    ensures period in {"weekly_avg", "last_week"} ==> r == Ok(today - 7 <= day <= today)
    ensures period in {"monthly_avg", "last_month"} ==> r == Ok(today - 30 <= day <= today)
    ensures period in {"yearly_avg", "last_year"} ==> r == Ok(today - 365 <= day <= today)
    ensures r.Err? <==> period != "all" && period !in MovingAvgPeriods
    ensures r.Err? ==> r.error == KeyError(period)
  {
    InsidePeriod(Periods, period, day, today)
  }

  /** A moving-average name and its period name give the same window. */
  lemma PeriodAliases(day: int, today: int)
    ensures DateInsidePeriod("weekly_avg", day, today) == DateInsidePeriod("last_week", day, today)
    ensures DateInsidePeriod("monthly_avg", day, today) == DateInsidePeriod("last_month", day, today)
    ensures DateInsidePeriod("yearly_avg", day, today) == DateInsidePeriod("last_year", day, today)
  {
  }

  /** `read_weight_data`: `next` on the first row (which raises
      `StopIteration` on an empty file), then the row loop, skipping every
      later header row. */
  method ReadWeightData(file: seq<Row>, period: string, today: int, parse: CsvParsers)
    returns (r: Result<seq<Entry>>)
    ensures file == [] ==> r == Err(StopIteration)
    ensures file != [] ==> r == ReadSpec(file[1..], true, Periods, period, today, parse)
  {
    if file == [] {
      return Err(StopIteration);
    }
    r := ReadRows(file[1..], true, Periods, period, today, parse);
  }

  /** Reading under a moving-average name reads what its period name reads. */
  lemma ReadAliases(rows: seq<Row>, today: int, parse: CsvParsers)
    ensures ReadSpec(rows, true, Periods, "weekly_avg", today, parse) == ReadSpec(rows, true, Periods, "last_week", today, parse)
    ensures ReadSpec(rows, true, Periods, "monthly_avg", today, parse) == ReadSpec(rows, true, Periods, "last_month", today, parse)
    ensures ReadSpec(rows, true, Periods, "yearly_avg", today, parse) == ReadSpec(rows, true, Periods, "last_year", today, parse)
  {
    ReadSpecSameWindow(rows, true, Periods, "weekly_avg", "last_week", today, parse);
    ReadSpecSameWindow(rows, true, Periods, "monthly_avg", "last_month", today, parse);
    ReadSpecSameWindow(rows, true, Periods, "yearly_avg", "last_year", today, parse);
  }

  /** With an unknown period the read raises `KeyError` unless the file has
      no data row besides header rows, and then it reads nothing. */
  lemma ReadUnknownPeriod(rows: seq<Row>, period: string, today: int, parse: CsvParsers)
    requires period != "all" && period !in MovingAvgPeriods
    requires forall i :: 0 <= i < |rows| ==> parse.date(rows[i].date).Some?
    ensures var r := ReadSpec(rows, true, Periods, period, today, parse);
      (WithoutHeaders(rows) == [] ==> r == Ok([]))
      && (WithoutHeaders(rows) != [] ==> r == Err(KeyError(period)))
  {
    ReadSpecUnknownPeriod(rows, true, Periods, period, today, parse);
    if WithoutHeaders(rows) != [] {
      KeyErrorFirst(rows, period, today, parse);
    }
  }

  lemma {:induction false} KeyErrorFirst(rows: seq<Row>, period: string, today: int, parse: CsvParsers)
    requires period != "all" && period !in MovingAvgPeriods
    requires forall i :: 0 <= i < |rows| ==> parse.date(rows[i].date).Some?
    requires WithoutHeaders(rows) != []
    ensures ReadSpec(rows, true, Periods, period, today, parse) == Err(KeyError(period))
    decreases |rows|
  {
    if rows[0] == HeaderRow {
      assert forall i :: 0 <= i < |rows[1..]| ==> rows[1..][i] == rows[i + 1];
      KeyErrorFirst(rows[1..], period, today, parse);
    }
  }
}

// The weight cog (`cogs/weightcog.py`): the other-user permission check,
// recording a weight or a weight goal, and the data behind the `stats` plot.
// Its `date_inside_period`, `read_weight_data` and `remove_weight_record`
// are the repository's (module WeightRepository and module Ledger).

module WeightCog {
  import opened Errors
  import opened StringOrder
  import opened Ledger
  import opened WeightRepository

  type UserId = nat

  /** The guard every command starts with: naming another user needs the
      `bot-input` role; naming nobody, or yourself, never does. */
  predicate MayActOn(user: Option<UserId>, author: UserId, hasBotInputRole: bool)
  {
    !(user.Some? && user.value != author && !hasBotInputRole)
  }

  lemma MayActOnCases(user: Option<UserId>, author: UserId, hasBotInputRole: bool)
    ensures user.None? ==> MayActOn(user, author, hasBotInputRole)
    ensures user == Some(author) ==> MayActOn(user, author, hasBotInputRole)
    ensures hasBotInputRole ==> MayActOn(user, author, hasBotInputRole)
    ensures user.Some? && user.value != author ==> (MayActOn(user, author, hasBotInputRole) <==> hasBotInputRole)
  {
  }

  /** The date a record is filed under: the given one, or the message's
      creation date when none (or an empty one) is given. */
  function RecordDate(date: Option<string>, createdAt: string): (d: string)
    ensures date.Some? && date.value != "" ==> d == date.value
    ensures date.None? || date.value == "" ==> d == createdAt
  {
    if date.Some? && date.value != "" then date.value else createdAt
  }

  /** The file `weight` writes back: the header, then the old rows and the
      new one sorted by date. */
  function Rewritten(header: Row, data: seq<Row>, row: Row): seq<Row>
  {
    [header] + SortByDate(data + [row])
  }

  /** Recording adds exactly one row and replaces none: the rows after the
      header are sorted by date, are the old rows plus the new one, the new
      row comes last among the rows of its date (so a same-date entry is kept
      as a duplicate), and every other date keeps its rows in their order. */
  lemma RewrittenFile(header: Row, data: seq<Row>, row: Row)
    ensures var file := Rewritten(header, data, row);
      && |file| == |data| + 2
      && file[0] == header
      && SortedByDate(file[1..])
      && multiset(file[1..]) == multiset(data) + multiset{row}
      && RowsOn(file[1..], row.date) == RowsOn(data, row.date) + [row]
      && forall date :: date != row.date ==> RowsOn(file[1..], date) == RowsOn(data, date)
  {
    var file := Rewritten(header, data, row);
    assert file[1..] == SortByDate(data + [row]);
    AppendThenSort(data, row);
    forall date | date != row.date
      ensures RowsOn(file[1..], date) == RowsOn(data, date)
    {
      SortByDateStable(data + [row], date);
      assert (data + [row])[..|data|] == data;
    }
  }

  datatype RecordOutcome =
    | NotAllowed
      /** The exception that ends the command, and whether "Not a valid
          weight." was sent before it. */
    | Raised(error: Error, invalidWeightReported: bool)
      /** The rewritten file, and whether "Not a valid weight." was sent. */
    | Recorded(file: seq<Row>, invalidWeightReported: bool)

  /** `weight` and `weight_goal` (they differ only in the file's name):
      read the existing file (`None` when it does not exist), append the new
      row, sort the rows by date and rewrite header plus rows. An invalid
      weight is reported, but the row is written all the same. */
  method Record(existing: Option<seq<Row>>, user: Option<UserId>, author: UserId, hasBotInputRole: bool,
                weight: string, date: Option<string>, createdAt: string, parseWeight: string -> Option<real>)
    returns (outcome: RecordOutcome)
    ensures !MayActOn(user, author, hasBotInputRole) ==> outcome == NotAllowed
    ensures MayActOn(user, author, hasBotInputRole) && existing == Some([]) ==>
      outcome == Raised(AsCoroutineError(StopIteration), parseWeight(weight).None?)
    ensures MayActOn(user, author, hasBotInputRole) && existing != Some([]) ==>
      var header := if existing.Some? then existing.value[0] else HeaderRow;
      var data := if existing.Some? then existing.value[1..] else [];
      outcome == Recorded(Rewritten(header, data, Row(RecordDate(date, createdAt), weight)), parseWeight(weight).None?)
  {
    if !MayActOn(user, author, hasBotInputRole) {
      return NotAllowed;
    }
    var invalid := parseWeight(weight).None?;
    var d := RecordDate(date, createdAt);
    var entries: seq<Row> := [];
    var header := HeaderRow;
    if existing.Some? {
      var file := existing.value;
      if file == [] {
        return Raised(AsCoroutineError(StopIteration), invalid);
      }
      header := file[0];
      for i := 1 to |file|
        invariant entries == file[1..i]
      {
        entries := entries + [file[i]];
      }
      assert entries == file[1..];
    }
    entries := entries + [Row(d, weight)];
    return Recorded([header] + SortByDate(entries), invalid);
  }

  /** The window of each moving average `stats` accepts: the if-chain over
      `"weekly_avg"`, `"monthly_avg"` and `"yearly_avg"`. */
  function AverageWindow(movingAverage: string): (p: Option<nat>)
    ensures p.Some? ==> p.value > 0
    ensures p.Some? <==> movingAverage in {"weekly_avg", "monthly_avg", "yearly_avg"}
    ensures p.Some? ==> MovingAvgPeriods[movingAverage] == p.value
  {
    if movingAverage == "weekly_avg" then Some(7)
    else if movingAverage == "monthly_avg" then Some(30)
    else if movingAverage == "yearly_avg" then Some(365)
    else None
  }

  /** What `stats` draws: the weights against their dates and, with a moving
      average, the averages against their dates. */
  datatype Plot = Plot(dates: seq<int>, weights: seq<real>, average: Option<(seq<int>, seq<real>)>)

  datatype StatsOutcome =
    | StatsNotAllowed
    | NoData
    | StatsRaised(error: Error)
    | InvalidMovingAverage
    | Plotted(plot: Plot)

  /** The plot `stats` makes from the pairs read: the two columns and, for a
      window `p`, the averages of every `p` consecutive weights, each paired
      with the last date of its window. */
  predicate PlotOf(plot: Plot, data: seq<Entry>, window: Option<nat>)
  {
    && |plot.dates| == |data| == |plot.weights|
    && (forall i :: 0 <= i < |data| ==> data[i] == Entry(plot.dates[i], plot.weights[i]))
    && (window.None? <==> plot.average.None?)
    && (window.Some? && window.value > 0 ==>
          var (avgDates, avgs) := plot.average.value;
          && |avgDates| == |avgs| == WindowCount(|data|, window.value)
          && (forall i :: 0 <= i < |avgs| ==> avgs[i] == Mean(plot.weights[i..i + window.value]))
          && (forall i :: 0 <= i < |avgDates| ==> avgDates[i] == plot.dates[i + window.value - 1]))
  }

  /** `stats`: the permission guard, the missing file, the inline read (which
      skips the first row only), the unpacking of the pairs (which raises on
      an empty read), then the moving-average choice. */
  method Stats(file: Option<seq<Row>>, user: Option<UserId>, author: UserId, hasBotInputRole: bool,
               movingAverage: string, period: string, today: int, parse: CsvParsers)
    returns (outcome: StatsOutcome)
    ensures !MayActOn(user, author, hasBotInputRole) ==> outcome == StatsNotAllowed
    ensures MayActOn(user, author, hasBotInputRole) && file.None? ==> outcome == NoData
    ensures MayActOn(user, author, hasBotInputRole) && file == Some([]) ==> outcome == StatsRaised(AsCoroutineError(StopIteration))
    ensures MayActOn(user, author, hasBotInputRole) && file.Some? && file.value != [] ==>
      var read := ReadSpec(file.value[1..], false, Periods, period, today, parse);
      && (read.Err? ==> outcome == StatsRaised(read.error))
      && (read == Ok([]) ==> outcome.StatsRaised? && outcome.error.ValueError?)
      && (read.Ok? && read.value != [] ==>
            if movingAverage == "no_avg" then outcome.Plotted? && PlotOf(outcome.plot, read.value, None)
            else if AverageWindow(movingAverage).None? then outcome == InvalidMovingAverage
            else outcome.Plotted? && PlotOf(outcome.plot, read.value, AverageWindow(movingAverage)))
  {
    if !MayActOn(user, author, hasBotInputRole) {
      return StatsNotAllowed;
    }
    if file.None? {
      return NoData;
    }
    if file.value == [] {
      return StatsRaised(AsCoroutineError(StopIteration));
    }
    var read := ReadRows(file.value[1..], false, Periods, period, today, parse);
    if read.Err? {
      return StatsRaised(read.error);
    }
    var columns := Unzip(read.value);
    if columns.Err? {
      return StatsRaised(columns.error);
    }
    var (dates, weights) := columns.value;
    if movingAverage == "no_avg" {
      return Plotted(Plot(dates, weights, None));
    }
    var window := AverageWindow(movingAverage);
    if window.None? {
      return InvalidMovingAverage;
    }
    var averages := MovingAverages(weights, window.value);
    var avgDates := AverageDates(dates, window.value);
    return Plotted(Plot(dates, weights, Some((avgDates, averages))));
  }
}

/** The per-user weight file and the sequence logic that every revision of the
    weight cog shares: the stable sort by date cell, the row filter behind
    `remove_weight_record`, the row loop behind `read_weight_data` and the
    moving-average loop behind `stats`. A file is its rows in order, the
    header row first; CSV quoting and the file system are not modelled. */
module Ledger {
  import opened Errors
  import opened StringOrder

  /** One row of a weight file: the date cell and the weight cell, as text. */
  datatype Row = Row(date: string, weight: string)

  /** `["Date", "Weight"]`, the row every weight file starts with. */
  const HeaderRow: Row := Row("Date", "Weight")

  /** One `(date, weight)` pair handed to the plot: the day as a day number. */
  datatype Entry = Entry(day: int, weight: real)

  /** `datetime.strptime(cell, "%Y-%m-%d").date()` as a day number and
      `float(cell)`; `None` stands for the ValueError they raise. */
  datatype CsvParsers = CsvParsers(date: string -> Option<int>, weight: string -> Option<real>)

  // ---------------------------------------------------------------------------
  // Selecting rows by their date cell

  /** The rows whose date cell equals `date` (`matching`) or differs from it
      (`!matching`), in file order. */
  function Select(rows: seq<Row>, date: string, matching: bool): seq<Row>
  {
    if rows == [] then []
    else
      var last := rows[|rows| - 1];
      Select(rows[..|rows| - 1], date, matching) + (if (last.date == date) == matching then [last] else [])
  }

  function RowsOn(rows: seq<Row>, date: string): seq<Row>
  {
    Select(rows, date, true)
  }

  function RowsNotOn(rows: seq<Row>, date: string): seq<Row>
  {
    Select(rows, date, false)
  }

  lemma {:induction false} SelectAppend(a: seq<Row>, b: seq<Row>, date: string, matching: bool)
    ensures Select(a + b, date, matching) == Select(a, date, matching) + Select(b, date, matching)
    decreases |b|
  {
    if b == [] {
      assert a + b == a;
    } else {
      SelectAppend(a, b[..|b| - 1], date, matching);
      assert (a + b)[..|a + b| - 1] == a + b[..|b| - 1];
    }
  }

  /** Every selected row passes the test, and the two selections split the
      rows between them: nothing is lost and nothing is duplicated. */
  lemma {:induction false} SelectPartition(rows: seq<Row>, date: string)
    ensures forall r :: r in RowsOn(rows, date) ==> r.date == date
    ensures forall r :: r in RowsNotOn(rows, date) ==> r.date != date
    ensures multiset(RowsOn(rows, date)) + multiset(RowsNotOn(rows, date)) == multiset(rows)
    ensures |RowsOn(rows, date)| + |RowsNotOn(rows, date)| == |rows|
    decreases |rows|
  {
    if rows != [] {
      var init, last := rows[..|rows| - 1], rows[|rows| - 1];
      SelectPartition(init, date);
      assert rows == init + [last];
      if last.date == date {
        assert RowsOn(rows, date) == RowsOn(init, date) + [last];
        assert RowsNotOn(rows, date) == RowsNotOn(init, date);
      } else {
        assert RowsOn(rows, date) == RowsOn(init, date);
        assert RowsNotOn(rows, date) == RowsNotOn(init, date) + [last];
      }
    }
  }

  /** With no row on `date`, nothing is dropped. */
  lemma {:induction false} RowsNotOnAbsent(rows: seq<Row>, date: string)
    requires forall i :: 0 <= i < |rows| ==> rows[i].date != date
    ensures RowsNotOn(rows, date) == rows
    decreases |rows|
  {
    if rows != [] {
      RowsNotOnAbsent(rows[..|rows| - 1], date);
      assert rows == rows[..|rows| - 1] + [rows[|rows| - 1]];
    }
  }

  /** Removing a date twice leaves what removing it once left. */
  lemma RowsNotOnIdempotent(rows: seq<Row>, date: string)
    ensures RowsNotOn(RowsNotOn(rows, date), date) == RowsNotOn(rows, date)
  {
    var kept := RowsNotOn(rows, date);
    SelectPartition(rows, date);
    forall i | 0 <= i < |kept|
      ensures kept[i].date != date
    {
      assert kept[i] in kept;
    }
    RowsNotOnAbsent(kept, date);
  }

  // ---------------------------------------------------------------------------
  // The stable sort by date cell

  predicate SortedByDate(rows: seq<Row>)
  {
    forall i, j :: 0 <= i < j < |rows| ==> LexLe(rows[i].date, rows[j].date)
  }

  /** Places `row` after the last row whose date cell is `<=` its own: one
      step of an insertion sort, which keeps equal dates in arrival order. */
  function InsertByDate(rows: seq<Row>, row: Row): seq<Row>
  {
    if rows == [] then [row]
    else if LexLe(rows[|rows| - 1].date, row.date) then rows + [row]
    else InsertByDate(rows[..|rows| - 1], row) + [rows[|rows| - 1]]
  }

  /** `entries.sort(key=lambda entry: entry[0])`. Python's list sort is stable;
      the lemmas below show that this definition is sorted, stable and a
      permutation, which together fix its result. */
  function SortByDate(rows: seq<Row>): seq<Row>
  {
    if rows == [] then [] else InsertByDate(SortByDate(rows[..|rows| - 1]), rows[|rows| - 1])
  }

  lemma {:induction false} InsertByDatePermutes(rows: seq<Row>, row: Row)
    ensures multiset(InsertByDate(rows, row)) == multiset(rows) + multiset{row}
    decreases |rows|
  {
    if rows != [] && !LexLe(rows[|rows| - 1].date, row.date) {
      InsertByDatePermutes(rows[..|rows| - 1], row);
      assert rows == rows[..|rows| - 1] + [rows[|rows| - 1]];
    }
  }

  lemma {:induction false} InsertByDateSorted(rows: seq<Row>, row: Row)
    requires SortedByDate(rows)
    ensures SortedByDate(InsertByDate(rows, row))
    decreases |rows|
  {
    if rows == [] {
    } else if LexLe(rows[|rows| - 1].date, row.date) {
      var r := rows + [row];
      forall i, j | 0 <= i < j < |r|
        ensures LexLe(r[i].date, r[j].date)
      {
        if j == |rows| && i < |rows| - 1 {
          LexLeTransitive(rows[i].date, rows[|rows| - 1].date, row.date);
        }
      }
    } else {
      var init, last := rows[..|rows| - 1], rows[|rows| - 1];
      InsertByDateSorted(init, row);
      InsertByDatePermutes(init, row);
      var front := InsertByDate(init, row);
      var r := front + [last];
      NotLexLeIsGreater(last.date, row.date);
      forall i, j | 0 <= i < j < |r|
        ensures LexLe(r[i].date, r[j].date)
      {
        if j == |front| {
          assert r[i] in multiset(init) + multiset{row} by {
            assert r[i] in front;
          }
        }
      }
    }
  }

  /** Rows on one date come out of an insertion in the order they went in,
      the inserted row after them. */
  lemma {:induction false} InsertByDateStable(rows: seq<Row>, row: Row, date: string)
    ensures RowsOn(InsertByDate(rows, row), date) == RowsOn(rows, date) + RowsOn([row], date)
    decreases |rows|
  {
    if rows == [] {
    } else if LexLe(rows[|rows| - 1].date, row.date) {
      SelectAppend(rows, [row], date, true);
    } else {
      var init, last := rows[..|rows| - 1], rows[|rows| - 1];
      assert rows == init + [last];
      LexLeReflexive(row.date);
      assert last.date != row.date;
      InsertByDateStable(init, row, date);
      SelectAppend(InsertByDate(init, row), [last], date, true);
      SelectAppend(init, [last], date, true);
      if last.date == date {
        assert RowsOn([row], date) == [];
      } else {
        assert RowsOn([last], date) == [];
      }
    }
  }

  lemma {:induction false} SortByDateSorted(rows: seq<Row>)
    ensures SortedByDate(SortByDate(rows))
    decreases |rows|
  {
    if rows != [] {
      SortByDateSorted(rows[..|rows| - 1]);
      InsertByDateSorted(SortByDate(rows[..|rows| - 1]), rows[|rows| - 1]);
    }
  }

  lemma {:induction false} SortByDatePermutes(rows: seq<Row>)
    ensures multiset(SortByDate(rows)) == multiset(rows)
    ensures |SortByDate(rows)| == |rows|
    decreases |rows|
  {
    if rows != [] {
      SortByDatePermutes(rows[..|rows| - 1]);
      InsertByDatePermutes(SortByDate(rows[..|rows| - 1]), rows[|rows| - 1]);
      assert rows == rows[..|rows| - 1] + [rows[|rows| - 1]];
    }
    assert |multiset(SortByDate(rows))| == |SortByDate(rows)|;
  }

  /** Stability: for every date, the rows on that date appear in the sorted
      rows in exactly the order they had before. */
  lemma {:induction false} SortByDateStable(rows: seq<Row>, date: string)
    ensures RowsOn(SortByDate(rows), date) == RowsOn(rows, date)
    decreases |rows|
  {
    if rows != [] {
      var init, last := rows[..|rows| - 1], rows[|rows| - 1];
      SortByDateStable(init, date);
      InsertByDateStable(SortByDate(init), last, date);
      SelectAppend(init, [last], date, true);
      assert rows == init + [last];
    }
  }

  /** Sorting keeps, for every date, the rows on that date in their order. */
  lemma SortByDateStableAll(rows: seq<Row>)
    ensures forall date :: RowsOn(SortByDate(rows), date) == RowsOn(rows, date)
  {
    forall date
      ensures RowsOn(SortByDate(rows), date) == RowsOn(rows, date)
    {
      SortByDateStable(rows, date);
    }
  }

  /** What `weight`/`weight_goal` rely on: appending a row and sorting gives
      sorted rows, one more than before, none dropped, and the new row comes
      last among the rows on its date (a second entry for a date is kept). */
  lemma AppendThenSort(rows: seq<Row>, row: Row)
    ensures SortedByDate(SortByDate(rows + [row]))
    ensures multiset(SortByDate(rows + [row])) == multiset(rows) + multiset{row}
    ensures |SortByDate(rows + [row])| == |rows| + 1
    ensures RowsOn(SortByDate(rows + [row]), row.date) == RowsOn(rows, row.date) + [row]
  {
    SortByDateSorted(rows + [row]);
    SortByDatePermutes(rows + [row]);
    SortByDateStable(rows + [row], row.date);
    SelectAppend(rows, [row], row.date, true);
  }

  // ---------------------------------------------------------------------------
  // remove_weight_record

  /** The loop of `remove_weight_record`: every row whose first cell differs
      from `date` is written, in order, and `removed` records whether any row
      matched. The header row goes through the same test as the data rows. */
  method RemoveWeightRecord(rows: seq<Row>, date: string) returns (written: seq<Row>, removed: bool)
    ensures written == RowsNotOn(rows, date)
    ensures removed <==> exists i :: 0 <= i < |rows| && rows[i].date == date
    ensures forall r :: r in written ==> r.date != date
    ensures !removed ==> written == rows
  {
    removed := false;
    written := [];
    for i := 0 to |rows|
      invariant written == RowsNotOn(rows[..i], date)
      invariant removed <==> exists k :: 0 <= k < i && rows[k].date == date
      invariant !removed ==> written == rows[..i]
    {
      assert rows[..i + 1][..i] == rows[..i];
      if rows[i].date == date {
        removed := true;
      } else {
        written := written + [rows[i]];
      }
    }
    assert rows[..|rows|] == rows;
    SelectPartition(rows, date);
  }

  // ---------------------------------------------------------------------------
  // date_inside_period and the row loop of read_weight_data

  /** The lookup `date_inside_period` makes: its table of day counts, and
      whether a period missing from the table lets the KeyError escape
      (`except ValueError` does not catch it) or turns it into
      `ValueError("Invalid period.")` (a bare `except`). */
  datatype PeriodTable = PeriodTable(days: map<string, nat>, keyErrorEscapes: bool)

  /** `date_inside_period(period, date)` with `datetime.now().date()` passed
      in as `today`: `"all"` accepts everything, a known period the closed
      window `[today - N, today]`, anything else raises. */
  function InsidePeriod(table: PeriodTable, period: string, day: int, today: int): Result<bool>
  {
    if period == "all" then Ok(true)
    else if period in table.days then Ok(today - table.days[period] <= day <= today)
    else if table.keyErrorEscapes then Err(KeyError(period))
    else Err(ValueError("Invalid period."))
  }

  /** A known period never accepts a day after today, accepts both ends of
      its window and nothing before it; an unknown one always raises. */
  lemma InsidePeriodWindow(table: PeriodTable, period: string, day: int, today: int)
    requires period != "all"
    ensures day > today ==> InsidePeriod(table, period, day, today) != Ok(true)
    ensures period in table.days ==>
      InsidePeriod(table, period, today, today) == Ok(true)
      && InsidePeriod(table, period, today - table.days[period], today) == Ok(true)
      && InsidePeriod(table, period, today - table.days[period] - 1, today) == Ok(false)
    ensures period !in table.days <==> InsidePeriod(table, period, day, today).Err?
  {
  }

  /** A longer window accepts every day a shorter one accepts. */
  lemma InsidePeriodNested(table: PeriodTable, shorter: string, longer: string, day: int, today: int)
    requires shorter != "all" && longer != "all"
    requires shorter in table.days && longer in table.days
    requires table.days[shorter] <= table.days[longer]
    requires InsidePeriod(table, shorter, day, today) == Ok(true)
    ensures InsidePeriod(table, longer, day, today) == Ok(true)
  {
  }

  function DateError(cell: string): Error
  {
    ValueError("time data '" + cell + "' does not match format '%Y-%m-%d'")
  }

  function WeightError(cell: string): Error
  {
    ValueError("could not convert string to float: '" + cell + "'")
  }

  /** Puts entries in front of a read that went through, passes an exception on. */
  function Prefixed(data: seq<Entry>, rest: Result<seq<Entry>>): Result<seq<Entry>>
  {
    if rest.Ok? then Ok(data + rest.value) else rest
  }

  /** What one data row does to the pairs read after it: a header row (when
      `skipHeaders`) and a row outside the period add nothing; an unparsable
      date, an unknown period or, inside the period, an unparsable weight
      raise; otherwise the row's pair comes first. The date is parsed before
      the period is tested, the weight only when the row is inside it. */
  function ReadRow(row: Row, rest: Result<seq<Entry>>, skipHeaders: bool, table: PeriodTable, period: string, today: int, parse: CsvParsers)
    : Result<seq<Entry>>
  {
    if skipHeaders && row == HeaderRow then rest
    else match parse.date(row.date)
      case None => Err(DateError(row.date))
      case Some(day) =>
        match InsidePeriod(table, period, day, today)
        case Err(e) => Err(e)
        case Ok(inside) =>
          if !inside then rest
          else match parse.weight(row.weight)
            case None => Err(WeightError(row.weight))
            case Some(w) => Prefixed([Entry(day, w)], rest)
  }

  /** What the loop over the data rows yields: the first exception raised, or
      the `(date, weight)` pairs of the rows inside the period, in file order. */
  function ReadSpec(rows: seq<Row>, skipHeaders: bool, table: PeriodTable, period: string, today: int, parse: CsvParsers)
    : Result<seq<Entry>>
    decreases |rows|
  {
    if rows == [] then Ok([])
    else ReadRow(rows[0], ReadSpec(rows[1..], skipHeaders, table, period, today, parse), skipHeaders, table, period, today, parse)
  }

  lemma ReadSpecStep(rows: seq<Row>, i: nat, skipHeaders: bool, table: PeriodTable, period: string, today: int, parse: CsvParsers)
    requires i < |rows|
    ensures ReadSpec(rows[i..], skipHeaders, table, period, today, parse)
         == ReadRow(rows[i], ReadSpec(rows[i + 1..], skipHeaders, table, period, today, parse), skipHeaders, table, period, today, parse)
  {
    assert rows[i..][0] == rows[i] && rows[i..][1..] == rows[i + 1..];
  }

  lemma PrefixedAppend(data: seq<Entry>, e: Entry, rest: Result<seq<Entry>>)
    ensures Prefixed(data, Prefixed([e], rest)) == Prefixed(data + [e], rest)
  {
    if rest.Ok? {
      assert data + ([e] + rest.value) == (data + [e]) + rest.value;
    }
  }

  /** The `for row in csv_reader` loop of `read_weight_data` (and of the
      inline copy in `stats`), appending each in-period pair. */
  method ReadRows(rows: seq<Row>, skipHeaders: bool, table: PeriodTable, period: string, today: int, parse: CsvParsers)
    returns (r: Result<seq<Entry>>)
    ensures r == ReadSpec(rows, skipHeaders, table, period, today, parse)
  {
    var data: seq<Entry> := [];
    assert rows[0..] == rows;
    var whole := ReadSpec(rows, skipHeaders, table, period, today, parse);
    if whole.Ok? {
      assert [] + whole.value == whole.value;
    }
    for i := 0 to |rows|
      invariant Prefixed(data, ReadSpec(rows[i..], skipHeaders, table, period, today, parse))
             == ReadSpec(rows, skipHeaders, table, period, today, parse)
    {
      var row := rows[i];
      ghost var rest := ReadSpec(rows[i + 1..], skipHeaders, table, period, today, parse);
      ReadSpecStep(rows, i, skipHeaders, table, period, today, parse);
      if skipHeaders && row == HeaderRow {
        continue;
      }
      var day := parse.date(row.date);
      if day.None? {
        return Err(DateError(row.date));
      }
      var inside := InsidePeriod(table, period, day.value, today);
      if inside.Err? {
        return Err(inside.error);
      }
      if inside.value {
        var weight := parse.weight(row.weight);
        if weight.None? {
          return Err(WeightError(row.weight));
        }
        PrefixedAppend(data, Entry(day.value, weight.value), rest);
        data := data + [Entry(day.value, weight.value)];
      }
    }
    assert rows[|rows|..] == [];
    assert data + [] == data;
    return Ok(data);
  }

  /** Every pair read lies inside the period. */
  lemma {:induction false} ReadSpecInPeriod(rows: seq<Row>, skipHeaders: bool, table: PeriodTable, period: string, today: int, parse: CsvParsers)
    requires ReadSpec(rows, skipHeaders, table, period, today, parse).Ok?
    ensures forall e :: e in ReadSpec(rows, skipHeaders, table, period, today, parse).value ==>
      InsidePeriod(table, period, e.day, today) == Ok(true)
    decreases |rows|
  {
    if rows != [] {
      ReadSpecInPeriod(rows[1..], skipHeaders, table, period, today, parse);
    }
  }

  /** Two periods with the same window read the same pairs. */
  lemma {:induction false} ReadSpecSameWindow(rows: seq<Row>, skipHeaders: bool, table: PeriodTable, p: string, q: string, today: int, parse: CsvParsers)
    requires forall day :: InsidePeriod(table, p, day, today) == InsidePeriod(table, q, day, today)
    ensures ReadSpec(rows, skipHeaders, table, p, today, parse) == ReadSpec(rows, skipHeaders, table, q, today, parse)
    decreases |rows|
  {
    if rows != [] {
      ReadSpecSameWindow(rows[1..], skipHeaders, table, p, q, today, parse);
    }
  }

  /** The data rows with every row equal to the header row taken out. */
  function WithoutHeaders(rows: seq<Row>): seq<Row>
    decreases |rows|
  {
    if rows == [] then [] else (if rows[0] == HeaderRow then [] else [rows[0]]) + WithoutHeaders(rows[1..])
  }

  /** The header test only ever drops header rows: reading with it is
      reading, without it, the rows with the header rows taken out. */
  lemma {:induction false} ReadSpecSkipsHeaders(rows: seq<Row>, table: PeriodTable, period: string, today: int, parse: CsvParsers)
    ensures ReadSpec(rows, true, table, period, today, parse)
         == ReadSpec(WithoutHeaders(rows), false, table, period, today, parse)
    decreases |rows|
  {
    if rows != [] {
      ReadSpecSkipsHeaders(rows[1..], table, period, today, parse);
      var w := WithoutHeaders(rows);
      if rows[0] != HeaderRow {
        assert w[0] == rows[0] && w[1..] == WithoutHeaders(rows[1..]);
      } else {
        assert w == WithoutHeaders(rows[1..]);
      }
    }
  }

  /** For the period `"all"`, with every row parseable, the read keeps every
      row: one pair per row, in file order. */
  lemma {:induction false} ReadSpecAll(rows: seq<Row>, skipHeaders: bool, table: PeriodTable, today: int, parse: CsvParsers)
    requires !skipHeaders || HeaderRow !in rows
    requires forall i :: 0 <= i < |rows| ==> parse.date(rows[i].date).Some? && parse.weight(rows[i].weight).Some?
    ensures var r := ReadSpec(rows, skipHeaders, table, "all", today, parse);
      && r.Ok? && |r.value| == |rows|
      && forall i :: 0 <= i < |rows| ==>
           r.value[i] == Entry(parse.date(rows[i].date).value, parse.weight(rows[i].weight).value)
    decreases |rows|
  {
    if rows != [] {
      var tail := rows[1..];
      ReadSpecAll(tail, skipHeaders, table, today, parse);
      assert rows[0] in rows;
      var r := ReadSpec(rows, skipHeaders, table, "all", today, parse);
      var rest := ReadSpec(tail, skipHeaders, table, "all", today, parse);
      assert r.value == [Entry(parse.date(rows[0].date).value, parse.weight(rows[0].weight).value)] + rest.value;
      forall i | 1 <= i < |rows|
        ensures r.value[i] == Entry(parse.date(rows[i].date).value, parse.weight(rows[i].weight).value)
      {
        assert rows[i] == tail[i - 1];
      }
    }
  }

  // ---------------------------------------------------------------------
  // From pairs to a plot: unzipping and moving averages
  // ---------------------------------------------------------------------

  /** `dates, weights = zip(*data)`: the two columns of the pairs read; with
      no pair at all the unpacking raises `ValueError`. */
  function Unzip(data: seq<Entry>): (r: Result<(seq<int>, seq<real>)>)
    ensures r.Ok? <==> |data| > 0
    ensures r.Ok? ==> |r.value.0| == |data| == |r.value.1|
    ensures r.Ok? ==> forall i :: 0 <= i < |data| ==> data[i] == Entry(r.value.0[i], r.value.1[i])
  {
    if data == [] then Err(ValueError("not enough values to unpack (expected 2, got 0)"))
    else Ok((seq(|data|, i requires 0 <= i < |data| => data[i].day),
             seq(|data|, i requires 0 <= i < |data| => data[i].weight)))
  }

  function Sum(s: seq<real>): real
  {
    if s == [] then 0.0 else Sum(s[..|s| - 1]) + s[|s| - 1]
  }

  /** `np.mean` of a non-empty window. */
  function Mean(s: seq<real>): real
    requires |s| > 0
  {
    Sum(s) / (|s| as real)
  }

  /** How many windows of `window` consecutive points fit in `n` points:
      `range(n - window + 1)`, empty when `n < window`. */
  function WindowCount(n: nat, window: nat): nat
    requires window > 0
  {
    if n >= window then n - window + 1 else 0
  }

  /** The moving-average loop of `stats`: one mean per window of `window`
      consecutive weights, the i-th average covering weights i .. i+window-1. */
  method MovingAverages(weights: seq<real>, window: nat) returns (averages: seq<real>)
    requires window > 0
    ensures |averages| == WindowCount(|weights|, window)
    ensures forall i :: 0 <= i < |averages| ==> averages[i] == Mean(weights[i..i + window])
  {
    averages := [];
    var i := 0;
    while i < |weights| - window + 1
      invariant 0 <= i <= WindowCount(|weights|, window)
      invariant |averages| == i
      invariant forall k :: 0 <= k < i ==> averages[k] == Mean(weights[k..k + window])
      decreases |weights| - window + 1 - i
    {
      averages := averages + [Mean(weights[i..i + window])];
      i := i + 1;
    }
  }

  /** `dates[window - 1:]`: the date plotted against each average is the last
      date of its window, so the two series have the same length. */
  function AverageDates(dates: seq<int>, window: nat): (r: seq<int>)
    requires window > 0
    ensures |r| == WindowCount(|dates|, window)
    ensures forall i :: 0 <= i < |r| ==> r[i] == dates[i + window - 1]
  {
    if window - 1 <= |dates| then dates[window - 1..] else []
  }

  /** A sum of values that all lie in [lo, hi] lies in [lo*n, hi*n]. */
  lemma {:induction false} SumBetween(s: seq<real>, lo: real, hi: real)
    requires forall i :: 0 <= i < |s| ==> lo <= s[i] <= hi
    ensures lo * (|s| as real) <= Sum(s) <= hi * (|s| as real)
    decreases |s|
  {
    if s != [] {
      var init, last := s[..|s| - 1], s[|s| - 1];
      assert forall i :: 0 <= i < |init| ==> init[i] == s[i];
      SumBetween(init, lo, hi);
      assert Sum(s) == Sum(init) + last;
      assert lo <= last <= hi;
      var m := |init| as real;
      assert |s| as real == m + 1.0;
      ScaleByOneMore(lo, m);
      ScaleByOneMore(hi, m);
    }
  }

  lemma ScaleByOneMore(a: real, m: real)
    ensures a * (m + 1.0) == a * m + a
  {
  }

  /** Every moving average lies between the smallest and the largest weight
      of its window. */
  lemma MeanBetween(s: seq<real>, lo: real, hi: real)
    requires |s| > 0
    requires forall i :: 0 <= i < |s| ==> lo <= s[i] <= hi
    ensures lo <= Mean(s) <= hi
  {
    SumBetween(s, lo, hi);
    var n := |s| as real;
    assert lo * n / n == lo && hi * n / n == hi;
  }

  /** A steady weight gives a flat average: the mean of a constant window is
      that constant. */
  lemma {:induction false} SumConstant(s: seq<real>, c: real)
    requires forall i :: 0 <= i < |s| ==> s[i] == c
    ensures Sum(s) == c * (|s| as real)
    decreases |s|
  {
    if s != [] {
      var init := s[..|s| - 1];
      assert forall i :: 0 <= i < |init| ==> init[i] == s[i];
      SumConstant(init, c);
    }
  }

  lemma MeanConstant(s: seq<real>, c: real)
    requires |s| > 0
    requires forall i :: 0 <= i < |s| ==> s[i] == c
    ensures Mean(s) == c
  {
    SumConstant(s, c);
  }

  /** The moving averages of a series whose weights all lie in [lo, hi] lie
      in [lo, hi] too. */
  lemma MovingAveragesBetween(weights: seq<real>, window: nat, averages: seq<real>, lo: real, hi: real)
    requires window > 0
    requires forall i :: 0 <= i < |weights| ==> lo <= weights[i] <= hi
    requires |averages| == WindowCount(|weights|, window)
    requires forall i :: 0 <= i < |averages| ==> averages[i] == Mean(weights[i..i + window])
    ensures forall i :: 0 <= i < |averages| ==> lo <= averages[i] <= hi
  {
    forall i | 0 <= i < |averages|
      ensures lo <= averages[i] <= hi
    {
      var w := weights[i..i + window];
      assert forall k :: 0 <= k < |w| ==> w[k] == weights[i + k];
      MeanBetween(w, lo, hi);
    }
  }

  /** An unknown period raises as soon as one data row is reached (after its
      date is parsed): the read goes through exactly when there is no data
      row, and then it is empty. */
  lemma {:induction false} ReadSpecUnknownPeriod(rows: seq<Row>, skipHeaders: bool, table: PeriodTable, period: string, today: int, parse: CsvParsers)
    requires period != "all" && period !in table.days
    ensures var r := ReadSpec(rows, skipHeaders, table, period, today, parse);
      (r.Ok? <==> (if skipHeaders then WithoutHeaders(rows) else rows) == [])
      && (r.Ok? ==> r.value == [])
      && (r.Err? ==>
            r.error == InsidePeriod(table, period, 0, today).error
            || exists i :: 0 <= i < |rows| && parse.date(rows[i].date).None? && r.error == DateError(rows[i].date))
    ensures var r := ReadSpec(rows, skipHeaders, table, period, today, parse);
      (forall i :: 0 <= i < |rows| ==> parse.date(rows[i].date).Some?) && r.Err? ==>
        r.error == (if table.keyErrorEscapes then KeyError(period) else ValueError("Invalid period."))
    decreases |rows|
  {
    if rows != [] {
      ReadSpecUnknownPeriod(rows[1..], skipHeaders, table, period, today, parse);
      if skipHeaders && rows[0] != HeaderRow {
        assert WithoutHeaders(rows)[0] == rows[0];
      }
      var r := ReadSpec(rows, skipHeaders, table, period, today, parse);
      var tail := ReadSpec(rows[1..], skipHeaders, table, period, today, parse);
      if r.Err? && !(skipHeaders && rows[0] == HeaderRow) && parse.date(rows[0].date).None? {
        assert parse.date(rows[0].date).None? && r.error == DateError(rows[0].date);
      } else if r.Err? && r.error != InsidePeriod(table, period, 0, today).error && r == tail {
        var j :| 0 <= j < |rows[1..]| && parse.date(rows[1..][j].date).None? && tail.error == DateError(rows[1..][j].date);
        assert rows[1..][j] == rows[j + 1];
      }
    }
  }
}

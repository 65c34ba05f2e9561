/** The query engine of the statistics service: the loaded table, the channel listing and the
    per-channel statistics over an optional inclusive time window. */
module DataService {
  import opened Results
  import opened Seqs
  import opened Aggregates

  // ---------------------------------------------------------------------------------------------
  // The loaded table
  // ---------------------------------------------------------------------------------------------

  /** A point in time after parsing; its unit does not matter here, only its order. */
  type Timestamp = int

  /** One row: the parsed `timestamp` (absent when the raw `t` value could not be cast) and the
      values of the channels in that row; a channel missing from `cells` is null in that row. */
  datatype Row = Row(ts: Option<Timestamp>, cells: map<string, real>)

  /** The table held by the service: its column names in order, and its rows. */
  datatype Table = Table(columns: seq<string>, rows: seq<Row>)

  /** The raw time column and the derived timestamp column; neither is a channel. */
  predicate IsReserved(name: string)
  {
    name == "t" || name == "timestamp"
  }

  predicate IsChannelName(name: string)
  {
    !IsReserved(name)
  }

  /** Ascending timestamp order with missing timestamps first, as the loader's sort leaves them. */
  predicate TsLe(a: Option<Timestamp>, b: Option<Timestamp>)
  {
    a.None? || (b.Some? && a.value <= b.value)
  }

  ghost predicate SortedByTimestamp(rows: seq<Row>)
  {
    forall i, j | 0 <= i < j < |rows| :: TsLe(rows[i].ts, rows[j].ts)
  }

  /** What loading guarantees: unique column names, both time columns, rows sorted by timestamp. */
  ghost predicate WellFormed(data: Table)
  {
    && Distinct(data.columns)
    && "t" in data.columns
    && "timestamp" in data.columns
    && SortedByTimestamp(data.rows)
  }

  // ---------------------------------------------------------------------------------------------
  // get_channels
  // ---------------------------------------------------------------------------------------------

  /** The condition of the filtered comprehension: a channel whose name contains `channelType`. */
  function ChannelOfType(channelType: string): string -> bool
  {
    name => Contains(name, channelType) && IsChannelName(name)
  }

  /** The channel names of the table in column order, keeping only those that contain
      `channelType` when it is given and non-empty (an empty string is falsy and filters nothing). */
  function GetChannels(data: Table, channelType: Option<string>): (r: seq<string>)
    ensures |r| <= |data.columns|
    ensures forall name :: name in r ==> name in data.columns && IsChannelName(name)
  {
    var p := if channelType.Some? && channelType.value != "" then ChannelOfType(channelType.value)
             else IsChannelName;
    FilterSound(data.columns, p);
    if channelType.Some? && channelType.value != "" then
      Filter(data.columns, ChannelOfType(channelType.value))
    else
      Filter(data.columns, IsChannelName)
  }

  lemma {:induction false} ChannelsMembership(data: Table, channelType: Option<string>, name: string)
    ensures "t" !in GetChannels(data, channelType) && "timestamp" !in GetChannels(data, channelType)
    ensures name in GetChannels(data, channelType) <==>
              && name in data.columns
              && IsChannelName(name)
              && (channelType.Some? && channelType.value != "" ==> Contains(name, channelType.value))
  {
    var r := GetChannels(data, channelType);
    if channelType.Some? && channelType.value != "" {
      var p := ChannelOfType(channelType.value);
      FilterMember(data.columns, p, name);
      FilterMember(data.columns, p, "t");
      FilterMember(data.columns, p, "timestamp");
    } else {
      FilterMember(data.columns, IsChannelName, name);
      FilterMember(data.columns, IsChannelName, "t");
      FilterMember(data.columns, IsChannelName, "timestamp");
    }
  }

  /** Every listed name contains the filter at some position. */
  lemma {:induction false} ChannelsMatchType(data: Table, channelType: string, name: string)
    requires channelType != ""
    requires name in GetChannels(data, Some(channelType))
    ensures exists i :: OccursAt(name, channelType, i)
  {
    ChannelsMembership(data, Some(channelType), name);
    ContainsIff(name, channelType);
  }

  lemma {:induction false} ChannelsInColumnOrder(data: Table, channelType: Option<string>)
    ensures IsSubsequence(GetChannels(data, channelType), data.columns)
    ensures Distinct(data.columns) ==> Distinct(GetChannels(data, channelType))
  {
    var p := if channelType.Some? && channelType.value != "" then ChannelOfType(channelType.value)
             else IsChannelName;
    FilterSubsequence(data.columns, p);
    if Distinct(data.columns) {
      FilterDistinct(data.columns, p);
    }
  }

  /** The falsy test on `channel_type` makes no difference for the empty string: the filtered
      comprehension with "" would keep exactly the same names. */
  lemma {:induction false} EmptyTypeMatchesAll(data: Table)
    ensures Filter(data.columns, ChannelOfType("")) == GetChannels(data, None)
    ensures GetChannels(data, Some("")) == GetChannels(data, None)
  {
    forall name | name in data.columns
      ensures ChannelOfType("")(name) == IsChannelName(name)
    {
      ContainsEmpty(name);
    }
    FilterAgree(data.columns, ChannelOfType(""), IsChannelName);
  }

  // ---------------------------------------------------------------------------------------------
  // The time window
  // ---------------------------------------------------------------------------------------------

  /** The filter `timestamp >= start`; a missing timestamp compares as null and is dropped. */
  function AtOrAfter(start: Timestamp): Row -> bool
  {
    (row: Row) => row.ts.Some? && start <= row.ts.value
  }

  /** The filter `timestamp <= end`. */
  function AtOrBefore(end: Timestamp): Row -> bool
  {
    (row: Row) => row.ts.Some? && row.ts.value <= end
  }

  /** A row belongs to the window when it passes every bound that is given; both are inclusive. */
  predicate InWindow(row: Row, start: Option<Timestamp>, end: Option<Timestamp>)
  {
    && (start.Some? ==> row.ts.Some? && start.value <= row.ts.value)
    && (end.Some? ==> row.ts.Some? && row.ts.value <= end.value)
  }

  function InWindowOf(start: Option<Timestamp>, end: Option<Timestamp>): Row -> bool
  {
    row => InWindow(row, start, end)
  }

  /** The rows that survive the time filters, in table order. */
  function Window(rows: seq<Row>, start: Option<Timestamp>, end: Option<Timestamp>): seq<Row>
  {
    Filter(rows, InWindowOf(start, end))
  }

  /** Applying the start filter and then the end filter, each only when its bound is given,
      leaves exactly the window. */
  lemma {:induction false} WindowSteps(rows: seq<Row>, start: Option<Timestamp>, end: Option<Timestamp>)
    ensures Window(rows, start, end) ==
              var afterStart := if start.Some? then Filter(rows, AtOrAfter(start.value)) else rows;
              if end.Some? then Filter(afterStart, AtOrBefore(end.value)) else afterStart
  {
    var w := InWindowOf(start, end);
    if start.Some? && end.Some? {
      FilterFilter(rows, AtOrAfter(start.value), AtOrBefore(end.value), w);
    } else if start.Some? {
      FilterAgree(rows, w, AtOrAfter(start.value));
    } else if end.Some? {
      FilterAgree(rows, w, AtOrBefore(end.value));
    } else {
      FilterAll(rows, w);
    }
  }

  lemma {:induction false} WindowMembership(rows: seq<Row>, start: Option<Timestamp>, end: Option<Timestamp>, row: Row)
    ensures row in Window(rows, start, end) <==>
              && row in rows
              && (start.Some? ==> row.ts.Some? && start.value <= row.ts.value)
              && (end.Some? ==> row.ts.Some? && row.ts.value <= end.value)
    ensures row.ts.None? ==> (row in Window(rows, start, end) <==> row in rows && start.None? && end.None?)
    ensures IsSubsequence(Window(rows, start, end), rows)
  {
    FilterMember(rows, InWindowOf(start, end), row);
    FilterSubsequence(rows, InWindowOf(start, end));
  }

  /** A window whose end lies before its start keeps no row. */
  lemma {:induction false} InvertedWindowIsEmpty(rows: seq<Row>, start: Timestamp, end: Timestamp)
    requires end < start
    ensures Window(rows, Some(start), Some(end)) == []
  {
    FilterNone(rows, InWindowOf(Some(start), Some(end)));
  }

  /** On rows sorted by timestamp the window is one contiguous run of rows. */
  lemma {:induction false} WindowIsContiguous(rows: seq<Row>, start: Option<Timestamp>, end: Option<Timestamp>)
    requires SortedByTimestamp(rows)
    ensures exists lo, hi :: 0 <= lo <= hi <= |rows| && Window(rows, start, end) == rows[lo..hi]
  {
    var p := InWindowOf(start, end);
    forall i, j, k | 0 <= i < j < k < |rows| && p(rows[i]) && p(rows[k]) ensures p(rows[j]) {
      assert TsLe(rows[i].ts, rows[j].ts) && TsLe(rows[j].ts, rows[k].ts);
    }
    var lo, hi := FilterConvex(rows, p);
    assert Window(rows, start, end) == rows[lo..hi];
  }

  /** When every row has a timestamp, bounding the window by the first and the last timestamp keeps
      every row, exactly as giving no bound at all does. */
  lemma {:induction false} FullRangeWindow(rows: seq<Row>)
    requires SortedByTimestamp(rows)
    requires rows != [] && forall k | 0 <= k < |rows| :: rows[k].ts.Some?
    ensures Window(rows, Some(rows[0].ts.value), Some(rows[|rows| - 1].ts.value)) == rows
    ensures Window(rows, None, None) == rows
  {
    var first, last := rows[0].ts.value, rows[|rows| - 1].ts.value;
    forall row | row in rows ensures InWindowOf(Some(first), Some(last))(row) {
      var k :| 0 <= k < |rows| && rows[k] == row;
      assert k > 0 ==> TsLe(rows[0].ts, rows[k].ts);
      assert k < |rows| - 1 ==> TsLe(rows[k].ts, rows[|rows| - 1].ts);
    }
    FilterAll(rows, InWindowOf(Some(first), Some(last)));
    FilterAll(rows, InWindowOf(None, None));
  }

  // ---------------------------------------------------------------------------------------------
  // Per-channel aggregates
  // ---------------------------------------------------------------------------------------------

  /** The non-missing values of channel `c` in `rows`, in row order. */
  function ColumnValues(rows: seq<Row>, c: string): (xs: seq<real>)
    ensures |xs| <= |rows|
  {
    if rows == [] then []
    else (if c in rows[0].cells then [rows[0].cells[c]] else []) + ColumnValues(rows[1..], c)
  }

  function HasValue(c: string): Row -> bool
  {
    (row: Row) => c in row.cells
  }

  /** The count of a channel is the number of rows in which it is not null. */
  lemma {:induction false} CountIsPresentRows(rows: seq<Row>, c: string)
    ensures |ColumnValues(rows, c)| == |Filter(rows, HasValue(c))|
    ensures forall x :: x in ColumnValues(rows, c) <==> exists row :: row in rows && c in row.cells && row.cells[c] == x
  {
    if rows != [] {
      CountIsPresentRows(rows[1..], c);
      assert rows == [rows[0]] + rows[1..];
      forall x ensures x in ColumnValues(rows, c) <==> exists row :: row in rows && c in row.cells && row.cells[c] == x {
        if x in ColumnValues(rows, c) && !(c in rows[0].cells && rows[0].cells[c] == x) {
          var row :| row in rows[1..] && c in row.cells && row.cells[c] == x;
          assert row in rows;
        }
      }
    }
  }

  /** The five statistics emitted for one channel. */
  datatype ChannelStats = ChannelStats(mean: real, std: real, min: real, max: real, count: nat)

  /** The standard-deviation kernel is left abstract: it yields no value where the column engine
      yields null. */
  type StdKernel = seq<real> -> Option<real>

  /** The record for a channel with values `xs`, or nothing when an aggregate is null: mean, min
      and max are null over no values, and the conversion of a null to a float fails. */
  function Summarize(xs: seq<real>, std: StdKernel): (r: Option<ChannelStats>)
    ensures r.None? <==> xs == [] || std(xs).None?
    ensures r.Some? ==> && r.value.count == |xs| > 0
                        && r.value.min in xs && r.value.max in xs
                        && r.value.min <= r.value.max
  {
    if xs == [] then None
    else match std(xs)
      case None => None
      case Some(sd) => Some(ChannelStats(Sum(xs) / (|xs| as real), sd, Min(xs), Max(xs), |xs|))
  }

  lemma {:induction false} SummaryBounds(xs: seq<real>, std: StdKernel)
    ensures Summarize(xs, std).None? <==> xs == [] || std(xs).None?
    ensures Summarize(xs, std).Some? ==>
              var s := Summarize(xs, std).value;
              && s.count == |xs| > 0
              && s.mean == Sum(xs) / (s.count as real)
              && s.min <= s.mean <= s.max
              && s.min in xs && s.max in xs
              && (forall x :: x in xs ==> s.min <= x <= s.max)
              && std(xs) == Some(s.std)
  {
    if xs != [] && std(xs).Some? {
      MeanOfValues(xs);
      var s := Summarize(xs, std).value;
      assert s.mean == Sum(xs) / (|xs| as real) && s.min == Min(xs) && s.max == Max(xs) && s.count == |xs|;
    }
  }

  function ColumnStats(rows: seq<Row>, c: string, std: StdKernel): Option<ChannelStats>
  {
    Summarize(ColumnValues(rows, c), std)
  }

  function HasNullAggregate(rows: seq<Row>, std: StdKernel): string -> bool
  {
    c => ColumnStats(rows, c, std).None?
  }

  // ---------------------------------------------------------------------------------------------
  // get_stats
  // ---------------------------------------------------------------------------------------------

  /** The faults get_stats can raise: selecting a name that is not a column or selecting a name
      twice (both refused by the column engine), and a null aggregate that cannot become a float. */
  datatype Fault = UnknownColumn(name: string) | DuplicateColumn | NullAggregate(channel: string)

  /** A Python dict from channel name to record: its keys in insertion order, and its entries. */
  datatype Dict = Dict(keys: seq<string>, entries: map<string, ChannelStats>) {

    predicate IsEmpty()
    {
      keys == []
    }

    /** Each key once, and exactly the keys of `entries`. */
    ghost predicate Valid()
    {
      Distinct(keys) && forall k :: k in entries <==> k in keys
    }

    /** `d[k] = v`: a new key goes to the end, an existing key keeps its place. */
    function Put(k: string, v: ChannelStats): Dict
    {
      if k in entries then Dict(keys, entries[k := v]) else Dict(keys + [k], entries[k := v])
    }
  }

  const EmptyDict := Dict([], map[])

  /** The columns the select step asks for: `timestamp` and the requested channels, or every
      channel and then `timestamp` when no channel is requested. */
  function SelectedColumns(data: Table, channels: seq<string>): seq<string>
  {
    if channels != [] then ["timestamp"] + channels else Filter(data.columns, IsChannelName) + ["timestamp"]
  }

  /** Selecting `names` from a table with `columns`: every name must exist and none may repeat. */
  function Select(columns: seq<string>, names: seq<string>): (r: Result<seq<string>, Fault>)
    ensures r.Success? <==> (forall n :: n in names ==> n in columns) && Distinct(names)
    ensures r.Success? ==> r.value == names
    ensures r.Failure? && r.error.UnknownColumn? ==> r.error.name in names && r.error.name !in columns
  {
    var unknown := Filter(names, NotIn(columns));
    FilterNone(names, NotIn(columns));
    if unknown != [] then
      FilterMember(names, NotIn(columns), unknown[0]);
      Failure(UnknownColumn(unknown[0]))
    else if !Distinct(names) then Failure(DuplicateColumn)
    else Success(names)
  }

  /** The records of the selected channels over a non-empty window, keyed in selection order. */
  function RecordMap(chans: seq<string>, window: seq<Row>, std: StdKernel): map<string, ChannelStats>
  {
    map c | c in chans && ColumnStats(window, c, std).Some? :: ColumnStats(window, c, std).value
  }

  /** The fault of the first selected channel with a null aggregate, or else one record per
      selected channel. */
  function Records(chans: seq<string>, window: seq<Row>, std: StdKernel): Result<Dict, Fault>
  {
    var bad := Filter(chans, HasNullAggregate(window, std));
    if bad != [] then Failure(NullAggregate(bad[0])) else Success(Dict(chans, RecordMap(chans, window, std)))
  }

  /** What get_stats computes, stated without its loop: the fault of the select step if any; the
      empty dict if no row is in the window; otherwise the records of the selected channels. */
  function ExpectedStats(data: Table, channels: seq<string>, start: Option<Timestamp>,
                         end: Option<Timestamp>, std: StdKernel): (r: Result<Dict, Fault>)
    ensures r.Success? ==> forall c :: c in r.value.entries ==>
              && ColumnStats(Window(data.rows, start, end), c, std) == Some(r.value.entries[c])
              && 0 < r.value.entries[c].count <= |Window(data.rows, start, end)|
  {
    var cols := SelectedColumns(data, channels);
    match Select(data.columns, cols)
    case Failure(f) => Failure(f)
    case Success(_) =>
      var window := Window(data.rows, start, end);
      if window == [] then Success(EmptyDict) else Records(Filter(cols, IsChannelName), window, std)
  }

  /** get_stats: select the columns, narrow the rows to the window, return the empty dict when
      no row is left, and otherwise fill the dict one selected channel at a time. */
  method GetStats(data: Table, channels: seq<string>, start: Option<Timestamp>,
                  end: Option<Timestamp>, std: StdKernel) returns (r: Result<Dict, Fault>)
    ensures r == ExpectedStats(data, channels, start, end, std)
  {
    var cols: seq<string>;
    if channels != [] {
      cols := ["timestamp"] + channels;
    } else {
      cols := Filter(data.columns, IsChannelName) + ["timestamp"];
    }
    var selected := Select(data.columns, cols);
    if selected.Failure? {
      return Failure(selected.error);
    }

    var rows := data.rows;
    if start.Some? {
      rows := Filter(rows, AtOrAfter(start.value));
    }
    if end.Some? {
      rows := Filter(rows, AtOrBefore(end.value));
    }
    WindowSteps(data.rows, start, end);
    if |rows| == 0 {
      return Success(EmptyDict);
    }

    assert rows == Window(data.rows, start, end);
    assert Distinct(cols);
    r := CollectStats(cols, rows, std);
  }

  /** The loop of get_stats: one record per selected channel in selection order, the reserved
      names skipped, stopping at the first channel whose aggregates cannot become floats. */
  method CollectStats(cols: seq<string>, rows: seq<Row>, std: StdKernel) returns (r: Result<Dict, Fault>)
    requires Distinct(cols)
    ensures r == Records(Filter(cols, IsChannelName), rows, std)
  {
    var bad := HasNullAggregate(rows, std);
    var stats := EmptyDict;
    for i := 0 to |cols|
      invariant stats.keys == Filter(cols[..i], IsChannelName)
      invariant forall c :: c in stats.entries <==> c in stats.keys
      invariant forall c :: c in stats.entries ==> ColumnStats(rows, c, std) == Some(stats.entries[c])
      invariant Filter(stats.keys, bad) == []
    {
      var col := cols[i];
      FilterStep(cols, i, IsChannelName);
      if IsReserved(col) {
        continue;
      }
      var colStats := ColumnStats(rows, col, std);
      if colStats.None? {
        FirstNullAggregate(cols, i, bad);
        return Failure(NullAggregate(col));
      }
      FreshKey(cols, i);
      FilterAppend(stats.keys, [col], bad);
      stats := stats.Put(col, colStats.value);
    }
    assert cols[..|cols|] == cols;
    AllRecords(stats, rows, std);
    return Success(stats);
  }

  lemma {:induction false} FilterStep(s: seq<string>, i: int, p: string -> bool)
    requires 0 <= i < |s|
    ensures Filter(s[..i + 1], p) == Filter(s[..i], p) + (if p(s[i]) then [s[i]] else [])
  {
    assert s[..i + 1] == s[..i] + [s[i]];
    FilterAppend(s[..i], [s[i]], p);
  }

  lemma {:induction false} FreshKey(s: seq<string>, i: int)
    requires 0 <= i < |s| && Distinct(s)
    ensures s[i] !in Filter(s[..i], IsChannelName)
  {
    FilterMember(s[..i], IsChannelName, s[i]);
  }

  /** The first channel of the selection with a null aggregate is the one the loop stops at. */
  lemma {:induction false} FirstNullAggregate(cols: seq<string>, i: int, bad: string -> bool)
    requires 0 <= i < |cols| && IsChannelName(cols[i]) && bad(cols[i])
    requires Filter(Filter(cols[..i], IsChannelName), bad) == []
    ensures var b := Filter(Filter(cols, IsChannelName), bad); b != [] && b[0] == cols[i]
  {
    var before := Filter(cols[..i], IsChannelName);
    FilterStep(cols, i, IsChannelName);
    assert cols == cols[..i + 1] + cols[i + 1..];
    FilterAppend(cols[..i + 1], cols[i + 1..], IsChannelName);
    var after := Filter(cols[i + 1..], IsChannelName);
    assert Filter(cols, IsChannelName) == before + [cols[i]] + after;
    FilterAppend(before + [cols[i]], after, bad);
    FilterAppend(before, [cols[i]], bad);
  }

  /** A dict that holds the record of every selected channel, none of them null, is the result. */
  lemma {:induction false} AllRecords(stats: Dict, rows: seq<Row>, std: StdKernel)
    requires forall c :: c in stats.entries <==> c in stats.keys
    requires forall c :: c in stats.entries ==> ColumnStats(rows, c, std) == Some(stats.entries[c])
    requires Filter(stats.keys, HasNullAggregate(rows, std)) == []
    ensures Records(stats.keys, rows, std) == Success(stats)
  {
    FilterNone(stats.keys, HasNullAggregate(rows, std));
    assert stats.entries == RecordMap(stats.keys, rows, std);
  }

  // ---------------------------------------------------------------------------------------------
  // Properties of get_stats
  // ---------------------------------------------------------------------------------------------

  lemma {:induction false} FilterIdempotent(s: seq<string>)
    ensures Filter(Filter(s, IsChannelName), IsChannelName) == Filter(s, IsChannelName)
  {
    FilterFilter(s, IsChannelName, IsChannelName, IsChannelName);
  }

  /** The channels of the selection: every channel when none is requested, else the requested
      names other than `t` and `timestamp`, in request order. */
  lemma {:induction false} SelectedChannels(data: Table, channels: seq<string>)
    ensures Filter(SelectedColumns(data, channels), IsChannelName) ==
              if channels == [] then GetChannels(data, None) else Filter(channels, IsChannelName)
  {
    var stamp := ["timestamp"];
    var none: seq<string> := [];
    assert Filter(stamp, IsChannelName) == none by {
      assert !IsChannelName(stamp[0]) && stamp[1..] == none;
    }
    if channels != [] {
      FilterAppend(stamp, channels, IsChannelName);
      assert SelectedColumns(data, channels) == stamp + channels;
    } else {
      var chans := Filter(data.columns, IsChannelName);
      FilterAppend(chans, stamp, IsChannelName);
      FilterIdempotent(data.columns);
      assert SelectedColumns(data, channels) == chans + stamp;
      assert GetChannels(data, None) == chans;
    }
  }

  /** The keys of a successful result: none when the window is empty, otherwise exactly the
      selected channels; and the result is a well-formed dict. */
  lemma {:induction false} StatsKeys(data: Table, channels: seq<string>, start: Option<Timestamp>,
                                     end: Option<Timestamp>, std: StdKernel)
    ensures var r := ExpectedStats(data, channels, start, end, std);
            r.Success? ==>
            var d := r.value;
            && d.Valid()
            && (Window(data.rows, start, end) == [] ==> d == EmptyDict)
            && (Window(data.rows, start, end) != [] ==>
                  d.keys == if channels == [] then GetChannels(data, None) else Filter(channels, IsChannelName))
  {
    var cols := SelectedColumns(data, channels);
    var window := Window(data.rows, start, end);
    SelectedChannels(data, channels);
    if ExpectedStats(data, channels, start, end, std).Success? && window != [] {
      var chans := Filter(cols, IsChannelName);
      var d := ExpectedStats(data, channels, start, end, std).value;
      FilterDistinct(cols, IsChannelName);
      FilterNone(chans, HasNullAggregate(window, std));
      assert forall k :: k in d.entries <==> k in d.keys;
    }
  }

  /** Each emitted record describes the non-missing values of its channel in the window. */
  lemma {:induction false} StatsRecords(data: Table, channels: seq<string>, start: Option<Timestamp>,
                                        end: Option<Timestamp>, std: StdKernel, c: string)
    ensures var r := ExpectedStats(data, channels, start, end, std);
            r.Success? && c in r.value.entries ==>
            var s := r.value.entries[c];
            var window := Window(data.rows, start, end);
            var xs := ColumnValues(window, c);
            && s.count == |xs| == |Filter(window, HasValue(c))|
            && 0 < s.count <= |window|
            && s.mean == Sum(xs) / (s.count as real)
            && s.min <= s.mean <= s.max
            && (forall x :: x in xs ==> s.min <= x <= s.max)
            && s.min in xs && s.max in xs
            && std(xs) == Some(s.std)
  {
    var window := Window(data.rows, start, end);
    SummaryBounds(ColumnValues(window, c), std);
    CountIsPresentRows(window, c);
  }

  /** get_stats fails exactly when the select step fails, or when some selected channel has a
      null aggregate over a non-empty window. */
  lemma {:induction false} StatsFaults(data: Table, channels: seq<string>, start: Option<Timestamp>,
                                       end: Option<Timestamp>, std: StdKernel)
    ensures var window := Window(data.rows, start, end);
            ExpectedStats(data, channels, start, end, std).Failure? <==>
              || Select(data.columns, SelectedColumns(data, channels)).Failure?
              || (window != [] && exists c :: c in Filter(SelectedColumns(data, channels), IsChannelName)
                                             && ColumnStats(window, c, std).None?)
  {
    var window := Window(data.rows, start, end);
    FilterNone(Filter(SelectedColumns(data, channels), IsChannelName), HasNullAggregate(window, std));
  }

  /** The select step cannot fail when every channel is requested, nor when the request names
      distinct channels of the table; it fails when a request names a channel twice. */
  lemma {:induction false} SelectOutcome(data: Table, channels: seq<string>)
    requires Distinct(data.columns) && "timestamp" in data.columns
    requires forall c :: c in channels ==> c in GetChannels(data, None)
    ensures Select(data.columns, SelectedColumns(data, channels)).Success? <==> Distinct(channels)
  {
    var cols := SelectedColumns(data, channels);
    forall c | c in cols ensures c in data.columns {
      if c != "timestamp" && channels != [] {
        assert c in channels;
        ChannelsMembership(data, None, c);
      } else if c != "timestamp" {
        FilterMember(cols[..|cols| - 1], IsChannelName, c);
        assert cols == cols[..|cols| - 1] + ["timestamp"];
        FilterMember(data.columns, IsChannelName, c);
      }
    }
    FilterNone(cols, NotIn(data.columns));
    if channels != [] {
      forall c | c in channels ensures c != "timestamp" {
        ChannelsMembership(data, None, c);
      }
      DistinctCons("timestamp", channels);
    } else {
      ChannelsInColumnOrder(data, None);
      ChannelsMembership(data, None, "timestamp");
      DistinctSnoc(GetChannels(data, None), "timestamp");
    }
  }

  lemma DistinctCons(x: string, s: seq<string>)
    ensures Distinct([x] + s) <==> x !in s && Distinct(s)
  {
    var r := [x] + s;
    if Distinct(r) {
      forall i, j | 0 <= i < j < |s| ensures s[i] != s[j] {
        assert s[i] == r[i + 1] && s[j] == r[j + 1];
      }
      forall k | 0 <= k < |s| ensures s[k] != x {
        assert r[0] == x && r[k + 1] == s[k];
      }
    }
  }

  lemma DistinctSnoc(s: seq<string>, x: string)
    ensures Distinct(s + [x]) <==> x !in s && Distinct(s)
  {
    var r := s + [x];
    if Distinct(r) {
      forall i, j | 0 <= i < j < |s| ensures s[i] != s[j] {
        assert s[i] == r[i] && s[j] == r[j];
      }
      forall k | 0 <= k < |s| ensures s[k] != x {
        assert r[|s|] == x && r[k] == s[k];
      }
    }
    if x !in s && Distinct(s) {
      forall i, j | 0 <= i < j < |r| ensures r[i] != r[j] {
        if j == |s| {
          assert r[i] == s[i] && r[j] == x;
        } else {
          assert r[i] == s[i] && r[j] == s[j];
        }
      }
    }
  }

  /** Statistics over the whole table equal statistics bounded by its first and last timestamp,
      provided every row has a timestamp. */
  lemma {:induction false} FullRangeStats(data: Table, channels: seq<string>, std: StdKernel)
    requires SortedByTimestamp(data.rows)
    requires data.rows != [] && forall k | 0 <= k < |data.rows| :: data.rows[k].ts.Some?
    ensures ExpectedStats(data, channels, None, None, std) ==
            ExpectedStats(data, channels, Some(data.rows[0].ts.value), Some(data.rows[|data.rows| - 1].ts.value), std)
  {
    FullRangeWindow(data.rows);
  }

  /** A standard-deviation kernel that never yields null, for the concrete table below. */
  function ZeroStd(xs: seq<real>): Option<real>
  {
    Some(0.0)
  }

  /** A loaded table whose first row has a raw time the loader could not cast. */
  const Undated := Row(None, map["a" := 1.0])
  const Dated := Row(Some(5), map["a" := 2.0])
  const MixedTable := Table(["t", "timestamp", "a"], [Undated, Dated])

  lemma MixedTableChannels()
    ensures WellFormed(MixedTable)
    ensures Select(MixedTable.columns, SelectedColumns(MixedTable, [])).Success?
    ensures Filter(SelectedColumns(MixedTable, []), IsChannelName) == ["a"]
  {
    var columns := MixedTable.columns;
    FilterTriple(columns, IsChannelName);
    var cols := SelectedColumns(MixedTable, []);
    assert cols == ["a", "timestamp"];
    FilterPair(cols, NotIn(columns));
    FilterPair(cols, IsChannelName);
  }

  lemma MixedTableWindows()
    ensures Window(MixedTable.rows, None, None) == [Undated, Dated]
    ensures Window(MixedTable.rows, Some(5), Some(5)) == [Dated]
  {
    FilterPair(MixedTable.rows, InWindowOf(None, None));
    FilterPair(MixedTable.rows, InWindowOf(Some(5), Some(5)));
  }

  lemma MixedTableRecords(window: seq<Row>, n: nat)
    requires (window == [Undated, Dated] && n == 2) || (window == [Dated] && n == 1)
    ensures Records(["a"], window, ZeroStd).Success?
    ensures "a" in Records(["a"], window, ZeroStd).value.entries
    ensures Records(["a"], window, ZeroStd).value.entries["a"].count == n
  {
    if n == 2 {
      assert window[1..] == [Dated];
    }
    assert |ColumnValues(window, "a")| == n;
    FilterOne(["a"], HasNullAggregate(window, ZeroStd));
  }

  /** As written, the full-range promise fails for a row whose timestamp the loader could not
      cast: the sort puts it first, no bound keeps it, and bounding by the earliest and latest
      timestamps drops it. Here channel `a` counts two values without dates and one with them. */
  lemma NullTimestampOutsideFullRange()
    ensures var data := MixedTable;
            var last := data.rows[|data.rows| - 1].ts.value;
            && WellFormed(data)
            && ExpectedStats(data, [], None, None, ZeroStd).Success?
            && "a" in ExpectedStats(data, [], None, None, ZeroStd).value.entries
            && ExpectedStats(data, [], None, None, ZeroStd).value.entries["a"].count == 2
            && ExpectedStats(data, [], Some(last), Some(last), ZeroStd).Success?
            && "a" in ExpectedStats(data, [], Some(last), Some(last), ZeroStd).value.entries
            && ExpectedStats(data, [], Some(last), Some(last), ZeroStd).value.entries["a"].count == 1
  {
    MixedTableChannels();
    MixedTableWindows();
    MixedTableRecords([Undated, Dated], 2);
    MixedTableRecords([Dated], 1);
  }
}

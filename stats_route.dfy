/** The `/stats` route: it validates the requested channels and dates, asks the query engine for
    the statistics, and turns the outcome into an HTTP response. */
module StatsRoute {
  import opened Results
  import opened Seqs
  import opened DataService

  /** A start or end date as the route receives it: absent or empty (both falsy, so never
      parsed), accepted by the date parser (with the instant it denotes after normalisation to
      whole seconds), or rejected by it (with the parser's message). */
  datatype DateArg = Omitted | Given(ts: Timestamp) | Unparseable(reason: string)

  /** What the route answers: the statistics dict as the body, or an HTTP error. */
  datatype Response = Ok(body: Dict) | HttpError(status: nat, detail: string)

  const ChannelPrefix := "Invalid channel(s): "
  const DatePrefix := "Invalid datetime format: "
  const DateSuffix := ". Use YYYY-MM-DD HH:MM:SS."
  const NotFoundDetail := "No data found for the given parameters"
  const InternalPrefix := "An internal server error occurred: "

  /** The requested names that are not channels of the table, in request order. */
  function UnknownChannels(requested: seq<string>, valid: seq<string>): seq<string>
  {
    Filter(requested, NotIn(valid))
  }

  function Bound(date: DateArg): Option<Timestamp>
    requires !date.Unparseable?
  {
    if date.Given? then Some(date.ts) else None
  }

  /** The start date is parsed before the end date, so its error is the one reported. */
  function ParseDates(start: DateArg, end: DateArg): (r: Result<(Option<Timestamp>, Option<Timestamp>), string>)
    ensures r.Failure? <==> start.Unparseable? || end.Unparseable?
    ensures r.Failure? ==> r.error == if start.Unparseable? then start.reason else end.reason
    ensures r.Success? ==> (r.value.0.Some? <==> start.Given?) && (r.value.1.Some? <==> end.Given?)
  {
    if start.Unparseable? then Failure(start.reason)
    else if end.Unparseable? then Failure(end.reason)
    else Success((Bound(start), Bound(end)))
  }

  /** The route's decision, given the engine's channel list and the engine's outcome (its value,
      or the message of the fault it raised): channels are checked first, then dates, then the
      outcome. */
  function Classify(requested: seq<string>, valid: seq<string>, start: DateArg, end: DateArg,
                    stats: Result<Dict, string>): (r: Response)
    ensures r.HttpError? ==> r.status == 400 || r.status == 404 || r.status == 500
    ensures r.Ok? ==> stats == Success(r.body) && r.body.keys != []
    ensures r.Ok? ==> !start.Unparseable? && !end.Unparseable?
  {
    if requested != [] && UnknownChannels(requested, valid) != [] then
      HttpError(400, ChannelPrefix + Join(UnknownChannels(requested, valid), ", "))
    else
      match ParseDates(start, end)
      case Failure(reason) => HttpError(400, DatePrefix + reason + DateSuffix)
      case Success(_) =>
        match stats
        case Failure(message) => HttpError(500, InternalPrefix + message)
        case Success(d) => if d.IsEmpty() then HttpError(404, NotFoundDetail) else Ok(d)
  }

  /** The list of unknown names is exactly the requested names that are not channels, in request
      order, each as often as it was requested. */
  lemma {:induction false} UnknownChannelsExact(requested: seq<string>, valid: seq<string>)
    ensures forall x :: x in UnknownChannels(requested, valid) <==> x in requested && x !in valid
    ensures IsSubsequence(UnknownChannels(requested, valid), requested)
    ensures UnknownChannels(requested, valid) == [] <==> forall x :: x in requested ==> x in valid
    ensures forall x :: multiset(UnknownChannels(requested, valid))[x] ==
                          if x in valid then 0 else multiset(requested)[x]
  {
    forall x ensures x in UnknownChannels(requested, valid) <==> x in requested && x !in valid {
      FilterMember(requested, NotIn(valid), x);
    }
    forall x ensures multiset(UnknownChannels(requested, valid))[x] ==
                       if x in valid then 0 else multiset(requested)[x] {
      FilterCounts(requested, NotIn(valid), x);
    }
    FilterSubsequence(requested, NotIn(valid));
    FilterNone(requested, NotIn(valid));
  }

  /** A request naming any unknown channel is answered 400 listing the unknown names, whatever
      its dates are and whatever the engine would answer. */
  lemma {:induction false} RejectsUnknownChannel(requested: seq<string>, valid: seq<string>, start: DateArg,
                                                 end: DateArg, stats: Result<Dict, string>, name: string)
    requires name in requested && name !in valid
    ensures Classify(requested, valid, start, end, stats) ==
            HttpError(400, ChannelPrefix + Join(UnknownChannels(requested, valid), ", "))
    ensures Classify(requested, valid, start, end, stats).detail[..|ChannelPrefix|] == ChannelPrefix
  {
    UnknownChannelsExact(requested, valid);
  }

  /** With every requested channel known (or none requested), a date the parser rejects is
      answered 400 with the parser's message, the start date's taking precedence. */
  lemma {:induction false} RejectsBadDate(requested: seq<string>, valid: seq<string>, start: DateArg,
                                          end: DateArg, stats: Result<Dict, string>)
    requires forall x :: x in requested ==> x in valid
    requires start.Unparseable? || end.Unparseable?
    ensures var reason := if start.Unparseable? then start.reason else end.reason;
            Classify(requested, valid, start, end, stats) == HttpError(400, DatePrefix + reason + DateSuffix)
    ensures Classify(requested, valid, start, end, stats).detail[..|DatePrefix|] == DatePrefix
  {
    UnknownChannelsExact(requested, valid);
  }

  /** Once the request is valid, the engine's outcome decides alone: a fault is 500, an empty
      dict is 404, and any other dict is returned unchanged. */
  lemma {:induction false} OutcomeOfValidRequest(requested: seq<string>, valid: seq<string>, start: DateArg,
                                                 end: DateArg, stats: Result<Dict, string>)
    requires forall x :: x in requested ==> x in valid
    requires !start.Unparseable? && !end.Unparseable?
    ensures Classify(requested, valid, start, end, stats) ==
            match stats
            case Failure(message) => HttpError(500, InternalPrefix + message)
            case Success(d) => if d.keys == [] then HttpError(404, NotFoundDetail) else Ok(d)
  {
    UnknownChannelsExact(requested, valid);
  }

  /** The answer is 400 exactly when a channel is unknown or a date is rejected; 200 exactly when
      the request is valid and the engine returns a non-empty dict, which is then the body. */
  lemma {:induction false} ClassifyStatus(requested: seq<string>, valid: seq<string>, start: DateArg,
                                          end: DateArg, stats: Result<Dict, string>)
    ensures var r := Classify(requested, valid, start, end, stats);
            var validRequest := (forall x :: x in requested ==> x in valid)
                                && !start.Unparseable? && !end.Unparseable?;
            && (r.HttpError? && r.status == 400 <==> !validRequest)
            && (r.HttpError? && r.status == 404 <==> validRequest && stats.Success? && stats.value.keys == [])
            && (r.HttpError? && r.status == 500 <==> validRequest && stats.Failure?)
            && (r.Ok? <==> validRequest && stats.Success? && stats.value.keys != [])
            && (r.Ok? ==> r.body == stats.value)
  {
    UnknownChannelsExact(requested, valid);
  }

  /** An absent or empty channel list is not validated at all: the channel list has no effect. */
  lemma {:induction false} EmptyRequestSkipsValidation(valid: seq<string>, other: seq<string>, start: DateArg,
                                                       end: DateArg, stats: Result<Dict, string>)
    ensures Classify([], valid, start, end, stats) == Classify([], other, start, end, stats)
    ensures Classify([], valid, start, end, stats).HttpError? ==>
              Classify([], valid, start, end, stats).status != 400 || start.Unparseable? || end.Unparseable?
  {
  }

  // ---------------------------------------------------------------------------------------------
  // The route over the engine
  // ---------------------------------------------------------------------------------------------

  /** The engine's outcome as the route sees it: a fault becomes its message. */
  function Reported(r: Result<Dict, Fault>, describe: Fault -> string): Result<Dict, string>
  {
    match r
    case Success(d) => Success(d)
    case Failure(f) => Failure(describe(f))
  }

  /** The whole route body: the engine is asked with the parsed bounds once validation passes.
      When a date is rejected the engine is never asked, and the placeholder outcome is not
      consulted by the classification. The messages of the engine's faults are left abstract. */
  function Handle(data: Table, requested: seq<string>, start: DateArg, end: DateArg,
                  std: StdKernel, describe: Fault -> string): (r: Response)
    ensures r.Ok? ==> && !start.Unparseable? && !end.Unparseable?
                      && (forall x :: x in requested ==> x in GetChannels(data, None))
                      && ExpectedStats(data, requested, Bound(start), Bound(end), std) == Success(r.body)
  {
    UnknownChannelsExact(requested, GetChannels(data, None));
    var stats := match ParseDates(start, end)
                 case Success(bounds) => Reported(ExpectedStats(data, requested, bounds.0, bounds.1, std), describe)
                 case Failure(_) => Success(EmptyDict);
    Classify(requested, GetChannels(data, None), start, end, stats)
  }

  /** Known channels are never reserved names, so the engine keeps all of them. */
  lemma {:induction false} KnownChannelsKept(data: Table, requested: seq<string>)
    requires forall x :: x in requested ==> x in GetChannels(data, None)
    ensures Filter(requested, IsChannelName) == requested
  {
    forall x | x in requested ensures IsChannelName(x) {
      ChannelsMembership(data, None, x);
    }
    FilterAll(requested, IsChannelName);
  }

  /** A valid request whose window holds no row is answered 404, provided no channel is named
      twice; there is no separate check that the end comes after the start. */
  lemma {:induction false} EmptyWindowNotFound(data: Table, requested: seq<string>, start: DateArg, end: DateArg,
                                               std: StdKernel, describe: Fault -> string)
    requires WellFormed(data)
    requires forall x :: x in requested ==> x in GetChannels(data, None)
    requires Distinct(requested)
    requires !start.Unparseable? && !end.Unparseable?
    requires Window(data.rows, Bound(start), Bound(end)) == []
    ensures Handle(data, requested, start, end, std, describe) == HttpError(404, NotFoundDetail)
  {
    SelectOutcome(data, requested);
    OutcomeOfValidRequest(requested, GetChannels(data, None), start, end,
                          Reported(ExpectedStats(data, requested, Bound(start), Bound(end), std), describe));
  }

  /** An end date before the start date yields an empty window and hence 404. */
  lemma {:induction false} InvertedRangeNotFound(data: Table, requested: seq<string>, start: Timestamp,
                                                 end: Timestamp, std: StdKernel, describe: Fault -> string)
    requires WellFormed(data)
    requires forall x :: x in requested ==> x in GetChannels(data, None)
    requires Distinct(requested)
    requires end < start
    ensures Handle(data, requested, Given(start), Given(end), std, describe) == HttpError(404, NotFoundDetail)
  {
    InvertedWindowIsEmpty(data.rows, start, end);
    EmptyWindowNotFound(data, requested, Given(start), Given(end), std, describe);
  }

  /** Naming a known channel twice passes validation and makes the engine's select step fail,
      so the answer is 500. */
  lemma {:induction false} RepeatedChannelIsInternalError(data: Table, requested: seq<string>, start: DateArg,
                                                          end: DateArg, std: StdKernel, describe: Fault -> string)
    requires WellFormed(data)
    requires forall x :: x in requested ==> x in GetChannels(data, None)
    requires !Distinct(requested)
    requires !start.Unparseable? && !end.Unparseable?
    ensures Handle(data, requested, start, end, std, describe).HttpError?
    ensures Handle(data, requested, start, end, std, describe).status == 500
  {
    SelectOutcome(data, requested);
    OutcomeOfValidRequest(requested, GetChannels(data, None), start, end,
                          Reported(ExpectedStats(data, requested, Bound(start), Bound(end), std), describe));
  }

  /** A 200 answer holds one record per requested channel (every channel when none is requested),
      in request order, each describing the channel's non-missing values in the window. */
  lemma {:induction false} SuccessfulAnswer(data: Table, requested: seq<string>, start: DateArg, end: DateArg,
                                            std: StdKernel, describe: Fault -> string, c: string)
    ensures Handle(data, requested, start, end, std, describe).Ok? ==> !start.Unparseable? && !end.Unparseable?
    ensures var answer := Handle(data, requested, start, end, std, describe);
            answer.Ok? ==>
            var d := answer.body;
            && d.Valid()
            && d.keys == (if requested == [] then GetChannels(data, None) else requested)
            && (c in d.entries ==>
                  var s := d.entries[c];
                  var window := Window(data.rows, Bound(start), Bound(end));
                  && s.count == |ColumnValues(window, c)|
                  && 0 < s.count <= |window|
                  && s.min <= s.mean <= s.max)
  {
    if !Handle(data, requested, start, end, std, describe).Ok? {
      return;
    }
    var valid := GetChannels(data, None);
    UnknownChannelsExact(requested, valid);
    assert !start.Unparseable? && !end.Unparseable?;
    var r := ExpectedStats(data, requested, Bound(start), Bound(end), std);
    assert r.Success? && !r.value.IsEmpty();
    StatsKeys(data, requested, Bound(start), Bound(end), std);
    if requested != [] {
      KnownChannelsKept(data, requested);
    }
    if c in r.value.entries {
      StatsRecords(data, requested, Bound(start), Bound(end), std, c);
    }
  }
}

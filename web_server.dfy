/** The decisions of the HTTP API (`web_server.py`): each route is a function
    of the request and the tables it reads, giving the status code, the
    `success` flag and the body `jsonify` would send. */
module WebServer {
  import Json
  import opened Models
  import Database

  /** What a route answers with when it refuses the request. */
  datatype Failure =
    | NoData           // "No data provided"
    | TimesRequired    // "start_time and end_time required"
    | BadDateFormat    // "Invalid date format: ..."
    | StartNotBefore   // "start_time must be before end_time"
    | CounterNotFound  // "Counter not found"
    | StoreError       // the `error` entry of a store result
    | ResetFailed      // a failed `reset_counter` result
    | Raised           // an exception caught by the route's own handler

  datatype Body =
    | ReadingsBody(readings: seq<Reading>, count: nat)
    | CounterBody(current: Reading, history: seq<LogRecord>, historyCount: nat)
    | SingleBody(consumption: Database.Consumption, counterId: Json.Value)
    | AllBody(entries: seq<Database.ConsumptionEntry>, count: nat, start: int, end: int)
    | ResetBody(result: Database.ResetResult)
    | ErrorBody(failure: Failure)

  datatype Response = Response(status: nat, success: bool, body: Body)

  function Ok(body: Body): Response {
    Response(200, true, body)
  }

  function Fail(status: nat, failure: Failure): Response {
    Response(status, false, ErrorBody(failure))
  }

  /** `get_current_readings` (`GET /api/current`). */
  function CurrentReadingsRoute(counters: seq<Counter>): (r: Response)
    ensures r.status == 200 && r.success && r.body.ReadingsBody?
    ensures r.body.count == |r.body.readings| == |counters|
    ensures forall i :: 0 <= i < |counters| ==> r.body.readings[i] == counters[i].ToDict()
  {
    var readings := Database.Readings(counters);
    Ok(ReadingsBody(readings, |readings|))
  }

  /** `next((c for c in readings if c['id'] == id), None)`. */
  function FirstReading(readings: seq<Reading>, id: int): (r: Option<Reading>)
    ensures r.Some? ==> r.value.id == id
  {
    if readings == [] then None
    else if readings[0].id == id then Some(readings[0])
    else FirstReading(readings[1..], id)
  }

  /** Searching the dictionaries finds exactly the counter `IndexOf` finds
      in the table. */
  lemma {:induction false} FirstReadingIsIndexOf(counters: seq<Counter>, id: int)
    ensures FirstReading(Database.Readings(counters), id) ==
      match Database.IndexOf(counters, id)
      case None => None
      case Some(k) => Some(counters[k].ToDict())
  {
    if counters != [] {
      var readings := Database.Readings(counters);
      assert readings[1..] == Database.Readings(counters[1..]);
      FirstReadingIsIndexOf(counters[1..], id);
    }
  }

  /** A query-string argument read with `type=int`. */
  datatype Arg = Absent | Unparsable | IntArg(n: int)

  /** `request.args.get('limit', default=50, type=int)`: a value that does
      not parse as an integer falls back to the default. */
  function Limit(arg: Arg): (limit: int)
    ensures arg.IntArg? ==> limit == arg.n
    ensures !arg.IntArg? ==> limit == 50
  {
    if arg.IntArg? then arg.n else 50
  }

  /** `get_counter_data` (`GET /api/counter/<id>`): 404 for an unknown
      counter, else its reading and its newest history rows. */
  function CounterDataRoute(counterId: nat, limitArg: Arg, counters: seq<Counter>, log: seq<LogRow>): (r: Response)
    ensures r.success <==> Database.IndexOf(counters, counterId).Some?
    ensures !r.success ==> r == Fail(404, CounterNotFound)
    ensures r.success ==>
      && r.status == 200 && r.body.CounterBody?
      && r.body.current == counters[Database.IndexOf(counters, counterId).value].ToDict()
      && r.body.current.id == counterId
      && r.body.history == Database.History(log, counterId, Limit(limitArg))
      && r.body.historyCount == |r.body.history| == Database.Kept(Limit(limitArg), Database.OwnedCount(log, counterId))
  {
    FirstReadingIsIndexOf(counters, counterId);
    match FirstReading(Database.Readings(counters), counterId)
    case None => Fail(404, CounterNotFound)
    case Some(current) =>
      var history := Database.History(log, counterId, Limit(limitArg));
      Ok(CounterBody(current, history, |history|))
  }

  /** `datetime.fromisoformat(s.replace('Z', '+00:00'))`: a string that is
      not an ISO timestamp, or an instant that is naive or carries an
      offset. */
  datatype Time = Invalid | At(instant: int, aware: bool)

  /** The period of a consumption request, or the response that refuses it. */
  datatype Period = Refused(status: nat, failure: Failure) | Window(start: int, end: int)

  /** The checks of `get_consumption_for_period`, in the order the route
      makes them. `parseTime` is the ISO parser. */
  function ParsePeriod(data: Json.Value, parseTime: string -> Time): (p: Period)
    ensures !Json.Truthy(data) ==> p == Refused(400, NoData)
    ensures p.Refused? ==> p.status in {400, 500}
    ensures p.Window? ==>
      && data.Object?
      && Json.Get(data.fields, "start_time", Json.Null).Str?
      && Json.Get(data.fields, "end_time", Json.Null).Str?
      && parseTime(Json.Get(data.fields, "start_time", Json.Null).s).At?
      && parseTime(Json.Get(data.fields, "end_time", Json.Null).s).At?
      && parseTime(Json.Get(data.fields, "start_time", Json.Null).s).instant == p.start
      && parseTime(Json.Get(data.fields, "end_time", Json.Null).s).instant == p.end
      && p.start < p.end
  {
    if !Json.Truthy(data) then Refused(400, NoData)
    // `data.get` on a list, number or string raises
    else if !data.Object? then Refused(500, Raised)
    else
      var startArg := Json.Get(data.fields, "start_time", Json.Null);
      var endArg := Json.Get(data.fields, "end_time", Json.Null);
      if !Json.Truthy(startArg) || !Json.Truthy(endArg) then Refused(400, TimesRequired)
      // `.replace` on a value that is not a string raises
      else if !startArg.Str? then Refused(500, Raised)
      else match parseTime(startArg.s)
        case Invalid => Refused(400, BadDateFormat)
        case At(start, startAware) =>
          if !endArg.Str? then Refused(500, Raised)
          else match parseTime(endArg.s)
            case Invalid => Refused(400, BadDateFormat)
            case At(end, endAware) =>
              // comparing a naive with an aware datetime raises
              if startAware != endAware then Refused(500, Raised)
              else if start >= end then Refused(400, StartNotBefore)
              else Window(start, end)
  }

  /** The counter id a truthy `counter_id` selects: an integer is itself;
      any other value is whatever the database makes of it (`coerceId`),
      `None` when the query fails. */
  function SelectedId(counterId: Json.Value, coerceId: Json.Value -> Option<int>): (id: Option<int>)
    ensures counterId.Int? ==> id == Some(counterId.i)
    ensures !counterId.Int? ==> id == coerceId(counterId)
  {
    if counterId.Int? then Some(counterId.i) else coerceId(counterId)
  }

  /** `get_consumption_for_period` (`POST /api/consumption/period`). */
  function ConsumptionRoute(data: Json.Value, parseTime: string -> Time, coerceId: Json.Value -> Option<int>,
                            counters: seq<Counter>, log: seq<LogRow>): (r: Response)
    ensures r.success <==> r.status == 200
    ensures ParsePeriod(data, parseTime).Refused? ==>
      r == Fail(ParsePeriod(data, parseTime).status, ParsePeriod(data, parseTime).failure)
    ensures r.body.SingleBody? || r.body.AllBody? ==> ParsePeriod(data, parseTime).Window?
    ensures ParsePeriod(data, parseTime).Window? ==>
      var p := ParsePeriod(data, parseTime);
      var counterId := Json.Get(data.fields, "counter_id", Json.Null);
      && (Json.Truthy(counterId) && SelectedId(counterId, coerceId).Some? ==>
            r == Ok(SingleBody(Database.ConsumptionForPeriod(log, SelectedId(counterId, coerceId).value, p.start, p.end), counterId)))
      && (Json.Truthy(counterId) && SelectedId(counterId, coerceId).None? ==> r == Fail(500, StoreError))
      && (!Json.Truthy(counterId) ==>
            && r.success && r.body.AllBody?
            && r.body.entries == Database.AllConsumption(counters, log, p.start, p.end)
            && r.body.count == |r.body.entries| == |counters|
            && r.body.start == p.start && r.body.end == p.end)
  {
    match ParsePeriod(data, parseTime)
    case Refused(status, failure) => Fail(status, failure)
    case Window(start, end) =>
      var counterId := Json.Get(data.fields, "counter_id", Json.Null);
      if Json.Truthy(counterId) then
        match SelectedId(counterId, coerceId)
        case None => Fail(500, StoreError)
        case Some(id) => Ok(SingleBody(Database.ConsumptionForPeriod(log, id, start, end), counterId))
      else
        Database.AllConsumptionPerCounter(counters, log, start, end);
        var entries := Database.AllConsumption(counters, log, start, end);
        Ok(AllBody(entries, |entries|, start, end))
  }

  /** Whatever else the body holds, a request without both times is refused
      with 400 and never reaches the store. */
  lemma MissingTimesRefused(fields: map<string, Json.Value>, parseTime: string -> Time,
                            coerceId: Json.Value -> Option<int>, counters: seq<Counter>, log: seq<LogRow>)
    requires fields != map[]
    requires "start_time" !in fields || "end_time" !in fields
    ensures ConsumptionRoute(Json.Object(fields), parseTime, coerceId, counters, log) == Fail(400, TimesRequired)
  {
  }

  /** A start or end time given as a string that does not parse is refused
      with 400, whatever the other time is. */
  lemma UnparsableTimeRefused(fields: map<string, Json.Value>, startText: string, endText: string,
                              parseTime: string -> Time)
    requires Json.Get(fields, "start_time", Json.Null) == Json.Str(startText) && startText != ""
    requires Json.Get(fields, "end_time", Json.Null) == Json.Str(endText) && endText != ""
    requires parseTime(startText).Invalid? || parseTime(endText).Invalid?
    ensures ParsePeriod(Json.Object(fields), parseTime) == Refused(400, BadDateFormat)
  {
    assert "start_time" in fields;
  }

  /** Two well-formed times of the same kind in the wrong order are refused
      with 400, and only a non-empty period is accepted. */
  lemma PeriodOrder(fields: map<string, Json.Value>, startText: string, endText: string, parseTime: string -> Time)
    requires Json.Get(fields, "start_time", Json.Null) == Json.Str(startText) && startText != ""
    requires Json.Get(fields, "end_time", Json.Null) == Json.Str(endText) && endText != ""
    requires parseTime(startText).At? && parseTime(endText).At?
    requires parseTime(startText).aware == parseTime(endText).aware
    ensures ParsePeriod(Json.Object(fields), parseTime).Window? <==>
      parseTime(startText).instant < parseTime(endText).instant
    ensures !(parseTime(startText).instant < parseTime(endText).instant) ==>
      ParsePeriod(Json.Object(fields), parseTime) == Refused(400, StartNotBefore)
  {
    assert "start_time" in fields;
  }

  /** The single-counter answer and the all-counters answer agree on every
      counter they both report. */
  lemma SingleAgreesWithAll(data: Json.Value, parseTime: string -> Time, coerceId: Json.Value -> Option<int>,
                            counters: seq<Counter>, log: seq<LogRow>, i: nat)
    requires ParsePeriod(data, parseTime).Window?
    requires i < |counters|
    ensures var p := ParsePeriod(data, parseTime);
      var single := Database.ConsumptionForPeriod(log, counters[i].id, p.start, p.end);
      var all := Database.AllConsumption(counters, log, p.start, p.end);
      && |all| == |counters|
      && all[i].counterId == single.counterId
      && all[i].pulseCount == single.pulseCount
      && all[i].liters == single.liters
  {
    var p := ParsePeriod(data, parseTime);
    Database.AllConsumptionPerCounter(counters, log, p.start, p.end);
  }

  /** `reset_counter` (`POST /api/counter/reset/<id>`): the store's result on
      success, 500 otherwise, an unknown counter included. */
  function ResetRoute(result: Database.ResetResult): (r: Response)
    ensures r.success <==> result.Success()
    ensures r.success ==> r == Ok(ResetBody(result))
    ensures !r.success ==> r == Fail(500, ResetFailed)
  {
    if result.Success() then Ok(ResetBody(result)) else Fail(500, ResetFailed)
  }

  /** The reset route against the store: it succeeds exactly for an
      existing counter, whose reading and log it clears. */
  method ResetRequest(store: Database.CounterStore, counterId: nat, now: int) returns (r: Response)
    requires store.Valid()
    modifies store
    ensures store.Valid()
    ensures old(store.Consistent()) ==> store.Consistent()
    ensures r.success <==> Database.IndexOf(old(store.counters), counterId).Some?
    ensures store.nextCounterId == old(store.nextCounterId) && store.nextLogId == old(store.nextLogId)
    ensures |store.counters| == |old(store.counters)|
    ensures !r.success ==> r.status == 500 && store.counters == old(store.counters) && store.log == old(store.log)
    ensures r.success ==>
      var k := Database.IndexOf(old(store.counters), counterId).value;
      && r.status == 200 && r.body.ResetBody?
      && r.body.result == Database.ResetDone(counterId, old(store.counters)[k].name, old(store.counters)[k].value)
      && store.counters == old(store.counters)[k := old(store.counters)[k].(value := 0, lastTime := Some(now))]
      && store.log == Database.Disowned(old(store.log), counterId)
      && Database.OwnedCount(store.log, counterId) == 0
  {
    var result := store.ResetCounter(counterId, now);
    r := ResetRoute(result);
  }
}

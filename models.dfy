/** The two tables of the water-metering database (`water_counter` and
    `water_meter_log`) and the dictionaries their rows are sent out as. */
module Models {

  datatype Option<+T> = None | Some(value: T)

  /** One pulse of a meter is one quantum of volume, 0.01 m³, that is 10
      litres. Counter readings and consumption are counted in quanta; this is
      the one place where the size of a quantum is written down. */
  const LitersPerQuantum: nat := 10

  /** A row of `water_counter`. `value` is the reading in quanta; `lastTime`
      is the (nullable) time of the last update. */
  datatype Counter = Counter(id: int, name: string, value: nat, lastTime: Option<int>)
  {
    /** `WaterCounter.to_dict`: the dictionary the API sends for this row. */
    function ToDict(): (r: Reading)
      ensures r.id == id && r.name == name && r.value == value
      ensures r.lastTime.None? <==> lastTime.None?
      ensures lastTime.Some? ==> r.lastTime == lastTime
    {
      Reading(id, name, value, if lastTime.Some? then lastTime else None)
    }
  }

  /** The dictionary of a counter: `last_time` is `None` when unset. */
  datatype Reading = Reading(id: int, name: string, value: nat, lastTime: Option<int>)

  /** A row of `water_meter_log`: one accepted pulse of counter `idSensor`.
      `idSensor` is a non-null reference to `water_counter.id`; `time` is
      nullable. */
  datatype LogRow = LogRow(id: int, idSensor: int, time: Option<int>)
  {
    /** `WaterMeterLog.to_dict`. */
    function ToDict(): (r: LogRecord)
      ensures r.id == id && r.idSensor == idSensor
      ensures r.time.None? <==> time.None?
      ensures time.Some? ==> r.time == time
    {
      LogRecord(id, idSensor, if time.Some? then time else None)
    }
  }

  /** The dictionary of a log row: `time` is `None` when unset. */
  datatype LogRecord = LogRecord(id: int, idSensor: int, time: Option<int>)

  /** The row `create_counter_if_not_exists` inserts: only the name is given,
      `value` takes its column default 0 and `last_time` its default, the
      insertion time. */
  function NewCounter(id: int, name: string, now: int): (c: Counter)
    ensures c.id == id && c.name == name
    ensures c.value == 0 && c.lastTime == Some(now)
  {
    Counter(id, name, 0, Some(now))
  }

  /** Two counters with the same dictionary are the same row: `to_dict`
      drops nothing. */
  lemma CounterToDictInjective(a: Counter, b: Counter)
    requires a.ToDict() == b.ToDict()
    ensures a == b
  {
  }

  /** Two log rows with the same dictionary are the same row. */
  lemma LogRowToDictInjective(a: LogRow, b: LogRow)
    requires a.ToDict() == b.ToDict()
    ensures a == b
  {
  }
}

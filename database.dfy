/** The counter store and the pulse log (`DatabaseManager`). Every method of
    the store runs in one session that commits on normal exit and rolls back
    on an exception, so each is modelled as one atomic step from the old
    tables to the new ones. The queries are functions of the tables. */
module Database {
  import opened Models

  function Min(a: int, b: int): int { if a <= b then a else b }

  function Max(a: int, b: int): int { if a <= b then b else a }

  // ---------------------------------------------------------------------
  // Lookups

  /** Position of the counter whose primary key is `id`
      (`filter(WaterCounter.id == id).first()`). */
  function IndexOf(counters: seq<Counter>, id: int): (r: Option<nat>)
    ensures r.Some? ==> r.value < |counters| && counters[r.value].id == id
  {
    if counters == [] then None
    else if counters[0].id == id then Some(0)
    else match IndexOf(counters[1..], id)
      case None => None
      case Some(j) => Some(j + 1)
  }

  /** `IndexOf` finds the first counter with the key, and finds nothing
      exactly when no counter has it. */
  lemma {:induction false} IndexOfFirst(counters: seq<Counter>, id: int)
    ensures var r := IndexOf(counters, id);
      && (r.Some? ==> forall i :: 0 <= i < r.value ==> counters[i].id != id)
      && (r.None? <==> forall i :: 0 <= i < |counters| ==> counters[i].id != id)
  {
    if counters != [] && counters[0].id != id {
      IndexOfFirst(counters[1..], id);
      assert forall i :: 1 <= i < |counters| ==> counters[i] == counters[1..][i - 1];
    }
  }

  /** Position of the first counter called `name`
      (`filter(WaterCounter.name == name).first()`). */
  function FindByName(counters: seq<Counter>, name: string): (r: Option<nat>)
    ensures r.Some? ==> r.value < |counters| && counters[r.value].name == name
  {
    if counters == [] then None
    else if counters[0].name == name then Some(0)
    else match FindByName(counters[1..], name)
      case None => None
      case Some(j) => Some(j + 1)
  }

  /** `FindByName` finds the first counter with the name, and finds nothing
      exactly when no counter has it. */
  lemma {:induction false} FindByNameFirst(counters: seq<Counter>, name: string)
    ensures var r := FindByName(counters, name);
      && (r.Some? ==> forall i :: 0 <= i < r.value ==> counters[i].name != name)
      && (r.None? <==> forall i :: 0 <= i < |counters| ==> counters[i].name != name)
  {
    if counters != [] && counters[0].name != name {
      FindByNameFirst(counters[1..], name);
      assert forall i :: 1 <= i < |counters| ==> counters[i] == counters[1..][i - 1];
    }
  }

  /** Appending a counter does not move the first counter of a name that
      already exists, and finds the new one when the name is new. */
  lemma {:induction false} FindByNameAppend(counters: seq<Counter>, c: Counter, name: string)
    ensures FindByName(counters, name).Some? ==>
              FindByName(counters + [c], name) == FindByName(counters, name)
    ensures FindByName(counters, name).None? && c.name == name ==>
              FindByName(counters + [c], name) == Some(|counters|)
  {
    if counters != [] {
      assert (counters + [c])[0] == counters[0];
      assert (counters + [c])[1..] == counters[1..] + [c];
      FindByNameAppend(counters[1..], c, name);
    }
  }

  /** The counters table after `create_counter_if_not_exists(name)` with
      `nextId` as the next key: unchanged when the name exists, otherwise
      one new counter appended. */
  function WithNamed(counters: seq<Counter>, nextId: int, name: string, now: int): (r: seq<Counter>)
    ensures counters <= r && |r| <= |counters| + 1
    ensures FindByName(r, name).Some?
  {
    if FindByName(counters, name).Some? then counters
    else
      FindByNameAppend(counters, NewCounter(nextId, name, now), name);
      counters + [NewCounter(nextId, name, now)]
  }

  /** Lookups by key only see the keys. */
  lemma {:induction false} IndexOfSameKeys(a: seq<Counter>, b: seq<Counter>, id: int)
    requires |a| == |b| && forall i :: 0 <= i < |a| ==> a[i].id == b[i].id
    ensures IndexOf(a, id) == IndexOf(b, id)
  {
    if a != [] {
      IndexOfSameKeys(a[1..], b[1..], id);
    }
  }

  /** Appending a counter keeps every key that was found. */
  lemma {:induction false} IndexOfAppend(counters: seq<Counter>, c: Counter, id: int)
    requires IndexOf(counters, id).Some?
    ensures IndexOf(counters + [c], id) == IndexOf(counters, id)
  {
    assert (counters + [c])[0] == counters[0];
    if counters[0].id != id {
      assert (counters + [c])[1..] == counters[1..] + [c];
      IndexOfAppend(counters[1..], c, id);
    }
  }

  // ---------------------------------------------------------------------
  // Ownership of log rows

  /** The log rows of counter `id`, in log order. */
  function Owned(log: seq<LogRow>, id: int): (r: seq<LogRow>)
    ensures |r| <= |log|
    ensures forall k :: 0 <= k < |r| ==> r[k].idSensor == id
  {
    if log == [] then []
    else
      var init, last := log[..|log| - 1], log[|log| - 1];
      Owned(init, id) + (if last.idSensor == id then [last] else [])
  }

  /** Number of log rows of counter `id`. */
  function OwnedCount(log: seq<LogRow>, id: int): nat {
    |Owned(log, id)|
  }

  /** The log without the rows of counter `id`: what the bulk delete in
      `reset_counter` leaves behind, in log order. */
  function Disowned(log: seq<LogRow>, id: int): (r: seq<LogRow>)
    ensures |r| <= |log|
    ensures forall k :: 0 <= k < |r| ==> r[k].idSensor != id
  {
    if log == [] then []
    else
      var init, last := log[..|log| - 1], log[|log| - 1];
      Disowned(init, id) + (if last.idSensor != id then [last] else [])
  }

  lemma OwnedAppend(log: seq<LogRow>, row: LogRow, id: int)
    ensures Owned(log + [row], id) == Owned(log, id) + (if row.idSensor == id then [row] else [])
  {
    assert (log + [row])[..|log|] == log;
  }

  /** Every row of the counter is among its owned rows: `Owned` misses
      none. */
  lemma {:induction false} OwnedComplete(log: seq<LogRow>, id: int, k: nat)
    requires k < |log| && log[k].idSensor == id
    ensures log[k] in Owned(log, id)
  {
    if k < |log| - 1 {
      OwnedComplete(log[..|log| - 1], id, k);
    }
  }

  /** After the delete, counter `id` owns nothing and every other counter
      owns exactly the rows it owned before. */
  lemma {:induction false} OwnedAfterDelete(log: seq<LogRow>, id: int, x: int)
    ensures Owned(Disowned(log, id), x) == if x == id then [] else Owned(log, x)
  {
    if log != [] {
      var init, last := log[..|log| - 1], log[|log| - 1];
      var d := Disowned(init, id);
      OwnedAfterDelete(init, id, x);
      if last.idSensor != id {
        assert Disowned(log, id) == d + [last];
        OwnedAppend(d, last, x);
      } else {
        assert Disowned(log, id) == d;
      }
    }
  }

  /** A counter whose id appears nowhere in the log owns nothing. */
  lemma {:induction false} NothingOwned(log: seq<LogRow>, id: int)
    requires forall k :: 0 <= k < |log| ==> log[k].idSensor != id
    ensures Owned(log, id) == []
  {
    if log != [] {
      NothingOwned(log[..|log| - 1], id);
    }
  }

  // ---------------------------------------------------------------------
  // Table invariants

  /** Primary keys of `water_counter`: issued by a sequence starting at 1,
      so positive, below the next key, and ascending in store order. */
  ghost predicate CounterKeys(counters: seq<Counter>, nextId: int) {
    && 1 <= nextId
    && (forall i :: 0 <= i < |counters| ==> 1 <= counters[i].id < nextId)
    && (forall i, j :: 0 <= i < j < |counters| ==> counters[i].id < counters[j].id)
  }

  /** Primary keys of `water_meter_log`, likewise. */
  ghost predicate LogKeys(log: seq<LogRow>, nextId: int) {
    && 1 <= nextId
    && (forall k :: 0 <= k < |log| ==> 1 <= log[k].id < nextId)
    && (forall k, l :: 0 <= k < l < |log| ==> log[k].id < log[l].id)
  }

  /** The foreign key `water_meter_log.id_sensor -> water_counter.id`. */
  ghost predicate LogReferencesCounters(log: seq<LogRow>, counters: seq<Counter>) {
    forall k :: 0 <= k < |log| ==> IndexOf(counters, log[k].idSensor).Some?
  }

  /** The accounting invariant: every counter's value, in quanta, is the
      number of log rows it owns. */
  ghost predicate ValuesMatchLog(counters: seq<Counter>, log: seq<LogRow>) {
    forall i :: 0 <= i < |counters| ==> counters[i].value == OwnedCount(log, counters[i].id)
  }

  /** The schema's guarantees over both tables. */
  ghost predicate Tables(counters: seq<Counter>, nextCounterId: int, log: seq<LogRow>, nextLogId: int) {
    && CounterKeys(counters, nextCounterId)
    && LogKeys(log, nextLogId)
    && LogReferencesCounters(log, counters)
  }

  // ---------------------------------------------------------------------
  // Pulses

  /** Counter `k` after `n` pulses at time `now`: `n` quanta more, and
      stamped with `now` when at least one pulse arrived. */
  function Bumped(counters: seq<Counter>, k: nat, n: nat, now: int): (r: seq<Counter>)
    requires k < |counters|
  {
    if n == 0 then counters
    else counters[k := counters[k].(value := counters[k].value + n, lastTime := Some(now))]
  }

  /** The log rows of `n` pulses of counter `sensor` at time `now`, with
      primary keys `firstId`, `firstId + 1`, … */
  function PulseRows(firstId: int, sensor: int, now: int, n: nat): seq<LogRow> {
    if n == 0 then [] else PulseRows(firstId, sensor, now, n - 1) + [LogRow(firstId + n - 1, sensor, Some(now))]
  }

  /** Pulse after pulse, counter `k` gains one quantum each time and ends
      stamped with the last pulse's time. */
  lemma BumpedStep(counters: seq<Counter>, k: nat, n: nat, now: int)
    requires k < |counters|
    ensures Bumped(Bumped(counters, k, n, now), k, 1, now) == Bumped(counters, k, n + 1, now)
  {
  }

  /** `n` pulses add exactly `n` rows, all of counter `sensor` at `now`,
      with consecutive fresh keys. */
  lemma {:induction false} PulseRowsShape(firstId: int, sensor: int, now: int, n: nat)
    ensures |PulseRows(firstId, sensor, now, n)| == n
    ensures forall k :: 0 <= k < n ==>
              PulseRows(firstId, sensor, now, n)[k] == LogRow(firstId + k, sensor, Some(now))
  {
    if n > 0 {
      PulseRowsShape(firstId, sensor, now, n - 1);
    }
  }

  /** The log after `n` pulses: the old rows, then the `n` new ones. */
  lemma PulseRowsAppended(log: seq<LogRow>, firstId: int, sensor: int, now: int, n: nat)
    ensures var log' := log + PulseRows(firstId, sensor, now, n);
      && |log'| == |log| + n
      && log'[..|log|] == log
      && (forall j :: |log| <= j < |log'| ==> log'[j] == LogRow(firstId + (j - |log|), sensor, Some(now)))
  {
    PulseRowsShape(firstId, sensor, now, n);
    var log' := log + PulseRows(firstId, sensor, now, n);
    assert log'[..|log|] == log;
  }

  /** `n` pulses give counter `sensor` exactly `n` more log rows and no
      other counter any. */
  lemma {:induction false} OwnedAfterPulses(log: seq<LogRow>, firstId: int, sensor: int, now: int, n: nat, x: int)
    ensures OwnedCount(log + PulseRows(firstId, sensor, now, n), x)
            == OwnedCount(log, x) + (if x == sensor then n else 0)
  {
    if n == 0 {
      assert log + PulseRows(firstId, sensor, now, n) == log;
    } else {
      var rows := PulseRows(firstId, sensor, now, n - 1);
      var row := LogRow(firstId + n - 1, sensor, Some(now));
      OwnedAfterPulses(log, firstId, sensor, now, n - 1, x);
      assert log + PulseRows(firstId, sensor, now, n) == (log + rows) + [row];
      OwnedAppend(log + rows, row, x);
    }
  }

  /** A batch of `n` pulses to counter `k` keeps the accounting invariant:
      `n` rows and `n` quanta for `k`, nothing for the others. */
  lemma PulsesKeepValues(counters: seq<Counter>, nextId: int, log: seq<LogRow>,
                         k: nat, firstId: int, now: int, n: nat)
    requires CounterKeys(counters, nextId) && ValuesMatchLog(counters, log)
    requires k < |counters|
    ensures ValuesMatchLog(Bumped(counters, k, n, now), log + PulseRows(firstId, counters[k].id, now, n))
  {
    var c' := Bumped(counters, k, n, now);
    var log' := log + PulseRows(firstId, counters[k].id, now, n);
    forall i | 0 <= i < |c'|
      ensures c'[i].value == OwnedCount(log', c'[i].id)
    {
      OwnedAfterPulses(log, firstId, counters[k].id, now, n, counters[i].id);
    }
  }

  /** One pulse row for an existing counter keeps the schema's guarantees. */
  lemma PulseKeepsTables(counters: seq<Counter>, nextCounterId: int, log: seq<LogRow>, nextLogId: int,
                         k: nat, now: int)
    requires Tables(counters, nextCounterId, log, nextLogId) && k < |counters|
    ensures Tables(Bumped(counters, k, 1, now), nextCounterId,
                   log + [LogRow(nextLogId, counters[k].id, Some(now))], nextLogId + 1)
  {
    var c' := Bumped(counters, k, 1, now);
    var log' := log + [LogRow(nextLogId, counters[k].id, Some(now))];
    IndexOfFirst(counters, counters[k].id);
    forall x
      ensures IndexOf(c', x) == IndexOf(counters, x)
    {
      IndexOfSameKeys(c', counters, x);
    }
    assert forall j :: 0 <= j < |log| ==> log'[j] == log[j];
    assert forall j :: 0 <= j < |log'| ==> 1 <= log'[j].id < nextLogId + 1;
    forall j, l | 0 <= j < l < |log'|
      ensures log'[j].id < log'[l].id
    {
      if l == |log| {
        assert log'[j].id < nextLogId;
      }
    }
  }

  /** One pulse row for an existing counter keeps the accounting
      invariant. */
  lemma PulseKeepsValues(counters: seq<Counter>, nextCounterId: int, log: seq<LogRow>, nextLogId: int,
                         k: nat, now: int)
    requires CounterKeys(counters, nextCounterId) && k < |counters|
    ensures ValuesMatchLog(counters, log) ==>
              ValuesMatchLog(Bumped(counters, k, 1, now), log + [LogRow(nextLogId, counters[k].id, Some(now))])
  {
    if ValuesMatchLog(counters, log) {
      PulsesKeepValues(counters, nextCounterId, log, k, nextLogId, now, 1);
      assert PulseRows(nextLogId, counters[k].id, now, 1) == [LogRow(nextLogId, counters[k].id, Some(now))];
    }
  }

  // ---------------------------------------------------------------------
  // Creating a counter

  /** Inserting a counter under the next key keeps the schema's guarantees
      and the accounting invariant: the new counter owns no row yet. */
  lemma InsertKeepsTables(counters: seq<Counter>, nextCounterId: int, log: seq<LogRow>, nextLogId: int,
                          name: string, now: int)
    requires Tables(counters, nextCounterId, log, nextLogId)
    ensures Tables(counters + [NewCounter(nextCounterId, name, now)], nextCounterId + 1, log, nextLogId)
  {
    var c := NewCounter(nextCounterId, name, now);
    forall j | 0 <= j < |log|
      ensures IndexOf(counters + [c], log[j].idSensor).Some?
    {
      IndexOfAppend(counters, c, log[j].idSensor);
    }
    var c' := counters + [c];
    assert forall i :: 0 <= i < |counters| ==> c'[i] == counters[i];
    forall i, j | 0 <= i < j < |c'|
      ensures c'[i].id < c'[j].id
    {
      if j == |counters| {
        assert c'[i].id < nextCounterId;
      }
    }
  }

  /** The counter inserted under the next key owns no row yet, so the
      accounting invariant survives the insert. */
  lemma InsertKeepsValues(counters: seq<Counter>, nextCounterId: int, log: seq<LogRow>, nextLogId: int,
                          name: string, now: int)
    requires Tables(counters, nextCounterId, log, nextLogId)
    ensures ValuesMatchLog(counters, log) ==>
              ValuesMatchLog(counters + [NewCounter(nextCounterId, name, now)], log)
  {
    forall j | 0 <= j < |log|
      ensures log[j].idSensor != nextCounterId
    {
      assert IndexOf(counters, log[j].idSensor).Some?;
    }
    NothingOwned(log, nextCounterId);
    var c' := counters + [NewCounter(nextCounterId, name, now)];
    assert forall i :: 0 <= i < |counters| ==> c'[i] == counters[i];
  }

  // ---------------------------------------------------------------------
  // Resetting a counter

  /** Zeroing counter `k` and deleting its rows keeps the schema's
      guarantees and the accounting invariant. */
  lemma ResetKeepsTables(counters: seq<Counter>, nextCounterId: int, log: seq<LogRow>, nextLogId: int,
                         k: nat, now: int)
    requires Tables(counters, nextCounterId, log, nextLogId) && k < |counters|
    ensures var c' := counters[k := counters[k].(value := 0, lastTime := Some(now))];
      && Tables(c', nextCounterId, Disowned(log, counters[k].id), nextLogId)
      && (ValuesMatchLog(counters, log) ==> ValuesMatchLog(c', Disowned(log, counters[k].id)))
  {
    var id := counters[k].id;
    var c' := counters[k := counters[k].(value := 0, lastTime := Some(now))];
    var d := Disowned(log, id);
    DeleteKeepsKeys(log, id, nextLogId);
    DeleteKeepsReferences(log, id, counters);
    forall j | 0 <= j < |d|
      ensures IndexOf(c', d[j].idSensor).Some?
    {
      IndexOfSameKeys(c', counters, d[j].idSensor);
    }
    forall i | 0 <= i < |c'|
      ensures ValuesMatchLog(counters, log) ==> c'[i].value == OwnedCount(d, c'[i].id)
    {
      OwnedAfterDelete(log, id, c'[i].id);
    }
  }

  /** Deleting rows keeps every bound the remaining keys obeyed. */
  lemma {:induction false} DeleteKeepsBounds(log: seq<LogRow>, id: int, lo: int, hi: int)
    requires forall k :: 0 <= k < |log| ==> lo <= log[k].id < hi
    ensures forall k :: 0 <= k < |Disowned(log, id)| ==> lo <= Disowned(log, id)[k].id < hi
  {
    if log != [] {
      DeleteKeepsBounds(log[..|log| - 1], id, lo, hi);
    }
  }

  /** Deleting rows keeps the log's keys valid. */
  lemma {:induction false} DeleteKeepsKeys(log: seq<LogRow>, id: int, nextId: int)
    requires LogKeys(log, nextId)
    ensures LogKeys(Disowned(log, id), nextId)
  {
    if log != [] {
      var init, last := log[..|log| - 1], log[|log| - 1];
      assert LogKeys(init, nextId);
      DeleteKeepsKeys(init, id, nextId);
      DeleteKeepsBounds(init, id, 1, last.id);
    }
  }

  /** Deleting rows keeps the foreign key: what remains still refers to
      counters that exist. */
  lemma {:induction false} DeleteKeepsReferences(log: seq<LogRow>, id: int, counters: seq<Counter>)
    requires LogReferencesCounters(log, counters)
    ensures LogReferencesCounters(Disowned(log, id), counters)
  {
    if log != [] {
      DeleteKeepsReferences(log[..|log| - 1], id, counters);
    }
  }

  // ---------------------------------------------------------------------
  // Windowed consumption

  /** The time filter of the consumption queries: `start <= time <= end`,
      both ends included; a NULL time matches no window. */
  predicate InWindow(row: LogRow, start: int, end: int) {
    row.time.Some? && start <= row.time.value <= end
  }

  /** Number of log rows of counter `id` inside the window (the `count()`
      of the consumption queries). */
  function PulsesInWindow(log: seq<LogRow>, id: int, start: int, end: int): (n: nat)
    ensures n <= OwnedCount(log, id)
  {
    if log == [] then 0
    else
      var last := log[|log| - 1];
      PulsesInWindow(log[..|log| - 1], id, start, end)
        + (if last.idSensor == id && InWindow(last, start, end) then 1 else 0)
  }

  /** When every row of counter `id` lies in the window, the window counts
      all of them. */
  lemma {:induction false} WindowCoversAll(log: seq<LogRow>, id: int, start: int, end: int)
    requires forall k :: 0 <= k < |log| && log[k].idSensor == id ==> InWindow(log[k], start, end)
    ensures PulsesInWindow(log, id, start, end) == OwnedCount(log, id)
  {
    if log != [] {
      WindowCoversAll(log[..|log| - 1], id, start, end);
    }
  }

  /** Two adjacent windows `[start, mid]` and `[mid + 1, end]` count the same
      pulses as `[start, end]` (times are whole numbers). */
  lemma {:induction false} WindowSplit(log: seq<LogRow>, id: int, start: int, mid: int, end: int)
    requires start <= mid < end
    ensures PulsesInWindow(log, id, start, mid) + PulsesInWindow(log, id, mid + 1, end)
            == PulsesInWindow(log, id, start, end)
  {
    if log != [] {
      WindowSplit(log[..|log| - 1], id, start, mid, end);
    }
  }

  /** A pulse row counts in a window exactly when it belongs to the counter
      and its time lies in the window, ends included. */
  lemma WindowAppend(log: seq<LogRow>, row: LogRow, id: int, start: int, end: int)
    ensures PulsesInWindow(log + [row], id, start, end)
            == PulsesInWindow(log, id, start, end) + (if row.idSensor == id && InWindow(row, start, end) then 1 else 0)
  {
    assert (log + [row])[..|log|] == log;
  }

  /** The accounting invariant seen through the consumption query: when
      every pulse of a counter lies in the window, the window's count is the
      counter's value. */
  lemma ValueIsWholeWindow(counters: seq<Counter>, log: seq<LogRow>, i: nat, start: int, end: int)
    requires ValuesMatchLog(counters, log) && i < |counters|
    requires forall k :: 0 <= k < |log| && log[k].idSensor == counters[i].id ==> InWindow(log[k], start, end)
    ensures PulsesInWindow(log, counters[i].id, start, end) == counters[i].value
  {
    WindowCoversAll(log, counters[i].id, start, end);
  }

  /** The dictionary of `get_consumption_for_period`; the reading in m³ is
      `pulseCount` quanta. */
  datatype Consumption = Consumption(counterId: int, pulseCount: nat, liters: nat, start: int, end: int)

  /** `get_consumption_for_period`: counted from the log, never from the
      counter's value; an id without rows (or without a counter) gives 0. */
  function ConsumptionForPeriod(log: seq<LogRow>, counterId: int, start: int, end: int): (c: Consumption)
    ensures c.counterId == counterId && c.start == start && c.end == end
    ensures c.pulseCount == PulsesInWindow(log, counterId, start, end)
    ensures c.liters == c.pulseCount * LitersPerQuantum
    ensures c.pulseCount <= OwnedCount(log, counterId)
    ensures OwnedCount(log, counterId) == 0 ==> c.pulseCount == 0
  {
    var n := PulsesInWindow(log, counterId, start, end);
    Consumption(counterId, n, n * LitersPerQuantum, start, end)
  }

  /** One entry of `get_all_consumption_for_period`. */
  datatype ConsumptionEntry = ConsumptionEntry(counterId: int, name: string, pulseCount: nat, liters: nat, currentValue: nat)

  function Entry(c: Counter, log: seq<LogRow>, start: int, end: int): ConsumptionEntry {
    var single := ConsumptionForPeriod(log, c.id, start, end);
    ConsumptionEntry(c.id, c.name, single.pulseCount, single.liters, c.value)
  }

  /** The list `get_all_consumption_for_period` builds, one entry appended
      per counter. */
  function AllConsumption(counters: seq<Counter>, log: seq<LogRow>, start: int, end: int): seq<ConsumptionEntry> {
    if counters == [] then []
    else AllConsumption(counters[..|counters| - 1], log, start, end) + [Entry(counters[|counters| - 1], log, start, end)]
  }

  /** Exactly one entry per counter, in store order, including counters
      with no pulse in the window; each entry agrees with the single-counter
      query for its id. */
  lemma {:induction false} AllConsumptionPerCounter(counters: seq<Counter>, log: seq<LogRow>, start: int, end: int)
    ensures |AllConsumption(counters, log, start, end)| == |counters|
    ensures forall i :: 0 <= i < |counters| ==>
              AllConsumption(counters, log, start, end)[i] == Entry(counters[i], log, start, end)
  {
    if counters != [] {
      var init := counters[..|counters| - 1];
      AllConsumptionPerCounter(init, log, start, end);
      assert forall i :: 0 <= i < |init| ==> init[i] == counters[i];
    }
  }

  /** What an entry of the all-counters list holds: the counter's id, name
      and value, and the single-counter query's count for that id. */
  lemma EntryAgreesWithSingle(c: Counter, log: seq<LogRow>, start: int, end: int)
    ensures var e := Entry(c, log, start, end);
      && e.counterId == c.id && e.name == c.name && e.currentValue == c.value
      && e.pulseCount == ConsumptionForPeriod(log, c.id, start, end).pulseCount
      && e.pulseCount == PulsesInWindow(log, c.id, start, end)
      && e.liters == e.pulseCount * LitersPerQuantum
  {
  }

  // ---------------------------------------------------------------------
  // History

  /** The order of `ORDER BY time DESC`: later first, and (as PostgreSQL
      sorts them in descending order) NULL times before all others. */
  predicate NewerOrSame(a: Option<int>, b: Option<int>) {
    a.None? || (b.Some? && a.value >= b.value)
  }

  predicate NewestFirst(rows: seq<LogRow>) {
    forall i, j :: 0 <= i < j < |rows| ==> NewerOrSame(rows[i].time, rows[j].time)
  }

  /** A row at least as new as the head of a newest-first sequence can go in
      front of it. */
  lemma Prepend(row: LogRow, rows: seq<LogRow>)
    requires NewestFirst(rows)
    requires rows == [] || NewerOrSame(row.time, rows[0].time)
    ensures NewestFirst([row] + rows)
  {
    var r := [row] + rows;
    forall i, j | 0 <= i < j < |r|
      ensures NewerOrSame(r[i].time, r[j].time)
    {
      if i == 0 && j > 1 {
        assert NewerOrSame(rows[0].time, rows[j - 1].time);
      }
    }
  }

  /** Inserts `row` before the first row it is newer than or as new as. */
  function InsertByTime(row: LogRow, rows: seq<LogRow>): (r: seq<LogRow>)
    requires NewestFirst(rows)
    ensures |r| == |rows| + 1
    ensures r[0] == row || (rows != [] && r[0] == rows[0])
    ensures NewestFirst(r)
    ensures multiset(r) == multiset(rows) + multiset{row}
  {
    if rows == [] || NewerOrSame(row.time, rows[0].time) then
      Prepend(row, rows);
      [row] + rows
    else
      var tail := InsertByTime(row, rows[1..]);
      assert rows == [rows[0]] + rows[1..];
      assert NewerOrSame(rows[0].time, tail[0].time);
      Prepend(rows[0], tail);
      [rows[0]] + tail
  }

  /** The rows in newest-first order (rows with equal times keep log
      order). */
  function SortNewestFirst(rows: seq<LogRow>): (r: seq<LogRow>)
    ensures NewestFirst(r)
    ensures multiset(r) == multiset(rows)
  {
    if rows == [] then []
    else
      assert rows == [rows[0]] + rows[1..];
      InsertByTime(rows[0], SortNewestFirst(rows[1..]))
  }

  /** Number of rows a `LIMIT limit` keeps out of `n`: none for a limit of
      zero or less. */
  function Kept(limit: int, n: nat): nat {
    Min(Max(limit, 0), n)
  }

  /** The rows of `get_counter_history`'s query: counter `id`'s log rows,
      newest first, at most `limit` of them. */
  function NewestRows(log: seq<LogRow>, id: int, limit: int): seq<LogRow> {
    var sorted := SortNewestFirst(Owned(log, id));
    sorted[..Kept(limit, |sorted|)]
  }

  /** The rows of counter `id` that the limit cuts off. */
  function CutOffRows(log: seq<LogRow>, id: int, limit: int): seq<LogRow> {
    var sorted := SortNewestFirst(Owned(log, id));
    sorted[Kept(limit, |sorted|)..]
  }

  /** Rows of counter `id` only. */
  predicate OfCounter(rows: seq<LogRow>, id: int) {
    forall k :: 0 <= k < |rows| ==> rows[k].idSensor == id
  }

  lemma {:induction false} InsertKeepsCounter(row: LogRow, rows: seq<LogRow>, id: int)
    requires NewestFirst(rows) && OfCounter(rows, id) && row.idSensor == id
    ensures OfCounter(InsertByTime(row, rows), id)
  {
    if !(rows == [] || NewerOrSame(row.time, rows[0].time)) {
      InsertKeepsCounter(row, rows[1..], id);
    }
  }

  lemma {:induction false} SortKeepsCounter(rows: seq<LogRow>, id: int)
    requires OfCounter(rows, id)
    ensures OfCounter(SortNewestFirst(rows), id)
  {
    if rows != [] {
      SortKeepsCounter(rows[1..], id);
      InsertKeepsCounter(rows[0], SortNewestFirst(rows[1..]), id);
    }
  }

  /** The history holds only rows of the counter, as many as the limit
      allows. */
  lemma NewestRowsOfCounter(log: seq<LogRow>, id: int, limit: int)
    ensures |NewestRows(log, id, limit)| == Kept(limit, OwnedCount(log, id))
    ensures OfCounter(NewestRows(log, id, limit), id)
  {
    SortKeepsCounter(Owned(log, id), id);
  }

  /** The history is newest first, and no row the limit cuts off is newer
      than a row returned. */
  lemma NewestRowsOrdered(log: seq<LogRow>, id: int, limit: int)
    ensures var rows := NewestRows(log, id, limit);
      var rest := CutOffRows(log, id, limit);
      && NewestFirst(rows)
      && (forall k, m :: 0 <= k < |rows| && 0 <= m < |rest| ==> NewerOrSame(rows[k].time, rest[m].time))
  {
    var sorted := SortNewestFirst(Owned(log, id));
    var n := Kept(limit, |sorted|);
    forall k, m | 0 <= k < n && 0 <= m < |sorted[n..]|
      ensures NewerOrSame(sorted[..n][k].time, sorted[n..][m].time)
    {
      assert sorted[n..][m] == sorted[n + m];
    }
  }

  /** Together with the rows cut off, the history is exactly the counter's
      rows: none lost, none invented. */
  lemma NewestRowsPartition(log: seq<LogRow>, id: int, limit: int)
    ensures multiset(NewestRows(log, id, limit)) + multiset(CutOffRows(log, id, limit)) == multiset(Owned(log, id))
  {
    var sorted := SortNewestFirst(Owned(log, id));
    var n := Kept(limit, |sorted|);
    assert sorted == sorted[..n] + sorted[n..];
  }

  /** `get_counter_history`: the dictionaries of `NewestRows`. */
  function History(log: seq<LogRow>, id: int, limit: int): (h: seq<LogRecord>)
    ensures |h| == |NewestRows(log, id, limit)| == Kept(limit, OwnedCount(log, id))
    ensures forall k :: 0 <= k < |h| ==> h[k] == NewestRows(log, id, limit)[k].ToDict()
  {
    var rows := NewestRows(log, id, limit);
    NewestRowsOfCounter(log, id, limit);
    seq(|rows|, k requires 0 <= k < |rows| => rows[k].ToDict())
  }

  /** `get_current_readings`: every counter's dictionary, in store order. */
  function Readings(counters: seq<Counter>): (r: seq<Reading>)
    ensures |r| == |counters|
    ensures forall i :: 0 <= i < |r| ==> r[i] == counters[i].ToDict()
  {
    seq(|counters|, i requires 0 <= i < |counters| => counters[i].ToDict())
  }

  // ---------------------------------------------------------------------
  // Results of the mutating operations

  /** The dictionary `add_water_pulse` returns. */
  datatype PulseResult =
    | PulseAdded(counterId: int, counterName: string, newValue: nat, litersAdded: nat, timestamp: int)
    | PulseNotFound(counterId: int)
  {
    predicate Success() { PulseAdded? }
  }

  /** The dictionary `reset_counter` returns; the new value is always 0. */
  datatype ResetResult =
    | ResetDone(counterId: int, counterName: string, oldValue: nat)
    | ResetNotFound
  {
    predicate Success() { ResetDone? }
  }

  // ---------------------------------------------------------------------
  // The store

  class CounterStore {
    var counters: seq<Counter>
    var log: seq<LogRow>
    var nextCounterId: int
    var nextLogId: int

    /** What the schema guarantees: primary keys and the foreign key. */
    ghost predicate Valid()
      reads this
    {
      Tables(counters, nextCounterId, log, nextLogId)
    }

    /** The accounting invariant of the tables. */
    ghost predicate Consistent()
      reads this
    {
      ValuesMatchLog(counters, log)
    }

    /** `init_db` on a fresh database: both tables exist and are empty. */
    constructor ()
      ensures Valid() && Consistent()
      ensures counters == [] && log == []
    {
      counters, log := [], [];
      nextCounterId, nextLogId := 1, 1;
    }

    /** `add_water_pulse`: one log row and one quantum for an existing
        counter, nothing at all for a missing one. */
    method AddWaterPulse(sensorId: int, now: int) returns (r: PulseResult)
      requires Valid()
      modifies this
      ensures Valid()
      ensures old(Consistent()) ==> Consistent()
      ensures nextCounterId == old(nextCounterId)
      ensures r.Success() <==> IndexOf(old(counters), sensorId).Some?
      ensures IndexOf(old(counters), sensorId).None? ==>
        && r == PulseNotFound(sensorId)
        && counters == old(counters) && log == old(log) && nextLogId == old(nextLogId)
      ensures IndexOf(old(counters), sensorId).Some? ==>
        var k := IndexOf(old(counters), sensorId).value;
        && counters == Bumped(old(counters), k, 1, now)
        && log == old(log) + [LogRow(old(nextLogId), sensorId, Some(now))]
        && nextLogId == old(nextLogId) + 1
        && r == PulseAdded(sensorId, old(counters)[k].name, old(counters)[k].value + 1, LitersPerQuantum, now)
    {
      var found := IndexOf(counters, sensorId);
      if found.None? {
        return PulseNotFound(sensorId);
      }
      var k := found.value;
      var c := counters[k];
      var row := LogRow(nextLogId, sensorId, Some(now));
      PulseKeepsTables(counters, nextCounterId, log, nextLogId, k, now);
      PulseKeepsValues(counters, nextCounterId, log, nextLogId, k, now);
      log := log + [row];
      nextLogId := nextLogId + 1;
      counters := Bumped(counters, k, 1, now);
      r := PulseAdded(sensorId, c.name, c.value + 1, LitersPerQuantum, now);
    }

    /** `create_counter_if_not_exists`: the id of the first counter with
        that name, inserting a fresh one (value 0) only when there is none. */
    method CreateCounterIfNotExists(name: string, now: int) returns (id: int)
      requires Valid()
      modifies this
      ensures Valid()
      ensures old(Consistent()) ==> Consistent()
      ensures log == old(log) && nextLogId == old(nextLogId)
      ensures id >= 1
      ensures counters == WithNamed(old(counters), old(nextCounterId), name, now)
      ensures nextCounterId == old(nextCounterId) + |counters| - |old(counters)|
      ensures FindByName(counters, name).Some? && counters[FindByName(counters, name).value].id == id
      ensures FindByName(old(counters), name).Some? ==>
        && id == old(counters)[FindByName(old(counters), name).value].id
        && counters == old(counters) && nextCounterId == old(nextCounterId)
      ensures FindByName(old(counters), name).None? ==>
        && id == old(nextCounterId)
        && counters == old(counters) + [NewCounter(id, name, now)]
        && nextCounterId == old(nextCounterId) + 1
    {
      var existing := FindByName(counters, name);
      if existing.Some? {
        return counters[existing.value].id;
      }
      id := nextCounterId;
      var created := NewCounter(id, name, now);
      FindByNameAppend(counters, created, name);
      InsertKeepsTables(counters, nextCounterId, log, nextLogId, name, now);
      InsertKeepsValues(counters, nextCounterId, log, nextLogId, name, now);
      counters := counters + [created];
      nextCounterId := nextCounterId + 1;
    }

    /** `reset_counter`: zero an existing counter, stamp it with `now`,
        delete its log rows, and report the value it had. */
    method ResetCounter(counterId: int, now: int) returns (r: ResetResult)
      requires Valid()
      modifies this
      ensures Valid()
      ensures old(Consistent()) ==> Consistent()
      ensures nextCounterId == old(nextCounterId) && nextLogId == old(nextLogId)
      ensures r.Success() <==> IndexOf(old(counters), counterId).Some?
      ensures IndexOf(old(counters), counterId).None? ==>
        && r == ResetNotFound
        && counters == old(counters) && log == old(log)
      ensures IndexOf(old(counters), counterId).Some? ==>
        var k := IndexOf(old(counters), counterId).value;
        && r == ResetDone(counterId, old(counters)[k].name, old(counters)[k].value)
        && counters == old(counters)[k := old(counters)[k].(value := 0, lastTime := Some(now))]
        && log == Disowned(old(log), counterId)
        && (forall x :: Owned(log, x) == if x == counterId then [] else Owned(old(log), x))
    {
      var found := IndexOf(counters, counterId);
      if found.None? {
        return ResetNotFound;
      }
      var k := found.value;
      ResetKeepsTables(counters, nextCounterId, log, nextLogId, k, now);
      forall x
        ensures Owned(Disowned(log, counterId), x) == if x == counterId then [] else Owned(log, x)
      {
        OwnedAfterDelete(log, counterId, x);
      }
      var c := counters[k];
      r := ResetDone(counterId, c.name, c.value);
      counters := counters[k := c.(value := 0, lastTime := Some(now))];
      log := Disowned(log, counterId);
    }

    /** `get_all_consumption_for_period`: the loop over all counters. */
    method AllConsumptionForPeriod(start: int, end: int) returns (results: seq<ConsumptionEntry>)
      ensures results == AllConsumption(counters, log, start, end)
    {
      results := [];
      var i := 0;
      while i < |counters|
        invariant 0 <= i <= |counters|
        invariant results == AllConsumption(counters[..i], log, start, end)
      {
        var c := counters[i];
        var single := ConsumptionForPeriod(log, c.id, start, end);
        results := results + [ConsumptionEntry(c.id, c.name, single.pulseCount, single.liters, c.value)];
        assert counters[..i + 1][..i] == counters[..i];
        i := i + 1;
      }
      assert counters[..i] == counters;
    }
  }
}

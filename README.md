# Water meter: a Dafny model

The system counts household water use. A meter controller (ESP8266 firmware,
`water_meter.cpp`) counts the pulses of a water meter. One pulse is 10 litres.
It publishes the count over MQTT. A Python server stores each pulse as a log
row and bumps a per-counter reading (`database.py`, `models.py`). Its MQTT
client (`mqtt_client.py`) turns messages into store calls. A Flask API
(`web_server.py`) answers queries about readings, history and consumption
over a period, and can reset a counter.

This project models that core and proves properties of the model:

- `json.dfy`: decoded JSON documents, Python truthiness and `dict.get`.
- `models.dfy`: the two table rows (`water_counter`, `water_meter_log`) and
  their `to_dict` records. Readings are counted in integer quanta: one
  quantum is 0.01 m³, that is 10 litres.
- `database.dfy`: `DatabaseManager`.
  - The queries are functions of the two tables.
  - The mutating operations are methods of the class `CounterStore`, whose
    fields are the tables and the two key sequences.
  - Each method is one atomic step from the old tables to the new ones. That
    is the guarantee `get_session` gives by committing or rolling back the
    whole session.
  - Every method keeps the schema: primary keys and the foreign key from
    log rows to counters. It also keeps the accounting invariant, which
    says every counter's value is the number of its log rows.
- `mqtt_client.dfy` (module `MqttClient`): `mqtt_client.py`:
  - topic splitting and `on_message` dispatch;
  - how a pulse message resolves to a counter and a pulse count;
  - the class `Client`, which owns the controller mapping and runs the loop
    of `add_water_pulse` calls.
- `web_server.dfy`: the routes as functions from the request and the tables
  to a status code, a `success` flag and a body.
- `water_meter.dfy`: the firmware as a class `Meter`.
  - Its counters are 32-bit unsigned values.
  - Ghost unbounded counts track what the counters wrap around.
  - The millisecond clock arithmetic is modular.
- `integration.dfy`: what the firmware publishes is routed, resolved and
  counted by the server as intended.

Two parts of the environment are parameters:

- "now" is passed to every operation that stamps a time.
- ISO timestamp parsing and the database's coercion of a non-integer
  `counter_id` are function parameters of the consumption route.

Each table is a sequence in insertion order, and SQL queries without
`ORDER BY` are read as returning rows in that order. This is a modelling
choice: the database makes no such promise (see "Left out").

## Model

| member | source | states |
|---|---|---|
| Models.Counter.ToDict | models.py:22-28 | the dictionary carries the counter's id, name and value; `last_time` is null exactly when the column is null |
| Models.LogRow.ToDict | models.py:41-46 | the dictionary carries the row's id and sensor id; `time` is null exactly when the column is null |
| Models.NewCounter | models.py:14-17 | a new counter has the given id and name, value 0 and last time the insertion time (the column defaults) |
| Models.CounterToDictInjective | models.py:22-28 | two counters with the same dictionary are the same row |
| Models.LogRowToDictInjective | models.py:41-46 | two log rows with the same dictionary are the same row |
| Database.IndexOf | database.py:41-43 | a found position holds a counter with the requested id |
| Database.IndexOfFirst | database.py:41-43 | `.first()`: no earlier counter has the id, and nothing is found exactly when no counter has it |
| Database.FindByName | database.py:165-167 | a found position holds a counter with the requested name |
| Database.FindByNameFirst | database.py:165-167 | no earlier counter has the name, and nothing is found exactly when no counter has it |
| Database.FindByNameAppend | database.py:165-182 | after inserting a counter, the name lookup still finds the existing first counter of that name, or the new one when there was none |
| Database.Owned | database.py:89-90 | the filter on `id_sensor` keeps only rows of the counter |
| Database.OwnedComplete | database.py:89-90 | every row of the counter is kept by the filter |
| Database.Disowned | database.py:205-207 | the bulk delete leaves no row of the counter |
| Database.OwnedAfterDelete | database.py:205-207 | after the delete the counter owns nothing and every other counter owns exactly what it owned before |
| Database.OwnedAppend | database.py:49-54 | an appended row adds to the owned rows of its own counter only |
| Database.NothingOwned | database.py:173-182 | an id that no row refers to owns no rows |
| Database.OwnedAfterPulses | database.py:49-54 | `n` pulse rows give their counter exactly `n` more rows and leave every other counter's count unchanged |
| Database.PulsesKeepValues | database.py:49-58 | `n` pulses on a counter keep every counter's value equal to its number of log rows |
| Database.PulseKeepsTables | database.py:49-58 | one pulse on an existing counter keeps the primary keys and the foreign key |
| Database.PulseKeepsValues | database.py:49-58 | one pulse (a row plus one quantum) keeps the accounting invariant |
| Database.InsertKeepsTables | database.py:173-182 | inserting a counter under the next key keeps the primary keys and the foreign key |
| Database.InsertKeepsValues | database.py:173-182 | a new counter with value 0 owns no rows, so the accounting invariant holds |
| Database.ResetKeepsTables | database.py:199-207 | zeroing a counter and deleting its rows keeps the schema and the accounting invariant |
| Database.DeleteKeepsKeys | database.py:205-207 | deleting rows keeps the log's keys unique and increasing |
| Database.DeleteKeepsReferences | database.py:205-207 | the remaining rows still refer to existing counters |
| Database.PulsesInWindow | database.py:106-110 | the count of a counter's rows in `[start, end]` never exceeds its row count |
| Database.WindowCoversAll | database.py:106-110 | a window holding all of a counter's rows counts all of them |
| Database.WindowSplit | database.py:106-110 | two adjacent windows count as much as their union |
| Database.WindowAppend | database.py:106-110 | a new row adds one to a window exactly when it is the counter's and inside the window |
| Database.ValueIsWholeWindow | database.py:106-110 | under the accounting invariant, a window covering all of a counter's rows counts its value |
| Database.ConsumptionForPeriod | database.py:98-122 | the pulse count is the number of the counter's rows with `start <= time <= end` (whose meaning the window lemmas give); the result echoes id and period; litres are ten per pulse; the count is bounded by the counter's rows and is 0 for an id without rows |
| Database.AllConsumptionPerCounter | database.py:128-154 | exactly one entry per counter, in store order, each the counter's own entry |
| Database.EntryAgreesWithSingle | database.py:136-152 | an entry gives the counter's id, name and current value, and the same pulse count as the single-counter query |
| Database.InsertByTime | database.py:91 | inserting into a newest-first list keeps it newest first and adds exactly the row |
| Database.SortNewestFirst | database.py:91 | `ORDER BY time DESC` gives a newest-first permutation of the rows |
| Database.InsertKeepsCounter | database.py:89-91 | sorting inserts only rows of the counter |
| Database.SortKeepsCounter | database.py:89-91 | sorting a counter's rows gives rows of that counter only |
| Database.NewestRowsOfCounter | database.py:89-91 | the history holds only rows of the counter, as many as `LIMIT` keeps of them |
| Database.NewestRowsOrdered | database.py:89-91 | the history is newest first and no row cut off by the limit is newer than a kept one |
| Database.NewestRowsPartition | database.py:89-91 | the history and the rows cut off together are exactly the counter's rows |
| Database.History | database.py:85-93 | `get_counter_history` gives the dictionaries of the newest rows, as many as the limit keeps |
| Database.Readings | database.py:75-80 | one dictionary per counter, in store order |
| Database.CounterStore.constructor | database.py:14-18 | a fresh database has empty tables that satisfy the schema and the accounting invariant |
| Database.CounterStore.AddWaterPulse | database.py:33-69 | success exactly for an existing counter; then one log row stamped `now` and one quantum more, otherwise nothing changes; schema and accounting are kept |
| Database.WithNamed | database.py:165-182 | the counters table after creating a name: the old counters kept, at most one appended, and the name then found |
| Database.CounterStore.CreateCounterIfNotExists | database.py:160-182 | the id of the first counter of that name, unchanged tables when it exists, otherwise one new counter with value 0 under the next key (the table becomes `WithNamed` of the old one) |
| Database.CounterStore.ResetCounter | database.py:188-217 | success exactly for an existing counter; its old value is returned, it becomes 0 stamped `now`, its rows are deleted and nothing else changes |
| Database.CounterStore.AllConsumptionForPeriod | database.py:128-154 | the loop over all counters builds the all-counters consumption list |
| MqttClient.Split | mqtt_client.py:79 | `split('/')` gives at least one piece and no piece contains the separator |
| MqttClient.JoinSplit | mqtt_client.py:79 | joining the pieces gives the topic back |
| MqttClient.SplitWithoutSeparator | mqtt_client.py:79-81 | a text without `/` is a single piece |
| MqttClient.SplitLeadingPiece | mqtt_client.py:79 | a piece followed by `/` splits off as the first part |
| MqttClient.SplitAfterPrefix | mqtt_client.py:79 | a pulse topic splits into `water_meter`, `pulse` and the pieces of the rest |
| MqttClient.PulseTopicParts | mqtt_client.py:65-81 | every pulse topic has at least three parts, so the controller always comes from the topic |
| MqttClient.PulseTopicController | mqtt_client.py:79-81 | `water_meter/pulse/<id>` names controller `<id>` when the id has no `/` |
| MqttClient.ControllerKey | mqtt_client.py:79-83 | the controller is the topic's third part when there are three parts, else the payload's `controller_id`, `'unknown'` when that is absent, and nothing when the payload is not an object |
| MqttClient.Classify | mqtt_client.py:65-68 | a topic goes to the pulse handler exactly when it has the pulse prefix, and to the status handler exactly when it is the status topic |
| MqttClient.PulseCount | mqtt_client.py:93-98 | a missing `pulse_count` means one pulse, an integer means that many |
| MqttClient.Resolve | mqtt_client.py:73-98 | a message is applied only if it decodes, its controller maps to a non-zero counter id in the mapping, and its pulse count is an integer |
| MqttClient.ResolveOnPulseTopic | mqtt_client.py:79-90 | on a pulse topic the controller is read off the topic; an unmapped controller is rejected |
| MqttClient.DefaultIsOnePulse | mqtt_client.py:93 | a known controller's message without `pulse_count` is one pulse |
| MqttClient.Initialized | mqtt_client.py:27-31 | the counters after the two creations: the old counters kept in place, and exactly the named counters that were missing appended (one per missing name), fresh with value 0; nothing changes when both exist |
| MqttClient.Client.constructor | mqtt_client.py:12-25 | after construction the counters table is `Initialized` of the old one, both controllers are mapped to the counters of their names, the next counter key advanced by the number of counters created, the log and its next key untouched, and the store's invariants hold |
| MqttClient.Client.InitializeCounters | mqtt_client.py:27-37 | the counters table becomes `Initialized` of the old one, the next counter key advances by the number created, and the log and its next key are untouched; the mapping has exactly the two controllers, each pointing at the counter of its name |
| MqttClient.Client.CreateBothCounters | mqtt_client.py:30-31 | the two creations in order: the table becomes `Initialized` of the old one, the next counter key advances by the number created, the log and its key are untouched, and the ids returned are those of the two named counters |
| MqttClient.Client.OnMessage | mqtt_client.py:58-71 | pulse topics are handled as pulses, the status topic only logged, anything else ignored; the store only changes through pulses: the next counter key never changes, and the next log key advances by the pulses applied |
| MqttClient.Client.HandlePulseMessage | mqtt_client.py:73-104 | a rejected message changes nothing, keys included; an applied one makes `max(n, 0)` `add_water_pulse` calls, which succeed exactly for an existing counter; the next log key advances by the pulses applied and the next counter key is unchanged; the accounting invariant is kept |
| MqttClient.Client.ApplyPulses | mqtt_client.py:97-102 | `range(n)` calls of `add_water_pulse`: the counter gains that many quanta and the log that many rows stamped `now`, or nothing changes for a missing counter; the next log key advances by the pulses applied, the next counter key is unchanged |
| MqttClient.Client.PulseOnce | mqtt_client.py:99-102 | one loop iteration succeeds exactly for an existing counter and extends the run by one pulse, log key included; the next counter key is unchanged |
| MqttClient.PulseEffectOnCounters | mqtt_client.py:97-102 | after a message of `n` pulses to an existing counter, its value rose by `n`, the other counters are unchanged, and the log gained `n` rows of it with consecutive ids |
| WaterMeter.Wrap | water_meter.cpp:47-48 | unsigned arithmetic keeps values below 2^32 unchanged |
| WaterMeter.WrapStep | water_meter.cpp:47-48 | incrementing a wrapped counter is wrapping the incremented true count |
| WaterMeter.ElapsedSince | water_meter.cpp:46 | `now - last` on unsigned longs is the difference, plus 2^32 when the clock wrapped |
| WaterMeter.ElapsedRoundTrip | water_meter.cpp:46 | going the elapsed time forward from the last pulse lands on now |
| WaterMeter.DebounceAcrossWrap | water_meter.cpp:46 | across a clock wrap a pulse is judged by the real time since the last one |
| WaterMeter.PulseTopic | water_meter.cpp:69-70 | the topic is the pulse prefix followed by the controller id |
| WaterMeter.PulsePayload | water_meter.cpp:61-65 | the message has the five keys, with the controller id, the meter name, the pulse count and the timestamp |
| WaterMeter.Meter.constructor | water_meter.cpp:35-39 | all counters start at zero and nothing is pending |
| WaterMeter.Meter.HandleWaterPulse | water_meter.cpp:43-52 | a pulse more than 50 ms after the last counted one increments both counters modulo 2^32 and sets the flag; otherwise nothing changes |
| WaterMeter.Meter.SendPulseMessage | water_meter.cpp:54-83 | with no pulses nothing is sent; otherwise the pulse message is sent and the pending count cleared, the total kept |
| WaterMeter.Meter.MqttCallback | water_meter.cpp:109-145 | `reset` zeroes both counters and reports status, `status` only reports, anything else changes nothing |
| WaterMeter.Meter.Loop | water_meter.cpp:232-235 | when a pulse was counted and the broker is connected, the waiting pulses are sent and the flag cleared; otherwise nothing happens |
| WaterMeter.CountWithinTotal | water_meter.cpp:47-48 | until 2^32 pulses have been counted, the waiting count never exceeds the total |
| WebServer.CurrentReadingsRoute | web_server.py:23-33 | status 200 with one reading per counter, in store order, and their count |
| WebServer.FirstReading | web_server.py:45 | a found reading has the requested id |
| WebServer.FirstReadingIsIndexOf | web_server.py:44-45 | searching the readings finds exactly the counter the table lookup finds |
| WebServer.Limit | web_server.py:51 | the `limit` argument when it parses as an integer, 50 when it is absent or does not parse |
| WebServer.CounterDataRoute | web_server.py:39-59 | 404 exactly for an unknown counter; otherwise its reading and its newest history rows (default limit 50) and their count |
| WebServer.ParsePeriod | web_server.py:69-88 | no body gives 400; a refusal is 400 or 500; an accepted period has both times given as strings that parse, with start before end |
| WebServer.SelectedId | web_server.py:91-93 | an integer `counter_id` selects itself; any other value is what the database makes of it |
| WebServer.UnparsableTimeRefused | web_server.py:80-85 | a start or end time string that does not parse gets 400 |
| WebServer.ConsumptionRoute | web_server.py:65-112 | success exactly with status 200; a refused period gives its error; with a truthy `counter_id` the single-counter result for the id it selects, echoing the raw `counter_id` as given, otherwise one entry per counter with the period |
| WebServer.MissingTimesRefused | web_server.py:73-78 | a body without `start_time` or `end_time` gets 400 |
| WebServer.PeriodOrder | web_server.py:87-88 | two valid times of the same kind are accepted exactly when start is before end, and refused with 400 otherwise |
| WebServer.SingleAgreesWithAll | web_server.py:91-112 | the single-counter and the all-counters answers agree on every counter |
| WebServer.ResetRoute | web_server.py:119-131 | success with the store's result exactly when the reset succeeded, 500 otherwise |
| WebServer.ResetRequest | web_server.py:119-131 | the reset request succeeds exactly for an existing counter; then the store's result is returned, that counter alone becomes 0 stamped `now`, and only its log rows are deleted; otherwise 500 and unchanged tables; both next keys are unchanged either way |
| Integration.ControllerIdHasNoSlash | water_meter.cpp:14 | the controller id contains no `/` |
| Integration.SharedNames | water_meter.cpp:14-26 | the firmware and the server agree on topics, controller id and counter name |
| Integration.PulseTopicReachesHandler | water_meter.cpp:69-70 | the firmware's pulse topic reaches the pulse handler and names the firmware's controller |
| Integration.MeterMessageResolves | water_meter.cpp:61-70 | a firmware pulse message becomes exactly its pulse count on the mapped counter |

## Left out

- Floating point: counter values and consumption in m³ (`value += 0.01`, `consumption_m3`) are integer quanta. The rounding drift of repeated float additions is not modelled.
- Database.CounterStore.AddWaterPulse: reports `new_value` in quanta, not in m³; `liters_added` is 10.
- Database.ConsumptionForPeriod: carries litres instead of `consumption_m3`, and the period as instants rather than ISO strings.
- WaterMeter.PulsePayload: `liters` is a real number; its value is not stated in the contract.
- Row order: each table is modelled as a sequence in insertion order, and unordered queries (`.all()`, `.first()`) return rows in that order. PostgreSQL promises no order without `ORDER BY`; after an update a scan may list rows differently. These rest on that choice:
  - the "in store order" of `Database.Readings` and `Database.AllConsumptionPerCounter`;
  - the ascending keys of the counters table;
  - which counter `Database.FindByName` picks when a name occurs twice.
- Storage exceptions:
  - the `{'success': False, 'error': ...}` results and the empty lists returned on a database error;
  - the rollback in `get_session`. Each method is already one atomic step.
- Database.CounterStore.CreateCounterIfNotExists: never returns `None`, because storage exceptions are not modelled.
- The three `datetime.now()` calls of `add_water_pulse` (the log row's time, the counter's `last_time` and the returned `timestamp`) are one instant `now`. All pulses of one MQTT message share that instant.
- Concurrency:
  - several sessions running at once;
  - the MQTT thread beside the Flask threads;
  - the firmware interrupt racing with the loop. A pulse counted between building a message and clearing `pulseCount`, or between sending and clearing `pulseTriggered`, is not modelled.
- Flask itself:
  - routing, `jsonify` and the `timestamp`/`message` fields;
  - the `<int:...>` converters, modelled as a `nat` argument;
  - newer Flask versions raising on a body that is not JSON. `request.json` is modelled as a decoded value, `Null` when absent.
- ISO timestamp parsing and `.replace('Z', '+00:00')` are a parameter `parseTime`.
- The source compares a naive with an aware datetime. This raises and gives 500, and the model follows that.
- WebServer.ConsumptionRoute: how the database compares a non-integer `counter_id` with the integer column is a parameter `coerceId`. The response echoes the raw `counter_id` (`SingleBody.counterId`), while the `Consumption` record inside carries the selected integer id instead of the argument `get_consumption_for_period` echoes.
- The reset route answers 500, not 404, for an unknown counter. The model follows the code.
- The Grafana endpoints, `/api/health`, the index page, `main.py` and `config.py` are not part of this model.
- `handle_status_message` and `on_connect` only log; status messages are modelled as logged and nothing more.
- Firmware I/O is not modelled:
  - WiFi and MQTT reconnection, serial output and `delay`;
  - the status ticker and the contents of the status message (IP address, RSSI, heap, uptime). A status report carries the controller id and the total.
- WaterMeter.Meter.MqttCallback: a command document without a string `command` makes `strcmp` read a null pointer, which is undefined behaviour. The model only takes commands that are strings, besides unparsable payloads.
- The `publish` result is not modelled. The pending count is cleared whether or not the broker accepted the message, as in the code.

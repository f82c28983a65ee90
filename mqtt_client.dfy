/** Pulse-message ingestion (`MQTTClient`): which topics are handled, how a
    pulse message is resolved to a counter, and the loop that applies its
    pulses to the store one by one. */
module MqttClient {
  import opened Models
  import Json
  import Database

  const PulseTopicPrefix: string := "water_meter/pulse/"
  const StatusTopic: string := "water_meter/status"

  const ColdController: string := "water_meter_controller_001"
  const HotController: string := "water_meter_controller_002"
  const ColdWaterName: string := "Холодная вода"
  const HotWaterName: string := "Горячая вода"

  // ---------------------------------------------------------------------
  // Topics

  /** Python's `s.split(sep)`: the pieces between separators, always at
      least one. */
  function Split(s: string, sep: char): (parts: seq<string>)
    ensures |parts| >= 1
    ensures forall k :: 0 <= k < |parts| ==> sep !in parts[k]
  {
    if s == [] then [[]]
    else
      var rest := Split(s[1..], sep);
      if s[0] == sep then [[]] + rest
      else [[s[0]] + rest[0]] + rest[1..]
  }

  /** `sep.join(parts)`, the inverse of `Split`. */
  function Join(parts: seq<string>, sep: char): string
    requires |parts| >= 1
  {
    if |parts| == 1 then parts[0] else parts[0] + [sep] + Join(parts[1..], sep)
  }

  /** Splitting loses nothing: joining the pieces gives the topic back. */
  lemma {:induction false} JoinSplit(s: string, sep: char)
    ensures Join(Split(s, sep), sep) == s
  {
    if s != [] {
      var rest := Split(s[1..], sep);
      JoinSplit(s[1..], sep);
      assert s == [s[0]] + s[1..];
      if s[0] != sep && |rest| > 1 {
        assert ([s[0]] + rest[0]) + [sep] + Join(rest[1..], sep)
            == [s[0]] + (rest[0] + [sep] + Join(rest[1..], sep));
      }
    }
  }

  /** A text without the separator is one piece. */
  lemma {:induction false} SplitWithoutSeparator(s: string, sep: char)
    requires sep !in s
    ensures Split(s, sep) == [s]
  {
    if s != [] {
      assert sep !in s[1..] by {
        forall c | c in s[1..] ensures c != sep {
          var k :| 0 <= k < |s[1..]| && s[1..][k] == c;
          assert s[k + 1] == c;
        }
      }
      SplitWithoutSeparator(s[1..], sep);
      assert [s[0]] + s[1..] == s;
    }
  }

  /** A leading piece followed by the separator splits off as the first
      part. */
  lemma {:induction false} SplitLeadingPiece(piece: string, sep: char, rest: string)
    requires sep !in piece
    ensures Split(piece + [sep] + rest, sep) == [piece] + Split(rest, sep)
  {
    var s := piece + [sep] + rest;
    if piece == [] {
      assert s == [sep] + rest;
      assert s[1..] == rest;
    } else {
      assert s[0] == piece[0];
      assert s[1..] == piece[1..] + [sep] + rest;
      assert sep !in piece[1..] by {
        forall c | c in piece[1..] ensures c != sep {
          var k :| 0 <= k < |piece[1..]| && piece[1..][k] == c;
          assert piece[k + 1] == c;
        }
      }
      SplitLeadingPiece(piece[1..], sep, rest);
      assert [piece[0]] + piece[1..] == piece;
    }
  }

  /** What follows the pulse prefix splits into the topic's parts from the
      third on. */
  lemma {:induction false} SplitAfterPrefix(rest: string)
    ensures Split(PulseTopicPrefix + rest, '/') == ["water_meter", "pulse"] + Split(rest, '/')
  {
    var tail := "pulse" + ['/'] + rest;
    assert PulseTopicPrefix + rest == "water_meter" + ['/'] + tail;
    SplitLeadingPiece("water_meter", '/', tail);
    SplitLeadingPiece("pulse", '/', rest);
  }

  /** Every topic with the pulse prefix has at least three parts, and the
      third is the first piece of what follows the prefix; so the fallback
      to the payload's `controller_id` cannot be reached from the pulse
      handler's only caller. */
  lemma PulseTopicParts(topic: string)
    requires PulseTopicPrefix <= topic
    ensures |Split(topic, '/')| >= 3
    ensures Split(topic, '/')[2] == Split(topic[|PulseTopicPrefix|..], '/')[0]
  {
    var rest := topic[|PulseTopicPrefix|..];
    assert topic == PulseTopicPrefix + rest;
    SplitAfterPrefix(rest);
  }

  /** Topic `water_meter/pulse/<id>` names controller `<id>` when `<id>` has
      no further `/`. */
  lemma PulseTopicController(controller: string)
    requires '/' !in controller
    ensures |Split(PulseTopicPrefix + controller, '/')| == 3
    ensures Split(PulseTopicPrefix + controller, '/')[2] == controller
  {
    SplitAfterPrefix(controller);
    SplitWithoutSeparator(controller, '/');
  }

  datatype Route = PulseRoute | StatusRoute | NoRoute

  /** The dispatch of `on_message`. */
  function Classify(topic: string): (r: Route)
    ensures r == PulseRoute <==> PulseTopicPrefix <= topic
    ensures r == StatusRoute <==> topic == StatusTopic
  {
    if PulseTopicPrefix <= topic then
      assert topic != StatusTopic by { assert StatusTopic[12] != PulseTopicPrefix[12]; }
      PulseRoute
    else if topic == StatusTopic then StatusRoute
    else NoRoute
  }

  // ---------------------------------------------------------------------
  // Resolving a pulse message

  /** A message payload: undecodable (not UTF-8 or not JSON) or a decoded
      JSON document. */
  datatype Payload = Undecodable | Decoded(data: Json.Value)

  /** Why a pulse message changes nothing. `BadPayload` stands for the
      exceptions the handler catches: a payload that is not a JSON object, an
      unhashable controller id, a `pulse_count` that `range` refuses. */
  datatype Rejection = MalformedMessage | UnknownController | BadPayload

  datatype Resolution = Rejected(reason: Rejection) | Apply(counterId: int, pulses: int)

  /** The controller id `handle_pulse_message` looks up: the topic's third part, else the
      payload's `controller_id` (default `'unknown'`); `None` when the payload
      has no `.get`. */
  function ControllerKey(topic: string, data: Json.Value): (key: Option<Json.Value>)
    ensures var parts := Split(topic, '/');
      && (|parts| >= 3 ==> key == Some(Json.Str(parts[2])))
      && (|parts| < 3 && data.Object? && "controller_id" in data.fields ==> key == Some(data.fields["controller_id"]))
      && (|parts| < 3 && data.Object? && "controller_id" !in data.fields ==> key == Some(Json.Str("unknown")))
      && (|parts| < 3 && !data.Object? ==> key.None?)
  {
    var parts := Split(topic, '/');
    if |parts| >= 3 then Some(Json.Str(parts[2]))
    else if data.Object? then Some(Json.Get(data.fields, "controller_id", Json.Str("unknown")))
    else None
  }

  /** The number of `range(pulse_count)` iterations, `pulse_count` defaulting
      to 1 (a boolean counts as 0 or 1, as in Python); `None` when the payload
      has no `.get` or `range` raises. */
  function PulseCount(data: Json.Value): (n: Option<int>)
    ensures data.Object? && "pulse_count" !in data.fields ==> n == Some(1)
    ensures data.Object? && "pulse_count" in data.fields && data.fields["pulse_count"].Int? ==>
              n == Some(data.fields["pulse_count"].i)
    ensures n.Some? ==> data.Object?
  {
    if !data.Object? then None
    else match Json.Get(data.fields, "pulse_count", Json.Int(1))
      case Int(n) => Some(n)
      case Bool(b) => Some(if b then 1 else 0)
      case _ => None
  }

  /** `handle_pulse_message` up to its loop: the counter and the number of
      pulses a message asks for, or why it is dropped. */
  function Resolve(mapping: map<string, int>, topic: string, payload: Payload): (r: Resolution)
    ensures r.Apply? ==> r.counterId != 0 && r.counterId in mapping.Values
    ensures r.Apply? ==> payload.Decoded? && ControllerKey(topic, payload.data).Some?
    ensures r.Apply? ==> var key := ControllerKey(topic, payload.data).value;
              key.Str? && key.s in mapping && mapping[key.s] == r.counterId
    ensures r.Apply? ==> PulseCount(payload.data) == Some(r.pulses)
  {
    match payload
    case Undecodable => Rejected(MalformedMessage)
    case Decoded(data) =>
      match ControllerKey(topic, data)
      case None => Rejected(BadPayload)
      case Some(key) =>
        if !Json.Hashable(key) then Rejected(BadPayload)
        else if !key.Str? || key.s !in mapping || mapping[key.s] == 0 then Rejected(UnknownController)
        else match PulseCount(data)
          case None => Rejected(BadPayload)
          case Some(n) => Apply(mapping[key.s], n)
  }

  /** On a pulse topic the controller is the topic's id: a controller that
      the mapping lacks, or maps to 0, is rejected, whatever the payload
      says; a known one gets its counter and the payload's pulse count. */
  lemma ResolveOnPulseTopic(mapping: map<string, int>, topic: string, data: Json.Value)
    requires PulseTopicPrefix <= topic
    ensures var controller := Split(topic[|PulseTopicPrefix|..], '/')[0];
      var r := Resolve(mapping, topic, Decoded(data));
      && (controller !in mapping || mapping[controller] == 0 ==> r == Rejected(UnknownController))
      && (controller in mapping && mapping[controller] != 0 ==>
            r == match PulseCount(data)
                 case None => Rejected(BadPayload)
                 case Some(n) => Apply(mapping[controller], n))
  {
    PulseTopicParts(topic);
  }

  /** A message from a known controller with no `pulse_count` asks for one
      pulse. */
  lemma DefaultIsOnePulse(mapping: map<string, int>, controller: string, fields: map<string, Json.Value>)
    requires '/' !in controller && controller in mapping && mapping[controller] != 0
    requires "pulse_count" !in fields
    ensures Resolve(mapping, PulseTopicPrefix + controller, Decoded(Json.Object(fields)))
            == Apply(mapping[controller], 1)
  {
    PulseTopicController(controller);
  }

  /** Number of `add_water_pulse` calls for a resolution: `range(n)` is empty
      for `n <= 0`. */
  function Calls(r: Resolution): nat {
    if r.Apply? && r.pulses > 0 then r.pulses else 0
  }

  // ---------------------------------------------------------------------
  // The client

  /** What `on_message` did with a message. */
  datatype Handling =
    | PulsesHandled(attempted: nat, applied: nat)
    | StatusLogged
    | NotHandled

  class Client {
    var controllerMapping: map<string, int>
    const store: Database.CounterStore

    /** The mapping `initialize_counters` builds: each controller goes to the
        counter of its water circuit, looked up by name. */
    ghost predicate MapsToCounter(controller: string, name: string)
      reads this, store
    {
      && controller in controllerMapping
      && Database.FindByName(store.counters, name).Some?
      && store.counters[Database.FindByName(store.counters, name).value].id == controllerMapping[controller]
    }

    /** `MQTTClient()`: the built-in mapping, then `initialize_counters`. */
    constructor (store: Database.CounterStore, now: int)
      requires store.Valid()
      modifies store
      ensures this.store == store && store.Valid()
      ensures old(store.Consistent()) ==> store.Consistent()
      ensures store.log == old(store.log)
      ensures store.counters == Initialized(old(store.counters), old(store.nextCounterId), now)
      ensures store.nextCounterId == old(store.nextCounterId) + |store.counters| - |old(store.counters)|
      ensures store.nextLogId == old(store.nextLogId)
      ensures controllerMapping.Keys == {ColdController, HotController}
      ensures MapsToCounter(ColdController, ColdWaterName) && MapsToCounter(HotController, HotWaterName)
    {
      this.store := store;
      controllerMapping := map[ColdController := 1, HotController := 2];
      new;
      InitializeCounters(now);
    }

    /** `initialize_counters`: make sure both counters exist and point the
        two controllers at them. */
    method InitializeCounters(now: int)
      requires store.Valid()
      modifies this, store
      ensures store.Valid()
      ensures old(store.Consistent()) ==> store.Consistent()
      ensures store.log == old(store.log)
      ensures store.counters == Initialized(old(store.counters), old(store.nextCounterId), now)
      ensures store.nextCounterId == old(store.nextCounterId) + |store.counters| - |old(store.counters)|
      ensures store.nextLogId == old(store.nextLogId)
      ensures controllerMapping.Keys == {ColdController, HotController}
      ensures forall c :: c in controllerMapping ==> controllerMapping[c] >= 1
      ensures MapsToCounter(ColdController, ColdWaterName) && MapsToCounter(HotController, HotWaterName)
    {
      var coldId, hotId := CreateBothCounters(now);
      assert ColdController != HotController by {
        assert ColdController[25] != HotController[25];
      }
      controllerMapping := map[ColdController := coldId, HotController := hotId];
    }

    /** The two `create_counter_if_not_exists` calls of
        `initialize_counters`, with the ids they return. */
    method CreateBothCounters(now: int) returns (coldId: int, hotId: int)
      requires store.Valid()
      modifies store
      ensures store.Valid()
      ensures old(store.Consistent()) ==> store.Consistent()
      ensures store.log == old(store.log)
      ensures store.counters == Initialized(old(store.counters), old(store.nextCounterId), now)
      ensures store.nextCounterId == old(store.nextCounterId) + |store.counters| - |old(store.counters)|
      ensures store.nextLogId == old(store.nextLogId)
      ensures coldId >= 1 && hotId >= 1
      ensures Database.FindByName(store.counters, ColdWaterName).Some?
      ensures store.counters[Database.FindByName(store.counters, ColdWaterName).value].id == coldId
      ensures Database.FindByName(store.counters, HotWaterName).Some?
      ensures store.counters[Database.FindByName(store.counters, HotWaterName).value].id == hotId
    {
      ghost var counters0, nextId0 := store.counters, store.nextCounterId;
      coldId := store.CreateCounterIfNotExists(ColdWaterName, now);
      ghost var afterCold, nextId1 := store.counters, store.nextCounterId;
      hotId := store.CreateCounterIfNotExists(HotWaterName, now);
      InitializedSteps(counters0, nextId0, afterCold, nextId1, store.counters, now);
      if Database.FindByName(afterCold, HotWaterName).None? {
        Database.FindByNameAppend(afterCold, NewCounter(hotId, HotWaterName, now), ColdWaterName);
      }
    }

    /** `on_message`: pulse topics go to the pulse handler, the status topic
        is only logged, every other topic is ignored. */
    method OnMessage(topic: string, payload: Payload, now: int) returns (h: Handling)
      requires store.Valid()
      modifies store
      ensures store.Valid()
      ensures old(store.Consistent()) ==> store.Consistent()
      ensures Classify(topic) == PulseRoute <==> h.PulsesHandled?
      ensures Classify(topic) == StatusRoute <==> h == StatusLogged
      ensures store.nextCounterId == old(store.nextCounterId)
      ensures !h.PulsesHandled? ==>
        store.counters == old(store.counters) && store.log == old(store.log) && store.nextLogId == old(store.nextLogId)
      ensures h.PulsesHandled? ==> store.nextLogId == old(store.nextLogId) + h.applied
      ensures h.PulsesHandled? ==>
        PulseEffect(old(store.counters), old(store.log), old(store.nextLogId),
                    store.counters, store.log, Resolve(controllerMapping, topic, payload),
                    now, h.attempted, h.applied)
    {
      match Classify(topic)
      case PulseRoute =>
        var attempted, applied := HandlePulseMessage(topic, payload, now);
        h := PulsesHandled(attempted, applied);
      case StatusRoute =>
        h := StatusLogged;
      case NoRoute =>
        h := NotHandled;
    }

    /** `handle_pulse_message`: resolve the message, then call the store's
        `add_water_pulse` once per requested pulse. */
    method HandlePulseMessage(topic: string, payload: Payload, now: int) returns (attempted: nat, applied: nat)
      requires store.Valid()
      modifies store
      ensures store.Valid()
      ensures old(store.Consistent()) ==> store.Consistent()
      ensures PulseEffect(old(store.counters), old(store.log), old(store.nextLogId),
                          store.counters, store.log, Resolve(controllerMapping, topic, payload),
                          now, attempted, applied)
      ensures store.nextCounterId == old(store.nextCounterId)
      ensures store.nextLogId == old(store.nextLogId) + applied
    {
      var res := Resolve(controllerMapping, topic, payload);
      if res.Rejected? {
        return 0, 0;
      }
      ghost var c0, log0, next0, nc0 := store.counters, store.log, store.nextLogId, store.nextCounterId;
      ghost var consistent := store.Consistent();
      attempted, applied := ApplyPulses(res.counterId, res.pulses, now);
      ghost var found := Database.IndexOf(c0, res.counterId);
      if consistent && found.Some? {
        Database.PulsesKeepValues(c0, nc0, log0, found.value, next0, now, applied);
      }
    }

    /** The loop of `handle_pulse_message`: `add_water_pulse` once for each
        of `range(n)`; a failed call does not stop the loop. */
    method ApplyPulses(counterId: int, n: int, now: int) returns (attempted: nat, applied: nat)
      requires store.Valid()
      modifies store
      ensures store.Valid()
      ensures attempted == if n > 0 then n else 0
      ensures Database.IndexOf(old(store.counters), counterId).None? ==>
        applied == 0 && store.counters == old(store.counters) && store.log == old(store.log)
      ensures Database.IndexOf(old(store.counters), counterId).Some? ==>
        && applied == attempted
        && store.counters == Database.Bumped(old(store.counters), Database.IndexOf(old(store.counters), counterId).value, applied, now)
        && store.log == old(store.log) + Database.PulseRows(old(store.nextLogId), counterId, now, applied)
      ensures store.nextCounterId == old(store.nextCounterId)
      ensures store.nextLogId == old(store.nextLogId) + applied
    {
      attempted, applied := 0, 0;
      ghost var c0, log0, next0, nc0 := store.counters, store.log, store.nextLogId, store.nextCounterId;
      var i := 0;
      while i < n
        invariant 0 <= i && (i <= n || i == 0)
        invariant attempted == i
        invariant Progress(c0, log0, next0, nc0, counterId, now, i, applied)
      {
        var ok := PulseOnce(c0, log0, next0, nc0, counterId, now, i, applied);
        if ok {
          applied := applied + 1;
        }
        attempted := attempted + 1;
        i := i + 1;
      }
    }

    /** The store after `i` of the loop's calls for counter `counterId`,
        starting from tables `c0`, `log0` and next keys `next0` (log) and
        `nextCounter0` (counters); `applied` of them succeeded. */
    ghost predicate Progress(c0: seq<Counter>, log0: seq<LogRow>, next0: int, nextCounter0: int, counterId: int, now: int,
                             i: nat, applied: nat)
      reads this, store
    {
      && store.Valid()
      && store.nextCounterId == nextCounter0
      && match Database.IndexOf(c0, counterId)
         case None =>
           applied == 0 && store.counters == c0 && store.log == log0 && store.nextLogId == next0
         case Some(k) =>
           && applied == i
           && store.counters == Database.Bumped(c0, k, i, now)
           && store.log == log0 + Database.PulseRows(next0, counterId, now, i)
           && store.nextLogId == next0 + i
    }

    /** One iteration of the loop: one `add_water_pulse` call. */
    method PulseOnce(ghost c0: seq<Counter>, ghost log0: seq<LogRow>, ghost next0: int, ghost nextCounter0: int,
                     counterId: int, now: int, ghost i: nat, ghost applied: nat) returns (ok: bool)
      requires Progress(c0, log0, next0, nextCounter0, counterId, now, i, applied)
      modifies store
      ensures ok <==> Database.IndexOf(c0, counterId).Some?
      ensures Progress(c0, log0, next0, nextCounter0, counterId, now, i + 1, if ok then applied + 1 else applied)
    {
      ghost var cb, lb := store.counters, store.log;
      ghost var found := Database.IndexOf(c0, counterId);
      if found.Some? {
        Database.IndexOfSameKeys(cb, c0, counterId);
      }
      var result := store.AddWaterPulse(counterId, now);
      ok := result.Success();
      if ok {
        PulseStep(c0, log0, next0, counterId, found.value, now, i, cb, lb);
      }
    }
  }

  /** The counters `initialize_counters` leaves: the old ones, then at most
      the two named counters that were missing. */
  function Initialized(counters: seq<Counter>, nextId: int, now: int): (r: seq<Counter>)
    ensures counters <= r
    ensures |r| == |counters| + (if Database.FindByName(counters, ColdWaterName).None? then 1 else 0)
                              + (if Database.FindByName(counters, HotWaterName).None? then 1 else 0)
    ensures forall i :: |counters| <= i < |r| ==>
              && (r[i].name == ColdWaterName || r[i].name == HotWaterName)
              && r[i].value == 0 && r[i].lastTime == Some(now)
    ensures Database.FindByName(counters, ColdWaterName).Some? && Database.FindByName(counters, HotWaterName).Some? ==>
              r == counters
    ensures Database.FindByName(r, ColdWaterName).Some? && Database.FindByName(r, HotWaterName).Some?
  {
    var afterCold := Database.WithNamed(counters, nextId, ColdWaterName, now);
    var hotId := nextId + |afterCold| - |counters|;
    // the cold counter, when it is new, never answers the hot lookup
    Database.FindByNameFirst(counters, HotWaterName);
    Database.FindByNameFirst(afterCold, HotWaterName);
    assert counters <= afterCold;
    if Database.FindByName(afterCold, HotWaterName).None? then
      Database.FindByNameAppend(afterCold, NewCounter(hotId, HotWaterName, now), ColdWaterName);
      Database.WithNamed(afterCold, hotId, HotWaterName, now)
    else
      Database.WithNamed(afterCold, hotId, HotWaterName, now)
  }

  /** The two creations, one after the other, give `Initialized`. */
  lemma InitializedSteps(counters0: seq<Counter>, nextId0: int, afterCold: seq<Counter>, nextId1: int,
                         counters: seq<Counter>, now: int)
    requires afterCold == Database.WithNamed(counters0, nextId0, ColdWaterName, now)
    requires nextId1 == nextId0 + |afterCold| - |counters0|
    requires counters == Database.WithNamed(afterCold, nextId1, HotWaterName, now)
    ensures counters == Initialized(counters0, nextId0, now)
  {
  }

  /** One more successful `add_water_pulse` extends a run of `i` pulses to a
      run of `i + 1`: the counter is still found at the same place, and the
      tables become those of `i + 1` pulses. */
  lemma PulseStep(c0: seq<Counter>, log0: seq<LogRow>, next0: int, id: int, k: nat, now: int, i: nat,
                  counters: seq<Counter>, log: seq<LogRow>)
    requires k < |c0|
    requires counters == Database.Bumped(c0, k, i, now)
    requires log == log0 + Database.PulseRows(next0, id, now, i)
    ensures Database.Bumped(counters, k, 1, now) == Database.Bumped(c0, k, i + 1, now)
    ensures log + [LogRow(next0 + i, id, Some(now))] == log0 + Database.PulseRows(next0, id, now, i + 1)
  {
    Database.BumpedStep(c0, k, i, now);
  }

  /** The effect of a pulse message on the tables: `attempted` calls of
      `add_water_pulse`; when the counter exists all of them succeed, adding
      one row each at time `now` and as many quanta to that counter; when it
      does not, none succeeds and nothing changes. */
  ghost predicate PulseEffect(counters0: seq<Counter>, log0: seq<LogRow>, nextLogId0: int,
                              counters: seq<Counter>, log: seq<LogRow>,
                              res: Resolution, now: int, attempted: nat, applied: nat)
  {
    && attempted == Calls(res)
    && (if res.Apply? && Database.IndexOf(counters0, res.counterId).Some? then
          && applied == attempted
          && counters == Database.Bumped(counters0, Database.IndexOf(counters0, res.counterId).value, applied, now)
          && log == log0 + Database.PulseRows(nextLogId0, res.counterId, now, applied)
        else
          && applied == 0
          && counters == counters0 && log == log0)
  }

  /** What a message of `n` pulses to an existing counter does to it: `n`
      more log rows and `n` more quanta for that counter, at time `now`, and
      nothing for any other counter. */
  lemma PulseEffectOnCounters(counters0: seq<Counter>, log0: seq<LogRow>, nextLogId0: int,
                              counters: seq<Counter>, log: seq<LogRow>,
                              res: Resolution, now: int, attempted: nat, applied: nat)
    requires PulseEffect(counters0, log0, nextLogId0, counters, log, res, now, attempted, applied)
    requires res.Apply? && Database.IndexOf(counters0, res.counterId).Some?
    ensures var k := Database.IndexOf(counters0, res.counterId).value;
      && applied == Calls(res)
      && |counters| == |counters0|
      && counters[k].value == counters0[k].value + applied
      && (applied > 0 ==> counters[k].lastTime == Some(now))
      && (forall i :: 0 <= i < |counters| && i != k ==> counters[i] == counters0[i])
      && |log| == |log0| + applied
      && log[..|log0|] == log0
      && (forall j :: |log0| <= j < |log| ==> log[j] == LogRow(nextLogId0 + (j - |log0|), res.counterId, Some(now)))
      && (forall x :: Database.OwnedCount(log, x) ==
            Database.OwnedCount(log0, x) + if x == res.counterId then applied else 0)
  {
    Database.PulseRowsAppended(log0, nextLogId0, res.counterId, now, applied);
    forall x
      ensures Database.OwnedCount(log, x) == Database.OwnedCount(log0, x) + if x == res.counterId then applied else 0
    {
      Database.OwnedAfterPulses(log0, nextLogId0, res.counterId, now, applied, x);
    }
  }
}

/** The meter controller's firmware: an interrupt counts debounced pulses in
    32-bit unsigned counters, the main loop drains them into pulse messages,
    and commands from the server can zero them. */
module WaterMeter {
  import Json
  import opened Models

  /** `unsigned long` on the controller is 32 bits wide. */
  const Modulus: int := 0x1_0000_0000
  type U32 = x: int | 0 <= x < 0x1_0000_0000

  const DebounceDelay: U32 := 50
  const LitersPerPulse: real := 10.0

  const ControllerId: string := "water_meter_controller_001"
  const MeterName: string := "Холодная вода"
  const PulseTopicPrefix: string := "water_meter/pulse/"
  const StatusTopic: string := "water_meter/status"

  /** Unsigned arithmetic: the result modulo 2^32. */
  function Wrap(x: int): (r: U32)
    ensures 0 <= x < Modulus ==> r == x
  {
    x % Modulus
  }

  /** `now - last` on unsigned longs: the time since `last`, also when the
      millisecond clock has wrapped round in between. */
  function ElapsedSince(now: U32, last: U32): (d: U32)
    ensures last <= now ==> d == now - last
    ensures now < last ==> d == now - last + Modulus
  {
    Wrap(now - last)
  }

  /** Going `ElapsedSince(now, last)` forward from `last` on the wrapping
      clock lands on `now`. */
  lemma ElapsedRoundTrip(now: U32, last: U32)
    ensures Wrap(last + ElapsedSince(now, last)) == now
  {
    if now < last {
      assert last + ElapsedSince(now, last) == now + Modulus;
    }
  }

  /** The debounce rule of `handleWaterPulse`. */
  predicate Accepts(now: U32, last: U32) {
    ElapsedSince(now, last) > DebounceDelay
  }

  /** Right after the clock wraps, a pulse is judged by the real time since
      the last one, not rejected because `now` is numerically smaller. */
  lemma DebounceAcrossWrap(now: U32, last: U32)
    requires now < last
    ensures Accepts(now, last) <==> Modulus - last + now > DebounceDelay
  {
  }

  /** The topic of pulse messages: the prefix and the controller's id. */
  function PulseTopic(): (t: string)
    ensures PulseTopicPrefix <= t && t[|PulseTopicPrefix|..] == ControllerId
  {
    PulseTopicPrefix + ControllerId
  }

  /** The document `sendPulseMessage` publishes. */
  function PulsePayload(pulseCount: U32, millis: U32): (v: Json.Value)
    ensures v.Object? && v.fields.Keys == {"controller_id", "meter_name", "pulse_count", "liters", "timestamp"}
    ensures v.fields["controller_id"] == Json.Str(ControllerId)
    ensures v.fields["meter_name"] == Json.Str(MeterName)
    ensures v.fields["pulse_count"] == Json.Int(pulseCount)
    ensures v.fields["timestamp"] == Json.Int(millis)
  {
    Json.Object(map[
      "controller_id" := Json.Str(ControllerId),
      "meter_name" := Json.Str(MeterName),
      "pulse_count" := Json.Int(pulseCount),
      "liters" := Json.Real(pulseCount as real * LitersPerPulse),
      "timestamp" := Json.Int(millis)])
  }

  /** A published MQTT message. */
  datatype Message = Message(topic: string, payload: Json.Value)

  /** What a status message reports about the counters. */
  datatype StatusReport = StatusReport(controllerId: string, totalPulses: U32)

  /** A command message: not valid JSON, or a document whose `command` is a
      string. */
  datatype CommandPayload = Unparsable | Parsed(command: string)

  class Meter {
    var pulseCount: U32
    var totalPulses: U32
    var lastPulseTime: U32
    var pulseTriggered: bool

    /** Pulses accepted and not yet sent, and pulses accepted since start or
        the last reset, without the 32-bit wrap. */
    ghost var pending: nat
    ghost var accepted: nat

    /** The counters are the true counts modulo 2^32, and no more pulses
        wait to be sent than were accepted. */
    ghost predicate Valid()
      reads this
    {
      && pulseCount == pending % Modulus
      && totalPulses == accepted % Modulus
      && pending <= accepted
    }

    /** The state after boot: all counters zero. */
    constructor ()
      ensures Valid()
      ensures pulseCount == 0 && totalPulses == 0 && lastPulseTime == 0 && !pulseTriggered
      ensures pending == 0 && accepted == 0
    {
      pulseCount, totalPulses, lastPulseTime, pulseTriggered := 0, 0, 0, false;
      pending, accepted := 0, 0;
    }

    /** `handleWaterPulse`: a falling edge at time `now` counts once more
        than 50 ms have elapsed since the last counted one. */
    method HandleWaterPulse(now: U32)
      requires Valid()
      modifies this
      ensures Valid()
      ensures Accepts(now, old(lastPulseTime)) ==>
        && pulseCount == Wrap(old(pulseCount) + 1)
        && totalPulses == Wrap(old(totalPulses) + 1)
        && lastPulseTime == now && pulseTriggered
        && pending == old(pending) + 1 && accepted == old(accepted) + 1
      ensures !Accepts(now, old(lastPulseTime)) ==> unchanged(this)
    {
      if ElapsedSince(now, lastPulseTime) > DebounceDelay {
        WrapStep(pending);
        WrapStep(accepted);
        pulseCount := Wrap(pulseCount + 1);
        totalPulses := Wrap(totalPulses + 1);
        lastPulseTime := now;
        pulseTriggered := true;
        pending, accepted := pending + 1, accepted + 1;
      }
    }

    /** `sendPulseMessage`: with pulses waiting, hand their message to the
        broker and clear the count, whether or not publishing succeeds; the
        total is kept. */
    method SendPulseMessage(millis: U32) returns (msg: Option<Message>)
      requires Valid()
      modifies this
      ensures Valid()
      ensures old(pulseCount) == 0 ==> msg == None && unchanged(this)
      ensures old(pulseCount) != 0 ==>
        && msg == Some(Message(PulseTopic(), PulsePayload(old(pulseCount), millis)))
        && pulseCount == 0 && pending == 0
        && totalPulses == old(totalPulses) && accepted == old(accepted)
        && lastPulseTime == old(lastPulseTime) && pulseTriggered == old(pulseTriggered)
    {
      if pulseCount == 0 {
        return None;
      }
      msg := Some(Message(PulseTopic(), PulsePayload(pulseCount, millis)));
      pulseCount := 0;
      pending := 0;
    }

    /** `mqttCallback`: `reset` zeroes both counters and reports the status,
        `status` only reports it, anything else (`test` included) does
        nothing. */
    method MqttCallback(payload: CommandPayload) returns (report: Option<StatusReport>)
      requires Valid()
      modifies this
      ensures Valid()
      ensures payload == Parsed("reset") ==>
        && pulseCount == 0 && totalPulses == 0 && pending == 0 && accepted == 0
        && lastPulseTime == old(lastPulseTime) && pulseTriggered == old(pulseTriggered)
        && report == Some(StatusReport(ControllerId, 0))
      ensures payload == Parsed("status") ==>
        unchanged(this) && report == Some(StatusReport(ControllerId, totalPulses))
      ensures payload != Parsed("reset") && payload != Parsed("status") ==>
        unchanged(this) && report == None
    {
      report := None;
      if payload.Parsed? {
        if payload.command == "reset" {
          totalPulses, pulseCount := 0, 0;
          pending, accepted := 0, 0;
          report := Some(StatusReport(ControllerId, totalPulses));
        } else if payload.command == "status" {
          report := Some(StatusReport(ControllerId, totalPulses));
        }
      }
    }

    /** One pass of `loop` after the connection check: when a pulse was
        counted and the broker is connected, send the waiting pulses and
        clear the flag; otherwise do nothing. */
    method Loop(connected: bool, millis: U32) returns (msg: Option<Message>)
      requires Valid()
      modifies this
      ensures Valid()
      ensures old(pulseTriggered) && connected ==>
        && msg == (if old(pulseCount) == 0 then None
                   else Some(Message(PulseTopic(), PulsePayload(old(pulseCount), millis))))
        && pulseCount == 0 && !pulseTriggered
        && pending == (if old(pulseCount) == 0 then old(pending) else 0)
        && totalPulses == old(totalPulses) && accepted == old(accepted)
        && lastPulseTime == old(lastPulseTime)
      ensures !(old(pulseTriggered) && connected) ==> msg == None && unchanged(this)
    {
      msg := None;
      if pulseTriggered && connected {
        msg := SendPulseMessage(millis);
        pulseTriggered := false;
      }
    }
  }

  /** Counting one more modulo 2^32 is wrapping one more on the true count. */
  lemma WrapStep(n: nat)
    ensures Wrap(n % Modulus + 1) == (n + 1) % Modulus
  {
  }

  /** As long as fewer than 2^32 pulses have been accepted since the last
      reset, no more pulses wait to be sent than have been counted in
      total. */
  lemma CountWithinTotal(m: Meter)
    requires m.Valid() && m.accepted < Modulus
    ensures m.pulseCount <= m.totalPulses
  {
  }
}

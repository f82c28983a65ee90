/** The two ends of the MQTT link together: what the meter controller
    publishes is what the server's client routes, resolves and counts. */
module Integration {
  import Json
  import opened Models
  import WaterMeter
  import MqttClient

  /** The controller's id contains no topic separator. */
  lemma ControllerIdHasNoSlash()
    ensures '/' !in WaterMeter.ControllerId
  {
    var id := WaterMeter.ControllerId;
    assert forall i :: 0 <= i < |id| ==> id[i] != '/';
  }

  /** Both ends agree on the topics, on the controller the meter names
      itself after, and on the name of its counter. */
  lemma SharedNames()
    ensures WaterMeter.PulseTopicPrefix == MqttClient.PulseTopicPrefix
    ensures WaterMeter.StatusTopic == MqttClient.StatusTopic
    ensures WaterMeter.ControllerId == MqttClient.ColdController
    ensures WaterMeter.MeterName == MqttClient.ColdWaterName
  {
  }

  /** The meter's pulse topic is routed to the pulse handler, and the
      controller the server reads off it is the meter's own id. */
  lemma PulseTopicReachesHandler()
    ensures MqttClient.Classify(WaterMeter.PulseTopic()) == MqttClient.PulseRoute
    ensures var parts := MqttClient.Split(WaterMeter.PulseTopic(), '/');
      |parts| == 3 && parts[2] == WaterMeter.ControllerId
  {
    ControllerIdHasNoSlash();
    MqttClient.PulseTopicController(WaterMeter.ControllerId);
  }

  /** A pulse message from the meter, received by a client whose mapping
      knows the meter, becomes exactly `pulseCount` pulses on the mapped
      counter. */
  lemma MeterMessageResolves(mapping: map<string, int>, pulseCount: WaterMeter.U32, millis: WaterMeter.U32)
    requires WaterMeter.ControllerId in mapping && mapping[WaterMeter.ControllerId] != 0
    ensures MqttClient.Resolve(mapping, WaterMeter.PulseTopic(), MqttClient.Decoded(WaterMeter.PulsePayload(pulseCount, millis)))
      == MqttClient.Apply(mapping[WaterMeter.ControllerId], pulseCount)
  {
    PulseTopicReachesHandler();
    var payload := WaterMeter.PulsePayload(pulseCount, millis);
    assert MqttClient.ControllerKey(WaterMeter.PulseTopic(), payload) == Some(Json.Str(WaterMeter.ControllerId));
    assert MqttClient.PulseCount(payload) == Some(pulseCount);
  }
}

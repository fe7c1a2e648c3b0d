/** The exporter's mutable state and the per-event update. The state is the
    temperature gauge vector (one value per label set) and the process-wide
    last-error variable that the update assigns. */
module Metrics {
  import opened Options
  import opened Knx
  import opened Config
  import opened Labels

  datatype State<V> = State(temperature: map<LabelSet, V>, lastError: Option<DecodeError>)

  /** The update run for a matched telegram. For a DPT 9.001 device it sets
      the device's series to what the decoder left in its receiver, whether
      or not the decoder reported an error, and records that error; every
      other series is kept. A DPT 1.001 device, or any other tag, changes
      nothing. */
  function UpdatePrometheus<A, V>(s: State<V>, msg: GroupEvent<A>, dev: DeviceConfig, unpack: Unpack<V>): (r: State<V>)
    ensures dev.typeTag == Dpt9001 ==>
      && r.temperature.Keys == s.temperature.Keys + {LabelsOf(dev)}
      && r.temperature[LabelsOf(dev)] == unpack(msg.data).value
      && (forall k :: k in s.temperature && k != LabelsOf(dev) ==> r.temperature[k] == s.temperature[k])
      && r.lastError == unpack(msg.data).error
    ensures dev.typeTag != Dpt9001 ==> r == s
  {
    if dev.typeTag == Dpt1001 then
      // the boolean status branch is empty
      s
    else if dev.typeTag == Dpt9001 then
      var temp := unpack(msg.data);
      State(s.temperature[LabelsOf(dev) := temp.value], temp.error)
    else
      s
  }

  /** A second update of the same device replaces the first value rather
      than adding a series: only the latest payload's value remains. */
  lemma UpdateReplaces<A, V>(s: State<V>, m1: GroupEvent<A>, m2: GroupEvent<A>, dev: DeviceConfig, unpack: Unpack<V>)
    ensures UpdatePrometheus(UpdatePrometheus(s, m1, dev, unpack), m2, dev, unpack)
         == UpdatePrometheus(s, m2, dev, unpack)
  {
  }

  /** Updates for devices with distinct series touch disjoint entries, so the
      gauge vector does not depend on the order in which they run. */
  lemma UpdatesCommute<A, V>(s: State<V>, m1: GroupEvent<A>, d1: DeviceConfig, m2: GroupEvent<A>, d2: DeviceConfig, unpack: Unpack<V>)
    requires LabelsOf(d1) != LabelsOf(d2)
    ensures UpdatePrometheus(UpdatePrometheus(s, m1, d1, unpack), m2, d2, unpack).temperature
         == UpdatePrometheus(UpdatePrometheus(s, m2, d2, unpack), m1, d1, unpack).temperature
  {
  }
}

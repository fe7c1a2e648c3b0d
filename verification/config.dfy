/** One configured device, as loaded from the devices file: a display name,
    the three group-address components and a datapoint-type tag. */
module Config {
  import opened Knx

  datatype DeviceConfig = DeviceConfig(
    name: string,
    mainGroup: uint8,
    middleGroup: uint8,
    subGroup: uint8,
    typeTag: string)

  /** Type tag of a boolean status datapoint. */
  const Dpt1001: string := "DPT_1001"

  /** Type tag of a temperature (two-octet float) datapoint. */
  const Dpt9001: string := "DPT_9001"

  /** The device's group address, built by the library constructor. */
  function GroupAddrOf<A>(dev: DeviceConfig, pack: Pack<A>): A {
    pack(dev.mainGroup, dev.middleGroup, dev.subGroup)
  }
}

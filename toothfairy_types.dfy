/** The device record of the ToothFairy extension (extensions/toothfairy/src/types.ts). */
module ToothFairyTypes {
  import opened Wrappers

  /** A paired device as the ToothFairy application reports it over the
      scripting bridge. `iconData` and `batteryLevel` may be missing. */
  datatype BridgeDevice = BridgeDevice(
    id: int,
    name: string,
    address: string,
    connected: bool,
    iconData: Option<string>,
    batteryLevelString: string,
    batteryLevel: Option<int>,
    status: string)

  /** A device as the panel holds it: the bridge's fields plus the transient
      `connecting` hint set while a request is pending. */
  datatype Device = Device(
    id: int,
    name: string,
    address: string,
    connected: bool,
    iconData: Option<string>,
    batteryLevelString: string,
    batteryLevel: Option<int>,
    status: string,
    connecting: bool)

  /** The part of a device the bridge reports; everything but `connecting`. */
  function Observed(d: Device): BridgeDevice
  {
    BridgeDevice(d.id, d.name, d.address, d.connected, d.iconData,
                 d.batteryLevelString, d.batteryLevel, d.status)
  }
}

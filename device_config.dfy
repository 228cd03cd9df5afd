/**
 * The device settings of a configuration and their after-validator
 * (src/utils/config.py: DeviceModel._setup): an ADB host and an ADB serial
 * must be given together or not at all.
 */
module DeviceConfig {
  import opened Wrappers

  /** `DeviceModel`: the target application and the ADB address; "" is an absent value. */
  datatype DeviceModel = DeviceModel(target: string, host: string, serial: string)

  /** The `ValueError` the validator raises, with its message. */
  datatype ValueError = ValueError(msg: string)

  const SerialRequired: string := "Serial number is required when host is provided."
  const HostRequired: string := "Host is required when serial number is provided."

  /**
   * `_setup`: a host without a serial is refused first, then a serial
   * without a host; anything else is the model itself. A Python string is
   * false exactly when it is empty.
   */
  function Setup(m: DeviceModel): (r: Result<DeviceModel, ValueError>)
    ensures r.Ok? <==> (m.host == "" <==> m.serial == "")
    ensures r.Ok? ==> r.value == m
    ensures m.host != "" && m.serial == "" ==> r == Err(ValueError(SerialRequired))
    ensures m.host == "" && m.serial != "" ==> r == Err(ValueError(HostRequired))
  {
    if m.host != "" && m.serial == "" then Err(ValueError(SerialRequired))
    else if m.host == "" && m.serial != "" then Err(ValueError(HostRequired))
    else Ok(m)
  }
}

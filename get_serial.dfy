/**
 * The serial lookup of src/utils/get_serial.py (`ADBDeviceManager`): the
 * MuMu player ports it connects to, the non-emulator serials of the device
 * list, the app running on each, and the choice of the one device that runs
 * the target game. The ADB calls are parameters: the device list as a
 * sequence of serials, `app_current()` as a function of the serial.
 */
module GetSerial {
  import opened Wrappers
  import opened Devices

  /** `avaliable_devices`: the two MuMu player ports. */
  const AvailableDevices: seq<int> := [16384, 16416]

  /** The message of the exception `get_correct_serial` raises. */
  const NotExactlyOne: string := "Multiple or no devices found"

  /** `serials`: walks the device list, skipping emulators and appending the rest. */
  method Serials(deviceList: seq<string>) returns (serials: seq<string>)
    ensures serials == NonEmulator(deviceList)
  {
    serials := [];
    var i := 0;
    while i < |deviceList|
      invariant 0 <= i <= |deviceList|
      invariant serials == NonEmulator(deviceList[..i])
    {
      var serial := deviceList[i];
      assert deviceList[..i + 1][..i] == deviceList[..i];
      if !IsEmulator(serial) {
        serials := serials + [serial];
      }
      i := i + 1;
    }
    assert deviceList[..i] == deviceList;
  }

  /** `running_apps`: one AppInfo per serial, with the package in the foreground there. */
  method RunningApps(serials: seq<string>, appCurrent: string -> string) returns (apps: seq<AppInfo>)
    ensures apps == AppsOf(serials, appCurrent)
  {
    apps := [];
    var i := 0;
    while i < |serials|
      invariant 0 <= i <= |serials|
      invariant apps == AppsOf(serials[..i], appCurrent)
    {
      apps := apps + [AppInfo(serials[i], appCurrent(serials[i]))];
      i := i + 1;
    }
    assert serials[..i] == serials;
  }

  /**
   * `get_correct_serial`: the one app whose package is the target; no
   * match and several matches raise the same exception.
   */
  function GetCorrectSerial(apps: seq<AppInfo>, target: string): (r: Result<AppInfo, string>)
    ensures r.Ok? <==> |Matches(apps, target)| == 1
    ensures r.Ok? ==> r.value in apps && r.value.package == target
    ensures r.Ok? ==> forall i :: 0 <= i < |apps| && apps[i].package == target ==> apps[i] == r.value
    ensures r.Err? ==> r.error == NotExactlyOne
  {
    var found := Matches(apps, target);
    SingleMatch(apps, target);
    if |found| > 1 || |found| == 0 then Err(NotExactlyOne) else Ok(found[0])
  }

  /** The whole lookup on an ADB state: the answer depends only on the non-emulator devices. */
  lemma {:induction false} EmulatorsIgnored(deviceList: seq<string>, emulators: seq<string>, appCurrent: string -> string, target: string)
    requires forall i :: 0 <= i < |emulators| ==> IsEmulator(emulators[i])
    ensures GetCorrectSerial(AppsOf(NonEmulator(emulators + deviceList), appCurrent), target)
         == GetCorrectSerial(AppsOf(NonEmulator(deviceList), appCurrent), target)
  {
    NonEmulatorConcat(emulators, deviceList);
    NoneKept(emulators);
    assert [] + NonEmulator(deviceList) == NonEmulator(deviceList);
  }

  lemma {:induction false} NoneKept(emulators: seq<string>)
    requires forall i :: 0 <= i < |emulators| ==> IsEmulator(emulators[i])
    ensures NonEmulator(emulators) == []
    decreases |emulators|
  {
    if emulators != [] {
      NoneKept(emulators[..|emulators| - 1]);
    }
  }
}

/**
 * The device manager of src/auto_click/cores/manager.py: after validation
 * it collects, per non-emulator device in the ADB device list, the app in
 * the foreground, appending to `running_apps`; `get_correct_serial` then
 * picks the one device running the target. The ADB device list and
 * `app_current()` are parameters.
 */
module Manager {
  import opened Wrappers
  import opened Devices

  /** The `AdbError` the manager raises, with its message. */
  datatype AdbError = AdbError(msg: string)

  const NoDevice: string := "No devices running the target app were found."
  const SeveralDevices: string := "Multiple devices running the target app were found."

  /** `ADBDeviceManager`: the validated device settings plus the list of running apps. */
  class AdbDeviceManager {
    const target: string
    const host: string
    const serial: string
    var runningApps: seq<AppInfo>

    constructor(target: string, host: string, serial: string, runningApps: seq<AppInfo>)
      ensures this.target == target && this.host == host && this.serial == serial
      ensures this.runningApps == runningApps
    {
      this.target := target;
      this.host := host;
      this.serial := serial;
      this.runningApps := runningApps;
    }

    /**
     * `_setup_device`: collects the non-emulator serials of the device list,
     * then appends one AppInfo per serial, in order, to `running_apps`.
     */
    method SetupDevice(deviceList: seq<string>, appCurrent: string -> string)
      modifies this
      ensures runningApps == old(runningApps) + AppsOf(NonEmulator(deviceList), appCurrent)
    {
      var serialList: seq<string> := [];
      var i := 0;
      while i < |deviceList|
        invariant 0 <= i <= |deviceList|
        invariant serialList == NonEmulator(deviceList[..i])
      {
        assert deviceList[..i + 1][..i] == deviceList[..i];
        if !IsEmulator(deviceList[i]) {
          serialList := serialList + [deviceList[i]];
        }
        i := i + 1;
      }
      assert deviceList[..i] == deviceList;
      var j := 0;
      while j < |serialList|
        invariant 0 <= j <= |serialList|
        invariant runningApps == old(runningApps) + AppsOf(serialList[..j], appCurrent)
      {
        runningApps := runningApps + [AppInfo(serialList[j], appCurrent(serialList[j]))];
        j := j + 1;
      }
      assert serialList[..j] == serialList;
    }

    /** `get_correct_serial`: the single match, or the error naming none or several. */
    function GetCorrectSerial(): (r: Result<AppInfo, AdbError>)
      reads this
      ensures r.Ok? <==> |Matches(runningApps, target)| == 1
      ensures r.Ok? ==> r.value in runningApps && r.value.package == target
      ensures r.Ok? ==> forall i :: 0 <= i < |runningApps| && runningApps[i].package == target ==> runningApps[i] == r.value
      ensures r == Err(AdbError(NoDevice)) <==> forall i :: 0 <= i < |runningApps| ==> runningApps[i].package != target
      ensures r == Err(AdbError(SeveralDevices)) <==> |Matches(runningApps, target)| > 1
    {
      Select(runningApps, target)
    }
  }

  /** The selection rule of `get_correct_serial` on a list of apps. */
  function Select(apps: seq<AppInfo>, target: string): (r: Result<AppInfo, AdbError>)
    ensures r.Ok? <==> |Matches(apps, target)| == 1
    ensures r.Ok? ==> r.value in apps && r.value.package == target
    ensures r.Ok? ==> forall i :: 0 <= i < |apps| && apps[i].package == target ==> apps[i] == r.value
    ensures r == Err(AdbError(NoDevice)) <==> forall i :: 0 <= i < |apps| ==> apps[i].package != target
    ensures r == Err(AdbError(SeveralDevices)) <==> |Matches(apps, target)| > 1
  {
    var found := Matches(apps, target);
    SingleMatch(apps, target);
    if |found| == 1 then Ok(found[0])
    else if |found| == 0 then Err(AdbError(NoDevice))
    else Err(AdbError(SeveralDevices))
  }

  /** Apps collected by a later setup never undo a match found earlier: appending apps of other packages keeps the answer. */
  lemma {:induction false} OtherPackagesKeepChoice(apps: seq<AppInfo>, more: seq<AppInfo>, target: string)
    requires forall i :: 0 <= i < |more| ==> more[i].package != target
    ensures Select(apps + more, target) == Select(apps, target)
    decreases |more|
  {
    if more != [] {
      var more' := more[..|more| - 1];
      assert (apps + more)[..|apps + more| - 1] == apps + more';
      OtherPackagesKeepChoice(apps, more', target);
      MatchesSkip(apps + more', more[|more| - 1], target);
      assert apps + more == apps + more' + [more[|more| - 1]];
    } else {
      assert apps + more == apps;
    }
  }

  lemma MatchesSkip(apps: seq<AppInfo>, a: AppInfo, target: string)
    requires a.package != target
    ensures Matches(apps + [a], target) == Matches(apps, target)
  {
    assert (apps + [a])[..|apps|] == apps;
  }
}

/**
 * What both ADB device managers share (src/utils/get_serial.py and
 * src/auto_click/cores/manager.py): the serials of the attached devices
 * with the emulator entries dropped, the app each of them runs, and the
 * apps whose package is the target.
 */
module Devices {

  /** `AppInfo`: a device serial and the package in the foreground on it. */
  datatype AppInfo = AppInfo(serial: string, package: string)

  /** Python's `str.startswith`. */
  predicate StartsWith(s: string, prefix: string) {
    |prefix| <= |s| && s[..|prefix|] == prefix
  }

  /** The device-list entries both managers skip. */
  predicate IsEmulator(serial: string) {
    StartsWith(serial, "emulator")
  }

  /** The serials of `devices` that are not emulators, in list order. */
  function NonEmulator(devices: seq<string>): (kept: seq<string>)
    ensures |kept| <= |devices|
    ensures forall s :: s in kept <==> s in devices && !IsEmulator(s)
  {
    if devices == [] then []
    else
      var init := NonEmulator(devices[..|devices| - 1]);
      var last := devices[|devices| - 1];
      assert devices == devices[..|devices| - 1] + [last];
      if IsEmulator(last) then init else init + [last]
  }

  /** The filter works entry by entry, so it keeps the relative order of the list. */
  lemma {:induction false} NonEmulatorConcat(a: seq<string>, b: seq<string>)
    ensures NonEmulator(a + b) == NonEmulator(a) + NonEmulator(b)
    decreases |b|
  {
    if b == [] {
      assert a + b == a;
    } else {
      var b' := b[..|b| - 1];
      assert (a + b)[..|a + b| - 1] == a + b';
      NonEmulatorConcat(a, b');
    }
  }

  /** An emulator-free list passes unchanged. */
  lemma {:induction false} NonEmulatorKeepsAll(devices: seq<string>)
    requires forall i :: 0 <= i < |devices| ==> !IsEmulator(devices[i])
    ensures NonEmulator(devices) == devices
    decreases |devices|
  {
    if devices != [] {
      var init := devices[..|devices| - 1];
      assert forall i :: 0 <= i < |init| ==> init[i] == devices[i];
      NonEmulatorKeepsAll(init);
      assert !IsEmulator(devices[|devices| - 1]);
      assert devices == init + [devices[|devices| - 1]];
    }
  }

  /** One AppInfo per serial, in order, with the package `appCurrent` reports for that serial. */
  function AppsOf(serials: seq<string>, appCurrent: string -> string): (apps: seq<AppInfo>)
    ensures |apps| == |serials|
    ensures forall i :: 0 <= i < |serials| ==> apps[i] == AppInfo(serials[i], appCurrent(serials[i]))
  {
    seq(|serials|, i requires 0 <= i < |serials| => AppInfo(serials[i], appCurrent(serials[i])))
  }

  /** The comprehension `[app for app in apps if app.package == target]`. */
  function Matches(apps: seq<AppInfo>, target: string): (found: seq<AppInfo>)
    ensures |found| <= |apps|
    ensures forall a :: a in found <==> a in apps && a.package == target
  {
    if apps == [] then []
    else
      var init := Matches(apps[..|apps| - 1], target);
      var last := apps[|apps| - 1];
      assert apps == apps[..|apps| - 1] + [last];
      if last.package == target then init + [last] else init
  }

  /** The selection works entry by entry: it keeps list order and every matching entry, repeats included. */
  lemma {:induction false} MatchesConcat(a: seq<AppInfo>, b: seq<AppInfo>, target: string)
    ensures Matches(a + b, target) == Matches(a, target) + Matches(b, target)
    decreases |b|
  {
    if b == [] {
      assert a + b == a;
    } else {
      var b' := b[..|b| - 1];
      assert (a + b)[..|a + b| - 1] == a + b';
      MatchesConcat(a, b', target);
    }
  }

  /** One app is selected exactly when its package is the target. */
  lemma MatchesOne(a: AppInfo, target: string)
    ensures Matches([a], target) == if a.package == target then [a] else []
  {
    assert [a][..0] == [];
  }

  /** Exactly one match means: some app runs the target, and every app that does is that one. */
  lemma {:induction false} SingleMatch(apps: seq<AppInfo>, target: string)
    ensures |Matches(apps, target)| == 1 ==>
      forall i :: 0 <= i < |apps| && apps[i].package == target ==> apps[i] == Matches(apps, target)[0]
    ensures |Matches(apps, target)| == 0 <==> forall i :: 0 <= i < |apps| ==> apps[i].package != target
  {
    var found := Matches(apps, target);
    if |found| == 1 {
      forall i | 0 <= i < |apps| && apps[i].package == target ensures apps[i] == found[0] {
        assert apps[i] in found;
      }
    }
    if |found| != 0 {
      assert found[0] in apps;
    }
  }
}

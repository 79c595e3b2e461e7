/** What AppleALC/kern_alc.cpp records of the devices that it finds, field by field: controllers in
    updateProperties and grabControllers, their table entries, and the codec below a controller. */
module AlcDevices {
  import opened AlcState
  import opened AlcRuns
  import opened Values

  ghost predicate Increasing(at: seq<nat>) {
    forall i, j :: 0 <= i < j < |at| ==> at[i] < at[j]
  }

  // ---------------------------------------------------------------- controllers of an update

  /** A controller of digital audio for device x: nothing to scan below it, and no layout. */
  predicate IsDigital(c: ControllerInfo, vendor: u32, x: Device, platform: u32) {
    && c.vendor == vendor && x.deviceId == Some(c.device) && x.revisionId == Some(c.revision)
    && c.nopatch == x.noControllerPatch && c.platform == platform
    && c.layout == 0 && !c.detect && c.info == None
  }

  /** A graphics card whose audio device may be injected, and has both ids. */
  predicate IsInjected(gpus: seq<Gpu>, i: nat) {
    && i < |gpus| && gpus[i].audio.Some?
    && var x := gpus[i].audio.value; !x.noControllerInject && x.deviceId.Some? && x.revisionId.Some?
  }

  /** The controllers from place `from` on are those of the graphics cards at the places `at`, in order. */
  ghost predicate AreInjected(cs: seq<ControllerInfo>, from: nat, gpus: seq<Gpu>, at: seq<nat>) {
    && |cs| == from + |at| && Increasing(at)
    && (forall i: nat :: i in at <==> IsInjected(gpus, i))
    && forall k :: 0 <= k < |at| ==>
         IsInjected(gpus, at[k]) && IsDigital(cs[from + k], gpus[at[k]].vendor, gpus[at[k]].audio.value, 0)
  }

  lemma InjectedSnoc(cs: seq<ControllerInfo>, c: ControllerInfo, from: nat, gpus: seq<Gpu>, at: seq<nat>)
    requires gpus != [] && AreInjected(cs, from, gpus[..|gpus| - 1], at)
    ensures var last := |gpus| - 1;
            if !IsInjected(gpus, last) then AreInjected(cs, from, gpus, at)
            else IsDigital(c, gpus[last].vendor, gpus[last].audio.value, 0) ==>
                   AreInjected(cs + [c], from, gpus, at + [last])
  {
    hide IsDigital;
    var last := |gpus| - 1;
    assert forall i: nat :: IsInjected(gpus[..last], i) <==> i < last && IsInjected(gpus, i);
    forall k | 0 <= k < |at|
      ensures IsInjected(gpus, at[k]) && IsDigital(cs[from + k], gpus[at[k]].vendor, gpus[at[k]].audio.value, 0)
    {
      assert at[k] in at && gpus[..last][at[k]] == gpus[at[k]];
    }
  }

  lemma {:induction false} GpusAreRecorded(s: State, gpus: seq<Gpu>) returns (at: seq<nat>)
    requires |s.used| == MAX_IDS
    ensures s.controllers <= AddGpus(s, gpus).controllers
    ensures AreInjected(AddGpus(s, gpus).controllers, |s.controllers|, gpus, at)
  {
    hide MarkUsed, DeviceId;
    at := [];
    if gpus != [] {
      var last := |gpus| - 1;
      at := GpusAreRecorded(s, gpus[..last]);
      var q, r := AddGpus(s, gpus[..last]), AddGpus(s, gpus);
      if IsInjected(gpus, last) {
        InjectedSnoc(q.controllers, r.controllers[|r.controllers| - 1], |s.controllers|, gpus, at);
        at := at + [last];
      } else {
        InjectedSnoc(q.controllers, NewController(0, 0, 0, false, 0, 0, false), |s.controllers|, gpus, at);
      }
    }
  }

  /** The device that stands for built-in digital audio: the HDAU if there is one, or else the graphics device. */
  function BuiltinSource(d: DeviceInfo): Option<Device> {
    if d.audioBuiltinDigital.Some? then d.audioBuiltinDigital else d.videoBuiltin
  }

  /** There are connectors and a graphics device, digital audio is not switched off, and the device that
      stands for it may be injected and has both ids. */
  predicate HasBuiltin(d: DeviceInfo) {
    && !d.framebufferIsConnectorLess && d.videoBuiltin.Some?
    && (d.audioBuiltinAnalog.Some? ==> !d.audioBuiltinAnalog.value.noHdaGfx)
    && var x := BuiltinSource(d).value; !x.noControllerInject && x.deviceId.Some? && x.revisionId.Some?
  }

  /** What an update adds to the controllers: at most one for built-in digital audio, with vendor 0x8086 and
      the platform of the framebuffer, and then one for each card that is injected, and no others. */
  lemma UpdateRecords(s: State, d: DeviceInfo) returns (at: seq<nat>)
    requires |s.used| == MAX_IDS
    ensures var r, n := AfterUpdate(s, Some(d)).controllers, |s.controllers|;
            && s.controllers <= r
            && AreInjected(r, if HasBuiltin(d) then n + 1 else n, d.videoExternal, at)
            && (HasBuiltin(d) ==> IsDigital(r[n], 0x8086, BuiltinSource(d).value, d.framebufferId))
  {
    hide AreInjected, AddGpus;
    at := GpusAreRecorded(AddBuiltin(s, d), d.videoExternal);
    assert forall i :: 0 <= i < |s.controllers| ==> AddBuiltin(s, d).controllers[i] == s.controllers[i];
  }

  // ---------------------------------------------------------------- the analog controller, and entries

  predicate HasAnalog(dev: Option<DeviceInfo>) {
    && dev.Some? && dev.value.audioBuiltinAnalog.Some?
    && var x := dev.value.audioBuiltinAnalog.value;
       x.vendorId.Some? && x.deviceId.Some? && x.revisionId.Some? && x.alcLayoutId.Some?
  }

  /** The controller of analog audio for device x: it can be scanned and has the layout id; patching is
      never switched off, the property that asks for it arrives as the platform. */
  predicate IsAnalog(c: ControllerInfo, x: Device) {
    && x.vendorId == Some(c.vendor) && x.deviceId == Some(c.device) && x.revisionId == Some(c.revision)
    && x.alcLayoutId == Some(c.layout) && c.detect
    && !c.nopatch && c.platform == (if x.noControllerPatch then 1 else 0)
  }

  /** The table entry is for this device and computer: platform 0 and no revisions stand for any. */
  ghost predicate Suits(m: ControllerMod, c: ControllerInfo, model: set<ComputerModel>) {
    && m.vendor == c.vendor && m.device == c.device
    && (m.platform == 0 || m.platform == c.platform)
    && (m.revisions == [] || exists i :: 0 <= i < |m.revisions| && m.revisions[i] == c.revision)
    && exists x :: x in model && x in m.computerModel
  }

  ghost predicate FirstSuiting(mods: seq<ControllerMod>, c: ControllerInfo, model: set<ComputerModel>, k: nat) {
    k < |mods| && Suits(mods[k], c, model) && forall i :: 0 <= i < k ==> !Suits(mods[i], c, model)
  }

  /** r is c, but points at the first entry that suits it, if there is one. */
  ghost predicate IsValidated(mods: seq<ControllerMod>, c: ControllerInfo, r: ControllerInfo,
                              model: set<ComputerModel>) {
    && r == c.(info := r.info)
    && (forall k: nat :: FirstSuiting(mods, c, model, k) ==> r.info == Some(k))
    && ((forall k :: 0 <= k < |mods| ==> !Suits(mods[k], c, model)) ==> r.info == c.info)
  }

  lemma FitsIfSuits(m: ControllerMod, c: ControllerInfo, model: set<ComputerModel>)
    ensures Fits(m, c, model) <==> Suits(m, c, model)
  {
    if x :| x in model && x in m.computerModel {
      assert x in model * m.computerModel;
    }
  }

  lemma ValidatedIs(mods: seq<ControllerMod>, c: ControllerInfo, model: set<ComputerModel>)
    ensures IsValidated(mods, c, Validated(mods, c, model), model)
  {
    hide Fits, Suits;
    forall k | 0 <= k < |mods| ensures Fits(mods[k], c, model) <==> Suits(mods[k], c, model) {
      FitsIfSuits(mods[k], c, model);
    }
    var m := FirstFit(mods, c, model, 0);
    assert m.Some? ==> Suits(mods[m.value], c, model);
    assert forall k: nat :: FirstSuiting(mods, c, model, k) ==> m == Some(k);
  }

  /** The controllers at the first kext event: the analog one is added if its properties are there, and
      then each one points at the first table entry that suits it. */
  lemma GrabRecords(s: State, model: set<ComputerModel>, dev: Option<DeviceInfo>)
    ensures var r, n := GrabControllers(s, model, dev).controllers, |s.controllers|;
            && |r| == (if HasAnalog(dev) then n + 1 else n)
            && (forall i :: 0 <= i < n ==> IsValidated(s.mods, s.controllers[i], r[i], model))
            && (HasAnalog(dev) ==> IsAnalog(r[n], dev.value.audioBuiltinAnalog.value)
                                   && IsValidated(s.mods, r[n].(info := None), r[n], model))
  {
    hide IsValidated;
    var a := AddAnalog(s.(model := model), dev);
    forall i | 0 <= i < |a.controllers|
      ensures IsValidated(s.mods, a.controllers[i], Validated(s.mods, a.controllers[i], model), model)
    {
      ValidatedIs(s.mods, a.controllers[i], model);
    }
    if HasAnalog(dev) {
      var r := Validated(s.mods, a.controllers[|s.controllers|], model);
      assert a.controllers[|s.controllers|] == r.(info := None);
    }
  }

  // ---------------------------------------------------------------- the codec below a controller

  /** A scan that ends the search: an entry that has both properties. */
  predicate IsDecisive(scan: Scan) {
    scan.Codec? && !scan.vendor.Missing? && !scan.revision.Missing?
  }

  /** The first decisive scan decides: a codec with the id and revision that it shows if both are numbers, or
      none at all; the id is taken apart into vendor and codec. */
  lemma {:induction false} FirstDecisiveScan(codecs: seq<CodecInfo>, controller: nat, scans: seq<Scan>, k: nat)
    requires k <= |scans| && forall i :: 0 <= i < k ==> !IsDecisive(scans[i])
    ensures k == |scans| ==> ScanController(codecs, controller, scans) == codecs
    ensures k < |scans| && IsDecisive(scans[k]) ==>
              if scans[k].vendor.Number? && scans[k].revision.Number?
              then ScanController(codecs, controller, scans) ==
                   codecs + [CodecInfo(info := None, controller := controller,
                                       vendor := scans[k].vendor.value / 0x10000,
                                       codec := scans[k].vendor.value % 0x10000,
                                       revision := scans[k].revision.value)]
              else ScanController(codecs, controller, scans) == codecs
  {
    if k > 0 {
      assert !IsDecisive(scans[0]);
      FirstDecisiveScan(codecs, controller, scans[1..], k - 1);
    }
  }
}

/** AlcEnabler of AppleALC/kern_alc.cpp with its fields updated in place. Every method is specified by
    the functions of AlcState, about which AlcRuns and AlcIds prove what holds over runs. */
module AlcEnabler {
  import opened AlcState
  import opened Values

  datatype Resource = Layout | Platform

  lemma SupportIsInRange(vs: seq<VendorMod>, c: CodecInfo)
    requires Support(vs, c).Some?
    ensures Support(vs, c).value.0 < |vs| && Support(vs, c).value.1 < |vs[Support(vs, c).value.0].codecs|
  {
  }

  /** One step of the filter at place i: keep the codec with its entry, or drop it. */
  lemma SupportedAt(vs: seq<VendorMod>, codecs: seq<CodecInfo>, i: nat)
    requires i < |codecs|
    ensures var found := codecs[i].(info := Support(vs, codecs[i]));
            var kept, dropped := codecs[i := found], codecs[..i] + codecs[i + 1..];
            if found.info.Some?
            then kept[..i + 1] + Supported(vs, kept[i + 1..]) == codecs[..i] + Supported(vs, codecs[i..])
            else dropped[..i] + Supported(vs, dropped[i..]) == codecs[..i] + Supported(vs, codecs[i..])
  {
    hide Support;
    var found := codecs[i].(info := Support(vs, codecs[i]));
    var kept, dropped := codecs[i := found], codecs[..i] + codecs[i + 1..];
    assert codecs[i..][0] == codecs[i] && codecs[i..][1..] == codecs[i + 1..];
    assert kept[..i + 1] == codecs[..i] + [found] && kept[i + 1..] == codecs[i + 1..];
    assert dropped[..i] == codecs[..i] && dropped[i..] == codecs[i + 1..];
  }

  lemma SupportedEnd(vs: seq<VendorMod>, codecs: seq<CodecInfo>)
    ensures codecs[..|codecs|] + Supported(vs, codecs[|codecs|..]) == codecs
  {
  }

  class AlcEnabler {
    const tables: Tables
    var progressState: set<Flag>
    var controllerMod: seq<ControllerMod>
    var controllers: seq<ControllerInfo>
    var currentController: nat
    var codecs: seq<CodecInfo>
    var computerModel: set<ComputerModel>
    const nvidiaDeviceIdUsage: array<bool>
    var currentFreeNvidiaDeviceId: nat
    /** What the patcher was asked for. */
    var log: seq<Action>

    ghost function View(): State
      reads this, nvidiaDeviceIdUsage
    {
      State(progressState, controllerMod, controllers, codecs, nvidiaDeviceIdUsage[..], currentFreeNvidiaDeviceId,
            computerModel, log)
    }

    ghost predicate Valid()
      reads this, nvidiaDeviceIdUsage
    {
      Shape(tables, View())
    }

    constructor (tables: Tables, mods: seq<ControllerMod>)
      ensures Valid() && fresh(nvidiaDeviceIdUsage) && this.tables == tables
      ensures View() == Start(mods)
    {
      this.tables := tables;
      progressState, controllerMod, controllers, codecs := {}, mods, [], [];
      currentController, currentFreeNvidiaDeviceId, computerModel, log := 0, 0, {}, [];
      nvidiaDeviceIdUsage := new bool[MAX_IDS](_ => false);
    }

    // -------------------------------------------------------------- updateProperties

    method InsertController(ven: u32, dev: u32, rev: u32, np: bool, p: u32, lid: u32, d: bool)
      requires Valid()
      modifies this`controllers
      ensures Valid() && View() == Insert(old(View()), NewController(ven, dev, rev, np, p, lid, d))
      ensures controllers == old(controllers) + [ControllerInfo(info := None, detect := d, vendor := ven, device := dev,
                                                                revision := rev, platform := p, layout := lid,
                                                                nopatch := np)]
    {
      controllers := controllers + [NewController(ven, dev, rev, np, p, lid, d)];
    }

    /** A device that is present keeps its id: it is not handed out. */
    method DisableId(device: u32)
      requires Valid()
      modifies nvidiaDeviceIdUsage
      ensures Valid() && View() == old(View()).(used := MarkUsed(old(View().used), device))
    {
      for i := 0 to MAX_IDS
        invariant Valid()
        invariant forall k :: 0 <= k < i ==>
                    nvidiaDeviceIdUsage[k] == (old(nvidiaDeviceIdUsage[k]) || ID_LIST[k] == device)
        invariant forall k :: i <= k < MAX_IDS ==> nvidiaDeviceIdUsage[k] == old(nvidiaDeviceIdUsage[k])
      {
        if ID_LIST[i] == device {
          nvidiaDeviceIdUsage[i] := true;
        }
      }
      assert nvidiaDeviceIdUsage[..] == MarkUsed(old(View().used), device);
    }

    method UpdateGpu(gpu: Gpu)
      requires Valid()
      modifies this`controllers, nvidiaDeviceIdUsage
      ensures Valid() && View() == AddGpu(old(View()), gpu)
    {
      if gpu.audio.None? || gpu.audio.value.noControllerInject {
        return;
      }
      var hda := gpu.audio.value;
      if hda.deviceId.Some? && hda.revisionId.Some? {
        InsertController(gpu.vendor, hda.deviceId.value, hda.revisionId.value, hda.noControllerPatch, PLATFORM_ANY,
                         0, false);
        if gpu.vendor == NVIDIA {
          DisableId(DeviceId(hda.deviceId.value));
        }
      }
    }

    method UpdateProperties(devInfo: Option<DeviceInfo>)
      requires Valid()
      modifies this`controllers, nvidiaDeviceIdUsage
      ensures Valid() && View() == AfterUpdate(old(View()), devInfo)
    {
      if devInfo.None? {
        return;
      }
      var d := devInfo.value;
      var hasBuiltinDigitalAudio := !d.framebufferIsConnectorLess && d.videoBuiltin.Some?;
      if hasBuiltinDigitalAudio && d.audioBuiltinAnalog.Some? && d.audioBuiltinAnalog.value.noHdaGfx {
        hasBuiltinDigitalAudio := false;
      }
      if d.audioBuiltinDigital.Some? && !d.audioBuiltinDigital.value.noControllerInject {
        if hasBuiltinDigitalAudio {
          var x := d.audioBuiltinDigital.value;
          if x.deviceId.Some? && x.revisionId.Some? {
            InsertController(INTEL, x.deviceId.value, x.revisionId.value, x.noControllerPatch, d.framebufferId,
                             0, false);
          }
        }
      }
      if hasBuiltinDigitalAudio && !d.videoBuiltin.value.noControllerInject {
        if d.audioBuiltinDigital.None? {
          var x := d.videoBuiltin.value;
          if x.deviceId.Some? && x.revisionId.Some? {
            InsertController(INTEL, x.deviceId.value, x.revisionId.value, x.noControllerPatch, d.framebufferId,
                             0, false);
          }
        }
      }
      ghost var before := View();
      for i := 0 to |d.videoExternal|
        invariant Valid() && View() == AddGpus(before, d.videoExternal[..i])
      {
        UpdateGpu(d.videoExternal[i]);
        assert d.videoExternal[..i + 1][..i] == d.videoExternal[..i];
      }
      assert d.videoExternal[..|d.videoExternal|] == d.videoExternal;
    }

    // -------------------------------------------------------------- controllers and codecs

    /** Points controller i at the first table entry that fits it, if any. */
    method ValidateController(i: nat)
      requires Valid() && i < |controllers|
      modifies this`controllers
      ensures Valid()
      ensures controllers == old(controllers[i := Validated(controllerMod, controllers[i], computerModel)])
    {
      var c := controllers[i];
      var mod := 0;
      while mod < |controllerMod|
        invariant mod <= |controllerMod|
        invariant controllers == old(controllers)
        invariant FirstFit(controllerMod, c, computerModel, 0) == FirstFit(controllerMod, c, computerModel, mod)
      {
        var m := controllerMod[mod];
        if m.vendor == c.vendor && m.device == c.device {
          var rev := 0;
          while rev < |m.revisions| && m.revisions[rev] != c.revision
            invariant rev <= |m.revisions| && forall k :: 0 <= k < rev ==> m.revisions[k] != c.revision
          {
            rev := rev + 1;
          }
          if (m.platform == PLATFORM_ANY || m.platform == c.platform) && computerModel * m.computerModel != {} {
            if rev != |m.revisions| || |m.revisions| == 0 {
              controllers := controllers[i := c.(info := Some(mod))];
              break;
            }
          }
        }
        mod := mod + 1;
      }
    }

    method ValidateControllers()
      requires Valid()
      modifies this`controllers
      ensures Valid() && View() == old(View()).(controllers := ValidatedAll(old(View())))
    {
      for i := 0 to |controllers|
        invariant Valid() && |controllers| == old(|controllers|)
        invariant forall k :: 0 <= k < i ==>
                    controllers[k] == Validated(controllerMod, old(controllers)[k], computerModel)
        invariant forall k :: i <= k < |controllers| ==> controllers[k] == old(controllers)[k]
      {
        ValidateController(i);
      }
      assert controllers == ValidatedAll(old(View()));
    }

    method GrabControllers(modelType: set<ComputerModel>, devInfo: Option<DeviceInfo>)
      requires Valid()
      modifies this`controllers, this`computerModel
      ensures Valid() && View() == AlcState.GrabControllers(old(View()), modelType, devInfo)
    {
      computerModel := modelType;
      if devInfo.Some? && devInfo.value.audioBuiltinAnalog.Some? {
        var sect := devInfo.value.audioBuiltinAnalog.value;
        if sect.vendorId.Some? && sect.deviceId.Some? && sect.revisionId.Some? && sect.alcLayoutId.Some? {
          InsertController(sect.vendorId.value, sect.deviceId.value, sect.revisionId.value, false,
                           if sect.noControllerPatch then 1 else 0, sect.alcLayoutId.value, true);
        }
      }
      if |controllers| > 0 {
        ValidateControllers();
      } else {
        assert controllers == ValidatedAll(View());
      }
    }

    method AppendCodec(e: Scan) returns (done: bool)
      requires Valid() && e.Codec?
      modifies this`codecs
      ensures Valid() && (codecs, done) == AlcState.AppendCodec(old(codecs), currentController, e)
    {
      if e.vendor.Missing? || e.revision.Missing? {
        return false;
      }
      if e.vendor.NotNumber? || e.revision.NotNumber? {
        return true;
      }
      codecs := codecs + [NewCodec(currentController, e.vendor.value, e.revision.value)];
      return true;
    }

    /** The table entry for codec i, if it is supported. */
    method FindSupport(i: nat) returns (support: Option<(nat, nat)>)
      requires i < |codecs|
      ensures support == Support(tables.vendorMod, codecs[i])
    {
      var vs, c := tables.vendorMod, codecs[i];
      support := None;
      var vIdx := 0;
      while vIdx < |vs| && vs[vIdx].vendor != c.vendor
        invariant vIdx <= |vs| && FirstVendor(vs, c.vendor, 0) == FirstVendor(vs, c.vendor, vIdx)
      {
        vIdx := vIdx + 1;
      }
      if vIdx != |vs| {
        var cs := vs[vIdx].codecs;
        var cIdx := 0;
        while cIdx < |cs| && cs[cIdx].codec != c.codec
          invariant cIdx <= |cs| && FirstCodec(cs, c.codec, 0) == FirstCodec(cs, c.codec, cIdx)
        {
          cIdx := cIdx + 1;
        }
        if cIdx != |cs| {
          var revisions := cs[cIdx].revisions;
          var rIdx := 0;
          while rIdx < |revisions| && revisions[rIdx] != c.revision
            invariant rIdx <= |revisions| && forall k :: 0 <= k < rIdx ==> revisions[k] != c.revision
          {
            rIdx := rIdx + 1;
          }
          if rIdx != |revisions| || |revisions| == 0 {
            support := Some((vIdx, cIdx));
          }
        }
      }
    }

    method ValidateCodecs() returns (any: bool)
      requires Valid()
      modifies this`codecs
      ensures Valid() && codecs == Supported(tables.vendorMod, old(codecs)) && any == (codecs != [])
    {
      hide Support, Supported;
      var i := 0;
      while i < |codecs|
        invariant i <= |codecs| && Valid()
        invariant codecs[..i] + Supported(tables.vendorMod, codecs[i..]) == Supported(tables.vendorMod, old(codecs))
        decreases |codecs| - i
      {
        var support := FindSupport(i);
        SupportedAt(tables.vendorMod, codecs, i);
        if support.Some? {
          SupportIsInRange(tables.vendorMod, codecs[i]);
          codecs := codecs[i := codecs[i].(info := support)];
          i := i + 1;
        } else {
          codecs := codecs[..i] + codecs[i + 1..];
        }
      }
      SupportedEnd(tables.vendorMod, codecs);
      any := |codecs| > 0;
    }

    method GrabCodecs(scans: map<nat, seq<Scan>>) returns (any: bool)
      requires Valid()
      modifies this`codecs, this`currentController
      ensures Valid() && any == (codecs != [])
      ensures codecs == Supported(tables.vendorMod, ScanAll(old(View()), scans, |controllers|))
    {
      currentController := 0;
      while currentController < |controllers|
        invariant currentController <= |controllers| && Valid()
        invariant codecs == ScanAll(old(View()), scans, currentController)
      {
        if controllers[currentController].detect {
          BruteCodec(ScansOf(scans, currentController));
        }
        currentController := currentController + 1;
      }
      any := ValidateCodecs();
    }

    /** Scans below one controller until a codec has been looked at or no attempts are left. */
    method BruteCodec(scans: seq<Scan>)
      requires Valid()
      modifies this`codecs
      ensures Valid() && codecs == ScanController(old(codecs), currentController, scans)
    {
      var found := false;
      var brute := 0;
      while !found && brute < |scans|
        invariant brute <= |scans| && Valid()
        invariant ScanController(old(codecs), currentController, scans) ==
                  if found then codecs else ScanController(codecs, currentController, scans[brute..])
      {
        assert scans[brute..][0] == scans[brute] && scans[brute..][1..] == scans[brute + 1..];
        if scans[brute].Codec? {
          found := AppendCodec(scans[brute]);
        }
        brute := brute + 1;
      }
    }

    // -------------------------------------------------------------- processKext

    /** Points patch j of entry m at the next free id if it asks for one. */
    method ChooseFreeId(m: nat, j: nat)
      requires Valid() && m < |controllerMod| && j < |controllerMod[m].patches|
      modifies this`controllerMod, this`currentFreeNvidiaDeviceId, nvidiaDeviceIdUsage
      ensures Valid() && View() == AllocPatch(old(View()), m, j)
    {
      var p := controllerMod[m].patches[j];
      if IsSpecial(p) {
        while currentFreeNvidiaDeviceId < MAX_IDS
          invariant currentFreeNvidiaDeviceId <= MAX_IDS
          invariant View() == old(View()).(cursor := currentFreeNvidiaDeviceId)
          invariant NextFree(old(View().used), old(View().cursor)) ==
                    NextFree(old(View().used), currentFreeNvidiaDeviceId)
          decreases MAX_IDS - currentFreeNvidiaDeviceId
        {
          var k := currentFreeNvidiaDeviceId;
          if !nvidiaDeviceIdUsage[k] {
            var patches := controllerMod[m].patches[j := p.(find := Bytes32(ID_LIST[k]))];
            controllerMod := controllerMod[m := controllerMod[m].(patches := patches)];
            nvidiaDeviceIdUsage[k] := true;
            currentFreeNvidiaDeviceId := k + 1;
            assert nvidiaDeviceIdUsage[..] == old(View().used)[k := true];
            break;
          }
          currentFreeNvidiaDeviceId := k + 1;
        }
      }
    }

    /** Appends the patches that apply to this kext and kernel. */
    method ApplyPatches(index: nat, patches: seq<KextPatch>)
      requires Valid()
      modifies this`log
      ensures Valid() && log == old(log) + Applied(tables, index, patches)
    {
      for p := 0 to |patches|
        invariant Valid() && log == old(log) + Applied(tables, index, patches[..p])
      {
        var patch := patches[p];
        if patch.kext < |tables.kextList| && tables.kextList[patch.kext].loadIndex == index {
          if tables.compatible(patch.minKernel, patch.maxKernel) {
            log := log + [Apply(patch)];
          }
        }
        assert patches[..p + 1][..p] == patches[..p];
      }
      assert patches[..|patches|] == patches;
    }

    method EraseRedundantLogs(kext: nat)
      requires Valid()
      modifies this`log
      ensures Valid() && log == old(log) + Blanked(tables, kext)
    {
      if kext == tables.appleHDAController || kext == tables.appleHDA {
        log := log + [EraseLogs(kext, if kext == tables.appleHDAController then 3 else 2)];
      }
    }

    method PatchController(index: nat, i: nat)
      requires Valid() && i < |controllers|
      modifies this`controllerMod, this`currentFreeNvidiaDeviceId, this`log, nvidiaDeviceIdUsage
      ensures Valid() && View() == HandleController(tables, old(View()), index, i)
    {
      hide AllocPatch;
      var info := controllers[i].info;
      if info.None? {
        return;
      }
      var m := info.value;
      if controllerMod[m].vendor == NVIDIA {
        for j := 0 to |controllerMod[m].patches|
          invariant Valid() && |controllerMod| == |old(View()).mods|
          invariant |controllerMod[m].patches| == |old(View()).mods[m].patches|
          invariant View() == AllocMod(old(View()), m, j)
        {
          ChooseFreeId(m, j);
        }
      }
      if !controllers[i].nopatch {
        ApplyPatches(index, controllerMod[m].patches);
      }
    }

    method PatchCodec(index: nat, i: nat)
      requires Valid() && i < |codecs|
      modifies this`progressState, this`log
      ensures Valid() && View() == HandleCodec(tables, old(View()), index, i)
    {
      var info := codecs[i].info;
      if info.None? {
        return;
      }
      var mod := tables.vendorMod[info.value.0].codecs[info.value.1];
      if |mod.platforms| > 0 || |mod.layouts| > 0 {
        progressState := progressState + {CallbacksWantRouting};
      }
      ApplyPatches(index, mod.patches);
    }

    method Route(hooks: seq<Hook>)
      requires Valid()
      modifies this`log
      ensures Valid() && log == old(log) + [Action.Route(hooks)]
    {
      log := log + [Action.Route(hooks)];
    }

    method ProcessKext(e: Event)
      requires Valid() && e.ProcessKext?
      modifies this, nvidiaDeviceIdUsage
      ensures Valid() && View() == AfterKext(tables, old(View()), e)
    {
      hide HandleController, HandleCodec, Supported, ScanAll, FirstFit;
      var index := e.index;
      var kextIndex := 0;
      while kextIndex < |tables.kextList|
        invariant kextIndex <= |tables.kextList| && Valid() && View() == old(View())
        invariant FindKext(tables.kextList, index, 0) == FindKext(tables.kextList, index, kextIndex)
      {
        if tables.kextList[kextIndex].loadIndex == index {
          break;
        }
        kextIndex := kextIndex + 1;
      }
      if kextIndex == |tables.kextList| {
        return;
      }
      if kextIndex == tables.appleGFXHDA {
        Route([GfxProbe]);
        return;
      }
      GrabDevices(kextIndex, e);
      PatchControllers(index, kextIndex);
      PatchCodecs(index);
      RouteHooks(kextIndex);
    }

    method GrabDevices(kextIndex: nat, e: Event)
      requires Valid() && e.ProcessKext? && kextIndex < |tables.kextList|
      modifies this`progressState, this`controllers, this`currentController, this`codecs, this`computerModel
      ensures Valid() && View() == Grab(tables, old(View()), kextIndex, e)
    {
      if ControllersLoaded !in progressState {
        GrabControllers(e.modelType, e.devices);
        progressState := progressState + {ControllersLoaded};
      } else if CodecsLoaded !in progressState && tables.kextList[kextIndex].detect {
        var any := GrabCodecs(e.scans);
        if any {
          progressState := progressState + {CodecsLoaded};
        }
      }
    }

    method PatchControllers(index: nat, kextIndex: nat)
      requires Valid()
      modifies this`controllerMod, this`currentFreeNvidiaDeviceId, this`log, nvidiaDeviceIdUsage
      ensures Valid() && View() == AlcState.PatchControllers(tables, old(View()), index, kextIndex)
    {
      hide HandleController, Applied;
      if ControllersLoaded in progressState {
        for i := 0 to |controllers|
          invariant Valid() && |controllerMod| == |old(View()).mods|
          invariant View() == HandleControllers(tables, old(View()), index, i)
        {
          PatchController(index, i);
        }
        if !tables.debugEnabled {
          EraseRedundantLogs(kextIndex);
        }
      }
    }

    method PatchCodecs(index: nat)
      requires Valid()
      modifies this`progressState, this`log
      ensures Valid() && View() == AlcState.PatchCodecs(tables, old(View()), index)
    {
      hide HandleCodec, Applied;
      if CodecsLoaded in progressState {
        for i := 0 to |codecs|
          invariant Valid()
          invariant View() == HandleCodecs(tables, old(View()), index, i)
        {
          PatchCodec(index, i);
        }
      }
    }

    method RouteHooks(kextIndex: nat)
      requires Valid()
      modifies this`progressState, this`log
      ensures Valid()
      ensures var s := RouteFamily(tables, RouteCallbacks(tables, old(View()), kextIndex), kextIndex);
              View() == RouteController(tables, s, kextIndex)
    {
      if CallbacksWantRouting in progressState && kextIndex == tables.appleHDA {
        Route([LayoutLoad, PlatformLoad, PowerChange, PinConfigInit]);
        if !tables.debugEnabled {
          EraseRedundantLogs(kextIndex);
        }
      }
      if PatchHDAFamily !in progressState && kextIndex == tables.ioHDAFamily {
        progressState := progressState + {PatchHDAFamily};
        Route([ExecuteVerb]);
      }
      if PatchHDAController !in progressState && kextIndex == tables.appleHDAController {
        progressState := progressState + {PatchHDAController};
        Route([ControllerStart]);
      }
    }

    // -------------------------------------------------------------- layout and platform requests

    /** Codec i has a file of this kind for its controller's layout and this kernel at place f. */
    predicate Matches(kind: Resource, i: nat, f: nat)
      requires Valid() && ControllersInRange()
      reads this, nvidiaDeviceIdUsage
    {
      && i < |codecs| && codecs[i].info.Some?
      && var m := ModOf(tables, codecs[i]);
         (kind.Platform? && f < |m.platforms| && IsUsable(m.platforms[f], i))
         || (kind.Layout? && f < |m.layouts| && IsUsable(m.layouts[f], i))
    }

    /** The file is for the layout of codec i's controller and for this kernel. */
    predicate IsUsable(file: File, i: nat)
      requires i < |codecs| && ControllersInRange()
      reads this
    {
      file.layout == controllers[codecs[i].controller].layout && tables.compatible(file.minKernel, file.maxKernel)
    }

    predicate ControllersInRange()
      reads this
    {
      forall i :: 0 <= i < |codecs| ==> codecs[i].controller < |controllers|
    }

    /** The file that replaces the answer to a request: the first matching one of the last codec that has
        one, or none at all if and only if no codec has one. */
    method UpdateResource(kind: Resource) returns (resource: Option<nat>, ghost from: (nat, nat))
      requires Valid() && ControllersInRange()
      ensures resource.None? <==> forall i, f :: !Matches(kind, i, f)
      ensures resource.Some? ==>
                && Matches(kind, from.0, from.1)
                && (kind.Platform? ==> resource.value == ModOf(tables, codecs[from.0]).platforms[from.1].data)
                && (kind.Layout? ==> resource.value == ModOf(tables, codecs[from.0]).layouts[from.1].data)
                && (forall f :: 0 <= f < from.1 ==> !Matches(kind, from.0, f))
                && forall i, f :: from.0 < i ==> !Matches(kind, i, f)
    {
      resource, from := None, (0, 0);
      for i := 0 to |codecs|
        invariant resource.None? ==> forall k, f :: 0 <= k < i ==> !Matches(kind, k, f)
        invariant resource.Some? ==>
                    && from.0 < i && Matches(kind, from.0, from.1)
                    && (kind.Platform? ==> resource.value == ModOf(tables, codecs[from.0]).platforms[from.1].data)
                    && (kind.Layout? ==> resource.value == ModOf(tables, codecs[from.0]).layouts[from.1].data)
                    && (forall f :: 0 <= f < from.1 ==> !Matches(kind, from.0, f))
                    && forall k, f :: from.0 < k < i ==> !Matches(kind, k, f)
      {
        ghost var before, origin := resource, from;
        if codecs[i].info.Some? {
          var info := tables.vendorMod[codecs[i].info.value.0].codecs[codecs[i].info.value.1];
          var files := if kind == Platform then info.platforms else info.layouts;
          for f := 0 to |files|
            invariant forall k :: 0 <= k < f ==> !Matches(kind, i, k)
            invariant resource == before && from == origin
          {
            var fi := files[f];
            if controllers[codecs[i].controller].layout == fi.layout && tables.compatible(fi.minKernel, fi.maxKernel) {
              resource, from := Some(fi.data), (i, f);
              break;
            }
          }
        }
      }
    }
  }
}

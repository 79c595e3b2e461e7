/** The run-time state of AppleALC/kern_alc.cpp as a value, and what each event does to it. Pointers
    into the generated tables are indices; patching and routing requests are a log. */
module AlcState {
  import opened Values

  type u32 = n: nat | n < 0x1_0000_0000

  // ---------------------------------------------------------------- generated tables

  /** A kext of kextList; `detect` is its user[0] flag. */
  datatype Kext = Kext(loadIndex: nat, detect: bool)

  datatype KextPatch = KextPatch(kext: nat, find: Bytes, replace: Bytes, count: nat,
                                 minKernel: u32, maxKernel: u32)

  datatype ComputerModel = Laptop | Desktop

  datatype ControllerMod = ControllerMod(vendor: u32, device: u32, revisions: seq<u32>, platform: u32,
                                         computerModel: set<ComputerModel>, patches: seq<KextPatch>)

  datatype File = File(data: nat, minKernel: u32, maxKernel: u32, layout: u32)

  datatype CodecMod = CodecMod(codec: nat, revisions: seq<u32>, platforms: seq<File>, layouts: seq<File>,
                               patches: seq<KextPatch>)

  datatype VendorMod = VendorMod(vendor: nat, codecs: seq<CodecMod>)

  /** The tables and settings that never change; controllerMod is part of the state instead. */
  datatype Tables = Tables(kextList: seq<Kext>, vendorMod: seq<VendorMod>, debugEnabled: bool,
                           compatible: (u32, u32) -> bool,
                           appleHDAController: nat, appleHDA: nat, appleGFXHDA: nat, ioHDAFamily: nat)
  {
    /** The four named kexts are different places of the list. */
    predicate Valid() {
      && appleHDAController < |kextList| && appleHDA < |kextList|
      && appleGFXHDA < |kextList| && ioHDAFamily < |kextList|
      && appleHDAController != appleHDA && appleHDAController != appleGFXHDA && appleHDAController != ioHDAFamily
      && appleHDA != appleGFXHDA && appleHDA != ioHDAFamily && appleGFXHDA != ioHDAFamily
    }
  }

  /** The four kexts of Resources/Kexts.plist, in the order in which they are listed there. */
  lemma ListedKexts(t: Tables)
    requires |t.kextList| == 4
    requires t.appleGFXHDA == 0 && t.appleHDA == 1 && t.appleHDAController == 2 && t.ioHDAFamily == 3
    ensures t.Valid()
  {
  }

  // ---------------------------------------------------------------- state

  datatype Flag = ControllersLoaded | CodecsLoaded | CallbacksWantRouting | PatchHDAFamily | PatchHDAController

  /** `info` is a place in controllerMod; `detect` says whether there is a registry entry to scan. */
  datatype ControllerInfo = ControllerInfo(info: Option<nat>, detect: bool, vendor: u32, device: u32, revision: u32,
                                           platform: u32, layout: u32, nopatch: bool)

  /** `info` is a vendor and a codec of vendorMod. */
  datatype CodecInfo = CodecInfo(info: Option<(nat, nat)>, controller: nat, vendor: nat, codec: nat, revision: u32)

  datatype Hook = GfxProbe | LayoutLoad | PlatformLoad | PowerChange | PinConfigInit | ExecuteVerb | ControllerStart

  datatype Action = Route(hooks: seq<Hook>) | Apply(patch: KextPatch) | EraseLogs(kext: nat, count: nat)

  datatype State = State(progress: set<Flag>, mods: seq<ControllerMod>, controllers: seq<ControllerInfo>,
                         codecs: seq<CodecInfo>, used: seq<bool>, cursor: nat, model: set<ComputerModel>,
                         log: seq<Action>)

  const INTEL: u32 := 0x8086
  const NVIDIA: u32 := 0x10DE
  const PLATFORM_ANY: u32 := 0

  const MAX_IDS: nat := 16

  /** NVIDIA HDAU device-ids that may be handed out. */
  const ID_LIST: seq<u32> := [
    0x0E0A10DE, 0x0E0B10DE, 0x0E1B10DE, 0x0E1A10DE, 0x0BE510DE, 0x0BEB10DE, 0x0BE910DE, 0x0BEA10DE,
    0x0E0910DE, 0x0BEE10DE, 0x0E0810DE, 0x0BE310DE, 0x0AC010DE, 0x0D9410DE, 0x0BE210DE, 0x0BE410DE]

  /** "NVDA", the find value that asks for a free device-id. */
  const SPECIAL: u32 := 0x4144564E

  // ---------------------------------------------------------------- devices

  /** The properties of an audio or video device that are looked at. */
  datatype Device = Device(vendorId: Option<u32>, deviceId: Option<u32>, revisionId: Option<u32>,
                           alcLayoutId: Option<u32>,
                           noControllerPatch: bool, noControllerInject: bool, noHdaGfx: bool)

  datatype Gpu = Gpu(audio: Option<Device>, vendor: u32)

  datatype DeviceInfo = DeviceInfo(audioBuiltinAnalog: Option<Device>, audioBuiltinDigital: Option<Device>,
                                   videoBuiltin: Option<Device>, videoExternal: seq<Gpu>,
                                   framebufferIsConnectorLess: bool, framebufferId: u32)

  /** A registry property as seen by OSDynamicCast(OSNumber). */
  datatype Prop = Missing | NotNumber | Number(value: u32)

  /** What one scan below a controller finds: no codec yet, or the first entry with a vendor id. */
  datatype Scan = Nothing | Codec(vendor: Prop, revision: Prop)

  /** A kext is loaded; devices and codecs are what is found if they are looked for now. The scans
      of a controller are as many as attempts are allowed. */
  datatype Event =
    | UpdateProperties(dev: Option<DeviceInfo>)
    | ProcessKext(index: nat, modelType: set<ComputerModel>, devices: Option<DeviceInfo>, scans: map<nat, seq<Scan>>)

  // ---------------------------------------------------------------- controllers

  function NewController(ven: u32, dev: u32, rev: u32, np: bool, platform: u32, layout: u32,
                         detect: bool): ControllerInfo {
    ControllerInfo(None, detect, ven, dev, rev, platform, layout, np)
  }

  function Insert(s: State, c: ControllerInfo): State {
    s.(controllers := s.controllers + [c])
  }

  /** (dev << 16) | vendor, in 32 bits. */
  function DeviceId(dev: u32): u32 {
    (dev % 0x10000) * 0x10000 + NVIDIA
  }

  function MarkUsed(used: seq<bool>, device: u32): (r: seq<bool>)
    requires |used| == MAX_IDS
    ensures |r| == MAX_IDS
  {
    seq(MAX_IDS, i requires 0 <= i < MAX_IDS => used[i] || ID_LIST[i] == device)
  }

  function AddGpu(s: State, gpu: Gpu): (r: State)
    requires |s.used| == MAX_IDS
    ensures |r.used| == MAX_IDS
  {
    if gpu.audio.None? || gpu.audio.value.noControllerInject
       || gpu.audio.value.deviceId.None? || gpu.audio.value.revisionId.None? then s
    else
      var a := gpu.audio.value;
      var c := NewController(gpu.vendor, a.deviceId.value, a.revisionId.value, a.noControllerPatch, PLATFORM_ANY,
                             0, false);
      var s' := Insert(s, c);
      if gpu.vendor == NVIDIA then s'.(used := MarkUsed(s.used, DeviceId(a.deviceId.value))) else s'
  }

  function AddGpus(s: State, gpus: seq<Gpu>): (r: State)
    requires |s.used| == MAX_IDS
    ensures |r.used| == MAX_IDS
  {
    if gpus == [] then s else AddGpu(AddGpus(s, gpus[..|gpus| - 1]), gpus[|gpus| - 1])
  }

  predicate HasBuiltinDigital(d: DeviceInfo) {
    !d.framebufferIsConnectorLess && d.videoBuiltin.Some?
    && !(d.audioBuiltinAnalog.Some? && d.audioBuiltinAnalog.value.noHdaGfx)
  }

  /** A built-in Intel digital controller that is described by device x. */
  function AddIntel(s: State, x: Device, platform: u32): State {
    if x.deviceId.Some? && x.revisionId.Some?
    then Insert(s, NewController(INTEL, x.deviceId.value, x.revisionId.value, x.noControllerPatch, platform, 0, false))
    else s
  }

  /** The state when the built-in controllers have been added. */
  function AddBuiltin(s: State, d: DeviceInfo): (r: State)
    ensures r.used == s.used
  {
    var digital := d.audioBuiltinDigital;
    var s' := if digital.Some? && !digital.value.noControllerInject && HasBuiltinDigital(d)
              then AddIntel(s, digital.value, d.framebufferId) else s;
    if HasBuiltinDigital(d) && !d.videoBuiltin.value.noControllerInject && digital.None?
    then AddIntel(s', d.videoBuiltin.value, d.framebufferId) else s'
  }

  function AfterUpdate(s: State, dev: Option<DeviceInfo>): (r: State)
    requires |s.used| == MAX_IDS
    ensures |r.used| == MAX_IDS
  {
    if dev.None? then s else AddGpus(AddBuiltin(s, dev.value), dev.value.videoExternal)
  }

  /** The analog controller; its no-controller-patch flag arrives as the platform id, and nopatch is false. */
  function AddAnalog(s: State, dev: Option<DeviceInfo>): State {
    if dev.Some? && dev.value.audioBuiltinAnalog.Some?
       && var x := dev.value.audioBuiltinAnalog.value;
          x.vendorId.Some? && x.deviceId.Some? && x.revisionId.Some? && x.alcLayoutId.Some?
    then
      var x := dev.value.audioBuiltinAnalog.value;
      Insert(s, NewController(x.vendorId.value, x.deviceId.value, x.revisionId.value, false,
                              if x.noControllerPatch then 1 else 0, x.alcLayoutId.value, true))
    else s
  }

  /** The table entry fits the controller. */
  predicate Fits(m: ControllerMod, c: ControllerInfo, model: set<ComputerModel>) {
    && m.vendor == c.vendor && m.device == c.device
    && (m.platform == PLATFORM_ANY || m.platform == c.platform)
    && model * m.computerModel != {}
    && (m.revisions == [] || c.revision in m.revisions)
  }

  /** The first fitting entry from place k on. */
  function FirstFit(mods: seq<ControllerMod>, c: ControllerInfo, model: set<ComputerModel>, k: nat): (r: Option<nat>)
    requires k <= |mods|
    ensures r.Some? ==> k <= r.value < |mods| && Fits(mods[r.value], c, model)
    ensures r.Some? ==> forall i :: k <= i < r.value ==> !Fits(mods[i], c, model)
    ensures r.None? ==> forall i :: k <= i < |mods| ==> !Fits(mods[i], c, model)
    decreases |mods| - k
  {
    if k == |mods| then None
    else if Fits(mods[k], c, model) then Some(k)
    else FirstFit(mods, c, model, k + 1)
  }

  function Validated(mods: seq<ControllerMod>, c: ControllerInfo, model: set<ComputerModel>): ControllerInfo {
    var m := FirstFit(mods, c, model, 0);
    if m.Some? then c.(info := m) else c
  }

  function ValidatedAll(s: State): seq<ControllerInfo> {
    seq(|s.controllers|, i requires 0 <= i < |s.controllers| => Validated(s.mods, s.controllers[i], s.model))
  }

  function GrabControllers(s: State, modelType: set<ComputerModel>, dev: Option<DeviceInfo>): State {
    var s' := AddAnalog(s.(model := modelType), dev);
    s'.(controllers := ValidatedAll(s'))
  }

  // ---------------------------------------------------------------- codecs

  /** The 32-bit id is split into vendor and codec, and can be put together again. */
  function NewCodec(controller: nat, ven: u32, rev: u32): (r: CodecInfo)
    ensures r.vendor < 0x10000 && r.codec < 0x10000 && r.vendor * 0x10000 + r.codec == ven
  {
    CodecInfo(None, controller, ven / 0x10000, ven % 0x10000, rev)
  }

  /** The codec list after one scan, and whether scanning is over. */
  function AppendCodec(codecs: seq<CodecInfo>, controller: nat, scan: Scan): (seq<CodecInfo>, bool) {
    if scan.Nothing? || scan.vendor.Missing? || scan.revision.Missing? then (codecs, false)
    else if scan.vendor.NotNumber? || scan.revision.NotNumber? then (codecs, true)
    else (codecs + [NewCodec(controller, scan.vendor.value, scan.revision.value)], true)
  }

  function ScanController(codecs: seq<CodecInfo>, controller: nat, scans: seq<Scan>): seq<CodecInfo> {
    if scans == [] then codecs
    else
      var (codecs', found) := AppendCodec(codecs, controller, scans[0]);
      if found then codecs' else ScanController(codecs', controller, scans[1..])
  }

  function ScansOf(scans: map<nat, seq<Scan>>, i: nat): seq<Scan> {
    if i in scans then scans[i] else []
  }

  /** The codecs after the first n controllers have been scanned. */
  function ScanAll(s: State, scans: map<nat, seq<Scan>>, n: nat): seq<CodecInfo>
    requires n <= |s.controllers|
  {
    if n == 0 then s.codecs
    else
      var codecs := ScanAll(s, scans, n - 1);
      if s.controllers[n - 1].detect then ScanController(codecs, n - 1, ScansOf(scans, n - 1)) else codecs
  }

  /** The first vendor from place k on with this id, or the length. */
  function FirstVendor(vs: seq<VendorMod>, vendor: nat, k: nat): (r: nat)
    requires k <= |vs|
    ensures k <= r <= |vs| && (r < |vs| ==> vs[r].vendor == vendor)
    ensures forall i :: k <= i < r ==> vs[i].vendor != vendor
    decreases |vs| - k
  {
    if k == |vs| || vs[k].vendor == vendor then k else FirstVendor(vs, vendor, k + 1)
  }

  function FirstCodec(cs: seq<CodecMod>, codec: nat, k: nat): (r: nat)
    requires k <= |cs|
    ensures k <= r <= |cs| && (r < |cs| ==> cs[r].codec == codec)
    ensures forall i :: k <= i < r ==> cs[i].codec != codec
    decreases |cs| - k
  {
    if k == |cs| || cs[k].codec == codec then k else FirstCodec(cs, codec, k + 1)
  }

  /** The table entry of a supported codec. */
  function Support(vs: seq<VendorMod>, c: CodecInfo): (r: Option<(nat, nat)>)
    ensures r.Some? ==> r.value.0 < |vs| && r.value.1 < |vs[r.value.0].codecs|
  {
    var v := FirstVendor(vs, c.vendor, 0);
    if v == |vs| then None
    else
      var k := FirstCodec(vs[v].codecs, c.codec, 0);
      if k == |vs[v].codecs| then None
      else if vs[v].codecs[k].revisions == [] || c.revision in vs[v].codecs[k].revisions then Some((v, k))
      else None
  }

  /** The supported codecs, in order, each pointing at its entry. */
  function Supported(vs: seq<VendorMod>, codecs: seq<CodecInfo>): seq<CodecInfo> {
    if codecs == [] then []
    else
      var c := codecs[0];
      var support := Support(vs, c);
      (if support.Some? then [c.(info := support)] else []) + Supported(vs, codecs[1..])
  }

  // ---------------------------------------------------------------- the NVIDIA id allocator

  function Le32(b: Bytes): u32
    requires |b| == 4
  {
    var b0: int, b1: int, b2: int, b3: int := b[0], b[1], b[2], b[3];
    b0 + 0x100 * b1 + 0x10000 * b2 + 0x1000000 * b3
  }

  function Bytes32(n: u32): (r: Bytes)
    ensures |r| == 4
  {
    [n % 0x100, n / 0x100 % 0x100, n / 0x10000 % 0x100, n / 0x1000000]
  }

  predicate IsSpecial(p: KextPatch) {
    |p.find| == 4 && Le32(p.find) == SPECIAL
  }

  /** The first unused id from `cursor` on, or MAX_IDS. */
  function NextFree(used: seq<bool>, cursor: nat): (r: nat)
    requires |used| == MAX_IDS && cursor <= MAX_IDS
    ensures cursor <= r <= MAX_IDS && (r < MAX_IDS ==> !used[r])
    ensures forall i :: cursor <= i < r ==> used[i]
    decreases MAX_IDS - cursor
  {
    if cursor == MAX_IDS || !used[cursor] then cursor else NextFree(used, cursor + 1)
  }

  predicate CanAlloc(s: State) {
    |s.used| == MAX_IDS && s.cursor <= MAX_IDS
  }

  function SetFind(s: State, m: nat, j: nat, find: Bytes): State
    requires m < |s.mods| && j < |s.mods[m].patches|
  {
    var patches := s.mods[m].patches;
    s.(mods := s.mods[m := s.mods[m].(patches := patches[j := patches[j].(find := find)])])
  }

  /** Patch j of entry m gets a free id if it asks for one. */
  function AllocPatch(s: State, m: nat, j: nat): (r: State)
    requires CanAlloc(s) && m < |s.mods| && j < |s.mods[m].patches|
    ensures CanAlloc(r) && |r.mods| == |s.mods| && |r.mods[m].patches| == |s.mods[m].patches|
  {
    if !IsSpecial(s.mods[m].patches[j]) then s
    else
      var k := NextFree(s.used, s.cursor);
      if k == MAX_IDS then s.(cursor := MAX_IDS)
      else SetFind(s, m, j, Bytes32(ID_LIST[k])).(used := s.used[k := true], cursor := k + 1)
  }

  /** The first n patches of entry m. */
  function AllocMod(s: State, m: nat, n: nat): (r: State)
    requires CanAlloc(s) && m < |s.mods| && n <= |s.mods[m].patches|
    ensures CanAlloc(r) && |r.mods| == |s.mods| && |r.mods[m].patches| == |s.mods[m].patches|
  {
    if n == 0 then s else AllocPatch(AllocMod(s, m, n - 1), m, n - 1)
  }

  // ---------------------------------------------------------------- a kext is loaded

  /** The patches of the list that are applied to the kext with this load index. */
  function Applied(t: Tables, index: nat, patches: seq<KextPatch>): seq<Action> {
    if patches == [] then []
    else
      var p := patches[|patches| - 1];
      Applied(t, index, patches[..|patches| - 1])
      + if p.kext < |t.kextList| && t.kextList[p.kext].loadIndex == index && t.compatible(p.minKernel, p.maxKernel)
        then [Apply(p)] else []
  }

  /** Redundant log messages that are blanked in a kext. */
  function Blanked(t: Tables, kext: nat): seq<Action> {
    if kext == t.appleHDAController then [EraseLogs(kext, 3)]
    else if kext == t.appleHDA then [EraseLogs(kext, 2)]
    else []
  }

  function Erased(t: Tables, kext: nat): seq<Action> {
    if t.debugEnabled then [] else Blanked(t, kext)
  }

  predicate InfosOk(s: State) {
    forall i :: 0 <= i < |s.controllers| && s.controllers[i].info.Some? ==> s.controllers[i].info.value < |s.mods|
  }

  function HandleController(t: Tables, s: State, index: nat, i: nat): (r: State)
    requires CanAlloc(s) && InfosOk(s) && i < |s.controllers|
    ensures CanAlloc(r) && r.controllers == s.controllers && |r.mods| == |s.mods|
  {
    var c := s.controllers[i];
    if c.info.None? then s
    else
      var m := c.info.value;
      var s' := if s.mods[m].vendor == NVIDIA then AllocMod(s, m, |s.mods[m].patches|) else s;
      AllocKeeps(s, m, |s.mods[m].patches|);
      if c.nopatch then s' else s'.(log := s'.log + Applied(t, index, s'.mods[m].patches))
  }

  /** The first n controllers. */
  function HandleControllers(t: Tables, s: State, index: nat, n: nat): (r: State)
    requires CanAlloc(s) && InfosOk(s) && n <= |s.controllers|
    ensures CanAlloc(r) && r.controllers == s.controllers && |r.mods| == |s.mods|
  {
    if n == 0 then s else HandleController(t, HandleControllers(t, s, index, n - 1), index, n - 1)
  }

  predicate CodecInfoOk(t: Tables, c: CodecInfo) {
    c.info.Some? ==> c.info.value.0 < |t.vendorMod| && c.info.value.1 < |t.vendorMod[c.info.value.0].codecs|
  }

  predicate CodecInfosOk(t: Tables, s: State) {
    forall i :: 0 <= i < |s.codecs| ==> CodecInfoOk(t, s.codecs[i])
  }

  function ModOf(t: Tables, c: CodecInfo): CodecMod
    requires CodecInfoOk(t, c) && c.info.Some?
  {
    t.vendorMod[c.info.value.0].codecs[c.info.value.1]
  }

  /** The codec is supported with layout or platform files. */
  predicate HasFiles(t: Tables, c: CodecInfo)
    requires CodecInfoOk(t, c)
  {
    c.info.Some? && (|ModOf(t, c).platforms| > 0 || |ModOf(t, c).layouts| > 0)
  }

  function HandleCodec(t: Tables, s: State, index: nat, i: nat): (r: State)
    requires CodecInfosOk(t, s) && i < |s.codecs|
    ensures r == s.(progress := r.progress, log := r.log)
  {
    var c := s.codecs[i];
    if c.info.None? then s
    else
      s.(progress := if HasFiles(t, c) then s.progress + {CallbacksWantRouting} else s.progress,
         log := s.log + Applied(t, index, ModOf(t, c).patches))
  }

  function HandleCodecs(t: Tables, s: State, index: nat, n: nat): (r: State)
    requires CodecInfosOk(t, s) && n <= |s.codecs|
    ensures r == s.(progress := r.progress, log := r.log)
  {
    if n == 0 then s else HandleCodec(t, HandleCodecs(t, s, index, n - 1), index, n - 1)
  }

  /** The first kext from place k on with this load index, or the length. */
  function FindKext(ks: seq<Kext>, index: nat, k: nat): (r: nat)
    requires k <= |ks|
    ensures k <= r <= |ks| && (r < |ks| ==> ks[r].loadIndex == index)
    ensures forall i :: k <= i < r ==> ks[i].loadIndex != index
    decreases |ks| - k
  {
    if k == |ks| || ks[k].loadIndex == index then k else FindKext(ks, index, k + 1)
  }

  /** Controllers are grabbed at the first event, codecs at later ones until some are supported. */
  function Grab(t: Tables, s: State, kext: nat, e: Event): State
    requires e.ProcessKext? && kext < |t.kextList|
  {
    if ControllersLoaded !in s.progress then
      GrabControllers(s, e.modelType, e.devices).(progress := s.progress + {ControllersLoaded})
    else if CodecsLoaded !in s.progress && t.kextList[kext].detect then
      var codecs := Supported(t.vendorMod, ScanAll(s, e.scans, |s.controllers|));
      s.(codecs := codecs, progress := if codecs != [] then s.progress + {CodecsLoaded} else s.progress)
    else s
  }

  function PatchControllers(t: Tables, s: State, index: nat, kext: nat): State
    requires CanAlloc(s) && InfosOk(s)
  {
    if ControllersLoaded in s.progress then
      var s' := HandleControllers(t, s, index, |s.controllers|);
      s'.(log := s'.log + Erased(t, kext))
    else s
  }

  function PatchCodecs(t: Tables, s: State, index: nat): State
    requires CodecInfosOk(t, s)
  {
    if CodecsLoaded in s.progress then HandleCodecs(t, s, index, |s.codecs|) else s
  }

  const CALLBACKS: Action := Route([LayoutLoad, PlatformLoad, PowerChange, PinConfigInit])

  function RouteCallbacks(t: Tables, s: State, kext: nat): State {
    if CallbacksWantRouting in s.progress && kext == t.appleHDA
    then s.(log := s.log + [CALLBACKS] + Erased(t, kext)) else s
  }

  function RouteFamily(t: Tables, s: State, kext: nat): State {
    if PatchHDAFamily !in s.progress && kext == t.ioHDAFamily
    then s.(progress := s.progress + {PatchHDAFamily}, log := s.log + [Route([ExecuteVerb])]) else s
  }

  function RouteController(t: Tables, s: State, kext: nat): State {
    if PatchHDAController !in s.progress && kext == t.appleHDAController
    then s.(progress := s.progress + {PatchHDAController}, log := s.log + [Route([ControllerStart])]) else s
  }

  lemma AllocKeeps(s: State, m: nat, n: nat)
    requires CanAlloc(s) && m < |s.mods| && n <= |s.mods[m].patches|
    ensures var r := AllocMod(s, m, n); r == s.(mods := r.mods, used := r.used, cursor := r.cursor)
  {
    if n > 0 {
      AllocKeeps(s, m, n - 1);
    }
  }

  /** What the loops over the lists need: array bounds. */
  predicate Shape(t: Tables, s: State) {
    CanAlloc(s) && InfosOk(s) && CodecInfosOk(t, s)
  }

  lemma {:induction false} SupportedInfosOk(t: Tables, codecs: seq<CodecInfo>)
    ensures forall i :: 0 <= i < |Supported(t.vendorMod, codecs)| ==> CodecInfoOk(t, Supported(t.vendorMod, codecs)[i])
  {
    if codecs != [] {
      SupportedInfosOk(t, codecs[1..]);
    }
  }

  lemma GrabKeepsShape(t: Tables, s: State, kext: nat, e: Event)
    requires Shape(t, s) && e.ProcessKext? && kext < |t.kextList|
    ensures Shape(t, Grab(t, s, kext, e))
  {
    if ControllersLoaded in s.progress {
      SupportedInfosOk(t, ScanAll(s, e.scans, |s.controllers|));
    }
  }

  lemma {:induction false} HandleControllersKeeps(t: Tables, s: State, index: nat, n: nat)
    requires CanAlloc(s) && InfosOk(s) && n <= |s.controllers|
    ensures var r := HandleControllers(t, s, index, n);
            r == s.(mods := r.mods, used := r.used, cursor := r.cursor, log := r.log)
  {
    if n > 0 {
      HandleControllersKeeps(t, s, index, n - 1);
      var q := HandleControllers(t, s, index, n - 1);
      var c := q.controllers[n - 1];
      if c.info.Some? {
        AllocKeeps(q, c.info.value, |q.mods[c.info.value].patches|);
      }
    }
  }

  function AfterKext(t: Tables, s: State, e: Event): State
    requires Shape(t, s) && e.ProcessKext?
  {
    var kext := FindKext(t.kextList, e.index, 0);
    if kext == |t.kextList| then s
    else if kext == t.appleGFXHDA then s.(log := s.log + [Route([GfxProbe])])
    else
      var s1 := Grab(t, s, kext, e);
      GrabKeepsShape(t, s, kext, e);
      var s2 := PatchControllers(t, s1, e.index, kext);
      HandleControllersKeeps(t, s1, e.index, |s1.controllers|);
      var s3 := PatchCodecs(t, s2, e.index);
      RouteController(t, RouteFamily(t, RouteCallbacks(t, s3, kext), kext), kext)
  }

  function Step(t: Tables, s: State, e: Event): State
    requires Shape(t, s)
  {
    match e
    case UpdateProperties(dev) => AfterUpdate(s, dev)
    case ProcessKext(_, _, _, _) => AfterKext(t, s, e)
  }

  /** The state before the first event. */
  function Start(mods: seq<ControllerMod>): State {
    State({}, mods, [], [], seq(MAX_IDS, _ => false), 0, {}, [])
  }
}

/** The pin configuration hooks of AppleALC/kern_alc.cpp:338-504: property tables and dictionaries are
    objects that are updated in place; calls of the original methods are a log. */
module PinConfig {
  import opened AlcState
  import opened Values
  import AlcEnabler

  datatype Object = Bool(value: bool) | OSNumber(number: u32) | Data(bytes: Bytes) | Other(id: nat)

  type Entries = map<string, Object>

  /** A dictionary that is shared by reference. */
  class Dictionary {
    var entries: Entries

    constructor (entries: Entries)
      ensures this.entries == entries
    {
      this.entries := entries;
    }

    constructor Copy(from: Dictionary)
      ensures entries == from.entries
    {
      entries := from.entries;
    }

    method SetObject(key: string, value: Object)
      modifies this
      ensures entries == old(entries)[key := value]
    {
      entries := entries[key := value];
    }

    method RemoveObject(key: string)
      modifies this
      ensures entries == old(entries) - {key}
    {
      entries := entries - {key};
    }
  }

  /** A registry property; an item of an array that is no dictionary is null. */
  datatype Property = Flag(value: bool) | Array(items: seq<Dictionary?>) | OtherProperty(id: nat)

  /** A device above a codec in the service plane. */
  datatype Ancestor = Ancestor(name: Option<string>, layoutId: Option<u32>)

  /** A registry entry. */
  class Service {
    const ancestors: seq<Ancestor>
    var properties: map<string, Property>

    constructor (ancestors: seq<Ancestor>, properties: map<string, Property>)
      ensures this.ancestors == ancestors && this.properties == properties
    {
      this.ancestors, this.properties := ancestors, properties;
    }
  }

  const PIN_STATUS := "alc-pinconfig-status"
  const SLEEP_STATUS := "alc-sleep-status"
  const CONFIGS := "HDAConfigDefault"

  lemma KeysDiffer()
    ensures PIN_STATUS != CONFIGS && SLEEP_STATUS != CONFIGS && PIN_STATUS != SLEEP_STATUS
  {
    assert SLEEP_STATUS[0] == 'a' && CONFIGS[0] == 'H';
  }

  const DEVICE_SLEEP: u32 := 0
  const DEVICE_IDLE: u32 := 1
  const DEVICE_ACTIVE: u32 := 2

  // ---------------------------------------------------------------- which entry is used

  predicate IsHda(a: Ancestor) {
    a.name == Some("HDEF") || a.name == Some("HDAU")
  }

  /** The layout id of the nearest HDEF or HDAU above the codec, or 0. */
  method GetAudioLayout(hda: Service) returns (layout: u32)
    ensures layout == AudioLayout(hda.ancestors)
  {
    var up := hda.ancestors;
    layout := 0;
    var i := 0;
    while i < |up|
      invariant i <= |up| && AudioLayout(up) == AudioLayout(up[i..])
    {
      var name := up[i].name;
      if name.Some? && (name.value == "HDEF" || name.value == "HDAU") {
        if up[i].layoutId.Some? {
          layout := up[i].layoutId.value;
        }
        return;
      }
      i := i + 1;
    }
  }

  function AudioLayout(up: seq<Ancestor>): u32 {
    if up == [] then 0
    else if IsHda(up[0]) then (if up[0].layoutId.Some? then up[0].layoutId.value else 0)
    else AudioLayout(up[1..])
  }

  /** The audio layout comes from the first HDEF or HDAU, and from nothing above it. */
  lemma {:induction false} LayoutOfTheNearest(up: seq<Ancestor>, i: nat)
    requires i <= |up| && forall k :: 0 <= k < i ==> !IsHda(up[k])
    ensures i == |up| ==> AudioLayout(up) == 0
    ensures i < |up| && IsHda(up[i]) ==>
              AudioLayout(up) == if up[i].layoutId.Some? then up[i].layoutId.value else 0
  {
    if i > 0 {
      LayoutOfTheNearest(up[1..], i - 1);
    }
  }

  /** Id and layout of the first codec whose controller has a layout, or zeroes. */
  method FindAnalog(controllers: seq<ControllerInfo>, codecs: seq<CodecInfo>) returns (codec: nat, layout: u32, at: nat)
    requires forall i :: 0 <= i < |codecs| ==> codecs[i].controller < |controllers|
    ensures at <= |codecs| && forall i :: 0 <= i < at ==> controllers[codecs[i].controller].layout == 0
    ensures if at == |codecs| then codec == 0 && layout == 0
            else layout == controllers[codecs[at].controller].layout > 0
                 && codec == codecs[at].vendor * 0x10000 + codecs[at].codec
  {
    codec, layout := 0, 0;
    at := |codecs|;
    for i := 0 to |codecs|
      invariant forall k :: 0 <= k < i ==> controllers[codecs[k].controller].layout == 0
    {
      if controllers[codecs[i].controller].layout > 0 {
        return codecs[i].vendor * 0x10000 + codecs[i].codec, controllers[codecs[i].controller].layout, i;
      }
    }
  }

  /** The item is a config entry for this codec and layout. */
  predicate IsMatch(item: Dictionary?, codec: nat, layout: u32)
    reads item
  {
    && item != null
    && "CodecID" in item.entries && item.entries["CodecID"].OSNumber? && item.entries["CodecID"].number == codec
    && "LayoutID" in item.entries && item.entries["LayoutID"].OSNumber? && item.entries["LayoutID"].number == layout
  }

  lemma MatchIsNotNull(item: Dictionary?, codec: nat, layout: u32)
    requires IsMatch(item, codec, layout)
    ensures item != null
  {
  }

  /** The first matching item, or the length. */
  method FindConfig(items: seq<Dictionary?>, codec: nat, layout: u32) returns (i: nat)
    ensures i <= |items| && (i < |items| ==> IsMatch(items[i], codec, layout))
    ensures forall k :: 0 <= k < i ==> !IsMatch(items[k], codec, layout)
  {
    i := 0;
    while i < |items|
      invariant i <= |items| && forall k :: 0 <= k < i ==> !IsMatch(items[k], codec, layout)
    {
      var config := items[i];
      if config != null && "CodecID" in config.entries && "LayoutID" in config.entries {
        var currCodec, currLayout := config.entries["CodecID"], config.entries["LayoutID"];
        if currCodec.OSNumber? && currLayout.OSNumber? && currCodec.number == codec && currLayout.number == layout {
          return;
        }
      }
      i := i + 1;
    }
  }

  // ---------------------------------------------------------------- what is put in its place

  /** The boot copy: the same entry under the layout id that AppleHDA asks for. */
  predicate IsBootCopy(config: Entries, boot: Entries, appleLayout: u32) {
    boot == config["LayoutID" := OSNumber(appleLayout)]
  }

  /** The entry asks for its wake verbs to be replayed. */
  predicate WantsReinit(config: Entries) {
    "WakeVerbReinit" in config && config["WakeVerbReinit"] == Bool(true)
  }

  predicate HasData(config: Entries, key: string) {
    key in config && config[key].Data?
  }

  /** The wake copy of a boot copy: wake data takes the place of config data, which is kept aside as
      boot data; nothing else differs. Without wake data it is the boot copy. */
  ghost predicate IsWakeCopy(boot: Entries, wake: Entries) {
    if !HasData(boot, "WakeConfigData") then wake == boot
    else
      && "ConfigData" in wake && wake["ConfigData"] == boot["WakeConfigData"]
      && "WakeConfigData" !in wake
      && (HasData(boot, "ConfigData") ==> "BootConfigData" in wake && wake["BootConfigData"] == boot["ConfigData"])
      && (forall key :: Untouched(boot, key) ==>
            (key in wake <==> key in boot) && (key in boot ==> wake[key] == boot[key]))
  }

  predicate Untouched(boot: Entries, key: string) {
    && key != "ConfigData" && key != "WakeConfigData"
    && (HasData(boot, "ConfigData") ==> key != "BootConfigData")
  }

  /** What can be rebuilt from a wake copy whose entry had both data. */
  function Undo(wake: Entries): Entries
    requires "ConfigData" in wake && "BootConfigData" in wake
  {
    wake["WakeConfigData" := wake["ConfigData"]]["ConfigData" := wake["BootConfigData"]] - {"BootConfigData"}
  }

  /** What can be rebuilt from a wake copy whose entry had wake data only. */
  function UndoWake(wake: Entries): Entries
    requires "ConfigData" in wake
  {
    wake["WakeConfigData" := wake["ConfigData"]] - {"ConfigData"}
  }

  /** With both data present, all that swapping loses is boot data that was there before. */
  lemma WakeCopyCanBeUndoneIff(boot: Entries, wake: Entries)
    requires IsWakeCopy(boot, wake) && HasData(boot, "WakeConfigData") && HasData(boot, "ConfigData")
    ensures Undo(wake) == boot - {"BootConfigData"}
    ensures Undo(wake) == boot <==> "BootConfigData" !in boot
  {
    var rest := boot - {"BootConfigData"};
    forall key ensures key in Undo(wake) <==> key in rest {
      assert Untouched(boot, key) || key == "ConfigData" || key == "WakeConfigData" || key == "BootConfigData";
    }
    forall key | key in rest ensures Undo(wake)[key] == rest[key] {
      assert Untouched(boot, key) || key == "ConfigData" || key == "WakeConfigData";
    }
  }

  /** Without config data that is data, all that swapping loses is a ConfigData entry of another type. */
  lemma WakeOnlyCanBeUndoneIff(boot: Entries, wake: Entries)
    requires IsWakeCopy(boot, wake) && HasData(boot, "WakeConfigData") && !HasData(boot, "ConfigData")
    ensures UndoWake(wake) == boot - {"ConfigData"}
    ensures UndoWake(wake) == boot <==> "ConfigData" !in boot
  {
    var rest := boot - {"ConfigData"};
    forall key ensures key in UndoWake(wake) <==> key in rest {
      assert Untouched(boot, key) || key == "ConfigData" || key == "WakeConfigData";
    }
    forall key | key in rest ensures UndoWake(wake)[key] == rest[key] {
      assert Untouched(boot, key) || key == "WakeConfigData";
    }
  }

  // ---------------------------------------------------------------- the hooks

  datatype Call =
    | InitializePinConfig(codec: Service?, config: Service?, forced: bool)
    | PerformPowerChange(codec: Service?, to: u32)

  /** The property table of the codec after the first call. */
  function CodecTable(before: map<string, Property>, same: bool, boot: Dictionary?,
                      wake: Dictionary?): map<string, Property> {
    var p := before[PIN_STATUS := Flag(false)][SLEEP_STATUS := Flag(false)];
    var q := if same && boot != null then p[CONFIGS := Array([boot])] else p;
    if wake != null then q[CONFIGS := Array([wake])][PIN_STATUS := Flag(true)] else q
  }

  /** The property table of a separate config device after the first call. */
  function DeviceTable(before: map<string, Property>, boot: Dictionary?): map<string, Property> {
    if boot != null then before[CONFIGS := Array([boot])] else before
  }

  /** The config list of a device. */
  function Configs(properties: map<string, Property>): seq<Dictionary?> {
    if CONFIGS in properties && properties[CONFIGS].Array? then properties[CONFIGS].items else []
  }

  /** The config list is this dictionary alone. */
  predicate HasList(properties: map<string, Property>, d: Dictionary) {
    "HDAConfigDefault" in properties && properties["HDAConfigDefault"] == Array([d])
  }

  function Dictionaries(items: seq<Dictionary?>): set<Dictionary> {
    set d: Dictionary | d in items
  }

  class PinHooks {
    const alc: AlcEnabler.AlcEnabler
    /** Calls of the original methods. */
    var originals: seq<Call>

    constructor (alc: AlcEnabler.AlcEnabler)
      ensures this.alc == alc && originals == []
    {
      this.alc := alc;
      originals := [];
    }

    /** The codec of place i decides: it is the first one whose controller has a layout. */
    ghost predicate IsAnalog(i: int)
      requires alc.ControllersInRange()
      reads alc
    {
      && 0 <= i < |alc.codecs| && alc.controllers[alc.codecs[i].controller].layout > 0
      && forall k :: 0 <= k < i ==> alc.controllers[alc.codecs[k].controller].layout == 0
    }

    /** Item n is the first of the list for the id of codec i and the layout of its controller. */
    ghost predicate IsTarget(items: seq<Dictionary?>, i: int, n: int)
      requires alc.ControllersInRange()
      reads alc, Dictionaries(items)
    {
      && IsAnalog(i) && 0 <= n < |items|
      && var c := alc.codecs[i];
         var codec, layout := c.vendor * 0x10000 + c.codec, alc.controllers[c.controller].layout;
         && codec != 0 && IsMatch(items[n], codec, layout)
         && forall k :: 0 <= k < n ==> !IsMatch(items[k], codec, layout)
    }

    ghost predicate HasTarget(items: seq<Dictionary?>)
      requires alc.ControllersInRange()
      reads alc, Dictionaries(items)
    {
      exists i, n :: IsTarget(items, i, n)
    }

    /** What the first call for a codec has done: the device's config list is replaced by a copy of the
        target under the layout id that AppleHDA asks for, and, if wake verbs are wanted, the codec has a
        separate copy with the data swapped. */
    twostate predicate IsRewritten(hdaCodec: Service, configDevice: Service, items: seq<Dictionary?>,
                                   codecAt: int, itemAt: int, new boot: Dictionary?, new wake: Dictionary?)
      requires alc.ControllersInRange()
      reads alc, hdaCodec, configDevice, boot, wake, Dictionaries(items)
    {
      && hdaCodec.properties == CodecTable(old(hdaCodec.properties), hdaCodec == configDevice, boot, wake)
      && (hdaCodec != configDevice ==> configDevice.properties == DeviceTable(old(configDevice.properties), boot))
      && Chosen(hdaCodec, items, codecAt, itemAt, boot, wake)
    }

    /** The copies are made of the target; there are none if there is no target or no audio layout. */
    ghost predicate Chosen(hdaCodec: Service, items: seq<Dictionary?>, codecAt: int, itemAt: int,
                           boot: Dictionary?, wake: Dictionary?)
      requires alc.ControllersInRange()
      reads alc, boot, wake, Dictionaries(items)
    {
      if boot == null
      then wake == null && (AudioLayout(hdaCodec.ancestors) == 0 || !HasTarget(items))
      else && AudioLayout(hdaCodec.ancestors) != 0
           && IsTarget(items, codecAt, itemAt)
           && IsCopied(items[itemAt].entries, boot, wake, AudioLayout(hdaCodec.ancestors))
    }

    /** The status and the list of a codec after its first call: true and the wake copy if there is a target
        entry with WakeVerbReinit true, or else false. */
    ghost predicate LeavesStatus(properties: map<string, Property>, items: seq<Dictionary?>, itemAt: int,
                                 boot: Dictionary?, wake: Dictionary?)
      reads Dictionaries(items)
    {
      && "alc-sleep-status" in properties && properties["alc-sleep-status"] == Flag(false)
      && "alc-pinconfig-status" in properties
      && (boot == null ==> properties["alc-pinconfig-status"] == Flag(false))
      && (boot != null ==>
            && 0 <= itemAt < |items| && items[itemAt] != null
            && var c := items[itemAt].entries;
               if "WakeVerbReinit" in c && c["WakeVerbReinit"] == Bool(true)
               then properties["alc-pinconfig-status"] == Flag(true) && wake != null && HasList(properties, wake)
               else properties["alc-pinconfig-status"] == Flag(false) && wake == null)
    }

    ghost predicate IsCopied(config: Entries, boot: Dictionary?, wake: Dictionary?, appleLayout: u32)
      reads boot, wake
    {
      && boot != null && IsBootCopy(config, boot.entries, appleLayout)
      && (wake != null <==> WantsReinit(config))
      && (wake != null ==> wake != boot && IsWakeCopy(boot.entries, wake.entries))
    }

    /** The target of the config list, if it has one. */
    method FindTarget(items: seq<Dictionary?>) returns (config: Dictionary?, codecAt: int, itemAt: int)
      requires alc.ControllersInRange()
      ensures if config == null then !HasTarget(items)
              else IsTarget(items, codecAt, itemAt) && config == items[itemAt]
    {
      hide IsMatch;
      config, itemAt := null, 0;
      var analogCodec, analogLayout, at := FindAnalog(alc.controllers, alc.codecs);
      codecAt := at;
      if analogCodec != 0 && analogLayout != 0 {
        assert IsAnalog(at);
        var n := FindConfig(items, analogCodec, analogLayout);
        if n < |items| {
          MatchIsNotNull(items[n], analogCodec, analogLayout);
          config, itemAt := items[n], n;
        }
      }
    }

    method RewriteConfig(hdaCodec: Service, configDevice: Service)
      returns (ghost codecAt: int, ghost itemAt: int, ghost boot: Dictionary?, ghost wake: Dictionary?)
      requires alc.ControllersInRange()
      modifies hdaCodec, configDevice
      ensures IsRewritten(hdaCodec, configDevice, Configs(old(configDevice.properties)), codecAt, itemAt, boot, wake)
      ensures (boot != null ==> fresh(boot)) && (wake != null ==> fresh(wake))
    {
      hide IsTarget, HasTarget, IsCopied;
      codecAt, itemAt, boot, wake := 0, 0, null, null;
      var appleLayout := GetAudioLayout(hdaCodec);
      hdaCodec.properties := hdaCodec.properties[PIN_STATUS := Flag(false)];
      hdaCodec.properties := hdaCodec.properties[SLEEP_STATUS := Flag(false)];
      if appleLayout != 0 {
        var configList := Configs(configDevice.properties);
        assert configList == Configs(old(configDevice.properties)) by { KeysDiffer(); }
        var config: Dictionary?;
        config, codecAt, itemAt := FindTarget(configList);
        if config != null {
          boot, wake := Replace(hdaCodec, configDevice, config, appleLayout);
          assert forall d: object :: d in Dictionaries(configList) || d == alc ==> d != hdaCodec && d != configDevice;
        }
      }
    }

    /** Only the first call for a codec rewrites anything. Dictionaries that exist already never change. */
    method InitializePinConfig(hdaCodec: Service?, configDevice: Service?)
      returns (ghost codecAt: int, ghost itemAt: int, ghost boot: Dictionary?, ghost wake: Dictionary?)
      requires alc.ControllersInRange()
      modifies this`originals, hdaCodec, configDevice
      ensures originals == old(originals) + [Call.InitializePinConfig(hdaCodec, configDevice, false)]
      ensures hdaCodec != null && (configDevice == null || PIN_STATUS in old(hdaCodec.properties)) ==>
                hdaCodec.properties == old(hdaCodec.properties)
      ensures configDevice != null && (hdaCodec == null || PIN_STATUS in old(hdaCodec.properties)) ==>
                configDevice.properties == old(configDevice.properties)
      ensures hdaCodec != null && configDevice != null && PIN_STATUS !in old(hdaCodec.properties) ==>
                IsRewritten(hdaCodec, configDevice, Configs(old(configDevice.properties)), codecAt, itemAt, boot, wake)
      ensures hdaCodec != null && configDevice != null && "alc-pinconfig-status" !in old(hdaCodec.properties) ==>
                && LeavesStatus(hdaCodec.properties, Configs(old(configDevice.properties)), itemAt, boot, wake)
                && (boot != null && configDevice != hdaCodec ==> HasList(configDevice.properties, boot))
      ensures (boot != null ==> fresh(boot)) && (wake != null ==> fresh(wake))
    {
      hide Chosen, LeavesStatus, CodecTable;
      codecAt, itemAt, boot, wake := 0, 0, null, null;
      if hdaCodec != null && configDevice != null && PIN_STATUS !in hdaCodec.properties {
        ghost var items := Configs(configDevice.properties);
        codecAt, itemAt, boot, wake := RewriteConfig(hdaCodec, configDevice);
        StatusIsLeft(hdaCodec, old(hdaCodec.properties), hdaCodec == configDevice, items, codecAt, itemAt, boot, wake);
        assert forall d: object :: d in Dictionaries(items) || d == alc ==> d != this;
      }
      originals := originals + [Call.InitializePinConfig(hdaCodec, configDevice, false)];
    }

    /** What the first call has done, as seen at the keys of the codec and of a separate device. */
    lemma StatusIsLeft(hdaCodec: Service, before: map<string, Property>, same: bool, items: seq<Dictionary?>,
                       codecAt: int, itemAt: int, boot: Dictionary?, wake: Dictionary?)
      requires alc.ControllersInRange() && Chosen(hdaCodec, items, codecAt, itemAt, boot, wake)
      ensures LeavesStatus(CodecTable(before, same, boot, wake), items, itemAt, boot, wake)
    {
      hide IsWakeCopy, IsBootCopy, AudioLayout, HasTarget;
      KeysDiffer();
      if boot != null {
        TargetIsItem(items, codecAt, itemAt);
      }
      hide IsTarget;
    }

    lemma TargetIsItem(items: seq<Dictionary?>, codecAt: int, itemAt: int)
      requires alc.ControllersInRange() && IsTarget(items, codecAt, itemAt)
      ensures 0 <= itemAt < |items| && items[itemAt] != null
    {
    }

    /** Puts the copies in place. */
    method Replace(hdaCodec: Service, configDevice: Service, config: Dictionary, appleLayout: u32)
      returns (ghost boot: Dictionary, ghost wake: Dictionary?)
      modifies hdaCodec, configDevice
      ensures fresh(boot) && IsCopied(config.entries, boot, wake, appleLayout)
      ensures wake != null ==> fresh(wake)
      ensures hdaCodec != configDevice ==> configDevice.properties == DeviceTable(old(configDevice.properties), boot)
      ensures var p := old(hdaCodec.properties);
              var q := if hdaCodec == configDevice then p[CONFIGS := Array([boot])] else p;
              hdaCodec.properties == if wake != null then q[CONFIGS := Array([wake])][PIN_STATUS := Flag(true)] else q
    {
      hide IsWakeCopy, HasData;
      var newConfig := new Dictionary.Copy(config);
      newConfig.SetObject("LayoutID", OSNumber(appleLayout));
      configDevice.properties := configDevice.properties[CONFIGS := Array([newConfig])];
      boot, wake := newConfig, null;
      var reinit := false;
      if "WakeVerbReinit" in config.entries && config.entries["WakeVerbReinit"].Bool? {
        reinit := config.entries["WakeVerbReinit"].value;
      }
      if reinit {
        var wakeConfig := CopyForWake(config, newConfig, appleLayout);
        hdaCodec.properties := hdaCodec.properties[CONFIGS := Array([wakeConfig])];
        hdaCodec.properties := hdaCodec.properties[PIN_STATUS := Flag(true)];
        wake := wakeConfig;
      }
    }

    /** A separate copy with the wake data in place of the config data. */
    method CopyForWake(config: Dictionary, boot: Dictionary, ghost appleLayout: u32) returns (wake: Dictionary)
      requires IsBootCopy(config.entries, boot.entries, appleLayout)
      ensures fresh(wake) && IsWakeCopy(boot.entries, wake.entries)
    {
      wake := new Dictionary.Copy(boot);
      if "WakeConfigData" in config.entries && config.entries["WakeConfigData"].Data? {
        if "ConfigData" in config.entries && config.entries["ConfigData"].Data? {
          wake.SetObject("BootConfigData", config.entries["ConfigData"]);
        }
        wake.SetObject("ConfigData", config.entries["WakeConfigData"]);
        wake.RemoveObject("WakeConfigData");
      }
    }

    /** Going to sleep is remembered, and the first change to idle or active after it replays the verbs. */
    method PerformPowerChange(hdaCodec: Service?, to: u32)
      modifies this`originals, hdaCodec
      ensures hdaCodec == null ==> originals == old(originals) + [Call.PerformPowerChange(hdaCodec, to)]
      ensures hdaCodec != null ==>
                var before := PinsOf(old(hdaCodec.properties));
                var after := PinStep(before, Power(to));
                && hdaCodec.properties == (if after.asleep == before.asleep then old(hdaCodec.properties)
                                           else old(hdaCodec.properties)[SLEEP_STATUS := Flag(after.asleep.value)])
                && originals == old(originals) + [Call.PerformPowerChange(hdaCodec, to)]
                                + (if after.replays == 1 then [Call.InitializePinConfig(hdaCodec, hdaCodec, true)]
                                   else [])
    {
      originals := originals + [Call.PerformPowerChange(hdaCodec, to)];
      if hdaCodec != null {
        var properties := hdaCodec.properties;
        if && PIN_STATUS in properties && properties[PIN_STATUS].Flag?
           && SLEEP_STATUS in properties && properties[SLEEP_STATUS].Flag?
           && properties[PIN_STATUS].value
        {
          if to == DEVICE_SLEEP {
            hdaCodec.properties := hdaCodec.properties[SLEEP_STATUS := Flag(true)];
          } else if properties[SLEEP_STATUS].value && (to == DEVICE_IDLE || to == DEVICE_ACTIVE) {
            originals := originals + [Call.InitializePinConfig(hdaCodec, hdaCodec, true)];
            hdaCodec.properties := hdaCodec.properties[SLEEP_STATUS := Flag(false)];
          }
        }
      }
    }
  }

  // ---------------------------------------------------------------- power changes over a run

  /** The two flags of a codec, and how often the wake verbs have been replayed. */
  datatype Pins = Pins(status: Option<bool>, asleep: Option<bool>, replays: nat)

  /** A call of one of the hooks; of the first initialisation it matters whether it made a wake copy. */
  datatype PinEvent = Init(wake: bool) | Power(to: u32)

  function FlagOf(properties: map<string, Property>, key: string): Option<bool> {
    if key in properties && properties[key].Flag? then Some(properties[key].value) else None
  }

  function PinsOf(properties: map<string, Property>): Pins {
    Pins(FlagOf(properties, PIN_STATUS), FlagOf(properties, SLEEP_STATUS), 0)
  }

  function PinStep(p: Pins, e: PinEvent): Pins {
    match e
    case Init(wake) => if p.status.Some? then p else p.(status := Some(wake), asleep := Some(false))
    case Power(to) =>
      if p.status != Some(true) || p.asleep.None? then p
      else if to == DEVICE_SLEEP then p.(asleep := Some(true))
      else if p.asleep.value && IsWakeUp(to) then p.(asleep := Some(false), replays := p.replays + 1)
      else p
  }

  /** The flags that the first call for a codec leaves behind. */
  lemma FirstCallSetsFlags(before: map<string, Property>, same: bool, boot: Dictionary?, wake: Dictionary?)
    requires PIN_STATUS !in before
    ensures PinsOf(CodecTable(before, same, boot, wake)) == PinStep(PinsOf(before), Init(wake != null))
    ensures PIN_STATUS in CodecTable(before, same, boot, wake)
  {
  }

  function PinRun(events: seq<PinEvent>): Pins {
    if events == [] then Pins(None, None, 0) else PinStep(PinRun(events[..|events| - 1]), events[|events| - 1])
  }

  /** What the first initialisation found, if there was one. */
  function FirstInit(events: seq<PinEvent>): Option<bool> {
    if events == [] then None
    else
      var before := FirstInit(events[..|events| - 1]);
      if before.Some? then before
      else match events[|events| - 1] { case Init(wake) => Some(wake) case _ => None }
  }

  /** The power changes after the first initialisation. */
  function PowersAfter(events: seq<PinEvent>): seq<u32> {
    if events == [] then []
    else
      var last := events[|events| - 1];
      PowersAfter(events[..|events| - 1])
      + if last.Power? && FirstInit(events[..|events| - 1]).Some? then [last.to] else []
  }

  /** Idle is 1 and Active is 2. */
  predicate IsWakeUp(to: u32) {
    to == 1 || to == 2
  }

  /** Sleep is 0, and there are no other states. */
  predicate IsPowerState(to: u32) {
    to == 0 || IsWakeUp(to)
  }

  /** Of the changes before i, number k is the last to a known state, and it is Sleep. */
  ghost predicate LastSlept(tos: seq<u32>, k: int, i: int) {
    0 <= k < i <= |tos| && tos[k] == 0 && forall l :: k < l < i ==> !IsPowerState(tos[l])
  }

  ghost predicate AsleepBefore(tos: seq<u32>, i: int) {
    exists k :: LastSlept(tos, k, i)
  }

  /** The changes to Idle or Active whose last known predecessor is Sleep. */
  ghost function WakeUps(tos: seq<u32>): set<int> {
    set i | 0 <= i < |tos| && IsWakeUp(tos[i]) && AsleepBefore(tos, i)
  }

  lemma LastSleptSnoc(tos: seq<u32>, to: u32, k: int, i: int)
    requires 0 <= i <= |tos|
    ensures LastSlept(tos + [to], k, i) <==> LastSlept(tos, k, i)
  {
    assert (tos + [to])[..|tos|] == tos;
    assert forall l :: 0 <= l < i ==> (tos + [to])[l] == tos[l];
  }

  lemma AsleepSnoc(tos: seq<u32>, to: u32)
    ensures AsleepBefore(tos + [to], |tos| + 1) <==>
            to == 0 || (!IsPowerState(to) && AsleepBefore(tos, |tos|))
    ensures forall i :: 0 <= i <= |tos| ==> (AsleepBefore(tos + [to], i) <==> AsleepBefore(tos, i))
  {
    forall i | 0 <= i <= |tos| ensures AsleepBefore(tos + [to], i) <==> AsleepBefore(tos, i) {
      forall k ensures LastSlept(tos + [to], k, i) <==> LastSlept(tos, k, i) {
        LastSleptSnoc(tos, to, k, i);
      }
    }
    if to == 0 {
      assert LastSlept(tos + [to], |tos|, |tos| + 1);
    } else if !IsPowerState(to) && AsleepBefore(tos, |tos|) {
      var k :| LastSlept(tos, k, |tos|);
      assert LastSlept(tos + [to], k, |tos| + 1);
    }
    if AsleepBefore(tos + [to], |tos| + 1) && to != 0 {
      var k :| LastSlept(tos + [to], k, |tos| + 1);
      assert !IsPowerState((tos + [to])[|tos|]);
      assert LastSlept(tos + [to], k, |tos|);
    }
  }

  lemma WakeUpsSnoc(tos: seq<u32>, to: u32)
    ensures WakeUps(tos + [to]) == WakeUps(tos) + if IsWakeUp(to) && AsleepBefore(tos, |tos|) then {|tos|} else {}
    ensures |tos| !in WakeUps(tos)
  {
    AsleepSnoc(tos, to);
  }

  /** Over any calls of the two hooks for one codec: the first initialisation fixes the status; without
      it, or with status false, nothing is replayed and the sleep flag is never true; with status true
      the replays are exactly the wake-ups. */
  lemma {:induction false} ReplaysAreWakeUps(events: seq<PinEvent>)
    ensures var r, tos := PinRun(events), PowersAfter(events);
            match FirstInit(events)
            case None => r == Pins(None, None, 0) && tos == []
            case Some(wake) =>
              && r.status == Some(wake)
              && r.asleep == Some(wake && AsleepBefore(tos, |tos|))
              && r.replays == if wake then |WakeUps(tos)| else 0
  {
    hide WakeUps, AsleepBefore;
    if events != [] {
      var before := events[..|events| - 1];
      ReplaysAreWakeUps(before);
      var tos := PowersAfter(before);
      match events[|events| - 1] {
        case Power(to) =>
          AsleepSnoc(tos, to);
          WakeUpsSnoc(tos, to);
        case Init(_) =>
          assert PowersAfter(events) == tos;
          NothingSlept();
      }
    }
  }

  lemma NothingSlept()
    ensures !AsleepBefore([], 0) && WakeUps([]) == {}
  {
  }

  // ---------------------------------------------------------------- runs of the hooks

  /** A call of a hook for one codec. */
  datatype HookCall = Initialise(config: Service?) | Change(to: u32)

  function Changes(calls: seq<HookCall>): seq<u32> {
    if calls == [] then []
    else
      var last := calls[|calls| - 1];
      Changes(calls[..|calls| - 1]) + if last.Change? then [last.to] else []
  }

  function Devices(calls: seq<HookCall>): set<Service> {
    set c | c in calls && c.Initialise? && c.config != null :: c.config
  }

  /** The number of calls of the original initialisation that a power change has forced, for one codec, or
      for all of them if it is null. */
  function Forced(log: seq<Call>, codec: Service?): nat {
    if log == [] then 0
    else Forced(log[..|log| - 1], codec) + if IsForced(log[|log| - 1], codec) then 1 else 0
  }

  predicate IsForced(c: Call, codec: Service?) {
    c.InitializePinConfig? && c.forced && (codec == null || c.codec == codec)
  }

  lemma ForcedSnoc(log: seq<Call>, c: Call, codec: Service?)
    ensures Forced(log + [c], codec) == Forced(log, codec) + if IsForced(c, codec) then 1 else 0
  {
    assert (log + [c])[..|log|] == log;
  }

  lemma ForcedByChange(log: seq<Call>, changed: Service, to: u32, replay: bool, codec: Service?)
    ensures Forced(log + [Call.PerformPowerChange(changed, to)]
                   + (if replay then [Call.InitializePinConfig(changed, changed, true)] else []), codec) ==
            Forced(log, codec) + if replay && (codec == null || codec == changed) then 1 else 0
  {
    hide Forced;
    var change := Call.PerformPowerChange(changed, to);
    ForcedSnoc(log, change, codec);
    ForcedSnoc(log + [change], Call.InitializePinConfig(changed, changed, true), codec);
    assert log + [change] + [] == log + [change];
  }

  /** One power change of a codec that has been initialised, after the changes tos. */
  lemma OneMoreChange(pin: bool, tos: seq<u32>, to: u32)
    ensures var p := PinStep(Pins(Some(pin), Some(pin && AsleepBefore(tos, |tos|)), 0), Power(to));
            && p.status == Some(pin)
            && p.asleep == Some(pin && AsleepBefore(tos + [to], |tos| + 1))
            && p.replays <= 1
            && (if pin then |WakeUps(tos + [to])| else 0) == (if pin then |WakeUps(tos)| else 0) + p.replays
  {
    hide AsleepBefore, WakeUps;
    AsleepSnoc(tos, to);
    WakeUpsSnoc(tos, to);
  }

  /** Any calls for one codec after its first initialisation: no property table changes but for the sleep
      flag, and the original initialisation is forced exactly at the wake-ups, if the status is true. */
  method LaterCalls(hooks: PinHooks, hda: Service, calls: seq<HookCall>)
    requires hooks.alc.ControllersInRange()
    requires FlagOf(hda.properties, PIN_STATUS).Some? && FlagOf(hda.properties, SLEEP_STATUS) == Some(false)
    modifies hooks`originals, hda, Devices(calls)
    ensures forall d :: d in Devices(calls) && d != hda ==> d.properties == old(d.properties)
    ensures var pin, tos := FlagOf(old(hda.properties), PIN_STATUS).value, Changes(calls);
            && hda.properties == old(hda.properties)[SLEEP_STATUS := Flag(pin && AsleepBefore(tos, |tos|))]
            && Forced(hooks.originals, null) == Forced(old(hooks.originals), null) + if pin then |WakeUps(tos)| else 0
  {
    hide AsleepBefore, WakeUps, Forced;
    ghost var pin := FlagOf(hda.properties, PIN_STATUS).value;
    NothingSlept();
    KeysDiffer();
    for i := 0 to |calls|
      invariant hooks.alc.ControllersInRange()
      invariant forall d :: d in Devices(calls) && d != hda ==> d.properties == old(d.properties)
      invariant var tos := Changes(calls[..i]);
                && hda.properties == old(hda.properties)[SLEEP_STATUS := Flag(pin && AsleepBefore(tos, |tos|))]
                && Forced(hooks.originals, null)
                   == Forced(old(hooks.originals), null) + if pin then |WakeUps(tos)| else 0
    {
      assert calls[..i + 1][..i] == calls[..i];
      ghost var tos := Changes(calls[..i]);
      ghost var log := hooks.originals;
      match calls[i] {
        case Initialise(config) =>
          var _, _, _, _ := hooks.InitializePinConfig(hda, config);
          ForcedSnoc(log, Call.InitializePinConfig(hda, config, false), null);
          assert Changes(calls[..i + 1]) == tos;
        case Change(to) =>
          OneMoreChange(pin, tos, to);
          hooks.PerformPowerChange(hda, to);
          ghost var before := Pins(Some(pin), Some(pin && AsleepBefore(tos, |tos|)), 0);
          ForcedByChange(log, hda, to, PinStep(before, Power(to)).replays == 1, null);
      }
    }
    assert calls[..|calls|] == calls;
  }

  /** No call initialises the codec, for lack of a config device. */
  ghost predicate AreEarly(calls: seq<HookCall>) {
    forall c :: c in calls && c.Initialise? ==> c.config == null
  }

  /** Calls for a codec before its first initialisation change no property table and force nothing. */
  method EarlyCalls(hooks: PinHooks, hda: Service, calls: seq<HookCall>)
    requires hooks.alc.ControllersInRange() && PIN_STATUS !in hda.properties && AreEarly(calls)
    modifies hooks`originals, hda
    ensures hda.properties == old(hda.properties) && Forced(hooks.originals, null) == Forced(old(hooks.originals), null)
  {
    hide Forced;
    for i := 0 to |calls|
      invariant hooks.alc.ControllersInRange()
      invariant hda.properties == old(hda.properties)
      invariant Forced(hooks.originals, null) == Forced(old(hooks.originals), null)
    {
      ghost var log := hooks.originals;
      match calls[i] {
        case Initialise(config) =>
          var _, _, _, _ := hooks.InitializePinConfig(hda, config);
          ForcedSnoc(log, Call.InitializePinConfig(hda, config, false), null);
        case Change(to) =>
          hooks.PerformPowerChange(hda, to);
          ForcedByChange(log, hda, to, false, null);
      }
    }
  }

  /** The calls up to the first initialisation, and that. */
  method FirstCalls(hooks: PinHooks, hda: Service, early: seq<HookCall>, device: Service)
    returns (ghost codecAt: int, ghost itemAt: int, ghost boot: Dictionary?, ghost wake: Dictionary?)
    requires hooks.alc.ControllersInRange() && PIN_STATUS !in hda.properties && AreEarly(early)
    modifies hooks`originals, hda, device
    ensures hda.properties == CodecTable(old(hda.properties), hda == device, boot, wake)
    ensures PinsOf(hda.properties) == Pins(Some(wake != null), Some(false), 0)
    ensures Forced(hooks.originals, null) == Forced(old(hooks.originals), null)
    ensures device != hda ==> device.properties == DeviceTable(old(device.properties), boot)
    ensures (boot != null ==> fresh(boot)) && (wake != null ==> fresh(wake) && boot != null)
    ensures hooks.Chosen(hda, Configs(old(device.properties)), codecAt, itemAt, boot, wake)
  {
    hide Forced, CodecTable;
    EarlyCalls(hooks, hda, early);
    ghost var log := hooks.originals;
    codecAt, itemAt, boot, wake := hooks.InitializePinConfig(hda, device);
    ForcedSnoc(log, Call.InitializePinConfig(hda, device, false), null);
    FirstCallSetsFlags(old(hda.properties), hda == device, boot, wake);
  }

  /** The whole life of a codec: its calls before the first initialisation, that initialisation, and any
      calls for it afterwards. At the end both config lists are as the first initialisation left them, and the original
      initialisation has been forced exactly at the wake-ups since then, if there is a wake copy. */
  method WholeRun(hooks: PinHooks, hda: Service, early: seq<HookCall>, device: Service, later: seq<HookCall>)
    returns (ghost codecAt: int, ghost itemAt: int, ghost boot: Dictionary?, ghost wake: Dictionary?)
    requires hooks.alc.ControllersInRange() && PIN_STATUS !in hda.properties && AreEarly(early)
    modifies hooks`originals, hda, device, Devices(later)
    ensures var tos := Changes(later);
            && hda.properties == CodecTable(old(hda.properties), hda == device, boot, wake)
                                 [SLEEP_STATUS := Flag(wake != null && AsleepBefore(tos, |tos|))]
            && Forced(hooks.originals, null)
               == Forced(old(hooks.originals), null) + if wake != null then |WakeUps(tos)| else 0
    ensures device != hda ==> device.properties == DeviceTable(old(device.properties), boot)
    ensures forall d :: d in Devices(later) && d != hda && d != device ==> d.properties == old(d.properties)
    ensures (boot != null ==> fresh(boot)) && (wake != null ==> fresh(wake) && boot != null)
    ensures hooks.Chosen(hda, Configs(old(device.properties)), codecAt, itemAt, boot, wake)
  {
    hide AsleepBefore, WakeUps, Forced, CodecTable, DeviceTable, Changes;
    ghost var items := Configs(device.properties);
    codecAt, itemAt, boot, wake := FirstCalls(hooks, hda, early, device);
    LaterCalls(hooks, hda, later);
    assert forall d: object :: d in Dictionaries(items) || d == hooks.alc || d == boot || d == wake ==>
             d != hda && d != device && d != hooks && d !in Devices(later);
  }
}

/** The pin configuration hooks when several codecs are at work. Whether a call is the first one is a
    property of the codec, so codecs that share a config device can rewrite its list one after another;
    the power changes of each codec are its own. */
module PinCodecs {
  import opened AlcState
  import opened Values
  import opened PinConfig
  import AlcEnabler

  // ---------------------------------------------------------------- codecs that share a device

  /** The layout of the analog codec's controller. */
  ghost predicate IsAnalogLayout(hooks: PinHooks, layout: u32)
    requires hooks.alc.ControllersInRange()
    reads hooks.alc
  {
    exists i :: hooks.IsAnalog(i) && hooks.alc.controllers[hooks.alc.codecs[i].controller].layout == layout
  }

  /** A boot copy can be a target again exactly if it has got the layout that targets have. */
  lemma CopyIsTargetIff(hooks: PinHooks, items: seq<Dictionary?>, codecAt: int, itemAt: int,
                        boot: Dictionary, layout: u32)
    requires hooks.alc.ControllersInRange() && hooks.IsTarget(items, codecAt, itemAt)
    requires IsBootCopy(items[itemAt].entries, boot.entries, layout)
    ensures hooks.HasTarget([boot]) <==> IsAnalogLayout(hooks, layout)
    ensures forall i, n :: hooks.IsTarget([boot], i, n) ==> i == codecAt && n == 0
  {
    var c := hooks.alc.codecs[codecAt];
    if hooks.HasTarget([boot]) {
      var i, n :| hooks.IsTarget([boot], i, n);
      assert hooks.IsAnalog(i) && hooks.IsAnalog(codecAt);
    }
    if IsAnalogLayout(hooks, layout) {
      var i :| hooks.IsAnalog(i) && hooks.alc.controllers[hooks.alc.codecs[i].controller].layout == layout;
      assert i == codecAt;
      assert hooks.IsTarget([boot], codecAt, 0);
    }
  }

  /** The first call for a codec, as seen from a separate device. */
  method FirstCallFor(hooks: PinHooks, c: Service, device: Service)
    returns (ghost itemAt: int, ghost boot: Dictionary?)
    requires hooks.alc.ControllersInRange() && c != device && PIN_STATUS !in c.properties
    modifies hooks`originals, c, device
    ensures boot != null <==> AudioLayout(c.ancestors) != 0 && old(hooks.HasTarget(Configs(device.properties)))
    ensures device.properties == DeviceTable(old(device.properties), boot)
    ensures boot == null ==>
              (hooks.HasTarget(Configs(device.properties)) <==> old(hooks.HasTarget(Configs(device.properties))))
    ensures boot != null ==>
              && fresh(boot) && boot !in Configs(old(device.properties)) && Configs(device.properties) == [boot]
              && (hooks.HasTarget([boot]) <==> IsAnalogLayout(hooks, AudioLayout(c.ancestors)))
    ensures boot != null ==>
              var items := Configs(old(device.properties));
              && 0 <= itemAt < |items| && items[itemAt] != null
              && (exists i :: hooks.IsTarget(items, i, itemAt))
              && IsBootCopy(items[itemAt].entries, boot.entries, AudioLayout(c.ancestors))
  {
    ghost var items := Configs(device.properties);
    ghost var had := hooks.HasTarget(items);
    ghost var codecAt, wake;
    codecAt, itemAt, boot, wake := hooks.InitializePinConfig(c, device);
    assert forall d: object :: d in Dictionaries(items) || d == hooks.alc || d == boot ==>
             d != hooks && d != c && d != device;
    assert had <==> hooks.HasTarget(items);
    if boot != null {
      CopyIsTargetIff(hooks, items, codecAt, itemAt, boot, AudioLayout(c.ancestors));
    }
  }

  /** Two codecs and one device whose list has a target for the first: the second codec rewrites the list
      again if and only if it has an audio layout, and the first one's is the layout that targets have. */
  method SecondCodec(hooks: PinHooks, a: Service, b: Service, device: Service)
    returns (between: map<string, Property>)
    requires hooks.alc.ControllersInRange() && a != b && a != device && b != device
    requires PIN_STATUS !in a.properties && PIN_STATUS !in b.properties
    requires AudioLayout(a.ancestors) != 0 && hooks.HasTarget(Configs(device.properties))
    modifies hooks`originals, a, b, device
    ensures between != old(device.properties)
    ensures device.properties != between <==>
            AudioLayout(b.ancestors) != 0 && IsAnalogLayout(hooks, AudioLayout(a.ancestors))
  {
    hide PinHooks.IsTarget, PinHooks.HasTarget, IsBootCopy;
    var _, _ := FirstCallFor(hooks, a, device);
    between := device.properties;
    var _, boot := FirstCallFor(hooks, b, device);
    assert boot != null ==> Configs(device.properties) == [boot] && boot !in Configs(between);
  }

  lemma LastIsTarget(hooks: PinHooks, last: Dictionary, n: int)
    requires hooks.alc.ControllersInRange() && exists i :: hooks.IsTarget([last], i, n)
    ensures n == 0
  {
  }

  lemma CopyOfCopy(config: Entries, boot: Entries, layout: u32, boot': Entries, layout': u32)
    requires IsBootCopy(config, boot, layout) && IsBootCopy(boot, boot', layout')
    ensures IsBootCopy(config, boot', layout')
  {
  }

  /** The layout that targets have, if there is an analog codec. */
  ghost predicate TargetLayout(hooks: PinHooks, layout: Option<u32>)
    requires hooks.alc.ControllersInRange()
    reads hooks.alc
  {
    forall l: u32 :: IsAnalogLayout(hooks, l) <==> layout == Some(l)
  }

  lemma FindTargetLayout(hooks: PinHooks) returns (layout: Option<u32>)
    requires hooks.alc.ControllersInRange()
    ensures TargetLayout(hooks, layout)
  {
    if i :| hooks.IsAnalog(i) {
      layout := Some(hooks.alc.controllers[hooks.alc.codecs[i].controller].layout);
      forall l: u32 ensures IsAnalogLayout(hooks, l) <==> layout == Some(l) {
        if IsAnalogLayout(hooks, l) {
          var k :| hooks.IsAnalog(k) && hooks.alc.controllers[hooks.alc.codecs[k].controller].layout == l;
          assert k == i;
        }
      }
    } else {
      layout := None;
    }
  }

  /** All earlier codecs that have an audio layout have this one. */
  ghost predicate Open(codecs: seq<Service>, layout: Option<u32>, k: nat)
    requires k <= |codecs|
  {
    forall j :: 0 <= j < k && AudioLayout(codecs[j].ancestors) != 0 ==> layout == Some(AudioLayout(codecs[j].ancestors))
  }

  lemma OpenStep(codecs: seq<Service>, layout: Option<u32>, k: nat)
    requires k < |codecs|
    ensures var own := AudioLayout(codecs[k].ancestors);
            Open(codecs, layout, k + 1) <==> Open(codecs, layout, k) && (own == 0 || layout == Some(own))
  {
    hide AudioLayout;
  }

  ghost predicate Differ(tables: seq<map<string, Property>>, k: int)
    requires 0 <= k < |tables| - 1
  {
    tables[k + 1] != tables[k]
  }

  /** Which of the first k calls have rewritten the list. */
  ghost predicate RewrittenBy(codecs: seq<Service>, layout: Option<u32>, had: bool,
                              tables: seq<map<string, Property>>, k: nat)
    requires k <= |codecs| && |tables| == k + 1
  {
    forall i :: 0 <= i < k ==>
      (Differ(tables, i) <==> AudioLayout(codecs[i].ancestors) != 0 && had && Open(codecs, layout, i))
  }

  lemma RewrittenByStep(codecs: seq<Service>, layout: Option<u32>, had: bool,
                        tables: seq<map<string, Property>>, table: map<string, Property>, k: nat)
    requires k < |codecs| && |tables| == k + 1 && RewrittenBy(codecs, layout, had, tables, k)
    requires table != tables[k] <==> AudioLayout(codecs[k].ancestors) != 0 && had && Open(codecs, layout, k)
    ensures RewrittenBy(codecs, layout, had, tables + [table], k + 1)
    ensures forall i :: 0 <= i < k ==> (Differ(tables + [table], i) <==> Differ(tables, i))
    ensures Differ(tables + [table], k) <==> table != tables[k]
  {
    hide AudioLayout, Open;
  }

  /** Call `at` has rewritten the list, and no later one of the first k. */
  ghost predicate LastRewrite(tables: seq<map<string, Property>>, at: int, k: nat)
    requires |tables| == k + 1
  {
    0 <= at < k && Differ(tables, at) && forall i :: at < i < k ==> !Differ(tables, i)
  }

  ghost predicate NoRewrite(tables: seq<map<string, Property>>, k: nat)
    requires |tables| == k + 1
  {
    forall i :: 0 <= i < k ==> !Differ(tables, i)
  }

  lemma LastRewriteStep(tables: seq<map<string, Property>>, table: map<string, Property>, at: int, k: nat)
    requires |tables| == k + 1
    ensures table != tables[k] ==> LastRewrite(tables + [table], k, k + 1)
    ensures table == tables[k] && LastRewrite(tables, at, k) ==> LastRewrite(tables + [table], at, k + 1)
    ensures table == tables[k] && NoRewrite(tables, k) ==> NoRewrite(tables + [table], k + 1)
  {
    assert forall i :: 0 <= i < k ==> (Differ(tables + [table], i) <==> Differ(tables, i));
  }

  /** The device's list is the original one, or a single copy of its target under the layout id of the codec
      that rewrote it last. */
  ghost predicate ListIs(hooks: PinHooks, codecs: seq<Service>, before: map<string, Property>,
                         now: map<string, Property>, last: Dictionary?, at: int, itemAt: int)
    requires hooks.alc.ControllersInRange()
    reads hooks.alc, last, Dictionaries(Configs(before))
  {
    var items := Configs(before);
    && now == DeviceTable(before, last)
    && (last != null ==>
          && 0 <= at < |codecs| && 0 <= itemAt < |items| && items[itemAt] != null
          && (exists i :: hooks.IsTarget(items, i, itemAt))
          && IsBootCopy(items[itemAt].entries, last.entries, AudioLayout(codecs[at].ancestors)))
  }

  /** The first call for codec k. */
  method NextFirstCall(hooks: PinHooks, codecs: seq<Service>, k: nat, device: Service,
                       ghost before: map<string, Property>, ghost last: Dictionary?, ghost at: int, ghost itemAt: int)
    returns (ghost last': Dictionary?, ghost at': int, ghost itemAt': int)
    requires hooks.alc.ControllersInRange() && k < |codecs|
    requires codecs[k] != device && PIN_STATUS !in codecs[k].properties
    requires ListIs(hooks, codecs, before, device.properties, last, at, itemAt)
    modifies hooks`originals, device, codecs[k]
    ensures ListIs(hooks, codecs, before, device.properties, last', at', itemAt')
    ensures last' == last || fresh(last')
    ensures var own := AudioLayout(codecs[k].ancestors);
            if own != 0 && old(hooks.HasTarget(Configs(device.properties)))
            then && device.properties != old(device.properties) && last' != null && at' == k
                 && (hooks.HasTarget(Configs(device.properties)) <==> IsAnalogLayout(hooks, own))
            else && device.properties == old(device.properties) && last' == last && at' == at
                 && (hooks.HasTarget(Configs(device.properties)) <==> old(hooks.HasTarget(Configs(device.properties))))
  {
    hide PinHooks.HasTarget, IsBootCopy, AudioLayout;
    last', at', itemAt' := last, at, itemAt;
    ghost var items := Configs(before);
    ghost var current := Configs(device.properties);
    ghost var i := 0;
    if last != null {
      i :| hooks.IsTarget(items, i, itemAt);
    }
    ghost var n, boot := FirstCallFor(hooks, codecs[k], device);
    assert forall d: object :: d in Dictionaries(items) || d == hooks.alc || d == last ==>
             d != hooks && d != device && d != codecs[k];
    if boot != null {
      assert boot !in current && Configs(device.properties) == [boot];
      assert device.properties == DeviceTable(before, boot);
      if last == null {
        assert current == items;
        itemAt' := n;
      } else {
        assert hooks.IsTarget(items, i, itemAt);
        LastIsTarget(hooks, last, n);
        CopyOfCopy(items[itemAt].entries, last.entries, AudioLayout(codecs[at].ancestors),
                   boot.entries, AudioLayout(codecs[k].ancestors));
      }
      last', at' := boot, k;
      assert IsBootCopy(items[itemAt'].entries, boot.entries, AudioLayout(codecs[k].ancestors));
    }
  }

  /** The first calls for any number of codecs with one device. The call for codec k rewrites the device's
      list if and only if the codec has an audio layout, the original list has a target, and all earlier
      codecs that have an audio layout have the one that targets have. In the end the list is the original
      one, or a single copy of its target under the layout id of the last codec that rewrote it. */
  method FirstCallsFor(hooks: PinHooks, codecs: seq<Service>, device: Service)
    returns (ghost tables: seq<map<string, Property>>, ghost layout: Option<u32>,
             ghost last: Dictionary?, ghost at: int, ghost itemAt: int)
    requires hooks.alc.ControllersInRange() && device !in codecs
    requires forall i, j :: 0 <= i < j < |codecs| ==> codecs[i] != codecs[j]
    requires forall i :: 0 <= i < |codecs| ==> PIN_STATUS !in codecs[i].properties
    modifies hooks`originals, device, set c | c in codecs
    ensures |tables| == |codecs| + 1 && tables[0] == old(device.properties) && tables[|codecs|] == device.properties
    ensures TargetLayout(hooks, layout)
    ensures RewrittenBy(codecs, layout, old(hooks.HasTarget(Configs(device.properties))), tables, |codecs|)
    ensures ListIs(hooks, codecs, old(device.properties), device.properties, last, at, itemAt)
    ensures last != null ==> fresh(last)
    ensures if last == null then NoRewrite(tables, |codecs|) else LastRewrite(tables, at, |codecs|)
  {
    hide PinHooks.HasTarget, ListIs, Open, RewrittenBy, LastRewrite, NoRewrite, AudioLayout, IsAnalogLayout;
    ghost var before := device.properties;
    ghost var had := hooks.HasTarget(Configs(before));
    tables, last, at, itemAt := [before], null, 0, 0;
    layout := FindTargetLayout(hooks);
    NothingRewritten(codecs, layout, had, tables);
    NothingInPlace(hooks, codecs, before);
    for k := 0 to |codecs|
      invariant hooks.alc.ControllersInRange() && TargetLayout(hooks, layout)
      invariant forall i :: k <= i < |codecs| ==> PIN_STATUS !in codecs[i].properties
      invariant |tables| == k + 1 && tables[0] == before && tables[k] == device.properties
      invariant RewrittenBy(codecs, layout, had, tables, k)
      invariant ListIs(hooks, codecs, before, device.properties, last, at, itemAt) && (last != null ==> fresh(last))
      invariant hooks.HasTarget(Configs(device.properties)) <==> had && Open(codecs, layout, k)
      invariant if last == null then NoRewrite(tables, k) else LastRewrite(tables, at, k)
    {
      ghost var oldAt := at;
      last, at, itemAt := NextFirstCall(hooks, codecs, k, device, before, last, at, itemAt);
      OpenStep(codecs, layout, k);
      RewrittenByStep(codecs, layout, had, tables, device.properties, k);
      LastRewriteStep(tables, device.properties, oldAt, k);
      tables := tables + [device.properties];
    }
  }

  lemma NothingInPlace(hooks: PinHooks, codecs: seq<Service>, before: map<string, Property>)
    requires hooks.alc.ControllersInRange()
    ensures ListIs(hooks, codecs, before, before, null, 0, 0)
  {
  }

  lemma NothingRewritten(codecs: seq<Service>, layout: Option<u32>, had: bool, tables: seq<map<string, Property>>)
    requires |tables| == 1
    ensures Open(codecs, layout, 0) && RewrittenBy(codecs, layout, had, tables, 0) && NoRewrite(tables, 0)
  {
  }

  /** An input: two codecs below HDEF with layout id 7, and one config entry for the analog codec 10EC0892
      and layout 7. The second codec's call replaces the list that the first one's has put in place. */
  method TwoCodecsOneDevice()
    returns (before: map<string, Property>, between: map<string, Property>, after: map<string, Property>)
    ensures before != between && between != after
  {
    var hooks := OneAnalogCodec();
    var up := [Ancestor(Some("HDEF"), Some(7))];
    var a := new Service(up, map[]);
    var b := new Service(up, map[]);
    var config := new Dictionary(map["CodecID" := OSNumber(0x10EC0892), "LayoutID" := OSNumber(7)]);
    var device := new Service([], map[CONFIGS := Array([config])]);
    before := device.properties;
    EntryIsTarget(hooks, config);
    hide PinHooks.IsTarget, PinHooks.HasTarget, PinHooks.IsAnalog, IsAnalogLayout;
    between := SecondCodec(hooks, a, b, device);
    after := device.properties;
  }

  /** An input with WakeVerbReinit true, and one with it false: the same entry with config data 1 and wake data
      2, a codec below an HDAU with layout id 28, and changes to Sleep, to an unknown state, to Idle, to Sleep,
      and twice to Active. Only with true there is a wake copy and the verbs are replayed, twice. */
  method WakeVerbs(reinit: bool) returns (hooks: PinHooks, codec: Service, device: Service)
    ensures Forced(hooks.originals, codec) == if reinit then 2 else 0
    ensures "alc-pinconfig-status" in codec.properties && codec.properties["alc-pinconfig-status"] == Flag(reinit)
    ensures HoldsEntry(device.properties, ConfigEntry(28, reinit))
    ensures reinit ==> HoldsEntry(codec.properties, map["CodecID" := OSNumber(0x10EC0892), "LayoutID" := OSNumber(28),
                                                        "WakeVerbReinit" := Bool(true), "ConfigData" := Data([2]),
                                                        "BootConfigData" := Data([1])])
  {
    hooks, codec, device := FirstCallWith(reinit);
    ghost var properties := codec.properties;
    SleepAndWake(hooks, codec, reinit);
    assert properties - {SLEEP_STATUS} == codec.properties - {SLEEP_STATUS};
    assert SLEEP_STATUS != "HDAConfigDefault" && SLEEP_STATUS != "alc-pinconfig-status" by { KeysDiffer(); }
    assert "HDAConfigDefault" in properties ==> "HDAConfigDefault" in codec.properties - {SLEEP_STATUS};
    assert "alc-pinconfig-status" in codec.properties - {SLEEP_STATUS};
  }

  /** A config entry for the codec 10EC0892. */
  function ConfigEntry(layout: u32, reinit: bool): Entries {
    map["CodecID" := OSNumber(0x10EC0892), "LayoutID" := OSNumber(layout), "WakeVerbReinit" := Bool(reinit),
        "ConfigData" := Data([1]), "WakeConfigData" := Data([2])]
  }

  method FirstCallWith(reinit: bool) returns (hooks: PinHooks, codec: Service, device: Service)
    ensures fresh(hooks) && fresh(codec) && fresh(device) && codec != device
    ensures Forced(hooks.originals, codec) == 0
    ensures FlagOf(codec.properties, PIN_STATUS) == Some(reinit)
    ensures FlagOf(codec.properties, SLEEP_STATUS) == Some(false)
    ensures "alc-pinconfig-status" in codec.properties && codec.properties["alc-pinconfig-status"] == Flag(reinit)
    ensures HoldsEntry(device.properties, ConfigEntry(28, reinit))
    ensures reinit ==> HoldsEntry(codec.properties, map["CodecID" := OSNumber(0x10EC0892), "LayoutID" := OSNumber(28),
                                                        "WakeVerbReinit" := Bool(true), "ConfigData" := Data([2]),
                                                        "BootConfigData" := Data([1])])
  {
    hooks := OneAnalogCodec();
    var up := [Ancestor(Some("codec"), Some(3)), Ancestor(None, None), Ancestor(Some("HDAU"), Some(28))];
    codec := new Service(up, map[]);
    var config := new Dictionary(ConfigEntry(7, reinit));
    device := new Service([], map["HDAConfigDefault" := Array([config])]);
    EntryIsTarget(hooks, config);
    LayoutOfTheNearest(up, 2);
    FirstCallOf(hooks, codec, device, config, reinit);
  }

  method FirstCallOf(hooks: PinHooks, codec: Service, device: Service, config: Dictionary, ghost reinit: bool)
    requires hooks.alc.ControllersInRange() && hooks.HasTarget([config]) && hooks.originals == []
    requires codec != device && codec.properties == map[] && AudioLayout(codec.ancestors) == 28
    requires device.properties == map["HDAConfigDefault" := Array([config])] && config.entries == ConfigEntry(7, reinit)
    modifies hooks`originals, codec, device
    ensures Forced(hooks.originals, codec) == 0
    ensures FlagOf(codec.properties, PIN_STATUS) == Some(reinit)
    ensures FlagOf(codec.properties, SLEEP_STATUS) == Some(false)
    ensures "alc-pinconfig-status" in codec.properties && codec.properties["alc-pinconfig-status"] == Flag(reinit)
    ensures HoldsEntry(device.properties, ConfigEntry(28, reinit))
    ensures reinit ==> HoldsEntry(codec.properties, map["CodecID" := OSNumber(0x10EC0892), "LayoutID" := OSNumber(28),
                                                        "WakeVerbReinit" := Bool(true), "ConfigData" := Data([2]),
                                                        "BootConfigData" := Data([1])])
  {
    hide PinHooks.IsTarget, PinHooks.HasTarget, IsWakeCopy;
    assert Configs(device.properties) == [config];
    ghost var codecAt, itemAt, boot, wake := hooks.InitializePinConfig(codec, device);
    assert forall d: object :: d in Dictionaries([config]) || d == hooks.alc ==>
                                 d != hooks && d != codec && d != device;
    assert hooks.HasTarget([config]);
    assert boot != null;
    if reinit {
      WakeEntry(boot.entries, wake.entries);
    }
  }

  /** The wake copy of the entry. */
  lemma WakeEntry(boot: Entries, wake: Entries)
    requires boot == ConfigEntry(28, true) && IsWakeCopy(boot, wake)
    ensures wake == map["CodecID" := OSNumber(0x10EC0892), "LayoutID" := OSNumber(28),
                        "WakeVerbReinit" := Bool(true), "ConfigData" := Data([2]), "BootConfigData" := Data([1])]
  {
    var all := map["CodecID" := OSNumber(0x10EC0892), "LayoutID" := OSNumber(28),
                   "WakeVerbReinit" := Bool(true), "ConfigData" := Data([2]), "BootConfigData" := Data([1])];
    forall key ensures key in wake <==> key in all {
      assert Untouched(boot, key) || key == "ConfigData" || key == "WakeConfigData" || key == "BootConfigData";
    }
    forall key | key in all ensures wake[key] == all[key] {
      assert Untouched(boot, key) || key == "ConfigData" || key == "BootConfigData";
    }
  }

  /** To Sleep, to an unknown state, to Idle, to Sleep, and twice to Active. */
  method SleepAndWake(hooks: PinHooks, codec: Service, ghost pin: bool)
    requires FlagOf(codec.properties, PIN_STATUS) == Some(pin) && FlagOf(codec.properties, SLEEP_STATUS) == Some(false)
    modifies hooks`originals, codec
    ensures codec.properties - {SLEEP_STATUS} == old(codec.properties) - {SLEEP_STATUS}
    ensures Forced(hooks.originals, codec) == Forced(old(hooks.originals), codec) + if pin then 2 else 0
  {
    hide Forced;
    ChangeOnce(hooks, codec, 0, pin, false);
    ChangeOnce(hooks, codec, 3, pin, pin);
    ChangeOnce(hooks, codec, 1, pin, pin);
    ChangeOnce(hooks, codec, 0, pin, false);
    ChangeOnce(hooks, codec, 2, pin, pin);
    ChangeOnce(hooks, codec, 2, pin, false);
  }

  method ChangeOnce(hooks: PinHooks, codec: Service, to: u32, ghost pin: bool, ghost asleep: bool)
    requires FlagOf(codec.properties, PIN_STATUS) == Some(pin) && FlagOf(codec.properties, SLEEP_STATUS) == Some(asleep)
    modifies hooks`originals, codec
    ensures var p := PinStep(Pins(Some(pin), Some(asleep), 0), Power(to));
            && p.asleep.Some? && FlagOf(codec.properties, SLEEP_STATUS) == p.asleep
            && FlagOf(codec.properties, PIN_STATUS) == Some(pin)
            && codec.properties - {SLEEP_STATUS} == old(codec.properties) - {SLEEP_STATUS}
            && Forced(hooks.originals, codec) == Forced(old(hooks.originals), codec) + p.replays
  {
    hide Forced;
    KeysDiffer();
    ghost var log, before := hooks.originals, PinsOf(codec.properties);
    hooks.PerformPowerChange(codec, to);
    ForcedByChange(log, codec, to, PinStep(before, Power(to)).replays == 1, codec);
  }

  /** The config list is one dictionary with these entries. */
  ghost predicate HoldsEntry(properties: map<string, Property>, entries: Entries)
    reads Dictionaries(Configs(properties))
  {
    "HDAConfigDefault" in properties
    && match properties["HDAConfigDefault"] {
         case Array(items) => |items| == 1 && items[0] != null && items[0].entries == entries
         case _ => false
       }
  }

  /** Hooks whose only codec is the analog codec 10EC0892, with layout 7. */
  method OneAnalogCodec() returns (hooks: PinHooks)
    ensures fresh(hooks) && fresh(hooks.alc) && hooks.originals == []
    ensures HasCodec(hooks)
  {
    var tables := Tables([], [], false, (lo: u32, hi: u32) => true, 0, 0, 0, 0);
    var alc := new AlcEnabler.AlcEnabler(tables, []);
    alc.controllers := [ControllerInfo(None, true, INTEL, 0xA170, 0, PLATFORM_ANY, 7, false)];
    alc.codecs := [CodecInfo(None, 0, 0x10EC, 0x0892, 0)];
    hooks := new PinHooks(alc);
  }

  ghost predicate HasCodec(hooks: PinHooks)
    reads hooks.alc
  {
    && hooks.alc.controllers == [ControllerInfo(None, true, INTEL, 0xA170, 0, PLATFORM_ANY, 7, false)]
    && hooks.alc.codecs == [CodecInfo(None, 0, 0x10EC, 0x0892, 0)]
  }

  lemma EntryIsTarget(hooks: PinHooks, config: Dictionary)
    requires HasCodec(hooks)
    requires "CodecID" in config.entries && config.entries["CodecID"] == OSNumber(0x10EC0892)
    requires "LayoutID" in config.entries && config.entries["LayoutID"] == OSNumber(7)
    ensures hooks.alc.ControllersInRange() && hooks.HasTarget([config]) && IsAnalogLayout(hooks, 7)
  {
    assert hooks.IsAnalog(0);
    assert hooks.IsTarget([config], 0, 0);
  }

  // ---------------------------------------------------------------- one codec among others

  /** The power changes of one codec. */
  function ChangesOf(calls: seq<(Service, HookCall)>, codec: Service): seq<u32> {
    if calls == [] then []
    else
      var (c, call) := calls[|calls| - 1];
      ChangesOf(calls[..|calls| - 1], codec) + if c == codec && call.Change? then [call.to] else []
  }

  function Objects(calls: seq<(Service, HookCall)>): set<Service> {
    (set c | c in calls :: c.0)
    + (set c | c in calls && c.1.Initialise? && c.1.config != null :: c.1.config)
  }

  /** A first call for another codec may use this one as its config device; the flags stay. */
  lemma DeviceTableKeepsFlags(before: map<string, Property>, boot: Dictionary?)
    ensures FlagOf(DeviceTable(before, boot), PIN_STATUS) == FlagOf(before, PIN_STATUS)
    ensures FlagOf(DeviceTable(before, boot), SLEEP_STATUS) == FlagOf(before, SLEEP_STATUS)
  {
    KeysDiffer();
  }

  /** Any calls for any codecs and devices, after the first initialisation of one codec: its status stays,
      and it is put to sleep, and its original initialisation forced, by its own power changes alone. */
  method CallsForAll(hooks: PinHooks, hda: Service, calls: seq<(Service, HookCall)>)
    requires hooks.alc.ControllersInRange()
    requires FlagOf(hda.properties, PIN_STATUS).Some? && FlagOf(hda.properties, SLEEP_STATUS) == Some(false)
    modifies hooks`originals, Objects(calls)
    ensures var pin, tos := FlagOf(old(hda.properties), PIN_STATUS).value, ChangesOf(calls, hda);
            && FlagOf(hda.properties, PIN_STATUS) == Some(pin)
            && FlagOf(hda.properties, SLEEP_STATUS) == Some(pin && AsleepBefore(tos, |tos|))
            && Forced(hooks.originals, hda) == Forced(old(hooks.originals), hda) + if pin then |WakeUps(tos)| else 0
  {
    hide AsleepBefore, WakeUps, Forced;
    ghost var pin := FlagOf(hda.properties, PIN_STATUS).value;
    NothingSlept();
    for i := 0 to |calls|
      invariant hooks.alc.ControllersInRange()
      invariant var tos := ChangesOf(calls[..i], hda);
                && FlagOf(hda.properties, PIN_STATUS) == Some(pin)
                && FlagOf(hda.properties, SLEEP_STATUS) == Some(pin && AsleepBefore(tos, |tos|))
                && Forced(hooks.originals, hda) == Forced(old(hooks.originals), hda) + if pin then |WakeUps(tos)| else 0
    {
      assert calls[..i + 1][..i] == calls[..i] && calls[i] in calls;
      ghost var tos := ChangesOf(calls[..i], hda);
      ghost var log := hooks.originals;
      var (c, call) := calls[i];
      match call {
        case Initialise(config) =>
          ghost var before := hda.properties;
          ghost var _, _, boot, _ := hooks.InitializePinConfig(c, config);
          ForcedSnoc(log, Call.InitializePinConfig(c, config, false), hda);
          DeviceTableKeepsFlags(before, boot);
          assert ChangesOf(calls[..i + 1], hda) == tos;
        case Change(to) =>
          ghost var before := PinsOf(c.properties);
          hooks.PerformPowerChange(c, to);
          OneMoreChange(pin, tos, to);
          assert ChangesOf(calls[..i + 1], hda) == if c == hda then tos + [to] else tos;
          ForcedByChange(log, c, to, PinStep(before, Power(to)).replays == 1, hda);
      }
    }
    assert calls[..|calls|] == calls;
  }
}

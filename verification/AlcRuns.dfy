/** What holds after any sequence of updateProperties and processKext events: progress, codecs,
    routing requests, and the NVIDIA device-ids that have been handed out. */
module AlcRuns {
  import opened AlcState
  import opened Values
  import AlcEnabler

  // ---------------------------------------------------------------- controllers and codecs

  ghost predicate NoneDetects(cs: seq<ControllerInfo>) {
    forall i :: 0 <= i < |cs| ==> !cs[i].detect
  }

  ghost predicate DetectsBefore(cs: seq<ControllerInfo>, k: nat, n: nat) {
    k < n && k < |cs| && cs[k].detect
  }

  ghost predicate OneDetects(cs: seq<ControllerInfo>) {
    forall i, j :: 0 <= i < j < |cs| ==> !(cs[i].detect && cs[j].detect)
  }

  /** A codec that was found below a controller and is supported by the tables. */
  ghost predicate Found(t: Tables, cs: seq<ControllerInfo>, c: CodecInfo) {
    && c.controller < |cs| && cs[c.controller].detect
    && c.info.Some? && c.info == Support(t.vendorMod, c)
  }

  ghost predicate SomeFiles(t: Tables, s: State)
    requires CodecInfosOk(t, s)
  {
    exists i :: 0 <= i < |s.codecs| && HasFiles(t, s.codecs[i])
  }

  /** The progress bits and what they say about the lists. */
  ghost predicate Progress(t: Tables, s: State) {
    && Shape(t, s)
    && (ControllersLoaded !in s.progress ==> NoneDetects(s.controllers))
    && OneDetects(s.controllers)
    && (CodecsLoaded in s.progress ==> ControllersLoaded in s.progress)
    && (CodecsLoaded in s.progress <==> s.codecs != [])
    && |s.codecs| <= 1
    && (forall i :: 0 <= i < |s.codecs| ==> Found(t, s.controllers, s.codecs[i]))
    && (CallbacksWantRouting in s.progress ==> SomeFiles(t, s))
  }

  lemma {:induction false} AddGpusKeeps(s: State, gpus: seq<Gpu>)
    requires |s.used| == MAX_IDS
    ensures var r := AddGpus(s, gpus);
            && r == s.(controllers := r.controllers, used := r.used)
            && s.controllers <= r.controllers
            && (forall i :: |s.controllers| <= i < |r.controllers| ==>
                  !r.controllers[i].detect && r.controllers[i].info.None?)
            && (forall i :: 0 <= i < MAX_IDS && s.used[i] ==> r.used[i])
  {
    if gpus != [] {
      AddGpusKeeps(s, gpus[..|gpus| - 1]);
    }
  }

  /** updateProperties only adds controllers without a registry entry, and only marks ids. */
  lemma UpdateKeeps(s: State, dev: Option<DeviceInfo>)
    requires |s.used| == MAX_IDS
    ensures var r := AfterUpdate(s, dev);
            && r == s.(controllers := r.controllers, used := r.used)
            && s.controllers <= r.controllers
            && (forall i :: |s.controllers| <= i < |r.controllers| ==>
                  !r.controllers[i].detect && r.controllers[i].info.None?)
            && (forall i :: 0 <= i < MAX_IDS && s.used[i] ==> r.used[i])
  {
    if dev.Some? {
      AddGpusKeeps(AddBuiltin(s, dev.value), dev.value.videoExternal);
    }
  }

  lemma UpdateKeepsProgress(t: Tables, s: State, dev: Option<DeviceInfo>)
    requires Progress(t, s)
    ensures Progress(t, AfterUpdate(s, dev))
  {
    hide AfterUpdate, Support, HasFiles;
    UpdateKeeps(s, dev);
    var r := AfterUpdate(s, dev);
    assert forall i :: 0 <= i < |s.controllers| ==> r.controllers[i] == s.controllers[i];
    if CallbacksWantRouting in s.progress {
      var i :| 0 <= i < |s.codecs| && HasFiles(t, s.codecs[i]);
      assert HasFiles(t, r.codecs[i]);
    }
  }

  lemma {:induction false} ScanOne(controller: nat, scans: seq<Scan>)
    ensures var r := ScanController([], controller, scans);
            |r| <= 1 && forall i :: 0 <= i < |r| ==> r[i].controller == controller && r[i].info.None?
  {
    if scans != [] {
      ScanOne(controller, scans[1..]);
    }
  }

  lemma {:induction false} ScanAllOne(s: State, scans: map<nat, seq<Scan>>, n: nat)
    requires n <= |s.controllers| && s.codecs == [] && OneDetects(s.controllers)
    ensures var r := ScanAll(s, scans, n);
            && |r| <= 1
            && forall i :: 0 <= i < |r| ==> r[i].controller < n && s.controllers[r[i].controller].detect
  {
    if n > 0 {
      var last: nat := n - 1;
      ScanAllOne(s, scans, last);
      var before := ScanAll(s, scans, last);
      var k := if before == [] then 0 else before[0].controller;
      assert before != [] ==> DetectsBefore(s.controllers, k, last);
      ScanOne(last, ScansOf(scans, last));
    }
  }

  lemma {:induction false} SupportedKeeps(t: Tables, codecs: seq<CodecInfo>)
    ensures var r := Supported(t.vendorMod, codecs);
            && |r| <= |codecs|
            && forall i :: 0 <= i < |r| ==>
                 r[i].info.Some? && r[i].info == Support(t.vendorMod, r[i])
                 && exists k :: 0 <= k < |codecs| && r[i] == codecs[k].(info := r[i].info)
  {
    hide Support;
    if codecs != [] {
      var c, rest := codecs[0], codecs[1..];
      SupportedKeeps(t, rest);
      var r, q := Supported(t.vendorMod, codecs), Supported(t.vendorMod, rest);
      SupportIgnoresInfo(t.vendorMod, c, Support(t.vendorMod, c));
      forall i | 0 <= i < |r|
        ensures r[i].info.Some? && r[i].info == Support(t.vendorMod, r[i])
        ensures exists k :: 0 <= k < |codecs| && r[i] == codecs[k].(info := r[i].info)
      {
        if Support(t.vendorMod, c).Some? && i == 0 {
          assert r[0] == codecs[0].(info := r[0].info);
        } else {
          var j := if Support(t.vendorMod, c).Some? then i - 1 else i;
          assert r[i] == q[j];
          var k :| 0 <= k < |rest| && q[j] == rest[k].(info := q[j].info);
          assert r[i] == codecs[k + 1].(info := r[i].info);
        }
      }
    }
  }

  lemma SupportIgnoresInfo(vs: seq<VendorMod>, c: CodecInfo, info: Option<(nat, nat)>)
    ensures Support(vs, c.(info := info)) == Support(vs, c)
  {
  }

  /** The entry (v, k) is the first codec with this id of the first vendor with this id, and its
      revision list is empty or holds the codec's revision. */
  ghost predicate FirstEntry(vs: seq<VendorMod>, c: CodecInfo, v: nat, k: nat) {
    && v < |vs| && vs[v].vendor == c.vendor && (forall i :: 0 <= i < v ==> vs[i].vendor != c.vendor)
    && k < |vs[v].codecs| && vs[v].codecs[k].codec == c.codec
    && (forall i :: 0 <= i < k ==> vs[v].codecs[i].codec != c.codec)
    && (vs[v].codecs[k].revisions == [] || c.revision in vs[v].codecs[k].revisions)
  }

  lemma SupportIsFirstEntry(vs: seq<VendorMod>, c: CodecInfo, v: nat, k: nat)
    ensures Support(vs, c) == Some((v, k)) <==> FirstEntry(vs, c, v, k)
  {
    var v' := FirstVendor(vs, c.vendor, 0);
    assert v < |vs| && v' < |vs| && v' < v ==> vs[v'].vendor == c.vendor;
    if v' < |vs| {
      var k' := FirstCodec(vs[v'].codecs, c.codec, 0);
      assert k' < k < |vs[v'].codecs| ==> vs[v'].codecs[k'].codec == c.codec;
    }
  }

  /** x is the codec at place n with its first entry. */
  ghost predicate KeptFrom(vs: seq<VendorMod>, codecs: seq<CodecInfo>, x: CodecInfo, n: int) {
    && 0 <= n < |codecs| && x == codecs[n].(info := x.info)
    && x.info.Some? && FirstEntry(vs, codecs[n], x.info.value.0, x.info.value.1)
  }

  ghost predicate HasEntry(vs: seq<VendorMod>, c: CodecInfo) {
    exists v, k :: FirstEntry(vs, c, v, k)
  }

  /** r holds exactly the supported codecs, in order; the i-th was at place at[i]. */
  ghost predicate IsFilter(vs: seq<VendorMod>, codecs: seq<CodecInfo>, r: seq<CodecInfo>, at: seq<int>) {
    && |at| == |r|
    && (forall i, j :: 0 <= i < j < |at| ==> at[i] < at[j])
    && (forall i :: 0 <= i < |at| ==> KeptFrom(vs, codecs, r[i], at[i]))
    && forall n :: 0 <= n < |codecs| && HasEntry(vs, codecs[n]) ==> n in at
  }

  lemma HasEntryIffSupport(vs: seq<VendorMod>, c: CodecInfo)
    ensures HasEntry(vs, c) <==> Support(vs, c).Some?
    ensures Support(vs, c).Some? ==> FirstEntry(vs, c, Support(vs, c).value.0, Support(vs, c).value.1)
  {
    hide Support, FirstEntry;
    var s := Support(vs, c);
    if s.Some? {
      SupportIsFirstEntry(vs, c, s.value.0, s.value.1);
    }
    if HasEntry(vs, c) {
      var v: nat, k: nat :| FirstEntry(vs, c, v, k);
      SupportIsFirstEntry(vs, c, v, k);
    }
  }

  lemma KeptFromShift(vs: seq<VendorMod>, c: CodecInfo, rest: seq<CodecInfo>, x: CodecInfo, n: int)
    requires KeptFrom(vs, rest, x, n)
    ensures KeptFrom(vs, [c] + rest, x, n + 1)
  {
    assert ([c] + rest)[n + 1] == rest[n];
  }

  function Shifted(at: seq<int>): (r: seq<int>)
    ensures |r| == |at| && forall i :: 0 <= i < |at| ==> r[i] == at[i] + 1
  {
    seq(|at|, i requires 0 <= i < |at| => at[i] + 1)
  }

  lemma ShiftedHas(first: seq<int>, at: seq<int>, n: int)
    requires n in at
    ensures n + 1 in first + Shifted(at)
  {
    var i :| 0 <= i < |at| && at[i] == n;
    assert (first + Shifted(at))[|first| + i] == n + 1;
  }

  /** A filter of the rest gives one of the list with a codec in front. */
  lemma FilterCons(vs: seq<VendorMod>, c: CodecInfo, rest: seq<CodecInfo>, r: seq<CodecInfo>, at: seq<int>)
    returns (at': seq<int>)
    requires IsFilter(vs, rest, r, at)
    ensures IsFilter(vs, [c] + rest, (if Support(vs, c).Some? then [c.(info := Support(vs, c))] else []) + r, at')
  {
    hide Support, FirstEntry, HasEntry, Shifted;
    var s := Support(vs, c);
    var first: seq<int> := if s.Some? then [0] else [];
    at' := first + Shifted(at);
    HasEntryIffSupport(vs, c);
    var r' := (if s.Some? then [c.(info := s)] else []) + r;
    assert forall i, j :: 0 <= i < j < |at'| ==> at'[i] < at'[j];
    forall n | 0 <= n < |[c] + rest| && HasEntry(vs, ([c] + rest)[n]) ensures n in at' {
      if n > 0 {
        assert ([c] + rest)[n] == rest[n - 1];
        ShiftedHas(first, at, n - 1);
      }
    }
    hide IsFilter;
    forall i | 0 <= i < |at'| ensures KeptFrom(vs, [c] + rest, r'[i], at'[i]) {
      if i >= |first| {
        KeptFromShift(vs, c, rest, r[i - |first|], at[i - |first|]);
      }
    }
  }

  /** Codec validation keeps exactly the supported codecs, in order, each with its first entry. */
  lemma {:induction false} SupportedIsTheFilter(vs: seq<VendorMod>, codecs: seq<CodecInfo>) returns (at: seq<int>)
    ensures IsFilter(vs, codecs, Supported(vs, codecs), at)
  {
    hide Support, IsFilter;
    if codecs == [] {
      at := [];
      EmptyFilter(vs);
    } else {
      var before := SupportedIsTheFilter(vs, codecs[1..]);
      at := FilterCons(vs, codecs[0], codecs[1..], Supported(vs, codecs[1..]), before);
      assert codecs == [codecs[0]] + codecs[1..];
    }
  }

  lemma EmptyFilter(vs: seq<VendorMod>)
    ensures IsFilter(vs, [], [], [])
  {
  }

  lemma GrabKeepsProgress(t: Tables, s: State, kext: nat, e: Event)
    requires Progress(t, s) && e.ProcessKext? && kext < |t.kextList|
    ensures Progress(t, Grab(t, s, kext, e)) && ControllersLoaded in Grab(t, s, kext, e).progress
  {
    hide Support, ScanAll, Supported, FirstFit, HasFiles;
    GrabKeepsShape(t, s, kext, e);
    if ControllersLoaded !in s.progress {
      var a := AddAnalog(s.(model := e.modelType), e.devices);
      assert forall i :: 0 <= i < |a.controllers| ==> ValidatedAll(a)[i].detect == a.controllers[i].detect;
      assert s.codecs == [];
    } else if CodecsLoaded !in s.progress && t.kextList[kext].detect {
      var scanned := ScanAll(s, e.scans, |s.controllers|);
      ScanAllOne(s, e.scans, |s.controllers|);
      SupportedKeeps(t, scanned);
    }
  }

  lemma {:induction false} HandleCodecsProgress(t: Tables, s: State, index: nat, n: nat)
    requires CodecInfosOk(t, s) && n <= |s.codecs|
    ensures HandleCodecs(t, s, index, n).progress ==
            s.progress + if exists i :: 0 <= i < n && HasFiles(t, s.codecs[i]) then {CallbacksWantRouting} else {}
  {
    hide Applied;
    if n > 0 {
      HandleCodecsProgress(t, s, index, n - 1);
      assert HandleCodecs(t, s, index, n - 1).codecs[n - 1] == s.codecs[n - 1];
      assert (exists i :: 0 <= i < n && HasFiles(t, s.codecs[i])) <==>
             (exists i :: 0 <= i < n - 1 && HasFiles(t, s.codecs[i])) || HasFiles(t, s.codecs[n - 1]);
    }
  }

  lemma PatchCodecsKeepsProgress(t: Tables, s: State, index: nat)
    requires Progress(t, s)
    ensures Progress(t, PatchCodecs(t, s, index))
    ensures CallbacksWantRouting in PatchCodecs(t, s, index).progress <==> SomeFiles(t, s)
    ensures s.progress <= PatchCodecs(t, s, index).progress <= s.progress + {CallbacksWantRouting}
  {
    hide HasFiles, Support, HandleCodecs;
    if CodecsLoaded in s.progress {
      HandleCodecsProgress(t, s, index, |s.codecs|);
    }
  }

  /** The states in between while one kext is processed. */
  ghost function AfterControllers(t: Tables, s: State, e: Event, kext: nat): State
    requires Shape(t, s) && e.ProcessKext? && kext < |t.kextList|
  {
    GrabKeepsShape(t, s, kext, e);
    PatchControllers(t, Grab(t, s, kext, e), e.index, kext)
  }

  lemma AfterControllersKeeps(t: Tables, s: State, e: Event, kext: nat)
    requires Progress(t, s) && e.ProcessKext? && kext < |t.kextList|
    ensures var g, r := Grab(t, s, kext, e), AfterControllers(t, s, e, kext);
            Progress(t, r) && r == g.(mods := r.mods, used := r.used, cursor := r.cursor, log := r.log)
  {
    hide Support, HasFiles, HandleControllers, Grab;
    GrabKeepsProgress(t, s, kext, e);
    var g := Grab(t, s, kext, e);
    HandleControllersKeeps(t, g, e.index, |g.controllers|);
    ShapeAfterHandling(t, g, e.index);
    ProgressIgnores(t, g, AfterControllers(t, s, e, kext));
  }

  lemma ShapeAfterHandling(t: Tables, s: State, index: nat)
    requires Shape(t, s)
    ensures var r := HandleControllers(t, s, index, |s.controllers|);
            |r.mods| == |s.mods| && CanAlloc(r)
  {
  }

  lemma ProgressIgnores(t: Tables, g: State, r: State)
    requires Progress(t, g) && CanAlloc(r) && |r.mods| == |g.mods|
    requires r == g.(mods := r.mods, used := r.used, cursor := r.cursor, log := r.log)
    ensures Progress(t, r)
  {
    hide Support, HasFiles;
    if CallbacksWantRouting in g.progress {
      var i :| 0 <= i < |g.codecs| && HasFiles(t, g.codecs[i]);
      assert HasFiles(t, r.codecs[i]);
    }
  }

  lemma ProgressWithFlag(t: Tables, s: State, flag: Flag, log: seq<Action>)
    requires Progress(t, s) && (flag == PatchHDAFamily || flag == PatchHDAController)
    ensures Progress(t, s.(progress := s.progress + {flag}, log := log))
    ensures Progress(t, s.(log := log))
  {
    hide Support, HasFiles;
    if CallbacksWantRouting in s.progress {
      var i :| 0 <= i < |s.codecs| && HasFiles(t, s.codecs[i]);
      assert HasFiles(t, s.(log := log).codecs[i]);
    }
  }

  /** One event keeps the invariant, and progress bits are never taken back. */
  lemma StepKeepsProgress(t: Tables, s: State, e: Event)
    requires Progress(t, s)
    ensures Progress(t, Step(t, s, e)) && s.progress <= Step(t, s, e).progress
  {
    hide Progress, PatchControllers, PatchCodecs, Grab, AfterUpdate, Erased, FindKext;
    match e {
      case UpdateProperties(dev) =>
        assert Shape(t, s) by { ProgressShape(t, s); }
        UpdateKeepsProgress(t, s, dev);
        UpdateKeeps(s, dev);
      case ProcessKext(index, _, _, _) =>
        ProgressShape(t, s);
        var kext := FindKext(t.kextList, index, 0);
        if kext == |t.kextList| {
        } else if kext == t.appleGFXHDA {
          ProgressWithFlag(t, s, PatchHDAFamily, s.log + [Route([GfxProbe])]);
        } else {
          GrabProgressGrows(t, s, kext, e);
          var s1 := AfterControllers(t, s, e, kext);
          AfterControllersKeeps(t, s, e, kext);
          ProgressShape(t, s1);
          PatchCodecsKeepsProgress(t, s1, index);
          var s2 := PatchCodecs(t, s1, index);
          var s3 := RouteCallbacks(t, s2, kext);
          ProgressWithFlag(t, s2, PatchHDAFamily, s3.log);
          var s4 := RouteFamily(t, s3, kext);
          ProgressWithFlag(t, s3, PatchHDAFamily, s4.log);
          var s5 := RouteController(t, s4, kext);
          ProgressWithFlag(t, s4, PatchHDAController, s5.log);
        }
    }
  }

  lemma ProgressShape(t: Tables, s: State)
    requires Progress(t, s)
    ensures Shape(t, s)
  {
  }

  lemma GrabProgressGrows(t: Tables, s: State, kext: nat, e: Event)
    requires e.ProcessKext? && kext < |t.kextList|
    ensures s.progress <= Grab(t, s, kext, e).progress <= s.progress + {ControllersLoaded, CodecsLoaded}
    ensures Grab(t, s, kext, e).log == s.log
  {
  }

  // ---------------------------------------------------------------- runs

  /** The state after a sequence of events. */
  ghost function Run(t: Tables, s: State, events: seq<Event>): (r: State)
    requires Progress(t, s)
    ensures Progress(t, r)
  {
    if events == [] then s
    else
      var q := Run(t, s, events[..|events| - 1]);
      StepKeepsProgress(t, q, events[|events| - 1]);
      Step(t, q, events[|events| - 1])
  }

  lemma StartIsFine(t: Tables, mods: seq<ControllerMod>)
    ensures Progress(t, Start(mods))
  {
  }

  /** In every reachable state: codecs are loaded iff the codec list is not empty, and only after the
      controllers; routing is wanted only then; at most one controller can be scanned, so there is
      at most one codec, which is supported and belongs to that controller. */
  lemma ReachableStates(t: Tables, mods: seq<ControllerMod>, events: seq<Event>)
    ensures Progress(t, Start(mods))
    ensures var s := Run(t, Start(mods), events);
            && (CodecsLoaded in s.progress <==> s.codecs != [])
            && (CodecsLoaded in s.progress ==> ControllersLoaded in s.progress)
            && (CallbacksWantRouting in s.progress ==> CodecsLoaded in s.progress)
            && (forall i, j :: 0 <= i < j < |s.controllers| ==> !(s.controllers[i].detect && s.controllers[j].detect))
            && |s.codecs| <= 1
            && forall i :: 0 <= i < |s.codecs| ==>
                 && s.codecs[i].controller < |s.controllers| && s.controllers[s.codecs[i].controller].detect
                 && s.codecs[i].info.Some? && s.codecs[i].info == Support(t.vendorMod, s.codecs[i])
  {
    hide Run, Support, HasFiles;
    StartIsFine(t, mods);
    var s := Run(t, Start(mods), events);
  }

  lemma {:induction false} RunConcat(t: Tables, s: State, a: seq<Event>, b: seq<Event>)
    requires Progress(t, s)
    ensures Run(t, s, a + b) == Run(t, Run(t, s, a), b)
  {
    hide Progress, Step;
    if b == [] {
      assert a + b == a;
    } else {
      RunConcat(t, s, a, b[..|b| - 1]);
      assert (a + b)[..|a + b| - 1] == a + b[..|b| - 1];
    }
  }

  /** Progress bits set by a prefix of a run are still set at its end. */
  lemma {:induction false} ProgressOnlyGrows(t: Tables, s: State, events: seq<Event>)
    requires Progress(t, s)
    ensures s.progress <= Run(t, s, events).progress
  {
    hide Progress, Step;
    if events != [] {
      ProgressOnlyGrows(t, s, events[..|events| - 1]);
      StepKeepsProgress(t, Run(t, s, events[..|events| - 1]), events[|events| - 1]);
    }
  }

  /** Events that are sent to an AlcEnabler object take it through the states of the run. */
  method SendAll(alc: AlcEnabler.AlcEnabler, events: seq<Event>)
    requires alc.Valid() && Progress(alc.tables, alc.View())
    modifies alc, alc.nvidiaDeviceIdUsage
    ensures alc.Valid() && alc.View() == Run(alc.tables, old(alc.View()), events)
  {
    hide Progress, Step;
    for i := 0 to |events|
      invariant alc.Valid() && alc.View() == Run(alc.tables, old(alc.View()), events[..i])
    {
      assert events[..i + 1][..i] == events[..i];
      SendOne(alc, events[i]);
    }
    assert events[..|events|] == events;
  }

  method SendOne(alc: AlcEnabler.AlcEnabler, e: Event)
    requires alc.Valid()
    modifies alc, alc.nvidiaDeviceIdUsage
    ensures alc.Valid() && alc.View() == Step(alc.tables, old(alc.View()), e)
  {
    hide AfterKext, AfterUpdate;
    match e {
      case UpdateProperties(dev) => alc.UpdateProperties(dev);
      case ProcessKext(_, _, _, _) => alc.ProcessKext(e);
    }
  }

  /** A new object that is sent some events ends in a reachable state. */
  method SendFromStart(tables: Tables, mods: seq<ControllerMod>, events: seq<Event>)
    returns (alc: AlcEnabler.AlcEnabler)
    ensures fresh(alc) && alc.tables == tables && Progress(tables, Start(mods))
    ensures alc.Valid() && alc.View() == Run(tables, Start(mods), events)
  {
    hide Run, Progress;
    StartIsFine(tables, mods);
    alc := new AlcEnabler.AlcEnabler(tables, mods);
    SendAll(alc, events);
  }

  // ---------------------------------------------------------------- routing requests

  /** The number of log entries that route a hook. */
  function CountHook(log: seq<Action>, h: Hook): nat {
    if log == [] then 0
    else
      CountHook(log[..|log| - 1], h)
      + match log[|log| - 1] { case Route(hooks) => if h in hooks then 1 else 0 case _ => 0 }
  }

  lemma {:induction false} CountHookConcat(a: seq<Action>, b: seq<Action>, h: Hook)
    ensures CountHook(a + b, h) == CountHook(a, h) + CountHook(b, h)
  {
    if b == [] {
      assert a + b == a;
    } else {
      CountHookConcat(a, b[..|b| - 1], h);
      assert (a + b)[..|a + b| - 1] == a + b[..|b| - 1];
    }
  }

  lemma CountHookOne(hooks: seq<Hook>, h: Hook)
    ensures CountHook([Route(hooks)], h) == if h in hooks then 1 else 0
  {
    assert [Route(hooks)][..0] == [];
  }

  lemma {:induction false} NoHooks(log: seq<Action>, h: Hook)
    requires forall a :: a in log ==> !a.Route?
    ensures CountHook(log, h) == 0
  {
    if log != [] {
      NoHooks(log[..|log| - 1], h);
    }
  }

  lemma {:induction false} AppliedHasNoHooks(t: Tables, index: nat, patches: seq<KextPatch>)
    ensures forall a :: a in Applied(t, index, patches) ==> a.Apply?
  {
    if patches != [] {
      AppliedHasNoHooks(t, index, patches[..|patches| - 1]);
    }
  }

  /** Handling controllers and codecs logs no routing request. */
  lemma {:induction false} HandleControllersHooks(t: Tables, s: State, index: nat, n: nat, h: Hook)
    requires CanAlloc(s) && InfosOk(s) && n <= |s.controllers|
    ensures CountHook(HandleControllers(t, s, index, n).log, h) == CountHook(s.log, h)
  {
    hide Applied, CountHook, AllocMod;
    if n > 0 {
      HandleControllersHooks(t, s, index, n - 1, h);
      var q := HandleControllers(t, s, index, n - 1);
      var c := q.controllers[n - 1];
      if c.info.Some? {
        var m := c.info.value;
        AllocKeeps(q, m, |q.mods[m].patches|);
        var q' := if q.mods[m].vendor == NVIDIA then AllocMod(q, m, |q.mods[m].patches|) else q;
        AppliedHasNoHooks(t, index, q'.mods[m].patches);
        NoHooks(Applied(t, index, q'.mods[m].patches), h);
        CountHookConcat(q'.log, Applied(t, index, q'.mods[m].patches), h);
      }
    }
  }

  lemma {:induction false} HandleCodecsHooks(t: Tables, s: State, index: nat, n: nat, h: Hook)
    requires CodecInfosOk(t, s) && n <= |s.codecs|
    ensures CountHook(HandleCodecs(t, s, index, n).log, h) == CountHook(s.log, h)
  {
    hide Applied, CountHook, HasFiles;
    if n > 0 {
      HandleCodecsHooks(t, s, index, n - 1, h);
      var q := HandleCodecs(t, s, index, n - 1);
      var c := q.codecs[n - 1];
      if c.info.Some? {
        AppliedHasNoHooks(t, index, ModOf(t, c).patches);
        NoHooks(Applied(t, index, ModOf(t, c).patches), h);
        CountHookConcat(q.log, Applied(t, index, ModOf(t, c).patches), h);
      }
    }
  }

  lemma ErasedHooks(t: Tables, log: seq<Action>, kext: nat, h: Hook)
    ensures CountHook(log + Erased(t, kext), h) == CountHook(log, h)
  {
    NoHooks(Erased(t, kext), h);
    CountHookConcat(log, Erased(t, kext), h);
  }

  /** The routing requests of one kext event, for every hook. */
  lemma KextHooks(t: Tables, s: State, e: Event, h: Hook)
    requires Progress(t, s) && e.ProcessKext?
    ensures var kext, r := FindKext(t.kextList, e.index, 0), Step(t, s, e);
            CountHook(r.log, h) == CountHook(s.log, h) + Requested(t, s, r, kext, h)
  {
    hide Progress, PatchCodecs, Grab, Erased, FindKext, CountHook, HasFiles, HandleControllers, HandleCodecs;
    ProgressShape(t, s);
    var kext := FindKext(t.kextList, e.index, 0);
    if kext == |t.kextList| {
    } else if kext == t.appleGFXHDA {
      CountHookConcat(s.log, [Route([GfxProbe])], h);
      CountHookOne([GfxProbe], h);
    } else {
      GrabProgressGrows(t, s, kext, e);
      var s1 := AfterControllers(t, s, e, kext);
      AfterControllersKeeps(t, s, e, kext);
      AfterControllersHooks(t, s, e, kext, h);
      ProgressShape(t, s1);
      PatchCodecsHooks(t, s1, e.index, h);
      PatchCodecsKeepsProgress(t, s1, e.index);
      RoutesHooks(t, PatchCodecs(t, s1, e.index), kext, h);
    }
  }

  lemma AfterControllersHooks(t: Tables, s: State, e: Event, kext: nat, h: Hook)
    requires Shape(t, s) && e.ProcessKext? && kext < |t.kextList|
    ensures CountHook(AfterControllers(t, s, e, kext).log, h) == CountHook(s.log, h)
  {
    hide Grab, Erased, HandleControllers, CountHook;
    GrabKeepsShape(t, s, kext, e);
    GrabProgressGrows(t, s, kext, e);
    var g := Grab(t, s, kext, e);
    HandleControllersHooks(t, g, e.index, |g.controllers|, h);
    ErasedHooks(t, HandleControllers(t, g, e.index, |g.controllers|).log, kext, h);
  }

  lemma PatchCodecsHooks(t: Tables, s: State, index: nat, h: Hook)
    requires Shape(t, s)
    ensures CountHook(PatchCodecs(t, s, index).log, h) == CountHook(s.log, h)
  {
    hide HandleCodecs, CountHook;
    HandleCodecsHooks(t, s, index, |s.codecs|, h);
  }

  /** How often a hook is requested by a kext event that leads from s to r. */
  ghost function Requested(t: Tables, s: State, r: State, kext: nat, h: Hook): nat {
    if kext == |t.kextList| then 0
    else if kext == t.appleGFXHDA then (if h == GfxProbe then 1 else 0)
    else match h
      case GfxProbe => 0
      case ExecuteVerb => if kext == t.ioHDAFamily && PatchHDAFamily !in s.progress then 1 else 0
      case ControllerStart => if kext == t.appleHDAController && PatchHDAController !in s.progress then 1 else 0
      case _ => if kext == t.appleHDA && CallbacksWantRouting in r.progress then 1 else 0
  }

  lemma RoutesHooks(t: Tables, s: State, kext: nat, h: Hook)
    ensures var r := RouteController(t, RouteFamily(t, RouteCallbacks(t, s, kext), kext), kext);
            && r.progress == s.progress + (if kext == t.ioHDAFamily then {PatchHDAFamily} else {})
                                        + (if kext == t.appleHDAController then {PatchHDAController} else {})
            && CountHook(r.log, h) == CountHook(s.log, h) + match h
                 case GfxProbe => 0
                 case ExecuteVerb => if kext == t.ioHDAFamily && PatchHDAFamily !in s.progress then 1 else 0
                 case ControllerStart =>
                   if kext == t.appleHDAController && PatchHDAController !in s.progress then 1 else 0
                 case _ => if kext == t.appleHDA && CallbacksWantRouting in s.progress then 1 else 0
  {
    hide Erased, CountHook;
    var s1 := RouteCallbacks(t, s, kext);
    var s2 := RouteFamily(t, s1, kext);
    CountHookConcat(s.log, [CALLBACKS], h);
    CountHookOne([LayoutLoad, PlatformLoad, PowerChange, PinConfigInit], h);
    ErasedHooks(t, s.log + [CALLBACKS], kext, h);
    CountHookConcat(s1.log, [Route([ExecuteVerb])], h);
    CountHookOne([ExecuteVerb], h);
    CountHookConcat(s2.log, [Route([ControllerStart])], h);
    CountHookOne([ControllerStart], h);
  }

  lemma StepUpdateHooks(s: State, dev: Option<DeviceInfo>)
    requires |s.used| == MAX_IDS
    ensures AfterUpdate(s, dev).log == s.log && AfterUpdate(s, dev).progress == s.progress
  {
    UpdateKeeps(s, dev);
  }

  ghost predicate HookOnce(s: State) {
    && CountHook(s.log, ExecuteVerb) == (if PatchHDAFamily in s.progress then 1 else 0)
    && CountHook(s.log, ControllerStart) == (if PatchHDAController in s.progress then 1 else 0)
  }

  lemma StepKeepsHookOnce(t: Tables, s: State, e: Event)
    requires Progress(t, s) && HookOnce(s) && t.Valid()
    ensures HookOnce(Step(t, s, e))
  {
    hide Progress, FindKext, CountHook, PatchControllers, PatchCodecs, Grab, AfterUpdate, Erased;
    ProgressShape(t, s);
    match e {
      case UpdateProperties(dev) => StepUpdateHooks(s, dev);
      case ProcessKext(index, _, _, _) =>
        KextHooks(t, s, e, ExecuteVerb);
        KextHooks(t, s, e, ControllerStart);
        var kext := FindKext(t.kextList, index, 0);
        if kext < |t.kextList| && kext != t.appleGFXHDA {
          GrabProgressGrows(t, s, kext, e);
          var s1 := AfterControllers(t, s, e, kext);
          AfterControllersKeeps(t, s, e, kext);
          ProgressShape(t, s1);
          PatchCodecsKeepsProgress(t, s1, index);
          RoutesHooks(t, PatchCodecs(t, s1, index), kext, ExecuteVerb);
        }
    }
  }

  /** In any run the executeVerb hook and the controller start hook are each requested at most once,
      and exactly when their bit is set. */
  lemma {:induction false} HooksAtMostOnce(t: Tables, mods: seq<ControllerMod>, events: seq<Event>)
    requires t.Valid()
    ensures Progress(t, Start(mods)) && HookOnce(Run(t, Start(mods), events))
  {
    hide Progress, Step;
    StartIsFine(t, mods);
    if events != [] {
      HooksAtMostOnce(t, mods, events[..|events| - 1]);
      StepKeepsHookOnce(t, Run(t, Start(mods), events[..|events| - 1]), events[|events| - 1]);
    }
  }

  /** Once codecs are loaded they and their files stay. */
  lemma CodecsStay(t: Tables, s: State, e: Event)
    requires Progress(t, s) && CodecsLoaded in s.progress
    ensures Step(t, s, e).codecs == s.codecs
  {
    hide FindKext, Erased, PatchCodecs, HandleControllers, AfterUpdate, Progress;
    ProgressShape(t, s);
    match e {
      case UpdateProperties(dev) => UpdateKeeps(s, dev);
      case ProcessKext(index, _, _, _) =>
        var kext := FindKext(t.kextList, index, 0);
        if kext < |t.kextList| && kext != t.appleGFXHDA {
          LoadedMeansControllers(t, s);
          AfterControllersKeeps(t, s, e, kext);
          ProgressShape(t, AfterControllers(t, s, e, kext));
          PatchCodecsCodecs(t, AfterControllers(t, s, e, kext), index);
        }
    }
  }

  lemma LoadedMeansControllers(t: Tables, s: State)
    requires Progress(t, s) && CodecsLoaded in s.progress
    ensures ControllersLoaded in s.progress
  {
  }

  lemma PatchCodecsCodecs(t: Tables, s: State, index: nat)
    requires Shape(t, s)
    ensures PatchCodecs(t, s, index).codecs == s.codecs
  {
  }

  /** A kext event ends with routing wanted exactly if the codec in the list has files. */
  lemma WantedIffFiles(t: Tables, s: State, e: Event)
    requires Progress(t, s) && e.ProcessKext?
    requires var kext := FindKext(t.kextList, e.index, 0); kext < |t.kextList| && kext != t.appleGFXHDA
    ensures Progress(t, Step(t, s, e))
    ensures CallbacksWantRouting in Step(t, s, e).progress <==> SomeFiles(t, Step(t, s, e))
  {
    hide Progress, FindKext, CountHook, PatchControllers, PatchCodecs, Grab, Erased, HasFiles;
    ProgressShape(t, s);
    StepKeepsProgress(t, s, e);
    ProgressShape(t, Step(t, s, e));
    var kext := FindKext(t.kextList, e.index, 0);
    var s1 := AfterControllers(t, s, e, kext);
    AfterControllersKeeps(t, s, e, kext);
    ProgressShape(t, s1);
    PatchCodecsKeepsProgress(t, s1, e.index);
    PatchCodecsCodecs(t, s1, e.index);
    RoutesHooks(t, PatchCodecs(t, s1, e.index), kext, ExecuteVerb);
    assert Step(t, s, e).codecs == s1.codecs;
    if SomeFiles(t, s1) {
      var i :| 0 <= i < |s1.codecs| && HasFiles(t, s1.codecs[i]);
      assert HasFiles(t, Step(t, s, e).codecs[i]);
    }
    if SomeFiles(t, Step(t, s, e)) {
      var i :| 0 <= i < |s1.codecs| && HasFiles(t, Step(t, s, e).codecs[i]);
      assert HasFiles(t, s1.codecs[i]);
    }
  }

  predicate IsCallback(h: Hook) {
    h == LayoutLoad || h == PlatformLoad || h == PowerChange || h == PinConfigInit
  }

  /** An event requests the four callback routes, each once, if and only if it is an AppleHDA event
      after which the codec list holds a codec with files. */
  lemma CallbacksIff(t: Tables, s: State, e: Event, h: Hook)
    requires Progress(t, s) && t.Valid() && IsCallback(h)
    ensures Progress(t, Step(t, s, e))
    ensures CountHook(Step(t, s, e).log, h) == CountHook(s.log, h) +
              if e.ProcessKext? && FindKext(t.kextList, e.index, 0) == t.appleHDA && SomeFiles(t, Step(t, s, e))
              then 1 else 0
  {
    hide Progress, FindKext, CountHook, AfterKext, AfterUpdate, SomeFiles;
    ProgressShape(t, s);
    StepKeepsProgress(t, s, e);
    ProgressShape(t, Step(t, s, e));
    match e {
      case UpdateProperties(dev) => StepUpdateHooks(s, dev);
      case ProcessKext(index, _, _, _) =>
        KextHooks(t, s, e, h);
        if FindKext(t.kextList, index, 0) == t.appleHDA {
          WantedIffFiles(t, s, e);
        }
    }
  }

  lemma SomeFilesStay(t: Tables, s: State, e: Event)
    requires Progress(t, s) && SomeFiles(t, s)
    ensures Progress(t, Step(t, s, e)) && SomeFiles(t, Step(t, s, e))
  {
    hide Progress, Step, HasFiles;
    ProgressShape(t, s);
    StepKeepsProgress(t, s, e);
    ProgressShape(t, Step(t, s, e));
    var i :| 0 <= i < |s.codecs| && HasFiles(t, s.codecs[i]);
    NonEmptyMeansLoaded(t, s);
    CodecsStay(t, s, e);
    assert HasFiles(t, Step(t, s, e).codecs[i]);
  }

  lemma NonEmptyMeansLoaded(t: Tables, s: State)
    requires Progress(t, s) && s.codecs != []
    ensures CodecsLoaded in s.progress
  {
  }

  lemma {:induction false} SomeFilesStayOver(t: Tables, s: State, events: seq<Event>)
    requires Progress(t, s) && SomeFiles(t, s)
    ensures SomeFiles(t, Run(t, s, events))
  {
    hide Progress, Step, SomeFiles;
    ProgressShape(t, s);
    if events != [] {
      SomeFilesStayOver(t, s, events[..|events| - 1]);
      SomeFilesStay(t, Run(t, s, events[..|events| - 1]), events[|events| - 1]);
    }
  }

  /** Once a codec with files is loaded, every later AppleHDA event requests the callback routes. */
  lemma LaterAppleHDARequests(t: Tables, s: State, between: seq<Event>, e: Event, h: Hook)
    requires Progress(t, s) && t.Valid() && SomeFiles(t, s) && IsCallback(h)
    requires e.ProcessKext? && FindKext(t.kextList, e.index, 0) == t.appleHDA
    ensures CountHook(Run(t, s, between + [e]).log, h) == CountHook(Run(t, s, between).log, h) + 1
  {
    hide Progress, Step, CountHook, FindKext, SomeFiles;
    ProgressShape(t, s);
    assert (between + [e])[..|between|] == between;
    SomeFilesStayOver(t, s, between);
    var q := Run(t, s, between);
    ProgressShape(t, q);
    SomeFilesStay(t, q, e);
    CallbacksIff(t, q, e, h);
  }

  /** The event that loads the codec: AppleHDA with the detect flag, after an earlier recognised
      kext, while a supported codec with files can be found below the scanned controller. */
  lemma LoadingEventRequests(t: Tables, s: State, e: Event, i: nat, c: CodecInfo, h: Hook)
    requires Progress(t, s) && t.Valid() && IsCallback(h)
    requires ControllersLoaded in s.progress && CodecsLoaded !in s.progress
    requires e.ProcessKext? && FindKext(t.kextList, e.index, 0) == t.appleHDA && t.kextList[t.appleHDA].detect
    requires i < |s.controllers| && s.controllers[i].detect
    requires ScanController([], i, ScansOf(e.scans, i)) == [c]
    requires Support(t.vendorMod, c).Some? && HasFiles(t, c.(info := Support(t.vendorMod, c)))
    ensures CountHook(Step(t, s, e).log, h) == CountHook(s.log, h) + 1
  {
    hide CountHook, FindKext, HasFiles, Support, ScanController;
    ScanAllOnly(s, e.scans, |s.controllers|, i);
    var found := c.(info := Support(t.vendorMod, c));
    assert Supported(t.vendorMod, [c]) == [found] by {
      assert [c][1..] == [];
    }
    assert Grab(t, s, t.appleHDA, e).codecs == [found];
    CallbacksIff(t, s, e, h);
    GrabbedCodecsRemain(t, s, e, t.appleHDA);
    assert HasFiles(t, Step(t, s, e).codecs[0]);
  }

  lemma GrabbedCodecsRemain(t: Tables, s: State, e: Event, kext: nat)
    requires Progress(t, s) && e.ProcessKext? && kext == FindKext(t.kextList, e.index, 0)
    requires kext < |t.kextList| && kext != t.appleGFXHDA
    ensures Step(t, s, e).codecs == Grab(t, s, kext, e).codecs
  {
    hide Progress, FindKext, PatchControllers, PatchCodecs, Grab, Erased;
    ProgressShape(t, s);
    var s1 := AfterControllers(t, s, e, kext);
    AfterControllersKeeps(t, s, e, kext);
    ProgressShape(t, s1);
    PatchCodecsCodecs(t, s1, e.index);
  }

  /** Every recognised event but AppleGFXHDA leaves the controllers loaded. Codecs are looked for only by
      kexts with the detect flag, only after an earlier such event, and only until some are supported;
      at any other event the codec list stays. */
  lemma WhenDevicesAreGrabbed(t: Tables, s: State, e: Event)
    requires Progress(t, s) && e.ProcessKext?
    requires var kext := FindKext(t.kextList, e.index, 0); kext < |t.kextList| && kext != t.appleGFXHDA
    ensures var r := Step(t, s, e);
            var looks := ControllersLoaded in s.progress && CodecsLoaded !in s.progress
                         && t.kextList[FindKext(t.kextList, e.index, 0)].detect;
            && ControllersLoaded in r.progress
            && r.codecs == (if looks then Supported(t.vendorMod, ScanAll(s, e.scans, |s.controllers|)) else s.codecs)
            && (CodecsLoaded in r.progress <==> r.codecs != [])
  {
    hide FindKext, Supported, ScanAll, HasFiles, Support, Step;
    var kext := FindKext(t.kextList, e.index, 0);
    StepKeepsProgress(t, s, e);
    GrabbedCodecsRemain(t, s, e, kext);
    ControllersStayLoaded(t, s, e, kext);
  }

  lemma ControllersStayLoaded(t: Tables, s: State, e: Event, kext: nat)
    requires Progress(t, s) && e.ProcessKext? && kext == FindKext(t.kextList, e.index, 0)
    requires kext < |t.kextList| && kext != t.appleGFXHDA
    ensures ControllersLoaded in Step(t, s, e).progress
  {
    hide Progress, FindKext, PatchControllers, PatchCodecs, Grab, Erased;
    ProgressShape(t, s);
    GrabKeepsProgress(t, s, kext, e);
    var s1 := AfterControllers(t, s, e, kext);
    AfterControllersKeeps(t, s, e, kext);
    ProgressShape(t, s1);
    PatchCodecsKeepsProgress(t, s1, e.index);
  }

  lemma {:induction false} ScanAllOnly(s: State, scans: map<nat, seq<Scan>>, n: nat, i: nat)
    requires n <= |s.controllers| && s.codecs == [] && OneDetects(s.controllers)
    requires i < |s.controllers| && s.controllers[i].detect
    ensures ScanAll(s, scans, n) == if i < n then ScanController([], i, ScansOf(scans, i)) else []
  {
    hide ScanController;
    if n > 0 {
      ScanAllOnly(s, scans, n - 1, i);
      assert n - 1 != i ==> !s.controllers[n - 1].detect;
    }
  }
}

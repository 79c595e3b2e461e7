/** The allocator of AppleALC/kern_alc.cpp:570-587, which gives every patch that asks for one a spare
    NVIDIA device-id: what it may change between any two states of a run. */
module AlcIds {
  import opened AlcState
  import opened AlcRuns
  import opened Values

  // ---------------------------------------------------------------- ids as bytes

  lemma BytesReadBack(n: u32)
    ensures Le32(Bytes32(n)) == n
  {
    var a: int := n;
    assert a == a % 0x100 + 0x100 * (a / 0x100);
    assert a / 0x100 == a / 0x100 % 0x100 + 0x100 * (a / 0x10000);
    assert a / 0x10000 == a / 0x10000 % 0x100 + 0x100 * (a / 0x1000000);
  }

  /** Sixteen different devices, all of vendor 0x10DE, by their device numbers. */
  lemma SpareIds()
    ensures seq(16, k requires 0 <= k < 16 => ID_LIST[k] / 0x10000) ==
            [0x0E0A, 0x0E0B, 0x0E1B, 0x0E1A, 0x0BE5, 0x0BEB, 0x0BE9, 0x0BEA,
             0x0E09, 0x0BEE, 0x0E08, 0x0BE3, 0x0AC0, 0x0D94, 0x0BE2, 0x0BE4]
    ensures |ID_LIST| == MAX_IDS == 16 && forall k :: 0 <= k < 16 ==> ID_LIST[k] % 0x10000 == 0x10DE
    ensures forall i, j :: 0 <= i < j < 16 ==> ID_LIST[i] / 0x10000 != ID_LIST[j] / 0x10000
  {
  }

  /** What is written for id k, and nothing else, is seen as that id. */
  lemma HoldsIff(find: Bytes, k: nat)
    requires k < MAX_IDS
    ensures Holds(find, k) <==> find == Bytes32(ID_LIST[k])
  {
    SpareIds();
    var a: int := ID_LIST[k];
    assert a / 0x100 % 0x100 == a % 0x10000 / 0x100 && a % 0x100 == a % 0x10000 % 0x100;
    assert a / 0x10000 == a / 0x10000 % 0x100 + 0x100 * (a / 0x1000000);
    if Holds(find, k) {
      assert find[3] as int == a / 0x1000000;
    }
  }

  lemma IdsDiffer(find: Bytes, i: nat, j: nat)
    requires Holds(find, i) && Holds(find, j)
    ensures i == j
  {
    SpareIds();
  }

  /** A patch asks for an id with the four bytes NVDA, in this order. */
  lemma AskingPatches(p: KextPatch)
    ensures IsSpecial(p) <==> p.find == [0x4E, 0x56, 0x44, 0x41]
  {
  }

  lemma IdIsNotSpecial(k: nat, p: KextPatch)
    requires Holds(p.find, k)
    ensures !IsSpecial(p)
  {
    AskingPatches(p);
  }

  // ---------------------------------------------------------------- what may change

  ghost predicate UsedBelow(s: State) {
    CanAlloc(s) && forall i :: 0 <= i < s.cursor ==> s.used[i]
  }

  /** The two entries differ in the find values of their patches only. */
  ghost predicate SameButFinds(a: ControllerMod, b: ControllerMod) {
    && b == a.(patches := b.patches)
    && |b.patches| == |a.patches|
    && forall j :: 0 <= j < |a.patches| ==> b.patches[j] == a.patches[j].(find := b.patches[j].find)
  }

  ghost predicate SameTables(s: State, r: State) {
    |r.mods| == |s.mods| && forall m :: 0 <= m < |s.mods| ==> SameButFinds(s.mods[m], r.mods[m])
  }

  ghost predicate IsSlot(s: State, m: int, j: int) {
    0 <= m < |s.mods| && 0 <= j < |s.mods[m].patches|
  }

  ghost function Find(s: State, m: int, j: int): Bytes
    requires IsSlot(s, m, j)
  {
    s.mods[m].patches[j].find
  }

  ghost predicate Rewritten(s: State, r: State, m: int, j: int)
    requires IsSlot(s, m, j) && IsSlot(r, m, j)
  {
    Find(r, m, j) != Find(s, m, j)
  }

  /** Id k was free in s, and is taken in r. */
  ghost predicate Taken(s: State, r: State, k: int)
    requires CanAlloc(s) && CanAlloc(r)
  {
    s.cursor <= k < r.cursor && !s.used[k] && r.used[k]
  }

  /** The find value is id k as the PCI configuration space shows it: the vendor, and the device of the
      list, each with the low byte first. */
  ghost predicate Holds(find: Bytes, k: int) {
    && 0 <= k < 16 && |find| == 4 && find[0] == 0xDE && find[1] == 0x10
    && find[2] as int + 0x100 * find[3] as int == ID_LIST[k] / 0x10000
  }

  /** The value is an id that was handed out between s and r. */
  ghost predicate Given(s: State, r: State, find: Bytes)
    requires CanAlloc(s) && CanAlloc(r)
  {
    exists k :: Taken(s, r, k) && Holds(find, k)
  }

  /** A rewritten slot asked for an id in an NVIDIA entry, and now holds one that was free in s. */
  ghost predicate SlotOk(s: State, r: State, m: int, j: int)
    requires IsSlot(s, m, j) && IsSlot(r, m, j) && CanAlloc(s) && CanAlloc(r)
  {
    Rewritten(s, r, m, j) ==>
      s.mods[m].vendor == NVIDIA && IsSpecial(s.mods[m].patches[j]) && Given(s, r, Find(r, m, j))
  }

  ghost predicate Different(s: State, r: State, m: int, j: int, m': int, j': int)
    requires IsSlot(s, m, j) && IsSlot(r, m, j) && IsSlot(s, m', j') && IsSlot(r, m', j')
  {
    (m != m' || j != j') && Rewritten(s, r, m, j) && Rewritten(s, r, m', j') ==> Find(r, m, j) != Find(r, m', j')
  }

  /** r may come after s: used ids stay used, the cursor does not go back, the tables keep everything
      but find values, and these only ever change to ids that are free in s, all different. */
  ghost predicate Later(s: State, r: State) {
    && UsedBelow(s) && UsedBelow(r)
    && s.cursor <= r.cursor
    && (forall i :: 0 <= i < MAX_IDS && s.used[i] ==> r.used[i])
    && SameTables(s, r)
    && (forall m, j :: IsSlot(s, m, j) ==> IsSlot(r, m, j))
    && (forall m, j :: IsSlot(s, m, j) ==> SlotOk(s, r, m, j))
    && (forall m, j, m', j' :: IsSlot(s, m, j) && IsSlot(s, m', j') ==> Different(s, r, m, j, m', j'))
  }

  lemma LaterSelf(s: State, r: State)
    requires UsedBelow(s) && UsedBelow(r) && r.mods == s.mods && s.cursor <= r.cursor
    requires forall i :: 0 <= i < MAX_IDS && s.used[i] ==> r.used[i]
    ensures Later(s, r)
  {
  }

  lemma GivenIsNotSpecial(s: State, r: State, p: KextPatch)
    requires CanAlloc(s) && CanAlloc(r) && Given(s, r, p.find)
    ensures !IsSpecial(p)
  {
    var k :| Taken(s, r, k) && Holds(p.find, k);
    IdIsNotSpecial(k, p);
  }

  ghost predicate KeepsUse(s: State, r: State) {
    && CanAlloc(s) && CanAlloc(r) && s.cursor <= r.cursor
    && forall i :: 0 <= i < MAX_IDS && s.used[i] ==> r.used[i]
  }

  lemma GivenLater(s: State, q: State, r: State, find: Bytes)
    requires KeepsUse(s, q) && KeepsUse(q, r)
    ensures Given(s, q, find) ==> Given(s, r, find)
    ensures Given(q, r, find) ==> Given(s, r, find)
  {
    if Given(s, q, find) {
      var k :| Taken(s, q, k) && Holds(find, k);
      assert Taken(s, r, k);
    }
    if Given(q, r, find) {
      var k :| Taken(q, r, k) && Holds(find, k);
      assert Taken(s, r, k);
    }
  }

  /** An id handed out before q differs from one handed out after. */
  lemma GivenDisjoint(s: State, q: State, r: State, a: Bytes, b: Bytes)
    requires KeepsUse(s, q) && KeepsUse(q, r) && Given(s, q, a) && Given(q, r, b)
    ensures a != b
  {
    var k :| Taken(s, q, k) && Holds(a, k);
    var k' :| Taken(q, r, k') && Holds(b, k');
    if a == b {
      IdsDiffer(a, k, k');
    }
  }

  lemma RewrittenIsNotSpecial(s: State, r: State, m: int, j: int)
    requires Later(s, r) && IsSlot(s, m, j) && IsSlot(r, m, j)
    ensures SlotOk(s, r, m, j)
    ensures Rewritten(s, r, m, j) ==> !IsSpecial(r.mods[m].patches[j])
    ensures !Rewritten(s, r, m, j) ==> r.mods[m].patches[j] == s.mods[m].patches[j]
  {
    hide IsSpecial, Given, Different;
    assert SlotOk(s, r, m, j);
    if Rewritten(s, r, m, j) {
      GivenIsNotSpecial(s, r, r.mods[m].patches[j]);
    }
    assert SameButFinds(s.mods[m], r.mods[m]);
  }

  /** A slot rewritten on the way from s to q keeps its value on the way to r. */
  lemma SlotLater(s: State, q: State, r: State, m: int, j: int)
    requires Later(s, q) && Later(q, r) && IsSlot(s, m, j) && IsSlot(q, m, j) && IsSlot(r, m, j)
    ensures SlotOk(s, r, m, j)
    ensures Rewritten(s, q, m, j) ==> !Rewritten(q, r, m, j)
  {
    hide IsSpecial, Given, Different, SameTables;
    RewrittenIsNotSpecial(s, q, m, j);
    RewrittenIsNotSpecial(q, r, m, j);
    GivenLater(s, q, r, Find(r, m, j));
    VendorLater(s, q, m);
  }

  lemma DifferentLater(s: State, q: State, r: State, m: int, j: int, m': int, j': int)
    requires Later(s, q) && Later(q, r)
    requires IsSlot(s, m, j) && IsSlot(q, m, j) && IsSlot(r, m, j)
    requires IsSlot(s, m', j') && IsSlot(q, m', j') && IsSlot(r, m', j')
    ensures Different(s, r, m, j, m', j')
  {
    hide IsSpecial, Given, SameTables;
    SlotLater(s, q, r, m, j);
    SlotLater(s, q, r, m', j');
    RewrittenIsNotSpecial(s, q, m, j);
    RewrittenIsNotSpecial(q, r, m, j);
    RewrittenIsNotSpecial(s, q, m', j');
    RewrittenIsNotSpecial(q, r, m', j');
    assert Different(s, q, m, j, m', j') && Different(q, r, m, j, m', j');
    if Rewritten(s, q, m, j) && Rewritten(q, r, m', j') {
      GivenDisjoint(s, q, r, Find(q, m, j), Find(r, m', j'));
    }
    if Rewritten(s, q, m', j') && Rewritten(q, r, m, j) {
      GivenDisjoint(s, q, r, Find(q, m', j'), Find(r, m, j));
    }
  }

  lemma TablesLater(s: State, q: State, r: State)
    requires SameTables(s, q) && SameTables(q, r)
    ensures SameTables(s, r)
  {
    forall m | 0 <= m < |s.mods| ensures SameButFinds(s.mods[m], r.mods[m]) {
      assert SameButFinds(s.mods[m], q.mods[m]) && SameButFinds(q.mods[m], r.mods[m]);
    }
  }

  lemma LaterTrans(s: State, q: State, r: State)
    requires Later(s, q) && Later(q, r)
    ensures Later(s, r)
  {
    hide SlotOk, Different, SameButFinds;
    TablesLater(s, q, r);
    forall m, j | IsSlot(s, m, j) ensures IsSlot(r, m, j) && SlotOk(s, r, m, j) {
      assert IsSlot(q, m, j);
      SlotLater(s, q, r, m, j);
    }
    forall m, j, m', j' | IsSlot(s, m, j) && IsSlot(s, m', j')
      ensures Different(s, r, m, j, m', j') {
      assert IsSlot(q, m, j) && IsSlot(q, m', j');
      DifferentLater(s, q, r, m, j, m', j');
    }
  }

  // ---------------------------------------------------------------- one pass

  /** No slot but (m, j) has changed. */
  ghost predicate OnlySlot(s: State, r: State, m: int, j: int) {
    forall m', j' :: IsSlot(s, m', j') && (m' != m || j' != j) ==> IsSlot(r, m', j') && !Rewritten(s, r, m', j')
  }

  lemma SetFindLater(s: State, m: nat, j: nat, k: nat)
    requires UsedBelow(s) && m < |s.mods| && j < |s.mods[m].patches| && s.mods[m].vendor == NVIDIA
    requires IsSpecial(s.mods[m].patches[j])
    requires k == NextFree(s.used, s.cursor) && k < MAX_IDS
    ensures var r := SetFind(s, m, j, Bytes32(ID_LIST[k])).(used := s.used[k := true], cursor := k + 1);
            Later(s, r) && OnlySlot(s, r, m, j) && !IsSpecial(r.mods[m].patches[j])
  {
    var r := SetFind(s, m, j, Bytes32(ID_LIST[k])).(used := s.used[k := true], cursor := k + 1);
    HoldsIff(Bytes32(ID_LIST[k]), k);
    hide Holds;
    assert Taken(s, r, k) && Holds(Bytes32(ID_LIST[k]), k);
    forall m', j' | IsSlot(s, m', j')
      ensures IsSlot(r, m', j') && (m' != m || j' != j ==> Find(r, m', j') == Find(s, m', j'))
    {
    }
    forall n | 0 <= n < |s.mods| ensures SameButFinds(s.mods[n], r.mods[n]) {
    }
    assert Find(r, m, j) == Bytes32(ID_LIST[k]);
    IdIsNotSpecial(k, r.mods[m].patches[j]);
  }

  lemma AllocPatchLater(s: State, m: nat, j: nat)
    requires UsedBelow(s) && m < |s.mods| && j < |s.mods[m].patches| && s.mods[m].vendor == NVIDIA
    ensures var r := AllocPatch(s, m, j);
            && Later(s, r) && OnlySlot(s, r, m, j)
            && (IsSpecial(r.mods[m].patches[j]) ==> r.cursor == MAX_IDS)
  {
    hide Later, SameTables, IsSpecial, OnlySlot, SetFind;
    var k := NextFree(s.used, s.cursor);
    if !IsSpecial(s.mods[m].patches[j]) {
      LaterSelf(s, s);
      NoSlot(s, s, m, j);
    } else if k == MAX_IDS {
      NoSlot(s, s.(cursor := MAX_IDS), m, j);
      assert forall i :: 0 <= i < MAX_IDS ==> s.used[i];
      LaterSelf(s, s.(cursor := MAX_IDS));
    } else {
      SetFindLater(s, m, j, k);
    }
  }

  lemma NoSlot(s: State, r: State, m: int, j: int)
    requires r.mods == s.mods
    ensures OnlySlot(s, r, m, j)
  {
  }

  /** A slot without an id at the end had none before, and that no id was left stays so. */
  lemma LeftOver(s: State, r: State, m: int, j: int)
    requires Later(s, r) && IsSlot(s, m, j) && IsSlot(r, m, j)
    requires IsSpecial(r.mods[m].patches[j])
    ensures IsSpecial(s.mods[m].patches[j])
    ensures s.cursor == MAX_IDS ==> r.cursor == MAX_IDS
  {
    RewrittenIsNotSpecial(s, r, m, j);
  }

  lemma {:induction false} AllocModLater(s: State, m: nat, n: nat)
    requires UsedBelow(s) && m < |s.mods| && n <= |s.mods[m].patches| && s.mods[m].vendor == NVIDIA
    ensures var r := AllocMod(s, m, n);
            Later(s, r) && forall j :: 0 <= j < n && IsSpecial(r.mods[m].patches[j]) ==> r.cursor == MAX_IDS
  {
    hide SlotOk, Different, IsSpecial, SameButFinds;
    if n == 0 {
      LaterSelf(s, s);
    } else {
      AllocModLater(s, m, n - 1);
      var q := AllocMod(s, m, n - 1);
      var r := AllocMod(s, m, n);
      VendorLater(s, q, m);
      AllocPatchLater(q, m, n - 1);
      LaterTrans(s, q, r);
      forall j | 0 <= j < n && IsSpecial(r.mods[m].patches[j]) ensures r.cursor == MAX_IDS {
        assert IsSlot(q, m, j) && IsSlot(r, m, j);
        LeftOver(q, r, m, j);
      }
    }
  }

  lemma VendorLater(s: State, r: State, m: nat)
    requires SameTables(s, r) && m < |s.mods|
    ensures r.mods[m].vendor == s.mods[m].vendor && |r.mods[m].patches| == |s.mods[m].patches|
  {
    assert SameButFinds(s.mods[m], r.mods[m]);
  }

  lemma LaterSame(s: State, q: State, r: State)
    requires Later(s, q) && r.mods == q.mods && r.used == q.used && r.cursor == q.cursor
    ensures Later(s, r)
  {
    LaterSelf(q, r);
    LaterTrans(s, q, r);
  }

  lemma HandleControllerLater(t: Tables, s: State, index: nat, i: nat)
    requires UsedBelow(s) && InfosOk(s) && i < |s.controllers|
    ensures Later(s, HandleController(t, s, index, i))
    ensures NothingLeft(HandleController(t, s, index, i), i)
  {
    hide Later, Applied, IsSpecial;
    LaterSelf(s, s);
    var c := s.controllers[i];
    if c.info.Some? {
      var m := c.info.value;
      if s.mods[m].vendor == NVIDIA {
        var q := AllocMod(s, m, |s.mods[m].patches|);
        AllocModLater(s, m, |s.mods[m].patches|);
        LaterSame(s, q, HandleController(t, s, index, i));
      } else {
        LaterSame(s, s, HandleController(t, s, index, i));
      }
    }
  }

  /** A patch of controller i's NVIDIA entry that still asks for an id means there was none left. */
  ghost predicate NothingLeft(s: State, i: nat)
    requires CanAlloc(s) && InfosOk(s) && i < |s.controllers|
  {
    var c := s.controllers[i];
    c.info.Some? && s.mods[c.info.value].vendor == NVIDIA ==>
      forall j :: 0 <= j < |s.mods[c.info.value].patches| && IsSpecial(s.mods[c.info.value].patches[j]) ==>
        s.cursor == MAX_IDS
  }

  lemma NothingLeftLater(s: State, r: State, i: nat)
    requires Later(s, r) && InfosOk(s) && InfosOk(r) && r.controllers == s.controllers && i < |s.controllers|
    requires NothingLeft(s, i)
    ensures NothingLeft(r, i)
  {
    var c := s.controllers[i];
    if c.info.Some? {
      var m := c.info.value;
      VendorLater(s, r, m);
      forall j | 0 <= j < |r.mods[m].patches| && IsSpecial(r.mods[m].patches[j]) && r.mods[m].vendor == NVIDIA
        ensures r.cursor == MAX_IDS
      {
        assert IsSlot(s, m, j);
        LeftOver(s, r, m, j);
      }
    }
  }

  /** One pass over the controllers: only patches that ask for an id change, to different ids that were
      free; and if a controller's NVIDIA entry still asks for one, all ids are used. */
  lemma {:induction false} PassHandsOutFreeIds(t: Tables, s: State, index: nat, n: nat)
    requires UsedBelow(s) && InfosOk(s) && n <= |s.controllers|
    ensures Later(s, HandleControllers(t, s, index, n))
    ensures forall i :: 0 <= i < n ==> NothingLeft(HandleControllers(t, s, index, n), i)
  {
    hide Later, NothingLeft, HandleController;
    if n == 0 {
      LaterSelf(s, s);
    } else {
      PassHandsOutFreeIds(t, s, index, n - 1);
      var q := HandleControllers(t, s, index, n - 1);
      var r := HandleControllers(t, s, index, n);
      assert UsedBelow(q) by { LaterUsed(s, q); }
      HandleControllerLater(t, q, index, n - 1);
      LaterTrans(s, q, r);
      forall i | 0 <= i < n - 1 ensures NothingLeft(r, i) {
        NothingLeftLater(q, r, i);
      }
    }
  }

  lemma LaterUsed(s: State, r: State)
    requires Later(s, r)
    ensures UsedBelow(r)
  {
  }

  // ---------------------------------------------------------------- runs

  lemma StepLater(t: Tables, s: State, e: Event)
    requires Progress(t, s) && UsedBelow(s)
    ensures Later(s, Step(t, s, e))
  {
    hide Progress, Later, FindKext, HandleControllers, HandleCodecs, AfterUpdate, Grab, Erased;
    ProgressShape(t, s);
    match e {
      case UpdateProperties(dev) =>
        UpdateKeeps(s, dev);
        LaterSelf(s, AfterUpdate(s, dev));
      case ProcessKext(index, _, _, _) =>
        var kext := FindKext(t.kextList, index, 0);
        LaterSelf(s, s);
        if kext < |t.kextList| && kext != t.appleGFXHDA {
          var g := Grab(t, s, kext, e);
          GrabKeepsShape(t, s, kext, e);
          GrabKeepsIds(t, s, kext, e);
          LaterSelf(s, g);
          PassHandsOutFreeIds(t, g, index, |g.controllers|);
          LaterSelf(g, g);
          var h := if ControllersLoaded in g.progress then HandleControllers(t, g, index, |g.controllers|) else g;
          LaterTrans(s, g, h);
          LaterSame(s, h, Step(t, s, e));
        } else {
          LaterSame(s, s, Step(t, s, e));
        }
    }
  }

  lemma GrabKeepsIds(t: Tables, s: State, kext: nat, e: Event)
    requires e.ProcessKext? && kext < |t.kextList|
    ensures var g := Grab(t, s, kext, e); g.mods == s.mods && g.used == s.used && g.cursor == s.cursor
  {
  }

  /** Between any two states of a run: ids below the cursor are used, and patches only ever change
      from asking for an id to an id that was free before, no two of them to the same. */
  lemma {:induction false} IdsOverRuns(t: Tables, s: State, events: seq<Event>)
    requires Progress(t, s) && UsedBelow(s)
    ensures Later(s, Run(t, s, events))
  {
    hide Progress, Later, Step;
    if events == [] {
      LaterSelf(s, s);
    } else {
      IdsOverRuns(t, s, events[..|events| - 1]);
      var q := Run(t, s, events[..|events| - 1]);
      LaterUsed(s, q);
      StepLater(t, q, events[|events| - 1]);
      LaterTrans(s, q, Run(t, s, events));
    }
  }

  /** Over a whole run from the start: all ids below the cursor are used; rewritten patches were asking
      for an id in an NVIDIA entry, and hold different ids; no other patch has changed. */
  lemma RewrittenPatchesDiffer(t: Tables, mods: seq<ControllerMod>, events: seq<Event>)
    ensures Progress(t, Start(mods))
    ensures var r := Run(t, Start(mods), events);
            && UsedBelow(r) && SameTables(Start(mods), r)
            && (forall m, j :: IsSlot(Start(mods), m, j) ==> IsSlot(r, m, j) && SlotOk(Start(mods), r, m, j))
            && forall m, j, m', j' :: IsSlot(Start(mods), m, j) && IsSlot(Start(mods), m', j') ==>
                 Different(Start(mods), r, m, j, m', j')
  {
    hide Run, Progress;
    StartIsFine(t, mods);
    IdsOverRuns(t, Start(mods), events);
  }

  /** A patch rewritten by the events in a is left alone by the events in b, even if controllers that
      share its entry are handled again. */
  lemma RewrittenOnce(t: Tables, mods: seq<ControllerMod>, a: seq<Event>, b: seq<Event>, m: nat, j: nat)
    requires Progress(t, Start(mods)) && IsSlot(Start(mods), m, j)
    ensures var q, r := Run(t, Start(mods), a), Run(t, Start(mods), a + b);
            && IsSlot(q, m, j) && IsSlot(r, m, j)
            && (Rewritten(Start(mods), q, m, j) ==> Find(r, m, j) == Find(q, m, j))
  {
    hide Run, Progress, SlotOk, Different, SameTables;
    IdsOverRuns(t, Start(mods), a);
    var q := Run(t, Start(mods), a);
    IdsOverRuns(t, q, b);
    RunConcat(t, Start(mods), a, b);
    SlotLater(Start(mods), q, Run(t, q, b), m, j);
  }

  /** The id of an NVIDIA device that has been seen is not handed out afterwards. */
  lemma UsedIdsAreNotHandedOut(t: Tables, s: State, events: seq<Event>, k: nat, m: nat, j: nat)
    requires Progress(t, s) && UsedBelow(s) && k < MAX_IDS && s.used[k] && IsSlot(s, m, j)
    ensures var r := Run(t, s, events);
            IsSlot(r, m, j) && (Rewritten(s, r, m, j) ==> !Holds(Find(r, m, j), k))
  {
    hide Run, Progress, Different, SameTables;
    IdsOverRuns(t, s, events);
    var r := Run(t, s, events);
    assert SlotOk(s, r, m, j);
    if Rewritten(s, r, m, j) {
      var i :| Taken(s, r, i) && Holds(Find(r, m, j), i);
      if Holds(Find(r, m, j), k) {
        IdsDiffer(Find(r, m, j), i, k);
      }
    }
  }

  /** After a kext event, a patch of a controller's NVIDIA entry that still asks for an id means that
      all ids are used. */
  lemma LeftOverMeansAllUsed(t: Tables, s: State, e: Event, i: nat, m: nat, j: nat)
    requires Progress(t, s) && UsedBelow(s) && e.ProcessKext?
    requires var kext := FindKext(t.kextList, e.index, 0); kext < |t.kextList| && kext != t.appleGFXHDA
    requires var r := Step(t, s, e);
             && i < |r.controllers| && r.controllers[i].info == Some(m)
             && m < |r.mods| && r.mods[m].vendor == NVIDIA && j < |r.mods[m].patches| && IsSpecial(r.mods[m].patches[j])
    ensures Step(t, s, e).used == seq(MAX_IDS, _ => true)
  {
    hide FindKext, HandleControllers, HandleCodecs, Grab, Erased, IsSpecial, Progress;
    ProgressShape(t, s);
    var kext := FindKext(t.kextList, e.index, 0);
    StepLater(t, s, e);
    GrabKeepsProgress(t, s, kext, e);
    GrabKeepsIds(t, s, kext, e);
    var g := Grab(t, s, kext, e);
    GrabKeepsShape(t, s, kext, e);
    PassHandsOutFreeIds(t, g, e.index, |g.controllers|);
    var q := HandleControllers(t, g, e.index, |g.controllers|);
    assert NothingLeft(q, i);
    assert Step(t, s, e).cursor == MAX_IDS;
  }

  // ---------------------------------------------------------------- how many ids are handed out

  function UsedCount(used: seq<bool>): nat {
    if used == [] then 0 else UsedCount(used[..|used| - 1]) + if used[|used| - 1] then 1 else 0
  }

  /** The number of patches that ask for an id. */
  function Asking(patches: seq<KextPatch>): nat {
    if patches == [] then 0 else Asking(patches[..|patches| - 1]) + if IsSpecial(patches[|patches| - 1]) then 1 else 0
  }

  function AskingAll(mods: seq<ControllerMod>): nat {
    if mods == [] then 0 else AskingAll(mods[..|mods| - 1]) + Asking(mods[|mods| - 1].patches)
  }

  lemma {:induction false} UsedCountSet(used: seq<bool>, k: nat)
    requires k < |used| && !used[k]
    ensures UsedCount(used[k := true]) == UsedCount(used) + 1
  {
    var init := used[..|used| - 1];
    if k == |used| - 1 {
      assert used[k := true][..|used| - 1] == init;
    } else {
      UsedCountSet(init, k);
      assert used[k := true][..|used| - 1] == init[k := true];
    }
  }

  lemma {:induction false} AskingSet(patches: seq<KextPatch>, j: nat, p: KextPatch)
    requires j < |patches| && IsSpecial(patches[j]) && !IsSpecial(p)
    ensures Asking(patches) == Asking(patches[j := p]) + 1
  {
    hide IsSpecial;
    var init := patches[..|patches| - 1];
    if j == |patches| - 1 {
      assert patches[j := p][..|patches| - 1] == init;
    } else {
      AskingSet(init, j, p);
      assert patches[j := p][..|patches| - 1] == init[j := p];
    }
  }

  lemma {:induction false} AskingAllSet(mods: seq<ControllerMod>, m: nat, mod: ControllerMod)
    requires m < |mods|
    ensures AskingAll(mods[m := mod]) + Asking(mods[m].patches) == AskingAll(mods) + Asking(mod.patches)
  {
    hide Asking;
    var init := mods[..|mods| - 1];
    if m == |mods| - 1 {
      assert mods[m := mod][..|mods| - 1] == init;
    } else {
      AskingAllSet(init, m, mod);
      assert mods[m := mod][..|mods| - 1] == init[m := mod];
    }
  }

  ghost function Total(s: State): nat {
    UsedCount(s.used) + AskingAll(s.mods)
  }

  lemma AllocPatchTotal(s: State, m: nat, j: nat)
    requires CanAlloc(s) && m < |s.mods| && j < |s.mods[m].patches|
    ensures Total(AllocPatch(s, m, j)) == Total(s)
  {
    hide UsedCount, Asking, AskingAll, IsSpecial;
    var k := NextFree(s.used, s.cursor);
    if IsSpecial(s.mods[m].patches[j]) && k < MAX_IDS {
      var patches := s.mods[m].patches;
      var p := patches[j].(find := Bytes32(ID_LIST[k]));
      HoldsIff(p.find, k);
      IdIsNotSpecial(k, p);
      UsedCountSet(s.used, k);
      AskingSet(patches, j, p);
      AskingAllSet(s.mods, m, s.mods[m].(patches := patches[j := p]));
    }
  }

  lemma {:induction false} AllocModTotal(s: State, m: nat, n: nat)
    requires CanAlloc(s) && m < |s.mods| && n <= |s.mods[m].patches|
    ensures Total(AllocMod(s, m, n)) == Total(s)
  {
    hide Total, AllocPatch;
    if n > 0 {
      AllocModTotal(s, m, n - 1);
      AllocPatchTotal(AllocMod(s, m, n - 1), m, n - 1);
    }
  }

  /** A pass takes exactly one id per patch that it rewrites: used ids and asking patches add up to
      the same number before and after. */
  lemma {:induction false} OneIdPerRewrittenPatch(t: Tables, s: State, index: nat, n: nat)
    requires CanAlloc(s) && InfosOk(s) && n <= |s.controllers|
    ensures var r := HandleControllers(t, s, index, n);
            UsedCount(r.used) + AskingAll(r.mods) == UsedCount(s.used) + AskingAll(s.mods)
  {
    hide UsedCount, AskingAll, Applied;
    if n > 0 {
      OneIdPerRewrittenPatch(t, s, index, n - 1);
      var q := HandleControllers(t, s, index, n - 1);
      var c := q.controllers[n - 1];
      if c.info.Some? {
        AllocModTotal(q, c.info.value, |q.mods[c.info.value].patches|);
      }
    }
  }

  /** A kext event takes exactly one id per patch that it rewrites. */
  lemma KextEventKeepsTotal(t: Tables, s: State, e: Event)
    requires Progress(t, s) && e.ProcessKext?
    ensures Total(Step(t, s, e)) == Total(s)
  {
    hide FindKext, HandleControllers, HandleCodecs, Grab, Erased, Progress, UsedCount, AskingAll;
    ProgressShape(t, s);
    var kext := FindKext(t.kextList, e.index, 0);
    if kext < |t.kextList| && kext != t.appleGFXHDA {
      GrabKeepsIds(t, s, kext, e);
      GrabKeepsShape(t, s, kext, e);
      var g := Grab(t, s, kext, e);
      OneIdPerRewrittenPatch(t, g, e.index, |g.controllers|);
    }
  }

  /** The ids that are used in r but not in s. */
  ghost function NewlyUsed(a: seq<bool>, b: seq<bool>): set<int>
    requires |a| == |b|
  {
    set i | 0 <= i < |a| && !a[i] && b[i]
  }

  lemma {:induction false} UsedCountGrows(a: seq<bool>, b: seq<bool>)
    requires |a| == |b| && forall i :: 0 <= i < |a| && a[i] ==> b[i]
    ensures UsedCount(b) == UsedCount(a) + |NewlyUsed(a, b)|
  {
    if a == [] {
      assert NewlyUsed(a, b) == {};
    } else {
      var last := |a| - 1;
      UsedCountGrows(a[..last], b[..last]);
      assert NewlyUsed(a, b) == NewlyUsed(a[..last], b[..last]) + if !a[last] && b[last] then {last} else {};
    }
  }

  /** The number of ids that the updates of a run mark for the first time. */
  ghost function MarkedByUpdates(t: Tables, s: State, events: seq<Event>): nat
    requires Progress(t, s)
  {
    if events == [] then 0
    else
      var q, e := Run(t, s, events[..|events| - 1]), events[|events| - 1];
      StepKeepsProgress(t, q, e);
      MarkedByUpdates(t, s, events[..|events| - 1])
      + if e.UpdateProperties? then |NewlyUsed(q.used, Step(t, q, e).used)| else 0
  }

  lemma UpdateTotal(t: Tables, s: State, e: Event)
    requires Progress(t, s) && e.UpdateProperties?
    ensures Total(Step(t, s, e)) == Total(s) + |NewlyUsed(s.used, Step(t, s, e).used)|
  {
    hide UsedCount, AskingAll, AfterUpdate, NewlyUsed;
    UpdateKeeps(s, e.dev);
    UsedCountGrows(s.used, Step(t, s, e).used);
  }

  /** Over a run, used ids and asking patches together grow by exactly the ids that updates mark for the
      first time: kext events only turn asking patches into used ids, one for one. */
  lemma {:induction false} TotalOverRuns(t: Tables, s: State, events: seq<Event>)
    requires Progress(t, s)
    ensures var r := Run(t, s, events);
            UsedCount(r.used) + AskingAll(r.mods) ==
            UsedCount(s.used) + AskingAll(s.mods) + MarkedByUpdates(t, s, events)
  {
    hide Progress, Step, UsedCount, AskingAll, NewlyUsed;
    if events != [] {
      var q, e := Run(t, s, events[..|events| - 1]), events[|events| - 1];
      TotalOverRuns(t, s, events[..|events| - 1]);
      if e.UpdateProperties? {
        UpdateTotal(t, q, e);
      } else {
        KextEventKeepsTotal(t, q, e);
      }
    }
  }

  // ---------------------------------------------------------------- devices that are present

  /** An NVIDIA device that may be injected, and has the device number of id k. */
  predicate HoldsId(gpu: Gpu, k: nat)
    requires k < MAX_IDS
  {
    && gpu.vendor == 0x10DE && gpu.audio.Some? && !gpu.audio.value.noControllerInject
    && gpu.audio.value.revisionId.Some? && gpu.audio.value.deviceId.Some?
    && gpu.audio.value.deviceId.value % 0x10000 == ID_LIST[k] / 0x10000
  }

  lemma {:induction false} MarkedIffPresent(s: State, gpus: seq<Gpu>, k: nat)
    requires |s.used| == MAX_IDS && k < MAX_IDS
    ensures AddGpus(s, gpus).used[k] <==> s.used[k] || exists gpu :: gpu in gpus && HoldsId(gpu, k)
  {
    if gpus != [] {
      var front, last := gpus[..|gpus| - 1], gpus[|gpus| - 1];
      MarkedIffPresent(s, front, k);
      MarkedByOne(AddGpus(s, front), last, k);
      assert gpus == front + [last];
    }
  }

  lemma MarkedByOne(s: State, gpu: Gpu, k: nat)
    requires |s.used| == MAX_IDS && k < MAX_IDS
    ensures AddGpu(s, gpu).used[k] <==> s.used[k] || HoldsId(gpu, k)
  {
    SpareIds();
    if gpu.audio.Some? && gpu.audio.value.deviceId.Some? {
      IdOfDevice(gpu.audio.value.deviceId.value, k);
    }
    hide DeviceId;
  }

  /** The number that the list is searched for is that of the device if the device halves agree. */
  lemma IdOfDevice(device: u32, k: nat)
    requires k < MAX_IDS
    ensures DeviceId(device) == ID_LIST[k] <==> device % 0x10000 == ID_LIST[k] / 0x10000
  {
    SpareIds();
    var high: int := device % 0x10000;
    assert (high * 0x10000 + 0x10DE) / 0x10000 == high;
  }

  /** An input: with an NVIDIA device 0x0E0A present, the first id is taken; the first to be handed out is
      the second one, and the find value of the patch that gets it is DE 10 0B 0E. */
  lemma FirstIdIsPresent(s: State, dev: DeviceInfo, gpu: Gpu, p: KextPatch, m: ControllerMod)
    requires s == Start([m]) && m.patches == [p] && p.find == [0x4E, 0x56, 0x44, 0x41]
    requires dev.videoExternal == [gpu] && gpu.vendor == 0x10DE && gpu.audio.Some?
    requires var a := gpu.audio.value;
             !a.noControllerInject && a.deviceId == Some(0x0E0A) && a.revisionId.Some?
    ensures var q := AfterUpdate(s, Some(dev));
            && CanAlloc(q) && q.used[0] && q.mods == [m]
            && AllocPatch(q, 0, 0).mods[0].patches[0].find == [0xDE, 0x10, 0x0B, 0x0E]
  {
    hide AddBuiltin;
    var b := AddBuiltin(s, dev);
    UpdateKeeps(s, Some(dev));
    var q := AfterUpdate(s, Some(dev));
    MarkedIffPresent(b, [gpu], 0);
    MarkedIffPresent(b, [gpu], 1);
    assert HoldsId(gpu, 0) && !HoldsId(gpu, 1);
    AskingPatches(p);
    assert q.used[0] && !q.used[1];
    assert NextFree(q.used, 0) == NextFree(q.used, 1) == 1;
  }

  /** The id of an NVIDIA device that is seen in one event is never handed out in a later one. */
  lemma PresentDevicesKeepTheirIds(t: Tables, s: State, dev: DeviceInfo, events: seq<Event>, gpu: Gpu, k: nat,
                                   m: nat, j: nat)
    requires Progress(t, s) && UsedBelow(s) && k < MAX_IDS && IsSlot(s, m, j)
    requires gpu in dev.videoExternal && HoldsId(gpu, k)
    ensures Progress(t, AfterUpdate(s, Some(dev)))
    ensures var r := Run(t, AfterUpdate(s, Some(dev)), events);
            IsSlot(r, m, j) && (Rewritten(s, r, m, j) ==> !Holds(Find(r, m, j), k))
  {
    hide Run, Progress, HoldsId, Later, AfterUpdate;
    var q := AfterUpdate(s, Some(dev));
    UpdateKeepsProgress(t, s, Some(dev));
    UpdateKeeps(s, Some(dev));
    UpdateMarks(s, dev, gpu, k);
    UsedIdsAreNotHandedOut(t, q, events, k, m, j);
  }

  lemma UpdateMarks(s: State, dev: DeviceInfo, gpu: Gpu, k: nat)
    requires |s.used| == MAX_IDS && k < MAX_IDS && gpu in dev.videoExternal && HoldsId(gpu, k)
    ensures AfterUpdate(s, Some(dev)).used[k]
  {
    hide HoldsId, AddGpus;
    MarkedIffPresent(AddBuiltin(s, dev), dev.videoExternal, k);
  }

  // ---------------------------------------------------------------- which patches are applied

  /** The patch is for this kext and the running kernel. */
  predicate IsFor(t: Tables, index: nat, p: KextPatch) {
    p.kext < |t.kextList| && t.kextList[p.kext].loadIndex == index && t.compatible(p.minKernel, p.maxKernel)
  }

  lemma {:induction false} AppliedIff(t: Tables, index: nat, patches: seq<KextPatch>, a: Action)
    ensures a in Applied(t, index, patches) <==> a.Apply? && a.patch in patches && IsFor(t, index, a.patch)
  {
    if patches != [] {
      AppliedIff(t, index, patches[..|patches| - 1], a);
      assert patches == patches[..|patches| - 1] + [patches[|patches| - 1]];
    }
  }

  /** a applies a patch of controller i's entry, as it is in r. */
  ghost predicate FromController(t: Tables, r: State, index: nat, i: int, a: Action)
    requires InfosOk(r)
  {
    && 0 <= i < |r.controllers| && r.controllers[i].info.Some? && !r.controllers[i].nopatch
    && a.Apply? && a.patch in r.mods[r.controllers[i].info.value].patches && IsFor(t, index, a.patch)
  }

  lemma GivenHasRoom(s: State, r: State, find: Bytes)
    requires CanAlloc(s) && CanAlloc(r)
    ensures Given(s, r, find) ==> s.cursor < MAX_IDS
  {
  }

  /** The entry of a controller that has been handled does not change any more. */
  lemma SettledStays(s: State, r: State, i: nat, m: nat)
    requires Later(s, r) && InfosOk(s) && i < |s.controllers| && s.controllers[i].info == Some(m)
    requires NothingLeft(s, i)
    ensures m < |r.mods| && r.mods[m] == s.mods[m]
  {
    hide IsSpecial, Given, Different;
    assert SameButFinds(s.mods[m], r.mods[m]);
    forall j | 0 <= j < |s.mods[m].patches| ensures r.mods[m].patches[j] == s.mods[m].patches[j] {
      assert IsSlot(s, m, j) && IsSlot(r, m, j);
      assert SlotOk(s, r, m, j);
      GivenHasRoom(s, r, Find(r, m, j));
      assert !Rewritten(s, r, m, j);
    }
  }

  /** a applies a patch of one of the first n controllers' entries, as they are in r. */
  ghost predicate AppliedBy(t: Tables, r: State, index: nat, n: nat, a: Action)
    requires InfosOk(r)
  {
    exists i :: 0 <= i < n && FromController(t, r, index, i, a)
  }

  ghost predicate LogIs(t: Tables, base: seq<Action>, r: State, index: nat, n: nat) {
    && InfosOk(r) && base <= r.log
    && forall a :: a in r.log[|base|..] <==> AppliedBy(t, r, index, n, a)
  }

  lemma AppliedByOneMore(t: Tables, q: State, r: State, index: nat, last: nat, a: Action)
    requires Later(q, r) && InfosOk(q) && InfosOk(r) && r.controllers == q.controllers && last < |q.controllers|
    requires forall i :: 0 <= i < last ==> NothingLeft(q, i)
    ensures AppliedBy(t, r, index, last + 1, a) <==>
            AppliedBy(t, q, index, last, a) || FromController(t, r, index, last, a)
  {
    hide Later, NothingLeft, FromController;
    forall i | 0 <= i < last ensures FromController(t, r, index, i, a) <==> FromController(t, q, index, i, a) {
      SameEntry(t, q, r, index, i, a);
    }
  }

  /** The log entries that a pass adds are exactly the applications of the patches that the entries of
      patchable controllers hold when the pass is over, whichever controller a shared entry was
      rewritten for. */
  lemma {:induction false} PassAppliesFinalPatches(t: Tables, s: State, index: nat, n: nat)
    requires UsedBelow(s) && InfosOk(s) && n <= |s.controllers|
    ensures LogIs(t, s.log, HandleControllers(t, s, index, n), index, n)
  {
    assert CanAlloc(s);
    if n == 0 {
      hide FromController, UsedBelow;
    } else {
      hide Later, NothingLeft, HandleController, AppliedBy, FromController, UsedBelow;
      var last: nat := n - 1;
      PassAppliesFinalPatches(t, s, index, last);
      var q := HandleControllers(t, s, index, last);
      var r := HandleControllers(t, s, index, n);
      PassHandsOutFreeIds(t, s, index, last);
      LaterUsed(s, q);
      HandleControllerLater(t, q, index, last);
      HandledGrows(t, q, index, last);
      forall a ensures a in r.log[|s.log|..] <==> AppliedBy(t, r, index, n, a) {
        HandledLog(t, q, index, last, a);
        AppliedByOneMore(t, q, r, index, last, a);
        SplitLog(s.log, q.log, r.log, a);
      }
    }
  }

  lemma SplitLog(a: seq<Action>, b: seq<Action>, c: seq<Action>, x: Action)
    requires a <= b <= c
    ensures x in c[|a|..] <==> x in b[|a|..] || x in c[|b|..]
  {
    assert c[|a|..] == b[|a|..] + c[|b|..];
  }

  lemma SameEntry(t: Tables, q: State, r: State, index: nat, i: nat, a: Action)
    requires Later(q, r) && InfosOk(q) && InfosOk(r) && r.controllers == q.controllers && i < |q.controllers|
    requires NothingLeft(q, i)
    ensures FromController(t, r, index, i, a) <==> FromController(t, q, index, i, a)
  {
    hide Later, NothingLeft;
    if q.controllers[i].info.Some? {
      SettledStays(q, r, i, q.controllers[i].info.value);
    }
  }

  lemma HandledGrows(t: Tables, s: State, index: nat, i: nat)
    requires CanAlloc(s) && InfosOk(s) && i < |s.controllers|
    ensures var r := HandleController(t, s, index, i); InfosOk(r) && s.log <= r.log
  {
    hide Applied, AllocMod;
    if s.controllers[i].info.Some? {
      AllocKeeps(s, s.controllers[i].info.value, |s.mods[s.controllers[i].info.value].patches|);
    }
  }

  lemma HandledLog(t: Tables, s: State, index: nat, i: nat, a: Action)
    requires UsedBelow(s) && InfosOk(s) && i < |s.controllers|
    ensures var r := HandleController(t, s, index, i);
            && InfosOk(r) && s.log <= r.log
            && (a in r.log[|s.log|..] <==> FromController(t, r, index, i, a))
  {
    HandledGrows(t, s, index, i);
    hide Applied, IsFor, AllocMod;
    var c := s.controllers[i];
    var r := HandleController(t, s, index, i);
    if c.info.Some? {
      var m := c.info.value;
      AllocKeeps(s, m, |s.mods[m].patches|);
      AppliedIff(t, index, r.mods[m].patches, a);
      if !c.nopatch {
        assert r.log == s.log + Applied(t, index, r.mods[m].patches);
      }
    }
  }

  ghost predicate FromCodec(t: Tables, s: State, index: nat, i: int, a: Action)
    requires CodecInfosOk(t, s)
  {
    && 0 <= i < |s.codecs| && s.codecs[i].info.Some?
    && a.Apply? && a.patch in ModOf(t, s.codecs[i]).patches && IsFor(t, index, a.patch)
  }

  /** Handling the codecs logs exactly the patches of their entries that are for this kext and kernel. */
  lemma {:induction false} CodecPatchesAreApplied(t: Tables, s: State, index: nat, n: nat, a: Action)
    requires CodecInfosOk(t, s) && n <= |s.codecs|
    ensures var r := HandleCodecs(t, s, index, n);
            && s.log <= r.log
            && (a in r.log[|s.log|..] <==> exists i :: 0 <= i < n && FromCodec(t, s, index, i, a))
  {
    hide Applied, IsFor, HasFiles;
    if n > 0 {
      CodecPatchesAreApplied(t, s, index, n - 1, a);
      var q, r := HandleCodecs(t, s, index, n - 1), HandleCodecs(t, s, index, n);
      var c := s.codecs[n - 1];
      assert q.codecs[n - 1] == c;
      if c.info.Some? {
        AppliedIff(t, index, ModOf(t, c).patches, a);
        assert r.log == q.log + Applied(t, index, ModOf(t, c).patches);
      }
      SplitLog(s.log, q.log, r.log, a);
      assert (exists i :: 0 <= i < n && FromCodec(t, s, index, i, a)) <==>
             (exists i :: 0 <= i < n - 1 && FromCodec(t, s, index, i, a)) || FromCodec(t, s, index, n - 1, a);
    }
  }
}

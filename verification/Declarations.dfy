/** The C++ declarations that ResourceConverter writes to kern_resources.cpp, and what they denote
    to a compiler that reads them in order. */
module Declarations {
  import opened Values

  // ---------------------------------------------------------------- what is written

  /** A pair "name<index>, <count>", or "nullptr, 0". */
  datatype Ref = Null | Ref(index: nat, count: nat)

  datatype KextRow = KextRow(id: string, paths: nat, pathCount: nat, reloadable: bool, detect: bool)

  datatype FileRow = FileRow(file: Ref, minKernel: string, maxKernel: string, id: string)

  /** A line of a patch table: a row, whose `kext` is None if "(null)" is printed for the index, or an
      #error line, which is no element of the array. */
  datatype PatchRow =
    | PatchRow(kext: Option<nat>, find: nat, replace: nat, size: nat, count: string,
               minKernel: string, maxKernel: string)
    | LengthError

  datatype CodecRow = CodecRow(name: string, codec: nat, revisions: Ref, platforms: Ref, layouts: Ref, patches: Ref)

  datatype ControllerRow = ControllerRow(name: string, vendor: nat, device: nat, revisions: Ref,
                                         platform: string, model: string, patches: Ref)

  datatype VendorRow = VendorRow(name: string, vendor: nat, codecMod: string, num: nat)

  /** The names of the size_t constants. */
  datatype Const = KextId(id: string) | KextListSize | VendorModSize | ControllerModSize

  datatype Decl =
    | KextPaths(index: nat, paths: seq<string>)
    | KextList(kexts: seq<KextRow>)
    | Revisions(index: nat, values: seq<nat>)
    | File(index: nat, lines: seq<Bytes>)
    | Platforms(index: nat, files: seq<FileRow>)
    | Layouts(index: nat, files: seq<FileRow>)
    | PatchBuf(index: nat, bytes: Bytes)
    | Patches(index: nat, rows: seq<PatchRow>)
    | CodecMod(vendor: string, codecs: seq<CodecRow>)
    | VendorMod(vendors: seq<VendorRow>)
    | ControllerMod(controllers: seq<ControllerRow>)
    | Constant(name: Const, value: nat)

  // ---------------------------------------------------------------- what it denotes

  datatype KextValue = KextValue(id: string, paths: seq<string>, reloadable: bool, detect: bool)

  datatype FileValue = FileValue(data: Option<Bytes>, minKernel: string, maxKernel: string, id: string)

  datatype PatchValue = PatchValue(kext: Option<KextValue>, find: Bytes, replace: Bytes, size: nat, count: string,
                                   minKernel: string, maxKernel: string)

  /** The elements of a patch array, and the count that a reference to it is paired with. */
  datatype PatchTable = PatchTable(rows: seq<PatchValue>, count: nat)

  datatype CodecValue = CodecValue(name: string, codec: nat, revisions: Option<seq<nat>>,
                                   platforms: Option<seq<FileValue>>, layouts: Option<seq<FileValue>>,
                                   patches: Option<PatchTable>)

  datatype ControllerValue = ControllerValue(name: string, vendor: nat, device: nat, revisions: Option<seq<nat>>,
                                             platform: string, model: string, patches: Option<PatchTable>)

  datatype VendorValue = VendorValue(name: string, vendor: nat, codecs: seq<CodecValue>)

  /** What has been declared so far. `good` is lost for ever by declaring an array twice, by mentioning an
      array that is not declared yet, or, but for patch arrays, by a count that is not the number of
      elements. `clean` is lost for ever by an #error line, by an index "(null)", by a count that is not
      the number of elements of a patch array, or by declaring a constant twice. */
  datatype Env = Env(
    good: bool,
    clean: bool,
    constants: map<Const, nat>,
    paths: map<nat, seq<string>>,
    kexts: Option<seq<KextValue>>,
    revisions: map<nat, seq<nat>>,
    files: map<nat, Bytes>,
    platforms: map<nat, seq<FileValue>>,
    layouts: map<nat, seq<FileValue>>,
    bufs: map<nat, Bytes>,
    patches: map<nat, seq<PatchValue>>,
    codecMods: map<string, seq<CodecValue>>,
    vendors: Option<seq<VendorValue>>,
    controllers: Option<seq<ControllerValue>>)

  const NOTHING := Env(true, true, map[], map[], None, map[], map[], map[], map[], map[], map[], map[], None, None)

  function Flatten(lines: seq<Bytes>): Bytes {
    if lines == [] then [] else Flatten(lines[..|lines| - 1]) + lines[|lines| - 1]
  }

  /** A reference to an array of the environment, with the right count. */
  predicate RefOk<T>(arrays: map<nat, seq<T>>, r: Ref) {
    r.Ref? ==> r.index in arrays && r.count == |arrays[r.index]|
  }

  function Deref<T>(arrays: map<nat, seq<T>>, r: Ref): Option<seq<T>>
    requires RefOk(arrays, r)
  {
    if r.Ref? then Some(arrays[r.index]) else None
  }

  predicate KextOk(e: Env, r: KextRow) {
    r.paths in e.paths && r.pathCount == |e.paths[r.paths]|
  }

  function KextMeans(e: Env, r: KextRow): KextValue
    requires KextOk(e, r)
  {
    KextValue(r.id, e.paths[r.paths], r.reloadable, r.detect)
  }

  predicate FileOk(e: Env, r: FileRow) {
    RefOk(e.files, r.file)
  }

  function FileMeans(e: Env, r: FileRow): FileValue
    requires FileOk(e, r)
  {
    FileValue(Deref(e.files, r.file), r.minKernel, r.maxKernel, r.id)
  }

  predicate PatchOk(e: Env, r: PatchRow) {
    r.PatchRow? ==>
      && r.find in e.bufs && |e.bufs[r.find]| == r.size
      && r.replace in e.bufs && |e.bufs[r.replace]| == r.size
      && (r.kext.Some? ==> e.kexts.Some? && r.kext.value < |e.kexts.value|)
  }

  function PatchMeans(e: Env, r: PatchRow): PatchValue
    requires r.PatchRow? && PatchOk(e, r)
  {
    PatchValue(if r.kext.Some? then Some(e.kexts.value[r.kext.value]) else None,
               e.bufs[r.find], e.bufs[r.replace], r.size, r.count, r.minKernel, r.maxKernel)
  }

  /** A reference to a patch array; its count may be wrong. */
  predicate PatchRefOk(arrays: map<nat, seq<PatchValue>>, r: Ref) {
    r.Ref? ==> r.index in arrays
  }

  function PatchDeref(arrays: map<nat, seq<PatchValue>>, r: Ref): Option<PatchTable>
    requires PatchRefOk(arrays, r)
  {
    if r.Ref? then Some(PatchTable(arrays[r.index], r.count)) else None
  }

  /** The count of a reference to a patch array is right. */
  predicate CountRight(arrays: map<nat, seq<PatchValue>>, r: Ref) {
    r.Ref? ==> r.index in arrays && r.count == |arrays[r.index]|
  }

  predicate CodecOk(e: Env, r: CodecRow) {
    RefOk(e.revisions, r.revisions) && RefOk(e.platforms, r.platforms)
    && RefOk(e.layouts, r.layouts) && PatchRefOk(e.patches, r.patches)
  }

  function CodecMeans(e: Env, r: CodecRow): CodecValue
    requires CodecOk(e, r)
  {
    CodecValue(r.name, r.codec, Deref(e.revisions, r.revisions), Deref(e.platforms, r.platforms),
               Deref(e.layouts, r.layouts), PatchDeref(e.patches, r.patches))
  }

  predicate ControllerOk(e: Env, r: ControllerRow) {
    RefOk(e.revisions, r.revisions) && PatchRefOk(e.patches, r.patches)
  }

  function ControllerMeans(e: Env, r: ControllerRow): ControllerValue
    requires ControllerOk(e, r)
  {
    ControllerValue(r.name, r.vendor, r.device, Deref(e.revisions, r.revisions), r.platform, r.model,
                    PatchDeref(e.patches, r.patches))
  }

  predicate VendorOk(e: Env, r: VendorRow) {
    r.codecMod in e.codecMods && r.num == |e.codecMods[r.codecMod]|
  }

  function VendorMeans(e: Env, r: VendorRow): VendorValue
    requires VendorOk(e, r)
  {
    VendorValue(r.name, r.vendor, e.codecMods[r.codecMod])
  }

  ghost predicate KextsOk(e: Env, rows: seq<KextRow>) {
    forall k :: 0 <= k < |rows| ==> KextOk(e, rows[k])
  }

  ghost function KextsMean(e: Env, rows: seq<KextRow>): (r: seq<KextValue>)
    requires KextsOk(e, rows)
    ensures |r| == |rows|
  {
    seq(|rows|, k requires 0 <= k < |rows| => KextMeans(e, rows[k]))
  }

  ghost predicate FilesOk(e: Env, rows: seq<FileRow>) {
    forall k :: 0 <= k < |rows| ==> FileOk(e, rows[k])
  }

  ghost function FilesMean(e: Env, rows: seq<FileRow>): (r: seq<FileValue>)
    requires FilesOk(e, rows)
    ensures |r| == |rows|
  {
    seq(|rows|, k requires 0 <= k < |rows| => FileMeans(e, rows[k]))
  }

  ghost predicate PatchRowsOk(e: Env, rows: seq<PatchRow>) {
    forall k :: 0 <= k < |rows| ==> PatchOk(e, rows[k])
  }

  /** The elements of the array; #error lines are none. */
  ghost function PatchRowsMean(e: Env, rows: seq<PatchRow>): seq<PatchValue>
    requires PatchRowsOk(e, rows)
  {
    if rows == [] then []
    else
      var last := rows[|rows| - 1];
      assert PatchOk(e, last);
      PatchRowsMean(e, rows[..|rows| - 1]) + if last.PatchRow? then [PatchMeans(e, last)] else []
  }

  /** No #error line, and no index "(null)". */
  ghost predicate RowsClean(rows: seq<PatchRow>) {
    forall k :: 0 <= k < |rows| ==> rows[k].PatchRow? && rows[k].kext.Some?
  }

  ghost predicate CodecCountsRight(e: Env, rows: seq<CodecRow>) {
    forall k :: 0 <= k < |rows| ==> CountRight(e.patches, rows[k].patches)
  }

  ghost predicate ControllerCountsRight(e: Env, rows: seq<ControllerRow>) {
    forall k :: 0 <= k < |rows| ==> CountRight(e.patches, rows[k].patches)
  }

  ghost predicate CodecsOk(e: Env, rows: seq<CodecRow>) {
    forall k :: 0 <= k < |rows| ==> CodecOk(e, rows[k])
  }

  ghost function CodecsMean(e: Env, rows: seq<CodecRow>): (r: seq<CodecValue>)
    requires CodecsOk(e, rows)
    ensures |r| == |rows|
  {
    seq(|rows|, k requires 0 <= k < |rows| => CodecMeans(e, rows[k]))
  }

  ghost predicate ControllersOk(e: Env, rows: seq<ControllerRow>) {
    forall k :: 0 <= k < |rows| ==> ControllerOk(e, rows[k])
  }

  ghost function ControllersMean(e: Env, rows: seq<ControllerRow>): (r: seq<ControllerValue>)
    requires ControllersOk(e, rows)
    ensures |r| == |rows|
  {
    seq(|rows|, k requires 0 <= k < |rows| => ControllerMeans(e, rows[k]))
  }

  ghost predicate VendorsOk(e: Env, rows: seq<VendorRow>) {
    forall k :: 0 <= k < |rows| ==> VendorOk(e, rows[k])
  }

  ghost function VendorsMean(e: Env, rows: seq<VendorRow>): (r: seq<VendorValue>)
    requires VendorsOk(e, rows)
    ensures |r| == |rows|
  {
    seq(|rows|, k requires 0 <= k < |rows| => VendorMeans(e, rows[k]))
  }

  /** The name of the declared array or constant. */
  datatype Name = NPaths(i: nat) | NKexts | NRevisions(i: nat) | NFile(i: nat) | NPlatforms(i: nat) | NLayouts(i: nat)
                | NBuf(i: nat) | NPatches(i: nat) | NCodecMod(v: string) | NVendors | NControllers
                | NConst(c: Const)

  function NameOf(d: Decl): Name {
    match d
    case KextPaths(i, _) => NPaths(i)
    case KextList(_) => NKexts
    case Revisions(i, _) => NRevisions(i)
    case File(i, _) => NFile(i)
    case Platforms(i, _) => NPlatforms(i)
    case Layouts(i, _) => NLayouts(i)
    case PatchBuf(i, _) => NBuf(i)
    case Patches(i, _) => NPatches(i)
    case CodecMod(v, _) => NCodecMod(v)
    case VendorMod(_) => NVendors
    case ControllerMod(_) => NControllers
    case Constant(c, _) => NConst(c)
  }

  /** The array or constant is there. */
  predicate Has(e: Env, n: Name) {
    match n
    case NPaths(i) => i in e.paths
    case NKexts => e.kexts.Some?
    case NRevisions(i) => i in e.revisions
    case NFile(i) => i in e.files
    case NPlatforms(i) => i in e.platforms
    case NLayouts(i) => i in e.layouts
    case NBuf(i) => i in e.bufs
    case NPatches(i) => i in e.patches
    case NCodecMod(v) => v in e.codecMods
    case NVendors => e.vendors.Some?
    case NControllers => e.controllers.Some?
    case NConst(c) => c in e.constants
  }

  /** Everything that a declaration mentions is there, with the right count but for patch arrays. */
  ghost predicate Ready(e: Env, d: Decl) {
    match d
    case KextPaths(_, _) => true
    case KextList(rows) => KextsOk(e, rows)
    case Revisions(_, _) => true
    case File(_, _) => true
    case Platforms(_, rows) => FilesOk(e, rows)
    case Layouts(_, rows) => FilesOk(e, rows)
    case PatchBuf(_, _) => true
    case Patches(_, rows) => PatchRowsOk(e, rows)
    case CodecMod(_, rows) => CodecsOk(e, rows)
    case VendorMod(rows) => VendorsOk(e, rows)
    case ControllerMod(rows) => ControllersOk(e, rows)
    case Constant(_, _) => true
  }

  /** A declaration that does not cost the program its cleanness. */
  ghost predicate IsClean(e: Env, d: Decl) {
    match d
    case Patches(_, rows) => RowsClean(rows)
    case CodecMod(_, rows) => CodecCountsRight(e, rows)
    case ControllerMod(rows) => ControllerCountsRight(e, rows)
    case Constant(c, _) => c !in e.constants
    case _ => true
  }

  ghost function Declare(e: Env, d: Decl): Env
    requires Ready(e, d)
  {
    match d
    case KextPaths(i, paths) => e.(paths := e.paths[i := paths])
    case KextList(rows) => e.(kexts := Some(KextsMean(e, rows)))
    case Revisions(i, values) => e.(revisions := e.revisions[i := values])
    case File(i, lines) => e.(files := e.files[i := Flatten(lines)])
    case Platforms(i, rows) => e.(platforms := e.platforms[i := FilesMean(e, rows)])
    case Layouts(i, rows) => e.(layouts := e.layouts[i := FilesMean(e, rows)])
    case PatchBuf(i, bytes) => e.(bufs := e.bufs[i := bytes])
    case Patches(i, rows) => e.(patches := e.patches[i := PatchRowsMean(e, rows)])
    case CodecMod(vendor, rows) => e.(codecMods := e.codecMods[vendor := CodecsMean(e, rows)])
    case VendorMod(rows) => e.(vendors := Some(VendorsMean(e, rows)))
    case ControllerMod(rows) => e.(controllers := Some(ControllersMean(e, rows)))
    case Constant(c, value) => e.(constants := e.constants[c := value])
  }

  /** One declaration is read. */
  ghost function Step(e: Env, d: Decl): Env {
    if (!d.Constant? && Has(e, NameOf(d))) || !Ready(e, d) then e.(good := false)
    else Declare(e, d).(clean := e.clean && IsClean(e, d))
  }

  /** The declarations are read in order. */
  ghost function Eval(decls: seq<Decl>): Env {
    if decls == [] then NOTHING else Step(Eval(decls[..|decls| - 1]), decls[|decls| - 1])
  }

  /** A declaration of something new. */
  lemma StepDeclare(e: Env, d: Decl)
    requires Ready(e, d) && (d.Constant? || !Has(e, NameOf(d)))
    ensures Step(e, d) == Declare(e, d).(clean := e.clean && IsClean(e, d))
  {
    hide Ready, IsClean, Has, Declare;
  }

  /** A clean declaration of something new. */
  lemma StepNew(e: Env, d: Decl)
    requires Ready(e, d) && IsClean(e, d) && (d.Constant? || !Has(e, NameOf(d)))
    ensures Step(e, d) == Declare(e, d)
  {
    hide Ready, IsClean, Has;
    hide KextsMean, FilesMean, PatchRowsMean, CodecsMean, VendorsMean, ControllersMean, Flatten;
  }

  lemma EvalSnoc(decls: seq<Decl>, d: Decl)
    ensures Eval(decls + [d]) == Step(Eval(decls), d)
  {
    assert (decls + [d])[..|decls|] == decls;
  }

  // ---------------------------------------------------------------- what `good` rules out

  /** The names that a declaration mentions. */
  ghost predicate Mentions(d: Decl, n: Name) {
    match d
    case KextPaths(_, _) => false
    case KextList(rows) => exists k :: 0 <= k < |rows| && n == NPaths(rows[k].paths)
    case Revisions(_, _) => false
    case File(_, _) => false
    case Platforms(_, rows) => exists k :: 0 <= k < |rows| && rows[k].file.Ref? && n == NFile(rows[k].file.index)
    case Layouts(_, rows) => exists k :: 0 <= k < |rows| && rows[k].file.Ref? && n == NFile(rows[k].file.index)
    case PatchBuf(_, _) => false
    case Patches(_, rows) =>
      exists k :: 0 <= k < |rows| && rows[k].PatchRow?
        && (n == NBuf(rows[k].find) || n == NBuf(rows[k].replace) || (rows[k].kext.Some? && n == NKexts))
    case CodecMod(_, rows) => exists k :: 0 <= k < |rows| && CodecMentions(rows[k], n)
    case VendorMod(rows) => exists k :: 0 <= k < |rows| && n == NCodecMod(rows[k].codecMod)
    case ControllerMod(rows) => exists k :: 0 <= k < |rows| && ControllerMentions(rows[k], n)
    case Constant(_, _) => false
  }

  predicate CodecMentions(r: CodecRow, n: Name) {
    || (r.revisions.Ref? && n == NRevisions(r.revisions.index))
    || (r.platforms.Ref? && n == NPlatforms(r.platforms.index))
    || (r.layouts.Ref? && n == NLayouts(r.layouts.index))
    || (r.patches.Ref? && n == NPatches(r.patches.index))
  }

  predicate ControllerMentions(r: ControllerRow, n: Name) {
    || (r.revisions.Ref? && n == NRevisions(r.revisions.index))
    || (r.patches.Ref? && n == NPatches(r.patches.index))
  }

  lemma DeclareAddsName(e: Env, d: Decl, n: Name)
    requires Ready(e, d)
    ensures Has(Declare(e, d), n) <==> Has(e, n) || n == NameOf(d)
    ensures Declare(e, d).good == e.good
  {
    hide KextsMean, FilesMean, PatchRowsMean, CodecsMean, VendorsMean, ControllersMean, Flatten, Ready;
    match d {
      case KextPaths(_, _) => DeclareAddsArray(e, d, n);
      case Revisions(_, _) => DeclareAddsArray(e, d, n);
      case File(_, _) => DeclareAddsArray(e, d, n);
      case Platforms(_, _) => DeclareAddsArray(e, d, n);
      case Layouts(_, _) => DeclareAddsArray(e, d, n);
      case PatchBuf(_, _) => DeclareAddsArray(e, d, n);
      case Patches(_, _) => DeclareAddsArray(e, d, n);
      case _ =>
    }
  }

  /** The arrays with numbers. */
  lemma DeclareAddsArray(e: Env, d: Decl, n: Name)
    requires Ready(e, d)
    requires d.KextPaths? || d.Revisions? || d.File? || d.Platforms? || d.Layouts? || d.PatchBuf? || d.Patches?
    ensures Has(Declare(e, d), n) <==> Has(e, n) || n == NameOf(d)
    ensures Declare(e, d).good == e.good
  {
    hide KextsMean, FilesMean, PatchRowsMean, CodecsMean, VendorsMean, ControllersMean, Flatten, Ready;
    match d {
      case KextPaths(_, _) =>
      case Revisions(_, _) =>
      case File(_, _) =>
      case Platforms(_, _) =>
      case Layouts(_, _) =>
      case PatchBuf(_, _) =>
      case Patches(_, _) =>
    }
  }

  lemma ReadyHasMentioned(e: Env, d: Decl, n: Name)
    requires Ready(e, d) && Mentions(d, n)
    ensures Has(e, n)
  {
  }

  lemma HasIgnoresClean(e: Env, clean: bool, n: Name)
    ensures Has(e.(clean := clean), n) == Has(e, n)
  {
  }

  lemma ConstantIsNew(e: Env, d: Decl)
    requires d.Constant? && IsClean(e, d)
    ensures !Has(e, NameOf(d))
  {
  }

  lemma StepDeclares(e: Env, d: Decl, n: Name)
    requires Step(e, d).good
    ensures e.good && Step(e, d) == Declare(e, d).(clean := e.clean && IsClean(e, d))
    ensures d.Constant? || !Has(e, NameOf(d))
    ensures Step(e, d).clean ==> e.clean && !Has(e, NameOf(d))
    ensures Has(Step(e, d), n) <==> Has(e, n) || n == NameOf(d)
    ensures Mentions(d, n) ==> Has(e, n)
  {
    hide Declare, Has, Mentions, Ready, NameOf, IsClean;
    DeclareAddsName(e, d, n);
    HasIgnoresClean(Declare(e, d), e.clean && IsClean(e, d), n);
    if d.Constant? && IsClean(e, d) {
      ConstantIsNew(e, d);
    }
    if Mentions(d, n) {
      ReadyHasMentioned(e, d, n);
    }
  }

  /** In a good program an array or constant exists exactly if it has been declared. */
  lemma {:induction false} HasIffDeclared(decls: seq<Decl>, n: Name)
    requires Eval(decls).good
    ensures Has(Eval(decls), n) <==> exists i :: 0 <= i < |decls| && NameOf(decls[i]) == n
  {
    hide Step, Has, NameOf;
    if decls == [] {
      NothingHas(n);
    } else {
      var front, d := decls[..|decls| - 1], decls[|decls| - 1];
      StepDeclares(Eval(front), d, n);
      HasIffDeclared(front, n);
    }
  }

  lemma NothingHas(n: Name)
    ensures !Has(NOTHING, n)
  {
  }

  lemma {:induction false} PrefixIsGood(decls: seq<Decl>, k: nat)
    requires Eval(decls).good && k <= |decls|
    ensures Eval(decls[..k]).good && (Eval(decls).clean ==> Eval(decls[..k]).clean)
  {
    hide Step;
    if k < |decls| {
      var front := decls[..|decls| - 1];
      StepDeclares(Eval(front), decls[|decls| - 1], NKexts);
      PrefixIsGood(front, k);
      assert front[..k] == decls[..k];
    } else {
      assert decls[..k] == decls;
    }
  }

  lemma DeclarationIsNew(decls: seq<Decl>, j: nat, n: Name)
    requires Eval(decls).good && j < |decls|
    ensures Eval(decls).clean || !decls[j].Constant? ==> forall i :: 0 <= i < j ==> NameOf(decls[i]) != NameOf(decls[j])
    ensures Mentions(decls[j], n) ==> exists i :: 0 <= i < j && NameOf(decls[i]) == n
  {
    hide Step, Mentions, Has, NameOf, Eval;
    var front := decls[..j];
    PrefixIsGood(decls, j + 1);
    PrefixIsGood(decls, j);
    EvalSnoc(front, decls[j]);
    assert front + [decls[j]] == decls[..j + 1];
    StepDeclares(Eval(front), decls[j], n);
    HasIffDeclared(front, n);
    HasIffDeclared(front, NameOf(decls[j]));
    assert forall i :: 0 <= i < j ==> front[i] == decls[i];
  }

  /** A good program declares every array once, and mentions an array only after declaring it; if it is
      clean as well, it declares every constant once. */
  lemma GoodPrograms(decls: seq<Decl>)
    requires Eval(decls).good
    ensures forall i, j :: 0 <= i < j < |decls| && (Eval(decls).clean || !decls[j].Constant?) ==>
              NameOf(decls[i]) != NameOf(decls[j])
    ensures forall j, n :: 0 <= j < |decls| && Mentions(decls[j], n) ==>
              exists i :: 0 <= i < j && NameOf(decls[i]) == n
  {
    hide Mentions, NameOf, Eval;
    forall i, j | 0 <= i < j < |decls| && (Eval(decls).clean || !decls[j].Constant?)
      ensures NameOf(decls[i]) != NameOf(decls[j])
    {
      DeclarationIsNew(decls, j, NKexts);
    }
    forall j, n | 0 <= j < |decls| && Mentions(decls[j], n)
      ensures exists i :: 0 <= i < j && NameOf(decls[i]) == n
    {
      DeclarationIsNew(decls, j, n);
    }
  }

  ghost predicate CleanAt(decls: seq<Decl>, j: nat)
    requires j < |decls|
  {
    IsClean(Eval(decls[..j]), decls[j])
  }

  lemma CleanStep(front: seq<Decl>, d: Decl)
    requires Eval(front + [d]).good
    ensures Eval(front).good && (Eval(front + [d]).clean <==> Eval(front).clean && IsClean(Eval(front), d))
  {
    hide Eval, Step, IsClean, Declare;
    EvalSnoc(front, d);
    StepDeclares(Eval(front), d, NKexts);
  }

  lemma CleanAtPrefix(front: seq<Decl>, d: Decl, j: nat)
    requires j < |front|
    ensures CleanAt(front + [d], j) <==> CleanAt(front, j)
  {
    hide Eval, IsClean;
    assert (front + [d])[..j] == front[..j];
  }

  lemma CleanAtEnd(front: seq<Decl>, d: Decl)
    ensures CleanAt(front + [d], |front|) <==> IsClean(Eval(front), d)
  {
    hide Eval, IsClean;
    assert (front + [d])[..|front|] == front;
  }

  /** A good program is clean if and only if every declaration is clean where it stands: no #error line,
      no index "(null)", every count paired with a patch array right, no constant declared before. */
  lemma {:induction false} CleanIff(decls: seq<Decl>)
    requires Eval(decls).good
    ensures Eval(decls).clean <==> forall j :: 0 <= j < |decls| ==> CleanAt(decls, j)
  {
    if decls == [] {
      hide CleanAt;
    } else {
      hide Eval, CleanAt, IsClean;
      var front, d := decls[..|decls| - 1], decls[|decls| - 1];
      assert decls == front + [d];
      CleanStep(front, d);
      CleanIff(front);
      CleanAtEnd(front, d);
      forall j | 0 <= j < |front| ensures CleanAt(decls, j) <==> CleanAt(front, j) {
        CleanAtPrefix(front, d, j);
      }
    }
  }
}

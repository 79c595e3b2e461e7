/** ResourceConverter/main.mm: property lists are compiled to C++ tables. Array names are numbered by
    static counters, patch buffers are shared by contents and files by path. Every generator is
    proved against what its output denotes: the source tables themselves. */
module ResourceConverter {
  import opened Declarations
  import opened PropertyLists
  import opened Values

  const KERNEL_ANY := "KernelPatcher::KernelAny"

  // ---------------------------------------------------------------- what the property lists mean

  function Or(s: Option<string>, default: string): string {
    if s.Some? then s.value else default
  }

  function Short(n: nat): nat {
    n % 0x10000
  }

  /** The contents of a file, if it exists. */
  function Contents(disk: Disk, path: string): Option<Bytes> {
    if path in disk then Some(disk[path]) else None
  }

  function FileSource(disk: Disk, base: string, f: FileEntry): FileValue {
    FileValue(Contents(disk, base + "/" + f.path), Or(f.minKernel, KERNEL_ANY), Or(f.maxKernel, KERNEL_ANY), f.id)
  }

  function FileSources(disk: Disk, base: string, fs: seq<FileEntry>): (r: seq<FileValue>)
    ensures |r| == |fs|
  {
    seq(|fs|, i requires 0 <= i < |fs| => FileSource(disk, base, fs[i]))
  }

  function KextSource(k: KextEntry): KextValue {
    KextValue(k.id, k.paths, k.reloadable, k.detect)
  }

  function KextSources(ks: seq<KextEntry>): (r: seq<KextValue>)
    ensures |r| == |ks|
  {
    seq(|ks|, i requires 0 <= i < |ks| => KextSource(ks[i]))
  }

  /** The kext of that name. */
  function FindKext(ks: seq<KextEntry>, name: string): Option<KextValue> {
    if ks == [] then None
    else if ks[|ks| - 1].name == name then Some(KextSource(ks[|ks| - 1]))
    else FindKext(ks[..|ks| - 1], name)
  }

  function StartsWith(s: string, prefix: string): bool {
    |prefix| <= |s| && s[..|prefix|] == prefix
  }

  /** The text without the occurrences of a word, searched from the left. */
  function Without(s: string, word: string): string
    requires word != ""
  {
    if s == "" then ""
    else if StartsWith(s, word) then Without(s[|word|..], word)
    else [s[0]] + Without(s[1..], word)
  }

  /** The part of a KextId constant's name that comes from the kext's id. */
  function NormalId(id: string): string {
    Without(Without(Without(id, "com.apple.driver."), "com.apple.iokit."), ".")
  }

  function IdConstant(k: KextEntry): Const {
    KextId(NormalId(k.id))
  }

  /** No two kexts have the same normalised id. */
  ghost predicate DistinctIds(ks: seq<KextEntry>) {
    forall i, j :: 0 <= i < j < |ks| ==> IdConstant(ks[i]) != IdConstant(ks[j])
  }

  function PatchSource(ks: seq<KextEntry>, p: PatchEntry): PatchValue {
    PatchValue(FindKext(ks, p.name), p.find, p.replace, |p.find|, Or(p.count, "0"),
               Or(p.minKernel, KERNEL_ANY), Or(p.maxKernel, KERNEL_ANY))
  }

  /** The patches whose Find and Replace are of the same length. */
  function PatchSources(ks: seq<KextEntry>, ps: seq<PatchEntry>): seq<PatchValue> {
    if ps == [] then []
    else
      var p := ps[|ps| - 1];
      PatchSources(ks, ps[..|ps| - 1]) + if |p.find| == |p.replace| then [PatchSource(ks, p)] else []
  }

  /** They are paired with the length of the whole list. */
  function PatchTableSource(ks: seq<KextEntry>, ps: seq<PatchEntry>): PatchTable {
    PatchTable(PatchSources(ks, ps), |ps|)
  }

  function Map<A, B>(o: Option<A>, f: A -> B): Option<B> {
    if o.Some? then Some(f(o.value)) else None
  }

  function CodecSource(disk: Disk, ks: seq<KextEntry>, base: string, c: CodecEntry): CodecValue {
    CodecValue(c.name, Short(c.codec), c.revisions,
               Map(c.platforms, fs => FileSources(disk, base, fs)),
               Map(c.layouts, fs => FileSources(disk, base, fs)),
               Map(c.patches, ps => PatchTableSource(ks, ps)))
  }

  /** The codecs of one vendor, in directory order. */
  function CodecSources(disk: Disk, ks: seq<KextEntry>, path: string, vendor: string,
                        dir: seq<DirEntry>): seq<CodecValue> {
    if dir == [] then []
    else
      var e := dir[|dir| - 1];
      CodecSources(disk, ks, path, vendor, dir[..|dir| - 1])
      + if e.info.Some? && e.info.value.vendor == vendor
        then [CodecSource(disk, ks, path + "/" + e.name, e.info.value)] else []
  }

  function VendorSources(disk: Disk, ks: seq<KextEntry>, path: string, vs: seq<VendorEntry>,
                         dir: seq<DirEntry>): (r: seq<VendorValue>)
    ensures |r| == |vs|
  {
    seq(|vs|, i requires 0 <= i < |vs| =>
      VendorValue(vs[i].name, Short(vs[i].id), CodecSources(disk, ks, path, vs[i].name, dir)))
  }

  /** The id of the vendor of that name, 0 if there is none. */
  function VendorId(vs: seq<VendorEntry>, name: string): nat {
    if vs == [] then 0
    else if vs[|vs| - 1].name == name then Short(vs[|vs| - 1].id)
    else VendorId(vs[..|vs| - 1], name)
  }

  function Model(m: Option<string>): string {
    if m == Some("Laptop") then "WIOKit::ComputerModel::ComputerLaptop"
    else if m == Some("Desktop") then "WIOKit::ComputerModel::ComputerDesktop"
    else "WIOKit::ComputerModel::ComputerAny"
  }

  function ControllerSource(ks: seq<KextEntry>, vs: seq<VendorEntry>, c: ControllerEntry): ControllerValue {
    ControllerValue(c.name, VendorId(vs, c.vendor), Short(c.device), c.revisions,
                    Or(c.platform, "ControllerModInfo::PlatformAny"), Model(c.model),
                    Map(c.patches, ps => PatchTableSource(ks, ps)))
  }

  function ControllerSources(ks: seq<KextEntry>, vs: seq<VendorEntry>,
                             cs: seq<ControllerEntry>): (r: seq<ControllerValue>)
    ensures |r| == |cs|
  {
    seq(|cs|, i requires 0 <= i < |cs| => ControllerSource(ks, vs, cs[i]))
  }

  // ---------------------------------------------------------------- growing environments

  ghost predicate Sub<K, V>(m: map<K, V>, n: map<K, V>) {
    forall k :: k in m ==> k in n && n[k] == m[k]
  }

  /** Arrays have been added; kexts and tables are the same. */
  ghost predicate Grows(e: Env, f: Env) {
    && e.good && f.good
    && f.constants == e.constants && f.paths == e.paths && f.kexts == e.kexts
    && Sub(e.revisions, f.revisions) && Sub(e.files, f.files)
    && Sub(e.platforms, f.platforms) && Sub(e.layouts, f.layouts)
    && Sub(e.bufs, f.bufs) && Sub(e.patches, f.patches)
    && f.codecMods == e.codecMods && f.vendors == e.vendors && f.controllers == e.controllers
  }

  /** The kexts, constants and tables of an environment, but for the codec tables. */
  ghost predicate SameRest(e: Env, f: Env) {
    f.constants == e.constants && f.kexts == e.kexts && f.vendors == e.vendors && f.controllers == e.controllers
  }

  lemma GrowsTrans(e: Env, f: Env, g: Env)
    requires Grows(e, f) && Grows(f, g)
    ensures Grows(e, g)
  {
  }

  lemma RefGrows<T>(m: map<nat, seq<T>>, n: map<nat, seq<T>>, r: Ref)
    requires Sub(m, n) && RefOk(m, r)
    ensures RefOk(n, r) && Deref(n, r) == Deref(m, r)
  {
  }

  lemma PatchRefGrows(m: map<nat, seq<PatchValue>>, n: map<nat, seq<PatchValue>>, r: Ref)
    requires Sub(m, n) && PatchRefOk(m, r)
    ensures PatchRefOk(n, r) && PatchDeref(n, r) == PatchDeref(m, r)
    ensures CountRight(m, r) ==> CountRight(n, r)
  {
  }

  lemma FilesGrow(e: Env, f: Env, rows: seq<FileRow>)
    requires Sub(e.files, f.files) && FilesOk(e, rows)
    ensures FilesOk(f, rows) && FilesMean(f, rows) == FilesMean(e, rows)
  {
    hide RefOk, Deref;
    forall k | 0 <= k < |rows| ensures FileOk(f, rows[k]) && FileMeans(f, rows[k]) == FileMeans(e, rows[k]) {
      assert FileOk(e, rows[k]);
      RefGrows(e.files, f.files, rows[k].file);
    }
  }

  lemma PatchRowGrows(e: Env, f: Env, r: PatchRow)
    requires Sub(e.bufs, f.bufs) && e.kexts == f.kexts && PatchOk(e, r)
    ensures PatchOk(f, r) && (r.PatchRow? ==> PatchMeans(f, r) == PatchMeans(e, r))
  {
  }

  lemma {:induction false} PatchRowsGrow(e: Env, f: Env, rows: seq<PatchRow>)
    requires Sub(e.bufs, f.bufs) && e.kexts == f.kexts && PatchRowsOk(e, rows)
    ensures PatchRowsOk(f, rows) && PatchRowsMean(f, rows) == PatchRowsMean(e, rows)
  {
    hide Sub, PatchOk, PatchMeans;
    forall k | 0 <= k < |rows| ensures PatchOk(f, rows[k]) {
      PatchRowGrows(e, f, rows[k]);
    }
    if rows != [] {
      PatchRowsGrow(e, f, rows[..|rows| - 1]);
      PatchRowGrows(e, f, rows[|rows| - 1]);
    }
  }

  lemma CodecGrows(e: Env, f: Env, r: CodecRow)
    requires Grows(e, f) && CodecOk(e, r)
    ensures CodecOk(f, r) && CodecMeans(f, r) == CodecMeans(e, r)
  {
    hide RefOk, Deref;
    RefGrows(e.revisions, f.revisions, r.revisions);
    RefGrows(e.platforms, f.platforms, r.platforms);
    RefGrows(e.layouts, f.layouts, r.layouts);
    PatchRefGrows(e.patches, f.patches, r.patches);
  }

  lemma CodecsGrow(e: Env, f: Env, rows: seq<CodecRow>)
    requires Grows(e, f) && CodecsOk(e, rows)
    ensures CodecsOk(f, rows) && CodecsMean(f, rows) == CodecsMean(e, rows)
  {
    hide Grows, CodecOk, CodecMeans;
    forall k | 0 <= k < |rows| ensures CodecOk(f, rows[k]) && CodecMeans(f, rows[k]) == CodecMeans(e, rows[k]) {
      CodecGrows(e, f, rows[k]);
    }
  }

  lemma ControllersGrow(e: Env, f: Env, rows: seq<ControllerRow>)
    requires Grows(e, f) && ControllersOk(e, rows)
    ensures ControllersOk(f, rows) && ControllersMean(f, rows) == ControllersMean(e, rows)
  {
    hide RefOk, Deref;
    forall k | 0 <= k < |rows|
      ensures ControllerOk(f, rows[k]) && ControllerMeans(f, rows[k]) == ControllerMeans(e, rows[k])
    {
      assert ControllerOk(e, rows[k]);
      RefGrows(e.revisions, f.revisions, rows[k].revisions);
      PatchRefGrows(e.patches, f.patches, rows[k].patches);
    }
  }

  // ---------------------------------------------------------------- the generators

  /** The indices in use are 0 to n - 1. */
  ghost predicate Counted<T>(m: map<nat, T>, n: nat) {
    forall i: nat :: i in m <==> i < n
  }

  /** Every known path has a file array with its contents, and no two paths share one. */
  ghost predicate FilesOnce(files: map<nat, Bytes>, list: map<string, nat>, disk: Disk) {
    && (forall p :: p in list ==> p in disk && list[p] in files && files[list[p]] == disk[p])
    && (forall p, q :: p in list && q in list && list[p] == list[q] ==> p == q)
    && (forall i :: i in files ==> exists p :: p in list && list[p] == i)
  }

  /** The buffers and the lookup table are inverse to each other. */
  ghost predicate BufsOnce(bufs: map<nat, Bytes>, index: map<Bytes, nat>) {
    && (forall b :: b in index ==> index[b] in bufs && bufs[index[b]] == b)
    && (forall i :: i in bufs ==> bufs[i] in index && index[bufs[i]] == i)
  }

  /** The static variables of the generators. */
  datatype Statics = Statics(revision: nat, file: nat, files: map<string, nat>, platform: nat, layout: nat,
                             patch: nat, buf: nat, bufs: map<Bytes, nat>)

  /** The static variables fit an output that denotes e. */
  ghost predicate Fits(e: Env, c: Statics, disk: Disk) {
    && e.good
    && Counted(e.revisions, c.revision) && Counted(e.files, c.file)
    && Counted(e.platforms, c.platform) && Counted(e.layouts, c.layout)
    && Counted(e.patches, c.patch) && Counted(e.bufs, c.buf)
    && FilesOnce(e.files, c.files, disk)
    && BufsOnce(e.bufs, c.bufs)
  }

  lemma FilesOnceExtend(files: map<nat, Bytes>, list: map<string, nat>, disk: Disk, path: string, i: nat)
    requires FilesOnce(files, list, disk) && path in disk && path !in list && i !in files
    ensures FilesOnce(files[i := disk[path]], list[path := i], disk)
  {
    var files', list' := files[i := disk[path]], list[path := i];
    forall j | j in files' ensures exists p :: p in list' && list'[p] == j {
      if j == i {
        assert list'[path] == j;
      } else {
        var p :| p in list && list[p] == j;
        assert list'[p] == j;
      }
    }
  }

  lemma CountedExtend<T>(m: map<nat, T>, n: nat, v: T)
    requires Counted(m, n)
    ensures n !in m && Counted(m[n := v], n + 1) && Sub(m, m[n := v])
  {
  }

  lemma SubSelf<K, V>(m: map<K, V>)
    ensures Sub(m, m)
  {
  }

  /** The six kinds of arrays that are counted. */
  lemma SubSelves(e: Env)
    ensures Sub(e.revisions, e.revisions) && Sub(e.files, e.files) && Sub(e.platforms, e.platforms)
    ensures Sub(e.layouts, e.layouts) && Sub(e.bufs, e.bufs) && Sub(e.patches, e.patches)
  {
    hide Sub;
    SubSelf(e.revisions);
    SubSelf(e.files);
    SubSelf(e.platforms);
    SubSelf(e.layouts);
    SubSelf(e.bufs);
    SubSelf(e.patches);
  }

  lemma AddRevisions(e: Env, c: Statics, disk: Disk, values: seq<nat>)
    requires Fits(e, c, disk)
    ensures var f := Step(e, Revisions(c.revision, values));
            && Fits(f, c.(revision := c.revision + 1), disk) && Grows(e, f) && f.clean == e.clean
            && c.revision in f.revisions && f.revisions[c.revision] == values
  {
    hide FilesOnce, BufsOnce, Counted, Sub;
    CountedExtend(e.revisions, c.revision, values);
    SubSelves(e);
    StepNew(e, Revisions(c.revision, values));
    assert Declare(e, Revisions(c.revision, values)) == e.(revisions := e.revisions[c.revision := values]);
    hide Step, Declare, IsClean, Ready;
  }

  lemma AddFile(e: Env, c: Statics, disk: Disk, path: string, lines: seq<Bytes>)
    requires Fits(e, c, disk) && path in disk && path !in c.files && Flatten(lines) == disk[path]
    ensures var f := Step(e, File(c.file, lines));
            && Fits(f, c.(files := c.files[path := c.file], file := c.file + 1), disk)
            && Grows(e, f) && f.clean == e.clean
            && c.file in f.files && f.files[c.file] == disk[path]
  {
    hide FilesOnce, BufsOnce, Counted, Sub, Flatten;
    CountedExtend(e.files, c.file, disk[path]);
    SubSelves(e);
    StepNew(e, File(c.file, lines));
    assert Declare(e, File(c.file, lines)) == e.(files := e.files[c.file := disk[path]]);
    hide Step, Declare, IsClean, Ready;
    assert FilesOnce(e.files[c.file := disk[path]], c.files[path := c.file], disk) by {
      FilesOnceExtend(e.files, c.files, disk, path, c.file);
    }
  }

  lemma AddPlatforms(e: Env, c: Statics, disk: Disk, rows: seq<FileRow>)
    requires Fits(e, c, disk) && FilesOk(e, rows)
    ensures var f := Step(e, Platforms(c.platform, rows));
            && Fits(f, c.(platform := c.platform + 1), disk) && Grows(e, f) && f.clean == e.clean
            && c.platform in f.platforms && f.platforms[c.platform] == FilesMean(e, rows)
  {
    hide FilesOnce, BufsOnce, Counted, Sub, FilesOk, FilesMean;
    CountedExtend(e.platforms, c.platform, FilesMean(e, rows));
    SubSelves(e);
    StepNew(e, Platforms(c.platform, rows));
    assert Declare(e, Platforms(c.platform, rows)) == e.(platforms := e.platforms[c.platform := FilesMean(e, rows)]);
    hide Step, Declare, IsClean, Ready;
  }

  lemma AddLayouts(e: Env, c: Statics, disk: Disk, rows: seq<FileRow>)
    requires Fits(e, c, disk) && FilesOk(e, rows)
    ensures var f := Step(e, Layouts(c.layout, rows));
            && Fits(f, c.(layout := c.layout + 1), disk) && Grows(e, f) && f.clean == e.clean
            && c.layout in f.layouts && f.layouts[c.layout] == FilesMean(e, rows)
  {
    hide FilesOnce, BufsOnce, Counted, Sub, FilesOk, FilesMean;
    CountedExtend(e.layouts, c.layout, FilesMean(e, rows));
    SubSelves(e);
    StepNew(e, Layouts(c.layout, rows));
    assert Declare(e, Layouts(c.layout, rows)) == e.(layouts := e.layouts[c.layout := FilesMean(e, rows)]);
    hide Step, Declare, IsClean, Ready;
  }

  lemma BufsOnceExtend(bufs: map<nat, Bytes>, index: map<Bytes, nat>, bytes: Bytes, i: nat)
    requires BufsOnce(bufs, index) && bytes !in index && i !in bufs
    ensures BufsOnce(bufs[i := bytes], index[bytes := i])
  {
  }

  lemma AddBuf(e: Env, c: Statics, disk: Disk, bytes: Bytes)
    requires Fits(e, c, disk) && bytes !in c.bufs
    ensures var f := Step(e, PatchBuf(c.buf, bytes));
            && Fits(f, c.(bufs := c.bufs[bytes := c.buf], buf := c.buf + 1), disk) && Grows(e, f) && f.clean == e.clean
            && c.buf in f.bufs && f.bufs[c.buf] == bytes
  {
    hide FilesOnce, BufsOnce, Counted, Sub;
    CountedExtend(e.bufs, c.buf, bytes);
    SubSelves(e);
    StepNew(e, PatchBuf(c.buf, bytes));
    assert Declare(e, PatchBuf(c.buf, bytes)) == e.(bufs := e.bufs[c.buf := bytes]);
    hide Step, Declare, IsClean, Ready;
    assert BufsOnce(e.bufs[c.buf := bytes], c.bufs[bytes := c.buf]) by {
      BufsOnceExtend(e.bufs, c.bufs, bytes, c.buf);
    }
  }

  lemma AddPatches(e: Env, c: Statics, disk: Disk, rows: seq<PatchRow>)
    requires Fits(e, c, disk) && PatchRowsOk(e, rows)
    ensures var f := Step(e, Patches(c.patch, rows));
            && Fits(f, c.(patch := c.patch + 1), disk) && Grows(e, f) && f.clean == (e.clean && RowsClean(rows))
            && c.patch in f.patches && f.patches[c.patch] == PatchRowsMean(e, rows)
  {
    hide FilesOnce, BufsOnce, Counted, Sub, PatchRowsOk, PatchRowsMean, RowsClean;
    CountedExtend(e.patches, c.patch, PatchRowsMean(e, rows));
    SubSelves(e);
    StepDeclare(e, Patches(c.patch, rows));
    assert Declare(e, Patches(c.patch, rows)) == e.(patches := e.patches[c.patch := PatchRowsMean(e, rows)]);
    assert IsClean(e, Patches(c.patch, rows)) == RowsClean(rows);
    hide Step, Declare, IsClean, Ready;
  }

  // ---------------------------------------------------------------- which patches are written properly

  /** Find and Replace have the same length, and the kext is known. */
  ghost predicate PatchEntryOk(ks: seq<KextEntry>, p: PatchEntry) {
    |p.find| == |p.replace| && exists k :: 0 <= k < |ks| && ks[k].name == p.name
  }

  ghost predicate PatchesOk(ks: seq<KextEntry>, ps: seq<PatchEntry>) {
    forall i :: 0 <= i < |ps| ==> PatchEntryOk(ks, ps[i])
  }

  ghost predicate PatchListOk(ks: seq<KextEntry>, ps: Option<seq<PatchEntry>>) {
    ps.Some? ==> PatchesOk(ks, ps.value)
  }

  ghost predicate LengthsMatch(ps: Option<seq<PatchEntry>>) {
    ps.Some? ==> forall i :: 0 <= i < |ps.value| ==> |ps.value[i].find| == |ps.value[i].replace|
  }

  /** An entry of the resource directory that is a codec of this vendor has proper patches. */
  ghost predicate EntryOk(ks: seq<KextEntry>, vendor: string, e: DirEntry) {
    e.info.Some? && e.info.value.vendor == vendor ==> PatchListOk(ks, e.info.value.patches)
  }

  ghost predicate AllDirsOk(ks: seq<KextEntry>, vs: seq<VendorEntry>, dir: seq<DirEntry>) {
    forall v :: 0 <= v < |vs| ==> DirOk(ks, vs[v].name, dir)
  }

  ghost predicate CtrlsOk(ks: seq<KextEntry>, cs: seq<ControllerEntry>) {
    forall c :: 0 <= c < |cs| ==> PatchListOk(ks, cs[c].patches)
  }

  ghost predicate DirOk(ks: seq<KextEntry>, vendor: string, dir: seq<DirEntry>) {
    forall i :: 0 <= i < |dir| ==> EntryOk(ks, vendor, dir[i])
  }

  class Converter {
    const disk: Disk
    var out: seq<Decl>
    var revisionIndex: nat
    var fileIndex: nat
    var fileList: map<string, nat>
    var platformIndex: nat
    var layoutIndex: nat
    var patchIndex: nat
    var patchBufIndex: nat
    var patchBufMap: map<Bytes, nat>

    constructor (disk: Disk)
      ensures Valid() && out == [] && this.disk == disk
    {
      this.disk := disk;
      out := [];
      revisionIndex, fileIndex, platformIndex, layoutIndex, patchIndex, patchBufIndex := 0, 0, 0, 0, 0, 0;
      fileList, patchBufMap := map[], map[];
    }

    ghost function Vars(): Statics
      reads this
    {
      Statics(revisionIndex, fileIndex, fileList, platformIndex, layoutIndex, patchIndex, patchBufIndex, patchBufMap)
    }

    /** What the output denotes at the moment. */
    ghost function Now(): Env
      reads this
    {
      Eval(out)
    }

    ghost predicate Valid()
      reads this
    {
      Fits(Now(), Vars(), disk)
    }

    /** Arrays have been added to the output. */
    twostate predicate Added()
      reads this
    {
      old(out) <= out && Grows(old(Now()), Now())
    }

    /** Only declarations that are clean. */
    twostate predicate AddedCleanly()
      reads this
    {
      Added() && Now().clean == old(Now()).clean
    }

    method Append(d: Decl)
      modifies this`out
      ensures out == old(out) + [d] && Now() == Step(old(Now()), d)
    {
      EvalSnoc(out, d);
      out := out + [d];
    }

    method GenerateRevisions(revs: Option<seq<nat>>) returns (r: Ref)
      requires Valid()
      modifies this
      ensures Valid() && AddedCleanly()
      ensures RefOk(Now().revisions, r) && Deref(Now().revisions, r) == revs
    {
      hide Eval, Fits, Grows, Step;
      if revs.Some? {
        AddRevisions(Now(), Vars(), disk, revs.value);
        Append(Revisions(revisionIndex, revs.value));
        revisionIndex := revisionIndex + 1;
        r := Ref(revisionIndex - 1, |revs.value|);
      } else {
        FitsGrows(Now(), Vars(), disk);
        r := Null;
      }
    }

    /** The bytes of a file in rows of 24. */
    method FileLines(data: Bytes) returns (lines: seq<Bytes>)
      ensures Flatten(lines) == data
      ensures forall k :: 0 <= k < |lines| ==> 0 < |lines[k]| <= 24
      ensures forall k :: 0 <= k < |lines| - 1 ==> |lines[k]| == 24
    {
      lines := [];
      var i := 0;
      while i < |data|
        invariant 0 <= i <= |data| && Flatten(lines) == data[..i]
        invariant forall k :: 0 <= k < |lines| ==> 0 < |lines[k]| <= 24
        invariant i < |data| ==> forall k :: 0 <= k < |lines| ==> |lines[k]| == 24
        invariant forall k :: 0 <= k < |lines| - 1 ==> |lines[k]| == 24
      {
        var line: Bytes := [];
        var p := 0;
        ghost var start := i;
        while p < 24 && i < |data|
          invariant 0 <= p <= 24 && start <= i <= |data| && i == start + p && line == data[start..i]
        {
          line := line + [data[i]];
          p, i := p + 1, i + 1;
        }
        assert (lines + [line])[..|lines|] == lines;
        assert data[..start] + data[start..i] == data[..i];
        lines := lines + [line];
      }
      assert data[..|data|] == data;
    }

    method GenerateFile(path: string, inFile: string) returns (r: Ref)
      requires Valid()
      modifies this
      ensures Valid() && AddedCleanly()
      ensures RefOk(Now().files, r) && Deref(Now().files, r) == Contents(disk, path + "/" + inFile)
    {
      hide Eval, Flatten, Fits, Grows, Step;
      var fullInPath := path + "/" + inFile;
      FitsGrows(Now(), Vars(), disk);
      if fullInPath in fileList {
        KnownFile(Now(), Vars(), disk, fullInPath);
        r := Ref(fileList[fullInPath], |disk[fullInPath]|);
      } else if fullInPath in disk {
        var lines := FileLines(disk[fullInPath]);
        AddFile(Now(), Vars(), disk, fullInPath, lines);
        Append(File(fileIndex, lines));
        fileList := fileList[fullInPath := fileIndex];
        fileIndex := fileIndex + 1;
        r := Ref(fileIndex - 1, |disk[fullInPath]|);
      } else {
        r := Null;
      }
    }

    method GenerateFileRows(base: string, files: seq<FileEntry>) returns (rows: seq<FileRow>)
      requires Valid()
      modifies this
      ensures Valid() && AddedCleanly()
      ensures FilesOk(Now(), rows) && FilesMean(Now(), rows) == FileSources(disk, base, files)
    {
      rows := [];
      hide Eval, Fits, Grows, FileSource;
      FitsGrows(Now(), Vars(), disk);
      for i := 0 to |files|
        invariant Valid() && AddedCleanly()
        invariant |rows| == i && FilesOk(Now(), rows)
        invariant forall k :: 0 <= k < i ==> FileMeans(Now(), rows[k]) == FileSource(disk, base, files[k])
      {
        ghost var e := Now();
        var file := GenerateFile(base, files[i].path);
        FilesGrowRows(e, Now(), rows);
        GrowsTrans(old(Now()), e, Now());
        var row := FileRow(file, Or(files[i].minKernel, KERNEL_ANY), Or(files[i].maxKernel, KERNEL_ANY), files[i].id);
        FileRowMeans(Now(), row, disk, base, files[i]);
        rows := rows + [row];
      }
    }

    method GeneratePlatforms(files: Option<seq<FileEntry>>, base: string) returns (r: Ref)
      requires Valid()
      modifies this
      ensures Valid() && AddedCleanly()
      ensures RefOk(Now().platforms, r)
      ensures Deref(Now().platforms, r) == Map(files, fs => FileSources(disk, base, fs))
    {
      hide Eval, Fits, Grows, Step, FilesOk, FilesMean, FileSources;
      FitsGrows(Now(), Vars(), disk);
      if files.Some? {
        var rows := GenerateFileRows(base, files.value);
        AddPlatforms(Now(), Vars(), disk, rows);
        ghost var e := Now();
        Append(Platforms(platformIndex, rows));
        GrowsTrans(old(Now()), e, Now());
        platformIndex := platformIndex + 1;
        r := Ref(platformIndex - 1, |files.value|);
      } else {
        r := Null;
      }
    }

    method GenerateLayouts(files: Option<seq<FileEntry>>, base: string) returns (r: Ref)
      requires Valid()
      modifies this
      ensures Valid() && AddedCleanly()
      ensures RefOk(Now().layouts, r)
      ensures Deref(Now().layouts, r) == Map(files, fs => FileSources(disk, base, fs))
    {
      hide Eval, Fits, Grows, Step, FilesOk, FilesMean, FileSources;
      FitsGrows(Now(), Vars(), disk);
      if files.Some? {
        var rows := GenerateFileRows(base, files.value);
        AddLayouts(Now(), Vars(), disk, rows);
        ghost var e := Now();
        Append(Layouts(layoutIndex, rows));
        GrowsTrans(old(Now()), e, Now());
        layoutIndex := layoutIndex + 1;
        r := Ref(layoutIndex - 1, |files.value|);
      } else {
        r := Null;
      }
    }

    /** The static variables fit the output with some declarations still to be written. */
    ghost predicate ValidWith(pending: seq<Decl>)
      reads this
    {
      Fits(Eval(out + pending), Vars(), disk)
    }

    /** The number of the buffer with these bytes; a new one is declared if there is none. */
    method BufferIndex(bytes: Bytes, pbStr: seq<Decl>) returns (index: nat, pbStr': seq<Decl>)
      requires ValidWith(pbStr)
      modifies this`patchBufIndex, this`patchBufMap
      ensures ValidWith(pbStr') && Grows(Eval(out + pbStr), Eval(out + pbStr'))
      ensures Eval(out + pbStr').clean == Eval(out + pbStr).clean
      ensures index in Eval(out + pbStr').bufs && Eval(out + pbStr').bufs[index] == bytes
    {
      hide Eval, Fits, Grows, Step;
      FitsGrows(Eval(out + pbStr), Vars(), disk);
      if bytes in patchBufMap {
        KnownBuf(Eval(out + pbStr), Vars(), disk, bytes);
        index, pbStr' := patchBufMap[bytes], pbStr;
      } else {
        AddBuf(Eval(out + pbStr), Vars(), disk, bytes);
        EvalSnoc(out + pbStr, PatchBuf(patchBufIndex, bytes));
        pbStr' := pbStr + [PatchBuf(patchBufIndex, bytes)];
        assert out + pbStr + [PatchBuf(patchBufIndex, bytes)] == out + pbStr';
        index := patchBufIndex;
        patchBufMap := patchBufMap[bytes := index];
        patchBufIndex := patchBufIndex + 1;
      }
    }

    /** One row of a patch table, with the buffers it needs. */
    method PatchRowFor(p: PatchEntry, kextIndexes: map<string, nat>, pbStr: seq<Decl>, ghost ks: seq<KextEntry>)
      returns (row: PatchRow, pbStr': seq<Decl>)
      requires ValidWith(pbStr) && IndexesOk(Eval(out + pbStr).kexts, kextIndexes, ks)
      modifies this`patchBufIndex, this`patchBufMap
      ensures ValidWith(pbStr') && Grows(Eval(out + pbStr), Eval(out + pbStr'))
      ensures Eval(out + pbStr').clean == Eval(out + pbStr).clean
      ensures PatchOk(Eval(out + pbStr'), row) && (row.PatchRow? <==> |p.find| == |p.replace|)
      ensures row.PatchRow? ==> PatchMeans(Eval(out + pbStr'), row) == PatchSource(ks, p)
      ensures row.PatchRow? ==> (row.kext.Some? <==> FindKext(ks, p.name).Some?)
    {
      hide Eval, Fits, Grows, IndexesOk;
      FitsGrows(Eval(out + pbStr), Vars(), disk);
      if |p.find| != |p.replace| {
        row, pbStr' := LengthError, pbStr;
      } else {
        var find, replace;
        find, pbStr' := BufferIndex(p.find, pbStr);
        ghost var e := Eval(out + pbStr');
        replace, pbStr' := BufferIndex(p.replace, pbStr');
        GrowsTrans(Eval(out + pbStr), e, Eval(out + pbStr'));
        row := PatchRow(if p.name in kextIndexes then Some(kextIndexes[p.name]) else None, find, replace, |p.find|,
                        Or(p.count, "0"), Or(p.minKernel, KERNEL_ANY), Or(p.maxKernel, KERNEL_ANY));
        PatchRowMeans(Eval(out + pbStr), e, Eval(out + pbStr'), row, p, kextIndexes, ks);
      }
    }

    method GeneratePatches(patches: Option<seq<PatchEntry>>, kextIndexes: map<string, nat>, ghost ks: seq<KextEntry>)
      returns (r: Ref)
      requires Valid() && IndexesOk(Now().kexts, kextIndexes, ks)
      modifies this
      ensures Valid() && Added()
      ensures Now().clean == (old(Now()).clean && PatchListOk(ks, patches))
      ensures PatchRefOk(Now().patches, r)
      ensures PatchDeref(Now().patches, r) == Map(patches, ps => PatchTableSource(ks, ps))
      ensures CountRight(Now().patches, r) <==> LengthsMatch(patches)
    {
      hide Eval, Fits, Grows, Step, IndexesOk, PatchSource, PatchOk, PatchMeans, PatchRowsMean, PatchRowsOk;
      hide PatchSources, FindKext, PatchEntryOk;
      FitsGrows(Now(), Vars(), disk);
      if patches.Some? {
        var pStr: seq<PatchRow> := [];
        var pbStr: seq<Decl> := [];
        assert out + pbStr == out;
        NoRows(Now(), ks);
        for i := 0 to |patches.value|
          invariant out == old(out) && ValidWith(pbStr) && Grows(Now(), Eval(out + pbStr))
          invariant IndexesOk(Eval(out + pbStr).kexts, kextIndexes, ks) && Eval(out + pbStr).clean == Now().clean
          invariant PatchRowsOk(Eval(out + pbStr), pStr)
          invariant PatchRowsMean(Eval(out + pbStr), pStr) == PatchSources(ks, patches.value[..i])
          invariant RowsClean(pStr) <==> PatchesOk(ks, patches.value[..i])
        {
          ghost var e := Eval(out + pbStr);
          var row;
          row, pbStr := PatchRowFor(patches.value[i], kextIndexes, pbStr, ks);
          RowsAndSources(e, Eval(out + pbStr), pStr, row, ks, patches.value, i);
          GrowsTrans(Now(), e, Eval(out + pbStr));
          pStr := pStr + [row];
        }
        assert patches.value[..|patches.value|] == patches.value;
        out := out + pbStr;
        ghost var e := Now();
        AddPatches(e, Vars(), disk, pStr);
        Append(Patches(patchIndex, pStr));
        GrowsTrans(old(Now()), e, Now());
        patchIndex := patchIndex + 1;
        r := Ref(patchIndex - 1, |patches.value|);
        CountIffLengths(ks, patches.value);
      } else {
        r := Null;
      }
    }

    /** Path arrays and number constants for all kexts, then the kext list and its length; the result maps
        names to places in it. */
    method GenerateKexts(kexts: seq<KextEntry>) returns (kextNums: map<string, nat>)
      requires Valid() && Now().paths == map[] && Now().kexts == None && Now().constants == map[]
      requires DistinctNames(kexts)
      modifies this`out
      ensures Valid() && IndexesOk(Now().kexts, kextNums, kexts)
      ensures KextConstants(Now().constants, kexts)
      ensures Now() == old(Now()).(paths := Now().paths, kexts := Some(KextSources(kexts)),
                                   constants := Now().constants,
                                   clean := old(Now()).clean && DistinctIds(kexts))
    {
      hide Eval, Fits, Step, PathsOf, KextConstants, IdConstant, DistinctIds;
      var kextPathsSection: seq<Decl> := [];
      var kextSection: seq<KextRow> := [];
      kextNums := map[];
      assert out + kextPathsSection == out;
      NoPaths(Now());
      for kextIndex := 0 to |kexts|
        invariant out == old(out) && PathsOf(kexts[..kextIndex], Now(), Eval(out + kextPathsSection))
        invariant kextSection == KextRows(kexts[..kextIndex])
        invariant IndexesAre(kextNums, kexts[..kextIndex])
      {
        var k := kexts[kextIndex];
        assert kexts[..kextIndex + 1] == kexts[..kextIndex] + [k];
        PathsStep(kexts[..kextIndex], k, Now(), Eval(out + kextPathsSection));
        EvalTwo(out, kextPathsSection, KextPaths(kextIndex, k.paths), Constant(IdConstant(k), kextIndex));
        IndexesStep(kextNums, kexts[..kextIndex], k);
        kextPathsSection := kextPathsSection + [KextPaths(kextIndex, k.paths), Constant(IdConstant(k), kextIndex)];
        kextSection := kextSection + [KextRow(k.id, kextIndex, |k.paths|, k.reloadable, k.detect)];
        kextNums := kextNums[k.name := kextIndex];
      }
      assert kexts[..|kexts|] == kexts;
      out := out + kextPathsSection;
      WriteKextList(kexts, kextSection, old(Now()));
      IndexesFind(kextNums, kexts);
    }

    /** The kext list and its length, after the path arrays. */
    method WriteKextList(ghost kexts: seq<KextEntry>, kextSection: seq<KextRow>, ghost before: Env)
      requires Fits(before, Vars(), disk) && before.kexts == None && PathsOf(kexts, before, Now())
      requires kextSection == KextRows(kexts)
      modifies this`out
      ensures Valid() && KextConstants(Now().constants, kexts)
      ensures Now() == before.(paths := Now().paths, kexts := Some(KextSources(kexts)), constants := Now().constants,
                               clean := before.clean && DistinctIds(kexts))
    {
      hide Eval, Fits, Step, DistinctIds, PathsOf;
      KextListMeans(kexts, before, Now(), Vars(), disk);
      Append(KextList(kextSection));
      AddConstant(Now(), Vars(), disk, KextListSize, |kextSection|);
      LengthConstant(Now().constants, kexts);
      Append(Constant(KextListSize, |kextSection|));
    }

    method GenerateCodecRow(c: CodecEntry, base: string, kextIndexes: map<string, nat>, ghost ks: seq<KextEntry>)
      returns (row: CodecRow)
      requires Valid() && IndexesOk(Now().kexts, kextIndexes, ks)
      modifies this
      ensures Valid() && Added()
      ensures Now().clean == (old(Now()).clean && PatchListOk(ks, c.patches))
      ensures CodecOk(Now(), row) && CodecMeans(Now(), row) == CodecSource(disk, ks, base, c)
      ensures CountRight(Now().patches, row.patches) <==> LengthsMatch(c.patches)
    {
      hide Eval, Fits, Step, IndexesOk, RefOk, Deref, FileSources, PatchTableSource, Map, CodecOk, CodecMeans;
      hide CodecSource, Grows, PatchListOk, LengthsMatch, PatchRefOk, PatchDeref;
      FitsGrows(Now(), Vars(), disk);
      var revs := GenerateRevisions(c.revisions);
      ghost var e1 := Now();
      KextsStay(old(Now()), e1);
      var platforms := GeneratePlatforms(c.platforms, base);
      ghost var e2 := Now();
      KextsStay(e1, e2);
      GrowsTrans(old(Now()), e1, e2);
      var layouts := GenerateLayouts(c.layouts, base);
      ghost var e3 := Now();
      KextsStay(e2, e3);
      GrowsTrans(old(Now()), e2, e3);
      var patches := GeneratePatches(c.patches, kextIndexes, ks);
      GrowsTrans(old(Now()), e3, Now());
      row := CodecRow(c.name, Short(c.codec), revs, platforms, layouts, patches);
      CodecRowMeans(e1, e2, e3, Now(), row, disk, ks, base, c);
    }

    method GenerateCodecs(vendor: string, path: string, entries: seq<DirEntry>, kextIndexes: map<string, nat>,
                          ghost ks: seq<KextEntry>) returns (codecs: nat)
      requires Valid() && IndexesOk(Now().kexts, kextIndexes, ks) && vendor !in Now().codecMods
      modifies this
      ensures Valid() && SameRest(old(Now()), Now())
      ensures Now().clean == (old(Now()).clean && DirOk(ks, vendor, entries))
      ensures Now().codecMods == old(Now()).codecMods[vendor := CodecSources(disk, ks, path, vendor, entries)]
      ensures codecs == |CodecSources(disk, ks, path, vendor, entries)|
    {
      hide Eval, Fits, Step, IndexesOk, CodecOk, CodecMeans, CodecSource, CodecsMean, Grows, PatchListOk, CountRight;
      hide LengthsMatch;
      FitsGrows(Now(), Vars(), disk);
      var codecModSection: seq<CodecRow> := [];
      codecs := 0;
      for i := 0 to |entries|
        invariant Valid() && Added() && IndexesOk(Now().kexts, kextIndexes, ks)
        invariant Now().clean == (old(Now()).clean && DirOk(ks, vendor, entries[..i]))
        invariant Now().clean ==> CodecCountsRight(Now(), codecModSection)
        invariant CodecsOk(Now(), codecModSection) && codecs == |codecModSection|
        invariant CodecsMean(Now(), codecModSection) == CodecSources(disk, ks, path, vendor, entries[..i])
      {
        var entry := entries[i];
        assert entries[..i + 1][..i] == entries[..i];
        DirOkSnoc(ks, vendor, entries, i);
        if entry.info.Some? && entry.info.value.vendor == vendor {
          ghost var e := Now();
          var row := GenerateCodecRow(entry.info.value, path + "/" + entry.name, kextIndexes, ks);
          KextsStay(e, Now());
          CodecsGrow(e, Now(), codecModSection);
          CodecsMeanSnoc(Now(), codecModSection, row);
          CountsStay(e, Now(), codecModSection, row);
          ListOkLengths(ks, entry.info.value.patches);
          GrowsTrans(old(Now()), e, Now());
          codecModSection := codecModSection + [row];
          codecs := codecs + 1;
        }
      }
      assert entries[..|entries|] == entries;
      AddCodecMod(old(Now()), Now(), Vars(), disk, vendor, codecModSection);
      Append(CodecMod(vendor, codecModSection));
    }

    method GenerateVendors(vendors: seq<VendorEntry>, path: string, entries: seq<DirEntry>,
                           kextIndexes: map<string, nat>, ghost ks: seq<KextEntry>)
      requires Valid() && IndexesOk(Now().kexts, kextIndexes, ks)
      requires Now().codecMods == map[] && Now().vendors == None && DistinctVendors(vendors)
      requires VendorModSize !in Now().constants
      modifies this
      ensures Valid() && Now().kexts == old(Now()).kexts && Now().controllers == old(Now()).controllers
      ensures Now().constants == old(Now()).constants[VendorModSize := |vendors|]
      ensures Now().clean == (old(Now()).clean && AllDirsOk(ks, vendors, entries))
      ensures Now().vendors == Some(VendorSources(disk, ks, path, vendors, entries))
    {
      hide Eval, Fits, Step, IndexesOk, CodecSources, VendorsMean, DirOk, AllDirsOk, VendorsWritten;
      var vendorSection: seq<VendorRow> := [];
      NoVendors(Now(), disk, ks, path, vendors, entries);
      for i := 0 to |vendors|
        invariant Valid() && SameRest(old(Now()), Now())
        invariant Now().clean == (old(Now()).clean && AllDirsOk(ks, vendors[..i], entries))
        invariant VendorsWritten(Now(), vendorSection, disk, ks, path, vendors, entries, i)
      {
        AllDirsOkSnoc(ks, vendors, entries, i);
        ghost var e := Now();
        VendorIsNew(e, vendorSection, disk, ks, path, vendors, entries, i);
        var num := GenerateCodecs(vendors[i].name, path, entries, kextIndexes, ks);
        var row := VendorRow(vendors[i].name, Short(vendors[i].id), vendors[i].name, num);
        VendorsWrittenStep(e, Now(), vendorSection, row, disk, ks, path, vendors, entries, i);
        vendorSection := vendorSection + [row];
      }
      assert vendors[..|vendors|] == vendors;
      AddVendorMod(Now(), Vars(), disk, vendorSection, ks, path, vendors, entries);
      WriteTable(VendorMod(vendorSection), VendorModSize, |vendors|);
    }

    /** A table, and its length. */
    method WriteTable(table: Decl, name: Const, size: nat)
      requires Fits(Step(Now(), table), Vars(), disk)
      modifies this`out
      ensures Valid()
      ensures var f := Step(old(Now()), table);
              Now() == f.(constants := f.constants[name := size], clean := f.clean && name !in f.constants)
    {
      hide Eval, Fits, Step;
      Append(table);
      AddConstant(Now(), Vars(), disk, name, size);
      Append(Constant(name, size));
    }

    method GenerateControllerRow(c: ControllerEntry, vendors: seq<VendorEntry>, kextIndexes: map<string, nat>,
                                 ghost ks: seq<KextEntry>) returns (row: ControllerRow)
      requires Valid() && IndexesOk(Now().kexts, kextIndexes, ks)
      modifies this
      ensures Valid() && Added()
      ensures Now().clean == (old(Now()).clean && PatchListOk(ks, c.patches))
      ensures ControllerOk(Now(), row) && ControllerMeans(Now(), row) == ControllerSource(ks, vendors, c)
      ensures CountRight(Now().patches, row.patches) <==> LengthsMatch(c.patches)
    {
      hide Eval, Fits, Step, IndexesOk, RefOk, Deref, PatchTableSource, Map, Grows;
      hide ControllerOk, ControllerMeans, ControllerSource, PatchListOk, LengthsMatch, PatchRefOk, PatchDeref;
      FitsGrows(Now(), Vars(), disk);
      var revs := GenerateRevisions(c.revisions);
      ghost var e1 := Now();
      KextsStay(old(Now()), e1);
      var patches := GeneratePatches(c.patches, kextIndexes, ks);
      GrowsTrans(old(Now()), e1, Now());
      var model := "WIOKit::ComputerModel::ComputerAny";
      if c.model.Some? {
        if c.model.value == "Laptop" {
          model := "WIOKit::ComputerModel::ComputerLaptop";
        } else if c.model.value == "Desktop" {
          model := "WIOKit::ComputerModel::ComputerDesktop";
        }
      }
      row := ControllerRow(c.name, VendorId(vendors, c.vendor), Short(c.device), revs,
                           Or(c.platform, "ControllerModInfo::PlatformAny"), model, patches);
      ControllerRowMeans(e1, Now(), row, ks, vendors, c);
    }

    method GenerateControllers(ctrls: seq<ControllerEntry>, vendors: seq<VendorEntry>, kextIndexes: map<string, nat>,
                               ghost ks: seq<KextEntry>)
      requires Valid() && IndexesOk(Now().kexts, kextIndexes, ks) && Now().controllers == None
      requires ControllerModSize !in Now().constants
      modifies this
      ensures Valid() && Now().kexts == old(Now()).kexts && Now().vendors == old(Now()).vendors
      ensures Now().constants == old(Now()).constants[ControllerModSize := |ctrls|]
      ensures Now().clean == (old(Now()).clean && CtrlsOk(ks, ctrls))
      ensures Now().controllers == Some(ControllerSources(ks, vendors, ctrls))
    {
      hide Eval, Fits, Step, IndexesOk, ControllerOk, ControllerMeans, ControllerSource, Grows, PatchListOk, CountRight;
      hide LengthsMatch;
      FitsGrows(Now(), Vars(), disk);
      var ctrlModSection: seq<ControllerRow> := [];
      for i := 0 to |ctrls|
        invariant Valid() && Added() && IndexesOk(Now().kexts, kextIndexes, ks)
        invariant Now().clean == (old(Now()).clean && CtrlsOk(ks, ctrls[..i]))
        invariant Now().clean ==> ControllerCountsRight(Now(), ctrlModSection)
        invariant |ctrlModSection| == i && ControllersOk(Now(), ctrlModSection)
        invariant forall k :: 0 <= k < i ==>
                    ControllerMeans(Now(), ctrlModSection[k]) == ControllerSource(ks, vendors, ctrls[k])
      {
        ghost var e := Now();
        CtrlsOkSnoc(ks, ctrls, i);
        var row := GenerateControllerRow(ctrls[i], vendors, kextIndexes, ks);
        KextsStay(e, Now());
        ControllersGrowEach(e, Now(), ctrlModSection);
        ControllerCountsStay(e, Now(), ctrlModSection, row);
        ListOkLengths(ks, ctrls[i].patches);
        GrowsTrans(old(Now()), e, Now());
        ctrlModSection := ctrlModSection + [row];
      }
      assert ctrls[..|ctrls|] == ctrls;
      assert ControllersMean(Now(), ctrlModSection) == ControllerSources(ks, vendors, ctrls);
      AddControllerMod(old(Now()), Now(), Vars(), disk, ctrlModSection);
      WriteTable(ControllerMod(ctrlModSection), ControllerModSize, |ctrls|);
    }
  }

  /** The whole run: the written program is good, and its tables and constants denote the property lists.
      It is clean if and only if no two kexts share a normalised id and, in every codec of a listed vendor
      and in every controller, Find and Replace match in length and the kext is known. */
  method Generate(disk: Disk, kexts: seq<KextEntry>, vendors: seq<VendorEntry>, ctrls: seq<ControllerEntry>,
                  basePath: string, entries: seq<DirEntry>) returns (out: seq<Decl>, ghost paths: map<string, nat>)
    requires DistinctNames(kexts) && DistinctVendors(vendors)
    ensures Eval(out).good
    ensures Eval(out).clean <==> DistinctIds(kexts) && AllDirsOk(kexts, vendors, entries) && CtrlsOk(kexts, ctrls)
    ensures Eval(out).kexts == Some(KextSources(kexts))
    ensures Eval(out).vendors == Some(VendorSources(disk, kexts, basePath, vendors, entries))
    ensures Eval(out).controllers == Some(ControllerSources(kexts, vendors, ctrls))
    ensures AsListed(Eval(out), disk, kexts, vendors, ctrls, basePath, entries)
    ensures ProgramConstants(Eval(out).constants, kexts, |vendors|, |ctrls|)
    ensures var bufs := Eval(out).bufs;
            forall i, j :: i in bufs && j in bufs && bufs[i] == bufs[j] ==> i == j
    ensures exists n :: Counted(Eval(out).bufs, n)
    ensures FilesOnce(Eval(out).files, paths, disk) && exists n :: Counted(Eval(out).files, n)
  {
    hide Fits, KextSources, VendorSources, ControllerSources, IndexesOk, Step, DistinctIds, AllDirsOk, CtrlsOk;
    hide AsListed, DistinctNames, DistinctVendors;
    var c := new Converter(disk);
    NothingDenoted();
    hide Eval;
    var kextIndexes := c.GenerateKexts(kexts);
    c.GenerateVendors(vendors, basePath, entries, kextIndexes, kexts);
    c.GenerateControllers(ctrls, vendors, kextIndexes, kexts);
    out, paths := c.out, c.fileList;
    FitsShares(c.Now(), c.Vars(), disk);
    TablesAreListed(Eval(out), disk, kexts, vendors, ctrls, basePath, entries);
    assert Counted(Eval(out).bufs, c.patchBufIndex) && Counted(Eval(out).files, c.fileIndex);
  }

  lemma NothingDenoted()
    ensures Eval([]) == NOTHING
  {
  }

  /** No two buffers hold the same bytes, and they are numbered 0 to n - 1; the same for files,
      of which each belongs to exactly one path. */
  lemma FitsShares(e: Env, c: Statics, disk: Disk)
    requires Fits(e, c, disk)
    ensures e.good
    ensures forall i, j :: i in e.bufs && j in e.bufs && e.bufs[i] == e.bufs[j] ==> i == j
    ensures forall i: nat :: i in e.bufs <==> i < c.buf
    ensures forall i: nat :: i in e.files <==> i < c.file
    ensures forall i, p :: i in e.files && p in c.files && c.files[p] == i ==> p in disk && e.files[i] == disk[p]
    ensures forall i :: i in e.files ==> exists p :: p in c.files && c.files[p] == i
    ensures forall p, q :: p in c.files && q in c.files && c.files[p] == c.files[q] ==> p == q
    ensures FilesOnce(e.files, c.files, disk)
  {
    forall i, j | i in e.bufs && j in e.bufs && e.bufs[i] == e.bufs[j] ensures i == j {
      assert c.bufs[e.bufs[i]] == i && c.bufs[e.bufs[j]] == j;
    }
  }

  ghost predicate DistinctNames(ks: seq<KextEntry>) {
    forall i, j :: 0 <= i < j < |ks| ==> ks[i].name != ks[j].name
  }

  ghost predicate DistinctVendors(vs: seq<VendorEntry>) {
    forall i, j :: 0 <= i < j < |vs| ==> vs[i].name != vs[j].name
  }

  // ---------------------------------------------------------------- the kext list

  function KextRows(ks: seq<KextEntry>): (r: seq<KextRow>)
    ensures |r| == |ks|
  {
    seq(|ks|, i requires 0 <= i < |ks| => KextRow(ks[i].id, i, |ks[i].paths|, ks[i].reloadable, ks[i].detect))
  }

  /** The constants are the numbers of the kexts; if two kexts share a constant, one of their numbers. */
  ghost predicate IdsDeclared(constants: map<Const, nat>, ks: seq<KextEntry>) {
    && (forall c :: c in constants <==> IsIdOf(ks, c))
    && (DistinctIds(ks) ==> forall k :: 0 <= k < |ks| ==> constants[IdConstant(ks[k])] == k)
  }

  ghost predicate IsIdOf(ks: seq<KextEntry>, c: Const) {
    exists k :: 0 <= k < |ks| && IdConstant(ks[k]) == c
  }

  /** The numbers of the kexts, and the length of the kext list. */
  ghost predicate KextConstants(constants: map<Const, nat>, ks: seq<KextEntry>) {
    && (forall c :: c in constants <==> c == KextListSize || IsIdOf(ks, c))
    && (DistinctIds(ks) ==> forall k :: 0 <= k < |ks| ==> constants[IdConstant(ks[k])] == k)
    && constants[KextListSize] == |ks|
  }

  /** The same, and the lengths of the other two tables. */
  ghost predicate ProgramConstants(constants: map<Const, nat>, ks: seq<KextEntry>, vendors: nat, ctrls: nat) {
    && (forall c :: c in constants <==>
          c == KextListSize || c == VendorModSize || c == ControllerModSize || IsIdOf(ks, c))
    && (DistinctIds(ks) ==> forall k :: 0 <= k < |ks| ==> constants[IdConstant(ks[k])] == k)
    && constants[KextListSize] == |ks| && constants[VendorModSize] == vendors && constants[ControllerModSize] == ctrls
  }

  /** f is e with the path arrays and constants of ks. */
  ghost predicate PathsOf(ks: seq<KextEntry>, e: Env, f: Env) {
    && f == e.(paths := f.paths, constants := f.constants, clean := e.clean && DistinctIds(ks))
    && (forall i: nat :: i in f.paths <==> i < |ks|)
    && (forall i :: 0 <= i < |ks| ==> f.paths[i] == ks[i].paths)
    && IdsDeclared(f.constants, ks)
  }

  lemma NoPaths(e: Env)
    requires e.paths == map[] && e.constants == map[]
    ensures PathsOf([], e, e)
  {
  }

  lemma IdsSnoc(ks: seq<KextEntry>, k: KextEntry)
    ensures DistinctIds(ks + [k]) <==> DistinctIds(ks) && !IsIdOf(ks, IdConstant(k))
    ensures forall c :: IsIdOf(ks + [k], c) <==> IsIdOf(ks, c) || c == IdConstant(k)
  {
    hide IdConstant;
    var all := ks + [k];
    assert all[|ks|] == k;
    forall c ensures IsIdOf(all, c) <==> IsIdOf(ks, c) || c == IdConstant(k) {
      if IsIdOf(ks, c) {
        var i :| 0 <= i < |ks| && IdConstant(ks[i]) == c;
        assert all[i] == ks[i];
      }
    }
    if DistinctIds(all) {
      assert forall i :: 0 <= i < |ks| ==> all[i] == ks[i];
    }
  }

  lemma IdsDeclaredStep(constants: map<Const, nat>, ks: seq<KextEntry>, k: KextEntry)
    requires IdsDeclared(constants, ks)
    ensures IdsDeclared(constants[IdConstant(k) := |ks|], ks + [k])
  {
    hide IdConstant, DistinctIds;
    IdsSnoc(ks, k);
    var all := ks + [k];
    if DistinctIds(all) {
      forall i | 0 <= i < |all| ensures constants[IdConstant(k) := |ks|][IdConstant(all[i])] == i {
        if i < |ks| {
          assert all[i] == ks[i];
          assert IsIdOf(ks, IdConstant(ks[i]));
        }
      }
    }
  }

  lemma PathsStep(ks: seq<KextEntry>, k: KextEntry, e: Env, f: Env)
    requires PathsOf(ks, e, f)
    ensures PathsOf(ks + [k], e, Step(Step(f, KextPaths(|ks|, k.paths)), Constant(IdConstant(k), |ks|)))
  {
    hide IdConstant, IdsDeclared, DistinctIds, Step;
    var c := IdConstant(k);
    var g := f.(paths := f.paths[|ks| := k.paths]);
    StepNew(f, KextPaths(|ks|, k.paths));
    assert Step(f, KextPaths(|ks|, k.paths)) == g;
    StepDeclare(g, Constant(c, |ks|));
    assert Step(g, Constant(c, |ks|)) == g.(constants := g.constants[c := |ks|], clean := g.clean && c !in g.constants);
    hide Declare;
    IdsSnoc(ks, k);
    IdsDeclaredStep(f.constants, ks, k);
    KnownIds(f.constants, ks, c);
  }

  lemma KnownIds(constants: map<Const, nat>, ks: seq<KextEntry>, c: Const)
    requires IdsDeclared(constants, ks)
    ensures c in constants <==> IsIdOf(ks, c)
  {
  }

  lemma LengthConstant(constants: map<Const, nat>, ks: seq<KextEntry>)
    requires IdsDeclared(constants, ks)
    ensures KextConstants(constants[KextListSize := |ks|], ks)
  {
    hide DistinctIds;
    forall k | 0 <= k < |ks| ensures IsIdOf(ks, IdConstant(ks[k])) && IdConstant(ks[k]) != KextListSize {
    }
  }

  lemma EvalTwo(out: seq<Decl>, more: seq<Decl>, a: Decl, b: Decl)
    ensures Eval(out + (more + [a, b])) == Step(Step(Eval(out + more), a), b)
  {
    hide Eval, Step;
    EvalSnoc(out + more, a);
    EvalSnoc(out + more + [a], b);
    assert out + (more + [a, b]) == out + more + [a] + [b];
  }

  ghost predicate IndexesAre(nums: map<string, nat>, ks: seq<KextEntry>) {
    && (forall name :: name in nums ==> nums[name] < |ks| && ks[nums[name]].name == name)
    && (forall i :: 0 <= i < |ks| ==> ks[i].name in nums)
  }

  lemma IndexesStep(nums: map<string, nat>, ks: seq<KextEntry>, k: KextEntry)
    requires IndexesAre(nums, ks)
    ensures IndexesAre(nums[k.name := |ks|], ks + [k])
  {
    forall i | 0 <= i < |ks + [k]| ensures (ks + [k])[i].name in nums[k.name := |ks|] {
      if i < |ks| {
        assert ks[i].name in nums;
      }
    }
  }

  lemma {:induction false} FindKextIs(ks: seq<KextEntry>, name: string)
    requires DistinctNames(ks)
    ensures forall i :: 0 <= i < |ks| && ks[i].name == name ==> FindKext(ks, name) == Some(KextSource(ks[i]))
    ensures FindKext(ks, name).Some? <==> exists i :: 0 <= i < |ks| && ks[i].name == name
  {
    hide KextSource;
    if ks != [] {
      var front := ks[..|ks| - 1];
      FindKextIs(front, name);
      assert forall i :: 0 <= i < |front| ==> front[i] == ks[i];
      if FindKext(front, name).Some? {
        var i :| 0 <= i < |front| && front[i].name == name;
        assert ks[i].name == name;
      }
    }
  }

  lemma IndexesFind(nums: map<string, nat>, ks: seq<KextEntry>)
    requires IndexesAre(nums, ks) && DistinctNames(ks)
    ensures IndexesOk(Some(KextSources(ks)), nums, ks)
  {
    forall name
      ensures name in nums <==> FindKext(ks, name).Some?
      ensures name in nums ==> nums[name] < |ks| && FindKext(ks, name) == Some(KextSources(ks)[nums[name]])
    {
      FindKextIs(ks, name);
    }
  }

  lemma KextListMeans(ks: seq<KextEntry>, e: Env, f: Env, c: Statics, disk: Disk)
    requires Fits(e, c, disk) && PathsOf(ks, e, f) && e.kexts == None
    ensures var g := Step(f, KextList(KextRows(ks)));
            && g == e.(paths := g.paths, kexts := Some(KextSources(ks)), constants := f.constants,
                       clean := e.clean && DistinctIds(ks))
            && Fits(g, c, disk) && IdsDeclared(g.constants, ks) && KextListSize !in g.constants
  {
    hide Fits, IdsDeclared, DistinctIds, Step;
    var d := KextList(KextRows(ks));
    assert KextsOk(f, KextRows(ks));
    assert KextsMean(f, KextRows(ks)) == KextSources(ks);
    StepNew(f, d);
    assert Declare(f, d) == f.(kexts := Some(KextSources(ks)));
    hide KextsOk, KextsMean, KextSources, KextRows, Declare;
    FitsSame(e, Step(f, d), c, disk);
    KnownIds(f.constants, ks, KextListSize);
  }

  /** The static variables count arrays of six kinds only. */
  lemma FitsSame(e: Env, g: Env, c: Statics, disk: Disk)
    requires Fits(e, c, disk) && g.good == e.good
    requires g.revisions == e.revisions && g.files == e.files && g.platforms == e.platforms
    requires g.layouts == e.layouts && g.bufs == e.bufs && g.patches == e.patches
    ensures Fits(g, c, disk)
  {
  }

  lemma AddConstant(e: Env, c: Statics, disk: Disk, name: Const, value: nat)
    requires Fits(e, c, disk)
    ensures var g := Step(e, Constant(name, value));
            && g == e.(constants := e.constants[name := value], clean := e.clean && name !in e.constants)
            && Fits(g, c, disk)
  {
    hide Fits;
    StepDeclare(e, Constant(name, value));
    hide Step;
    FitsSame(e, Step(e, Constant(name, value)), c, disk);
  }

  // ---------------------------------------------------------------- the tables

  lemma KextsStay(e: Env, f: Env)
    requires Grows(e, f)
    ensures f.kexts == e.kexts && f.codecMods == e.codecMods && f.controllers == e.controllers && f.vendors == e.vendors
    ensures f.constants == e.constants
  {
  }

  lemma CodecRowMeans(e1: Env, e2: Env, e3: Env, e4: Env, row: CodecRow, disk: Disk, ks: seq<KextEntry>,
                      base: string, c: CodecEntry)
    requires Grows(e1, e2) && Grows(e2, e3) && Grows(e3, e4)
    requires row.name == c.name && row.codec == Short(c.codec)
    requires RefOk(e1.revisions, row.revisions) && Deref(e1.revisions, row.revisions) == c.revisions
    requires RefOk(e2.platforms, row.platforms)
          && Deref(e2.platforms, row.platforms) == Map(c.platforms, fs => FileSources(disk, base, fs))
    requires RefOk(e3.layouts, row.layouts)
          && Deref(e3.layouts, row.layouts) == Map(c.layouts, fs => FileSources(disk, base, fs))
    requires PatchRefOk(e4.patches, row.patches)
          && PatchDeref(e4.patches, row.patches) == Map(c.patches, ps => PatchTableSource(ks, ps))
    ensures CodecOk(e4, row) && CodecMeans(e4, row) == CodecSource(disk, ks, base, c)
  {
    hide RefOk, Deref, PatchRefOk, PatchDeref, FileSources, PatchTableSource, Map;
    RefGrows(e1.revisions, e2.revisions, row.revisions);
    RefGrows(e2.revisions, e3.revisions, row.revisions);
    RefGrows(e3.revisions, e4.revisions, row.revisions);
    RefGrows(e2.platforms, e3.platforms, row.platforms);
    RefGrows(e3.platforms, e4.platforms, row.platforms);
    RefGrows(e3.layouts, e4.layouts, row.layouts);
  }

  lemma ControllerRowMeans(e1: Env, e2: Env, row: ControllerRow, ks: seq<KextEntry>, vs: seq<VendorEntry>,
                           c: ControllerEntry)
    requires Grows(e1, e2)
    requires row == ControllerRow(c.name, VendorId(vs, c.vendor), Short(c.device), row.revisions,
                                  Or(c.platform, "ControllerModInfo::PlatformAny"), Model(c.model), row.patches)
    requires RefOk(e1.revisions, row.revisions) && Deref(e1.revisions, row.revisions) == c.revisions
    requires PatchRefOk(e2.patches, row.patches)
          && PatchDeref(e2.patches, row.patches) == Map(c.patches, ps => PatchTableSource(ks, ps))
    ensures ControllerOk(e2, row) && ControllerMeans(e2, row) == ControllerSource(ks, vs, c)
  {
    hide RefOk, Deref, PatchRefOk, PatchDeref, PatchTableSource, Map;
    RefGrows(e1.revisions, e2.revisions, row.revisions);
  }

  lemma CountsStay(e: Env, f: Env, rows: seq<CodecRow>, row: CodecRow)
    requires Grows(e, f) && CodecsOk(e, rows)
    ensures CodecCountsRight(e, rows) && CountRight(f.patches, row.patches) ==> CodecCountsRight(f, rows + [row])
  {
    hide CountRight;
    forall k | 0 <= k < |rows|
      ensures CountRight(e.patches, rows[k].patches) ==> CountRight(f.patches, rows[k].patches)
    {
      assert CodecOk(e, rows[k]);
      PatchRefGrows(e.patches, f.patches, rows[k].patches);
    }
  }

  lemma ControllerCountsStay(e: Env, f: Env, rows: seq<ControllerRow>, row: ControllerRow)
    requires Grows(e, f) && ControllersOk(e, rows)
    ensures ControllerCountsRight(e, rows) && CountRight(f.patches, row.patches) ==>
              ControllerCountsRight(f, rows + [row])
  {
    hide CountRight;
    forall k | 0 <= k < |rows|
      ensures CountRight(e.patches, rows[k].patches) ==> CountRight(f.patches, rows[k].patches)
    {
      assert ControllerOk(e, rows[k]);
      PatchRefGrows(e.patches, f.patches, rows[k].patches);
    }
  }

  lemma ListOkLengths(ks: seq<KextEntry>, ps: Option<seq<PatchEntry>>)
    ensures PatchListOk(ks, ps) ==> LengthsMatch(ps)
  {
    if PatchListOk(ks, ps) && ps.Some? {
      assert forall i :: 0 <= i < |ps.value| ==> PatchEntryOk(ks, ps.value[i]);
    }
  }

  lemma DirOkSnoc(ks: seq<KextEntry>, vendor: string, dir: seq<DirEntry>, i: nat)
    requires i < |dir|
    ensures DirOk(ks, vendor, dir[..i + 1]) <==> DirOk(ks, vendor, dir[..i]) && EntryOk(ks, vendor, dir[i])
  {
    hide EntryOk;
    assert dir[..i + 1][i] == dir[i];
    assert forall k :: 0 <= k < i ==> dir[..i + 1][k] == dir[..i][k];
  }

  lemma AllDirsOkSnoc(ks: seq<KextEntry>, vs: seq<VendorEntry>, dir: seq<DirEntry>, i: nat)
    requires i < |vs|
    ensures AllDirsOk(ks, vs[..i + 1], dir) <==> AllDirsOk(ks, vs[..i], dir) && DirOk(ks, vs[i].name, dir)
  {
    hide DirOk;
    assert vs[..i + 1][i] == vs[i];
    assert forall k :: 0 <= k < i ==> vs[..i + 1][k] == vs[..i][k];
  }

  lemma CtrlsOkSnoc(ks: seq<KextEntry>, cs: seq<ControllerEntry>, i: nat)
    requires i < |cs|
    ensures CtrlsOk(ks, cs[..i + 1]) <==> CtrlsOk(ks, cs[..i]) && PatchListOk(ks, cs[i].patches)
  {
    hide PatchListOk;
    assert cs[..i + 1][i] == cs[i];
    assert forall k :: 0 <= k < i ==> cs[..i + 1][k] == cs[..i][k];
  }

  lemma CodecsMeanSnoc(e: Env, rows: seq<CodecRow>, row: CodecRow)
    requires CodecsOk(e, rows) && CodecOk(e, row)
    ensures CodecsOk(e, rows + [row]) && CodecsMean(e, rows + [row]) == CodecsMean(e, rows) + [CodecMeans(e, row)]
  {
  }

  lemma AddCodecMod(e: Env, f: Env, c: Statics, disk: Disk, vendor: string, rows: seq<CodecRow>)
    requires Grows(e, f) && Fits(f, c, disk) && CodecsOk(f, rows) && vendor !in e.codecMods
    ensures var g := Step(f, CodecMod(vendor, rows));
            && Fits(g, c, disk) && SameRest(e, g)
            && g.clean == (f.clean && CodecCountsRight(f, rows))
            && g.codecMods == e.codecMods[vendor := CodecsMean(f, rows)]
  {
    hide CodecsOk, CodecsMean, CodecCountsRight;
    StepDeclare(f, CodecMod(vendor, rows));
    assert Declare(f, CodecMod(vendor, rows)) == f.(codecMods := f.codecMods[vendor := CodecsMean(f, rows)]);
    hide Step, Declare, Fits;
    FitsSame(f, Step(f, CodecMod(vendor, rows)), c, disk);
  }

  /** The row of a vendor whose codec table has been declared. */
  ghost predicate VendorRowIs(e: Env, row: VendorRow, name: string, id: nat, codecs: seq<CodecValue>) {
    row == VendorRow(name, id, name, |codecs|) && name in e.codecMods && e.codecMods[name] == codecs
  }

  /** The codec tables of the first i vendors, and the rows that refer to them. */
  ghost predicate VendorsWritten(e: Env, rows: seq<VendorRow>, disk: Disk, ks: seq<KextEntry>, path: string,
                                 vs: seq<VendorEntry>, dir: seq<DirEntry>, i: nat)
    requires i <= |vs|
  {
    && |rows| == i
    && (forall name :: name in e.codecMods <==> exists k :: 0 <= k < i && vs[k].name == name)
    && forall k :: 0 <= k < i ==>
         VendorRowIs(e, rows[k], vs[k].name, Short(vs[k].id), CodecSources(disk, ks, path, vs[k].name, dir))
  }

  lemma NoVendors(e: Env, disk: Disk, ks: seq<KextEntry>, path: string, vs: seq<VendorEntry>, dir: seq<DirEntry>)
    requires e.codecMods == map[]
    ensures VendorsWritten(e, [], disk, ks, path, vs, dir, 0) && AllDirsOk(ks, vs[..0], dir)
  {
  }

  lemma VendorIsNew(e: Env, rows: seq<VendorRow>, disk: Disk, ks: seq<KextEntry>, path: string,
                    vs: seq<VendorEntry>, dir: seq<DirEntry>, i: nat)
    requires i < |vs| && DistinctVendors(vs) && VendorsWritten(e, rows, disk, ks, path, vs, dir, i)
    ensures vs[i].name !in e.codecMods
  {
    hide CodecSources;
  }

  lemma VendorsWrittenStep(e: Env, f: Env, rows: seq<VendorRow>, row: VendorRow, disk: Disk, ks: seq<KextEntry>,
                           path: string, vs: seq<VendorEntry>, dir: seq<DirEntry>, i: nat)
    requires i < |vs| && DistinctVendors(vs) && VendorsWritten(e, rows, disk, ks, path, vs, dir, i)
    requires f.codecMods == e.codecMods[vs[i].name := CodecSources(disk, ks, path, vs[i].name, dir)]
    requires row == VendorRow(vs[i].name, Short(vs[i].id), vs[i].name, |CodecSources(disk, ks, path, vs[i].name, dir)|)
    ensures VendorsWritten(f, rows + [row], disk, ks, path, vs, dir, i + 1)
  {
    hide CodecSources, Short;
    forall k | 0 <= k < i
      ensures VendorRowIs(f, rows[k], vs[k].name, Short(vs[k].id), CodecSources(disk, ks, path, vs[k].name, dir))
    {
      assert VendorRowIs(e, rows[k], vs[k].name, Short(vs[k].id), CodecSources(disk, ks, path, vs[k].name, dir));
    }
  }

  lemma AddVendorMod(e: Env, c: Statics, disk: Disk, rows: seq<VendorRow>, ks: seq<KextEntry>, path: string,
                     vs: seq<VendorEntry>, dir: seq<DirEntry>)
    requires Fits(e, c, disk) && e.vendors == None
    requires VendorsWritten(e, rows, disk, ks, path, vs, dir, |vs|)
    ensures var g := Step(e, VendorMod(rows));
            && Fits(g, c, disk) && g.kexts == e.kexts && g.controllers == e.controllers
            && g.constants == e.constants && g.clean == e.clean
            && g.vendors == Some(VendorSources(disk, ks, path, vs, dir))
  {
    hide CodecSources, Fits;
    assert VendorsOk(e, rows);
    assert VendorsMean(e, rows) == VendorSources(disk, ks, path, vs, dir);
    StepNew(e, VendorMod(rows));
    assert Declare(e, VendorMod(rows)) == e.(vendors := Some(VendorsMean(e, rows)));
    hide Step, Declare, VendorsMean, VendorSources;
    FitsSame(e, Step(e, VendorMod(rows)), c, disk);
  }

  lemma ControllersGrowEach(e: Env, f: Env, rows: seq<ControllerRow>)
    requires Grows(e, f) && ControllersOk(e, rows)
    ensures ControllersOk(f, rows)
    ensures forall k :: 0 <= k < |rows| ==> ControllerMeans(f, rows[k]) == ControllerMeans(e, rows[k])
  {
    hide ControllerOk, ControllerMeans, Grows;
    ControllersGrow(e, f, rows);
    forall k | 0 <= k < |rows| ensures ControllerMeans(f, rows[k]) == ControllerMeans(e, rows[k]) {
      assert ControllersMean(f, rows)[k] == ControllersMean(e, rows)[k];
    }
  }

  lemma AddControllerMod(e: Env, f: Env, c: Statics, disk: Disk, rows: seq<ControllerRow>)
    requires Grows(e, f) && Fits(f, c, disk) && ControllersOk(f, rows) && e.controllers == None
    ensures var g := Step(f, ControllerMod(rows));
            && Fits(g, c, disk) && g.kexts == e.kexts && g.vendors == e.vendors
            && g.constants == e.constants && g.clean == (f.clean && ControllerCountsRight(f, rows))
            && g.controllers == Some(ControllersMean(f, rows))
  {
    hide ControllersOk, ControllersMean, ControllerCountsRight;
    StepDeclare(f, ControllerMod(rows));
    assert Declare(f, ControllerMod(rows)) == f.(controllers := Some(ControllersMean(f, rows)));
    hide Step, Declare, Fits;
    FitsSame(f, Step(f, ControllerMod(rows)), c, disk);
  }

  /** The index map finds exactly the kexts of the source, at their place in the list. */
  ghost predicate IndexesOk(kexts: Option<seq<KextValue>>, nums: map<string, nat>, ks: seq<KextEntry>) {
    forall name :: (name in nums <==> FindKext(ks, name).Some?)
      && (name in nums ==>
            && kexts.Some? && nums[name] < |kexts.value|
            && FindKext(ks, name) == Some(kexts.value[nums[name]]))
  }

  lemma KnownBuf(e: Env, c: Statics, disk: Disk, bytes: Bytes)
    requires Fits(e, c, disk) && bytes in c.bufs
    ensures c.bufs[bytes] in e.bufs && e.bufs[c.bufs[bytes]] == bytes
  {
  }

  lemma PatchRowMeans(e: Env, f: Env, g: Env, row: PatchRow, p: PatchEntry, nums: map<string, nat>, ks: seq<KextEntry>)
    requires Grows(e, f) && Grows(f, g) && IndexesOk(e.kexts, nums, ks) && |p.find| == |p.replace|
    requires row.PatchRow? && row.find in f.bufs && f.bufs[row.find] == p.find
    requires row.replace in g.bufs && g.bufs[row.replace] == p.replace
    requires row == PatchRow(if p.name in nums then Some(nums[p.name]) else None, row.find, row.replace, |p.find|,
                             Or(p.count, "0"), Or(p.minKernel, KERNEL_ANY), Or(p.maxKernel, KERNEL_ANY))
    ensures PatchOk(g, row) && PatchMeans(g, row) == PatchSource(ks, p)
    ensures row.kext.Some? <==> FindKext(ks, p.name).Some?
  {
    assert p.name in nums <==> FindKext(ks, p.name).Some?;
  }

  lemma NoRows(e: Env, ks: seq<KextEntry>)
    ensures PatchRowsOk(e, []) && PatchRowsMean(e, []) == [] && PatchSources(ks, []) == []
    ensures RowsClean([]) && PatchesOk(ks, [])
  {
  }

  /** One more row, written when the environment is f, for patch i. */
  lemma RowsAndSources(e: Env, f: Env, rows: seq<PatchRow>, row: PatchRow, ks: seq<KextEntry>, ps: seq<PatchEntry>,
                       i: nat)
    requires i < |ps| && Grows(e, f) && PatchRowsOk(e, rows) && PatchRowsMean(e, rows) == PatchSources(ks, ps[..i])
    requires PatchOk(f, row) && (row.PatchRow? <==> |ps[i].find| == |ps[i].replace|)
    requires row.PatchRow? ==> PatchMeans(f, row) == PatchSource(ks, ps[i])
    requires row.PatchRow? ==> (row.kext.Some? <==> FindKext(ks, ps[i].name).Some?)
    ensures PatchRowsOk(f, rows + [row]) && PatchRowsMean(f, rows + [row]) == PatchSources(ks, ps[..i + 1])
    ensures f.kexts == e.kexts
    ensures (RowsClean(rows) <==> PatchesOk(ks, ps[..i])) ==> (RowsClean(rows + [row]) <==> PatchesOk(ks, ps[..i + 1]))
  {
    hide PatchOk, PatchMeans, PatchSource, FindKext, Sub;
    PatchRowsGrow(e, f, rows);
    assert (rows + [row])[..|rows|] == rows && ps[..i + 1][..i] == ps[..i];
    RowsCleanSnoc(rows, row);
    PatchesOkSnoc(ks, ps[..i], ps[i]);
    assert ps[..i + 1] == ps[..i] + [ps[i]];
    KextKnown(ks, ps[i].name);
  }

  lemma RowsCleanSnoc(rows: seq<PatchRow>, row: PatchRow)
    ensures RowsClean(rows + [row]) <==> RowsClean(rows) && row.PatchRow? && row.kext.Some?
  {
    var all := rows + [row];
    assert all[|rows|] == row;
    assert forall k :: 0 <= k < |rows| ==> all[k] == rows[k];
  }

  lemma PatchesOkSnoc(ks: seq<KextEntry>, ps: seq<PatchEntry>, p: PatchEntry)
    ensures PatchesOk(ks, ps + [p]) <==> PatchesOk(ks, ps) && PatchEntryOk(ks, p)
  {
    hide PatchEntryOk;
    var all := ps + [p];
    assert all[|ps|] == p;
    assert forall k :: 0 <= k < |ps| ==> all[k] == ps[k];
  }

  lemma {:induction false} KextKnown(ks: seq<KextEntry>, name: string)
    ensures FindKext(ks, name).Some? <==> exists k :: 0 <= k < |ks| && ks[k].name == name
  {
    hide KextSource;
    if ks != [] {
      KextKnown(ks[..|ks| - 1], name);
      assert forall k :: 0 <= k < |ks| - 1 ==> ks[..|ks| - 1][k] == ks[k];
    }
  }

  /** The count of a patch table is right if and only if no patch has been dropped from it. */
  lemma {:induction false} CountIffLengths(ks: seq<KextEntry>, ps: seq<PatchEntry>)
    ensures |PatchSources(ks, ps)| <= |ps|
    ensures |PatchSources(ks, ps)| == |ps| <==> LengthsMatch(Some(ps))
  {
    hide PatchSource;
    if ps != [] {
      var front := ps[..|ps| - 1];
      CountIffLengths(ks, front);
      assert ps == front + [ps[|ps| - 1]];
      assert forall i :: 0 <= i < |front| ==> front[i] == ps[i];
    }
  }

  lemma FileRowMeans(e: Env, r: FileRow, disk: Disk, base: string, f: FileEntry)
    requires RefOk(e.files, r.file) && Deref(e.files, r.file) == Contents(disk, base + "/" + f.path)
    requires r == FileRow(r.file, Or(f.minKernel, KERNEL_ANY), Or(f.maxKernel, KERNEL_ANY), f.id)
    ensures FileMeans(e, r) == FileSource(disk, base, f)
  {
  }

  lemma FilesGrowRows(e: Env, f: Env, rows: seq<FileRow>)
    requires Grows(e, f) && FilesOk(e, rows)
    ensures FilesOk(f, rows) && forall k :: 0 <= k < |rows| ==> FileMeans(f, rows[k]) == FileMeans(e, rows[k])
  {
    FilesGrow(e, f, rows);
    forall k | 0 <= k < |rows| ensures FileMeans(f, rows[k]) == FileMeans(e, rows[k]) {
      assert FilesMean(f, rows)[k] == FilesMean(e, rows)[k];
    }
  }

  lemma FitsGrows(e: Env, c: Statics, disk: Disk)
    requires Fits(e, c, disk)
    ensures e.good && Grows(e, e)
  {
  }

  lemma KnownFile(e: Env, c: Statics, disk: Disk, path: string)
    requires Fits(e, c, disk) && path in c.files
    ensures path in disk && c.files[path] in e.files && e.files[c.files[path]] == disk[path]
  {
  }

  // ---------------------------------------------------------------- tables with right counts

  /** The count paired with the array is right, and every row belongs to a kext. */
  ghost predicate TableRight(table: Option<PatchTable>) {
    table.Some? ==>
      && table.value.count == |table.value.rows|
      && forall k :: 0 <= k < |table.value.rows| ==> table.value.rows[k].kext.Some?
  }

  ghost predicate CodecsRight(codecs: seq<CodecValue>) {
    forall k :: 0 <= k < |codecs| ==> TableRight(codecs[k].patches)
  }

  /** Every patch table that the vendor and controller tables refer to is right. */
  ghost predicate TablesRight(e: Env)
    requires e.vendors.Some? && e.controllers.Some?
  {
    && (forall v :: 0 <= v < |e.vendors.value| ==> CodecsRight(e.vendors.value[v].codecs))
    && (forall c :: 0 <= c < |e.controllers.value| ==> TableRight(e.controllers.value[c].patches))
  }

  /** The kexts of the rows are those of the patches, as long as no patch has been dropped. */
  lemma {:induction false} RowsOfKexts(ks: seq<KextEntry>, ps: seq<PatchEntry>)
    requires LengthsMatch(Some(ps))
    ensures |PatchSources(ks, ps)| == |ps|
    ensures forall i :: 0 <= i < |ps| ==> PatchSources(ks, ps)[i] == PatchSource(ks, ps[i])
  {
    hide PatchSource;
    if ps != [] {
      RowsOfKexts(ks, ps[..|ps| - 1]);
    }
  }

  lemma TableRightIff(ks: seq<KextEntry>, ps: Option<seq<PatchEntry>>)
    ensures TableRight(Map(ps, xs => PatchTableSource(ks, xs))) <==> PatchListOk(ks, ps)
  {
    if ps.Some? {
      CountIffLengths(ks, ps.value);
      ListOkLengths(ks, ps);
      if LengthsMatch(ps) {
        RowsOfKexts(ks, ps.value);
        forall i | 0 <= i < |ps.value|
          ensures PatchSources(ks, ps.value)[i].kext.Some? <==> PatchEntryOk(ks, ps.value[i])
        {
          KextKnown(ks, ps.value[i].name);
        }
      }
    }
  }

  lemma {:induction false} CodecsRightIff(disk: Disk, ks: seq<KextEntry>, path: string, vendor: string,
                                          dir: seq<DirEntry>)
    ensures CodecsRight(CodecSources(disk, ks, path, vendor, dir)) <==> DirOk(ks, vendor, dir)
  {
    hide TableRight, PatchListOk;
    if dir != [] {
      var front, e := dir[..|dir| - 1], dir[|dir| - 1];
      CodecsRightIff(disk, ks, path, vendor, front);
      var codecs := CodecSources(disk, ks, path, vendor, front);
      DirOkSnoc(ks, vendor, dir, |dir| - 1);
      assert dir[..|dir|] == dir;
      if e.info.Some? && e.info.value.vendor == vendor {
        TableRightIff(ks, e.info.value.patches);
        CodecsRightSnoc(codecs, CodecSource(disk, ks, path + "/" + e.name, e.info.value));
      } else {
        assert codecs + [] == codecs;
      }
    }
  }

  lemma CodecsRightSnoc(codecs: seq<CodecValue>, c: CodecValue)
    ensures CodecsRight(codecs + [c]) <==> CodecsRight(codecs) && TableRight(c.patches)
  {
    hide TableRight;
    assert (codecs + [c])[|codecs|] == c;
    if CodecsRight(codecs + [c]) {
      forall k | 0 <= k < |codecs| ensures TableRight(codecs[k].patches) {
        assert (codecs + [c])[k] == codecs[k];
      }
    }
  }

  /** In the program that Generate writes every paired count equals the number of elements and every row
      belongs to a kext if and only if, in every codec of a listed vendor and in every controller, Find and
      Replace match in length and the kext is known. */
  lemma TablesRightIff(e: Env, disk: Disk, ks: seq<KextEntry>, vs: seq<VendorEntry>, cs: seq<ControllerEntry>,
                       path: string, dir: seq<DirEntry>)
    requires e.vendors == Some(VendorSources(disk, ks, path, vs, dir))
    requires e.controllers == Some(ControllerSources(ks, vs, cs))
    ensures TablesRight(e) <==> AllDirsOk(ks, vs, dir) && CtrlsOk(ks, cs)
  {
    hide CodecsRight, TableRight, DirOk, PatchListOk, CodecSources;
    forall v | 0 <= v < |vs| ensures CodecsRight(e.vendors.value[v].codecs) <==> DirOk(ks, vs[v].name, dir) {
      CodecsRightIff(disk, ks, path, vs[v].name, dir);
    }
    forall c | 0 <= c < |cs| ensures TableRight(e.controllers.value[c].patches) <==> PatchListOk(ks, cs[c].patches) {
      TableRightIff(ks, cs[c].patches);
    }
  }

  // ---------------------------------------------------------------- the tables say what is listed

  lemma PatchIsListed(ks: seq<KextEntry>, p: PatchEntry)
    requires DistinctNames(ks)
    ensures IsPatch(PatchSource(ks, p), p, ks)
  {
    hide DistinctNames;
    FindKextIs(ks, p.name);
  }

  lemma IncreasingSnoc(at: seq<nat>, n: nat)
    requires Increasing(at) && forall i :: i in at ==> i < n
    ensures Increasing(at + [n]) && forall i :: i in at + [n] <==> i in at || i == n
  {
    assert forall k :: 0 <= k < |at| ==> at[k] in at;
  }

  lemma {:induction false} PatchesAreListed(ks: seq<KextEntry>, ps: seq<PatchEntry>) returns (at: seq<nat>)
    requires DistinctNames(ks)
    ensures PatchesAre(PatchSources(ks, ps), ps, ks, at)
  {
    hide DistinctNames, IsPatch, PatchSource;
    at := [];
    if ps != [] {
      var n := |ps| - 1;
      at := PatchesAreListed(ks, ps[..n]);
      assert forall i :: i in at ==> LengthsAgree(ps[..n], i);
      if LengthsAgree(ps, n) {
        PatchIsListed(ks, ps[n]);
        IncreasingSnoc(at, n);
        at := at + [n];
      }
    }
  }

  lemma PatchTableIsListed(ks: seq<KextEntry>, ps: Option<seq<PatchEntry>>)
    requires DistinctNames(ks)
    ensures PatchTableIs(Map(ps, xs => PatchTableSource(ks, xs)), ps, ks)
  {
    hide PatchesAre, PatchSources;
    if ps.Some? {
      var at := PatchesAreListed(ks, ps.value);
    }
  }

  lemma FilesAreListed(disk: Disk, base: string, fs: Option<seq<FileEntry>>)
    ensures FilesAre(Map(fs, xs => FileSources(disk, base, xs)), fs, disk, base)
  {
  }

  lemma CodecIsListed(disk: Disk, ks: seq<KextEntry>, base: string, c: CodecEntry)
    requires DistinctNames(ks)
    ensures IsCodec(CodecSource(disk, ks, base, c), c, disk, base, ks)
  {
    hide FilesAre, PatchTableIs, DistinctNames, Map, FileSources, PatchTableSource;
    FilesAreListed(disk, base, c.platforms);
    FilesAreListed(disk, base, c.layouts);
    PatchTableIsListed(ks, c.patches);
  }

  /** The codecs of all but the last entry, as codecs of all entries. */
  lemma CodecsOfFront(vs: seq<CodecValue>, vendor: string, dir: seq<DirEntry>, disk: Disk, path: string,
                      ks: seq<KextEntry>, at: seq<nat>)
    requires dir != [] && CodecsAre(vs, vendor, dir[..|dir| - 1], disk, path, ks, at)
    ensures CodecsAreBut(vs, vendor, dir, disk, path, ks, at, |dir| - 1)
    ensures !IsCodecOf(dir, vendor, |dir| - 1) ==> CodecsAre(vs, vendor, dir, disk, path, ks, at)
  {
    hide IsCodec, Increasing;
    var n := |dir| - 1;
    assert forall i: nat :: IsCodecOf(dir[..n], vendor, i) <==> i < n && IsCodecOf(dir, vendor, i);
    forall k | 0 <= k < |at|
      ensures IsCodecOf(dir, vendor, at[k])
      ensures IsCodec(vs[k], dir[at[k]].info.value, disk, path + "/" + dir[at[k]].name, ks)
    {
      assert at[k] in at && dir[..n][at[k]] == dir[at[k]];
    }
  }

  /** CodecsAre, but for the entries from place n on. */
  ghost predicate CodecsAreBut(vs: seq<CodecValue>, vendor: string, dir: seq<DirEntry>, disk: Disk, path: string,
                               ks: seq<KextEntry>, at: seq<nat>, n: nat) {
    && |at| == |vs| && Increasing(at)
    && (forall i: nat :: i in at <==> i < n && IsCodecOf(dir, vendor, i))
    && forall k :: 0 <= k < |at| ==>
         IsCodecOf(dir, vendor, at[k]) && IsCodec(vs[k], dir[at[k]].info.value, disk, path + "/" + dir[at[k]].name, ks)
  }

  lemma CodecsAreSnoc(vs: seq<CodecValue>, v: CodecValue, vendor: string, dir: seq<DirEntry>, disk: Disk,
                      path: string, ks: seq<KextEntry>, at: seq<nat>)
    requires dir != [] && CodecsAreBut(vs, vendor, dir, disk, path, ks, at, |dir| - 1)
    requires var n := |dir| - 1;
             IsCodecOf(dir, vendor, n) && IsCodec(v, dir[n].info.value, disk, path + "/" + dir[n].name, ks)
    ensures CodecsAre(vs + [v], vendor, dir, disk, path, ks, at + [|dir| - 1])
  {
    IncreasingSnoc(at, |dir| - 1);
    hide IsCodec, Increasing;
  }

  lemma {:induction false} CodecsAreListed(disk: Disk, ks: seq<KextEntry>, path: string, vendor: string,
                                           dir: seq<DirEntry>) returns (at: seq<nat>)
    requires DistinctNames(ks)
    ensures CodecsAre(CodecSources(disk, ks, path, vendor, dir), vendor, dir, disk, path, ks, at)
  {
    hide DistinctNames, IsCodec, CodecSource;
    at := [];
    if dir != [] {
      var n := |dir| - 1;
      at := CodecsAreListed(disk, ks, path, vendor, dir[..n]);
      var front := CodecSources(disk, ks, path, vendor, dir[..n]);
      hide CodecSources;
      CodecsOfFront(front, vendor, dir, disk, path, ks, at);
      if IsCodecOf(dir, vendor, n) {
        CodecIsListed(disk, ks, path + "/" + dir[n].name, dir[n].info.value);
        CodecsAreSnoc(front, CodecSource(disk, ks, path + "/" + dir[n].name, dir[n].info.value),
                      vendor, dir, disk, path, ks, at);
        at := at + [n];
      }
    }
  }

  lemma {:induction false} VendorIdIs(vs: seq<VendorEntry>, name: string)
    requires DistinctVendors(vs)
    ensures IsIdOfVendor(VendorId(vs, name), name, vs)
  {
    if vs != [] {
      var front := vs[..|vs| - 1];
      VendorIdIs(front, name);
      assert forall k :: 0 <= k < |front| ==> front[k] == vs[k];
    }
  }

  lemma ControllerIsListed(ks: seq<KextEntry>, vs: seq<VendorEntry>, c: ControllerEntry)
    requires DistinctNames(ks) && DistinctVendors(vs)
    ensures IsController(ControllerSource(ks, vs, c), c, vs, ks)
  {
    hide PatchTableIs, DistinctNames, DistinctVendors, IsIdOfVendor, VendorId, Map, PatchTableSource;
    PatchTableIsListed(ks, c.patches);
    VendorIdIs(vs, c.vendor);
  }

  /** The tables of the written program say, entry by entry, what the property lists say. */
  lemma TablesAreListed(e: Env, disk: Disk, ks: seq<KextEntry>, vs: seq<VendorEntry>, cs: seq<ControllerEntry>,
                        path: string, dir: seq<DirEntry>)
    requires DistinctNames(ks) && DistinctVendors(vs)
    requires e.kexts == Some(KextSources(ks))
    requires e.vendors == Some(VendorSources(disk, ks, path, vs, dir))
    requires e.controllers == Some(ControllerSources(ks, vs, cs))
    ensures AsListed(e, disk, ks, vs, cs, path, dir)
  {
    hide DistinctNames, DistinctVendors, CodecsAre, CodecSources, IsController, ControllerSource;
    forall i | 0 <= i < |vs| ensures IsVendor(e.vendors.value[i], vs[i], dir, disk, path, ks) {
      var at := CodecsAreListed(disk, ks, path, vs[i].name, dir);
    }
    forall i | 0 <= i < |cs| ensures IsController(e.controllers.value[i], cs[i], vs, ks) {
      ControllerIsListed(ks, vs, cs[i]);
    }
  }

  /** An input: a patch with a kernel and a count of its own, and one without. */
  lemma GivenKernelIsKept(ks: seq<KextEntry>, p: PatchEntry, v: PatchValue)
    requires IsPatch(v, p, ks)
    ensures p.minKernel == Some("KernelPatcher::KernelVersion::Mojave") && p.count == Some("2") ==>
              v.minKernel == "KernelPatcher::KernelVersion::Mojave" && v.count == "2"
    ensures p.minKernel == None && p.count == None ==> v.minKernel == "KernelPatcher::KernelAny" && v.count == "0"
  {
  }

  // ---------------------------------------------------------------- inputs for which it goes wrong

  lemma {:induction false} WithoutNothing(s: string, word: string)
    requires word != "" && forall i :: 0 <= i < |s| ==> !StartsWith(s[i..], word)
    ensures Without(s, word) == s
  {
    if s != "" {
      assert s[0..] == s;
      assert forall i :: 0 <= i < |s[1..]| ==> s[1..][i..] == s[i + 1..];
      WithoutNothing(s[1..], word);
    }
  }

  /** The first occurrence goes, and so on behind it; with WithoutNothing this is all there is to say. */
  lemma {:induction false} WithoutFirst(a: string, word: string, b: string)
    requires word != "" && forall i :: 0 <= i < |a| ==> !StartsWith((a + word + b)[i..], word)
    ensures Without(a + word + b, word) == a + Without(b, word)
  {
    var s := a + word + b;
    if a == "" {
      assert s[..|word|] == word && s[|word|..] == b;
    } else {
      var rest := a[1..] + word + b;
      assert s[1..] == rest && s[0..] == s;
      forall i | 0 <= i < |a[1..]| ensures !StartsWith(rest[i..], word) {
        assert rest[i..] == s[i + 1..];
      }
      WithoutFirst(a[1..], word, b);
    }
  }

  lemma StartsAt(s: string, i: nat, word: string)
    requires i <= |s| && StartsWith(s[i..], word)
    ensures i + |word| <= |s| && forall k :: 0 <= k < |word| ==> s[i + k] == word[k]
  {
    assert s[i..][..|word|] == s[i..i + |word|];
  }

  lemma NoDotNoWord(x: string, word: string)
    requires '.' in word && '.' !in x
    ensures Without(x, word) == x
  {
    var k :| 0 <= k < |word| && word[k] == '.';
    forall i | 0 <= i < |x| ensures !StartsWith(x[i..], word) {
      if StartsWith(x[i..], word) {
        StartsAt(x, i, word);
      }
    }
    WithoutNothing(x, word);
  }

  /** The constant of a kext below one of the two usual prefixes is called like the rest of the id. */
  lemma IdsOfAppleKexts(k: KextEntry, x: string)
    requires '.' !in x
    ensures k.id == "com.apple.driver." + x || k.id == "com.apple.iokit." + x || k.id == x ==>
              IdConstant(k) == KextId(x)
  {
    hide Without;
    NoDotNoWord(x, "com.apple.driver.");
    NoDotNoWord(x, "com.apple.iokit.");
    NoDotNoWord(x, ".");
    assert "" + "com.apple.driver." + x == "com.apple.driver." + x && "" + x == x;
    WithoutFirst("", "com.apple.driver.", x);
    assert "" + "com.apple.iokit." + x == "com.apple.iokit." + x;
    WithoutFirst("", "com.apple.iokit.", x);
    if k.id == "com.apple.iokit." + x {
      IokitIsNoDriver(x);
    }
  }

  lemma IokitIsNoDriver(x: string)
    requires '.' !in x
    ensures Without("com.apple.iokit." + x, "com.apple.driver.") == "com.apple.iokit." + x
  {
    var s := "com.apple.iokit." + x;
    var word := "com.apple.driver.";
    assert word[3] == '.' && word[9] == '.' && word[10] == 'd' && word[16] == '.';
    assert forall k :: 16 <= k < |s| ==> s[k] == x[k - 16] && s[k] in x;
    forall i | 0 <= i < |s| ensures !StartsWith(s[i..], word) {
      if StartsWith(s[i..], word) {
        StartsAt(s, i, word);
      }
    }
    WithoutNothing(s, word);
  }

  /** Two different kext ids with the same constant: "A.B" and "AB". */
  lemma IdsThatClash(a: KextEntry, b: KextEntry)
    requires a.id == "A.B" && b.id == "AB"
    ensures a.id != b.id && !DistinctIds([a, b])
  {
    WithoutNothing("A.B", "com.apple.driver.");
    WithoutNothing("A.B", "com.apple.iokit.");
    WithoutNothing("AB", "com.apple.driver.");
    WithoutNothing("AB", "com.apple.iokit.");
    WithoutNothing("AB", ".");
    assert "A.B"[1..] == ".B" && ".B"[1..] == "B" && "B"[1..] == "";
    assert Without("", ".") == "" && Without("B", ".") == "B";
    assert Without(".B", ".") == "B";
    assert Without("A.B", ".") == "AB";
    assert IdConstant(a) == IdConstant(b);
    var both := [a, b];
    assert both[0] == a && both[1] == b && IdConstant(both[0]) == IdConstant(both[1]);
  }

  /** A patch of unequal lengths is dropped from a table whose count still includes it. */
  lemma DroppedPatch(ks: seq<KextEntry>, p: PatchEntry)
    requires |p.find| != |p.replace|
    ensures PatchTableSource(ks, [p]) == PatchTable([], 1) && !TableRight(Some(PatchTableSource(ks, [p])))
  {
    assert [p][..0] == [];
    assert PatchSources(ks, [p]) == [];
  }
}

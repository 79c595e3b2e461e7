/** The property lists that ResourceConverter/main.mm reads, and what the tables have to say about them,
    entry by entry and key by key. */
module PropertyLists {
  import opened Declarations
  import opened Values

  // ---------------------------------------------------------------- the property lists

  datatype KextEntry = KextEntry(name: string, id: string, paths: seq<string>, reloadable: bool, detect: bool)

  datatype PatchEntry = PatchEntry(name: string, find: Bytes, replace: Bytes, count: Option<string>,
                                   minKernel: Option<string>, maxKernel: Option<string>)

  datatype FileEntry = FileEntry(path: string, minKernel: Option<string>, maxKernel: Option<string>, id: string)

  datatype CodecEntry = CodecEntry(vendor: string, name: string, codec: nat, revisions: Option<seq<nat>>,
                                   platforms: Option<seq<FileEntry>>, layouts: Option<seq<FileEntry>>,
                                   patches: Option<seq<PatchEntry>>)

  /** An entry of the resource directory, with its Info.plist if it has one. */
  datatype DirEntry = DirEntry(name: string, info: Option<CodecEntry>)

  datatype VendorEntry = VendorEntry(name: string, id: nat)

  datatype ControllerEntry = ControllerEntry(name: string, vendor: string, device: nat, revisions: Option<seq<nat>>,
                                             platform: Option<string>, model: Option<string>,
                                             patches: Option<seq<PatchEntry>>)

  type Disk = map<string, Bytes>

  // ---------------------------------------------------------------- the tables

  /** What is given for a key, or a default if the key is missing. */
  predicate IsGiven(value: string, given: Option<string>, default: string) {
    && (given.Some? ==> value == given.value)
    && (given.None? ==> value == default)
  }

  predicate KernelsAre(minKernel: string, maxKernel: string, givenMin: Option<string>, givenMax: Option<string>) {
    && IsGiven(minKernel, givenMin, "KernelPatcher::KernelAny")
    && IsGiven(maxKernel, givenMax, "KernelPatcher::KernelAny")
  }

  predicate IsKext(v: KextValue, k: KextEntry) {
    v.id == k.id && v.paths == k.paths && v.reloadable == k.reloadable && v.detect == k.detect
  }

  /** The kext of that name, if one is listed. */
  ghost predicate IsKextNamed(v: Option<KextValue>, name: string, ks: seq<KextEntry>) {
    && (forall k :: 0 <= k < |ks| && ks[k].name == name ==> v.Some? && IsKext(v.value, ks[k]))
    && ((forall k :: 0 <= k < |ks| ==> ks[k].name != name) ==> v == None)
  }

  ghost predicate IsPatch(v: PatchValue, p: PatchEntry, ks: seq<KextEntry>) {
    && IsKextNamed(v.kext, p.name, ks)
    && v.find == p.find && v.replace == p.replace && v.size == |p.find|
    && IsGiven(v.count, p.count, "0")
    && KernelsAre(v.minKernel, v.maxKernel, p.minKernel, p.maxKernel)
  }

  ghost predicate Increasing(at: seq<nat>) {
    forall i, j :: 0 <= i < j < |at| ==> at[i] < at[j]
  }

  predicate LengthsAgree(ps: seq<PatchEntry>, i: nat) {
    i < |ps| && |ps[i].find| == |ps[i].replace|
  }

  /** The elements are the patches of matching lengths, in order; `at` are their places in the list. */
  ghost predicate PatchesAre(rows: seq<PatchValue>, ps: seq<PatchEntry>, ks: seq<KextEntry>, at: seq<nat>) {
    && |at| == |rows| && Increasing(at)
    && (forall i: nat :: i in at <==> LengthsAgree(ps, i))
    && forall k :: 0 <= k < |at| ==> at[k] < |ps| && IsPatch(rows[k], ps[at[k]], ks)
  }

  ghost predicate PatchTableIs(t: Option<PatchTable>, ps: Option<seq<PatchEntry>>, ks: seq<KextEntry>) {
    && (t.Some? <==> ps.Some?)
    && (ps.Some? ==> t.value.count == |ps.value| && exists at :: PatchesAre(t.value.rows, ps.value, ks, at))
  }

  predicate IsFile(v: FileValue, f: FileEntry, disk: Disk, base: string) {
    var path := base + "/" + f.path;
    && v.data == (if path in disk then Some(disk[path]) else None)
    && v.id == f.id
    && KernelsAre(v.minKernel, v.maxKernel, f.minKernel, f.maxKernel)
  }

  ghost predicate FilesAre(vs: Option<seq<FileValue>>, fs: Option<seq<FileEntry>>, disk: Disk, base: string) {
    && (vs.Some? <==> fs.Some?)
    && (fs.Some? ==> |vs.value| == |fs.value|
                     && forall i :: 0 <= i < |fs.value| ==> IsFile(vs.value[i], fs.value[i], disk, base))
  }

  ghost predicate IsCodec(v: CodecValue, c: CodecEntry, disk: Disk, base: string, ks: seq<KextEntry>) {
    && v.name == c.name && v.codec == c.codec % 0x10000 && v.revisions == c.revisions
    && FilesAre(v.platforms, c.platforms, disk, base)
    && FilesAre(v.layouts, c.layouts, disk, base)
    && PatchTableIs(v.patches, c.patches, ks)
  }

  predicate IsCodecOf(dir: seq<DirEntry>, vendor: string, i: nat) {
    i < |dir| && dir[i].info.Some? && dir[i].info.value.vendor == vendor
  }

  /** The codecs are the directory entries of this vendor, in order; `at` are their places. */
  ghost predicate CodecsAre(vs: seq<CodecValue>, vendor: string, dir: seq<DirEntry>, disk: Disk, path: string,
                            ks: seq<KextEntry>, at: seq<nat>) {
    && |at| == |vs| && Increasing(at)
    && (forall i: nat :: i in at <==> IsCodecOf(dir, vendor, i))
    && forall k :: 0 <= k < |at| ==>
         IsCodecOf(dir, vendor, at[k]) && IsCodec(vs[k], dir[at[k]].info.value, disk, path + "/" + dir[at[k]].name, ks)
  }

  ghost predicate IsVendor(v: VendorValue, entry: VendorEntry, dir: seq<DirEntry>, disk: Disk, path: string,
                           ks: seq<KextEntry>) {
    && v.name == entry.name && v.vendor == entry.id % 0x10000
    && exists at :: CodecsAre(v.codecs, entry.name, dir, disk, path, ks, at)
  }

  predicate IsModel(v: string, model: Option<string>) {
    && (model == Some("Laptop") ==> v == "WIOKit::ComputerModel::ComputerLaptop")
    && (model == Some("Desktop") ==> v == "WIOKit::ComputerModel::ComputerDesktop")
    && (model != Some("Laptop") && model != Some("Desktop") ==> v == "WIOKit::ComputerModel::ComputerAny")
  }

  /** The id of the vendor of that name, or 0 if none is listed. */
  ghost predicate IsIdOfVendor(id: nat, name: string, vs: seq<VendorEntry>) {
    && (forall k :: 0 <= k < |vs| && vs[k].name == name ==> id == vs[k].id % 0x10000)
    && ((forall k :: 0 <= k < |vs| ==> vs[k].name != name) ==> id == 0)
  }

  ghost predicate IsController(v: ControllerValue, c: ControllerEntry, vs: seq<VendorEntry>, ks: seq<KextEntry>) {
    && v.name == c.name && IsIdOfVendor(v.vendor, c.vendor, vs) && v.device == c.device % 0x10000
    && v.revisions == c.revisions
    && IsGiven(v.platform, c.platform, "ControllerModInfo::PlatformAny")
    && IsModel(v.model, c.model)
    && PatchTableIs(v.patches, c.patches, ks)
  }

  ghost predicate KextsAre(vs: seq<KextValue>, ks: seq<KextEntry>) {
    |vs| == |ks| && forall i :: 0 <= i < |ks| ==> IsKext(vs[i], ks[i])
  }

  ghost predicate VendorsAre(rows: seq<VendorValue>, vs: seq<VendorEntry>, dir: seq<DirEntry>, disk: Disk,
                             path: string, ks: seq<KextEntry>) {
    |rows| == |vs| && forall i :: 0 <= i < |vs| ==> IsVendor(rows[i], vs[i], dir, disk, path, ks)
  }

  ghost predicate ControllersAre(rows: seq<ControllerValue>, cs: seq<ControllerEntry>, vs: seq<VendorEntry>,
                                 ks: seq<KextEntry>) {
    |rows| == |cs| && forall i :: 0 <= i < |cs| ==> IsController(rows[i], cs[i], vs, ks)
  }

  /** The three tables say what the property lists say. */
  ghost predicate AsListed(e: Env, disk: Disk, ks: seq<KextEntry>, vs: seq<VendorEntry>, cs: seq<ControllerEntry>,
                           path: string, dir: seq<DirEntry>) {
    && e.kexts.Some? && KextsAre(e.kexts.value, ks)
    && e.vendors.Some? && VendorsAre(e.vendors.value, vs, dir, disk, path, ks)
    && e.controllers.Some? && ControllersAre(e.controllers.value, cs, vs, ks)
  }
}

/** Adding the sinf entries to a package: an archive is rewritten beside the original and then moved over it. */
module Package {
  import opened Common

  datatype Entry = Entry(name: string, data: Bytes)

  /** A file holding an archive; without its final directory it cannot be opened as one. */
  datatype File = File(entries: seq<Entry>, complete: bool)

  type Files = map<string, File>

  /** A sinf, or a nil pointer. */
  type Sinf = Option<Bytes>

  // ---- names ------------------------------------------------------------

  predicate Contains(s: string, sub: string)
    decreases |s|
  {
    sub <= s || (s != "" && Contains(s[1..], sub))
  }

  predicate HasSuffix(s: string, suffix: string) {
    |suffix| <= |s| && s[|s| - |suffix|..] == suffix
  }

  function TrimSuffix(s: string, suffix: string): string {
    if HasSuffix(s, suffix) then s[..|s| - |suffix|] else s
  }

  function TrimSlashes(s: string): string {
    if s != "" && s[|s| - 1] == '/' then TrimSlashes(s[..|s| - 1]) else s
  }

  /** What follows the last slash. */
  function LastElement(s: string): string {
    if s == "" || s[|s| - 1] == '/' then "" else LastElement(s[..|s| - 1]) + [s[|s| - 1]]
  }

  /** filepath.Base. */
  function Base(path: string): (r: string)
    ensures r != ""
  {
    if path == "" then "."
    else
      var last := LastElement(TrimSlashes(path));
      if last == "" then "/" else last
  }

  const INFO: string := ".app/Info.plist"
  const MANIFEST: string := ".app/SC_Info/Manifest.plist"
  const WATCH: string := "/Watch/"

  // ---- what is read from the package ------------------------------------

  /** The first entry, from k on, whose name satisfies p; the length if there is none. */
  function First(entries: seq<Entry>, p: string -> bool, k: nat): (r: nat)
    requires k <= |entries|
    ensures k <= r <= |entries|
    ensures r < |entries| ==> p(entries[r].name)
    ensures forall j :: k <= j < r ==> !p(entries[j].name)
    decreases |entries| - k
  {
    if k == |entries| || p(entries[k].name) then k else First(entries, p, k + 1)
  }

  function InfoAt(entries: seq<Entry>): nat {
    First(entries, name => Contains(name, INFO), 0)
  }

  function ManifestAt(entries: seq<Entry>): nat {
    First(entries, name => HasSuffix(name, MANIFEST), 0)
  }

  function BundleAt(entries: seq<Entry>): nat {
    First(entries, name => Contains(name, INFO) && !Contains(name, WATCH), 0)
  }

  function BundleName(entries: seq<Entry>): Option<string> {
    var k := BundleAt(entries);
    if k == |entries| then None else Some(Base(TrimSuffix(entries[k].name, INFO)))
  }

  /** k is the first entry whose name satisfies p, or the length. */
  ghost predicate IsFirst(entries: seq<Entry>, p: string -> bool, k: nat) {
    k <= |entries| && (k < |entries| ==> p(entries[k].name)) && forall j :: 0 <= j < k ==> !p(entries[j].name)
  }

  /** Occurs, somewhere. */
  ghost predicate Within(sub: string, s: string) {
    exists i :: 0 <= i <= |s| && sub <= s[i..]
  }

  lemma {:induction false} ContainsExactly(s: string, sub: string)
    ensures Contains(s, sub) <==> Within(sub, s)
  {
    assert s[0..] == s;
    if s != "" {
      ContainsExactly(s[1..], sub);
      if Within(sub, s[1..]) {
        var i :| 0 <= i <= |s[1..]| && sub <= s[1..][i..];
        assert s[1..][i..] == s[i + 1..];
      }
      if Within(sub, s) && !(sub <= s) {
        var i :| 0 <= i <= |s| && sub <= s[i..];
        assert s[1..][i - 1..] == s[i..];
      }
    }
  }

  /** Where the three lists are read from: the first name that contains, or ends in, the fixed parts. */
  lemma ReadFromFirst(entries: seq<Entry>)
    ensures IsFirst(entries, name => Contains(name, ".app/Info.plist"), InfoAt(entries))
    ensures IsFirst(entries, name => Contains(name, ".app/Info.plist") && !Contains(name, "/Watch/"), BundleAt(entries))
    ensures IsFirst(entries, name => HasSuffix(name, ".app/SC_Info/Manifest.plist"), ManifestAt(entries))
  {
  }

  /** The bundle is named after the directory: Payload/NAME.app/Info.plist gives NAME. */
  lemma BundleIsTheDirectory(entries: seq<Entry>, dir: string, name: string)
    requires BundleAt(entries) < |entries|
    requires entries[BundleAt(entries)].name == dir + "/" + name + ".app/Info.plist" && name != "" && '/' !in name
    ensures BundleName(entries) == Some(name)
  {
    var path := dir + "/" + name;
    assert entries[BundleAt(entries)].name == path + INFO;
    assert (path + INFO)[..|path|] == path && (path + INFO)[|path|..] == INFO;
    LastElementIs(dir + "/", name);
  }

  lemma {:induction false} LastElementIs(before: string, name: string)
    requires '/' !in name && (before == "" || before[|before| - 1] == '/')
    ensures LastElement(before + name) == name
  {
    if name == "" {
      assert before + name == before;
    } else {
      var front := name[..|name| - 1];
      assert (before + name)[..|before + name| - 1] == before + front;
      LastElementIs(before, front);
    }
  }

  /** A bundle name implies an Info.plist; both come from one entry exactly when the first one is not a watch app's. */
  lemma BundleAndInfo(entries: seq<Entry>)
    ensures BundleName(entries).Some? ==> InfoAt(entries) <= BundleAt(entries) < |entries|
    ensures BundleName(entries).Some? ==>
              (InfoAt(entries) == BundleAt(entries) <==> !Contains(entries[InfoAt(entries)].name, WATCH))
  {
    if BundleName(entries).Some? {
      assert Contains(entries[BundleAt(entries)].name, INFO);
      assert !Contains(entries[BundleAt(entries)].name, WATCH);
    }
  }

  /** The property-list reader: the sinf paths of a manifest, the executable name of an info file. */
  datatype Plist = Plist(manifest: Bytes -> Option<seq<string>>, info: Bytes -> Option<string>)

  function InApp(bundle: string, path: string): string {
    "Payload/" + bundle + ".app/" + path
  }

  function SinfPath(bundle: string, executable: string): string {
    InApp(bundle, "SC_Info/" + executable + ".sinf")
  }

  /** The package names its bundle, and its lists can be read. */
  predicate Readable(entries: seq<Entry>, plist: Plist) {
    var m, i := ManifestAt(entries), InfoAt(entries);
    && BundleName(entries).Some? && i < |entries| && plist.info(entries[i].data).Some?
    && (m < |entries| ==> plist.manifest(entries[m].data).Some?)
  }

  /** An entry whose name ends in a slash is a directory and takes no data. */
  predicate Writable(name: string, data: Bytes) {
    data == [] || !HasSuffix(name, "/")
  }

  /** The sinf can be written under the name. */
  predicate Fits(sinf: Sinf, name: string) {
    sinf.Some? && Writable(name, sinf.value)
  }

  /** The package is readable, and the sinfs fit it. */
  predicate InOrder(entries: seq<Entry>, sinfs: seq<Sinf>, plist: Plist) {
    var m := ManifestAt(entries);
    && Readable(entries, plist)
    && if m < |entries| then FitPaths(sinfs, BundleName(entries).value, plist.manifest(entries[m].data).value)
       else sinfs != [] && sinfs[0].Some?
  }

  predicate FitPaths(sinfs: seq<Sinf>, bundle: string, paths: seq<string>) {
    |paths| == |sinfs| && forall k :: 0 <= k < |sinfs| ==> Fits(sinfs[k], InApp(bundle, paths[k]))
  }

  ghost predicate AtPaths(added: seq<Entry>, bundle: string, paths: seq<string>, sinfs: seq<Sinf>) {
    && |added| == |paths| && FitPaths(sinfs, bundle, paths)
    && forall k :: 0 <= k < |added| ==> added[k] == Entry(InApp(bundle, paths[k]), sinfs[k].value)
  }

  /** The entries to add, by position: sinf k goes to path k of the manifest, or the first to the executable's. */
  ghost predicate Adds(added: seq<Entry>, entries: seq<Entry>, sinfs: seq<Sinf>, plist: Plist)
  {
    var m := ManifestAt(entries);
    && InOrder(entries, sinfs, plist)
    && var bundle := BundleName(entries).value;
    if m < |entries| then AtPaths(added, bundle, plist.manifest(entries[m].data).value, sinfs)
    else added == [Entry(SinfPath(bundle, plist.info(entries[InfoAt(entries)].data).value), sinfs[0].value)]
  }

  /** The names of new entries, spelled out. */
  lemma EntryNames(bundle: string, path: string, executable: string)
    ensures InApp(bundle, path) == "Payload/" + bundle + ".app/" + path
    ensures SinfPath(bundle, executable) == "Payload/" + bundle + ".app/SC_Info/" + executable + ".sinf"
  {
    var name := "Payload/" + bundle + ".app/SC_Info/" + executable + ".sinf";
    assert ".app/SC_Info/" == ".app/" + "SC_Info/";
    assert SinfPath(bundle, executable) == name;
  }

  /** Sinf k goes to the k-th path of the manifest. */
  lemma AddsByManifest(added: seq<Entry>, entries: seq<Entry>, sinfs: seq<Sinf>, plist: Plist, k: nat)
    requires Adds(added, entries, sinfs, plist) && ManifestAt(entries) < |entries| && k < |added|
    ensures var paths := plist.manifest(entries[ManifestAt(entries)].data);
            && paths.Some? && |added| == |paths.value| == |sinfs| && sinfs[k] == Some(added[k].data)
            && added[k].name == "Payload/" + BundleName(entries).value + ".app/" + paths.value[k]
  {
    EntryNames(BundleName(entries).value, plist.manifest(entries[ManifestAt(entries)].data).value[k], "");
  }

  /** Without a manifest the first sinf goes to the path of the executable. */
  lemma AddsByInfo(added: seq<Entry>, entries: seq<Entry>, sinfs: seq<Sinf>, plist: Plist)
    requires Adds(added, entries, sinfs, plist) && ManifestAt(entries) == |entries|
    ensures InfoAt(entries) < |entries| && plist.info(entries[InfoAt(entries)].data).Some? && BundleName(entries).Some?
    ensures |added| == 1 && sinfs != [] && sinfs[0] == Some(added[0].data)
    ensures var executable := plist.info(entries[InfoAt(entries)].data).value;
            added[0].name == "Payload/" + BundleName(entries).value + ".app/SC_Info/" + executable + ".sinf"
  {
    EntryNames(BundleName(entries).value, "", plist.info(entries[InfoAt(entries)].data).value);
  }

  /** The entries to add are determined by the package and the sinfs. */
  lemma AddsOnce(a: seq<Entry>, b: seq<Entry>, entries: seq<Entry>, sinfs: seq<Sinf>, plist: Plist)
    ensures Adds(a, entries, sinfs, plist) && Adds(b, entries, sinfs, plist) ==> a == b
  {
    if Adds(a, entries, sinfs, plist) && Adds(b, entries, sinfs, plist) {
      assert |a| == |b|;
      forall k | 0 <= k < |a| ensures a[k] == b[k] {}
    }
  }

  // ---- the disk ---------------------------------------------------------

  /** Where a run stopped. */
  datatype Result = Done | Error(stage: Stage) | Panic

  datatype Stage = Opening | Creating | Copying | Reading | Adding | Removing | Renaming

  class Disk {
    var files: Files
    var ops: nat                 // operations so far
    const fails: nat -> bool     // which of them fail
    const flushes: bool          // whether closing the archive writer gets everything to disk

    constructor (files: Files, fails: nat -> bool, flushes: bool)
      ensures this.files == files && this.fails == fails && this.flushes == flushes
    {
      this.files, this.fails, this.flushes, ops := files, fails, flushes, 0;
    }

    method Attempt() returns (ok: bool)
      modifies this`ops
      ensures (forall n :: !fails(n)) ==> ok
    {
      ok := !fails(ops);
      ops := ops + 1;
    }

    method Open(path: string) returns (entries: Option<seq<Entry>>)
      modifies this`ops
      ensures entries.Some? ==> path in files && files[path] == File(entries.value, true)
      ensures (forall n :: !fails(n)) && path in files && files[path].complete ==> entries.Some?
    {
      var ok := Attempt();
      entries := if ok && path in files && files[path].complete then Some(files[path].entries) else None;
    }

    method Create(path: string) returns (ok: bool)
      modifies this
      ensures files == if ok then old(files)[path := File([], false)] else old(files)
      ensures (forall n :: !fails(n)) ==> ok
    {
      ok := Attempt();
      if ok {
        files := files[path := File([], false)];
      }
    }

    /** One more entry at the end of an archive that is being written. */
    method Append(path: string, e: Entry) returns (ok: bool)
      requires path in files
      modifies this
      ensures files == if ok then old(files)[path := File(old(files[path]).entries + [e], false)] else old(files)
      ensures (forall n :: !fails(n)) ==> ok
    {
      ok := Attempt();
      if ok {
        files := files[path := File(files[path].entries + [e], false)];
      }
    }

    /** The data of the entry just created. */
    method Fill(path: string, data: Bytes) returns (ok: bool)
      requires path in files && files[path].entries != []
      modifies this
      ensures var f := old(files[path]).entries;
              var last := |f| - 1;
              && files == (if ok then old(files)[path := File(f[..last] + [Entry(f[last].name, data)], false)] else old(files))
              && (ok ==> Writable(f[last].name, data))
              && ((forall n :: !fails(n)) && Writable(f[last].name, data) ==> ok)
    {
      var entries := files[path].entries;
      var last := |entries| - 1;
      ok := Attempt();
      ok := ok && Writable(entries[last].name, data);
      if ok {
        files := files[path := File(entries[..last] + [Entry(entries[last].name, data)], false)];
      }
    }

    /** Closing the archive writer, whose error nobody looks at. */
    method Finish(path: string)
      requires path in files
      modifies this`files
      ensures files == old(files)[path := File(old(files[path]).entries, flushes)]
    {
      files := files[path := File(files[path].entries, flushes)];
    }

    method Remove(path: string) returns (ok: bool)
      modifies this
      ensures files == if ok then old(files) - {path} else old(files)
      ensures (forall n :: !fails(n)) && path in old(files) ==> ok
    {
      ok := Attempt();
      ok := ok && path in files;
      if ok {
        files := files - {path};
      }
    }

    method Rename(from: string, to: string) returns (ok: bool)
      requires from in files
      modifies this
      ensures files == if ok then (old(files) - {from})[to := old(files[from])] else old(files)
      ensures (forall n :: !fails(n)) ==> ok
    {
      ok := Attempt();
      if ok {
        files := (files - {from})[to := files[from]];
      }
    }
  }

  // ---- the rewrite ------------------------------------------------------

  function TmpPath(path: string): string {
    path + ".tmp"
  }

  /** Only the temporary file differs, and it holds these entries of an unfinished archive. */
  ghost predicate Writing(before: Files, now: Files, tmp: string, entries: seq<Entry>) {
    now == before[tmp := File(entries, false)]
  }

  /** Only the temporary file may differ. */
  ghost predicate OnlyTmp(before: Files, now: Files, tmp: string) {
    tmp in now && now - {tmp} == before - {tmp}
  }

  lemma UpdateOfTmp(before: Files, now: Files, tmp: string, f: File)
    requires OnlyTmp(before, now, tmp)
    ensures OnlyTmp(before, now[tmp := f], tmp)
    ensures forall some :: Writing(before, now, tmp, some) ==> now[tmp := f] == before[tmp := f]
  {
    assert now[tmp := f] - {tmp} == now - {tmp};
  }

  /** What the new package adds to an old one that was complete and in order. */
  ghost predicate Extends(before: Files, path: string, added: seq<Entry>, sinfs: seq<Sinf>, plist: Plist) {
    && path in before && before[path].complete
    && Adds(added, before[path].entries, sinfs, plist)
  }

  /** The package can be extended at all. */
  predicate Extensible(before: Files, path: string, sinfs: seq<Sinf>, plist: Plist) {
    path in before && before[path].complete && InOrder(before[path].entries, sinfs, plist)
  }

  method ReplicateZip(disk: Disk, entries: seq<Entry>, tmp: string, ghost before: Files) returns (ok: bool)
    requires Writing(before, disk.files, tmp, [])
    modifies disk
    ensures ok ==> Writing(before, disk.files, tmp, entries)
    ensures OnlyTmp(before, disk.files, tmp)
    ensures (forall n :: !disk.fails(n)) ==> ok
  {
    for k := 0 to |entries|
      invariant Writing(before, disk.files, tmp, entries[..k])
    {
      ok := disk.Append(tmp, entries[k]);
      if !ok {
        return;
      }
      assert entries[..k] + [entries[k]] == entries[..k + 1];
    }
    assert entries[..|entries|] == entries;
    return true;
  }

  /** One new entry; it is created before the sinf is looked at. */
  method AddEntry(disk: Disk, name: string, sinf: Sinf, tmp: string, ghost before: Files, ghost entries: seq<Entry>)
    returns (res: Result)
    requires Writing(before, disk.files, tmp, entries)
    modifies disk
    ensures res in {Done, Panic, Error(Adding)}
    ensures res.Done? ==> Fits(sinf, name) && Writing(before, disk.files, tmp, entries + [Entry(name, sinf.value)])
    ensures OnlyTmp(before, disk.files, tmp)
    ensures res.Panic? ==> sinf.None?
    ensures (forall n :: !disk.fails(n)) && Fits(sinf, name) ==> res.Done?
  {
    var ok := disk.Append(tmp, Entry(name, []));
    if !ok {
      return Error(Adding);
    }
    if sinf.None? {
      return Panic;
    }
    assert (entries + [Entry(name, [])])[..|entries|] == entries;
    ghost var created := disk.files;
    ok := disk.Fill(tmp, sinf.value);
    UpdateOfTmp(before, created, tmp, File(entries + [Entry(name, sinf.value)], false));
    return if ok then Done else Error(Adding);
  }

  /** One new entry per sinf, at the path of the same position; lists of different lengths add nothing. */
  method ReplicateFromManifest(disk: Disk, paths: seq<string>, sinfs: seq<Sinf>, bundle: string, tmp: string,
                               ghost before: Files, ghost entries: seq<Entry>)
    returns (res: Result, added: seq<Entry>)
    requires Writing(before, disk.files, tmp, entries)
    modifies disk
    ensures res in {Done, Panic, Error(Adding)}
    ensures res.Done? ==> AtPaths(added, bundle, paths, sinfs) && Writing(before, disk.files, tmp, entries + added)
    ensures |paths| != |sinfs| ==> res == Error(Adding) && disk.files == old(disk.files)
    ensures OnlyTmp(before, disk.files, tmp)
    ensures res.Panic? ==> None in sinfs
    ensures (forall n :: !disk.fails(n)) && FitPaths(sinfs, bundle, paths) ==> res.Done?
  {
    added := [];
    var pairs := ZipPairs(sinfs, paths);
    if pairs.None? {
      return Error(Adding), added;
    }
    assert entries + [] == entries;
    for k := 0 to |pairs.value|
      invariant |added| == k && Writing(before, disk.files, tmp, entries + added)
      invariant forall j :: 0 <= j < k ==> Fits(sinfs[j], InApp(bundle, paths[j])) && added[j] == Entry(InApp(bundle, paths[j]), sinfs[j].value)
    {
      var name, sinf := InApp(bundle, pairs.value[k].1), pairs.value[k].0;
      res := AddEntry(disk, name, sinf, tmp, before, entries + added);
      if !res.Done? {
        return;
      }
      assert entries + added + [Entry(name, sinf.value)] == entries + (added + [Entry(name, sinf.value)]);
      added := added + [Entry(name, sinf.value)];
    }
    return Done, added;
  }

  /** Zip: pairs by position, or nothing when the lengths differ. */
  method ZipPairs<T(0), U(0)>(ts: seq<T>, us: seq<U>) returns (pairs: Option<seq<(T, U)>>)
    ensures pairs.Some? <==> |ts| == |us|
    ensures pairs.Some? ==> |pairs.value| == |ts|
    ensures pairs.Some? ==> forall k :: 0 <= k < |ts| ==> pairs.value[k] == (ts[k], us[k])
  {
    if |ts| != |us| {
      return None;
    }
    var filled := [];
    for i := 0 to |ts|
      invariant |filled| == i
      invariant forall k :: 0 <= k < i ==> filled[k] == (ts[k], us[k])
    {
      filled := filled + [(ts[i], us[i])];
    }
    return Some(filled);
  }

  /** One new entry, named after the executable, for the first sinf. */
  method ReplicateFromInfo(disk: Disk, executable: string, sinfs: seq<Sinf>, bundle: string, tmp: string,
                           ghost before: Files, ghost entries: seq<Entry>)
    returns (res: Result, added: seq<Entry>)
    requires Writing(before, disk.files, tmp, entries)
    modifies disk
    ensures res in {Done, Panic, Error(Adding)}
    ensures res.Done? ==> sinfs != [] && sinfs[0].Some? && added == [Entry(SinfPath(bundle, executable), sinfs[0].value)]
    ensures res.Done? ==> Writing(before, disk.files, tmp, entries + added)
    ensures OnlyTmp(before, disk.files, tmp)
    ensures res.Panic? ==> sinfs == [] || sinfs[0].None?
    ensures (forall n :: !disk.fails(n)) && sinfs != [] && sinfs[0].Some? ==> res.Done?
  {
    var sp := SinfPath(bundle, executable);
    assert sp[|sp| - 1] == 'f';
    var first := if sinfs == [] then None else sinfs[0];  // neither the first of none nor a nil one has data
    res := AddEntry(disk, sp, first, tmp, before, entries);
    added := if first.Some? then [Entry(sp, first.value)] else [];
  }

  /** The manifest, if there is one; an unreadable manifest is an error. */
  method ReadManifest(disk: Disk, entries: seq<Entry>, plist: Plist) returns (ok: bool, manifest: Option<seq<string>>)
    modifies disk`ops
    ensures ok ==> manifest == if ManifestAt(entries) < |entries| then plist.manifest(entries[ManifestAt(entries)].data) else None
    ensures ok && ManifestAt(entries) < |entries| ==> manifest.Some?
    ensures (forall n :: !disk.fails(n)) && (ManifestAt(entries) < |entries| ==> plist.manifest(entries[ManifestAt(entries)].data).Some?) ==> ok
  {
    var m := ManifestAt(entries);
    if m == |entries| {
      return true, None;
    }
    ok := disk.Attempt();
    manifest := plist.manifest(entries[m].data);
    ok := ok && manifest.Some?;
  }

  /** The bundle name, the manifest if any, and the executable; an info file is there whenever a bundle name is. */
  method ReadParts(disk: Disk, entries: seq<Entry>, plist: Plist)
    returns (ok: bool, bundle: string, manifest: Option<seq<string>>, executable: string)
    modifies disk`ops
    ensures ok ==> BundleName(entries) == Some(bundle)
    ensures ok ==> InfoAt(entries) < |entries| && plist.info(entries[InfoAt(entries)].data) == Some(executable)
    ensures ok ==> (manifest.Some? <==> ManifestAt(entries) < |entries|)
    ensures ok && manifest.Some? ==> manifest == plist.manifest(entries[ManifestAt(entries)].data)
    ensures (forall n :: !disk.fails(n)) && Readable(entries, plist) ==> ok
  {
    bundle, manifest, executable := "", None, "";
    var name := BundleName(entries);
    if name.None? {
      return false, bundle, manifest, executable;
    }
    bundle := name.value;
    ok, manifest := ReadManifest(disk, entries, plist);
    if !ok {
      return;
    }
    BundleAndInfo(entries);
    ok := disk.Attempt();
    var info := plist.info(entries[InfoAt(entries)].data);
    if !ok || info.None? {
      return false, bundle, manifest, executable;
    }
    executable := info.value;
  }

  /** From the bundle name to the last sinf. */
  method AddSinfs(disk: Disk, entries: seq<Entry>, sinfs: seq<Sinf>, plist: Plist, tmp: string, ghost before: Files)
    returns (res: Result, added: seq<Entry>)
    requires Writing(before, disk.files, tmp, entries)
    modifies disk
    ensures res in {Done, Panic, Error(Reading), Error(Adding)}
    ensures res.Done? ==> Adds(added, entries, sinfs, plist)
    ensures res.Done? ==> Writing(before, disk.files, tmp, entries + added)
    ensures OnlyTmp(before, disk.files, tmp)
    ensures res.Panic? ==> sinfs == [] || None in sinfs
    ensures (forall n :: !disk.fails(n)) && InOrder(entries, sinfs, plist) ==> res.Done?
  {
    var ok, bundle, manifest, executable := ReadParts(disk, entries, plist);
    if !ok {
      return Error(Reading), [];
    }
    if manifest.Some? {
      res, added := ReplicateFromManifest(disk, manifest.value, sinfs, bundle, tmp, before, entries);
      return;
    }
    res, added := ReplicateFromInfo(disk, executable, sinfs, bundle, tmp, before, entries);
  }

  /** The archive with the sinfs, under the temporary name; the package itself is only read. */
  method BuildTmp(disk: Disk, sinfs: seq<Sinf>, path: string, plist: Plist) returns (res: Result, added: seq<Entry>)
    modifies disk
    ensures disk.files == old(disk.files) || OnlyTmp(old(disk.files), disk.files, TmpPath(path))
    ensures res.Done? ==>
              && Extends(old(disk.files), path, added, sinfs, plist)
              && disk.files == old(disk.files)[TmpPath(path) := File(old(disk.files[path]).entries + added, disk.flushes)]
    ensures res.Panic? ==> sinfs == [] || None in sinfs
    ensures res.Error? ==> !res.stage.Removing? && !res.stage.Renaming?
    ensures (forall n :: !disk.fails(n)) && Extensible(old(disk.files), path, sinfs, plist) ==> res.Done?
  {
    added := [];
    ghost var before := disk.files;
    var tmp := TmpPath(path);
    var reader := disk.Open(path);
    if reader.None? {
      return Error(Opening), added;
    }
    var ok := disk.Create(tmp);
    if !ok {
      return Error(Creating), added;
    }
    ok := ReplicateZip(disk, reader.value, tmp, before);
    if ok {
      res, added := AddSinfs(disk, reader.value, sinfs, plist, tmp, before);
    } else {
      res := Error(Copying);
    }
    UpdateOfTmp(before, disk.files, tmp, File(disk.files[tmp].entries, disk.flushes));
    disk.Finish(tmp);  // explicit on the way to success, deferred otherwise
  }

  lemma OthersKept(before: Files, now: Files, tmp: string, path: string)
    requires now - {tmp} == before - {tmp} && path != tmp
    ensures now - {path, tmp} == before - {path, tmp}
    ensures (path in now <==> path in before) && (path in now ==> now[path] == before[path])
  {
    assert path in now <==> path in now - {tmp};
    assert path in before <==> path in before - {tmp};
    assert now - {path, tmp} == (now - {tmp}) - {path};
    assert before - {path, tmp} == (before - {tmp}) - {path};
  }

  method ReplicateSinf(disk: Disk, sinfs: seq<Sinf>, path: string, plist: Plist) returns (res: Result, added: seq<Entry>)
    modifies disk
    // nothing but the package and its temporary neighbour is touched
    ensures disk.files - {path, path + ".tmp"} == old(disk.files) - {path, path + ".tmp"}
    // the new package: the old entries in order, then the new ones; readable exactly if the writer's close got through
    ensures res.Done? || res == Error(Renaming) ==>
              && Extends(old(disk.files), path, added, sinfs, plist)
    // it is at the path of the package after a success, and under the temporary name after a failed rename
    ensures res.Done? || res == Error(Renaming) ==>
              var at := if res.Done? then path else path + ".tmp";
              && at in disk.files && disk.files[at] == File(old(disk.files[path]).entries + added, disk.flushes)
              && (if res.Done? then path + ".tmp" else path) !in disk.files
    // every other failure, panics included, leaves the package as it was
    ensures !res.Done? && res != Error(Renaming) ==>
              (path in disk.files <==> path in old(disk.files)) && (path in disk.files ==> disk.files[path] == old(disk.files[path]))
    // it panics only without sinfs or for a nil one, and succeeds whenever the disk does and the package is in order
    ensures res.Panic? ==> sinfs == [] || None in sinfs
    ensures (forall n :: !disk.fails(n)) && Extensible(old(disk.files), path, sinfs, plist) ==> res.Done?
  {
    var tmp := TmpPath(path);
    assert |tmp| > |path|;
    res, added := BuildTmp(disk, sinfs, path, plist);
    OthersKept(old(disk.files), disk.files, tmp, path);
    if !res.Done? {
      return;
    }
    ghost var built := disk.files;
    OthersKeptByInstall(old(disk.files), built, tmp, path);
    res := Install(disk, tmp, path);
  }

  /** The archive takes the place of the package: not in one step, so that a failed rename leaves neither. */
  method Install(disk: Disk, tmp: string, path: string) returns (res: Result)
    requires tmp in disk.files && path in disk.files && tmp != path
    modifies disk
    ensures res in {Done, Error(Removing), Error(Renaming)}
    ensures disk.files == match res
                          case Done => (old(disk.files) - {path} - {tmp})[path := old(disk.files[tmp])]
                          case Error(stage) => if stage.Removing? then old(disk.files) else old(disk.files) - {path}
                          case Panic => old(disk.files)
    ensures (forall n :: !disk.fails(n)) ==> res.Done?
  {
    var ok := disk.Remove(path);
    if !ok {
      return Error(Removing);
    }
    ok := disk.Rename(tmp, path);
    return if ok then Done else Error(Renaming);
  }

  lemma OthersKeptByInstall(before: Files, built: Files, tmp: string, path: string)
    requires built - {tmp} == before - {tmp} && path != tmp && tmp in built
    ensures built - {path, tmp} == before - {path, tmp}
    ensures (built - {path}) - {path, tmp} == before - {path, tmp}
    ensures (built - {path} - {tmp})[path := built[tmp]] - {path, tmp} == before - {path, tmp}
  {
    OthersKept(before, built, tmp, path);
    assert (built - {path}) - {path, tmp} == built - {path, tmp};
    assert (built - {path} - {tmp})[path := built[tmp]] - {path, tmp} == built - {path, tmp};
  }

  // ---- the close whose error nobody looks at ----------------------------

  lemma PrefixHasNoMore(a: string, b: string, c: char)
    ensures a <= b && c in a ==> c in b
  {
  }

  lemma {:induction false} ContainsNeeds(s: string, sub: string, c: char)
    requires c in sub && c !in s
    ensures !Contains(s, sub)
  {
    PrefixHasNoMore(sub, s, c);
    if s != "" {
      ContainsNeeds(s[1..], sub, c);
    }
  }

  const SMALL: seq<Entry> := [Entry(INFO, [])]
  const SMALL_PLIST: Plist := Plist(_ => None, _ => Some("A"))

  lemma SmallNames()
    ensures Contains(INFO, INFO) && !Contains(INFO, WATCH) && !HasSuffix(INFO, MANIFEST)
  {
    assert |MANIFEST| > |INFO|;
    assert forall k :: 0 <= k < |INFO| ==> INFO[k] != 'W';
    assert WATCH[1] == 'W';
    ContainsNeeds(INFO, WATCH, 'W');
  }

  lemma FirstOfOne(e: Entry, p: string -> bool)
    ensures First([e], p, 0) == if p(e.name) then 0 else 1
  {
  }

  /** A package with nothing but an info file can be extended by a sinf. */
  lemma SmallIsExtensible(path: string)
    ensures Extensible(map[path := File(SMALL, true)], path, [Some([1])], SMALL_PLIST)
  {
    SmallNames();
    FirstOfOne(SMALL[0], name => Contains(name, INFO));
    FirstOfOne(SMALL[0], name => HasSuffix(name, MANIFEST));
    FirstOfOne(SMALL[0], name => Contains(name, INFO) && !Contains(name, WATCH));
    assert InfoAt(SMALL) == 0 && ManifestAt(SMALL) == 1 && BundleAt(SMALL) == 0;
  }

  /** A watch app's info file, listed before the app's own. */
  const WATCH_FIRST: seq<Entry> := [Entry("Payload/A.app" + WATCH + "B" + INFO, []), Entry("Payload/A" + INFO, [])]

  lemma {:induction false} ContainsInside(before: string, sub: string, after: string)
    ensures Contains(before + sub + after, sub)
  {
    var s := before + sub + after;
    if before == "" {
      assert s == sub + after;
    } else {
      assert s[1..] == before[1..] + sub + after;
      ContainsInside(before[1..], sub, after);
    }
  }

  lemma WatchNames()
    ensures var watch, app := WATCH_FIRST[0].name, WATCH_FIRST[1].name;
            && Contains(watch, INFO) && Contains(watch, WATCH)
            && Contains(app, INFO) && !Contains(app, WATCH)
  {
    var watch, app := WATCH_FIRST[0].name, WATCH_FIRST[1].name;
    ContainsInside("Payload/A.app" + WATCH + "B", INFO, "");
    assert watch + "" == watch;
    ContainsInside("Payload/A.app", WATCH, "B" + INFO);
    assert watch == "Payload/A.app" + WATCH + ("B" + INFO);
    ContainsInside("Payload/A", INFO, "");
    assert app + "" == app;
    assert WATCH[1] == 'W';
    ContainsNeeds(app, WATCH, 'W');
  }

  lemma BaseOfApp()
    ensures Base(TrimSuffix("Payload/A" + INFO, INFO)) == "A"
  {
    var path := "Payload/A";
    assert (path + INFO)[|path|..] == INFO;
    assert TrimSuffix(path + INFO, INFO) == path;
    assert LastElement(path[..|path| - 1]) == "";
  }

  /** Then the bundle is named after the app, and the executable is the watch app's. */
  lemma WatchExecutable()
    ensures BundleName(WATCH_FIRST) == Some("A") && BundleAt(WATCH_FIRST) == 1
    ensures InfoAt(WATCH_FIRST) == 0 && Contains(WATCH_FIRST[0].name, WATCH)
  {
    WatchNames();
    BaseOfApp();
  }

  /** When only that close fails, the call reports success and the package is gone. */
  method SuccessWithoutPackage(path: string) returns (res: Result, now: Files)
    ensures res.Done?
    ensures path in now && !now[path].complete && TmpPath(path) !in now
  {
    var disk := new Disk(map[path := File(SMALL, true)], _ => false, false);
    SmallIsExtensible(path);
    var added;
    res, added := ReplicateSinf(disk, [Some([1])], path, SMALL_PLIST);
    now := disk.files;
  }
}

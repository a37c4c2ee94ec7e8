/**
 * `PluginManager` of `maya_umbrella_launcher/core.py`: the installed
 * versions under the plugin folder, the current version's script folder,
 * the launch environment, and the download-and-unpack step.
 *
 * The configured plugin folder (`UserSetting.get('plugin_folder')`) is a
 * parameter; `None` stands for an unset setting.
 */
module PluginManager {
  import opened Wrappers
  import opened Paths
  import opened StringOrder
  import opened FileSystem

  const PluginName := "maya_umbrella"
  const ArchiveName := "maya_umbrella.zip"
  const PathVariable := "PYTHONPATH"

  /** `ver.startswith('v')`. */
  predicate StartsWithV(name: string)
  {
    |name| > 0 && name[0] == 'v'
  }

  /** `name` is an installed version: a directory of `folder` whose name starts with `v`. */
  predicate IsVersionDir(fs: Snapshot, folder: Path, name: string)
  {
    StartsWithV(name) && fs.IsDir(Join(folder, name))
  }

  /** The list comprehension of `get_local_version_list`, over the listing `names`. */
  function KeepVersions(fs: Snapshot, folder: Path, names: seq<string>): (r: seq<string>)
    ensures forall n :: n in r <==> n in names && IsVersionDir(fs, folder, n)
    ensures Distinct(names) ==> Distinct(r)
  {
    if names == [] then []
    else
      var rest := KeepVersions(fs, folder, names[1..]);
      assert Distinct(names) ==> names[0] !in names[1..] && Distinct(names[1..]);
      if IsVersionDir(fs, folder, names[0]) then [names[0]] + rest else rest
  }

  /**
   * `get_local_version_list(plugin_folder)`: `[]` for an invalid folder,
   * otherwise exactly the installed versions, each once.
   */
  function LocalVersionList(fs: Snapshot, pluginFolder: Option<Path>, listing: seq<string>): (r: seq<string>)
    requires ValidFolder(fs, pluginFolder) ==> IsListing(fs, pluginFolder.value, listing)
    ensures !ValidFolder(fs, pluginFolder) ==> r == []
    ensures ValidFolder(fs, pluginFolder) ==>
      forall n :: n in r <==> IsVersionDir(fs, pluginFolder.value, n)
    ensures Distinct(r)
  {
    if !ValidFolder(fs, pluginFolder) then []
    else KeepVersions(fs, pluginFolder.value, listing)
  }

  /** `v` is the current version: installed, and no installed version is greater. */
  ghost predicate IsCurrent(fs: Snapshot, folder: Path, v: string)
  {
    IsVersionDir(fs, folder, v) && forall w :: IsVersionDir(fs, folder, w) ==> !Less(v, w)
  }

  lemma CurrentIsUnique(fs: Snapshot, folder: Path)
    ensures forall v, w :: IsCurrent(fs, folder, v) && IsCurrent(fs, folder, w) ==> v == w
  {
    forall v, w | IsCurrent(fs, folder, v) && IsCurrent(fs, folder, w)
      ensures v == w
    {
      LessTotal(v, w);
    }
  }

  /** `max(versions)` in `get_maya_umbrella_script_folder`; `None` when there is no version. */
  function CurrentVersion(fs: Snapshot, pluginFolder: Option<Path>, listing: seq<string>): (r: Option<string>)
    requires ValidFolder(fs, pluginFolder) ==> IsListing(fs, pluginFolder.value, listing)
    ensures r.None? <==> !ValidFolder(fs, pluginFolder) || forall n :: !IsVersionDir(fs, pluginFolder.value, n)
    ensures r.Some? ==> IsCurrent(fs, pluginFolder.value, r.value)
  {
    var versions := LocalVersionList(fs, pluginFolder, listing);
    if versions == [] then None
    else
      MaxOfIsMax(versions);
      assert forall w :: IsVersionDir(fs, pluginFolder.value, w) ==> w in versions;
      Some(MaxOf(versions))
  }

  /** `{plugin_folder}/{version}/maya_umbrella/scripts`. */
  function ScriptsOf(pluginFolder: Path, version: string): Path
  {
    Join(Join(Join(pluginFolder, version), PluginName), "scripts")
  }

  /** What `get_maya_umbrella_script_folder` finds; every failure returns None in the source. */
  datatype ScriptLookup = Found(folder: Path) | NoPluginFolder | NoVersion | NoScripts

  /**
   * `get_maya_umbrella_script_folder()`: the `scripts` folder of the
   * current version, or which check failed.
   */
  function ScriptFolder(fs: Snapshot, pluginFolder: Option<Path>, listing: seq<string>): (r: ScriptLookup)
    requires ValidFolder(fs, pluginFolder) ==> IsListing(fs, pluginFolder.value, listing)
    ensures r.NoPluginFolder? <==> !ValidFolder(fs, pluginFolder)
    ensures r.NoVersion? <==>
      ValidFolder(fs, pluginFolder) && forall n :: !IsVersionDir(fs, pluginFolder.value, n)
    ensures r.Found? <==>
      ValidFolder(fs, pluginFolder) &&
      exists v :: IsCurrent(fs, pluginFolder.value, v) && fs.IsDir(ScriptsOf(pluginFolder.value, v))
    ensures r.Found? ==>
      fs.IsDir(r.folder) && exists v :: IsCurrent(fs, pluginFolder.value, v) && r.folder == ScriptsOf(pluginFolder.value, v)
  {
    if !ValidFolder(fs, pluginFolder) then NoPluginFolder
    else
      match CurrentVersion(fs, pluginFolder, listing)
      case None => NoVersion
      case Some(v) =>
        CurrentIsUnique(fs, pluginFolder.value);
        var scripts := ScriptsOf(pluginFolder.value, v);
        if !ValidFolder(fs, Some(scripts)) then NoScripts else Found(scripts)
  }

  /** The order in which `os.listdir` returns the entries never changes the script folder. */
  lemma ScriptFolderIgnoresOrder(fs: Snapshot, pluginFolder: Option<Path>, l1: seq<string>, l2: seq<string>)
    requires ValidFolder(fs, pluginFolder) ==> IsListing(fs, pluginFolder.value, l1)
    requires ValidFolder(fs, pluginFolder) ==> IsListing(fs, pluginFolder.value, l2)
    ensures ScriptFolder(fs, pluginFolder, l1) == ScriptFolder(fs, pluginFolder, l2)
  {
    var r1, r2 := ScriptFolder(fs, pluginFolder, l1), ScriptFolder(fs, pluginFolder, l2);
    if r1.Found? {
      var v1 :| IsCurrent(fs, pluginFolder.value, v1) && r1.folder == ScriptsOf(pluginFolder.value, v1);
      var v2 :| IsCurrent(fs, pluginFolder.value, v2) && r2.folder == ScriptsOf(pluginFolder.value, v2);
      CurrentIsUnique(fs, pluginFolder.value);
    }
  }

  /** The script folder for the filesystem as it is, whatever order the listing comes in. */
  ghost function ResolvedScripts(fs: Snapshot, pluginFolder: Option<Path>): ScriptLookup
  {
    if !ValidFolder(fs, pluginFolder) then NoPluginFolder
    else
      ListingExists(fs, pluginFolder.value);
      var listing :| IsListing(fs, pluginFolder.value, listing);
      ScriptFolder(fs, pluginFolder, listing)
  }

  /** Any listing of the plugin folder gives the resolved script folder. */
  lemma ResolvedScriptsAnyListing(fs: Snapshot, pluginFolder: Option<Path>, listing: seq<string>)
    requires ValidFolder(fs, pluginFolder) ==> IsListing(fs, pluginFolder.value, listing)
    ensures ScriptFolder(fs, pluginFolder, listing) == ResolvedScripts(fs, pluginFolder)
  {
    if ValidFolder(fs, pluginFolder) {
      forall other | IsListing(fs, pluginFolder.value, other)
        ensures ScriptFolder(fs, pluginFolder, other) == ScriptFolder(fs, pluginFolder, listing)
      {
        ScriptFolderIgnoresOrder(fs, pluginFolder, other, listing);
      }
    }
  }

  /** Which version is current depends on the directories alone. */
  lemma CurrentReadsDirs(fs1: Snapshot, fs2: Snapshot, folder: Path)
    requires fs1.dirs == fs2.dirs
    ensures forall n :: IsVersionDir(fs1, folder, n) == IsVersionDir(fs2, folder, n)
    ensures forall v :: IsCurrent(fs1, folder, v) == IsCurrent(fs2, folder, v)
  {
  }

  /** Two filesystems with the same directories give the same script folder. */
  lemma ScriptFolderReadsDirs(fs1: Snapshot, fs2: Snapshot, pluginFolder: Option<Path>, l1: seq<string>, l2: seq<string>)
    requires fs1.dirs == fs2.dirs
    requires ValidFolder(fs1, pluginFolder) ==> IsListing(fs1, pluginFolder.value, l1)
    requires ValidFolder(fs2, pluginFolder) ==> IsListing(fs2, pluginFolder.value, l2)
    ensures ScriptFolder(fs1, pluginFolder, l1) == ScriptFolder(fs2, pluginFolder, l2)
  {
    var r1, r2 := ScriptFolder(fs1, pluginFolder, l1), ScriptFolder(fs2, pluginFolder, l2);
    if ValidFolder(fs1, pluginFolder) {
      var folder := pluginFolder.value;
      CurrentReadsDirs(fs1, fs2, folder);
      if r1.Found? || r2.Found? {
        var v :| IsCurrent(fs1, folder, v) && fs1.IsDir(ScriptsOf(folder, v));
        CurrentIsUnique(fs1, folder);
        CurrentIsUnique(fs2, folder);
      }
    }
  }

  /** The resolved script folder reads only the directories, never the files. */
  lemma ResolvedScriptsReadsDirs(fs1: Snapshot, fs2: Snapshot, pluginFolder: Option<Path>)
    requires fs1.dirs == fs2.dirs
    ensures ResolvedScripts(fs1, pluginFolder) == ResolvedScripts(fs2, pluginFolder)
  {
    if ValidFolder(fs1, pluginFolder) {
      ListingExists(fs1, pluginFolder.value);
      ListingExists(fs2, pluginFolder.value);
      var l1 :| IsListing(fs1, pluginFolder.value, l1);
      var l2 :| IsListing(fs2, pluginFolder.value, l2);
      ResolvedScriptsAnyListing(fs1, pluginFolder, l1);
      ResolvedScriptsAnyListing(fs2, pluginFolder, l2);
      ScriptFolderReadsDirs(fs1, fs2, pluginFolder, l1, l2);
    }
  }

  /** `get_maya_umbrella_script_folder()` on the disk as it is: lists the plugin folder, then resolves. */
  method GetScriptFolder(disk: Disk, pluginFolder: Option<Path>) returns (r: ScriptLookup)
    ensures r == ResolvedScripts(disk.Snap(), pluginFolder)
  {
    if !ValidFolder(disk.Snap(), pluginFolder) {
      return NoPluginFolder;
    }
    var listing := disk.ListDir(pluginFolder.value);
    r := ScriptFolder(disk.Snap(), pluginFolder, listing);
    ResolvedScriptsAnyListing(disk.Snap(), pluginFolder, listing);
  }

  /** What `get_python_path_env` returns: `False`, or the new environment. */
  datatype EnvResult = NoEnv | Env(vars: map<string, string>)

  /**
   * `get_python_path_env()`: a copy of the environment whose `PYTHONPATH`
   * is the old value (or `''`) followed by `;` and the script folder.
   * The separator is always `;`. The caller's map is a value and is never
   * changed.
   */
  function PythonPathEnv(lookup: ScriptLookup, environ: map<string, string>): (r: EnvResult)
    ensures r.NoEnv? <==> !lookup.Found?
    ensures r.Env? ==> r.vars.Keys == environ.Keys + {PathVariable}
    ensures r.Env? ==> forall k :: k in environ && k != PathVariable ==> r.vars[k] == environ[k]
    ensures r.Env? ==>
      var before := if PathVariable in environ then environ[PathVariable] else "";
      |r.vars[PathVariable]| > |before| && r.vars[PathVariable][..|before|] == before &&
      r.vars[PathVariable][|before|] == ';' && r.vars[PathVariable][|before| + 1..] == Render(lookup.folder)
  {
    if !lookup.Found? then NoEnv
    else
      var before := if PathVariable in environ then environ[PathVariable] else "";
      Env(environ[PathVariable := before + ";" + Render(lookup.folder)])
  }

  /** The last entry of a `;`-separated path list. */
  function LastEntry(s: string): string
    decreases |s|
  {
    if s == [] then ""
    else if s[|s| - 1] == ';' then ""
    else LastEntry(s[..|s| - 1]) + [s[|s| - 1]]
  }

  lemma {:induction false} LastEntryAfterSeparator(before: string, entry: string)
    requires ';' !in entry
    ensures LastEntry(before + ";" + entry) == entry
    decreases |entry|
  {
    if entry != [] {
      var s := before + ";" + entry;
      var shorter := entry[..|entry| - 1];
      assert s[..|s| - 1] == before + ";" + shorter;
      LastEntryAfterSeparator(before, shorter);
      assert entry == shorter + [entry[|entry| - 1]];
    } else {
      assert (before + ";" + entry)[|before|] == ';';
    }
  }

  /**
   * The script folder is the last entry of the new `PYTHONPATH`, so the
   * interpreter finds it, and every earlier entry is kept.
   */
  lemma ScriptFolderIsLastPathEntry(lookup: ScriptLookup, environ: map<string, string>)
    requires lookup.Found? && ';' !in Render(lookup.folder)
    ensures PythonPathEnv(lookup, environ).Env?
    ensures LastEntry(PythonPathEnv(lookup, environ).vars[PathVariable]) == Render(lookup.folder)
  {
    var before := if PathVariable in environ then environ[PathVariable] else "";
    LastEntryAfterSeparator(before, Render(lookup.folder));
  }

  /** `get_latest_release(...)`'s answer: a release, or `False` (`None` here). */
  datatype Release = Release(tagName: string, assetUrls: seq<string>)

  /** What the network put at the archive path: nothing, or some contents (whole or partial). */
  datatype Transfer = NothingSaved | Saved(content: Blob)

  /** Exceptions that escape `download_plugin`. */
  datatype Crash = NoRelease | BadArchive

  /** How `download_plugin` ends. */
  datatype DownloadOutcome =
    | FolderInvalid            // returns None
    | AlreadyPresent           // returns False
    | TransferRaised           // the release lists no asset: indexing it raises inside the `try`; returns False
    | ArchiveAbsent            // returns None
    | Unzipped(folder: Path)   // returns extract_zip(...), which is None
    | Crashed(crash: Crash)    // an exception escapes

  /** `get_latest_version()`: the latest tag; indexing `False` raises when there is no release. */
  function LatestVersion(release: Option<Release>): (r: Result<string, Crash>)
    ensures r.Ok? <==> release.Some?
    ensures r.Ok? ==> r.value == release.value.tagName
    ensures r.Err? ==> r.error == NoRelease
  {
    match release
    case Some(rel) => Ok(rel.tagName)
    case None => Err(NoRelease)
  }

  /**
   * `download_release_files` writes what arrived into `zipPath` when it can
   * open it; it catches its own failures, so none reaches the caller.
   */
  function Received(fs: Snapshot, zipPath: Path, transfer: Transfer): (r: Snapshot)
    ensures r.dirs == fs.dirs
    ensures transfer.Saved? && CanCreateFile(fs, zipPath) ==>
      r.IsFile(zipPath) && r.files[zipPath] == transfer.content &&
      r == WrittenFile(fs, zipPath, transfer.content)
    ensures !(transfer.Saved? && CanCreateFile(fs, zipPath)) ==> r == fs
  {
    match transfer
    case NothingSaved => fs
    case Saved(b) => if CanCreateFile(fs, zipPath) then WrittenFile(fs, zipPath, b) else fs
  }

  /** The version folder and the archive path of a release. */
  function VersionFolder(pluginFolder: Path, release: Release): Path
  {
    Join(pluginFolder, release.tagName)
  }

  function ArchivePath(pluginFolder: Path, release: Release): Path
  {
    Join(VersionFolder(pluginFolder, release), ArchiveName)
  }

  /** `download_plugin(proxies, overwrite)` on a filesystem: its outcome and the filesystem afterwards. */
  function DownloadSpec(fs: Snapshot, pluginFolder: Option<Path>, overwrite: bool,
                        release: Option<Release>, transfer: Transfer): (DownloadOutcome, Snapshot)
  {
    if !ValidFolder(fs, pluginFolder) then (FolderInvalid, fs)
    else if release.None? then (Crashed(NoRelease), fs)
    else
      var versionFolder := VersionFolder(pluginFolder.value, release.value);
      if fs.IsDir(versionFolder) && !overwrite then (AlreadyPresent, fs)
      else
        var fs1 := MadeDirectory(fs, versionFolder);
        var zipPath := ArchivePath(pluginFolder.value, release.value);
        if release.value.assetUrls == [] then (TransferRaised, fs1)
        else
          var fs2 := Received(fs1, zipPath, transfer);
          if !fs2.Exists(zipPath) then (ArchiveAbsent, fs2)
          else if !CanUnpack(fs2, zipPath, ExtractTarget(zipPath, None)) then (Crashed(BadArchive), fs2)
          else
            var fs3 := Unpacked(fs2, zipPath, ExtractTarget(zipPath, None));
            (Unzipped(ExtractTarget(zipPath, None)), RemovedFile(fs3, zipPath))
  }

  /**
   * `download_plugin`: check the plugin folder, ask for the latest
   * release, refuse an existing version unless `overwrite`, create the
   * version folder, download the archive into it, unpack it there and
   * delete it.
   */
  method DownloadPlugin(disk: Disk, pluginFolder: Option<Path>, overwrite: bool,
                        release: Option<Release>, transfer: Transfer) returns (outcome: DownloadOutcome)
    requires disk.Valid()
    modifies disk
    ensures disk.Valid()
    ensures (outcome, disk.Snap()) == DownloadSpec(old(disk.Snap()), pluginFolder, overwrite, release, transfer)
  {
    if !ValidFolder(disk.Snap(), pluginFolder) {
      return FolderInvalid;
    }
    if release.None? {
      return Crashed(NoRelease);
    }
    var versionFolder := VersionFolder(pluginFolder.value, release.value);
    if versionFolder in disk.dirs && !overwrite {
      return AlreadyPresent;
    }
    disk.MakeDirectory(versionFolder);
    var zipPath := Join(versionFolder, ArchiveName);
    if release.value.assetUrls == [] {
      return TransferRaised;
    }
    if transfer.Saved? {
      var _ := disk.WriteBlob(zipPath, transfer.content);
    }
    if !(zipPath in disk.dirs || zipPath in disk.files) {
      return ArchiveAbsent;
    }
    var extracted := ExtractZip(disk, zipPath, None);
    if !extracted {
      return Crashed(BadArchive);
    }
    disk.Remove(zipPath);
    outcome := Unzipped(ExtractTarget(zipPath, None));
  }

  /**
   * An invalid plugin folder fails before any network call or write: the
   * outcome does not depend on the release or the transfer.
   */
  lemma DownloadChecksFolderFirst(fs: Snapshot, pluginFolder: Option<Path>, overwrite: bool,
                                  r1: Option<Release>, t1: Transfer, r2: Option<Release>, t2: Transfer)
    requires !ValidFolder(fs, pluginFolder)
    ensures DownloadSpec(fs, pluginFolder, overwrite, r1, t1) == (FolderInvalid, fs)
    ensures DownloadSpec(fs, pluginFolder, overwrite, r1, t1) == DownloadSpec(fs, pluginFolder, overwrite, r2, t2)
  {
  }

  /** Without `overwrite`, an existing version folder is refused and nothing changes. */
  lemma DownloadKeepsExistingVersion(fs: Snapshot, pluginFolder: Option<Path>, release: Release, transfer: Transfer)
    requires ValidFolder(fs, pluginFolder)
    requires fs.IsDir(VersionFolder(pluginFolder.value, release))
    ensures DownloadSpec(fs, pluginFolder, false, Some(release), transfer) == (AlreadyPresent, fs)
  {
  }

  /**
   * When no archive arrived, nothing is extracted: the files are as
   * before, and the version folder created first stays.
   */
  lemma DownloadWithoutArchive(fs: Snapshot, pluginFolder: Option<Path>, overwrite: bool,
                               release: Option<Release>, transfer: Transfer)
    requires fs.Valid()
    requires DownloadSpec(fs, pluginFolder, overwrite, release, transfer).0 in {TransferRaised, ArchiveAbsent}
    ensures var after := DownloadSpec(fs, pluginFolder, overwrite, release, transfer).1;
      && after.files == fs.files
      && after == MadeDirectory(fs, VersionFolder(pluginFolder.value, release.value))
  {
    var versionFolder := VersionFolder(pluginFolder.value, release.value);
    var fs1 := MadeDirectory(fs, versionFolder);
    var zipPath := ArchivePath(pluginFolder.value, release.value);
  }

  /**
   * After a successful download the archive is gone, the version folder
   * is there and is listed as an installed version when its tag starts
   * with `v`, and everything that was there before is still there: an
   * existing version folder is not cleared first.
   */
  lemma DownloadSuccess(fs: Snapshot, pluginFolder: Option<Path>, overwrite: bool,
                        release: Option<Release>, transfer: Transfer, listing: seq<string>)
    requires fs.Valid()
    requires DownloadSpec(fs, pluginFolder, overwrite, release, transfer).0.Unzipped?
    ensures var (outcome, after) := DownloadSpec(fs, pluginFolder, overwrite, release, transfer);
      var zipPath := ArchivePath(pluginFolder.value, release.value);
      && outcome.folder == VersionFolder(pluginFolder.value, release.value)
      && !after.Exists(zipPath)
      && after.IsDir(outcome.folder)
      && fs.dirs <= after.dirs
      && (forall q :: q in fs.files && q != zipPath ==> q in after.files)
      && after.Valid()
    ensures var after := DownloadSpec(fs, pluginFolder, overwrite, release, transfer).1;
      StartsWithV(release.value.tagName) && IsListing(after, pluginFolder.value, listing) ==>
        release.value.tagName in LocalVersionList(after, pluginFolder, listing)
  {
    var versionFolder := VersionFolder(pluginFolder.value, release.value);
    var fs1 := MadeDirectory(fs, versionFolder);
    var zipPath := ArchivePath(pluginFolder.value, release.value);
    var fs2 := Received(fs1, zipPath, transfer);
    var dest := ExtractTarget(zipPath, None);
    assert dest == versionFolder;
    var z := fs2.files[zipPath];
    // The version folder is among the folders extraction makes, so it was no file.
    assert dest[..|dest|] == dest;
    assert versionFolder in UnpackedDirs(dest, z);
    var fs3 := Unpacked(fs2, zipPath, dest);
    assert zipPath !in UnpackedDirs(dest, z);
    assert fs2.Valid();
    var after := RemovedFile(fs3, zipPath);
    assert after.IsDir(versionFolder);
    if StartsWithV(release.value.tagName) && IsListing(after, pluginFolder.value, listing) {
      assert IsVersionDir(after, pluginFolder.value, release.value.tagName);
    }
  }

  /**
   * When the network saved a zip archive, a successful download leaves
   * each of its files in the version folder (the archive itself aside).
   */
  lemma DownloadUnpacksTransfer(fs: Snapshot, pluginFolder: Option<Path>, overwrite: bool,
                                release: Option<Release>, content: Blob)
    requires fs.Valid() && content.Zip?
    requires DownloadSpec(fs, pluginFolder, overwrite, release, Saved(content)).0.Unzipped?
    ensures var after := DownloadSpec(fs, pluginFolder, overwrite, release, Saved(content)).1;
      var versionFolder := VersionFolder(pluginFolder.value, release.value);
      forall m :: m in content.members && versionFolder + m != ArchivePath(pluginFolder.value, release.value) ==>
        versionFolder + m in after.files && after.files[versionFolder + m] == Text(content.members[m])
  {
    var versionFolder := VersionFolder(pluginFolder.value, release.value);
    var fs1 := MadeDirectory(fs, versionFolder);
    var zipPath := ArchivePath(pluginFolder.value, release.value);
    var dest := ExtractTarget(zipPath, None);
    assert dest == versionFolder;
    DownloadSuccess(fs, pluginFolder, overwrite, release, Saved(content), []);
    // The version folder was no file, so the archive could be written into it.
    assert dest[..|dest|] == dest;
    var fs2 := Received(fs1, zipPath, Saved(content));
    assert versionFolder in UnpackedDirs(dest, fs2.files[zipPath]);
    assert fs1.IsDir(versionFolder);
    assert CanCreateFile(fs1, zipPath);
    assert fs2.files[zipPath] == content;
  }

  /** A Python value as a caller tests it with `if not ...`. */
  datatype PyValue = PyNone | PyFalse | PyTrue | PyText(text: string)

  predicate Truthy(v: PyValue)
  {
    v.PyTrue? || (v.PyText? && v.text != "")
  }

  /** What `download_plugin` returns, as written: `extract_zip` returns nothing, so success gives None. */
  function DownloadReturn(outcome: DownloadOutcome): PyValue
    requires !outcome.Crashed?
  {
    match outcome
    case FolderInvalid => PyNone
    case AlreadyPresent => PyFalse
    case TransferRaised => PyFalse
    case ArchiveAbsent => PyNone
    case Unzipped(_) => PyNone
  }

  /**
   * As written, no call of `download_plugin` returns a true value, not
   * even one that downloaded and unpacked the plugin: a caller that
   * stops on a false result stops every time.
   */
  lemma DownloadNeverTruthy(fs: Snapshot, pluginFolder: Option<Path>, overwrite: bool,
                            release: Option<Release>, transfer: Transfer)
    requires !DownloadSpec(fs, pluginFolder, overwrite, release, transfer).0.Crashed?
    ensures !Truthy(DownloadReturn(DownloadSpec(fs, pluginFolder, overwrite, release, transfer).0))
  {
  }

  /**
   * What `download_plugin` evidently means to return (its documentation
   * says it returns the unpacked folder): `extract_zip` returning its
   * destination, so success gives the folder's path.
   */
  function IntendedDownloadReturn(outcome: DownloadOutcome): PyValue
    requires !outcome.Crashed?
  {
    match outcome
    case Unzipped(folder) => PyText(Render(folder))
    case _ => DownloadReturn(outcome)
  }

  /** With the intended return value, the result is true exactly when the plugin was unpacked. */
  lemma IntendedDownloadSignalsSuccess(fs: Snapshot, pluginFolder: Option<Path>, overwrite: bool,
                                       release: Option<Release>, transfer: Transfer)
    requires !DownloadSpec(fs, pluginFolder, overwrite, release, transfer).0.Crashed?
    ensures var outcome := DownloadSpec(fs, pluginFolder, overwrite, release, transfer).0;
      Truthy(IntendedDownloadReturn(outcome)) <==> outcome.Unzipped?
  {
    var outcome := DownloadSpec(fs, pluginFolder, overwrite, release, transfer).0;
    if outcome.Unzipped? {
      var folder := outcome.folder;
      assert folder == VersionFolder(pluginFolder.value, release.value);
      assert |folder| >= 2;
      assert |Render(folder)| > 0;
    }
  }
}

/**
 * `PluginInstaller` of `maya_umbrella_launcher/core.py`: registering the
 * plugin with one Maya version through a module descriptor file, and
 * removing that registration.
 */
module PluginInstaller {
  import opened Wrappers
  import opened Paths
  import opened FileSystem
  import opened PluginManager

  const ModFileName := "maya_umbrella.mod"
  const DescriptorPrefix := "+ maya_umbrella any "

  /** `{module_folder}/maya_umbrella.mod`: one fixed name, whatever the plugin version. */
  function ModFile(moduleFolder: Path): Path
  {
    Join(moduleFolder, ModFileName)
  }

  /** The one line written into the descriptor. */
  function DescriptorLine(pluginRoot: Path): string
  {
    DescriptorPrefix + Render(pluginRoot) + "\n"
  }

  /** How Maya reads a descriptor line back: the folder it names, if the line has the expected shape. */
  function DescribedFolder(line: string): (r: Option<string>)
    ensures r.Some? ==> line == DescriptorPrefix + r.value + "\n"
  {
    var n := |DescriptorPrefix|;
    if |line| > n && line[..n] == DescriptorPrefix && line[|line| - 1] == '\n'
    then
      assert line == line[..n] + line[n..|line| - 1] + "\n";
      Some(line[n..|line| - 1])
    else None
  }

  /** The descriptor line names exactly the folder it was written for. */
  lemma DescriptorRoundTrip(pluginRoot: Path)
    ensures DescribedFolder(DescriptorLine(pluginRoot)) == Some(Render(pluginRoot))
  {
    var line := DescriptorLine(pluginRoot);
    var n := |DescriptorPrefix|;
    assert line[..n] == DescriptorPrefix;
    assert line[n..|line| - 1] == Render(pluginRoot);
  }

  /** How `install` ends. */
  datatype InstallOutcome =
    | NoModuleFolder   // returns False
    | NoScriptFolder   // returns False
    | Registered       // returns True
    | WriteRaised      // opening the descriptor raises (its path is a directory)

  /**
   * `install(maya_version)` on a filesystem, given what
   * `get_maya_umbrella_script_folder()` finds: its outcome and the
   * filesystem afterwards.
   */
  function InstallSpec(fs: Snapshot, home: Path, version: HostVersion, lookup: ScriptLookup): (InstallOutcome, Snapshot)
  {
    var moduleFolder := ModuleFolder(home, version);
    if !ValidFolder(fs, Some(moduleFolder)) then (NoModuleFolder, fs)
    else if !lookup.Found? then (NoScriptFolder, fs)
    else
      var modFile := ModFile(moduleFolder);
      var cleared := if fs.IsFile(modFile) then RemovedFile(fs, modFile) else fs;
      if !CanCreateFile(cleared, modFile) then (WriteRaised, cleared)
      else (Registered, WrittenFile(cleared, modFile, Text(DescriptorLine(Dirname(lookup.folder)))))
  }

  /** `uninstall(maya_version)` on a filesystem. */
  function UninstallSpec(fs: Snapshot, home: Path, version: HostVersion): Snapshot
  {
    var modFile := ModFile(ModuleFolder(home, version));
    if fs.IsFile(modFile) then RemovedFile(fs, modFile) else fs
  }

  /** Every failed install leaves the filesystem as it was. */
  lemma InstallFailureWritesNothing(fs: Snapshot, home: Path, version: HostVersion, lookup: ScriptLookup)
    requires fs.Valid()
    requires InstallSpec(fs, home, version, lookup).0 != Registered
    ensures InstallSpec(fs, home, version, lookup).1 == fs
  {
    // Opening fails only when the descriptor path is a directory, and then it was no file.
    var moduleFolder := ModuleFolder(home, version);
    assert Dirname(ModFile(moduleFolder)) == moduleFolder;
  }

  /**
   * A successful install leaves exactly one change: the descriptor of that
   * Maya version holds the one line naming the folder above `scripts`,
   * whatever it held before.
   */
  lemma InstallWritesDescriptor(fs: Snapshot, home: Path, version: HostVersion, lookup: ScriptLookup)
    requires InstallSpec(fs, home, version, lookup).0 == Registered
    ensures var after := InstallSpec(fs, home, version, lookup).1;
      var modFile := ModFile(ModuleFolder(home, version));
      && lookup.Found?
      && after.dirs == fs.dirs
      && after.files == fs.files[modFile := Text(DescriptorLine(Dirname(lookup.folder)))]
  {
    var modFile := ModFile(ModuleFolder(home, version));
    var cleared := if fs.IsFile(modFile) then RemovedFile(fs, modFile) else fs;
    var after := InstallSpec(fs, home, version, lookup).1;
    assert after.files == cleared.files[modFile := Text(DescriptorLine(Dirname(lookup.folder)))];
  }

  /**
   * With the script folder resolved on the same filesystem, the installed
   * descriptor names `{plugin_folder}/{current version}/maya_umbrella`.
   */
  lemma InstallPointsAtCurrentVersion(fs: Snapshot, home: Path, version: HostVersion, pluginFolder: Option<Path>)
    requires InstallSpec(fs, home, version, ResolvedScripts(fs, pluginFolder)).0 == Registered
    ensures var after := InstallSpec(fs, home, version, ResolvedScripts(fs, pluginFolder)).1;
      var modFile := ModFile(ModuleFolder(home, version));
      && modFile in after.files && after.files[modFile].Text?
      && exists v :: IsCurrent(fs, pluginFolder.value, v) &&
           DescribedFolder(after.files[modFile].text) == Some(Render(Join(Join(pluginFolder.value, v), PluginName)))
  {
    var lookup := ResolvedScripts(fs, pluginFolder);
    InstallWritesDescriptor(fs, home, version, lookup);
    ListingExists(fs, pluginFolder.value);
    var listing :| IsListing(fs, pluginFolder.value, listing);
    ResolvedScriptsAnyListing(fs, pluginFolder, listing);
    var v :| IsCurrent(fs, pluginFolder.value, v) && lookup.folder == ScriptsOf(pluginFolder.value, v);
    var root := Join(Join(pluginFolder.value, v), PluginName);
    assert Dirname(lookup.folder) == root;
    DescriptorRoundTrip(root);
  }

  /** Installing twice is installing once. */
  lemma InstallIdempotent(fs: Snapshot, home: Path, version: HostVersion, lookup: ScriptLookup)
    requires fs.Valid()
    ensures var (o1, once) := InstallSpec(fs, home, version, lookup);
      var (o2, twice) := InstallSpec(once, home, version, lookup);
      o2 == o1 && twice == once
  {
    var (o1, once) := InstallSpec(fs, home, version, lookup);
    if o1 == Registered {
      InstallWritesDescriptor(fs, home, version, lookup);
      var modFile := ModFile(ModuleFolder(home, version));
      var cleared := RemovedFile(once, modFile);
      assert cleared.files[modFile := Text(DescriptorLine(Dirname(lookup.folder)))] == once.files;
    }
  }

  /**
   * After `uninstall` there is no descriptor for that Maya version, no
   * other file changed, and no directory changed; with none there,
   * nothing happens.
   */
  lemma UninstallRemovesOnlyDescriptor(fs: Snapshot, home: Path, version: HostVersion)
    ensures var after := UninstallSpec(fs, home, version);
      var modFile := ModFile(ModuleFolder(home, version));
      && !after.IsFile(modFile)
      && after.dirs == fs.dirs
      && (forall q :: q != modFile ==> (q in after.files <==> q in fs.files))
      && (forall q :: q != modFile && q in fs.files ==> after.files[q] == fs.files[q])
      && (!fs.IsFile(modFile) ==> after == fs)
  {
  }

  /** Uninstalling twice is uninstalling once. */
  lemma UninstallIdempotent(fs: Snapshot, home: Path, version: HostVersion)
    ensures UninstallSpec(UninstallSpec(fs, home, version), home, version) == UninstallSpec(fs, home, version)
  {
  }

  /** Uninstall undoes install: afterwards the filesystem is as if only uninstall had run. */
  lemma UninstallUndoesInstall(fs: Snapshot, home: Path, version: HostVersion, lookup: ScriptLookup)
    ensures UninstallSpec(InstallSpec(fs, home, version, lookup).1, home, version) == UninstallSpec(fs, home, version)
  {
    var (o, after) := InstallSpec(fs, home, version, lookup);
    var modFile := ModFile(ModuleFolder(home, version));
    if o == Registered {
      InstallWritesDescriptor(fs, home, version, lookup);
      assert after.files - {modFile} == fs.files - {modFile};
    }
  }

  /** What `install` returns; `None` when an exception escapes. */
  function InstallReturn(outcome: InstallOutcome): (r: Option<bool>)
    ensures r == Some(true) <==> outcome == Registered
    ensures r.None? <==> outcome == WriteRaised
  {
    match outcome
    case Registered => Some(true)
    case WriteRaised => None
    case _ => Some(false)
  }

  /**
   * `install(maya_version)`: check the module folder, resolve the script
   * folder, remove an earlier descriptor, write the new one.
   */
  method Install(disk: Disk, home: Path, version: HostVersion, pluginFolder: Option<Path>) returns (outcome: InstallOutcome)
    requires disk.Valid()
    modifies disk
    ensures disk.Valid()
    ensures (outcome, disk.Snap()) == InstallSpec(old(disk.Snap()), home, version, ResolvedScripts(old(disk.Snap()), pluginFolder))
  {
    var moduleFolder := ModuleFolder(home, version);
    if !ValidFolder(disk.Snap(), Some(moduleFolder)) {
      return NoModuleFolder;
    }
    var lookup := GetScriptFolder(disk, pluginFolder);
    if !lookup.Found? {
      return NoScriptFolder;
    }
    var pluginRoot := Dirname(lookup.folder);
    var modFile := ModFile(moduleFolder);
    if modFile in disk.files {
      disk.Remove(modFile);
    }
    var written := disk.WriteBlob(modFile, Text(DescriptorLine(pluginRoot)));
    outcome := if written then Registered else WriteRaised;
  }

  /** `uninstall(maya_version)`: remove the descriptor if there is one. */
  method Uninstall(disk: Disk, home: Path, version: HostVersion)
    requires disk.Valid()
    modifies disk
    ensures disk.Valid()
    ensures disk.Snap() == UninstallSpec(old(disk.Snap()), home, version)
  {
    var modFile := ModFile(ModuleFolder(home, version));
    if modFile in disk.files {
      disk.Remove(modFile);
    }
  }
}

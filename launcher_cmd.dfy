/**
 * `main()` of `maya_umbrella_launcher/launcher_cmd.py`, after argument
 * parsing: store or show the plugin folder, optionally download, then run
 * at most one of start, install and uninstall.
 *
 * What `main` prints, launches or raises is recorded as a trace of events.
 */
module LauncherCmd {
  import opened Wrappers
  import opened Paths
  import opened FileSystem
  import opened PluginManager
  import opened PluginInstaller

  /**
   * The parsed arguments. `path` is None without `-p`, `Some([])` for a
   * bare `-p`, and the given path otherwise.
   */
  datatype Args = Args(path: Option<Path>, download: bool, start: Option<int>,
                       install: Option<int>, uninstall: Option<int>)

  /** `if args.start:` and the like: the option was given and is not 0. */
  predicate Given(x: Option<int>)
  {
    x.Some? && x.value != 0
  }

  datatype Event =
    | PathNotFound(path: Path)                   // the message for a `--path` that is no directory
    | PluginFolderStored(path: Path)             // `UserSetting.set('plugin_folder', ...)`
    | PluginFolderShown(setting: Option<Path>)   // `print(UserSetting.get('plugin_folder'))`
    | DownloadRan(outcome: DownloadOutcome)
    | MayaLaunched(version: int, env: EnvResult) // `launch_maya(..., envs=env)`
    | InstallRan(result: InstallOutcome)
    | InstallReported                            // the "install" message
    | UninstallRan
    | UninstallReported                          // the "uninstall" message

  /** The persisted settings; only `plugin_folder` matters here. */
  class Settings {
    var pluginFolder: Option<Path>

    constructor (pluginFolder: Option<Path>)
      ensures this.pluginFolder == pluginFolder
    {
      this.pluginFolder := pluginFolder;
    }
  }

  predicate IsAction(e: Event)
  {
    e.MayaLaunched? || e.InstallRan? || e.UninstallRan?
  }

  /** How many of start, install and uninstall ran. */
  function ActionCount(trace: seq<Event>): (n: nat)
    ensures n == 0 <==> forall i :: 0 <= i < |trace| ==> !IsAction(trace[i])
  {
    if trace == [] then 0
    else ActionCount(trace[..|trace| - 1]) + (if IsAction(trace[|trace| - 1]) then 1 else 0)
  }

  /** A non-empty `--path` that is no directory stops `main`. */
  predicate PathRejected(fs: Snapshot, args: Args)
  {
    args.path.Some? && args.path.value != [] && !fs.IsDir(args.path.value)
  }

  /** Start only for `--start`; install only without `--start`; uninstall only without either. */
  predicate InPriority(trace: seq<Event>, args: Args)
  {
    forall i :: 0 <= i < |trace| ==> Allowed(trace[i], args)
  }

  predicate Allowed(e: Event, args: Args)
  {
    match e
    case MayaLaunched(version, _) => Given(args.start) && version == args.start.value
    case InstallRan(_) => !Given(args.start) && Given(args.install)
    case UninstallRan => !Given(args.start) && !Given(args.install) && Given(args.uninstall)
    case _ => true
  }

  lemma {:induction false} ActionCountAppend(a: seq<Event>, b: seq<Event>)
    ensures ActionCount(a + b) == ActionCount(a) + ActionCount(b)
    decreases |b|
  {
    if b != [] {
      var last := b[|b| - 1];
      assert (a + b)[..|a + b| - 1] == a + b[..|b| - 1];
      ActionCountAppend(a, b[..|b| - 1]);
    } else {
      assert a + b == a;
    }
  }

  lemma InPriorityAppend(a: seq<Event>, b: seq<Event>, args: Args)
    requires InPriority(a, args) && InPriority(b, args)
    ensures InPriority(a + b, args)
  {
    forall i | 0 <= i < |a + b|
      ensures Allowed((a + b)[i], args)
    {
      if i < |a| {
        assert (a + b)[i] == a[i];
      } else {
        assert (a + b)[i] == b[i - |a|];
      }
    }
  }

  /** The `--path` branch of `main`; `stop` when `main` returns there. */
  method HandlePath(disk: Disk, settings: Settings, args: Args) returns (trace: seq<Event>, stop: bool)
    modifies settings
    ensures stop == PathRejected(disk.Snap(), args)
    ensures stop ==> trace == [PathNotFound(args.path.value)] && settings.pluginFolder == old(settings.pluginFolder)
    ensures !stop && args.path.Some? && args.path.value != [] ==>
      trace == [PluginFolderStored(args.path.value)] && settings.pluginFolder == args.path
    ensures args.path == Some([]) ==>
      trace == [PluginFolderShown(old(settings.pluginFolder))] && settings.pluginFolder == old(settings.pluginFolder)
    ensures args.path.None? ==> trace == [] && settings.pluginFolder == old(settings.pluginFolder)
  {
    trace, stop := [], false;
    if args.path.Some? && args.path.value != [] {
      if args.path.value in disk.dirs {
        settings.pluginFolder := args.path;
        trace := [PluginFolderStored(args.path.value)];
      } else {
        trace, stop := [PathNotFound(args.path.value)], true;
      }
    } else if args.path == Some([]) {
      trace := [PluginFolderShown(settings.pluginFolder)];
    }
  }

  /**
   * The start, install and uninstall branches of `main`: the first one
   * given runs, then `main` returns. The events and the disk afterwards.
   */
  ghost function ActionSpec(fs: Snapshot, pluginFolder: Option<Path>, args: Args, home: Path,
                            environ: map<string, string>): (seq<Event>, Snapshot)
  {
    if Given(args.start) then
      ([MayaLaunched(args.start.value, PythonPathEnv(ResolvedScripts(fs, pluginFolder), environ))], fs)
    else if Given(args.install) then
      var (o, after) := InstallSpec(fs, home, Number(args.install.value), ResolvedScripts(fs, pluginFolder));
      (if o == WriteRaised then [InstallRan(o)] else [InstallRan(o), InstallReported], after)
    else if Given(args.uninstall) then
      ([UninstallRan, UninstallReported], UninstallSpec(fs, home, Number(args.uninstall.value)))
    else
      ([], fs)
  }

  /** A trace of one action, optionally followed by its report, counts one action. */
  lemma {:induction false} OneAction(trace: seq<Event>)
    requires 1 <= |trace| <= 2 && IsAction(trace[0])
    requires |trace| == 2 ==> !IsAction(trace[1])
    ensures ActionCount(trace) == 1
  {
    assert ActionCount([trace[0]]) == ActionCount([]) + 1;
    if |trace| == 2 {
      assert trace[..1] == [trace[0]];
    }
  }

  /**
   * Exactly one action runs when any of start, install and uninstall is
   * given, none otherwise, and it is the first of them in that order;
   * starting the host application leaves the disk alone.
   */
  lemma ActionSpecRunsOne(fs: Snapshot, pluginFolder: Option<Path>, args: Args, home: Path,
                          environ: map<string, string>)
    ensures var (trace, after) := ActionSpec(fs, pluginFolder, args, home, environ);
      && (ActionCount(trace) == 1 <==> Given(args.start) || Given(args.install) || Given(args.uninstall))
      && ActionCount(trace) <= 1
      && InPriority(trace, args)
      && (Given(args.start) ==> after == fs)
  {
    var trace := ActionSpec(fs, pluginFolder, args, home, environ).0;
    if Given(args.start) || Given(args.install) || Given(args.uninstall) {
      assert 1 <= |trace| <= 2 && IsAction(trace[0]) && Allowed(trace[0], args);
      assert |trace| == 2 ==> !IsAction(trace[1]) && Allowed(trace[1], args);
      OneAction(trace);
    } else {
      assert trace == [];
    }
  }

  /** The start, install and uninstall branches of `main`. */
  method RunAction(disk: Disk, pluginFolder: Option<Path>, args: Args, home: Path, environ: map<string, string>)
    returns (trace: seq<Event>)
    requires disk.Valid()
    modifies disk
    ensures disk.Valid()
    ensures (trace, disk.Snap()) == ActionSpec(old(disk.Snap()), pluginFolder, args, home, environ)
  {
    if Given(args.start) {
      var lookup := GetScriptFolder(disk, pluginFolder);
      trace := [MayaLaunched(args.start.value, PythonPathEnv(lookup, environ))];
      return;
    }
    if Given(args.install) {
      ghost var spec := InstallSpec(disk.Snap(), home, Number(args.install.value), ResolvedScripts(disk.Snap(), pluginFolder));
      var outcome := Install(disk, home, Number(args.install.value), pluginFolder);
      assert outcome == spec.0 && disk.Snap() == spec.1;
      trace := if outcome == WriteRaised then [InstallRan(outcome)] else [InstallRan(outcome), InstallReported];
      return;
    }
    if Given(args.uninstall) {
      Uninstall(disk, home, Number(args.uninstall.value));
      trace := [UninstallRan, UninstallReported];
      return;
    }
    trace := [];
  }

  /**
   * `main()` after argument parsing, with the download's result read as
   * `download_plugin` returns it when `folderReturned` is false (as
   * written) or as documented when it is true. A rejected `--path` ends it
   * at once. A download always overwrites, and `main` returns unless that
   * result is true. Then at most one of start, install and uninstall
   * runs, in that priority.
   */
  method Dispatch(disk: Disk, settings: Settings, args: Args, home: Path, environ: map<string, string>,
                  release: Option<Release>, transfer: Transfer, folderReturned: bool) returns (trace: seq<Event>)
    requires disk.Valid()
    modifies disk, settings
    ensures disk.Valid()
    ensures PathRejected(old(disk.Snap()), args) ==>
      trace == [PathNotFound(args.path.value)] &&
      disk.Snap() == old(disk.Snap()) && settings.pluginFolder == old(settings.pluginFolder)
    ensures args.path.Some? && args.path.value != [] && !PathRejected(old(disk.Snap()), args) ==>
      trace != [] && trace[0] == PluginFolderStored(args.path.value) && settings.pluginFolder == args.path
    ensures args.path == Some([]) ==>
      trace != [] && trace[0] == PluginFolderShown(old(settings.pluginFolder)) &&
      settings.pluginFolder == old(settings.pluginFolder)
    ensures args.path.None? ==> settings.pluginFolder == old(settings.pluginFolder)
    ensures var k := if args.path.Some? then 1 else 0;
      args.download && !PathRejected(old(disk.Snap()), args) ==>
        var (outcome, downloaded) := DownloadSpec(old(disk.Snap()), settings.pluginFolder, true, release, transfer);
        var proceeds := folderReturned && outcome.Unzipped?;
        && |trace| > k && trace[k] == DownloadRan(outcome)
        && (!proceeds ==> |trace| == k + 1 && disk.Snap() == downloaded)
        && (proceeds ==>
              (trace[k + 1..], disk.Snap()) == ActionSpec(downloaded, settings.pluginFolder, args, home, environ))
    ensures var k := if args.path.Some? then 1 else 0;
      !args.download && !PathRejected(old(disk.Snap()), args) ==>
        |trace| >= k &&
        (trace[k..], disk.Snap()) == ActionSpec(old(disk.Snap()), settings.pluginFolder, args, home, environ)
    ensures ActionCount(trace) <= 1
    ensures InPriority(trace, args)
  {
    var stop;
    trace, stop := HandlePath(disk, settings, args);
    if stop {
      return;
    }
    assert ActionCount(trace) == 0;
    assert InPriority(trace, args);

    if args.download {
      ghost var before := disk.Snap();
      var outcome := DownloadPlugin(disk, settings.pluginFolder, true, release, transfer);
      var ran := [DownloadRan(outcome)];
      ActionCountAppend(trace, ran);
      assert ActionCount(ran) == ActionCount([]) + 0;
      InPriorityAppend(trace, ran, args);
      trace := trace + ran;
      if outcome.Crashed? {
        return;  // the exception escapes `main`
      }
      DownloadNeverTruthy(before, settings.pluginFolder, true, release, transfer);
      IntendedDownloadSignalsSuccess(before, settings.pluginFolder, true, release, transfer);
      var result := if folderReturned then IntendedDownloadReturn(outcome) else DownloadReturn(outcome);
      if !Truthy(result) {
        return;
      }
    }

    ghost var before := disk.Snap();
    var actions := RunAction(disk, settings.pluginFolder, args, home, environ);
    ActionSpecRunsOne(before, settings.pluginFolder, args, home, environ);
    ActionCountAppend(trace, actions);
    InPriorityAppend(trace, actions, args);
    assert (trace + actions)[|trace|..] == actions;
    trace := trace + actions;
  }

  /**
   * `main()` as written: `download_plugin` never returns a true value, so
   * `--download` always ends `main` after the download, and none of start,
   * install and uninstall runs.
   */
  method Run(disk: Disk, settings: Settings, args: Args, home: Path, environ: map<string, string>,
             release: Option<Release>, transfer: Transfer) returns (trace: seq<Event>)
    requires disk.Valid()
    modifies disk, settings
    ensures disk.Valid()
    ensures PathRejected(old(disk.Snap()), args) ==>
      trace == [PathNotFound(args.path.value)] &&
      disk.Snap() == old(disk.Snap()) && settings.pluginFolder == old(settings.pluginFolder)
    ensures args.path.Some? && args.path.value != [] && !PathRejected(old(disk.Snap()), args) ==>
      trace != [] && trace[0] == PluginFolderStored(args.path.value) && settings.pluginFolder == args.path
    ensures args.path == Some([]) ==>
      trace != [] && trace[0] == PluginFolderShown(old(settings.pluginFolder)) &&
      settings.pluginFolder == old(settings.pluginFolder)
    ensures args.path.None? ==> settings.pluginFolder == old(settings.pluginFolder)
    ensures var k := if args.path.Some? then 1 else 0;
      args.download && !PathRejected(old(disk.Snap()), args) ==>
        var (outcome, downloaded) := DownloadSpec(old(disk.Snap()), settings.pluginFolder, true, release, transfer);
        |trace| == k + 1 && trace[k] == DownloadRan(outcome) && disk.Snap() == downloaded
    ensures args.download ==> ActionCount(trace) == 0
    ensures var k := if args.path.Some? then 1 else 0;
      !args.download && !PathRejected(old(disk.Snap()), args) ==>
        |trace| >= k &&
        (trace[k..], disk.Snap()) == ActionSpec(old(disk.Snap()), settings.pluginFolder, args, home, environ)
    ensures ActionCount(trace) <= 1
    ensures InPriority(trace, args)
  {
    trace := Dispatch(disk, settings, args, home, environ, release, transfer, false);
    if args.download {
      forall i | 0 <= i < |trace|
        ensures !IsAction(trace[i])
      {
      }
    }
  }

  /**
   * `main()` with `download_plugin` returning the unpacked folder, as
   * documented: after a download that unpacked the plugin, start, install
   * or uninstall still runs.
   */
  method IntendedRun(disk: Disk, settings: Settings, args: Args, home: Path, environ: map<string, string>,
                     release: Option<Release>, transfer: Transfer) returns (trace: seq<Event>)
    requires disk.Valid()
    modifies disk, settings
    ensures disk.Valid()
    ensures PathRejected(old(disk.Snap()), args) ==>
      trace == [PathNotFound(args.path.value)] &&
      disk.Snap() == old(disk.Snap()) && settings.pluginFolder == old(settings.pluginFolder)
    ensures args.path.Some? && args.path.value != [] && !PathRejected(old(disk.Snap()), args) ==>
      trace != [] && trace[0] == PluginFolderStored(args.path.value) && settings.pluginFolder == args.path
    ensures args.path == Some([]) ==>
      trace != [] && trace[0] == PluginFolderShown(old(settings.pluginFolder)) &&
      settings.pluginFolder == old(settings.pluginFolder)
    ensures args.path.None? ==> settings.pluginFolder == old(settings.pluginFolder)
    ensures var k := if args.path.Some? then 1 else 0;
      args.download && !PathRejected(old(disk.Snap()), args) ==>
        var (outcome, downloaded) := DownloadSpec(old(disk.Snap()), settings.pluginFolder, true, release, transfer);
        && |trace| > k && trace[k] == DownloadRan(outcome)
        && (!outcome.Unzipped? ==> |trace| == k + 1 && disk.Snap() == downloaded)
        && (outcome.Unzipped? ==>
              (trace[k + 1..], disk.Snap()) == ActionSpec(downloaded, settings.pluginFolder, args, home, environ))
    ensures var k := if args.path.Some? then 1 else 0;
      !args.download && !PathRejected(old(disk.Snap()), args) ==>
        |trace| >= k &&
        (trace[k..], disk.Snap()) == ActionSpec(old(disk.Snap()), settings.pluginFolder, args, home, environ)
    ensures ActionCount(trace) <= 1
    ensures InPriority(trace, args)
  {
    trace := Dispatch(disk, settings, args, home, environ, release, transfer, true);
  }
}

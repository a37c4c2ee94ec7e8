# Maya Umbrella Launcher — a Dafny model of its core

Maya Umbrella Launcher is a small Windows tool that installs the *maya_umbrella*
plugin into Autodesk Maya. It does three things:

- It downloads release archives of the plugin from GitHub into a user-chosen
  plugin folder, one sub-folder per release tag (`v1.2.0`, …).
- It picks the greatest local version and points Maya at its `scripts` folder.
  It does this either through `PYTHONPATH` when it launches Maya, or by writing a
  `maya_umbrella.mod` module descriptor into
  `~/Documents/maya/<version>/modules`.
- It removes that descriptor again on uninstall.

This project models the core of the tool:

- `PluginManager` and `PluginInstaller` in `maya_umbrella_launcher/core.py`.
- `extract_zip` and `get_maya_module_folder` in
  `maya_umbrella_launcher/filesystem.py`.
- The dispatch of `main()` in `maya_umbrella_launcher/launcher_cmd.py`, after its
  arguments are parsed.
- The update check of `maya_umbrella_launcher/launcher_view.py`, which reuses the
  same version order.

How things are represented:

- **Paths** (`Paths`) are sequences of components, so `os.path.join` and
  `os.path.dirname` are exact. They are shown with `\` between components.
- **The filesystem** (`FileSystem`) is a value, `Snapshot`: a set of directories
  and a map from file paths to contents. A file holds text or a zip archive.
- **The one mutable filesystem** is the class `Disk`. `MakeDirectory` (the helper
  `create_folder_if_not_exist`), `Remove` (`os.remove`), `WriteBlob` (`open(..., 'w')`)
  and `ExtractZip` are each pinned to a step function on `Snapshot`; `ListDir`
  (`os.listdir`) is tied to the relation `IsListing` instead, since its order is free.
- **Directory listing order.** `os.listdir` returns entries in an order the
  operating system chooses, so a listing is any duplicate-free sequence of the
  folder's entries. The model proves that the result never depends on that order.
- **Version order** (`StringOrder`) is Python's `<` on strings, which is
  code-point lexicographic. So `"v1.10.0" < "v1.2.0"`, and `max(versions)` is
  the textually greatest tag.
- **Operations on the disk.** `download_plugin`, `install` and `uninstall` are
  each a method that works on a `Disk`. Each method is proved equal to a function on
  snapshots (`DownloadSpec`, `InstallSpec`, `UninstallSpec`), and the lemmas
  state what those functions guarantee.
- **`main()`** (`LauncherCmd`) records what it prints, stores, downloads,
  launches or installs as a trace of events. The model proves that at most one of
  start, install and uninstall runs, and always the first one given; as
  written, none runs after `--download` (see "## Findings").

Inputs the program gets from outside are parameters:

| outside input | parameter |
|---|---|
| the GitHub release (`get_latest_release`) | `release` |
| what the HTTP download saved | `transfer` |
| `os.path.expanduser('~')` | `home` |
| `os.environ` | `environ` |
| the `plugin_folder` user setting | `Settings` / `pluginFolder` |
| the parsed command line | `Args` |

Exceptions that escape the Python functions are explicit outcomes:

| outcome | cause |
|---|---|
| `Crashed(NoRelease)` | `get_latest_release` returned `False`, so `False['tag_name']` raises |
| `Crashed(BadArchive)` | the download is not a zip archive, or extracting it would put a file where a folder is or a folder where a file is |
| `WriteRaised` | the descriptor path is a folder |

`validate_folder_exist` and `create_folder_if_not_exist` are not part of this model. They are taken to mean:

- `validate_folder_exist`: the path is set, not empty, and an existing directory.
- `create_folder_if_not_exist`: create the directory when nothing exists at that path.

## Model

| member | source | states |
|---|---|---|
| StringOrder.LessTotal | maya_umbrella_launcher/core.py:47 | Python's string order is total: two different version names are always ordered one way or the other |
| StringOrder.LessTransitive | maya_umbrella_launcher/core.py:47 | the string order is transitive, so `max` is well defined |
| StringOrder.MaxOf | maya_umbrella_launcher/core.py:47 | `max(versions)` returns one of the versions |
| StringOrder.MaxOfIsMax | maya_umbrella_launcher/core.py:47 | `max(versions)` is in the list and no element of it is greater |
| StringOrder.MaxIsUnique | maya_umbrella_launcher/core.py:47 | a list has only one greatest element |
| StringOrder.MaxOfIgnoresOrder | maya_umbrella_launcher/core.py:43-47 | two lists with the same elements in any order have the same `max` |
| StringOrder.TextualVersionOrder | maya_umbrella_launcher/core.py:47 | tags are ordered as text: `v1.2.0` is greater than `v1.10.0` |
| Paths.Join | maya_umbrella_launcher/core.py:47 | `os.path.dirname` and the last component undo `os.path.join` |
| Paths.RenderJoin | maya_umbrella_launcher/core.py:149 | joining a name onto a path adds one `\` and the name to its text |
| FileSystem.Entries | maya_umbrella_launcher/core.py:74 | the names `os.listdir` returns are exactly the folder's direct files and sub-folders |
| FileSystem.ListingExists | maya_umbrella_launcher/core.py:74 | every folder has a listing |
| FileSystem.Disk.ListDir | maya_umbrella_launcher/core.py:74 | `os.listdir` returns each entry of the folder once, in some order, and nothing else |
| FileSystem.MadeDirectory | maya_umbrella_launcher/core.py:99 | `create_folder_if_not_exist` leaves a directory or an existing entry at the path, keeps every file, and changes no other directory |
| FileSystem.RemovedFile | maya_umbrella_launcher/core.py:115 | `os.remove` removes that file only; other files and all directories are unchanged |
| FileSystem.WrittenFile | maya_umbrella_launcher/core.py:148-149 | `open(p, 'w')` and write leaves exactly that content at `p`, and other files and all directories are unchanged |
| FileSystem.Disk.MakeDirectory | maya_umbrella_launcher/core.py:99 | the disk afterwards is `MadeDirectory` of the disk before |
| FileSystem.Disk.Remove | maya_umbrella_launcher/core.py:146 | the disk afterwards is `RemovedFile` of the disk before |
| FileSystem.Disk.WriteBlob | maya_umbrella_launcher/core.py:148-149 | opening for writing succeeds exactly when the parent is a directory and the path is not one; on failure nothing changes |
| FileSystem.ExtractTarget | maya_umbrella_launcher/filesystem.py:10-11 | without `extract_to`, the archive is extracted into the folder that holds it |
| FileSystem.Unpacked | maya_umbrella_launcher/filesystem.py:13-14 | `extractall` writes every member of the archive under the destination with its contents, creates every folder of the archive, and removes nothing |
| FileSystem.ExtractZip | maya_umbrella_launcher/filesystem.py:6-15 | extraction succeeds exactly when the file is a zip archive whose members collide with no entry of the other kind; on success the disk is `Unpacked`, on failure unchanged |
| FileSystem.NatText | maya_umbrella_launcher/filesystem.py:20 | `str(n)` for a natural number is a non-empty string of decimal digits |
| FileSystem.NatTextInjective | maya_umbrella_launcher/filesystem.py:20 | different natural numbers have different decimal texts |
| FileSystem.IntTextInjective | maya_umbrella_launcher/filesystem.py:20 | different integers have different `str` texts |
| FileSystem.ModuleFolderByText | maya_umbrella_launcher/filesystem.py:18-21 | two Maya versions share a module folder exactly when their `str` texts are equal |
| FileSystem.ModuleFolderPerVersion | maya_umbrella_launcher/filesystem.py:18-21 | each Maya version number has its own module folder |
| FileSystem.ModuleFolderNumberOrText | maya_umbrella_launcher/filesystem.py:20 | the version given as the number 2023 and as the text "2023" share a module folder |
| PluginManager.KeepVersions | maya_umbrella_launcher/core.py:74-76 | the comprehension keeps exactly the listed names that are directories starting with `v`, with no duplicates when the listing has none |
| PluginManager.LocalVersionList | maya_umbrella_launcher/core.py:71-77 | `[]` for an invalid plugin folder; otherwise exactly the sub-folders whose names start with `v`, each once |
| PluginManager.CurrentIsUnique | maya_umbrella_launcher/core.py:47 | at most one installed version is the greatest |
| PluginManager.CurrentVersion | maya_umbrella_launcher/core.py:43-47 | there is no version exactly when the folder is invalid or holds no version; otherwise the chosen version is installed and no installed version is greater |
| PluginManager.ScriptFolder | maya_umbrella_launcher/core.py:39-51 | each failure has its exact condition. A folder is found exactly when the current version has a `maya_umbrella/scripts` directory, and that directory is the result |
| PluginManager.ScriptFolderIgnoresOrder | maya_umbrella_launcher/core.py:43-47 | the order of `os.listdir` never changes the script folder |
| PluginManager.ResolvedScriptsAnyListing | maya_umbrella_launcher/core.py:39-51 | every listing of the plugin folder resolves to the same script folder |
| PluginManager.CurrentReadsDirs | maya_umbrella_launcher/core.py:74-76 | which versions are installed, and which one is current, depends on the directories alone |
| PluginManager.ScriptFolderReadsDirs | maya_umbrella_launcher/core.py:39-51 | two filesystems with the same directories give the same script folder, whatever files they hold |
| PluginManager.ResolvedScriptsReadsDirs | maya_umbrella_launcher/core.py:39-51 | writing or removing files never changes the resolved script folder |
| PluginManager.GetScriptFolder | maya_umbrella_launcher/core.py:35-51 | listing the plugin folder and resolving gives the order-independent script folder of the disk |
| PluginManager.PythonPathEnv | maya_umbrella_launcher/core.py:58-64 | `False` exactly when no script folder is found. Otherwise every other variable is kept and `PYTHONPATH` is the old value (or empty), then `;`, then the script folder |
| PluginManager.LastEntryAfterSeparator | maya_umbrella_launcher/core.py:63 | appending `;` and an entry makes that entry the last one of a `;`-separated list |
| PluginManager.ScriptFolderIsLastPathEntry | maya_umbrella_launcher/core.py:63 | the script folder is the last entry of the new `PYTHONPATH` |
| PluginManager.LatestVersion | maya_umbrella_launcher/core.py:120-124 | the latest tag when there is a release; a `TypeError` when `get_latest_release` returned `False` |
| PluginManager.Received | maya_umbrella_launcher/core.py:103-109 | the download creates no directories; when content was saved and the archive path can be opened, the archive path holds exactly that content and nothing else changes; otherwise nothing changes |
| PluginManager.DownloadPlugin | maya_umbrella_launcher/core.py:86-117 | the outcome and the disk afterwards are `DownloadSpec` of the disk before |
| PluginManager.DownloadChecksFolderFirst | maya_umbrella_launcher/core.py:86-88 | with an invalid plugin folder, nothing changes and neither the release nor the network matters |
| PluginManager.DownloadKeepsExistingVersion | maya_umbrella_launcher/core.py:95-98 | without `overwrite`, an existing version folder is refused and nothing changes |
| PluginManager.DownloadWithoutArchive | maya_umbrella_launcher/core.py:99-112 | when the release lists no asset (the indexing raises inside the `try`) or no archive arrives, the only change is the new version folder |
| PluginManager.DownloadSuccess | maya_umbrella_launcher/core.py:99-117 | after an unpacked download the archive is gone and the version folder exists. Nothing that was there before is lost, and a `v` tag then appears in `get_local_version_list` |
| PluginManager.DownloadUnpacksTransfer | maya_umbrella_launcher/core.py:114-115 | after an unpacked download every file of the saved archive is in the version folder with its contents |
| PluginManager.DownloadNeverTruthy | maya_umbrella_launcher/core.py:114-117 | as written, `download_plugin` never returns a true value |
| PluginManager.IntendedDownloadSignalsSuccess | maya_umbrella_launcher/core.py:80-83 | with the documented return value, the result is true exactly when the plugin was unpacked |
| PluginInstaller.DescribedFolder | maya_umbrella_launcher/core.py:149 | a descriptor line that parses has the form `+ maya_umbrella any <folder>` plus a newline |
| PluginInstaller.DescriptorRoundTrip | maya_umbrella_launcher/core.py:148-149 | the written descriptor line names exactly the folder it was written for |
| PluginInstaller.InstallFailureWritesNothing | maya_umbrella_launcher/core.py:133-140 | every failed install leaves the filesystem as it was |
| PluginInstaller.InstallWritesDescriptor | maya_umbrella_launcher/core.py:142-151 | a successful install changes exactly one file: the version's `maya_umbrella.mod` now holds the line naming the folder above `scripts` |
| PluginInstaller.InstallPointsAtCurrentVersion | maya_umbrella_launcher/core.py:138-149 | the installed descriptor names `<plugin folder>/<current version>/maya_umbrella` |
| PluginInstaller.InstallIdempotent | maya_umbrella_launcher/core.py:133-151 | installing twice has the same outcome and filesystem as installing once |
| PluginInstaller.UninstallRemovesOnlyDescriptor | maya_umbrella_launcher/core.py:154-158 | afterwards the version has no descriptor and nothing else changed; with no descriptor there, nothing happens |
| PluginInstaller.UninstallIdempotent | maya_umbrella_launcher/core.py:154-158 | uninstalling twice is uninstalling once |
| PluginInstaller.UninstallUndoesInstall | maya_umbrella_launcher/core.py:133-158 | install followed by uninstall leaves the filesystem as uninstall alone would |
| PluginInstaller.InstallReturn | maya_umbrella_launcher/core.py:136-151 | `install` returns `True` exactly when it registered the plugin; it raises exactly when the descriptor cannot be opened |
| PluginInstaller.Install | maya_umbrella_launcher/core.py:133-151 | the outcome and the disk afterwards are `InstallSpec` of the disk before, with the script folder resolved on that disk |
| PluginInstaller.Uninstall | maya_umbrella_launcher/core.py:154-158 | the disk afterwards is `UninstallSpec` of the disk before |
| LauncherView.OffersUpdateExactly | maya_umbrella_launcher/launcher_view.py:332-334 | an update is offered exactly when the latest tag is greater than every local version (than `v0.0.0` with none), so never for an installed tag |
| LauncherCmd.ActionCount | maya_umbrella_launcher/launcher_cmd.py:34-50 | the number of actions in a trace is zero exactly when none of start, install and uninstall ran |
| LauncherCmd.HandlePath | maya_umbrella_launcher/launcher_cmd.py:21-28 | a directory given with `-p` is stored; any other non-empty path stops `main` with a message and leaves the setting alone; a bare `-p` shows the setting |
| LauncherCmd.ActionSpecRunsOne | maya_umbrella_launcher/launcher_cmd.py:34-50 | exactly one action runs when any of start, install and uninstall is given, and it is the first given of those; starting Maya leaves the disk alone |
| LauncherCmd.RunAction | maya_umbrella_launcher/launcher_cmd.py:34-50 | the trace and the disk afterwards are `ActionSpec` of the disk before |
| LauncherCmd.Run | maya_umbrella_launcher/launcher_cmd.py:21-50 | `main` as written: a rejected path stops everything; with `-d` the download (always with `overwrite`) comes right after the path step and is always the last step, so no start, install or uninstall runs; without `-d` the rest of the trace and the disk are `ActionSpec`. At most one action ever runs, the first given of start, install and uninstall |
| LauncherCmd.IntendedRun | maya_umbrella_launcher/launcher_cmd.py:21-50 | `main` with `download_plugin` returning the unpacked folder: a download that unpacked the plugin goes on to start, install or uninstall as `ActionSpec` of the disk after the download; any other download outcome ends `main` |
| LauncherCmd.Dispatch | maya_umbrella_launcher/launcher_cmd.py:21-50 | both readings of `main` at once: the path step, the download step (continuing exactly when the chosen reading of the download result is true) and `ActionSpec`; at most one action, in priority order |

## Left out

- The Qt user interface (`view.py`, `launcher_view.py` apart from the update check), the translator, and the logging messages: they do not change what the core computes.
- Argument parsing by `argparse` is left out; `Args` holds its result, and a bare `-p` is the empty path.
- `get_latest_release` and `download_release_files` are HTTP calls, and proxies are left out with them. The release and what the transfer saved are parameters. The maya_umbrella_launcher/github_utils.py at hand has no `get_latest_release` and no `proxies` parameter; the model takes the functions that core.py imports to behave like the ones shown, in particular to catch their own errors.
- A release without assets raises `IndexError` inside the `try` (maya_umbrella_launcher/core.py:103-109); that is the only way to the outcome `TransferRaised`. `download_release_files` catches its own errors (maya_umbrella_launcher/github_utils.py:30-39), so a failed or partial transfer shows up only as a missing or unreadable archive (`ArchiveAbsent`, `Crashed(BadArchive)`).
- `MayaSystem.get_maya_app_path` and `launch_maya` read the Windows registry and start a process. They are recorded as one `MayaLaunched` event holding the version and the environment.
- `UserSetting` (QSettings) is reduced to the one `plugin_folder` value in `Settings`.
- `os.path.expanduser('~')` and `os.environ` are the parameters `home` and `environ`.
- PluginManager.PythonPathEnv: environment keys are compared exactly; Windows compares them case-insensitively.
- Paths are sequences of components, so the model has no normalisation. It does not model `..`, trailing separators, or `os.path.join` restarting at an absolute component.
- FileSystem.ExtractZip: extraction is all or nothing. A conflict partway through raises before anything is written, whereas `extractall` may leave the members it extracted before the failure. Archive member names are taken to be clean relative paths. Extraction also creates the destination folder and its parents even for an archive with no entries, where `extractall` creates nothing; `download_plugin` always extracts into the version folder it has just created, so this does not show there.
- FileSystem.Snapshot: the model does not require every file and directory to sit inside an existing directory.
- Other operating-system failures are left out: permissions, a full disk, and files changed by another process.
- `extract_zip` prints a fixed message; output is not modelled.
- `install` does not create a missing module folder: it returns `False` (maya_umbrella_launcher/core.py:134-136).
- With `overwrite`, `download_plugin` does not clear an existing version folder: it unpacks over whatever is there (maya_umbrella_launcher/core.py:96-114).

## Findings

| source | as written | input that shows it | evidently intended | confidence | as-written member | corrected member |
|---|---|---|---|---|---|---|
| maya_umbrella_launcher/core.py:114-117 | `extract_zip` returns nothing, so `download_plugin` returns `None` even after a successful download. `main` then stops at `if not download_plugin(...)` (maya_umbrella_launcher/launcher_cmd.py:30-32) | `launcher_cmd -d -s 2023` with a valid plugin folder and a good archive: the plugin is unpacked and Maya is never started | return the unpacked folder, as the docstring of `download_plugin` says, so a successful download lets `main` continue | not executed | PluginManager.DownloadNeverTruthy, LauncherCmd.Run | PluginManager.IntendedDownloadSignalsSuccess, LauncherCmd.IntendedRun |

`LauncherCmd.Run` follows the code as written, so `-d` always ends `main`; `LauncherCmd.IntendedRun` uses the corrected return value, so there `-d -s 2023` starts Maya after a successful download.

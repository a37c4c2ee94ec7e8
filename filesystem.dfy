/**
 * The filesystem the launcher works on, and the helpers of
 * `maya_umbrella_launcher/filesystem.py`: zip extraction and the Maya
 * module folder.
 *
 * A `Snapshot` is the filesystem as a value: a set of directories and a map
 * from file path to contents. `Disk` is the one mutable filesystem; its
 * methods are the operating-system primitives the source calls, each pinned
 * to a step function on `Snapshot`.
 */
module FileSystem {
  import opened Wrappers
  import opened Paths

  /** File contents: plain text, or a zip archive (its folder entries and its files). */
  datatype Blob = Text(text: string) | Zip(folders: set<Path>, members: map<Path, string>)

  datatype Snapshot = Snapshot(dirs: set<Path>, files: map<Path, Blob>) {
    /** Nothing is both a directory and a file. */
    predicate Valid() { dirs !! files.Keys }
    predicate IsDir(p: Path) { p in dirs }
    predicate IsFile(p: Path) { p in files }
    predicate Exists(p: Path) { IsDir(p) || IsFile(p) }
  }

  /** `name` is listed by `os.listdir(folder)`. */
  predicate IsEntry(fs: Snapshot, folder: Path, name: string)
  {
    fs.Exists(Join(folder, name))
  }

  predicate Distinct(names: seq<string>)
  {
    forall i, j :: 0 <= i < j < |names| ==> names[i] != names[j]
  }

  /** `names` is a possible result of `os.listdir(folder)`: every entry once, in any order. */
  ghost predicate IsListing(fs: Snapshot, folder: Path, names: seq<string>)
  {
    && (forall n :: n in names <==> IsEntry(fs, folder, n))
    && Distinct(names)
  }

  /** The names of the entries of `folder`, as a set. */
  function Entries(fs: Snapshot, folder: Path): (names: set<string>)
    ensures forall n :: n in names <==> IsEntry(fs, folder, n)
  {
    var all := fs.dirs + fs.files.Keys;
    var names := set q | q in all && |q| == |folder| + 1 && q[..|folder|] == folder :: q[|folder|];
    assert forall n :: IsEntry(fs, folder, n) ==> Join(folder, n) in all && Join(folder, n)[..|folder|] == folder;
    assert forall q :: |q| == |folder| + 1 && q[..|folder|] == folder ==> q == Join(folder, q[|folder|]);
    names
  }

  /** Every folder has a listing (whatever order the operating system picks). */
  lemma ListingExists(fs: Snapshot, folder: Path)
    ensures exists names :: IsListing(fs, folder, names)
  {
    var names := SeqOfSet(Entries(fs, folder));
    assert IsListing(fs, folder, names);
  }

  /** A duplicate-free sequence holding exactly the elements of a finite set. */
  lemma {:induction false} SeqOfSet(s: set<string>) returns (names: seq<string>)
    ensures forall n :: n in names <==> n in s
    ensures Distinct(names)
    decreases |s|
  {
    if s == {} {
      names := [];
    } else {
      var x :| x in s;
      var rest := SeqOfSet(s - {x});
      names := [x] + rest;
      forall i, j | 0 <= i < j < |names|
        ensures names[i] != names[j]
      {
        if i > 0 { assert names[i] == rest[i - 1]; }
        assert names[j] == rest[j - 1];
      }
    }
  }

  /** `validate_folder_exist(p)`: `p` is set, not empty, and an existing directory. */
  predicate ValidFolder(fs: Snapshot, p: Option<Path>)
  {
    p.Some? && p.value != [] && fs.IsDir(p.value)
  }

  /** `create_folder_if_not_exist(p)`: create `p` when nothing is there yet. */
  function MadeDirectory(fs: Snapshot, p: Path): (r: Snapshot)
    ensures r.files == fs.files
    ensures r.Exists(p) && (fs.Valid() ==> r.Valid())
    ensures forall q :: q != p ==> (r.IsDir(q) <==> fs.IsDir(q))
  {
    if fs.Exists(p) then fs else fs.(dirs := fs.dirs + {p})
  }

  /** `os.remove(p)` on an existing file. */
  function RemovedFile(fs: Snapshot, p: Path): (r: Snapshot)
    ensures r.dirs == fs.dirs && !r.IsFile(p)
    ensures forall q :: q != p ==> (q in r.files <==> q in fs.files)
    ensures forall q :: q != p && q in r.files ==> r.files[q] == fs.files[q]
  {
    fs.(files := fs.files - {p})
  }

  /** `open(p, 'w')` succeeds: the parent is a directory and `p` is not one. */
  predicate CanCreateFile(fs: Snapshot, p: Path)
  {
    p != [] && fs.IsDir(Dirname(p)) && !fs.IsDir(p)
  }

  /** The file `p` now holds `b` (created or truncated). */
  function WrittenFile(fs: Snapshot, p: Path, b: Blob): (r: Snapshot)
    requires CanCreateFile(fs, p)
    ensures r.dirs == fs.dirs && r.files.Keys == fs.files.Keys + {p}
    ensures r.files[p] == b
    ensures forall q :: q in fs.files && q != p ==> r.files[q] == fs.files[q]
    ensures fs.Valid() ==> r.Valid()
  {
    fs.(files := fs.files[p := b])
  }

  /** The directories `dest + f[..k]`: every folder on the way from `dest` down to `f`. */
  function Ancestors(dest: Path, f: Path, upTo: nat): (r: set<Path>)
    requires upTo <= |f|
    ensures forall k :: 0 <= k <= upTo ==> dest + f[..k] in r
    ensures forall q :: q in r ==> exists k :: 0 <= k <= upTo && q == dest + f[..k]
  {
    set k | 0 <= k <= upTo :: dest + f[..k]
  }

  /** The directories extraction of `z` into `dest` creates (with `dest` and its parents). */
  function UnpackedDirs(dest: Path, z: Blob): (r: set<Path>)
    requires z.Zip?
  {
    (set k | 0 < k <= |dest| :: dest[..k])
    + (set f, q | f in z.folders && q in Ancestors(dest, f, |f|) :: q)
    + (set m, q | m in z.members && q in Parents(dest, m) :: q)
  }

  /** The folders above the file `dest + m`. */
  function Parents(dest: Path, m: Path): set<Path>
  {
    if m == [] then {} else Ancestors(dest, m, |m| - 1)
  }

  /** The files extraction of `z` into `dest` writes. */
  function UnpackedFiles(dest: Path, z: Blob): (r: set<Path>)
    requires z.Zip?
    ensures forall m :: m in z.members ==> dest + m in r
  {
    set m | m in z.members :: dest + m
  }

  /** Extraction raises nothing: a file of the archive never lands on a directory, nor a directory on a file. */
  predicate CanUnpack(fs: Snapshot, zipPath: Path, dest: Path)
  {
    && zipPath in fs.files && fs.files[zipPath].Zip?
    && var z := fs.files[zipPath];
    && UnpackedDirs(dest, z) !! fs.files.Keys
    && UnpackedFiles(dest, z) !! fs.dirs
    && UnpackedFiles(dest, z) !! UnpackedDirs(dest, z)
  }

  /** The filesystem after `zipfile.ZipFile(zipPath).extractall(dest)`. */
  function Unpacked(fs: Snapshot, zipPath: Path, dest: Path): (r: Snapshot)
    requires CanUnpack(fs, zipPath, dest)
    ensures fs.dirs <= r.dirs && fs.files.Keys <= r.files.Keys
    ensures var z := fs.files[zipPath];
      forall m :: m in z.members ==> dest + m in r.files && r.files[dest + m] == Text(z.members[m])
    ensures var z := fs.files[zipPath];
      forall f :: f in z.folders ==> dest + f in r.dirs
    ensures forall q :: q in fs.files && q !in UnpackedFiles(dest, fs.files[zipPath]) ==> r.files[q] == fs.files[q]
    ensures fs.Valid() ==> r.Valid()
  {
    var z := fs.files[zipPath];
    var written := UnpackedFiles(dest, z);
    var files := map q | q in fs.files.Keys + written ::
      if q in written then Text(z.members[q[|dest|..]]) else fs.files[q];
    forall f | f in z.folders
      ensures dest + f in UnpackedDirs(dest, z)
    {
      assert f[..|f|] == f;
      assert dest + f in Ancestors(dest, f, |f|);
    }
    forall m | m in z.members
      ensures dest + m in written && files[dest + m] == Text(z.members[m])
    {
      assert (dest + m)[|dest|..] == m;
    }
    Snapshot(fs.dirs + UnpackedDirs(dest, z), files)
  }

  /** Where `extract_zip` unpacks: `extract_to`, or else the folder holding the archive. */
  function ExtractTarget(zipPath: Path, extractTo: Option<Path>): (dest: Path)
    ensures extractTo.Some? ==> dest == extractTo.value
    ensures extractTo.None? && zipPath != [] ==> Join(dest, Basename(zipPath)) == zipPath
  {
    match extractTo
    case Some(d) => d
    case None => Dirname(zipPath)
  }

  /** The one mutable filesystem. */
  class Disk {
    var dirs: set<Path>
    var files: map<Path, Blob>

    function Snap(): Snapshot
      reads this
    {
      Snapshot(dirs, files)
    }

    ghost predicate Valid()
      reads this
    {
      Snap().Valid()
    }

    constructor (fs: Snapshot)
      requires fs.Valid()
      ensures Valid() && Snap() == fs
    {
      dirs := fs.dirs;
      files := fs.files;
    }

    /** `create_folder_if_not_exist(p)`. */
    method MakeDirectory(p: Path)
      requires Valid()
      modifies this
      ensures Valid()
      ensures Snap() == MadeDirectory(old(Snap()), p)
    {
      if !(p in dirs || p in files) {
        dirs := dirs + {p};
      }
    }

    /** `os.remove(p)`; the source only calls it on an existing file. */
    method Remove(p: Path)
      requires Valid() && p in files
      modifies this
      ensures Valid()
      ensures Snap() == RemovedFile(old(Snap()), p)
    {
      files := files - {p};
    }

    /** `open(p, 'w')` and write `b`; `ok` is false when opening raises (nothing changes then). */
    method WriteBlob(p: Path, b: Blob) returns (ok: bool)
      requires Valid()
      modifies this
      ensures Valid()
      ensures ok == CanCreateFile(old(Snap()), p)
      ensures Snap() == if ok then WrittenFile(old(Snap()), p, b) else old(Snap())
    {
      ok := p != [] && Dirname(p) in dirs && p !in dirs;
      if ok {
        files := files[p := b];
      }
    }

    /** `os.listdir(folder)`: the entries in an order the operating system chooses. */
    method ListDir(folder: Path) returns (names: seq<string>)
      ensures IsListing(Snap(), folder, names)
    {
      var left := Entries(Snap(), folder);
      names := [];
      while left != {}
        invariant forall n :: n in names ==> IsEntry(Snap(), folder, n) && n !in left
        invariant forall n :: IsEntry(Snap(), folder, n) ==> n in names || n in left
        invariant left <= Entries(Snap(), folder)
        invariant Distinct(names)
        decreases |left|
      {
        var n :| n in left;
        names := names + [n];
        left := left - {n};
      }
    }
  }

  /**
   * `extract_zip(zip_path, extract_to)`. `ok` is false when the archive
   * cannot be opened or extracted (the exception escapes the source
   * function). On success the Python function returns None.
   */
  method ExtractZip(disk: Disk, zipPath: Path, extractTo: Option<Path>) returns (ok: bool)
    requires disk.Valid()
    modifies disk
    ensures disk.Valid()
    ensures ok == CanUnpack(old(disk.Snap()), zipPath, ExtractTarget(zipPath, extractTo))
    ensures disk.Snap() ==
      if ok then Unpacked(old(disk.Snap()), zipPath, ExtractTarget(zipPath, extractTo)) else old(disk.Snap())
  {
    var dest := ExtractTarget(zipPath, extractTo);
    ok := CanUnpack(disk.Snap(), zipPath, dest);
    if ok {
      var after := Unpacked(disk.Snap(), zipPath, dest);
      disk.dirs, disk.files := after.dirs, after.files;
    }
  }

  /** A Maya version as the callers pass it: an integer from the command line, or text. */
  datatype HostVersion = Number(n: int) | Named(text: string)

  function Digit(d: nat): (c: char)
    requires d < 10
    ensures '0' <= c <= '9'
  {
    (48 + d) as char
  }

  predicate IsDigits(s: string)
  {
    forall i :: 0 <= i < |s| ==> '0' <= s[i] <= '9'
  }

  /** Decimal text of a natural number, as `str` writes it. */
  function NatText(n: nat): (s: string)
    ensures |s| > 0 && IsDigits(s)
    ensures n >= 10 ==> |s| >= 2
  {
    if n < 10 then [Digit(n)] else NatText(n / 10) + [Digit(n % 10)]
  }

  /** `str(n)` for an `int`. */
  function IntText(n: int): string
  {
    if n < 0 then "-" + NatText(-n) else NatText(n)
  }

  /** `str(version_number)`. */
  function VersionText(v: HostVersion): string
  {
    match v
    case Number(n) => IntText(n)
    case Named(t) => t
  }

  /** Different numbers have different decimal texts. */
  lemma {:induction false} NatTextInjective(a: nat, b: nat)
    ensures NatText(a) == NatText(b) ==> a == b
    decreases a
  {
    if NatText(a) == NatText(b) && a >= 10 && b >= 10 {
      var sa, sb := NatText(a), NatText(b);
      assert sa[..|sa| - 1] == NatText(a / 10) && sb[..|sb| - 1] == NatText(b / 10);
      assert sa[|sa| - 1] == Digit(a % 10) && sb[|sb| - 1] == Digit(b % 10);
      NatTextInjective(a / 10, b / 10);
    }
  }

  lemma IntTextInjective(a: int, b: int)
    ensures IntText(a) == IntText(b) ==> a == b
  {
    // The sign shows in the first character.
    assert (IntText(a)[0] == '-') == (a < 0);
    assert (IntText(b)[0] == '-') == (b < 0);
    if IntText(a) == IntText(b) {
      if a < 0 && b < 0 {
        assert NatText(-a) == IntText(a)[1..] && NatText(-b) == IntText(b)[1..];
        NatTextInjective(-a, -b);
      } else if a >= 0 && b >= 0 {
        NatTextInjective(a, b);
      }
    }
  }

  /** `get_maya_module_folder(version_number)`: `~/Documents/maya/{version}/modules`. */
  function ModuleFolder(home: Path, v: HostVersion): Path
  {
    Join(Join(Join(Join(home, "Documents"), "maya"), VersionText(v)), "modules")
  }

  /** The folder depends only on the text of the version: the CLI's `2023` and the UI's `"2023"` agree. */
  lemma ModuleFolderByText(home: Path, a: HostVersion, b: HostVersion)
    ensures ModuleFolder(home, a) == ModuleFolder(home, b) <==> VersionText(a) == VersionText(b)
  {
    if ModuleFolder(home, a) == ModuleFolder(home, b) {
      assert ModuleFolder(home, a)[|home| + 2] == VersionText(a);
      assert ModuleFolder(home, b)[|home| + 2] == VersionText(b);
    }
  }

  /** One module folder per Maya version number. */
  lemma ModuleFolderPerVersion(home: Path, a: int, b: int)
    ensures ModuleFolder(home, Number(a)) == ModuleFolder(home, Number(b)) <==> a == b
  {
    ModuleFolderByText(home, Number(a), Number(b));
    IntTextInjective(a, b);
  }

  /** A version given as the number 2023 and one given as the text "2023" share a module folder. */
  lemma ModuleFolderNumberOrText(home: Path)
    ensures ModuleFolder(home, Number(2023)) == ModuleFolder(home, Named("2023"))
  {
    assert NatText(2) == "2";
    assert NatText(20) == "20";
    assert NatText(202) == "202";
    assert NatText(2023) == "2023";
    ModuleFolderByText(home, Number(2023), Named("2023"));
  }
}

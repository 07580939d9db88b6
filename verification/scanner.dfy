/** The project scanner: a depth-bounded, depth-first walk over a directory
    tree that records files, directories and file extensions while skipping
    ignored and hidden names, plus the lookup of "special" files at the root.

    The file system is replaced by an abstract tree. A directory's listing is
    either the sequence of its entries, in the order the listing yields them, or
    `Unreadable` when listing it fails with a permission error. Existence checks
    for special files become a set of the relative paths that exist under the
    root. */
module Scanner {
  import opened Text
  import opened Wrappers
  import Ordering
  import FileTree

  datatype Listing = Unreadable | Entries(items: seq<Node>)

  /** An entry of a listing: a regular file, a directory, or something that is
      neither (a socket, a dangling link), which the walk passes over. */
  datatype Node = File(name: string) | Dir(name: string, listing: Listing) | Other(name: string)

  // ---------------------------------------------------------------------------
  // Skipped names
  // ---------------------------------------------------------------------------

  const IgnoreDirs: set<string> := {
    "__pycache__", ".git", ".github", "node_modules", "venv", "env",
    ".venv", "dist", "build", ".next", ".nuxt", "target", "bin", "obj",
    ".idea", ".vscode", ".DS_Store", "coverage", ".pytest_cache",
    "__MACOSX", ".mypy_cache", ".tox"
  }

  const IgnoreFiles: set<string> := {
    ".DS_Store", "Thumbs.db", ".gitignore", ".gitattributes",
    "package-lock.json", "yarn.lock", "poetry.lock", "Pipfile.lock"
  }

  /** The two hidden names the walk keeps. */
  const AllowedDotfiles: set<string> := {".env.example", ".editorconfig"}

  /** An entry is passed over when its name is ignored, or when it is hidden
      (starts with '.') and is not one of the allowed dotfiles. */
  predicate IsSkipped(name: string) {
    || name in IgnoreDirs
    || name in IgnoreFiles
    || (|name| > 0 && name[0] == '.' && name !in AllowedDotfiles)
  }

  // ---------------------------------------------------------------------------
  // The walk
  // ---------------------------------------------------------------------------

  /** What a walk records: files and directories in the order of discovery, and
      the set of extensions seen. */
  datatype Walk = Walk(files: seq<Path>, dirs: seq<Path>, exts: set<string>)

  const NoWalk: Walk := Walk([], [], {})

  function Then(a: Walk, b: Walk): Walk {
    Walk(a.files + b.files, a.dirs + b.dirs, a.exts + b.exts)
  }

  /** `p` lies strictly below `parent`, at most `levels` segments further down,
      and none of the segments it adds is a skipped name. */
  ghost predicate Below(parent: Path, p: Path, levels: int) {
    && |parent| < |p| <= |parent| + levels
    && p[..|parent|] == parent
    && forall k :: |parent| <= k < |p| ==> !IsSkipped(p[k])
  }

  /** Every recorded path lies below `parent` within `levels` levels, and the
      recorded extensions are exactly the non-empty suffixes of recorded files. */
  ghost predicate Recorded(w: Walk, parent: Path, levels: int) {
    && AllBelow(w.files, parent, levels)
    && AllBelow(w.dirs, parent, levels)
    && ExtensionsOf(w.exts, w.files)
  }

  ghost predicate AllBelow(ps: seq<Path>, parent: Path, levels: int) {
    forall p :: p in ps ==> Below(parent, p, levels)
  }

  /** `exts` holds exactly the non-empty suffixes of the names of `files`. */
  ghost predicate ExtensionsOf(exts: set<string>, files: seq<Path>) {
    forall e :: e in exts <==> e != "" && exists f :: f in files && Suffix(Name(f)) == e
  }

  lemma BelowExtend(parent: Path, n: string, p: Path, levels: int)
    requires !IsSkipped(n)
    requires Below(parent + [n], p, levels)
    ensures Below(parent, p, levels + 1)
  {
    assert p[..|parent|] == p[..|parent| + 1][..|parent|];
  }

  lemma RecordedThen(a: Walk, b: Walk, parent: Path, levels: int)
    requires Recorded(a, parent, levels) && Recorded(b, parent, levels)
    ensures Recorded(Then(a, b), parent, levels)
  {
  }

  /** A recorded file, with its suffix when it has one. */
  function FileWalk(f: Path): Walk {
    Walk([f], [], if Suffix(Name(f)) != "" then {Suffix(Name(f))} else {})
  }

  lemma FileRecorded(parent: Path, n: string, levels: int)
    requires !IsSkipped(n) && levels >= 1
    ensures Recorded(FileWalk(parent + [n]), parent, levels)
  {
    var f := parent + [n];
    assert f[..|parent|] == parent;
  }

  lemma DirRecorded(parent: Path, n: string, sub: Walk, levels: int)
    requires !IsSkipped(n) && levels >= 0
    requires Recorded(sub, parent + [n], levels)
    ensures Recorded(Then(Walk([], [parent + [n]], {}), sub), parent, levels + 1)
  {
    var d := parent + [n];
    var w := Then(Walk([], [d], {}), sub);
    assert w.files == sub.files && w.exts == sub.exts && w.dirs == [d] + sub.dirs;
    assert d[..|parent|] == parent;
    forall p | p in sub.files + sub.dirs
      ensures Below(parent, p, levels + 1)
    {
      BelowExtend(parent, n, p, levels);
    }
    assert AllBelow(w.files, parent, levels + 1);
    assert AllBelow(w.dirs, parent, levels + 1);
    assert ExtensionsOf(w.exts, w.files);
  }

  /** `_scan_recursive(path, depth)`: nothing when the depth bound is exceeded or
      the listing fails, otherwise the walk of the listing's entries. */
  function ScanDir(path: Path, listing: Listing, depth: int, maxDepth: int): (r: Walk)
    ensures Recorded(r, path, maxDepth - depth + 1)
    decreases listing, 0
  {
    if depth > maxDepth then NoWalk
    else match listing
      case Unreadable => NoWalk
      case Entries(items) => WalkEntries(path, items, depth, maxDepth)
  }

  function WalkEntries(parent: Path, items: seq<Node>, depth: int, maxDepth: int): (r: Walk)
    requires depth <= maxDepth
    ensures Recorded(r, parent, maxDepth - depth + 1)
    decreases items, 0
  {
    if |items| == 0 then NoWalk
    else
      var w := Then(WalkItem(parent, items[0], depth, maxDepth), WalkEntries(parent, items[1..], depth, maxDepth));
      RecordedThen(WalkItem(parent, items[0], depth, maxDepth), WalkEntries(parent, items[1..], depth, maxDepth), parent, maxDepth - depth + 1);
      w
  }

  /** One entry of a listing at `depth`: a file is recorded with its suffix, a
      directory is recorded and then descended into at `depth + 1`. */
  function WalkItem(parent: Path, item: Node, depth: int, maxDepth: int): (r: Walk)
    requires depth <= maxDepth
    ensures Recorded(r, parent, maxDepth - depth + 1)
    decreases item, 0
  {
    if IsSkipped(item.name) then NoWalk
    else match item
      case File(n) =>
        FileRecorded(parent, n, maxDepth - depth + 1);
        FileWalk(parent + [n])
      case Dir(n, listing) => WalkDir(parent, n, listing, depth, maxDepth)
      case Other(_) => NoWalk
  }

  /** A directory entry that is not skipped: the directory itself, then its walk
      one level deeper. */
  function WalkDir(parent: Path, n: string, listing: Listing, depth: int, maxDepth: int): (r: Walk)
    requires !IsSkipped(n) && depth <= maxDepth
    ensures Recorded(r, parent, maxDepth - depth + 1)
    decreases listing, 1
  {
    var sub := ScanDir(parent + [n], listing, depth + 1, maxDepth);
    DirRecorded(parent, n, sub, maxDepth - depth);
    Then(Walk([], [parent + [n]], {}), sub)
  }

  // ---------------------------------------------------------------------------
  // What the walk reaches
  // ---------------------------------------------------------------------------

  /** The recorded files, or the recorded directories, of a walk. */
  function Chosen(w: Walk, files: bool): seq<Path> {
    if files then w.files else w.dirs
  }

  /** A reference description of what the walk records, independent of its
      order: `rel` leads, segment by segment, from a listing at `depth` to a file
      (or, when `wantFile` is false, a directory). Every segment names a
      non-skipped entry, every listing on the way was read successfully, and
      every listing read lies within the depth bound. */
  ghost predicate Reaches(listing: Listing, rel: Path, wantFile: bool, depth: int, maxDepth: int)
    decreases listing, 0
  {
    && depth <= maxDepth
    && listing.Entries?
    && exists i :: 0 <= i < |listing.items| && ReachesVia(listing.items[i], rel, wantFile, depth, maxDepth)
  }

  ghost predicate ReachesVia(item: Node, rel: Path, wantFile: bool, depth: int, maxDepth: int)
    decreases item, 0
  {
    && |rel| >= 1
    && item.name == rel[0]
    && !IsSkipped(rel[0])
    && if |rel| == 1 then (if wantFile then item.File? else item.Dir?)
       else item.Dir? && Reaches(item.listing, rel[1..], wantFile, depth + 1, maxDepth)
  }

  /** The walk of a listing records `path + rel` exactly when `rel` is reachable
      from that listing: nothing hidden, ignored, unreadable or too deep is
      recorded, and nothing else is missed. */
  lemma {:induction false} ScanDirComplete(path: Path, listing: Listing, depth: int, maxDepth: int, rel: Path, wantFile: bool)
    ensures path + rel in Chosen(ScanDir(path, listing, depth, maxDepth), wantFile)
        <==> Reaches(listing, rel, wantFile, depth, maxDepth)
    decreases listing, 0
  {
    if depth <= maxDepth && listing.Entries? {
      WalkEntriesComplete(path, listing.items, depth, maxDepth, rel, wantFile);
    }
  }

  lemma {:induction false} WalkEntriesComplete(parent: Path, items: seq<Node>, depth: int, maxDepth: int, rel: Path, wantFile: bool)
    requires depth <= maxDepth
    ensures parent + rel in Chosen(WalkEntries(parent, items, depth, maxDepth), wantFile)
        <==> exists i :: 0 <= i < |items| && ReachesVia(items[i], rel, wantFile, depth, maxDepth)
    decreases items, 0
  {
    if |items| > 0 {
      WalkItemComplete(parent, items[0], depth, maxDepth, rel, wantFile);
      WalkEntriesComplete(parent, items[1..], depth, maxDepth, rel, wantFile);
      if exists i :: 0 <= i < |items| && ReachesVia(items[i], rel, wantFile, depth, maxDepth) {
        var i :| 0 <= i < |items| && ReachesVia(items[i], rel, wantFile, depth, maxDepth);
        if i > 0 {
          assert items[1..][i - 1] == items[i];
        }
      }
    }
  }

  lemma {:induction false} WalkItemComplete(parent: Path, item: Node, depth: int, maxDepth: int, rel: Path, wantFile: bool)
    requires depth <= maxDepth
    ensures parent + rel in Chosen(WalkItem(parent, item, depth, maxDepth), wantFile)
        <==> ReachesVia(item, rel, wantFile, depth, maxDepth)
    decreases item, 0
  {
    if !IsSkipped(item.name) {
      match item
      case File(n) =>
        WalkFileComplete(parent, n, rel, wantFile);
      case Dir(n, listing) =>
        WalkDirComplete(parent, n, listing, depth, maxDepth, rel, wantFile);
      case Other(_) =>
    }
  }

  lemma WalkFileComplete(parent: Path, n: string, rel: Path, wantFile: bool)
    ensures parent + rel in Chosen(FileWalk(parent + [n]), wantFile)
        <==> wantFile && rel == [n]
  {
    assert Chosen(FileWalk(parent + [n]), wantFile) == (if wantFile then [parent + [n]] else []);
    if parent + rel == parent + [n] {
      assert rel == (parent + rel)[|parent|..];
    }
  }

  lemma {:induction false} WalkDirComplete(parent: Path, n: string, listing: Listing, depth: int, maxDepth: int, rel: Path, wantFile: bool)
    requires !IsSkipped(n) && depth <= maxDepth
    ensures parent + rel in Chosen(WalkDir(parent, n, listing, depth, maxDepth), wantFile)
        <==> && |rel| >= 1 && rel[0] == n
             && if |rel| == 1 then !wantFile else Reaches(listing, rel[1..], wantFile, depth + 1, maxDepth)
    decreases listing, 1
  {
    var d := parent + [n];
    var sub := ScanDir(d, listing, depth + 1, maxDepth);
    var p := parent + rel;
    assert Chosen(WalkDir(parent, n, listing, depth, maxDepth), wantFile)
        == (if wantFile then [] else [d]) + Chosen(sub, wantFile);
    if |rel| >= 1 && rel[0] == n {
      assert p == d + rel[1..];
      ScanDirComplete(d, listing, depth + 1, maxDepth, rel[1..], wantFile);
      if |rel| == 1 {
        assert p == d && !Below(d, p, maxDepth - depth);
      }
    } else {
      if |rel| == 0 {
        assert |p| < |d|;
      } else {
        assert p[|parent|] == rel[0] != n == d[|parent|];
      }
      assert p != d && !Below(d, p, maxDepth - depth);
    }
  }

  // ---------------------------------------------------------------------------
  // Special files
  // ---------------------------------------------------------------------------

  /** For each of the nine categories, its candidate file names in priority order. */
  const SpecialCandidates: map<string, seq<string>> := map[
    "readme" := ["README.md", "README.rst", "README.txt", "README"],
    "license" := ["LICENSE", "LICENSE.md", "LICENSE.txt", "COPYING"],
    "requirements" := ["requirements.txt", "Pipfile", "pyproject.toml", "setup.py"],
    "package" := ["package.json", "Cargo.toml", "go.mod", "pom.xml", "build.gradle"],
    "config" := [".env.example", "config.yml", "config.json", "settings.py"],
    "docker" := ["Dockerfile", "docker-compose.yml", ".dockerignore"],
    "ci" := [".github/workflows", ".gitlab-ci.yml", ".travis.yml", "Jenkinsfile"],
    "makefile" := ["Makefile", "makefile"],
    "changelog" := ["CHANGELOG.md", "CHANGELOG.rst", "HISTORY.md"]
  ]

  /** The first candidate that exists, if any. */
  function FirstPresent(candidates: seq<string>, present: set<string>): (r: Option<string>)
    ensures r.None? <==> forall i :: 0 <= i < |candidates| ==> candidates[i] !in present
    ensures r.Some? ==> r.value in present && exists i ::
      && 0 <= i < |candidates|
      && candidates[i] == r.value
      && forall j :: 0 <= j < i ==> candidates[j] !in present
  {
    if |candidates| == 0 then None
    else if candidates[0] in present then Some(candidates[0])
    else
      var r := FirstPresent(candidates[1..], present);
      assert forall i :: 1 <= i < |candidates| ==> candidates[i] == candidates[1..][i - 1];
      r
  }

  /** `_find_special_files`: each category that has an existing candidate maps to
      its first existing candidate in priority order; no other key appears.
      `present` holds the paths, relative to the root, that exist. */
  function FindSpecialFiles(present: set<string>): (r: map<string, string>)
    ensures r.Keys <= SpecialCandidates.Keys
    ensures forall k :: k in SpecialCandidates ==>
      (k in r <==> exists c :: c in SpecialCandidates[k] && c in present)
    ensures forall k :: k in r ==> r[k] in present && exists i ::
      && 0 <= i < |SpecialCandidates[k]|
      && SpecialCandidates[k][i] == r[k]
      && forall j :: 0 <= j < i ==> SpecialCandidates[k][j] !in present
  {
    map k | k in SpecialCandidates && FirstPresent(SpecialCandidates[k], present).Some?
      :: FirstPresent(SpecialCandidates[k], present).value
  }

  // ---------------------------------------------------------------------------
  // The scan
  // ---------------------------------------------------------------------------

  /** The record `scan()` returns. */
  datatype ScanResult = ScanResult(
    projectPath: Path,
    projectName: string,
    files: seq<Path>,
    directories: seq<Path>,
    fileCount: nat,
    dirCount: nat,
    extensions: seq<string>,
    fileTree: string,
    specialFiles: map<string, string>)

  /** The default depth bound of the walk and the default file cap of the tree. */
  const MaxDepth: int := 10
  const MaxTreeFiles: nat := 50

  /** `scan()`: walk the root's listing from depth 0, then derive the counts, the
      sorted extensions, the tree rendering and the special files. */
  function Scan(root: Path, listing: Listing, present: set<string>): (r: ScanResult)
    ensures r.projectPath == root && r.projectName == Name(root)
    ensures r.fileCount == |r.files| && r.dirCount == |r.directories|
    ensures forall p :: p in r.files ==> Below(root, p, MaxDepth + 1)
    ensures forall p :: p in r.directories ==> Below(root, p, MaxDepth + 1)
    ensures forall rel :: root + rel in r.files <==> Reaches(listing, rel, true, 0, MaxDepth)
    ensures forall rel :: root + rel in r.directories <==> Reaches(listing, rel, false, 0, MaxDepth)
    ensures forall e :: e in r.extensions <==> e != "" && exists f :: f in r.files && Suffix(Name(f)) == e
    ensures forall i, j :: 0 <= i < j < |r.extensions| ==> Ordering.StrLess(r.extensions[i], r.extensions[j])
    ensures r.specialFiles == FindSpecialFiles(present)
  {
    var w := ScanDir(root, listing, 0, MaxDepth);
    ScanComplete(root, listing);
    assert forall f :: f in w.files ==> FileTree.UnderRoot(root, f);
    ScanResult(
      root, Name(root), w.files, w.dirs, |w.files|, |w.dirs|,
      Ordering.SortedSet(w.exts),
      FileTree.GenerateTree(root, w.files, MaxTreeFiles),
      FindSpecialFiles(present))
  }

  lemma ScanComplete(root: Path, listing: Listing)
    ensures forall rel :: root + rel in ScanDir(root, listing, 0, MaxDepth).files <==> Reaches(listing, rel, true, 0, MaxDepth)
    ensures forall rel :: root + rel in ScanDir(root, listing, 0, MaxDepth).dirs <==> Reaches(listing, rel, false, 0, MaxDepth)
  {
    forall rel
      ensures root + rel in ScanDir(root, listing, 0, MaxDepth).files <==> Reaches(listing, rel, true, 0, MaxDepth)
      ensures root + rel in ScanDir(root, listing, 0, MaxDepth).dirs <==> Reaches(listing, rel, false, 0, MaxDepth)
    {
      ScanDirComplete(root, listing, 0, MaxDepth, rel, true);
      ScanDirComplete(root, listing, 0, MaxDepth, rel, false);
    }
  }
}

/** The capped text rendering of the scanned files: the files are ordered by
    (number of segments, path text), the first `maxFiles` of them are grouped by
    their parent directory relative to the root, and each group is listed under
    a directory line, followed by an overflow line when files were cut. */
module FileTree {
  import opened Text
  import opened Ordering

  /** One line of the rendering, before it becomes text. */
  datatype Line =
    | RootLine(name: string)
    | DirLine(level: nat, name: string)
    | FileLine(level: nat, name: string)
    | MoreLine(count: nat)

  // ---------------------------------------------------------------------------
  // Choosing the files
  // ---------------------------------------------------------------------------

  /** The sort key `(len(p.parts), str(p))`, compared as a Python tuple. */
  predicate KeyLeq(a: Path, b: Path) {
    |a| < |b| || (|a| == |b| && StrLeq(PathText(a), PathText(b)))
  }

  lemma KeyLeqIsTotalPreorder()
    ensures TotalPreorder(KeyLeq)
  {
    StrLeqIsTotalPreorder();
  }

  /** `sorted(files, key=...)[:maxFiles]`: the `maxFiles` smallest files by key,
      in key order. */
  function Selected(files: seq<Path>, maxFiles: nat): (r: seq<Path>)
    ensures |r| == Min(maxFiles, |files|)
    ensures multiset(r) <= multiset(files)
    ensures SortedBy(r, KeyLeq)
    ensures forall x, y :: x in r && y in multiset(files) - multiset(r) ==> KeyLeq(x, y)
  {
    KeyLeqIsTotalPreorder();
    var sorted := Sort(files, KeyLeq);
    var k := Min(maxFiles, |files|);
    SplitSorted(sorted, k, KeyLeq);
    sorted[..k]
  }

  /** Cutting a sorted sequence leaves every element of the front below every
      element of the back, and the two parts together are the whole. */
  lemma SplitSorted<T(!new)>(s: seq<T>, k: nat, leq: (T, T) -> bool)
    requires SortedBy(s, leq) && k <= |s|
    ensures multiset(s) - multiset(s[..k]) == multiset(s[k..])
    ensures forall x, y :: x in s[..k] && y in multiset(s[k..]) ==> leq(x, y)
  {
    assert s == s[..k] + s[k..];
    forall x, y | x in s[..k] && y in multiset(s[k..])
      ensures leq(x, y)
    {
      var i :| 0 <= i < k && s[i] == x;
      assert y in s[k..];
      var j :| k <= j < |s| && s[j] == y;
    }
  }

  // ---------------------------------------------------------------------------
  // Grouping
  // ---------------------------------------------------------------------------

  /** A path lies strictly below the root. */
  predicate UnderRoot(root: Path, f: Path) {
    |f| > |root| && f[..|root|] == root
  }

  /** `file.relative_to(root)` for every file. */
  function Relative(root: Path, files: seq<Path>): (r: seq<Path>)
    requires forall i :: 0 <= i < |files| ==> UnderRoot(root, files[i])
    ensures |r| == |files|
    ensures forall i :: 0 <= i < |r| ==> root + r[i] == files[i] && |r[i]| >= 1
  {
    var r := seq(|files|, i requires 0 <= i < |files| => assert UnderRoot(root, files[i]); files[i][|root|..]);
    forall i | 0 <= i < |r|
      ensures root + r[i] == files[i] && |r[i]| >= 1
    {
      assert UnderRoot(root, files[i]);
      assert files[i] == files[i][..|root|] + files[i][|root|..];
    }
    r
  }

  /** The parent directory of every relative path, in order. */
  function Parents(rels: seq<Path>): (r: seq<Path>)
    ensures |r| == |rels|
    ensures forall i :: 0 <= i < |rels| ==> r[i] == Parent(rels[i])
  {
    seq(|rels|, i requires 0 <= i < |rels| => Parent(rels[i]))
  }

  /** How Python orders the grouping keys: a `Path` compares by its text split on
      "/", so the root group, whose text is ".", compares as ["."]. */
  function GroupKey(g: Path): seq<string> {
    if g == [] then ["."] else g
  }

  predicate GroupLeq(a: Path, b: Path) {
    !LexLess(GroupKey(b), GroupKey(a), StrLess)
  }

  lemma GroupLeqIsTotalPreorder()
    ensures TotalPreorder(GroupLeq)
  {
    StrLessIsStrictTotal();
    forall a: Path, b: Path
      ensures GroupLeq(a, b) || GroupLeq(b, a)
    {
      LexTransitive(GroupKey(a), GroupKey(b), GroupKey(a), StrLess);
      LexIrreflexive(GroupKey(a), StrLess);
    }
    forall a: Path, b: Path, c: Path | GroupLeq(a, b) && GroupLeq(b, c)
      ensures GroupLeq(a, c)
    {
      LexConnected(GroupKey(a), GroupKey(b), StrLess);
      LexTransitive(GroupKey(c), GroupKey(a), GroupKey(b), StrLess);
    }
  }

  /** `sorted(dir_structure.keys())`: every parent directory once, in key order. */
  function Groups(rels: seq<Path>): (r: seq<Path>)
    ensures Distinct(r)
    ensures forall g :: g in r <==> exists i :: 0 <= i < |rels| && Parent(rels[i]) == g
    ensures SortedBy(r, GroupLeq)
  {
    GroupLeqIsTotalPreorder();
    var parents := Parents(rels);
    var sorted := Sort(parents, GroupLeq);
    assert forall g :: g in sorted <==> g in parents by {
      assert forall g :: g in sorted <==> g in multiset(sorted);
      assert forall g :: g in parents <==> g in multiset(parents);
    }
    DedupKeepsSorted(sorted, GroupLeq);
    Dedup(sorted)
  }

  /** The names of the files whose parent is `g`, in their order in `rels`. */
  function NamesIn(rels: seq<Path>, g: Path): (r: seq<string>)
    ensures |r| <= |rels|
  {
    if |rels| == 0 then []
    else (if Parent(rels[0]) == g then [Name(rels[0])] else []) + NamesIn(rels[1..], g)
  }

  /** How deep a group's file lines are indented: one level below the group's
      directory line, or at the top level for the root group. */
  function FileLevel(g: Path): nat {
    |g| + (if g == [] then 0 else 1)
  }

  /** The lines of one group: a directory line at the group's depth unless it is
      the root group, then one file line per file directly under the group, all
      at `FileLevel(g)`, their names in sorted order. */
  function GroupLines(g: Path, rels: seq<Path>): (r: seq<Line>)
    ensures var start := if g == [] then 0 else 1;
      && |r| == start + |NamesIn(rels, g)|
      && (g != [] ==> r[0] == DirLine(|g|, Name(g)))
      && (forall i :: start <= i < |r| ==> r[i].FileLine? && r[i].level == FileLevel(g))
    ensures SortedBy(FileLineNames(r), StrLeq)
    ensures multiset(FileLineNames(r)) == multiset(NamesIn(rels, g))
  {
    StrLeqIsTotalPreorder();
    var names := Sort(NamesIn(rels, g), StrLeq);
    var r := (if g == [] then [] else [DirLine(|g|, Name(g))])
      + seq(|names|, i requires 0 <= i < |names| => FileLine(FileLevel(g), names[i]));
    GroupShape(g, names, r);
    assert |names| == |NamesIn(rels, g)| by {
      assert |multiset(names)| == |multiset(NamesIn(rels, g))|;
    }
    r
  }

  /** An optional directory line followed by one file line per name: the file
      lines carry exactly those names, in that order. */
  lemma GroupShape(g: Path, names: seq<string>, r: seq<Line>)
    requires r == (if g == [] then [] else [DirLine(|g|, Name(g))])
      + seq(|names|, i requires 0 <= i < |names| => FileLine(FileLevel(g), names[i]))
    ensures var start := if g == [] then 0 else 1;
      && |r| == start + |names|
      && (g != [] ==> r[0] == DirLine(|g|, Name(g)))
      && (forall i :: start <= i < |r| ==> r[i].FileLine? && r[i].level == FileLevel(g))
    ensures FileLineNames(r) == names
  {
    var head: seq<Line> := if g == [] then [] else [DirLine(|g|, Name(g))];
    var files := seq(|names|, i requires 0 <= i < |names| => FileLine(FileLevel(g), names[i]));
    FileLineNamesOfFiles(FileLevel(g), names);
    FileLineNamesAppend(head, files);
    assert FileLineNames(head) == [] by {
      if g != [] {
        assert head[1..] == [];
      }
    }
  }

  function GroupsLines(gs: seq<Path>, rels: seq<Path>): seq<Line> {
    if |gs| == 0 then [] else GroupLines(gs[0], rels) + GroupsLines(gs[1..], rels)
  }

  // ---------------------------------------------------------------------------
  // The rendering
  // ---------------------------------------------------------------------------

  function CountFileLines(lines: seq<Line>): nat {
    if |lines| == 0 then 0
    else (if lines[0].FileLine? then 1 else 0) + CountFileLines(lines[1..])
  }

  function CountMoreLines(lines: seq<Line>): nat {
    if |lines| == 0 then 0
    else (if lines[0].MoreLine? then 1 else 0) + CountMoreLines(lines[1..])
  }

  /** The names on the file lines, in order. */
  function FileLineNames(lines: seq<Line>): seq<string> {
    if |lines| == 0 then []
    else (if lines[0].FileLine? then [lines[0].name] else []) + FileLineNames(lines[1..])
  }

  /** The last segment of every path, in order. */
  function Names(ps: seq<Path>): (r: seq<string>)
    ensures |r| == |ps|
    ensures forall i :: 0 <= i < |ps| ==> r[i] == Name(ps[i])
  {
    seq(|ps|, i requires 0 <= i < |ps| => Name(ps[i]))
  }

  /** The selected files relative to the root, in selection order. */
  function SelectedRelative(root: Path, files: seq<Path>, maxFiles: nat): (r: seq<Path>)
    requires forall f :: f in files ==> UnderRoot(root, f)
    ensures |r| == Min(maxFiles, |files|)
    ensures forall i :: 0 <= i < |r| ==> root + r[i] == Selected(files, maxFiles)[i]
    ensures Names(r) == Names(Selected(files, maxFiles))
  {
    var chosen := Selected(files, maxFiles);
    forall i | 0 <= i < |chosen|
      ensures UnderRoot(root, chosen[i])
    {
      assert chosen[i] in multiset(chosen);
    }
    RelativeNames(root, chosen);
    Relative(root, chosen)
  }

  /** The group lines for the selected files: the groups in `Groups` order, each
      with its own lines; one file line per selected file, carrying its name,
      and no overflow line. */
  function TreeBody(root: Path, files: seq<Path>, maxFiles: nat): (r: seq<Line>)
    requires forall f :: f in files ==> UnderRoot(root, f)
    ensures var rels := SelectedRelative(root, files, maxFiles); r == GroupsLines(Groups(rels), rels)
    ensures CountFileLines(r) == Min(maxFiles, |files|)
    ensures CountMoreLines(r) == 0
    ensures multiset(FileLineNames(r)) == multiset(Names(Selected(files, maxFiles)))
  {
    var rels := SelectedRelative(root, files, maxFiles);
    var gs := Groups(rels);
    GroupsLinesCount(gs, rels);
    GroupsLinesHaveNoMore(gs, rels);
    AllGroupsCount(gs, rels);
    GroupsFileNames(gs, rels);
    NamesUnderAll(gs, rels);
    GroupsLines(gs, rels)
  }

  /** `_generate_tree(max_files)` as a list of lines: the root line, the lines of
      every group of the selected files in `Groups` order, and a final overflow
      line exactly when files were left out; there are `maxFiles` file lines at
      most, one per selected file. */
  function TreeLines(root: Path, files: seq<Path>, maxFiles: nat): (r: seq<Line>)
    requires forall f :: f in files ==> UnderRoot(root, f)
    ensures |r| >= 1 && r[0] == RootLine(Name(root))
    ensures var rels := SelectedRelative(root, files, maxFiles);
      r == [RootLine(Name(root))] + GroupsLines(Groups(rels), rels) + Overflow(|files|, maxFiles)
    ensures CountFileLines(r) == Min(maxFiles, |files|)
    ensures r[|r| - 1].MoreLine? <==> |files| > maxFiles
    ensures r[|r| - 1].MoreLine? ==> r[|r| - 1].count == |files| - maxFiles
    ensures CountMoreLines(r) == (if |files| > maxFiles then 1 else 0)
    ensures multiset(FileLineNames(r)) == multiset(Names(Selected(files, maxFiles)))
  {
    var body := TreeBody(root, files, maxFiles);
    AssembledTree(Name(root), body, |files|, maxFiles);
    [RootLine(Name(root))] + body + Overflow(|files|, maxFiles)
  }

  /** The overflow line, when more than `maxFiles` files were found. */
  function Overflow(total: nat, maxFiles: nat): seq<Line> {
    if total > maxFiles then [MoreLine(total - maxFiles)] else []
  }

  /** The root line, the group lines and the overflow line together. */
  lemma AssembledTree(rootName: string, body: seq<Line>, total: nat, maxFiles: nat)
    requires CountFileLines(body) == Min(maxFiles, total) && CountMoreLines(body) == 0
    ensures var r := [RootLine(rootName)] + body + Overflow(total, maxFiles);
      && |r| >= 1 && r[0] == RootLine(rootName)
      && CountFileLines(r) == Min(maxFiles, total)
      && (r[|r| - 1].MoreLine? <==> total > maxFiles)
      && (r[|r| - 1].MoreLine? ==> r[|r| - 1].count == total - maxFiles)
      && CountMoreLines(r) == (if total > maxFiles then 1 else 0)
      && FileLineNames(r) == FileLineNames(body)
  {
    var head := [RootLine(rootName)];
    var more := Overflow(total, maxFiles);
    var r := head + body + more;
    CountsAppend(head, body);
    CountsAppend(head + body, more);
    LastIsMore(head + body, more);
    FileLineNamesAppend(head, body);
    FileLineNamesAppend(head + body, more);
    assert FileLineNames(more) == [] by {
      if total > maxFiles {
        assert more[1..] == [];
      }
    }
    assert r[0] == head[0];
    if total > maxFiles {
      assert r[|r| - 1] == MoreLine(total - maxFiles);
      assert more[1..] == [];
    } else {
      assert more == [];
    }
  }

  /** Only the overflow line can end the tree with an overflow line. */
  lemma LastIsMore(front: seq<Line>, more: seq<Line>)
    requires |front| >= 1
    requires CountMoreLines(front) == 0
    ensures var all := front + more; |more| == 0 ==> !all[|all| - 1].MoreLine?
  {
    if |more| == 0 {
      assert front + more == front;
      LastNotMore(front);
    }
  }

  lemma {:induction false} LastNotMore(ls: seq<Line>)
    requires |ls| >= 1 && CountMoreLines(ls) == 0
    ensures !ls[|ls| - 1].MoreLine?
  {
    if |ls| > 1 {
      LastNotMore(ls[1..]);
    }
  }

  const Branch: string := "├── "

  /** The text of one line. The root line is the root's name and a slash; a
      directory or file line is indented two spaces per level, then carries
      the branch mark and the name, a directory's with a trailing slash; the
      overflow line gives the number of files left out. */
  function RenderLine(l: Line): (r: string)
    ensures l.RootLine? ==> r == l.name + "/"
    ensures (l.DirLine? || l.FileLine?) ==>
      && |r| == 2 * l.level + |Branch| + |l.name| + (if l.DirLine? then 1 else 0)
      && (forall i :: 0 <= i < 2 * l.level ==> r[i] == ' ')
      && r[2 * l.level..2 * l.level + |Branch|] == Branch
      && r[2 * l.level + |Branch|..2 * l.level + |Branch| + |l.name|] == l.name
    ensures l.DirLine? ==> r[|r| - 1] == '/'
    ensures l.MoreLine? ==> r == "  ... and " + NatToString(l.count) + " more files"
  {
    match l
    case RootLine(n) => n + "/"
    case DirLine(level, n) => Indent(level) + Branch + n + "/"
    case FileLine(level, n) => Indent(level) + Branch + n
    case MoreLine(c) => "  ... and " + NatToString(c) + " more files"
  }

  function RenderLines(lines: seq<Line>): (r: seq<string>)
    ensures |r| == |lines|
    ensures forall i :: 0 <= i < |lines| ==> r[i] == RenderLine(lines[i])
  {
    seq(|lines|, i requires 0 <= i < |lines| => RenderLine(lines[i]))
  }

  /** The rendered tree: the lines joined by newlines. It starts with the root's
      name and a slash, and it ends with the overflow line when files were cut. */
  function GenerateTree(root: Path, files: seq<Path>, maxFiles: nat): (r: string)
    requires forall f :: f in files ==> UnderRoot(root, f)
    ensures Name(root) + "/" <= r
    ensures |files| > maxFiles ==> var last := RenderLine(MoreLine(|files| - maxFiles));
      |last| <= |r| && r[|r| - |last|..] == last
  {
    var lines := TreeLines(root, files, maxFiles);
    var texts := RenderLines(lines);
    JoinStartsWith(texts, "\n");
    JoinEndsWith(texts, "\n");
    Join(texts, "\n")
  }

  // ---------------------------------------------------------------------------
  // Counting lemmas
  // ---------------------------------------------------------------------------

  lemma {:induction false} CountsAppend(a: seq<Line>, b: seq<Line>)
    ensures CountFileLines(a + b) == CountFileLines(a) + CountFileLines(b)
    ensures CountMoreLines(a + b) == CountMoreLines(a) + CountMoreLines(b)
  {
    if |a| > 0 {
      assert (a + b)[1..] == a[1..] + b;
      CountsAppend(a[1..], b);
    } else {
      assert a + b == b;
    }
  }

  /** The number of file names grouped under each of `gs`, summed. */
  function SumNames(gs: seq<Path>, rels: seq<Path>): nat {
    if |gs| == 0 then 0 else |NamesIn(rels, gs[0])| + SumNames(gs[1..], rels)
  }

  lemma {:induction false} GroupsLinesCount(gs: seq<Path>, rels: seq<Path>)
    ensures CountFileLines(GroupsLines(gs, rels)) == SumNames(gs, rels)
  {
    if |gs| > 0 {
      GroupLinesCount(gs[0], rels);
      CountsAppend(GroupLines(gs[0], rels), GroupsLines(gs[1..], rels));
      GroupsLinesCount(gs[1..], rels);
    }
  }

  lemma {:induction false} GroupsLinesHaveNoMore(gs: seq<Path>, rels: seq<Path>)
    ensures CountMoreLines(GroupsLines(gs, rels)) == 0
  {
    if |gs| > 0 {
      GroupLinesCount(gs[0], rels);
      CountsAppend(GroupLines(gs[0], rels), GroupsLines(gs[1..], rels));
      GroupsLinesHaveNoMore(gs[1..], rels);
    }
  }

  /** One group shows one file line per file name directly under it, and no
      overflow line. */
  lemma GroupLinesCount(g: Path, rels: seq<Path>)
    ensures CountFileLines(GroupLines(g, rels)) == |NamesIn(rels, g)|
    ensures CountMoreLines(GroupLines(g, rels)) == 0
  {
    var r := GroupLines(g, rels);
    var start := if g == [] then 0 else 1;
    CountsAppend(r[..start], r[start..]);
    assert r == r[..start] + r[start..];
    FileLinesCount(r[start..]);
    if g != [] {
      assert r[..start] == [DirLine(|g|, Name(g))];
      assert r[..start][1..] == [];
    }
  }

  /** Lines that are all file lines count as that many file lines and no
      overflow line. */
  lemma {:induction false} FileLinesCount(ls: seq<Line>)
    requires forall i :: 0 <= i < |ls| ==> ls[i].FileLine?
    ensures CountFileLines(ls) == |ls| && CountMoreLines(ls) == 0
  {
    if |ls| > 0 {
      FileLinesCount(ls[1..]);
    }
  }

  /** How many times `x` occurs in `gs`. */
  function Occurrences(gs: seq<Path>, x: Path): nat {
    if |gs| == 0 then 0 else (if gs[0] == x then 1 else 0) + Occurrences(gs[1..], x)
  }

  lemma {:induction false} OccursOnce(gs: seq<Path>, x: Path)
    requires Distinct(gs) && x in gs
    ensures Occurrences(gs, x) == 1
  {
    if gs[0] != x {
      OccursOnce(gs[1..], x);
    } else {
      OccursNot(gs[1..], x);
    }
  }

  lemma {:induction false} OccursNot(gs: seq<Path>, x: Path)
    requires x !in gs
    ensures Occurrences(gs, x) == 0
  {
    if |gs| > 0 {
      OccursNot(gs[1..], x);
    }
  }

  /** Adding one file in front adds one name to exactly the groups equal to its
      parent. */
  lemma {:induction false} SumNamesCons(gs: seq<Path>, rels: seq<Path>)
    requires |rels| >= 1
    ensures SumNames(gs, rels) == Occurrences(gs, Parent(rels[0])) + SumNames(gs, rels[1..])
  {
    if |gs| > 0 {
      SumNamesCons(gs[1..], rels);
    }
  }

  lemma {:induction false} SumNamesNone(gs: seq<Path>, rels: seq<Path>)
    requires |rels| == 0
    ensures SumNames(gs, rels) == 0
  {
    if |gs| > 0 {
      SumNamesNone(gs[1..], rels);
    }
  }

  /** Every file is listed under exactly one group, so the groups together list
      as many names as there are files. */
  lemma {:induction false} SumNamesAll(gs: seq<Path>, rels: seq<Path>)
    requires Distinct(gs)
    requires forall i :: 0 <= i < |rels| ==> Parent(rels[i]) in gs
    ensures SumNames(gs, rels) == |rels|
  {
    if |rels| == 0 {
      SumNamesNone(gs, rels);
    } else {
      SumNamesCons(gs, rels);
      OccursOnce(gs, Parent(rels[0]));
      assert forall i :: 0 <= i < |rels[1..]| ==> rels[1..][i] == rels[i + 1];
      SumNamesAll(gs, rels[1..]);
    }
  }

  lemma AllGroupsCount(gs: seq<Path>, rels: seq<Path>)
    requires gs == Groups(rels)
    ensures SumNames(gs, rels) == |rels|
  {
    SumNamesAll(gs, rels);
  }

  // ---------------------------------------------------------------------------
  // Naming lemmas: the file lines name exactly the selected files
  // ---------------------------------------------------------------------------

  lemma {:induction false} FileLineNamesAppend(a: seq<Line>, b: seq<Line>)
    ensures FileLineNames(a + b) == FileLineNames(a) + FileLineNames(b)
  {
    if |a| > 0 {
      assert (a + b)[1..] == a[1..] + b;
      FileLineNamesAppend(a[1..], b);
    } else {
      assert a + b == b;
    }
  }

  lemma {:induction false} FileLineNamesOfFiles(level: nat, names: seq<string>)
    ensures FileLineNames(seq(|names|, i requires 0 <= i < |names| => FileLine(level, names[i]))) == names
  {
    if |names| > 0 {
      var ls := seq(|names|, i requires 0 <= i < |names| => FileLine(level, names[i]));
      assert ls[1..] == seq(|names[1..]|, i requires 0 <= i < |names[1..]| => FileLine(level, names[1..][i]));
      FileLineNamesOfFiles(level, names[1..]);
      assert names == [names[0]] + names[1..];
    }
  }

  /** Every group but the root group shows its directory line, and every file
      line sits at its group's level. */
  lemma {:induction false} GroupsLinesShowGroups(gs: seq<Path>, rels: seq<Path>)
    ensures forall g :: g in gs && g != [] ==> DirLine(|g|, Name(g)) in GroupsLines(gs, rels)
    ensures forall l :: l in GroupsLines(gs, rels) && l.FileLine? ==> exists g :: g in gs && l.level == FileLevel(g)
  {
    if |gs| > 0 {
      var head := GroupLines(gs[0], rels);
      var rest := GroupsLines(gs[1..], rels);
      GroupsLinesShowGroups(gs[1..], rels);
      assert GroupsLines(gs, rels) == head + rest;
      if gs[0] != [] {
        assert head[0] in GroupsLines(gs, rels);
      }
      forall l | l in GroupsLines(gs, rels) && l.FileLine?
        ensures exists g :: g in gs && l.level == FileLevel(g)
      {
        if l in head {
          var i :| 0 <= i < |head| && head[i] == l;
          assert gs[0] in gs;
        } else {
          var g :| g in gs[1..] && l.level == FileLevel(g);
          assert g in gs;
        }
      }
    }
  }

  /** The names grouped under each of `gs`, one group after another. */
  function NamesUnder(gs: seq<Path>, rels: seq<Path>): seq<string> {
    if |gs| == 0 then [] else NamesIn(rels, gs[0]) + NamesUnder(gs[1..], rels)
  }

  lemma {:induction false} GroupsFileNames(gs: seq<Path>, rels: seq<Path>)
    ensures multiset(FileLineNames(GroupsLines(gs, rels))) == multiset(NamesUnder(gs, rels))
  {
    if |gs| > 0 {
      FileLineNamesAppend(GroupLines(gs[0], rels), GroupsLines(gs[1..], rels));
      GroupsFileNames(gs[1..], rels);
    }
  }

  /** Adding one file in front adds its name under its parent's group, if that
      group is listed, and nowhere else. */
  lemma {:induction false} NamesUnderCons(gs: seq<Path>, rels: seq<Path>)
    requires |rels| >= 1 && Distinct(gs)
    ensures multiset(NamesUnder(gs, rels))
      == multiset(NamesUnder(gs, rels[1..])) + (if Parent(rels[0]) in gs then multiset{Name(rels[0])} else multiset{})
  {
    if |gs| > 0 {
      assert Distinct(gs[1..]);
      NamesUnderCons(gs[1..], rels);
      assert Parent(rels[0]) in gs <==> Parent(rels[0]) == gs[0] || Parent(rels[0]) in gs[1..];
      if Parent(rels[0]) == gs[0] {
        assert gs[0] !in gs[1..];
      }
    }
  }

  lemma {:induction false} NamesUnderNone(gs: seq<Path>, rels: seq<Path>)
    requires |rels| == 0
    ensures NamesUnder(gs, rels) == []
  {
    if |gs| > 0 {
      NamesUnderNone(gs[1..], rels);
    }
  }

  /** When every file's parent is one of the distinct groups, the groups
      together name every file exactly once. */
  lemma {:induction false} NamesUnderAll(gs: seq<Path>, rels: seq<Path>)
    requires Distinct(gs)
    requires forall i :: 0 <= i < |rels| ==> Parent(rels[i]) in gs
    ensures multiset(NamesUnder(gs, rels)) == multiset(Names(rels))
  {
    if |rels| == 0 {
      NamesUnderNone(gs, rels);
    } else {
      var tail := rels[1..];
      assert forall i :: 0 <= i < |tail| ==> Parent(tail[i]) == Parent(rels[i + 1]);
      NamesUnderAll(gs, tail);
      NamesUnderStep(gs, rels);
    }
  }

  lemma NamesUnderStep(gs: seq<Path>, rels: seq<Path>)
    requires |rels| >= 1 && Distinct(gs) && Parent(rels[0]) in gs
    requires multiset(NamesUnder(gs, rels[1..])) == multiset(Names(rels[1..]))
    ensures multiset(NamesUnder(gs, rels)) == multiset(Names(rels))
  {
    var tail := rels[1..];
    var x := Name(rels[0]);
    NamesUnderCons(gs, rels);
    assert Names(rels) == [x] + Names(tail);
    assert multiset([x] + Names(tail)) == multiset(Names(tail)) + multiset{x};
  }

  /** A file and its path relative to the root have the same name. */
  lemma RelativeNames(root: Path, files: seq<Path>)
    requires forall i :: 0 <= i < |files| ==> UnderRoot(root, files[i])
    ensures Names(Relative(root, files)) == Names(files)
  {
    var rels := Relative(root, files);
    forall i | 0 <= i < |files|
      ensures Name(rels[i]) == Name(files[i])
    {
      assert files[i] == root + rels[i];
      assert files[i][|files[i]| - 1] == rels[i][|rels[i]| - 1];
    }
  }
}

/** The technology detector: from a scan's files, extensions and special files
    it derives the languages, frameworks, package managers and tools of a
    project, its primary language, and whether it has tests, docs and CI.

    Every test on a path is a substring test on its text, the root's own
    segments included, so the name of the project directory takes part in it.
    Parsing, as JSON, the file recorded under `package` and reading the file
    recorded under `requirements` are replaced by their outcomes, supplied by
    the caller. */
module Detector {
  import opened Text
  import opened Wrappers
  import Ordering
  import Scanner

  // ---------------------------------------------------------------------------
  // Languages
  // ---------------------------------------------------------------------------

  /** Extension to language. */
  const LanguageMap: map<string, string> := map[
    ".py" := "Python", ".js" := "JavaScript", ".ts" := "TypeScript",
    ".jsx" := "React", ".tsx" := "React", ".java" := "Java", ".c" := "C",
    ".cpp" := "C++", ".cs" := "C#", ".go" := "Go", ".rs" := "Rust",
    ".rb" := "Ruby", ".php" := "PHP", ".swift" := "Swift", ".kt" := "Kotlin",
    ".scala" := "Scala", ".r" := "R", ".m" := "Objective-C", ".sh" := "Shell",
    ".html" := "HTML", ".css" := "CSS", ".scss" := "SASS", ".vue" := "Vue",
    ".sql" := "SQL", ".md" := "Markdown"
  ]

  /** The sorted, duplicate-free languages of the known extensions. */
  function DetectLanguages(extensions: seq<string>): (r: seq<string>)
    ensures forall l :: l in r <==> exists e :: e in extensions && e in LanguageMap && LanguageMap[e] == l
    ensures forall i, j :: 0 <= i < j < |r| ==> Ordering.StrLess(r[i], r[j])
  {
    Ordering.SortedSet(set e | e in extensions && e in LanguageMap :: LanguageMap[e])
  }

  // ---------------------------------------------------------------------------
  // Frameworks
  // ---------------------------------------------------------------------------

  /** Each framework with the substrings whose presence in a path reveals it,
      in declaration order. */
  const FrameworkIndicators: seq<(string, seq<string>)> := [
    ("React", ["package.json", "react"]),
    ("Next.js", ["next.config.js", "next.config.ts"]),
    ("Vue.js", ["vue.config.js", "nuxt.config.js"]),
    ("Angular", ["angular.json"]),
    ("Django", ["manage.py", "settings.py"]),
    ("Flask", ["app.py", "flask"]),
    ("FastAPI", ["main.py", "fastapi"]),
    ("Express", ["express"]),
    ("Node.js", ["package.json"]),
    ("Docker", ["Dockerfile", "docker-compose.yml"]),
    ("Kubernetes", [".yaml", "k8s"]),
    ("Terraform", [".tf"]),
    ("Streamlit", ["streamlit"]),
    ("Pytest", ["pytest.ini", "conftest.py"]),
    ("Jest", ["jest.config.js"])
  ]

  /** Some file's path text contains `sub`. */
  predicate AnyPathContains(files: seq<Path>, sub: string) {
    exists f :: f in files && Contains(PathText(f), sub)
  }

  /** Some indicator occurs in some path. */
  predicate Indicated(files: seq<Path>, indicators: seq<string>) {
    exists k :: 0 <= k < |indicators| && AnyPathContains(files, indicators[k])
  }

  /** The inner loop over one framework's indicators, which stops at the first
      indicator found in some path. */
  function FirstHit(indicators: seq<string>, files: seq<Path>): (r: Option<string>)
    ensures r.None? <==> !Indicated(files, indicators)
    ensures r.Some? ==> r.value in indicators && AnyPathContains(files, r.value)
  {
    if |indicators| == 0 then None
    else if AnyPathContains(files, indicators[0]) then Some(indicators[0])
    else
      var r := FirstHit(indicators[1..], files);
      assert forall k :: 1 <= k < |indicators| ==> indicators[k] == indicators[1..][k - 1];
      r
  }

  /** The outer loop: every framework one of whose indicators occurs in a path. */
  function IndicatedFrameworks(table: seq<(string, seq<string>)>, files: seq<Path>): (r: set<string>)
    ensures forall fw :: fw in r <==> exists i :: 0 <= i < |table| && table[i].0 == fw && Indicated(files, table[i].1)
  {
    if |table| == 0 then {}
    else
      var rest := IndicatedFrameworks(table[1..], files);
      assert forall i :: 1 <= i < |table| ==> table[i] == table[1..][i - 1];
      (if FirstHit(table[0].1, files).Some? then {table[0].0} else {}) + rest
  }

  /** The outcome of parsing, as JSON, the file recorded under `package`
      (package.json, Cargo.toml, go.mod, pom.xml or build.gradle): the keys of
      its `dependencies` and `devDependencies` objects, or a failure of any
      kind. */
  datatype PackageJson = Parsed(dependencies: set<string>, devDependencies: set<string>) | Unparsable

  /** Dependency name to framework, for `package.json`. */
  const JsDependencies: seq<(string, string)> := [
    ("react", "React"), ("next", "Next.js"), ("vue", "Vue.js"),
    ("express", "Express"), ("@angular/core", "Angular")
  ]

  /** Requirement substring to framework, for the lower-cased requirements text. */
  const PythonRequirements: seq<(string, string)> := [
    ("django", "Django"), ("flask", "Flask"), ("fastapi", "FastAPI"),
    ("streamlit", "Streamlit"), ("pytest", "Pytest")
  ]

  /** `_parse_package_json`: the frameworks named by a dependency or a
      development dependency; none when the file cannot be read or parsed. */
  function ParsePackageJson(pkg: PackageJson): (r: set<string>)
    ensures forall fw :: fw in r <==>
      && pkg.Parsed?
      && exists dep :: (dep, fw) in JsDependencies && dep in pkg.dependencies + pkg.devDependencies
  {
    match pkg
    case Unparsable => {}
    case Parsed(deps, devDeps) =>
      var all := deps + devDeps;
      (if "react" in all then {"React"} else {})
      + (if "next" in all then {"Next.js"} else {})
      + (if "vue" in all then {"Vue.js"} else {})
      + (if "express" in all then {"Express"} else {})
      + (if "@angular/core" in all then {"Angular"} else {})
  }

  /** `_parse_requirements`: the frameworks whose name occurs anywhere in the
      lower-cased text; none when the file cannot be read. */
  function ParseRequirements(content: Option<string>): (r: set<string>)
    ensures forall fw :: fw in r <==>
      && content.Some?
      && exists word :: (word, fw) in PythonRequirements && Contains(Lower(content.value), word)
  {
    match content
    case None => {}
    case Some(text) =>
      var lower := Lower(text);
      (if Contains(lower, "django") then {"Django"} else {})
      + (if Contains(lower, "flask") then {"Flask"} else {})
      + (if Contains(lower, "fastapi") then {"FastAPI"} else {})
      + (if Contains(lower, "streamlit") then {"Streamlit"} else {})
      + (if Contains(lower, "pytest") then {"Pytest"} else {})
  }

  /** `_detect_frameworks`: the sorted union of the frameworks revealed by
      paths, by the file recorded under `package` when there is one, and by
      the text of the file recorded under `requirements` when there is one. */
  function DetectFrameworks(files: seq<Path>, special: map<string, string>, pkg: PackageJson, req: Option<string>): (r: seq<string>)
    ensures forall fw :: fw in r <==>
      || (exists i :: 0 <= i < |FrameworkIndicators| && FrameworkIndicators[i].0 == fw && Indicated(files, FrameworkIndicators[i].1))
      || ("package" in special && fw in ParsePackageJson(pkg))
      || ("requirements" in special && fw in ParseRequirements(req))
    ensures forall i, j :: 0 <= i < j < |r| ==> Ordering.StrLess(r[i], r[j])
  {
    Ordering.SortedSet(
      IndicatedFrameworks(FrameworkIndicators, files)
      + (if "package" in special then ParsePackageJson(pkg) else {})
      + (if "requirements" in special then ParseRequirements(req) else {}))
  }

  // ---------------------------------------------------------------------------
  // Package managers and tools
  // ---------------------------------------------------------------------------

  /** Each package manager with the file names that reveal it, in declaration
      order. */
  const PackageManagerMarkers: seq<(string, seq<string>)> := [
    ("pip", ["requirements.txt", "setup.py"]),
    ("poetry", ["pyproject.toml", "poetry.lock"]),
    ("npm", ["package.json", "package-lock.json"]),
    ("yarn", ["yarn.lock"]),
    ("pnpm", ["pnpm-lock.yaml"]),
    ("cargo", ["Cargo.toml"]),
    ("go mod", ["go.mod"]),
    ("maven", ["pom.xml"]),
    ("gradle", ["build.gradle"])
  ]

  function Keys(table: seq<(string, seq<string>)>): (r: seq<string>)
    ensures |r| == |table|
    ensures forall i :: 0 <= i < |table| ==> r[i] == table[i].0
  {
    seq(|table|, i requires 0 <= i < |table| => table[i].0)
  }

  /** One of `markers` is among `names`. */
  predicate Marked(markers: seq<string>, names: set<string>) {
    exists k :: 0 <= k < |markers| && markers[k] in names
  }

  /** The entries of `table` that have a marker among `names`, in table order. */
  function MarkedKeys(table: seq<(string, seq<string>)>, names: set<string>): (r: seq<string>)
    ensures Ordering.IsSubsequence(r, Keys(table))
    ensures forall m :: m in r <==> exists i :: 0 <= i < |table| && table[i].0 == m && Marked(table[i].1, names)
  {
    if |table| == 0 then []
    else
      var rest := MarkedKeys(table[1..], names);
      assert Keys(table)[1..] == Keys(table[1..]);
      assert forall i :: 1 <= i < |table| ==> table[i] == table[1..][i - 1];
      if Marked(table[0].1, names) then
        assert ([table[0].0] + rest)[1..] == rest;
        [table[0].0] + rest
      else
        Ordering.SubsequenceOfTail(rest, Keys(table));
        rest
  }

  /** `_detect_package_managers`: the managers one of whose marker files is the
      name of some scanned file, in declaration order. */
  function DetectPackageManagers(files: seq<Path>): (r: seq<string>)
    ensures Ordering.IsSubsequence(r, Keys(PackageManagerMarkers))
    ensures forall m :: m in r <==> exists i ::
      && 0 <= i < |PackageManagerMarkers|
      && PackageManagerMarkers[i].0 == m
      && exists f :: f in files && Name(f) in PackageManagerMarkers[i].1
  {
    var names := set f | f in files :: Name(f);
    var r := MarkedKeys(PackageManagerMarkers, names);
    forall i | 0 <= i < |PackageManagerMarkers|
      ensures Marked(PackageManagerMarkers[i].1, names)
          <==> exists f :: f in files && Name(f) in PackageManagerMarkers[i].1
    {
      var markers := PackageManagerMarkers[i].1;
      if exists f :: f in files && Name(f) in markers {
        var f :| f in files && Name(f) in markers;
        var k :| 0 <= k < |markers| && markers[k] == Name(f);
        assert markers[k] in names;
      }
    }
    r
  }

  /** No package manager is reported twice. */
  lemma PackageManagersDistinct(files: seq<Path>)
    ensures Ordering.Distinct(DetectPackageManagers(files))
  {
    var keys := Keys(PackageManagerMarkers);
    assert Ordering.Distinct(keys);
    Ordering.SubsequenceDistinct(DetectPackageManagers(files), keys);
  }

  /** The tools in the order they are reported. */
  const ToolOrder: seq<string> := ["Docker", "CI/CD", "Kubernetes", "Make"]

  /** Some path mentions a YAML file, and some path mentions Kubernetes. */
  predicate KubernetesHint(files: seq<Path>) {
    && (AnyPathContains(files, ".yaml") || AnyPathContains(files, ".yml"))
    && (AnyPathContains(files, "k8s") || AnyPathContains(files, "kubernetes"))
  }

  /** `_detect_tools`: Docker, CI/CD and Make from the special files, Kubernetes
      from the paths, reported in that fixed order. */
  function DetectTools(files: seq<Path>, special: map<string, string>): (r: seq<string>)
    ensures Ordering.IsSubsequence(r, ToolOrder)
    ensures "Docker" in r <==> "docker" in special
    ensures "CI/CD" in r <==> "ci" in special
    ensures "Kubernetes" in r <==> KubernetesHint(files)
    ensures "Make" in r <==> "makefile" in special
  {
    var make := if "makefile" in special then ["Make"] else [];
    var kube := (if KubernetesHint(files) then ["Kubernetes"] else []) + make;
    var ci := (if "ci" in special then ["CI/CD"] else []) + kube;
    var r := (if "docker" in special then ["Docker"] else []) + ci;
    assert Ordering.IsSubsequence(make, ToolOrder[3..]);
    Ordering.SubsequenceOfTail(make, ToolOrder[2..]);
    assert ToolOrder[2..][1..] == ToolOrder[3..];
    assert Ordering.IsSubsequence(kube, ToolOrder[2..]);
    Ordering.SubsequenceOfTail(kube, ToolOrder[1..]);
    assert ToolOrder[1..][1..] == ToolOrder[2..];
    assert Ordering.IsSubsequence(ci, ToolOrder[1..]);
    Ordering.SubsequenceOfTail(ci, ToolOrder);
    r
  }

  // ---------------------------------------------------------------------------
  // Primary language
  // ---------------------------------------------------------------------------

  /** The language of every file whose suffix is a known extension, in file
      order. */
  function FileLanguages(files: seq<Path>): (r: seq<string>)
    ensures forall l :: l in r <==> exists f :: f in files && Suffix(Name(f)) in LanguageMap && LanguageMap[Suffix(Name(f))] == l
    ensures |r| == 0 <==> forall f :: f in files ==> Suffix(Name(f)) !in LanguageMap
    ensures forall l :: l in r ==> l in LanguageMap.Values
    ensures |r| <= |files|
  {
    if |files| == 0 then []
    else
      assert forall f :: f in files <==> f == files[0] || f in files[1..];
      FileLanguage(files[0]) + FileLanguages(files[1..])
  }

  /** The language of one file, when its suffix is a known extension. */
  function FileLanguage(f: Path): (r: seq<string>)
    ensures |r| <= 1
    ensures forall l :: l in r <==> MapsTo(f, l)
  {
    var ext := Suffix(Name(f));
    if ext in LanguageMap then [LanguageMap[ext]] else []
  }

  /** Whether the file's suffix is a known extension of language `l`. */
  predicate MapsTo(f: Path, l: string) {
    Suffix(Name(f)) in LanguageMap && LanguageMap[Suffix(Name(f))] == l
  }

  /** A reference count: the number of files whose suffix maps to `l`. */
  function FilesOf(files: seq<Path>, l: string): nat {
    if |files| == 0 then 0
    else FilesOf(files[..|files| - 1], l) + (if MapsTo(files[|files| - 1], l) then 1 else 0)
  }

  /** The language list is built file by file: the list for two runs of files
      is the list of the first run followed by that of the second. */
  lemma {:induction false} FileLanguagesAppend(a: seq<Path>, b: seq<Path>)
    ensures FileLanguages(a + b) == FileLanguages(a) + FileLanguages(b)
  {
    if |a| == 0 {
      assert a + b == b;
    } else {
      var ab := a + b;
      assert ab[0] == a[0];
      assert ab[1..] == a[1..] + b;
      FileLanguagesAppend(a[1..], b);
      var head := FileLanguage(a[0]);
      assert FileLanguages(ab) == head + FileLanguages(a[1..] + b);
      assert FileLanguages(a) == head + FileLanguages(a[1..]);
      ConcatAssoc(head, FileLanguages(a[1..]), FileLanguages(b));
    }
  }

  lemma ConcatAssoc(a: seq<string>, b: seq<string>, c: seq<string>)
    ensures a + (b + c) == (a + b) + c
  {
  }

  /** One file contributes its own language, if its suffix has one. */
  lemma FileLanguagesOne(f: Path)
    ensures FileLanguages([f]) == FileLanguage(f)
  {
    assert [f][1..] == [];
  }

  /** Each language occurs in the list once per file that maps to it, which is
      what the counting in `_get_primary_language` reads. */
  lemma {:induction false} FileLanguagesCount(files: seq<Path>, l: string)
    ensures Count(FileLanguages(files), l) == FilesOf(files, l)
  {
    if |files| > 0 {
      var front := files[..|files| - 1];
      var f := files[|files| - 1];
      assert files == front + [f];
      FileLanguagesAppend(front, [f]);
      FileLanguagesOne(f);
      FileLanguagesCount(front, l);
      var one := FileLanguage(f);
      var before := FileLanguages(front);
      assert FileLanguages(files) == before + one;
      assert FilesOf(files, l) == FilesOf(front, l) + (if MapsTo(f, l) then 1 else 0);
      if |one| == 1 {
        assert one == [one[0]];
        CountAppend(before, one[0], l);
        assert one[0] == l <==> MapsTo(f, l);
      } else {
        assert before + one == before;
        assert !MapsTo(f, l);
      }
    }
  }

  /** How often `x` occurs in `s`. */
  function Count(s: seq<string>, x: string): (r: nat)
    ensures r <= |s|
    ensures r > 0 <==> x in s
  {
    if |s| == 0 then 0
    else
      assert forall y :: y in s <==> y in s[..|s| - 1] || y == s[|s| - 1];
      Count(s[..|s| - 1], x) + (if s[|s| - 1] == x then 1 else 0)
  }

  /** A dictionary from language to count, in insertion order. */
  type Counts = seq<(string, nat)>

  predicate HasKey(t: Counts, x: string) {
    exists i :: 0 <= i < |t| && t[i].0 == x
  }

  predicate DistinctKeys(t: Counts) {
    forall i, j :: 0 <= i < j < |t| ==> t[i].0 != t[j].0
  }

  /** `counts[x] = counts.get(x, 0) + 1`: an existing entry is incremented in
      place, a new key is appended with count one. */
  function Increment(t: Counts, x: string): (r: Counts)
    requires DistinctKeys(t)
    ensures DistinctKeys(r)
    ensures HasKey(t, x) ==> |r| == |t| && forall i :: 0 <= i < |t| ==>
      r[i].0 == t[i].0 && r[i].1 == t[i].1 + (if t[i].0 == x then 1 else 0)
    ensures !HasKey(t, x) ==> r == t + [(x, 1)]
  {
    if |t| == 0 then [(x, 1)]
    else if t[0].0 == x then [(x, t[0].1 + 1)] + t[1..]
    else
      assert forall i :: 1 <= i < |t| ==> t[i] == t[1..][i - 1];
      [t[0]] + Increment(t[1..], x)
  }

  /** Every entry of `t` holds the number of occurrences of its key in `s`. */
  ghost predicate CountsMatch(s: seq<string>, t: Counts) {
    forall i :: 0 <= i < |t| ==> t[i].1 == Count(s, t[i].0)
  }

  /** The keys of `t` are exactly the elements of `s`. */
  ghost predicate KeysMatch(s: seq<string>, t: Counts) {
    forall x :: x in s <==> HasKey(t, x)
  }

  /** The keys of `t` are in order of first occurrence in `s`: wherever a later
      key occurs, an earlier key has already occurred. */
  ghost predicate FirstSeenOrder(s: seq<string>, t: Counts) {
    forall i, j, k :: 0 <= i < j < |t| && 0 <= k < |s| && s[k] == t[j].0 ==> t[i].0 in s[..k]
  }

  /** The counting loop of `_get_primary_language` over a sequence of
      languages: one entry per distinct language, holding its number of
      occurrences, with entries in order of first occurrence. */
  function CountLanguages(s: seq<string>): (r: Counts)
    ensures DistinctKeys(r)
    ensures CountsMatch(s, r)
    ensures KeysMatch(s, r)
    ensures FirstSeenOrder(s, r)
  {
    if |s| == 0 then []
    else
      var p := s[..|s| - 1];
      var x := s[|s| - 1];
      var t := CountLanguages(p);
      assert s == p + [x];
      StepCounts(p, x, t);
      StepKeys(p, x, t);
      StepOrder(p, x, t);
      Increment(t, x)
  }

  lemma CountAppend(p: seq<string>, x: string, y: string)
    ensures Count(p + [x], y) == Count(p, y) + (if x == y then 1 else 0)
  {
    assert (p + [x])[..|p|] == p;
  }

  lemma StepCounts(p: seq<string>, x: string, t: Counts)
    requires DistinctKeys(t) && CountsMatch(p, t) && KeysMatch(p, t)
    ensures CountsMatch(p + [x], Increment(t, x))
  {
    var r := Increment(t, x);
    forall i | 0 <= i < |r|
      ensures r[i].1 == Count(p + [x], r[i].0)
    {
      CountAppend(p, x, r[i].0);
      if !HasKey(t, x) && i == |t| {
        assert r[i] == (x, 1);
      }
    }
  }

  lemma StepKeys(p: seq<string>, x: string, t: Counts)
    requires DistinctKeys(t) && KeysMatch(p, t)
    ensures KeysMatch(p + [x], Increment(t, x))
  {
    var r := Increment(t, x);
    assert forall y :: y in p + [x] <==> y in p || y == x;
    if HasKey(t, x) {
      assert forall y :: HasKey(r, y) ==> HasKey(t, y);
      assert forall y :: HasKey(t, y) ==> HasKey(r, y);
    } else {
      assert r[|t|].0 == x;
      assert forall y :: HasKey(r, y) ==> HasKey(t, y) || y == x;
      forall y | HasKey(t, y)
        ensures HasKey(r, y)
      {
        var i :| 0 <= i < |t| && t[i].0 == y;
        assert r[i] == t[i];
      }
    }
  }

  lemma StepOrder(p: seq<string>, x: string, t: Counts)
    requires DistinctKeys(t) && KeysMatch(p, t) && FirstSeenOrder(p, t)
    ensures FirstSeenOrder(p + [x], Increment(t, x))
  {
    var s := p + [x];
    var n := |p|;
    var r := Increment(t, x);
    forall i, j, k | 0 <= i < j < |r| && 0 <= k < |s| && s[k] == r[j].0
      ensures r[i].0 in s[..k]
    {
      assert s[..n] == p;
      if k < n {
        assert s[k] == p[k] && s[..k] == p[..k];
        if HasKey(t, x) {
          assert r[j].0 == t[j].0 && r[i].0 == t[i].0;
        } else {
          assert j < |t| by {
            assert p[k] in p;
          }
          assert r[j] == t[j] && r[i] == t[i];
        }
      } else {
        assert HasKey(t, r[i].0) by {
          if HasKey(t, x) {
            assert r[i].0 == t[i].0;
          } else {
            assert r[i] == t[i];
          }
        }
        assert r[i].0 in p;
      }
    }
  }

  /** Python's `max` over the entries by count: the first entry whose count no
      other entry exceeds. */
  function MaxEntry(t: Counts): (r: (string, nat))
    requires |t| > 0
    ensures forall j :: 0 <= j < |t| ==> t[j].1 <= r.1
    ensures exists i :: 0 <= i < |t| && t[i] == r && forall j :: 0 <= j < i ==> t[j].1 < r.1
  {
    if |t| == 1 then t[0]
    else
      var p := t[..|t| - 1];
      var b := MaxEntry(p);
      assert forall j :: 0 <= j < |p| ==> p[j] == t[j];
      if t[|t| - 1].1 > b.1 then t[|t| - 1] else b
  }

  /** `_get_primary_language`: "Unknown" when no file has a known extension;
      otherwise the most frequent language, ties going to the language met
      first. */
  function PrimaryLanguage(files: seq<Path>): (r: string)
    ensures r == "Unknown" <==> forall f :: f in files ==> Suffix(Name(f)) !in LanguageMap
    ensures var langs := FileLanguages(files);
      r != "Unknown" ==>
        && r in langs
        && (forall l :: Count(langs, l) <= Count(langs, r))
        && forall k :: 0 <= k < |langs| && Count(langs, langs[k]) == Count(langs, r) ==> r in langs[..k + 1]
  {
    var langs := FileLanguages(files);
    var t := CountLanguages(langs);
    UnknownIsNoLanguage();
    NoKeysNoLanguages(langs, t);
    if |t| == 0 then
      "Unknown"
    else
      var best := MaxEntry(t);
      MostFrequent(langs, t, best);
      MetFirst(langs, t, best);
      best.0
  }

  /** The primary language read in terms of files: no language is the
      language of more files, and among the languages of equally many files
      the winner is the one whose first file comes first. */
  lemma PrimaryLanguageByFiles(files: seq<Path>)
    ensures var r := PrimaryLanguage(files);
      r != "Unknown" ==>
        && (exists f :: f in files && MapsTo(f, r))
        && (forall l :: FilesOf(files, l) <= FilesOf(files, r))
        && forall k, m :: 0 <= k < |files| && MapsTo(files[k], m) && FilesOf(files, m) == FilesOf(files, r) ==>
             exists j :: 0 <= j <= k && MapsTo(files[j], r)
  {
    var r := PrimaryLanguage(files);
    if r != "Unknown" {
      var langs := FileLanguages(files);
      forall l
        ensures FilesOf(files, l) <= FilesOf(files, r)
      {
        FileLanguagesCount(files, l);
        FileLanguagesCount(files, r);
      }
      forall k, m | 0 <= k < |files| && MapsTo(files[k], m) && FilesOf(files, m) == FilesOf(files, r)
        ensures exists j :: 0 <= j <= k && MapsTo(files[j], r)
      {
        TieAt(files, k, m);
      }
    }
  }

  /** A file whose language is as frequent as the primary one is preceded,
      or matched, by a file of the primary language. */
  lemma TieAt(files: seq<Path>, k: nat, m: string)
    requires k < |files| && MapsTo(files[k], m)
    requires PrimaryLanguage(files) != "Unknown"
    requires FilesOf(files, m) == FilesOf(files, PrimaryLanguage(files))
    ensures exists j :: 0 <= j <= k && MapsTo(files[j], PrimaryLanguage(files))
  {
    var r := PrimaryLanguage(files);
    var langs := FileLanguages(files);
    var p := FileLanguages(files[..k]);
    LanguagesAround(files, k, m);
    assert langs[|p|] == m;
    FileLanguagesCount(files, m);
    FileLanguagesCount(files, r);
    assert langs[..|p| + 1] == p + [m];
    assert r in p + [m];
    if r == m {
      assert MapsTo(files[k], r);
    } else {
      EarlierFile(files, k, r);
    }
  }

  /** Around a file of language `m`, the language list is that of the files
      before it, then `m`, then that of the files after it. */
  lemma LanguagesAround(files: seq<Path>, k: nat, m: string)
    requires k < |files| && MapsTo(files[k], m)
    ensures FileLanguages(files) == FileLanguages(files[..k]) + [m] + FileLanguages(files[k + 1..])
  {
    var pre := files[..k];
    var post := files[k + 1..];
    var f := files[k];
    Ordering.SplitAround(files, k);
    FileLanguagesAppend(pre + [f], post);
    FileLanguagesAppend(pre, [f]);
    FileLanguagesOne(f);
    var one := FileLanguage(f);
    assert m in one;
    assert one == [m];
  }

  /** A language met before position `k` is the language of a file before
      position `k`. */
  lemma EarlierFile(files: seq<Path>, k: nat, r: string)
    requires k <= |files| && r in FileLanguages(files[..k])
    ensures exists j :: 0 <= j < k && MapsTo(files[j], r)
  {
    var pre := files[..k];
    var g :| g in pre && MapsTo(g, r);
    var j :| 0 <= j < k && pre[j] == g;
    assert files[j] == g;
  }

  lemma UnknownIsNoLanguage()
    ensures "Unknown" !in LanguageMap.Values
  {
  }

  lemma NoKeysNoLanguages(langs: seq<string>, t: Counts)
    requires KeysMatch(langs, t)
    ensures |t| == 0 <==> |langs| == 0
  {
    if |langs| > 0 {
      assert HasKey(t, langs[0]);
    }
    if |t| > 0 {
      assert HasKey(t, t[0].0);
    }
  }

  /** The entry with the largest count holds the most frequent language. */
  lemma MostFrequent(langs: seq<string>, t: Counts, best: (string, nat))
    requires CountsMatch(langs, t) && KeysMatch(langs, t)
    requires forall j :: 0 <= j < |t| ==> t[j].1 <= best.1
    requires exists i :: 0 <= i < |t| && t[i] == best
    ensures best.0 in langs
    ensures forall l :: Count(langs, l) <= Count(langs, best.0)
  {
    var i :| 0 <= i < |t| && t[i] == best;
    assert HasKey(t, best.0);
    forall l
      ensures Count(langs, l) <= Count(langs, best.0)
    {
      if l in langs {
        var j :| 0 <= j < |t| && t[j].0 == l;
        assert Count(langs, l) == t[j].1;
      }
    }
  }

  /** Among equally frequent languages, the first maximal entry is the one met
      first. */
  lemma MetFirst(langs: seq<string>, t: Counts, best: (string, nat))
    requires CountsMatch(langs, t) && KeysMatch(langs, t) && FirstSeenOrder(langs, t)
    requires exists i :: 0 <= i < |t| && t[i] == best && forall j :: 0 <= j < i ==> t[j].1 < best.1
    ensures forall k :: 0 <= k < |langs| && Count(langs, langs[k]) == Count(langs, best.0) ==> best.0 in langs[..k + 1]
  {
    var i :| 0 <= i < |t| && t[i] == best && forall j :: 0 <= j < i ==> t[j].1 < best.1;
    forall k | 0 <= k < |langs| && Count(langs, langs[k]) == Count(langs, best.0)
      ensures best.0 in langs[..k + 1]
    {
      MetFirstAt(langs, t, i, k);
    }
  }

  /** One position of `MetFirst`: a language as frequent as entry `i` at
      position `k` is entry `i`'s own, or comes after it. */
  lemma MetFirstAt(langs: seq<string>, t: Counts, i: nat, k: nat)
    requires CountsMatch(langs, t) && KeysMatch(langs, t) && FirstSeenOrder(langs, t)
    requires i < |t| && forall j :: 0 <= j < i ==> t[j].1 < t[i].1
    requires k < |langs| && Count(langs, langs[k]) == Count(langs, t[i].0)
    ensures t[i].0 in langs[..k + 1]
  {
    assert HasKey(t, langs[k]);
    var j :| 0 <= j < |t| && t[j].0 == langs[k];
    assert t[j].1 == t[i].1;
    if j == i {
      assert langs[..k + 1][k] == t[i].0;
    } else {
      assert t[i].0 in langs[..k];
      assert langs[..k] <= langs[..k + 1];
    }
  }

  /** Two languages met once each, such as those of `app.py` and `README.md`:
      the one met first is primary, so the order in which the directory lists
      its entries decides. */
  lemma TieWinner(files: seq<Path>, first: string, second: string)
    requires first != second
    requires FileLanguages(files) == [first, second]
    ensures PrimaryLanguage(files) == first
  {
    var langs := [first, second];
    var p := PrimaryLanguage(files);
    assert langs[0] in langs;
    assert Count(langs, first) == 1 && Count(langs, second) == 1;
    assert p in langs[..1];
  }

  // ---------------------------------------------------------------------------
  // Tests, docs and CI
  // ---------------------------------------------------------------------------

  const TestIndicators: seq<string> := ["test", "tests", "spec", "__tests__", "pytest", "jest"]
  const DocIndicators: seq<string> := ["docs", "documentation", "doc", "README"]

  /** `_has_tests`: some lower-cased path contains a test indicator. */
  predicate HasTests(files: seq<Path>) {
    exists f, k :: f in files && 0 <= k < |TestIndicators| && Contains(Lower(PathText(f)), TestIndicators[k])
  }

  /** `_has_docs`: some path, compared case-sensitively, contains a doc indicator. */
  predicate HasDocs(files: seq<Path>) {
    exists f, k :: f in files && 0 <= k < |DocIndicators| && Contains(PathText(f), DocIndicators[k])
  }

  /** `_has_ci`: a CI configuration was found at the root. */
  predicate HasCi(special: map<string, string>) {
    "ci" in special
  }

  predicate TestWord(s: string) {
    Contains(s, "test") || Contains(s, "spec") || Contains(s, "jest")
  }

  predicate DocWord(s: string) {
    Contains(s, "doc") || Contains(s, "README")
  }

  /** Three of the six test indicators contain "test", so the test check is the
      same as looking for "test", "spec" or "jest". */
  lemma HasTestsReduces(files: seq<Path>)
    ensures HasTests(files) <==> exists f :: f in files && TestWord(Lower(PathText(f)))
  {
    assert OccursAt("tests", "test", 0);
    assert OccursAt("__tests__", "test", 2);
    assert OccursAt("pytest", "test", 2);
    forall f | f in files
      ensures (exists k :: 0 <= k < |TestIndicators| && Contains(Lower(PathText(f)), TestIndicators[k]))
          <==> TestWord(Lower(PathText(f)))
    {
      var s := Lower(PathText(f));
      if Contains(s, "tests") { ContainsTransitive(s, "tests", "test"); }
      if Contains(s, "__tests__") { ContainsTransitive(s, "__tests__", "test"); }
      if Contains(s, "pytest") { ContainsTransitive(s, "pytest", "test"); }
      assert TestIndicators[0] == "test" && TestIndicators[2] == "spec" && TestIndicators[5] == "jest";
    }
  }

  /** Both "docs" and "documentation" contain "doc", so the docs check is the
      same as looking for "doc" or "README". */
  lemma HasDocsReduces(files: seq<Path>)
    ensures HasDocs(files) <==> exists f :: f in files && DocWord(PathText(f))
  {
    assert OccursAt("docs", "doc", 0);
    assert OccursAt("documentation", "doc", 0);
    forall f | f in files
      ensures (exists k :: 0 <= k < |DocIndicators| && Contains(PathText(f), DocIndicators[k]))
          <==> DocWord(PathText(f))
    {
      var s := PathText(f);
      if Contains(s, "docs") { ContainsTransitive(s, "docs", "doc"); }
      if Contains(s, "documentation") { ContainsTransitive(s, "documentation", "doc"); }
      assert DocIndicators[2] == "doc" && DocIndicators[3] == "README";
    }
  }

  // ---------------------------------------------------------------------------
  // detect()
  // ---------------------------------------------------------------------------

  /** The record `detect()` returns. */
  datatype TechInfo = TechInfo(
    languages: seq<string>,
    frameworks: seq<string>,
    packageManagers: seq<string>,
    tools: seq<string>,
    primaryLanguage: string,
    hasTests: bool,
    hasDocs: bool,
    hasCi: bool)

  /** `detect()` on a scan result. `pkg` is the outcome of parsing the file
      recorded as the package manifest and `req` the text of the file recorded
      as the requirements file (`None` when it cannot be read); each is
      consulted only when the scan recorded that file. */
  function Detect(scan: Scanner.ScanResult, pkg: PackageJson, req: Option<string>): (r: TechInfo)
    ensures r.hasCi <==> "CI/CD" in r.tools
    ensures "Docker" in r.tools <==> "docker" in scan.specialFiles
    ensures r.primaryLanguage == "Unknown" <==> forall f :: f in scan.files ==> Suffix(Name(f)) !in LanguageMap
    ensures forall i, j :: 0 <= i < j < |r.languages| ==> Ordering.StrLess(r.languages[i], r.languages[j])
    ensures forall i, j :: 0 <= i < j < |r.frameworks| ==> Ordering.StrLess(r.frameworks[i], r.frameworks[j])
    ensures Ordering.IsSubsequence(r.packageManagers, Keys(PackageManagerMarkers))
    ensures Ordering.IsSubsequence(r.tools, ToolOrder)
  {
    TechInfo(
      DetectLanguages(scan.extensions),
      DetectFrameworks(scan.files, scan.specialFiles, pkg, req),
      DetectPackageManagers(scan.files),
      DetectTools(scan.files, scan.specialFiles),
      PrimaryLanguage(scan.files),
      HasTests(scan.files),
      HasDocs(scan.files),
      HasCi(scan.specialFiles))
  }
}

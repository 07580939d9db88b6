/** Properties of the scanner, the detector and the template taken together:
    what a scan can and cannot feed into detection, and whole runs on small
    projects. */
module Pipeline {
  import opened Text
  import opened Wrappers
  import Scanner
  import Detector
  import Template

  /** No scanned file carries a skipped name: its last segment lies below the
      root and the walk passes over every skipped name. */
  lemma {:induction false} ScannedNamesNotSkipped(root: Path, listing: Scanner.Listing, present: set<string>)
    ensures forall f :: f in Scanner.Scan(root, listing, present).files ==> !Scanner.IsSkipped(Name(f))
  {
    var files := Scanner.Scan(root, listing, present).files;
    forall f | f in files
      ensures !Scanner.IsSkipped(Name(f))
    {
      assert Scanner.Below(root, f, Scanner.MaxDepth + 1);
      assert Name(f) == f[|f| - 1];
    }
  }

  /** "yarn" is never reported: its only marker, `yarn.lock`, is an ignored file
      name, so no scanned file can carry it. */
  lemma YarnNeverDetected(root: Path, listing: Scanner.Listing, present: set<string>)
    ensures "yarn" !in Detector.DetectPackageManagers(Scanner.Scan(root, listing, present).files)
  {
    ScannedNamesNotSkipped(root, listing, present);
    NoYarnWithoutLockFile(Scanner.Scan(root, listing, present).files);
  }

  lemma NoYarnWithoutLockFile(files: seq<Path>)
    requires forall f :: f in files ==> !Scanner.IsSkipped(Name(f))
    ensures "yarn" !in Detector.DetectPackageManagers(files)
  {
    assert forall f :: f in files ==> Name(f) != "yarn.lock";
    var table := Detector.PackageManagerMarkers;
    assert forall i :: 0 <= i < |table| && table[i].0 == "yarn" ==> i == 3;
  }

  /** The primary language of a scan is "Unknown" or one of its detected
      languages: a file whose suffix names the primary language contributes
      that suffix to the scanned extensions. */
  lemma PrimaryLanguageIsListed(root: Path, listing: Scanner.Listing, present: set<string>)
    ensures var s := Scanner.Scan(root, listing, present);
      var p := Detector.PrimaryLanguage(s.files);
      p == "Unknown" || p in Detector.DetectLanguages(s.extensions)
  {
    var s := Scanner.Scan(root, listing, present);
    PrimaryAmongLanguages(s.files, s.extensions);
  }

  lemma PrimaryAmongLanguages(files: seq<Path>, extensions: seq<string>)
    requires forall f :: f in files && Suffix(Name(f)) != "" ==> Suffix(Name(f)) in extensions
    ensures var p := Detector.PrimaryLanguage(files);
      p == "Unknown" || p in Detector.DetectLanguages(extensions)
  {
    var p := Detector.PrimaryLanguage(files);
    if p != "Unknown" {
      assert p in Detector.FileLanguages(files);
      var f :| f in files && Suffix(Name(f)) in Detector.LanguageMap && Detector.LanguageMap[Suffix(Name(f))] == p;
      var e := Suffix(Name(f));
      NoEmptyExtension();
      assert e in extensions;
      KnownExtensionDetected(extensions, e);
    }
  }

  lemma NoEmptyExtension()
    ensures "" !in Detector.LanguageMap
  {
  }

  lemma KnownExtensionDetected(extensions: seq<string>, e: string)
    requires e in extensions && e in Detector.LanguageMap
    ensures Detector.LanguageMap[e] in Detector.DetectLanguages(extensions)
  {
  }

  /** An empty project: nothing is found, the primary language is "Unknown",
      the tech stack section is dropped, and the badges still carry a language
      badge, for "Unknown". */
  lemma EmptyProject(root: Path, name: string)
    ensures var s := Scanner.Scan(root, Scanner.Entries([]), {});
      && s.fileCount == 0 && s.dirCount == 0 && s.extensions == [] && s.specialFiles == map[]
    ensures var s := Scanner.Scan(root, Scanner.Entries([]), {});
      var t := Detector.Detect(s, Detector.Unparsable, None);
      && t.languages == [] && t.frameworks == [] && t.tools == [] && t.packageManagers == []
      && t.primaryLanguage == "Unknown" && !t.hasTests && !t.hasDocs && !t.hasCi
      && Template.TechStack(t) == ""
      && var badges := Template.BadgeList(name, t, s.specialFiles);
         |badges| == 4 && badges[0] == Template.LanguageBadge("Unknown", "for-the-badge")
  {
    var s := EmptyScan(root);
    var t := NothingDetected(s);
    NoTechDocument(name, t, s.specialFiles);
  }

  lemma EmptyScan(root: Path) returns (s: Scanner.ScanResult)
    ensures s == Scanner.Scan(root, Scanner.Entries([]), {})
    ensures s.files == [] && s.directories == [] && s.extensions == [] && s.specialFiles == map[]
    ensures s.fileCount == 0 && s.dirCount == 0
  {
    s := Scanner.Scan(root, Scanner.Entries([]), {});
    assert s.files == [] && s.directories == [];
  }

  lemma NothingDetected(s: Scanner.ScanResult) returns (t: Detector.TechInfo)
    requires s.files == [] && s.extensions == [] && s.specialFiles == map[]
    ensures t == Detector.Detect(s, Detector.Unparsable, None)
    ensures t.languages == [] && t.frameworks == [] && t.tools == [] && t.packageManagers == []
    ensures t.primaryLanguage == "Unknown" && !t.hasTests && !t.hasDocs && !t.hasCi
  {
    t := Detector.Detect(s, Detector.Unparsable, None);
    Empty(t.languages);
    Empty(t.frameworks);
    Empty(t.tools);
    Empty(t.packageManagers);
  }

  /** A sequence without members is empty. */
  lemma Empty(s: seq<string>)
    ensures (forall x :: x !in s) ==> s == []
  {
    if s != [] {
      assert s[0] in s;
    }
  }

  lemma NoTechDocument(name: string, t: Detector.TechInfo, special: map<string, string>)
    requires t.languages == [] && t.frameworks == [] && t.tools == []
    requires t.primaryLanguage == "Unknown" && !t.hasTests && !t.hasCi && special == map[]
    ensures Template.TechStack(t) == ""
    ensures var badges := Template.BadgeList(name, t, special);
      |badges| == 4 && badges[0] == Template.LanguageBadge("Unknown", "for-the-badge")
  {
    assert Template.TechStack(t) == "";
  }
}

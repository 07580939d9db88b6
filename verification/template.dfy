/** The README template generator: assembles the document from the project
    name, the scan result and the detected technologies. Each section is a
    string; boilerplate sections are fixed texts. */
module Template {
  import opened Text
  import opened Wrappers
  import Ordering
  import Scanner
  import Detector

  // ---------------------------------------------------------------------------
  // Badge colours
  // ---------------------------------------------------------------------------

  /** `_get_language_color`'s table, in its order. */
  const LanguageColors: seq<(string, string)> := [
    ("Python", "3776AB"), ("JavaScript", "F7DF1E"), ("TypeScript", "3178C6"),
    ("Java", "ED8B00"), ("Go", "00ADD8"), ("Rust", "CE412B"), ("C++", "00599C"),
    ("C#", "239120"), ("Ruby", "CC342D"), ("PHP", "777BB4"), ("Swift", "FA7343"),
    ("Kotlin", "7F52FF"), ("HTML", "E34F26"), ("CSS", "1572B6")
  ]

  /** `_get_framework_color`'s table, in its order. */
  const FrameworkColors: seq<(string, string)> := [
    ("React", "61DAFB"), ("Next.js", "000000"), ("Vue.js", "4FC08D"),
    ("Django", "092E20"), ("Flask", "000000"), ("FastAPI", "009688"),
    ("Express", "000000"), ("Streamlit", "FF4B4B"), ("Docker", "2496ED")
  ]

  /** The colour of every tool badge. */
  const ToolColor: string := "2496ED"

  predicate IsHexDigit(c: char) {
    '0' <= c <= '9' || 'A' <= c <= 'F'
  }

  /** Six upper-case hexadecimal digits, as the badge service expects. */
  predicate IsHexColor(s: string) {
    |s| == 6 && forall i :: 0 <= i < 6 ==> IsHexDigit(s[i])
  }

  /** `dict.get`: the value of the first entry with the key, if any. */
  function Lookup(table: seq<(string, string)>, key: string): (r: Option<string>)
    ensures r.None? <==> forall i :: 0 <= i < |table| ==> table[i].0 != key
    ensures r.Some? ==> exists i :: 0 <= i < |table| && table[i] == (key, r.value)
  {
    if |table| == 0 then None
    else if table[0].0 == key then Some(table[0].1)
    else
      var rest := Lookup(table[1..], key);
      assert forall i :: 1 <= i < |table| ==> table[i] == table[1..][i - 1];
      if rest.Some? then
        var i :| 0 <= i < |table[1..]| && table[1..][i] == (key, rest.value);
        assert table[i + 1] == (key, rest.value);
        rest
      else rest
  }

  /** Every colour in the table is a hexadecimal colour. */
  predicate HexTable(table: seq<(string, string)>) {
    forall i :: 0 <= i < |table| ==> IsHexColor(table[i].1)
  }

  /** `_get_language_color`: the table's colour, grey for any other language. */
  function LanguageColor(language: string): (r: string)
    ensures IsHexColor(r)
    ensures Lookup(LanguageColors, language).None? ==> r == "555555"
    ensures (exists i :: 0 <= i < |LanguageColors| && LanguageColors[i].0 == language) ==>
      exists i :: 0 <= i < |LanguageColors| && LanguageColors[i] == (language, r)
  {
    assert HexTable(LanguageColors);
    Lookup(LanguageColors, language).GetOr("555555")
  }

  /** `_get_framework_color`: the table's colour, indigo for any other framework. */
  function FrameworkColor(framework: string): (r: string)
    ensures IsHexColor(r)
    ensures Lookup(FrameworkColors, framework).None? ==> r == "6366F1"
    ensures (exists i :: 0 <= i < |FrameworkColors| && FrameworkColors[i].0 == framework) ==>
      exists i :: 0 <= i < |FrameworkColors| && FrameworkColors[i] == (framework, r)
  {
    assert HexTable(FrameworkColors);
    Lookup(FrameworkColors, framework).GetOr("6366F1")
  }

  /** Languages the detector reports but the colour table lacks get the default:
      among them the reserved "Unknown", so a project without known sources
      still gets a grey language badge. */
  lemma DefaultLanguageColors()
    ensures LanguageColor("Unknown") == "555555"
    ensures LanguageColor("Markdown") == "555555"
  {
    assert forall i :: 0 <= i < |LanguageColors| ==> |LanguageColors[i].0| != 7 && |LanguageColors[i].0| != 8;
  }

  // ---------------------------------------------------------------------------
  // Shared pieces
  // ---------------------------------------------------------------------------

  /** A shields.io badge for a named item, with the given colour, style and
      logo. */
  function Badge(title: string, color: string, style: string, logo: string): (r: string)
    ensures ("![" + title + "](") <= r
  {
    "![" + title + "](https://img.shields.io/badge/" + title + "-" + color
    + "?style=" + style + "&logo=" + logo + "&logoColor=white)"
  }

  function LanguageBadge(language: string, style: string): (r: string)
    ensures ("![" + language + "](") <= r
  {
    Badge(language, LanguageColor(language), style, Lower(language))
  }

  /** The logo name of a framework: lower-cased, dots and spaces removed. */
  function FrameworkLogo(framework: string): (r: string)
    ensures '.' !in r && ' ' !in r
    ensures |r| <= |framework|
    ensures forall c :: c in r <==> c in Lower(framework) && c != '.' && c != ' '
    ensures Ordering.IsSubsequence(r, Lower(framework))
    ensures multiset(r) == multiset(Lower(framework))['.' := 0][' ' := 0]
  {
    var lower := Lower(framework);
    var noDots := RemoveChar(lower, '.');
    RemoveCharKeepsOrder(lower, '.');
    RemoveCharKeepsOrder(noDots, ' ');
    Ordering.SubsequenceTransitive(RemoveChar(noDots, ' '), noDots, lower);
    RemoveChar(noDots, ' ')
  }

  /** Removing a character keeps the other characters in their order. */
  lemma {:induction false} RemoveCharKeepsOrder(s: string, c: char)
    ensures Ordering.IsSubsequence(RemoveChar(s, c), s)
  {
    if |s| > 0 {
      RemoveCharKeepsOrder(s[1..], c);
      Ordering.SubsequencePrepend(s[0] != c, RemoveChar(s[1..], c), s);
      assert RemoveChar(s, c) == (if s[0] != c then [s[0]] else []) + RemoveChar(s[1..], c);
    }
  }

  function FrameworkBadge(framework: string): (r: string)
    ensures ("![" + framework + "](") <= r
  {
    Badge(framework, FrameworkColor(framework), "flat-square", FrameworkLogo(framework))
  }

  function ToolBadge(tool: string): (r: string)
    ensures ("![" + tool + "](") <= r
  {
    Badge(tool, ToolColor, "flat-square", Lower(tool))
  }

  /** The clone command for the repository slug. */
  function CloneCommand(name: string): string {
    "git clone https://github.com/yourusername/" + Slug(name) + ".git"
  }

  /** Prefixes every item with a list bullet. */
  function Bulleted(items: seq<string>): (r: seq<string>)
    ensures |r| == |items|
    ensures forall i :: 0 <= i < |r| ==> "- " <= r[i] && r[i][2..] == items[i]
  {
    seq(|items|, i requires 0 <= i < |items| => "- " + items[i])
  }

  // ---------------------------------------------------------------------------
  // Header and badges
  // ---------------------------------------------------------------------------

  const HeaderTop: string := "<div align=\"center\">\n\n# 🚀 "
  const HeaderBottom: string := "\n\n<p align=\"center\">\n  <strong>✨ Auto-generated README - Customize me! ✨</strong>\n</p>\n\n</div>"

  /** `_generate_header`: the centred title. */
  function Header(name: string): (r: string)
    ensures |r| > 0
  {
    HeaderTop + name + HeaderBottom
  }

  /** The header shows the project name. */
  lemma HeaderShowsName(name: string)
    ensures Contains(Header(name), name)
  {
    var r := Header(name);
    assert r[|HeaderTop|..|HeaderTop| + |name|] == name;
    assert OccursAt(r, name, |HeaderTop|);
  }

  /** A fixed badge in the large style. */
  function StaticBadge(title: string, badge: string): string {
    "![" + title + "](https://img.shields.io/badge/" + badge + "?style=for-the-badge)"
  }

  const LicenseBadge: string := StaticBadge("License", "license-MIT-blue")
  const BuildBadge: string := StaticBadge("Build", "build-passing-brightgreen")
  const CoverageBadge: string := StaticBadge("Coverage", "coverage-85%25-green")

  /** A repository statistic badge (stars, forks or issues) for the slug. */
  function GitHubBadge(kind: string, slug: string): string {
    "![GitHub " + kind + "](https://img.shields.io/github/" + kind + "/yourusername/" + slug + "?style=for-the-badge)"
  }

  function StarsBadge(slug: string): string {
    GitHubBadge("stars", slug)
  }

  function ForksBadge(slug: string): string {
    GitHubBadge("forks", slug)
  }

  function IssuesBadge(slug: string): string {
    GitHubBadge("issues", slug)
  }

  function Indicator(b: bool): nat {
    if b then 1 else 0
  }

  /** The badges of `_generate_badges`, in order: language (when the primary
      language is non-empty), license (when a license file was found), the three
      repository badges, build (with CI) and coverage (with tests). */
  function BadgeList(name: string, tech: Detector.TechInfo, special: map<string, string>): (r: seq<string>)
    ensures |r| == 3 + Indicator(tech.primaryLanguage != "") + Indicator("license" in special)
                     + Indicator(tech.hasCi) + Indicator(tech.hasTests)
    ensures tech.primaryLanguage != "" ==> r[0] == LanguageBadge(tech.primaryLanguage, "for-the-badge")
    ensures LicenseBadge in r <==> "license" in special
    ensures BuildBadge in r <==> tech.hasCi
    ensures CoverageBadge in r <==> tech.hasTests
    ensures var slug := Slug(name); StarsBadge(slug) in r && ForksBadge(slug) in r && IssuesBadge(slug) in r
    ensures Ordering.IsSubsequence(r, BadgeOrder(name, tech))
  {
    var slug := Slug(name);
    var lang := Optional(tech.primaryLanguage != "", LanguageBadge(tech.primaryLanguage, "for-the-badge"));
    var license := Optional("license" in special, LicenseBadge);
    var repo := [StarsBadge(slug), ForksBadge(slug), IssuesBadge(slug)];
    var build := Optional(tech.hasCi, BuildBadge);
    var coverage := Optional(tech.hasTests, CoverageBadge);
    var r := lang + license + repo + build + coverage;
    BadgeListMembers(name, tech, special, r);
    BadgeListOrder(tech.primaryLanguage != "", "license" in special, tech.hasCi, tech.hasTests,
                   LanguageBadge(tech.primaryLanguage, "for-the-badge"), LicenseBadge,
                   StarsBadge(slug), ForksBadge(slug), IssuesBadge(slug), BuildBadge, CoverageBadge, r);
    r
  }

  /** Which badges the appended list holds, and how many. */
  lemma BadgeListMembers(name: string, tech: Detector.TechInfo, special: map<string, string>, r: seq<string>)
    requires var slug := Slug(name);
      r == Optional(tech.primaryLanguage != "", LanguageBadge(tech.primaryLanguage, "for-the-badge"))
        + Optional("license" in special, LicenseBadge)
        + [StarsBadge(slug), ForksBadge(slug), IssuesBadge(slug)]
        + Optional(tech.hasCi, BuildBadge) + Optional(tech.hasTests, CoverageBadge)
    ensures |r| == 3 + Indicator(tech.primaryLanguage != "") + Indicator("license" in special)
                     + Indicator(tech.hasCi) + Indicator(tech.hasTests)
    ensures tech.primaryLanguage != "" ==> r[0] == LanguageBadge(tech.primaryLanguage, "for-the-badge")
    ensures LicenseBadge in r <==> "license" in special
    ensures BuildBadge in r <==> tech.hasCi
    ensures CoverageBadge in r <==> tech.hasTests
    ensures var slug := Slug(name); StarsBadge(slug) in r && ForksBadge(slug) in r && IssuesBadge(slug) in r
  {
    var slug := Slug(name);
    var lang := Optional(tech.primaryLanguage != "", LanguageBadge(tech.primaryLanguage, "for-the-badge"));
    var license := Optional("license" in special, LicenseBadge);
    var repo := [StarsBadge(slug), ForksBadge(slug), IssuesBadge(slug)];
    var build := Optional(tech.hasCi, BuildBadge);
    var coverage := Optional(tech.hasTests, CoverageBadge);
    BadgesDistinct(tech.primaryLanguage, slug);
    assert forall x :: x in r <==> x in lang || x in license || x in repo || x in build || x in coverage;
  }

  /** The appended badges keep the order in which `_generate_badges` considers
      them; the badge texts are parameters, so the proof is about positions only. */
  lemma BadgeListOrder(hasLanguage: bool, hasLicense: bool, hasCi: bool, hasTests: bool,
                       language: string, license: string, stars: string, forks: string, issues: string,
                       build: string, coverage: string, r: seq<string>)
    requires r == Optional(hasLanguage, language) + Optional(hasLicense, license) + [stars, forks, issues]
                  + Optional(hasCi, build) + Optional(hasTests, coverage)
    ensures Ordering.IsSubsequence(r, [language, license, stars, forks, issues, build, coverage])
  {
    var repo := [stars, forks, issues];
    OptionalInOrder(hasLanguage, language);
    OptionalInOrder(hasLicense, license);
    OptionalInOrder(hasCi, build);
    OptionalInOrder(hasTests, coverage);
    BadgesInOrder(Optional(hasLanguage, language), Optional(hasLicense, license), repo,
                  Optional(hasCi, build), Optional(hasTests, coverage), language, license, build, coverage);
    assert [language] + [license] + repo + [build] + [coverage] == [language, license, stars, forks, issues, build, coverage];
  }

  /** Every badge `_generate_badges` can emit, in the order it appends them. */
  function BadgeOrder(name: string, tech: Detector.TechInfo): seq<string> {
    var slug := Slug(name);
    [LanguageBadge(tech.primaryLanguage, "for-the-badge"), LicenseBadge,
     StarsBadge(slug), ForksBadge(slug), IssuesBadge(slug), BuildBadge, CoverageBadge]
  }

  /** Each optional badge is at most its own badge, so the appended badges
      keep the order of all possible badges. */
  lemma BadgesInOrder(lang: seq<string>, license: seq<string>, repo: seq<string>,
                      build: seq<string>, coverage: seq<string>,
                      x1: string, x2: string, x4: string, x5: string)
    requires Ordering.IsSubsequence(lang, [x1])
    requires Ordering.IsSubsequence(license, [x2])
    requires Ordering.IsSubsequence(build, [x4])
    requires Ordering.IsSubsequence(coverage, [x5])
    ensures Ordering.IsSubsequence(lang + license + repo + build + coverage, [x1] + [x2] + repo + [x4] + [x5])
  {
    Ordering.SubsequenceConcat(lang, [x1], license, [x2]);
    Ordering.SubsequenceReflexive(repo);
    Ordering.SubsequenceConcat(lang + license, [x1] + [x2], repo, repo);
    Ordering.SubsequenceConcat(lang + license + repo, [x1] + [x2] + repo, build, [x4]);
    Ordering.SubsequenceConcat(lang + license + repo + build, [x1] + [x2] + repo + [x4], coverage, [x5]);
  }

  /** An optional badge is a subsequence of the badge itself. */
  lemma OptionalInOrder(b: bool, x: string)
    ensures Ordering.IsSubsequence(Optional(b, x), [x])
  {
    if b {
      assert [x][1..] == [];
    }
  }

  /** The one-element list when `b` holds, otherwise the empty one. */
  function Optional(b: bool, x: string): (r: seq<string>)
    ensures |r| == Indicator(b)
    ensures forall y :: y in r <==> b && y == x
  {
    if b then [x] else []
  }

  /** The fixed badges differ from each other and from the language and
      repository badges, so membership tests identify them. */
  lemma BadgesDistinct(language: string, slug: string)
    ensures LicenseBadge != BuildBadge && LicenseBadge != CoverageBadge && BuildBadge != CoverageBadge
    ensures var l := LanguageBadge(language, "for-the-badge");
      l != LicenseBadge && l != BuildBadge && l != CoverageBadge
    ensures forall b :: b in [StarsBadge(slug), ForksBadge(slug), IssuesBadge(slug)] ==>
      b != LicenseBadge && b != BuildBadge && b != CoverageBadge
  {
    StaticBadgeInitials();
    StaticBadgeEnds();
    LanguageBadgeEnd(language);
    RepoBadgeInitials(slug);
  }

  /** A static badge's title starts at its third character. */
  lemma StaticBadgeInitials()
    ensures LicenseBadge[2] == 'L' && BuildBadge[2] == 'B' && CoverageBadge[2] == 'C'
  {
  }

  /** A static badge ends with its style parameter. */
  lemma StaticBadgeEnds()
    ensures var b := LicenseBadge; b[|b| - 3] == 'g'
    ensures var b := BuildBadge; b[|b| - 3] == 'g'
    ensures var b := CoverageBadge; b[|b| - 3] == 'g'
  {
  }

  /** A language badge ends with its logo colour. */
  lemma LanguageBadgeEnd(language: string)
    ensures var l := LanguageBadge(language, "for-the-badge"); |l| >= 3 && l[|l| - 3] == 't'
  {
  }

  /** A repository badge's title starts with "GitHub". */
  lemma RepoBadgeInitials(slug: string)
    ensures StarsBadge(slug)[2] == 'G' && ForksBadge(slug)[2] == 'G' && IssuesBadge(slug)[2] == 'G'
  {
  }

  /** The two badge rows: the first four badges, then the rest. */
  function BadgeRows(badges: seq<string>): (rows: (seq<string>, seq<string>))
    ensures rows.0 + rows.1 == badges
    ensures |rows.0| == Min(4, |badges|)
  {
    if |badges| <= 4 then (badges, []) else (badges[..4], badges[4..])
  }

  const CentreOpen: string := "<div align=\"center\">\n\n"
  const CentreClose: string := "\n\n</div>"

  /** `_generate_badges`: the badges on two lines inside a centred block. */
  function Badges(name: string, tech: Detector.TechInfo, special: map<string, string>): (r: string)
    ensures |r| > 0
  {
    var rows := BadgeRows(BadgeList(name, tech, special));
    CentreOpen + Join(rows.0, " ") + "\n\n" + Join(rows.1, " ") + CentreClose
  }

  // ---------------------------------------------------------------------------
  // Description and highlights
  // ---------------------------------------------------------------------------

  const FallbackHighlights: seq<string> := [
    "⚡ **Fast & Efficient** - Optimized for performance",
    "🎨 **Modern Stack** - Built with latest technologies",
    "🔧 **Customizable** - Easy to extend and modify"
  ]

  const TestsHighlight: string := "🧪 **Test Coverage** - Comprehensive test suite included"
  const CiHighlight: string := "🔄 **CI/CD** - Automated testing and deployment"
  const DockerHighlight: string := "🐳 **Containerized** - Docker support for easy deployment"
  const DocsHighlight: string := "📚 **Well Documented** - Clear documentation and examples"

  function MultiLanguageHighlight(count: nat): string {
    "🌐 **Multi-language** - Uses " + NatToString(count) + " programming languages"
  }

  /** At least one of the five highlight conditions holds. */
  predicate HasHighlight(tech: Detector.TechInfo) {
    tech.hasTests || tech.hasCi || "Docker" in tech.tools || tech.hasDocs || |tech.languages| > 1
  }

  /** The five highlight conditions, in the order they are tested. */
  function HighlightConditions(tech: Detector.TechInfo): seq<bool> {
    [tech.hasTests, tech.hasCi, "Docker" in tech.tools, tech.hasDocs, |tech.languages| > 1]
  }

  /** The five highlights, in the order of their conditions. */
  function HighlightOrder(count: nat): seq<string> {
    [TestsHighlight, CiHighlight, DockerHighlight, DocsHighlight, MultiLanguageHighlight(count)]
  }

  /** The highlights whose conditions hold, in the order of `HighlightOrder`:
      the five conditional appends of `_generate_highlights`. */
  function HighlightRun(tech: Detector.TechInfo): (r: seq<string>)
    ensures r == Ordering.Pick(HighlightConditions(tech), HighlightOrder(|tech.languages|))
    ensures |r| == 0 <==> !HasHighlight(tech)
    ensures |r| == (Indicator(tech.hasTests) + Indicator(tech.hasCi) + Indicator("Docker" in tech.tools)
                    + Indicator(tech.hasDocs) + Indicator(|tech.languages| > 1))
  {
    var tests := Optional(tech.hasTests, TestsHighlight);
    var ci := Optional(tech.hasCi, CiHighlight);
    var docker := Optional("Docker" in tech.tools, DockerHighlight);
    var docs := Optional(tech.hasDocs, DocsHighlight);
    var multi := Optional(|tech.languages| > 1, MultiLanguageHighlight(|tech.languages|));
    Ordering.PickFive(HighlightConditions(tech), HighlightOrder(|tech.languages|));
    tests + ci + docker + docs + multi
  }

  /** The bullets of `_generate_highlights`: one per condition that holds, in
      fixed order, or the three generic bullets when none does. */
  function HighlightItems(tech: Detector.TechInfo): (r: seq<string>)
    ensures 1 <= |r| <= 5
    ensures r == FallbackHighlights <==> !HasHighlight(tech)
    ensures HasHighlight(tech) ==>
      |r| == (Indicator(tech.hasTests) + Indicator(tech.hasCi) + Indicator("Docker" in tech.tools)
              + Indicator(tech.hasDocs) + Indicator(|tech.languages| > 1))
    ensures HasHighlight(tech) ==> r == Ordering.Pick(HighlightConditions(tech), HighlightOrder(|tech.languages|))
    ensures TestsHighlight in r <==> tech.hasTests
    ensures CiHighlight in r <==> tech.hasCi
    ensures DockerHighlight in r <==> "Docker" in tech.tools
    ensures DocsHighlight in r <==> tech.hasDocs
    ensures MultiLanguageHighlight(|tech.languages|) in r <==> |tech.languages| > 1
  {
    var found := HighlightRun(tech);
    if |found| == 0 then
      FallbackMembers(tech);
      FallbackHighlights
    else
      HighlightMembers(tech, found);
      FoundIsNotFallback(tech, found);
      found
  }

  /** A non-empty run of highlights is not the generic list. */
  lemma FoundIsNotFallback(tech: Detector.TechInfo, found: seq<string>)
    requires found == HighlightRun(tech) && |found| > 0
    ensures found != FallbackHighlights
  {
    var o := HighlightOrder(|tech.languages|);
    HighlightOrderDistinct(|tech.languages|);
    assert found[0] in found;
    assert found[0] in o;
  }

  /** The five highlights are distinct, and none is a generic bullet. */
  lemma HighlightOrderDistinct(count: nat)
    ensures Ordering.Distinct(HighlightOrder(count))
    ensures forall h :: h in FallbackHighlights ==> h !in HighlightOrder(count)
  {
    var o := HighlightOrder(count);
    var m := o[4];
    assert |TestsHighlight| == 55 && TestsHighlight[54] == 'd';
    assert |CiHighlight| == 46 && CiHighlight[45] == 't';
    assert |DockerHighlight| == 56 && DockerHighlight[55] == 't';
    assert |DocsHighlight| == 56 && DocsHighlight[55] == 's' && DocsHighlight[53] == 'l';
    assert m[|m| - 1] == 's' && m[|m| - 3] == 'g';
    var f := FallbackHighlights;
    assert |f[0]| == 50 && f[0][49] == 'e';
    assert |f[1]| == 51 && f[1][50] == 's' && f[1][48] == 'i';
    assert |f[2]| == 46 && f[2][45] == 'y';
  }

  /** With no condition holding, none of the five highlights is shown. */
  lemma FallbackMembers(tech: Detector.TechInfo)
    requires !HasHighlight(tech)
    ensures TestsHighlight !in FallbackHighlights && CiHighlight !in FallbackHighlights
    ensures DockerHighlight !in FallbackHighlights && DocsHighlight !in FallbackHighlights
    ensures MultiLanguageHighlight(|tech.languages|) !in FallbackHighlights
  {
    var o := HighlightOrder(|tech.languages|);
    HighlightOrderDistinct(|tech.languages|);
    assert o[0] in o && o[1] in o && o[2] in o && o[3] in o && o[4] in o;
  }

  /** Picking from the five highlights shows each exactly when its condition
      holds. */
  lemma HighlightMembers(tech: Detector.TechInfo, r: seq<string>)
    requires r == Ordering.Pick(HighlightConditions(tech), HighlightOrder(|tech.languages|))
    ensures TestsHighlight in r <==> tech.hasTests
    ensures CiHighlight in r <==> tech.hasCi
    ensures DockerHighlight in r <==> "Docker" in tech.tools
    ensures DocsHighlight in r <==> tech.hasDocs
    ensures MultiLanguageHighlight(|tech.languages|) in r <==> |tech.languages| > 1
  {
    var keep := HighlightConditions(tech);
    var o := HighlightOrder(|tech.languages|);
    HighlightOrderDistinct(|tech.languages|);
    Ordering.PickMember(keep, o, 0);
    Ordering.PickMember(keep, o, 1);
    Ordering.PickMember(keep, o, 2);
    Ordering.PickMember(keep, o, 3);
    Ordering.PickMember(keep, o, 4);
  }

  /** `_generate_highlights`: the bullets, one per line. */
  function Highlights(tech: Detector.TechInfo): (r: string)
    ensures "- " <= r
  {
    var lines := Bulleted(HighlightItems(tech));
    JoinStartsWith(lines, "\n");
    Join(lines, "\n")
  }

  /** The opening sentence of the description: the primary language and at
      most three frameworks. */
  function DescriptionSentence(tech: Detector.TechInfo): string {
    var fws := tech.frameworks;
    "A powerful " + tech.primaryLanguage + " project"
    + (if |fws| > 0 then " built with **" + Join(fws[..Min(3, |fws|)], ", ") + "**" else "")
    + ". 🎯"
  }

  const DescriptionNote: string :=
    "> ⚠️ **Note:** This README was auto-generated using [README Generator](https://github.com/alxgraphy/readme-generator). \n"
    + "> Please customize it with your project's actual description, screenshots, and details!"

  /** `_generate_description`. */
  function Description(tech: Detector.TechInfo): (r: string)
    ensures |r| > 0
  {
    "## 📖 About\n\n" + DescriptionSentence(tech) + "\n\n" + DescriptionNote
    + "\n\n### ✨ Highlights\n\n" + Highlights(tech)
  }

  // ---------------------------------------------------------------------------
  // Features and the feature grid
  // ---------------------------------------------------------------------------

  /** A feature line, already split into its leading emoji, its title, and the
      detail that follows " - " when there is one. */
  datatype Feature = Feature(emoji: string, title: string, detail: Option<string>)

  const TestsFeature: Feature := Feature("✅", "Comprehensive test coverage with automated testing", None)
  const CiFeature: Feature := Feature("🔄", "Continuous Integration and Deployment pipeline", None)
  const DocsFeature: Feature := Feature("📚", "Well-documented codebase with inline comments", None)
  const DockerFeature: Feature := Feature("🐳", "Docker containerization for easy deployment", None)
  const KubernetesFeature: Feature := Feature("☸️", "Kubernetes orchestration support", None)

  /** The detectable features in the order they are listed. */
  const FeatureOrder: seq<Feature> := [TestsFeature, CiFeature, DocsFeature, DockerFeature, KubernetesFeature]

  const FillerFeatures: seq<Feature> := [
    Feature("🚀", "High performance and scalability", None),
    Feature("🔒", "Secure by design with best practices", None),
    Feature("🎨", "Clean and maintainable code architecture", None),
    Feature("⚡", "Fast development with hot reload", None),
    Feature("🌍", "Cross-platform compatibility", None)
  ]

  /** The features the detected technologies justify, in fixed order. */
  function DetectedFeatures(tech: Detector.TechInfo): (r: seq<Feature>)
    ensures Ordering.IsSubsequence(r, FeatureOrder)
    ensures TestsFeature in r <==> tech.hasTests
    ensures CiFeature in r <==> tech.hasCi
    ensures DocsFeature in r <==> tech.hasDocs
    ensures DockerFeature in r <==> "Docker" in tech.tools
    ensures KubernetesFeature in r <==> "Kubernetes" in tech.tools
  {
    var keep := [tech.hasTests, tech.hasCi, tech.hasDocs, "Docker" in tech.tools, "Kubernetes" in tech.tools];
    FeaturesDistinct();
    Ordering.PickMember(keep, FeatureOrder, 0);
    Ordering.PickMember(keep, FeatureOrder, 1);
    Ordering.PickMember(keep, FeatureOrder, 2);
    Ordering.PickMember(keep, FeatureOrder, 3);
    Ordering.PickMember(keep, FeatureOrder, 4);
    Ordering.Pick(keep, FeatureOrder)
  }

  /** The detectable features differ in their emoji. */
  lemma FeaturesDistinct()
    ensures Ordering.Distinct(FeatureOrder)
  {
    assert TestsFeature.emoji[0] == '✅' && CiFeature.emoji[0] == '🔄' && DocsFeature.emoji[0] == '📚';
    assert DockerFeature.emoji[0] == '🐳' && KubernetesFeature.emoji[0] == '☸';
  }

  /** Pads a short feature list with the generic features and caps it at six. */
  function PadFeatures(detected: seq<Feature>): (r: seq<Feature>)
    ensures |r| == Min(6, |detected| + (if |detected| < 3 then 5 else 0))
    ensures |detected| <= 6 ==> r[..|detected|] == detected
    ensures |detected| < 3 ==> r[|detected|..] == FillerFeatures[..|r| - |detected|]
    ensures 3 <= |detected| <= 6 ==> r == detected
  {
    var all := if |detected| < 3 then detected + FillerFeatures else detected;
    all[..Min(6, |all|)]
  }

  /** Where a feature list is laid out: a feature cell, the padding cell, or
      the end of one table row and the start of the next. */
  datatype GridPart = Cell(feature: Feature) | EmptyCell | RowBreak

  /** The loop of `_create_features_grid`: a row break before every even index
      other than zero, then the feature's cell. */
  function LayoutFrom(features: seq<Feature>, i: nat): (r: seq<GridPart>)
    requires i <= |features|
    decreases |features| - i
  {
    if i == |features| then []
    else
      (if i > 0 && i % 2 == 0 then [RowBreak] else []) + [Cell(features[i])] + LayoutFrom(features, i + 1)
  }

  /** The layout of `_create_features_grid`, padded with one empty cell when the
      number of features is odd: every feature once and in order, an even
      number of cells, and every row closed after exactly two of them. */
  function GridLayout(features: seq<Feature>): (r: seq<GridPart>)
    ensures CellCount(r) % 2 == 0
    ensures CellCount(r) == |features| + |features| % 2
    ensures FeatureCells(r) == features
    ensures RowsOfTwo(r)
    ensures BreakCount(r) == if |features| == 0 then 0 else (|features| - 1) / 2
  {
    var r := LayoutFrom(features, 0) + (if |features| % 2 != 0 then [EmptyCell] else []);
    LayoutIsPairs(features, 0);
    assert features[0..] == features;
    assert r == [] + Pairs(features) == Pairs(features);
    PairsShape(features);
    r
  }

  /** Every row break closes a non-empty row of an even number of cells so far:
      together with an even total, each row holds exactly two cells. */
  predicate RowsOfTwo(parts: seq<GridPart>) {
    forall k :: 0 <= k < |parts| && parts[k].RowBreak? ==> CellCount(parts[..k]) > 0 && CellCount(parts[..k]) % 2 == 0
  }

  /** A reference layout: the features taken two at a time, each pair a row,
      the last row completed by an empty cell when it has one feature. */
  function Pairs(features: seq<Feature>): seq<GridPart>
    decreases |features|
  {
    if |features| == 0 then []
    else if |features| == 1 then [Cell(features[0]), EmptyCell]
    else if |features| == 2 then [Cell(features[0]), Cell(features[1])]
    else [Cell(features[0]), Cell(features[1]), RowBreak] + Pairs(features[2..])
  }

  /** The reference layout shows every feature once, in order, in rows of two
      cells. */
  lemma {:induction false} PairsShape(features: seq<Feature>)
    ensures var r := Pairs(features);
      && CellCount(r) == |features| + |features| % 2
      && FeatureCells(r) == features
      && RowsOfTwo(r)
      && BreakCount(r) == if |features| == 0 then 0 else (|features| - 1) / 2
    decreases |features|
  {
    if |features| == 0 {
    } else if |features| == 1 {
      PairsOfOne(features);
    } else if |features| == 2 {
      PairsOfTwo(features);
    } else {
      var f, g, tail := features[0], features[1], features[2..];
      var rest := Pairs(tail);
      PairsShape(tail);
      assert Pairs(features) == [Cell(f), Cell(g), RowBreak] + rest;
      HeadShape(f, g, rest);
      assert features == [f, g] + tail;
      assert |features| % 2 == |tail| % 2;
      assert (|features| - 1) / 2 == 1 + (|tail| - 1) / 2;
      RowsAfterHead(f, g, rest);
    }
  }

  lemma PairsOfOne(features: seq<Feature>)
    requires |features| == 1
    ensures var r := Pairs(features);
      && CellCount(r) == 2 && FeatureCells(r) == features && RowsOfTwo(r) && BreakCount(r) == 0
  {
    var f := features[0];
    var r := Pairs(features);
    assert r == [Cell(f), EmptyCell];
    PartsPair(Cell(f), EmptyCell);
    PartOne(Cell(f));
    PartOne(EmptyCell);
    assert features == [f];
  }

  lemma PairsOfTwo(features: seq<Feature>)
    requires |features| == 2
    ensures var r := Pairs(features);
      && CellCount(r) == 2 && FeatureCells(r) == features && RowsOfTwo(r) && BreakCount(r) == 0
  {
    var f, g := features[0], features[1];
    var r := Pairs(features);
    assert r == [Cell(f), Cell(g)];
    PartsPair(Cell(f), Cell(g));
    PartOne(Cell(f));
    PartOne(Cell(g));
    assert features == [f, g];
  }

  /** A first row of two cells and a row break adds two cells, one break and the
      two features to whatever follows it. */
  lemma HeadShape(f: Feature, g: Feature, rest: seq<GridPart>)
    ensures var r := [Cell(f), Cell(g), RowBreak] + rest;
      && CellCount(r) == 2 + CellCount(rest)
      && BreakCount(r) == 1 + BreakCount(rest)
      && FeatureCells(r) == [f, g] + FeatureCells(rest)
  {
    var head := [Cell(f), Cell(g), RowBreak];
    PartsPair(Cell(f), Cell(g));
    PartOne(Cell(f));
    PartOne(Cell(g));
    PartOne(RowBreak);
    assert head == [Cell(f), Cell(g)] + [RowBreak];
    PartsAppend([Cell(f), Cell(g)], [RowBreak]);
    PartsAppend(head, rest);
  }

  /** Rows of two stay rows of two behind a first row of two cells. */
  lemma RowsAfterHead(f: Feature, g: Feature, rest: seq<GridPart>)
    requires RowsOfTwo(rest)
    ensures RowsOfTwo([Cell(f), Cell(g), RowBreak] + rest)
  {
    var pair := [Cell(f), Cell(g)];
    var head := pair + [RowBreak];
    var r := head + rest;
    assert [Cell(f), Cell(g), RowBreak] == head;
    PartsPair(Cell(f), Cell(g));
    PartOne(RowBreak);
    PartsAppend(pair, [RowBreak]);
    forall k | 0 <= k < |r| && r[k].RowBreak?
      ensures CellCount(r[..k]) > 0 && CellCount(r[..k]) % 2 == 0
    {
      if k < 3 {
        assert k == 2 && r[..k] == pair;
      } else {
        assert r[..k] == head + rest[..k - 3];
        assert rest[k - 3] == r[k];
        PartsAppend(head, rest[..k - 3]);
      }
    }
  }

  lemma PartOne(p: GridPart)
    ensures CellCount([p]) == if p.RowBreak? then 0 else 1
    ensures BreakCount([p]) == if p.RowBreak? then 1 else 0
    ensures FeatureCells([p]) == if p.Cell? then [p.feature] else []
  {
    assert [p][1..] == [];
  }

  lemma PartsPair(p: GridPart, q: GridPart)
    requires !p.RowBreak? && !q.RowBreak?
    ensures CellCount([p, q]) == 2 && BreakCount([p, q]) == 0
    ensures FeatureCells([p, q]) == FeatureCells([p]) + FeatureCells([q])
  {
    PartOne(p);
    PartOne(q);
    PartsAppend([p], [q]);
    assert [p, q] == [p] + [q];
  }

  /** The loop of `_create_features_grid` produces the reference layout:
      starting from an even index, the remaining features are laid out in
      pairs, after a row break when some row is already open. */
  lemma {:induction false} LayoutIsPairs(features: seq<Feature>, i: nat)
    requires i <= |features| && i % 2 == 0
    ensures LayoutFrom(features, i) + (if |features| % 2 != 0 then [EmptyCell] else [])
         == (if 0 < i < |features| then [RowBreak] else []) + Pairs(features[i..])
    decreases |features| - i
  {
    if i == |features| {
      assert features[i..] == [];
    } else if i == |features| - 1 {
      LayoutLast(features, i);
    } else if i + 2 == |features| {
      LayoutTwoSteps(features, i);
      assert LayoutFrom(features, i + 2) == [];
      assert features[i..] == [features[i], features[i + 1]];
    } else {
      LayoutIsPairs(features, i + 2);
      LayoutMiddle(features, i);
    }
  }

  /** One step of `LayoutIsPairs` with more than two features left. */
  lemma LayoutMiddle(features: seq<Feature>, i: nat)
    requires i + 2 < |features| && i % 2 == 0
    requires LayoutFrom(features, i + 2) + (if |features| % 2 != 0 then [EmptyCell] else [])
          == [RowBreak] + Pairs(features[i + 2..])
    ensures LayoutFrom(features, i) + (if |features| % 2 != 0 then [EmptyCell] else [])
         == (if 0 < i then [RowBreak] else []) + Pairs(features[i..])
  {
    var pad: seq<GridPart> := if |features| % 2 != 0 then [EmptyCell] else [];
    var brk: seq<GridPart> := if 0 < i then [RowBreak] else [];
    LayoutTwoSteps(features, i);
    var tail := features[i..];
    assert tail[2..] == features[i + 2..];
    assert tail[0] == features[i] && tail[1] == features[i + 1];
    var pair := [Cell(features[i]), Cell(features[i + 1])];
    PairsUnfold(tail);
    PairStep(brk, pair, LayoutFrom(features, i + 2), pad, Pairs(features[i + 2..]), LayoutFrom(features, i));
  }

  /** More than two features: a full row, a break, and the rest. */
  lemma PairsUnfold(features: seq<Feature>)
    requires |features| > 2
    ensures Pairs(features) == [Cell(features[0]), Cell(features[1])] + [RowBreak] + Pairs(features[2..])
  {
  }

  /** The regrouping behind one step of `LayoutIsPairs`. */
  lemma PairStep(brk: seq<GridPart>, pair: seq<GridPart>, later: seq<GridPart>, pad: seq<GridPart>,
                 next: seq<GridPart>, layout: seq<GridPart>)
    requires layout == brk + pair + later
    requires later + pad == [RowBreak] + next
    ensures layout + pad == brk + (pair + [RowBreak] + next)
  {
    assert layout + pad == brk + pair + (later + pad);
  }

  /** The last feature at an even index opens a row that the padding cell
      completes. */
  lemma LayoutLast(features: seq<Feature>, i: nat)
    requires i == |features| - 1 && i % 2 == 0
    ensures LayoutFrom(features, i) + (if |features| % 2 != 0 then [EmptyCell] else [])
         == (if 0 < i < |features| then [RowBreak] else []) + Pairs(features[i..])
  {
    assert LayoutFrom(features, i + 1) == [];
    assert features[i..] == [features[i]];
  }

  /** Two steps of the loop from an even index: an optional row break, then
      the two cells. */
  lemma LayoutTwoSteps(features: seq<Feature>, i: nat)
    requires i + 2 <= |features| && i % 2 == 0
    ensures LayoutFrom(features, i)
         == (if 0 < i then [RowBreak] else []) + [Cell(features[i]), Cell(features[i + 1])] + LayoutFrom(features, i + 2)
  {
    var open: seq<GridPart> := if 0 < i then [RowBreak] else [];
    var a := Cell(features[i]);
    var b := Cell(features[i + 1]);
    var rest := LayoutFrom(features, i + 2);
    assert (i + 1) % 2 != 0;
    assert LayoutFrom(features, i + 1) == [b] + rest;
    assert LayoutFrom(features, i) == open + [a] + ([b] + rest);
    assert open + [a] + ([b] + rest) == open + [a, b] + rest;
  }

  function CellCount(parts: seq<GridPart>): nat {
    if |parts| == 0 then 0 else (if parts[0].RowBreak? then 0 else 1) + CellCount(parts[1..])
  }

  function BreakCount(parts: seq<GridPart>): nat {
    if |parts| == 0 then 0 else (if parts[0].RowBreak? then 1 else 0) + BreakCount(parts[1..])
  }

  /** The features of the feature cells, in order. */
  function FeatureCells(parts: seq<GridPart>): seq<Feature> {
    if |parts| == 0 then [] else (if parts[0].Cell? then [parts[0].feature] else []) + FeatureCells(parts[1..])
  }

  lemma PartsAppend(a: seq<GridPart>, b: seq<GridPart>)
    ensures CellCount(a + b) == CellCount(a) + CellCount(b)
    ensures BreakCount(a + b) == BreakCount(a) + BreakCount(b)
    ensures FeatureCells(a + b) == FeatureCells(a) + FeatureCells(b)
  {
    CellCountAppend(a, b);
    BreakCountAppend(a, b);
    FeatureCellsAppend(a, b);
  }

  lemma {:induction false} CellCountAppend(a: seq<GridPart>, b: seq<GridPart>)
    ensures CellCount(a + b) == CellCount(a) + CellCount(b)
  {
    if |a| == 0 {
      assert a + b == b;
    } else {
      var ab := a + b;
      assert ab[0] == a[0] && ab[1..] == a[1..] + b;
      CellCountAppend(a[1..], b);
    }
  }

  lemma {:induction false} BreakCountAppend(a: seq<GridPart>, b: seq<GridPart>)
    ensures BreakCount(a + b) == BreakCount(a) + BreakCount(b)
  {
    if |a| == 0 {
      assert a + b == b;
    } else {
      var ab := a + b;
      assert ab[0] == a[0] && ab[1..] == a[1..] + b;
      BreakCountAppend(a[1..], b);
    }
  }

  lemma {:induction false} FeatureCellsAppend(a: seq<GridPart>, b: seq<GridPart>)
    ensures FeatureCells(a + b) == FeatureCells(a) + FeatureCells(b)
  {
    if |a| == 0 {
      assert a + b == b;
    } else {
      var ab := a + b;
      assert ab[0] == a[0] && ab[1..] == a[1..] + b;
      FeatureCellsAppend(a[1..], b);
      var head := if a[0].Cell? then [a[0].feature] else [];
      assert FeatureCells(ab) == head + (FeatureCells(a[1..]) + FeatureCells(b));
      assert head + (FeatureCells(a[1..]) + FeatureCells(b)) == (head + FeatureCells(a[1..])) + FeatureCells(b);
    }
  }

  function RenderPart(part: GridPart): string {
    match part
    case Cell(f) =>
      "<td width=\"50%\">\n\n**" + f.emoji + " " + f.title + "**\n\n"
      + (match f.detail case Some(d) => "<br/>" + d + "\n\n" case None => "")
      + "</td>\n"
    case EmptyCell => "<td></td>\n"
    case RowBreak => "</tr>\n<tr>\n"
  }

  function RenderParts(parts: seq<GridPart>): string {
    if |parts| == 0 then "" else RenderPart(parts[0]) + RenderParts(parts[1..])
  }

  const GridOpen: string := "<table>\n<tr>\n"
  const GridClose: string := "</tr>\n</table>"

  /** `_create_features_grid`: a two-column HTML table of the features. */
  function FeaturesGrid(features: seq<Feature>): (r: string)
    ensures "<table>" <= r
    ensures |r| >= |"</table>"| && r[|r| - |"</table>"|..] == "</table>"
  {
    var r := GridOpen + RenderParts(GridLayout(features)) + GridClose;
    assert r[|r| - |"</table>"|..] == GridClose[|GridClose| - |"</table>"|..];
    r
  }

  /** `_generate_features`. */
  function Features(tech: Detector.TechInfo): (r: string)
    ensures |r| > 0
  {
    "## ✨ Features\n\n" + FeaturesGrid(PadFeatures(DetectedFeatures(tech)))
  }

  // ---------------------------------------------------------------------------
  // Tech stack
  // ---------------------------------------------------------------------------

  const TechStackHeading: string := "## 🛠️ Tech Stack"

  function LanguageBadges(languages: seq<string>): (r: seq<string>)
    ensures |r| == |languages|
    ensures forall i :: 0 <= i < |r| ==> ("![" + languages[i] + "](") <= r[i]
  {
    seq(|languages|, i requires 0 <= i < |languages| => LanguageBadge(languages[i], "flat-square"))
  }

  function FrameworkBadges(frameworks: seq<string>): (r: seq<string>)
    ensures |r| == |frameworks|
    ensures forall i :: 0 <= i < |r| ==> ("![" + frameworks[i] + "](") <= r[i]
  {
    seq(|frameworks|, i requires 0 <= i < |frameworks| => FrameworkBadge(frameworks[i]))
  }

  function ToolBadges(tools: seq<string>): (r: seq<string>)
    ensures |r| == |tools|
    ensures forall i :: 0 <= i < |r| ==> ("![" + tools[i] + "](") <= r[i]
  {
    seq(|tools|, i requires 0 <= i < |tools| => ToolBadge(tools[i]))
  }

  /** A sub-heading and the line of badges under it, or nothing when there is
      nothing to show. */
  function Group(heading: string, badges: seq<string>): (r: seq<string>)
    ensures |r| == if |badges| == 0 then 0 else 2
    ensures |badges| > 0 ==> r[0] == heading
    ensures forall k :: 0 <= k < |badges| ==> Contains(r[1], badges[k])
  {
    if |badges| == 0 then []
    else
      forall k | 0 <= k < |badges|
        ensures Contains(Join(badges, " "), badges[k])
      {
        JoinShowsPart(badges, " ", k);
      }
      [heading, Join(badges, " ")]
  }

  /** The lines of `_generate_tech_stack`: the heading, then a sub-heading and
      one line of badges for each non-empty group. */
  function TechStackLines(tech: Detector.TechInfo): (r: seq<string>)
    ensures |r| >= 1 && r[0] == TechStackHeading
    ensures |r| == 1 + 2 * (Indicator(|tech.languages| > 0) + Indicator(|tech.frameworks| > 0) + Indicator(|tech.tools| > 0))
  {
    [TechStackHeading]
    + Group("\n### Languages", LanguageBadges(tech.languages))
    + Group("\n### Frameworks & Libraries", FrameworkBadges(tech.frameworks))
    + Group("\n### Tools & Platforms", ToolBadges(tech.tools))
  }

  /** `_generate_tech_stack`: empty exactly when there are no languages, no
      frameworks and no tools; otherwise it opens with the heading. */
  function TechStack(tech: Detector.TechInfo): (r: string)
    ensures r == "" <==> |tech.languages| == 0 && |tech.frameworks| == 0 && |tech.tools| == 0
    ensures r != "" ==> TechStackHeading <= r
  {
    var lines := TechStackLines(tech);
    if |lines| > 1 then
      JoinStartsWith(lines, "\n");
      Join(lines, "\n")
    else ""
  }

  /** Every language, framework and tool gets its badge in the tech-stack
      section. */
  lemma TechStackShowsBadges(tech: Detector.TechInfo)
    ensures forall l :: l in tech.languages ==> Contains(TechStack(tech), LanguageBadge(l, "flat-square"))
    ensures forall fw :: fw in tech.frameworks ==> Contains(TechStack(tech), FrameworkBadge(fw))
    ensures forall t :: t in tech.tools ==> Contains(TechStack(tech), ToolBadge(t))
  {
    forall l | l in tech.languages
      ensures Contains(TechStack(tech), LanguageBadge(l, "flat-square"))
    {
      var i :| 0 <= i < |tech.languages| && tech.languages[i] == l;
      LanguageShown(tech, i);
    }
    forall fw | fw in tech.frameworks
      ensures Contains(TechStack(tech), FrameworkBadge(fw))
    {
      var i :| 0 <= i < |tech.frameworks| && tech.frameworks[i] == fw;
      FrameworkShown(tech, i);
    }
    forall t | t in tech.tools
      ensures Contains(TechStack(tech), ToolBadge(t))
    {
      var i :| 0 <= i < |tech.tools| && tech.tools[i] == t;
      ToolShown(tech, i);
    }
  }

  lemma LanguageShown(tech: Detector.TechInfo, i: nat)
    requires i < |tech.languages|
    ensures Contains(TechStack(tech), LanguageBadge(tech.languages[i], "flat-square"))
  {
    var badges := LanguageBadges(tech.languages);
    var g1 := Group("\n### Languages", badges);
    var rest := Group("\n### Frameworks & Libraries", FrameworkBadges(tech.frameworks))
      + Group("\n### Tools & Platforms", ToolBadges(tech.tools));
    var lines := TechStackLines(tech);
    assert lines == [TechStackHeading] + g1 + rest;
    assert lines[2] == g1[1];
    assert badges[i] == LanguageBadge(tech.languages[i], "flat-square");
    StackLineShown(tech, 2, badges[i]);
  }

  lemma FrameworkShown(tech: Detector.TechInfo, i: nat)
    requires i < |tech.frameworks|
    ensures Contains(TechStack(tech), FrameworkBadge(tech.frameworks[i]))
  {
    var badges := FrameworkBadges(tech.frameworks);
    var g1 := Group("\n### Languages", LanguageBadges(tech.languages));
    var g2 := Group("\n### Frameworks & Libraries", badges);
    var g3 := Group("\n### Tools & Platforms", ToolBadges(tech.tools));
    var lines := TechStackLines(tech);
    var front := [TechStackHeading] + g1;
    assert lines == front + g2 + g3;
    SecondOfGroup(front, g2, g3);
    assert badges[i] == FrameworkBadge(tech.frameworks[i]);
    StackLineShown(tech, |front| + 1, badges[i]);
  }

  lemma ToolShown(tech: Detector.TechInfo, i: nat)
    requires i < |tech.tools|
    ensures Contains(TechStack(tech), ToolBadge(tech.tools[i]))
  {
    var badges := ToolBadges(tech.tools);
    var g3 := Group("\n### Tools & Platforms", badges);
    var lines := TechStackLines(tech);
    var front := [TechStackHeading]
      + Group("\n### Languages", LanguageBadges(tech.languages))
      + Group("\n### Frameworks & Libraries", FrameworkBadges(tech.frameworks));
    assert lines == front + g3 + [];
    SecondOfGroup(front, g3, []);
    assert badges[i] == ToolBadge(tech.tools[i]);
    StackLineShown(tech, |front| + 1, badges[i]);
  }

  lemma SecondOfGroup(front: seq<string>, g: seq<string>, back: seq<string>)
    requires |g| == 2
    ensures (front + g + back)[|front| + 1] == g[1]
  {
  }

  /** Whatever a line of the tech stack shows, the section shows. */
  lemma StackLineShown(tech: Detector.TechInfo, j: nat, badge: string)
    requires j < |TechStackLines(tech)| && j >= 1
    requires Contains(TechStackLines(tech)[j], badge)
    ensures Contains(TechStack(tech), badge)
  {
    var lines := TechStackLines(tech);
    JoinShowsPart(lines, "\n", j);
    ContainsTransitive(Join(lines, "\n"), lines[j], badge);
  }

  // ---------------------------------------------------------------------------
  // Precedence chains
  // ---------------------------------------------------------------------------

  /** A reference for the `if`/`elif` chains: the index of the first group
      that has a member in `present`, if any. */
  function FirstGroup(groups: seq<seq<string>>, present: seq<string>): (r: Option<nat>)
    ensures r.None? <==> forall i, x :: 0 <= i < |groups| && x in groups[i] ==> x !in present
    ensures r.Some? ==>
      && r.value < |groups|
      && (exists x :: x in groups[r.value] && x in present)
      && forall i, x :: 0 <= i < r.value && x in groups[i] ==> x !in present
  {
    if |groups| == 0 then None
    else if exists x :: x in groups[0] && x in present then Some(0)
    else
      var rest := FirstGroup(groups[1..], present);
      assert forall i :: 1 <= i < |groups| ==> groups[i] == groups[1..][i - 1];
      match rest
      case None => None
      case Some(j) => Some(j + 1)
  }

  /** How the quick start installs and runs the project. */
  datatype QuickSetup = NpmQuick | PipQuick | ManualQuick

  const QuickStartOrder: seq<seq<string>> := [["npm"], ["pip"]]

  /** npm before pip, otherwise a pointer to the installation section. */
  function QuickStartChoice(managers: seq<string>): (r: QuickSetup)
  {
    if "npm" in managers then NpmQuick
    else if "pip" in managers then PipQuick
    else ManualQuick
  }

  function QuickRank(q: QuickSetup): Option<nat> {
    match q
    case NpmQuick => Some(0)
    case PipQuick => Some(1)
    case ManualQuick => None
  }

  /** The quick-start chain picks the first of npm and pip that was detected. */
  lemma QuickStartPrecedence(managers: seq<string>)
    ensures QuickRank(QuickStartChoice(managers)) == FirstGroup(QuickStartOrder, managers)
  {
    var f := FirstGroup(QuickStartOrder, managers);
    assert QuickStartOrder[0] == ["npm"] && QuickStartOrder[1] == ["pip"];
    if f.Some? {
      assert f.value == 0 || f.value == 1;
    }
  }

  function QuickCommands(name: string, managers: seq<string>): (r: seq<string>)
    ensures |r| >= 4 && r[1] == CloneCommand(name)
  {
    ["# Clone the repository", CloneCommand(name), ""]
    + match QuickStartChoice(managers)
      case NpmQuick => ["# Install dependencies", "npm install", "", "# Run the project", "npm start"]
      case PipQuick => ["# Install dependencies", "pip install -r requirements.txt", "", "# Run the project", "python main.py"]
      case ManualQuick => ["# Follow installation instructions below"]
  }

  /** `_generate_quick_start`: a shell block that clones the repository and,
      depending on the package managers, installs and runs it. */
  function QuickStart(name: string, tech: Detector.TechInfo): (r: string)
    ensures |r| > 0
  {
    "## ⚡ Quick Start\n\n```bash\n" + Join(QuickCommands(name, tech.packageManagers), "\n") + "\n```"
  }

  /** The dependency step of the installation guide. */
  datatype InstallStep = PipInstall | PoetryInstall | NpmInstall | CargoBuild | GoDownload | NoInstall

  const InstallOrder: seq<seq<string>> := [["pip"], ["poetry"], ["npm"], ["cargo"], ["go mod"]]

  function InstallChoice(managers: seq<string>): InstallStep {
    if "pip" in managers then PipInstall
    else if "poetry" in managers then PoetryInstall
    else if "npm" in managers then NpmInstall
    else if "cargo" in managers then CargoBuild
    else if "go mod" in managers then GoDownload
    else NoInstall
  }

  function InstallRank(s: InstallStep): Option<nat> {
    match s
    case PipInstall => Some(0)
    case PoetryInstall => Some(1)
    case NpmInstall => Some(2)
    case CargoBuild => Some(3)
    case GoDownload => Some(4)
    case NoInstall => None
  }

  /** The installation chain picks the first of pip, poetry, npm, cargo and
      go mod that was detected. */
  lemma InstallPrecedence(managers: seq<string>)
    ensures InstallRank(InstallChoice(managers)) == FirstGroup(InstallOrder, managers)
  {
    var f := FirstGroup(InstallOrder, managers);
    assert InstallOrder[0] == ["pip"] && InstallOrder[1] == ["poetry"] && InstallOrder[2] == ["npm"];
    assert InstallOrder[3] == ["cargo"] && InstallOrder[4] == ["go mod"];
    if f.Some? {
      assert f.value < 5;
    }
  }

  function InstallLines(step: InstallStep): seq<string> {
    match step
    case PipInstall => [
      "\n**2️⃣ Create virtual environment (recommended)**", "```bash", "python -m venv venv",
      "source venv/bin/activate  # On Windows: venv\\Scripts\\activate", "```",
      "\n**3️⃣ Install dependencies**", "```bash", "pip install -r requirements.txt", "```"]
    case PoetryInstall => ["\n**2️⃣ Install dependencies with Poetry**", "```bash", "poetry install", "```"]
    case NpmInstall => ["\n**2️⃣ Install dependencies**", "```bash", "npm install", "# or", "yarn install", "```"]
    case CargoBuild => ["\n**2️⃣ Build the project**", "```bash", "cargo build --release", "```"]
    case GoDownload => ["\n**2️⃣ Download dependencies**", "```bash", "go mod download", "```"]
    case NoInstall => []
  }

  const NodePrerequisite: string := "- Node.js 16.x or higher"
  const PythonPrerequisite: string := "- Python 3.8 or higher"
  const DockerPrerequisite: string := "- Docker and Docker Compose"
  const GoPrerequisite: string := "- Go 1.20 or higher"

  /** At least one specific prerequisite applies. */
  predicate HasPrerequisite(tech: Detector.TechInfo) {
    || "Node.js" in tech.frameworks || "npm" in tech.packageManagers
    || tech.primaryLanguage == "Python"
    || "Docker" in tech.tools
    || "go mod" in tech.packageManagers
  }

  const PrerequisiteOrder: seq<string> := [NodePrerequisite, PythonPrerequisite, DockerPrerequisite, GoPrerequisite]

  /** The prerequisites of `_generate_installation`: Node.js, Python, Docker and
      Go in that order when they apply, or the primary language alone when none
      does. */
  function Prerequisites(tech: Detector.TechInfo): (r: seq<string>)
    ensures |r| >= 1
    ensures !HasPrerequisite(tech) <==> r == [LatestPrerequisite(tech.primaryLanguage)]
    ensures HasPrerequisite(tech) ==> Ordering.IsSubsequence(r, PrerequisiteOrder)
    ensures NodePrerequisite in r <==> "Node.js" in tech.frameworks || "npm" in tech.packageManagers
    ensures PythonPrerequisite in r <==> tech.primaryLanguage == "Python"
    ensures DockerPrerequisite in r <==> "Docker" in tech.tools
    ensures GoPrerequisite in r <==> "go mod" in tech.packageManagers
  {
    var keep := ["Node.js" in tech.frameworks || "npm" in tech.packageManagers,
                 tech.primaryLanguage == "Python", "Docker" in tech.tools, "go mod" in tech.packageManagers];
    var o := PrerequisiteOrder;
    var found := Ordering.Pick(keep, o);
    var fallback := LatestPrerequisite(tech.primaryLanguage);
    PrerequisitesDistinct();
    Ordering.PickMember(keep, o, 0);
    Ordering.PickMember(keep, o, 1);
    Ordering.PickMember(keep, o, 2);
    Ordering.PickMember(keep, o, 3);
    Ordering.PickNone(keep, o);
    assert fallback[|fallback| - 1] == ')';
    if |found| == 0 then
      [fallback]
    else
      assert found[0] in found;
      found
  }

  /** The line for a language without a specific prerequisite. */
  function LatestPrerequisite(language: string): string {
    "- " + language + " (latest stable version)"
  }

  /** The specific prerequisites differ from each other, and none ends the way
      the fallback line does. */
  lemma PrerequisitesDistinct()
    ensures Ordering.Distinct(PrerequisiteOrder)
    ensures forall p :: p in PrerequisiteOrder ==> p[|p| - 1] != ')'
  {
    assert |NodePrerequisite| == 24 && |PythonPrerequisite| == 22;
    assert |DockerPrerequisite| == 27 && |GoPrerequisite| == 19;
    assert NodePrerequisite[23] == 'r' && PythonPrerequisite[21] == 'r';
    assert DockerPrerequisite[26] == 'e' && GoPrerequisite[18] == 'r';
  }

  /** `_generate_installation`: prerequisites, cloning, the dependency step of
      the first detected package manager, and the environment file. */
  function Installation(name: string, tech: Detector.TechInfo): (r: string)
    ensures |r| > 0
  {
    var slug := Slug(name);
    var lines :=
      ["## 📦 Installation", "\n### Prerequisites", Join(Prerequisites(tech), "\n"),
       "\n### Step-by-Step Guide", "\n**1️⃣ Clone the repository**", "```bash",
       CloneCommand(name), "cd " + slug, "```"]
      + InstallLines(InstallChoice(tech.packageManagers))
      + ["\n**4️⃣ Set up environment variables**", "```bash", "cp .env.example .env",
         "# Edit .env with your configuration", "```"];
    JoinStartsWith(lines, "\n");
    Join(lines, "\n")
  }

  /** How the usage section runs the project. */
  datatype UsageKind = DjangoUsage | ApiUsage | StreamlitUsage | NodeUsage | GenericUsage

  const UsageOrder: seq<seq<string>> := [["Django"], ["Flask", "FastAPI"], ["Streamlit"], ["React", "Next.js"]]

  function UsageChoice(frameworks: seq<string>): UsageKind {
    if "Django" in frameworks then DjangoUsage
    else if "Flask" in frameworks || "FastAPI" in frameworks then ApiUsage
    else if "Streamlit" in frameworks then StreamlitUsage
    else if "React" in frameworks || "Next.js" in frameworks then NodeUsage
    else GenericUsage
  }

  function UsageRank(u: UsageKind): Option<nat> {
    match u
    case DjangoUsage => Some(0)
    case ApiUsage => Some(1)
    case StreamlitUsage => Some(2)
    case NodeUsage => Some(3)
    case GenericUsage => None
  }

  /** The usage chain picks the first framework group with a detected member:
      Django, then Flask or FastAPI, then Streamlit, then React or Next.js. */
  lemma UsagePrecedence(frameworks: seq<string>)
    ensures UsageRank(UsageChoice(frameworks)) == FirstGroup(UsageOrder, frameworks)
  {
    var f := FirstGroup(UsageOrder, frameworks);
    assert UsageOrder[0] == ["Django"] && UsageOrder[1] == ["Flask", "FastAPI"];
    assert UsageOrder[2] == ["Streamlit"] && UsageOrder[3] == ["React", "Next.js"];
    if f.Some? {
      assert f.value < 4;
    }
  }

  /** The run command used when no framework decides: by primary language. */
  function RunCommand(primary: string): (r: string)
    ensures primary !in {"Python", "Go", "Rust", "Node.js", "JavaScript"} ==> r == "# See documentation for usage instructions"
  {
    if primary == "Python" then "python main.py"
    else if primary == "Go" then "go run main.go"
    else if primary == "Rust" then "cargo run"
    else if primary == "Node.js" || primary == "JavaScript" then "npm start"
    else "# See documentation for usage instructions"
  }

  function UsageLines(kind: UsageKind, primary: string): seq<string> {
    match kind
    case DjangoUsage => [
      "```bash", "# Run migrations", "python manage.py migrate", "",
      "# Create superuser", "python manage.py createsuperuser", "",
      "# Run development server", "python manage.py runserver", "```",
      "\nVisit `http://localhost:8000` in your browser"]
    case ApiUsage => [
      "```bash", "# Run the application", "python app.py", "# or",
      "uvicorn main:app --reload  # For FastAPI", "```",
      "\nAPI will be available at `http://localhost:8000`"]
    case StreamlitUsage => ["```bash", "streamlit run app.py", "```", "\nApp will open in your browser automatically"]
    case NodeUsage => [
      "```bash", "# Development mode", "npm run dev", "", "# Build for production",
      "npm run build", "", "# Start production server", "npm start", "```",
      "\nOpen `http://localhost:3000`"]
    case GenericUsage => ["```bash", "# Run the application", RunCommand(primary), "```"]
  }

  /** `_generate_usage`. */
  function Usage(tech: Detector.TechInfo): (r: string)
    ensures |r| > 0
  {
    var lines :=
      ["## 🚀 Usage", "\n### Basic Usage"]
      + UsageLines(UsageChoice(tech.frameworks), tech.primaryLanguage)
      + ["\n### Examples", "\n```bash", "# Example 1: Basic usage", "# Add your example here", "",
         "# Example 2: Advanced usage", "# Add your example here", "```"];
    JoinStartsWith(lines, "\n");
    Join(lines, "\n")
  }

  // ---------------------------------------------------------------------------
  // Project structure and license
  // ---------------------------------------------------------------------------

  const SrcNote: string := "- **`src/`** - Source code and main application logic"
  const TestsNote: string := "- **`tests/`** - Test files and test utilities"
  const DocsNote: string := "- **`docs/`** - Documentation files"
  const ConfigNote: string := "- **`config/`** - Configuration files"
  const StructureFallback: string := "- See code structure above for file organization"

  /** Some directory's path text, as given or lower-cased, contains `word`. */
  predicate SomeDirContains(dirs: seq<Path>, word: string, lower: bool) {
    exists d :: d in dirs && Contains(if lower then Lower(PathText(d)) else PathText(d), word)
  }

  /** One of the four directory patterns occurs. */
  predicate KnownLayout(dirs: seq<Path>) {
    || SomeDirContains(dirs, "src", false)
    || SomeDirContains(dirs, "test", true)
    || SomeDirContains(dirs, "doc", true)
    || SomeDirContains(dirs, "config", true)
  }

  const StructureNoteOrder: seq<string> := [SrcNote, TestsNote, DocsNote, ConfigNote]

  /** `_explain_structure`: a note for each pattern some directory path
      contains ("src" as written, the others ignoring case), in fixed order, or
      the single fallback line when none does. */
  function StructureNotes(dirs: seq<Path>): (r: seq<string>)
    ensures r == [StructureFallback] <==> !KnownLayout(dirs)
    ensures KnownLayout(dirs) ==> Ordering.IsSubsequence(r, StructureNoteOrder)
    ensures SrcNote in r <==> SomeDirContains(dirs, "src", false)
    ensures TestsNote in r <==> SomeDirContains(dirs, "test", true)
    ensures DocsNote in r <==> SomeDirContains(dirs, "doc", true)
    ensures ConfigNote in r <==> SomeDirContains(dirs, "config", true)
  {
    var keep := [SomeDirContains(dirs, "src", false), SomeDirContains(dirs, "test", true),
                 SomeDirContains(dirs, "doc", true), SomeDirContains(dirs, "config", true)];
    var o := StructureNoteOrder;
    var found := Ordering.Pick(keep, o);
    NotesDistinct();
    Ordering.PickMember(keep, o, 0);
    Ordering.PickMember(keep, o, 1);
    Ordering.PickMember(keep, o, 2);
    Ordering.PickMember(keep, o, 3);
    Ordering.PickNone(keep, o);
    if |found| == 0 then [StructureFallback]
    else
      assert found[0] in found;
      found
  }

  /** The directory notes differ from each other and from the fallback line. */
  lemma NotesDistinct()
    ensures Ordering.Distinct(StructureNoteOrder)
    ensures StructureFallback !in StructureNoteOrder
  {
    assert |StructureFallback| == 48;
    assert |SrcNote| == 53 && |TestsNote| == 46 && |DocsNote| == 35 && |ConfigNote| == 37;
  }

  function ExplainStructure(dirs: seq<Path>): string {
    Join(StructureNotes(dirs), "\n")
  }

  /** `_generate_project_structure`: the rendered tree in a code block, then the
      directory notes. */
  function ProjectStructure(scan: Scanner.ScanResult): (r: string)
    ensures |r| > 0
  {
    "## 📁 Project Structure\n\n```\n" + scan.fileTree + "\n```\n\n### Key Directories\n\n"
    + ExplainStructure(scan.directories)
  }

  const LicensedText: string :=
    "## 📄 License\n\nDistributed under the MIT License. See `LICENSE` file for more information."

  const UnlicensedText: string :=
    "## 📄 License\n\nThis project is unlicensed. Please add a LICENSE file to specify terms of use.\n\n"
    + "Recommended licenses:\n"
    + "- [MIT License](https://opensource.org/licenses/MIT) - Permissive\n"
    + "- [GPL v3](https://www.gnu.org/licenses/gpl-3.0.en.html) - Copyleft\n"
    + "- [Apache 2.0](https://opensource.org/licenses/Apache-2.0) - Permissive with patent grant"

  /** `_generate_license`: one of exactly two texts, chosen by whether a license
      file was found. */
  function License(special: map<string, string>): (r: string)
    ensures r == LicensedText <==> "license" in special
    ensures r == UnlicensedText <==> "license" !in special
  {
    assert |LicensedText| != |UnlicensedText|;
    if "license" in special then LicensedText else UnlicensedText
  }

  // ---------------------------------------------------------------------------
  // Fixed sections
  // ---------------------------------------------------------------------------

  const Demo: string :=
    "## 🎬 Demo\n\n<div align=\"center\">\n\n### 📸 Screenshots\n\n<table>\n  <tr>\n"
    + "    <td><img src=\"screenshots/demo1.png\" alt=\"Screenshot 1\" width=\"400\"/></td>\n"
    + "    <td><img src=\"screenshots/demo2.png\" alt=\"Screenshot 2\" width=\"400\"/></td>\n"
    + "  </tr>\n  <tr>\n"
    + "    <td align=\"center\"><em>Main Interface</em></td>\n"
    + "    <td align=\"center\"><em>Feature Showcase</em></td>\n"
    + "  </tr>\n</table>\n\n> 🎥 **[Live Demo](#)** | 📹 **[Video Tutorial](#)**\n\n</div>\n\n---"

  const Roadmap: string :=
    "## 🗺️ Roadmap\n\n- [x] Initial release\n- [ ] Add feature X\n- [ ] Improve performance\n"
    + "- [ ] Add more documentation\n- [ ] Add integration tests\n- [ ] Release v2.0\n\n"
    + "See the [open issues](https://github.com/yourusername/project/issues) for a full list of proposed features."

  const Contributing: string :=
    "## 🤝 Contributing\n\nContributions make the open source community amazing! Any contributions you make are **greatly appreciated**.\n\n"
    + "### How to Contribute\n\n1. **Fork** the Project\n"
    + "2. **Create** your Feature Branch (`git checkout -b feature/AmazingFeature`)\n"
    + "3. **Commit** your Changes (`git commit -m 'Add some AmazingFeature'`)\n"
    + "4. **Push** to the Branch (`git push origin feature/AmazingFeature`)\n"
    + "5. **Open** a Pull Request\n\n### Development Guidelines\n\n"
    + "- Write clear, commented code\n- Follow the existing code style\n- Add tests for new features\n"
    + "- Update documentation as needed\n\n### Code of Conduct\n\n"
    + "Please read our [Code of Conduct](CODE_OF_CONDUCT.md) before contributing."

  const Acknowledgments: string :=
    "## 🙏 Acknowledgments\n\n- Thanks to all contributors\n- Inspired by awesome open source projects\n"
    + "- Built with amazing tools and frameworks"

  const Footer: string :=
    "---\n\n<div align=\"center\">\n\n**⭐ Star this repo if you find it helpful! ⭐**\n\n"
    + "Made with ❤️ by [Your Name](https://github.com/yourusername)\n\n"
    + "**[⬆ Back to Top](#-project-name)**\n\n"
    + "*Auto-generated using [README Generator](https://github.com/alxgraphy/readme-generator)*\n\n</div>"

  // ---------------------------------------------------------------------------
  // The document
  // ---------------------------------------------------------------------------

  /* The fifteen sections of `generate`, in order: five before the tech stack,
     the tech stack, and nine after it. Every section but the tech stack has
     text; that is stated for short runs of consecutive sections. */

  /** The header and the badges. */
  function OpeningTexts(name: string, tech: Detector.TechInfo, special: map<string, string>): (r: seq<string>)
    ensures "" !in r
  {
    [Header(name), Badges(name, tech, special)]
  }

  /** The description and the demo. */
  function AboutTexts(tech: Detector.TechInfo): (r: seq<string>)
    ensures "" !in r
  {
    [Description(tech), Demo]
  }

  /** The quick start and the installation. */
  function SetupTexts(name: string, tech: Detector.TechInfo): (r: seq<string>)
    ensures "" !in r
  {
    [QuickStart(name, tech), Installation(name, tech)]
  }

  /** The usage and the project structure. */
  function GuideTexts(scan: Scanner.ScanResult, tech: Detector.TechInfo): (r: seq<string>)
    ensures "" !in r
  {
    [Usage(tech), ProjectStructure(scan)]
  }

  /** The roadmap and the contributing guide. */
  function CommunityTexts(): (r: seq<string>)
    ensures "" !in r
  {
    [Roadmap, Contributing]
  }

  /** The license, the acknowledgments and the footer. */
  function ClosingTexts(special: map<string, string>): (r: seq<string>)
    ensures "" !in r
  {
    [License(special), Acknowledgments, Footer]
  }

  /** `generate`: the fifteen sections in order, the empty ones dropped, joined
      by blank lines. */
  function Generate(name: string, scan: Scanner.ScanResult, tech: Detector.TechInfo): string {
    var before := OpeningTexts(name, tech, scan.specialFiles) + AboutTexts(tech) + [Features(tech)];
    var after := SetupTexts(name, tech) + GuideTexts(scan, tech) + CommunityTexts() + ClosingTexts(scan.specialFiles);
    Document(before, TechStack(tech), after)
  }

  /** `'\n\n'.join(filter(None, sections))` for the sections before the tech
      stack, the tech stack, and the sections after it. */
  function Document(before: seq<string>, stack: string, after: seq<string>): string {
    Join(NonEmpty(before + [stack] + after), "\n\n")
  }

  /** `filter(None, sections)`: the non-empty sections, in order. */
  function NonEmpty(sections: seq<string>): seq<string> {
    if |sections| == 0 then []
    else (if sections[0] == "" then [] else [sections[0]]) + NonEmpty(sections[1..])
  }

  /** The filter keeps exactly the non-empty sections, in their order. */
  lemma {:induction false} NonEmptyFilters(sections: seq<string>)
    ensures Ordering.IsSubsequence(NonEmpty(sections), sections)
    ensures forall s :: s in NonEmpty(sections) <==> s in sections && s != ""
  {
    if |sections| > 0 {
      var rest := NonEmpty(sections[1..]);
      NonEmptyFilters(sections[1..]);
      Ordering.SubsequencePrepend(sections[0] != "", rest, sections);
      assert forall s :: s in sections <==> s == sections[0] || s in sections[1..];
      assert NonEmpty(sections) == (if sections[0] != "" then [sections[0]] else []) + rest;
    }
  }

  lemma {:induction false} NonEmptyAppend(a: seq<string>, b: seq<string>)
    ensures NonEmpty(a + b) == NonEmpty(a) + NonEmpty(b)
  {
    if |a| == 0 {
      assert a + b == b;
    } else {
      var head := if a[0] == "" then [] else [a[0]];
      assert (a + b)[0] == a[0] && (a + b)[1..] == a[1..] + b;
      NonEmptyAppend(a[1..], b);
      assert NonEmpty(a + b) == head + (NonEmpty(a[1..]) + NonEmpty(b));
      assert head + (NonEmpty(a[1..]) + NonEmpty(b)) == (head + NonEmpty(a[1..])) + NonEmpty(b);
    }
  }

  lemma {:induction false} NonEmptyKeepsFull(s: seq<string>)
    requires "" !in s
    ensures NonEmpty(s) == s
  {
    if |s| > 0 {
      assert s[1..] == s[1..] && "" !in s[1..] by {
        assert forall x :: x in s[1..] ==> x in s;
      }
      NonEmptyKeepsFull(s[1..]);
      assert [s[0]] + s[1..] == s;
    }
  }

  /** When every section but the tech stack has text, the filter drops at most
      the tech stack. */
  lemma NonEmptySections(before: seq<string>, stack: string, after: seq<string>)
    requires "" !in before && "" !in after
    ensures NonEmpty(before + [stack] + after) == before + (if stack == "" then [] else [stack]) + after
  {
    var front := before + [stack];
    NonEmptyAppend(front, after);
    NonEmptyAppend(before, [stack]);
    NonEmptyKeepsFull(before);
    NonEmptyKeepsFull(after);
    NonEmptyOne(stack);
  }

  lemma NonEmptyOne(s: string)
    ensures NonEmpty([s]) == if s == "" then [] else [s]
  {
    assert [s][1..] == [];
  }

  /** The document is the kept sections joined by blank lines: it opens with the
      first section and closes with the last. */
  lemma DocumentShape(before: seq<string>, stack: string, after: seq<string>)
    requires |before| > 0 && |after| > 0
    requires "" !in before && "" !in after
    ensures var kept := before + (if stack == "" then [] else [stack]) + after;
      Document(before, stack, after) == Join(kept, "\n\n")
    ensures var doc := Document(before, stack, after);
      && before[0] <= doc
      && var last := after[|after| - 1]; |last| <= |doc| && doc[|doc| - |last|..] == last
  {
    NonEmptySections(before, stack, after);
    var kept := before + (if stack == "" then [] else [stack]) + after;
    assert kept[0] == before[0] && kept[|kept| - 1] == after[|after| - 1];
    JoinStartsWith(kept, "\n\n");
    JoinEndsWith(kept, "\n\n");
  }
}

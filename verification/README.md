# readme-generator, modelled in Dafny

readme-generator turns a project directory into a README in three stages:

- **Scanner.** Walks the directory tree, skipping ignored and hidden names, down to a depth bound. It records files, directories and file suffixes, renders a capped file tree, and looks up the "special files" (readme, license, requirements, …) at the root.
- **Detector.** Derives the languages, frameworks, package managers, tools and primary language from the scan, plus three flags: tests, docs and CI.
- **Template.** Assembles fifteen Markdown sections from that record and joins the non-empty ones with blank lines.

This project models the three stages as pure Dafny functions over immutable data. It proves what each stage promises about its output.

| file | module | models |
|---|---|---|
| `wrappers.dfy` | `Wrappers` | `Option`, for lookups that may find nothing |
| `text.dfy` | `Text` | strings and paths: ASCII lower-casing, substring search, `join`, the project slug, `Path.name`, `Path.suffix`, `Path.parent` |
| `ordering.dfy` | `Ordering` | Python's string order, insertion sort (`sorted`), `sorted(set)`, duplicate removal, subsequences, and `Pick` (a run of `if cond: out.append(item)` statements) |
| `scanner.dfy` | `Scanner` | the skip rule, the depth-bounded walk, special-file lookup, and the `scan()` record |
| `filetree.dfy` | `FileTree` | `_generate_tree`: selection of the first files by (segment count, path), grouping by parent, and the overflow line |
| `detector.dfy` | `Detector` | every `_detect_*`, `_get_primary_language`, `_has_*` and `_parse_*` method, and `detect()` |
| `template.dfy` | `Template` | every section generator, the colour tables, the feature grid, the precedence chains, and `generate` |
| `pipeline.dfy` | `Pipeline` | properties of the three stages run one after another |

**Representation choices:**

- **Directory tree.** `Scanner.Listing` is either `Unreadable` (the listing raised `PermissionError`) or `Entries` of `Node`s in listing order. A node is a `File`, a `Dir` or an `Other` (neither file nor directory).
- **Paths.** A path is a sequence of name segments that includes the root's own segments. Its text is the segments joined by `/`.
- **Root existence checks.** The special-file lookup checks existence under the root; it is modelled as a set of relative names that exist.
- **File contents.** The detector never reads files itself; two outcomes are supplied as values.
  - The file recorded under `package` (package.json, Cargo.toml, go.mod, pom.xml or build.gradle) is the outcome of parsing it as JSON: `Parsed(dependencies, devDependencies)`, or `Unparsable`.
  - The file recorded under `requirements` (requirements.txt, Pipfile, pyproject.toml or setup.py) is its text as an optional string, where `None` is a failed read.
- **Features.** Each feature string is pre-split into its emoji, title and optional detail, which is what the grid renders.

## Model

| member | source | states |
|---|---|---|
| Text.Slug | src/template.py:52 | the slug has the name's length, contains no space, and at each position holds `-` for a space and the lower-cased character otherwise |
| Text.Lower | src/detector.py:175 | lower-casing keeps the length, moves each ASCII capital 32 code points down to its small letter, keeps every other character, and leaves no capital behind |
| Text.JoinShowsPart | src/template.py:235 | every part occurs in the joined text |
| Text.Suffix | src/scanner.py:63-64 | the suffix is empty, or it is the name's tail from its last dot; it is non-empty exactly when some dot lies strictly inside the name with no dot after it |
| Text.JoinStartsWith | src/template.py:35 | a join of at least one part starts with the first part |
| Text.JoinEndsWith | src/template.py:35 | a join of at least one part ends with the last part |
| Ordering.Sort | src/scanner.py:78 | `sorted`: the result is a permutation of the input (same multiset) and is ordered by the key |
| Ordering.Insert | src/scanner.py:78 | inserting into a sorted sequence adds exactly that element and keeps the sequence sorted |
| Ordering.SortedSet | src/scanner.py:42 | `sorted(set)`: exactly the set's elements, each once, in strictly increasing string order |
| Ordering.MinimumExists | src/scanner.py:42 | every non-empty finite set of strings has a least element under Python's string order |
| Ordering.Dedup | src/scanner.py:85-87 | the result has the same elements as the input and no repetitions |
| Ordering.DedupKeepsSorted | src/scanner.py:92 | removing repetitions from a sorted sequence leaves it sorted |
| Ordering.LexTransitive | src/scanner.py:92 | lexicographic order built on a strict total order is transitive |
| Ordering.LexConnected | src/scanner.py:92 | any two different sequences are ordered one way or the other |
| Ordering.SubsequenceDistinct | src/detector.py:129-131 | a subsequence of a sequence without repetitions has none either |
| Ordering.Pick | src/template.py:167-182 | a run of conditional appends yields a subsequence of the candidates, containing exactly the candidates whose condition holds |
| Ordering.PickMember | src/template.py:167-182 | when the candidates are distinct, candidate j is in the result exactly when its condition holds |
| Ordering.PickNone | src/template.py:311-312 | the result is empty exactly when no condition holds |
| Scanner.ScanDir | src/scanner.py:47-71 | every recorded file and directory lies at most `maxDepth - depth + 1` levels below the listing's path, and no segment on the way has a skipped name; the recorded extensions are exactly the non-empty suffixes of the recorded files |
| Scanner.ScanDirComplete | src/scanner.py:47-71 | a path is recorded exactly when the reference description `Reaches` holds: every segment names a non-skipped entry, every listing on the way is readable, and the depth bound is respected |
| Scanner.WalkDirComplete | src/scanner.py:66-68 | a directory entry records itself, and below it exactly the paths its listing reaches one level deeper |
| Scanner.WalkFileComplete | src/scanner.py:61-64 | a file entry records exactly its own path, as a file and never as a directory |
| Scanner.FirstPresent | src/scanner.py:124-128 | the first candidate that exists, or none exactly when no candidate exists |
| Scanner.FindSpecialFiles | src/scanner.py:106-130 | keys come only from the nine categories; a category is present exactly when one of its candidates exists, and then maps to the first existing candidate in priority order |
| Scanner.Scan | src/scanner.py:31-45 | the counts equal the list lengths; all recorded paths lie within `MaxDepth + 1` non-skipped levels of the root and are exactly the reachable ones; the extensions are the files' non-empty suffixes, strictly sorted; the special files are those of the root |
| FileTree.Selected | src/scanner.py:78 | the first `min(max_files, n)` files by (segment count, path text): sorted by that key, taken from the input, and none of the left-out files is smaller than a chosen one |
| FileTree.Relative | src/scanner.py:83 | each relative path, appended to the root, gives back the file |
| FileTree.Groups | src/scanner.py:81-92 | every parent directory of a selected file appears exactly once, and the groups are sorted in Python's path order |
| FileTree.GroupLinesCount | src/scanner.py:93-99 | a group emits one file line per file whose parent it is, and no overflow line |
| FileTree.AllGroupsCount | src/scanner.py:92-99 | over all groups, every selected file is listed exactly once |
| FileTree.TreeLines | src/scanner.py:73-104 | the first line is the root line; then come the lines of every group of the selected files, one group after another in sorted group order, and last the optional overflow line; the file lines name exactly the selected files (the first `min(max_files, n)` by segment count and path text), as a multiset; the last line is an overflow line exactly when `n > max_files`, and it then counts `n - max_files` files; there is no other overflow line |
| FileTree.GroupLines | src/scanner.py:92-99 | a group other than the root group starts with its directory line at its own depth; every further line is a file line one level deeper (top level for the root group); there is one per file whose parent is the group, and their names are those files' names (as a multiset) in sorted order |
| FileTree.GroupsLinesShowGroups | src/scanner.py:92-99 | every group but the root group shows its directory line, and every file line sits at the file level of some group |
| FileTree.SelectedRelative | src/scanner.py:78-83 | one relative path per selected file, in selection order; appended to the root it gives back that file, and it keeps the file's name |
| FileTree.TreeBody | src/scanner.py:81-99 | the group lines are the groups' own lines in sorted group order; they hold one file line per selected file, naming it, and no overflow line |
| FileTree.NamesUnderAll | src/scanner.py:81-99 | over distinct groups that cover every parent, the group listings together hold every file's name once |
| FileTree.RelativeNames | src/scanner.py:83-87 | a file's path relative to the root has the same final name as the file |
| Text.NatToString | src/scanner.py:102 | the decimal text of a count: non-empty, digits only, no leading zero, and its value is the count |
| FileTree.GenerateTree | src/scanner.py:90-104 | the text starts with `<root name>/` and, when files were cut, ends with `  ... and N more files` |
| FileTree.RenderLine | src/scanner.py:90-102 | the root line is the root's name and `/`; a directory or file line is two spaces per level, then `├── `, then the name, a directory's followed by `/`; the overflow line reads `  ... and N more files` |
| Detector.DetectLanguages | src/detector.py:78-86 | exactly the languages `LANGUAGE_MAP` assigns to some extension, each once, in strictly increasing order |
| Detector.FirstHit | src/detector.py:96-99 | an indicator found in some file's path text, or none exactly when no indicator occurs |
| Detector.IndicatedFrameworks | src/detector.py:95-99 | a framework is indicated exactly when one of its indicators occurs in some file's path text |
| Detector.ParsePackageJson | src/detector.py:194-217 | a JS framework is found exactly when the file parsed and its key is among the dependencies or devDependencies; an unparsable file gives nothing |
| Detector.ParseRequirements | src/detector.py:219-239 | a Python framework is found exactly when the content was read and its lower-case name occurs in the lower-cased content |
| Detector.DetectFrameworks | src/detector.py:88-109 | a framework is reported exactly when a path indicates it, or the package file is present and lists it, or the requirements file is present and names it; the list is strictly sorted |
| Detector.MarkedKeys | src/detector.py:129-131 | the table's managers whose markers meet the names, in table order |
| Detector.DetectPackageManagers | src/detector.py:111-133 | a manager is reported exactly when one of its marker names equals the final name of some file; the result keeps the table's order |
| Detector.PackageManagersDistinct | src/detector.py:111-133 | no package manager is reported twice |
| Detector.DetectTools | src/detector.py:135-152 | the tools appear in the order Docker, CI/CD, Kubernetes, Make; Docker, CI/CD and Make exactly when their special file was found; Kubernetes exactly when some path mentions `.yaml` or `.yml` and some path mentions `k8s` or `kubernetes` |
| Detector.FileLanguages | src/detector.py:158-162 | the languages that occur are exactly those of files with a mapped suffix; the list is empty exactly when no suffix is mapped |
| Detector.FileLanguagesAppend | src/detector.py:158-162 | the list is built file by file: the list of two runs of files is the first run's list followed by the second's |
| Detector.FileLanguagesCount | src/detector.py:158-162 | each language occurs in the list once per file whose suffix maps to it |
| Detector.PrimaryLanguageByFiles | src/detector.py:154-168 | when not "Unknown", the primary language is the language of some file, no language has more files, and whenever another language has as many files, a file of the primary language comes no later than that language's file |
| Detector.Increment | src/detector.py:162 | `counts.get(x, 0) + 1`: an existing entry grows by one and nothing else changes; otherwise `(x, 1)` is appended |
| Detector.CountLanguages | src/detector.py:156-162 | one entry per distinct language, holding its number of occurrences, in order of first occurrence |
| Detector.MaxEntry | src/detector.py:168 | `max` over the entries: an entry with the largest count, and the first such entry |
| Detector.PrimaryLanguage | src/detector.py:154-168 | "Unknown" exactly when no file suffix is mapped; otherwise a language with the largest file count, and among equally frequent languages the one met first |
| Detector.TieWinner | src/detector.py:164-168 | of two languages met once each, the first in listing order wins |
| Detector.HasTestsReduces | src/detector.py:170-178 | tests are found exactly when some test word occurs in a file's lower-cased path text |
| Detector.HasDocsReduces | src/detector.py:180-188 | docs are found exactly when some doc word occurs, case-sensitively, in a file's path text |
| Detector.Detect | src/detector.py:65-76 | `has_ci` agrees with the CI/CD tool; Docker is a tool exactly when the docker special file is present; "Unknown" exactly when no suffix is mapped; languages and frameworks strictly sorted; managers and tools in table order |
| Template.Lookup | src/template.py:585 | `dict.get`: none exactly when the key is absent, otherwise the table's value for the key |
| Template.LanguageColor | src/template.py:567-585 | a six-digit hex colour: the table's colour for a listed language, `555555` for any other |
| Template.FrameworkColor | src/template.py:587-600 | a six-digit hex colour: the table's colour for a listed framework, `6366F1` for any other |
| Template.DefaultLanguageColors | src/template.py:585 | "Unknown" and "Markdown" get the default colour |
| Template.FrameworkLogo | src/template.py:242 | the logo name keeps, in order and with their multiplicities, exactly the lower-cased name's characters other than `.` and space |
| Text.RemoveChar | src/template.py:242 | `replace(c, '')`: every occurrence of `c` is gone and every other character keeps its multiplicity |
| Template.LanguageBadge | src/template.py:60 | the badge image is titled with the language |
| Template.LanguageBadges | src/template.py:231-235 | one badge per language, each titled with its language |
| Template.FrameworkBadges | src/template.py:239-243 | one badge per framework, each titled with its framework |
| Template.ToolBadges | src/template.py:247-251 | one badge per tool, each titled with its tool |
| Template.HeaderShowsName | src/template.py:37-48 | the header contains the project name |
| Template.BadgeList | src/template.py:54-79 | three repository badges plus one each for a non-empty primary language, a license file, CI and tests; the language badge comes first; each conditional badge is present exactly when its condition holds; the badges keep the order language, license, stars, forks, issues, build, coverage |
| Template.BadgeListOrder | src/template.py:57-79 | appending the optional language and license badges, the three repository badges and the optional build and coverage badges yields a subsequence of all seven in that order |
| Template.BadgesDistinct | src/template.py:60-79 | the license, build and coverage badges differ from each other, from the language badge and from the repository badges, so membership identifies each condition |
| Template.BadgeRows | src/template.py:81-87 | the first row holds the first four badges and the second row the rest |
| Template.Bulleted | src/template.py:138 | every line is `- ` followed by its item |
| Template.HighlightRun | src/template.py:116-131 | the conditional appends give exactly the highlights whose conditions hold, in the order tests, CI, Docker, docs, multi-language |
| Template.HighlightItems | src/template.py:112-136 | the three fallback highlights exactly when none of the five conditions holds, otherwise the picked run in order; each of the five highlights is present exactly when its condition holds |
| Template.DetectedFeatures | src/template.py:167-182 | the detected features in fixed order, each present exactly when its condition holds |
| Template.PadFeatures | src/template.py:184-194 | the detected features come first; filler follows only when fewer than three were detected; the count is `min(6, d + (d < 3 ? 5 : 0))` |
| Template.GridLayout | src/template.py:204-222 | the cells hold the features in order, plus one empty cell when the count is odd, so the cell count is even; rows hold two cells each; there are `(n - 1) / 2` row breaks |
| Template.LayoutTwoSteps | src/template.py:206-208 | a row break comes before every even position after the first |
| Template.LayoutIsPairs | src/template.py:206-221 | the loop's output from an even position equals the pairwise reference layout of the remaining features |
| Template.PairsShape | src/template.py:206-221 | the pairwise reference layout has the stated cell count, features, rows of two and row breaks |
| Template.FeaturesGrid | src/template.py:202-223 | the grid starts with `<table>` and ends with `</table>` |
| Template.Group | src/template.py:229-251 | a badge group adds a heading line and a badge line exactly when it has badges, and the badge line contains every badge |
| Template.TechStackLines | src/template.py:227-251 | the heading first, then two lines for each non-empty group |
| Template.TechStack | src/template.py:225-253 | empty exactly when there are no languages, frameworks or tools; otherwise starts with the Tech Stack heading |
| Template.TechStackShowsBadges | src/template.py:229-251 | the section contains the flat-square badge of every language, every framework and every tool |
| Template.FirstGroup | src/template.py:270-283 | the first group of an `if/elif` chain that has a member present, or none exactly when no group has one |
| Template.QuickStartPrecedence | src/template.py:270-283 | quick start picks npm over pip, else the generic instructions |
| Template.QuickCommands | src/template.py:260-283 | the commands include the clone command for the project slug, second |
| Template.InstallPrecedence | src/template.py:327-364 | installation picks pip, then poetry, npm, cargo, go mod, else no step |
| Template.Prerequisites | src/template.py:301-314 | the Node.js, Python, Docker and Go lines appear in that order, each exactly when its condition holds; the single "latest stable version" line appears exactly when none does |
| Template.UsagePrecedence | src/template.py:384-439 | usage picks Django, then Flask or FastAPI, Streamlit, React or Next.js, else the primary-language fallback |
| Template.RunCommand | src/template.py:429-438 | any primary language other than Python, Go, Rust, Node.js or JavaScript gets the "see documentation" line |
| Template.StructureNotes | src/template.py:467-487 | the src (case-sensitive), test, doc and config notes appear in that order, each exactly when its word occurs in some directory's path; the single fallback note appears exactly when none does |
| Template.License | src/template.py:527-541 | the licensed text exactly when a license file was found, the unlicensed text exactly when not |
| Template.OpeningTexts | src/template.py:18-19 | the header and badge sections are never empty |
| Template.AboutTexts | src/template.py:20-21 | the description and demo sections are never empty |
| Template.SetupTexts | src/template.py:24-25 | the quick start and installation sections are never empty |
| Template.GuideTexts | src/template.py:26-27 | the usage and project structure sections are never empty |
| Template.CommunityTexts | src/template.py:28-29 | the roadmap and contributing sections are never empty |
| Template.ClosingTexts | src/template.py:30-32 | the license, acknowledgments and footer sections are never empty |
| Template.NonEmptyFilters | src/template.py:35 | `filter(None, …)` keeps the order and keeps exactly the non-empty sections |
| Template.NonEmptyAppend | src/template.py:35 | filtering distributes over concatenation |
| Template.NonEmptySections | src/template.py:17-35 | with every other section non-empty, filtering drops at most the tech stack section |
| Template.DocumentShape | src/template.py:15-35 | the document is the surviving sections joined by blank lines; it starts with the first section (the header) and ends with the last (the footer) |
| Pipeline.ScannedNamesNotSkipped | src/scanner.py:53-59 | no scanned file carries a skipped name |
| Pipeline.YarnNeverDetected | src/detector.py:119 | "yarn" is never reported for a scanned project: its only marker, `yarn.lock`, is an ignored file name |
| Pipeline.PrimaryLanguageIsListed | src/detector.py:154-168 | the primary language of a scan is "Unknown" or one of the languages detected from its extensions |
| Pipeline.NothingDetected | src/detector.py:65-76 | a scan with no files and no special files yields no languages, frameworks, tools or managers, "Unknown", and all flags false |
| Pipeline.NoTechDocument | src/template.py:225-253 | with nothing detected, the tech stack section is empty and four badges remain, the first for "Unknown" |
| Pipeline.EmptyProject | src/template.py:57-60 | an empty directory yields zero counts, "Unknown", no tech stack section, and still a language badge for "Unknown" |

## Left out

- `src/enhancer.py` is not part of this model. It calls a remote language-model service and falls back to the template on any error.
- Filesystem access (`iterdir`, `is_file`, `is_dir`, `exists`, `read_text`) is not modelled. It is replaced by the abstract `Listing` tree, the set of existing root names, and contents supplied as values.
- JSON parsing is not modelled: the parsed dependency keys are an input, and any read or parse failure is `Unparsable`.
- Only ASCII lower-casing is modelled. Python's `lower()` also maps non-ASCII letters.
- The rendering of an absolute root is not modelled. Path text here joins the segments with `/`, with no leading `/`, and the tree uses only `Path.name` of the root.
- Group-key order: the tree's group order follows Python 3.12 and later, where the root group "." compares as the one-segment text "."; earlier versions compare the parts tuple, where the root's empty tuple sorts first.
- Boilerplate: the boilerplate sections (demo, roadmap, contributing, acknowledgments, footer, header frame) are kept verbatim, and only their non-emptiness is stated.
- Template.Generate: no lemma is stated on `generate` itself. Its shape follows from `Template.DocumentShape` and `Template.NonEmptySections` applied to the six group functions, whose contracts state that every section but the tech stack is non-empty. A lemma naming `Generate` directly must unfold every section's text at once.
- Template.Badges: the contract states only that the text is non-empty; its content is stated by `Template.BadgeList` and `Template.BadgeRows`.
- Template.Description: the contract states only non-emptiness. The bullets it embeds are produced by `Template.Highlights`, and the list behind them is stated by `Template.HighlightItems`; no lemma states that the description text contains them.
- Template.Highlights: the contract states only that the text starts with `- `; that every line does is stated by `Template.Bulleted`.
- Template.Features: the contract states only non-emptiness; the chosen features and the grid are stated by `Template.DetectedFeatures`, `Template.PadFeatures` and `Template.GridLayout`.
- Template.QuickStart: the contract states only non-emptiness; the choice is stated by `Template.QuickStartPrecedence`.
- Template.Installation: the contract states only non-emptiness; the choices are stated by `Template.Prerequisites` and `Template.InstallPrecedence`.
- Template.Usage: the contract states only non-emptiness; the choice is stated by `Template.UsagePrecedence`.
- Template.ProjectStructure: the contract states only non-emptiness; the explanation is stated by `Template.StructureNotes`.
- Template.Header: the contract states only non-emptiness; `Template.HeaderShowsName` states that the name appears.

## Behaviour worth knowing

The model keeps these behaviours of the code:

- Features are never deduplicated. The list is padded with filler when fewer than three were detected and truncated to six (`Template.PadFeatures`).
- An empty directory still gets a language badge, for "Unknown". Its primary language is "Unknown", which is non-empty (`Pipeline.EmptyProject`).
- On a tie, the language met first in listing order wins. The counting dictionary keeps insertion order and `max` returns the first maximal entry (`Detector.PrimaryLanguage`, `Detector.PrimaryLanguageByFiles`, `Detector.TieWinner`).
- Yarn is never reported. The package-manager table lists yarn, but the scanner ignores `yarn.lock`, its only marker (`Pipeline.YarnNeverDetected`).
- The package manifest is parsed as JSON whatever it is. A project whose only manifest is `Cargo.toml` (or `go.mod`, `pom.xml`, `build.gradle`) has that file handed to the JSON parser, which fails, so it yields no framework (`Detector.ParsePackageJson` on `Unparsable`).
- The requirements search reads whichever requirements file was found. A project with only a `pyproject.toml` that mentions `django` is reported as using Django (`Detector.ParseRequirements`, `Detector.DetectFrameworks`).
- Directory notes match the full path text of each directory, including the root's own segments, not just the directory's name (`Template.StructureNotes`).

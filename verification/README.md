# UEBuildTools build-information pipeline, in Dafny

UEBuildTools stamps an Unreal Engine project with version information taken from its
git repository. This project models the core of that pipeline:

- `GitVersion`: the branch, hash, short hash, commit date and version of HEAD. The
  version comes from `git describe`.
- `VersionInformation`: the list of public branches, and the short, long and display
  version strings.
- `UnrealConfig`: a minimal INI reader and writer, used for `DefaultGame.ini` and
  `CrashReportClient.ini`.
- `UnrealLocalization`: parses and prints `NSLOCTEXT("[ns]", "key", "value")` cells.
- `Template`: replaces `{{ name }}` placeholders in a template file.
- The three steps of `main.py`:
  - rendering the version header;
  - writing the long version into `CrashReportClient.ini`;
  - writing the displayed title and the project version into `DefaultGame.ini`.

Modules:

- `Wrappers`: `Option`, `Result`, `Outcome`.
- `Text`: the parts of Python's `str` the code relies on:
  - `isspace`, `strip` and `lower`;
  - `split('=', 1)`;
  - decimal digits for `int()` and `str()`;
  - `readlines` of a text-mode file, with its universal-newline translation.
- `OrderedDict`: a Python `dict`, i.e. a map together with its insertion order.
  `Put` keeps an existing key in its place and appends a new key.
- `Config`: UnrealConfig.py. `Load` is a loop proved equal to the line-by-line
  specification `Parse`. `Save` is a nested loop proved equal to `SaveText`.
  - Central result: `SaveThenLoad`. Reading back what `save` writes gives the same
    document, sections and keys in the same order, for every document whose names and
    values survive `strip` and the line grammar.
  - Every document `load` returns is such a document (`LoadedIsSaveable`), so loading,
    saving and loading again gives what the first load gave (`LoadSaveLoad`).
- `Localization`: UnrealLocalization.py. The regular expression uses greedy `.*`
  groups. It is specified as "the longest namespace, then the longest key" among all
  ways to cut the text (`MatchLineGreedy`).
- `Templates`: Template.py.
  - `re.sub` is specified as a left-to-right scan. At each `{{`, the scan takes the
    longest run of spaces before the name and the first `}}` after it.
  - `Render` applies the variables in dictionary order. A later variable therefore
    also replaces placeholders that an earlier value brought in, and an earlier
    variable never sees them.
- `Git`: GitVersion.py. The four git outputs are parameters.
- `Versioning`: VersionInformation.py. The class attribute `public_branches` is one
  list object shared by every instance until `set_public_branches` rebinds it. The
  model keeps it as an object (`BranchList`) so this sharing is visible
  (`AddThroughSharedList`).
- `Pipeline`: the pure parts of main.py.

Where the code and its documentation disagree, the model follows the code:

- **The build number is always 0.** `get_version` tries `(\d+)\.(\d+)\.(\d+)` first.
  That pattern matches every tag the `-build` pattern matches, so the second branch is
  never taken. A tag such as `1.2.3-7` gives `[1, 2, 3, 0]`, not build 7
  (`QuadImpliesTriple`, `BuildAlwaysZero`, `BuildSuffixIgnored`).
- **A failed parse does not raise.** `UnrealLocalization.parse` is documented to raise
  on text that does not match, but it logs and returns. The cell keeps its previous
  (class default) fields, so `__str__` prints the value in quotes.
- **The `None` check in `modify_default_game` is dead.** `modify_default_game` tests
  the title it reads against `None`. `UnrealConfig.get` raises `KeyError` for a
  missing section or key and never returns `None`, so the whole step fails instead
  (`ModifyDefaultGame` returns `Err`).

## Model

| member | source | states |
|---|---|---|
| Text.TrimStart | UnrealConfig.py:78 | the result is the input without its leading whitespace: what is removed is all whitespace and the result does not start with whitespace; it is empty exactly when the input is all whitespace |
| Text.TrimEnd | UnrealConfig.py:78 | the result is the input without its trailing whitespace: what is removed is all whitespace and the result does not end with whitespace |
| Text.Strip | UnrealConfig.py:78 | `line.strip()` is empty exactly when the line is all whitespace |
| Text.StripTrailing | UnrealConfig.py:78 | text that neither starts nor ends with whitespace strips back to itself after trailing whitespace is added, such as the `\n` that `save` writes |
| Text.Lower | VersionInformation.py:63 | `lower()` keeps the length and lower-cases each ASCII letter in place |
| Text.LowerHasNoUpper | VersionInformation.py:63 | a lower-cased branch holds no capital letter |
| Text.SplitAtFirst | UnrealConfig.py:81 | `split('=', 1)` gives a left part without `=` and a right part that reassemble the line around the first `=` |
| Text.SplitUnique | UnrealConfig.py:81 | the split at the first `=` is the only split whose left part holds no `=` |
| Text.DigitRun | GitVersion.py:133 | a greedy `\d+` takes the longest run of digits: all digits, followed by a non-digit or the end |
| Text.NatToString | main.py:37 | `str(n)` is a non-empty run of digits without a leading zero, and `int()` reads it back as `n` |
| Text.DigitRunOf | GitVersion.py:133 | a run of digits followed by a non-digit is consumed exactly by `\d+` |
| Text.ConcatAppend | UnrealConfig.py:139-144 | the text written by consecutive `write` calls is the concatenation of their parts |
| Text.TranslateWithoutCarriageReturn | UnrealConfig.py:72-73 | text without `\r` is unchanged by text-mode newline translation |
| Text.FirstLineLength | UnrealConfig.py:73 | the first line read is non-empty and no longer than the text |
| Text.FirstLineLengthOf | UnrealConfig.py:73 | a complete line followed by more text is read as exactly that line |
| Text.SplitConcat | UnrealConfig.py:73 | `readlines` of text written as complete lines gives back those lines |
| Text.ConcatAvoids | UnrealConfig.py:139-144 | written text avoids a character when every written part does |
| Text.StripInside | UnrealConfig.py:78 | `strip()` keeps only characters of the line, and a non-empty result neither starts nor ends with whitespace |
| Text.TranslateRemovesCarriageReturn | UnrealConfig.py:73 | after text-mode newline translation no `\r` is left |
| Text.SplitLinesAvoid | UnrealConfig.py:73 | every line split from text that avoids a character avoids it too |
| Text.ReadLinesNoCarriageReturn | UnrealConfig.py:72-73 | no line `readlines` returns holds a `\r` |
| Text.NoLineBreakAppend | main.py:51 | a concatenation has no line break exactly when neither part has one |
| OrderedDict.Empty | Template.py:57 | a new `{}` has no keys |
| OrderedDict.Put | UnrealConfig.py:82 | `d[k] = v`: `k` now maps to `v`, every other key is unchanged, an existing key keeps its place and a new key goes last |
| OrderedDict.PutPut | Template.py:93 | assigning a key twice equals assigning the second value alone |
| OrderedDict.Take | UnrealConfig.py:142 | the entries of the first `n` keys, in order |
| OrderedDict.TakeAll | UnrealConfig.py:142 | taking every key gives the whole dictionary |
| OrderedDict.TakeNone | UnrealConfig.py:140 | taking no key gives the empty dictionary |
| OrderedDict.TakeNext | UnrealConfig.py:142 | the next key is new to the first `n` entries, and assigning it extends them to `n + 1` |
| OrderedDict.PutFirst | Template.py:77-78 | after the first `n` items of `e` are assigned, a key maps to `e`'s value when it is among them and to the old value otherwise, and the old keys keep their order at the front |
| OrderedDict.PutAll | Template.py:77-78 | `set_variables`: the keys of `e` take `e`'s values, every other key is unchanged, the old key order is a prefix of the new |
| OrderedDict.PutFirstEmpty | Template.py:77-78 | assigning the first `n` items of `e` into an empty dictionary gives the first `n` entries of `e` |
| OrderedDict.PutAllEmpty | Template.py:57-78 | assigning all of `e` into an empty dictionary copies `e`, key order included |
| OrderedDict.Fresh | Template.py:77-78 | holds exactly the entries of the list that are not already known |
| OrderedDict.PutFirstKeys | Template.py:77-78 | after the first `n` items of `e` are assigned, the keys are the old keys followed by the new keys among those items, in `e`'s order |
| OrderedDict.PutAllKeys | Template.py:68-78 | `set_variables` keeps the old keys in place and appends the keys of `e` that were new, in `e`'s order |
| Config.PutWellFormed | UnrealConfig.py:86 | storing a valid section keeps the document well formed |
| Config.Step | UnrealConfig.py:76-89 | one line of `load` keeps the reader's state well formed |
| Config.ParseFrom | UnrealConfig.py:75-89 | reading a run of lines keeps the state well formed |
| Config.Parse | UnrealConfig.py:73-90 | a document `load` returns is well formed: ordered sections of ordered keys |
| Config.ParseFromAt | UnrealConfig.py:75 | reading from line `i` is one step on line `i`, then reading from `i + 1` (or that step's error) |
| Config.Load | UnrealConfig.py:63-90 | the loop over the lines returns exactly `Parse(lines)`: the same document, or the same error |
| Config.KeyValueSplitsAtFirstEquals | UnrealConfig.py:80-82 | a stripped line `key=value` whose key has no `=` stores `value` under `key` in the current section, and changes nothing else |
| Config.BracketedAssignmentIsKeyValue | UnrealConfig.py:80-86 | a line such as `[a=b]` is an assignment, not a header, because the `=` test comes first |
| Config.HeaderResetsSection | UnrealConfig.py:84-86 | a header makes its name the current section and empties it; a repeated name keeps its place and drops its earlier keys; other sections are unchanged |
| Config.WhitespaceLineIsInvalid | UnrealConfig.py:76-89 | a whitespace-only line that is not exactly `\n`, `\r\n` or empty strips to `` and raises "Invalid INI File" |
| Config.KeyValueBeforeHeaderFails | UnrealConfig.py:80-82 | an assignment before the first header fails, because no section is bound yet |
| Config.SkipBlankLines | UnrealConfig.py:76-77 | leading blank lines do not change the result |
| Config.ParseFromAppend | UnrealConfig.py:75 | reading `a + b` is reading `a`, then reading `b` from the state reached |
| Config.EntryLinesConcat | UnrealConfig.py:142-143 | the entry lines of a section are written one `key=value\n` after another |
| Config.WriteSection | UnrealConfig.py:141-144 | the inner loop writes the header, every entry line in order and the blank line |
| Config.DocumentLinesConcat | UnrealConfig.py:140-144 | the document is written one section after another |
| Config.SectionLinesConcat | UnrealConfig.py:141-144 | a section is written as `[name]\n`, its entries, then `\n` |
| Config.EntryStep | UnrealConfig.py:80-82 | a saved `key=value\n` line reads back as that entry of the current section |
| Config.HeaderLine | UnrealConfig.py:84-85 | a saved header line is not an assignment, is a header, and names the section |
| Config.HeaderStep | UnrealConfig.py:84-86 | a saved header line reads back as a new empty current section of that name |
| Config.EntriesRoundTrip | UnrealConfig.py:142-143 | the first `n` saved entry lines read back as the first `n` entries of the section |
| Config.SectionRoundTrip | UnrealConfig.py:141-144 | a saved section reads back as that section, whatever was read before it |
| Config.SectionsRoundTrip | UnrealConfig.py:140-144 | the first `n` saved sections read back as the first `n` sections of the document, in order |
| Config.SavedLinesAreLines | UnrealConfig.py:141-144 | every line `save` writes is one complete line with no `\r` |
| Config.SaveThenLoad | UnrealConfig.py:63-90 | `load` of what `save` wrote gives back the saved document, sections and keys in order |
| Config.SetEntry | UnrealConfig.py:133 | `config[section][key] = value`: only that key of that section changes, and the section order is kept |
| Config.SetKeepsSaveable | UnrealConfig.py:133 | setting a saveable entry keeps the document saveable, so it still round-trips |
| Config.OpenKeepsSaveable | UnrealConfig.py:86 | opening an empty section whose name has no `=` and no line break keeps the document saveable |
| Config.SplitSaveable | UnrealConfig.py:81 | a one-line `key=value` that neither starts nor ends with whitespace splits into an entry that can be saved |
| Config.KeyValueSaveable | UnrealConfig.py:80-82 | storing the entry of a stripped assignment line keeps the document saveable |
| Config.HeaderSaveable | UnrealConfig.py:84-86 | reading a header line succeeds and keeps the document saveable |
| Config.StepSaveable | UnrealConfig.py:76-89 | a line without `\r` that is read without error keeps the document saveable |
| Config.ParseFromSaveable | UnrealConfig.py:75-89 | reading lines without `\r` from a saveable state, when it succeeds, ends saveable |
| Config.LoadedIsSaveable | UnrealConfig.py:63-90 | every document `load` returns is saveable |
| Config.LoadSaveLoad | UnrealConfig.py:63-144 | for every text that loads, saving the loaded document and loading again gives the same document |
| Config.UnrealConfig.constructor | UnrealConfig.py:60-61 | the object holds the loaded document |
| Config.UnrealConfig.Get | UnrealConfig.py:92-116 | no key: the section, or `KeyError` when it is missing; section and key: that value, or `KeyError`; key only: the value from the first section in file order that holds the key, or `KeyError` when none does |
| Config.UnrealConfig.Set | UnrealConfig.py:118-133 | `KeyError` and no change for a missing section; otherwise only that key changes, keeping its place or going last |
| Config.UnrealConfig.Save | UnrealConfig.py:135-144 | the text written is `SaveText` of the current document |
| Localization.LastSeparator | UnrealLocalization.py:77 | the last `", "` at or before a position, or none |
| Localization.LastNamespaceCut | UnrealLocalization.py:77 | the last place where the namespace can end: after `]`, before a separator with a separator after it |
| Localization.MatchBody | UnrealLocalization.py:77 | a match splits the text between the parentheses into a bracketed namespace, a key and a value that rebuild it |
| Localization.MatchLine | UnrealLocalization.py:77 | a match is a cell whose printed form is the line |
| Localization.ParseText | UnrealLocalization.py:77-83 | a match gives a bracketed namespace and fields without line breaks, and the text is the printed cell, possibly followed by one `\n` (`$` before a final newline) |
| Localization.MatchedLine | UnrealLocalization.py:77 | a line that matches is the printed cell and starts `NSLOCTEXT("[` |
| Localization.NoNewlineFields | UnrealLocalization.py:98 | a printed cell has no newline exactly when none of its fields has one |
| Localization.QuotesOf | UnrealLocalization.py:98 | when the fields hold no `"`, the only quotes in the printed body are the four around the key and the value |
| Localization.MatchBodyGreedy | UnrealLocalization.py:77 | the greedy groups give the longest namespace, then the longest key, among all ways to cut the body |
| Localization.MatchLineGreedy | UnrealLocalization.py:77 | every cell whose printed form is the line has a namespace, and then a key, no longer than the one chosen |
| Localization.FormatThenParse | UnrealLocalization.py:77-98 | printing a cell with a bracketed namespace and no quotes or newlines in its fields parses back to the same cell |
| Localization.SameBodySameCell | UnrealLocalization.py:98 | two cells with the same printed body and the same namespace and key lengths are equal |
| Localization.NewValueKeepsNamespaceAndKey | UnrealLocalization.py:77-98 | when the parsed namespace and key and the new value hold no `"` and the new value no line break: after a parse, a new value and a print, parsing again gives the same namespace and key with the new value |
| Localization.UnbracketedNamespaceDoesNotMatch | UnrealLocalization.py:77 | a namespace without square brackets does not match |
| Localization.QuotedStringDoesNotMatch | UnrealLocalization.py:77 | a plain quoted title does not match |
| Localization.Show | UnrealLocalization.py:85-98 | with all three fields set, the `NSLOCTEXT(...)` form; otherwise the value in quotes, `"None"` when it is unset |
| Localization.ParseThenShow | UnrealLocalization.py:77-98 | printing a parsed cell gives back the text, apart from one final newline |
| Localization.UnsetShowsQuotedValue | UnrealLocalization.py:94-96 | a cell whose parse failed prints its value in quotes, which does not parse |
| Localization.UnrealLocalization.constructor | UnrealLocalization.py:48-61 | the fields are the three groups of a match, or all unset when the text does not match |
| Localization.UnrealLocalization.Parse | UnrealLocalization.py:63-83 | a match sets the three fields to its groups; a failed match changes nothing |
| Templates.SpaceEndSpec | Template.py:102 | `\s*` takes a run of whitespace followed by a non-space or the end |
| Templates.SpaceEndMaximal | Template.py:102 | no run of whitespace from the same start is longer |
| Templates.ClosingUnique | Template.py:102 | whitespace and then `}}` can end in only one place |
| Templates.TryName | Template.py:102 | the name is found after the longest run of leading spaces that still lets the pattern close |
| Templates.TryNameFinds | Template.py:102 | if the name fits after some run of leading spaces, a fit is found that is at least as long |
| Templates.MatchAt | Template.py:102 | a match at the front spans a name between `{{` and `}}` inside the text |
| Templates.MatchFound | Template.py:102 | a match found is a placeholder `{{ name }}` at the front |
| Templates.MatchGreedy | Template.py:102 | whenever a placeholder is at the front, a match is found, with the longest leading spaces |
| Templates.MatchEnd | Template.py:102 | a match ends at that placeholder's closing `}}` |
| Templates.SubLiteral | Template.py:102 | text without `{` is copied unchanged |
| Templates.MatchPlaceholder | Template.py:102 | `{{ name }}` with any whitespace inside is matched whole |
| Templates.SubPlaceholder | Template.py:102 | a placeholder for the name is replaced by the value and the scan goes on after it |
| Templates.SubOtherName | Template.py:102 | a placeholder for another name is left as it is |
| Templates.RenderFixed | Template.py:99-102 | text that no variable changes is rendered unchanged |
| Templates.UnregisteredPlaceholderStays | Template.py:99-102 | a placeholder for a name with no variable stays in the output |
| Templates.RenderSingle | Template.py:99-102 | `{{name}}` renders as the variable's value, when the names are plain words and the value holds no `{` |
| Templates.SubOwnPlaceholder | Template.py:102 | replacing a name in its own placeholder gives the value |
| Templates.RenderOne | Template.py:99-102 | with one variable, rendering is one substitution |
| Templates.BothSpellingsReplaced | Template.py:102 | `{{name}}` and `{{ name }}` are both replaced |
| Templates.Pair | Template.py:77-78 | a two-variable dictionary keeps its keys in assignment order |
| Templates.RenderPair | Template.py:99-102 | with two variables, rendering substitutes the first, then the second over the result |
| Templates.LaterVariableExpandsValue | Template.py:99-102 | a placeholder brought in by an earlier value is replaced by a later variable |
| Templates.EarlierVariableMissesValue | Template.py:99-102 | a placeholder brought in by a later value is not replaced by an earlier variable |
| Templates.Template.constructor | Template.py:46-58 | the template holds the loaded text, no variables and empty output |
| Templates.Template.SetVariable | Template.py:80-93 | the variable is assigned in the dictionary; template and output are unchanged |
| Templates.Template.SetVariables | Template.py:68-78 | the loop assigns every item of the argument in its order (`PutAll`); template and output are unchanged |
| Templates.Template.Replace | Template.py:95-102 | the output is the template rendered with the variables in dictionary order; template and variables are unchanged |
| Git.Group | GitVersion.py:133 | one `(\d+)` group is a non-empty run of digits, followed by the separator (or by a non-digit) |
| Git.GroupOf | GitVersion.py:133 | a run of digits followed by a non-digit separator is matched as that group |
| Git.QuadImpliesTriple | GitVersion.py:133-139 | every tag the `-build` pattern matches is matched by the first pattern |
| Git.BuildAlwaysZero | GitVersion.py:133-142 | the build number is always 0 |
| Git.TagVersion | GitVersion.py:133-135 | a tag `A.B.C` followed by a non-digit gives `[A, B, C, 0]` |
| Git.BuildSuffixIgnored | GitVersion.py:133-139 | the tag `1.2.3-7` gives `[1, 2, 3, 0]` |
| Git.NonNumericTag | GitVersion.py:140-142 | a tag that does not start with a digit gives `[0, 0, 1, 0]` (the special case of `UnparseableTag`) |
| Git.MatchTripleShape | GitVersion.py:133-135 | when `(\d+)\.(\d+)\.(\d+)` matches, the tag starts with three runs of digits joined by dots |
| Git.MatchTripleIff | GitVersion.py:133-135 | the first pattern matches exactly when the tag starts with three runs of digits joined by dots |
| Git.UnparseableTag | GitVersion.py:133-142 | every tag that does not start with `digits.digits.digits` gives `[0, 0, 1, 0]` |
| Git.UnparseableTagExamples | GitVersion.py:131-142 | the commit hash `3f2a1bc` (from `--always`), `1.2` and `10-rc` give `[0, 0, 1, 0]` |
| Git.ShortSha | GitVersion.py:119 | the short hash is the first six characters of the hash, or the whole of a shorter one |
| Git.GitVersion.constructor | GitVersion.py:67-81 | date, branch, hash, short hash and version are read from the four git outputs, in order; the short hash is the prefix of the hash (`Valid`) |
| Git.GitVersion.GetDatetime | GitVersion.py:83-95 | the commit date is replaced and returned, nothing else changes |
| Git.GitVersion.GetBranch | GitVersion.py:97-107 | the branch is replaced and returned, nothing else changes |
| Git.GitVersion.GetSha | GitVersion.py:109-120 | the hash and its six-character prefix are replaced and the hash is returned; afterwards the short hash is the prefix of the hash (`Valid`) |
| Git.GitVersion.GetVersion | GitVersion.py:122-144 | the version is parsed from the tag, stored and returned, its build always 0 |
| Versioning.BranchList.constructor | VersionInformation.py:52 | the list holds the given names |
| Versioning.DefaultPublicBranchesAre | VersionInformation.py:52-63 | with the default list, a branch is public exactly when its lower-cased name is `master`, `main` or `releases` |
| Versioning.PublicBranchExamples | VersionInformation.py:52-63 | `Main` and `MASTER` are public; `release` and `feature/x` are not |
| Versioning.UpperCaseEntryNeverMatches | VersionInformation.py:63-85 | an added entry holding a capital letter never makes any branch public |
| Versioning.Visibility | VersionInformation.py:109-118 | `PUBLIC` exactly for a public branch, `PRIVATE` otherwise |
| Versioning.VersionShortReadsBack | VersionInformation.py:87-96 | the short version reads back as major and minor around one dot |
| Versioning.VersionLongThenParse | VersionInformation.py:98-107 | a tag written as the long version parses back with its build dropped |
| Versioning.VersionTripleThenParse | main.py:54-55 | a tag written as `major.minor.patch` parses back exactly |
| Versioning.VersionStringAvoids | VersionInformation.py:120-130 | for a character that does not occur in the string's fixed text (a line break, a double quote), the version string holds it exactly when the date, time, branch or short hash does |
| Versioning.VersionInformation.constructor | VersionInformation.py:52 | the object refers to its git data and to the class's own branch list |
| Versioning.VersionInformation.SetPublicBranches | VersionInformation.py:65-74 | the object now refers to the caller's list itself |
| Versioning.VersionInformation.AddPublicBranch | VersionInformation.py:76-85 | the shared list gains the entry at its end; exactly the branches whose lower-cased name equals the entry become public as well |
| Versioning.AddThroughSharedList | VersionInformation.py:52-85 | adding a branch through one object makes it public for another object that shares the class list |
| Pipeline.TemplateVariables | main.py:28-41 | the eight variables in their order, each with its value: short hash, branch, visibility, `1`/`0`, `major.minor.patch`, `major.minor.patch.build`, time and date |
| Pipeline.TemplateVariablesValid | main.py:32-41 | the variables form a proper dictionary |
| Pipeline.TemplateNamesDistinct | main.py:32-41 | the eight names are distinct |
| Pipeline.VisibilityAgreesWithFlag | main.py:35-36 | `visibility` is `PUBLIC` exactly when `isPublic` is `1` |
| Pipeline.TemplateNamesArePlain | main.py:32-41 | every variable name is a plain word, so no name is mistaken for a pattern |
| Pipeline.KeysClean | main.py:48-73 | the configuration keys written are plain words |
| Pipeline.LetterKeyEntry | main.py:52-55 | a plain-word key with a one-line value not ending in whitespace can be saved and read back |
| Pipeline.VersionDottedNoBrace | main.py:38 | the dotted version holds no `{`, so it cannot open a placeholder |
| Pipeline.VersionPlaceholderRenders | main.py:38-64 | `{{version}}` in the template renders as `major.minor.patch.build` |
| Pipeline.VariablesOf | main.py:28-41 | the variables of a version record, as a proper dictionary in the eight names' order |
| Pipeline.ChangelistIsHashPrefix | main.py:33 | for git data whose short hash was taken from its hash, `changelist` is the six-character prefix of the commit hash |
| Pipeline.ModifyTemplateFile | main.py:60-66 | the header written is the template rendered with the version variables |
| Pipeline.CrashReportUpdate | main.py:72-73 | only `CrashReportClientVersion` of `[CrashReportClient]` changes, to the long version |
| Pipeline.ModifyCrashReportClient | main.py:69-75 | `KeyError` and no change without the section; otherwise the document becomes `CrashReportUpdate` and the saved text is its `SaveText` |
| Pipeline.VersionTripleClean | main.py:54-55 | the project version is one line ending in a digit |
| Pipeline.VersionLongClean | main.py:72-73 | the long version is one line ending in a digit |
| Pipeline.CrashReportReadsBack | main.py:69-75 | the updated crash-report file reads back as the updated document, holding the long version |
| Pipeline.CrashReportFileReadsBack | main.py:69-75 | for every loaded crash-report file with the section, the updated file reads back as the updated document |
| Pipeline.Retitle | main.py:50-53 | the new title is the old cell with the new value, or the new value in quotes when the old title does not parse |
| Pipeline.RewriteTitle | main.py:50-53 | building an `UnrealLocalization` from the old title, setting its value and printing it gives `Retitle` |
| Pipeline.RetitleReadsBack | main.py:50-53 | a rewritten title parses back as the old namespace and key with the new value |
| Pipeline.QuotedClean | UnrealLocalization.py:96 | a quoted one-line value is one line ending in `"` |
| Pipeline.FormatClean | UnrealLocalization.py:98 | a printed one-line cell with a new one-line value is one line ending in `)` |
| Pipeline.RetitleSaveable | main.py:50-53 | the rewritten title can be saved and read back |
| Pipeline.TitleValueNoLineBreak | main.py:51 | the title value has no line break when the project name, date, branch and short hash have none |
| Pipeline.SetTwiceKeepsSaveable | main.py:52-55 | two saveable assignments keep the document saveable |
| Pipeline.DefaultGameEntriesSaveable | main.py:52-55 | both entries the step writes can be saved and read back |
| Pipeline.DefaultGameUpdate | main.py:48-55 | only the title and `ProjectVersion` of the project settings section change: the title to the retitled cell, `ProjectVersion` to `major.minor.patch` |
| Pipeline.DefaultGameReadsBack | main.py:48-56 | the updated `DefaultGame.ini` reads back as the updated document, holding the new title and version |
| Pipeline.DefaultGameFileReadsBack | main.py:44-57 | for every loaded `DefaultGame.ini` with the section and title, and a one-line new title, the updated file reads back as the updated document |
| Pipeline.ModifyDefaultGame | main.py:44-57 | `KeyError` and no change when the section or title is missing; otherwise the document becomes `DefaultGameUpdate` with the title `<project> <version string>`, and the saved text is its `SaveText` |

## Left out

- File I/O:
  - opening, reading and writing files is out of scope. `load` receives the lines of
    `readlines`, and `save` and `Template.write` return the text they would write.
  - `Template.load` is the constructor's argument.
  - `UnrealConfig.path` and `Template.filename` are not modelled.
- Git, TeamCity, `datetime` and logging:
  - the four git invocations, and `strptime`/`strftime` on the commit date, are outside
    the model. Their outputs are parameters; the date is kept as its two printed forms.
  - TeamCity.py, the `logging` calls and the `argparse`/`__main__` block of main.py are
    not part of this model.
- Python text handling outside the modelled cases:
  - `str.lower()` is modelled on ASCII letters only.
  - `isspace`/`\s` and `\d` are modelled on the characters Python's `str` treats as
    whitespace and on ASCII digits; other Unicode digits are not modelled.
- Templates.Template.Replace: a variable name is treated as literal text. It does not
  model names that hold regular-expression metacharacters, or the backslash escapes
  `re.sub` interprets in a replacement value.
- Config.UnrealConfig.Get: returns a copy of the section. It does not model that
  Python returns the stored dictionary itself, which a caller could then change.
- `UnrealConfig.__str__` and `__repr__` (printing the dictionary) are not modelled.
- Localization.ParseText: models single-line input, plus one trailing newline. `.`
  does not cross a line break, so a title spanning several lines never matches.
- The class-attribute defaults of `Template` and `UnrealLocalization` are modelled as
  the constructor's initial values. `Template.options` and `Template.filename` are
  unused by the core and are not modelled.
- `VersionInformation` inherits from `GitVersion`. The model uses composition: a `VersionInformation` refers to its `GitVersion` object (`git`), and the inherited attributes are read through it.
- Python `int` is unbounded, so the version numbers are `nat` with no overflow to model.

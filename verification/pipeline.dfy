/**
 * The build steps of main.py: the template variables taken from the version
 * information, rendering the version header from its template, writing the version
 * into CrashReportClient.ini, and writing the displayed title and the project version
 * into DefaultGame.ini. Reading and writing the files, the command line and logging
 * are outside the model: a step receives the loaded document or template text and
 * returns the text it would write.
 */
module Pipeline {
  import opened Wrappers
  import opened Text
  import opened OrderedDict
  import opened Config
  import opened Localization
  import opened Templates
  import opened Git
  import opened Versioning

  const GameSettings: string := "/Script/EngineSettings.GeneralProjectSettings"
  const TitleKey: string := "ProjectDisplayedTitle"
  const ProjectVersionKey: string := "ProjectVersion"
  const CrashSection: string := "CrashReportClient"
  const CrashVersionKey: string := "CrashReportClientVersion"

  /** The names `get_template_variables` defines, in its order. */
  const TemplateNames: seq<string> :=
    ["changelist", "branch", "visibility", "isPublic", "versionShort", "version", "time", "date"]

  /** `major.minor.patch.build`, the template's `version`. */
  function VersionDotted(v: Version): string
  {
    VersionTriple(v) + "." + NatToString(v.build)
  }

  /** `get_template_variables(version_information)` */
  function TemplateVariables(branch: string, shortSha: string, isPublic: bool, v: Version, date: CommitDate): (d: Dict<string>)
    ensures d.keys == TemplateNames
    ensures Get(d, "changelist") == Some(shortSha) && Get(d, "branch") == Some(branch)
    ensures Get(d, "visibility") == Some(Visibility(isPublic))
    ensures Get(d, "isPublic") == Some(if isPublic then "1" else "0")
    ensures Get(d, "versionShort") == Some(VersionTriple(v)) && Get(d, "version") == Some(VersionDotted(v))
    ensures Get(d, "time") == Some(date.time) && Get(d, "date") == Some(date.day)
  {
    Dict(TemplateNames, map[
      "changelist" := shortSha,
      "branch" := branch,
      "visibility" := Visibility(isPublic),
      "isPublic" := if isPublic then "1" else "0",
      "versionShort" := VersionTriple(v),
      "version" := VersionDotted(v),
      "time" := date.time,
      "date" := date.day])
  }

  /** The eight names are distinct and are exactly the keys of the map, as in any Python dict. */
  lemma TemplateVariablesValid(branch: string, shortSha: string, isPublic: bool, v: Version, date: CommitDate)
    ensures TemplateVariables(branch, shortSha, isPublic, v, date).Valid()
  {
    TemplateNamesDistinct();
  }

  lemma TemplateNamesDistinct()
    ensures forall i, j :: 0 <= i < j < |TemplateNames| ==> TemplateNames[i] != TemplateNames[j]
  {
    var t := TemplateNames;
    assert t[0][0] == 'c' && t[1][0] == 'b' && t[2][..2] == "vi" && t[3][0] == 'i';
    assert t[4][..2] == "ve" && |t[4]| == 12 && t[5][..2] == "ve" && |t[5]| == 7;
    assert t[6][0] == 't' && t[7][0] == 'd';
  }

  /** The two flags agree: `visibility` is `PUBLIC` exactly when `isPublic` is `1`. */
  lemma VisibilityAgreesWithFlag(branch: string, shortSha: string, isPublic: bool, v: Version, date: CommitDate)
    ensures var d := TemplateVariables(branch, shortSha, isPublic, v, date);
      Get(d, "visibility") == Some("PUBLIC") <==> Get(d, "isPublic") == Some("1")
  {
  }

  /** ASCII letters only. */
  predicate Letters(s: string)
  {
    forall i :: 0 <= i < |s| ==> 'a' <= s[i] <= 'z' || 'A' <= s[i] <= 'Z'
  }

  lemma LettersArePlain(s: string)
    requires s != [] && Letters(s)
    ensures PlainName(s)
  {
  }

  lemma TemplateNamesArePlain()
    ensures forall i :: 0 <= i < |TemplateNames| ==> PlainName(TemplateNames[i])
  {
    forall i | 0 <= i < |TemplateNames|
      ensures PlainName(TemplateNames[i])
    {
      assert Letters(TemplateNames[i]);
      LettersArePlain(TemplateNames[i]);
    }
  }

  /** The keys the pipeline sets are written and read back as themselves. */
  lemma KeysClean()
    ensures forall key :: key in [TitleKey, ProjectVersionKey, CrashVersionKey] ==>
      key != [] && Letters(key)
  {
  }

  /** A key of letters with a value that has no line break and does not end in whitespace is written and read back as is. */
  lemma LetterKeyEntry(key: string, value: string)
    requires key != [] && Letters(key)
    requires NoLineBreak(value) && value != [] && !IsSpace(value[|value| - 1])
    ensures SaveableEntry(key, value)
  {
    assert '=' !in key by {
      forall i | 0 <= i < |key| ensures key[i] != '=' { }
    }
  }

  lemma DigitsNoBrace(s: string)
    requires AllDigits(s)
    ensures NoOpenBrace(s)
  {
  }

  /** The dotted version holds only digits and dots. */
  lemma VersionDottedNoBrace(v: Version)
    ensures NoOpenBrace(VersionDotted(v))
  {
    var parts := [NatToString(v.major), ".", NatToString(v.minor), ".", NatToString(v.patch), ".", NatToString(v.build)];
    assert VersionDotted(v) == parts[0] + parts[1] + parts[2] + parts[3] + parts[4] + parts[5] + parts[6];
    DigitsNoBrace(parts[0]);
    DigitsNoBrace(parts[2]);
    DigitsNoBrace(parts[4]);
    DigitsNoBrace(parts[6]);
    var s := VersionDotted(v);
    forall i | 0 <= i < |s|
      ensures s[i] != '{'
    {
      var a := |parts[0]| + 1;
      var b := a + |parts[2]| + 1;
      var c := b + |parts[4]| + 1;
      if i < a - 1 {
        assert s[i] == parts[0][i];
      } else if a - 1 <= i < a {
        assert s[i] == '.';
      } else if i < b - 1 {
        assert s[i] == parts[2][i - a];
      } else if i < b {
        assert s[i] == '.';
      } else if i < c - 1 {
        assert s[i] == parts[4][i - b];
      } else if i < c {
        assert s[i] == '.';
      } else {
        assert s[i] == parts[6][i - c];
      }
    }
  }

  /** A version header template `{{version}}` renders as `major.minor.patch.build`. */
  lemma VersionPlaceholderRenders(branch: string, shortSha: string, isPublic: bool, v: Version, date: CommitDate)
    ensures Render(Placeholder("", "version", ""), TemplateVariables(branch, shortSha, isPublic, v, date)) == VersionDotted(v)
  {
    var d := TemplateVariables(branch, shortSha, isPublic, v, date);
    TemplateVariablesValid(branch, shortSha, isPublic, v, date);
    TemplateNamesArePlain();
    VersionDottedNoBrace(v);
    assert d.vals["version"] == VersionDotted(v);
    RenderSingle("version", d);
  }

  /** The variables `get_template_variables` builds from a version information object. */
  function VariablesOf(info: VersionInformation): (d: Dict<string>)
    reads info, info.git, info.publicBranches
    ensures d.Valid() && d.keys == TemplateNames
  {
    TemplateVariablesValid(info.git.branch, info.git.shortSha, info.IsPublic(), info.git.version, info.git.commitDate);
    TemplateVariables(info.git.branch, info.git.shortSha, info.IsPublic(), info.git.version, info.git.commitDate)
  }

  /** `modify_template_file`: a fresh template for the text, the variables set, then `replace`. */
  /** The template's `changelist` is the six-character prefix of the commit hash. */
  lemma ChangelistIsHashPrefix(info: VersionInformation)
    requires info.git.Valid()
    ensures Get(VariablesOf(info), "changelist") == Some(ShortSha(info.git.sha))
    ensures info.git.sha == Get(VariablesOf(info), "changelist").value + info.git.sha[|info.git.shortSha|..]
  {
  }

  method ModifyTemplateFile(info: VersionInformation, text: string) returns (output: string)
    ensures output == Render(text, VariablesOf(info))
  {
    var vars := VariablesOf(info);
    var template := new Template(text);
    template.SetVariables(vars);
    PutAllEmpty(vars);
    assert template.variables == vars && template.template == text;
    template.Replace();
    output := template.output;
    assert output == Render(text, vars);
  }

  /** `modify_crash_report_client`: set the long version, then save; a missing section raises before saving. */
  method ModifyCrashReportClient(info: VersionInformation, cfg: UnrealConfig) returns (r: Result<string, KeyError>)
    requires cfg.Valid()
    modifies cfg
    ensures cfg.Valid()
    ensures r.Err? <==> CrashSection !in old(cfg.config.vals)
    ensures r.Err? ==> cfg.config == old(cfg.config)
    ensures r.Ok? ==> cfg.config == CrashReportUpdate(old(cfg.config), info.git.version)
    ensures r.Ok? ==> r.value == SaveText(cfg.config)
  {
    var outcome := cfg.Set(CrashSection, CrashVersionKey, info.GetVersionLong());
    if outcome.Fail? {
      return Err(outcome.error);
    }
    var text := cfg.Save();
    return Ok(text);
  }

  /** The document `modify_crash_report_client` writes. */
  function CrashReportUpdate(c: Document, v: Version): (u: Document)
    requires WellFormed(c) && CrashSection in c.vals
    ensures WellFormed(u) && u.keys == c.keys && u.vals.Keys == c.vals.Keys
    ensures u.vals[CrashSection].vals == c.vals[CrashSection].vals[CrashVersionKey := VersionLong(v)]
    ensures forall s :: s in c.vals && s != CrashSection ==> u.vals[s] == c.vals[s]
  {
    SetEntry(c, CrashSection, CrashVersionKey, VersionLong(v))
  }

  /** The three-part version holds only digits and dots, and ends with a digit. */
  lemma VersionTripleClean(v: Version)
    ensures NoLineBreak(VersionTriple(v))
    ensures VersionTriple(v) != [] && IsDigit(VersionTriple(v)[|VersionTriple(v)| - 1])
  {
    var a, b, c := NatToString(v.major), NatToString(v.minor), NatToString(v.patch);
    NoLineBreakAppend(a, ".");
    NoLineBreakAppend(a + ".", b);
    NoLineBreakAppend(a + "." + b, ".");
    NoLineBreakAppend(a + "." + b + ".", c);
    var s := VersionTriple(v);
    assert s[|s| - 1] == c[|c| - 1];
  }

  /** The long version holds only digits, dots and a dash, and ends with a digit. */
  lemma VersionLongClean(v: Version)
    ensures NoLineBreak(VersionLong(v))
    ensures VersionLong(v) != [] && IsDigit(VersionLong(v)[|VersionLong(v)| - 1])
  {
    var build := NatToString(v.build);
    VersionTripleClean(v);
    NoLineBreakAppend(VersionTriple(v), "-");
    NoLineBreakAppend(VersionTriple(v) + "-", build);
    var s := VersionLong(v);
    assert s[|s| - 1] == build[|build| - 1];
  }

  /**
   * The CrashReportClient.ini that is written loads back as the updated document, whose
   * version key holds the long version.
   */
  lemma CrashReportReadsBack(c: Document, v: Version)
    requires Saveable(c) && CrashSection in c.vals
    ensures Parse(ReadLines(SaveText(CrashReportUpdate(c, v)))) == Ok(CrashReportUpdate(c, v))
    ensures Get(CrashReportUpdate(c, v).vals[CrashSection], CrashVersionKey) == Some(VersionLong(v))
  {
    VersionLongClean(v);
    KeysClean();
    LetterKeyEntry(CrashVersionKey, VersionLong(v));
    SetKeepsSaveable(c, CrashSection, CrashVersionKey, VersionLong(v));
    SaveThenLoad(CrashReportUpdate(c, v));
  }
  /** For every `CrashReportClient.ini` that `load` accepts and that has the section, the updated file reads back. */
  lemma CrashReportFileReadsBack(text: string, v: Version)
    requires Parse(ReadLines(text)).Ok? && CrashSection in Parse(ReadLines(text)).value.vals
    ensures var u := CrashReportUpdate(Parse(ReadLines(text)).value, v);
      Parse(ReadLines(SaveText(u))) == Ok(u)
  {
    LoadedIsSaveable(text);
    CrashReportReadsBack(Parse(ReadLines(text)).value, v);
  }


  /**
   * The title `modify_default_game` writes: the old title parsed as NSLOCTEXT with only its
   * value replaced, or the new value in double quotes when the old title does not parse.
   */
  function Retitle(oldTitle: string, newValue: string): (title: string)
    ensures ParseText(oldTitle).None? ==> title == "\"" + newValue + "\""
    ensures ParseText(oldTitle).Some? ==>
      title == Format(Cell(ParseText(oldTitle).value.namespace, ParseText(oldTitle).value.key, newValue))
  {
    match ParseText(oldTitle)
    case Some(c) => Show(Some(c.namespace), Some(c.key), Some(newValue))
    case None => Show(None, None, Some(newValue))
  }

  /** The title rewrite in `modify_default_game`: parse the old title, replace the value, print. */
  method RewriteTitle(oldTitle: string, newValue: string) returns (title: string)
    ensures title == Retitle(oldTitle, newValue)
  {
    var localization := new UnrealLocalization(oldTitle);
    localization.value := Some(newValue);
    title := localization.ToString();
  }

  /** A parsed title keeps its namespace and key and reads back with the new value. */
  lemma RetitleReadsBack(oldTitle: string, newValue: string)
    requires ParseText(oldTitle).Some?
    requires NoQuote(ParseText(oldTitle).value.namespace) && NoQuote(ParseText(oldTitle).value.key)
    requires NoQuote(newValue) && NoNewline(newValue)
    ensures var c := ParseText(oldTitle).value;
      ParseText(Retitle(oldTitle, newValue)) == Some(Cell(c.namespace, c.key, newValue))
  {
    NewValueKeepsNamespaceAndKey(oldTitle, newValue);
  }

  lemma QuotedClean(value: string)
    requires NoLineBreak(value)
    ensures var t := "\"" + value + "\""; NoLineBreak(t) && t[|t| - 1] == '"'
  {
    NoLineBreakAppend("\"", value);
    NoLineBreakAppend("\"" + value, "\"");
  }

  lemma FormatClean(c: Cell, newValue: string)
    requires NoLineBreak(Format(c)) && NoLineBreak(newValue)
    ensures var t := Format(Cell(c.namespace, c.key, newValue)); NoLineBreak(t) && t[|t| - 1] == ')'
  {
    var front := Prefix + c.namespace + Separator + c.key + Separator;
    assert Format(c) == front + (c.value + Suffix);
    NoLineBreakAppend(front, c.value + Suffix);
    var t := Format(Cell(c.namespace, c.key, newValue));
    assert t == front + (newValue + Suffix);
    NoLineBreakAppend(newValue, Suffix);
    NoLineBreakAppend(front, newValue + Suffix);
  }

  /** With no line break in the old title or the new value, the new title is one the config file can hold. */
  lemma RetitleSaveable(oldTitle: string, newValue: string)
    requires NoLineBreak(oldTitle) && NoLineBreak(newValue)
    ensures SaveableEntry(TitleKey, Retitle(oldTitle, newValue))
  {
    var parsed := ParseText(oldTitle);
    if parsed.None? {
      QuotedClean(newValue);
    } else {
      var c := parsed.value;
      assert oldTitle == Format(c) by {
        assert (Format(c) + "\n")[|Format(c)|] == '\n';
      }
      FormatClean(c, newValue);
    }
    KeysClean();
    LetterKeyEntry(TitleKey, Retitle(oldTitle, newValue));
  }


  /** `f"{project_name} {version_information.get_version_string()}"` */
  function TitleValue(projectName: string, versionString: string): string
  {
    projectName + " " + versionString
  }

  /** The displayed title's new value has a line break only where the project name or the git data has one. */
  lemma TitleValueNoLineBreak(projectName: string, date: CommitDate, isPublic: bool, branch: string, v: Version, shortSha: string)
    requires NoLineBreak(projectName) && NoLineBreak(date.day) && NoLineBreak(date.time)
    requires NoLineBreak(branch) && NoLineBreak(shortSha)
    ensures NoLineBreak(TitleValue(projectName, VersionString(date, isPublic, branch, v, shortSha)))
  {
    var vs := VersionString(date, isPublic, branch, v, shortSha);
    assert Avoids(Visibility(isPublic), '\n') && Avoids(Visibility(isPublic), '\r');
    assert Avoids("ChangeList", '\n') && Avoids("ChangeList", '\r');
    VersionStringAvoids(date, isPublic, branch, v, shortSha, '\n');
    VersionStringAvoids(date, isPublic, branch, v, shortSha, '\r');
    NoLineBreakAppend(projectName, " ");
    NoLineBreakAppend(projectName + " ", vs);
  }

  /** Two `set` calls on one section, each with an entry the file can hold, keep the document saveable. */
  lemma SetTwiceKeepsSaveable(c: Document, section: string, key1: string, value1: string, key2: string, value2: string)
    requires Saveable(c) && section in c.vals
    requires SaveableEntry(key1, value1) && SaveableEntry(key2, value2)
    ensures Saveable(SetEntry(SetEntry(c, section, key1, value1), section, key2, value2))
  {
    SetKeepsSaveable(c, section, key1, value1);
    SetKeepsSaveable(SetEntry(c, section, key1, value1), section, key2, value2);
  }

  /** The two entries `modify_default_game` sets are ones the config file can hold. */
  lemma DefaultGameEntriesSaveable(oldTitle: string, newValue: string, version: Version)
    requires NoLineBreak(oldTitle) && NoLineBreak(newValue)
    ensures SaveableEntry(TitleKey, Retitle(oldTitle, newValue))
    ensures SaveableEntry(ProjectVersionKey, VersionTriple(version))
  {
    RetitleSaveable(oldTitle, newValue);
    VersionTripleClean(version);
    KeysClean();
    LetterKeyEntry(ProjectVersionKey, VersionTriple(version));
  }

  /**
   * The DefaultGame.ini that is written loads back as the updated document: the title key
   * holds the rewritten title and the project version key holds `major.minor.patch`.
   */
  lemma DefaultGameReadsBack(c: Document, newValue: string, version: Version)
    requires Saveable(c) && GameSettings in c.vals && TitleKey in c.vals[GameSettings].vals
    requires NoLineBreak(newValue)
    ensures var u := DefaultGameUpdate(c, newValue, version);
      && Parse(ReadLines(SaveText(u))) == Ok(u)
      && Get(u.vals[GameSettings], TitleKey) == Some(Retitle(c.vals[GameSettings].vals[TitleKey], newValue))
      && Get(u.vals[GameSettings], ProjectVersionKey) == Some(VersionTriple(version))
  {
    var oldTitle := c.vals[GameSettings].vals[TitleKey];
    DefaultGameEntriesSaveable(oldTitle, newValue, version);
    SetTwiceKeepsSaveable(c, GameSettings, TitleKey, Retitle(oldTitle, newValue),
      ProjectVersionKey, VersionTriple(version));
    SaveThenLoad(DefaultGameUpdate(c, newValue, version));
  }
  /** For every `DefaultGame.ini` that `load` accepts and that has the title, the updated file reads back. */
  lemma DefaultGameFileReadsBack(text: string, newValue: string, version: Version)
    requires Parse(ReadLines(text)).Ok?
    requires GameSettings in Parse(ReadLines(text)).value.vals
    requires TitleKey in Parse(ReadLines(text)).value.vals[GameSettings].vals
    requires NoLineBreak(newValue)
    ensures var u := DefaultGameUpdate(Parse(ReadLines(text)).value, newValue, version);
      Parse(ReadLines(SaveText(u))) == Ok(u)
  {
    LoadedIsSaveable(text);
    DefaultGameReadsBack(Parse(ReadLines(text)).value, newValue, version);
  }


  /** The document `modify_default_game` writes: the title with its new value set first, then the project version. */
  function DefaultGameUpdate(c: Document, newValue: string, version: Version): (u: Document)
    requires WellFormed(c) && GameSettings in c.vals && TitleKey in c.vals[GameSettings].vals
    ensures WellFormed(u) && u.keys == c.keys && u.vals.Keys == c.vals.Keys
    ensures u.vals[GameSettings].vals == c.vals[GameSettings].vals
      [TitleKey := Retitle(c.vals[GameSettings].vals[TitleKey], newValue)]
      [ProjectVersionKey := VersionTriple(version)]
    ensures forall s :: s in c.vals && s != GameSettings ==> u.vals[s] == c.vals[s]
  {
    var title := Retitle(c.vals[GameSettings].vals[TitleKey], newValue);
    SetEntry(SetEntry(c, GameSettings, TitleKey, title), GameSettings, ProjectVersionKey, VersionTriple(version))
  }

  /**
   * `modify_default_game`: read the displayed title, rewrite its value through
   * `UnrealLocalization`, set it, set the project version, then save. A missing section or
   * title raises `KeyError` before anything is set.
   */
  method ModifyDefaultGame(info: VersionInformation, projectName: string, cfg: UnrealConfig)
    returns (r: Result<string, KeyError>)
    requires cfg.Valid()
    modifies cfg
    ensures cfg.Valid()
    ensures r.Err? <==> GameSettings !in old(cfg.config.vals) || TitleKey !in old(cfg.config.vals[GameSettings].vals)
    ensures r.Err? ==> cfg.config == old(cfg.config)
    ensures r.Ok? ==> cfg.config == DefaultGameUpdate(old(cfg.config), TitleValue(projectName, old(info.GetVersionString())), old(info.git.version))
    ensures r.Ok? ==> r.value == SaveText(cfg.config)
  {
    ghost var c := cfg.config;
    var got := cfg.Get(Some(GameSettings), Some(TitleKey));
    if got.Err? {
      return Err(got.error);
    }
    var newValue := TitleValue(projectName, info.GetVersionString());
    var version := info.git.version;
    assert newValue == TitleValue(projectName, old(info.GetVersionString())) && version == old(info.git.version);
    var title := RewriteTitle(got.value.text, newValue);
    ghost var c1 := SetEntry(c, GameSettings, TitleKey, title);
    var setTitle := cfg.Set(GameSettings, TitleKey, title);
    assert setTitle.Pass? && cfg.config == c1;
    var setVersion := cfg.Set(GameSettings, ProjectVersionKey, VersionTriple(version));
    assert setVersion.Pass? && cfg.config == SetEntry(c1, GameSettings, ProjectVersionKey, VersionTriple(version));
    assert cfg.config == DefaultGameUpdate(c, newValue, version);
    var text := cfg.Save();
    return Ok(text);
  }
}

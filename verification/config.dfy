/**
 * The `UnrealConfig` class of UnrealConfig.py: an Unreal Engine `.ini` file held as an
 * ordered mapping from section name to an ordered mapping from key to value.
 * `load` parses the file line by line, `get` and `set` look up and update the
 * mapping in place, and `save` writes it back out.
 */
module Config {
  import opened Wrappers
  import opened Text
  import opened OrderedDict

  type Section = Dict<string>
  type Document = Dict<Section>

  /** Every section is itself a well-formed dictionary. */
  ghost predicate WellFormed(c: Document)
  {
    c.Valid() && forall name :: name in c.vals ==> c.vals[name].Valid()
  }

  /** The exceptions `load` raises. */
  datatype LoadError =
    | InvalidLine(line: string)       // `Exception("Invalid INI File")` for a line of neither form
    | NoCurrentSection(line: string)  // a key/value line before any header: `section` is still unbound

  /** Python's `KeyError`, carrying the key that was missing (`None` when that key was `None`). */
  datatype KeyError = KeyError(missing: Option<string>)

  /** What `get` returns: a single value, or a whole section when no key is given. */
  datatype Entry = Value(text: string) | Whole(section: Section)

  // ---------------------------------------------------------------- the line grammar

  /** The three line contents `load` skips before stripping. */
  predicate IsBlankLine(line: string)
  {
    line == "\n" || line == "" || line == "\r\n"
  }

  /** `re.match(r'^.*?=.*?$', s)` on a stripped line: an `=` and no `\n`, which `.` cannot cross. */
  predicate IsKeyValueLine(s: string)
  {
    '=' in s && '\n' !in s
  }

  /** `re.match(r'^\[.*]$', s)` on a stripped line. */
  predicate IsHeaderLine(s: string)
  {
    |s| >= 2 && s[0] == '[' && s[|s| - 1] == ']' && '\n' !in s
  }

  /** The local variables of `load`: the dictionary built so far and the current section, unbound at first. */
  datatype LoadState = LoadState(config: Document, section: Option<string>)

  ghost predicate StateOk(st: LoadState)
  {
    WellFormed(st.config) && (st.section.Some? ==> st.section.value in st.config.vals)
  }

  const Start: LoadState := LoadState(Empty(), None)

  lemma PutWellFormed(c: Document, name: string, d: Section)
    requires WellFormed(c) && d.Valid()
    ensures WellFormed(Put(c, name, d))
  {
    var c' := Put(c, name, d);
    forall x | x in c'.vals ensures c'.vals[x].Valid() {
      if x != name {
        assert Get(c', x) == Get(c, x);
      }
    }
  }

  /** One iteration of the loop in `load`. */
  function Step(st: LoadState, line: string): (r: Result<LoadState, LoadError>)
    requires StateOk(st)
    ensures r.Ok? ==> StateOk(r.value)
  {
    if IsBlankLine(line) then Ok(st)
    else
      var s := Strip(line);
      if IsKeyValueLine(s) then
        var (k, v) := SplitAtFirst(s, '=');
        match st.section
        case None => Err(NoCurrentSection(s))
        case Some(name) =>
          PutWellFormed(st.config, name, Put(st.config.vals[name], k, v));
          Ok(st.(config := Put(st.config, name, Put(st.config.vals[name], k, v))))
      else if IsHeaderLine(s) then
        var name := s[1..|s| - 1];
        PutWellFormed(st.config, name, Empty());
        Ok(LoadState(Put(st.config, name, Empty()), Some(name)))
      else Err(InvalidLine(s))
  }

  /** The loop of `load` run over the remaining lines. */
  function ParseFrom(st: LoadState, lines: seq<string>): (r: Result<LoadState, LoadError>)
    requires StateOk(st)
    ensures r.Ok? ==> StateOk(r.value)
    decreases |lines|
  {
    if lines == [] then Ok(st)
    else
      match Step(st, lines[0])
      case Err(e) => Err(e)
      case Ok(next) => ParseFrom(next, lines[1..])
  }

  /** What `load` returns for the lines of a file, or the exception it raises. */
  function Parse(lines: seq<string>): (r: Result<Document, LoadError>)
    ensures r.Ok? ==> WellFormed(r.value)
  {
    match ParseFrom(Start, lines)
    case Err(e) => Err(e)
    case Ok(st) => Ok(st.config)
  }

  /** The loop of `load` from line `i` on: one step, then the lines after it. */
  lemma ParseFromAt(st: LoadState, lines: seq<string>, i: nat)
    requires StateOk(st) && i < |lines|
    ensures ParseFrom(st, lines[i..]) ==
      match Step(st, lines[i])
      case Err(e) => Err(e)
      case Ok(next) => ParseFrom(next, lines[i + 1..])
  {
    assert lines[i..][0] == lines[i];
    assert lines[i..][1..] == lines[i + 1..];
  }

  /** `UnrealConfig.load`, over the lines `readlines` gave. */
  method Load(lines: seq<string>) returns (r: Result<Document, LoadError>)
    ensures r == Parse(lines)
  {
    var config: Document := Empty();
    var section: Option<string> := None;
    for i := 0 to |lines|
      invariant StateOk(LoadState(config, section))
      invariant ParseFrom(LoadState(config, section), lines[i..]) == ParseFrom(Start, lines)
    {
      ghost var st := LoadState(config, section);
      ParseFromAt(st, lines, i);
      var line := lines[i];
      if IsBlankLine(line) {
        assert Step(st, line) == Ok(st);
        continue;
      }
      line := Strip(line);
      if IsKeyValueLine(line) {
        var (key, value) := SplitAtFirst(line, '=');
        if section.None? {
          assert Step(st, lines[i]) == Err(NoCurrentSection(line));
          return Err(NoCurrentSection(line));
        }
        PutWellFormed(config, section.value, Put(config.vals[section.value], key, value));
        config := Put(config, section.value, Put(config.vals[section.value], key, value));
        assert Step(st, lines[i]) == Ok(LoadState(config, section));
      } else if IsHeaderLine(line) {
        section := Some(line[1..|line| - 1]);
        PutWellFormed(config, section.value, Empty());
        config := Put(config, section.value, Empty());
        assert Step(st, lines[i]) == Ok(LoadState(config, section));
      } else {
        assert Step(st, lines[i]) == Err(InvalidLine(line));
        return Err(InvalidLine(line));
      }
    }
    assert lines[|lines|..] == [];
    return Ok(config);
  }

  // ---------------------------------------------------------------- serialisation

  function HeaderText(name: string): string
  {
    "[" + name + "]\n"
  }

  function EntryText(key: string, value: string): string
  {
    key + "=" + value + "\n"
  }

  /** The `key=value` lines of the first `n` keys of a section. */
  function EntryLines(d: Section, n: nat): seq<string>
    requires d.Valid() && n <= |d.keys|
  {
    if n == 0 then [] else EntryLines(d, n - 1) + [EntryText(d.keys[n - 1], d.vals[d.keys[n - 1]])]
  }

  /** A section as `save` writes it: its header, its keys, one blank line. */
  function SectionLines(name: string, d: Section): seq<string>
    requires d.Valid()
  {
    [HeaderText(name)] + EntryLines(d, |d.keys|) + ["\n"]
  }

  /** The lines `save` writes for the first `n` sections. */
  function DocumentLines(c: Document, n: nat): seq<string>
    requires WellFormed(c) && n <= |c.keys|
  {
    if n == 0 then [] else DocumentLines(c, n - 1) + SectionLines(c.keys[n - 1], c.vals[c.keys[n - 1]])
  }

  /** The file contents `save` writes. */
  function SaveText(c: Document): string
    requires WellFormed(c)
  {
    Concat(DocumentLines(c, |c.keys|))
  }

  lemma EntryLinesConcat(d: Section, j: nat)
    requires d.Valid() && j < |d.keys|
    ensures Concat(EntryLines(d, j + 1)) == Concat(EntryLines(d, j)) + EntryText(d.keys[j], d.vals[d.keys[j]])
  {
    var line := EntryText(d.keys[j], d.vals[d.keys[j]]);
    ConcatAppend(EntryLines(d, j), [line]);
    assert Concat([line]) == line + Concat([]);
  }

  /** One iteration of the loop in `save`: the header, the `key=value` lines, the blank line. */
  method WriteSection(name: string, d: Section) returns (text: string)
    requires d.Valid()
    ensures text == Concat(SectionLines(name, d))
  {
    text := HeaderText(name);
    var j := 0;
    while j < |d.keys|
      invariant 0 <= j <= |d.keys|
      invariant text == HeaderText(name) + Concat(EntryLines(d, j))
    {
      EntryLinesConcat(d, j);
      text := text + EntryText(d.keys[j], d.vals[d.keys[j]]);
      j := j + 1;
    }
    text := text + "\n";
    SectionLinesConcat(name, d);
  }

  lemma DocumentLinesConcat(c: Document, i: nat)
    requires WellFormed(c) && i < |c.keys|
    ensures Concat(DocumentLines(c, i + 1)) == Concat(DocumentLines(c, i)) + Concat(SectionLines(c.keys[i], c.vals[c.keys[i]]))
  {
    ConcatAppend(DocumentLines(c, i), SectionLines(c.keys[i], c.vals[c.keys[i]]));
  }

  lemma SectionLinesConcat(name: string, d: Section)
    requires d.Valid()
    ensures Concat(SectionLines(name, d)) == HeaderText(name) + Concat(EntryLines(d, |d.keys|)) + "\n"
  {
    var entries := EntryLines(d, |d.keys|);
    assert SectionLines(name, d) == [HeaderText(name)] + (entries + ["\n"]);
    ConcatAppend(entries, ["\n"]);
    assert Concat(["\n"]) == "\n" + Concat([]);
  }

  /** `section` is the first section, in stored order, that holds `key`. */
  predicate HasKeyAt(c: Document, i: int, key: string)
  {
    0 <= i < |c.keys| && c.keys[i] in c.vals && key in c.vals[c.keys[i]].vals
  }

  predicate FirstHolder(c: Document, i: int, key: string)
  {
    HasKeyAt(c, i, key) && forall j :: 0 <= j < i ==> !HasKeyAt(c, j, key)
  }

  // ---------------------------------------------------------------- what one line does

  /**
   * A line that strips to text with an `=` (and no `\n`) is a key/value line, even when it also
   * looks like a header; it is split at its first `=`, the value keeping any later `=`.
   */
  lemma KeyValueSplitsAtFirstEquals(st: LoadState, line: string, key: string, value: string)
    requires StateOk(st) && st.section.Some?
    requires !IsBlankLine(line) && Strip(line) == key + "=" + value && '\n' !in Strip(line)
    requires '=' !in key
    ensures Step(st, line) == Ok(st.(config := Put(st.config, st.section.value, Put(st.config.vals[st.section.value], key, value))))
  {
    var s := Strip(line);
    assert s[|key|] == '=';
    var (k, v) := SplitAtFirst(s, '=');
    SplitUnique(k, v, key, value, '=');
  }

  /** `[k=v]` is read as the key `[k` with the value `v]`, not as a header. */
  lemma BracketedAssignmentIsKeyValue(st: LoadState, k: string, v: string)
    requires StateOk(st) && st.section.Some?
    requires '=' !in k && NoLineBreak(k) && NoLineBreak(v)
    ensures var line := ("[" + k) + "=" + (v + "]") + "\n";
      Step(st, line) == Ok(st.(config := Put(st.config, st.section.value, Put(st.config.vals[st.section.value], "[" + k, v + "]"))))
  {
    var t := ("[" + k) + "=" + (v + "]");
    BracketedText(k, v);
    StripTrailing(t, "\n");
    KeyValueSplitsAtFirstEquals(st, t + "\n", "[" + k, v + "]");
  }

  lemma BracketedText(k: string, v: string)
    requires NoLineBreak(k) && NoLineBreak(v)
    ensures var t := ("[" + k) + "=" + (v + "]");
      t[0] == '[' && t[|t| - 1] == ']' && '\n' !in t
  {
    var t := ("[" + k) + "=" + (v + "]");
    forall i | 0 <= i < |t|
      ensures t[i] != '\n'
    {
      if 0 < i <= |k| {
        assert t[i] == k[i - 1];
      } else if |k| + 1 < i < |t| - 1 {
        assert t[i] == v[i - |k| - 2];
      }
    }
  }

  /**
   * A header line opens its section empty. A section seen before keeps its place in the order
   * but loses its earlier keys; a new one goes last. No other section changes.
   */
  lemma HeaderResetsSection(st: LoadState, line: string)
    requires StateOk(st) && !IsBlankLine(line)
    requires !IsKeyValueLine(Strip(line)) && IsHeaderLine(Strip(line))
    ensures var name := Strip(line)[1..|Strip(line)| - 1];
      && Step(st, line).Ok?
      && Step(st, line).value.section == Some(name)
      && Step(st, line).value.config.vals[name] == Empty()
      && (name in st.config.vals ==> Step(st, line).value.config.keys == st.config.keys)
      && (name !in st.config.vals ==> Step(st, line).value.config.keys == st.config.keys + [name])
      && forall x :: x != name ==> Get(Step(st, line).value.config, x) == Get(st.config, x)
  {
  }

  /** Only `"\n"`, `""` and `"\r\n"` are skipped; any other line of whitespace alone is invalid. */
  lemma WhitespaceLineIsInvalid(st: LoadState, line: string)
    requires StateOk(st) && !IsBlankLine(line) && AllSpace(line)
    ensures Step(st, line) == Err(InvalidLine(""))
  {
  }

  /** A key/value line before any header makes `load` fail: there is no current section to put it in. */
  lemma {:induction false} KeyValueBeforeHeaderFails(lines: seq<string>, i: nat)
    requires i < |lines| && forall j :: 0 <= j < i ==> IsBlankLine(lines[j])
    requires !IsBlankLine(lines[i]) && IsKeyValueLine(Strip(lines[i]))
    ensures Parse(lines) == Err(NoCurrentSection(Strip(lines[i])))
  {
    SkipBlankLines(lines, i);
  }

  lemma {:induction false} SkipBlankLines(lines: seq<string>, i: nat)
    requires i <= |lines| && forall j :: 0 <= j < i ==> IsBlankLine(lines[j])
    ensures ParseFrom(Start, lines) == ParseFrom(Start, lines[i..])
  {
    if i > 0 {
      SkipBlankLines(lines[1..], i - 1);
      assert lines[1..][i - 1..] == lines[i..];
    }
  }

  // ---------------------------------------------------------------- load after save

  /** A key and value that `save` writes as a line `load` reads back unchanged. */
  predicate SaveableEntry(key: string, value: string)
  {
    && '=' !in key && NoLineBreak(key) && (key == [] || !IsSpace(key[0]))
    && NoLineBreak(value) && (value == [] || !IsSpace(value[|value| - 1]))
  }

  ghost predicate SaveableSection(d: Section)
  {
    d.Valid() && forall k :: k in d.vals ==> SaveableEntry(k, d.vals[k])
  }

  /** Section names and keys hold no `=` or line break, values no line break, no key starts and no value ends with whitespace. */
  ghost predicate Saveable(c: Document)
  {
    && WellFormed(c)
    && forall name :: name in c.vals ==> '=' !in name && NoLineBreak(name) && SaveableSection(c.vals[name])
  }

  /** Every iteration of `load` either fails or keeps going, so the lines can be read in two parts. */
  lemma {:induction false} ParseFromAppend(st: LoadState, a: seq<string>, b: seq<string>)
    requires StateOk(st)
    ensures ParseFrom(st, a + b) ==
      match ParseFrom(st, a)
      case Err(e) => Err(e)
      case Ok(mid) => ParseFrom(mid, b)
    decreases |a|
  {
    if a == [] {
      assert a + b == b;
    } else {
      assert (a + b)[0] == a[0];
      assert (a + b)[1..] == a[1..] + b;
      match Step(st, a[0])
      case Err(e) =>
      case Ok(next) => ParseFromAppend(next, a[1..], b);
    }
  }

  /** A written `key=value` line is read back as that key and value, in the current section. */
  lemma EntryStep(st: LoadState, name: string, key: string, value: string)
    requires StateOk(st) && st.section == Some(name)
    requires SaveableEntry(key, value)
    ensures Step(st, EntryText(key, value)) == Ok(st.(config := Put(st.config, name, Put(st.config.vals[name], key, value))))
  {
    var t := key + "=" + value;
    var line := EntryText(key, value);
    assert line == t + "\n";
    assert t[|key|] == '=';
    assert t[0] != '\r' && t[0] != '\n';
    assert line[0] == t[0] && |line| >= 2;
    assert !IsBlankLine(line);
    StripTrailing(t, "\n");
    assert forall i :: 0 <= i < |t| ==> t[i] != '\n' by {
      forall i | 0 <= i < |t| ensures t[i] != '\n' {
        if i < |key| { assert t[i] == key[i]; }
        else if i > |key| { assert t[i] == value[i - |key| - 1]; }
      }
    }
    assert IsKeyValueLine(t);
    var (k, v) := SplitAtFirst(t, '=');
    SplitUnique(k, v, key, value, '=');
  }

  lemma HeaderLine(name: string)
    requires '=' !in name && NoLineBreak(name)
    ensures !IsBlankLine(HeaderText(name))
    ensures var t := Strip(HeaderText(name)); !IsKeyValueLine(t) && IsHeaderLine(t) && t[1..|t| - 1] == name
  {
    var t := "[" + name + "]";
    assert HeaderText(name) == t + "\n";
    assert HeaderText(name)[0] == '[';
    StripTrailing(t, "\n");
    forall i | 0 <= i < |t| ensures t[i] != '\n' && t[i] != '=' {
      if 0 < i < |t| - 1 { assert t[i] == name[i - 1]; }
    }
    assert t[1..|t| - 1] == name;
  }

  /** A written `[name]` line is read back as a header opening `name`, empty. */
  lemma HeaderStep(st: LoadState, name: string)
    requires StateOk(st)
    requires '=' !in name && NoLineBreak(name)
    ensures Step(st, HeaderText(name)) == Ok(LoadState(Put(st.config, name, Empty()), Some(name)))
  {
    HeaderLine(name);
  }

  /** Reading the `key=value` lines of the first `n` keys of `d` fills the current section with them. */
  lemma {:induction false} EntriesRoundTrip(c: Document, name: string, d: Section, n: nat)
    requires WellFormed(c) && SaveableSection(d) && n <= |d.keys|
    ensures StateOk(LoadState(Put(c, name, Empty()), Some(name)))
    ensures ParseFrom(LoadState(Put(c, name, Empty()), Some(name)), EntryLines(d, n))
         == Ok(LoadState(Put(c, name, Take(d, n)), Some(name)))
  {
    PutWellFormed(c, name, Empty());
    if n == 0 {
      TakeNone(d);
    } else {
      EntriesRoundTrip(c, name, d, n - 1);
      EntriesStep(c, name, d, n - 1);
    }
  }

  /** Reading the line of key `n` after those of the first `n` keys adds that key. */
  lemma EntriesStep(c: Document, name: string, d: Section, n: nat)
    requires WellFormed(c) && SaveableSection(d) && n < |d.keys|
    requires StateOk(LoadState(Put(c, name, Empty()), Some(name)))
    requires ParseFrom(LoadState(Put(c, name, Empty()), Some(name)), EntryLines(d, n))
         == Ok(LoadState(Put(c, name, Take(d, n)), Some(name)))
    ensures ParseFrom(LoadState(Put(c, name, Empty()), Some(name)), EntryLines(d, n + 1))
         == Ok(LoadState(Put(c, name, Take(d, n + 1)), Some(name)))
  {
    var st0 := LoadState(Put(c, name, Empty()), Some(name));
    var key := d.keys[n];
    assert key in d.vals;
    var value := d.vals[key];
    var line := EntryText(key, value);
    var before := Take(d, n);
    PutWellFormed(c, name, before);
    var mid := LoadState(Put(c, name, before), Some(name));
    assert EntryLines(d, n + 1) == EntryLines(d, n) + [line];
    ParseFromAppend(st0, EntryLines(d, n), [line]);
    assert ParseFrom(st0, EntryLines(d, n + 1)) == ParseFrom(mid, [line]);
    assert mid.config.vals[name] == before;
    EntryStep(mid, name, key, value);
    var after := Put(Put(c, name, before), name, Put(before, key, value));
    assert ParseFrom(mid, [line]) == Ok(LoadState(after, Some(name))) by {
      assert [line][1..] == [];
    }
    PutPut(c, name, before, Put(before, key, value));
    TakeNext(d, n);
  }

  /** Reading the lines written for one section adds that section, whole, and makes it current. */
  lemma SectionRoundTrip(prev: LoadState, name: string, d: Section)
    requires StateOk(prev)
    requires '=' !in name && NoLineBreak(name) && SaveableSection(d)
    ensures ParseFrom(prev, SectionLines(name, d)) == Ok(LoadState(Put(prev.config, name, d), Some(name)))
  {
    var entries := EntryLines(d, |d.keys|);
    var lines := [HeaderText(name)] + (entries + ["\n"]);
    assert SectionLines(name, d) == lines;
    PutWellFormed(prev.config, name, Empty());
    PutWellFormed(prev.config, name, d);
    var afterHeader := LoadState(Put(prev.config, name, Empty()), Some(name));
    var closed := LoadState(Put(prev.config, name, d), Some(name));
    assert ParseFrom(prev, lines) == ParseFrom(afterHeader, entries + ["\n"]) by {
      HeaderStep(prev, name);
      assert lines[0] == HeaderText(name) && lines[1..] == entries + ["\n"];
    }
    assert ParseFrom(afterHeader, entries + ["\n"]) == ParseFrom(closed, ["\n"]) by {
      ParseFromAppend(afterHeader, entries, ["\n"]);
      EntriesRoundTrip(prev.config, name, d, |d.keys|);
      TakeAll(d);
    }
    assert ParseFrom(closed, ["\n"]) == Ok(closed) by {
      assert ["\n"][1..] == [];
    }
  }

  /** Reading the lines written for the first `n` sections gives those sections, the last one current. */
  lemma {:induction false} SectionsRoundTrip(c: Document, n: nat)
    requires Saveable(c) && n <= |c.keys|
    ensures ParseFrom(Start, DocumentLines(c, n))
         == Ok(LoadState(Take(c, n), if n == 0 then None else Some(c.keys[n - 1])))
  {
    if n == 0 {
      TakeNone(c);
    } else {
      SectionsRoundTrip(c, n - 1);
      SectionsStep(c, n - 1);
    }
  }

  /** Reading the lines of section `n` after those of the first `n` sections adds that section. */
  lemma SectionsStep(c: Document, n: nat)
    requires Saveable(c) && n < |c.keys|
    requires ParseFrom(Start, DocumentLines(c, n))
         == Ok(LoadState(Take(c, n), if n == 0 then None else Some(c.keys[n - 1])))
    ensures ParseFrom(Start, DocumentLines(c, n + 1)) == Ok(LoadState(Take(c, n + 1), Some(c.keys[n])))
  {
    var name := c.keys[n];
    assert name in c.vals;
    var d := c.vals[name];
    var prev := LoadState(Take(c, n), if n == 0 then None else Some(c.keys[n - 1]));
    assert StateOk(prev) by {
      forall x | x in prev.config.vals ensures prev.config.vals[x].Valid() {
        assert prev.config.vals[x] == c.vals[x];
      }
    }
    assert DocumentLines(c, n + 1) == DocumentLines(c, n) + SectionLines(name, d);
    ParseFromAppend(Start, DocumentLines(c, n), SectionLines(name, d));
    SectionRoundTrip(prev, name, d);
    TakeNext(c, n);
  }

  /** Lines that are each one complete line with no carriage return. */
  predicate CleanLines(ls: seq<string>)
  {
    && (forall i :: 0 <= i < |ls| ==> IsLine(ls[i]))
    && (forall i, j :: 0 <= i < |ls| && 0 <= j < |ls[i]| ==> ls[i][j] != '\r')
  }

  lemma CleanLinesAppend(a: seq<string>, b: seq<string>)
    requires CleanLines(a) && CleanLines(b)
    ensures CleanLines(a + b)
  {
    forall i | |a| <= i < |a + b|
      ensures (a + b)[i] == b[i - |a|]
    {
    }
  }

  /** Every line `save` writes is one complete line with no carriage return. */
  lemma SavedLinesAreLines(c: Document, n: nat)
    requires Saveable(c) && n <= |c.keys|
    ensures forall i :: 0 <= i < |DocumentLines(c, n)| ==> IsLine(DocumentLines(c, n)[i])
    ensures forall i, j :: 0 <= i < |DocumentLines(c, n)| && 0 <= j < |DocumentLines(c, n)[i]| ==> DocumentLines(c, n)[i][j] != '\r'
  {
    if n > 0 {
      SavedLinesAreLines(c, n - 1);
      var name := c.keys[n - 1];
      var d := c.vals[name];
      var h := HeaderText(name);
      var entries := EntryLines(d, |d.keys|);
      assert CleanLines([h]) by {
        forall j | 0 <= j < |h| - 1 ensures h[j] != '\n' && h[j] != '\r' {
          if 0 < j < |h| - 2 { assert h[j] == name[j - 1]; }
        }
      }
      assert CleanLines(entries) by {
        SavedEntryLinesAreLines(d, |d.keys|);
      }
      assert CleanLines(["\n"]);
      CleanLinesAppend([h], entries);
      CleanLinesAppend([h] + entries, ["\n"]);
      CleanLinesAppend(DocumentLines(c, n - 1), SectionLines(name, d));
    }
  }

  lemma SavedEntryLinesAreLines(d: Section, n: nat)
    requires SaveableSection(d) && n <= |d.keys|
    ensures forall i :: 0 <= i < |EntryLines(d, n)| ==> IsLine(EntryLines(d, n)[i])
    ensures forall i, j :: 0 <= i < |EntryLines(d, n)| && 0 <= j < |EntryLines(d, n)[i]| ==> EntryLines(d, n)[i][j] != '\r'
  {
    if n > 0 {
      SavedEntryLinesAreLines(d, n - 1);
      var key := d.keys[n - 1];
      var value := d.vals[key];
      var l := EntryText(key, value);
      assert SaveableEntry(key, value);
      assert forall j :: 0 <= j < |l| - 1 ==> l[j] != '\n' && l[j] != '\r' by {
        forall j | 0 <= j < |l| - 1 ensures l[j] != '\n' && l[j] != '\r' {
          if j < |key| { assert l[j] == key[j]; }
          else if j > |key| { assert l[j] == value[j - |key| - 1]; }
        }
      }
    }
  }

  /**
   * `load` after `save` gives back the same ordered sections, keys and values,
   * when the document is one `save` can write unambiguously.
   */
  lemma SaveThenLoad(c: Document)
    requires Saveable(c)
    ensures Parse(ReadLines(SaveText(c))) == Ok(c)
  {
    var lines := DocumentLines(c, |c.keys|);
    SavedLinesAreLines(c, |c.keys|);
    ConcatAvoids(lines, '\r');
    TranslateWithoutCarriageReturn(Concat(lines));
    SplitConcat(lines);
    SectionsRoundTrip(c, |c.keys|);
    TakeAll(c);
  }

  /** The document after `set(section, key, value)` on an existing section: `key` upserted in that section, all else as it was. */
  function SetEntry(c: Document, section: string, key: string, value: string): (r: Document)
    requires WellFormed(c) && section in c.vals
    ensures WellFormed(r) && r.keys == c.keys
    ensures r.vals.Keys == c.vals.Keys
    ensures r.vals[section].vals == c.vals[section].vals[key := value]
    ensures forall s :: s in c.vals && s != section ==> r.vals[s] == c.vals[s]
  {
    PutWellFormed(c, section, Put(c.vals[section], key, value));
    Put(c, section, Put(c.vals[section], key, value))
  }

  /** `set` on an existing section keeps the document one that `save` writes unambiguously, when the new entry is. */
  lemma SetKeepsSaveable(c: Document, section: string, key: string, value: string)
    requires Saveable(c) && section in c.vals && SaveableEntry(key, value)
    ensures Saveable(SetEntry(c, section, key, value))
  {
    var d := Put(c.vals[section], key, value);
    var c' := Put(c, section, d);
    PutWellFormed(c, section, d);
    assert SaveableSection(d) by {
      forall k | k in d.vals
        ensures SaveableEntry(k, d.vals[k])
      {
        if k != key {
          assert Get(d, k) == Get(c.vals[section], k);
        }
      }
    }
    forall name | name in c'.vals
      ensures '=' !in name && NoLineBreak(name) && SaveableSection(c'.vals[name])
    {
      if name != section {
        assert Get(c', name) == Get(c, name);
      }
    }
  }

  /** Opening a new, empty section keeps the document saveable when the name is. */
  lemma OpenKeepsSaveable(c: Document, name: string)
    requires Saveable(c) && '=' !in name && NoLineBreak(name)
    ensures Saveable(Put(c, name, Empty()))
  {
    var c' := Put(c, name, Empty());
    PutWellFormed(c, name, Empty());
    forall x | x in c'.vals
      ensures '=' !in x && NoLineBreak(x) && SaveableSection(c'.vals[x])
    {
      if x != name {
        assert Get(c', x) == Get(c, x);
      }
    }
  }

  /** A stripped `key=value` line splits into an entry that `save` writes back as it was. */
  lemma SplitSaveable(s: string)
    requires '=' in s && NoLineBreak(s) && !IsSpace(s[0]) && !IsSpace(s[|s| - 1])
    ensures SaveableEntry(SplitAtFirst(s, '=').0, SplitAtFirst(s, '=').1)
  {
    var (k, v) := SplitAtFirst(s, '=');
    assert s == (k + "=") + v;
    NoLineBreakAppend(k + "=", v);
    NoLineBreakAppend(k, "=");
    if k != [] {
      assert k[0] == s[0];
    }
    if v != [] {
      assert v[|v| - 1] == s[|s| - 1];
    }
  }

  /** A stripped line without `\r` keeps none, and neither starts nor ends with whitespace. */
  lemma StrippedLine(line: string)
    requires '\r' !in line && Strip(line) != []
    ensures '\r' !in Strip(line) && !IsSpace(Strip(line)[0]) && !IsSpace(Strip(line)[|Strip(line)| - 1])
  {
    StripInside(line);
  }

  /** The name inside a header that holds no `=` or line break holds none either. */
  lemma HeaderNameSaveable(s: string)
    requires |s| >= 2 && '=' !in s && '\r' !in s && '\n' !in s
    ensures '=' !in s[1..|s| - 1] && NoLineBreak(s[1..|s| - 1])
  {
    var name := s[1..|s| - 1];
    assert forall i :: 0 <= i < |name| ==> name[i] == s[i + 1];
  }

  /** Storing the entry of a stripped `key=value` line without `\r` keeps the document saveable. */
  lemma KeyValueSaveable(c: Document, name: string, s: string)
    requires Saveable(c) && name in c.vals
    requires IsKeyValueLine(s) && '\r' !in s && !IsSpace(s[0]) && !IsSpace(s[|s| - 1])
    ensures Saveable(SetEntry(c, name, SplitAtFirst(s, '=').0, SplitAtFirst(s, '=').1))
  {
    assert NoLineBreak(s);
    SplitSaveable(s);
    SetKeepsSaveable(c, name, SplitAtFirst(s, '=').0, SplitAtFirst(s, '=').1);
  }

  /** A header line keeps the document saveable. */
  lemma HeaderSaveable(st: LoadState, line: string)
    requires StateOk(st) && Saveable(st.config) && '\r' !in line
    requires !IsBlankLine(line) && !IsKeyValueLine(Strip(line)) && IsHeaderLine(Strip(line))
    ensures Step(st, line).Ok? && Saveable(Step(st, line).value.config)
  {
    var s := Strip(line);
    var name := s[1..|s| - 1];
    assert Saveable(Put(st.config, name, Empty())) by {
      StrippedLine(line);
      HeaderNameSaveable(s);
      OpenKeepsSaveable(st.config, name);
    }
    assert Step(st, line) == Ok(LoadState(Put(st.config, name, Empty()), Some(name)));
  }

  /** One iteration of `load` on a line without `\r` keeps the document saveable. */
  lemma StepSaveable(st: LoadState, line: string)
    requires StateOk(st) && Saveable(st.config) && '\r' !in line
    ensures Step(st, line).Ok? ==> Saveable(Step(st, line).value.config)
  {
    if !IsBlankLine(line) {
      if IsKeyValueLine(Strip(line)) {
        if st.section.Some? {
          var s := Strip(line);
          var kv := SplitAtFirst(s, '=');
          var name := st.section.value;
          assert Step(st, line) == Ok(st.(config := SetEntry(st.config, name, kv.0, kv.1))) by {
            KeyValueSplitsAtFirstEquals(st, line, kv.0, kv.1);
          }
          assert Saveable(SetEntry(st.config, name, kv.0, kv.1)) by {
            StrippedLine(line);
            KeyValueSaveable(st.config, name, s);
          }
        }
      } else if IsHeaderLine(Strip(line)) {
        HeaderSaveable(st, line);
      }
    }
  }

  /** Running `load` over lines without `\r` keeps the document saveable. */
  lemma {:induction false} ParseFromSaveable(st: LoadState, lines: seq<string>)
    requires StateOk(st) && Saveable(st.config)
    requires forall i :: 0 <= i < |lines| ==> '\r' !in lines[i]
    ensures ParseFrom(st, lines).Ok? ==> Saveable(ParseFrom(st, lines).value.config)
    decreases |lines|
  {
    if lines != [] {
      StepSaveable(st, lines[0]);
      match Step(st, lines[0])
      case Err(_) =>
      case Ok(next) => ParseFromSaveable(next, lines[1..]);
    }
  }

  /** Every document `load` returns from a file can be saved and read back unchanged. */
  lemma LoadedIsSaveable(text: string)
    requires Parse(ReadLines(text)).Ok?
    ensures Saveable(Parse(ReadLines(text)).value)
  {
    ReadLinesNoCarriageReturn(text);
    ParseFromSaveable(Start, ReadLines(text));
  }

  /** `load`, `save`, `load` gives what the first `load` gave, for every file `load` accepts. */
  lemma LoadSaveLoad(text: string)
    requires Parse(ReadLines(text)).Ok?
    ensures Parse(ReadLines(SaveText(Parse(ReadLines(text)).value))) == Parse(ReadLines(text))
  {
    LoadedIsSaveable(text);
    SaveThenLoad(Parse(ReadLines(text)).value);
  }

  class UnrealConfig {
    var config: Document

    ghost predicate Valid()
      reads this
    {
      WellFormed(config)
    }

    /** `UnrealConfig(path)` once `load` has returned `loaded` for the file. */
    constructor (loaded: Document)
      requires WellFormed(loaded)
      ensures Valid() && config == loaded
    {
      config := loaded;
    }

    /** `get(section, key)`: a value, a whole section when `key` is `None`, or a `KeyError`. */
    method Get(section: Option<string>, key: Option<string>) returns (r: Result<Entry, KeyError>)
      requires Valid()
      // no key: the whole section, which must exist
      ensures key.None? ==> (r.Ok? <==> section.Some? && section.value in config.vals)
      ensures key.None? && r.Ok? ==> r.value == Whole(config.vals[section.value])
      // section and key: exactly that key of exactly that section
      ensures section.Some? && key.Some? ==>
        (r.Ok? <==> section.value in config.vals && key.value in config.vals[section.value].vals)
      ensures section.Some? && key.Some? && r.Ok? ==>
        r.value == Value(config.vals[section.value].vals[key.value])
      // no section: the first section in stored order that holds the key
      ensures section.None? && key.Some? ==>
        (r.Ok? <==> exists i :: HasKeyAt(config, i, key.value))
      ensures section.None? && key.Some? && r.Ok? ==>
        exists i :: FirstHolder(config, i, key.value) && r.value == Value(config.vals[config.keys[i]].vals[key.value])
    {
      if key.None? {
        if section.Some? && section.value in config.vals {
          return Ok(Whole(config.vals[section.value]));
        }
        return Err(KeyError(section));
      }
      var k := key.value;
      if section.None? {
        var i := 0;
        while i < |config.keys|
          invariant 0 <= i <= |config.keys|
          invariant forall j :: 0 <= j < i ==> !HasKeyAt(config, j, k)
        {
          var name := config.keys[i];
          if k in config.vals[name].vals {
            assert FirstHolder(config, i, k);
            return Ok(Value(config.vals[name].vals[k]));
          }
          i := i + 1;
        }
        // the loop leaves `section` bound to the last section, which lacks `key`
        if |config.keys| == 0 {
          return Err(KeyError(None));
        }
        return Err(KeyError(key));
      }
      var name := section.value;
      if name !in config.vals {
        return Err(KeyError(section));
      }
      if k !in config.vals[name].vals {
        return Err(KeyError(key));
      }
      return Ok(Value(config.vals[name].vals[k]));
    }

    /** `set(section, key, value)`: upserts `key` in an existing section; a missing section is a `KeyError`. */
    method Set(section: string, key: string, value: string) returns (r: Outcome<KeyError>)
      requires Valid()
      modifies this
      ensures Valid()
      ensures r.Fail? <==> section !in old(config.vals)
      ensures r.Fail? ==> config == old(config) && r.error == KeyError(Some(section))
      ensures r.Pass? ==> config == SetEntry(old(config), section, key, value)
      // nothing else changes
      ensures r.Pass? ==> config.keys == old(config.keys)
      ensures r.Pass? ==> forall s :: s in old(config.vals) && s != section ==> s in config.vals && config.vals[s] == old(config.vals[s])
      ensures r.Pass? ==> config.vals[section].vals == old(config.vals[section].vals)[key := value]
      ensures r.Pass? && key in old(config.vals[section].vals) ==> config.vals[section].keys == old(config.vals[section].keys)
      ensures r.Pass? && key !in old(config.vals[section].vals) ==> config.vals[section].keys == old(config.vals[section].keys) + [key]
    {
      if section !in config.vals {
        return Fail(KeyError(Some(section)));
      }
      PutWellFormed(config, section, Put(config.vals[section], key, value));
      config := Put(config, section, Put(config.vals[section], key, value));
      return Pass;
    }

    /** `save()`: the text written to the file. */
    method Save() returns (text: string)
      requires Valid()
      ensures text == SaveText(config)
    {
      var c := config;
      text := "";
      var i := 0;
      while i < |c.keys|
        invariant 0 <= i <= |c.keys|
        invariant text == Concat(DocumentLines(c, i))
      {
        var name := c.keys[i];
        var section := WriteSection(name, c.vals[name]);
        DocumentLinesConcat(c, i);
        text := text + section;
        i := i + 1;
      }
    }
  }
}

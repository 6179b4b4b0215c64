/**
 * The `UnrealLocalization` class of UnrealLocalization.py: one config cell written as
 * `NSLOCTEXT("<namespace>", "<key>", "<value>")`. Parsing is the regular expression
 * `^NSLOCTEXT\("(\[.*])", "(.*)", "(.*)"\)$`; on a mismatch the fields stay unset and
 * printing falls back to the value in double quotes.
 */
module Localization {
  import opened Wrappers

  const Prefix: string := "NSLOCTEXT(\""
  const Separator: string := "\", \""
  const Suffix: string := "\")"

  datatype Cell = Cell(namespace: string, key: string, value: string)

  /** The three fields with the `", "` between them. */
  function Body(c: Cell): string
  {
    c.namespace + Separator + c.key + Separator + c.value
  }

  /** The NSLOCTEXT form of a cell, fields substituted verbatim. */
  function Format(c: Cell): string
  {
    Prefix + Body(c) + Suffix
  }

  /** What `\[.*]` accepts: a bracketed path such as `[/Script/EngineSettings]`. */
  predicate Bracketed(s: string)
  {
    |s| >= 2 && s[0] == '[' && s[|s| - 1] == ']'
  }

  predicate NoNewline(s: string)
  {
    forall i :: 0 <= i < |s| ==> s[i] != '\n'
  }

  /** `text` is the NSLOCTEXT form of `c`, and `c` has the shape the pattern allows. */
  predicate IsMatch(text: string, c: Cell)
  {
    Bracketed(c.namespace) && Format(c) == text
  }

  predicate SeparatorAt(s: string, i: int)
  {
    0 <= i && i + |Separator| <= |s| && s[i..i + |Separator|] == Separator
  }

  /** The last position at or before `j` where a `", "` starts. */
  function LastSeparator(s: string, j: int): (r: Option<nat>)
    ensures r.Some? ==> r.value <= j && SeparatorAt(s, r.value)
    ensures r.Some? ==> forall i :: r.value < i <= j ==> !SeparatorAt(s, i)
    ensures r.None? ==> forall i :: 0 <= i <= j ==> !SeparatorAt(s, i)
    decreases j
  {
    if j < 0 then None else if SeparatorAt(s, j) then Some(j) else LastSeparator(s, j - 1)
  }

  /** `b[..p]` can be the namespace group: bracketed, followed by `", "` and by a later `", "`. */
  predicate NamespaceCut(b: string, p: int)
  {
    && 2 <= p && SeparatorAt(b, p)
    && b[0] == '[' && b[p - 1] == ']'
    && LastSeparator(b[p + |Separator|..], |b| - p - |Separator|).Some?
  }

  /** The greedy choice of `(\[.*])`: the longest namespace that still lets the rest match. */
  function LastNamespaceCut(b: string, j: int): (r: Option<nat>)
    ensures r.Some? ==> r.value <= j && NamespaceCut(b, r.value)
    ensures r.Some? ==> forall p :: r.value < p <= j ==> !NamespaceCut(b, p)
    ensures r.None? ==> forall p :: p <= j ==> !NamespaceCut(b, p)
    decreases j
  {
    if j < 2 then None else if NamespaceCut(b, j) then Some(j) else LastNamespaceCut(b, j - 1)
  }

  lemma SplitAtSeparator(s: string, i: int)
    requires SeparatorAt(s, i)
    ensures s == s[..i] + Separator + s[i + |Separator|..]
  {
    assert s == s[..i] + s[i..i + |Separator|] + s[i + |Separator|..];
  }

  lemma Enclosed(text: string)
    requires |text| >= |Prefix| + |Suffix|
    requires text[..|Prefix|] == Prefix && text[|text| - |Suffix|..] == Suffix
    ensures text == Prefix + text[|Prefix|..|text| - |Suffix|] + Suffix
  {
    var n := |text|;
    assert text == text[..|Prefix|] + text[|Prefix|..n - |Suffix|] + text[n - |Suffix|..];
  }

  /** The greedy groups of the part between `NSLOCTEXT("` and `")`, if they exist. */
  function MatchBody(b: string): (r: Option<Cell>)
    ensures r.Some? ==> Bracketed(r.value.namespace) && Body(r.value) == b
  {
    match LastNamespaceCut(b, |b|)
    case None => None
    case Some(p) =>
      var rest := b[p + |Separator|..];
      var q := LastSeparator(rest, |rest|).value;
      var c := Cell(b[..p], rest[..q], rest[q + |Separator|..]);
      SplitAtSeparator(b, p);
      SplitAtSeparator(rest, q);
      assert b == Body(c);
      Some(c)
  }

  /** The match on a string without `\n`: the regular expression's greedy groups, if it matches. */
  function MatchLine(text: string): (r: Option<Cell>)
    ensures r.Some? ==> IsMatch(text, r.value)
  {
    var n := |text|;
    if n < |Prefix| + |Suffix| || text[..|Prefix|] != Prefix || text[n - |Suffix|..] != Suffix then None
    else
      Enclosed(text);
      MatchBody(text[|Prefix|..n - |Suffix|])
  }

  /**
   * `re.match(pattern, text)` with its three groups. `.` does not cross a `\n`, and `$` also
   * matches just before a final `\n`, which is then not part of any group.
   */
  function ParseText(text: string): (r: Option<Cell>)
    ensures r.Some? ==> Bracketed(r.value.namespace)
    ensures r.Some? ==> text == Format(r.value) || text == Format(r.value) + "\n"
    ensures r.Some? ==> |text| > |Prefix| && text[..|Prefix|] == Prefix && text[|Prefix|] == '['
    ensures r.Some? ==> NoNewline(r.value.namespace) && NoNewline(r.value.key) && NoNewline(r.value.value)
  {
    var line := if |text| > 0 && text[|text| - 1] == '\n' then text[..|text| - 1] else text;
    if NoNewline(line) then
      var r := MatchLine(line);
      if r.Some? then
        assert text == line || text == line + "\n";
        MatchedLine(text, line, r.value);
        r
      else r
    else None
  }

  /** What a matched line, with or without its final line break, says about the text and the cell. */
  lemma MatchedLine(text: string, line: string, c: Cell)
    requires text == line || text == line + "\n"
    requires NoNewline(line) && IsMatch(line, c)
    ensures text == Format(c) || text == Format(c) + "\n"
    ensures |text| > |Prefix| && text[..|Prefix|] == Prefix && text[|Prefix|] == '['
    ensures NoNewline(c.namespace) && NoNewline(c.key) && NoNewline(c.value)
  {
    FormatParts(c);
    NoNewlineFields(c);
    BodyAt(c, 0);
    assert line[|Prefix|] == Body(c)[0];
    assert text[..|line|] == line;
  }

  predicate NoQuote(s: string)
  {
    forall i :: 0 <= i < |s| ==> s[i] != '"'
  }

  lemma NoNewlineAppend(a: string, b: string)
    ensures NoNewline(a + b) <==> NoNewline(a) && NoNewline(b)
  {
    if NoNewline(a) && NoNewline(b) {
      forall i | 0 <= i < |a + b|
        ensures (a + b)[i] != '\n'
      {
        if i >= |a| {
          assert (a + b)[i] == b[i - |a|];
        }
      }
    }
    if NoNewline(a + b) {
      assert forall i :: 0 <= i < |a| ==> (a + b)[i] == a[i];
      assert forall i :: 0 <= i < |b| ==> (a + b)[|a| + i] == b[i];
    }
  }

  lemma NoNewlineFields(c: Cell)
    ensures NoNewline(Format(c)) <==> NoNewline(c.namespace) && NoNewline(c.key) && NoNewline(c.value)
  {
    NoNewlineAppend(c.namespace, Separator);
    NoNewlineAppend(c.namespace + Separator, c.key);
    NoNewlineAppend(c.namespace + Separator + c.key, Separator);
    NoNewlineAppend(c.namespace + Separator + c.key + Separator, c.value);
    NoNewlineAppend(Prefix, Body(c));
    NoNewlineAppend(Prefix + Body(c), Suffix);
  }

  /** Where the constant parts and the body stand in the NSLOCTEXT form. */
  lemma FormatParts(c: Cell)
    ensures var t := Format(c);
      && |t| == |Prefix| + |Body(c)| + |Suffix|
      && t[..|Prefix|] == Prefix && t[|t| - |Suffix|..] == Suffix
      && t[|Prefix|..|t| - |Suffix|] == Body(c)
  {
  }

  /** Where the fields and the two separators stand in the body. */
  lemma BodyParts(c: Cell)
    ensures var b := Body(c); var P := |c.namespace|; var rest := c.key + Separator + c.value;
      && b[..P] == c.namespace && SeparatorAt(b, P) && b[P + |Separator|..] == rest
      && rest[..|c.key|] == c.key && SeparatorAt(rest, |c.key|) && rest[|c.key| + |Separator|..] == c.value
  {
    var b := Body(c);
    var P := |c.namespace|;
    var rest := c.key + Separator + c.value;
    assert b == c.namespace + Separator + rest;
    assert b[P..P + |Separator|] == Separator;
    assert rest[|c.key|..|c.key| + |Separator|] == Separator;
  }

  lemma BodyAt(c: Cell, i: int)
    requires 0 <= i < |Body(c)|
    ensures var P := |c.namespace|; var Q := P + |Separator| + |c.key|;
      Body(c)[i] ==
        if i < P then c.namespace[i]
        else if i < P + |Separator| then Separator[i - P]
        else if i < Q then c.key[i - P - |Separator|]
        else if i < Q + |Separator| then Separator[i - Q]
        else c.value[i - Q - |Separator|]
  {
  }

  /** Where `"` can stand in the body of a cell whose fields hold none. */
  lemma QuotesOf(c: Cell)
    requires NoQuote(c.namespace) && NoQuote(c.key) && NoQuote(c.value)
    ensures var b := Body(c); var P := |c.namespace|; var Q := P + |Separator| + |c.key|;
      forall i :: 0 <= i < |b| && b[i] == '"' ==> i == P || i == P + 3 || i == Q || i == Q + 3
  {
    forall i | 0 <= i < |Body(c)| {
      BodyAt(c, i);
    }
  }

  /**
   * The match is the greedy one: of all ways to read `text` as an NSLOCTEXT cell with a
   * bracketed namespace, it takes the longest namespace and then the longest key.
   */
  lemma MatchBodyGreedy(other: Cell)
    requires Bracketed(other.namespace)
    ensures MatchBody(Body(other)).Some?
    ensures var c := MatchBody(Body(other)).value;
      |other.namespace| <= |c.namespace| && (|other.namespace| == |c.namespace| ==> |other.key| <= |c.key|)
  {
    BodyParts(other);
    var b := Body(other);
    var P := |other.namespace|;
    BodyAt(other, 0);
    BodyAt(other, P - 1);
    assert NamespaceCut(b, P);
    var p := LastNamespaceCut(b, |b|).value;
    var rest := b[p + |Separator|..];
    assert p == P ==> LastSeparator(rest, |rest|).value >= |other.key|;
  }

  lemma MatchLineGreedy(text: string, other: Cell)
    requires IsMatch(text, other)
    ensures MatchLine(text).Some?
    ensures var c := MatchLine(text).value;
      |other.namespace| <= |c.namespace| && (|other.namespace| == |c.namespace| ==> |other.key| <= |c.key|)
  {
    FormatParts(other);
    MatchBodyGreedy(other);
    assert MatchLine(text) == MatchBody(Body(other));
  }

  /** A cell with a bracketed namespace and no `"` or line break in its fields is read back as itself. */
  lemma FormatThenParse(c: Cell)
    requires Bracketed(c.namespace)
    requires NoQuote(c.namespace) && NoQuote(c.key) && NoQuote(c.value)
    requires NoNewline(c.namespace) && NoNewline(c.key) && NoNewline(c.value)
    ensures ParseText(Format(c)) == Some(c)
  {
    var text := Format(c);
    NoNewlineFields(c);
    FormatParts(c);
    assert text[|text| - 1] == ')';
    MatchLineGreedy(text, c);
    var m := MatchLine(text).value;
    FormatParts(m);
    var b := Body(c);
    assert Body(m) == b;
    var P := |c.namespace|;
    var Q := P + |Separator| + |c.key|;
    var Pm := |m.namespace|;
    var Qm := Pm + |Separator| + |m.key|;
    QuotesOf(c);
    BodyAt(m, Pm - 1);
    BodyAt(m, Pm);
    BodyAt(m, Pm + 3);
    BodyAt(m, Qm);
    BodyAt(m, Qm + 3);
    BodyAt(c, P + 2);
    assert Pm == P && Qm == Q;
    SameBodySameCell(c, m);
  }

  /** Two cells with the same body and fields of the same lengths are the same cell. */
  lemma SameBodySameCell(c: Cell, m: Cell)
    requires Body(m) == Body(c) && |m.namespace| == |c.namespace| && |m.key| == |c.key|
    ensures m == c
  {
    BodyParts(c);
    BodyParts(m);
    var P := |c.namespace|;
    var rest := Body(c)[P + |Separator|..];
    assert m.namespace == Body(c)[..P] == c.namespace;
    assert m.key == rest[..|c.key|] == c.key;
    assert m.value == rest[|c.key| + |Separator|..] == c.value;
  }

  /**
   * Replacing only the value of a parsed cell and printing it keeps the namespace and key
   * verbatim: reading the result back gives the old namespace and key with the new value.
   */
  lemma NewValueKeepsNamespaceAndKey(text: string, newValue: string)
    requires ParseText(text).Some?
    requires NoQuote(ParseText(text).value.namespace) && NoQuote(ParseText(text).value.key)
    requires NoQuote(newValue) && NoNewline(newValue)
    ensures var c := ParseText(text).value;
      ParseText(Show(Some(c.namespace), Some(c.key), Some(newValue))) == Some(Cell(c.namespace, c.key, newValue))
  {
    var c := ParseText(text).value;
    FormatThenParse(Cell(c.namespace, c.key, newValue));
  }

  /** A namespace without brackets does not match: the fields stay unset and printing quotes the value. */
  lemma UnbracketedNamespaceDoesNotMatch()
    ensures ParseText("NSLOCTEXT(\"ns\", \"k\", \"v\")") == None
  {
    var t := "NSLOCTEXT(\"ns\", \"k\", \"v\")";
    assert t[|Prefix|] == 'n';
  }

  /** A bare quoted string does not match. */
  lemma QuotedStringDoesNotMatch()
    ensures ParseText("\"Title\"") == None
  {
  }

  /** `__str__`: the NSLOCTEXT form when all three fields are set, else the value in double quotes. */
  function Show(namespace: Option<string>, key: Option<string>, value: Option<string>): (s: string)
    ensures namespace.Some? && key.Some? && value.Some? ==>
      s == Format(Cell(namespace.value, key.value, value.value))
    ensures namespace.None? || key.None? || value.None? ==>
      s == "\"" + (if value.Some? then value.value else "None") + "\""
  {
    if namespace.None? || key.None? || value.None? then
      "\"" + (if value.Some? then value.value else "None") + "\""
    else Format(Cell(namespace.value, key.value, value.value))
  }

  /** Printing the parsed fields gives back the parsed line, without its final line break. */
  lemma ParseThenShow(text: string)
    requires ParseText(text).Some?
    ensures var c := ParseText(text).value;
      var shown := Show(Some(c.namespace), Some(c.key), Some(c.value));
      text == shown || text == shown + "\n"
  {
  }

  /** Unset fields print as the value in quotes, and an unset value as the quoted word None. */
  lemma UnsetShowsQuotedValue(value: Option<string>)
    ensures Show(None, None, value) == "\"" + (if value.Some? then value.value else "None") + "\""
    ensures ParseText(Show(None, None, value)) == None
  {
    var s := Show(None, None, value);
    assert s[0] == '"';
  }

  class UnrealLocalization {
    var namespace: Option<string>
    var key: Option<string>
    var value: Option<string>

    /** `UnrealLocalization(text)`: the fields start unset, then `parse(text)`. */
    constructor (text: string)
      ensures ParseText(text).Some? ==>
        && namespace == Some(ParseText(text).value.namespace)
        && key == Some(ParseText(text).value.key)
        && value == Some(ParseText(text).value.value)
      ensures ParseText(text).None? ==> namespace.None? && key.None? && value.None?
    {
      namespace, key, value := None, None, None;
      new;
      Parse(text);
    }

    /** `parse(text)`: on a match the three groups become the fields; otherwise nothing changes and nothing is raised. */
    method Parse(text: string)
      modifies this
      ensures ParseText(text).Some? ==>
        && namespace == Some(ParseText(text).value.namespace)
        && key == Some(ParseText(text).value.key)
        && value == Some(ParseText(text).value.value)
      ensures ParseText(text).None? ==> unchanged(this)
    {
      var m := ParseText(text);
      if m.None? {
        return;
      }
      namespace := Some(m.value.namespace);
      key := Some(m.value.key);
      value := Some(m.value.value);
    }

    /** `__str__()` */
    function ToString(): string
      reads this
    {
      Show(namespace, key, value)
    }
  }
}

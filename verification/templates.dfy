/**
 * The `Template` class of Template.py: a template text with `{{name}}` placeholders,
 * an ordered dictionary of variables, and `replace`, which applies, one variable at a
 * time in insertion order, `re.sub(r'{{\s*' + name + r'\s*}}', value, output)`.
 *
 * A name is spliced into the pattern as it stands; the model reads it literally, as it
 * is for the names the build pipeline registers (letters only).
 */
module Templates {
  import opened Wrappers
  import opened Text
  import opened OrderedDict

  /** The text `{{<w1><name><w2>}}`. */
  function Placeholder(w1: string, name: string, w2: string): string
  {
    "{{" + w1 + name + w2 + "}}"
  }

  /** `s` holds `}}` just before `e`. */
  predicate BracesBefore(s: string, e: int)
    requires 2 <= e <= |s|
  {
    s[e - 2] == '}' && s[e - 1] == '}'
  }

  /** `s` starts with `{{`. */
  predicate OpensWithBraces(s: string)
  {
    |s| >= 2 && s[0] == '{' && s[1] == '{'
  }

  /** `s[lo..hi]` is all whitespace. */
  predicate SpacesIn(s: string, lo: int, hi: int)
  {
    0 <= lo <= hi <= |s| && forall i :: lo <= i < hi ==> IsSpace(s[i])
  }

  /** The name occupies `s[j..j + |name|]`. */
  predicate NameAt(s: string, name: string, j: int)
  {
    0 <= j && j + |name| <= |s| && forall i :: 0 <= i < |name| ==> s[j + i] == name[i]
  }

  /** `s[k..e]` is matched by `\s*}}`. */
  predicate ClosesAt(s: string, k: int, e: int)
  {
    0 <= k && k + 2 <= e <= |s| && SpacesIn(s, k, e - 2) && BracesBefore(s, e)
  }

  /**
   * `s` starts with a match of `{{\s*name\s*}}` in which `name` starts at `j` and the
   * match ends at `e`.
   */
  predicate PlaceholderAt(s: string, name: string, j: int, e: int)
  {
    && 2 <= j
    && OpensWithBraces(s)
    && SpacesIn(s, 2, j)
    && NameAt(s, name, j)
    && ClosesAt(s, j + |name|, e)
  }

  /** Where the greedy `\s*` that starts at `k` stops. */
  function SpaceEnd(s: string, k: int): (e: int)
    requires 0 <= k <= |s|
    ensures k <= e <= |s|
    decreases |s| - k
  {
    if k < |s| && IsSpace(s[k]) then SpaceEnd(s, k + 1) else k
  }

  /** The greedy run is all whitespace, and what stops it is not. */
  lemma {:induction false} SpaceEndSpec(s: string, k: int)
    requires 0 <= k <= |s|
    ensures SpacesIn(s, k, SpaceEnd(s, k))
    ensures SpaceEnd(s, k) < |s| ==> !IsSpace(s[SpaceEnd(s, k)])
    decreases |s| - k
  {
    if k < |s| && IsSpace(s[k]) {
      SpaceEndSpec(s, k + 1);
    }
  }

  /** The greedy run is the longest run of whitespace from `k`. */
  lemma {:induction false} SpaceEndMaximal(s: string, k: int, m: int)
    requires SpacesIn(s, k, m)
    ensures m <= SpaceEnd(s, k)
    decreases m - k
  {
    if k < m {
      SpaceEndMaximal(s, k + 1, m);
    }
  }

  /** Whitespace up to `m` followed by a non-space: the greedy run stops exactly at `m`. */
  lemma {:induction false} SpaceEndAt(s: string, k: int, m: int)
    requires SpacesIn(s, k, m) && (m == |s| || !IsSpace(s[m]))
    ensures SpaceEnd(s, k) == m
    decreases m - k
  {
    if k < m {
      SpaceEndAt(s, k + 1, m);
    }
  }

  /** `}` is not whitespace, so `\s*}}` from `k` can end in one place only, after the greedy run. */
  lemma ClosingUnique(s: string, k: int, e: int)
    requires ClosesAt(s, k, e)
    ensures SpaceEnd(s, k) == e - 2
  {
    SpaceEndAt(s, k, e - 2);
  }

  /** Where the closing `\s*}}` that starts at `k` ends, if it is there. */
  function Closing(s: string, k: int): (r: Option<nat>)
    requires 0 <= k <= |s|
    ensures r.Some? ==> k + 2 <= r.value <= |s|
  {
    var e := SpaceEnd(s, k) + 2;
    if e <= |s| && BracesBefore(s, e) then Some(e) else None
  }

  /** The name stands at `j` and the closing `\s*}}` follows it. */
  predicate NameFits(s: string, name: string, j: int)
    requires 0 <= j <= |s|
  {
    NameAt(s, name, j) && Closing(s, j + |name|).Some?
  }

  /**
   * The backtracking of the leading `\s*`: try the name at `j`, then at `j - 1`, down to
   * just after `{{`. The result is where the name starts.
   */
  function TryName(s: string, name: string, j: int): (r: Option<nat>)
    requires 2 <= j <= |s|
    ensures r.Some? ==> 2 <= r.value <= j && NameFits(s, name, r.value)
    decreases j
  {
    if NameFits(s, name, j) then Some(j)
    else if j == 2 then None
    else TryName(s, name, j - 1)
  }

  /**
   * The first start tried where the name fits is taken: when the name fits at `j'`,
   * trying from `j` on finds a start no earlier than `j'`.
   */
  lemma {:induction false} TryNameFinds(s: string, name: string, j: int, j': int)
    requires 2 <= j' <= j <= |s| && NameFits(s, name, j')
    ensures TryName(s, name, j).Some? && j' <= TryName(s, name, j).value
    decreases j
  {
    if j' < j && !NameFits(s, name, j) {
      TryNameFinds(s, name, j - 1, j');
    }
  }

  /** A match with the name at `j` is where the name fits, and it ends where `Closing` says. */
  lemma PlaceholderFits(s: string, name: string, j: int, e: int)
    requires PlaceholderAt(s, name, j, e)
    ensures NameFits(s, name, j) && Closing(s, j + |name|) == Some(e)
  {
    ClosingUnique(s, j + |name|, e);
  }

  /** After `{{` and whitespace, a name that fits is a match. */
  lemma FitsPlaceholder(s: string, name: string, j: int)
    requires 2 <= j <= |s| && OpensWithBraces(s) && SpacesIn(s, 2, j) && NameFits(s, name, j)
    ensures PlaceholderAt(s, name, j, Closing(s, j + |name|).value)
  {
    SpaceEndSpec(s, j + |name|);
  }

  /**
   * `re.match(r'{{\s*' + name + r'\s*}}', s)`: where the name starts and where the match
   * ends, if `s` starts with a match.
   */
  function MatchAt(s: string, name: string): (r: Option<(nat, nat)>)
    ensures r.Some? ==> 2 <= r.value.0 && r.value.0 + 2 <= r.value.1 <= |s|
  {
    if !OpensWithBraces(s) then None
    else
      var start := TryName(s, name, SpaceEnd(s, 2));
      if start.None? then None else Some((start.value, Closing(s, start.value + |name|).value))
  }

  /** A match found is a match: `{{`, whitespace, the name, whitespace, `}}`. */
  lemma MatchFound(s: string, name: string)
    requires MatchAt(s, name).Some?
    ensures PlaceholderAt(s, name, MatchAt(s, name).value.0, MatchAt(s, name).value.1)
  {
    var j := TryName(s, name, SpaceEnd(s, 2)).value;
    assert MatchAt(s, name) == Some((j, Closing(s, j + |name|).value));
    SpaceEndSpec(s, 2);
    assert SpacesIn(s, 2, j);
    FitsPlaceholder(s, name, j);
  }

  /**
   * Whenever `s` starts with a match, one is found, and the greedy `\s*` picks the way
   * to match whose name starts last.
   */
  lemma MatchGreedy(s: string, name: string, j: int, e: int)
    requires PlaceholderAt(s, name, j, e)
    ensures MatchAt(s, name).Some? && j <= MatchAt(s, name).value.0
  {
    SpaceEndMaximal(s, 2, j);
    PlaceholderFits(s, name, j, e);
    var n := SpaceEnd(s, 2);
    TryNameFinds(s, name, n, j);
    var start := TryName(s, name, n).value;
    assert MatchAt(s, name) == Some((start, Closing(s, start + |name|).value));
  }

  /** Where the name starts fixes where the match ends. */
  lemma MatchEnd(s: string, name: string, j: int, e: int)
    requires MatchAt(s, name).Some? && PlaceholderAt(s, name, j, e) && MatchAt(s, name).value.0 == j
    ensures MatchAt(s, name).value.1 == e
  {
    MatchFound(s, name);
    ClosingUnique(s, j + |name|, e);
    ClosingUnique(s, j + |name|, MatchAt(s, name).value.1);
  }

  /** `re.sub(r'{{\s*' + name + r'\s*}}', value, s)`: scan left to right, replacing each match. */
  function Sub(s: string, name: string, value: string): string
    decreases |s|
  {
    if s == [] then []
    else match MatchAt(s, name)
      case Some(m) => value + Sub(s[m.1..], name, value)
      case None => [s[0]] + Sub(s[1..], name, value)
  }

  /** `replace()` after the first `n` variables: each applied to the previous output, in insertion order. */
  function RenderFirst(template: string, variables: Dict<string>, n: nat): string
    requires variables.Valid() && n <= |variables.keys|
  {
    if n == 0 then template
    else
      var name := variables.keys[n - 1];
      Sub(RenderFirst(template, variables, n - 1), name, variables.vals[name])
  }

  /** The output of `replace()`. */
  function Render(template: string, variables: Dict<string>): string
    requires variables.Valid()
  {
    RenderFirst(template, variables, |variables.keys|)
  }

  predicate NoOpenBrace(s: string)
  {
    forall i :: 0 <= i < |s| ==> s[i] != '{'
  }

  /** A name as the pipeline registers one: non-empty, without whitespace or braces. */
  predicate PlainName(name: string)
  {
    && name != []
    && forall i :: 0 <= i < |name| ==> !IsSpace(name[i]) && name[i] != '{' && name[i] != '}'
  }

  /** A character other than `{` is copied, and the scan moves on by one. */
  lemma SubCopies(s: string, name: string, value: string)
    requires s != [] && s[0] != '{'
    ensures Sub(s, name, value) == [s[0]] + Sub(s[1..], name, value)
  {
    assert !OpensWithBraces(s);
  }

  /** Text without `{` passes through a substitution unchanged. */
  lemma {:induction false} SubLiteral(a: string, rest: string, name: string, value: string)
    requires NoOpenBrace(a)
    ensures Sub(a + rest, name, value) == a + Sub(rest, name, value)
  {
    if a == [] {
      assert a + rest == rest;
    } else {
      var s := a + rest;
      assert s[0] == a[0] && s[1..] == a[1..] + rest;
      SubCopies(s, name, value);
      SubLiteral(a[1..], rest, name, value);
      assert a == [a[0]] + a[1..];
    }
  }

  lemma PlaceholderShape(w1: string, name: string, w2: string, rest: string)
    requires AllSpace(w1) && AllSpace(w2) && name != [] && !IsSpace(name[0])
    ensures var s := Placeholder(w1, name, w2) + rest;
      PlaceholderAt(s, name, 2 + |w1|, |Placeholder(w1, name, w2)|) && SpaceEnd(s, 2) == 2 + |w1|
  {
    var p := Placeholder(w1, name, w2);
    var s := p + rest;
    var j := 2 + |w1|;
    var k := j + |name|;
    var e := |p|;
    assert OpensWithBraces(s);
    assert SpacesIn(s, 2, j) by {
      forall i | 2 <= i < j
        ensures IsSpace(s[i])
      {
        assert s[i] == w1[i - 2];
      }
    }
    assert NameAt(s, name, j) by {
      forall i | 0 <= i < |name|
        ensures s[j + i] == name[i]
      {
      }
    }
    assert SpacesIn(s, k, e - 2) by {
      forall i | k <= i < e - 2
        ensures IsSpace(s[i])
      {
        assert s[i] == w2[i - k];
      }
    }
    assert BracesBefore(s, e);
    assert s[j] == name[0];
    SpaceEndAt(s, 2, j);
  }

  /** The match at the front of a placeholder for `name` covers exactly that placeholder. */
  lemma MatchPlaceholder(w1: string, name: string, w2: string, rest: string)
    requires AllSpace(w1) && AllSpace(w2) && name != [] && !IsSpace(name[0])
    ensures var p := Placeholder(w1, name, w2); MatchAt(p + rest, name) == Some((2 + |w1|, |p|))
  {
    var s := Placeholder(w1, name, w2) + rest;
    var j := 2 + |w1|;
    var e := |Placeholder(w1, name, w2)|;
    PlaceholderShape(w1, name, w2, rest);
    MatchGreedy(s, name, j, e);
    assert MatchAt(s, name).value.0 <= SpaceEnd(s, 2) == j;
    MatchEnd(s, name, j, e);
  }

  /**
   * A placeholder for `name`, with any whitespace inside the braces, is replaced by the
   * value, which is not scanned again.
   */
  lemma SubPlaceholder(w1: string, name: string, w2: string, rest: string, value: string)
    requires AllSpace(w1) && AllSpace(w2) && name != [] && !IsSpace(name[0])
    ensures Sub(Placeholder(w1, name, w2) + rest, name, value) == value + Sub(rest, name, value)
  {
    var p := Placeholder(w1, name, w2);
    MatchPlaceholder(w1, name, w2, rest);
    assert (p + rest)[|p|..] == rest;
  }

  /** `{{other}}` is left alone by the substitution for a different plain name. */
  lemma SubOtherName(other: string, name: string, value: string)
    requires PlainName(other) && PlainName(name) && other != name
    ensures Sub(Placeholder("", other, ""), name, value) == Placeholder("", other, "")
  {
    var s := Placeholder("", other, "");
    var k := 2 + |name|;
    assert forall i :: 0 <= i < |other| ==> s[2 + i] == other[i];
    assert s[2 + |other|] == '}';
    if |name| < |other| {
      assert s[k] == other[|name|];
      assert SpaceEnd(s, k) == k;
      assert !BracesBefore(s, k + 2);
    } else if |name| == |other| {
      assert exists i :: 0 <= i < |name| && name[i] != other[i];
      var i :| 0 <= i < |name| && name[i] != other[i];
      assert s[2 + i] != name[i];
    } else {
      assert s[2 + |other|] != name[|other|];
    }
    assert !NameFits(s, name, 2);
    assert MatchAt(s, name).None? by {
      assert s[2] == other[0];
      assert SpaceEnd(s, 2) == 2;
    }
    var t := s[1..];
    assert !OpensWithBraces(t) by { assert t[1] == other[0]; }
    assert MatchAt(t, name).None?;
    assert NoOpenBrace(other + "}}");
    SubLiteral(other + "}}", [], name, value);
    assert t[1..] == other + "}}" + [];
    assert s == [s[0]] + ([t[0]] + t[1..]);
  }

  /** The substitution for the `i`th variable leaves `s` as it is. */
  predicate Fixes(s: string, variables: Dict<string>, i: nat)
    requires variables.Valid() && i < |variables.keys|
  {
    Sub(s, variables.keys[i], variables.vals[variables.keys[i]]) == s
  }

  /** Text that no single variable changes comes out of `replace()` unchanged. */
  lemma {:induction false} RenderFixed(s: string, variables: Dict<string>, n: nat)
    requires variables.Valid() && n <= |variables.keys|
    requires forall i :: 0 <= i < n ==> Fixes(s, variables, i)
    ensures RenderFirst(s, variables, n) == s
  {
    if n > 0 {
      RenderFixed(s, variables, n - 1);
      assert Fixes(s, variables, n - 1);
    }
  }

  /**
   * A placeholder whose name was never registered survives `replace()` verbatim, whatever
   * other variables are set.
   */
  lemma UnregisteredPlaceholderStays(name: string, variables: Dict<string>)
    requires variables.Valid()
    requires PlainName(name) && name !in variables.vals
    requires forall k :: k in variables.vals ==> PlainName(k)
    ensures Render(Placeholder("", name, ""), variables) == Placeholder("", name, "")
  {
    var p := Placeholder("", name, "");
    forall i | 0 <= i < |variables.keys|
      ensures Fixes(p, variables, i)
    {
      var k := variables.keys[i];
      assert k in variables.vals;
      SubOtherName(name, k, variables.vals[k]);
    }
    RenderFixed(p, variables, |variables.keys|);
  }

  /**
   * A template that is one placeholder for a registered name renders as that name's value,
   * provided the value opens no placeholder of its own: names before it leave the
   * placeholder alone, and names after it leave the value alone.
   */
  lemma {:induction false} RenderFirstSingle(name: string, variables: Dict<string>, n: nat)
    requires variables.Valid() && n <= |variables.keys|
    requires forall i :: 0 <= i < |variables.keys| ==> PlainName(variables.keys[i])
    requires PlainName(name) && name in variables.vals && NoOpenBrace(variables.vals[name])
    ensures RenderFirst(Placeholder("", name, ""), variables, n) ==
      if name in variables.keys[..n] then variables.vals[name] else Placeholder("", name, "")
  {
    if n > 0 {
      var p := Placeholder("", name, "");
      var k := variables.keys[n - 1];
      assert k in variables.vals;
      var filled := name in variables.keys[..n - 1];
      var before := RenderFirst(p, variables, n - 1);
      RenderFirstSingle(name, variables, n - 1);
      assert RenderFirst(p, variables, n) == Sub(before, k, variables.vals[k]);
      SingleStep(name, variables.vals[name], filled, before, k, variables.vals[k]);
      InLongerPrefix(variables.keys, n, name);
    }
  }

  lemma InLongerPrefix<T>(xs: seq<T>, n: int, x: T)
    requires 0 < n <= |xs|
    ensures x in xs[..n] <==> x in xs[..n - 1] || x == xs[n - 1]
  {
    assert xs[..n] == xs[..n - 1] + [xs[n - 1]];
  }

  /**
   * One step of `RenderFirstSingle`: the substitution for a plain name `k` leaves a value
   * without `{` alone, fills the placeholder for `k`, and leaves a placeholder for another
   * name alone.
   */
  lemma SingleStep(name: string, value: string, filled: bool, before: string, k: string, v: string)
    requires PlainName(name) && PlainName(k) && NoOpenBrace(value)
    requires before == if filled then value else Placeholder("", name, "")
    ensures Sub(before, k, v) == if filled then value else if k == name then v else before
  {
    var p := Placeholder("", name, "");
    if filled {
      assert value + [] == value;
      SubLiteral(value, [], k, v);
    } else if k == name {
      SubOwnPlaceholder(name, v);
    } else {
      SubOtherName(name, k, v);
    }
  }

  lemma RenderSingle(name: string, variables: Dict<string>)
    requires variables.Valid()
    requires forall i :: 0 <= i < |variables.keys| ==> PlainName(variables.keys[i])
    requires PlainName(name) && name in variables.vals && NoOpenBrace(variables.vals[name])
    ensures Render(Placeholder("", name, ""), variables) == variables.vals[name]
  {
    RenderFirstSingle(name, variables, |variables.keys|);
    assert variables.keys[..|variables.keys|] == variables.keys;
  }

  /** A placeholder that is the whole text renders as the value. */
  lemma SubOwnPlaceholder(name: string, value: string)
    requires name != [] && !IsSpace(name[0])
    ensures Sub(Placeholder("", name, ""), name, value) == value
  {
    var p := Placeholder("", name, "");
    assert p + [] == p;
    SubPlaceholder("", name, "", [], value);
    assert value + [] == value;
  }

  /** With one variable, `replace()` is one substitution. */
  lemma RenderOne(t: string, name: string, x: string)
    ensures Render(t, Put(Empty(), name, x)) == Sub(t, name, x)
  {
    var d := Put(Empty<string>(), name, x);
    assert d == Dict([name], map[name := x]);
    assert RenderFirst(t, d, 0) == t;
  }

  /**
   * `{{a}} and {{ a }}` with `a` set to `x` renders as `x and x`: whitespace inside the
   * braces does not matter.
   */
  lemma BothSpellingsReplaced(name: string, x: string)
    requires name != [] && !IsSpace(name[0])
    ensures Render(Placeholder("", name, "") + (" and " + Placeholder(" ", name, " ")), Put(Empty(), name, x))
      == x + (" and " + x)
  {
    var tail := Placeholder(" ", name, " ");
    var t := Placeholder("", name, "") + (" and " + tail);
    RenderOne(t, name, x);
    assert AllSpace(" ");
    assert NoOpenBrace(" and ");
    SubPlaceholder("", name, "", " and " + tail, x);
    SubLiteral(" and ", tail, name, x);
    assert tail + [] == tail;
    SubPlaceholder(" ", name, " ", [], x);
    assert x + [] == x;
  }

  /** The two-variable dictionary that registers `first` and then `second`. */
  function Pair(first: string, v1: string, second: string, v2: string): (d: Dict<string>)
    requires first != second
    ensures d.Valid() && d.keys == [first, second]
    ensures d.vals == map[first := v1, second := v2]
  {
    Put(Put(Empty(), first, v1), second, v2)
  }

  /** With two variables, `replace()` applies the first registered, then the second. */
  lemma RenderPair(t: string, first: string, v1: string, second: string, v2: string)
    requires first != second
    ensures Render(t, Pair(first, v1, second, v2)) == Sub(Sub(t, first, v1), second, v2)
  {
    var d := Pair(first, v1, second, v2);
    assert RenderFirst(t, d, 1) == Sub(t, first, v1);
  }

  /**
   * Variables apply in insertion order over the previous output: a placeholder `{{b}}` that
   * the value of `a` introduces is expanded by `b` registered after `a` ...
   */
  lemma LaterVariableExpandsValue(a: string, b: string, y: string)
    requires PlainName(a) && PlainName(b) && a != b
    ensures Render(Placeholder("", a, ""), Pair(a, Placeholder("", b, ""), b, y)) == y
  {
    var pa := Placeholder("", a, "");
    var pb := Placeholder("", b, "");
    RenderPair(pa, a, pb, b, y);
    SubOwnPlaceholder(a, pb);
    SubOwnPlaceholder(b, y);
  }

  /** ... and left as it is by `b` registered before `a`. */
  lemma EarlierVariableMissesValue(a: string, b: string, y: string)
    requires PlainName(a) && PlainName(b) && a != b
    ensures Render(Placeholder("", a, ""), Pair(b, y, a, Placeholder("", b, ""))) == Placeholder("", b, "")
  {
    var pa := Placeholder("", a, "");
    var pb := Placeholder("", b, "");
    RenderPair(pa, b, y, a, pb);
    SubOtherName(a, b, y);
    SubOwnPlaceholder(a, pb);
  }

  class Template {
    var template: string
    var output: string
    var variables: Dict<string>

    ghost predicate Valid()
      reads this
    {
      variables.Valid()
    }

    /** `Template(filename)` with the file's text already read: no variables, empty output. */
    constructor (text: string)
      ensures Valid()
      ensures template == text && output == "" && variables == Empty()
    {
      template := text;
      output := "";
      variables := Empty();
    }

    /** `set_variable(variable, value)` */
    method SetVariable(variable: string, value: string)
      requires Valid()
      modifies this
      ensures Valid()
      ensures variables == Put(old(variables), variable, value)
      ensures template == old(template) && output == old(output)
    {
      variables := Put(variables, variable, value);
    }

    /** `set_variables(variables)`: each entry in turn through `set_variable`. */
    method SetVariables(vars: Dict<string>)
      requires Valid() && vars.Valid()
      modifies this
      ensures Valid()
      ensures variables == PutAll(old(variables), vars)
      ensures template == old(template) && output == old(output)
    {
      for i := 0 to |vars.keys|
        invariant Valid()
        invariant variables == PutFirst(old(variables), vars, i)
        invariant template == old(template) && output == old(output)
      {
        var name := vars.keys[i];
        SetVariable(name, vars.vals[name]);
      }
    }

    /** `replace()`: the output is the template with every variable applied, in insertion order. */
    method Replace()
      requires Valid()
      modifies this
      ensures Valid()
      ensures output == Render(template, variables)
      ensures template == old(template) && variables == old(variables)
    {
      output := template;
      for i := 0 to |variables.keys|
        invariant template == old(template) && variables == old(variables)
        invariant output == RenderFirst(template, variables, i)
      {
        var name := variables.keys[i];
        output := Sub(output, name, variables.vals[name]);
      }
    }
  }
}

/**
 * The pieces of Python's `str` behaviour the pipeline relies on: `isspace`,
 * `strip`, `lower`, `split(c, 1)`, decimal digits for `int()` and `str()`,
 * string concatenation and the `readlines` of a file opened in text mode.
 */
module Text {

  /** Python's `str.isspace()`: the characters `strip()` removes and `\s` matches. */
  predicate IsSpace(c: char)
  {
    || c == ' '
    || ('\t' <= c <= '\r')
    || ('\U{1C}' <= c <= '\U{1F}')
    || c == '\U{85}' || c == '\U{A0}' || c == '\U{1680}'
    || ('\U{2000}' <= c <= '\U{200A}')
    || c == '\U{2028}' || c == '\U{2029}' || c == '\U{202F}' || c == '\U{205F}' || c == '\U{3000}'
  }

  predicate AllSpace(s: string)
  {
    forall i :: 0 <= i < |s| ==> IsSpace(s[i])
  }

  /** `s.lstrip()` */
  function TrimStart(s: string): (r: string)
    ensures |r| <= |s| && r == s[|s| - |r|..]
    ensures AllSpace(s[..|s| - |r|])
    ensures r == [] || !IsSpace(r[0])
    ensures r == [] <==> AllSpace(s)
  {
    if s != [] && IsSpace(s[0]) then
      var r := TrimStart(s[1..]);
      AllSpaceFront(s, |s| - |r|);
      AllSpaceFront(s, |s|);
      assert s[1..][|s| - 1 - |r|..] == s[|s| - |r|..];
      r
    else s
  }

  /** A prefix starting with whitespace is all whitespace exactly when the rest of it is. */
  lemma AllSpaceFront(s: string, n: nat)
    requires 0 < n <= |s| && IsSpace(s[0])
    ensures AllSpace(s[..n]) <==> AllSpace(s[1..][..n - 1])
  {
    var front, rest := s[..n], s[1..][..n - 1];
    assert forall j :: 0 <= j < |rest| ==> rest[j] == front[j + 1];
    assert forall i :: 0 < i < |front| ==> front[i] == rest[i - 1];
    assert front[0] == s[0];
  }

  /** `s.rstrip()` */
  function TrimEnd(s: string): (r: string)
    ensures |r| <= |s| && r == s[..|r|]
    ensures AllSpace(s[|r|..])
    ensures r == [] || !IsSpace(r[|r| - 1])
    ensures r == [] <==> AllSpace(s)
  {
    if s != [] && IsSpace(s[|s| - 1]) then TrimEnd(s[..|s| - 1]) else s
  }

  /** `s.strip()`: empty exactly when `s` is nothing but whitespace. */
  function Strip(s: string): (r: string)
    ensures r == [] <==> AllSpace(s)
  {
    TrimEnd(TrimStart(s))
  }

  /** A string that neither starts nor ends with whitespace, followed by
      whitespace, strips back to itself. */
  lemma StripTrailing(t: string, tail: string)
    requires t != [] && !IsSpace(t[0]) && !IsSpace(t[|t| - 1])
    requires AllSpace(tail)
    ensures Strip(t + tail) == t
  {
    var s := t + tail;
    assert s[0] == t[0];
    assert TrimStart(s) == s;
    TrimEndOf(t, tail);
  }

  lemma {:induction false} TrimEndOf(t: string, tail: string)
    requires t != [] && !IsSpace(t[|t| - 1])
    requires AllSpace(tail)
    ensures TrimEnd(t + tail) == t
    decreases |tail|
  {
    if tail == [] {
      assert t + tail == t;
    } else {
      var s := t + tail;
      assert s[|s| - 1] == tail[|tail| - 1];
      assert s[..|s| - 1] == t + tail[..|tail| - 1];
      TrimEndOf(t, tail[..|tail| - 1]);
    }
  }

  /** Python's `str.lower()` on ASCII letters. */
  function LowerChar(c: char): char
  {
    if 'A' <= c <= 'Z' then (c as int + 32) as char else c
  }

  function Lower(s: string): (r: string)
    ensures |r| == |s|
    ensures forall i :: 0 <= i < |s| ==> r[i] == LowerChar(s[i])
  {
    seq(|s|, i requires 0 <= i < |s| => LowerChar(s[i]))
  }

  predicate IsUpper(c: char)
  {
    'A' <= c <= 'Z'
  }

  /** A lower-cased string holds no ASCII capital letter. */
  lemma LowerHasNoUpper(s: string, i: int)
    requires 0 <= i < |s|
    ensures !IsUpper(Lower(s)[i])
  {
  }

  /** `s.split(c, 1)` when `c` occurs: everything before the first `c`, and everything after it. */
  function SplitAtFirst(s: string, c: char): (r: (string, string))
    requires c in s
    ensures r.0 + [c] + r.1 == s
    ensures c !in r.0
  {
    if s[0] == c then ([], s[1..])
    else
      var (a, b) := SplitAtFirst(s[1..], c);
      assert [s[0]] + (a + [c] + b) == s;
      ([s[0]] + a, b)
  }

  /** The split at the first `c` is the only split around a `c` whose left part holds no `c`. */
  lemma SplitUnique(a: string, b: string, a': string, b': string, c: char)
    requires a + [c] + b == a' + [c] + b'
    requires c !in a && c !in a'
    ensures a == a' && b == b'
  {
    var s := a + [c] + b;
    assert forall i :: 0 <= i < |a| ==> s[i] == a[i] && s[i] != c;
    assert forall i :: 0 <= i < |a'| ==> s[i] == a'[i] && s[i] != c;
    assert s[|a|] == c && s[|a'|] == c;
    assert |a| == |a'|;
    assert a == s[..|a|] && a' == s[..|a'|];
    assert b == s[|a| + 1..] && b' == s[|a'| + 1..];
  }

  predicate IsDigit(c: char)
  {
    '0' <= c <= '9'
  }

  predicate AllDigits(s: string)
  {
    forall i :: 0 <= i < |s| ==> IsDigit(s[i])
  }

  /** Length of the run of decimal digits at the front of `s` (what a greedy `\d+` consumes). */
  function DigitRun(s: string): (n: nat)
    ensures n <= |s|
    ensures AllDigits(s[..n])
    ensures n < |s| ==> !IsDigit(s[n])
  {
    if s != [] && IsDigit(s[0]) then 1 + DigitRun(s[1..]) else 0
  }

  /** `int(s)` for a string of decimal digits. */
  function DigitsValue(s: string): nat
    requires AllDigits(s)
  {
    if s == [] then 0 else 10 * DigitsValue(s[..|s| - 1]) + (s[|s| - 1] as int - '0' as int)
  }

  /** `str(n)`: decimal digits without leading zeros; reading them back gives `n`. */
  function NatToString(n: nat): (s: string)
    ensures s != [] && AllDigits(s)
    ensures |s| == 1 || s[0] != '0'
    ensures DigitsValue(s) == n
  {
    var d := ['0' + (n % 10) as char];
    if n < 10 then d
    else
      var s := NatToString(n / 10) + d;
      assert s[..|s| - 1] == NatToString(n / 10);
      s
  }

  /** When a run of digits is followed by a non-digit, the greedy run is exactly that run. */
  lemma {:induction false} DigitRunOf(digits: string, rest: string)
    requires AllDigits(digits)
    requires rest == [] || !IsDigit(rest[0])
    ensures DigitRun(digits + rest) == |digits|
  {
    if digits != [] {
      assert (digits + rest)[1..] == digits[1..] + rest;
      DigitRunOf(digits[1..], rest);
    } else {
      assert digits + rest == rest;
    }
  }

  /** The text written by a sequence of `write` calls. */
  function Concat(parts: seq<string>): string
  {
    if parts == [] then [] else parts[0] + Concat(parts[1..])
  }

  lemma {:induction false} ConcatAppend(a: seq<string>, b: seq<string>)
    ensures Concat(a + b) == Concat(a) + Concat(b)
  {
    if a == [] {
      assert a + b == b;
    } else {
      assert (a + b)[1..] == a[1..] + b;
      ConcatAppend(a[1..], b);
    }
  }

  /**
   * Universal-newline translation performed when a file is read in text mode:
   * `\r\n` and a lone `\r` both become `\n`.
   */
  function TranslateNewlines(t: string): string
    decreases |t|
  {
    if t == [] then []
    else if t[0] == '\r' then
      if |t| > 1 && t[1] == '\n' then "\n" + TranslateNewlines(t[2..])
      else "\n" + TranslateNewlines(t[1..])
    else [t[0]] + TranslateNewlines(t[1..])
  }

  lemma {:induction false} TranslateWithoutCarriageReturn(t: string)
    requires forall i :: 0 <= i < |t| ==> t[i] != '\r'
    ensures TranslateNewlines(t) == t
    decreases |t|
  {
    if t != [] {
      TranslateWithoutCarriageReturn(t[1..]);
    }
  }

  /** Length of the first line of `t`, its `\n` included. */
  function FirstLineLength(t: string): (n: nat)
    requires t != []
    ensures 0 < n <= |t|
  {
    if t[0] == '\n' || |t| == 1 then 1 else 1 + FirstLineLength(t[1..])
  }

  /** Splits newline-translated text into lines, each keeping its `\n`; a last line without one is kept as is. */
  function SplitLines(t: string): seq<string>
    decreases |t|
  {
    if t == [] then [] else
      var n := FirstLineLength(t);
      [t[..n]] + SplitLines(t[n..])
  }

  /** `f.readlines()` on a file opened with `open(path, 'r')`. */
  function ReadLines(text: string): seq<string>
  {
    SplitLines(TranslateNewlines(text))
  }

  /** One complete line: a single `\n`, at its end. */
  predicate IsLine(l: string)
  {
    l != [] && l[|l| - 1] == '\n' && forall i :: 0 <= i < |l| - 1 ==> l[i] != '\n'
  }

  lemma {:induction false} FirstLineLengthOf(l: string, rest: string)
    requires IsLine(l)
    ensures FirstLineLength(l + rest) == |l|
    decreases |l|
  {
    var s := l + rest;
    if |l| > 1 {
      assert s[0] == l[0] != '\n';
      assert s[1..] == l[1..] + rest;
      FirstLineLengthOf(l[1..], rest);
    }
  }

  /** Reading back text written as complete lines gives those lines. */
  lemma {:induction false} SplitConcat(lines: seq<string>)
    requires forall i :: 0 <= i < |lines| ==> IsLine(lines[i])
    ensures SplitLines(Concat(lines)) == lines
    decreases |lines|
  {
    if lines != [] {
      var t := Concat(lines);
      FirstLineLengthOf(lines[0], Concat(lines[1..]));
      assert t[..|lines[0]|] == lines[0];
      assert t[|lines[0]|..] == Concat(lines[1..]);
      SplitConcat(lines[1..]);
    }
  }

  /** Text written from parts that avoid a character avoids it too. */
  lemma {:induction false} ConcatAvoids(parts: seq<string>, c: char)
    requires forall i, j :: 0 <= i < |parts| && 0 <= j < |parts[i]| ==> parts[i][j] != c
    ensures forall j :: 0 <= j < |Concat(parts)| ==> Concat(parts)[j] != c
    decreases |parts|
  {
    if parts != [] {
      ConcatAvoids(parts[1..], c);
      var t := Concat(parts);
      assert t == parts[0] + Concat(parts[1..]);
      forall j | 0 <= j < |t| ensures t[j] != c {
        if j < |parts[0]| {
          assert t[j] == parts[0][j];
        } else {
          assert t[j] == Concat(parts[1..])[j - |parts[0]|];
        }
      }
    }
  }

  /** `strip()` keeps a piece of the line that neither starts nor ends with whitespace. */
  lemma StripInside(s: string)
    ensures forall c :: c in Strip(s) ==> c in s
    ensures Strip(s) != [] ==> !IsSpace(Strip(s)[0]) && !IsSpace(Strip(s)[|Strip(s)| - 1])
  {
    StripEnds(s);
    StripSlice(s);
  }

  lemma StripEnds(s: string)
    ensures Strip(s) != [] ==> !IsSpace(Strip(s)[0]) && !IsSpace(Strip(s)[|Strip(s)| - 1])
  {
    var u := TrimStart(s);
    var r := TrimEnd(u);
    if r != [] {
      assert r[0] == u[0];
    }
  }

  lemma StripSlice(s: string)
    ensures forall c :: c in Strip(s) ==> c in s
  {
    var u := TrimStart(s);
    var r := TrimEnd(u);
    var a := |s| - |u|;
    assert r == s[a..a + |r|];
  }

  /** Newline translation leaves no `\r` behind. */
  lemma {:induction false} TranslateRemovesCarriageReturn(t: string)
    ensures '\r' !in TranslateNewlines(t)
    decreases |t|
  {
    if t != [] {
      if t[0] == '\r' && |t| > 1 && t[1] == '\n' {
        TranslateRemovesCarriageReturn(t[2..]);
      } else {
        TranslateRemovesCarriageReturn(t[1..]);
      }
    }
  }

  /** Every line split from a text that avoids a character avoids it too. */
  lemma {:induction false} SplitLinesAvoid(t: string, c: char)
    requires c !in t
    ensures forall i :: 0 <= i < |SplitLines(t)| ==> c !in SplitLines(t)[i]
    decreases |t|
  {
    if t != [] {
      var n := FirstLineLength(t);
      assert forall x :: x in t[..n] ==> x in t;
      assert forall x :: x in t[n..] ==> x in t;
      SplitLinesAvoid(t[n..], c);
      assert SplitLines(t) == [t[..n]] + SplitLines(t[n..]);
    }
  }

  /** No line `readlines` returns from a file opened in text mode holds a `\r`. */
  lemma ReadLinesNoCarriageReturn(text: string)
    ensures forall i :: 0 <= i < |ReadLines(text)| ==> '\r' !in ReadLines(text)[i]
  {
    TranslateRemovesCarriageReturn(text);
    SplitLinesAvoid(TranslateNewlines(text), '\r');
  }

  /** `s` holds no `c`. */
  predicate Avoids(s: string, c: char)
  {
    forall i :: 0 <= i < |s| ==> s[i] != c
  }

  /** `s` holds no line break: neither `\n` nor `\r`. */
  predicate NoLineBreak(s: string)
  {
    Avoids(s, '\n') && Avoids(s, '\r')
  }

  /** A concatenation avoids a character exactly when both parts do. */
  lemma AvoidsAppend(a: string, b: string, c: char)
    ensures Avoids(a + b, c) <==> Avoids(a, c) && Avoids(b, c)
  {
    if Avoids(a, c) && Avoids(b, c) {
      forall i | 0 <= i < |a + b|
        ensures (a + b)[i] != c
      {
        if i >= |a| {
          assert (a + b)[i] == b[i - |a|];
        }
      }
    }
    if Avoids(a + b, c) {
      assert forall i :: 0 <= i < |a| ==> (a + b)[i] == a[i];
      assert forall i :: 0 <= i < |b| ==> (a + b)[|a| + i] == b[i];
    }
  }

  lemma NoLineBreakAppend(a: string, b: string)
    ensures NoLineBreak(a + b) <==> NoLineBreak(a) && NoLineBreak(b)
  {
    AvoidsAppend(a, b, '\n');
    AvoidsAppend(a, b, '\r');
  }
}

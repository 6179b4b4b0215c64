/**
 * The `GitVersion` class of GitVersion.py: branch, commit hash, short hash, commit date
 * and version number of a repository's HEAD. The four git invocations
 * (`show -s --format=%ci HEAD`, `rev-parse --abbrev-ref HEAD`, `rev-parse HEAD`,
 * `describe --tags --abbrev=0 --always`) are outside the model; their outputs are
 * parameters.
 */
module Git {
  import opened Wrappers
  import opened Text

  /** `[major, minor, patch, build]` */
  datatype Version = Version(major: nat, minor: nat, patch: nat, build: nat)

  /** The commit date as the pipeline prints it: `%d %b %Y` and `%H:%M:%S`. */
  datatype CommitDate = CommitDate(day: string, time: string)

  /** What the four git invocations print, in the order the constructor runs them. */
  datatype GitOutput = GitOutput(date: CommitDate, branch: string, head: string, describe: string)

  /**
   * One `(\d+)` group of a pattern, matched at the front of `s` and followed by `sep`
   * (or by anything, when `sep` is `None`): the group and what follows the separator.
   * A greedy `\d+` cannot give back digits to a separator that is not a digit, so the
   * group is the whole run.
   */
  function Group(s: string, sep: Option<char>): (r: Option<(string, string)>)
    ensures r.Some? ==> r.value.0 != [] && AllDigits(r.value.0)
    ensures r.Some? && sep.Some? ==> s == r.value.0 + [sep.value] + r.value.1
    ensures r.Some? && sep.None? ==> s == r.value.0 + r.value.1 && (r.value.1 == [] || !IsDigit(r.value.1[0]))
  {
    var n := DigitRun(s);
    assert s == s[..n] + s[n..];
    if n == 0 then None
    else match sep
      case None => Some((s[..n], s[n..]))
      case Some(c) =>
        if n < |s| && s[n] == c then
          assert s[n..] == [c] + s[n + 1..];
          Some((s[..n], s[n + 1..]))
        else None
  }

  /** `re.match(r'(\d+)\.(\d+)\.(\d+)', tag)`: the three groups as numbers. */
  function MatchTriple(tag: string): (r: Option<(nat, nat, nat)>)
  {
    match Group(tag, Some('.'))
    case None => None
    case Some((a, t2)) =>
      match Group(t2, Some('.'))
      case None => None
      case Some((b, t3)) =>
        match Group(t3, None)
        case None => None
        case Some((c, _)) => Some((DigitsValue(a), DigitsValue(b), DigitsValue(c)))
  }

  /** `re.match(r'(\d+)\.(\d+)\.(\d+)-(\d+)', tag)`: the four groups as numbers. */
  function MatchQuad(tag: string): (r: Option<(nat, nat, nat, nat)>)
  {
    match Group(tag, Some('.'))
    case None => None
    case Some((a, t2)) =>
      match Group(t2, Some('.'))
      case None => None
      case Some((b, t3)) =>
        match Group(t3, Some('-'))
        case None => None
        case Some((c, t4)) =>
          match Group(t4, None)
          case None => None
          case Some((d, _)) => Some((DigitsValue(a), DigitsValue(b), DigitsValue(c), DigitsValue(d)))
  }

  /** `get_version`: the first pattern, else the second, else `[0, 0, 1, 0]`. */
  function ParseVersion(tag: string): Version
  {
    match MatchTriple(tag)
    case Some((a, b, c)) => Version(a, b, c, 0)
    case None =>
      match MatchQuad(tag)
      case Some((a, b, c, d)) => Version(a, b, c, d)
      case None => Version(0, 0, 1, 0)
  }

  /** A run of digits followed by anything that is not a digit is read as that number. */
  lemma GroupOf(digits: string, sep: Option<char>, rest: string)
    requires digits != [] && AllDigits(digits)
    requires sep.Some? ==> !IsDigit(sep.value)
    requires sep.None? ==> rest == [] || !IsDigit(rest[0])
    ensures var s := if sep.Some? then digits + [sep.value] + rest else digits + rest;
      Group(s, sep) == Some((digits, rest))
  {
    var s := if sep.Some? then digits + [sep.value] + rest else digits + rest;
    var tail := if sep.Some? then [sep.value] + rest else rest;
    assert s == digits + tail;
    DigitRunOf(digits, tail);
    assert s[..|digits|] == digits;
    assert sep.Some? ==> s[|digits| + 1..] == rest;
    assert sep.None? ==> s[|digits|..] == rest;
  }

  /**
   * The first pattern matches every tag the second one matches: the `-build` branch of
   * `get_version` is never taken.
   */
  lemma QuadImpliesTriple(tag: string)
    ensures MatchQuad(tag).Some? ==> MatchTriple(tag).Some?
  {
    if MatchQuad(tag).Some? {
      var (a, t2) := Group(tag, Some('.')).value;
      var (b, t3) := Group(t2, Some('.')).value;
      var (c, t4) := Group(t3, Some('-')).value;
      assert t3 == c + (['-'] + t4);
      GroupOf(c, None, ['-'] + t4);
    }
  }

  /** So the build number `get_version` produces is always 0. */
  lemma BuildAlwaysZero(tag: string)
    ensures ParseVersion(tag).build == 0
  {
    QuadImpliesTriple(tag);
  }

  /** A tag `A.B.C` followed by anything but a digit gives `[A, B, C, 0]`. */
  lemma TagVersion(a: string, b: string, c: string, rest: string)
    requires a != [] && b != [] && c != [] && AllDigits(a) && AllDigits(b) && AllDigits(c)
    requires rest == [] || !IsDigit(rest[0])
    ensures MatchTriple(a + "." + b + "." + c + rest) == Some((DigitsValue(a), DigitsValue(b), DigitsValue(c)))
    ensures ParseVersion(a + "." + b + "." + c + rest) ==
      Version(DigitsValue(a), DigitsValue(b), DigitsValue(c), 0)
  {
    var tag := a + "." + b + "." + c + rest;
    var t3 := c + rest;
    var t2 := b + ['.'] + t3;
    assert tag == a + ['.'] + t2;
    GroupOf(a, Some('.'), t2);
    GroupOf(b, Some('.'), t3);
    GroupOf(c, None, rest);
    assert Group(tag, Some('.')) == Some((a, t2));
    assert Group(t2, Some('.')) == Some((b, t3));
    assert Group(t3, None) == Some((c, rest));
    assert MatchTriple(tag) == Some((DigitsValue(a), DigitsValue(b), DigitsValue(c)));
  }

  /** A tag with a build suffix, such as `1.2.3-7`, still gives build 0. */
  lemma BuildSuffixIgnored()
    ensures ParseVersion("1.2.3-7") == Version(1, 2, 3, 0)
  {
    assert "1" + "." + "2" + "." + "3" + "-7" == "1.2.3-7";
    assert DigitsValue("1") == 1 && DigitsValue("2") == 2 && DigitsValue("3") == 3 by {
      assert "1"[..0] == "2"[..0] == "3"[..0] == [];
    }
    TagVersion("1", "2", "3", "-7");
  }

  /** A tag that does not start with a digit, such as `v1.2.3` or a bare hash, gives `[0, 0, 1, 0]`. */
  lemma NonNumericTag(tag: string)
    requires tag == [] || !IsDigit(tag[0])
    ensures ParseVersion(tag) == Version(0, 0, 1, 0)
  {
  }

  /** `tag` is `a.b.c` followed by `rest`, with three non-empty runs of digits and `rest` not starting with a digit. */
  predicate TripleParts(tag: string, a: string, b: string, c: string, rest: string)
  {
    && a != [] && b != [] && c != [] && AllDigits(a) && AllDigits(b) && AllDigits(c)
    && (rest == [] || !IsDigit(rest[0]))
    && tag == a + "." + b + "." + c + rest
  }

  /** The tag starts with three runs of digits separated by dots, followed by a non-digit or the end. */
  ghost predicate StartsWithTriple(tag: string)
  {
    exists a: string, b: string, c: string, rest: string :: TripleParts(tag, a, b, c, rest)
  }

  lemma DottedConcat(tag: string, a: string, t2: string, b: string, t3: string, c: string, rest: string)
    requires tag == a + ['.'] + t2 && t2 == b + ['.'] + t3 && t3 == c + rest
    ensures tag == a + "." + b + "." + c + rest
  {
  }

  /** The first pattern matches only a tag of that shape. */
  lemma MatchTripleShape(tag: string)
    requires MatchTriple(tag).Some?
    ensures StartsWithTriple(tag)
  {
    var (a, t2) := Group(tag, Some('.')).value;
    var (b, t3) := Group(t2, Some('.')).value;
    var (c, rest) := Group(t3, None).value;
    DottedConcat(tag, a, t2, b, t3, c, rest);
    assert TripleParts(tag, a, b, c, rest);
  }

  /** The first pattern matches exactly the tags of that shape. */
  lemma MatchTripleIff(tag: string)
    ensures MatchTriple(tag).Some? <==> StartsWithTriple(tag)
  {
    if MatchTriple(tag).Some? {
      MatchTripleShape(tag);
    }
    if StartsWithTriple(tag) {
      var a: string, b: string, c: string, rest: string :| TripleParts(tag, a, b, c, rest);
      TagVersion(a, b, c, rest);
    }
  }

  /**
   * Every other tag, whatever its first character (a short hash such as `3f2a1bc`, or
   * `1.2`, or `10-rc`), gives the default `[0, 0, 1, 0]`.
   */
  lemma UnparseableTag(tag: string)
    requires !StartsWithTriple(tag)
    ensures ParseVersion(tag) == Version(0, 0, 1, 0)
  {
    MatchTripleIff(tag);
    QuadImpliesTriple(tag);
  }

  lemma UnparseableTagExamples()
    ensures ParseVersion("3f2a1bc") == Version(0, 0, 1, 0)
    ensures ParseVersion("1.2") == Version(0, 0, 1, 0)
    ensures ParseVersion("10-rc") == Version(0, 0, 1, 0)
  {
    assert DigitRun("3f2a1bc") == 1 by {
      assert "3f2a1bc"[1..] == "f2a1bc";
    }
    assert DigitRun("1.2") == 1 by {
      assert "1.2"[1..] == ".2";
    }
    assert DigitRun("2") == 1 by {
      assert "2"[1..] == "";
    }
    assert DigitRun("10-rc") == 2 by {
      assert "10-rc"[1..] == "0-rc";
      assert "0-rc"[1..] == "-rc";
    }
  }

  /** `sha[:6]`: the first six characters, or all of a shorter string. */
  function ShortSha(sha: string): (r: string)
    ensures |r| == if |sha| < 6 then |sha| else 6
    ensures sha == r + sha[|r|..]
  {
    sha[..if |sha| < 6 then |sha| else 6]
  }

  class GitVersion {
    var branch: string
    var sha: string
    var shortSha: string
    var version: Version
    var commitDate: CommitDate

    /** The short hash is always the six-character prefix of the hash. */
    ghost predicate Valid()
      reads this
    {
      shortSha == ShortSha(sha)
    }

    /** `GitVersion(repo)`: date, branch, hash and version, read in that order. */
    constructor (out: GitOutput)
      ensures commitDate == out.date && branch == out.branch
      ensures sha == out.head && shortSha == ShortSha(out.head)
      ensures version == ParseVersion(out.describe)
      ensures Valid()
    {
      commitDate := out.date;
      branch := out.branch;
      sha := out.head;
      shortSha := ShortSha(out.head);
      version := ParseVersion(out.describe);
    }

    /** `get_datetime()` */
    method GetDatetime(date: CommitDate) returns (r: CommitDate)
      modifies this
      ensures r == date && commitDate == date
      ensures branch == old(branch) && sha == old(sha) && shortSha == old(shortSha) && version == old(version)
      ensures Valid() == old(Valid())
    {
      commitDate := date;
      r := commitDate;
    }

    /** `get_branch()` */
    method GetBranch(out: string) returns (r: string)
      modifies this
      ensures r == out && branch == out
      ensures commitDate == old(commitDate) && sha == old(sha) && shortSha == old(shortSha) && version == old(version)
      ensures Valid() == old(Valid())
    {
      branch := out;
      r := branch;
    }

    /** `get_sha()`: the full hash, and its first six characters as the short hash. */
    method GetSha(out: string) returns (r: string)
      modifies this
      ensures r == out && sha == out && shortSha == ShortSha(out)
      ensures commitDate == old(commitDate) && branch == old(branch) && version == old(version)
      ensures Valid()
    {
      sha := out;
      shortSha := ShortSha(sha);
      r := sha;
    }

    /** `get_version()` */
    method GetVersion(tag: string) returns (r: Version)
      modifies this
      ensures r == ParseVersion(tag) && version == r && r.build == 0
      ensures commitDate == old(commitDate) && branch == old(branch) && sha == old(sha) && shortSha == old(shortSha)
      ensures Valid() == old(Valid())
    {
      BuildAlwaysZero(tag);
      version := ParseVersion(tag);
      r := version;
    }
  }
}

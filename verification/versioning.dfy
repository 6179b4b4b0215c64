/**
 * The `VersionInformation` class of VersionInformation.py: a `GitVersion` together with
 * the list of branch names that count as public, and the version strings built from it.
 *
 * `public_branches` is a class attribute: until `set_public_branches` rebinds it, every
 * instance refers to the one list object of the class, and `add_public_branch` appends to
 * that shared object. The model keeps the list as an object (`BranchList`) so that this
 * sharing is visible.
 */
module Versioning {
  import opened Text
  import opened Wrappers
  import opened Git

  /** The value of the class attribute `public_branches`. */
  const DefaultPublicBranches: seq<string> := ["master", "main", "releases"]

  /** A Python list of branch names, an object that several holders can share. */
  class BranchList {
    var items: seq<string>

    constructor (items: seq<string>)
      ensures this.items == items
    {
      this.items := items;
    }
  }

  /** `branch.lower() in public_branches`: the lower-cased name must equal an entry exactly. */
  predicate IsPublicBranch(branch: string, publicBranches: seq<string>)
  {
    Lower(branch) in publicBranches
  }

  /** With the class's own list, a branch is public exactly when it is master, main or releases in any case. */
  lemma DefaultPublicBranchesAre(branch: string)
    ensures IsPublicBranch(branch, DefaultPublicBranches) <==>
      Lower(branch) == "master" || Lower(branch) == "main" || Lower(branch) == "releases"
  {
  }

  lemma PublicBranchExamples()
    ensures IsPublicBranch("Main", DefaultPublicBranches)
    ensures IsPublicBranch("MASTER", DefaultPublicBranches)
    ensures !IsPublicBranch("release", DefaultPublicBranches)
    ensures !IsPublicBranch("feature/x", DefaultPublicBranches)
  {
    assert Lower("Main") == "main";
    assert Lower("MASTER") == "master";
    assert Lower("release") == "release";
    assert Lower("feature/x") == "feature/x";
  }

  /**
   * The comparison lower-cases only the branch: an entry holding an upper-case letter,
   * such as one added as `Release`, never matches any branch.
   */
  lemma UpperCaseEntryNeverMatches(branch: string, entry: string, i: int)
    requires 0 <= i < |entry| && IsUpper(entry[i])
    ensures !IsPublicBranch(branch, [entry])
  {
    if |Lower(branch)| == |entry| {
      LowerHasNoUpper(branch, i);
    }
  }

  /** `get_visibility()` for a branch that is or is not public. */
  function Visibility(isPublic: bool): (r: string)
    ensures r == "PUBLIC" || r == "PRIVATE"
    ensures r == "PUBLIC" <==> isPublic
  {
    if isPublic then "PUBLIC" else "PRIVATE"
  }

  /** `get_version_short()`: `major.minor`. */
  function VersionShort(v: Version): string
  {
    NatToString(v.major) + "." + NatToString(v.minor)
  }

  /** `major.minor.patch`, the form the pipeline writes as the project version. */
  function VersionTriple(v: Version): string
  {
    NatToString(v.major) + "." + NatToString(v.minor) + "." + NatToString(v.patch)
  }

  /** `get_version_long()`: `major.minor.patch-build`. */
  function VersionLong(v: Version): string
  {
    VersionTriple(v) + "-" + NatToString(v.build)
  }

  /** `get_version_string()`: `(<day>/<time>) [<visibility>] <<branch>/<short version>> ChangeList: <short hash>`. */
  function VersionString(date: CommitDate, isPublic: bool, branch: string, v: Version, shortSha: string): string
  {
    "(" + date.day + "/" + date.time + ") [" + Visibility(isPublic) + "] <" + branch + "/" + VersionShort(v)
      + "> ChangeList: " + shortSha
  }

  /** The short version reads back as major and minor: two digit runs around one dot. */
  lemma VersionShortReadsBack(v: Version)
    ensures Group(VersionShort(v), Some('.')) == Some((NatToString(v.major), NatToString(v.minor)))
    ensures DigitsValue(NatToString(v.major)) == v.major && DigitsValue(NatToString(v.minor)) == v.minor
  {
    GroupOf(NatToString(v.major), Some('.'), NatToString(v.minor));
  }

  /** A tag written as the long version is read back by `get_version` with its build number dropped. */
  lemma VersionLongThenParse(v: Version)
    ensures ParseVersion(VersionLong(v)) == Version(v.major, v.minor, v.patch, 0)
  {
    var rest := "-" + NatToString(v.build);
    assert VersionLong(v) == NatToString(v.major) + "." + NatToString(v.minor) + "." + NatToString(v.patch) + rest;
    TagVersion(NatToString(v.major), NatToString(v.minor), NatToString(v.patch), rest);
  }

  /** A tag written as the three-part version is read back by `get_version` exactly, build 0. */
  lemma VersionTripleThenParse(v: Version)
    ensures ParseVersion(VersionTriple(v)) == Version(v.major, v.minor, v.patch, 0)
  {
    assert VersionTriple(v) == NatToString(v.major) + "." + NatToString(v.minor) + "." + NatToString(v.patch) + [];
    TagVersion(NatToString(v.major), NatToString(v.minor), NatToString(v.patch), []);
  }

  lemma DigitsAvoid(s: string, c: char)
    requires AllDigits(s) && !IsDigit(c)
    ensures Avoids(s, c)
  {
  }

  /**
   * The version string holds a given non-digit character (a line break, a double quote)
   * exactly when the commit date, the branch or the short hash does, or the fixed text
   * around them does.
   */
  lemma VersionStringAvoids(date: CommitDate, isPublic: bool, branch: string, v: Version, shortSha: string, c: char)
    requires !IsDigit(c) && c != '(' && c != '/' && c != ')' && c != ' ' && c != '[' && c != ']'
    requires c != '<' && c != '>' && c != '.' && c != ':' && Avoids(Visibility(isPublic), c) && Avoids("ChangeList", c)
    ensures Avoids(VersionString(date, isPublic, branch, v, shortSha), c) <==>
      Avoids(date.day, c) && Avoids(date.time, c) && Avoids(branch, c) && Avoids(shortSha, c)
  {
    var vis := Visibility(isPublic);
    var short := VersionShort(v);
    assert Avoids(short, c) by {
      DigitsAvoid(NatToString(v.major), c);
      DigitsAvoid(NatToString(v.minor), c);
      AvoidsAppend(NatToString(v.major), ".", c);
      AvoidsAppend(NatToString(v.major) + ".", NatToString(v.minor), c);
    }
    assert Avoids("> ChangeList: ", c) by {
      assert "> ChangeList: " == "> " + "ChangeList" + ": ";
      AvoidsAppend("> ", "ChangeList", c);
      AvoidsAppend("> " + "ChangeList", ": ", c);
    }
    assert Avoids("(", c) && Avoids("/", c) && Avoids(") [", c) && Avoids("] <", c);
    var p1 := "(" + date.day;
    var p3 := p1 + "/" + date.time;
    var p5 := p3 + ") [" + vis;
    var p7 := p5 + "] <" + branch;
    var p9 := p7 + "/" + short;
    AvoidsAppend("(", date.day, c);
    AvoidsAppend(p1, "/", c);
    AvoidsAppend(p1 + "/", date.time, c);
    AvoidsAppend(p3, ") [", c);
    AvoidsAppend(p3 + ") [", vis, c);
    AvoidsAppend(p5, "] <", c);
    AvoidsAppend(p5 + "] <", branch, c);
    AvoidsAppend(p7, "/", c);
    AvoidsAppend(p7 + "/", short, c);
    AvoidsAppend(p9, "> ChangeList: ", c);
    AvoidsAppend(p9 + "> ChangeList: ", shortSha, c);
  }

  class VersionInformation {
    /** The `GitVersion` part of the object. */
    const git: GitVersion
    var publicBranches: BranchList

    /** `VersionInformation(repo)`: the git data, and the class's list of public branches. */
    constructor (git: GitVersion, classBranches: BranchList)
      ensures this.git == git && publicBranches == classBranches
    {
      this.git := git;
      publicBranches := classBranches;
    }

    /** `is_public()` */
    predicate IsPublic()
      reads this, git, publicBranches
    {
      IsPublicBranch(git.branch, publicBranches.items)
    }

    /** `set_public_branches(branches)`: from now on this object uses the caller's list itself. */
    method SetPublicBranches(branches: BranchList)
      modifies this
      ensures publicBranches == branches
    {
      publicBranches := branches;
    }

    /**
     * `add_public_branch(branch)`: appends to the list this object refers to, which every
     * other holder of that list sees too. Afterwards exactly the branches whose lower-cased
     * name is the new entry become public in addition.
     */
    method AddPublicBranch(branch: string)
      modifies publicBranches
      ensures publicBranches.items == old(publicBranches.items) + [branch]
      ensures forall b :: IsPublicBranch(b, publicBranches.items) <==>
        IsPublicBranch(b, old(publicBranches.items)) || Lower(b) == branch
    {
      publicBranches.items := publicBranches.items + [branch];
    }

    /** `get_visibility()` */
    function GetVisibility(): string
      reads this, git, publicBranches
    {
      Visibility(IsPublic())
    }

    /** `get_version_short()` */
    function GetVersionShort(): string
      reads git
    {
      VersionShort(git.version)
    }

    /** `get_version_long()` */
    function GetVersionLong(): string
      reads git
    {
      VersionLong(git.version)
    }

    /** `get_version_string()` */
    function GetVersionString(): string
      reads this, git, publicBranches
    {
      VersionString(git.commitDate, IsPublic(), git.branch, git.version, git.shortSha)
    }
  }

  /**
   * Two objects that still share the class's list: adding a branch through one makes it
   * public for the other as well.
   */
  method AddThroughSharedList(first: VersionInformation, second: VersionInformation, branch: string)
    requires first.publicBranches == second.publicBranches
    modifies first.publicBranches
    ensures second.publicBranches.items == old(second.publicBranches.items) + [branch]
    ensures Lower(second.git.branch) == branch ==> second.IsPublic()
  {
    first.AddPublicBranch(branch);
  }
}

/**
 * Scraping the text of `repo info`: the three patterns the audit scan
 * searches with re.findall, and the removal of ANSI colour sequences
 * (re.sub of `\x1b\[[0-9;]*m` by "").
 */
module RepoInfo {
  import opened Wrappers
  import opened PyText

  /**
   * What follows the marker and its whitespace: `(.+)`, the rest of the line,
   * or `(\S+)`, one whitespace-free token.
   */
  datatype Capture = RestOfLine | Token

  const ProjectMarker := "Project:"
  const MountMarker := "Mount path:"
  const RevisionMarker := "Current revision:"

  /** A marker of a pattern: a non-empty literal ending in its only ':' and holding no newline. */
  predicate IsMarker(marker: string) {
    && marker != []
    && marker[|marker| - 1] == ':'
    && (forall k :: 0 <= k < |marker| - 1 ==> marker[k] != ':')
    && '\n' !in marker
  }

  /** The end of the run of whitespace (`\s*`, greedy, newlines included) starting at i. */
  function SpaceEnd(s: string, i: nat): (j: nat)
    requires i <= |s|
    ensures i <= j <= |s|
    ensures forall k :: i <= k < j ==> IsSpace(s[k])
    ensures j < |s| ==> !IsSpace(s[j])
    decreases |s| - i
  {
    if i < |s| && IsSpace(s[i]) then SpaceEnd(s, i + 1) else i
  }

  /** The end of the run of characters other than '\n' (`.+`, greedy) starting at i. */
  function LineEnd(s: string, i: nat): (j: nat)
    requires i <= |s|
    ensures i <= j <= |s|
    ensures forall k :: i <= k < j ==> s[k] != '\n'
    ensures j < |s| ==> s[j] == '\n'
    decreases |s| - i
  {
    if i < |s| && s[i] != '\n' then LineEnd(s, i + 1) else i
  }

  /** The end of the run of non-whitespace characters (`\S+`, greedy) starting at i. */
  function TokenEnd(s: string, i: nat): (j: nat)
    requires i <= |s|
    ensures i <= j <= |s|
    ensures forall k :: i <= k < j ==> !IsSpace(s[k])
    ensures j < |s| ==> IsSpace(s[j])
    decreases |s| - i
  {
    if i < |s| && !IsSpace(s[i]) then TokenEnd(s, i + 1) else i
  }

  /**
   * The last position in [lo, hi) not holding '\n': where `.+` starts when
   * `\s*` has to give characters back because the text ends in whitespace.
   */
  function LastNonNewline(s: string, lo: nat, hi: nat): (r: Option<nat>)
    requires lo <= hi <= |s|
    ensures r.Some? ==> lo <= r.value < hi && s[r.value] != '\n'
    ensures r.Some? ==> forall k :: r.value < k < hi ==> s[k] == '\n'
    ensures r.None? ==> forall k :: lo <= k < hi ==> s[k] == '\n'
    decreases hi - lo
  {
    if lo == hi then None
    else if s[hi - 1] != '\n' then Some(hi - 1)
    else LastNonNewline(s, lo, hi - 1)
  }

  /**
   * re.match of `marker\s*(.+)` or `marker\s*(\S+)` at the start of t: the
   * bounds of the group, which also ends the match.  `\s*` takes all the
   * whitespace it can and gives back only as much as the group needs.
   */
  function MatchAt(t: string, marker: string, cap: Capture): (r: Option<(nat, nat)>)
    requires marker != []
    ensures r.Some? ==> StartsWith(t, marker) && |marker| <= r.value.0 < r.value.1 <= |t|
    ensures r.Some? ==> forall k :: |marker| <= k < r.value.0 ==> IsSpace(t[k])
    ensures r.Some? && cap == RestOfLine ==>
              (forall k :: r.value.0 <= k < r.value.1 ==> t[k] != '\n') && (r.value.1 == |t| || t[r.value.1] == '\n')
    ensures r.Some? && cap == Token ==>
              (forall k :: r.value.0 <= k < r.value.1 ==> !IsSpace(t[k])) && (r.value.1 == |t| || IsSpace(t[r.value.1]))
    ensures StartsWith(t, marker) && SpaceEnd(t, |marker|) < |t| ==> r.Some? && r.value.0 == SpaceEnd(t, |marker|)
  {
    if !StartsWith(t, marker) then None
    else
      var q := SpaceEnd(t, |marker|);
      match cap
      case Token =>
        if q < |t| then Some((q, TokenEnd(t, q))) else None
      case RestOfLine =>
        if q < |t| then Some((q, LineEnd(t, q)))
        else match LastNonNewline(t, |marker|, q)
          case None => None
          case Some(k) => Some((k, LineEnd(t, k)))
  }

  /**
   * re.findall with one group: the group of every non-overlapping match,
   * scanning left to right and resuming at the end of each match.
   */
  function FindAll(t: string, marker: string, cap: Capture): (r: seq<string>)
    requires marker != []
    ensures forall i :: 0 <= i < |r| ==> r[i] != []
    ensures cap == RestOfLine ==> forall i :: 0 <= i < |r| ==> '\n' !in r[i]
    ensures cap == Token ==> forall i :: 0 <= i < |r| ==> forall k :: 0 <= k < |r[i]| ==> !IsSpace(r[i][k])
    decreases |t|
  {
    if t == [] then []
    else match MatchAt(t, marker, cap)
      case None => FindAll(t[1..], marker, cap)
      case Some((a, b)) =>
        assert forall k :: 0 <= k < b - a ==> t[a..b][k] == t[a + k];
        [t[a..b]] + FindAll(t[b..], marker, cap)
  }

  /** The three lists the audit scan scrapes from `repo info`. */
  datatype Scraped = Scraped(projects: seq<string>, mountPaths: seq<string>, revisions: seq<string>)

  function Scrape(info: string): (r: Scraped)
    ensures forall i :: 0 <= i < |r.revisions| ==> r.revisions[i] != []
  {
    Scraped(FindAll(info, ProjectMarker, RestOfLine), FindAll(info, MountMarker, RestOfLine),
            FindAll(info, RevisionMarker, Token))
  }

  // ---------------------------------------------------------------------
  // The findall model, line by line
  // ---------------------------------------------------------------------

  /** Every occurrence of the marker in the line is followed, on that line, by something other than whitespace. */
  predicate LineSafe(line: string, marker: string)
    requires marker != []
  {
    forall k :: 0 <= k <= |line| && StartsWith(line[k..], marker) ==> SpaceEnd(line[k..], |marker|) < |line| - k
  }

  lemma SpaceEndPrefix(x: string, y: string, i: nat)
    requires i <= |x|
    requires SpaceEnd(x, i) < |x|
    ensures SpaceEnd(x + y, i) == SpaceEnd(x, i)
    decreases |x| - i
  {
    assert (x + y)[i] == x[i];
    if IsSpace(x[i]) {
      SpaceEndPrefix(x, y, i + 1);
    }
  }

  lemma LineEndNewline(x: string, y: string, i: nat)
    requires i <= |x|
    requires '\n' !in x
    ensures LineEnd(x + "\n" + y, i) == |x| == LineEnd(x, i)
    decreases |x| - i
  {
    var s := x + "\n" + y;
    assert s[|x|] == '\n';
    if i < |x| {
      assert s[i] == x[i];
      LineEndNewline(x, y, i + 1);
    }
  }

  lemma TokenEndNewline(x: string, y: string, i: nat)
    requires i <= |x|
    ensures TokenEnd(x + "\n" + y, i) == TokenEnd(x, i)
    decreases |x| - i
  {
    var s := x + "\n" + y;
    assert s[|x|] == '\n';
    if i < |x| {
      assert s[i] == x[i];
      if !IsSpace(x[i]) {
        TokenEndNewline(x, y, i + 1);
      }
    }
  }

  /** On a line whose marker occurrences are all followed by content, matching does not look past the newline. */
  lemma MatchAtLine(line: string, rest: string, marker: string, cap: Capture)
    requires IsMarker(marker) && '\n' !in line
    requires LineSafe(line, marker)
    ensures MatchAt(line + "\n" + rest, marker, cap) == MatchAt(line, marker, cap)
  {
    var s := line + "\n" + rest;
    if |line| >= |marker| {
      assert s[..|marker|] == line[..|marker|];
    } else {
      if |s| >= |marker| {
        assert s[..|marker|][|line|] == '\n';
      }
    }
    if StartsWith(line, marker) {
      assert line[0..] == line;
      var q := SpaceEnd(line, |marker|);
      assert (line + "\n") + rest == line + ("\n" + rest);
      SpaceEndPrefix(line, "\n" + rest, |marker|);
      assert SpaceEnd(s, |marker|) == q < |line|;
      match cap
      case Token => TokenEndNewline(line, rest, q);
      case RestOfLine => LineEndNewline(line, rest, q);
    }
  }

  lemma LineSafeTail(line: string, marker: string, d: nat)
    requires marker != [] && d <= |line|
    requires LineSafe(line, marker)
    ensures LineSafe(line[d..], marker)
  {
    forall k | 0 <= k <= |line[d..]| && StartsWith(line[d..][k..], marker)
      ensures SpaceEnd(line[d..][k..], |marker|) < |line[d..]| - k
    {
      assert line[d..][k..] == line[d + k..];
    }
  }

  /** findall over a line, its newline and the text after it finds the line's groups, then the rest's. */
  lemma {:induction false} FindAllLine(line: string, rest: string, marker: string, cap: Capture)
    requires IsMarker(marker) && '\n' !in line
    requires LineSafe(line, marker)
    ensures FindAll(line + "\n" + rest, marker, cap) == FindAll(line, marker, cap) + FindAll(rest, marker, cap)
    decreases |line|, 2
  {
    var s := line + "\n" + rest;
    if line == [] {
      assert s == "\n" + rest;
      assert |s| >= |marker| ==> s[..|marker|][0] == '\n';
      assert MatchAt(s, marker, cap).None?;
      assert s[1..] == rest;
      assert FindAll(s, marker, cap) == FindAll(rest, marker, cap);
      assert FindAll(line, marker, cap) == [];
      assert [] + FindAll(rest, marker, cap) == FindAll(rest, marker, cap);
    } else {
      MatchAtLine(line, rest, marker, cap);
      FindAllLineStep(line, rest, marker, cap);
    }
  }

  lemma {:induction false} FindAllLineStep(line: string, rest: string, marker: string, cap: Capture)
    requires IsMarker(marker) && '\n' !in line && line != []
    requires LineSafe(line, marker)
    requires MatchAt(line + "\n" + rest, marker, cap) == MatchAt(line, marker, cap)
    ensures FindAll(line + "\n" + rest, marker, cap) == FindAll(line, marker, cap) + FindAll(rest, marker, cap)
    decreases |line|, 1
  {
    if MatchAt(line, marker, cap).None? {
      FindAllLineSkip(line, rest, marker, cap);
    } else {
      FindAllLineTake(line, rest, marker, cap);
    }
  }

  /** No match at the start of the line: both sides move on by one character. */
  lemma {:induction false} FindAllLineSkip(line: string, rest: string, marker: string, cap: Capture)
    requires IsMarker(marker) && '\n' !in line && line != []
    requires LineSafe(line, marker)
    requires MatchAt(line + "\n" + rest, marker, cap) == MatchAt(line, marker, cap) == None
    ensures FindAll(line + "\n" + rest, marker, cap) == FindAll(line, marker, cap) + FindAll(rest, marker, cap)
    decreases |line|, 0
  {
    var s := line + "\n" + rest;
    assert s[1..] == line[1..] + "\n" + rest;
    LineSafeTail(line, marker, 1);
    FindAllLine(line[1..], rest, marker, cap);
  }

  /** A match at the start of the line: both sides capture it and move past it. */
  lemma {:induction false} FindAllLineTake(line: string, rest: string, marker: string, cap: Capture)
    requires IsMarker(marker) && '\n' !in line && line != []
    requires LineSafe(line, marker)
    requires MatchAt(line + "\n" + rest, marker, cap) == MatchAt(line, marker, cap) != None
    ensures FindAll(line + "\n" + rest, marker, cap) == FindAll(line, marker, cap) + FindAll(rest, marker, cap)
    decreases |line|, 0
  {
    var s := line + "\n" + rest;
    var (a, b) := MatchAt(line, marker, cap).value;
    LineSlices(line, rest, a, b);
    LineSafeTail(line, marker, b);
    FindAllLine(line[b..], rest, marker, cap);
    FindAllMatched(s, line, a, b, marker, cap, FindAll(rest, marker, cap));
  }

  /** Slices of a line followed by a newline and more text, within the line. */
  lemma LineSlices(line: string, rest: string, a: nat, b: nat)
    requires a <= b <= |line|
    ensures (line + "\n" + rest)[a..b] == line[a..b]
    ensures (line + "\n" + rest)[b..] == line[b..] + "\n" + rest
  {
  }

  lemma FindAllMatched(s: string, line: string, a: nat, b: nat, marker: string, cap: Capture, tail: seq<string>)
    requires marker != [] && s != [] && line != []
    requires MatchAt(s, marker, cap) == MatchAt(line, marker, cap) == Some((a, b))
    requires a <= b <= |line| <= |s| && s[a..b] == line[a..b]
    requires FindAll(s[b..], marker, cap) == FindAll(line[b..], marker, cap) + tail
    ensures FindAll(s, marker, cap) == FindAll(line, marker, cap) + tail
  {
    FindAllUnfold(s, a, b, marker, cap);
    FindAllUnfold(line, a, b, marker, cap);
    AppendAssoc([line[a..b]], FindAll(line[b..], marker, cap), tail);
  }

  /** findall's step after a match. */
  lemma FindAllUnfold(t: string, a: nat, b: nat, marker: string, cap: Capture)
    requires marker != [] && t != []
    requires MatchAt(t, marker, cap) == Some((a, b))
    ensures FindAll(t, marker, cap) == [t[a..b]] + FindAll(t[b..], marker, cap)
  {
  }

  lemma AppendAssoc<T>(x: seq<T>, y: seq<T>, z: seq<T>)
    ensures x + y + z == x + (y + z)
  {
  }

  /** A text in which the marker never occurs has no matches. */
  lemma {:induction false} FindAllAbsent(t: string, marker: string, cap: Capture)
    requires marker != []
    requires forall k :: 0 <= k <= |t| ==> !StartsWith(t[k..], marker)
    ensures FindAll(t, marker, cap) == []
    decreases |t|
  {
    if t != [] {
      assert t[0..] == t;
      forall k | 0 <= k <= |t[1..]| ensures !StartsWith(t[1..][k..], marker) {
        assert t[1..][k..] == t[1 + k..];
      }
      FindAllAbsent(t[1..], marker, cap);
    }
  }

  /** A marker can only occur where its closing ':' falls on a ':' of the text. */
  lemma OccurrenceNeedsColon(t: string, marker: string, k: nat)
    requires IsMarker(marker) && k <= |t|
    requires StartsWith(t[k..], marker)
    ensures k + |marker| <= |t| && t[k + |marker| - 1] == ':'
  {
    assert t[k..][|marker| - 1] == marker[|marker| - 1];
  }

  // ---------------------------------------------------------------------
  // What `repo info` prints for each project, and scraping it back
  // ---------------------------------------------------------------------

  /** One project as `repo info` reports it. */
  datatype ProjectInfo = ProjectInfo(name: string, mountPath: string, revision: string)

  /** A value printed after a marker: one line, no ':', starting with a non-space. */
  predicate Printable(v: string) {
    v != [] && !IsSpace(v[0]) && '\n' !in v && ':' !in v
  }

  /** A project whose report scrapes back: printable values, and a revision without whitespace. */
  predicate Reportable(p: ProjectInfo) {
    && Printable(p.name) && Printable(p.mountPath) && Printable(p.revision)
    && forall k :: 0 <= k < |p.revision| ==> !IsSpace(p.revision[k])
  }

  /** A report line: the marker, one space, the value. */
  function Line(marker: string, v: string): (line: string)
    ensures |line| == |marker| + 1 + |v|
  {
    marker + " " + v
  }

  /** The three lines of one project, each ending in a newline. */
  function Block(p: ProjectInfo): string {
    Line(ProjectMarker, p.name) + "\n" + Line(MountMarker, p.mountPath) + "\n" + Line(RevisionMarker, p.revision) + "\n"
  }

  /** The `repo info` text for the projects, in order. */
  function Render(ps: seq<ProjectInfo>): string {
    if ps == [] then "" else Block(ps[0]) + Render(ps[1..])
  }

  function Names(ps: seq<ProjectInfo>): (r: seq<string>)
    ensures |r| == |ps| && forall i :: 0 <= i < |ps| ==> r[i] == ps[i].name
  {
    if ps == [] then [] else [ps[0].name] + Names(ps[1..])
  }

  function MountPaths(ps: seq<ProjectInfo>): (r: seq<string>)
    ensures |r| == |ps| && forall i :: 0 <= i < |ps| ==> r[i] == ps[i].mountPath
  {
    if ps == [] then [] else [ps[0].mountPath] + MountPaths(ps[1..])
  }

  function Revisions(ps: seq<ProjectInfo>): (r: seq<string>)
    ensures |r| == |ps| && forall i :: 0 <= i < |ps| ==> r[i] == ps[i].revision
  {
    if ps == [] then [] else [ps[0].revision] + Revisions(ps[1..])
  }

  /** marker is a suffix of other: the only way it could occur in a line of other. */
  predicate IsSuffix(marker: string, other: string) {
    |marker| <= |other| && other[|other| - |marker|..] == marker
  }

  lemma SpaceEndAt(s: string, i: nat, j: nat)
    requires i <= j < |s|
    requires forall k :: i <= k < j ==> IsSpace(s[k])
    requires !IsSpace(s[j])
    ensures SpaceEnd(s, i) == j
    decreases j - i
  {
    if i < j {
      SpaceEndAt(s, i + 1, j);
    }
  }

  lemma LineEndAll(s: string, i: nat)
    requires i <= |s|
    requires forall k :: i <= k < |s| ==> s[k] != '\n'
    ensures LineEnd(s, i) == |s|
    decreases |s| - i
  {
    if i < |s| {
      LineEndAll(s, i + 1);
    }
  }

  lemma TokenEndAll(s: string, i: nat)
    requires i <= |s|
    requires forall k :: i <= k < |s| ==> !IsSpace(s[k])
    ensures TokenEnd(s, i) == |s|
    decreases |s| - i
  {
    if i < |s| {
      TokenEndAll(s, i + 1);
    }
  }

  /** In a line, a marker can only occur so that its ':' falls on the line's own. */
  lemma LineOccurrence(marker: string, own: string, v: string, k: nat)
    requires IsMarker(marker) && IsMarker(own) && ':' !in v
    requires k <= |Line(own, v)| && StartsWith(Line(own, v)[k..], marker)
    ensures k + |marker| == |own| && own[k..] == marker
  {
    var line := Line(own, v);
    OccurrenceNeedsColon(line, marker, k);
    var c := k + |marker| - 1;
    if c < |own| {
      assert line[c] == own[c];
    }
    assert line[k..][..|marker|] == line[k..k + |marker|] == own[k..];
  }

  /** A marker that is not a suffix of the line's own marker never occurs in it. */
  lemma LineSafeOther(marker: string, own: string, v: string)
    requires IsMarker(marker) && IsMarker(own) && ':' !in v
    requires !IsSuffix(marker, own)
    ensures forall k :: 0 <= k <= |Line(own, v)| ==> !StartsWith(Line(own, v)[k..], marker)
  {
    forall k | 0 <= k <= |Line(own, v)| ensures !StartsWith(Line(own, v)[k..], marker) {
      if StartsWith(Line(own, v)[k..], marker) {
        LineOccurrence(marker, own, v, k);
      }
    }
  }

  /** A line's own marker occurs only at its start, followed by the value. */
  lemma LineSafeOwn(marker: string, v: string)
    requires IsMarker(marker) && Printable(v)
    ensures LineSafe(Line(marker, v), marker)
    ensures SpaceEnd(Line(marker, v), |marker|) == |marker| + 1
  {
    var line := Line(marker, v);
    assert line[|marker|] == ' ' && line[|marker| + 1] == v[0];
    SpaceEndAt(line, |marker|, |marker| + 1);
    forall k | 0 <= k <= |line| && StartsWith(line[k..], marker)
      ensures SpaceEnd(line[k..], |marker|) < |line| - k
    {
      LineOccurrence(marker, marker, v, k);
      assert line[k..] == line;
    }
  }

  /** findall over a marker's own line finds its value. */
  lemma FindAllOwnLine(marker: string, v: string, cap: Capture)
    requires IsMarker(marker) && Printable(v)
    requires cap == Token ==> forall k :: 0 <= k < |v| ==> !IsSpace(v[k])
    ensures FindAll(Line(marker, v), marker, cap) == [v]
  {
    var line := Line(marker, v);
    LineSafeOwn(marker, v);
    assert line[..|marker|] == marker;
    var q := |marker| + 1;
    assert forall k :: q <= k < |line| ==> line[k] == v[k - q];
    match cap {
      case RestOfLine => LineEndAll(line, q);
      case Token => TokenEndAll(line, q);
    }
    assert MatchAt(line, marker, cap) == Some((q, |line|));
    assert line[q..|line|] == v;
    FindAllUnfold(line, q, |line|, marker, cap);
    assert line[|line|..] == [];
  }

  /** findall over a line of another marker finds nothing. */
  lemma FindAllOtherLine(marker: string, own: string, v: string, cap: Capture)
    requires IsMarker(marker) && IsMarker(own) && ':' !in v
    requires !IsSuffix(marker, own)
    ensures LineSafe(Line(own, v), marker)
    ensures FindAll(Line(own, v), marker, cap) == []
  {
    var line := Line(own, v);
    LineSafeOther(marker, own, v);
    FindAllAbsent(line, marker, cap);
  }

  lemma MarkersDistinct()
    ensures IsMarker(ProjectMarker) && IsMarker(MountMarker) && IsMarker(RevisionMarker)
    ensures !IsSuffix(ProjectMarker, MountMarker) && !IsSuffix(ProjectMarker, RevisionMarker)
    ensures !IsSuffix(MountMarker, ProjectMarker) && !IsSuffix(MountMarker, RevisionMarker)
    ensures !IsSuffix(RevisionMarker, ProjectMarker) && !IsSuffix(RevisionMarker, MountMarker)
  {
    assert MountMarker[3] != ProjectMarker[0];
    assert RevisionMarker[9] != ProjectMarker[0];
    assert RevisionMarker[6] != MountMarker[0];
  }

  /** findall over three lines, each ending in a newline, and the text after them. */
  lemma FindAllThreeLines(l1: string, l2: string, l3: string, rest: string, marker: string, cap: Capture)
    requires IsMarker(marker) && '\n' !in l1 && '\n' !in l2 && '\n' !in l3
    requires LineSafe(l1, marker) && LineSafe(l2, marker) && LineSafe(l3, marker)
    ensures FindAll(l1 + "\n" + l2 + "\n" + l3 + "\n" + rest, marker, cap)
         == FindAll(l1, marker, cap) + FindAll(l2, marker, cap) + FindAll(l3, marker, cap) + FindAll(rest, marker, cap)
  {
    var r3 := l3 + "\n" + rest;
    var r2 := l2 + "\n" + r3;
    assert l1 + "\n" + l2 + "\n" + l3 + "\n" + rest == l1 + "\n" + r2;
    FindAllLine(l3, rest, marker, cap);
    FindAllLine(l2, r3, marker, cap);
    FindAllLine(l1, r2, marker, cap);
    var f1, f2, f3, f4 := FindAll(l1, marker, cap), FindAll(l2, marker, cap), FindAll(l3, marker, cap), FindAll(rest, marker, cap);
    AppendAssoc(f2, f3, f4);
    AppendAssoc(f1, f2 + f3, f4);
    AppendAssoc(f1, f2, f3);
  }

  /** The lines of a reportable project carry no newline. */
  lemma LinesOfBlock(p: ProjectInfo, rest: string)
    requires Reportable(p)
    ensures Block(p) + rest == Line(ProjectMarker, p.name) + "\n" + Line(MountMarker, p.mountPath) + "\n"
                               + Line(RevisionMarker, p.revision) + "\n" + rest
    ensures '\n' !in Line(ProjectMarker, p.name) && '\n' !in Line(MountMarker, p.mountPath)
    ensures '\n' !in Line(RevisionMarker, p.revision)
  {
  }

  /**
   * findall over one block, given what it finds on each of the block's
   * lines: those findings, then the rest's.
   */
  lemma FindAllBlock(p: ProjectInfo, rest: string, marker: string, cap: Capture, f1: seq<string>, f2: seq<string>, f3: seq<string>)
    requires Reportable(p) && IsMarker(marker)
    requires LineSafe(Line(ProjectMarker, p.name), marker) && FindAll(Line(ProjectMarker, p.name), marker, cap) == f1
    requires LineSafe(Line(MountMarker, p.mountPath), marker) && FindAll(Line(MountMarker, p.mountPath), marker, cap) == f2
    requires LineSafe(Line(RevisionMarker, p.revision), marker) && FindAll(Line(RevisionMarker, p.revision), marker, cap) == f3
    ensures FindAll(Block(p) + rest, marker, cap) == f1 + f2 + f3 + FindAll(rest, marker, cap)
  {
    LinesOfBlock(p, rest);
    FindAllThreeLines(Line(ProjectMarker, p.name), Line(MountMarker, p.mountPath), Line(RevisionMarker, p.revision),
                      rest, marker, cap);
  }

  /** findall of the project pattern over one block: the block's name, then the rest's. */
  lemma FindAllBlockName(p: ProjectInfo, rest: string)
    requires Reportable(p)
    ensures FindAll(Block(p) + rest, ProjectMarker, RestOfLine) == [p.name] + FindAll(rest, ProjectMarker, RestOfLine)
  {
    MarkersDistinct();
    FindAllOwnLine(ProjectMarker, p.name, RestOfLine);
    LineSafeOwn(ProjectMarker, p.name);
    FindAllOtherLine(ProjectMarker, MountMarker, p.mountPath, RestOfLine);
    FindAllOtherLine(ProjectMarker, RevisionMarker, p.revision, RestOfLine);
    FindAllBlock(p, rest, ProjectMarker, RestOfLine, [p.name], [], []);
    assert [p.name] + [] + [] == [p.name];
  }

  /** findall of the mount path pattern over one block: the block's mount path, then the rest's. */
  lemma FindAllBlockMountPath(p: ProjectInfo, rest: string)
    requires Reportable(p)
    ensures FindAll(Block(p) + rest, MountMarker, RestOfLine) == [p.mountPath] + FindAll(rest, MountMarker, RestOfLine)
  {
    MarkersDistinct();
    FindAllOtherLine(MountMarker, ProjectMarker, p.name, RestOfLine);
    FindAllOwnLine(MountMarker, p.mountPath, RestOfLine);
    LineSafeOwn(MountMarker, p.mountPath);
    FindAllOtherLine(MountMarker, RevisionMarker, p.revision, RestOfLine);
    FindAllBlock(p, rest, MountMarker, RestOfLine, [], [p.mountPath], []);
    assert [] + [p.mountPath] + [] == [p.mountPath];
  }

  /** findall of the revision pattern over one block: the block's revision, then the rest's. */
  lemma FindAllBlockRevision(p: ProjectInfo, rest: string)
    requires Reportable(p)
    ensures FindAll(Block(p) + rest, RevisionMarker, Token) == [p.revision] + FindAll(rest, RevisionMarker, Token)
  {
    MarkersDistinct();
    FindAllOtherLine(RevisionMarker, ProjectMarker, p.name, Token);
    FindAllOtherLine(RevisionMarker, MountMarker, p.mountPath, Token);
    FindAllOwnLine(RevisionMarker, p.revision, Token);
    LineSafeOwn(RevisionMarker, p.revision);
    FindAllBlock(p, rest, RevisionMarker, Token, [], [], [p.revision]);
    assert [] + [] + [p.revision] == [p.revision];
  }

  /**
   * Scraping the report of well-formed projects gives back their names,
   * mount paths and revisions, in order.
   */
  lemma {:induction false} ScrapeRender(ps: seq<ProjectInfo>)
    requires forall i :: 0 <= i < |ps| ==> Reportable(ps[i])
    ensures Scrape(Render(ps)) == Scraped(Names(ps), MountPaths(ps), Revisions(ps))
  {
    if ps != [] {
      ScrapeRender(ps[1..]);
      var rest := Render(ps[1..]);
      assert Render(ps) == Block(ps[0]) + rest;
      FindAllBlockName(ps[0], rest);
      FindAllBlockMountPath(ps[0], rest);
      FindAllBlockRevision(ps[0], rest);
    }
  }

  // ---------------------------------------------------------------------
  // The ANSI colour sequences `\x1b\[[0-9;]*m`
  // ---------------------------------------------------------------------

  predicate IsSgrParameter(c: char) {
    IsDigit(c) || c == ';'
  }

  /** The end of the run of parameter characters `[0-9;]*` starting at i. */
  function ParameterEnd(t: string, i: nat): (j: nat)
    requires i <= |t|
    ensures i <= j <= |t|
    ensures forall k :: i <= k < j ==> IsSgrParameter(t[k])
    ensures j < |t| ==> !IsSgrParameter(t[j])
    decreases |t| - i
  {
    if i < |t| && IsSgrParameter(t[i]) then ParameterEnd(t, i + 1) else i
  }

  /** The length of the colour sequence at the start of t, if one starts there. */
  function SgrLength(t: string): (n: Option<nat>)
    ensures n.Some? ==> 3 <= n.value <= |t| && t[0] == '\U{1b}' && t[1] == '[' && t[n.value - 1] == 'm'
  {
    if |t| >= 2 && t[0] == '\U{1b}' && t[1] == '[' then
      var j := ParameterEnd(t, 2);
      if j < |t| && t[j] == 'm' then Some(j + 1) else None
    else None
  }

  /** re.sub(`\x1b\[[0-9;]*m`, '', t): every colour sequence found scanning left to right removed, once. */
  function StripAnsi(t: string): (r: string)
    ensures |r| <= |t|
    decreases |t|
  {
    if t == [] then []
    else match SgrLength(t)
      case Some(n) => StripAnsi(t[n..])
      case None => [t[0]] + StripAnsi(t[1..])
  }

  /** Text without an escape character is left as it is. */
  lemma StripAnsiPlain(t: string)
    requires '\U{1b}' !in t
    ensures StripAnsi(t) == t
  {
    StripAnsiPlainPrefix(t, []);
    assert t + [] == t;
  }

  /** A colour sequence with the given parameters. */
  function Sgr(parameters: string): (s: string)
    requires forall k :: 0 <= k < |parameters| ==> IsSgrParameter(parameters[k])
    ensures |s| == |parameters| + 3
  {
    "\U{1b}[" + parameters + "m"
  }

  /** A colour sequence in front of the text is removed. */
  lemma StripAnsiSgr(parameters: string, t: string)
    requires forall k :: 0 <= k < |parameters| ==> IsSgrParameter(parameters[k])
    ensures StripAnsi(Sgr(parameters) + t) == StripAnsi(t)
  {
    var s := Sgr(parameters) + t;
    var e := |parameters| + 2;
    assert forall k :: 2 <= k < e ==> s[k] == parameters[k - 2];
    assert s[e] == 'm';
    ParameterEndAt(s, 2, e);
    assert s[e + 1..] == t;
  }

  lemma ParameterEndAt(t: string, i: nat, j: nat)
    requires i <= j < |t|
    requires forall k :: i <= k < j ==> IsSgrParameter(t[k])
    requires !IsSgrParameter(t[j])
    ensures ParameterEnd(t, i) == j
    decreases j - i
  {
    if i < j {
      ParameterEndAt(t, i + 1, j);
    }
  }

  /** A coloured value, `ESC[..m value ESC[..m` with an escape-free value, comes out as the plain value. */
  lemma StripAnsiColoured(on: string, value: string, off: string)
    requires forall k :: 0 <= k < |on| ==> IsSgrParameter(on[k])
    requires forall k :: 0 <= k < |off| ==> IsSgrParameter(off[k])
    requires '\U{1b}' !in value
    ensures StripAnsi(Sgr(on) + value + Sgr(off)) == value
  {
    assert Sgr(on) + value + Sgr(off) == Sgr(on) + (value + Sgr(off));
    StripAnsiSgr(on, value + Sgr(off));
    StripAnsiPlainPrefix(value, Sgr(off));
    StripAnsiSgr(off, []);
    assert Sgr(off) + [] == Sgr(off);
    assert value + [] == value;
  }

  /** Escape-free text in front is kept as it is. */
  lemma {:induction false} StripAnsiPlainPrefix(plain: string, t: string)
    requires '\U{1b}' !in plain
    ensures StripAnsi(plain + t) == plain + StripAnsi(t)
    decreases |plain|
  {
    if plain == [] {
      assert plain + t == t;
    } else {
      var s := plain + t;
      assert s[0] == plain[0] != '\U{1b}';
      assert SgrLength(s).None?;
      assert s[1..] == plain[1..] + t;
      assert StripAnsi(s) == [plain[0]] + StripAnsi(plain[1..] + t);
      StripAnsiPlainPrefix(plain[1..], t);
      assert plain == [plain[0]] + plain[1..];
    }
  }

  /** One pass is not enough: removing a sequence can join the text around it into a new one. */
  lemma StripAnsiNotIdempotent()
    ensures StripAnsi("\U{1b}\U{1b}[m[m") == "\U{1b}[m"
    ensures StripAnsi("\U{1b}[m") == ""
  {
    var inner := "\U{1b}[m";
    var outer := "\U{1b}\U{1b}[m[m";
    assert SgrLength(inner) == Some(3) by {
      assert ParameterEnd(inner, 2) == 2;
    }
    assert inner[3..] == [];
    assert SgrLength(outer) == None;
    assert outer[1..] == inner + "[m";
    StripAnsiSgr("", "[m");
    StripAnsiPlainPrefix("[m", []);
    assert "[m" + [] == "[m";
  }
}

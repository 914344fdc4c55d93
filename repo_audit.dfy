/**
 * The audit of a repo checkout (class RepoAudit): scanning the workspace's
 * `repo info` report and each project's git HEAD, persisting the record as
 * a mapping, and the one-line status.
 */
module RepoAudit {
  import opened Wrappers
  import opened PyText
  import opened Process
  import opened RepoInfo

  // ---------------------------------------------------------------------
  // What a scan finds
  // ---------------------------------------------------------------------

  /**
   * The BuildError _scanDir raises, by the handler that raised it: a failed
   * `repo info`, a `repo` that could not be run, or any other exception
   * (the parse failure and the git failures included), re-wrapped.
   */
  datatype ScanError = RepoAuditFailed(detail: string) | RepoNotCallable(detail: string) | Unexpected(detail: string)

  /** The slogan of the BuildError. */
  function ErrorMessage(e: ScanError): string {
    match e
    case RepoAuditFailed(d) => "Repo audit failed: " + d
    case RepoNotCallable(d) => "Error calling repo: " + d
    case Unexpected(d) => "Unexpected error during repo scan: " + d
  }

  const ParseFailure := "Failed to parse necessary information from repo info."

  /** Why a HEAD query failed: git exited non-zero, or could not be run. */
  datatype GitError = GitExit(message: string) | GitNotCallable(message: string)

  /** The failure of a HEAD query that did not complete. */
  function GitErrorOf(run: Run): (e: GitError)
    requires !run.Completed?
    ensures e.message == run.message
    ensures e.GitExit? <==> run.CalledProcessError?
  {
    if run.CalledProcessError? then GitExit(run.message) else GitNotCallable(run.message)
  }

  /** The message of the BuildError a failed HEAD query raises inside the loop. */
  function GitFailure(project: string, e: GitError): string {
    match e
    case GitExit(m) => "Failed to get git HEAD for project " + project + ": " + m
    case GitNotCallable(m) => "Error calling git for project " + project + ": " + m
  }

  /** The list comprehension that removes colour from every entry. */
  function StripAnsiAll(xs: seq<string>): (r: seq<string>)
    ensures |r| == |xs| && forall i :: 0 <= i < |xs| ==> r[i] == StripAnsi(xs[i])
  {
    if xs == [] then [] else [StripAnsi(xs[0])] + StripAnsiAll(xs[1..])
  }

  /** Every entry stripped of surrounding whitespace. */
  function StripAll(xs: seq<string>): (r: seq<string>)
    ensures |r| == |xs| && forall i :: 0 <= i < |xs| ==> r[i] == Strip(xs[i])
  {
    if xs == [] then [] else [Strip(xs[0])] + StripAll(xs[1..])
  }

  /**
   * The lists as the loop uses them: mount paths and revisions without
   * colour and stripped; project names as scraped, since the git failure
   * message quotes them unstripped.  The source strips a mount path or a
   * revision where it uses it (the cwd, the revision compared, the last
   * entries kept); the model strips each one once, here, which gives the
   * same values.
   */
  function Cleaned(raw: Scraped): Scraped {
    Scraped(raw.projects, StripAll(StripAnsiAll(raw.mountPaths)), StripAll(StripAnsiAll(raw.revisions)))
  }

  /** Every scraped list has an entry: the scan's parse check. */
  predicate Parsed(raw: Scraped) {
    raw.projects != [] && raw.mountPaths != [] && raw.revisions != []
  }

  function Min(a: nat, b: nat): nat {
    if a <= b then a else b
  }

  /** How many triples zip() yields: the length of the shortest list. */
  function ZipLength(s: Scraped): (n: nat)
    ensures n <= |s.projects| && n <= |s.mountPaths| && n <= |s.revisions|
    ensures n == |s.projects| || n == |s.mountPaths| || n == |s.revisions|
  {
    Min(Min(|s.projects|, |s.mountPaths|), |s.revisions|)
  }

  /** What one project's HEAD query tells the scan. */
  datatype Verdict = Agrees | Differs | Failed(error: GitError)

  /** The HEAD query's outcome against the project's (stripped) current revision. */
  function Check(run: Run, revision: string): (v: Verdict)
    ensures v.Failed? <==> !run.Completed?
    ensures v.Failed? ==> v.error == GitErrorOf(run)
    ensures v == Agrees <==> run.Completed? && Strip(run.output) == revision
  {
    if !run.Completed? then Failed(GitErrorOf(run))
    else if Strip(run.output) == revision then Agrees
    else Differs
  }

  /** The verdict on every zipped triple, in order: what the HEAD query in its directory would tell. */
  function Verdicts(s: Scraped, git: string -> Run): (v: seq<Verdict>)
    ensures |v| == ZipLength(s)
    ensures forall i :: 0 <= i < |v| ==> v[i] == Check(git(s.mountPaths[i]), s.revisions[i])
  {
    seq(ZipLength(s), i requires 0 <= i < ZipLength(s) => Check(git(s.mountPaths[i]), s.revisions[i]))
  }

  /** Where the walk over the triples stops. */
  datatype WalkEnd = Clean | Mismatch(index: nat) | GitFailed(index: nat, error: GitError)

  /** The walk went past the j-th query. */
  predicate Passes(w: WalkEnd, j: nat) {
    w.Clean? || j < w.index
  }

  /**
   * The loop over the zipped triples from the i-th on: each HEAD query in
   * turn, stopping at the first one that fails or disagrees.
   */
  function Walk(v: seq<Verdict>, i: nat): (w: WalkEnd)
    requires i <= |v|
    ensures !w.Clean? ==> i <= w.index < |v|
    decreases |v| - i
  {
    if i == |v| then Clean
    else
      match v[i]
      case Failed(e) => GitFailed(i, e)
      case Differs => Mismatch(i)
      case Agrees => Walk(v, i + 1)
  }

  /** The walk stops at a verdict that disagrees or failed. */
  lemma {:induction false} WalkStopped(v: seq<Verdict>, i: nat)
    requires i <= |v|
    ensures Walk(v, i).Mismatch? ==> v[Walk(v, i).index] == Differs
    ensures Walk(v, i).GitFailed? ==> v[Walk(v, i).index] == Failed(Walk(v, i).error)
    decreases |v| - i
  {
    if i < |v| && v[i] == Agrees {
      WalkStopped(v, i + 1);
    }
  }

  /** A failed verdict with no disagreement before it ends the walk in a failure. */
  lemma {:induction false} WalkFindsFailure(v: seq<Verdict>, i: nat, k: nat)
    requires i <= k < |v| && v[k].Failed?
    requires forall j :: i <= j < k ==> v[j] != Differs
    ensures Walk(v, i).GitFailed?
    decreases k - i
  {
    if v[i] == Agrees {
      WalkFindsFailure(v, i + 1, k);
    }
  }

  /** Every query before the one the walk stops at (all of them, when it runs clean) agrees. */
  lemma {:induction false} WalkPassed(v: seq<Verdict>, i: nat, j: nat)
    requires i <= j < |v| && Passes(Walk(v, i), j)
    ensures v[j] == Agrees
    decreases j - i
  {
    if i < j {
      assert Walk(v, i) == Walk(v, i + 1);
      WalkPassed(v, i + 1, j);
    }
  }

  /** The walk stops at the first mismatch or failure, whatever the verdicts after it. */
  lemma {:induction false} WalkStopsAt(v: seq<Verdict>, u: seq<Verdict>, i: nat)
    requires i <= |v| == |u| && !Walk(v, i).Clean?
    requires forall j :: i <= j <= Walk(v, i).index ==> u[j] == v[j]
    ensures Walk(u, i) == Walk(v, i)
    decreases |v| - i
  {
    if v[i] == Agrees {
      WalkStopsAt(v, u, i + 1);
    }
  }

  /** The fields a successful scan sets besides `dir`. */
  datatype Scanned = Scanned(dirty: bool, url: string, repoRoot: string, revision: string)

  /** The last entries of the lists: what the record keeps whatever the walk found. */
  function LastEntries(s: Scraped, dirty: bool): Scanned
    requires Parsed(s)
  {
    Scanned(dirty, Strip(s.projects[|s.projects| - 1]), s.mountPaths[|s.mountPaths| - 1], s.revisions[|s.revisions| - 1])
  }

  /** The scan of the cleaned lists: the walk over the HEAD queries, then the last entries. */
  function ListsOutcome(s: Scraped, git: string -> Run): Result<Scanned, ScanError>
    requires Parsed(s)
  {
    ListsOutcomeOf(s, Walk(Verdicts(s, git), 0))
  }

  /** The outcome once the walk has ended as `w`. */
  function ListsOutcomeOf(s: Scraped, w: WalkEnd): Result<Scanned, ScanError>
    requires Parsed(s) && (!w.Clean? ==> w.index < ZipLength(s))
  {
    match w
    case GitFailed(k, e) => Failure(Unexpected(GitFailure(s.projects[k], e)))
    case Mismatch(_) => Success(LastEntries(s, true))
    case Clean => Success(LastEntries(s, false))
  }

  /** The scan of a report once `repo info` has run: the scanned fields, or the BuildError raised. */
  function ScanReport(raw: Scraped, git: string -> Run): Result<Scanned, ScanError> {
    if !Parsed(raw) then Failure(Unexpected(ParseFailure)) else ListsOutcome(Cleaned(raw), git)
  }

  /**
   * _scanDir, given what `repo info` and each HEAD query return: the scanned
   * fields, or the BuildError it raises.
   */
  function ScanResult(info: Run, git: string -> Run): Result<Scanned, ScanError> {
    match info
    case CalledProcessError(_, m) => Failure(RepoAuditFailed(m))
    case OSError(m) => Failure(RepoNotCallable(m))
    case Completed(text) => ScanReport(Scrape(text), git)
  }

  /** The directories of the first k HEAD queries. */
  function Dirs(s: Scraped, k: nat): (r: seq<string>)
    requires k <= |s.mountPaths|
    ensures |r| == k && forall j :: 0 <= j < k ==> r[j] == s.mountPaths[j]
  {
    if k == 0 then [] else Dirs(s, k - 1) + [s.mountPaths[k - 1]]
  }

  /** The directories git is run in for the cleaned lists, in order: up to and including the query the walk stops at. */
  function ListsQueries(s: Scraped, git: string -> Run): seq<string> {
    match Walk(Verdicts(s, git), 0)
    case Clean => Dirs(s, ZipLength(s))
    case Mismatch(k) => Dirs(s, k + 1)
    case GitFailed(k, _) => Dirs(s, k + 1)
  }

  /** The directories git is run in for a report. */
  function ReportQueries(raw: Scraped, git: string -> Run): seq<string> {
    if !Parsed(raw) then [] else ListsQueries(Cleaned(raw), git)
  }

  /** `repo info` ran and its report holds every one of the three lists. */
  predicate ReportParses(info: Run) {
    info.Completed? && Parsed(Scrape(info.output))
  }

  /**
   * The fields a scan leaves, given the fields before it: the scanned ones
   * when it succeeds; otherwise the ones before, with `dirty` reset when the
   * report had parsed before the failure.
   */
  function ScanFields(before: Scanned, info: Run, git: string -> Run): (after: Scanned)
    ensures ScanResult(info, git).Success? ==> after == ScanResult(info, git).value
    ensures ScanResult(info, git).Failure? ==>
              after.url == before.url && after.repoRoot == before.repoRoot && after.revision == before.revision
    ensures ScanResult(info, git).Failure? ==> (after.dirty <==> before.dirty && !ReportParses(info))
  {
    match ScanResult(info, git)
    case Success(o) => o
    case Failure(_) => before.(dirty := if ReportParses(info) then false else before.dirty)
  }

  /** The BuildError a scan raises, if any. */
  function ScanFailure(info: Run, git: string -> Run): (err: Option<ScanError>)
    ensures err.None? <==> ScanResult(info, git).Success?
    ensures err.Some? ==> ScanResult(info, git) == Failure(err.value)
  {
    match ScanResult(info, git)
    case Success(_) => None
    case Failure(e) => Some(e)
  }

  /** The directories git is run in by a scan. */
  function QueriedDirs(info: Run, git: string -> Run): seq<string> {
    if info.Completed? then ReportQueries(Scrape(info.output), git) else []
  }

  /**
   * The loop of the scan: the HEAD query in each zipped triple's directory
   * in turn, until one fails or disagrees with the current revision.
   */
  method CompareHeads(s: Scraped, git: string -> Run) returns (w: WalkEnd, queried: seq<string>)
    ensures w == Walk(Verdicts(s, git), 0)
    ensures queried == Dirs(s, if w.Clean? then ZipLength(s) else w.index + 1)
  {
    var n := ZipLength(s);
    ghost var v := Verdicts(s, git);
    queried := [];
    var i := 0;
    while i < n
      invariant 0 <= i <= n
      invariant Walk(v, 0) == Walk(v, i)
      invariant queried == Dirs(s, i)
      decreases n - i
    {
      var cwd := s.mountPaths[i];
      queried := queried + [cwd];
      var run := git(cwd);
      assert v[i] == Check(run, s.revisions[i]);
      if !run.Completed? {
        return GitFailed(i, GitErrorOf(run)), queried;
      }
      var head := Strip(run.output);
      if head != s.revisions[i] {
        return Mismatch(i), queried;
      }
      i := i + 1;
    }
    return Clean, queried;
  }

  /** The scan of the cleaned lists: the loop over the HEAD queries, then the last entries the record keeps. */
  method ScanLists(s: Scraped, git: string -> Run) returns (r: Result<Scanned, ScanError>, queried: seq<string>)
    requires Parsed(s)
    ensures r == ListsOutcome(s, git)
    ensures queried == ListsQueries(s, git)
  {
    var w;
    w, queried := CompareHeads(s, git);
    r := ListsOutcomeOf(s, w);
  }

  /** The scan once `repo info` has run, from the fields before it to the fields after it. */
  method ScanInfo(before: Scanned, info: Run, git: string -> Run) returns (after: Scanned, err: Option<ScanError>, queried: seq<string>)
    ensures after == ScanFields(before, info, git)
    ensures err == ScanFailure(info, git)
    ensures queried == QueriedDirs(info, git)
  {
    var r;
    match info
    case CalledProcessError(_, m) =>
      return before, Some(RepoAuditFailed(m)), [];
    case OSError(m) =>
      return before, Some(RepoNotCallable(m)), [];
    case Completed(text) =>
      var raw := Scrape(text);
      if raw.projects == [] || raw.mountPaths == [] || raw.revisions == [] {
        return before, Some(Unexpected(ParseFailure)), [];
      }
      r, queried := ScanLists(Cleaned(raw), git);
      match r {
        case Success(o) =>
          return o, None, queried;
        case Failure(e) =>
          return before.(dirty := false), Some(e), queried;
      }
  }

  // ---------------------------------------------------------------------
  // The persisted record
  // ---------------------------------------------------------------------

  /** The four fields the record persists: `repoRoot` is not among them. */
  datatype AuditRecord = AuditRecord(dir: string, url: string, revision: string, dirty: bool)

  /** A value in the persisted mapping. */
  datatype Value = VStr(s: string) | VBool(b: bool)

  const AuditKeys: set<string> := {"type", "dir", "url", "revision", "dirty"}

  /** RepoAudit.SCHEMA: exactly the five keys, `type` the literal "repo", `dirty` a bool and the rest str. */
  predicate MatchesAuditSchema(m: map<string, Value>) {
    && m.Keys == AuditKeys
    && m["type"] == VStr("repo")
    && m["dir"].VStr? && m["url"].VStr? && m["revision"].VStr?
    && m["dirty"].VBool?
  }

  /** dump(): the record as a mapping. */
  function DumpRecord(r: AuditRecord): map<string, Value> {
    map["type" := VStr("repo"), "dir" := VStr(r.dir), "url" := VStr(r.url), "revision" := VStr(r.revision),
        "dirty" := VBool(r.dirty)]
  }

  /** The keys _load reads. */
  const LoadKeys: set<string> := {"dir", "url", "revision", "dirty"}

  /** The values _load stores have the types of the fields they go to. */
  predicate WellTyped(m: map<string, Value>) {
    && ("dir" in m ==> m["dir"].VStr?)
    && ("url" in m ==> m["url"].VStr?)
    && ("revision" in m ==> m["revision"].VStr?)
    && ("dirty" in m ==> m["dirty"].VBool?)
  }

  /** The first key _load reads that the mapping lacks: the KeyError it raises. */
  function MissingKey(m: map<string, Value>): (k: Option<string>)
    ensures k.None? <==> LoadKeys <= m.Keys
    ensures k.Some? ==> k.value in LoadKeys && k.value !in m
  {
    if "dir" !in m then Some("dir")
    else if "url" !in m then Some("url")
    else if "revision" !in m then Some("revision")
    else if "dirty" !in m then Some("dirty")
    else None
  }

  /** _load(data) read as a whole: the record, or the key whose absence raises KeyError. */
  function LoadRecord(m: map<string, Value>): Result<AuditRecord, string>
    requires WellTyped(m)
  {
    match MissingKey(m)
    case Some(k) => Failure(k)
    case None => Success(AuditRecord(m["dir"].s, m["url"].s, m["revision"].s, m["dirty"].b))
  }

  /** getStatusLine(): `url@revision`, then "-dirty" when dirty. */
  function StatusLine(r: AuditRecord): string {
    r.url + "@" + r.revision + (if r.dirty then "-dirty" else "")
  }

  // ---------------------------------------------------------------------
  // The audit object
  // ---------------------------------------------------------------------

  class RepoAudit {
    var dir: string
    var url: string
    var repoRoot: string
    var revision: string
    var dirty: bool

    /** A fresh audit; the source leaves the fields unset until a scan or a load. */
    constructor ()
      ensures dir == "" && url == "" && repoRoot == "" && revision == "" && !dirty
    {
      dir := "";
      url := "";
      repoRoot := "";
      revision := "";
      dirty := false;
    }

    /** The fields dump() writes. */
    function Record(): AuditRecord
      reads this
    {
      AuditRecord(dir, url, revision, dirty)
    }

    /**
     * _scanDir(workspace, dir, extra): `info` is what `repo info` run in the
     * workspace returns and `git` what `git rev-parse HEAD` returns in a
     * directory.  `queried` lists the directories git is run in.  `dir` is
     * stored first and kept on failure; `dirty` is reset once the report
     * parsed; the other fields change only when the scan succeeds.
     */
    method ScanDir(dir: string, info: Run, git: string -> Run) returns (err: Option<ScanError>, queried: seq<string>)
      modifies this
      ensures this.dir == dir
      ensures queried == QueriedDirs(info, git)
      ensures Scanned(dirty, url, repoRoot, revision) == ScanFields(old(Scanned(dirty, url, repoRoot, revision)), info, git)
      ensures err == ScanFailure(info, git)
      ensures err.None? ==> Record() == ScanRecord(dir, ScanResult(info, git).value)
    {
      var after;
      after, err, queried := ScanInfo(Scanned(dirty, url, repoRoot, revision), info, git);
      Store(dir, after);
    }

    /** Sets `dir` and the scanned fields. */
    method Store(dir: string, after: Scanned)
      modifies this
      ensures this.dir == dir && Scanned(dirty, url, repoRoot, revision) == after
    {
      this.dir, dirty, url, repoRoot, revision := dir, after.dirty, after.url, after.repoRoot, after.revision;
    }

    /**
     * _load(data): the fields in the order dir, url, revision, dirty, each
     * assigned before the next key is read, so a missing key leaves the
     * fields before it loaded and the rest as they were.
     */
    method Load(data: map<string, Value>) returns (missing: Option<string>)
      requires WellTyped(data)
      modifies this
      ensures missing == MissingKey(data)
      ensures missing.None? ==> Record() == LoadRecord(data).value
      ensures dir == (if "dir" in data then data["dir"].s else old(dir))
      ensures url == (if "dir" in data && "url" in data then data["url"].s else old(url))
      ensures revision == (if "dir" in data && "url" in data && "revision" in data then data["revision"].s else old(revision))
      ensures dirty == (if missing.None? then data["dirty"].b else old(dirty))
      ensures repoRoot == old(repoRoot)
    {
      if "dir" !in data {
        return Some("dir");
      }
      dir := data["dir"].s;
      if "url" !in data {
        return Some("url");
      }
      url := data["url"].s;
      if "revision" !in data {
        return Some("revision");
      }
      revision := data["revision"].s;
      if "dirty" !in data {
        return Some("dirty");
      }
      dirty := data["dirty"].b;
      return None;
    }

    /** dump(). */
    function Dump(): (m: map<string, Value>)
      reads this
      ensures MatchesAuditSchema(m)
      ensures LoadRecord(m) == Success(Record())
    {
      DumpLoads(Record());
      DumpRecord(Record())
    }

    /** getStatusLine(). */
    function GetStatusLine(): (line: string)
      reads this
      ensures NoDirtySuffixInHead(Record()) ==> (HasDirtySuffix(line) <==> dirty)
    {
      StatusLine(Record())
    }
  }

  // ---------------------------------------------------------------------
  // What the scan promises
  // ---------------------------------------------------------------------

  /** A git failure's message is never the parse failure's. */
  lemma GitFailureIsNotParseFailure(project: string, e: GitError)
    ensures GitFailure(project, e) != ParseFailure
  {
    var msg := GitFailure(project, e);
    match e {
      case GitExit(m) =>
        assert msg == "Failed to get git HEAD for project " + project + ": " + m;
        assert msg[10] == 'g';
        assert ParseFailure[10] == 'p';
      case GitNotCallable(m) =>
        assert msg == "Error calling git for project " + project + ": " + m;
        assert msg[10] == 'i';
        assert ParseFailure[10] == 'p';
    }
  }

  /** The scan fails to parse exactly when `repo info` ran but one of the three lists came out empty. */
  lemma ScanParseFailure(info: Run, git: string -> Run)
    ensures ScanResult(info, git) == Failure(Unexpected(ParseFailure)) <==>
              info.Completed? && !Parsed(Scrape(info.output))
  {
    if info.Completed? && Parsed(Scrape(info.output)) {
      var s := Cleaned(Scrape(info.output));
      var w := Walk(Verdicts(s, git), 0);
      assert ScanResult(info, git) == ListsOutcome(s, git);
      if w.GitFailed? {
        GitFailureIsNotParseFailure(s.projects[w.index], w.error);
      }
    }
  }

  /** The i-th HEAD query succeeds and names another commit than the i-th current revision. */
  predicate HeadDiffers(s: Scraped, git: string -> Run, i: nat)
    requires i < |s.mountPaths| && i < |s.revisions|
  {
    var run := git(s.mountPaths[i]);
    run.Completed? && Strip(run.output) != s.revisions[i]
  }

  /** On the cleaned lists: the outcome is dirty exactly when some HEAD query differs. */
  lemma ListsDirtyIff(s: Scraped, git: string -> Run)
    requires Parsed(s) && ListsOutcome(s, git).Success?
    ensures ListsOutcome(s, git).value.dirty <==> exists i :: 0 <= i < ZipLength(s) && HeadDiffers(s, git, i)
  {
    var v := Verdicts(s, git);
    var w := Walk(v, 0);
    if w.Clean? {
      forall i | 0 <= i < ZipLength(s)
        ensures !HeadDiffers(s, git, i)
      {
        WalkPassed(v, 0, i);
        assert v[i] == Check(git(s.mountPaths[i]), s.revisions[i]);
      }
    } else {
      WalkStopped(v, 0);
      assert v[w.index] == Check(git(s.mountPaths[w.index]), s.revisions[w.index]);
      assert HeadDiffers(s, git, w.index);
    }
  }

  /**
   * A scan that succeeds is dirty exactly when some examined project's HEAD
   * differs from its current revision.
   */
  lemma ScanDirtyIff(info: Run, git: string -> Run)
    requires ScanResult(info, git).Success?
    ensures var s := Cleaned(Scrape(info.output));
            ScanResult(info, git).value.dirty <==> exists i :: 0 <= i < ZipLength(s) && HeadDiffers(s, git, i)
  {
    var s := Cleaned(Scrape(info.output));
    assert ScanResult(info, git) == ListsOutcome(s, git);
    ListsDirtyIff(s, git);
  }

  /** On the cleaned lists: the walk's stopping point decides everything, whatever git says after it. */
  lemma ListsStopAtFirstMismatch(s: Scraped, git: string -> Run, other: string -> Run)
    requires Parsed(s)
    requires var w := Walk(Verdicts(s, git), 0);
             !w.Clean? && forall j :: 0 <= j <= w.index ==> other(s.mountPaths[j]) == git(s.mountPaths[j])
    ensures ListsQueries(s, git) == Dirs(s, Walk(Verdicts(s, git), 0).index + 1)
    ensures ListsOutcome(s, other) == ListsOutcome(s, git)
    ensures ListsQueries(s, other) == ListsQueries(s, git)
  {
    var v := Verdicts(s, git);
    var u := Verdicts(s, other);
    forall j | 0 <= j <= Walk(v, 0).index
      ensures u[j] == v[j]
    {
      assert u[j] == Check(other(s.mountPaths[j]), s.revisions[j]);
      assert v[j] == Check(git(s.mountPaths[j]), s.revisions[j]);
    }
    WalkStopsAt(v, u, 0);
  }

  /**
   * The scan stops at the first mismatch or failing query: git runs in the
   * directories of the projects up to it and no further, and what HEAD is
   * anywhere else cannot change the outcome.
   */
  lemma ScanStopsAtFirstMismatch(info: Run, git: string -> Run, other: string -> Run)
    requires info.Completed? && Parsed(Scrape(info.output))
    requires var s := Cleaned(Scrape(info.output));
             var w := Walk(Verdicts(s, git), 0);
             !w.Clean? && forall j :: 0 <= j <= w.index ==> other(s.mountPaths[j]) == git(s.mountPaths[j])
    ensures var s := Cleaned(Scrape(info.output));
            QueriedDirs(info, git) == Dirs(s, Walk(Verdicts(s, git), 0).index + 1)
    ensures ScanResult(info, other) == ScanResult(info, git)
    ensures QueriedDirs(info, other) == QueriedDirs(info, git)
  {
    var s := Cleaned(Scrape(info.output));
    assert ScanResult(info, git) == ListsOutcome(s, git) && ScanResult(info, other) == ListsOutcome(s, other);
    assert QueriedDirs(info, git) == ListsQueries(s, git) && QueriedDirs(info, other) == ListsQueries(s, other);
    ListsStopAtFirstMismatch(s, git, other);
  }

  /** On the cleaned lists: a successful outcome holds their stripped last entries. */
  lemma ListsKeepLast(s: Scraped, git: string -> Run)
    requires Parsed(s) && ListsOutcome(s, git).Success?
    ensures ListsOutcome(s, git).value == LastEntries(s, ListsOutcome(s, git).value.dirty)
  {
  }

  /**
   * Whether or not the walk stopped early, a successful scan keeps the
   * stripped last project name (as the url), mount path and revision, the
   * latter two without colour.
   */
  lemma ScanKeepsLastEntries(info: Run, git: string -> Run)
    requires ScanResult(info, git).Success?
    ensures var raw := Scrape(info.output);
            var o := ScanResult(info, git).value;
            && raw.projects != [] && raw.mountPaths != [] && raw.revisions != []
            && o.url == Strip(raw.projects[|raw.projects| - 1])
            && o.repoRoot == Strip(StripAnsi(raw.mountPaths[|raw.mountPaths| - 1]))
            && o.revision == Strip(StripAnsi(raw.revisions[|raw.revisions| - 1]))
  {
    ScanSucceeded(info, git);
    var raw := Scrape(info.output);
    ListsKeepLast(Cleaned(raw), git);
    CleanedLast(raw);
  }

  /** A scan that succeeds ran `repo info`, parsed its report and walked the cleaned lists. */
  lemma ScanSucceeded(info: Run, git: string -> Run)
    requires ScanResult(info, git).Success?
    ensures ReportParses(info)
    ensures ScanResult(info, git) == ListsOutcome(Cleaned(Scrape(info.output)), git)
  {
  }

  /** The last cleaned entries are the last scraped ones, stripped and without colour. */
  lemma CleanedLast(raw: Scraped)
    requires Parsed(raw)
    ensures var s := Cleaned(raw);
            && Parsed(s)
            && s.projects == raw.projects
            && s.mountPaths[|s.mountPaths| - 1] == Strip(StripAnsi(raw.mountPaths[|raw.mountPaths| - 1]))
            && s.revisions[|s.revisions| - 1] == Strip(StripAnsi(raw.revisions[|raw.revisions| - 1]))
  {
    assert StripAnsiAll(raw.mountPaths)[|raw.mountPaths| - 1] == StripAnsi(raw.mountPaths[|raw.mountPaths| - 1]);
    assert StripAnsiAll(raw.revisions)[|raw.revisions| - 1] == StripAnsi(raw.revisions[|raw.revisions| - 1]);
  }

  /** On the cleaned lists: a failing HEAD query with no mismatch before it makes the outcome a failure. */
  lemma ListsGitFailure(s: Scraped, git: string -> Run, k: nat)
    requires Parsed(s) && k < ZipLength(s)
    requires !git(s.mountPaths[k]).Completed?
    requires forall j :: 0 <= j < k ==> !HeadDiffers(s, git, j)
    ensures ListsOutcome(s, git).Failure? && ListsOutcome(s, git).error.Unexpected?
  {
    var v := Verdicts(s, git);
    assert v[k] == Check(git(s.mountPaths[k]), s.revisions[k]);
    forall j | 0 <= j < k
      ensures v[j] != Differs
    {
      assert !HeadDiffers(s, git, j);
      assert v[j] == Check(git(s.mountPaths[j]), s.revisions[j]);
    }
    WalkFindsFailure(v, 0, k);
  }

  /** A HEAD query that fails before any mismatch aborts the scan with no record. */
  lemma ScanGitFailure(info: Run, git: string -> Run, k: nat)
    requires info.Completed? && Parsed(Scrape(info.output))
    requires k < ZipLength(Cleaned(Scrape(info.output)))
    requires !git(Cleaned(Scrape(info.output)).mountPaths[k]).Completed?
    requires forall j :: 0 <= j < k ==> !HeadDiffers(Cleaned(Scrape(info.output)), git, j)
    ensures ScanResult(info, git).Failure? && ScanResult(info, git).error.Unexpected?
  {
    var s := Cleaned(Scrape(info.output));
    assert ScanResult(info, git) == ListsOutcome(s, git);
    ListsGitFailure(s, git, k);
  }

  // ---------------------------------------------------------------------
  // The persisted record and the status line
  // ---------------------------------------------------------------------

  /** dump() yields the schema's five keys, and _load of it gives the record back. */
  lemma DumpLoads(r: AuditRecord)
    ensures MatchesAuditSchema(DumpRecord(r))
    ensures LoadRecord(DumpRecord(r)) == Success(r)
  {
    var m := DumpRecord(r);
    assert m.Keys == AuditKeys;
  }

  /** A mapping the schema admits loads, and dumping what it loads gives the mapping back. */
  lemma SchemaLoadsAndDumps(m: map<string, Value>)
    requires MatchesAuditSchema(m)
    ensures LoadRecord(m).Success? && DumpRecord(LoadRecord(m).value) == m
  {
    var d := DumpRecord(LoadRecord(m).value);
    assert d.Keys == m.Keys;
    assert m["type"] == d["type"];
  }

  /** The record a successful scan persists: the dir argument and the scanned url, revision and flag; not repoRoot. */
  function ScanRecord(dir: string, o: Scanned): AuditRecord {
    AuditRecord(dir, o.url, o.revision, o.dirty)
  }

  /**
   * What dump() writes after a successful scan: the schema's five keys and no
   * repoRoot; the dir argument; the stripped last project name as url; the
   * last revision without colour, stripped; dirty exactly when some examined
   * HEAD differs.
   */
  lemma ScanDumps(dir: string, info: Run, git: string -> Run)
    requires ScanResult(info, git).Success?
    ensures var raw := Scrape(info.output);
            var s := Cleaned(raw);
            var m := DumpRecord(ScanRecord(dir, ScanResult(info, git).value));
            && MatchesAuditSchema(m) && "repoRoot" !in m
            && raw.projects != [] && raw.revisions != []
            && m["dir"] == VStr(dir)
            && m["url"] == VStr(Strip(raw.projects[|raw.projects| - 1]))
            && m["revision"] == VStr(Strip(StripAnsi(raw.revisions[|raw.revisions| - 1])))
            && (m["dirty"] == VBool(true) <==> exists i :: 0 <= i < ZipLength(s) && HeadDiffers(s, git, i))
  {
    var o := ScanResult(info, git).value;
    ScanKeepsLastEntries(info, git);
    ScanDirtyIff(info, git);
    DumpedFields(ScanRecord(dir, o));
  }

  /** The dumped mapping carries the record's fields under their keys, and no repoRoot. */
  lemma DumpedFields(r: AuditRecord)
    ensures var m := DumpRecord(r);
            && MatchesAuditSchema(m) && "repoRoot" !in m
            && m["dir"] == VStr(r.dir) && m["url"] == VStr(r.url) && m["revision"] == VStr(r.revision)
            && (m["dirty"] == VBool(true) <==> r.dirty)
  {
    DumpLoads(r);
  }

  predicate HasDirtySuffix(line: string) {
    |line| >= 6 && line[|line| - 6..] == "-dirty"
  }

  /** A record whose `url@revision` does not itself end in "-dirty". */
  predicate NoDirtySuffixInHead(r: AuditRecord) {
    !HasDirtySuffix(r.url + "@" + r.revision)
  }

  /** The status line ends in "-dirty" exactly when the record is dirty, and starts with `url@revision`. */
  lemma StatusLineMarksDirty(r: AuditRecord)
    requires NoDirtySuffixInHead(r)
    ensures HasDirtySuffix(StatusLine(r)) <==> r.dirty
    ensures StartsWith(StatusLine(r), r.url + "@" + r.revision)
  {
    var head := r.url + "@" + r.revision;
    if r.dirty {
      assert StatusLine(r)[|StatusLine(r)| - 6..] == "-dirty";
    } else {
      assert StatusLine(r) == head + "";
      assert head + "" == head;
    }
  }

  /** The url and revision are recovered from the status line when the url holds no '@'. */
  lemma StatusLineSplits(r: AuditRecord)
    requires '@' !in r.url
    ensures var line := StatusLine(r);
            |r.url| < |line| && line[..|r.url|] == r.url && line[|r.url|] == '@'
            && (forall i :: 0 <= i < |r.url| ==> line[i] != '@')
            && line[|r.url| + 1..] == r.revision + (if r.dirty then "-dirty" else "")
  {
    var line := StatusLine(r);
    assert line == r.url + ("@" + (r.revision + (if r.dirty then "-dirty" else "")));
  }

  // ---------------------------------------------------------------------
  // Three projects, the second one modified
  // ---------------------------------------------------------------------

  /** A project as `repo info` prints it, with plain text and a revision that is its own strip. */
  predicate Plain(p: ProjectInfo) {
    Reportable(p) && '\U{1b}' !in p.mountPath && '\U{1b}' !in p.revision && !IsSpace(p.mountPath[|p.mountPath| - 1])
    && !IsSpace(p.name[|p.name| - 1])
  }

  /** Entries that are their own strip survive StripAll unchanged. */
  lemma StripAllFixed(xs: seq<string>)
    requires forall i :: 0 <= i < |xs| ==> Strip(xs[i]) == xs[i]
    ensures StripAll(xs) == xs
  {
  }

  /** Entries without an escape character survive StripAnsiAll unchanged. */
  lemma StripAnsiAllFixed(xs: seq<string>)
    requires forall i :: 0 <= i < |xs| ==> '\U{1b}' !in xs[i]
    ensures StripAnsiAll(xs) == xs
  {
    forall i | 0 <= i < |xs|
      ensures StripAnsiAll(xs)[i] == xs[i]
    {
      StripAnsiPlain(xs[i]);
    }
  }

  /** A plain project's values are their own strip. */
  lemma PlainStripped(p: ProjectInfo)
    requires Plain(p)
    ensures Strip(p.name) == p.name && Strip(p.mountPath) == p.mountPath && Strip(p.revision) == p.revision
  {
    assert !IsSpace(p.revision[|p.revision| - 1]);
  }

  /** Cleaning the scraped report of plain projects changes nothing. */
  lemma PlainCleaned(ps: seq<ProjectInfo>)
    requires forall i :: 0 <= i < |ps| ==> Plain(ps[i])
    ensures Scrape(Render(ps)) == Scraped(Names(ps), MountPaths(ps), Revisions(ps))
    ensures Cleaned(Scrape(Render(ps))) == Scrape(Render(ps))
  {
    ScrapeRender(ps);
    forall i | 0 <= i < |ps|
      ensures Strip(ps[i].name) == ps[i].name && Strip(ps[i].mountPath) == ps[i].mountPath
      ensures Strip(ps[i].revision) == ps[i].revision
    {
      PlainStripped(ps[i]);
    }
    StripAnsiAllFixed(MountPaths(ps));
    StripAllFixed(MountPaths(ps));
    StripAnsiAllFixed(Revisions(ps));
    StripAllFixed(Revisions(ps));
  }

  /** The walk over three clean entries whose second HEAD differs. */
  lemma ThreeWalk(s: Scraped, a: ProjectInfo, b: ProjectInfo, c: ProjectInfo, git: string -> Run)
    requires var ps := [a, b, c];
             s == Scraped(Names(ps), MountPaths(ps), Revisions(ps))
    requires Strip(a.revision) == a.revision && Strip(c.name) == c.name
    requires git(a.mountPath) == Completed(a.revision)
    requires git(b.mountPath).Completed? && Strip(git(b.mountPath).output) != b.revision
    ensures ListsOutcome(s, git) == Success(Scanned(true, c.name, c.mountPath, c.revision))
    ensures ListsQueries(s, git) == [a.mountPath, b.mountPath]
  {
    var v := Verdicts(s, git);
    assert s.mountPaths[0] == a.mountPath && s.mountPaths[1] == b.mountPath;
    assert s.revisions[0] == a.revision && s.revisions[1] == b.revision;
    assert v[0] == Check(git(s.mountPaths[0]), s.revisions[0]) == Agrees;
    assert v[1] == Check(git(s.mountPaths[1]), s.revisions[1]) == Differs;
    assert Walk(v, 1) == Mismatch(1);
    assert Walk(v, 0) == Mismatch(1);
    assert Dirs(s, 2) == [a.mountPath, b.mountPath];
  }

  /**
   * Three projects where only the second one's HEAD differs: the scan is
   * dirty, never asks about the third, and records the third project's
   * name, mount path and revision.
   */
  lemma ThreeProjects(a: ProjectInfo, b: ProjectInfo, c: ProjectInfo, git: string -> Run)
    requires Plain(a) && Plain(b) && Plain(c)
    requires git(a.mountPath) == Completed(a.revision)
    requires git(b.mountPath).Completed? && Strip(git(b.mountPath).output) != b.revision
    ensures var info := Completed(Render([a, b, c]));
            && ScanResult(info, git) == Success(Scanned(true, c.name, c.mountPath, c.revision))
            && QueriedDirs(info, git) == [a.mountPath, b.mountPath]
  {
    var ps := [a, b, c];
    PlainCleaned(ps);
    PlainStripped(a);
    PlainStripped(c);
    ThreeWalk(Scrape(Render(ps)), a, b, c, git);
  }

  /** A report without a single "Project:" entry fails the scan: there is no record. */
  lemma NoProjectsNoRecord(text: string, git: string -> Run)
    requires forall k :: 0 <= k <= |text| ==> !StartsWith(text[k..], ProjectMarker)
    ensures ScanResult(Completed(text), git) == Failure(Unexpected(ParseFailure))
  {
    FindAllAbsent(text, ProjectMarker, RestOfLine);
  }
}

/**
 * The `repo` checkout backend (class RepoScm): a validated checkout
 * configuration and what is derived from it — the digest, the commands that
 * materialise the workspace, the taint report, the properties dict and the
 * Jenkins SCM fragment.
 */
module RepoScm {
  import opened Wrappers
  import opened PyText
  import opened Process

  /** The pinned manifest revision: a recipe may give an int or a str. */
  datatype Revision = IntRevision(n: int) | StrRevision(s: string)

  /** The project-group filter: a str, or a list of str. */
  datatype Groups = GroupString(s: string) | GroupList(items: seq<string>)

  /** A validated repo checkout: the fields RepoScm.__init__ stores. */
  datatype ScmConfig = ScmConfig(
    url: string,
    dir: string,
    revision: Option<Revision>,
    manifest: Option<string>,
    groups: Groups,
    branch: Option<string>)

  /** A value in a recipe mapping or in a properties dict. */
  datatype Value = VStr(s: string) | VInt(i: int) | VBool(b: bool) | VList(items: seq<string>)

  // ---------------------------------------------------------------------
  // Python truthiness and str() of the optional fields
  // ---------------------------------------------------------------------

  /** `if self.__revision:` — None, 0 and "" are false. */
  predicate RevisionSet(r: Option<Revision>) {
    match r
    case None => false
    case Some(IntRevision(n)) => n != 0
    case Some(StrRevision(s)) => s != ""
  }

  /** `if self.__manifest:` and the like, for an optional str. */
  predicate StrSet(o: Option<string>) {
    o.Some? && o.value != ""
  }

  /** `if self.__groups:` — an empty str or an empty list is false. */
  predicate GroupsSet(g: Groups) {
    match g
    case GroupString(s) => s != ""
    case GroupList(items) => items != []
  }

  /** str(revision). */
  function RevisionStr(r: Revision): string {
    match r
    case IntRevision(n) => IntToString(n)
    case StrRevision(s) => s
  }

  /** int(revision): an int is itself, a str is parsed (None where Python raises ValueError). */
  function RevisionInt(r: Revision): Option<int> {
    match r
    case IntRevision(n) => Some(n)
    case StrRevision(s) => ParseInt(s)
  }

  /** The value a revision has in a mapping. */
  function RevisionValue(r: Revision): Value {
    match r
    case IntRevision(n) => VInt(n)
    case StrRevision(s) => VStr(s)
  }

  /** The value a group filter has in a mapping. */
  function GroupsValue(g: Groups): Value {
    match g
    case GroupString(s) => VStr(s)
    case GroupList(items) => VList(items)
  }

  // ---------------------------------------------------------------------
  // Construction from a recipe mapping (RepoScm.SCHEMA and __init__)
  // ---------------------------------------------------------------------

  const RecipeKeys: set<string> := {"scm", "url", "if", "revision", "manifest", "groups", "branch", "dir"}

  /** RepoScm.SCHEMA: required scm == "repo" and url, the optional keys with their types, nothing else. */
  predicate MatchesSchema(spec: map<string, Value>) {
    && spec.Keys <= RecipeKeys
    && "scm" in spec && spec["scm"] == VStr("repo")
    && "url" in spec && spec["url"].VStr?
    && ("if" in spec ==> spec["if"].VStr?)
    && ("revision" in spec ==> spec["revision"].VStr? || spec["revision"].VInt?)
    && ("manifest" in spec ==> spec["manifest"].VStr?)
    && ("groups" in spec ==> spec["groups"].VStr? || spec["groups"].VList?)
    && ("branch" in spec ==> spec["branch"].VStr?)
    && ("dir" in spec ==> spec["dir"].VStr?)
  }

  function OptStr(spec: map<string, Value>, key: string): Option<Option<string>> {
    if key !in spec then Some(None)
    else if spec[key].VStr? then Some(Some(spec[key].s))
    else None
  }

  /**
   * RepoScm.__init__: read url, dir (default "."), revision, manifest,
   * groups (default []) and branch.  None when url is missing or a field has
   * a type the schema refuses.
   */
  function FromSpec(spec: map<string, Value>): (r: Option<ScmConfig>)
    ensures r.Some? ==> "url" in spec && spec["url"] == VStr(r.value.url)
    ensures r.Some? ==> ("dir" in spec ==> spec["dir"] == VStr(r.value.dir)) && ("dir" !in spec ==> r.value.dir == ".")
    ensures r.Some? ==> ("groups" in spec ==> spec["groups"] == GroupsValue(r.value.groups))
    ensures r.Some? ==> ("groups" !in spec ==> r.value.groups == GroupList([]))
    ensures r.Some? ==> ("revision" in spec ==> r.value.revision.Some? && spec["revision"] == RevisionValue(r.value.revision.value))
    ensures r.Some? ==> ("revision" !in spec ==> r.value.revision.None?)
    ensures r.Some? ==> ("manifest" in spec ==> r.value.manifest.Some? && spec["manifest"] == VStr(r.value.manifest.value))
    ensures r.Some? ==> ("manifest" !in spec ==> r.value.manifest.None?)
    ensures r.Some? ==> ("branch" in spec ==> r.value.branch.Some? && spec["branch"] == VStr(r.value.branch.value))
    ensures r.Some? ==> ("branch" !in spec ==> r.value.branch.None?)
  {
    if "url" !in spec || !spec["url"].VStr? then None
    else
      var dir := OptStr(spec, "dir");
      var manifest := OptStr(spec, "manifest");
      var branch := OptStr(spec, "branch");
      var revision: Option<Option<Revision>> :=
        if "revision" !in spec then Some(None)
        else match spec["revision"]
          case VInt(n) => Some(Some(IntRevision(n)))
          case VStr(s) => Some(Some(StrRevision(s)))
          case _ => None;
      var groups: Option<Groups> :=
        if "groups" !in spec then Some(GroupList([]))
        else match spec["groups"]
          case VStr(s) => Some(GroupString(s))
          case VList(items) => Some(GroupList(items))
          case _ => None;
      if dir.None? || manifest.None? || branch.None? || revision.None? || groups.None? then None
      else Some(ScmConfig(
        spec["url"].s,
        if dir.value.Some? then dir.value.value else ".",
        revision.value, manifest.value, groups.value, branch.value))
  }

  /** Every mapping the schema admits gives a configuration. */
  lemma SchemaAdmitsConfig(spec: map<string, Value>)
    requires MatchesSchema(spec)
    ensures FromSpec(spec).Some?
  {
  }

  // ---------------------------------------------------------------------
  // Digest and Jenkins remote
  // ---------------------------------------------------------------------

  /** asDigestScript(): "url[@rev] > dir", the revision clause only when the revision is truthy. */
  function Digest(c: ScmConfig): string {
    c.url + (if RevisionSet(c.revision) then "@" + RevisionStr(c.revision.value) else "") + " > " + c.dir
  }

  /** The `remote` asJenkins() writes: the url, then "@rev" when the revision is truthy. */
  function Remote(c: ScmConfig): string {
    if RevisionSet(c.revision) then c.url + "@" + RevisionStr(c.revision.value) else c.url
  }

  /** The digest is the Jenkins remote followed by " > dir". */
  lemma DigestIsRemoteAndDir(c: ScmConfig)
    ensures Digest(c) == Remote(c) + " > " + c.dir
  {
  }

  /** Branch, manifest and groups never reach the digest. */
  lemma DigestIgnoresOptions(c: ScmConfig, branch: Option<string>, manifest: Option<string>, groups: Groups)
    ensures Digest(c.(branch := branch, manifest := manifest, groups := groups)) == Digest(c)
  {
  }

  /** The three things a digest is made of. */
  datatype DigestParts = DigestParts(url: string, revision: Option<string>, dir: string)

  /** What the digest of c is made of: url, the printed revision when it is truthy, dir. */
  function Identity(c: ScmConfig): DigestParts {
    DigestParts(c.url, if RevisionSet(c.revision) then Some(RevisionStr(c.revision.value)) else None, c.dir)
  }

  /** The index of the first a or b in s, or |s| when there is none. */
  function IndexOfAny(s: string, a: char, b: char): (i: nat)
    ensures i <= |s|
    ensures forall j :: 0 <= j < i ==> s[j] != a && s[j] != b
    ensures i < |s| ==> s[i] == a || s[i] == b
    decreases |s|
  {
    if s == [] then 0
    else if s[0] == a || s[0] == b then 0
    else 1 + IndexOfAny(s[1..], a, b)
  }

  /** Reads a digest back: the url ends at the first '@' or " > ", the revision at the next " > ". */
  function DecodeDigest(d: string): Option<DigestParts> {
    var i := IndexOfAny(d, '@', '>');
    if i < |d| && d[i] == '@' then
      var rest := d[i + 1..];
      var j := IndexOfAny(rest, '>', '>');
      if 0 < j && j + 1 < |rest| && rest[j - 1] == ' ' && rest[j + 1] == ' ' then
        Some(DigestParts(d[..i], Some(rest[..j - 1]), rest[j + 2..]))
      else None
    else if 0 < i && i + 1 < |d| && d[i - 1] == ' ' && d[i + 1] == ' ' then
      Some(DigestParts(d[..i - 1], None, d[i + 2..]))
    else None
  }

  /** The digests this model can read back: no '@' or '>' in the url, no '>' in the printed revision. */
  predicate Decodable(c: ScmConfig) {
    && '@' !in c.url && '>' !in c.url
    && (RevisionSet(c.revision) ==> '>' !in RevisionStr(c.revision.value))
  }

  /** Scanning past a prefix that holds neither character. */
  lemma {:induction false} IndexOfAnySkips(x: string, y: string, a: char, b: char)
    requires a !in x && b !in x
    ensures IndexOfAny(x + y, a, b) == |x| + IndexOfAny(y, a, b)
    decreases |x|
  {
    if x != [] {
      assert (x + y)[1..] == x[1..] + y;
      IndexOfAnySkips(x[1..], y, a, b);
    } else {
      assert x + y == y;
    }
  }

  /** The digest of a pinned or branch-tracking checkout with a truthy revision reads back. */
  lemma DigestDecodesRevision(c: ScmConfig)
    requires Decodable(c) && RevisionSet(c.revision)
    ensures DecodeDigest(Digest(c)) == Some(Identity(c))
  {
    var d := Digest(c);
    var rev := RevisionStr(c.revision.value);
    assert d == c.url + ("@" + rev + " > " + c.dir);
    IndexOfAnySkips(c.url, "@" + rev + " > " + c.dir, '@', '>');
    var i := IndexOfAny(d, '@', '>');
    assert i == |c.url|;
    var rest := d[i + 1..];
    assert rest == rev + (" > " + c.dir);
    IndexOfAnySkips(rev, " > " + c.dir, '>', '>');
    var j := IndexOfAny(rest, '>', '>');
    assert j == |rev| + 1;
    assert d[..i] == c.url;
    assert rest[..j - 1] == rev;
    assert rest[j + 2..] == c.dir;
  }

  /** The digest of a checkout without a truthy revision reads back. */
  lemma DigestDecodesPlain(c: ScmConfig)
    requires Decodable(c) && !RevisionSet(c.revision)
    ensures DecodeDigest(Digest(c)) == Some(Identity(c))
  {
    var d := Digest(c);
    assert d == c.url + (" > " + c.dir);
    IndexOfAnySkips(c.url, " > " + c.dir, '@', '>');
    var i := IndexOfAny(d, '@', '>');
    assert i == |c.url| + 1;
    assert d[..i - 1] == c.url;
    assert d[i + 2..] == c.dir;
  }

  /** The digest determines url, printed revision and dir. */
  lemma DigestDecodes(c: ScmConfig)
    requires Decodable(c)
    ensures DecodeDigest(Digest(c)) == Some(Identity(c))
  {
    if RevisionSet(c.revision) {
      DigestDecodesRevision(c);
    } else {
      DigestDecodesPlain(c);
    }
  }

  /**
   * Two decodable configurations share a digest exactly when they agree on
   * url, printed revision and dir; branch, manifest and groups never matter.
   */
  lemma DigestIdentifiesCheckout(c1: ScmConfig, c2: ScmConfig)
    requires Decodable(c1) && Decodable(c2)
    ensures Digest(c1) == Digest(c2) <==> Identity(c1) == Identity(c2)
  {
    DigestDecodes(c1);
    DigestDecodes(c2);
  }

  /**
   * A revision of 0 is pinned and deterministic, yet its digest is that of
   * the same checkout tracking the latest revision: truthiness drops the
   * clause.
   */
  lemma ZeroRevisionDigest(c: ScmConfig)
    requires c.revision == Some(IntRevision(0))
    ensures Digest(c) == Digest(c.(revision := None))
    ensures IsDeterministic(c) && !IsDeterministic(c.(revision := None))
  {
  }

  // ---------------------------------------------------------------------
  // isDeterministic
  // ---------------------------------------------------------------------

  /**
   * isDeterministic(): str(revision).isnumeric().  An absent revision prints
   * as "None"; a negative int prints with a '-'.
   */
  function IsDeterministic(c: ScmConfig): (r: bool)
    ensures r <==> match c.revision
                   case None => false
                   case Some(IntRevision(n)) => n >= 0
                   case Some(StrRevision(s)) => s != [] && AllDigits(s)
  {
    var printed := if c.revision.None? then "None" else RevisionStr(c.revision.value);
    assert c.revision.None? ==> printed[0] == 'N';
    IsNumeric(printed)
  }

  /** A deterministic revision is a non-negative integer to int(), so status can compare it. */
  lemma DeterministicRevisionIsInteger(c: ScmConfig)
    requires IsDeterministic(c)
    ensures c.revision.Some? && RevisionInt(c.revision.value).Some?
    ensures RevisionInt(c.revision.value).value >= 0
  {
    match c.revision.value
    case IntRevision(n) =>
    case StrRevision(s) => NumericParses(s);
  }

  // ---------------------------------------------------------------------
  // getProperties
  // ---------------------------------------------------------------------

  /** The keys getProperties() may set itself. */
  const RepoKeys: set<string> := {"scm", "url", "dir", "revision", "manifest", "groups", "branch"}

  /**
   * getProperties(): the base properties updated with scm, url and dir, and
   * with revision, manifest, groups and branch where those are truthy.
   */
  function Properties(c: ScmConfig, base: map<string, Value>): (ret: map<string, Value>)
    ensures ret.Keys >= base.Keys + {"scm", "url", "dir"}
    ensures forall k :: k in ret && k !in base ==> k in RepoKeys
    ensures forall k :: k in base && k !in RepoKeys ==> ret[k] == base[k]
    ensures ret["scm"] == VStr("repo") && ret["url"] == VStr(c.url) && ret["dir"] == VStr(c.dir)
    ensures RevisionSet(c.revision) ==> "revision" in ret && ret["revision"] == RevisionValue(c.revision.value)
    ensures StrSet(c.manifest) ==> "manifest" in ret && ret["manifest"] == VStr(c.manifest.value)
    ensures GroupsSet(c.groups) ==> "groups" in ret && ret["groups"] == GroupsValue(c.groups)
    ensures StrSet(c.branch) ==> "branch" in ret && ret["branch"] == VStr(c.branch.value)
    ensures forall k :: k in {"revision", "manifest", "groups", "branch"} && k !in base ==>
              (k in ret <==> (match k
                              case "revision" => RevisionSet(c.revision)
                              case "manifest" => StrSet(c.manifest)
                              case "groups" => GroupsSet(c.groups)
                              case _ => StrSet(c.branch)))
  {
    var ret := base["scm" := VStr("repo")]["url" := VStr(c.url)]["dir" := VStr(c.dir)];
    var ret := if RevisionSet(c.revision) then ret["revision" := RevisionValue(c.revision.value)] else ret;
    var ret := if StrSet(c.manifest) then ret["manifest" := VStr(c.manifest.value)] else ret;
    var ret := if GroupsSet(c.groups) then ret["groups" := GroupsValue(c.groups)] else ret;
    if StrSet(c.branch) then ret["branch" := VStr(c.branch.value)] else ret
  }

  /** getProperties() as the source writes it: an update, then one conditional store per field. */
  method GetProperties(c: ScmConfig, base: map<string, Value>) returns (ret: map<string, Value>)
    ensures ret == Properties(c, base)
  {
    ret := base;
    ret := ret["scm" := VStr("repo")];
    ret := ret["url" := VStr(c.url)];
    ret := ret["dir" := VStr(c.dir)];
    if RevisionSet(c.revision) {
      ret := ret["revision" := RevisionValue(c.revision.value)];
    }
    if StrSet(c.manifest) {
      ret := ret["manifest" := VStr(c.manifest.value)];
    }
    if GroupsSet(c.groups) {
      ret := ret["groups" := GroupsValue(c.groups)];
    }
    if StrSet(c.branch) {
      ret := ret["branch" := VStr(c.branch.value)];
    }
  }

  /** c with every falsy optional field replaced by what __init__ stores when the key is absent. */
  function Normalized(c: ScmConfig): ScmConfig {
    c.(revision := if RevisionSet(c.revision) then c.revision else None,
       manifest := if StrSet(c.manifest) then c.manifest else None,
       groups := if GroupsSet(c.groups) then c.groups else GroupList([]),
       branch := if StrSet(c.branch) then c.branch else None)
  }

  /**
   * Re-reading the properties as a recipe gives the configuration back, up to
   * its falsy fields, which getProperties() leaves out.
   */
  lemma PropertiesRestoreConfig(c: ScmConfig, base: map<string, Value>)
    requires base.Keys !! RepoKeys
    ensures FromSpec(Properties(c, base)) == Some(Normalized(c))
  {
    var ret := Properties(c, base);
    assert "revision" in ret <==> RevisionSet(c.revision);
    assert "manifest" in ret <==> StrSet(c.manifest);
    assert "groups" in ret <==> GroupsSet(c.groups);
    assert "branch" in ret <==> StrSet(c.branch);
  }

  /** Normalising keeps the digest and the checkout commands, so the round trip loses nothing they use. */
  lemma NormalizedKeepsDigestAndCommands(c: ScmConfig, markerExists: bool)
    ensures Digest(Normalized(c)) == Digest(c)
    ensures Commands(Normalized(c), markerExists) == Commands(c, markerExists)
  {
  }

  /**
   * ... but not the status check: a revision of 0 is compared by status(),
   * while the configuration read back from the properties compares nothing.
   */
  lemma NormalizedDropsZeroRevision(c: ScmConfig)
    requires c.revision == Some(IntRevision(0))
    ensures Normalized(c).revision == None
  {
  }

  // ---------------------------------------------------------------------
  // invoke
  // ---------------------------------------------------------------------

  const SyncCommand: seq<string> := ["repo", "sync", "-c", "-q", "--force-sync"]

  /** The -g argument: a list of groups joined with ",", a str passed as it is. */
  function GroupsArg(g: Groups): string {
    match g
    case GroupList(items) => Join(items, ",")
    case GroupString(s) => s
  }

  /** The options of `repo init`, in invoke()'s order: -b branch, -m manifest, -g groups, each when set. */
  function InitOptions(c: ScmConfig): seq<string> {
    (if StrSet(c.branch) then ["-b", c.branch.value] else [])
    + (if StrSet(c.manifest) then ["-m", c.manifest.value] else [])
    + (if GroupsSet(c.groups) then ["-g", GroupsArg(c.groups)] else [])
  }

  function InitCommand(c: ScmConfig): seq<string> {
    ["repo", "init", "-u", c.url] + InitOptions(c)
  }

  /** The commands invoke() issues when none fails: init and sync on a fresh directory, sync alone once dir/.repo exists. */
  function Commands(c: ScmConfig, markerExists: bool): seq<seq<string>> {
    if markerExists then [SyncCommand] else [InitCommand(c), SyncCommand]
  }

  /** What `repo init` reads from its options: each flag takes the next argument, a later one wins. */
  datatype InitRequest = InitRequest(branch: Option<string>, manifest: Option<string>, groups: Option<string>)

  function DecodeOptions(args: seq<string>, acc: InitRequest): InitRequest
    decreases |args|
  {
    if |args| < 2 then acc
    else if args[0] == "-b" then DecodeOptions(args[2..], acc.(branch := Some(args[1])))
    else if args[0] == "-m" then DecodeOptions(args[2..], acc.(manifest := Some(args[1])))
    else if args[0] == "-g" then DecodeOptions(args[2..], acc.(groups := Some(args[1])))
    else DecodeOptions(args[1..], acc)
  }

  /**
   * `repo init` receives exactly the truthy branch, manifest and groups of
   * the configuration; the revision never reaches it.
   */
  lemma InitOptionsDecode(c: ScmConfig)
    ensures DecodeOptions(InitOptions(c), InitRequest(None, None, None)) ==
            InitRequest(if StrSet(c.branch) then c.branch else None,
                        if StrSet(c.manifest) then c.manifest else None,
                        if GroupsSet(c.groups) then Some(GroupsArg(c.groups)) else None)
  {
    var b := if StrSet(c.branch) then ["-b", c.branch.value] else [];
    var m := if StrSet(c.manifest) then ["-m", c.manifest.value] else [];
    var g := if GroupsSet(c.groups) then ["-g", GroupsArg(c.groups)] else [];
    var acc0 := InitRequest(None, None, None);
    var acc1 := if StrSet(c.branch) then acc0.(branch := c.branch) else acc0;
    var acc2 := if StrSet(c.manifest) then acc1.(manifest := c.manifest) else acc1;
    var acc3 := if GroupsSet(c.groups) then acc2.(groups := Some(GroupsArg(c.groups))) else acc2;
    assert DecodeOptions(g, acc2) == acc3;
    assert DecodeOptions(m + g, acc1) == acc3 by {
      if StrSet(c.manifest) { assert (m + g)[2..] == g; } else { assert m + g == g; }
    }
    assert DecodeOptions(b + (m + g), acc0) == acc3 by {
      if StrSet(c.branch) { assert (b + (m + g))[2..] == m + g; } else { assert b + (m + g) == m + g; }
    }
    assert InitOptions(c) == b + (m + g);
  }

  /** A list of groups without commas is split back into the same list by the tool. */
  lemma GroupsArgSplits(items: seq<string>)
    requires items != []
    requires forall i :: 0 <= i < |items| ==> ',' !in items[i]
    ensures Split(GroupsArg(GroupList(items)), ',') == items
  {
    SplitJoin(items, ',');
  }

  /** One command as the invoker runs it: its argv and its working directory. */
  datatype Command = Command(argv: seq<string>, cwd: string)

  function InDir(argvs: seq<seq<string>>, cwd: string): (r: seq<Command>)
    ensures |r| == |argvs|
    ensures forall i :: 0 <= i < |r| ==> r[i] == Command(argvs[i], cwd)
  {
    if argvs == [] then [] else [Command(argvs[0], cwd)] + InDir(argvs[1..], cwd)
  }

  /** How many of n commands run, the first being the start-th of the invoker: up to and including the first failing one. */
  function Attempted(start: nat, failing: set<nat>, n: nat): (k: nat)
    ensures k <= n
    ensures n > 0 ==> k > 0
    ensures forall j :: start <= j < start + k - 1 ==> j !in failing
    ensures 0 < k < n ==> start + k - 1 in failing
    decreases n
  {
    if n == 0 then 0
    else if start in failing then 1
    else 1 + Attempted(start + 1, failing, n - 1)
  }

  /**
   * The process runner invoke() is given (invoker.checkCommand): it records
   * every command it runs; the commands whose positions, counted from the
   * first one it ran, are in `failing` exit non-zero, and checkCommand then
   * raises.
   */
  class Invoker {
    var log: seq<Command>
    const failing: set<nat>

    constructor (failing: set<nat>)
      ensures log == [] && this.failing == failing
    {
      log := [];
      this.failing := failing;
    }

    method CheckCommand(argv: seq<string>, cwd: string) returns (ok: bool)
      modifies this
      ensures log == old(log) + [Command(argv, cwd)]
      ensures ok <==> |old(log)| !in failing
    {
      ok := |log| !in failing;
      log := log + [Command(argv, cwd)];
    }
  }

  /**
   * invoke(): assemble the init options, then run init and sync in dir when
   * dir/.repo does not exist, sync alone when it does.  A failing command
   * ends the invocation (ok false); nothing runs after it.
   */
  method Invoke(c: ScmConfig, invoker: Invoker, markerExists: bool) returns (ok: bool)
    modifies invoker
    ensures var plan := Commands(c, markerExists);
            var k := Attempted(|old(invoker.log)|, invoker.failing, |plan|);
            && invoker.log == old(invoker.log) + InDir(plan[..k], c.dir)
            && (ok <==> forall j :: |old(invoker.log)| <= j < |old(invoker.log)| + |plan| ==> j !in invoker.failing)
  {
    var options: seq<string> := [];
    if StrSet(c.branch) {
      options := options + ["-b", c.branch.value];
    }
    if StrSet(c.manifest) {
      options := options + ["-m", c.manifest.value];
    }
    if GroupsSet(c.groups) {
      var groups := match c.groups
        case GroupList(items) => Join(items, ",")
        case GroupString(s) => s;
      options := options + ["-g", groups];
    }
    assert options == InitOptions(c);
    ghost var start := |invoker.log|;
    if markerExists {
      ok := invoker.CheckCommand(SyncCommand, c.dir);
      assert [SyncCommand][..1] == [SyncCommand];
    } else {
      ok := invoker.CheckCommand(["repo", "init", "-u", c.url] + options, c.dir);
      if ok {
        ok := invoker.CheckCommand(SyncCommand, c.dir);
        assert Commands(c, markerExists)[..2] == Commands(c, markerExists);
      } else {
        assert Commands(c, markerExists)[..1] == [InitCommand(c)];
      }
    }
  }

  // ---------------------------------------------------------------------
  // status
  // ---------------------------------------------------------------------

  datatype TaintKind = Modified | Switched | Error

  datatype Taint = Taint(kind: TaintKind, message: string)

  /** What `repo info --xml` parses to: the first entry's url text and revision attribute. */
  datatype InfoEntry = InfoEntry(url: string, revision: string)

  /** Exceptions status() does not absorb: unparsable info, and int() of a non-integer. */
  datatype Uncaught = MalformedInfo | NotAnInteger(literal: string)

  /** The message of the BuildError a failing `repo` run raises. */
  function RepoErrorSlogan(cwd: string, args: seq<string>, run: Run): string
    requires !run.Completed?
  {
    match run
    case CalledProcessError(out, _) =>
      "repo error:\n Directory: '" + cwd + "'\n Command: '" + Join(["repo"] + args, " ") + "'\n'" + RStrip(out) + "'"
    case OSError(message) => "Error calling repo: " + message
  }

  /** callRepo(): the stripped output of a completed run, or the BuildError a failed run becomes. */
  function CallRepo(cwd: string, args: seq<string>, run: Run): (r: Result<string, BuildError>)
    ensures r.Success? <==> run.Completed?
    ensures r.Success? ==> r.value == Strip(run.output)
  {
    if run.Completed? then Success(Strip(run.output))
    else Failure(BuildError(RepoErrorSlogan(cwd, args, run)))
  }

  function ModifiedMessage(output: string): string {
    JoinLines(["> modified:", Indent(output, "   ")])
  }

  function UrlMessage(configured: string, actual: string): string {
    "> URL: configured: '" + configured + "', actual: '" + actual + "'"
  }

  function RevisionMessage(configured: Revision, actual: string): string {
    "> revision: configured: " + RevisionStr(configured) + ", actual: " + actual
  }

  /** The modified taint the stripped `repo status` output gives: one when it is non-empty. */
  function ModifiedTaints(output: string): seq<Taint> {
    if output != "" then [Taint(Modified, ModifiedMessage(output))] else []
  }

  /**
   * The revision comparison: nothing to compare when no revision is
   * configured, else int(actual) != int(configured), raising when either is
   * not an integer.
   */
  function RevisionDiffers(c: ScmConfig, actual: string): Result<bool, Uncaught> {
    if c.revision.None? then Success(false)
    else if ParseInt(actual).None? then Failure(NotAnInteger(actual))
    else if RevisionInt(c.revision.value).None? then Failure(NotAnInteger(RevisionStr(c.revision.value)))
    else Success(ParseInt(actual).value != RevisionInt(c.revision.value).value)
  }

  function UrlTaints(c: ScmConfig, e: InfoEntry): seq<Taint> {
    if c.url != e.url then [Taint(Switched, UrlMessage(c.url, e.url))] else []
  }

  function RevisionTaints(c: ScmConfig, e: InfoEntry, differs: bool): seq<Taint>
    requires differs ==> c.revision.Some?
  {
    if differs then [Taint(Switched, RevisionMessage(c.revision.value, e.revision))] else []
  }

  /** The taints of a successfully parsed info entry: url first, then revision. */
  function EntryTaints(c: ScmConfig, e: InfoEntry): Result<seq<Taint>, Uncaught> {
    match RevisionDiffers(c, e.revision)
    case Failure(x) => Failure(x)
    case Success(differs) => Success(UrlTaints(c, e) + RevisionTaints(c, e, differs))
  }

  /**
   * The report, given what the two repo calls returned: a failing `repo
   * status` is reported alone; a failing `repo info --xml` after the modified
   * taint; otherwise the modified, url and revision taints follow in that
   * order, unless parsing or int() raised.
   */
  function Report(c: ScmConfig, st: Result<string, BuildError>, info: Result<string, BuildError>,
                  parseInfo: string -> Option<InfoEntry>): Result<seq<Taint>, Uncaught>
  {
    if st.Failure? then Success([Taint(Error, st.error.slogan)])
    else if info.Failure? then Success(ModifiedTaints(st.value) + [Taint(Error, info.error.slogan)])
    else match parseInfo(info.value)
      case None => Failure(MalformedInfo)
      case Some(e) =>
        match EntryTaints(c, e)
        case Failure(x) => Failure(x)
        case Success(ts) => Success(ModifiedTaints(st.value) + ts)
  }

  /** The report status() builds from the two runs of `repo`. */
  function StatusReport(c: ScmConfig, cwd: string, statusRun: Run, infoRun: Run,
                        parseInfo: string -> Option<InfoEntry>): Result<seq<Taint>, Uncaught>
  {
    Report(c, CallRepo(cwd, ["status"], statusRun), CallRepo(cwd, ["info", "--xml"], infoRun), parseInfo)
  }

  /**
   * The url and revision comparison of status(), in the order the source
   * makes it.
   */
  method CompareEntry(c: ScmConfig, e: InfoEntry) returns (r: Result<seq<Taint>, Uncaught>)
    ensures r == EntryTaints(c, e)
  {
    var taints: seq<Taint> := [];
    if c.url != e.url {
      taints := taints + [Taint(Switched, UrlMessage(c.url, e.url))];
    }
    if c.revision.Some? {
      var actual := ParseInt(e.revision);
      if actual.None? {
        return Failure(NotAnInteger(e.revision));
      }
      var configured := RevisionInt(c.revision.value);
      if configured.None? {
        return Failure(NotAnInteger(RevisionStr(c.revision.value)));
      }
      if actual.value != configured.value {
        taints := taints + [Taint(Switched, RevisionMessage(c.revision.value, e.revision))];
      }
    }
    assert taints == EntryTaints(c, e).value;
    return Success(taints);
  }

  /**
   * status(): the taint report, accumulated the way the source appends to
   * its ScmStatus.
   */
  method Status(c: ScmConfig, cwd: string, statusRun: Run, infoRun: Run, parseInfo: string -> Option<InfoEntry>)
    returns (r: Result<seq<Taint>, Uncaught>)
    ensures r == StatusReport(c, cwd, statusRun, infoRun, parseInfo)
  {
    var taints: seq<Taint> := [];
    var output := CallRepo(cwd, ["status"], statusRun);
    if output.Failure? {
      taints := taints + [Taint(Error, output.error.slogan)];
      assert taints == StatusReport(c, cwd, statusRun, infoRun, parseInfo).value;
      return Success(taints);
    }
    if output.value != "" {
      taints := taints + [Taint(Modified, ModifiedMessage(output.value))];
    }
    assert taints == ModifiedTaints(output.value);
    var info := CallRepo(cwd, ["info", "--xml"], infoRun);
    if info.Failure? {
      taints := taints + [Taint(Error, info.error.slogan)];
      assert taints == StatusReport(c, cwd, statusRun, infoRun, parseInfo).value;
      return Success(taints);
    }
    var entry := parseInfo(info.value);
    if entry.None? {
      return Failure(MalformedInfo);
    }
    var switched := CompareEntry(c, entry.value);
    if switched.Failure? {
      return Failure(switched.error);
    }
    taints := taints + switched.value;
    assert taints == StatusReport(c, cwd, statusRun, infoRun, parseInfo).value;
    return Success(taints);
  }

  /** An error taint is the last one and marks a failed call; there are never more than three taints. */
  lemma ReportErrorIsLast(c: ScmConfig, st: Result<string, BuildError>, info: Result<string, BuildError>,
                          parseInfo: string -> Option<InfoEntry>)
    ensures var r := Report(c, st, info, parseInfo);
            r.Success? ==>
              && |r.value| <= 3
              && (forall i :: 0 <= i < |r.value| && r.value[i].kind == Error ==> i == |r.value| - 1)
              && (r.value != [] && r.value[|r.value| - 1].kind == Error <==> st.Failure? || info.Failure?)
  {
  }

  /** A failed repo call is reported as exactly one error taint, the last one; status never reports more than three taints. */
  lemma StatusErrorIsLast(c: ScmConfig, cwd: string, statusRun: Run, infoRun: Run, parseInfo: string -> Option<InfoEntry>)
    ensures var r := StatusReport(c, cwd, statusRun, infoRun, parseInfo);
            r.Success? ==>
              && |r.value| <= 3
              && (forall i :: 0 <= i < |r.value| && r.value[i].kind == Error ==> i == |r.value| - 1)
              && (r.value != [] && r.value[|r.value| - 1].kind == Error <==> !statusRun.Completed? || !infoRun.Completed?)
  {
    ReportErrorIsLast(c, CallRepo(cwd, ["status"], statusRun), CallRepo(cwd, ["info", "--xml"], infoRun), parseInfo);
  }

  /** A modified taint is the first one, and there is one exactly when the status output is non-empty. */
  lemma ReportModifiedFirst(c: ScmConfig, st: Result<string, BuildError>, info: Result<string, BuildError>,
                            parseInfo: string -> Option<InfoEntry>)
    ensures var r := Report(c, st, info, parseInfo);
            r.Success? ==>
              && (forall i :: 0 <= i < |r.value| && r.value[i].kind == Modified ==> i == 0)
              && (r.value != [] && r.value[0].kind == Modified <==> st.Success? && st.value != "")
  {
  }

  /** The modified taint comes first, and exactly when `repo status` printed something. */
  lemma StatusModifiedFirst(c: ScmConfig, cwd: string, statusRun: Run, infoRun: Run, parseInfo: string -> Option<InfoEntry>)
    ensures var r := StatusReport(c, cwd, statusRun, infoRun, parseInfo);
            r.Success? ==>
              && (forall i :: 0 <= i < |r.value| && r.value[i].kind == Modified ==> i == 0)
              && (r.value != [] && r.value[0].kind == Modified <==> statusRun.Completed? && Strip(statusRun.output) != "")
  {
    ReportModifiedFirst(c, CallRepo(cwd, ["status"], statusRun), CallRepo(cwd, ["info", "--xml"], infoRun), parseInfo);
  }

  /** The report is empty exactly when both calls succeed with a silent status and a matching entry. */
  lemma ReportCleanIff(c: ScmConfig, st: Result<string, BuildError>, info: Result<string, BuildError>,
                       parseInfo: string -> Option<InfoEntry>)
    ensures Report(c, st, info, parseInfo) == Success([]) <==>
              && st.Success? && st.value == ""
              && info.Success? && parseInfo(info.value).Some?
              && c.url == parseInfo(info.value).value.url
              && RevisionDiffers(c, parseInfo(info.value).value.revision) == Success(false)
  {
    var r := Report(c, st, info, parseInfo);
    assert r == Success([]) <==> r.Success? && |r.value| == 0;
  }

  /**
   * The report is empty exactly when both calls succeed, `repo status` is
   * silent, and the info entry has the configured url and, when one is
   * configured, the same revision as an integer.
   */
  lemma StatusCleanIff(c: ScmConfig, cwd: string, statusRun: Run, infoRun: Run, parseInfo: string -> Option<InfoEntry>)
    ensures StatusReport(c, cwd, statusRun, infoRun, parseInfo) == Success([]) <==>
              && statusRun.Completed? && Strip(statusRun.output) == ""
              && infoRun.Completed? && parseInfo(Strip(infoRun.output)).Some?
              && c.url == parseInfo(Strip(infoRun.output)).value.url
              && RevisionDiffers(c, parseInfo(Strip(infoRun.output)).value.revision) == Success(false)
  {
    ReportCleanIff(c, CallRepo(cwd, ["status"], statusRun), CallRepo(cwd, ["info", "--xml"], infoRun), parseInfo);
  }

  /**
   * Once both calls succeed and the entry's revision compares: there is a
   * url taint exactly when the urls differ, a revision taint exactly when the
   * revisions differ as integers, and the revision taint comes last, after
   * the url taint.
   */
  lemma ReportSwitched(c: ScmConfig, st: Result<string, BuildError>, info: Result<string, BuildError>,
                       parseInfo: string -> Option<InfoEntry>, e: InfoEntry, differs: bool)
    requires st.Success? && info.Success? && parseInfo(info.value) == Some(e)
    requires RevisionDiffers(c, e.revision) == Success(differs)
    ensures var r := Report(c, st, info, parseInfo);
            && r.Success?
            && (Taint(Switched, UrlMessage(c.url, e.url)) in r.value <==> c.url != e.url)
            && (differs ==> c.revision.Some? && r.value[|r.value| - 1] == Taint(Switched, RevisionMessage(c.revision.value, e.revision)))
            && (differs && c.url != e.url ==> r.value[|r.value| - 2] == Taint(Switched, UrlMessage(c.url, e.url)))
            && (!differs ==> forall i :: 0 <= i < |r.value| && r.value[i].kind == Switched ==>
                               r.value[i] == Taint(Switched, UrlMessage(c.url, e.url)))
  {
    ReportEntry(c, st, info, parseInfo, e, differs);
    var rev := if differs then RevisionMessage(c.revision.value, e.revision) else "";
    if differs {
      MessagesDiffer(c.revision.value, e.revision, c.url, e.url);
    }
    SwitchedOrder(ModifiedTaints(st.value), UrlMessage(c.url, e.url), c.url != e.url, rev, differs);
  }

  /** With both calls succeeding and the revision compared, the report is the modified, url and revision taints. */
  lemma ReportEntry(c: ScmConfig, st: Result<string, BuildError>, info: Result<string, BuildError>,
                    parseInfo: string -> Option<InfoEntry>, e: InfoEntry, differs: bool)
    requires st.Success? && info.Success? && parseInfo(info.value) == Some(e)
    requires RevisionDiffers(c, e.revision) == Success(differs)
    ensures Report(c, st, info, parseInfo) == Success(ModifiedTaints(st.value) + UrlTaints(c, e) + RevisionTaints(c, e, differs))
  {
    var m, u, v := ModifiedTaints(st.value), UrlTaints(c, e), RevisionTaints(c, e, differs);
    assert EntryTaints(c, e) == Success(u + v);
    assert m + (u + v) == m + u + v;
  }

  /** A revision message is never a url message. */
  lemma MessagesDiffer(configured: Revision, actual: string, url: string, actualUrl: string)
    ensures RevisionMessage(configured, actual) != UrlMessage(url, actualUrl)
  {
    assert RevisionMessage(configured, actual)[2] == 'r';
    assert UrlMessage(url, actualUrl)[2] == 'U';
  }

  /** The order of the taints after the modified ones: the url taint, then the revision taint, each when due. */
  lemma SwitchedOrder(m: seq<Taint>, url: string, urlDiffers: bool, rev: string, differs: bool)
    requires forall i :: 0 <= i < |m| ==> m[i].kind == Modified
    requires differs ==> url != rev
    ensures var r := m + (if urlDiffers then [Taint(Switched, url)] else []) + (if differs then [Taint(Switched, rev)] else []);
            && (Taint(Switched, url) in r <==> urlDiffers)
            && (differs ==> r[|r| - 1] == Taint(Switched, rev))
            && (differs && urlDiffers ==> r[|r| - 2] == Taint(Switched, url))
            && (!differs ==> forall i :: 0 <= i < |r| && r[i].kind == Switched ==> r[i] == Taint(Switched, url))
  {
  }

  /** The switched taints of status(), in terms of the two runs of `repo`. */
  lemma StatusSwitched(c: ScmConfig, cwd: string, out: string, info: string,
                       parseInfo: string -> Option<InfoEntry>, differs: bool)
    requires parseInfo(Strip(info)).Some?
    requires RevisionDiffers(c, parseInfo(Strip(info)).value.revision) == Success(differs)
    ensures var r := StatusReport(c, cwd, Completed(out), Completed(info), parseInfo);
            var e := parseInfo(Strip(info)).value;
            && r.Success?
            && (Taint(Switched, UrlMessage(c.url, e.url)) in r.value <==> c.url != e.url)
            && (differs ==> c.revision.Some? && r.value[|r.value| - 1] == Taint(Switched, RevisionMessage(c.revision.value, e.revision)))
            && (differs && c.url != e.url ==> r.value[|r.value| - 2] == Taint(Switched, UrlMessage(c.url, e.url)))
            && (!differs ==> forall i :: 0 <= i < |r.value| && r.value[i].kind == Switched ==>
                               r.value[i] == Taint(Switched, UrlMessage(c.url, e.url)))
  {
    ReportSwitched(c, CallRepo(cwd, ["status"], Completed(out)), CallRepo(cwd, ["info", "--xml"], Completed(info)),
                   parseInfo, parseInfo(Strip(info)).value, differs);
  }

  /** A different url alone gives exactly one switched taint naming both urls. */
  lemma StatusUrlSwitched(c: ScmConfig, cwd: string, out: string, info: string, parseInfo: string -> Option<InfoEntry>)
    requires Strip(out) == ""
    requires parseInfo(Strip(info)).Some? && parseInfo(Strip(info)).value.url != c.url
    requires RevisionDiffers(c, parseInfo(Strip(info)).value.revision) == Success(false)
    ensures StatusReport(c, cwd, Completed(out), Completed(info), parseInfo) ==
            Success([Taint(Switched, "> URL: configured: '" + c.url + "', actual: '" + parseInfo(Strip(info)).value.url + "'")])
  {
    var e := parseInfo(Strip(info)).value;
    assert EntryTaints(c, e).value == [Taint(Switched, UrlMessage(c.url, e.url))];
    assert StatusReport(c, cwd, Completed(out), Completed(info), parseInfo).value == [Taint(Switched, UrlMessage(c.url, e.url))];
  }

  /**
   * A configured revision of 0 is compared, although it is falsy everywhere
   * else; an absent one is not, and then a non-integer actual revision is
   * never parsed.
   */
  lemma StatusRevisionCheck(c: ScmConfig, actual: string)
    ensures c.revision == Some(IntRevision(0)) ==>
              RevisionDiffers(c, actual) == (if ParseInt(actual).Some? then Success(ParseInt(actual).value != 0)
                                             else Failure(NotAnInteger(actual)))
    ensures c.revision.None? ==> RevisionDiffers(c, actual) == Success(false)
  {
  }

  // ---------------------------------------------------------------------
  // asJenkins
  // ---------------------------------------------------------------------

  /** An ElementTree element: tag, attributes in order, text, children in order. */
  datatype Element = Element(tag: string, attrib: seq<(string, string)>, text: Option<string>, children: seq<Element>)

  function Leaf(tag: string, text: Option<string>): Element {
    Element(tag, [], text, [])
  }

  /** SubElement: the child goes after the existing children. */
  function Append(parent: Element, child: Element): (r: Element)
    ensures r.tag == parent.tag && r.attrib == parent.attrib && r.text == parent.text
    ensures r.children == parent.children + [child]
  {
    parent.(children := parent.children + [child])
  }

  const LocationTag := "hudson.scm.RepoScm_-ModuleLocation"

  const ScmAttrib := [("class", "hudson.scm.RepoScm"), ("plugin", "repo@1.0")]

  /** The tags of the scm element's children, in document order. */
  const ScmChildTags := ["locations", "excludedRegions", "includedRegions", "excludedUsers", "excludedRevprop",
                         "excludedCommitMessages", "workspaceUpdater", "ignoreDirPropChanges", "filterChangelog"]

  /** The tags of a module location's children, in document order. */
  const LocationChildTags := ["remote", "credentialsId", "local", "depthOption", "ignoreExternalsOption"]

  /**
   * The document the Jenkins repo plugin reads: one module location with the
   * given remote, credentials id and local directory, full checkout depth,
   * externals ignored, no change filters, and the update workspace updater.
   */
  function Fragment(remote: string, credentialsId: Option<string>, local: string): Element {
    Element("scm", ScmAttrib, None,
      [Element("locations", [], None, [Location(remote, credentialsId, local)]),
       Leaf("excludedRegions", None), Leaf("includedRegions", None), Leaf("excludedUsers", None),
       Leaf("excludedRevprop", None), Leaf("excludedCommitMessages", None),
       Element("workspaceUpdater", [("class", "hudson.scm.repo.UpdateUpdater")], None, []),
       Leaf("ignoreDirPropChanges", Some("false")), Leaf("filterChangelog", Some("false"))])
  }

  /** The one location of the fragment. */
  function Location(remote: string, credentialsId: Option<string>, local: string): Element {
    Element(LocationTag, [], None,
      [Leaf("remote", Some(remote)), Leaf("credentialsId", credentialsId), Leaf("local", Some(local)),
       Leaf("depthOption", Some("infinity")), Leaf("ignoreExternalsOption", Some("true"))])
  }

  /** The shape of the fragment: the scm element's children and the single location's children, by tag and text. */
  lemma FragmentShape(remote: string, credentialsId: Option<string>, local: string)
    ensures var scm := Fragment(remote, credentialsId, local);
            && scm.tag == "scm" && scm.attrib == ScmAttrib && scm.text.None?
            && |scm.children| == |ScmChildTags|
            && (forall i :: 0 <= i < |ScmChildTags| ==> scm.children[i].tag == ScmChildTags[i])
            && |scm.children[0].children| == 1 && scm.children[0].children[0].tag == LocationTag
            && (forall i :: 1 <= i <= 5 ==> scm.children[i] == Leaf(ScmChildTags[i], None))
            && scm.children[6].attrib == [("class", "hudson.scm.repo.UpdateUpdater")]
            && scm.children[7].text == Some("false") && scm.children[8].text == Some("false")
    ensures var loc := Fragment(remote, credentialsId, local).children[0].children[0].children;
            && |loc| == |LocationChildTags|
            && (forall i :: 0 <= i < |LocationChildTags| ==> loc[i].tag == LocationChildTags[i])
            && loc[0].text == Some(remote) && loc[1].text == credentialsId && loc[2].text == Some(local)
            && loc[3].text == Some("infinity") && loc[4].text == Some("true")
            && forall i :: 0 <= i < 5 ==> loc[i].children == []
  {
  }

  /** The remote the fragment names is the digest without its " > dir" suffix. */
  lemma FragmentRemoteIsDigestHead(c: ScmConfig, credentialsId: Option<string>, local: string)
    ensures var remote := Fragment(Remote(c), credentialsId, local).children[0].children[0].children[0].text.value;
            Digest(c) == remote + " > " + c.dir
  {
    DigestIsRemoteAndDir(c);
  }

  /**
   * asJenkins(): the Jenkins repo SCM fragment, built by appending
   * sub-elements in document order.  `local` is joinPath(workPath, dir); the
   * caller's normalised path join is a parameter.
   */
  method AsJenkins(c: ScmConfig, workPath: string, credentials: Option<string>, joinPath: (string, string) -> string)
    returns (scm: Element)
    ensures scm == Fragment(Remote(c), if StrSet(credentials) then credentials else None, joinPath(workPath, c.dir))
  {
    scm := Element("scm", ScmAttrib, None, []);
    var location := JenkinsLocation(c, credentials, joinPath(workPath, c.dir));
    scm := Append(scm, Element("locations", [], None, [location]));
    scm := Append(scm, Leaf("excludedRegions", None));
    scm := Append(scm, Leaf("includedRegions", None));
    scm := Append(scm, Leaf("excludedUsers", None));
    scm := Append(scm, Leaf("excludedRevprop", None));
    scm := Append(scm, Leaf("excludedCommitMessages", None));
    scm := Append(scm, Element("workspaceUpdater", [("class", "hudson.scm.repo.UpdateUpdater")], None, []));
    scm := Append(scm, Leaf("ignoreDirPropChanges", Some("false")));
    scm := Append(scm, Leaf("filterChangelog", Some("false")));
    assert scm.children == Fragment(Remote(c), if StrSet(credentials) then credentials else None, joinPath(workPath, c.dir)).children;
  }

  /** The location element of asJenkins(), its five sub-elements appended in order. */
  method JenkinsLocation(c: ScmConfig, credentials: Option<string>, local: string) returns (location: Element)
    ensures location == Location(Remote(c), if StrSet(credentials) then credentials else None, local)
  {
    location := Element(LocationTag, [], None, []);
    var url := c.url;
    if RevisionSet(c.revision) {
      url := url + ("@" + RevisionStr(c.revision.value));
    }
    location := Append(location, Leaf("remote", Some(url)));
    var credentialsId := Leaf("credentialsId", None);
    if StrSet(credentials) {
      credentialsId := credentialsId.(text := credentials);
    }
    location := Append(location, credentialsId);
    location := Append(location, Leaf("local", Some(local)));
    location := Append(location, Leaf("depthOption", Some("infinity")));
    location := Append(location, Leaf("ignoreExternalsOption", Some("true")));
    assert url == Remote(c);
    assert location.children == Location(Remote(c), credentialsId.text, local).children;
  }
}

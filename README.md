# The `repo` checkout backend of bob, modelled in Dafny

This project models `pym/bob/scm/repo.py`, the backend that bob uses for
checkouts made with Google's `repo` tool. The file has two classes.

- **RepoScm** covers a validated checkout configuration and what bob derives from it:
  - the digest script ("url[@rev] > dir");
  - the `repo init` / `repo sync` commands that `invoke` runs;
  - `isDeterministic`;
  - the properties dict;
  - the Jenkins SCM fragment;
  - the taint report of `status`, which calls `repo` through `callRepo`.
- **RepoAudit** covers the audit record:
  - `_scanDir` scrapes the text of `repo info` with three regular expressions, removes ANSI colour sequences, and asks git for the HEAD of each project until one disagrees with the current revision the report gives. It then records the last project.
  - `_load` and `dump` persist the record as a mapping.
  - `getStatusLine` prints the record on one line.

Files:

- `wrappers.dfy`: `Option` and `Result`.
- `process.dfy`: how an external process ended, and `BuildError`.
- `text.dfy` (module `PyText`): the Python string semantics the backend relies on:
  - `str.strip`, `lstrip` and `rstrip`;
  - `str.isspace`, `str.split` and `str.join`;
  - `str(int)`, `int(str)` and `str.isnumeric`;
  - `textwrap.indent`;
  - bob's `joinLines`.
- `repo_info.dfy` (module `RepoInfo`):
  - `re.findall` of the three patterns `_scanDir` uses;
  - `re.sub` of the ANSI pattern;
  - a renderer of `repo info` reports, used to prove that scraping reads back what was printed.
- `repo_scm.dfy` (module `RepoScm`): class RepoScm.
- `repo_audit.dfy` (module `RepoAudit`): class RepoAudit. `RepoAudit.RepoAudit` is a Dafny class whose methods update its fields, as the Python object's methods do.

External processes are not run. Each one is an input of type `Process.Run`, which is one of:

- the text on stdout;
- a non-zero exit (`CalledProcessError`), with its output and `str()` message;
- an `OSError`.

`git rev-parse HEAD` becomes a function from a working directory to a `Run`. `invoke`'s `invoker.checkCommand` becomes an `Invoker` object that logs the commands it runs and fails those at chosen positions.

Behaviour of the code worth noting:

- **Exceptions in status.** `status` absorbs only `BuildError` (`repo.py:162`). A malformed XML answer and a revision that `int()` rejects propagate. The model returns these as `Uncaught`; they do not become an error taint.
- **A failed scan changes state.** A scan that fails has already changed the object, so it does not leave it untouched:
  - `dir` is stored first (`repo.py:183`);
  - `dirty` is reset once the report has parsed (`repo.py:203`).
- **The recorded url.** The "url" of the audit record is the name of the last project (`repo.py:231`). It is not the manifest url.

## Model

| member | source | states |
|---|---|---|
| PyText.Strip | pym/bob/scm/repo.py:140 | str.strip(): the result is the input with a whitespace-only prefix and suffix cut off; it neither starts nor ends with whitespace, is empty exactly when the input is all whitespace, and leaves already-trimmed text unchanged |
| PyText.LStrip | pym/bob/scm/repo.py:140 | the leading half of str.strip(): whitespace is dropped from the front until a non-whitespace character or the end |
| PyText.RStrip | pym/bob/scm/repo.py:137 | str.rstrip() on the output of a failed `repo` run: whitespace is dropped from the end until a non-whitespace character or the start |
| PyText.StripIdempotent | pym/bob/scm/repo.py:216-222 | stripping an already stripped mount path or revision again changes nothing |
| PyText.IndentBlank | pym/bob/scm/repo.py:147 | textwrap.indent leaves text made only of whitespace unchanged |
| PyText.IndentLine | pym/bob/scm/repo.py:147 | textwrap.indent works line by line: the first line gets the prefix exactly when it holds something other than whitespace, and the rest is indented on its own |
| PyText.Indent | pym/bob/scm/repo.py:147 | textwrap.indent(output, '   '): the text is cut into lines at the boundaries str.splitlines recognises, keeping each boundary ("\r\n" as one), and every line that is not all whitespace gets the prefix |
| PyText.JoinLines | pym/bob/scm/repo.py:147 | joinLines: the empty lines are dropped and the rest joined with "\n" |
| PyText.SplitJoin | pym/bob/scm/repo.py:67 | splitting ",".join(parts) on the separator gives the parts back when no part holds it |
| PyText.NatToString | pym/bob/scm/repo.py:123 | str(n) of a natural number is numeric and has no leading zero |
| PyText.IntToString | pym/bob/scm/repo.py:85 | str(i) is non-empty, has no surrounding whitespace, and is numeric exactly when i >= 0 |
| PyText.IntToStringParses | pym/bob/scm/repo.py:158 | int(str(i)) == i |
| PyText.NumericParses | pym/bob/scm/repo.py:123 | int() of a numeric string is the value of its digits |
| PyText.ParseInt | pym/bob/scm/repo.py:158 | int(str): surrounding whitespace is ignored, then an optional sign and one or more ASCII digits give the value; anything else is the ValueError, as None |
| RepoInfo.MatchAt | pym/bob/scm/repo.py:192-194 | a match of `marker\s*(.+)` or `marker\s*(\S+)` starts with the marker, skips only whitespace, and captures a non-empty group that is maximal on its line (`.+`) or maximal without whitespace (`\S+`); when text follows the whitespace, the group starts right there |
| RepoInfo.FindAll | pym/bob/scm/repo.py:196-198 | every re.findall group is non-empty; a `(.+)` group holds no newline and a `(\S+)` group holds no whitespace |
| RepoInfo.Scrape | pym/bob/scm/repo.py:196-198 | the scraped revisions are non-empty |
| RepoInfo.FindAllLine | pym/bob/scm/repo.py:196-198 | when no match on a line runs past it, findall over that line, a newline and more text is the line's groups followed by the rest's |
| RepoInfo.FindAllAbsent | pym/bob/scm/repo.py:196 | text in which the marker never occurs yields no groups |
| RepoInfo.ScrapeRender | pym/bob/scm/repo.py:192-198 | scraping the `repo info` report of well-formed projects gives back their names, mount paths and revisions, in order |
| RepoInfo.StripAnsi | pym/bob/scm/repo.py:206-208 | removing colour sequences never lengthens the text |
| RepoInfo.StripAnsiPlain | pym/bob/scm/repo.py:206-208 | text without an escape character is unchanged |
| RepoInfo.StripAnsiSgr | pym/bob/scm/repo.py:206-208 | a colour sequence at the front is removed and the rest is processed as if it were alone |
| RepoInfo.StripAnsiColoured | pym/bob/scm/repo.py:206-208 | a value wrapped in an opening and a closing colour sequence comes out as the plain value |
| RepoInfo.StripAnsiPlainPrefix | pym/bob/scm/repo.py:206-208 | an escape-free prefix is kept as it is |
| RepoInfo.StripAnsiNotIdempotent | pym/bob/scm/repo.py:206-208 | re.sub makes one pass: removing a sequence can join its surroundings into a new sequence that stays in the output |
| RepoScm.FromSpec | pym/bob/scm/repo.py:32-39 | __init__ stores all six settings from the mapping: url as given; dir, defaulting to "."; revision, manifest and branch when present and None when absent; groups, defaulting to [] |
| RepoScm.SchemaAdmitsConfig | pym/bob/scm/repo.py:16-39 | every mapping SCHEMA accepts (with a groups list of strings) can be constructed |
| RepoScm.Digest | pym/bob/scm/repo.py:81-86 | asDigestScript(): the url, then "@" and str(revision) when the revision is truthy, then " > " and the dir |
| RepoScm.Remote | pym/bob/scm/repo.py:97-99 | the `remote` text asJenkins writes: the url, then "@" and str(revision) when the revision is truthy |
| RepoScm.DigestIsRemoteAndDir | pym/bob/scm/repo.py:81-101 | the digest is the Jenkins remote (url, then "@rev" when the revision is truthy) followed by " > dir" |
| RepoScm.DigestIgnoresOptions | pym/bob/scm/repo.py:81-86 | branch, manifest and groups never change the digest |
| RepoScm.DigestDecodes | pym/bob/scm/repo.py:81-86 | the digest can be read back into url, printed revision and dir when the url holds no '@' or '>' and the revision no '>' |
| RepoScm.DigestIdentifiesCheckout | pym/bob/scm/repo.py:81-86 | two such configurations have the same digest exactly when they agree on url, printed revision and dir |
| RepoScm.ZeroRevisionDigest | pym/bob/scm/repo.py:85-123 | revision 0 is dropped from the digest because it is falsy, so the digest is that of no revision; yet revision 0 is deterministic and no revision is not |
| RepoScm.IsDeterministic | pym/bob/scm/repo.py:122-123 | str(revision).isnumeric(), with isnumeric restricted to ASCII digits: it holds exactly for a non-negative int revision or a non-empty all-ASCII-digit str revision, and never for an absent one |
| RepoScm.DeterministicRevisionIsInteger | pym/bob/scm/repo.py:122-123 | under the ASCII restriction, a revision isDeterministic accepts converts with int() to a non-negative integer (the program does not promise this; see "## Left out") |
| RepoScm.Properties | pym/bob/scm/repo.py:42-57 | the base dict plus scm, url and dir, plus revision, manifest, groups and branch exactly when each is truthy; other base keys are kept |
| RepoScm.GetProperties | pym/bob/scm/repo.py:42-57 | the dict built by the update and the conditional stores is Properties |
| RepoScm.PropertiesRestoreConfig | pym/bob/scm/repo.py:32-57 | constructing from the properties gives the configuration back, except that falsy optional fields come back absent |
| RepoScm.NormalizedKeepsDigestAndCommands | pym/bob/scm/repo.py:60-86 | that round trip changes neither the digest nor the commands invoke runs |
| RepoScm.NormalizedDropsZeroRevision | pym/bob/scm/repo.py:49-50 | the round trip loses a revision of 0 |
| RepoScm.InitOptions | pym/bob/scm/repo.py:61-68 | the options of `repo init`: "-b" and the branch, "-m" and the manifest, "-g" and the groups (a list comma-joined), in that order, each only when the setting is truthy |
| RepoScm.Commands | pym/bob/scm/repo.py:70-79 | with `dir/.repo` present, only `repo sync -c -q --force-sync`; otherwise `repo init -u url` with the options, then that sync |
| RepoScm.InitOptionsDecode | pym/bob/scm/repo.py:61-68 | `repo init` receives exactly the truthy branch, manifest and groups, and never the revision |
| RepoScm.GroupsArgSplits | pym/bob/scm/repo.py:67 | a list of groups without commas is split back into the same list |
| RepoScm.Invoker.CheckCommand | pym/bob/scm/repo.py:73-79 | checkCommand appends the command to the log and succeeds unless its position is a failing one |
| RepoScm.Invoke | pym/bob/scm/repo.py:60-79 | the commands that run, in dir, are init and sync, or sync alone once dir/.repo exists; they run up to and including the first failure, and invoke succeeds exactly when none fails |
| RepoScm.CallRepo | pym/bob/scm/repo.py:128-140 | a completed run gives its stripped output; any other run gives a BuildError |
| RepoScm.RepoErrorSlogan | pym/bob/scm/repo.py:135-139 | the BuildError message of a failed run: for a non-zero exit, the directory, the command joined by spaces and the output with trailing whitespace removed; for an OSError, "Error calling repo: " and its message |
| RepoScm.CompareEntry | pym/bob/scm/repo.py:155-160 | the url and revision comparison yields the url taint, then the revision taint, or the int() failure |
| RepoScm.RevisionDiffers | pym/bob/scm/repo.py:158 | an absent revision is never compared; otherwise int() of the actual revision, then of the configured one, and a ValueError on the first that is not an integer; the revisions differ when the two integers do |
| RepoScm.EntryTaints | pym/bob/scm/repo.py:155-160 | the switched url taint when the urls differ, followed by the switched revision taint when RevisionDiffers says so; or the ValueError of the comparison |
| RepoScm.Status | pym/bob/scm/repo.py:142-165 | the taints appended in order equal the report of the two repo calls |
| RepoScm.Report | pym/bob/scm/repo.py:142-165 | a failed `repo status` gives its error taint alone; a failed `repo info --xml` gives the modified taint (if any) and then its error taint; an unparsable answer is an uncaught exception; otherwise the modified taint, then EntryTaints |
| RepoScm.StatusReport | pym/bob/scm/repo.py:142-165 | Report over callRepo's results for `repo status` and `repo info --xml`, both run in the same directory |
| RepoScm.ReportErrorIsLast | pym/bob/scm/repo.py:142-165 | an error taint is the last one and appears exactly when a repo call failed; there are at most three taints |
| RepoScm.StatusErrorIsLast | pym/bob/scm/repo.py:142-165 | the same, stated in terms of the two runs |
| RepoScm.ReportModifiedFirst | pym/bob/scm/repo.py:145-147 | a modified taint comes first, and there is one exactly when the status output is non-empty |
| RepoScm.StatusModifiedFirst | pym/bob/scm/repo.py:145-147 | the same, stated in terms of the stripped `repo status` output |
| RepoScm.ReportCleanIff | pym/bob/scm/repo.py:142-165 | the report is empty exactly when status is silent, the info entry parses, its url matches, and its revision does not differ |
| RepoScm.StatusCleanIff | pym/bob/scm/repo.py:142-165 | the same, stated in terms of the two runs |
| RepoScm.StatusUrlSwitched | pym/bob/scm/repo.py:155-157 | when the revision does not differ, a different url gives exactly one switched taint, naming both urls |
| RepoScm.ReportSwitched | pym/bob/scm/repo.py:154-160 | once both calls succeed and the revision is compared: a url taint appears exactly when the urls differ; a revision taint exactly when the revision differs, and then it is last, right after the url taint if there is one |
| RepoScm.StatusSwitched | pym/bob/scm/repo.py:142-165 | the same, stated in terms of the two runs of `repo` |
| RepoScm.StatusRevisionCheck | pym/bob/scm/repo.py:158-160 | a configured revision of 0 is compared with `is not None`; an absent one is never compared |
| RepoScm.Append | pym/bob/scm/repo.py:94-115 | SubElement puts the new child after the existing ones and keeps the rest of the element |
| RepoScm.FragmentShape | pym/bob/scm/repo.py:88-117 | the fragment has the scm tag and attributes, nine children in document order, and one location whose five children have the given remote, credentials id, local directory, "infinity" and "true" |
| RepoScm.FragmentRemoteIsDigestHead | pym/bob/scm/repo.py:81-101 | the fragment's remote is the digest without its " > dir" |
| RepoScm.AsJenkins | pym/bob/scm/repo.py:88-117 | the element built by appending in source order is the fragment; credentials appear only when truthy |
| RepoScm.JenkinsLocation | pym/bob/scm/repo.py:95-106 | the location built by appending is the fragment's location; its remote is url plus "@rev" when the revision is truthy |
| RepoAudit.GitErrorOf | pym/bob/scm/repo.py:225-228 | a failed HEAD query keeps its message and records whether git exited non-zero or could not be run |
| RepoAudit.StripAnsiAll | pym/bob/scm/repo.py:207-208 | the list comprehension removes colour from each entry and keeps the length |
| RepoAudit.StripAll | pym/bob/scm/repo.py:216-233 | each entry is stripped and the length is kept |
| RepoAudit.Cleaned | pym/bob/scm/repo.py:206-222 | the mount paths and revisions lose their colour codes, then surrounding whitespace; the project names stay as scraped |
| RepoAudit.ZipLength | pym/bob/scm/repo.py:211 | zip yields as many triples as the shortest list has entries |
| RepoAudit.Check | pym/bob/scm/repo.py:213-228 | a HEAD query fails exactly when git did not complete; it agrees exactly when the stripped HEAD equals the revision |
| RepoAudit.Verdicts | pym/bob/scm/repo.py:211-228 | there is one verdict per zipped triple, each the Check of git in that triple's mount path |
| RepoAudit.Walk | pym/bob/scm/repo.py:211-229 | the loop stops, if at all, at a triple within range |
| RepoAudit.WalkStopped | pym/bob/scm/repo.py:222-228 | the loop stops at a verdict that differs or failed |
| RepoAudit.WalkFindsFailure | pym/bob/scm/repo.py:222-228 | a failed query with no mismatch before it ends the loop in that failure |
| RepoAudit.WalkPassed | pym/bob/scm/repo.py:211-224 | every query before the stopping point agreed; all of them did when the loop ran clean |
| RepoAudit.WalkStopsAt | pym/bob/scm/repo.py:224 | what git answers after the stopping point cannot change where the loop stops |
| RepoAudit.CompareHeads | pym/bob/scm/repo.py:211-229 | the while loop ends as Walk does, having queried exactly the directories up to the stopping point |
| RepoAudit.ScanLists | pym/bob/scm/repo.py:203-233 | the loop followed by the last entries gives the lists' outcome and queries |
| RepoAudit.ScanInfo | pym/bob/scm/repo.py:184-240 | the scan gives the fields after it, the BuildError it raises, and the directories it queries |
| RepoAudit.ListsOutcome | pym/bob/scm/repo.py:203-233 | on parsed, cleaned lists: the rewrapped error of the first failing HEAD query the loop reaches; otherwise the last entries, dirty when the loop broke at a mismatch |
| RepoAudit.ScanReport | pym/bob/scm/repo.py:196-233 | the parse BuildError, rewrapped by the closing `except Exception` as an unexpected error, when any of the three lists is empty; otherwise ListsOutcome of the cleaned lists |
| RepoAudit.ScanResult | pym/bob/scm/repo.py:182-240 | a non-zero exit of `repo info` becomes "Repo audit failed", an OSError "Error calling repo"; a completed run is scraped and scanned by ScanReport |
| RepoAudit.ScanFields | pym/bob/scm/repo.py:203-233 | a successful scan sets the scanned fields. A failed one keeps url, repoRoot and revision, and keeps dirty only if the report did not parse |
| RepoAudit.ScanFailure | pym/bob/scm/repo.py:235-240 | an error is raised exactly when the scan fails, and it is the scan's error |
| RepoAudit.RepoAudit.ScanDir | pym/bob/scm/repo.py:182-240 | _scanDir stores dir and leaves the fields ScanFields gives; it raises ScanFailure and queries QueriedDirs; after a successful scan the persisted record is the dir argument with the scanned url, revision and flag |
| RepoAudit.RepoAudit.Store | pym/bob/scm/repo.py:183-233 | the assignments of dir and the scanned fields |
| RepoAudit.MissingKey | pym/bob/scm/repo.py:244-249 | the first key _load lacks, in read order; absent exactly when all four keys are present |
| RepoAudit.LoadRecord | pym/bob/scm/repo.py:244-249 | _load as a whole: the record of dir, url, revision and dirty, or the KeyError for the first of them that is missing |
| RepoAudit.DumpRecord | pym/bob/scm/repo.py:251-259 | dump(): "type" is "repo", and dir, url, revision and dirty are the record's |
| RepoAudit.RepoAudit.Load | pym/bob/scm/repo.py:244-249 | _load assigns dir, url, revision and dirty in that order; a missing key raises and leaves the later fields as they were |
| RepoAudit.RepoAudit.Dump | pym/bob/scm/repo.py:251-259 | dump matches the audit SCHEMA and loads back to the record |
| RepoAudit.RepoAudit.GetStatusLine | pym/bob/scm/repo.py:261-262 | the status line ends in "-dirty" exactly when dirty, unless `url@revision` already ends that way |
| RepoAudit.StatusLine | pym/bob/scm/repo.py:261-262 | getStatusLine(): url, "@", revision, then "-dirty" when dirty |
| RepoAudit.GitFailureIsNotParseFailure | pym/bob/scm/repo.py:201-228 | a git failure message never equals the parse failure message |
| RepoAudit.ScanParseFailure | pym/bob/scm/repo.py:196-201 | the scan fails to parse exactly when `repo info` completed but one of the three lists is empty |
| RepoAudit.ListsDirtyIff | pym/bob/scm/repo.py:203-224 | on the cleaned lists, the outcome is dirty exactly when some zipped project's HEAD differs |
| RepoAudit.ScanDirtyIff | pym/bob/scm/repo.py:203-224 | a successful scan is dirty exactly when some examined project's HEAD differs from its current revision |
| RepoAudit.ListsStopAtFirstMismatch | pym/bob/scm/repo.py:222-224 | on the cleaned lists, git runs up to and including the stopping point, and answers beyond it change nothing |
| RepoAudit.ScanStopsAtFirstMismatch | pym/bob/scm/repo.py:222-224 | the scan queries only up to the first mismatch or failure, and answers beyond it change neither the result nor the queries |
| RepoAudit.ListsKeepLast | pym/bob/scm/repo.py:230-233 | a successful outcome on the cleaned lists holds their last entries |
| RepoAudit.ScanSucceeded | pym/bob/scm/repo.py:184-233 | a successful scan ran `repo info`, parsed it and walked the cleaned lists |
| RepoAudit.CleanedLast | pym/bob/scm/repo.py:206-233 | the last cleaned mount path and revision are the raw ones without colour and stripped; the project names are kept raw |
| RepoAudit.ScanKeepsLastEntries | pym/bob/scm/repo.py:230-233 | a successful scan keeps the stripped last project name as url, and the last mount path and revision without colour, stripped |
| RepoAudit.ListsGitFailure | pym/bob/scm/repo.py:224-228 | on the cleaned lists, a failing query with no mismatch before it fails the outcome |
| RepoAudit.ScanGitFailure | pym/bob/scm/repo.py:224-240 | a HEAD query that fails before any mismatch aborts the scan with an unexpected-error BuildError and no record |
| RepoAudit.DumpLoads | pym/bob/scm/repo.py:244-259 | dump yields the five keys of the schema, and _load of it gives the record back |
| RepoAudit.SchemaLoadsAndDumps | pym/bob/scm/repo.py:173-180 | a mapping the schema accepts loads, and dumping what it loads gives the mapping back |
| RepoAudit.ScanDumps | pym/bob/scm/repo.py:182-259 | dump after a successful scan has the schema's keys and no repoRoot: the dir argument, the last project name stripped, the last revision without colour codes, stripped, and dirty exactly when some examined HEAD differs |
| RepoAudit.DumpedFields | pym/bob/scm/repo.py:251-259 | dump puts each persisted field under its key and leaves repoRoot out |
| RepoAudit.StatusLineMarksDirty | pym/bob/scm/repo.py:261-262 | the line starts with `url@revision` and ends in "-dirty" exactly when dirty |
| RepoAudit.StatusLineSplits | pym/bob/scm/repo.py:261-262 | when the url holds no '@', the first '@' of the line ends the url, and what follows it is the revision, then "-dirty" exactly when the record is dirty |
| RepoAudit.ThreeWalk | pym/bob/scm/repo.py:211-233 | with three projects where only the second HEAD differs, the loop stops at the second and records the third |
| RepoAudit.ThreeProjects | pym/bob/scm/repo.py:182-233 | the same scenario from the rendered `repo info` text: dirty, git never asked about the third project, and the third project recorded |
| RepoAudit.NoProjectsNoRecord | pym/bob/scm/repo.py:196-201 | a report without a "Project:" entry fails the scan with the parse failure |

## Left out

- **XML parsing.** Parsing the `repo info --xml` answer with ElementTree (`repo.py:150-153`) is a parameter, `parseInfo`. `None` stands for the exceptions a malformed answer raises.
- **Path operations.** `os.path.join` and `os.path.normpath` in `asJenkins` are a parameter (`joinPath`). The `cwd` of `callRepo` is taken as given.
- **`os.path.isdir`.** The `dir/.repo` test in `invoke` is a boolean input, `markerExists`.
- **External processes.** `repo`, `git` and `invoker.checkCommand` are inputs, not effects:
  - their output, exit status and `str()` of their exception are given;
  - the `await` points and the suspension they imply are not modelled;
  - the debug `print` calls are not modelled.
- **`repo info`'s working directory.** `_scanDir` runs `repo info` in `workspace`; the model takes its result as an input, so `workspace` is not a parameter. The `extra` argument is unused by the source.
- **Base classes and helper modules.** These are not part of this model:
  - the base classes `Scm` and `ScmAudit`, and `pym/bob/scm/scm.py`;
  - the base `getProperties`, which is the `base` dict parameter;
  - `ScmStatus`, which is a sequence of taints;
  - `pym/bob/utils.py` (`check_output`, and `joinLines`, which is modelled from its use);
  - `pym/bob/errors.py`. `str()` of a `BuildError` is taken to be its slogan.
  - the `schema` library. `SCHEMA` is a predicate on mappings (`MatchesSchema`, `MatchesAuditSchema`), and an `if` condition is accepted as a str only.
- **Unmodelled members.** `getDirectory`, `hasJenkinsPlugin` and `getAuditSpec` return a field or a constant, and are not modelled.
- **Strings.** Strings are sequences of code points.
  - `int()` and `str.isnumeric()` accept ASCII digits only. Python's two functions disagree beyond ASCII: `int()` also accepts other Unicode decimal digits and underscores, while `isnumeric()` also accepts numerics that `int()` rejects.
  - `errors="replace"` decoding is not modelled.
- RepoScm.Invoke: does not model what `repo init` and `repo sync` do to the directory. It models only which commands run and in what order.
- RepoScm.Status: models the exceptions it does not absorb as a `Failure(Uncaught)` result, not as a raised exception.
- RepoAudit.RepoAudit.Load: requires `WellTyped`: every value present has the type of its field. Python would store a value of any type.
- RepoAudit.RepoAudit.constructor: starts with empty fields; the Python object has no attribute until a scan or a load sets it.
- RepoAudit.RepoAudit.ScanDir: assigns the fields once, through `Store`. The source assigns `dir` first, then `dirty`, then the others; the final state is the same and no other code observes the fields in between.
- RepoAudit.Cleaned: strips each mount path and revision once, before the loop. The source strips where it uses each value (the `cwd`, the comparison, the last entries), which gives the same values.
- RepoScm.DeterministicRevisionIsInteger: holds only because `RepoScm.IsDeterministic` uses the ASCII-only `isnumeric`. Python's `str.isnumeric()` is also true for characters such as "²", "½" and "一", on which `int()` raises ValueError. A revision "²" makes the program's isDeterministic() (repo.py:122-123) return True, and status() then raises an uncaught ValueError at repo.py:158. The model does not capture this disagreement.
- RepoScm.SchemaAdmitsConfig: takes a groups list to hold strings only. SCHEMA's `list` admits items of any type; getProperties would store such a list as given, and invoke's `",".join` would raise TypeError on it.
- RepoAudit.RepoAudit.GetStatusLine: states the "-dirty" property only when `url@revision` does not itself end in "-dirty".

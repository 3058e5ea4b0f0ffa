# CPQA in Dafny

CPQA is a regression-test harness for CP2K. Each test input carries `#CPQA`
directives. These say which numbers to harvest from the output (scalar,
compare-scalar and script tests), how many times the reference was reset,
and which other inputs it depends on. A run proceeds in five stages:

- discover the active inputs below the input directory;
- select them by name, timing and dependency closure;
- order them by the expected duration of their dependency chains;
- write one Makefile rule per job;
- run every job through a driver that classifies the outcome with a set of flags.

A text or HTML log then summarises these flags. Four scripts sit around this
core:

- the legacy importer (in the package and as an older stand-alone script)
  converts the CP2K `TEST_TYPES` / `TEST_DIRS` / `TEST_FILES` /
  `TEST_FILES_RESET` lists into directives;
- `cpqa-reset` appends reset records for the tests that only differ from
  their reference;
- `cpqa-add-dependency` prepends a `DEPENDS` directive;
- `cpqa-driver` judges one job.

The project has one module per source file:

| module | file | models |
|---|---|---|
| `Shell` | shell.dfy | `tail` |
| `Configuration` | config.dfy | `Config` validation, derived names and argument classification |
| `Fragments` | fragments.dfy | the scalar and array harvesting fragments |
| `Tests` | tests.dfy | test factories, the `run`/`complete` rules, harvesting |
| `Data` | data.dfy | directive scanning in `TestInput`, `TestResult` |
| `Work` | work.dfy | discovery, dependency resolution, shuffling |
| `Runner` | runner.dfy | selection, closure, sort keys, sorting, Makefile text |
| `Driver` | driver.dfy | `scripts/cpqa-driver.py` |
| `Log` | log.dfy | the summary counters, problem sections and `diff_html` tagging |
| `Importer` | importer.dfy | `cpqa/importer.py` |
| `LegacyImport` | legacyimport.dfy | `scripts/cpqa-import.py` |
| `Reset` | reset.dfy | `scripts/cpqa-reset.py` |
| `AddDependency` | adddependency.dfy | `scripts/cpqa-add-dependency.py` |

Three modules hold shared helpers:

- `Wrappers` holds `Option`, `Result` and the Python exceptions as values.
- `PyStr` models the Python string operations used: slicing, `strip`,
  `split`, `find`, `lower`/`upper` and decimal printing.
- `Host` holds `Paths`, a model of `os.path`.

The outside world is a parameter throughout:

- A `Host.Env` value answers every question that the code puts to the
  filesystem or to a foreign library. This covers whether a path is a file
  or a directory, a file's lines, `normpath`, `shlex.split`, `float()`/`int()`
  parsing, whether a regex compiles, regex search and `%`-formatting.
- `open` of a path that is not a regular file raises IOError (`Host.Open`).
- Directory walks, return codes, `make`'s output, the user's answers, the
  environment variable `EDITOR` and the random choices of `shuffle` are
  given as inputs.
- Floating-point numbers are `real`.

Where the source mutates objects, the model is imperative:

- fragments, tests, the runner and the configuration are classes;
- loops are `while`/`for` loops proved against specification functions.

Pure branching code becomes functions and lemmas.

## Model

| member | source | states |
|---|---|---|
| Shell.ReadBack | cpqa/shell.py:41-52 | the data read backwards in 1024-character chunks is a suffix of the file, and is either the whole file or holds at least `lines + 1` newlines; nothing is read for a negative count |
| Shell.LastPieces | cpqa/shell.py:46-56 | the last n pieces of a split on newlines are the same for the whole file and for any suffix holding n newlines, which is why reading backwards is enough |
| Shell.SplitOnAround | cpqa/shell.py:56 | splitting around one separator splits both sides independently |
| Shell.Tail | cpqa/shell.py:38-56 | for a positive count, the last `lines` lines of the file split on newlines (at most `lines` of them), nothing for an empty file, nothing for a negative count |
| Work.CandidateOfIsInput | cpqa/work.py:50-53 | a file name the walk keeps ends in `.inp`, and its prefix is the path with the input directory and `.inp` removed |
| Work.CandidatesAreInputs | cpqa/work.py:49-53 | every candidate of the whole walk is such an input |
| Work.CandidatesAppend | cpqa/work.py:49-50 | the candidates of a longer walk continue the candidates of its beginning |
| Work.ConstructorKeepsNames | cpqa/data.py:31-33 | `TestInput(fn, prefix)` keeps the name and prefix it is given |
| Work.LoadActiveAppend | cpqa/work.py:49-56 | discovering a longer list continues the discovery of its beginning, and stops at the first exception |
| Work.LoadActiveKeepsActive | cpqa/work.py:54-56 | discovery keeps exactly the active inputs: each active input is kept, and each kept input is active and comes from a candidate |
| Work.WalkFilesIsLoadActive | cpqa/work.py:50-56 | the loop over the files of one directory extends its input by the active inputs among the directory's candidates |
| Work.WalkDirsIsLoadActive | cpqa/work.py:49-56 | the nested walk loops produce the active inputs among all candidates, or the first exception |
| Work.WalkFilesStops | cpqa/work.py:50-56 | an exception among the first files of a directory is the exception of the directory |
| Work.WalkDirsStops | cpqa/work.py:49-56 | an exception in the first directories is the exception of the walk |
| Work.DiscoverIn | cpqa/work.py:50-56 | the inner loop computes the directory step of the walk |
| Work.Discover | cpqa/work.py:48-56 | the walk loop computes the active inputs among all candidates, or the first exception |
| Work.LookupKeys | cpqa/work.py:58 | the lookup holds exactly the prefixes of the inputs, each mapped to an input with that prefix |
| Work.LookupFindsEach | cpqa/work.py:58 | with distinct prefixes every input is found under its own prefix |
| Work.TargetsResolve | cpqa/work.py:60 | resolution succeeds iff every dependency prefix is known, gives the inputs in order, and otherwise raises KeyError for the first unknown prefix |
| Work.ResolveErrorNone | cpqa/work.py:59-62 | the resolution loop fails iff it fails for some input |
| Work.ResolveOneNone | cpqa/work.py:59-62 | with distinct prefixes an input resolves iff every dependency is a known prefix and it does not depend on itself |
| Work.ResolveErrorStops | cpqa/work.py:59-62 | the first failing input decides the error of the whole loop |
| Work.Resolve | cpqa/work.py:59-62 | the loop gives the error of the first input whose lookup or self-dependency check fails |
| Work.PreparedInputs | cpqa/work.py:35-62 | every prepared input is active, ends in `.inp`, and its prefix is its path inside the input directory |
| Work.Shuffle | cpqa/work.py:64 | the shuffle is a permutation of the list |
| Work.Swap | cpqa/work.py:64 | an exchange of two positions is a permutation that moves only those two |
| Work.Below | cpqa/work.py:64 | `int(random() * n)` is a position below n |
| Work.Prepare | cpqa/work.py:31-64 | `Work(config)` fails exactly when the preparation does, with the same exception; otherwise it gives a permutation of the prepared inputs |
| Data.TestOf | cpqa/data.py:46-50 | a TEST directive's arguments are split shell-style: an unsplittable line raises ValueError, no words raise IndexError, an unknown lower-cased first word raises KeyError, and otherwise the outcome is exactly that of the factory it names called with the remaining words |
| Data.DependPathDropsSuffix | cpqa/data.py:51-53 | a dependency names its argument without the last four characters, inside the prefix's directory |
| Data.ExtraNameIsWord | cpqa/data.py:55-60 | an auxiliary file name comes from a line of exactly two words, and holds no space |
| Data.ExtraOf | cpqa/data.py:54-68 | an ordinary line contributes an auxiliary path exactly when it is not a directive, names a file, and that file exists next to the input; the path is the name next to the prefix, normalised |
| Data.ScanLineFails | cpqa/data.py:40-68 | one line raises iff it is a TEST line whose factory call raises |
| Data.ScanLineKeeps | cpqa/data.py:32-33 | reading a line keeps the input's name and prefix |
| Data.ScanLineActive | cpqa/data.py:41-43 | after a line the input is active iff it was already or the line is a directive |
| Data.ScanLineResets | cpqa/data.py:44-45 | a RESET line adds one to the reset count, any other line none |
| Data.ScanLineTests | cpqa/data.py:46-50 | a TEST line appends its test, any other line nothing |
| Data.ScanLineDepends | cpqa/data.py:51-53 | a DEPENDS line appends its dependency, any other line nothing |
| Data.ScanLineExtras | cpqa/data.py:54-68 | an ordinary line naming an existing file appends its normalised path, any other line nothing |
| Data.ScanFails | cpqa/data.py:39-69 | reading the file raises iff some TEST line's factory call raises |
| Data.ScanKeeps | cpqa/data.py:32-33 | reading the file keeps the name and prefix |
| Data.ScanActive | cpqa/data.py:34-43 | the input is active iff some line is a directive |
| Data.ScanCountsResets | cpqa/data.py:35-45 | the reset count is the number of RESET lines |
| Data.ScanCollectsTests | cpqa/data.py:36-50 | the tests are those of the TEST lines, in file order |
| Data.ScanCollectsDepends | cpqa/data.py:37-53 | the dependencies are those of the DEPENDS lines, in file order |
| Data.ScanCollectsExtras | cpqa/data.py:38-68 | the auxiliary paths are those of the ordinary lines naming existing files, in file order |
| Data.ScanAppend | cpqa/data.py:40-68 | the scan of a longer file continues the scan of its beginning, and an exception stops it |
| Data.ExtraPaths | cpqa/data.py:71-75 | one recorded path per name |
| Data.TestExtrasFails | cpqa/data.py:70-75 | collecting the files the tests need fails iff some entry is not a test, and then with AttributeError |
| Data.TestExtrasStopAt | cpqa/data.py:70-75 | the first entry that is not a test stops the collection |
| Data.TestExtrasAreScripts | cpqa/data.py:70-75 | when every entry is a test, the files they need are exactly the scripts of the script tests, in order |
| Data.AsWrittenRejectsEveryTest | cpqa/data.py:70-75 | as written, every input with a TEST directive fails with AttributeError on `extra_inputs`, while the corrected constructor loads it |
| Data.LoadedRecordsScripts | cpqa/data.py:38-75 | a loaded input keeps the scanned auxiliary paths, then adds the recorded scripts of its tests |
| Data.LoadedKeeps | cpqa/data.py:32-33 | a loaded input has the name and prefix it was given |
| Data.LoadedActive | cpqa/data.py:34-43 | a loaded input is active iff its file holds a directive |
| Data.Load | cpqa/data.py:31-75 | the constructor opens the file, raising IOError when it is not a regular file, and its loops compute the corrected loading of the file |
| Data.LoadedNeedsFile | cpqa/data.py:39 | both the corrected and the as-written constructor raise IOError for a path that is not a regular file, and load only regular files |
| Host.Open | cpqa/data.py:39 | opening a path succeeds iff it is a regular file, giving its lines, and otherwise raises IOError |
| Data.AddTestExtras | cpqa/data.py:70-75 | the loop over the tests appends the paths of the files they need, or stops with the first exception |
| Data.AddPaths | cpqa/data.py:71-75 | the inner loop appends the recorded path of every name |
| Data.ReadLine | cpqa/data.py:40-68 | one pass of the reading loop computes the step of the scan |
| Data.NewTestResult | cpqa/data.py:78-91 | a test result keeps every value it is given, and its script time is the total time minus the CP2K time |
| Fragments.ColumnValue | cpqa/tests.py:63 | `float(line.split()[column])` succeeds iff the line has that column (Python indexing, negative from the end) and its word parses as a float |
| Fragments.LastMatch | cpqa/tests.py:56-59 | the index of the last line the regex finds, or -1: no later line matches |
| Fragments.ScalarKeepsLastMatch | cpqa/tests.py:56-59 | after feeding lines a scalar fragment holds exactly the most recent matching line, or what it held before when none matches |
| Fragments.ScalarStepIdempotent | cpqa/tests.py:56-59 | feeding the same line twice does no more than feeding it once |
| Fragments.ScalarDigest | cpqa/tests.py:61-63 | a value is read only from exactly one kept line; a failing conversion leaves the old value and reports the exception |
| Fragments.ScalarFragment.constructor | cpqa/tests.py:48-54 | a new scalar fragment keeps its regex and column and holds no line and no value |
| Fragments.ScalarFragment.Feed | cpqa/tests.py:56-59 | feeding replaces the kept lines by the line when the regex finds it, so at most one line is kept |
| Fragments.ScalarFragment.Digest | cpqa/tests.py:61-63 | digesting sets the value and error as the scalar digest describes |
| Fragments.IdleIgnoresLines | cpqa/tests.py:81-86 | an idle array fragment ignores every line the start regex does not find |
| Fragments.CollectingAppends | cpqa/tests.py:86-92 | while collecting, lines without a stop match are skipped for the first `skip` lines and appended after that |
| Fragments.BlockIsCollected | cpqa/tests.py:81-92 | a block from a start line to a stop line leaves the fragment idle holding the block's lines after the first `skip` |
| Fragments.FeedAllAppend | cpqa/tests.py:81-92 | feeding a longer text continues from the state its beginning left |
| Fragments.ArrayRowValues | cpqa/tests.py:98-101 | a parsed row holds, in order, the float of every requested column |
| Fragments.ArrayRowsShape | cpqa/tests.py:96-102 | parsed rows form a table with one row per line and one value per column |
| Fragments.ArrayFragment.constructor | cpqa/tests.py:70-79 | a new array fragment keeps its arguments, is idle and holds no lines and no data |
| Fragments.ArrayFragment.Feed | cpqa/tests.py:81-92 | feeding a line performs one step of the start/skip/collect/stop state machine |
| Fragments.ArrayFragment.Digest | cpqa/tests.py:94-105 | no lines give no data; otherwise the parsed table, or the first exception with the data left as it was |
| Fragments.ParseRows | cpqa/tests.py:96-102 | the outer loop parses the rows, stopped by the first exception |
| Fragments.ParseRow | cpqa/tests.py:98-101 | the inner loop parses one row, stopped by the first exception |
| Fragments.RowErrorExtends | cpqa/tests.py:100-101 | the first column that fails to parse decides the row's exception |
| Fragments.RowsErrorExtends | cpqa/tests.py:97-102 | the first row that fails to parse decides the table's exception |
| Tests.FnsExtra | cpqa/tests.py:291-295 | a test needs an extra file iff it is a script test, and then exactly its script |
| Tests.IntWord | cpqa/tests.py:350 | `int(word)` succeeds iff the word parses as an integer, and gives that integer |
| Tests.FloatWord | cpqa/tests.py:355 | `float(word)` succeeds iff the word parses as a float, and gives that float |
| Tests.ScalarFactory | cpqa/tests.py:347-364 | two to four words build a scalar test from regex, column, expected value and threshold, failing iff a number does not parse or the regex does not compile; a regex that does not compile after the numbers parse raises `re.error` from the test's constructor; any other count raises TypeError |
| Tests.CompareScalarFactory | cpqa/tests.py:371-382 | three or four words build a compare-scalar test from prefix, regex, column and threshold, failing iff a number does not parse or the regex does not compile; a regex that does not compile after the numbers parse raises `re.error`; any other count raises TypeError |
| Tests.Compiled | cpqa/tests.py:168-170 | building a scalar test succeeds iff its regex compiles, and otherwise raises `re.error` for that pattern |
| Tests.ScriptFactory | cpqa/tests.py:389-395 | the script factory never raises: two or more words build a script test whose script and arguments are the words, fewer words return (not raise) a TypeError object |
| Tests.FactoriesKeyedByDirective | cpqa/tests.py:398-403 | each factory sits under the directive name of the tests it builds |
| Tests.DifferentIsRelativeGap | cpqa/tests.py:195-198 | a test value is different iff it lies more than 1e-15 times the reference from the reference (a zero reference: iff the value is not zero) |
| Tests.WrongIsRelativeGap | cpqa/tests.py:204-207 | a value is wrong iff its gap to a nonzero expected value exceeds threshold times that value, or its size exceeds the threshold when the expected value is zero |
| Tests.ExactIsAccepted | cpqa/tests.py:192-209 | a value identical to its reference is never different, nor wrong against itself for a non-negative threshold |
| Tests.ScalarRun | cpqa/tests.py:192-209 | the run sets `different` unless new and `wrong` when there is an expected value; arithmetic on a missing value raises TypeError exactly when a needed value is missing, keeping the flags set before, with a message naming the two operands' types in order |
| Tests.CompleteRunsClean | cpqa/tests.py:189-209 | a complete scalar test runs without an exception, and without an expected value a run without exception is complete unless the input is new and has no test value |
| Tests.LogPrefix | cpqa/tests.py:307-309 | the log prefix is the first argument, the script name and the other arguments, joined by dashes |
| Tests.Test.constructor | cpqa/tests.py:139-295 | a new test keeps its directive's values and `fns_extra`, has no flags yet, and owns fresh empty fragments for its roles |
| Tests.Test.Run | cpqa/tests.py:192-316 | a scalar run sets the flags as the scalar rule says, a compare-scalar test first takes its expected value from its other output; a script run records the exit status and is wrong iff it is nonzero, and raises exactly `ScriptError`: IndexError without arguments, AttributeError before `harvest_other`, and IOError from `tail` when it failed and a log is missing; a complete scalar test, and a script test `ScriptError` lets through, runs without exception |
| Tests.Test.ScriptError | cpqa/tests.py:306-316 | a script run raises nothing iff it has arguments and a directory and, after a nonzero exit status, both its `.stdout` and `.stderr` logs exist; IndexError without arguments, AttributeError without a directory, otherwise IOError |
| Tests.Test.HarvestOther | cpqa/tests.py:151-301 | a script test records the directory of the input, a compare-scalar test harvests the output of its other input into its `exp` fragment, a scalar test does nothing |
| Tests.HarvestedBy | cpqa/tests.py:122-134 | harvesting a missing file leaves a fragment as it was |
| Tests.HarvestTwiceIsOnce | cpqa/tests.py:122-134 | harvesting the same file twice leaves a fragment as harvesting it once |
| Tests.DigestMessage | cpqa/tests.py:130-134 | a digest records one traceback iff it raises |
| Tests.FileErrors | cpqa/tests.py:123-124 | a missing file records no message |
| Tests.DigestErrorIgnoresValue | cpqa/tests.py:61-63 | whether a digest raises does not depend on the value held before |
| Tests.DigestTwiceIsOnce | cpqa/tests.py:61-63 | digesting twice leaves the value one digest leaves |
| Tests.HarvestFile | cpqa/tests.py:122-134 | every fragment ends as the harvest of the file describes, and the messages gain the tracebacks of the digests |
| Tests.FeedLines | cpqa/tests.py:126-128 | the feeding loop leaves every fragment holding what feeding it all lines gives |
| Tests.FeedLine | cpqa/tests.py:127-128 | one line fed to every fragment, a fragment listed twice seeing it twice to the same effect |
| Tests.DigestAll | cpqa/tests.py:130-134 | the digesting loop digests every fragment and records the tracebacks in order |
| Tests.DigestOne | cpqa/tests.py:131-134 | one fragment digested and its traceback recorded |
| Tests.TstFragments | cpqa/tests.py:113 | the test fragments are exactly the `tst` fragments of the tests that have one |
| Tests.RefFragments | cpqa/tests.py:111 | the reference fragments are exactly the `ref` fragments of the tests that have one |
| Tests.HarvestTest | cpqa/tests.py:108-119 | unless new, the reference output is harvested into the `ref` fragments; the test output into the `tst` fragments; every script test records the input's directory; messages are only appended |
| Tests.HarvestOutputs | cpqa/tests.py:109-114 | both outputs are harvested into their own roles' fragments |
| Tests.HarvestRefs | cpqa/tests.py:110-112 | the reference output goes into every `ref` fragment, and the `tst` fragments keep what they held |
| Tests.HarvestTsts | cpqa/tests.py:113-114 | the test output goes into every `tst` fragment, and the `ref` fragments keep what they held |
| Tests.RolesApart | cpqa/tests.py:111-113 | a fragment of one role is never among the fragments of another role |
| Tests.HarvestOthers | cpqa/tests.py:115-119 | the loop calls every test's `harvest_other`: every script test records the input's directory, others keep theirs, messages are only appended |
| Tests.HarvestOtherOf | cpqa/tests.py:116-119 | one call of `harvest_other`, its exception recorded as a message |
| Tests.HarvestOtherStep | cpqa/tests.py:115-119 | one iteration of the `harvest_other` loop keeps the loop state |
| Log.AddFlags | cpqa/log.py:92-93 | the inner counting loop adds one job's flags to the counters |
| Log.Count | cpqa/log.py:89-93 | the counting loops give the counters of all jobs |
| Log.BumpedCounts | cpqa/log.py:92-93 | adding a dict's items keeps the counted keys plus the dict's keys, and adds to each key the number of its items that are raised |
| Log.RaisesOwnItem | cpqa/log.py:92-93 | with each key once, a key is counted once iff its own value is raised |
| Log.NotRaised | cpqa/log.py:92-93 | a key that no item carries is not counted |
| Log.SameKeys | cpqa/log.py:89-93 | every job's flags dict has the same keys |
| Log.CountersTally | cpqa/log.py:89-160 | without jobs there are no counters; otherwise the counters have exactly the keys of the flags dict, and each counts the jobs that raised that flag |
| Log.ProblemsAreNotOk | cpqa/log.py:42-173 | a job gets a problem section iff its `ok` flag is false, and the sections follow the jobs' order |
| Log.ProblemsAndOkCounter | cpqa/log.py:42-93 | the problem sections and the `ok` counter together account for every job |
| Log.Lookup | cpqa/log.py:84 | `flags[key]` is the key's value when the dict has the key, and raises KeyError otherwise |
| Log.NoLeakKey | scripts/cpqa-driver.py:61-118 | the driver's flags dict has no `leak` key |
| Log.SectionsAsWrittenFail | cpqa/log.py:42-86 | as written, the problem sections complete iff every job is ok; the first job that is not ok raises KeyError for `leak` |
| Log.BelowTransitive | cpqa/log.py:95 | the string order used by `sorted` is transitive |
| Log.BelowTotal | cpqa/log.py:95 | any two different strings are ordered one way or the other |
| Log.LeastExists | cpqa/log.py:95 | a non-empty set of keys has a least element |
| Log.SortedKeysSorted | cpqa/log.py:95-161 | sorting the keys lists each key exactly once, in strictly increasing order |
| Log.SortedUnique | cpqa/log.py:95-161 | two strictly increasing sequences with the same elements are equal, so the sorted order is determined by the keys |
| Log.SummaryOrderIsTagOrder | cpqa/log.py:95 | sorting the keys of the flags dict lists them in the driver's key order |
| Log.CountTextShowsCount | cpqa/log.py:96-165 | a count shows as '-' iff it is zero or less, otherwise as digits that read back as the count; the text log right-aligns it in five characters |
| Log.CountersSorted | cpqa/log.py:89-95 | the sorted keys of the counters of a non-empty run are the keys of the flags dict in order |
| Log.SummaryRow | cpqa/log.py:95-100 | a row shows its key's capital initial, the key in capitals and that key's count |
| Log.SummaryOfRun | cpqa/log.py:89-167 | after a non-empty run the summary has one row per flag in key order, each showing '-' iff no job raised the flag and otherwise the number of jobs that did; the TOTAL row reads back as the number of jobs |
| Log.StyleRules | cpqa/log.py:253-270 | each markup style is chosen exactly when its own rule matches and no earlier rule does |
| Log.MarkupKeepsLine | cpqa/log.py:252-271 | a printed line is the diff line without its last character, between an opening and a closing tag of one style, unmarked for plain lines |
| Log.DiffHtml | cpqa/log.py:249-272 | the printed lines are the marked-up diff lines, in order, inside a `<pre>` element |
| Driver.ParseArgsCases | scripts/cpqa-driver.py:28-39 | three or four arguments whose first is an existing file are accepted, with an empty MPI prefix when there are three; any other count raises TypeError, a missing binary ValueError |
| Driver.OkMeans | scripts/cpqa-driver.py:116-118 | a job is ok iff nothing is wrong, missing, failed or in error, and it is different only when reset; the reset flag matters only when the job is different |
| Driver.Entries | scripts/cpqa-driver.py:45-118 | the flags dict has nine non-empty keys |
| Driver.EntriesSorted | scripts/cpqa-driver.py:45 | the keys listed in strictly increasing order, as `sorted` lists them |
| Driver.TagCharShowsFlag | scripts/cpqa-driver.py:46-49 | a flag shows as '-' iff it is not raised, and otherwise as the capital of its key's initial |
| Driver.Tag | scripts/cpqa-driver.py:44-49 | the tag loop writes one character per flag, in order |
| Driver.StatusTag | scripts/cpqa-driver.py:42-50 | the status tag reads D, E, F, M, N, O, R, V, W for the raised flags in that order, '-' for the others |
| Driver.Completes | scripts/cpqa-driver.py:102 | the completeness of each test, as the loop reads it |
| Driver.MissingMeans | scripts/cpqa-driver.py:101-103 | after the first tests, `missing` is raised iff one of them is incomplete |
| Driver.WrongInMeans | scripts/cpqa-driver.py:101-110 | after the first tests, `wrong` is raised iff one of the complete ones ended wrong |
| Driver.DifferentInMeans | scripts/cpqa-driver.py:101-112 | after the first tests, `different` is raised iff one of the complete ones ended different |
| Driver.RunError | cpqa/tests.py:192-316 | only a script test raises when complete: IndexError without arguments, AttributeError without a directory, and with exit status 0 nothing else |
| Driver.AllRunnableMeans | scripts/cpqa-driver.py:104-108 | the loop's running record says every complete test among the first could run iff each of them is runnable |
| Driver.TracebacksMeans | scripts/cpqa-driver.py:104-108 | the loop records no traceback iff every complete test among the first could run |
| Driver.RunTests | scripts/cpqa-driver.py:96-112 | the test loop runs every complete test, raising `missing`, `wrong` and `different` as the tests say; its messages are the given ones followed by the traceback of each complete test that raised, in test order |
| Driver.RunTest | scripts/cpqa-driver.py:105-108 | a complete test raises exactly `RunError`, so it raises nothing iff it is runnable |
| Driver.RunOne | scripts/cpqa-driver.py:102-112 | one iteration of the test loop keeps the loop state, appending the test's traceback iff it is complete and raised |
| Driver.Preamble | scripts/cpqa-driver.py:92-97 | the messages before the tests run: the harvest's messages, preceded by an error when RESET directives were lost |
| Driver.Judge | scripts/cpqa-driver.py:71-118 | with the five-argument call of line 97 mended and the loaded tests given, the flags `main` sets: failed iff CP2K returned nonzero, verbose iff it printed anything, new iff there is no reference, reset iff RESET directives were added, error iff there are messages, ok by the pass rule, and the others and the tracebacks from the test loop |
| Driver.Drive | scripts/cpqa-driver.py:56-128 | the corrected `main`, with line 97 mended and the outputs' tails and the loaded tests given: it fails exactly when its arguments do, with the same exception; otherwise it leaves the judged flags and messages, and promotes the output iff it is new or reset and ok |
| Driver.BeforeHarvest | scripts/cpqa-driver.py:73-90 | no exception before line 97 iff the three outputs `tail` opens exist and `TestInput` loads the test input and, when a reference pickle exists, the reference input; a missing output is IOError |
| Driver.DriveAsWritten | scripts/cpqa-driver.py:56-97 | `main` as written always raises: the arguments' exception, else the first exception before line 97, else TypeError for the five-argument `harvest_test` call |
| Driver.AsWrittenRaises | scripts/cpqa-driver.py:82-97 | as written, a test input whose TEST directives all build raises AttributeError at line 82, and one without TEST directives and no reference raises TypeError at line 97 |
| Driver.JudgedResets | scripts/cpqa-driver.py:85-94 | a new input is never a reset and keeps the harvest's messages; an input that lost RESET directives has an error, is not ok, not a reset and not promoted |
| Driver.JudgedTests | scripts/cpqa-driver.py:96-114 | `missing` iff some test is incomplete, `wrong` (`different`) iff some complete test ended wrong (different), and `error` iff harvesting left a message, RESET directives were lost or some complete test raised; a raising complete test makes the job not ok |
| Configuration.IntOf | cpqa/config.py:48-52 | `isinstance(v, int)` holds for ints and for bools |
| Configuration.Get | cpqa/config.py:34-39 | a setting config.py does not define takes its default |
| Configuration.ValidateAccepts | cpqa/config.py:34-59 | config.py is accepted iff its root, arch and version are strings, its process counts are strictly positive integers, and its MPI prefix is None or a string that formats with the MPI process count; the accepted settings are those values |
| Configuration.ValidateDefaults | cpqa/config.py:34-47 | without `arch` or `version` nothing is accepted (TypeError); with only those two the defaults `../cp2k`, 1, 1 and no prefix apply |
| Configuration.Classify | cpqa/config.py:78-93 | one argument either extends the selection or raises ValueError |
| Configuration.Select | cpqa/config.py:72-93 | the selection loop raises only ValueError |
| Configuration.SelectStops | cpqa/config.py:77-93 | the first exception ends the loop: later arguments do not change it |
| Configuration.SelectAccepted | cpqa/config.py:72-93 | an accepted argument list sorts its input files and directories into the prefixes and directories below the input directory, in order, holds at most one timing restriction, and names only files, directories and timings |
| Configuration.SelectRefuses | cpqa/config.py:84-93 | an argument that is neither an existing file or directory nor a timing, or a second timing, is refused |
| Configuration.Config.constructor | cpqa/config.py:34-68 | a new configuration holds the checked settings and the names derived from them and the date tag, and selects nothing yet |
| Configuration.Config.New | cpqa/config.py:29-70 | `Config(args)` raises IOError without config.py, the first failing check's exception for bad settings, and otherwise the selection's exception or a new configuration holding the settings, names and selection |
| Configuration.Config.ParseArgs | cpqa/config.py:72-93 | `parse_args` succeeds iff the selection does, raising its exception otherwise, and on success the fields hold the selection |
| Runner.WorkGraph | cpqa/work.py:58-62 | the resolved inputs form a dependency graph: every input under its own prefix, every dependency a known input |
| Runner.Closure | cpqa/runner.py:98-110 | the inputs with their dependencies include the inputs and stay among the known inputs |
| Runner.DepsMonotone | cpqa/runner.py:105-107 | more inputs have at least the dependencies of fewer |
| Runner.ClosureIsLeast | cpqa/runner.py:98-110 | the closure is closed under `depends` and lies inside every closed set holding the inputs |
| Runner.ClosureIdempotent | cpqa/runner.py:98-110 | adding the dependencies twice adds nothing the first time did not |
| Runner.ClosureOfMember | cpqa/runner.py:98-110 | the closure of one member of a closed set lies inside it |
| Runner.AddUnchecked | cpqa/runner.py:105-107 | the inner loop adds every dependency not yet checked to the work list |
| Runner.WithDependencies | cpqa/runner.py:98-110 | `_with_dependencies` returns exactly the closure of its argument |
| Runner.CheckNext | cpqa/runner.py:102-109 | one pass of the work-list loop moves the popped input to the result, queues its unchecked dependencies and keeps the loop invariant |
| Runner.Plus | cpqa/runner.py:131-136 | a sum of timings is missing iff a term is |
| Runner.TotalPick | cpqa/runner.py:131-136 | the sum over a set can take any member first |
| Runner.TotalNone | cpqa/runner.py:132-134 | the summed timing is missing exactly when some input has no reference result |
| Runner.SumTimings | cpqa/runner.py:130-136 | the loop over the needed inputs adds up their timings, or breaks off with None at the first one without a reference |
| Runner.SortKey | cpqa/runner.py:127-137 | an input's sort key is the summed timing of itself and everything it needs |
| Runner.Compare | cpqa/runner.py:139-147 | the comparator returns -1, 0 or 1 |
| Runner.CompareOrders | cpqa/runner.py:139-148 | the comparator is antisymmetric, and in reverse order it puts a before b exactly when their keys are ordered that way (missing keys first, then larger keys) |
| Runner.InsertSorted | cpqa/runner.py:148 | inserting into a sorted list keeps it sorted and adds exactly the element |
| Runner.SortByKeySorts | cpqa/runner.py:148 | the sort is a permutation that orders the inputs from slowest to fastest, those without timing first |
| Runner.SortByKeyStable | cpqa/runner.py:148 | the sort is stable: the inputs sharing a sort key keep their relative order |
| Runner.NameSelectionPicks | cpqa/runner.py:56-76 | an input is added iff its prefix is selected or starts with a selected directory, or nothing is selected; the discovery order is kept and nothing is duplicated |
| Runner.TimingSelectionKeeps | cpqa/runner.py:78-96 | an input stays iff it meets every bound that is set, inputs without a reference meeting none; the order is kept and nothing added |
| Runner.InPrefixes | cpqa/runner.py:62-66 | the prefix loop finds a prefix iff it is selected |
| Runner.InDirs | cpqa/runner.py:69-72 | the directory loop finds a directory iff the prefix starts with one of the selected directories |
| Runner.NameSelectionSnoc | cpqa/runner.py:60-72 | one more discovered input extends the selection by that input iff it is selected |
| Runner.KeyFor | cpqa/runner.py:127-137 | the sort key of a prefix is the summed timing of everything it needs |
| Runner.KeyedByAppend | cpqa/runner.py:127-137 | assigning the key of one more input extends the keyed inputs by that input |
| Runner.References | cpqa/runner.py:45-53 | the reference timing looked up for each added input |
| Runner.Chosen | cpqa/runner.py:56-96 | the inputs chosen by name and timing are among the discovered inputs |
| Runner.Needed | cpqa/runner.py:112-123 | the needed inputs include the chosen ones and stay among the known inputs |
| Runner.MultisetPrefixes | cpqa/runner.py:148 | reordering the inputs keeps their prefixes |
| Runner.ExtraStep | cpqa/runner.py:121-122 | appending the input of one missing prefix keeps the state of the `select_dependencies` loop |
| Runner.Runner.Empty | cpqa/runner.py:31-34 | a runner over the discovered inputs starts with an empty selection |
| Runner.Runner.AddTestInput | cpqa/runner.py:45-54 | `_add_test_input` appends the input and records its reference timing |
| Runner.Runner.SelectName | cpqa/runner.py:56-76 | `select_name` appends the name selection and records the references of what it added |
| Runner.Runner.SelectStep | cpqa/runner.py:60-72 | one pass of the `select_name` loop, stated on the selection so far |
| Runner.Runner.SelectOne | cpqa/runner.py:60-72 | one input is appended iff it is selected |
| Runner.Runner.SelectTiming | cpqa/runner.py:78-96 | `select_timing` keeps the timing selection of the inputs |
| Runner.Runner.SelectDependencies | cpqa/runner.py:112-123 | `select_dependencies` keeps the selection as a prefix and appends, once each, exactly the inputs the selection needs and lacks, so the selection becomes its closure |
| Runner.Runner.AddExtra | cpqa/runner.py:121-122 | one pass of the `select_dependencies` loop |
| Runner.Runner.AssignSortKeys | cpqa/runner.py:127-137 | every selected input gets the summed timing of everything it needs as its sort key, and other keys are kept |
| Runner.Runner.AssignOne | cpqa/runner.py:128-137 | one pass of the key-assignment loop |
| Runner.Runner.SortTestInputs | cpqa/runner.py:125-148 | `sort_test_inputs` assigns the keys, then sorts the inputs by them |
| Runner.Runner.constructor | cpqa/runner.py:31-38 | the selection of `Runner.__init__` holds exactly the inputs needed by those chosen by name and timing, sorted slowest first by their sort keys, each the summed timing of everything it needs |
| Runner.InputPathsOf | cpqa/runner.py:153-158 | a path is copied iff it is some job's input or one of its extra files |
| Runner.CollectPaths | cpqa/runner.py:154-158 | the loops of `copy_inputs` collect exactly those paths |
| Runner.Outs | cpqa/runner.py:172-176 | one output file per prefix, in order |
| Runner.PrefixList | cpqa/runner.py:172 | the prefixes of the jobs, in order |
| Runner.RulesOfEachJob | cpqa/runner.py:173-189 | the Makefile holds three lines per job in job order: its rule, its command, an empty line |
| Runner.AllTargetLists | cpqa/runner.py:172 | the `all` target names the output of every job, in job order, when no prefix holds a space |
| Runner.RulePrerequisites | cpqa/runner.py:174-177 | the prerequisites of a job's rule are the outputs of exactly its dependencies, in order |
| Runner.CreateMakefile | cpqa/runner.py:168-190 | the lines the loop writes are the Makefile |
| Runner.MakeJobs | cpqa/runner.py:194-197 | `make -j` gets all processes without MPI, and otherwise the floor of processes over MPI processes |
| Runner.FollowMake | cpqa/runner.py:192-215 | each line `make` prints that starts with CPQA-PREFIX gives one progress line, numbered and with its percentage; no jobs with such a line divide by zero; a nonzero return code raises RuntimeError |
| Runner.MarkedGrows | cpqa/runner.py:205-211 | lines marked early remain marked in the whole output |
| Importer.TypeTextCut | cpqa/importer.py:39 | a TEST_TYPES line is cut at its first '#', or loses its last character when it has none (`find` returning -1), and stripped; the result holds no '#' |
| Importer.TypesOfShape | cpqa/importer.py:38-42 | every recorded test type is non-empty and holds no '#' |
| Importer.TypesOfComplete | cpqa/importer.py:38-42 | every line with a non-empty type text gives a recorded test type |
| Importer.ParseTypes | cpqa/importer.py:35-43 | an empty TEST_TYPES raises StopIteration; otherwise the types of every line after the first, in order |
| Importer.DirsOfLines | cpqa/importer.py:46-52 | the test directories are exactly the stripped lines that are not comments |
| Importer.ParseDirs | cpqa/importer.py:46-52 | the loop over TEST_DIRS records those directories |
| Importer.FileEntryParses | cpqa/importer.py:61-63 | a TEST_FILES line is accepted iff it has exactly two words and the second is an integer; the entry keeps its directory, the first word and the 1-based index less one; anything else raises ValueError |
| Importer.EntriesOfLines | cpqa/importer.py:58-63 | a TEST_FILES is read iff each of its lines is a comment or an entry, and then there is one entry per line that is not a comment, all in its directory |
| Importer.ParseFiles | cpqa/importer.py:57-64 | the loop over one TEST_FILES reads its entries or stops at the first bad line |
| Importer.EntriesStop | cpqa/importer.py:58-63 | the first bad line decides the exception |
| Importer.AllEntriesStop | cpqa/importer.py:56-64 | the first bad directory decides the exception |
| Importer.AllEntriesOpen | cpqa/importer.py:55-64 | reading the entries succeeds iff every listed directory's TEST_FILES is a regular file and parses |
| Importer.ParseAllFiles | cpqa/importer.py:55-64 | the loop over the directories reads all entries in directory order, or stops at the first exception |
| Importer.GroupShape | cpqa/importer.py:79-90 | the comments recorded for a file name are never empty, and are non-blank unless they are the single empty comment |
| Importer.CommentRunShape | cpqa/importer.py:79-84 | the comments gathered from a run of comment lines are all non-blank |
| Importer.NamesShareGroup | cpqa/importer.py:86-94 | consecutive file names share the comments recorded for the first of them |
| Importer.FirstNameGroup | cpqa/importer.py:79-91 | the first name after comment lines records their non-blank comments, or one empty comment when there are none |
| Importer.ParseResets | cpqa/importer.py:76-94 | the state machine over a TEST_FILES_RESET yields each file name, joined to its directory, with the comments before its run of names |
| Importer.ResetLine | cpqa/importer.py:78-94 | one pass of the loop keeps its variables equal to the pairs read so far, the current group's comments, and whether a name ended the lines read |
| Importer.AddResetsCollects | cpqa/importer.py:93-94 | `setdefault(...).append(...)` leaves each key with its old groups followed by the new groups for that key, and a key is present iff it was or some entry names it |
| Importer.ResetEntriesGroups | cpqa/importer.py:88-90 | every recorded group holds at least one comment |
| Importer.AddResetsGroups | cpqa/importer.py:93-94 | recording only non-empty groups keeps every recorded group non-empty |
| Importer.ResetInfoGroups | cpqa/importer.py:67-95 | every reset group the loading records holds at least one comment, so `reset[0]` never fails |
| Importer.ResetInfoOpen | cpqa/importer.py:67-70 | reading the resets succeeds iff every listed directory's TEST_FILES_RESET is a regular file, and otherwise raises IOError |
| Importer.ResetInfoStop | cpqa/importer.py:67-70 | the first TEST_FILES_RESET that cannot be opened decides the exception |
| Importer.AppendResets | cpqa/importer.py:93-94 | the appending loop records the entries of one file |
| Importer.CollectResets | cpqa/importer.py:67-95 | the loop over the directories skips two lines of each TEST_FILES_RESET and records all its groups, or raises the IOError of the first one that cannot be opened |
| Importer.Load | cpqa/importer.py:34-95 | the four reading loops compute the loading of the legacy lists, including each IOError of `open` |
| Importer.LegacyOfCases | cpqa/importer.py:34-95 | loading succeeds iff TEST_TYPES and TEST_DIRS open, TEST_TYPES has a first line to skip, and every directory's TEST_FILES and TEST_FILES_RESET can be read; a missing TEST_TYPES or TEST_DIRS raises IOError, an empty TEST_TYPES StopIteration; a loaded result holds the types after the first line, the directories, the entries and the non-empty reset groups |
| Importer.IsConverted | cpqa/importer.py:151-158 | the loop answers true iff some stripped line is `#CPQA CONVERTED` |
| Importer.ReplaceExtends | cpqa/importer.py:117-118 | escaping one more character by `replace` after escaping others is escaping the larger set |
| Importer.ReplaceAppend | cpqa/importer.py:117-118 | `replace` works piece by piece |
| Importer.EscapeNone | cpqa/importer.py:117-118 | escaping no character changes nothing |
| Importer.EscapeRegexEscapes | cpqa/importer.py:117-118 | the four chained replaces put a backslash before each of `\|`, `(`, `)` and `+`, and change nothing else |
| Importer.EscapeHead | cpqa/importer.py:117-118 | an escaped string begins with a backslash iff its first character is special, and otherwise with that character |
| Importer.EscapeRoundTrip | cpqa/importer.py:117-118 | unescaping gives back the regex, for special characters other than the backslash |
| Importer.TestDirectiveParses | cpqa/importer.py:114-121 | the test directive exists iff the index names a test type with one '!' followed by an integer column, and is built from the part before the '!' and that column |
| Importer.ResetLines | cpqa/importer.py:123-126 | one printed line per comment of a reset |
| Importer.ResetCountAppend | cpqa/data.py:44-45 | RESET lines count piece by piece |
| Importer.ResetLinesCount | cpqa/importer.py:124-126 | each reset prints exactly one `#CPQA RESET` line, first |
| Importer.ResetBlockCount | cpqa/importer.py:122-126 | the reset block holds one `#CPQA RESET` line per reset |
| Importer.NoResetLines | cpqa/importer.py:112-119 | the mark and the scalar directive are not RESET lines |
| Importer.ScalarDirective | cpqa/importer.py:119-121 | the scalar directive line starts with `#CPQA TEST SCALAR '` |
| Importer.HeaderShape | cpqa/importer.py:110-126 | the header starts with `#CPQA CONVERTED`, holds the scalar directive iff the input has a test type, and one `#CPQA RESET` line per reset of the input, so that reading the converted file counts them |
| Importer.Copied | cpqa/importer.py:128-129 | one copied line per source line |
| Importer.CopyDropsNewline | cpqa/importer.py:128-129 | a copied line is the source line without its newline |
| Importer.CopyLines | cpqa/importer.py:128-129 | the copying loop writes the copied lines |
| Importer.ConversionShape | cpqa/importer.py:108-131 | an input already converted is copied without header; any other input gets the header and fails exactly when the header does; the copied lines always end the output |
| Importer.Convert | cpqa/importer.py:108-131 | one pass of the conversion loop writes the conversion |
| Importer.SequencedSteps | cpqa/importer.py:103-131 | a run of steps succeeds iff every step does and then yields their values in order; otherwise it yields the first failing step's exception |
| Importer.SequencedStop | cpqa/importer.py:103-131 | the first failing step ends the run |
| Importer.OutputsPerInput | cpqa/importer.py:103-131 | the import writes one file per input, in order, and succeeds iff every input converts |
| Importer.FileForInput | cpqa/importer.py:104-109 | each input's source is read below `tests`, raising IOError when it is not a regular file, and its output written below the input directory, in its own directory |
| Importer.ConvertFile | cpqa/importer.py:103-131 | one pass of the corrected loop opens the input's source, raising IOError when it is missing, and converts it |
| Importer.ConvertAll | cpqa/importer.py:103-131 | the corrected conversion loop writes the files of every input, or stops at the first exception |
| Importer.ImportMain | cpqa/importer.py:31-131 | `import_main` raises the loading's exception, and otherwise writes the converted file of every input, or stops at the first exception (the corrected loop, without the extras step of line 133) |
| Importer.ExtrasError | cpqa/importer.py:133-134 | the extras step as written always raises: IOError when the `tests` path is not a regular file (a directory, in any CP2K tree), else the constructor's own exception, else AttributeError on `paths_extra` |
| Importer.RunStop | cpqa/importer.py:103-135 | once a pass of the loop as written raises, the later inputs do not matter |
| Importer.AsWrittenStopsAfterFirst | cpqa/importer.py:103-135 | as written, a non-empty run writes at most the first input's file and then raises: the extras exception when the first input converts, its conversion error otherwise |
| Importer.AsWrittenMissesSecond | cpqa/importer.py:103-135 | whenever the corrected loop converts two inputs or more, the loop as written writes only the first of those files and raises |
| Importer.ConvertAllAsWritten | cpqa/importer.py:103-135 | the loop as written, extras step included, produces the written files and the exception of the as-written run |
| LegacyImport.SingleValueEscapes | scripts/cpqa-import.py:115 | the legacy script escapes only `\|`, and unescaping gives back the regex |
| LegacyImport.SingleValueLineStarts | scripts/cpqa-import.py:114-116 | the directive line starts with `#CPQA TEST SINGLE-VALUE '`, so a later scan reads it as a TEST directive |
| LegacyImport.SingleValueDirective | scripts/cpqa-import.py:112-116 | every single-value directive the script writes for a test type has that shape |
| LegacyImport.HeaderShape | scripts/cpqa-import.py:110-121 | the header starts with `#CPQA FOO`, holds the single-value directive iff the input has a test type, and one `#CPQA RESET` line per reset of the input |
| LegacyImport.ConversionShape | scripts/cpqa-import.py:98-124 | a `.restart` input gives no file; any other input, converted before or not, gets the header and ends with its copied lines |
| LegacyImport.Convert | scripts/cpqa-import.py:99-124 | one pass of the loop computes the conversion of one input |
| LegacyImport.TallyCounts | scripts/cpqa-import.py:98-124 | every input is either written or printed, once |
| LegacyImport.ActionKind | scripts/cpqa-import.py:99-139 | an input is printed iff it is a `.restart` input; any other input that is not a regular file raises IOError; a written input goes to its place below the input directory, starts with the FOO mark, and has a source that `TestInput` loads without raising |
| LegacyImport.OutputsAccount | scripts/cpqa-import.py:98-139 | the run succeeds iff every input's action succeeds, and then written files and printed names together account for every input |
| LegacyImport.Step | scripts/cpqa-import.py:99-139 | one step of the loop gives the action for one input: skipping a `.restart` input before opening it, then opening, converting, writing and loading the source with `TestInput` |
| LegacyImport.ConvertAll | scripts/cpqa-import.py:98-139 | the loop gives the actions of all inputs, or stops at the first exception |
| LegacyImport.ImportAll | scripts/cpqa-import.py:33-139 | `main()` after its configuration: it raises the exception of loading the legacy lists, and otherwise gives the outcome of the loop over every loaded input; the `Config()` call of line 31 is left out |
| Reset.Editor | scripts/cpqa-reset.py:58-62 | the editor is `$EDITOR` when it is set and `vi` otherwise |
| Reset.Motivation | scripts/cpqa-reset.py:65-84 | the motivation is the option's text, or the edited file's, or empty when no file was left; it is refused with exit status 1 iff it is blank after stripping, and is otherwise the stripped text |
| Reset.ConfirmedMeans | scripts/cpqa-reset.py:116-117 | the reset goes ahead iff the answer is `y` or `Y` |
| Reset.WithoutMembers | scripts/cpqa-reset.py:103-104 | deleting a key from the flags removes exactly that key's entry |
| Reset.RemainingItems | scripts/cpqa-reset.py:103-105 | after deleting `different` and `verbose`, the remaining entries are exactly the other flags |
| Reset.RaisedRemains | scripts/cpqa-reset.py:105-106 | a test with any other flag raised is skipped |
| Reset.NothingRemains | scripts/cpqa-reset.py:105-107 | a test with no other flag raised is not skipped by that check |
| Reset.QualifiesMeans | scripts/cpqa-reset.py:101-107 | a test is reset iff it is `different` and shows none of the other flags, `ok` included |
| Reset.QualifiesAfterJudging | scripts/cpqa-reset.py:101-107 | for flags as the driver sets them, this is: different, and neither failed, new, reset, in error, missing nor wrong |
| Reset.DifferentMembers | scripts/cpqa-reset.py:94-107 | a selected prefix is kept iff its pickle exists and its flags qualify |
| Reset.GetDifferent | scripts/cpqa-reset.py:87-108 | the loop keeps, in order, the selected tests whose pickle exists and whose flags qualify |
| Reset.MotivationLines | scripts/cpqa-reset.py:122 | one comment line per line of the motivation |
| Reset.MotivationLinesAreComments | scripts/cpqa-reset.py:122 | every line starts with `# `, and dropping those marks and joining with newlines gives back the motivation |
| Reset.Targets | scripts/cpqa-reset.py:126-129 | one target per selected test, a TEST_FILES_RESET below `tests` in the test's directory and the test's `.inp` name |
| Reset.Names | scripts/cpqa-reset.py:128 | one input name per target |
| Reset.TodoPerFile | scripts/cpqa-reset.py:125-131 | with a fresh list per file, a file is modified iff some test lives in its directory, and gets the motivation lines followed by just the names of those tests |
| Reset.NamesForSome | scripts/cpqa-reset.py:126-131 | a file gets names iff some target names it |
| Reset.DoReset | scripts/cpqa-reset.py:120-137 | the corrected loop builds exactly that mapping from files to appended lines |
| Reset.DoResetAsWritten | scripts/cpqa-reset.py:120-131 | as written, the modified files are exactly the reset files of the selected tests, and every one of them maps to the one `motivation` list, which ends up holding the motivation lines followed by the names of all selected tests |
| Reset.SharedListMixesDirectories | scripts/cpqa-reset.py:130-131 | when two selected tests live in different directories, the shared list holds a name that the per-file list of the first directory lacks |
| Reset.NamesForCount | scripts/cpqa-reset.py:126-131 | a file that some target does not name gets fewer names than there are targets |
| Reset.ResetSelected | scripts/cpqa-reset.py:149-157 | `main()` from line 149 on, with the corrected `do_reset`: it exits with status 1 unless the answer confirms and the motivation is not blank, and otherwise appends the motivation and its own directory's names to the reset file of each qualifying test's directory |
| AddDependency.ParseArgsAccepts | scripts/cpqa-add-dependency.py:32-41 | the arguments are accepted iff there are two, both existing files named `.inp`, and are then returned; a wrong count raises TypeError and the other checks ValueError |
| AddDependency.NewContentKeepsData | scripts/cpqa-add-dependency.py:44-54 | the new file is the DEPENDS directive followed by the old content, untouched, with the directive's newline as the first; refused arguments raise their exception |
| AddDependency.DirectiveIsRead | scripts/cpqa-add-dependency.py:52 | a later scan of the input reads the written line as a DEPENDS directive whose path ends in the dependency's name without `.inp` |

## Left out

- Running CP2K, test scripts and `make` (`os.system`, `subprocess`): return codes and `make`'s output lines are inputs.
- Copying, `makedirs`, `rmtree`, symlinks and `os.walk` are left out. Only the path set that `copy_inputs` acts on is modelled. The extra paths the importers collect are not returned, and the `tst--…--last` link of `cpqa/work.py:42-46` is not modelled at all.
- Pickling and unpickling of results: the flags read back are inputs.
- `du` and `get_disk_usage` in `cpqa/shell.py` are not modelled: they only run a command.
- Timers, `datetime.now` and the measured seconds are left out; the seconds are inputs.
- `random()`: `Work.Shuffle` runs Python 2's `random.shuffle` loop over caller-given draws in [0, 1), so every permutation is covered but no distribution is.
- IEEE rounding is not captured: numbers are `real`, and `1e-15` is an exact constant.
- Regex matching, `shlex.split`, number parsing, `normpath` and `%`-formatting are functions of `Host.Env`, not implemented.
- Text and HTML rendering in `log.py` is left out: the general information, job lists, CSS, `diff_txt` and `diff_html_file`. Only the counters, the problem-section choice and the per-line `diff_html` tags are modelled, and `difflib`'s output lines are inputs.
- The `get_command`, `log_txt` and `log_html` methods of the tests in `cpqa/tests.py` only print, and are not modelled.
- Copying the collected extra files is left out: `cpqa/importer.py:137-148` and `scripts/cpqa-import.py:141-152` only copy files. The step that collects them is modelled. In `cpqa/importer.py:133-134` it always raises (see Findings); in `scripts/cpqa-import.py:135-137` its `TestInput` call is part of each input's action, but the collected paths are not returned.
- Importer.ConvertFile: a pass of the corrected loop, without the extras step of `cpqa/importer.py:133-135`. That step includes the `TestInput` that a mended line 133 would construct on the input's own file. As written the step always raises; `Importer.ConvertAllAsWritten` models it.
- Importer.ConvertAll: the corrected loop over all inputs, without the extras step. As written, the loop stops after the first input (see Findings).
- Importer.OutputsPerInput: states the corrected loop; the loop as written writes at most one file (`Importer.AsWrittenStopsAfterFirst`).
- Importer.ImportMain: loads the lists as written, then runs the corrected loop; as written `import_main` raises after writing the first input.
- Importer.Outputs and LegacyImport.Outputs: a run that raises is reported by its exception alone; the files written before it are not part of the result. `Importer.RunAsWritten` keeps them for the loop as written. An input whose header fails records no file, although the source has already opened its destination (`cpqa/importer.py:109`) and printed `#CPQA CONVERTED` (`:112`) before `test_directive` raises IndexError or ValueError (`:115`, `:120`), leaving a partial file.
- `LastWork` and `Config.filter_inputs_name` are not part of this model, because they are not defined in the files modelled. The reset script's candidate prefixes and their flags are parameters.
- The reset script's temporary file, `$EDITOR` call and `raw_input` are inputs. Its final printed feedback is left out.
- Python dict iteration order: the log's counters follow sorted keys, as the source sorts them. Reset files are a map, so the order in which they are written is not modelled.
- `harvest_test` reads `test_input.path_inp` and `path_out`, which `TestInput` never defines; the model takes these paths as parameters.
- The driver calls `harvest_test` with five arguments against its four parameters. The corrected driver model therefore takes the harvest's messages as an input, and `harvest_test` is modelled by its own text.
- Driver.Drive: models `main` with the call of `scripts/cpqa-driver.py:97` mended, so that it reaches the test loop. The tails of CP2K's outputs (`:73-75`, IOError for a missing file) and the `TestInput` loads of `:82` and `:88` (IOError for a missing `.inp`, AttributeError for any TEST directive) are given as parameters. As written, `main` raises on every run, at `:97` with TypeError if not before (`Driver.DriveAsWritten`).
- Driver.Judge: states the flags of `main` with the call of `scripts/cpqa-driver.py:97` mended and the loaded tests given. As written, `main` raises TypeError at `:97`, before `wrong`, `different`, `error` and `ok` are set (`Driver.DriveAsWritten`).
- `Config()` is called without arguments by `cpqa-main.py`, and with `use_last` by the reset script; the model follows the signature in `cpqa/config.py`.
- Reset.ResetSelected: starts after `scripts/cpqa-reset.py:148`. That line calls `Config(args, use_last=True)`, while `cpqa/config.py:29` accepts no `use_last`, so as written `main()` raises TypeError before anything else runs. The member then runs the corrected `do_reset` (`Reset.DoReset`); as written every reset file gets the motivation and the names of all selected tests (`Reset.DoResetAsWritten`).
- Configuration.IntOf: Python 2 `long` values are not modelled. A setting such as `nproc = 2**70` is a `long`, fails `isinstance(v, int)` at `cpqa/config.py:48` and `:52` and raises TypeError, while the model's unbounded integer accepts it.
- LegacyImport.ImportAll: starts after `scripts/cpqa-import.py:31`. That line calls `Config()` without the `args` that `cpqa/config.py:29` requires, so as written `main()` raises TypeError before it reads anything.
- `imp.load_source` of `config.py` and the removal of `config.pyc` are not modelled: the settings read are an input.
- `scripts/cpqa-main.py`, `cpqa/compiler.py`, `setup.py` and `config.example.py` are not part of this model. They are orchestration or packaging only.
- Tests.HarvestTest: states the `ref` and `tst` harvest and that every test's `harvest_other` runs. The compare-scalar `exp` harvest is stated only by `Tests.Test.HarvestOther`, not repeated in this contract.
- Tests.HarvestOthers: states that every test's own `harvest_other` runs, leaving the `exp` fragment's content to `Tests.Test.HarvestOther`.
- Log.Count: reads the jobs as `Runner._test_inputs`. `cpqa/log.py:90` reads `runner.test_inputs`, which `Runner` does not define (`cpqa/runner.py:34` sets `_test_inputs`), so as written the count raises AttributeError.
- Log.CountersTally: counts over `_test_inputs`. As written, `cpqa/log.py:90` and `:157` read the undefined `runner.test_inputs` and raise AttributeError.
- Log.ProblemsAreNotOk: models the problem sections with the attribute reads mended. `cpqa/log.py:42` reads the undefined `runner.test_inputs`, `:46` reads `test_input.path_inp`, which `TestInput` never sets (`cpqa/data.py:31-38`), and `:79` and `:82` read `last_stdout_lines` and `last_stderr_lines`, while `TestResult` has `last_o_lines` and `last_e_lines` (`cpqa/data.py:80-89`). Each raises AttributeError as written.
- Log.ProblemsAndOkCounter: rests on the loops of `cpqa/log.py:42` and `:90`, read as loops over `_test_inputs`; as written both raise AttributeError.
- Log.SummaryOfRun: the summary as it would be printed once `cpqa/log.py:90` and `:157` loop over `_test_inputs`; as written they raise AttributeError first.
- Log.SectionsAsWrittenFail: models `cpqa/log.py:42-84` with the reads of lines 42, 46, 79 and 82 mended; as written, line 42 already raises AttributeError for every run.
- Fragments.ScalarFragment.constructor: does not model `re.compile` raising at `cpqa/tests.py:50`. It is called only by the scalar tests that Tests.ScalarFactory and Tests.CompareScalarFactory build, and these raise `re.error` first for a pattern that does not compile.
- Fragments.ArrayFragment.constructor: does not model `re.compile` raising at `cpqa/tests.py:72-74`; nothing in the repository constructs an `ArrayFragment`.
- Tests.Test.Run: the tails that `cpqa/tests.py:315-316` store as `last_stdout_lines` and `last_stderr_lines` are not kept. Only their IOError for a missing log is modelled, because only the log's text rendering, which is left out, reads them.
- Shell.Tail: says nothing for `lines == 0`, where Python's `[-0:]` returns every line.

## Findings

| source | as written | input that shows it | evidently intended | confidence | as-written member | corrected member |
|---|---|---|---|---|---|---|
| cpqa/data.py:70-75 | `test.extra_inputs` is read, but tests define `fns_extra` | any input holding a `#CPQA TEST` directive raises AttributeError | the extra files of each test (`fns_extra`) are added to the auxiliary paths | not executed | Data.AsWrittenRejectsEveryTest | Data.LoadedRecordsScripts |
| scripts/cpqa-reset.py:130-131 | `todo.setdefault(reset_file, motivation)` stores the one `motivation` list for every reset file | two selected tests `a/x` and `b/y`: both `a/TEST_FILES_RESET` and `b/TEST_FILES_RESET` get `x.inp` and `y.inp` | each reset file gets the motivation followed by the names of its own directory's tests | not executed | Reset.SharedListMixesDirectories | Reset.TodoPerFile |
| cpqa/log.py:84 | `result.flags['leak']` is read, but the driver never sets a `leak` flag | once the attribute reads of lines 42, 46, 79 and 82 are mended, any job whose `ok` flag is false raises KeyError while its problem section is written | the leak note appears only when a `leak` flag is set and true | not executed | Log.SectionsAsWrittenFail | Log.ProblemsAreNotOk |
| cpqa/importer.py:133-134 | `TestInput` is constructed on the `tests` directory instead of the input, and `paths_extra` is read where `TestInput` sets `extra_paths` | any tree with two inputs: the first file is written, then line 133 raises IOError, so the second input is never converted | every input is converted and written, and its extra paths are collected | not executed | Importer.AsWrittenMissesSecond | Importer.OutputsPerInput |
| scripts/cpqa-driver.py:97 | `harvest_test(tstpath, refpath, tests, flags['new'], messages)` passes five arguments, while `cpqa/tests.py:108` declares four parameters | any run whose arguments parse, whose outputs exist and whose test input has no TEST directive and no reference: TypeError at line 97, so no pickle is written | the tests' fragments are harvested from the test and reference outputs, and `main` goes on to judge the tests | not executed | Driver.AsWrittenRaises | Driver.Drive |

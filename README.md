# lgsl golden-output test harness, modelled in Dafny

The lgsl repository checks its Lua test scripts with `tests/test-output.py`.
The harness walks the `tests` tree. In each directory it visits the file
names in sorted order and treats every name matching `([^.]+)\.lua$` as a
test script. It runs each script under `luajit` and compares the captured
standard output exactly with `<name>.expect`. It prints one line per test,
`"%s %-24s %s" % (led, testname, msg)`, and writes
`tests/log/<name>.output.diff` for every failing test.

This project models the decision logic of that loop. The I/O is abstract
input: `run(dirpath, filename)` is the captured output (None when the launch
raised `CalledProcessError`), and `refs(dirpath, testname)` is the reference
text (None when reading it raised `IOError`).

- `wrappers.dfy`: `Option`.
- `name_order.dfy` (module `NameOrder`): Python 2 string order and
  `sorted(filenames)` as an insertion sort. It is proved sorted, a
  permutation of its input, and independent of the order of the listing.
- `discovery.dfy` (module `Discovery`): the file-name regex and the test name.
- `verdicts.dfy` (module `Verdicts`): the five verdicts, their markers and
  messages, and the classification of one run.
- `report.dfy` (module `Report`): the `%-24s` padding, the report line, the
  diff artifact text and its name.
- `harness.dfy` (module `Harness`): the test cases of a listing and the
  report and log of a directory and of a walk, as specification functions.
  It also holds class `Harness`, with fields `report` (the printed lines)
  and `log` (the contents of `tests/log`). Its constructor runs the
  clearing loop on the earlier contents of `tests/log`. `RunTest` (one
  iteration of the inner loop), `RunDirectory` (the sorted inner loop) and
  `RunTree` (the outer loop over the walk) update both fields.

Three behaviours of the code are kept as written:

- Launch failure and a missing reference can both occur. The code assigns
  `run_error` twice, so the later value wins. A missing reference therefore
  hides a launch failure. The model does not reorder the two checks.
- Empty output against a reference holding a single newline is a `fail`,
  not a `pass / no output`. The comparison is exact, and the "no output"
  check applies only when output and reference are equal
  (`Verdicts.ClassifyExamples`).
- Python's `$` also matches just before one trailing newline, so
  `"x.lua\n"` is recognised as test `x`. The model states this exactly
  instead of excluding newlines from file names.

## Model

| member | source | states |
|---|---|---|
| `Discovery.MatchTestName` | tests/test-output.py:36-39 | a recognised file name is a non-empty dot-free name followed by `.lua`, optionally followed by one newline; the result is that name |
| `Discovery.MatchTestNameComplete` | tests/test-output.py:36-39 | every file of that shape is recognised, with exactly that name |
| `Discovery.MatchTestNameExact` | tests/test-output.py:36-37 | no match exactly when no name makes the file a script; a matching name is unique |
| `Discovery.MatchTestNameExamples` | tests/test-output.py:36 | `mat.lua` gives `mat`, and `x.lua\n` gives `x` |
| `Discovery.NotTestNameExamples` | tests/test-output.py:36-37 | `a.b.lua`, `.lua`, `x.luac`, `x.expect` and `x.lua\n\n` are not tests |
| `NameOrder.SortNames` | tests/test-output.py:35 | the visiting order is sorted under Python string order and is a permutation of the listing |
| `NameOrder.ListingOrderIrrelevant` | tests/test-output.py:35 | two listings with the same entries are visited in the same order |
| `NameOrder.SortNamesOfSorted` | tests/test-output.py:35 | a listing that is already sorted is visited as given |
| `NameOrder.SortedUnique` | tests/test-output.py:35 | the sorted arrangement of a set of names is unique |
| `Verdicts.Classify` | tests/test-output.py:40-60 | an unreadable reference gives `missing expect file` whether or not the launch failed; otherwise a failed launch gives `fail to run`; otherwise exactly equal output gives `pass / no output` when it is "", "\n" or "\r\n", `pass` when it is anything else; any difference gives `fail` |
| `Verdicts.Led` | tests/test-output.py:51-60 | the marker is one character, and it is `*` exactly for the error and fail verdicts |
| `Verdicts.PassExactlyWhenEqual` | tests/test-output.py:54-60 | a launched run with a readable reference passes exactly when output and reference are equal |
| `Verdicts.AttentionExactlyOnErrorsAndFail` | tests/test-output.py:52-60 | the `*` marker appears exactly when the reference is missing, the launch failed or the texts differ |
| `Verdicts.MessageDistinguishes` | tests/test-output.py:46-60 | the printed message identifies the verdict |
| `Verdicts.ClassifyExamples` | tests/test-output.py:40-60 | concrete runs, among them: "" against "\n" fails, "42\n" against "7\n" fails, both missing gives `missing expect file` |
| `Report.PadRight` | tests/test-output.py:66 | `%-24s` keeps the whole name, pads it with blanks to at least the width, and never truncates |
| `Report.ReportLineLayout` | tests/test-output.py:66 | a report line is the marker, a blank, the whole name, blanks up to at least 24 columns, a blank and the message, and has exactly that length |
| `Report.MessageColumnAligned` | tests/test-output.py:66 | with a one-character marker and a name of at most 24 characters the message starts at offset 27 |
| `Report.DiffText` | tests/test-output.py:62-63 | the artifact is `*** reference ***\n`, the reference, a newline, `*** test program ***\n`, the output and a newline |
| `Report.DiffTextRecoverable` | tests/test-output.py:62-63 | an artifact determines both texts once the reference's length is known |
| `Report.ArtifactName` | tests/test-output.py:61 | the artifact is named `<testname>.output.diff` |
| `Report.ArtifactNameInjective` | tests/test-output.py:61 | distinct test names give distinct artifacts |
| `Harness.TestsMembers` | tests/test-output.py:35-39 | the test cases of a listing are exactly its recognised files, each with its matched name |
| `Harness.TestsAppend` | tests/test-output.py:35-37 | files are judged one by one, and the listing order is kept |
| `Harness.SkippedSilently` | tests/test-output.py:37 | a non-matching file contributes no test case wherever it appears |
| `Harness.TestsSorted` | tests/test-output.py:35 | test cases taken from a sorted listing are in sorted file-name order |
| `Harness.DirReportLines` | tests/test-output.py:66 | one report line per test case, the k-th being the line for the k-th case |
| `Harness.DirectoryReport` | tests/test-output.py:35-66 | a directory prints one line per test script, in sorted file-name order, whatever order the listing came in |
| `Harness.DirLogOnlyFailures` | tests/test-output.py:59-64 | every artifact a directory adds was written by a failing test |
| `Harness.DirLogHasFailure` | tests/test-output.py:59-64 | every failing test leaves its artifact, holding its own diff unless a later failing test of the same name overwrote it |
| `Harness.DirLogKeepsOthers` | tests/test-output.py:61-64 | log entries that no failing test names keep their content |
| `Harness.NoStaleArtifacts` | tests/test-output.py:20-21 | starting from the cleared log, every entry after a walk whose name does not start with '.' was written by a failing test of that walk |
| `Harness.HiddenEntriesSurvive` | tests/test-output.py:20-21 | entries whose names start with '.' survive the clearing and are never touched by the walk |
| `Harness.ArtifactNotHidden` | tests/test-output.py:61 | a test's artifact name never starts with '.', so the next run's clearing loop removes it |
| `Harness.ArtifactNotATest` | tests/test-output.py:36 | no artifact name is recognised as a test script |
| `Harness.HiddenNotATest` | tests/test-output.py:36 | no name starting with '.' is recognised as a test script, so the walk's listing of `tests/log` adds no test |
| `Harness.TreeReportAppend` | tests/test-output.py:34-35 | the report of a walk is the reports of its parts, in walk order |
| `Harness.TreeReportOrder` | tests/test-output.py:34-66 | a directory's lines follow those of the directories before it and precede those after it |
| `Harness.TreeReportLength` | tests/test-output.py:34-66 | a walk prints one line per test script of its directories |
| `Harness.Harness.constructor` | tests/test-output.py:20-21 | before any test runs, nothing has been printed; every non-hidden entry of the earlier log is removed, and hidden entries keep their content |
| `Harness.Harness.RunTest` | tests/test-output.py:36-66 | one file: the two `run_error` assignments in source order, the verdict branches, one appended line for a script and none otherwise, and a diff written only on `fail` |
| `Harness.Harness.RunDirectory` | tests/test-output.py:35-66 | the loop over `sorted(filenames)` appends the directory's report and applies its artifact writes |
| `Harness.Harness.RunTree` | tests/test-output.py:34-66 | the loop over the walk appends each directory's report in walk order and applies its artifact writes |

## Left out

- Creating `tests/log` and exiting on failure (tests/test-output.py:12-18): filesystem I/O and process exit.
- Harness.Harness.constructor: `tests/log` is modelled as a map of files only. If it holds a subdirectory, `os.remove` raises and the whole run aborts; the model does not represent this. The entries `glob` lists are the names not starting with '.'; those are removed and the hidden ones survive.
- The `luajit -e ""` probe and its exit (tests/test-output.py:23-28): a foreign process call.
- The `LUA_PATH` override (tests/test-output.py:9-10): it affects only the subprocess, which is abstract.
- Launching `luajit` and capturing stdout and stderr (tests/test-output.py:43-44): a foreign process. Only the captured stdout, or the launch failure, is an input. Stderr is never examined.
- Exceptions other than `CalledProcessError` when launching and `IOError` when reading (tests/test-output.py:45, 49): they escape and abort the whole run, which the model does not represent. `Popen` in fact raises `OSError`, not `CalledProcessError`, for a missing executable.
- Reading `<name>.expect` and writing the diff file (tests/test-output.py:30-32, 61-64): file I/O. The reference is an input, and the log directory is a map from entry name to content.
- The order of directories from `os.walk` (tests/test-output.py:34): `dirnames` is never sorted, so the walk is an input sequence. `tests/log` lies under `tests`, so the real walk also lists it, and that listing changes as artifacts are written. The model takes the walk as fixed. This is harmless: no artifact and no hidden entry is a test (`Harness.ArtifactNotATest`, `Harness.HiddenNotATest`).
- Progress messages printed by setup (tests/test-output.py:14, 17, 26-27) and the newline `print` adds after each report line: the report is a sequence of lines.
- Byte encoding: captured output and file names are sequences of characters, compared exactly. Python 2 works on byte strings, so `%-24s` pads to 24 bytes, not 24 characters. A name with multi-byte UTF-8 characters gets fewer blanks in the source than in `Report.PadRight`. The offset 27 in `Report.MessageColumnAligned` is a byte offset in the source.

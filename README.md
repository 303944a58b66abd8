# A verified model of a C++ micro-benchmark suite and its drivers

The repository is a set of small C++ micro-benchmarks, a Python driver and a
Python chart script:

- **The driver** (`BenchRunner` in run_benchmarks.py) holds a catalog of
  benchmark names and their executables. It launches each executable with
  `-o csv` and scrubs the output line by line into `./<name>.csv`. Scrubbing
  drops progress lines, writes the first CSV header verbatim, drops later
  summary and header lines, and strips ANSI escape sequences from the rest.
- **The chart script** (make_bencmark_charts.py) walks `./results`. It reads
  the CPU, author and compiler off each result file's path and the test name
  off its file name. It then groups every CSV row into a record keyed by
  (test, subtest name).
- **The kernels** are each a small integer computation:
  - a pivot partition;
  - a Fibonacci-mod-10 generator, as a coroutine and as a plain loop;
  - recursive and looping call chains that fail by exception or by return code;
  - filter-and-double and transform kernels over vectors;
  - a mutual recursion through plain and virtual member functions.

Each module of the project follows one part of the source:

| module | models |
|---|---|
| `Text` | the Python string operations used: `in`, `split`, `join`, slicing, `os.path.join` |
| `Ansi` | `clean_ansi_escape_sequences` |
| `Scrubber` | the per-line loop of `run_benchmark` |
| `Runner` | the catalog, `list_benchmarks`, the command line, `run_benchmark`, `run_benchmarks`, the flag selection |
| `Charts` | `parse_csv` and `get_data` |
| `Partition` | partition.cc |
| `CoroFibs` | coro-fibs/corofibs.h, coro-fibs/corofibs.cc, coro-fibs/sumfib_module.cc and corofibs.cc |
| `ExcRetRecursive` | excret/exc_ret_1.cc and excret/exc_ret_2.cc |
| `ExcRetLooping` | exc_ret_1.cc and exc_ret_2.cc |
| `RangesFilter` | ranges-filter/filter.cc |
| `RangesProjector` | ranges-projector/projector.cc |
| `VirtualOverhead` | virtual-overhead/virtual-1.cc and virtual-2.cc |

How the model represents the source:

- **State.**
  - The driver's state is a class: the result files (a map from path to lines) and the commands launched so far.
  - The coroutine frame and the generator are classes; the generator's handle is a nullable reference.
  - The benchmark fixtures are classes over their vectors.
  - The partition works in place on an `array<int>`.
- **Exceptions.** A C++ `throw` and a Python exception are the `Err` case of a `Result`.
- **The outside world.** The file system, child processes, the user's regular expression and the random draws are all parameters.

Where the code differs from what its own docstrings say, or from its evident intent, the model follows the code:

- **ANSI cleaning is not idempotent.** The docstring of `clean_ansi_escape_sequences` (run_benchmarks.py:77) says it removes ANSI escape sequences. Yet the cleaned line `ESC ESC [ m [ m` still holds `ESC [ m` (`Ansi.CleanNotIdempotent`).
- **Each benchmark runs k·k times.** The docstring of `run_benchmarks` (run_benchmarks.py:148) says it runs the selected benchmarks. Yet selecting "excret" alone launches its two executables twice each, four launches in all (`Runner.ExcretRunsTwice`). A catalog entry with k executables is run k·k times (`Runner.SquaredExecutions`). Each run truncates the result file, so only the last run's output remains.
- **One-directory paths get an empty CPU.** The evident intent is a CPU directory under ./results. Yet a result file one directory below ./results gets CPU "" rather than an error. Only a file directly in ./results raises an IndexError.
- **The recursive exception chain does not stop under `NOEXC`.** The evident intent is a benchmark that terminates. Yet `call_outer_exc` has no else branch, so the chain never ends (`ExcRetRecursive.NoExcDiverges`).
- **A second header can reach the result file.** The evident intent of the trailer rule is that later header lines are dropped. Yet a later line can split "avg_time" with an escape sequence: it then passes the trailer test, and cleaning rebuilds the header text. The file then holds the header twice (`Scrubber.HiddenHeaderWrittenTwice`).

## Model

| member | source | states |
|---|---|---|
| Text.ContainsAt | run_benchmarks.py:121-129 | `t in s` holds exactly when t occurs at some position of s |
| Text.NotContainsFirstChar | run_benchmarks.py:121 | a string whose first character is absent from s does not occur in s |
| Text.NotContainsChar | run_benchmarks.py:129 | a string holding a character absent from s does not occur in s |
| Text.ContainsAcross | run_benchmarks.py:129 | an occurrence in a + c + b, for a c the needle lacks, lies wholly in a or wholly in b |
| Text.ContainsInEitherSide | run_benchmarks.py:129 | an occurrence in a or in b is an occurrence in a + c + b |
| Text.Split | make_bencmark_charts.py:29 | `split` always gives at least one piece and no piece holds the separator |
| Text.SplitJoin | make_bencmark_charts.py:29 | joining the pieces of a split gives the string back; there is one more piece than separators |
| Text.JoinSplit | make_bencmark_charts.py:29 | splitting the join of separator-free pieces gives the pieces back |
| Text.SplitAfterPiece | make_bencmark_charts.py:29 | a separator-free piece followed by the separator comes off as the first piece |
| Text.SplitWithoutSeparator | make_bencmark_charts.py:29 | a string without the separator splits into itself alone |
| Text.SliceFrom | make_bencmark_charts.py:29 | `s[n:]` has length max(\|s\| - n, 0) and holds the characters from position n on |
| Text.SubsequenceOfSuffix | run_benchmarks.py:79-80 | a subsequence of a suffix is a subsequence of the whole |
| Ansi.EscapeAtIsPatternMatch | run_benchmarks.py:79 | the greedy scanner finds a match of length n exactly when the first n characters are in the regex's language, so the match is unique |
| Ansi.Clean | run_benchmarks.py:75-80 | the cleaned text is never longer than the input |
| Ansi.CleanIsSubsequence | run_benchmarks.py:75-80 | the cleaned text is an order-preserving subsequence of the input |
| Ansi.CleanWithoutEscape | run_benchmarks.py:75-80 | text without ESC comes out unchanged |
| Ansi.CleanKeepsLeadingText | run_benchmarks.py:79-80 | a leading character other than ESC is kept and the rest is cleaned |
| Ansi.CleanDropsLeadingEscape | run_benchmarks.py:79-80 | a complete leading escape sequence is deleted and scanning resumes after it |
| Ansi.CleanKeepsPrefix | run_benchmarks.py:79-80 | text before the first ESC comes out unchanged, in front of the cleaned rest |
| Ansi.CleanJoinsAround | run_benchmarks.py:79-80 | one escape sequence inside plain text is deleted and the text around it joined |
| Ansi.CleanNotIdempotent | run_benchmarks.py:79-80 | `ESC ESC [ m [ m` cleans to `ESC [ m`, which cleans to the empty string |
| Scrubber.PercentMarkerIsPatternMatch | run_benchmarks.py:121 | the scan accepts a line exactly when it starts with "[", whitespace, one or more digits and "%]" |
| Scrubber.ScrubStep | run_benchmarks.py:120-134 | one loop step: a line's output comes first, then the rest of the lines with the updated flag |
| Scrubber.ScrubBeforeHeaderStep | run_benchmarks.py:121-134 | before the header, a non-header line is dropped if it is progress and otherwise written cleaned |
| Scrubber.ScrubAfterHeader | run_benchmarks.py:128-134 | once the header is written, the flag never resets; progress and trailer lines are dropped and every other line is written cleaned |
| Scrubber.ScrubAtHeader | run_benchmarks.py:123-127 | the first header line is written verbatim and turns the trailer rule on |
| Scrubber.ScrubWithoutHeader | run_benchmarks.py:121-134 | with no header line, every non-progress line is written cleaned, trailer words included |
| Scrubber.ScrubWithHeader | run_benchmarks.py:119-134 | with a first header at k, the file is the cleaned lines before k, then that header verbatim, then the cleaned non-trailer lines after it: the verbatim header branch fires at most once |
| Scrubber.LineAfterHeader | run_benchmarks.py:123-134 | after the header, a line that is neither progress nor trailer is written cleaned, whatever it cleans to |
| Scrubber.HeaderIsHeaderLine | run_benchmarks.py:121-124 | the signature line itself is not progress and takes the header branch |
| Scrubber.HiddenNotProgress | run_benchmarks.py:121 | "name,avg_" ESC "[m" "time,min_time" is not a progress line |
| Scrubber.HiddenNotTrailer | run_benchmarks.py:128-130 | that line holds neither "total_operations" nor "avg_time", so the trailer rule lets it through |
| Scrubber.HiddenCleansToHeader | run_benchmarks.py:133-134 | cleaning that line gives the header signature |
| Scrubber.HiddenHeaderWrittenTwice | run_benchmarks.py:119-134 | the header followed by that line gives a file holding the header twice |
| Scrubber.ScrubBeforeHeaderCons | run_benchmarks.py:119-134 | a non-header line in front of the stream adds its cleaned line before the header |
| Scrubber.WithoutProgress | run_benchmarks.py:121-122 | no line of the filtered stream is a progress line |
| Scrubber.ProgressLinesAreInvisible | run_benchmarks.py:121-122 | removing progress lines from the stream leaves the file unchanged, whatever the header state |
| Scrubber.ScrubLine | run_benchmarks.py:121-134 | one line's rule: what it appends to the file, and that the header flag is set only by a written header |
| Scrubber.CaptureOutput | run_benchmarks.py:118-134 | the file, opened empty, ends holding the scrubbed stream in arrival order |
| Runner.DefaultCatalogIsDictionary | run_benchmarks.py:34-50 | the catalog has nine entries and no name appears twice |
| Runner.Names | run_benchmarks.py:82-86 | the names are the catalog keys in insertion order |
| Runner.LookupFindsListedName | run_benchmarks.py:92-98 | a name has an entry exactly when it is listed, and then its paths are that entry's |
| Runner.Command | run_benchmarks.py:109-113 | the executable, "-o", "csv"; then "-q" exactly when quiet; then "-r" and the resolution exactly when histograms is truthy |
| Runner.BuildCommand | run_benchmarks.py:109-113 | the list-building code produces exactly that command |
| Runner.LaunchesForStep | run_benchmarks.py:99-105 | another path adds its command when it is a file and nothing otherwise; the loop goes on either way |
| Runner.LaunchesForNext | run_benchmarks.py:99-134 | another path that is a file adds its command and rewrites ./<name>.csv with its scrubbed output; a non-file changes nothing |
| Runner.AfterLaunchesStep | run_benchmarks.py:118 | each launch truncates ./<name>.csv, so earlier output is replaced |
| Runner.CallsStep | run_benchmarks.py:154-160 | another `run_benchmark` call appends its launches and writes over the files the earlier calls left |
| Runner.CallsAppend | run_benchmarks.py:154-160 | running calls a and then calls b is running a + b |
| Runner.PassCount | run_benchmarks.py:155-158 | a name is handed over either once per executable path or never |
| Runner.CallsForStep | run_benchmarks.py:154-160 | another selected name adds its repeated calls after the earlier ones |
| Runner.CallsForNext | run_benchmarks.py:154-160 | the launches and files after k + 1 selected names are those after k names, followed by the calls for name k |
| Runner.SelectFromFlagsInOrder | run_benchmarks.py:250-254 | the selection holds exactly the flagged catalog names, in catalog order |
| Runner.AllFilesLaunchEveryPath | run_benchmarks.py:98-113 | when every path is a file, one command per path is launched, in catalog order |
| Runner.LastFileWins | run_benchmarks.py:98-118 | after `run_benchmark`, ./<name>.csv holds the scrubbed output of the last path that is a file, and no other file changes |
| Runner.RepeatedCallsLaunch | run_benchmarks.py:154-160 | n calls with one name launch its commands n times over |
| Runner.SquaredExecutions | run_benchmarks.py:88-160 | a selected benchmark with k paths, all files and passing the filter, is executed k·k times |
| Runner.NoPassingNameNoCalls | run_benchmarks.py:155-158 | names that are unknown or fail the filter are never run |
| Runner.FilterMatchingNothingRunsNothing | run_benchmarks.py:151-158 | a non-empty filter that matches no name launches nothing, whatever the selection |
| Runner.ExcretLaunchesBoth | run_benchmarks.py:88-113 | one `run_benchmark("excret")` launches exc_ret and then exc_ret_noexc |
| Runner.ExcretRunsTwice | run_benchmarks.py:140-160 | selecting "excret" alone launches exc_ret, exc_ret_noexc, exc_ret, exc_ret_noexc |
| Runner.BenchRunner.constructor | run_benchmarks.py:29-50 | the runner starts with the fixed catalog, its base directory and nothing launched |
| Runner.BenchRunner.ListBenchmarks | run_benchmarks.py:82-86 | returns the catalog keys in insertion order |
| Runner.BenchRunner.Launch | run_benchmarks.py:107-134 | appends the command to the launches and replaces ./<name>.csv with the command's scrubbed output |
| Runner.BenchRunner.RunBenchmark | run_benchmarks.py:88-138 | an unknown name launches nothing; otherwise the launches grow by each file path's command in catalog order and ./<name>.csv holds the last one's output |
| Runner.BenchRunner.RunForEachPath | run_benchmarks.py:155-160 | one whole `run_benchmark` per executable path of a name that passes the filter; none otherwise |
| Runner.BenchRunner.RunBenchmarks | run_benchmarks.py:140-160 | an empty selection means every catalog name; each name's calls happen in selection order, with the launches and files that implies |
| Charts.TestName | make_bencmark_charts.py:28 | the file name without its last four characters, whatever they are; empty for names shorter than four |
| Charts.DirSuffixEnd | make_bencmark_charts.py:25-27 | a directory path below ./results never ends in "/" |
| Charts.SplitDirInFront | make_bencmark_charts.py:29 | "/<dir>" in front of a path adds one piece <dir> |
| Charts.LayoutPieces | make_bencmark_charts.py:29 | splitting "/d1/.../dn/file" gives "", d1, ..., dn, file |
| Charts.ResultPathPieces | make_bencmark_charts.py:25-29 | a walked result path splits into the leading empty piece, its directories and its file name |
| Charts.ResultLayout | make_bencmark_charts.py:29-37 | three directories give cpu/author/compiler; one or two, or more than three, give the last two pieces as CPU and author with compiler "None"; a file directly in ./results raises IndexError |
| Charts.FieldsOfLayout | make_bencmark_charts.py:30-37 | the negative-index selection on the pieces, for each directory depth |
| Charts.ZipDictKeys | make_bencmark_charts.py:20 | a row dictionary's names are the header names up to the shorter of header and row |
| Charts.ZipDictValues | make_bencmark_charts.py:20 | each name maps to the field under its last occurrence in the header |
| Charts.ParseCsv | make_bencmark_charts.py:16-21 | an empty file raises StopIteration; otherwise the first row is the header and each later row is one dictionary |
| Charts.DigitsValue | make_bencmark_charts.py:41 | the decimal value of n's digits is n |
| Charts.NoUnderscores | make_bencmark_charts.py:41 | digits alone are unchanged by underscore removal |
| Charts.DigitsParse | make_bencmark_charts.py:41 | n's digits are well formed for `int()` and read back as n |
| Charts.ShowIntUnpadded | make_bencmark_charts.py:41 | a decimal numeral has no surrounding whitespace to strip |
| Charts.ParseShowInt | make_bencmark_charts.py:41 | `int(str(n)) == n`: an integer avg_time is read back exactly |
| Charts.RowRecord | make_bencmark_charts.py:41-42 | a row gives a record exactly when avg_time is present and an integer and name is present; a missing avg_time is a KeyError and a malformed one a ValueError, before name is looked up |
| Charts.RowRecords | make_bencmark_charts.py:40-42 | one record per row, in order, or the error of some row |
| Charts.FileRecords | make_bencmark_charts.py:27-42 | a file yields as many records as it has data rows |
| Charts.DirRecords | make_bencmark_charts.py:26-42 | a directory yields as many records as its files have data rows |
| Charts.WalkRecords | make_bencmark_charts.py:25-42 | the walk yields as many records as all the files have data rows |
| Charts.Matching | make_bencmark_charts.py:42 | the records with a given key, in order, and every such record |
| Charts.GroupIsInOrderFilter | make_bencmark_charts.py:24-42 | a key is present exactly when a record was filed under it, and each group is the matching records in order |
| Charts.GroupAppend | make_bencmark_charts.py:42 | filing two batches one after the other is filing both |
| Charts.GetDataGroups | make_bencmark_charts.py:23-43 | total records equal total data rows, and the groups are exactly the records filed by (test, name) in walk order |
| Charts.RowErrorStops | make_bencmark_charts.py:40-42 | the first failing row's error ends the file |
| Charts.FileErrorStops | make_bencmark_charts.py:26-42 | the first failing file's error ends the directory |
| Charts.DirErrorStops | make_bencmark_charts.py:25-42 | the first failing directory's error ends the run |
| Charts.AddRow | make_bencmark_charts.py:41-42 | one row appends its record under (test, name) or raises that row's error |
| Charts.AddFile | make_bencmark_charts.py:27-42 | one file appends its records in row order or raises the first error |
| Charts.AddRows | make_bencmark_charts.py:40-42 | the row loop appends every record in order or stops at the first error |
| Charts.AddDir | make_bencmark_charts.py:26-42 | the file loop appends every file's records in order or stops at the first error |
| Charts.GetData | make_bencmark_charts.py:23-43 | `get_data` returns the records of the whole walk grouped by (test, name), or the first error |
| Partition.SwapInRange | partition.cc:43-47 | a swap inside [low, high] exchanges two elements, keeps the range's multiset and touches nothing else |
| Partition.SwapStepKeepsInvariant | partition.cc:42-45 | swapping an element above the pivot to the boundary keeps the loop invariant |
| Partition.ScanKeepsInvariant | partition.cc:41-45 | every step keeps the invariant: the pivot at low, (i, high] above it, (j, i] not, a permutation of [low, high], nothing else moved |
| Partition.PartitionIsCorrect | partition.cc:36-48 | for low ≤ high: low ≤ i ≤ high, arr[i] is the old arr[low], [low, i) is at most it, (i, high] greater, [low, high] a permutation, the rest unchanged |
| Partition.ScanWithSwap | partition.cc:26-45 | a swapping `ext_swap` makes the loop do what the `iter_swap` loop does |
| Partition.ExtSwapAgrees | partition.cc:19-34 | if `ext_swap` swaps its pointees, `partition_extswap` yields the same array and index as `partition_iterswap` |
| Partition.IterSwap | partition.cc:43 | exchanges the two elements |
| Partition.ExtSwap | partition.cc:19-28 | the two pointees get what `ext_swap` makes of them |
| Partition.PartitionIterSwap | partition.cc:36-49 | the array and index left are the partition's, whose properties `PartitionIsCorrect` states |
| Partition.PartitionExtSwap | partition.cc:21-34 | the array and index left are the partition's with the given `ext_swap` |
| CoroFibs.FibState | coro-fibs/corofibs.cc:14-17 | after the first update both locals lie in [0, FM) |
| CoroFibs.Fib | coro-fibs/corofibs.cc:16-17 | every yielded value lies in [0, FM) |
| CoroFibs.SumFibBounds | coro-fibs/corofibs.cc:38-41 | for n ≥ 0 the sum lies between 0 and (FM − 1)·n |
| CoroFibs.FirstTenValues | coro-fibs/corofibs.cc:13-19 | the first ten values are 0, 1, 1, 2, 3, 5, 8, 3, 1, 4, and they sum to 28 |
| CoroFibs.FibsFrame.constructor | coro-fibs/corofibs.h:21-22 | the frame starts suspended before the body: nothing yielded yet |
| CoroFibs.FibsFrame.Resume | coro-fibs/corofibs.h:26-29 | one resume yields the next value into `current_value` and never finishes the endless body |
| CoroFibs.FibsFrame.Destroy | coro-fibs/corofibs.h:42 | destroys the frame and changes nothing else |
| CoroFibs.Generator.constructor | coro-fibs/corofibs.h:37 | the generator owns the given handle |
| CoroFibs.Generator.Move | coro-fibs/corofibs.h:38-39 | the handle changes owner and the source is left null |
| CoroFibs.Generator.MoveNext | coro-fibs/corofibs.h:33-35 | false and nothing resumed without a handle; otherwise one resume and "not done" |
| CoroFibs.Generator.CurrentValue | coro-fibs/corofibs.h:36 | the value yielded last |
| CoroFibs.Generator.Dispose | coro-fibs/corofibs.h:40-43 | destroys the frame only when the handle is not null |
| CoroFibs.Fibs | coro-fibs/corofibs.cc:13-19 | a generator owning a fresh frame that has yielded nothing |
| CoroFibs.SumFibCoro | coro-fibs/corofibs.cc:21-32 | `sumfib_coro(n)` is the sum of the first n values, 0 for n ≤ 0 |
| CoroFibs.SumFib | coro-fibs/corofibs.cc:34-44 | `sumfib(n)` is the same sum, so `sumfib_coro(n) == sumfib(n)` |
| CoroFibs.StartupCoro | coro-fibs/sumfib_module.cc:14-19 | n·`sumfib_coro(10)` for n ≥ 0 and 0 otherwise |
| CoroFibs.Startup | coro-fibs/sumfib_module.cc:21-26 | n·`sumfib(10)` for n ≥ 0 and 0 otherwise, hence equal to `startup_coro(n)` |
| CoroFibs.StartupValue | coro-fibs/corofibs.cc:46-52 | both drivers return 28·n: 2800 for NBMK = 100 and 28000 for the single-file NBMK = 1000 |
| ExcRetRecursive.CallInnerExc | excret/exc_ret_1.cc:28-34 | throws "something" exactly in the default build; returns 0 under NOEXC |
| ExcRetRecursive.DefaultExcThrows | excret/exc_ret_1.cc:24-34 | in the default build `call_exc(x)` throws for every x, given enough depth |
| ExcRetRecursive.DefaultExcNeverReturns | excret/exc_ret_2.cc:16-20 | in the default build neither exception-chain function ever returns a value |
| ExcRetRecursive.NoExcDiverges | excret/exc_ret_2.cc:16-20 | under NOEXC neither exception-chain function finishes, for any depth or argument |
| ExcRetRecursive.CallInnerRetc | excret/exc_ret_1.cc:43-49 | -1 exactly in the default build, 0 under NOEXC |
| ExcRetRecursive.DefaultRetcFails | excret/exc_ret_1.cc:36-41 | in the default build both return-code functions give -1 for every argument |
| ExcRetRecursive.NoExcRetcValue | excret/exc_ret_2.cc:22-31 | under NOEXC `call_outer_retc(x)` is 1 for x ≤ 0 and `call_retc(x - 1) + 1` otherwise, and `call_retc(x)` is 2 for x ≤ 1 plus 2 for every two steps above |
| ExcRetRecursive.NoExcRetcRecurrence | excret/exc_ret_1.cc:36-41 | under NOEXC `call_retc(x)` is 2 for x ≤ 1 and `call_retc(x - 2) + 2` above |
| ExcRetRecursive.StartupExc | excret/exc_ret_2.cc:33-44 | default build: every call throws and the sum is 0; under NOEXC the call never finishes |
| ExcRetRecursive.StartupRetc | excret/exc_ret_2.cc:46-58 | 0 in the default build; NBMK·10002 under NOEXC |
| ExcRetLooping.CallInnerExc | exc_ret_1.cc:19-23 | throws exactly for x < 0, otherwise returns 1 |
| ExcRetLooping.CallInnerRetc | exc_ret_1.cc:40-44 | -1 exactly for x < 0, otherwise 1 |
| ExcRetLooping.CallOuterExc | exc_ret_2.cc:8-13 | NCALL when x ≥ (NCALL − 1)/2, otherwise throws |
| ExcRetLooping.CallExc | exc_ret_1.cc:12-17 | NCALL² when x ≥ 2·((NCALL − 1)/2), otherwise throws |
| ExcRetLooping.CallOuterRetc | exc_ret_2.cc:15-28 | NCALL when x ≥ NCALL − 1, otherwise -1 |
| ExcRetLooping.CallRetc | exc_ret_1.cc:25-38 | NCALL² when x ≥ 2·(NCALL − 1), otherwise -1 |
| ExcRetLooping.StartupExc | exc_ret_1.cc:46-57 | nothing throws for NCALL = 1000: NBMK·1000000 |
| ExcRetLooping.StartupRetc | exc_ret_1.cc:59-71 | every round fails for NCALL = 1000: the sum stays 0, unlike the exception chain's |
| RangesFilter.Kept | ranges-filter/filter.cc:35-53 | the kept elements are all below 5 and no more than the input |
| RangesFilter.KeptAppend | ranges-filter/filter.cc:34-36 | filtering a concatenation filters each part |
| RangesFilter.KeptSnoc | ranges-filter/filter.cc:34-36 | one more element adds at most that element |
| RangesFilter.KeptPrefixStep | ranges-filter/filter.cc:34-36 | one loop step adds s[k] (doubled) exactly when it is below 5 |
| RangesFilter.CopyStep | ranges-filter/filter.cc:52-55 | one step of "modern" writes the next doubled value at the next position or skips the element |
| RangesFilter.DoubledAppend | ranges-filter/filter.cc:45-46 | doubling a concatenation doubles each part |
| RangesFilter.KeptIsSubsequence | ranges-filter/filter.cc:42-43 | `copy_if` keeps an order-preserving subsequence |
| RangesFilter.KeptElements | ranges-filter/filter.cc:42-43 | every element below 5 is kept as often as it occurs, no other element is |
| RangesFilter.KeptCount | ranges-filter/filter.cc:42-44 | as many values are produced as the input has elements below 5 |
| RangesFilter.KeptDoubledRange | ranges-filter/filter.cc:28-36 | from non-negative `rand()` draws every output lies in [0, 10), so doubling cannot overflow |
| RangesFilter.RangesFixture.constructor | ranges-filter/filter.cc:25-29 | the input holds the BMKS draws and the output is empty |
| RangesFilter.RangesFixture.Naive | ranges-filter/filter.cc:32-37 | appends the doubled kept elements after what the output held; from empty it is what "planar" leaves |
| RangesFilter.RangesFixture.Planar | ranges-filter/filter.cc:39-47 | the output becomes exactly the doubled kept elements |
| RangesFilter.RangesFixture.Modern | ranges-filter/filter.cc:49-56 | the doubled kept elements overwrite a prefix of the output and the rest stays |
| RangesFilter.CopyIf | ranges-filter/filter.cc:42-43 | the elements below 5, in order |
| RangesFilter.Resize | ranges-filter/filter.cc:44 | `resize(n)` keeps the first n elements and fills with zeros |
| RangesProjector.ProjectorAgrees | ranges-projector/projector.cc:34-39 | projecting and doubling is the comparator's lambda |
| RangesProjector.TransformedIgnoresY | ranges-projector/projector.cc:34-39 | points that differ only in y give the same output |
| RangesProjector.TransformedRange | ranges-projector/projector.cc:26-34 | with x drawn from [0, 100] every output lies in [0, 200] |
| RangesProjector.TestFixture.constructor | ranges-projector/projector.cc:23-29 | v holds the N drawn points and w N zeros |
| RangesProjector.TestFixture.TransformOnce | ranges-projector/projector.cc:34 | w becomes twice the x of each point, whatever it held |
| RangesProjector.TestFixture.TransformProjectedOnce | ranges-projector/projector.cc:39 | the projected transform writes the same w |
| RangesProjector.TestFixture.TransformComparator | ranges-projector/projector.cc:32-35 | after NBMK rounds w is twice the x of each point |
| RangesProjector.TestFixture.TransformProjector | ranges-projector/projector.cc:37-40 | after NBMK rounds w is the same as "TransformComparator" leaves |
| VirtualOverhead.AlwaysZero | virtual-overhead/virtual-1.cc:19-29 | `foo` and `bar` return 0 for every argument and receiver |
| VirtualOverhead.DispatchIrrelevant | virtual-2.cc:15-25 | the result does not depend on the receiver's dynamic type |
| VirtualOverhead.CallCount | virtual-overhead/virtual-1.cc:19-29 | one call makes max(x, 0) + 1 calls of `foo` and `bar` in all |
| VirtualOverhead.Startup | virtual-2.cc:27-35 | NBMK calls of `bar(NCALL)`, each returning 0 |

## Left out

- Logging, the coloured console echo of progress lines, and the `-o csv` subprocess plumbing (`Popen`, pipes, `universal_newlines`) are left out. The child's output is a parameter: a function from the command to its lines.
- Failures to start a child process (`except Exception` at run_benchmarks.py:137-138) are not modelled. Every launch of an existing file is taken to produce output.
- The base-directory existence check and `sys.exit(1)` (run_benchmarks.py:52-56) are left out. So are the SIGINT handler that deletes empty CSV files (run_benchmarks.py:58-73) and `copy_csvs_to_output_dir`. All three are file-system or process side effects.
- Argument parsing, `--list`, `--version`, the unit tests and the test runner of run_benchmarks.py are left out. Only the selection comprehension (run_benchmarks.py:250-254) is modelled, with the flags as a predicate.
- Runner.PassesFilter: the user's regular expression is a parameter (`search`), not a regex engine. An invalid pattern raises `re.error` at the first exec path checked (run_benchmarks.py:156), which stops the run; this is not modelled.
- Scrubber.IsPercentMarker: `\s` and `\d` cover ASCII whitespace and digits only; Python's Unicode classes are wider.
- Charts.ParseInt: covers ASCII whitespace, an optional sign, and digits with single underscores. It leaves out Unicode digits and whitespace and Python's limit on digit count.
- Charts.ParseCsv: takes the rows that `csv.reader` yields. The utf-8-sig BOM, CSV quoting and the file read itself are not modelled.
- Charts.GetData: `os.walk` and the file contents are parameters (the directories visited, each with its file names, and a function from path to rows). The order of the walk is whatever that parameter gives.
- `make_plot` and the rest of the matplotlib drawing are not part of this model.
- C++ `int` overflow is not modelled. All sums stay far inside 32 bits for the header constants: 28·1000, NCALL² = 1000000, NBMK·10002. Intermediate values are bounded by the same lemmas.
- Partition.ExtSwap: `ext_swap` is only declared. It is a parameter giving the new values of its two pointees from their old values, so aliasing effects beyond those two pointees are not modelled.
- Partition.PartitionIterSwap: `unsigned` indices are `nat`. Negative or out-of-range `low`/`high` (undefined behaviour in the source) are excluded by the precondition.
- CoroFibs: the coroutine frame's heap allocation, `get_return_object`, `return_void` and `unhandled_exception` are not modelled. The body never returns and never throws.
- CoroFibs.Generator.CurrentValue: requires a value to have been yielded. Reading the uninitialised `current_value` before the first `move_next` is undefined behaviour in the source.
- CoroFibs: the deleted copy constructor has no counterpart. Dafny references are never copied implicitly, and `Move` is the only transfer of a handle.
- ExcRetRecursive.StartupExc: the depth of the recursion is a fuel parameter. A result of `None` means that depth was not enough, which under NOEXC is every depth. The real program's stack overflow is not modelled.
- ExcRetRecursive.CallExc and ExcRetRecursive.CallOuterExc carry the same fuel bound.
- RangesFilter.RangesFixture.Modern: requires the output to hold at least as many elements as are written. With only `reserve`, writing through `contout.begin()` past its size is undefined behaviour in the source.
- RangesFilter.RangesFixture.constructor and RangesProjector.TestFixture.constructor: `rand()`, `random_device`, `mt19937` and `uniform_int_distribution` are replaced by the drawn values, passed as arguments.
- VirtualOverhead.Startup: the source discards the results of `bar`. The model returns them so the contract can state them.
- Neither virtual nor non-virtual dispatch cost is modelled. Both give the same values, which is all a model can state.
- The other kernels in the repository are not part of this model: virtual-inline, virtual-inherit, the noexcept quicksort, exc_qsort.cc, specdevirt.cc and virtinl.cc.

/**
 * `BenchRunner` of run_benchmarks.py: the catalog of benchmark executables, the
 * command line of one run, `run_benchmark` (one name, every executable path of
 * it) and `run_benchmarks` (the selected names, with the optional name filter),
 * and the selection made from the per-benchmark command-line flags.
 *
 * The file system and the processes are parameters: `isFile` stands for
 * `os.path.isfile`, `stdoutOf` for the lines a command prints, and `search` for
 * `re.search(pattern, name)` with the user's pattern.
 */
module Runner {
  import opened Wrappers
  import opened Text
  import Scrubber

  /** Benchmark name to executable paths, in the dictionary's insertion order. */
  type Catalog = seq<(string, seq<string>)>

  /** Dictionary keys are unique. */
  predicate DistinctNames(c: Catalog)
  {
    forall i, j :: 0 <= i < j < |c| ==> c[i].0 != c[j].0
  }

  const DefaultCatalog: Catalog := [
    ("coro_fibs", ["coro-fibs/coro-fibs"]),
    ("excret", ["excret/exc_ret", "excret/exc_ret_noexc"]),
    ("inline", ["inline/extswap"]),
    ("noexcept_qsort", ["noexcept-qsort/exc_partition", "noexcept-qsort/exc_qsort"]),
    ("ranges_filter", ["ranges-filter/filter"]),
    ("ranges_projector", ["ranges-projector/projector"]),
    ("virtual_inherit", ["virtual-inherit/virtinh"]),
    ("virtual_inline", ["virtual-inline/virtinl"]),
    ("virtual_overhead", ["virtual-overhead/virtual", "virtual-overhead/virtual-shuffle"])
  ]

  lemma DefaultCatalogIsDictionary()
    ensures DistinctNames(DefaultCatalog) && |DefaultCatalog| == 9
  {
  }

  /** `list_benchmarks`: the keys in insertion order. */
  function Names(c: Catalog): (names: seq<string>)
    ensures |names| == |c|
    ensures forall i :: 0 <= i < |c| ==> names[i] == c[i].0
  {
    seq(|c|, i requires 0 <= i < |c| => c[i].0)
  }

  /** `benchmarks.get(name)`: the paths of the entry with that key, if there is one. */
  function Lookup(c: Catalog, name: string): Option<seq<string>>
  {
    if c == [] then None
    else if c[0].0 == name then Some(c[0].1)
    else Lookup(c[1..], name)
  }

  /** A name is a key exactly when it is listed, and then its paths are that entry's. */
  lemma {:induction false} LookupFindsListedName(c: Catalog, name: string)
    requires DistinctNames(c)
    ensures Lookup(c, name).Some? <==> name in Names(c)
    ensures forall i :: 0 <= i < |c| && c[i].0 == name ==> Lookup(c, name) == Some(c[i].1)
  {
    if c != [] {
      assert DistinctNames(c[1..]);
      LookupFindsListedName(c[1..], name);
      assert Names(c) == [c[0].0] + Names(c[1..]);
      forall i | 0 < i < |c| && c[i].0 == name
        ensures Lookup(c, name) == Some(c[i].1)
      {
        assert c[1..][i - 1] == c[i];
      }
    }
  }

  /** The paths `run_benchmarks` iterates for a name: `benchmarks.get(name, [])`. */
  function PathsOf(c: Catalog, name: string): seq<string>
  {
    match Lookup(c, name)
    case Some(paths) => paths
    case None => []
  }

  /** Python truthiness of the `histograms` argument: neither None nor "". */
  predicate Requested(histograms: Option<string>)
  {
    histograms.Some? && histograms.value != ""
  }

  /** The command line: the executable, "-o csv", then "-q" exactly when quiet, then
      "-r" and the resolution exactly when histograms were requested. */
  function Command(fullPath: string, quiet: bool, histograms: Option<string>): (cmd: seq<string>)
    ensures |cmd| == 3 + (if quiet then 1 else 0) + (if Requested(histograms) then 2 else 0)
    ensures cmd[0] == fullPath && cmd[1] == "-o" && cmd[2] == "csv"
    ensures quiet ==> cmd[3] == "-q"
    ensures Requested(histograms) ==> cmd[|cmd| - 2] == "-r" && cmd[|cmd| - 1] == histograms.value
  {
    [fullPath, "-o", "csv"]
    + (if quiet then ["-q"] else [])
    + (if Requested(histograms) then ["-r", histograms.value] else [])
  }

  /** The list-building code of `run_benchmark`: the statement-level form of
      Command, which it equals. */
  method BuildCommand(fullPath: string, quiet: bool, histograms: Option<string>) returns (cmd: seq<string>)
    ensures cmd == Command(fullPath, quiet, histograms)
  {
    cmd := [fullPath, "-o", "csv"];
    if quiet {
      cmd := cmd + ["-q"];
    }
    if histograms.Some? && histograms.value != "" {
      cmd := cmd + ["-r", histograms.value];
    }
  }

  /** The result file of a benchmark: "./<name>.csv". */
  function CsvPath(name: string): string
  {
    "./" + name + ".csv"
  }

  /** What stays fixed while the runner works: the catalog, the base directory and the
      outside world (which paths are files, what each command prints). */
  datatype Setup = Setup(
    catalog: Catalog,
    baseDir: string,
    isFile: string -> bool,
    stdoutOf: seq<string> -> seq<string>)

  /** The commands launched for the executable paths `paths` of one benchmark, in order:
      a path that is not a file is skipped and the loop goes on. */
  function LaunchesFor(s: Setup, paths: seq<string>, quiet: bool, histograms: Option<string>): seq<seq<string>>
    decreases |paths|
  {
    if paths == [] then []
    else
      var earlier := LaunchesFor(s, paths[..|paths| - 1], quiet, histograms);
      var fullPath := JoinPath(s.baseDir, paths[|paths| - 1]);
      if s.isFile(fullPath) then earlier + [Command(fullPath, quiet, histograms)] else earlier
  }

  /** One more path: its command is appended when it is a file, and the result file
      then holds that command's output. */
  lemma LaunchesForStep(s: Setup, paths: seq<string>, k: nat, quiet: bool, histograms: Option<string>)
    requires k < |paths|
    ensures var fullPath := JoinPath(s.baseDir, paths[k]);
      LaunchesFor(s, paths[..k + 1], quiet, histograms)
      == LaunchesFor(s, paths[..k], quiet, histograms)
         + (if s.isFile(fullPath) then [Command(fullPath, quiet, histograms)] else [])
  {
    assert paths[..k + 1][..k] == paths[..k];
  }

  /** Each launch truncates the result file: what earlier launches wrote is gone. */
  lemma AfterLaunchesStep(s: Setup, files: map<string, seq<string>>, name: string,
                          launches: seq<seq<string>>, cmd: seq<string>)
    ensures AfterLaunches(s, files, name, launches + [cmd])
         == AfterLaunches(s, files, name, launches)[CsvPath(name) := Scrubber.ScrubFrom(s.stdoutOf(cmd), false)]
  {
    var k := CsvPath(name);
    var m := AfterLaunches(s, files, name, launches);
    assert (launches + [cmd])[|launches|] == cmd;
    assert m[k := Scrubber.ScrubFrom(s.stdoutOf(cmd), false)] == files[k := Scrubber.ScrubFrom(s.stdoutOf(cmd), false)];
  }

  /** One more `run_benchmark` call: its launches follow the earlier ones and its
      result file is written over what the earlier calls left. */
  lemma CallsStep(s: Setup, files: map<string, seq<string>>, calls: seq<string>, name: string,
                  quiet: bool, histograms: Option<string>)
    ensures LaunchesOfCalls(s, calls + [name], quiet, histograms)
         == LaunchesOfCalls(s, calls, quiet, histograms) + Launches(s, name, quiet, histograms)
    ensures FilesAfterCalls(s, files, calls + [name], quiet, histograms)
         == AfterLaunches(s, FilesAfterCalls(s, files, calls, quiet, histograms), name, Launches(s, name, quiet, histograms))
  {
    assert (calls + [name])[..|calls|] == calls;
  }

  /** One more executable path inside `run_benchmark`: a non-file adds nothing; a file
      adds its command after the earlier ones and leaves its scrubbed output in
      ./<name>.csv. */
  lemma LaunchesForNext(s: Setup, launched: seq<seq<string>>, files: map<string, seq<string>>, name: string,
                        paths: seq<string>, k: nat, quiet: bool, histograms: Option<string>)
    requires k < |paths|
    ensures var fullPath := JoinPath(s.baseDir, paths[k]);
      var before := LaunchesFor(s, paths[..k], quiet, histograms);
      var after := LaunchesFor(s, paths[..k + 1], quiet, histograms);
      var cmd := Command(fullPath, quiet, histograms);
      if s.isFile(fullPath) then
        && launched + after == (launched + before) + [cmd]
        && AfterLaunches(s, files, name, after)
           == AfterLaunches(s, files, name, before)[CsvPath(name) := Scrubber.ScrubFrom(s.stdoutOf(cmd), false)]
      else after == before
  {
    var fullPath := JoinPath(s.baseDir, paths[k]);
    var before := LaunchesFor(s, paths[..k], quiet, histograms);
    var cmd := Command(fullPath, quiet, histograms);
    LaunchesForStep(s, paths, k, quiet, histograms);
    if s.isFile(fullPath) {
      AfterLaunchesStep(s, files, name, before, cmd);
    }
  }

  /** Running the calls `a` and then the calls `b` is running `a + b`: the launches
      concatenate and the files `b` starts from are those `a` left. */
  lemma {:induction false} CallsAppend(s: Setup, files: map<string, seq<string>>, a: seq<string>, b: seq<string>,
                                       quiet: bool, histograms: Option<string>)
    ensures LaunchesOfCalls(s, a + b, quiet, histograms)
         == LaunchesOfCalls(s, a, quiet, histograms) + LaunchesOfCalls(s, b, quiet, histograms)
    ensures FilesAfterCalls(s, files, a + b, quiet, histograms)
         == FilesAfterCalls(s, FilesAfterCalls(s, files, a, quiet, histograms), b, quiet, histograms)
    decreases |b|
  {
    if b == [] {
      assert a + b == a;
    } else {
      var front := b[..|b| - 1];
      CallsAppend(s, files, a, front, quiet, histograms);
      assert (a + b)[..|a + b| - 1] == a + front;
      assert (a + b)[|a + b| - 1] == b[|b| - 1];
      Associative(LaunchesOfCalls(s, a, quiet, histograms), LaunchesOfCalls(s, front, quiet, histograms),
                  Launches(s, b[|b| - 1], quiet, histograms));
    }
  }

  /** The commands one `run_benchmark(name)` launches: none for a name outside the catalog. */
  function Launches(s: Setup, name: string, quiet: bool, histograms: Option<string>): seq<seq<string>>
  {
    match Lookup(s.catalog, name)
    case None => []
    case Some(paths) => LaunchesFor(s, paths, quiet, histograms)
  }

  /** The result files after `launches` ran for `name`: each launch reopens ./<name>.csv
      for writing, so only the last launch's scrubbed output remains. */
  function AfterLaunches(s: Setup, files: map<string, seq<string>>, name: string, launches: seq<seq<string>>)
    : map<string, seq<string>>
  {
    if launches == [] then files
    else files[CsvPath(name) := Scrubber.ScrubFrom(s.stdoutOf(launches[|launches| - 1]), false)]
  }

  /** Python truthiness of `filter_pattern` and the per-name filter test. */
  predicate PassesFilter(filter: Option<string>, search: (string, string) -> bool, name: string)
  {
    !(filter.Some? && filter.value != "") || search(filter.value, name)
  }

  /** The names `run_benchmarks` hands to `run_benchmark`, in order: an empty selection
      means every catalog name; each name is handed over once per executable path it
      has, when it passes the filter. */
  function Calls(c: Catalog, selected: seq<string>, filter: Option<string>, search: (string, string) -> bool)
    : seq<string>
  {
    CallsFor(c, if selected == [] then Names(c) else selected, filter, search)
  }

  function CallsFor(c: Catalog, names: seq<string>, filter: Option<string>, search: (string, string) -> bool)
    : seq<string>
    decreases |names|
  {
    if names == [] then []
    else
      var earlier := CallsFor(c, names[..|names| - 1], filter, search);
      var name := names[|names| - 1];
      earlier + Repeat(name, if PassesFilter(filter, search, name) then |PathsOf(c, name)| else 0)
  }

  function Repeat(name: string, n: nat): (r: seq<string>)
    ensures |r| == n && forall i :: 0 <= i < n ==> r[i] == name
  {
    seq(n, _ => name)
  }

  /** How many times `run_benchmarks` hands `name` to `run_benchmark`: once per
      executable path when the name passes the filter, else never. */
  function PassCount(c: Catalog, name: string, filter: Option<string>, search: (string, string) -> bool): (n: nat)
    ensures n <= |PathsOf(c, name)|
    ensures n == 0 || n == |PathsOf(c, name)|
  {
    if PassesFilter(filter, search, name) then |PathsOf(c, name)| else 0
  }

  /** One more selected name adds its repeated calls after the earlier ones. */
  lemma CallsForStep(c: Catalog, names: seq<string>, k: nat, filter: Option<string>, search: (string, string) -> bool)
    requires k < |names|
    ensures CallsFor(c, names[..k + 1], filter, search)
         == CallsFor(c, names[..k], filter, search) + Repeat(names[k], PassCount(c, names[k], filter, search))
  {
    assert names[..k + 1][..k] == names[..k];
  }

  /** One more selected name in `run_benchmarks`: the launches and files after the
      first k + 1 names are those after the first k, followed by that name's calls. */
  lemma CallsForNext(s: Setup, launched: seq<seq<string>>, files: map<string, seq<string>>,
                     names: seq<string>, k: nat, filter: Option<string>, search: (string, string) -> bool,
                     quiet: bool, histograms: Option<string>)
    requires k < |names|
    ensures var earlier := CallsFor(s.catalog, names[..k], filter, search);
      var more := Repeat(names[k], PassCount(s.catalog, names[k], filter, search));
      var next := CallsFor(s.catalog, names[..k + 1], filter, search);
      && launched + LaunchesOfCalls(s, next, quiet, histograms)
         == (launched + LaunchesOfCalls(s, earlier, quiet, histograms)) + LaunchesOfCalls(s, more, quiet, histograms)
      && FilesAfterCalls(s, files, next, quiet, histograms)
         == FilesAfterCalls(s, FilesAfterCalls(s, files, earlier, quiet, histograms), more, quiet, histograms)
  {
    var earlier := CallsFor(s.catalog, names[..k], filter, search);
    var more := Repeat(names[k], PassCount(s.catalog, names[k], filter, search));
    CallsForStep(s.catalog, names, k, filter, search);
    CallsAppend(s, files, earlier, more, quiet, histograms);
    Associative(launched, LaunchesOfCalls(s, earlier, quiet, histograms), LaunchesOfCalls(s, more, quiet, histograms));
  }

  /** Every launch of a sequence of `run_benchmark` calls, in order. */
  function LaunchesOfCalls(s: Setup, calls: seq<string>, quiet: bool, histograms: Option<string>): seq<seq<string>>
    decreases |calls|
  {
    if calls == [] then []
    else LaunchesOfCalls(s, calls[..|calls| - 1], quiet, histograms)
         + Launches(s, calls[|calls| - 1], quiet, histograms)
  }

  /** The result files after a sequence of `run_benchmark` calls. */
  function FilesAfterCalls(s: Setup, files: map<string, seq<string>>, calls: seq<string>,
                           quiet: bool, histograms: Option<string>): map<string, seq<string>>
    decreases |calls|
  {
    if calls == [] then files
    else
      var name := calls[|calls| - 1];
      AfterLaunches(s, FilesAfterCalls(s, files, calls[..|calls| - 1], quiet, histograms), name,
                    Launches(s, name, quiet, histograms))
  }

  /** The selection `handle_args` builds from the per-benchmark flags: the flagged
      names, in catalog order. */
  function SelectFromFlags(c: Catalog, flagged: string -> bool): (selected: seq<string>)
    decreases |c|
  {
    if c == [] then []
    else (if flagged(c[0].0) then [c[0].0] else []) + SelectFromFlags(c[1..], flagged)
  }

  /** The selection holds exactly the flagged catalog names, in catalog order. */
  lemma {:induction false} SelectFromFlagsInOrder(c: Catalog, flagged: string -> bool)
    ensures IsSubsequence(SelectFromFlags(c, flagged), Names(c))
    ensures forall name :: name in SelectFromFlags(c, flagged) <==> name in Names(c) && flagged(name)
    decreases |c|
  {
    if c != [] {
      SelectFromFlagsInOrder(c[1..], flagged);
      var a, b := SelectFromFlags(c, flagged), Names(c);
      assert b[0] == c[0].0 && b[1..] == Names(c[1..]);
      if flagged(c[0].0) {
        assert a[0] == b[0] && a[1..] == SelectFromFlags(c[1..], flagged);
      } else {
        assert a == SelectFromFlags(c[1..], flagged);
        SubsequenceOfSuffix(a, b, 1);
      }
    }
  }

  /** When every path is a file, `run_benchmark` launches one command per path, in
      catalog order. */
  lemma {:induction false} AllFilesLaunchEveryPath(s: Setup, paths: seq<string>, quiet: bool, histograms: Option<string>)
    requires forall p :: p in paths ==> s.isFile(JoinPath(s.baseDir, p))
    ensures |LaunchesFor(s, paths, quiet, histograms)| == |paths|
    ensures forall i :: 0 <= i < |paths| ==>
      LaunchesFor(s, paths, quiet, histograms)[i] == Command(JoinPath(s.baseDir, paths[i]), quiet, histograms)
    decreases |paths|
  {
    if paths != [] {
      var front := paths[..|paths| - 1];
      assert forall p :: p in front ==> p in paths;
      AllFilesLaunchEveryPath(s, front, quiet, histograms);
    }
  }

  /** After `run_benchmark`, ./<name>.csv holds the scrubbed output of the last path
      that is a file, and no other file changes. */
  lemma LastFileWins(s: Setup, files: map<string, seq<string>>, name: string, paths: seq<string>, k: nat,
                     quiet: bool, histograms: Option<string>)
    requires k < |paths| && s.isFile(JoinPath(s.baseDir, paths[k]))
    requires forall j :: k < j < |paths| ==> !s.isFile(JoinPath(s.baseDir, paths[j]))
    ensures var after := AfterLaunches(s, files, name, LaunchesFor(s, paths, quiet, histograms));
      CsvPath(name) in after
      && after[CsvPath(name)] == Scrubber.ScrubFrom(s.stdoutOf(Command(JoinPath(s.baseDir, paths[k]), quiet, histograms)), false)
      && forall f :: f != CsvPath(name) ==> (f in after <==> f in files) && (f in files ==> after[f] == files[f])
    decreases |paths|
  {
    if k < |paths| - 1 {
      var front := paths[..|paths| - 1];
      assert front[k] == paths[k];
      LastFileWins(s, files, name, front, k, quiet, histograms);
    }
  }

  /** `n` calls of `run_benchmark` with the same name launch its commands `n` times over. */
  lemma {:induction false} RepeatedCallsLaunch(s: Setup, name: string, n: nat, quiet: bool, histograms: Option<string>)
    ensures |LaunchesOfCalls(s, Repeat(name, n), quiet, histograms)| == n * |Launches(s, name, quiet, histograms)|
  {
    if n > 0 {
      RepeatedCallsLaunch(s, name, n - 1, quiet, histograms);
      var calls := Repeat(name, n);
      assert calls[..n - 1] == Repeat(name, n - 1) && calls[n - 1] == name;
      var l := |Launches(s, name, quiet, histograms)|;
      assert |LaunchesOfCalls(s, calls, quiet, histograms)| == (n - 1) * l + l;
      assert (n - 1) * l + l == n * l;
    }
  }

  /** A selected benchmark with k executable paths, all of them files and passing the
      filter, is executed k times k times. */
  lemma SquaredExecutions(s: Setup, name: string, filter: Option<string>, search: (string, string) -> bool,
                          quiet: bool, histograms: Option<string>)
    requires Lookup(s.catalog, name).Some? && PassesFilter(filter, search, name)
    requires forall p :: p in PathsOf(s.catalog, name) ==> s.isFile(JoinPath(s.baseDir, p))
    ensures var k := |PathsOf(s.catalog, name)|;
      |LaunchesOfCalls(s, Calls(s.catalog, [name], filter, search), quiet, histograms)| == k * k
  {
    var paths := PathsOf(s.catalog, name);
    assert [name][..0] == [];
    assert CallsFor(s.catalog, [name], filter, search) == Repeat(name, |paths|);
    AllFilesLaunchEveryPath(s, paths, quiet, histograms);
    RepeatedCallsLaunch(s, name, |paths|, quiet, histograms);
  }

  /** Names that are unknown or fail the filter are never handed to `run_benchmark`. */
  lemma {:induction false} NoPassingNameNoCalls(c: Catalog, names: seq<string>, filter: Option<string>,
                                                search: (string, string) -> bool)
    requires forall name :: name in names ==> PassCount(c, name, filter, search) == 0
    ensures CallsFor(c, names, filter, search) == []
    decreases |names|
  {
    if names != [] {
      var front := names[..|names| - 1];
      assert forall name :: name in front ==> name in names;
      assert names[|names| - 1] in names;
      NoPassingNameNoCalls(c, front, filter, search);
    }
  }

  /** A non-empty filter that matches no name runs nothing, whatever the selection. */
  lemma FilterMatchingNothingRunsNothing(s: Setup, selected: seq<string>, filter: Option<string>,
                                         search: (string, string) -> bool, quiet: bool, histograms: Option<string>)
    requires filter.Some? && filter.value != ""
    requires forall name :: !search(filter.value, name)
    ensures Calls(s.catalog, selected, filter, search) == []
    ensures LaunchesOfCalls(s, Calls(s.catalog, selected, filter, search), quiet, histograms) == []
  {
    NoPassingNameNoCalls(s.catalog, if selected == [] then Names(s.catalog) else selected, filter, search);
  }

  /** With both executables of "excret" present under ./build, one
      `run_benchmark("excret")` launches `exc_ret` and then `exc_ret_noexc`. */
  lemma ExcretLaunchesBoth(s: Setup, quiet: bool, histograms: Option<string>)
    requires s.catalog == DefaultCatalog && s.baseDir == "./build"
    requires s.isFile("./build/excret/exc_ret") && s.isFile("./build/excret/exc_ret_noexc")
    ensures Launches(s, "excret", quiet, histograms)
         == [Command("./build/excret/exc_ret", quiet, histograms), Command("./build/excret/exc_ret_noexc", quiet, histograms)]
  {
    var paths := ["excret/exc_ret", "excret/exc_ret_noexc"];
    assert Lookup(DefaultCatalog, "excret") == Some(paths);
    assert JoinPath("./build", paths[0]) == "./build/excret/exc_ret";
    assert JoinPath("./build", paths[1]) == "./build/excret/exc_ret_noexc";
    LaunchesForStep(s, paths, 0, quiet, histograms);
    LaunchesForStep(s, paths, 1, quiet, histograms);
    assert paths[..0] == [] && paths[..2] == paths;
  }

  /** Selecting "excret" alone, with both executables present and no filter, runs
      `exc_ret` then `exc_ret_noexc`, and then both again. */
  lemma ExcretRunsTwice(s: Setup, quiet: bool, histograms: Option<string>)
    requires s.catalog == DefaultCatalog && s.baseDir == "./build"
    requires s.isFile("./build/excret/exc_ret") && s.isFile("./build/excret/exc_ret_noexc")
    ensures var first := Command("./build/excret/exc_ret", quiet, histograms);
      var second := Command("./build/excret/exc_ret_noexc", quiet, histograms);
      LaunchesOfCalls(s, Calls(s.catalog, ["excret"], None, (p, n) => true), quiet, histograms)
      == [first, second, first, second]
  {
    var first := Command("./build/excret/exc_ret", quiet, histograms);
    var second := Command("./build/excret/exc_ret_noexc", quiet, histograms);
    ExcretLaunchesBoth(s, quiet, histograms);
    var one := Launches(s, "excret", quiet, histograms);
    assert one == [first, second];
    assert Lookup(DefaultCatalog, "excret") == Some(["excret/exc_ret", "excret/exc_ret_noexc"]);
    assert ["excret"][..0] == [];
    assert Repeat("excret", 2) == ["excret", "excret"];
    assert Calls(s.catalog, ["excret"], None, (p, n) => true) == ["excret", "excret"];
    assert ["excret", "excret"][..1] == ["excret"];
    assert LaunchesOfCalls(s, ["excret"], quiet, histograms) == one;
    assert LaunchesOfCalls(s, ["excret", "excret"], quiet, histograms) == one + one;
  }

  class BenchRunner {
    const baseDir: string
    const benchmarks: Catalog
    const isFile: string -> bool
    const stdoutOf: seq<string> -> seq<string>
    /** The result files in the working directory, by path. */
    var files: map<string, seq<string>>
    /** The commands started so far, in order. */
    var launched: seq<seq<string>>

    function Env(): Setup
    {
      Setup(benchmarks, baseDir, isFile, stdoutOf)
    }

    constructor (baseDir: string, isFile: string -> bool, stdoutOf: seq<string> -> seq<string>,
                 files: map<string, seq<string>>)
      ensures this.baseDir == baseDir && this.isFile == isFile && this.stdoutOf == stdoutOf
      ensures benchmarks == DefaultCatalog
      ensures this.files == files && launched == []
    {
      this.baseDir := baseDir;
      this.benchmarks := DefaultCatalog;
      this.isFile := isFile;
      this.stdoutOf := stdoutOf;
      this.files := files;
      this.launched := [];
    }

    /** `list_benchmarks`. */
    method ListBenchmarks() returns (names: seq<string>)
      ensures names == Names(benchmarks)
    {
      names := [];
      var k := 0;
      while k < |benchmarks|
        invariant 0 <= k <= |benchmarks|
        invariant names == Names(benchmarks[..k])
      {
        names := names + [benchmarks[k].0];
        k := k + 1;
      }
      assert benchmarks[..k] == benchmarks;
    }

    /** One launch inside `run_benchmark`: build the command, start it, truncate
        ./<name>.csv and write the scrubbed output lines to it. */
    method Launch(name: string, fullPath: string, quiet: bool, histograms: Option<string>)
      modifies this
      ensures launched == old(launched) + [Command(fullPath, quiet, histograms)]
      ensures files == old(files)[CsvPath(name) := Scrubber.ScrubFrom(stdoutOf(Command(fullPath, quiet, histograms)), false)]
    {
      var cmd := BuildCommand(fullPath, quiet, histograms);
      launched := launched + [cmd];
      var file := Scrubber.CaptureOutput(stdoutOf(cmd));
      files := files[CsvPath(name) := file];
    }

    /** `run_benchmark`: nothing for an unknown name; otherwise each executable path in
        catalog order, skipping non-files, with ./<name>.csv reopened for each launch. */
    method RunBenchmark(name: string, quiet: bool, histograms: Option<string>)
      modifies this
      ensures launched == old(launched) + Launches(Env(), name, quiet, histograms)
      ensures files == AfterLaunches(Env(), old(files), name, Launches(Env(), name, quiet, histograms))
    {
      var entry := Lookup(benchmarks, name);
      if entry.None? {
        return;
      }
      var execPaths := entry.value;
      var k := 0;
      while k < |execPaths|
        invariant 0 <= k <= |execPaths|
        invariant launched == old(launched) + LaunchesFor(Env(), execPaths[..k], quiet, histograms)
        invariant files == AfterLaunches(Env(), old(files), name, LaunchesFor(Env(), execPaths[..k], quiet, histograms))
      {
        LaunchesForNext(Env(), old(launched), old(files), name, execPaths, k, quiet, histograms);
        var fullPath := JoinPath(baseDir, execPaths[k]);
        if !isFile(fullPath) {
          k := k + 1;
          continue;
        }
        Launch(name, fullPath, quiet, histograms);
        k := k + 1;
      }
      assert execPaths[..k] == execPaths;
    }

    /** The inner loop of `run_benchmarks` for one name: one whole `run_benchmark` per
        executable path of the name, each skipped when the name fails the filter. */
    method RunForEachPath(benchmark: string, filter: Option<string>, search: (string, string) -> bool,
                          quiet: bool, histograms: Option<string>)
      modifies this
      ensures var calls := Repeat(benchmark, PassCount(benchmarks, benchmark, filter, search));
        launched == old(launched) + LaunchesOfCalls(Env(), calls, quiet, histograms)
        && files == FilesAfterCalls(Env(), old(files), calls, quiet, histograms)
    {
      var paths := PathsOf(benchmarks, benchmark);
      ghost var calls: seq<string> := [];
      var m := 0;
      while m < |paths|
        invariant 0 <= m <= |paths|
        invariant calls == Repeat(benchmark, if PassesFilter(filter, search, benchmark) then m else 0)
        invariant launched == old(launched) + LaunchesOfCalls(Env(), calls, quiet, histograms)
        invariant files == FilesAfterCalls(Env(), old(files), calls, quiet, histograms)
      {
        if filter.Some? && filter.value != "" && !search(filter.value, benchmark) {
          m := m + 1;
          continue;
        }
        var fullPath := JoinPath(baseDir, paths[m]);  // computed but not used by the source
        CallsStep(Env(), old(files), calls, benchmark, quiet, histograms);
        Associative(old(launched), LaunchesOfCalls(Env(), calls, quiet, histograms), Launches(Env(), benchmark, quiet, histograms));
        RunBenchmark(benchmark, quiet, histograms);
        calls := calls + [benchmark];
        assert Repeat(benchmark, m + 1) == Repeat(benchmark, m) + [benchmark];
        m := m + 1;
      }
    }

    /** `run_benchmarks`: for each selected name (all names when none is selected) and
        each of its executable paths that passes the filter, one whole `run_benchmark`. */
    method RunBenchmarks(selected: seq<string>, filter: Option<string>, search: (string, string) -> bool,
                         quiet: bool, histograms: Option<string>)
      modifies this
      ensures launched == old(launched) + LaunchesOfCalls(Env(), Calls(benchmarks, selected, filter, search), quiet, histograms)
      ensures files == FilesAfterCalls(Env(), old(files), Calls(benchmarks, selected, filter, search), quiet, histograms)
    {
      var names := selected;
      if names == [] {
        names := ListBenchmarks();
      }
      var k := 0;
      while k < |names|
        invariant 0 <= k <= |names|
        invariant launched == old(launched) + LaunchesOfCalls(Env(), CallsFor(benchmarks, names[..k], filter, search), quiet, histograms)
        invariant files == FilesAfterCalls(Env(), old(files), CallsFor(benchmarks, names[..k], filter, search), quiet, histograms)
      {
        CallsForNext(Env(), old(launched), old(files), names, k, filter, search, quiet, histograms);
        RunForEachPath(names[k], filter, search, quiet, histograms);
        k := k + 1;
      }
      assert names[..k] == names;
    }
  }
}

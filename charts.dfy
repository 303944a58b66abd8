/**
 * `parse_csv` and `get_data` of make_bencmark_charts.py: every CSV file found
 * under ./results becomes a list of records, one per data row, each carrying
 * the CPU, author and compiler read off the file's path, the test name read off
 * the file name, the row's `name` and its `avg_time` as an integer; the records
 * are grouped by (test, name) in walk order.
 *
 * `os.walk` is a parameter (the directories it visits, in order, each with its
 * file names) and so is the file system (`content` gives the rows `csv.reader`
 * yields for a path). Python exceptions are the `ChartError` values; the first
 * one raised ends the run.
 */
module Charts {
  import opened Wrappers
  import opened Text

  const ResultsRoot: string := "./results"

  datatype ChartError =
    | IndexError           // a path with too few components
    | StopIteration        // `next(reader)` on an empty file
    | KeyError(key: string)
    | ValueError(text: string)  // `int()` of a malformed field

  /** What the directory part of a result path says. */
  datatype Fields = Fields(cpu: string, author: string, compiler: string)

  /** `TestInfo` with its `TestData`: one measured subtest. */
  datatype TestInfo = TestInfo(cpu: string, author: string, compiler: string, test: string,
                               subtest: string, avgTime: int)

  /** A parsed CSV row: column name to field. */
  type Row = map<string, string>

  type Key = (string, string)

  /** `file[:-4]`: the file name without its last four characters, whatever they are. */
  function TestName(file: string): (test: string)
    ensures |file| >= 4 ==> |test| == |file| - 4 && file == test + file[|file| - 4..]
    ensures |file| < 4 ==> test == ""
  {
    if |file| < 4 then "" else file[..|file| - 4]
  }

  /** `path[len(PATH_TO_RESULTS):].split('/')`. */
  function PathPieces(path: string): seq<string>
  {
    Split(SliceFrom(path, |ResultsRoot|), '/')
  }

  /** The CPU, author and compiler picked from the pieces with Python's negative
      indices: five pieces carry a compiler directory, any other count has none. */
  function PathFields(pieces: seq<string>): Result<Fields, ChartError>
  {
    var n := |pieces|;
    if n == 5 then Ok(Fields(pieces[n - 4], pieces[n - 3], pieces[n - 2]))
    else if n < 3 then Err(IndexError)
    else Ok(Fields(pieces[n - 3], pieces[n - 2], "None"))
  }

  /** The part of a directory path below ./results, one "/<dir>" per level. */
  function DirSuffix(dirs: seq<string>): string
    decreases |dirs|
  {
    if dirs == [] then "" else "/" + dirs[0] + DirSuffix(dirs[1..])
  }

  lemma {:induction false} DirSuffixEnd(dirs: seq<string>)
    requires forall d :: d in dirs ==> d != "" && '/' !in d
    ensures var s := DirSuffix(dirs); s == [] || s[|s| - 1] != '/'
    decreases |dirs|
  {
    if dirs != [] {
      assert dirs[0] in dirs;
      assert forall d :: d in dirs[1..] ==> d in dirs;
      DirSuffixEnd(dirs[1..]);
      var rest := DirSuffix(dirs[1..]);
      if rest == [] {
        assert DirSuffix(dirs)[|DirSuffix(dirs)| - 1] == dirs[0][|dirs[0]| - 1];
      }
    }
  }

  /** The first level of a directory suffix followed by a file name. */
  lemma SuffixCons(dirs: seq<string>, file: string)
    requires dirs != []
    ensures DirSuffix(dirs) + "/" + file == ['/'] + (dirs[0] + (DirSuffix(dirs[1..]) + "/" + file))
  {
  }

  /** A "/<dir>" in front of a path that starts with '/' adds the piece <dir>. */
  lemma SplitDirInFront(d: string, z: string)
    requires '/' !in d && z != [] && z[0] == '/'
    ensures Split(['/'] + (d + z), '/') == [""] + [d] + Split(z, '/')[1..]
  {
    var tail := z[1..];
    assert z == [] + ['/'] + tail;
    SplitAfterPiece([], tail, '/');
    assert d + z == d + ['/'] + tail;
    SplitAfterPiece(d, tail, '/');
    assert (['/'] + (d + z))[1..] == d + z;
  }

  /** Splitting the part below ./results gives the leading empty piece, the
      directories and the file name. */
  lemma {:induction false} LayoutPieces(dirs: seq<string>, file: string)
    requires forall d :: d in dirs ==> '/' !in d
    requires '/' !in file
    ensures var s := DirSuffix(dirs) + "/" + file;
      s[0] == '/' && Split(s, '/') == [""] + dirs + [file]
    decreases |dirs|
  {
    var s := DirSuffix(dirs) + "/" + file;
    if dirs == [] {
      assert s == [] + ['/'] + file;
      SplitAfterPiece([], file, '/');
      SplitWithoutSeparator(file, '/');
    } else {
      assert dirs[0] in dirs;
      assert forall d :: d in dirs[1..] ==> d in dirs;
      LayoutPieces(dirs[1..], file);
      var z := DirSuffix(dirs[1..]) + "/" + file;
      SuffixCons(dirs, file);
      SplitDirInFront(dirs[0], z);
      assert Split(z, '/')[1..] == dirs[1..] + [file];
      assert [""] + [dirs[0]] + (dirs[1..] + [file]) == [""] + dirs + [file];
    }
  }

  /** The pieces of a result path: the leading empty piece, the directories below
      ./results and the file name. */
  lemma ResultPathPieces(dirs: seq<string>, file: string)
    requires forall d :: d in dirs ==> d != "" && '/' !in d
    requires file != "" && '/' !in file
    ensures PathPieces(JoinPath(ResultsRoot + DirSuffix(dirs), file)) == [""] + dirs + [file]
  {
    var suffix := DirSuffix(dirs);
    var root := ResultsRoot + suffix;
    DirSuffixEnd(dirs);
    assert file[0] in file;
    assert root[|root| - 1] != '/' by {
      if suffix != [] {
        assert root[|root| - 1] == suffix[|suffix| - 1];
      }
    }
    var tail := suffix + "/" + file;
    assert JoinPath(root, file) == root + "/" + file;
    assert root + "/" + file == ResultsRoot + tail;
    assert SliceFrom(ResultsRoot + tail, |ResultsRoot|) == tail by {
      assert (ResultsRoot + tail)[|ResultsRoot|..] == tail;
    }
    LayoutPieces(dirs, file);
  }

  /** A result file at ./results/<cpu>/<author>/<compiler>/<file> yields those three
      fields; at ./results/<cpu>/<author>/<file>, or any depth other than three
      directories, the last two pieces are CPU and author and the compiler is "None"
      (with one directory the CPU is the empty piece before it); a file directly in
      ./results makes the script fail with an IndexError. */
  lemma ResultLayout(dirs: seq<string>, file: string)
    requires forall d :: d in dirs ==> d != "" && '/' !in d
    requires file != "" && '/' !in file
    ensures var fields := PathFields(PathPieces(JoinPath(ResultsRoot + DirSuffix(dirs), file)));
      && (|dirs| == 3 ==> fields == Ok(Fields(dirs[0], dirs[1], dirs[2])))
      && (|dirs| == 0 ==> fields == Err(IndexError))
      && (|dirs| == 1 ==> fields == Ok(Fields("", dirs[0], "None")))
      && (|dirs| == 2 || |dirs| > 3 ==> fields == Ok(Fields(dirs[|dirs| - 2], dirs[|dirs| - 1], "None")))
  {
    ResultPathPieces(dirs, file);
    FieldsOfLayout(dirs, file);
  }

  lemma FieldsOfLayout(dirs: seq<string>, file: string)
    ensures var fields := PathFields([""] + dirs + [file]);
      && (|dirs| == 3 ==> fields == Ok(Fields(dirs[0], dirs[1], dirs[2])))
      && (|dirs| == 0 ==> fields == Err(IndexError))
      && (|dirs| == 1 ==> fields == Ok(Fields("", dirs[0], "None")))
      && (|dirs| == 2 || |dirs| > 3 ==> fields == Ok(Fields(dirs[|dirs| - 2], dirs[|dirs| - 1], "None")))
  {
    var pieces := [""] + dirs + [file];
    assert forall i :: 0 <= i < |dirs| ==> pieces[i + 1] == dirs[i];
  }

  /** `dict(zip(header, row))`: names paired with fields by position up to the shorter
      of the two; a repeated name keeps its last field. */
  function Shorter(header: seq<string>, row: seq<string>): nat
  {
    if |header| < |row| then |header| else |row|
  }

  function ZipDict(header: seq<string>, row: seq<string>): Row
    decreases |header|
  {
    var n := Shorter(header, row);
    if n == 0 then map[] else ZipDict(header[..n - 1], row[..n - 1])[header[n - 1] := row[n - 1]]
  }

  /** The names of a parsed row are the header names within the shorter length. */
  lemma {:induction false} ZipDictKeys(header: seq<string>, row: seq<string>)
    ensures forall name :: name in ZipDict(header, row) <==> name in header[..Shorter(header, row)]
    decreases |header|
  {
    var n := Shorter(header, row);
    if n > 0 {
      var h := header[..n - 1];
      ZipDictKeys(h, row[..n - 1]);
      assert Shorter(h, row[..n - 1]) == n - 1 && h[..n - 1] == h;
      assert header[..n] == h + [header[n - 1]];
    }
  }

  /** Each name of a parsed row maps to the field under its last occurrence. */
  lemma {:induction false} ZipDictValues(header: seq<string>, row: seq<string>)
    ensures var n := Shorter(header, row);
      forall j :: 0 <= j < n && header[j] !in header[j + 1..n] ==>
        header[j] in ZipDict(header, row) && ZipDict(header, row)[header[j]] == row[j]
    decreases |header|
  {
    var n := Shorter(header, row);
    if n > 0 {
      var h, r := header[..n - 1], row[..n - 1];
      ZipDictValues(h, r);
      assert Shorter(h, r) == n - 1;
      var z := ZipDict(h, r);
      assert ZipDict(header, row) == z[header[n - 1] := row[n - 1]];
      forall j | 0 <= j < n && header[j] !in header[j + 1..n]
        ensures header[j] in ZipDict(header, row) && ZipDict(header, row)[header[j]] == row[j]
      {
        if j < n - 1 {
          assert header[j + 1..n] == header[j + 1..n - 1] + [header[n - 1]];
          assert h[j + 1..n - 1] == header[j + 1..n - 1];
          assert h[j] == header[j] && r[j] == row[j];
        }
      }
    }
  }

  /** `parse_csv` on the rows `csv.reader` yields: the first row is the header, every
      later row becomes one dictionary; an empty file raises StopIteration. */
  function ParseCsv(rows: seq<seq<string>>): (r: Result<seq<Row>, ChartError>)
    ensures r.Err? <==> rows == []
    ensures r.Err? ==> r.error == StopIteration
    ensures r.Ok? ==> (|r.value| == |rows| - 1
      && forall i :: 0 <= i < |r.value| ==> r.value[i] == ZipDict(rows[0], rows[i + 1]))
  {
    if rows == [] then Err(StopIteration)
    else Ok(seq(|rows| - 1, i requires 0 <= i < |rows| - 1 => ZipDict(rows[0], rows[i + 1])))
  }

  function StripLeft(s: string): string
    decreases |s|
  {
    if s != [] && IsSpace(s[0]) then StripLeft(s[1..]) else s
  }

  function StripRight(s: string): string
    decreases |s|
  {
    if s != [] && IsSpace(s[|s| - 1]) then StripRight(s[..|s| - 1]) else s
  }

  /** Digits with single underscores between them, as `int()` accepts in base 10. */
  predicate WellFormedDigits(t: string)
  {
    && |t| > 0 && IsDigit(t[0]) && IsDigit(t[|t| - 1])
    && (forall i :: 0 <= i < |t| ==> IsDigit(t[i]) || t[i] == '_')
    && (forall i :: 0 <= i < |t| - 1 && t[i] == '_' ==> t[i + 1] != '_')
  }

  function WithoutUnderscores(t: string): (d: string)
    ensures forall c :: c in d <==> c in t && c != '_'
    decreases |t|
  {
    if t == [] then []
    else (if t[0] == '_' then [] else [t[0]]) + WithoutUnderscores(t[1..])
  }

  function DigitValue(c: char): (v: nat)
    requires IsDigit(c)
    ensures v < 10
  {
    (c as int) - ('0' as int)
  }

  /** The value of a string of decimal digits, most significant first. */
  function DecimalValue(d: string): (v: nat)
    requires forall c :: c in d ==> IsDigit(c)
    decreases |d|
  {
    if d == [] then 0
    else
      assert forall c :: c in d[..|d| - 1] ==> c in d;
      assert d[|d| - 1] in d;
      var digit := DigitValue(d[|d| - 1]);
      var higher: nat := DecimalValue(d[..|d| - 1]);
      higher * 10 + digit
  }

  /** `int(s)` in base 10: surrounding whitespace is stripped, one optional sign,
      then digits with single underscores between them; anything else is a
      ValueError. */
  function ParseInt(s: string): Result<int, ChartError>
  {
    var t := StripRight(StripLeft(s));
    var signed := |t| > 0 && (t[0] == '-' || t[0] == '+');
    var body := if signed then t[1..] else t;
    if WellFormedDigits(body) then
      var magnitude: int := DecimalValue(WithoutUnderscores(body));
      Ok(if signed && t[0] == '-' then -magnitude else magnitude)
    else Err(ValueError(s))
  }

  /** The decimal digits of n, most significant first, without leading zeros. */
  function Digits(n: nat): (d: string)
    ensures |d| > 0 && forall c :: c in d ==> IsDigit(c)
  {
    if n < 10 then [('0' as int + n) as char]
    else Digits(n / 10) + [('0' as int + n % 10) as char]
  }

  /** `str(n)`. */
  function ShowInt(n: int): string
  {
    if n < 0 then "-" + Digits(-n) else Digits(n)
  }

  lemma {:induction false} DigitsValue(n: nat)
    ensures DecimalValue(Digits(n)) == n
  {
    if n >= 10 {
      DigitsValue(n / 10);
      var d := Digits(n);
      assert d[..|d| - 1] == Digits(n / 10);
    }
  }

  lemma {:induction false} NoUnderscores(d: string)
    requires forall c :: c in d ==> IsDigit(c)
    ensures WithoutUnderscores(d) == d
    decreases |d|
  {
    if d != [] {
      assert d[0] in d;
      assert forall c :: c in d[1..] ==> c in d;
      NoUnderscores(d[1..]);
      assert [d[0]] + d[1..] == d;
    }
  }

  /** `int(str(n)) == n`: an avg_time written by `str` is read back exactly. */
  lemma DigitsParse(m: nat)
    ensures WellFormedDigits(Digits(m)) && DecimalValue(WithoutUnderscores(Digits(m))) == m
  {
    var d := Digits(m);
    assert forall i :: 0 <= i < |d| ==> d[i] in d;
    NoUnderscores(d);
    DigitsValue(m);
  }

  /** `str(n)` has nothing to strip: it starts with a sign or a digit and ends with a digit. */
  lemma ShowIntUnpadded(n: int)
    ensures var s := ShowInt(n); StripRight(StripLeft(s)) == s
  {
    var d := Digits(if n < 0 then -n else n);
    var s := ShowInt(n);
    assert d[0] in d && d[|d| - 1] in d;
    assert s[0] == '-' || s[0] == d[0];
    assert s[|s| - 1] == d[|d| - 1];
    assert StripLeft(s) == s;
  }

  /** `int(str(n)) == n`: an avg_time written by `str` is read back exactly. */
  lemma ParseShowInt(n: int)
    ensures ParseInt(ShowInt(n)) == Ok(n)
  {
    var m: nat := if n < 0 then -n else n;
    var s := ShowInt(n);
    ShowIntUnpadded(n);
    DigitsParse(m);
    var d := Digits(m);
    assert d[0] in d;
    if n < 0 {
      assert s[0] == '-' && s[1..] == d;
    } else {
      assert s == d && s[0] != '-' && s[0] != '+';
    }
  }

  /** One data row's record: a missing avg_time is a KeyError, a malformed one a
      ValueError, and only then is a missing name a KeyError. */
  function RowRecord(test: string, f: Fields, subtest: Row): (r: Result<TestInfo, ChartError>)
    ensures r.Ok? <==> "avg_time" in subtest && ParseInt(subtest["avg_time"]).Ok? && "name" in subtest
    ensures r.Ok? ==> r.value == TestInfo(f.cpu, f.author, f.compiler, test, subtest["name"],
                                          ParseInt(subtest["avg_time"]).value)
    ensures "avg_time" !in subtest ==> r == Err(KeyError("avg_time"))
    ensures "avg_time" in subtest && ParseInt(subtest["avg_time"]).Err? ==> r == Err(ParseInt(subtest["avg_time"]).error)
  {
    if "avg_time" !in subtest then Err(KeyError("avg_time"))
    else
      var avg := ParseInt(subtest["avg_time"]);
      if avg.Err? then Err(avg.error)
      else if "name" !in subtest then Err(KeyError("name"))
      else Ok(TestInfo(f.cpu, f.author, f.compiler, test, subtest["name"], avg.value))
  }

  /** The records of a file's rows, in row order, or the first row's error. */
  function RowRecords(test: string, f: Fields, subtests: seq<Row>): (r: Result<seq<TestInfo>, ChartError>)
    ensures r.Ok? ==> (|r.value| == |subtests|
      && forall i :: 0 <= i < |subtests| ==> RowRecord(test, f, subtests[i]) == Ok(r.value[i]))
    ensures r.Err? ==> exists i :: 0 <= i < |subtests| && RowRecord(test, f, subtests[i]) == Err(r.error)
    decreases |subtests|
  {
    if subtests == [] then Ok([])
    else
      var earlier := RowRecords(test, f, subtests[..|subtests| - 1]);
      if earlier.Err? then earlier
      else match RowRecord(test, f, subtests[|subtests| - 1])
        case Err(e) => Err(e)
        case Ok(info) => Ok(earlier.value + [info])
  }

  /** Rows counted the way the script reads them: all but the header. */
  function DataRows(rows: seq<seq<string>>): nat
  {
    if rows == [] then 0 else |rows| - 1
  }

  /** The records of one result file: the fields from its path, then its rows. */
  function FileRecords(root: string, file: string, content: string -> seq<seq<string>>): (r: Result<seq<TestInfo>, ChartError>)
    ensures r.Ok? ==> |r.value| == DataRows(content(JoinPath(root, file)))
  {
    var path := JoinPath(root, file);
    match PathFields(PathPieces(path))
    case Err(e) => Err(e)
    case Ok(f) =>
      match ParseCsv(content(path))
      case Err(e) => Err(e)
      case Ok(subtests) => RowRecords(TestName(file), f, subtests)
  }

  /** Data rows in the files of one directory. */
  function RowsInDir(root: string, files: seq<string>, content: string -> seq<seq<string>>): nat
    decreases |files|
  {
    if files == [] then 0
    else RowsInDir(root, files[..|files| - 1], content) + DataRows(content(JoinPath(root, files[|files| - 1])))
  }

  /** The records of a directory's files, in file order, or the first error. */
  function DirRecords(root: string, files: seq<string>, content: string -> seq<seq<string>>): (r: Result<seq<TestInfo>, ChartError>)
    ensures r.Ok? ==> |r.value| == RowsInDir(root, files, content)
    decreases |files|
  {
    if files == [] then Ok([])
    else
      var earlier := DirRecords(root, files[..|files| - 1], content);
      if earlier.Err? then earlier
      else match FileRecords(root, files[|files| - 1], content)
        case Err(e) => Err(e)
        case Ok(more) => Ok(earlier.value + more)
  }

  /** Data rows in every file the walk visits. */
  function RowsInWalk(walk: seq<(string, seq<string>)>, content: string -> seq<seq<string>>): nat
    decreases |walk|
  {
    if walk == [] then 0
    else RowsInWalk(walk[..|walk| - 1], content) + RowsInDir(walk[|walk| - 1].0, walk[|walk| - 1].1, content)
  }

  /** The records of every file the walk visits, in walk order, or the first error. */
  function WalkRecords(walk: seq<(string, seq<string>)>, content: string -> seq<seq<string>>): (r: Result<seq<TestInfo>, ChartError>)
    ensures r.Ok? ==> |r.value| == RowsInWalk(walk, content)
    decreases |walk|
  {
    if walk == [] then Ok([])
    else
      var earlier := WalkRecords(walk[..|walk| - 1], content);
      if earlier.Err? then earlier
      else match DirRecords(walk[|walk| - 1].0, walk[|walk| - 1].1, content)
        case Err(e) => Err(e)
        case Ok(more) => Ok(earlier.value + more)
  }

  function KeyOf(info: TestInfo): Key
  {
    (info.test, info.subtest)
  }

  /** Appending records to the `defaultdict(list)` one by one, each under its key. */
  function GroupInto(groups: map<Key, seq<TestInfo>>, records: seq<TestInfo>): map<Key, seq<TestInfo>>
    decreases |records|
  {
    if records == [] then groups
    else
      var g := GroupInto(groups, records[..|records| - 1]);
      var info := records[|records| - 1];
      g[KeyOf(info) := (if KeyOf(info) in g then g[KeyOf(info)] else []) + [info]]
  }

  /** The records with the given key, in their order. */
  function Matching(records: seq<TestInfo>, key: Key): (m: seq<TestInfo>)
    ensures |m| <= |records|
    ensures forall info :: info in m ==> info in records && KeyOf(info) == key
    ensures forall info :: info in records && KeyOf(info) == key ==> info in m
    decreases |records|
  {
    if records == [] then []
    else
      var last := records[|records| - 1];
      assert records == records[..|records| - 1] + [last];
      Matching(records[..|records| - 1], key) + (if KeyOf(last) == key then [last] else [])
  }

  /** Grouping keeps, under each key, what was there followed by the matching records
      in order; a key appears only once something was appended to it. */
  lemma {:induction false} GroupIsInOrderFilter(groups: map<Key, seq<TestInfo>>, records: seq<TestInfo>)
    ensures forall key :: key in GroupInto(groups, records) <==> key in groups || Matching(records, key) != []
    ensures forall key :: key in GroupInto(groups, records) ==>
      GroupInto(groups, records)[key] == (if key in groups then groups[key] else []) + Matching(records, key)
    decreases |records|
  {
    if records != [] {
      GroupIsInOrderFilter(groups, records[..|records| - 1]);
    }
  }

  /** Appending two batches of records one after the other is appending both. */
  lemma {:induction false} GroupAppend(groups: map<Key, seq<TestInfo>>, a: seq<TestInfo>, b: seq<TestInfo>)
    ensures GroupInto(groups, a + b) == GroupInto(GroupInto(groups, a), b)
    decreases |b|
  {
    if b == [] {
      assert a + b == a;
    } else {
      GroupAppend(groups, a, b[..|b| - 1]);
      assert (a + b)[..|a + b| - 1] == a + b[..|b| - 1];
      assert (a + b)[|a + b| - 1] == b[|b| - 1];
    }
  }

  /** What `get_data` returns: the grouped records, or the first error raised. */
  function Grouped(walk: seq<(string, seq<string>)>, content: string -> seq<seq<string>>): Result<map<Key, seq<TestInfo>>, ChartError>
  {
    match WalkRecords(walk, content)
    case Err(e) => Err(e)
    case Ok(records) => Ok(GroupInto(map[], records))
  }

  /** Each row of each file becomes exactly one record, filed under its (test, name)
      in walk order: the groups hold as many records as the files hold data rows. */
  lemma GetDataGroups(walk: seq<(string, seq<string>)>, content: string -> seq<seq<string>>)
    requires WalkRecords(walk, content).Ok?
    ensures var records := WalkRecords(walk, content).value;
      && |records| == RowsInWalk(walk, content)
      && Grouped(walk, content).Ok?
      && (forall key :: key in Grouped(walk, content).value <==> Matching(records, key) != [])
      && (forall key :: key in Grouped(walk, content).value ==> Grouped(walk, content).value[key] == Matching(records, key))
  {
    GroupIsInOrderFilter(map[], WalkRecords(walk, content).value);
  }

  /** Once an error is raised the later rows are not read: it is the error of the whole. */
  lemma {:induction false} RowErrorStops(test: string, f: Fields, subtests: seq<Row>, i: nat)
    requires i < |subtests| && RowRecords(test, f, subtests[..i]).Ok? && RowRecord(test, f, subtests[i]).Err?
    ensures RowRecords(test, f, subtests) == Err(RowRecord(test, f, subtests[i]).error)
    decreases |subtests|
  {
    if i + 1 < |subtests| {
      var front := subtests[..|subtests| - 1];
      assert front[..i] == subtests[..i] && front[i] == subtests[i];
      RowErrorStops(test, f, front, i);
    } else {
      assert subtests[..i] == subtests[..|subtests| - 1];
    }
  }

  lemma {:induction false} FileErrorStops(root: string, files: seq<string>, content: string -> seq<seq<string>>, i: nat)
    requires i < |files| && DirRecords(root, files[..i], content).Ok? && FileRecords(root, files[i], content).Err?
    ensures DirRecords(root, files, content) == Err(FileRecords(root, files[i], content).error)
    decreases |files|
  {
    if i + 1 < |files| {
      var front := files[..|files| - 1];
      assert front[..i] == files[..i] && front[i] == files[i];
      FileErrorStops(root, front, content, i);
    } else {
      assert files[..i] == files[..|files| - 1];
    }
  }

  lemma {:induction false} DirErrorStops(walk: seq<(string, seq<string>)>, content: string -> seq<seq<string>>, i: nat)
    requires i < |walk| && WalkRecords(walk[..i], content).Ok? && DirRecords(walk[i].0, walk[i].1, content).Err?
    ensures WalkRecords(walk, content) == Err(DirRecords(walk[i].0, walk[i].1, content).error)
    decreases |walk|
  {
    if i + 1 < |walk| {
      var front := walk[..|walk| - 1];
      assert front[..i] == walk[..i] && front[i] == walk[i];
      DirErrorStops(front, content, i);
    } else {
      assert walk[..i] == walk[..|walk| - 1];
    }
  }

  /** The body of `for subtest in subtests` in `get_data`: one record appended under
      its (test, name). */
  method AddRow(groups: map<Key, seq<TestInfo>>, test: string, fields: Fields, subtest: Row) returns (r: Result<map<Key, seq<TestInfo>>, ChartError>)
    ensures RowRecord(test, fields, subtest).Err? ==> r == Err(RowRecord(test, fields, subtest).error)
    ensures RowRecord(test, fields, subtest).Ok? ==> r == Ok(GroupInto(groups, [RowRecord(test, fields, subtest).value]))
  {
    if "avg_time" !in subtest {
      return Err(KeyError("avg_time"));
    }
    var avg := ParseInt(subtest["avg_time"]);
    if avg.Err? {
      return Err(avg.error);
    }
    if "name" !in subtest {
      return Err(KeyError("name"));
    }
    var key := (test, subtest["name"]);
    var info := TestInfo(fields.cpu, fields.author, fields.compiler, test, subtest["name"], avg.value);
    assert [info][..0] == [];
    return Ok(groups[key := (if key in groups then groups[key] else []) + [info]]);
  }

  /** The body of `for file in files` in `get_data`: the file's fields, its rows, and
      one append to the groups per row. */
  method AddFile(groups: map<Key, seq<TestInfo>>, root: string, file: string, content: string -> seq<seq<string>>) returns (r: Result<map<Key, seq<TestInfo>>, ChartError>)
    ensures FileRecords(root, file, content).Err? ==> r == Err(FileRecords(root, file, content).error)
    ensures FileRecords(root, file, content).Ok? ==> r == Ok(GroupInto(groups, FileRecords(root, file, content).value))
  {
    var path := JoinPath(root, file);
    var test := TestName(file);
    var fields := PathFields(PathPieces(path));
    if fields.Err? {
      return Err(fields.error);
    }
    var parsed := ParseCsv(content(path));
    if parsed.Err? {
      return Err(parsed.error);
    }
    r := AddRows(groups, test, fields.value, parsed.value);
  }

  /** The loop `for subtest in subtests` of `get_data`, for one file. */
  method AddRows(groups: map<Key, seq<TestInfo>>, test: string, fields: Fields, subtests: seq<Row>) returns (r: Result<map<Key, seq<TestInfo>>, ChartError>)
    ensures RowRecords(test, fields, subtests).Err? ==> r == Err(RowRecords(test, fields, subtests).error)
    ensures RowRecords(test, fields, subtests).Ok? ==> r == Ok(GroupInto(groups, RowRecords(test, fields, subtests).value))
  {
    var g := groups;
    ghost var done: seq<TestInfo> := [];
    var i := 0;
    while i < |subtests|
      invariant 0 <= i <= |subtests|
      invariant RowRecords(test, fields, subtests[..i]) == Ok(done)
      invariant g == GroupInto(groups, done)
    {
      ghost var row := RowRecord(test, fields, subtests[i]);
      assert subtests[..i + 1][..i] == subtests[..i];
      var added := AddRow(g, test, fields, subtests[i]);
      if added.Err? {
        assert row.Err?;
        RowErrorStops(test, fields, subtests, i);
        return Err(added.error);
      }
      ghost var info := row.value;
      assert RowRecords(test, fields, subtests[..i + 1]) == Ok(done + [info]);
      GroupAppend(groups, done, [info]);
      g := added.value;
      done := done + [info];
      i := i + 1;
    }
    assert subtests[..i] == subtests;
    return Ok(g);
  }

  /** The body of `for root, dirs, files in os.walk(...)` in `get_data`: every file
      of one directory, in order. */
  method AddDir(groups: map<Key, seq<TestInfo>>, root: string, files: seq<string>, content: string -> seq<seq<string>>) returns (r: Result<map<Key, seq<TestInfo>>, ChartError>)
    ensures DirRecords(root, files, content).Err? ==> r == Err(DirRecords(root, files, content).error)
    ensures DirRecords(root, files, content).Ok? ==> r == Ok(GroupInto(groups, DirRecords(root, files, content).value))
  {
    var g := groups;
    ghost var done: seq<TestInfo> := [];
    var f := 0;
    while f < |files|
      invariant 0 <= f <= |files|
      invariant DirRecords(root, files[..f], content) == Ok(done)
      invariant g == GroupInto(groups, done)
    {
      assert files[..f + 1][..f] == files[..f];
      var added := AddFile(g, root, files[f], content);
      if added.Err? {
        FileErrorStops(root, files, content, f);
        return Err(added.error);
      }
      ghost var more := FileRecords(root, files[f], content).value;
      GroupAppend(groups, done, more);
      g := added.value;
      done := done + more;
      f := f + 1;
    }
    assert files[..f] == files;
    return Ok(g);
  }

  /** `get_data`: walk the directories in order, each file in order, and group every
      row's record under (test, name); the first error raised ends the run. */
  method GetData(walk: seq<(string, seq<string>)>, content: string -> seq<seq<string>>) returns (r: Result<map<Key, seq<TestInfo>>, ChartError>)
    ensures r == Grouped(walk, content)
  {
    var fileList: map<Key, seq<TestInfo>> := map[];
    ghost var done: seq<TestInfo> := [];
    var w := 0;
    while w < |walk|
      invariant 0 <= w <= |walk|
      invariant WalkRecords(walk[..w], content) == Ok(done)
      invariant fileList == GroupInto(map[], done)
    {
      assert walk[..w + 1][..w] == walk[..w];
      var added := AddDir(fileList, walk[w].0, walk[w].1, content);
      if added.Err? {
        DirErrorStops(walk, content, w);
        return Err(added.error);
      }
      ghost var more := DirRecords(walk[w].0, walk[w].1, content).value;
      GroupAppend(map[], done, more);
      fileList := added.value;
      done := done + more;
      w := w + 1;
    }
    assert walk[..w] == walk;
    return Ok(fileList);
  }
}

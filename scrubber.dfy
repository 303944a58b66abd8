/**
 * The per-line loop of `BenchRunner.run_benchmark` that turns a benchmark
 * executable's output into the lines of `./<name>.csv`. Its state is the
 * `header_written` flag and the lines written so far; each line goes through
 * four ordered rules: progress echo, first header, trailer drop, cleaned write.
 */
module Scrubber {
  import opened Text
  import Ansi

  const HeaderSignature: string := "name,avg_time,min_time"


  function SkipSpaces(s: string, i: nat): (j: nat)
    requires i <= |s|
    ensures i <= j <= |s|
    ensures forall k :: i <= k < j ==> IsSpace(s[k])
    ensures j < |s| ==> !IsSpace(s[j])
    decreases |s| - i
  {
    if i < |s| && IsSpace(s[i]) then SkipSpaces(s, i + 1) else i
  }

  function SkipDigits(s: string, i: nat): (j: nat)
    requires i <= |s|
    ensures i <= j <= |s|
    ensures forall k :: i <= k < j ==> IsDigit(s[k])
    ensures j < |s| ==> !IsDigit(s[j])
    decreases |s| - i
  {
    if i < |s| && IsDigit(s[i]) then SkipDigits(s, i + 1) else i
  }

  /** `re.search(r"^\[\s*\d+%\]", line)`, as a left-to-right scan. */
  predicate IsPercentMarker(line: string)
  {
    1 <= |line| && line[0] == '[' &&
    var p := SkipSpaces(line, 1);
    var q := SkipDigits(line, p);
    p < q && q + 2 <= |line| && line[q] == '%' && line[q + 1] == ']'
  }

  /** line starts with "[", spaces line[1..p], digits line[p..q] (at least one), "%]". */
  predicate MarkerShapeAt(line: string, p: nat, q: nat)
  {
    1 <= p < q && q + 2 <= |line| && line[0] == '[' &&
    (forall k :: 1 <= k < p ==> IsSpace(line[k])) &&
    (forall k :: p <= k < q ==> IsDigit(line[k])) &&
    line[q] == '%' && line[q + 1] == ']'
  }

  /** The scan accepts exactly the lines that some split into the pattern's pieces accepts. */
  lemma PercentMarkerIsPatternMatch(line: string)
    ensures IsPercentMarker(line) <==> exists p: nat, q: nat :: MarkerShapeAt(line, p, q)
  {
    if exists p: nat, q: nat :: MarkerShapeAt(line, p, q) {
      var p: nat, q: nat :| MarkerShapeAt(line, p, q);
      var p' := SkipSpaces(line, 1);
      var q' := SkipDigits(line, p');
      assert !IsSpace(line[p]);
      if p' < p {
        assert false;
      }
      assert !IsDigit(line[q]);
      if q' < q {
        assert false;
      }
    }
    if IsPercentMarker(line) {
      var p := SkipSpaces(line, 1);
      assert MarkerShapeAt(line, p, SkipDigits(line, p));
    }
  }

  /** Rule 1: a progress line, only echoed to the console. */
  predicate IsProgress(line: string)
  {
    IsPercentMarker(line) || Contains(line, "Launching")
  }

  /** Rule 3's words: summary and repeated-header lines. */
  predicate IsTrailer(line: string)
  {
    Contains(line, "total_operations") || Contains(line, "avg_time")
  }

  /** A line that rule 2 takes as the header when no header is written yet. */
  predicate IsHeaderLine(line: string)
  {
    !IsProgress(line) && Contains(line, HeaderSignature)
  }

  datatype Action = Echo | WriteHeader | Drop | WriteData(text: string)

  /** The four ordered rules for one line, given whether the header was written. */
  function Classify(line: string, headerWritten: bool): Action
  {
    if IsProgress(line) then Echo
    else if Contains(line, HeaderSignature) && !headerWritten then WriteHeader
    else if headerWritten && IsTrailer(line) then Drop
    else WriteData(Ansi.Clean(line))
  }

  /** What an action appends to the result file. */
  function Written(line: string, a: Action): seq<string>
  {
    match a
    case Echo => []
    case Drop => []
    case WriteHeader => [line]
    case WriteData(text) => [text]
  }

  /** The result file's lines after feeding `lines` with the flag starting at headerWritten. */
  function ScrubFrom(lines: seq<string>, headerWritten: bool): seq<string>
    decreases |lines|
  {
    if lines == [] then []
    else
      var a := Classify(lines[0], headerWritten);
      Written(lines[0], a) + ScrubFrom(lines[1..], headerWritten || a == WriteHeader)
  }

  /** A single line as rule 4 writes it, or nothing for a progress line. */
  function CleanedLine(line: string): seq<string>
  {
    if IsProgress(line) then [] else [Ansi.Clean(line)]
  }

  /** Reference definition: every non-progress line, ANSI-cleaned, in arrival order. */
  function CleanedLines(lines: seq<string>): seq<string>
    decreases |lines|
  {
    if lines == [] then [] else CleanedLine(lines[0]) + CleanedLines(lines[1..])
  }

  /** Before the header, a line that is not a header line is written as rule 4 says. */
  lemma ScrubBeforeHeaderStep(lines: seq<string>)
    requires lines != [] && !IsHeaderLine(lines[0])
    ensures ScrubFrom(lines, false) == CleanedLine(lines[0]) + ScrubFrom(lines[1..], false)
  {
  }

  /** Reference definition: non-progress, non-trailer lines, ANSI-cleaned, in arrival order. */
  function CleanedData(lines: seq<string>): seq<string>
    decreases |lines|
  {
    if lines == [] then []
    else (if IsProgress(lines[0]) || IsTrailer(lines[0]) then [] else [Ansi.Clean(lines[0])])
         + CleanedData(lines[1..])
  }

  /** Once the header is written the flag never resets and each later line is
      dropped if it is progress or trailer, and otherwise written cleaned. */
  lemma {:induction false} ScrubAfterHeader(lines: seq<string>)
    ensures ScrubFrom(lines, true) == CleanedData(lines)
    decreases |lines|
  {
    if lines != [] {
      ScrubAfterHeader(lines[1..]);
    }
  }

  /** Without a header line, every non-progress line is written cleaned, trailer
      words included: the trailer rule only applies after the header. */
  lemma {:induction false} ScrubWithoutHeader(lines: seq<string>)
    requires forall i :: 0 <= i < |lines| ==> !IsHeaderLine(lines[i])
    ensures ScrubFrom(lines, false) == CleanedLines(lines)
    decreases |lines|
  {
    if lines != [] {
      ScrubBeforeHeaderStep(lines);
      ScrubWithoutHeader(lines[1..]);
    }
  }

  /** With a first header line at k, the file is the cleaned lines before it, that
      header verbatim, then the cleaned non-trailer lines after it: only the first
      header line is written verbatim (a later line can still clean to the header
      text, see HiddenHeaderWrittenTwice). */
  lemma {:induction false} ScrubWithHeader(lines: seq<string>, k: nat)
    requires k < |lines| && IsHeaderLine(lines[k])
    requires forall i :: 0 <= i < k ==> !IsHeaderLine(lines[i])
    ensures ScrubFrom(lines, false) == CleanedLines(lines[..k]) + [lines[k]] + CleanedData(lines[k + 1..])
    decreases k
  {
    if k == 0 {
      ScrubAtHeader(lines);
    } else {
      ScrubWithHeader(lines[1..], k - 1);
      ScrubBeforeHeaderCons(lines, k);
    }
  }

  lemma ScrubBeforeHeaderCons(lines: seq<string>, k: nat)
    requires 0 < k < |lines| && !IsHeaderLine(lines[0])
    requires ScrubFrom(lines[1..], false)
          == CleanedLines(lines[1..][..k - 1]) + [lines[k]] + CleanedData(lines[1..][k - 1 + 1..])
    ensures ScrubFrom(lines, false) == CleanedLines(lines[..k]) + [lines[k]] + CleanedData(lines[k + 1..])
  {
    ScrubBeforeHeaderStep(lines);
    var prefix := lines[..k];
    assert prefix[0] == lines[0] && prefix[1..] == lines[1..][..k - 1];
    assert lines[1..][k - 1 + 1..] == lines[k + 1..];
    var head, before, after := CleanedLine(lines[0]), CleanedLines(prefix[1..]), CleanedData(lines[k + 1..]);
    assert CleanedLines(prefix) == head + before;
    Associative(head, before + [lines[k]], after);
    Associative(head, before, [lines[k]]);
  }

  /** The first header line is written verbatim and turns the trailer rule on. */
  lemma ScrubAtHeader(lines: seq<string>)
    requires lines != [] && IsHeaderLine(lines[0])
    ensures ScrubFrom(lines, false) == [lines[0]] + CleanedData(lines[1..])
  {
    assert Classify(lines[0], false) == WriteHeader;
    ScrubAfterHeader(lines[1..]);
  }

  /** A line after the header that is neither progress nor trailer is written
      cleaned, even when cleaning turns it into the header text. */
  lemma LineAfterHeader(header: string, line: string)
    requires IsHeaderLine(header) && !IsProgress(line) && !IsTrailer(line)
    ensures ScrubFrom([header, line], false) == [header, Ansi.Clean(line)]
  {
    ScrubAtHeader([header, line]);
    assert [header, line][1..] == [line] && [line][1..] == [];
  }

  /** A later line whose "avg_time" is split by an escape sequence passes the
      trailer rule, and cleaning then turns it into the header text: the file holds
      the header twice. */
  lemma HiddenHeaderWrittenTwice()
    ensures ScrubFrom([HeaderSignature, "name,avg_" + [Ansi.ESC, '[', 'm'] + "time,min_time"], false)
         == [HeaderSignature, HeaderSignature]
  {
    var hidden := "name,avg_" + [Ansi.ESC, '[', 'm'] + "time,min_time";
    HeaderIsHeaderLine();
    HiddenNotProgress(hidden);
    HiddenNotTrailer(hidden);
    HiddenCleansToHeader(hidden);
    LineAfterHeader(HeaderSignature, hidden);
  }

  /** The header signature itself is a header line. */
  lemma HeaderIsHeaderLine()
    ensures IsHeaderLine(HeaderSignature)
  {
    assert !IsPercentMarker(HeaderSignature) by {}
    assert !Contains(HeaderSignature, "Launching") by {
      NotContainsFirstChar(HeaderSignature, "Launching");
    }
    assert Contains(HeaderSignature, HeaderSignature) by {
      assert HeaderSignature[..|HeaderSignature|] == HeaderSignature;
    }
  }

  /** The line with the escape sequence inside "avg_time" is not a progress line. */
  lemma HiddenNotProgress(hidden: string)
    requires hidden == "name,avg_" + [Ansi.ESC, '[', 'm'] + "time,min_time"
    ensures !IsProgress(hidden)
  {
    assert !IsPercentMarker(hidden) by {}
    NotContainsFirstChar(hidden, "Launching");
  }

  /** Neither trailer word occurs in it: the escape sequence splits "avg_time". */
  lemma HiddenNotTrailer(hidden: string)
    requires hidden == "name,avg_" + [Ansi.ESC, '[', 'm'] + "time,min_time"
    ensures !IsTrailer(hidden)
  {
    var front, back := "name,avg_", ['[', 'm'] + "time,min_time";
    NotContainsChar(hidden, "total_operations", 'o');
    assert !Contains(front, "avg_time") by {
      assert front[..8][0] != 'a';
      assert front[1..][..8][1] != 'v';
      assert |front[1..][1..]| < 8;
    }
    NotContainsFirstChar(back, "avg_time");
    assert hidden == front + [Ansi.ESC] + back;
    ContainsAcross(front, Ansi.ESC, back, "avg_time");
  }

  /** Cleaning deletes the escape sequence and leaves the header signature. */
  lemma HiddenCleansToHeader(hidden: string)
    requires hidden == "name,avg_" + [Ansi.ESC, '[', 'm'] + "time,min_time"
    ensures Ansi.Clean(hidden) == HeaderSignature
  {
    var escape := [Ansi.ESC, '[', 'm'];
    assert Ansi.IsEscapeSequence(escape) by {
      assert Ansi.BodySplitsAt(escape, 2);
    }
    Ansi.CleanJoinsAround("name,avg_", escape, "time,min_time");
  }

  /** Progress lines never reach the file and never change the state: removing them
      from the stream leaves the file unchanged. */
  function WithoutProgress(lines: seq<string>): (r: seq<string>)
    ensures forall i :: 0 <= i < |r| ==> !IsProgress(r[i])
    decreases |lines|
  {
    if lines == [] then []
    else (if IsProgress(lines[0]) then [] else [lines[0]]) + WithoutProgress(lines[1..])
  }

  lemma {:induction false} ProgressLinesAreInvisible(lines: seq<string>, headerWritten: bool)
    ensures ScrubFrom(lines, headerWritten) == ScrubFrom(WithoutProgress(lines), headerWritten)
    decreases |lines|
  {
    if lines != [] {
      var w := WithoutProgress(lines);
      if IsProgress(lines[0]) {
        assert Classify(lines[0], headerWritten) == Echo;
        assert w == WithoutProgress(lines[1..]);
        ProgressLinesAreInvisible(lines[1..], headerWritten);
      } else {
        var a := Classify(lines[0], headerWritten);
        ProgressLinesAreInvisible(lines[1..], headerWritten || a == WriteHeader);
        assert w[0] == lines[0];
        assert w[1..] == WithoutProgress(lines[1..]);
      }
    }
  }

  /** One step of the loop: the file from position k on is this line's output followed
      by the rest, fed with the updated flag. */
  lemma ScrubStep(lines: seq<string>, k: nat, headerWritten: bool)
    requires k < |lines|
    ensures var a := Classify(lines[k], headerWritten);
      ScrubFrom(lines[k..], headerWritten)
      == Written(lines[k], a) + ScrubFrom(lines[k + 1..], headerWritten || a == WriteHeader)
  {
    assert lines[k..][1..] == lines[k + 1..];
  }

  /** The body of the loop for one line: what it writes to the file and the new
      value of `header_written`. It is the statement-level form of Classify and
      Written, and does the same. */
  method ScrubLine(line: string, headerWritten: bool) returns (written: seq<string>, headerWrittenAfter: bool)
    ensures var a := Classify(line, headerWritten);
      written == Written(line, a) && headerWrittenAfter == (headerWritten || a == WriteHeader)
  {
    written, headerWrittenAfter := [], headerWritten;
    if IsPercentMarker(line) || Contains(line, "Launching") {
      // printed to the console only
    } else if Contains(line, HeaderSignature) && !headerWritten {
      written := [line];
      headerWrittenAfter := true;
    } else if headerWritten && (Contains(line, "total_operations") || Contains(line, "avg_time")) {
      // dropped
    } else {
      var cleanOutput := Ansi.Clean(line);
      written := [cleanOutput];
    }
  }

  /** The loop of `run_benchmark` over the process's output lines, writing the
      result file in arrival order. */
  method CaptureOutput(lines: seq<string>) returns (file: seq<string>)
    ensures file == ScrubFrom(lines, false)
  {
    var headerWritten := false;
    file := [];
    var k := 0;
    while k < |lines|
      invariant 0 <= k <= |lines|
      invariant file + ScrubFrom(lines[k..], headerWritten) == ScrubFrom(lines, false)
    {
      ScrubStep(lines, k, headerWritten);
      var written;
      written, headerWritten := ScrubLine(lines[k], headerWritten);
      file := file + written;
      k := k + 1;
    }
    assert lines[k..] == [];
  }
}

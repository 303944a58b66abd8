/** Python string operations the driver and the chart script rely on. */
module Text {

  /** Python's whitespace (`str.isspace`, `\s`, what `int()` strips) among ASCII
      characters: space, tab to carriage return, and the separators 0x1C to 0x1F. */
  predicate IsSpace(c: char)
  {
    c == ' ' || '\t' <= c <= '\r' || '\U{1C}' <= c <= '\U{1F}'
  }

  /** Python's decimal digits (`\d`, what `int()` reads) among ASCII characters. */
  predicate IsDigit(c: char)
  {
    '0' <= c <= '9'
  }

  /** `t in s` for Python strings: t occurs as a contiguous slice of s. */
  predicate Contains(s: string, t: string)
    decreases |s|
  {
    |t| <= |s| && (s[..|t|] == t || Contains(s[1..], t))
  }

  /** t starts at position k of s. */
  predicate OccursAt(s: string, t: string, k: nat)
  {
    k + |t| <= |s| && s[k..k + |t|] == t
  }

  /** The recursive scan agrees with "t occurs at some position of s". */
  lemma {:induction false} ContainsAt(s: string, t: string)
    ensures Contains(s, t) <==> exists k: nat :: OccursAt(s, t, k)
    decreases |s|
  {
    if |t| <= |s| && s[..|t|] != t {
      ContainsAt(s[1..], t);
      if Contains(s[1..], t) {
        var k: nat :| OccursAt(s[1..], t, k);
        assert s[k + 1..k + 1 + |t|] == s[1..][k..k + |t|];
        assert OccursAt(s, t, k + 1);
      }
      if exists k: nat :: OccursAt(s, t, k) {
        var k: nat :| OccursAt(s, t, k);
        assert k != 0 by { assert s[0..|t|] == s[..|t|]; }
        assert 1 <= k && k + |t| <= |s| && s[k..k + |t|] == t;
        assert s[1..][k - 1..k - 1 + |t|] == s[k..k + |t|];
        assert OccursAt(s[1..], t, k - 1);
      }
    } else if |t| <= |s| {
      assert OccursAt(s, t, 0);
    }
  }

  /** t cannot occur in s when its first character does not. */
  lemma {:induction false} NotContainsFirstChar(s: string, t: string)
    requires |t| > 0 && t[0] !in s
    ensures !Contains(s, t)
    decreases |s|
  {
    if |t| <= |s| {
      assert s[..|t|][0] == s[0];
      NotContainsFirstChar(s[1..], t);
    }
  }

  /** An occurrence of t cannot straddle a character that t does not hold: it lies
      on one side of it. */
  lemma ContainsAcross(a: string, c: char, b: string, t: string)
    requires c !in t
    ensures Contains(a + [c] + b, t) ==> Contains(a, t) || Contains(b, t)
  {
    var s := a + [c] + b;
    ContainsAt(s, t);
    if Contains(s, t) {
      var k: nat :| OccursAt(s, t, k);
      assert k + |t| <= |a| || k > |a| by {
        assert s[|a|] == c;
        assert forall j :: k <= j < k + |t| ==> s[j] == t[j - k];
      }
      if k + |t| <= |a| {
        assert a[k..k + |t|] == s[k..k + |t|];
        assert OccursAt(a, t, k);
        ContainsAt(a, t);
      } else {
        assert s[|a| + 1..] == b;
        assert s[k..k + |t|] == s[|a| + 1..][k - |a| - 1..k - |a| - 1 + |t|];
        assert OccursAt(b, t, k - |a| - 1);
        ContainsAt(b, t);
      }
    }
  }

  /** The converse: an occurrence on either side is an occurrence in the whole. */
  lemma ContainsInEitherSide(a: string, c: char, b: string, t: string)
    ensures Contains(a, t) || Contains(b, t) ==> Contains(a + [c] + b, t)
  {
    var s := a + [c] + b;
    ContainsAt(s, t);
    if Contains(a, t) {
      ContainsAt(a, t);
      var k: nat :| OccursAt(a, t, k);
      assert s[k..k + |t|] == a[k..k + |t|];
      assert OccursAt(s, t, k);
    } else if Contains(b, t) {
      ContainsAt(b, t);
      var k: nat :| OccursAt(b, t, k);
      assert s[|a| + 1..] == b;
      assert s[k + |a| + 1..k + |a| + 1 + |t|] == s[|a| + 1..][k..k + |t|];
      assert OccursAt(s, t, k + |a| + 1);
    }
  }

  /** t cannot occur in s when some character of t does not. */
  lemma {:induction false} NotContainsChar(s: string, t: string, c: char)
    requires c in t && c !in s
    ensures !Contains(s, t)
    decreases |s|
  {
    if |t| <= |s| {
      if s[..|t|] == t {
        assert false;
      }
      NotContainsChar(s[1..], t, c);
    }
  }

  lemma Associative<T>(a: seq<T>, b: seq<T>, c: seq<T>)
    ensures a + (b + c) == (a + b) + c
  {
  }

  /** a is a (not necessarily contiguous) subsequence of b. */
  predicate IsSubsequence<T(==)>(a: seq<T>, b: seq<T>)
    decreases |b|
  {
    a == [] || (b != [] && ((a[0] == b[0] && IsSubsequence(a[1..], b[1..])) || IsSubsequence(a, b[1..])))
  }

  lemma {:induction false} SubsequenceOfSuffix<T>(a: seq<T>, b: seq<T>, k: nat)
    requires k <= |b| && IsSubsequence(a, b[k..])
    ensures IsSubsequence(a, b)
    decreases k
  {
    if k > 0 {
      assert b[k - 1..][1..] == b[k..];
      SubsequenceOfSuffix(a, b, k - 1);
    }
  }

  /** Python's `s.split(sep)`: the pieces between separators, always at least one. */
  function Split(s: string, sep: char): (pieces: seq<string>)
    ensures |pieces| >= 1
    ensures forall p :: p in pieces ==> sep !in p
    decreases |s|
  {
    if s == [] then [[]]
    else if s[0] == sep then [[]] + Split(s[1..], sep)
    else
      var rest := Split(s[1..], sep);
      [[s[0]] + rest[0]] + rest[1..]
  }

  /** Python's `sep.join(pieces)`. */
  function JoinWith(pieces: seq<string>, sep: char): string
    requires |pieces| >= 1
    decreases |pieces|
  {
    if |pieces| == 1 then pieces[0] else pieces[0] + [sep] + JoinWith(pieces[1..], sep)
  }

  /** Number of occurrences of c in s. */
  function Count(s: string, c: char): nat
  {
    if s == [] then 0 else (if s[0] == c then 1 else 0) + Count(s[1..], c)
  }

  /** Splitting and joining again gives the string back, with one piece per separator plus one. */
  lemma {:induction false} SplitJoin(s: string, sep: char)
    ensures JoinWith(Split(s, sep), sep) == s
    ensures |Split(s, sep)| == Count(s, sep) + 1
    decreases |s|
  {
    if s != [] {
      SplitJoin(s[1..], sep);
      var rest := Split(s[1..], sep);
      if s[0] != sep {
        if |rest| == 1 {
          assert JoinWith(Split(s, sep), sep) == [s[0]] + rest[0];
        } else {
          assert Split(s, sep)[1..] == rest[1..];
        }
        assert s == [s[0]] + s[1..];
      }
    }
  }

  /** A string without the separator is a single piece. */
  lemma {:induction false} SplitWithoutSeparator(p: string, sep: char)
    requires sep !in p
    ensures Split(p, sep) == [p]
    decreases |p|
  {
    if p != [] {
      SplitWithoutSeparator(p[1..], sep);
      assert [p[0]] + p[1..] == p;
    }
  }

  /** A piece without the separator, then the separator: the piece comes off first. */
  lemma {:induction false} SplitAfterPiece(p: string, rest: string, sep: char)
    requires sep !in p
    ensures Split(p + [sep] + rest, sep) == [p] + Split(rest, sep)
    decreases |p|
  {
    var s := p + [sep] + rest;
    if p == [] {
      assert s == [sep] + rest;
    } else {
      assert s[1..] == p[1..] + [sep] + rest;
      SplitAfterPiece(p[1..], rest, sep);
      assert [p[0]] + p[1..] == p;
    }
  }

  /** Joining pieces that hold no separator and splitting again gives the pieces back. */
  lemma {:induction false} JoinSplit(pieces: seq<string>, sep: char)
    requires |pieces| >= 1 && forall p :: p in pieces ==> sep !in p
    ensures Split(JoinWith(pieces, sep), sep) == pieces
    decreases |pieces|
  {
    assert pieces[0] in pieces;
    if |pieces| == 1 {
      SplitWithoutSeparator(pieces[0], sep);
    } else {
      assert forall p :: p in pieces[1..] ==> p in pieces;
      JoinSplit(pieces[1..], sep);
      SplitAfterPiece(pieces[0], JoinWith(pieces[1..], sep), sep);
      assert [pieces[0]] + pieces[1..] == pieces;
    }
  }

  /** Python's `s[n:]` for n >= 0: empty when s is shorter. */
  function SliceFrom(s: string, n: nat): (r: string)
    ensures |r| == if |s| <= n then 0 else |s| - n
    ensures forall i :: 0 <= i < |r| ==> r[i] == s[n + i]
  {
    if |s| <= n then "" else s[n..]
  }

  /** `os.path.join(base, path)` for POSIX paths. */
  function JoinPath(base: string, path: string): string
  {
    if |path| > 0 && path[0] == '/' then path
    else if base == [] || base[|base| - 1] == '/' then base + path
    else base + "/" + path
  }
}

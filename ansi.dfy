/**
 * The driver's ANSI escape-sequence cleaner: every left-most, non-overlapping
 * match of the pattern  ESC [@-_] [0-?]* [ -/]* [@-~]  is deleted (section 5.4 of
 * ECMA-48: an introducer, parameter bytes, intermediate bytes, a final byte).
 * The three repeated byte classes are pairwise disjoint, so a greedy
 * left-to-right scan finds the same match as a backtracking regex engine.
 */
module Ansi {
  import opened Wrappers
  import opened Text

  const ESC: char := '\U{1B}'

  /** The byte right after ESC: 0x40-0x5F. */
  predicate IsIntroducer(c: char) { '@' <= c <= '_' }

  /** Parameter bytes: 0x30-0x3F. */
  predicate IsParameter(c: char) { '0' <= c <= '?' }

  /** Intermediate bytes: 0x20-0x2F. */
  predicate IsIntermediate(c: char) { ' ' <= c <= '/' }

  /** Final byte: 0x40-0x7E. */
  predicate IsFinal(c: char) { '@' <= c <= '~' }

  /** End of the run of parameter bytes that starts at i. */
  function SkipParameters(s: string, i: nat): (j: nat)
    requires i <= |s|
    ensures i <= j <= |s|
    ensures forall k :: i <= k < j ==> IsParameter(s[k])
    ensures j < |s| ==> !IsParameter(s[j])
    decreases |s| - i
  {
    if i < |s| && IsParameter(s[i]) then SkipParameters(s, i + 1) else i
  }

  /** End of the run of intermediate bytes that starts at i. */
  function SkipIntermediates(s: string, i: nat): (j: nat)
    requires i <= |s|
    ensures i <= j <= |s|
    ensures forall k :: i <= k < j ==> IsIntermediate(s[k])
    ensures j < |s| ==> !IsIntermediate(s[j])
    decreases |s| - i
  {
    if i < |s| && IsIntermediate(s[i]) then SkipIntermediates(s, i + 1) else i
  }

  /** The length of the escape sequence the pattern matches at the start of s, if any. */
  function EscapeAt(s: string): Option<nat>
  {
    if 2 <= |s| && s[0] == ESC && IsIntroducer(s[1]) then
      var p := SkipParameters(s, 2);
      var q := SkipIntermediates(s, p);
      if q < |s| && IsFinal(s[q]) then Some(q + 1) else None
    else None
  }

  /** w[2..p] are parameter bytes and w[p..|w|-1] intermediate bytes. */
  predicate BodySplitsAt(w: string, p: nat)
  {
    2 <= p <= |w| - 1 &&
    (forall k :: 2 <= k < p ==> IsParameter(w[k])) &&
    (forall k :: p <= k < |w| - 1 ==> IsIntermediate(w[k]))
  }

  /** w, as a whole, is in the language of the pattern. */
  ghost predicate IsEscapeSequence(w: string)
  {
    3 <= |w| && w[0] == ESC && IsIntroducer(w[1]) && IsFinal(w[|w| - 1]) &&
    exists p: nat :: BodySplitsAt(w, p)
  }

  /** The scanner finds a match of length n exactly when s[..n] is in the pattern's language,
      so at most one prefix of s matches and backtracking could not find another. */
  lemma EscapeAtIsPatternMatch(s: string, n: nat)
    requires n <= |s|
    ensures EscapeAt(s) == Some(n) <==> IsEscapeSequence(s[..n])
  {
    var w := s[..n];
    if EscapeAt(s) == Some(n) {
      var p := SkipParameters(s, 2);
      assert BodySplitsAt(w, p);
    }
    if IsEscapeSequence(w) {
      var p: nat :| BodySplitsAt(w, p);
      var p' := SkipParameters(s, 2);
      var q' := SkipIntermediates(s, p');
      // the parameter run cannot stop early or run long: the classes are disjoint
      if p' < p {
        assert false;
      }
      assert w[p] == s[p];
      assert !IsParameter(s[p]);
      if q' < n - 1 {
        assert false;
      }
      if q' > n - 1 {
        assert false;
      }
    }
  }

  /** `clean_ansi_escape_sequences`: delete every left-most match, scanning left to right. */
  function Clean(s: string): (r: string)
    ensures |r| <= |s|
    decreases |s|
  {
    if s == [] then []
    else match EscapeAt(s)
      case Some(n) => Clean(s[n..])
      case None => [s[0]] + Clean(s[1..])
  }

  /** The cleaned text keeps characters of the input, in order. */
  lemma {:induction false} CleanIsSubsequence(s: string)
    ensures IsSubsequence(Clean(s), s)
    decreases |s|
  {
    if s != [] {
      match EscapeAt(s)
      case Some(n) =>
        CleanIsSubsequence(s[n..]);
        SubsequenceOfSuffix(Clean(s), s, n);
      case None =>
        CleanIsSubsequence(s[1..]);
    }
  }

  /** Text without an ESC character comes out unchanged. */
  lemma {:induction false} CleanWithoutEscape(s: string)
    requires ESC !in s
    ensures Clean(s) == s
    decreases |s|
  {
    if s != [] {
      assert s[0] != ESC;
      CleanWithoutEscape(s[1..]);
    }
  }

  /** A character other than ESC at the front is always kept: matches only start at ESC. */
  lemma CleanKeepsLeadingText(c: char, s: string)
    requires c != ESC
    ensures Clean([c] + s) == [c] + Clean(s)
  {
    assert ([c] + s)[1..] == s;
  }

  /** Text before the first ESC is kept as it is. */
  lemma {:induction false} CleanKeepsPrefix(p: string, s: string)
    requires ESC !in p
    ensures Clean(p + s) == p + Clean(s)
    decreases |p|
  {
    if p == [] {
      assert p + s == s;
    } else {
      assert p[0] in p;
      CleanKeepsPrefix(p[1..], s);
      assert p + s == [p[0]] + (p[1..] + s);
      CleanKeepsLeadingText(p[0], p[1..] + s);
      assert Clean(p + s) == [p[0]] + (p[1..] + Clean(s));
      assert p + Clean(s) == [p[0]] + (p[1..] + Clean(s));
    }
  }

  /** A complete escape sequence at the front is deleted and scanning resumes after it. */
  lemma CleanDropsLeadingEscape(w: string, s: string)
    requires IsEscapeSequence(w)
    ensures Clean(w + s) == Clean(s)
  {
    EscapeAtIsPatternMatch(w + s, |w|);
    assert (w + s)[..|w|] == w;
    assert (w + s)[|w|..] == s;
  }

  /** One escape sequence inside plain text is deleted and the text around it joined. */
  lemma CleanJoinsAround(front: string, w: string, back: string)
    requires ESC !in front && IsEscapeSequence(w) && ESC !in back
    ensures Clean(front + w + back) == front + back
  {
    assert front + w + back == front + (w + back);
    CleanKeepsPrefix(front, w + back);
    CleanDropsLeadingEscape(w, back);
    CleanWithoutEscape(back);
  }

  /** Cleaning is not idempotent: deleting one sequence can join the pieces of another. */
  lemma CleanNotIdempotent()
    ensures Clean([ESC, ESC, '[', 'm', '[', 'm']) == [ESC, '[', 'm']
    ensures Clean([ESC, '[', 'm']) == []
  {
    var s := [ESC, ESC, '[', 'm', '[', 'm'];
    assert EscapeAt(s) == None;
    assert EscapeAt(s[1..]) == Some(3);
    assert s[1..][3..] == ['[', 'm'];
    assert EscapeAt(['[', 'm']) == None;
    assert EscapeAt(['m']) == None;
    assert EscapeAt([ESC, '[', 'm']) == Some(3);
    assert Clean(['m']) == ['m'];
    assert Clean(['[', 'm']) == ['[', 'm'];
    assert Clean(s[1..]) == ['[', 'm'];
    assert Clean(s) == [ESC] + Clean(s[1..]);
  }
}

/**
 * The three bodies of the ranges-filter benchmark (ranges-filter/filter.cc): each
 * takes the elements of `container` below 5, doubles them and writes them to
 * `contout`: by hand ("naive"), through a temporary vector ("planar"), or
 * through a filtered and transformed view ("modern").
 */
module RangesFilter {
  import Text

  /** `BMKS`: the number of elements in `container`. */
  const BMKS: int := 10000

  /** The predicate of the filter, `n < 5`. */
  predicate Small(n: int)
  {
    n < 5
  }

  /** The elements of s that pass the filter, in their order in s. */
  function Kept(s: seq<int>): (r: seq<int>)
    ensures |r| <= |s|
    ensures forall k :: 0 <= k < |r| ==> Small(r[k])
  {
    if s == [] then []
    else (if Small(s[0]) then [s[0]] else []) + Kept(s[1..])
  }

  /** The transform `n * 2` over a whole sequence. */
  function Doubled(v: seq<int>): (r: seq<int>)
    ensures |r| == |v|
  {
    seq(|v|, k requires 0 <= k < |v| => v[k] * 2)
  }

  /** Filtering a concatenation filters each part. */
  lemma {:induction false} KeptAppend(a: seq<int>, b: seq<int>)
    ensures Kept(a + b) == Kept(a) + Kept(b)
  {
    if a == [] {
      assert a + b == b;
    } else {
      assert (a + b)[0] == a[0] && (a + b)[1..] == a[1..] + b;
      KeptAppend(a[1..], b);
    }
  }

  /** One more element at the end adds at most that element to the filtered sequence. */
  lemma KeptSnoc(s: seq<int>, n: int)
    ensures Kept(s + [n]) == Kept(s) + (if Small(n) then [n] else [])
  {
    KeptAppend(s, [n]);
    assert Kept([n]) == (if Small(n) then [n] else []) + Kept([]);
  }

  /** One step of a left-to-right pass over s: the filtered prefix grows by at most
      s[k] and stays within the filtered whole. */
  lemma KeptPrefixStep(s: seq<int>, k: nat)
    requires k < |s|
    ensures Kept(s[..k + 1]) == Kept(s[..k]) + (if Small(s[k]) then [s[k]] else [])
    ensures Doubled(Kept(s[..k + 1])) == Doubled(Kept(s[..k])) + (if Small(s[k]) then [s[k] * 2] else [])
    ensures |Kept(s[..k + 1])| <= |Kept(s)|
  {
    assert s[..k + 1] == s[..k] + [s[k]];
    KeptSnoc(s[..k], s[k]);
    DoubledAppend(Kept(s[..k]), if Small(s[k]) then [s[k]] else []);
    KeptAppend(s[..k + 1], s[k + 1..]);
    assert s == s[..k + 1] + s[k + 1..];
  }

  /** One step of "modern": with the doubled values of the first k elements written
      over the front of `out`, element k either is skipped or is written next. */
  lemma CopyStep(s: seq<int>, k: nat, out: seq<int>, j: nat)
    requires k < |s| && j == |Kept(s[..k])| && j <= |Kept(s)| <= |out|
    ensures |Kept(s[..k + 1])| <= |Kept(s)|
    ensures var d := Doubled(Kept(s[..k]));
      var d' := Doubled(Kept(s[..k + 1]));
      if Small(s[k]) then
        && j < |out| && j + 1 == |Kept(s[..k + 1])|
        && (d + out[j..])[j := s[k] * 2] == d' + out[j + 1..]
      else j == |Kept(s[..k + 1])| && d + out[j..] == d' + out[j..]
  {
    KeptPrefixStep(s, k);
    if Small(s[k]) {
      var d := Doubled(Kept(s[..k]));
      assert (d + out[j..])[j := s[k] * 2] == (d + [s[k] * 2]) + out[j + 1..];
    }
  }

  /** Doubling a concatenation doubles each part. */
  lemma DoubledAppend(a: seq<int>, b: seq<int>)
    ensures Doubled(a + b) == Doubled(a) + Doubled(b)
  {
    assert forall k :: 0 <= k < |a| + |b| ==> Doubled(a + b)[k] == (Doubled(a) + Doubled(b))[k];
  }

  /** What `copy_if` keeps is an order-preserving subsequence of its input. */
  lemma {:induction false} KeptIsSubsequence(s: seq<int>)
    ensures Text.IsSubsequence(Kept(s), s)
  {
    if s != [] {
      KeptIsSubsequence(s[1..]);
      if !Small(s[0]) {
        assert Kept(s) == Kept(s[1..]);
      } else {
        assert Kept(s)[1..] == Kept(s[1..]);
      }
    }
  }

  /** Every element below 5 is kept as often as it occurs, and no other element is. */
  lemma {:induction false} KeptElements(s: seq<int>)
    ensures forall n :: multiset(Kept(s))[n] == if Small(n) then multiset(s)[n] else 0
  {
    if s != [] {
      KeptElements(s[1..]);
      assert s == [s[0]] + s[1..];
      assert multiset(s) == multiset{s[0]} + multiset(s[1..]);
    }
  }

  /** The indices of the elements of s below 5. */
  function SmallIndices(s: seq<int>): set<int>
  {
    set k | 0 <= k < |s| && Small(s[k])
  }

  /** As many values are produced as `container` has elements below 5. */
  lemma {:induction false} KeptCount(s: seq<int>)
    ensures |Kept(s)| == |SmallIndices(s)|
    decreases |s|
  {
    if s != [] {
      var init := s[..|s| - 1];
      var last := s[|s| - 1];
      assert s == init + [last];
      KeptSnoc(init, last);
      KeptCount(init);
      if Small(last) {
        assert SmallIndices(s) == SmallIndices(init) + {|s| - 1};
      } else {
        assert SmallIndices(s) == SmallIndices(init);
      }
    }
  }

  /** From draws of `rand()`, which are never negative, every produced value lies in
      [0, 10): doubling cannot overflow. */
  lemma KeptDoubledRange(s: seq<int>)
    requires forall k :: 0 <= k < |s| ==> 0 <= s[k]
    ensures forall k :: 0 <= k < |Doubled(Kept(s))| ==> 0 <= Doubled(Kept(s))[k] < 10
  {
    KeptElements(s);
    forall k | 0 <= k < |Kept(s)|
      ensures 0 <= Kept(s)[k]
    {
      var n := Kept(s)[k];
      assert n in multiset(Kept(s));
      assert n in multiset(s);
    }
  }

  /** `RangesFixture`: the input vector filled with BMKS draws of `rand()` and the
      output vector. */
  class RangesFixture {
    var container: seq<int>
    var contout: seq<int>

    predicate Valid()
      reads this
    {
      |container| == BMKS && forall k :: 0 <= k < |container| ==> 0 <= container[k]
    }

    /** The constructor; the random draws are its argument. */
    constructor (draws: seq<int>)
      requires |draws| == BMKS && forall k :: 0 <= k < |draws| ==> 0 <= draws[k]
      ensures Valid() && container == draws && contout == []
    {
      container := draws;
      contout := [];
    }

    /** "naive": push `elt * 2` for every element below 5, after what `contout`
        already holds. From an empty `contout` this is what "planar" leaves. */
    method Naive()
      requires Valid()
      modifies this
      ensures Valid() && container == old(container)
      ensures contout == old(contout) + Doubled(Kept(container))
      ensures old(contout) == [] ==> contout == Doubled(Kept(container))
    {
      var k := 0;
      while k < |container|
        invariant 0 <= k <= |container| && container == old(container)
        invariant contout == old(contout) + Doubled(Kept(container[..k]))
      {
        var elt := container[k];
        KeptPrefixStep(container, k);
        if elt < 5 {
          contout := contout + [elt * 2];
        }
        k := k + 1;
      }
      assert container[..k] == container;
    }

    /** "planar": `copy_if` into a fresh vector v, `resize` `contout` to |v|, then
        `transform` v into it; what `contout` held before is gone. */
    method Planar()
      requires Valid()
      modifies this
      ensures Valid() && container == old(container)
      ensures contout == Doubled(Kept(container))
    {
      var v := CopyIf(container);
      contout := Resize(contout, |v|);
      var k := 0;
      while k < |v|
        invariant container == old(container)
        invariant 0 <= k <= |v| && |contout| == |v|
        invariant contout[..k] == Doubled(v)[..k]
      {
        contout := contout[k := v[k] * 2];
        k := k + 1;
      }
      assert contout == contout[..k];
    }

    /** "modern": `ranges::copy` of the filtered, doubled view to `contout.begin()`.
        Only `reserve` precedes it, so the source needs `contout` to hold that many
        elements already; the values overwrite a prefix and the rest stays. */
    method Modern()
      requires Valid() && |contout| >= |Kept(container)|
      modifies this
      ensures Valid() && container == old(container)
      ensures contout == Doubled(Kept(container)) + old(contout)[|Kept(container)|..]
      ensures |old(contout)| == |Kept(container)| ==> contout == Doubled(Kept(container))
    {
      var k := 0;
      var j := 0;
      while k < |container|
        invariant 0 <= k <= |container| && container == old(container)
        invariant j == |Kept(container[..k])| && j <= |Kept(container)|
        invariant contout == Doubled(Kept(container[..k])) + old(contout)[j..]
      {
        var elt := container[k];
        CopyStep(container, k, old(contout), j);
        if elt < 5 {
          contout := contout[j := elt * 2];
          j := j + 1;
        }
        k := k + 1;
      }
      assert container[..k] == container;
    }
  }

  /** `std::copy_if(..., std::back_inserter(v), [](int n){ return n < 5; })` into an
      empty v. */
  method CopyIf(s: seq<int>) returns (v: seq<int>)
    ensures v == Kept(s)
  {
    v := [];
    var k := 0;
    while k < |s|
      invariant 0 <= k <= |s|
      invariant v == Kept(s[..k])
    {
      KeptPrefixStep(s, k);
      if s[k] < 5 {
        v := v + [s[k]];
      }
      k := k + 1;
    }
    assert s[..k] == s;
  }

  /** `std::vector::resize(n)`: keep the first n elements, or add value-initialised
      zeros up to n. */
  function Resize(s: seq<int>, n: nat): (r: seq<int>)
    ensures |r| == n
    ensures forall k :: 0 <= k < n ==> r[k] == if k < |s| then s[k] else 0
  {
    if n <= |s| then s[..n] else s + seq(n - |s|, _ => 0)
  }
}

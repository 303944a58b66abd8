/**
 * `partition_iterswap` and `partition_extswap` of partition.cc: the pivot is the
 * element at `low`; scanning down from `high`, every element greater than the
 * pivot is swapped to the moving upper boundary `i`; finally the pivot is swapped
 * into position `i`, which is returned.
 *
 * `ext_swap` is only declared in the source. It is a parameter here: a function
 * giving the new values of its two pointees from their old values.
 */
module Partition {

  /** What a swap routine does to the pointees `a` and `b` of s. */
  function Exchange(s: seq<int>, a: nat, b: nat, swap: (int, int) -> (int, int)): (t: seq<int>)
    requires a < |s| && b < |s|
    ensures |t| == |s|
  {
    var p := swap(s[a], s[b]);
    s[a := p.0][b := p.1]
  }

  /** `std::iter_swap` on two ints. */
  function Swapped(x: int, y: int): (int, int)
  {
    (y, x)
  }

  /** The loop `for (j = high; j > low; j--)`, from the state (s, j, i) to its end. */
  function Scan(s: seq<int>, low: nat, pivot: int, j: nat, i: nat, swap: (int, int) -> (int, int))
    : (r: (seq<int>, nat))
    requires low <= j <= i < |s|
    ensures |r.0| == |s| && low <= r.1 <= i
    decreases j
  {
    if j == low then (s, i)
    else if s[j] > pivot then Scan(Exchange(s, i, j, swap), low, pivot, j - 1, i - 1, swap)
    else Scan(s, low, pivot, j - 1, i, swap)
  }

  /** The array and the index the partition function leaves. With `high < low` the
      loop does not run and `arr[high]` and `arr[low]` are swapped. */
  function PartitionWith(s: seq<int>, low: nat, high: nat, swap: (int, int) -> (int, int))
    : (r: (seq<int>, nat))
    requires low < |s| && high < |s|
    ensures |r.0| == |s|
  {
    if high < low then (Exchange(s, high, low, swap), high)
    else
      var (t, i) := Scan(s, low, s[low], high, high, swap);
      (Exchange(t, i, low, swap), i)
  }

  /** The loop invariant of the source: [low] holds the pivot, (i, high] is above it,
      (j, i] is not, nothing outside [low, high] moves and [low, high] keeps its
      elements. */
  ghost predicate ScanInvariant(orig: seq<int>, s: seq<int>, low: nat, high: nat, pivot: int, j: nat, i: nat)
  {
    && |s| == |orig| && low <= j <= i <= high < |s| && s[low] == pivot
    && (forall k :: i < k <= high ==> s[k] > pivot)
    && (forall k :: j < k <= i ==> s[k] <= pivot)
    && (forall k :: 0 <= k < |s| && !(low <= k <= high) ==> s[k] == orig[k])
    && multiset(s[low..high + 1]) == multiset(orig[low..high + 1])
  }

  /** A swap inside [low, high] keeps that range's elements and touches nothing else. */
  lemma SwapInRange(s: seq<int>, low: nat, high: nat, a: nat, b: nat)
    requires low <= a <= high < |s| && low <= b <= high
    ensures var t := Exchange(s, a, b, Swapped);
      && t[a] == s[b] && t[b] == s[a]
      && (forall k :: 0 <= k < |s| && k != a && k != b ==> t[k] == s[k])
      && multiset(t[low..high + 1]) == multiset(s[low..high + 1])
  {
    var t := Exchange(s, a, b, Swapped);
    var r := s[low..high + 1];
    assert t[low..high + 1] == r[a - low := s[b]][b - low := s[a]];
  }

  /** The step that moves an element above the pivot to the upper boundary. */
  lemma SwapStepKeepsInvariant(orig: seq<int>, s: seq<int>, low: nat, high: nat, pivot: int, j: nat, i: nat)
    requires ScanInvariant(orig, s, low, high, pivot, j, i) && j > low && s[j] > pivot
    ensures ScanInvariant(orig, Exchange(s, i, j, Swapped), low, high, pivot, j - 1, i - 1)
  {
    var t := Exchange(s, i, j, Swapped);
    SwapInRange(s, low, high, i, j);
    assert forall k :: i < k <= high ==> t[k] == s[k];
    assert forall k :: j < k < i ==> t[k] == s[k];
  }

  /** Each step of the loop keeps the invariant, so its end satisfies it with j = low. */
  lemma {:induction false} ScanKeepsInvariant(orig: seq<int>, s: seq<int>, low: nat, high: nat, pivot: int,
                                             j: nat, i: nat)
    requires ScanInvariant(orig, s, low, high, pivot, j, i)
    ensures var r := Scan(s, low, pivot, j, i, Swapped);
      ScanInvariant(orig, r.0, low, high, pivot, low, r.1)
    decreases j
  {
    if j > low {
      if s[j] > pivot {
        SwapStepKeepsInvariant(orig, s, low, high, pivot, j, i);
        ScanKeepsInvariant(orig, Exchange(s, i, j, Swapped), low, high, pivot, j - 1, i - 1);
      } else {
        ScanKeepsInvariant(orig, s, low, high, pivot, j - 1, i);
      }
    }
  }

  /** For low <= high: the returned index lies in [low, high] and holds the old
      arr[low]; everything in [low, i) is at most that pivot, everything in (i, high]
      is greater; [low, high] is a permutation of its old contents and nothing outside
      it changes. */
  lemma PartitionIsCorrect(s: seq<int>, low: nat, high: nat)
    requires low <= high < |s|
    ensures var (t, i) := PartitionWith(s, low, high, Swapped);
      && low <= i <= high
      && t[i] == s[low]
      && (forall k :: low <= k < i ==> t[k] <= s[low])
      && (forall k :: i < k <= high ==> t[k] > s[low])
      && multiset(t[low..high + 1]) == multiset(s[low..high + 1])
      && (forall k :: 0 <= k < |s| && !(low <= k <= high) ==> t[k] == s[k])
  {
    var pivot := s[low];
    assert ScanInvariant(s, s, low, high, pivot, high, high);
    ScanKeepsInvariant(s, s, low, high, pivot, high, high);
    var (t, i) := Scan(s, low, pivot, high, high, Swapped);
    SwapInRange(t, low, high, i, low);
  }

  /** `ext_swap`, if it exchanges its two pointees, makes `partition_extswap` do
      exactly what `partition_iterswap` does. */
  lemma {:induction false} ScanWithSwap(s: seq<int>, low: nat, pivot: int, j: nat, i: nat,
                                        swap: (int, int) -> (int, int))
    requires low <= j <= i < |s|
    requires forall x, y :: swap(x, y) == (y, x)
    ensures Scan(s, low, pivot, j, i, swap) == Scan(s, low, pivot, j, i, Swapped)
    decreases j
  {
    if j > low {
      assert Exchange(s, i, j, swap) == Exchange(s, i, j, Swapped);
      if s[j] > pivot {
        ScanWithSwap(Exchange(s, i, j, swap), low, pivot, j - 1, i - 1, swap);
      } else {
        ScanWithSwap(s, low, pivot, j - 1, i, swap);
      }
    }
  }

  lemma ExtSwapAgrees(s: seq<int>, low: nat, high: nat, swap: (int, int) -> (int, int))
    requires low < |s| && high < |s|
    requires forall x, y :: swap(x, y) == (y, x)
    ensures PartitionWith(s, low, high, swap) == PartitionWith(s, low, high, Swapped)
  {
    if low <= high {
      ScanWithSwap(s, low, s[low], high, high, swap);
      var (t, i) := Scan(s, low, s[low], high, high, Swapped);
      assert Exchange(t, i, low, swap) == Exchange(t, i, low, Swapped);
    } else {
      assert Exchange(s, high, low, swap) == Exchange(s, high, low, Swapped);
    }
  }

  /** `std::iter_swap(arr + a, arr + b)`. */
  method IterSwap(arr: array<int>, a: nat, b: nat)
    requires a < arr.Length && b < arr.Length
    modifies arr
    ensures arr[..] == Exchange(old(arr[..]), a, b, Swapped)
  {
    arr[a], arr[b] := arr[b], arr[a];
  }

  /** `ext_swap(arr + a, arr + b)`: the pointees get what `swap` makes of them. */
  method ExtSwap(arr: array<int>, a: nat, b: nat, swap: (int, int) -> (int, int))
    requires a < arr.Length && b < arr.Length
    modifies arr
    ensures arr[..] == Exchange(old(arr[..]), a, b, swap)
  {
    var p := swap(arr[a], arr[b]);
    arr[a] := p.0;
    arr[b] := p.1;
  }

  /** `partition_iterswap`. */
  method PartitionIterSwap(arr: array<int>, low: nat, high: nat) returns (i: nat)
    requires low < arr.Length && high < arr.Length
    modifies arr
    ensures (arr[..], i) == PartitionWith(old(arr[..]), low, high, Swapped)
  {
    var pivot := arr[low];
    i := high;
    var j := high;
    while j > low
      invariant low <= high ==> low <= j <= i <= high
      invariant high < low ==> j == high && i == high && arr[..] == old(arr[..])
      invariant low <= high ==>
        Scan(arr[..], low, pivot, j, i, Swapped) == Scan(old(arr[..]), low, pivot, high, high, Swapped)
    {
      if arr[j] > pivot {
        IterSwap(arr, i, j);
        i := i - 1;
      }
      j := j - 1;
    }
    IterSwap(arr, i, low);
  }

  /** `partition_extswap`: the same loop with `ext_swap`. */
  method PartitionExtSwap(arr: array<int>, low: nat, high: nat, swap: (int, int) -> (int, int)) returns (i: nat)
    requires low < arr.Length && high < arr.Length
    modifies arr
    ensures (arr[..], i) == PartitionWith(old(arr[..]), low, high, swap)
  {
    var pivot := arr[low];
    i := high;
    var j := high;
    while j > low
      invariant low <= high ==> low <= j <= i <= high
      invariant high < low ==> j == high && i == high && arr[..] == old(arr[..])
      invariant low <= high ==>
        Scan(arr[..], low, pivot, j, i, swap) == Scan(old(arr[..]), low, pivot, high, high, swap)
    {
      if arr[j] > pivot {
        ExtSwap(arr, i, j, swap);
        i := i - 1;
      }
      j := j - 1;
    }
    ExtSwap(arr, i, low, swap);
  }
}

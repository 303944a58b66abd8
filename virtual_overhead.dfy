/**
 * The virtual-call benchmark of virtual-overhead/virtual-1.cc and virtual-2.cc:
 * `foo` and `bar` call each other with the argument lowered by one until it is
 * not positive, in a class without virtual functions (`NonVirt`), a base class
 * whose two functions are virtual (`VirtBase`) and a class overriding both
 * (`VirtDerived`). The classes have no fields, so an object is modelled by its
 * dynamic type alone, and a call `foo(...)` inside a body dispatches on it.
 */
module VirtualOverhead {

  /** `NCALL` and `NBMK` of virtual.h. */
  const NCALL: int := 100
  const NBMK: int := 10000

  /** The dynamic type of the object a member function runs on. */
  datatype Receiver = NonVirt | VirtBase | VirtDerived

  /** The non-negative part of x: the measure of the mutual recursion. */
  function Height(x: int): nat
  {
    if x < 0 then 0 else x
  }

  /** `bar(x)` of the three classes: `(x > 0) ? foo(x - 1) : 0`. */
  function Bar(recv: Receiver, x: int): int
    decreases Height(x)
  {
    match recv
    case NonVirt => if x > 0 then Foo(recv, x - 1) else 0
    case VirtBase => if x > 0 then Foo(recv, x - 1) else 0
    case VirtDerived => if x > 0 then Foo(recv, x - 1) else 0
  }

  /** `foo(x)` of the three classes: `(x > 0) ? bar(x - 1) : 0`. */
  function Foo(recv: Receiver, x: int): int
    decreases Height(x)
  {
    match recv
    case NonVirt => if x > 0 then Bar(recv, x - 1) else 0
    case VirtBase => if x > 0 then Bar(recv, x - 1) else 0
    case VirtDerived => if x > 0 then Bar(recv, x - 1) else 0
  }

  /** Both functions return 0 for every argument and every receiver. */
  lemma {:induction false} AlwaysZero(recv: Receiver, x: int)
    ensures Bar(recv, x) == 0 && Foo(recv, x) == 0
    decreases Height(x)
  {
    if x > 0 {
      AlwaysZero(recv, x - 1);
    }
  }

  /** The result does not depend on how the call is dispatched. */
  lemma DispatchIrrelevant(r: Receiver, s: Receiver, x: int)
    ensures Bar(r, x) == Bar(s, x) && Foo(r, x) == Foo(s, x)
  {
    AlwaysZero(r, x);
    AlwaysZero(s, x);
  }

  /** How many calls of `foo` and `bar` one call of `bar(x)` makes, itself included. */
  function BarCalls(x: int): nat
    decreases Height(x)
  {
    1 + if x > 0 then FooCalls(x - 1) else 0
  }

  /** The same count for `foo(x)`. */
  function FooCalls(x: int): nat
    decreases Height(x)
  {
    1 + if x > 0 then BarCalls(x - 1) else 0
  }

  /** A call makes max(x, 0) + 1 calls in all: the argument drops by one per call. */
  lemma {:induction false} CallCount(x: int)
    ensures BarCalls(x) == Height(x) + 1 && FooCalls(x) == Height(x) + 1
    decreases Height(x)
  {
    if x > 0 {
      CallCount(x - 1);
    }
  }

  /** `startup(NonVirt *)` (recv = NonVirt) and `startup(VirtBase *)` (recv the
      dynamic type behind the pointer): NBMK calls of `bar(NCALL)` whose results the
      source discards. They are returned here, one per call, and every one is 0;
      nothing else is changed. */
  method Startup(recv: Receiver) returns (results: seq<int>)
    ensures |results| == NBMK
    ensures forall k :: 0 <= k < |results| ==> results[k] == 0
  {
    results := [];
    var i := 0;
    while i < NBMK
      invariant 0 <= i <= NBMK && |results| == i
      invariant forall k :: 0 <= k < i ==> results[k] == 0
    {
      AlwaysZero(recv, NCALL);
      var r := Bar(recv, NCALL);
      results := results + [r];
      i := i + 1;
    }
  }
}

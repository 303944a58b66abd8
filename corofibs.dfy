/**
 * The Fibonacci-mod-10 benchmark of coro-fibs/ and of corofibs.cc: the
 * `generator` template driving the `fibs` coroutine, the two summation loops
 * (through the generator and with plain locals) and the `startup` drivers.
 * Both copies of the code use modulus 10 (`FM` in coro-fibs/corofibs.h, the
 * literal 10 in corofibs.cc), so one model serves both.
 */
module CoroFibs {

  /** The modulus of the sequence. */
  const FM: int := 10

  /** `NBMK` of coro-fibs/corofibs.h and of corofibs.cc. */
  const NBMK: int := 100
  const NBMK_SINGLE_FILE: int := 1000

  /** The locals (a, b) of `fibs` (and of `sumfib`) after k updates from (1, 0). */
  function FibState(k: nat): (r: (int, int))
    ensures k > 0 ==> 0 <= r.0 < FM && 0 <= r.1 < FM
  {
    if k == 0 then (1, 0)
    else
      var (a, b) := FibState(k - 1);
      ((a + b) % FM, a % FM)
  }

  /** The k-th value `fibs` produced, counting from 0. */
  function Fib(k: nat): (v: int)
    ensures 0 <= v < FM
  {
    FibState(k).1
  }

  /** The sum of the first n values; 0 when n <= 0. */
  function SumFibSpec(n: int): int
    decreases n
  {
    if n <= 0 then 0 else SumFibSpec(n - 1) + Fib(n - 1)
  }

  /** For n >= 0 the sum lies between 0 and (FM - 1) * n. */
  lemma {:induction false} SumFibBounds(n: nat)
    ensures 0 <= SumFibSpec(n) <= (FM - 1) * n
  {
    if n > 0 {
      SumFibBounds(n - 1);
    }
  }

  /** The first ten values are 0, 1, 1, 2, 3, 5, 8, 3, 1, 4, so their sum is 28. */
  lemma FirstTenValues()
    ensures forall k :: 0 <= k < 10 ==> Fib(k) == [0, 1, 1, 2, 3, 5, 8, 3, 1, 4][k]
    ensures SumFibSpec(10) == 28
  {
    assert FibState(1) == (1, 1);
    assert FibState(2) == (2, 1);
    assert FibState(3) == (3, 2);
    assert FibState(4) == (5, 3);
    assert FibState(5) == (8, 5);
    assert FibState(6) == (3, 8);
    assert FibState(7) == (1, 3);
    assert FibState(8) == (4, 1);
    assert FibState(9) == (5, 4);
  }

  /** The frame of the `fibs` coroutine with its promise: the locals a and b, the
      promise's `current_value`, whether the body has started (it is created
      suspended at `initial_suspend`), and whether it was destroyed. The body is an
      endless loop, so it never reaches `final_suspend` and is never done. */
  class FibsFrame {
    var a: int
    var b: int
    var currentValue: int
    var started: bool
    var done: bool
    var destroyed: bool
    /** How many values the body has yielded. */
    ghost var produced: nat

    ghost predicate Valid()
      reads this
    {
      && !done
      && (started <==> produced > 0)
      && (produced > 0 ==> (a, b) == FibState(produced - 1) && currentValue == b)
    }

    /** `fibs()`: the frame is created and suspended before the body runs. */
    constructor ()
      ensures Valid() && produced == 0 && !destroyed
    {
      started := false;
      done := false;
      destroyed := false;
      produced := 0;
    }

    /** `handle_.resume()`: run the body to its next `co_yield b`, which stores b in
        `current_value` and suspends. */
    method Resume()
      requires Valid() && !destroyed
      modifies this
      ensures Valid() && !destroyed
      ensures produced == old(produced) + 1 && currentValue == Fib(old(produced))
    {
      if !started {
        started := true;
        a, b := 1, 0;
      } else {
        a, b := (a + b) % FM, a % FM;
      }
      currentValue := b;
      produced := produced + 1;
    }

    /** `handle_.destroy()`. */
    method Destroy()
      requires !destroyed
      modifies this
      ensures destroyed
      ensures a == old(a) && b == old(b) && currentValue == old(currentValue)
      ensures started == old(started) && done == old(done)
      ensures produced == old(produced)
    {
      destroyed := true;
    }
  }

  /** `generator<int>`: the owner of a coroutine handle, null once moved from. */
  class Generator {
    var handle: FibsFrame?

    /** `generator(coro_handle h)`. */
    constructor (h: FibsFrame?)
      ensures handle == h
    {
      handle := h;
    }

    /** `generator(generator &&rhs)`: the handle changes owner and the source is left
        null, so one handle never has two owners. */
    constructor Move(rhs: Generator)
      modifies rhs
      ensures handle == old(rhs.handle) && rhs.handle == null
    {
      handle := rhs.handle;
      rhs.handle := null;
    }

    /** `move_next`: false, and nothing resumed, without a handle; otherwise one resume
        and "not done". */
    method MoveNext() returns (more: bool)
      requires handle != null ==> handle.Valid() && !handle.destroyed
      modifies if handle != null then {handle} else {}
      ensures handle == old(handle)
      ensures handle == null ==> !more
      ensures handle != null ==> more == !handle.done
      ensures handle != null ==> (handle.Valid() && !handle.destroyed
        && handle.produced == old(handle.produced) + 1 && handle.currentValue == Fib(old(handle.produced)))
    {
      if handle != null {
        handle.Resume();
        more := !handle.done;
      } else {
        more := false;
      }
    }

    /** `current_value`: the value the coroutine yielded last. Before the first
        `move_next` no value has been yielded and the promise's field is unset. */
    method CurrentValue() returns (v: int)
      requires handle != null && handle.Valid() && handle.produced > 0
      ensures v == Fib(handle.produced - 1)
    {
      v := handle.currentValue;
    }

    /** `~generator`: destroy the frame only when the handle is not null. */
    method Dispose()
      requires handle != null ==> !handle.destroyed
      modifies if handle != null then {handle} else {}
      ensures handle == old(handle)
      ensures handle != null ==> handle.destroyed && handle.produced == old(handle.produced)
    {
      if handle != null {
        handle.Destroy();
      }
    }
  }

  /** `fibs()` as the caller sees it: a generator owning a fresh, unstarted frame. */
  method Fibs() returns (g: Generator)
    ensures fresh(g) && g.handle != null && fresh(g.handle)
    ensures g.handle.Valid() && g.handle.produced == 0 && !g.handle.destroyed
  {
    var frame := new FibsFrame();
    g := new Generator(frame);
  }

  /** `sumfib_coro(n)`: n times `move_next` and add `current_value`. */
  method SumFibCoro(n: int) returns (sum: int)
    ensures sum == SumFibSpec(n)
  {
    sum := 0;
    var nums := Fibs();
    var i := 0;
    while i < n
      invariant 0 <= i && (n >= 0 ==> i <= n) && (n < 0 ==> i == 0)
      invariant nums.handle != null && nums.handle.Valid() && !nums.handle.destroyed
      invariant fresh(nums.handle) && nums.handle.produced == i
      invariant sum == SumFibSpec(i)
    {
      var _ := nums.MoveNext();
      var y := nums.CurrentValue();
      sum := sum + y;
      i := i + 1;
    }
    nums.Dispose();
  }

  /** `sumfib(n)`: the same sum with the recurrence on plain locals. */
  method SumFib(n: int) returns (sum: int)
    ensures sum == SumFibSpec(n)
  {
    sum := 0;
    var a, b := 1, 0;
    var i := 0;
    while i < n
      invariant 0 <= i && (n >= 0 ==> i <= n) && (n < 0 ==> i == 0)
      invariant (a, b) == FibState(i)
      invariant sum == SumFibSpec(i)
    {
      sum := sum + b;
      a, b := (a + b) % FM, a % FM;
      i := i + 1;
    }
  }

  /** `startup_coro(n)`: n times `sumfib_coro(10)`. */
  method StartupCoro(n: int) returns (sum: int)
    ensures sum == (if n <= 0 then 0 else n * SumFibSpec(10))
  {
    FirstTenValues();
    sum := 0;
    var i := 0;
    while i < n
      invariant 0 <= i && (n >= 0 ==> i <= n) && (n < 0 ==> i == 0)
      invariant sum == 28 * i
    {
      var s := SumFibCoro(10);
      sum := sum + s;
      i := i + 1;
    }
  }

  /** `startup(n)`: n times `sumfib(10)`. */
  method Startup(n: int) returns (sum: int)
    ensures sum == (if n <= 0 then 0 else n * SumFibSpec(10))
  {
    FirstTenValues();
    sum := 0;
    var i := 0;
    while i < n
      invariant 0 <= i && (n >= 0 ==> i <= n) && (n < 0 ==> i == 0)
      invariant sum == 28 * i
    {
      var s := SumFib(10);
      sum := sum + s;
      i := i + 1;
    }
  }

  /** Both drivers return 28 n, which stays far inside `int` for the benchmarks'
      n = NBMK (2800 and 28000). */
  lemma StartupValue(n: int)
    ensures (if n <= 0 then 0 else n * SumFibSpec(10)) == (if n <= 0 then 0 else 28 * n)
    ensures NBMK * SumFibSpec(10) == 2800 && NBMK_SINGLE_FILE * SumFibSpec(10) == 28000
  {
    FirstTenValues();
  }
}

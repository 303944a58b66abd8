/**
 * The looping exceptions-versus-return-codes benchmark of exc_ret_1.cc and
 * exc_ret_2.cc: each level of the chain calls the next one NCALL times in a
 * loop, the exception chain with the argument x - i / 2, the return-code chain
 * with x - i. A call either returns a value, `Ok(v)`, or throws
 * `std::runtime_error("something")`, `Err("something")`.
 */
module ExcRetLooping {
  import opened Wrappers

  /** `NCALL` and `NBMK` of exc_ret.h. */
  const NCALL: int := 1000
  const NBMK: int := 1

  const Message: string := "something"

  type Outcome = Result<int, string>

  /** `call_inner_exc(x)`: throws for x < 0, otherwise 1. */
  function CallInnerExc(x: int): (r: Outcome)
    ensures r.Err? <==> x < 0
    ensures r.Err? ==> r.error == Message
    ensures r.Ok? ==> r.value == 1
  {
    if x < 0 then Err(Message) else Ok(1)
  }

  /** `call_inner_retc(x)`: -1 for x < 0, otherwise 1. */
  function CallInnerRetc(x: int): (r: int)
    ensures r == -1 <==> x < 0
    ensures r == -1 || r == 1
  {
    if x < 0 then -1 else 1
  }

  /** `call_outer_exc(x)`: the sum of `call_inner_exc(x - i / 2)` for i in
      [0, NCALL). The smallest argument is x - (NCALL - 1) / 2, so it returns NCALL
      when that is not negative and throws otherwise. */
  method CallOuterExc(x: int) returns (r: Outcome)
    ensures r == if x >= (NCALL - 1) / 2 then Ok(NCALL) else Err(Message)
  {
    var sum := 0;
    var i := 0;
    while i < NCALL
      invariant 0 <= i <= NCALL
      invariant sum == i
      invariant i > 0 ==> x >= (i - 1) / 2
    {
      var n := CallInnerExc(x - i / 2);
      if n.Err? {
        return n;
      }
      sum := sum + n.value;
      i := i + 1;
    }
    r := Ok(sum);
  }

  /** `call_exc(x)`: the sum of `call_outer_exc(x - i / 2)` for i in [0, NCALL); the
      first throw propagates. Every term returns exactly when x is at least
      2 ((NCALL - 1) / 2), and then the sum is NCALL * NCALL. */
  method CallExc(x: int) returns (r: Outcome)
    ensures r == if x >= 2 * ((NCALL - 1) / 2) then Ok(NCALL * NCALL) else Err(Message)
  {
    var sum := 0;
    var i := 0;
    while i < NCALL
      invariant 0 <= i <= NCALL
      invariant sum == i * NCALL
      invariant i > 0 ==> x - (i - 1) / 2 >= (NCALL - 1) / 2
    {
      var n := CallOuterExc(x - i / 2);
      if n.Err? {
        return n;
      }
      sum := sum + n.value;
      i := i + 1;
    }
    r := Ok(sum);
  }

  /** `call_outer_retc(x)`: the sum of `call_inner_retc(x - i)` for i in [0, NCALL),
      stopping at the first -1, -2 or -3 and returning it. It returns NCALL when
      x - (NCALL - 1) is not negative and -1 otherwise. */
  method CallOuterRetc(x: int) returns (r: int)
    ensures r == if x >= NCALL - 1 then NCALL else -1
  {
    var sum := 0;
    var i := 0;
    while i < NCALL
      invariant 0 <= i <= NCALL
      invariant sum == i
      invariant i > 0 ==> x >= i - 1
    {
      var n := CallInnerRetc(x - i);
      if n == -1 {
        return -1;
      }
      if n == -2 {
        return -2;
      }
      if n == -3 {
        return -3;
      }
      sum := sum + n;
      i := i + 1;
    }
    r := sum;
  }

  /** `call_retc(x)`: the sum of `call_outer_retc(x - i)` for i in [0, NCALL), with
      the same early returns. Every term is NCALL exactly when x is at least
      2 (NCALL - 1); otherwise the first failing term makes it -1. */
  method CallRetc(x: int) returns (r: int)
    ensures r == if x >= 2 * (NCALL - 1) then NCALL * NCALL else -1
  {
    var sum := 0;
    var i := 0;
    while i < NCALL
      invariant 0 <= i <= NCALL
      invariant sum == i * NCALL
      invariant i > 0 ==> x - (i - 1) >= NCALL - 1
    {
      var n := CallOuterRetc(x - i);
      if n == -1 {
        return -1;
      }
      if n == -2 {
        return -2;
      }
      if n == -3 {
        return -3;
      }
      sum := sum + n;
      i := i + 1;
    }
    r := sum;
  }

  /** `startup_exc()`: NBMK times add `call_exc(NCALL)` unless it throws. With
      NCALL = 1000 the smallest inner argument is 2, so nothing throws and every
      round adds 1,000,000. */
  method StartupExc() returns (sum: int)
    ensures sum == NBMK * 1000000
  {
    sum := 0;
    var nerrs := 0;
    var i := 0;
    while i < NBMK
      invariant 0 <= i <= NBMK
      invariant sum == i * 1000000 && nerrs == 0
    {
      var r := CallExc(NCALL);
      if r.Err? {
        nerrs := nerrs + 1;
      } else {
        sum := sum + r.value;
      }
      i := i + 1;
    }
  }

  /** `startup_retc()`: NBMK times add `call_retc(NCALL)` unless it is -1. With
      NCALL = 1000 the third outer call already fails, so every round counts an
      error and the sum stays 0: the two chains disagree. */
  method StartupRetc() returns (sum: int)
    ensures sum == 0
  {
    sum := 0;
    var nerrs := 0;
    var i := 0;
    while i < NBMK
      invariant 0 <= i <= NBMK
      invariant sum == 0 && nerrs == i
    {
      var x := CallRetc(NCALL);
      if x == -1 {
        nerrs := nerrs + 1;
      } else {
        sum := sum + x;
      }
      i := i + 1;
    }
  }
}

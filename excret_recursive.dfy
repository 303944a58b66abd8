/**
 * The recursive exceptions-versus-return-codes benchmark of excret/: two chains
 * of mutually recursive calls, one reporting failure with a thrown
 * `std::runtime_error`, the other with the return code -1. The build flag
 * `NOEXC` replaces the failure at the bottom of each chain by the value 0.
 *
 * A call either returns a value, `Ok(v)`, or throws, `Err(message)`. The
 * exception chain does not terminate under `NOEXC`, so its functions take a
 * fuel bound: `None` means the bound ran out before the call finished.
 */
module ExcRetRecursive {
  import opened Wrappers

  /** `NCALL` and `NBMK` of excret/exc_ret.h. */
  const NCALL: int := 10000
  const NBMK: int := 1

  /** The message of the `std::runtime_error` thrown at the bottom of the chain. */
  const Message: string := "something"

  /** The two builds: without and with `-DNOEXC`. */
  datatype Build = Default | NoExc

  /** What a call of the exception chain does: return, throw, or not finish. */
  type Outcome = Result<int, string>

  /** `call_inner_exc(x)`: throws in the default build, returns 0 under `NOEXC`. */
  function CallInnerExc(build: Build, x: int): (r: Outcome)
    ensures r.Err? <==> build == Default
    ensures r.Err? ==> r.error == Message
    ensures r.Ok? ==> r.value == 0
  {
    if build == Default then Err(Message) else Ok(0)
  }

  /** `... + 1` on a call that may throw: the exception propagates. */
  function PlusOne(r: Option<Outcome>): Option<Outcome>
  {
    match r
    case Some(Ok(v)) => Some(Ok(v + 1))
    case _ => r
  }

  /** `call_exc(x)`: `call_outer_exc(x - 1) + 1`. */
  function CallExc(build: Build, x: int, fuel: nat): (r: Option<Outcome>)
    decreases fuel
  {
    if fuel == 0 then None
    else PlusOne(CallOuterExc(build, x - 1, fuel - 1))
  }

  /** `call_outer_exc(x)`: for x <= 0 it calls `call_inner_exc(x)` and discards a
      returned value; with no else branch it then goes on to `call_exc(x - 1) + 1`
      whatever x is. */
  function CallOuterExc(build: Build, x: int, fuel: nat): (r: Option<Outcome>)
    decreases fuel
  {
    if fuel == 0 then None
    else if x <= 0 && CallInnerExc(build, x).Err? then Some(CallInnerExc(build, x))
    else PlusOne(CallExc(build, x - 1, fuel - 1))
  }

  /** The number of calls in the chain `call_*(x)`, `call_outer_*(x - 1)`, ... down
      to the outer call that sees an argument <= 0: two for x <= 1, and two more for
      every two steps above. It is the fuel the exception chain needs to reach the
      throw, and the value `call_retc(x)` returns under `NOEXC`. */
  function ChainLength(x: int): (n: nat)
    ensures n >= 2
  {
    if x <= 1 then 2 else 2 * (x / 2) + 2
  }

  /** In the default build `call_exc(x)` throws for every x, given enough fuel. */
  lemma {:induction false} DefaultExcThrows(x: int, fuel: nat)
    requires fuel >= ChainLength(x)
    ensures CallExc(Default, x, fuel) == Some(Err(Message))
    decreases fuel
  {
    if x > 1 {
      assert ChainLength(x) == ChainLength(x - 2) + 2;
      DefaultExcThrows(x - 2, fuel - 2);
    }
  }

  /** In the default build neither exception-chain function ever returns a value:
      a call throws or has not finished yet. */
  lemma {:induction false} DefaultExcNeverReturns(x: int, fuel: nat)
    ensures CallExc(Default, x, fuel) in {None, Some(Err(Message))}
    ensures CallOuterExc(Default, x, fuel) in {None, Some(Err(Message))}
    decreases fuel
  {
    if fuel > 0 {
      DefaultExcNeverReturns(x - 1, fuel - 1);
    }
  }

  /** Under `NOEXC` nothing stops the exception chain: no fuel is enough for either
      function to finish, whatever the argument. */
  lemma {:induction false} NoExcDiverges(x: int, fuel: nat)
    ensures CallExc(NoExc, x, fuel) == None
    ensures CallOuterExc(NoExc, x, fuel) == None
    decreases fuel
  {
    if fuel > 0 {
      NoExcDiverges(x - 1, fuel - 1);
    }
  }

  /** `call_inner_retc(x)`: -1 in the default build, 0 under `NOEXC`. */
  function CallInnerRetc(build: Build, x: int): (r: int)
    ensures r == -1 <==> build == Default
    ensures r != -1 ==> r == 0
  {
    if build == Default then -1 else 0
  }

  /** The non-negative part of x, the measure of the return-code recursion. */
  function Height(x: int): nat
  {
    if x < 0 then 0 else x
  }

  /** `call_retc(x)`: -1 when `call_outer_retc(x - 1)` is -1, else that value + 1. */
  function CallRetc(build: Build, x: int): (r: int)
    decreases Height(x), 1
  {
    var n := CallOuterRetc(build, x - 1);
    if n == -1 then -1 else n + 1
  }

  /** `call_outer_retc(x)`: `call_inner_retc(x)` for x <= 0 and `call_retc(x - 1)`
      otherwise; -1 passes through and any other n becomes n + 1. */
  function CallOuterRetc(build: Build, x: int): (r: int)
    decreases Height(x), 0
  {
    var n := if x <= 0 then CallInnerRetc(build, x) else CallRetc(build, x - 1);
    if n == -1 then -1 else n + 1
  }

  /** In the default build both return-code functions give -1 for every argument. */
  lemma {:induction false} DefaultRetcFails(x: int)
    ensures CallRetc(Default, x) == -1
    ensures CallOuterRetc(Default, x) == -1
    decreases Height(x)
  {
    if x > 0 {
      DefaultRetcFails(x - 1);
    }
  }

  /** Under `NOEXC` `call_outer_retc(x)` is 1 for x <= 0 and `call_retc(x - 1) + 1`
      otherwise, and `call_retc(x)` never fails: it is `ChainLength(x)`. */
  lemma {:induction false} NoExcRetcValue(x: int)
    ensures CallOuterRetc(NoExc, x) == if x <= 0 then 1 else ChainLength(x - 1) + 1
    ensures CallRetc(NoExc, x) == ChainLength(x)
    decreases Height(x)
  {
    if x > 0 {
      NoExcRetcValue(x - 1);
    }
    if x > 1 {
      NoExcRetcValue(x - 2);
      assert ChainLength(x) == ChainLength(x - 2) + 2;
    }
  }

  /** The recurrence of `call_retc` under `NOEXC`: 2 for x <= 1, and for x >= 2 two
      more than two steps lower. */
  lemma NoExcRetcRecurrence(x: int)
    ensures CallRetc(NoExc, x) == if x <= 1 then 2 else CallRetc(NoExc, x - 2) + 2
  {
    NoExcRetcValue(x);
    if x > 1 {
      NoExcRetcValue(x - 2);
      assert ChainLength(x) == ChainLength(x - 2) + 2;
    }
  }

  /** `startup_exc()`: NBMK times add `call_exc(NCALL)` unless it throws; a throw
      only counts an error. The result is `None` when a call has not finished
      within `fuel`. */
  method StartupExc(build: Build, fuel: nat) returns (sum: Option<int>)
    ensures build == Default && fuel >= ChainLength(NCALL) ==> sum == Some(0)
    ensures build == Default && fuel < ChainLength(NCALL) ==> sum in {None, Some(0)}
    ensures build == NoExc ==> sum == None
  {
    DefaultExcNeverReturns(NCALL, fuel);
    if build == Default && fuel >= ChainLength(NCALL) {
      DefaultExcThrows(NCALL, fuel);
    }
    NoExcDiverges(NCALL, fuel);
    var total := 0;
    var nerrs := 0;
    var i := 0;
    while i < NBMK
      invariant 0 <= i <= NBMK
      invariant total == 0 && nerrs == i
      invariant build == NoExc ==> i == 0
    {
      var r := CallExc(build, NCALL, fuel);
      match r {
        case None =>
          return None;
        case Some(Err(_)) =>
          nerrs := nerrs + 1;
        case Some(Ok(v)) =>
          total := total + v;
      }
      i := i + 1;
    }
    sum := Some(total);
  }

  /** `startup_retc()`: NBMK times add `call_retc(NCALL)` unless it is -1. */
  method StartupRetc(build: Build) returns (sum: int)
    ensures build == Default ==> sum == 0
    ensures build == NoExc ==> sum == NBMK * 10002
  {
    DefaultRetcFails(NCALL);
    NoExcRetcValue(NCALL);
    sum := 0;
    var nerrs := 0;
    var i := 0;
    while i < NBMK
      invariant 0 <= i <= NBMK
      invariant build == Default ==> sum == 0 && nerrs == i
      invariant build == NoExc ==> sum == i * 10002 && nerrs == 0
    {
      var x := CallRetc(build, NCALL);
      if x == -1 {
        nerrs := nerrs + 1;
      } else {
        sum := sum + x;
      }
      i := i + 1;
    }
  }
}

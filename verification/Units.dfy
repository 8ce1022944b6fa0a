/**
 Error codes, results and the checked 64-bit counts of src/base/units.h.
 */
module Units {

  const U64_MAX: nat := 0xFFFF_FFFF_FFFF_FFFF

  newtype byte = x: int | 0 <= x < 256

  datatype Errc = InvalidArgument | OutOfRange | MalformedData | Aborted | Closed | ResourceExhausted | TruncatedData

  datatype Result<+T> = Ok(value: T) | Err(error: Errc)

  datatype Unit = Unit

  datatype Option<+T> = None | Some(value: T) {
    function GetOr(fallback: T): T {
      match this
      case None => fallback
      case Some(v) => v
    }
  }

  predicate Fits(n: int) {
    0 <= n <= U64_MAX
  }

  function CheckedAdd(a: nat, b: nat): (r: Option<nat>)
    requires Fits(a) && Fits(b)
    ensures r.Some? <==> Fits(a + b)
    ensures r.Some? ==> r.value == a + b
  {
    if b > U64_MAX - a then None else Some(a + b)
  }

  function CheckedSub(a: nat, b: nat): (r: Option<nat>)
    ensures r.Some? <==> b <= a
    ensures r.Some? ==> r.value == a - b
  {
    if b > a then None else Some(a - b)
  }

  function CheckedMul(a: nat, b: nat): (r: Option<nat>)
    ensures r.Some? <==> Fits(a * b)
    ensures r.Some? ==> r.value == a * b
  {
    if a * b > U64_MAX then None else Some(a * b)
  }

  /** A checked sum or difference that is dereferenced unchecked: it has to be there. */
  function Add64(a: nat, b: nat): (r: nat)
    requires Fits(a + b)
    ensures r == a + b
  {
    CheckedAdd(a, b).value
  }

  function Sub64(a: nat, b: nat): (r: nat)
    requires b <= a
    ensures r == a - b
  {
    CheckedSub(a, b).value
  }

  function Min(a: nat, b: nat): nat {
    if a <= b then a else b
  }

  function Max(a: nat, b: nat): nat {
    if a >= b then a else b
  }

  ghost function Times(count: nat, minimum: nat): nat {
    if count == 0 then 0 else Times(count - 1, minimum) + minimum
  }

  lemma {:induction false} TimesSplit(a: nat, b: nat, minimum: nat)
    ensures Times(a + b, minimum) == Times(a, minimum) + Times(b, minimum)
  {
    if b > 0 {
      TimesSplit(a, b - 1, minimum);
    }
  }

  lemma {:induction false} TimesMonotone(a: nat, b: nat, minimum: nat)
    requires a <= b
    ensures Times(a, minimum) <= Times(b, minimum) && Times(a, minimum) == a * minimum
    decreases a + b
  {
    if a < b {
      TimesMonotone(a, b - 1, minimum);
    } else if a > 0 {
      TimesMonotone(a - 1, a - 1, minimum);
      assert a * minimum == (a - 1) * minimum + minimum;
    }
  }

  /** How many bits a number takes. */
  function BitWidth(n: nat): nat {
    if n == 0 then 0 else BitWidth(n / 2) + 1
  }

  lemma {:induction false} WidthMonotone(a: nat, b: nat)
    requires a <= b
    ensures BitWidth(a) <= BitWidth(b)
  {
    if a > 0 {
      WidthMonotone(a / 2, b / 2);
    }
  }
}

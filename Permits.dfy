/** Coercion of permit arguments: `_parsePermits` of Semaphore.js.

    JavaScript callers may pass anything as a permit count. The model keeps
    the cases that lead to different results: nothing at all (or another
    falsy non-number), an integral number, a string (with what `parseInt`
    reads from it), or a function (the handler given in the permits slot).

    `parseInt` reads a number through its string form. An integral number
    of magnitude below 10^21 prints as its digits; from 10^21 on it prints
    in exponent form (`1e+21`, `-2.5e+22`), of which `parseInt` reads only
    the sign and the leading digit. */
module Permits {

  datatype Option<T> = None | Some(value: T)

  /** A raw permit argument as a caller may pass it. */
  datatype Arg =
    | Absent                     // undefined, null, false or NaN: falsy and not a number
    | Number(n: int)             // an integral number, exact as a safe integer is; 0 is falsy
    | Text(parsed: Option<int>)  // a string; `parsed` is what parseInt reads from it, None when it reads NaN
    | Function                   // a function value

  /** JavaScript truthiness of the argument. The empty string is falsy too,
      but it is `Text(None)` here: parseInt reads NaN from it, which leads to
      the same default. */
  function IsFalsy(raw: Arg): (b: bool)
    // a falsy argument is one that parseInt reads as NaN or as zero
    ensures b ==> ParseInt(raw) == None || ParseInt(raw) == Some(0)
    // a number is falsy exactly when it is zero
    ensures raw.Number? ==> (b <==> raw.n == 0)
  {
    raw == Absent || raw == Number(0)
  }

  /** The smallest magnitude that JavaScript prints in exponent form. */
  const ExponentFormAt: int := 1_000_000_000_000_000_000_000

  /** The first decimal digit of a positive integer. */
  function LeadingDigit(m: int): (d: int)
    requires m > 0
    ensures 1 <= d <= 9
    ensures m < 10 ==> d == m
    decreases m
  {
    if m < 10 then m else LeadingDigit(m / 10)
  }

  /** What `parseInt` reads from the argument; None stands for NaN. */
  function ParseInt(raw: Arg): (r: Option<int>)
    // undefined, null, false, NaN and functions read NaN
    ensures raw == Absent || raw == Function ==> r == None
    // a number always reads a number, itself when printed as plain digits
    ensures raw.Number? ==> r.Some?
    ensures raw.Number? && -ExponentFormAt < raw.n < ExponentFormAt ==> r == Some(raw.n)
    // in exponent form only the sign and the leading digit are read
    ensures raw.Number? && raw.n >= ExponentFormAt ==> r.Some? && 1 <= r.value <= 9
    ensures raw.Number? && raw.n <= -ExponentFormAt ==> r.Some? && -9 <= r.value <= -1
    // a string reads what its leading digits say
    ensures raw.Text? ==> r == raw.parsed
  {
    match raw
    case Absent => None
    case Number(n) =>
      if n >= ExponentFormAt then Some(LeadingDigit(n))
      else if n <= -ExponentFormAt then Some(-LeadingDigit(-n))
      else Some(n)
    case Text(p) => p
    case Function => None
  }

  /** `_parsePermits(permits, initVal)`: total, never fails, never clamps. */
  function ParsePermits(raw: Arg, initVal: int): (r: int)
    // a falsy argument, numeric zero included, yields the default
    ensures IsFalsy(raw) ==> r == initVal
    // otherwise the parsed integer, sign included, whenever there is one
    ensures !IsFalsy(raw) && ParseInt(raw).Some? ==> r == ParseInt(raw).value
    // the result is never anything but the default or the parsed integer
    ensures r == initVal || ParseInt(raw) == Some(r)
  {
    if IsFalsy(raw) then initVal
    else
      match ParseInt(raw)
      case None => initVal
      case Some(n) => n
  }

  /** The asymmetry between the default-1 operations (acquire, release,
      tryAcquire) and the default-0 ones (the constructor, reducePermits):
      a numeric 0 never reaches the former, while the string "0" does. */
  lemma ZeroArgument(d: int)
    ensures ParsePermits(Number(0), d) == d
    ensures ParsePermits(Text(Some(0)), d) == 0
    ensures d != 0 ==> forall n :: ParsePermits(Number(n), d) != 0
  {
  }

  /** Ten to the power `k`. */
  function Pow10(k: nat): (p: int)
    ensures p >= 1
  {
    if k == 0 then 1 else 10 * Pow10(k - 1)
  }

  /** A power of ten leads with a one. */
  lemma {:induction false} LeadingDigitOfPow10(k: nat)
    ensures LeadingDigit(Pow10(k)) == 1
  {
    if k > 0 {
      assert Pow10(k) / 10 == Pow10(k - 1);
      LeadingDigitOfPow10(k - 1);
    }
  }

  /** `release(1e21)` credits a single permit and `reducePermits(-1e21)`
      subtracts minus one: from 10^21 on, a number is read through its
      exponent form. 1e20 still prints as digits and is read whole. */
  lemma ExponentFormArgument(d: int)
    ensures ParsePermits(Number(ExponentFormAt), d) == 1
    ensures ParsePermits(Number(-ExponentFormAt), d) == -1
    ensures ParsePermits(Number(Pow10(20)), d) == Pow10(20)
  {
    assert Pow10(7) == 10_000_000;
    assert Pow10(14) == 100_000_000_000_000;
    assert Pow10(21) == ExponentFormAt;
    LeadingDigitOfPow10(21);
  }
}

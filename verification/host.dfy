/**
 * The host services the animation code calls but this model cannot see:
 * `Math.random`, `Math.cos`, `Math.sin`, `Math.pow` and `Math.sqrt`.
 * `Math.random()` is a stream of draws read through a cursor; every call in
 * the source consumes exactly the next draw, in source order.
 */
module HostMath {

  datatype Host = Host(
    rnd: nat -> real,
    cos: real -> real,
    sin: real -> real,
    pow: (real, real) -> real,
    sqrt: real -> real)
  {
    /** `Math.random()` always returns a value in [0, 1). */
    ghost predicate Valid() {
      forall n: nat :: 0.0 <= rnd(n) < 1.0
    }
  }

  /** `Math.PI` as the nearest double prints it. */
  const Pi: real := 3.141592653589793

  /** `rand(min, max) = min + Math.random() * (max - min)` for the draw `u`. */
  function Rand(lo: real, hi: real, u: real): real {
    lo + u * (hi - lo)
  }

  lemma RandBounds(lo: real, hi: real, u: real)
    requires lo <= hi && 0.0 <= u < 1.0
    ensures lo <= Rand(lo, hi, u) <= hi
    ensures lo < hi ==> Rand(lo, hi, u) < hi
  {
    MulNonNeg(u, hi - lo);
    MulNonNeg(1.0 - u, hi - lo);
    if lo < hi {
      MulPos(1.0 - u, hi - lo);
    }
  }

  lemma MulNonNeg(a: real, b: real)
    requires a >= 0.0 && b >= 0.0
    ensures a * b >= 0.0
  {
  }

  lemma MulPos(a: real, b: real)
    requires a > 0.0 && b > 0.0
    ensures a * b > 0.0
  {
  }

  /** `Math.floor(Math.random() * n)`: a valid index into an array of length `n`. */
  function PickIndex(u: real, n: nat): (i: nat)
    requires 0.0 <= u < 1.0 && n > 0
    ensures i < n
  {
    assert 0.0 <= u * n as real < n as real by {
      assert (1.0 - u) * n as real > 0.0;
    }
    (u * n as real).Floor
  }

  /** `pick(arr) = arr[Math.floor(Math.random() * arr.length)]`. */
  function Pick<T>(arr: seq<T>, u: real): (r: T)
    requires 0.0 <= u < 1.0 && |arr| > 0
    ensures r in arr
  {
    arr[PickIndex(u, |arr|)]
  }
}

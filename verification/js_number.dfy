/**
 * JavaScript numbers and the string-to-number conversions the application
 * uses: `parseFloat`, `parseInt(s, 10)` and `Number(s)`. Finite values are
 * exact reals; IEEE-754 rounding and overflow to Infinity are not modelled.
 */
module JsNumber {
  import opened Wrappers
  import opened JsText

  /** A JavaScript `number`. */
  datatype Num = Finite(v: real) | NaN | PosInf | NegInf {

    /** `Number.isFinite(n)`. */
    predicate IsFinite() {
      Finite?
    }

    /** `!!n`: every number but 0 and NaN is truthy. */
    predicate Truthy() {
      (Finite? && v != 0.0) || PosInf? || NegInf?
    }

    /** `n <= 0` (false for NaN). */
    predicate AtMostZero() {
      (Finite? && v <= 0.0) || NegInf?
    }
  }

  /** `a + b` on JavaScript numbers (without rounding). */
  function NumAdd(a: Num, b: Num): (r: Num)
    ensures a.Finite? && b.Finite? ==> r == Finite(a.v + b.v)
    ensures a.NaN? || b.NaN? ==> r.NaN?
    ensures r.Finite? ==> a.Finite? && b.Finite?
  {
    match (a, b)
    case (Finite(x), Finite(y)) => Finite(x + y)
    case (NaN, _) => NaN
    case (_, NaN) => NaN
    case (PosInf, NegInf) => NaN
    case (NegInf, PosInf) => NaN
    case (PosInf, _) => PosInf
    case (NegInf, _) => NegInf
    case (_, PosInf) => PosInf
    case (_, NegInf) => NegInf
  }

  /** The sign of a non-NaN number: -1, 0 or 1. */
  function Sign(a: Num): int {
    match a
    case Finite(x) => if x < 0.0 then -1 else if x > 0.0 then 1 else 0
    case PosInf => 1
    case NegInf => -1
    case NaN => 0
  }

  /** `a * b` on JavaScript numbers (without rounding); zero times an infinity is NaN. */
  function NumMul(a: Num, b: Num): (r: Num)
    ensures a.Finite? && b.Finite? ==> r == Finite(a.v * b.v)
    ensures a.NaN? || b.NaN? ==> r.NaN?
    ensures r.Finite? ==> a.Finite? && b.Finite?
  {
    if a.NaN? || b.NaN? then NaN
    else if a.Finite? && b.Finite? then Finite(a.v * b.v)
    else if Sign(a) * Sign(b) == 0 then NaN
    else if Sign(a) * Sign(b) > 0 then PosInf
    else NegInf
  }

  /** JavaScript `===` on numbers: NaN equals nothing, not even itself. */
  predicate StrictEq(a: Num, b: Num) {
    !a.NaN? && a == b
  }

  /** `Math.max(lo, Math.min(hi, n))` for finite operands. */
  function Clamp(n: real, lo: real, hi: real): (r: real)
    requires lo <= hi
    ensures lo <= r <= hi
    ensures lo <= n <= hi ==> r == n
    ensures n < lo ==> r == lo
    ensures n > hi ==> r == hi
  {
    if n < lo then lo else if n > hi then hi else n
  }

  function Max(a: real, b: real): real {
    if a >= b then a else b
  }

  /** `Math.round(x)`: the nearest integer, halves rounded towards +Infinity. */
  function Round(x: real): (r: int)
    ensures x - 0.5 < r as real <= x + 0.5
  {
    (x + 0.5).Floor
  }

  /** Value of a run of decimal digits, most significant first. */
  function DigitsValue(s: string): nat
    requires AllDigits(s)
  {
    if s == [] then 0
    else DigitsValue(s[..|s| - 1]) * 10 + (s[|s| - 1] as int - '0' as int)
  }

  /** Length of the longest prefix of `s` made of decimal digits. */
  function LeadingDigits(s: string): (n: nat)
    ensures n <= |s| && AllDigits(s[..n])
    ensures n < |s| ==> !IsDigit(s[n])
  {
    if s == [] || !IsDigit(s[0]) then 0
    else
      var n := 1 + LeadingDigits(s[1..]);
      assert s[..n] == [s[0]] + s[1..][..n - 1];
      n
  }

  function Pow10(e: nat): (r: real)
    ensures r >= 1.0
  {
    if e == 0 then 1.0 else 10.0 * Pow10(e - 1)
  }

  /** The optional sign of a numeric literal: whether it is `-`, and where the magnitude starts. */
  function SignPrefix(t: string): (bool, nat) {
    if |t| > 0 && (t[0] == '+' || t[0] == '-') then (t[0] == '-', 1) else (false, 0)
  }

  function Negate(n: Num, neg: bool): Num {
    if !neg then n
    else match n
      case Finite(v) => Finite(-v)
      case PosInf => NegInf
      case NegInf => PosInf
      case NaN => NaN
  }

  /** The value and length of the longest StrDecimalLiteral prefix of `t`, if any. */
  datatype Scan = Scan(value: Num, len: nat)

  /**
   * The unsigned decimal mantissa at the start of `u`: `digits [. digits?]` or
   * `. digits`, as its value and length.
   */
  function ScanMantissa(u: string): (r: Option<(real, nat)>)
    ensures r.Some? ==> 0 < r.value.1 <= |u|
  {
    var ip := LeadingDigits(u);
    var hasDot := ip < |u| && u[ip] == '.';
    var fp := if hasDot then LeadingDigits(u[ip + 1..]) else 0;
    if ip == 0 && fp == 0 then None
    else if !hasDot then Some((DigitsValue(u[..ip]) as real, ip))
    else
      var frac := DigitsValue(u[ip + 1..][..fp]) as real / Pow10(fp);
      Some((DigitsValue(u[..ip]) as real + frac, ip + 1 + fp))
  }

  /**
   * The scale factor and length of an exponent part `[eE] [+-]? digits` at the
   * start of `w`; a marker not followed by digits is not part of the literal.
   */
  function ScanExponent(w: string): (r: (real, nat))
    ensures r.1 <= |w|
  {
    if |w| == 0 || (w[0] != 'e' && w[0] != 'E') then (1.0, 0)
    else
      var (eneg, eoff) := SignPrefix(w[1..]);
      var ed := LeadingDigits(w[1 + eoff..]);
      if ed == 0 then (1.0, 0)
      else
        var e := Pow10(DigitsValue(w[1 + eoff..][..ed]));
        (if eneg then 1.0 / e else e, 1 + eoff + ed)
  }

  /**
   * The longest prefix of `t` that is an ECMAScript StrDecimalLiteral:
   * `[+-]? (Infinity | digits [. digits?] | . digits) ([eE] [+-]? digits)?`.
   */
  function ScanDecimal(t: string): (r: Option<Scan>)
    ensures r.Some? ==> 0 < r.value.len <= |t|
  {
    var (neg, off) := SignPrefix(t);
    var u := t[off..];
    if StartsWith(u, "Infinity") then Some(Scan(Negate(PosInf, neg), off + 8))
    else
      match ScanMantissa(u)
      case None => None
      case Some((m, mlen)) =>
        var (scale, elen) := ScanExponent(u[mlen..]);
        Some(Scan(Negate(Finite(m * scale), neg), off + mlen + elen))
  }

  /** `parseFloat(s)`: the longest decimal-literal prefix after leading white space, else NaN. */
  function ParseFloat(s: string): Num {
    match ScanDecimal(TrimStart(s))
    case None => NaN
    case Some(sc) => sc.value
  }

  /** `parseInt(s, 10)`: an optional sign and the longest run of decimal digits, else NaN. */
  function ParseInt(s: string): (r: Num)
    ensures r.NaN? || r.Finite?
  {
    var t := TrimStart(s);
    var (neg, off) := SignPrefix(t);
    var n := LeadingDigits(t[off..]);
    if n == 0 then NaN
    else Negate(Finite(DigitsValue(t[off..][..n]) as real), neg)
  }

  /** The value of a digit in radix 16, 8 or 2, if `c` is one. */
  function RadixDigit(c: char, radix: nat): Option<nat> {
    var d :=
      if '0' <= c <= '9' then c as int - '0' as int
      else if 'a' <= c <= 'f' then c as int - 'a' as int + 10
      else if 'A' <= c <= 'F' then c as int - 'A' as int + 10
      else 99;
    if 0 <= d < radix then Some(d) else None
  }

  /** Value of a whole string of radix digits, or None if any character is not one. */
  function RadixValue(s: string, radix: nat): Option<nat> {
    if s == [] then Some(0)
    else
      match (RadixValue(s[..|s| - 1], radix), RadixDigit(s[|s| - 1], radix))
      case (Some(hi), Some(d)) => Some(hi * radix + d)
      case _ => None
  }

  /** The radix announced by a `0x`, `0o` or `0b` prefix (either case). */
  function RadixPrefix(t: string): nat {
    if |t| < 2 || t[0] != '0' then 0
    else if t[1] == 'x' || t[1] == 'X' then 16
    else if t[1] == 'o' || t[1] == 'O' then 8
    else if t[1] == 'b' || t[1] == 'B' then 2
    else 0
  }

  /**
   * `Number(s)` for a string: white space around the literal is ignored, the
   * empty string is 0, and anything but one whole numeric literal is NaN.
   */
  function ToNumber(s: string): Num {
    var t := Trim(s);
    if t == [] then Finite(0.0)
    else if RadixPrefix(t) != 0 then
      if |t| > 2 then
        match RadixValue(t[2..], RadixPrefix(t))
        case Some(v) => Finite(v as real)
        case None => NaN
      else NaN
    else
      match ScanDecimal(t)
      case Some(sc) => if sc.len == |t| then sc.value else NaN
      case None => NaN
  }

  lemma {:induction false} LeadingDigitsAll(d: string)
    requires AllDigits(d)
    ensures LeadingDigits(d) == |d|
  {
    if d != [] {
      LeadingDigitsAll(d[1..]);
    }
  }

  /** Reading back the decimal rendering of `n` gives `n`. */
  lemma {:induction false} DigitsValueOfDecimal(n: nat)
    ensures DigitsValue(NatToDecimal(n)) == n
  {
    if n >= 10 {
      var s := NatToDecimal(n);
      assert s[..|s| - 1] == NatToDecimal(n / 10);
      DigitsValueOfDecimal(n / 10);
    }
  }

  /** A digit string, optionally preceded by `-`. */
  function SignedDigits(neg: bool, d: string): string {
    if neg then "-" + d else d
  }

  lemma SignedDigitsShape(neg: bool, d: string)
    requires |d| > 0 && AllDigits(d)
    ensures TrimStart(SignedDigits(neg, d)) == SignedDigits(neg, d)
    ensures SignPrefix(SignedDigits(neg, d)) == (neg, if neg then 1 else 0)
    ensures SignedDigits(neg, d)[if neg then 1 else 0..] == d
  {
    var s := SignedDigits(neg, d);
    if neg {
      assert s[0] == '-';
      assert s[1..] == d;
    } else {
      assert s[0] == d[0] && IsDigit(d[0]);
      assert s[0..] == d;
    }
    TrimStartNoSpace(s);
  }

  lemma ParseIntSigned(neg: bool, d: string)
    requires |d| > 0 && AllDigits(d)
    ensures ParseInt(SignedDigits(neg, d)) == Negate(Finite(DigitsValue(d) as real), neg)
  {
    SignedDigitsShape(neg, d);
    LeadingDigitsAll(d);
    assert d[..|d|] == d;
  }

  lemma ScanSigned(neg: bool, d: string)
    requires |d| > 0 && AllDigits(d)
    ensures ScanDecimal(SignedDigits(neg, d))
         == Some(Scan(Negate(Finite(DigitsValue(d) as real), neg), |SignedDigits(neg, d)|))
  {
    var s := SignedDigits(neg, d);
    var off := if neg then 1 else 0;
    SignedDigitsShape(neg, d);
    ScanDigits(d);
    assert s[off..] == d && d[|d|..] == [];
    assert ScanExponent(s[off..][|d|..]) == (1.0, 0);
    ScanPlain(s, neg, off, DigitsValue(d) as real, |d|);
  }

  /** A literal with no exponent part scans to its signed mantissa. */
  lemma ScanPlain(t: string, neg: bool, off: nat, m: real, len: nat)
    requires SignPrefix(t) == (neg, off) && off <= |t|
    requires !StartsWith(t[off..], "Infinity")
    requires ScanMantissa(t[off..]) == Some((m, len))
    requires ScanExponent(t[off..][len..]) == (1.0, 0)
    ensures ScanDecimal(t) == Some(Scan(Negate(Finite(m), neg), off + len))
  {
    assert m * 1.0 == m;
  }

  lemma DecimalIsSigned(n: int)
    ensures IntToDecimal(n) == SignedDigits(n < 0, NatToDecimal(if n < 0 then -n else n))
    ensures DigitsValue(NatToDecimal(if n < 0 then -n else n)) as real
         == (if n < 0 then -n as real else n as real)
  {
    DigitsValueOfDecimal(if n < 0 then -n else n);
  }

  /** `parseInt(String(n), 10) === n` for every integer `n`. */
  lemma ParseIntOfDecimal(n: int)
    ensures ParseInt(IntToDecimal(n)) == Finite(n as real)
  {
    DecimalIsSigned(n);
    ParseIntSigned(n < 0, NatToDecimal(if n < 0 then -n else n));
  }

  /** A non-empty run of digits scans, as a whole, to its decimal value. */
  lemma ScanDigits(d: string)
    requires |d| > 0 && AllDigits(d)
    ensures ScanMantissa(d) == Some((DigitsValue(d) as real, |d|))
    ensures !StartsWith(d, "Infinity")
  {
    LeadingDigitsAll(d);
    assert d[..|d|] == d;
    DigitsNotInfinity(d);
  }

  lemma DigitsNotInfinity(d: string)
    requires |d| > 0 && IsDigit(d[0])
    ensures !StartsWith(d, "Infinity")
  {
    if |d| >= 8 {
      assert d[..8][0] == d[0];
    }
  }

  /** `parseFloat(String(n)) === n` for every integer `n`. */
  lemma ParseFloatOfDecimal(n: int)
    ensures ScanDecimal(IntToDecimal(n)) == Some(Scan(Finite(n as real), |IntToDecimal(n)|))
    ensures ParseFloat(IntToDecimal(n)) == Finite(n as real)
  {
    var d := NatToDecimal(if n < 0 then -n else n);
    DecimalIsSigned(n);
    ScanSigned(n < 0, d);
    SignedDigitsShape(n < 0, d);
  }

  /** `Number(String(n)) === n` for every integer `n`. */
  lemma ToNumberOfDecimal(n: int)
    ensures ToNumber(IntToDecimal(n)) == Finite(n as real)
  {
    var s := IntToDecimal(n);
    ParseFloatOfDecimal(n);
    assert Trim(s) == s by {
      TrimIdempotent(s);
    }
    assert RadixPrefix(s) == 0;
  }
}

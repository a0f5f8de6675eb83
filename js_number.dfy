/** The JavaScript number operations the data-preparation code uses, on mathematical integers and
    reals: `Math.round`, the `clamp` helper built from `Math.max` and `Math.min`, integer-to-string
    conversion in base 10 (template literals) and base 16 (`toString(16)`), and `toFixed`. */
module JsNumber {
  import opened Wrappers

  /** `Math.round`: the nearest integer, a tie going towards +infinity. */
  function Round(x: real): (r: int)
    ensures x - 0.5 < r as real <= x + 0.5
  {
    (x + 0.5).Floor
  }

  /** `Math.max(lo, Math.min(hi, n))` on integers. */
  function ClampInt(n: int, lo: int, hi: int): (r: int)
    ensures lo <= hi ==> lo <= r <= hi
    ensures lo <= n <= hi ==> r == n
    ensures lo <= hi && n < lo ==> r == lo
    ensures lo <= hi && hi < n ==> r == hi
  {
    var upper := if hi < n then hi else n;
    if lo > upper then lo else upper
  }

  /** `Math.max(lo, Math.min(hi, n))` on reals. */
  function ClampReal(n: real, lo: real, hi: real): (r: real)
    ensures lo <= hi ==> lo <= r <= hi
    ensures lo <= n <= hi ==> r == n
    ensures lo <= hi && n < lo ==> r == lo
    ensures lo <= hi && hi < n ==> r == hi
  {
    var upper := if hi < n then hi else n;
    if lo > upper then lo else upper
  }

  function Abs(x: real): (r: real)
    ensures r >= 0.0 && (r == x || r == -x)
  {
    if x < 0.0 then -x else x
  }

  /** Clamping never moves a number away from a point of the interval. */
  lemma ClampRealMovesCloser(n: real, lo: real, hi: real, p: real)
    requires lo <= p <= hi
    ensures Abs(ClampReal(n, lo, hi) - p) <= Abs(n - p)
  {
  }

  // ---------------------------------------------------------------------------------------------
  // Integers written out in a radix

  /** The digit character for `d`, lower-case above nine as `toString(16)` writes them. */
  function DigitChar(d: nat): (c: char)
    requires d < 16
    ensures IsDigitChar(c) && DigitValue(c) == d
  {
    if d < 10 then ('0' as int + d) as char else ('a' as int + d - 10) as char
  }

  predicate IsDigitChar(c: char) {
    '0' <= c <= '9' || 'a' <= c <= 'f'
  }

  function DigitValue(c: char): nat {
    if '0' <= c <= '9' then c as int - '0' as int
    else if 'a' <= c <= 'f' then c as int - 'a' as int + 10
    else 0
  }

  /** `n.toString(radix)` for a non-negative integer: digits only, no leading zero, "0" for zero. */
  function ToRadix(n: nat, radix: nat): (s: string)
    requires 2 <= radix <= 16
    ensures 0 < |s|
    ensures forall k :: 0 <= k < |s| ==> IsDigitChar(s[k]) && DigitValue(s[k]) < radix
    ensures n == 0 <==> s == "0"
    ensures s[0] != '0' || s == "0"
    decreases n
  {
    if n < radix then [DigitChar(n)]
    else
      DivModFacts(n, radix);
      ToRadix(n / radix, radix) + [DigitChar(n % radix)]
  }

  /** Taking one `m` off a number does not change its remainder modulo `m`. */
  lemma ModuloStep(i: nat, m: nat)
    requires 0 < m <= i
    ensures (i - m) % m == i % m
  {
    var a, r1 := i / m, i % m;
    var b, r2 := (i - m) / m, (i - m) % m;
    var k := a - b - 1;
    assert m * k == r2 - r1 by {
      assert i == m * a + r1;
      assert i - m == m * b + r2;
      assert m * k == m * a - m * b - m;
    }
    MultipleInsideOpenInterval(m, k);
  }

  lemma MultipleInsideOpenInterval(m: int, k: int)
    requires 0 < m && -m < m * k < m
    ensures k == 0
  {
    assert m * k == m + m * (k - 1) && m * k == -m + m * (k + 1);
    assert k >= 1 ==> m * (k - 1) >= 0;
    assert k <= -1 ==> m * (k + 1) <= 0;
  }

  /** `xs[i % xs.length]`, the element met at step i when going round `xs` again and again. */
  function Cycle<T>(xs: seq<T>, i: nat): T
    requires |xs| > 0
    decreases i
  {
    if i < |xs| then xs[i] else Cycle(xs, i - |xs|)
  }

  lemma {:induction false} CycleIsModulo<T>(xs: seq<T>, i: nat)
    requires |xs| > 0
    ensures Cycle(xs, i) == xs[i % |xs|]
    decreases i
  {
    if i >= |xs| {
      CycleIsModulo(xs, i - |xs|);
      ModuloStep(i, |xs|);
    }
  }

  /** Euclidean division of n by the radix, in the form the digit recursion needs. */
  lemma DivModFacts(n: nat, radix: nat)
    requires 2 <= radix <= 16 && radix <= n
    ensures 1 <= n / radix < n
    ensures n % radix < radix
    ensures (n / radix) * radix + n % radix == n
  {
    var q, r := n / radix, n % radix;
    assert n == q * radix + r;
    assert q * radix >= q * 2;
  }

  /** The number a string of digits denotes in the radix. */
  function FromRadix(s: string, radix: nat): nat {
    if s == [] then 0 else FromRadix(s[..|s| - 1], radix) * radix + DigitValue(s[|s| - 1])
  }

  /** Reading back what `ToRadix` wrote gives the number again. */
  lemma {:induction false} RadixRoundTrip(n: nat, radix: nat)
    requires 2 <= radix <= 16
    ensures FromRadix(ToRadix(n, radix), radix) == n
    decreases n
  {
    if n >= radix {
      var s := ToRadix(n, radix);
      DivModFacts(n, radix);
      RadixRoundTrip(n / radix, radix);
      assert s[..|s| - 1] == ToRadix(n / radix, radix);
    }
  }

  /** Distinct numbers are written differently. */
  lemma ToRadixInjective(a: nat, b: nat, radix: nat)
    requires 2 <= radix <= 16
    ensures ToRadix(a, radix) == ToRadix(b, radix) ==> a == b
  {
    RadixRoundTrip(a, radix);
    RadixRoundTrip(b, radix);
  }

  /** A template literal `${n}` for a non-negative integer. */
  function Decimal(n: nat): string {
    ToRadix(n, 10)
  }

  /** `n.toString(16)` for a non-negative integer. */
  function Hex(n: nat): string {
    ToRadix(n, 16)
  }

  // ---------------------------------------------------------------------------------------------
  // toFixed

  function Pow10(k: nat): (r: nat)
    ensures r >= 1
  {
    if k == 0 then 1 else 10 * Pow10(k - 1)
  }

  /** The integer `n` that `toFixed(f)` writes for `x`: the one for which n / 10^f is closest to
      the magnitude of `x`, the larger one on a tie. */
  function FixedUnits(x: real, f: nat): (n: nat)
    ensures Abs(n as real - Abs(x) * Pow10(f) as real) <= 0.5
  {
    var a := Abs(x);
    var p := Pow10(f) as real;
    var scaled := a * p;
    RoundIsNear(scaled);
    var n := Round(scaled);
    assert n >= 0;
    assert Abs(n as real - scaled) <= 0.5;
    assert scaled == Abs(x) * Pow10(f) as real;
    n
  }

  lemma RoundIsNear(y: real)
    ensures Abs(Round(y) as real - y) <= 0.5
  {
    var r := Round(y) as real;
    assert -0.5 < r - y <= 0.5;
  }

  function Zeros(k: nat): (z: string)
    ensures |z| == k && forall j :: 0 <= j < k ==> z[j] == '0'
  {
    if k == 0 then "" else Zeros(k - 1) + "0"
  }

  /** `x.toFixed(f)`: a minus sign when x is negative, then FixedBody of `FixedUnits(x, f)`. */
  function ToFixed(x: real, f: nat): string
    requires f <= 100
  {
    (if x < 0.0 then "-" else "") + FixedBody(FixedUnits(x, f), f)
  }

  /** `toFixed` writes a minus sign exactly for a negative number, a decimal point f places from
      the end, and digits after it. */
  lemma ToFixedShape(x: real, f: nat)
    requires f <= 100
    ensures var s := ToFixed(x, f);
      && 0 < |s|
      && (x < 0.0 <==> s[0] == '-')
      && (0 < f ==> |s| >= f + 2 && s[|s| - f - 1] == '.')
      && (forall k :: |s| - f <= k < |s| ==> IsDigitChar(s[k]))
  {
    var b := FixedBody(FixedUnits(x, f), f);
    FixedBodyShape(FixedUnits(x, f), f);
    var sign := if x < 0.0 then "-" else "";
    SignedBodyShape(sign, b, f);
  }

  lemma SignedBodyShape(sign: string, b: string, f: nat)
    requires sign == "" || sign == "-"
    requires 0 < |b| && IsDigitChar(b[0])
    requires 0 < f ==> |b| >= f + 2 && b[|b| - f - 1] == '.'
    requires forall k :: |b| - f <= k < |b| ==> IsDigitChar(b[k])
    ensures var s := sign + b;
      && 0 < |s|
      && (sign == "-" <==> s[0] == '-')
      && (0 < f ==> |s| >= f + 2 && s[|s| - f - 1] == '.')
      && (forall k :: |s| - f <= k < |s| ==> IsDigitChar(s[k]))
  {
    var s := sign + b;
    assert forall k :: |sign| <= k < |s| ==> s[k] == b[k - |sign|];
    assert sign == "" ==> s[0] == b[0];
  }

  /** The digits of n, padded with zeros on the left to at least f + 1 digits. */
  function PaddedDigits(n: nat, f: nat): (p: string)
    ensures |p| >= f + 1
  {
    var m := ToRadix(n, 10);
    if |m| <= f then Zeros(f + 1 - |m|) + m else m
  }

  lemma PaddedDigitsAreDigits(n: nat, f: nat)
    ensures forall k :: 0 <= k < |PaddedDigits(n, f)| ==> IsDigitChar(PaddedDigits(n, f)[k])
  {
  }

  /** What `toFixed` writes after the sign: the padded digits of n with a decimal point before
      the last f of them. */
  function FixedBody(n: nat, f: nat): string {
    var padded := PaddedDigits(n, f);
    if f == 0 then padded
    else padded[..|padded| - f] + "." + padded[|padded| - f..]
  }

  /** The body starts with a digit, has its point f places from the end, and holds nothing but
      digits and that point. */
  lemma FixedBodyShape(n: nat, f: nat)
    ensures var b := FixedBody(n, f);
      && 0 < |b| && IsDigitChar(b[0])
      && (0 < f ==> |b| >= f + 2 && b[|b| - f - 1] == '.')
      && (forall k :: |b| - f <= k < |b| ==> IsDigitChar(b[k]))
      && (forall k :: 0 <= k < |b| ==> IsDigitChar(b[k]) || b[k] == '.')
  {
    PaddedDigitsAreDigits(n, f);
  }

  /** A character `toFixed` can write: a minus sign, the decimal point or a digit. */
  predicate IsFixedChar(c: char) {
    c == '-' || c == '.' || IsDigitChar(c)
  }

  /** `toFixed` writes nothing but a sign, a decimal point and digits. */
  lemma ToFixedChars(x: real, f: nat)
    requires f <= 100
    ensures forall k :: 0 <= k < |ToFixed(x, f)| ==> IsFixedChar(ToFixed(x, f)[k])
  {
    var s, b := ToFixed(x, f), FixedBody(FixedUnits(x, f), f);
    FixedBodyShape(FixedUnits(x, f), f);
    forall k | 0 <= k < |s| ensures IsFixedChar(s[k]) {
      if x < 0.0 && k > 0 { assert s[k] == b[k - 1]; }
    }
  }

  /** The index of the first '.' in s, if there is one. */
  function PointIndex(s: string): (r: Option<nat>)
    ensures r.Some? ==> r.value < |s| && s[r.value] == '.' && forall k :: 0 <= k < r.value ==> s[k] != '.'
    ensures r.None? ==> forall k :: 0 <= k < |s| ==> s[k] != '.'
  {
    if s == [] then None
    else if s[0] == '.' then Some(0)
    else match PointIndex(s[1..])
      case None => None
      case Some(i) => Some(i + 1)
  }

  /** `Number(s)` for a decimal string: an optional minus sign, digits, and optionally a point
      followed by more digits. The digits with the point removed are read as one integer, which
      is then divided by ten for every digit after the point. */
  function ParseDecimal(s: string): real {
    if |s| > 0 && s[0] == '-' then -ParseUnsigned(s[1..]) else ParseUnsigned(s)
  }

  function ParseUnsigned(s: string): real {
    match PointIndex(s)
    case None => FromRadix(s, 10) as real
    case Some(i) => FromRadix(s[..i] + s[i + 1..], 10) as real / Pow10(|s| - i - 1) as real
  }

  /** `Number(x.toFixed(f))`: the number the string written by `ToFixed` denotes (FixedValueParses). */
  function FixedValue(x: real, f: nat): (r: real)
    ensures Abs(r - x) * Pow10(f) as real <= 0.5
  {
    var n := FixedUnits(x, f) as real / Pow10(f) as real;
    if x < 0.0 then -n else n
  }

  /** Reading back what `toFixed` wrote gives FixedValue: the string denotes the nearest multiple
      of 10^-f. */
  lemma FixedValueParses(x: real, f: nat)
    requires f <= 100
    ensures ParseDecimal(ToFixed(x, f)) == FixedValue(x, f)
  {
    var n := FixedUnits(x, f);
    var body := FixedBody(n, f);
    var q := n as real / Pow10(f) as real;
    FixedBodyParses(n, f);
    var s := ToFixed(x, f);
    if x < 0.0 {
      assert s[1..] == body;
      assert ParseDecimal(s) == -q;
    } else {
      assert s == body;
      assert ParseDecimal(s) == q;
    }
  }

  /** The digits and point written for n read back as n / 10^f. */
  lemma FixedBodyParses(n: nat, f: nat)
    ensures ParseUnsigned(FixedBody(n, f)) == n as real / Pow10(f) as real
  {
    if f == 0 {
      WholeBodyParses(n);
    } else {
      SplitBodyParses(n, f);
    }
  }

  lemma WholeBodyParses(n: nat)
    ensures ParseUnsigned(FixedBody(n, 0)) == n as real / Pow10(0) as real
  {
    var digits := PaddedDigits(n, 0);
    PaddedDigitsRead(n, 0);
    PaddedDigitsAreDigits(n, 0);
    DigitsHaveNoPoint(digits);
    assert FixedBody(n, 0) == digits;
  }

  lemma DigitsHaveNoPoint(digits: string)
    requires forall k :: 0 <= k < |digits| ==> IsDigitChar(digits[k])
    ensures PointIndex(digits).None?
  {
    if PointIndex(digits).Some? {
      assert IsDigitChar(digits[PointIndex(digits).value]);
    }
  }

  lemma SplitBodyParses(n: nat, f: nat)
    requires 0 < f
    ensures ParseUnsigned(FixedBody(n, f)) == n as real / Pow10(f) as real
  {
    var padded := PaddedDigits(n, f);
    var i := |padded| - f;
    PaddedDigitsRead(n, f);
    PaddedDigitsAreDigits(n, f);
    assert FixedBody(n, f) == padded[..i] + "." + padded[i..];
    PointSplitParses(padded, f);
  }

  /** The padded digits still read as n. */
  lemma PaddedDigitsRead(n: nat, f: nat)
    ensures FromRadix(PaddedDigits(n, f), 10) == n
  {
    var m := ToRadix(n, 10);
    RadixRoundTrip(n, 10);
    if |m| <= f {
      var z := Zeros(f + 1 - |m|);
      DecimalAppend(z, m);
      ZerosReadZero(f + 1 - |m|);
      assert FromRadix(z, 10) * Pow10(|m|) == 0;
    }
  }

  /** Digits with a point put in f places from the end read as their integer over 10^f. */
  lemma PointSplitParses(digits: string, f: nat)
    requires 0 < f < |digits|
    requires forall k :: 0 <= k < |digits| ==> IsDigitChar(digits[k])
    ensures var i := |digits| - f;
      ParseUnsigned(digits[..i] + "." + digits[i..]) == FromRadix(digits, 10) as real / Pow10(f) as real
  {
    var i := |digits| - f;
    var s := digits[..i] + "." + digits[i..];
    assert s[i] == '.';
    assert forall k :: 0 <= k < i ==> s[k] == digits[k];
    assert PointIndex(s) == Some(i);
    assert s[..i] + s[i + 1..] == digits;
    assert |s| - i - 1 == f;
  }

  /** Digits written after others shift them by one decimal place each. */
  lemma {:induction false} DecimalAppend(a: string, b: string)
    ensures FromRadix(a + b, 10) == FromRadix(a, 10) * Pow10(|b|) + FromRadix(b, 10)
    decreases |b|
  {
    if b == [] {
      assert a + b == a;
    } else {
      var init, last := b[..|b| - 1], b[|b| - 1];
      var ab := a + b;
      assert ab[..|ab| - 1] == a + init && ab[|ab| - 1] == last;
      DecimalAppend(a, init);
      var va, vi, p, d := FromRadix(a, 10), FromRadix(init, 10), Pow10(|init|), DigitValue(last);
      assert FromRadix(ab, 10) == (va * p + vi) * 10 + d;
      assert FromRadix(b, 10) == vi * 10 + d;
      assert Pow10(|b|) == 10 * p;
      ShiftByTen(va, p, vi, d);
    }
  }

  lemma ShiftByTen(va: int, p: int, vi: int, d: int)
    ensures (va * p + vi) * 10 + d == va * (10 * p) + (vi * 10 + d)
  {
  }

  /** Leading zeros read as zero. */
  lemma {:induction false} ZerosReadZero(k: nat)
    ensures FromRadix(Zeros(k), 10) == 0
  {
    if k > 0 {
      ZerosReadZero(k - 1);
      assert Zeros(k)[..k - 1] == Zeros(k - 1);
    }
  }

  // ---------------------------------------------------------------------------------------------
  // Identifiers joined with '_'

  predicate NoUnderscore(s: string) {
    forall k :: 0 <= k < |s| ==> s[k] != '_'
  }

  /** Radix digits never contain '_'. */
  lemma ToRadixNoUnderscore(n: nat, radix: nat)
    requires 2 <= radix <= 16
    ensures NoUnderscore(ToRadix(n, radix))
  {
    var s := ToRadix(n, radix);
    forall k | 0 <= k < |s| ensures s[k] != '_' {
      assert IsDigitChar(s[k]);
    }
  }

  /** When two strings `a + "_" + x` and `b + "_" + y` are equal and neither a nor b contains '_',
      the first '_' sits at the same place in both, so a == b. */
  lemma SplitAtFirstUnderscore(a: string, x: string, b: string, y: string)
    requires NoUnderscore(a) && NoUnderscore(b)
    requires a + "_" + x == b + "_" + y
    ensures a == b
  {
    var s := a + "_" + x;
    assert s[|a|] == '_' && s[|b|] == '_';
    assert forall k :: 0 <= k < |a| ==> s[k] == a[k];
    assert forall k :: 0 <= k < |b| ==> s[k] == b[k];
    assert a == s[..|a|] && b == s[..|b|];
  }

  /** When `x + "_" + a` and `y + "_" + b` are equal and neither a nor b contains '_', the last '_'
      sits at the same place in both, so a == b. */
  lemma SplitAtLastUnderscore(x: string, a: string, y: string, b: string)
    requires NoUnderscore(a) && NoUnderscore(b)
    requires x + "_" + a == y + "_" + b
    ensures a == b
  {
    var s := x + "_" + a;
    var n := |s|;
    assert s[n - 1 - |a|] == '_' && s[n - 1 - |b|] == '_';
    assert forall k :: 0 <= k < |a| ==> s[n - |a| + k] == a[k];
    assert forall k :: 0 <= k < |b| ==> s[n - |b| + k] == b[k];
    assert a == s[n - |a|..] && b == s[n - |b|..];
  }
}

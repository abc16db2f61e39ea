/** The Python numeric builtins the plotting core relies on: `int(text)`,
    `str(n)`, `round(x)` on an exact quotient, and `range(start, stop, step)`. */
module PyNum {
  import opened Wrappers

  // ---------------------------------------------------------------- int(text)

  /** The characters `int()` strips from both ends: the ASCII space, tab, line
      feed, vertical tab, form feed and carriage return, and the non-ASCII
      characters `str.isspace` accepts, which `int()` first turns into spaces.
      The ASCII separators U+001C to U+001F are whitespace to `str.isspace`,
      but `int()` does not strip them. */
  predicate IsSpace(c: char) {
    var n := c as int;
    || 0x09 <= n <= 0x0d
    || n == 0x20
    || n == 0x85 || n == 0xa0 || n == 0x1680
    || 0x2000 <= n <= 0x200a
    || n == 0x2028 || n == 0x2029 || n == 0x202f || n == 0x205f || n == 0x3000
  }

  predicate IsDigit(c: char) {
    48 <= c as int <= 57
  }

  function TrimLeft(s: string): (r: string)
    ensures |r| <= |s| && r == s[|s| - |r|..]
    ensures forall i :: 0 <= i < |s| - |r| ==> IsSpace(s[i])
    ensures |r| > 0 ==> !IsSpace(r[0])
  {
    if |s| > 0 && IsSpace(s[0]) then TrimLeft(s[1..]) else s
  }

  function TrimRight(s: string): (r: string)
    ensures |r| <= |s| && r == s[..|r|]
    ensures forall i :: |r| <= i < |s| ==> IsSpace(s[i])
    ensures |r| > 0 ==> !IsSpace(r[|r| - 1])
  {
    if |s| > 0 && IsSpace(s[|s| - 1]) then TrimRight(s[..|s| - 1]) else s
  }

  /** The whitespace `int()` removes from both ends of its argument. */
  function Strip(s: string): string {
    TrimRight(TrimLeft(s))
  }

  /** One or more digits, single underscores allowed between two digits (`1_000`). */
  predicate IsDigitGroup(s: string) {
    && |s| > 0 && IsDigit(s[0]) && IsDigit(s[|s| - 1])
    && (forall i :: 0 <= i < |s| ==> IsDigit(s[i]) || s[i] == '_')
    && (forall i :: 0 <= i < |s| - 1 ==> IsDigit(s[i]) || IsDigit(s[i + 1]))
  }

  /** The decimal value of the digits of `s`, underscores skipped. */
  function DigitsValue(s: string): nat {
    if |s| == 0 then 0
    else if IsDigit(s[|s| - 1]) then 10 * DigitsValue(s[..|s| - 1]) + (s[|s| - 1] as int - '0' as int)
    else DigitsValue(s[..|s| - 1])
  }

  /** Python's `int(text)` in base 10: surrounding whitespace, an optional sign,
      then a digit group. None is the `ValueError` it raises otherwise. */
  function ParseInt(s: string): Option<int> {
    var t := Strip(s);
    if |t| > 0 && (t[0] == '+' || t[0] == '-') then
      if IsDigitGroup(t[1..]) then
        var v: int := DigitsValue(t[1..]);
        Some(if t[0] == '-' then -v else v)
      else None
    else if IsDigitGroup(t) then Some(DigitsValue(t))
    else None
  }

  // ------------------------------------------------------------------ str(n)

  function DigitChar(d: nat): (c: char)
    requires d < 10
    ensures IsDigit(c) && c as int - '0' as int == d
  {
    (48 + d) as char
  }

  /** Python's `str(n)` for a non-negative integer. */
  function NatToString(n: nat): (r: string)
    ensures |r| > 0 && forall i :: 0 <= i < |r| ==> IsDigit(r[i])
  {
    if n < 10 then [DigitChar(n)] else NatToString(n / 10) + [DigitChar(n % 10)]
  }

  /** Python's `str(n)` for any integer. */
  function IntToString(n: int): string {
    if n < 0 then "-" + NatToString(-n) else NatToString(n)
  }

  lemma {:induction false} DigitsValueOfNatToString(n: nat)
    ensures DigitsValue(NatToString(n)) == n
  {
    if n >= 10 {
      DigitsValueOfNatToString(n / 10);
      var s := NatToString(n);
      assert s[..|s| - 1] == NatToString(n / 10);
    }
  }

  /** Stripping leaves a string alone when neither end is whitespace. */
  lemma StripUnchanged(s: string)
    requires |s| > 0 && !IsSpace(s[0]) && !IsSpace(s[|s| - 1])
    ensures Strip(s) == s
  {
    assert TrimLeft(s) == s;
  }

  lemma DigitsAreGroup(d: string)
    requires |d| > 0 && forall i :: 0 <= i < |d| ==> IsDigit(d[i])
    ensures IsDigitGroup(d)
  {
  }

  /** `int(str(n)) == n` for every integer. */
  lemma ParseIntOfIntToString(n: int)
    ensures ParseInt(IntToString(n)) == Some(n)
  {
    if n < 0 {
      var m: nat := -n;
      ParseNegative(m);
      assert IntToString(n) == "-" + NatToString(m);
    } else {
      ParseNatural(n);
      assert IntToString(n) == NatToString(n);
    }
  }

  lemma ParseNatural(m: nat)
    ensures ParseInt(NatToString(m)) == Some(m)
  {
    var d := NatToString(m);
    DigitsValueOfNatToString(m);
    DigitsAreGroup(d);
    DigitIsNotSpace(d[0]);
    DigitIsNotSpace(d[|d| - 1]);
    StripUnchanged(d);
    ParseUnsigned(d);
  }

  lemma ParseNegative(m: nat)
    requires m > 0
    ensures ParseInt("-" + NatToString(m)) == Some(-(m as int))
  {
    var d := NatToString(m);
    var s := "-" + d;
    DigitsValueOfNatToString(m);
    DigitsAreGroup(d);
    assert s[1..] == d && s[|s| - 1] == d[|d| - 1];
    DigitIsNotSpace(d[|d| - 1]);
    StripUnchanged(s);
    ParseSigned(s);
  }

  lemma DigitIsNotSpace(c: char)
    requires IsDigit(c)
    ensures !IsSpace(c)
  {
  }

  /** `int()` of stripped text that is a minus sign and a digit group. */
  lemma ParseSigned(t: string)
    requires Strip(t) == t && |t| > 0 && t[0] == '-' && IsDigitGroup(t[1..])
    ensures ParseInt(t) == Some(-(DigitsValue(t[1..]) as int))
  {
  }

  /** `int()` of stripped text that is a digit group. */
  lemma ParseUnsigned(t: string)
    requires Strip(t) == t && IsDigitGroup(t)
    ensures ParseInt(t) == Some(DigitsValue(t))
  {
  }

  /** `int()` does not strip the information separator U+001C: `int("\x1c5")`
      raises `ValueError`. */
  lemma SeparatorIsNotStripped(d: string)
    requires IsDigitGroup(d)
    ensures ParseInt("\U{1c}" + d) == None
  {
    var t := "\U{1c}" + d;
    assert t[|t| - 1] == d[|d| - 1];
    DigitIsNotSpace(d[|d| - 1]);
    StripUnchanged(t);
  }

  // ---------------------------------------------------------------- round(x)

  /** Python's `round(p / q)`: the nearest integer to `p / q`, ties to the even one. */
  function RoundHalfEven(p: int, q: int): (r: int)
    requires q > 0
    ensures q * (2 * r - 1) <= 2 * p <= q * (2 * r + 1)
    ensures (2 * p == q * (2 * r - 1) || 2 * p == q * (2 * r + 1)) ==> r % 2 == 0
  {
    var f, m := p / q, p % q;
    RoundCases(p, q, f, m);
    if 2 * m < q then f
    else if 2 * m > q then f + 1
    else if f % 2 == 0 then f
    else f + 1
  }

  /** With `p == q * f + m`, `f` is nearest when `2m <= q` and `f + 1` when
      `2m >= q`; `p / q` is then a tie exactly when `2m == q`. */
  lemma RoundCases(p: int, q: int, f: int, m: int)
    requires q > 0 && p == q * f + m && 0 <= m < q
    ensures 2 * m <= q ==> q * (2 * f - 1) <= 2 * p <= q * (2 * f + 1)
    ensures 2 * m >= q ==> q * (2 * (f + 1) - 1) <= 2 * p <= q * (2 * (f + 1) + 1)
    ensures (2 * p == q * (2 * f - 1) || 2 * p == q * (2 * f + 1)) ==> 2 * m == q
    ensures (2 * p == q * (2 * (f + 1) - 1) || 2 * p == q * (2 * (f + 1) + 1)) ==> 2 * m == q
  {
    assert q * (2 * f - 1) == 2 * (q * f) - q;
    assert q * (2 * f + 1) == 2 * (q * f) + q;
    assert q * (2 * (f + 1) - 1) == 2 * (q * f) + q;
    assert q * (2 * (f + 1) + 1) == 2 * (q * f) + 3 * q;
  }

  // --------------------------------------------------------- range(a, b, step)

  /** Python's `range(start, stop, step)` as a list. A zero step raises `ValueError`. */
  function Range(start: int, stop: int, step: int): (r: Result<seq<int>>)
    ensures r.Failure? <==> step == 0
    decreases if step > 0 then stop - start else start - stop
  {
    if step == 0 then Failure(RangeStepZero)
    else if (step > 0 && start >= stop) || (step < 0 && start <= stop) then Success([])
    else Success([start] + Range(start + step, stop, step).value)
  }

  /** A range with a positive step lists `start + i * step` for every `i` that keeps it below `stop`. */
  lemma {:induction false} RangeElements(start: int, stop: int, step: int)
    requires step > 0
    ensures var r := Range(start, stop, step).value;
      && (forall i :: 0 <= i < |r| ==> r[i] == start + i * step && r[i] < stop)
      && start + |r| * step >= stop
    decreases stop - start
  {
    if start < stop {
      RangeElements(start + step, stop, step);
      var rest := Range(start + step, stop, step).value;
      var r := Range(start, stop, step).value;
      assert r == [start] + rest;
      forall i | 0 < i < |r|
        ensures r[i] == start + i * step
      {
        assert r[i] == rest[i - 1] == start + step + (i - 1) * step;
      }
      assert start + |r| * step == start + step + |rest| * step;
    }
  }

  lemma MulStrictMono(a: int, b: int, c: int)
    requires a < b && c > 0
    ensures a * c < b * c
  {
  }

  /** `range(0, stop, step)` with a negative step is empty. */
  lemma RangeFromZeroNegativeStep(stop: int, step: int)
    requires step < 0 && stop >= 0
    ensures Range(0, stop, step) == Success([])
  {
  }

  /** `range(0, stop, step)` with a positive step is ascending ... */
  lemma RangeFromZeroAscending(stop: int, step: int)
    requires step > 0
    ensures var r := Range(0, stop, step).value;
      forall i, j :: 0 <= i < j < |r| ==> r[i] < r[j]
  {
    RangeElements(0, stop, step);
    var r := Range(0, stop, step).value;
    forall i, j | 0 <= i < j < |r|
      ensures r[i] < r[j]
    {
      MulStrictMono(i, j, step);
    }
  }

  /** ... and holds exactly the multiples of `step` in `[0, stop)`. */
  lemma RangeFromZeroMembers(stop: int, step: int)
    requires step > 0
    ensures var r := Range(0, stop, step).value;
      forall x :: x in r <==> 0 <= x < stop && x % step == 0
  {
    var r := Range(0, stop, step).value;
    forall x
      ensures x in r <==> 0 <= x < stop && x % step == 0
    {
      if x in r {
        RangeMemberIsMultiple(stop, step, x);
      }
      if 0 <= x < stop && x % step == 0 {
        MultipleIsRangeMember(stop, step, x);
      }
    }
  }

  lemma RangeMemberIsMultiple(stop: int, step: int, x: int)
    requires step > 0 && x in Range(0, stop, step).value
    ensures 0 <= x < stop && x % step == 0
  {
    RangeElements(0, stop, step);
    var r := Range(0, stop, step).value;
    var i :| 0 <= i < |r| && r[i] == x;
    assert x == i * step;
    MultipleMod(i, step);
  }

  lemma MultipleIsRangeMember(stop: int, step: int, x: int)
    requires step > 0 && 0 <= x < stop && x % step == 0
    ensures x in Range(0, stop, step).value
  {
    RangeElements(0, stop, step);
    var r := Range(0, stop, step).value;
    var i := x / step;
    assert x == i * step;
    if i > |r| {
      MulStrictMono(|r|, i, step);
    }
    assert i < |r|;
    assert r[i] == x;
  }

  lemma MultipleMod(i: nat, step: int)
    requires step > 0
    ensures (i * step) % step == 0 && 0 <= i * step
  {
    var q, r := (i * step) / step, (i * step) % step;
    assert step * (i - q) == r;
    if i - q >= 1 {
      MulStrictMono(0, i - q, step);
    } else if i - q <= -1 {
      MulStrictMono(i - q, 0, step);
    }
  }
}

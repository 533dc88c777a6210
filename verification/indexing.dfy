/**
 * Turning the chapter id of a route path into a position in a chapter list:
 * Python's `int(chapter_id)` restricted to an optional sign followed by ASCII
 * decimal digits, and Python's list subscript with negative indices counting
 * from the end.
 */
module Indexing {
  import opened Wrappers

  predicate IsDigit(c: char) {
    '0' <= c <= '9'
  }

  /** One or more decimal digits and nothing else. */
  predicate IsNumeral(s: string) {
    |s| > 0 && forall i :: 0 <= i < |s| ==> IsDigit(s[i])
  }

  /** An optional `-` or `+` followed by a numeral: the strings `int()` accepts here. */
  predicate IsSignedNumeral(s: string) {
    IsNumeral(s) || (|s| > 1 && (s[0] == '-' || s[0] == '+') && IsNumeral(s[1..]))
  }

  function DigitValue(c: char): (d: nat)
    requires IsDigit(c)
    ensures d < 10
  {
    (c as int) - ('0' as int)
  }

  function Digit(d: nat): (c: char)
    requires d < 10
    ensures IsDigit(c) && DigitValue(c) == d
  {
    (d + '0' as int) as char
  }

  /** The value of a string of decimal digits, most significant first. */
  function NumeralValue(s: string): nat
    requires forall i :: 0 <= i < |s| ==> IsDigit(s[i])
    decreases |s|
  {
    if |s| == 0 then 0 else NumeralValue(s[..|s| - 1]) * 10 + DigitValue(s[|s| - 1])
  }

  /**
   * `int(s)`, `None` standing for the `ValueError` it raises: defined exactly
   * on signed numerals, negative only after a `-`.
   */
  function ParseInt(s: string): (r: Option<int>)
    ensures r.Some? <==> IsSignedNumeral(s)
    ensures r.Some? && r.value < 0 ==> s[0] == '-'
    ensures r.Some? && s[0] == '-' ==> r.value <= 0
  {
    if IsNumeral(s) then Some(NumeralValue(s))
    else if |s| > 1 && s[0] == '-' && IsNumeral(s[1..]) then Some(-(NumeralValue(s[1..]) as int))
    else if |s| > 1 && s[0] == '+' && IsNumeral(s[1..]) then Some(NumeralValue(s[1..]))
    else None
  }

  /** The canonical decimal spelling of a natural number. */
  function ShowNat(n: nat): (s: string)
    ensures IsNumeral(s)
    decreases n
  {
    if n < 10 then [Digit(n)] else ShowNat(n / 10) + [Digit(n % 10)]
  }

  /** The canonical decimal spelling of an integer, `str(i)` in Python. */
  function ShowInt(i: int): (s: string)
    ensures IsSignedNumeral(s)
  {
    if i < 0 then "-" + ShowNat(-i) else ShowNat(i)
  }

  lemma {:induction false} NumeralRoundTrip(n: nat)
    ensures NumeralValue(ShowNat(n)) == n
    decreases n
  {
    if n >= 10 {
      var s := ShowNat(n);
      assert s[..|s| - 1] == ShowNat(n / 10);
      NumeralRoundTrip(n / 10);
    }
  }

  /** Every integer id a client can spell canonically parses back to itself. */
  lemma ParseShowRoundTrip(i: int)
    ensures ParseInt(ShowInt(i)) == Some(i)
  {
    if i < 0 {
      var s := ShowInt(i);
      assert s[1..] == ShowNat(-i);
      NumeralRoundTrip(-i);
    } else {
      NumeralRoundTrip(i);
    }
  }

  /** `k` zero digits. */
  function Zeros(k: nat): (s: string)
    ensures |s| == k && forall i :: 0 <= i < k ==> s[i] == '0'
  {
    seq(k, _ => '0')
  }

  function Pow10(n: nat): (p: nat)
    ensures p >= 1
  {
    if n == 0 then 1 else 10 * Pow10(n - 1)
  }

  /** A numeral's value is positional: the digits of `a` count `Pow10(|b|)` times their value. */
  lemma {:induction false} NumeralAppend(a: string, b: string)
    requires forall i :: 0 <= i < |a| ==> IsDigit(a[i])
    requires forall i :: 0 <= i < |b| ==> IsDigit(b[i])
    ensures NumeralValue(a + b) == NumeralValue(a) * Pow10(|b|) + NumeralValue(b)
    decreases |b|
  {
    if |b| == 0 {
      assert a + b == a;
    } else {
      var b' := b[..|b| - 1];
      var d := DigitValue(b[|b| - 1]);
      assert (a + b)[..|a + b| - 1] == a + b';
      assert (a + b)[|a + b| - 1] == b[|b| - 1];
      NumeralAppend(a, b');
      var x, p, y := NumeralValue(a), Pow10(|b'|), NumeralValue(b');
      assert NumeralValue(a + b) == NumeralValue(a + b') * 10 + d;
      assert NumeralValue(b) == y * 10 + d;
      assert Pow10(|b|) == 10 * p;
      Distribute(x, p, y, d);
    }
  }

  lemma Distribute(x: int, p: int, y: int, d: int)
    ensures (x * p + y) * 10 + d == x * (10 * p) + (y * 10 + d)
  {
  }

  lemma {:induction false} ZerosValue(k: nat)
    ensures NumeralValue(Zeros(k)) == 0
    decreases k
  {
    if k > 0 {
      assert Zeros(k)[..k - 1] == Zeros(k - 1);
      ZerosValue(k - 1);
    }
  }

  /** Leading zeros do not change the value: `007` reads as 7, `000` as 0. */
  lemma LeadingZeros(k: nat, n: nat)
    ensures ParseInt(Zeros(k) + ShowNat(n)) == Some(n)
  {
    var s := Zeros(k) + ShowNat(n);
    assert forall i :: 0 <= i < |s| ==> IsDigit(s[i]);
    NumeralAppend(Zeros(k), ShowNat(n));
    ZerosValue(k);
    NumeralRoundTrip(n);
  }

  /**
   * A numeral reads as its positional value; a `+` in front changes nothing
   * and a `-` in front negates it (so `-0` reads as 0).
   */
  lemma ParseSigned(t: string)
    requires IsNumeral(t)
    ensures ParseInt(t) == Some(NumeralValue(t))
    ensures ParseInt("+" + t) == ParseInt(t)
    ensures ParseInt("-" + t) == Some(-(NumeralValue(t) as int))
  {
    assert ("+" + t)[1..] == t && ("+" + t)[0] == '+';
    assert ("-" + t)[1..] == t && ("-" + t)[0] == '-';
    assert !IsDigit('+') && !IsDigit('-');
  }

  /**
   * Python's `xs[i]` on a list of length `len`: `None` for the `IndexError`,
   * otherwise the position, which is `i` taken modulo `len`.
   */
  function Resolve(len: nat, i: int): (r: Option<nat>)
    ensures r.Some? <==> -(len as int) <= i < len
    ensures r.Some? ==> r.value < len && r.value == i % len
  {
    if 0 <= i < len then Some(i)
    else if -(len as int) <= i < 0 then Some(len + i)
    else None
  }

  /** Position `k` and position `k - len` name the same element. */
  lemma NegativeAlias(len: nat, k: nat)
    requires k < len
    ensures Resolve(len, k) == Resolve(len, k - len) == Some(k)
  {
  }

  /** An empty list has no valid index. */
  lemma EmptyHasNoIndex(i: int)
    ensures Resolve(0, i).None?
  {
  }
}

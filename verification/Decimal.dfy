/** Decimal numerals: what Go's %d and %04d print and what strconv.Atoi reads. */
module Decimal {
  import opened Text

  function Digit(d: nat): char
    requires d < 10
  {
    ('0' as int + d) as char
  }

  predicate IsDigit(c: char)
  {
    '0' <= c <= '9'
  }

  predicate AllDigits(s: string)
  {
    forall i :: 0 <= i < |s| ==> IsDigit(s[i])
  }

  function Digits(n: nat): (s: string)
    ensures s != [] && AllDigits(s)
  {
    if n < 10 then [Digit(n)] else Digits(n / 10) + [Digit(n % 10)]
  }

  function Value(s: string): nat
    requires AllDigits(s)
  {
    if s == [] then 0 else 10 * Value(s[..|s| - 1]) + (s[|s| - 1] as int - '0' as int)
  }

  function Itoa(n: int): string
  {
    if n < 0 then "-" + Digits(-n) else Digits(n)
  }

  /** strconv.Atoi over unbounded integers: an optional sign, then at least one digit. */
  function Atoi(s: string): Option<int>
  {
    var body := if s != [] && (s[0] == '-' || s[0] == '+') then s[1..] else s;
    if body == [] || !AllDigits(body) then None
    else
      var magnitude: int := Value(body);
      Some(if s[0] == '-' then -magnitude else magnitude)
  }

  function Zeros(k: nat): (z: string)
    ensures |z| == k && AllDigits(z)
  {
    if k == 0 then [] else ['0'] + Zeros(k - 1)
  }

  /** %0wd on a non-negative number. */
  function Padded(w: nat, n: nat): (s: string)
    ensures s != [] && AllDigits(s) && |s| >= w
  {
    var d := Digits(n);
    if |d| < w then Zeros(w - |d|) + d else d
  }

  lemma {:induction false} ValueOfDigits(n: nat)
    ensures Value(Digits(n)) == n
  {
    if n >= 10 {
      ValueOfDigits(n / 10);
      assert Digits(n)[..|Digits(n)| - 1] == Digits(n / 10);
    }
  }

  lemma {:induction false} ValueOfZeros(k: nat, s: string)
    requires AllDigits(s)
    ensures Value(Zeros(k) + s) == Value(s)
    decreases k + |s|
  {
    var z := Zeros(k) + s;
    if s != [] {
      assert z[..|z| - 1] == Zeros(k) + s[..|s| - 1];
      ValueOfZeros(k, s[..|s| - 1]);
    } else if k > 0 {
      assert Zeros(k)[1..] == Zeros(k - 1);
      ZerosEnd(k);
      assert z[..|z| - 1] == Zeros(k - 1) + s;
      ValueOfZeros(k - 1, s);
    }
  }

  lemma {:induction false} ZerosEnd(k: nat)
    requires k > 0
    ensures Zeros(k) == Zeros(k - 1) + ['0']
  {
    if k > 1 { ZerosEnd(k - 1); }
  }

  /** Atoi(%0wd(n)) == n, the fact the numeric ids rest on. */
  lemma AtoiOfPadded(w: nat, n: nat)
    ensures Value(Padded(w, n)) == n && Atoi(Padded(w, n)) == Some(n)
  {
    ValueOfDigits(n);
    ValueOfZeros(if |Digits(n)| < w then w - |Digits(n)| else 0, Digits(n));
    var s := Padded(w, n);
    assert IsDigit(s[0]);
  }

  lemma PaddedInjective(w: nat, a: nat, b: nat)
    requires Padded(w, a) == Padded(w, b)
    ensures a == b
  {
    AtoiOfPadded(w, a);
    AtoiOfPadded(w, b);
  }

  function Pow10(k: nat): (p: nat)
    ensures p >= 1
  {
    if k == 0 then 1 else 10 * Pow10(k - 1)
  }

  lemma {:induction false} ValueBound(s: string)
    requires AllDigits(s)
    ensures Value(s) < Pow10(|s|)
  {
    if s != [] { ValueBound(s[..|s| - 1]); }
  }

  lemma TimesTen(v: nat, p: nat)
    ensures v * (10 * p) == 10 * (v * p)
  {
  }

  /** Reading a numeral in two parts. */
  lemma {:induction false} ValueOfConcat(a: string, b: string)
    requires AllDigits(a) && AllDigits(b)
    ensures Value(a + b) == Value(a) * Pow10(|b|) + Value(b)
  {
    if b == [] {
      assert a + b == a;
    } else {
      assert (a + b)[..|a + b| - 1] == a + b[..|b| - 1];
      ValueOfConcat(a, b[..|b| - 1]);
      TimesTen(Value(a), Pow10(|b| - 1));
    }
  }

  lemma LeadDecides(x: nat, y: nat, p: nat, u: nat, v: nat)
    requires x < y && u < p && v < p
    ensures x * p + u < y * p + v
  {
    assert (x + 1) * p <= y * p;
  }

  /** Equally long numerals are ordered as the numbers they name. */
  lemma {:induction false} LessIsNumeric(a: string, b: string)
    requires AllDigits(a) && AllDigits(b) && |a| == |b|
    ensures Less(a, b) <==> Value(a) < Value(b)
  {
    if a != [] {
      var x, y := a[0] as int - '0' as int, b[0] as int - '0' as int;
      assert a == a[..1] + a[1..] && b == b[..1] + b[1..];
      ValueOfConcat(a[..1], a[1..]);
      ValueOfConcat(b[..1], b[1..]);
      assert a[..1][..0] == [] && Value(a[..1]) == x && Value(b[..1]) == y;
      ValueBound(a[1..]);
      ValueBound(b[1..]);
      var p := Pow10(|a| - 1);
      if x < y {
        LeadDecides(x, y, p, Value(a[1..]), Value(b[1..]));
      } else if y < x {
        LeadDecides(y, x, p, Value(b[1..]), Value(a[1..]));
      } else {
        LessIsNumeric(a[1..], b[1..]);
      }
    }
  }

  lemma SameNumeral(a: string, b: string)
    requires AllDigits(a) && AllDigits(b) && |a| == |b| && Value(a) == Value(b)
    ensures a == b
  {
    LessIsNumeric(a, b);
    LessIsNumeric(b, a);
    if a != b { LessTotal(a, b); }
  }

  lemma {:induction false} DigitsShort(n: nat, k: nat)
    requires k > 0 && n < Pow10(k)
    ensures |Digits(n)| <= k
  {
    if n >= 10 {
      assert Pow10(k) == 10 * Pow10(k - 1) && Pow10(0) == 1;
      DigitsShort(n / 10, k - 1);
    }
  }

  lemma {:induction false} DigitsLong(n: nat)
    ensures |Digits(n)| > 1 ==> Pow10(|Digits(n)| - 1) <= n
  {
    if n >= 10 {
      DigitsLong(n / 10);
    }
  }
}

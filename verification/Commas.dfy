/** The two thousands-grouping routines: the command line's digit loop and the limit gate's recursion. */
module Commas {
  import opened Text
  import opened Decimal

  /** The limit gate's form: split off three digits at a time. */
  function Grouped(n: int): string
    decreases n < 0, if n < 0 then -n else n
  {
    if n < 0 then "-" + Grouped(-n)
    else if n < 1000 then Digits(n)
    else Grouped(n / 1000) + "," + Padded(3, n % 1000)
  }

  /** What the digit loop has written after its first i digits of s. */
  function Written(s: string, i: nat): string
    requires i <= |s|
  {
    if i == 0 then []
    else Written(s, i - 1) + (if i > 1 && (|s| - (i - 1)) % 3 == 0 then "," else "") + [s[i - 1]]
  }

  lemma ThreeDigits(m: nat)
    requires m < 1000
    ensures Padded(3, m) == [Digit(m / 100), Digit(m / 10 % 10), Digit(m % 10)]
  {
    if m < 10 {
      assert Zeros(2) == ['0'] + Zeros(1) && Zeros(1) == ['0'] + Zeros(0);
    } else if m < 100 {
      assert Digits(m) == [Digit(m / 10), Digit(m % 10)];
      assert Zeros(1) == ['0'] + Zeros(0);
    } else {
      assert Digits(m / 10) == [Digit(m / 100), Digit(m / 10 % 10)];
    }
  }

  lemma Thousands(n: nat)
    ensures n / 10 / 10 / 10 == n / 1000
    ensures n / 10 / 10 % 10 == n % 1000 / 100 && n / 10 % 10 == n % 1000 / 10 % 10 && n % 1000 % 10 == n % 10
  {
  }

  lemma DigitsOfTen(n: nat)
    requires n >= 10
    ensures Digits(n) == Digits(n / 10) + [Digit(n % 10)]
  {
  }

  lemma SplitThree(n: nat)
    requires n >= 1000
    ensures Digits(n) == Digits(n / 1000) + Padded(3, n % 1000)
  {
    var a, b := n / 10, n / 10 / 10;
    ThreeDigits(n % 1000);
    Thousands(n);
    DigitsOfTen(n);
    DigitsOfTen(a);
    DigitsOfTen(b);
  }

  /** Appending three digits leaves the commas written so far where they were. */
  lemma {:induction false} WrittenExtends(s: string, t: string, i: nat)
    requires i <= |s| && |t| == 3
    ensures Written(s + t, i) == Written(s, i)
  {
    if i > 0 { WrittenExtends(s, t, i - 1); }
  }

  lemma WrittenOneMore(s: string, i: nat)
    requires i < |s|
    ensures Written(s, i + 1) == Written(s, i) + (if i > 0 && (|s| - i) % 3 == 0 then "," else "") + [s[i]]
  {
  }

  lemma WrittenThreeMore(s: string, t: string)
    requires s != [] && |t| == 3
    ensures Written(s + t, |s| + 3) == Written(s, |s|) + "," + t
  {
    var u, n := s + t, |s|;
    WrittenExtends(s, t, n);
    WrittenOneMore(u, n);
    WrittenOneMore(u, n + 1);
    WrittenOneMore(u, n + 2);
    assert |u| - n == 3 && |u| - (n + 1) == 2 && |u| - (n + 2) == 1;
    Assemble(Written(s, n), Written(u, n + 1), Written(u, n + 2), Written(u, n + 3), t);
  }

  lemma Assemble(w0: string, w1: string, w2: string, w3: string, t: string)
    requires |t| == 3
    requires w1 == w0 + "," + [t[0]] && w2 == w1 + "" + [t[1]] && w3 == w2 + "" + [t[2]]
    ensures w3 == w0 + "," + t
  {
  }

  lemma ShortNumeral(n: nat)
    requires n < 1000
    ensures |Digits(n)| <= 3
  {
    assert Pow10(3) == 10 * Pow10(2) && Pow10(2) == 10 * Pow10(1) && Pow10(1) == 10 * Pow10(0);
    DigitsShort(n, 3);
  }

  lemma {:induction false} GroupedIsWritten(n: nat)
    ensures Grouped(n) == Written(Digits(n), |Digits(n)|)
  {
    if n < 1000 {
      ShortNumeral(n);
      ShortWritten(Digits(n), |Digits(n)|);
    } else {
      SplitThree(n);
      ThreeDigits(n % 1000);
      GroupedIsWritten(n / 1000);
      WrittenThreeMore(Digits(n / 1000), Padded(3, n % 1000));
    }
  }

  lemma {:induction false} ShortWritten(s: string, i: nat)
    requires i <= |s| <= 3
    ensures Written(s, i) == s[..i]
  {
    if i > 0 { ShortWritten(s, i - 1); }
  }

  /** The command line's form, which agrees with the limit gate's on every integer. */
  method CliCommas(n: int) returns (r: string)
    ensures r == Grouped(n)
  {
    var s := Itoa(n);
    var negative := s[0] == '-';
    if negative {
      s := s[1..];
    }
    var b := "";
    for i := 0 to |s|
      invariant b == Written(s, i)
    {
      if i > 0 && (|s| - i) % 3 == 0 {
        b := b + ",";
      }
      b := b + [s[i]];
    }
    GroupedIsWritten(if n < 0 then -n else n);
    assert n >= 0 ==> IsDigit(Digits(n)[0]);
    r := if negative then "-" + b else b;
  }

  function WithoutCommas(s: string): string
  {
    if s == [] then []
    else (if s[0] == ',' then [] else [s[0]]) + WithoutCommas(s[1..])
  }

  lemma {:induction false} WithoutCommasConcat(a: string, b: string)
    ensures WithoutCommas(a + b) == WithoutCommas(a) + WithoutCommas(b)
  {
    if a == [] {
      assert a + b == b;
    } else {
      assert (a + b)[1..] == a[1..] + b;
      WithoutCommasConcat(a[1..], b);
    }
  }

  lemma {:induction false} WithoutCommasOfDigits(s: string)
    requires AllDigits(s)
    ensures WithoutCommas(s) == s
  {
    if s != [] { WithoutCommasOfDigits(s[1..]); }
  }

  lemma {:induction false} UngroupNatural(n: nat)
    ensures WithoutCommas(Grouped(n)) == Digits(n)
  {
    if n < 1000 {
      WithoutCommasOfDigits(Digits(n));
    } else {
      var s, t := Grouped(n / 1000), Padded(3, n % 1000);
      UngroupNatural(n / 1000);
      WithoutCommasConcat(s + ",", t);
      WithoutCommasConcat(s, ",");
      WithoutCommasOfDigits(t);
      SplitThree(n);
    }
  }

  lemma AtoiOfItoa(n: int)
    ensures Atoi(Itoa(n)) == Some(n)
  {
    var d := Digits(if n < 0 then -n else n);
    ValueOfDigits(if n < 0 then -n else n);
    assert IsDigit(d[0]);
    assert ("-" + d)[1..] == d;
  }

  /** Deleting the commas and reading the digits gives the number back. */
  lemma Ungroup(n: int)
    ensures Atoi(WithoutCommas(Grouped(n))) == Some(n)
  {
    UngroupNatural(if n < 0 then -n else n);
    if n < 0 {
      WithoutCommasConcat("-", Grouped(-n));
      assert "-"[1..] == "";
    }
    AtoiOfItoa(n);
  }

  /** Where the commas stand: every fourth place counted from the right, and nowhere else. */
  predicate CommasEveryFourth(r: string)
  {
    r != [] && r[0] != ',' && forall k :: 0 <= k < |r| ==> (r[k] == ',' <==> (|r| - k) % 4 == 0)
  }

  lemma OneMoreGroup(s: string, t: string)
    requires CommasEveryFourth(s) && |t| == 3 && AllDigits(t)
    ensures CommasEveryFourth(s + "," + t)
  {
    var r := s + "," + t;
    forall k | 0 <= k < |r|
      ensures r[k] == ',' <==> (|r| - k) % 4 == 0
    {
      if k < |s| {
        assert r[k] == s[k] && |r| - k == |s| - k + 4;
      } else if k > |s| {
        assert r[k] == t[k - |s| - 1];
      }
    }
  }

  lemma {:induction false} CommaPlaces(n: nat)
    ensures CommasEveryFourth(Grouped(n))
  {
    if n < 1000 {
      ShortNumeral(n);
      assert forall k :: 0 <= k < |Digits(n)| ==> IsDigit(Digits(n)[k]);
    } else {
      CommaPlaces(n / 1000);
      ThreeDigits(n % 1000);
      OneMoreGroup(Grouped(n / 1000), Padded(3, n % 1000));
    }
  }
}

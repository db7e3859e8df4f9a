/** Zero-padded names: when their lexical order is the numeric order. */
module Ordering {
  import opened Text
  import opened Decimal
  import opened Sorting

  lemma {:induction false} Pow10Grows(j: nat, k: nat)
    requires j <= k
    ensures Pow10(j) <= Pow10(k)
  {
    if j < k { Pow10Grows(j, k - 1); }
  }

  lemma PaddedGrows(w: nat, a: nat, b: nat)
    requires a < b
    ensures |Padded(w, a)| <= |Padded(w, b)|
  {
    if |Digits(a)| > |Digits(b)| {
      DigitsLong(a);
      ValueBound(Digits(b));
      ValueOfDigits(b);
      Pow10Grows(|Digits(b)|, |Digits(a)| - 1);
      assert false;
    }
  }

  lemma QuotientDecides(a: nat, q: nat, r: nat, p: nat)
    requires r < p
    ensures a <= q <==> a * p <= q * p + r
  {
    if a <= q {
      assert a * p <= q * p;
    } else {
      assert a * p >= (q + 1) * p;
    }
  }

  lemma LessInParts(p: string, q: string, a: string, b: string)
    requires |p| == |q|
    ensures Less(p + a, q + b) <==> Less(p, q) || (p == q && Less(a, b))
  {
    LessIrreflexive(p);
    if p == q { LessAfterPrefix(p, a, b); } else { LessByHead(p, q, a, b); }
  }

  /** How much longer the numeral of b is. */
  function Widening(w: nat, a: nat, b: nat): nat
    requires a < b
  {
    PaddedGrows(w, a, b);
    |Padded(w, b)| - |Padded(w, a)|
  }

  /** The head of the longer numeral decides; when it equals the shorter one, a digit beats what follows that. */
  lemma HeadDecides(p: string, q: string, x: string, y: string)
    requires AllDigits(p) && AllDigits(q) && |p| <= |q| && p != q && (x == [] || x[0] == '-')
    ensures Less(p + x, q + y) <==> Value(p) <= Value(q[..|p|])
  {
    var head, rest := q[..|p|], q[|p|..];
    assert q == head + rest && q + y == head + (rest + y);
    LessInParts(p, head, x, rest + y);
    LessIsNumeric(p, head);
    if Value(p) == Value(head) {
      SameNumeral(p, head);
      assert rest == [] ==> q == head;
      assert IsDigit(q[|p|]) && (rest + y)[0] == q[|p|];
    }
  }

  /**
   * Names that start with padded numbers are in numeric order exactly when the smaller number, scaled
   * to the width of the larger, does not exceed it.
   */
  lemma PaddedOrder(w: nat, a: nat, b: nat, x: string, y: string)
    requires a < b && (x == [] || x[0] == '-')
    ensures Less(Padded(w, a) + x, Padded(w, b) + y) <==> a * Pow10(Widening(w, a, b)) <= b
  {
    var p, q, d := Padded(w, a), Padded(w, b), Widening(w, a, b);
    var head, rest := q[..|p|], q[|p|..];
    assert q == head + rest;
    AtoiOfPadded(w, a);
    AtoiOfPadded(w, b);
    ValueOfConcat(head, rest);
    ValueBound(rest);
    QuotientDecides(a, Value(head), Value(rest), Pow10(d));
    HeadDecides(p, q, x, y);
  }

  lemma FourDigits(n: nat)
    requires n <= 9999
    ensures |Padded(4, n)| == 4
  {
    assert Pow10(4) == 10 * (10 * (10 * (10 * Pow10(0))));
    DigitsShort(n, 4);
  }

  // ----- Attempt ids -----

  /** The last of a ticket's ids in lexical order. */
  function Latest(ids: seq<string>): Option<string>
  {
    if ids == [] then None else Some(ids[|ids| - 1])
  }

  function Ids(numbers: set<nat>): set<string>
  {
    set n | n in numbers :: Padded(4, n)
  }

  ghost predicate Listing(ids: seq<string>, numbers: set<nat>)
  {
    Ascending(ids) && forall s :: s in ids <==> s in Ids(numbers)
  }

  lemma LastIsGreatest(ids: seq<string>, s: string)
    requires Ascending(ids) && s in ids
    ensures Latest(ids) == Some(s) <==> forall t :: t in ids && t != s ==> Less(t, s)
  {
    var last := ids[|ids| - 1];
    var i :| 0 <= i < |ids| && ids[i] == s;
    if last != s {
      assert Less(s, last) && last in ids;
      LessAsymmetric(s, last);
    }
  }

  /** With automatic ids only, the last one is the newest exactly when every older number, widened, stays below it. */
  lemma LatestIsNewest(ids: seq<string>, numbers: set<nat>, newest: nat)
    requires Listing(ids, numbers) && newest in numbers && forall n :: n in numbers ==> n <= newest
    ensures Latest(ids) == Some(Padded(4, newest))
       <==> forall n :: n in numbers && n < newest ==> n * Pow10(Widening(4, n, newest)) <= newest
  {
    var top := Padded(4, newest);
    assert top in Ids(numbers);
    LastIsGreatest(ids, top);
    forall n | n in numbers && n < newest
      ensures Less(Padded(4, n), top) <==> n * Pow10(Widening(4, n, newest)) <= newest
      ensures Padded(4, n) != top && Padded(4, n) in ids
    {
      PaddedOrder(4, n, newest, [], []);
      assert Padded(4, n) + [] == Padded(4, n) && top + [] == top;
      if Padded(4, n) == top { PaddedInjective(4, n, newest); }
      assert Padded(4, n) in Ids(numbers);
    }
    if forall n :: n in numbers && n < newest ==> n * Pow10(Widening(4, n, newest)) <= newest {
      forall t | t in ids && t != top ensures Less(t, top) {
        assert t in Ids(numbers);
        var n :| n in numbers && t == Padded(4, n);
      }
    }
  }

  lemma LatestUpTo9999(ids: seq<string>, numbers: set<nat>, newest: nat)
    requires Listing(ids, numbers) && newest in numbers && forall n :: n in numbers ==> n <= newest <= 9999
    ensures Latest(ids) == Some(Padded(4, newest))
  {
    LatestIsNewest(ids, numbers, newest);
    forall n | n in numbers && n < newest ensures n * Pow10(Widening(4, n, newest)) <= newest {
      FourDigits(n);
      FourDigits(newest);
    }
  }

  /** From 10000 on the fifth digit breaks the order. */
  lemma LatestMissesTenThousand(ids: seq<string>)
    requires Listing(ids, {9999, 10000})
    ensures Latest(ids) != Some(Padded(4, 10000))
  {
    LatestIsNewest(ids, {9999, 10000}, 10000);
    FourDigits(9999);
    assert |Digits(10000)| == 5 by {
      assert |Digits(1)| == 1 && |Digits(10)| == 2 && |Digits(100)| == 3 && |Digits(1000)| == 4;
    }
    assert Widening(4, 9999, 10000) == 1 && Pow10(1) == 10;
  }

  // ----- Event file names -----

  /** A UTC time of the years 0 to 9999, to the second. */
  datatype Stamp = Stamp(year: nat, month: nat, day: nat, hour: nat, minute: nat, second: nat)
  {
    predicate Valid()
    {
      year <= 9999 && month <= 12 && day <= 31 && hour <= 23 && minute <= 59 && second <= 59
    }

    predicate Before(o: Stamp)
    {
      year < o.year || (year == o.year && (
      month < o.month || (month == o.month && (
      day < o.day || (day == o.day && (
      hour < o.hour || (hour == o.hour && (
      minute < o.minute || (minute == o.minute && second < o.second)))))))))
    }
  }

  function Clock(t: Stamp): string
  {
    "T" + (Padded(2, t.hour) + (Padded(2, t.minute) + (Padded(2, t.second) + "Z")))
  }

  function StampText(t: Stamp): string
  {
    Padded(4, t.year) + (Padded(2, t.month) + (Padded(2, t.day) + Clock(t)))
  }

  function Filename(t: Stamp, number: nat, kind: string): string
  {
    StampText(t) + "-" + Padded(4, number) + "-" + kind + ".md"
  }

  lemma TwoDigits(n: nat)
    requires n <= 99
    ensures |Padded(2, n)| == 2
  {
    assert Pow10(2) == 10 * (10 * Pow10(0));
    DigitsShort(n, 2);
  }

  /** One fixed-width field decides the order, or leaves it to what follows. */
  lemma FieldOrder(w: nat, a: nat, b: nat, x: string, y: string)
    requires |Padded(w, a)| == |Padded(w, b)|
    ensures Less(Padded(w, a) + x, Padded(w, b) + y) <==> a < b || (a == b && Less(x, y))
  {
    AtoiOfPadded(w, a);
    AtoiOfPadded(w, b);
    LessIsNumeric(Padded(w, a), Padded(w, b));
    LessInParts(Padded(w, a), Padded(w, b), x, y);
  }

  lemma PairOrder(a: nat, b: nat, x: string, y: string)
    requires a <= 99 && b <= 99
    ensures Less(Padded(2, a) + x, Padded(2, b) + y) <==> a < b || (a == b && Less(x, y))
  {
    TwoDigits(a);
    TwoDigits(b);
    FieldOrder(2, a, b, x, y);
  }

  lemma ClockOrder(t: Stamp, u: Stamp, x: string, y: string)
    requires t.Valid() && u.Valid()
    ensures Less(Clock(t) + x, Clock(u) + y) <==>
      t.hour < u.hour || (t.hour == u.hour && (
      t.minute < u.minute || (t.minute == u.minute && (
      t.second < u.second || (t.second == u.second && Less(x, y))))))
  {
    var s1, s2 := Padded(2, t.second) + ("Z" + x), Padded(2, u.second) + ("Z" + y);
    var m1, m2 := Padded(2, t.minute) + s1, Padded(2, u.minute) + s2;
    var h1, h2 := Padded(2, t.hour) + m1, Padded(2, u.hour) + m2;
    LessAfterPrefix("Z", x, y);
    PairOrder(t.second, u.second, "Z" + x, "Z" + y);
    PairOrder(t.minute, u.minute, s1, s2);
    PairOrder(t.hour, u.hour, m1, m2);
    LessAfterPrefix("T", h1, h2);
    ClockText(t, x);
    ClockText(u, y);
  }

  lemma ClockText(t: Stamp, x: string)
    ensures Clock(t) + x == "T" + (Padded(2, t.hour) + (Padded(2, t.minute) + (Padded(2, t.second) + ("Z" + x))))
  {
    Nested("T", Padded(2, t.hour), Padded(2, t.minute), Padded(2, t.second) + "Z", x);
    assert Padded(2, t.second) + "Z" + x == Padded(2, t.second) + ("Z" + x);
  }

  lemma DateOrder(t: Stamp, u: Stamp, x: string, y: string)
    requires t.Valid() && u.Valid()
    ensures Less(Padded(4, t.year) + (Padded(2, t.month) + (Padded(2, t.day) + x)),
                 Padded(4, u.year) + (Padded(2, u.month) + (Padded(2, u.day) + y))) <==>
      t.year < u.year || (t.year == u.year && (
      t.month < u.month || (t.month == u.month && (
      t.day < u.day || (t.day == u.day && Less(x, y))))))
  {
    var d1, d2 := Padded(2, t.day) + x, Padded(2, u.day) + y;
    PairOrder(t.day, u.day, x, y);
    PairOrder(t.month, u.month, d1, d2);
    FourDigits(t.year);
    FourDigits(u.year);
    FieldOrder(4, t.year, u.year, Padded(2, t.month) + d1, Padded(2, u.month) + d2);
  }

  lemma Nested(a: string, b: string, c: string, d: string, x: string)
    ensures a + (b + (c + d)) + x == a + (b + (c + (d + x)))
  {
    assert a + (b + (c + d)) + x == a + (b + (c + d) + x);
    assert b + (c + d) + x == b + (c + d + x);
    assert c + d + x == c + (d + x);
  }

  lemma StampOrder(t: Stamp, u: Stamp, x: string, y: string)
    requires t.Valid() && u.Valid()
    ensures Less(StampText(t) + x, StampText(u) + y) <==> t.Before(u) || (t == u && Less(x, y))
  {
    Nested(Padded(4, t.year), Padded(2, t.month), Padded(2, t.day), Clock(t), x);
    Nested(Padded(4, u.year), Padded(2, u.month), Padded(2, u.day), Clock(u), y);
    DateOrder(t, u, Clock(t) + x, Clock(u) + y);
    ClockOrder(t, u, x, y);
  }

  lemma Dashed(s: string, n: string, k: string)
    ensures s + "-" + n + "-" + k + ".md" == s + ("-" + (n + ("-" + k + ".md")))
  {
  }

  /** The exact order of two event files with different sequence numbers. */
  lemma FilenameOrder(t: Stamp, a: nat, k: string, u: Stamp, b: nat, l: string)
    requires t.Valid() && u.Valid() && a < b
    ensures Less(Filename(t, a, k), Filename(u, b, l))
       <==> t.Before(u) || (t == u && a * Pow10(Widening(4, a, b)) <= b)
  {
    var x, y := Padded(4, a) + ("-" + k + ".md"), Padded(4, b) + ("-" + l + ".md");
    Dashed(StampText(t), Padded(4, a), k);
    Dashed(StampText(u), Padded(4, b), l);
    StampOrder(t, u, "-" + x, "-" + y);
    LessAfterPrefix("-", x, y);
    PaddedOrder(4, a, b, "-" + k + ".md", "-" + l + ".md");
  }

  lemma DashEnds(p: string, q: string, x: string, y: string)
    requires AllDigits(p) && AllDigits(q) && p + ("-" + x) == q + ("-" + y)
    ensures p == q && x == y
  {
    var s, t := p + ("-" + x), q + ("-" + y);
    forall i | 0 <= i < |p| ensures s[i] != '-' { assert s[i] == p[i]; }
    forall i | 0 <= i < |q| ensures t[i] != '-' { assert t[i] == q[i]; }
    assert s[|p|] == '-' && t[|q|] == '-';
    assert s[..|p|] == p && t[..|q|] == q && s[|p| + 1..] == x && t[|q| + 1..] == y;
  }

  lemma StampWidth(t: Stamp)
    requires t.Valid()
    ensures |StampText(t)| == 16
  {
    FourDigits(t.year);
    TwoDigits(t.month);
    TwoDigits(t.day);
    TwoDigits(t.hour);
    TwoDigits(t.minute);
    TwoDigits(t.second);
  }

  lemma StampsDiffer(t: Stamp, u: Stamp, x: string, y: string)
    requires t.Valid() && u.Valid() && StampText(t) + x == StampText(u) + y
    ensures t == u && x == y
  {
    StampWidth(t);
    StampWidth(u);
    assert (StampText(t) + x)[..16] == StampText(t) && (StampText(u) + y)[..16] == StampText(u);
    assert (StampText(t) + x)[16..] == x && (StampText(u) + y)[16..] == y;
    StampOrder(t, u, x, y);
    StampOrder(u, t, y, x);
    LessIrreflexive(StampText(t) + x);
    OneOrTheOther(t, u);
  }

  /** What follows the time in a name. */
  function Numbered(number: nat, kind: string): string
  {
    Padded(4, number) + ("-" + (kind + ".md"))
  }

  lemma NameInParts(t: Stamp, number: nat, kind: string)
    ensures Filename(t, number, kind) == StampText(t) + ("-" + Numbered(number, kind))
  {
    Dashed(StampText(t), Padded(4, number), kind);
    assert "-" + kind + ".md" == "-" + (kind + ".md");
  }

  lemma NumberedInjective(a: nat, k: string, b: nat, l: string)
    requires Numbered(a, k) == Numbered(b, l)
    ensures a == b && k == l
  {
    var x, y := k + ".md", l + ".md";
    AtoiOfPadded(4, a);
    AtoiOfPadded(4, b);
    DashEnds(Padded(4, a), Padded(4, b), x, y);
    assert x[..|x| - 3] == k && y[..|y| - 3] == l;
  }

  /** A file name tells the second, the number and the type of its event. */
  lemma FilenameInjective(t: Stamp, a: nat, k: string, u: Stamp, b: nat, l: string)
    requires t.Valid() && u.Valid() && Filename(t, a, k) == Filename(u, b, l)
    ensures t == u && a == b && k == l
  {
    NameInParts(t, a, k);
    NameInParts(u, b, l);
    var x, y := "-" + Numbered(a, k), "-" + Numbered(b, l);
    StampsDiffer(t, u, x, y);
    assert x[1..] == Numbered(a, k) && y[1..] == Numbered(b, l);
    NumberedInjective(a, k, b, l);
  }

  datatype Entry = Entry(at: Stamp, number: nat, kind: string)

  predicate InTime(a: Entry, b: Entry)
  {
    a.number < b.number && !b.at.Before(a.at)
  }

  predicate Nameable(e: Entry)
  {
    e.at.Valid() && e.number <= 9999
  }

  lemma OneOrTheOther(t: Stamp, u: Stamp)
    ensures t.Before(u) || t == u || u.Before(t)
  {
  }

  lemma SameWidth(a: nat, b: nat)
    requires a < b <= 9999
    ensures a * Pow10(Widening(4, a, b)) <= b
  {
    FourDigits(a);
    FourDigits(b);
    assert Widening(4, a, b) == 0 && Pow10(0) == 1;
  }

  lemma PairSorts(a: Entry, b: Entry)
    requires Nameable(a) && Nameable(b) && InTime(a, b)
    ensures Less(Filename(a.at, a.number, a.kind), Filename(b.at, b.number, b.kind))
  {
    SameWidth(a.number, b.number);
    FilenameOrder(a.at, a.number, a.kind, b.at, b.number, b.kind);
    OneOrTheOther(a.at, b.at);
  }

  function Filenames(log: seq<Entry>): seq<string>
  {
    seq(|log|, i requires 0 <= i < |log| => Filename(log[i].at, log[i].number, log[i].kind))
  }

  /** Event files list in sequence order when time does not run backwards and the numbers have four digits. */
  lemma FilesSortCausally(log: seq<Entry>)
    requires forall i :: 0 <= i < |log| ==> Nameable(log[i])
    requires forall i, j :: 0 <= i < j < |log| ==> InTime(log[i], log[j])
    ensures Ascending(Filenames(log))
  {
    forall i, j | 0 <= i < j < |log| ensures Less(Filenames(log)[i], Filenames(log)[j]) {
      PairSorts(log[i], log[j]);
    }
  }
}

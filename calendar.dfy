/** Python's `datetime.date` as far as the parsers use it: the validity check
    that makes the constructor raise, the ordering, and the dotted
    `DD.MM.YYYY` text form. */
module Calendar {
  import opened Text
  import opened Patterns

  /** A calendar date: year, month, day. */
  datatype Date = Date(year: int, month: int, day: int)

  predicate IsLeap(y: int) { y % 4 == 0 && (y % 100 != 0 || y % 400 == 0) }

  function DaysInMonth(y: int, m: int): (n: int)
    requires 1 <= m <= 12
    ensures 28 <= n <= 31
    ensures n == 29 <==> m == 2 && IsLeap(y)
  {
    if m == 2 then (if IsLeap(y) then 29 else 28)
    else if m == 4 || m == 6 || m == 9 || m == 11 then 30
    else 31
  }

  /** `date(year, month, day)` succeeds. */
  predicate Valid(d: Date) {
    1 <= d.year <= 9999 && 1 <= d.month <= 12 && 1 <= d.day <= DaysInMonth(d.year, d.month)
  }

  /** Day and month below 100 and year below 10000: what fits the dotted form. */
  predicate InRange(d: Date) {
    0 <= d.day < 100 && 0 <= d.month < 100 && 0 <= d.year < 10000
  }

  /** `a < b` on dates: by year, then month, then day. */
  predicate Before(a: Date, b: Date) {
    a.year < b.year
    || (a.year == b.year && (a.month < b.month || (a.month == b.month && a.day < b.day)))
  }

  /** The date order is a strict total order. */
  lemma BeforeOrder(a: Date, b: Date, c: Date)
    ensures !Before(a, a)
    ensures Before(a, b) ==> !Before(b, a)
    ensures Before(a, b) && Before(b, c) ==> Before(a, c)
    ensures a == b || Before(a, b) || Before(b, a)
  {
  }

  /** Day, month and year zero-padded to two, two and four digits and joined
      by dots: `f"{dd:02d}.{mm:02d}.{yyyy:04d}"`, which is also
      `d.strftime("%d.%m.%Y")` for a real date of a four-digit year. */
  function Format(d: Date): (s: string)
    requires InRange(d)
    ensures DottedShape(s)
  {
    var s := Pad2(d.day) + "." + Pad2(d.month) + "." + Pad4(d.year);
    assert forall i :: 0 <= i < 2 ==> s[i] == Pad2(d.day)[i] && s[3 + i] == Pad2(d.month)[i];
    assert forall i :: 0 <= i < 4 ==> s[6 + i] == Pad4(d.year)[i];
    s
  }

  /** The day, month and year a `DD.MM.YYYY` string spells, before any validity check. */
  function Spelled(s: string): (d: Date)
    requires DottedShape(s)
    ensures 0 <= d.day < 100 && 0 <= d.month < 100 && 0 <= d.year < 10000
  {
    DigitsSlice(s, 0, 2);
    DigitsSlice(s, 3, 5);
    DigitsSlice(s, 6, 10);
    NumberBound(s[0..2]);
    NumberBound(s[3..5]);
    NumberBound(s[6..10]);
    Date(Number(s[6..10]), Number(s[3..5]), Number(s[0..2]))
  }

  lemma DigitsSlice(s: string, i: nat, j: nat)
    requires i <= j <= |s| && DigitsAt(s, i, j - i)
    ensures forall k :: 0 <= k < j - i ==> IsDigit(s[i..j][k])
  {
  }

  /** A string of `n` digits spells a number below `10^n`. */
  lemma {:induction false} NumberBound(s: string)
    requires forall i :: 0 <= i < |s| ==> IsDigit(s[i])
    ensures Number(s) < Power10(|s|)
  {
    if s != [] {
      NumberBound(s[..|s| - 1]);
    }
  }

  function Power10(n: nat): (p: nat)
    ensures p >= 1
  {
    if n == 0 then 1 else 10 * Power10(n - 1)
  }

  /** Formatting then reading back gives the same date. */
  lemma SpelledFormat(d: Date)
    requires InRange(d)
    ensures Spelled(Format(d)) == d
  {
    var s := Format(d);
    assert s[0..2] == Pad2(d.day);
    assert s[3..5] == Pad2(d.month);
    assert s[6..10] == Pad4(d.year);
  }

  /** Reading a dotted string then formatting it gives the string back. */
  lemma FormatSpelled(s: string)
    requires DottedShape(s)
    ensures Format(Spelled(s)) == s
  {
    var d := Spelled(s);
    DigitsSlice(s, 0, 2);
    DigitsSlice(s, 3, 5);
    DigitsSlice(s, 6, 10);
    Pad2Number(s[0..2]);
    Pad2Number(s[3..5]);
    Pad4Number(s[6..10]);
    var f := Format(d);
    assert f == s[0..2] + "." + s[3..5] + "." + s[6..10];
    assert s == s[0..2] + "." + s[3..5] + "." + s[6..10];
  }

  lemma Pad2Number(s: string)
    requires |s| == 2 && forall i :: 0 <= i < 2 ==> IsDigit(s[i])
    ensures Number(s) < 100 && Pad2(Number(s)) == s
  {
    assert s[..1][..0] == [];
    NumberBound(s);
    var r := Pad2(Number(s));
    DigitsInjective(r, s);
  }

  lemma Pad4Number(s: string)
    requires |s| == 4 && forall i :: 0 <= i < 4 ==> IsDigit(s[i])
    ensures Number(s) < 10000 && Pad4(Number(s)) == s
  {
    NumberBound(s);
    DigitsInjective(Pad4(Number(s)), s);
  }

  /** Two digit strings of one length that spell the same number are equal. */
  lemma {:induction false} DigitsInjective(a: string, b: string)
    requires |a| == |b|
    requires forall i :: 0 <= i < |a| ==> IsDigit(a[i]) && IsDigit(b[i])
    requires Number(a) == Number(b)
    ensures a == b
  {
    if a != [] {
      var n := |a| - 1;
      assert DigitValue(a[n]) == Number(a) % 10 == DigitValue(b[n]);
      assert Number(a[..n]) == Number(a) / 10 == Number(b[..n]);
      DigitsInjective(a[..n], b[..n]);
      assert a == a[..n] + [a[n]] && b == b[..n] + [b[n]];
    }
  }
}

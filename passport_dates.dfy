/** The date readings of the passport parser: eight digits `DDMMYYYY`, the
    six MRZ digits `YYMMDD`, and the any-format picker that tries a dotted
    date, a date spaced into three groups and eight digits, in that order.
    Both digit readings check the day and month loosely: 29 February is
    accepted in any year. */
module PassportDates {
  import opened Wrappers
  import opened Text
  import opened Patterns
  import opened Calendar
  import IdMrz

  /** The loose check of both readings: a month from 1 to 12, a day from 1
      to 31, at most 30 days in April, June, September and November and at
      most 29 in February. */
  predicate Plausible(d: Date) {
    1 <= d.month <= 12 && 1 <= d.day <= 31
    && (d.month == 4 || d.month == 6 || d.month == 9 || d.month == 11 ==> d.day <= 30)
    && (d.month == 2 ==> d.day <= 29)
  }

  /** Every real date passes the loose check, and the only dates that pass
      it without being real are 29 February of common years. */
  lemma PlausibleAlmostValid(d: Date)
    requires 1 <= d.year <= 9999
    ensures Valid(d) ==> Plausible(d)
    ensures Plausible(d) && !Valid(d) <==> d.month == 2 && d.day == 29 && !IsLeap(d.year)
  {
  }

  // ------------------------------------------------------------ DDMMYYYY

  /** The date eight digits `DDMMYYYY` spell, before any check. */
  function Spelled8(s: string): (d: Date)
    requires |s| == 8 && AllDigits(s)
    ensures InRange(d)
  {
    DigitsSlice(s, 0, 2);
    DigitsSlice(s, 2, 4);
    DigitsSlice(s, 4, 8);
    NumberBound(s[0..2]);
    NumberBound(s[2..4]);
    NumberBound(s[4..8]);
    Date(Number(s[4..8]), Number(s[2..4]), Number(s[0..2]))
  }

  /** `to_ddmmyyyy_from_ddmmyyyy8`: exactly eight digits, a year from 1900 to
      2100 and a plausible day and month, written `DD.MM.YYYY`. */
  function FromDdmmyyyy8(s: string): (r: Option<string>)
    ensures r.Some? ==> DottedShape(r.value)
  {
    if |s| == 8 && AllDigits(s) && 1900 <= Spelled8(s).year <= 2100 && Plausible(Spelled8(s))
    then Some(Format(Spelled8(s)))
    else None
  }

  /** The eight digits `DDMMYYYY` of a date. */
  function Digits8(d: Date): (s: string)
    requires InRange(d)
    ensures |s| == 8 && AllDigits(s)
  {
    Pad2(d.day) + Pad2(d.month) + Pad4(d.year)
  }

  lemma Spelled8Digits8(d: Date)
    requires InRange(d)
    ensures Spelled8(Digits8(d)) == d
  {
    var s := Digits8(d);
    assert s[0..2] == Pad2(d.day);
    assert s[2..4] == Pad2(d.month);
    assert s[4..8] == Pad4(d.year);
  }

  /** An accepted reading only inserts the two dots: the digits come out as
      they went in. */
  lemma FromDdmmyyyy8Digits(s: string)
    requires FromDdmmyyyy8(s).Some?
    ensures FromDdmmyyyy8(s).value == s[0..2] + "." + s[2..4] + "." + s[4..8]
  {
    DigitsSlice(s, 0, 2);
    DigitsSlice(s, 2, 4);
    DigitsSlice(s, 4, 8);
    Pad2Number(s[0..2]);
    Pad2Number(s[2..4]);
    Pad4Number(s[4..8]);
  }

  /** Writing a plausible date of 1900-2100 as eight digits and reading them
      back gives the date; any other date is refused. */
  lemma FromDdmmyyyy8RoundTrip(d: Date)
    requires InRange(d)
    ensures FromDdmmyyyy8(Digits8(d)) ==
              if 1900 <= d.year <= 2100 && Plausible(d) then Some(Format(d)) else None
  {
    Spelled8Digits8(d);
  }

  /** 29 February is accepted in a common year. */
  lemma LooseLeapDay()
    ensures FromDdmmyyyy8(Digits8(Date(2023, 2, 29))) == Some(Format(Date(2023, 2, 29)))
    ensures !Valid(Date(2023, 2, 29))
  {
    FromDdmmyyyy8RoundTrip(Date(2023, 2, 29));
  }

  // -------------------------------------------------------------- YYMMDD

  /** The year two MRZ digits name: `50`-`99` are 1950-1999, `00`-`49` are 2000-2049. */
  function MrzYear(yy: nat): nat { if yy >= 50 then 1900 + yy else 2000 + yy }

  /** The date six digits `YYMMDD` name, before any check. */
  function Spelled6(s: string): (d: Date)
    requires |s| == 6 && AllDigits(s)
    ensures InRange(d) && 1950 <= d.year <= 2049
  {
    DigitsSlice(s, 0, 2);
    DigitsSlice(s, 2, 4);
    DigitsSlice(s, 4, 6);
    NumberBound(s[0..2]);
    NumberBound(s[2..4]);
    NumberBound(s[4..6]);
    Date(MrzYear(Number(s[0..2])), Number(s[2..4]), Number(s[4..6]))
  }

  /** `to_ddmmyyyy_from_mrz_yymmdd` with its pivot of 50: the trimmed text
      must be six digits naming a plausible day and month. */
  function FromMrzYymmdd(t: string): (r: Option<string>)
    ensures r.Some? ==> DottedShape(r.value) && 1950 <= Spelled(r.value).year <= 2049
  {
    var u := Strip(t);
    if |u| == 6 && AllDigits(u) && Plausible(Spelled6(u)) then
      SpelledFormat(Spelled6(u));
      Some(Format(Spelled6(u)))
    else None
  }

  /** The six MRZ digits of a date of 1950-2049. */
  function Digits6(d: Date): (s: string)
    requires InRange(d) && 1950 <= d.year <= 2049
    ensures |s| == 6 && AllDigits(s)
  {
    IdMrz.Digits6(d.year % 100, d.month, d.day)
  }

  /** Every plausible date of the window 1950-2049 survives the trip
      through `YYMMDD`, and an implausible one is refused. */
  lemma FromMrzYymmddRoundTrip(d: Date)
    requires InRange(d) && 1950 <= d.year <= 2049
    ensures FromMrzYymmdd(Digits6(d)) == if Plausible(d) then Some(Format(d)) else None
  {
    var s := Digits6(d);
    var yy := d.year % 100;
    assert s[0..2] == Pad2(yy);
    assert s[2..4] == Pad2(d.month);
    assert s[4..6] == Pad2(d.day);
    assert MrzYear(yy) == d.year by {
      if d.year >= 2000 {
        assert yy == d.year - 2000;
      } else {
        assert yy == d.year - 1900;
      }
    }
    assert Spelled6(s) == d;
    StripOfStripped(s);
  }

  /** The two parsers read the same MRZ year differently: `50` is 1950 for
      a passport and 2050 for an ID card. */
  lemma PivotDiffers()
    ensures FromMrzYymmdd(IdMrz.Digits6(50, 1, 1)) == Some(Format(Date(1950, 1, 1)))
    ensures IdMrz.YymmddToDdmmyyyy(IdMrz.Digits6(50, 1, 1)) == Some(Format(Date(2050, 1, 1)))
  {
    assert Digits6(Date(1950, 1, 1)) == IdMrz.Digits6(50, 1, 1);
    FromMrzYymmddRoundTrip(Date(1950, 1, 1));
    assert IdMrz.Yymmdd(Date(2050, 1, 1)) == IdMrz.Digits6(50, 1, 1);
    IdMrz.YymmddRoundTrip(Date(2050, 1, 1));
  }

  // ---------------------------------------------------------- any format

  /** `_digits8_from_token`: the digits of the token, when there are exactly eight. */
  function Digits8FromToken(t: string): (r: Option<string>)
    ensures r.Some? ==> |r.value| == 8 && AllDigits(r.value)
  {
    var d := Filter(t, IsDigit);
    assert forall i :: 0 <= i < |d| ==> d[i] in d;
    if |d| == 8 then Some(d) else None
  }

  /** The three groups of the spaced date matched at `p`, joined by dots. */
  function SpacedGroups(t: string, p: nat): (r: string)
    requires SpacedDateEnd(t, p).Some?
    ensures DottedShape(r)
  {
    var q1 := SkipSpaces(t, p + 2);
    var q2 := SkipSpaces(t, q1 + 2);
    var dd, mm, yyyy := t[p..p + 2], t[q1..q1 + 2], t[q2..q2 + 4];
    var r := dd + "." + mm + "." + yyyy;
    assert forall i :: 0 <= i < 2 ==> r[i] == dd[i] && r[3 + i] == mm[i];
    assert forall i :: 0 <= i < 4 ==> r[6 + i] == yyyy[i];
    r
  }

  /** `pick_date_any_format`: in the trimmed token, the first dotted date as
      it is written, else the first spaced date with its groups joined by
      dots, else the token's digits when there are eight of them and they
      read as `DDMMYYYY`.  The dotted date is not checked. */
  function PickDateAnyFormat(token: string): (r: Option<string>)
    ensures r.Some? ==> DottedShape(r.value)
  {
    var t := Strip(token);
    if Find(DottedDate, t).Some? then
      FindShape(DottedDate, t);
      Find(DottedDate, t)
    else match Search(SpacedDate, t)
      case Some((p, _)) => Some(SpacedGroups(t, p))
      case None =>
        match Digits8FromToken(t)
        case Some(d8) => FromDdmmyyyy8(d8)
        case None => None
  }

  /** A dotted date is picked as it stands, real or not. */
  lemma PickDotted(d: string)
    requires DottedShape(d)
    ensures PickDateAnyFormat(d) == Some(d)
  {
    StripOfStripped(d);
    FindDottedWhole(d);
  }

  /** Picking from a picked date gives it back. */
  lemma PickIdempotent(t: string)
    requires PickDateAnyFormat(t).Some?
    ensures PickDateAnyFormat(PickDateAnyFormat(t).value) == PickDateAnyFormat(t)
  {
    PickDotted(PickDateAnyFormat(t).value);
  }

  /** `99.99.9999` is picked: the dotted form is never checked. */
  lemma PickUnchecked()
    ensures PickDateAnyFormat("99.99.9999") == Some("99.99.9999")
  {
    PickDotted("99.99.9999");
  }

  /** A token of eight digits holds no dotted and no spaced date, so it is
      read as `DDMMYYYY`. */
  lemma PickEightDigits(d: Date)
    requires InRange(d)
    ensures PickDateAnyFormat(Digits8(d)) ==
              if 1900 <= d.year <= 2100 && Plausible(d) then Some(Format(d)) else None
  {
    var s := Digits8(d);
    StripOfStripped(s);
    NoDateInDigits(s);
    FilterKeepsAll(s, IsDigit);
    FromDdmmyyyy8RoundTrip(d);
  }

  /** Neither date pattern matches anywhere in a string of digits. */
  lemma NoDateInDigits(s: string)
    requires AllDigits(s)
    ensures Search(DottedDate, s).None? && Search(SpacedDate, s).None?
  {
    forall q: nat | q < |s| ensures MatchEnd(DottedDate, s, q).None? {
      if q + 2 < |s| {
        assert IsDigit(s[q + 2]);
      }
    }
    forall q: nat | q < |s| ensures MatchEnd(SpacedDate, s, q).None? {
      if q + 2 < |s| {
        assert !IsSpace(s[q + 2]);
      }
    }
  }
}

/** The machine-readable zone of the ID card: finding its three 30-character
    lines among the OCR tokens (or taking them from the QR payload), the ICAO
    check digit, the two-digit-year dates, and decoding the lines into fields. */
module IdMrz {
  import opened Wrappers
  import opened Text
  import opened Patterns
  import opened Calendar
  import opened Fields
  import opened Utils

  // ---------------------------------------------------------------- reading

  /** The characters OCR reads where a `<` filler was printed. */
  const ChevronLike: seq<char> := ['\U{AB}', '\U{2039}', '\U{203A}', '(', ')']

  function ChevronChar(c: char): char { if c in ChevronLike then '<' else c }

  /** Each character with the look-alikes read as `<`. */
  function Chevrons(s: string): (r: string)
    ensures |r| == |s| && forall i :: 0 <= i < |s| ==> r[i] == ChevronChar(s[i])
  {
    seq(|s|, i requires 0 <= i < |s| => ChevronChar(s[i]))
  }

  /** One character after `upper`, the chevron replacements and the
      removal of spaces and of everything outside `[A-Z0-9<]`: its MRZ
      form, or `None` when it is dropped. */
  function MrzForm(c: char): (r: Option<char>)
    ensures r.Some? ==> MrzChar(r.value)
    ensures IsSpace(c) ==> r.None?
    ensures MrzChar(c) ==> r == Some(c)
  {
    var u := ChevronChar(UpperChar(c));
    if MrzChar(u) then Some(u) else None
  }

  /** `_sanitize_mrz_token`: trim, upper-case, drop spaces, read the chevron
      look-alikes `\u00AB`, `\u2039`, `\u203A`, `(` and `)` as `<`, and drop
      whatever is outside `[A-Z0-9<]`.  A `None` token is the empty string.
      The trim is left to the filter, which drops every whitespace character
      anyway; `Patterns.KeepStripped` shows that trimming first gives the same. */
  function SanitizeMrzToken(s: string): (r: string)
    ensures |r| <= |s|
    ensures forall i :: 0 <= i < |r| ==> MrzChar(r[i])
  {
    Keep(MrzForm, s)
  }

  /** A string in the MRZ alphabet, chevron look-alikes allowed, keeps its
      length and has each look-alike replaced by `<`. */
  lemma {:induction false} KeepAlphabet(u: string)
    requires forall i :: 0 <= i < |u| ==> MrzChar(u[i]) || u[i] in ChevronLike
    ensures |Keep(MrzForm, u)| == |u|
    ensures forall i :: 0 <= i < |u| ==> Keep(MrzForm, u)[i] == ChevronChar(u[i])
  {
    if u != [] {
      var n := |u| - 1;
      KeepAlphabet(u[..n]);
      assert MrzForm(u[n]) == Some(ChevronChar(u[n]));
    }
  }

  /** A token already written in the MRZ alphabet, chevron look-alikes
      allowed, comes out with each look-alike replaced by `<` and nothing
      else touched. */
  lemma SanitizeMrzAlphabet(s: string)
    requires forall i :: 0 <= i < |s| ==> MrzChar(s[i]) || s[i] in ChevronLike
    ensures SanitizeMrzToken(s) == Chevrons(s)
  {
    KeepAlphabet(s);
  }

  /** Sanitising a sanitised token changes nothing. */
  lemma SanitizeIdempotent(s: string)
    ensures SanitizeMrzToken(SanitizeMrzToken(s)) == SanitizeMrzToken(s)
  {
    var r := SanitizeMrzToken(s);
    SanitizeMrzAlphabet(r);
    assert Chevrons(r) == r;
  }

  /** The sanitised tokens of length 30, in input order. */
  function Candidates(tokens: seq<string>): (c: seq<string>)
    ensures |c| <= |tokens|
  {
    if tokens == [] then []
    else Candidates(tokens[..|tokens| - 1]) + Kept(tokens[|tokens| - 1])
  }

  /** The candidate one token gives: its sanitised form when that is 30 long. */
  function Kept(t: string): (c: seq<string>)
    ensures |c| <= 1
  {
    var s := SanitizeMrzToken(t);
    if |s| == 30 then [s] else []
  }

  /** Every candidate is the sanitised form of some token. */
  lemma {:induction false} CandidatesSound(tokens: seq<string>, k: nat)
    requires k < |Candidates(tokens)|
    ensures |Candidates(tokens)[k]| == 30
    ensures exists i :: 0 <= i < |tokens| && SanitizeMrzToken(tokens[i]) == Candidates(tokens)[k]
  {
    var n := |tokens| - 1;
    var init := Candidates(tokens[..n]);
    assert Candidates(tokens) == init + Kept(tokens[n]);
    if k < |init| {
      CandidatesSound(tokens[..n], k);
      var i :| 0 <= i < n && SanitizeMrzToken(tokens[..n][i]) == init[k];
      assert tokens[..n][i] == tokens[i];
      assert Candidates(tokens)[k] == init[k];
    } else {
      assert Kept(tokens[n]) == [SanitizeMrzToken(tokens[n])];
      assert Candidates(tokens)[k] == SanitizeMrzToken(tokens[n]);
    }
  }

  /** Every token that sanitises to 30 characters gives a candidate. */
  lemma {:induction false} CandidatesComplete(tokens: seq<string>, i: nat)
    requires i < |tokens| && |SanitizeMrzToken(tokens[i])| == 30
    ensures SanitizeMrzToken(tokens[i]) in Candidates(tokens)
  {
    var n := |tokens| - 1;
    var x := SanitizeMrzToken(tokens[i]);
    assert Candidates(tokens) == Candidates(tokens[..n]) + Kept(tokens[n]);
    if i < n {
      assert tokens[..n][i] == tokens[i];
      CandidatesComplete(tokens[..n], i);
      var j :| 0 <= j < |Candidates(tokens[..n])| && Candidates(tokens[..n])[j] == x;
      assert Candidates(tokens)[j] == x;
    } else {
      assert Kept(tokens[n]) == [x];
      assert Candidates(tokens)[|Candidates(tokens)| - 1] == x;
    }
  }

  /** One more token adds the candidate it gives, if any, at the end. */
  lemma CandidatesStep(tokens: seq<string>)
    requires tokens != []
    ensures Candidates(tokens) == Candidates(tokens[..|tokens| - 1]) + Kept(tokens[|tokens| - 1])
  {
  }

  /** Candidates keep the input order: the candidates of two token lists
      in a row are those of the first followed by those of the second. */
  lemma {:induction false} CandidatesAppend(a: seq<string>, b: seq<string>)
    ensures Candidates(a + b) == Candidates(a) + Candidates(b)
  {
    if b == [] {
      assert a + b == a;
    } else {
      var n := |b| - 1;
      var ab := a + b;
      assert ab[..|ab| - 1] == a + b[..n];
      assert ab[|ab| - 1] == b[n];
      CandidatesStep(ab);
      CandidatesStep(b);
      CandidatesAppend(a, b[..n]);
    }
  }

  /** Tokens none of which sanitises to 30 characters give no candidate. */
  lemma {:induction false} NoCandidates(tokens: seq<string>)
    requires forall t :: t in tokens ==> |SanitizeMrzToken(t)| != 30
    ensures Candidates(tokens) == []
  {
    if tokens != [] {
      var n := |tokens| - 1;
      assert tokens[n] in tokens;
      assert forall t :: t in tokens[..n] ==> t in tokens;
      NoCandidates(tokens[..n]);
    }
  }

  /** `_find_mrz` as a value: the three candidates, when there are exactly three. */
  function MrzLines(tokens: seq<string>): Option<seq<string>> {
    var c := Candidates(tokens);
    if |c| == 3 then Some(c) else None
  }

  /** Found lines are three lines of 30 MRZ characters. */
  lemma MrzLinesShape(tokens: seq<string>)
    requires MrzLines(tokens).Some?
    ensures |MrzLines(tokens).value| == 3
    ensures forall k :: 0 <= k < 3 ==> var l := MrzLines(tokens).value[k];
      |l| == 30 && forall i :: 0 <= i < 30 ==> MrzChar(l[i])
  {
    var c := MrzLines(tokens).value;
    assert c == Candidates(tokens) && |c| == 3;
    forall k | 0 <= k < 3 ensures |c[k]| == 30 && forall i :: 0 <= i < 30 ==> MrzChar(c[k][i]) {
      CandidatesSound(tokens, k);
      var j :| 0 <= j < |tokens| && SanitizeMrzToken(tokens[j]) == c[k];
    }
  }

  /** Three clean 30-character lines, anywhere among tokens that sanitise to
      other lengths, are found as they are and in their order. */
  lemma MrzLinesOfClean(before: seq<string>, l1: string, l2: string, l3: string)
    requires forall t :: t in before ==> |SanitizeMrzToken(t)| != 30
    requires |l1| == 30 && |l2| == 30 && |l3| == 30
    requires forall i :: 0 <= i < 30 ==> MrzChar(l1[i]) && MrzChar(l2[i]) && MrzChar(l3[i])
    ensures MrzLines(before + [l1, l2, l3]) == Some([l1, l2, l3])
  {
    assert SanitizeMrzToken(l1) == l1 by { SanitizeMrzAlphabet(l1); }
    assert SanitizeMrzToken(l2) == l2 by { SanitizeMrzAlphabet(l2); }
    assert SanitizeMrzToken(l3) == l3 by { SanitizeMrzAlphabet(l3); }
    assert Candidates(before) == [] by {
      NoCandidates(before);
    }
    assert Candidates([l1]) == [l1] by { OneCandidate(l1); }
    assert Candidates([l2]) == [l2] by { OneCandidate(l2); }
    assert Candidates([l3]) == [l3] by { OneCandidate(l3); }
    assert Candidates([l2, l3]) == [l2, l3] by {
      assert [l2] + [l3] == [l2, l3];
      CandidatesAppend([l2], [l3]);
    }
    assert Candidates([l1, l2, l3]) == [l1, l2, l3] by {
      assert [l1] + [l2, l3] == [l1, l2, l3];
      CandidatesAppend([l1], [l2, l3]);
    }
    CandidatesAppend(before, [l1, l2, l3]);
    assert Candidates(before + [l1, l2, l3]) == [l1, l2, l3];
  }

  lemma OneCandidate(l: string)
    requires SanitizeMrzToken(l) == l && |l| == 30
    ensures Candidates([l]) == [l]
  {
    assert [l][..0] == [];
    assert Kept(l) == [l];
  }

  /** `_find_mrz`: sanitise every token, keep those of length 30, and give
      them back only when there are exactly three. */
  method FindMrz(tokens: seq<string>) returns (r: Option<seq<string>>)
    ensures r == MrzLines(tokens)
  {
    var lines: seq<string> := [];
    for i := 0 to |tokens|
      invariant lines == Candidates(tokens[..i])
    {
      var s := SanitizeMrzToken(tokens[i]);
      if |s| == 30 {
        lines := lines + [s];
      }
      assert tokens[..i + 1][..i] == tokens[..i];
    }
    assert tokens[..|tokens|] == tokens;
    if |lines| != 3 {
      return None;
    }
    return Some(lines);
  }

  /** `get_mrz`: a QR payload, when there is one, is split into lines however
      many there are and the tokens are not looked at; otherwise the lines are
      searched for among the tokens. */
  method GetMrz(tokens: seq<string>, qr: Option<string>) returns (r: Option<seq<string>>)
    ensures qr.Some? ==> r.Some? && Join(r.value, "\n") == qr.value
    ensures qr.Some? ==> r == Some(SplitChar(qr.value, '\n'))
    ensures qr.Some? ==> forall k :: 0 <= k < |r.value| ==> '\n' !in r.value[k]
    ensures qr.None? ==> r == MrzLines(tokens)
  {
    if qr.Some? {
      JoinSplitChar(qr.value, '\n');
      return Some(SplitChar(qr.value, '\n'));
    }
    r := FindMrz(tokens);
  }

  // ----------------------------------------------------------- check digit

  /** `_char_value`: digits count 0 to 9, capitals 10 to 35, anything else 0. */
  function CharValue(c: char): (v: nat)
    ensures v <= 35
    ensures IsDigit(c) ==> v <= 9
    ensures IsUpper(c) ==> 10 <= v
  {
    if IsDigit(c) then DigitValue(c)
    else if IsUpper(c) then c as int - 'A' as int + 10
    else 0
  }

  /** On the MRZ alphabet the values tell characters apart, except that the
      filler `<` counts as `0`. */
  lemma CharValueInjective(a: char, b: char)
    requires MrzChar(a) && MrzChar(b) && CharValue(a) == CharValue(b)
    ensures a == b || (a in "0<" && b in "0<")
  {
  }

  /** The weights 7, 3, 1, repeating. */
  function Weight(i: nat): nat {
    if i % 3 == 0 then 7 else if i % 3 == 1 then 3 else 1
  }

  /** The weighted sum of the character values. */
  function WeightedSum(data: string): nat {
    if data == [] then 0
    else WeightedSum(data[..|data| - 1]) + CharValue(data[|data| - 1]) * Weight(|data| - 1)
  }

  /** The check digit section 4.9 of ICAO Doc 9303 Part 3 defines. */
  function CheckDigitOf(data: string): (c: char)
    ensures IsDigit(c)
  {
    DigitChar(WeightedSum(data) % 10)
  }

  /** `_check_digit`: one digit, the weighted sum mod 10. */
  method CheckDigit(data: string) returns (r: string)
    ensures r == [CheckDigitOf(data)]
  {
    var weights := [7, 3, 1];
    var total := 0;
    for i := 0 to |data|
      invariant total == WeightedSum(data[..i])
    {
      total := total + CharValue(data[i]) * weights[i % 3];
      assert data[..i + 1][..i] == data[..i];
    }
    assert data[..|data|] == data;
    r := [DigitChar(total % 10)];
  }

  /** The worked examples of ICAO Doc 9303: document number `L898902C3`
      checks to 6, birth date `740812` to 2, expiry `120415` to 9. */
  lemma CheckDigitExamples()
    ensures CheckDigitOf("L898902C3") == '6'
    ensures CheckDigitOf("740812") == '2'
    ensures CheckDigitOf("120415") == '9'
  {
    DocumentNumberExample("L898902C3");
    BirthDateExample("740812");
    ExpiryDateExample("120415");
  }

  /** One more character adds its value times its weight. */
  lemma SumStep(s: string, n: nat)
    requires 0 < n <= |s|
    ensures WeightedSum(s[..n]) == WeightedSum(s[..n - 1]) + CharValue(s[n - 1]) * Weight(n - 1)
  {
    assert s[..n][..n - 1] == s[..n - 1];
  }

  lemma DocumentNumberExample(s: string)
    requires s == "L898902C3"
    ensures WeightedSum(s) == 316
  {
    assert s[..0] == [];
    SumStep(s, 1); SumStep(s, 2); SumStep(s, 3); SumStep(s, 4); SumStep(s, 5);
    SumStep(s, 6); SumStep(s, 7); SumStep(s, 8); SumStep(s, 9);
    assert s[..9] == s;
  }

  lemma BirthDateExample(s: string)
    requires s == "740812"
    ensures WeightedSum(s) == 122
  {
    assert s[..0] == [];
    SumStep(s, 1); SumStep(s, 2); SumStep(s, 3); SumStep(s, 4); SumStep(s, 5); SumStep(s, 6);
    assert s[..6] == s;
  }

  lemma ExpiryDateExample(s: string)
    requires s == "120415"
    ensures WeightedSum(s) == 49
  {
    assert s[..0] == [];
    SumStep(s, 1); SumStep(s, 2); SumStep(s, 3); SumStep(s, 4); SumStep(s, 5); SumStep(s, 6);
    assert s[..6] == s;
  }

  /** Changing one character changes the sum by its weight times the change in value. */
  lemma {:induction false} WeightedSumChange(a: string, b: string, k: nat)
    requires |a| == |b| && k < |a|
    requires forall i :: 0 <= i < |a| && i != k ==> a[i] == b[i]
    ensures WeightedSum(a) - WeightedSum(b) == Weight(k) * (CharValue(a[k]) - CharValue(b[k]))
  {
    var n := |a| - 1;
    if n == k {
      assert a[..n] == b[..n];
      Distribute(Weight(k), CharValue(a[k]), CharValue(b[k]));
    } else {
      assert a[n] == b[n];
      assert a[..n][k] == a[k] && b[..n][k] == b[k];
      WeightedSumChange(a[..n], b[..n], k);
    }
  }

  lemma Distribute(w: int, p: int, q: int)
    ensures w * (p - q) == p * w - q * w
  {
  }

  /** 7, 3 and 1 are invertible mod 10, so a sum that moves by a weight times
      `d` keeps its last digit only when `d` is a multiple of 10. */
  lemma WeightCancels(x: int, y: int, w: nat, d: int)
    requires w == 7 || w == 3 || w == 1
    requires x - y == w * d
    ensures x % 10 == y % 10 ==> d % 10 == 0
  {
    if x % 10 == y % 10 {
      var m := x / 10 - y / 10;
      assert x - y == 10 * m;
      var k := if w == 7 then 3 * m - 2 * d else if w == 3 then 7 * m - 2 * d else m;
      assert d == 10 * k;
    }
  }

  /** A misread of one character whose value moves by anything but a multiple
      of 10 changes the check digit. */
  lemma SubstitutionDetected(a: string, b: string, k: nat)
    requires |a| == |b| && k < |a|
    requires forall i :: 0 <= i < |a| && i != k ==> a[i] == b[i]
    requires (CharValue(a[k]) - CharValue(b[k])) % 10 != 0
    ensures CheckDigitOf(a) != CheckDigitOf(b)
  {
    WeightedSumChange(a, b, k);
    WeightCancels(WeightedSum(a), WeightedSum(b), Weight(k), CharValue(a[k]) - CharValue(b[k]));
  }

  // ----------------------------------------------------------------- dates

  /** The century a two-digit year is read in: `00`-`50` are 2000-2050, `51`-`99` are 1951-1999. */
  function Century(yy: nat): nat { if yy <= 50 then 2000 else 1900 }

  /** The date six digits `YYMMDD` name, before the validity check. */
  function ExpandYymmdd(s: string): (d: Date)
    requires |s| == 6 && AllDigits(s)
    ensures 1951 <= d.year <= 2050 && d.month < 100 && d.day < 100
  {
    DigitsSlice(s, 0, 2);
    DigitsSlice(s, 2, 4);
    DigitsSlice(s, 4, 6);
    NumberBound(s[0..2]);
    NumberBound(s[2..4]);
    NumberBound(s[4..6]);
    var yy := Number(s[0..2]);
    Date(Century(yy) + yy, Number(s[2..4]), Number(s[4..6]))
  }

  /** `_yyMMdd_to_ddmmyyyy`: six digits, read with the pivot at 50, written
      `DD.MM.YYYY`; anything else, or an impossible date, is `None`. */
  function YymmddToDdmmyyyy(s: string): (r: Option<string>)
    ensures r.Some? ==> DottedShape(r.value)
    ensures r.Some? ==> Valid(Spelled(r.value)) && 1951 <= Spelled(r.value).year <= 2050
  {
    if |s| == 6 && AllDigits(s) && Valid(ExpandYymmdd(s)) then
      SpelledFormat(ExpandYymmdd(s));
      Some(Format(ExpandYymmdd(s)))
    else None
  }

  /** The six digits `YYMMDD` for a day, month and two-digit year. */
  function Digits6(yy: nat, mm: nat, dd: nat): (s: string)
    requires yy < 100 && mm < 100 && dd < 100
    ensures |s| == 6 && AllDigits(s)
  {
    Pad2(yy) + Pad2(mm) + Pad2(dd)
  }

  /** Reading six digits back gives the numbers they were written from. */
  lemma ExpandDigits6(yy: nat, mm: nat, dd: nat)
    requires yy < 100 && mm < 100 && dd < 100
    ensures ExpandYymmdd(Digits6(yy, mm, dd)) == Date(Century(yy) + yy, mm, dd)
  {
    var s := Digits6(yy, mm, dd);
    assert s[0..2] == Pad2(yy);
    assert s[2..4] == Pad2(mm);
    assert s[4..6] == Pad2(dd);
  }

  /** The `YYMMDD` form of a date of 1951 to 2050. */
  function Yymmdd(d: Date): (s: string)
    requires Valid(d) && 1951 <= d.year <= 2050
    ensures |s| == 6 && AllDigits(s)
  {
    Digits6(d.year % 100, d.month, d.day)
  }

  /** Every date of the window 1951-2050 survives the trip through `YYMMDD`. */
  lemma YymmddRoundTrip(d: Date)
    requires Valid(d) && 1951 <= d.year <= 2050
    ensures YymmddToDdmmyyyy(Yymmdd(d)) == Some(Format(d))
  {
    var yy := d.year % 100;
    assert Century(yy) + yy == d.year by {
      if d.year >= 2000 {
        assert yy == d.year - 2000;
      } else {
        assert yy == d.year - 1900;
      }
    }
    ExpandDigits6(yy, d.month, d.day);
    assert ExpandYymmdd(Yymmdd(d)) == d;
  }

  /** The pivot: `50` is read as 2050 and `51` as 1951. */
  lemma PivotYears()
    ensures ExpandYymmdd(Digits6(50, 1, 1)) == Date(2050, 1, 1)
    ensures ExpandYymmdd(Digits6(51, 1, 1)) == Date(1951, 1, 1)
  {
    ExpandDigits6(50, 1, 1);
    ExpandDigits6(51, 1, 1);
  }

  /** 29 February is kept in 2000, a leap year, and refused in 2001. */
  lemma LeapDays(s0: string, s1: string)
    requires s0 == Digits6(0, 2, 29) && s1 == Digits6(1, 2, 29)
    ensures YymmddToDdmmyyyy(s0).Some?
    ensures YymmddToDdmmyyyy(s1) == None
  {
    ExpandDigits6(0, 2, 29);
    ExpandDigits6(1, 2, 29);
  }

  /** The six digits above are the strings `500101`, `510101`, `000229` and `010229`. */
  lemma Digits6Literals()
    ensures Digits6(50, 1, 1) == "500101" && Digits6(51, 1, 1) == "510101"
    ensures Digits6(0, 2, 29) == "000229" && Digits6(1, 2, 29) == "010229"
  {
  }

  // -------------------------------------------------------------- decoding

  datatype MrzError = IndexError | ValueError

  /** The dictionary `process_mrz` returns when it decodes the lines. */
  datatype MrzData = MrzData(
    cardNumber: string, surname: Option<string>, givenName: Option<string>,
    dateOfBirth: Option<string>, sex: string, dateOfExpiry: Option<string>,
    personalNumber: string)

  /** `{}` for lines that are not an ID-card MRZ, the decoded fields, or the
      exception the decoding raises. */
  datatype MrzOutcome = NotMrz | Decoded(data: MrzData) | Raised(error: MrzError)

  /** `part.replace("<", " ").strip() or None` */
  function NamePart(s: string): (r: Option<string>)
    ensures r.Some? ==> r.value != [] && !IsSpace(r.value[0]) && !IsSpace(r.value[|r.value| - 1])
  {
    var n := Strip(ReplaceChar(s, '<', ' '));
    if n == [] then None else Some(n)
  }

  /** A name part is missing exactly when it holds only fillers and blanks. */
  lemma NamePartNone(s: string)
    ensures NamePart(s).None? <==> forall i :: 0 <= i < |s| ==> s[i] == '<' || IsSpace(s[i])
  {
    var t := ReplaceChar(s, '<', ' ');
    StripEmptyIff(t);
    assert forall i :: 0 <= i < |s| ==> (IsSpace(t[i]) <==> s[i] == '<' || IsSpace(s[i]));
  }

  /** `process_mrz`: line 1 must start `IUUZB`; the card number is
      `l1[5:14]`, the personal number `l1[15:29]`, the birth date `l2[0:6]`,
      the sex `l2[7]` and the expiry `l2[8:14]`; line 3, with its trailing
      fillers removed, is split once at `<<` into surname and given name. */
  function ProcessMrz(lines: seq<string>): (r: MrzOutcome)
    ensures r.NotMrz? <==> |lines| != 3 || !StartsWith(lines[0], "IUUZB")
    ensures r == Raised(IndexError) <==> !r.NotMrz? && |lines[1]| < 8
    ensures r == Raised(ValueError) <==>
      !r.NotMrz? && |lines[1]| >= 8 && !Contains(StripRightChar(lines[2], '<'), "<<")
    ensures r.Decoded? ==> |r.data.cardNumber| <= 9 && |r.data.personalNumber| <= 14
    ensures r.Decoded? ==> r.data.sex == [lines[1][7]]
  {
    if |lines| != 3 || !StartsWith(lines[0], "IUUZB") then NotMrz
    else
      var l1, l2, l3 := lines[0], lines[1], lines[2];
      if |l2| < 8 then Raised(IndexError)
      else match SplitOnce(StripRightChar(l3, '<'), "<<")
        case None => Raised(ValueError)
        case Some((surname, given)) =>
          Decoded(MrzData(
            Slice(l1, 5, 14), NamePart(surname), NamePart(given),
            YymmddToDdmmyyyy(Slice(l2, 0, 6)), [l2[7]],
            YymmddToDdmmyyyy(Slice(l2, 8, 14)), Slice(l1, 15, 29)))
  }

  /** `n` filler characters. */
  function Fill(n: nat): (s: string)
    ensures |s| == n && forall i :: 0 <= i < n ==> s[i] == '<'
  {
    seq(n, _ => '<')
  }

  /** Trailing fillers after a last character that is not one are removed. */
  lemma {:induction false} StripFill(s: string, n: nat)
    requires s == [] || s[|s| - 1] != '<'
    ensures StripRightChar(s + Fill(n), '<') == s
  {
    var t := s + Fill(n);
    if n == 0 {
      assert t == s;
    } else {
      assert t[|t| - 1] == '<';
      assert t[..|t| - 1] == s + Fill(n - 1);
      StripFill(s, n - 1);
    }
  }

  /** A name line holding only a surname, as the MRZ writes a single name,
      has no `<<` left once its fillers are stripped, and decoding it raises. */
  lemma SingleNameRaises(l1: string, l2: string, name: string, n: nat)
    requires StartsWith(l1, "IUUZB") && |l2| >= 8
    requires forall i :: 0 <= i < |name| ==> IsUpper(name[i])
    ensures ProcessMrz([l1, l2, name + Fill(n)]) == Raised(ValueError)
  {
    StripFill(name, n);
    forall i: nat | i + 2 <= |name| ensures !OccursAt(name, "<<", i) {
      assert name[i..i + 2][0] == name[i];
    }
  }

  /** Splitting `a << b` at its first `<<` when `a` holds no `<`. */
  lemma SplitAtNames(a: string, b: string)
    requires forall i :: 0 <= i < |a| ==> a[i] != '<'
    ensures SplitOnce(a + "<<" + b, "<<") == Some((a, b))
  {
    var s := a + "<<" + b;
    assert OccursAt(s, "<<", |a|);
    var r := SplitOnce(s, "<<");
    var (x, y) := r.value;
    assert s[|x|] == (x + "<<" + y)[|x|] == '<';
    assert forall i :: 0 <= i < |a| ==> s[i] == a[i];
    assert |x| == |a|;
    assert x == s[..|a|] == a;
    assert y == s[|a| + 2..] == b;
  }

  /** A name written in capitals decodes to itself. */
  lemma NamePartOfWord(w: string)
    requires w != [] && forall i :: 0 <= i < |w| ==> IsUpper(w[i])
    ensures NamePart(w) == Some(w)
  {
    assert ReplaceChar(w, '<', ' ') == w;
    StripOfStripped(w);
  }

  // ------------------------------------------------------------ round trip

  /** What the three TD1 lines of an ID card say about its holder. */
  datatype Holder = Holder(
    card: string, personal: string, birth: Date, sex: char, expiry: Date,
    surname: string, given: string)

  predicate NameWord(w: string) { w != [] && forall i :: 0 <= i < |w| ==> IsUpper(w[i]) }

  /** The holders the three 30-character lines can carry. */
  predicate Encodable(h: Holder) {
    |h.card| == 9 && Alphanumeric(h.card) && |h.personal| == 14 && AllDigits(h.personal)
    && Valid(h.birth) && 1951 <= h.birth.year <= 2050
    && Valid(h.expiry) && 1951 <= h.expiry.year <= 2050
    && NameWord(h.surname) && NameWord(h.given) && |h.surname| + |h.given| <= 28
  }

  /** The three lines of an Uzbek ID card (`IU`, `UZB`) in the TD1 layout of
      ICAO Doc 9303 Part 5, with check digits after the card number and the
      two dates; the nationality follows the expiry, and the optional data
      and composite check digit, which nothing here reads, are filler. */
  function EncodeTd1(h: Holder): (lines: seq<string>)
    requires Encodable(h)
    ensures |lines| == 3 && |lines[0]| == 30 && |lines[1]| == 30 && |lines[2]| == 30
  {
    var b := Yymmdd(h.birth);
    var e := Yymmdd(h.expiry);
    [ "IUUZB" + h.card + [CheckDigitOf(h.card)] + h.personal + "<",
      b + [CheckDigitOf(b)] + [h.sex] + e + [CheckDigitOf(e)] + "UZB" + Fill(12),
      h.surname + "<<" + h.given + Fill(28 - |h.surname| - |h.given|) ]
  }

  /** The decoded fields of an encoded holder. */
  function Expected(h: Holder): MrzData
    requires Encodable(h)
  {
    MrzData(h.card, Some(h.surname), Some(h.given), Some(Format(h.birth)), [h.sex],
            Some(Format(h.expiry)), h.personal)
  }

  /** Decoding the lines of a holder gives back every field the decoder reads. */
  lemma DecodeEncodeTd1(h: Holder)
    requires Encodable(h)
    ensures ProcessMrz(EncodeTd1(h)) == Decoded(Expected(h))
  {
    var lines := EncodeTd1(h);
    Line1(h, lines[0]);
    Line2(h, lines[1]);
    Line3(h, lines[2]);
    DecodedLines(lines, h.surname, h.given);
    YymmddRoundTrip(h.birth);
    YymmddRoundTrip(h.expiry);
    NamePartOfWord(h.surname);
    NamePartOfWord(h.given);
  }

  /** Three lines whose first starts `IUUZB`, whose second is long enough and
      whose third splits into two names decode field by field. */
  lemma DecodedLines(lines: seq<string>, surname: string, given: string)
    requires |lines| == 3 && StartsWith(lines[0], "IUUZB") && |lines[1]| >= 8
    requires SplitOnce(StripRightChar(lines[2], '<'), "<<") == Some((surname, given))
    ensures ProcessMrz(lines) == Decoded(MrzData(
              Slice(lines[0], 5, 14), NamePart(surname), NamePart(given),
              YymmddToDdmmyyyy(Slice(lines[1], 0, 6)), [lines[1][7]],
              YymmddToDdmmyyyy(Slice(lines[1], 8, 14)), Slice(lines[0], 15, 29)))
  {
  }

  lemma Line3(h: Holder, l3: string)
    requires Encodable(h) && l3 == EncodeTd1(h)[2]
    ensures SplitOnce(StripRightChar(l3, '<'), "<<") == Some((h.surname, h.given))
  {
    assert l3 == (h.surname + "<<" + h.given) + Fill(28 - |h.surname| - |h.given|);
    StripFill(h.surname + "<<" + h.given, 28 - |h.surname| - |h.given|);
    SplitAtNames(h.surname, h.given);
  }

  lemma Line1(h: Holder, l1: string)
    requires Encodable(h) && l1 == EncodeTd1(h)[0]
    ensures StartsWith(l1, "IUUZB") && Slice(l1, 5, 14) == h.card && Slice(l1, 15, 29) == h.personal
  {
    assert l1 == "IUUZB" + h.card + [CheckDigitOf(h.card)] + h.personal + "<";
    assert l1[..5] == "IUUZB";
    assert l1[5..14] == h.card;
    assert l1[15..29] == h.personal;
  }

  lemma Line2(h: Holder, l2: string)
    requires Encodable(h) && l2 == EncodeTd1(h)[1]
    ensures l2[7] == h.sex && Slice(l2, 0, 6) == Yymmdd(h.birth) && Slice(l2, 8, 14) == Yymmdd(h.expiry)
  {
    var b := Yymmdd(h.birth);
    var e := Yymmdd(h.expiry);
    assert l2 == b + [CheckDigitOf(b)] + [h.sex] + e + [CheckDigitOf(e)] + "UZB" + Fill(12);
    assert l2[0..6] == b;
    assert l2[8..14] == e;
  }

  // -------------------------------------------------------------- prefill

  /** The decoded dictionary as `(field, value)` pairs in its key order. */
  function MrzPairs(m: MrzData): (ps: seq<(Field, Option<string>)>)
    ensures |ps| == 7
  {
    [ (CardNumber, Some(m.cardNumber)), (Surname, m.surname), (GivenName, m.givenName),
      (DateOfBirth, m.dateOfBirth), (Sex, Some(m.sex)), (DateOfExpiry, m.dateOfExpiry),
      (PersonalNumber, Some(m.personalNumber)) ]
  }
}

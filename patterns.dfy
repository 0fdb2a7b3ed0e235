/** The regular expressions of the two parsers, each written out as a matcher
    over `string`: `MatchEnd` says where a match starting at a position ends,
    `Find` is `re.search(...).group(0)` (the leftmost match), and the
    full-match tests are predicates.  `\d` and `\w` are the ASCII classes;
    `\s` is `Text.IsSpace`. */
module Patterns {
  import opened Wrappers
  import opened Text

  /** Position `i` holds a word character. */
  predicate WordAt(s: string, i: int) { 0 <= i < |s| && IsWordChar(s[i]) }

  /** `\b` at position `p`. */
  predicate Boundary(s: string, p: nat) { WordAt(s, p - 1) != WordAt(s, p) }

  predicate DigitsAt(s: string, p: nat, n: nat) {
    p + n <= |s| && forall i :: p <= i < p + n ==> IsDigit(s[i])
  }

  predicate UppersAt(s: string, p: nat, n: nat) {
    p + n <= |s| && forall i :: p <= i < p + n ==> IsUpper(s[i])
  }

  predicate AllDigits(s: string) { DigitsAt(s, 0, |s|) }

  /** The first position at or after `i` that is not whitespace (or `|s|`). */
  function SkipSpaces(s: string, i: nat): (q: nat)
    ensures i <= q && (i <= |s| ==> q <= |s|)
    ensures forall k :: i <= k < q ==> k < |s| && IsSpace(s[k])
    ensures q < |s| ==> !IsSpace(s[q])
    decreases |s| - i
  {
    if i < |s| && IsSpace(s[i]) then SkipSpaces(s, i + 1) else i
  }

  /** The number of consecutive digits starting at `i`. */
  function DigitRun(s: string, i: nat): (n: nat)
    requires i <= |s|
    ensures DigitsAt(s, i, n)
    ensures i + n < |s| ==> !IsDigit(s[i + n])
    decreases |s| - i
  {
    if i < |s| && IsDigit(s[i]) then 1 + DigitRun(s, i + 1) else 0
  }

  /** The regular expressions that are searched for. */
  datatype Pattern =
    | DottedDate      // two digits, '.', two digits, '.', four digits, between word boundaries
    | SpacedDate      // two digits, whitespace, two digits, whitespace, four digits, between word boundaries
    | CardCode        // two capitals and seven digits, between word boundaries
    | PassportCode    // one or two capitals and seven digits, between word boundaries
    | PersonalCode    // fourteen digits, between word boundaries
    | SexWord         // AYOL or ERKAK in any case, between word boundaries
    | AuthorityCode   // an authority prefix, optional whitespace, three to twenty digits

  /** The authority prefixes of the ID-card pattern, in the order the alternation tries them. */
  const AuthorityPrefixes: seq<string> := ["MIA", "MFA", "IIV", "IIB", "GUVD", "HIV", "HV"]

  /** The first prefix of `prefixes` that occurs at `p`. */
  function PrefixAt(s: string, p: nat, prefixes: seq<string>): (r: Option<string>)
    ensures r.Some? ==> r.value in prefixes && OccursAt(s, r.value, p)
    ensures r.None? ==> forall x :: x in prefixes ==> !OccursAt(s, x, p)
  {
    if prefixes == [] then None
    else if OccursAt(s, prefixes[0], p) then Some(prefixes[0])
    else PrefixAt(s, p, prefixes[1..])
  }

  function Min(a: nat, b: nat): nat { if a <= b then a else b }

  /** Where the match of `pat` that starts at `p` ends, if there is one. */
  function MatchEnd(pat: Pattern, s: string, p: nat): (e: Option<nat>)
    ensures e.Some? ==> p < e.value <= |s|
  {
    match pat
    case DottedDate => DottedDateEnd(s, p)
    case SpacedDate => SpacedDateEnd(s, p)
    case CardCode => CardCodeEnd(s, p)
    case PassportCode => PassportCodeEnd(s, p)
    case PersonalCode => PersonalCodeEnd(s, p)
    case SexWord => SexWordEnd(s, p)
    case AuthorityCode => AuthorityCodeEnd(s, p)
  }

  function DottedDateEnd(s: string, p: nat): (e: Option<nat>)
    ensures e.Some? ==> p < e.value <= |s|
  {
    if Boundary(s, p) && DigitsAt(s, p, 2) && DigitsAt(s, p + 3, 2) && DigitsAt(s, p + 6, 4)
       && s[p + 2] == '.' && s[p + 5] == '.' && Boundary(s, p + 10)
    then Some(p + 10) else None
  }

  function SpacedDateEnd(s: string, p: nat): (e: Option<nat>)
    ensures e.Some? ==> p < e.value <= |s|
  {
    var q1 := SkipSpaces(s, p + 2);
    var q2 := SkipSpaces(s, q1 + 2);
    if Boundary(s, p) && DigitsAt(s, p, 2) && p + 2 < q1 && DigitsAt(s, q1, 2)
       && q1 + 2 < q2 && DigitsAt(s, q2, 4) && Boundary(s, q2 + 4)
    then Some(q2 + 4) else None
  }

  function CardCodeEnd(s: string, p: nat): (e: Option<nat>)
    ensures e.Some? ==> p < e.value <= |s|
  {
    if Boundary(s, p) && UppersAt(s, p, 2) && DigitsAt(s, p + 2, 7) && Boundary(s, p + 9)
    then Some(p + 9) else None
  }

  /** One or two capitals: the two-letter reading is tried first. */
  function PassportCodeEnd(s: string, p: nat): (e: Option<nat>)
    ensures e.Some? ==> p < e.value <= |s|
  {
    if Boundary(s, p) && UppersAt(s, p, 2) && DigitsAt(s, p + 2, 7) && Boundary(s, p + 9)
    then Some(p + 9)
    else if Boundary(s, p) && UppersAt(s, p, 1) && DigitsAt(s, p + 1, 7) && Boundary(s, p + 8)
    then Some(p + 8)
    else None
  }

  function PersonalCodeEnd(s: string, p: nat): (e: Option<nat>)
    ensures e.Some? ==> p < e.value <= |s|
  {
    if Boundary(s, p) && DigitsAt(s, p, 14) && Boundary(s, p + 14) then Some(p + 14) else None
  }

  /** Case-insensitive; `AYOL` is tried before `ERKAK`. */
  function SexWordEnd(s: string, p: nat): (e: Option<nat>)
    ensures e.Some? ==> p < e.value <= |s|
  {
    if p + 4 <= |s| && Lower(s[p..p + 4]) == "ayol" && Boundary(s, p) && Boundary(s, p + 4)
    then Some(p + 4)
    else if p + 5 <= |s| && Lower(s[p..p + 5]) == "erkak" && Boundary(s, p) && Boundary(s, p + 5)
    then Some(p + 5)
    else None
  }

  /** The prefix, all the whitespace after it, then the longest run of at most
      twenty digits, of which there must be at least three. */
  function AuthorityCodeEnd(s: string, p: nat): (e: Option<nat>)
    ensures e.Some? ==> p < e.value <= |s|
  {
    match PrefixAt(s, p, AuthorityPrefixes)
    case None => None
    case Some(x) =>
      var q := SkipSpaces(s, p + |x|);
      var n := DigitRun(s, q);
      if n >= 3 then Some(q + Min(n, 20)) else None
  }

  /** The leftmost position at or after `from` where `pat` matches. */
  function FirstMatchFrom(pat: Pattern, s: string, from: nat): (r: Option<nat>)
    ensures r.Some? ==> from <= r.value < |s| && MatchEnd(pat, s, r.value).Some?
    ensures forall q :: from <= q < |s| && (r.None? || q < r.value) ==> MatchEnd(pat, s, q).None?
    decreases |s| - from
  {
    if from >= |s| then None
    else if MatchEnd(pat, s, from).Some? then Some(from)
    else FirstMatchFrom(pat, s, from + 1)
  }

  /** `re.search(pat, s)`, as the span of the leftmost match. */
  function Search(pat: Pattern, s: string): (r: Option<(nat, nat)>)
    ensures r.Some? ==> r.value.0 < r.value.1 <= |s| && MatchEnd(pat, s, r.value.0) == Some(r.value.1)
    ensures r.Some? ==> forall q: nat :: q < r.value.0 ==> MatchEnd(pat, s, q).None?
    ensures r.None? ==> forall q: nat :: q < |s| ==> MatchEnd(pat, s, q).None?
  {
    match FirstMatchFrom(pat, s, 0)
    case None => None
    case Some(p) => Some((p, MatchEnd(pat, s, p).value))
  }

  /** `re.search(pat, s).group(0)` */
  function Find(pat: Pattern, s: string): Option<string> {
    match Search(pat, s)
    case None => None
    case Some((p, e)) => Some(s[p..e])
  }

  /** The shape `DD.MM.YYYY` in ASCII digits. */
  predicate DottedShape(d: string) {
    |d| == 10 && DigitsAt(d, 0, 2) && d[2] == '.' && DigitsAt(d, 3, 2) && d[5] == '.' && DigitsAt(d, 6, 4)
  }

  /** A string of the shape `DD.MM.YYYY` is its own first date match. */
  lemma FindDottedWhole(s: string)
    requires DottedShape(s)
    ensures Find(DottedDate, s) == Some(s)
  {
    assert DottedDateEnd(s, 0) == Some(10);
    assert MatchEnd(DottedDate, s, 0) == Some(10);
    var r := Search(DottedDate, s);
    assert r.Some? && r.value.0 == 0;
    assert s[0..10] == s;
  }

  /** Upper-case letters and digits only. */
  predicate Alphanumeric(s: string) {
    forall i :: 0 <= i < |s| ==> IsUpper(s[i]) || IsDigit(s[i])
  }

  /** What each pattern's match looks like. */
  lemma FindShape(pat: Pattern, s: string)
    requires Find(pat, s).Some?
    ensures pat == DottedDate ==> DottedShape(Find(pat, s).value)
    ensures pat == CardCode ==> |Find(pat, s).value| == 9 && Alphanumeric(Find(pat, s).value)
    ensures pat == PassportCode ==> 8 <= |Find(pat, s).value| <= 9 && Alphanumeric(Find(pat, s).value)
    ensures pat == PersonalCode ==> |Find(pat, s).value| == 14 && AllDigits(Find(pat, s).value)
    ensures Find(pat, s).value != []
  {
    var (p, e) := Search(pat, s).value;
    var m := s[p..e];
    if pat == DottedDate {
      assert forall i :: 0 <= i < 10 ==> m[i] == s[p + i];
    } else if pat == CardCode {
      assert forall i :: 0 <= i < 9 ==> m[i] == s[p + i];
    } else if pat == PassportCode {
      assert forall i :: 0 <= i < |m| ==> m[i] == s[p + i];
    } else if pat == PersonalCode {
      assert forall i :: 0 <= i < 14 ==> m[i] == s[p + i];
    }
  }

  /** `re.fullmatch` of one or two capitals followed by six to eight digits. */
  predicate LetterDigitCode(s: string) {
    |s| >= 7 && IsUpper(s[0])
    && ((IsUpper(s[1]) && 8 <= |s| <= 10 && DigitsAt(s, 2, |s| - 2))
        || (7 <= |s| <= 9 && DigitsAt(s, 1, |s| - 1)))
  }

  predicate MrzChar(c: char) { IsUpper(c) || IsDigit(c) || c == '<' }

  /** `re.fullmatch` of `lo` to `hi` characters of the MRZ alphabet `[A-Z0-9<]`. */
  predicate MrzRun(s: string, lo: nat, hi: nat) {
    lo <= |s| <= hi && forall i :: 0 <= i < |s| ==> MrzChar(s[i])
  }

  /** The passport first-line test: `P<` and a three-letter country code at the start. */
  predicate MrzLine1Start(s: string) {
    |s| >= 5 && s[0] == 'P' && s[1] == '<' && UppersAt(s, 2, 3)
  }

  /** The passport authority fallback: the whole string is one of these prefixes,
      optional whitespace and three to twenty digits. */
  const FallbackAuthorityPrefixes: seq<string> := ["MIA", "MFA", "IIB", "IIV", "GUVD", "PERSONALIZATION"]

  predicate SpacesThenDigits(t: string, lo: nat, hi: nat) {
    var q := SkipSpaces(t, 0);
    lo <= |t| - q <= hi && DigitsAt(t, q, |t| - q)
  }

  predicate AuthorityFullMatch(s: string) {
    exists x :: x in FallbackAuthorityPrefixes && StartsWith(s, x) && SpacesThenDigits(s[|x|..], 3, 20)
  }

  /** The `H`, optional `I`, `V`, optional whitespace and a digit, at a word
      boundary, that the ID-card authority rewrite replaces: the end of the
      matched text. */
  function HvAt(v: string, i: nat): (e: Option<nat>)
    ensures e.Some? ==> i < e.value <= |v| && IsDigit(v[e.value - 1])
  {
    if !(i < |v| && v[i] == 'H' && Boundary(v, i)) then None
    else
      var j := if i + 3 <= |v| && v[i + 1..i + 3] == "IV" then i + 3
               else if i + 2 <= |v| && v[i + 1] == 'V' then i + 2
               else 0;
      if j == 0 then None
      else
        var q := SkipSpaces(v, j);
        if q < |v| && IsDigit(v[q]) then Some(q + 1) else None
  }

  /** `re.sub(r"\bH(?:I)?V\s*(\d)", r"IIV \1", v[i:])` with `v` as context. */
  function RewriteHvFrom(v: string, i: nat): string
    decreases |v| - i
  {
    if i >= |v| then []
    else match HvAt(v, i)
      case Some(e) => "IIV " + [v[e - 1]] + RewriteHvFrom(v, e)
      case None => [v[i]] + RewriteHvFrom(v, i + 1)
  }

  function RewriteHv(v: string): string { RewriteHvFrom(v, 0) }

  /** With no `H` left, the rewrite copies the rest unchanged. */
  lemma {:induction false} RewriteWithoutH(v: string, i: nat)
    requires i <= |v| && forall k :: i <= k < |v| ==> v[k] != 'H'
    ensures RewriteHvFrom(v, i) == v[i..]
    decreases |v| - i
  {
    if i < |v| {
      RewriteWithoutH(v, i + 1);
      assert v[i..] == [v[i]] + v[i + 1..];
    }
  }

  /** The authority value the ID-card parser reports for an authority match at `p`
      (the match `Search(AuthorityCode, s)` returns is one):
      `HV` and `HIV` become `IIV` and one space; every other prefix is kept as matched. */
  lemma AuthorityRewrite(s: string, p: nat, e: nat)
    requires AuthorityCodeEnd(s, p) == Some(e)
    ensures var x := PrefixAt(s, p, AuthorityPrefixes).value;
            var q := SkipSpaces(s, p + |x|);
            RewriteHv(s[p..e]) == if (x == "HIV" || x == "HV") then "IIV " + s[q..e] else s[p..e]
  {
    var x := PrefixAt(s, p, AuthorityPrefixes).value;
    var q := SkipSpaces(s, p + |x|);
    var v := s[p..e];
    AuthorityMatchParts(s, p, e, x, q);
    AuthoritySlice(s, p, e, x, q);
    assert v[q - p..] == s[q..e];
    RewriteAuthorityValue(v, x, q - p);
  }

  /** An authority match is its prefix, then whitespace up to `q`, then digits up to its end. */
  lemma AuthorityMatchParts(s: string, p: nat, e: nat, x: string, q: nat)
    requires AuthorityCodeEnd(s, p) == Some(e)
    requires PrefixAt(s, p, AuthorityPrefixes) == Some(x) && q == SkipSpaces(s, p + |x|)
    ensures x in AuthorityPrefixes && OccursAt(s, x, p)
    ensures p + |x| <= q < e <= |s| && DigitsAt(s, q, e - q)
  {
  }

  /** The same facts, read in the matched text `s[p..e]`. */
  lemma AuthoritySlice(s: string, p: nat, e: nat, x: string, q: nat)
    requires OccursAt(s, x, p) && p + |x| <= q < e <= |s| && DigitsAt(s, q, e - q)
    requires q == SkipSpaces(s, p + |x|)
    ensures s[p..e][..|x|] == x
    ensures SkipSpaces(s[p..e], |x|) == q - p
    ensures DigitsAt(s[p..e], q - p, e - q)
  {
    var v := s[p..e];
    assert v[..|x|] == s[p..p + |x|];
    SkipSpacesShift(s, v, p, p + |x|, q);
    forall i | q - p <= i < |v| ensures IsDigit(v[i]) {
      assert v[i] == s[p + i];
    }
  }

  /** The rewrite on a value that is an authority prefix, whitespace up to `d`, then digits. */
  lemma RewriteAuthorityValue(v: string, x: string, d: nat)
    requires x in AuthorityPrefixes && |x| <= d < |v| && v[..|x|] == x
    requires SkipSpaces(v, |x|) == d && DigitsAt(v, d, |v| - d)
    ensures RewriteHv(v) == if (x == "HIV" || x == "HV") then "IIV " + v[d..] else v
  {
    if x == "HIV" || x == "HV" {
      HvAtAuthority(v, x, d);
      RewriteHvValue(v, d);
    } else {
      RewritePlainValue(v, x, d);
    }
  }

  /** Where the pattern matches at the start up to the first of the digits
      that fill the rest, the value becomes `IIV`, a space and those digits. */
  lemma RewriteHvValue(v: string, d: nat)
    requires HvAt(v, 0) == Some(d + 1) && DigitsAt(v, d, |v| - d)
    ensures RewriteHv(v) == "IIV " + v[d..]
  {
    RewriteAtHv(v, d + 1);
    forall k | d + 1 <= k < |v| ensures v[k] != 'H' {
      assert IsDigit(v[k]);
    }
    RewriteWithoutH(v, d + 1);
    assert v[d..] == [v[d]] + v[d + 1..];
  }

  /** Where the pattern matches at the start, the rewrite writes `IIV `, the
      first digit and goes on after it. */
  lemma RewriteAtHv(v: string, e: nat)
    requires HvAt(v, 0) == Some(e)
    ensures RewriteHv(v) == "IIV " + [v[e - 1]] + RewriteHvFrom(v, e)
  {
  }

  /** Any other authority code holds no `H` and is left as it is. */
  lemma RewritePlainValue(v: string, x: string, d: nat)
    requires x in AuthorityPrefixes && x != "HIV" && x != "HV"
    requires |x| <= d < |v| && v[..|x|] == x
    requires SkipSpaces(v, |x|) == d && DigitsAt(v, d, |v| - d)
    ensures RewriteHv(v) == v
  {
    assert 'H' !in x;
    forall k | 0 <= k < |v| ensures v[k] != 'H' {
      if k < |x| {
        assert v[k] == x[k];
      }
    }
    RewriteWithoutH(v, 0);
  }

  /** The rewrite pattern matches an `HV` or `HIV` authority match at its start,
      up to its first digit. */
  lemma HvAtAuthority(v: string, x: string, d: nat)
    requires x == "HIV" || x == "HV"
    requires |x| <= d < |v| && v[..|x|] == x
    requires SkipSpaces(v, |x|) == d && IsDigit(v[d])
    ensures HvAt(v, 0) == Some(d + 1)
  {
    assert v[0] == 'H' && Boundary(v, 0);
    if x == "HIV" {
      assert v[1..3] == "IV";
    } else {
      assert v[1] == 'V';
    }
  }

  /** Skipping whitespace in a slice finds the same place as in the whole string. */
  lemma {:induction false} SkipSpacesShift(s: string, v: string, p: nat, j: nat, q: nat)
    requires p <= j && p + |v| <= |s| && v == s[p..p + |v|] && q == SkipSpaces(s, j) && q < p + |v|
    ensures SkipSpaces(v, j - p) == q - p
    decreases |s| - j
  {
    if j < |s| && IsSpace(s[j]) {
      assert v[j - p] == s[j];
      SkipSpacesShift(s, v, p, j + 1, q);
    } else {
      assert v[j - p] == s[j];
    }
  }

  // ------------------------------------------------------- MRZ sanitising

  /** A per-character form for MRZ sanitising: whatever it keeps is in the
      MRZ alphabet `[A-Z0-9<]`.  Each MRZ reader has its own. */
  predicate MrzForms(form: char -> Option<char>) {
    forall c :: form(c).Some? ==> MrzChar(form(c).value)
  }

  /** The form drops every whitespace character. */
  predicate DropsSpaces(form: char -> Option<char>) {
    forall c :: IsSpace(c) ==> form(c).None?
  }

  /** The rewrites and the `re.sub(r"[^A-Z0-9<]", "", ...)` filter that both
      MRZ readers apply: every character through `form`, the dropped ones
      left out, the rest in order. */
  function Keep(form: char -> Option<char>, u: string): (r: string)
    requires MrzForms(form)
    ensures |r| <= |u|
    ensures forall i :: 0 <= i < |r| ==> MrzChar(r[i])
  {
    if u == [] then []
    else
      var n := |u| - 1;
      Keep(form, u[..n]) + (match form(u[n]) case Some(c) => [c] case None => [])
  }

  /** The filter distributes over concatenation, so a pair of tokens is
      sanitised as the two sanitised tokens side by side. */
  lemma {:induction false} KeepAppend(form: char -> Option<char>, x: string, y: string)
    requires MrzForms(form)
    ensures Keep(form, x + y) == Keep(form, x) + Keep(form, y)
  {
    if y == [] {
      assert x + y == x;
    } else {
      var n := |y| - 1;
      assert (x + y)[..|x + y| - 1] == x + y[..n];
      assert (x + y)[|x + y| - 1] == y[n];
      KeepAppend(form, x, y[..n]);
    }
  }

  /** Whitespace is dropped entirely. */
  lemma {:induction false} KeepSpaces(form: char -> Option<char>, w: string)
    requires MrzForms(form) && DropsSpaces(form)
    requires forall i :: 0 <= i < |w| ==> IsSpace(w[i])
    ensures Keep(form, w) == []
  {
    if w != [] {
      KeepSpaces(form, w[..|w| - 1]);
    }
  }

  /** Trimming the token first, as both readers do, changes nothing. */
  lemma KeepStripped(form: char -> Option<char>, s: string)
    requires MrzForms(form) && DropsSpaces(form)
    ensures Keep(form, Strip(s)) == Keep(form, s)
  {
    KeepStripLeft(form, s);
    KeepStripRight(form, StripLeft(s));
  }

  lemma KeepStripLeft(form: char -> Option<char>, s: string)
    requires MrzForms(form) && DropsSpaces(form)
    ensures Keep(form, StripLeft(s)) == Keep(form, s)
  {
    var l := StripLeft(s);
    var k := |s| - |l|;
    StripLeftDrops(s);
    assert s == s[..k] + l;
    KeepSpaces(form, s[..k]);
    KeepAppend(form, s[..k], l);
  }

  lemma KeepStripRight(form: char -> Option<char>, l: string)
    requires MrzForms(form) && DropsSpaces(form)
    ensures Keep(form, StripRight(l)) == Keep(form, l)
  {
    var r := StripRight(l);
    StripRightDrops(l);
    assert l == r + l[|r|..];
    KeepSpaces(form, l[|r|..]);
    KeepAppend(form, r, l[|r|..]);
  }
}

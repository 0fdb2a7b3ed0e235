/** The tests the passport parser applies to a single token before it takes
    it as a value: a sex token, a place, a name, a location and a piece of
    the issuing authority.  Each test turns away dates and MRZ lines, which
    the lemmas at the end check against the date reader and the TD3 encoder. */
module PassportValues {
  import opened Wrappers
  import opened Text
  import opened Patterns
  import opened Utils
  import opened PassportDates
  import opened PassportMrz
  import IdMrz

  /** `any(ch.isalpha() for ch in s)` */
  predicate HasLetter(s: string) {
    exists i :: 0 <= i < |s| && IsAlpha(s[i])
  }

  /** `_has_lowercase_letters` */
  predicate HasLowercase(s: string) {
    exists i :: 0 <= i < |s| && IsLower(s[i])
  }

  /** `_is_sex_token`: the trimmed, upper-cased token is `M`, `F`, `ERKAK` or `AYOL`. */
  predicate IsSexToken(t: string) {
    var up := Upper(Strip(t));
    up == "M" || up == "F" || up == "ERKAK" || up == "AYOL"
  }

  /** The MRZ form of a token is a passport line 1, or a line 2 holding a filler. */
  predicate MrzLooking(st: string) {
    MrzLine1Start(st) || (MrzRun(st, 40, 50) && '<' in st)
  }

  /** `_looks_like_place_value`: at least three characters once trimmed, no
      date, no sex token, nothing that reads as an MRZ line, and a letter. */
  predicate LooksLikePlaceValue(t: string) {
    var s := Strip(t);
    t != [] && |s| >= 3 && PickDateAnyFormat(s).None? && !IsSexToken(s)
    && !MrzLooking(Sanitize(s)) && HasLetter(s)
  }

  /** The upper-cased words `_looks_like_name_value` refuses as names. */
  const NameStop: seq<string> :=
    ["SM", "SUZB", "UZB", "P", "M", "F", "PASSPORT", "PASPORT", "TYPE", "COUNTRY", "CODE"]

  /** A passport number (one or two capitals and seven digits) in the
      upper-cased text with its spaces removed. */
  predicate HoldsPassportNumber(s: string) {
    Search(PassportCode, RemoveChar(Upper(s), ' ')).Some?
  }

  /** `_looks_like_name_value(v, min_len)`: with its whitespace collapsed the
      value has at least `minLen` ASCII letters, holds no date and no passport
      number, does not read as either MRZ line, is not a stop word, and has a
      letter. */
  predicate LooksLikeNameValue(v: string, minLen: nat) {
    var s := Squeeze(Strip(v));
    var st := Sanitize(s);
    v != [] && |Filter(s, IsAlpha)| >= minLen && PickDateAnyFormat(s).None?
    && !HoldsPassportNumber(s) && !MrzLine1Start(st) && !MrzRun(st, 40, 50)
    && Upper(s) !in NameStop && HasLetter(s)
  }

  /** The words that mark a place in the place-of-birth fallback. */
  const LocationWords: seq<string> := ["REGION", "TUMANI", "VILOYATI", "SHAHAR", "CITY", "DISTRICT"]

  /** `_looks_like_location`: at least four characters once trimmed, no noise,
      no date, not 40 to 60 MRZ characters, and one of the place words. */
  predicate LooksLikeLocation(t: string) {
    var s := Strip(t);
    t != [] && |s| >= 4 && !Noise(s) && PickDateAnyFormat(s).None?
    && !MrzRun(Sanitize(s), 40, 60)
    && exists k :: k in LocationWords && Contains(Upper(s), k)
  }

  /** The words that end an authority: the banner of the passport. */
  const AuthorityStopWords: seq<string> :=
    ["STATE", "PERSONALIZATION", "CENTRE", "CENTER", "PASSPORT", "UZB", "O'ZBEKISTON", "REPUBLIC", "SIGNATURE"]

  /** `_looks_like_authority_piece`: at least three characters once trimmed,
      not an MRZ line, no passport number, at most two digits, no banner word,
      and a letter. */
  predicate LooksLikeAuthorityPiece(t: string) {
    var s := Strip(t);
    var st := Sanitize(s);
    t != [] && |s| >= 3 && !MrzLine1Start(st) && !(MrzRun(st, 40, 50) && |st| >= 40)
    && !HoldsPassportNumber(s) && |Filter(s, IsDigit)| < 3
    && !(exists w :: w in AuthorityStopWords && Contains(Upper(s), w))
    && HasLetter(s)
  }

  // ------------------------------------------------------------------ lemmas

  /** The last test of the name check never decides: a value with at least
      one ASCII letter has a letter. */
  lemma NameLetterRedundant(v: string, minLen: nat)
    requires minLen >= 1
    ensures var s := Squeeze(Strip(v));
      LooksLikeNameValue(v, minLen) <==>
        v != [] && |Filter(s, IsAlpha)| >= minLen && PickDateAnyFormat(s).None?
        && !HoldsPassportNumber(s) && !MrzLine1Start(Sanitize(s)) && !MrzRun(Sanitize(s), 40, 50)
        && Upper(s) !in NameStop
  {
    var s := Squeeze(Strip(v));
    var f := Filter(s, IsAlpha);
    if |f| >= 1 {
      assert f[0] in f;
      var i :| 0 <= i < |s| && s[i] == f[0];
      assert IsAlpha(s[i]);
    }
  }

  /** A string without whitespace is one word, so collapsing whitespace keeps it. */
  lemma SqueezeWord(w: string)
    requires IsWord(w)
    ensures Squeeze(w) == w
  {
    WordLengthAll(w);
    assert StripLeft(w) == w;
    assert w[..|w|] == w;
    var empty: string := w[|w|..];
    assert empty == [] && StripLeft(empty) == [];
    assert Words(empty) == [];
    assert Words(w) == [w] + Words(empty);
  }

  lemma {:induction false} WordLengthAll(w: string)
    requires NoSpace(w)
    ensures WordLength(w) == |w|
  {
    if w != [] {
      WordLengthAll(w[1..]);
    }
  }

  /** A string of MRZ characters has no whitespace to trim or collapse. */
  lemma MrzTextIsWord(l: string)
    requires l != [] && forall i :: 0 <= i < |l| ==> MrzChar(l[i])
    ensures IsWord(l) && Strip(l) == l && Squeeze(Strip(l)) == l && Sanitize(l) == l
  {
    MrzNoSpace(l);
    StripOfStripped(l);
    SqueezeWord(l);
    SanitizeMrzText(l);
  }

  lemma MrzNoSpace(l: string)
    requires forall i :: 0 <= i < |l| ==> MrzChar(l[i])
    ensures NoSpace(l)
  {
    forall i | 0 <= i < |l| ensures !IsSpace(l[i]) {
      assert MrzChar(l[i]);
    }
  }

  /** A line of 40 to 50 MRZ characters that starts a passport line 1 or
      holds a filler is never a place, a name, a location or an authority piece. */
  lemma MrzLineNotValue(l: string)
    requires MrzRun(l, 40, 50) && (MrzLine1Start(l) || '<' in l)
    ensures !LooksLikePlaceValue(l) && !LooksLikeNameValue(l, 3)
    ensures !LooksLikeLocation(l) && !LooksLikeAuthorityPiece(l)
  {
    MrzTextIsWord(l);
  }

  /** The two lines of an encoded passport are never taken as a value. */
  lemma EncodedLinesNotValues(h: Holder)
    requires Encodable(h)
    ensures var l1 := EncodeLine1(h);
      !LooksLikePlaceValue(l1) && !LooksLikeNameValue(l1, 3) && !LooksLikeLocation(l1) && !LooksLikeAuthorityPiece(l1)
    ensures var l2 := EncodeLine2(h);
      !LooksLikePlaceValue(l2) && !LooksLikeNameValue(l2, 3) && !LooksLikeLocation(l2) && !LooksLikeAuthorityPiece(l2)
  {
    var l1 := EncodeLine1(h);
    var l2 := EncodeLine2(h);
    Line1Alphabet(h);
    Line2Alphabet(h);
    assert l1[..5] == "P<UZB";
    assert l1[0] == 'P' && l1[1] == '<' && IsUpper(l1[2]) && IsUpper(l1[3]) && IsUpper(l1[4]);
    MrzLineNotValue(l1);
    assert l2[43] == '<';
    MrzLineNotValue(l2);
  }

  /** A dotted date is never a place, a name or a location: the date reader
      picks it up first. */
  lemma DateNotValue(d: string)
    requires DottedShape(d)
    ensures !LooksLikePlaceValue(d) && !LooksLikeNameValue(d, 3) && !LooksLikeLocation(d)
  {
    assert forall i :: 0 <= i < |d| ==> !IsSpace(d[i]);
    StripOfStripped(d);
    SqueezeWord(d);
    PickDotted(d);
  }
}

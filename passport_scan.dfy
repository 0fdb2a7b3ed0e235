/** The look-ahead of the passport parser: after a caption at position `i`,
    each reader walks a window of the following tokens, skipping some,
    stopping at some and taking the first value it recognises.  A reader is
    a `Step` function on tokens run by the one `Scan` below; each loop of the
    source is a method proved equal to its scan. */
module PassportScan {
  import opened Wrappers
  import opened Text
  import opened Patterns
  import opened Calendar
  import opened Fields
  import opened Utils
  import opened PassportDates
  import opened PassportValues
  import IdParser

  /** What a reader does with one token. */
  datatype Step = Skip | Stop | Hit(value: string)

  /** The value of the first token of `tokens[j..hi]` the reader takes,
      unless it stops first. */
  function Scan(tokens: seq<string>, step: string -> Step, j: nat, hi: nat): Option<string>
    requires hi <= |tokens|
    decreases hi - j
  {
    if j >= hi then None
    else match step(tokens[j])
      case Skip => Scan(tokens, step, j + 1, hi)
      case Stop => None
      case Hit(v) => Some(v)
  }

  /** `range(start + 1, min(len(tokens), start + 1 + ahead))` ends here. */
  function WindowEnd(tokens: seq<string>, start: nat, ahead: nat): (hi: nat)
    ensures hi <= |tokens|
  {
    Min(start + 1 + ahead, |tokens|)
  }

  /** A scan yields a value exactly when some token of the range is taken
      and every token before it is skipped; the value is that token's. */
  lemma {:induction false} ScanFirst(tokens: seq<string>, step: string -> Step, j: nat, hi: nat)
    requires hi <= |tokens|
    ensures Scan(tokens, step, j, hi).Some? <==>
              exists k :: j <= k < hi && step(tokens[k]).Hit? && forall m :: j <= m < k ==> step(tokens[m]).Skip?
    ensures Scan(tokens, step, j, hi).Some? ==>
              exists k :: j <= k < hi && step(tokens[k]) == Hit(Scan(tokens, step, j, hi).value)
    decreases hi - j
  {
    if j < hi {
      ScanFirst(tokens, step, j + 1, hi);
      if step(tokens[j]).Skip? && Scan(tokens, step, j + 1, hi).Some? {
        var k :| j + 1 <= k < hi && step(tokens[k]).Hit? && forall m :: j + 1 <= m < k ==> step(tokens[m]).Skip?;
        assert forall m :: j <= m < k ==> step(tokens[m]).Skip?;
      }
    }
  }

  /** One token of a scan, as the loops take it. */
  lemma ScanStep(tokens: seq<string>, step: string -> Step, j: nat, hi: nat, s: Step)
    requires j < hi <= |tokens| && step(tokens[j]) == s
    ensures Scan(tokens, step, j, hi) == match s
      case Skip => Scan(tokens, step, j + 1, hi)
      case Stop => None
      case Hit(v) => Some(v)
  {
  }

  /** A longer window finds whatever a shorter one finds. */
  lemma {:induction false} ScanLonger(tokens: seq<string>, step: string -> Step, j: nat, hi: nat, hi': nat)
    requires hi <= hi' <= |tokens| && Scan(tokens, step, j, hi).Some?
    ensures Scan(tokens, step, j, hi') == Scan(tokens, step, j, hi)
    decreases hi - j
  {
    if step(tokens[j]).Skip? {
      ScanLonger(tokens, step, j + 1, hi, hi');
    }
  }

  /** Two readers that agree on every token scan alike. */
  lemma {:induction false} ScanSame(tokens: seq<string>, a: string -> Step, b: string -> Step, j: nat, hi: nat)
    requires hi <= |tokens| && forall t :: a(t) == b(t)
    ensures Scan(tokens, a, j, hi) == Scan(tokens, b, j, hi)
    decreases hi - j
  {
    if j < hi {
      ScanSame(tokens, a, b, j + 1, hi);
    }
  }

  /** The token is blank or noise once trimmed. */
  predicate Blank(t: string) { t == [] || Noise(t) }

  /** The token reads as a caption. */
  predicate Caption(sim: MatchCount, labels: Dict, t: string) { BestLabel(sim, t, labels).Some? }

  /** A hit of `Squeeze(Strip(t))` for a non-blank `t` is never empty. */
  lemma SqueezedNonEmpty(tok: string)
    requires Strip(tok) != []
    ensures Squeeze(Strip(tok)) != []
  {
    StripIdempotent(tok);
  }

  /** The loop every reader of the source runs: walk `tokens[j..hi]`, skip,
      stop or return the first value taken. */
  method RunScan(tokens: seq<string>, step: string -> Step, j0: nat, hi: nat) returns (r: Option<string>)
    requires hi <= |tokens|
    ensures r == Scan(tokens, step, j0, hi)
  {
    var j := j0;
    while j < hi
      invariant Scan(tokens, step, j, hi) == Scan(tokens, step, j0, hi)
      decreases hi - j
    {
      var s := step(tokens[j]);
      if s.Stop? {
        return None;
      }
      if s.Hit? {
        return Some(s.value);
      }
      j := j + 1;
    }
    return None;
  }

  // ----------------------------------------------------------- _next_non_noise

  /** `_next_non_noise`: skip blank tokens, noise and captions; take the
      first other token, trimmed. */
  function NonNoiseAt(sim: MatchCount, labels: Dict, tok: string): Step {
    var t := Strip(tok);
      if Blank(t) || Caption(sim, labels, t) then Skip else Hit(t)
  }

  function NonNoiseStep(sim: MatchCount, labels: Dict): string -> Step {
    tok => NonNoiseAt(sim, labels, tok)
  }

  function NextNonNoise(sim: MatchCount, labels: Dict, tokens: seq<string>, start: nat): (r: Option<string>)
    ensures r.Some? ==> r.value != [] && Strip(r.value) == r.value
    ensures r.Some? ==> exists k :: start < k < |tokens| && k <= start + 10 && r.value == Strip(tokens[k])
  {
    var hi := WindowEnd(tokens, start, 10);
    var r := Scan(tokens, NonNoiseStep(sim, labels), start + 1, hi);
    ScanFirst(tokens, NonNoiseStep(sim, labels), start + 1, hi);
    if r.Some? then
      var k :| start + 1 <= k < hi && NonNoiseStep(sim, labels)(tokens[k]) == Hit(r.value);
      StripIdempotent(tokens[k]);
      r
    else r
  }

  method FindNextNonNoise(sim: MatchCount, labels: Dict, tokens: seq<string>, start: nat) returns (r: Option<string>)
    ensures r == NextNonNoise(sim, labels, tokens, start)
  {
    r := RunScan(tokens, NonNoiseStep(sim, labels), start + 1, WindowEnd(tokens, start, 10));
  }

  // ------------------------------------------------ extract_place_top/bottom

  /** `extract_place_top`: skip blank tokens and noise, stop at a caption,
      skip what is not a place and take the first place, whitespace collapsed. */
  function PlaceAt(sim: MatchCount, labels: Dict, tok: string): Step {
    var t := Strip(tok);
      if Blank(t) then Skip
      else if Caption(sim, labels, t) then Stop
      else if LooksLikePlaceValue(t) then Hit(Squeeze(t))
      else Skip
  }

  function PlaceStep(sim: MatchCount, labels: Dict): string -> Step {
    tok => PlaceAt(sim, labels, tok)
  }

  /** `extract_place_bottom` besides: skip sex tokens and dates before the
      place test.  Whether a sex token was seen does not matter, since both
      of its branches take the same place. */
  function BottomAt(sim: MatchCount, labels: Dict, tok: string): Step {
    var t := Strip(tok);
      if Blank(t) then Skip
      else if Caption(sim, labels, t) then Stop
      else if IsSexToken(t) then Skip
      else if PickDateAnyFormat(t).Some? then Skip
      else if LooksLikePlaceValue(t) then Hit(Squeeze(t))
      else Skip
  }

  function BottomStep(sim: MatchCount, labels: Dict): string -> Step {
    tok => BottomAt(sim, labels, tok)
  }

  /** Ten tokens after the caption. */
  function PlaceTop(sim: MatchCount, labels: Dict, tokens: seq<string>, i: nat): Option<string> {
    Scan(tokens, PlaceStep(sim, labels), i + 1, WindowEnd(tokens, i, 10))
  }

  /** Fourteen tokens after the caption. */
  function PlaceBottom(sim: MatchCount, labels: Dict, tokens: seq<string>, i: nat): Option<string> {
    Scan(tokens, BottomStep(sim, labels), i + 1, WindowEnd(tokens, i, 14))
  }

  /** A place value is neither a sex token nor a date, so the extra skips of
      the bottom reader change nothing: it is the top reader. */
  lemma BottomStepIsPlaceStep(sim: MatchCount, labels: Dict, tok: string)
    ensures BottomStep(sim, labels)(tok) == PlaceStep(sim, labels)(tok)
  {
    var t := Strip(tok);
    StripIdempotent(tok);
  }

  /** The bottom reader finds whatever the top reader finds, and differs only
      in looking four tokens further. */
  lemma PlaceBottomExtendsTop(sim: MatchCount, labels: Dict, tokens: seq<string>, i: nat)
    ensures PlaceBottom(sim, labels, tokens, i) == Scan(tokens, PlaceStep(sim, labels), i + 1, WindowEnd(tokens, i, 14))
    ensures PlaceTop(sim, labels, tokens, i).Some? ==> PlaceBottom(sim, labels, tokens, i) == PlaceTop(sim, labels, tokens, i)
  {
    forall t ensures BottomStep(sim, labels)(t) == PlaceStep(sim, labels)(t) {
      BottomStepIsPlaceStep(sim, labels, t);
    }
    ScanSame(tokens, BottomStep(sim, labels), PlaceStep(sim, labels), i + 1, WindowEnd(tokens, i, 14));
    if PlaceTop(sim, labels, tokens, i).Some? {
      ScanLonger(tokens, PlaceStep(sim, labels), i + 1, WindowEnd(tokens, i, 10), WindowEnd(tokens, i, 14));
    }
  }

  /** A place found after a caption is a place value of the window, with its
      whitespace collapsed, and every token before it is blank, noise or not
      a caption: the reader never looks past a caption. */
  lemma PlaceTopFound(sim: MatchCount, labels: Dict, tokens: seq<string>, i: nat) returns (k: nat)
    requires PlaceTop(sim, labels, tokens, i).Some?
    ensures i < k < WindowEnd(tokens, i, 10)
    ensures LooksLikePlaceValue(Strip(tokens[k])) && PlaceTop(sim, labels, tokens, i).value == Squeeze(Strip(tokens[k]))
    ensures forall m :: i < m < k ==> !Caption(sim, labels, Strip(tokens[m])) || Blank(Strip(tokens[m]))
  {
    k := ScanHit(tokens, PlaceStep(sim, labels), i + 1, WindowEnd(tokens, i, 10));
    PlaceAtHit(sim, labels, tokens[k]);
    PlaceSkipsBefore(sim, labels, tokens, i + 1, k);
  }

  lemma PlaceSkipsBefore(sim: MatchCount, labels: Dict, tokens: seq<string>, j: nat, k: nat)
    requires k <= |tokens| && forall m :: j <= m < k ==> PlaceStep(sim, labels)(tokens[m]).Skip?
    ensures forall m :: j <= m < k ==> !Caption(sim, labels, Strip(tokens[m])) || Blank(Strip(tokens[m]))
  {
    forall m | j <= m < k
      ensures !Caption(sim, labels, Strip(tokens[m])) || Blank(Strip(tokens[m]))
    {
      PlaceAtSkip(sim, labels, tokens[m]);
    }
  }

  lemma PlaceAtHit(sim: MatchCount, labels: Dict, tok: string)
    requires PlaceAt(sim, labels, tok).Hit?
    ensures LooksLikePlaceValue(Strip(tok)) && PlaceAt(sim, labels, tok).value == Squeeze(Strip(tok))
  {
  }

  lemma PlaceAtSkip(sim: MatchCount, labels: Dict, tok: string)
    requires PlaceAt(sim, labels, tok).Skip?
    ensures !Caption(sim, labels, Strip(tok)) || Blank(Strip(tok))
  {
  }

  /** The token a scan takes its value from, every token before it skipped. */
  lemma ScanHit(tokens: seq<string>, step: string -> Step, j: nat, hi: nat) returns (k: nat)
    requires hi <= |tokens| && Scan(tokens, step, j, hi).Some?
    ensures j <= k < hi && step(tokens[k]) == Hit(Scan(tokens, step, j, hi).value)
    ensures forall m :: j <= m < k ==> step(tokens[m]).Skip?
  {
    ScanFirst(tokens, step, j, hi);
    k :| j <= k < hi && step(tokens[k]).Hit? && forall m :: j <= m < k ==> step(tokens[m]).Skip?;
    ScanAt(tokens, step, j, hi, k);
  }

  /** With every token before `k` skipped, the scan is decided at `k`. */
  lemma {:induction false} ScanAt(tokens: seq<string>, step: string -> Step, j: nat, hi: nat, k: nat)
    requires j <= k < hi <= |tokens| && forall m :: j <= m < k ==> step(tokens[m]).Skip?
    ensures Scan(tokens, step, j, hi) == Scan(tokens, step, k, hi)
    decreases k - j
  {
    if j < k {
      ScanAt(tokens, step, j + 1, hi, k);
    }
  }

  method ExtractPlaceTop(sim: MatchCount, labels: Dict, tokens: seq<string>, i: nat) returns (r: Option<string>)
    ensures r == PlaceTop(sim, labels, tokens, i)
  {
    r := RunScan(tokens, PlaceStep(sim, labels), i + 1, WindowEnd(tokens, i, 10));
  }

  method ExtractPlaceBottom(sim: MatchCount, labels: Dict, tokens: seq<string>, i: nat) returns (r: Option<string>)
    ensures r == PlaceBottom(sim, labels, tokens, i)
  {
    r := RunScan(tokens, BottomStep(sim, labels), i + 1, WindowEnd(tokens, i, 14));
  }

  // ---------------------------------------------------------- _next_name_value

  /** `_next_name_value`: skip blank tokens, noise and captions; take the
      first token that, whitespace collapsed, looks like a name. */
  function NameAt(sim: MatchCount, labels: Dict, minLen: nat, tok: string): Step {
    var t := Strip(tok);
      if Blank(t) || Caption(sim, labels, t) then Skip
      else if LooksLikeNameValue(Squeeze(t), minLen) then Hit(Squeeze(t))
      else Skip
  }

  function NameStep(sim: MatchCount, labels: Dict, minLen: nat): string -> Step {
    tok => NameAt(sim, labels, minLen, tok)
  }

  function NextNameValue(sim: MatchCount, labels: Dict, tokens: seq<string>, start: nat): (r: Option<string>)
    ensures r.Some? ==> LooksLikeNameValue(r.value, 3) && r.value != []
  {
    var hi := WindowEnd(tokens, start, 10);
    var r := Scan(tokens, NameStep(sim, labels, 3), start + 1, hi);
    ScanFirst(tokens, NameStep(sim, labels, 3), start + 1, hi);
    r
  }

  method FindNextNameValue(sim: MatchCount, labels: Dict, tokens: seq<string>, start: nat) returns (r: Option<string>)
    ensures r == NextNameValue(sim, labels, tokens, start)
  {
    r := RunScan(tokens, NameStep(sim, labels, 3), start + 1, WindowEnd(tokens, start, 10));
  }

  // --------------------------------------------------- _extract_value_for_field

  /** The date branch: a date in any format in the value, else the four
      digits of the value followed by the four digits of `next` read as
      `DDMMYYYY`. */
  function DateValue(v: string, next: Option<string>): (r: Option<string>)
    ensures r.Some? ==> DottedShape(r.value)
  {
    match PickDateAnyFormat(v)
    case Some(d) => Some(d)
    case None =>
      var vd := Filter(v, IsDigit);
      if |vd| == 4 && next.Some? then
        var nd := Filter(next.value, IsDigit);
        if |nd| == 4 then FromDdmmyyyy8(vd + nd) else None
      else None
  }

  /** The sex branch: `M` or `F` as written, else `ERKAK` or `AYOL` inside. */
  function SexValue(v: string): (r: Option<string>)
    ensures r.Some? ==> r.value == "M" || r.value == "F"
  {
    var up := Upper(v);
    if up == "M" || up == "F" then Some(up)
    else if Contains(up, "ERKAK") then Some("M")
    else if Contains(up, "AYOL") then Some("F")
    else None
  }

  /** The card-number branch, upper-cased with spaces removed: the first
      passport number in it, else the whole text when it is one or two
      capitals and six to eight digits. */
  function CardValue(v: string): (r: Option<string>)
    ensures r.Some? ==> 7 <= |r.value| <= 10 && Alphanumeric(r.value)
  {
    var up := RemoveChar(Upper(v), ' ');
    match Find(PassportCode, up)
    case Some(m) => FindShape(PassportCode, up); Some(m)
    case None => if LetterDigitCode(up) then Some(up) else None
  }

  predicate PersonField(f: Field) { f == Surname || f == GivenName || f == Patronymic }

  /** The value a caption for `f` yields from the first non-noise token `v`
      after it, the token `next` right after the caption and the first
      name-like token `name` after it. */
  function ValueFor(f: Field, v: string, next: Option<string>, name: Option<string>): (r: Option<string>)
    requires Strip(v) != []
    requires name.Some? ==> LooksLikeNameValue(name.value, 3)
    ensures r.Some? ==> r.value != []
    ensures r.Some? && IdParser.DateField(f) ==> DottedShape(r.value)
    ensures r.Some? && f == Sex ==> r.value == "M" || r.value == "F"
    ensures r.Some? && f == CardNumber ==> 7 <= |r.value| <= 10 && Alphanumeric(r.value)
    ensures r.Some? && PersonField(f) ==> exists n :: LooksLikeNameValue(n, 3) && r.value == Upper(n)
  {
    if IdParser.DateField(f) then DateValue(v, next)
    else if f == Sex then SexValue(v)
    else if f == CardNumber then CardValue(v)
    else if PersonField(f) then
      match name
      case None => None
      case Some(n) => Some(Upper(n))
    else
      SqueezedNonEmpty(v);
      Some(Squeeze(Strip(v)))
  }

  /** `_extract_value_for_field(tokens, i, field)`: nothing without a
      non-noise token after the caption; then a date, a sex, a card number,
      the next name-like token upper-cased, or the token itself with its
      whitespace collapsed.  The second date token is `tokens[i + 1]`, the
      token right after the caption, not the token after the value. */
  function FieldValue(sim: MatchCount, labels: Dict, tokens: seq<string>, i: nat, f: Field): (r: Option<string>)
    ensures r.Some? ==> r.value != []
    ensures r.Some? && IdParser.DateField(f) ==> DottedShape(r.value)
    ensures r.Some? && f == Sex ==> r.value == "M" || r.value == "F"
    ensures r.Some? && f == CardNumber ==> 7 <= |r.value| <= 10 && Alphanumeric(r.value)
    ensures r.Some? && PersonField(f) ==> exists n :: LooksLikeNameValue(n, 3) && r.value == Upper(n)
  {
    match NextNonNoise(sim, labels, tokens, i)
    case None => None
    case Some(v) =>
      ValueFor(f, v, Follower(tokens, i), NextNameValue(sim, labels, tokens, i))
  }

  /** The token right after the caption, trimmed. */
  function Follower(tokens: seq<string>, i: nat): Option<string> {
    if i + 1 < |tokens| then Some(Strip(tokens[i + 1])) else None
  }

  method ExtractValueForField(sim: MatchCount, labels: Dict, tokens: seq<string>, i: nat, f: Field)
    returns (r: Option<string>)
    ensures r == FieldValue(sim, labels, tokens, i, f)
  {
    var v := FindNextNonNoise(sim, labels, tokens, i);
    if v.None? {
      return None;
    }
    if f == DateOfBirth || f == DateOfIssue || f == DateOfExpiry {
      var d := PickDateAnyFormat(v.value);
      if d.Some? {
        return d;
      }
      var vDigits := Filter(v.value, IsDigit);
      if |vDigits| == 4 && i + 1 < |tokens| {
        var v2 := Strip(tokens[i + 1]);
        var v2Digits := Filter(v2, IsDigit);
        if |v2Digits| == 4 {
          var d2 := FromDdmmyyyy8(vDigits + v2Digits);
          if d2.Some? {
            return d2;
          }
        }
      }
      return None;
    }
    if f == Sex {
      return SexValue(v.value);
    }
    if f == CardNumber {
      return CardValue(v.value);
    }
    if f == Surname || f == GivenName || f == Patronymic {
      var nv := FindNextNameValue(sim, labels, tokens, i);
      if nv.None? {
        return None;
      }
      return Some(Upper(nv.value));
    }
    var s := Squeeze(Strip(v.value));
    SqueezedNonEmpty(v.value);
    return Some(s);
  }

  /** Four digits hold no date of any format. */
  lemma FourDigitsNoDate(v: string)
    requires |v| == 4 && AllDigits(v)
    ensures PickDateAnyFormat(v).None? && Filter(v, IsDigit) == v
  {
    StripOfStripped(v);
    NoDateInDigits(v);
    FilterKeepsAll(v, IsDigit);
    NoPick(v);
  }

  lemma NoPick(t: string)
    requires Strip(t) == t && Search(DottedDate, t).None? && Search(SpacedDate, t).None?
    requires |Filter(t, IsDigit)| != 8
    ensures PickDateAnyFormat(t).None?
  {
  }

  /** A lone group of four digits, offered as its own follower, is read as
      `DDMMYYYY` from the group written twice. */
  lemma DateJoinRepeatsToken(v: string)
    requires |v| == 4 && AllDigits(v)
    ensures DateValue(v, Some(v)) == FromDdmmyyyy8(v + v)
  {
    FourDigitsNoDate(v);
  }

  /** So `2001` becomes the 20 January 2001. */
  lemma DateJoinExample()
    ensures DateValue("2001", Some("2001")) == Some("20.01.2001")
  {
    var v := "2001";
    assert AllDigits(v);
    DateJoinRepeatsToken(v);
    var d := Date(2001, 1, 20);
    Twentieth(d);
    TwentiethFormat(d);
    FromDdmmyyyy8RoundTrip(d);
  }

  lemma Twentieth(d: Date)
    requires d == Date(2001, 1, 20)
    ensures InRange(d) && Plausible(d) && Digits8(d) == "2001" + "2001"
  {
  }

  lemma TwentiethFormat(d: Date)
    requires d == Date(2001, 1, 20)
    ensures Format(d) == "20.01.2001"
  {
  }

  /** When the value is the token right after the caption, the second group
      of digits is the value's own. */
  lemma DateJoinReadsValueTwice(sim: MatchCount, labels: Dict, tokens: seq<string>, i: nat, f: Field)
    requires IdParser.DateField(f) && i + 1 < |tokens|
    requires NextNonNoise(sim, labels, tokens, i) == Some(Strip(tokens[i + 1]))
    ensures FieldValue(sim, labels, tokens, i, f) == DateValue(Strip(tokens[i + 1]), Some(Strip(tokens[i + 1])))
  {
  }

  // ---------------------------------------------------------- _collect_authority

  /** `_collect_authority`: skip blank tokens, noise, dates and tokens with a
      lower-case letter; stop at a caption or at anything that is not an
      authority piece; take the others, whitespace collapsed. */
  function AuthorityAt(sim: MatchCount, labels: Dict, tok: string): Step {
    var t := Strip(tok);
      if Blank(t) then Skip
      else if PickDateAnyFormat(t).Some? then Skip
      else if Caption(sim, labels, t) then Stop
      else if HasLowercase(t) then Skip
      else if !LooksLikeAuthorityPiece(t) then Stop
      else Hit(Squeeze(t))
  }

  function AuthorityStep(sim: MatchCount, labels: Dict): string -> Step {
    tok => AuthorityAt(sim, labels, tok)
  }

  /** The values of `tokens[j..hi]` the reader takes, at most `budget` of
      them, up to the first stop. */
  function Pieces(tokens: seq<string>, step: string -> Step, j: nat, hi: nat, budget: nat): (ps: seq<string>)
    requires hi <= |tokens|
    ensures |ps| <= budget
    decreases hi - j
  {
    if j >= hi || budget == 0 then []
    else match step(tokens[j])
      case Skip => Pieces(tokens, step, j + 1, hi, budget)
      case Stop => []
      case Hit(p) => [p] + Pieces(tokens, step, j + 1, hi, budget - 1)
  }

  /** Every piece is the value the reader takes from some token of the range. */
  lemma PiecesFrom(tokens: seq<string>, step: string -> Step, j: nat, hi: nat, budget: nat)
    requires hi <= |tokens|
    ensures forall p :: p in Pieces(tokens, step, j, hi, budget) ==>
              exists k :: j <= k < hi && step(tokens[k]) == Hit(p)
  {
    forall p | p in Pieces(tokens, step, j, hi, budget)
      ensures exists k :: j <= k < hi && step(tokens[k]) == Hit(p)
    {
      var k := PieceAt(tokens, step, j, hi, budget, p);
    }
  }

  /** The token a piece comes from. */
  lemma {:induction false} PieceAt(tokens: seq<string>, step: string -> Step, j: nat, hi: nat, budget: nat, p: string)
    returns (k: nat)
    requires hi <= |tokens| && p in Pieces(tokens, step, j, hi, budget)
    ensures j <= k < hi && step(tokens[k]) == Hit(p)
    decreases hi - j
  {
    match step(tokens[j])
    case Skip =>
      k := PieceAt(tokens, step, j + 1, hi, budget, p);
    case Hit(q) =>
      if p == q {
        k := j;
      } else {
        k := PieceAt(tokens, step, j + 1, hi, budget - 1, p);
      }
  }

  /** At most six pieces from the twelve tokens after the caption, joined by spaces. */
  function CollectAuthority(sim: MatchCount, labels: Dict, tokens: seq<string>, i: nat): (r: Option<string>)
    ensures r.Some? ==> r.value != []
  {
    var ps := Pieces(tokens, AuthorityStep(sim, labels), i + 1, WindowEnd(tokens, i, 12), 6);
    if ps == [] then None
    else
      FirstPieceNonEmpty(sim, labels, tokens, i);
      JoinNonEmpty(ps, " ");
      Some(Join(ps, " "))
  }

  /** What the reader takes from one token is an authority piece without a
      lower-case letter, whitespace collapsed, and never empty. */
  lemma AuthorityAtHit(sim: MatchCount, labels: Dict, tok: string)
    requires AuthorityAt(sim, labels, tok).Hit?
    ensures var t := Strip(tok);
      LooksLikeAuthorityPiece(t) && !HasLowercase(t) && AuthorityAt(sim, labels, tok).value == Squeeze(t)
      && AuthorityAt(sim, labels, tok).value != []
  {
    SqueezedNonEmpty(tok);
    StripIdempotent(tok);
  }

  lemma FirstPieceNonEmpty(sim: MatchCount, labels: Dict, tokens: seq<string>, i: nat)
    requires Pieces(tokens, AuthorityStep(sim, labels), i + 1, WindowEnd(tokens, i, 12), 6) != []
    ensures Pieces(tokens, AuthorityStep(sim, labels), i + 1, WindowEnd(tokens, i, 12), 6)[0] != []
  {
    var ps := Pieces(tokens, AuthorityStep(sim, labels), i + 1, WindowEnd(tokens, i, 12), 6);
    var k := PieceAt(tokens, AuthorityStep(sim, labels), i + 1, WindowEnd(tokens, i, 12), 6, ps[0]);
    AuthorityAtHit(sim, labels, tokens[k]);
  }

  /** Each collected piece is an authority piece of the window, without a
      lower-case letter, with its whitespace collapsed. */
  lemma AuthorityPieces(sim: MatchCount, labels: Dict, tokens: seq<string>, i: nat)
    ensures var ps := Pieces(tokens, AuthorityStep(sim, labels), i + 1, WindowEnd(tokens, i, 12), 6);
      forall n :: 0 <= n < |ps| ==>
        exists k :: i < k < WindowEnd(tokens, i, 12)
                    && LooksLikeAuthorityPiece(Strip(tokens[k])) && !HasLowercase(Strip(tokens[k]))
                    && ps[n] == Squeeze(Strip(tokens[k]))
  {
    var ps := Pieces(tokens, AuthorityStep(sim, labels), i + 1, WindowEnd(tokens, i, 12), 6);
    forall n | 0 <= n < |ps|
      ensures exists k :: i < k < WindowEnd(tokens, i, 12)
                          && LooksLikeAuthorityPiece(Strip(tokens[k])) && !HasLowercase(Strip(tokens[k]))
                          && ps[n] == Squeeze(Strip(tokens[k]))
    {
      var k := AuthorityPieceAt(sim, labels, tokens, i, ps[n]);
    }
  }

  lemma AuthorityPieceAt(sim: MatchCount, labels: Dict, tokens: seq<string>, i: nat, p: string) returns (k: nat)
    requires p in Pieces(tokens, AuthorityStep(sim, labels), i + 1, WindowEnd(tokens, i, 12), 6)
    ensures i < k < WindowEnd(tokens, i, 12)
    ensures LooksLikeAuthorityPiece(Strip(tokens[k])) && !HasLowercase(Strip(tokens[k])) && p == Squeeze(Strip(tokens[k]))
  {
    k := PieceAt(tokens, AuthorityStep(sim, labels), i + 1, WindowEnd(tokens, i, 12), 6, p);
    AuthorityAtHit(sim, labels, tokens[k]);
  }

  /** The loop of `_collect_authority`: gather the pieces, at most `budget`. */
  method RunPieces(tokens: seq<string>, step: string -> Step, j0: nat, hi: nat, budget: nat) returns (pieces: seq<string>)
    requires hi <= |tokens|
    ensures pieces == Pieces(tokens, step, j0, hi, budget)
  {
    pieces := [];
    if budget == 0 {
      return;
    }
    var j := j0;
    while j < hi
      invariant |pieces| < budget
      invariant pieces + Pieces(tokens, step, j, hi, budget - |pieces|) == Pieces(tokens, step, j0, hi, budget)
      decreases hi - j
    {
      var s := step(tokens[j]);
      if s.Stop? {
        return;
      }
      if s.Hit? {
        pieces := pieces + [s.value];
        if |pieces| >= budget {
          return;
        }
      }
      j := j + 1;
    }
  }

  method CollectAuthorityPieces(sim: MatchCount, labels: Dict, tokens: seq<string>, i: nat) returns (r: Option<string>)
    ensures r == CollectAuthority(sim, labels, tokens, i)
  {
    var pieces := RunPieces(tokens, AuthorityStep(sim, labels), i + 1, WindowEnd(tokens, i, 12), 6);
    if pieces == [] {
      return None;
    }
    return Some(Join(pieces, " "));
  }
}

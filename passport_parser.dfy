/** `parse_passport`: the passport pipeline.  The non-blank tokens, trimmed,
    are searched for the two TD3 lines, whose decoded fields fill the record
    first; a caption scan then reads the value after each recognised caption
    of a field still empty; last, four fallbacks over all the tokens fill the
    place of birth, the issue date, the passport number and the authority
    when they are still empty. */
module PassportParser {
  import opened Wrappers
  import opened Text
  import opened Patterns
  import opened Calendar
  import opened Fields
  import opened Utils
  import opened Labels
  import opened PassportDates
  import opened PassportMrz
  import opened PassportValues
  import opened PassportScan
  import IdParser

  /** The field keys of the passport result. */
  const PassportFields: set<Field> :=
    {Surname, GivenName, Patronymic, DateOfBirth, Sex, DateOfIssue, DateOfExpiry,
     CardNumber, Authority, PlaceOfBirth}

  /** A caption dictionary whose fields are passport fields or the passport
      number, which the result does not have until a caption adds it. */
  predicate PassportLabels(labels: Dict) {
    forall f :: f in Keys(labels) ==> f in PassportFields || f == PassportNumber
  }

  /** The normalised dictionary of old-style captions is such a dictionary. */
  lemma OldLabelsArePassportLabels()
    ensures PassportLabels(LabelsOldNorm)
  {
    DictionaryKeys();
    OldKeysPassport(Keys(LabelsOldNorm));
  }

  lemma OldKeysPassport(ks: seq<Field>)
    requires ks == BaseKeys + [CardNumber, Authority, PassportNumber]
    ensures forall f :: f in ks ==> f in PassportFields || f == PassportNumber
  {
  }

  // ------------------------------------------------------------- clean tokens

  /** `[str(t).strip() for t in tokens if t is not None and str(t).strip()]` */
  function Clean(tokens: seq<string>): seq<string> {
    if tokens == [] then []
    else
      var n := |tokens| - 1;
      Clean(tokens[..n]) + (if Strip(tokens[n]) != [] then [Strip(tokens[n])] else [])
  }

  /** A clean token is a trimmed non-blank token of the input ... */
  lemma {:induction false} CleanFrom(tokens: seq<string>, t: string) returns (k: nat)
    requires t in Clean(tokens)
    ensures k < |tokens| && Strip(tokens[k]) != [] && t == Strip(tokens[k])
  {
    var n := |tokens| - 1;
    if t in Clean(tokens[..n]) {
      k := CleanFrom(tokens[..n], t);
      assert tokens[k] == tokens[..n][k];
    } else {
      k := n;
    }
  }

  /** ... and every non-blank input token is there, trimmed. */
  lemma {:induction false} CleanHas(tokens: seq<string>, k: nat)
    requires k < |tokens| && Strip(tokens[k]) != []
    ensures Strip(tokens[k]) in Clean(tokens)
  {
    var n := |tokens| - 1;
    if k < n {
      CleanHas(tokens[..n], k);
      assert tokens[..n][k] == tokens[k];
    }
  }

  /** Every clean token is non-blank and already trimmed. */
  lemma {:induction false} CleanTrimmed(tokens: seq<string>)
    ensures forall k :: 0 <= k < |Clean(tokens)| ==> Clean(tokens)[k] != [] && Strip(Clean(tokens)[k]) == Clean(tokens)[k]
  {
    if tokens != [] {
      var n := |tokens| - 1;
      CleanTrimmed(tokens[..n]);
      StripIdempotent(tokens[n]);
    }
  }

  method CleanTokens(tokens: seq<string>) returns (clean: seq<string>)
    ensures clean == Clean(tokens)
  {
    clean := [];
    for k := 0 to |tokens|
      invariant clean == Clean(tokens[..k])
    {
      assert tokens[..k + 1][..k] == tokens[..k];
      var t := Strip(tokens[k]);
      if t != [] {
        clean := clean + [t];
      }
    }
    assert tokens[..|tokens|] == tokens;
  }

  // ------------------------------------------------------------ MRZ prefill

  /** The decoded TD3 fields in the order of the dictionary `parse_mrz_td3` builds. */
  function Td3Pairs(d: Td3): (ps: seq<(Field, Option<string>)>)
    ensures |ps| == 7
  {
    [(Surname, d.surname), (GivenName, d.givenName), (Patronymic, d.patronymic),
     (CardNumber, d.cardNumber), (DateOfBirth, d.dateOfBirth), (Sex, d.sex),
     (DateOfExpiry, d.dateOfExpiry)]
  }

  /** The empty result with the decoded MRZ fields written in. */
  function MrzRecord(d: Td3): Record {
    IdParser.Prefill(EmptyRecord(PassportFields), Td3Pairs(d))
  }

  method PrefillPairs(r: Record, ps: seq<(Field, Option<string>)>) returns (out: Record)
    ensures out == IdParser.Prefill(r, ps)
  {
    out := r;
    for k := 0 to |ps|
      invariant out == IdParser.Prefill(r, ps[..k])
    {
      assert ps[..k + 1][..k] == ps[..k];
      var (f, v) := ps[k];
      if v.Some? && v.value != [] && Unset(out, f) {
        out := out[f := v];
      }
    }
    assert ps[..|ps|] == ps;
  }

  /** No decoded value is the empty string: what `parse_mrz_td3` yields. */
  predicate NoEmptyValue(d: Td3) {
    forall k :: 0 <= k < 7 ==> IdParser.Truthy(Td3Pairs(d)[k].1) == Td3Pairs(d)[k].1
  }

  /** The decoder never yields an empty value, so the `if v` test of the
      prefill never drops one. */
  lemma DecodedNoEmptyValue(l1: Option<string>, l2: Option<string>)
    ensures NoEmptyValue(ParseMrzTd3(l1, l2))
  {
  }

  /** Every decoded value that is present lands in its field of the empty
      result, and the result has exactly the passport keys. */
  lemma MrzRecordLands(d: Td3)
    requires NoEmptyValue(d)
    ensures var r := MrzRecord(d);
      r.Keys == PassportFields
      && r[Surname] == d.surname && r[GivenName] == d.givenName && r[Patronymic] == d.patronymic
      && r[CardNumber] == d.cardNumber && r[DateOfBirth] == d.dateOfBirth && r[Sex] == d.sex
      && r[DateOfExpiry] == d.dateOfExpiry
  {
    var ps := Td3Pairs(d);
    MrzRecordKeys(d);
    assert forall k :: 0 <= k < |ps| ==> Td3Field(ps[k].0);
    assert IdParser.DistinctPairFields(ps);
    Td3PrefillLands(ps);
    assert ps[0].0 == Surname && ps[1].0 == GivenName && ps[2].0 == Patronymic && ps[3].0 == CardNumber;
    assert ps[4].0 == DateOfBirth && ps[5].0 == Sex && ps[6].0 == DateOfExpiry;
  }

  /** The fields the TD3 lines carry. */
  predicate Td3Field(f: Field) {
    f.Surname? || f.GivenName? || f.Patronymic? || f.CardNumber? || f.DateOfBirth? || f.Sex? || f.DateOfExpiry?
  }

  /** The MRZ record has the passport keys and leaves the issue date, the
      authority and the place of birth empty. */
  lemma MrzRecordKeys(d: Td3)
    ensures var r := MrzRecord(d);
      r.Keys == PassportFields && r[DateOfIssue].None? && r[Authority].None? && r[PlaceOfBirth].None?
  {
    var ps := Td3Pairs(d);
    assert forall k :: 0 <= k < |ps| ==> Td3Field(ps[k].0);
    Td3PrefillKeys(ps);
  }

  lemma Td3PrefillKeys(ps: seq<(Field, Option<string>)>)
    requires forall k :: 0 <= k < |ps| ==> Td3Field(ps[k].0)
    ensures var r := IdParser.Prefill(EmptyRecord(PassportFields), ps);
      r.Keys == PassportFields && r[DateOfIssue].None? && r[Authority].None? && r[PlaceOfBirth].None?
  {
    var e := EmptyRecord(PassportFields);
    assert forall k :: 0 <= k < |ps| ==> ps[k].0 in e;
    IdParser.PrefillGrows(e, ps);
    IdParser.PrefillUntouched(e, ps, DateOfIssue);
    IdParser.PrefillUntouched(e, ps, Authority);
    IdParser.PrefillUntouched(e, ps, PlaceOfBirth);
  }

  lemma Td3PrefillLands(ps: seq<(Field, Option<string>)>)
    requires IdParser.DistinctPairFields(ps) && forall k :: 0 <= k < |ps| ==> Td3Field(ps[k].0)
    ensures forall k :: 0 <= k < |ps| ==>
              ps[k].0 in IdParser.Prefill(EmptyRecord(PassportFields), ps)
              && IdParser.Prefill(EmptyRecord(PassportFields), ps)[ps[k].0] == IdParser.Truthy(ps[k].1)
  {
    var e := EmptyRecord(PassportFields);
    assert forall k :: 0 <= k < |ps| ==> ps[k].0 in e && e[ps[k].0].None?;
    PrefillLandsAll(e, ps);
  }

  /** With distinct fields all present and empty, every pair's value lands. */
  lemma PrefillLandsAll(r: Record, ps: seq<(Field, Option<string>)>)
    requires IdParser.DistinctPairFields(ps)
    requires forall k :: 0 <= k < |ps| ==> ps[k].0 in r && r[ps[k].0].None?
    ensures forall k :: 0 <= k < |ps| ==>
              ps[k].0 in IdParser.Prefill(r, ps) && IdParser.Prefill(r, ps)[ps[k].0] == IdParser.Truthy(ps[k].1)
  {
    forall k | 0 <= k < |ps|
      ensures ps[k].0 in IdParser.Prefill(r, ps) && IdParser.Prefill(r, ps)[ps[k].0] == IdParser.Truthy(ps[k].1)
    {
      IdParser.PrefillLands(r, ps, k);
    }
  }
  // ------------------------------------------------------------- caption scan

  /** What the caption of `f` at clean token `i` yields: for the place of
      birth the top reader, else the bottom reader, else the plain value;
      for the authority the collected pieces; for any other field the plain
      value.  The plain value is computed for every caption, as in the source,
      but only these branches use it. */
  function CaptionValue(sim: MatchCount, labels: Dict, clean: seq<string>, i: nat, f: Field): (r: Option<string>)
    ensures r.Some? && IdParser.DateField(f) ==> DottedShape(r.value)
    ensures r.Some? && f == Sex ==> r.value == "M" || r.value == "F"
  {
    var v := FieldValue(sim, labels, clean, i, f);
    if f == PlaceOfBirth then
      var top := PlaceTop(sim, labels, clean, i);
      if IdParser.Truthy(top).Some? then top
      else
        var bottom := PlaceBottom(sim, labels, clean, i);
        if IdParser.Truthy(bottom).Some? then bottom else v
    else if f == Authority then CollectAuthority(sim, labels, clean, i)
    else v
  }

  /** `CaptionValue` as the value function of a caption scan. */
  function ValueAt(sim: MatchCount, labels: Dict, clean: seq<string>): (nat, Field) -> Option<string> {
    (i: nat, f: Field) => CaptionValue(sim, labels, clean, i, f)
  }

  /** The caption loop of `parse_passport` over the first `n` clean tokens. */
  function Captions(sim: MatchCount, labels: Dict, clean: seq<string>, r: Record, n: nat): Record
    requires n <= |clean|
  {
    IdParser.CaptionScan(IdParser.CaptionOf(sim, labels), ValueAt(sim, labels, clean), clean, r, n)
  }

  /** The top reader is redundant: the place of birth a caption yields is the
      bottom reader's place, else the plain value. */
  lemma PlaceCaptionValue(sim: MatchCount, labels: Dict, clean: seq<string>, i: nat)
    ensures CaptionValue(sim, labels, clean, i, PlaceOfBirth) ==
              var bottom := PlaceBottom(sim, labels, clean, i);
              if IdParser.Truthy(bottom).Some? then bottom else FieldValue(sim, labels, clean, i, PlaceOfBirth)
  {
    PlaceBottomExtendsTop(sim, labels, clean, i);
  }

  /** The body of the caption loop for token `i`, once its caption names a
      field that is still empty: every branch writes a value only when it is
      non-empty, so the write is the one `SetIfEmpty` describes. */
  method CaptionToken(sim: MatchCount, labels: Dict, clean: seq<string>, r: Record, i: nat) returns (out: Record)
    requires i < |clean|
    ensures out == IdParser.CaptionStep(IdParser.CaptionOf(sim, labels), ValueAt(sim, labels, clean), clean, r, i)
  {
    out := r;
    var lm := BestLabelMatch(sim, clean[i], labels);
    if lm.None? {
      return;
    }
    var (f, _) := lm.value;
    if !Unset(out, f) {
      return;
    }
    var v := ReadCaptionValue(sim, labels, clean, i, f);
    if v.Some? && v.value != [] {
      out := out[f := v];
    }
  }

  method ReadCaptionValue(sim: MatchCount, labels: Dict, clean: seq<string>, i: nat, f: Field) returns (r: Option<string>)
    ensures r == CaptionValue(sim, labels, clean, i, f)
  {
    var v := ExtractValueForField(sim, labels, clean, i, f);
    if f == PlaceOfBirth {
      var top := ExtractPlaceTop(sim, labels, clean, i);
      if top.Some? && top.value != [] {
        return top;
      }
      var bottom := ExtractPlaceBottom(sim, labels, clean, i);
      if bottom.Some? && bottom.value != [] {
        return bottom;
      }
      return v;
    } else if f == Authority {
      r := CollectAuthorityPieces(sim, labels, clean, i);
    } else {
      r := v;
    }
  }

  method ScanCaptions(sim: MatchCount, labels: Dict, clean: seq<string>, r: Record) returns (out: Record)
    ensures out == Captions(sim, labels, clean, r, |clean|)
  {
    out := r;
    for i := 0 to |clean|
      invariant out == Captions(sim, labels, clean, r, i)
    {
      out := CaptionToken(sim, labels, clean, out, i);
    }
  }
  /** The dates of a record are written `DD.MM.YYYY` and its sex is `M` or `F`. */
  predicate Typed(r: Record) {
    forall f :: f in r && r[f].Some? ==>
      (IdParser.DateField(f) ==> DottedShape(r[f].value)) && (f == Sex ==> r[f].value == "M" || r[f].value == "F")
  }

  /** A value that may go into field `f` of a typed record. */
  predicate TypedValue(f: Field, v: Option<string>) {
    v.Some? ==> (IdParser.DateField(f) ==> DottedShape(v.value)) && (f == Sex ==> v.value == "M" || v.value == "F")
  }

  lemma SetTyped(r: Record, f: Field, v: Option<string>)
    requires Typed(r) && TypedValue(f, v)
    ensures Typed(SetIfEmpty(r, f, v))
  {
  }

  /** The caption scan keeps a record typed. */
  lemma CaptionsTyped(sim: MatchCount, labels: Dict, clean: seq<string>, r: Record, n: nat)
    requires n <= |clean| && Typed(r)
    ensures Typed(Captions(sim, labels, clean, r, n))
  {
    var value := ValueAt(sim, labels, clean);
    forall i: nat, f: Field ensures TypedValue(f, value(i, f)) {
      assert value(i, f) == CaptionValue(sim, labels, clean, i, f);
    }
    CaptionScanTyped(IdParser.CaptionOf(sim, labels), value, clean, r, n);
  }

  lemma {:induction false} CaptionScanTyped(caption: string -> Option<Field>, value: (nat, Field) -> Option<string>,
                                            clean: seq<string>, r: Record, n: nat)
    requires n <= |clean| && Typed(r) && forall i: nat, f: Field :: TypedValue(f, value(i, f))
    ensures Typed(IdParser.CaptionScan(caption, value, clean, r, n))
  {
    if n > 0 {
      var prev := IdParser.CaptionScan(caption, value, clean, r, n - 1);
      CaptionScanTyped(caption, value, clean, r, n - 1);
      match caption(clean[n - 1])
      case None =>
      case Some(f) =>
        SetTyped(prev, f, value(n - 1, f));
    }
  }

  /** The captions of a passport dictionary name passport fields or the passport number. */
  lemma PassportCaptions(sim: MatchCount, labels: Dict)
    requires PassportLabels(labels)
    ensures IdParser.CaptionsIn(IdParser.CaptionOf(sim, labels), PassportFields + {PassportNumber})
  {
    forall t | IdParser.CaptionOf(sim, labels)(t).Some?
      ensures IdParser.CaptionOf(sim, labels)(t).value in PassportFields + {PassportNumber}
    {
      BestLabelThreshold(sim, t, labels);
    }
  }

  /** A caption scan adds no key beyond the fields its captions name. */
  lemma {:induction false} CaptionScanKeys(caption: string -> Option<Field>, value: (nat, Field) -> Option<string>,
                                           clean: seq<string>, r: Record, n: nat, ks: set<Field>)
    requires n <= |clean| && IdParser.CaptionsIn(caption, ks)
    ensures IdParser.CaptionScan(caption, value, clean, r, n).Keys <= r.Keys + ks
  {
    if n > 0 {
      CaptionScanKeys(caption, value, clean, r, n - 1, ks);
    }
  }

  /** The caption scan never overwrites a field, keeps every value non-empty
      and the record typed, and adds at most the passport number as a key. */
  lemma CaptionsGrow(sim: MatchCount, labels: Dict, clean: seq<string>, r: Record)
    requires PassportLabels(labels)
    ensures var out := Captions(sim, labels, clean, r, |clean|);
      Grows(r, out) && r.Keys <= out.Keys <= r.Keys + PassportFields + {PassportNumber}
      && (FilledNonEmpty(r) ==> FilledNonEmpty(out)) && (Typed(r) ==> Typed(out))
  {
    IdParser.CaptionScanGrows(IdParser.CaptionOf(sim, labels), ValueAt(sim, labels, clean), clean, r, |clean|);
    PassportCaptions(sim, labels);
    CaptionScanKeys(IdParser.CaptionOf(sim, labels), ValueAt(sim, labels, clean), clean, r, |clean|,
                    PassportFields + {PassportNumber});
    if Typed(r) {
      CaptionsTyped(sim, labels, clean, r, |clean|);
    }
  }
  // --------------------------------------------------------------- fallbacks

  /** The value `probe` gives the first token of `tokens[j..hi]` it accepts,
      every token before it refused. */
  lemma {:induction false} FirstHitAt(tokens: seq<string>, probe: string -> Option<string>, j: nat, hi: nat)
    returns (k: nat)
    requires hi <= |tokens| && IdParser.FirstHit(tokens, probe, j, hi).Some?
    ensures j <= k < hi && probe(tokens[k]) == IdParser.FirstHit(tokens, probe, j, hi)
    ensures forall m :: j <= m < k ==> probe(tokens[m]).None?
    decreases hi - j
  {
    if probe(tokens[j]).Some? {
      k := j;
    } else {
      k := FirstHitAt(tokens, probe, j + 1, hi);
    }
  }

  /** The loop every fallback runs: the first token the probe accepts. */
  method FirstHitLoop(tokens: seq<string>, probe: string -> Option<string>) returns (r: Option<string>)
    ensures r == IdParser.FirstHit(tokens, probe, 0, |tokens|)
  {
    var j := 0;
    while j < |tokens|
      invariant j <= |tokens|
      invariant IdParser.FirstHit(tokens, probe, j, |tokens|) == IdParser.FirstHit(tokens, probe, 0, |tokens|)
    {
      var v := probe(tokens[j]);
      if v.Some? {
        return v;
      }
      j := j + 1;
    }
    return None;
  }

  /** `_extract_place_of_birth_fallback`, for one token: a location, whitespace collapsed. */
  function LocationHit(t: string): Option<string> {
    if LooksLikeLocation(t) then Some(Squeeze(Strip(t))) else None
  }

  function PlaceFallback(clean: seq<string>): Option<string> {
    IdParser.FirstHit(clean, LocationHit, 0, |clean|)
  }

  /** The place fallback is the first location among the tokens, whitespace
      collapsed, and never empty. */
  lemma PlaceFallbackFound(clean: seq<string>) returns (k: nat)
    requires PlaceFallback(clean).Some?
    ensures k < |clean| && LooksLikeLocation(clean[k]) && PlaceFallback(clean).value == Squeeze(Strip(clean[k]))
    ensures PlaceFallback(clean).value != []
    ensures forall m :: 0 <= m < k ==> !LooksLikeLocation(clean[m])
  {
    k := FirstHitAt(clean, LocationHit, 0, |clean|);
    SqueezedNonEmpty(clean[k]);
    forall m | 0 <= m < k ensures !LooksLikeLocation(clean[m]) {
      assert LocationHit(clean[m]).None?;
    }
  }

  /** The card-number pass, for one token: the first passport number in the
      token upper-cased with its spaces removed. */
  function CardHit(t: string): Option<string> {
    Find(PassportCode, RemoveChar(Upper(t), ' '))
  }

  function CardFallback(clean: seq<string>): Option<string> {
    IdParser.FirstHit(clean, CardHit, 0, |clean|)
  }

  /** The card fallback is a passport number of the first token that holds one. */
  lemma CardFallbackFound(clean: seq<string>) returns (k: nat)
    requires CardFallback(clean).Some?
    ensures k < |clean| && HoldsPassportNumber(clean[k]) && CardFallback(clean) == CardHit(clean[k])
    ensures 8 <= |CardFallback(clean).value| <= 9 && Alphanumeric(CardFallback(clean).value)
    ensures forall m :: 0 <= m < k ==> !HoldsPassportNumber(clean[m])
  {
    k := FirstHitAt(clean, CardHit, 0, |clean|);
    FindShape(PassportCode, RemoveChar(Upper(clean[k]), ' '));
    forall m | 0 <= m < k ensures !HoldsPassportNumber(clean[m]) {
      assert CardHit(clean[m]).None?;
    }
  }

  /** `_extract_authority_fallback`, for one token: with its whitespace
      collapsed, the whole token upper-cased is an authority prefix and
      three to twenty digits. */
  function AuthorityCodeHit(t: string): Option<string> {
    var s := Squeeze(Strip(t));
    if AuthorityFullMatch(Upper(s)) then Some(s) else None
  }

  function AuthorityFallback(clean: seq<string>): Option<string> {
    IdParser.FirstHit(clean, AuthorityCodeHit, 0, |clean|)
  }

  /** The authority fallback is the first token that is an authority code,
      whitespace collapsed, and never empty. */
  lemma AuthorityFallbackFound(clean: seq<string>) returns (k: nat)
    requires AuthorityFallback(clean).Some?
    ensures k < |clean| && AuthorityFullMatch(Upper(Squeeze(Strip(clean[k]))))
    ensures AuthorityFallback(clean).value == Squeeze(Strip(clean[k])) && AuthorityFallback(clean).value != []
    ensures forall m :: 0 <= m < k ==> !AuthorityFullMatch(Upper(Squeeze(Strip(clean[m]))))
  {
    k := FirstHitAt(clean, AuthorityCodeHit, 0, |clean|);
    var s := Squeeze(Strip(clean[k]));
    var x :| x in FallbackAuthorityPrefixes && StartsWith(Upper(s), x) && SpacesThenDigits(Upper(s)[|x|..], 3, 20);
    forall m | 0 <= m < k ensures !AuthorityFullMatch(Upper(Squeeze(Strip(clean[m])))) {
      assert AuthorityCodeHit(clean[m]).None?;
    }
  }

  // ------------------------------------------------------ issue-date fallback

  /** The date a token yields to the issue-date fallback: the date it reads
      as, unless that is the (non-empty) birth or expiry date. */
  function DateOf(t: string, dob: Option<string>, exp: Option<string>): (r: Option<string>)
    ensures r.Some? ==> DottedShape(r.value) && r == PickDateAnyFormat(t)
  {
    var d := PickDateAnyFormat(t);
    if d.None? || d == IdParser.Truthy(dob) || d == IdParser.Truthy(exp) then None else d
  }

  predicate AllDotted(ds: seq<string>) {
    forall k :: 0 <= k < |ds| ==> DottedShape(ds[k])
  }

  /** The values `pick` yields on the tokens, in token order. */
  function Picks(tokens: seq<string>, pick: string -> Option<string>): seq<string> {
    if tokens == [] then []
    else
      var n := |tokens| - 1;
      var v := pick(tokens[n]);
      Picks(tokens[..n], pick) + (if v.Some? then [v.value] else [])
  }

  /** Every picked value comes from a token ... */
  lemma {:induction false} PicksFrom(tokens: seq<string>, pick: string -> Option<string>, i: nat) returns (k: nat)
    requires i < |Picks(tokens, pick)|
    ensures k < |tokens| && pick(tokens[k]) == Some(Picks(tokens, pick)[i])
  {
    var n := |tokens| - 1;
    if i < |Picks(tokens[..n], pick)| {
      k := PicksFrom(tokens[..n], pick, i);
      assert tokens[..n][k] == tokens[k];
    } else {
      k := n;
    }
  }

  /** ... and every value a token yields is picked. */
  lemma {:induction false} PicksHas(tokens: seq<string>, pick: string -> Option<string>, k: nat)
    requires k < |tokens| && pick(tokens[k]).Some?
    ensures pick(tokens[k]).value in Picks(tokens, pick)
  {
    var n := |tokens| - 1;
    if k < n {
      PicksHas(tokens[..n], pick, k);
      assert tokens[..n][k] == tokens[k];
    }
  }

  /** The dates the tokens yield, in token order: `dates` of the source. */
  function DatesOf(tokens: seq<string>, dob: Option<string>, exp: Option<string>): (ds: seq<string>)
    ensures AllDotted(ds)
  {
    var ds := Picks(tokens, t => DateOf(t, dob, exp));
    DatesDotted(tokens, dob, exp);
    ds
  }

  lemma DatesDotted(tokens: seq<string>, dob: Option<string>, exp: Option<string>)
    ensures AllDotted(Picks(tokens, t => DateOf(t, dob, exp)))
  {
    var pick := t => DateOf(t, dob, exp);
    forall i | 0 <= i < |Picks(tokens, pick)| ensures DottedShape(Picks(tokens, pick)[i]) {
      var k := PicksFrom(tokens, pick, i);
    }
  }

  /** Every collected date comes from a token ... */
  lemma DatesOfFrom(tokens: seq<string>, dob: Option<string>, exp: Option<string>, n: nat) returns (k: nat)
    requires n < |DatesOf(tokens, dob, exp)|
    ensures k < |tokens| && DateOf(tokens[k], dob, exp) == Some(DatesOf(tokens, dob, exp)[n])
  {
    k := PicksFrom(tokens, t => DateOf(t, dob, exp), n);
  }

  /** ... and every date a token yields is collected. */
  lemma DatesOfHas(tokens: seq<string>, dob: Option<string>, exp: Option<string>, k: nat)
    requires k < |tokens| && DateOf(tokens[k], dob, exp).Some?
    ensures DateOf(tokens[k], dob, exp).value in DatesOf(tokens, dob, exp)
  {
    PicksHas(tokens, t => DateOf(t, dob, exp), k);
  }

  /** `key(d)`: the digits of `DD.MM.YYYY` read as the number `YYYYMMDD`. */
  function Key(d: string): nat
    requires DottedShape(d)
  {
    var x := Spelled(d);
    x.year * 10000 + x.month * 100 + x.day
  }

  /** Two dotted dates of one key are the same string, so sorting the set of
      dates by key and taking the last is taking the one of largest key. */
  lemma KeyInjective(a: string, b: string)
    requires DottedShape(a) && DottedShape(b) && Key(a) == Key(b)
    ensures a == b
  {
    var x, y := Spelled(a), Spelled(b);
    Unpack(x.year, x.month, x.day, y.year, y.month, y.day);
    FormatSpelled(a);
    FormatSpelled(b);
  }

  lemma Unpack(y1: int, m1: int, d1: int, y2: int, m2: int, d2: int)
    requires 0 <= m1 < 100 && 0 <= d1 < 100 && 0 <= m2 < 100 && 0 <= d2 < 100
    ensures (y1 * 10000 + m1 * 100 + d1 < y2 * 10000 + m2 * 100 + d2) <==>
            (y1 < y2 || (y1 == y2 && (m1 < m2 || (m1 == m2 && d1 < d2))))
    ensures y1 * 10000 + m1 * 100 + d1 == y2 * 10000 + m2 * 100 + d2 ==> y1 == y2 && m1 == m2 && d1 == d2
  {
    var k1 := m1 * 100 + d1;
    var k2 := m2 * 100 + d2;
    assert 0 <= k1 < 10000 && 0 <= k2 < 10000;
    if y1 < y2 {
      assert y1 * 10000 + 10000 <= y2 * 10000;
    } else if y2 < y1 {
      assert y2 * 10000 + 10000 <= y1 * 10000;
    }
  }

  /** The key order is the date order. */
  lemma KeyOrder(a: string, b: string)
    requires DottedShape(a) && DottedShape(b)
    ensures Key(a) < Key(b) <==> Before(Spelled(a), Spelled(b))
  {
    var x, y := Spelled(a), Spelled(b);
    Unpack(x.year, x.month, x.day, y.year, y.month, y.day);
  }

  /** A date is a candidate when its key is below the bound, if there is one. */
  predicate Eligible(d: string, below: Option<nat>)
    requires DottedShape(d)
  {
    below.None? || Key(d) < below.value
  }

  /** The candidate of largest key, if any. */
  function Latest(ds: seq<string>, below: Option<nat>): (r: Option<string>)
    requires AllDotted(ds)
    ensures r.Some? ==> r.value in ds
  {
    if ds == [] then None
    else
      var rest := Latest(ds[..|ds| - 1], below);
      var d := ds[|ds| - 1];
      if !Eligible(d, below) || (rest.Some? && Key(d) <= Key(rest.value)) then rest else Some(d)
  }

  /** The latest candidate is a candidate. */
  lemma {:induction false} LatestEligible(ds: seq<string>, below: Option<nat>)
    requires AllDotted(ds) && Latest(ds, below).Some?
    ensures Eligible(Latest(ds, below).value, below)
  {
    var n := |ds| - 1;
    var rest := Latest(ds[..n], below);
    if Latest(ds, below) == rest {
      LatestEligible(ds[..n], below);
    }
  }

  /** The latest candidate exists when some date is a candidate, and no
      candidate has a larger key. */
  lemma {:induction false} LatestMax(ds: seq<string>, below: Option<nat>, k: nat)
    requires AllDotted(ds) && k < |ds| && Eligible(ds[k], below)
    ensures Latest(ds, below).Some? && Key(ds[k]) <= Key(Latest(ds, below).value)
  {
    var n := |ds| - 1;
    if k < n {
      LatestMax(ds[..n], below, k);
    }
  }

  /** `_extract_issue_date_fallback`: among the dates the tokens yield, the
      latest one before the expiry date when the expiry is known and one is,
      else the latest. */
  function IssueDate(tokens: seq<string>, dob: Option<string>, exp: Option<string>): (r: Option<string>)
    requires IdParser.Truthy(exp).Some? ==> DottedShape(exp.value)
    ensures r.Some? ==> DottedShape(r.value)
  {
    var ds := DatesOf(tokens, dob, exp);
    var before := if IdParser.Truthy(exp).Some? then Latest(ds, Some(Key(exp.value))) else None;
    if before.Some? then before else Latest(ds, None)
  }

  /** The issue date is read from a token and is neither the birth nor the
      expiry date. */
  lemma IssueDateFrom(tokens: seq<string>, dob: Option<string>, exp: Option<string>) returns (k: nat)
    requires IdParser.Truthy(exp).Some? ==> DottedShape(exp.value)
    requires IssueDate(tokens, dob, exp).Some?
    ensures k < |tokens| && PickDateAnyFormat(tokens[k]) == IssueDate(tokens, dob, exp)
    ensures IssueDate(tokens, dob, exp) != IdParser.Truthy(dob) && IssueDate(tokens, dob, exp) != IdParser.Truthy(exp)
  {
    var ds := DatesOf(tokens, dob, exp);
    var v := IssueDate(tokens, dob, exp).value;
    var n :| 0 <= n < |ds| && ds[n] == v;
    k := DatesOfFrom(tokens, dob, exp, n);
  }

  /** When a token yields a date before the known expiry date, the issue
      date is before the expiry and no such date is later. */
  lemma IssueDateBeforeExpiry(tokens: seq<string>, dob: Option<string>, exp: Option<string>, k: nat)
    requires IdParser.Truthy(exp).Some? && DottedShape(exp.value)
    requires k < |tokens| && DateOf(tokens[k], dob, exp).Some?
    requires Before(Spelled(DateOf(tokens[k], dob, exp).value), Spelled(exp.value))
    ensures var r := IssueDate(tokens, dob, exp);
      r.Some? && Before(Spelled(r.value), Spelled(exp.value))
      && !Before(Spelled(r.value), Spelled(DateOf(tokens[k], dob, exp).value))
  {
    var ds := DatesOf(tokens, dob, exp);
    var d := DateOf(tokens[k], dob, exp).value;
    var below := Some(Key(exp.value));
    DatesOfHas(tokens, dob, exp, k);
    var n :| 0 <= n < |ds| && ds[n] == d;
    KeyOrder(d, exp.value);
    LatestMax(ds, below, n);
    var r := Latest(ds, below).value;
    LatestEligible(ds, below);
    KeyOrder(r, exp.value);
    KeyOrder(r, d);
  }

  /** When no token yields a date before the expiry (or the expiry is
      unknown), the issue date is the latest date any token yields. */
  lemma IssueDateLatest(tokens: seq<string>, dob: Option<string>, exp: Option<string>, k: nat)
    requires IdParser.Truthy(exp).Some? ==> DottedShape(exp.value)
    requires IdParser.Truthy(exp).Some? ==> forall m :: 0 <= m < |tokens| && DateOf(tokens[m], dob, exp).Some? ==>
               !Before(Spelled(DateOf(tokens[m], dob, exp).value), Spelled(exp.value))
    requires k < |tokens| && DateOf(tokens[k], dob, exp).Some?
    ensures var r := IssueDate(tokens, dob, exp);
      r.Some? && !Before(Spelled(r.value), Spelled(DateOf(tokens[k], dob, exp).value))
  {
    var ds := DatesOf(tokens, dob, exp);
    var d := DateOf(tokens[k], dob, exp).value;
    DatesOfHas(tokens, dob, exp, k);
    var n :| 0 <= n < |ds| && ds[n] == d;
    if IdParser.Truthy(exp).Some? && Latest(ds, Some(Key(exp.value))).Some? {
      var below := Some(Key(exp.value));
      var r := Latest(ds, below).value;
      LatestEligible(ds, below);
      var n' :| 0 <= n' < |ds| && ds[n'] == r;
      var m := DatesOfFrom(tokens, dob, exp, n');
      KeyOrder(r, exp.value);
      assert false;
    }
    LatestMax(ds, None, n);
    KeyOrder(Latest(ds, None).value, d);
  }

  /** There is an issue date exactly when some token yields a date. */
  lemma IssueDateSome(tokens: seq<string>, dob: Option<string>, exp: Option<string>)
    requires IdParser.Truthy(exp).Some? ==> DottedShape(exp.value)
    ensures IssueDate(tokens, dob, exp).Some? <==> exists m :: 0 <= m < |tokens| && DateOf(tokens[m], dob, exp).Some?
  {
    if IssueDate(tokens, dob, exp).Some? {
      var k := IssueDateFrom(tokens, dob, exp);
      assert DateOf(tokens[k], dob, exp).Some?;
    }
    if m :| 0 <= m < |tokens| && DateOf(tokens[m], dob, exp).Some? {
      var ds := DatesOf(tokens, dob, exp);
      DatesOfHas(tokens, dob, exp, m);
      var n :| 0 <= n < |ds| && ds[n] == DateOf(tokens[m], dob, exp).value;
      LatestMax(ds, None, n);
    }
  }

  /** `[d for d in dates if key(d) < bound]` then the last of the sorted set:
      the candidate of largest key, one date at a time. */
  method LatestOf(ds: seq<string>, below: Option<nat>) returns (r: Option<string>)
    requires AllDotted(ds)
    ensures r == Latest(ds, below)
  {
    r := None;
    for i := 0 to |ds|
      invariant r == Latest(ds[..i], below)
    {
      assert ds[..i + 1][..i] == ds[..i];
      var d := ds[i];
      if Eligible(d, below) && (r.None? || Key(d) > Key(r.value)) {
        r := Some(d);
      }
    }
    assert ds[..|ds|] == ds;
  }

  method IssueDateFallback(tokens: seq<string>, dob: Option<string>, exp: Option<string>) returns (r: Option<string>)
    requires IdParser.Truthy(exp).Some? ==> DottedShape(exp.value)
    ensures r == IssueDate(tokens, dob, exp)
  {
    var dates := CollectPicks(tokens, t => DateOf(t, dob, exp));
    assert dates == DatesOf(tokens, dob, exp);
    if dates == [] {
      return None;
    }
    if IdParser.Truthy(exp).Some? {
      r := LatestOf(dates, Some(Key(exp.value)));
      if r.Some? {
        return;
      }
    }
    r := LatestOf(dates, None);
  }

  /** The collecting loop: every value `pick` yields, in token order. */
  method CollectPicks(tokens: seq<string>, pick: string -> Option<string>) returns (out: seq<string>)
    ensures out == Picks(tokens, pick)
  {
    out := [];
    for j := 0 to |tokens|
      invariant out == Picks(tokens[..j], pick)
    {
      assert tokens[..j + 1][..j] == tokens[..j];
      var v := pick(tokens[j]);
      if v.Some? {
        out := out + [v.value];
      }
    }
    assert tokens[..|tokens|] == tokens;
  }

  // ------------------------------------------------------ the four fallbacks

  /** `result.get(f)` */
  function Lookup(r: Record, f: Field): Option<string> {
    if f in r then r[f] else None
  }

  /** `if result.get(f) is None: result[f] = v`, where `v` may itself be `None`. */
  function Fill(r: Record, f: Field, v: Option<string>): (out: Record)
    ensures out.Keys == r.Keys + {f}
    ensures forall g :: g != f ==> Lookup(out, g) == Lookup(r, g)
    ensures out[f] == if Unset(r, f) then v else r[f]
  {
    if Unset(r, f) then r[f := v] else r
  }

  /** Filling an empty field never overwrites one, and keeps the record
      non-empty-valued and typed when the value is. */
  lemma FillGrows(r: Record, f: Field, v: Option<string>)
    ensures Grows(r, Fill(r, f, v))
  {
  }

  lemma FillFilled(r: Record, f: Field, v: Option<string>)
    requires FilledNonEmpty(r) && (v.Some? ==> v.value != [])
    ensures FilledNonEmpty(Fill(r, f, v))
  {
  }

  lemma FillTyped(r: Record, f: Field, v: Option<string>)
    requires Typed(r) && TypedValue(f, v)
    ensures Typed(Fill(r, f, v))
  {
  }

  /** The four fills, in the order the source runs them: place of birth,
      issue date, card number, authority, each only when its field is
      still empty. */
  function FillFour(r: Record, place: Option<string>, issue: Option<string>, card: Option<string>, auth: Option<string>): Record {
    Fill(Fill(Fill(Fill(r, PlaceOfBirth, place), DateOfIssue, issue), CardNumber, card), Authority, auth)
  }

  /** The four fills never overwrite a field, add exactly their four fields
      as keys, give an empty field its value and keep the others, and keep
      the record non-empty-valued and typed when the values are. */
  lemma FillFourGrows(r: Record, place: Option<string>, issue: Option<string>, card: Option<string>, auth: Option<string>)
    ensures var out := FillFour(r, place, issue, card, auth);
      Grows(r, out) && out.Keys == r.Keys + {PlaceOfBirth, DateOfIssue, CardNumber, Authority}
  {
    var a := Fill(r, PlaceOfBirth, place);
    var b := Fill(a, DateOfIssue, issue);
    var c := Fill(b, CardNumber, card);
    FillGrows(r, PlaceOfBirth, place);
    FillGrows(a, DateOfIssue, issue);
    FillGrows(b, CardNumber, card);
    FillGrows(c, Authority, auth);
    GrowsTransitive(r, a, b);
    GrowsTransitive(r, b, c);
    GrowsTransitive(r, c, Fill(c, Authority, auth));
  }

  /** An empty field gets its fill, a filled one keeps its value. */
  lemma FillFourValues(r: Record, place: Option<string>, issue: Option<string>, card: Option<string>, auth: Option<string>)
    ensures var out := FillFour(r, place, issue, card, auth);
      out[PlaceOfBirth] == (if Unset(r, PlaceOfBirth) then place else r[PlaceOfBirth])
      && out[DateOfIssue] == (if Unset(r, DateOfIssue) then issue else r[DateOfIssue])
      && out[CardNumber] == (if Unset(r, CardNumber) then card else r[CardNumber])
      && out[Authority] == (if Unset(r, Authority) then auth else r[Authority])
  {
    var a := Fill(r, PlaceOfBirth, place);
    var b := Fill(a, DateOfIssue, issue);
    var c := Fill(b, CardNumber, card);
    assert Lookup(a, DateOfIssue) == Lookup(r, DateOfIssue);
    assert Lookup(b, CardNumber) == Lookup(r, CardNumber);
    assert Lookup(c, Authority) == Lookup(r, Authority);
    assert Lookup(c, PlaceOfBirth) == Lookup(a, PlaceOfBirth);
    assert Lookup(c, DateOfIssue) == Lookup(b, DateOfIssue);
  }

  lemma FillFourFilled(r: Record, place: Option<string>, issue: Option<string>, card: Option<string>, auth: Option<string>)
    requires FilledNonEmpty(r) && (place.Some? ==> place.value != []) && (issue.Some? ==> issue.value != [])
    requires (card.Some? ==> card.value != []) && (auth.Some? ==> auth.value != [])
    ensures FilledNonEmpty(FillFour(r, place, issue, card, auth))
  {
    var a := Fill(r, PlaceOfBirth, place);
    var b := Fill(a, DateOfIssue, issue);
    var c := Fill(b, CardNumber, card);
    FillFilled(r, PlaceOfBirth, place);
    FillFilled(a, DateOfIssue, issue);
    FillFilled(b, CardNumber, card);
    FillFilled(c, Authority, auth);
  }

  lemma FillFourTyped(r: Record, place: Option<string>, issue: Option<string>, card: Option<string>, auth: Option<string>)
    requires Typed(r) && (issue.Some? ==> DottedShape(issue.value))
    ensures Typed(FillFour(r, place, issue, card, auth))
  {
    var a := Fill(r, PlaceOfBirth, place);
    var b := Fill(a, DateOfIssue, issue);
    var c := Fill(b, CardNumber, card);
    FillTyped(r, PlaceOfBirth, place);
    FillTyped(a, DateOfIssue, issue);
    FillTyped(b, CardNumber, card);
    FillTyped(c, Authority, auth);
  }

  /** Every fallback value is non-empty, and the issue date is a dotted date. */
  lemma FallbackValues(clean: seq<string>, dob: Option<string>, exp: Option<string>)
    requires IdParser.Truthy(exp).Some? ==> DottedShape(exp.value)
    ensures PlaceFallback(clean).Some? ==> PlaceFallback(clean).value != []
    ensures CardFallback(clean).Some? ==> CardFallback(clean).value != []
    ensures AuthorityFallback(clean).Some? ==> AuthorityFallback(clean).value != []
    ensures IssueDate(clean, dob, exp).Some? ==> |IssueDate(clean, dob, exp).value| == 10
  {
    if PlaceFallback(clean).Some? {
      var _ := PlaceFallbackFound(clean);
    }
    if CardFallback(clean).Some? {
      var _ := CardFallbackFound(clean);
    }
    if AuthorityFallback(clean).Some? {
      var _ := AuthorityFallbackFound(clean);
    }
  }

  /** The fallbacks.  The issue date is read against the birth and expiry
      dates of the record as the caption scan left it: the place fill that
      runs before it touches neither. */
  function Fallbacks(r: Record, clean: seq<string>): Record
    requires Typed(r)
  {
    FillFour(r, PlaceFallback(clean), IssueDate(clean, Lookup(r, DateOfBirth), Lookup(r, DateOfExpiry)),
             CardFallback(clean), AuthorityFallback(clean))
  }

  /** The fallbacks never overwrite a field, add exactly their four fields
      as keys, and keep the record non-empty-valued and typed. */
  lemma FallbacksGrow(r: Record, clean: seq<string>)
    requires Typed(r)
    ensures var out := Fallbacks(r, clean);
      Grows(r, out) && out.Keys == r.Keys + {PlaceOfBirth, DateOfIssue, CardNumber, Authority}
      && (FilledNonEmpty(r) ==> FilledNonEmpty(out)) && Typed(out)
  {
    var dob, exp := Lookup(r, DateOfBirth), Lookup(r, DateOfExpiry);
    var place, issue, card, auth := PlaceFallback(clean), IssueDate(clean, dob, exp), CardFallback(clean), AuthorityFallback(clean);
    FallbackValues(clean, dob, exp);
    FillFourGrows(r, place, issue, card, auth);
    if FilledNonEmpty(r) {
      FillFourFilled(r, place, issue, card, auth);
    }
    FillFourTyped(r, place, issue, card, auth);
  }

  /** A field the caption scan left empty gets its fallback; one it filled
      keeps its value. */
  lemma FallbacksFill(r: Record, clean: seq<string>)
    requires Typed(r)
    ensures var out := Fallbacks(r, clean);
      out[PlaceOfBirth] == (if Unset(r, PlaceOfBirth) then PlaceFallback(clean) else r[PlaceOfBirth])
      && out[DateOfIssue] == (if Unset(r, DateOfIssue)
                              then IssueDate(clean, Lookup(r, DateOfBirth), Lookup(r, DateOfExpiry))
                              else r[DateOfIssue])
      && out[CardNumber] == (if Unset(r, CardNumber) then CardFallback(clean) else r[CardNumber])
      && out[Authority] == (if Unset(r, Authority) then AuthorityFallback(clean) else r[Authority])
  {
    FillFourValues(r, PlaceFallback(clean), IssueDate(clean, Lookup(r, DateOfBirth), Lookup(r, DateOfExpiry)),
                   CardFallback(clean), AuthorityFallback(clean));
  }

  method FillFallbacks(r: Record, clean: seq<string>) returns (out: Record)
    requires Typed(r)
    ensures out == Fallbacks(r, clean)
  {
    var place := FirstHitLoop(clean, LocationHit);
    var issue := IssueDateFallback(clean, Lookup(r, DateOfBirth), Lookup(r, DateOfExpiry));
    var card := FirstHitLoop(clean, CardHit);
    var auth := FirstHitLoop(clean, AuthorityCodeHit);
    out := FillFour(r, place, issue, card, auth);
  }

  // ------------------------------------------------------------ parse_passport

  /** What `parse_passport` returns, less the raw tokens it echoes: the
      fields and the two MRZ lines it found. */
  datatype PassportResult = PassportResult(fields: Record, line1: Option<string>, line2: Option<string>)

  /** The decoder's promise on the typed fields: dotted dates and `M` or `F`. */
  predicate Td3Typed(d: Td3) {
    (d.dateOfBirth.Some? ==> DottedShape(d.dateOfBirth.value))
    && (d.dateOfExpiry.Some? ==> DottedShape(d.dateOfExpiry.value))
    && (d.sex.Some? ==> d.sex.value == "M" || d.sex.value == "F")
  }

  /** The MRZ prefill of a decoded TD3 is typed. */
  lemma MrzRecordTyped(d: Td3)
    requires Td3Typed(d)
    ensures Typed(MrzRecord(d))
  {
    var ps := Td3Pairs(d);
    forall k | 0 <= k < |ps| ensures TypedValue(ps[k].0, ps[k].1) {
      assert k == 0 || k == 1 || k == 2 || k == 3 || k == 4 || k == 5 || k == 6;
    }
    PrefillTyped(EmptyRecord(PassportFields), ps);
  }

  lemma {:induction false} PrefillTyped(r: Record, ps: seq<(Field, Option<string>)>)
    requires Typed(r) && forall k :: 0 <= k < |ps| ==> TypedValue(ps[k].0, ps[k].1)
    ensures Typed(IdParser.Prefill(r, ps))
  {
    if ps != [] {
      var n := |ps| - 1;
      PrefillTyped(r, ps[..n]);
      SetTyped(IdParser.Prefill(r, ps[..n]), ps[n].0, ps[n].1);
    }
  }

  /** `parse_passport(tokens)`: clean the tokens, find and decode the MRZ,
      prefill its fields, run the caption scan, then the fallbacks. */
  function Passport(sim: MatchCount, labels: Dict, tokens: seq<string>): PassportResult {
    var clean := Clean(tokens);
    var (l1, l2) := MrzLines(clean);
    var r0 := MrzRecord(ParseMrzTd3(l1, l2));
    MrzRecordTyped(ParseMrzTd3(l1, l2));
    PassportResult(Stages(sim, labels, clean, r0), l1, l2)
  }

  /** The caption scan over the clean tokens, then the fallbacks. */
  function Stages(sim: MatchCount, labels: Dict, clean: seq<string>, r0: Record): Record
    requires Typed(r0)
  {
    CaptionsTyped(sim, labels, clean, r0, |clean|);
    Fallbacks(Captions(sim, labels, clean, r0, |clean|), clean)
  }

  method ParsePassport(sim: MatchCount, labels: Dict, tokens: seq<string>) returns (res: PassportResult)
    ensures res == Passport(sim, labels, tokens)
  {
    var clean := CleanTokens(tokens);
    var l1, l2 := FindMrzLines(clean);
    var d := ParseMrzTd3(l1, l2);
    var r0 := PrefillPairs(EmptyRecord(PassportFields), Td3Pairs(d));
    MrzRecordTyped(d);
    var r1 := ScanCaptions(sim, labels, clean, r0);
    CaptionsTyped(sim, labels, clean, r0, |clean|);
    var r2 := FillFallbacks(r1, clean);
    res := PassportResult(r2, l1, l2);
  }

  // ------------------------------------------------------------------ lemmas

  /** The two stages after the prefill never overwrite a field, add at
      most the passport number to the passport keys, and keep the record
      non-empty-valued and typed. */
  lemma StagesGrow(sim: MatchCount, labels: Dict, clean: seq<string>, r0: Record)
    requires Typed(r0)
    ensures var r := Stages(sim, labels, clean, r0);
      Grows(r0, r) && (FilledNonEmpty(r0) ==> FilledNonEmpty(r)) && Typed(r)
      && (PassportLabels(labels) && r0.Keys == PassportFields ==> PassportFields <= r.Keys <= PassportFields + {PassportNumber})
  {
    var r1 := Captions(sim, labels, clean, r0, |clean|);
    IdParser.CaptionScanGrows(IdParser.CaptionOf(sim, labels), ValueAt(sim, labels, clean), clean, r0, |clean|);
    CaptionsTyped(sim, labels, clean, r0, |clean|);
    if PassportLabels(labels) {
      CaptionsGrow(sim, labels, clean, r0);
    }
    FallbacksGrow(r1, clean);
    GrowsTransitive(r0, r1, Fallbacks(r1, clean));
  }

  /** With a passport dictionary, the result has every passport field as a
      key and at most the passport number besides, no value is empty, the
      dates are dotted and the sex is `M` or `F`. */
  lemma PassportShape(sim: MatchCount, labels: Dict, tokens: seq<string>)
    requires PassportLabels(labels)
    ensures var r := Passport(sim, labels, tokens).fields;
      PassportFields <= r.Keys <= PassportFields + {PassportNumber} && FilledNonEmpty(r) && Typed(r)
  {
    var clean := Clean(tokens);
    var (l1, l2) := MrzLines(clean);
    var d := ParseMrzTd3(l1, l2);
    var e := EmptyRecord(PassportFields);
    MrzRecordKeys(d);
    IdParser.PrefillGrows(e, Td3Pairs(d));
    MrzRecordTyped(d);
    StagesGrow(sim, labels, clean, MrzRecord(d));
  }

  /** The result carries the MRZ lines found among the clean tokens, and
      every value decoded from them survives the caption scan and the
      fallbacks. */
  lemma PassportKeepsMrz(sim: MatchCount, labels: Dict, tokens: seq<string>)
    ensures var (l1, l2) := MrzLines(Clean(tokens));
      var res := Passport(sim, labels, tokens);
      res.line1 == l1 && res.line2 == l2 && Grows(MrzRecord(ParseMrzTd3(l1, l2)), res.fields)
  {
    var clean := Clean(tokens);
    var (l1, l2) := MrzLines(clean);
    var d := ParseMrzTd3(l1, l2);
    MrzRecordTyped(d);
    StagesGrow(sim, labels, clean, MrzRecord(d));
  }

  /** Every decoded value that is present is in a record that grew from
      the MRZ prefill. */
  lemma GrowsFromMrz(d: Td3, r: Record)
    requires NoEmptyValue(d) && Grows(MrzRecord(d), r)
    ensures d.surname.Some? ==> Surname in r && r[Surname] == d.surname
    ensures d.givenName.Some? ==> GivenName in r && r[GivenName] == d.givenName
    ensures d.patronymic.Some? ==> Patronymic in r && r[Patronymic] == d.patronymic
    ensures d.cardNumber.Some? ==> CardNumber in r && r[CardNumber] == d.cardNumber
    ensures d.dateOfBirth.Some? ==> DateOfBirth in r && r[DateOfBirth] == d.dateOfBirth
    ensures d.sex.Some? ==> Sex in r && r[Sex] == d.sex
    ensures d.dateOfExpiry.Some? ==> DateOfExpiry in r && r[DateOfExpiry] == d.dateOfExpiry
  {
    MrzRecordLands(d);
  }

  /** Every value decoded from the MRZ lines found among the clean tokens
      is in the result. */
  lemma PassportReadsMrz(sim: MatchCount, labels: Dict, tokens: seq<string>)
    ensures var (l1, l2) := MrzLines(Clean(tokens));
      var d := ParseMrzTd3(l1, l2);
      var r := Passport(sim, labels, tokens).fields;
      (d.surname.Some? ==> Surname in r && r[Surname] == d.surname)
      && (d.givenName.Some? ==> GivenName in r && r[GivenName] == d.givenName)
      && (d.patronymic.Some? ==> Patronymic in r && r[Patronymic] == d.patronymic)
      && (d.cardNumber.Some? ==> CardNumber in r && r[CardNumber] == d.cardNumber)
      && (d.dateOfBirth.Some? ==> DateOfBirth in r && r[DateOfBirth] == d.dateOfBirth)
      && (d.sex.Some? ==> Sex in r && r[Sex] == d.sex)
      && (d.dateOfExpiry.Some? ==> DateOfExpiry in r && r[DateOfExpiry] == d.dateOfExpiry)
  {
    var (l1, l2) := MrzLines(Clean(tokens));
    DecodedNoEmptyValue(l1, l2);
    PassportKeepsMrz(sim, labels, tokens);
    GrowsFromMrz(ParseMrzTd3(l1, l2), Passport(sim, labels, tokens).fields);
  }

  /** Two lines of MRZ characters survive cleaning unchanged. */
  lemma CleanMrzPair(l1: string, l2: string)
    requires l1 != [] && forall i :: 0 <= i < |l1| ==> MrzChar(l1[i])
    requires l2 != [] && forall i :: 0 <= i < |l2| ==> MrzChar(l2[i])
    ensures Clean([l1, l2]) == [l1, l2]
  {
    MrzTextIsWord(l1);
    MrzTextIsWord(l2);
    var ts := [l1, l2];
    assert ts[..1] == [l1] && [l1][..0] == [];
    assert Clean([l1]) == Clean([]) + [l1];
    assert Clean(ts) == Clean(ts[..1]) + [l2];
  }

  /** Given just the two MRZ lines of a passport, whatever the dictionary
      and the similarity, the parser finds both lines and returns the
      holder's surname, passport number, birth and expiry dates. */
  lemma PassportReadsEncodedMrz(sim: MatchCount, labels: Dict, h: Holder)
    requires Encodable(h)
    ensures var res := Passport(sim, labels, [EncodeLine1(h), EncodeLine2(h)]);
      res.line1 == Some(EncodeLine1(h)) && res.line2 == Some(EncodeLine2(h))
      && Surname in res.fields && res.fields[Surname] == Some(h.surname)
      && CardNumber in res.fields && res.fields[CardNumber] == Some(h.number)
      && DateOfBirth in res.fields && res.fields[DateOfBirth] == Some(Format(h.birth))
      && DateOfExpiry in res.fields && res.fields[DateOfExpiry] == Some(Format(h.expiry))
  {
    var l1, l2 := EncodeLine1(h), EncodeLine2(h);
    var ts := [l1, l2];
    Line1Alphabet(h);
    Line2Alphabet(h);
    CleanMrzPair(l1, l2);
    FindEncoded(h);
    DecodeEncodeTd3(h);
    PassportReadsMrz(sim, labels, ts);
    PassportKeepsMrz(sim, labels, ts);
  }
}

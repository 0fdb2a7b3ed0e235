/** `parse_id_card`: the ID-card pipeline. The MRZ (from the QR text or the
    raw tokens) fills the record first, then a caption scan reads the value
    that follows each recognised caption, then a pattern pass over the clean
    tokens fills the personal number, card number and sex, and finally the
    date classifier fills the dates still missing. Every write is guarded by
    "field still empty". An authority match in the pattern pass ends the
    whole call with the bare authority string instead of the record. */
module IdParser {
  import opened Wrappers
  import opened Text
  import opened Patterns
  import opened Calendar
  import opened Fields
  import opened Utils
  import opened Labels
  import opened IdMrz
  import opened IdDate

  /** The field keys of the ID-card result. */
  const IdFields: set<Field> :=
    {Surname, GivenName, Patronymic, DateOfBirth, Sex, DateOfIssue, DateOfExpiry,
     CardNumber, PlaceOfBirth, Authority, PersonalNumber}

  /** A caption dictionary that names only ID-card fields, so `result[field]` never fails. */
  predicate IdLabels(labels: Dict) {
    forall f :: f in Keys(labels) ==> f in IdFields
  }

  /** The normalised ID-card dictionary names only ID-card fields. */
  lemma NewLabelsAreIdLabels()
    ensures IdLabels(LabelsNewNorm)
  {
    DictionaryKeys();
  }

  /** A record with exactly the ID-card keys, every filled one non-empty. */
  predicate Shaped(r: Record) {
    r.Keys == IdFields && FilledNonEmpty(r)
  }

  // ------------------------------------------------------------- clean tokens

  /** The elements of `xs` that `keep` accepts, in order. */
  function Select(xs: seq<string>, keep: string -> bool): (ys: seq<string>)
    ensures |ys| <= |xs|
  {
    if xs == [] then []
    else
      var n := |xs| - 1;
      Select(xs[..n], keep) + (if keep(xs[n]) then [xs[n]] else [])
  }

  lemma {:induction false} SelectMembers(xs: seq<string>, keep: string -> bool, t: string)
    ensures t in Select(xs, keep) <==> t in xs && keep(t)
  {
    if xs != [] {
      var n := |xs| - 1;
      SelectMembers(xs[..n], keep, t);
      assert xs == xs[..n] + [xs[n]];
    }
  }

  lemma {:induction false} SelectAppend(a: seq<string>, b: seq<string>, keep: string -> bool)
    ensures Select(a + b, keep) == Select(a, keep) + Select(b, keep)
    decreases |b|
  {
    if b == [] {
      assert a + b == a;
    } else {
      var n := |b| - 1;
      SelectAppend(a, b[..n], keep);
      assert (a + b)[..|a + b| - 1] == a + b[..n];
      assert (a + b)[|a + b| - 1] == b[n];
    }
  }

  /** The comprehension's test: not blank and not noise (no token is `None` here). */
  predicate Kept(t: string) {
    Strip(t) != [] && !Noise(t)
  }

  /** `[t for t in tokens if t is not None and t.strip() and not is_noise(t)]` */
  function Clean(tokens: seq<string>): seq<string> {
    Select(tokens, Kept)
  }

  /** A blank token is noise, so the blank test adds nothing to the noise test. */
  lemma BlankIsNoise(t: string)
    requires Strip(t) == []
    ensures Noise(t)
  {
    assert Upper(Strip(t)) == [];
  }

  /** `clean` holds exactly the tokens that are not noise. */
  lemma CleanMembers(tokens: seq<string>, t: string)
    ensures t in Clean(tokens) <==> t in tokens && !Noise(t)
  {
    SelectMembers(tokens, Kept, t);
    if Strip(t) == [] {
      BlankIsNoise(t);
    }
  }

  /** Cleaning a concatenation cleans each part, so `clean` keeps the input order. */
  lemma CleanAppend(a: seq<string>, b: seq<string>)
    ensures Clean(a + b) == Clean(a) + Clean(b)
  {
    SelectAppend(a, b, Kept);
  }

  // ----------------------------------------------------------- find_next_value

  predicate NameField(f: Field) { f == Surname || f == GivenName || f == Patronymic || f == PlaceOfBirth }
  predicate DateField(f: Field) { f == DateOfBirth || f == DateOfIssue || f == DateOfExpiry }

  /** `M` for a text containing `ERKAK`, else `F` for one containing `AYOL`. */
  function SexOf(u: string): Option<string> {
    if Contains(u, "ERKAK") then Some("M") else if Contains(u, "AYOL") then Some("F") else None
  }

  /** The extractor `find_next_value` applies to a stripped token for field `f`:
      `None` lets the scan go on to the next token. */
  function Extract(f: Field, t: string): (r: Option<string>)
    ensures r.Some? && DateField(f) ==> DottedShape(r.value)
    ensures r.Some? && f == CardNumber ==> |r.value| == 9 && Alphanumeric(r.value)
    ensures r.Some? && f == PersonalNumber ==> |r.value| == 14 && AllDigits(r.value)
    ensures r.Some? && f == Sex ==> r.value == "M" || r.value == "F"
    ensures f == PassportNumber ==> r.None?
  {
    if NameField(f) then Some(Upper(NormKey(t, true)))
    else if DateField(f) then
      var m := Find(DottedDate, t);
      if m.Some? then FindShape(DottedDate, t); m else None
    else if f == CardNumber then
      var u := RemoveChar(t, ' ');
      var m := Find(CardCode, u);
      if m.Some? then FindShape(CardCode, u); m else None
    else if f == Sex then
      if Find(SexWord, t).Some? then SexOf(Upper(t)) else None
    else if f == Authority then
      match Find(AuthorityCode, t)
      case Some(m) => Some(RewriteHv(m))
      case None => None
    else if f == PersonalNumber then
      var m := Find(PersonalCode, t);
      if m.Some? then FindShape(PersonalCode, t); m else None
    else None
  }

  method ExtractValue(f: Field, t: string) returns (r: Option<string>)
    ensures r == Extract(f, t)
  {
    if NameField(f) {
      var v := NormKey(t, true);
      return Some(Upper(v));
    } else if DateField(f) {
      var m := Find(DottedDate, t);
      if m.Some? {
        FindShape(DottedDate, t);
        return m;
      }
    } else if f == CardNumber {
      var m := Find(CardCode, RemoveChar(t, ' '));
      if m.Some? {
        FindShape(CardCode, RemoveChar(t, ' '));
        return m;
      }
    } else if f == Sex {
      var m := Find(SexWord, t);
      if m.Some? {
        if Contains(Upper(t), "ERKAK") {
          return Some("M");
        }
        if Contains(Upper(t), "AYOL") {
          return Some("F");
        }
      }
    } else if f == Authority {
      var m := Find(AuthorityCode, t);
      if m.Some? {
        return Some(RewriteHv(m.value));
      }
    } else if f == PersonalNumber {
      var m := Find(PersonalCode, t);
      if m.Some? {
        FindShape(PersonalCode, t);
        return m;
      }
    }
    return None;
  }

  /** What token `token` yields for field `f`: nothing when it is blank, noise
      or itself a caption, else whatever the extractor finds in it. */
  function Probe(sim: MatchCount, labels: Dict, f: Field, token: string): Option<string> {
    var t := Strip(token);
    if t == [] || Noise(t) then None
    else if BestLabel(sim, t, labels).Some? then None
    else Extract(f, t)
  }

  /** `Probe` as a function of the token alone. */
  function ProbeOf(sim: MatchCount, labels: Dict, f: Field): string -> Option<string> {
    t => Probe(sim, labels, f, t)
  }

  method ProbeToken(sim: MatchCount, labels: Dict, f: Field, token: string) returns (r: Option<string>)
    ensures r == ProbeOf(sim, labels, f)(token)
  {
    var t := Strip(token);
    var noise := IsNoise(t);
    if t == [] || noise {
      return None;
    }
    var lm := BestLabelMatch(sim, t, labels);
    if lm.Some? {
      return None;
    }
    r := ExtractValue(f, t);
  }

  /** What `probe` reads in the first token of `tokens[j..hi]` it accepts. */
  function FirstHit(tokens: seq<string>, probe: string -> Option<string>, j: nat, hi: nat): Option<string>
    requires hi <= |tokens|
    decreases hi - j
  {
    if j >= hi then None
    else match probe(tokens[j])
      case Some(v) => Some(v)
      case None => FirstHit(tokens, probe, j + 1, hi)
  }

  /** `find_next_value(tokens, start, field)`: the window is the (at most four)
      tokens after `start`. */
  function NextValue(sim: MatchCount, labels: Dict, tokens: seq<string>, start: nat, f: Field): Option<string> {
    FirstHit(tokens, ProbeOf(sim, labels, f), start + 1, Min(start + 5, |tokens|))
  }

  method FindNextValue(sim: MatchCount, tokens: seq<string>, start: nat, f: Field, labels: Dict)
    returns (r: Option<string>)
    ensures r == NextValue(sim, labels, tokens, start, f)
  {
    var hi := Min(start + 5, |tokens|);
    r := ScanWindow(sim, labels, f, tokens, start + 1, hi);
  }

  /** The loop of `find_next_value` over `tokens[lo..hi]`. */
  method ScanWindow(sim: MatchCount, labels: Dict, f: Field, tokens: seq<string>, lo: nat, hi: nat)
    returns (r: Option<string>)
    requires hi <= |tokens|
    ensures r == FirstHit(tokens, ProbeOf(sim, labels, f), lo, hi)
  {
    var j := lo;
    while j < hi
      invariant FirstHit(tokens, ProbeOf(sim, labels, f), j, hi) == FirstHit(tokens, ProbeOf(sim, labels, f), lo, hi)
      decreases hi - j
    {
      var v := ProbeToken(sim, labels, f, tokens[j]);
      FirstHitStep(tokens, ProbeOf(sim, labels, f), j, hi, v);
      if v.Some? {
        return v;
      }
      j := j + 1;
    }
    return None;
  }

  /** One token of the scan. */
  lemma FirstHitStep(tokens: seq<string>, probe: string -> Option<string>, j: nat, hi: nat, v: Option<string>)
    requires j < hi <= |tokens| && probe(tokens[j]) == v
    ensures FirstHit(tokens, probe, j, hi) == if v.Some? then v else FirstHit(tokens, probe, j + 1, hi)
  {
  }

  /** The scan finds a value exactly when some token of the range yields one,
      and then it is the value of the first such token. */
  lemma {:induction false} FirstHitFirst(tokens: seq<string>, probe: string -> Option<string>, j: nat, hi: nat)
    requires hi <= |tokens|
    ensures FirstHit(tokens, probe, j, hi).Some? <==> exists k :: j <= k < hi && probe(tokens[k]).Some?
    ensures FirstHit(tokens, probe, j, hi).Some? ==>
              exists k :: j <= k < hi && FirstHit(tokens, probe, j, hi) == probe(tokens[k])
                          && forall m :: j <= m < k ==> probe(tokens[m]).None?
    decreases hi - j
  {
    if j < hi {
      FirstHitFirst(tokens, probe, j + 1, hi);
    }
  }

  /** A caption's value is what the first of the four tokens after it that
      yields anything yields; with none, there is no value. */
  lemma NextValueWindow(sim: MatchCount, labels: Dict, tokens: seq<string>, start: nat, f: Field)
    ensures NextValue(sim, labels, tokens, start, f).Some? <==>
              exists k :: start < k <= start + 4 && k < |tokens| && Probe(sim, labels, f, tokens[k]).Some?
    ensures NextValue(sim, labels, tokens, start, f).Some? ==>
              exists k :: start < k <= start + 4 && k < |tokens|
                          && NextValue(sim, labels, tokens, start, f) == Probe(sim, labels, f, tokens[k])
                          && forall m :: start < m < k ==> Probe(sim, labels, f, tokens[m]).None?
  {
    FirstHitFirst(tokens, ProbeOf(sim, labels, f), start + 1, Min(start + 5, |tokens|));
  }

  // ------------------------------------------------------------- MRZ prefill

  /** `for k, v in data.items(): if v and result.get(k) is None: result[k] = v` */
  function Prefill(r: Record, ps: seq<(Field, Option<string>)>): Record {
    if ps == [] then r
    else
      var n := |ps| - 1;
      SetIfEmpty(Prefill(r, ps[..n]), ps[n].0, ps[n].1)
  }

  method PrefillMrz(r: Record, data: MrzData) returns (out: Record)
    ensures out == Prefill(r, MrzPairs(data))
  {
    out := r;
    var ps := MrzPairs(data);
    for k := 0 to |ps|
      invariant out == Prefill(r, ps[..k])
    {
      assert ps[..k + 1][..k] == ps[..k];
      var (f, v) := ps[k];
      if v.Some? && v.value != [] && Unset(out, f) {
        out := out[f := v];
      }
    }
    assert ps[..|ps|] == ps;
  }

  /** The prefill never overwrites a field, writes only non-empty values and
      adds no key outside the fields it is given. */
  lemma {:induction false} PrefillGrows(r: Record, ps: seq<(Field, Option<string>)>)
    ensures Grows(r, Prefill(r, ps))
    ensures FilledNonEmpty(r) ==> FilledNonEmpty(Prefill(r, ps))
    ensures (forall k :: 0 <= k < |ps| ==> ps[k].0 in r) ==> Prefill(r, ps).Keys == r.Keys
  {
    if ps != [] {
      var n := |ps| - 1;
      PrefillGrows(r, ps[..n]);
      SetIfEmptyGrows(Prefill(r, ps[..n]), ps[n].0, ps[n].1);
      GrowsTransitive(r, Prefill(r, ps[..n]), Prefill(r, ps));
    }
  }

  /** The fields of the pairs, each once. */
  predicate DistinctPairFields(ps: seq<(Field, Option<string>)>) {
    forall i, j :: 0 <= i < j < |ps| ==> ps[i].0 != ps[j].0
  }

  /** The value `v` would leave in an empty field. */
  function Truthy(v: Option<string>): Option<string> {
    if v.Some? && v.value != [] then v else None
  }

  /** A field no pair names keeps its value. */
  lemma {:induction false} PrefillUntouched(r: Record, ps: seq<(Field, Option<string>)>, f: Field)
    requires f in r && forall k :: 0 <= k < |ps| ==> ps[k].0 != f
    ensures f in Prefill(r, ps) && Prefill(r, ps)[f] == r[f]
  {
    if ps != [] {
      PrefillUntouched(r, ps[..|ps| - 1], f);
    }
  }

  /** With distinct fields, each field that was empty ends up holding its pair's
      value when that value is non-empty, and stays empty otherwise. */
  lemma {:induction false} PrefillLands(r: Record, ps: seq<(Field, Option<string>)>, k: nat)
    requires DistinctPairFields(ps) && k < |ps|
    requires ps[k].0 in r && r[ps[k].0].None?
    ensures ps[k].0 in Prefill(r, ps) && Prefill(r, ps)[ps[k].0] == Truthy(ps[k].1)
  {
    var n := |ps| - 1;
    var f := ps[k].0;
    if k == n {
      PrefillUntouched(r, ps[..n], f);
    } else {
      PrefillLands(r, ps[..n], k);
      assert ps[n].0 != f;
    }
  }

  /** On the empty ID-card record, each decoded MRZ value lands in its field
      when it is non-empty. */
  lemma MrzPrefillFromEmpty(d: MrzData)
    ensures var r := Prefill(EmptyRecord(IdFields), MrzPairs(d));
      CardNumber in r && r[CardNumber] == Truthy(Some(d.cardNumber))
      && Surname in r && r[Surname] == Truthy(d.surname)
      && GivenName in r && r[GivenName] == Truthy(d.givenName)
      && DateOfBirth in r && r[DateOfBirth] == Truthy(d.dateOfBirth)
      && Sex in r && r[Sex] == Truthy(Some(d.sex))
      && DateOfExpiry in r && r[DateOfExpiry] == Truthy(d.dateOfExpiry)
      && PersonalNumber in r && r[PersonalNumber] == Truthy(Some(d.personalNumber))
  {
    var e := EmptyRecord(IdFields);
    var ps := MrzPairs(d);
    assert DistinctPairFields(ps);
    PrefillLands(e, ps, 0);
    PrefillLands(e, ps, 1);
    PrefillLands(e, ps, 2);
    PrefillLands(e, ps, 3);
    PrefillLands(e, ps, 4);
    PrefillLands(e, ps, 5);
    PrefillLands(e, ps, 6);
  }

  /** The fields the MRZ carries. */
  predicate MrzField(f: Field) {
    f.CardNumber? || f.Surname? || f.GivenName? || f.DateOfBirth? || f.Sex? || f.DateOfExpiry? || f.PersonalNumber?
  }

  lemma MrzPairsFields(d: MrzData)
    ensures forall k :: 0 <= k < |MrzPairs(d)| ==> MrzField(MrzPairs(d)[k].0)
  {
  }

  /** Prefilling the empty ID-card record with MRZ fields keeps its keys and
      leaves the four fields the MRZ does not carry empty. */
  lemma PrefillShape(ps: seq<(Field, Option<string>)>)
    requires forall k :: 0 <= k < |ps| ==> MrzField(ps[k].0)
    ensures var r := Prefill(EmptyRecord(IdFields), ps);
      Shaped(r) && r[Patronymic].None? && r[DateOfIssue].None? && r[PlaceOfBirth].None? && r[Authority].None?
  {
    var e := EmptyRecord(IdFields);
    assert forall k :: 0 <= k < |ps| ==> ps[k].0 in e;
    PrefillGrows(e, ps);
    PrefillUntouched(e, ps, Patronymic);
    PrefillUntouched(e, ps, DateOfIssue);
    PrefillUntouched(e, ps, PlaceOfBirth);
    PrefillUntouched(e, ps, Authority);
  }

  /** The prefilled record has the ID-card keys, and the four fields the MRZ
      does not carry are still empty. */
  lemma MrzPrefillShape(d: MrzData)
    ensures var r := Prefill(EmptyRecord(IdFields), MrzPairs(d));
      Shaped(r) && r[Patronymic].None? && r[DateOfIssue].None? && r[PlaceOfBirth].None? && r[Authority].None?
  {
    MrzPairsFields(d);
    PrefillShape(MrzPairs(d));
  }

  // ------------------------------------------------------------- caption scan

  /** One token of a caption scan: when `caption` reads the token as the
      caption of a field that is still empty, that field gets the value
      `value` finds after the token, if any. */
  function CaptionStep(caption: string -> Option<Field>, value: (nat, Field) -> Option<string>,
                       clean: seq<string>, r: Record, i: nat): Record
    requires i < |clean|
  {
    match caption(clean[i])
    case None => r
    case Some(f) => if !Unset(r, f) then r else SetIfEmpty(r, f, value(i, f))
  }

  /** A caption scan over the first `n` clean tokens. */
  function CaptionScan(caption: string -> Option<Field>, value: (nat, Field) -> Option<string>,
                       clean: seq<string>, r: Record, n: nat): Record
    requires n <= |clean|
  {
    if n == 0 then r else CaptionStep(caption, value, clean, CaptionScan(caption, value, clean, r, n - 1), n - 1)
  }

  /** The field of the best caption match of a token. */
  function CaptionOf(sim: MatchCount, labels: Dict): string -> Option<Field> {
    t => match BestLabel(sim, t, labels) case None => None case Some((f, _)) => Some(f)
  }

  /** The value after the caption at a token. */
  function ValueOf(sim: MatchCount, labels: Dict, clean: seq<string>): (nat, Field) -> Option<string> {
    (i: nat, f: Field) => NextValue(sim, labels, clean, i, f)
  }

  /** The caption loop of `parse_id_card` over the first `n` clean tokens. */
  function LabelScan(sim: MatchCount, labels: Dict, clean: seq<string>, r: Record, n: nat): Record
    requires n <= |clean|
  {
    CaptionScan(CaptionOf(sim, labels), ValueOf(sim, labels, clean), clean, r, n)
  }

  method ScanLabels(sim: MatchCount, labels: Dict, clean: seq<string>, r: Record) returns (out: Record)
    ensures out == LabelScan(sim, labels, clean, r, |clean|)
  {
    out := r;
    for i := 0 to |clean|
      invariant out == LabelScan(sim, labels, clean, r, i)
    {
      out := ScanToken(sim, labels, clean, out, i);
    }
  }

  /** The body of the caption loop for token `i`. */
  method ScanToken(sim: MatchCount, labels: Dict, clean: seq<string>, r: Record, i: nat) returns (out: Record)
    requires i < |clean|
    ensures out == CaptionStep(CaptionOf(sim, labels), ValueOf(sim, labels, clean), clean, r, i)
  {
    out := r;
    var lm := BestLabelMatch(sim, clean[i], labels);
    if lm.None? {
      return;
    }
    var (f, _) := lm.value;
    if !Unset(out, f) {
      return;
    }
    var v := FindNextValue(sim, clean, i, f, labels);
    if v.Some? && v.value != [] && Unset(out, f) {
      out := out[f := v];
    }
  }

  /** `caption` only ever names fields among `keys`. */
  ghost predicate CaptionsIn(caption: string -> Option<Field>, keys: set<Field>) {
    forall t :: caption(t).Some? ==> caption(t).value in keys
  }

  /** An ID-card dictionary only ever yields ID-card fields. */
  lemma IdCaptions(sim: MatchCount, labels: Dict)
    requires IdLabels(labels)
    ensures CaptionsIn(CaptionOf(sim, labels), IdFields)
  {
    forall t | CaptionOf(sim, labels)(t).Some?
      ensures CaptionOf(sim, labels)(t).value in IdFields
    {
      BestLabelThreshold(sim, t, labels);
    }
  }

  /** One step never overwrites a field, keeps every value non-empty and,
      when the captions name only keys of the record, adds no key. */
  lemma CaptionStepGrows(caption: string -> Option<Field>, value: (nat, Field) -> Option<string>,
                         clean: seq<string>, r: Record, i: nat)
    requires i < |clean|
    ensures Grows(r, CaptionStep(caption, value, clean, r, i))
    ensures FilledNonEmpty(r) ==> FilledNonEmpty(CaptionStep(caption, value, clean, r, i))
    ensures CaptionsIn(caption, r.Keys) ==> CaptionStep(caption, value, clean, r, i).Keys == r.Keys
  {
    match caption(clean[i])
    case None =>
    case Some(f) =>
      SetIfEmptyGrows(r, f, value(i, f));
  }

  /** A scan never overwrites a field, keeps every value non-empty and, when
      the captions name only keys of the record, adds no key. */
  lemma {:induction false} CaptionScanGrows(caption: string -> Option<Field>, value: (nat, Field) -> Option<string>,
                                            clean: seq<string>, r: Record, n: nat)
    requires n <= |clean|
    ensures Grows(r, CaptionScan(caption, value, clean, r, n))
    ensures FilledNonEmpty(r) ==> FilledNonEmpty(CaptionScan(caption, value, clean, r, n))
    ensures CaptionsIn(caption, r.Keys) ==> CaptionScan(caption, value, clean, r, n).Keys == r.Keys
  {
    if n > 0 {
      var prev := CaptionScan(caption, value, clean, r, n - 1);
      CaptionScanGrows(caption, value, clean, r, n - 1);
      CaptionStepGrows(caption, value, clean, prev, n - 1);
      GrowsTransitive(r, prev, CaptionScan(caption, value, clean, r, n));
    }
  }

  /** A field a scan fills holds the value found after a token read as that
      field's caption. */
  lemma {:induction false} CaptionScanProvenance(caption: string -> Option<Field>, value: (nat, Field) -> Option<string>,
                                                 clean: seq<string>, r: Record, n: nat, f: Field)
    requires n <= |clean| && f in r && r[f].None?
    requires f in CaptionScan(caption, value, clean, r, n) && CaptionScan(caption, value, clean, r, n)[f].Some?
    ensures exists i :: 0 <= i < n && caption(clean[i]) == Some(f)
                        && CaptionScan(caption, value, clean, r, n)[f] == value(i, f)
  {
    var prev := CaptionScan(caption, value, clean, r, n - 1);
    CaptionScanGrows(caption, value, clean, r, n - 1);
    CaptionStepGrows(caption, value, clean, prev, n - 1);
    if prev[f].Some? {
      CaptionScanProvenance(caption, value, clean, r, n - 1, f);
    }
  }

  /** The caption scan never overwrites a field, keeps every value non-empty
      and, on an ID-card record with an ID-card dictionary, adds no key. */
  lemma LabelScanGrows(sim: MatchCount, labels: Dict, clean: seq<string>, r: Record)
    ensures Grows(r, LabelScan(sim, labels, clean, r, |clean|))
    ensures FilledNonEmpty(r) ==> FilledNonEmpty(LabelScan(sim, labels, clean, r, |clean|))
    ensures IdLabels(labels) && r.Keys == IdFields ==> LabelScan(sim, labels, clean, r, |clean|).Keys == IdFields
  {
    if IdLabels(labels) {
      IdCaptions(sim, labels);
    }
    CaptionScanGrows(CaptionOf(sim, labels), ValueOf(sim, labels, clean), clean, r, |clean|);
  }

  /** A field the caption scan fills holds the value found after a token whose
      best caption match is that field's. */
  lemma LabelScanProvenance(sim: MatchCount, labels: Dict, clean: seq<string>, r: Record, f: Field)
    requires f in r && r[f].None?
    requires f in LabelScan(sim, labels, clean, r, |clean|) && LabelScan(sim, labels, clean, r, |clean|)[f].Some?
    ensures exists i :: 0 <= i < |clean| && BestLabel(sim, clean[i], labels).Some? && BestLabel(sim, clean[i], labels).value.0 == f
                        && LabelScan(sim, labels, clean, r, |clean|)[f] == NextValue(sim, labels, clean, i, f)
  {
    CaptionScanProvenance(CaptionOf(sim, labels), ValueOf(sim, labels, clean), clean, r, |clean|, f);
    var i :| 0 <= i < |clean| && CaptionOf(sim, labels)(clean[i]) == Some(f)
             && LabelScan(sim, labels, clean, r, |clean|)[f] == ValueOf(sim, labels, clean)(i, f);
  }

  // ------------------------------------------------------------ pattern pass

  /** The personal number, the card number (searched with spaces removed) and
      the sex, each written only while still empty. */
  function TokenFill(r: Record, t: string): Record {
    var r1 := SetIfEmpty(r, PersonalNumber, Find(PersonalCode, t));
    var r2 := SetIfEmpty(r1, CardNumber, Find(CardCode, RemoveChar(t, ' ')));
    SetIfEmpty(r2, Sex, SexOf(Upper(t)))
  }

  /** The authority a token yields while the authority is still empty: the
      match, with `HV`/`HIV` and a digit rewritten to `IIV` and the digit. */
  function AuthorityHit(r: Record, t: string): Option<string> {
    if !Unset(r, Authority) then None
    else match Find(AuthorityCode, t)
      case Some(m) => Some(RewriteHv(m))
      case None => None
  }

  /** Every ID-card field holds a non-empty value. */
  predicate AllFilled(r: Record) {
    forall f :: f in IdFields ==> f in r && r[f].Some? && r[f].value != []
  }

  /** How the pattern pass ends: with the record, or by returning an authority string. */
  datatype Scan = Finished(record: Record) | AuthorityFound(authority: string)

  /** The pattern pass from token `i` on. `extras` is whether `raw`, `qr` and
      `mrz` are all truthy: only then can a complete record stop the pass early. */
  function FallbackFrom(r: Record, clean: seq<string>, i: nat, extras: bool): Scan
    decreases |clean| - i
  {
    if i >= |clean| then Finished(r)
    else
      var r1 := TokenFill(r, clean[i]);
      match AuthorityHit(r1, clean[i])
      case Some(v) => AuthorityFound(v)
      case None =>
        if extras && AllFilled(r1) then Finished(r1) else FallbackFrom(r1, clean, i + 1, extras)
  }

  method FallbackScan(r: Record, clean: seq<string>, extras: bool) returns (out: Scan)
    ensures out == FallbackFrom(r, clean, 0, extras)
  {
    var result := r;
    for i := 0 to |clean|
      invariant FallbackFrom(result, clean, i, extras) == FallbackFrom(r, clean, 0, extras)
    {
      var t := clean[i];
      result := FillToken(result, t);
      if Unset(result, Authority) {
        var m := Find(AuthorityCode, t);
        if m.Some? {
          return AuthorityFound(RewriteHv(m.value));
        }
      }
      if extras && AllFilled(result) {
        return Finished(result);
      }
    }
    return Finished(result);
  }

  /** The three pattern searches on one token, each writing its field only
      while that field is still empty. */
  method FillToken(r: Record, t: string) returns (result: Record)
    ensures result == TokenFill(r, t)
  {
    result := FillPersonal(r, t);
    result := FillCard(result, t);
    result := FillSex(result, t);
  }

  method FillPersonal(r: Record, t: string) returns (result: Record)
    ensures result == SetIfEmpty(r, PersonalNumber, Find(PersonalCode, t))
  {
    result := r;
    if Unset(result, PersonalNumber) {
      var m := Find(PersonalCode, t);
      if m.Some? {
        FindShape(PersonalCode, t);
        result := result[PersonalNumber := m];
      }
    }
  }

  method FillCard(r: Record, t: string) returns (result: Record)
    ensures result == SetIfEmpty(r, CardNumber, Find(CardCode, RemoveChar(t, ' ')))
  {
    result := r;
    if Unset(result, CardNumber) {
      var m := Find(CardCode, RemoveChar(t, ' '));
      if m.Some? {
        FindShape(CardCode, RemoveChar(t, ' '));
        result := result[CardNumber := m];
      }
    }
  }

  method FillSex(r: Record, t: string) returns (result: Record)
    ensures result == SetIfEmpty(r, Sex, SexOf(Upper(t)))
  {
    result := r;
    if Unset(result, Sex) {
      var u := Upper(t);
      if Contains(u, "ERKAK") {
        result := result[Sex := Some("M")];
      } else if Contains(u, "AYOL") {
        result := result[Sex := Some("F")];
      }
    }
  }

  /** Filling from one token only fills empty fields with non-empty values,
      leaves the authority alone and changes nothing in a complete record. */
  lemma TokenFillGrows(r: Record, t: string)
    ensures Grows(r, TokenFill(r, t))
    ensures FilledNonEmpty(r) ==> FilledNonEmpty(TokenFill(r, t))
    ensures Shaped(r) ==> TokenFill(r, t).Keys == r.Keys
    ensures Unset(TokenFill(r, t), Authority) == Unset(r, Authority)
  {
    FillThree(r, Find(PersonalCode, t), Find(CardCode, RemoveChar(t, ' ')), SexOf(Upper(t)));
  }

  /** The three writes of one pattern-pass token, whatever the values. */
  lemma FillThree(r: Record, personal: Option<string>, card: Option<string>, sex: Option<string>)
    ensures var out := SetIfEmpty(SetIfEmpty(SetIfEmpty(r, PersonalNumber, personal), CardNumber, card), Sex, sex);
      && Grows(r, out)
      && (FilledNonEmpty(r) ==> FilledNonEmpty(out))
      && (Shaped(r) ==> out.Keys == r.Keys)
      && Unset(out, Authority) == Unset(r, Authority)
  {
    var r1 := SetIfEmpty(r, PersonalNumber, personal);
    var r2 := SetIfEmpty(r1, CardNumber, card);
    SetIfEmptyGrows(r, PersonalNumber, personal);
    SetIfEmptyGrows(r1, CardNumber, card);
    SetIfEmptyGrows(r2, Sex, sex);
    GrowsTransitive(r, r1, r2);
    GrowsTransitive(r, r2, SetIfEmpty(r2, Sex, sex));
  }

  /** A complete record is left as it is. */
  lemma TokenFillFilled(r: Record, t: string)
    requires AllFilled(r)
    ensures TokenFill(r, t) == r
  {
    assert PersonalNumber in IdFields && CardNumber in IdFields && Sex in IdFields;
  }

  /** The pass writes nothing into a complete record and finds no authority. */
  lemma {:induction false} FilledStays(r: Record, clean: seq<string>, i: nat)
    requires AllFilled(r)
    ensures FallbackFrom(r, clean, i, false) == Finished(r)
    decreases |clean| - i
  {
    if i < |clean| {
      TokenFillFilled(r, clean[i]);
      assert Authority in IdFields;
      FilledStays(r, clean, i + 1);
    }
  }

  /** The early `break` never changes the outcome: a complete record is left
      alone by the rest of the pass anyway. */
  lemma {:induction false} BreakHarmless(r: Record, clean: seq<string>, i: nat)
    ensures FallbackFrom(r, clean, i, true) == FallbackFrom(r, clean, i, false)
    decreases |clean| - i
  {
    if i < |clean| {
      var r1 := TokenFill(r, clean[i]);
      if AuthorityHit(r1, clean[i]).None? {
        if AllFilled(r1) {
          FilledStays(r1, clean, i + 1);
        } else {
          BreakHarmless(r1, clean, i + 1);
        }
      }
    }
  }

  /** Some token from `i` on holds an authority code. */
  predicate HasAuthority(clean: seq<string>, i: nat) {
    exists k :: i <= k < |clean| && Find(AuthorityCode, clean[k]).Some?
  }

  lemma HasAuthorityStep(clean: seq<string>, i: nat)
    requires i < |clean|
    ensures HasAuthority(clean, i) <==> Find(AuthorityCode, clean[i]).Some? || HasAuthority(clean, i + 1)
  {
    if HasAuthority(clean, i) && Find(AuthorityCode, clean[i]).None? {
      var k :| i <= k < |clean| && Find(AuthorityCode, clean[k]).Some?;
      assert i + 1 <= k;
    }
  }

  /** One token of the pass: it ends with an authority exactly when the
      authority is empty and the token holds an authority code. */
  lemma FallbackStep(r: Record, clean: seq<string>, i: nat, extras: bool)
    requires i < |clean|
    ensures var r1 := TokenFill(r, clean[i]);
      && Unset(r1, Authority) == Unset(r, Authority)
      && (AuthorityHit(r1, clean[i]).Some? <==> Unset(r, Authority) && Find(AuthorityCode, clean[i]).Some?)
      && (AllFilled(r1) ==> !Unset(r1, Authority))
  {
    TokenFillGrows(r, clean[i]);
    assert Authority in IdFields;
  }

  /** The pattern pass returns an authority string exactly when the authority
      is still empty and some remaining token holds an authority code. */
  lemma {:induction false} AuthorityFoundIff(r: Record, clean: seq<string>, i: nat, extras: bool)
    ensures FallbackFrom(r, clean, i, extras).AuthorityFound? <==> Unset(r, Authority) && HasAuthority(clean, i)
    decreases |clean| - i
  {
    if i < |clean| {
      var r1 := TokenFill(r, clean[i]);
      FallbackStep(r, clean, i, extras);
      HasAuthorityStep(clean, i);
      if AuthorityHit(r1, clean[i]).None? {
        AuthorityFoundIff(r1, clean, i + 1, extras);
      }
    }
  }

  /** The authority string returned is the rewritten match of the first
      remaining token that holds an authority code. */
  lemma {:induction false} AuthorityFoundFirst(r: Record, clean: seq<string>, i: nat, extras: bool)
    requires FallbackFrom(r, clean, i, extras).AuthorityFound?
    ensures exists k :: i <= k < |clean| && Find(AuthorityCode, clean[k]).Some?
                        && FallbackFrom(r, clean, i, extras).authority == RewriteHv(Find(AuthorityCode, clean[k]).value)
                        && forall m :: i <= m < k ==> Find(AuthorityCode, clean[m]).None?
    decreases |clean| - i
  {
    var r1 := TokenFill(r, clean[i]);
    FallbackStep(r, clean, i, extras);
    if AuthorityHit(r1, clean[i]).None? {
      AuthorityFoundIff(r1, clean, i + 1, extras);
      assert Find(AuthorityCode, clean[i]).None?;
      AuthorityFoundFirst(r1, clean, i + 1, extras);
      var k :| i + 1 <= k < |clean| && Find(AuthorityCode, clean[k]).Some?
               && FallbackFrom(r1, clean, i + 1, extras).authority == RewriteHv(Find(AuthorityCode, clean[k]).value)
               && forall m :: i + 1 <= m < k ==> Find(AuthorityCode, clean[m]).None?;
      assert FallbackFrom(r, clean, i, extras) == FallbackFrom(r1, clean, i + 1, extras);
      assert forall m :: i <= m < k ==> Find(AuthorityCode, clean[m]).None?;
    } else {
      assert FallbackFrom(r, clean, i, extras).authority == RewriteHv(Find(AuthorityCode, clean[i]).value);
    }
  }


  /** A pass that ends with the record only ever fills empty fields, with
      non-empty values, and adds no key to an ID-card record. */
  lemma {:induction false} FallbackGrows(r: Record, clean: seq<string>, i: nat, extras: bool)
    requires FallbackFrom(r, clean, i, extras).Finished?
    ensures Grows(r, FallbackFrom(r, clean, i, extras).record)
    ensures Shaped(r) ==> Shaped(FallbackFrom(r, clean, i, extras).record)
    decreases |clean| - i
  {
    if i < |clean| {
      var r1 := TokenFill(r, clean[i]);
      TokenFillGrows(r, clean[i]);
      if !(extras && AllFilled(r1)) {
        FallbackGrows(r1, clean, i + 1, extras);
        GrowsTransitive(r, r1, FallbackFrom(r, clean, i, extras).record);
      }
    }
  }

  // -------------------------------------------------------------- date roles

  /** Some date role is still empty, so the classifier runs. */
  predicate DatesMissing(r: Record) {
    Unset(r, DateOfBirth) || Unset(r, DateOfIssue) || Unset(r, DateOfExpiry)
  }

  /** The classified dates written into the roles still empty. */
  function DatesFilled(r: Record, roles: Roles): Record {
    SetIfEmpty(SetIfEmpty(SetIfEmpty(r, DateOfBirth, roles.birth), DateOfIssue, roles.issue), DateOfExpiry, roles.expiry)
  }

  /** The last stage: `None` when going back fifteen years from `today` raises. */
  function FillDates(r: Record, clean: seq<string>, today: Date): Option<Record>
    requires Valid(today)
  {
    if !DatesMissing(r) then Some(r)
    else match Classify(clean, today)
      case None => None
      case Some(roles) => Some(DatesFilled(r, roles))
  }

  method ClassifyFill(r: Record, clean: seq<string>, today: Date) returns (out: Option<Record>)
    requires Valid(today)
    ensures out == FillDates(r, clean, today)
  {
    if !DatesMissing(r) {
      return Some(r);
    }
    var classified := ClassifyDates(clean, today);
    if classified.None? {
      return None;
    }
    var roles := classified.value;
    var result := r;
    if Unset(result, DateOfBirth) && roles.birth.Some? && roles.birth.value != [] {
      result := result[DateOfBirth := roles.birth];
    }
    if Unset(result, DateOfIssue) && roles.issue.Some? && roles.issue.value != [] {
      result := result[DateOfIssue := roles.issue];
    }
    if Unset(result, DateOfExpiry) && roles.expiry.Some? && roles.expiry.value != [] {
      result := result[DateOfExpiry := roles.expiry];
    }
    return Some(result);
  }

  /** The date stage changes only date roles that were empty, each to the
      text the classifier chose for it. */
  lemma DatesFillOnlyEmpty(r: Record, clean: seq<string>, today: Date)
    requires Valid(today)
    ensures FillDates(r, clean, today).Some? ==> Grows(r, FillDates(r, clean, today).value)
    ensures FillDates(r, clean, today).Some? && Shaped(r) ==> Shaped(FillDates(r, clean, today).value)
    ensures FillDates(r, clean, today).Some? ==>
              forall f :: f in r && !DateField(f) ==> FillDates(r, clean, today).value[f] == r[f]
    ensures FillDates(r, clean, today).None? <==> DatesMissing(r) && Classify(clean, today).None?
    ensures FillDates(r, clean, today).Some? && DatesMissing(r) ==>
              var roles := Classify(clean, today).value;
              var out := FillDates(r, clean, today).value;
              (Unset(r, DateOfBirth) && DateOfBirth in out ==> out[DateOfBirth] == Truthy(roles.birth))
              && (Unset(r, DateOfIssue) && DateOfIssue in out ==> out[DateOfIssue] == Truthy(roles.issue))
              && (Unset(r, DateOfExpiry) && DateOfExpiry in out ==> out[DateOfExpiry] == Truthy(roles.expiry))
  {
    if DatesMissing(r) && Classify(clean, today).Some? {
      var roles := Classify(clean, today).value;
      var r1 := SetIfEmpty(r, DateOfBirth, roles.birth);
      var r2 := SetIfEmpty(r1, DateOfIssue, roles.issue);
      SetIfEmptyGrows(r, DateOfBirth, roles.birth);
      SetIfEmptyGrows(r1, DateOfIssue, roles.issue);
      SetIfEmptyGrows(r2, DateOfExpiry, roles.expiry);
      GrowsTransitive(r, r1, r2);
      GrowsTransitive(r, r2, DatesFilled(r, roles));
    }
  }

  // ---------------------------------------------------------------- pipeline

  /** What `parse_id_card` returns: the record with the MRZ slot (`None` when no
      MRZ lines were found, `NotMrz` for the empty dictionary), the bare
      authority string, or the exception that escapes. `raw` and `qr` are the
      inputs themselves. */
  datatype IdOutcome =
    | Parsed(fields: Record, mrz: Option<MrzOutcome>)
    | AuthorityOnly(authority: string)
    | Failed(error: MrzError)

  /** `get_mrz(tokens, qr)` */
  function MrzSource(tokens: seq<string>, qr: Option<string>): Option<seq<string>> {
    match qr
    case Some(q) => Some(SplitChar(q, '\n'))
    case None => MrzLines(tokens)
  }

  /** The record after the MRZ prefill. */
  function MrzStart(mrz: Option<MrzOutcome>): Record {
    if mrz.Some? && mrz.value.Decoded? then Prefill(EmptyRecord(IdFields), MrzPairs(mrz.value.data))
    else EmptyRecord(IdFields)
  }

  /** The MRZ slot: `None` when no MRZ lines were found, else what
      `process_mrz` makes of them. */
  function ReadMrz(tokens: seq<string>, qr: Option<string>): Option<MrzOutcome> {
    match MrzSource(tokens, qr)
    case None => None
    case Some(lines) => Some(ProcessMrz(lines))
  }

  /** `raw`, `qr` and `mrz` are all truthy: only then may a complete record
      stop the pattern pass early. */
  predicate Extras(tokens: seq<string>, qr: Option<string>, mrz: Option<MrzOutcome>) {
    tokens != [] && qr.Some? && qr.value != [] && mrz.Some? && mrz.value.Decoded?
  }

  /** The record after the caption scan. */
  function Scanned(sim: MatchCount, labels: Dict, clean: seq<string>, mrz: Option<MrzOutcome>): Record {
    LabelScan(sim, labels, clean, MrzStart(mrz), |clean|)
  }

  /** Everything after the MRZ was read without raising. */
  function AfterMrz(sim: MatchCount, labels: Dict, tokens: seq<string>, qr: Option<string>,
                    mrz: Option<MrzOutcome>, today: Date): IdOutcome
    requires Valid(today)
  {
    var clean := Clean(tokens);
    match FallbackFrom(Scanned(sim, labels, clean, mrz), clean, 0, Extras(tokens, qr, mrz))
    case AuthorityFound(v) => AuthorityOnly(v)
    case Finished(r) =>
      match FillDates(r, clean, today)
      case None => Failed(ValueError)
      case Some(out) => Parsed(out, mrz)
  }

  /** `parse_id_card(tokens, qr)` with today's date given. */
  function IdCard(sim: MatchCount, labels: Dict, tokens: seq<string>, qr: Option<string>, today: Date): IdOutcome
    requires Valid(today)
  {
    var mrz := ReadMrz(tokens, qr);
    if mrz.Some? && mrz.value.Raised? then Failed(mrz.value.error)
    else AfterMrz(sim, labels, tokens, qr, mrz, today)
  }

  /** The stages after the MRZ: caption scan, pattern pass and dates. */
  method FinishIdCard(sim: MatchCount, labels: Dict, tokens: seq<string>, qr: Option<string>,
                      mrz: Option<MrzOutcome>, today: Date) returns (out: IdOutcome)
    requires Valid(today)
    ensures out == AfterMrz(sim, labels, tokens, qr, mrz, today)
  {
    var clean := Clean(tokens);
    var result := MrzStart(mrz);
    result := ScanLabels(sim, labels, clean, result);
    var scan := FallbackScan(result, clean, Extras(tokens, qr, mrz));
    if scan.AuthorityFound? {
      return AuthorityOnly(scan.authority);
    }
    var dated := ClassifyFill(scan.record, clean, today);
    if dated.None? {
      return Failed(ValueError);
    }
    return Parsed(dated.value, mrz);
  }

  method ParseIdCard(sim: MatchCount, labels: Dict, tokens: seq<string>, qr: Option<string>, today: Date)
    returns (out: IdOutcome)
    requires Valid(today)
    ensures out == IdCard(sim, labels, tokens, qr, today)
  {
    var mrz: Option<MrzOutcome> := None;
    var lines := GetMrz(tokens, qr);
    if lines.Some? {
      var data := ProcessMrz(lines.value);
      if data.Raised? {
        return Failed(data.error);
      }
      mrz := Some(data);
    }
    assert mrz == ReadMrz(tokens, qr);
    out := FinishIdCard(sim, labels, tokens, qr, mrz, today);
  }

  /** A returned record has exactly the ID-card keys and only non-empty
      values, and no later stage overwrites what the MRZ supplied. */
  lemma IdCardRecord(sim: MatchCount, labels: Dict, tokens: seq<string>, qr: Option<string>, today: Date)
    requires Valid(today) && IdLabels(labels)
    ensures var out := IdCard(sim, labels, tokens, qr, today);
      out.Parsed? ==> Shaped(out.fields) && Grows(MrzStart(out.mrz), out.fields)
  {
    var out := IdCard(sim, labels, tokens, qr, today);
    if out.Parsed? {
      var clean := Clean(tokens);
      var mrz := out.mrz;
      var start := MrzStart(mrz);
      if mrz.Some? && mrz.value.Decoded? {
        MrzPrefillShape(mrz.value.data);
      }
      assert Shaped(start);
      var scanned := Scanned(sim, labels, clean, mrz);
      LabelScanGrows(sim, labels, clean, start);
      var extras := Extras(tokens, qr, mrz);
      FallbackGrows(scanned, clean, 0, extras);
      var r := FallbackFrom(scanned, clean, 0, extras).record;
      DatesFillOnlyEmpty(r, clean, today);
      GrowsTransitive(start, scanned, r);
      GrowsTransitive(start, r, out.fields);
    }
  }

  /** `parse_id_card` returns a bare authority string exactly when the MRZ
      is read without raising, the caption scan leaves the authority empty
      and some clean token holds an authority code. */
  lemma IdCardAuthorityOnly(sim: MatchCount, labels: Dict, tokens: seq<string>, qr: Option<string>, today: Date)
    requires Valid(today)
    ensures var mrz := ReadMrz(tokens, qr);
      IdCard(sim, labels, tokens, qr, today).AuthorityOnly? <==>
        !(mrz.Some? && mrz.value.Raised?)
        && Unset(Scanned(sim, labels, Clean(tokens), mrz), Authority)
        && HasAuthority(Clean(tokens), 0)
  {
    var mrz := ReadMrz(tokens, qr);
    AuthorityFoundIff(Scanned(sim, labels, Clean(tokens), mrz), Clean(tokens), 0, Extras(tokens, qr, mrz));
  }

  /** The bare authority string is the rewritten match of the first clean
      token that holds an authority code. */
  lemma IdCardAuthorityFirst(sim: MatchCount, labels: Dict, tokens: seq<string>, qr: Option<string>, today: Date)
    requires Valid(today) && IdCard(sim, labels, tokens, qr, today).AuthorityOnly?
    ensures var clean := Clean(tokens);
      exists k :: 0 <= k < |clean| && Find(AuthorityCode, clean[k]).Some?
                  && IdCard(sim, labels, tokens, qr, today).authority == RewriteHv(Find(AuthorityCode, clean[k]).value)
                  && forall m :: 0 <= m < k ==> Find(AuthorityCode, clean[m]).None?
  {
    var mrz := ReadMrz(tokens, qr);
    AuthorityFoundFirst(Scanned(sim, labels, Clean(tokens), mrz), Clean(tokens), 0, Extras(tokens, qr, mrz));
  }
}

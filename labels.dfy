/** The label dictionaries: per field, the printed captions (and their OCR
    misreadings) that announce it, merged from a base list and per-document
    extras, then normalised for matching. */
module Labels {
  import opened Wrappers
  import opened Text
  import opened Constants
  import opened Fields
  import opened Utils

  /** No string occurs twice. */
  predicate Distinct(xs: seq<string>) {
    forall i, j :: 0 <= i < j < |xs| ==> xs[i] != xs[j]
  }

  /** The list with later repeats dropped: the `seen`/`merged` loop of the merge. */
  function Dedup(xs: seq<string>): (r: seq<string>)
    ensures Distinct(r) && |r| <= |xs|
    ensures forall x :: x in r <==> x in xs
  {
    if xs == [] then []
    else
      var r0 := Dedup(xs[..|xs| - 1]);
      var x := xs[|xs| - 1];
      assert forall y :: y in xs <==> y in xs[..|xs| - 1] || y == x by {
        assert xs == xs[..|xs| - 1] + [x];
      }
      if x in r0 then r0 else r0 + [x]
  }

  /** A list without repeats passes through unchanged. */
  lemma {:induction false} DedupOfDistinct(xs: seq<string>)
    requires Distinct(xs)
    ensures Dedup(xs) == xs
  {
    if xs != [] {
      var init := xs[..|xs| - 1];
      DedupOfDistinct(init);
      assert xs[|xs| - 1] !in init;
      assert xs == init + [xs[|xs| - 1]];
    }
  }

  /** Deduplicating twice is deduplicating once. */
  lemma DedupIdempotent(xs: seq<string>)
    ensures Dedup(Dedup(xs)) == Dedup(xs)
  {
    DedupOfDistinct(Dedup(xs));
  }

  /** Where key `k` sits in the dictionary: its first entry, or `|d|` when absent. */
  function KeyIndex(d: Dict, k: Field): (i: nat)
    ensures i <= |d|
    ensures i < |d| ==> d[i].0 == k
    ensures forall j :: 0 <= j < i ==> d[j].0 != k
  {
    if d == [] then 0 else if d[0].0 == k then 0 else 1 + KeyIndex(d[1..], k)
  }

  /** The position of a key depends on the keys alone. */
  lemma KeyIndexOfKeys(d1: Dict, d2: Dict, k: Field)
    requires Keys(d1) == Keys(d2)
    ensures KeyIndex(d1, k) == KeyIndex(d2, k)
  {
    var i1, i2 := KeyIndex(d1, k), KeyIndex(d2, k);
    assert |d1| == |Keys(d1)| == |Keys(d2)| == |d2|;
    forall j | 0 <= j < |d1| ensures d1[j].0 == d2[j].0 {
      assert Keys(d1)[j] == Keys(d2)[j];
    }
  }

  /** A key is found exactly when it is one of the keys. */
  lemma KeyIndexFound(d: Dict, k: Field)
    ensures KeyIndex(d, k) < |d| <==> k in Keys(d)
  {
    if k in Keys(d) {
      var j :| 0 <= j < |d| && Keys(d)[j] == k;
      assert d[j].0 == k;
    }
  }

  /** `d.get(k)` */
  function Get(d: Dict, k: Field): (r: Option<seq<string>>)
    ensures r.Some? <==> k in Keys(d)
    ensures r.Some? ==> (k, r.value) in d
  {
    KeyIndexFound(d, k);
    var i := KeyIndex(d, k);
    if i < |d| then Some(d[i].1) else None
  }

  /** `d.get(k, [])` */
  function GetOr(d: Dict, k: Field): seq<string> {
    var r := Get(d, k);
    if r.Some? then r.value else []
  }

  /** `d[k] = v`: an existing key keeps its place, a new one goes last. */
  function Put(d: Dict, k: Field, v: seq<string>): (r: Dict)
    ensures Keys(r) == if k in Keys(d) then Keys(d) else Keys(d) + [k]
    ensures Get(r, k) == Some(v)
    ensures forall k' :: k' != k ==> Get(r, k') == Get(d, k')
    ensures DistinctKeys(d) ==> DistinctKeys(r)
  {
    KeyIndexFound(d, k);
    var i := KeyIndex(d, k);
    if i < |d| then
      var r := d[i := (k, v)];
      assert Keys(r) == Keys(d);
      assert forall k' :: KeyIndex(r, k') == KeyIndex(d, k') by {
        forall k' { KeyIndexOfKeys(r, d, k'); }
      }
      r
    else
      var r := d + [(k, v)];
      assert forall k' :: k' != k ==> Get(r, k') == Get(d, k') by {
        forall k' | k' != k ensures Get(r, k') == Get(d, k') {
          KeyIndexAppend(d, (k, v), k');
        }
      }
      KeyIndexAppend(d, (k, v), k);
      r
  }

  lemma KeyIndexAppend(d: Dict, e: (Field, seq<string>), k: Field)
    ensures KeyIndex(d + [e], k) == if KeyIndex(d, k) < |d| || e.0 == k then KeyIndex(d, k) else |d| + 1
  {
    var r := d + [e];
    var i1, i2 := KeyIndex(r, k), KeyIndex(d, k);
    assert r[|d|] == e;
    assert forall j :: 0 <= j < |d| ==> r[j] == d[j];
  }

  /** `merge_labels(base, extra)`: for each key of `extra` in order, the key's
      list becomes the base list followed by the extra list, repeats dropped. */
  function Merge(base: Dict, extra: Dict): Dict {
    if extra == [] then base
    else
      var out := Merge(base, extra[..|extra| - 1]);
      var (k, xs) := extra[|extra| - 1];
      Put(out, k, Dedup(GetOr(out, k) + xs))
  }

  method MergeLabels(base: Dict, extra: Dict) returns (out: Dict)
    ensures out == Merge(base, extra)
  {
    out := base;
    for i := 0 to |extra|
      invariant out == Merge(base, extra[..i])
    {
      var (k, extraList) := extra[i];
      var all := GetOr(out, k) + extraList;
      var seen: set<string> := {};
      var merged: seq<string> := [];
      for j := 0 to |all|
        invariant merged == Dedup(all[..j])
        invariant forall x :: x in seen <==> x in merged
      {
        var x := all[j];
        assert all[..j + 1][..j] == all[..j];
        if x !in seen {
          seen := seen + {x};
          merged := merged + [x];
        }
      }
      assert all[..|all|] == all;
      assert extra[..i + 1][..i] == extra[..i];
      out := Put(out, k, merged);
    }
    assert extra[..|extra|] == extra;
  }

  /** The keys of `ks` followed by those of `es` not already present, in order. */
  function MergedKeys(ks: seq<Field>, es: seq<Field>): seq<Field> {
    if es == [] then ks
    else
      var r := MergedKeys(ks, es[..|es| - 1]);
      if es[|es| - 1] in r then r else r + [es[|es| - 1]]
  }

  lemma {:induction false} MergedKeysAppend(ks: seq<Field>, a: seq<Field>, b: seq<Field>)
    ensures MergedKeys(ks, a + b) == MergedKeys(MergedKeys(ks, a), b)
  {
    if b == [] {
      assert a + b == a;
    } else {
      MergedKeysAppend(ks, a, b[..|b| - 1]);
      assert (a + b)[..|a + b| - 1] == a + b[..|b| - 1];
    }
  }

  lemma {:induction false} MergedKeysPresent(ks: seq<Field>, es: seq<Field>)
    requires forall e :: e in es ==> e in ks
    ensures MergedKeys(ks, es) == ks
  {
    if es != [] {
      assert es[|es| - 1] in es;
      MergedKeysPresent(ks, es[..|es| - 1]);
    }
  }

  /** Merging keeps the base keys in their places and appends the new extra
      keys in the extra's order; each key still occurs once. */
  lemma {:induction false} MergeKeys(base: Dict, extra: Dict)
    ensures Keys(Merge(base, extra)) == MergedKeys(Keys(base), Keys(extra))
    ensures DistinctKeys(base) ==> DistinctKeys(Merge(base, extra))
  {
    if extra != [] {
      var init := extra[..|extra| - 1];
      MergeKeys(base, init);
      assert Keys(init) == Keys(extra)[..|extra| - 1];
    }
  }

  /** A key of `extra` gets the base list followed by its extra list, repeats
      dropped; every other key keeps its base list untouched. */
  lemma {:induction false} MergeGet(base: Dict, extra: Dict, k: Field)
    requires DistinctKeys(extra)
    ensures Get(Merge(base, extra), k)
         == if k in Keys(extra) then Some(Dedup(GetOr(base, k) + GetOr(extra, k))) else Get(base, k)
  {
    if extra != [] {
      var init := extra[..|extra| - 1];
      var last := extra[|extra| - 1];
      assert DistinctKeys(init);
      MergeGet(base, init, k);
      GetLast(extra, k);
    }
  }

  /** Looking a key up in a dictionary without repeated keys: the last entry
      answers for its own key, the entries before it for every other key. */
  lemma GetLast(d: Dict, k: Field)
    requires DistinctKeys(d) && d != []
    ensures var init, last := d[..|d| - 1], d[|d| - 1];
      (k in Keys(d) <==> k in Keys(init) || k == last.0)
      && (k == last.0 ==> k !in Keys(init) && GetOr(d, k) == last.1)
      && (k != last.0 ==> GetOr(d, k) == GetOr(init, k))
  {
    var init := d[..|d| - 1];
    var last := d[|d| - 1];
    assert d == init + [last];
    assert Keys(d) == Keys(init) + [last.0];
    KeyIndexAppend(init, last, k);
    KeyIndexFound(init, k);
    if k == last.0 {
      assert k !in Keys(init);
    }
  }

  /** `[norm_key(v) for v in variants if norm_key(v)]` */
  function NormVariants(vs: seq<string>): (r: seq<string>)
    ensures |r| <= |vs|
  {
    if vs == [] then []
    else
      var n := NormKey(vs[|vs| - 1], false);
      NormVariants(vs[..|vs| - 1]) + if n != [] then [n] else []
  }

  /** Every kept variant is a non-empty key that normalisation leaves alone. */
  lemma {:induction false} NormVariantsNormal(vs: seq<string>)
    ensures forall i :: 0 <= i < |NormVariants(vs)| ==> NormVariants(vs)[i] != [] && NormKey(NormVariants(vs)[i], false) == NormVariants(vs)[i]
  {
    if vs != [] {
      NormVariantsNormal(vs[..|vs| - 1]);
      NormKeyIdempotent(vs[|vs| - 1]);
    }
  }

  /** The kept variants are exactly the non-empty normalisations of the given ones. */
  lemma {:induction false} NormVariantsMembers(vs: seq<string>, v: string)
    ensures v in NormVariants(vs) <==> v != [] && exists u :: u in vs && NormKey(u, false) == v
  {
    if vs != [] {
      var init := vs[..|vs| - 1];
      NormVariantsMembers(init, v);
      assert forall w :: w in vs <==> w in init || w == vs[|vs| - 1] by {
        assert vs == init + [vs[|vs| - 1]];
      }
    }
  }

  /** A list of normalised, non-empty keys is its own normalisation. */
  lemma {:induction false} NormVariantsOfNormal(vs: seq<string>)
    requires forall i :: 0 <= i < |vs| ==> vs[i] != [] && NormKey(vs[i], false) == vs[i]
    ensures NormVariants(vs) == vs
  {
    if vs != [] {
      var init, last := vs[..|vs| - 1], vs[|vs| - 1];
      NormVariantsOfNormal(init);
      assert NormKey(last, false) == last != [];
      assert NormVariants(vs) == init + [last];
      SplitLast(vs);
    }
  }

  /** `build_labels_norm(labels)` */
  function BuildLabelsNorm(d: Dict): (r: Dict)
    ensures |r| == |d|
    ensures forall i :: 0 <= i < |d| ==> r[i] == (d[i].0, NormVariants(d[i].1))
  {
    seq(|d|, i requires 0 <= i < |d| => (d[i].0, NormVariants(d[i].1)))
  }

  /** Normalising keeps the fields and their order, and every variant it keeps
      is a non-empty key that normalisation leaves alone; a second pass changes
      nothing. */
  lemma BuildLabelsNormShape(d: Dict)
    ensures Keys(BuildLabelsNorm(d)) == Keys(d)
    ensures DistinctKeys(d) ==> DistinctKeys(BuildLabelsNorm(d))
    ensures forall i, v :: 0 <= i < |d| && v in BuildLabelsNorm(d)[i].1 ==> v != [] && NormKey(v, false) == v
    ensures BuildLabelsNorm(BuildLabelsNorm(d)) == BuildLabelsNorm(d)
  {
    var e := BuildLabelsNorm(d);
    forall i | 0 <= i < |d|
      ensures forall v :: v in e[i].1 ==> v != [] && NormKey(v, false) == v
      ensures NormVariants(e[i].1) == e[i].1
    {
      NormVariantsNormal(d[i].1);
      NormVariantsOfNormal(e[i].1);
    }
  }

  // The dictionaries, as printed in the source.

  /** Captions shared by both document types. */
  const LabelsBase: Dict := [
    (Surname, [
      "familiyasi/surname", "familiyasi surname", "familiya/surname", "familiyasi", "familiya",
      "surname", "familyname", "familiyasi/surnarne", "familiyasi/sumame", "familiyasi/surnane",
      "familiyasi/surname", "familyasi/surname", "fameyas/surname", "familiyasi", "familyasi",
      "surname", "family name"
    ]),
    (GivenName, [
      "ismi/given name(s)", "ismi/given name", "ismi given name(s)", "ismi given names", "ismi",
      "givenname", "givennames", "given name", "given name(s)", "givennamels", "givennamels)",
      "given namne(s)", "given namne", "ismi/given names", "ismi/givennames", "m/oivennames",
      "ismi", "given names"
    ]),
    (Patronymic, [
      "otasining ism/father's name", "father's name", "fathersname", "otasining ism/father's name",
      "otasining ismi", "father's name", "fathersname", "otasining ismi/patronymic",
      "otasining ismi patronymic", "otasiningismi/patronymic", "otasiningismi",
      "otasining ismi/patromymic", "patronimic"
    ]),
    (Sex, [
      "jinsi/sex", "jinsi", "sex", "jinsi sex"
    ]),
    (DateOfBirth, [
      "tug'ilgan sanasi/date of birth", "tug'ilgan sanasi", "date of birth", "dateofbirth",
      "tugilgan sanasi/date of birth", "tugilgan sanasi", "tugilgan sanasi/dateofbirth",
      "dateof birth", "date ofbirth", "tugilgan sanasi/date ofbirth",
      "tugilgan sanasi/date of birtn"
    ]),
    (DateOfIssue, [
      "berilgan sanasi", "berilgan sanasi/dateofissue", "date of issue", "dateofissue",
      "date ofissue", "berilgan sanasi/date of lssue", "berilgan sanasi/date of issue",
      "berilgan sanasi", "date of issue", "dateofissue", "dateoflssue"
    ]),
    (DateOfExpiry, [
      "amal qilish muddati/date of expiry", "amal qilish muddati",
      "amal qilish muddati/dateofexpiry", "date of expiry", "dateofexpiry", "date ofexpiry",
      "date of expiy", "dateofexpiy", "amal qitishmuddati/dateofexpiry",
      "amal qilish muddati/date of expiy", "expiry"
    ]),
    (PlaceOfBirth, [
      "tug'ilgan joyi / place of birth", "tug'ilgan joyi/ place of birth",
      "tugilgan joyi / place of birth", "tugilgan joyi/ place of birth",
      "tugilgan joyi /place of birth", "tugilgan joyi/place of birth",
      "tugilgen joys/ place of birth", "tugigan aps/place of sath", "tugilganjoy/place obith",
      "tug'lligan jay/place of barth", "tugiigan joyi/place of birth",
      "tugilgan joyi/ place of brth", "tug'ilgan jeyl/ place of birth", "tugigan aps/place of sath",
      "tugilg", "place of birth", "place obith"
    ])
  ]

  /** Captions only on the new ID card. */
  const NewExtra: Dict := [
    (CardNumber, [
      "karta raqami/card number", "karta raqami", "karta ragami", "karta ragami/card number",
      "karta raqami/cardnumber", "kartaraqami/cardnumber", "kartaraqami", "karta ragami/cardnumber",
      "card number", "cardnumber", "karta", "raqami/card number", "raqami/cardnumber",
      "karla ragami/card number", "karla ragami/cardnumber"
    ]),
    (PersonalNumber, [
      "shaxsiy ragami / personal number", "shaxsiy ragami/personal number",
      "shaxsiy raqami / personal number", "shaxsiy raqami/personal number",
      "shaxsiy raqami / persanal number", "shaxsiy regami/ personal number",
      "shaxsiy ranami/ personal number", "shaxsiy ranami/personal number",
      "shaxsiy ranami/personal numher", "shaxsiy ranamiy/personal number",
      "shaxsiyraqami/personal number", "shaasiyteame/porsonal number",
      "shexsiyranamiy/personal number", "ntypersonal number", "/ personal number",
      "/personal number", "/ parsonal number", "personal number", "shaxsiy ranami",
      "shaxsiy ragami"
    ]),
    (Authority, [
      "berilgan joyi / place of issue", "berilgan joyi/ place of issue",
      "berilgan joyi /place of issue", "berilgan joyi/ place ofissue",
      "berilgan joyl / place of issue", "berilgan joyl / piace of issue",
      "berilgan joyl / place of insue", "berilgan joyl", "berilgan joy",
      "beritgan joyry placr of issue", "barligan joyiv isace of itsus", "pate of asue",
      "plade of issue", "place of insue", "ce of issue", "place of issue"
    ])
  ]

  /** Captions only on the old passport. */
  const OldExtra: Dict := [
    (CardNumber, [
      "pasport raqami/passport no", "passport no", "passportno", "pasport raqami", "pasport",
      "passport", "raqami/passport", "pasport no"
    ]),
    (Authority, [
      "kim tomonidan berilgan/authority", "kimtomonidan berilgan/authority",
      "personallashtirishorgani/authority", "personallashtirish organi/authority", "authority",
      "authcrty", "auth0rity"
    ])
  ]

  /** Karakalpak-language captions of the old passport. */
  const Karakalpak: Dict := [
    (Surname, [
      "familiyasi/familyasi", "familiyasi familyasi", "familiyasifamilyasi", "familiyasi",
      "familyasi", "fam1liyasi", "fam1lyasi", "fami liyasi"
    ]),
    (GivenName, [
      "ati/ismi", "ati ismi", "atiismi", "ati", "ismi", "at1", "a ti"
    ]),
    (Patronymic, KarakalpakPatronymic),
    (DateOfBirth, [
      "tuwilgan sanesi/tugilgan sanasi", "tuwilgan sanesi tugilgan sanasi",
      "tuwilgansanesitugilgansanasi", "tuwilgan sanesi", "tugilgan sanasi",
      "tugilgan sanasi/date of birth", "tugilgan sanasi date of birth", "tugilgansanasidateofbirth",
      "date of birth", "birth date", "tuw1lgan sanesi", "tug1lgan sanasi"
    ]),
    (PlaceOfBirth, [
      "tuwilgan jeri/tugilgan joyi", "tuwilgan jeri tugilgan joyi", "tuwilganjeritugilganjoyi",
      "tuwilgan jeri", "tugilgan joyi", "tugilgan joyi/place of birth",
      "tugilgan joyi place of birth", "tugilganjoyiplaceofbirth", "place of birth", "tuw1lgan jeri",
      "tug1lgan joyi"
    ]),
    (Sex, [
      "jinsi/jinsi", "jinsi", "jinsi/sex", "jinsi sex", "jinsisex", "sex", "j1nsi", "jins1"
    ]),
    (PassportNumber, [
      "passport raqami/passport no", "passport raqami passport no", "passportraqamipassportno",
      "passport raqami", "passport no", "passportno", "passport number", "passportnumber",
      "pasport raqami", "passp0rt raqami"
    ]),
    (DateOfIssue, [
      "berilgen waqti/berilgan sanasi", "berilgen waqti berilgan sanasi",
      "berilgenwaqtiberilgansanasi", "berilgen waqti", "berilgan sanasi",
      "berilgan sanasi/date of issue", "berilgan sanasi date of issue", "berilgansanasidateofissue",
      "date of issue", "ber1lgen waqti", "ber1lgan sanasi"
    ]),
    (DateOfExpiry, [
      "amel etiw muddeti/amal qilish muddati", "amel etiw muddeti amal qilish muddati",
      "ameletiwmuddetiamalqilishmuddati", "amel etiw muddeti", "amal qilish muddati",
      "amal qilish muddati/date of expiry", "amal qilish muddati date of expiry",
      "amalqilishmuddatidateofexpiry", "date of expiry", "expiry date", "amelet1w muddeti",
      "amal q1lish muddati"
    ]),
    (Authority, [
      "berilgen jer/kim tomonidan berilgan", "berilgen jer kim tomonidan berilgan",
      "berilgenjerkimtomonidanberilgan", "kim tomonidan berilgan", "kimtomonidanberilgan",
      "berilgen jer", "berilgan joyi/authority", "berilgan joyi authority", "berilganjoyiauthority",
      "authority", "issuing authority", "state personalization centre",
      "statepersonalizationcentre", "state personal1zation centre", "state personalizat1on centre"
    ])
  ]


  /** The Karakalpak patronymic captions as the source lists them: a missing
      comma fuses the last two literals into one caption. */
  const KarakalpakPatronymic: seq<string> := [
    "akesinin ati/atasining ismi", "akesinin ati atasining ismi", "akesininatiatasiningismi",
    "akesinin ati", "akesininati", "atasining ismi", "atasiningismi", "akesin1n ati",
    "akesinin at1", "a'xesioin atti otas", "a'xesioin/atti otas", "a'xesioinati otas"
  ]

  /** The same captions with the two fused literals kept apart. */
  const KarakalpakPatronymicIntended: seq<string> := [
    "akesinin ati/atasining ismi", "akesinin ati atasining ismi", "akesininatiatasiningismi",
    "akesinin ati", "akesininati", "atasining ismi", "atasiningismi", "akesin1n ati",
    "akesinin at1", "a'xesioin atti otas", "a'xesioin/atti otas", "a'xesioin", "ati otas"
  ]

  /** The Karakalpak captions with the corrected patronymic list. */
  const KarakalpakIntended: Dict := Karakalpak[2 := (Patronymic, KarakalpakPatronymicIntended)]

  /** `LABELS_OLD`: the passport dictionary, as the source builds it. */
  const LabelsOld: Dict := Merge(Merge(LabelsBase, OldExtra), Karakalpak)

  /** The passport dictionary with the corrected patronymic captions. */
  const LabelsOldIntended: Dict := Merge(Merge(LabelsBase, OldExtra), KarakalpakIntended)

  /** `LABELS_NEW`: the ID-card dictionary. */
  const LabelsNew: Dict := Merge(LabelsBase, NewExtra)

  const LabelsOldNorm: Dict := BuildLabelsNorm(LabelsOld)
  const LabelsOldIntendedNorm: Dict := BuildLabelsNorm(LabelsOldIntended)
  const LabelsNewNorm: Dict := BuildLabelsNorm(LabelsNew)

  const BaseKeys: seq<Field> :=
    [Surname, GivenName, Patronymic, Sex, DateOfBirth, DateOfIssue, DateOfExpiry, PlaceOfBirth]

  lemma LabelsBaseKeys()
    ensures Keys(LabelsBase) == BaseKeys
  {
  }

  lemma ExtraKeys()
    ensures Keys(NewExtra) == [CardNumber, PersonalNumber, Authority]
    ensures Keys(OldExtra) == [CardNumber, Authority]
    ensures Keys(Karakalpak) == [Surname, GivenName, Patronymic, DateOfBirth, PlaceOfBirth, Sex,
                                 PassportNumber, DateOfIssue, DateOfExpiry, Authority]
    ensures DistinctKeys(Karakalpak)
  {
    NewExtraKeys();
    OldExtraKeys();
    KarakalpakKeys();
  }

  lemma NewExtraKeys()
    ensures Keys(NewExtra) == [CardNumber, PersonalNumber, Authority]
  {
  }

  lemma OldExtraKeys()
    ensures Keys(OldExtra) == [CardNumber, Authority]
  {
  }

  lemma KarakalpakKeys()
    ensures Keys(Karakalpak) == [Surname, GivenName, Patronymic, DateOfBirth, PlaceOfBirth, Sex,
                                 PassportNumber, DateOfIssue, DateOfExpiry, Authority]
    ensures DistinctKeys(Karakalpak)
  {
    DistinctKeysOf(Karakalpak);
  }

  /** The fields in the order the parsers scan them: the shared fields first,
      then the passport's card number, authority and passport number, or the
      ID card's card number, personal number and authority; no field twice. */
  lemma DictionaryKeys()
    ensures Keys(LabelsOld) == BaseKeys + [CardNumber, Authority, PassportNumber]
    ensures Keys(LabelsNew) == BaseKeys + [CardNumber, PersonalNumber, Authority]
    ensures Keys(LabelsOldNorm) == Keys(LabelsOld) && DistinctKeys(LabelsOldNorm)
    ensures Keys(LabelsNewNorm) == Keys(LabelsNew) && DistinctKeys(LabelsNewNorm)
  {
    LabelsBaseKeys();
    ExtraKeys();
    OldKeyOrder(LabelsBase, OldExtra, Karakalpak);
    NewKeyOrder(LabelsBase, NewExtra);
    BuildLabelsNormShape(LabelsOld);
    BuildLabelsNormShape(LabelsNew);
  }

  lemma OldKeyOrder(base: Dict, extra: Dict, karakalpak: Dict)
    requires Keys(base) == BaseKeys && Keys(extra) == [CardNumber, Authority]
    requires Keys(karakalpak) == [Surname, GivenName, Patronymic, DateOfBirth, PlaceOfBirth, Sex,
                                  PassportNumber, DateOfIssue, DateOfExpiry, Authority]
    ensures Keys(Merge(Merge(base, extra), karakalpak)) == BaseKeys + [CardNumber, Authority, PassportNumber]
    ensures DistinctKeys(Merge(Merge(base, extra), karakalpak))
  {
    MergeKeys(base, extra);
    MergeKeys(Merge(base, extra), karakalpak);
    OldMergedKeys(Keys(karakalpak));
    OldKeysDistinct();
    DistinctKeysOf(Merge(Merge(base, extra), karakalpak));
  }

  lemma OldMergedKeys(kk: seq<Field>)
    requires kk == [Surname, GivenName, Patronymic, DateOfBirth, PlaceOfBirth, Sex,
                    PassportNumber, DateOfIssue, DateOfExpiry, Authority]
    ensures MergedKeys(MergedKeys(BaseKeys, [CardNumber, Authority]), kk)
         == BaseKeys + [CardNumber, Authority, PassportNumber]
  {
    var ks := BaseKeys + [CardNumber, Authority];
    assert MergedKeys(BaseKeys, [CardNumber, Authority]) == ks by {
      MergedKeysAppend(BaseKeys, [CardNumber], [Authority]);
      MergedKeysNew(BaseKeys, CardNumber);
      MergedKeysNew(BaseKeys + [CardNumber], Authority);
      assert [CardNumber] + [Authority] == [CardNumber, Authority];
    }
    assert kk == kk[..6] + [PassportNumber] + kk[7..];
    MergedKeysAppend(ks, kk[..6] + [PassportNumber], kk[7..]);
    MergedKeysAppend(ks, kk[..6], [PassportNumber]);
    MergedKeysPresent(ks, kk[..6]);
    MergedKeysNew(ks, PassportNumber);
    MergedKeysPresent(ks + [PassportNumber], kk[7..]);
  }

  lemma OldKeysDistinct()
    ensures DistinctFields(BaseKeys + [CardNumber, Authority, PassportNumber])
  {
  }

  lemma NewKeyOrder(base: Dict, extra: Dict)
    requires Keys(base) == BaseKeys && Keys(extra) == [CardNumber, PersonalNumber, Authority]
    ensures Keys(Merge(base, extra)) == BaseKeys + [CardNumber, PersonalNumber, Authority]
    ensures DistinctKeys(Merge(base, extra))
  {
    MergeKeys(base, extra);
    NewMergedKeys();
    NewKeysDistinct();
    DistinctKeysOf(Merge(base, extra));
  }

  lemma NewMergedKeys()
    ensures MergedKeys(BaseKeys, [CardNumber, PersonalNumber, Authority])
         == BaseKeys + [CardNumber, PersonalNumber, Authority]
  {
    MergedKeysAppend(BaseKeys, [CardNumber, PersonalNumber], [Authority]);
    MergedKeysAppend(BaseKeys, [CardNumber], [PersonalNumber]);
    MergedKeysNew(BaseKeys, CardNumber);
    MergedKeysNew(BaseKeys + [CardNumber], PersonalNumber);
    MergedKeysNew(BaseKeys + [CardNumber, PersonalNumber], Authority);
    assert [CardNumber] + [PersonalNumber] == [CardNumber, PersonalNumber];
    assert [CardNumber, PersonalNumber] + [Authority] == [CardNumber, PersonalNumber, Authority];
    assert BaseKeys + [CardNumber] + [PersonalNumber] == BaseKeys + [CardNumber, PersonalNumber];
  }

  lemma NewKeysDistinct()
    ensures DistinctFields(BaseKeys + [CardNumber, PersonalNumber, Authority])
  {
  }

  lemma MergedKeysNew(ks: seq<Field>, e: Field)
    requires e !in ks
    ensures MergedKeys(ks, [e]) == ks + [e]
  {
    assert [e][..0] == [];
  }

  predicate DistinctFields(ks: seq<Field>) {
    forall i, j :: 0 <= i < j < |ks| ==> ks[i] != ks[j]
  }

  lemma DistinctKeysOf(d: Dict)
    ensures DistinctKeys(d) <==> DistinctFields(Keys(d))
  {
  }

  /** Fields the extra dictionary does not mention keep the base list as it
      is, repeats included: the ID card's surname captions list
      `"familiyasi/surname"` twice, while the passport's, merged with the
      Karakalpak list, hold each caption once. */
  lemma SurnameLists()
    ensures Get(LabelsNew, Surname) == Some(LabelsBase[0].1)
    ensures LabelsBase[0].1[0] == LabelsBase[0].1[10] == "familiyasi/surname"
    ensures Get(LabelsOld, Surname).Some? && Distinct(Get(LabelsOld, Surname).value)
  {
    LabelsBaseKeys();
    ExtraKeys();
    SurnameMerge(LabelsBase, NewExtra, OldExtra, Karakalpak);
    SurnameRepeat();
  }

  lemma SurnameRepeat()
    ensures LabelsBase[0].1[0] == LabelsBase[0].1[10] == "familiyasi/surname"
  {
  }

  lemma SurnameMerge(base: Dict, newExtra: Dict, oldExtra: Dict, karakalpak: Dict)
    requires Keys(base) == BaseKeys
    requires Keys(newExtra) == [CardNumber, PersonalNumber, Authority]
    requires DistinctKeys(karakalpak) && Surname in Keys(karakalpak)
    ensures Get(Merge(base, newExtra), Surname) == Some(base[0].1)
    ensures Get(Merge(Merge(base, oldExtra), karakalpak), Surname).Some?
    ensures Distinct(Get(Merge(Merge(base, oldExtra), karakalpak), Surname).value)
  {
    assert Get(Merge(base, newExtra), Surname) == Get(base, Surname) by {
      NewKeysDistinct();
      assert DistinctFields(Keys(newExtra)) by {
        assert Keys(newExtra) == (BaseKeys + [CardNumber, PersonalNumber, Authority])[8..];
      }
      DistinctKeysOf(newExtra);
      MergeGet(base, newExtra, Surname);
    }
    assert Get(base, Surname) == Some(base[0].1) by {
      assert base[0].0 == Keys(base)[0] == Surname;
    }
    MergeGet(Merge(base, oldExtra), karakalpak, Surname);
  }

  /** The entry at a position of a dictionary without repeated keys is what `get` returns for its key. */
  lemma GetAt(d: Dict, i: nat)
    requires DistinctKeys(d) && i < |d|
    ensures Get(d, d[i].0) == Some(d[i].1)
  {
    assert d[i].0 in Keys(d) by { assert Keys(d)[i] == d[i].0; }
  }

  /** The passport's card-number captions include `"passport no"` and
      `"pasport raqami"`, and the card-number entry comes before the
      passport-number entry, which lists both as well: a token with either key
      is matched, and never to the passport number. */
  lemma PassportCaptionsReadAsCardNumber(sim: MatchCount, token: string)
    requires NormKey(token, false) == "passportno" || NormKey(token, false) == "pasportraqami"
    ensures BestLabel(sim, token, LabelsOldNorm).Some?
    ensures BestLabel(sim, token, LabelsOldNorm).value.0 != PassportNumber
  {
    DictionaryKeys();
    PassportCaptionsInCardNumber();
    ShadowedCaption(sim, token, LabelsOldNorm);
  }

  lemma ShadowedCaption(sim: MatchCount, token: string, d: Dict)
    requires Keys(d) == BaseKeys + [CardNumber, Authority, PassportNumber] && DistinctKeys(d)
    requires NormKey(token, false) != [] && NormKey(token, false) in d[8].1
    ensures BestLabel(sim, token, d).Some? && BestLabel(sim, token, d).value.0 != PassportNumber
  {
    assert d[10].0 == Keys(d)[10] == PassportNumber;
    EarlierEntryWins(sim, token, d, 8, 10);
  }

  lemma PassportCaptionsInCardNumber()
    ensures |LabelsOldNorm| > 8
    ensures "passportno" in LabelsOldNorm[8].1 && "pasportraqami" in LabelsOldNorm[8].1
  {
    LabelsBaseKeys();
    ExtraKeys();
    CardNumberMerge(LabelsBase, OldExtra, Karakalpak);
    OldKeyOrder(LabelsBase, OldExtra, Karakalpak);
    PassportCaptions(OldExtra[0].1);
    CardCaptionsNormalised(LabelsOld, OldExtra[0].1);
  }

  lemma CardCaptionsNormalised(labels: Dict, card: seq<string>)
    requires Keys(labels) == BaseKeys + [CardNumber, Authority, PassportNumber] && DistinctKeys(labels)
    requires Get(labels, CardNumber) == Some(Dedup(card)) && |card| > 3
    requires NormKey(card[2], false) == "passportno" && NormKey(card[3], false) == "pasportraqami"
    ensures |BuildLabelsNorm(labels)| > 8
    ensures "passportno" in BuildLabelsNorm(labels)[8].1 && "pasportraqami" in BuildLabelsNorm(labels)[8].1
  {
    CardNumberNorm(labels, card, card[2], "passportno");
    CardNumberNorm(labels, card, card[3], "pasportraqami");
  }

  lemma PassportCaptions(card: seq<string>)
    requires card == OldExtra[0].1
    ensures |card| > 3
    ensures NormKey(card[2], false) == "passportno"
    ensures NormKey(card[3], false) == "pasportraqami"
  {
    CardCaptionsAt(card);
    PassportNo(card[2]);
    PasportRaqami(card[3]);
  }

  lemma CardCaptionsAt(card: seq<string>)
    requires card == OldExtra[0].1
    ensures |card| > 3 && card[2] == "passportno" && card[3] == "pasport raqami"
  {
  }

  lemma PassportNo(u: string)
    requires u == "passportno"
    ensures NormKey(u, false) == "passportno"
  {
    assert forall x :: x in u ==> IsLower(x);
    NormKeyOfPlain(u);
  }

  lemma PasportRaqami(u: string)
    requires u == "pasport raqami"
    ensures NormKey(u, false) == "pasportraqami"
  {
    var a, b := u[..7], u[8..];
    assert a == "pasport" && b == "raqami";
    assert u == a + [' '] + b;
    assert forall x :: x in a ==> IsLower(x);
    assert forall x :: x in b ==> IsLower(x);
    NormKeyJoin(a, ' ', b);
    PasportRaqamiJoined(a, b);
  }

  lemma PasportRaqamiJoined(a: string, b: string)
    requires a == "pasport" && b == "raqami"
    ensures a + b == "pasportraqami"
  {
  }

  lemma CardNumberMerge(base: Dict, oldExtra: Dict, karakalpak: Dict)
    requires Keys(base) == BaseKeys && Keys(oldExtra) == [CardNumber, Authority]
    requires DistinctKeys(karakalpak) && CardNumber !in Keys(karakalpak)
    ensures Get(Merge(Merge(base, oldExtra), karakalpak), CardNumber) == Some(Dedup(oldExtra[0].1))
  {
    CardNumberExtra(base, oldExtra);
    MergeGet(Merge(base, oldExtra), karakalpak, CardNumber);
  }

  lemma CardNumberExtra(base: Dict, oldExtra: Dict)
    requires Keys(base) == BaseKeys && Keys(oldExtra) == [CardNumber, Authority]
    ensures Get(Merge(base, oldExtra), CardNumber) == Some(Dedup(oldExtra[0].1))
  {
    assert DistinctKeys(oldExtra) by { assert Keys(oldExtra)[0] != Keys(oldExtra)[1]; }
    assert GetOr(oldExtra, CardNumber) == oldExtra[0].1 by {
      GetAt(oldExtra, 0);
      assert oldExtra[0].0 == Keys(oldExtra)[0];
    }
    assert GetOr(base, CardNumber) == [] by {
      assert CardNumber !in BaseKeys;
    }
    assert [] + oldExtra[0].1 == oldExtra[0].1;
    MergeGet(base, oldExtra, CardNumber);
  }

  lemma CardNumberNorm(labels: Dict, card: seq<string>, u: string, w: string)
    requires Keys(labels) == BaseKeys + [CardNumber, Authority, PassportNumber] && DistinctKeys(labels)
    requires Get(labels, CardNumber) == Some(Dedup(card)) && u in card
    requires NormKey(u, false) == w && w != []
    ensures w in BuildLabelsNorm(labels)[8].1
  {
    assert labels[8] == (CardNumber, Dedup(card)) by {
      assert labels[8].0 == Keys(labels)[8] == CardNumber;
      GetAt(labels, 8);
    }
    NormVariantsMembers(Dedup(card), w);
  }

  /** Captions that differ only in their separator collapse to one key, so a
      normalised list can hold the same key twice. */
  lemma SurnameCaptionsCollide(slashed: string, spaced: string)
    requires slashed == "familiyasi/surname" && spaced == "familiyasi surname"
    ensures NormKey(slashed, false) == NormKey(spaced, false) == "familiyasisurname"
  {
    var a, b := slashed[..10], slashed[11..];
    assert a == "familiyasi" && b == "surname";
    assert slashed == a + ['/'] + b && spaced == a + [' '] + b;
    assert forall x :: x in a ==> IsLower(x);
    assert forall x :: x in b ==> IsLower(x);
    NormKeyJoin(a, '/', b);
    NormKeyJoin(a, ' ', b);
    RunTogether(a, b);
  }

  lemma RunTogether(a: string, b: string)
    requires a == "familiyasi" && b == "surname"
    ensures a + b == "familiyasisurname"
  {
  }

  /** As written, the patronymic list holds the fused caption and neither of
      its halves, and so does the normalised passport dictionary: its
      patronymic entry lists the key `axesioinatiotas` but neither `atiotas`
      nor `axesioin`, so a token `ati otas` or `a'xesioin` is no exact
      patronymic caption. */
  lemma FusedPatronymicCaption()
    ensures "a'xesioinati otas" in KarakalpakPatronymic
    ensures "a'xesioin" !in KarakalpakPatronymic && "ati otas" !in KarakalpakPatronymic
    ensures |LabelsOldNorm| > 2 && LabelsOldNorm[2].0 == Patronymic
    ensures "axesioinatiotas" in LabelsOldNorm[2].1
    ensures "atiotas" !in LabelsOldNorm[2].1 && "axesioin" !in LabelsOldNorm[2].1
  {
    FusedLiterals();
    OldPatronymicEntry(LabelsBase[2].1 + KarakalpakPatronymic);
    FusedPresent();
    AtiotasAbsent();
    AxesioinAbsent();
  }

  /** Kept apart, both halves are patronymic captions and the fused string is
      not; whatever the similarity measure, the tokens `ati otas` and
      `a'xesioin` are then matched to the patronymic with score 1, since no
      surname or given-name caption normalises to their keys. */
  lemma SeparatePatronymicCaptions(sim: MatchCount)
    ensures "a'xesioin" in KarakalpakPatronymicIntended && "ati otas" in KarakalpakPatronymicIntended
    ensures "a'xesioinati otas" !in KarakalpakPatronymicIntended
    ensures BestLabel(sim, "ati otas", LabelsOldIntendedNorm) == Some((Patronymic, 1.0))
    ensures BestLabel(sim, "a'xesioin", LabelsOldIntendedNorm) == Some((Patronymic, 1.0))
  {
    SeparateLiterals();
    AtiOtasMatched(sim);
    AxesioinMatched(sim);
  }

  lemma AtiOtasMatched(sim: MatchCount)
    ensures BestLabel(sim, "ati otas", LabelsOldIntendedNorm) == Some((Patronymic, 1.0))
  {
    AtiOtasKey();
    IntendedPatronymicHas();
    SurnamesLack();
    GivenNamesLack();
    PatronymicMatched(sim, "ati otas", "atiotas", LabelsOldIntendedNorm);
  }

  lemma AxesioinMatched(sim: MatchCount)
    ensures BestLabel(sim, "a'xesioin", LabelsOldIntendedNorm) == Some((Patronymic, 1.0))
  {
    AxesioinKey();
    IntendedPatronymicHas();
    SurnamesLack();
    GivenNamesLack();
    PatronymicMatched(sim, "a'xesioin", "axesioin", LabelsOldIntendedNorm);
  }

  /** A token whose key the corrected patronymic entry lists, and neither
      entry before it, is matched to the patronymic with score 1. */
  lemma PatronymicMatched(sim: MatchCount, token: string, nk: string, d: Dict)
    requires NormKey(token, false) == nk && nk != [] && |d| > 2
    requires d[2].0 == Patronymic && nk in d[2].1 && nk !in d[0].1 && nk !in d[1].1
    ensures BestLabel(sim, token, d) == Some((Patronymic, 1.0))
  {
    FirstEntryWins(sim, token, d, 2);
  }

  lemma FusedLiterals()
    ensures "a'xesioinati otas" in KarakalpakPatronymic
    ensures "a'xesioin" !in KarakalpakPatronymic && "ati otas" !in KarakalpakPatronymic
  {
  }

  lemma SeparateLiterals()
    ensures "a'xesioin" in KarakalpakPatronymicIntended && "ati otas" in KarakalpakPatronymicIntended
    ensures "a'xesioinati otas" !in KarakalpakPatronymicIntended
  {
  }

  lemma FusedPresent()
    ensures "axesioinatiotas" in NormVariants(Dedup(LabelsBase[2].1 + KarakalpakPatronymic))
  {
    FusedKey();
    PresentKey(LabelsBase[2].1 + KarakalpakPatronymic, "a'xesioinati otas", "axesioinatiotas");
  }

  lemma AtiotasAbsent()
    ensures "atiotas" !in NormVariants(Dedup(LabelsBase[2].1 + KarakalpakPatronymic))
  {
    var vs := LabelsBase[2].1 + KarakalpakPatronymic;
    PatronymicN(vs);
    AbsentKey(vs, "atiotas", 'n');
  }

  lemma AxesioinAbsent()
    ensures "axesioin" !in NormVariants(Dedup(LabelsBase[2].1 + KarakalpakPatronymic))
  {
    var vs := LabelsBase[2].1 + KarakalpakPatronymic;
    PatronymicT(vs);
    AbsentKey(vs, "axesioin", 't');
  }

  /** The corrected patronymic entry lists both halves' keys. */
  lemma IntendedPatronymicHas()
    ensures |LabelsOldIntendedNorm| > 2 && LabelsOldIntendedNorm[2].0 == Patronymic
    ensures "atiotas" in LabelsOldIntendedNorm[2].1 && "axesioin" in LabelsOldIntendedNorm[2].1
  {
    var vs := LabelsBase[2].1 + KarakalpakPatronymicIntended;
    IntendedPatronymicEntry(vs);
    HalvesPresent(vs);
  }

  lemma HalvesPresent(vs: seq<string>)
    requires vs == LabelsBase[2].1 + KarakalpakPatronymicIntended
    ensures "atiotas" in NormVariants(Dedup(vs)) && "axesioin" in NormVariants(Dedup(vs))
  {
    SeparateLiterals();
    AtiOtasKey();
    AxesioinKey();
    PresentKey(vs, "ati otas", "atiotas");
    PresentKey(vs, "a'xesioin", "axesioin");
  }

  /** No surname caption has either half's key. */
  lemma SurnamesLack()
    ensures |LabelsOldIntendedNorm| > 0
    ensures "atiotas" !in LabelsOldIntendedNorm[0].1 && "axesioin" !in LabelsOldIntendedNorm[0].1
  {
    IntendedSurnameEntry();
    SurnamesAbsent();
  }

  lemma SurnamesAbsent()
    ensures "atiotas" !in NormVariants(Dedup(LabelsBase[0].1 + Karakalpak[0].1))
    ensures "axesioin" !in NormVariants(Dedup(LabelsBase[0].1 + Karakalpak[0].1))
  {
    var vs := LabelsBase[0].1 + Karakalpak[0].1;
    SurnameLetters(vs);
    AbsentKey(vs, "atiotas", 'm');
    AbsentKey(vs, "axesioin", 'm');
  }

  /** No given-name caption has either half's key. */
  lemma GivenNamesLack()
    ensures |LabelsOldIntendedNorm| > 1
    ensures "atiotas" !in LabelsOldIntendedNorm[1].1 && "axesioin" !in LabelsOldIntendedNorm[1].1
  {
    IntendedGivenNameEntry();
    GivenNamesAbsentN();
    GivenNamesAbsentG();
  }

  lemma GivenNamesAbsentN()
    ensures "atiotas" !in NormVariants(Dedup(LabelsBase[1].1 + Karakalpak[1].1))
  {
    var vs := LabelsBase[1].1 + Karakalpak[1].1;
    GivenNameLettersN(vs);
    AtiotasAbsentFrom(vs);
  }

  lemma GivenNamesAbsentG()
    ensures "axesioin" !in NormVariants(Dedup(LabelsBase[1].1 + Karakalpak[1].1))
  {
    var vs := LabelsBase[1].1 + Karakalpak[1].1;
    GivenNameLettersG(vs);
    AxesioinAbsentFrom(vs);
  }

  /** A caption of `vs` with key `w` puts `w` in the normalised list. */
  lemma PresentKey(vs: seq<string>, u: string, w: string)
    requires u in vs && NormKey(u, false) == w && w != []
    ensures w in NormVariants(Dedup(vs))
  {
    NormVariantsMembers(Dedup(vs), w);
  }

  /** When every caption of `vs` holds a letter `c` that `w` lacks, `w` is not
      in the normalised list. */
  lemma AbsentKey(vs: seq<string>, w: string, c: char)
    requires (IsLower(c) || IsDigit(c)) && c !in w
    requires forall u :: u in vs ==> c in u
    ensures w !in NormVariants(Dedup(vs))
  {
    forall u | u in vs ensures NormKey(u, false) != w {
      NormKeyDiffers(u, w, c);
    }
    NormVariantsMembers(Dedup(vs), w);
  }

  /** The same when every caption holds `c` or `e`, or is shorter than `w`. */
  lemma AbsentKeyOr(vs: seq<string>, w: string, c: char, e: char)
    requires (IsLower(c) || IsDigit(c)) && c !in w && (IsLower(e) || IsDigit(e)) && e !in w
    requires forall u :: u in vs ==> c in u || e in u || |u| < |w|
    ensures w !in NormVariants(Dedup(vs))
  {
    forall u | u in vs ensures NormKey(u, false) != w {
      if c in u {
        NormKeyDiffers(u, w, c);
      } else if e in u {
        NormKeyDiffers(u, w, e);
      } else {
        NormKeyShorter(u, w);
      }
    }
    NormVariantsMembers(Dedup(vs), w);
  }

  /** The patronymic entry of the passport dictionary as the source builds it. */
  lemma OldPatronymicEntry(vs: seq<string>)
    requires vs == LabelsBase[2].1 + KarakalpakPatronymic
    ensures |LabelsOldNorm| > 2 && LabelsOldNorm[2] == (Patronymic, NormVariants(Dedup(vs)))
  {
    LabelsBaseKeys();
    OldExtraKeys();
    KarakalpakKeys();
    PatronymicEntryOf(LabelsBase, OldExtra, Karakalpak, KarakalpakPatronymic, vs);
  }

  /** The first three entries of the corrected passport dictionary. */
  lemma IntendedEntry(i: nat)
    requires i < 3
    ensures |LabelsOldIntendedNorm| > i
    ensures LabelsOldIntendedNorm[i] == (BaseKeys[i], NormVariants(Dedup(LabelsBase[i].1 + KarakalpakIntended[i].1)))
  {
    LabelsBaseKeys();
    OldExtraKeys();
    KarakalpakIntendedKeys();
    OldBaseEntry(LabelsBase, OldExtra, KarakalpakIntended, i);
    GetAt(KarakalpakIntended, i);
  }

  lemma IntendedSurnameEntry()
    ensures |LabelsOldIntendedNorm| > 0
    ensures LabelsOldIntendedNorm[0].1 == NormVariants(Dedup(LabelsBase[0].1 + Karakalpak[0].1))
  {
    IntendedEntry(0);
    KarakalpakIntendedKeys();
  }

  lemma IntendedGivenNameEntry()
    ensures |LabelsOldIntendedNorm| > 1
    ensures LabelsOldIntendedNorm[1].1 == NormVariants(Dedup(LabelsBase[1].1 + Karakalpak[1].1))
  {
    IntendedEntry(1);
    KarakalpakIntendedKeys();
  }

  lemma IntendedPatronymicEntry(vs: seq<string>)
    requires vs == LabelsBase[2].1 + KarakalpakPatronymicIntended
    ensures |LabelsOldIntendedNorm| > 2
    ensures LabelsOldIntendedNorm[2] == (Patronymic, NormVariants(Dedup(vs)))
  {
    LabelsBaseKeys();
    OldExtraKeys();
    KarakalpakIntendedKeys();
    PatronymicEntryOf(LabelsBase, OldExtra, KarakalpakIntended, KarakalpakPatronymicIntended, vs);
  }

  /** The patronymic entry of a normalised passport dictionary, whatever the lists. */
  lemma PatronymicEntryOf(base: Dict, oldExtra: Dict, karakalpak: Dict, list: seq<string>, vs: seq<string>)
    requires Keys(base) == BaseKeys && Keys(oldExtra) == [CardNumber, Authority]
    requires Keys(karakalpak) == [Surname, GivenName, Patronymic, DateOfBirth, PlaceOfBirth, Sex,
                                  PassportNumber, DateOfIssue, DateOfExpiry, Authority]
    requires DistinctKeys(karakalpak) && |base| > 2 && |karakalpak| > 2
    requires karakalpak[2] == (Patronymic, list) && vs == base[2].1 + list
    ensures var d := BuildLabelsNorm(Merge(Merge(base, oldExtra), karakalpak));
      |d| > 2 && d[2] == (Patronymic, NormVariants(Dedup(vs)))
  {
    assert BaseKeys[2] == Patronymic;
    GetAt(karakalpak, 2);
    assert GetOr(karakalpak, Patronymic) == list;
    var m := Merge(Merge(base, oldExtra), karakalpak);
    OldBaseEntry(base, oldExtra, karakalpak, 2);
    assert m[2] == (Patronymic, Dedup(vs));
    assert BuildLabelsNorm(m)[2] == (m[2].0, NormVariants(m[2].1));
  }

  lemma IntendedPatronymicList()
    ensures KarakalpakIntended[2].1 == KarakalpakPatronymicIntended
  {
  }

  lemma IntendedKeys()
    ensures Keys(KarakalpakIntended) == [Surname, GivenName, Patronymic, DateOfBirth, PlaceOfBirth, Sex,
                                         PassportNumber, DateOfIssue, DateOfExpiry, Authority]
    ensures DistinctKeys(KarakalpakIntended)
  {
    KarakalpakIntendedKeys();
  }

  /** The two dictionaries differ only in the patronymic list, so the keys agree. */
  lemma KarakalpakIntendedKeys()
    ensures Keys(KarakalpakIntended) == [Surname, GivenName, Patronymic, DateOfBirth, PlaceOfBirth, Sex,
                                         PassportNumber, DateOfIssue, DateOfExpiry, Authority]
    ensures DistinctKeys(KarakalpakIntended)
    ensures KarakalpakIntended[0] == Karakalpak[0] && KarakalpakIntended[1] == Karakalpak[1]
    ensures KarakalpakIntended[2] == (Patronymic, KarakalpakPatronymicIntended)
  {
    KarakalpakKeys();
    assert Keys(KarakalpakIntended) == Keys(Karakalpak);
  }

  /** Built as the source builds it, the passport dictionary's entry for a
      shared field lists the base captions and then the Karakalpak ones,
      repeats dropped. */
  lemma OldBaseEntry(base: Dict, oldExtra: Dict, karakalpak: Dict, i: nat)
    requires Keys(base) == BaseKeys && Keys(oldExtra) == [CardNumber, Authority]
    requires Keys(karakalpak) == [Surname, GivenName, Patronymic, DateOfBirth, PlaceOfBirth, Sex,
                                  PassportNumber, DateOfIssue, DateOfExpiry, Authority]
    requires DistinctKeys(karakalpak) && i < |BaseKeys|
    ensures var d := Merge(Merge(base, oldExtra), karakalpak);
      i < |d| && d[i] == (BaseKeys[i], Dedup(base[i].1 + GetOr(karakalpak, BaseKeys[i])))
  {
    var d := Merge(Merge(base, oldExtra), karakalpak);
    OldKeyOrder(base, oldExtra, karakalpak);
    assert d[i].0 == Keys(d)[i] == BaseKeys[i];
    GetAt(d, i);
    OldBaseGet(base, oldExtra, karakalpak, i);
  }

  lemma OldBaseGet(base: Dict, oldExtra: Dict, karakalpak: Dict, i: nat)
    requires Keys(base) == BaseKeys && Keys(oldExtra) == [CardNumber, Authority]
    requires i < |BaseKeys| && BaseKeys[i] in Keys(karakalpak) && DistinctKeys(karakalpak)
    ensures Get(Merge(Merge(base, oldExtra), karakalpak), BaseKeys[i])
         == Some(Dedup(base[i].1 + GetOr(karakalpak, BaseKeys[i])))
  {
    var k := BaseKeys[i];
    MergeGet(Merge(base, oldExtra), karakalpak, k);
    BaseUntouched(base, oldExtra, i);
  }

  lemma BaseUntouched(base: Dict, oldExtra: Dict, i: nat)
    requires Keys(base) == BaseKeys && Keys(oldExtra) == [CardNumber, Authority] && i < |BaseKeys|
    ensures GetOr(Merge(base, oldExtra), BaseKeys[i]) == base[i].1
  {
    var k := BaseKeys[i];
    assert DistinctKeys(oldExtra) by { assert Keys(oldExtra)[0] != Keys(oldExtra)[1]; }
    assert k !in Keys(oldExtra);
    MergeGet(base, oldExtra, k);
    BaseAt(base, i);
  }

  lemma BaseAt(base: Dict, i: nat)
    requires Keys(base) == BaseKeys && i < |BaseKeys|
    ensures Get(base, BaseKeys[i]) == Some(base[i].1)
  {
    DistinctKeysOf(base);
    assert DistinctFields(BaseKeys);
    assert base[i].0 == Keys(base)[i];
    GetAt(base, i);
  }

  lemma PatronymicN(vs: seq<string>)
    requires vs == LabelsBase[2].1 + KarakalpakPatronymic
    ensures forall u :: u in vs ==> 'n' in u
  {
  }

  lemma PatronymicT(vs: seq<string>)
    requires vs == LabelsBase[2].1 + KarakalpakPatronymic
    ensures forall u :: u in vs ==> 't' in u
  {
  }

  lemma SurnameLetters(vs: seq<string>)
    requires vs == LabelsBase[0].1 + Karakalpak[0].1
    ensures forall u :: u in vs ==> 'm' in u
  {
  }

  lemma AtiotasAbsentFrom(vs: seq<string>)
    requires forall u :: u in vs ==> 'm' in u || 'n' in u || |u| < 7
    ensures "atiotas" !in NormVariants(Dedup(vs))
  {
    AbsentKeyOr(vs, "atiotas", 'm', 'n');
  }

  lemma AxesioinAbsentFrom(vs: seq<string>)
    requires forall u :: u in vs ==> 'm' in u || 'g' in u || |u| < 8
    ensures "axesioin" !in NormVariants(Dedup(vs))
  {
    AbsentKeyOr(vs, "axesioin", 'm', 'g');
  }

  lemma GivenNameLettersN(vs: seq<string>)
    requires vs == LabelsBase[1].1 + Karakalpak[1].1
    ensures forall u :: u in vs ==> 'm' in u || 'n' in u || |u| < 7
  {
  }

  lemma GivenNameLettersG(vs: seq<string>)
    requires vs == LabelsBase[1].1 + Karakalpak[1].1
    ensures forall u :: u in vs ==> 'm' in u || 'g' in u || |u| < 8
  {
  }

  /** The fused caption's key. */
  lemma FusedKey()
    ensures NormKey("a'xesioinati otas", false) == "axesioinatiotas"
  {
    var a, b, c := "a", "xesioinati", "otas";
    FusedPieces(a, b, c);
    NormKeyJoin3(a, '\'', b, ' ', c);
  }

  /** The fused caption is three lower-case words around an apostrophe and a space. */
  lemma FusedPieces(a: string, b: string, c: string)
    requires a == "a" && b == "xesioinati" && c == "otas"
    ensures a + ['\''] + b + [' '] + c == "a'xesioinati otas"
    ensures a + b + c == "axesioinatiotas"
    ensures a != [] && b != [] && c != []
    ensures forall x :: x in a ==> IsLower(x)
    ensures forall x :: x in b ==> IsLower(x)
    ensures forall x :: x in c ==> IsLower(x)
  {
    assert a + ['\''] + b == "a'xesioinati";
    assert a + b == "axesioinati";
  }

  /** The key of the second half. */
  lemma AtiOtasKey()
    ensures NormKey("ati otas", false) == "atiotas"
  {
    var a, b := "ati", "otas";
    assert a + [' '] + b == "ati otas";
    assert forall x :: x in a ==> IsLower(x);
    assert forall x :: x in b ==> IsLower(x);
    NormKeyJoin(a, ' ', b);
    assert a + b == "atiotas";
  }

  /** The key of the first half. */
  lemma AxesioinKey()
    ensures NormKey("a'xesioin", false) == "axesioin"
  {
    var a, b := "a", "xesioin";
    assert a + ['\''] + b == "a'xesioin";
    assert forall x :: x in a ==> IsLower(x);
    assert forall x :: x in b ==> IsLower(x);
    NormKeyJoin(a, '\'', b);
    assert a + b == "axesioin";
  }
}

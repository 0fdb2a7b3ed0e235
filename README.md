# Document field extraction, modelled in Dafny

This project models the field-extraction core of an OCR pipeline for Uzbek identity
documents. OCR hands the parsers a list of text tokens. From them the parsers fill a
flat record of personal fields: surname, given name, patronymic, birth, issue and
expiry dates, sex, card or passport number, place of birth, authority and personal
number. There is one parser per document type:

- **ID card** (`app/parser/id_card/`). It reads the three-line TD1 machine-readable
  zone (MRZ), from the QR payload or from the tokens. It prefills the record from the
  MRZ, then fills empty fields from the value that follows each recognised caption.
  Next comes a pattern pass over all tokens. Last, a classifier assigns the birth,
  issue and expiry roles to the dates found, by comparing them with today's date.
- **Passport** (`app/parser/passport/`). It finds the two-line TD3 MRZ among single
  tokens and adjacent pairs. It prefills from the MRZ, then runs a caption scan with
  per-field look-ahead readers: two place readers, a name reader, an authority
  collector and date readers. Fallbacks fill what is still missing: place of birth,
  issue date (the latest date before expiry), passport number and authority.
- **Shared core** (`app/parser/core/`). It holds the look-alike translation table and
  the noise phrases, key normalisation, the noise filter, and the fuzzy best-caption
  lookup. It also holds the caption dictionaries and how they are merged and
  normalised.

One Dafny module stands for each source file:

| module | file |
|---|---|
| `Constants` | `constants.dfy` |
| `Utils` | `utils.dfy` |
| `Labels` | `labels.dfy` |
| `IdMrz` | `id_mrz.dfy` |
| `IdDate` | `id_date.dfy` |
| `IdParser` | `id_parser.dfy` |
| `PassportDates`, `PassportMrz`, `PassportValues`, `PassportScan`, `PassportParser` | `passport/parser.py`, split by concern |

A few small modules model the pieces of Python and of the regular expressions the
parsers rely on:

- `Wrappers`: `Option`.
- `Text`: the `str` built-ins.
- `Patterns`: leftmost `re.search` for each regular expression the parsers use.
- `Calendar`: `datetime.date` validity and order.
- `Fields`: the result dictionary as a `map<Field, Option<string>>`, and the "write
  only into an empty field" update that every stage uses.

Each loop of the source is a `method` with a `while` or `for` loop. It is proved
equal to a function that specifies it. The properties are proved as lemmas about
those functions. The main ones:

- Every stage only fills empty fields, with non-empty values.
- The ID-card result keeps its key set. The passport result gains at most a
  `passport_number` key, from a passport-number caption.
- What the MRZ supplies is never overwritten.
- MRZ encoding round-trips: encoding a holder's data into MRZ lines and decoding them
  gives it back.
- A value comes from the first token a reader accepts.
- The date classifier assigns each role to the extreme date that role calls for.
- The issue-date fallback picks the latest date before expiry.

At the places below the code's behaviour looks unintended, or differs between the two
parsers. The model follows the code:

- **ID-card authority pass.** When the authority is still empty and a token holds an
  authority code, `parse_id_card` returns the bare authority string
  (`app/parser/id_card/parser.py:139-144`). It does not record the value and
  continue. The model keeps this as the `AuthorityOnly` outcome.
  `IdParser.IdCardAuthorityOnly` states exactly when it happens.
- **Passport MRZ year pivot.** Two-digit year `50` is read as 1950
  (`app/parser/passport/parser.py:48`), not 2050 as for the ID card.
  `PassportDates.PivotDiffers` states the difference.
- **Karakalpak patronymic captions.** `Labels.LabelsOld` is the passport dictionary as
  the code builds it, with the fused caption of the finding below.
  `Labels.LabelsOldIntended` restores the missing comma. The passport parser takes its
  dictionary as a parameter, so its lemmas hold for either.

## Model

| member | source | states |
|---|---|---|
| Fields.EmptyRecord | app/parser/id_card/parser.py:76-91 | the fresh result has exactly the given keys, every one `None` |
| Fields.SetIfEmpty | app/parser/id_card/parser.py:101-103 | a value is written only into a missing or `None` field and only when it is non-empty; every other field is unchanged |
| Fields.SetIfEmptyGrows | app/parser/id_card/parser.py:101-103 | such a write never overwrites a value, keeps values non-empty and adds no key to a field already present |
| Fields.GrowsTransitive | app/parser/id_card/parser.py:96-160 | stages that each only fill empty fields, run one after the other, only fill empty fields |
| Patterns.Search | app/parser/id_card/parser.py:10-14 | `re.search`: the match found starts at the leftmost position where the pattern matches, and there is none exactly when it matches nowhere |
| Patterns.FindDottedWhole | app/parser/id_card/date.py:4 | a text that is one dotted date is found whole |
| Patterns.FindShape | app/parser/id_card/parser.py:10-13 | a dotted date found has the `DD.MM.YYYY` shape, a card number is two capitals and seven digits, a passport number 8 or 9 capitals and digits, a personal number 14 digits |
| Patterns.AuthorityRewrite | app/parser/id_card/parser.py:57-61 | the rewrite turns a matched `HIV` or `HV` code into `IIV`, a space and the digits, and leaves the other codes as matched |
| Patterns.RewriteWithoutH | app/parser/id_card/parser.py:60 | a text without `H` is not rewritten |
| Patterns.Keep | app/parser/id_card/mrz.py:12-16 | the filter both MRZ readers apply, each with its own form, never lengthens the text and leaves only `[A-Z0-9<]` |
| Patterns.KeepAppend | app/parser/passport/parser.py:95-96 | a pair of tokens sanitises to the two sanitised tokens side by side |
| Patterns.KeepSpaces | app/parser/id_card/mrz.py:12-16 | with a form that drops whitespace, a run of whitespace sanitises to nothing |
| Patterns.KeepStripped | app/parser/id_card/mrz.py:12 | with a form that drops whitespace, trimming the token first changes nothing, for the ID-card and the passport reader alike |
| Patterns.KeepStripLeft | app/parser/passport/parser.py:20 | trimming the left end first changes nothing |
| Patterns.KeepStripRight | app/parser/passport/parser.py:20 | trimming the right end first changes nothing |
| Calendar.DaysInMonth | app/parser/id_card/date.py:12 | a month has 28 to 31 days, 29 exactly for February of a leap year |
| Calendar.BeforeOrder | app/parser/id_card/date.py:45-63 | date order is a strict total order |
| Calendar.SpelledFormat | app/parser/passport/parser.py:38 | a date written `DD.MM.YYYY` reads back as the date |
| Calendar.FormatSpelled | app/parser/passport/parser.py:38 | a dotted text is the writing of the date it spells |
| Constants.Translate | app/parser/core/utils.py:8 | translating keeps the length and maps every character through the table, one for one |
| Constants.TranslationTable | app/parser/core/constants.py:1-12 | twelve apostrophe look-alikes go to `'`, eleven dashes (ASCII `-` and `_` among them) go to `-`, the two lists share no character, and every other character passes through |
| Constants.TranslateClears | app/parser/core/constants.py:9-12 | translated text holds no apostrophe variant and no dash but `-` |
| Constants.TranslateIdempotent | app/parser/core/constants.py:9-12 | translating twice is translating once |
| Constants.NoisePhrasesLength | app/parser/core/constants.py:14-28 | there are thirteen noise phrases, each at least four characters long |
| Utils.NormKeyClean | app/parser/core/utils.py:6-17 | a normalised key holds no capital, no apostrophe variant and no value separator, and no dash but `-`; a key-mode key holds no whitespace, none of `: / ( ) [ ] . , ' -` and no dash variant |
| Utils.NormKeyIdempotent | app/parser/core/utils.py:6-17 | key-mode normalisation is idempotent |
| Utils.NormKeyOfPlain | app/parser/core/utils.py:6-17 | a lower-case word of ASCII letters and digits is its own key |
| Utils.NormKeyJoin | app/parser/core/utils.py:10-15 | two plain words joined by any one key separator normalise to the words run together, so `familiyasi/surname` and `familiyasi surname` collide |
| Utils.NormKeyJoin3 | app/parser/core/utils.py:10-15 | three plain words joined by two key separators normalise to the three words run together |
| Utils.NormKeyKeeps | app/parser/core/utils.py:6-17 | a lower-case letter or digit of the input survives key-mode normalisation |
| Utils.NormKeyDiffers | app/parser/core/utils.py:6-17 | a text holding a lower-case letter or digit that a key lacks never normalises to that key |
| Utils.NormKeyOfStripped | app/parser/core/utils.py:7 | surrounding whitespace never changes the key, in either mode |
| Utils.ValueModeNotIdempotent | app/parser/core/utils.py:7-15 | value mode trims before it removes separators, so `"( x)"` gives `" x"` and that gives `"x"`: value mode is not idempotent |
| Utils.IsNoise | app/parser/core/utils.py:19-31 | the loop with early returns decides exactly `Noise`: blank, at most one character once trimmed, or containing a noise phrase once upper-cased |
| Utils.ReducedNoise | app/parser/core/constants.py:14-28 | the nine phrases no other phrase subsumes are all noise phrases |
| Utils.Subsumed | app/parser/core/constants.py:15-24 | the two-language banner, `CAMSCANNER`, `PHOTOC` and `SCANNED` each contain a kept phrase |
| Utils.NoiseReduced | app/parser/core/utils.py:25-31 | the noise test with only the nine unsubsumed phrases decides the same as with all thirteen |
| Utils.ReducedCovers | app/parser/core/utils.py:28-30 | text containing any noise phrase contains an unsubsumed one |
| Utils.WatermarkIsNoise | app/parser/core/utils.py:28-30 | `CAMSCANNER` is noise |
| Utils.ShortCodeIsNotNoise | app/parser/core/utils.py:19-31 | `AD1` is not noise |
| Utils.SingleCharacterIsNoise | app/parser/core/utils.py:22-27 | one visible character between blanks is noise |
| Utils.Keys | app/parser/core/utils.py:45 | the keys of a dictionary are its entries' fields, in insertion order |
| Utils.Similarity | app/parser/core/utils.py:33-34 | the ratio `2M / (len(a) + len(b))` lies in `[0, 1]` and is 1 exactly for equal strings |
| Utils.ThresholdExact | app/parser/core/utils.py:50 | for strings not both empty, a score of at least the 0.75 threshold (line 39) is exactly `8M >= 3 (len(a) + len(b))` |
| Utils.EntryPairs | app/parser/core/utils.py:45-46 | an entry yields one (field, variant) pair per variant, in order |
| Utils.BestLabelMatch | app/parser/core/utils.py:36-52 | the nested loops with the `best` accumulator compute `BestLabel` |
| Utils.BestStep | app/parser/core/utils.py:47-49 | one more pair replaces the best only when it scores strictly higher |
| Utils.BestFirstMax | app/parser/core/utils.py:44-49 | the scan keeps a pair of maximal score, and every earlier pair scores strictly lower: the first maximum wins |
| Utils.ExactKeyWins | app/parser/core/utils.py:41-52 | a token whose key equals a variant is matched with score 1 to the field of the first pair holding that variant |
| Utils.BestExactFirst | app/parser/core/utils.py:45-49 | the scan settles with score 1 on the first pair equal to the key |
| Utils.BestLabelThreshold | app/parser/core/utils.py:41-52 | an empty key is never matched; a match has a score in `[0.75, 1]` (0.75 itself accepted), names a dictionary key, and is the score of one of that key's variants |
| Utils.FirstEntryWins | app/parser/core/utils.py:41-52 | a token whose key is a variant of one entry and of no earlier entry is matched to that entry with score 1, whatever the similarity measure |
| Utils.PairsFields | app/parser/core/utils.py:45-46 | every pair's field is a key of the dictionary |
| Utils.PairsAppend | app/parser/core/utils.py:45-46 | the pairs of two dictionaries in a row are the pairs of the first, then of the second |
| Utils.PairsPrefix | app/parser/core/utils.py:45-46 | the pairs of the first entries begin the pairs of the whole dictionary |
| Utils.PairAt | app/parser/core/utils.py:45-46 | the `m`-th variant of entry `a` sits right after the pairs of the entries before it |
| Utils.BestExactMatched | app/parser/core/utils.py:45-49 | when the key itself is a variant, the scan settles with score 1 on a pair at or before it that holds the key |
| Utils.EarlierEntryWins | app/parser/core/utils.py:41-52 | when two entries list the token's key, the token is matched and never to the later entry's field |
| Utils.EarlierPairWins | app/parser/core/utils.py:45-49 | for a key listed under entry `a`, the scan settles with score 1 on a field other than that of a later entry |
| Utils.PairBeforeEntry | app/parser/core/utils.py:45-46 | a pair of the entries before entry `b` never carries `b`'s field in a dictionary of distinct keys |
| Labels.Dedup | app/parser/core/labels.py:13-19 | the `seen`/`merged` loop leaves a list without repeats, no longer than its input, holding exactly the input's strings |
| Labels.DedupOfDistinct | app/parser/core/labels.py:16-19 | a list without repeats passes through unchanged |
| Labels.DedupIdempotent | app/parser/core/labels.py:13-19 | deduplicating twice is deduplicating once |
| Labels.KeyIndex | app/parser/core/labels.py:12 | a key's position is its first entry, or the length of the dictionary when it is absent |
| Labels.KeyIndexFound | app/parser/core/labels.py:12 | a key is found exactly when it is one of the keys |
| Labels.Get | app/parser/core/labels.py:12 | `d.get(k)` answers exactly for the keys present, with the list stored under the key |
| Labels.Put | app/parser/core/labels.py:21 | `out[k] = v` keeps an existing key in its place and appends a new key last, stores `v` under `k`, leaves every other key's list alone, and keeps the keys distinct |
| Labels.MergeLabels | app/parser/core/labels.py:5-23 | the copy-then-loop merge computes `Merge` |
| Labels.MergedKeysAppend | app/parser/core/labels.py:9-21 | merging the keys of `a + b` is merging those of `a`, then those of `b` |
| Labels.MergedKeysPresent | app/parser/core/labels.py:9-21 | extra keys that are already present leave the key order as it is |
| Labels.MergeKeys | app/parser/core/labels.py:9-21 | the merge keeps the base keys in base order and appends the extra-only keys in extra order; each key still occurs once |
| Labels.MergeGet | app/parser/core/labels.py:9-21 | a key of `extra` gets the base list followed by the extra list with later repeats dropped; every other key keeps its base list, repeats included |
| Labels.GetLast | app/parser/core/labels.py:12 | in a dictionary of distinct keys the last entry answers for its own key and the entries before it for every other |
| Labels.NormVariants | app/parser/core/labels.py:274 | normalising a variant list never lengthens it |
| Labels.NormVariantsNormal | app/parser/core/labels.py:274 | every kept variant is a non-empty key that normalisation leaves alone |
| Labels.NormVariantsMembers | app/parser/core/labels.py:274 | the kept variants are exactly the non-empty normalisations of the given ones |
| Labels.NormVariantsOfNormal | app/parser/core/labels.py:274 | a list of non-empty normalised keys is its own normalisation |
| Labels.BuildLabelsNorm | app/parser/core/labels.py:270-276 | the normalised dictionary has the same entries in the same order, each list normalised |
| Labels.BuildLabelsNormShape | app/parser/core/labels.py:270-276 | the keys and their order are kept, distinct keys stay distinct, every variant is a non-empty normalised key, and normalising twice changes nothing |
| Labels.ExtraKeys | app/parser/core/labels.py:79-263 | the new-card extra has card number, personal number and authority; the old-passport extra card number and authority; the Karakalpak list ten distinct fields, the passport number among them |
| Labels.DictionaryKeys | app/parser/core/labels.py:265-279 | the passport dictionary's keys are the base keys, then card number, authority and passport number; the ID-card dictionary's the base keys, then card number, personal number and authority; normalising keeps both key lists, each key once |
| Labels.OldKeyOrder | app/parser/core/labels.py:265-266 | merging the old extra then the Karakalpak list into the base puts the passport number after card number and authority |
| Labels.NewKeyOrder | app/parser/core/labels.py:267 | merging the new extra into the base appends card number, personal number and authority |
| Labels.DistinctKeysOf | app/parser/core/labels.py:9-21 | a dictionary has distinct keys exactly when its key list has no repeat |
| Labels.SurnameLists | app/parser/core/labels.py:27-33 | the ID-card surname list is the base list copied unchanged, `familiyasi/surname` twice in it; the passport surname list, merged with the Karakalpak list, holds each caption once |
| Labels.SurnameMerge | app/parser/core/labels.py:9-21 | a key absent from the extra keeps its base list, repeats included; a key the extra names comes out without repeats |
| Labels.GetAt | app/parser/core/labels.py:12 | the entry at a position of a dictionary of distinct keys is what `get` returns for its key |
| Labels.PassportCaptionsReadAsCardNumber | app/parser/core/labels.py:113-116 | a token normalising to `passportno` or `pasportraqami` is matched in the passport dictionary, and never to the passport number |
| Labels.ShadowedCaption | app/parser/core/utils.py:45-49 | a caption listed under the card number, which comes before the passport number, is never matched to the passport number |
| Labels.PassportCaptionsInCardNumber | app/parser/core/labels.py:115 | the normalised card-number captions of the passport dictionary hold `passportno` and `pasportraqami` |
| Labels.CardCaptionsNormalised | app/parser/core/labels.py:274 | two card-number captions that normalise to `passportno` and `pasportraqami` survive normalisation in the card-number entry |
| Labels.PassportCaptions | app/parser/core/labels.py:115 | the third and fourth card-number captions normalise to `passportno` and `pasportraqami` |
| Labels.CardNumberMerge | app/parser/core/labels.py:265-266 | the passport dictionary's card-number list is the old extra's list with repeats dropped |
| Labels.CardNumberExtra | app/parser/core/labels.py:265 | the first merge gives the card number the old extra's list with repeats dropped |
| Labels.CardNumberNorm | app/parser/core/labels.py:274 | a card-number caption's non-empty key is in the normalised card-number entry |
| Labels.SurnameCaptionsCollide | app/parser/core/labels.py:28 | `familiyasi/surname` and `familiyasi surname` normalise to the same key, so a normalised list can repeat a key |
| Labels.FusedPatronymicCaption | app/parser/core/labels.py:158-161 | as written, the Karakalpak patronymic list holds the fused caption `a'xesioinati otas` and neither of its halves, so the normalised passport dictionary's patronymic entry lists `axesioinatiotas` but neither `atiotas` nor `axesioin` |
| Labels.SeparatePatronymicCaptions | app/parser/core/labels.py:158-161 | with the two literals kept apart, the caption lookup over the normalised corrected passport dictionary matches the tokens `ati otas` and `a'xesioin` to the patronymic with score 1, whatever the similarity measure |
| Labels.OldBaseEntry | app/parser/core/labels.py:265-266 | in the passport dictionary each base key keeps its place and gets its base captions followed by its Karakalpak captions, later repeats dropped |
| IdMrz.Chevrons | app/parser/id_card/mrz.py:14-15 | every look-alike `« ‹ › ( )` becomes `<`, every other character is kept, one for one |
| IdMrz.MrzForm | app/parser/id_card/mrz.py:12-16 | a character survives sanitising only as a member of `[A-Z0-9<]`; whitespace never survives; a character already in `[A-Z0-9<]` is kept as it is |
| IdMrz.SanitizeMrzToken | app/parser/id_card/mrz.py:11-17 | a sanitised token is no longer than the token and holds only `[A-Z0-9<]` |
| IdMrz.KeepAlphabet | app/parser/id_card/mrz.py:14-16 | text already in the MRZ alphabet, look-alikes allowed, keeps its length, each look-alike turned into `<` |
| IdMrz.SanitizeMrzAlphabet | app/parser/id_card/mrz.py:11-17 | on MRZ text with look-alikes, sanitising only replaces the look-alikes |
| IdMrz.SanitizeIdempotent | app/parser/id_card/mrz.py:11-17 | sanitising twice is sanitising once |
| IdMrz.Candidates | app/parser/id_card/mrz.py:23-26 | there are never more candidates than tokens |
| IdMrz.CandidatesSound | app/parser/id_card/mrz.py:23-26 | every candidate is 30 characters long and is the sanitised form of some token |
| IdMrz.CandidatesComplete | app/parser/id_card/mrz.py:23-26 | every token that sanitises to 30 characters gives a candidate |
| IdMrz.CandidatesAppend | app/parser/id_card/mrz.py:23-26 | candidates keep the input order: those of two token lists in a row are those of the first, then of the second |
| IdMrz.NoCandidates | app/parser/id_card/mrz.py:23-26 | tokens none of which sanitises to 30 characters give no candidate |
| IdMrz.MrzLinesShape | app/parser/id_card/mrz.py:20-31 | found lines are exactly three lines of 30 MRZ characters |
| IdMrz.MrzLinesOfClean | app/parser/id_card/mrz.py:20-31 | three clean 30-character lines after tokens of other sanitised lengths are found as they are, in their order |
| IdMrz.FindMrz | app/parser/id_card/mrz.py:20-31 | the loop that appends the 30-character candidates returns them exactly when there are three |
| IdMrz.GetMrz | app/parser/id_card/mrz.py:34-50 | with a QR string the lines are its newline split, whatever their count, joining back to the string and free of newlines; without one they are the lines found among the tokens |
| IdMrz.CharValue | app/parser/id_card/mrz.py:57-62 | a value is at most 35, at most 9 for a digit and at least 10 for a capital |
| IdMrz.CharValueInjective | app/parser/id_card/mrz.py:57-62 | on the MRZ alphabet values tell characters apart, except that `<` counts as `0` |
| IdMrz.CheckDigitOf | app/parser/id_card/mrz.py:65-70 | the check digit is a single decimal digit |
| IdMrz.CheckDigit | app/parser/id_card/mrz.py:65-70 | the accumulating loop returns the one-digit string of the weighted sum mod 10 |
| IdMrz.CheckDigitExamples | app/parser/id_card/mrz.py:65-70 | the worked examples of ICAO Doc 9303 Part 3: `L898902C3` checks to 6, `740812` to 2, `120415` to 9 |
| IdMrz.WeightedSumChange | app/parser/id_card/mrz.py:68-69 | changing one character moves the sum by its weight times the change in its value |
| IdMrz.WeightCancels | app/parser/id_card/mrz.py:66 | the weights 7, 3 and 1 are invertible mod 10 |
| IdMrz.SubstitutionDetected | app/parser/id_card/mrz.py:65-70 | a single misread character whose value moves by anything but a multiple of 10 changes the check digit |
| IdMrz.ExpandYymmdd | app/parser/id_card/mrz.py:76-80 | six digits name a year in 1951..2050 and a two-digit month and day |
| IdMrz.YymmddToDdmmyyyy | app/parser/id_card/mrz.py:73-84 | a result is a dotted `DD.MM.YYYY` date that exists in the calendar, of a year in 1951..2050 |
| IdMrz.Digits6 | app/parser/id_card/mrz.py:74 | the six-digit form is six digits |
| IdMrz.ExpandDigits6 | app/parser/id_card/mrz.py:76-80 | reading six digits back gives the numbers, the year in the century the pivot chooses |
| IdMrz.YymmddRoundTrip | app/parser/id_card/mrz.py:73-84 | every real date of 1951..2050 written as `YYMMDD` converts back to its dotted form |
| IdMrz.PivotYears | app/parser/id_card/mrz.py:79-80 | `50` is read as 2050 and `51` as 1951 |
| IdMrz.LeapDays | app/parser/id_card/mrz.py:78-84 | `000229` converts (2000 is a leap year) and `010229` is refused |
| IdMrz.Digits6Literals | app/parser/id_card/mrz.py:74 | the digits of the pivot and leap-day examples are `500101`, `510101`, `000229` and `010229` |
| IdMrz.NamePart | app/parser/id_card/mrz.py:114-115 | a name part that is present is non-empty and trimmed |
| IdMrz.NamePartNone | app/parser/id_card/mrz.py:114-115 | a name part is missing exactly when it holds only fillers and blanks |
| IdMrz.ProcessMrz | app/parser/id_card/mrz.py:87-125 | `{}` exactly when there are not three lines or line 1 does not start `IUUZB`; an index error exactly when line 2 is shorter than 8; a value error exactly when line 3 without its trailing fillers has no `<<`; a decoded card number has at most 9 and a personal number at most 14 characters, and the sex is `l2[7]` unvalidated |
| IdMrz.Fill | app/parser/id_card/mrz.py:111 | `n` fillers |
| IdMrz.StripFill | app/parser/id_card/mrz.py:111 | trailing fillers after a last character that is not one are removed |
| IdMrz.SingleNameRaises | app/parser/id_card/mrz.py:111-113 | a name line holding a surname only raises the value error |
| IdMrz.SplitAtNames | app/parser/id_card/mrz.py:113 | `a<<b` splits at its first `<<` into `a` and `b` when `a` holds no `<` |
| IdMrz.NamePartOfWord | app/parser/id_card/mrz.py:114-115 | a name in capitals decodes to itself |
| IdMrz.EncodeTd1 | app/parser/id_card/mrz.py:87-115 | an ID card's TD1 encoding is three lines of 30 characters |
| IdMrz.DecodeEncodeTd1 | app/parser/id_card/mrz.py:87-125 | decoding the TD1 lines of a holder gives back card number, personal number, names, birth date, sex and expiry |
| IdMrz.DecodedLines | app/parser/id_card/mrz.py:91-125 | lines that pass the three guards decode field by field at the fixed offsets |
| IdMrz.Line3 | app/parser/id_card/mrz.py:111-113 | an encoded name line splits into the holder's surname and given name |
| IdMrz.Line1 | app/parser/id_card/mrz.py:94-99 | an encoded line 1 starts `IUUZB` and carries card and personal numbers at their offsets |
| IdMrz.Line2 | app/parser/id_card/mrz.py:102-108 | an encoded line 2 carries the sex at 7 and the birth and expiry dates at their offsets |
| IdMrz.MrzPairs | app/parser/id_card/parser.py:96-103 | the decoded dictionary gives seven (field, value) pairs |
| IdDate.ParseDdmmyyyy | app/parser/id_card/date.py:6-14 | a date is returned exactly when the text holds a `DD.MM.YYYY` whose numbers name a real date, and that date is valid |
| IdDate.ParseFormatted | app/parser/id_card/date.py:6-14 | a date of a four-digit year written as `DD.MM.YYYY` reads back as itself |
| IdDate.ParseWhole | app/parser/id_card/date.py:6-14 | a text that is exactly one dotted date reads as its date when that exists and as `None` otherwise |
| IdDate.SubtractYears | app/parser/id_card/date.py:16-20 | a result exists exactly when the target year is in 1..9999; it is valid, in that year and in the same month |
| IdDate.SubtractYearsDay | app/parser/id_card/date.py:16-20 | the day is kept, except 29 February into a year that is not leap, which becomes the 28th |
| IdDate.LeapDayThreshold | app/parser/id_card/date.py:16-24 | fifteen years before 29 February 2024 is 28 February 2009 |
| IdDate.Parsed | app/parser/id_card/date.py:36-38 | a date text adds at most one entry |
| IdDate.Collect | app/parser/id_card/date.py:26-38 | `found` never has more entries than `seen` has texts, nor `seen` more texts than there are tokens |
| IdDate.CollectShape | app/parser/id_card/date.py:26-38 | every kept entry is the real date of a seen `DD.MM.YYYY` text, every seen text naming a real date is kept, and no text is kept twice |
| IdDate.CollectSeenStep | app/parser/id_card/date.py:28-35 | one more token adds its date text, if it has one, to `seen` and nothing else |
| IdDate.CollectSeen | app/parser/id_card/date.py:26-35 | `seen` holds exactly the date texts of the tokens |
| IdDate.Where | app/parser/id_card/date.py:45-58 | a filtered list is no longer than the list and holds exactly its entries that pass the test |
| IdDate.Latest | app/parser/id_card/date.py:47 | `max` by date returns an entry of the list that no entry is later than |
| IdDate.Earliest | app/parser/id_card/date.py:53 | `min` by date returns an entry of the list that no entry is earlier than |
| IdDate.ClassifyDates | app/parser/id_card/date.py:22-66 | the scanning loop with its `found` list and `seen` set computes the classification: the roles, or `None` when the threshold leaves the calendar |
| IdDate.ExpiryRole | app/parser/id_card/date.py:45-49 | an expiry is chosen exactly when some date lies after today, and it is the latest of them |
| IdDate.BirthRole | app/parser/id_card/date.py:51-55 | a birth date is chosen exactly when a remaining date lies before the threshold, and it is the earliest of them |
| IdDate.IssueRole | app/parser/id_card/date.py:57-64 | an issue date is chosen exactly when dates remain: the latest one not after today, or the earliest when all are in the future |
| IdDate.NoDatesNoRoles | app/parser/id_card/date.py:40-43 | tokens without a date leave all three roles empty |
| IdDate.RolesDistinct | app/parser/id_card/date.py:45-64 | each role that is set is a text found on the card, and no two roles share a text |
| IdParser.NewLabelsAreIdLabels | app/parser/id_card/parser.py:106-112 | the normalised ID-card dictionary names only keys of the ID-card result, so `result[field]` never fails |
| IdParser.SelectMembers | app/parser/id_card/parser.py:75 | a comprehension keeps exactly the elements its test accepts |
| IdParser.SelectAppend | app/parser/id_card/parser.py:75 | a comprehension keeps the input order |
| IdParser.BlankIsNoise | app/parser/id_card/parser.py:75 | a blank token is noise, so the blank test adds nothing |
| IdParser.CleanMembers | app/parser/id_card/parser.py:75 | `clean` holds exactly the tokens that are not noise |
| IdParser.CleanAppend | app/parser/id_card/parser.py:75 | cleaning keeps the token order |
| IdParser.Extract | app/parser/id_card/parser.py:34-66 | a value read for a date field is one `DD.MM.YYYY`, for the card number 9 letters and digits, for the personal number 14 digits, for the sex `M` or `F`; no value is read for the passport number, which has no branch |
| IdParser.ExtractValue | app/parser/id_card/parser.py:34-66 | the branch-by-branch extraction computes the extractor |
| IdParser.ProbeToken | app/parser/id_card/parser.py:27-32 | a blank, noisy or caption token yields nothing, any other what the extractor finds |
| IdParser.FindNextValue | app/parser/id_card/parser.py:25-68 | the loop returns the value of the first token of the four after the caption that yields one |
| IdParser.ScanWindow | app/parser/id_card/parser.py:26-68 | the loop over a window returns what the first token yielding a value yields |
| IdParser.FirstHitStep | app/parser/id_card/parser.py:26-68 | one token of the window either answers or passes on to the next |
| IdParser.FirstHitFirst | app/parser/id_card/parser.py:26-68 | a value is found exactly when some token of the window yields one, and it is the value of the first such token |
| IdParser.NextValueWindow | app/parser/id_card/parser.py:25-68 | the value after a caption comes from one of the four tokens after it, every token before that one yielding nothing |
| IdParser.PrefillMrz | app/parser/id_card/parser.py:101-103 | the loop over the decoded pairs computes the prefill |
| IdParser.PrefillGrows | app/parser/id_card/parser.py:101-103 | the prefill never overwrites a field, writes only non-empty values and adds no key outside the record's |
| IdParser.PrefillUntouched | app/parser/id_card/parser.py:101-103 | a field no pair names keeps its value |
| IdParser.PrefillLands | app/parser/id_card/parser.py:101-103 | with distinct fields, an empty field ends up holding its pair's value when that is non-empty and stays empty otherwise |
| IdParser.MrzPrefillFromEmpty | app/parser/id_card/parser.py:76-103 | on the empty result every non-empty decoded MRZ value lands in its field |
| IdParser.MrzPairsFields | app/parser/id_card/mrz.py:117-125 | the MRZ names only the seven fields it carries |
| IdParser.PrefillShape | app/parser/id_card/parser.py:76-103 | prefilling the empty result with MRZ fields keeps its keys and leaves patronymic, issue date, place of birth and authority empty |
| IdParser.MrzPrefillShape | app/parser/id_card/parser.py:76-103 | the same for the decoded MRZ itself |
| IdParser.ScanLabels | app/parser/id_card/parser.py:105-117 | the caption loop computes the caption scan |
| IdParser.ScanToken | app/parser/id_card/parser.py:106-117 | one token: a caption of an empty field fills it with the value after it, anything else changes nothing |
| IdParser.IdCaptions | app/parser/id_card/parser.py:106-112 | an ID-card dictionary only yields ID-card fields |
| IdParser.CaptionStepGrows | app/parser/id_card/parser.py:106-117 | one step never overwrites a field, keeps values non-empty and adds no key |
| IdParser.CaptionScanGrows | app/parser/id_card/parser.py:105-117 | the scan never overwrites a field, keeps values non-empty and adds no key |
| IdParser.CaptionScanProvenance | app/parser/id_card/parser.py:105-117 | a field the scan fills holds the value found after a token read as that field's caption |
| IdParser.LabelScanGrows | app/parser/id_card/parser.py:105-117 | the caption scan of `parse_id_card` never overwrites a field, keeps values non-empty and keeps the ID-card keys |
| IdParser.LabelScanProvenance | app/parser/id_card/parser.py:105-117 | a field the caption scan fills holds the value after a token whose best caption match is that field |
| IdParser.FallbackScan | app/parser/id_card/parser.py:124-148 | the pattern loop computes the pass: the record, or the bare authority string it returns early |
| IdParser.FillToken | app/parser/id_card/parser.py:125-137 | the three searches on one token compute the per-token fill |
| IdParser.FillPersonal | app/parser/id_card/parser.py:125-130 | the personal number is the first 14-digit run, written only while empty |
| IdParser.FillCard | app/parser/id_card/parser.py:125-130 | the card number is searched with spaces removed, written only while empty |
| IdParser.FillSex | app/parser/id_card/parser.py:132-137 | `ERKAK` gives `M`, else `AYOL` gives `F`, written only while empty |
| IdParser.TokenFillGrows | app/parser/id_card/parser.py:125-137 | one token only fills empty fields with non-empty values, keeps the keys and leaves the authority alone |
| IdParser.FillThree | app/parser/id_card/parser.py:125-137 | the three writes, whatever their values, only fill empty fields |
| IdParser.TokenFillFilled | app/parser/id_card/parser.py:125-137 | a complete record is left as it is |
| IdParser.FilledStays | app/parser/id_card/parser.py:124-145 | the pass writes nothing into a complete record and finds no authority |
| IdParser.BreakHarmless | app/parser/id_card/parser.py:147-148 | the early `break` never changes the outcome |
| IdParser.HasAuthorityStep | app/parser/id_card/parser.py:139-144 | an authority code lies ahead exactly when this token or a later one holds one |
| IdParser.FallbackStep | app/parser/id_card/parser.py:124-145 | one token ends the pass with an authority exactly when the authority is empty and the token holds a code |
| IdParser.AuthorityFoundIff | app/parser/id_card/parser.py:139-144 | the pass returns an authority string exactly when the authority is empty and some remaining token holds a code |
| IdParser.AuthorityFoundFirst | app/parser/id_card/parser.py:139-144 | the string returned is the rewritten match of the first remaining token holding a code |
| IdParser.FallbackGrows | app/parser/id_card/parser.py:124-148 | a pass that ends with the record only fills empty fields with non-empty values and keeps the keys |
| IdParser.ClassifyFill | app/parser/id_card/parser.py:150-160 | the date stage computes its function |
| IdParser.DatesFillOnlyEmpty | app/parser/id_card/parser.py:150-160 | the date stage changes only empty date roles, each to the classifier's non-empty text; it fails exactly when a role is empty and the classifier raises |
| IdParser.FinishIdCard | app/parser/id_card/parser.py:105-162 | the stages after the MRZ compute their function |
| IdParser.ParseIdCard | app/parser/id_card/parser.py:70-162 | the whole parser computes its function of tokens, QR text and today |
| IdParser.IdCardRecord | app/parser/id_card/parser.py:70-162 | a returned record has exactly the ID-card keys and only non-empty values, and no stage overwrites what the MRZ supplied |
| IdParser.IdCardAuthorityOnly | app/parser/id_card/parser.py:94-145 | the parser returns a bare authority string exactly when the MRZ did not raise, the caption scan left the authority empty and some clean token holds a code |
| IdParser.IdCardAuthorityFirst | app/parser/id_card/parser.py:139-144 | that string is the rewritten match of the first clean token holding a code |
| PassportDates.PlausibleAlmostValid | app/parser/passport/parser.py:32-37 | every real date passes the loose day and month check, and the only dates that pass it without being real are 29 February of common years |
| PassportDates.Spelled8 | app/parser/passport/parser.py:29-31 | eight digits name a day, month and year each in its digit range |
| PassportDates.FromDdmmyyyy8 | app/parser/passport/parser.py:26-38 | an accepted reading is a dotted `DD.MM.YYYY` |
| PassportDates.Digits8 | app/parser/passport/parser.py:26-38 | a date written `DDMMYYYY` is eight digits |
| PassportDates.Spelled8Digits8 | app/parser/passport/parser.py:29-31 | eight digits written from a date read back as that date |
| PassportDates.FromDdmmyyyy8Digits | app/parser/passport/parser.py:26-38 | an accepted reading only inserts the two dots |
| PassportDates.FromDdmmyyyy8RoundTrip | app/parser/passport/parser.py:26-38 | a date written as eight digits reads back exactly when its year is 1900..2100 and its day and month are plausible; every other date is refused |
| PassportDates.LooseLeapDay | app/parser/passport/parser.py:36-38 | `29022023` is accepted although 29 February 2023 does not exist |
| PassportDates.Spelled6 | app/parser/passport/parser.py:45-48 | six digits name a year in 1950..2049 |
| PassportDates.FromMrzYymmdd | app/parser/passport/parser.py:41-56 | an accepted reading is a dotted date of 1950..2049 |
| PassportDates.Digits6 | app/parser/passport/parser.py:41-56 | a date of 1950..2049 written `YYMMDD` is six digits |
| PassportDates.FromMrzYymmddRoundTrip | app/parser/passport/parser.py:41-56 | every plausible date of 1950..2049 survives the trip through `YYMMDD`, and an implausible one is refused |
| PassportDates.PivotDiffers | app/parser/passport/parser.py:48 | the passport reads MRZ year `50` as 1950 where the ID card reads it as 2050 |
| PassportDates.Digits8FromToken | app/parser/passport/parser.py:59-62 | a result is exactly eight digits |
| PassportDates.SpacedGroups | app/parser/passport/parser.py:71-74 | the three spaced groups joined by dots form a dotted date |
| PassportDates.PickDateAnyFormat | app/parser/passport/parser.py:65-80 | a picked date always has the `DD.MM.YYYY` shape |
| PassportDates.PickDotted | app/parser/passport/parser.py:66-69 | a dotted date is picked as it stands |
| PassportDates.PickIdempotent | app/parser/passport/parser.py:65-80 | picking from a picked date gives it back |
| PassportDates.PickUnchecked | app/parser/passport/parser.py:67-69 | `99.99.9999` is picked, the dotted form never being checked |
| PassportDates.PickEightDigits | app/parser/passport/parser.py:65-80 | eight digits written from a date are read as `DDMMYYYY`, accepted exactly as the eight-digit reader accepts them |
| PassportDates.NoDateInDigits | app/parser/passport/parser.py:8-9 | neither date pattern matches anywhere in a string of digits |
| PassportMrz.MrzForm | app/parser/passport/parser.py:19-24 | a character that survives is in `[A-Z0-9<]`; whitespace never survives; a character already in `[A-Z0-9<]` is kept as it is |
| PassportMrz.Sanitize | app/parser/passport/parser.py:19-24 | a sanitised token is no longer than the token and holds only `[A-Z0-9<]` |
| PassportMrz.SanitizeMrzText | app/parser/passport/parser.py:19-24 | text already in the MRZ alphabet comes out unchanged |
| PassportMrz.SanitizeIdempotent | app/parser/passport/parser.py:19-24 | sanitising twice is sanitising once |
| PassportMrz.ParenthesisDiffers | app/parser/passport/parser.py:22-23 | a parenthesis is dropped by the passport reader where the ID-card reader turns it into a filler |
| PassportMrz.CandidateTestsExclusive | app/parser/passport/parser.py:90-93 | a text never passes both candidate tests, so it is appended at most once |
| PassportMrz.Kept | app/parser/passport/parser.py:89-93 | one text adds at most one candidate |
| PassportMrz.SinglesShape | app/parser/passport/parser.py:88-93 | every single-token candidate is in the MRZ alphabet with a first- or second-line shape |
| PassportMrz.AdjacentShape | app/parser/passport/parser.py:95-100 | every joined-pair candidate is in the MRZ alphabet with a first- or second-line shape |
| PassportMrz.CandidatesShape | app/parser/passport/parser.py:87-100 | every candidate has a candidate's shape |
| PassportMrz.Cut44 | app/parser/passport/parser.py:104 | the cut is a prefix of at most 44 characters |
| PassportMrz.FindMrzLines | app/parser/passport/parser.py:83-112 | the four loops compute the first `P<` candidate cut to 44 and the first other candidate of at least 44 characters cut to 44 |
| PassportMrz.AppendPairs | app/parser/passport/parser.py:95-100 | the pair loop appends the joined-pair candidates in order |
| PassportMrz.FirstStartingP | app/parser/passport/parser.py:102-104 | the loop keeps the first `P<` candidate and never replaces it |
| PassportMrz.FirstOther | app/parser/passport/parser.py:106-110 | the loop takes the first other candidate of at least 44 characters and stops |
| PassportMrz.FirstLine1Shape | app/parser/passport/parser.py:102-104 | a first line found is `P<`, a three-letter code and 40 to 44 MRZ characters |
| PassportMrz.FirstLine2Shape | app/parser/passport/parser.py:106-110 | a second line found is 44 MRZ characters not starting `P<` |
| PassportMrz.MrzLinesShape | app/parser/passport/parser.py:83-112 | the lines found have the TD3 shapes |
| PassportMrz.FirstLine1Found | app/parser/passport/parser.py:102-104 | any candidate starting `P<` means a first line is found |
| PassportMrz.SinglesHas | app/parser/passport/parser.py:88-91 | a token that sanitises to a first-line shape is among the candidates |
| PassportMrz.Line1Found | app/parser/passport/parser.py:83-104 | any token that sanitises to a first-line shape makes a first line found |
| PassportMrz.SplitLineRejoined | app/parser/passport/parser.py:95-110 | a second line split by OCR into two short tokens is found joined |
| PassportMrz.OrNone | app/parser/passport/parser.py:129 | `s or None` is `s` exactly when `s` is non-empty |
| PassportMrz.Names | app/parser/passport/parser.py:141-151 | a surname found is non-empty and free of fillers; given name and patronymic found are non-empty |
| PassportMrz.CardOf | app/parser/passport/parser.py:129 | a document number is 1 to 9 characters without fillers |
| PassportMrz.SexOf | app/parser/passport/parser.py:134-135 | a sex is read exactly for `M` and `F` |
| PassportMrz.ParseMrzTd3 | app/parser/passport/parser.py:115-153 | every decoded value is well formed (number, dotted dates, sex, non-empty names); a missing or short line 2 gives no number, dates or sex, and a missing, short or non-`P<` line 1 gives no names |
| PassportMrz.NamesOfPayload | app/parser/passport/parser.py:142-151 | a payload with a capital-letter surname gives that surname and the name pieces after the first `<<` |
| PassportMrz.SplitWord | app/parser/passport/parser.py:146 | a word of capitals splits into itself |
| PassportMrz.SplitAfterWord | app/parser/passport/parser.py:146 | a word and a filler split off as the first piece |
| PassportMrz.WordPiece | app/parser/passport/parser.py:146-147 | a word of capitals passes both filters unchanged |
| PassportMrz.FillPieces | app/parser/passport/parser.py:146-147 | fillers alone leave no name piece |
| PassportMrz.NamePartsOfWords | app/parser/passport/parser.py:146-147 | given names joined by fillers and padded with fillers split back into the given names |
| PassportMrz.WordThenFill | app/parser/passport/parser.py:146-147 | a word followed by fillers is one name piece |
| PassportMrz.PiecesAfterWord | app/parser/passport/parser.py:146-147 | a word and a filler in front add that word to the name pieces |
| PassportMrz.JoinWordsMrz | app/parser/passport/parser.py:141-147 | words of capitals joined by fillers are in the MRZ alphabet |
| PassportMrz.EncodeLine1 | app/parser/passport/parser.py:139-151 | line 1 of a holder is 44 characters |
| PassportMrz.EncodeLine2 | app/parser/passport/parser.py:126-137 | line 2 of a holder is 44 characters |
| PassportMrz.DecodeEncodeTd3 | app/parser/passport/parser.py:115-153 | decoding the two lines of a holder gives back number, names, birth date, sex and expiry, the given names after the first read as the patronymic |
| PassportMrz.DecodeLine1 | app/parser/passport/parser.py:139-151 | line 1 of a holder decodes to its names |
| PassportMrz.NamesOfLine1 | app/parser/passport/parser.py:142-151 | the payload of line 1 decodes to the holder's names |
| PassportMrz.NamesOfWords | app/parser/passport/parser.py:142-151 | surname, given names and fillers decode to the surname, the first given name and the others joined by spaces |
| PassportMrz.DecodeLine2 | app/parser/passport/parser.py:126-137 | line 2 of a holder decodes to its number, birth date, sex and expiry |
| PassportMrz.FindEncoded | app/parser/passport/parser.py:83-112 | the two lines of a holder, given as two tokens, are found as they are |
| PassportMrz.EncodedCandidates | app/parser/passport/parser.py:87-100 | those lines are the first two candidates, in order |
| PassportMrz.EncodedKept | app/parser/passport/parser.py:88-93 | each line is kept as a candidate from its own token |
| PassportMrz.KeptLine1 | app/parser/passport/parser.py:89-91 | a 44-character MRZ text starting `P<UZB` is kept as it is |
| PassportMrz.KeptLine2 | app/parser/passport/parser.py:89-93 | a 44-character MRZ text whose second character is not a filler is kept as a second-line candidate |
| PassportMrz.Line1Alphabet | app/parser/passport/parser.py:19-24 | line 1 of a holder is in the MRZ alphabet |
| PassportMrz.Line2Alphabet | app/parser/passport/parser.py:19-24 | line 2 of a holder is in the MRZ alphabet |
| PassportMrz.FindAndDecode | app/parser/passport/parser.py:83-153 | found and decoded, the lines of a holder give back every field the decoder reads |
| PassportValues.NameLetterRedundant | app/parser/passport/parser.py:228-249 | the name check's last test never decides: with at least one letter required, dropping it changes nothing |
| PassportValues.SqueezeWord | app/parser/passport/parser.py:232 | collapsing whitespace keeps a string without whitespace |
| PassportValues.MrzTextIsWord | app/parser/passport/parser.py:232-242 | MRZ text has no whitespace to trim or collapse and sanitises to itself |
| PassportValues.MrzLineNotValue | app/parser/passport/parser.py:174-187 | a line of 40 to 50 MRZ characters that starts a passport line 1 or holds a filler is never a place, nor (by the tests at lines 228-249, 326-342 and 391-413) a name, a location or an authority piece |
| PassportValues.EncodedLinesNotValues | app/parser/passport/parser.py:174-187 | the two MRZ lines of a passport are never taken as a place, nor (by the tests at lines 228-249, 326-342 and 391-413) as a name, a location or an authority piece |
| PassportValues.DateNotValue | app/parser/passport/parser.py:180-181 | a dotted date is never a place, nor (by lines 238-239 and 334-335) a name or a location |
| PassportScan.WindowEnd | app/parser/passport/parser.py:157 | a look-ahead window, here and in the other readers, never runs past the tokens |
| PassportScan.ScanFirst | app/parser/passport/parser.py:190-200 | a reader yields a value exactly when some token of its window is taken and every token before it skipped, and the value is that token's |
| PassportScan.ScanStep | app/parser/passport/parser.py:190-200 | one token of a reader: skip to the next, stop with nothing, or return its value |
| PassportScan.ScanLonger | app/parser/passport/parser.py:190-225 | a longer window finds whatever a shorter one finds |
| PassportScan.ScanSame | app/parser/passport/parser.py:190-225 | two readers that agree on every token read alike |
| PassportScan.SqueezedNonEmpty | app/parser/passport/parser.py:199 | a non-blank token collapsed is never empty |
| PassportScan.RunScan | app/parser/passport/parser.py:190-200 | the look-ahead loop, shared by the readers at lines 156-166, 203-225 and 251-265, computes the reader's value |
| PassportScan.NextNonNoise | app/parser/passport/parser.py:156-166 | a value is non-empty, trimmed, and the trimmed form of one of the ten tokens after the caption |
| PassportScan.FindNextNonNoise | app/parser/passport/parser.py:156-166 | the loop computes that value |
| PassportScan.BottomStepIsPlaceStep | app/parser/passport/parser.py:203-225 | a place value is neither a sex token nor a date, so the bottom reader's extra skips and its `saw_sex` flag change nothing per token |
| PassportScan.PlaceBottomExtendsTop | app/parser/passport/parser.py:190-225 | the bottom reader is the top reader over fourteen tokens, so it finds whatever the top reader finds |
| PassportScan.PlaceTopFound | app/parser/passport/parser.py:190-200 | a place found is a token of the window that looks like a place, collapsed, with no caption before it |
| PassportScan.PlaceSkipsBefore | app/parser/passport/parser.py:192-198 | a skipped token is blank, noise or not a caption |
| PassportScan.PlaceAtHit | app/parser/passport/parser.py:197-199 | a taken token looks like a place and its value is the token collapsed |
| PassportScan.PlaceAtSkip | app/parser/passport/parser.py:193-198 | a skipped token is not a caption unless blank |
| PassportScan.ScanHit | app/parser/passport/parser.py:190-200 | the token a value comes from, every token before it skipped |
| PassportScan.ScanAt | app/parser/passport/parser.py:190-200 | with every token before `k` skipped, the reader is decided from `k` |
| PassportScan.ExtractPlaceTop | app/parser/passport/parser.py:190-200 | the loop computes the top reader over ten tokens |
| PassportScan.ExtractPlaceBottom | app/parser/passport/parser.py:203-225 | the loop computes the bottom reader over fourteen tokens |
| PassportScan.NextNameValue | app/parser/passport/parser.py:251-265 | a name found is non-empty and looks like a name |
| PassportScan.FindNextNameValue | app/parser/passport/parser.py:251-265 | the loop computes that name |
| PassportScan.DateValue | app/parser/passport/parser.py:272-286 | a date read for a date caption is a dotted date |
| PassportScan.SexValue | app/parser/passport/parser.py:288-299 | a sex read is `M` or `F` |
| PassportScan.CardValue | app/parser/passport/parser.py:301-308 | a number read is 7 to 10 letters and digits |
| PassportScan.ValueFor | app/parser/passport/parser.py:267-317 | a value is non-empty; for a date caption a dotted date, for the sex `M` or `F`, for the number 7 to 10 letters and digits, for a name an upper-cased name-like token |
| PassportScan.FieldValue | app/parser/passport/parser.py:267-317 | the same, for the value after the caption at token `i` |
| PassportScan.ExtractValueForField | app/parser/passport/parser.py:267-317 | the branch-by-branch extraction computes that value |
| PassportScan.FourDigitsNoDate | app/parser/passport/parser.py:276-281 | four digits hold no date of any format and are their own digits |
| PassportScan.NoPick | app/parser/passport/parser.py:65-80 | a trimmed token without either date pattern and without eight digits yields no date |
| PassportScan.DateJoinRepeatsToken | app/parser/passport/parser.py:277-285 | a lone group of four digits offered as its own follower is read as the group written twice |
| PassportScan.DateJoinExample | app/parser/passport/parser.py:277-285 | so `2001` becomes `20.01.2001` |
| PassportScan.DateJoinReadsValueTwice | app/parser/passport/parser.py:268-285 | when the value is the token right after the caption, the second group of digits is the value's own |
| PassportScan.Pieces | app/parser/passport/parser.py:420-441 | there are never more pieces than the budget |
| PassportScan.PiecesFrom | app/parser/passport/parser.py:420-441 | every piece is the value taken from some token of the window |
| PassportScan.PieceAt | app/parser/passport/parser.py:420-441 | the token a piece comes from |
| PassportScan.CollectAuthority | app/parser/passport/parser.py:420-445 | an authority collected is non-empty |
| PassportScan.AuthorityAtHit | app/parser/passport/parser.py:423-439 | a piece is an authority piece without a lower-case letter, whitespace collapsed, and non-empty |
| PassportScan.FirstPieceNonEmpty | app/parser/passport/parser.py:439-445 | the first piece is non-empty |
| PassportScan.AuthorityPieces | app/parser/passport/parser.py:420-445 | each collected piece is an authority piece of the twelve tokens after the caption, without a lower-case letter, collapsed |
| PassportScan.AuthorityPieceAt | app/parser/passport/parser.py:420-445 | the token a collected piece comes from |
| PassportScan.RunPieces | app/parser/passport/parser.py:420-441 | the gathering loop computes the pieces, at most the budget |
| PassportScan.CollectAuthorityPieces | app/parser/passport/parser.py:420-445 | the loop and the join compute the collected authority |
| PassportParser.OldLabelsArePassportLabels | app/parser/passport/parser.py:476-483 | the old-style caption dictionary names only passport fields and the passport number |
| PassportParser.OldKeysPassport | app/parser/core/labels.py:265-279 | the keys of the merged old-style dictionary are passport fields or the passport number |
| PassportParser.CleanFrom | app/parser/passport/parser.py:449-450 | a clean token is a non-blank input token, trimmed |
| PassportParser.CleanHas | app/parser/passport/parser.py:449-450 | every non-blank input token is among the clean tokens, trimmed |
| PassportParser.CleanTrimmed | app/parser/passport/parser.py:449-450 | every clean token is non-blank and already trimmed |
| PassportParser.CleanTokens | app/parser/passport/parser.py:449-450 | the two comprehensions compute the clean tokens |
| PassportParser.Td3Pairs | app/parser/passport/parser.py:116-124 | the decoded dictionary has seven entries |
| PassportParser.PrefillPairs | app/parser/passport/parser.py:472-474 | the loop over the decoded pairs computes the prefill |
| PassportParser.DecodedNoEmptyValue | app/parser/passport/parser.py:472-474 | the decoder never yields an empty string, so the `if v` test never drops a value |
| PassportParser.MrzRecordLands | app/parser/passport/parser.py:452-474 | every decoded value lands in its field of the empty result, which keeps exactly the passport keys |
| PassportParser.MrzRecordKeys | app/parser/passport/parser.py:452-474 | the prefilled result has the passport keys and leaves issue date, authority and place of birth empty |
| PassportParser.Td3PrefillKeys | app/parser/passport/parser.py:452-474 | the same for any pairs naming TD3 fields |
| PassportParser.Td3PrefillLands | app/parser/passport/parser.py:472-474 | with distinct TD3 fields, every non-empty value lands in the empty result |
| PassportParser.PrefillLandsAll | app/parser/passport/parser.py:472-474 | with distinct fields all present and empty, every pair's non-empty value lands |
| PassportParser.CaptionValue | app/parser/passport/parser.py:484-509 | a date caption yields a dotted date and the sex caption `M` or `F` |
| PassportParser.PlaceCaptionValue | app/parser/passport/parser.py:486-499 | the place a caption yields is the bottom reader's place, else the plain value: the top reader never decides |
| PassportParser.CaptionToken | app/parser/passport/parser.py:477-509 | one token of the caption loop fills an empty field named by its caption with the value after it |
| PassportParser.ReadCaptionValue | app/parser/passport/parser.py:484-509 | the branches for place, authority and other fields compute the caption's value |
| PassportParser.ScanCaptions | app/parser/passport/parser.py:476-509 | the caption loop computes the caption scan |
| PassportParser.SetTyped | app/parser/passport/parser.py:472-474 | writing a well-typed value keeps a record's dates dotted and its sex `M` or `F` |
| PassportParser.CaptionsTyped | app/parser/passport/parser.py:476-509 | the caption scan keeps dates dotted and the sex `M` or `F` |
| PassportParser.CaptionScanTyped | app/parser/passport/parser.py:476-509 | a scan whose values are well typed keeps a record typed |
| PassportParser.PassportCaptions | app/parser/passport/parser.py:477-480 | a passport dictionary's captions name passport fields or the passport number |
| PassportParser.CaptionScanKeys | app/parser/passport/parser.py:482-509 | a scan adds no key beyond the fields its captions name |
| PassportParser.CaptionsGrow | app/parser/passport/parser.py:476-509 | the caption scan never overwrites a field, keeps values non-empty and typed, and adds at most the passport number as a key |
| PassportParser.FirstHitAt | app/parser/passport/parser.py:354-358 | a fallback's value, here and at lines 345-351 and 521-527, comes from the first token it accepts, every token before refused |
| PassportParser.FirstHitLoop | app/parser/passport/parser.py:354-358 | the fallback loop, here and at lines 345-351 and 521-527, returns the value of the first token it accepts |
| PassportParser.PlaceFallbackFound | app/parser/passport/parser.py:354-358 | the place fallback is the first location among the tokens, whitespace collapsed, and never empty |
| PassportParser.CardFallbackFound | app/parser/passport/parser.py:521-527 | the number fallback is the first passport number, 8 or 9 letters and digits, found in the first token holding one |
| PassportParser.AuthorityFallbackFound | app/parser/passport/parser.py:345-351 | the authority fallback is the first token whose collapsed, upper-cased form is wholly an authority code, collapsed, and non-empty |
| PassportParser.DateOf | app/parser/passport/parser.py:363-371 | a date kept is the token's dotted date, never the birth or expiry date |
| PassportParser.PicksFrom | app/parser/passport/parser.py:362-371 | every kept date comes from some token |
| PassportParser.PicksHas | app/parser/passport/parser.py:362-371 | every token's date is kept |
| PassportParser.DatesOf | app/parser/passport/parser.py:362-371 | the kept dates are all dotted |
| PassportParser.DatesOfFrom | app/parser/passport/parser.py:362-371 | every kept date is the date of some token |
| PassportParser.DatesOfHas | app/parser/passport/parser.py:362-371 | every token's date that is neither birth nor expiry is kept |
| PassportParser.KeyInjective | app/parser/passport/parser.py:376-380 | two dotted dates with the same key are the same text, so sorting by key after `set` loses nothing |
| PassportParser.Unpack | app/parser/passport/parser.py:376-378 | the key orders by year, then month, then day |
| PassportParser.KeyOrder | app/parser/passport/parser.py:376-378 | one key is below another exactly when its date comes first in the calendar |
| PassportParser.Latest | app/parser/passport/parser.py:380-388 | the latest date is one of the kept dates |
| PassportParser.LatestEligible | app/parser/passport/parser.py:382-386 | the latest date below a bound is below it |
| PassportParser.LatestMax | app/parser/passport/parser.py:380-388 | no eligible date has a larger key than the latest |
| PassportParser.IssueDate | app/parser/passport/parser.py:361-388 | an issue date found is dotted |
| PassportParser.IssueDateFrom | app/parser/passport/parser.py:361-388 | the issue date is some token's date and neither the birth nor the expiry date |
| PassportParser.IssueDateBeforeExpiry | app/parser/passport/parser.py:382-386 | when some date comes before the expiry, the issue date comes before it too and is not earlier than any such date |
| PassportParser.IssueDateLatest | app/parser/passport/parser.py:387-388 | when no date comes before the expiry, or there is none, the issue date is the latest of all |
| PassportParser.IssueDateSome | app/parser/passport/parser.py:373-374 | an issue date is found exactly when some token yields a date other than birth and expiry |
| PassportParser.LatestOf | app/parser/passport/parser.py:380-388 | the loop computes the latest eligible date |
| PassportParser.IssueDateFallback | app/parser/passport/parser.py:361-388 | the collecting loop and the choice compute the issue date |
| PassportParser.CollectPicks | app/parser/passport/parser.py:362-371 | the loop collects the tokens' dates in order |
| PassportParser.Fill | app/parser/passport/parser.py:511-530 | a fill adds the field's key, changes no other field, and writes the value only into an empty field |
| PassportParser.FillGrows | app/parser/passport/parser.py:511-530 | a fill never overwrites a value |
| PassportParser.FillFilled | app/parser/passport/parser.py:511-530 | a fill keeps every value non-empty |
| PassportParser.FillTyped | app/parser/passport/parser.py:511-530 | a well-typed fill keeps a record typed |
| PassportParser.FillFourGrows | app/parser/passport/parser.py:511-530 | the four fallbacks never overwrite a value and add exactly their four keys |
| PassportParser.FillFourValues | app/parser/passport/parser.py:511-530 | each of the four fields gets its fallback when empty and keeps its value otherwise |
| PassportParser.FillFourFilled | app/parser/passport/parser.py:511-530 | non-empty fallbacks keep every value non-empty |
| PassportParser.FillFourTyped | app/parser/passport/parser.py:511-530 | a dotted issue date keeps the record typed |
| PassportParser.FallbackValues | app/parser/passport/parser.py:345-388 | the place, number and authority fallbacks are non-empty and the issue date is ten characters |
| PassportParser.FallbacksGrow | app/parser/passport/parser.py:511-530 | the fallback stage never overwrites a value, adds the four keys, keeps values non-empty and the record typed |
| PassportParser.FallbacksFill | app/parser/passport/parser.py:511-530 | each empty field gets its fallback, the issue date chosen with the record's birth and expiry dates |
| PassportParser.FillFallbacks | app/parser/passport/parser.py:511-530 | the four fallback blocks compute the fallback stage |
| PassportParser.MrzRecordTyped | app/parser/passport/parser.py:467-474 | the prefilled result of well-typed decoded values is typed |
| PassportParser.PrefillTyped | app/parser/passport/parser.py:472-474 | a prefill with well-typed values keeps a record typed |
| PassportParser.ParsePassport | app/parser/passport/parser.py:448-531 | the whole parser computes its function of the tokens |
| PassportParser.StagesGrow | app/parser/passport/parser.py:476-530 | caption scan and fallbacks never overwrite a value, keep values non-empty and typed, and add at most the passport number as a key |
| PassportParser.PassportShape | app/parser/passport/parser.py:448-531 | the result has the passport keys and at most the passport number besides, only non-empty values, dotted dates and sex `M` or `F` |
| PassportParser.PassportKeepsMrz | app/parser/passport/parser.py:467-474 | the result carries the MRZ lines found, and no later stage overwrites a decoded value |
| PassportParser.GrowsFromMrz | app/parser/passport/parser.py:472-474 | every decoded value present is in a record that grew from the prefilled one |
| PassportParser.PassportReadsMrz | app/parser/passport/parser.py:448-531 | every decoded MRZ value present is in the result |
| PassportParser.CleanMrzPair | app/parser/passport/parser.py:449-450 | two MRZ lines given as tokens are the clean tokens |
| PassportParser.PassportReadsEncodedMrz | app/parser/passport/parser.py:448-531 | given the two MRZ lines of a holder, the result carries both lines and the holder's surname, number, birth and expiry dates |

## Left out

- OCR, the QR decoder, HTTP handlers and every other caller of the parsers are not
  part of this model. The parsers receive the tokens and the QR text as parameters.
- `None` tokens and `str(t)` conversion: tokens are always strings here.
- Python's `or ""` guards are therefore no-ops and are not modelled.
- The `raw`, `qr` and echoed `mrz` entries of the result dictionaries are not modelled.
  The ID-card model keeps the decoded MRZ in its outcome. The passport model keeps the
  two lines in `PassportResult`. `raw` and `qr` are inputs the result only repeats.
- `date.today()` is a parameter `today` of the ID-card classifier and parser.
- Python's `similarity` uses `difflib.SequenceMatcher.ratio`, a heuristic whose
  matching-block count is not modelled. It is the abstract `Utils.MatchCount`, which
  has only the two properties `ratio` guarantees:
  - the count is at most the average length;
  - it equals the average length exactly when the strings are equal.

  Every lemma holds for every such count.
- Case mapping, `isalpha`, `isdigit` and the regular-expression classes `\d`, `\w`
  and `\b` are modelled on ASCII. Python's Unicode-aware versions also accept other
  scripts' letters and digits, and those inputs are not captured. Whitespace
  (`str.isspace`, `\s`) is modelled in full.
- `IdMrz.ProcessMrz`, `IdDate.Classify`: raised exceptions (`IndexError`,
  `ValueError`, and `date.replace` leaving the calendar) are explicit outcomes. The
  model does not capture what the caller does with them.
- `PassportParser.IssueDate`: requires the expiry date, when it is present, to be a
  dotted date. Otherwise the source's `key(exp)` raises `ValueError`. In the pipeline
  the expiry date always comes from the MRZ decoder or the date readers, which only
  produce dotted dates (`PassportParser.PassportShape`).
- `PassportParser.Fallbacks`: requires a typed record for the same reason.
  `PassportParser.StagesGrow` proves that the caption scan produces one.
- `PassportParser.IssueDate`: `sorted(set(dates), key=key)[-1]` is modelled as the
  maximum by key. `PassportParser.KeyInjective` shows that distinct dates have
  distinct keys, so the set-and-sort adds nothing.
- `PassportParser.Fallbacks`: reads birth and expiry dates from the record before the
  place-of-birth fallback. The source reads them after it. That fallback writes
  neither field, so the values are the same.
- Dead code has no member:
  - `looks_like_value` (`app/parser/id_card/parser.py:16-23`, never called);
  - the unused `v_clean` local (`app/parser/passport/parser.py:311`);
  - `_ignored` (`app/parser/passport/parser.py:130`).

  The `saw_sex` flag of `extract_place_bottom` is modelled without its state, because
  both of its branches do the same thing (`PassportScan.BottomStepIsPlaceStep`).
- The look-ahead readers of `app/parser/passport/parser.py` are one loop,
  `PassportScan.RunScan`, applied to a per-token step function (skip, stop or take).
  `PassportScan.RunPieces` plays the same role for the authority collector. Each
  reader's own method calls that loop with its step, rather than repeating the loop
  body inline.
- `PassportScan.DateJoinRepeatsToken`: the date-join branch of
  `_extract_value_for_field` joins the value's digits with those of the token right
  after the caption. That token is usually the value itself. This is modelled as
  written, and `PassportScan.DateJoinExample` shows the consequence. Whether the next
  token was meant instead cannot be settled from the code, so it is not claimed as a
  finding.
- `PassportParser.PassportReadsEncodedMrz`: states surname, number, birth and expiry
  dates for a passport whose lines are the only tokens. The given names and sex read
  from the MRZ are covered in general by `PassportParser.PassportReadsMrz` and
  `PassportMrz.FindAndDecode`.

## Findings

| source | as written | input that shows it | evidently intended | confidence | as-written member | corrected member |
|---|---|---|---|---|---|---|
| app/parser/core/labels.py:160-161 | a missing comma makes Python join `"a'xesioin"` and `"ati otas"` into the single caption `a'xesioinati otas` | the token `ati otas` (or `a'xesioin`) has no exact variant in the patronymic entry of `LABELS_OLD_NORM`, while with the comma restored it is matched to the patronymic with score 1 | two separate captions, like the other list entries | high; not executed | Labels.FusedPatronymicCaption | Labels.SeparatePatronymicCaptions |

/** The character tables and noise phrases shared by both parsers. */
module Constants {
  import opened Text

  /** The apostrophe look-alikes OCR produces; each is read as `'`. */
  const Apostrophes: seq<char> :=
    ['\U{2019}', '\U{2018}', '`', '\U{B4}', '\U{2BB}', '\U{2BC}',
     '\U{2B9}', '\U{2BE}', '\U{2C8}', '\U{2BF}', '\U{2032}', '\U{FF07}']

  /** The dash look-alikes, ASCII `-` and `_` among them; each is read as `-`. */
  const Hyphens: seq<char> :=
    ['\U{2010}', '-', '\U{2012}', '\U{2013}', '\U{2014}', '\U{2015}',
     '\U{2212}', '\U{FE58}', '\U{FE63}', '\U{FF0D}', '_']

  /** One character through the translation table. */
  function TranslateChar(c: char): char {
    if c in Apostrophes then '\'' else if c in Hyphens then '-' else c
  }

  /** `s.translate(_TRANSLATION_TABLE)` */
  function Translate(s: string): (r: string)
    ensures |r| == |s|
    ensures forall i :: 0 <= i < |s| ==> r[i] == TranslateChar(s[i])
  {
    seq(|s|, i requires 0 <= i < |s| => TranslateChar(s[i]))
  }

  /** The table: twelve apostrophes to `'`, eleven dashes to `-`, nothing else
      touched; the two lists share no character, so merging them into one
      table loses no entry. */
  lemma TranslationTable(c: char)
    ensures |Apostrophes| == 12 && |Hyphens| == 11
    ensures c in Apostrophes ==> c !in Hyphens && TranslateChar(c) == '\''
    ensures c in Hyphens ==> TranslateChar(c) == '-'
    ensures c !in Apostrophes && c !in Hyphens ==> TranslateChar(c) == c
  {
  }

  /** Translated text holds no apostrophe variant and no dash but `-`. */
  lemma TranslateClears(s: string)
    ensures forall c :: c in Translate(s) ==> c !in Apostrophes && (c in Hyphens ==> c == '-')
  {
    forall c | c in Translate(s) ensures c !in Apostrophes && (c in Hyphens ==> c == '-') {
      var i :| 0 <= i < |s| && Translate(s)[i] == c;
    }
  }

  /** Translating twice is translating once. */
  lemma TranslateIdempotent(s: string)
    ensures Translate(Translate(s)) == Translate(s)
  {
    assert '\'' !in Apostrophes && '\'' !in Hyphens && '-' !in Apostrophes;
  }

  /** The boilerplate printed on the documents and the scanner-app watermarks. */
  const NoiseSubstrings: seq<string> := [
    "O'ZBEKISTON RESPUBLIKASI/REPUBLIC OF UZBEKISTAN",
    "O'ZBEKISTON RESPUBLIKASI",
    "REPUBLIC OF UZBEKISTAN",
    "PASSPORT",
    "SHAXSIY IMZO",
    "HOLDER'S SIGNATURE",
    "CAMSCANNER",
    "GOOGLE",
    "PHOTOC",
    "SCANNED",
    "PHOTO",
    "CAMERA",
    "SCAN"
  ]

  /** Every noise phrase is at least four characters long. */
  lemma NoisePhrasesLength()
    ensures |NoiseSubstrings| == 13
    ensures forall p :: p in NoiseSubstrings ==> |p| >= 4
  {
  }
}

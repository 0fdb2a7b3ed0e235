/** The machine-readable zone of a passport: the two 44-character TD3 lines
    of ICAO Doc 9303 Part 4, found among the OCR tokens (single tokens and
    pairs of neighbouring tokens) and decoded into names, passport number,
    dates and sex. */
module PassportMrz {
  import opened Wrappers
  import opened Text
  import opened Patterns
  import opened Calendar
  import opened PassportDates
  import IdMrz

  // ---------------------------------------------------------------- reading

  /** The look-alikes `«`, `‹` and `›` that OCR reads where a
      `<` filler was printed.  Unlike the ID-card reader, the passport reader
      does not count parentheses among them. */
  predicate ChevronLike(c: char) { c == '\U{AB}' || c == '\U{2039}' || c == '\U{203A}' }

  /** One character after `upper`, the chevron replacements and the removal
      of everything outside `[A-Z0-9<]`: its MRZ form, or `None` when it is
      dropped. */
  function MrzForm(c: char): (r: Option<char>)
    ensures r.Some? ==> MrzChar(r.value)
    ensures IsSpace(c) ==> r.None?
    ensures MrzChar(c) ==> r == Some(c)
  {
    var u := UpperChar(c);
    var v := if ChevronLike(u) then '<' else u;
    if MrzChar(v) then Some(v) else None
  }

  /** `_sanitize_mrz`: upper-case, trim, drop spaces, read the chevron
      look-alikes as `<` and drop whatever is outside `[A-Z0-9<]`.  The trim
      and the space removal are left to the filter, which drops every
      whitespace character anyway; `Patterns.KeepStripped` shows that
      trimming first gives the same. */
  function Sanitize(s: string): (r: string)
    ensures |r| <= |s|
    ensures forall i :: 0 <= i < |r| ==> MrzChar(r[i])
  {
    Keep(MrzForm, s)
  }

  /** A string already in the MRZ alphabet comes out unchanged. */
  lemma {:induction false} SanitizeMrzText(s: string)
    requires forall i :: 0 <= i < |s| ==> MrzChar(s[i])
    ensures Sanitize(s) == s
  {
    if s != [] {
      var n := |s| - 1;
      SanitizeMrzText(s[..n]);
      assert MrzForm(s[n]) == Some(s[n]);
    }
  }

  /** Sanitising a sanitised token changes nothing. */
  lemma SanitizeIdempotent(s: string)
    ensures Sanitize(Sanitize(s)) == Sanitize(s)
  {
    SanitizeMrzText(Sanitize(s));
  }

  /** A parenthesis is dropped by the passport reader, while the ID-card
      reader turns it into a filler. */
  lemma ParenthesisDiffers()
    ensures Sanitize("(") == []
    ensures IdMrz.SanitizeMrzToken("(") == "<"
  {
    assert MrzForm('(') == None;
    assert "("[..0] == [];
    assert IdMrz.MrzForm('(') == Some('<');
  }

  // ------------------------------------------------------------- candidates

  /** `MRZ_LINE1_RE.match(st) and len(st) >= 40` */
  predicate Line1Candidate(st: string) { MrzLine1Start(st) && |st| >= 40 }

  /** `MRZ_LINE2_RE.match(st) and len(st) >= 40 and not st.startswith("P<")` */
  predicate Line2Candidate(st: string) { MrzRun(st, 40, 50) && !StartsWith(st, "P<") }

  /** The two tests exclude each other, so a sanitised text is appended at
      most once. */
  lemma CandidateTestsExclusive(st: string)
    ensures !(Line1Candidate(st) && Line2Candidate(st))
  {
  }

  /** What one sanitised text adds to the candidates. */
  function Kept(st: string): (c: seq<string>)
    ensures |c| <= 1
  {
    if Line1Candidate(st) || Line2Candidate(st) then [st] else []
  }

  /** The candidates from single tokens, in token order. */
  function Singles(tokens: seq<string>): seq<string> {
    if tokens == [] then []
    else Singles(tokens[..|tokens| - 1]) + Kept(Sanitize(tokens[|tokens| - 1]))
  }

  /** The candidates from each token joined with the next, in token order. */
  function Adjacent(tokens: seq<string>): seq<string> {
    if |tokens| < 2 then []
    else
      var n := |tokens| - 1;
      Adjacent(tokens[..n]) + Kept(Sanitize(tokens[n - 1] + tokens[n]))
  }

  /** All candidates: the single tokens' first, then the pairs'. */
  function Candidates(tokens: seq<string>): seq<string> {
    Singles(tokens) + Adjacent(tokens)
  }

  /** A candidate holds MRZ characters only and has a first- or second-line shape. */
  predicate Candidate(c: string) {
    (Line1Candidate(c) || Line2Candidate(c)) && forall i :: 0 <= i < |c| ==> MrzChar(c[i])
  }

  lemma {:induction false} SinglesShape(tokens: seq<string>)
    ensures forall k :: 0 <= k < |Singles(tokens)| ==> Candidate(Singles(tokens)[k])
  {
    if tokens != [] {
      SinglesShape(tokens[..|tokens| - 1]);
    }
  }

  lemma {:induction false} AdjacentShape(tokens: seq<string>)
    ensures forall k :: 0 <= k < |Adjacent(tokens)| ==> Candidate(Adjacent(tokens)[k])
  {
    if |tokens| >= 2 {
      AdjacentShape(tokens[..|tokens| - 1]);
    }
  }

  /** Every candidate has a candidate's shape. */
  lemma CandidatesShape(tokens: seq<string>)
    ensures forall k :: 0 <= k < |Candidates(tokens)| ==> Candidate(Candidates(tokens)[k])
  {
    SinglesShape(tokens);
    AdjacentShape(tokens);
  }

  // ------------------------------------------------------------- the lines

  /** `c[:44] if len(c) >= 44 else c` */
  function Cut44(c: string): (r: string)
    ensures |r| <= |c| && |r| <= 44 && r == c[..|r|]
  {
    if |c| >= 44 then c[..44] else c
  }

  /** The first candidate that starts `P<`, cut to 44 characters. */
  function FirstLine1(cs: seq<string>): Option<string> {
    if cs == [] then None
    else if StartsWith(cs[0], "P<") then Some(Cut44(cs[0]))
    else FirstLine1(cs[1..])
  }

  /** The first candidate that does not start `P<` and has at least 44
      characters, cut to 44. */
  function FirstLine2(cs: seq<string>): Option<string> {
    if cs == [] then None
    else if !StartsWith(cs[0], "P<") && |cs[0]| >= 44 then Some(cs[0][..44])
    else FirstLine2(cs[1..])
  }

  /** `find_mrz_lines` as a value. */
  function MrzLines(tokens: seq<string>): (Option<string>, Option<string>) {
    var cs := Candidates(tokens);
    (FirstLine1(cs), FirstLine2(cs))
  }

  /** `find_mrz_lines`: collect the candidates from single tokens, then from
      neighbouring pairs; line 1 is the first that starts `P<`, line 2 the
      first other one of at least 44 characters. */
  method FindMrzLines(tokens: seq<string>) returns (line1: Option<string>, line2: Option<string>)
    ensures (line1, line2) == MrzLines(tokens)
  {
    var candidates: seq<string> := [];
    for k := 0 to |tokens|
      invariant candidates == Singles(tokens[..k])
    {
      assert tokens[..k + 1][..k] == tokens[..k];
      var st := Sanitize(tokens[k]);
      if MrzLine1Start(st) && |st| >= 40 {
        candidates := candidates + [st];
      }
      if MrzRun(st, 40, 50) && |st| >= 40 && !StartsWith(st, "P<") {
        candidates := candidates + [st];
      }
    }
    assert tokens[..|tokens|] == tokens;
    candidates := AppendPairs(tokens, candidates);
    line1 := FirstStartingP(candidates);
    line2 := FirstOther(candidates);
  }

  /** The loop over neighbouring pairs. */
  method AppendPairs(tokens: seq<string>, singles: seq<string>) returns (candidates: seq<string>)
    ensures candidates == singles + Adjacent(tokens)
  {
    candidates := singles;
    var i := 0;
    while i + 1 < |tokens|
      invariant candidates == singles + Adjacent(tokens[..Min(i + 1, |tokens|)])
    {
      var front := tokens[..i + 2];
      assert front[..i + 1] == tokens[..i + 1];
      assert front[i] == tokens[i] && front[i + 1] == tokens[i + 1];
      var st := Sanitize(tokens[i] + tokens[i + 1]);
      if MrzLine1Start(st) && |st| >= 40 {
        candidates := candidates + [st];
      }
      if MrzRun(st, 40, 50) && |st| >= 40 && !StartsWith(st, "P<") {
        candidates := candidates + [st];
      }
      i := i + 1;
    }
    assert tokens[..|tokens|] == tokens;
  }

  /** The loop that takes the first candidate starting `P<`; it keeps going
      but never replaces what it found. */
  method FirstStartingP(candidates: seq<string>) returns (line1: Option<string>)
    ensures line1 == FirstLine1(candidates)
  {
    line1 := None;
    for k := 0 to |candidates|
      invariant line1.Some? ==> line1 == FirstLine1(candidates)
      invariant line1.None? ==> FirstLine1(candidates) == FirstLine1(candidates[k..])
    {
      var c := candidates[k];
      assert candidates[k..][0] == c && candidates[k..][1..] == candidates[k + 1..];
      if StartsWith(c, "P<") && line1.None? {
        line1 := Some(if |c| >= 44 then c[..44] else c);
      }
    }
  }

  /** The loop that takes the first other candidate of at least 44 characters. */
  method FirstOther(candidates: seq<string>) returns (line2: Option<string>)
    ensures line2 == FirstLine2(candidates)
  {
    line2 := None;
    var k := 0;
    while k < |candidates|
      invariant k <= |candidates| && line2.None?
      invariant FirstLine2(candidates) == FirstLine2(candidates[k..])
    {
      var c := candidates[k];
      assert candidates[k..][0] == c && candidates[k..][1..] == candidates[k + 1..];
      if !StartsWith(c, "P<") {
        if |c| >= 44 {
          line2 := Some(c[..44]);
          break;
        }
      }
      k := k + 1;
    }
  }

  /** What a found first line looks like: `P<`, a three-letter country code,
      40 to 44 MRZ characters. */
  lemma {:induction false} FirstLine1Shape(cs: seq<string>)
    requires forall k :: 0 <= k < |cs| ==> Candidate(cs[k])
    requires FirstLine1(cs).Some?
    ensures var l := FirstLine1(cs).value;
      MrzLine1Start(l) && 40 <= |l| <= 44 && forall i :: 0 <= i < |l| ==> MrzChar(l[i])
  {
    if !StartsWith(cs[0], "P<") {
      FirstLine1Shape(cs[1..]);
    } else {
      assert Candidate(cs[0]);
    }
  }

  /** What a found second line looks like: 44 MRZ characters not starting `P<`. */
  lemma {:induction false} FirstLine2Shape(cs: seq<string>)
    requires forall k :: 0 <= k < |cs| ==> Candidate(cs[k])
    requires FirstLine2(cs).Some?
    ensures var l := FirstLine2(cs).value;
      |l| == 44 && !StartsWith(l, "P<") && forall i :: 0 <= i < |l| ==> MrzChar(l[i])
  {
    if !(!StartsWith(cs[0], "P<") && |cs[0]| >= 44) {
      FirstLine2Shape(cs[1..]);
    } else {
      assert Candidate(cs[0]);
      assert cs[0][..44][..2] == cs[0][..2];
    }
  }

  /** Found lines have the TD3 shapes. */
  lemma MrzLinesShape(tokens: seq<string>)
    ensures var (l1, l2) := MrzLines(tokens);
      (l1.Some? ==> MrzLine1Start(l1.value) && 40 <= |l1.value| <= 44
                    && forall i :: 0 <= i < |l1.value| ==> MrzChar(l1.value[i]))
      && (l2.Some? ==> |l2.value| == 44 && !StartsWith(l2.value, "P<")
                       && forall i :: 0 <= i < |l2.value| ==> MrzChar(l2.value[i]))
  {
    var cs := Candidates(tokens);
    CandidatesShape(tokens);
    if FirstLine1(cs).Some? {
      FirstLine1Shape(cs);
    }
    if FirstLine2(cs).Some? {
      FirstLine2Shape(cs);
    }
  }

  /** A candidate starting `P<` anywhere in the list means a first line is found. */
  lemma {:induction false} FirstLine1Found(cs: seq<string>, k: nat)
    requires k < |cs| && StartsWith(cs[k], "P<")
    ensures FirstLine1(cs).Some?
  {
    if k > 0 && !StartsWith(cs[0], "P<") {
      FirstLine1Found(cs[1..], k - 1);
    }
  }

  lemma {:induction false} SinglesHas(tokens: seq<string>, i: nat)
    requires i < |tokens| && Line1Candidate(Sanitize(tokens[i]))
    ensures exists k :: 0 <= k < |Singles(tokens)| && Singles(tokens)[k] == Sanitize(tokens[i])
  {
    var n := |tokens| - 1;
    if i < n {
      assert tokens[..n][i] == tokens[i];
      SinglesHas(tokens[..n], i);
      var k :| 0 <= k < |Singles(tokens[..n])| && Singles(tokens[..n])[k] == Sanitize(tokens[i]);
      assert Singles(tokens)[k] == Singles(tokens[..n])[k];
    } else {
      assert Singles(tokens)[|Singles(tokens)| - 1] == Sanitize(tokens[i]);
    }
  }

  /** Any token that sanitises to a first-line shape makes a first line found. */
  lemma Line1Found(tokens: seq<string>, i: nat)
    requires i < |tokens| && Line1Candidate(Sanitize(tokens[i]))
    ensures MrzLines(tokens).0.Some?
  {
    SinglesHas(tokens, i);
    var k :| 0 <= k < |Singles(tokens)| && Singles(tokens)[k] == Sanitize(tokens[i]);
    assert Candidates(tokens)[k] == Sanitize(tokens[i]);
    FirstLine1Found(Candidates(tokens), k);
  }

  /** A second line OCR split into two tokens, neither long enough alone, is
      found joined. */
  lemma SplitLineRejoined(a: string, b: string)
    requires (forall i :: 0 <= i < |a| ==> MrzChar(a[i])) && (forall i :: 0 <= i < |b| ==> MrzChar(b[i]))
    requires |a| < 40 && |b| < 40 && |a| + |b| == 44 && |a| >= 2 && !StartsWith(a, "P<")
    ensures MrzLines([a, b]) == (None, Some(a + b))
  {
    SanitizeMrzText(a);
    SanitizeMrzText(b);
    KeepAppend(MrzForm, a, b);
    var tokens := [a, b];
    assert tokens[..1] == [a] && [a][..0] == [];
    assert Singles([a]) == [];
    assert Singles(tokens) == [];
    assert (a + b)[..2] == a[..2];
    assert Line2Candidate(a + b);
    assert Adjacent(tokens) == [a + b];
    assert Candidates(tokens) == [a + b];
    assert [a + b][1..] == [];
    assert FirstLine1([a + b]) == None;
    assert (a + b)[..44] == a + b;
    assert FirstLine2([a + b]) == Some(a + b);
  }

  // --------------------------------------------------------------- decoding

  /** The dictionary `parse_mrz_td3` returns. */
  datatype Td3 = Td3(
    surname: Option<string>, givenName: Option<string>, patronymic: Option<string>,
    cardNumber: Option<string>, dateOfBirth: Option<string>, sex: Option<string>,
    dateOfExpiry: Option<string>)

  /** `s or None` */
  function OrNone(s: string): (r: Option<string>)
    ensures r.Some? ==> r.value == s && s != []
    ensures r.None? ==> s == []
  {
    if s == [] then None else Some(s)
  }

  /** A piece of `rest.split("<")` that both filters keep: non-empty, not only
      fillers, not only whitespace. */
  predicate NamePiece(p: string) { p != [] && StripChar(p, '<') != [] && Strip(p) != [] }

  /** The two list comprehensions over the pieces: the kept pieces without
      fillers, trimmed. */
  function NameParts(ps: seq<string>): seq<string> {
    if ps == [] then []
    else (if NamePiece(ps[0]) then [Strip(RemoveChar(ps[0], '<'))] else []) + NameParts(ps[1..])
  }

  /** The names after `P<` and the country code: split once at `<<` into the
      surname and the rest; the first name piece of the rest is the given
      name and the others, joined by spaces, the patronymic. */
  function Names(payload: string): (r: (Option<string>, Option<string>, Option<string>))
    ensures r.0.Some? ==> r.0.value != [] && '<' !in r.0.value
    ensures r.1.Some? ==> r.1.value != []
    ensures r.2.Some? ==> r.2.value != []
  {
    match SplitOnce(payload, "<<")
    case None => (None, None, None)
    case Some((sur, rest)) =>
      StripAbsent(RemoveChar(sur, '<'), '<');
      var parts := NameParts(SplitChar(rest, '<'));
      (OrNone(Strip(RemoveChar(sur, '<'))),
       if |parts| >= 1 then OrNone(parts[0]) else None,
       if |parts| >= 2 then OrNone(Join(parts[1..], " ")) else None)
  }

  /** The document number field without its fillers, when anything is left. */
  function CardOf(f: string): (r: Option<string>)
    requires |f| == 9
    ensures r.Some? ==> 0 < |r.value| <= 9 && '<' !in r.value
  {
    OrNone(RemoveChar(f, '<'))
  }

  /** `sex if sex in ("M", "F") else None` */
  function SexOf(c: char): (r: Option<string>)
    ensures r.Some? <==> c == 'M' || c == 'F'
  {
    if c == 'M' || c == 'F' then Some([c]) else None
  }

  /** `parse_mrz_td3`: line 2, when it has at least 28 characters, gives the
      passport number (`l2[0:9]` without fillers), the birth date
      (`l2[13:19]`), the sex (`l2[20]`) and the expiry (`l2[21:27]`); line 1,
      when it starts `P<` and has at least six characters, gives the names. */
  function ParseMrzTd3(line1: Option<string>, line2: Option<string>): (r: Td3)
    ensures r.cardNumber.Some? ==> 0 < |r.cardNumber.value| <= 9 && '<' !in r.cardNumber.value
    ensures r.dateOfBirth.Some? ==> DottedShape(r.dateOfBirth.value)
    ensures r.dateOfExpiry.Some? ==> DottedShape(r.dateOfExpiry.value)
    ensures r.sex.Some? ==> r.sex.value == "M" || r.sex.value == "F"
    ensures r.surname.Some? ==> r.surname.value != [] && '<' !in r.surname.value
    ensures r.givenName.Some? ==> r.givenName.value != []
    ensures r.patronymic.Some? ==> r.patronymic.value != []
    ensures (line2.None? || |line2.value| < 28) ==>
              r.cardNumber == r.dateOfBirth == r.sex == r.dateOfExpiry == None
    ensures (line1.None? || !StartsWith(line1.value, "P<") || |line1.value| < 6) ==>
              r.surname == r.givenName == r.patronymic == None
  {
    var l2 := if line2.Some? && |line2.value| >= 28 then line2.value else [];
    var names := if line1.Some? && StartsWith(line1.value, "P<") && |line1.value| >= 6
                 then Names(line1.value[5..]) else (None, None, None);
    Td3(names.0, names.1, names.2,
        if l2 == [] then None else CardOf(l2[0..9]),
        if l2 == [] then None else FromMrzYymmdd(l2[13..19]),
        if l2 == [] then None else SexOf(l2[20]),
        if l2 == [] then None else FromMrzYymmdd(l2[21..27]))
  }

  /** The names of a line-1 payload whose surname is a word of capitals are
      that surname and the name pieces of what follows the first `<<`. */
  lemma NamesOfPayload(surname: string, rest: string)
    requires IdMrz.NameWord(surname)
    ensures Names(surname + "<<" + rest) ==
              var parts := NameParts(SplitChar(rest, '<'));
              (Some(surname),
               if |parts| >= 1 then OrNone(parts[0]) else None,
               if |parts| >= 2 then OrNone(Join(parts[1..], " ")) else None)
  {
    IdMrz.SplitAtNames(surname, rest);
    RemoveAbsent(surname, '<');
    StripOfStripped(surname);
  }

  // ------------------------------------------------------------ round trip

  /** A word of capitals holds no filler, so it splits into itself. */
  lemma SplitWord(w: string)
    requires IdMrz.NameWord(w)
    ensures '<' !in w && SplitChar(w, '<') == [w]
  {
  }

  /** A word of capitals followed by a filler splits off as the first piece. */
  lemma SplitAfterWord(w: string, x: string)
    requires IdMrz.NameWord(w)
    ensures SplitChar(w + "<" + x, '<') == [w] + SplitChar(x, '<')
  {
    var s := w + "<" + x;
    assert s[|w|] == '<';
    assert s[..|w|] == w;
    IndexAfterWord(w, s);
    assert s[|w| + 1..] == x;
  }

  lemma {:induction false} IndexAfterWord(w: string, s: string)
    requires '<' !in w && |s| > |w| && s[..|w|] == w && s[|w|] == '<'
    ensures '<' in s && IndexOf(s, '<') == |w|
  {
    assert s[|w|] in s;
    if w != [] {
      assert w[0] == s[0] && w[0] != '<';
      assert s[1..][..|w| - 1] == w[1..];
      IndexAfterWord(w[1..], s[1..]);
    }
  }

  /** A word of capitals passes both filters and is kept as it is. */
  lemma WordPiece(w: string)
    requires IdMrz.NameWord(w)
    ensures NamePiece(w) && Strip(RemoveChar(w, '<')) == w
  {
    RemoveAbsent(w, '<');
    StripOfStripped(w);
    assert LeadingRun(w, '<') == 0;
    assert StripChar(w, '<') == StripRightChar(w, '<') == w;
  }

  /** Fillers alone leave no name piece. */
  lemma {:induction false} FillPieces(m: nat)
    ensures NameParts(SplitChar(IdMrz.Fill(m), '<')) == []
  {
    if m > 0 {
      var f := IdMrz.Fill(m);
      assert f == [] + "<" + IdMrz.Fill(m - 1);
      SplitAfterWordEmpty(IdMrz.Fill(m - 1));
      FillPieces(m - 1);
    } else {
      assert SplitChar(IdMrz.Fill(0), '<') == [[]];
    }
  }

  lemma SplitAfterWordEmpty(x: string)
    ensures SplitChar("<" + x, '<') == [[]] + SplitChar(x, '<')
  {
    var s := "<" + x;
    assert s[0] == '<' && s[1..] == x;
  }

  /** The given names joined by fillers, with fillers after them, split back
      into the given names. */
  lemma {:induction false} NamePartsOfWords(ws: seq<string>, m: nat)
    requires forall k :: 0 <= k < |ws| ==> IdMrz.NameWord(ws[k])
    ensures NameParts(SplitChar(Join(ws, "<") + IdMrz.Fill(m), '<')) == ws
  {
    if ws == [] {
      assert Join(ws, "<") + IdMrz.Fill(m) == IdMrz.Fill(m);
      FillPieces(m);
    } else if |ws| == 1 {
      OneWordPieces(ws, m);
    } else {
      var w := ws[0];
      var tail := Join(ws[1..], "<") + IdMrz.Fill(m);
      assert Join(ws, "<") + IdMrz.Fill(m) == w + "<" + tail;
      PiecesAfterWord(w, tail);
      NamePartsOfWords(ws[1..], m);
      assert ws == [w] + ws[1..];
    }
  }

  lemma OneWordPieces(ws: seq<string>, m: nat)
    requires |ws| == 1 && IdMrz.NameWord(ws[0])
    ensures NameParts(SplitChar(Join(ws, "<") + IdMrz.Fill(m), '<')) == ws
  {
    assert Join(ws, "<") == ws[0];
    WordThenFill(ws[0], m);
  }

  /** A word of capitals followed by fillers is one name piece. */
  lemma WordThenFill(w: string, m: nat)
    requires IdMrz.NameWord(w)
    ensures NameParts(SplitChar(w + IdMrz.Fill(m), '<')) == [w]
  {
    if m == 0 {
      assert w + IdMrz.Fill(0) == w;
      SplitWord(w);
      WordPiece(w);
      NamePartsCons(w, []);
    } else {
      var f := IdMrz.Fill(m - 1);
      FillCons(m);
      assert w + IdMrz.Fill(m) == w + "<" + f;
      PiecesAfterWord(w, f);
      FillPieces(m - 1);
    }
  }

  lemma FillCons(m: nat)
    requires m > 0
    ensures IdMrz.Fill(m) == "<" + IdMrz.Fill(m - 1)
  {
  }

  /** A word of capitals and a filler in front of `x` add that word to the
      name pieces of `x`. */
  lemma PiecesAfterWord(w: string, x: string)
    requires IdMrz.NameWord(w)
    ensures NameParts(SplitChar(w + "<" + x, '<')) == [w] + NameParts(SplitChar(x, '<'))
  {
    SplitAfterWord(w, x);
    WordPiece(w);
    NamePartsCons(w, SplitChar(x, '<'));
  }

  lemma NamePartsCons(p: string, ps: seq<string>)
    ensures NameParts([p] + ps) == (if NamePiece(p) then [Strip(RemoveChar(p, '<'))] else []) + NameParts(ps)
  {
    assert ([p] + ps)[0] == p && ([p] + ps)[1..] == ps;
  }

  /** Words of capitals joined by fillers are in the MRZ alphabet. */
  lemma {:induction false} JoinWordsMrz(ws: seq<string>)
    requires forall k :: 0 <= k < |ws| ==> IdMrz.NameWord(ws[k])
    ensures forall i :: 0 <= i < |Join(ws, "<")| ==> MrzChar(Join(ws, "<")[i])
  {
    if |ws| > 1 {
      JoinWordsMrz(ws[1..]);
      var j := Join(ws, "<");
      assert j == ws[0] + "<" + Join(ws[1..], "<");
      assert forall i :: |ws[0]| + 1 <= i < |j| ==> j[i] == Join(ws[1..], "<")[i - |ws[0]| - 1];
    }
  }

  /** What the two TD3 lines of a passport say about its holder. */
  datatype Holder = Holder(
    number: string, surname: string, names: seq<string>, birth: Date, sex: char, expiry: Date)

  /** The holders the two 44-character lines can carry: a nine-character
      passport number, names in capitals that fit line 1, dates of the
      window 1950-2049 that pass the loose check, and `M`, `F` or `<` (unspecified) for the sex. */
  predicate Encodable(h: Holder) {
    |h.number| == 9 && Alphanumeric(h.number)
    && IdMrz.NameWord(h.surname) && (forall k :: 0 <= k < |h.names| ==> IdMrz.NameWord(h.names[k]))
    && 7 + |h.surname| + |Join(h.names, "<")| <= 44
    && InRange(h.birth) && 1950 <= h.birth.year <= 2049 && Plausible(h.birth)
    && InRange(h.expiry) && 1950 <= h.expiry.year <= 2049 && Plausible(h.expiry)
    && (h.sex == 'M' || h.sex == 'F' || h.sex == '<')
  }

  /** Line 1 of a TD3 passport issued by Uzbekistan: `P<UZB`, the surname,
      `<<`, the given names separated by `<`, and fillers to 44 characters. */
  function EncodeLine1(h: Holder): (l1: string)
    requires Encodable(h)
    ensures |l1| == 44
  {
    var given := Join(h.names, "<");
    "P<UZB" + h.surname + "<<" + given + IdMrz.Fill(37 - |h.surname| - |given|)
  }

  /** Line 2: the passport number and its check digit, the nationality, the
      birth date and its check digit, the sex, the expiry and its check digit;
      the personal number and the last two check digits, which nothing here
      reads, are fillers. */
  function EncodeLine2(h: Holder): (l2: string)
    requires Encodable(h)
    ensures |l2| == 44
  {
    var b := Digits6(h.birth);
    var e := Digits6(h.expiry);
    h.number + [IdMrz.CheckDigitOf(h.number)] + "UZB" + b + [IdMrz.CheckDigitOf(b)] + [h.sex]
    + e + [IdMrz.CheckDigitOf(e)] + IdMrz.Fill(16)
  }

  /** The decoded fields of an encoded holder: the given names after the first
      are read as the patronymic. */
  function Expected(h: Holder): Td3
    requires Encodable(h)
  {
    Td3(Some(h.surname),
        if |h.names| >= 1 then Some(h.names[0]) else None,
        if |h.names| >= 2 then Some(Join(h.names[1..], " ")) else None,
        Some(h.number), Some(Format(h.birth)), SexOf(h.sex), Some(Format(h.expiry)))
  }

  /** Decoding the lines of a holder gives back every field the decoder reads. */
  lemma DecodeEncodeTd3(h: Holder)
    requires Encodable(h)
    ensures ParseMrzTd3(Some(EncodeLine1(h)), Some(EncodeLine2(h))) == Expected(h)
  {
    DecodeLine1(h);
    DecodeLine2(h);
  }

  lemma DecodeLine1(h: Holder)
    requires Encodable(h)
    ensures var r := ParseMrzTd3(Some(EncodeLine1(h)), None);
      r.surname == Expected(h).surname && r.givenName == Expected(h).givenName
      && r.patronymic == Expected(h).patronymic
  {
    var l1 := EncodeLine1(h);
    assert l1[..2] == "P<";
    NamesOfLine1(h);
  }

  lemma NamesOfLine1(h: Holder)
    requires Encodable(h)
    ensures Names(EncodeLine1(h)[5..]) == (Expected(h).surname, Expected(h).givenName, Expected(h).patronymic)
  {
    var l1 := EncodeLine1(h);
    var given := Join(h.names, "<");
    var m := 37 - |h.surname| - |given|;
    assert l1[5..] == h.surname + "<<" + (given + IdMrz.Fill(m));
    NamesOfWords(h.surname, h.names, m);
  }

  /** A surname, `<<`, given names separated by fillers and trailing fillers
      read back as the surname, the first given name and the others joined by
      spaces. */
  lemma NamesOfWords(surname: string, names: seq<string>, m: nat)
    requires IdMrz.NameWord(surname) && forall k :: 0 <= k < |names| ==> IdMrz.NameWord(names[k])
    ensures Names(surname + "<<" + (Join(names, "<") + IdMrz.Fill(m))) ==
              (Some(surname), if |names| >= 1 then Some(names[0]) else None,
               if |names| >= 2 then Some(Join(names[1..], " ")) else None)
  {
    NamesOfPayload(surname, Join(names, "<") + IdMrz.Fill(m));
    NamePartsOfWords(names, m);
    if |names| >= 2 {
      JoinNonEmpty(names[1..], " ");
    }
  }

  lemma DecodeLine2(h: Holder)
    requires Encodable(h)
    ensures var r := ParseMrzTd3(None, Some(EncodeLine2(h)));
      r.cardNumber == Some(h.number) && r.dateOfBirth == Some(Format(h.birth))
      && r.sex == SexOf(h.sex) && r.dateOfExpiry == Some(Format(h.expiry))
  {
    var l2 := EncodeLine2(h);
    var b := Digits6(h.birth);
    var e := Digits6(h.expiry);
    assert l2[0..9] == h.number;
    assert l2[13..19] == b;
    assert l2[20] == h.sex;
    assert l2[21..27] == e;
    assert '<' !in h.number by {
      forall i | 0 <= i < 9 ensures h.number[i] != '<' {
        assert IsUpper(h.number[i]) || IsDigit(h.number[i]);
      }
    }
    RemoveAbsent(h.number, '<');
    FromMrzYymmddRoundTrip(h.birth);
    FromMrzYymmddRoundTrip(h.expiry);
  }

  /** The two encoded lines, given as two tokens, are found as they are. */
  lemma FindEncoded(h: Holder)
    requires Encodable(h)
    ensures MrzLines([EncodeLine1(h), EncodeLine2(h)]) == (Some(EncodeLine1(h)), Some(EncodeLine2(h)))
  {
    var l1: string := EncodeLine1(h);
    var l2: string := EncodeLine2(h);
    EncodedCandidates(h);
    var cs := Candidates([l1, l2]);
    assert l1[..2] == "P<";
    assert l1[..44] == l1 && l2[..44] == l2;
    assert FirstLine1(cs) == Some(l1);
    assert cs[1..][0] == l2;
    assert FirstLine2(cs[1..]) == Some(l2);
  }

  /** The encoded lines are the first two candidates, in order. */
  lemma EncodedCandidates(h: Holder)
    requires Encodable(h)
    ensures var cs := Candidates([EncodeLine1(h), EncodeLine2(h)]);
      |cs| >= 2 && cs[0] == EncodeLine1(h) && cs[1] == EncodeLine2(h) && !StartsWith(cs[1], "P<")
  {
    var l1: string := EncodeLine1(h);
    var l2: string := EncodeLine2(h);
    EncodedKept(h);
    var tokens: seq<string> := [l1, l2];
    var first: seq<string> := [l1];
    assert tokens[..1] == first && first[..0] == [];
    assert Singles(first) == [l1];
    assert Singles(tokens) == [l1, l2];
  }

  /** Each encoded line is kept as a candidate from its own token. */
  lemma EncodedKept(h: Holder)
    requires Encodable(h)
    ensures Kept(Sanitize(EncodeLine1(h))) == [EncodeLine1(h)]
    ensures Kept(Sanitize(EncodeLine2(h))) == [EncodeLine2(h)] && !StartsWith(EncodeLine2(h), "P<")
  {
    var l1: string := EncodeLine1(h);
    var l2: string := EncodeLine2(h);
    Line1Alphabet(h);
    Line2Alphabet(h);
    assert l1[..5] == "P<UZB";
    assert l2[1] == h.number[1];
    KeptLine1(l1);
    KeptLine2(l2);
  }

  lemma KeptLine1(l1: string)
    requires |l1| == 44 && (forall i :: 0 <= i < 44 ==> MrzChar(l1[i])) && l1[..5] == "P<UZB"
    ensures Kept(Sanitize(l1)) == [l1]
  {
    SanitizeMrzText(l1);
    assert l1[0] == 'P' && l1[1] == '<' && l1[2] == 'U' && l1[3] == 'Z' && l1[4] == 'B';
  }

  lemma KeptLine2(l2: string)
    requires |l2| == 44 && (forall i :: 0 <= i < 44 ==> MrzChar(l2[i])) && l2[1] != '<'
    ensures Kept(Sanitize(l2)) == [l2] && !StartsWith(l2, "P<")
  {
    SanitizeMrzText(l2);
  }

  lemma Line1Alphabet(h: Holder)
    requires Encodable(h)
    ensures forall i :: 0 <= i < 44 ==> MrzChar(EncodeLine1(h)[i])
  {
    var given := Join(h.names, "<");
    JoinWordsMrz(h.names);
    var l1 := EncodeLine1(h);
    var k := 7 + |h.surname|;
    assert forall i :: 5 <= i < 5 + |h.surname| ==> l1[i] == h.surname[i - 5];
    assert forall i :: k <= i < k + |given| ==> l1[i] == given[i - k];
  }

  lemma Line2Alphabet(h: Holder)
    requires Encodable(h)
    ensures forall i :: 0 <= i < 44 ==> MrzChar(EncodeLine2(h)[i])
  {
    var b := Digits6(h.birth);
    var e := Digits6(h.expiry);
    var l2 := EncodeLine2(h);
    assert forall i :: 0 <= i < 9 ==> l2[i] == h.number[i];
    assert forall i :: 13 <= i < 19 ==> l2[i] == b[i - 13];
    assert forall i :: 21 <= i < 27 ==> l2[i] == e[i - 21];
  }

  /** Found and decoded, the two lines of a holder give back every field
      the decoder reads. */
  lemma FindAndDecode(h: Holder)
    requires Encodable(h)
    ensures var (l1, l2) := MrzLines([EncodeLine1(h), EncodeLine2(h)]);
      ParseMrzTd3(l1, l2) == Expected(h)
  {
    FindEncoded(h);
    DecodeEncodeTd3(h);
  }
}

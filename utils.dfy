/** Key normalisation, the noise filter and the fuzzy label lookup. */
module Utils {
  import opened Wrappers
  import opened Text
  import opened Constants
  import opened Fields

  /** The characters key mode removes: whitespace and `: / ( ) [ ] . , ' -`. */
  predicate KeySeparator(c: char) { IsSpace(c) || c in ":/()[].,'-" }

  /** The characters value mode removes: `: / ( ) [ ] . ,`. */
  predicate ValueSeparator(c: char) { c in ":/()[].," }

  function KeepInKey(c: char): bool { !KeySeparator(c) }
  function KeepInValue(c: char): bool { !ValueSeparator(c) }

  /** `norm_key(s, value)`: trimmed, lower-cased, look-alikes translated, then
      every run of separators removed. */
  function NormKey(s: string, value: bool): string {
    var t := Translate(Lower(Strip(s)));
    if value then Filter(t, KeepInValue) else Filter(t, KeepInKey)
  }

  /** A normalised key holds no capital, apostrophe or value separator, no
      dash but the ASCII hyphen and, for a caption, no separator at all. */
  lemma NormKeyClean(s: string, value: bool)
    ensures var r := NormKey(s, value);
      && (forall c :: c in r ==> !IsUpper(c) && c !in Apostrophes && !ValueSeparator(c))
      && (forall c :: c in r ==> c in Hyphens ==> c == '-')
      && (!value ==> forall c :: c in r ==> !KeySeparator(c) && c !in Hyphens)
  {
    var l := Lower(Strip(s));
    var t := Translate(l);
    TranslateClears(l);
    assert forall c :: c in t ==> !IsUpper(c) by {
      forall c | c in t ensures !IsUpper(c) {
        var i :| 0 <= i < |t| && t[i] == c;
        assert l[i] in l;
      }
    }
  }

  lemma LowerOfLower(s: string)
    requires forall c :: c in s ==> !IsUpper(c)
    ensures Lower(s) == s
  {
    forall i | 0 <= i < |s| ensures Lower(s)[i] == s[i] {
      assert s[i] in s;
    }
  }

  lemma TranslateFixed(s: string)
    requires forall c :: c in s ==> c !in Apostrophes && c !in Hyphens
    ensures Translate(s) == s
  {
    forall i | 0 <= i < |s| ensures Translate(s)[i] == s[i] {
      assert s[i] in s;
    }
  }


  /** Key-mode normalisation is idempotent: a normalised label stays put. */
  lemma NormKeyIdempotent(s: string)
    ensures NormKey(NormKey(s, false), false) == NormKey(s, false)
  {
    var r := NormKey(s, false);
    NormKeyClean(s, false);
    if r != [] {
      assert r[0] in r && r[|r| - 1] in r;
    }
    StripOfStripped(r);
    LowerOfLower(r);
    TranslateFixed(r);
    FilterKeepsAll(r, KeepInKey);
  }

  /** A lower-case word of letters and digits is already a normalised key. */
  lemma NormKeyOfPlain(s: string)
    requires forall c :: c in s ==> IsLower(c) || IsDigit(c)
    ensures NormKey(s, false) == s
  {
    if s != [] {
      assert s[0] in s && s[|s| - 1] in s;
    }
    forall c | c in s ensures !IsUpper(c) && c !in Apostrophes && c !in Hyphens && KeepInKey(c) {
      PlainChar(c);
    }
    StripOfStripped(s);
    LowerOfLower(s);
    TranslateFixed(s);
    FilterKeepsAll(s, KeepInKey);
  }

  lemma PlainChar(c: char)
    requires IsLower(c) || IsDigit(c)
    ensures !IsSpace(c) && !IsUpper(c) && c !in Apostrophes && c !in Hyphens && KeepInKey(c)
  {
  }

  /** Two words joined by any one separator normalise to the two words run
      together, so captions that differ only in their separator collapse to
      the same key (`"familiyasi/surname"` and `"familiyasi surname"`). */
  lemma NormKeyJoin(a: string, c: char, b: string)
    requires a != [] && b != [] && KeySeparator(c)
    requires forall x :: x in a ==> IsLower(x) || IsDigit(x)
    requires forall x :: x in b ==> IsLower(x) || IsDigit(x)
    ensures NormKey(a + [c] + b, false) == a + b
  {
    var s := a + [c] + b;
    assert a[0] in a && b[|b| - 1] in b;
    assert s[0] == a[0] && s[|s| - 1] == b[|b| - 1];
    assert forall x :: x in s ==> x in a || x == c || x in b;
    NormKeyUnfold(s);
    var c' := TranslateChar(c);
    TranslateJoin(a, c, b);
    SeparatorTranslates(c);
    FilterJoin(a, c', b);
  }

  /** Three words joined by two separators normalise to the words run together. */
  lemma NormKeyJoin3(a: string, c: char, b: string, e: char, f: string)
    requires a != [] && b != [] && f != [] && KeySeparator(c) && KeySeparator(e)
    requires forall x :: x in a ==> IsLower(x) || IsDigit(x)
    requires forall x :: x in b ==> IsLower(x) || IsDigit(x)
    requires forall x :: x in f ==> IsLower(x) || IsDigit(x)
    ensures NormKey(a + [c] + b + [e] + f, false) == a + b + f
  {
    var s := a + [c] + b + [e] + f;
    JoinedTrimmed(a, c, b, e, f);
    NormKeyUnfold(s);
    TranslateJoin3(a, c, b, e, f);
    SeparatorTranslates(c);
    SeparatorTranslates(e);
    FilterJoin3(a, TranslateChar(c), b, TranslateChar(e), f);
  }

  lemma JoinedTrimmed(a: string, c: char, b: string, e: char, f: string)
    requires a != [] && f != [] && KeySeparator(c) && KeySeparator(e)
    requires forall x :: x in a ==> IsLower(x) || IsDigit(x)
    requires forall x :: x in b ==> IsLower(x) || IsDigit(x)
    requires forall x :: x in f ==> IsLower(x) || IsDigit(x)
    ensures var s := a + [c] + b + [e] + f;
      !IsSpace(s[0]) && !IsSpace(s[|s| - 1]) && forall x :: x in s ==> !IsUpper(x)
  {
    var s := a + [c] + b + [e] + f;
    assert a[0] in a && f[|f| - 1] in f;
    assert s[0] == a[0] && s[|s| - 1] == f[|f| - 1];
    assert forall x :: x in s ==> x in a || x == c || x in b || x == e || x in f;
  }

  lemma TranslateJoin3(a: string, c: char, b: string, e: char, f: string)
    requires forall x :: x in a ==> IsLower(x) || IsDigit(x)
    requires forall x :: x in b ==> IsLower(x) || IsDigit(x)
    requires forall x :: x in f ==> IsLower(x) || IsDigit(x)
    ensures Translate(a + [c] + b + [e] + f) == a + [TranslateChar(c)] + b + [TranslateChar(e)] + f
  {
    TranslateJoin(a, c, b);
    TranslateJoin([], e, f);
    assert [] + [e] + f == [e] + f;
    TranslateAppend(a + [c] + b, [e] + f);
    assert a + [c] + b + [e] + f == (a + [c] + b) + ([e] + f);
  }

  lemma FilterJoin3(a: string, c: char, b: string, e: char, f: string)
    requires !KeepInKey(c) && !KeepInKey(e)
    requires forall x :: x in a ==> IsLower(x) || IsDigit(x)
    requires forall x :: x in b ==> IsLower(x) || IsDigit(x)
    requires forall x :: x in f ==> IsLower(x) || IsDigit(x)
    ensures Filter(a + [c] + b + [e] + f, KeepInKey) == a + b + f
  {
    var p := a + [c] + b;
    FilterJoin(a, c, b);
    FilterPlain(f);
    assert Filter([e], KeepInKey) == [] by {
      assert [e][1..] == [];
    }
    FilterAppend(p, [e], KeepInKey);
    assert Filter(p + [e], KeepInKey) == a + b;
    FilterAppend(p + [e], f, KeepInKey);
  }

  /** On a trimmed string without capitals, key normalisation is translation then filtering. */
  lemma NormKeyUnfold(s: string)
    requires s == [] || (!IsSpace(s[0]) && !IsSpace(s[|s| - 1]))
    requires forall x :: x in s ==> !IsUpper(x)
    ensures NormKey(s, false) == Filter(Translate(s), KeepInKey)
  {
    StripOfStripped(s);
    LowerOfLower(s);
  }

  lemma TranslateJoin(a: string, c: char, b: string)
    requires forall x :: x in a ==> IsLower(x) || IsDigit(x)
    requires forall x :: x in b ==> IsLower(x) || IsDigit(x)
    ensures Translate(a + [c] + b) == a + [TranslateChar(c)] + b
  {
    forall x | x in a || x in b ensures x !in Apostrophes && x !in Hyphens {
      PlainChar(x);
    }
    TranslateFixed(a);
    TranslateFixed(b);
    TranslateAppend(a + [c], b);
    TranslateAppend(a, [c]);
  }

  lemma FilterJoin(a: string, c: char, b: string)
    requires !KeepInKey(c)
    requires forall x :: x in a ==> IsLower(x) || IsDigit(x)
    requires forall x :: x in b ==> IsLower(x) || IsDigit(x)
    ensures Filter(a + [c] + b, KeepInKey) == a + b
  {
    FilterPlain(a);
    FilterPlain(b);
    assert Filter(a + [c], KeepInKey) == a by {
      assert Filter([c], KeepInKey) == [] by {
        assert [c][1..] == [];
      }
      FilterAppend(a, [c], KeepInKey);
    }
    FilterAppend(a + [c], b, KeepInKey);
  }

  lemma FilterPlain(a: string)
    requires forall x :: x in a ==> IsLower(x) || IsDigit(x)
    ensures Filter(a, KeepInKey) == a
  {
    forall x | x in a ensures KeepInKey(x) { PlainChar(x); }
    FilterKeepsAll(a, KeepInKey);
  }

  lemma SeparatorTranslates(c: char)
    requires KeySeparator(c)
    ensures !KeepInKey(TranslateChar(c))
  {
  }

  lemma TranslateAppend(x: string, y: string)
    ensures Translate(x + y) == Translate(x) + Translate(y)
  {
  }

  lemma {:induction false} FilterAppend(x: string, y: string, keep: char -> bool)
    ensures Filter(x + y, keep) == Filter(x, keep) + Filter(y, keep)
  {
    if x == [] {
      assert x + y == y;
    } else {
      var xy := x + y;
      assert xy[0] == x[0] && xy[1..] == x[1..] + y;
      FilterAppend(x[1..], y, keep);
      assert Filter(xy, keep) == (if keep(x[0]) then [x[0]] else []) + Filter(x[1..] + y, keep);
      assert Filter(x, keep) == (if keep(x[0]) then [x[0]] else []) + Filter(x[1..], keep);
    }
  }

  /** A letter or digit of a caption survives key normalisation. */
  lemma NormKeyKeeps(s: string, c: char)
    requires IsLower(c) || IsDigit(c)
    requires c in s
    ensures c in NormKey(s, false)
  {
    PlainChar(c);
    StripKeeps(s, c);
    var t := Strip(s);
    var j :| 0 <= j < |t| && t[j] == c;
    assert Lower(t)[j] == c;
    assert Translate(Lower(t))[j] == c;
  }

  /** Trimming removes only whitespace, so a visible character stays. */
  lemma StripKeeps(s: string, c: char)
    requires c in s && !IsSpace(c)
    ensures c in Strip(s)
  {
    var i :| 0 <= i < |s| && s[i] == c;
    StripLeftDrops(s);
    var l := StripLeft(s);
    var k := i - (|s| - |l|);
    assert 0 <= k < |l| && l[k] == c;
    StripRightDrops(l);
    assert k < |StripRight(l)|;
    assert StripRight(l)[k] == c;
  }

  /** A caption never normalises to a key `w` it would have to lose a letter
      or digit to reach, nor to one longer than itself. */
  lemma NormKeyDiffers(s: string, w: string, c: char)
    requires (IsLower(c) || IsDigit(c)) && c in s && c !in w
    ensures NormKey(s, false) != w
  {
    NormKeyKeeps(s, c);
  }

  lemma NormKeyShorter(s: string, w: string)
    requires |s| < |w|
    ensures NormKey(s, false) != w
  {
  }

  /** Normalisation trims first, so surrounding whitespace never matters. */
  lemma NormKeyOfStripped(s: string, value: bool)
    ensures NormKey(s, value) == NormKey(Strip(s), value)
  {
    StripIdempotent(s);
  }

  /** Value mode strips whitespace before removing separators, so a separator
      that shielded whitespace exposes it: `"( x)"` normalises to `" x"`, which
      normalises further to `"x"`.  Value mode is therefore not idempotent. */
  lemma ValueModeNotIdempotent()
    ensures NormKey("( x)", true) == " x"
    ensures NormKey(" x", true) == "x"
  {
    NormOfParenthesised();
    NormOfLeadingSpace();
  }

  lemma NormOfParenthesised()
    ensures NormKey("( x)", true) == " x"
  {
    TranslateFixed("( x)");
    LowerOfLower("( x)");
    StripOfStripped("( x)");
    FilterParenthesised();
  }

  lemma NormOfLeadingSpace()
    ensures NormKey(" x", true) == "x"
  {
    StripLeadingSpace();
    NormKeyOfStripped(" x", true);
    NormOfX();
  }

  lemma FilterParenthesised()
    ensures Filter("( x)", KeepInValue) == " x"
  {
    assert ")"[1..] == [] && "x)"[1..] == ")" && " x)"[1..] == "x)" && "( x)"[1..] == " x)";
    assert !KeepInValue(')') && KeepInValue('x') && KeepInValue(' ') && !KeepInValue('(');
    assert Filter(")", KeepInValue) == [];
    assert Filter("x)", KeepInValue) == "x";
    assert Filter(" x)", KeepInValue) == " x";
  }

  lemma StripLeadingSpace()
    ensures Strip(" x") == "x"
  {
    assert StripLeft(" x") == "x" by {
      assert " x"[1..] == "x";
      assert !IsSpace('x');
    }
  }

  lemma NormOfX()
    ensures NormKey("x", true) == "x"
  {
    FilterOfX();
    StripOfStripped("x");
    LowerOfLower("x");
    TranslateFixed("x");
  }

  lemma FilterOfX()
    ensures Filter("x", KeepInValue) == "x"
  {
    assert "x"[1..] == "";
  }

  /** `is_noise(t)`: blank, one character, or containing a boilerplate phrase
      once trimmed and upper-cased. */
  predicate Noise(t: string) {
    var up := Upper(Strip(t));
    |up| <= 1 || exists p :: p in NoiseSubstrings && Contains(up, p)
  }

  method IsNoise(t: string) returns (b: bool)
    ensures b == Noise(t)
  {
    if t == [] {
      return true;
    }
    var tt := Strip(t);
    if tt == [] {
      return true;
    }
    var up := Upper(tt);
    if |up| <= 1 {
      return true;
    }
    for k := 0 to |NoiseSubstrings|
      invariant forall j :: 0 <= j < k ==> !Contains(up, NoiseSubstrings[j])
    {
      if Contains(up, NoiseSubstrings[k]) {
        return true;
      }
    }
    return false;
  }

  /** The phrases no other phrase subsumes: all but the two-language banner
      (it contains both halves), `CAMSCANNER` and `SCANNED` (they contain
      `SCAN`) and `PHOTOC` (it contains `PHOTO`). */
  function ReducedNoise(): (r: seq<string>)
    ensures forall p :: p in r ==> p in NoiseSubstrings
  {
    var n := NoiseSubstrings;
    [n[1], n[2], n[3], n[4], n[5], n[7], n[10], n[11], n[12]]
  }

  /** A phrase left out of `ReducedNoise` contains one that is kept. */
  lemma Subsumed(k: nat)
    requires k == 0 || k == 6 || k == 8 || k == 9
    ensures exists p :: p in ReducedNoise() && Contains(NoiseSubstrings[k], p)
  {
    var n := NoiseSubstrings;
    if k == 0 {
      assert OccursAt(n[0], n[1], 0);
      assert n[1] in ReducedNoise();
    } else if k == 6 {
      assert OccursAt(n[6], n[12], 3);
      assert n[12] in ReducedNoise();
    } else if k == 8 {
      assert OccursAt(n[8], n[10], 0);
      assert n[10] in ReducedNoise();
    } else {
      assert OccursAt(n[9], n[12], 0);
      assert n[12] in ReducedNoise();
    }
  }

  /** The noise test with only the nine unsubsumed phrases decides the same. */
  lemma NoiseReduced(t: string)
    ensures Noise(t) <==> var up := Upper(Strip(t));
                          |up| <= 1 || exists p :: p in ReducedNoise() && Contains(up, p)
  {
    var up := Upper(Strip(t));
    forall p | p in NoiseSubstrings && Contains(up, p)
      ensures exists p' :: p' in ReducedNoise() && Contains(up, p')
    {
      ReducedCovers(up, p);
    }
  }

  /** A text containing some phrase contains one of the nine unsubsumed ones. */
  lemma ReducedCovers(up: string, p: string)
    requires p in NoiseSubstrings && Contains(up, p)
    ensures exists p' :: p' in ReducedNoise() && Contains(up, p')
  {
    if p !in ReducedNoise() {
      var k :| 0 <= k < |NoiseSubstrings| && NoiseSubstrings[k] == p;
      assert forall j :: 0 <= j < |NoiseSubstrings| && j != 0 && j != 6 && j != 8 && j != 9
                         ==> NoiseSubstrings[j] in ReducedNoise();
      Subsumed(k);
      var p' :| p' in ReducedNoise() && Contains(p, p');
      ContainsTransitive(up, p, p');
    }
  }

  /** A scanner watermark is noise. */
  lemma WatermarkIsNoise()
    ensures Noise("CAMSCANNER")
  {
    var w := "CAMSCANNER";
    StripOfStripped(w);
    UpperOfUpper(w);
    assert Upper(Strip(w)) == w;
    var p := NoiseSubstrings[6];
    assert p == w && p in NoiseSubstrings;
    assert OccursAt(w, p, 0);
    assert Contains(Upper(Strip(w)), p);
  }

  /** A three-character code is not noise: every phrase is longer. */
  lemma ShortCodeIsNotNoise()
    ensures !Noise("AD1")
  {
    StripOfStripped("AD1");
    UpperOfUpper("AD1");
    NoisePhrasesLength();
  }

  /** A single character surrounded by blanks is noise. */
  lemma SingleCharacterIsNoise(c: char)
    requires !IsSpace(c)
    ensures Noise([' ', c, ' '])
  {
    var s := [' ', c, ' '];
    assert StripLeft(s) == [c, ' '] by {
      assert s[1..] == [c, ' '];
    }
    assert StripRight([c, ' ']) == [c] by {
      assert [c, ' '][..1] == [c];
    }
  }

  /** A label dictionary: fields with their variants, in insertion order. */
  type Dict = seq<(Field, seq<string>)>

  function Keys(d: Dict): (ks: seq<Field>)
    ensures |ks| == |d| && forall i :: 0 <= i < |d| ==> ks[i] == d[i].0
  {
    seq(|d|, i requires 0 <= i < |d| => d[i].0)
  }

  /** A dictionary has each key once. */
  predicate DistinctKeys(d: Dict) {
    forall i, j :: 0 <= i < j < |d| ==> d[i].0 != d[j].0
  }

  /** `SequenceMatcher(None, a, b)`'s count of matched characters, of which only
      what `ratio` relies on is known: at most the average length, and the
      average length exactly when the strings are equal. */
  type MatchCount = f: (string, string) -> nat
    | forall a, b :: 2 * f(a, b) <= |a| + |b| && (2 * f(a, b) == |a| + |b| <==> a == b)
    witness (a: string, b: string) => if a == b then |a| else 0

  /** `similarity(a, b)`: `2M / (|a| + |b|)`, and 1 for two empty strings. */
  function Similarity(sim: MatchCount, a: string, b: string): (r: real)
    ensures 0.0 <= r <= 1.0
    ensures r == 1.0 <==> a == b
  {
    var m := sim(a, b);
    var t := |a| + |b|;
    if t == 0 then 1.0 else
      RatioBounds(2 * m, t);
      (2 * m) as real / t as real
  }

  lemma RatioBounds(n: nat, t: nat)
    requires 0 < t && n <= t
    ensures 0.0 <= n as real / t as real <= 1.0
    ensures n as real / t as real == 1.0 <==> n == t
  {
    var q := n as real / t as real;
    assert q * t as real == n as real;
  }

  /** The 0.75 threshold as the integer test `8M >= 3(|a| + |b|)`. */
  lemma ThresholdExact(sim: MatchCount, a: string, b: string)
    requires a != [] || b != []
    ensures Similarity(sim, a, b) >= 0.75 <==> 8 * sim(a, b) >= 3 * (|a| + |b|)
  {
    ThresholdRatio(sim(a, b), |a| + |b|);
  }

  lemma ThresholdRatio(m: nat, t: nat)
    requires t > 0
    ensures (2 * m) as real / t as real >= 0.75 <==> 8 * m >= 3 * t
  {
    var tr := t as real;
    var q := (2 * m) as real / tr;
    assert q * tr == (2 * m) as real;
    if q >= 0.75 {
      if q > 0.75 {
        MulMono(0.75, q, tr);
      }
    } else {
      MulMono(q, 0.75, tr);
    }
  }

  lemma MulMono(a: real, b: real, t: real)
    requires t > 0.0 && a < b
    ensures a * t < b * t
  {
  }

  /** Every (field, variant) pair in iteration order. */
  function Pairs(d: Dict): (ps: seq<(Field, string)>)
  {
    if d == [] then [] else Pairs(d[..|d| - 1]) + EntryPairs(d[|d| - 1])
  }

  function EntryPairs(e: (Field, seq<string>)): (ps: seq<(Field, string)>)
    ensures |ps| == |e.1| && forall k :: 0 <= k < |ps| ==> ps[k] == (e.0, e.1[k])
  {
    seq(|e.1|, k requires 0 <= k < |e.1| => (e.0, e.1[k]))
  }

  /** The accumulator of the scan: a pair replaces the best so far only when it scores strictly higher. */
  function Best(sim: MatchCount, nk: string, ps: seq<(Field, string)>): Option<(Field, real)>
  {
    if ps == [] then None
    else
      var b := Best(sim, nk, ps[..|ps| - 1]);
      var sv := Similarity(sim, nk, ps[|ps| - 1].1);
      if b.None? || sv > b.value.1 then Some((ps[|ps| - 1].0, sv)) else b
  }

  /** `best_label_match(token, labels)` with the default threshold. */
  function BestLabel(sim: MatchCount, token: string, labels: Dict): Option<(Field, real)> {
    var nk := NormKey(token, false);
    if nk == [] then None
    else
      var b := Best(sim, nk, Pairs(labels));
      if b.Some? && b.value.1 >= 0.75 then b else None
  }

  method BestLabelMatch(sim: MatchCount, token: string, labels: Dict) returns (r: Option<(Field, real)>)
    ensures r == BestLabel(sim, token, labels)
  {
    var nk := NormKey(token, false);
    if nk == [] {
      return None;
    }
    var best: Option<(Field, real)> := None;
    for i := 0 to |labels|
      invariant best == Best(sim, nk, Pairs(labels[..i]))
    {
      var (field, variants) := labels[i];
      assert Pairs(labels[..i]) + EntryPairs(labels[i])[..0] == Pairs(labels[..i]);
      for k := 0 to |variants|
        invariant best == Best(sim, nk, Pairs(labels[..i]) + EntryPairs(labels[i])[..k])
      {
        var sv := Similarity(sim, nk, variants[k]);
        assert EntryPairs(labels[i])[k] == (field, variants[k]);
        BestStep(sim, nk, Pairs(labels[..i]), EntryPairs(labels[i]), k);
        if best.None? || sv > best.value.1 {
          best := Some((field, sv));
        }
      }
      PairsStep(labels, i);
    }
    assert labels[..|labels|] == labels;
    if best.Some? && best.value.1 >= 0.75 {
      return best;
    }
    return None;
  }

  /** One more pair scanned. */
  lemma BestStep(sim: MatchCount, nk: string, base: seq<(Field, string)>, es: seq<(Field, string)>, k: nat)
    requires k < |es|
    ensures Best(sim, nk, base + es[..k + 1]) ==
              var b := Best(sim, nk, base + es[..k]);
              var sv := Similarity(sim, nk, es[k].1);
              if b.None? || sv > b.value.1 then Some((es[k].0, sv)) else b
  {
    var ps := base + es[..k];
    assert base + es[..k + 1] == ps + [es[k]];
    assert (ps + [es[k]])[..|ps|] == ps;
  }

  /** One more entry scanned. */
  lemma PairsStep(d: Dict, i: nat)
    requires i < |d|
    ensures Pairs(d[..i]) + EntryPairs(d[i])[..|d[i].1|] == Pairs(d[..i + 1])
  {
    assert d[..i + 1][..i] == d[..i];
    assert EntryPairs(d[i])[..|d[i].1|] == EntryPairs(d[i]);
  }

  /** The scan keeps the first pair of maximal score: nothing scores higher,
      and every earlier pair scores strictly lower. */
  lemma {:induction false} BestFirstMax(sim: MatchCount, nk: string, ps: seq<(Field, string)>)
    ensures Best(sim, nk, ps).None? <==> ps == []
    ensures Best(sim, nk, ps).Some? ==>
              exists i :: 0 <= i < |ps| && Best(sim, nk, ps) == Some((ps[i].0, Similarity(sim, nk, ps[i].1)))
                          && forall j :: 0 <= j < i ==> Similarity(sim, nk, ps[j].1) < Best(sim, nk, ps).value.1
    ensures Best(sim, nk, ps).Some? ==>
              forall j :: 0 <= j < |ps| ==> Similarity(sim, nk, ps[j].1) <= Best(sim, nk, ps).value.1
  {
    if ps != [] {
      var init := ps[..|ps| - 1];
      BestFirstMax(sim, nk, init);
      var b := Best(sim, nk, init);
      var sv := Similarity(sim, nk, ps[|ps| - 1].1);
      if b.None? || sv > b.value.1 {
        var i := |ps| - 1;
        assert forall j :: 0 <= j < i ==> ps[j] == init[j];
      } else {
        var i :| 0 <= i < |init| && b == Some((init[i].0, Similarity(sim, nk, init[i].1)))
                 && forall j :: 0 <= j < i ==> Similarity(sim, nk, init[j].1) < b.value.1;
        assert ps[i] == init[i];
        assert forall j :: 0 <= j < i ==> ps[j] == init[j];
        assert forall j :: 0 <= j < |init| ==> ps[j] == init[j];
      }
    }
  }

  /** A token whose key equals a variant is matched, with score 1, to the field
      of the first pair holding that variant. */
  lemma ExactKeyWins(sim: MatchCount, token: string, labels: Dict, i: nat)
    requires NormKey(token, false) != []
    requires i < |Pairs(labels)| && Pairs(labels)[i].1 == NormKey(token, false)
    requires forall j :: 0 <= j < i ==> Pairs(labels)[j].1 != NormKey(token, false)
    ensures BestLabel(sim, token, labels) == Some((Pairs(labels)[i].0, 1.0))
  {
    BestExactFirst(sim, NormKey(token, false), Pairs(labels), i);
  }

  /** The scan over pairs settles, with score 1, on the first pair holding the key itself. */
  lemma BestExactFirst(sim: MatchCount, nk: string, ps: seq<(Field, string)>, i: nat)
    requires nk != [] && i < |ps| && ps[i].1 == nk
    requires forall j :: 0 <= j < i ==> ps[j].1 != nk
    ensures Best(sim, nk, ps) == Some((ps[i].0, 1.0))
  {
    BestFirstMax(sim, nk, ps);
    var b := Best(sim, nk, ps);
    var i' :| 0 <= i' < |ps| && b == Some((ps[i'].0, Similarity(sim, nk, ps[i'].1)))
              && forall j :: 0 <= j < i' ==> Similarity(sim, nk, ps[j].1) < b.value.1;
    assert Similarity(sim, nk, ps[i].1) == 1.0;
    assert b.value.1 == 1.0;
    assert ps[i'].1 == nk;
  }

  /** Any match returned reaches the threshold, and an empty key is never matched. */
  lemma BestLabelThreshold(sim: MatchCount, token: string, labels: Dict)
    ensures NormKey(token, false) == [] ==> BestLabel(sim, token, labels).None?
    ensures BestLabel(sim, token, labels).Some? ==>
              var nk := NormKey(token, false);
              var (f, sv) := BestLabel(sim, token, labels).value;
              0.75 <= sv <= 1.0 && f in Keys(labels)
              && exists v :: (f, v) in Pairs(labels) && sv == Similarity(sim, nk, v) && 8 * sim(nk, v) >= 3 * (|nk| + |v|)
  {
    var nk := NormKey(token, false);
    if nk != [] {
      var ps := Pairs(labels);
      BestFirstMax(sim, nk, ps);
      if BestLabel(sim, token, labels).Some? {
        var i :| 0 <= i < |ps| && Best(sim, nk, ps) == Some((ps[i].0, Similarity(sim, nk, ps[i].1)));
        ThresholdExact(sim, nk, ps[i].1);
        PairsFields(labels, i);
      }
    }
  }

  /** Each pair's field is a key of the dictionary. */
  lemma {:induction false} PairsFields(d: Dict, i: nat)
    requires i < |Pairs(d)|
    ensures Pairs(d)[i].0 in Keys(d)
  {
    var init := d[..|d| - 1];
    if i < |Pairs(init)| {
      PairsFields(init, i);
      assert Keys(init) == Keys(d)[..|d| - 1];
    } else {
      assert Pairs(d)[i] == EntryPairs(d[|d| - 1])[i - |Pairs(init)|];
      assert Keys(d)[|d| - 1] == d[|d| - 1].0;
    }
  }

  /** The pairs of two dictionaries one after the other. */
  lemma {:induction false} PairsAppend(d1: Dict, d2: Dict)
    ensures Pairs(d1 + d2) == Pairs(d1) + Pairs(d2)
    decreases |d2|
  {
    if d2 == [] {
      assert d1 + d2 == d1;
    } else {
      var init, last := d2[..|d2| - 1], d2[|d2| - 1];
      PairsAppend(d1, init);
      assert (d1 + d2)[..|d1 + d2| - 1] == d1 + init;
      assert (d1 + d2)[|d1 + d2| - 1] == last;
      PairsLast(d1 + d2);
      PairsLast(d2);
      assert Pairs(d1) + Pairs(init) + EntryPairs(last) == Pairs(d1) + (Pairs(init) + EntryPairs(last));
    }
  }

  /** The last entry's pairs come last. */
  lemma PairsLast(d: Dict)
    requires d != []
    ensures Pairs(d) == Pairs(d[..|d| - 1]) + EntryPairs(d[|d| - 1])
  {
  }

  /** The pairs of a prefix of the dictionary begin the pairs of the whole. */
  lemma PairsPrefix(d: Dict, n: nat)
    requires n <= |d|
    ensures |Pairs(d[..n])| <= |Pairs(d)|
    ensures forall i :: 0 <= i < |Pairs(d[..n])| ==> Pairs(d)[i] == Pairs(d[..n])[i]
  {
    assert d == d[..n] + d[n..];
    PairsAppend(d[..n], d[n..]);
  }

  /** The `m`-th variant of entry `a` sits after the pairs of the entries before it. */
  lemma PairAt(d: Dict, a: nat, m: nat)
    requires a < |d| && m < |d[a].1|
    ensures |Pairs(d[..a])| + m < |Pairs(d[..a + 1])|
    ensures Pairs(d[..a + 1])[|Pairs(d[..a])| + m] == (d[a].0, d[a].1[m])
  {
    assert d[..a + 1][..a] == d[..a];
    assert d[..a + 1][a] == d[a];
  }

  /** Where the key itself is among the pairs, the scan settles with score 1 on
      a pair, at or before it, that holds the key. */
  lemma BestExactMatched(sim: MatchCount, nk: string, ps: seq<(Field, string)>, i: nat)
    requires nk != [] && i < |ps| && ps[i].1 == nk
    ensures exists i0 :: 0 <= i0 <= i && ps[i0].1 == nk && Best(sim, nk, ps) == Some((ps[i0].0, 1.0))
  {
    BestFirstMax(sim, nk, ps);
    var i' :| 0 <= i' < |ps| && Best(sim, nk, ps) == Some((ps[i'].0, Similarity(sim, nk, ps[i'].1)))
              && forall j :: 0 <= j < i' ==> Similarity(sim, nk, ps[j].1) < Best(sim, nk, ps).value.1;
    assert Similarity(sim, nk, ps[i].1) == 1.0;
  }

  /** A key listed under entry `a` and under no entry before it is matched,
      with score 1, to entry `a`'s field. */
  lemma FirstEntryWins(sim: MatchCount, token: string, d: Dict, a: nat)
    requires a < |d| && NormKey(token, false) != [] && NormKey(token, false) in d[a].1
    requires forall b :: 0 <= b < a ==> NormKey(token, false) !in d[b].1
    ensures BestLabel(sim, token, d) == Some((d[a].0, 1.0))
  {
    FirstEntryBest(sim, NormKey(token, false), d, a);
  }

  lemma FirstEntryBest(sim: MatchCount, nk: string, d: Dict, a: nat)
    requires a < |d| && nk != [] && nk in d[a].1
    requires forall b :: 0 <= b < a ==> nk !in d[b].1
    ensures Best(sim, nk, Pairs(d)) == Some((d[a].0, 1.0))
  {
    var m :| 0 <= m < |d[a].1| && d[a].1[m] == nk;
    var i := |Pairs(d[..a])| + m;
    VariantPosition(d, a, a + 1, m);
    BestExactMatched(sim, nk, Pairs(d), i);
    var i0 :| 0 <= i0 <= i && Pairs(d)[i0].1 == nk && Best(sim, nk, Pairs(d)) == Some((Pairs(d)[i0].0, 1.0));
    NotBeforeEntry(d, a, nk, i0);
    PairInEntry(d, a, i0);
  }

  /** A pair of the entries before `a` holds none of the keys those entries lack. */
  lemma NotBeforeEntry(d: Dict, a: nat, nk: string, i: nat)
    requires a < |d| && i < |Pairs(d)| && Pairs(d)[i].1 == nk
    requires forall b :: 0 <= b < a ==> nk !in d[b].1
    ensures i >= |Pairs(d[..a])|
  {
    if i < |Pairs(d[..a])| {
      PairsPrefix(d, a);
      PairOrigin(d[..a], i);
      assert false;
    }
  }

  /** The pairs from `|Pairs(d[..a])|` up to `|Pairs(d[..a + 1])|` are entry `a`'s. */
  lemma PairInEntry(d: Dict, a: nat, i: nat)
    requires a < |d| && |Pairs(d[..a])| <= i < |Pairs(d[..a + 1])|
    ensures i < |Pairs(d)| && Pairs(d)[i].0 == d[a].0
  {
    PairsPrefix(d, a + 1);
    assert d[..a + 1][..a] == d[..a] && d[..a + 1][a] == d[a];
    assert Pairs(d[..a + 1]) == Pairs(d[..a]) + EntryPairs(d[a]);
  }

  /** Every pair is a field of the dictionary with one of that field's variants. */
  lemma {:induction false} PairOrigin(d: Dict, i: nat)
    requires i < |Pairs(d)|
    ensures exists b :: 0 <= b < |d| && Pairs(d)[i].1 in d[b].1
  {
    var init := d[..|d| - 1];
    if i < |Pairs(init)| {
      PairOrigin(init, i);
      var b :| 0 <= b < |init| && Pairs(init)[i].1 in init[b].1;
      assert init[b] == d[b];
    } else {
      var k := i - |Pairs(init)|;
      assert Pairs(d)[i] == EntryPairs(d[|d| - 1])[k];
      assert d[|d| - 1].1[k] in d[|d| - 1].1;
    }
  }

  /** Where a dictionary holds the same normalised variant under two entries,
      a token with that key is never matched to the later entry's field. */
  lemma EarlierEntryWins(sim: MatchCount, token: string, d: Dict, a: nat, b: nat)
    requires DistinctKeys(d) && a < b < |d|
    requires NormKey(token, false) != [] && NormKey(token, false) in d[a].1
    ensures BestLabel(sim, token, d).Some?
    ensures BestLabel(sim, token, d).value.0 != d[b].0
  {
    EarlierPairWins(sim, NormKey(token, false), d, a, b);
  }

  /** The scan over a dictionary's pairs, for a key listed under entry `a`,
      settles with score 1 on a field other than that of a later entry `b`. */
  lemma EarlierPairWins(sim: MatchCount, nk: string, d: Dict, a: nat, b: nat)
    requires DistinctKeys(d) && a < b < |d|
    requires nk != [] && nk in d[a].1
    ensures Best(sim, nk, Pairs(d)).Some? && Best(sim, nk, Pairs(d)).value.1 == 1.0
    ensures Best(sim, nk, Pairs(d)).value.0 != d[b].0
  {
    var m :| 0 <= m < |d[a].1| && d[a].1[m] == nk;
    var i := |Pairs(d[..a])| + m;
    VariantPosition(d, a, b, m);
    BestExactMatched(sim, nk, Pairs(d), i);
    var i0 :| 0 <= i0 <= i && Pairs(d)[i0].1 == nk && Best(sim, nk, Pairs(d)) == Some((Pairs(d)[i0].0, 1.0));
    PairBeforeEntry(d, b, i0);
  }

  lemma VariantPosition(d: Dict, a: nat, b: nat, m: nat)
    requires a < b <= |d| && m < |d[a].1|
    ensures |Pairs(d[..a])| + m < |Pairs(d[..b])| <= |Pairs(d)|
    ensures Pairs(d)[|Pairs(d[..a])| + m] == (d[a].0, d[a].1[m])
  {
    PairAt(d, a, m);
    PairsPrefix(d, a + 1);
    PairsPrefix(d, b);
    PairsPrefix(d[..b], a + 1);
    assert d[..b][..a + 1] == d[..a + 1];
  }

  lemma PairBeforeEntry(d: Dict, b: nat, i: nat)
    requires DistinctKeys(d) && b < |d| && i < |Pairs(d[..b])|
    ensures i < |Pairs(d)| && Pairs(d)[i].0 != d[b].0
  {
    PairsPrefix(d, b);
    PairsFields(d[..b], i);
    assert forall k :: k in Keys(d[..b]) ==> k != d[b].0;
  }
}

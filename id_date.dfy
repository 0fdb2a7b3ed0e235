/** Dates on the ID card: reading a `DD.MM.YYYY` date, going back a number of
    years, and deciding which of the dates found on the card is the birth,
    issue and expiry date by comparing them with today's date. */
module IdDate {
  import opened Wrappers
  import opened Text
  import opened Patterns
  import opened Calendar

  // ---------------------------------------------------------------- parsing

  /** `parse_ddmmyyyy`: the first `DD.MM.YYYY` in the text, as a date, or
      `None` when there is none or it names an impossible date. */
  function ParseDdmmyyyy(s: string): (r: Option<Date>)
    ensures r.Some? ==> Valid(r.value)
    ensures r.Some? <==> Find(DottedDate, s).Some? && (FindShape(DottedDate, s); Valid(Spelled(Find(DottedDate, s).value)))
  {
    match Find(DottedDate, s)
    case None => None
    case Some(m) =>
      FindShape(DottedDate, s);
      var d := Spelled(m);
      if Valid(d) then Some(d) else None
  }

  /** A formatted date reads back as itself. */
  lemma ParseFormatted(d: Date)
    requires Valid(d) && d.year >= 1000
    ensures ParseDdmmyyyy(Format(d)) == Some(d)
  {
    FindDottedWhole(Format(d));
    SpelledFormat(d);
  }

  /** A `DD.MM.YYYY` string read back on its own: its date when that exists. */
  lemma ParseWhole(s: string)
    requires DottedShape(s)
    ensures ParseDdmmyyyy(s) == if Valid(Spelled(s)) then Some(Spelled(s)) else None
  {
    FindDottedWhole(s);
  }

  // -------------------------------------------------------- going back years

  /** `subtract_years`: the same day and month `years` earlier, 29 February
      becoming 28 February in a year that is not a leap year; `None` when the
      year falls outside 1..9999, where `date.replace` raises on both tries. */
  function SubtractYears(d: Date, years: int): (r: Option<Date>)
    requires Valid(d)
    ensures r.Some? <==> 1 <= d.year - years <= 9999
    ensures r.Some? ==> Valid(r.value) && r.value.year == d.year - years && r.value.month == d.month
  {
    var y := d.year - years;
    if !(1 <= y <= 9999) then None
    else if Valid(Date(y, d.month, d.day)) then Some(Date(y, d.month, d.day))
    else Some(Date(y, d.month, 28))
  }

  /** The day is kept, except 29 February in a target year that is not leap,
      which becomes the 28th. */
  lemma SubtractYearsDay(d: Date, years: int)
    requires Valid(d) && SubtractYears(d, years).Some?
    ensures var r := SubtractYears(d, years).value;
      r.day == d.day || (d.month == 2 && d.day == 29 && !IsLeap(d.year - years) && r.day == 28)
  {
  }

  /** Fifteen years before 29 February 2024 is 28 February 2009. */
  lemma LeapDayThreshold(d: Date)
    requires d == Date(2024, 2, 29)
    ensures SubtractYears(d, 15) == Some(Date(2009, 2, 28))
  {
    assert !IsLeap(2009);
  }

  // ------------------------------------------------------- collecting dates

  /** A date found on the card, with the text it was read from. */
  type Entry = (Date, string)

  /** The dated text a token holds: `DATE_RE.search(t).group(0)`. */
  function DateText(t: string): Option<string> { Find(DottedDate, t) }

  /** The entry a new date text adds: none when it names an impossible date. */
  function Parsed(s: string): (es: seq<Entry>)
    ensures |es| <= 1
  {
    match ParseDdmmyyyy(s)
    case None => []
    case Some(d) => [(d, s)]
  }

  /** The entries have distinct texts. */
  predicate DistinctTexts(xs: seq<Entry>) {
    forall i, j :: 0 <= i < j < |xs| ==> xs[i].1 != xs[j].1
  }

  /** The `found` list and `seen` set after scanning the tokens: every date
      text is looked at once, in token order, and kept when it is a real date. */
  function Collect(tokens: seq<string>): (c: (seq<Entry>, set<string>))
    ensures |c.0| <= |c.1| <= |tokens|
  {
    if tokens == [] then ([], {})
    else
      var n := |tokens| - 1;
      var (found, seen) := Collect(tokens[..n]);
      match DateText(tokens[n])
      case None => (found, seen)
      case Some(s) =>
        if s in seen then (found, seen)
        else (found + Parsed(s), seen + {s})
  }

  /** Every kept entry is a real date read from a seen `DD.MM.YYYY` text, every
      seen text that names a real date is kept, and no text is kept twice. */
  lemma {:induction false} CollectShape(tokens: seq<string>)
    ensures var c := Collect(tokens);
      (forall e :: e in c.0 ==> e.1 in c.1 && DottedShape(e.1) && Valid(e.0) && e.0 == Spelled(e.1))
      && (forall s :: s in c.1 ==> DottedShape(s) && (Valid(Spelled(s)) ==> (Spelled(s), s) in c.0))
      && DistinctTexts(c.0)
  {
    if tokens != [] {
      var n := |tokens| - 1;
      CollectShape(tokens[..n]);
      match DateText(tokens[n])
      case None =>
      case Some(s) =>
        if s !in Collect(tokens[..n]).1 {
          FindShape(DottedDate, tokens[n]);
          ParseWhole(s);
        }
    }
  }

  /** One more token adds its date text, if any, to `seen`. */
  lemma CollectSeenStep(tokens: seq<string>)
    requires tokens != []
    ensures DateText(tokens[|tokens| - 1]).None? ==>
      Collect(tokens).1 == Collect(tokens[..|tokens| - 1]).1
    ensures DateText(tokens[|tokens| - 1]).Some? ==>
      Collect(tokens).1 == Collect(tokens[..|tokens| - 1]).1 + {DateText(tokens[|tokens| - 1]).value}
  {
    var n := |tokens| - 1;
    var seen := Collect(tokens[..n]).1;
    var m := DateText(tokens[n]);
    if m.Some? && m.value in seen {
      assert Collect(tokens).1 == seen;
      assert seen + {m.value} == seen;
    }
  }

  /** `seen` holds exactly the date texts of the tokens. */
  lemma {:induction false} CollectSeen(tokens: seq<string>, s: string)
    ensures s in Collect(tokens).1 <==> exists i :: 0 <= i < |tokens| && DateText(tokens[i]) == Some(s)
  {
    if tokens != [] {
      var n := |tokens| - 1;
      CollectSeenStep(tokens);
      CollectSeen(tokens[..n], s);
      assert forall i :: 0 <= i < n ==> tokens[..n][i] == tokens[i];
    }
  }

  // ------------------------------------------------------- assigning roles

  /** The conditions the list comprehensions of the classifier filter by. */
  datatype Test = LaterThan(d: Date) | EarlierThan(d: Date) | NotLaterThan(d: Date) | OtherThan(s: string)

  predicate Holds(t: Test, e: Entry) {
    match t
    case LaterThan(d) => Before(d, e.0)
    case EarlierThan(d) => Before(e.0, d)
    case NotLaterThan(d) => !Before(d, e.0)
    case OtherThan(s) => e.1 != s
  }

  /** `[(d, s) for d, s in xs if ...]` */
  function Where(xs: seq<Entry>, t: Test): (r: seq<Entry>)
    ensures |r| <= |xs|
    ensures forall e :: e in r <==> e in xs && Holds(t, e)
  {
    if xs == [] then []
    else
      var n := |xs| - 1;
      Where(xs[..n], t) + (if Holds(t, xs[n]) then [xs[n]] else [])
  }

  /** `max(xs, key=date)`: the first entry with the latest date. */
  function Latest(xs: seq<Entry>): (r: Entry)
    requires xs != []
    ensures r in xs && forall e :: e in xs ==> !Before(r.0, e.0)
  {
    if |xs| == 1 then xs[0]
    else
      var n := |xs| - 1;
      var m := Latest(xs[..n]);
      if Before(m.0, xs[n].0) then xs[n] else m
  }

  /** `min(xs, key=date)`: the first entry with the earliest date. */
  function Earliest(xs: seq<Entry>): (r: Entry)
    requires xs != []
    ensures r in xs && forall e :: e in xs ==> !Before(e.0, r.0)
  {
    if |xs| == 1 then xs[0]
    else
      var n := |xs| - 1;
      var m := Earliest(xs[..n]);
      if Before(xs[n].0, m.0) then xs[n] else m
  }

  /** The expiry date: the latest date after today. */
  function ExpiryPick(found: seq<Entry>, today: Date): Option<Entry> {
    var future := Where(found, LaterThan(today));
    if future == [] then None else Some(Latest(future))
  }

  /** A pool with the entries of a chosen text removed. */
  function Without(pool: seq<Entry>, pick: Option<Entry>): seq<Entry> {
    match pick
    case None => pool
    case Some(e) => Where(pool, OtherThan(e.1))
  }

  /** The birth date: the earliest date before the threshold. */
  function BirthPick(pool: seq<Entry>, threshold: Date): Option<Entry> {
    var early := Where(pool, EarlierThan(threshold));
    if early == [] then None else Some(Earliest(early))
  }

  /** The issue date: the latest date not after today, or else the earliest. */
  function IssuePick(pool: seq<Entry>, today: Date): Option<Entry> {
    if pool == [] then None
    else
      var past := Where(pool, NotLaterThan(today));
      if past != [] then Some(Latest(past)) else Some(Earliest(pool))
  }

  /** The three dates a card carries, as the texts they were read from. */
  datatype Roles = Roles(birth: Option<string>, issue: Option<string>, expiry: Option<string>)

  function TextOf(e: Option<Entry>): Option<string> {
    match e
    case None => None
    case Some(x) => Some(x.1)
  }

  /** The roles for the collected dates: expiry first, then birth from what is
      left, then issue from what is left after that. */
  function SelectRoles(found: seq<Entry>, today: Date, threshold: Date): Roles {
    if found == [] then Roles(None, None, None)
    else
      var expiry := ExpiryPick(found, today);
      var pool := Without(found, expiry);
      var birth := BirthPick(pool, threshold);
      var rest := Without(pool, birth);
      Roles(TextOf(birth), TextOf(IssuePick(rest, today)), TextOf(expiry))
  }

  /** `classify_dates`, with today's date given; `None` when going back
      fifteen years from today leaves the calendar, where the source raises. */
  function Classify(tokens: seq<string>, today: Date): Option<Roles>
    requires Valid(today)
  {
    match SubtractYears(today, 15)
    case None => None
    case Some(threshold) => Some(SelectRoles(Collect(tokens).0, today, threshold))
  }

  /** `classify_dates`: scan the tokens once, collecting each new date text
      that names a real date, then assign the roles. */
  method ClassifyDates(tokens: seq<string>, today: Date) returns (r: Option<Roles>)
    requires Valid(today)
    ensures r == Classify(tokens, today)
  {
    var threshold := SubtractYears(today, 15);
    if threshold.None? {
      return None;
    }
    var found: seq<Entry> := [];
    var seen: set<string> := {};
    for i := 0 to |tokens|
      invariant (found, seen) == Collect(tokens[..i])
    {
      assert tokens[..i + 1][..i] == tokens[..i];
      assert tokens[..i + 1][i] == tokens[i];
      var m := DateText(tokens[i]);
      ghost var before := found;
      if m.Some? && m.value !in seen {
        var s := m.value;
        seen := seen + {s};
        var d := ParseDdmmyyyy(s);
        if d.Some? {
          found := found + [(d.value, s)];
        }
        assert found == before + Parsed(s);
      }
    }
    assert tokens[..|tokens|] == tokens;
    r := Some(SelectRoles(found, today, threshold.value));
  }

  // ------------------------------------------------------------ the roles

  /** The expiry date is set exactly when some date lies after today, and it
      is the latest of them. */
  lemma ExpiryRole(found: seq<Entry>, today: Date)
    ensures ExpiryPick(found, today).Some? <==> exists e :: e in found && Before(today, e.0)
    ensures ExpiryPick(found, today).Some? ==>
      var x := ExpiryPick(found, today).value;
      x in found && Before(today, x.0)
      && forall e :: e in found && Before(today, e.0) ==> !Before(x.0, e.0)
  {
    var future := Where(found, LaterThan(today));
    if exists e :: e in found && Before(today, e.0) {
      var e :| e in found && Before(today, e.0);
      assert e in future;
    }
  }

  /** The birth date is set exactly when a date of the pool lies before the
      threshold, and it is the earliest of them. */
  lemma BirthRole(pool: seq<Entry>, threshold: Date)
    ensures BirthPick(pool, threshold).Some? <==> exists e :: e in pool && Before(e.0, threshold)
    ensures BirthPick(pool, threshold).Some? ==>
      var x := BirthPick(pool, threshold).value;
      x in pool && Before(x.0, threshold)
      && forall e :: e in pool && Before(e.0, threshold) ==> !Before(e.0, x.0)
  {
    var early := Where(pool, EarlierThan(threshold));
    if exists e :: e in pool && Before(e.0, threshold) {
      var e :| e in pool && Before(e.0, threshold);
      assert e in early;
    }
  }

  /** The issue date is set exactly when the pool is not empty: it is the
      latest date not after today when there is one, and the earliest date
      of the pool otherwise. */
  lemma IssueRole(pool: seq<Entry>, today: Date)
    ensures IssuePick(pool, today).Some? <==> pool != []
    ensures (exists e :: e in pool && !Before(today, e.0)) ==>
      var x := IssuePick(pool, today).value;
      x in pool && !Before(today, x.0)
      && forall e :: e in pool && !Before(today, e.0) ==> !Before(x.0, e.0)
    ensures pool != [] && (forall e :: e in pool ==> Before(today, e.0)) ==>
      var x := IssuePick(pool, today).value;
      x in pool && forall e :: e in pool ==> !Before(e.0, x.0)
  {
    var past := Where(pool, NotLaterThan(today));
    if exists e :: e in pool && !Before(today, e.0) {
      var e :| e in pool && !Before(today, e.0);
      assert e in past;
    }
  }

  /** With no date found every role is empty. */
  lemma NoDatesNoRoles(tokens: seq<string>, today: Date)
    requires Valid(today) && today.year > 15
    requires forall i :: 0 <= i < |tokens| ==> DateText(tokens[i]).None?
    ensures Classify(tokens, today) == Some(Roles(None, None, None))
  {
    var found := Collect(tokens).0;
    if found != [] {
      CollectShape(tokens);
      CollectSeen(tokens, found[0].1);
    }
  }

  /** The roles that are set name three different texts, each a date found on
      the card. */
  lemma RolesDistinct(found: seq<Entry>, today: Date, threshold: Date)
    ensures var r := SelectRoles(found, today, threshold);
      (r.birth.Some? ==> exists e :: e in found && e.1 == r.birth.value)
      && (r.issue.Some? ==> exists e :: e in found && e.1 == r.issue.value)
      && (r.expiry.Some? ==> exists e :: e in found && e.1 == r.expiry.value)
      && (r.birth.Some? && r.issue.Some? ==> r.birth != r.issue)
      && (r.birth.Some? && r.expiry.Some? ==> r.birth != r.expiry)
      && (r.issue.Some? && r.expiry.Some? ==> r.issue != r.expiry)
  {
    if found != [] {
      var expiry := ExpiryPick(found, today);
      var pool := Without(found, expiry);
      var birth := BirthPick(pool, threshold);
      var rest := Without(pool, birth);
      var issue := IssuePick(rest, today);
      assert forall e :: e in pool ==> e in found && (expiry.Some? ==> e.1 != expiry.value.1);
      assert forall e :: e in rest ==> e in pool && (birth.Some? ==> e.1 != birth.value.1);
    }
  }
}

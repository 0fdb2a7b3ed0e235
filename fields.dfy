/** The identity fields both parsers report, and the result record they fill.
    The record is the parsers' result dictionary restricted to its field keys:
    a map from field to an optional string, where `None` is a field not yet found. */
module Fields {
  import opened Wrappers

  datatype Field =
    | Surname | GivenName | Patronymic | DateOfBirth | Sex | DateOfIssue | DateOfExpiry
    | CardNumber | PlaceOfBirth | Authority | PersonalNumber | PassportNumber

  type Record = map<Field, Option<string>>

  /** A record with every field of `keys` present and empty. */
  function EmptyRecord(keys: set<Field>): (r: Record)
    ensures r.Keys == keys && forall f :: f in r ==> r[f].None?
  {
    map f | f in keys :: None
  }

  /** `result.get(f) is None`: the field is absent or still empty. */
  predicate Unset(r: Record, f: Field) { f !in r || r[f].None? }

  /** `if v and result.get(f) is None: result[f] = v` */
  function SetIfEmpty(r: Record, f: Field, v: Option<string>): (r': Record)
    ensures r'.Keys == if Unset(r, f) && v.Some? && v.value != [] then r.Keys + {f} else r.Keys
    ensures forall g :: g in r && g != f ==> r'[g] == r[g]
    ensures f in r' ==> r'[f] == if Unset(r, f) && v.Some? && v.value != [] then v else r[f]
  {
    if Unset(r, f) && v.Some? && v.value != [] then r[f := v] else r
  }

  /** `b` is `a` with possibly more fields filled: nothing found is ever lost or changed. */
  predicate Grows(a: Record, b: Record) {
    forall f :: f in a ==> f in b && (a[f].Some? ==> b[f] == a[f])
  }

  lemma GrowsTransitive(a: Record, b: Record, c: Record)
    requires Grows(a, b) && Grows(b, c)
    ensures Grows(a, c)
  {
  }

  /** Every filled field holds a non-empty string. */
  predicate FilledNonEmpty(r: Record) {
    forall f :: f in r && r[f].Some? ==> r[f].value != []
  }

  /** Filling a field only when it is empty never overwrites and keeps every value non-empty. */
  lemma SetIfEmptyGrows(r: Record, f: Field, v: Option<string>)
    ensures Grows(r, SetIfEmpty(r, f, v))
    ensures FilledNonEmpty(r) ==> FilledNonEmpty(SetIfEmpty(r, f, v))
    ensures f in r ==> SetIfEmpty(r, f, v).Keys == r.Keys
  {
  }
}

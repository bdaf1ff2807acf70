/** The Laravel validation rules the mobile controllers use, read on a
    decoded JSON request body. A rule other than `required` is checked only
    when its key is present and its value is not a blank string (the
    validator skips rules that are not implicit on a blank string); a
    present `null` fails every rule except under `nullable`. */
module Validation {
  import opened Wrappers
  import opened JsonValues
  import opened Text
  import opened PhpValues

  /** `required`: present and not null, not a blank string, not an empty
      array. */
  predicate Required(v: Json) {
    match v
    case JNull => false
    case JStr(s) => !IsBlank(s)
    case JArr(items) => |items| > 0
    case JObj(fields) => |fields| > 0
    case _ => true
  }

  /** `array`: a JSON list or object (both decode to a PHP array). */
  predicate IsArray(v: Json) {
    v.JArr? || v.JObj?
  }

  /** The `.*` wildcard: `ok` holds for every element of an array. */
  predicate EveryItem(v: Json, ok: Json -> bool) {
    && (v.JArr? ==> forall i :: 0 <= i < |v.items| ==> ok(v.items[i]))
    && (v.JObj? ==> forall k :: k in v.fields ==> ok(v.fields[k]))
  }

  /** A value on which every rule but `required` is skipped: a string that
      is empty after `trim`. */
  predicate Skipped(v: Json) {
    v.JStr? && IsBlank(v.s)
  }

  /** `integer|exists:table,id`: skipped on a blank string; otherwise a value
      the integer filter reads as some row's id (a number, or a string such
      as "5"). */
  function ExistingId(known: set<int>): Json -> bool {
    (x: Json) => Skipped(x) || (IntegerValue(x).Some? && IntegerValue(x).value in known)
  }

  /** `required|array|min:1` on `key`, each element passing `ok`. */
  predicate RequiredArray(body: Json, key: string, ok: Json -> bool) {
    var v := Field(body, key);
    v.Some? && Required(v.value) && IsArray(v.value) && EveryItem(v.value, ok)
  }

  /** `array` on an optional `key`, each element passing `ok`; a blank
      string skips the rule. */
  predicate OptionalArray(body: Json, key: string, ok: Json -> bool) {
    var v := Field(body, key);
    v.None? || Skipped(v.value) || (IsArray(v.value) && EveryItem(v.value, ok))
  }

  /** `nullable|<format>`: absent, null, blank, or a string the format
      accepts. */
  predicate NullableFormat(body: Json, key: string, accepts: string -> bool) {
    var v := Field(body, key);
    v.None? || v.value.JNull? || Skipped(v.value) || (v.value.JStr? && accepts(v.value.s))
  }

  /** `whereIn('id', $request->key)` after the rules above have passed: the
      ids the array's elements denote. A blank element selects no row. */
  function IdValues(v: Json): set<int> {
    if v.JArr? then set i | 0 <= i < |v.items| && IntegerValue(v.items[i]).Some? :: IntegerValue(v.items[i]).value
    else if v.JObj? then set k | k in v.fields && IntegerValue(v.fields[k]).Some? :: IntegerValue(v.fields[k]).value
    else {}
  }

  /** A list's elements all pass `ok` exactly when each does. */
  lemma EveryItemOfList(items: seq<Json>, ok: Json -> bool)
    ensures EveryItem(JArr(items), ok) <==> forall i :: 0 <= i < |items| ==> ok(items[i])
  {
  }

  /** `required` rejects an empty list and a missing value, and accepts any
      non-empty list. */
  lemma RequiredOnLists(items: seq<Json>)
    ensures Required(JArr(items)) <==> items != []
    ensures !Required(JNull) && !Required(JStr("")) && !Required(JStr("  "))
  {
    assert IsTrimmable("  "[0]) && IsTrimmable("  "[1]);
  }

  lemma IdValuesOfSingleton(x: Json)
    ensures IdValues(JArr([x])) == if IntegerValue(x).Some? then {IntegerValue(x).value} else {}
  {
    var a := JArr([x]);
    assert a.items[0] == x;
  }

  /** Ids sent as numeric strings pass `integer|exists` and select the same
      rows as numbers. */
  lemma StringIdsAsNumbers(n: int, known: set<int>)
    requires n in known
    ensures ExistingId(known)(JStr(IntText(n))) && ExistingId(known)(JNum(n))
    ensures IdValues(JArr([JStr(IntText(n))])) == IdValues(JArr([JNum(n)])) == {n}
  {
    FilterIntRoundTrip(n);
    SingletonId(JStr(IntText(n)), n);
    SingletonId(JNum(n), n);
  }

  lemma SingletonId(x: Json, n: int)
    requires IntegerValue(x) == Some(n)
    ensures IdValues(JArr([x])) == {n}
  {
    IdValuesOfSingleton(x);
  }

  /** A leading zero or a fraction fails the rule; a blank element passes it
      without selecting anything. */
  lemma MalformedIds(known: set<int>)
    ensures !ExistingId(known)(JStr("05")) && !ExistingId(known)(JStr("5.0"))
    ensures ExistingId(known)(JStr("")) && IdValues(JArr([JStr("")])) == {}
  {
    LeadingZeroFailsFilter();
    FractionIsNoInteger();
    NotAnId("05", known);
    NotAnId("5.0", known);
    IdValuesOfSingleton(JStr(""));
  }

  /** A string that is not blank and that the filter refuses fails the rule. */
  lemma NotAnId(s: string, known: set<int>)
    requires s != [] && IsDigit(s[0]) && FilterInt(s).None?
    ensures !ExistingId(known)(JStr(s))
  {
    NotBlank(s);
  }

  lemma NotBlank(s: string)
    requires s != [] && IsDigit(s[0])
    ensures !IsBlank(s)
  {
    assert !IsTrimmable(s[0]);
  }
}

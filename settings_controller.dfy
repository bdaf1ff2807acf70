/** `SettingsController` of the mobile API over the settings key-value store.
    Whether a string names a time zone or is an e-mail address is decided by
    PHP's own tables; both are parameters here. */
module SettingsController {
  import opened Wrappers
  import opened JsonValues
  import opened Text
  import opened Validation
  import opened PhpValues
  import opened SettingsModels

  /** `Settings::get(key, default)`. */
  function GetOr(store: map<string, Json>, key: string, default: Json): (v: Json)
    ensures key in store ==> v == store[key]
    ensures key !in store ==> v == default
  {
    if key in store then store[key] else default
  }

  /** `index`: every setting, its default where none is stored. */
  function IndexResponse(store: map<string, Json>): map<string, Json> {
    map[
      "timezone" := GetOr(store, "timezone", JStr("UTC")),
      "time_format" := GetOr(store, "time_format", JNum(24)),
      "week_starts_on" := GetOr(store, "week_starts_on", JNum(1)),
      "admin_email" := GetOr(store, "admin_email", JStr(""))]
  }

  /** `required|integer|in:a,b`: present and not blank, read by the integer
      filter, and one of the choices. `in` compares `(string) $value` with
      each choice loosely, and PHP 8 compares two numeric strings as
      numbers, so on a value the integer filter accepts it compares the
      value that filter reads ("24", " 24" and `24` alike). */
  predicate RequiredChoice(body: Json, key: string, choices: set<int>) {
    var v := Field(body, key);
    v.Some? && Required(v.value) && IntegerValue(v.value).Some? && IntegerValue(v.value).value in choices
  }

  /** The rules of `update`. */
  predicate SettingsValid(body: Json, isTimezone: string -> bool, isEmail: string -> bool) {
    var tz := Field(body, "timezone");
    && tz.Some? && tz.value.JStr? && !IsBlank(tz.value.s) && isTimezone(tz.value.s)
    && RequiredChoice(body, "time_format", {12, 24})
    && RequiredChoice(body, "week_starts_on", {0, 1})
    && NullableFormat(body, "admin_email", isEmail)
  }

  class SettingsStore {
    var values: map<string, Json>

    constructor()
      ensures values == map[]
    {
      values := map[];
    }

    /** `index`. */
    method Index() returns (r: map<string, Json>)
      ensures r == IndexResponse(values)
      ensures r.Keys == {"timezone", "time_format", "week_starts_on", "admin_email"}
    {
      r := IndexResponse(values);
    }

    /** `update`: on a valid body the three settings are written, and the
        admin e-mail when the key is sent (a sent `null` is written too);
        the response reads the stored values back, `null` for a missing
        one. On a failed rule nothing is written. */
    method Update(body: Json, isTimezone: string -> bool, isEmail: string -> bool) returns (status: int, response: map<string, Json>)
      modifies this
      ensures !SettingsValid(body, isTimezone, isEmail) ==> status == 422 && values == old(values) && response == map[]
      ensures SettingsValid(body, isTimezone, isEmail) ==>
        && status == 200
        && values == WrittenSettings(old(values), body)
        && response == map[
             "timezone" := values["timezone"],
             "time_format" := values["time_format"],
             "week_starts_on" := values["week_starts_on"],
             "admin_email" := GetOr(values, "admin_email", JNull)]
    {
      if !SettingsValid(body, isTimezone, isEmail) {
        return 422, map[];
      }
      values := values["timezone" := body.fields["timezone"]];
      values := values["time_format" := body.fields["time_format"]];
      values := values["week_starts_on" := body.fields["week_starts_on"]];
      if Has(body, "admin_email") {
        values := values["admin_email" := body.fields["admin_email"]];
      }
      response := map[
        "timezone" := values["timezone"],
        "time_format" := values["time_format"],
        "week_starts_on" := values["week_starts_on"],
        "admin_email" := GetOr(values, "admin_email", JNull)];
      status := 200;
    }
  }

  /** The store after a valid `update`: the three sent settings, the sent
      admin e-mail when its key is present, every other key as it was. */
  function WrittenSettings(store: map<string, Json>, body: Json): (r: map<string, Json>)
    requires body.JObj? && "timezone" in body.fields && "time_format" in body.fields && "week_starts_on" in body.fields
    ensures r.Keys == store.Keys + {"timezone", "time_format", "week_starts_on"} + (if "admin_email" in body.fields then {"admin_email"} else {})
    ensures forall k :: k in r && k !in {"timezone", "time_format", "week_starts_on", "admin_email"} ==> r[k] == store[k]
    ensures "admin_email" !in body.fields && "admin_email" in store ==> r["admin_email"] == store["admin_email"]
  {
    var s := store["timezone" := body.fields["timezone"]]["time_format" := body.fields["time_format"]]["week_starts_on" := body.fields["week_starts_on"]];
    if "admin_email" in body.fields then s["admin_email" := body.fields["admin_email"]] else s
  }

  /** After a valid `update`, `index` shows what was sent: the three
      settings always, the admin e-mail when it was sent. */
  lemma UpdateThenIndex(store: map<string, Json>, body: Json, isTimezone: string -> bool, isEmail: string -> bool)
    requires SettingsValid(body, isTimezone, isEmail)
    ensures var r := IndexResponse(WrittenSettings(store, body));
      && r["timezone"] == body.fields["timezone"]
      && r["time_format"] == body.fields["time_format"]
      && r["week_starts_on"] == body.fields["week_starts_on"]
      && ("admin_email" in body.fields ==> r["admin_email"] == body.fields["admin_email"])
      && ("admin_email" !in body.fields ==> r["admin_email"] == GetOr(store, "admin_email", JStr("")))
  {
  }

  /** With nothing stored, `index` reports the app's own defaults, except
      that the admin e-mail is an empty string rather than absent. */
  lemma EmptyStoreShowsDefaults()
    ensures var r := IndexResponse(map[]);
      && r["timezone"] == JStr(DefaultSettings.timezone)
      && r["time_format"] == JNum(DefaultSettings.timeFormat)
      && r["week_starts_on"] == JNum(DefaultSettings.weekStartsOn)
      && r["admin_email"] == JStr("")
      && DefaultSettings.adminEmail.None?
  {
  }

  /** The app's settings pass `update` exactly when their time format is 12
      or 24, their week start 0 or 1, their zone known and their e-mail
      (if any) blank or an address; so the defaults always pass. */
  lemma AppSettingsPassUpdate(s: AppSettings, isTimezone: string -> bool, isEmail: string -> bool)
    requires isTimezone("UTC")
    ensures SettingsValid(JObj(ToDictionary(s)), isTimezone, isEmail) <==>
      && !IsBlank(s.timezone) && isTimezone(s.timezone)
      && s.timeFormat in {12, 24} && s.weekStartsOn in {0, 1}
      && (s.adminEmail.Some? ==> IsBlank(s.adminEmail.value) || isEmail(s.adminEmail.value))
    ensures SettingsValid(JObj(ToDictionary(DefaultSettings)), isTimezone, isEmail)
  {
    ToDictionaryShape(s);
    ToDictionaryShape(DefaultSettings);
    assert !IsTrimmable("UTC"[0]);
  }

  /** A choice sent as the string PHP prints for it passes as the number
      would. */
  lemma ChoiceAsText(body: Json, key: string, n: int, choices: set<int>)
    requires n in choices && Field(body, key) == Some(JStr(IntText(n)))
    ensures RequiredChoice(body, key, choices)
  {
    FilterIntRoundTrip(n);
    IntTextNotBlank(n);
  }

  /** The settings may arrive as strings: "24" and "1" pass
      `integer|in:...` as 24 and 1 do, and a blank admin e-mail passes
      `nullable|email` whatever `isEmail` says. */
  lemma StringSettingsPass(isTimezone: string -> bool, isEmail: string -> bool)
    requires isTimezone("UTC")
    ensures var body := JObj(map["timezone" := JStr("UTC"), "time_format" := JStr("24"), "week_starts_on" := JStr("1"), "admin_email" := JStr("")]);
      SettingsValid(body, isTimezone, isEmail)
  {
    var body := JObj(map["timezone" := JStr("UTC"), "time_format" := JStr("24"), "week_starts_on" := JStr("1"), "admin_email" := JStr("")]);
    assert !IsTrimmable("UTC"[0]);
    assert Field(body, "timezone") == Some(JStr("UTC"));
    TwoNumbersAsText();
    assert Field(body, "time_format") == Some(JStr(IntText(24)));
    ChoiceAsText(body, "time_format", 24, {12, 24});
    assert Field(body, "week_starts_on") == Some(JStr(IntText(1)));
    ChoiceAsText(body, "week_starts_on", 1, {0, 1});
    assert Field(body, "admin_email") == Some(JStr(""));
    assert Skipped(JStr(""));
  }

  lemma TwoNumbersAsText()
    ensures IntText(24) == "24" && IntText(1) == "1"
  {
  }

  /** ... while "024" fails the integer filter, so it is no choice. */
  lemma LeadingZeroChoiceFails()
    ensures !RequiredChoice(JObj(map["time_format" := JStr("024")]), "time_format", {12, 24})
  {
    TrimOfTrimmed("024", FilterSpace);
    assert FilterInt("024").None?;
  }
}

/** `AppSettings` and `TimezoneList` (`Models/Settings.swift`). */
module SettingsModels {
  import opened Wrappers
  import opened JsonValues

  datatype AppSettings = AppSettings(timezone: string, timeFormat: int, weekStartsOn: int, adminEmail: Option<string>)

  /** `AppSettings()` with every default argument. */
  const DefaultSettings: AppSettings := AppSettings("UTC", 24, 1, None)

  /** `toDictionary`: the three settings always, the admin email when set. */
  function ToDictionary(s: AppSettings): (d: map<string, Json>) {
    var base := map["timezone" := JStr(s.timezone), "time_format" := JNum(s.timeFormat), "week_starts_on" := JNum(s.weekStartsOn)];
    if s.adminEmail.Some? then base["admin_email" := JStr(s.adminEmail.value)] else base
  }

  /** The dictionary holds exactly the settings, and the admin email key
      exactly when one is set. */
  lemma ToDictionaryShape(s: AppSettings)
    ensures var d := ToDictionary(s);
      && d.Keys == {"timezone", "time_format", "week_starts_on"} + (if s.adminEmail.Some? then {"admin_email"} else {})
      && d["timezone"] == JStr(s.timezone)
      && d["time_format"] == JNum(s.timeFormat)
      && d["week_starts_on"] == JNum(s.weekStartsOn)
      && (s.adminEmail.Some? ==> d["admin_email"] == JStr(s.adminEmail.value))
  {
  }

  function TimeFormatDisplay(s: AppSettings): string {
    if s.timeFormat == 12 then "12-hour" else "24-hour"
  }

  function WeekStartDisplay(s: AppSettings): string {
    if s.weekStartsOn == 0 then "Sunday" else "Monday"
  }

  /** Each display string takes one of two values, the first exactly for
      its one setting; the defaults read "24-hour" and "Monday". */
  lemma DisplayStrings(s: AppSettings)
    ensures TimeFormatDisplay(s) == "12-hour" <==> s.timeFormat == 12
    ensures TimeFormatDisplay(s) in {"12-hour", "24-hour"}
    ensures WeekStartDisplay(s) == "Sunday" <==> s.weekStartsOn == 0
    ensures WeekStartDisplay(s) in {"Sunday", "Monday"}
    ensures TimeFormatDisplay(DefaultSettings) == "24-hour" && WeekStartDisplay(DefaultSettings) == "Monday"
  {
  }

  /** `TimezoneList.timezones`. */
  const Timezones: seq<string> := [
    "UTC",
    "America/New_York", "America/Chicago", "America/Denver", "America/Los_Angeles",
    "America/Anchorage", "America/Honolulu", "America/Toronto", "America/Vancouver",
    "America/Mexico_City", "America/Sao_Paulo", "America/Buenos_Aires",
    "Europe/London", "Europe/Paris", "Europe/Berlin", "Europe/Rome", "Europe/Madrid",
    "Europe/Amsterdam", "Europe/Brussels", "Europe/Stockholm", "Europe/Oslo",
    "Europe/Copenhagen", "Europe/Helsinki", "Europe/Warsaw", "Europe/Prague",
    "Europe/Vienna", "Europe/Zurich", "Europe/Moscow", "Europe/Istanbul",
    "Asia/Dubai", "Asia/Kolkata", "Asia/Bangkok", "Asia/Singapore", "Asia/Hong_Kong",
    "Asia/Shanghai", "Asia/Seoul", "Asia/Tokyo",
    "Australia/Sydney", "Australia/Melbourne", "Australia/Perth",
    "Pacific/Auckland", "Pacific/Fiji"
  ]

  /** A zone's length and last two characters, which tell the listed zones
      apart. */
  function Fingerprint(z: string): int {
    if |z| < 2 then 0 else |z| * 20000 + (z[|z| - 2] as int) * 128 + (z[|z| - 1] as int)
  }

  /** The listed zones' fingerprints, their positions sorted by fingerprint,
      and each position's rank in that order. */
  const Fingerprints: seq<int> := [
    70819, 334699, 313295, 293042, 393043, 353285, 333941, 314959, 353042, 394969,
    353935, 413043, 274318, 253555, 273550, 234053, 273540, 332525, 313939, 333933,
    233935, 353038, 313801, 272535, 275077, 274177, 272776, 274327, 315084, 212521,
    254945, 254315, 294693, 294183, 272521, 215084, 215599, 333049, 394181, 314952,
    334180, 253673
  ]

  const ByFingerprint: seq<int> := [
    0, 29, 35, 36, 20, 15, 13, 41, 31, 30, 34, 23, 26, 16,
    14, 25, 12, 27, 24, 3, 33, 32, 2, 22, 18, 39, 7, 28,
    17, 37, 19, 6, 40, 1, 21, 8, 5, 10, 4, 38, 9, 11
  ]

  const FingerprintRank: seq<int> := [
    0, 33, 22, 19, 38, 36, 31, 26, 35, 40, 37, 41, 16, 6,
    14, 5, 13, 28, 24, 30, 4, 34, 23, 11, 18, 15, 12, 17,
    27, 1, 9, 8, 21, 20, 10, 2, 3, 29, 39, 25, 32, 7
  ]

  lemma ListedFingerprints()
    ensures forall i :: 0 <= i < |Timezones| ==> Fingerprint(Timezones[i]) == Fingerprints[i]
  {
    forall i | 0 <= i < |Timezones|
      ensures Fingerprint(Timezones[i]) == Fingerprints[i]
    {
      assert i == 0 || i == 1 || i == 2 || i == 3 || i == 4 || i == 5 || i == 6 || i == 7 || i == 8 || i == 9 || i == 10 || i == 11 || i == 12 || i == 13 || i == 14 || i == 15 || i == 16 || i == 17 || i == 18 || i == 19 || i == 20 || i == 21 || i == 22 || i == 23 || i == 24 || i == 25 || i == 26 || i == 27 || i == 28 || i == 29 || i == 30 || i == 31 || i == 32 || i == 33 || i == 34 || i == 35 || i == 36 || i == 37 || i == 38 || i == 39 || i == 40 || i == 41;
    }
  }

  /** The same fingerprints in ascending order. */
  const SortedFingerprints: seq<int> := [
    70819, 212521, 215084, 215599, 233935, 234053, 253555, 253673, 254315, 254945,
    272521, 272535, 272776, 273540, 273550, 274177, 274318, 274327, 275077, 293042,
    294183, 294693, 313295, 313801, 313939, 314952, 314959, 315084, 332525, 333049,
    333933, 333941, 334180, 334699, 353038, 353042, 353285, 353935, 393043, 394181,
    394969, 413043
  ]

  lemma FingerprintsAscend()
    ensures forall k :: 0 <= k < 41 ==> SortedFingerprints[k] < SortedFingerprints[k + 1]
  {
    forall k | 0 <= k < 41
      ensures SortedFingerprints[k] < SortedFingerprints[k + 1]
    {
      assert k == 0 || k == 1 || k == 2 || k == 3 || k == 4 || k == 5 || k == 6 || k == 7 || k == 8 || k == 9 || k == 10 || k == 11 || k == 12 || k == 13 || k == 14 || k == 15 || k == 16 || k == 17 || k == 18 || k == 19 || k == 20 || k == 21 || k == 22 || k == 23 || k == 24 || k == 25 || k == 26 || k == 27 || k == 28 || k == 29 || k == 30 || k == 31 || k == 32 || k == 33 || k == 34 || k == 35 || k == 36 || k == 37 || k == 38 || k == 39 || k == 40;
    }
  }

  lemma SortedByRankLow()
    ensures forall k :: 0 <= k < 21 ==> Fingerprints[k] == SortedFingerprints[FingerprintRank[k]]
  {
    forall k | 0 <= k < 21
      ensures Fingerprints[k] == SortedFingerprints[FingerprintRank[k]]
    {
      assert k == 0 || k == 1 || k == 2 || k == 3 || k == 4 || k == 5 || k == 6 || k == 7 || k == 8 || k == 9 || k == 10 || k == 11 || k == 12 || k == 13 || k == 14 || k == 15 || k == 16 || k == 17 || k == 18 || k == 19 || k == 20;
    }
  }

  lemma SortedByRankHigh()
    ensures forall k :: 21 <= k < 32 ==> Fingerprints[k] == SortedFingerprints[FingerprintRank[k]]
  {
    forall k | 21 <= k < 32
      ensures Fingerprints[k] == SortedFingerprints[FingerprintRank[k]]
    {
      assert k == 21 || k == 22 || k == 23 || k == 24 || k == 25 || k == 26 || k == 27 || k == 28 || k == 29 || k == 30 || k == 31;
    }
  }

  lemma SortedByRankTop()
    ensures forall k :: 32 <= k < 42 ==> Fingerprints[k] == SortedFingerprints[FingerprintRank[k]]
  {
    forall k | 32 <= k < 42
      ensures Fingerprints[k] == SortedFingerprints[FingerprintRank[k]]
    {
      assert k == 32 || k == 33 || k == 34 || k == 35 || k == 36 || k == 37 || k == 38 || k == 39 || k == 40 || k == 41;
    }
  }

  lemma RanksInRange()
    ensures |ByFingerprint| == |Timezones| && |FingerprintRank| == |Timezones| && |Fingerprints| == |Timezones|
    ensures forall k :: 0 <= k < |Timezones| ==> 0 <= ByFingerprint[k] < |Timezones| && 0 <= FingerprintRank[k] < |Timezones|
  {
    forall k | 0 <= k < 42
      ensures 0 <= ByFingerprint[k] < 42 && 0 <= FingerprintRank[k] < 42
    {
      assert k == 0 || k == 1 || k == 2 || k == 3 || k == 4 || k == 5 || k == 6 || k == 7 || k == 8 || k == 9 || k == 10 || k == 11 || k == 12 || k == 13 || k == 14 || k == 15 || k == 16 || k == 17 || k == 18 || k == 19 || k == 20 || k == 21 || k == 22 || k == 23 || k == 24 || k == 25 || k == 26 || k == 27 || k == 28 || k == 29 || k == 30 || k == 31 || k == 32 || k == 33 || k == 34 || k == 35 || k == 36 || k == 37 || k == 38 || k == 39 || k == 40 || k == 41;
    }
  }

  lemma RanksInvertLow()
    ensures forall i :: 0 <= i < 21 ==> ByFingerprint[FingerprintRank[i]] == i
  {
    forall i | 0 <= i < 21
      ensures ByFingerprint[FingerprintRank[i]] == i
    {
      assert i == 0 || i == 1 || i == 2 || i == 3 || i == 4 || i == 5 || i == 6 || i == 7 || i == 8 || i == 9 || i == 10 || i == 11 || i == 12 || i == 13 || i == 14 || i == 15 || i == 16 || i == 17 || i == 18 || i == 19 || i == 20;
    }
  }

  lemma RanksInvertHigh()
    ensures forall i :: 21 <= i < 32 ==> ByFingerprint[FingerprintRank[i]] == i
  {
    forall i | 21 <= i < 32
      ensures ByFingerprint[FingerprintRank[i]] == i
    {
      assert i == 21 || i == 22 || i == 23 || i == 24 || i == 25 || i == 26 || i == 27 || i == 28 || i == 29 || i == 30 || i == 31;
    }
  }

  lemma RanksInvertTop()
    ensures forall i :: 32 <= i < 42 ==> ByFingerprint[FingerprintRank[i]] == i
  {
    forall i | 32 <= i < 42
      ensures ByFingerprint[FingerprintRank[i]] == i
    {
      assert i == 32 || i == 33 || i == 34 || i == 35 || i == 36 || i == 37 || i == 38 || i == 39 || i == 40 || i == 41;
    }
  }

  /** Adjacent steps up make the whole sequence strictly increasing. */
  lemma {:induction false} AscendingChain(g: seq<int>, a: nat, b: nat)
    requires forall k :: 0 <= k < |g| - 1 ==> g[k] < g[k + 1]
    requires a < b < |g|
    ensures g[a] < g[b]
    decreases b - a
  {
    if a + 1 < b {
      AscendingChain(g, a + 1, b);
    }
  }

  /** The list offers 42 different zones, the default first. */
  lemma TimezoneListShape()
    ensures |Timezones| == 42
    ensures Timezones[0] == DefaultSettings.timezone
    ensures forall i, j :: 0 <= i < j < |Timezones| ==> Timezones[i] != Timezones[j]
  {
    var n := |Timezones|;
    ListedFingerprints();
    FingerprintsAscend();
    SortedByRankLow();
    SortedByRankHigh();
    SortedByRankTop();
    RanksInRange();
    RanksInvertLow();
    RanksInvertHigh();
    RanksInvertTop();
    var g := SortedFingerprints;
    forall i, j | 0 <= i < j < n
      ensures Timezones[i] != Timezones[j]
    {
      var ri, rj := FingerprintRank[i], FingerprintRank[j];
      if ri < rj {
        AscendingChain(g, ri, rj);
      } else if rj < ri {
        AscendingChain(g, rj, ri);
      }
    }
  }
}

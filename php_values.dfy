/** How PHP reads a request value as a whole number. Laravel's `integer` rule
    and the paginator's page number go through
    `filter_var($v, FILTER_VALIDATE_INT)`. The arithmetic behind `paginate`
    goes through PHP 8's numeric strings. `?:` and `empty` go through
    truthiness. */
module PhpValues {
  import opened Wrappers
  import opened Text
  import opened JsonValues

  /** The characters `FILTER_VALIDATE_INT` trims from both ends. */
  const FilterSpace: set<char> := {' ', '\t', '\r', '\n', 11 as char}

  /** The white space a PHP 8 numeric string may carry at either end: the
      filter's, plus form feed. */
  const NumericSpace: set<char> := FilterSpace + {12 as char}

  function TrimStart(s: string, space: set<char>): (r: string)
    ensures |r| <= |s| && r == s[|s| - |r|..]
    ensures r != [] ==> r[0] !in space
    decreases |s|
  {
    if s != [] && s[0] in space then TrimStart(s[1..], space) else s
  }

  function TrimEnd(s: string, space: set<char>): (r: string)
    ensures |r| <= |s| && r == s[..|r|]
    ensures r != [] ==> r[|r| - 1] !in space
    decreases |s|
  {
    if s != [] && s[|s| - 1] in space then TrimEnd(s[..|s| - 1], space) else s
  }

  /** `s` without the leading and trailing characters that `space` holds for. */
  function Trim(s: string, space: set<char>): (r: string)
    ensures |r| <= |s|
    ensures r != [] ==> r[0] !in space && r[|r| - 1] !in space
  {
    var u := TrimStart(s, space);
    var r := TrimEnd(u, space);
    assert r != [] ==> r[0] == u[0];
    r
  }

  /** The digits after an optional sign. */
  function Unsigned(t: string): string {
    if t != [] && (t[0] == '-' || t[0] == '+') then t[1..] else t
  }

  /** An optional sign followed by at least one decimal digit. */
  predicate IsSignedDigits(t: string) {
    Unsigned(t) != [] && AllDigits(Unsigned(t))
  }

  function SignedValue(t: string): int
    requires IsSignedDigits(t)
  {
    var v: int := ParseDigits(Unsigned(t));
    if t[0] == '-' then -v else v
  }

  /** `filter_var($s, FILTER_VALIDATE_INT)` on a string: after trimming, an
      optional sign and digits without a leading zero ("0" itself aside). */
  function FilterInt(s: string): Option<int> {
    var t := Trim(s, FilterSpace);
    if IsSignedDigits(t) && (Unsigned(t)[0] != '0' || |Unsigned(t)| == 1) then Some(SignedValue(t))
    else None
  }

  /** A PHP 8 numeric string that denotes a whole number: white space, an
      optional sign, digits (leading zeros allowed), white space. */
  function NumericInteger(s: string): Option<int> {
    var t := Trim(s, NumericSpace);
    if IsSignedDigits(t) then Some(SignedValue(t)) else None
  }

  /** `filter_var($v, FILTER_VALIDATE_INT)` on a decoded JSON value: numbers
      pass, strings as above, `true` reads as "1" and `false` as "". */
  function IntegerValue(v: Json): Option<int> {
    match v
    case JNum(n) => Some(n)
    case JStr(s) => FilterInt(s)
    case JBool(b) => if b then Some(1) else None
    case _ => None
  }

  /** PHP's falsy values: null, false, 0, "", "0" and the empty array. */
  predicate Falsy(v: Json) {
    match v
    case JNull => true
    case JBool(b) => !b
    case JNum(n) => n == 0
    case JStr(s) => !PhpTruthy(s)
    case JArr(items) => items == []
    case JObj(fields) => fields == map[]
  }

  /** How PHP prints an integer. */
  function IntText(n: int): string {
    if n < 0 then "-" + Decimal(-n) else Decimal(n)
  }

  /** Only zero is written with a leading "0". */
  lemma {:induction false} DecimalLeadingDigit(n: nat)
    ensures Decimal(n)[0] == '0' ==> n == 0
    decreases n
  {
    if n >= 10 {
      DecimalLeadingDigit(n / 10);
      assert Decimal(n)[0] == Decimal(n / 10)[0];
    } else {
      assert "0123456789"[n] == "0123456789"[0] ==> n == 0;
    }
  }

  /** A string with no space at either end is its own trim. */
  lemma TrimOfTrimmed(s: string, space: set<char>)
    requires s != [] && s[0] !in space && s[|s| - 1] !in space
    ensures Trim(s, space) == s
  {
  }

  /** A digit or a minus sign is not white space. */
  lemma NotSpace(c: char)
    requires IsDigit(c) || c == '-'
    ensures c !in FilterSpace && c !in NumericSpace
  {
  }

  lemma IntTextShape(n: int)
    ensures var t := IntText(n);
      && t != [] && t[0] !in NumericSpace && t[|t| - 1] !in NumericSpace
      && t[0] !in FilterSpace && t[|t| - 1] !in FilterSpace
      && Unsigned(t) == Decimal(if n < 0 then -n else n)
      && (t[0] == '-' <==> n < 0)
      && (IsDigit(t[0]) || t[0] == '-')
  {
    var m: nat := if n < 0 then -n else n;
    var d := Decimal(m);
    var t := IntText(n);
    assert t[|t| - 1] == d[|d| - 1];
    NotSpace(d[|d| - 1]);
    NotSpace(t[0]);
  }

  /** What PHP prints for an integer is a sign and digits without a leading
      zero, worth that integer. */
  lemma IntTextDigits(n: int)
    ensures var t := IntText(n);
      && IsSignedDigits(t) && SignedValue(t) == n
      && (Unsigned(t)[0] != '0' || |Unsigned(t)| == 1)
  {
    var m: nat := if n < 0 then -n else n;
    var t := IntText(n);
    IntTextShape(n);
    ParseDecimal(m);
    DecimalLeadingDigit(m);
  }

  /** Printed integers are not blank. */
  lemma IntTextNotBlank(n: int)
    ensures !IsBlank(IntText(n))
  {
    IntTextShape(n);
    assert !IsTrimmable(IntText(n)[0]);
  }

  /** The integer rule and PHP's arithmetic both read back every integer as
      PHP prints it. */
  lemma FilterIntRoundTrip(n: int)
    ensures FilterInt(IntText(n)) == Some(n)
    ensures NumericInteger(IntText(n)) == Some(n)
    ensures IntegerValue(JStr(IntText(n))) == Some(n)
  {
    var t := IntText(n);
    IntTextShape(n);
    TrimOfTrimmed(t, FilterSpace);
    TrimOfTrimmed(t, NumericSpace);
    IntTextDigits(n);
  }

  lemma {:induction false} TrimStartWider(s: string, narrow: set<char>, wide: set<char>)
    requires narrow <= wide
    requires TrimStart(s, narrow) != [] && TrimStart(s, narrow)[0] !in wide
    ensures TrimStart(s, wide) == TrimStart(s, narrow)
    decreases |s|
  {
    if s != [] && s[0] in narrow {
      TrimStartWider(s[1..], narrow, wide);
    }
  }

  lemma {:induction false} TrimEndWider(s: string, narrow: set<char>, wide: set<char>)
    requires narrow <= wide
    requires TrimEnd(s, narrow) != [] && TrimEnd(s, narrow)[|TrimEnd(s, narrow)| - 1] !in wide
    ensures TrimEnd(s, wide) == TrimEnd(s, narrow)
    decreases |s|
  {
    if s != [] && s[|s| - 1] in narrow {
      TrimEndWider(s[..|s| - 1], narrow, wide);
    }
  }

  /** Whatever the integer rule accepts, PHP's arithmetic reads as the same
      number. */
  lemma FilterIntIsNumeric(s: string)
    ensures FilterInt(s).Some? ==> NumericInteger(s) == FilterInt(s)
  {
    if FilterInt(s).Some? {
      var u := TrimStart(s, FilterSpace);
      var t := TrimEnd(u, FilterSpace);
      assert t == Trim(s, FilterSpace);
      var d := Unsigned(t);
      assert IsDigit(d[|d| - 1]) && t[|t| - 1] == d[|d| - 1];
      NotSpace(t[|t| - 1]);
      assert IsDigit(t[0]) || t[0] == '-' || t[0] == '+';
      assert t[0] !in NumericSpace;
      assert u[0] == t[0];
      TrimStartWider(s, FilterSpace, NumericSpace);
      TrimEndWider(u, FilterSpace, NumericSpace);
    }
  }

  /** The converse fails: "05" is a number to PHP's arithmetic ... */
  lemma LeadingZeroIsNumeric()
    ensures NumericInteger("05") == Some(5)
  {
    TrimOfTrimmed("05", NumericSpace);
    assert ParseDigits("05") == ParseDigits("0") * 10 + 5 by {
      assert "05"[..1] == "0";
    }
    assert ParseDigits("0") == ParseDigits("") * 10 + 0;
  }

  /** ... but not to the integer rule. */
  lemma LeadingZeroFailsFilter()
    ensures FilterInt("05").None?
  {
    TrimOfTrimmed("05", FilterSpace);
  }

  /** A fraction is no integer to the filter. */
  lemma FractionIsNoInteger()
    ensures FilterInt("5.0").None?
  {
    TrimOfTrimmed("5.0", FilterSpace);
    assert Unsigned("5.0") == "5.0";
    assert !IsDigit("5.0"[1]);
  }
}

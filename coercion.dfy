/** The two coercions the pipeline applies with `errors="coerce"`:
    `pd.to_numeric` and `pd.to_datetime`. A value that cannot be converted
    becomes missing; nothing raises. */
module Coercion {
  import opened Tables

  predicate IsDigit(ch: char)
  {
    '0' <= ch <= '9'
  }

  predicate AllDigits(s: string)
  {
    forall i :: 0 <= i < |s| ==> IsDigit(s[i])
  }

  /** The natural number a run of decimal digits spells. */
  function DigitsValue(s: string): nat
    requires AllDigits(s)
  {
    if s == [] then 0
    else 10 * DigitsValue(s[..|s| - 1]) + (s[|s| - 1] as int - '0' as int)
  }

  function Pow10(n: nat): (p: nat)
    ensures p >= 1
  {
    if n == 0 then 1 else 10 * Pow10(n - 1)
  }

  /** Index of the first '.' in `s`, if any. */
  function FindDot(s: string): (k: Option<nat>)
    ensures k.Some? ==> k.value < |s| && s[k.value] == '.'
    ensures k.Some? ==> forall j :: 0 <= j < k.value ==> s[j] != '.'
    ensures k.None? ==> forall j :: 0 <= j < |s| ==> s[j] != '.'
  {
    if s == [] then None
    else if s[0] == '.' then Some(0)
    else match FindDot(s[1..])
      case None => None
      case Some(k) => Some(k + 1)
  }

  /** An unsigned decimal `ddd`, `ddd.ddd`, `ddd.` or `.ddd` (at least one digit). */
  function ParseUnsigned(s: string): Option<real>
  {
    match FindDot(s)
    case None =>
      if s != [] && AllDigits(s) then Some(DigitsValue(s) as real) else None
    case Some(k) =>
      var whole, frac := s[..k], s[k + 1..];
      if |whole| + |frac| > 0 && AllDigits(whole) && AllDigits(frac)
      then Some(DigitsValue(whole) as real + DigitsValue(frac) as real / Pow10(|frac|) as real)
      else None
  }

  /** The numeric text `pd.to_numeric` accepts: an optional sign and a plain decimal. */
  function ParseDecimal(s: string): (r: Option<real>)
    ensures s == [] ==> r.None?
  {
    if s != [] && s[0] == '-' then
      match ParseUnsigned(s[1..])
      case None => None
      case Some(x) => Some(-x)
    else if s != [] && s[0] == '+' then ParseUnsigned(s[1..])
    else ParseUnsigned(s)
  }

  predicate IsLeapYear(y: int)
  {
    y % 4 == 0 && (y % 100 != 0 || y % 400 == 0)
  }

  function DaysInMonth(y: int, m: int): int
    requires 1 <= m <= 12
  {
    if m == 2 then (if IsLeapYear(y) then 29 else 28)
    else if m == 4 || m == 6 || m == 9 || m == 11 then 30
    else 31
  }

  /** Days from 1970-01-01 to the proleptic Gregorian date y-m-d. */
  function DaysFromCivil(y: int, m: int, d: int): int
    requires 1 <= m <= 12
  {
    var y' := if m <= 2 then y - 1 else y;
    var era := y' / 400;
    var yoe := y' - era * 400;
    var mp := if m > 2 then m - 3 else m + 9;
    var doy := (153 * mp + 2) / 5 + d - 1;
    var doe := yoe * 365 + yoe / 4 - yoe / 100 + doy;
    era * 146097 + doe - 719468
  }

  /** The days a pandas Timestamp (64-bit nanoseconds) can hold at midnight:
      1677-09-22 through 2262-04-11. */
  const MinDay: int := -106751
  const MaxDay: int := 106751

  function DigitAt(s: string, i: nat): int
    requires i < |s|
  {
    s[i] as int - '0' as int
  }

  /** An ISO `YYYY-MM-DD` text, parsed to its day number, or missing when the
      text is not a real calendar date or falls outside the Timestamp range. */
  function ParseIsoDate(s: string): (r: Option<int>)
    ensures r.Some? ==> MinDay <= r.value <= MaxDay
  {
    if |s| == 10 && s[4] == '-' && s[7] == '-'
       && AllDigits(s[..4]) && AllDigits(s[5..7]) && AllDigits(s[8..])
    then
      var y := 1000 * DigitAt(s, 0) + 100 * DigitAt(s, 1) + 10 * DigitAt(s, 2) + DigitAt(s, 3);
      var m := 10 * DigitAt(s, 5) + DigitAt(s, 6);
      var d := 10 * DigitAt(s, 8) + DigitAt(s, 9);
      if 1 <= m <= 12 && 1 <= d <= DaysInMonth(y, m)
         && MinDay <= DaysFromCivil(y, m, d) <= MaxDay
      then Some(DaysFromCivil(y, m, d))
      else None
    else None
  }

  /** `pd.to_numeric(cell, errors="coerce")`. */
  function ToNumeric(c: Cell): Option<real>
  {
    match c
    case None => None
    case Some(Int(i)) => Some(i as real)
    case Some(Num(x)) => Some(x)
    case Some(Str(s)) => ParseDecimal(s)
    case Some(Date(_)) => None
  }

  /** `pd.to_datetime(cell, errors="coerce")`, normalised to a day. */
  function ToDatetime(c: Cell): Option<int>
  {
    match c
    case None => None
    case Some(Date(d)) => Some(d)
    case Some(Str(s)) => ParseIsoDate(s)
    case Some(_) => None
  }

  /** The cell stored back after `to_numeric`: a float, or missing. */
  function AsNumber(c: Cell): (r: Cell)
    ensures r == None || r.value.Num?
    ensures ToNumeric(r) == ToNumeric(c)
    ensures r == None <==> ToNumeric(c) == None
  {
    match ToNumeric(c)
    case None => None
    case Some(x) => Some(Num(x))
  }

  /** The cell stored back after `to_datetime`: a Timestamp, or missing. */
  function AsDate(c: Cell): (r: Cell)
    ensures r == None || r.value.Date?
    ensures ToDatetime(r) == ToDatetime(c)
    ensures r == None <==> ToDatetime(c) == None
  {
    match ToDatetime(c)
    case None => None
    case Some(d) => Some(Date(d))
  }
}

/** Semantic (business-rule) checks. Each one reports at column level: one
    finding when its column is absent, otherwise at most one finding however
    many rows break the rule. */
module Semantic {
  import opened Tables
  import opened Coercion
  import opened Findings

  predicate IsNegative(x: Option<real>)
  {
    x.Some? && x.value < 0.0
  }

  /** `check_positive`: after `to_numeric` coercion, no value is below 0. */
  function CheckPositive(t: Table, column: string): (r: seq<Finding>)
    ensures |r| <= 1
    ensures column !in t.columns ==> r == [PositiveAbsent(column)]
    ensures column in t.columns ==>
      && (r != [] <==> exists i :: 0 <= i < |t.rows| && IsNegative(ToNumeric(Get(t.rows[i], column))))
      && (r != [] ==> r == [NegativeValues(column)])
  {
    if column !in t.columns then [PositiveAbsent(column)]
    else
      var coerced := seq(|t.rows|, i requires 0 <= i < |t.rows| => ToNumeric(Get(t.rows[i], column)));
      var below := seq(|coerced|, i requires 0 <= i < |coerced| => IsNegative(coerced[i]));
      assert forall i :: 0 <= i < |t.rows| ==> below[i] == IsNegative(ToNumeric(Get(t.rows[i], column)));
      if AnyTrue(below) then [NegativeValues(column)] else []
  }

  /** `check_values_in_domain`: every cell, a missing one included, is one
      of the allowed values. */
  function CheckValuesInDomain(t: Table, column: string, validValues: set<Value>): (r: seq<Finding>)
    ensures |r| <= 1
    ensures column !in t.columns ==> r == [DomainAbsent(column)]
    ensures column in t.columns ==>
      && (r != [] <==> exists i :: 0 <= i < |t.rows| &&
                         (Get(t.rows[i], column).None? || Get(t.rows[i], column).value !in validValues))
      && (r != [] ==> r == [OutOfDomain(column)])
  {
    if column !in t.columns then [DomainAbsent(column)]
    else
      var s := ColumnCells(t, column);
      var isin := seq(|s|, i requires 0 <= i < |s| => s[i].Some? && s[i].value in validValues);
      assert forall i :: 0 <= i < |t.rows| ==>
        isin[i] == (Get(t.rows[i], column).Some? && Get(t.rows[i], column).value in validValues);
      if !AllTrue(isin) then [OutOfDomain(column)] else []
  }

  predicate IsAfter(d: Option<int>, today: int)
  {
    d.Some? && d.value > today
  }

  /** `check_not_future_dates`: no parsed date is later than today; a date
      that does not parse is missing and never counts. */
  function CheckNotFutureDates(t: Table, dateCol: string, today: int): (r: seq<Finding>)
    ensures |r| <= 1
    ensures dateCol !in t.columns ==> r == [DatesAbsent(dateCol)]
    ensures dateCol in t.columns ==>
      && (r != [] <==> exists i :: 0 <= i < |t.rows| && IsAfter(ToDatetime(Get(t.rows[i], dateCol)), today))
      && (r != [] ==> r == [FutureDates(dateCol)])
  {
    if dateCol !in t.columns then [DatesAbsent(dateCol)]
    else
      var fechas := seq(|t.rows|, i requires 0 <= i < |t.rows| => ToDatetime(Get(t.rows[i], dateCol)));
      var future := seq(|fechas|, i requires 0 <= i < |fechas| => IsAfter(fechas[i], today));
      assert forall i :: 0 <= i < |t.rows| ==> future[i] == IsAfter(ToDatetime(Get(t.rows[i], dateCol)), today);
      if AnyTrue(future) then [FutureDates(dateCol)] else []
  }
}

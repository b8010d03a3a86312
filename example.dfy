/** The deliberately faulty sales table of the repository's example script:
    ten sales with no `producto_id` column, one missing date, one date in
    2099, two negative amounts and one unknown currency. The lemmas state
    what the checkers, the router and the cleaner make of it, for any
    "today" before 2099-01-01. */
module ErrExample {
  import opened Tables
  import opened Coercion
  import opened Findings
  import opened Semantic
  import opened Syntactic
  import opened Runner
  import opened Router
  import opened Transform

  /** The columns of `df_err`, one sequence per column. */
  const Fechas: seq<Cell> := [
    Some(Str("2025-07-14")), None, Some(Str("2025-07-14")), Some(Str("2099-01-01")),
    Some(Str("2025-07-15")), Some(Str("2025-07-15")), Some(Str("2025-07-16")), Some(Str("2025-07-16")),
    Some(Str("2025-07-17")), Some(Str("2025-07-17"))]
  const Clientes: seq<int> := [1001, 1002, 1002, 1003, 1004, 1005, 1001, 1002, 1003, 1004]
  const Montos: seq<real> := [150.0, 200.0, -20.0, 999999.9, 0.0, 85.5, -1.0, 42.0, 13.2, 7.7]
  const Monedas: seq<string> := ["ARS", "ARS", "USD", "ARS", "XXX", "USD", "ARS", "ARS", "USD", "ARS"]

  /** Sale i of the example (from 0), with `venta_id` i + 1. */
  function Sale(i: nat): Row
    requires i < 10
  {
    map["venta_id" := Some(Int(i + 1)), "fecha" := Fechas[i], "cliente_id" := Some(Int(Clientes[i])),
        "monto" := Some(Num(Montos[i])), "moneda" := Some(Str(Monedas[i]))]
  }

  /** `df_err`: the integer amounts share the column with fractional ones,
      so pandas stores every amount as a float. */
  const DfErr: Table := Table(
    ["venta_id", "fecha", "cliente_id", "monto", "moneda"],
    map["venta_id" := "int64", "fecha" := "object", "cliente_id" := "int64",
        "monto" := "float64", "moneda" := "object"],
    seq(10, i requires 0 <= i < 10 => Sale(i)))

  /** 2099-01-01 as a day number. */
  const FarFuture: int := 47117

  lemma RowKeys()
    ensures forall r :: r in DfErr.rows ==> r.Keys == {"venta_id", "fecha", "cliente_id", "monto", "moneda"}
  {
    forall r | r in DfErr.rows
      ensures r.Keys == {"venta_id", "fecha", "cliente_id", "monto", "moneda"}
    {
      var i :| 0 <= i < 10 && DfErr.rows[i] == r;
      assert r == Sale(i);
    }
  }

  /** The example is a well-formed table. */
  lemma DfErrValid()
    ensures Valid(DfErr)
  {
    RowKeys();
  }

  /** The 2099 date parses, to a day well after any ordinary one. */
  lemma FarFutureDay()
    ensures ParseIsoDate("2099-01-01") == Some(FarFuture)
  {
    var s := "2099-01-01";
    assert s[..4] == ['2', '0', '9', '9'];
    assert s[5..7] == ['0', '1'];
    assert s[8..] == ['0', '1'];
    assert DigitAt(s, 0) == 2 && DigitAt(s, 1) == 0 && DigitAt(s, 2) == 9 && DigitAt(s, 3) == 9;
    assert DigitAt(s, 5) == 0 && DigitAt(s, 6) == 1 && DigitAt(s, 8) == 0 && DigitAt(s, 9) == 1;
    FarFutureCivil();
    ParsedAs(s, 2099, 1, 1);
  }

  lemma FarFutureCivil()
    ensures DaysFromCivil(2099, 1, 1) == FarFuture
  {
  }

  /** A well-shaped ISO text parses to the day of the date its digits spell. */
  lemma ParsedAs(s: string, y: int, m: int, d: int)
    requires |s| == 10 && s[4] == '-' && s[7] == '-'
    requires AllDigits(s[..4]) && AllDigits(s[5..7]) && AllDigits(s[8..])
    requires y == 1000 * DigitAt(s, 0) + 100 * DigitAt(s, 1) + 10 * DigitAt(s, 2) + DigitAt(s, 3)
    requires m == 10 * DigitAt(s, 5) + DigitAt(s, 6) && d == 10 * DigitAt(s, 8) + DigitAt(s, 9)
    requires 1 <= m <= 12 && 1 <= d <= DaysInMonth(y, m)
    requires MinDay <= DaysFromCivil(y, m, d) <= MaxDay
    ensures ParseIsoDate(s) == Some(DaysFromCivil(y, m, d))
  {
  }

  /** With no `producto_id` column, the router quarantines all ten sales
      and silver is empty. */
  lemma DfErrAllQuarantined(today: int)
    ensures Tier(PreparedRows(DfErr.rows), today, true) == []
    ensures Tier(PreparedRows(DfErr.rows), today, false) == PreparedRows(DfErr.rows)
    ensures |Tier(PreparedRows(DfErr.rows), today, false)| == 10
  {
    DfErrValid();
    AbsentProducto();
    MissingRequiredQuarantinesAll(DfErr, today, "producto_id");
  }

  lemma AbsentProducto()
    ensures "producto_id" in Required && "producto_id" !in DfErr.columns
  {
  }

  /** The 2099 sale is invalid because of its date: its amount is within
      the bounds. */
  lemma FutureSaleUnderCeiling(today: int)
    requires today < FarFuture
    ensures var r := PrepareRow(DfErr.rows[3]);
      && ToDatetime(Get(r, "fecha")) == Some(FarFuture)
      && ToNumeric(Get(r, "monto")) == Some(999999.9)
      && 0.0 <= 999999.9 <= Ceiling
      && Invalid(r, today)
  {
    FarFutureDay();
    assert DfErr.rows[3] == Sale(3);
    FutureRow(DfErr.rows[3], today);
  }

  lemma FutureRow(r0: Row, today: int)
    requires Get(r0, "fecha") == Some(Str("2099-01-01")) && Get(r0, "monto") == Some(Num(999999.9))
    requires ParseIsoDate("2099-01-01") == Some(FarFuture) && today < FarFuture
    ensures var r := PrepareRow(r0);
      && ToDatetime(Get(r, "fecha")) == Some(FarFuture)
      && ToNumeric(Get(r, "monto")) == Some(999999.9)
      && Invalid(r, today)
  {
    var r := PrepareRow(r0);
    assert Get(r, "fecha") == AsDate(Get(r0, "fecha"));
    assert Get(r, "monto") == AsNumber(Get(r0, "monto"));
  }

  lemma NamesPresent()
    ensures ColumnNameFindings(DfErr, SalesConfig.expectedCols) == []
  {
    assert MissingNames(DfErr, SalesConfig.expectedCols) == {};
  }

  lemma TypesPass()
    ensures TypesOutcome(DfErr, SalesConfig) == []
  {
    SalesTypesOutcome(DfErr);
  }

  lemma NegativeWitness(t: Table, i: nat)
    requires "monto" in t.columns && i < |t.rows|
    requires IsNegative(ToNumeric(Get(t.rows[i], "monto")))
    ensures CheckPositive(t, "monto") == [NegativeValues("monto")]
  {
  }

  lemma NegativeFound()
    ensures CheckPositive(DfErr, "monto") == [NegativeValues("monto")]
  {
    assert Get(DfErr.rows[2], "monto") == Some(Num(-20.0));
    NegativeWitness(DfErr, 2);
  }

  lemma FutureWitness(t: Table, today: int, i: nat)
    requires "fecha" in t.columns && i < |t.rows|
    requires IsAfter(ToDatetime(Get(t.rows[i], "fecha")), today)
    ensures CheckNotFutureDates(t, "fecha", today) == [FutureDates("fecha")]
  {
  }

  lemma FutureFound(today: int)
    requires today < FarFuture
    ensures CheckNotFutureDates(DfErr, "fecha", today) == [FutureDates("fecha")]
  {
    assert Get(DfErr.rows[3], "fecha") == Some(Str("2099-01-01"));
    FarFutureDay();
    FutureWitness(DfErr, today, 3);
  }

  /** `run_validations(df_err)` with the statistical step returning
      nothing: the negative amounts and the 2099 date, nothing else. */
  lemma DfErrFindings(today: int)
    requires today < FarFuture
    ensures ValidationFindings(DfErr, SalesConfig, today, StatReturned(None))
         == [NegativeValues("monto"), FutureDates("fecha")]
  {
    NamesPresent();
    TypesPass();
    NegativeFound();
    FutureFound(today);
    FindingsFromParts(DfErr, SalesConfig, today);
  }

  lemma FindingsFromParts(t: Table, cfg: Config, today: int)
    requires ColumnNameFindings(t, cfg.expectedCols) == []
    requires TypesOutcome(t, cfg) == []
    requires CheckPositive(t, "monto") == [NegativeValues("monto")]
    requires CheckNotFutureDates(t, "fecha", today) == [FutureDates("fecha")]
    ensures ValidationFindings(t, cfg, today, StatReturned(None))
         == [NegativeValues("monto"), FutureDates("fecha")]
  {
    var stat := StatFindings(StatReturned(None));
    assert stat == [];
    assert ColumnNameFindings(t, cfg.expectedCols) + TypesOutcome(t, cfg) + CheckPositive(t, "monto")
         + CheckNotFutureDates(t, "fecha", today) + stat
        == [] + [] + [NegativeValues("monto")] + [FutureDates("fecha")] + [];
  }

  /** `check_values_in_domain(df_err, "moneda", {"ARS", "USD"})` flags the
      `XXX` sale. */
  lemma DfErrDomain()
    ensures CheckValuesInDomain(DfErr, "moneda", {Str("ARS"), Str("USD")}) == [OutOfDomain("moneda")]
  {
    assert Get(DfErr.rows[4], "moneda") == Some(Str("XXX"));
  }

  /** The sales are numbered 1 to 10 in order. */
  lemma SaleNumbers()
    ensures |DfErr.rows| == 10
    ensures forall i :: 0 <= i < 10 ==> KeyOf(DfErr.rows[i]) == Some(Int(i + 1))
  {
  }

  lemma NumberedDistinct(rows: seq<Row>)
    requires forall i :: 0 <= i < |rows| ==> KeyOf(rows[i]) == Some(Int(i + 1))
    ensures NoDuplicateKeys(rows)
  {
  }

  lemma DistinctSales()
    ensures NoDuplicateKeys(DfErr.rows)
  {
    SaleNumbers();
    NumberedDistinct(DfErr.rows);
  }

  lemma AllAmountsComparable()
    ensures FirstIncomparable(DfErr.rows).None?
  {
    assert forall i :: 0 <= i < |DfErr.rows| ==> Get(DfErr.rows[i], "monto").value.Num?;
  }

  /** `clean_business_rules(df_err)`: no sale repeats, so all ten stay, and
      the two negative amounts become 0. */
  lemma DfErrClean()
    ensures CleanSpec(DfErr).Ok?
    ensures |CleanSpec(DfErr).value.rows| == 10
    ensures Get(CleanSpec(DfErr).value.rows[2], "monto") == Some(Num(0.0))
    ensures Get(CleanSpec(DfErr).value.rows[6], "monto") == Some(Num(0.0))
    ensures Get(CleanSpec(DfErr).value.rows[3], "monto") == Some(Num(999999.9))
  {
    DistinctSales();
    DedupKeepsAllIff(DfErr.rows);
    AllAmountsComparable();
    CleanOfDistinct(DfErr);
    ClampExample();
  }

  /** Cleaning a table whose sales are distinct and whose amounts are all
      numbers only clamps. */
  lemma CleanOfDistinct(t: Table)
    requires "venta_id" in t.columns && "monto" in t.columns
    requires Dtype(t, "monto") != "datetime64[ns]"
    requires DedupFirst(t.rows) == t.rows
    requires FirstIncomparable(t.rows).None?
    ensures CleanSpec(t) == Ok(Table(t.columns, t.dtypes, ClampRows(t.rows)))
  {
  }

  lemma ClampExample()
    ensures |ClampRows(DfErr.rows)| == 10
    ensures Get(ClampRows(DfErr.rows)[2], "monto") == Some(Num(0.0))
    ensures Get(ClampRows(DfErr.rows)[6], "monto") == Some(Num(0.0))
    ensures Get(ClampRows(DfErr.rows)[3], "monto") == Some(Num(999999.9))
  {
  }
}

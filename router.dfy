/** `route_to_silver_quarantine`: coerce `monto` and `fecha` on a working
    copy, add every missing required column filled with nulls, mark each row
    invalid by a predicate over its own fields, and split the rows into the
    clean (silver) and quarantined tables, both with the same column order. */
module Router {
  import opened Tables
  import opened Coercion

  /** The six fields every sales record must have, in canonical order. */
  const Required: seq<string> := ["venta_id", "cliente_id", "producto_id", "fecha", "monto", "moneda"]

  /** The largest amount a clean record may carry. */
  const Ceiling: real := 10_000_000.0

  /** `moneda.isin({"ARS", "USD"})`; a missing cell is not in the set. */
  predicate ValidMoneda(c: Cell)
  {
    c == Some(Str("ARS")) || c == Some(Str("USD"))
  }

  /** One entry of `mask_invalid`, over a row whose `fecha` and `monto`
      have been coerced. A missing date or amount compares false. */
  predicate Invalid(r: Row, today: int)
  {
    || Get(r, "venta_id").None?
    || Get(r, "cliente_id").None?
    || Get(r, "producto_id").None?
    || Get(r, "fecha").None?
    || (ToDatetime(Get(r, "fecha")).Some? && ToDatetime(Get(r, "fecha")).value > today)
    || Get(r, "monto").None?
    || (ToNumeric(Get(r, "monto")).Some? && ToNumeric(Get(r, "monto")).value < 0.0)
    || (ToNumeric(Get(r, "monto")).Some? && ToNumeric(Get(r, "monto")).value > Ceiling)
    || !ValidMoneda(Get(r, "moneda"))
  }

  /** The two coercions applied to one row: `monto` becomes a float or
      missing, `fecha` a Timestamp or missing. Both keys end up present. */
  function CoerceRow(r: Row): Row
  {
    r["monto" := AsNumber(Get(r, "monto"))]["fecha" := AsDate(Get(r, "fecha"))]
  }

  /** A null cell for each of `names` the row does not have yet. */
  function FillNulls(r: Row, names: seq<string>): (p: Row)
    ensures p.Keys == r.Keys + (set c | c in names)
    ensures forall c :: Get(p, c) == Get(r, c)
  {
    if names == [] then r
    else
      var front := FillNulls(r, names[..|names| - 1]);
      var c := names[|names| - 1];
      assert forall x :: x in names <==> x in names[..|names| - 1] || x == c;
      if c in front then front else front[c := None]
  }

  /** The working copy's row, once the coercions and the fill are done. */
  function PrepareRow(r: Row): Row
  {
    FillNulls(CoerceRow(r), Required)
  }

  function PreparedRows(rows: seq<Row>): (p: seq<Row>)
    ensures |p| == |rows|
    ensures forall i :: 0 <= i < |rows| ==> p[i] == PrepareRow(rows[i])
  {
    seq(|rows|, i requires 0 <= i < |rows| => PrepareRow(rows[i]))
  }

  /** The rows of `df2[~mask_invalid]` (clean = true) or `df2[mask_invalid]`
      (clean = false), in their original order. */
  function Tier(rows: seq<Row>, today: int, clean: bool): (s: seq<Row>)
    ensures |s| <= |rows|
    ensures forall r :: r in s <==> r in rows && Invalid(r, today) != clean
  {
    if rows == [] then []
    else
      var front := Tier(rows[..|rows| - 1], today, clean);
      var last := rows[|rows| - 1];
      assert forall r :: r in rows <==> r in rows[..|rows| - 1] || r == last;
      if Invalid(last, today) != clean then front + [last] else front
  }

  /** `[c for c in cols if c not in ordered_cols]` once every required
      column is present. */
  function Others(cols: seq<string>): (o: seq<string>)
    ensures |o| <= |cols|
    ensures forall c :: c in o <==> c in cols && c !in Required
  {
    if cols == [] then []
    else
      var front := Others(cols[..|cols| - 1]);
      var c := cols[|cols| - 1];
      assert forall x :: x in cols <==> x in cols[..|cols| - 1] || x == c;
      if c !in Required then front + [c] else front
  }

  /** The column order of both outputs: the required columns in canonical
      order, then the others in their original order. */
  function OutputColumns(cols: seq<string>): seq<string>
  {
    Required + Others(cols)
  }

  /** The dtype `df2["fecha"] = pd.to_datetime(df2.get("fecha"), ...)` leaves.
      With a `fecha` column the result is a datetime64 series; without one,
      `to_datetime(None)` is `None`, and assigning it makes an all-null
      column of dtype `object`. */
  function FechaDtype(cols: seq<string>): (t: string)
    ensures t == "datetime64[ns]" <==> "fecha" in cols
    ensures t == "object" <==> "fecha" !in cols
  {
    if "fecha" in cols then "datetime64[ns]" else "object"
  }

  /** The dtype each output column carries. */
  ghost predicate OutputDtypes(df: Table, d: map<string, string>)
  {
    && d.Keys == ColumnSet(OutputColumns(df.columns))
    && d["monto"] == "float64"
    && d["fecha"] == FechaDtype(df.columns)
    && (forall c :: c in Required && c !in df.columns && c != "monto" && c != "fecha" ==> d[c] == "object")
    && (forall c :: c in df.columns && c !in Required ==> c in df.dtypes && d[c] == df.dtypes[c])
  }

  lemma {:induction false} OthersAppend(a: seq<string>, b: seq<string>)
    ensures Others(a + b) == Others(a) + Others(b)
    decreases |b|
  {
    if b == [] {
      assert a + b == a;
    } else {
      assert (a + b)[..|a + b| - 1] == a + b[..|b| - 1];
      OthersAppend(a, b[..|b| - 1]);
    }
  }

  lemma {:induction false} OthersOfRequired(a: seq<string>)
    requires forall c :: c in a ==> c in Required
    ensures Others(a) == []
    decreases |a|
  {
    if a != [] {
      assert a[|a| - 1] in a;
      OthersOfRequired(a[..|a| - 1]);
    }
  }

  lemma {:induction false} OthersDistinct(cols: seq<string>)
    requires Distinct(cols)
    ensures Distinct(Others(cols))
    decreases |cols|
  {
    if cols != [] {
      var front := cols[..|cols| - 1];
      assert Distinct(front);
      OthersDistinct(front);
    }
  }

  lemma OutputColumnsDistinct(cols: seq<string>)
    requires Distinct(cols)
    ensures Distinct(OutputColumns(cols))
  {
    OthersDistinct(cols);
    var out := OutputColumns(cols);
    forall i, j | 0 <= i < j < |out|
      ensures out[i] != out[j]
    {
      if j >= |Required| {
        assert out[j] in Others(cols);
        if i < |Required| {
          assert out[i] in Required;
        } else {
          assert out[i] == Others(cols)[i - |Required|];
        }
      }
    }
  }

  /** The columns the two coercions append: each of `monto` and `fecha`
      the table lacks. */
  function CoercionAdds(cols: seq<string>): (a: seq<string>)
    ensures forall c :: c in a ==> c in Required
  {
    (if "monto" in cols then [] else ["monto"]) + (if "fecha" in cols then [] else ["fecha"])
  }

  /** `df2["monto"] = pd.to_numeric(...)` then `df2["fecha"] = pd.to_datetime(...)`
      on the working copy. */
  method CoerceColumns(df: Table) returns (work: Table)
    requires Valid(df)
    ensures Valid(work) && |work.rows| == |df.rows|
    ensures forall i :: 0 <= i < |df.rows| ==> work.rows[i] == CoerceRow(df.rows[i])
    ensures work.columns == df.columns + CoercionAdds(df.columns)
    ensures work.dtypes == df.dtypes["monto" := "float64"]["fecha" := FechaDtype(df.columns)]
  {
    var n := |df.rows|;
    var mid := SetColumn(df, "monto", seq(n, i requires 0 <= i < n => AsNumber(Get(df.rows[i], "monto"))), "float64");
    work := SetColumn(mid, "fecha", seq(n, i requires 0 <= i < n => AsDate(Get(mid.rows[i], "fecha"))), FechaDtype(df.columns));
    forall i | 0 <= i < n
      ensures work.rows[i] == CoerceRow(df.rows[i])
    {
      assert Get(mid.rows[i], "fecha") == Get(df.rows[i], "fecha");
    }
    assert work.columns == df.columns + CoercionAdds(df.columns) by {
      if "monto" in df.columns {
        assert mid.columns == df.columns + [];
      }
    }
  }

  /** `for c in required_cols: if c not in df2.columns: df2[c] = pd.NA`. */
  method FillRequired(start: Table) returns (work: Table)
    requires Valid(start)
    ensures Valid(work) && |work.rows| == |start.rows|
    ensures forall i :: 0 <= i < |start.rows| ==> work.rows[i] == FillNulls(start.rows[i], Required)
    ensures exists added :: work.columns == start.columns + added && forall c :: c in added ==> c in Required
    ensures forall c :: c in Required ==> c in work.columns
    ensures forall c :: c in start.dtypes ==> c in work.dtypes && work.dtypes[c] == start.dtypes[c]
    ensures forall c :: c in work.dtypes && c !in start.dtypes ==> work.dtypes[c] == "object"
  {
    var n := |start.rows|;
    work := start;
    ghost var added: seq<string> := [];
    assert Required[..0] == [];
    for k := 0 to |Required|
      invariant Valid(work) && |work.rows| == n
      invariant work.columns == start.columns + added
      invariant forall c :: c in added ==> c in Required
      invariant forall j :: 0 <= j < k ==> Required[j] in work.columns
      invariant forall i :: 0 <= i < n ==> work.rows[i] == FillNulls(start.rows[i], Required[..k])
      invariant forall c :: c in start.dtypes ==> c in work.dtypes && work.dtypes[c] == start.dtypes[c]
      invariant forall c :: c in work.dtypes && c !in start.dtypes ==> work.dtypes[c] == "object"
    {
      var c := Required[k];
      assert Required[..k + 1] == Required[..k] + [c];
      FillStep(start.rows, work, c, Required[..k]);
      if c !in work.columns {
        work := SetColumn(work, c, seq(n, i requires 0 <= i < n => None), "object");
        added := added + [c];
      }
    }
    assert Required[..|Required|] == Required;
  }

  /** One round of the fill loop: a column the table lacks is added, null
      in every row, with dtype `object`; a column it has is left alone. */
  lemma FillStep(startRows: seq<Row>, work: Table, c: string, done: seq<string>)
    requires Valid(work) && |work.rows| == |startRows|
    requires forall i :: 0 <= i < |startRows| ==> work.rows[i] == FillNulls(startRows[i], done)
    ensures c !in work.columns ==>
      var next := SetColumn(work, c, seq(|startRows|, i requires 0 <= i < |startRows| => None), "object");
      forall i :: 0 <= i < |startRows| ==> next.rows[i] == FillNulls(startRows[i], done + [c])
    ensures c in work.columns ==>
      forall i :: 0 <= i < |startRows| ==> work.rows[i] == FillNulls(startRows[i], done + [c])
  {
    assert (done + [c])[..|done|] == done;
    forall i | 0 <= i < |startRows|
      ensures c in work.rows[i] <==> c in work.columns
    {
      assert work.rows[i] in work.rows;
    }
  }

  /** The output carries the required columns and every original one. */
  lemma OutputColumnSet(cols: seq<string>)
    ensures forall c :: c in ColumnSet(OutputColumns(cols)) <==> c in Required || c in cols
  {
    forall c | c in cols && c !in Required
      ensures c in OutputColumns(cols)
    {
      assert c in Others(cols);
    }
  }

  lemma DtypesAfterFill(df: Table, coerced: map<string, string>, d: map<string, string>)
    requires df.dtypes.Keys == ColumnSet(df.columns)
    requires coerced == df.dtypes["monto" := "float64"]["fecha" := FechaDtype(df.columns)]
    requires d.Keys == ColumnSet(OutputColumns(df.columns))
    requires forall c :: c in coerced ==> c in d && d[c] == coerced[c]
    requires forall c :: c in d && c !in coerced ==> d[c] == "object"
    ensures OutputDtypes(df, d)
  {
    OutputColumnSet(df.columns);
    FilledDtypes(df.columns, df.dtypes, coerced, d);
    KeptDtypes(df.columns, df.dtypes, coerced, d);
  }

  /** A required column the input lacks, other than the two coerced ones,
      is filled with nulls of dtype `object`. */
  lemma FilledDtypes(cols: seq<string>, dtypes: map<string, string>, coerced: map<string, string>, d: map<string, string>)
    requires dtypes.Keys == ColumnSet(cols)
    requires coerced.Keys == dtypes.Keys + {"monto", "fecha"}
    requires forall c :: c in Required ==> c in d
    requires forall c :: c in d && c !in coerced ==> d[c] == "object"
    ensures forall c :: c in Required && c !in cols && c != "monto" && c != "fecha" ==> d[c] == "object"
  {
    forall c | c in Required && c !in cols && c != "monto" && c != "fecha"
      ensures d[c] == "object"
    {
      assert c !in ColumnSet(cols);
    }
  }

  /** A column outside the required ones keeps its input dtype. */
  lemma KeptDtypes(cols: seq<string>, dtypes: map<string, string>, coerced: map<string, string>, d: map<string, string>)
    requires dtypes.Keys == ColumnSet(cols)
    requires forall c :: c in dtypes && c != "monto" && c != "fecha" ==> c in coerced && coerced[c] == dtypes[c]
    requires forall c :: c in coerced ==> c in d && d[c] == coerced[c]
    ensures forall c :: c in cols && c !in Required ==> c in dtypes && d[c] == dtypes[c]
  {
    forall c | c in cols && c !in Required
      ensures c in dtypes && d[c] == dtypes[c]
    {
      assert c in ColumnSet(cols);
      assert c != "monto" && c != "fecha" by {
        assert Required[3] == "fecha" && Required[4] == "monto";
      }
    }
  }

  /** The first half of the routing: `df.copy()`, the two coercions and the
      null fill. */
  method Prepare(df: Table) returns (work: Table)
    requires Valid(df)
    ensures Valid(work)
    ensures work.rows == PreparedRows(df.rows)
    ensures forall c :: c in Required ==> c in work.columns
    ensures Others(work.columns) == Others(df.columns)
    ensures ColumnSet(work.columns) == ColumnSet(OutputColumns(df.columns))
    ensures OutputDtypes(df, work.dtypes)
  {
    var coerced := CoerceColumns(df);
    work := FillRequired(coerced);
    ghost var added :| work.columns == coerced.columns + added && forall c :: c in added ==> c in Required;
    PreparedColumns(df.columns, added, work.columns);
    DtypesAfterFill(df, coerced.dtypes, work.dtypes);
    assert work.rows == PreparedRows(df.rows);
  }

  /** The columns once the coercions and the fill have appended theirs. */
  lemma PreparedColumns(cols: seq<string>, added: seq<string>, out: seq<string>)
    requires out == cols + CoercionAdds(cols) + added
    requires forall c :: c in added ==> c in Required
    requires forall c :: c in Required ==> c in out
    ensures Others(out) == Others(cols)
    ensures ColumnSet(out) == ColumnSet(OutputColumns(cols))
  {
    OthersAppend(cols, CoercionAdds(cols));
    OthersOfRequired(CoercionAdds(cols));
    OthersAppend(cols + CoercionAdds(cols), added);
    OthersOfRequired(added);
    assert cols + CoercionAdds(cols) + [] == cols + CoercionAdds(cols);
    OutputColumnSet(cols);
    forall c
      ensures c in out <==> c in Required || c in cols
    {
      assert c in out <==> c in cols || c in CoercionAdds(cols) || c in added;
    }
  }

  /** `df2[~mask_invalid]` and `df2[mask_invalid]`, row by row. */
  method Split(rows: seq<Row>, today: int) returns (silverRows: seq<Row>, quarRows: seq<Row>)
    ensures silverRows == Tier(rows, today, true)
    ensures quarRows == Tier(rows, today, false)
  {
    silverRows, quarRows := [], [];
    for i := 0 to |rows|
      invariant silverRows == Tier(rows[..i], today, true)
      invariant quarRows == Tier(rows[..i], today, false)
    {
      assert rows[..i + 1][..i] == rows[..i];
      if Invalid(rows[i], today) {
        quarRows := quarRows + [rows[i]];
      } else {
        silverRows := silverRows + [rows[i]];
      }
    }
    assert rows[..|rows|] == rows;
  }

  /** `ordered_cols + other_cols` for a working copy that has every
      required column. */
  method OrderColumns(cols: seq<string>) returns (order: seq<string>)
    requires forall c :: c in Required ==> c in cols
    ensures order == Required + Others(cols)
  {
    var ordered: seq<string> := [];
    for k := 0 to |Required|
      invariant ordered == Required[..k]
    {
      assert Required[..k + 1] == Required[..k] + [Required[k]];
      if Required[k] in cols {
        ordered := ordered + [Required[k]];
      }
    }
    var other: seq<string> := [];
    for j := 0 to |cols|
      invariant other == Others(cols[..j])
    {
      assert cols[..j + 1][..j] == cols[..j];
      if cols[j] !in ordered {
        other := other + [cols[j]];
      }
    }
    assert cols[..|cols|] == cols;
    order := ordered + other;
  }

  /** `route_to_silver_quarantine(df)` with today's date as an input. */
  method Route(df: Table, today: int) returns (silver: Table, quar: Table)
    requires Valid(df)
    ensures silver.columns == OutputColumns(df.columns) && quar.columns == OutputColumns(df.columns)
    ensures silver.rows == Tier(PreparedRows(df.rows), today, true)
    ensures quar.rows == Tier(PreparedRows(df.rows), today, false)
    ensures silver.dtypes == quar.dtypes && OutputDtypes(df, silver.dtypes)
    ensures Valid(silver) && Valid(quar)
  {
    var work := Prepare(df);
    var silverRows, quarRows := Split(work.rows, today);
    var order := OrderColumns(work.columns);
    silver := Table(order, work.dtypes, silverRows);
    quar := Table(order, work.dtypes, quarRows);
    OutputColumnsDistinct(df.columns);
  }

  /** A row goes to silver exactly when all six required fields are present,
      its date parses and is not after today, its amount parses and lies in
      [0, 10 000 000], and its currency is ARS or USD. A date or amount that
      does not parse therefore sends the row to quarantine. */
  lemma CleanMeaning(r: Row, today: int)
    ensures !Invalid(PrepareRow(r), today) <==>
      && Get(r, "venta_id").Some? && Get(r, "cliente_id").Some? && Get(r, "producto_id").Some?
      && ToDatetime(Get(r, "fecha")).Some? && ToDatetime(Get(r, "fecha")).value <= today
      && ToNumeric(Get(r, "monto")).Some? && 0.0 <= ToNumeric(Get(r, "monto")).value <= Ceiling
      && ValidMoneda(Get(r, "moneda"))
  {
    var p := PrepareRow(r);
    assert Get(p, "fecha") == AsDate(Get(r, "fecha"));
    assert Get(p, "monto") == AsNumber(Get(r, "monto"));
  }

  /** Every row lands in exactly one of the two tables. */
  lemma {:induction false} TierPartition(rows: seq<Row>, today: int)
    ensures |Tier(rows, today, true)| + |Tier(rows, today, false)| == |rows|
    ensures multiset(Tier(rows, today, true)) + multiset(Tier(rows, today, false)) == multiset(rows)
    decreases |rows|
  {
    if rows != [] {
      var front := rows[..|rows| - 1];
      var last := rows[|rows| - 1];
      TierPartition(front, today);
      assert rows == front + [last];
      PartitionStep(front, last, Tier(front, today, true), Tier(front, today, false), !Invalid(last, today));
    }
  }

  /** One step of `TierPartition`: the last row joins one side or the other. */
  lemma PartitionStep(front: seq<Row>, last: Row, a: seq<Row>, b: seq<Row>, keep: bool)
    requires |a| + |b| == |front|
    requires multiset(a) + multiset(b) == multiset(front)
    ensures var a' := if keep then a + [last] else a;
      var b' := if keep then b else b + [last];
      |a'| + |b'| == |front + [last]| && multiset(a') + multiset(b') == multiset(front + [last])
  {
  }

  /** A row's tier depends on that row alone: routing a concatenation is
      concatenating the routings. */
  lemma {:induction false} TierAppend(a: seq<Row>, b: seq<Row>, today: int, clean: bool)
    ensures Tier(a + b, today, clean) == Tier(a, today, clean) + Tier(b, today, clean)
    decreases |b|
  {
    if b == [] {
      assert a + b == a;
    } else {
      assert (a + b)[..|a + b| - 1] == a + b[..|b| - 1];
      TierAppend(a, b[..|b| - 1], today, clean);
    }
  }

  /** The tier keeps the relative order of rows: it is the subsequence of
      the input at strictly increasing positions, and it misses no row of
      its kind. */
  lemma {:induction false} TierOrder(rows: seq<Row>, today: int, clean: bool) returns (idx: seq<nat>)
    ensures |idx| == |Tier(rows, today, clean)|
    ensures forall j :: 0 <= j < |idx| ==> idx[j] < |rows| && rows[idx[j]] == Tier(rows, today, clean)[j]
    ensures forall j, k :: 0 <= j < k < |idx| ==> idx[j] < idx[k]
    ensures forall i :: 0 <= i < |rows| && Invalid(rows[i], today) != clean ==> i in idx
    decreases |rows|
  {
    if rows == [] {
      idx := [];
    } else {
      var m := |rows| - 1;
      var front := rows[..m];
      var idx0 := TierOrder(front, today, clean);
      var sel := seq(|rows|, i requires 0 <= i < |rows| => Invalid(rows[i], today) != clean);
      assert forall i :: 0 <= i < m ==> front[i] == rows[i];
      idx := OrderStep(rows, sel, Tier(front, today, clean), idx0);
    }
  }

  /** One step of `TierOrder`, with the selection given as flags: the last
      row is appended, with its position, exactly when it is selected. */
  lemma OrderStep(rows: seq<Row>, sel: seq<bool>, t0: seq<Row>, idx0: seq<nat>) returns (idx: seq<nat>)
    requires |sel| == |rows| > 0 && |idx0| == |t0|
    requires forall j :: 0 <= j < |idx0| ==> idx0[j] < |rows| - 1 && rows[idx0[j]] == t0[j]
    requires forall j, k :: 0 <= j < k < |idx0| ==> idx0[j] < idx0[k]
    requires forall i :: 0 <= i < |rows| - 1 && sel[i] ==> i in idx0
    ensures var t := if sel[|rows| - 1] then t0 + [rows[|rows| - 1]] else t0;
      && |idx| == |t|
      && (forall j :: 0 <= j < |idx| ==> idx[j] < |rows| && rows[idx[j]] == t[j])
      && (forall j, k :: 0 <= j < k < |idx| ==> idx[j] < idx[k])
      && (forall i :: 0 <= i < |rows| && sel[i] ==> i in idx)
  {
    var m := |rows| - 1;
    if sel[m] {
      idx := idx0 + [m];
      forall j | 0 <= j < |idx0|
        ensures idx[j] == idx0[j]
      {
      }
      forall i | 0 <= i < |rows| && sel[i]
        ensures i in idx
      {
        if i < m {
          var j :| 0 <= j < |idx0| && idx0[j] == i;
          assert idx[j] == i;
        } else {
          assert idx[|idx0|] == i;
        }
      }
    } else {
      idx := idx0;
    }
  }

  /** When some required column is absent, the fill leaves it null in every
      row, so nothing reaches silver and everything is quarantined. */
  lemma MissingRequiredQuarantinesAll(df: Table, today: int, c: string)
    requires Valid(df) && c in Required && c !in df.columns
    ensures Tier(PreparedRows(df.rows), today, true) == []
    ensures Tier(PreparedRows(df.rows), today, false) == PreparedRows(df.rows)
  {
    var rows := PreparedRows(df.rows);
    forall i | 0 <= i < |rows|
      ensures Invalid(rows[i], today)
    {
      assert df.rows[i] in df.rows;
      assert c !in df.rows[i];
      assert Get(rows[i], c) == Get(CoerceRow(df.rows[i]), c);
    }
    AllInvalid(rows, today);
  }

  lemma {:induction false} AllInvalid(rows: seq<Row>, today: int)
    requires forall i :: 0 <= i < |rows| ==> Invalid(rows[i], today)
    ensures Tier(rows, today, true) == []
    ensures Tier(rows, today, false) == rows
    decreases |rows|
  {
    if rows != [] {
      AllInvalid(rows[..|rows| - 1], today);
      assert rows == rows[..|rows| - 1] + [rows[|rows| - 1]];
    }
  }
}

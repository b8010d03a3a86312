/** The transform helpers: `normalize_types` coerces the two typed columns,
    `clean_business_rules` drops repeated sales and clamps negative amounts.
    Both work on a copy: the caller's table is a value and stays as it was. */
module Transform {
  import opened Tables
  import opened Coercion

  /** The cell `normalize_types` leaves in column c. */
  function NormalizedCell(c: string, cell: Cell): Cell
  {
    if c == "fecha" then AsDate(cell)
    else if c == "monto" then AsNumber(cell)
    else cell
  }

  /** `normalize_types(df)`: `fecha` through `to_datetime` and `monto`
      through `to_numeric`, each only when the column exists; every other
      column, the row count and the column list stay as they were. */
  method NormalizeTypes(df: Table) returns (out: Table)
    requires Valid(df)
    ensures Valid(out)
    ensures out.columns == df.columns && |out.rows| == |df.rows|
    ensures forall i, c :: 0 <= i < |df.rows| ==> Get(out.rows[i], c) == NormalizedCell(c, Get(df.rows[i], c))
    ensures forall c :: c != "fecha" && c != "monto" ==> Dtype(out, c) == Dtype(df, c)
    ensures "fecha" in df.columns ==> Dtype(out, "fecha") == "datetime64[ns]"
    ensures "monto" in df.columns ==> Dtype(out, "monto") == "float64"
    ensures "fecha" !in df.columns ==> Dtype(out, "fecha") == Dtype(df, "fecha")
    ensures "monto" !in df.columns ==> Dtype(out, "monto") == Dtype(df, "monto")
  {
    var n := |df.rows|;
    var mid := df;
    if "fecha" in df.columns {
      var dates := seq(n, i requires 0 <= i < n => AsDate(Get(df.rows[i], "fecha")));
      mid := SetColumn(df, "fecha", dates, "datetime64[ns]");
      CellsAfterSet(df, "fecha", dates, "datetime64[ns]");
    }
    out := mid;
    if "monto" in mid.columns {
      var amounts := seq(n, i requires 0 <= i < n => AsNumber(Get(mid.rows[i], "monto")));
      out := SetColumn(mid, "monto", amounts, "float64");
      CellsAfterSet(mid, "monto", amounts, "float64");
    }
  }

  /** What `df[c] = cells` does to the cells and dtypes of every other column. */
  lemma CellsAfterSet(t: Table, c: string, cells: seq<Cell>, dtype: string)
    requires |cells| == |t.rows| && c in t.columns
    ensures var u := SetColumn(t, c, cells, dtype);
      && u.columns == t.columns
      && (forall i, c' :: 0 <= i < |t.rows| ==> Get(u.rows[i], c') == if c' == c then cells[i] else Get(t.rows[i], c'))
      && (forall c' :: Dtype(u, c') == if c' == c then dtype else Dtype(t, c'))
  {
  }

  /** The key `drop_duplicates(subset=["venta_id"])` compares; two missing
      keys count as equal. */
  function KeyOf(r: Row): Cell
  {
    Get(r, "venta_id")
  }

  /** The keys occurring among the rows. */
  function KeysOf(rows: seq<Row>): (ks: set<Cell>)
    ensures |ks| <= |rows|
    ensures forall i :: 0 <= i < |rows| ==> KeyOf(rows[i]) in ks
  {
    if rows == [] then {}
    else
      var front := rows[..|rows| - 1];
      assert forall i :: 0 <= i < |front| ==> front[i] == rows[i];
      KeysOf(front) + {KeyOf(rows[|rows| - 1])}
  }

  /** Every key in KeysOf(rows) is the key of some row. */
  lemma {:induction false} KeysOfWitness(rows: seq<Row>, k: Cell) returns (i: nat)
    requires k in KeysOf(rows)
    ensures i < |rows| && KeyOf(rows[i]) == k
    decreases |rows|
  {
    var m := |rows| - 1;
    if KeyOf(rows[m]) == k {
      i := m;
    } else {
      i := KeysOfWitness(rows[..m], k);
    }
  }

  ghost predicate NoDuplicateKeys(rows: seq<Row>)
  {
    forall i, j :: 0 <= i < j < |rows| ==> KeyOf(rows[i]) != KeyOf(rows[j])
  }

  /** Row i is the first occurrence of its key. */
  ghost predicate FirstOfKey(rows: seq<Row>, i: int)
    requires 0 <= i < |rows|
  {
    forall j :: 0 <= j < i ==> KeyOf(rows[j]) != KeyOf(rows[i])
  }

  /** `drop_duplicates(subset=["venta_id"])` with the default `keep="first"`:
      one row per key, the first, in the original order. */
  function DedupFirst(rows: seq<Row>): (d: seq<Row>)
    ensures |d| <= |rows|
    ensures |d| == |KeysOf(rows)|
    ensures KeysOf(d) == KeysOf(rows)
    ensures NoDuplicateKeys(d)
  {
    if rows == [] then []
    else
      var front := rows[..|rows| - 1];
      var last := rows[|rows| - 1];
      var d0 := DedupFirst(front);
      assert KeysOf(rows) == KeysOf(front) + {KeyOf(last)};
      if KeyOf(last) in KeysOf(front) then
        assert KeysOf(rows) == KeysOf(front);
        d0
      else
        assert KeysOf(front) * {KeyOf(last)} == {};
        assert |KeysOf(rows)| == |KeysOf(front)| + 1;
        AppendNewKey(d0, last);
        d0 + [last]
  }

  lemma AppendNewKey(d: seq<Row>, r: Row)
    requires NoDuplicateKeys(d) && KeyOf(r) !in KeysOf(d)
    ensures NoDuplicateKeys(d + [r])
    ensures KeysOf(d + [r]) == KeysOf(d) + {KeyOf(r)}
  {
    assert (d + [r])[..|d|] == d;
    forall i, j | 0 <= i < j < |d + [r]|
      ensures KeyOf((d + [r])[i]) != KeyOf((d + [r])[j])
    {
      if j == |d| {
        assert KeyOf(d[i]) in KeysOf(d);
      }
    }
  }

  /** One more row: kept exactly when its key is new. */
  lemma DedupAppend(front: seq<Row>, r: Row)
    ensures KeysOf(front + [r]) == KeysOf(front) + {KeyOf(r)}
    ensures DedupFirst(front + [r]) ==
      if KeyOf(r) in KeysOf(front) then DedupFirst(front) else DedupFirst(front) + [r]
  {
    assert (front + [r])[..|front|] == front;
  }

  /** The loop behind `drop_duplicates`: remember the keys seen so far and
      keep a row only when its key is new. */
  method DropDuplicates(rows: seq<Row>) returns (kept: seq<Row>)
    ensures kept == DedupFirst(rows)
  {
    kept := [];
    var seen: set<Cell> := {};
    for i := 0 to |rows|
      invariant kept == DedupFirst(rows[..i])
      invariant seen == KeysOf(rows[..i])
    {
      assert rows[..i + 1] == rows[..i] + [rows[i]];
      DedupAppend(rows[..i], rows[i]);
      var key := KeyOf(rows[i]);
      if key !in seen {
        kept := kept + [rows[i]];
      }
      seen := seen + {key};
    }
    assert rows[..|rows|] == rows;
  }

  lemma FirstOfKeyPrefix(rows: seq<Row>, m: nat, i: nat)
    requires i < m <= |rows|
    ensures FirstOfKey(rows, i) == FirstOfKey(rows[..m], i)
  {
    assert forall j :: 0 <= j <= i ==> rows[..m][j] == rows[j];
  }

  /** The last row is kept exactly when it is the first of its key. */
  lemma DedupStep(rows: seq<Row>)
    requires rows != []
    ensures var m := |rows| - 1;
      if FirstOfKey(rows, m) then DedupFirst(rows) == DedupFirst(rows[..m]) + [rows[m]]
      else DedupFirst(rows) == DedupFirst(rows[..m])
  {
    var m := |rows| - 1;
    var front := rows[..m];
    if KeyOf(rows[m]) in KeysOf(front) {
      var i := KeysOfWitness(front, KeyOf(rows[m]));
      assert front[i] == rows[i];
      assert !FirstOfKey(rows, m);
    } else {
      forall j | 0 <= j < m
        ensures KeyOf(rows[j]) != KeyOf(rows[m])
      {
        assert front[j] == rows[j];
        assert KeyOf(front[j]) in KeysOf(front);
      }
    }
  }

  /** idx lists, in increasing order, the positions of the first
      occurrence of every key in rows, and the rows at those positions are d. */
  ghost predicate FirstOccurrences(rows: seq<Row>, d: seq<Row>, idx: seq<nat>)
  {
    && |idx| == |d|
    && (forall j :: 0 <= j < |idx| ==> idx[j] < |rows| && rows[idx[j]] == d[j] && FirstOfKey(rows, idx[j]))
    && (forall j, k :: 0 <= j < k < |idx| ==> idx[j] < idx[k])
    && (forall i :: 0 <= i < |rows| && FirstOfKey(rows, i) ==> i in idx)
  }

  lemma KeepLast(rows: seq<Row>, d0: seq<Row>, idx0: seq<nat>)
    requires rows != [] && FirstOfKey(rows, |rows| - 1)
    requires FirstOccurrences(rows[..|rows| - 1], d0, idx0)
    ensures FirstOccurrences(rows, d0 + [rows[|rows| - 1]], idx0 + [|rows| - 1])
  {
    var m := |rows| - 1;
    var idx := idx0 + [m];
    var d := d0 + [rows[m]];
    forall j | 0 <= j < |idx|
      ensures idx[j] < |rows| && rows[idx[j]] == d[j] && FirstOfKey(rows, idx[j])
    {
      if j < |idx0| {
        assert idx[j] == idx0[j];
        FirstOfKeyPrefix(rows, m, idx0[j]);
      }
    }
    forall i | 0 <= i < |rows| && FirstOfKey(rows, i)
      ensures i in idx
    {
      if i < m {
        FirstOfKeyPrefix(rows, m, i);
        assert i in idx0;
      } else {
        assert idx[|idx| - 1] == m;
      }
    }
  }

  lemma DropLast(rows: seq<Row>, d0: seq<Row>, idx0: seq<nat>)
    requires rows != [] && !FirstOfKey(rows, |rows| - 1)
    requires FirstOccurrences(rows[..|rows| - 1], d0, idx0)
    ensures FirstOccurrences(rows, d0, idx0)
  {
    var m := |rows| - 1;
    forall j | 0 <= j < |idx0|
      ensures idx0[j] < |rows| && rows[idx0[j]] == d0[j] && FirstOfKey(rows, idx0[j])
    {
      FirstOfKeyPrefix(rows, m, idx0[j]);
    }
    forall i | 0 <= i < |rows| && FirstOfKey(rows, i)
      ensures i in idx0
    {
      if i < m {
        FirstOfKeyPrefix(rows, m, i);
      } else {
        assert false;
      }
    }
  }

  /** Deduplication keeps exactly the first occurrence of each key, at
      strictly increasing positions, so survivors keep their order. */
  lemma {:induction false} DedupFirstOccurrences(rows: seq<Row>) returns (idx: seq<nat>)
    ensures FirstOccurrences(rows, DedupFirst(rows), idx)
    decreases |rows|
  {
    if rows == [] {
      idx := [];
    } else {
      var m := |rows| - 1;
      var idx0 := DedupFirstOccurrences(rows[..m]);
      DedupStep(rows);
      if FirstOfKey(rows, m) {
        KeepLast(rows, DedupFirst(rows[..m]), idx0);
        idx := idx0 + [m];
      } else {
        DropLast(rows, DedupFirst(rows[..m]), idx0);
        idx := idx0;
      }
    }
  }

  /** Appending a row keeps the keys distinct exactly when its key is new. */
  lemma NoDuplicateKeysStep(rows: seq<Row>)
    requires rows != []
    ensures NoDuplicateKeys(rows) <==>
      NoDuplicateKeys(rows[..|rows| - 1]) && FirstOfKey(rows, |rows| - 1)
  {
    var m := |rows| - 1;
    assert forall i :: 0 <= i < m ==> rows[..m][i] == rows[i];
  }

  /** Nothing is dropped exactly when no key repeats. */
  lemma {:induction false} DedupKeepsAllIff(rows: seq<Row>)
    ensures |DedupFirst(rows)| == |rows| <==> NoDuplicateKeys(rows)
    ensures NoDuplicateKeys(rows) ==> DedupFirst(rows) == rows
    decreases |rows|
  {
    if rows != [] {
      var m := |rows| - 1;
      DedupKeepsAllIff(rows[..m]);
      DedupStep(rows);
      NoDuplicateKeysStep(rows);
      LengthStep(rows, DedupFirst(rows[..m]), DedupFirst(rows));
    }
  }

  /** The arithmetic of one step of DedupKeepsAllIff, kept apart from the
      definition of DedupFirst. */
  lemma LengthStep(rows: seq<Row>, d0: seq<Row>, d: seq<Row>)
    requires rows != [] && |d0| <= |rows| - 1
    requires |d0| == |rows| - 1 <==> NoDuplicateKeys(rows[..|rows| - 1])
    requires NoDuplicateKeys(rows[..|rows| - 1]) ==> d0 == rows[..|rows| - 1]
    requires if FirstOfKey(rows, |rows| - 1) then d == d0 + [rows[|rows| - 1]] else d == d0
    requires NoDuplicateKeys(rows) <==>
      NoDuplicateKeys(rows[..|rows| - 1]) && FirstOfKey(rows, |rows| - 1)
    ensures |d| == |rows| <==> NoDuplicateKeys(rows)
    ensures NoDuplicateKeys(rows) ==> d == rows
  {
    var m := |rows| - 1;
    assert rows == rows[..m] + [rows[m]];
  }

  /** `monto < 0` is a numeric comparison: a missing amount compares false,
      a text or date raises. */
  predicate Incomparable(c: Cell)
  {
    c.Some? && (c.value.Str? || c.value.Date?)
  }

  /** The TypeError Python raises for `v < 0` when v is not a number. */
  function CompareMessage(v: Value): string
  {
    "'<' not supported between instances of '" + TypeName(v) + "' and 'int'"
  }

  /** The exception `out["monto"] < 0` raises, if any: a datetime column
      refuses the comparison outright; otherwise the first non-numeric
      amount, in row order, raises. */
  function FirstIncomparable(rows: seq<Row>): (e: Option<string>)
    ensures e.None? <==> forall i :: 0 <= i < |rows| ==> !Incomparable(Get(rows[i], "monto"))
  {
    if rows == [] then None
    else
      var front := rows[..|rows| - 1];
      assert forall i :: 0 <= i < |front| ==> front[i] == rows[i];
      match FirstIncomparable(front)
      case Some(m) => Some(m)
      case None =>
        var c := Get(rows[|rows| - 1], "monto");
        if Incomparable(c) then Some(CompareMessage(c.value)) else None
  }

  function CompareError(t: Table): (e: Option<string>)
    ensures e.None? <==> Dtype(t, "monto") != "datetime64[ns]"
                         && forall i :: 0 <= i < |t.rows| ==> !Incomparable(Get(t.rows[i], "monto"))
  {
    if Dtype(t, "monto") == "datetime64[ns]" then Some("Invalid comparison between dtype=datetime64[ns] and int")
    else FirstIncomparable(t.rows)
  }

  predicate BelowZero(c: Cell)
  {
    ToNumeric(c).Some? && ToNumeric(c).value < 0.0 && !Incomparable(c)
  }

  /** The zero assigned to a negative amount, of the amount's own kind. */
  function Zero(c: Cell): Cell
  {
    if c.Some? && c.value.Int? then Some(Int(0)) else Some(Num(0.0))
  }

  /** `out.loc[out["monto"] < 0, "monto"] = 0` for one row. */
  function ClampRow(r: Row): Row
  {
    if BelowZero(Get(r, "monto")) then r["monto" := Zero(Get(r, "monto"))] else r
  }

  function ClampRows(rows: seq<Row>): (c: seq<Row>)
    ensures |c| == |rows|
    ensures forall i :: 0 <= i < |rows| ==> c[i] == ClampRow(rows[i])
  {
    seq(|rows|, i requires 0 <= i < |rows| => ClampRow(rows[i]))
  }

  /** What `clean_business_rules(df)` returns, or the exception it raises. */
  function CleanSpec(df: Table): Result<Table>
  {
    var rows := if "venta_id" in df.columns then DedupFirst(df.rows) else df.rows;
    var t := Table(df.columns, df.dtypes, rows);
    if "monto" !in df.columns then Ok(t)
    else match CompareError(t)
      case Some(m) => Raised(m)
      case None => Ok(Table(df.columns, df.dtypes, ClampRows(rows)))
  }

  /** `out["monto"] < 0`, element by element: the mask of negative
      amounts, or the exception of the first amount that is not a number. */
  method NegativeMask(rows: seq<Row>) returns (r: Result<seq<bool>>)
    ensures r.Raised? <==> FirstIncomparable(rows).Some?
    ensures r.Raised? ==> FirstIncomparable(rows) == Some(r.message)
    ensures r.Ok? ==> |r.value| == |rows|
    ensures r.Ok? ==> forall j :: 0 <= j < |rows| ==> r.value[j] == BelowZero(Get(rows[j], "monto"))
  {
    var below: seq<bool> := [];
    for i := 0 to |rows|
      invariant |below| == i
      invariant forall j :: 0 <= j < i ==> below[j] == BelowZero(Get(rows[j], "monto"))
      invariant FirstIncomparable(rows[..i]).None?
    {
      var c := Get(rows[i], "monto");
      assert rows[..i + 1][..i] == rows[..i];
      if Incomparable(c) {
        assert rows[..i + 1][i] == rows[i];
        FirstIncomparablePropagates(rows, i + 1);
        return Raised(CompareMessage(c.value));
      }
      below := below + [ToNumeric(c).Some? && ToNumeric(c).value < 0.0];
    }
    assert rows[..|rows|] == rows;
    r := Ok(below);
  }

  /** `out.loc[mask, "monto"] = 0`: zero the amounts the mask selects. */
  method ZeroMasked(rows: seq<Row>, below: seq<bool>) returns (out: seq<Row>)
    requires |below| == |rows|
    requires forall j :: 0 <= j < |rows| ==> below[j] == BelowZero(Get(rows[j], "monto"))
    ensures out == ClampRows(rows)
  {
    out := rows;
    for i := 0 to |rows|
      invariant |out| == |rows|
      invariant forall j :: 0 <= j < |rows| ==> out[j] == if j < i then ClampRow(rows[j]) else rows[j]
    {
      if below[i] {
        out := out[i := out[i]["monto" := Zero(Get(out[i], "monto"))]];
      }
    }
  }

  /** `clean_business_rules(df)`: deduplicate, then compute the mask of
      negative amounts and zero them. */
  method CleanBusinessRules(df: Table) returns (r: Result<Table>)
    ensures r == CleanSpec(df)
  {
    var rows := df.rows;
    if "venta_id" in df.columns {
      rows := DropDuplicates(df.rows);
    }
    if "monto" in df.columns {
      if Dtype(df, "monto") == "datetime64[ns]" {
        return Raised("Invalid comparison between dtype=datetime64[ns] and int");
      }
      var mask := NegativeMask(rows);
      if mask.Raised? {
        return Raised(mask.message);
      }
      rows := ZeroMasked(rows, mask.value);
    }
    r := Ok(Table(df.columns, df.dtypes, rows));
  }

  lemma {:induction false} FirstIncomparablePropagates(rows: seq<Row>, k: nat)
    requires k <= |rows|
    requires FirstIncomparable(rows[..k]).Some?
    ensures FirstIncomparable(rows) == FirstIncomparable(rows[..k])
    decreases |rows| - k
  {
    if k < |rows| {
      assert rows[..k + 1][..k] == rows[..k];
      FirstIncomparablePropagates(rows, k + 1);
    } else {
      assert rows[..k] == rows;
    }
  }

  /** After cleaning, no amount is negative: negatives became zero, and
      every other cell, other amounts included, is as it was. */
  lemma ClampEffect(rows: seq<Row>)
    ensures forall i :: 0 <= i < |rows| ==> !BelowZero(Get(ClampRows(rows)[i], "monto"))
    ensures forall i :: 0 <= i < |rows| && BelowZero(Get(rows[i], "monto")) ==>
      ToNumeric(Get(ClampRows(rows)[i], "monto")) == Some(0.0)
    ensures forall i, c :: 0 <= i < |rows| && (c != "monto" || !BelowZero(Get(rows[i], "monto"))) ==>
      Get(ClampRows(rows)[i], c) == Get(rows[i], c)
  {
  }

  /** Keys survive clamping, since `venta_id` is not `monto`. */
  lemma ClampKeepsKeys(rows: seq<Row>)
    ensures forall i :: 0 <= i < |rows| ==> KeyOf(ClampRows(rows)[i]) == KeyOf(rows[i])
    ensures NoDuplicateKeys(rows) ==> NoDuplicateKeys(ClampRows(rows))
  {
  }

  /** After a successful clean, `venta_id` values are pairwise distinct and
      no amount is negative. */
  lemma CleanGuarantees(df: Table)
    requires "venta_id" in df.columns && "monto" in df.columns
    requires CleanSpec(df).Ok?
    ensures NoDuplicateKeys(CleanSpec(df).value.rows)
    ensures forall i :: 0 <= i < |CleanSpec(df).value.rows| ==>
      !BelowZero(Get(CleanSpec(df).value.rows[i], "monto"))
    ensures |CleanSpec(df).value.rows| <= |df.rows|
    ensures |CleanSpec(df).value.rows| == |df.rows| <==> NoDuplicateKeys(df.rows)
  {
    var d := DedupFirst(df.rows);
    ClampKeepsKeys(d);
    ClampEffect(d);
    DedupKeepsAllIff(df.rows);
  }

  /** Clamping leaves no amount to clamp, and keeps every amount
      comparable that was. */
  lemma ClampSettled(rows: seq<Row>)
    ensures ClampRows(ClampRows(rows)) == ClampRows(rows)
    ensures FirstIncomparable(rows).None? ==> FirstIncomparable(ClampRows(rows)).None?
  {
    var c := ClampRows(rows);
    forall i | 0 <= i < |rows|
      ensures ClampRow(c[i]) == c[i]
      ensures !Incomparable(Get(rows[i], "monto")) ==> !Incomparable(Get(c[i], "monto"))
    {
    }
  }

  /** A cleaned row sequence is a fixed point of cleaning. */
  lemma CleanSpecSettled(cols: seq<string>, dtypes: map<string, string>, rows: seq<Row>)
    requires "venta_id" in cols ==> NoDuplicateKeys(rows)
    requires "monto" in cols ==> Dtype(Table(cols, dtypes, rows), "monto") != "datetime64[ns]"
    requires "monto" in cols ==> FirstIncomparable(rows).None?
    requires "monto" in cols ==> ClampRows(rows) == rows
    ensures CleanSpec(Table(cols, dtypes, rows)) == Ok(Table(cols, dtypes, rows))
  {
    if "venta_id" in cols {
      DedupKeepsAllIff(rows);
    }
  }

  /** Cleaning a cleaned table changes nothing. */
  lemma CleanIdempotent(df: Table)
    requires CleanSpec(df).Ok?
    ensures CleanSpec(CleanSpec(df).value) == CleanSpec(df)
  {
    var d := if "venta_id" in df.columns then DedupFirst(df.rows) else df.rows;
    assert "venta_id" in df.columns ==> NoDuplicateKeys(d);
    var rows := if "monto" in df.columns then ClampRows(d) else d;
    assert CleanSpec(df) == Ok(Table(df.columns, df.dtypes, rows));
    ClampKeepsKeys(d);
    ClampSettled(d);
    CleanSpecSettled(df.columns, df.dtypes, rows);
  }
}

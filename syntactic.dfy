/** Syntactic checks: the expected columns are there, and they hold the
    expected types. Neither check changes the table. */
module Syntactic {
  import opened Tables
  import opened Findings
  import opened StringOrder

  /** `set(expected) - set(df.columns)`. */
  function MissingNames(t: Table, expected: seq<string>): set<string>
  {
    set c | c in expected && c !in t.columns
  }

  /** What `check_column_names` returns: one finding per missing name, in
      `sorted()` order. */
  ghost function ColumnNameFindings(t: Table, expected: seq<string>): seq<Finding>
  {
    var names := SortedStrings(MissingNames(t, expected));
    seq(|names|, i requires 0 <= i < |names| => MissingColumn(names[i]))
  }

  method CheckColumnNames(t: Table, expected: seq<string>) returns (errors: seq<Finding>)
    ensures errors == ColumnNameFindings(t, expected)
  {
    var names := SortStrings(MissingNames(t, expected));
    errors := MissingFindings(names);
  }

  /** The loop body of `check_column_names`: one missing-column finding per
      name, in the order given. */
  method MissingFindings(names: seq<string>) returns (errors: seq<Finding>)
    ensures errors == seq(|names|, i requires 0 <= i < |names| => MissingColumn(names[i]))
  {
    errors := [];
    for i := 0 to |names|
      invariant errors == seq(i, j requires 0 <= j < i => MissingColumn(names[j]))
    {
      errors := errors + [MissingColumn(names[i])];
    }
  }

  /** Exactly one finding per distinct expected name the table lacks, none
      for names it has, and the findings ordered by column name. */
  lemma ColumnNameFindingsSpec(t: Table, expected: seq<string>)
    ensures var fs := ColumnNameFindings(t, expected);
      && (forall f :: f in fs ==> f.MissingColumn?)
      && (forall c :: MissingColumn(c) in fs <==> c in expected && c !in t.columns)
      && (forall i, j :: 0 <= i < j < |fs| ==> Less(fs[i].col, fs[j].col))
      && |fs| == |MissingNames(t, expected)|
  {
    var names := SortedStrings(MissingNames(t, expected));
    var fs := ColumnNameFindings(t, expected);
    forall c
      ensures MissingColumn(c) in fs <==> c in expected && c !in t.columns
    {
      if MissingColumn(c) in fs {
        var i :| 0 <= i < |fs| && fs[i] == MissingColumn(c);
        assert names[i] == c;
        assert c in names;
        assert c in MissingNames(t, expected);
      }
      if c in expected && c !in t.columns {
        assert c in MissingNames(t, expected);
        assert c in names;
        var i :| 0 <= i < |names| && names[i] == c;
        assert fs[i] == MissingColumn(c);
      }
    }
  }

  /** An entry of `expected_types`: a pandas dtype string, a Python type
      (given by its `__name__`), or some other object, which has no
      `__name__`. */
  datatype TypeSpec = DtypeTag(tag: string) | PyType(name: string) | NotAType(pyTypeName: string)

  /** `s[s.notna()]`: the values of the non-missing cells, in order. */
  function NonNullValues(cells: seq<Cell>): (vs: seq<Value>)
    ensures forall v :: v in vs <==> Some(v) in cells
    ensures vs == [] <==> forall i :: 0 <= i < |cells| ==> cells[i].None?
  {
    if cells == [] then []
    else
      var front := NonNullValues(cells[..|cells| - 1]);
      assert forall v :: Some(v) in cells <==> Some(v) in cells[..|cells| - 1] || cells[|cells| - 1] == Some(v);
      match cells[|cells| - 1]
      case None => front
      case Some(v) => front + [v]
  }

  /** `s.notna().any()`. */
  function AnyNonNull(cells: seq<Cell>): (b: bool)
    ensures b <==> exists i :: 0 <= i < |cells| && cells[i].Some?
  {
    var mask := seq(|cells|, i requires 0 <= i < |cells| => cells[i].Some?);
    assert forall i :: 0 <= i < |cells| ==> mask[i] == cells[i].Some?;
    AnyTrue(mask)
  }

  /** `not s[s.notna()].map(type).eq(expected).all()`: some non-missing
      value is of another Python type. */
  function AnyOtherType(cells: seq<Cell>, name: string): (b: bool)
    ensures b <==> exists i :: 0 <= i < |cells| && cells[i].Some? && TypeName(cells[i].value) != name
  {
    var present := NonNullValues(cells);
    var same := seq(|present|, i requires 0 <= i < |present| => TypeName(present[i]) == name);
    assert !AllTrue(same) <==> exists v :: v in present && TypeName(v) != name by {
      if !AllTrue(same) {
        var i :| 0 <= i < |present| && !same[i];
        assert present[i] in present;
      }
      if exists v :: v in present && TypeName(v) != name {
        var v :| v in present && TypeName(v) != name;
        var i :| 0 <= i < |present| && present[i] == v;
        assert !same[i];
      }
    }
    assert (exists v :: v in present && TypeName(v) != name) <==>
           exists i :: 0 <= i < |cells| && cells[i].Some? && TypeName(cells[i].value) != name by {
      if exists i :: 0 <= i < |cells| && cells[i].Some? && TypeName(cells[i].value) != name {
        var i :| 0 <= i < |cells| && cells[i].Some? && TypeName(cells[i].value) != name;
        assert Some(cells[i].value) in cells;
      }
    }
    !AllTrue(same)
  }

  /** The one outcome of `check_types` for a single entry: nothing, a
      finding, or the AttributeError raised by `expected.__name__`. */
  function EntryFinding(t: Table, col: string, spec: TypeSpec): Result<Option<Finding>>
  {
    if col !in t.columns then Ok(Some(TypeCheckAbsent(col)))
    else
      var cells := ColumnCells(t, col);
      match spec
      case DtypeTag(tag) =>
        if Dtype(t, col) != tag then Ok(Some(DtypeMismatch(col, Dtype(t, col), tag))) else Ok(None)
      case PyType(name) =>
        if !AnyNonNull(cells) then Ok(None)
        else if AnyOtherType(cells, name) then Ok(Some(ElemTypeMismatch(col, name)))
        else Ok(None)
      case NotAType(pyTypeName) =>
        if !AnyNonNull(cells) then Ok(None)
        else Raised("'" + pyTypeName + "' object has no attribute '__name__'")
  }

  /** Per entry: an absent column is reported, a dtype tag is compared with
      the column's dtype, a Python type with the type of each non-missing
      value, and an object without `__name__` raises as soon as the column
      holds a non-missing value. */
  lemma EntryFindingSpec(t: Table, col: string, spec: TypeSpec)
    ensures col !in t.columns ==> EntryFinding(t, col, spec) == Ok(Some(TypeCheckAbsent(col)))
    ensures var r := EntryFinding(t, col, spec);
      col in t.columns && spec.DtypeTag? ==>
        && r.Ok?
        && (r.value.Some? <==> Dtype(t, col) != spec.tag)
        && (r.value.Some? ==> r.value.value == DtypeMismatch(col, Dtype(t, col), spec.tag))
    ensures var r := EntryFinding(t, col, spec);
      col in t.columns && spec.PyType? ==>
        && r.Ok?
        && (r.value.Some? <==> exists i :: 0 <= i < |t.rows| && Get(t.rows[i], col).Some?
                                           && TypeName(Get(t.rows[i], col).value) != spec.name)
        && (r.value.Some? ==> r.value.value == ElemTypeMismatch(col, spec.name))
    ensures var r := EntryFinding(t, col, spec);
      col in t.columns && spec.NotAType? ==>
        && (r.Raised? <==> exists i :: 0 <= i < |t.rows| && Get(t.rows[i], col).Some?)
        && (r.Ok? ==> r.value.None?)
  {
  }

  /** What `check_types` returns for the entries of `expected_types` in
      iteration order: the findings, or the first exception raised. */
  function TypeFindings(t: Table, expected: seq<(string, TypeSpec)>): Result<seq<Finding>>
  {
    if expected == [] then Ok([])
    else
      var last := expected[|expected| - 1];
      match TypeFindings(t, expected[..|expected| - 1])
      case Raised(m) => Raised(m)
      case Ok(fs) =>
        match EntryFinding(t, last.0, last.1)
        case Raised(m) => Raised(m)
        case Ok(None) => Ok(fs)
        case Ok(Some(f)) => Ok(fs + [f])
  }

  method CheckTypes(t: Table, expected: seq<(string, TypeSpec)>) returns (r: Result<seq<Finding>>)
    ensures r == TypeFindings(t, expected)
  {
    var errors: seq<Finding> := [];
    for k := 0 to |expected|
      invariant TypeFindings(t, expected[..k]) == Ok(errors)
    {
      assert expected[..k + 1][..k] == expected[..k];
      var (col, spec) := expected[k];
      if col !in t.columns {
        errors := errors + [TypeCheckAbsent(col)];
        continue;
      }
      match spec {
        case DtypeTag(tag) =>
          if Dtype(t, col) != tag {
            errors := errors + [DtypeMismatch(col, Dtype(t, col), tag)];
          }
        case PyType(name) =>
          var cells := ColumnCells(t, col);
          if AnyNonNull(cells) {
            var ok := !AnyOtherType(cells, name);
            if !ok {
              errors := errors + [ElemTypeMismatch(col, name)];
            }
          }
        case NotAType(pyTypeName) =>
          if AnyNonNull(ColumnCells(t, col)) {
            r := Raised("'" + pyTypeName + "' object has no attribute '__name__'");
            RaisedPropagates(t, expected, k + 1);
            return;
          }
      }
    }
    assert expected[..|expected|] == expected;
    r := Ok(errors);
  }

  /** Once an entry raises, `check_types` as a whole raises that exception. */
  lemma {:induction false} RaisedPropagates(t: Table, expected: seq<(string, TypeSpec)>, k: nat)
    requires k <= |expected|
    requires TypeFindings(t, expected[..k]).Raised?
    ensures TypeFindings(t, expected) == TypeFindings(t, expected[..k])
    decreases |expected| - k
  {
    if k < |expected| {
      assert expected[..k + 1][..k] == expected[..k];
      RaisedPropagates(t, expected, k + 1);
    } else {
      assert expected[..k] == expected;
    }
  }

  /** The outcome of each entry of `expected_types` on its own. */
  ghost function Outcomes(t: Table, expected: seq<(string, TypeSpec)>): (o: seq<Result<Option<Finding>>>)
    ensures |o| == |expected|
  {
    seq(|expected|, i requires 0 <= i < |expected| => EntryFinding(t, expected[i].0, expected[i].1))
  }

  /** Combining per-entry outcomes in order: the first exception wins,
      otherwise the findings are collected. */
  function Collect(outs: seq<Result<Option<Finding>>>): Result<seq<Finding>>
  {
    if outs == [] then Ok([])
    else
      match Collect(outs[..|outs| - 1])
      case Raised(m) => Raised(m)
      case Ok(fs) =>
        match outs[|outs| - 1]
        case Raised(m) => Raised(m)
        case Ok(None) => Ok(fs)
        case Ok(Some(f)) => Ok(fs + [f])
  }

  lemma {:induction false} CollectSpec(outs: seq<Result<Option<Finding>>>)
    ensures Collect(outs).Ok? <==> forall i :: 0 <= i < |outs| ==> outs[i].Ok?
    ensures Collect(outs).Ok? ==> |Collect(outs).value| <= |outs|
    ensures Collect(outs).Ok? ==> forall f :: f in Collect(outs).value ==>
      exists i :: 0 <= i < |outs| && outs[i] == Ok(Some(f))
    ensures Collect(outs).Ok? ==> forall i :: 0 <= i < |outs| && outs[i].Ok? && outs[i].value.Some? ==>
      outs[i].value.value in Collect(outs).value
    decreases |outs|
  {
    if outs != [] {
      var m := |outs| - 1;
      var front := outs[..m];
      CollectSpec(front);
      assert forall i :: 0 <= i < m ==> front[i] == outs[i];
      if Collect(outs).Ok? {
        forall f | f in Collect(outs).value
          ensures exists i :: 0 <= i < |outs| && outs[i] == Ok(Some(f))
        {
          if f in Collect(front).value {
            var i :| 0 <= i < m && front[i] == Ok(Some(f));
            assert outs[i] == Ok(Some(f));
          } else {
            assert outs[m] == Ok(Some(f));
          }
        }
        forall i | 0 <= i < |outs| && outs[i].Ok? && outs[i].value.Some?
          ensures outs[i].value.value in Collect(outs).value
        {
          if i < m {
            assert front[i] == outs[i];
          }
        }
      }
    }
  }

  lemma {:induction false} TypeFindingsCollect(t: Table, expected: seq<(string, TypeSpec)>)
    ensures TypeFindings(t, expected) == Collect(Outcomes(t, expected))
    decreases |expected|
  {
    if expected != [] {
      var m := |expected| - 1;
      TypeFindingsCollect(t, expected[..m]);
      assert Outcomes(t, expected)[..m] == Outcomes(t, expected[..m]);
    }
  }

  /** `check_types` succeeds exactly when no entry raises; it then yields at
      most one finding per entry, each the finding of some entry, and
      reports every entry's finding. */
  lemma TypeFindingsSpec(t: Table, expected: seq<(string, TypeSpec)>)
    ensures TypeFindings(t, expected).Ok? <==>
      forall i :: 0 <= i < |expected| ==> EntryFinding(t, expected[i].0, expected[i].1).Ok?
    ensures TypeFindings(t, expected).Ok? ==> |TypeFindings(t, expected).value| <= |expected|
    ensures TypeFindings(t, expected).Ok? ==>
      forall f :: f in TypeFindings(t, expected).value ==>
        exists i :: 0 <= i < |expected| && EntryFinding(t, expected[i].0, expected[i].1) == Ok(Some(f))
    ensures TypeFindings(t, expected).Ok? ==>
      forall i :: 0 <= i < |expected| && EntryFinding(t, expected[i].0, expected[i].1).Ok?
                  && EntryFinding(t, expected[i].0, expected[i].1).value.Some? ==>
        EntryFinding(t, expected[i].0, expected[i].1).value.value in TypeFindings(t, expected).value
  {
    var o := Outcomes(t, expected);
    assert forall i :: 0 <= i < |expected| ==> o[i] == EntryFinding(t, expected[i].0, expected[i].1);
    TypeFindingsCollect(t, expected);
    CollectSpec(o);
  }

  /** Combining two runs of outcomes: the first exception wins, otherwise
      the findings are concatenated. */
  lemma {:induction false} CollectAppend(x: seq<Result<Option<Finding>>>, y: seq<Result<Option<Finding>>>)
    ensures Collect(x).Raised? ==> Collect(x + y) == Collect(x)
    ensures Collect(x).Ok? && Collect(y).Raised? ==> Collect(x + y) == Collect(y)
    ensures Collect(x).Ok? && Collect(y).Ok? ==> Collect(x + y) == Ok(Collect(x).value + Collect(y).value)
    decreases |y|
  {
    if y == [] {
      assert x + y == x;
      if Collect(x).Ok? {
        assert Collect(x).value + [] == Collect(x).value;
      }
    } else {
      assert (x + y)[..|x + y| - 1] == x + y[..|y| - 1];
      CollectAppend(x, y[..|y| - 1]);
      if Collect(x).Ok? && Collect(y[..|y| - 1]).Ok? {
        var u, v := Collect(x).value, Collect(y[..|y| - 1]).value;
        assert forall f :: (u + v) + [f] == u + (v + [f]);
      }
    }
  }

  /** The entries are checked in iteration order: splitting the dict splits
      the findings. The first exception, from either part, wins. */
  lemma TypeFindingsAppend(t: Table, a: seq<(string, TypeSpec)>, b: seq<(string, TypeSpec)>)
    ensures TypeFindings(t, a).Raised? ==> TypeFindings(t, a + b) == TypeFindings(t, a)
    ensures TypeFindings(t, a).Ok? && TypeFindings(t, b).Raised? ==> TypeFindings(t, a + b) == TypeFindings(t, b)
    ensures TypeFindings(t, a).Ok? && TypeFindings(t, b).Ok? ==>
      TypeFindings(t, a + b) == Ok(TypeFindings(t, a).value + TypeFindings(t, b).value)
  {
    TypeFindingsCollect(t, a);
    TypeFindingsCollect(t, b);
    TypeFindingsCollect(t, a + b);
    OutcomesAppend(t, a, b);
    CollectAppend(Outcomes(t, a), Outcomes(t, b));
  }

  lemma OutcomesAppend(t: Table, a: seq<(string, TypeSpec)>, b: seq<(string, TypeSpec)>)
    ensures Outcomes(t, a + b) == Outcomes(t, a) + Outcomes(t, b)
  {
    var o := Outcomes(t, a) + Outcomes(t, b);
    forall i | 0 <= i < |a + b|
      ensures Outcomes(t, a + b)[i] == o[i]
    {
      if i >= |a| {
        assert (a + b)[i] == b[i - |a|];
      }
    }
  }
}

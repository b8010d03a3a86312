/** `run_validations`: runs the checkers in a fixed order, turns an exception
    in `check_types` or in the statistical step into one finding, and
    renders every finding as text. It never raises. */
module Runner {
  import opened Tables
  import opened Findings
  import opened StringOrder
  import opened Syntactic
  import opened Semantic

  /** The expected column names and the `expected_types` dict, its items in
      iteration order. */
  datatype Config = Config(expectedCols: seq<string>, expectedTypes: seq<(string, TypeSpec)>)

  /** The configuration hard-wired for the sales dataset. */
  const SalesConfig: Config := Config(["fecha", "monto"], [("monto", DtypeTag("float64"))])

  /** What the statistical step did: raised an exception with a message, or
      returned a list of items or `None`. The function it calls is not
      defined in the repository, so the model takes its outcome as input. */
  datatype StatOutcome = StatRaised(message: string) | StatReturned(found: Option<seq<string>>)

  /** `{k: v for k, v in expected_types.items() if k in df.columns}`. */
  function PresentEntries(t: Table, entries: seq<(string, TypeSpec)>): (r: seq<(string, TypeSpec)>)
    ensures |r| <= |entries|
    ensures forall e :: e in r <==> e in entries && e.0 in t.columns
  {
    if entries == [] then []
    else
      var front := PresentEntries(t, entries[..|entries| - 1]);
      var last := entries[|entries| - 1];
      assert entries == entries[..|entries| - 1] + [last];
      if last.0 in t.columns then front + [last] else front
  }

  /** The comprehension filters each part of the dict on its own, so the
      kept entries stay in iteration order. */
  lemma {:induction false} PresentEntriesAppend(t: Table, a: seq<(string, TypeSpec)>, b: seq<(string, TypeSpec)>)
    ensures PresentEntries(t, a + b) == PresentEntries(t, a) + PresentEntries(t, b)
    decreases |b|
  {
    if b == [] {
      assert a + b == a;
    } else {
      assert (a + b)[..|a + b| - 1] == a + b[..|b| - 1];
      PresentEntriesAppend(t, a, b[..|b| - 1]);
    }
  }

  /** The contribution of the `check_types` step. */
  function TypesOutcome(t: Table, cfg: Config): seq<Finding>
  {
    match TypeFindings(t, PresentEntries(t, cfg.expectedTypes))
    case Ok(fs) => fs
    case Raised(m) => [CheckTypesFailed(m)]
  }

  /** The contribution of the statistical step: `found or []`. */
  function StatFindings(stat: StatOutcome): seq<Finding>
  {
    match stat
    case StatRaised(m) => [StatisticalFailed(m)]
    case StatReturned(None) => []
    case StatReturned(Some(items)) => seq(|items|, i requires 0 <= i < |items| => Reported(items[i]))
  }

  /** Every finding of one run, in the order the run collects them. */
  ghost function ValidationFindings(t: Table, cfg: Config, today: int, stat: StatOutcome): seq<Finding>
  {
    ColumnNameFindings(t, cfg.expectedCols)
    + TypesOutcome(t, cfg)
    + CheckPositive(t, "monto")
    + CheckNotFutureDates(t, "fecha", today)
    + StatFindings(stat)
  }

  /** `[str(e) for e in errors]`. */
  function RenderAll(fs: seq<Finding>): seq<string>
  {
    seq(|fs|, i requires 0 <= i < |fs| => Render(fs[i]))
  }

  /** `run_validations(df)`, with the configuration, today's date and the
      statistical step's outcome as inputs: the rendered findings, in order. */
  method RunValidations(t: Table, cfg: Config, today: int, stat: StatOutcome) returns (report: seq<string>)
    ensures |report| == |ValidationFindings(t, cfg, today, stat)|
    ensures forall i :: 0 <= i < |report| ==> report[i] == Render(ValidationFindings(t, cfg, today, stat)[i])
  {
    var errors := CollectFindings(t, cfg, today, stat);
    report := RenderAll(errors);
  }

  /** The `errors` list the run grows, step by step. */
  method CollectFindings(t: Table, cfg: Config, today: int, stat: StatOutcome) returns (errors: seq<Finding>)
    ensures errors == ValidationFindings(t, cfg, today, stat)
  {
    errors := CheckColumnNames(t, cfg.expectedCols);
    var types := TypesStep(t, cfg);
    errors := errors + types;
    var positive := CheckPositive(t, "monto");
    errors := errors + positive;
    var future := CheckNotFutureDates(t, "fecha", today);
    errors := errors + future;
    var statistical := StatStep(stat);
    errors := errors + statistical;
  }

  /** The `try` around `check_types`: its findings, or one finding for the
      exception it raised. */
  method TypesStep(t: Table, cfg: Config) returns (fs: seq<Finding>)
    ensures fs == TypesOutcome(t, cfg)
  {
    var types := CheckTypes(t, PresentEntries(t, cfg.expectedTypes));
    match types {
      case Ok(found) => fs := found;
      case Raised(m) => fs := [CheckTypesFailed(m)];
    }
  }

  /** The `try` around the statistical step: one finding for an exception,
      the returned items, or nothing for `None`. */
  method StatStep(stat: StatOutcome) returns (fs: seq<Finding>)
    ensures fs == StatFindings(stat)
  {
    fs := [];
    match stat {
      case StatRaised(m) => fs := [StatisticalFailed(m)];
      case StatReturned(found) =>
        if found.Some? {
          fs := seq(|found.value|, i requires 0 <= i < |found.value| => Reported(found.value[i]));
        }
    }
  }

  /** The two steps whose exceptions the run absorbs. */
  datatype Stage = TypesStage | StatStage

  predicate FailedAt(f: Finding, stage: Stage)
  {
    match stage
    case TypesStage => f.CheckTypesFailed?
    case StatStage => f.StatisticalFailed?
  }

  /** How many findings report an exception of the given step. */
  function Failures(fs: seq<Finding>, stage: Stage): nat
  {
    if fs == [] then 0
    else Failures(fs[..|fs| - 1], stage) + (if FailedAt(fs[|fs| - 1], stage) then 1 else 0)
  }

  lemma {:induction false} FailuresAppend(a: seq<Finding>, b: seq<Finding>, stage: Stage)
    ensures Failures(a + b, stage) == Failures(a, stage) + Failures(b, stage)
    decreases |b|
  {
    if b == [] {
      assert a + b == a;
    } else {
      assert (a + b)[..|a + b| - 1] == a + b[..|b| - 1];
      FailuresAppend(a, b[..|b| - 1], stage);
    }
  }

  lemma {:induction false} NoFailures(fs: seq<Finding>, stage: Stage)
    requires forall f :: f in fs ==> !FailedAt(f, stage)
    ensures Failures(fs, stage) == 0
    decreases |fs|
  {
    if fs != [] {
      assert fs[|fs| - 1] in fs;
      assert forall f :: f in fs[..|fs| - 1] ==> f in fs;
      NoFailures(fs[..|fs| - 1], stage);
    }
  }

  /** `check_types` reports only column-level findings, never an exception. */
  lemma TypeFindingsAreNotFailures(t: Table, entries: seq<(string, TypeSpec)>)
    requires TypeFindings(t, entries).Ok?
    ensures forall f :: f in TypeFindings(t, entries).value ==>
      f.TypeCheckAbsent? || f.DtypeMismatch? || f.ElemTypeMismatch?
  {
    TypeFindingsSpec(t, entries);
  }

  lemma FailuresOfRun(a: seq<Finding>, b: seq<Finding>, c: seq<Finding>, d: seq<Finding>, e: seq<Finding>, stage: Stage)
    ensures Failures(a + b + c + d + e, stage) ==
      Failures(a, stage) + Failures(b, stage) + Failures(c, stage) + Failures(d, stage) + Failures(e, stage)
  {
    FailuresAppend(a, b, stage);
    FailuresAppend(a + b, c, stage);
    FailuresAppend(a + b + c, d, stage);
    FailuresAppend(a + b + c + d, e, stage);
  }

  /** The column and semantic checks never report an exception. */
  lemma CheckersDoNotFail(t: Table, cfg: Config, today: int, stage: Stage)
    ensures Failures(ColumnNameFindings(t, cfg.expectedCols), stage) == 0
    ensures Failures(CheckPositive(t, "monto"), stage) == 0
    ensures Failures(CheckNotFutureDates(t, "fecha", today), stage) == 0
  {
    ColumnNameFindingsSpec(t, cfg.expectedCols);
    NoFailures(ColumnNameFindings(t, cfg.expectedCols), stage);
    var pos := CheckPositive(t, "monto");
    assert pos == [] || pos == [PositiveAbsent("monto")] || pos == [NegativeValues("monto")];
    NoFailures(pos, stage);
    var dates := CheckNotFutureDates(t, "fecha", today);
    assert dates == [] || dates == [DatesAbsent("fecha")] || dates == [FutureDates("fecha")];
    NoFailures(dates, stage);
  }

  /** The type step reports its own exception once, and never the
      statistical step's. */
  lemma TypesFailures(t: Table, cfg: Config)
    ensures Failures(TypesOutcome(t, cfg), TypesStage) ==
      if TypeFindings(t, PresentEntries(t, cfg.expectedTypes)).Raised? then 1 else 0
    ensures Failures(TypesOutcome(t, cfg), StatStage) == 0
  {
    var types := TypesOutcome(t, cfg);
    var entries := PresentEntries(t, cfg.expectedTypes);
    if TypeFindings(t, entries).Ok? {
      TypeFindingsAreNotFailures(t, entries);
      NoFailures(types, TypesStage);
      NoFailures(types, StatStage);
    } else {
      assert types == [] + [types[0]];
    }
  }

  /** The statistical step reports its own exception once, and never the
      type step's. */
  lemma StatFailures(stat: StatOutcome)
    ensures Failures(StatFindings(stat), StatStage) == if stat.StatRaised? then 1 else 0
    ensures Failures(StatFindings(stat), TypesStage) == 0
  {
    var st := StatFindings(stat);
    if stat.StatRaised? {
      assert st == [] + [st[0]];
    } else {
      NoFailures(st, TypesStage);
      NoFailures(st, StatStage);
    }
  }

  /** Each absorbed exception becomes exactly one finding, and a step that
      does not raise adds none; the run itself never raises. */
  lemma ExceptionsIsolated(t: Table, cfg: Config, today: int, stat: StatOutcome)
    ensures Failures(ValidationFindings(t, cfg, today, stat), TypesStage) ==
      if TypeFindings(t, PresentEntries(t, cfg.expectedTypes)).Raised? then 1 else 0
    ensures Failures(ValidationFindings(t, cfg, today, stat), StatStage) ==
      if stat.StatRaised? then 1 else 0
  {
    var names := ColumnNameFindings(t, cfg.expectedCols);
    var types := TypesOutcome(t, cfg);
    var pos := CheckPositive(t, "monto");
    var dates := CheckNotFutureDates(t, "fecha", today);
    var st := StatFindings(stat);
    assert ValidationFindings(t, cfg, today, stat) == names + types + pos + dates + st;
    FailuresOfRun(names, types, pos, dates, st, TypesStage);
    FailuresOfRun(names, types, pos, dates, st, StatStage);
    CheckersDoNotFail(t, cfg, today, TypesStage);
    CheckersDoNotFail(t, cfg, today, StatStage);
    TypesFailures(t, cfg);
    StatFailures(stat);
  }

  /** `found or []`: a `None` result and an empty list are the same. */
  lemma NoneIsEmpty(t: Table, cfg: Config, today: int)
    ensures ValidationFindings(t, cfg, today, StatReturned(None))
         == ValidationFindings(t, cfg, today, StatReturned(Some([])))
    ensures forall stat ::
      ValidationFindings(t, cfg, today, stat)
      == ValidationFindings(t, cfg, today, StatReturned(None)) + StatFindings(stat)
  {
    var prefix := ColumnNameFindings(t, cfg.expectedCols) + TypesOutcome(t, cfg)
      + CheckPositive(t, "monto") + CheckNotFutureDates(t, "fecha", today);
    assert StatFindings(StatReturned(None)) == [];
    assert StatFindings(StatReturned(Some([]))) == [];
    assert prefix + [] == prefix;
    assert ValidationFindings(t, cfg, today, StatReturned(None)) == prefix;
    forall stat
      ensures ValidationFindings(t, cfg, today, stat) == prefix + StatFindings(stat)
    {
    }
  }

  /** With the sales configuration the type step cannot raise and cannot
      report an absent column: it yields the dtype finding for `monto` or
      nothing. */
  lemma SalesTypesOutcome(t: Table)
    ensures TypeFindings(t, PresentEntries(t, SalesConfig.expectedTypes)) ==
      if "monto" in t.columns && Dtype(t, "monto") != "float64"
      then Ok([DtypeMismatch("monto", Dtype(t, "monto"), "float64")])
      else Ok([])
  {
    var entry := ("monto", DtypeTag("float64"));
    assert SalesConfig.expectedTypes == [entry];
    assert [entry][..0] == [];
    var present := PresentEntries(t, [entry]);
    if "monto" in t.columns {
      assert present == [entry];
      assert TypeFindings(t, [entry][..0]) == Ok([]);
      var e := EntryFinding(t, "monto", DtypeTag("float64"));
      assert [entry][|[entry]| - 1] == entry;
      if Dtype(t, "monto") != "float64" {
        assert e == Ok(Some(DtypeMismatch("monto", Dtype(t, "monto"), "float64")));
        assert [] + [DtypeMismatch("monto", Dtype(t, "monto"), "float64")]
            == [DtypeMismatch("monto", Dtype(t, "monto"), "float64")];
      } else {
        assert e == Ok(None);
      }
    } else {
      assert present == [];
    }
  }

  lemma {:induction false} MissingNamesBound(t: Table, expected: seq<string>)
    ensures |MissingNames(t, expected)| <= |expected|
    decreases |expected|
  {
    if expected != [] {
      var front := expected[..|expected| - 1];
      MissingNamesBound(t, front);
      assert expected == front + [expected[|expected| - 1]];
      var last := expected[|expected| - 1];
      if last in t.columns {
        assert MissingNames(t, expected) == MissingNames(t, front);
      } else {
        assert MissingNames(t, expected) == MissingNames(t, front) + {last};
      }
    }
  }

  /** The report is as long as the findings of all steps together, and no
      longer than one finding per expected column, per expected type, one
      each for the two semantic checks, plus the statistical ones. */
  lemma ReportBound(t: Table, cfg: Config, today: int, stat: StatOutcome)
    ensures |ValidationFindings(t, cfg, today, stat)| <=
      |cfg.expectedCols| + |cfg.expectedTypes| + 2 + |StatFindings(stat)|
  {
    ColumnNameFindingsSpec(t, cfg.expectedCols);
    MissingNamesBound(t, cfg.expectedCols);
    var present := PresentEntries(t, cfg.expectedTypes);
    TypeFindingsSpec(t, present);
    if TypeFindings(t, present).Raised? {
      assert present != [];
    }
  }

  lemma SortedFechaMonto()
    ensures SortedStrings({"fecha", "monto"}) == ["fecha", "monto"]
  {
    assert Less("fecha", "monto");
    SortedUnique(["fecha", "monto"], SortedStrings({"fecha", "monto"}));
  }

  lemma BothNamesMissing(t: Table)
    requires "fecha" !in t.columns && "monto" !in t.columns
    ensures ColumnNameFindings(t, ["fecha", "monto"]) == [MissingColumn("fecha"), MissingColumn("monto")]
  {
    MissingFechaMonto(t);
    SortedFechaMonto();
    var fs := ColumnNameFindings(t, ["fecha", "monto"]);
    assert |fs| == 2 && fs[0] == MissingColumn("fecha") && fs[1] == MissingColumn("monto");
  }

  lemma MissingFechaMonto(t: Table)
    requires "fecha" !in t.columns && "monto" !in t.columns
    ensures MissingNames(t, ["fecha", "monto"]) == {"fecha", "monto"}
  {
    var expected := ["fecha", "monto"];
    assert forall c :: c in expected <==> c == "fecha" || c == "monto";
  }

  /** With neither `fecha` nor `monto` present the report opens with the two
      missing-column findings, in name order, then the two semantic
      "absent" findings. */
  lemma BothColumnsAbsent(t: Table, today: int, stat: StatOutcome)
    requires "fecha" !in t.columns && "monto" !in t.columns
    ensures var fs := ValidationFindings(t, SalesConfig, today, stat);
      |fs| >= 4 &&
      fs[..4] == [MissingColumn("fecha"), MissingColumn("monto"), PositiveAbsent("monto"), DatesAbsent("fecha")]
  {
    BothNamesMissing(t);
    SalesTypesOutcome(t);
    assert TypesOutcome(t, SalesConfig) == [];
  }
}

# Pipeline-Validations: a Dafny model of the sales-record quality gate

The repository is a small pandas pipeline for sales records. Each record has
the columns `venta_id`, `fecha`, `cliente_id`, `producto_id`, `monto` and
`moneda`. This project models its decision logic and proves properties of it:

- the column-level checkers: syntactic, semantic and statistical;
- the orchestrator `run_validations`, which merges their findings in a fixed
  order and turns an exception in `check_types` or in the statistical step
  into one message;
- the router `route_to_silver_quarantine`, which splits the rows into a silver
  tier and a quarantine tier;
- the two gold group-by/sum views derived from silver;
- the transform helpers `normalize_types` and `clean_business_rules`;
- the example table `df_err`, as a concrete test vector.

How the model represents the program:

- **Tables are values.** A table is `Table(columns, dtypes, rows)` (`tables.dfy`).
  - `columns` holds the column labels in order.
  - `dtypes` maps each column to its pandas dtype tag, such as `"float64"`.
  - Each row maps column names to `Option<Value>`, with
    `Value = Int | Num(real) | Str | Date(day)`.
  - `Valid` is the DataFrame invariant: labels are distinct, and every row has
    exactly the table's columns.
  - Because every table is a value, "the caller's table is not modified" holds
    by construction. The pipeline copies its input; the model never shares it.
- **In-place updates become methods.** Where the source updates a working copy
  step by step, the model has a method proved against a specification
  function. This covers `check_column_names`, `check_types`, the `errors`
  list of `run_validations`, the coercions and null fill of the router,
  `normalize_types`, `drop_duplicates` and the `monto` clamp.
- **Pure code stays pure.** Code made only of expressions stays as functions
  and lemmas: the semantic and statistical checks and the gold views.
- **Findings are data.** A finding is a datatype value. `Findings.Render`
  gives the exact text the source formats, including the leading cross mark.
- **Exceptions are results.** A Python exception is `Result.Raised(message)`.
- **The clock is an input.** "Today" is a day-number parameter.
- **The statistical step is an input.** `runner.py` imports
  `validate_statistical`, but `statistical.py` does not define it. The model
  therefore takes that step's outcome as a parameter
  (`Runner.StatOutcome`). The step can raise with a message, return `None`,
  or return a list.

Notes on the code:

- The router never uses the IQR outlier mask. Its only upper bound on an
  amount is the fixed ceiling of 10,000,000 (`project/run_pipeline.py:75`);
  it also rejects negative amounts.
- Deduplication by `venta_id` happens in `clean_business_rules`, not in the
  router.
- The orchestrator does not catch exceptions from every checker. It guards
  only `check_types` and the statistical step.
- The configuration is hard-wired in `run_validations`
  (`Runner.SalesConfig`). It is not supplied by the caller.
- When the input has no `fecha` column, `pd.to_datetime(None)` is `None`, so
  the router's `fecha` column is an all-null column of dtype `object`, not
  `datetime64[ns]` (`Router.FechaDtype`).

## Model

| member | source | states |
|---|---|---|
| Tables.SetColumn | project/run_pipeline.py:56-62 | `df[c] = cells` sets column c in every row. It appends c to the column labels only when c is new, records the new dtype, and keeps the table well formed |
| Findings.Render | project/pipeline/validations/syntactic.py:15-46 | every checker message starts with the cross mark and has text after it; an item the statistical step returned is kept verbatim |
| Coercion.AsNumber | project/pipeline/transform.py:9 | `to_numeric(errors="coerce")` stores either a float or a missing value. The number it denotes is unchanged, and the cell is missing exactly when the text is not numeric |
| Coercion.AsDate | project/pipeline/transform.py:7 | `to_datetime(errors="coerce")` stores either a Timestamp or a missing value. The date it denotes is unchanged, and the cell is missing exactly when the text does not parse |
| Coercion.ToNumeric | project/pipeline/validations/semantic.py:13 | `pd.to_numeric(errors="coerce")` on one cell: an integer or float keeps its value, text is parsed as a decimal, and a missing cell, unparseable text or a `Date` cell is missing |
| Coercion.ToDatetime | project/pipeline/validations/semantic.py:35 | `pd.to_datetime(errors="coerce")` on one cell, as a day: a `Date` keeps its day, text is parsed as an ISO date, and anything else is missing |
| Coercion.ParseIsoDate | project/pipeline/validations/semantic.py:35 | a parsed ISO date always lies within the pandas Timestamp range |
| Syntactic.CheckColumnNames | project/pipeline/validations/syntactic.py:7-16 | the loop over `sorted(missing)` yields exactly the specified list of missing-column findings |
| Syntactic.ColumnNameFindingsSpec | project/pipeline/validations/syntactic.py:12-15 | there is one finding per distinct expected name absent from the table and none for present names. The findings come in strictly increasing name order, so a repeated expected name is reported once |
| Syntactic.MissingFindings | project/pipeline/validations/syntactic.py:14-15 | the loop appends one missing-column finding per name, in the given order |
| StringOrder.SortStrings | project/pipeline/validations/syntactic.py:14 | selection by repeated minimum yields the sorted listing of the set |
| StringOrder.SortedStrings | project/pipeline/validations/syntactic.py:14 | `sorted(set)` is strictly increasing in Python string order and holds exactly the set's elements |
| StringOrder.SortedUnique | project/pipeline/validations/syntactic.py:14 | two strictly sorted sequences with the same elements are equal, so the sorted order is unique |
| StringOrder.LessTransitive | project/pipeline/validations/syntactic.py:14 | Python's string `<` is transitive |
| StringOrder.LessTrichotomous | project/pipeline/validations/syntactic.py:14 | any two strings are equal or ordered one way or the other |
| Syntactic.AnyOtherType | project/pipeline/validations/syntactic.py:40-45 | the element check fails exactly when some non-missing cell has another Python type; missing cells are ignored |
| Syntactic.EntryFinding | project/pipeline/validations/syntactic.py:26-46 | the outcome of one `expected_types` entry: the "ausente" finding, a dtype or element-type finding, nothing, or the exception `expected.__name__` raises. Its contract is `Syntactic.EntryFindingSpec` |
| Syntactic.TypeFindings | project/pipeline/validations/syntactic.py:23-47 | the entries' findings in iteration order, stopping at the first exception. Its contract is `Syntactic.TypeFindingsSpec` |
| Syntactic.EntryFindingSpec | project/pipeline/validations/syntactic.py:26-46 | for one entry: an absent column gives exactly the "ausente" finding. A dtype tag gives a finding iff the column's dtype differs. A Python type gives a finding iff some non-missing value has another type, so an all-null column passes. An object without `__name__` raises iff the column holds a value |
| Syntactic.CheckTypes | project/pipeline/validations/syntactic.py:18-47 | the loop over the entries yields the specified findings in iteration order, or the first exception raised |
| Syntactic.RaisedPropagates | project/pipeline/validations/syntactic.py:44-46 | once an entry raises, `check_types` as a whole raises that exception |
| Syntactic.TypeFindingsSpec | project/pipeline/validations/syntactic.py:23-47 | `check_types` succeeds iff no entry raises. It then yields at most one finding per entry; each finding is the finding of some entry, and every entry's finding is reported |
| Syntactic.TypeFindingsAppend | project/pipeline/validations/syntactic.py:23-47 | splitting the entries splits the outcome: the findings of the two parts concatenated, in iteration order, or the first exception of either part |
| Syntactic.CollectAppend | project/pipeline/validations/syntactic.py:23-47 | combining two runs of entry outcomes: the first exception wins, otherwise the findings are concatenated |
| Semantic.CheckPositive | project/pipeline/validations/semantic.py:7-15 | the result has at most one finding. It is "ausente" when the column is absent. Otherwise it is the single negative-values finding iff some coerced value is strictly below 0 |
| Semantic.CheckValuesInDomain | project/pipeline/validations/semantic.py:17-27 | the result has at most one finding. It is "ausente" when the column is absent. Otherwise there is one finding iff some cell, a missing one included, lies outside the domain |
| Semantic.CheckNotFutureDates | project/pipeline/validations/semantic.py:29-38 | the result has at most one finding. It is "ausente" when the column is absent. Otherwise there is one finding iff some parsed date is strictly after today; unparseable dates never fire |
| Statistical.CheckRowCount | project/pipeline/validations/statistical.py:7-14 | there is one finding, carrying the count and both bounds, iff n < min or n > max. Both bounds are inclusive |
| Statistical.OutlierMask | project/pipeline/validations/statistical.py:20-24 | the mask has the series' length. An element is flagged iff it is present and strictly outside [q1 - k(q3-q1), q3 + k(q3-q1)] |
| Statistical.CentralNeverFlagged | project/pipeline/validations/statistical.py:20-24 | with k >= 0 and q1 <= q3, no value in [q1, q3] is flagged |
| Statistical.FenceExample | project/pipeline/validations/statistical.py:22-24 | a worked example: values exactly on a fence are not flagged, and values beyond it are |
| Statistical.SortReals | project/pipeline/validations/statistical.py:17-18 | the values the quantiles read are sorted and form a permutation of the input |
| Statistical.InsertSorted | project/pipeline/validations/statistical.py:17-18 | insertion keeps a sorted sequence sorted |
| Statistical.Quantile | project/pipeline/validations/statistical.py:17-18 | the linear quantile lies between the smallest and largest value |
| Statistical.QuantileMonotone | project/pipeline/validations/statistical.py:17-18 | the quantile is monotone in p, so q1 <= q3 |
| Statistical.IqrOutlierMask | project/pipeline/validations/statistical.py:16-24 | `iqr_outlier_mask` returns a mask of the series' length, and a missing value is never flagged |
| Statistical.IqrOutlierMaskSparesCentral | project/pipeline/validations/statistical.py:16-24 | with k >= 0, a value between the computed quartiles is never flagged |
| Runner.PresentEntries | project/pipeline/validations/runner.py:25 | the comprehension keeps exactly the entries whose column is present |
| Runner.PresentEntriesAppend | project/pipeline/validations/runner.py:25 | filtering a concatenation concatenates the filterings, so the kept entries stay in iteration order |
| Runner.RunValidations | project/pipeline/validations/runner.py:6-40 | the report has one string per finding of the run, each the finding's rendering, in order |
| Runner.RenderAll | project/pipeline/validations/runner.py:40 | `[str(e) for e in errors]`: one string per finding, each its rendering, in order |
| Runner.CollectFindings | project/pipeline/validations/runner.py:11-38 | the `errors` list is, in order: the missing-column findings, the type findings or the one `check_types` error, `check_positive("monto")`, `check_not_future_dates("fecha")`, then the statistical findings |
| Runner.ValidationFindings | project/pipeline/validations/runner.py:11-38 | the findings of one run: the missing names, the type outcome, the two semantic checks and the statistical items, in that order. `Runner.CollectFindings` and `Runner.ExceptionsIsolated` state what it promises |
| Runner.TypesStep | project/pipeline/validations/runner.py:24-27 | the try/except around `check_types` yields its findings, or exactly one error message when it raises |
| Runner.StatStep | project/pipeline/validations/runner.py:34-38 | the statistical step yields one error when it raises, nothing when it returns `None`, and its items otherwise |
| Runner.ExceptionsIsolated | project/pipeline/validations/runner.py:24-38 | the report has exactly one `check_types` error iff that call raised, and exactly one statistical error iff that step raised. The other checkers contribute no such error |
| Runner.TypeFindingsAreNotFailures | project/pipeline/validations/runner.py:24-27 | a successful `check_types` only yields type findings, never a failure message |
| Runner.FailuresAppend | project/pipeline/validations/runner.py:11-38 | counting failure messages distributes over concatenation |
| Runner.NoneIsEmpty | project/pipeline/validations/runner.py:35 | `found or []` treats `None` and `[]` alike. The statistical findings are simply appended to the rest |
| Runner.SalesTypesOutcome | project/pipeline/validations/runner.py:15-19 | with the hard-wired configuration, the type check reports a dtype mismatch iff `monto` is present with a dtype other than float64; an absent `monto` adds nothing |
| Runner.MissingNamesBound | project/pipeline/validations/syntactic.py:12-13 | there are no more missing names than expected names |
| Runner.ReportBound | project/pipeline/validations/runner.py:22-38 | the report is no longer than the expected names plus the type entries plus the two semantic checks plus the statistical items |
| Runner.BothNamesMissing | project/pipeline/validations/runner.py:14 | with `fecha` and `monto` both absent, the missing-column findings are "fecha" then "monto" |
| Runner.BothColumnsAbsent | project/pipeline/validations/runner.py:14-31 | with `fecha` and `monto` both absent, the report begins with the two missing-column findings, then the two semantic "ausente" findings |
| Router.FillNulls | project/run_pipeline.py:60-62 | filling adds exactly the missing names, as nulls, and no present cell changes |
| Router.Invalid | project/run_pipeline.py:67-77 | one entry of `mask_invalid`: a missing id, a missing or future date, a missing, negative or over-ceiling amount, or a `moneda` outside {ARS, USD}. A value that did not parse is missing; its meaning is stated by `Router.CleanMeaning` |
| Router.Tier | project/run_pipeline.py:79-80 | a tier holds exactly the input rows whose validity matches it |
| Router.Others | project/run_pipeline.py:84 | the other columns are exactly the non-required ones |
| Router.OutputColumns | project/run_pipeline.py:83-86 | `ordered_cols + other_cols`: the required columns in canonical order, then the others in their original order. `Router.OutputColumnsDistinct` proves it lists no column twice |
| Router.CoerceColumns | project/run_pipeline.py:53-57 | the two coercions rewrite `monto` and `fecha` in every row and append either column if absent. `monto` becomes float64 (pandas would give int64 for all-integer amounts); `fecha` becomes datetime64[ns], or `object` when the input had no `fecha` |
| Router.FechaDtype | project/run_pipeline.py:57 | `fecha` is datetime64[ns] exactly when the input has a `fecha` column. Otherwise `to_datetime(None)` is `None` and the assigned column has dtype `object` |
| Router.FillRequired | project/run_pipeline.py:59-62 | the loop adds each missing required column, null in every row with dtype `object`, and keeps every existing column and dtype |
| Router.Prepare | project/run_pipeline.py:53-62 | the working copy holds the prepared rows and every required column. Its dtypes are those of the output: float64 for `monto` (int64 in pandas for all-integer amounts), datetime64[ns] for `fecha` only if the input had it (otherwise `object`), `object` for every other added column, and the input dtype for the rest |
| Router.Split | project/run_pipeline.py:67-80 | the boolean-mask filters give exactly the silver tier and the quarantine tier |
| Router.OrderColumns | project/run_pipeline.py:83-84 | the column order is the required columns in canonical order, then the others in their original order |
| Router.Route | project/run_pipeline.py:44-88 | both outputs have the same ordered columns and dtypes, are well formed, and hold exactly the silver and the quarantine rows. The dtypes are those `Router.Prepare` states, so `fecha` is `object` when the input lacked it, and `monto` is float64 even for all-integer amounts |
| Router.OutputColumnsDistinct | project/run_pipeline.py:83-86 | the output column order lists no column twice |
| Router.CleanMeaning | project/run_pipeline.py:59-77 | a row is silver iff its three ids are present, its date parses and is at or before today, its amount parses and lies in [0, 10,000,000], and `moneda` is ARS or USD |
| Router.TierPartition | project/run_pipeline.py:67-80 | every row lands in exactly one tier: the lengths add up, and the two tiers together are a permutation of the input |
| Router.TierAppend | project/run_pipeline.py:67-80 | a row's tier depends only on that row: routing a concatenation concatenates the routings |
| Router.TierOrder | project/run_pipeline.py:79-80 | each tier is the input at strictly increasing positions and misses no row of its kind, so relative order is kept |
| Router.MissingRequiredQuarantinesAll | project/run_pipeline.py:60-77 | if a required column is absent, silver is empty and every row is quarantined |
| Gold.GroupSum | project/run_pipeline.py:122-125 | `groupby(...).sum()` has one group per distinct key, covers exactly the keys present, and each group's total is the sum of that key's amounts |
| Gold.GroupSumTotal | project/run_pipeline.py:122-134 | grouping neither loses nor invents any amount |
| Gold.DailyPairs | project/run_pipeline.py:121-124 | `dropna(subset=["fecha"])` and the `groupby` keys keep at most one pair per row. The keys are exactly the (day, moneda) of the rows with a parsed date and a `moneda` |
| Gold.ClientPairs | project/run_pipeline.py:132-134 | the `groupby` keys keep at most one pair per row. The keys are exactly the (cliente_id, moneda) of the rows that have both |
| Gold.GoldDaily | project/run_pipeline.py:121-126 | `gold_daily` has one group per distinct (day, moneda) some row carries, and each group's total is the sum of that key's amounts |
| Gold.GoldByCliente | project/run_pipeline.py:132-135 | `gold_cliente` has one group per distinct (cliente_id, moneda) some row carries, and each group's total is the sum of that key's amounts |
| Gold.SilverRowsParsed | project/run_pipeline.py:71-79 | every silver row has a parsed date and passes the routing predicate |
| Gold.GoldViewsBalance | project/run_pipeline.py:121-134 | over silver, dropping null dates removes nothing. Each (day, moneda) and (cliente_id, moneda) key appears once, and both views' totals equal the silver `monto` total |
| Transform.NormalizeTypes | project/pipeline/transform.py:3-10 | the row count and columns are kept, and every column other than `fecha` and `monto` is unchanged. Those two are coerced, with failures becoming missing, and get their new dtypes (float64 for `monto`, where pandas keeps int64 for all-integer amounts); an absent one is not added |
| Transform.DropDuplicates | project/pipeline/transform.py:19-20 | the loop with a seen set keeps exactly the first row of each `venta_id` |
| Transform.DedupFirst | project/pipeline/transform.py:19-20 | the kept rows have pairwise distinct keys and the same set of keys as the input, one row per key |
| Transform.DedupFirstOccurrences | project/pipeline/transform.py:19-20 | the kept rows are the first occurrences of their keys, at increasing input positions, and no first occurrence is dropped |
| Transform.DedupKeepsAllIff | project/pipeline/transform.py:20 | deduplication keeps every row iff no `venta_id` repeats, and then it is the identity |
| Transform.NegativeMask | project/pipeline/transform.py:22 | `out["monto"] < 0` is one flag per row marking the negative amounts. It raises exactly when some cell cannot be compared with 0, with that cell's message |
| Transform.ZeroMasked | project/pipeline/transform.py:22 | the masked assignment sets exactly the negative amounts to 0 |
| Transform.CleanBusinessRules | project/pipeline/transform.py:12-23 | the method computes the specified cleaning: drop duplicates when `venta_id` is present, then clamp when `monto` is present, or raise |
| Transform.CleanSpec | project/pipeline/transform.py:12-23 | what `clean_business_rules` returns: deduplicated when `venta_id` is present, then clamped when `monto` is present, or the comparison's exception. `Transform.CleanGuarantees` and `Transform.CleanIdempotent` state what it promises |
| Transform.ClampRow | project/pipeline/transform.py:22 | one row of `out.loc[out["monto"] < 0, "monto"] = 0`. `Transform.ClampEffect` states its effect |
| Transform.ClampEffect | project/pipeline/transform.py:22 | after the clamp no amount is negative, and every former negative is now 0. Every other cell is unchanged |
| Transform.CleanGuarantees | project/pipeline/transform.py:12-23 | after cleaning, keys are distinct and no amount is negative. The row count is at most the input's, and equal iff no `venta_id` repeated |
| Transform.CleanIdempotent | project/pipeline/transform.py:12-23 | cleaning a cleaned table changes nothing |
| Transform.FirstIncomparablePropagates | project/pipeline/transform.py:22 | once a prefix holds a cell that cannot be compared, the whole column raises with that cell's message |
| Transform.FirstIncomparable | project/pipeline/transform.py:22 | there is no exception iff every `monto` cell can be compared with 0; otherwise it is the message for the first cell that cannot, in row order |
| Transform.CompareError | project/pipeline/transform.py:22 | `out["monto"] < 0` raises nothing iff `monto` is not a datetime64 column and every cell can be compared with 0 |
| ErrExample.DfErrValid | project/df_err_example.py:4-12 | `df_err` is a well-formed table |
| ErrExample.FarFutureDay | project/df_err_example.py:7 | "2099-01-01" parses to day 47117 |
| ErrExample.DfErrAllQuarantined | project/run_pipeline.py:60-77 | `df_err` has no `producto_id`, so all ten rows are quarantined and silver is empty |
| ErrExample.FutureSaleUnderCeiling | project/run_pipeline.py:72-75 | the 2099 sale is invalid because of its date; its amount, 999999.9, is within [0, 10,000,000] |
| ErrExample.DfErrFindings | project/df_err_example.py:14 | `run_validations(df_err)`, with the statistical step returning nothing, reports the negative amounts and then the future date, and nothing else |
| ErrExample.DfErrDomain | project/pipeline/validations/semantic.py:17-27 | the domain check on `moneda` with {ARS, USD} flags `df_err` because of its XXX sale |
| ErrExample.DfErrClean | project/pipeline/transform.py:12-23 | cleaning `df_err` keeps all ten sales, sets the two negative amounts to 0 and keeps 999999.9 |

## Left out

- File and console I/O: CSV discovery and reading, the `to_csv` and `write_text` calls, logging, and the validation-report writers. Only the routing and group-by logic of `main` is modelled.
- The clock: `datetime.now()` and `pd.Timestamp.today()` are replaced by a `today` day-number parameter.
- `validate_statistical` is not defined in the repository. Its outcome is an input to `Runner.RunValidations`, and the `'validate_statistical' in globals()` test is taken as true.
- Pandas dtype inference: a dtype is an abstract tag stored with each column. `read_csv` inference is not modelled.
- Coercion.ParseIsoDate: only strict `YYYY-MM-DD` text parses. Other formats `to_datetime` accepts, and integers read as epoch offsets, become missing.
- Coercion.ParseDecimal: only an optional sign and a plain decimal parse. Exponents, `inf`, `nan` and surrounding spaces become missing.
- Coercion.AsNumber: the result is always stored as a float. `to_numeric` would keep an all-integer column as int64.
- Router.CoerceColumns: records dtype float64 for `monto` in every case. `to_numeric` keeps an int64 column, or an object column whose cells are all integer strings, as int64.
- Router.Prepare: the `monto` dtype it records is float64 even where `to_numeric` would give int64, as for `Router.CoerceColumns`.
- Router.Route: the outputs' `monto` dtype is float64 even where `to_numeric` would give int64, as for `Router.CoerceColumns`.
- Transform.NormalizeTypes: records dtype float64 for a present `monto` even where `to_numeric` would keep or produce int64.
- Coercion.ToNumeric: a `Date` cell counts as missing. Pandas reads a datetime64 column as int64 nanoseconds, so in `check_positive` a pre-1970 date would count as negative.
- Floating point: amounts and quartiles are exact reals. NaN is a missing value, and there is no rounding.
- Gold.GroupSum: groups come out in first-appearance order. Pandas sorts the group keys; the keys and totals agree, only the order differs.
- Statistical.Quantile: only numpy's default linear interpolation is modelled.
- Transform.KeyOf: keys compare as model values, so the integer 1 and the float 1.0 are different keys. Pandas treats them as equal.
- Semantic.CheckValuesInDomain: cells compare with the domain as model values, so the integer 1 is not in a domain holding the float 1.0. `isin` treats them as equal.
- Gold.GroupSum: group keys compare as model values, so an integer and an equal float key form two groups in `Gold.GoldDaily` and `Gold.GoldByCliente`. Pandas `groupby` puts them in one.
- Duplicate column labels are outside the model: `Valid` requires distinct labels.
- Transform.CompareMessage: the text of the `TypeError` raised when `monto` holds text or a Timestamp is simplified to one message per kind of value.
- The other files of the repository are not part of this model: the pandera and Great Expectations exercises, the plotting script, the report writers, `load.py` and `extract.py`.

/** The messages the checkers return. Each finding is a tagged value; `Render`
    gives the exact text the Python checkers build with their f-strings. */
module Findings {
  import opened Tables

  datatype Finding =
    | MissingColumn(col: string)                                  // check_column_names
    | TypeCheckAbsent(col: string)                                // check_types, column absent
    | DtypeMismatch(col: string, observed: string, expected: string)
    | ElemTypeMismatch(col: string, expectedName: string)
    | PositiveAbsent(col: string)                                 // check_positive
    | NegativeValues(col: string)
    | DomainAbsent(col: string)                                   // check_values_in_domain
    | OutOfDomain(col: string)
    | DatesAbsent(col: string)                                    // check_not_future_dates
    | FutureDates(col: string)
    | RowCountOutOfRange(n: int, min: int, max: int)              // check_row_count
    | CheckTypesFailed(message: string)                           // exception inside check_types
    | StatisticalFailed(message: string)                          // exception inside validate_statistical
    | Reported(text: string)                                      // an item validate_statistical returned

  const Cross: string := "\U{274C} "

  function IntToString(n: int): (s: string)
    ensures |s| > 0
    decreases if n < 0 then 1 - n else n
  {
    if n < 0 then "-" + IntToString(-n)
    else if n < 10 then [('0' as int + n) as char]
    else IntToString(n / 10) + [('0' as int + n % 10) as char]
  }

  /** `str(finding)` as the source spells it. */
  function Render(f: Finding): (s: string)
    ensures !f.Reported? ==> |s| > |Cross| && s[..|Cross|] == Cross
    ensures f.Reported? ==> s == f.text
  {
    if f.Reported? then f.text
    else
      var d := Detail(f);
      assert (Cross + d)[..|Cross|] == Cross;
      Cross + d
  }

  /** The text after the cross mark. */
  function Detail(f: Finding): (d: string)
    requires !f.Reported?
    ensures d != []
  {
    match f
    case MissingColumn(c) => "Falta la columna esperada: " + c
    case TypeCheckAbsent(c) => "Columna " + c + " ausente para validar tipos"
    case DtypeMismatch(c, o, e) =>
      "Columna " + c + " con dtype inesperado: " + o + " (se esperaba " + e + ")"
    case ElemTypeMismatch(c, e) =>
      "Columna " + c + " con tipo inesperado (se esperaba " + e + ")"
    case PositiveAbsent(c) => "Columna " + c + " ausente para validar positivos"
    case NegativeValues(c) => "Columna " + c + " contiene valores negativos"
    case DomainAbsent(c) => "Columna " + c + " ausente para validar dominio"
    case OutOfDomain(c) => "Valores fuera de dominio en '" + c + "'"
    case DatesAbsent(c) => "Columna " + c + " ausente para validar fechas"
    case FutureDates(c) => "Existen fechas futuras en '" + c + "'"
    case RowCountOutOfRange(n, lo, hi) =>
      "Cantidad de filas inesperada: " + IntToString(n)
      + " (esperado entre " + IntToString(lo) + "-" + IntToString(hi) + ")"
    case CheckTypesFailed(m) => "Error en check_types: " + m
    case StatisticalFailed(m) => "Error en validate_statistical: " + m
  }
}

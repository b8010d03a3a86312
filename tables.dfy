/** The in-memory table the quality gate works on: named columns, an
    abstract dtype tag per column, and rows mapping column names to cells.
    A missing cell (pandas NaN / NaT / None) is `None`. */
module Tables {

  datatype Option<+T> = None | Some(value: T)

  /** A Python exception, carrying the text `str(ex)` would give. */
  datatype Result<+T> = Ok(value: T) | Raised(message: string)

  /** The cell values the sales tables hold. `Date` counts days since
      1970-01-01 (a normalised pandas Timestamp). */
  datatype Value = Int(i: int) | Num(x: real) | Str(s: string) | Date(day: int)

  type Cell = Option<Value>
  type Row = map<string, Cell>

  datatype Table = Table(columns: seq<string>, dtypes: map<string, string>, rows: seq<Row>)

  /** `row[c]`, reading a column the row lacks as missing. */
  function Get(r: Row, c: string): Cell
  {
    if c in r then r[c] else None
  }

  function ColumnSet(cols: seq<string>): set<string>
  {
    set c | c in cols
  }

  ghost predicate Distinct(cols: seq<string>)
  {
    forall i, j :: 0 <= i < j < |cols| ==> cols[i] != cols[j]
  }

  /** What every pandas DataFrame satisfies: distinct labels, every row
      holding exactly the table's columns, one dtype per column. */
  ghost predicate Valid(t: Table)
  {
    && Distinct(t.columns)
    && t.dtypes.Keys == ColumnSet(t.columns)
    && forall r :: r in t.rows ==> r.Keys == ColumnSet(t.columns)
  }

  /** `str(df[c].dtype)`. */
  function Dtype(t: Table, c: string): string
  {
    if c in t.dtypes then t.dtypes[c] else "object"
  }

  /** The series `df[c]`, one cell per row. */
  function ColumnCells(t: Table, c: string): (s: seq<Cell>)
    ensures |s| == |t.rows|
    ensures forall i :: 0 <= i < |s| ==> s[i] == Get(t.rows[i], c)
  {
    seq(|t.rows|, i requires 0 <= i < |t.rows| => Get(t.rows[i], c))
  }

  /** `type(v).__name__` for the Python object pandas hands out for a cell. */
  function TypeName(v: Value): string
  {
    match v
    case Int(_) => "int"
    case Num(_) => "float"
    case Str(_) => "str"
    case Date(_) => "Timestamp"
  }

  /** `Series.any()` over a boolean mask. */
  function AnyTrue(mask: seq<bool>): (b: bool)
    ensures b <==> exists i :: 0 <= i < |mask| && mask[i]
  {
    if mask == [] then false
    else if mask[|mask| - 1] then true
    else AnyTrue(mask[..|mask| - 1])
  }

  /** `Series.all()` over a boolean mask; the empty mask is all true. */
  function AllTrue(mask: seq<bool>): (b: bool)
    ensures b <==> forall i :: 0 <= i < |mask| ==> mask[i]
  {
    if mask == [] then true
    else mask[|mask| - 1] && AllTrue(mask[..|mask| - 1])
  }

  /** `df[c] = cells`: replaces the column in place, or appends it at the
      end when the table does not have it yet. */
  function SetColumn(t: Table, c: string, cells: seq<Cell>, dtype: string): (u: Table)
    requires |cells| == |t.rows|
    ensures u.columns == if c in t.columns then t.columns else t.columns + [c]
    ensures u.dtypes == t.dtypes[c := dtype]
    ensures |u.rows| == |t.rows|
    ensures forall i :: 0 <= i < |u.rows| ==> u.rows[i] == t.rows[i][c := cells[i]]
    ensures Valid(t) ==> Valid(u)
  {
    var cols := if c in t.columns then t.columns else t.columns + [c];
    var rows := seq(|t.rows|, i requires 0 <= i < |t.rows| => t.rows[i][c := cells[i]]);
    assert Valid(t) ==> Valid(Table(cols, t.dtypes[c := dtype], rows)) by {
      if Valid(t) {
        ColumnsAfterSet(t.columns, c);
        RowsAfterSet(t.rows, rows, c, ColumnSet(t.columns));
      }
    }
    Table(cols, t.dtypes[c := dtype], rows)
  }

  lemma ColumnsAfterSet(cols: seq<string>, c: string)
    requires Distinct(cols)
    ensures var u := if c in cols then cols else cols + [c];
      Distinct(u) && ColumnSet(u) == ColumnSet(cols) + {c}
  {
    if c !in cols {
      var u := cols + [c];
      forall i, j | 0 <= i < j < |u|
        ensures u[i] != u[j]
      {
        if j == |cols| {
          assert u[i] == cols[i];
        }
      }
    }
  }

  lemma RowsAfterSet(rows: seq<Row>, rows': seq<Row>, c: string, keys: set<string>)
    requires forall r :: r in rows ==> r.Keys == keys
    requires |rows'| == |rows|
    requires forall i :: 0 <= i < |rows| ==> rows'[i].Keys == rows[i].Keys + {c}
    ensures forall r :: r in rows' ==> r.Keys == keys + {c}
  {
    forall r | r in rows'
      ensures r.Keys == keys + {c}
    {
      var i :| 0 <= i < |rows'| && rows'[i] == r;
      assert rows[i] in rows;
    }
  }
}

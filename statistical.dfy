/** Statistical checks: the row-count bound, which reports, and the IQR
    outlier mask, a per-value predicate. */
module Statistical {
  import opened Tables
  import opened Findings

  /** `check_row_count`: the number of rows lies in [minExpected, maxExpected]. */
  function CheckRowCount(t: Table, minExpected: int, maxExpected: int): (r: seq<Finding>)
    ensures |r| <= 1
    ensures r != [] <==> |t.rows| < minExpected || |t.rows| > maxExpected
    ensures r != [] ==> r == [RowCountOutOfRange(|t.rows|, minExpected, maxExpected)]
  {
    var n := |t.rows|;
    if n < minExpected || n > maxExpected then [RowCountOutOfRange(n, minExpected, maxExpected)] else []
  }

  /** `(series < lo) | (series > hi)` for one value; a missing value (NaN)
      compares false both ways. */
  predicate Outside(v: Option<real>, lo: real, hi: real)
  {
    v.Some? && (v.value < lo || v.value > hi)
  }

  /** The IQR mask for given quartiles: flags exactly the values below
      q1 - k*IQR or above q3 + k*IQR, element by element. */
  function OutlierMask(series: seq<Option<real>>, q1: real, q3: real, k: real): (m: seq<bool>)
    ensures |m| == |series|
    ensures forall i :: 0 <= i < |series| ==>
      (m[i] <==> series[i].Some? &&
                 (series[i].value < q1 - k * (q3 - q1) || series[i].value > q3 + k * (q3 - q1)))
  {
    var iqr := q3 - q1;
    var lo, hi := q1 - k * iqr, q3 + k * iqr;
    seq(|series|, i requires 0 <= i < |series| => Outside(series[i], lo, hi))
  }

  lemma MulBounds(a: real, p: real)
    requires a >= 0.0 && 0.0 <= p <= 1.0
    ensures 0.0 <= a * p <= a
  {
    assert a * p <= a * 1.0 by {
      assert a * (1.0 - p) >= 0.0;
    }
  }

  lemma MulMonotone(a: real, p: real, p': real)
    requires a >= 0.0 && p <= p'
    ensures a * p <= a * p'
  {
    assert a * (p' - p) >= 0.0;
  }

  /** A value between the quartiles is never flagged, for k >= 0. */
  lemma CentralNeverFlagged(series: seq<Option<real>>, q1: real, q3: real, k: real)
    requires k >= 0.0 && q1 <= q3
    ensures forall i :: 0 <= i < |series| && series[i].Some? && q1 <= series[i].value <= q3 ==>
      !OutlierMask(series, q1, q3, k)[i]
  {
    MulBounds(q3 - q1, 0.0);
    assert k * (q3 - q1) >= 0.0;
  }

  ghost predicate SortedReals(s: seq<real>)
  {
    forall i, j :: 0 <= i <= j < |s| ==> s[i] <= s[j]
  }

  function InsertReal(x: real, s: seq<real>): (r: seq<real>)
    ensures multiset(r) == multiset(s) + multiset{x}
    ensures |r| == |s| + 1
    ensures s != [] ==> r[0] == x || r[0] == s[0]
  {
    if s == [] then [x]
    else if x <= s[0] then [x] + s
    else
      assert s == [s[0]] + s[1..];
      [s[0]] + InsertReal(x, s[1..])
  }

  /** Inserting into a sorted sequence keeps it sorted. */
  lemma {:induction false} InsertSorted(x: real, s: seq<real>)
    requires SortedReals(s)
    ensures SortedReals(InsertReal(x, s))
    decreases |s|
  {
    if s == [] {
    } else if x <= s[0] {
      var r := [x] + s;
      forall i, j | 0 <= i <= j < |r|
        ensures r[i] <= r[j]
      {
        if i == 0 {
          if j > 0 {
            assert s[0] <= s[j - 1];
          }
        } else {
          assert r[i] == s[i - 1] && r[j] == s[j - 1];
        }
      }
      assert InsertReal(x, s) == r;
    } else {
      var rest := InsertReal(x, s[1..]);
      InsertSorted(x, s[1..]);
      assert s[0] <= rest[0] by {
        if s[1..] != [] {
          assert s[0] <= s[1..][0];
        }
      }
      var r := [s[0]] + rest;
      forall i, j | 0 <= i <= j < |r|
        ensures r[i] <= r[j]
      {
        if i == 0 {
          if j > 0 {
            assert rest[0] <= rest[j - 1];
          }
        } else {
          assert r[i] == rest[i - 1] && r[j] == rest[j - 1];
        }
      }
      assert InsertReal(x, s) == r;
    }
  }

  /** The values in ascending order. */
  function SortReals(s: seq<real>): (r: seq<real>)
    ensures SortedReals(r)
    ensures multiset(r) == multiset(s)
    ensures |r| == |s|
  {
    if s == [] then []
    else
      assert s == [s[0]] + s[1..];
      InsertSorted(s[0], SortReals(s[1..]));
      InsertReal(s[0], SortReals(s[1..]))
  }

  /** The non-missing values of a series, in order (`quantile` skips NaN). */
  function Present(series: seq<Option<real>>): (vs: seq<real>)
    ensures |vs| <= |series|
  {
    if series == [] then []
    else if series[0].Some? then [series[0].value] + Present(series[1..])
    else Present(series[1..])
  }

  /** The fractional rank `(n - 1) * p` of the p-quantile among n values. */
  function Position(n: nat, p: real): (h: real)
    requires n > 0 && 0.0 <= p <= 1.0
    ensures 0.0 <= h <= (n - 1) as real
  {
    MulBounds((n - 1) as real, p);
    (n - 1) as real * p
  }

  lemma PositionMonotone(n: nat, p: real, p': real)
    requires n > 0 && 0.0 <= p <= p' <= 1.0
    ensures Position(n, p) <= Position(n, p')
  {
    MulMonotone((n - 1) as real, p, p');
  }

  /** The point a fraction f of the way from a to b. */
  function Lerp(a: real, b: real, f: real): (r: real)
    requires a <= b && 0.0 <= f <= 1.0
    ensures a <= r <= b
  {
    var d := b - a;
    MulBounds(d, f);
    var m := d * f;
    assert 0.0 <= m <= d;
    a + m
  }

  lemma LerpMonotone(a: real, b: real, f: real, f': real)
    requires a <= b && 0.0 <= f <= f' <= 1.0
    ensures Lerp(a, b, f) <= Lerp(a, b, f')
  {
    MulMonotone(b - a, f, f');
    assert (b - a) * f <= (b - a) * f';
    assert Lerp(a, b, f) == a + (b - a) * f;
    assert Lerp(a, b, f') == a + (b - a) * f';
  }

  /** `Series.quantile(p)` with linear interpolation between the two
      nearest ranks of the sorted values. */
  function Quantile(s: seq<real>, p: real): (q: real)
    requires SortedReals(s) && |s| > 0 && 0.0 <= p <= 1.0
    ensures s[0] <= q <= s[|s| - 1]
  {
    var h := Position(|s|, p);
    var i := h.Floor;
    if i + 1 < |s| then Lerp(s[i], s[i + 1], h - i as real) else s[i]
  }

  /** A larger probability never gives a smaller quantile; in particular
      the first quartile never exceeds the third. */
  lemma QuantileMonotone(s: seq<real>, p: real, p': real)
    requires SortedReals(s) && |s| > 0 && 0.0 <= p <= p' <= 1.0
    ensures Quantile(s, p) <= Quantile(s, p')
  {
    var n := |s|;
    var h, h' := Position(n, p), Position(n, p');
    PositionMonotone(n, p, p');
    var i, i' := h.Floor, h'.Floor;
    assert i as real <= h && h' < i' as real + 1.0;
    assert i <= i';
    if i == i' {
      if i + 1 < n {
        LerpMonotone(s[i], s[i + 1], h - i as real, h' - i' as real);
      }
    } else {
      assert i + 1 <= i' < n;
      assert Quantile(s, p) <= s[i + 1];
      assert s[i'] <= Quantile(s, p');
    }
  }

  /** `iqr_outlier_mask(series, k)`: quartiles of the non-missing values,
      then the mask. With no value present the quartiles are NaN and
      nothing is flagged. */
  function IqrOutlierMask(series: seq<Option<real>>, k: real): (m: seq<bool>)
    ensures |m| == |series|
    ensures forall i :: 0 <= i < |series| && series[i].None? ==> !m[i]
  {
    var xs := SortReals(Present(series));
    if xs == [] then seq(|series|, i => false)
    else OutlierMask(series, Quantile(xs, 0.25), Quantile(xs, 0.75), k)
  }

  /** With k >= 0, no value between the computed first and third quartiles
      is flagged. */
  lemma IqrOutlierMaskSparesCentral(series: seq<Option<real>>, k: real, i: nat)
    requires k >= 0.0 && i < |series| && series[i].Some?
    requires var xs := SortReals(Present(series));
      xs != [] && Quantile(xs, 0.25) <= series[i].value <= Quantile(xs, 0.75)
    ensures !IqrOutlierMask(series, k)[i]
  {
    var xs := SortReals(Present(series));
    QuantileMonotone(xs, 0.25, 0.75);
    CentralNeverFlagged(series, Quantile(xs, 0.25), Quantile(xs, 0.75), k);
  }

  /** The boundary case: Q1 = 10, Q3 = 20, k = 1.5 puts the upper fence at
      35, which is kept, while 36 is flagged. */
  lemma FenceExample()
    ensures OutlierMask([Some(35.0), Some(36.0), Some(-5.0), Some(-6.0), None], 10.0, 20.0, 1.5)
            == [false, true, false, true, false]
  {
  }
}

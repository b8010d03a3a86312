/** The two gold views derived from the silver table: the amount summed per
    (day, currency) and per (client, currency). Both are pure functions of
    the silver rows, recomputed on every run. */
module Gold {
  import opened Tables
  import opened Coercion
  import opened Router

  /** The sum of all amounts. */
  function Total<K>(pairs: seq<(K, real)>): real
  {
    if pairs == [] then 0.0 else Total(pairs[..|pairs| - 1]) + pairs[|pairs| - 1].1
  }

  /** The sum of the amounts filed under key k. */
  function SumFor<K(==)>(pairs: seq<(K, real)>, k: K): real
  {
    if pairs == [] then 0.0
    else SumFor(pairs[..|pairs| - 1], k) + (if pairs[|pairs| - 1].0 == k then pairs[|pairs| - 1].1 else 0.0)
  }

  ghost predicate DistinctKeys<K>(g: seq<(K, real)>)
  {
    forall i, j :: 0 <= i < j < |g| ==> g[i].0 != g[j].0
  }

  predicate HasKey<K(==)>(pairs: seq<(K, real)>, k: K)
  {
    exists i :: 0 <= i < |pairs| && pairs[i].0 == k
  }

  /** Where key k sits among the groups, or -1. */
  function IndexOf<K(==)>(g: seq<(K, real)>, k: K): (i: int)
    ensures -1 <= i < |g|
    ensures i >= 0 ==> g[i].0 == k
    ensures i < 0 ==> !HasKey(g, k)
  {
    if g == [] then -1
    else if g[|g| - 1].0 == k then |g| - 1
    else IndexOf(g[..|g| - 1], k)
  }

  /** `groupby(key).sum()`: one group per distinct key, each carrying the
      sum of that key's amounts. Groups appear in first-appearance order. */
  function GroupSum<K(==,!new)>(pairs: seq<(K, real)>): (g: seq<(K, real)>)
    ensures |g| <= |pairs|
    ensures DistinctKeys(g)
    ensures forall k :: HasKey(g, k) <==> HasKey(pairs, k)
    ensures forall j :: 0 <= j < |g| ==> g[j].1 == SumFor(pairs, g[j].0)
  {
    if pairs == [] then []
    else
      var g0 := GroupSum(pairs[..|pairs| - 1]);
      MergeSpec(pairs, g0);
      Merge(g0, pairs[|pairs| - 1].0, pairs[|pairs| - 1].1)
  }

  /** Files amount x under key k: a new group at the end, or added to the
      group that already has k. */
  function Merge<K(==)>(g0: seq<(K, real)>, k: K, x: real): seq<(K, real)>
  {
    var i := IndexOf(g0, k);
    if i < 0 then g0 + [(k, x)] else g0[i := (k, g0[i].1 + x)]
  }

  /** Merging the last pair into the groups of the others gives the groups
      of all the pairs. */
  lemma MergeSpec<K(!new)>(pairs: seq<(K, real)>, g0: seq<(K, real)>)
    requires pairs != []
    requires |g0| <= |pairs| - 1 && DistinctKeys(g0)
    requires forall k :: HasKey(g0, k) <==> HasKey(pairs[..|pairs| - 1], k)
    requires forall j :: 0 <= j < |g0| ==> g0[j].1 == SumFor(pairs[..|pairs| - 1], g0[j].0)
    ensures var g := Merge(g0, pairs[|pairs| - 1].0, pairs[|pairs| - 1].1);
      && |g| <= |pairs|
      && DistinctKeys(g)
      && (forall k :: HasKey(g, k) <==> HasKey(pairs, k))
      && (forall j :: 0 <= j < |g| ==> g[j].1 == SumFor(pairs, g[j].0))
  {
    var front := pairs[..|pairs| - 1];
    var (k, x) := pairs[|pairs| - 1];
    assert forall k' :: HasKey(pairs, k') <==> HasKey(front, k') || k' == k by {
      forall k' | HasKey(front, k') ensures HasKey(pairs, k') {
        var i :| 0 <= i < |front| && front[i].0 == k';
        assert pairs[i].0 == k';
      }
      assert pairs[|pairs| - 1].0 == k;
    }
    var i := IndexOf(g0, k);
    if i < 0 {
      var g := g0 + [(k, x)];
      assert forall k' :: HasKey(g, k') <==> HasKey(g0, k') || k' == k by {
        forall k' | HasKey(g0, k') ensures HasKey(g, k') {
          var j :| 0 <= j < |g0| && g0[j].0 == k';
          assert g[j].0 == k';
        }
        assert g[|g0|].0 == k;
      }
      assert !HasKey(front, k);
      assert SumFor(front, k) == 0.0 by { NoKeyNoSum(front, k); }
    } else {
      var g := g0[i := (k, g0[i].1 + x)];
      assert forall k' :: HasKey(g, k') <==> HasKey(g0, k') by {
        forall k' | HasKey(g0, k') ensures HasKey(g, k') {
          var j :| 0 <= j < |g0| && g0[j].0 == k';
          assert g[j].0 == k';
        }
        forall k' | HasKey(g, k') ensures HasKey(g0, k') {
          var j :| 0 <= j < |g| && g[j].0 == k';
          assert g0[j].0 == k';
        }
      }
    }
  }

  lemma {:induction false} NoKeyNoSum<K>(pairs: seq<(K, real)>, k: K)
    requires !HasKey(pairs, k)
    ensures SumFor(pairs, k) == 0.0
    decreases |pairs|
  {
    if pairs != [] {
      var front := pairs[..|pairs| - 1];
      forall i | 0 <= i < |front|
        ensures front[i].0 != k
      {
        assert front[i] == pairs[i];
      }
      NoKeyNoSum(front, k);
    }
  }

  lemma {:induction false} TotalUpdate<K>(g: seq<(K, real)>, i: nat, v: real)
    requires i < |g|
    ensures Total(g[i := (g[i].0, v)]) == Total(g) - g[i].1 + v
    decreases |g|
  {
    var h := g[i := (g[i].0, v)];
    if i < |g| - 1 {
      assert h[..|h| - 1] == g[..|g| - 1][i := (g[i].0, v)];
      TotalUpdate(g[..|g| - 1], i, v);
    } else {
      assert h[..|h| - 1] == g[..|g| - 1];
    }
  }

  /** Grouping neither loses nor invents any amount. */
  lemma {:induction false} GroupSumTotal<K(!new)>(pairs: seq<(K, real)>)
    ensures Total(GroupSum(pairs)) == Total(pairs)
    decreases |pairs|
  {
    if pairs != [] {
      var front := pairs[..|pairs| - 1];
      var (k, x) := pairs[|pairs| - 1];
      GroupSumTotal(front);
      assert Total(pairs) == Total(front) + x;
      MergeTotal(GroupSum(front), k, x);
    }
  }

  /** Filing one more amount adds it to the total. */
  lemma MergeTotal<K>(g0: seq<(K, real)>, k: K, x: real)
    ensures Total(Merge(g0, k, x)) == Total(g0) + x
  {
    var i := IndexOf(g0, k);
    if i < 0 {
      assert (g0 + [(k, x)])[..|g0|] == g0;
    } else {
      TotalUpdate(g0, i, g0[i].1 + x);
    }
  }

  /** The amount a row contributes to a sum; `sum` skips a missing one. */
  function Amount(r: Row): real
  {
    match ToNumeric(Get(r, "monto"))
    case None => 0.0
    case Some(x) => x
  }

  /** The total `monto` of a table's rows. */
  function MontoTotal(rows: seq<Row>): real
  {
    if rows == [] then 0.0 else MontoTotal(rows[..|rows| - 1]) + Amount(rows[|rows| - 1])
  }

  /** The daily view's key for one row: its (day, moneda), or nothing when
      `dropna(subset=["fecha"])` drops the row or `groupby` skips its
      missing `moneda`. */
  function DayKey(r: Row): Option<(int, Value)>
  {
    var day := ToDatetime(Get(r, "fecha"));
    var moneda := Get(r, "moneda");
    if day.Some? && moneda.Some? then Some((day.value, moneda.value)) else None
  }

  /** The per-client view's key for one row: its (cliente_id, moneda), or
      nothing when `groupby` skips a missing key. */
  function ClientKey(r: Row): Option<(Value, Value)>
  {
    var cliente := Get(r, "cliente_id");
    var moneda := Get(r, "moneda");
    if cliente.Some? && moneda.Some? then Some((cliente.value, moneda.value)) else None
  }

  /** The (key, amount) pairs the daily view groups: one per row that has a
      key, in row order. */
  function DailyPairs(rows: seq<Row>): (p: seq<((int, Value), real)>)
    ensures |p| <= |rows|
    ensures forall k :: HasKey(p, k) <==> exists i :: 0 <= i < |rows| && DayKey(rows[i]) == Some(k)
  {
    if rows == [] then []
    else
      var r := rows[|rows| - 1];
      var p := DailyPairs(rows[..|rows| - 1]) + (if DayKey(r).Some? then [(DayKey(r).value, Amount(r))] else []);
      KeysStep(rows, DailyPairs(rows[..|rows| - 1]), p, DayKey);
      p
  }

  /** The (key, amount) pairs the per-client view groups. */
  function ClientPairs(rows: seq<Row>): (p: seq<((Value, Value), real)>)
    ensures |p| <= |rows|
    ensures forall k :: HasKey(p, k) <==> exists i :: 0 <= i < |rows| && ClientKey(rows[i]) == Some(k)
  {
    if rows == [] then []
    else
      var r := rows[|rows| - 1];
      var p := ClientPairs(rows[..|rows| - 1]) + (if ClientKey(r).Some? then [(ClientKey(r).value, Amount(r))] else []);
      KeysStep(rows, ClientPairs(rows[..|rows| - 1]), p, ClientKey);
      p
  }

  /** One step of either pairing: the last row adds its key, if it has one,
      to the keys of the rows before it. */
  lemma KeysStep<K>(rows: seq<Row>, front: seq<(K, real)>, p: seq<(K, real)>, key: Row -> Option<K>)
    requires rows != []
    requires forall k :: HasKey(front, k) <==> exists i :: 0 <= i < |rows| - 1 && key(rows[i]) == Some(k)
    requires p == front + (if key(rows[|rows| - 1]).Some? then [(key(rows[|rows| - 1]).value, Amount(rows[|rows| - 1]))] else [])
    ensures forall k :: HasKey(p, k) <==> exists i :: 0 <= i < |rows| && key(rows[i]) == Some(k)
  {
    var n := |rows| - 1;
    forall k
      ensures HasKey(p, k) <==> exists i :: 0 <= i < |rows| && key(rows[i]) == Some(k)
    {
      if HasKey(p, k) {
        var j :| 0 <= j < |p| && p[j].0 == k;
        if j < |front| {
          assert HasKey(front, k);
          var i :| 0 <= i < n && key(rows[i]) == Some(k);
        } else {
          assert key(rows[n]) == Some(k);
        }
      }
      if exists i :: 0 <= i < |rows| && key(rows[i]) == Some(k) {
        var i :| 0 <= i < |rows| && key(rows[i]) == Some(k);
        if i < n {
          var j :| 0 <= j < |front| && front[j].0 == k;
          assert p[j] == front[j];
        } else {
          assert p[|front|].0 == k;
        }
      }
    }
  }

  /** `gold_daily`: `monto_total` per (day, moneda), one group for each key
      some row has, each the sum of that key's amounts. */
  function GoldDaily(silver: Table): (g: seq<((int, Value), real)>)
    ensures DistinctKeys(g)
    ensures forall k :: HasKey(g, k) <==> exists i :: 0 <= i < |silver.rows| && DayKey(silver.rows[i]) == Some(k)
    ensures forall j :: 0 <= j < |g| ==> g[j].1 == SumFor(DailyPairs(silver.rows), g[j].0)
  {
    GroupSum(DailyPairs(silver.rows))
  }

  /** `gold_cliente`: `monto_total` per (cliente_id, moneda), one group for
      each key some row has, each the sum of that key's amounts. */
  function GoldByCliente(silver: Table): (g: seq<((Value, Value), real)>)
    ensures DistinctKeys(g)
    ensures forall k :: HasKey(g, k) <==> exists i :: 0 <= i < |silver.rows| && ClientKey(silver.rows[i]) == Some(k)
    ensures forall j :: 0 <= j < |g| ==> g[j].1 == SumFor(ClientPairs(silver.rows), g[j].0)
  {
    GroupSum(ClientPairs(silver.rows))
  }

  /** What a silver row carries: it passed the routing predicate and its
      date cell is a parsed date. */
  ghost predicate SilverRow(r: Row, today: int)
  {
    !Invalid(r, today) && ToDatetime(Get(r, "fecha")).Some?
  }

  /** Every row the router sends to silver is a silver row in that sense. */
  lemma SilverRowsParsed(src: seq<Row>, today: int)
    ensures forall r :: r in Tier(PreparedRows(src), today, true) ==> SilverRow(r, today)
  {
    forall r | r in Tier(PreparedRows(src), today, true)
      ensures SilverRow(r, today)
    {
      var rows := PreparedRows(src);
      var i :| 0 <= i < |rows| && rows[i] == r;
      assert Get(r, "fecha") == AsDate(Get(CoerceRow(src[i]), "fecha"));
    }
  }

  lemma {:induction false} DailyKeepsSilver(rows: seq<Row>, today: int)
    requires forall r :: r in rows ==> SilverRow(r, today)
    ensures |DailyPairs(rows)| == |rows|
    ensures Total(DailyPairs(rows)) == MontoTotal(rows)
    decreases |rows|
  {
    if rows != [] {
      var front := rows[..|rows| - 1];
      assert forall r :: r in front ==> r in rows;
      assert rows[|rows| - 1] in rows;
      DailyKeepsSilver(front, today);
      assert DayKey(rows[|rows| - 1]).Some?;
      var p := DailyPairs(rows);
      assert p[..|p| - 1] == DailyPairs(front);
    }
  }

  lemma {:induction false} ClientKeepsSilver(rows: seq<Row>, today: int)
    requires forall r :: r in rows ==> SilverRow(r, today)
    ensures |ClientPairs(rows)| == |rows|
    ensures Total(ClientPairs(rows)) == MontoTotal(rows)
    decreases |rows|
  {
    if rows != [] {
      var front := rows[..|rows| - 1];
      assert forall r :: r in front ==> r in rows;
      assert rows[|rows| - 1] in rows;
      ClientKeepsSilver(front, today);
      assert ClientKey(rows[|rows| - 1]).Some?;
      var p := ClientPairs(rows);
      assert p[..|p| - 1] == ClientPairs(front);
    }
  }

  /** Over silver rows, the null-date drop removes nothing, each (day,
      moneda) key appears once, and the daily totals add up to the silver
      `monto` total; the same holds for the per-client view. */
  lemma GoldViewsBalance(silver: Table, today: int)
    requires forall r :: r in silver.rows ==> SilverRow(r, today)
    ensures DistinctKeys(GoldDaily(silver)) && DistinctKeys(GoldByCliente(silver))
    ensures |DailyPairs(silver.rows)| == |silver.rows|
    ensures Total(GoldDaily(silver)) == MontoTotal(silver.rows)
    ensures Total(GoldByCliente(silver)) == MontoTotal(silver.rows)
  {
    DailyKeepsSilver(silver.rows, today);
    ClientKeepsSilver(silver.rows, today);
    GroupSumTotal(DailyPairs(silver.rows));
    GroupSumTotal(ClientPairs(silver.rows));
  }
}

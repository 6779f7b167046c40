/**
 * The weekly time series (`compute_temporal_stats`): facets with a usable
 * `start_timestamp` are grouped by ISO week; every week reports its session
 * count, the rounded share of fully achieved sessions and the number of
 * distinct projects, in ascending week order.
 *
 * Parsing the timestamp and formatting its ISO week are an oracle
 * `weekOf(ts)`: `None` is a `ValueError` from `datetime.fromisoformat`.
 */
module Temporal {
  import opened Wrappers
  import opened Json
  import opened Text
  import opened Seqs

  /** `datetime.fromisoformat(ts.replace("Z", "+00:00")).strftime("%G-W%V")`. */
  type WeekOf = string -> Option<string>

  /** The accumulator of one week: `count`, `fully_achieved`, `projects`. */
  datatype Week = Week(count: nat, fullyAchieved: nat, projects: set<Key>)

  /** One element of the result list. */
  datatype WeekRow = WeekRow(week: string, count: nat, successRate: int, activeProjects: nat)

  /** What one dated facet adds: its week, whether it was fully achieved, its project. */
  datatype Sample = Sample(week: string, achieved: bool, project: Key)

  /**
   * The loop body's reading of one facet: `None` when it is skipped (a falsy
   * timestamp or one that does not parse). A timestamp that is truthy but
   * not a string has no `replace` and raises.
   */
  function SampleOf(f: Json, weekOf: WeekOf): Result<Option<Sample>> {
    if !f.JObj? then Failure("AttributeError: object has no attribute 'get'")
    else
      var ts := Get(f.fields, "start_timestamp", JNull);
      if !Truthy(ts) then Success(None)
      else if !ts.JStr? then Failure("AttributeError: object has no attribute 'replace'")
      else
        match weekOf(ts.s)
        case None => Success(None)
        case Some(w) =>
          var project :- HashKey(Get(f.fields, "project", JStr("unknown")));
          Success(Some(Sample(w, Get(f.fields, "outcome", JNull) == JStr("fully_achieved"), project)))
  }

  /** A week seen for the first time. */
  const NewWeek: Week := Week(0, 0, {})

  /** `weekly[week]` after one more sample. */
  function AddSample(weekly: map<string, Week>, s: Sample): map<string, Week> {
    var w := if s.week in weekly then weekly[s.week] else NewWeek;
    weekly[s.week := Week(w.count + 1, w.fullyAchieved + (if s.achieved then 1 else 0), w.projects + {s.project})]
  }

  /** The `weekly` dict after the loop, or the exception it raises. */
  function Weekly(facets: seq<Json>, weekOf: WeekOf): Result<map<string, Week>>
    decreases |facets|
  {
    if facets == [] then Success(map[])
    else
      var weekly :- Weekly(facets[..|facets| - 1], weekOf);
      var sample :- SampleOf(facets[|facets| - 1], weekOf);
      Success(if sample.Some? then AddSample(weekly, sample.value) else weekly)
  }

  /** Python's `round(x)` on an exact value: to the nearest integer, ties to even. */
  function RoundHalfEven(x: real): (r: int)
    ensures x - 0.5 <= r as real <= x + 0.5
  {
    var f := x.Floor;
    var d := x - f as real;
    if d < 0.5 then f else if d > 0.5 then f + 1 else if f % 2 == 0 then f else f + 1
  }

  /** `round(fully_achieved / count * 100) if count else 0`. */
  function SuccessRate(fullyAchieved: nat, count: nat): int {
    if count == 0 then 0 else RoundHalfEven(fullyAchieved as real / count as real * 100.0)
  }

  /** A share of a count is rounded into 0..100. */
  lemma {:induction false} SuccessRateBounds(fullyAchieved: nat, count: nat)
    requires fullyAchieved <= count
    ensures 0 <= SuccessRate(fullyAchieved, count) <= 100
  {
    if count > 0 {
      var x := fullyAchieved as real / count as real * 100.0;
      assert 0.0 <= x <= 100.0 by {
        assert fullyAchieved as real / count as real <= 1.0;
      }
    }
  }

  /** The result row of one week. */
  function RowOf(week: string, w: Week): WeekRow {
    WeekRow(week, w.count, SuccessRate(w.fullyAchieved, w.count), |w.projects|)
  }

  // ---------------------------------------------------------------------
  // Ascending order of week keys
  // ---------------------------------------------------------------------

  predicate Least(k: string, keys: set<string>) {
    k in keys && forall x :: x in keys && x != k ==> LexLess(k, x)
  }

  /** Every finite non-empty set of strings has a least element. */
  lemma {:induction false} LeastExists(keys: set<string>)
    requires keys != {}
    ensures exists k :: Least(k, keys)
    decreases |keys|
  {
    var y :| y in keys;
    if keys != {y} {
      var rest := keys - {y};
      LeastExists(rest);
      var m :| Least(m, rest);
      LexTotal(y, m);
      if LexLess(y, m) {
        forall x | x in keys && x != y ensures LexLess(y, x) {
          if x != m {
            LexTransitive(y, m, x);
          }
        }
        assert Least(y, keys);
      } else {
        assert Least(m, keys);
      }
    } else {
      assert Least(y, keys);
    }
  }

  /** Rows that list the weeks of `weekly` once each, in ascending order. */
  predicate SortedRows(rows: seq<WeekRow>, weekly: map<string, Week>) {
    (forall i, j :: 0 <= i < j < |rows| ==> LexLess(rows[i].week, rows[j].week))
    && (forall i :: 0 <= i < |rows| ==> rows[i].week in weekly && rows[i] == RowOf(rows[i].week, weekly[rows[i].week]))
    && (forall k :: k in weekly ==> exists i :: 0 <= i < |rows| && rows[i].week == k)
  }

  // ---------------------------------------------------------------------
  // The loops
  // ---------------------------------------------------------------------

  lemma {:induction false} WeeklyFailureSticky(facets: seq<Json>, k: nat, weekOf: WeekOf)
    requires k <= |facets| && Weekly(facets[..k], weekOf).Failure?
    ensures Weekly(facets, weekOf) == Weekly(facets[..k], weekOf)
    decreases |facets| - k
  {
    if k < |facets| {
      var p := facets[..|facets| - 1];
      assert p[..k] == facets[..k];
      WeeklyFailureSticky(p, k, weekOf);
    } else {
      assert facets[..k] == facets;
    }
  }

  /** `weekly[week]["count"] += 1` and the rest of the loop body for one dated facet. */
  method Record(weekly: map<string, Week>, s: Sample) returns (r: map<string, Week>)
    ensures r == AddSample(weekly, s)
  {
    var w := if s.week in weekly then weekly[s.week] else NewWeek;
    w := w.(count := w.count + 1);
    if s.achieved {
      w := w.(fullyAchieved := w.fullyAchieved + 1);
    }
    w := w.(projects := w.projects + {s.project});
    r := weekly[s.week := w];
  }

  /** The grouping loop of `compute_temporal_stats`. */
  method GroupByWeek(facets: seq<Json>, weekOf: WeekOf) returns (r: Result<map<string, Week>>)
    ensures r == Weekly(facets, weekOf)
  {
    var weekly: map<string, Week> := map[];
    var j := 0;
    while j < |facets|
      invariant 0 <= j <= |facets|
      invariant Weekly(facets[..j], weekOf) == Success(weekly)
    {
      assert facets[..j + 1][..j] == facets[..j];
      var sample := SampleOf(facets[j], weekOf);
      if sample.Failure? {
        WeeklyFailureSticky(facets, j + 1, weekOf);
        return Failure(sample.error);
      }
      if sample.value.Some? {
        weekly := Record(weekly, sample.value.value);
      }
      j := j + 1;
    }
    assert facets[..j] == facets;
    return Success(weekly);
  }

  /** `for k, v in sorted(weekly.items())`: one row per week, in ascending week order. */
  method WeekRows(weekly: map<string, Week>) returns (rows: seq<WeekRow>)
    ensures SortedRows(rows, weekly)
  {
    rows := [];
    var todo := weekly.Keys;
    while todo != {}
      invariant todo <= weekly.Keys
      invariant forall i, j :: 0 <= i < j < |rows| ==> LexLess(rows[i].week, rows[j].week)
      invariant forall i :: 0 <= i < |rows| ==>
                  (rows[i].week in weekly && rows[i].week !in todo
                   && rows[i] == RowOf(rows[i].week, weekly[rows[i].week]))
      invariant forall i, x :: 0 <= i < |rows| && x in todo ==> LexLess(rows[i].week, x)
      invariant forall k :: k in weekly && k !in todo ==> exists i :: 0 <= i < |rows| && rows[i].week == k
      decreases todo
    {
      LeastExists(todo);
      var k :| Least(k, todo);
      ghost var before := rows;
      rows := rows + [RowOf(k, weekly[k])];
      assert rows[|rows| - 1].week == k;
      assert forall i :: 0 <= i < |before| ==> rows[i] == before[i];
      todo := todo - {k};
    }
  }

  /** `compute_temporal_stats`. */
  method ComputeTemporalStats(facets: seq<Json>, weekOf: WeekOf) returns (r: Result<seq<WeekRow>>)
    ensures r.Success? <==> Weekly(facets, weekOf).Success?
    ensures r.Success? ==> SortedRows(r.value, Weekly(facets, weekOf).value)
    ensures r.Success? ==> RowsSum(r.value) == DatedFacets(facets, weekOf)
    ensures r.Success? ==> forall i :: 0 <= i < |r.value| ==> RowBounded(r.value[i])
  {
    var weekly := GroupByWeek(facets, weekOf);
    if weekly.Failure? {
      return Failure(weekly.error);
    }
    var rows := WeekRows(weekly.value);
    TemporalRows(facets, weekOf, rows);
    return Success(rows);
  }

  // ---------------------------------------------------------------------
  // Properties of the series
  // ---------------------------------------------------------------------

  /** The facets the loop counts: a truthy string timestamp whose week can be read. */
  function DatedFacets(facets: seq<Json>, weekOf: WeekOf): nat
    decreases |facets|
  {
    if facets == [] then 0
    else
      var f := facets[|facets| - 1];
      var dated := f.JObj? && Get(f.fields, "start_timestamp", JNull).JStr?
                   && Get(f.fields, "start_timestamp", JNull).s != ""
                   && weekOf(Get(f.fields, "start_timestamp", JNull).s).Some?;
      DatedFacets(facets[..|facets| - 1], weekOf) + (if dated then 1 else 0)
  }

  /** The week counts of the accumulator. */
  function WeekCounts(weekly: map<string, Week>): map<string, nat> {
    map k | k in weekly :: weekly[k].count
  }

  /** The sum of the `count` column. */
  function RowsSum(rows: seq<WeekRow>): nat
    decreases |rows|
  {
    if rows == [] then 0 else RowsSum(rows[..|rows| - 1]) + rows[|rows| - 1].count
  }

  /** A week's accumulator: at least one session, no more successes or projects than sessions. */
  predicate WeekOk(w: Week) {
    1 <= w.count && w.fullyAchieved <= w.count && 1 <= |w.projects| <= w.count
  }

  /** A result row: at least one session, a rate in 0..100, between one and `count` projects. */
  predicate RowBounded(row: WeekRow) {
    row.count >= 1 && 0 <= row.successRate <= 100 && 1 <= row.activeProjects <= row.count
  }

  lemma {:induction false} SampleDated(f: Json, weekOf: WeekOf)
    requires SampleOf(f, weekOf).Success?
    ensures SampleOf(f, weekOf).value.Some? <==>
              (f.JObj? && Get(f.fields, "start_timestamp", JNull).JStr?
               && Get(f.fields, "start_timestamp", JNull).s != ""
               && weekOf(Get(f.fields, "start_timestamp", JNull).s).Some?)
  {
  }

  /** One more facet: the accumulator grows by its sample, if it has one. */
  lemma {:induction false} WeeklySnoc(facets: seq<Json>, weekOf: WeekOf)
    requires facets != [] && Weekly(facets, weekOf).Success?
    ensures Weekly(facets[..|facets| - 1], weekOf).Success?
    ensures SampleOf(facets[|facets| - 1], weekOf).Success?
    ensures var m := Weekly(facets[..|facets| - 1], weekOf).value;
            var sample := SampleOf(facets[|facets| - 1], weekOf).value;
            Weekly(facets, weekOf).value == if sample.Some? then AddSample(m, sample.value) else m
  {
  }

  lemma {:induction false} AddSampleCounts(m: map<string, Week>, s: Sample)
    ensures WeekCounts(AddSample(m, s)) == WeekCounts(m)[s.week := (if s.week in m then m[s.week].count else 0) + 1]
  {
  }

  /** Every accumulated week is well formed. */
  lemma {:induction false} WeeklyWellFormed(facets: seq<Json>, weekOf: WeekOf)
    requires Weekly(facets, weekOf).Success?
    ensures forall k :: k in Weekly(facets, weekOf).value ==> WeekOk(Weekly(facets, weekOf).value[k])
    decreases |facets|
  {
    if facets != [] {
      WeeklySnoc(facets, weekOf);
      WeeklyWellFormed(facets[..|facets| - 1], weekOf);
    }
  }

  /** The week counts sum to the number of dated facets. */
  lemma {:induction false} WeeklySum(facets: seq<Json>, weekOf: WeekOf)
    requires Weekly(facets, weekOf).Success?
    ensures SumValues(WeekCounts(Weekly(facets, weekOf).value)) == DatedFacets(facets, weekOf)
    decreases |facets|
  {
    if facets != [] {
      var p, f := facets[..|facets| - 1], facets[|facets| - 1];
      WeeklySnoc(facets, weekOf);
      WeeklySum(p, weekOf);
      SampleDated(f, weekOf);
      var m := Weekly(p, weekOf).value;
      var sample := SampleOf(f, weekOf).value;
      if sample.Some? {
        var s := sample.value;
        AddSampleCounts(m, s);
        SumValuesUpdate(WeekCounts(m), s.week, (if s.week in m then m[s.week].count else 0) + 1);
      }
    }
  }

  /** Rows that carry the counts of distinct weeks of `counts`, covering them all. */
  predicate Lists(rows: seq<WeekRow>, counts: map<string, nat>) {
    (forall i, j :: 0 <= i < j < |rows| ==> rows[i].week != rows[j].week)
    && (forall i :: 0 <= i < |rows| ==> rows[i].week in counts && rows[i].count == counts[rows[i].week])
    && (forall k :: k in counts ==> exists i :: 0 <= i < |rows| && rows[i].week == k)
  }

  lemma {:induction false} SortedRowsList(rows: seq<WeekRow>, weekly: map<string, Week>)
    requires SortedRows(rows, weekly)
    ensures Lists(rows, WeekCounts(weekly))
  {
    forall i, j | 0 <= i < j < |rows| ensures rows[i].week != rows[j].week {
      if rows[i].week == rows[j].week {
        LexIrreflexive(rows[i].week);
      }
    }
  }

  /** Without its last row, a listing lists the other weeks. */
  lemma {:induction false} ListsDropLast(rows: seq<WeekRow>, counts: map<string, nat>)
    requires rows != [] && Lists(rows, counts)
    ensures Lists(rows[..|rows| - 1], counts - {rows[|rows| - 1].week})
  {
    var p, k := rows[..|rows| - 1], rows[|rows| - 1].week;
    forall x | x in counts - {k} ensures exists i :: 0 <= i < |p| && p[i].week == x {
      var i :| 0 <= i < |rows| && rows[i].week == x;
      assert p[i] == rows[i];
    }
  }

  /** A listing's counts sum to the map's counts. */
  lemma {:induction false} ListsSum(rows: seq<WeekRow>, counts: map<string, nat>)
    requires Lists(rows, counts)
    ensures RowsSum(rows) == SumValues(counts)
    decreases |rows|
  {
    if rows == [] {
      assert counts.Keys == {};
    } else {
      var k := rows[|rows| - 1].week;
      ListsDropLast(rows, counts);
      ListsSum(rows[..|rows| - 1], counts - {k});
      SumValuesRemove(counts, k);
    }
  }

  /** The rows of a well-formed accumulator are bounded, and their counts sum to the dated facets. */
  lemma {:induction false} TemporalRows(facets: seq<Json>, weekOf: WeekOf, rows: seq<WeekRow>)
    requires Weekly(facets, weekOf).Success? && SortedRows(rows, Weekly(facets, weekOf).value)
    ensures RowsSum(rows) == DatedFacets(facets, weekOf)
    ensures forall i :: 0 <= i < |rows| ==> RowBounded(rows[i])
  {
    var weekly := Weekly(facets, weekOf).value;
    WeeklyWellFormed(facets, weekOf);
    WeeklySum(facets, weekOf);
    SortedRowsList(rows, weekly);
    ListsSum(rows, WeekCounts(weekly));
    forall i | 0 <= i < |rows| ensures RowBounded(rows[i]) {
      var w := weekly[rows[i].week];
      SuccessRateBounds(w.fullyAchieved, w.count);
    }
  }
}

/**
 * The aggregate statistics over all facets (`compute_aggregate_stats`):
 * counters by outcome, helpfulness and session type, summed goal-category
 * and friction-type counts, the number of sessions with friction, and the
 * same per project.
 *
 * A facet is a decoded JSON value. Python raises on a facet that is not a
 * dict, on a count dict that is not a dict or holds a non-number, and on
 * an unhashable outcome, helpfulness, session type or project; those raise
 * here too, as a `Failure`.
 */
module Aggregate {
  import opened Wrappers
  import opened Json
  import opened Seqs

  /** What one facet contributes to the statistics. */
  datatype View = View(goals: map<string, real>, outcome: Key, helpfulness: Key, sessionType: Key,
                       friction: map<string, real>, hasFriction: bool, project: Key)

  /** The per-project entry of `stats["projects"]`. */
  datatype ProjectStats = ProjectStats(count: nat, outcomes: map<Key, nat>, goals: map<string, real>,
                                       frictionCount: nat)

  /** The dict `compute_aggregate_stats` returns. */
  datatype Stats = Stats(total: nat, goals: map<string, real>, outcomes: map<Key, nat>,
                         helpfulness: map<Key, nat>, sessionTypes: map<Key, nat>,
                         frictionTypes: map<string, real>, withFriction: nat,
                         projects: map<Key, ProjectStats>)

  /**
   * A dict of counts as the `d.items()` loops use it: it must be a dict, and
   * every value must be a number for `get(k, 0) + count`.
   */
  function Counts(j: Json): (r: Result<map<string, real>>)
    ensures r.Success? <==> j.JObj? && forall k :: k in j.fields ==> NumericValue(j.fields[k]).Some?
    ensures r.Success? ==> r.value.Keys == j.fields.Keys
                           && forall k :: k in r.value ==> NumericValue(j.fields[k]) == Some(r.value[k])
  {
    if !j.JObj? then Failure("AttributeError: object has no attribute 'items'")
    else if exists k :: k in j.fields && NumericValue(j.fields[k]).None? then
      Failure("TypeError: unsupported operand type(s) for +")
    else Success(map k | k in j.fields :: NumericValue(j.fields[k]).value)
  }

  /** The fields of one facet the loop body reads, with their defaults. */
  function ViewOf(f: Json): Result<View> {
    if !f.JObj? then Failure("AttributeError: object has no attribute 'get'")
    else
      var m := f.fields;
      var goals :- Counts(Get(m, "goal_categories", JObj(map[])));
      var outcome :- HashKey(Get(m, "outcome", JStr("unclear")));
      var helpfulness :- HashKey(Get(m, "claude_helpfulness", JStr("unknown")));
      var sessionType :- HashKey(Get(m, "session_type", JStr("unknown")));
      var frictionValue := Get(m, "friction_counts", JObj(map[]));
      var friction :- Counts(frictionValue);
      var project :- HashKey(Get(m, "project", JStr("unknown")));
      Success(View(goals, outcome, helpfulness, sessionType, friction, Truthy(frictionValue), project))
  }

  /** The views of all facets, or the exception of the first facet that raises. */
  function Views(facets: seq<Json>): (r: Result<seq<View>>)
    ensures r.Success? ==> |r.value| == |facets|
    ensures r.Success? ==> forall j :: 0 <= j < |facets| ==> ViewOf(facets[j]) == Success(r.value[j])
    decreases |facets|
  {
    if facets == [] then Success([])
    else
      var p := facets[..|facets| - 1];
      var prev :- Views(p);
      var v :- ViewOf(facets[|facets| - 1]);
      assert forall j :: 0 <= j < |p| ==> p[j] == facets[j];
      Success(prev + [v])
  }

  /** `acc[k] = acc.get(k, 0) + count` for every item of `add`. */
  function AddCounts(acc: map<string, real>, add: map<string, real>): (r: map<string, real>)
    ensures r.Keys == acc.Keys + add.Keys
  {
    map k | k in acc.Keys + add.Keys :: (if k in acc then acc[k] else 0.0) + (if k in add then add[k] else 0.0)
  }

  ghost function RealPick<K>(m: map<K, real>): K
    requires m != map[]
  {
    var k :| k in m; k
  }

  /** The sum of a count dict's values. */
  ghost function RealSum<K>(m: map<K, real>): real
    decreases |m|
  {
    if m == map[] then 0.0
    else
      var k := RealPick(m);
      assert (m - {k}).Keys == m.Keys - {k};
      m[k] + RealSum(m - {k})
  }

  lemma {:induction false} RealSumRemove<K>(m: map<K, real>, k: K)
    requires k in m
    ensures RealSum(m) == m[k] + RealSum(m - {k})
    decreases |m|
  {
    var j := RealPick(m);
    if j != k {
      assert (m - {j}).Keys == m.Keys - {j};
      assert (m - {k}).Keys == m.Keys - {k};
      RealSumRemove(m - {j}, k);
      RealSumRemove(m - {k}, j);
      assert m - {j} - {k} == m - {k} - {j};
    }
  }

  lemma {:induction false} RealSumUpdate<K>(m: map<K, real>, k: K, v: real)
    ensures RealSum(m[k := v]) + (if k in m then m[k] else 0.0) == RealSum(m) + v
  {
    var m' := m[k := v];
    RealSumRemove(m', k);
    assert m' - {k} == m - {k};
    if k in m {
      RealSumRemove(m, k);
    } else {
      assert m - {k} == m;
    }
  }

  /** Adding one count dict into another adds their totals: no count is lost or doubled. */
  lemma {:induction false} AddCountsSum(acc: map<string, real>, add: map<string, real>)
    ensures RealSum(AddCounts(acc, add)) == RealSum(acc) + RealSum(add)
    decreases |add|
  {
    if add == map[] {
      AddCountsNothing(acc);
      RealSumEmpty(add);
    } else {
      var k := RealPick(add);
      var rest := add - {k};
      assert rest.Keys == add.Keys - {k};
      AddCountsSum(acc, rest);
      RealSumRemove(add, k);
      AddCountsStep(acc, add, k);
    }
  }

  lemma {:induction false} RealSumEmpty<K>(m: map<K, real>)
    requires m == map[]
    ensures RealSum(m) == 0.0
  {
  }

  lemma {:induction false} AddCountsNothing(acc: map<string, real>)
    ensures AddCounts(acc, map[]) == acc
  {
    var l := AddCounts(acc, map[]);
    assert l.Keys == acc.Keys;
    forall j | j in l.Keys
      ensures l[j] == acc[j]
    {
    }
  }

  /** Adding the key `k` of `add` adds `add[k]` to the total of the rest. */
  lemma {:induction false} AddCountsStep(acc: map<string, real>, add: map<string, real>, k: string)
    requires k in add
    ensures RealSum(AddCounts(acc, add)) == RealSum(AddCounts(acc, add - {k})) + add[k]
  {
    var o := if k in acc then acc[k] else 0.0;
    var before := AddCounts(acc, add - {k});
    var l, r := AddCounts(acc, add), before[k := o + add[k]];
    assert l.Keys == r.Keys;
    forall j | j in l.Keys
      ensures l[j] == r[j]
    {
    }
    assert l == r;
    assert (if k in before then before[k] else 0.0) == o;
    RealSumUpdate(before, k, o + add[k]);
  }

  /** The initial `stats` dict, for `total` facets. */
  function Empty(total: nat): Stats {
    Stats(total, map[], map[], map[], map[], map[], 0, map[])
  }

  /** The fresh entry of a project seen for the first time. */
  const NewProject: ProjectStats := ProjectStats(0, map[], map[], 0)

  /** What one facet adds to its project's entry. */
  function TouchProject(ps: ProjectStats, v: View): ProjectStats {
    ProjectStats(ps.count + 1, Bump(ps.outcomes, v.outcome), AddCounts(ps.goals, v.goals),
                 ps.frictionCount + (if v.hasFriction then 1 else 0))
  }

  /** What one facet adds to the statistics. */
  function AddView(s: Stats, v: View): Stats {
    var ps := if v.project in s.projects then s.projects[v.project] else NewProject;
    Stats(s.total, AddCounts(s.goals, v.goals), Bump(s.outcomes, v.outcome),
          Bump(s.helpfulness, v.helpfulness), Bump(s.sessionTypes, v.sessionType),
          AddCounts(s.frictionTypes, v.friction), s.withFriction + (if v.hasFriction then 1 else 0),
          s.projects[v.project := TouchProject(ps, v)])
  }

  /** The statistics after the loop has seen `vs`, with `total` set up front. */
  function StatsOf(total: nat, vs: seq<View>): Stats
    decreases |vs|
  {
    if vs == [] then Empty(total) else AddView(StatsOf(total, vs[..|vs| - 1]), vs[|vs| - 1])
  }

  /** What `compute_aggregate_stats` returns or raises. */
  function Aggregate(facets: seq<Json>): Result<Stats> {
    var vs :- Views(facets);
    Success(StatsOf(|facets|, vs))
  }

  // ---------------------------------------------------------------------
  // The loop
  // ---------------------------------------------------------------------

  /** The inner `for k, count in add.items()` loop. */
  method AddInto(acc: map<string, real>, add: map<string, real>) returns (r: map<string, real>)
    ensures r == AddCounts(acc, add)
  {
    r := acc;
    var todo := add.Keys;
    while todo != {}
      invariant todo <= add.Keys
      invariant r.Keys == acc.Keys + (add.Keys - todo)
      invariant forall k :: k in r ==>
                  r[k] == (if k in acc then acc[k] else 0.0) + (if k in add && k !in todo then add[k] else 0.0)
      decreases todo
    {
      var k :| k in todo;
      r := r[k := (if k in r then r[k] else 0.0) + add[k]];
      todo := todo - {k};
    }
  }

  lemma {:induction false} ViewsFailureSticky(facets: seq<Json>, k: nat)
    requires k <= |facets| && Views(facets[..k]).Failure?
    ensures Views(facets) == Views(facets[..k])
    decreases |facets| - k
  {
    if k < |facets| {
      var p := facets[..|facets| - 1];
      assert p[..k] == facets[..k];
      ViewsFailureSticky(p, k);
    } else {
      assert facets[..k] == facets;
    }
  }

  /** The loop body for one facet's view. */
  method AddFacet(stats: Stats, v: View) returns (s: Stats)
    ensures s == AddView(stats, v)
  {
    var goals := AddInto(stats.goals, v.goals);
    var friction := AddInto(stats.frictionTypes, v.friction);
    var projects := stats.projects;
    if v.project !in projects {
      projects := projects[v.project := NewProject];
    }
    var ps := projects[v.project];
    var projectGoals := AddInto(ps.goals, v.goals);
    ps := ps.(count := ps.count + 1, outcomes := Bump(ps.outcomes, v.outcome), goals := projectGoals);
    if v.hasFriction {
      ps := ps.(frictionCount := ps.frictionCount + 1);
    }
    s := stats.(goals := goals, outcomes := Bump(stats.outcomes, v.outcome),
                helpfulness := Bump(stats.helpfulness, v.helpfulness),
                sessionTypes := Bump(stats.sessionTypes, v.sessionType),
                frictionTypes := friction,
                withFriction := stats.withFriction + (if v.hasFriction then 1 else 0),
                projects := projects[v.project := ps]);
  }

  /** `compute_aggregate_stats`. */
  method ComputeAggregateStats(facets: seq<Json>) returns (r: Result<Stats>)
    ensures r == Aggregate(facets)
  {
    var stats := Empty(|facets|);
    ghost var vs: seq<View> := [];
    var j := 0;
    while j < |facets|
      invariant 0 <= j <= |facets|
      invariant Views(facets[..j]) == Success(vs)
      invariant stats == StatsOf(|facets|, vs)
    {
      assert facets[..j + 1][..j] == facets[..j];
      var view := ViewOf(facets[j]);
      if view.Failure? {
        ViewsFailureSticky(facets, j + 1);
        return Failure(view.error);
      }
      stats := AddFacet(stats, view.value);
      ghost var before := vs;
      vs := vs + [view.value];
      assert vs[..|vs| - 1] == before;
      j := j + 1;
    }
    assert facets[..j] == facets;
    return Success(stats);
  }

  // ---------------------------------------------------------------------
  // Conservation laws
  // ---------------------------------------------------------------------

  /** `count` of every project entry. */
  function ProjectCounts(ps: map<Key, ProjectStats>): map<Key, nat> {
    map k | k in ps :: ps[k].count
  }

  /** `friction_count` of every project entry. */
  function ProjectFriction(ps: map<Key, ProjectStats>): map<Key, nat> {
    map k | k in ps :: ps[k].frictionCount
  }

  /** The facets whose `friction_counts` is a non-empty dict. */
  function FrictionFacets(facets: seq<Json>): nat
    decreases |facets|
  {
    if facets == [] then 0
    else
      var f := facets[|facets| - 1];
      FrictionFacets(facets[..|facets| - 1])
        + (if f.JObj? && Truthy(Get(f.fields, "friction_counts", JObj(map[]))) then 1 else 0)
  }

  lemma {:induction false} StatsTotal(total: nat, vs: seq<View>)
    ensures StatsOf(total, vs).total == total
    decreases |vs|
  {
    if vs != [] {
      StatsTotal(total, vs[..|vs| - 1]);
    }
  }

  /** The outcome, helpfulness and session-type counters each sum to the number of facets. */
  lemma {:induction false} CountersSum(total: nat, vs: seq<View>)
    ensures SumValues(StatsOf(total, vs).outcomes) == |vs|
    ensures SumValues(StatsOf(total, vs).helpfulness) == |vs|
    ensures SumValues(StatsOf(total, vs).sessionTypes) == |vs|
    decreases |vs|
  {
    if vs != [] {
      var p, v := vs[..|vs| - 1], vs[|vs| - 1];
      CountersSum(total, p);
      var s := StatsOf(total, p);
      SumValuesBump(s.outcomes, v.outcome);
      SumValuesBump(s.helpfulness, v.helpfulness);
      SumValuesBump(s.sessionTypes, v.sessionType);
    }
  }

  /**
   * The per-project counts sum to the number of facets, and the per-project
   * friction counts to `sessions_with_friction`.
   */
  lemma {:induction false} ProjectsSum(total: nat, vs: seq<View>)
    ensures SumValues(ProjectCounts(StatsOf(total, vs).projects)) == |vs|
    ensures SumValues(ProjectFriction(StatsOf(total, vs).projects)) == StatsOf(total, vs).withFriction
    decreases |vs|
  {
    if vs != [] {
      var p, v := vs[..|vs| - 1], vs[|vs| - 1];
      ProjectsSum(total, p);
      var ps := StatsOf(total, p).projects;
      var prior := if v.project in ps then ps[v.project] else NewProject;
      var t := TouchProject(prior, v);
      ProjectMapsUpdate(ps, v.project, t);
      SumValuesUpdate(ProjectCounts(ps), v.project, t.count);
      SumValuesUpdate(ProjectFriction(ps), v.project, t.frictionCount);
    }
  }

  lemma {:induction false} ProjectMapsUpdate(ps: map<Key, ProjectStats>, k: Key, t: ProjectStats)
    ensures ProjectCounts(ps[k := t]) == ProjectCounts(ps)[k := t.count]
    ensures ProjectFriction(ps[k := t]) == ProjectFriction(ps)[k := t.frictionCount]
  {
  }

  /** Within every project, the outcome counter sums to the project's count. */
  lemma {:induction false} ProjectOutcomesSum(total: nat, vs: seq<View>)
    ensures forall k :: k in StatsOf(total, vs).projects ==>
              SumValues(StatsOf(total, vs).projects[k].outcomes) == StatsOf(total, vs).projects[k].count
    decreases |vs|
  {
    if vs != [] {
      var p, v := vs[..|vs| - 1], vs[|vs| - 1];
      ProjectOutcomesSum(total, p);
      var ps := StatsOf(total, p).projects;
      var prior := if v.project in ps then ps[v.project] else NewProject;
      SumValuesBump(prior.outcomes, v.outcome);
    }
  }

  /** A facet's view has friction when its `friction_counts` is truthy. */
  lemma {:induction false} ViewFriction(f: Json)
    requires ViewOf(f).Success?
    ensures ViewOf(f).value.hasFriction == (f.JObj? && Truthy(Get(f.fields, "friction_counts", JObj(map[]))))
  {
  }

  /** The views with friction. */
  function FrictionViews(vs: seq<View>): nat
    decreases |vs|
  {
    if vs == [] then 0 else FrictionViews(vs[..|vs| - 1]) + (if vs[|vs| - 1].hasFriction then 1 else 0)
  }

  lemma {:induction false} StatsFriction(total: nat, vs: seq<View>)
    ensures StatsOf(total, vs).withFriction == FrictionViews(vs)
    decreases |vs|
  {
    if vs != [] {
      StatsFriction(total, vs[..|vs| - 1]);
    }
  }

  lemma {:induction false} ViewsFriction(facets: seq<Json>)
    requires Views(facets).Success?
    ensures FrictionViews(Views(facets).value) == FrictionFacets(facets)
    decreases |facets|
  {
    if facets != [] {
      var p, f := facets[..|facets| - 1], facets[|facets| - 1];
      var vs := Views(facets).value;
      assert Views(p).Success? && ViewOf(f).Success?;
      assert vs == Views(p).value + [ViewOf(f).value];
      assert vs[..|vs| - 1] == Views(p).value;
      ViewsFriction(p);
      ViewFriction(f);
    }
  }

  /** The goal-category counts all views contribute. */
  ghost function GoalTotal(vs: seq<View>): real
    decreases |vs|
  {
    if vs == [] then 0.0 else GoalTotal(vs[..|vs| - 1]) + RealSum(vs[|vs| - 1].goals)
  }

  /** The friction-type counts all views contribute. */
  ghost function FrictionTotal(vs: seq<View>): real
    decreases |vs|
  {
    if vs == [] then 0.0 else FrictionTotal(vs[..|vs| - 1]) + RealSum(vs[|vs| - 1].friction)
  }

  /** `goal_categories` and `friction_types` hold the sums of every facet's counts. */
  lemma {:induction false} SummedCounts(total: nat, vs: seq<View>)
    ensures RealSum(StatsOf(total, vs).goals) == GoalTotal(vs)
    ensures RealSum(StatsOf(total, vs).frictionTypes) == FrictionTotal(vs)
    decreases |vs|
  {
    if vs == [] {
      assert StatsOf(total, vs).goals == map[];
    } else {
      var p, v := vs[..|vs| - 1], vs[|vs| - 1];
      SummedCounts(total, p);
      AddCountsSum(StatsOf(total, p).goals, v.goals);
      AddCountsSum(StatsOf(total, p).frictionTypes, v.friction);
    }
  }

  /** What the statistics of a list of facets satisfy. */
  lemma {:induction false} AggregateConservation(facets: seq<Json>)
    requires Aggregate(facets).Success?
    ensures Aggregate(facets).value.total == |facets|
    ensures SumValues(Aggregate(facets).value.outcomes) == |facets|
    ensures SumValues(Aggregate(facets).value.helpfulness) == |facets|
    ensures SumValues(Aggregate(facets).value.sessionTypes) == |facets|
    ensures SumValues(ProjectCounts(Aggregate(facets).value.projects)) == |facets|
    ensures Aggregate(facets).value.withFriction == FrictionFacets(facets)
    ensures SumValues(ProjectFriction(Aggregate(facets).value.projects)) == FrictionFacets(facets)
  {
    var vs := Views(facets).value;
    StatsTotal(|facets|, vs);
    CountersSum(|facets|, vs);
    ProjectsSum(|facets|, vs);
    StatsFriction(|facets|, vs);
    ViewsFriction(facets);
  }

  /** The loop raises exactly when some facet's view raises. */
  lemma {:induction false} ViewsFail(facets: seq<Json>)
    ensures Views(facets).Failure? <==> exists j :: 0 <= j < |facets| && ViewOf(facets[j]).Failure?
    decreases |facets|
  {
    if facets != [] {
      var p, f := facets[..|facets| - 1], facets[|facets| - 1];
      ViewsFail(p);
      assert forall j :: 0 <= j < |p| ==> p[j] == facets[j];
      if Views(p).Success? && ViewOf(f).Success? {
        assert Views(facets) == Success(Views(p).value + [ViewOf(f).value]);
      }
    }
  }

  /** `compute_aggregate_stats` raises exactly when some facet's view raises. */
  lemma {:induction false} AggregateFails(facets: seq<Json>)
    ensures Aggregate(facets).Failure? <==> exists j :: 0 <= j < |facets| && ViewOf(facets[j]).Failure?
  {
    ViewsFail(facets);
  }

  /** No facets: zeros and empty maps. */
  lemma AggregateEmpty()
    ensures Aggregate([]) == Success(Stats(0, map[], map[], map[], map[], map[], 0, map[]))
  {
  }
}

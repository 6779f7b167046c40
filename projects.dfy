/**
 * The project listing (`list_projects`): count the cached facets per
 * project, give every project its readable name and list them with the
 * largest count first.
 *
 * The facets are the decoded facet files `load_all_facets` returns without
 * filters. The counter is a `defaultdict`, so its keys come out in order of
 * first appearance; `list.sort` is stable, so projects with equal counts
 * keep that order.
 */
module ProjectList {
  import opened Wrappers
  import opened Json
  import opened Seqs
  import opened Names

  /** One entry of the listing: `(human_name, encoded_name, count)`. */
  datatype ProjectRow = ProjectRow(human: string, encoded: string, count: nat)

  /** The sort key `lambda x: x[2]`. */
  function CountOf(row: ProjectRow): real {
    row.count as real
  }

  /** The project field a facet is counted under. */
  function ProjectField(m: map<string, Json>): Json {
    Get(m, "project", JStr("unknown"))
  }

  /**
   * `f.get("project", "unknown")` as a counter key: a facet that is not a
   * dict has no `get`, and a list or dict project cannot be hashed.
   */
  function ProjectKey(f: Json): (r: Result<Key>)
    ensures r.Success? <==> f.JObj? && !ProjectField(f.fields).JArr? && !ProjectField(f.fields).JObj?
    ensures f.JObj? && ProjectField(f.fields).JStr? ==> r == Success(KStr(ProjectField(f.fields).s))
  {
    if !f.JObj? then Failure("AttributeError: object has no attribute 'get'")
    else HashKey(ProjectField(f.fields))
  }

  /** The counter keys of all facets, in order; the first one that raises ends the loop. */
  function ProjectKeys(facets: seq<Json>): (r: Result<seq<Key>>)
    ensures r.Success? ==> |r.value| == |facets|
    decreases |facets|
  {
    if facets == [] then Success([])
    else
      var keys :- ProjectKeys(facets[..|facets| - 1]);
      var k :- ProjectKey(facets[|facets| - 1]);
      Success(keys + [k])
  }

  /** `encoded.split("-")` needs a string: `None` and numbers have no `split`. */
  function Encoded(k: Key): (r: Result<string>)
    ensures r.Success? <==> k.KStr?
    ensures k.KStr? ==> r.value == k.s
  {
    match k
    case KStr(s) => Success(s)
    case _ => Failure("AttributeError: object has no attribute 'split'")
  }

  /**
   * The unsorted rows, one per counter key in iteration order; `name` is
   * the readable-name function (`demangle_project_name`).
   */
  function Rows(order: seq<Key>, counts: map<Key, nat>, name: string -> string): (r: Result<seq<ProjectRow>>)
    requires forall i :: 0 <= i < |order| ==> order[i] in counts
    decreases |order|
  {
    if order == [] then Success([])
    else
      var k := order[|order| - 1];
      var rows :- Rows(order[..|order| - 1], counts, name);
      var encoded :- Encoded(k);
      Success(rows + [ProjectRow(name(encoded), encoded, counts[k])])
  }

  /** The rows before sorting: every facet's project, counted, in first-appearance order. */
  function Unsorted(keys: seq<Key>, name: string -> string): Result<seq<ProjectRow>> {
    Rows(FirstSeen(keys), Tally(keys), name)
  }

  /** What `list_projects` returns for the loaded facets. */
  function Listed(facets: seq<Json>): Result<seq<ProjectRow>> {
    var keys :- ProjectKeys(facets);
    var rows :- Unsorted(keys, HumanName);
    Success(SortDesc(rows, CountOf))
  }

  // ---------------------------------------------------------------------
  // Properties of the specification
  // ---------------------------------------------------------------------

  /** A facet `list_projects` can list: a dict whose project is a string. */
  predicate Listable(f: Json) {
    f.JObj? && ProjectField(f.fields).JStr?
  }

  /** Each computed key is the one its facet yields. */
  lemma {:induction false} ProjectKeysAt(facets: seq<Json>)
    requires ProjectKeys(facets).Success?
    ensures forall j :: 0 <= j < |facets| ==> ProjectKey(facets[j]) == Success(ProjectKeys(facets).value[j])
    decreases |facets|
  {
    if facets != [] {
      var p := facets[..|facets| - 1];
      ProjectKeysAt(p);
      assert forall j :: 0 <= j < |p| ==> p[j] == facets[j];
    }
  }

  lemma {:induction false} ProjectKeysFails(facets: seq<Json>)
    ensures ProjectKeys(facets).Failure? <==> exists j :: 0 <= j < |facets| && ProjectKey(facets[j]).Failure?
    decreases |facets|
  {
    if facets != [] {
      var p := facets[..|facets| - 1];
      ProjectKeysFails(p);
      assert forall j :: 0 <= j < |p| ==> p[j] == facets[j];
      if ProjectKeys(facets).Failure? && ProjectKeys(p).Failure? {
        var j :| 0 <= j < |p| && ProjectKey(p[j]).Failure?;
        assert ProjectKey(facets[j]).Failure?;
      }
    }
  }

  /** The rows are built exactly when every key is a string, and then they are what the loop appends. */
  lemma {:induction false} RowsShape(order: seq<Key>, counts: map<Key, nat>, name: string -> string)
    requires forall i :: 0 <= i < |order| ==> order[i] in counts
    ensures Rows(order, counts, name).Success? <==> forall i :: 0 <= i < |order| ==> order[i].KStr?
    ensures Rows(order, counts, name).Success? ==>
              |Rows(order, counts, name).value| == |order|
              && forall i :: 0 <= i < |order| ==>
                   Rows(order, counts, name).value[i]
                     == ProjectRow(name(order[i].s), order[i].s, counts[order[i]])
    decreases |order|
  {
    if order != [] {
      var p := order[..|order| - 1];
      RowsShape(p, counts, name);
      assert forall i :: 0 <= i < |p| ==> p[i] == order[i];
    }
  }

  /** The unsorted rows exist exactly when every counted project is a string. */
  lemma {:induction false} UnsortedFails(keys: seq<Key>, name: string -> string)
    ensures Unsorted(keys, name).Success? <==> forall j :: 0 <= j < |keys| ==> keys[j].KStr?
  {
    var order := FirstSeen(keys);
    RowsShape(order, Tally(keys), name);
    if Unsorted(keys, name).Success? {
      forall j | 0 <= j < |keys| ensures keys[j].KStr? {
        assert keys[j] in keys;
        var i :| 0 <= i < |order| && order[i] == keys[j];
      }
    } else {
      var i :| 0 <= i < |order| && !order[i].KStr?;
      assert order[i] in keys;
    }
  }

  /** With all keys computed, a key is a string exactly when its facet is listable. */
  lemma {:induction false} KeysListable(facets: seq<Json>)
    requires ProjectKeys(facets).Success?
    ensures (forall j :: 0 <= j < |facets| ==> ProjectKeys(facets).value[j].KStr?)
        <==> (forall j :: 0 <= j < |facets| ==> Listable(facets[j]))
  {
    ProjectKeysAt(facets);
  }

  /** `list_projects` raises exactly when some facet is not a dict or names a non-string project. */
  lemma {:induction false} ListedFails(facets: seq<Json>)
    ensures Listed(facets).Success? <==> forall j :: 0 <= j < |facets| ==> Listable(facets[j])
  {
    ProjectKeysFails(facets);
    if ProjectKeys(facets).Success? {
      KeysListable(facets);
      UnsortedFails(ProjectKeys(facets).value, HumanName);
    } else {
      var j :| 0 <= j < |facets| && ProjectKey(facets[j]).Failure?;
      assert !Listable(facets[j]);
    }
  }

  /** The listing has the largest count first. */
  lemma {:induction false} ListedSorted(facets: seq<Json>)
    requires Listed(facets).Success?
    ensures forall i, j :: 0 <= i < j < |Listed(facets).value| ==>
              Listed(facets).value[i].count >= Listed(facets).value[j].count
  {
    var rows := Unsorted(ProjectKeys(facets).value, HumanName).value;
    SortDescSorted(rows, CountOf);
    assert forall i :: 0 <= i < |Listed(facets).value| ==>
             CountOf(Listed(facets).value[i]) == Listed(facets).value[i].count as real;
  }

  /** The unsorted rows: each a counted project, with its count and readable name. */
  lemma {:induction false} UnsortedRows(keys: seq<Key>, name: string -> string)
    requires Unsorted(keys, name).Success?
    ensures forall row :: row in Unsorted(keys, name).value ==>
              KStr(row.encoded) in keys && row.human == name(row.encoded)
              && row.count == multiset(keys)[KStr(row.encoded)]
  {
    var order, counts := FirstSeen(keys), Tally(keys);
    var rows := Unsorted(keys, name).value;
    RowsShape(order, counts, name);
    forall row | row in rows
      ensures KStr(row.encoded) in keys && row.human == name(row.encoded)
              && row.count == multiset(keys)[KStr(row.encoded)]
    {
      var i :| 0 <= i < |rows| && rows[i] == row;
      assert order[i] == KStr(row.encoded);
    }
  }

  /** Every counted project has a row, and no project has two. */
  lemma {:induction false} UnsortedOnce(keys: seq<Key>, name: string -> string)
    requires Unsorted(keys, name).Success?
    ensures forall j :: 0 <= j < |keys| ==>
              exists row :: row in Unsorted(keys, name).value && KStr(row.encoded) == keys[j]
    ensures forall i, j :: 0 <= i < j < |Unsorted(keys, name).value| ==>
              Unsorted(keys, name).value[i].encoded != Unsorted(keys, name).value[j].encoded
  {
    var order, counts := FirstSeen(keys), Tally(keys);
    var rows := Unsorted(keys, name).value;
    RowsShape(order, counts, name);
    forall j | 0 <= j < |keys| ensures exists row :: row in rows && KStr(row.encoded) == keys[j] {
      assert keys[j] in keys;
      var i :| 0 <= i < |order| && order[i] == keys[j];
      assert rows[i] in rows && KStr(rows[i].encoded) == keys[j];
    }
    forall i, j | 0 <= i < j < |rows| ensures rows[i].encoded != rows[j].encoded {
      assert order[i] != order[j];
    }
  }

  /** Sorting only reorders the rows. */
  lemma {:induction false} ListedPermutes(facets: seq<Json>)
    requires Listed(facets).Success?
    ensures multiset(Listed(facets).value) == multiset(Unsorted(ProjectKeys(facets).value, HumanName).value)
    ensures forall row :: row in Listed(facets).value <==> row in Unsorted(ProjectKeys(facets).value, HumanName).value
  {
    var listed := Listed(facets).value;
    var rows := Unsorted(ProjectKeys(facets).value, HumanName).value;
    assert listed == SortDesc(rows, CountOf);
    SortDescPermutes(rows, CountOf);
    forall row ensures row in listed <==> row in rows {
      assert row in listed <==> row in multiset(listed);
      assert row in rows <==> row in multiset(rows);
    }
  }

  /** Each listed project comes with its readable name and the number of facets that name it. */
  lemma {:induction false} ListedRows(facets: seq<Json>)
    requires Listed(facets).Success?
    ensures forall row :: row in Listed(facets).value ==>
              KStr(row.encoded) in ProjectKeys(facets).value && row.human == HumanName(row.encoded)
              && row.count == multiset(ProjectKeys(facets).value)[KStr(row.encoded)]
  {
    UnsortedRows(ProjectKeys(facets).value, HumanName);
    ListedPermutes(facets);
  }

  /** Every facet's project is listed. */
  lemma {:induction false} ListedCovers(facets: seq<Json>)
    requires Listed(facets).Success?
    ensures forall j :: 0 <= j < |facets| ==>
              exists row :: row in Listed(facets).value && ProjectKey(facets[j]) == Success(KStr(row.encoded))
  {
    var keys := ProjectKeys(facets).value;
    UnsortedOnce(keys, HumanName);
    ListedPermutes(facets);
    ProjectKeysAt(facets);
    forall j | 0 <= j < |facets|
      ensures exists row :: row in Listed(facets).value && ProjectKey(facets[j]) == Success(KStr(row.encoded))
    {
      var row :| row in Unsorted(keys, HumanName).value && KStr(row.encoded) == keys[j];
      assert row in Listed(facets).value;
    }
  }

  /** No project is listed twice. */
  lemma {:induction false} ListedOnce(facets: seq<Json>)
    requires Listed(facets).Success?
    ensures forall i, j :: 0 <= i < j < |Listed(facets).value| ==>
              Listed(facets).value[i].encoded != Listed(facets).value[j].encoded
  {
    var keys := ProjectKeys(facets).value;
    var rows := Unsorted(keys, HumanName).value;
    var listed := Listed(facets).value;
    UnsortedRows(keys, HumanName);
    UnsortedOnce(keys, HumanName);
    assert Distinct(rows);
    ListedPermutes(facets);
    DistinctPermutation(rows, listed);
    forall i, j | 0 <= i < j < |listed| ensures listed[i].encoded != listed[j].encoded {
      assert listed[i] in rows && listed[j] in rows;
    }
  }

  /** Projects with the same count keep the order in which they first appear. */
  lemma {:induction false} ListedStable(facets: seq<Json>, count: nat)
    requires Listed(facets).Success?
    ensures WithKey(Listed(facets).value, CountOf, count as real)
         == WithKey(Unsorted(ProjectKeys(facets).value, HumanName).value, CountOf, count as real)
  {
    SortDescStable(Unsorted(ProjectKeys(facets).value, HumanName).value, CountOf, count as real);
  }

  /** Before sorting, a project is listed before every facet of a project listed after it. */
  lemma {:induction false} UnsortedFirstAppearance(keys: seq<Key>, name: string -> string)
    requires Unsorted(keys, name).Success?
    ensures forall i, j, m ::
              (0 <= i < j < |Unsorted(keys, name).value| && 0 <= m < |keys|
               && keys[m] == KStr(Unsorted(keys, name).value[j].encoded)) ==>
              KStr(Unsorted(keys, name).value[i].encoded) in keys[..m]
  {
    RowsShape(FirstSeen(keys), Tally(keys), name);
    FirstSeenOrder(keys);
  }

  // ---------------------------------------------------------------------
  // The loops of `list_projects`
  // ---------------------------------------------------------------------

  lemma {:induction false} ProjectKeysFailureSticky(facets: seq<Json>, n: nat)
    requires n <= |facets| && ProjectKeys(facets[..n]).Failure?
    ensures ProjectKeys(facets) == ProjectKeys(facets[..n])
    decreases |facets| - n
  {
    if n < |facets| {
      assert facets[..n + 1][..n] == facets[..n];
      ProjectKeysFailureSticky(facets, n + 1);
    } else {
      assert facets[..n] == facets;
    }
  }

  lemma {:induction false} RowsFailureSticky(order: seq<Key>, counts: map<Key, nat>, name: string -> string, n: nat)
    requires forall i :: 0 <= i < |order| ==> order[i] in counts
    requires n <= |order| && Rows(order[..n], counts, name).Failure?
    ensures Rows(order, counts, name) == Rows(order[..n], counts, name)
    decreases |order| - n
  {
    if n < |order| {
      assert order[..n + 1][..n] == order[..n];
      RowsFailureSticky(order, counts, name, n + 1);
    } else {
      assert order[..n] == order;
    }
  }

  /** One more facet: its key is appended, or the loop raises there. */
  lemma {:induction false} ProjectKeysSnoc(facets: seq<Json>, j: nat)
    requires j < |facets| && ProjectKeys(facets[..j]).Success?
    ensures ProjectKey(facets[j]).Failure? ==> ProjectKeys(facets) == Failure(ProjectKey(facets[j]).error)
    ensures ProjectKey(facets[j]).Success? ==>
              ProjectKeys(facets[..j + 1]) == Success(ProjectKeys(facets[..j]).value + [ProjectKey(facets[j]).value])
  {
    assert facets[..j + 1][..j] == facets[..j];
    if ProjectKey(facets[j]).Failure? {
      ProjectKeysFailureSticky(facets, j + 1);
    }
  }

  /** One more key for the counter and its key order. */
  lemma {:induction false} CountStep(keys: seq<Key>, key: Key)
    ensures (if key in Tally(keys) then FirstSeen(keys) else FirstSeen(keys) + [key]) == FirstSeen(keys + [key])
    ensures Bump(Tally(keys), key) == Tally(keys + [key])
  {
    FirstSeenSnoc(keys, key);
    TallySnoc(keys, key);
  }

  /** The counting loop: the `defaultdict` and, alongside it, its key order. */
  method CountProjects(facets: seq<Json>) returns (r: Result<(seq<Key>, map<Key, nat>)>)
    ensures r.Success? <==> ProjectKeys(facets).Success?
    ensures r.Success? ==> r.value == (FirstSeen(ProjectKeys(facets).value), Tally(ProjectKeys(facets).value))
    ensures r.Failure? ==> ProjectKeys(facets) == Failure(r.error)
  {
    var order: seq<Key> := [];
    var counts: map<Key, nat> := map[];
    ghost var keys: seq<Key> := [];
    var j := 0;
    while j < |facets|
      invariant 0 <= j <= |facets|
      invariant ProjectKeys(facets[..j]) == Success(keys)
      invariant order == FirstSeen(keys) && counts == Tally(keys)
    {
      var k := ProjectKey(facets[j]);
      ProjectKeysSnoc(facets, j);
      if k.Failure? {
        return Failure(k.error);
      }
      var key := k.value;
      CountStep(keys, key);
      if key !in counts {
        order := order + [key];
      }
      counts := Bump(counts, key);
      keys := keys + [key];
      j := j + 1;
    }
    assert facets[..j] == facets;
    r := Success((order, counts));
  }

  /** The naming loop: one row per counter key, in iteration order. */
  method NameProjects(order: seq<Key>, counts: map<Key, nat>) returns (r: Result<seq<ProjectRow>>)
    requires forall i :: 0 <= i < |order| ==> order[i] in counts
    ensures r == Rows(order, counts, HumanName)
  {
    var result: seq<ProjectRow> := [];
    var i := 0;
    while i < |order|
      invariant 0 <= i <= |order|
      invariant Rows(order[..i], counts, HumanName) == Success(result)
    {
      assert order[..i + 1][..i] == order[..i];
      var encoded := order[i];
      if !encoded.KStr? {
        RowsFailureSticky(order, counts, HumanName, i + 1);
        return Failure(Encoded(encoded).error);
      }
      var human := DemangleProjectName(encoded.s);
      result := result + [ProjectRow(human, encoded.s, counts[encoded])];
      i := i + 1;
    }
    assert order[..i] == order;
    r := Success(result);
  }

  /** `list_projects` over the loaded facets. */
  method ListProjects(facets: seq<Json>) returns (r: Result<seq<ProjectRow>>)
    ensures r == Listed(facets)
  {
    var counted := CountProjects(facets);
    if counted.Failure? {
      return Failure(counted.error);
    }
    var (order, counts) := counted.value;
    var rows := NameProjects(order, counts);
    if rows.Failure? {
      return Failure(rows.error);
    }
    r := Success(SortDesc(rows.value, CountOf));
  }
}

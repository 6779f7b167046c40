/**
 * Session discovery (`discover_sessions`): walk the project directories of
 * the corpus root in their sorted order, keep the session logs that pass the
 * filters, sort them newest first and apply the optional cap.
 *
 * The directory walk and `stat` calls are replaced by a given listing: the
 * root's entries in `sorted(iterdir())` order, each with the `*.jsonl`
 * matches of its directory in `sorted(glob())` order and their stat data.
 */
module Discovery {
  import opened Wrappers
  import opened Text
  import opened Seqs

  /** Logs smaller than this many bytes are not sessions. */
  const MinSessionSize: nat := 100

  /** One `*.jsonl` match inside a project directory, with its stat data. */
  datatype LogFile = LogFile(path: string, stem: string, mtime: real, size: nat)

  /** One entry of the corpus root, with the log files it holds. */
  datatype DirEntry = DirEntry(name: string, isDir: bool, logs: seq<LogFile>)

  /** The session descriptor: `session_id`, `project`, `path`, `mtime`, `size`. */
  datatype Session = Session(sessionId: string, project: string, path: string, mtime: real, size: nat)

  function MtimeOf(s: Session): real {
    s.mtime
  }

  /** `if project_filter and project_filter not in project_name: continue`, negated. */
  predicate ProjectSelected(name: string, projectFilter: Option<string>) {
    projectFilter.None? || projectFilter.value == "" || Contains(name, projectFilter.value)
  }

  /** The per-file checks: no `subagents` in the path, big enough, new enough. */
  predicate LogSelected(f: LogFile, cutoff: Option<real>) {
    !Contains(f.path, "subagents") && f.size >= MinSessionSize
    && (cutoff.None? || f.mtime >= cutoff.value)
  }

  /** `limit` is applied only when it is truthy: `None` and `0` mean no cap. */
  predicate LimitApplies(limit: Option<int>) {
    limit.Some? && limit.value != 0
  }

  function SessionOf(project: string, f: LogFile): Session {
    Session(f.stem, project, f.path, f.mtime, f.size)
  }

  /** The descriptors one project directory contributes, in glob order. */
  function ProjectSessions(project: string, logs: seq<LogFile>, cutoff: Option<real>): seq<Session>
    decreases |logs|
  {
    if logs == [] then []
    else
      var f := logs[|logs| - 1];
      ProjectSessions(project, logs[..|logs| - 1], cutoff)
        + (if LogSelected(f, cutoff) then [SessionOf(project, f)] else [])
  }

  /** The directories that are scanned at all. */
  predicate DirScanned(d: DirEntry, projectFilter: Option<string>) {
    d.isDir && ProjectSelected(d.name, projectFilter)
  }

  /** Every descriptor the walk appends, in walk order, before sorting. */
  function Found(root: seq<DirEntry>, projectFilter: Option<string>, cutoff: Option<real>): seq<Session>
    decreases |root|
  {
    if root == [] then []
    else
      var d := root[|root| - 1];
      Found(root[..|root| - 1], projectFilter, cutoff)
        + (if DirScanned(d, projectFilter) then ProjectSessions(d.name, d.logs, cutoff) else [])
  }

  /** What `discover_sessions` returns for a listing. */
  function Discovered(root: seq<DirEntry>, projectFilter: Option<string>, cutoff: Option<real>,
                      limit: Option<int>): seq<Session>
  {
    var sorted := SortDesc(Found(root, projectFilter, cutoff), MtimeOf);
    if LimitApplies(limit) then SliceTo(sorted, limit.value) else sorted
  }

  /** A descriptor that passed every filter. */
  predicate Eligible(s: Session, projectFilter: Option<string>, cutoff: Option<real>) {
    ProjectSelected(s.project, projectFilter) && !Contains(s.path, "subagents")
    && s.size >= MinSessionSize && (cutoff.None? || s.mtime >= cutoff.value)
  }

  lemma {:induction false} ProjectSessionsSound(project: string, logs: seq<LogFile>, cutoff: Option<real>,
                                               projectFilter: Option<string>)
    requires ProjectSelected(project, projectFilter)
    ensures forall s :: s in ProjectSessions(project, logs, cutoff) ==> Eligible(s, projectFilter, cutoff)
    decreases |logs|
  {
    if logs != [] {
      ProjectSessionsSound(project, logs[..|logs| - 1], cutoff, projectFilter);
    }
  }

  lemma {:induction false} ProjectSessionsComplete(project: string, logs: seq<LogFile>, cutoff: Option<real>)
    ensures forall j :: 0 <= j < |logs| && LogSelected(logs[j], cutoff) ==>
              SessionOf(project, logs[j]) in ProjectSessions(project, logs, cutoff)
    decreases |logs|
  {
    if logs != [] {
      var p := logs[..|logs| - 1];
      ProjectSessionsComplete(project, p, cutoff);
      forall j | 0 <= j < |logs| - 1 ensures logs[j] == p[j] { }
    }
  }

  /**
   * The walk keeps exactly the eligible logs: everything it appends passes
   * every filter, and every log of a scanned directory that passes the
   * per-file checks is appended.
   */
  lemma {:induction false} FoundExactly(root: seq<DirEntry>, projectFilter: Option<string>, cutoff: Option<real>)
    ensures forall s :: s in Found(root, projectFilter, cutoff) ==> Eligible(s, projectFilter, cutoff)
    ensures forall i, j ::
              (0 <= i < |root| && 0 <= j < |root[i].logs|
               && DirScanned(root[i], projectFilter) && LogSelected(root[i].logs[j], cutoff)) ==>
              SessionOf(root[i].name, root[i].logs[j]) in Found(root, projectFilter, cutoff)
    decreases |root|
  {
    if root != [] {
      var p, d := root[..|root| - 1], root[|root| - 1];
      FoundExactly(p, projectFilter, cutoff);
      if DirScanned(d, projectFilter) {
        ProjectSessionsSound(d.name, d.logs, cutoff, projectFilter);
        ProjectSessionsComplete(d.name, d.logs, cutoff);
      }
      forall i | 0 <= i < |root| - 1 ensures root[i] == p[i] { }
    }
  }

  /** The result is newest first. */
  lemma {:induction false} DiscoveredNewestFirst(root: seq<DirEntry>, projectFilter: Option<string>, cutoff: Option<real>,
                              limit: Option<int>)
    ensures forall i, j :: 0 <= i < j < |Discovered(root, projectFilter, cutoff, limit)| ==>
              Discovered(root, projectFilter, cutoff, limit)[i].mtime
                >= Discovered(root, projectFilter, cutoff, limit)[j].mtime
  {
    var sorted := SortDesc(Found(root, projectFilter, cutoff), MtimeOf);
    SortDescSorted(Found(root, projectFilter, cutoff), MtimeOf);
    var r := Discovered(root, projectFilter, cutoff, limit);
    if LimitApplies(limit) {
      assert forall i :: 0 <= i < |r| ==> r[i] == sorted[i];
    }
  }

  /** Every returned descriptor passed every filter. */
  lemma {:induction false} DiscoveredEligible(root: seq<DirEntry>, projectFilter: Option<string>, cutoff: Option<real>,
                           limit: Option<int>)
    ensures forall s :: s in Discovered(root, projectFilter, cutoff, limit) ==> Eligible(s, projectFilter, cutoff)
  {
    var found := Found(root, projectFilter, cutoff);
    var sorted := SortDesc(found, MtimeOf);
    FoundExactly(root, projectFilter, cutoff);
    SortDescPermutes(found, MtimeOf);
    assert forall s :: s in sorted ==> s in found by {
      forall s | s in sorted ensures s in found {
        assert s in multiset(sorted);
      }
    }
    var r := Discovered(root, projectFilter, cutoff, limit);
    if LimitApplies(limit) {
      assert forall s :: s in r ==> s in sorted;
    }
  }

  /** Without a cap the result is a reordering of everything the walk found. */
  lemma {:induction false} DiscoveredUncapped(root: seq<DirEntry>, projectFilter: Option<string>, cutoff: Option<real>,
                           limit: Option<int>)
    requires !LimitApplies(limit)
    ensures multiset(Discovered(root, projectFilter, cutoff, limit)) == multiset(Found(root, projectFilter, cutoff))
  {
    SortDescPermutes(Found(root, projectFilter, cutoff), MtimeOf);
  }

  /** A positive cap keeps the `limit` newest descriptors, or all when there are fewer. */
  lemma {:induction false} DiscoveredCapped(root: seq<DirEntry>, projectFilter: Option<string>, cutoff: Option<real>,
                         limit: Option<int>)
    requires LimitApplies(limit) && limit.value > 0
    ensures var n := |Found(root, projectFilter, cutoff)|;
            |Discovered(root, projectFilter, cutoff, limit)| == (if limit.value < n then limit.value else n)
    ensures forall i :: 0 <= i < |Discovered(root, projectFilter, cutoff, limit)| ==>
              Discovered(root, projectFilter, cutoff, limit)[i] == SortDesc(Found(root, projectFilter, cutoff), MtimeOf)[i]
  {
  }

  /** The inner loop of the walk: the selected logs of one project directory, in glob order. */
  method ScanProject(project: string, logs: seq<LogFile>, cutoff: Option<real>) returns (found: seq<Session>)
    ensures found == ProjectSessions(project, logs, cutoff)
  {
    found := [];
    var j := 0;
    while j < |logs|
      invariant 0 <= j <= |logs|
      invariant found == ProjectSessions(project, logs[..j], cutoff)
    {
      var f := logs[j];
      assert logs[..j + 1][..j] == logs[..j];
      if !Contains(f.path, "subagents") && f.size >= MinSessionSize
         && (cutoff.None? || f.mtime >= cutoff.value)
      {
        found := found + [SessionOf(project, f)];
      }
      j := j + 1;
    }
    assert logs[..j] == logs;
  }

  /** The walk of `discover_sessions`: every scanned directory's selected logs, in order. */
  method WalkProjects(root: seq<DirEntry>, projectFilter: Option<string>, cutoff: Option<real>)
    returns (sessions: seq<Session>)
    ensures sessions == Found(root, projectFilter, cutoff)
  {
    sessions := [];
    var i := 0;
    while i < |root|
      invariant 0 <= i <= |root|
      invariant sessions == Found(root[..i], projectFilter, cutoff)
    {
      var d := root[i];
      assert root[..i + 1][..i] == root[..i];
      if d.isDir && ProjectSelected(d.name, projectFilter) {
        var found := ScanProject(d.name, d.logs, cutoff);
        sessions := sessions + found;
      }
      i := i + 1;
    }
    assert root[..i] == root;
  }

  /**
   * `discover_sessions` over a listing. `cutoff` is `time.time() - since_days
   * * 86400` when `since_days` is given and `None` otherwise.
   */
  method DiscoverSessions(root: seq<DirEntry>, projectFilter: Option<string>, cutoff: Option<real>,
                          limit: Option<int>) returns (sessions: seq<Session>)
    ensures sessions == Discovered(root, projectFilter, cutoff, limit)
    ensures forall i, j :: 0 <= i < j < |sessions| ==> sessions[i].mtime >= sessions[j].mtime
    ensures forall s :: s in sessions ==> Eligible(s, projectFilter, cutoff)
    ensures !LimitApplies(limit) ==> multiset(sessions) == multiset(Found(root, projectFilter, cutoff))
    ensures LimitApplies(limit) && limit.value > 0 ==>
              |sessions| == (if limit.value < |Found(root, projectFilter, cutoff)| then limit.value
                             else |Found(root, projectFilter, cutoff)|)
  {
    sessions := WalkProjects(root, projectFilter, cutoff);
    sessions := SortDesc(sessions, MtimeOf);
    if limit.Some? && limit.value != 0 {
      sessions := SliceTo(sessions, limit.value);
    }
    assert sessions == Discovered(root, projectFilter, cutoff, limit);
    DiscoveredNewestFirst(root, projectFilter, cutoff, limit);
    DiscoveredEligible(root, projectFilter, cutoff, limit);
    if LimitApplies(limit) {
      if limit.value > 0 {
        DiscoveredCapped(root, projectFilter, cutoff, limit);
      }
    } else {
      DiscoveredUncapped(root, projectFilter, cutoff, limit);
    }
  }
}

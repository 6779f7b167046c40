/**
 * The incremental cache (`filter_cached`): a session is skipped when its
 * cached facet records the log's current modification time.
 *
 * The facets directory is given as the outcome of reading each
 * `<session_id>.json` file, keyed by session id; a missing key is a file
 * that does not exist.
 */
module Cache {
  import opened Wrappers
  import opened Json
  import opened Discovery

  /**
   * Reading one cache file: its text, or the `OSError` / `UnicodeDecodeError`
   * that `read_text()` raises for a file that cannot be read or decoded.
   */
  datatype CacheFile = Readable(text: string) | Unreadable

  /** The facets directory: the read outcome of `<session_id>.json` by session id. */
  type FacetFiles = map<string, CacheFile>

  /** `facet.get("_source_mtime", 0) == s["mtime"]`. */
  predicate RecordsMtime(facet: map<string, Json>, mtime: real) {
    EqualsNumber(Get(facet, "_source_mtime", JNum(0.0)), mtime)
  }

  /**
   * The cache test as written: `Success(true)` skips the session. A file
   * that does not decode is caught and means "process"; a file that cannot
   * be read, or decodes to something other than an object, raises (from
   * `read_text` or from `.get`), and the handler does not catch it.
   */
  function SkipAsWritten(s: Session, files: FacetFiles, parse: Parser): Result<bool> {
    if s.sessionId !in files then Success(false)
    else if files[s.sessionId].Unreadable? then Failure("OSError: cached facet cannot be read")
    else
      match parse(files[s.sessionId].text)
      case None => Success(false)
      case Some(facet) =>
        if facet.JObj? then Success(RecordsMtime(facet.fields, s.mtime))
        else Failure("AttributeError: cached facet has no attribute 'get'")
  }

  /** The cache test: skip only a session whose readable facet object records its mtime. */
  predicate Skip(s: Session, files: FacetFiles, parse: Parser) {
    s.sessionId in files
    && files[s.sessionId].Readable?
    && parse(files[s.sessionId].text).Some?
    && parse(files[s.sessionId].text).value.JObj?
    && RecordsMtime(parse(files[s.sessionId].text).value.fields, s.mtime)
  }

  /** A cache file holding a non-object, such as `[]`, makes the test raise. */
  lemma {:induction false} NonObjectCacheRaises(s: Session, files: FacetFiles, parse: Parser)
    requires s.sessionId in files && files[s.sessionId].Readable?
    requires parse(files[s.sessionId].text) == Some(JArr([]))
    ensures SkipAsWritten(s, files, parse).Failure?
    ensures !Skip(s, files, parse)
  {
  }

  /** A cache file that cannot be read makes the test raise. */
  lemma {:induction false} UnreadableCacheRaises(s: Session, files: FacetFiles, parse: Parser)
    requires s.sessionId in files && files[s.sessionId] == Unreadable
    ensures SkipAsWritten(s, files, parse).Failure?
    ensures !Skip(s, files, parse)
  {
  }

  /** Wherever the test as written does not raise, the two tests agree. */
  lemma {:induction false} SkipAgrees(s: Session, files: FacetFiles, parse: Parser)
    ensures SkipAsWritten(s, files, parse).Success? ==> SkipAsWritten(s, files, parse).value == Skip(s, files, parse)
    ensures SkipAsWritten(s, files, parse).Failure? ==> !Skip(s, files, parse)
  {
  }

  /** The sessions that need processing, in their given order. */
  function Pending(sessions: seq<Session>, files: FacetFiles, parse: Parser): seq<Session>
    decreases |sessions|
  {
    if sessions == [] then []
    else
      var s := sessions[|sessions| - 1];
      Pending(sessions[..|sessions| - 1], files, parse) + (if Skip(s, files, parse) then [] else [s])
  }

  /** `filter_cached`: with `force` everything is returned, else the pending sessions. */
  method FilterCached(sessions: seq<Session>, files: FacetFiles, force: bool, parse: Parser)
    returns (toProcess: seq<Session>)
    ensures force ==> toProcess == sessions
    ensures !force ==> toProcess == Pending(sessions, files, parse)
  {
    if force {
      return sessions;
    }
    toProcess := [];
    var i := 0;
    while i < |sessions|
      invariant 0 <= i <= |sessions|
      invariant toProcess == Pending(sessions[..i], files, parse)
    {
      assert sessions[..i + 1][..i] == sessions[..i];
      var s := sessions[i];
      var skip := false;
      if s.sessionId in files && files[s.sessionId].Readable? {
        var facet := parse(files[s.sessionId].text);
        if facet.Some? && facet.value.JObj? {
          skip := RecordsMtime(facet.value.fields, s.mtime);
        }
      }
      if !skip {
        toProcess := toProcess + [s];
      }
      i := i + 1;
    }
    assert sessions[..i] == sessions;
  }

  /** A session is pending exactly when it is given and its cache entry is unusable or outdated. */
  lemma {:induction false} PendingExactly(sessions: seq<Session>, files: FacetFiles, parse: Parser, s: Session)
    ensures s in Pending(sessions, files, parse) <==> s in sessions && !Skip(s, files, parse)
    decreases |sessions|
  {
    if sessions != [] {
      var p := sessions[..|sessions| - 1];
      PendingExactly(p, files, parse, s);
      assert sessions == p + [sessions[|sessions| - 1]];
    }
  }

  /** Filtering twice against the same cache changes nothing. */
  lemma {:induction false} PendingIdempotent(sessions: seq<Session>, files: FacetFiles, parse: Parser)
    ensures Pending(Pending(sessions, files, parse), files, parse) == Pending(sessions, files, parse)
    decreases |sessions|
  {
    if sessions != [] {
      var p := sessions[..|sessions| - 1];
      var s := sessions[|sessions| - 1];
      PendingIdempotent(p, files, parse);
      var q := Pending(p, files, parse);
      if !Skip(s, files, parse) {
        assert (q + [s])[..|q|] == q;
      } else {
        assert q + [] == q;
      }
    }
  }

  /** A facet saved with the log's mtime makes the next run skip the session. */
  lemma {:induction false} SavedFacetIsHit(s: Session, files: FacetFiles, parse: Parser, facet: map<string, Json>)
    requires s.sessionId in files && files[s.sessionId].Readable?
    requires parse(files[s.sessionId].text) == Some(JObj(facet))
    requires "_source_mtime" in facet && facet["_source_mtime"] == JNum(s.mtime)
    ensures Skip(s, files, parse)
  {
  }

  /** A log whose mtime changed since its facet was saved is processed again. */
  lemma {:induction false} TouchedLogIsPending(s: Session, files: FacetFiles, parse: Parser, facet: map<string, Json>, saved: real)
    requires s.sessionId in files && files[s.sessionId].Readable?
    requires parse(files[s.sessionId].text) == Some(JObj(facet))
    requires "_source_mtime" in facet && facet["_source_mtime"] == JNum(saved) && saved != s.mtime
    ensures !Skip(s, files, parse)
  {
  }
}

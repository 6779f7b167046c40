/**
 * One batch through the model (`process_batch`): send the batch prompt up to
 * three times, retry on a call error, a parse error or a count mismatch
 * (the mismatch only before the last attempt), then match the returned
 * facets to the batch's sessions and stamp them with their provenance.
 *
 * The model call is an oracle `call(prompt, attempt)`; the back-off sleeps
 * are not taken, the chosen back-off values are returned instead.
 */
module BatchDriver {
  import opened Wrappers
  import opened Json
  import opened Discovery
  import opened Batching
  import opened FacetParse
  import opened Seqs

  const MaxRetries: nat := 3

  const RetryBackoff: seq<nat> := [30, 60, 120]

  /** What `call_gemini` hands back: the decoded envelope, or an error message. */
  datatype CallOutcome = Envelope(envelope: Json) | CallError(message: string)

  /** The model call for a prompt at a given attempt index. */
  type Gemini = (string, nat) -> CallOutcome

  /** A facet matched to a session: the session id and the enriched facet. */
  type Match = (string, map<string, Json>)

  /** The seconds waited after a failed attempt, `RETRY_BACKOFF[min(attempt, 2)]`. */
  function Backoff(attempt: nat): (w: nat)
    ensures w in RetryBackoff
    ensures attempt >= |RetryBackoff| - 1 ==> w == RetryBackoff[|RetryBackoff| - 1]
  {
    RetryBackoff[if attempt < |RetryBackoff| - 1 then attempt else |RetryBackoff| - 1]
  }

  /** The back-off doubles until it reaches its ceiling. */
  lemma {:induction false} BackoffDoubles(attempt: nat)
    ensures attempt < |RetryBackoff| - 1 ==> Backoff(attempt + 1) == 2 * Backoff(attempt)
    ensures attempt >= |RetryBackoff| - 1 ==> Backoff(attempt + 1) == Backoff(attempt)
  {
  }

  // ---------------------------------------------------------------------
  // Matching facets to sessions
  // ---------------------------------------------------------------------

  /** `{item["session_id"]: item for item in batch}`: a later item replaces an earlier one. */
  function SessionMap(batch: seq<SessionItem>): map<string, SessionItem>
    decreases |batch|
  {
    if batch == [] then map[]
    else
      var last := batch[|batch| - 1];
      SessionMap(batch[..|batch| - 1])[last.session.sessionId := last]
  }

  /** The map's keys are exactly the batch's session ids. */
  lemma {:induction false} SessionMapKeys(batch: seq<SessionItem>)
    ensures SessionMap(batch).Keys == set k | 0 <= k < |batch| :: batch[k].session.sessionId
    decreases |batch|
  {
    if batch != [] {
      var p := batch[..|batch| - 1];
      SessionMapKeys(p);
      assert forall k :: 0 <= k < |p| ==> p[k] == batch[k];
    }
  }

  /** Position `k` holds the last item of the batch that carries `id`, and the map sends `id` to it. */
  predicate LastCarrier(batch: seq<SessionItem>, id: string, k: int) {
    && 0 <= k < |batch| && id in SessionMap(batch) && batch[k] == SessionMap(batch)[id]
    && batch[k].session.sessionId == id
    && forall k' :: k < k' < |batch| ==> batch[k'].session.sessionId != id
  }

  /** Every id maps to the last item of the batch that carries it. */
  lemma {:induction false} SessionMapLast(batch: seq<SessionItem>, id: string)
    requires id in SessionMap(batch)
    ensures exists k :: LastCarrier(batch, id, k)
    decreases |batch|
  {
    var p, last := batch[..|batch| - 1], batch[|batch| - 1];
    if last.session.sessionId != id {
      assert SessionMap(batch)[id] == SessionMap(p)[id];
      SessionMapLast(p, id);
      var k :| LastCarrier(p, id, k);
      assert batch[k] == p[k];
      forall k' | k < k' < |batch| ensures batch[k'].session.sessionId != id {
        if k' < |p| {
          assert batch[k'] == p[k'];
        }
      }
      assert LastCarrier(batch, id, k);
    } else {
      assert LastCarrier(batch, id, |batch| - 1);
    }
  }

  /** `facet.get("session_id", "")`. */
  function FacetId(facet: map<string, Json>): Json {
    Get(facet, "session_id", JStr(""))
  }

  /** The provenance a matched facet receives from its session. */
  function Enrich(facet: map<string, Json>, item: SessionItem): (r: map<string, Json>)
    ensures r.Keys == facet.Keys + {"project", "start_timestamp", "end_timestamp", "_source_mtime"}
    ensures r["project"] == JStr(item.session.project)
    ensures r["start_timestamp"] == OrNull(item.startTs) && r["end_timestamp"] == OrNull(item.endTs)
    ensures r["_source_mtime"] == JNum(item.session.mtime)
    ensures forall k :: k in facet && k !in {"project", "start_timestamp", "end_timestamp", "_source_mtime"} ==>
              r[k] == facet[k]
  {
    facet["project" := JStr(item.session.project)]["start_timestamp" := OrNull(item.startTs)]
      ["end_timestamp" := OrNull(item.endTs)]["_source_mtime" := JNum(item.session.mtime)]
  }

  /** A facet that matches a session of the map. */
  predicate Matches(f: Json, smap: map<string, SessionItem>) {
    f.JObj? && FacetId(f.fields).JStr? && FacetId(f.fields).s in smap
  }

  /** A facet on which the matching loop raises: not a dict, or an unhashable id. */
  predicate Raises(f: Json) {
    !f.JObj? || FacetId(f.fields).JArr? || FacetId(f.fields).JObj?
  }

  function NoGetMessage(f: Json): string {
    "AttributeError: " + TypeName(f) + " object has no attribute 'get'"
  }

  function NoStripMessage(v: Json): string {
    "AttributeError: " + TypeName(v) + " object has no attribute 'strip'"
  }

  /** The matching loop of `process_batch`, or the exception it raises. */
  function Reconciled(facets: seq<Json>, smap: map<string, SessionItem>): Result<seq<Match>>
    decreases |facets|
  {
    if facets == [] then Success([])
    else
      var prev :- Reconciled(facets[..|facets| - 1], smap);
      var f := facets[|facets| - 1];
      if !f.JObj? then Failure(NoGetMessage(f))
      else
        var fid := FacetId(f.fields);
        var key :- HashKey(fid);
        if fid.JStr? && fid.s in smap then Success(prev + [(fid.s, Enrich(f.fields, smap[fid.s]))])
        else Success(prev)
  }

  /** Once a prefix raises, the whole loop raises the same exception. */
  lemma {:induction false} ReconciledFailureSticky(facets: seq<Json>, k: nat, smap: map<string, SessionItem>)
    requires k <= |facets| && Reconciled(facets[..k], smap).Failure?
    ensures Reconciled(facets, smap) == Reconciled(facets[..k], smap)
    decreases |facets| - k
  {
    if k < |facets| {
      var p := facets[..|facets| - 1];
      assert p[..k] == facets[..k];
      ReconciledFailureSticky(p, k, smap);
    } else {
      assert facets[..k] == facets;
    }
  }

  /** The loop raises exactly when some facet is not a dict or has an unhashable id. */
  lemma {:induction false} ReconciledFails(facets: seq<Json>, smap: map<string, SessionItem>)
    ensures Reconciled(facets, smap).Failure? <==> exists j :: 0 <= j < |facets| && Raises(facets[j])
    decreases |facets|
  {
    if facets != [] {
      var p := facets[..|facets| - 1];
      ReconciledFails(p, smap);
      assert forall j :: 0 <= j < |p| ==> p[j] == facets[j];
    }
  }

  /**
   * Every returned pair comes from a facet that names that session: its id
   * is a session of the batch and the facet carries that session's provenance.
   * Nothing is ever reassigned to another id.
   */
  lemma {:induction false} ReconciledSound(facets: seq<Json>, smap: map<string, SessionItem>)
    requires Reconciled(facets, smap).Success?
    ensures forall i :: 0 <= i < |Reconciled(facets, smap).value| ==>
              var (fid, facet) := Reconciled(facets, smap).value[i];
              fid in smap
              && exists j :: 0 <= j < |facets| && facets[j].JObj? && FacetId(facets[j].fields) == JStr(fid)
                             && facet == Enrich(facets[j].fields, smap[fid])
    decreases |facets|
  {
    if facets != [] {
      var p := facets[..|facets| - 1];
      ReconciledSound(p, smap);
      assert forall j :: 0 <= j < |p| ==> p[j] == facets[j];
    }
  }

  /** Every facet that names a session of the batch is returned, stamped. */
  lemma {:induction false} ReconciledComplete(facets: seq<Json>, smap: map<string, SessionItem>)
    requires Reconciled(facets, smap).Success?
    ensures forall j :: 0 <= j < |facets| && Matches(facets[j], smap) ==>
              (FacetId(facets[j].fields).s, Enrich(facets[j].fields, smap[FacetId(facets[j].fields).s]))
                in Reconciled(facets, smap).value
    decreases |facets|
  {
    if facets != [] {
      var p := facets[..|facets| - 1];
      ReconciledComplete(p, smap);
      assert forall j :: 0 <= j < |p| ==> p[j] == facets[j];
    }
  }

  /** The matching loop of `process_batch`. */
  method MatchFacets(facets: seq<Json>, sessionMap: map<string, SessionItem>) returns (r: Result<seq<Match>>)
    ensures r == Reconciled(facets, sessionMap)
  {
    var results: seq<Match> := [];
    var j := 0;
    while j < |facets|
      invariant 0 <= j <= |facets|
      invariant Reconciled(facets[..j], sessionMap) == Success(results)
    {
      assert facets[..j + 1][..j] == facets[..j];
      var facet := facets[j];
      if !facet.JObj? {
        ReconciledFailureSticky(facets, j + 1, sessionMap);
        return Failure(NoGetMessage(facet));
      }
      var fid := Get(facet.fields, "session_id", JStr(""));
      if fid.JArr? || fid.JObj? {
        ReconciledFailureSticky(facets, j + 1, sessionMap);
        return Failure(HashKey(fid).error);
      }
      if fid.JStr? && fid.s in sessionMap {
        var item := sessionMap[fid.s];
        var stamped := facet.fields;
        stamped := stamped["project" := JStr(item.session.project)];
        stamped := stamped["start_timestamp" := OrNull(item.startTs)];
        stamped := stamped["end_timestamp" := OrNull(item.endTs)];
        stamped := stamped["_source_mtime" := JNum(item.session.mtime)];
        results := results + [(fid.s, stamped)];
      }
      j := j + 1;
    }
    assert facets[..j] == facets;
    return Success(results);
  }

  // ---------------------------------------------------------------------
  // The latency read-out
  // ---------------------------------------------------------------------

  /** `j.get(key, default)`, which raises unless `j` is a dict. */
  function GetFrom(j: Json, key: string, default: Json): (r: Result<Json>)
    ensures r.Success? <==> j.JObj?
    ensures j.JObj? ==> r.value == Get(j.fields, key, default)
  {
    if j.JObj? then Success(Get(j.fields, key, default)) else Failure(NoGetMessage(j))
  }

  /**
   * `envelope["stats"]["models"]["gemini-2.5-pro"]["api"]["totalLatencyMs"] // 1000`
   * through `.get` with empty defaults; it raises on a non-dict step or a
   * non-numeric latency.
   */
  function LatencySeconds(envelope: map<string, Json>): Result<int> {
    var stats := Get(envelope, "stats", JObj(map[]));
    var models :- GetFrom(stats, "models", JObj(map[]));
    var pro :- GetFrom(models, "gemini-2.5-pro", JObj(map[]));
    var api :- GetFrom(pro, "api", JObj(map[]));
    var elapsed :- GetFrom(api, "totalLatencyMs", JNum(0.0));
    match NumericValue(elapsed)
    case Some(x) => Success((x / 1000.0).Floor)
    case None => Failure("TypeError: unsupported operand type(s) for //: " + TypeName(elapsed) + " and 'int'")
  }

  /** An envelope without statistics reports zero seconds. */
  lemma {:induction false} LatencyWithoutStats(envelope: map<string, Json>)
    requires "stats" !in envelope
    ensures LatencySeconds(envelope) == Success(0)
  {
  }

  // ---------------------------------------------------------------------
  // The retry loop
  // ---------------------------------------------------------------------

  /** How one attempt ends. */
  datatype Verdict =
    | Retry(reason: string)
    | Accept(facets: seq<Json>, envelope: map<string, Json>)
    | Crash(error: string)

  /**
   * One attempt of the retry loop. Every message `call_gemini` returns is a
   * non-empty string, so a `CallError` is always taken as an error.
   */
  function Judge(outcome: CallOutcome, expected: nat, attempt: nat, parse: Parser): (v: Verdict)
    ensures outcome.CallError? ==> v.Retry?
    ensures v.Accept? ==> outcome.Envelope? && outcome.envelope == JObj(v.envelope)
                          && (|v.facets| == expected || attempt >= MaxRetries - 1)
  {
    match outcome
    case CallError(e) => Retry(e)
    case Envelope(env) =>
      if !env.JObj? then Crash(NoGetMessage(env))
      else
        var response := Get(env.fields, "response", JStr(""));
        if !response.JStr? then Crash(NoStripMessage(response))
        else
          match FacetsOf(response.s, parse)
          case Failure(e) => Retry(e)
          case Success(fs) =>
            if |fs| != expected && attempt < MaxRetries - 1 then Retry("count mismatch")
            else Accept(fs, env.fields)
  }

  /** A count mismatch is retried before the last attempt and accepted on it. */
  lemma {:induction false} MismatchRetriedUntilLast(outcome: CallOutcome, expected: nat, attempt: nat, parse: Parser)
    requires outcome.Envelope? && outcome.envelope.JObj?
    requires Get(outcome.envelope.fields, "response", JStr("")).JStr?
    requires FacetsOf(Get(outcome.envelope.fields, "response", JStr("")).s, parse).Success?
    ensures var fs := FacetsOf(Get(outcome.envelope.fields, "response", JStr("")).s, parse).value;
            |fs| != expected ==>
              (Judge(outcome, expected, attempt, parse).Retry? <==> attempt < MaxRetries - 1)
  {
  }

  /** The results of an accepted attempt: the matched facets, unless matching or the latency read-out raises. */
  function Finish(facets: seq<Json>, envelope: map<string, Json>, batch: seq<SessionItem>): Result<seq<Match>> {
    var matched :- Reconciled(facets, SessionMap(batch));
    var seconds :- LatencySeconds(envelope);
    Success(matched)
  }

  /** The end of a run: the results, how many calls were made, the back-offs chosen. */
  datatype Run = Run(results: Result<seq<Match>>, calls: nat, waits: seq<nat>)

  /** The verdict of every attempt of a batch's run. */
  function Verdicts(prompt: string, call: Gemini, expected: nat, parse: Parser): nat -> Verdict {
    (k: nat) => Judge(call(prompt, k), expected, k, parse)
  }

  /** The retry loop from attempt `attempt` on, given the verdict of every attempt. */
  function RunFrom(batch: seq<SessionItem>, verdict: nat -> Verdict, attempt: nat): Run
    decreases MaxRetries - attempt
  {
    if attempt >= MaxRetries then Run(Success([]), 0, [])
    else
      match verdict(attempt)
      case Crash(e) => Run(Failure(e), 1, [])
      case Accept(fs, env) => Run(Finish(fs, env, batch), 1, [])
      case Retry(_) =>
        var rest := RunFrom(batch, verdict, attempt + 1);
        Run(rest.results, rest.calls + 1,
            (if attempt < MaxRetries - 1 then [Backoff(attempt)] else []) + rest.waits)
  }

  /** The whole of `process_batch` for a batch. */
  function Processed(batch: seq<SessionItem>, facetPrompt: string, call: Gemini, parse: Parser): Run {
    RunFrom(batch, Verdicts(facetPrompt + "\n\n" + Segments(batch), call, |batch|, parse), 0)
  }

  /** A run that has already made `calls` calls and waited `waits`. */
  function After(calls: nat, waits: seq<nat>, rest: Run): Run {
    Run(rest.results, calls + rest.calls, waits + rest.waits)
  }

  /** One attempt's checks on the call outcome: the body of the retry loop up to the matching. */
  method Attempt(outcome: CallOutcome, n: nat, attempt: nat, parse: Parser) returns (v: Verdict)
    ensures v == Judge(outcome, n, attempt, parse)
  {
    if outcome.CallError? {
      return Retry(outcome.message);
    }
    var envelope := outcome.envelope;
    if !envelope.JObj? {
      return Crash(NoGetMessage(envelope));
    }
    var responseText := Get(envelope.fields, "response", JStr(""));
    if !responseText.JStr? {
      return Crash(NoStripMessage(responseText));
    }
    var parsed := ParseFacetsResponse(responseText.s, n, parse);
    if parsed.Failure? {
      return Retry(parsed.error);
    }
    if |parsed.value| != n && attempt < MaxRetries - 1 {
      return Retry("count mismatch");
    }
    return Accept(parsed.value, envelope.fields);
  }

  /** A retried attempt: one more call, and its back-off unless it was the last attempt. */
  lemma {:induction false} RunFromRetry(batch: seq<SessionItem>, verdict: nat -> Verdict, a: nat, waits: seq<nat>)
    requires a < MaxRetries && verdict(a).Retry?
    ensures After(a, waits, RunFrom(batch, verdict, a))
         == After(a + 1, waits + (if a < MaxRetries - 1 then [Backoff(a)] else []), RunFrom(batch, verdict, a + 1))
  {
    var rest := RunFrom(batch, verdict, a + 1);
    AppendAssoc(waits, if a < MaxRetries - 1 then [Backoff(a)] else [], rest.waits);
  }

  /** An attempt that ends the loop: the run stops after this call. */
  lemma {:induction false} RunFromStop(batch: seq<SessionItem>, verdict: nat -> Verdict, a: nat, waits: seq<nat>)
    requires a < MaxRetries && !verdict(a).Retry?
    ensures After(a, waits, RunFrom(batch, verdict, a))
         == Run(if verdict(a).Crash? then Failure(verdict(a).error)
                else Finish(verdict(a).facets, verdict(a).envelope, batch), a + 1, waits)
  {
    assert waits + [] == waits;
  }

  /** The tail of an accepted attempt: the matched facets or the exception raised on the way. */
  method FinishAttempt(facets: seq<Json>, envelope: map<string, Json>, batch: seq<SessionItem>,
                       sessionMap: map<string, SessionItem>)
    returns (r: Result<seq<Match>>)
    requires sessionMap == SessionMap(batch)
    ensures r == Finish(facets, envelope, batch)
  {
    var matched := MatchFacets(facets, sessionMap);
    if matched.Failure? {
      return matched;
    }
    var elapsed := LatencySeconds(envelope);
    if elapsed.Failure? {
      return Failure(elapsed.error);
    }
    return matched;
  }

  /** `process_batch`: the batch prompt, then the retry loop over the verdicts of its attempts. */
  method ProcessBatch(batch: seq<SessionItem>, facetPrompt: string, call: Gemini, parse: Parser)
    returns (results: Result<seq<Match>>, calls: nat, waits: seq<nat>)
    ensures Run(results, calls, waits) == Processed(batch, facetPrompt, call, parse)
  {
    var prompt := BuildBatchPrompt(batch, facetPrompt);
    results, calls, waits := RetryLoop(batch, Verdicts(prompt, call, |batch|, parse));
  }

  /**
   * The retry loop of `process_batch`; `verdict(k)` is what attempt `k`
   * makes of its call (see `Attempt`).
   */
  method RetryLoop(batch: seq<SessionItem>, verdict: nat -> Verdict)
    returns (results: Result<seq<Match>>, calls: nat, waits: seq<nat>)
    ensures Run(results, calls, waits) == RunFrom(batch, verdict, 0)
  {
    ghost var whole := RunFrom(batch, verdict, 0);
    assert After(0, [], whole) == whole;
    var sessionMap := SessionMap(batch);
    var attempt: nat := 0;
    waits := [];
    while attempt < MaxRetries
      invariant attempt <= MaxRetries
      invariant whole == After(attempt, waits, RunFrom(batch, verdict, attempt))
      decreases MaxRetries - attempt
    {
      var v := verdict(attempt);
      if v.Retry? {
        RunFromRetry(batch, verdict, attempt, waits);
        if attempt < MaxRetries - 1 {
          waits := waits + [Backoff(attempt)];
        } else {
          assert waits + [] == waits;
        }
        attempt := attempt + 1;
        continue;
      }
      RunFromStop(batch, verdict, attempt, waits);
      if v.Crash? {
        return Failure(v.error), attempt + 1, waits;
      }
      results := FinishAttempt(v.facets, v.envelope, batch, sessionMap);
      return results, attempt + 1, waits;
    }
    assert waits + [] == waits;
    return Success([]), attempt, waits;
  }

  // ---------------------------------------------------------------------
  // Properties of a run
  // ---------------------------------------------------------------------

  /** From attempt `a` on, at most `MaxRetries - a` calls, each failed one but the last followed by its back-off. */
  lemma {:induction false} RunFromBounds(batch: seq<SessionItem>, verdict: nat -> Verdict, a: nat)
    requires a < MaxRetries
    ensures 1 <= RunFrom(batch, verdict, a).calls <= MaxRetries - a
    ensures RunFrom(batch, verdict, a).waits == RetryBackoff[a..a + RunFrom(batch, verdict, a).calls - 1]
    decreases MaxRetries - a
  {
    var r := RunFrom(batch, verdict, a);
    if verdict(a).Retry? && a + 1 < MaxRetries {
      RunFromBounds(batch, verdict, a + 1);
      var rest := RunFrom(batch, verdict, a + 1);
      assert r.waits == [RetryBackoff[a]] + rest.waits;
    }
  }

  /** At most three calls, and the back-offs 30 s, 60 s in order between them. */
  lemma {:induction false} ProcessedBounds(batch: seq<SessionItem>, facetPrompt: string, call: Gemini, parse: Parser)
    ensures 1 <= Processed(batch, facetPrompt, call, parse).calls <= MaxRetries
    ensures Processed(batch, facetPrompt, call, parse).waits
            == RetryBackoff[..Processed(batch, facetPrompt, call, parse).calls - 1]
  {
    RunFromBounds(batch, Verdicts(facetPrompt + "\n\n" + Segments(batch), call, |batch|, parse), 0);
  }

  /** When every attempt asks for a retry, three calls are made and the batch yields no facets. */
  lemma {:induction false} AllAttemptsFail(batch: seq<SessionItem>, verdict: nat -> Verdict)
    requires verdict(0).Retry? && verdict(1).Retry? && verdict(2).Retry?
    ensures RunFrom(batch, verdict, 0) == Run(Success([]), MaxRetries, [30, 60])
  {
    assert RunFrom(batch, verdict, 2) == Run(Success([]), 1, []);
    assert RunFrom(batch, verdict, 1) == Run(Success([]), 2, [60]);
  }

  /** When every call errors out, three calls are made and the batch yields no facets. */
  lemma {:induction false} EveryCallFails(batch: seq<SessionItem>, facetPrompt: string, call: Gemini, parse: Parser)
    requires forall k: nat :: call(facetPrompt + "\n\n" + Segments(batch), k).CallError?
    ensures Processed(batch, facetPrompt, call, parse) == Run(Success([]), MaxRetries, [30, 60])
  {
    var prompt := facetPrompt + "\n\n" + Segments(batch);
    var verdict := Verdicts(prompt, call, |batch|, parse);
    assert call(prompt, 0).CallError? && call(prompt, 1).CallError? && call(prompt, 2).CallError?;
    AllAttemptsFail(batch, verdict);
  }

  /** The run ends on the first attempt that does not ask for a retry, with that attempt's outcome. */
  lemma {:induction false} RunFromEnds(batch: seq<SessionItem>, verdict: nat -> Verdict, a: nat)
    requires a < MaxRetries
    ensures var r := RunFrom(batch, verdict, a);
            var last := a + r.calls - 1;
            (forall k :: a <= k < last ==> verdict(k).Retry?)
            && EndsWith(batch, verdict, last, r.results)
    decreases MaxRetries - a
  {
    RunFromBounds(batch, verdict, a);
    var r := RunFrom(batch, verdict, a);
    if verdict(a).Retry? && a + 1 < MaxRetries {
      RunFromEnds(batch, verdict, a + 1);
      var rest := RunFrom(batch, verdict, a + 1);
      assert r.calls == rest.calls + 1 && r.results == rest.results;
      assert a + r.calls - 1 == a + 1 + rest.calls - 1;
    } else if verdict(a).Retry? {
      assert RunFrom(batch, verdict, a + 1) == Run(Success([]), 0, []);
      assert r.calls == 1 && r.results == Success([]);
    } else {
      assert r.calls == 1;
    }
  }

  /** How the attempt `last` ended the run with `results`. */
  predicate EndsWith(batch: seq<SessionItem>, verdict: nat -> Verdict, last: nat, results: Result<seq<Match>>) {
    match verdict(last)
    case Retry(_) => last == MaxRetries - 1 && results == Success([])
    case Crash(e) => results == Failure(e)
    case Accept(fs, env) => results == Finish(fs, env, batch)
  }

  /** A pair that names a session of the batch and carries its provenance. */
  predicate Stamped(batch: seq<SessionItem>, p: Match) {
    (exists k :: 0 <= k < |batch| && batch[k].session.sessionId == p.0)
    && p.0 in SessionMap(batch)
    && "project" in p.1 && p.1["project"] == JStr(SessionMap(batch)[p.0].session.project)
    && "_source_mtime" in p.1 && p.1["_source_mtime"] == JNum(SessionMap(batch)[p.0].session.mtime)
  }

  /** The results of an accepted attempt all name sessions of the batch. */
  lemma {:induction false} FinishStamped(fs: seq<Json>, env: map<string, Json>, batch: seq<SessionItem>)
    requires Finish(fs, env, batch).Success?
    ensures forall p :: p in Finish(fs, env, batch).value ==> Stamped(batch, p)
  {
    var smap := SessionMap(batch);
    FinishValue(fs, env, batch);
    ReconciledSound(fs, smap);
    SessionMapKeys(batch);
    var ms := Reconciled(fs, smap).value;
    forall p | p in ms ensures Stamped(batch, p) {
      var i :| 0 <= i < |ms| && ms[i] == p;
      var (fid, facet) := ms[i];
      var j :| 0 <= j < |fs| && fs[j].JObj? && FacetId(fs[j].fields) == JStr(fid)
               && facet == Enrich(fs[j].fields, smap[fid]);
      assert p.0 in smap.Keys;
    }
  }

  /** An accepted attempt that does not raise returns the matched facets. */
  lemma {:induction false} FinishValue(fs: seq<Json>, env: map<string, Json>, batch: seq<SessionItem>)
    requires Finish(fs, env, batch).Success?
    ensures Reconciled(fs, SessionMap(batch)).Success?
    ensures Finish(fs, env, batch).value == Reconciled(fs, SessionMap(batch)).value
  {
  }

  /** Every returned pair names a session of the batch and carries that session's provenance. */
  lemma {:induction false} ProcessedBelongsToBatch(batch: seq<SessionItem>, verdict: nat -> Verdict)
    requires RunFrom(batch, verdict, 0).results.Success?
    ensures forall p :: p in RunFrom(batch, verdict, 0).results.value ==> Stamped(batch, p)
  {
    RunFromEnds(batch, verdict, 0);
    var r := RunFrom(batch, verdict, 0);
    var v := verdict(r.calls - 1);
    if v.Accept? {
      FinishStamped(v.facets, v.envelope, batch);
    }
  }
}

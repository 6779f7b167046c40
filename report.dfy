/**
 * The pure parts of report generation (`generate_report`): the compact
 * per-facet summaries sent to the model, the Markdown fence removed from
 * the HTML it answers with, and the report's file name with its project
 * slug.
 */
module Report {
  import opened Wrappers
  import opened Json
  import opened Text
  import opened Seqs
  import opened FacetParse
  import opened BatchDriver

  // ---------------------------------------------------------------------
  // Compact facet summaries
  // ---------------------------------------------------------------------

  /** A summary entry: a field name and its value. */
  type Entry = (string, Json)

  /** The fields of a compact summary, in the order the summary dict lists them. */
  const SummaryFields: seq<string> := [
    "session_id", "project", "underlying_goal", "outcome", "claude_helpfulness",
    "session_type", "goal_categories", "friction_counts", "friction_detail",
    "primary_success", "improvement_opportunity", "start_timestamp", "end_timestamp"
  ]

  /** The `get` default of a summary field: `""` for the improvement opportunity, `None` otherwise. */
  function SummaryDefault(k: string): Json {
    if k == "improvement_opportunity" then JStr("") else JNull
  }

  /** The `summary` dict of one facet, in insertion order. */
  function Summary(m: map<string, Json>): seq<Entry> {
    seq(|SummaryFields|, i requires 0 <= i < |SummaryFields| =>
      (SummaryFields[i], Get(m, SummaryFields[i], SummaryDefault(SummaryFields[i]))))
  }

  /** `{k: v for k, v in summary.items() if v}`. */
  function KeepTruthy(items: seq<Entry>): seq<Entry>
    decreases |items|
  {
    if items == [] then []
    else
      var last := items[|items| - 1];
      KeepTruthy(items[..|items| - 1]) + (if Truthy(last.1) then [last] else [])
  }

  /** The compact summary of one facet; a facet that is not a dict has no `get`. */
  function CompactSummary(f: Json): Result<seq<Entry>> {
    if !f.JObj? then Failure("AttributeError: object has no attribute 'get'")
    else Success(KeepTruthy(Summary(f.fields)))
  }

  /** The `compact_facets` list; the first facet that raises ends the loop. */
  function CompactAll(facets: seq<Json>): Result<seq<seq<Entry>>>
    decreases |facets|
  {
    if facets == [] then Success([])
    else
      var done :- CompactAll(facets[..|facets| - 1]);
      var summary :- CompactSummary(facets[|facets| - 1]);
      Success(done + [summary])
  }

  /** The filter keeps exactly the entries with a truthy value. */
  lemma {:induction false} KeepTruthyExactly(items: seq<Entry>)
    ensures forall e: Entry :: e in KeepTruthy(items) <==> e in items && Truthy(e.1)
    decreases |items|
  {
    if items != [] {
      var p := items[..|items| - 1];
      KeepTruthyExactly(p);
      assert items == p + [items[|items| - 1]];
    }
  }

  /** The keys of `r` strictly increase by `rank`. */
  predicate Ranked(r: seq<Entry>, rank: string -> int) {
    forall i, j :: 0 <= i < j < |r| ==> rank(r[i].0) < rank(r[j].0)
  }

  /** The filter keeps the entries in their order. */
  lemma {:induction false} KeepTruthyRanked(items: seq<Entry>, rank: string -> int)
    requires Ranked(items, rank)
    ensures Ranked(KeepTruthy(items), rank)
    decreases |items|
  {
    if items != [] {
      var p, last := items[..|items| - 1], items[|items| - 1];
      assert Ranked(p, rank);
      KeepTruthyRanked(p, rank);
      KeepTruthyExactly(p);
      var kp := KeepTruthy(p);
      forall i | 0 <= i < |kp| ensures rank(kp[i].0) < rank(last.0) {
        assert kp[i] in p;
      }
    }
  }

  /** The position of a summary field in `SummaryFields`. */
  function FieldRank(k: string): (r: int)
    ensures 0 <= r < |SummaryFields| ==> SummaryFields[r] == k
    ensures r == -1 <==> k !in SummaryFields
  {
    if k in SummaryFields then
      var i :| 0 <= i < |SummaryFields| && SummaryFields[i] == k; i
    else -1
  }

  lemma FieldsDistinct()
    ensures Distinct(SummaryFields)
  {
  }

  /**
   * A compact summary holds exactly the summary fields the facet sets to a
   * truthy value, with the facet's own values: a missing field's default is
   * falsy and never survives.
   */
  lemma {:induction false} CompactSummaryExactly(f: Json)
    requires f.JObj?
    ensures forall e: Entry :: e in CompactSummary(f).value <==>
              e.0 in SummaryFields && e.0 in f.fields && f.fields[e.0] == e.1 && Truthy(e.1)
  {
    var items := Summary(f.fields);
    KeepTruthyExactly(items);
    forall e: Entry | e.0 in SummaryFields && e.0 in f.fields && f.fields[e.0] == e.1 && Truthy(e.1)
      ensures e in items
    {
      var i :| 0 <= i < |SummaryFields| && SummaryFields[i] == e.0;
      assert items[i] == e;
    }
  }

  /**
   * The entries of a compact summary keep the summary's field order, so no
   * field occurs twice.
   */
  lemma {:induction false} CompactSummaryOrder(f: Json)
    requires f.JObj?
    ensures Ranked(CompactSummary(f).value, FieldRank)
    ensures forall i, j :: 0 <= i < j < |CompactSummary(f).value| ==>
              CompactSummary(f).value[i].0 != CompactSummary(f).value[j].0
  {
    var items := Summary(f.fields);
    FieldsDistinct();
    forall i | 0 <= i < |items| ensures FieldRank(items[i].0) == i {
      assert SummaryFields[FieldRank(items[i].0)] == SummaryFields[i];
    }
    KeepTruthyRanked(items, FieldRank);
  }

  /** One summary per facet, in order, unless some facet is not a dict. */
  lemma {:induction false} CompactAllShape(facets: seq<Json>)
    ensures CompactAll(facets).Success? <==> forall j :: 0 <= j < |facets| ==> facets[j].JObj?
    ensures CompactAll(facets).Success? ==>
              |CompactAll(facets).value| == |facets|
              && forall j :: 0 <= j < |facets| ==> CompactAll(facets).value[j] == CompactSummary(facets[j]).value
    decreases |facets|
  {
    if facets != [] {
      var p := facets[..|facets| - 1];
      CompactAllShape(p);
      assert forall j :: 0 <= j < |p| ==> p[j] == facets[j];
    }
  }

  lemma {:induction false} CompactAllFailureSticky(facets: seq<Json>, n: nat)
    requires n <= |facets| && CompactAll(facets[..n]).Failure?
    ensures CompactAll(facets) == CompactAll(facets[..n])
    decreases |facets| - n
  {
    if n < |facets| {
      assert facets[..n + 1][..n] == facets[..n];
      CompactAllFailureSticky(facets, n + 1);
    } else {
      assert facets[..n] == facets;
    }
  }

  /** The summary loop of `generate_report`. */
  method CompactFacets(facets: seq<Json>) returns (r: Result<seq<seq<Entry>>>)
    ensures r == CompactAll(facets)
  {
    var compact: seq<seq<Entry>> := [];
    var j := 0;
    while j < |facets|
      invariant 0 <= j <= |facets|
      invariant CompactAll(facets[..j]) == Success(compact)
    {
      assert facets[..j + 1][..j] == facets[..j];
      var summary := CompactSummary(facets[j]);
      if summary.Failure? {
        CompactAllFailureSticky(facets, j + 1);
        return Failure(summary.error);
      }
      compact := compact + [summary.value];
      j := j + 1;
    }
    assert facets[..j] == facets;
    r := Success(compact);
  }

  // ---------------------------------------------------------------------
  // The report body
  // ---------------------------------------------------------------------

  /**
   * The HTML with a Markdown fence removed. Unlike a facet response, the
   * text is not stripped, before or after.
   */
  function ReportHtml(html: string): string {
    if StartsWith(html, Fence) then Join(DropFenceLines(Split(html, '\n')), "\n") else html
  }

  /** The lines of a fenced body: the opening line, the body's lines, the closing fence. */
  lemma {:induction false} FencedSplit(opener: string, body: string)
    requires '\n' !in opener
    ensures Split(opener + "\n" + body + "\n" + Fence, '\n') == [opener] + Split(body, '\n') + [Fence]
  {
    assert opener + "\n" + body + "\n" + Fence == opener + "\n" + (body + "\n" + Fence);
    SplitAfterOpener(opener, body + "\n" + Fence);
    SplitAround(body, '\n', Fence);
    SplitNoSeparator(Fence, '\n');
  }

  /** A body inside a fence of any info string comes back exactly, whitespace included. */
  lemma {:induction false} ReportRoundTrip(opener: string, body: string)
    requires StartsWith(opener, Fence) && '\n' !in opener
    ensures ReportHtml(opener + "\n" + body + "\n" + Fence) == body
  {
    var html := opener + "\n" + body + "\n" + Fence;
    assert html == opener + ("\n" + body + "\n" + Fence);
    OpensWithFence(opener, "\n" + body + "\n" + Fence);
    FencedSplit(opener, body);
    DropFenceAround(opener, Split(body, '\n'));
    JoinSplit(body, '\n');
  }

  /** Without a closing fence line only the opening line is dropped. */
  lemma {:induction false} ReportUnclosed(opener: string, rest: string)
    requires StartsWith(opener, Fence) && '\n' !in opener
    requires var lines := Split(rest, '\n'); Strip(lines[|lines| - 1]) != Fence
    ensures ReportHtml(opener + "\n" + rest) == rest
  {
    var html := opener + "\n" + rest;
    var inner := Split(rest, '\n');
    assert html == opener + ("\n" + rest);
    OpensWithFence(opener, "\n" + rest);
    SplitAfterOpener(opener, rest);
    DropOpenerOnly(opener, inner);
    assert ReportHtml(html) == Join(DropFenceLines([opener] + inner), "\n");
    JoinSplit(rest, '\n');
  }

  /** A fenced answer on a single line leaves an empty report. */
  lemma {:induction false} ReportOneLine(html: string)
    requires StartsWith(html, Fence) && '\n' !in html
    ensures ReportHtml(html) == ""
  {
    SplitNoSeparator(html, '\n');
  }

  /**
   * The report text `generate_report` writes for the model call's outcome:
   * `None` when the call failed; an envelope without a response gives an
   * empty report.
   */
  function ReportOutput(outcome: CallOutcome): (r: Result<Option<string>>)
    ensures r == Success(None) <==> outcome.CallError?
    ensures outcome.Envelope? && outcome.envelope.JObj? && "response" !in outcome.envelope.fields ==>
              r == Success(Some(""))
    ensures outcome.Envelope? && outcome.envelope.JObj? && Get(outcome.envelope.fields, "response", JStr("")).JStr? ==>
              r == Success(Some(ReportHtml(Get(outcome.envelope.fields, "response", JStr("")).s)))
    ensures r.Failure? <==> outcome.Envelope?
                            && (!outcome.envelope.JObj? || !Get(outcome.envelope.fields, "response", JStr("")).JStr?)
  {
    match outcome
    case CallError(_) => Success(None)
    case Envelope(env) =>
      if !env.JObj? then Failure("AttributeError: object has no attribute 'get'")
      else
        var response := Get(env.fields, "response", JStr(""));
        if !response.JStr? then Failure("AttributeError: object has no attribute 'startswith'")
        else Success(Some(ReportHtml(response.s)))
  }

  // ---------------------------------------------------------------------
  // The report's file name
  // ---------------------------------------------------------------------

  /** What the slug normaliser makes of one character. */
  function SlugChar(c: char): char {
    if c == '/' || c == ' ' then '-' else LowerChar(c)
  }

  /** `project_slug.replace("/", "-").replace(" ", "-").lower()`. */
  function Slug(projectSlug: string): string {
    Lower(ReplaceChar(ReplaceChar(projectSlug, '/', '-'), ' ', '-'))
  }

  /** The slug maps character by character. */
  lemma {:induction false} SlugPointwise(s: string)
    ensures |Slug(s)| == |s| && forall i :: 0 <= i < |s| ==> Slug(s)[i] == SlugChar(s[i])
  {
    var t := ReplaceChar(ReplaceChar(s, '/', '-'), ' ', '-');
    assert forall i :: 0 <= i < |s| ==> t[i] == (if s[i] == '/' || s[i] == ' ' then '-' else s[i]);
  }

  /** A slug holds no path separator, no space and no upper-case ASCII letter. */
  lemma {:induction false} SlugSafe(s: string)
    ensures '/' !in Slug(s) && ' ' !in Slug(s)
    ensures forall i :: 0 <= i < |Slug(s)| ==> !('A' <= Slug(s)[i] <= 'Z')
  {
    SlugPointwise(s);
  }

  /** Normalising a slug again changes nothing. */
  lemma {:induction false} SlugIdempotent(s: string)
    ensures Slug(Slug(s)) == Slug(s)
  {
    SlugPointwise(s);
    SlugPointwise(Slug(s));
  }

  /**
   * The report's file name; `ts` is the UTC time rendered as
   * `%Y%m%d_%H%M%S`, and an empty slug counts as none.
   */
  function ReportName(projectSlug: Option<string>, ts: string): string {
    if projectSlug.Some? && projectSlug.value != "" then "report_" + Slug(projectSlug.value) + "_" + ts + ".html"
    else "report_" + ts + ".html"
  }

  /** The file name is a single path component inside the output directory. */
  lemma {:induction false} ReportNameFlat(projectSlug: Option<string>, ts: string)
    requires '/' !in ts
    ensures '/' !in ReportName(projectSlug, ts)
  {
    if projectSlug.Some? && projectSlug.value != "" {
      SlugSafe(projectSlug.value);
    }
  }
}

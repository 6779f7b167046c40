/**
 * Batching (`make_batches`, `build_batch_prompt`): consecutive sessions are
 * grouped greedily under a count and a character limit, and a batch becomes
 * one prompt with a boundary marker before every transcript.
 */
module Batching {
  import opened Wrappers
  import opened Json
  import opened Seqs
  import opened Discovery

  /** At most this many sessions share a batch. */
  const BatchSize: nat := 12

  /** A batch of ordinary sessions holds at most this many transcript characters. */
  const BatchCharLimit: nat := 700000

  /** A transcript longer than this is sent in a batch of its own. */
  const OversizeLimit: nat := 200000

  /** A session descriptor extended with its cleaned transcript and time span. */
  datatype SessionItem = SessionItem(session: Session, transcript: string, startTs: Option<Json>, endTs: Option<Json>)

  predicate Oversize(item: SessionItem) {
    |item.transcript| > OversizeLimit
  }

  /** Total transcript characters of a batch. */
  function Chars(batch: seq<SessionItem>): nat
    decreases |batch|
  {
    if batch == [] then 0 else Chars(batch[..|batch| - 1]) + |batch[|batch| - 1].transcript|
  }

  lemma {:induction false} CharsSnoc(batch: seq<SessionItem>, item: SessionItem)
    ensures Chars(batch + [item]) == Chars(batch) + |item.transcript|
  {
    assert (batch + [item])[..|batch|] == batch;
  }

  /** A batch within the limits: non-empty, at most `BatchSize`, and under the character limit unless it is a lone oversize session. */
  predicate WellFormed(b: seq<SessionItem>) {
    && 1 <= |b| <= BatchSize
    && (Chars(b) <= BatchCharLimit || (|b| == 1 && Oversize(b[0])))
    && (forall k :: 0 <= k < |b| && Oversize(b[k]) ==> |b| == 1)
  }

  /**
   * Greedy closure: batch `b` was closed before `next` because it is a lone
   * oversize session, `next` starts with one, `b` is full, or `next`'s first
   * session would push it over the character limit.
   */
  predicate ClosedBefore(b: seq<SessionItem>, next: seq<SessionItem>)
    requires |b| >= 1 && |next| >= 1
  {
    (|b| == 1 && Oversize(b[0])) || Oversize(next[0])
    || |b| >= BatchSize || Chars(b) + |next[0].transcript| > BatchCharLimit
  }

  /** The properties of the batching as one predicate over the batch list. */
  predicate GreedyBatches(batches: seq<seq<SessionItem>>) {
    && (forall k :: 0 <= k < |batches| ==> WellFormed(batches[k]))
    && (forall k :: 0 <= k < |batches| - 1 ==> ClosedBefore(batches[k], batches[k + 1]))
  }

  /** The batch being filled: no oversize sessions and within both limits. */
  predicate OpenBatch(cur: seq<SessionItem>) {
    |cur| <= BatchSize && Chars(cur) <= BatchCharLimit && forall k :: 0 <= k < |cur| ==> !Oversize(cur[k])
  }

  /** Appending a well-formed batch that the last one was closed before keeps the list greedy. */
  lemma {:induction false} CloseBatch(batches: seq<seq<SessionItem>>, cur: seq<SessionItem>)
    requires GreedyBatches(batches) && WellFormed(cur)
    requires batches != [] ==> ClosedBefore(batches[|batches| - 1], cur)
    ensures GreedyBatches(batches + [cur])
  {
    var bs := batches + [cur];
    forall k | 0 <= k < |bs| - 1 ensures ClosedBefore(bs[k], bs[k + 1]) {
      if k < |batches| - 1 {
        assert bs[k] == batches[k] && bs[k + 1] == batches[k + 1];
      }
    }
  }

  /** `batches` with the batch being filled appended, when it is non-empty. */
  function Closed(batches: seq<seq<SessionItem>>, current: seq<SessionItem>): seq<seq<SessionItem>> {
    if current != [] then batches + [current] else batches
  }

  /** The loop invariant of `make_batches` after the items `done`. */
  predicate Filling(done: seq<SessionItem>, batches: seq<seq<SessionItem>>, current: seq<SessionItem>) {
    && Flatten(batches) + current == done
    && OpenBatch(current)
    && GreedyBatches(batches)
    && (current != [] && batches != [] ==> ClosedBefore(batches[|batches| - 1], current))
    && (current == [] && batches != [] ==>
          |batches[|batches| - 1]| == 1 && Oversize(batches[|batches| - 1][0]))
  }

  lemma {:induction false} CloseCurrent(done: seq<SessionItem>, batches: seq<seq<SessionItem>>, current: seq<SessionItem>)
    requires Filling(done, batches, current)
    ensures Flatten(Closed(batches, current)) == done && GreedyBatches(Closed(batches, current))
  {
    if current != [] {
      CloseBatch(batches, current);
      FlattenSnoc(batches, current);
    }
  }

  /** An oversize session closes the open batch and gets one of its own. */
  lemma {:induction false} StepOversize(done: seq<SessionItem>, batches: seq<seq<SessionItem>>, current: seq<SessionItem>,
                     item: SessionItem)
    requires Filling(done, batches, current) && Oversize(item)
    ensures Filling(done + [item], Closed(batches, current) + [[item]], [])
  {
    var bs := Closed(batches, current);
    CloseCurrent(done, batches, current);
    CloseBatch(bs, [item]);
    FlattenSnoc(bs, [item]);
  }

  /** A session that does not fit closes the open batch and starts the next one. */
  lemma {:induction false} StepStart(done: seq<SessionItem>, batches: seq<seq<SessionItem>>, current: seq<SessionItem>,
                  item: SessionItem)
    requires Filling(done, batches, current) && !Oversize(item)
    requires |current| >= BatchSize || Chars(current) + |item.transcript| > BatchCharLimit
    ensures Filling(done + [item], Closed(batches, current), [item])
  {
    assert current != [];
    var bs := batches + [current];
    CloseCurrent(done, batches, current);
    assert Flatten(bs) + [item] == done + [item];
    LoneItem(item);
    assert bs[|bs| - 1] == current;
    assert [item][0] == item;
    assert ClosedBefore(current, [item]);
  }

  /** A session that is not oversize can open a batch on its own. */
  lemma {:induction false} LoneItem(item: SessionItem)
    requires !Oversize(item)
    ensures OpenBatch([item]) && Chars([item]) == |item.transcript|
  {
    assert [] + [item] == [item];
    CharsSnoc([], item);
  }

  /** A session that fits joins the open batch. */
  lemma {:induction false} StepJoin(done: seq<SessionItem>, batches: seq<seq<SessionItem>>, current: seq<SessionItem>,
                 item: SessionItem)
    requires Filling(done, batches, current) && !Oversize(item)
    requires |current| < BatchSize && Chars(current) + |item.transcript| <= BatchCharLimit
    ensures Filling(done + [item], batches, current + [item])
  {
    CharsSnoc(current, item);
    assert Flatten(batches) + (current + [item]) == (Flatten(batches) + current) + [item];
    if current == [] && batches != [] {
      assert ClosedBefore(batches[|batches| - 1], [item]);
    }
    if current != [] && batches != [] {
      assert (current + [item])[0] == current[0];
    }
  }

  /** The state of `make_batches` between two sessions: the closed batches and the one being filled. */
  datatype Fill = Fill(batches: seq<seq<SessionItem>>, current: seq<SessionItem>)

  /** One iteration of `make_batches`. */
  function Place(f: Fill, item: SessionItem): Fill {
    if Oversize(item) then Fill(Closed(f.batches, f.current) + [[item]], [])
    else if |f.current| >= BatchSize || Chars(f.current) + |item.transcript| > BatchCharLimit then
      Fill(Closed(f.batches, f.current), [item])
    else Fill(f.batches, f.current + [item])
  }

  /** The state after placing all of `items`, one by one. */
  function PlaceAll(items: seq<SessionItem>): Fill
    decreases |items|
  {
    if items == [] then Fill([], []) else Place(PlaceAll(items[..|items| - 1]), items[|items| - 1])
  }

  lemma {:induction false} PlaceAllSnoc(items: seq<SessionItem>, i: nat)
    requires i < |items|
    ensures PlaceAll(items[..i + 1]) == Place(PlaceAll(items[..i]), items[i])
  {
    assert items[..i + 1][..i] == items[..i];
  }

  /** One placement keeps the greedy invariant. */
  lemma {:induction false} PlaceFilling(done: seq<SessionItem>, f: Fill, item: SessionItem)
    requires Filling(done, f.batches, f.current)
    ensures Filling(done + [item], Place(f, item).batches, Place(f, item).current)
  {
    if Oversize(item) {
      StepOversize(done, f.batches, f.current, item);
    } else if |f.current| >= BatchSize || Chars(f.current) + |item.transcript| > BatchCharLimit {
      StepStart(done, f.batches, f.current, item);
    } else {
      StepJoin(done, f.batches, f.current, item);
    }
  }

  /** Every state `make_batches` passes through keeps the greedy invariant. */
  lemma {:induction false} PlaceAllFilling(items: seq<SessionItem>)
    ensures Filling(items, PlaceAll(items).batches, PlaceAll(items).current)
    decreases |items|
  {
    if items == [] {
      assert Flatten<SessionItem>([]) + [] == [];
    } else {
      var p, x := items[..|items| - 1], items[|items| - 1];
      assert items == p + [x];
      PlaceAllFilling(p);
      PlaceFilling(p, PlaceAll(p), x);
    }
  }

  /** `make_batches`: greedy grouping of the items in order. */
  method MakeBatches(items: seq<SessionItem>) returns (batches: seq<seq<SessionItem>>)
    ensures batches == Closed(PlaceAll(items).batches, PlaceAll(items).current)
    ensures Flatten(batches) == items
    ensures GreedyBatches(batches)
  {
    batches := [];
    var current: seq<SessionItem> := [];
    var currentChars := 0;
    var i := 0;
    while i < |items|
      invariant 0 <= i <= |items|
      invariant Fill(batches, current) == PlaceAll(items[..i])
      invariant currentChars == Chars(current)
    {
      var item := items[i];
      var itemChars := |item.transcript|;
      PlaceAllSnoc(items, i);
      if itemChars > OversizeLimit {
        if current != [] {
          batches := batches + [current];
          current := [];
          currentChars := 0;
        }
        batches := batches + [[item]];
      } else if |current| >= BatchSize || currentChars + itemChars > BatchCharLimit {
        if current != [] {
          batches := batches + [current];
        }
        current := [item];
        currentChars := itemChars;
        assert [] + [item] == [item];
        CharsSnoc([], item);
      } else {
        CharsSnoc(current, item);
        current := current + [item];
        currentChars := currentChars + itemChars;
      }
      i := i + 1;
    }
    assert items[..i] == items;
    PlaceAllFilling(items);
    CloseCurrent(items, batches, current);
    if current != [] {
      batches := batches + [current];
    }
  }

  // ---------------------------------------------------------------------
  // The greedy properties determine the batching
  // ---------------------------------------------------------------------

  lemma {:induction false} FlattenCons(b: seq<SessionItem>, rest: seq<seq<SessionItem>>)
    ensures Flatten([b] + rest) == b + Flatten(rest)
    decreases |rest|
  {
    if rest == [] {
      assert [b] + rest == [b];
      FlattenSnoc([], b);
    } else {
      var p, x := rest[..|rest| - 1], rest[|rest| - 1];
      assert [b] + rest == ([b] + p) + [x];
      FlattenSnoc([b] + p, x);
      FlattenCons(b, p);
      FlattenSnoc(p, x);
      assert rest == p + [x];
    }
  }

  lemma {:induction false} CharsPrefix(b: seq<SessionItem>, m: nat)
    requires m <= |b|
    ensures Chars(b[..m]) <= Chars(b)
    decreases |b| - m
  {
    if m < |b| {
      CharsPrefix(b, m + 1);
      assert b[..m + 1][..m] == b[..m];
    } else {
      assert b[..m] == b;
    }
  }

  /**
   * Where the greedy rule closed a batch after `m` items, no well-formed
   * batch drawn from the front of the same items can be longer.
   */
  lemma {:induction false} ClosedCut(items: seq<SessionItem>, m: nat, b0: seq<SessionItem>)
    requires 1 <= m < |items| && |b0| <= |items| && b0 == items[..|b0|]
    requires WellFormed(b0) && ClosedBefore(items[..m], items[m..])
    ensures |b0| <= m
  {
    if |b0| > m {
      var a0 := items[..m];
      assert a0 == b0[..m] && a0[0] == b0[0];
      assert items[m..][0] == b0[m];
      if Chars(a0) + |b0[m].transcript| > BatchCharLimit {
        CharsSnoc(b0[..m], b0[m]);
        assert b0[..m + 1] == b0[..m] + [b0[m]];
        CharsPrefix(b0, m + 1);
      }
    }
  }

  /** A greedy batching's first batch cannot be shorter than another greedy batching's. */
  lemma {:induction false} FirstNotShorter(a: seq<seq<SessionItem>>, b: seq<seq<SessionItem>>)
    requires GreedyBatches(a) && GreedyBatches(b) && Flatten(a) == Flatten(b)
    requires a != [] && b != []
    ensures |a[0]| >= |b[0]|
  {
    var a0, b0 := a[0], b[0];
    var items := Flatten(a);
    assert a == [a0] + a[1..];
    assert b == [b0] + b[1..];
    FlattenCons(a0, a[1..]);
    FlattenCons(b0, b[1..]);
    assert b0 == items[..|b0|];
    if |a| > 1 {
      var m, a1 := |a0|, a[1];
      assert a[1..] == [a1] + a[2..];
      FlattenCons(a1, a[2..]);
      assert WellFormed(a0) && WellFormed(a1) && ClosedBefore(a0, a1);
      assert items[..m] == a0 && items[m..][0] == a1[0];
      assert ClosedBefore(items[..m], items[m..]);
      assert WellFormed(b0);
      ClosedCut(items, m, b0);
    } else {
      assert a[1..] == [];
    }
  }

  lemma {:induction false} FlattenEmpty(bs: seq<seq<SessionItem>>)
    requires GreedyBatches(bs) && Flatten(bs) == []
    ensures bs == []
  {
  }

  lemma {:induction false} GreedyTail(bs: seq<seq<SessionItem>>)
    requires GreedyBatches(bs) && bs != []
    ensures GreedyBatches(bs[1..])
  {
    var t := bs[1..];
    forall k | 0 <= k < |t| - 1 ensures ClosedBefore(t[k], t[k + 1]) {
      assert t[k] == bs[k + 1] && t[k + 1] == bs[k + 2];
    }
  }

  /**
   * The ensures of `MakeBatches` pin its result down: two greedy batchings
   * of the same sessions are the same batching.
   */
  lemma {:induction false} GreedyUnique(a: seq<seq<SessionItem>>, b: seq<seq<SessionItem>>)
    requires GreedyBatches(a) && GreedyBatches(b) && Flatten(a) == Flatten(b)
    ensures a == b
    decreases |a|
  {
    if a == [] {
      FlattenEmpty(b);
    } else if b == [] {
      FlattenEmpty(a);
    } else {
      FirstNotShorter(a, b);
      FirstNotShorter(b, a);
      assert a == [a[0]] + a[1..];
      assert b == [b[0]] + b[1..];
      FlattenCons(a[0], a[1..]);
      FlattenCons(b[0], b[1..]);
      var items := Flatten(a);
      assert a[0] == items[..|a[0]|] == b[0];
      assert Flatten(a[1..]) == items[|a[0]|..] == Flatten(b[1..]);
      GreedyTail(a);
      GreedyTail(b);
      GreedyUnique(a[1..], b[1..]);
    }
  }

  // ---------------------------------------------------------------------
  // The batch prompt
  // ---------------------------------------------------------------------

  /** The marker line that precedes one session's transcript. */
  function Boundary(sessionId: string): string {
    "===SESSION_BOUNDARY::" + sessionId + "===\n"
  }

  /** What one session contributes to the prompt. */
  function Segment(item: SessionItem): string {
    Boundary(item.session.sessionId) + item.transcript + "\n\n"
  }

  /** The segments of a batch, in batch order. */
  function Segments(batch: seq<SessionItem>): string
    decreases |batch|
  {
    if batch == [] then "" else Segments(batch[..|batch| - 1]) + Segment(batch[|batch| - 1])
  }

  /** `"".join(parts)`. */
  function Concat(parts: seq<string>): string
    decreases |parts|
  {
    if parts == [] then "" else Concat(parts[..|parts| - 1]) + parts[|parts| - 1]
  }

  lemma {:induction false} ConcatSnoc(parts: seq<string>, x: string)
    ensures Concat(parts + [x]) == Concat(parts) + x
  {
    assert (parts + [x])[..|parts|] == parts;
  }

  /** The three parts one session appends. */
  function SessionParts(item: SessionItem): seq<string> {
    [Boundary(item.session.sessionId), item.transcript, "\n\n"]
  }

  /** The list `build_batch_prompt` has assembled after the sessions of `batch`. */
  function PromptParts(facetPrompt: string, batch: seq<SessionItem>): seq<string>
    decreases |batch|
  {
    if batch == [] then [facetPrompt, "\n\n"]
    else PromptParts(facetPrompt, batch[..|batch| - 1]) + SessionParts(batch[|batch| - 1])
  }

  /** The parts of one session add up to its segment. */
  lemma {:induction false} ConcatSession(parts: seq<string>, item: SessionItem)
    ensures Concat(parts + SessionParts(item)) == Concat(parts) + Segment(item)
  {
    var b, t := Boundary(item.session.sessionId), item.transcript;
    assert parts + SessionParts(item) == parts + [b] + [t] + ["\n\n"];
    ConcatSnoc(parts, b);
    ConcatSnoc(parts + [b], t);
    ConcatSnoc(parts + [b] + [t], "\n\n");
  }

  /** Joined, the parts are the facet prompt, a blank line and the segments. */
  lemma {:induction false} ConcatPromptParts(facetPrompt: string, batch: seq<SessionItem>)
    ensures Concat(PromptParts(facetPrompt, batch)) == facetPrompt + "\n\n" + Segments(batch)
    decreases |batch|
  {
    if batch == [] {
      ConcatSnoc([], facetPrompt);
      assert [] + [facetPrompt] == [facetPrompt];
      ConcatSnoc([facetPrompt], "\n\n");
      assert [facetPrompt] + ["\n\n"] == [facetPrompt, "\n\n"];
    } else {
      var p := batch[..|batch| - 1];
      ConcatPromptParts(facetPrompt, p);
      ConcatSession(PromptParts(facetPrompt, p), batch[|batch| - 1]);
    }
  }

  /** `build_batch_prompt`: the facet prompt, a blank line, then every session's segment. */
  method BuildBatchPrompt(batch: seq<SessionItem>, facetPrompt: string) returns (prompt: string)
    ensures prompt == facetPrompt + "\n\n" + Segments(batch)
  {
    var parts := [facetPrompt, "\n\n"];
    var i := 0;
    while i < |batch|
      invariant 0 <= i <= |batch|
      invariant parts == PromptParts(facetPrompt, batch[..i])
    {
      var item := batch[i];
      assert batch[..i + 1][..i] == batch[..i];
      parts := parts + [Boundary(item.session.sessionId)];
      parts := parts + [item.transcript];
      parts := parts + ["\n\n"];
      i := i + 1;
    }
    assert batch[..i] == batch;
    ConcatPromptParts(facetPrompt, batch);
    prompt := Concat(parts);
  }

  lemma {:induction false} SegmentsAppend(a: seq<SessionItem>, b: seq<SessionItem>)
    ensures Segments(a + b) == Segments(a) + Segments(b)
    decreases |b|
  {
    if b == [] {
      assert a + b == a;
    } else {
      var p, x := b[..|b| - 1], b[|b| - 1];
      assert b == p + [x];
      assert a + b == (a + p) + [x];
      SegmentsSnoc(a + p, x);
      SegmentsSnoc(p, x);
      SegmentsAppend(a, p);
      AppendAssoc(Segments(a), Segments(p), Segment(x));
    }
  }

  lemma {:induction false} SegmentsSnoc(batch: seq<SessionItem>, x: SessionItem)
    ensures Segments(batch + [x]) == Segments(batch) + Segment(x)
  {
    assert (batch + [x])[..|batch|] == batch;
  }

  /**
   * Every session of the batch appears in batch order as its boundary
   * marker followed by its transcript and a blank line.
   */
  lemma {:induction false} SegmentAt(batch: seq<SessionItem>, k: nat)
    requires k < |batch|
    ensures Segments(batch) == Segments(batch[..k]) + Segment(batch[k]) + Segments(batch[k + 1..])
  {
    var left, x, right := batch[..k], batch[k], batch[k + 1..];
    assert batch == (left + [x]) + right;
    SegmentsAppend(left + [x], right);
    SegmentsAppend(left, [x]);
    SegmentsSingle(x);
  }

  lemma {:induction false} SegmentsSingle(x: SessionItem)
    ensures Segments([x]) == Segment(x)
  {
    assert [x][..0] == [];
  }

  /** Total characters of the session ids of a batch. */
  function IdChars(batch: seq<SessionItem>): nat
    decreases |batch|
  {
    if batch == [] then 0 else IdChars(batch[..|batch| - 1]) + |batch[|batch| - 1].session.sessionId|
  }

  /** Each session costs its transcript, its id and 27 characters of framing. */
  lemma {:induction false} SegmentsLength(batch: seq<SessionItem>)
    ensures |Segments(batch)| == Chars(batch) + IdChars(batch) + 27 * |batch|
    decreases |batch|
  {
    if batch != [] {
      SegmentsLength(batch[..|batch| - 1]);
    }
  }
}

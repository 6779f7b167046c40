/**
 * Transcript cleaning (`clean_transcript`): fold the lines of one session
 * log into role-tagged text lines, the records' timestamps and an error
 * count, then join the lines and take the earliest and latest timestamp.
 *
 * The file is given as its raw lines; `json.loads` is the `parse` oracle and
 * Python's `str()` of a non-string value, used by the f-string of a summary
 * line, is the `show` oracle.
 */
module Cleaner {
  import opened Wrappers
  import opened Json
  import opened Text

  /** Record types that never reach the transcript. */
  const NoiseTypes: set<string> := {"progress", "file-history-snapshot", "system", "queue-operation"}

  /** Longest text kept from one content item. */
  const MaxTextLength: nat := 20000

  const TruncationMarker: string := "\n[...truncated...]"

  /** Python's `str(v)` for a decoded value that is not a string. */
  type Show = Json -> string

  /** The text of an over-long item is cut to its first `MaxTextLength` characters and marked. */
  function Truncate(text: string): (r: string)
    ensures |text| <= MaxTextLength ==> r == text
    ensures |r| <= MaxTextLength + |TruncationMarker|
    ensures |text| > MaxTextLength ==> |r| == MaxTextLength + |TruncationMarker|
    ensures |text| > MaxTextLength ==>
              r[..MaxTextLength] == text[..MaxTextLength] && r[MaxTextLength..] == TruncationMarker
  {
    if |text| > MaxTextLength then text[..MaxTextLength] + TruncationMarker else text
  }

  /**
   * `f"[{role.upper()}] {text}"` after truncation; a role that is not a
   * string raises `AttributeError` on `.upper()`.
   */
  function TextLine(role: Json, text: string): Result<string> {
    if role.JStr? then Success("[" + Upper(role.s) + "] " + Truncate(text))
    else Failure("AttributeError: role has no attribute 'upper'")
  }

  /** The item is a `{"type": "text", ...}` part. */
  predicate IsTextPart(part: Json) {
    part.JObj? && Get(part.fields, "type", JNull) == JStr("text")
  }

  /** The lines the parts of a list content contribute, in order. */
  function PartLines(parts: seq<Json>, role: Json): Result<seq<string>>
    decreases |parts|
  {
    if parts == [] then Success([])
    else
      match PartLines(parts[..|parts| - 1], role)
      case Failure(e) => Failure(e)
      case Success(done) =>
        var part := parts[|parts| - 1];
        if !IsTextPart(part) then Success(done)
        else
          var t := Get(part.fields, "text", JStr(""));
          if !t.JStr? then Failure("AttributeError: text has no attribute 'strip'")
          else if Strip(t.s) == "" then Success(done)
          else
            match TextLine(role, Strip(t.s))
            case Failure(e) => Failure(e)
            case Success(line) => Success(done + [line])
  }

  /** The lines a `user` or `assistant` record contributes. */
  function MessageLines(entry: map<string, Json>, entryType: Json): Result<seq<string>> {
    var msg := Get(entry, "message", JObj(map[]));
    if !msg.JObj? then Failure("AttributeError: message has no attribute 'get'")
    else
      var content := Get(msg.fields, "content", JStr(""));
      var role := Get(msg.fields, "role", entryType);
      match content
      case JStr(c) =>
        if Strip(c) == "" then Success([])
        else
          (match TextLine(role, Strip(c))
           case Failure(e) => Failure(e)
           case Success(line) => Success([line]))
      case JArr(parts) => PartLines(parts, role)
      case _ => Success([])
  }

  /** In an f-string a string shows as itself and any other value as `str(v)`. */
  function Render(v: Json, show: Show): string {
    if v.JStr? then v.s else show(v)
  }

  /** What one parsed record adds: an optional timestamp and some lines. */
  datatype Effect = Effect(timestamp: Option<Json>, lines: seq<string>)

  /** The record is one of the noise types. */
  predicate IsNoise(entry: Json) {
    entry.JObj? && Get(entry.fields, "type", JStr("")).JStr?
    && Get(entry.fields, "type", JStr("")).s in NoiseTypes
  }

  /**
   * One parsed record. A record that is not an object fails on `.get`, and a
   * list or object `type` fails the `in NOISE_TYPES` test as unhashable.
   */
  function RecordEffect(entry: Json, show: Show): Result<Effect> {
    if !entry.JObj? then Failure("AttributeError: record has no attribute 'get'")
    else
      var m := entry.fields;
      var t := Get(m, "type", JStr(""));
      if t.JArr? || t.JObj? then Failure("TypeError: unhashable record type")
      else if t.JStr? && t.s in NoiseTypes then Success(Effect(None, []))
      else
        var ts := Get(m, "timestamp", JNull);
        var stamp := if Truthy(ts) then Some(ts) else None;
        if t == JStr("summary") then
          var summary := Get(m, "summary", JStr(""));
          Success(Effect(stamp, if Truthy(summary) then ["[SUMMARY] " + Render(summary, show)] else []))
        else if t == JStr("user") || t == JStr("assistant") then
          match MessageLines(m, t)
          case Failure(e) => Failure(e)
          case Success(lines) => Success(Effect(stamp, lines))
        else Success(Effect(stamp, []))
  }

  /** The loop state: `lines`, `timestamps`, `errors`. */
  datatype Acc = Acc(lines: seq<string>, timestamps: seq<Json>, errors: nat)

  /** One raw line of the log: blank lines are skipped, undecodable ones counted. */
  function Step(acc: Acc, raw: string, parse: Parser, show: Show): Result<Acc> {
    var line := Strip(raw);
    if line == "" then Success(acc)
    else
      match parse(line)
      case None => Success(acc.(errors := acc.errors + 1))
      case Some(entry) =>
        match RecordEffect(entry, show)
        case Failure(e) => Failure(e)
        case Success(eff) => Success(Absorb(acc, eff))
  }

  /** The state after a record's lines and timestamp are appended. */
  function Absorb(acc: Acc, eff: Effect): Acc {
    Acc(acc.lines + eff.lines,
        acc.timestamps + (if eff.timestamp.Some? then [eff.timestamp.value] else []),
        acc.errors)
  }

  /** The state after the loop over the raw lines. */
  function Scan(raws: seq<string>, parse: Parser, show: Show): Result<Acc>
    decreases |raws|
  {
    if raws == [] then Success(Acc([], [], 0))
    else
      match Scan(raws[..|raws| - 1], parse, show)
      case Failure(e) => Failure(e)
      case Success(acc) => Step(acc, raws[|raws| - 1], parse, show)
  }

  lemma {:induction false} ScanFailureSticky(raws: seq<string>, k: nat, parse: Parser, show: Show)
    requires k <= |raws| && Scan(raws[..k], parse, show).Failure?
    ensures Scan(raws, parse, show) == Scan(raws[..k], parse, show)
    decreases |raws| - k
  {
    if k < |raws| {
      assert raws[..k + 1][..k] == raws[..k];
      ScanFailureSticky(raws, k + 1, parse, show);
    } else {
      assert raws[..k] == raws;
    }
  }

  /** The loop's step for the line at index `i`, given the state before it. */
  lemma {:induction false} ScanNext(raws: seq<string>, i: nat, acc: Acc, parse: Parser, show: Show)
    requires i < |raws| && Scan(raws[..i], parse, show) == Success(acc)
    ensures Scan(raws[..i + 1], parse, show) == Step(acc, raws[i], parse, show)
  {
    assert raws[..i + 1][..i] == raws[..i];
  }

  // ---------------------------------------------------------------------
  // min() and max() of the collected timestamps
  // ---------------------------------------------------------------------

  /**
   * Python's `a < b` on two timestamps: strings by code point, numbers
   * and bools by value; anything else raises `TypeError`.
   */
  function PyLess(a: Json, b: Json): Result<bool> {
    if a.JStr? && b.JStr? then Success(LexLess(a.s, b.s))
    else if NumericValue(a).Some? && NumericValue(b).Some? then
      Success(NumericValue(a).value < NumericValue(b).value)
    else Failure("TypeError: '<' not supported")
  }

  /** `min(ts)`: keeps the current value unless a later item is `<` it. */
  function PyMin(ts: seq<Json>): Result<Json>
    requires |ts| > 0
    decreases |ts|
  {
    if |ts| == 1 then Success(ts[0])
    else
      match PyMin(ts[..|ts| - 1])
      case Failure(e) => Failure(e)
      case Success(cur) =>
        var item := ts[|ts| - 1];
        match PyLess(item, cur)
        case Failure(e) => Failure(e)
        case Success(lt) => Success(if lt then item else cur)
  }

  /** `max(ts)`: keeps the current value unless a later item is `>` it. */
  function PyMax(ts: seq<Json>): Result<Json>
    requires |ts| > 0
    decreases |ts|
  {
    if |ts| == 1 then Success(ts[0])
    else
      match PyMax(ts[..|ts| - 1])
      case Failure(e) => Failure(e)
      case Success(cur) =>
        var item := ts[|ts| - 1];
        match PyLess(cur, item)
        case Failure(e) => Failure(e)
        case Success(gt) => Success(if gt then item else cur)
  }

  predicate AllStrings(ts: seq<Json>) {
    forall i :: 0 <= i < |ts| ==> ts[i].JStr?
  }

  /** For string timestamps `min` is one of them and no timestamp is smaller. */
  lemma {:induction false} PyMinIsLeast(ts: seq<Json>)
    requires |ts| > 0 && AllStrings(ts)
    ensures PyMin(ts).Success? && PyMin(ts).value in ts && PyMin(ts).value.JStr?
    ensures forall i :: 0 <= i < |ts| ==> !LexLess(ts[i].s, PyMin(ts).value.s)
    decreases |ts|
  {
    if |ts| > 1 {
      var p := ts[..|ts| - 1];
      PyMinIsLeast(p);
      var cur := PyMin(p).value;
      var item := ts[|ts| - 1];
      LexTotal(item.s, cur.s);
      assert PyLess(item, cur) == Success(LexLess(item.s, cur.s));
      assert PyMin(ts) == Success(if LexLess(item.s, cur.s) then item else cur);
      forall i | 0 <= i < |ts| ensures !LexLess(ts[i].s, PyMin(ts).value.s) {
        if i < |ts| - 1 {
          assert ts[i] == p[i];
          if LexLess(item.s, cur.s) && LexLess(ts[i].s, item.s) {
            LexTransitive(ts[i].s, item.s, cur.s);
          }
        } else if !LexLess(item.s, cur.s) {
        } else {
          LexIrreflexive(item.s);
        }
      }
    } else {
      LexIrreflexive(ts[0].s);
    }
  }

  /** For string timestamps `max` is one of them and no timestamp is larger. */
  lemma {:induction false} PyMaxIsGreatest(ts: seq<Json>)
    requires |ts| > 0 && AllStrings(ts)
    ensures PyMax(ts).Success? && PyMax(ts).value in ts && PyMax(ts).value.JStr?
    ensures forall i :: 0 <= i < |ts| ==> !LexLess(PyMax(ts).value.s, ts[i].s)
    decreases |ts|
  {
    if |ts| > 1 {
      var p := ts[..|ts| - 1];
      PyMaxIsGreatest(p);
      var cur := PyMax(p).value;
      var item := ts[|ts| - 1];
      LexTotal(item.s, cur.s);
      assert PyLess(cur, item) == Success(LexLess(cur.s, item.s));
      assert PyMax(ts) == Success(if LexLess(cur.s, item.s) then item else cur);
      forall i | 0 <= i < |ts| ensures !LexLess(PyMax(ts).value.s, ts[i].s) {
        if i < |ts| - 1 {
          assert ts[i] == p[i];
          if LexLess(cur.s, item.s) && LexLess(item.s, ts[i].s) {
            LexTransitive(cur.s, item.s, ts[i].s);
          }
        } else if !LexLess(cur.s, item.s) {
        } else {
          LexIrreflexive(item.s);
        }
      }
    } else {
      LexIrreflexive(ts[0].s);
    }
  }

  // ---------------------------------------------------------------------
  // The result
  // ---------------------------------------------------------------------

  /** `(transcript_text, start_timestamp, end_timestamp)`. */
  datatype Cleaned = Cleaned(transcript: string, startTs: Option<Json>, endTs: Option<Json>)

  /** The code after the loop: join, `min`/`max`, and the wholly-corrupt case. */
  function Finish(acc: Acc): Result<Cleaned> {
    var transcript := Join(acc.lines, "\n");
    var start := if acc.timestamps == [] then Success(None)
                 else match PyMin(acc.timestamps)
                      case Failure(e) => Failure(e)
                      case Success(t) => Success(Some(t));
    var end := if acc.timestamps == [] then Success(None)
               else match PyMax(acc.timestamps)
                    case Failure(e) => Failure(e)
                    case Success(t) => Success(Some(t));
    if start.Failure? then Failure(start.error)
    else if end.Failure? then Failure(end.error)
    else if acc.errors > 0 && |acc.lines| == 0 then Success(Cleaned("", start.value, end.value))
    else Success(Cleaned(transcript, start.value, end.value))
  }

  /** What `clean_transcript` returns for a log, or the exception it raises. */
  function Cleaning(raws: seq<string>, parse: Parser, show: Show): Result<Cleaned> {
    match Scan(raws, parse, show)
    case Failure(e) => Failure(e)
    case Success(acc) => Finish(acc)
  }

  /** `clean_transcript` over the raw lines of one log file. */
  method CleanTranscript(rawLines: seq<string>, parse: Parser, show: Show) returns (r: Result<Cleaned>)
    ensures r == Cleaning(rawLines, parse, show)
  {
    var lines: seq<string> := [];
    var timestamps: seq<Json> := [];
    var errors: nat := 0;
    var i := 0;
    while i < |rawLines|
      invariant 0 <= i <= |rawLines|
      invariant Scan(rawLines[..i], parse, show) == Success(Acc(lines, timestamps, errors))
    {
      ScanNext(rawLines, i, Acc(lines, timestamps, errors), parse, show);
      ghost var before := Acc(lines, timestamps, errors);
      var raw := Strip(rawLines[i]);
      if raw != "" {
        var parsed := parse(raw);
        if parsed.None? {
          errors := errors + 1;
          assert Step(before, rawLines[i], parse, show) == Success(Acc(lines, timestamps, errors));
        } else {
          var effect := RecordEffect(parsed.value, show);
          if effect.Failure? {
            assert Step(before, rawLines[i], parse, show) == Failure(effect.error);
            ScanFailureSticky(rawLines, i + 1, parse, show);
            return Failure(effect.error);
          }
          lines := lines + effect.value.lines;
          if effect.value.timestamp.Some? {
            timestamps := timestamps + [effect.value.timestamp.value];
          }
          assert Step(before, rawLines[i], parse, show) == Success(Absorb(before, effect.value));
          assert Absorb(before, effect.value) == Acc(lines, timestamps, errors);
        }
      } else {
        assert Step(before, rawLines[i], parse, show) == Success(before);
      }
      i := i + 1;
    }
    assert rawLines[..i] == rawLines;
    r := Finish(Acc(lines, timestamps, errors));
  }

  // ---------------------------------------------------------------------
  // Properties
  // ---------------------------------------------------------------------

  /** The line is blank or does not decode. */
  predicate NoRecord(raw: string, parse: Parser) {
    Strip(raw) == "" || parse(Strip(raw)).None?
  }

  /** Number of non-blank lines that do not decode. */
  function CountUndecodable(raws: seq<string>, parse: Parser): nat
    decreases |raws|
  {
    if raws == [] then 0
    else
      var raw := raws[|raws| - 1];
      CountUndecodable(raws[..|raws| - 1], parse) + (if Strip(raw) != "" && parse(Strip(raw)).None? then 1 else 0)
  }

  /** `errors` counts exactly the non-blank lines that fail to decode. */
  lemma {:induction false} ErrorsCountUndecodable(raws: seq<string>, parse: Parser, show: Show)
    requires Scan(raws, parse, show).Success?
    ensures Scan(raws, parse, show).value.errors == CountUndecodable(raws, parse)
    decreases |raws|
  {
    if raws != [] {
      var p := raws[..|raws| - 1];
      ErrorsCountUndecodable(p, parse, show);
    }
  }

  /** A log without a single decodable record yields `("", None, None)`. */
  lemma {:induction false} NoRecordsEmptyTranscript(raws: seq<string>, parse: Parser, show: Show)
    requires forall i :: 0 <= i < |raws| ==> NoRecord(raws[i], parse)
    ensures Scan(raws, parse, show).Success?
    ensures Scan(raws, parse, show).value.lines == [] && Scan(raws, parse, show).value.timestamps == []
    ensures Cleaning(raws, parse, show) == Success(Cleaned("", None, None))
    decreases |raws|
  {
    if raws != [] {
      var p := raws[..|raws| - 1];
      forall i | 0 <= i < |p| ensures NoRecord(p[i], parse) {
        assert p[i] == raws[i];
      }
      NoRecordsEmptyTranscript(p, parse, show);
      assert NoRecord(raws[|raws| - 1], parse);
    }
  }

  /** The line is blank or decodes to a noise record. */
  predicate Silent(raw: string, parse: Parser) {
    Strip(raw) == "" || (parse(Strip(raw)).Some? && IsNoise(parse(Strip(raw)).value))
  }

  /** The log with its blank lines and noise records removed. */
  function Signal(raws: seq<string>, parse: Parser): seq<string>
    decreases |raws|
  {
    if raws == [] then []
    else
      var raw := raws[|raws| - 1];
      Signal(raws[..|raws| - 1], parse) + (if Silent(raw, parse) then [] else [raw])
  }

  /** Once the scan has failed, further lines do not matter. */
  lemma {:induction false} ScanSnocFailure(raws: seq<string>, raw: string, parse: Parser, show: Show)
    requires Scan(raws, parse, show).Failure?
    ensures Scan(raws + [raw], parse, show) == Scan(raws, parse, show)
  {
    assert (raws + [raw])[..|raws|] == raws;
  }

  /** Scanning one more line is one more step. */
  lemma {:induction false} ScanSnocSuccess(raws: seq<string>, raw: string, parse: Parser, show: Show)
    requires Scan(raws, parse, show).Success?
    ensures Scan(raws + [raw], parse, show) == Step(Scan(raws, parse, show).value, raw, parse, show)
  {
    assert (raws + [raw])[..|raws|] == raws;
  }

  /** A noise record contributes nothing. */
  lemma {:induction false} NoiseEffect(entry: Json, show: Show)
    requires IsNoise(entry)
    ensures RecordEffect(entry, show) == Success(Effect(None, []))
  {
  }

  /** Absorbing an empty effect leaves the state as it was. */
  lemma {:induction false} AbsorbNothing(acc: Acc)
    ensures Absorb(acc, Effect(None, [])) == acc
  {
    assert acc.lines + [] == acc.lines && acc.timestamps + [] == acc.timestamps;
  }

  /** A blank line or a noise record is a step that changes nothing. */
  lemma {:induction false} SilentStep(acc: Acc, raw: string, parse: Parser, show: Show)
    requires Silent(raw, parse)
    ensures Step(acc, raw, parse, show) == Success(acc)
  {
    if Strip(raw) != "" {
      NoiseEffect(parse(Strip(raw)).value, show);
      AbsorbNothing(acc);
    }
  }

  /** Removing silent lines from the end of the log does not change the scan. */
  lemma {:induction false} SignalSnoc(raws: seq<string>, raw: string, parse: Parser)
    ensures Signal(raws + [raw], parse) == Signal(raws, parse) + (if Silent(raw, parse) then [] else [raw])
  {
    assert (raws + [raw])[..|raws|] == raws;
  }

  /** Blank lines and noise records leave the whole result unchanged. */
  lemma {:induction false} SilentLinesInvisible(raws: seq<string>, parse: Parser, show: Show)
    ensures Scan(Signal(raws, parse), parse, show) == Scan(raws, parse, show)
    decreases |raws|
  {
    if raws != [] {
      var p := raws[..|raws| - 1];
      var raw := raws[|raws| - 1];
      assert raws == p + [raw];
      var sp := Signal(p, parse);
      SilentLinesInvisible(p, parse, show);
      SignalSnoc(p, raw, parse);
      if Silent(raw, parse) {
        assert sp + [] == sp;
        if Scan(p, parse, show).Success? {
          ScanSnocSuccess(p, raw, parse, show);
          SilentStep(Scan(p, parse, show).value, raw, parse, show);
        } else {
          ScanSnocFailure(p, raw, parse, show);
        }
      } else if Scan(p, parse, show).Success? {
        ScanSnocSuccess(p, raw, parse, show);
        ScanSnocSuccess(sp, raw, parse, show);
      } else {
        ScanSnocFailure(p, raw, parse, show);
        ScanSnocFailure(sp, raw, parse, show);
      }
    }
  }

  /** Hence the cleaned result is the same with or without them. */
  lemma {:induction false} SilentLinesIgnored(raws: seq<string>, parse: Parser, show: Show)
    ensures Cleaning(Signal(raws, parse), parse, show) == Cleaning(raws, parse, show)
  {
    SilentLinesInvisible(raws, parse, show);
  }

  /** A role-tagged content line. */
  predicate TaggedBy(line: string, role: string) {
    var tag := "[" + Upper(role) + "] ";
    |tag| <= |line| <= |tag| + MaxTextLength + |TruncationMarker| && line[..|tag|] == tag
  }

  /** The parts of a list content give at most one line each, tagged with the role. */
  lemma {:induction false} PartLinesTagged(parts: seq<Json>, role: string)
    requires PartLines(parts, JStr(role)).Success?
    ensures |PartLines(parts, JStr(role)).value| <= |parts|
    ensures forall k :: 0 <= k < |PartLines(parts, JStr(role)).value| ==>
              TaggedBy(PartLines(parts, JStr(role)).value[k], role)
    decreases |parts|
  {
    if parts != [] {
      PartLinesTagged(parts[..|parts| - 1], role);
    }
  }

  /** The stripped, non-blank texts of the `type == "text"` parts whose text is a string, in order. */
  function TextsOf(parts: seq<Json>): (r: seq<string>)
    ensures |r| <= |parts|
    ensures forall k :: 0 <= k < |r| ==> r[k] != ""
    decreases |parts|
  {
    if parts == [] then []
    else
      var part := parts[|parts| - 1];
      var t := if part.JObj? then Get(part.fields, "text", JStr("")) else JNull;
      if IsTextPart(part) && t.JStr? && Strip(t.s) != "" then TextsOf(parts[..|parts| - 1]) + [Strip(t.s)]
      else TextsOf(parts[..|parts| - 1])
  }

  /** Every text part carries a string text (an absent text counts as the empty string). */
  predicate TextsAreStrings(parts: seq<Json>) {
    forall i :: 0 <= i < |parts| && IsTextPart(parts[i]) ==> Get(parts[i].fields, "text", JStr("")).JStr?
  }

  /** Under a string role a list content fails exactly when some text part has a text that is not a string. */
  lemma {:induction false} PartLinesSucceed(parts: seq<Json>, role: string)
    ensures PartLines(parts, JStr(role)).Success? <==> TextsAreStrings(parts)
    decreases |parts|
  {
    if parts != [] {
      var p, last := parts[..|parts| - 1], parts[|parts| - 1];
      assert parts == p + [last];
      PartLinesSucceed(p, role);
      if !TextsAreStrings(p) {
        var i :| 0 <= i < |p| && IsTextPart(p[i]) && !Get(p[i].fields, "text", JStr("")).JStr?;
        assert parts[i] == p[i];
      } else {
        TextsAreStringsSnoc(p, last);
      }
    }
  }

  /**
   * Otherwise the k-th line is the role tag followed by the k-th non-blank
   * text, stripped and truncated: parts of any other type contribute nothing.
   */
  lemma {:induction false} PartLinesAreTexts(parts: seq<Json>, role: string)
    requires PartLines(parts, JStr(role)).Success?
    ensures |PartLines(parts, JStr(role)).value| == |TextsOf(parts)|
    ensures forall k :: 0 <= k < |TextsOf(parts)| ==>
              PartLines(parts, JStr(role)).value[k] == "[" + Upper(role) + "] " + Truncate(TextsOf(parts)[k])
    decreases |parts|
  {
    if parts != [] {
      var p, last := parts[..|parts| - 1], parts[|parts| - 1];
      PartLinesAreTexts(p, role);
      var lines := PartLines(p, JStr(role)).value;
      if IsTextPart(last) {
        var t := Get(last.fields, "text", JStr(""));
        if Strip(t.s) != "" {
          var line := "[" + Upper(role) + "] " + Truncate(Strip(t.s));
          assert PartLines(parts, JStr(role)).value == lines + [line];
          assert TextsOf(parts) == TextsOf(p) + [Strip(t.s)];
        } else {
          assert PartLines(parts, JStr(role)).value == lines;
          assert TextsOf(parts) == TextsOf(p);
        }
      } else {
        assert PartLines(parts, JStr(role)).value == lines;
        assert TextsOf(parts) == TextsOf(p);
      }
    }
  }

  /** Extending the parts by one keeps the texts strings exactly when that part's text is one. */
  lemma {:induction false} TextsAreStringsSnoc(p: seq<Json>, last: Json)
    requires TextsAreStrings(p)
    ensures TextsAreStrings(p + [last]) <==> (IsTextPart(last) ==> Get(last.fields, "text", JStr("")).JStr?)
  {
    var parts := p + [last];
    assert forall i :: 0 <= i < |p| ==> parts[i] == p[i];
    assert parts[|p|] == last;
  }

  /**
   * The earliest and latest timestamp, when every collected timestamp is a
   * string: both are among them, no timestamp is earlier than the start or
   * later than the end.
   */
  lemma {:induction false} TimestampBounds(raws: seq<string>, parse: Parser, show: Show)
    requires Scan(raws, parse, show).Success?
    requires AllStrings(Scan(raws, parse, show).value.timestamps)
    ensures Cleaning(raws, parse, show).Success?
    ensures (Cleaning(raws, parse, show).value.startTs.None? <==> Scan(raws, parse, show).value.timestamps == [])
    ensures (Cleaning(raws, parse, show).value.endTs.None? <==> Scan(raws, parse, show).value.timestamps == [])
    ensures var ts := Scan(raws, parse, show).value.timestamps;
            var c := Cleaning(raws, parse, show).value;
            c.startTs.Some? && c.endTs.Some? ==>
              c.startTs.value in ts && c.endTs.value in ts
              && forall i :: 0 <= i < |ts| ==> !LexLess(ts[i].s, c.startTs.value.s) && !LexLess(c.endTs.value.s, ts[i].s)
  {
    var ts := Scan(raws, parse, show).value.timestamps;
    if ts != [] {
      PyMinIsLeast(ts);
      PyMaxIsGreatest(ts);
    }
  }
}

/**
 * Reading the model's answer (`parse_facets_response`): strip a Markdown
 * fence, decode the text as one JSON value, and when that fails fall back to
 * decoding every top-level `{...}` span on its own.
 */
module FacetParse {
  import opened Wrappers
  import opened Json
  import opened Text

  const Fence: string := "```"

  const NoObjectsMessage: string := "Could not parse any JSON objects from response"

  // ---------------------------------------------------------------------
  // Fences
  // ---------------------------------------------------------------------

  /** The lines inside a fence: drop the opening line, and the last one when it is a closing fence. */
  function DropFenceLines(lines: seq<string>): (r: seq<string>)
    requires |lines| >= 1
    ensures |r| == |lines| - 1 || (|r| == |lines| - 2 && Strip(lines[|lines| - 1]) == Fence)
  {
    if Strip(lines[|lines| - 1]) == Fence then (if |lines| >= 2 then lines[1..|lines| - 1] else [])
    else lines[1..]
  }

  /** Dropping the fence lines around some lines gives those lines back. */
  lemma {:induction false} DropFenceAround(opener: string, inner: seq<string>)
    ensures DropFenceLines([opener] + inner + [Fence]) == inner
  {
    var lines := [opener] + inner + [Fence];
    StripUnchanged(Fence);
    assert lines[|lines| - 1] == Fence;
    assert Strip(lines[|lines| - 1]) == Fence && |lines| >= 2;
    assert DropFenceLines(lines) == lines[1..|lines| - 1];
    assert lines[1..|lines| - 1] == inner;
  }

  /** Drop only the opening line when the last line is not a closing fence. */
  lemma {:induction false} DropOpenerOnly(opener: string, inner: seq<string>)
    requires |inner| >= 1 && Strip(inner[|inner| - 1]) != Fence
    ensures DropFenceLines([opener] + inner) == inner
  {
    var lines := [opener] + inner;
    assert lines[|lines| - 1] == inner[|inner| - 1];
    assert lines[1..] == inner;
  }

  /** The lines of an opening line followed by more text after a newline. */
  lemma {:induction false} SplitAfterOpener(opener: string, rest: string)
    requires '\n' !in opener
    ensures Split(opener + "\n" + rest, '\n') == [opener] + Split(rest, '\n')
  {
    SplitAround(opener, '\n', rest);
    SplitNoSeparator(opener, '\n');
  }

  /** A text opening with a fence line starts with the fence. */
  lemma {:induction false} OpensWithFence(opener: string, rest: string)
    requires StartsWith(opener, Fence)
    ensures StartsWith(opener + rest, Fence)
  {
    assert (opener + rest)[..|Fence|] == opener[..|Fence|];
  }

  /** The response text with surrounding whitespace and a Markdown fence removed. */
  function Unfenced(responseText: string): string {
    var text := Strip(responseText);
    if StartsWith(text, Fence) then Strip(Join(DropFenceLines(Split(text, '\n')), "\n"))
    else text
  }

  /** A text that is already stripped and has no fence is left alone. */
  lemma {:induction false} UnfencedPlain(t: string)
    requires Strip(t) == t && !StartsWith(t, Fence)
    ensures Unfenced(t) == t
  {
  }

  /** The lines of a fenced body: the opening line, the body's lines, the closing line. */
  lemma {:induction false} FencedLines(body: string)
    ensures Split("```json\n" + body + "\n```", '\n') == ["```json"] + Split(body, '\n') + ["```"]
  {
    var opener, closer := "```json", "```";
    var rest := body + ['\n'] + closer;
    assert "```json\n" + body + "\n```" == opener + ['\n'] + rest;
    assert '\n' !in opener && '\n' !in closer;
    SplitNoSeparator(opener, '\n');
    SplitNoSeparator(closer, '\n');
    SplitAround(body, '\n', closer);
    assert Split(rest, '\n') == Split(body, '\n') + [closer];
    SplitAround(opener, '\n', rest);
  }

  /** A stripped body wrapped in a `json` fence comes back unchanged. */
  lemma {:induction false} UnfencedRoundTrip(body: string)
    requires Strip(body) == body
    ensures Unfenced("```json\n" + body + "\n```") == body
  {
    var wrapped := "```json\n" + body + "\n```";
    assert wrapped[0] == '`' && wrapped[|wrapped| - 1] == '`';
    StripUnchanged(wrapped);
    assert wrapped[..3] == Fence;
    FencedLines(body);
    DropFenceAround("```json", Split(body, '\n'));
    JoinSplit(body, '\n');
  }

  /**
   * A response that opens with a fence line but has no closing fence keeps
   * everything after the opening line, stripped.
   */
  lemma {:induction false} UnfencedUnclosed(opener: string, rest: string)
    requires StartsWith(opener, Fence) && '\n' !in opener
    requires rest != [] && !IsSpace(rest[|rest| - 1])
    requires var lines := Split(rest, '\n'); Strip(lines[|lines| - 1]) != Fence
    ensures Unfenced(opener + "\n" + rest) == Strip(rest)
  {
    var text := opener + "\n" + rest;
    assert text == opener + ("\n" + rest);
    assert text[0] == opener[0] == Fence[0];
    assert text[|text| - 1] == rest[|rest| - 1];
    StripUnchanged(text);
    OpensWithFence(opener, "\n" + rest);
    SplitAfterOpener(opener, rest);
    DropOpenerOnly(opener, Split(rest, '\n'));
    JoinSplit(rest, '\n');
  }

  // ---------------------------------------------------------------------
  // Brace depth and top-level spans
  // ---------------------------------------------------------------------

  /** Brace depth before position `n`: opening minus closing braces so far (it can go negative). */
  function Depth(text: string, n: nat): int
    requires n <= |text|
    decreases n
  {
    if n == 0 then 0
    else Depth(text, n - 1) + (if text[n - 1] == '{' then 1 else if text[n - 1] == '}' then -1 else 0)
  }

  /** Number of occurrences of `c` in `s`. */
  function Occurrences(s: string, c: char): nat
    decreases |s|
  {
    if s == [] then 0 else Occurrences(s[..|s| - 1], c) + (if s[|s| - 1] == c then 1 else 0)
  }

  /** The depth is the brace balance of the prefix. */
  lemma {:induction false} DepthIsBalance(text: string, n: nat)
    requires n <= |text|
    ensures Depth(text, n) == Occurrences(text[..n], '{') - Occurrences(text[..n], '}')
    decreases n
  {
    if n > 0 {
      DepthIsBalance(text, n - 1);
      assert text[..n][..n - 1] == text[..n - 1];
    }
  }

  /**
   * The brace that opened the object still open before position `n`: the
   * last position at depth zero, which always holds a `{`.
   */
  function Opener(text: string, n: nat): (r: nat)
    requires n <= |text| && Depth(text, n) >= 1
    ensures r < n && Depth(text, r) == 0 && text[r] == '{'
    ensures forall m :: r < m <= n ==> Depth(text, m) >= 1
    decreases n
  {
    if Depth(text, n - 1) == 0 then n - 1 else Opener(text, n - 1)
  }

  /** Position `e` holds the `}` that brings the depth back to zero. */
  predicate Closes(text: string, e: nat) {
    e < |text| && text[e] == '}' && Depth(text, e) == 1
  }

  /** The top-level `{...}` spans that close before position `n`, as (first, last) positions. */
  function Spans(text: string, n: nat): seq<(nat, nat)>
    requires n <= |text|
    decreases n
  {
    if n == 0 then []
    else Spans(text, n - 1) + (if Closes(text, n - 1) then [(Opener(text, n - 1), n - 1)] else [])
  }

  /**
   * `text[s..e + 1]` is a top-level object: it opens at depth zero, closes
   * back to depth zero, and the depth stays positive in between.
   */
  predicate TopLevel(text: string, s: nat, e: nat) {
    && s < e && Closes(text, e) && text[s] == '{' && Depth(text, s) == 0
    && forall m :: s < m <= e ==> Depth(text, m) >= 1
  }

  /** The spans are exactly the top-level objects. */
  lemma {:induction false} SpansExactly(text: string, n: nat, s: nat, e: nat)
    requires n <= |text|
    ensures (s, e) in Spans(text, n) <==> e < n && TopLevel(text, s, e)
    decreases n
  {
    if n > 0 {
      SpansExactly(text, n - 1, s, e);
      if e == n - 1 && TopLevel(text, s, e) {
        var r := Opener(text, e);
        assert r == s;
      }
    }
  }

  /** The spans come in the order they close, and each starts after the previous one ends. */
  lemma {:induction false} SpansOrdered(text: string, n: nat)
    requires n <= |text|
    ensures forall k :: 0 <= k < |Spans(text, n)| ==> Spans(text, n)[k].1 < n
    ensures forall k :: 0 <= k < |Spans(text, n)| - 1 ==> Spans(text, n)[k].1 < Spans(text, n)[k + 1].0
    decreases n
  {
    if n > 0 {
      SpansOrdered(text, n - 1);
      var p := Spans(text, n - 1);
      if Closes(text, n - 1) && p != [] {
        var last := p[|p| - 1];
        var r := Opener(text, n - 1);
        SpansExactly(text, n - 1, last.0, last.1);
        assert Depth(text, last.1 + 1) == 0;
      }
    }
  }

  /** The values of the spans that decode, in order. */
  function Decoded(text: string, spans: seq<(nat, nat)>, parse: Parser): seq<Json>
    decreases |spans|
  {
    if spans == [] then []
    else
      var sp := spans[|spans| - 1];
      Decoded(text, spans[..|spans| - 1], parse)
        + (if sp.0 <= sp.1 < |text| && parse(text[sp.0..sp.1 + 1]).Some? then [parse(text[sp.0..sp.1 + 1]).value] else [])
  }

  lemma {:induction false} DecodedSnoc(text: string, spans: seq<(nat, nat)>, sp: (nat, nat), parse: Parser)
    ensures Decoded(text, spans + [sp], parse)
         == Decoded(text, spans, parse)
            + (if sp.0 <= sp.1 < |text| && parse(text[sp.0..sp.1 + 1]).Some? then [parse(text[sp.0..sp.1 + 1]).value] else [])
  {
    assert (spans + [sp])[..|spans|] == spans;
  }

  /** The fallback's result: every top-level object that decodes on its own. */
  function Salvaged(text: string, parse: Parser): seq<Json> {
    Decoded(text, Spans(text, |text|), parse)
  }

  // ---------------------------------------------------------------------
  // The whole parse
  // ---------------------------------------------------------------------

  /** Python's `type(v)` as an f-string shows it. */
  function TypeName(v: Json): string {
    match v
    case JNull => "<class 'NoneType'>"
    case JBool(_) => "<class 'bool'>"
    case JNum(n) => if n == n.Floor as real then "<class 'int'>" else "<class 'float'>"
    case JStr(_) => "<class 'str'>"
    case JArr(_) => "<class 'list'>"
    case JObj(_) => "<class 'dict'>"
  }

  /**
   * What `parse_facets_response` returns: `Success(facets)` or
   * `Failure(parse_error)`.
   */
  function FacetsOf(responseText: string, parse: Parser): Result<seq<Json>> {
    FacetsOfText(Unfenced(responseText), parse)
  }

  /** The decoding step on the already unfenced text. */
  function FacetsOfText(text: string, parse: Parser): Result<seq<Json>> {
    match parse(text)
    case Some(JArr(items)) => Success(items)
    case Some(JObj(fields)) => Success([JObj(fields)])
    case Some(other) => Failure("Unexpected type: " + TypeName(other))
    case None =>
      var found := Salvaged(text, parse);
      if found != [] then Success(found) else Failure(NoObjectsMessage)
  }

  /** The fallback scan of `parse_facets_response` over the unfenced text. */
  method SalvageObjects(text: string, parse: Parser) returns (facets: seq<Json>)
    ensures facets == Salvaged(text, parse)
  {
    facets := [];
    var depth := 0;
    var start: Option<nat> := None;
    var i := 0;
    while i < |text|
      invariant 0 <= i <= |text|
      invariant depth == Depth(text, i)
      invariant depth >= 1 ==> start == Some(Opener(text, i))
      invariant depth < 1 ==> start.None?
      invariant facets == Decoded(text, Spans(text, i), parse)
    {
      var ch := text[i];
      ghost var spans := Spans(text, i);
      if Closes(text, i) {
        DecodedSnoc(text, spans, (Opener(text, i), i), parse);
        assert Spans(text, i + 1) == spans + [(Opener(text, i), i)];
      } else {
        assert Spans(text, i + 1) == spans + [];
        assert spans + [] == spans;
      }
      if ch == '{' {
        if depth == 0 {
          start := Some(i);
        }
        depth := depth + 1;
      } else if ch == '}' {
        depth := depth - 1;
        if depth == 0 && start.Some? {
          var obj := parse(text[start.value..i + 1]);
          if obj.Some? {
            facets := facets + [obj.value];
          }
          start := None;
        }
      }
      i := i + 1;
    }
  }

  /** `parse_facets_response`; `expectedCount` is not consulted, as in the source. */
  method ParseFacetsResponse(responseText: string, expectedCount: nat, parse: Parser)
    returns (r: Result<seq<Json>>)
    ensures r == FacetsOf(responseText, parse)
  {
    r := DecodeFacets(Unfenced(responseText), parse);
  }

  /** Decode the unfenced text whole, or salvage its top-level objects. */
  method DecodeFacets(text: string, parse: Parser) returns (r: Result<seq<Json>>)
    ensures r == FacetsOfText(text, parse)
  {
    match parse(text)
    case Some(v) =>
      if v.JArr? {
        return Success(v.items);
      } else if v.JObj? {
        return Success([v]);
      }
      return Failure("Unexpected type: " + TypeName(v));
    case None =>
      var facets := SalvageObjects(text, parse);
      if facets != [] {
        return Success(facets);
      }
      return Failure(NoObjectsMessage);
  }

  /** A text that decodes to a list or an object is taken whole, never salvaged. */
  lemma {:induction false} WholeValueWins(responseText: string, parse: Parser)
    requires parse(Unfenced(responseText)).Some?
    ensures var v := parse(Unfenced(responseText)).value;
            (v.JArr? ==> FacetsOf(responseText, parse) == Success(v.items))
            && (v.JObj? ==> FacetsOf(responseText, parse) == Success([v]))
            && (!v.JArr? && !v.JObj? ==> FacetsOf(responseText, parse).Failure?)
  {
    WholeTextWins(Unfenced(responseText), parse);
  }

  /** On the unfenced text: a decoded list or object is the result, any other value an error. */
  lemma {:induction false} WholeTextWins(text: string, parse: Parser)
    requires parse(text).Some?
    ensures var v := parse(text).value;
            (v.JArr? ==> FacetsOfText(text, parse) == Success(v.items))
            && (v.JObj? ==> FacetsOfText(text, parse) == Success([v]))
            && (!v.JArr? && !v.JObj? ==> FacetsOfText(text, parse).Failure?)
  {
  }

  /**
   * When the whole text does not decode, the result is the decodable
   * top-level objects, and an error exactly when there are none.
   */
  lemma {:induction false} SalvageOutcome(responseText: string, parse: Parser)
    requires parse(Unfenced(responseText)).None?
    ensures FacetsOf(responseText, parse).Success? <==> Salvaged(Unfenced(responseText), parse) != []
    ensures FacetsOf(responseText, parse).Success? ==>
              FacetsOf(responseText, parse).value == Salvaged(Unfenced(responseText), parse)
  {
    var text := Unfenced(responseText);
    assert FacetsOf(responseText, parse) == FacetsOfText(text, parse);
  }
}

/**
 Rewriting import specifiers in a declaration file: rewriteTypeImportSpecifiers and
 rewriteLocalCachedBridgeSpecifiers in internal/esmresolver/typefetch.go.

 Both collect the spans of the specifiers, sort them by descending start, and replace
 one after the other in place.  Which specifiers change, and to what, is a parameter.
 */
module SpanRewrite {

  import opened Wrappers

  datatype Span = Span(start: nat, end: nat, value: string, quote: Option<char>)

  /** What a specifier is to become, if anything. */
  type Edits = string -> Option<string>

  /** A specifier node of the syntax tree: where it stands and what it says. */
  datatype Literal = Literal(start: int, end: int, text: string)

  // ---------------------------------------------------------------- collecting

  predicate IsQuote(c: char) {
    c == '\'' || c == '"' || c == '`'
  }

  predicate WithinText(content: string, s: Span) {
    s.start < s.end <= |content|
  }

  predicate SpanOf(content: string, l: Literal, s: Span) {
    && 0 <= l.start < l.end <= |content| && l.start == s.start && l.end == s.end && s.value != ""
    && var raw := content[l.start..l.end];
       && s.quote == (if |raw| >= 2 && IsQuote(raw[0]) && raw[|raw| - 1] == raw[0] then Some(raw[0]) else None)
       && s.value == if TrimSpace(l.text) == "" && s.quote.Some? then raw[1..|raw| - 1] else TrimSpace(l.text)
  }

  /** The spans of the nodes a walk meets, each span once. */
  method CollectSpans(content: string, nodes: seq<Literal>) returns (spans: seq<Span>)
    ensures NoDuplicates(spans)
    ensures forall s <- spans :: WithinText(content, s)
    ensures forall s :: s in spans <==> exists l <- nodes :: SpanOf(content, l, s)
  {
    spans := [];
    for i := 0 to |nodes|
      invariant NoDuplicates(spans)
      invariant forall s <- spans :: WithinText(content, s)
      invariant forall s :: s in spans <==> exists l <- nodes[..i] :: SpanOf(content, l, s)
    {
      var l := nodes[i];
      assert nodes[..i + 1] == nodes[..i] + [l];
      if l.start < 0 || l.end <= l.start || l.end > |content| {
        continue;
      }
      var raw := content[l.start..l.end];
      var quote := None;
      if |raw| >= 2 && IsQuote(raw[0]) && raw[|raw| - 1] == raw[0] {
        quote := Some(raw[0]);
      }
      var value := TrimSpace(l.text);
      if value == "" && quote.Some? {
        value := raw[1..|raw| - 1];
      }
      if value == "" {
        continue;
      }
      var span := Span(l.start, l.end, value, quote);
      assert SpanOf(content, l, span);
      if span !in spans {
        spans := spans + [span];
      }
    }
    assert nodes[..|nodes|] == nodes;
  }

  /** No two spans overlap. */
  predicate Disjoint(spans: seq<Span>) {
    && NoDuplicates(spans)
    && forall s <- spans, t <- spans :: s == t || s.end <= t.start || t.end <= s.start
  }

  predicate WellPlaced(content: string, spans: seq<Span>) {
    Disjoint(spans) && forall s <- spans :: WithinText(content, s)
  }

  // ---------------------------------------------------------------- simultaneous substitution

  function Quoted(s: Span, specifier: string): string {
    var quote := if s.quote.Some? then s.quote.value else '"';
    [quote] + specifier + [quote]
  }

  /** What stands in a span's place. */
  function Replacement(content: string, edits: Edits, s: Span): string
    requires WithinText(content, s)
  {
    match edits(s.value)
    case None => content[s.start..s.end]
    case Some(specifier) => Quoted(s, specifier)
  }

  /** The span that starts at a position. */
  function SpanAt(spans: seq<Span>, pos: nat): (r: Option<Span>)
    ensures r.Some? ==> r.value in spans && r.value.start == pos
    ensures r.None? ==> forall s <- spans :: s.start != pos
  {
    if spans == [] then None
    else if spans[0].start == pos then Some(spans[0])
    else SpanAt(spans[1..], pos)
  }

  /** The text between two positions, read from left to right, with every span replaced. */
  function Substituted(content: string, spans: seq<Span>, edits: Edits, from: nat, to: nat): string
    requires forall s <- spans :: WithinText(content, s)
    requires from <= to <= |content|
    decreases if from <= to then to - from else 0
  {
    if from == to then ""
    else
      match SpanAt(spans, from)
      case None => [content[from]] + Substituted(content, spans, edits, from + 1, to)
      case Some(s) =>
        if s.end <= to then Replacement(content, edits, s) + Substituted(content, spans, edits, s.end, to)
        else content[from..to]
  }

  /** A position that no span straddles. */
  predicate Cut(spans: seq<Span>, pos: nat) {
    forall s <- spans :: pos <= s.start || s.end <= pos
  }

  lemma SpanAtIs(content: string, spans: seq<Span>, s: Span)
    requires WellPlaced(content, spans) && s in spans
    ensures SpanAt(spans, s.start) == Some(s)
    ensures Cut(spans, s.start) && Cut(spans, s.end)
  {
    var r := SpanAt(spans, s.start);
    assert WithinText(content, s) && (r.Some? ==> WithinText(content, r.value));
  }

  lemma EndsBefore(content: string, spans: seq<Span>, s: Span, pos: nat)
    requires WellPlaced(content, spans) && s in spans && s.start < pos && Cut(spans, pos)
    ensures s.start < s.end <= pos
  {
    assert WithinText(content, s);
  }

  /** Substitution goes piece by piece. */
  lemma {:induction false} SubstitutedSplits(content: string, spans: seq<Span>, edits: Edits, from: nat, mid: nat,
          to: nat)
    requires WellPlaced(content, spans) && from <= mid <= to <= |content| && Cut(spans, mid)
    ensures Substituted(content, spans, edits, from, to)
         == Substituted(content, spans, edits, from, mid) + Substituted(content, spans, edits, mid, to)
    decreases mid - from
  {
    if from < mid {
      match SpanAt(spans, from)
      case None =>
        SubstitutedSplits(content, spans, edits, from + 1, mid, to);
        Assoc([content[from]], Substituted(content, spans, edits, from + 1, mid), Substituted(content, spans, edits,
          mid, to));
      case Some(s) =>
        EndsBefore(content, spans, s, mid);
        SubstitutedSplits(content, spans, edits, s.end, mid, to);
        Assoc(Replacement(content, edits, s), Substituted(content, spans, edits, s.end, mid), Substituted(content,
          spans, edits, mid, to));
    }
  }

  /** Text without a span in it stays as it is. */
  lemma {:induction false} OutsideIsUnchanged(content: string, spans: seq<Span>, edits: Edits, from: nat, to: nat)
    requires forall s <- spans :: WithinText(content, s)
    requires from <= to <= |content| && forall s <- spans :: !(from <= s.start < to)
    ensures Substituted(content, spans, edits, from, to) == content[from..to]
    decreases if from <= to then to - from else 0
  {
    if from < to {
      OutsideIsUnchanged(content, spans, edits, from + 1, to);
      assert content[from..to] == [content[from]] + content[from + 1..to];
    }
  }

  /** Each span's place is taken by its replacement, between the substituted text before and after it. */
  lemma SpanIsReplaced(content: string, spans: seq<Span>, edits: Edits, s: Span)
    requires WellPlaced(content, spans) && s in spans
    ensures Substituted(content, spans, edits, 0, |content|)
         == Substituted(content, spans, edits, 0, s.start) + Replacement(content, edits, s)
          + Substituted(content, spans, edits, s.end, |content|)
  {
    SpanAtIs(content, spans, s);
    SubstitutedSplits(content, spans, edits, 0, s.start, |content|);
    SubstitutedSplits(content, spans, edits, s.start, s.end, |content|);
    assert Substituted(content, spans, edits, s.end, s.end) == "";
  }

  /** The result depends on which spans there are, not on their order. */
  lemma {:induction false} OrderDoesNotMatter(content: string, spans: seq<Span>, spans': seq<Span>, edits: Edits,
          from: nat, to: nat)
    requires WellPlaced(content, spans) && WellPlaced(content, spans') && from <= to <= |content|
    requires forall s :: s in spans <==> s in spans'
    ensures Substituted(content, spans, edits, from, to) == Substituted(content, spans', edits, from, to)
    decreases if from <= to then to - from else 0
  {
    if from < to {
      match SpanAt(spans, from)
      case None =>
        assert SpanAt(spans', from) == None;
        OrderDoesNotMatter(content, spans, spans', edits, from + 1, to);
      case Some(s) =>
        SpanAtIs(content, spans', s);
        if s.end <= to {
          OrderDoesNotMatter(content, spans, spans', edits, s.end, to);
        }
    }
  }

  // ---------------------------------------------------------------- what an edited specifier looks like

  /** The character around the specifier at a span: the one that stands there, or a double quote. */
  ghost predicate QuoteOf(content: string, s: Span, q: char)
    requires WithinText(content, s)
  {
    var raw := content[s.start..s.end];
    if |raw| >= 2 && raw[|raw| - 1] == raw[0] && (raw[0] == '\'' || raw[0] == '"' || raw[0] == '`') then q == raw[0]
    else q == '"'
  }

  /**
   After the rewrite an edited specifier stands between two quotes, those that were there
   or else double ones, in the place of the old one; before it stands what the text before
   became, and after it what the text after became.
   */
  lemma EditedIsQuoted(content: string, spans: seq<Span>, edits: Edits, l: Literal, s: Span, specifier: string, q: char)
    requires WellPlaced(content, spans) && s in spans && SpanOf(content, l, s)
    requires edits(s.value) == Some(specifier) && QuoteOf(content, s, q)
    ensures Substituted(content, spans, edits, 0, |content|)
         == Substituted(content, spans, edits, 0, s.start) + ([q] + specifier + [q])
          + Substituted(content, spans, edits, s.end, |content|)
  {
    SpanIsReplaced(content, spans, edits, s);
    NewTextIs(content, edits, l, s, specifier, q);
  }

  lemma NewTextIs(content: string, edits: Edits, l: Literal, s: Span, specifier: string, q: char)
    requires WithinText(content, s) && SpanOf(content, l, s)
    requires edits(s.value) == Some(specifier) && QuoteOf(content, s, q)
    ensures Replacement(content, edits, s) == [q] + specifier + [q]
  {
  }

  /** A specifier without an edit is left as it was. */
  lemma UneditedStays(content: string, spans: seq<Span>, edits: Edits, s: Span)
    requires WellPlaced(content, spans) && s in spans && edits(s.value) == None
    ensures Substituted(content, spans, edits, 0, |content|)
         == Substituted(content, spans, edits, 0, s.start) + content[s.start..s.end]
          + Substituted(content, spans, edits, s.end, |content|)
  {
    SpanIsReplaced(content, spans, edits, s);
  }

  /** Collecting the new literal gives the new specifier and the same quote back, and nothing else. */
  lemma EditedReadsBack(before: string, specifier: string, q: char, after: string, s: Span)
    requires (q == '\'' || q == '"' || q == '`') && specifier != "" && TrimSpace(specifier) == specifier
    ensures var l := Literal(|before|, |before| + |specifier| + 2, specifier);
            SpanOf(before + ([q] + specifier + [q]) + after, l, s)
            <==> s == Span(|before|, |before| + |specifier| + 2, specifier, Some(q))
  {
    var text := [q] + specifier + [q];
    var content := before + text + after;
    assert content[|before|..|before| + |text|] == text;
  }

  /** White space around a specifier does not belong to it, unless there is nothing else. */
  lemma PaddingIsNoPart(content: string, l: Literal, before: string, specifier: string, after: string, s: Span)
    requires AllSpace(before) && AllSpace(after) && l.text == before + (specifier + after)
    requires specifier != "" && !IsSpace(specifier[0]) && !IsSpace(specifier[|specifier| - 1])
    requires 0 <= l.start < l.end <= |content|
    ensures SpanOf(content, l, s) ==> s.value == specifier
    ensures SpanOf(content, l, Span(l.start, l.end, specifier, None))
            <==> var raw := content[l.start..l.end];
                 !(|raw| >= 2 && raw[0] == raw[|raw| - 1] && (raw[0] == '\'' || raw[0] == '"' || raw[0] == '`'))
  {
    TrimSpaceUnwraps(before, specifier, after);
  }

  lemma BlankStandsForItself(before: string, blank: string, q: char, after: string, s: Span)
    requires AllSpace(blank) && blank != "" && (q == '\'' || q == '"' || q == '`')
    ensures SpanOf(before + ([q] + blank + [q]) + after, Literal(|before|, |before| + |blank| + 2, blank), s)
            <==> s == Span(|before|, |before| + |blank| + 2, blank, Some(q))
  {
    var text := [q] + blank + [q];
    var content := before + text + after;
    assert content[|before|..|before| + |text|] == text;
    assert text[1..|text| - 1] == blank;
    TrimSpaceUnwraps(blank, "", "");
    assert blank + ("" + "") == blank;
  }

  // ---------------------------------------------------------------- sorting

  predicate Descending(spans: seq<Span>) {
    forall i, j :: 0 <= i < j < |spans| ==> spans[i].start >= spans[j].start
  }

  function Inserted(s: Span, sorted: seq<Span>): seq<Span> {
    if sorted == [] then [s]
    else if s.start >= sorted[0].start then [s] + sorted
    else [sorted[0]] + Inserted(s, sorted[1..])
  }

  lemma {:induction false} InsertedHolds(s: Span, sorted: seq<Span>)
    ensures forall t :: t in Inserted(s, sorted) <==> t == s || t in sorted
    ensures s !in sorted && NoDuplicates(sorted) ==> NoDuplicates(Inserted(s, sorted))
  {
    if sorted != [] && s.start < sorted[0].start {
      var rest := Inserted(s, sorted[1..]);
      assert sorted == [sorted[0]] + sorted[1..];
      InsertedHolds(s, sorted[1..]);
      if s !in sorted && NoDuplicates(sorted) {
        assert forall i :: 0 < i < |sorted| ==> sorted[i] == sorted[1..][i - 1];
        assert sorted[0] !in sorted[1..];
        assert NoDuplicates(sorted[1..]);
      }
    }
  }

  lemma {:induction false} InsertedDescends(s: Span, sorted: seq<Span>)
    requires Descending(sorted)
    ensures Descending(Inserted(s, sorted))
  {
    if sorted != [] && s.start < sorted[0].start {
      InsertedDescends(s, sorted[1..]);
      InsertedHolds(s, sorted[1..]);
      forall t <- Inserted(s, sorted[1..])
        ensures sorted[0].start >= t.start
      {
      }
    }
  }

  /** The stable sort by descending start. */
  function Sorted(spans: seq<Span>): seq<Span> {
    if spans == [] then [] else Inserted(spans[0], Sorted(spans[1..]))
  }

  lemma {:induction false} SortedSorts(spans: seq<Span>)
    ensures Descending(Sorted(spans))
    ensures forall t :: t in Sorted(spans) <==> t in spans
    ensures NoDuplicates(spans) ==> NoDuplicates(Sorted(spans))
  {
    if spans != [] {
      assert spans == [spans[0]] + spans[1..];
      SortedSorts(spans[1..]);
      InsertedDescends(spans[0], Sorted(spans[1..]));
      InsertedHolds(spans[0], Sorted(spans[1..]));
      if NoDuplicates(spans) {
        assert NoDuplicates(spans[1..]) && spans[0] !in spans[1..] by {
          assert forall i :: 0 < i < |spans| ==> spans[i] == spans[1..][i - 1];
        }
      }
    }
  }

  // ---------------------------------------------------------------- the loop

  lemma PieceFromSpan(content: string, spans: seq<Span>, edits: Edits, s: Span, bound: nat)
    requires WellPlaced(content, spans) && s in spans && s.end <= bound <= |content|
    requires (forall t <- spans :: t == s || t.start < s.start || t.start >= bound) && Cut(spans, bound)
    ensures Substituted(content, spans, edits, s.start, |content|)
         == Replacement(content, edits, s) + content[s.end..bound] + Substituted(content, spans, edits, bound, |content|)
  {
    SpanAtIs(content, spans, s);
    SubstitutedSplits(content, spans, edits, s.start, s.end, |content|);
    SubstitutedSplits(content, spans, edits, s.end, bound, |content|);
    assert WithinText(content, s);
    assert Substituted(content, spans, edits, s.end, s.end) == "";
    assert Substituted(content, spans, edits, s.start, s.end) == Replacement(content, edits, s);
    OutsideIsUnchanged(content, spans, edits, s.end, bound);
  }

  lemma PieceInPlace(content: string, spans: seq<Span>, edits: Edits, s: Span, bound: nat, out: string)
    requires WellPlaced(content, spans) && s in spans && s.end <= bound <= |content| && s.start < s.end
    requires (forall t <- spans :: t == s || t.start < s.start || t.start >= bound) && Cut(spans, bound)
    requires out == content[..bound] + Substituted(content, spans, edits, bound, |content|)
    ensures out[..s.start] + Replacement(content, edits, s) + out[s.end..]
         == content[..s.start] + Substituted(content, spans, edits, s.start, |content|)
    ensures out == out[..s.start] + content[s.start..s.end] + out[s.end..]
  {
    var tail := Substituted(content, spans, edits, bound, |content|);
    PieceFromSpan(content, spans, edits, s, bound);
    Splice(content, out, tail, s.start, s.end, bound);
    Regroup(content[..s.start], Replacement(content, edits, s), content[s.end..bound], tail);
  }

  lemma Splice(content: string, out: string, tail: string, start: nat, end: nat, bound: nat)
    requires start <= end <= bound <= |content| && out == content[..bound] + tail
    ensures out[..start] == content[..start] && out[end..] == content[end..bound] + tail
    ensures out == out[..start] + content[start..end] + out[end..]
  {
    assert out[start..end] == content[start..end];
    assert out == out[..start] + out[start..end] + out[end..];
  }

  lemma Regroup(a: string, b: string, c: string, d: string)
    ensures a + b + (c + d) == a + (b + c + d)
  {
  }

  lemma NextInOrder(content: string, spans: seq<Span>, sorted: seq<Span>, i: nat, bound: nat)
    requires WellPlaced(content, spans) && Descending(sorted) && NoDuplicates(sorted)
    requires forall t :: t in sorted <==> t in spans
    requires i < |sorted| && bound == if i == 0 then |content| else sorted[i - 1].start
    ensures sorted[i].start < sorted[i].end <= bound
    ensures forall t <- spans :: t == sorted[i] || t.start < sorted[i].start || t.start >= bound
  {
    var s := sorted[i];
    assert WithinText(content, s);
    if i > 0 {
      assert s != sorted[i - 1] && WithinText(content, sorted[i - 1]);
    }
    forall t <- spans
      ensures t == s || t.start < s.start || t.start >= bound
    {
      var j :| 0 <= j < |sorted| && sorted[j] == t;
      assert WithinText(content, t);
    }
  }

  /** The text after the first `i` spans in descending order are replaced. */
  ghost predicate Progress(content: string, spans: seq<Span>, edits: Edits, sorted: seq<Span>, i: nat, out: string)
    requires i <= |sorted|
  {
    var bound := if i == 0 then |content| else sorted[i - 1].start;
    && WellPlaced(content, spans) && sorted == Sorted(spans)
    && bound <= |content| && Cut(spans, bound)
    && out == content[..bound] + Substituted(content, spans, edits, bound, |content|)
  }

  lemma ProgressStarts(content: string, spans: seq<Span>, edits: Edits)
    requires WellPlaced(content, spans)
    ensures Progress(content, spans, edits, Sorted(spans), 0, content)
  {
    SortedSorts(spans);
    assert forall s <- spans :: WithinText(content, s);
    assert content[..|content|] + "" == content;
  }

  lemma ProgressGoesOn(content: string, spans: seq<Span>, edits: Edits, sorted: seq<Span>, i: nat, out: string)
    requires i < |sorted| && Progress(content, spans, edits, sorted, i, out)
    ensures WithinText(content, sorted[i]) && sorted[i].end <= |out|
    ensures var next := out[..sorted[i].start] + Replacement(content, edits, sorted[i]) + out[sorted[i].end..];
            Progress(content, spans, edits, sorted, i + 1, next)
    ensures out == out[..sorted[i].start] + content[sorted[i].start..sorted[i].end] + out[sorted[i].end..]
  {
    var bound := if i == 0 then |content| else sorted[i - 1].start;
    SortedSorts(spans);
    assert sorted[i] in spans;
    NextInOrder(content, spans, sorted, i, bound);
    PieceInPlace(content, spans, edits, sorted[i], bound, out);
    SpanAtIs(content, spans, sorted[i]);
  }

  lemma ProgressEnds(content: string, spans: seq<Span>, edits: Edits, sorted: seq<Span>, out: string)
    requires Progress(content, spans, edits, sorted, |sorted|, out)
    ensures out == Substituted(content, spans, edits, 0, |content|)
  {
    var bound := if sorted == [] then |content| else sorted[|sorted| - 1].start;
    SortedSorts(spans);
    forall t <- spans
      ensures !(0 <= t.start < bound)
    {
      var j :| 0 <= j < |sorted| && sorted[j] == t;
    }
    OutsideIsUnchanged(content, spans, edits, 0, bound);
    SubstitutedSplits(content, spans, edits, 0, bound, |content|);
  }

  /**
   Replacing the spans in place, from the last to the first, is the simultaneous
   substitution; the bounds hold at every replacement.
   */
  method RewriteSpans(content: string, spans: seq<Span>, edits: Edits) returns (out: string)
    requires WellPlaced(content, spans)
    ensures out == Substituted(content, spans, edits, 0, |content|)
  {
    var sorted := Sorted(spans);
    ProgressStarts(content, spans, edits);
    out := content;
    for i := 0 to |sorted|
      invariant Progress(content, spans, edits, sorted, i, out)
    {
      var span := sorted[i];
      ProgressGoesOn(content, spans, edits, sorted, i, out);
      ghost var next := out[..span.start] + Replacement(content, edits, span) + out[span.end..];
      if edits(span.value).Some? && span.end <= |out| && span.start < span.end {
        out := out[..span.start] + Quoted(span, edits(span.value).value) + out[span.end..];
      }
      assert out == next;
    }
    ProgressEnds(content, spans, edits, sorted, out);
  }

  /** Two nodes of a syntax tree that are string literals never overlap. */
  predicate Separate(nodes: seq<Literal>) {
    forall l <- nodes, k <- nodes :: l == k || l.end <= k.start || k.end <= l.start
  }

  /** The spans of the nodes, in any order. */
  ghost predicate SpansOf(content: string, nodes: seq<Literal>, spans: seq<Span>) {
    WellPlaced(content, spans) && forall s :: s in spans <==> exists l <- nodes :: SpanOf(content, l, s)
  }

  /** Collecting and rewriting: every specifier of the tree is replaced at once. */
  method RewriteSpecifiers(content: string, nodes: seq<Literal>, edits: Edits) returns (out: string)
    requires Separate(nodes)
    ensures forall spans :: SpansOf(content, nodes, spans) ==> out == Substituted(content, spans, edits, 0, |content|)
    ensures exists spans :: SpansOf(content, nodes, spans)
  {
    var collected := CollectSpans(content, nodes);
    assert SpansOf(content, nodes, collected);
    if collected == [] {
      OutsideIsUnchanged(content, collected, edits, 0, |content|);
      out := content;
    } else {
      out := RewriteSpans(content, collected, edits);
    }
    forall spans | SpansOf(content, nodes, spans)
      ensures out == Substituted(content, spans, edits, 0, |content|)
    {
      OrderDoesNotMatter(content, collected, spans, edits, 0, |content|);
    }
  }
}

/**
 * Splitting a date string on the separator class `[.\-/:,\s]+`
 * (DateTyper.js:29), both as `String.prototype.split` does it (splitDate) and
 * as the `exec` loop of createFieldSpans walks it, with the proof that the two
 * agree: span i covers exactly token i.
 */
module Tokenizer {
  import opened JsValues

  /** `\s` of JavaScript regular expressions: WhiteSpace and LineTerminator. */
  predicate IsWhiteSpace(c: char) {
    var n := c as int;
    n == 0x09 || n == 0x0A || n == 0x0B || n == 0x0C || n == 0x0D || n == 0x20 ||
    n == 0xA0 || n == 0x1680 || (0x2000 <= n <= 0x200A) || n == 0x2028 || n == 0x2029 ||
    n == 0x202F || n == 0x205F || n == 0x3000 || n == 0xFEFF
  }

  /** One character of the separator class `[\.\-\/:,\s]`. */
  predicate IsSeparator(c: char) {
    c == '.' || c == '-' || c == '/' || c == ':' || c == ',' || IsWhiteSpace(c)
  }

  predicate SeparatorFree(t: string) {
    forall j :: 0 <= j < |t| ==> !IsSeparator(t[j])
  }

  /** Position of the first separator at or after `from`, or |s| if there is none. */
  function NextSeparator(s: string, from: nat): (k: nat)
    requires from <= |s|
    ensures from <= k <= |s|
    ensures forall j {:trigger IsSeparator(s[j])} :: from <= j < k ==> !IsSeparator(s[j])
    ensures k < |s| ==> IsSeparator(s[k])
    decreases |s| - from
  {
    if from == |s| || IsSeparator(s[from]) then from else NextSeparator(s, from + 1)
  }

  /** End of the run of separators starting at `k`: the greedy `+`. */
  function RunEnd(s: string, k: nat): (e: nat)
    requires k <= |s|
    ensures k <= e <= |s|
    ensures forall j {:trigger IsSeparator(s[j])} :: k <= j < e ==> IsSeparator(s[j])
    ensures e < |s| ==> !IsSeparator(s[e])
    decreases |s| - k
  {
    if k == |s| || !IsSeparator(s[k]) then k else RunEnd(s, k + 1)
  }

  /** A match of the separator expression: where it starts and how long it is. */
  datatype Match = Match(index: nat, length: nat)

  /**
   * `separator.exec(s)` with `lastIndex == from`: the leftmost run of
   * separators at or after `from`, taken whole, or null.
   */
  function Exec(s: string, from: nat): (m: Option<Match>)
    requires from <= |s|
    ensures m.None? <==> forall j :: from <= j < |s| ==> !IsSeparator(s[j])
    ensures m.Some? ==> from <= m.value.index && 0 < m.value.length
                        && m.value.index + m.value.length <= |s|
    ensures m.Some? ==> forall j :: from <= j < m.value.index ==> !IsSeparator(s[j])
    ensures m.Some? ==> forall j :: m.value.index <= j < m.value.index + m.value.length ==> IsSeparator(s[j])
    ensures m.Some? && m.value.index + m.value.length < |s| ==>
              !IsSeparator(s[m.value.index + m.value.length])
  {
    var k := NextSeparator(s, from);
    if k == |s| then None else Some(Match(k, RunEnd(s, k) - k))
  }

  // ---------------------------------------------------------------------------
  // splitDate (DateTyper.js:63-65)

  /** The tokens of `s[from..]`: the pieces between maximal runs of separators. */
  function SplitFrom(s: string, from: nat): (tokens: seq<string>)
    requires from <= |s|
    ensures |tokens| >= 1
    decreases |s| - from
  {
    var k := NextSeparator(s, from);
    if k == |s| then [s[from..]]
    else [s[from..k]] + SplitFrom(s, RunEnd(s, k))
  }

  /** No token holds a separator. */
  lemma {:induction false} TokensHaveNoSeparator(s: string, from: nat)
    requires from <= |s|
    ensures forall i :: 0 <= i < |SplitFrom(s, from)| ==> SeparatorFree(SplitFrom(s, from)[i])
    decreases |s| - from
  {
    var k := NextSeparator(s, from);
    var tokens := SplitFrom(s, from);
    assert SeparatorFree(s[from..k]) by {
      forall j | 0 <= j < k - from ensures !IsSeparator(s[from..k][j]) {
        assert s[from..k][j] == s[from + j];
      }
    }
    if k < |s| {
      var rest := SplitFrom(s, RunEnd(s, k));
      TokensHaveNoSeparator(s, RunEnd(s, k));
      forall i | 0 < i < |tokens| ensures SeparatorFree(tokens[i]) {
        assert tokens[i] == rest[i - 1];
      }
    }
  }

  /** `dateString.split(separator)`. */
  function Split(s: string): seq<string> {
    SplitFrom(s, 0)
  }

  /** `tokens[i]`, which is `undefined` past the last token. */
  function TokenAt(tokens: seq<string>, i: nat): (t: Option<string>)
    ensures t.Some? <==> i < |tokens|
  {
    if i < |tokens| then Some(tokens[i]) else None
  }

  // ---------------------------------------------------------------------------
  // The spans of createFieldSpans (DateTyper.js:219-228)

  /** The half-open character range `[from, to)` of one token. */
  datatype Span = Span(from: nat, to: nat)

  /** The spans of the tokens of `s[from..]`, one per token of SplitFrom. */
  function SpansFrom(s: string, from: nat): (spans: seq<Span>)
    requires from <= |s|
    ensures |spans| == |SplitFrom(s, from)|
    decreases |s| - from
  {
    var k := NextSeparator(s, from);
    if k == |s| then [Span(from, |s|)]
    else [Span(from, k)] + SpansFrom(s, RunEnd(s, k))
  }

  function Spans(s: string): seq<Span> {
    SpansFrom(s, 0)
  }

  /** Span i lies in `s[from..]` and its text is token i. */
  ghost predicate CoversTokens(s: string, from: nat, spans: seq<Span>, tokens: seq<string>) {
    |spans| == |tokens| &&
    forall i :: 0 <= i < |spans| ==>
      from <= spans[i].from <= spans[i].to <= |s| && s[spans[i].from..spans[i].to] == tokens[i]
  }

  /** Consecutive spans are separated by a non-empty run made only of separators. */
  ghost predicate Separated(s: string, spans: seq<Span>)
    requires forall i :: 0 <= i < |spans| ==> spans[i].from <= spans[i].to <= |s|
  {
    forall i :: 0 <= i < |spans| - 1 ==>
      spans[i].to < spans[i + 1].from &&
      forall j :: spans[i].to <= j < spans[i + 1].from ==> IsSeparator(s[j])
  }

  /** The first span starts at `from` and the last ends with the text. */
  lemma {:induction false} SpansFromEnds(s: string, from: nat)
    requires from <= |s|
    ensures SpansFrom(s, from)[0].from == from
    ensures SpansFrom(s, from)[|SpansFrom(s, from)| - 1].to == |s|
    decreases |s| - from
  {
    var k := NextSeparator(s, from);
    if k < |s| {
      SpansFromEnds(s, RunEnd(s, k));
    }
  }

  lemma {:induction false} SpansFromCoverTokens(s: string, from: nat)
    requires from <= |s|
    ensures CoversTokens(s, from, SpansFrom(s, from), SplitFrom(s, from))
    decreases |s| - from
  {
    var k := NextSeparator(s, from);
    if k < |s| {
      var e := RunEnd(s, k);
      SpansFromCoverTokens(s, e);
      CoversTokensCons(s, from, k, e, SpansFrom(s, e), SplitFrom(s, e));
    }
  }

  /** A leading token `s[from..k]` in front of tokens covered from e >= k. */
  lemma CoversTokensCons(s: string, from: nat, k: nat, e: nat, rest: seq<Span>, restTokens: seq<string>)
    requires from <= k <= e <= |s|
    requires CoversTokens(s, e, rest, restTokens)
    ensures CoversTokens(s, from, [Span(from, k)] + rest, [s[from..k]] + restTokens)
  {
    var spans, tokens := [Span(from, k)] + rest, [s[from..k]] + restTokens;
    forall i | 0 <= i < |spans|
      ensures from <= spans[i].from <= spans[i].to <= |s|
      ensures s[spans[i].from..spans[i].to] == tokens[i]
    {
      if i > 0 {
        assert spans[i] == rest[i - 1] && tokens[i] == restTokens[i - 1];
      }
    }
  }

  lemma {:induction false} SpansFromSeparated(s: string, from: nat)
    requires from <= |s|
    ensures CoversTokens(s, from, SpansFrom(s, from), SplitFrom(s, from))
    ensures Separated(s, SpansFrom(s, from))
    decreases |s| - from
  {
    SpansFromCoverTokens(s, from);
    var k := NextSeparator(s, from);
    if k < |s| {
      var e := RunEnd(s, k);
      SpansFromSeparated(s, e);
      SpansFromEnds(s, e);
      var rest := SpansFrom(s, e);
      var spans := SpansFrom(s, from);
      assert spans == [Span(from, k)] + rest;
      assert rest[0].from == e;
      forall i | 0 <= i < |spans| - 1
        ensures spans[i].to < spans[i + 1].from
        ensures forall j :: spans[i].to <= j < spans[i + 1].from ==> IsSeparator(s[j])
      {
        if i > 0 {
          assert spans[i] == rest[i - 1] && spans[i + 1] == rest[i];
        } else {
          assert spans[0].to == k && spans[1].from == e;
        }
      }
    }
  }

  /**
   * The spans agree with the split: one span per token, span i's text is
   * token i, the first starts at 0, the last ends at |s|, and spans are in
   * increasing order with only separators between them.
   */
  lemma SpansMatchSplit(s: string)
    ensures CoversTokens(s, 0, Spans(s), Split(s))
    ensures Spans(s)[0].from == 0 && Spans(s)[|Spans(s)| - 1].to == |s|
    ensures Separated(s, Spans(s))
  {
    SpansFromEnds(s, 0);
    SpansFromSeparated(s, 0);
  }

  /** Every span ends before any later span starts. */
  lemma {:induction false} SpansIncrease(s: string, a: nat, b: nat)
    requires a < b < |Spans(s)|
    ensures Spans(s)[a].to < Spans(s)[b].from
    decreases b - a
  {
    SpansMatchSplit(s);
    if b > a + 1 {
      SpansIncrease(s, a + 1, b);
    }
  }

  // ---------------------------------------------------------------------------
  // Splitting tokens joined by separators

  /** Tokens a text may be made of: non-empty and free of separators. */
  ghost predicate Joinable(tokens: seq<string>) {
    |tokens| >= 1 && forall i :: 0 <= i < |tokens| ==> |tokens[i]| > 0 && SeparatorFree(tokens[i])
  }

  /**
   * From `from` on, `s` is the tokens written one after another with a
   * single separator character between neighbours, and nothing after the last.
   */
  ghost predicate JoinedAt(s: string, from: nat, tokens: seq<string>)
    decreases |tokens|
  {
    |tokens| >= 1 && from + |tokens[0]| <= |s| &&
    (forall i :: 0 <= i < |tokens[0]| ==> s[from + i] == tokens[0][i]) &&
    if |tokens| == 1 then from + |tokens[0]| == |s|
    else from + |tokens[0]| < |s| && IsSeparator(s[from + |tokens[0]|]) &&
         JoinedAt(s, from + |tokens[0]| + 1, tokens[1..])
  }

  /** A rest of the text without separators is one token. */
  lemma SplitOfFree(s: string, from: nat)
    requires from <= |s| && forall j :: from <= j < |s| ==> !IsSeparator(s[j])
    ensures SplitFrom(s, from) == [s[from..]]
  {
  }

  /** A token ended by a single separator is split off, and splitting goes on after the separator. */
  lemma SplitStep(s: string, from: nat, end: nat)
    requires from <= end && end + 1 < |s|
    requires forall j :: from <= j < end ==> !IsSeparator(s[j])
    requires IsSeparator(s[end]) && !IsSeparator(s[end + 1])
    ensures SplitFrom(s, from) == [s[from..end]] + SplitFrom(s, end + 1)
  {
    assert NextSeparator(s, from) == end;
    assert RunEnd(s, end) == end + 1;
  }

  /** Where the rest of the text is such tokens joined by single separators, splitting it gives the tokens. */
  lemma {:induction false} SplitFromJoined(s: string, from: nat, tokens: seq<string>)
    requires Joinable(tokens) && JoinedAt(s, from, tokens)
    ensures SplitFrom(s, from) == tokens
    decreases |tokens|
  {
    if |tokens| == 1 {
      JoinedLast(s, from, tokens);
      assert SplitFrom(s, from) == tokens;
    } else {
      var next := from + |tokens[0]| + 1;
      JoinedHead(s, from, tokens);
      SplitFromJoined(s, next, tokens[1..]);
      assert tokens == [tokens[0]] + tokens[1..];
      assert SplitFrom(s, from) == tokens;
    }
  }

  /** The last token runs to the end of the text. */
  lemma JoinedLast(s: string, from: nat, tokens: seq<string>)
    requires Joinable(tokens) && |tokens| == 1 && JoinedAt(s, from, tokens)
    ensures SplitFrom(s, from) == tokens
  {
    assert forall j :: from <= j < |s| ==> s[j] == tokens[0][j - from];
    SplitOfFree(s, from);
    assert s[from..] == tokens[0];
  }

  /** The first of several joined tokens is split off, and the others are joined after its separator. */
  lemma JoinedHead(s: string, from: nat, tokens: seq<string>)
    requires Joinable(tokens) && |tokens| >= 2 && JoinedAt(s, from, tokens)
    ensures from + |tokens[0]| + 1 <= |s|
    ensures Joinable(tokens[1..]) && JoinedAt(s, from + |tokens[0]| + 1, tokens[1..])
    ensures SplitFrom(s, from) == [tokens[0]] + SplitFrom(s, from + |tokens[0]| + 1)
  {
    var t, rest := tokens[0], tokens[1..];
    var end := from + |t|;
    assert Joinable(rest);
    assert forall j :: from <= j < end ==> s[j] == t[j - from];
    assert s[end + 1] == rest[0][0];
    SplitStep(s, from, end);
    assert s[from..end] == t;
  }

  /** A text made of non-empty tokens free of separators, one separator character between neighbours, splits into them. */
  lemma SplitJoined(s: string, tokens: seq<string>)
    requires Joinable(tokens) && JoinedAt(s, 0, tokens)
    ensures Split(s) == tokens
  {
    SplitFromJoined(s, 0, tokens);
  }

  lemma AppendAssociates<T>(a: seq<T>, b: seq<T>, c: seq<T>)
    ensures (a + b) + c == a + (b + c)
  {
  }

  /** One step of the exec loop: a match closes the current span and the next one starts after it. */
  lemma ExecStep(s: string, from: nat)
    requires from <= |s|
    ensures Exec(s, from).None? ==> SpansFrom(s, from) == [Span(from, |s|)]
    ensures Exec(s, from).Some? ==>
              SpansFrom(s, from) ==
                [Span(from, Exec(s, from).value.index)] +
                SpansFrom(s, Exec(s, from).value.index + Exec(s, from).value.length)
  {
  }

  /**
   * The `exec` loop of createFieldSpans (DateTyper.js:220-228): one span
   * before each run of separators, then the span up to the end of the text.
   */
  method ComputeSpans(text: string) returns (spans: seq<Span>)
    ensures spans == Spans(text)
  {
    var from := 0;
    spans := [];
    var m := Exec(text, from);
    while m.Some?
      invariant from <= |text|
      invariant m == Exec(text, from)
      invariant spans + SpansFrom(text, from) == Spans(text)
      decreases |text| - from
    {
      ExecStep(text, from);
      var next := m.value.index + m.value.length;
      var span := Span(from, m.value.index);
      assert SpansFrom(text, from) == [span] + SpansFrom(text, next);
      AppendAssociates(spans, [span], SpansFrom(text, next));
      spans := spans + [span];
      from := next;
      m := Exec(text, from);
    }
    ExecStep(text, from);
    spans := spans + [Span(from, |text|)];
  }
}

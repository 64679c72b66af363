/**
 * The date typer widget (DateTyper.js:20-261 and the Enter key, 303-309):
 * the learned layout, the text of the input, the selected field, the date it
 * last settled on and the change events it dispatched.
 */
module Widget {
  import opened JsValues
  import opened Tokenizer
  import opened HostDate
  import opened Inference
  import opened Analyzer

  // ---------------------------------------------------------------------------
  // Placing fields on their spans (the forEach of DateTyper.js:229-232)

  /** A field moved onto the span of its token. */
  function Placed(f: Field, spans: seq<Span>): Field
    requires f.index < |spans|
  {
    f.(from := spans[f.index].from, to := spans[f.index].to)
  }

  /**
   * The position of the first field whose token does not exist, where
   * `spans[v.index]` is undefined and reading `[0]` of it throws; |fs| when
   * every field has a token.
   */
  function FirstUnplaced(fs: seq<Field>, count: nat): (k: nat)
    ensures k <= |fs|
    ensures forall j :: 0 <= j < k ==> fs[j].index < count
    ensures k < |fs| ==> fs[k].index >= count
  {
    if fs == [] || fs[0].index >= count then 0
    else 1 + FirstUnplaced(fs[1..], count)
  }

  /** The fields after the forEach: placed up to the first one without a token, the rest as they were. */
  function PlaceFields(fs: seq<Field>, spans: seq<Span>): (r: seq<Field>)
    ensures |r| == |fs|
    ensures forall j :: 0 <= j < |fs| ==> r[j] == fs[j].(from := r[j].from, to := r[j].to)
    ensures forall j :: 0 <= j < FirstUnplaced(fs, |spans|) ==> r[j] == Placed(fs[j], spans)
    ensures forall j :: FirstUnplaced(fs, |spans|) <= j < |fs| ==> r[j] == fs[j]
  {
    if fs == [] || fs[0].index >= |spans| then fs
    else [Placed(fs[0], spans)] + PlaceFields(fs[1..], spans)
  }

  /** Placing one more field that has a token extends the prefix of placed fields by one. */
  lemma PlaceStep(fs: seq<Field>, r: seq<Field>, spans: seq<Span>, i: nat)
    requires i < |r| == |fs| && i <= FirstUnplaced(fs, |spans|)
    requires forall j :: 0 <= j < |r| ==> r[j] == if j < i then Placed(fs[j], spans) else fs[j]
    requires r[i].index < |spans|
    ensures var next := r[i := Placed(r[i], spans)];
            i + 1 <= FirstUnplaced(fs, |spans|) &&
            forall j :: 0 <= j < |next| ==> next[j] == if j < i + 1 then Placed(fs[j], spans) else fs[j]
  {
  }

  /** Placing fields in order up to the first one without a token, or to the end, gives PlaceFields. */
  lemma PlacedPrefixIsAll(fs: seq<Field>, r: seq<Field>, spans: seq<Span>, i: nat)
    requires i <= FirstUnplaced(fs, |spans|) && |r| == |fs|
    requires forall j :: 0 <= j < |r| ==> r[j] == if j < i then Placed(fs[j], spans) else fs[j]
    requires i == |fs| || fs[i].index >= |spans|
    ensures i == FirstUnplaced(fs, |spans|)
    ensures r == PlaceFields(fs, spans)
  {
  }

  /** Once every field has a token, each placed field's range in the text is exactly its token. */
  lemma PlacedFieldsShowTheirTokens(text: string, fs: seq<Field>)
    requires FirstUnplaced(fs, |Spans(text)|) == |fs|
    ensures forall j :: 0 <= j < |fs| ==> fs[j].index < |Split(text)|
    ensures var r := PlaceFields(fs, Spans(text));
            forall j :: 0 <= j < |fs| ==>
              r[j].from <= r[j].to <= |text| && text[r[j].from..r[j].to] == Split(text)[fs[j].index]
  {
    SpansMatchSplit(text);
  }

  // ---------------------------------------------------------------------------
  // The selected field (DateTyper.js:212-213 and 259)

  /**
   * `(c + n) % n` with JavaScript's `%`; None stands for NaN, which is also
   * what zero fields give. From any c >= -n it lands on a field.
   */
  function Normalize(c: Option<int>, n: nat): (r: Option<int>)
    ensures r.Some? <==> c.Some? && n > 0
    ensures r.Some? ==> -(n as int) < r.value < n
    ensures r.Some? && c.value >= -(n as int) ==> 0 <= r.value
    ensures r.Some? && c.value < -(n as int) ==> r.value <= 0
    ensures r.Some? && 0 <= c.value < n ==> r.value == c.value
  {
    if c.Some? && n > 0 then
      var a := c.value + n;
      if 0 <= c.value < n then
        ModUnique(a, n, 1, c.value);
        Some(JsRem(a, n))
      else Some(JsRem(a, n))
    else None
  }

  /** From c >= -n the selected field is c modulo n. */
  lemma NormalizeRemainder(c: Option<int>, n: nat)
    requires c.Some? && n > 0 && c.value >= -(n as int)
    ensures Normalize(c, n) == Some(c.value % n)
  {
    ModShift(c.value, n);
    if 0 <= c.value < n {
      ModUnique(c.value, n, 0, c.value);
    }
  }

  /** Euclidean remainders are unique. */
  lemma ModUnique(x: int, n: int, q: int, r: int)
    requires n > 0 && 0 <= r < n && x == q * n + r
    ensures x % n == r
  {
    var d := x / n - q;
    assert d * n == r - x % n;
  }

  lemma ModShift(a: int, n: int)
    requires n > 0
    ensures (a + n) % n == a % n
  {
    assert a == (a / n) * n + a % n;
    ModUnique(a + n, n, a / n + 1, a % n);
  }

  /** The field an arrow key selects, out of n, from field c: one step with wrap-around. */
  function Moved(c: nat, n: nat, d: int): (r: nat)
    requires c < n && (d == 1 || d == -1)
    ensures r == if c + d == n then 0 else if c + d < 0 then n - 1 else c + d
  {
    WrapStep(c, n, d);
    NormalizeRemainder(Some(c + d), n);
    Normalize(Some(c + d), n).value
  }

  lemma WrapStep(c: nat, n: nat, d: int)
    requires c < n && (d == 1 || d == -1)
    ensures (c + d) % n == if c + d == n then 0 else if c + d < 0 then n - 1 else c + d
  {
    if c + d == n {
      ModUnique(c + d, n, 1, 0);
    } else if c + d < 0 {
      ModUnique(c + d, n, -1, n - 1);
    } else {
      ModUnique(c + d, n, 0, c + d);
    }
  }

  /** The field reached from c by k presses of the right arrow. */
  function MovedRight(c: nat, n: nat, k: nat): (r: nat)
    requires c < n
    ensures r < n
  {
    if k == 0 then c else Moved(MovedRight(c, n, k - 1), n, 1)
  }

  /** k presses of the right arrow land on field (c + k) mod n: the selection wraps round all n fields. */
  lemma {:induction false} RightArrowCycles(c: nat, n: nat, k: nat)
    requires c < n
    ensures MovedRight(c, n, k) == (c + k) % n
  {
    if k > 0 {
      RightArrowCycles(c, n, k - 1);
      StepMod(c + k - 1, n);
    }
  }

  /** Adding one to p adds one to its remainder, or wraps it to 0. */
  lemma StepMod(p: nat, n: nat)
    requires n > 0
    ensures (p + 1) % n == if p % n + 1 == n then 0 else p % n + 1
  {
    var q, m := p / n, p % n;
    assert p == q * n + m;
    if m + 1 < n {
      ModUnique(p + 1, n, q, m + 1);
    } else {
      assert p + 1 == (q + 1) * n + 0;
      ModUnique(p + 1, n, q + 1, 0);
    }
  }

  /** The left arrow undoes the right arrow, and the other way round. */
  lemma ArrowsUndoEachOther(c: nat, n: nat)
    requires c < n
    ensures Moved(Moved(c, n, 1), n, -1) == c
    ensures Moved(Moved(c, n, -1), n, 1) == c
  {
  }

  // ---------------------------------------------------------------------------
  // Choosing a field by the cursor (DateTyper.js:239-244)

  /** The test of choseDateComponent: the cursor is within the field or just after it. */
  predicate Covers(f: Field, start: int) {
    f.from <= start <= f.to + 1
  }

  /** The last field the cursor is in or just after, or -1: later matches overwrite earlier ones. */
  function LastCovering(fs: seq<Field>, start: int): (k: int)
    ensures -1 <= k < |fs|
    ensures k >= 0 ==> Covers(fs[k], start)
    ensures forall j :: k < j < |fs| ==> !Covers(fs[j], start)
  {
    if fs == [] then -1
    else if Covers(fs[|fs| - 1], start) then |fs| - 1
    else LastCovering(fs[..|fs| - 1], start)
  }

  /**
   * A cursor inside a token, or right at its end, selects a field shown by
   * that token: the spans of later tokens start past the separator after it.
   */
  lemma CursorInTokenSelectsIt(text: string, fs: seq<Field>, start: int)
    requires FirstUnplaced(fs, |Spans(text)|) == |fs|
    requires forall a, b :: 0 <= a < b < |fs| ==> fs[a].index <= fs[b].index
    ensures var r := PlaceFields(fs, Spans(text));
            var k := LastCovering(r, start);
            forall j :: 0 <= j < |fs| && r[j].from <= start <= r[j].to ==>
              j <= k && r[k].index == r[j].index
  {
    var r := PlaceFields(fs, Spans(text));
    var k := LastCovering(r, start);
    forall j | 0 <= j < |fs| && r[j].from <= start <= r[j].to
      ensures j <= k && r[k].index == r[j].index
    {
      assert Covers(r[j], start);
      if fs[k].index != fs[j].index {
        SpansIncrease(text, fs[j].index, fs[k].index);
      }
    }
  }

  /** Each field's token comes no earlier than the one before it. */
  predicate InTokenOrder(fs: seq<Field>)
    decreases |fs|
  {
    |fs| < 2 || (fs[0].index <= fs[1].index && InTokenOrder(fs[1..]))
  }

  /** A layout sorted by token position and rank is in token order. */
  lemma {:induction false} SortedIsInTokenOrder(fs: seq<Field>)
    requires StrictlySorted(fs)
    ensures InTokenOrder(fs)
    decreases |fs|
  {
    if |fs| >= 2 {
      assert Before(fs[0], fs[1]);
      assert StrictlySorted(fs[1..]) by {
        forall i, j | 0 <= i < j < |fs| - 1 ensures Before(fs[1..][i], fs[1..][j]) {
          assert Before(fs[i + 1], fs[j + 1]);
        }
      }
      SortedIsInTokenOrder(fs[1..]);
    }
  }

  /** In token order, any earlier field's token comes no later than any later field's. */
  lemma {:induction false} InTokenOrderPairs(fs: seq<Field>, a: nat, b: nat)
    requires InTokenOrder(fs) && a < b < |fs|
    ensures fs[a].index <= fs[b].index
    decreases |fs|
  {
    if a > 0 {
      InTokenOrderPairs(fs[1..], a - 1, b - 1);
    } else if b > 1 {
      InTokenOrderPairs(fs[1..], 0, b - 1);
    }
  }

  /** The same for fields that keep the token positions of a layout in token order. */
  lemma CursorInTokenSelectsItInLayout(text: string, fs: seq<Field>, layout: seq<Field>, start: int, r: seq<Field>)
    requires |fs| == |layout| && InTokenOrder(layout)
    requires forall i :: 0 <= i < |layout| ==> fs[i].index == layout[i].index
    requires FirstUnplaced(fs, |Spans(text)|) == |fs|
    requires r == PlaceFields(fs, Spans(text))
    ensures var k := LastCovering(r, start);
            forall j :: 0 <= j < |r| && r[j].from <= start <= r[j].to ==>
              j <= k && r[k].index == r[j].index
  {
    forall a, b | 0 <= a < b < |fs| ensures fs[a].index <= fs[b].index {
      InTokenOrderPairs(layout, a, b);
    }
    CursorInTokenSelectsIt(text, fs, start);
  }

  /**
   * The state selectField leaves, from the fields `before`, the selected
   * field `c0` and the shown range `sel0` it started with: the fields placed
   * on the spans of `text`, the selected field and the shown range.
   */
  ghost predicate SelectedFrom(before: seq<Field>, c0: Option<int>, sel0: Option<Span>, text: string,
                               fields: seq<Field>, current: Option<int>, selection: Option<Span>, ok: bool)
  {
    var n := |fields|;
    var spans := Spans(text);
    |before| == n &&
    fields == PlaceFields(before, spans) &&
    if FirstUnplaced(before, |spans|) < n then
      !ok && current == c0 && selection == sel0
    else
      current == Normalize(c0, n) &&
      if current.Some? && current.value >= 0 then
        ok && selection == Some(spans[before[current.value].index])
      else
        !ok && selection == sel0
  }

  /** `field.value += value` on the field at c. */
  function Bump(fs: seq<Field>, c: nat, delta: Option<int>): (r: seq<Field>)
    requires c < |fs|
    ensures |r| == |fs| && r[c] == fs[c].(value := Plus(fs[c].value, delta))
    ensures forall j :: 0 <= j < |fs| && j != c ==> r[j] == fs[j]
  {
    fs[c := fs[c].(value := Plus(fs[c].value, delta))]
  }

  // ---------------------------------------------------------------------------
  // The widget

  class DateTyper {
    const host: Host
    /** `memory.months`. */
    const months: seq<MonthName>
    /** The layout learned when the widget was built; the fields keep its kinds and positions. */
    ghost const layout: seq<Field>
    /** `memory.index`: the detected fields in token order, whose values and spans are rewritten. */
    var fields: seq<Field>
    /** The value of the input element; the user may edit it freely between events. */
    var text: string
    /** The range last shown with `setSelectionRange`, None before the first. */
    var selection: Option<Span>
    /** `currentField`; None is NaN. */
    var currentField: Option<int>
    /** `upDate`; None while it is still `undefined`. */
    var upDate: Option<TimeValue>
    /** The `valueAsDate` of every change event dispatched so far. */
    var events: seq<TimeValue>

    /** The layout and the month names were learned from this host's formatter; both are constant. */
    ghost predicate Learned() {
      IsLayout(layout, ProbeTokens(host, ProbeA), ProbeTokens(host, ProbeB), ProbeTokens(host, ProbeC)) &&
      LearnedMonths(layout, months, host)
    }

    /** The fields keep the kinds and token positions of the learned layout. */
    ghost predicate Valid()
      reads this`fields
    {
      |fields| == |layout| &&
      forall i :: 0 <= i < |layout| ==> fields[i].kind == layout[i].kind && fields[i].index == layout[i].index
    }

    /**
     * Building the widget: learn the layout and the month names from the
     * formatter (DateTyper.js:186), then show the initial date (199-201).
     */
    constructor (host: Host, initial: TimeValue)
      ensures Valid() && Learned() && InTokenOrder(layout)
      ensures this.host == host
      ensures IsLayout(fields, ProbeTokens(host, ProbeA), ProbeTokens(host, ProbeB), ProbeTokens(host, ProbeC))
      ensures LearnedMonths(fields, months, host)
      ensures text == host.format(initial)
      ensures selection == None && currentField == Some(0) && upDate == None && events == []
    {
      this.host := host;
      var learned, m := Learn(host);
      fields := learned;
      months := m;
      layout := learned;
      SortedIsInTokenOrder(learned);
      text := host.format(initial);
      selection := None;
      currentField := Some(0);
      upDate := None;
      events := [];
    }

    /** createFieldSpans (DateTyper.js:219-233); false where it throws on a field without a token. */
    method CreateFieldSpans() returns (ok: bool)
      requires Valid()
      modifies this`fields
      ensures Valid()
      ensures fields == PlaceFields(old(fields), Spans(text))
      ensures ok <==> FirstUnplaced(old(fields), |Spans(text)|) == |fields|
    {
      var spans := ComputeSpans(text);
      ghost var before := fields;
      var fs := fields;
      var i := 0;
      while i < |fs|
        invariant 0 <= i <= FirstUnplaced(before, |spans|)
        invariant |fs| == |before|
        invariant forall j :: 0 <= j < |fs| ==> fs[j] == if j < i then Placed(before[j], spans) else before[j]
      {
        if fs[i].index >= |spans| {
          break;
        }
        PlaceStep(before, fs, spans, i);
        fs := fs[i := Placed(fs[i], spans)];
        i := i + 1;
      }
      PlacedPrefixIsAll(before, fs, spans, i);
      ok := i == |fs|;
      fields := fs;
    }

    /** selectField (DateTyper.js:210-216); false where it throws. */
    method SelectField() returns (ok: bool)
      requires Valid()
      modifies this`fields, this`currentField, this`selection
      ensures Valid()
      ensures SelectedFrom(old(fields), old(currentField), old(selection), text, fields, currentField, selection, ok)
      ensures ok ==>
                currentField.Some? && 0 <= currentField.value < |fields| &&
                var c := currentField.value;
                fields[c].index < |Split(text)| &&
                fields[c].from <= fields[c].to <= |text| &&
                selection == Some(Span(fields[c].from, fields[c].to)) &&
                text[fields[c].from..fields[c].to] == Split(text)[fields[c].index]
    {
      ghost var before := fields;
      ok := CreateFieldSpans();
      if !ok {
        return;
      }
      currentField := Normalize(currentField, |fields|);
      if currentField.None? || currentField.value < 0 {
        ok := false;
        return;
      }
      var f := fields[currentField.value];
      selection := Some(Span(f.from, f.to));
      PlacedFieldsShowTheirTokens(text, before);
    }

    /** moveDateComponent (DateTyper.js:258-261). */
    method MoveDateComponent(delta: int) returns (ok: bool)
      requires Valid()
      modifies this`fields, this`currentField, this`selection
      ensures Valid()
      ensures SelectedFrom(old(fields), Plus(old(currentField), Some(delta)), old(selection), text, fields, currentField, selection, ok)
      ensures ok && old(currentField).Some? && 0 <= old(currentField).value < |fields| && (delta == 1 || delta == -1) ==>
                currentField == Some(Moved(old(currentField).value, |fields|, delta))
    {
      currentField := Plus(currentField, Some(delta));
      ok := SelectField();
    }

    /** choseDateComponent (DateTyper.js:236-245) for the cursor position `start`. */
    method ChoseDateComponent(start: int) returns (ok: bool)
      requires Valid() && InTokenOrder(layout)
      modifies this`fields, this`currentField, this`selection
      ensures Valid()
      ensures fields == PlaceFields(old(fields), Spans(text))
      ensures ok <==> FirstUnplaced(old(fields), |Spans(text)|) == |fields|
      ensures var k := LastCovering(fields, start);
              if ok && k >= 0 then
                currentField == Some(k) && selection == Some(Span(fields[k].from, fields[k].to))
              else
                currentField == old(currentField) && selection == old(selection)
      ensures ok ==>
                var k := LastCovering(fields, start);
                forall j :: 0 <= j < |fields| && fields[j].from <= start <= fields[j].to ==>
                  j <= k && fields[k].index == fields[j].index
    {
      ghost var before := fields;
      ok := CreateFieldSpans();
      if !ok {
        return;
      }
      var k := CoveringField(start);
      if k >= 0 {
        currentField, selection := Some(k), Some(Span(fields[k].from, fields[k].to));
      }
      CursorInTokenSelectsItInLayout(text, before, layout, start, fields);
    }

    /** The forEach of choseDateComponent: the last field the cursor is in or just after, or -1. */
    method CoveringField(start: int) returns (k: int)
      ensures k == LastCovering(fields, start)
    {
      k := -1;
      var i := 0;
      while i < |fields|
        invariant 0 <= i <= |fields|
        invariant k == LastCovering(fields[..i], start)
      {
        if fields[i].from <= start <= fields[i].to + 1 {
          k := i;
        }
        assert fields[..i + 1][..i] == fields[..i];
        i := i + 1;
      }
      assert fields[..i] == fields;
    }

    /** analyzeDate (DateTyper.js:78-99) on the text `s`; false where the month lookup throws. */
    method AnalyzeDate(s: string) returns (ok: bool)
      requires Valid()
      modifies this`fields
      ensures Valid()
      ensures fields == AnalyzeAll(old(fields), Split(s), months)
      ensures ok <==> FirstThrow(old(fields), Split(s), months) == |fields|
    {
      var tokens := Split(s);
      ghost var before := fields;
      var fs := fields;
      var i := 0;
      ok := true;
      while i < |fs|
        invariant 0 <= i <= FirstThrow(before, tokens, months)
        invariant |fs| == |before|
        invariant forall j :: 0 <= j < |fs| ==> fs[j] == if j < i then Refresh(before[j], tokens, months) else before[j]
        invariant ok
      {
        var r := ReadField(fs[i], tokens, months);
        if r.Throw? {
          ok := false;
          break;
        }
        AnalyzeStep(before, fs, tokens, months, i);
        if r.Set? {
          fs := fs[i := fs[i].(value := r.value)];
        }
        i := i + 1;
      }
      AnalyzedPrefixIsAll(before, fs, tokens, months, i);
      assert forall j :: 0 <= j < |fs| ==> fs[j].kind == before[j].kind && fs[j].index == before[j].index;
      fields := fs;
    }

    /** updateDate (DateTyper.js:102-109) with `now` standing for `new Date()`. */
    method UpdateDate(now: int)
      modifies this`upDate, this`text
      ensures upDate == Some(Rebuilt(host, fields, now))
      ensures text == host.format(upDate.value)
    {
      var t := Time(0);
      var i := 0;
      while i < |fields|
        invariant 0 <= i <= |fields|
        invariant t == ApplySetters(host, fields[..i])
      {
        t := host.setField(fields[i].kind, t, fields[i].value);
        assert fields[..i + 1][..i] == fields[..i];
        i := i + 1;
      }
      assert fields[..i] == fields;
      upDate := Some(if t.Invalid? then Time(now) else t);
      text := host.format(upDate.value);
    }

    /**
     * Whether changeDateComponent throws before it changes the date: the
     * month lookup throws, or `memory.index[currentField]` is undefined.
     */
    ghost predicate ChangeAborts(fs: seq<Field>, s: string, c0: Option<int>) {
      FirstThrow(fs, Split(s), months) < |fs| || !(c0.Some? && 0 <= c0.value < |fs|)
    }

    /**
     * changeDateComponent (DateTyper.js:248-255): read the text, move the
     * selected field's value by `delta` (NaN for a wheel event without a
     * delta), rebuild and show the date, reselect, and dispatch the new date.
     */
    method ChangeDateComponent(delta: Option<int>, now: int) returns (ok: bool)
      requires Valid()
      modifies this`fields, this`currentField, this`selection, this`upDate, this`text, this`events
      ensures Valid()
      ensures ChangeAborts(old(fields), old(text), old(currentField)) ==>
                !ok && fields == AnalyzeAll(old(fields), Split(old(text)), months) &&
                text == old(text) && currentField == old(currentField) && selection == old(selection) &&
                upDate == old(upDate) && events == old(events)
      ensures !ChangeAborts(old(fields), old(text), old(currentField)) ==>
                var changed := Bump(AnalyzeAll(old(fields), Split(old(text)), months), old(currentField).value, delta);
                upDate == Some(Rebuilt(host, changed, now)) &&
                text == host.format(upDate.value) &&
                SelectedFrom(changed, old(currentField), old(selection), text, fields, currentField, selection, ok) &&
                events == old(events) + (if ok then [upDate.value] else [])
      ensures ok ==> currentField == old(currentField)
    {
      ok := AnalyzeDate(text);
      if !ok {
        return;
      }
      if currentField.None? || !(0 <= currentField.value < |fields|) {
        ok := false;
        return;
      }
      ok := ShiftSelected(currentField.value, delta, now);
    }

    /** The rest of changeDateComponent once the selected field exists (DateTyper.js:251-254). */
    method ShiftSelected(c: nat, delta: Option<int>, now: int) returns (ok: bool)
      requires Valid() && c < |fields| && currentField == Some(c)
      modifies this`fields, this`currentField, this`selection, this`upDate, this`text, this`events
      ensures Valid()
      ensures var changed := Bump(old(fields), c, delta);
              upDate == Some(Rebuilt(host, changed, now)) &&
              text == host.format(upDate.value) &&
              SelectedFrom(changed, Some(c), old(selection), text, fields, currentField, selection, ok) &&
              events == old(events) + (if ok then [upDate.value] else [])
      ensures ok ==> currentField == Some(c)
    {
      fields := Bump(fields, c, delta);
      UpdateDate(now);
      ok := SelectField();
      if ok {
        events := events + [upDate.value];
      }
    }

    /** The Enter key (DateTyper.js:303-309): read the text, rebuild and show it, dispatch, reselect. */
    method CommitEntry(now: int) returns (ok: bool)
      requires Valid()
      modifies this`fields, this`currentField, this`selection, this`upDate, this`text, this`events
      ensures Valid()
      ensures FirstThrow(old(fields), Split(old(text)), months) < |fields| ==>
                !ok && fields == AnalyzeAll(old(fields), Split(old(text)), months) &&
                text == old(text) && currentField == old(currentField) && selection == old(selection) &&
                upDate == old(upDate) && events == old(events)
      ensures FirstThrow(old(fields), Split(old(text)), months) == |fields| ==>
                var analyzed := AnalyzeAll(old(fields), Split(old(text)), months);
                upDate == Some(Rebuilt(host, analyzed, now)) &&
                text == host.format(upDate.value) &&
                events == old(events) + [upDate.value] &&
                SelectedFrom(analyzed, old(currentField), old(selection), text, fields, currentField, selection, ok)
    {
      ok := AnalyzeDate(text);
      if !ok {
        return;
      }
      UpdateDate(now);
      events := events + [upDate.value];
      ok := SelectField();
    }
  }
}

/**
 * The format-inference engine `learn` (DateTyper.js:114-184): three probe
 * dates go through the caller's formatter, each field's token position is
 * found by a first-match rule, the found fields are sorted by position, and
 * a table of the twelve month labels is built.
 */
module Inference {
  import opened JsValues
  import opened Tokenizer
  import opened HostDate

  /**
   * One entry of `memory.index`: the field, the token position it was found
   * at, its current value (NaN or `undefined` as `None`) and the character
   * range of its token in the text as last computed.
   */
  datatype Field = Field(kind: FieldKind, index: nat, value: Option<int>, from: nat, to: nat)

  /** A field as `learn` pushes it: no value and no range assigned yet. */
  function NewField(kind: FieldKind, index: nat): Field {
    Field(kind, index, None, 0, 0)
  }

  /** The order of the `fields` array that `learn` tries (DateTyper.js:127-134). */
  const TrialOrder: seq<FieldKind> := [Year, Minute, Second, Day, Hour, Month]

  function Rank(k: FieldKind): (r: nat)
    ensures r < |TrialOrder| && TrialOrder[r] == k
  {
    match k
    case Year => 0
    case Minute => 1
    case Second => 2
    case Day => 3
    case Hour => 4
    case Month => 5
  }

  // ---------------------------------------------------------------------------
  // The probes (DateTyper.js:117-124)

  /** The six arguments of `new Date(...)`; the month is 0-based. */
  datatype Probe = Probe(year: int, month: int, day: int, hour: int, minute: int, second: int)

  /** testValues1: 1 February 2001, 10:34:56. */
  const ProbeA: Probe := Probe(2001, 1, 1, 10, 34, 56)
  /** testValues2: one hour later. */
  const ProbeB: Probe := Probe(2001, 1, 1, 11, 34, 56)
  /** testValues3: one month later, 1 March 2001. */
  const ProbeC: Probe := Probe(2001, 2, 1, 10, 34, 56)

  /** `tv[field.pos]`: the value a probe gives a field. */
  function ProbeValue(p: Probe, k: FieldKind): int {
    match k
    case Year => p.year
    case Month => p.month
    case Day => p.day
    case Hour => p.hour
    case Minute => p.minute
    case Second => p.second
  }

  /** The caller's formatting of a probe date. */
  function ProbeText(host: Host, p: Probe): string {
    host.format(host.construct(p.year, p.month, p.day, p.hour, p.minute, p.second))
  }

  /** createTestFields: the tokens of the formatted probe date. */
  function ProbeTokens(host: Host, p: Probe): seq<string> {
    Split(ProbeText(host, p))
  }

  // ---------------------------------------------------------------------------
  // The detectors t1, t2, t3 (DateTyper.js:141-157)

  /** `tf2[i] - v == 1`: both read as numbers and the second is one more. */
  predicate StepsByOne(v: string, w: Option<string>) {
    var a, b := ParseDecimal(v), ToNumber(w);
    a.Some? && b.Some? && b.value - a.value == 1
  }

  /**
   * Whether position i of probe A's tokens `tf1` passes the detector of field
   * `kind`: the hour token grows by one from probe A to probe B, the month
   * token differs between probe A and probe C, and every other field's token
   * reads as the value probe A gives that field.
   */
  predicate Qualifies(kind: FieldKind, tf1: seq<string>, tf2: seq<string>, tf3: seq<string>, i: nat) {
    i < |tf1| &&
    match kind
    case Hour => StepsByOne(tf1[i], TokenAt(tf2, i))
    case Month => TokenAt(tf3, i) != Some(tf1[i])
    case _ => ParseDecimal(tf1[i]) == Some(ProbeValue(ProbeA, kind))
  }

  /** The index a field is given: the first position that passes its detector, or -1. */
  function Locate(kind: FieldKind, tf1: seq<string>, tf2: seq<string>, tf3: seq<string>): (r: int)
    ensures -1 <= r < |tf1|
    ensures r == -1 <==> forall i :: 0 <= i < |tf1| ==> !Qualifies(kind, tf1, tf2, tf3, i)
    ensures r >= 0 ==> Qualifies(kind, tf1, tf2, tf3, r)
    ensures r >= 0 ==> forall i :: 0 <= i < r ==> !Qualifies(kind, tf1, tf2, tf3, i)
  {
    var p := (i: nat) => Qualifies(kind, tf1, tf2, tf3, i);
    assert forall i: nat :: p(i) == Qualifies(kind, tf1, tf2, tf3, i);
    FindIndex(|tf1|, p)
  }

  // ---------------------------------------------------------------------------
  // Detection (DateTyper.js:145-161)

  ghost predicate Has(fs: seq<Field>, k: FieldKind) {
    exists i :: 0 <= i < |fs| && fs[i].kind == k
  }

  /**
   * `detected` is what the detection loop has pushed after trying the first
   * `tried` fields of TrialOrder: each field whose detector found a position,
   * with that position, in trial order.
   */
  ghost predicate IsDetection(detected: seq<Field>, tf1: seq<string>, tf2: seq<string>, tf3: seq<string>, tried: nat) {
    (forall i :: 0 <= i < |detected| ==>
       Rank(detected[i].kind) < tried &&
       detected[i] == NewField(detected[i].kind, detected[i].index) &&
       detected[i].index as int == Locate(detected[i].kind, tf1, tf2, tf3)) &&
    (forall k :: Rank(k) < tried && Locate(k, tf1, tf2, tf3) >= 0 ==> Has(detected, k)) &&
    (forall i, j :: 0 <= i < j < |detected| ==> Rank(detected[i].kind) < Rank(detected[j].kind))
  }

  /** The `forEach` over the six fields that pushes each detected one. */
  method DetectFields(tf1: seq<string>, tf2: seq<string>, tf3: seq<string>) returns (detected: seq<Field>)
    ensures IsDetection(detected, tf1, tf2, tf3, |TrialOrder|)
  {
    detected := [];
    for t := 0 to |TrialOrder|
      invariant IsDetection(detected, tf1, tf2, tf3, t)
    {
      var kind := TrialOrder[t];
      var index := Locate(kind, tf1, tf2, tf3);
      DetectionStep(detected, tf1, tf2, tf3, t);
      if index >= 0 {
        detected := detected + [NewField(kind, index)];
      }
    }
  }

  /** Trying field t pushes it exactly when its detector finds a position. */
  lemma DetectionStep(detected: seq<Field>, tf1: seq<string>, tf2: seq<string>, tf3: seq<string>, t: nat)
    requires t < |TrialOrder| && IsDetection(detected, tf1, tf2, tf3, t)
    ensures var kind := TrialOrder[t];
            var index := Locate(kind, tf1, tf2, tf3);
            if index >= 0 then IsDetection(detected + [NewField(kind, index)], tf1, tf2, tf3, t + 1)
            else IsDetection(detected, tf1, tf2, tf3, t + 1)
  {
    var kind := TrialOrder[t];
    var index := Locate(kind, tf1, tf2, tf3);
    assert Rank(kind) == t;
    if index >= 0 {
      var next := detected + [NewField(kind, index)];
      forall i | 0 <= i < |next|
        ensures Rank(next[i].kind) < t + 1
        ensures next[i] == NewField(next[i].kind, next[i].index)
        ensures next[i].index as int == Locate(next[i].kind, tf1, tf2, tf3)
      {
        if i < |detected| {
          assert next[i] == detected[i];
        }
      }
      forall k | Rank(k) < t + 1 && Locate(k, tf1, tf2, tf3) >= 0 ensures Has(next, k) {
        if Rank(k) < t {
          var i :| 0 <= i < |detected| && detected[i].kind == k;
          assert next[i] == detected[i];
        } else {
          assert next[|detected|].kind == k;
        }
      }
      forall i, j | 0 <= i < j < |next| ensures Rank(next[i].kind) < Rank(next[j].kind) {
        assert next[i] == detected[i];
        if j < |detected| {
          assert next[j] == detected[j];
        }
      }
    }
  }

  // ---------------------------------------------------------------------------
  // The sort by index (DateTyper.js:169-171)

  /**
   * `a` sorts before `b`: a smaller token index, or the same index and an
   * earlier trial. The array's sort is stable, and the fields reach it in
   * trial order, so this is the order it leaves them in.
   */
  predicate Before(a: Field, b: Field) {
    a.index < b.index || (a.index == b.index && Rank(a.kind) < Rank(b.kind))
  }

  predicate StrictlySorted(fs: seq<Field>) {
    forall i, j :: 0 <= i < j < |fs| ==> Before(fs[i], fs[j])
  }

  /** Inserts `x` after every field whose index is not larger. */
  function Insert(x: Field, s: seq<Field>): (r: seq<Field>)
    requires StrictlySorted(s)
    requires forall i :: 0 <= i < |s| ==> Rank(s[i].kind) < Rank(x.kind)
    ensures StrictlySorted(r)
    ensures multiset(r) == multiset(s) + multiset{x}
  {
    if s == [] || x.index < s[0].index then [x] + s
    else
      var tail := Insert(x, s[1..]);
      HeadStaysFirst(x, s, tail);
      [s[0]] + tail
  }

  /** The head of s still sorts before everything once x is inserted behind it. */
  lemma HeadStaysFirst(x: Field, s: seq<Field>, tail: seq<Field>)
    requires StrictlySorted(s) && s != [] && s[0].index <= x.index && Rank(s[0].kind) < Rank(x.kind)
    requires StrictlySorted(tail) && multiset(tail) == multiset(s[1..]) + multiset{x}
    ensures StrictlySorted([s[0]] + tail)
    ensures multiset([s[0]] + tail) == multiset(s) + multiset{x}
  {
    assert s == [s[0]] + s[1..];
    forall y | y in tail ensures Before(s[0], y) {
      assert y in multiset(tail);
      if y != x {
        assert y in s[1..];
      }
    }
    var r := [s[0]] + tail;
    forall i, j | 0 <= i < j < |r| ensures Before(r[i], r[j]) {
      if i > 0 {
        assert r[i] == tail[i - 1] && r[j] == tail[j - 1];
      } else {
        assert r[j] in tail;
      }
    }
  }

  /** `memory.index.sort(function(a, b) { return a.index - b.index; })`. */
  function SortByIndex(fs: seq<Field>): (r: seq<Field>)
    requires forall i, j :: 0 <= i < j < |fs| ==> Rank(fs[i].kind) < Rank(fs[j].kind)
    ensures StrictlySorted(r)
    ensures multiset(r) == multiset(fs)
  {
    if fs == [] then []
    else
      var sorted := SortByIndex(fs[..|fs| - 1]);
      LastComesLast(fs, sorted);
      Insert(fs[|fs| - 1], sorted)
  }

  /** The field tried last ranks after every field sorted before it. */
  lemma LastComesLast(fs: seq<Field>, sorted: seq<Field>)
    requires |fs| > 0
    requires forall i, j :: 0 <= i < j < |fs| ==> Rank(fs[i].kind) < Rank(fs[j].kind)
    requires multiset(sorted) == multiset(fs[..|fs| - 1])
    ensures forall i :: 0 <= i < |sorted| ==> Rank(sorted[i].kind) < Rank(fs[|fs| - 1].kind)
    ensures multiset(sorted) + multiset{fs[|fs| - 1]} == multiset(fs)
  {
    var last, init := fs[|fs| - 1], fs[..|fs| - 1];
    forall i | 0 <= i < |sorted| ensures Rank(sorted[i].kind) < Rank(last.kind) {
      assert sorted[i] in multiset(init);
      assert sorted[i] in init;
    }
    assert fs == init + [last];
  }

  // ---------------------------------------------------------------------------
  // The learned layout

  /**
   * `L` is a layout learned from the probe tokens: exactly the detected
   * fields, each once, with the position its detector found, sorted by
   * position (ties in trial order), none with a value yet.
   */
  ghost predicate IsLayout(L: seq<Field>, tf1: seq<string>, tf2: seq<string>, tf3: seq<string>) {
    StrictlySorted(L) &&
    (forall i :: 0 <= i < |L| ==>
       L[i] == NewField(L[i].kind, L[i].index) &&
       L[i].index as int == Locate(L[i].kind, tf1, tf2, tf3)) &&
    (forall k :: Has(L, k) <==> Locate(k, tf1, tf2, tf3) >= 0)
  }

  /** Sorting the detected fields gives the layout. */
  lemma SortedDetectionIsLayout(detected: seq<Field>, L: seq<Field>, tf1: seq<string>, tf2: seq<string>, tf3: seq<string>)
    requires IsDetection(detected, tf1, tf2, tf3, |TrialOrder|)
    requires StrictlySorted(L) && multiset(L) == multiset(detected)
    ensures IsLayout(L, tf1, tf2, tf3)
  {
    forall i | 0 <= i < |L|
      ensures L[i] == NewField(L[i].kind, L[i].index)
      ensures L[i].index as int == Locate(L[i].kind, tf1, tf2, tf3)
    {
      assert L[i] in multiset(detected);
      assert L[i] in detected;
    }
    forall k ensures Has(L, k) <==> Locate(k, tf1, tf2, tf3) >= 0 {
      if Has(L, k) {
        var i :| 0 <= i < |L| && L[i].kind == k;
        assert L[i] in multiset(detected);
      }
      if Locate(k, tf1, tf2, tf3) >= 0 {
        assert Has(detected, k);
        var i :| 0 <= i < |detected| && detected[i].kind == k;
        assert detected[i] in multiset(L);
        assert detected[i] in L;
      }
    }
  }

  // ---------------------------------------------------------------------------
  // findFieldByName and findFieldByIndex (DateTyper.js:68-75)

  /** `memory.index.find(field => field.name === name)`. */
  function FindFieldByKind(fs: seq<Field>, kind: FieldKind): (r: Option<Field>)
    ensures r.Some? <==> Has(fs, kind)
    ensures r.Some? ==>
              r.value.kind == kind &&
              exists i :: 0 <= i < |fs| && fs[i] == r.value && forall j :: 0 <= j < i ==> fs[j].kind != kind
  {
    var p := (j: nat) => j < |fs| && fs[j].kind == kind;
    assert forall j: nat :: p(j) == (j < |fs| && fs[j].kind == kind);
    var i := FindIndex(|fs|, p);
    if i < 0 then None else Some(fs[i])
  }

  /** `memory.index.find(field => field.index === index)`. */
  function FindFieldByIndex(fs: seq<Field>, index: int): (r: Option<Field>)
    ensures r.Some? <==> exists i :: 0 <= i < |fs| && fs[i].index as int == index
    ensures r.Some? ==>
              r.value.index as int == index &&
              exists i :: 0 <= i < |fs| && fs[i] == r.value && forall j :: 0 <= j < i ==> fs[j].index as int != index
  {
    var p := (j: nat) => j < |fs| && fs[j].index as int == index;
    assert forall j: nat :: p(j) == (j < |fs| && fs[j].index as int == index);
    var i := FindIndex(|fs|, p);
    if i < 0 then None else Some(fs[i])
  }

  // ---------------------------------------------------------------------------
  // The month table (DateTyper.js:173-182)

  /** One entry of `memory.months`; the label is `undefined` when the probe had no such token. */
  datatype MonthName = MonthName(name: Option<string>, value: int)

  /** Entry k is month k, labelled by the month token of probe A moved to month k. */
  ghost predicate IsMonthTable(months: seq<MonthName>, host: Host, monthIndex: nat) {
    |months| == 12 &&
    forall k :: 0 <= k < 12 ==>
      months[k] == MonthName(TokenAt(ProbeTokens(host, ProbeA.(month := k)), monthIndex), k)
  }

  /** The 12-iteration loop that sets `testValues1[1]` and records the month token. */
  method BuildMonthTable(host: Host, monthIndex: nat) returns (months: seq<MonthName>)
    ensures IsMonthTable(months, host, monthIndex)
  {
    var testValues := ProbeA;
    months := [];
    var month := 0;
    while month < 12
      invariant 0 <= month <= 12 && |months| == month
      invariant testValues.(month := ProbeA.month) == ProbeA
      invariant forall k :: 0 <= k < month ==>
                  months[k] == MonthName(TokenAt(ProbeTokens(host, ProbeA.(month := k)), monthIndex), k)
    {
      testValues := testValues.(month := month);
      var tokens := ProbeTokens(host, testValues);
      months := months + [MonthName(TokenAt(tokens, monthIndex), month)];
      month := month + 1;
    }
  }

  /** The month table belongs to the layout: built at the month's index, or empty without a month. */
  ghost predicate LearnedMonths(L: seq<Field>, months: seq<MonthName>, host: Host) {
    if Has(L, Month) then
      exists i :: 0 <= i < |L| && L[i].kind == Month && IsMonthTable(months, host, L[i].index)
    else months == []
  }

  // ---------------------------------------------------------------------------
  // learn (DateTyper.js:114-184)

  method Learn(host: Host) returns (layout: seq<Field>, months: seq<MonthName>)
    ensures IsLayout(layout, ProbeTokens(host, ProbeA), ProbeTokens(host, ProbeB), ProbeTokens(host, ProbeC))
    ensures LearnedMonths(layout, months, host)
  {
    var tf1, tf2, tf3 := ProbeTokens(host, ProbeA), ProbeTokens(host, ProbeB), ProbeTokens(host, ProbeC);
    var detected := DetectFields(tf1, tf2, tf3);
    layout := SortByIndex(detected);
    SortedDetectionIsLayout(detected, layout, tf1, tf2, tf3);
    months := [];
    var monthField := FindFieldByKind(layout, Month);
    if monthField.Some? {
      months := BuildMonthTable(host, monthField.value.index);
    }
  }
}

/**
 * Reading field values back out of the text (analyzeDate, DateTyper.js:78-99)
 * and rebuilding a date from them (updateDate, DateTyper.js:102-109).
 */
module Analyzer {
  import opened JsValues
  import opened Tokenizer
  import opened HostDate
  import opened Inference

  // ---------------------------------------------------------------------------
  // Month label lookup (DateTyper.js:88)

  /** The outcome of `memory.months.find(...)`: an entry, none, or a TypeError on an `undefined` label. */
  datatype Lookup = Found(value: int) | Missing | Throws

  /** Entries `from..k-1` all have a label and none of them starts with `prefix`. */
  ghost predicate PassedOver(months: seq<MonthName>, prefix: string, from: nat, k: nat)
    requires from <= k <= |months|
  {
    forall j :: from <= j < k ==>
      months[j].name.Some? && !StartsWithIgnoringCase(months[j].name.value, prefix)
  }

  function LookupMonthFrom(months: seq<MonthName>, prefix: string, from: nat): (r: Lookup)
    requires from <= |months|
    ensures r.Found? ==>
              exists k :: from <= k < |months| && PassedOver(months, prefix, from, k) &&
                months[k].name.Some? && StartsWithIgnoringCase(months[k].name.value, prefix) &&
                months[k].value == r.value
    ensures r.Missing? <==> PassedOver(months, prefix, from, |months|)
    ensures r.Throws? ==>
              exists k :: from <= k < |months| && PassedOver(months, prefix, from, k) && months[k].name.None?
    decreases |months| - from
  {
    if from == |months| then Missing
    else
      match months[from].name
      case None => Throws
      case Some(name) =>
        if StartsWithIgnoringCase(name, prefix) then Found(months[from].value)
        else LookupMonthFrom(months, prefix, from + 1)
  }

  /**
   * The first entry whose label starts with `prefix`, ignoring case: found
   * exactly when every earlier entry has a label that does not.
   */
  function LookupMonth(months: seq<MonthName>, prefix: string): (r: Lookup)
    ensures r.Found? ==>
              exists k :: 0 <= k < |months| && PassedOver(months, prefix, 0, k) &&
                months[k].name.Some? && StartsWithIgnoringCase(months[k].name.value, prefix) &&
                months[k].value == r.value
    ensures r.Missing? <==> PassedOver(months, prefix, 0, |months|)
    ensures r.Throws? ==>
              exists k :: 0 <= k < |months| && PassedOver(months, prefix, 0, k) && months[k].name.None?
  {
    LookupMonthFrom(months, prefix, 0)
  }

  // ---------------------------------------------------------------------------
  // Reading one field (DateTyper.js:80-97)

  /** What analyzeDate does to one field: set its value, keep the old one, or throw. */
  datatype Reading = Set(value: Option<int>) | Keep | Throw

  /**
   * Any field but the month takes what unary plus reads from its token, NaN
   * when there is no such token. A month token that reads as a nonzero number
   * n gives month n - 1; any other month token is looked up among the labels:
   * the month is set to the value of the entry found, kept when none is found,
   * and the lookup's TypeError is thrown.
   */
  function ReadField(f: Field, tokens: seq<string>, months: seq<MonthName>): (r: Reading)
    ensures f.kind != Month ==>
              r.Set? && (r.value.Some? <==> f.index < |tokens| && AllDigits(tokens[f.index]))
    ensures f.kind != Month ==> r == Set(if f.index < |tokens| then ParseDecimal(tokens[f.index]) else None)
    ensures f.kind == Month && r.Set? ==> r.value.Some?
    ensures var n := ToNumber(TokenAt(tokens, f.index));
            f.kind == Month && n.Some? && n.value != 0 ==> r == Set(Some(n.value - 1))
    ensures var n := ToNumber(TokenAt(tokens, f.index));
            var found := LookupMonth(months, Text(TokenAt(tokens, f.index)));
            f.kind == Month && !(n.Some? && n.value != 0) ==>
              (r.Set? <==> found.Found?) && (found.Found? ==> r == Set(Some(found.value))) &&
              (r.Keep? <==> found.Missing?) && (r.Throw? <==> found.Throws?)
    ensures r.Keep? ==> f.kind == Month && PassedOver(months, Text(TokenAt(tokens, f.index)), 0, |months|)
    ensures r.Throw? ==> f.kind == Month && exists k :: 0 <= k < |months| && months[k].name.None?
  {
    var token := TokenAt(tokens, f.index);
    if f.kind != Month then Set(ToNumber(token))
    else
      var n := ToNumber(token);
      if n.Some? && n.value != 0 then Set(Some(n.value - 1))
      else
        match LookupMonth(months, Text(token))
        case Found(v) => Set(Some(v))
        case Missing => Keep
        case Throws => Throw
  }

  /** The field after a reading that did not throw. */
  function Refresh(f: Field, tokens: seq<string>, months: seq<MonthName>): Field {
    match ReadField(f, tokens, months)
    case Set(v) => f.(value := v)
    case _ => f
  }

  /**
   * A number that the formatter prints in decimal, with or without leading
   * zeros ("05"), reads back as itself in any field but the month.
   */
  lemma NumberReadsBack(f: Field, tokens: seq<string>, months: seq<MonthName>, zeros: nat, n: nat)
    requires f.kind != Month && f.index < |tokens| && tokens[f.index] == Zeros(zeros) + Decimal(n)
    ensures ReadField(f, tokens, months) == Set(Some(n))
  {
    PaddedDecimalReadsBack(zeros, n);
  }

  /** A month printed as its 1-based number, zero-padded or not ("02"), reads back as its 0-based index. */
  lemma MonthNumberReadsBack(f: Field, tokens: seq<string>, months: seq<MonthName>, zeros: nat, m: nat)
    requires f.kind == Month && f.index < |tokens| && tokens[f.index] == Zeros(zeros) + Decimal(m + 1)
    ensures ReadField(f, tokens, months) == Set(Some(m))
  {
    PaddedDecimalReadsBack(zeros, m + 1);
  }

  /**
   * A month label reads back as its month: when the token is not a nonzero
   * number and starts the label of entry k, ignoring case (the whole label, or
   * an abbreviation such as "Ja"), and no earlier label starts with it, the
   * month field is set to entry k's value.
   */
  lemma MonthLabelReadsBack(f: Field, tokens: seq<string>, months: seq<MonthName>, k: nat)
    requires f.kind == Month && f.index < |tokens|
    requires ParseDecimal(tokens[f.index]) in {None, Some(0)}
    requires k < |months| && months[k].name.Some?
    requires StartsWithIgnoringCase(months[k].name.value, tokens[f.index])
    requires PassedOver(months, tokens[f.index], 0, k)
    ensures ReadField(f, tokens, months) == Set(Some(months[k].value))
  {
    var prefix := tokens[f.index];
    assert Text(TokenAt(tokens, f.index)) == prefix;
    var r := LookupMonth(months, prefix);
    assert !PassedOver(months, prefix, 0, |months|);
    if r.Found? {
      var k' :| 0 <= k' < |months| && PassedOver(months, prefix, 0, k') &&
                months[k'].name.Some? && StartsWithIgnoringCase(months[k'].name.value, prefix) &&
                months[k'].value == r.value;
      assert k' == k;
    }
  }

  // ---------------------------------------------------------------------------
  // Reading every field (the forEach of DateTyper.js:80-98)

  /** The position of the first field whose reading throws, or |fs| when none does. */
  function FirstThrow(fs: seq<Field>, tokens: seq<string>, months: seq<MonthName>): (k: nat)
    ensures k <= |fs|
    ensures forall j :: 0 <= j < k ==> !ReadField(fs[j], tokens, months).Throw?
    ensures k < |fs| ==> ReadField(fs[k], tokens, months).Throw?
  {
    if fs == [] || ReadField(fs[0], tokens, months).Throw? then 0
    else
      var k := FirstThrow(fs[1..], tokens, months);
      assert forall j :: 1 <= j <= k && j < |fs| ==> fs[j] == fs[1..][j - 1];
      1 + k
  }

  /**
   * The fields after analyzeDate: every field before the first throwing one
   * refreshed from the tokens, the rest as they were. Only values change.
   */
  function AnalyzeAll(fs: seq<Field>, tokens: seq<string>, months: seq<MonthName>): (r: seq<Field>)
    ensures |r| == |fs|
    ensures forall j :: 0 <= j < |fs| ==> r[j] == fs[j].(value := r[j].value)
    ensures forall j :: 0 <= j < FirstThrow(fs, tokens, months) ==> r[j] == Refresh(fs[j], tokens, months)
    ensures forall j :: FirstThrow(fs, tokens, months) <= j < |fs| ==> r[j] == fs[j]
  {
    if fs == [] || ReadField(fs[0], tokens, months).Throw? then fs
    else [Refresh(fs[0], tokens, months)] + AnalyzeAll(fs[1..], tokens, months)
  }

  /** Reading one more field that does not throw extends the prefix of refreshed fields by one. */
  lemma AnalyzeStep(fs: seq<Field>, r: seq<Field>, tokens: seq<string>, months: seq<MonthName>, i: nat)
    requires i < |r| == |fs| && i <= FirstThrow(fs, tokens, months)
    requires forall j :: 0 <= j < |r| ==> r[j] == if j < i then Refresh(fs[j], tokens, months) else fs[j]
    requires !ReadField(r[i], tokens, months).Throw?
    ensures var reading := ReadField(r[i], tokens, months);
            var next := if reading.Set? then r[i := r[i].(value := reading.value)] else r;
            i + 1 <= FirstThrow(fs, tokens, months) && |next| == |fs| &&
            forall j :: 0 <= j < |next| ==> next[j] == if j < i + 1 then Refresh(fs[j], tokens, months) else fs[j]
  {
    assert r[i] == fs[i];
    assert i != FirstThrow(fs, tokens, months);
    var reading := ReadField(r[i], tokens, months);
    assert Refresh(fs[i], tokens, months) == if reading.Set? then r[i].(value := reading.value) else r[i];
  }

  /** Reading fields in order up to the first one that throws, or to the end, gives AnalyzeAll. */
  lemma AnalyzedPrefixIsAll(fs: seq<Field>, r: seq<Field>, tokens: seq<string>, months: seq<MonthName>, i: nat)
    requires i <= FirstThrow(fs, tokens, months) && |r| == |fs|
    requires forall j :: 0 <= j < |r| ==> r[j] == if j < i then Refresh(fs[j], tokens, months) else fs[j]
    requires i == |fs| || ReadField(fs[i], tokens, months).Throw?
    ensures i == FirstThrow(fs, tokens, months)
    ensures r == AnalyzeAll(fs, tokens, months)
  {
  }

  /** Without a month field nothing can throw: every field is read. */
  lemma NoMonthNoThrow(fs: seq<Field>, tokens: seq<string>, months: seq<MonthName>)
    requires forall j :: 0 <= j < |fs| ==> fs[j].kind != Month
    ensures FirstThrow(fs, tokens, months) == |fs|
    ensures forall j :: 0 <= j < |fs| ==>
              AnalyzeAll(fs, tokens, months)[j].value == ToNumber(TokenAt(tokens, fs[j].index))
  {
  }

  /** Analyzing the same text twice gives what analyzing it once gave: a reading depends only on kind and position. */
  lemma AnalyzeIdempotent(fs: seq<Field>, tokens: seq<string>, months: seq<MonthName>)
    ensures FirstThrow(AnalyzeAll(fs, tokens, months), tokens, months) == FirstThrow(fs, tokens, months)
    ensures AnalyzeAll(AnalyzeAll(fs, tokens, months), tokens, months) == AnalyzeAll(fs, tokens, months)
  {
    var r := AnalyzeAll(fs, tokens, months);
    var k := FirstThrow(fs, tokens, months);
    forall j | 0 <= j < |fs|
      ensures ReadField(r[j], tokens, months) == ReadField(fs[j], tokens, months)
    {
      ReadDependsOnKindAndIndex(r[j], fs[j], tokens, months);
    }
    FirstThrowUnchanged(fs, r, tokens, months);
    var rr := AnalyzeAll(r, tokens, months);
    forall j | 0 <= j < |fs| ensures rr[j] == r[j] {
      if j < k {
        ReadDependsOnKindAndIndex(r[j], fs[j], tokens, months);
      }
    }
  }

  lemma ReadDependsOnKindAndIndex(f: Field, g: Field, tokens: seq<string>, months: seq<MonthName>)
    requires f.kind == g.kind && f.index == g.index
    ensures ReadField(f, tokens, months) == ReadField(g, tokens, months)
  {
  }

  lemma {:induction false} FirstThrowUnchanged(fs: seq<Field>, gs: seq<Field>, tokens: seq<string>, months: seq<MonthName>)
    requires |fs| == |gs|
    requires forall j :: 0 <= j < |fs| ==> ReadField(fs[j], tokens, months) == ReadField(gs[j], tokens, months)
    ensures FirstThrow(fs, tokens, months) == FirstThrow(gs, tokens, months)
    decreases |fs|
  {
    if fs != [] && !ReadField(fs[0], tokens, months).Throw? {
      FirstThrowUnchanged(fs[1..], gs[1..], tokens, months);
    }
  }

  // ---------------------------------------------------------------------------
  // Rebuilding the date (DateTyper.js:102-108)

  /** `new Date(0)` with the setter of every field applied in layout order. */
  function ApplySetters(host: Host, fs: seq<Field>): TimeValue {
    if fs == [] then Time(0)
    else
      var last := fs[|fs| - 1];
      host.setField(last.kind, ApplySetters(host, fs[..|fs| - 1]), last.value)
  }

  /** Only each field's kind and value, in order, decide the rebuilt date. */
  lemma {:induction false} ApplySettersUsesKindsAndValues(host: Host, fs: seq<Field>, gs: seq<Field>)
    requires |fs| == |gs|
    requires forall i :: 0 <= i < |fs| ==> fs[i].kind == gs[i].kind && fs[i].value == gs[i].value
    ensures ApplySetters(host, fs) == ApplySetters(host, gs)
    decreases |fs|
  {
    if fs != [] {
      ApplySettersUsesKindsAndValues(host, fs[..|fs| - 1], gs[..|gs| - 1]);
    }
  }

  /** The date updateDate settles on: never invalid, the rebuilt date unless that is invalid, otherwise now. */
  function Rebuilt(host: Host, fs: seq<Field>, now: int): (t: TimeValue)
    ensures t.Time?
    ensures ApplySetters(host, fs).Time? ==> t == ApplySetters(host, fs)
    ensures ApplySetters(host, fs).Invalid? ==> t == Time(now)
  {
    var t := ApplySetters(host, fs);
    if t.Invalid? then Time(now) else t
  }
}

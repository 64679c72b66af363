/**
 * What inference learns from a formatter that prints the six fields as
 * decimal numbers (the month 1-based, zero-padded or not) in any order, one
 * separator character between neighbours: exactly those six fields, in that
 * order, at token positions 0 to 5.
 */
module NumericFormat {
  import opened JsValues
  import opened Tokenizer
  import opened HostDate
  import opened Inference

  /** The number such a formatter shows for field `k` of a probe. */
  function Shown(p: Probe, k: FieldKind): int {
    if k == Month then p.month + 1 else ProbeValue(p, k)
  }

  /** `order` lists each of the six fields exactly once. */
  ghost predicate IsFieldOrder(order: seq<FieldKind>) {
    |order| == 6 &&
    (forall k :: k in order) &&
    forall i, j :: 0 <= i < j < |order| ==> order[i] != order[j]
  }

  /**
   * The tokens such a formatter produces for a probe: at position j the
   * number of field order[j] in decimal, after pad[j] zeros ("05").
   */
  function NumericTokens(order: seq<FieldKind>, pad: seq<nat>, p: Probe): (tokens: seq<string>)
    requires |pad| == |order| && forall k :: Shown(p, k) >= 0
    ensures |tokens| == |order|
    ensures forall j :: 0 <= j < |order| ==> tokens[j] == Zeros(pad[j]) + Decimal(Shown(p, order[j]) as nat)
  {
    seq(|order|, j requires 0 <= j < |order| => Zeros(pad[j]) + Decimal(Shown(p, order[j]) as nat))
  }

  /** At each position only the field shown there passes a detector. */
  lemma {:induction false} NumericQualifies(order: seq<FieldKind>, pad: seq<nat>, k: FieldKind, i: nat)
    requires IsFieldOrder(order) && |pad| == 6 && i < 6
    ensures var tA, tB, tC := NumericTokens(order, pad, ProbeA), NumericTokens(order, pad, ProbeB), NumericTokens(order, pad, ProbeC);
            Qualifies(k, tA, tB, tC, i) <==> order[i] == k
  {
    var tA, tB, tC := NumericTokens(order, pad, ProbeA), NumericTokens(order, pad, ProbeB), NumericTokens(order, pad, ProbeC);
    var f := order[i];
    PaddedDecimalReadsBack(pad[i], Shown(ProbeA, f) as nat);
    PaddedDecimalReadsBack(pad[i], Shown(ProbeB, f) as nat);
    PaddedDecimalReadsBack(pad[i], Shown(ProbeC, f) as nat);
    assert ParseDecimal(tA[i]) == Some(Shown(ProbeA, f));
    assert ToNumber(TokenAt(tB, i)) == Some(Shown(ProbeB, f));
    if k == Hour {
      assert Qualifies(k, tA, tB, tC, i) <==> Shown(ProbeB, f) - Shown(ProbeA, f) == 1;
    } else if k == Month {
      if f == Month {
        assert ParseDecimal(tC[i]) != ParseDecimal(tA[i]);
      } else {
        assert Shown(ProbeC, f) == Shown(ProbeA, f);
        assert tC[i] == tA[i];
      }
    } else {
      assert Qualifies(k, tA, tB, tC, i) <==> Shown(ProbeA, f) == ProbeValue(ProbeA, k);
    }
  }

  /** Each field is located at the position the formatter shows it. */
  lemma LocateNumeric(order: seq<FieldKind>, pad: seq<nat>, k: FieldKind)
    requires IsFieldOrder(order) && |pad| == 6
    ensures var r := Locate(k, NumericTokens(order, pad, ProbeA), NumericTokens(order, pad, ProbeB), NumericTokens(order, pad, ProbeC));
            0 <= r < 6 && order[r] == k
  {
    var tA, tB, tC := NumericTokens(order, pad, ProbeA), NumericTokens(order, pad, ProbeB), NumericTokens(order, pad, ProbeC);
    assert k in order;
    var j :| 0 <= j < 6 && order[j] == k;
    NumericQualifies(order, pad, k, j);
    var r := Locate(k, tA, tB, tC);
    if r >= 0 {
      NumericQualifies(order, pad, k, r);
    }
  }

  /** Some field of `L` sits at token position v. */
  ghost predicate IsIndexOf(L: seq<Field>, v: nat) {
    exists m :: 0 <= m < |L| && L[m].index == v
  }

  /** Index i of a strictly increasing run of indices that hits every value below n is i. */
  lemma {:induction false} OrdinalAt(L: seq<Field>, n: nat, i: nat)
    requires forall a, b :: 0 <= a < b < |L| ==> L[a].index < L[b].index
    requires forall v :: 0 <= v < n ==> IsIndexOf(L, v)
    requires forall a :: 0 <= a < |L| ==> L[a].index < n
    requires i < |L|
    ensures L[i].index == i
  {
    if i > 0 {
      OrdinalAt(L, n, i - 1);
    }
    assert L[i].index >= i;
    if L[i].index > i {
      assert IsIndexOf(L, i);
      var m :| 0 <= m < |L| && L[m].index == i;
    }
  }

  /** In the layout learned from a numeric formatter, each field sits where the formatter shows it. */
  lemma NumericLayoutPositions(order: seq<FieldKind>, pad: seq<nat>, L: seq<Field>)
    requires IsFieldOrder(order) && |pad| == 6
    requires IsLayout(L, NumericTokens(order, pad, ProbeA), NumericTokens(order, pad, ProbeB), NumericTokens(order, pad, ProbeC))
    ensures forall a :: 0 <= a < |L| ==> L[a].index < 6 && order[L[a].index] == L[a].kind
    ensures forall v :: 0 <= v < 6 ==> IsIndexOf(L, v)
  {
    var tA, tB, tC := NumericTokens(order, pad, ProbeA), NumericTokens(order, pad, ProbeB), NumericTokens(order, pad, ProbeC);
    forall k ensures 0 <= Locate(k, tA, tB, tC) < 6 && order[Locate(k, tA, tB, tC)] == k {
      LocateNumeric(order, pad, k);
    }
    forall v | 0 <= v < 6 ensures IsIndexOf(L, v) {
      var k := order[v];
      assert Has(L, k);
      var m :| 0 <= m < |L| && L[m].kind == k;
      assert order[L[m].index] == order[v];
    }
  }

  /** Sorted fields whose kind is determined by their index have strictly increasing indices. */
  lemma IncreasingIndices(order: seq<FieldKind>, L: seq<Field>)
    requires StrictlySorted(L)
    requires forall a :: 0 <= a < |L| ==> L[a].index < |order| && order[L[a].index] == L[a].kind
    ensures forall a, b :: 0 <= a < b < |L| ==> L[a].index < L[b].index
  {
    forall a, b | 0 <= a < b < |L| ensures L[a].index < L[b].index {
      assert Before(L[a], L[b]);
    }
  }

  /**
   * Inference recovers the layout of a numeric formatter: whatever order it
   * prints the six fields in, the learned layout holds all six, in that
   * order, at positions 0 to 5.
   */
  lemma InferenceRecoversOrder(order: seq<FieldKind>, pad: seq<nat>, L: seq<Field>)
    requires IsFieldOrder(order) && |pad| == 6
    requires IsLayout(L, NumericTokens(order, pad, ProbeA), NumericTokens(order, pad, ProbeB), NumericTokens(order, pad, ProbeC))
    ensures |L| == 6
    ensures forall i :: 0 <= i < 6 ==> L[i] == NewField(order[i], i)
  {
    NumericLayoutPositions(order, pad, L);
    IncreasingIndices(order, L);
    PositionsFromZero(order, L);
  }

  /** Fields at strictly increasing positions that fill every position 0 to 5 sit at positions 0 to 5. */
  lemma PositionsFromZero(order: seq<FieldKind>, L: seq<Field>)
    requires |order| == 6
    requires forall a, b :: 0 <= a < b < |L| ==> L[a].index < L[b].index
    requires forall a :: 0 <= a < |L| ==>
               L[a].index < 6 && order[L[a].index] == L[a].kind && L[a] == NewField(L[a].kind, L[a].index)
    requires forall v :: 0 <= v < 6 ==> IsIndexOf(L, v)
    ensures |L| == 6
    ensures forall i :: 0 <= i < 6 ==> L[i] == NewField(order[i], i)
  {
    forall i | 0 <= i < |L| ensures L[i].index == i {
      OrdinalAt(L, 6, i);
    }
    assert IsIndexOf(L, 5);
    var m :| 0 <= m < |L| && L[m].index == 5;
  }

  // ---------------------------------------------------------------------------
  // A host whose formatter prints the six fields as numbers

  /**
   * The host formats each probe as the numeric tokens of `order` and `pad`,
   * one separator character between neighbours ("2001-02-01 10:34:56").
   */
  ghost predicate PrintsNumerically(host: Host, order: seq<FieldKind>, pad: seq<nat>) {
    |order| >= 1 && |pad| == |order| &&
    JoinedAt(ProbeText(host, ProbeA), 0, NumericTokens(order, pad, ProbeA)) &&
    JoinedAt(ProbeText(host, ProbeB), 0, NumericTokens(order, pad, ProbeB)) &&
    JoinedAt(ProbeText(host, ProbeC), 0, NumericTokens(order, pad, ProbeC))
  }

  /** Zero-padded decimal tokens hold no separator. */
  lemma NumericTokensJoinable(order: seq<FieldKind>, pad: seq<nat>, p: Probe)
    requires |order| >= 1 && |pad| == |order| && forall k :: Shown(p, k) >= 0
    ensures Joinable(NumericTokens(order, pad, p))
  {
    var tokens := NumericTokens(order, pad, p);
    forall j | 0 <= j < |tokens| ensures SeparatorFree(tokens[j]) {
      var d := Decimal(Shown(p, order[j]) as nat);
      assert forall c :: c in tokens[j] ==> c == '0' || c in d;
    }
  }

  /** createTestFields splits such a host's probe texts into the numeric tokens. */
  lemma NumericHostTokens(host: Host, order: seq<FieldKind>, pad: seq<nat>)
    requires PrintsNumerically(host, order, pad)
    ensures ProbeTokens(host, ProbeA) == NumericTokens(order, pad, ProbeA)
    ensures ProbeTokens(host, ProbeB) == NumericTokens(order, pad, ProbeB)
    ensures ProbeTokens(host, ProbeC) == NumericTokens(order, pad, ProbeC)
  {
    NumericTokensJoinable(order, pad, ProbeA);
    NumericTokensJoinable(order, pad, ProbeB);
    NumericTokensJoinable(order, pad, ProbeC);
    SplitJoined(ProbeText(host, ProbeA), NumericTokens(order, pad, ProbeA));
    SplitJoined(ProbeText(host, ProbeB), NumericTokens(order, pad, ProbeB));
    SplitJoined(ProbeText(host, ProbeC), NumericTokens(order, pad, ProbeC));
  }

  /**
   * What `learn` finds for a host that prints the six fields as numbers:
   * all six, in the order the host prints them, at positions 0 to 5.
   * Inference.Learn ensures the IsLayout precondition for its result.
   */
  lemma LearnedFromNumericHost(host: Host, order: seq<FieldKind>, pad: seq<nat>, L: seq<Field>)
    requires IsFieldOrder(order) && PrintsNumerically(host, order, pad)
    requires IsLayout(L, ProbeTokens(host, ProbeA), ProbeTokens(host, ProbeB), ProbeTokens(host, ProbeC))
    ensures |L| == 6
    ensures forall i :: 0 <= i < 6 ==> L[i] == NewField(order[i], i)
  {
    NumericHostTokens(host, order, pad);
    InferenceRecoversOrder(order, pad, L);
  }
}

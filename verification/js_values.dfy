/**
 * The few JavaScript primitives the date typer relies on, stated exactly:
 * `undefined`/`NaN` as `None`, `Array.prototype.findIndex`, unary `+` on a
 * token, the truncating `%`, and the case-insensitive `^prefix` test.
 */
module JsValues {

  datatype Option<T> = None | Some(value: T)

  // ---------------------------------------------------------------------------
  // Array.prototype.findIndex (DateTyper.js:45-54)

  /** The first position in `from..n-1` whose test `p` holds, or -1. */
  function FindIndexFrom(n: nat, p: nat -> bool, from: nat): (r: int)
    requires from <= n
    ensures r == -1 || from <= r < n
    ensures r >= 0 ==> p(r) && forall j :: from <= j < r ==> !p(j)
    ensures r == -1 ==> forall j :: from <= j < n ==> !p(j)
    decreases n - from
  {
    if from == n then -1
    else if p(from) then from
    else FindIndexFrom(n, p, from + 1)
  }

  /** `findIndex` over the positions 0..n-1: the first one whose test holds, or -1. */
  function FindIndex(n: nat, p: nat -> bool): (r: int)
    ensures -1 <= r < n
    ensures r >= 0 ==> p(r) && forall j :: 0 <= j < r ==> !p(j)
    ensures r == -1 <==> forall j :: 0 <= j < n ==> !p(j)
  {
    FindIndexFrom(n, p, 0)
  }

  // ---------------------------------------------------------------------------
  // Unary plus on a token: decimal digits only, "" is 0, anything else NaN.

  predicate IsDigit(c: char) {
    '0' <= c <= '9'
  }

  predicate AllDigits(s: string) {
    forall i :: 0 <= i < |s| ==> IsDigit(s[i])
  }

  /** `+s` for a token `s`; `None` stands for NaN. */
  function ParseDecimal(s: string): (r: Option<int>)
    ensures r.Some? <==> AllDigits(s)
    ensures r.Some? ==> r.value >= 0
    ensures s == [] ==> r == Some(0)
    decreases |s|
  {
    if s == [] then Some(0)
    else
      match ParseDecimal(s[..|s| - 1])
      case None => None
      case Some(p) =>
        if IsDigit(s[|s| - 1]) then Some(10 * p + (s[|s| - 1] as int - '0' as int)) else None
  }

  /** `+v` where `v` is a token or `undefined` (a position past the last token). */
  function ToNumber(v: Option<string>): (r: Option<int>)
    ensures r.Some? <==> v.Some? && AllDigits(v.value)
  {
    match v
    case None => None
    case Some(s) => ParseDecimal(s)
  }

  /** `'' + v`: the text of a token, or "undefined". */
  function Text(v: Option<string>): string {
    match v
    case None => "undefined"
    case Some(s) => s
  }

  /** `x + d` on numbers that may be NaN (an `undefined` operand is NaN too). */
  function Plus(x: Option<int>, d: Option<int>): (r: Option<int>)
    ensures r.Some? <==> x.Some? && d.Some?
    ensures r.Some? ==> r.value - d.value == x.value
  {
    if x.Some? && d.Some? then Some(x.value + d.value) else None
  }

  // The decimal rendering of a natural number, used to state what a formatter
  // that prints plain numbers produces.

  function DigitChar(d: nat): (c: char)
    requires d < 10
    ensures IsDigit(c) && c as int - '0' as int == d
  {
    ('0' as int + d) as char
  }

  function Decimal(n: nat): (s: string)
    ensures |s| > 0 && AllDigits(s)
    decreases n
  {
    if n < 10 then [DigitChar(n)] else Decimal(n / 10) + [DigitChar(n % 10)]
  }

  /** Unary plus reads back every number printed in decimal. */
  lemma {:induction false} ParseDecimalOfDecimal(n: nat)
    ensures ParseDecimal(Decimal(n)) == Some(n)
    decreases n
  {
    if n >= 10 {
      var s := Decimal(n);
      assert s[..|s| - 1] == Decimal(n / 10);
      ParseDecimalOfDecimal(n / 10);
    }
  }

  /** k zero digits, the padding of a formatter that prints "05". */
  function Zeros(k: nat): string {
    seq(k, i => '0')
  }

  lemma {:induction false} ZerosReadAsZero(k: nat)
    ensures ParseDecimal(Zeros(k)) == Some(0)
    decreases k
  {
    if k > 0 {
      assert Zeros(k)[..k - 1] == Zeros(k - 1);
      ZerosReadAsZero(k - 1);
    }
  }

  /** Leading zeros do not change what unary plus reads. */
  lemma {:induction false} ParseDecimalIgnoresLeadingZeros(k: nat, s: string)
    ensures ParseDecimal(Zeros(k) + s) == ParseDecimal(s)
    decreases |s|
  {
    var z := Zeros(k) + s;
    if s == [] {
      assert z == Zeros(k);
      ZerosReadAsZero(k);
    } else {
      assert z[..|z| - 1] == Zeros(k) + s[..|s| - 1];
      assert z[|z| - 1] == s[|s| - 1];
      ParseDecimalIgnoresLeadingZeros(k, s[..|s| - 1]);
    }
  }

  /** A number printed in decimal with any number of leading zeros ("05") reads back as itself. */
  lemma PaddedDecimalReadsBack(k: nat, n: nat)
    ensures ParseDecimal(Zeros(k) + Decimal(n)) == Some(n)
  {
    ParseDecimalIgnoresLeadingZeros(k, Decimal(n));
    ParseDecimalOfDecimal(n);
  }

  // ---------------------------------------------------------------------------
  // The remainder operator `%` of JavaScript on integers (DateTyper.js:213).

  /** `a % n`: truncating division, so the remainder has the sign of `a`. */
  function JsRem(a: int, n: int): (r: int)
    requires n > 0
    ensures -n < r < n
    ensures a >= 0 ==> r >= 0
    ensures a <= 0 ==> r <= 0
    ensures exists q :: a == q * n + r
  {
    if a >= 0 then
      assert a == (a / n) * n + a % n;
      a % n
    else
      var q := (-a) / n;
      assert -a == q * n + (-a) % n;
      assert a == (-q) * n + -((-a) % n);
      -((-a) % n)
  }

  // ---------------------------------------------------------------------------
  // `name.match(new RegExp('^' + value, 'i'))` for a value without regular
  // expression metacharacters (DateTyper.js:88).

  /** Simple case folding of the Basic Latin letters. */
  function Fold(c: char): char {
    if 'A' <= c <= 'Z' then (c as int + 32) as char else c
  }

  predicate StartsWithIgnoringCase(name: string, prefix: string) {
    |prefix| <= |name| && forall i :: 0 <= i < |prefix| ==> Fold(name[i]) == Fold(prefix[i])
  }
}

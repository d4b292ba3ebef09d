/** JavaScript semantics that the rest of the model depends on: optional values,
    JSON request values and their truthiness, `Math.round`, `String.prototype.trim`
    and the decimal rendering of a non-negative integer. */
module Js {

  /** `None` stands for `undefined`: a field that is absent from a request or record. */
  datatype Option<+T> = None | Some(value: T) {
    function GetOr(default: T): T {
      match this
      case Some(v) => v
      case None => default
    }
  }

  datatype Result<+T, +E> = Success(value: T) | Failure(error: E)

  /** A JSON value as it arrives in a request body; `Undefined` is an absent member.
      An object is the map from its own member names to their values. */
  datatype Json =
    | Undefined | Null | Bool(b: bool) | Num(x: real) | Str(s: string)
    | Arr(items: seq<Json>) | Obj(members: map<string, Json>)

  /** `!!v` in JavaScript (NaN is not modelled). */
  predicate Truthy(v: Json) {
    match v
    case Undefined => false
    case Null => false
    case Bool(b) => b
    case Num(x) => x != 0.0
    case Str(s) => s != ""
    case Arr(_) => true
    case Obj(_) => true
  }

  /** `v[k]` on a defined value: an array element, a one-character string, the
      object member named by the decimal digits of k, or undefined. (On `null` and
      `undefined` JavaScript throws; callers index only truthy values.) */
  function Index(v: Json, k: nat): (r: Json)
    ensures v.Arr? ==> r == (if k < |v.items| then v.items[k] else Undefined)
    ensures v.Str? ==> r == (if k < |v.s| then Str([v.s[k]]) else Undefined)
    ensures v.Obj? && NatToDecimal(k) in v.members ==> r == v.members[NatToDecimal(k)]
    ensures v.Obj? && NatToDecimal(k) !in v.members ==> r == Undefined
    ensures v.Bool? || v.Num? || v.Null? || v.Undefined? ==> r == Undefined
  {
    match v
    case Arr(items) => if k < |items| then items[k] else Undefined
    case Str(s) => if k < |s| then Str([s[k]]) else Undefined
    case Obj(m) => if NatToDecimal(k) in m then m[NatToDecimal(k)] else Undefined
    case _ => Undefined
  }

  /** Truthiness of an optional string field: absent and "" are falsy. */
  predicate TruthyStr(s: Option<string>) {
    s.Some? && s.value != ""
  }

  /** Truthiness of an optional number field: absent and 0 are falsy. */
  predicate TruthyNum(x: Option<real>) {
    x.Some? && x.value != 0.0
  }

  /** `x || 0` for an optional number. */
  function OrZero(x: Option<real>): (r: real)
    ensures TruthyNum(x) ==> r == x.value
    ensures !TruthyNum(x) ==> r == 0.0
  {
    if x.Some? then x.value else 0.0
  }

  /** `s || fallback` for an optional string. */
  function OrElse(s: Option<string>, fallback: string): (r: string)
    ensures TruthyStr(s) ==> r == s.value
    ensures !TruthyStr(s) ==> r == fallback
  {
    if TruthyStr(s) then s.value else fallback
  }

  /** `Math.round(x)`: the integer nearest to x, ties toward +infinity
      (ECMA-262 section 21.3.2.28). */
  function MathRound(x: real): (n: int)
    ensures n as real - 0.5 <= x < n as real + 0.5
  {
    (x + 0.5).Floor
  }

  /** `Math.round(x * 10) / 10`: rounding to one decimal place. The result is a
      whole number of tenths, and the half-open band picks the nearest one with
      ties going up. */
  function RoundTenth(x: real): (r: real)
    ensures (r * 10.0).Floor as real == r * 10.0
    ensures x - 0.05 < r <= x + 0.05
  {
    MathRound(x * 10.0) as real / 10.0
  }

  /** `Math.round(x * 100) / 100`: rounding to two decimal places, to the nearest
      whole number of hundredths with ties going up. */
  function RoundHundredth(x: real): (r: real)
    ensures (r * 100.0).Floor as real == r * 100.0
    ensures x - 0.005 < r <= x + 0.005
  {
    MathRound(x * 100.0) as real / 100.0
  }

  lemma MathRoundOfInteger(n: int)
    ensures MathRound(n as real) == n
  {
  }

  /** Rounding is monotone, so a non-negative argument never rounds below zero. */
  lemma MathRoundMonotone(x: real, y: real)
    requires x <= y
    ensures MathRound(x) <= MathRound(y)
  {
  }

  /** WhiteSpace and LineTerminator code points of ECMA-262 (sections 12.2 and 12.3),
      the characters `String.prototype.trim` removes. */
  predicate IsJsSpace(c: char) {
    || c == ' ' || c == '\t' || c == '\n' || c == '\U{000B}' || c == '\U{000C}' || c == '\r'
    || c == '\U{00A0}' || c == '\U{1680}' || ('\U{2000}' <= c <= '\U{200A}')
    || c == '\U{2028}' || c == '\U{2029}' || c == '\U{202F}' || c == '\U{205F}'
    || c == '\U{3000}' || c == '\U{FEFF}'
  }

  /** Every character of s in positions lo up to hi is white space. */
  predicate AllSpace(s: string, lo: int, hi: int) {
    forall i :: 0 <= lo <= i < hi <= |s| ==> IsJsSpace(s[i])
  }

  /** The number of white-space characters `trim` removes from the front of s. */
  function LeadingSpaces(s: string): (n: nat)
    ensures n <= |s| && AllSpace(s, 0, n)
    ensures n < |s| ==> !IsJsSpace(s[n])
  {
    if s != [] && IsJsSpace(s[0]) then
      var n := 1 + LeadingSpaces(s[1..]);
      assert forall i :: 1 <= i < n ==> s[i] == s[1..][i - 1];
      n
    else 0
  }

  /** The number of white-space characters `trim` removes from the end of s. */
  function TrailingSpaces(s: string): (n: nat)
    ensures n <= |s| && AllSpace(s, |s| - n, |s|)
    ensures n < |s| ==> !IsJsSpace(s[|s| - n - 1])
  {
    if s != [] && IsJsSpace(s[|s| - 1]) then
      var n := 1 + TrailingSpaces(s[..|s| - 1]);
      assert forall i :: |s| - n <= i < |s| - 1 ==> s[i] == s[..|s| - 1][i];
      n
    else 0
  }

  /** `s.trim()`, applied by the Mongoose `trim: true` setter: the middle slice of
      s, with only white space cut off on either side. */
  function Trim(s: string): (r: string)
    ensures var a := LeadingSpaces(s);
            a + |r| <= |s| && r == s[a..a + |r|] && AllSpace(s, 0, a) && AllSpace(s, a + |r|, |s|)
    ensures r == [] || (!IsJsSpace(r[0]) && !IsJsSpace(r[|r| - 1]))
  {
    var a := LeadingSpaces(s);
    if a == |s| then []
    else
      var b := |s| - TrailingSpaces(s);
      s[a..b]
  }

  /** A string that neither starts nor ends with white space is its own trim. */
  lemma {:induction false} TrimOfTrimmed(s: string)
    requires s == [] || (!IsJsSpace(s[0]) && !IsJsSpace(s[|s| - 1]))
    ensures Trim(s) == s
  {
  }

  /** Trimming twice is trimming once. */
  lemma TrimIdempotent(s: string)
    ensures Trim(Trim(s)) == Trim(s)
  {
    TrimOfTrimmed(Trim(s));
  }

  function DigitChar(d: nat): (c: char)
    requires d < 10
    ensures '0' <= c <= '9' && c as int - '0' as int == d
  {
    "0123456789"[d]
  }

  /** `String(n)` for a non-negative integer: its decimal digits, no leading zero. */
  function NatToDecimal(n: nat): (s: string)
    ensures |s| >= 1
    ensures forall i :: 0 <= i < |s| ==> '0' <= s[i] <= '9'
    ensures s[0] == '0' ==> n == 0
  {
    if n < 10 then [DigitChar(n)] else NatToDecimal(n / 10) + [DigitChar(n % 10)]
  }

  /** The number a string of decimal digits denotes. */
  function DecimalValue(s: string): nat
    requires forall i :: 0 <= i < |s| ==> '0' <= s[i] <= '9'
  {
    if s == [] then 0 else DecimalValue(s[..|s| - 1]) * 10 + (s[|s| - 1] as int - '0' as int)
  }

  /** Reading back the digits of `String(n)` gives n. */
  lemma {:induction false} DecimalRoundTrip(n: nat)
    ensures DecimalValue(NatToDecimal(n)) == n
  {
    if n >= 10 {
      DecimalRoundTrip(n / 10);
      var s := NatToDecimal(n);
      assert s[..|s| - 1] == NatToDecimal(n / 10);
    }
  }
}

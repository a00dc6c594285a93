/** The dynamically typed values that arrive in a raw log object and are
    written into stored documents, with the two JavaScript coercions the
    handlers rely on: truthiness (`if (x)`) and numeric conversion (`x * 1000`). */
module JsValues {
  import opened Wrappers

  /** A JavaScript value as the handlers see it. Numbers are integers here:
      every number the handlers touch is a block height, an epoch or a count. */
  datatype Value =
    | Undefined
    | Null
    | Bool(b: bool)
    | Num(n: int)
    | NaN
    | Str(s: string)

  /** JavaScript truthiness: `undefined`, `null`, `false`, `0`, `NaN` and the
      empty string are falsy, everything else is truthy. */
  predicate Truthy(v: Value): (b: bool)
    ensures !b <==> v in {Undefined, Null, Bool(false), Num(0), NaN, Str("")}
  {
    match v
    case Undefined => false
    case Null => false
    case Bool(b) => b
    case Num(n) => n != 0
    case NaN => false
    case Str(s) => s != ""
  }

  predicate IsDigit(c: char) {
    '0' <= c <= '9'
  }

  predicate AllDigits(s: string) {
    forall i :: 0 <= i < |s| ==> IsDigit(s[i])
  }

  /** The number a string of decimal digits denotes (most significant first). */
  function DecimalValue(s: string): nat
    requires AllDigits(s)
  {
    if |s| == 0 then 0
    else DecimalValue(s[..|s| - 1]) * 10 + (s[|s| - 1] as int - '0' as int)
  }

  /** The shortest decimal spelling of `n`, as `String(n)` gives it. */
  function DecimalString(n: nat): string
  {
    if n < 10 then [('0' as int + n) as char]
    else DecimalString(n / 10) + [('0' as int + n % 10) as char]
  }

  /** JavaScript's ToNumber, as far as the handlers need it: `None` stands for
      NaN. A string converts when it is made of decimal digits only (the empty
      string converts to 0, as in JavaScript). */
  function ToNumber(v: Value): (r: Option<int>)
    ensures r.None? <==> v == Undefined || v == NaN || (v.Str? && !AllDigits(v.s))
    ensures v.Num? ==> r == Some(v.n)
    ensures v.Str? && r.Some? ==> r.value >= 0
  {
    match v
    case Undefined => None
    case Null => Some(0)
    case Bool(b) => Some(if b then 1 else 0)
    case Num(n) => Some(n)
    case NaN => None
    case Str(s) => if AllDigits(s) then Some(DecimalValue(s)) else None
  }

  /** Printing a natural number in decimal and reading it back gives the
      number again: a chain event's uint fields, delivered as decimal strings,
      convert to exactly the integer they spell. */
  lemma {:induction false} DecimalRoundTrip(n: nat)
    ensures AllDigits(DecimalString(n))
    ensures DecimalValue(DecimalString(n)) == n
  {
    if n >= 10 {
      DecimalRoundTrip(n / 10);
      var s := DecimalString(n);
      assert s[..|s| - 1] == DecimalString(n / 10);
    }
  }

  /** A decimal string converts to the number it spells. */
  lemma DecimalStringToNumber(n: nat)
    ensures ToNumber(Str(DecimalString(n))) == Some(n)
  {
    DecimalRoundTrip(n);
  }
}

/**
 * JavaScript values and plain objects as the batch compiler sees them.
 *
 * A plain object is an association list in insertion order, which is the
 * order `Object.keys`, `Object.values` and `Object.entries` report. Numbers
 * are integers; the text of a value is what a template literal `${v}` makes
 * of it.
 */
module JsObjects {

  datatype Value = Str(s: string) | Int(n: int) | Bool(b: bool) | Null | Undefined

  /** An object's own properties, in insertion order. */
  type Obj = seq<(string, Value)>

  /** `Object.keys(o)`, of a plain object or of any other list of named properties. */
  function Keys<V>(o: seq<(string, V)>): (ks: seq<string>)
    ensures |ks| == |o|
    ensures forall i :: 0 <= i < |o| ==> ks[i] == o[i].0
  {
    seq(|o|, i requires 0 <= i < |o| => o[i].0)
  }

  /** Property access `o[k]`: `undefined` when the object has no such key. */
  function Get(o: Obj, k: string): (v: Value)
    ensures k !in Keys(o) ==> v == Undefined
  {
    if |o| == 0 then Undefined
    else if o[0].0 == k then o[0].1
    else Get(o[1..], k)
  }

  /** Property access finds the first property with that key. */
  lemma {:induction false} GetFirst(o: Obj, k: string, i: int)
    requires 0 <= i < |o| && o[i].0 == k && k !in Keys(o[..i])
    ensures Get(o, k) == o[i].1
  {
    if i > 0 {
      assert Keys(o[..i])[0] == o[0].0;
      assert o[1..][i - 1] == o[i];
      assert Keys(o[1..][..i - 1]) == Keys(o[..i])[1..];
      GetFirst(o[1..], k, i - 1);
    }
  }

  // ---------------------------------------------------------------------
  // Text of a value inside a template literal

  function DigitChar(d: nat): char
    requires d < 10
  {
    "0123456789"[d]
  }

  function DigitValue(c: char): nat
  {
    if '0' <= c <= '9' then (c as int - '0' as int) as nat else 0
  }

  predicate IsDigit(c: char)
  {
    '0' <= c <= '9'
  }

  /** Decimal numeral of a natural number, without leading zeros. */
  function Digits(n: nat): (s: string)
    ensures |s| > 0
    ensures forall i :: 0 <= i < |s| ==> IsDigit(s[i])
    ensures s[0] == '0' ==> n == 0
  {
    if n < 10 then [DigitChar(n)] else Digits(n / 10) + [DigitChar(n % 10)]
  }

  /** JavaScript's `String(n)` for an integer-valued number. */
  function IntText(n: int): string
  {
    if n < 0 then "-" + Digits(-n) else Digits(n)
  }

  /** What `${v}` produces for the value `v`. */
  function ToText(v: Value): string
  {
    match v
    case Str(s) => s
    case Int(n) => IntText(n)
    case Bool(b) => if b then "true" else "false"
    case Null => "null"
    case Undefined => "undefined"
  }

  /** Reads a decimal numeral back (the inverse of Digits). */
  function ParseDigits(s: string): nat
  {
    if |s| == 0 then 0 else ParseDigits(s[..|s| - 1]) * 10 + DigitValue(s[|s| - 1])
  }

  /** Reads an integer numeral back, with an optional leading minus sign. */
  function ParseInt(s: string): int
  {
    if |s| > 0 && s[0] == '-' then -(ParseDigits(s[1..]) as int) else ParseDigits(s)
  }

  lemma {:induction false} DigitsRoundTrip(n: nat)
    ensures ParseDigits(Digits(n)) == n
  {
    if n < 10 {
      assert Digits(n) == [DigitChar(n)];
      assert Digits(n)[..0] == [];
    } else {
      var s := Digits(n);
      assert s == Digits(n / 10) + [DigitChar(n % 10)];
      assert s[..|s| - 1] == Digits(n / 10);
      DigitsRoundTrip(n / 10);
    }
  }

  /** A numeral never starts with a minus sign, so `ParseInt` reads it as `ParseDigits` does. */
  lemma {:induction false} ParseIntOfDigits(m: nat)
    ensures ParseInt(Digits(m)) == ParseDigits(Digits(m))
  {
    assert IsDigit(Digits(m)[0]);
  }

  /** A minus sign followed by a numeral reads as the negated numeral. */
  lemma {:induction false} ParseIntOfMinus(d: string)
    ensures ParseInt("-" + d) == -(ParseDigits(d) as int)
  {
    assert ("-" + d)[1..] == d;
  }

  lemma {:induction false} IntTextRoundTripNegative(n: int)
    requires n < 0
    ensures ParseInt(IntText(n)) == n
  {
    var m: nat := -n;
    DigitsRoundTrip(m);
    ParseIntOfMinus(Digits(m));
    assert IntText(n) == "-" + Digits(m);
  }

  lemma {:induction false} IntTextRoundTripNatural(n: nat)
    ensures ParseInt(IntText(n)) == n
  {
    DigitsRoundTrip(n);
    ParseIntOfDigits(n);
    assert IntText(n) == Digits(n);
  }

  /** The text of an integer reads back as that integer, so no two integers share a text. */
  lemma {:induction false} IntTextRoundTrip(n: int)
    ensures ParseInt(IntText(n)) == n
  {
    if n < 0 {
      IntTextRoundTripNegative(n);
    } else {
      IntTextRoundTripNatural(n);
    }
  }
}

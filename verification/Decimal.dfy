/** Decimal numerals, and reading one back from the front of a longer text. */
module Decimal {
  import opened Text

  predicate IsDigit(u: Unit) {
    48 <= u <= 57
  }

  function Print(n: nat): (t: Text)
    ensures |t| > 0 && forall i :: 0 <= i < |t| ==> IsDigit(t[i])
  {
    if n < 10 then [48 + n] else Print(n / 10) + [48 + n % 10]
  }

  /** The number of leading digits of `t`. */
  function Span(t: Text): (n: nat)
    ensures n <= |t| && (forall i :: 0 <= i < n ==> IsDigit(t[i])) && (n < |t| ==> !IsDigit(t[n]))
  {
    if t == [] || !IsDigit(t[0]) then 0 else 1 + Span(t[1..])
  }

  function Value(t: Text): nat
    requires forall i :: 0 <= i < |t| ==> IsDigit(t[i])
  {
    if t == [] then 0 else (assert IsDigit(t[|t| - 1]); 10 * Value(t[..|t| - 1]) + (t[|t| - 1] as int - 48))
  }

  /** A text that cannot prolong a numeral written before it. */
  predicate Delimits(rest: Text) {
    rest == [] || !IsDigit(rest[0])
  }

  lemma {:induction false} ValueOfPrint(n: nat)
    ensures Value(Print(n)) == n
  {
    if n >= 10 {
      ValueOfPrint(n / 10);
      assert Print(n)[..|Print(n)| - 1] == Print(n / 10);
    } else {
      assert Print(n)[..0] == [];
    }
  }

  lemma {:induction false} SpanOfNumeral(digits: Text, rest: Text)
    requires forall i :: 0 <= i < |digits| ==> IsDigit(digits[i])
    requires Delimits(rest)
    ensures Span(digits + rest) == |digits|
  {
    if digits == [] {
      assert digits + rest == rest;
    } else {
      assert (digits + rest)[1..] == digits[1..] + rest;
      SpanOfNumeral(digits[1..], rest);
    }
  }

  /** A numeral followed by anything that is not a digit can be read back, and the rest is intact. */
  lemma ReadBack(n: nat, rest: Text)
    requires Delimits(rest)
    ensures var t := Print(n) + rest;
            t[..Span(t)] == Print(n) && Value(t[..Span(t)]) == n && t[Span(t)..] == rest
  {
    SpanOfNumeral(Print(n), rest);
    ValueOfPrint(n);
    var t := Print(n) + rest;
    assert t[..Span(t)] == Print(n);
  }
}

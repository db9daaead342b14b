/** Decimal printing and parsing of natural numbers, as `to_string` and `parse::<usize>` do it. */
module Decimal {
  import opened Basics

  predicate IsDigit(c: char) { '0' <= c <= '9' }

  function DigitChar(d: nat): (c: char)
    requires d < 10
    ensures IsDigit(c) && DigitValue(c) == d
  {
    '0' + d as char
  }

  function DigitValue(c: char): (d: nat)
    requires IsDigit(c)
    ensures d < 10
  {
    (c - '0') as nat
  }

  /** The shortest decimal spelling: never empty, digits only. */
  function Print(n: nat): (s: string)
    ensures |s| > 0
    ensures forall c <- s :: IsDigit(c)
  {
    if n < 10 then [DigitChar(n)] else Print(n / 10) + [DigitChar(n % 10)]
  }

  /** Rust's unsigned parse: an optional leading `+`, then one digit or more, and no value past `max`. */
  function Parse(s: string, max: nat): Option<nat>
  {
    var digits := if |s| > 0 && s[0] == '+' then s[1..] else s;
    if |digits| == 0 || exists c <- digits :: !IsDigit(c) then None
    else if Value(digits) > max then None
    else Some(Value(digits))
  }

  function Value(s: string): nat
    requires forall c <- s :: IsDigit(c)
  {
    if s == [] then 0 else 10 * Value(s[..|s| - 1]) + DigitValue(s[|s| - 1])
  }

  lemma {:induction false} ValueOfPrint(n: nat)
    ensures Value(Print(n)) == n
  {
    if n >= 10 {
      ValueOfPrint(n / 10);
      var p := Print(n / 10);
      assert (p + [DigitChar(n % 10)])[..|p|] == p;
    } else {
      assert Print(n)[..0] == [];
    }
  }

  /** A decimal spelling of a number, leading zeros or not. */
  predicate Spells(s: string, n: nat) { s != "" && (forall c <- s :: IsDigit(c)) && Value(s) == n }

  /** What is read is a spelling of a number in range, with a plus before it or not, and nothing else. */
  lemma ParseReads(s: string, max: nat, n: nat)
    ensures Parse(s, max) == Some(n) <==> n <= max && (Spells(s, n) || (s != "" && s[0] == '+' && Spells(s[1..], n)))
  {
    assert s != "" ==> s[0] in s;
  }

  /** Every number in range is read back from its spelling. */
  lemma ParsePrint(n: nat, max: nat)
    ensures Parse(Print(n), max) == if n <= max then Some(n) else None
  {
    ValueOfPrint(n);
    assert IsDigit(Print(n)[0]);
  }
}

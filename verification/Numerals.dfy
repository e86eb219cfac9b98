/** Positional numerals, most significant digit first. */
module Numerals {
  datatype Radix = R10 | R16 | R64 | R256

  function Base(b: Radix): nat {
    match b
    case R10 => 10
    case R16 => 16
    case R64 => 64
    case R256 => 256
  }

  /** v times the base. */
  function Shift(b: Radix, v: nat): nat {
    match b
    case R10 => 10 * v
    case R16 => 16 * v
    case R64 => 64 * v
    case R256 => 256 * v
  }

  function Head(b: Radix, v: nat): nat {
    match b
    case R10 => v / 10
    case R16 => v / 16
    case R64 => v / 64
    case R256 => v / 256
  }

  function LastOf(b: Radix, v: nat): (d: nat)
    ensures d < Base(b) && v == Shift(b, Head(b, v)) + d
  {
    match b
    case R10 => v % 10
    case R16 => v % 16
    case R64 => v % 64
    case R256 => v % 256
  }

  predicate InBase(b: Radix, s: seq<nat>) {
    forall i :: 0 <= i < |s| ==> s[i] < Base(b)
  }

  function Value(b: Radix, s: seq<nat>): nat {
    if s == [] then 0 else Shift(b, Value(b, s[..|s| - 1])) + s[|s| - 1]
  }

  /** The lowest n digits of v. */
  function Digits(b: Radix, v: nat, n: nat): (s: seq<nat>)
    ensures |s| == n && InBase(b, s)
  {
    if n == 0 then [] else Digits(b, Head(b, v), n - 1) + [LastOf(b, v)]
  }

  function Power(b: Radix, n: nat): nat {
    if n == 0 then 1 else Shift(b, Power(b, n - 1))
  }

  lemma ValueNext(b: Radix, s: seq<nat>, d: nat)
    ensures Value(b, s + [d]) == Shift(b, Value(b, s)) + d
  {
    assert (s + [d])[..|s|] == s;
  }

  lemma Split(b: Radix, q: nat, d: nat)
    requires d < Base(b)
    ensures Head(b, Shift(b, q) + d) == q && LastOf(b, Shift(b, q) + d) == d
  {
  }

  /** A numeral is determined by its base, its value and its length. */
  lemma {:induction false} DigitsOfValue(b: Radix, s: seq<nat>)
    requires InBase(b, s)
    ensures Digits(b, Value(b, s), |s|) == s
  {
    if s != [] {
      var n := |s| - 1;
      Split(b, Value(b, s[..n]), s[n]);
      DigitsOfValue(b, s[..n]);
    }
  }

  lemma {:induction false} ValueIsBounded(b: Radix, s: seq<nat>)
    requires InBase(b, s)
    ensures Value(b, s) < Power(b, |s|)
  {
    if s != [] {
      ValueIsBounded(b, s[..|s| - 1]);
    }
  }

  /** n digits are enough for a number below the n-th power of the base. */
  lemma {:induction false} ValueOfDigits(b: Radix, v: nat, n: nat)
    requires v < Power(b, n)
    ensures Value(b, Digits(b, v, n)) == v
  {
    if n > 0 {
      ValueOfDigits(b, Head(b, v), n - 1);
      ValueNext(b, Digits(b, Head(b, v), n - 1), LastOf(b, v));
    }
  }
}

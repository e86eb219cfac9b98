/** Decimal text: what %lld prints and what atoi and atoll read. */
module Decimal {
  import opened Ctype
  import opened Numerals

  function DigitValue(c: char): nat
    requires IsDigit(c)
  {
    c as int - '0' as int
  }

  /** The digits that start at v. */
  function DigitRun(b: string, v: nat): (ds: seq<nat>)
    ensures v + |ds| <= |b| || ds == []
    ensures forall i :: v <= i < v + |ds| ==> IsDigit(b[i]) && ds[i - v] == DigitValue(b[i])
    ensures v + |ds| < |b| ==> !IsDigit(b[v + |ds|])
    decreases |b| - v
  {
    if v < |b| && IsDigit(b[v]) then [DigitValue(b[v])] + DigitRun(b, v + 1) else []
  }

  /** atoll */
  function Atoll(t: string): int {
    var u := SkipWhite(t);
    if u != "" && u[0] == '-' then -(Value(R10, DigitRun(u, 1)) as int)
    else if u != "" && u[0] == '+' then Value(R10, DigitRun(u, 1))
    else Value(R10, DigitRun(u, 0))
  }

  /** %lld of a number that is not negative. */
  function Print(n: nat): (t: string)
    ensures t != "" && forall i :: 0 <= i < |t| ==> IsDigit(t[i])
  {
    var d := (n % 10 + '0' as int) as char;
    if n < 10 then [d] else Print(n / 10) + [d]
  }

  lemma {:induction false} RunOfDigits(t: string, v: nat)
    requires v <= |t| && forall i :: v <= i < |t| ==> IsDigit(t[i])
    ensures |DigitRun(t, v)| == |t| - v
    decreases |t| - v
  {
    if v < |t| {
      RunOfDigits(t, v + 1);
    }
  }

  predicate AllDigits(t: string) {
    forall i :: 0 <= i < |t| ==> IsDigit(t[i])
  }

  lemma OneMoreDigit(t: string, c: char)
    requires AllDigits(t) && IsDigit(c)
    ensures DigitRun(t + [c], 0) == DigitRun(t, 0) + [DigitValue(c)]
  {
    var u := t + [c];
    RunOfDigits(t, 0);
    RunOfDigits(u, 0);
    forall i | 0 <= i < |u|
      ensures DigitRun(u, 0)[i] == (DigitRun(t, 0) + [DigitValue(c)])[i]
    {
      assert DigitRun(u, 0)[i - 0] == DigitValue(u[i]);
      if i < |t| {
        assert DigitRun(t, 0)[i - 0] == DigitValue(t[i]);
      }
    }
  }

  lemma {:induction false} PrintValue(n: nat)
    ensures Value(R10, DigitRun(Print(n), 0)) == n
  {
    var c := (n % 10 + '0' as int) as char;
    if n < 10 {
      OneMoreDigit("", c);
      ValueNext(R10, [], n);
      assert "" + [c] == Print(n) && DigitRun("", 0) == [] && [] + [n] == [n];
    } else {
      PrintValue(n / 10);
      OneMoreDigit(Print(n / 10), c);
      ValueNext(R10, DigitRun(Print(n / 10), 0), n % 10);
    }
  }

  /** atoll reads back what %lld printed. */
  lemma AtollPrint(n: nat)
    ensures Atoll(Print(n)) == n
  {
    assert SkipWhite(Print(n)) == Print(n);
    PrintValue(n);
  }

  /** A number below 10^k takes at most k digits. */
  lemma {:induction false} PrintLength(n: nat, k: nat)
    requires k > 0 && n < Power(R10, k)
    ensures |Print(n)| <= k
  {
    if n >= 10 {
      assert k > 1;
      PrintLength(n / 10, k - 1);
    }
  }

  lemma Thousandfold(k: nat)
    ensures Power(R10, k + 3) == 1000 * Power(R10, k)
  {
    assert Power(R10, k + 3) == 10 * Power(R10, k + 2);
    assert Power(R10, k + 2) == 10 * Power(R10, k + 1);
  }

  /** The digits are those everybody writes, the last one last. */
  lemma PrintSpelled(n: nat)
    ensures Print(n) == (if n < 10 then "" else Print(n / 10)) + ["0123456789"[n % 10]]
  {
  }

  /** The characters that isspace takes. */
  predicate White(t: string) {
    forall i :: 0 <= i < |t| ==> t[i] == ' ' || t[i] == '\n' || t[i] == '\r' || t[i] == '\t' || t[i] as int == 11
                                 || t[i] as int == 12
  }

  lemma {:induction false} WhiteSkipped(white: string, t: string)
    requires White(white) && (t == "" || !IsSpace(t[0]))
    ensures SkipWhite(white + t) == t
  {
    if white == "" {
      assert white + t == t;
    } else {
      assert (white + t)[1..] == white[1..] + t;
      WhiteSkipped(white[1..], t);
    }
  }

  /** The same digits are the same run, wherever they stand, if no digit follows. */
  lemma {:induction false} RunMoved(a: string, digits: string, rest: string, k: nat)
    requires AllDigits(digits) && k <= |digits| && (rest == "" || !IsDigit(rest[0]))
    ensures DigitRun(a + digits + rest, |a| + k) == DigitRun(digits, k)
    decreases |digits| - k
  {
    var t := a + digits + rest;
    if k < |digits| {
      assert t[|a| + k] == digits[k];
      RunMoved(a, digits, rest, k + 1);
    } else if rest != "" {
      assert t[|a| + k] == rest[0];
    }
  }

  /** atoll skips white space, takes a sign, and stops behind the digits. */
  lemma AtollReads(white: string, sign: string, n: nat, rest: string)
    requires White(white) && (sign == "" || sign == "+" || sign == "-")
    requires rest == "" || rest[0] !in "0123456789"
    ensures Atoll(white + sign + Print(n) + rest) == if sign == "-" then -(n as int) else n
  {
    hide DigitRun, Value, Print;
    var t := sign + Print(n) + rest;
    assert white + sign + Print(n) + rest == white + t;
    assert t[0] == if sign == "" then Print(n)[0] else sign[0];
    NotADigit(rest);
    WhiteSkipped(white, t);
    PrintValue(n);
    RunMoved(sign, Print(n), rest, 0);
  }

  lemma NotADigit(rest: string)
    requires rest == "" || rest[0] !in "0123456789"
    ensures rest == "" || !IsDigit(rest[0])
  {
  }

  const INT64_LIMIT: nat := 0x8000_0000_0000_0000

  /** No 64-bit counter is cut by a 64-byte buffer. */
  lemma CounterFits(n: nat)
    requires n < INT64_LIMIT
    ensures |Print(n)| <= 19
  {
    assert Power(R10, 0) == 1 && Power(R10, 1) == 10;
    Thousandfold(1);
    Thousandfold(4);
    Thousandfold(7);
    Thousandfold(10);
    Thousandfold(13);
    Thousandfold(16);
    PrintLength(n, 19);
  }
}

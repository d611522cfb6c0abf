/**
 * Task instance ids. The server allocates `(++lastTaskId).toString()`,
 * i.e. the decimal text of a positive integer. This module gives that
 * conversion, its inverse, and the fact that distinct counters give
 * distinct ids.
 */
module Ids {

  function DigitChar(d: nat): (c: char)
    requires d < 10
    ensures '0' <= c <= '9'
  {
    "0123456789"[d]
  }

  function DigitValue(c: char): (d: nat)
    requires '0' <= c <= '9'
    ensures d < 10 && DigitChar(d) == c
  {
    (c as int - '0' as int)
  }

  lemma DigitRoundTrip(d: nat)
    requires d < 10
    ensures DigitValue(DigitChar(d)) == d
  {
  }

  predicate IsDigits(s: string) {
    forall i :: 0 <= i < |s| ==> '0' <= s[i] <= '9'
  }

  /** JavaScript's `Number.prototype.toString()` on a non-negative integer. */
  function DecimalString(n: nat): (s: string)
    ensures |s| >= 1 && IsDigits(s)
    ensures n >= 10 ==> |s| >= 2
    ensures s[0] == '0' ==> n == 0
  {
    if n < 10 then [DigitChar(n)] else DecimalString(n / 10) + [DigitChar(n % 10)]
  }

  /** Reads a string of decimal digits back into a number. */
  function ParseDecimal(s: string): nat
    requires IsDigits(s)
  {
    if s == [] then 0 else ParseDecimal(s[..|s| - 1]) * 10 + DigitValue(s[|s| - 1])
  }

  lemma {:induction false} ParseDecimalString(n: nat)
    ensures ParseDecimal(DecimalString(n)) == n
  {
    var s := DecimalString(n);
    if n < 10 {
      assert s[..0] == [];
    } else {
      var prefix := DecimalString(n / 10);
      assert s == prefix + [DigitChar(n % 10)];
      assert s[..|s| - 1] == prefix;
      ParseDecimalString(n / 10);
      DigitRoundTrip(n % 10);
      assert n == n / 10 * 10 + n % 10;
    }
  }

  /** The id string of the `n`-th created task. */
  function IdOf(n: nat): string {
    DecimalString(n)
  }

  lemma IdOfInjective(a: nat, b: nat)
    ensures IdOf(a) == IdOf(b) <==> a == b
  {
    if IdOf(a) == IdOf(b) {
      ParseDecimalString(a);
      ParseDecimalString(b);
    }
  }

  /** The ids handed out once the counter has reached `n`. */
  ghost function Issued(n: nat): set<string> {
    if n == 0 then {} else Issued(n - 1) + {IdOf(n)}
  }

  /** The `j`-th id has been handed out exactly when `1 <= j <= n`. */
  lemma {:induction false} IssuedExactly(n: nat, j: nat)
    ensures IdOf(j) in Issued(n) <==> 1 <= j <= n
  {
    if n > 0 {
      IssuedExactly(n - 1, j);
      IdOfInjective(j, n);
    }
  }

  /** The next id is new. */
  lemma IssuedNext(n: nat)
    ensures IdOf(n + 1) !in Issued(n)
    ensures Issued(n + 1) == Issued(n) + {IdOf(n + 1)}
  {
    IssuedExactly(n, n + 1);
  }
}

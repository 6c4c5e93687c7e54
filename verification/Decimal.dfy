/** Decimal digit strings and the numbers they stand for. */
module Decimal {
  predicate IsDigit(c: char) {
    '0' <= c <= '9'
  }

  predicate AllDigits(s: string) {
    forall i :: 0 <= i < |s| ==> IsDigit(s[i])
  }

  function ParseNat(s: string): nat
    requires AllDigits(s)
  {
    if s == "" then 0 else 10 * ParseNat(s[..|s| - 1]) + (s[|s| - 1] - '0') as nat
  }

  function PrintNat(n: nat): (s: string)
    ensures s != "" && AllDigits(s)
  {
    var last := [('0' as int + n % 10) as char];
    if n < 10 then last else PrintNat(n / 10) + last
  }

  lemma {:induction false} ParsePrintNat(n: nat)
    ensures ParseNat(PrintNat(n)) == n
  {
    var last := [('0' as int + n % 10) as char];
    if n < 10 {
      assert last[..0] == "";
      assert ParseNat("") == 0;
    } else {
      ParsePrintNat(n / 10);
      assert PrintNat(n)[..|PrintNat(n)| - 1] == PrintNat(n / 10);
    }
  }

  /** Ten to the n. */
  function Tens(n: nat): nat {
    if n == 0 then 1 else 10 * Tens(n - 1)
  }

  /** Read from the front: each digit counts as many times as the place it stands at is worth. */
  lemma {:induction false} FirstDigitWeighsMost(c: char, s: string)
    requires IsDigit(c) && AllDigits(s)
    ensures AllDigits([c] + s) && ParseNat([c] + s) == (c as int - '0' as int) * Tens(|s|) + ParseNat(s)
  {
    var whole := [c] + s;
    assert whole[..|s|] == if s == "" then "" else [c] + s[..|s| - 1];
    assert ParseNat("") == 0;
    if s != "" {
      FirstDigitWeighsMost(c, s[..|s| - 1]);
      assert whole[|s|] == s[|s| - 1];
      assert Tens(|s|) == 10 * Tens(|s| - 1);
      TimesTen(c as int - '0' as int, Tens(|s| - 1));
    }
  }

  lemma TimesTen(d: int, n: int)
    ensures d * (10 * n) == 10 * (d * n)
  {
  }
}

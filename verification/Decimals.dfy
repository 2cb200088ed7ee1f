/** Numbers in decimal, and reading them back. */
module Decimals {

  function Decimal(n: nat): (s: string)
    ensures |s| >= 1
  {
    var d := [(n % 10) as char + '0'];
    if n < 10 then d else Decimal(n / 10) + d
  }

  function SignedDecimal(n: int): string {
    if n < 0 then "-" + Decimal(-n) else Decimal(n)
  }

  predicate IsDigit(c: char) {
    '0' <= c <= '9'
  }

  /** The number that some digits stand for: each digit counts ten times as much as the one behind it. */
  function ReadDecimal(s: string): int {
    if s == "" then 0 else 10 * ReadDecimal(s[..|s|-1]) + (s[|s|-1] as int - '0' as int)
  }

  function ReadSigned(s: string): int {
    if s != "" && s[0] == '-' then -ReadDecimal(s[1..]) else ReadDecimal(s)
  }

  /** A number is written in digits, without a zero in front, and reads back. */
  lemma {:induction false} DecimalReads(n: nat)
    ensures ReadDecimal(Decimal(n)) == n
    ensures forall i | 0 <= i < |Decimal(n)| :: IsDigit(Decimal(n)[i])
    ensures |Decimal(n)| > 1 ==> Decimal(n)[0] != '0'
  {
    var d := [(n % 10) as char + '0'];
    assert d[..0] == "" && ReadDecimal(d) == n % 10;
    if n >= 10 {
      DecimalReads(n / 10);
      assert Decimal(n)[..|Decimal(n)|-1] == Decimal(n / 10);
      if n / 10 < 10 { assert Decimal(n / 10)[0] == (n / 10) as char + '0'; }
    }
  }

  lemma SignedReads(n: int)
    ensures ReadSigned(SignedDecimal(n)) == n
  {
    DecimalReads(if n < 0 then -n else n);
    if n < 0 {
      assert SignedDecimal(n)[1..] == Decimal(-n);
    } else {
      assert IsDigit(Decimal(n)[0]);
    }
  }

  /** Different numbers are written differently. */
  lemma DecimalsDiffer(m: nat, n: nat)
    ensures Decimal(m) == Decimal(n) <==> m == n
  {
    DecimalReads(m);
    DecimalReads(n);
  }
}

/**
 * The identity tokens of the keyed registry (src/superstate/supGlobal.ts):
 * the template literal `state_${idCounter++}` renders the counter in decimal
 * after a fixed prefix. Distinct counter values give distinct tokens because
 * the rendering can be parsed back.
 */
module Tokens {

  const Prefix: string := "state_"

  function Digit(d: nat): (c: char)
    requires d < 10
    ensures '0' <= c <= '9'
  {
    ('0' as int + d) as char
  }

  function DigitValue(c: char): nat {
    if '0' <= c <= '9' then (c as int - '0' as int) as nat else 0
  }

  /** A non-negative JavaScript number as `${n}` renders it: decimal, no leading zeros. */
  function Decimal(n: nat): (s: string)
    ensures |s| >= 1
    decreases n
  {
    if n < 10 then [Digit(n)] else Decimal(n / 10) + [Digit(n % 10)]
  }

  /** Reads a string of decimal digits back as a number. */
  function ParseDecimal(s: string): nat
    decreases |s|
  {
    if s == [] then 0 else ParseDecimal(s[..|s| - 1]) * 10 + DigitValue(s[|s| - 1])
  }

  /** The token the `n`-th `globalState` call receives. */
  function Token(n: nat): string {
    Prefix + Decimal(n)
  }

  /** The counter value a token was made from. */
  function TokenIndex(t: string): nat {
    if |t| >= |Prefix| then ParseDecimal(t[|Prefix|..]) else 0
  }

  /** The rendering is made of decimal digits and starts with `0` only for zero itself. */
  lemma {:induction false} DecimalIsCanonical(n: nat)
    ensures forall i :: 0 <= i < |Decimal(n)| ==> '0' <= Decimal(n)[i] <= '9'
    ensures Decimal(n)[0] == '0' <==> n == 0
    decreases n
  {
    if n >= 10 {
      DecimalIsCanonical(n / 10);
      var s := Decimal(n / 10);
      assert Decimal(n) == s + [Digit(n % 10)];
      assert Decimal(n)[0] == s[0];
    }
  }

  /** Every token is the prefix `state_` followed by the counter in canonical decimal. */
  lemma TokenFormat(n: nat)
    ensures |Token(n)| > |Prefix| && Token(n)[..|Prefix|] == "state_"
    ensures forall i :: |Prefix| <= i < |Token(n)| ==> '0' <= Token(n)[i] <= '9'
    ensures Token(n)[|Prefix|] == '0' <==> n == 0
  {
    DecimalIsCanonical(n);
    assert Token(n)[|Prefix|..] == Decimal(n);
    forall i | |Prefix| <= i < |Token(n)|
      ensures '0' <= Token(n)[i] <= '9'
    {
      assert Token(n)[i] == Decimal(n)[i - |Prefix|];
    }
  }

  /** Parsing undoes rendering. */
  lemma {:induction false} ParseDecimalOfDecimal(n: nat)
    ensures ParseDecimal(Decimal(n)) == n
    decreases n
  {
    if n < 10 {
      assert Decimal(n)[..0] == [];
    } else {
      var s := Decimal(n / 10);
      assert (s + [Digit(n % 10)])[..|s|] == s;
      ParseDecimalOfDecimal(n / 10);
    }
  }

  /** A token gives back the counter value it was made from. */
  lemma TokenIndexOfToken(n: nat)
    ensures TokenIndex(Token(n)) == n
  {
    assert Token(n)[|Prefix|..] == Decimal(n);
    ParseDecimalOfDecimal(n);
  }

  /** Tokens are equal only when made from the same counter value. */
  lemma TokenInjective(m: nat, n: nat)
    ensures Token(m) == Token(n) <==> m == n
  {
    TokenIndexOfToken(m);
    TokenIndexOfToken(n);
  }
}

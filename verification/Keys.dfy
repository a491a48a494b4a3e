/** Record keys: the endpoint, a number sign, and the sequence number in decimal. */
module Keys {

  function Digit(d: int): char
    requires 0 <= d < 10
  {
    "0123456789"[d]
  }

  function Decimal(n: nat): (s: string)
    ensures |s| > 0
  {
    if n < 10 then [Digit(n)] else Decimal(n / 10) + [Digit(n % 10)]
  }

  function Key(endpoint: string, n: nat): string {
    endpoint + "#" + Decimal(n)
  }

  /** Reads a decimal numeral back. */
  function Value(s: string): int {
    if |s| == 0 then 0 else 10 * Value(s[..|s| - 1]) + (s[|s| - 1] as int - '0' as int)
  }

  lemma {:induction false} DecimalRoundTrip(n: nat)
    ensures Value(Decimal(n)) == n
    ensures '#' !in Decimal(n)
    ensures forall i :: 0 <= i < |Decimal(n)| ==> '0' <= Decimal(n)[i] <= '9'
    ensures Decimal(n)[0] == '0' ==> n == 0 && |Decimal(n)| == 1
  {
    if n >= 10 {
      DecimalRoundTrip(n / 10);
      assert Decimal(n)[..|Decimal(n)| - 1] == Decimal(n / 10);
    } else {
      assert Decimal(n)[..0] == [];
    }
  }

  /** Where the last number sign stands; -1 if there is none. */
  function LastSign(s: string): int {
    if |s| == 0 then -1
    else if s[|s| - 1] == '#' then |s| - 1
    else LastSign(s[..|s| - 1])
  }

  /** The last number sign separates endpoint and number, whatever the endpoint contains. */
  lemma {:induction false} LastSignSeparates(a: string, d: string)
    requires '#' !in d
    ensures LastSign(a + "#" + d) == |a|
  {
    var s := a + "#" + d;
    if |d| > 0 {
      assert s[..|s| - 1] == a + "#" + d[..|d| - 1];
      LastSignSeparates(a, d[..|d| - 1]);
    }
  }

  lemma SameTail(a: string, d: string, b: string, e: string)
    requires '#' !in d && '#' !in e && a + "#" + d == b + "#" + e
    ensures a == b && d == e
  {
    LastSignSeparates(a, d);
    LastSignSeparates(b, e);
    var s := a + "#" + d;
    assert a == s[..|a|] && d == s[|a| + 1..];
    assert b == s[..|b|] && e == s[|b| + 1..];
  }

  /** Different endpoints or different numbers give different keys. */
  lemma KeyInjective(a: string, m: nat, b: string, n: nat)
    requires Key(a, m) == Key(b, n)
    ensures a == b && m == n
  {
    DecimalRoundTrip(m);
    DecimalRoundTrip(n);
    SameTail(a, Decimal(m), b, Decimal(n));
  }

  /** A key is the endpoint, a number sign, and the number as a decimal numeral. */
  lemma KeyReadsBack(endpoint: string, n: nat)
    ensures var key := Key(endpoint, n);
            && |key| > |endpoint| + 1 && key[..|endpoint|] == endpoint && key[|endpoint|] == '#'
            && Value(key[|endpoint| + 1..]) == n
            && LastSign(key) == |endpoint|
  {
    DecimalRoundTrip(n);
    LastSignSeparates(endpoint, Decimal(n));
    assert Key(endpoint, n)[|endpoint| + 1..] == Decimal(n);
  }
}

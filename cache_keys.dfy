/**
 * The Redis keys under which dividends are cached:
 * `tao_dividend:{netuid}:{address}` for one (subnet, hotkey) pair and
 * `tao_dividend:{netuid}` for a whole subnet. Python's f-string renders the
 * integer netuid with `str`, which is modelled here digit by digit.
 */
module CacheKeys {
  import opened Basics

  function DigitChar(d: nat): (c: char)
    requires d < 10
    ensures IsDigit(c) && DigitValue(c) == d
  {
    ('0' as int + d) as char
  }

  /** `str(n)` for a non-negative integer: decimal, no leading zeros. */
  function NatToString(n: nat): (s: string)
    ensures |s| > 0 && AllDigits(s)
  {
    if n < 10 then [DigitChar(n)] else NatToString(n / 10) + [DigitChar(n % 10)]
  }

  /** `str(n)` for any integer: a minus sign before the digits of a negative one. */
  function IntToString(n: int): (s: string)
    ensures |s| > 0
    ensures n >= 0 ==> AllDigits(s)
    ensures n < 0 ==> s[0] == '-' && AllDigits(s[1..])
  {
    if n < 0 then "-" + NatToString(-n) else NatToString(n)
  }

  /** `int(s)` for the strings IntToString produces. */
  function ParseInt(s: string): int
    requires |s| > 0
    requires AllDigits(s) || (s[0] == '-' && AllDigits(s[1..]))
  {
    if s[0] == '-' then 0 - DigitsValue(s[1..]) as int else DigitsValue(s)
  }

  lemma {:induction false} NatToStringRoundTrip(n: nat)
    ensures DigitsValue(NatToString(n)) == n
  {
    var s := NatToString(n);
    if n >= 10 {
      NatToStringRoundTrip(n / 10);
      assert s[..|s| - 1] == NatToString(n / 10);
      assert s[|s| - 1] == DigitChar(n % 10);
    }
  }

  /** Parsing the rendered integer gives the integer back. */
  lemma IntToStringRoundTrip(n: int)
    ensures ParseInt(IntToString(n)) == n
  {
    var s := IntToString(n);
    if n < 0 {
      assert s[1..] == NatToString(-n);
      NatToStringRoundTrip(-n);
    } else {
      NatToStringRoundTrip(n);
    }
  }

  /** The rendered integer never holds the ':' separator. */
  lemma IntToStringHasNoColon(n: int, i: int)
    requires 0 <= i < |IntToString(n)|
    ensures IntToString(n)[i] != ':'
  {
    var s := IntToString(n);
    if n < 0 && i > 0 {
      assert s[i] == s[1..][i - 1];
    }
  }

  /** Two integers render alike only if they are equal. */
  lemma IntToStringInjective(m: int, n: int)
    ensures IntToString(m) == IntToString(n) <==> m == n
  {
    if IntToString(m) == IntToString(n) {
      IntToStringRoundTrip(m);
      IntToStringRoundTrip(n);
    }
  }

  const KeyPrefix: string := "tao_dividend:"

  /** The key of one (netuid, hotkey) dividend. */
  function PairKey(netuid: int, address: string): string {
    KeyPrefix + IntToString(netuid) + ":" + address
  }

  /** The key of a whole subnet's dividends. */
  function SubnetKey(netuid: int): string {
    KeyPrefix + IntToString(netuid)
  }

  /** Distinct (netuid, address) pairs never share a cache entry, even when the address holds ':'. */
  lemma PairKeyInjective(m: int, a: string, n: int, b: string)
    ensures PairKey(m, a) == PairKey(n, b) <==> m == n && a == b
  {
    if PairKey(m, a) == PairKey(n, b) {
      var s, t := IntToString(m), IntToString(n);
      var u, v := s + ":" + a, t + ":" + b;
      assert u == PairKey(m, a)[|KeyPrefix|..] && v == PairKey(n, b)[|KeyPrefix|..];
      if |s| < |t| {
        assert u[|s|] == ':' && v[|s|] == t[|s|];
        IntToStringHasNoColon(n, |s|);
      } else if |t| < |s| {
        assert v[|t|] == ':' && u[|t|] == s[|t|];
        IntToStringHasNoColon(m, |t|);
      }
      assert s == u[..|s|] && t == v[..|t|];
      assert a == u[|s| + 1..] && b == v[|t| + 1..];
      IntToStringInjective(m, n);
    }
  }

  /** A pair key never collides with a subnet key. */
  lemma PairKeyIsNotSubnetKey(m: int, a: string, n: int)
    ensures PairKey(m, a) != SubnetKey(n)
  {
    if PairKey(m, a) == SubnetKey(n) {
      var s, t := IntToString(m), IntToString(n);
      assert s + ":" + a == SubnetKey(n)[|KeyPrefix|..] == t;
      assert t[|s|] == ':';
      IntToStringHasNoColon(n, |s|);
    }
  }
}

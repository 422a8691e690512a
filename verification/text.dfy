/** The handful of `QString` operations the core relies on: decimal
    rendering (`QString::number`), integer parsing (`QString::toInt`),
    substring search (`QString::contains`), `lastIndexOf` and `right`. */
module Text {
  import opened Wrappers

  const Int32Min: int := -0x8000_0000
  const Int32Max: int := 0x7FFF_FFFF

  predicate IsDigit(c: char) {
    '0' <= c <= '9'
  }

  predicate AllDigits(s: string) {
    forall i :: 0 <= i < |s| ==> IsDigit(s[i])
  }

  function DigitChar(d: nat): (c: char)
    requires d < 10
    ensures IsDigit(c)
  {
    "0123456789"[d]
  }

  function DigitValue(c: char): (d: nat)
    requires IsDigit(c)
    ensures d < 10
  {
    (c as int - '0' as int) as nat
  }

  /** The number a string of decimal digits denotes. */
  function DigitsValue(s: string): nat
    requires AllDigits(s)
  {
    if s == [] then 0
    else DigitsValue(s[..|s| - 1]) * 10 + DigitValue(s[|s| - 1])
  }

  /** Decimal rendering of a natural number, without leading zeros. */
  function NatToString(n: nat): (r: string)
    ensures |r| >= 1 && AllDigits(r)
    ensures |r| > 1 ==> r[0] != '0'
    decreases n
  {
    if n < 10 then [DigitChar(n)]
    else NatToString(n / 10) + [DigitChar(n % 10)]
  }

  /** `QString::number(int)`: a minus sign for negatives, then the digits. */
  function IntToString(n: int): (r: string)
    ensures |r| >= 1
    ensures n < 0 <==> r[0] == '-'
  {
    if n < 0 then "-" + NatToString(-n) else NatToString(n)
  }

  /** Parsing an optional sign followed by at least one digit; anything else
      is rejected. */
  function ParseInt(s: string): (r: Option<int>)
    ensures r.Some? && |s| > 0 && s[0] == '-' ==> r.value <= 0
    ensures r.Some? && |s| > 0 && s[0] != '-' ==> r.value >= 0
    ensures |s| == 0 ==> r.None?
  {
    if |s| > 0 && (s[0] == '-' || s[0] == '+') then
      if |s| > 1 && AllDigits(s[1..]) then
        var magnitude: int := DigitsValue(s[1..]);
        Some(if s[0] == '-' then -magnitude else magnitude)
      else None
    else if |s| > 0 && AllDigits(s) then Some(DigitsValue(s))
    else None
  }

  lemma {:induction false} NatToStringValue(n: nat)
    ensures DigitsValue(NatToString(n)) == n
    decreases n
  {
    var r := NatToString(n);
    if n < 10 {
      assert r[..|r| - 1] == [];
    } else {
      NatToStringValue(n / 10);
      assert r[..|r| - 1] == NatToString(n / 10);
      assert DigitValue(r[|r| - 1]) == n % 10;
    }
  }

  /** Rendering a number and parsing it back gives the number again. */
  lemma IntToStringRoundTrip(n: int)
    ensures ParseInt(IntToString(n)) == Some(n)
  {
    var r := IntToString(n);
    if n < 0 {
      NatToStringValue(-n);
      assert r[1..] == NatToString(-n);
    } else {
      NatToStringValue(n);
    }
  }

  /** `needle` occurs in `hay` starting at position `i`. */
  predicate OccursAt(hay: string, needle: string, i: nat) {
    i + |needle| <= |hay| && hay[i..i + |needle|] == needle
  }

  /** The meaning of `QString::contains`: some position holds the needle
      (always true for an empty needle). */
  ghost predicate IsSubstring(needle: string, hay: string) {
    exists i: nat :: OccursAt(hay, needle, i)
  }

  /** A left-to-right search for `needle` starting at position `k`. */
  function ContainsFrom(hay: string, needle: string, k: nat): (r: bool)
    requires k <= |hay|
    ensures r <==> exists i: nat :: k <= i && OccursAt(hay, needle, i)
    decreases |hay| - k
  {
    if k + |needle| > |hay| then
      assert forall i: nat :: k <= i ==> !OccursAt(hay, needle, i);
      false
    else if hay[k..k + |needle|] == needle then
      assert OccursAt(hay, needle, k);
      true
    else ContainsFrom(hay, needle, k + 1)
  }

  /** `QString::contains(needle)`. */
  function Contains(hay: string, needle: string): (r: bool)
    ensures r <==> IsSubstring(needle, hay)
  {
    ContainsFrom(hay, needle, 0)
  }

  /** `QString::lastIndexOf(c)`: the last position holding `c`, or -1. */
  function LastIndexOf(s: string, c: char): (r: int)
    ensures -1 <= r < |s|
    ensures r == -1 <==> c !in s
    ensures r >= 0 ==> s[r] == c && forall j :: r < j < |s| ==> s[j] != c
    decreases |s|
  {
    if s == [] then -1
    else if s[|s| - 1] == c then |s| - 1
    else
      assert forall j :: 0 <= j < |s| - 1 ==> s[j] == s[..|s| - 1][j];
      LastIndexOf(s[..|s| - 1], c)
  }

  /** `QString::right(n)`: the last `n` characters, or the whole string when
      `n` is negative or not smaller than its length. */
  function Right(s: string, n: int): (r: string)
    ensures 0 <= n < |s| ==> |r| == n
    ensures n < 0 || n >= |s| ==> r == s
    ensures r == s[|s| - |r|..]
  {
    if n < 0 || n >= |s| then s else s[|s| - n..]
  }
}

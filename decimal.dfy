/**
 * Decimal text for integers: how the page writes `limit` and `offset` into the
 * query string (JavaScript's `String(n)`), and how the server reads them back
 * (JavaScript's `parseInt(s)` in base 10).
 */
module Decimal {
  import opened Wrappers

  predicate IsDigit(c: char) { '0' <= c <= '9' }

  predicate AllDigits(s: string) { forall i :: 0 <= i < |s| ==> IsDigit(s[i]) }

  function DigitChar(d: nat): (c: char)
    requires d < 10
    ensures IsDigit(c)
  {
    ['0', '1', '2', '3', '4', '5', '6', '7', '8', '9'][d]
  }

  function DigitValue(c: char): (d: nat)
    requires IsDigit(c)
    ensures d < 10 && DigitChar(d) == c
  {
    (c as int - '0' as int) as nat
  }

  /** The value of a run of digits, most significant first; the empty run has value 0. */
  function DigitsValue(s: string): nat
    requires AllDigits(s)
  {
    if |s| == 0 then 0 else DigitsValue(s[..|s| - 1]) * 10 + DigitValue(s[|s| - 1])
  }

  /** Shortest decimal text of a natural number: no leading zero except for 0 itself. */
  function NatText(n: nat): (r: string)
    ensures |r| > 0 && AllDigits(r)
    ensures |r| > 1 ==> r[0] != '0'
    decreases n
  {
    if n < 10 then [DigitChar(n)] else NatText(n / 10) + [DigitChar(n % 10)]
  }

  /** JavaScript's `String(n)` for an integer-valued number. */
  function IntText(n: int): (r: string)
    ensures |r| > 0
    ensures r[0] == '-' <==> n < 0
  {
    if n < 0 then "-" + NatText(-n) else NatText(n)
  }

  lemma {:induction false} NatTextValue(n: nat)
    ensures DigitsValue(NatText(n)) == n
    decreases n
  {
    var r := NatText(n);
    if n >= 10 {
      NatTextValue(n / 10);
      assert r[..|r| - 1] == NatText(n / 10);
    }
  }

  /** Index of the first character that is not a JavaScript white-space character we model (space, tab, line breaks). */
  function SkipSpace(s: string, i: nat): (j: nat)
    requires i <= |s|
    ensures i <= j <= |s|
    ensures forall k :: i <= k < j ==> s[k] in " \t\n\r"
    ensures j < |s| ==> s[j] !in " \t\n\r"
    decreases |s| - i
  {
    if i < |s| && s[i] in " \t\n\r" then SkipSpace(s, i + 1) else i
  }

  /** End of the run of digits that starts at `i`. */
  function DigitRunEnd(s: string, i: nat): (j: nat)
    requires i <= |s|
    ensures i <= j <= |s|
    ensures AllDigits(s[i..j])
    ensures j < |s| ==> !IsDigit(s[j])
    decreases |s| - i
  {
    if i < |s| && IsDigit(s[i]) then DigitRunEnd(s, i + 1) else i
  }

  /**
   * JavaScript's `parseInt(s)` (base 10): leading white space is skipped, one
   * optional sign is read, then the longest run of digits; `None` stands for NaN.
   */
  function ParseInt(s: string): (r: Option<int>)
    ensures r.None? <==> (var i := SkipSpace(s, 0);
                          var k := if i < |s| && s[i] in "+-" then i + 1 else i;
                          k == |s| || !IsDigit(s[k]))
  {
    var i := SkipSpace(s, 0);
    var negative := i < |s| && s[i] == '-';
    var k := if i < |s| && s[i] in "+-" then i + 1 else i;
    var j := DigitRunEnd(s, k);
    if j == k then None
    else
      var v: int := DigitsValue(s[k..j]);
      Some(if negative then -v else v)
  }

  /** The server reads back exactly the integer the page wrote. */
  lemma ParseIntText(n: int)
    ensures ParseInt(IntText(n)) == Some(n)
  {
    var s := IntText(n);
    var digits := NatText(if n < 0 then -n else n);
    var k := if n < 0 then 1 else 0;
    assert SkipSpace(s, 0) == 0;
    assert s[k..] == digits;
    DigitRunAll(s, k);
    NatTextValue(if n < 0 then -n else n);
    assert s[k..DigitRunEnd(s, k)] == digits;
  }

  lemma {:induction false} DigitRunAll(s: string, k: nat)
    requires k <= |s| && AllDigits(s[k..])
    ensures DigitRunEnd(s, k) == |s|
    decreases |s| - k
  {
    if k < |s| {
      assert s[k] == s[k..][0];
      assert s[k + 1..] == s[k..][1..];
      DigitRunAll(s, k + 1);
    }
  }
}

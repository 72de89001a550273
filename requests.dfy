/**
 * The request URL for one team index (Program.cs:108-121): the index, as a
 * plain decimal string, substituted into a fixed query template.
 */
module Requests {

  const BaseUrl: string := "https://sports.snoozle.net/search/nfl/searchHandler?"
  const FileType: string := "inline"
  const StatType: string := "teamStats"
  const Season: string := "2020"

  /** Everything in the URL before the team index. */
  const QueryPrefix: string :=
    BaseUrl + "fileType=" + FileType + "&statType=" + StatType + "&season=" + Season + "&teamName="

  predicate IsDigit(ch: char) {
    '0' <= ch <= '9'
  }

  predicate AllDigits(s: string) {
    forall i :: 0 <= i < |s| ==> IsDigit(s[i])
  }

  function DigitChar(d: nat): (ch: char)
    requires d < 10
    ensures IsDigit(ch) && ch as int - '0' as int == d
  {
    ('0' as int + d) as char
  }

  /** `n.ToString()` for a non-negative int: decimal digits, no sign, no leading zero. */
  function DecimalString(n: nat): (s: string)
    ensures |s| >= 1 && AllDigits(s)
    ensures s[0] == '0' ==> n == 0 && |s| == 1
  {
    if n < 10 then [DigitChar(n)] else DecimalString(n / 10) + [DigitChar(n % 10)]
  }

  /** The value of a string of decimal digits. */
  function ParseDecimal(s: string): nat
    requires AllDigits(s)
  {
    if s == [] then 0
    else ParseDecimal(s[..|s| - 1]) * 10 + (s[|s| - 1] as int - '0' as int)
  }

  /** Reading the decimal string back gives the number it was made from. */
  lemma {:induction false} ParseDecimalString(n: nat)
    ensures ParseDecimal(DecimalString(n)) == n
  {
    var s := DecimalString(n);
    if n >= 10 {
      ParseDecimalString(n / 10);
      assert s[..|s| - 1] == DecimalString(n / 10);
    }
  }

  /** The request URL for team index `teamNumber` (Program.cs:120-121). */
  function RequestUrl(teamNumber: nat): string {
    QueryPrefix + DecimalString(teamNumber)
  }

  /**
   * A request URL is the fixed query prefix followed by the team index in
   * decimal digits, and the index can be read back from it.
   */
  lemma RequestUrlSpec(teamNumber: nat)
    ensures |RequestUrl(teamNumber)| > |QueryPrefix|
    ensures RequestUrl(teamNumber)[..|QueryPrefix|] == QueryPrefix
    ensures AllDigits(RequestUrl(teamNumber)[|QueryPrefix|..])
    ensures ParseDecimal(RequestUrl(teamNumber)[|QueryPrefix|..]) == teamNumber
  {
    var url := RequestUrl(teamNumber);
    assert url[|QueryPrefix|..] == DecimalString(teamNumber);
    ParseDecimalString(teamNumber);
  }

  /** Different team indices are sent as different URLs. */
  lemma RequestUrlInjective(a: nat, b: nat)
    requires a != b
    ensures RequestUrl(a) != RequestUrl(b)
  {
    RequestUrlSpec(a);
    RequestUrlSpec(b);
  }

  /** The URLs for team indices 1..n, in increasing order of index. */
  function RequestsUpTo(n: nat): seq<string> {
    if n == 0 then [] else RequestsUpTo(n - 1) + [RequestUrl(n)]
  }

  /** Request `i` (counting from 0) is the URL for team index i + 1. */
  lemma {:induction false} RequestsInOrder(n: nat)
    ensures |RequestsUpTo(n)| == n
    ensures forall i :: 0 <= i < n ==> RequestsUpTo(n)[i] == RequestUrl(i + 1)
  {
    if n > 0 {
      RequestsInOrder(n - 1);
    }
  }
}

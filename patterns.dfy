/**
 * Character classes and the regular expressions of the customer app,
 * over ASCII (Python's `\d` also matches other Unicode digits; see README).
 */
module Patterns {

  predicate IsDigit(c: char) {
    '0' <= c <= '9'
  }

  function DigitValue(c: char): (d: nat)
    requires IsDigit(c)
    ensures d < 10
  {
    c as int - '0' as int
  }

  function DigitChar(d: nat): (c: char)
    requires d < 10
    ensures IsDigit(c) && DigitValue(c) == d
  {
    ('0' as int + d) as char
  }

  predicate AllDigits(s: string) {
    forall i :: 0 <= i < |s| ==> IsDigit(s[i])
  }

  predicate IsLatinLetter(c: char) {
    'a' <= c <= 'z' || 'A' <= c <= 'Z'
  }

  /** `re.search(r"\d", s)` succeeds. */
  predicate HasDigit(s: string) {
    exists i :: 0 <= i < |s| && IsDigit(s[i])
  }

  /** `re.search("[a-zA-Z]", s)` succeeds. */
  predicate HasLatinLetter(s: string) {
    exists i :: 0 <= i < |s| && IsLatinLetter(s[i])
  }

  /**
   * `re.search("^" + P + "$", s)` for a pattern P that matches no newline:
   * in Python `$` matches at the end of the string and also just before a
   * final newline, so the search succeeds on s or on s without one final "\n".
   */
  predicate AnchoredSearch(fullMatch: string -> bool, s: string) {
    fullMatch(s) || (|s| > 0 && s[|s| - 1] == '\n' && fullMatch(s[..|s| - 1]))
  }

  predicate EndsWithNewline(s: string) {
    |s| > 0 && s[|s| - 1] == '\n'
  }

  lemma AnchoredSearchWithoutNewline(fullMatch: string -> bool, s: string)
    requires !EndsWithNewline(s)
    ensures AnchoredSearch(fullMatch, s) == fullMatch(s)
  {
  }

  // ---------------------------------------------------------------------------
  // The mobile number pattern ^(?:0|98|\+98|\+980|0098|098|00980)?(9\d{9})$

  /** The optional country/trunk prefixes, with the empty prefix for "absent". */
  const MobilePrefixes: set<string> := {"", "0", "98", "+98", "+980", "0098", "098", "00980"}

  /** `9\d{9}`: the ten-character subscriber number. */
  predicate IsSubscriberNumber(s: string) {
    |s| == 10 && s[0] == '9' && AllDigits(s)
  }

  /** The regex matches all of s: some split into an allowed prefix and a subscriber number. */
  predicate MobileFullMatch(s: string) {
    exists k :: 0 <= k <= |s| && s[..k] in MobilePrefixes && IsSubscriberNumber(s[k..])
  }

  /** The same language decided directly: the subscriber number is the last ten characters. */
  predicate IsMobile(s: string) {
    |s| >= 10 && s[..|s| - 10] in MobilePrefixes && IsSubscriberNumber(s[|s| - 10..])
  }

  lemma MobileFullMatchIff(s: string)
    ensures MobileFullMatch(s) <==> IsMobile(s)
  {
    if MobileFullMatch(s) {
      var k :| 0 <= k <= |s| && s[..k] in MobilePrefixes && IsSubscriberNumber(s[k..]);
      assert k == |s| - 10;
    }
    if IsMobile(s) {
      assert s[..|s| - 10] in MobilePrefixes && IsSubscriberNumber(s[|s| - 10..]);
    }
  }

  /** Every accepted number fits the 15-character mobile column. */
  lemma MobileLength(s: string)
    requires IsMobile(s)
    ensures 10 <= |s| <= 15
  {
    var p := s[..|s| - 10];
    assert |p| <= 5 by {
      assert p in MobilePrefixes;
    }
  }

  /** The validator as written: RegexValidator calls re.search with the anchored pattern. */
  predicate MobileRegexAsWritten(s: string) {
    AnchoredSearch(MobileFullMatch, s)
  }

  /** As written, a valid number followed by a newline is accepted too. */
  lemma MobileTrailingNewlineAccepted()
    ensures MobileRegexAsWritten("9123456789\n") && !IsMobile("9123456789\n")
  {
    var s := "9123456789\n";
    assert s[..|s| - 1] == "9123456789";
    assert "9123456789"[..0] == "";
    assert "9123456789"[0..] == "9123456789";
    assert IsSubscriberNumber("9123456789");
    assert MobileFullMatch(s[..|s| - 1]);
    assert !IsDigit(s[|s| - 1]);
  }

  /** On input without a final newline (DRF trims it away) the two agree. */
  lemma MobileRegexAgrees(s: string)
    requires !EndsWithNewline(s)
    ensures MobileRegexAsWritten(s) <==> IsMobile(s)
  {
    MobileFullMatchIff(s);
  }
}

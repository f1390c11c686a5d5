/**
 * The Iranian national-code check digit (validators.py): ten digits, the
 * last of which is determined by a weighted mod-11 sum of the first nine.
 */
module NationalCode {
  import opened Patterns

  predicate IsTenDigits(s: string) {
    |s| == 10 && AllDigits(s)
  }

  /** Sum over x < n of digit x weighted by 10 - x. */
  function WeightedSum(s: string, n: nat): (r: nat)
    requires n <= 10 && n <= |s|
    requires forall i :: 0 <= i < n ==> IsDigit(s[i])
  {
    if n == 0 then 0 else WeightedSum(s, n - 1) + DigitValue(s[n - 1]) * (10 - (n - 1))
  }

  /** The remainder `s` of the source: weighted sum of the first nine digits mod 11. */
  function Remainder(s: string): (r: nat)
    requires |s| >= 9 && forall i :: 0 <= i < 9 ==> IsDigit(s[i])
    ensures r <= 10
  {
    WeightedSum(s, 9) % 11
  }

  /** The check rule applied to a ten-digit string. */
  predicate CheckHolds(s: string)
    requires IsTenDigits(s)
  {
    var check := DigitValue(s[9]);
    var rem := Remainder(s);
    if rem < 2 then check == rem else check + rem == 11
  }

  /** `validate_national_code` as written: `re.search(r"^\d{10}$", value)` then the check. */
  predicate IsValidAsWritten(s: string) {
    AnchoredSearch(IsTenDigits, s) && CheckHolds(s[..10])
  }

  /** The validator as intended: exactly ten digits and the check rule. */
  predicate IsValid(s: string) {
    IsTenDigits(s) && CheckHolds(s)
  }

  /** The one digit that completes a nine-digit prefix. */
  function CheckDigit(prefix: string): (d: nat)
    requires |prefix| == 9 && AllDigits(prefix)
    ensures d <= 9
    ensures Remainder(prefix) < 2 ==> d == Remainder(prefix)
    ensures Remainder(prefix) >= 2 ==> d + Remainder(prefix) == 11
  {
    var rem := Remainder(prefix);
    if rem < 2 then rem else 11 - rem
  }

  /** The weighted sum reads only the first n characters. */
  lemma {:induction false} WeightedSumPrefix(s: string, t: string, n: nat)
    requires n <= 10 && n <= |s| && n <= |t|
    requires forall i :: 0 <= i < n ==> IsDigit(s[i]) && s[i] == t[i]
    ensures WeightedSum(s, n) == WeightedSum(t, n)
  {
    if n > 0 {
      WeightedSumPrefix(s, t, n - 1);
    }
  }

  /** A code is valid exactly when it is ten digits whose last is the completion of the first nine. */
  lemma ValidCharacterised(s: string)
    ensures IsValid(s) <==> IsTenDigits(s) && DigitValue(s[9]) == CheckDigit(s[..9])
  {
    if IsTenDigits(s) {
      var prefix := s[..9];
      assert forall i :: 0 <= i < 9 ==> prefix[i] == s[i];
      WeightedSumPrefix(s, prefix, 9);
    }
  }

  /** Every nine-digit prefix has exactly one valid completion, and it is a decimal digit. */
  lemma {:induction false} UniqueCompletion(prefix: string, c: char)
    requires |prefix| == 9 && AllDigits(prefix)
    ensures IsValid(prefix + [DigitChar(CheckDigit(prefix))])
    ensures IsValid(prefix + [c]) ==> c == DigitChar(CheckDigit(prefix))
  {
    var d := DigitChar(CheckDigit(prefix));
    var good := prefix + [d];
    assert forall i :: 0 <= i < 9 ==> good[i] == prefix[i];
    WeightedSumPrefix(good, prefix, 9);
    assert AllDigits(good) by {
      forall i | 0 <= i < 10 ensures IsDigit(good[i]) {
        if i < 9 { assert good[i] == prefix[i]; }
      }
    }
    if IsValid(prefix + [c]) {
      var other := prefix + [c];
      assert forall i :: 0 <= i < 9 ==> other[i] == prefix[i];
      WeightedSumPrefix(other, prefix, 9);
      assert DigitValue(other[9]) == CheckDigit(prefix);
    }
  }

  /** Replacing only the check digit of a valid code with another digit makes it invalid. */
  lemma CheckDigitChangeDetected(s: string, c: char)
    requires IsValid(s) && c != s[9]
    ensures !IsValid(s[..9] + [c])
  {
    assert s == s[..9] + [s[9]];
    UniqueCompletion(s[..9], c);
    UniqueCompletion(s[..9], s[9]);
  }

  /** As written, a valid code followed by a newline passes the validator. */
  lemma TrailingNewlineAccepted()
    ensures IsValidAsWritten("0000000000\n") && !IsValid("0000000000\n")
  {
    var s := "0000000000\n";
    assert s[..|s| - 1] == "0000000000" == s[..10];
    assert IsTenDigits("0000000000");
    assert WeightedSum("0000000000", 9) == 0;
  }

  /** On input without a final newline (DRF trims it away) the validator agrees with the intended rule. */
  lemma AsWrittenAgrees(s: string)
    requires !EndsWithNewline(s)
    ensures IsValidAsWritten(s) <==> IsValid(s)
  {
    if IsTenDigits(s) {
      assert s[..10] == s;
    }
  }
}

/**
 * Python's int() applied to page text, as the writer does with the three
 * marks and the orchestrator with the row bounds: an optional sign
 * followed by one or more ASCII digits gives an integer, and any other
 * text raises ValueError (here: None).
 */
module IntText {
  import opened Wrappers

  predicate IsDigit(c: char) { '0' <= c <= '9' }

  predicate AllDigits(s: string) { forall i :: 0 <= i < |s| ==> IsDigit(s[i]) }

  function DigitValue(c: char): (d: nat)
    requires IsDigit(c)
    ensures d < 10
  {
    c as int - '0' as int
  }

  function DigitChar(d: nat): (c: char)
    requires d < 10
    ensures IsDigit(c) && DigitValue(c) == d
  {
    ('0' as int + d) as char
  }

  /**
   * The value of the digits s[lo..hi], most significant first; None if
   * the range is empty or holds a character that is not a digit.
   */
  function ParseDigits(s: string, lo: nat, hi: nat): Option<nat>
    requires lo <= hi <= |s|
    decreases hi
  {
    if hi == lo || !IsDigit(s[hi - 1]) then None
    else if hi == lo + 1 then Some(DigitValue(s[lo]))
    else match ParseDigits(s, lo, hi - 1)
      case None => None
      case Some(v) => Some(v * 10 + DigitValue(s[hi - 1]))
  }

  predicate IsSign(c: char) { c == '+' || c == '-' }

  /** Where the digits start: after an optional leading sign. */
  function DigitsStart(s: string): nat {
    if |s| > 0 && IsSign(s[0]) then 1 else 0
  }

  function ParseInt(s: string): Option<int> {
    match ParseDigits(s, DigitsStart(s), |s|)
    case None => None
    case Some(v) => if DigitsStart(s) == 1 && s[0] == '-' then Some(-(v as int)) else Some(v)
  }

  /** Decimal rendering of a natural number without leading zeros, as str() gives it. */
  function NatToString(n: nat): string
    decreases n
  {
    if n < 10 then [DigitChar(n)] else NatToString(n / 10) + [DigitChar(n % 10)]
  }

  function ShowInt(n: int): string {
    if n < 0 then "-" + NatToString(-n) else NatToString(n)
  }

  /** Digits parsed inside a longer text give the same value as on their own. */
  lemma {:induction false} ParseDigitsShift(s: string, lo: nat, hi: nat, t: string, k: nat)
    requires lo <= hi <= |s| && k + (hi - lo) <= |t|
    requires forall i :: lo <= i < hi ==> t[k + i - lo] == s[i]
    ensures ParseDigits(t, k, k + (hi - lo)) == ParseDigits(s, lo, hi)
    decreases hi
  {
    if hi > lo + 1 {
      ParseDigitsShift(s, lo, hi - 1, t, k);
    }
  }

  lemma {:induction false} NatToStringDigits(n: nat)
    ensures NatToString(n) != [] && AllDigits(NatToString(n))
    ensures ParseDigits(NatToString(n), 0, |NatToString(n)|) == Some(n)
    decreases n
  {
    if n >= 10 {
      NatToStringDigits(n / 10);
      var s := NatToString(n);
      var p := NatToString(n / 10);
      assert s == p + [DigitChar(n % 10)];
      ParseDigitsShift(p, 0, |p|, s, 0);
      assert forall i :: 0 <= i < |s| ==> IsDigit(s[i]) by {
        forall i | 0 <= i < |s| ensures IsDigit(s[i]) {
          if i < |s| - 1 { assert s[i] == p[i]; }
        }
      }
    }
  }

  /** Digits behind one leading character parse as they do on their own. */
  lemma {:induction false} ParseDigitsBehind(c: char, p: string, hi: nat)
    requires hi <= |p|
    ensures ParseDigits([c] + p, 1, hi + 1) == ParseDigits(p, 0, hi)
    decreases hi
  {
    var s := [c] + p;
    if hi > 0 {
      assert s[hi] == p[hi - 1];
      if hi > 1 {
        ParseDigitsBehind(c, p, hi - 1);
        assert s[1] == p[0];
      } else {
        assert s[1] == p[0];
      }
    }
  }

  /** A minus sign in front of parsable digits negates their value. */
  lemma ParseIntNegated(p: string)
    requires ParseDigits(p, 0, |p|).Some?
    ensures ParseInt("-" + p) == Some(-(ParseDigits(p, 0, |p|).value as int))
  {
    var s := "-" + p;
    ParseDigitsBehind('-', p, |p|);
    assert |s| == |p| + 1 && s[0] == '-';
    assert DigitsStart(s) == 1;
  }

  lemma ParseShowNegative(n: int)
    requires n < 0
    ensures ParseInt(ShowInt(n)) == Some(n)
  {
    NatToStringDigits(-n);
    ParseIntNegated(NatToString(-n));
  }

  lemma ParseShowNonNegative(n: nat)
    ensures ParseInt(ShowInt(n)) == Some(n)
  {
    var p := NatToString(n);
    NatToStringDigits(n);
    assert IsDigit(p[0]);
    assert DigitsStart(p) == 0;
  }

  /** A mark rendered as decimal text parses back to the same integer. */
  lemma ParseShowRoundTrip(n: int)
    ensures ParseInt(ShowInt(n)) == Some(n)
  {
    if n < 0 { ParseShowNegative(n); } else { ParseShowNonNegative(n); }
  }

  /** A character that is not a digit makes the digit range unparsable. */
  lemma {:induction false} ParseDigitsRejects(s: string, lo: nat, hi: nat, i: int)
    requires lo <= i < hi <= |s| && !IsDigit(s[i])
    ensures ParseDigits(s, lo, hi) == None
    decreases hi
  {
    if i < hi - 1 {
      ParseDigitsRejects(s, lo, hi - 1, i);
    }
  }

  /** Text with a character that is neither a digit nor a leading sign is refused. */
  lemma ParseIntRejects(s: string, i: int)
    requires 0 <= i < |s| && !IsDigit(s[i]) && !(i == 0 && IsSign(s[0]))
    ensures ParseInt(s) == None
  {
    ParseDigitsRejects(s, DigitsStart(s), |s|, i);
  }

  /** Empty text, and a sign with no digits, are refused. */
  lemma ParseIntRejectsEmpty()
    ensures ParseInt("") == None && ParseInt("-") == None && ParseInt("+") == None
  {
  }
}

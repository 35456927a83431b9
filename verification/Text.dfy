/** The few string operations of JavaScript that decide a branch. */
module Text {

  /** White space that `trim` removes. */
  predicate Space(c: char) {
    || '\t' <= c <= '\r' || c == ' ' || c == '\U{A0}' || c == '\U{1680}' || '\U{2000}' <= c <= '\U{200A}'
    || c == '\U{2028}' || c == '\U{2029}' || c == '\U{202F}' || c == '\U{205F}' || c == '\U{3000}' || c == '\U{FEFF}'
  }

  /** Nothing is left after `trim`. */
  predicate Blank(s: string) {
    forall i :: 0 <= i < |s| ==> Space(s[i])
  }

  /** `toUpperCase` on the characters whose upper case is a letter A to Z: the long s and the dotless i are the only
      ones outside ASCII. */
  function UpperChar(c: char): char {
    if 'a' <= c <= 'z' then (c as int - 32) as char
    else if c == '\U{17F}' then 'S'
    else if c == '\U{131}' then 'I'
    else c
  }

  function Upper(s: string): (r: string)
    ensures |r| == |s|
  {
    seq(|s|, i requires 0 <= i < |s| => UpperChar(s[i]))
  }

  /** Codes in any case read the same, and a reason of white space alone is none. */
  lemma KnownTexts()
    ensures Upper("bhd") == Upper("Bhd") == "BHD" && Upper("az-09") == "AZ-09"
    ensures Blank("") && Blank(" \t\n") && !Blank(" x ")
  {
    assert !Space(" x "[1]);
  }

  lemma UpperTwice(s: string)
    ensures Upper(Upper(s)) == Upper(s)
  {
  }
}

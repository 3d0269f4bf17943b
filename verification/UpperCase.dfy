/**
 * `toUpperCase` of JavaScript, as far as ASCII can see it: the letters, and the few other characters
 * whose upper case contains ASCII, some of which become two or three characters.
 */
module UpperCase {

  function UpperChar(c: char): (r: string)
    ensures 1 <= |r| <= 3
  {
    if 'a' <= c <= 'z' then [(c as int - 32) as char]
    else match c
      case '\U{DF}' => "SS"
      case '\U{131}' => "I"
      case '\U{17F}' => "S"
      case '\U{FB00}' => "FF"
      case '\U{FB01}' => "FI"
      case '\U{FB02}' => "FL"
      case '\U{FB03}' => "FFI"
      case '\U{FB04}' => "FFL"
      case '\U{FB05}' => "ST"
      case '\U{FB06}' => "ST"
      case '\U{149}' => "\U{2BC}N"
      case '\U{1F0}' => "J\U{30C}"
      case '\U{1E96}' => "H\U{331}"
      case '\U{1E97}' => "T\U{308}"
      case '\U{1E98}' => "W\U{30A}"
      case '\U{1E99}' => "Y\U{30A}"
      case '\U{1E9A}' => "A\U{2BE}"
      case _ => [c]
  }

  function Upper(s: string): string {
    if s == "" then "" else UpperChar(s[0]) + Upper(s[1..])
  }

  lemma {:induction false} UpperStays(s: string)
    requires forall i :: 0 <= i < |s| ==> UpperChar(s[i]) == [s[i]]
    ensures Upper(s) == s
  {
    if s != "" {
      UpperStays(s[1..]);
      assert s == [s[0]] + s[1..];
    }
  }

  predicate Ascii(s: string) {
    forall i :: 0 <= i < |s| ==> s[i] < '\U{80}'
  }

  function AsciiUpper(c: char): char {
    if 'a' <= c <= 'z' then (c as int - 32) as char else c
  }

  /** ASCII text keeps its length, character by character. */
  lemma {:induction false} UpperOfAscii(s: string)
    requires Ascii(s)
    ensures |Upper(s)| == |s| && forall i :: 0 <= i < |s| ==> Upper(s)[i] == AsciiUpper(s[i])
  {
    if s != "" {
      var rest := s[1..];
      UpperOfAscii(rest);
      assert UpperChar(s[0]) == [AsciiUpper(s[0])];
      assert Upper(s) == [AsciiUpper(s[0])] + Upper(rest);
    }
  }

  /** A second time changes nothing. */
  lemma UpperTwice(s: string)
    requires Ascii(s)
    ensures Upper(Upper(s)) == Upper(s)
  {
    UpperOfAscii(s);
    UpperStays(Upper(s));
  }
}

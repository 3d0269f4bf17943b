/** What counts as the same mailbox. */
module Identity {
  import opened Basics

  function LastIndex(s: string, c: char, n: nat): (r: int)
    requires n <= |s|
    ensures -1 <= r < n
  {
    if n == 0 then -1 else if s[n - 1] == c then n - 1 else LastIndex(s, c, n - 1)
  }

  function FirstIndex(s: string, c: char, i: nat): (r: int)
    requires i <= |s|
    ensures -1 <= r < |s|
    decreases |s| - i
  {
    if i == |s| then -1 else if s[i] == c then i else FirstIndex(s, c, i + 1)
  }

  /** Drop a plus tag, unless the local part is quoted or the tag is all of it. */
  function StripPlusTag(email: string): string {
    var at := LastIndex(email, '@', |email|);
    if at < 1 then email
    else
      var local := email[..at];
      if local[0] == '"' then email
      else
        var plus := FirstIndex(local, '+', 0);
        if plus < 1 then email else local[..plus] + email[at..]
  }

  // ---------------------------------------------------------------- the shape of an address

  /** White space as a regular expression sees it. */
  predicate IsSpace(c: char) {
    c in "\t\n\r \U{0B}\U{0C}\U{A0}\U{1680}\U{2028}\U{2029}\U{202F}\U{205F}\U{3000}\U{FEFF}" || '\U{2000}' <= c <= '\U{200A}'
  }

  predicate NoSpaces(s: string) {
    forall i :: 0 <= i < |s| ==> !IsSpace(s[i])
  }

  /** The parts of a text between occurrences of a character; one more than there are of those. */
  function Split(s: string, c: char): (r: seq<string>)
    ensures |r| >= 1
  {
    if s == "" then [""]
    else
      var rest := Split(s[1..], c);
      if s[0] == c then [""] + rest else [[s[0]] + rest[0]] + rest[1..]
  }

  /** UTF-16 code units, which is what a length in the source counts. */
  function Units(s: string): nat {
    if s == "" then 0 else (if s[0] > '\U{FFFF}' then 2 else 1) + Units(s[1..])
  }

  predicate GoodLabel(part: string) {
    part != "" && NoSpaces(part) && '@' !in part
  }

  predicate GoodDomain(domain: string) {
    var labels := Split(domain, '.');
    && domain != "" && Units(domain) <= 253 && domain[0] != '-' && domain[|domain| - 1] != '-'
    && |labels| >= 2 && forall i :: 0 <= i < |labels| ==> GoodLabel(labels[i])
  }

  /** One @, a local part without white space, and a domain of at least two labels. */
  predicate LooksLikeEmail(email: string) {
    var parts := Split(email, '@');
    && email != "" && Units(email) <= 254 && |parts| == 2
    && parts[0] != "" && NoSpaces(parts[0]) && GoodDomain(parts[1])
  }

  // ---------------------------------------------------------------- the normal form

  function Lower(c: char): char {
    if 'A' <= c <= 'Z' then (c as int + 32) as char else c
  }

  function LowerAll(s: string): (r: string)
    ensures |r| == |s| && forall i :: 0 <= i < |s| ==> r[i] == Lower(s[i])
  {
    seq(|s|, i requires 0 <= i < |s| => Lower(s[i]))
  }

  function TrimStart(s: string): string {
    if s != "" && IsSpace(s[0]) then TrimStart(s[1..]) else s
  }

  function TrimEnd(s: string): (r: string)
    ensures r <= s && (r != "" ==> !IsSpace(r[|r| - 1]))
  {
    if s == "" then ""
    else if IsSpace(s[|s| - 1]) then
      var most := s[..|s| - 1];
      assert most <= s;
      TrimEnd(most)
    else s
  }

  function Trim(s: string): string {
    TrimEnd(TrimStart(s))
  }

  /** Trimmed, in lower case, with something on both sides of the last @. */
  function NormaliseEmail(raw: string): Option<string> {
    var text := Trim(raw);
    var at := LastIndex(text, '@', |text|);
    if at < 1 || at == |text| - 1 then None else Some(LowerAll(text[..at]) + ['@'] + LowerAll(text[at + 1..]))
  }

  /** What the email form passes on. */
  function ReadAddress(typed: string): Option<string> {
    var email := NormaliseEmail(typed);
    if email.Some? && LooksLikeEmail(email.value) then email else None
  }

  /** An address in normal form that looks like one. */
  predicate Address(email: string) {
    NormaliseEmail(email) == Some(email) && LooksLikeEmail(email)
  }

  lemma {:induction false} LastIndexIs(s: string, c: char, n: nat, at: int)
    requires n <= |s| && -1 <= at < n && (at >= 0 ==> s[at] == c) && forall i :: at < i < n ==> s[i] != c
    ensures LastIndex(s, c, n) == at
  {
    if n > 0 && s[n - 1] != c {
      LastIndexIs(s, c, n - 1, at);
    }
  }

  lemma {:induction false} LastIndexFacts(s: string, c: char, n: nat)
    requires n <= |s|
    ensures var at := LastIndex(s, c, n); (at >= 0 ==> s[at] == c) && forall i :: at < i < n ==> s[i] != c
  {
    if n > 0 && s[n - 1] != c {
      LastIndexFacts(s, c, n - 1);
    }
  }

  lemma {:induction false} TrimStartFacts(s: string)
    ensures TrimStart(s) != "" ==> !IsSpace(TrimStart(s)[0])
  {
    if s != "" && IsSpace(s[0]) {
      TrimStartFacts(s[1..]);
    }
  }

  lemma TrimIsIdle(s: string)
    requires s != "" && !IsSpace(s[0]) && !IsSpace(s[|s| - 1])
    ensures Trim(s) == s
  {
  }

  lemma LowerKeeps(text: string)
    ensures LowerAll(LowerAll(text)) == LowerAll(text)
    ensures forall i :: 0 <= i < |text| ==> (LowerAll(text)[i] == '@' <==> text[i] == '@')
    ensures forall i :: 0 <= i < |text| ==> (IsSpace(LowerAll(text)[i]) <==> IsSpace(text[i]))
  {
  }

  lemma LowerInParts(text: string, at: nat)
    requires at < |text| && text[at] == '@'
    ensures LowerAll(text[..at]) + ['@'] + LowerAll(text[at + 1..]) == LowerAll(text)
  {
  }

  predicate LastAt(text: string, at: int) {
    1 <= at < |text| - 1 && text[at] == '@' && forall i :: at < i < |text| ==> text[i] != '@'
  }

  lemma TrimmedLowerIsNormal(email: string, at: int)
    requires LastAt(email, at) && LowerAll(email) == email && !IsSpace(email[0]) && !IsSpace(email[|email| - 1])
    ensures NormaliseEmail(email) == Some(email)
  {
    TrimIsIdle(email);
    LastIndexIs(email, '@', |email|, at);
    LowerInParts(email, at);
  }

  lemma TrimFacts(raw: string)
    requires Trim(raw) != ""
    ensures !IsSpace(Trim(raw)[0]) && !IsSpace(Trim(raw)[|Trim(raw)| - 1])
  {
    TrimStartFacts(raw);
  }

  lemma NormalisedParts(raw: string) returns (at: int)
    requires NormaliseEmail(raw).Some?
    ensures LastAt(Trim(raw), at) && NormaliseEmail(raw).value == LowerAll(Trim(raw))
  {
    at := LastIndex(Trim(raw), '@', |Trim(raw)|);
    LastIndexFacts(Trim(raw), '@', |Trim(raw)|);
    LowerInParts(Trim(raw), at);
  }

  /** What comes out of normalising is normal. */
  lemma NormalisingTwice(raw: string)
    requires NormaliseEmail(raw).Some?
    ensures NormaliseEmail(NormaliseEmail(raw).value) == NormaliseEmail(raw)
  {
    var at := NormalisedParts(raw);
    LowerOfTrimmed(raw, at);
    TrimmedLowerIsNormal(LowerAll(Trim(raw)), at);
  }

  lemma LowerOfTrimmed(raw: string, at: int)
    requires LastAt(Trim(raw), at)
    ensures var email := LowerAll(Trim(raw));
            LastAt(email, at) && LowerAll(email) == email && !IsSpace(email[0]) && !IsSpace(email[|email| - 1])
  {
    TrimFacts(raw);
    LowerOfText(Trim(raw), at);
  }

  lemma LowerOfText(text: string, at: int)
    requires LastAt(text, at) && !IsSpace(text[0]) && !IsSpace(text[|text| - 1])
    ensures var email := LowerAll(text);
            LastAt(email, at) && LowerAll(email) == email && !IsSpace(email[0]) && !IsSpace(email[|email| - 1])
  {
    LowerKeeps(text);
    var email := LowerAll(text);
    assert IsSpace(email[0]) <==> IsSpace(text[0]);
    assert IsSpace(email[|text| - 1]) <==> IsSpace(text[|text| - 1]);
  }

  /** The form passes on exactly the addresses in normal form that look like one. */
  lemma AddressIff(email: string)
    ensures Address(email) <==> exists typed :: ReadAddress(typed) == Some(email)
  {
    if Address(email) {
      assert ReadAddress(email) == Some(email);
    }
    forall typed | ReadAddress(typed) == Some(email) ensures Address(email) {
      NormalisingTwice(typed);
    }
  }
}

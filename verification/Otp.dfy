/** One-time codes: sampling without bias, the folded form, and what is shown in the mail. */
module Otp {
  import opened Basics
  import opened UpperCase

  const ALPHANUMERIC := "23456789ABCDEFGHJKMNPQRSTVWXYZ"
  const NUMERIC := "0123456789"

  // ---------------------------------------------------------------- sampling

  /** The largest multiple of n up to 256: bytes from there on are thrown away. */
  function Limit(n: nat): nat
    requires 1 <= n <= 256
  {
    256 - 256 % n
  }

  /** The symbols of the accepted bytes, in order. */
  function Symbols(bytes: seq<Byte>, alphabet: string): string
    requires 1 <= |alphabet| <= 256
  {
    if bytes == [] then "" else SymbolOf(bytes[0], alphabet) + Symbols(bytes[1..], alphabet)
  }

  function SymbolOf(b: Byte, alphabet: string): string
    requires 1 <= |alphabet| <= 256
  {
    if b >= Limit(|alphabet|) then "" else [alphabet[b % |alphabet|]]
  }

  function Joined(batches: seq<seq<Byte>>): seq<Byte> {
    if batches == [] then [] else batches[0] + Joined(batches[1..])
  }

  /** The first symbols, as many as asked for; no result if the random bytes seen so far do not suffice. */
  function Sampled(bytes: seq<Byte>, alphabet: string, length: nat): Option<string>
    requires 1 <= |alphabet| <= 256
  {
    var all := Symbols(bytes, alphabet);
    if |all| < length then None else Some(all[..length])
  }

  lemma Associate(x: string, y: string, z: string)
    ensures x + (y + z) == x + y + z
  {
  }

  lemma SymbolsOfCons(a: seq<Byte>, b: seq<Byte>, alphabet: string)
    requires 1 <= |alphabet| <= 256 && a != []
    ensures Symbols(a + b, alphabet) == SymbolOf(a[0], alphabet) + Symbols(a[1..] + b, alphabet)
  {
    assert (a + b)[0] == a[0] && (a + b)[1..] == a[1..] + b;
  }

  lemma {:induction false} SymbolsConcat(a: seq<Byte>, b: seq<Byte>, alphabet: string)
    requires 1 <= |alphabet| <= 256
    ensures Symbols(a + b, alphabet) == Symbols(a, alphabet) + Symbols(b, alphabet)
  {
    if a == [] {
      assert a + b == b;
      assert "" + Symbols(b, alphabet) == Symbols(b, alphabet);
    } else {
      SymbolsOfCons(a, b, alphabet);
      SymbolsConcat(a[1..], b, alphabet);
      Associate(SymbolOf(a[0], alphabet), Symbols(a[1..], alphabet), Symbols(b, alphabet));
    }
  }

  /** One batch of random bytes, stopping as soon as the code is long enough. */
  method Consume(out: string, batch: seq<Byte>, alphabet: string, length: nat) returns (r: string)
    requires 1 <= |alphabet| <= 256 && |out| < length
    ensures var all := out + Symbols(batch, alphabet); r == if |all| <= length then all else all[..length]
  {
    r := out;
    var i := 0;
    while i < |batch|
      invariant 0 <= i <= |batch| && |r| < length
      invariant r == out + Symbols(batch[..i], alphabet)
    {
      var b := batch[i];
      assert batch[..i + 1] == batch[..i] + [b];
      SymbolsConcat(batch[..i], [b], alphabet);
      assert [b][1..] == [];
      if b < Limit(|alphabet|) {
        r := r + [alphabet[b % |alphabet|]];
        if |r| == length {
          assert batch == batch[..i + 1] + batch[i + 1..];
          SymbolsConcat(batch[..i + 1], batch[i + 1..], alphabet);
          return;
        }
      }
      i := i + 1;
    }
    assert batch[..i] == batch;
  }

  /** The nested loops; the list of batches stands for the random source, which in the source has no end. */
  method GenerateCode(length: nat, alphabet: string, batches: seq<seq<Byte>>) returns (r: Option<string>)
    requires 1 <= |alphabet| <= 256
    ensures r == Sampled(Joined(batches), alphabet, length)
  {
    var out := "";
    var k := 0;
    assert Joined(batches[..0]) == [];
    while |out| < length && k < |batches|
      invariant 0 <= k <= |batches|
      invariant var all := Symbols(Joined(batches[..k]), alphabet); out == if |all| <= length then all else all[..length]
    {
      JoinedSnoc(batches, k);
      SymbolsConcat(Joined(batches[..k]), batches[k], alphabet);
      out := Consume(out, batches[k], alphabet, length);
      k := k + 1;
    }
    JoinedSplit(batches, k);
    SymbolsConcat(Joined(batches[..k]), Joined(batches[k..]), alphabet);
    if |out| < length {
      assert batches[..k] == batches;
      return None;
    }
    assert (Symbols(Joined(batches[..k]), alphabet) + Symbols(Joined(batches[k..]), alphabet))[..length] == out;
    return Some(out);
  }

  lemma {:induction false} JoinedSplit(batches: seq<seq<Byte>>, k: nat)
    requires k <= |batches|
    ensures Joined(batches) == Joined(batches[..k]) + Joined(batches[k..])
  {
    if k == 0 {
      assert batches[..0] == [] && batches[0..] == batches;
    } else {
      JoinedSplit(batches[1..], k - 1);
      assert batches[..k][1..] == batches[1..][..k - 1] && batches[k..] == batches[1..][k - 1..];
      assert batches[..k][0] == batches[0];
    }
  }

  lemma JoinedSnoc(batches: seq<seq<Byte>>, k: nat)
    requires k < |batches|
    ensures Joined(batches[..k + 1]) == Joined(batches[..k]) + batches[k]
  {
    var most := batches[..k + 1];
    JoinedSplit(most, k);
    assert most[..k] == batches[..k] && most[k..] == [batches[k]];
    var one := [batches[k]];
    assert one[0] == batches[k] && one[1..] == [];
  }

  // ---------------------------------------------------------------- no bias

  /** How many byte values below the bound select the symbol. */
  function Ways(bound: nat, n: nat, symbol: nat): nat
    requires n >= 1
  {
    if bound == 0 then 0 else Ways(bound - 1, n, symbol) + (if (bound - 1) % n == symbol then 1 else 0)
  }

  lemma {:induction false} WaysInBlock(k: nat, n: nat, symbol: nat, m: nat)
    requires n >= 1 && symbol < n && m <= n
    ensures Ways(k * n + m, n, symbol) == Ways(k * n, n, symbol) + (if symbol < m then 1 else 0)
  {
    if m > 0 {
      WaysInBlock(k, n, symbol, m - 1);
      BlockRemainder(k, n, m - 1);
    }
  }

  lemma {:induction false} BlockRemainder(k: nat, n: nat, j: nat)
    requires n >= 1 && j < n
    ensures (k * n + j) % n == j
  {
    if k > 0 {
      BlockRemainder(k - 1, n, j);
      var x := (k - 1) * n + j;
      assert x + n == k * n + j;
      RemainderRepeats(x, n);
    }
  }

  lemma RemainderRepeats(x: nat, n: nat)
    requires n >= 1
    ensures (x + n) % n == x % n
  {
    var q, r := x / n, x % n;
    assert x + n == (q + 1) * n + r;
    Unique(x + n, n, q + 1, r);
  }

  lemma Unique(x: nat, n: nat, q: nat, r: nat)
    requires n >= 1 && r < n && x == q * n + r
    ensures x % n == r
  {
    var d := x / n - q;
    assert d * n == r - x % n;
    assert d >= 1 ==> d * n >= n;
    assert d <= -1 ==> d * n + n <= 0;
  }

  lemma {:induction false} WaysOfBlocks(k: nat, n: nat, symbol: nat)
    requires n >= 1 && symbol < n
    ensures Ways(k * n, n, symbol) == k
  {
    if k > 0 {
      WaysOfBlocks(k - 1, n, symbol);
      WaysInBlock(k - 1, n, symbol, n);
      assert (k - 1) * n + n == k * n;
    }
  }

  /** Among the accepted byte values every symbol of the alphabet is selected by equally many. */
  lemma SamplingIsUnbiased(n: nat, symbol: nat)
    requires 1 <= n <= 256 && symbol < n
    ensures Ways(Limit(n), n, symbol) == 256 / n
  {
    assert Limit(n) == (256 / n) * n;
    WaysOfBlocks(256 / n, n, symbol);
  }

  // ---------------------------------------------------------------- folding and display

  predicate CodeChar(c: char) {
    '0' <= c <= '9' || 'A' <= c <= 'Z'
  }

  /** Upper case, and nothing but letters and digits. */
  function Normalised(s: string): string {
    if s == "" then "" else Folded(s[0]) + Normalised(s[1..])
  }

  function CodeCharsOf(s: string): string {
    if s == "" then "" else (if CodeChar(s[0]) then [s[0]] else "") + CodeCharsOf(s[1..])
  }

  function Folded(c: char): string {
    CodeCharsOf(UpperChar(c))
  }

  lemma FoldedOne(c: char)
    requires UpperChar(c) == [c]
    ensures Folded(c) == if CodeChar(c) then [c] else ""
  {
    assert [c][1..] == "";
    assert CodeCharsOf([c][1..]) == "";
  }

  predicate Canonical(s: string) {
    forall i :: 0 <= i < |s| ==> CodeChar(s[i])
  }

  lemma NormalisedOfCons(a: string, b: string)
    requires a != ""
    ensures Normalised(a + b) == Folded(a[0]) + Normalised(a[1..] + b)
  {
    assert (a + b)[0] == a[0] && (a + b)[1..] == a[1..] + b;
  }

  lemma {:induction false} NormalisedConcat(a: string, b: string)
    ensures Normalised(a + b) == Normalised(a) + Normalised(b)
  {
    if a == "" {
      assert a + b == b;
      assert "" + Normalised(b) == Normalised(b);
    } else {
      NormalisedOfCons(a, b);
      NormalisedConcat(a[1..], b);
      Associate(Folded(a[0]), Normalised(a[1..]), Normalised(b));
    }
  }

  lemma {:induction false} CanonicalStays(s: string)
    requires Canonical(s)
    ensures Normalised(s) == s
  {
    if s != "" {
      FoldedOne(s[0]);
      CanonicalStays(s[1..]);
      assert s == [s[0]] + s[1..];
    }
  }

  lemma {:induction false} SymbolsAreCanonical(bytes: seq<Byte>, alphabet: string)
    requires 1 <= |alphabet| <= 256 && Canonical(alphabet)
    ensures Canonical(Symbols(bytes, alphabet))
  {
    if bytes != [] {
      SymbolsAreCanonical(bytes[1..], alphabet);
    }
  }

  /** Groups of the given size, the last one possibly shorter, with a space between. */
  function Grouped(s: string, size: nat): string
    requires size >= 1
  {
    if |s| <= size then s else s[..size] + " " + Grouped(s[size..], size)
  }

  function Display(code: string): string {
    Grouped(code, if |code| % 3 == 0 then 3 else 4)
  }

  lemma SpaceFoldsAway(a: string, b: string)
    ensures Normalised(a + " " + b) == Normalised(a) + Normalised(b)
  {
    NormalisedConcat(a + " ", b);
    NormalisedConcat(a, " ");
    FoldedOne(' ');
    assert " "[1..] == "";
    assert Normalised(" ") == "";
    assert Normalised(a) + "" == Normalised(a);
  }

  lemma GroupedUnfolds(s: string, size: nat)
    requires size >= 1 && |s| > size && Canonical(s)
    ensures Canonical(s[..size]) && Canonical(s[size..]) && s == s[..size] + s[size..]
    ensures Grouped(s, size) == s[..size] + " " + Grouped(s[size..], size)
  {
  }

  lemma {:induction false} GroupsFoldBack(s: string, size: nat)
    requires size >= 1 && Canonical(s)
    ensures Normalised(Grouped(s, size)) == s
    decreases |s|
  {
    if |s| <= size {
      CanonicalStays(s);
    } else {
      GroupedUnfolds(s, size);
      GroupsFoldBack(s[size..], size);
      CanonicalStays(s[..size]);
      SpaceFoldsAway(s[..size], Grouped(s[size..], size));
    }
  }

  /** A code typed as the mail shows it, or copied without the spaces, is the code that was generated. */
  lemma DisplayedCodeReadsBack(bytes: seq<Byte>, alphabet: string, length: nat)
    requires alphabet == ALPHANUMERIC || alphabet == NUMERIC
    requires Sampled(bytes, alphabet, length).Some?
    ensures var code := Sampled(bytes, alphabet, length).value;
            |code| == length && Normalised(code) == code && Normalised(Display(code)) == code
  {
    assert Canonical(alphabet);
    SymbolsAreCanonical(bytes, alphabet);
    var code := Sampled(bytes, alphabet, length).value;
    CanonicalStays(code);
    GroupsFoldBack(code, if |code| % 3 == 0 then 3 else 4);
  }
}

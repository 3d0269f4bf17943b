/** The text that is hashed to bind a one-time code to a transaction and an address. */
module OtpDigestInput {

  const SEPARATOR := " | "

  predicate NoSpace(s: string) {
    forall i :: 0 <= i < |s| ==> s[i] != ' '
  }

  function Join(txId: string, email: string, code: string): string {
    txId + SEPARATOR + email + SEPARATOR + code
  }

  lemma PrefixUpToSpace(a: string, b: string, x: string, y: string)
    requires NoSpace(a) && NoSpace(b)
    requires |x| > 0 && |y| > 0 && x[0] == ' ' && y[0] == ' '
    requires a + x == b + y
    ensures a == b && x == y
  {
    var w := a + x;
    assert w[|a|] == ' ' && forall i :: 0 <= i < |a| ==> w[i] == a[i];
    assert w == b + y;
    assert w[|b|] == ' ' && forall i :: 0 <= i < |b| ==> w[i] == b[i];
    assert |a| == |b|;
    assert (a + x)[..|a|] == a && (b + y)[..|b|] == b;
    assert (a + x)[|a|..] == x && (b + y)[|b|..] == y;
  }

  lemma SuffixAfterSpace(a: string, b: string, x: string, y: string)
    requires NoSpace(a) && NoSpace(b)
    requires |x| > 0 && |y| > 0 && x[|x| - 1] == ' ' && y[|y| - 1] == ' '
    requires x + a == y + b
    ensures a == b && x == y
  {
    var w := x + a;
    assert w[|x| - 1] == ' ' && forall i :: |x| <= i < |w| ==> w[i] == a[i - |x|];
    assert w == y + b;
    assert w[|y| - 1] == ' ' && forall i :: |y| <= i < |w| ==> w[i] == b[i - |y|];
    assert |x| == |y|;
    assert (x + a)[..|x|] == x && (y + b)[..|y|] == y;
    assert (x + a)[|x|..] == a && (y + b)[|y|..] == b;
  }

  /**
   * Transaction ids are base64url and codes are folded to letters and digits, so neither holds a
   * space; then the joined text determines all three parts, whatever the address contains.
   */
  lemma JoinIsInjective(tx1: string, e1: string, c1: string, tx2: string, e2: string, c2: string)
    requires NoSpace(tx1) && NoSpace(tx2) && NoSpace(c1) && NoSpace(c2)
    requires Join(tx1, e1, c1) == Join(tx2, e2, c2)
    ensures tx1 == tx2 && e1 == e2 && c1 == c2
  {
    var x := SEPARATOR + e1 + SEPARATOR;
    var y := SEPARATOR + e2 + SEPARATOR;
    assert Join(tx1, e1, c1) == tx1 + (x + c1);
    assert Join(tx2, e2, c2) == tx2 + (y + c2);
    PrefixUpToSpace(tx1, tx2, x + c1, y + c2);
    SuffixAfterSpace(c1, c2, x, y);
    assert x[3..|x| - 3] == e1 && y[3..|y| - 3] == e2;
  }
}

/**
 * Retaining a sealed refresh credential.  Three bounds meet: the writer counts the characters of the
 * token, the adapter the bytes of the file, the parser the characters of the ciphertext.
 */
module RetainedTokens {
  import opened Basics
  import opened LocalRecords
  import opened RecordSize
  import opened Identity
  import Rekey

  const MAX_PRESENTED := 16384

  const FRAME := "{\"v\":1,\"identity_id\":\"\",\"link_id\":\"\",\"upstream\":\"\",\"issuer\":\"\",\"subject\":\"\",\"token\":\"\"}"

  /** The JSON text of the sealed payload, in bytes. */
  function PayloadLength(r: Record, l: Link, token: string): nat {
    |FRAME| + JsonLength(r.id) + JsonLength(l.id) + JsonLength(l.upstream) + JsonLength(l.issuer)
    + JsonLength(l.subject) + JsonLength(token)
  }

  /** Characters of unpadded base64url for n bytes. */
  function Base64Length(n: nat): nat {
    (4 * n + 2) / 3
  }

  /** version.purpose.iv.ciphertext, with a 12-byte iv and a 16-byte tag. */
  function SealedLength(purpose: string, plain: nat): nat {
    |"k1"| + 1 + |purpose| + 1 + Base64Length(12) + 1 + Base64Length(plain + 16)
  }

  /** The check made before sealing. */
  predicate Accepted(token: string) {
    1 <= Units(token) <= MAX_PRESENTED
  }

  /** The ciphertext stays within the parser's bound; this and the next test can be made before the call. */
  predicate Fits(r: Record, l: Link, token: string) {
    SealedLength(Rekey.Purpose(r.id, l.id), PayloadLength(r, l, token)) <= MAX_TOKEN
  }

  predicate SealedAs(r: Record, l: Link, token: string, sealed: string) {
    |sealed| == SealedLength(Rekey.Purpose(r.id, l.id), PayloadLength(r, l, token))
  }

  /** What the file holds after an update was attempted: a document beyond the adapter's bounds is never written. */
  function FileAfter(doc: Document, r: Record, u: Update): Document {
    if r.revision < MAX_SAFE && FitsFile(Updated(r, u)) then Stored(Updated(r, u)) else doc
  }

  /**
   * Retaining a credential makes a readable record unreadable if and only if the new document is
   * small enough to be written while its ciphertext (or a secret it already held) is too long to be
   * read.  Otherwise the file reads back as the new record, or as the old one if nothing was written.
   */
  lemma RetainedTokenReadsBackIff(c: Checks, doc: Document, key: string, i: nat, token: string, sealed: string)
    requires Parse(c, doc, key).Some? && i < |Parse(c, doc, key).value.links| && Accepted(token)
    requires SealedAs(Parse(c, doc, key).value, Parse(c, doc, key).value.links[i], token, sealed)
    ensures var r := Parse(c, doc, key).value;
            var next := Updated(r, RetainToken(r.links[i].id, sealed));
            var written := r.revision < MAX_SAFE && FitsFile(next);
            Parse(c, FileAfter(doc, r, RetainToken(r.links[i].id, sealed)), key)
            == if !written then Some(r) else if Fits(r, r.links[i], token) && SecretsFit(r.totp) then Some(next) else None
  {
    ParsedIsWellFormed(c, doc, key);
    var r := Parse(c, doc, key).value;
    if r.revision < MAX_SAFE {
      UpdateReadsBackIff(c, r, RetainToken(r.links[i].id, sealed));
    }
  }

  // ---------------------------------------------------------------- measuring

  predicate Plain(c: char) {
    ' ' <= c <= '~' && c != '"' && c != '\\'
  }

  predicate AllPlain(s: string) {
    forall i :: 0 <= i < |s| ==> Plain(s[i])
  }

  lemma {:induction false} PlainMeasure(s: string)
    requires AllPlain(s)
    ensures Units(s) == |s| && JsonLength(s) == |s|
  {
    if s != "" {
      PlainMeasure(s[1..]);
    }
  }

  function Copies(c: char, n: nat): (s: string)
    ensures |s| == n
  {
    if n == 0 then "" else [c] + Copies(c, n - 1)
  }

  lemma {:induction false} CopiesMeasure(c: char, n: nat)
    requires c <= '\U{FFFF}'
    ensures Units(Copies(c, n)) == n && JsonLength(Copies(c, n)) == JsonBytes(c) * n
  {
    if n > 0 {
      CopiesMeasure(c, n - 1);
      assert Copies(c, n)[1..] == Copies(c, n - 1);
      assert JsonBytes(c) * n == JsonBytes(c) * (n - 1) + JsonBytes(c);
    }
  }

  /** With plain ASCII in every part, an accepted token always fits. */
  lemma PlainTokensFit(r: Record, l: Link, token: string)
    requires Accepted(token) && AllPlain(token)
    requires |r.id| <= 128 && |l.id| <= 128 && |l.upstream| <= 256 && |l.issuer| <= 2048 && |l.subject| <= 512
    requires AllPlain(r.id) && AllPlain(l.id) && AllPlain(l.upstream) && AllPlain(l.issuer) && AllPlain(l.subject)
    ensures Fits(r, l, token)
  {
    PlainMeasure(token);
    PlainMeasure(r.id);
    PlainMeasure(l.id);
    PlainMeasure(l.upstream);
    PlainMeasure(l.issuer);
    PlainMeasure(l.subject);
  }

  // ---------------------------------------------------------------- accepted tokens that do not fit

  /** A token of quotation marks is accepted and never fits. */
  lemma AcceptedTokenMayNotFit(r: Record, l: Link)
    ensures Accepted(Copies('"', MAX_PRESENTED)) && !Fits(r, l, Copies('"', MAX_PRESENTED))
  {
    CopiesMeasure('"', MAX_PRESENTED);
  }

  /** One of control characters is accepted too, and six times as long in JSON. */
  lemma ControlsAreHuge(r: Record, l: Link, sealed: string)
    requires SealedAs(r, l, Copies('\U{01}', MAX_PRESENTED), sealed)
    ensures Accepted(Copies('\U{01}', MAX_PRESENTED)) && |sealed| > MAX_BYTES
  {
    CopiesMeasure('\U{01}', MAX_PRESENTED);
  }

  lemma HugeTokenIsNotWritten(doc: Document, r: Record, i: nat, sealed: string)
    requires i < |r.links| && DistinctStrings(LinkIds(r.links)) && |sealed| > MAX_BYTES
    ensures FileAfter(doc, r, RetainToken(r.links[i].id, sealed)) == doc
  {
    RetainEntries(r.links, r.links[i].id, sealed);
    TokenIsPartOfFile(Updated(r, RetainToken(r.links[i].id, sealed)), i);
  }

  /** The adapter refuses such a file, so the old record stays. */
  lemma HugeTokenChangesNothing(doc: Document, r: Record, i: nat, sealed: string)
    requires i < |r.links| && DistinctStrings(LinkIds(r.links))
    requires SealedAs(r, r.links[i], Copies('\U{01}', MAX_PRESENTED), sealed)
    ensures Accepted(Copies('\U{01}', MAX_PRESENTED))
    ensures FileAfter(doc, r, RetainToken(r.links[i].id, sealed)) == doc
  {
    ControlsAreHuge(r, r.links[i], sealed);
    HugeTokenIsNotWritten(doc, r, i, sealed);
  }

  // ---------------------------------------------------------------- records that are lost

  /** A link of plain text within the parser's bounds, holding no credential yet. */
  predicate ModestLink(l: Link) {
    && |l.id| <= 128 && |l.upstream| <= 256 && |l.issuer| <= 2048 && |l.subject| <= 512
    && AllPlain(l.id) && AllPlain(l.upstream) && AllPlain(l.issuer) && AllPlain(l.subject)
  }

  /** An account with a password and one such link, and nothing else. */
  predicate Modest(r: Record) {
    && r.totp == [] && r.backups == [] && r.claims == None && |r.links| == 1 && ModestLink(r.links[0])
    && |r.id| <= 128 && AllPlain(r.id) && |r.password| <= 512 && AllPlain(r.password)
    && 1 <= r.revision <= MAX_SAFE && 1 <= r.securityVersion <= MAX_SAFE
  }

  function Pow10(k: nat): nat {
    if k == 0 then 1 else 10 * Pow10(k - 1)
  }

  lemma {:induction false} DigitsBound(n: nat, k: nat)
    requires k >= 1 && n < Pow10(k)
    ensures |Digits(n)| <= k
  {
    if n >= 10 {
      DigitsBound(n / 10, k - 1);
    }
  }

  lemma SafeNumber(n: int)
    requires 0 <= n <= MAX_SAFE
    ensures Number(n) <= 16
  {
    assert Pow10(4) == 10000;
    assert Pow10(8) == 10000 * Pow10(4);
    assert Pow10(12) == 10000 * Pow10(8);
    assert Pow10(16) == 10000 * Pow10(12);
    DigitsBound(n, 16);
  }

  lemma SumOfCons(a: nat, rest: seq<nat>)
    ensures Sum([a] + rest) == a + Sum(rest)
  {
    assert ([a] + rest)[1..] == rest;
  }

  lemma SumOfFour(a: nat, b: nat, c: nat, d: nat)
    ensures Sum([a, b, c, d]) == a + b + c + d
  {
    SumOfCons(a, [b, c, d]);
    SumOfCons(b, [c, d]);
    SumOfCons(c, [d]);
    SumOfCons(d, []);
    assert [a] + [b, c, d] == [a, b, c, d] && [b] + [c, d] == [b, c, d] && [c] + [d] == [c, d] && [d] + [] == [d];
  }

  lemma SumOfThree(a: nat, b: nat, c: nat)
    ensures Sum([a, b, c]) == a + b + c
  {
    SumOfFour(0, a, b, c);
    SumOfCons(0, [a, b, c]);
    assert [0] + [a, b, c] == [0, a, b, c];
  }

  lemma SumOfOne(a: nat)
    ensures Sum([a]) == a
  {
    SumOfCons(a, []);
    assert [a] + [] == [a];
  }

  lemma ModestLinkMeasures(l: Link)
    requires ModestLink(l)
    ensures JsonLength(l.id) + JsonLength(l.upstream) + JsonLength(l.issuer) + JsonLength(l.subject) <= 2944
  {
    PlainMeasure(l.id);
    PlainMeasure(l.upstream);
    PlainMeasure(l.issuer);
    PlainMeasure(l.subject);
  }

  lemma LinkSize(l: Link, sealed: string)
    requires ModestLink(l)
    ensures LinkText(l.(refreshToken := Some(sealed))) <= JsonLength(sealed) + 3100
  {
    ModestLinkMeasures(l);
    var a, b, c, d := Field("id", Text(l.id)), Field("upstream", Text(l.upstream)), Field("issuer", Text(l.issuer)), Field("subject", Text(l.subject));
    var e := Field("refresh_token", Text(sealed));
    SumConcat([a, b, c, d], [e]);
    SumOfFour(a, b, c, d);
    SumOfOne(e);
  }

  lemma HeadSize(r: Record)
    requires Modest(r)
    ensures Sum([Field("v", Number(1)), Field("id", Text(r.id)), Field("revision", Number(r.revision)),
                 Field("security_version", Number(r.securityVersion))]) <= 250
  {
    PlainMeasure(r.id);
    SafeNumber(r.revision);
    SafeNumber(r.securityVersion);
    SafeNumber(1);
    SumOfFour(Field("v", Number(1)), Field("id", Text(r.id)), Field("revision", Number(r.revision)),
              Field("security_version", Number(r.securityVersion)));
  }

  lemma TailSize(links: nat)
    ensures Sum([Field("totp", 2), Field("backup_codes", 2), Field("upstreams", links)]) <= links + 100
  {
    SumOfThree(Field("totp", 2), Field("backup_codes", 2), Field("upstreams", links));
  }

  lemma PasswordSize(r: Record)
    requires Modest(r)
    ensures Sum([Field("password", Text(r.password))]) <= 530
  {
    PlainMeasure(r.password);
    SumOfOne(Field("password", Text(r.password)));
  }

  lemma OptionalSize(present: bool, part: nat)
    ensures Sum(Optional(present, part)) <= part && |Optional(present, part)| <= 1
  {
    SumOfOne(part);
  }

  lemma SumOfParts(a: seq<nat>, b: seq<nat>, c: seq<nat>, d: seq<nat>, e: seq<nat>)
    ensures Sum(a + b + c + d + [] + e) == Sum(a) + Sum(b) + Sum(c) + Sum(d) + Sum(e)
  {
    assert a + b + c + d + [] + e == a + (b + (c + (d + e)));
    SumConcat(a, b + (c + (d + e)));
    SumConcat(b, c + (d + e));
    SumConcat(c, d + e);
    SumConcat(d, e);
  }

  lemma ModestSize(r: Record, l: Link)
    requires Modest(r.(links := [l.(refreshToken := None)])) && r.links == [l]
    ensures FileSize(r) <= LinkText(l) + 1100
  {
    var m := r.(links := [l.(refreshToken := None)]);
    HeadSize(m);
    PasswordSize(m);
    OptionalSize(r.disabled, Field("disabled", |"true"|));
    OptionalSize(r.mfaRequired, Field("mfa_required", |"true"|));
    assert LinkTexts(r.links) == [LinkText(l)];
    SumOfOne(LinkText(l));
    TailSize(Block(1, LinkTexts(r.links)));
    assert TotpTexts(r.totp) == [] && BackupTexts(r.backups) == [];
    SumOfParts(
      [Field("v", Number(1)), Field("id", Text(r.id)), Field("revision", Number(r.revision)), Field("security_version", Number(r.securityVersion))],
      Optional(r.disabled, Field("disabled", |"true"|)), Optional(r.mfaRequired, Field("mfa_required", |"true"|)),
      [Field("password", Text(r.password))], [Field("totp", 2), Field("backup_codes", 2), Field("upstreams", Block(1, LinkTexts(r.links)))]);
  }

  lemma QuotesSealedLength(r: Record, sealed: string)
    requires Modest(r) && SealedAs(r, r.links[0], Copies('"', MAX_PRESENTED), sealed)
    ensures |sealed| <= 50000
  {
    CopiesMeasure('"', MAX_PRESENTED);
    PlainMeasure(r.id);
    ModestLinkMeasures(r.links[0]);
  }

  lemma QuotesAreWritten(r: Record, sealed: string)
    requires Modest(r) && r.revision < MAX_SAFE && AllPlain(sealed)
    requires SealedAs(r, r.links[0], Copies('"', MAX_PRESENTED), sealed)
    ensures FitsFile(Updated(r, RetainToken(r.links[0].id, sealed)))
  {
    QuotesSealedLength(r, sealed);
    PlainMeasure(sealed);
    var l := r.links[0].(refreshToken := Some(sealed));
    LinkSize(r.links[0], sealed);
    var next := Updated(r, RetainToken(r.links[0].id, sealed));
    assert next == r.(links := [l], revision := r.revision + 1) by {
      assert r.links == [r.links[0]];
      assert [r.links[0]][1..] == [];
    }
    ModestSize(next, l);
  }

  /**
   * Whenever an account with one plain link is offered a token of 16384 quotation marks, the token is
   * accepted, the document is written, and the record is unreadable from then on.
   */
  lemma QuotesLoseTheRecord(c: Checks, doc: Document, key: string, sealed: string)
    requires Parse(c, doc, key).Some? && Modest(Parse(c, doc, key).value) && Parse(c, doc, key).value.revision < MAX_SAFE
    requires var r := Parse(c, doc, key).value;
             SealedAs(r, r.links[0], Copies('"', MAX_PRESENTED), sealed) && AllPlain(sealed)
    ensures Accepted(Copies('"', MAX_PRESENTED))
    ensures var r := Parse(c, doc, key).value;
            Parse(c, FileAfter(doc, r, RetainToken(r.links[0].id, sealed)), key).None?
  {
    var r := Parse(c, doc, key).value;
    AcceptedTokenMayNotFit(r, r.links[0]);
    QuotesAreWritten(r, sealed);
    RetainedTokenReadsBackIff(c, doc, key, 0, Copies('"', MAX_PRESENTED), sealed);
  }
}

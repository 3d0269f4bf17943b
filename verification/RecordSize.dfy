/**
 * The size of a record file: the document as JSON text with two spaces of indentation and a final
 * line feed, in bytes of UTF-8.  The adapter refuses to write more than 64 KiB.
 */
module RecordSize {
  import opened Basics
  import opened LocalRecords

  const MAX_BYTES := 65536

  /** Bytes of one character inside a JSON string. */
  function JsonBytes(c: char): nat {
    if c in "\"\\\n\r\t\U{08}\U{0C}" then 2
    else if c < ' ' then 6
    else if c < '\U{80}' then 1
    else if c < '\U{800}' then 2
    else if c <= '\U{FFFF}' then 3
    else 4
  }

  function JsonLength(s: string): nat {
    if s == "" then 0 else JsonBytes(s[0]) + JsonLength(s[1..])
  }

  /** Values. */
  function Text(s: string): nat {
    2 + JsonLength(s)
  }

  function Number(n: int): nat {
    if n < 0 then 1 + |Digits(-n)| else |Digits(n)|
  }

  function Sum(parts: seq<nat>): nat {
    if parts == [] then 0 else parts[0] + Sum(parts[1..])
  }

  /** `"name": value`, for names that need no escape. */
  function Field(name: string, value: nat): nat {
    |name| + 4 + value
  }

  /** An object or array whose brackets are at this depth: one line for each part, commas between them. */
  function Block(depth: nat, parts: seq<nat>): nat {
    if parts == [] then 2 else 2 + Sum(parts) + |parts| * (2 * (depth + 1) + 2) + 2 * depth
  }

  function Optional(present: bool, part: nat): seq<nat> {
    if present then [part] else []
  }

  function TotpText(t: Totp): nat {
    Block(2,
      [Field("id", Text(t.id))]
      + (if t.caption.Some? then [Field("label", Text(t.caption.value))] else [])
      + [Field("secret", Text(t.secret)), Field("algorithm", Text(t.algorithm)), Field("digits", Number(t.digits)),
         Field("period", Number(t.period))]
      + (if t.lastUsedStep.Some? then [Field("last_used_step", Number(t.lastUsedStep.value))] else []))
  }

  function BackupText(b: Backup): nat {
    Block(2, [Field("id", Text(b.id)), Field("hash", Text(b.hash))])
  }

  function LinkText(l: Link): nat {
    Block(2,
      [Field("id", Text(l.id)), Field("upstream", Text(l.upstream)), Field("issuer", Text(l.issuer)), Field("subject", Text(l.subject))]
      + (if l.refreshToken.Some? then [Field("refresh_token", Text(l.refreshToken.value))] else []))
  }

  function ClaimsText(claims: Claims): nat {
    Block(1, seq(|claims|, i requires 0 <= i < |claims| => Field(claims[i].name, Text(claims[i].value))))
  }

  function TotpTexts(ts: seq<Totp>): seq<nat> {
    seq(|ts|, i requires 0 <= i < |ts| => TotpText(ts[i]))
  }

  function BackupTexts(bs: seq<Backup>): seq<nat> {
    seq(|bs|, i requires 0 <= i < |bs| => BackupText(bs[i]))
  }

  function LinkTexts(ls: seq<Link>): (r: seq<nat>)
    ensures |r| == |ls| && forall i :: 0 <= i < |ls| ==> r[i] == LinkText(ls[i])
  {
    seq(|ls|, i requires 0 <= i < |ls| => LinkText(ls[i]))
  }

  /** The fields of the stored form, in order. */
  function RecordFields(r: Record): seq<nat> {
    [Field("v", Number(1)), Field("id", Text(r.id)), Field("revision", Number(r.revision)),
     Field("security_version", Number(r.securityVersion))]
    + Optional(r.disabled, Field("disabled", |"true"|))
    + Optional(r.mfaRequired, Field("mfa_required", |"true"|))
    + [Field("password", Text(r.password))]
    + (if r.claims.Some? then [Field("claims", ClaimsText(r.claims.value))] else [])
    + [Field("totp", Block(1, TotpTexts(r.totp))), Field("backup_codes", Block(1, BackupTexts(r.backups))),
       Field("upstreams", Block(1, LinkTexts(r.links)))]
  }

  /** Bytes of the file that holds this record. */
  function FileSize(r: Record): nat {
    Block(0, RecordFields(r)) + 1
  }

  predicate FitsFile(r: Record) {
    FileSize(r) <= MAX_BYTES
  }

  lemma {:induction false} SumConcat(a: seq<nat>, b: seq<nat>)
    ensures Sum(a + b) == Sum(a) + Sum(b)
  {
    if a == [] {
      assert a + b == b;
    } else {
      SumConcat(a[1..], b);
      assert (a + b)[1..] == a[1..] + b;
    }
  }

  lemma {:induction false} PartOfSum(parts: seq<nat>, i: nat)
    requires i < |parts|
    ensures parts[i] <= Sum(parts)
  {
    if i > 0 {
      PartOfSum(parts[1..], i - 1);
    }
  }

  lemma PartOfBlock(depth: nat, parts: seq<nat>, i: nat)
    requires i < |parts|
    ensures parts[i] <= Block(depth, parts)
  {
    PartOfSum(parts, i);
  }

  lemma {:induction false} JsonIsNoShorter(s: string)
    ensures |s| <= JsonLength(s)
  {
    if s != "" {
      JsonIsNoShorter(s[1..]);
    }
  }

  /** A retained credential is part of the file. */
  lemma TokenIsPartOfFile(r: Record, i: nat)
    requires i < |r.links| && r.links[i].refreshToken.Some?
    ensures |r.links[i].refreshToken.value| < FileSize(r)
  {
    var l := r.links[i];
    JsonIsNoShorter(l.refreshToken.value);
    TokenIsPartOfLink(l);
    PartOfBlock(1, LinkTexts(r.links), i);
    var fields := RecordFields(r);
    assert fields[|fields| - 1] == Field("upstreams", Block(1, LinkTexts(r.links)));
    PartOfBlock(0, fields, |fields| - 1);
  }

  lemma TokenIsPartOfLink(l: Link)
    requires l.refreshToken.Some?
    ensures JsonLength(l.refreshToken.value) <= LinkText(l)
  {
    var fields := [Field("id", Text(l.id)), Field("upstream", Text(l.upstream)), Field("issuer", Text(l.issuer)), Field("subject", Text(l.subject))]
                  + [Field("refresh_token", Text(l.refreshToken.value))];
    PartOfBlock(2, fields, 4);
  }
}

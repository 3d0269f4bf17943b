/** Operator-provisioned identity records: the strict parser, the stored form, and state-only updates. */
module LocalRecords {
  import opened Basics
  import opened UpperCase
  import Base32
  import Bits

  const MAX_TOTP := 5
  const MAX_BACKUP_CODES := 20
  const MAX_UPSTREAMS := 20
  const MAX_TOKEN := 32768
  const MAX_SAFE := 0x1F_FFFF_FFFF_FFFF

  const MAX_SECRET := 256

  datatype Claim = Claim(name: string, value: string)

  /** The profile claims of a record, in the order of the JSON object. */
  type Claims = seq<Claim>

  // ---------------------------------------------------------------- documents, as written by an operator

  /** `extra` says whether the JSON object carries a field outside the allowed set. */
  datatype TotpDoc = TotpDoc(
    id: string, caption: Option<string>, secret: string, algorithm: Option<string>,
    digits: Option<int>, period: Option<int>, lastUsedStep: Option<int>, extra: bool)

  datatype BackupDoc = BackupDoc(id: string, hash: string, extra: bool)

  datatype LinkDoc = LinkDoc(
    id: Option<string>, upstream: string, issuer: string, subject: string, refreshToken: Option<string>, extra: bool)

  datatype Document = Document(
    v: int, id: string, revision: int, securityVersion: int,
    disabled: Option<bool>, mfaRequired: Option<bool>, password: string, claims: Option<Claims>,
    totp: Option<seq<TotpDoc>>, backups: Option<seq<BackupDoc>>, links: Option<seq<LinkDoc>>, extra: bool)

  // ---------------------------------------------------------------- records, as the gateway uses them

  datatype Totp = Totp(
    id: string, caption: Option<string>, secret: string, algorithm: string,
    digits: int, period: int, lastUsedStep: Option<int>)

  datatype Backup = Backup(id: string, hash: string)

  datatype Link = Link(id: string, upstream: string, issuer: string, subject: string, refreshToken: Option<string>)

  datatype Record = Record(
    id: string, revision: int, securityVersion: int, disabled: bool, mfaRequired: bool, password: string,
    totp: seq<Totp>, backups: seq<Backup>, links: seq<Link>, claims: Option<Claims>, key: string)

  /**
   * Checks that everything here holds for, whatever they are: the verifier profile, the issuer URL,
   * the profile claims, and the size of a record's file (RecordSize.FitsFile).
   */
  datatype Checks = Checks(
    approvedHash: string -> bool, validIssuer: string -> bool, validClaims: Claims -> bool, sized: Record -> bool)

  // ---------------------------------------------------------------- character classes

  predicate SafeChar(c: char) {
    'A' <= c <= 'Z' || 'a' <= c <= 'z' || '0' <= c <= '9' || c == '_' || c == '-'
  }

  predicate SafeId(s: string) {
    1 <= |s| <= 128 && forall i :: 0 <= i < |s| ==> SafeChar(s[i])
  }

  predicate UpstreamChar(c: char) {
    'A' <= c <= 'Z' || 'a' <= c <= 'z' || '0' <= c <= '9' || c in "._~:/-"
  }

  predicate SafeUpstream(s: string) {
    1 <= |s| <= 256 && forall i :: 0 <= i < |s| ==> UpstreamChar(s[i])
  }

  function WithoutHyphens(s: string): string {
    if s == "" then "" else (if s[0] == '-' then "" else [s[0]]) + WithoutHyphens(s[1..])
  }

  predicate KnownAlgorithm(s: string) {
    s == "SHA1" || s == "SHA256" || s == "SHA512"
  }

  function Digits(n: nat): (s: string)
    ensures s != "" && forall i :: 0 <= i < |s| ==> '0' <= s[i] <= '9'
  {
    var last := [('0' as int + n % 10) as char];
    if n < 10 then last else Digits(n / 10) + last
  }

  predicate DistinctStrings(s: seq<string>) {
    forall i, j :: 0 <= i < j < |s| ==> s[i] != s[j]
  }

  // ---------------------------------------------------------------- normalising one entry

  function NormaliseTotp(d: TotpDoc): Option<Totp> {
    var algorithm := WithoutHyphens(Upper(if d.algorithm.Some? then d.algorithm.value else "SHA1"));
    var digits := if d.digits.Some? then d.digits.value else 6;
    var period := if d.period.Some? then d.period.value else 30;
    var secret := if |d.secret| > MAX_SECRET then None else Base32.DecodeText(d.secret);
    if || !SafeId(d.id) || d.extra || !KnownAlgorithm(algorithm)
       || (digits != 6 && digits != 8) || !(15 <= period <= 120)
       || secret.None?
       || (d.lastUsedStep.Some? && !(0 <= d.lastUsedStep.value <= MAX_SAFE))
    then None
    else
      var caption := if d.caption.None? then None
                   else Some(if |d.caption.value| <= 128 then d.caption.value else d.caption.value[..128]);
      Some(Totp(d.id, caption, Base32.EncodeText(secret.value), algorithm, digits, period, d.lastUsedStep))
  }

  function NormaliseBackup(c: Checks, d: BackupDoc): Option<Backup> {
    if !SafeId(d.id) || d.extra || !c.approvedHash(d.hash) then None else Some(Backup(Upper(d.id), d.hash))
  }

  function NormaliseLink(c: Checks, d: LinkDoc, index: nat): Option<Link> {
    var id := if d.id.Some? then d.id.value else "upstream-" + Digits(index + 1);
    if || d.extra || !SafeUpstream(d.upstream) || !c.validIssuer(d.issuer)
       || !(1 <= |d.issuer| <= 2048) || !(1 <= |d.subject| <= 512)
       || (d.refreshToken.Some? && |d.refreshToken.value| > MAX_TOKEN)
       || !SafeId(id)
    then None
    else Some(Link(id, d.upstream, d.issuer, d.subject, d.refreshToken))
  }

  /** `map` followed by the test that no entry was refused. */
  function AllTotp(ds: seq<TotpDoc>): Option<seq<Totp>> {
    if ds == [] then Some([])
    else
      var first := NormaliseTotp(ds[0]);
      var rest := AllTotp(ds[1..]);
      if first.Some? && rest.Some? then Some([first.value] + rest.value) else None
  }

  function AllBackups(c: Checks, ds: seq<BackupDoc>): Option<seq<Backup>> {
    if ds == [] then Some([])
    else
      var first := NormaliseBackup(c, ds[0]);
      var rest := AllBackups(c, ds[1..]);
      if first.Some? && rest.Some? then Some([first.value] + rest.value) else None
  }

  function AllLinks(c: Checks, ds: seq<LinkDoc>, index: nat): Option<seq<Link>> {
    if ds == [] then Some([])
    else
      var first := NormaliseLink(c, ds[0], index);
      var rest := AllLinks(c, ds[1..], index + 1);
      if first.Some? && rest.Some? then Some([first.value] + rest.value) else None
  }

  function TotpIds(ts: seq<Totp>): (r: seq<string>)
    ensures |r| == |ts| && forall i :: 0 <= i < |ts| ==> r[i] == ts[i].id
  {
    seq(|ts|, i requires 0 <= i < |ts| => ts[i].id)
  }

  function TotpSecrets(ts: seq<Totp>): (r: seq<string>)
    ensures |r| == |ts| && forall i :: 0 <= i < |ts| ==> r[i] == ts[i].secret
  {
    seq(|ts|, i requires 0 <= i < |ts| => ts[i].secret)
  }

  function BackupIds(bs: seq<Backup>): (r: seq<string>)
    ensures |r| == |bs| && forall i :: 0 <= i < |bs| ==> r[i] == bs[i].id
  {
    seq(|bs|, i requires 0 <= i < |bs| => bs[i].id)
  }

  function LinkIds(ls: seq<Link>): (r: seq<string>)
    ensures |r| == |ls| && forall i :: 0 <= i < |ls| ==> r[i] == ls[i].id
  {
    seq(|ls|, i requires 0 <= i < |ls| => ls[i].id)
  }

  // ---------------------------------------------------------------- the whole document

  /** Strictly validate and bound one stored document. */
  function Parse(c: Checks, doc: Document, key: string): Option<Record> {
    var rawTotp := if doc.totp.Some? then doc.totp.value else [];
    var rawBackups := if doc.backups.Some? then doc.backups.value else [];
    var rawLinks := if doc.links.Some? then doc.links.value else [];
    if || doc.v != 1 || doc.extra || !SafeId(doc.id)
       || !(1 <= doc.revision <= MAX_SAFE) || !(1 <= doc.securityVersion <= MAX_SAFE)
       || !c.approvedHash(doc.password)
       || |rawTotp| > MAX_TOTP || |rawBackups| > MAX_BACKUP_CODES || |rawLinks| > MAX_UPSTREAMS
    then None
    else
      var totp := AllTotp(rawTotp);
      var backups := AllBackups(c, rawBackups);
      var links := AllLinks(c, rawLinks, 0);
      if || totp.None? || backups.None? || links.None?
         || !DistinctStrings(TotpIds(totp.value)) || !DistinctStrings(TotpSecrets(totp.value))
         || !DistinctStrings(BackupIds(backups.value)) || !DistinctStrings(LinkIds(links.value))
         || (doc.mfaRequired == Some(false) && (totp.value != [] || backups.value != []))
         || (doc.claims.Some? && !c.validClaims(doc.claims.value))
      then None
      else
        Some(Record(doc.id, doc.revision, doc.securityVersion, doc.disabled == Some(true),
                    doc.mfaRequired == Some(true) || totp.value != [] || backups.value != [],
                    doc.password, totp.value, backups.value, links.value, doc.claims, key))
  }

  function StoredTotp(t: Totp): TotpDoc {
    TotpDoc(t.id, t.caption, t.secret, Some(t.algorithm), Some(t.digits), Some(t.period), t.lastUsedStep, false)
  }

  function StoredBackup(b: Backup): BackupDoc {
    BackupDoc(b.id, b.hash, false)
  }

  function StoredLink(l: Link): LinkDoc {
    LinkDoc(Some(l.id), l.upstream, l.issuer, l.subject, l.refreshToken, false)
  }

  function StoredTotps(ts: seq<Totp>): (r: seq<TotpDoc>)
    ensures |r| == |ts| && forall i :: 0 <= i < |ts| ==> r[i] == StoredTotp(ts[i])
  {
    seq(|ts|, i requires 0 <= i < |ts| => StoredTotp(ts[i]))
  }

  function StoredBackups(bs: seq<Backup>): (r: seq<BackupDoc>)
    ensures |r| == |bs| && forall i :: 0 <= i < |bs| ==> r[i] == StoredBackup(bs[i])
  {
    seq(|bs|, i requires 0 <= i < |bs| => StoredBackup(bs[i]))
  }

  function StoredLinks(ls: seq<Link>): (r: seq<LinkDoc>)
    ensures |r| == |ls| && forall i :: 0 <= i < |ls| ==> r[i] == StoredLink(ls[i])
  {
    seq(|ls|, i requires 0 <= i < |ls| => StoredLink(ls[i]))
  }

  /** The JSON document written after a state-only update; false flags are simply left out. */
  function Stored(r: Record): Document {
    Document(1, r.id, r.revision, r.securityVersion,
             if r.disabled then Some(true) else None, if r.mfaRequired then Some(true) else None,
             r.password, r.claims, Some(StoredTotps(r.totp)), Some(StoredBackups(r.backups)), Some(StoredLinks(r.links)), false)
  }

  // ---------------------------------------------------------------- what a parsed record satisfies

  predicate GoodTotp(t: Totp) {
    && SafeId(t.id) && KnownAlgorithm(t.algorithm) && (t.digits == 6 || t.digits == 8) && 15 <= t.period <= 120
    && (t.caption.Some? ==> |t.caption.value| <= 128)
    && Base32.DecodeText(t.secret).Some?
    && Base32.EncodeText(Base32.DecodeText(t.secret).value) == t.secret
    && (t.lastUsedStep.Some? ==> 0 <= t.lastUsedStep.value <= MAX_SAFE)
  }

  predicate GoodBackup(c: Checks, b: Backup) {
    SafeId(b.id) && Upper(b.id) == b.id && c.approvedHash(b.hash)
  }

  predicate GoodLink(c: Checks, l: Link) {
    && SafeUpstream(l.upstream) && c.validIssuer(l.issuer) && 1 <= |l.issuer| <= 2048 && 1 <= |l.subject| <= 512
    && SafeId(l.id)
  }

  predicate TokenFits(l: Link) {
    l.refreshToken.Some? ==> |l.refreshToken.value| <= MAX_TOKEN
  }

  /** The parser bounds a retained credential; the code that writes one does not look at that bound. */
  ghost predicate TokensFit(ls: seq<Link>) {
    forall i :: 0 <= i < |ls| ==> TokenFits(ls[i])
  }

  /**
   * The parser bounds a secret as it was written; the canonical form it keeps and stores is not
   * bounded, and upper case may have lengthened it.
   */
  predicate SecretsFit(ts: seq<Totp>) {
    forall i :: 0 <= i < |ts| ==> |ts[i].secret| <= MAX_SECRET
  }

  /** Everything the parser guarantees, except for the size of the retained credentials. */
  ghost predicate Shaped(c: Checks, r: Record) {
    && SafeId(r.id) && 1 <= r.revision <= MAX_SAFE && 1 <= r.securityVersion <= MAX_SAFE && c.approvedHash(r.password)
    && |r.totp| <= MAX_TOTP && |r.backups| <= MAX_BACKUP_CODES && |r.links| <= MAX_UPSTREAMS
    && (forall i :: 0 <= i < |r.totp| ==> GoodTotp(r.totp[i]))
    && (forall i :: 0 <= i < |r.backups| ==> GoodBackup(c, r.backups[i]))
    && (forall i :: 0 <= i < |r.links| ==> GoodLink(c, r.links[i]))
    && DistinctStrings(TotpIds(r.totp)) && DistinctStrings(TotpSecrets(r.totp))
    && DistinctStrings(BackupIds(r.backups)) && DistinctStrings(LinkIds(r.links))
    && (r.totp != [] || r.backups != [] ==> r.mfaRequired)
    && (r.claims.Some? ==> c.validClaims(r.claims.value))
  }

  ghost predicate WellFormed(c: Checks, r: Record) {
    Shaped(c, r) && TokensFit(r.links)
  }

  // ---------------------------------------------------------------- parsing gives good entries

  lemma NormalisedTotpIsGood(d: TotpDoc)
    requires NormaliseTotp(d).Some?
    ensures GoodTotp(NormaliseTotp(d).value)
  {
    Base32.EncodeAfterDecodeIsIdempotent(d.secret);
  }

  lemma SafeIsAscii(id: string)
    requires SafeId(id)
    ensures Ascii(id)
  {
  }

  lemma NormalisedBackupIsGood(c: Checks, d: BackupDoc)
    requires NormaliseBackup(c, d).Some?
    ensures GoodBackup(c, NormaliseBackup(c, d).value)
  {
    SafeIsAscii(d.id);
    UpperOfAscii(d.id);
    UpperTwice(d.id);
    assert forall i :: 0 <= i < |d.id| ==> SafeChar(AsciiUpper(d.id[i]));
  }

  lemma {:induction false} AllTotpGood(ds: seq<TotpDoc>)
    requires AllTotp(ds).Some?
    ensures |AllTotp(ds).value| == |ds|
    ensures forall i :: 0 <= i < |ds| ==> NormaliseTotp(ds[i]) == Some(AllTotp(ds).value[i])
    ensures forall i :: 0 <= i < |ds| ==> GoodTotp(AllTotp(ds).value[i])
  {
    if ds != [] {
      var rest := ds[1..];
      NormalisedTotpIsGood(ds[0]);
      AllTotpUnfolds(ds);
      AllTotpGood(rest);
      forall i | 0 <= i < |ds|
        ensures NormaliseTotp(ds[i]) == Some(AllTotp(ds).value[i]) && GoodTotp(AllTotp(ds).value[i])
      {
        if i > 0 {
          assert ds[i] == rest[i - 1] && AllTotp(ds).value[i] == AllTotp(rest).value[i - 1];
        }
      }
    }
  }

  lemma {:induction false} AllBackupsGood(c: Checks, ds: seq<BackupDoc>)
    requires AllBackups(c, ds).Some?
    ensures |AllBackups(c, ds).value| == |ds|
    ensures forall i :: 0 <= i < |ds| ==> GoodBackup(c, AllBackups(c, ds).value[i])
  {
    if ds != [] {
      NormalisedBackupIsGood(c, ds[0]);
      AllBackupsGood(c, ds[1..]);
    }
  }

  lemma {:induction false} AllLinksGood(c: Checks, ds: seq<LinkDoc>, index: nat)
    requires AllLinks(c, ds, index).Some?
    ensures |AllLinks(c, ds, index).value| == |ds|
    ensures forall i :: 0 <= i < |ds| ==> GoodLink(c, AllLinks(c, ds, index).value[i])
    ensures TokensFit(AllLinks(c, ds, index).value)
    decreases |ds|
  {
    if ds != [] {
      AllLinksGood(c, ds[1..], index + 1);
    }
  }

  lemma ParsedIsWellFormed(c: Checks, doc: Document, key: string)
    requires Parse(c, doc, key).Some?
    ensures WellFormed(c, Parse(c, doc, key).value) && Parse(c, doc, key).value.key == key
  {
    AllTotpGood(if doc.totp.Some? then doc.totp.value else []);
    AllBackupsGood(c, if doc.backups.Some? then doc.backups.value else []);
    AllLinksGood(c, if doc.links.Some? then doc.links.value else [], 0);
  }

  // ---------------------------------------------------------------- good entries survive being stored

  lemma AlgorithmsAreFixed(s: string)
    requires KnownAlgorithm(s)
    ensures WithoutHyphens(Upper(s)) == s
  {
    UpperStays(s);
    HyphenFree(s);
  }

  lemma {:induction false} HyphenFree(s: string)
    requires forall i :: 0 <= i < |s| ==> s[i] != '-'
    ensures WithoutHyphens(s) == s
  {
    if s != "" {
      HyphenFree(s[1..]);
      assert s == [s[0]] + s[1..];
    }
  }

  /** A good authenticator reads back exactly when its canonical secret passes the bound as well. */
  lemma StoredTotpParses(t: Totp)
    requires GoodTotp(t)
    ensures NormaliseTotp(StoredTotp(t)) == if |t.secret| <= MAX_SECRET then Some(t) else None
  {
    AlgorithmsAreFixed(t.algorithm);
    var d := StoredTotp(t);
    assert d.caption == t.caption && d.secret == t.secret;
    assert Base32.EncodeText(Base32.DecodeText(d.secret).value) == t.secret;
  }

  lemma AllTotpUnfolds(ds: seq<TotpDoc>)
    requires ds != []
    ensures AllTotp(ds) == if NormaliseTotp(ds[0]).Some? && AllTotp(ds[1..]).Some?
                           then Some([NormaliseTotp(ds[0]).value] + AllTotp(ds[1..]).value) else None
  {
  }

  lemma SecretsFitUnfolds(ts: seq<Totp>)
    requires ts != []
    ensures SecretsFit(ts) <==> |ts[0].secret| <= MAX_SECRET && SecretsFit(ts[1..])
  {
    assert forall i :: 0 <= i < |ts[1..]| ==> ts[1..][i] == ts[i + 1];
    assert forall i :: 1 <= i < |ts| ==> ts[i] == ts[1..][i - 1];
  }

  lemma StoredTotpsOfCons(ts: seq<Totp>)
    requires ts != []
    ensures StoredTotps(ts) != [] && StoredTotps(ts)[0] == StoredTotp(ts[0]) && StoredTotps(ts)[1..] == StoredTotps(ts[1..])
  {
  }

  lemma {:induction false} StoredTotpsParse(ts: seq<Totp>)
    requires forall i :: 0 <= i < |ts| ==> GoodTotp(ts[i])
    ensures AllTotp(StoredTotps(ts)) == if SecretsFit(ts) then Some(ts) else None
  {
    if ts != [] {
      StoredTotpParses(ts[0]);
      StoredTotpsParse(ts[1..]);
      StoredTotpsOfCons(ts);
      AllTotpUnfolds(StoredTotps(ts));
      SecretsFitUnfolds(ts);
      assert ts == [ts[0]] + ts[1..];
    }
  }

  lemma {:induction false} StoredBackupsParse(c: Checks, bs: seq<Backup>)
    requires forall i :: 0 <= i < |bs| ==> GoodBackup(c, bs[i])
    ensures AllBackups(c, StoredBackups(bs)) == Some(bs)
  {
    if bs != [] {
      assert GoodBackup(c, bs[0]);
      StoredBackupsParse(c, bs[1..]);
      assert StoredBackups(bs)[1..] == StoredBackups(bs[1..]);
      assert bs == [bs[0]] + bs[1..];
    }
  }

  lemma {:induction false} StoredLinksParse(c: Checks, ls: seq<Link>, index: nat)
    requires forall i :: 0 <= i < |ls| ==> GoodLink(c, ls[i])
    ensures AllLinks(c, StoredLinks(ls), index) == if TokensFit(ls) then Some(ls) else None
    decreases |ls|
  {
    if ls != [] {
      assert GoodLink(c, ls[0]);
      StoredLinksParse(c, ls[1..], index + 1);
      assert StoredLinks(ls)[1..] == StoredLinks(ls[1..]);
      assert ls == [ls[0]] + ls[1..];
      assert TokensFit(ls) <==> TokenFits(ls[0]) && TokensFit(ls[1..]) by {
        assert forall i :: 0 <= i < |ls[1..]| ==> ls[1..][i] == ls[i + 1];
        assert forall i :: 1 <= i < |ls| ==> ls[i] == ls[1..][i - 1];
      }
    }
  }

  /** Nothing in the record outgrew the bounds the parser sets on what it reads. */
  ghost predicate ReadsBack(r: Record) {
    TokensFit(r.links) && SecretsFit(r.totp)
  }

  /** A written record reads back as itself, or not at all: exactly when a credential or a secret is too long. */
  lemma StoredFormParsesBack(c: Checks, r: Record)
    requires Shaped(c, r)
    ensures Parse(c, Stored(r), r.key) == if ReadsBack(r) then Some(r) else None
  {
    StoredTotpsParse(r.totp);
    StoredBackupsParse(c, r.backups);
    StoredLinksParse(c, r.links, 0);
  }

  /** The longest clean secret whose canonical form is still within the bound. */
  const MAX_CLEAN := 257

  predicate SecretsAreShort(doc: Document) {
    doc.totp.Some? ==> forall i :: 0 <= i < |doc.totp.value| ==> |Base32.Clean(doc.totp.value[i].secret)| <= MAX_CLEAN
  }

  lemma CanonicalFitsIff(d: TotpDoc)
    requires NormaliseTotp(d).Some?
    ensures |NormaliseTotp(d).value.secret| <= MAX_SECRET <==> |Base32.Clean(d.secret)| <= MAX_CLEAN
  {
    Base32.CanonicalLength(d.secret);
    WholeBytesFitIff(|Base32.Clean(d.secret)|);
  }

  lemma WholeBytesFitIff(n: nat)
    ensures (8 * (5 * n / 8) + 4) / 5 <= MAX_SECRET <==> n <= MAX_CLEAN
  {
  }

  lemma SecretsFitIff(c: Checks, doc: Document, key: string)
    requires Parse(c, doc, key).Some?
    ensures SecretsFit(Parse(c, doc, key).value.totp) <==> SecretsAreShort(doc)
  {
    var ds := if doc.totp.Some? then doc.totp.value else [];
    var ts := Parse(c, doc, key).value.totp;
    AllTotpGood(ds);
    forall i | 0 <= i < |ds| ensures |ts[i].secret| <= MAX_SECRET <==> |Base32.Clean(ds[i].secret)| <= MAX_CLEAN {
      CanonicalFitsIff(ds[i]);
    }
  }

  /**
   * Parsing the stored form of anything that parsed gives the same record if and only if every
   * authenticator secret, as the operator wrote it and once cleaned, has at most 257 characters;
   * otherwise it gives nothing.
   */
  lemma ParseStoreParse(c: Checks, doc: Document, key: string)
    requires Parse(c, doc, key).Some?
    ensures Parse(c, Stored(Parse(c, doc, key).value), key) == if SecretsAreShort(doc) then Parse(c, doc, key) else None
  {
    ParsedIsWellFormed(c, doc, key);
    StoredFormParsesBack(c, Parse(c, doc, key).value);
    SecretsFitIff(c, doc, key);
  }

  // ---------------------------------------------------------------- a secret that does not come back

  function Repeated(c: char, n: nat): (s: string)
    ensures |s| == n && forall i :: 0 <= i < n ==> s[i] == c
  {
    seq(n, i => c)
  }

  lemma {:induction false} SharpsFold(n: nat)
    ensures Base32.Fold(Repeated('\U{DF}', n)) == Repeated('S', 2 * n)
  {
    if n > 0 {
      SharpsFold(n - 1);
      assert Repeated('\U{DF}', n)[1..] == Repeated('\U{DF}', n - 1);
      assert Repeated('S', 2 * n) == "SS" + Repeated('S', 2 * n - 2);
    }
  }

  lemma SymbolsDecode(text: string)
    requires Base32.AllSymbols(text) && |text| >= 16
    ensures Base32.Clean(text) == text && Base32.DecodeText(text).Some?
  {
    Base32.CleanSymbols(text);
    Base32.FlattenLength(Base32.Values(text), 5);
    Base32.GroupLength(Bits.Flatten(Base32.Values(text), 5), 8);
  }

  function SharpSecret(n: nat): string {
    Repeated('\U{DF}', n)
  }

  /** Sharp s become twice as many letters. */
  lemma SharpSecretDecodes(n: nat)
    requires n >= 8
    ensures Base32.DecodeText(SharpSecret(n)).Some? && |Base32.Clean(SharpSecret(n))| == 2 * n
  {
    SharpsFold(n);
    var letters := Repeated('S', 2 * n);
    SymbolsDecode(letters);
    Base32.FoldSymbols(letters);
    assert Base32.Clean(SharpSecret(n)) == Base32.Clean(letters);
  }

  function SharpTotp(n: nat): TotpDoc {
    TotpDoc("phone", None, SharpSecret(n), None, None, None, None, false)
  }

  lemma SharpTotpIsAccepted(n: nat)
    requires 8 <= n <= MAX_SECRET
    ensures NormaliseTotp(SharpTotp(n)).Some?
  {
    SharpSecretDecodes(n);
    AlgorithmsAreFixed("SHA1");
  }

  function SharpDocument(hash: string, n: nat): Document {
    Document(1, "somebody", 1, 1, None, None, hash, None, Some([SharpTotp(n)]), None, None, false)
  }

  lemma OneTotpParses(d: TotpDoc)
    requires NormaliseTotp(d).Some?
    ensures AllTotp([d]) == Some([NormaliseTotp(d).value])
  {
    var ds, t := [d], NormaliseTotp(d).value;
    assert ds[1..] == [];
    AllTotpUnfolds(ds);
    assert AllTotp(ds) == Some([t] + AllTotp(ds[1..]).value);
    assert [t] + AllTotp(ds[1..]).value == [t];
  }

  lemma SharpDocumentParses(c: Checks, hash: string, key: string, n: nat)
    requires c.approvedHash(hash) && 8 <= n <= MAX_SECRET
    ensures Parse(c, SharpDocument(hash, n), key).Some?
  {
    SharpTotpIsAccepted(n);
    OneTotpParses(SharpTotp(n));
  }

  /**
   * Documents that are accepted and whose stored form never is again: a secret of 129 to 256 sharp s,
   * which in upper case is twice as long.
   */
  lemma LongSecretIsLost(c: Checks, hash: string, key: string, n: nat)
    requires c.approvedHash(hash) && 129 <= n <= MAX_SECRET
    ensures Parse(c, SharpDocument(hash, n), key).Some?
    ensures Parse(c, Stored(Parse(c, SharpDocument(hash, n), key).value), key).None?
  {
    SharpDocumentParses(c, hash, key, n);
    ParseStoreParse(c, SharpDocument(hash, n), key);
    SharpSecretDecodes(n);
    assert SharpDocument(hash, n).totp.value[0] == SharpTotp(n);
  }

  // ---------------------------------------------------------------- state-only updates

  /** Spending a recovery code, moving a replay marker, or retaining a refresh credential. */
  datatype Update =
    | SpendBackup(backupId: string)
    | MarkStep(totpId: string, step: int)
    | RetainToken(linkId: string, token: string)

  function WithoutBackup(bs: seq<Backup>, id: string): seq<Backup> {
    if bs == [] then [] else (if bs[0].id == id then [] else [bs[0]]) + WithoutBackup(bs[1..], id)
  }

  /** `find` touches the first credential with the id; ids are distinct in a parsed record. */
  function MarkTotp(ts: seq<Totp>, id: string, step: int): (r: seq<Totp>)
    ensures |r| == |ts|
  {
    if ts == [] then []
    else if ts[0].id == id then [ts[0].(lastUsedStep := Some(step))] + ts[1..]
    else [ts[0]] + MarkTotp(ts[1..], id, step)
  }

  function RetainIn(ls: seq<Link>, id: string, token: string): (r: seq<Link>)
    ensures |r| == |ls|
  {
    if ls == [] then []
    else if ls[0].id == id then [ls[0].(refreshToken := Some(token))] + ls[1..]
    else [ls[0]] + RetainIn(ls[1..], id, token)
  }

  /** The record `replace` writes: one mutation and the next revision. */
  function Updated(r: Record, u: Update): Record {
    var next := match u
      case SpendBackup(id) => r.(backups := WithoutBackup(r.backups, id))
      case MarkStep(id, step) => r.(totp := MarkTotp(r.totp, id, step))
      case RetainToken(id, token) => r.(links := RetainIn(r.links, id, token));
    next.(revision := r.revision + 1)
  }

  /** What the callers of `replace` guarantee: a step for which a code could be computed, a safe revision. */
  predicate Admissible(r: Record, u: Update) {
    r.revision < MAX_SAFE && (u.MarkStep? ==> 0 <= u.step <= MAX_SAFE)
  }

  /** What the adapter agrees to write. */
  predicate Writable(c: Checks, r: Record) {
    r.revision <= MAX_SAFE && c.sized(r)
  }

  /** An update after which the parser refuses the record. */
  predicate Oversized(r: Record, u: Update) {
    u.RetainToken? && |u.token| > MAX_TOKEN && exists i :: 0 <= i < |r.links| && r.links[i].id == u.linkId
  }

  lemma DistinctTail(s: seq<string>)
    requires s != [] && DistinctStrings(s)
    ensures DistinctStrings(s[1..])
  {
  }

  lemma {:induction false} WithoutBackupMembers(bs: seq<Backup>, id: string)
    ensures |WithoutBackup(bs, id)| <= |bs|
    ensures forall b :: b in WithoutBackup(bs, id) <==> b in bs && b.id != id
    ensures DistinctStrings(BackupIds(bs)) ==> DistinctStrings(BackupIds(WithoutBackup(bs, id)))
  {
    if bs != [] {
      WithoutBackupMembers(bs[1..], id);
      if DistinctStrings(BackupIds(bs)) {
        BackupIdsTail(bs);
        BackupIdsCons(bs[0], WithoutBackup(bs[1..], id));
      }
    }
  }

  lemma BackupIdsTail(bs: seq<Backup>)
    requires bs != [] && DistinctStrings(BackupIds(bs))
    ensures DistinctStrings(BackupIds(bs[1..])) && forall b :: b in bs[1..] ==> b.id != bs[0].id
  {
    DistinctTail(BackupIds(bs));
    assert BackupIds(bs)[1..] == BackupIds(bs[1..]);
    forall b | b in bs[1..] ensures b.id != bs[0].id {
      var j :| 0 <= j < |bs[1..]| && bs[1..][j] == b;
      assert BackupIds(bs)[j + 1] != BackupIds(bs)[0];
    }
  }

  lemma BackupIdsCons(b: Backup, rest: seq<Backup>)
    requires DistinctStrings(BackupIds(rest)) && forall c :: c in rest ==> c.id != b.id
    ensures DistinctStrings(BackupIds([b] + rest))
  {
    assert forall i :: 0 <= i < |rest| ==> rest[i] in rest;
  }

  lemma TotpIdsTail(ts: seq<Totp>)
    requires ts != [] && DistinctStrings(TotpIds(ts))
    ensures DistinctStrings(TotpIds(ts[1..])) && forall i :: 1 <= i < |ts| ==> ts[i].id != ts[0].id
  {
    DistinctTail(TotpIds(ts));
    assert TotpIds(ts)[1..] == TotpIds(ts[1..]);
    forall i | 1 <= i < |ts| ensures ts[i].id != ts[0].id {
      assert TotpIds(ts)[i] != TotpIds(ts)[0];
    }
  }

  lemma {:induction false} MarkTotpEntries(ts: seq<Totp>, id: string, step: int)
    requires DistinctStrings(TotpIds(ts))
    ensures forall i :: 0 <= i < |ts| ==>
              MarkTotp(ts, id, step)[i] == if ts[i].id == id then ts[i].(lastUsedStep := Some(step)) else ts[i]
  {
    if ts != [] {
      TotpIdsTail(ts);
      var rest := ts[1..];
      if ts[0].id != id {
        MarkTotpEntries(rest, id, step);
      }
      forall i | 0 <= i < |ts|
        ensures MarkTotp(ts, id, step)[i] == if ts[i].id == id then ts[i].(lastUsedStep := Some(step)) else ts[i]
      {
        if i > 0 {
          assert ts[i] == rest[i - 1];
        }
      }
    }
  }

  lemma LinkIdsTail(ls: seq<Link>)
    requires ls != [] && DistinctStrings(LinkIds(ls))
    ensures DistinctStrings(LinkIds(ls[1..])) && forall i :: 1 <= i < |ls| ==> ls[i].id != ls[0].id
  {
    DistinctTail(LinkIds(ls));
    assert LinkIds(ls)[1..] == LinkIds(ls[1..]);
    forall i | 1 <= i < |ls| ensures ls[i].id != ls[0].id {
      assert LinkIds(ls)[i] != LinkIds(ls)[0];
    }
  }

  lemma {:induction false} RetainEntries(ls: seq<Link>, id: string, token: string)
    requires DistinctStrings(LinkIds(ls))
    ensures forall i :: 0 <= i < |ls| ==>
              RetainIn(ls, id, token)[i] == if ls[i].id == id then ls[i].(refreshToken := Some(token)) else ls[i]
  {
    if ls != [] {
      LinkIdsTail(ls);
      var rest := ls[1..];
      if ls[0].id != id {
        RetainEntries(rest, id, token);
      }
      forall i | 0 <= i < |ls|
        ensures RetainIn(ls, id, token)[i] == if ls[i].id == id then ls[i].(refreshToken := Some(token)) else ls[i]
      {
        if i > 0 {
          assert ls[i] == rest[i - 1];
        }
      }
    }
  }

  /** What no update may touch. */
  ghost predicate SameAccount(a: Record, b: Record) {
    && a.id == b.id && a.securityVersion == b.securityVersion && a.disabled == b.disabled
    && a.password == b.password && a.claims == b.claims && a.key == b.key
    && (a.mfaRequired ==> b.mfaRequired)
  }

  lemma SpendKeepsShape(c: Checks, r: Record, id: string)
    requires Shaped(c, r) && r.revision < MAX_SAFE
    ensures Shaped(c, Updated(r, SpendBackup(id)))
  {
    var bs := WithoutBackup(r.backups, id);
    WithoutBackupMembers(r.backups, id);
    forall i | 0 <= i < |bs| ensures GoodBackup(c, bs[i]) {
      assert bs[i] in r.backups;
    }
  }

  lemma MarkKeepsShape(c: Checks, r: Record, id: string, step: int)
    requires Shaped(c, r) && r.revision < MAX_SAFE && 0 <= step <= MAX_SAFE
    ensures Shaped(c, Updated(r, MarkStep(id, step)))
  {
    var ts := MarkTotp(r.totp, id, step);
    MarkTotpEntries(r.totp, id, step);
    assert TotpIds(ts) == TotpIds(r.totp);
    assert TotpSecrets(ts) == TotpSecrets(r.totp);
    forall i | 0 <= i < |ts| ensures GoodTotp(ts[i]) {
      assert GoodTotp(r.totp[i]);
    }
  }

  lemma RetainKeepsShape(c: Checks, r: Record, id: string, token: string)
    requires Shaped(c, r) && r.revision < MAX_SAFE
    ensures Shaped(c, Updated(r, RetainToken(id, token)))
  {
    var ls := RetainIn(r.links, id, token);
    RetainEntries(r.links, id, token);
    assert LinkIds(ls) == LinkIds(r.links);
    forall i | 0 <= i < |ls| ensures GoodLink(c, ls[i]) {
      assert GoodLink(c, r.links[i]);
    }
  }

  /** Every update keeps the account, its policy flag and every structural rule of the parser. */
  lemma UpdateKeepsShape(c: Checks, r: Record, u: Update)
    requires Shaped(c, r) && Admissible(r, u)
    ensures Shaped(c, Updated(r, u)) && SameAccount(r, Updated(r, u))
  {
    match u
    case SpendBackup(id) => SpendKeepsShape(c, r, id);
    case MarkStep(id, step) => MarkKeepsShape(c, r, id, step);
    case RetainToken(id, token) => RetainKeepsShape(c, r, id, token);
  }

  lemma TokensFitAfter(r: Record, u: Update)
    requires TokensFit(r.links) && DistinctStrings(LinkIds(r.links))
    ensures TokensFit(Updated(r, u).links) <==> !Oversized(r, u)
  {
    if u.RetainToken? {
      RetainEntries(r.links, u.linkId, u.token);
      var ls := RetainIn(r.links, u.linkId, u.token);
      if Oversized(r, u) {
        var i :| 0 <= i < |r.links| && r.links[i].id == u.linkId;
        assert !TokenFits(ls[i]);
      } else {
        forall i | 0 <= i < |ls| ensures TokenFits(ls[i]) {
          assert TokenFits(r.links[i]);
        }
      }
    }
  }

  lemma SecretsFitAfter(r: Record, u: Update)
    requires DistinctStrings(TotpIds(r.totp))
    ensures SecretsFit(Updated(r, u).totp) <==> SecretsFit(r.totp)
  {
    if u.MarkStep? {
      MarkTotpEntries(r.totp, u.totpId, u.step);
      var ts := MarkTotp(r.totp, u.totpId, u.step);
      assert forall i :: 0 <= i < |ts| ==> ts[i].secret == r.totp[i].secret;
    }
  }

  /** The updated file reads back exactly, unless it retained a credential, or already held a secret, beyond the parser's bounds. */
  lemma UpdateReadsBackIff(c: Checks, r: Record, u: Update)
    requires WellFormed(c, r) && Admissible(r, u)
    ensures Parse(c, Stored(Updated(r, u)), r.key) == if Oversized(r, u) || !SecretsFit(r.totp) then None else Some(Updated(r, u))
  {
    UpdateKeepsShape(c, r, u);
    TokensFitAfter(r, u);
    SecretsFitAfter(r, u);
    StoredFormParsesBack(c, Updated(r, u));
  }

  function UpdatedAll(r: Record, us: seq<Update>): Record
    decreases |us|
  {
    if us == [] then r else UpdatedAll(Updated(r, us[0]), us[1..])
  }

  /**
   * Over any sequence of updates the account, its password, claims and security version stay the
   * same, a second-factor requirement is never lost (even when the last recovery code is spent)
   * and the revision counts the updates. While retained credentials fit, the file also reads back
   * exactly, or not at all if a secret had outgrown its bound from the start.
   */
  lemma {:induction false} UpdatesKeepRecord(c: Checks, r: Record, us: seq<Update>)
    requires Shaped(c, r) && r.revision + |us| <= MAX_SAFE
    requires forall i :: 0 <= i < |us| ==> us[i].MarkStep? ==> 0 <= us[i].step <= MAX_SAFE
    ensures SameAccount(r, UpdatedAll(r, us)) && UpdatedAll(r, us).revision == r.revision + |us|
    ensures TokensFit(r.links) && (forall i :: 0 <= i < |us| ==> us[i].RetainToken? ==> |us[i].token| <= MAX_TOKEN)
            ==> Parse(c, Stored(UpdatedAll(r, us)), r.key) == if SecretsFit(r.totp) then Some(UpdatedAll(r, us)) else None
    decreases |us|
  {
    if us == [] {
      StoredFormParsesBack(c, r);
    } else {
      UpdateKeepsShape(c, r, us[0]);
      if TokensFit(r.links) {
        TokensFitAfter(r, us[0]);
      }
      SecretsFitAfter(r, us[0]);
      UpdatesKeepRecord(c, Updated(r, us[0]), us[1..]);
    }
  }
}

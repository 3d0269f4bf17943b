/**
 * The interactive flow as a transition system.
 *
 * The server keeps only a claim store and the local identity directory.  Everything else lives in
 * sealed tokens held by the browser, so the state records every token ever sealed and each step may
 * present any of them, in any order and any number of times.  Each handler is one step at one clock
 * reading; what the handler cannot decide (DNS hints, mail delivery, rate limits, upstream replies,
 * password verification) is part of the step's input.
 */
module Protocol {
  import opened Basics
  import opened Acr
  import opened Session
  import opened Transaction
  import opened Identity
  import ClaimStore

  // ---------------------------------------------------------------- configuration

  datatype DnsHint = HintOff | HintSuggest | HintSelect

  datatype Upstream = Upstream(id: string, isCommon: bool, plainOidc: bool)

  datatype Config = Config(
    otpEnabled: bool,
    otpDomain: string -> bool,
    otpTtl: nat,
    otpMaxResends: nat,
    otpMaxAttempts: nat,
    localStore: bool,
    localDomain: string -> bool,
    upstreams: set<string>,
    upstreamsFor: string -> seq<Upstream>,
    dnsHint: DnsHint,
    explainUnknown: bool,
    transactionTtl: nat,
    codeTtl: nat,
    life: Lifetimes,
    clockSkew: nat,
    sanitisePlus: string -> bool,
    sector: string -> string,
    sha256: string -> string,
    addressOf: string -> Option<string>,   // what the email form makes of its input: Identity.ReadAddress
    stateStore: bool,
    maxEntries: nat)

  predicate OtpAllowed(cfg: Config, email: Option<string>) {
    cfg.otpEnabled && email.Some? && cfg.otpDomain(email.value)
  }

  predicate LocalAllowed(cfg: Config, email: Option<string>) {
    cfg.localStore && email.Some? && cfg.localDomain(email.value)
  }

  function Candidates(cfg: Config, email: Option<string>): seq<Upstream> {
    if email.Some? then cfg.upstreamsFor(email.value) else []
  }

  /**
   * An address that nothing serves in a deployment that keeps quiet about it: it gets the code
   * screen all the same, whatever the request demands, and no mail.
   */
  ghost predicate DecoyPossible(cfg: Config, email: Option<string>) {
    && cfg.otpEnabled && !cfg.explainUnknown && email.Some? && (exists typed :: cfg.addressOf(typed) == email)
    && !LocalAllowed(cfg, email) && Candidates(cfg, email) == [] && !OtpAllowed(cfg, email)
  }

  /** A decoy screen that would take a code at all. */
  ghost predicate GuessableDecoy(cfg: Config, email: Option<string>) {
    DecoyPossible(cfg, email) && cfg.otpMaxAttempts > 0
  }

  // ---------------------------------------------------------------- identity

  /** One relying party's view of an address. */
  function IdentityEmail(cfg: Config, email: string, clientId: string): string {
    if cfg.sanitisePlus(clientId) then StripPlusTag(email) else email
  }

  /** An ideal subject derivation: distinct principals, sectors and kinds give distinct subjects. */
  datatype Subject = EmailSubject(sector: string, email: string) | LocalSubject(sector: string, identity: string)

  // ---------------------------------------------------------------- sealed values

  datatype LegInfo = LegInfo(upstream: string, nonce: string, hinted: bool)

  /** The copy of a transaction handed to an upstream provider as its `state`. */
  datatype Leg = Leg(tx: Tx, info: LegInfo)

  datatype Code = Code(
    jti: string,
    clientId: string,
    redirectUri: string,
    scope: seq<string>,
    nonce: Option<string>,
    codeChallenge: Option<string>,
    idTokenAlg: Option<string>,
    resource: seq<string>,
    sub: Subject,
    email: string,
    emailVerified: bool,
    acr: string,
    authTime: int,
    sid: string,
    claims: Option<Claims>,
    localId: Option<string>,
    localKey: Option<RecordKey>,
    localVersion: Option<int>,
    iat: int,
    exp: int)

  // ---------------------------------------------------------------- directory and history

  datatype Link = Link(upstream: string, issuer: string, subject: string)

  datatype IdentityRecord = IdentityRecord(
    id: string, version: int, disabled: bool, mfaRequired: bool, links: set<Link>, claims: Option<Claims>)

  /** Authentication evidence, recorded at the moment the evidence was checked. */
  datatype Proof =
    | OtpProof(digest: Digest, inferred: Option<Claims>, at: int)
    | UpstreamProof(upstream: string, email: string, mfa: bool, claims: Option<Claims>,
                    issuer: string, subject: string, linked: Option<LocalRef>, at: int)
    | PasswordProof(txId: string, email: string, identity: LocalRef, at: int)
    | LocalProof(txId: string, email: string, identity: LocalRef, secondFactor: bool,
                 claims: Option<Claims>, at: int)

  datatype Asked = Asked(request: Request, at: int)

  /** A minted code together with the transaction it completed and the evidence it rests on. */
  datatype Minted = Minted(code: Code, txId: string, proof: Proof)

  datatype Redemption = Redemption(code: Code, clientId: string, redirectUri: string,
                                   verifier: Option<string>, at: int)

  datatype ClaimId = SpentCode(jti: string) | RevokedSession(sid: string) | OtherClaim(tag: string)

  datatype State = State(
    now: int,
    // every value ever sealed
    txs: set<Tx>,
    legs: set<Leg>,
    sessions: map<Session, Proof>,
    codes: map<string, Minted>,
    // what the server holds
    claims: map<ClaimId, int>,
    directory: map<RecordKey, IdentityRecord>,
    // history
    requests: map<string, Asked>,
    generated: set<Digest>,
    delivered: set<Digest>,
    proofs: set<Proof>,
    sidAbs: map<string, int>,
    loggedOut: set<string>,
    redemptions: seq<Redemption>)

  predicate Init(s: State) {
    && s.txs == {} && s.legs == {} && s.sessions == map[] && s.codes == map[]
    && s.claims == map[] && s.requests == map[] && s.generated == {} && s.delivered == {}
    && s.proofs == {} && s.sidAbs == map[] && s.loggedOut == {} && s.redemptions == []
  }

  // ---------------------------------------------------------------- what a handler does

  /** What a response seals.  An error page or an error redirect seals nothing. */
  datatype Effect =
    | Refuse
    | Page(tx: Tx)
    | SendCode(tx: Tx, digest: Digest, delivered: bool)
    | AskSecondFactor(tx: Tx, proof: Proof)
    | RedirectUpstream(leg: Leg)
    | Complete(tx: Tx, session: Session, proof: Proof)

  datatype SendEnv = SendEnv(limitAllowed: bool, code: string, mailAccepted: bool)

  datatype RouteEnv = RouteEnv(
    hinted: Option<Upstream>, unmatched: bool, upstreamReachable: bool, nonce: string, send: SendEnv)

  // ---------------------------------------------------------------- reading a session back

  function ReadSession(cfg: Config, s: State, presented: Option<Session>): (r: Option<Session>)
    ensures r.Some? ==> r == presented
  {
    if presented.None? then None
    else if presented.value.exp < s.now then None
    else if presented.value.abs < s.now then None
    else if cfg.stateStore && ClaimStore.Held(s.claims, s.now, RevokedSession(presented.value.sid)) then None
    else presented
  }

  /** Does the directory still hold an enabled record with this id and security version? */
  predicate RecordCurrent(s: State, key: RecordKey, id: string, version: int) {
    && key in s.directory
    && !s.directory[key].disabled
    && s.directory[key].id == id
    && s.directory[key].version == version
  }

  function ValidSession(cfg: Config, s: State, session: Option<Session>): (r: Option<Session>)
    ensures r.Some? ==> r == session
  {
    if session.None? || session.value.localId.None? then session
    else if !cfg.localStore || session.value.localKey.None? || session.value.localVersion.None? then None
    else if RecordCurrent(s, session.value.localKey.value, session.value.localId.value, session.value.localVersion.value)
    then session
    else None
  }

  // ---------------------------------------------------------------- GET /authorize

  function Decide(cfg: Config, s: State, tx: Tx, session: Option<Session>): Effect
    requires session.Some? ==> session.value in s.sessions
  {
    var forcesLogin := PromptLogin in tx.prompt || PromptSelectAccount in tx.prompt;
    var good := session.Some?
                && IsFresh(session.value, s.now, tx.maxAge, cfg.clockSkew)
                && Satisfies(session.value.acr, tx.acrValues);
    if PromptNone in tx.prompt then
      if good && !forcesLogin then Complete(tx, session.value, s.sessions[session.value]) else Refuse
    else if good && !forcesLogin && PromptConsent in tx.prompt then Page(tx.(stage := Continue))
    else Page(tx.(stage := Stage.Email))
  }

  // ---------------------------------------------------------------- email one-time codes

  function SendOtp(cfg: Config, s: State, tx: Tx, resend: bool, env: SendEnv): Effect
    requires tx.email.Some?
  {
    var resends := if resend then (if tx.otp.Some? then tx.otp.value.resends else 0) + 1 else 0;
    if resends > cfg.otpMaxResends then Page(tx)
    else if !env.limitAllowed then
      Page(if tx.otp.Some? then tx else WithOtp(tx, s.now, None, s.now + cfg.otpTtl, resends))
    else
      var digest := Digest(tx.id, tx.email.value, env.code);
      var next := WithOtp(tx, s.now, Some(digest), s.now + cfg.otpTtl, resends);
      SendCode(next, digest, OtpAllowed(cfg, tx.email) && env.mailAccepted)
  }

  function StartUpstream(cfg: Config, s: State, tx: Tx, upstream: string, hinted: bool, env: RouteEnv): Effect
    requires tx.email.Some?
  {
    if env.upstreamReachable then RedirectUpstream(Leg(tx, LegInfo(upstream, env.nonce, hinted)))
    else if OtpAllowed(cfg, tx.email) && !RequiresFederation(tx.acrValues) then SendOtp(cfg, s, tx, false, env.send)
    else Refuse
  }

  /** Decide how an address should be authenticated. */
  function Route(cfg: Config, s: State, tx: Tx, env: RouteEnv): Effect
    requires tx.email.Some?
  {
    var candidates := Candidates(cfg, tx.email);
    var otpPossible := OtpAllowed(cfg, tx.email) && !RequiresFederation(tx.acrValues);
    if LocalAllowed(cfg, tx.email) then Page(tx.(stage := LocalPassword))
    else if |candidates| > 0 && !candidates[0].isCommon then
      if |candidates| == 1 then StartUpstream(cfg, s, tx, candidates[0].id, false, env)
      else Page(tx.(stage := Choose))
    else if |candidates| == 1 && (cfg.dnsHint == HintOff || candidates[0].plainOidc) then
      StartUpstream(cfg, s, tx, candidates[0].id, false, env)
    else if |candidates| > 0 then
      if env.hinted.Some? && cfg.dnsHint == HintSelect then
        StartUpstream(cfg, s, tx, env.hinted.value.id, true, env)
      else if otpPossible && (env.unmatched || (|candidates| == 1 && env.hinted.None?)) then
        SendOtp(cfg, s, tx, false, env.send)
      else Page(tx.(stage := Choose))
    else if otpPossible then SendOtp(cfg, s, tx, false, env.send)
    else if OtpAllowed(cfg, tx.email) then Refuse
    else if cfg.explainUnknown || !cfg.otpEnabled then Page(tx.(stage := Stage.Email))
    else SendOtp(cfg, s, tx, false, env.send)
  }

  function EmailSubmit(cfg: Config, s: State, tx: Tx, typed: string, remember: bool,
                       otpMethod: bool, env: RouteEnv): Effect
  {
    var next := tx.(rememberMe := Some(remember));
    var email := cfg.addressOf(typed);
    if email.None? then Page(next.(stage := Stage.Email))
    else
      var ready := next.(email := email);
      if otpMethod && cfg.otpEnabled && !RequiresFederation(ready.acrValues) then
        SendOtp(cfg, s, ready, false, env.send)
      else Route(cfg, s, ready, env)
  }

  function OtpRequest(cfg: Config, s: State, tx: Tx, env: SendEnv): Effect {
    if !OtpAllowed(cfg, tx.email) || RequiresFederation(tx.acrValues) then Refuse
    else SendOtp(cfg, s, tx, false, env)
  }

  function Resend(cfg: Config, s: State, tx: Tx, env: SendEnv): Effect {
    if tx.email.None? || tx.stage != Otp then Refuse else SendOtp(cfg, s, tx, true, env)
  }

  predicate CodeAccepted(cfg: Config, s: State, tx: Tx, code: string)
    requires tx.otp.Some? && tx.email.Some?
  {
    && tx.otp.value.digest.Some?
    && !(tx.otp.value.exp < s.now)
    && tx.otp.value.attempts < cfg.otpMaxAttempts
    && tx.otp.value.digest.value == Digest(tx.id, tx.email.value, code)
  }

  function OtpSubmit(cfg: Config, s: State, tx: Tx, code: string, inferred: Option<Claims>,
                     presented: Option<Session>, sid: string): Effect
  {
    if tx.stage != Otp || tx.otp.None? || tx.email.None? then Refuse
    else if !CodeAccepted(cfg, s, tx, code) then Page(WithOtpAttempt(tx))
    else
      var args := SessionArgs(tx.email.value, true, OTP, None, inferred, None, None, None);
      var existing := ReadSession(cfg, s, presented);
      var session :=
        if existing.Some? && existing.value.localId.None? && existing.value.email == tx.email.value
        then Reauthenticate(cfg.life, s.now, existing.value, args)
        else NewSession(cfg.life, s.now, sid, args);
      Complete(tx, session, OtpProof(Digest(tx.id, tx.email.value, code), inferred, s.now))
  }

  // ---------------------------------------------------------------- local password and second factor

  function CompleteLocal(cfg: Config, s: State, tx: Tx, record: IdentityRecord, secondFactor: bool,
                         presented: Option<Session>, sid: string): Effect
    requires tx.email.Some?
  {
    var email := tx.email.value;
    var args := SessionArgs(email, false, AcrForLocal(secondFactor), None, record.claims,
                            Some(record.id), Some(RecordKey(email)), Some(record.version));
    var existing := ValidSession(cfg, s, ReadSession(cfg, s, presented));
    var session :=
      if existing.Some? && existing.value.localId == Some(record.id)
      then Reauthenticate(cfg.life, s.now, existing.value, args)
      else NewSession(cfg.life, s.now, sid, args);
    Complete(tx, session,
             LocalProof(tx.id, email, LocalRef(record.id, record.version), secondFactor, record.claims, s.now))
  }

  function LocalPasswordSubmit(cfg: Config, s: State, tx: Tx, limitAllowed: bool, passwordMatches: bool,
                               presented: Option<Session>, sid: string): Effect
  {
    if tx.stage != LocalPassword || tx.email.None? || !LocalAllowed(cfg, tx.email) then Refuse
    else
      var key := RecordKey(tx.email.value);
      var verified := key in s.directory && !s.directory[key].disabled && passwordMatches;
      if !verified || !limitAllowed then Page(tx)
      else
        var record := s.directory[key];
        if !Satisfies(AcrForLocal(record.mfaRequired), tx.acrValues) then Page(tx)
        else if record.mfaRequired then
          var identity := LocalRef(record.id, record.version);
          AskSecondFactor(tx.(localIdentity := Some(identity), stage := LocalMfa),
                          PasswordProof(tx.id, tx.email.value, identity, s.now))
        else CompleteLocal(cfg, s, tx, record, false, presented, sid)
  }

  function LocalMfaSubmit(cfg: Config, s: State, tx: Tx, limitAllowed: bool, factorAccepted: bool,
                          presented: Option<Session>, sid: string): Effect
  {
    if tx.stage != LocalMfa || tx.email.None? || tx.localIdentity.None? || !LocalAllowed(cfg, tx.email) then Refuse
    else
      var key := RecordKey(tx.email.value);
      var expected := RecordCurrent(s, key, tx.localIdentity.value.id, tx.localIdentity.value.version);
      if !(expected && factorAccepted) || !limitAllowed then Page(tx)
      else CompleteLocal(cfg, s, tx, s.directory[key], true, presented, sid)
  }

  // ---------------------------------------------------------------- restart and continue

  function Restart(tx: Tx): Effect {
    Page(WithoutOtp(tx))
  }

  function ContinueSubmit(cfg: Config, s: State, tx: Tx, presented: Option<Session>): Effect
    requires presented.Some? ==> presented.value in s.sessions
  {
    var session := ValidSession(cfg, s, ReadSession(cfg, s, presented));
    if session.None?
       || !IsFresh(session.value, s.now, tx.maxAge, cfg.clockSkew)
       || !Satisfies(session.value.acr, tx.acrValues)
    then Page(tx.(stage := Stage.Email))
    else Complete(tx, session.value, s.sessions[session.value])
  }

  // ---------------------------------------------------------------- upstream round trip

  function ChooseUpstream(cfg: Config, s: State, tx: Tx, chosen: string, env: RouteEnv): Effect {
    if exists u :: u in Candidates(cfg, tx.email) && u.id == chosen
    then StartUpstream(cfg, s, tx, chosen, false, env)
    else Refuse
  }

  datatype UpstreamReply =
    | ProviderError(accessDenied: bool)
    | MissingCode
    | ExchangeFailed
    | Authenticated(email: string, mfa: bool, issuer: string, subject: string, claims: Option<Claims>,
                    refreshStored: bool)

  /** An upstream failed part way through: local password, the other providers, an email code, or an error. */
  function OfferFallback(cfg: Config, tx: Tx): Effect {
    if LocalAllowed(cfg, tx.email) then Page(WithoutAttempt(tx).(stage := LocalPassword))
    else if |Candidates(cfg, tx.email)| > 1 then Page(WithoutAttempt(tx).(stage := Choose))
    else if OtpAllowed(cfg, tx.email) && !RequiresFederation(tx.acrValues) then Page(WithoutOtp(tx))
    else Refuse
  }

  function Callback(cfg: Config, s: State, leg: Leg, reply: UpstreamReply,
                    presented: Option<Session>, sid: string): Effect
  {
    var tx := leg.tx;
    match reply
    case ProviderError(accessDenied) =>
      if PromptNone in tx.prompt || (accessDenied && !leg.info.hinted) then Refuse else OfferFallback(cfg, tx)
    case MissingCode => Refuse
    case ExchangeFailed => if leg.info.upstream in cfg.upstreams then OfferFallback(cfg, tx) else Refuse
    case Authenticated(email, mfa, issuer, subject, claims, refreshStored) =>
      if leg.info.upstream !in cfg.upstreams then Refuse
      else if !Satisfies(AcrFromUpstream(mfa), tx.acrValues) then Refuse
      else
        var key := RecordKey(email);
        var linked :=
          if && cfg.localStore && tx.email == Some(email)
             && key in s.directory && !s.directory[key].disabled
             && Link(leg.info.upstream, issuer, subject) in s.directory[key].links
          then Some(LocalRef(s.directory[key].id, s.directory[key].version)) else None;
        if linked.Some? && !refreshStored then Refuse
        else
          var args := SessionArgs(
            email, true, AcrFromUpstream(mfa), Some(leg.info.upstream), claims,
            if linked.Some? then Some(linked.value.id) else None,
            if linked.Some? then Some(key) else None,
            if linked.Some? then Some(linked.value.version) else None);
          var existing := ValidSession(cfg, s, ReadSession(cfg, s, presented));
          var samePrincipal := existing.Some? &&
            if linked.Some? then existing.value.localId == Some(linked.value.id)
            else existing.value.localId.None? && existing.value.email == email;
          var session :=
            if samePrincipal then Reauthenticate(cfg.life, s.now, existing.value, args)
            else NewSession(cfg.life, s.now, sid, args);
          Complete(tx, session,
                   UpstreamProof(leg.info.upstream, email, mfa, claims, issuer, subject, linked, s.now))
  }

  // ---------------------------------------------------------------- completion

  function IssueCode(cfg: Config, now: int, jti: string, tx: Tx, session: Session): Code {
    var email := IdentityEmail(cfg, session.email, tx.clientId);
    var sub := if session.localId.Some? then LocalSubject(cfg.sector(tx.clientId), session.localId.value)
               else EmailSubject(cfg.sector(tx.clientId), email);
    Code(jti, tx.clientId, tx.redirectUri, tx.scope, tx.nonce, tx.codeChallenge, tx.idTokenAlg, tx.resource,
         sub, email, session.emailVerified, session.acr, session.authTime, session.sid, session.claims,
         session.localId, session.localKey, session.localVersion, now, now + cfg.codeTtl)
  }

  /** Seal whatever the handler decided on, and remember why. */
  function Apply(cfg: Config, s: State, effect: Effect, jti: string): State {
    match effect
    case Refuse => s
    case Page(tx) => s.(txs := s.txs + {tx})
    case SendCode(tx, digest, delivered) =>
      s.(txs := s.txs + {tx},
         generated := s.generated + {digest},
         delivered := if delivered then s.delivered + {digest} else s.delivered)
    case AskSecondFactor(tx, proof) => s.(txs := s.txs + {tx}, proofs := s.proofs + {proof})
    case RedirectUpstream(leg) => s.(legs := s.legs + {leg})
    case Complete(tx, authenticated, proof) =>
      var session := Touch(cfg.life, s.now, authenticated);
      s.(sessions := s.sessions[session := proof],
         codes := s.codes[jti := Minted(IssueCode(cfg, s.now, jti, tx, session), tx.id, proof)],
         proofs := s.proofs + {proof},
         sidAbs := s.sidAbs[session.sid := session.abs])
  }

  // ---------------------------------------------------------------- token endpoint

  predicate VerifierChar(c: char) {
    'A' <= c <= 'Z' || 'a' <= c <= 'z' || '0' <= c <= '9' || c in "-._~"
  }

  predicate WellFormedVerifier(v: string) {
    43 <= |v| <= 128 && forall i :: 0 <= i < |v| ==> VerifierChar(v[i])
  }

  /** Every check before the single-use claim. */
  predicate GrantMatches(cfg: Config, now: int, code: Code, clientId: string, redirectUri: string, verifier: Option<string>) {
    && !(code.exp < now)
    && code.clientId == clientId
    && redirectUri != "" && code.redirectUri == redirectUri
    && (code.codeChallenge.Some? ==>
          && verifier.Some?
          && WellFormedVerifier(verifier.value)
          && cfg.sha256(verifier.value) == code.codeChallenge.value)
  }

  datatype Exchange = Exchange(claims: map<ClaimId, int>, issued: seq<Redemption>)

  /** The claim is made before the local record is re-validated, so a refused local grant is spent too. */
  function Redeem(cfg: Config, s: State, code: Code, clientId: string, redirectUri: string,
                  verifier: Option<string>): Exchange
  {
    if !GrantMatches(cfg, s.now, code, clientId, redirectUri, verifier) then Exchange(s.claims, [])
    else
      var id := SpentCode(code.jti);
      var unspent := !cfg.stateStore || ClaimStore.Outcome(s.claims, cfg.maxEntries, s.now, id).Fresh?;
      var claims := if cfg.stateStore
                    then ClaimStore.AfterClaim(s.claims, cfg.maxEntries, s.now, id, code.exp - s.now + 60)
                    else s.claims;
      var active := code.localId.Some? ==>
                      && cfg.localStore && code.localKey.Some? && code.localVersion.Some?
                      && RecordCurrent(s, code.localKey.value, code.localId.value, code.localVersion.value);
      Exchange(claims, if unspent && active then [Redemption(code, clientId, redirectUri, verifier, s.now)] else [])
  }

  // ---------------------------------------------------------------- logout

  datatype RevokeAll = Revoked(claims: map<ClaimId, int>) | StoreFull(claims: map<ClaimId, int>)

  /** Revoke one presented session until its absolute cap; a session that no longer reads back is skipped. */
  function RevokeOne(cfg: Config, now: int, claims: map<ClaimId, int>, session: Session): RevokeAll {
    var id := RevokedSession(session.sid);
    if session.exp < now || session.abs < now || ClaimStore.Held(claims, now, id) then Revoked(claims)
    else if session.abs - now > 0 then
      var after := ClaimStore.AfterClaim(claims, cfg.maxEntries, now, id, session.abs - now);
      if ClaimStore.Outcome(claims, cfg.maxEntries, now, id).Full? then StoreFull(after) else Revoked(after)
    else Revoked(claims)
  }

  /** Every presented session in turn; a full store stops the loop with an error. */
  function RevokeEach(cfg: Config, now: int, claims: map<ClaimId, int>, sessions: seq<Session>): RevokeAll
    decreases |sessions|
  {
    if sessions == [] then Revoked(claims)
    else match RevokeOne(cfg, now, claims, sessions[0])
      case StoreFull(after) => StoreFull(after)
      case Revoked(after) => RevokeEach(cfg, now, after, sessions[1..])
  }

  /** The loop of the source: cookie by cookie, stopping with an error when the store cannot take a marker. */
  method RevokeCookies(cfg: Config, now: int, before: map<ClaimId, int>, sessions: seq<Session>) returns (r: RevokeAll)
    ensures r == RevokeEach(cfg, now, before, sessions)
  {
    var claims := before;
    var i := 0;
    while i < |sessions|
      invariant 0 <= i <= |sessions|
      invariant RevokeEach(cfg, now, claims, sessions[i..]) == RevokeEach(cfg, now, before, sessions)
    {
      assert sessions[i..][0] == sessions[i] && sessions[i..][1..] == sessions[i + 1..];
      var one := RevokeOne(cfg, now, claims, sessions[i]);
      if one.StoreFull? {
        return one;
      }
      claims := one.claims;
      i := i + 1;
    }
    return Revoked(claims);
  }

  /** The sessions a logout can still end: readable, and not in the very last second of their cap. */
  function Ended(now: int, sessions: seq<Session>): set<string> {
    set i | 0 <= i < |sessions| && sessions[i].exp >= now && sessions[i].abs > now :: sessions[i].sid
  }

  datatype SignOut = SignOut(claims: map<ClaimId, int>, ended: set<string>)

  function Logout(cfg: Config, s: State, presented: seq<Session>): SignOut {
    if !cfg.stateStore then SignOut(s.claims, {})
    else match RevokeEach(cfg, s.now, s.claims, presented)
      case Revoked(claims) => SignOut(claims, Ended(s.now, presented))
      case StoreFull(claims) => SignOut(claims, {})
  }

  // ---------------------------------------------------------------- steps and runs

  datatype Input =
    | Tick(seconds: nat)
    | AuthorizeIn(request: Request, txId: string, presented: Option<Session>, jti: string)
    | EmailIn(tx: Tx, typed: string, remember: bool, otpMethod: bool, env: RouteEnv)
    | OtpRequestIn(tx: Tx, send: SendEnv)
    | ResendIn(tx: Tx, send: SendEnv)
    | OtpIn(tx: Tx, code: string, inferred: Option<Claims>, presented: Option<Session>, sid: string, jti: string)
    | PasswordIn(tx: Tx, limitAllowed: bool, matches: bool, presented: Option<Session>, sid: string, jti: string)
    | MfaIn(tx: Tx, limitAllowed: bool, accepted: bool, presented: Option<Session>, sid: string, jti: string)
    | RestartIn(tx: Tx)
    | ContinueIn(tx: Tx, presented: Option<Session>, jti: string)
    | ChooseIn(tx: Tx, chosen: string, env: RouteEnv)
    | CallbackIn(leg: Leg, reply: UpstreamReply, presented: Option<Session>, sid: string, jti: string)
    | TokenIn(code: string, clientId: string, redirectUri: string, verifier: Option<string>)
    | LogoutIn(cookies: seq<Session>)
    | OtherClaimIn(tag: string, ttl: int)
    | HasIn(id: ClaimId)
    | OperatorIn(directory: map<RecordKey, IdentityRecord>)

  /** Sealing is ideal: only values that were sealed can be presented, and random identifiers are new. */
  predicate Admissible(s: State, i: Input) {
    match i
    case Tick(_) => true
    case AuthorizeIn(_, txId, presented, jti) =>
      txId !in s.requests && jti !in s.codes && (presented.Some? ==> presented.value in s.sessions)
    case EmailIn(tx, _, _, _, _) => tx in s.txs
    case OtpRequestIn(tx, _) => tx in s.txs
    case ResendIn(tx, _) => tx in s.txs
    case OtpIn(tx, _, _, presented, sid, jti) =>
      tx in s.txs && sid !in s.sidAbs && jti !in s.codes && (presented.Some? ==> presented.value in s.sessions)
    case PasswordIn(tx, _, _, presented, sid, jti) =>
      tx in s.txs && sid !in s.sidAbs && jti !in s.codes && (presented.Some? ==> presented.value in s.sessions)
    case MfaIn(tx, _, _, presented, sid, jti) =>
      tx in s.txs && sid !in s.sidAbs && jti !in s.codes && (presented.Some? ==> presented.value in s.sessions)
    case RestartIn(tx) => tx in s.txs
    case ContinueIn(tx, presented, jti) =>
      tx in s.txs && jti !in s.codes && (presented.Some? ==> presented.value in s.sessions)
    case ChooseIn(tx, _, _) => tx in s.txs
    case CallbackIn(leg, _, presented, sid, jti) =>
      leg in s.legs && sid !in s.sidAbs && jti !in s.codes && (presented.Some? ==> presented.value in s.sessions)
    case TokenIn(code, _, _, _) => code in s.codes
    case LogoutIn(cookies) => forall k :: 0 <= k < |cookies| ==> cookies[k] in s.sessions
    case OtherClaimIn(_, _) => true
    case HasIn(_) => true
    case OperatorIn(_) => true
  }

  /** An authorization request is remembered before anything is decided about it. */
  function Base(s: State, i: Input): State {
    if i.AuthorizeIn? then s.(requests := s.requests[i.txId := Asked(i.request, s.now)]) else s
  }

  /** The response a handler gives, to a new request or to a transaction that opened and has not expired. */
  function Respond(cfg: Config, s: State, i: Input): Effect
    requires Admissible(s, i)
  {
    match i
    case AuthorizeIn(request, txId, presented, _) =>
      Decide(cfg, Base(s, i), NewTransaction(s.now, cfg.transactionTtl, txId, request),
             ValidSession(cfg, s, ReadSession(cfg, s, presented)))
    case EmailIn(tx, typed, remember, otpMethod, env) =>
      if Expired(tx, s.now) then Refuse else EmailSubmit(cfg, s, tx, typed, remember, otpMethod, env)
    case OtpRequestIn(tx, send) => if Expired(tx, s.now) then Refuse else OtpRequest(cfg, s, tx, send)
    case ResendIn(tx, send) => if Expired(tx, s.now) then Refuse else Resend(cfg, s, tx, send)
    case OtpIn(tx, code, inferred, presented, sid, _) =>
      if Expired(tx, s.now) then Refuse else OtpSubmit(cfg, s, tx, code, inferred, presented, sid)
    case PasswordIn(tx, limitAllowed, matches, presented, sid, _) =>
      if Expired(tx, s.now) then Refuse
      else LocalPasswordSubmit(cfg, s, tx, limitAllowed, matches, presented, sid)
    case MfaIn(tx, limitAllowed, accepted, presented, sid, _) =>
      if Expired(tx, s.now) then Refuse else LocalMfaSubmit(cfg, s, tx, limitAllowed, accepted, presented, sid)
    case RestartIn(tx) => if Expired(tx, s.now) then Refuse else Restart(tx)
    case ContinueIn(tx, presented, _) =>
      if Expired(tx, s.now) then Refuse else ContinueSubmit(cfg, s, tx, presented)
    case ChooseIn(tx, chosen, env) => if Expired(tx, s.now) then Refuse else ChooseUpstream(cfg, s, tx, chosen, env)
    case CallbackIn(leg, reply, presented, sid, _) =>
      if Expired(leg.tx, s.now) then Refuse else Callback(cfg, s, leg, reply, presented, sid)
    case _ => Refuse
  }

  /** The random identifier a completing step would give its code. */
  function CodeIdOf(i: Input): string {
    match i
    case AuthorizeIn(_, _, _, jti) => jti
    case OtpIn(_, _, _, _, _, jti) => jti
    case PasswordIn(_, _, _, _, _, jti) => jti
    case MfaIn(_, _, _, _, _, jti) => jti
    case ContinueIn(_, _, jti) => jti
    case CallbackIn(_, _, _, _, jti) => jti
    case _ => ""
  }

  function AfterExchange(s: State, x: Exchange): State {
    s.(claims := x.claims, redemptions := s.redemptions + x.issued)
  }

  function AfterLogout(s: State, out: SignOut): State {
    s.(claims := out.claims, loggedOut := s.loggedOut + out.ended)
  }

  function Step(cfg: Config, s: State, i: Input): State
    requires Admissible(s, i)
  {
    match i
    case Tick(seconds) => s.(now := s.now + seconds)
    case TokenIn(code, clientId, redirectUri, verifier) =>
      AfterExchange(s, Redeem(cfg, s, s.codes[code].code, clientId, redirectUri, verifier))
    case LogoutIn(cookies) => AfterLogout(s, Logout(cfg, s, cookies))
    case OtherClaimIn(tag, ttl) =>
      s.(claims := ClaimStore.AfterClaim(s.claims, cfg.maxEntries, s.now, OtherClaim(tag), ttl))
    case HasIn(id) => s.(claims := ClaimStore.AfterHas(s.claims, s.now, id))
    case OperatorIn(directory) => s.(directory := directory)
    case _ => Apply(cfg, Base(s, i), Respond(cfg, s, i), CodeIdOf(i))
  }

  /** A run is any sequence of steps each of which was admissible when it was taken. */
  ghost predicate IsRun(cfg: Config, run: seq<State>, inputs: seq<Input>) {
    && |run| == |inputs| + 1
    && Init(run[0])
    && forall k {:trigger inputs[k]} :: 0 <= k < |inputs| ==>
         Admissible(run[k], inputs[k]) && run[k + 1] == Step(cfg, run[k], inputs[k])
  }
}

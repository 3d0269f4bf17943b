/**
 * What the flow lets happen.  The safety theorems alone would hold of a gateway that refuses
 * everybody; here each way of signing in is followed from the request to the exchanged code, with
 * anything at all (other people, other requests, copies, clock ticks) in between.
 */
module ProtocolProgress {
  import opened Basics
  import opened Acr
  import opened Session
  import opened Transaction
  import opened Protocol
  import opened ProtocolInvariant
  import opened ProtocolRuns
  import ClaimStore

  // ---------------------------------------------------------------- the exchange

  /** The client comes back in time, with its verifier, to a store with room; a local account is still in force. */
  predicate Timely(cfg: Config, s: State, code: Code, verifier: Option<string>) {
    && s.now <= code.exp && code.redirectUri != ""
    && (code.codeChallenge.Some? ==>
          verifier.Some? && WellFormedVerifier(verifier.value) && cfg.sha256(verifier.value) == code.codeChallenge.value)
    && (cfg.stateStore ==> !ClaimStore.Outcome(s.claims, cfg.maxEntries, s.now, SpentCode(code.jti)).Full?)
    && (code.localId.Some? ==>
          && cfg.localStore && code.localKey.Some? && code.localVersion.Some?
          && RecordCurrent(s, code.localKey.value, code.localId.value, code.localVersion.value))
  }

  /** Presenting the code now adds its redemption. */
  predicate Redeems(cfg: Config, s: State, code: Code, verifier: Option<string>) {
    Take(cfg, s, TokenIn(code.jti, code.clientId, code.redirectUri, verifier)).redemptions
    == s.redemptions + [Redemption(code, code.clientId, code.redirectUri, verifier, s.now)]
  }

  /** Whatever happens next, the first timely presentation of the code by its client is honoured. */
  ghost predicate ExchangedLater(cfg: Config, s: State, jti: string) {
    jti in s.codes &&
    forall others: seq<Input>, verifier: Option<string> ::
      NotPresented(others, jti) && Timely(cfg, After(cfg, s, others), s.codes[jti].code, verifier) ==>
        Redeems(cfg, After(cfg, s, others), s.codes[jti].code, verifier)
  }

  lemma TimelyRedeems(cfg: Config, s: State, jti: string, verifier: Option<string>)
    requires jti in s.codes && s.codes[jti].code.jti == jti && SpentCode(jti) !in s.claims
    requires Timely(cfg, s, s.codes[jti].code, verifier)
    ensures Redeems(cfg, s, s.codes[jti].code, verifier)
  {
    var code := s.codes[jti].code;
    var x := Redeem(cfg, s, code, code.clientId, code.redirectUri, verifier);
    assert x.issued == [Redemption(code, code.clientId, code.redirectUri, verifier, s.now)];
  }

  lemma UnspentIsExchanged(cfg: Config, s: State, jti: string)
    requires Facts(cfg, s) && jti in s.codes && SpentCode(jti) !in s.claims
    ensures ExchangedLater(cfg, s, jti)
  {
    forall others: seq<Input>, verifier: Option<string>
      | NotPresented(others, jti) && Timely(cfg, After(cfg, s, others), s.codes[jti].code, verifier)
      ensures Redeems(cfg, After(cfg, s, others), s.codes[jti].code, verifier)
    {
      AfterGrows(cfg, s, others);
      AfterKeepsFacts(cfg, s, others);
      UnpresentedIsUnspent(cfg, s, others, jti);
      assert GoodCode(cfg, s, jti, s.codes[jti]);
      TimelyRedeems(cfg, After(cfg, s, others), jti, verifier);
    }
  }

  // ---------------------------------------------------------------- minting

  /** The new code answers this request, for this session. */
  ghost predicate MintedFor(cfg: Config, s: State, jti: string, tx: Tx, session: Session) {
    jti in s.codes &&
      var c := s.codes[jti].code;
      && c.clientId == tx.clientId && c.redirectUri == tx.redirectUri && c.nonce == tx.nonce && c.scope == tx.scope
      && c.codeChallenge == tx.codeChallenge && c.email == IdentityEmail(cfg, session.email, tx.clientId)
      && c.emailVerified == session.emailVerified && c.acr == session.acr && c.authTime == session.authTime
      && c.sid == session.sid && c.localId == session.localId && c.exp == s.now + cfg.codeTtl
  }

  lemma ApplyMints(cfg: Config, s: State, tx: Tx, session: Session, proof: Proof, jti: string)
    ensures var s' := Apply(cfg, s, Complete(tx, session, proof), jti);
            MintedFor(cfg, s', jti, tx, session) && s'.claims == s.claims && Touch(cfg.life, s.now, session) in s'.sessions
  {
  }

  /** A response that completes mints, and its code is exchanged later. */
  lemma CompletionIsExchanged(cfg: Config, s: State, i: Input)
    requires Facts(cfg, s) && Admissible(s, i) && !Quiet(i) && Respond(cfg, s, i).Complete?
    ensures var e := Respond(cfg, s, i); var s' := Take(cfg, s, i);
            && MintedFor(cfg, s', CodeIdOf(i), e.tx, e.session) && ExchangedLater(cfg, s', CodeIdOf(i))
            && Touch(cfg.life, s.now, e.session) in s'.sessions && s'.claims == s.claims
  {
    var e := Respond(cfg, s, i);
    CompletionsAreFresh(cfg, s, i);
    ApplyMints(cfg, Base(s, i), e.tx, e.session, e.proof, CodeIdOf(i));
    TakeKeepsFacts(cfg, s, i);
    UnspentIsExchanged(cfg, Take(cfg, s, i), CodeIdOf(i));
  }

  // ---------------------------------------------------------------- the first screens

  /** The transaction of a request made at that time. */
  function TxOf(cfg: Config, now: int, txId: string, request: Request): Tx {
    NewTransaction(now, cfg.transactionTtl, txId, request)
  }

  /** A browser without a session makes a request, and then anything happens. */
  function Opened(cfg: Config, s: State, request: Request, txId: string, unused: string, others: seq<Input>): State {
    After(cfg, Take(cfg, s, AuthorizeIn(request, txId, None, unused)), others)
  }

  predicate MayOpen(s: State, request: Request, txId: string, unused: string) {
    txId !in s.requests && unused !in s.codes && PromptNone !in request.prompt
  }

  lemma RequestOpens(cfg: Config, s: State, request: Request, txId: string, unused: string, others: seq<Input>)
    requires Facts(cfg, s) && MayOpen(s, request, txId, unused)
    ensures TxOf(cfg, s.now, txId, request) in Opened(cfg, s, request, txId, unused, others).txs
    ensures Facts(cfg, Opened(cfg, s, request, txId, unused, others))
  {
    var i := AuthorizeIn(request, txId, None, unused);
    assert Respond(cfg, s, i) == Page(TxOf(cfg, s.now, txId, request));
    TakeKeepsFacts(cfg, s, i);
    AfterKeepsFacts(cfg, Take(cfg, s, i), others);
    AfterGrows(cfg, Take(cfg, s, i), others);
  }

  /** The address is submitted, and then anything happens. */
  function Submitted(cfg: Config, s: State, tx: Tx, email: string, remember: bool, env: RouteEnv, others: seq<Input>): State {
    After(cfg, Take(cfg, s, EmailIn(tx, email, remember, false, env)), others)
  }

  function Ready(tx: Tx, email: string, remember: bool): Tx {
    tx.(rememberMe := Some(remember)).(email := Some(email))
  }

  lemma SubmittedKeeps(cfg: Config, s: State, tx: Tx, email: string, remember: bool, env: RouteEnv, others: seq<Input>)
    requires Facts(cfg, s)
    ensures Facts(cfg, Submitted(cfg, s, tx, email, remember, env, others))
    ensures Grows(Take(cfg, s, EmailIn(tx, email, remember, false, env)), Submitted(cfg, s, tx, email, remember, env, others))
  {
    var i := EmailIn(tx, email, remember, false, env);
    TakeKeepsFacts(cfg, s, i);
    AfterKeepsFacts(cfg, Take(cfg, s, i), others);
    AfterGrows(cfg, Take(cfg, s, i), others);
  }

  // ---------------------------------------------------------------- email codes

  /** The code screen that follows a submitted address. */
  function CodeScreen(cfg: Config, now: int, tx: Tx, email: string, remember: bool, code: string): Tx {
    WithOtp(Ready(tx, email, remember), now, Some(Digest(tx.id, email, code)), now + cfg.otpTtl, 0)
  }

  /** Nothing stronger than an email code serves this address, and the request accepts one. */
  predicate OnlyCodes(cfg: Config, tx: Tx, email: string) {
    && cfg.addressOf(email) == Some(email)
    && !LocalAllowed(cfg, Some(email)) && Candidates(cfg, Some(email)) == []
    && OtpAllowed(cfg, Some(email)) && !RequiresFederation(tx.acrValues)
  }

  /** Submitting such an address mails a code and seals its screen. */
  lemma AddressGetsACode(cfg: Config, s: State, tx: Tx, email: string, remember: bool, env: RouteEnv)
    requires tx in s.txs && !Expired(tx, s.now) && OnlyCodes(cfg, tx, email)
    requires env.send.limitAllowed && env.send.mailAccepted
    ensures var s' := Take(cfg, s, EmailIn(tx, email, remember, false, env));
            && CodeScreen(cfg, s.now, tx, email, remember, env.send.code) in s'.txs
            && Digest(tx.id, email, env.send.code) in s'.delivered
  {
    var i := EmailIn(tx, email, remember, false, env);
    var ready := Ready(tx, email, remember);
    assert Route(cfg, s, ready, env) == SendOtp(cfg, s, ready, false, env.send);
    assert Respond(cfg, s, i)
        == SendCode(CodeScreen(cfg, s.now, tx, email, remember, env.send.code), Digest(tx.id, email, env.send.code), true);
  }

  /** An open code screen for this code, with attempts left. */
  predicate Awaits(cfg: Config, s: State, tx: Tx, email: string, code: string) {
    && !Expired(tx, s.now) && tx.stage == Otp && tx.email == Some(email) && tx.otp.Some?
    && tx.otp.value.digest == Some(Digest(tx.id, email, code))
    && s.now <= tx.otp.value.exp && tx.otp.value.attempts < cfg.otpMaxAttempts
  }

  lemma CodeCompletes(cfg: Config, s: State, tx: Tx, email: string, code: string, inferred: Option<Claims>,
                      presented: Option<Session>, sid: string)
    requires Awaits(cfg, s, tx, email, code)
    ensures var e := OtpSubmit(cfg, s, tx, code, inferred, presented, sid);
            && e.Complete? && e.tx == tx && e.session.email == email && e.session.emailVerified
            && e.session.acr == OTP && e.session.authTime == s.now && e.session.localId == None
  {
  }

  /** Random identifiers are new, and a presented session is one that was sealed. */
  predicate Fresh(s: State, presented: Option<Session>, sid: string, jti: string) {
    sid !in s.sidAbs && jti !in s.codes && (presented.Some? ==> presented.value in s.sessions)
  }

  lemma CodeIsExchanged(cfg: Config, s: State, tx: Tx, email: string, code: string, inferred: Option<Claims>,
                        presented: Option<Session>, sid: string, jti: string)
    requires Facts(cfg, s) && tx in s.txs && Awaits(cfg, s, tx, email, code) && Fresh(s, presented, sid, jti)
    ensures var s' := Take(cfg, s, OtpIn(tx, code, inferred, presented, sid, jti));
            && ExchangedLater(cfg, s', jti)
            && var c := s'.codes[jti].code;
               && c.clientId == tx.clientId && c.redirectUri == tx.redirectUri && c.nonce == tx.nonce
               && c.email == IdentityEmail(cfg, email, tx.clientId) && c.emailVerified && c.acr == OTP && c.authTime == s.now
  {
    CodeCompletes(cfg, s, tx, email, code, inferred, presented, sid);
    CompletionIsExchanged(cfg, s, OtpIn(tx, code, inferred, presented, sid, jti));
  }

  /**
   * Email code: request, address, mailed code, exchange.  Before each of the last three anything may
   * happen, as long as transaction and code are still valid.
   */
  lemma EmailCodeSignInWorks(cfg: Config, s0: State, request: Request, txId: string, unused: string, others1: seq<Input>,
                             email: string, remember: bool, env: RouteEnv, others2: seq<Input>,
                             inferred: Option<Claims>, presented: Option<Session>, sid: string, jti: string)
    requires Reachable(cfg, s0) && MayOpen(s0, request, txId, unused)
    requires var tx := TxOf(cfg, s0.now, txId, request);
             var s1 := Opened(cfg, s0, request, txId, unused, others1);
             && s1.now <= tx.exp && OnlyCodes(cfg, tx, email) && env.send.limitAllowed && env.send.mailAccepted
             && var s2 := Submitted(cfg, s1, tx, email, remember, env, others2);
                && s2.now <= tx.exp && s2.now <= s1.now + cfg.otpTtl && cfg.otpMaxAttempts > 0
                && Fresh(s2, presented, sid, jti)
    ensures var tx := TxOf(cfg, s0.now, txId, request);
            var s1 := Opened(cfg, s0, request, txId, unused, others1);
            var s2 := Submitted(cfg, s1, tx, email, remember, env, others2);
            var screen := CodeScreen(cfg, s1.now, tx, email, remember, env.send.code);
            var s3 := Take(cfg, s2, OtpIn(screen, env.send.code, inferred, presented, sid, jti));
            && ExchangedLater(cfg, s3, jti)
            && var c := s3.codes[jti].code;
               && c.clientId == request.clientId && c.redirectUri == request.redirectUri && c.nonce == request.nonce
               && c.email == IdentityEmail(cfg, email, request.clientId) && c.emailVerified && c.acr == OTP && c.authTime == s2.now
  {
    ReachableFacts(cfg, s0);
    RequestOpens(cfg, s0, request, txId, unused, others1);
    var tx := TxOf(cfg, s0.now, txId, request);
    var s1 := Opened(cfg, s0, request, txId, unused, others1);
    AddressGetsACode(cfg, s1, tx, email, remember, env);
    SubmittedKeeps(cfg, s1, tx, email, remember, env, others2);
    var s2 := Submitted(cfg, s1, tx, email, remember, env, others2);
    var screen := CodeScreen(cfg, s1.now, tx, email, remember, env.send.code);
    CodeIsExchanged(cfg, s2, screen, email, env.send.code, inferred, presented, sid, jti);
  }

  // ---------------------------------------------------------------- local accounts

  function PasswordScreen(tx: Tx, email: string, remember: bool): Tx {
    Ready(tx, email, remember).(stage := LocalPassword)
  }

  lemma AddressGetsAPasswordScreen(cfg: Config, s: State, tx: Tx, email: string, remember: bool, env: RouteEnv)
    requires tx in s.txs && !Expired(tx, s.now) && cfg.addressOf(email) == Some(email) && LocalAllowed(cfg, Some(email))
    ensures PasswordScreen(tx, email, remember) in Take(cfg, s, EmailIn(tx, email, remember, false, env)).txs
  {
    var i := EmailIn(tx, email, remember, false, env);
    assert Route(cfg, s, Ready(tx, email, remember), env) == Page(PasswordScreen(tx, email, remember));
    assert Respond(cfg, s, i) == Page(PasswordScreen(tx, email, remember));
  }

  /** An enabled account whose policy is this, at this address. */
  predicate Holds(s: State, email: string, record: IdentityRecord) {
    RecordKey(email) in s.directory && s.directory[RecordKey(email)] == record && !record.disabled
  }

  lemma LocalCompletes(cfg: Config, s: State, tx: Tx, record: IdentityRecord, secondFactor: bool,
                       presented: Option<Session>, sid: string)
    requires tx.email.Some?
    ensures var e := CompleteLocal(cfg, s, tx, record, secondFactor, presented, sid);
            && e.Complete? && e.tx == tx && e.session.localId == Some(record.id) && !e.session.emailVerified
            && e.session.acr == AcrForLocal(secondFactor) && e.session.authTime == s.now && e.session.email == tx.email.value
  {
  }

  lemma PasswordCompletes(cfg: Config, s: State, tx: Tx, email: string, record: IdentityRecord,
                          presented: Option<Session>, sid: string)
    requires tx.stage == LocalPassword && tx.email == Some(email) && LocalAllowed(cfg, Some(email)) && Holds(s, email, record)
    requires Satisfies(AcrForLocal(record.mfaRequired), tx.acrValues)
    ensures var e := LocalPasswordSubmit(cfg, s, tx, true, true, presented, sid);
            if record.mfaRequired
            then e.AskSecondFactor? && e.tx == tx.(localIdentity := Some(LocalRef(record.id, record.version)), stage := LocalMfa)
            else e == CompleteLocal(cfg, s, tx, record, false, presented, sid)
  {
  }

  lemma PasswordIsExchanged(cfg: Config, s: State, tx: Tx, email: string, record: IdentityRecord,
                            presented: Option<Session>, sid: string, jti: string)
    requires Facts(cfg, s) && tx in s.txs && !Expired(tx, s.now) && Fresh(s, presented, sid, jti)
    requires tx.stage == LocalPassword && tx.email == Some(email) && LocalAllowed(cfg, Some(email)) && Holds(s, email, record)
    requires !record.mfaRequired && Satisfies(LOCAL_PASSWORD, tx.acrValues)
    ensures var s' := Take(cfg, s, PasswordIn(tx, true, true, presented, sid, jti));
            && ExchangedLater(cfg, s', jti)
            && var c := s'.codes[jti].code;
               && c.clientId == tx.clientId && c.redirectUri == tx.redirectUri && c.nonce == tx.nonce
               && c.localId == Some(record.id) && !c.emailVerified && c.acr == LOCAL_PASSWORD && c.authTime == s.now
  {
    PasswordCompletes(cfg, s, tx, email, record, presented, sid);
    LocalCompletes(cfg, s, tx, record, false, presented, sid);
    CompletionIsExchanged(cfg, s, PasswordIn(tx, true, true, presented, sid, jti));
  }

  /** Both lemmas below begin here: a request, an address of a local domain, and anything in between. */
  ghost predicate AtPassword(cfg: Config, s0: State, request: Request, txId: string, unused: string, others1: seq<Input>,
                             email: string, remember: bool, env: RouteEnv, others2: seq<Input>, s2: State) {
    && Reachable(cfg, s0) && MayOpen(s0, request, txId, unused) && cfg.addressOf(email) == Some(email) && LocalAllowed(cfg, Some(email))
    && Opened(cfg, s0, request, txId, unused, others1).now <= s0.now + cfg.transactionTtl
    && s2 == Submitted(cfg, Opened(cfg, s0, request, txId, unused, others1), TxOf(cfg, s0.now, txId, request),
                       email, remember, env, others2)
    && s2.now <= s0.now + cfg.transactionTtl
  }

  lemma PasswordScreenIsOpen(cfg: Config, s0: State, request: Request, txId: string, unused: string, others1: seq<Input>,
                             email: string, remember: bool, env: RouteEnv, others2: seq<Input>, s2: State)
    requires AtPassword(cfg, s0, request, txId, unused, others1, email, remember, env, others2, s2)
    ensures Facts(cfg, s2) && PasswordScreen(TxOf(cfg, s0.now, txId, request), email, remember) in s2.txs
  {
    ReachableFacts(cfg, s0);
    RequestOpens(cfg, s0, request, txId, unused, others1);
    var tx := TxOf(cfg, s0.now, txId, request);
    var s1 := Opened(cfg, s0, request, txId, unused, others1);
    AddressGetsAPasswordScreen(cfg, s1, tx, email, remember, env);
    SubmittedKeeps(cfg, s1, tx, email, remember, env, others2);
  }

  /** Local password: request, address, password, exchange, for an account that needs one factor. */
  lemma PasswordSignInWorks(cfg: Config, s0: State, request: Request, txId: string, unused: string, others1: seq<Input>,
                            email: string, remember: bool, env: RouteEnv, others2: seq<Input>, s2: State,
                            record: IdentityRecord, presented: Option<Session>, sid: string, jti: string)
    requires AtPassword(cfg, s0, request, txId, unused, others1, email, remember, env, others2, s2)
    requires Holds(s2, email, record) && !record.mfaRequired && Satisfies(LOCAL_PASSWORD, request.acrValues)
    requires Fresh(s2, presented, sid, jti)
    ensures var screen := PasswordScreen(TxOf(cfg, s0.now, txId, request), email, remember);
            var s3 := Take(cfg, s2, PasswordIn(screen, true, true, presented, sid, jti));
            && ExchangedLater(cfg, s3, jti)
            && var c := s3.codes[jti].code;
               && c.clientId == request.clientId && c.redirectUri == request.redirectUri && c.nonce == request.nonce
               && c.localId == Some(record.id) && !c.emailVerified && c.acr == LOCAL_PASSWORD && c.authTime == s2.now
  {
    PasswordScreenIsOpen(cfg, s0, request, txId, unused, others1, email, remember, env, others2, s2);
    var screen := PasswordScreen(TxOf(cfg, s0.now, txId, request), email, remember);
    PasswordIsExchanged(cfg, s2, screen, email, record, presented, sid, jti);
  }

  function FactorScreen(tx: Tx, email: string, remember: bool, record: IdentityRecord): Tx {
    PasswordScreen(tx, email, remember).(localIdentity := Some(LocalRef(record.id, record.version)), stage := LocalMfa)
  }

  lemma PasswordOpensFactorScreen(cfg: Config, s: State, tx: Tx, email: string, remember: bool, record: IdentityRecord,
                                  presented: Option<Session>, sid: string, unused: string)
    requires PasswordScreen(tx, email, remember) in s.txs && !Expired(tx, s.now) && Fresh(s, presented, sid, unused)
    requires LocalAllowed(cfg, Some(email)) && Holds(s, email, record) && record.mfaRequired && Satisfies(LOCAL_MFA, tx.acrValues)
    ensures var i := PasswordIn(PasswordScreen(tx, email, remember), true, true, presented, sid, unused);
            FactorScreen(tx, email, remember, record) in Take(cfg, s, i).txs
  {
    PasswordCompletes(cfg, s, PasswordScreen(tx, email, remember), email, record, presented, sid);
    var i := PasswordIn(PasswordScreen(tx, email, remember), true, true, presented, sid, unused);
    assert Respond(cfg, s, i).AskSecondFactor? && Respond(cfg, s, i).tx == FactorScreen(tx, email, remember, record);
  }

  lemma FactorCompletes(cfg: Config, s: State, tx: Tx, email: string, ref: LocalRef, presented: Option<Session>, sid: string)
    requires tx.stage == LocalMfa && tx.email == Some(email) && tx.localIdentity == Some(ref)
    requires LocalAllowed(cfg, Some(email)) && RecordCurrent(s, RecordKey(email), ref.id, ref.version)
    ensures var e := LocalMfaSubmit(cfg, s, tx, true, true, presented, sid);
            && e.Complete? && e.tx == tx && e.session.localId == Some(ref.id) && !e.session.emailVerified
            && e.session.acr == LOCAL_MFA && e.session.authTime == s.now
  {
    LocalCompletes(cfg, s, tx, s.directory[RecordKey(email)], true, presented, sid);
  }

  lemma FactorIsExchanged(cfg: Config, s: State, tx: Tx, email: string, ref: LocalRef,
                          presented: Option<Session>, sid: string, jti: string)
    requires Facts(cfg, s) && tx in s.txs && !Expired(tx, s.now) && Fresh(s, presented, sid, jti)
    requires tx.stage == LocalMfa && tx.email == Some(email) && tx.localIdentity == Some(ref)
    requires LocalAllowed(cfg, Some(email)) && RecordCurrent(s, RecordKey(email), ref.id, ref.version)
    ensures var s' := Take(cfg, s, MfaIn(tx, true, true, presented, sid, jti));
            && ExchangedLater(cfg, s', jti)
            && var c := s'.codes[jti].code;
               && c.clientId == tx.clientId && c.redirectUri == tx.redirectUri && c.nonce == tx.nonce
               && c.localId == Some(ref.id) && !c.emailVerified && c.acr == LOCAL_MFA && c.authTime == s.now
  {
    FactorCompletes(cfg, s, tx, email, ref, presented, sid);
    CompletionIsExchanged(cfg, s, MfaIn(tx, true, true, presented, sid, jti));
  }

  /** The second-factor screen stays open, whatever happens next. */
  lemma FactorScreenStaysOpen(cfg: Config, s: State, tx: Tx, email: string, remember: bool, record: IdentityRecord,
                              sid: string, unused: string, others: seq<Input>)
    requires Facts(cfg, s) && PasswordScreen(tx, email, remember) in s.txs && !Expired(tx, s.now) && Fresh(s, None, sid, unused)
    requires LocalAllowed(cfg, Some(email)) && Holds(s, email, record) && record.mfaRequired && Satisfies(LOCAL_MFA, tx.acrValues)
    ensures var s' := After(cfg, Take(cfg, s, PasswordIn(PasswordScreen(tx, email, remember), true, true, None, sid, unused)), others);
            Facts(cfg, s') && FactorScreen(tx, email, remember, record) in s'.txs
  {
    PasswordOpensFactorScreen(cfg, s, tx, email, remember, record, None, sid, unused);
    var i := PasswordIn(PasswordScreen(tx, email, remember), true, true, None, sid, unused);
    TakeKeepsFacts(cfg, s, i);
    AfterKeepsFacts(cfg, Take(cfg, s, i), others);
    AfterGrows(cfg, Take(cfg, s, i), others);
  }

  /** Password, then second factor, then exchange, while the record stays the one the password was checked against. */
  lemma SecondFactorSignInWorks(cfg: Config, s0: State, request: Request, txId: string, unused: string, others1: seq<Input>,
                                email: string, remember: bool, env: RouteEnv, others2: seq<Input>, s2: State,
                                record: IdentityRecord, sid2: string, unused2: string, others3: seq<Input>,
                                presented: Option<Session>, sid: string, jti: string)
    requires AtPassword(cfg, s0, request, txId, unused, others1, email, remember, env, others2, s2)
    requires Holds(s2, email, record) && record.mfaRequired && Satisfies(LOCAL_MFA, request.acrValues)
    requires Fresh(s2, None, sid2, unused2)
    requires var screen := PasswordScreen(TxOf(cfg, s0.now, txId, request), email, remember);
             var s3 := After(cfg, Take(cfg, s2, PasswordIn(screen, true, true, None, sid2, unused2)), others3);
             && s3.now <= s0.now + cfg.transactionTtl && Fresh(s3, presented, sid, jti)
             && RecordCurrent(s3, RecordKey(email), record.id, record.version)
    ensures var tx := TxOf(cfg, s0.now, txId, request);
            var s3 := After(cfg, Take(cfg, s2, PasswordIn(PasswordScreen(tx, email, remember), true, true, None, sid2, unused2)), others3);
            var s4 := Take(cfg, s3, MfaIn(FactorScreen(tx, email, remember, record), true, true, presented, sid, jti));
            && ExchangedLater(cfg, s4, jti)
            && var c := s4.codes[jti].code;
               && c.clientId == request.clientId && c.redirectUri == request.redirectUri && c.nonce == request.nonce
               && c.localId == Some(record.id) && !c.emailVerified && c.acr == LOCAL_MFA && c.authTime == s3.now
  {
    PasswordScreenIsOpen(cfg, s0, request, txId, unused, others1, email, remember, env, others2, s2);
    var tx := TxOf(cfg, s0.now, txId, request);
    FactorScreenStaysOpen(cfg, s2, tx, email, remember, record, sid2, unused2, others3);
    var s3 := After(cfg, Take(cfg, s2, PasswordIn(PasswordScreen(tx, email, remember), true, true, None, sid2, unused2)), others3);
    FactorIsExchanged(cfg, s3, FactorScreen(tx, email, remember, record), email, LocalRef(record.id, record.version), presented, sid, jti);
  }

  // ---------------------------------------------------------------- providers

  /** One provider is registered for the domain of this address. */
  predicate OneProvider(cfg: Config, email: string, u: Upstream) {
    cfg.addressOf(email) == Some(email) && !LocalAllowed(cfg, Some(email)) && Candidates(cfg, Some(email)) == [u] && !u.isCommon && u.id in cfg.upstreams
  }

  function LegOf(tx: Tx, email: string, remember: bool, u: Upstream, nonce: string): Leg {
    Leg(Ready(tx, email, remember), LegInfo(u.id, nonce, false))
  }

  lemma AddressGoesToProvider(cfg: Config, s: State, tx: Tx, email: string, remember: bool, env: RouteEnv, u: Upstream)
    requires tx in s.txs && !Expired(tx, s.now) && OneProvider(cfg, email, u) && env.upstreamReachable
    ensures LegOf(tx, email, remember, u, env.nonce) in Take(cfg, s, EmailIn(tx, email, remember, false, env)).legs
  {
    var i := EmailIn(tx, email, remember, false, env);
    assert Route(cfg, s, Ready(tx, email, remember), env) == RedirectUpstream(LegOf(tx, email, remember, u, env.nonce));
    assert Respond(cfg, s, i) == RedirectUpstream(LegOf(tx, email, remember, u, env.nonce));
  }

  lemma AnswerCompletes(cfg: Config, s: State, leg: Leg, reply: UpstreamReply, presented: Option<Session>, sid: string)
    requires leg.info.upstream in cfg.upstreams && reply.Authenticated? && reply.refreshStored
    requires Satisfies(AcrFromUpstream(reply.mfa), leg.tx.acrValues)
    ensures var e := Callback(cfg, s, leg, reply, presented, sid);
            && e.Complete? && e.tx == leg.tx && e.session.email == reply.email && e.session.emailVerified
            && e.session.acr == AcrFromUpstream(reply.mfa) && e.session.authTime == s.now
  {
  }

  lemma AnswerIsExchanged(cfg: Config, s: State, leg: Leg, reply: UpstreamReply, presented: Option<Session>, sid: string, jti: string)
    requires Facts(cfg, s) && leg in s.legs && !Expired(leg.tx, s.now) && Fresh(s, presented, sid, jti)
    requires leg.info.upstream in cfg.upstreams && reply.Authenticated? && reply.refreshStored
    requires Satisfies(AcrFromUpstream(reply.mfa), leg.tx.acrValues)
    ensures var s' := Take(cfg, s, CallbackIn(leg, reply, presented, sid, jti));
            && ExchangedLater(cfg, s', jti)
            && var c := s'.codes[jti].code;
               && c.clientId == leg.tx.clientId && c.redirectUri == leg.tx.redirectUri && c.nonce == leg.tx.nonce
               && c.email == IdentityEmail(cfg, reply.email, leg.tx.clientId) && c.emailVerified
               && c.acr == AcrFromUpstream(reply.mfa) && c.authTime == s.now
  {
    AnswerCompletes(cfg, s, leg, reply, presented, sid);
    CompletionIsExchanged(cfg, s, CallbackIn(leg, reply, presented, sid, jti));
  }

  /** Provider: request, address, redirect, answer, exchange. */
  lemma ProviderSignInWorks(cfg: Config, s0: State, request: Request, txId: string, unused: string, others1: seq<Input>,
                            email: string, remember: bool, env: RouteEnv, u: Upstream, others2: seq<Input>,
                            reply: UpstreamReply, presented: Option<Session>, sid: string, jti: string)
    requires Reachable(cfg, s0) && MayOpen(s0, request, txId, unused)
    requires OneProvider(cfg, email, u) && env.upstreamReachable
    requires reply.Authenticated? && reply.refreshStored && Satisfies(AcrFromUpstream(reply.mfa), request.acrValues)
    requires var tx := TxOf(cfg, s0.now, txId, request);
             var s1 := Opened(cfg, s0, request, txId, unused, others1);
             var s2 := Submitted(cfg, s1, tx, email, remember, env, others2);
             s1.now <= tx.exp && s2.now <= tx.exp && Fresh(s2, presented, sid, jti)
    ensures var tx := TxOf(cfg, s0.now, txId, request);
            var s2 := Submitted(cfg, Opened(cfg, s0, request, txId, unused, others1), tx, email, remember, env, others2);
            var s3 := Take(cfg, s2, CallbackIn(LegOf(tx, email, remember, u, env.nonce), reply, presented, sid, jti));
            && ExchangedLater(cfg, s3, jti)
            && var c := s3.codes[jti].code;
               && c.clientId == request.clientId && c.redirectUri == request.redirectUri && c.nonce == request.nonce
               && c.email == IdentityEmail(cfg, reply.email, request.clientId) && c.emailVerified
               && c.acr == AcrFromUpstream(reply.mfa) && c.authTime == s2.now
  {
    ReachableFacts(cfg, s0);
    RequestOpens(cfg, s0, request, txId, unused, others1);
    var tx := TxOf(cfg, s0.now, txId, request);
    var s1 := Opened(cfg, s0, request, txId, unused, others1);
    AddressGoesToProvider(cfg, s1, tx, email, remember, env, u);
    SubmittedKeeps(cfg, s1, tx, email, remember, env, others2);
    var s2 := Submitted(cfg, s1, tx, email, remember, env, others2);
    var leg := LegOf(tx, email, remember, u, env.nonce);
    AnswerIsExchanged(cfg, s2, leg, reply, presented, sid, jti);
  }

  // ---------------------------------------------------------------- an existing session

  /** Within its lifetimes and the request's max_age, strong enough, and its local account in force. */
  predicate Answers(cfg: Config, s: State, session: Session, request: Request) {
    && s.now <= session.exp && s.now <= session.abs
    && (request.maxAge.Some? ==> s.now <= session.authTime + request.maxAge.value)
    && Satisfies(session.acr, request.acrValues)
    && (session.localId.Some? ==>
          && cfg.localStore && session.localKey.Some? && session.localVersion.Some?
          && RecordCurrent(s, session.localKey.value, session.localId.value, session.localVersion.value))
  }

  lemma AnsweringSessionReads(cfg: Config, s: State, session: Session, request: Request)
    requires Answers(cfg, s, session, request) && RevokedSession(session.sid) !in s.claims
    ensures ValidSession(cfg, s, ReadSession(cfg, s, Some(session))) == Some(session)
    ensures IsFresh(session, s.now, request.maxAge, cfg.clockSkew)
  {
  }

  predicate NoForcedLogin(request: Request) {
    PromptLogin !in request.prompt && PromptSelectAccount !in request.prompt
  }

  /** Without a sign-out in between, a sealed session stays sealed and unmarked. */
  lemma SessionSurvives(cfg: Config, s: State, session: Session, others: seq<Input>)
    requires Facts(cfg, s) && session in s.sessions && RevokedSession(session.sid) !in s.claims && NotSignedOut(others, session.sid)
    ensures var s' := After(cfg, s, others);
            Facts(cfg, s') && session in s'.sessions && RevokedSession(session.sid) !in s'.claims
  {
    AfterKeepsFacts(cfg, s, others);
    AfterGrows(cfg, s, others);
    UnsignedOutIsUnmarked(cfg, s, others, session.sid);
  }

  lemma SilenceCompletes(cfg: Config, s: State, session: Session, request: Request, txId: string, jti: string)
    requires session in s.sessions && RevokedSession(session.sid) !in s.claims && Answers(cfg, s, session, request)
    requires PromptNone in request.prompt && NoForcedLogin(request) && txId !in s.requests && jti !in s.codes
    ensures var e := Respond(cfg, s, AuthorizeIn(request, txId, Some(session), jti));
            e.Complete? && e.tx == TxOf(cfg, s.now, txId, request) && e.session == session
  {
    AnsweringSessionReads(cfg, s, session, request);
    var i := AuthorizeIn(request, txId, Some(session), jti);
    assert Respond(cfg, s, i) == Decide(cfg, Base(s, i), TxOf(cfg, s.now, txId, request), Some(session));
  }

  lemma SilenceIsExchanged(cfg: Config, s: State, session: Session, request: Request, txId: string, jti: string)
    requires Facts(cfg, s)
    requires session in s.sessions && RevokedSession(session.sid) !in s.claims && Answers(cfg, s, session, request)
    requires PromptNone in request.prompt && NoForcedLogin(request) && txId !in s.requests && jti !in s.codes
    ensures var s' := Take(cfg, s, AuthorizeIn(request, txId, Some(session), jti));
            ExchangedLater(cfg, s', jti) && MintedFor(cfg, s', jti, TxOf(cfg, s.now, txId, request), session)
  {
    SilenceCompletes(cfg, s, session, request, txId, jti);
    CompletionIsExchanged(cfg, s, AuthorizeIn(request, txId, Some(session), jti));
  }

  lemma SilentFromFacts(cfg: Config, s: State, session: Session, others: seq<Input>, request: Request, txId: string, jti: string)
    requires Facts(cfg, s) && session in s.sessions && RevokedSession(session.sid) !in s.claims && NotSignedOut(others, session.sid)
    requires PromptNone in request.prompt && NoForcedLogin(request)
    requires var s1 := After(cfg, s, others);
             Answers(cfg, s1, session, request) && txId !in s1.requests && jti !in s1.codes
    ensures var s1 := After(cfg, s, others);
            var s2 := Take(cfg, s1, AuthorizeIn(request, txId, Some(session), jti));
            && ExchangedLater(cfg, s2, jti)
            && MintedFor(cfg, s2, jti, TxOf(cfg, s1.now, txId, request), session)
  {
    SessionSurvives(cfg, s, session, others);
    var s1 := After(cfg, s, others);
    SilenceIsExchanged(cfg, s1, session, request, txId, jti);
  }

  /** The session that a sign-in by email code seals. */
  function CodeSession(cfg: Config, now: int, email: string, sid: string): Session {
    var args := SessionArgs(email, true, OTP, None, None, None, None, None);
    Touch(cfg.life, now, NewSession(cfg.life, now, sid, args))
  }

  /**
   * Sign in once by email code; then, whatever happens short of signing that session out, a silent
   * request within the session's lifetimes is answered for the same person, and its code exchanged.
   */
  lemma SignedInOnceAnswersSilently(cfg: Config, s: State, tx: Tx, email: string, code: string, sid: string, unused: string,
                                    others: seq<Input>, request: Request, txId: string, jti: string)
    requires Reachable(cfg, s) && tx in s.txs && Awaits(cfg, s, tx, email, code) && Fresh(s, None, sid, unused)
    requires PromptNone in request.prompt && NoForcedLogin(request) && NotSignedOut(others, sid)
    requires var session := CodeSession(cfg, s.now, email, sid);
             var s2 := After(cfg, Take(cfg, s, OtpIn(tx, code, None, None, sid, unused)), others);
             Answers(cfg, s2, session, request) && txId !in s2.requests && jti !in s2.codes
    ensures var session := CodeSession(cfg, s.now, email, sid);
            var s2 := After(cfg, Take(cfg, s, OtpIn(tx, code, None, None, sid, unused)), others);
            var s3 := Take(cfg, s2, AuthorizeIn(request, txId, Some(session), jti));
            && ExchangedLater(cfg, s3, jti)
            && var c := s3.codes[jti].code;
               && c.clientId == request.clientId && c.redirectUri == request.redirectUri && c.nonce == request.nonce
               && c.email == IdentityEmail(cfg, email, request.clientId) && c.sid == sid && c.authTime == s.now
  {
    ReachableFacts(cfg, s);
    var i := OtpIn(tx, code, None, None, sid, unused);
    FreshCodeSession(cfg, s, tx, email, code, sid);
    CompletionIsExchanged(cfg, s, i);
    TakeKeepsFacts(cfg, s, i);
    SilentFromFacts(cfg, Take(cfg, s, i), CodeSession(cfg, s.now, email, sid), others, request, txId, jti);
  }

  lemma FreshCodeSession(cfg: Config, s: State, tx: Tx, email: string, code: string, sid: string)
    requires Awaits(cfg, s, tx, email, code)
    ensures var e := OtpSubmit(cfg, s, tx, code, None, None, sid);
            e.Complete? && Touch(cfg.life, s.now, e.session) == CodeSession(cfg, s.now, email, sid)
  {
  }

  /** Any session that was never signed out answers a silent request, and its code is exchanged. */
  lemma SilentSignInWorks(cfg: Config, s: State, session: Session, others: seq<Input>, request: Request, txId: string, jti: string)
    requires Reachable(cfg, s) && session in s.sessions && RevokedSession(session.sid) !in s.claims
    requires NotSignedOut(others, session.sid) && PromptNone in request.prompt && NoForcedLogin(request)
    requires var s1 := After(cfg, s, others);
             Answers(cfg, s1, session, request) && txId !in s1.requests && jti !in s1.codes
    ensures var s1 := After(cfg, s, others);
            var s2 := Take(cfg, s1, AuthorizeIn(request, txId, Some(session), jti));
            && ExchangedLater(cfg, s2, jti)
            && MintedFor(cfg, s2, jti, TxOf(cfg, s1.now, txId, request), session)
  {
    ReachableFacts(cfg, s);
    SilentFromFacts(cfg, s, session, others, request, txId, jti);
  }

  function ContinueScreen(cfg: Config, now: int, txId: string, request: Request): Tx {
    TxOf(cfg, now, txId, request).(stage := Continue)
  }

  lemma ConsentShowsTheSession(cfg: Config, s: State, session: Session, request: Request, txId: string, unused: string)
    requires session in s.sessions && RevokedSession(session.sid) !in s.claims && Answers(cfg, s, session, request)
    requires PromptNone !in request.prompt && PromptConsent in request.prompt && NoForcedLogin(request)
    requires txId !in s.requests && unused !in s.codes
    ensures ContinueScreen(cfg, s.now, txId, request) in Take(cfg, s, AuthorizeIn(request, txId, Some(session), unused)).txs
  {
    AnsweringSessionReads(cfg, s, session, request);
    var i := AuthorizeIn(request, txId, Some(session), unused);
    assert Respond(cfg, s, i) == Page(ContinueScreen(cfg, s.now, txId, request));
  }

  lemma ContinueCompletes(cfg: Config, s: State, tx: Tx, session: Session, request: Request)
    requires session in s.sessions && RevokedSession(session.sid) !in s.claims && Answers(cfg, s, session, request)
    requires tx.maxAge == request.maxAge && tx.acrValues == request.acrValues
    ensures var e := ContinueSubmit(cfg, s, tx, Some(session)); e.Complete? && e.tx == tx && e.session == session
  {
    AnsweringSessionReads(cfg, s, session, request);
  }

  lemma ContinueIsExchanged(cfg: Config, s: State, tx: Tx, session: Session, request: Request, jti: string)
    requires Facts(cfg, s) && tx in s.txs && !Expired(tx, s.now) && jti !in s.codes
    requires session in s.sessions && RevokedSession(session.sid) !in s.claims && Answers(cfg, s, session, request)
    requires tx.maxAge == request.maxAge && tx.acrValues == request.acrValues
    ensures var s' := Take(cfg, s, ContinueIn(tx, Some(session), jti));
            ExchangedLater(cfg, s', jti) && MintedFor(cfg, s', jti, tx, session)
  {
    ContinueCompletes(cfg, s, tx, session, request);
    CompletionIsExchanged(cfg, s, ContinueIn(tx, Some(session), jti));
  }

  /** The screen and the session are still there after anything but a sign-out. */
  lemma ContinueScreenStaysOpen(cfg: Config, s: State, session: Session, request: Request, txId: string, unused: string, others: seq<Input>)
    requires Facts(cfg, s) && session in s.sessions && RevokedSession(session.sid) !in s.claims
    requires Answers(cfg, s, session, request) && txId !in s.requests && unused !in s.codes
    requires PromptNone !in request.prompt && PromptConsent in request.prompt && NoForcedLogin(request)
    requires NotSignedOut(others, session.sid)
    ensures var s1 := After(cfg, Take(cfg, s, AuthorizeIn(request, txId, Some(session), unused)), others);
            && Facts(cfg, s1) && ContinueScreen(cfg, s.now, txId, request) in s1.txs
            && session in s1.sessions && RevokedSession(session.sid) !in s1.claims
  {
    var i := AuthorizeIn(request, txId, Some(session), unused);
    ConsentShowsTheSession(cfg, s, session, request, txId, unused);
    TakeKeepsFacts(cfg, s, i);
    StepGrows(cfg, s, i);
    AuthorizingMarksNothing(cfg, s, i);
    SessionSurvives(cfg, Take(cfg, s, i), session, others);
    AfterGrows(cfg, Take(cfg, s, i), others);
  }

  /** Consent: the account is shown, the person continues, the code is exchanged; a sign-out in between is the only way to stop it. */
  lemma ContinueSignInWorks(cfg: Config, s: State, session: Session, request: Request, txId: string, unused: string,
                            others: seq<Input>, jti: string)
    requires Reachable(cfg, s) && session in s.sessions && RevokedSession(session.sid) !in s.claims
    requires Answers(cfg, s, session, request) && txId !in s.requests && unused !in s.codes
    requires PromptNone !in request.prompt && PromptConsent in request.prompt && NoForcedLogin(request)
    requires NotSignedOut(others, session.sid)
    requires var s1 := After(cfg, Take(cfg, s, AuthorizeIn(request, txId, Some(session), unused)), others);
             Answers(cfg, s1, session, request) && s1.now <= s.now + cfg.transactionTtl && jti !in s1.codes
    ensures var s1 := After(cfg, Take(cfg, s, AuthorizeIn(request, txId, Some(session), unused)), others);
            var s2 := Take(cfg, s1, ContinueIn(ContinueScreen(cfg, s.now, txId, request), Some(session), jti));
            && ExchangedLater(cfg, s2, jti)
            && MintedFor(cfg, s2, jti, ContinueScreen(cfg, s.now, txId, request), session)
  {
    ReachableFacts(cfg, s);
    ContinueScreenStaysOpen(cfg, s, session, request, txId, unused, others);
    var s1 := After(cfg, Take(cfg, s, AuthorizeIn(request, txId, Some(session), unused)), others);
    ContinueIsExchanged(cfg, s1, ContinueScreen(cfg, s.now, txId, request), session, request, jti);
  }

  lemma AuthorizingMarksNothing(cfg: Config, s: State, i: Input)
    requires i.AuthorizeIn? && Admissible(s, i)
    ensures Take(cfg, s, i).claims == s.claims
  {
    ApplyAddsNoClaims(cfg, Base(s, i), Respond(cfg, s, i), CodeIdOf(i));
  }
}

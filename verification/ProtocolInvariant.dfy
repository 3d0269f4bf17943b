/** What every sealed token guarantees, and the proof that every step keeps it. */
module ProtocolInvariant {
  import opened Basics
  import opened Acr
  import opened Session
  import opened Transaction
  import opened Protocol

  // ---------------------------------------------------------------- evidence

  /** The session says exactly what this piece of evidence supports, and nothing left over from another. */
  ghost predicate Evidences(p: Proof, session: Session) {
    match p
    case OtpProof(digest, inferred, at) =>
      && session.email == digest.email && session.emailVerified && session.acr == OTP
      && session.authTime == at && session.upstream == None && session.claims == inferred
      && session.localId == None && session.localKey == None && session.localVersion == None
    case UpstreamProof(upstream, email, mfa, claims, _, _, linked, at) =>
      && session.email == email && session.emailVerified
      && session.acr == (if mfa then FEDERATED_MFA else FEDERATED)
      && session.authTime == at && session.upstream == Some(upstream) && session.claims == claims
      && session.localId == (if linked.Some? then Some(linked.value.id) else None)
      && session.localKey == (if linked.Some? then Some(RecordKey(email)) else None)
      && session.localVersion == (if linked.Some? then Some(linked.value.version) else None)
    case PasswordProof(_, _, _, _) => false
    case LocalProof(_, email, identity, secondFactor, claims, at) =>
      && session.email == email && !session.emailVerified
      && session.acr == (if secondFactor then LOCAL_MFA else LOCAL_PASSWORD)
      && session.authTime == at && session.upstream == None && session.claims == claims
      && session.localId == Some(identity.id) && session.localKey == Some(RecordKey(email))
      && session.localVersion == Some(identity.version)
  }

  /** The same for a code, in the view of the relying party it was minted for. */
  ghost predicate CodeShows(cfg: Config, code: Code, p: Proof) {
    var sector := cfg.sector(code.clientId);
    match p
    case OtpProof(digest, inferred, at) =>
      && code.email == IdentityEmail(cfg, digest.email, code.clientId) && code.emailVerified
      && code.acr == OTP && code.authTime == at && code.claims == inferred
      && code.sub == EmailSubject(sector, code.email) && code.localId == None
    case UpstreamProof(_, email, mfa, claims, _, _, linked, at) =>
      && code.email == IdentityEmail(cfg, email, code.clientId) && code.emailVerified
      && code.acr == (if mfa then FEDERATED_MFA else FEDERATED)
      && code.authTime == at && code.claims == claims
      && (linked.None? ==> code.sub == EmailSubject(sector, code.email) && code.localId == None)
      && (linked.Some? ==>
            && code.sub == LocalSubject(sector, linked.value.id)
            && code.localId == Some(linked.value.id)
            && code.localKey == Some(RecordKey(email))
            && code.localVersion == Some(linked.value.version))
    case PasswordProof(_, _, _, _) => false
    case LocalProof(_, email, identity, secondFactor, claims, at) =>
      && code.email == IdentityEmail(cfg, email, code.clientId) && !code.emailVerified
      && code.acr == (if secondFactor then LOCAL_MFA else LOCAL_PASSWORD)
      && code.authTime == at && code.claims == claims
      && code.sub == LocalSubject(sector, identity.id)
      && code.localId == Some(identity.id)
      && code.localKey == Some(RecordKey(email))
      && code.localVersion == Some(identity.version)
  }

  ghost predicate IsPasswordFor(p: Proof, txId: string, identity: LocalRef, due: int) {
    p.PasswordProof? && p.txId == txId && p.identity == identity && p.at <= due
  }

  /** A two-factor authentication had its password half earlier in the same transaction, for the same identity. */
  ghost predicate PasswordFirst(proofs: set<Proof>, txId: string, identity: LocalRef, due: int) {
    exists q :: q in proofs && IsPasswordFor(q, txId, identity, due)
  }

  ghost predicate GoodProof(cfg: Config, s: State, p: Proof) {
    && p.at <= s.now
    && (p.OtpProof? ==> p.digest in s.generated)
    && (p.UpstreamProof? ==> p.upstream in cfg.upstreams)
    && (p.LocalProof? && p.secondFactor ==> PasswordFirst(s.proofs, p.txId, p.identity, p.at))
  }

  // ---------------------------------------------------------------- sealed values

  /** The transaction still stands for exactly the request that created it, with its deadline. */
  ghost predicate Bound(cfg: Config, s: State, tx: Tx) {
    && tx.id in s.requests
    && RequestOf(tx) == s.requests[tx.id].request
    && tx.iat == s.requests[tx.id].at <= s.now
    && tx.exp == tx.iat + cfg.transactionTtl
  }

  ghost predicate GoodTx(cfg: Config, s: State, tx: Tx) {
    && Bound(cfg, s, tx)
    && (tx.otp.Some? && tx.otp.value.digest.Some? ==> tx.otp.value.digest.value in s.generated)
    && (tx.stage == Otp ==>
          && tx.email.Some? && tx.otp.Some?
          // a code screen whose demand rules codes out is always a decoy
          && (RequiresFederation(tx.acrValues) ==> DecoyPossible(cfg, tx.email)))
    && (tx.stage == LocalMfa ==>
          && tx.email.Some? && tx.localIdentity.Some?
          && Satisfies(LOCAL_MFA, tx.acrValues)
          && PasswordFirst(s.proofs, tx.id, tx.localIdentity.value, s.now))
  }

  ghost predicate GoodLeg(cfg: Config, s: State, leg: Leg) {
    Bound(cfg, s, leg.tx) && leg.tx.email.Some?
      && (leg.tx.otp.Some? && leg.tx.otp.value.digest.Some? ==> leg.tx.otp.value.digest.value in s.generated)
  }

  ghost predicate GoodSession(s: State, session: Session, p: Proof) {
    && p in s.proofs
    && Evidences(p, session)
    && session.sid in s.sidAbs && s.sidAbs[session.sid] == session.abs
    && session.exp <= session.abs
  }

  /** The demand is met, unless the code was taken by the decoy screen of an address nothing serves. */
  ghost predicate AcrMet(cfg: Config, acr: string, p: Proof, acrValues: seq<string>) {
    Satisfies(acr, acrValues) || (p.OtpProof? && GuessableDecoy(cfg, Some(p.digest.email)))
  }

  ghost predicate WithinMaxAge(authTime: int, maxAge: Option<nat>, now: int) {
    maxAge.Some? ==> authTime + maxAge.value >= now
  }

  ghost predicate GoodCode(cfg: Config, s: State, jti: string, m: Minted) {
    && m.code.jti == jti
    && m.txId in s.requests
    && m.proof in s.proofs
    && CodeShows(cfg, m.code, m.proof)
    && (var r := s.requests[m.txId].request;
        && m.code.clientId == r.clientId && m.code.redirectUri == r.redirectUri
        && m.code.scope == r.scope && m.code.nonce == r.nonce
        && m.code.codeChallenge == r.codeChallenge && m.code.idTokenAlg == r.idTokenAlg
        && m.code.resource == r.resource
        && AcrMet(cfg, m.code.acr, m.proof, r.acrValues)
        && WithinMaxAge(m.code.authTime, r.maxAge, m.code.iat))
    && s.requests[m.txId].at <= m.code.iat <= s.requests[m.txId].at + cfg.transactionTtl
    && m.proof.at <= m.code.iat <= s.now
    && m.code.exp == m.code.iat + cfg.codeTtl
    && m.code.sid in s.sidAbs
  }

  ghost predicate Inv(cfg: Config, s: State) {
    && (forall tx :: tx in s.txs ==> GoodTx(cfg, s, tx))
    && (forall leg :: leg in s.legs ==> GoodLeg(cfg, s, leg))
    && (forall session :: session in s.sessions ==> GoodSession(s, session, s.sessions[session]))
    && (forall jti :: jti in s.codes ==> GoodCode(cfg, s, jti, s.codes[jti]))
    && (forall p :: p in s.proofs ==> GoodProof(cfg, s, p))
    && (forall d :: d in s.delivered ==> OtpAllowed(cfg, Some(d.email)))
  }

  // ---------------------------------------------------------------- history only grows

  ghost predicate Extends(s: State, s': State) {
    && s.now <= s'.now
    && (forall id :: id in s.requests ==> id in s'.requests && s'.requests[id] == s.requests[id])
    && s.generated <= s'.generated
    && s.proofs <= s'.proofs
    && (forall sid :: sid in s.sidAbs ==> sid in s'.sidAbs && s'.sidAbs[sid] == s.sidAbs[sid])
  }

  lemma PasswordFirstMono(small: set<Proof>, big: set<Proof>, txId: string, identity: LocalRef, due: int, later: int)
    requires small <= big && due <= later
    requires PasswordFirst(small, txId, identity, due)
    ensures PasswordFirst(big, txId, identity, later)
  {
    var q :| q in small && IsPasswordFor(q, txId, identity, due);
    assert IsPasswordFor(q, txId, identity, later);
  }

  lemma GoodTxMono(cfg: Config, s: State, s': State, tx: Tx)
    requires Extends(s, s') && GoodTx(cfg, s, tx)
    ensures GoodTx(cfg, s', tx)
  {
    if tx.stage == LocalMfa {
      PasswordFirstMono(s.proofs, s'.proofs, tx.id, tx.localIdentity.value, s.now, s'.now);
    }
  }

  lemma GoodProofMono(cfg: Config, s: State, s': State, p: Proof)
    requires Extends(s, s') && GoodProof(cfg, s, p)
    ensures GoodProof(cfg, s', p)
  {
    if p.LocalProof? && p.secondFactor {
      PasswordFirstMono(s.proofs, s'.proofs, p.txId, p.identity, p.at, p.at);
    }
  }

  lemma GoodCodeMono(cfg: Config, s: State, s': State, jti: string, m: Minted)
    requires Extends(s, s') && GoodCode(cfg, s, jti, m)
    ensures GoodCode(cfg, s', jti, m)
  {
  }

  /** Growing the history keeps every guarantee about the values already sealed. */
  lemma OldValuesStayGood(cfg: Config, s: State, s': State)
    requires Inv(cfg, s) && Extends(s, s')
    ensures forall tx :: tx in s.txs ==> GoodTx(cfg, s', tx)
    ensures forall leg :: leg in s.legs ==> GoodLeg(cfg, s', leg)
    ensures forall session :: session in s.sessions ==> GoodSession(s', session, s.sessions[session])
    ensures forall jti :: jti in s.codes ==> GoodCode(cfg, s', jti, s.codes[jti])
    ensures forall p :: p in s.proofs ==> GoodProof(cfg, s', p)
  {
    forall tx | tx in s.txs ensures GoodTx(cfg, s', tx) { GoodTxMono(cfg, s, s', tx); }
    forall p | p in s.proofs ensures GoodProof(cfg, s', p) { GoodProofMono(cfg, s, s', p); }
    forall jti | jti in s.codes ensures GoodCode(cfg, s', jti, s.codes[jti]) {
      GoodCodeMono(cfg, s, s', jti, s.codes[jti]);
    }
  }

  ghost predicate SameSealed(s: State, s': State) {
    && s'.txs == s.txs && s'.legs == s.legs && s'.sessions == s.sessions && s'.codes == s.codes
    && s'.proofs == s.proofs && s'.delivered == s.delivered
  }

  lemma InvMono(cfg: Config, s: State, s': State)
    requires Inv(cfg, s) && Extends(s, s') && SameSealed(s, s')
    ensures Inv(cfg, s')
  {
    OldValuesStayGood(cfg, s, s');
  }

  // ---------------------------------------------------------------- what a response may seal

  ghost predicate EffectOk(cfg: Config, s: State, e: Effect) {
    match e
    case Refuse => true
    case Page(tx) => GoodTx(cfg, s, tx)
    case SendCode(tx, digest, delivered) =>
      && GoodTx(cfg, s.(generated := s.generated + {digest}), tx)
      && (delivered ==> OtpAllowed(cfg, Some(digest.email)))
    case AskSecondFactor(tx, proof) =>
      && !proof.OtpProof? && !proof.LocalProof? && GoodProof(cfg, s, proof)
      && GoodTx(cfg, s.(proofs := s.proofs + {proof}), tx)
    case RedirectUpstream(leg) => GoodLeg(cfg, s, leg)
    case Complete(tx, session, proof) =>
      && Bound(cfg, s, tx) && s.now <= tx.exp
      && Evidences(proof, session)
      && GoodProof(cfg, s, proof)
      && (session.sid in s.sidAbs ==> s.sidAbs[session.sid] == session.abs)
      && AcrMet(cfg, session.acr, proof, tx.acrValues)
      && WithinMaxAge(session.authTime, tx.maxAge, s.now)
  }

  /** The relying party's view of a session shows exactly the evidence the session shows. */
  lemma IssuedCodeShows(cfg: Config, now: int, jti: string, tx: Tx, session: Session, proof: Proof)
    requires Evidences(proof, session)
    ensures CodeShows(cfg, IssueCode(cfg, now, jti, tx, session), proof)
  {
  }

  lemma NewCodeGood(cfg: Config, s: State, s': State, tx: Tx, session: Session, proof: Proof, jti: string)
    requires EffectOk(cfg, s, Complete(tx, session, proof))
    requires s' == Apply(cfg, s, Complete(tx, session, proof), jti)
    ensures GoodCode(cfg, s', jti, s'.codes[jti])
  {
    var touched := Touch(cfg.life, s.now, session);
    assert Evidences(proof, touched);
    IssuedCodeShows(cfg, s.now, jti, tx, touched, proof);
  }

  lemma CompleteKeepsInv(cfg: Config, s: State, tx: Tx, session: Session, proof: Proof, jti: string)
    requires Inv(cfg, s) && EffectOk(cfg, s, Complete(tx, session, proof)) && jti !in s.codes
    ensures Inv(cfg, Apply(cfg, s, Complete(tx, session, proof), jti))
  {
    var s' := Apply(cfg, s, Complete(tx, session, proof), jti);
    assert Extends(s, s');
    OldValuesStayGood(cfg, s, s');
    NewCodeGood(cfg, s, s', tx, session, proof, jti);
    GoodProofMono(cfg, s, s', proof);
    var touched := Touch(cfg.life, s.now, session);
    assert Evidences(proof, touched);
    assert GoodSession(s', touched, proof);
  }

  lemma SealKeepsInv(cfg: Config, s: State, s': State, tx: Tx)
    requires Inv(cfg, s) && Extends(s, s')
    requires s'.txs == s.txs + {tx} && s'.legs == s.legs && s'.sessions == s.sessions && s'.codes == s.codes
    requires GoodTx(cfg, s', tx)
    requires forall p :: p in s'.proofs - s.proofs ==> GoodProof(cfg, s', p)
    requires forall d :: d in s'.delivered - s.delivered ==> OtpAllowed(cfg, Some(d.email))
    ensures Inv(cfg, s')
  {
    OldValuesStayGood(cfg, s, s');
  }

  lemma SendKeepsInv(cfg: Config, s: State, tx: Tx, digest: Digest, delivered: bool, jti: string)
    requires Inv(cfg, s) && EffectOk(cfg, s, SendCode(tx, digest, delivered))
    ensures Inv(cfg, Apply(cfg, s, SendCode(tx, digest, delivered), jti))
  {
    var s' := Apply(cfg, s, SendCode(tx, digest, delivered), jti);
    GoodTxMono(cfg, s.(generated := s.generated + {digest}), s', tx);
    SealKeepsInv(cfg, s, s', tx);
  }

  lemma AskKeepsInv(cfg: Config, s: State, tx: Tx, proof: Proof, jti: string)
    requires Inv(cfg, s) && EffectOk(cfg, s, AskSecondFactor(tx, proof))
    ensures Inv(cfg, Apply(cfg, s, AskSecondFactor(tx, proof), jti))
  {
    var s' := Apply(cfg, s, AskSecondFactor(tx, proof), jti);
    GoodTxMono(cfg, s.(proofs := s.proofs + {proof}), s', tx);
    GoodProofMono(cfg, s, s', proof);
    SealKeepsInv(cfg, s, s', tx);
  }

  lemma PageKeepsInv(cfg: Config, s: State, tx: Tx)
    requires Inv(cfg, s) && GoodTx(cfg, s, tx)
    ensures Inv(cfg, s.(txs := s.txs + {tx}))
  {
    GoodTxMono(cfg, s, s.(txs := s.txs + {tx}), tx);
    SealKeepsInv(cfg, s, s.(txs := s.txs + {tx}), tx);
  }

  lemma RedirectKeepsInv(cfg: Config, s: State, leg: Leg)
    requires Inv(cfg, s) && GoodLeg(cfg, s, leg)
    ensures Inv(cfg, s.(legs := s.legs + {leg}))
  {
    OldValuesStayGood(cfg, s, s.(legs := s.legs + {leg}));
  }

  lemma ApplyKeepsInv(cfg: Config, s: State, e: Effect, jti: string)
    requires Inv(cfg, s) && EffectOk(cfg, s, e)
    requires e.Complete? ==> jti !in s.codes
    ensures Inv(cfg, Apply(cfg, s, e, jti))
  {
    match e
    case Refuse =>
    case Page(tx) => PageKeepsInv(cfg, s, tx);
    case SendCode(tx, digest, delivered) => SendKeepsInv(cfg, s, tx, digest, delivered, jti);
    case AskSecondFactor(tx, proof) => AskKeepsInv(cfg, s, tx, proof, jti);
    case RedirectUpstream(leg) => RedirectKeepsInv(cfg, s, leg);
    case Complete(tx, session, proof) => CompleteKeepsInv(cfg, s, tx, session, proof, jti);
  }

  // ---------------------------------------------------------------- every handler seals only good values

  /** What a transaction keeps when only its address has been replaced. */
  ghost predicate Routable(cfg: Config, s: State, tx: Tx) {
    && Bound(cfg, s, tx)
    && tx.email.Some?
    && (tx.otp.Some? && tx.otp.value.digest.Some? ==> tx.otp.value.digest.value in s.generated)
    && (tx.stage == Otp ==> tx.otp.Some?)
    && (tx.stage == LocalMfa ==>
          && tx.localIdentity.Some? && Satisfies(LOCAL_MFA, tx.acrValues)
          && PasswordFirst(s.proofs, tx.id, tx.localIdentity.value, s.now))
  }

  /** A code is only ever sent where the demand allows codes or the address only gets decoys. */
  ghost predicate Sendable(cfg: Config, s: State, tx: Tx) {
    Routable(cfg, s, tx) && (RequiresFederation(tx.acrValues) ==> DecoyPossible(cfg, tx.email))
  }

  lemma SendOtpOk(cfg: Config, s: State, tx: Tx, resend: bool, env: SendEnv)
    requires Sendable(cfg, s, tx)
    ensures EffectOk(cfg, s, SendOtp(cfg, s, tx, resend, env))
  {
  }

  lemma StartUpstreamOk(cfg: Config, s: State, tx: Tx, upstream: string, hinted: bool, env: RouteEnv)
    requires Routable(cfg, s, tx)
    ensures EffectOk(cfg, s, StartUpstream(cfg, s, tx, upstream, hinted, env))
  {
    if Sendable(cfg, s, tx) {
      SendOtpOk(cfg, s, tx, false, env.send);
    }
  }

  lemma StageOnlyOk(cfg: Config, s: State, tx: Tx, stage: Stage)
    requires Routable(cfg, s, tx) && stage != Otp && stage != LocalMfa
    ensures EffectOk(cfg, s, Page(tx.(stage := stage)))
  {
    assert RequestOf(tx.(stage := stage)) == RequestOf(tx);
  }

  lemma RouteOk(cfg: Config, s: State, tx: Tx, env: RouteEnv)
    requires Routable(cfg, s, tx) && exists typed :: cfg.addressOf(typed) == tx.email
    ensures EffectOk(cfg, s, Route(cfg, s, tx, env))
  {
    var e := Route(cfg, s, tx, env);
    var candidates := Candidates(cfg, tx.email);
    StageOnlyOk(cfg, s, tx, LocalPassword);
    StageOnlyOk(cfg, s, tx, Choose);
    StageOnlyOk(cfg, s, tx, Stage.Email);
    if |candidates| > 0 {
      StartUpstreamOk(cfg, s, tx, candidates[0].id, false, env);
    }
    if env.hinted.Some? {
      StartUpstreamOk(cfg, s, tx, env.hinted.value.id, true, env);
    }
    if Sendable(cfg, s, tx) {
      SendOtpOk(cfg, s, tx, false, env.send);
    }
  }

  lemma EmailOk(cfg: Config, s: State, tx: Tx, typed: string, remember: bool, otpMethod: bool, env: RouteEnv)
    requires GoodTx(cfg, s, tx)
    ensures EffectOk(cfg, s, EmailSubmit(cfg, s, tx, typed, remember, otpMethod, env))
  {
    var email := cfg.addressOf(typed);
    if email.Some? {
      var ready := tx.(rememberMe := Some(remember)).(email := email);
      assert RequestOf(ready) == RequestOf(tx);
      RouteOk(cfg, s, ready, env);
      if !RequiresFederation(ready.acrValues) {
        SendOtpOk(cfg, s, ready, false, env.send);
      }
    }
  }

  lemma ChooseOk(cfg: Config, s: State, tx: Tx, chosen: string, env: RouteEnv)
    requires GoodTx(cfg, s, tx)
    ensures EffectOk(cfg, s, ChooseUpstream(cfg, s, tx, chosen, env))
  {
    if tx.email.Some? {
      StartUpstreamOk(cfg, s, tx, chosen, false, env);
    }
  }

  ghost predicate Presentable(s: State, presented: Option<Session>, sid: string) {
    && sid !in s.sidAbs
    && (presented.Some? ==> presented.value in s.sessions)
  }

  lemma OtpSubmitOk(cfg: Config, s: State, tx: Tx, code: string, inferred: Option<Claims>,
                    presented: Option<Session>, sid: string)
    requires Inv(cfg, s) && GoodTx(cfg, s, tx) && !Expired(tx, s.now) && Presentable(s, presented, sid)
    ensures EffectOk(cfg, s, OtpSubmit(cfg, s, tx, code, inferred, presented, sid))
    ensures var e := OtpSubmit(cfg, s, tx, code, inferred, presented, sid);
            && (e.Complete? ==>
                  && e.tx == tx && e.proof.OtpProof? && e.proof.digest in s.generated
                  && e.proof.digest.txId == tx.id && Some(e.proof.digest.email) == tx.email && e.proof.digest.code == code)
            && (e.Page? ==> tx.otp.Some? && e.tx == tx.(otp := Some(tx.otp.value.(attempts := tx.otp.value.attempts + 1))))
  {
    OtpCompletionOk(cfg, s, tx, code, inferred, presented, sid);
    OtpSubmitShape(cfg, s, tx, code, inferred, presented, sid);
    assert GoodTx(cfg, s, tx);
  }

  lemma OtpCompletionOk(cfg: Config, s: State, tx: Tx, code: string, inferred: Option<Claims>,
                        presented: Option<Session>, sid: string)
    requires Inv(cfg, s) && GoodTx(cfg, s, tx) && !Expired(tx, s.now) && Presentable(s, presented, sid)
    ensures EffectOk(cfg, s, OtpSubmit(cfg, s, tx, code, inferred, presented, sid))
  {
    RequiresFederationIffOtpFails(tx.acrValues);
    PresentedKeepsCap(cfg, s, presented);
  }

  lemma OtpSubmitShape(cfg: Config, s: State, tx: Tx, code: string, inferred: Option<Claims>,
                       presented: Option<Session>, sid: string)
    ensures var e := OtpSubmit(cfg, s, tx, code, inferred, presented, sid);
            && (e.Complete? ==>
                  && e.tx == tx && e.proof.OtpProof? && tx.otp.Some? && tx.otp.value.digest == Some(e.proof.digest)
                  && e.proof.digest.txId == tx.id && Some(e.proof.digest.email) == tx.email && e.proof.digest.code == code)
            && (e.Page? ==> tx.otp.Some? && e.tx == tx.(otp := Some(tx.otp.value.(attempts := tx.otp.value.attempts + 1))))
  {
  }

  lemma PresentedKeepsCap(cfg: Config, s: State, presented: Option<Session>)
    requires Inv(cfg, s) && (presented.Some? ==> presented.value in s.sessions)
    ensures presented.Some? ==> presented.value.sid in s.sidAbs && s.sidAbs[presented.value.sid] == presented.value.abs
  {
    if presented.Some? {
      assert GoodSession(s, presented.value, s.sessions[presented.value]);
    }
  }

  lemma CompleteLocalOk(cfg: Config, s: State, tx: Tx, record: IdentityRecord, secondFactor: bool,
                        presented: Option<Session>, sid: string)
    requires Inv(cfg, s) && Bound(cfg, s, tx) && tx.email.Some? && !Expired(tx, s.now)
    requires Presentable(s, presented, sid)
    requires Satisfies(AcrForLocal(secondFactor), tx.acrValues)
    requires secondFactor ==> PasswordFirst(s.proofs, tx.id, LocalRef(record.id, record.version), s.now)
    ensures EffectOk(cfg, s, CompleteLocal(cfg, s, tx, record, secondFactor, presented, sid))
  {
    PresentedKeepsCap(cfg, s, presented);
  }

  lemma PasswordOk(cfg: Config, s: State, tx: Tx, limitAllowed: bool, matches: bool,
                   presented: Option<Session>, sid: string)
    requires Inv(cfg, s) && GoodTx(cfg, s, tx) && !Expired(tx, s.now) && Presentable(s, presented, sid)
    ensures EffectOk(cfg, s, LocalPasswordSubmit(cfg, s, tx, limitAllowed, matches, presented, sid))
  {
    var e := LocalPasswordSubmit(cfg, s, tx, limitAllowed, matches, presented, sid);
    if e.Complete? {
      CompleteLocalOk(cfg, s, tx, s.directory[RecordKey(tx.email.value)], false, presented, sid);
    } else if e.AskSecondFactor? {
      assert IsPasswordFor(e.proof, tx.id, e.proof.identity, s.now);
      assert RequestOf(e.tx) == RequestOf(tx);
    }
  }

  lemma MfaOk(cfg: Config, s: State, tx: Tx, limitAllowed: bool, accepted: bool,
              presented: Option<Session>, sid: string)
    requires Inv(cfg, s) && GoodTx(cfg, s, tx) && !Expired(tx, s.now) && Presentable(s, presented, sid)
    ensures EffectOk(cfg, s, LocalMfaSubmit(cfg, s, tx, limitAllowed, accepted, presented, sid))
  {
    var e := LocalMfaSubmit(cfg, s, tx, limitAllowed, accepted, presented, sid);
    if e.Complete? {
      CompleteLocalOk(cfg, s, tx, s.directory[RecordKey(tx.email.value)], true, presented, sid);
    }
  }

  lemma FallbackOk(cfg: Config, s: State, leg: Leg)
    requires GoodLeg(cfg, s, leg)
    ensures EffectOk(cfg, s, OfferFallback(cfg, leg.tx))
    ensures var e := OfferFallback(cfg, leg.tx);
            e.Page? || e.Refuse?
    ensures var e := OfferFallback(cfg, leg.tx);
            e.Page? ==> e.tx.otp == None && e.tx.localIdentity == None && e.tx.stage != Otp && e.tx.stage != LocalMfa
                        && RequestOf(e.tx) == RequestOf(leg.tx) && e.tx.id == leg.tx.id && e.tx.exp == leg.tx.exp
                        && (e.tx.email == leg.tx.email || e.tx.email == None)
  {
    assert RequestOf(WithoutAttempt(leg.tx)) == RequestOf(leg.tx) == RequestOf(WithoutOtp(leg.tx));
  }

  lemma CallbackOk(cfg: Config, s: State, leg: Leg, reply: UpstreamReply, presented: Option<Session>, sid: string)
    requires Inv(cfg, s) && GoodLeg(cfg, s, leg) && !Expired(leg.tx, s.now) && Presentable(s, presented, sid)
    ensures EffectOk(cfg, s, Callback(cfg, s, leg, reply, presented, sid))
  {
    if reply.Authenticated? {
      PresentedKeepsCap(cfg, s, presented);
    } else {
      FallbackOk(cfg, s, leg);
    }
  }

  lemma DecideOk(cfg: Config, s: State, tx: Tx, session: Option<Session>)
    requires Inv(cfg, s) && Bound(cfg, s, tx) && s.now <= tx.exp && tx.otp.None?
    requires session.Some? ==> session.value in s.sessions
    ensures EffectOk(cfg, s, Decide(cfg, s, tx, session))
  {
    if session.Some? {
      assert GoodSession(s, session.value, s.sessions[session.value]);
    }
  }

  lemma AuthorizeOk(cfg: Config, s: State, i: Input)
    requires Inv(cfg, s) && i.AuthorizeIn? && Admissible(s, i)
    ensures EffectOk(cfg, Base(s, i), Respond(cfg, s, i))
  {
    var tx := NewTransaction(s.now, cfg.transactionTtl, i.txId, i.request);
    assert RequestOf(tx) == i.request;
    BaseExtends(s, i);
    InvMono(cfg, s, Base(s, i));
    DecideOk(cfg, Base(s, i), tx, ValidSession(cfg, s, ReadSession(cfg, s, i.presented)));
  }

  lemma ContinueOk(cfg: Config, s: State, tx: Tx, presented: Option<Session>)
    requires Inv(cfg, s) && GoodTx(cfg, s, tx) && !Expired(tx, s.now)
    requires presented.Some? ==> presented.value in s.sessions
    ensures EffectOk(cfg, s, ContinueSubmit(cfg, s, tx, presented))
  {
    assert RequestOf(tx.(stage := Stage.Email)) == RequestOf(tx);
    if presented.Some? {
      assert GoodSession(s, presented.value, s.sessions[presented.value]);
    }
  }

  predicate Screen(i: Input) {
    i.EmailIn? || i.OtpRequestIn? || i.ResendIn? || i.RestartIn? || i.ChooseIn?
  }

  lemma ScreensOk(cfg: Config, s: State, i: Input)
    requires Inv(cfg, s) && Admissible(s, i) && Screen(i)
    ensures EffectOk(cfg, s, Respond(cfg, s, i))
  {
    match i
    case EmailIn(tx, typed, remember, otpMethod, env) => EmailOk(cfg, s, tx, typed, remember, otpMethod, env);
    case OtpRequestIn(tx, send) =>
      if !OtpRequest(cfg, s, tx, send).Refuse? { SendOtpOk(cfg, s, tx, false, send); }
    case ResendIn(tx, send) =>
      if !Resend(cfg, s, tx, send).Refuse? { SendOtpOk(cfg, s, tx, true, send); }
    case RestartIn(tx) => assert RequestOf(WithoutOtp(tx)) == RequestOf(tx);
    case ChooseIn(tx, chosen, env) => ChooseOk(cfg, s, tx, chosen, env);
  }

  /** The inputs that may complete a sign-in. */
  lemma CompletersOk(cfg: Config, s: State, i: Input)
    requires Inv(cfg, s) && Admissible(s, i)
    requires i.OtpIn? || i.PasswordIn? || i.MfaIn? || i.ContinueIn? || i.CallbackIn?
    ensures EffectOk(cfg, s, Respond(cfg, s, i))
  {
    match i
    case OtpIn(tx, code, inferred, presented, sid, _) =>
      if !Expired(tx, s.now) { OtpSubmitOk(cfg, s, tx, code, inferred, presented, sid); }
    case PasswordIn(tx, limitAllowed, matches, presented, sid, _) =>
      if !Expired(tx, s.now) { PasswordOk(cfg, s, tx, limitAllowed, matches, presented, sid); }
    case MfaIn(tx, limitAllowed, accepted, presented, sid, _) =>
      if !Expired(tx, s.now) { MfaOk(cfg, s, tx, limitAllowed, accepted, presented, sid); }
    case ContinueIn(tx, presented, _) =>
      if !Expired(tx, s.now) { ContinueOk(cfg, s, tx, presented); }
    case CallbackIn(leg, reply, presented, sid, _) =>
      if !Expired(leg.tx, s.now) { CallbackOk(cfg, s, leg, reply, presented, sid); }
  }

  /** Whatever sealed values are presented, a handler only ever seals values that keep the guarantees. */
  lemma RespondOk(cfg: Config, s: State, i: Input)
    requires Inv(cfg, s) && Admissible(s, i) && !Quiet(i)
    ensures EffectOk(cfg, Base(s, i), Respond(cfg, s, i))
  {
    if i.AuthorizeIn? {
      AuthorizeOk(cfg, s, i);
    } else if Screen(i) {
      ScreensOk(cfg, s, i);
    } else {
      CompletersOk(cfg, s, i);
    }
  }

  /** Steps that seal nothing: time, redemption, logout, other store traffic, operator edits. */
  predicate Quiet(i: Input) {
    i.Tick? || i.TokenIn? || i.LogoutIn? || i.OtherClaimIn? || i.HasIn? || i.OperatorIn?
  }

  lemma QuietStep(cfg: Config, s: State, i: Input)
    requires Admissible(s, i) && Quiet(i)
    ensures Extends(s, Step(cfg, s, i)) && SameSealed(s, Step(cfg, s, i))
  {
  }

  lemma BaseExtends(s: State, i: Input)
    requires Admissible(s, i)
    ensures Extends(s, Base(s, i)) && SameSealed(s, Base(s, i))
  {
  }

  lemma StepKeepsInv(cfg: Config, s: State, i: Input)
    requires Inv(cfg, s) && Admissible(s, i)
    ensures Inv(cfg, Step(cfg, s, i))
  {
    if Quiet(i) {
      QuietStep(cfg, s, i);
      InvMono(cfg, s, Step(cfg, s, i));
    } else {
      BaseExtends(s, i);
      InvMono(cfg, s, Base(s, i));
      RespondOk(cfg, s, i);
      CompletionsAreFresh(cfg, s, i);
      ApplyKeepsInv(cfg, Base(s, i), Respond(cfg, s, i), CodeIdOf(i));
    }
  }

  lemma CompletionsAreFresh(cfg: Config, s: State, i: Input)
    requires Admissible(s, i) && !Quiet(i)
    ensures Respond(cfg, s, i).Complete? ==> CodeIdOf(i) !in s.codes
  {
  }
}

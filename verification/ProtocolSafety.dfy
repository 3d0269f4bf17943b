/** The promises of the sign-in flow, over every run and every order of presented tokens. */
module ProtocolSafety {
  import opened Basics
  import opened Acr
  import opened Session
  import opened Transaction
  import opened Protocol
  import opened ProtocolInvariant
  import opened ProtocolStore
  import ClaimStore

  lemma {:induction false} ReachableInv(cfg: Config, run: seq<State>, inputs: seq<Input>, k: nat)
    requires IsRun(cfg, run, inputs) && k < |run|
    ensures Inv(cfg, run[k])
  {
    if k > 0 {
      ReachableInv(cfg, run, inputs, k - 1);
      StepKeepsInv(cfg, run[k - 1], inputs[k - 1]);
    }
  }

  lemma {:induction false} ReachableStore(cfg: Config, run: seq<State>, inputs: seq<Input>, k: nat)
    requires cfg.stateStore && IsRun(cfg, run, inputs) && k < |run|
    ensures StoreInv(cfg, run[k])
  {
    if k > 0 {
      ReachableInv(cfg, run, inputs, k - 1);
      ReachableStore(cfg, run, inputs, k - 1);
      StepKeepsStore(cfg, run[k - 1], inputs[k - 1]);
    }
  }

  lemma {:induction false} ReachableRedemptions(cfg: Config, run: seq<State>, inputs: seq<Input>, k: nat)
    requires IsRun(cfg, run, inputs) && k < |run|
    ensures RedemptionInv(cfg, run[k])
  {
    if k > 0 {
      ReachableInv(cfg, run, inputs, k - 1);
      ReachableRedemptions(cfg, run, inputs, k - 1);
      StepKeepsRedemptions(cfg, run[k - 1], inputs[k - 1]);
    }
  }

  // ---------------------------------------------------------------- the demanded authentication

  /**
   * Every code meets the acr demand and the max_age of the request it answers.  The one exception is
   * an email-code sign-in for an address that nothing serves, in a deployment that does not say so:
   * somebody guessed a decoy.  ProtocolDecoys shows exactly which deployments that concerns.
   */
  lemma CodesMeetTheirDemand(cfg: Config, run: seq<State>, inputs: seq<Input>, k: nat, jti: string)
    requires IsRun(cfg, run, inputs) && k < |run| && jti in run[k].codes
    ensures run[k].codes[jti].txId in run[k].requests
    ensures var m := run[k].codes[jti];
            var asked := run[k].requests[m.txId];
            && (|| Satisfies(m.code.acr, asked.request.acrValues)
                || (&& m.proof.OtpProof? && GuessableDecoy(cfg, Some(m.proof.digest.email))
                    && m.proof.digest !in run[k].delivered))
            && (asked.request.maxAge.Some? ==> m.code.authTime + asked.request.maxAge.value >= m.code.iat)
            && asked.at <= m.code.iat <= asked.at + cfg.transactionTtl
  {
    ReachableInv(cfg, run, inputs, k);
    assert GoodCode(cfg, run[k], jti, run[k].codes[jti]);
  }

  // ---------------------------------------------------------------- who a code speaks for

  /**
   * A code speaks for exactly the principal of one recorded authentication, in full: address,
   * verification, context, time, profile claims and local identity.
   */
  lemma CodesTraceToEvidence(cfg: Config, run: seq<State>, inputs: seq<Input>, k: nat, jti: string)
    requires IsRun(cfg, run, inputs) && k < |run| && jti in run[k].codes
    ensures var m := run[k].codes[jti];
            && m.proof in run[k].proofs
            && m.proof.at <= m.code.iat
            && CodeShows(cfg, m.code, m.proof)
            && (m.code.emailVerified ==> m.proof.OtpProof? || m.proof.UpstreamProof?)
            && (m.proof.OtpProof? ==> m.proof.digest in run[k].generated)
            && (m.proof.UpstreamProof? ==> m.proof.upstream in cfg.upstreams)
            && (m.code.acr == LOCAL_MFA ==>
                  && m.proof.LocalProof?
                  && PasswordFirst(run[k].proofs, m.proof.txId, m.proof.identity, m.proof.at))
  {
    ReachableInv(cfg, run, inputs, k);
    assert GoodCode(cfg, run[k], jti, run[k].codes[jti]);
    assert GoodProof(cfg, run[k], run[k].codes[jti].proof);
  }

  /** Every field that came from the relying party reaches the code unchanged, along every path of screens. */
  lemma CodesAnswerTheirRequest(cfg: Config, run: seq<State>, inputs: seq<Input>, k: nat, jti: string)
    requires IsRun(cfg, run, inputs) && k < |run| && jti in run[k].codes
    ensures run[k].codes[jti].txId in run[k].requests
    ensures var code := run[k].codes[jti].code;
            var r := run[k].requests[run[k].codes[jti].txId].request;
            && code.clientId == r.clientId && code.redirectUri == r.redirectUri && code.scope == r.scope
            && code.nonce == r.nonce && code.codeChallenge == r.codeChallenge
            && code.idTokenAlg == r.idTokenAlg && code.resource == r.resource
  {
    ReachableInv(cfg, run, inputs, k);
    assert GoodCode(cfg, run[k], jti, run[k].codes[jti]);
  }

  /** A code-entry screen for a demand that rules email codes out is always a decoy, wherever it was sealed. */
  lemma FederationScreensAreDecoys(cfg: Config, run: seq<State>, inputs: seq<Input>, k: nat, tx: Tx)
    requires IsRun(cfg, run, inputs) && k < |run| && tx in run[k].txs
    requires tx.stage == Otp && !Satisfies(OTP, tx.acrValues)
    ensures DecoyPossible(cfg, tx.email)
    ensures forall d :: d in run[k].delivered ==> Some(d.email) != tx.email
  {
    ReachableInv(cfg, run, inputs, k);
    assert GoodTx(cfg, run[k], tx);
    RequiresFederationIffOtpFails(tx.acrValues);
  }

  // ---------------------------------------------------------------- honest browsers

  function GeneratedBy(i: Input): Option<string> {
    match i
    case EmailIn(_, _, _, _, env) => Some(env.send.code)
    case OtpRequestIn(_, send) => Some(send.code)
    case ResendIn(_, send) => Some(send.code)
    case ChooseIn(_, _, env) => Some(env.send.code)
    case _ => None
  }

  /** Codes are unguessable: each is new, and one that was generated is only known from a mail. */
  ghost predicate Honest(s: State, i: Input) {
    && (GeneratedBy(i).Some? ==> forall d :: d in s.generated ==> d.code != GeneratedBy(i).value)
    && (i.OtpIn? ==> forall d :: d in s.generated && d.code == i.code ==>
                       exists m :: m in s.delivered && m.code == i.code)
  }

  ghost predicate HonestInv(s: State) {
    && (forall d, e :: d in s.generated && e in s.generated && d.code == e.code ==> d == e)
    && s.delivered <= s.generated
    && (forall p :: p in s.proofs && p.OtpProof? ==> p.digest in s.delivered)
  }

  /** Which new code or new one-time-code evidence a response can bring. */
  ghost predicate Accountable(s: State, i: Input, e: Effect) {
    && (e.SendCode? ==> GeneratedBy(i) == Some(e.digest.code))
    && (e.AskSecondFactor? ==> !e.proof.OtpProof?)
    && (e.Complete? && e.proof.OtpProof? && e.proof !in s.proofs ==>
          i.OtpIn? && e.proof.digest.code == i.code && e.proof.digest in s.generated)
  }

  lemma RouteAccountable(cfg: Config, s: State, tx: Tx, env: RouteEnv)
    requires tx.email.Some?
    ensures Route(cfg, s, tx, env).SendCode? ==> Route(cfg, s, tx, env).digest.code == env.send.code
    ensures !Route(cfg, s, tx, env).Complete? && !Route(cfg, s, tx, env).AskSecondFactor?
  {
  }

  /** A response that rests on a presented session brings no new evidence. */
  lemma SessionEvidenceIsOld(cfg: Config, s: State, i: Input)
    requires Inv(cfg, s) && Admissible(s, i) && (i.AuthorizeIn? || i.ContinueIn?)
    ensures var e := Respond(cfg, s, i);
            !e.SendCode? && !e.AskSecondFactor? && (e.Complete? ==> e.proof in s.proofs)
  {
    if i.presented.Some? {
      assert GoodSession(s, i.presented.value, s.sessions[i.presented.value]);
    }
  }

  lemma OtpAccountable(cfg: Config, s: State, i: Input)
    requires Inv(cfg, s) && Admissible(s, i) && i.OtpIn?
    ensures Accountable(s, i, Respond(cfg, s, i))
  {
    assert GoodTx(cfg, s, i.tx);
  }

  lemma SendsAreAccountable(cfg: Config, s: State, i: Input)
    requires Admissible(s, i) && (i.OtpRequestIn? || i.ResendIn? || i.ChooseIn?)
    ensures Accountable(s, i, Respond(cfg, s, i))
  {
  }

  lemma EmailAccountable(cfg: Config, s: State, i: Input)
    requires Admissible(s, i) && i.EmailIn?
    ensures Accountable(s, i, Respond(cfg, s, i))
  {
    var email := cfg.addressOf(i.typed);
    if email.Some? {
      RouteAccountable(cfg, s, i.tx.(rememberMe := Some(i.remember)).(email := email), i.env);
    }
  }

  /** A password, a second factor or a provider brings evidence of its own kind only. */
  lemma OtherEvidence(cfg: Config, s: State, i: Input)
    requires Admissible(s, i) && (i.PasswordIn? || i.MfaIn? || i.CallbackIn? || i.RestartIn?)
    ensures Accountable(s, i, Respond(cfg, s, i))
  {
  }

  lemma RespondAccountable(cfg: Config, s: State, i: Input)
    requires Inv(cfg, s) && Admissible(s, i) && !Quiet(i)
    ensures Accountable(s, i, Respond(cfg, s, i))
  {
    if i.EmailIn? {
      EmailAccountable(cfg, s, i);
    } else if i.OtpIn? {
      OtpAccountable(cfg, s, i);
    } else if i.ContinueIn? || i.AuthorizeIn? {
      SessionEvidenceIsOld(cfg, s, i);
    } else if i.OtpRequestIn? || i.ResendIn? || i.ChooseIn? {
      SendsAreAccountable(cfg, s, i);
    } else {
      OtherEvidence(cfg, s, i);
    }
  }

  lemma ApplyKeepsHonest(cfg: Config, s: State, i: Input, e: Effect, jti: string)
    requires HonestInv(s) && Honest(s, i) && Accountable(s, i, e)
    ensures HonestInv(Apply(cfg, s, e, jti))
  {
    if e.Complete? && e.proof.OtpProof? && e.proof !in s.proofs {
      var d := e.proof.digest;
      var m :| m in s.delivered && m.code == i.code;
      assert m == d;
    }
  }

  lemma QuietKeepsHonest(cfg: Config, s: State, i: Input)
    requires HonestInv(s) && Admissible(s, i) && Quiet(i)
    ensures HonestInv(Step(cfg, s, i))
  {
    assert Step(cfg, s, i).generated == s.generated;
    assert Step(cfg, s, i).delivered == s.delivered;
    assert Step(cfg, s, i).proofs == s.proofs;
  }

  lemma ResponseKeepsHonest(cfg: Config, s: State, i: Input)
    requires Inv(cfg, s) && HonestInv(s) && Admissible(s, i) && Honest(s, i) && !Quiet(i)
    ensures HonestInv(Apply(cfg, Base(s, i), Respond(cfg, s, i), CodeIdOf(i)))
  {
    RespondAccountable(cfg, s, i);
    var base := Base(s, i);
    assert HonestInv(base) && Honest(base, i) && Accountable(base, i, Respond(cfg, s, i));
    ApplyKeepsHonest(cfg, base, i, Respond(cfg, s, i), CodeIdOf(i));
  }

  lemma StepKeepsHonest(cfg: Config, s: State, i: Input)
    requires Inv(cfg, s) && HonestInv(s) && Admissible(s, i) && Honest(s, i)
    ensures HonestInv(Step(cfg, s, i))
  {
    if Quiet(i) {
      QuietKeepsHonest(cfg, s, i);
    } else {
      ResponseKeepsHonest(cfg, s, i);
    }
  }

  ghost predicate HonestRun(cfg: Config, run: seq<State>, inputs: seq<Input>) {
    IsRun(cfg, run, inputs) && forall k :: 0 <= k < |inputs| ==> Honest(run[k], inputs[k])
  }

  lemma {:induction false} ReachableHonest(cfg: Config, run: seq<State>, inputs: seq<Input>, k: nat)
    requires HonestRun(cfg, run, inputs) && k < |run|
    ensures HonestInv(run[k])
  {
    if k > 0 {
      ReachableInv(cfg, run, inputs, k - 1);
      ReachableHonest(cfg, run, inputs, k - 1);
      StepKeepsHonest(cfg, run[k - 1], inputs[k - 1]);
    }
  }

  /**
   * When one-time codes are only learnt from mail, every code ever minted meets its acr demand, and
   * every email-code sign-in was proved with a code that had been mailed to that very address.
   */
  lemma HonestRunsMeetEveryDemand(cfg: Config, run: seq<State>, inputs: seq<Input>, k: nat, jti: string)
    requires HonestRun(cfg, run, inputs) && k < |run| && jti in run[k].codes
    ensures run[k].codes[jti].txId in run[k].requests
    ensures var m := run[k].codes[jti];
            && Satisfies(m.code.acr, run[k].requests[m.txId].request.acrValues)
            && (m.code.acr == OTP ==>
                  exists d :: d in run[k].delivered && m.code.email == IdentityEmail(cfg, d.email, m.code.clientId))
  {
    ReachableInv(cfg, run, inputs, k);
    ReachableHonest(cfg, run, inputs, k);
    var m := run[k].codes[jti];
    assert GoodCode(cfg, run[k], jti, m);
    if m.proof.OtpProof? {
      assert m.proof.digest in run[k].delivered;
    }
  }

  // ---------------------------------------------------------------- sessions and sign-out

  /** Touching and re-authenticating never extend a session: one identifier has one cap, and idle ends by it. */
  lemma SessionsShareOneCap(cfg: Config, run: seq<State>, inputs: seq<Input>, k: nat, a: Session, b: Session)
    requires IsRun(cfg, run, inputs) && k < |run|
    requires a in run[k].sessions && b in run[k].sessions && a.sid == b.sid
    ensures a.abs == b.abs && a.exp <= a.abs && b.exp <= b.abs
  {
    ReachableInv(cfg, run, inputs, k);
    assert GoodSession(run[k], a, run[k].sessions[a]);
    assert GoodSession(run[k], b, run[k].sessions[b]);
  }

  /** Answering a browser never touches what the store and the sign-outs have settled. */
  lemma ApplyFrame(cfg: Config, s: State, e: Effect, jti: string)
    ensures var s' := Apply(cfg, s, e, jti);
            s'.loggedOut == s.loggedOut && s'.redemptions == s.redemptions && s'.claims == s.claims && s'.directory == s.directory
  {
  }

  lemma StepKeepsLoggedOut(cfg: Config, s: State, i: Input)
    requires Admissible(s, i)
    ensures s.loggedOut <= Step(cfg, s, i).loggedOut
  {
    if !Quiet(i) {
      ApplyFrame(cfg, Base(s, i), Respond(cfg, s, i), CodeIdOf(i));
    }
  }

  lemma {:induction false} LoggedOutGrows(cfg: Config, run: seq<State>, inputs: seq<Input>, j: nat, k: nat)
    requires IsRun(cfg, run, inputs) && j <= k < |run|
    ensures run[j].loggedOut <= run[k].loggedOut
    decreases k
  {
    if j < k {
      LoggedOutGrows(cfg, run, inputs, j, k - 1);
      StepKeepsLoggedOut(cfg, run[k - 1], inputs[k - 1]);
    }
  }

  /** After a completed sign-out no copy of that session is ever read successfully again. */
  lemma SignOutIsFinal(cfg: Config, run: seq<State>, inputs: seq<Input>, j: nat, k: nat, copy: Session)
    requires cfg.stateStore && IsRun(cfg, run, inputs) && j <= k < |run|
    requires copy.sid in run[j].loggedOut && copy in run[k].sessions
    ensures ReadSession(cfg, run[k], Some(copy)) == None
  {
    LoggedOutGrows(cfg, run, inputs, j, k);
    ReachableInv(cfg, run, inputs, k);
    ReachableStore(cfg, run, inputs, k);
    assert GoodSession(run[k], copy, run[k].sessions[copy]);
    assert MarkedWhileReadable(run[k], copy.sid);
  }

  /**
   * A sign-out that completes ends a readable session exactly when it comes before the absolute cap:
   * in the very second of the cap no marker is written and the session still reads back.
   */
  lemma SignOutEndsSessionIff(cfg: Config, s: State, session: Session)
    requires cfg.stateStore && Admissible(s, LogoutIn([session]))
    requires ReadSession(cfg, s, Some(session)).Some?
    requires RevokeEach(cfg, s.now, s.claims, [session]).Revoked?
    ensures ReadSession(cfg, Step(cfg, s, LogoutIn([session])), Some(session)).None? <==> s.now < session.abs
    ensures session.sid in Step(cfg, s, LogoutIn([session])).loggedOut - s.loggedOut ==> s.now < session.abs
    ensures s.now < session.abs ==> session.sid in Step(cfg, s, LogoutIn([session])).loggedOut
  {
    var one := [session];
    assert one[0] == session && one[1..] == [];
    var s' := Step(cfg, s, LogoutIn(one));
    var r := RevokeOne(cfg, s.now, s.claims, session);
    assert RevokeEach(cfg, s.now, r.claims, one[1..]) == Revoked(r.claims);
    assert s'.claims == r.claims;
    if s.now < session.abs {
      assert session.sid in Ended(s.now, one) by {
        assert 0 <= 0 < |one| && one[0].exp >= s.now && one[0].abs > s.now;
      }
    }
  }

  // ---------------------------------------------------------------- redemption

  /** Over a whole run no authorization code is exchanged twice. */
  lemma CodesAreSingleUse(cfg: Config, run: seq<State>, inputs: seq<Input>, k: nat, a: nat, b: nat)
    requires cfg.stateStore && IsRun(cfg, run, inputs) && k < |run|
    requires a < b < |run[k].redemptions|
    ensures run[k].redemptions[a].code.jti != run[k].redemptions[b].code.jti
  {
    ReachableStore(cfg, run, inputs, k);
  }

  /**
   * Whoever exchanges a code is the client that asked, at the redirect URI it asked with, holding a
   * verifier that hashes to the challenge it sent, while the code is valid; with or without a store.
   */
  lemma RedemptionsAreBound(cfg: Config, run: seq<State>, inputs: seq<Input>, k: nat, a: nat)
    requires IsRun(cfg, run, inputs) && k < |run| && a < |run[k].redemptions|
    ensures var r := run[k].redemptions[a];
            && r.code.jti in run[k].codes && run[k].codes[r.code.jti].code == r.code
            && run[k].codes[r.code.jti].txId in run[k].requests
            && (var asked := run[k].requests[run[k].codes[r.code.jti].txId].request;
                && r.clientId == asked.clientId && r.redirectUri == asked.redirectUri
                && (asked.codeChallenge.Some? ==>
                      r.verifier.Some? && cfg.sha256(r.verifier.value) == asked.codeChallenge.value))
            && r.at <= r.code.exp
  {
    ReachableRedemptions(cfg, run, inputs, k);
    var r := run[k].redemptions[a];
    assert Genuine(cfg, run[k], r);
    CodesAnswerTheirRequest(cfg, run, inputs, k, r.code.jti);
  }

  // ---------------------------------------------------------------- local accounts stay authoritative

  ghost predicate LocalIsCurrent(s: State, localKey: Option<RecordKey>, localId: Option<string>, localVersion: Option<int>) {
    localId.Some? ==>
      localKey.Some? && localVersion.Some? && RecordCurrent(s, localKey.value, localId.value, localVersion.value)
  }

  ghost predicate CodeIsCurrent(s: State, code: Code) {
    LocalIsCurrent(s, code.localKey, code.localId, code.localVersion)
  }

  /** Every code minted or exchanged by this step rests on a record that is in force right now. */
  ghost predicate NewGrantsAreCurrent(s: State, s': State) {
    && (forall jti :: jti in s'.codes && jti !in s.codes ==> CodeIsCurrent(s, s'.codes[jti].code))
    && (forall a :: |s.redemptions| <= a < |s'.redemptions| ==> CodeIsCurrent(s, s'.redemptions[a].code))
  }

  ghost predicate EffectIsCurrent(s: State, e: Effect) {
    e.Complete? ==> LocalIsCurrent(s, e.session.localKey, e.session.localId, e.session.localVersion)
  }

  /** A session that passed the two checks of a reader names a record in force. */
  lemma ReadSessionsAreCurrent(cfg: Config, s: State, presented: Option<Session>)
    ensures var r := ValidSession(cfg, s, ReadSession(cfg, s, presented));
            r.Some? ==> LocalIsCurrent(s, r.value.localKey, r.value.localId, r.value.localVersion)
  {
  }

  lemma CallbackIsCurrent(cfg: Config, s: State, leg: Leg, reply: UpstreamReply, presented: Option<Session>, sid: string)
    ensures EffectIsCurrent(s, Callback(cfg, s, leg, reply, presented, sid))
  {
  }

  lemma LocalIsCurrentAfterLogin(cfg: Config, s: State, tx: Tx, record: IdentityRecord, secondFactor: bool,
                                 presented: Option<Session>, sid: string)
    requires tx.email.Some? && RecordKey(tx.email.value) in s.directory
    requires record == s.directory[RecordKey(tx.email.value)] && !record.disabled
    ensures EffectIsCurrent(s, CompleteLocal(cfg, s, tx, record, secondFactor, presented, sid))
  {
  }

  lemma LocalInputsAreCurrent(cfg: Config, s: State, i: Input)
    requires Admissible(s, i) && (i.PasswordIn? || i.MfaIn?)
    ensures EffectIsCurrent(s, Respond(cfg, s, i))
  {
    var tx := i.tx;
    if tx.email.Some? && RecordKey(tx.email.value) in s.directory && !s.directory[RecordKey(tx.email.value)].disabled {
      LocalIsCurrentAfterLogin(cfg, s, tx, s.directory[RecordKey(tx.email.value)], i.MfaIn?, i.presented, i.sid);
    }
  }

  lemma RespondUsesCurrentRecord(cfg: Config, s: State, i: Input)
    requires Inv(cfg, s) && Admissible(s, i)
    ensures EffectIsCurrent(s, Respond(cfg, s, i))
  {
    if i.PasswordIn? || i.MfaIn? {
      LocalInputsAreCurrent(cfg, s, i);
    } else if i.AuthorizeIn? || i.ContinueIn? {
      ReadSessionsAreCurrent(cfg, s, i.presented);
    } else if i.CallbackIn? {
      CallbackIsCurrent(cfg, s, i.leg, i.reply, i.presented, i.sid);
    } else if i.OtpIn? {
      OtpIsCurrent(cfg, s, i.tx, i.code, i.inferred, i.presented, i.sid);
    } else {
      ScreensCompleteNothing(cfg, s, i);
    }
  }

  lemma OtpIsCurrent(cfg: Config, s: State, tx: Tx, code: string, inferred: Option<Claims>, presented: Option<Session>, sid: string)
    ensures EffectIsCurrent(s, OtpSubmit(cfg, s, tx, code, inferred, presented, sid))
  {
  }

  lemma ScreensCompleteNothing(cfg: Config, s: State, i: Input)
    requires Admissible(s, i)
    requires i.EmailIn? || i.OtpRequestIn? || i.ResendIn? || i.ChooseIn? || i.RestartIn? || Quiet(i)
    ensures !Respond(cfg, s, i).Complete?
  {
    if i.EmailIn? && cfg.addressOf(i.typed).Some? {
      RouteAccountable(cfg, s, i.tx.(rememberMe := Some(i.remember)).(email := cfg.addressOf(i.typed)), i.env);
    }
  }

  lemma CompletionGrants(cfg: Config, s: State, asked: State, e: Effect, jti: string)
    requires asked == s.(requests := asked.requests)
    requires EffectIsCurrent(s, e)
    ensures NewGrantsAreCurrent(s, Apply(cfg, asked, e, jti))
  {
  }

  lemma TokenGrants(cfg: Config, s: State, code: Code, clientId: string, redirectUri: string, verifier: Option<string>)
    ensures NewGrantsAreCurrent(s, AfterExchange(s, Redeem(cfg, s, code, clientId, redirectUri, verifier)))
  {
    var x := Redeem(cfg, s, code, clientId, redirectUri, verifier);
    assert |x.issued| <= 1;
    assert x.issued != [] ==> x.issued[0].code == code && CodeIsCurrent(s, code);
  }

  lemma QuietGrants(cfg: Config, s: State, i: Input)
    requires Admissible(s, i) && Quiet(i)
    ensures NewGrantsAreCurrent(s, Step(cfg, s, i))
  {
    if i.TokenIn? {
      TokenGrants(cfg, s, s.codes[i.code].code, i.clientId, i.redirectUri, i.verifier);
    } else {
      NothingGranted(cfg, s, i);
    }
  }

  lemma NothingGranted(cfg: Config, s: State, i: Input)
    requires Admissible(s, i) && Quiet(i) && !i.TokenIn?
    ensures Step(cfg, s, i).codes == s.codes && Step(cfg, s, i).redemptions == s.redemptions
  {
  }

  lemma StepGrantsAreCurrent(cfg: Config, s: State, i: Input)
    requires Inv(cfg, s) && Admissible(s, i)
    ensures NewGrantsAreCurrent(s, Step(cfg, s, i))
  {
    if Quiet(i) {
      QuietGrants(cfg, s, i);
    } else {
      RespondUsesCurrentRecord(cfg, s, i);
      CompletionGrants(cfg, s, Base(s, i), Respond(cfg, s, i), CodeIdOf(i));
    }
  }

  /** A disabled, deleted or re-versioned local account can neither gain a code nor redeem one. */
  lemma LocalCodesNeedCurrentRecord(cfg: Config, run: seq<State>, inputs: seq<Input>, k: nat)
    requires IsRun(cfg, run, inputs) && k < |inputs|
    ensures NewGrantsAreCurrent(run[k], run[k + 1])
  {
    ReachableInv(cfg, run, inputs, k);
    StepGrantsAreCurrent(cfg, run[k], inputs[k]);
  }
}

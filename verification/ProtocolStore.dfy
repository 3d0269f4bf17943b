/** Single-use codes and revoked sessions: the claim store's part of the protocol invariant. */
module ProtocolStore {
  import opened Basics
  import opened Session
  import opened Transaction
  import opened Protocol
  import opened ProtocolInvariant
  import ClaimStore

  /** A revocation marker always carries the one absolute cap of its session. */
  ghost predicate MarkersCarryCap(s: State, claims: map<ClaimId, int>) {
    forall sid :: RevokedSession(sid) in claims ==> sid in s.sidAbs && claims[RevokedSession(sid)] == s.sidAbs[sid]
  }

  ghost predicate MarkedWhileReadable(s: State, sid: string) {
    sid in s.sidAbs && (s.now <= s.sidAbs[sid] ==> RevokedSession(sid) in s.claims)
  }

  ghost predicate SpentWhileValid(s: State, code: Code) {
    && code.jti in s.codes && s.codes[code.jti].code == code
    && (s.now <= code.exp ==> SpentCode(code.jti) in s.claims && s.claims[SpentCode(code.jti)] >= code.exp)
  }

  ghost predicate StoreInv(cfg: Config, s: State) {
    && MarkersCarryCap(s, s.claims)
    && (forall sid :: sid in s.loggedOut ==> MarkedWhileReadable(s, sid))
    && (forall k :: 0 <= k < |s.redemptions| ==> SpentWhileValid(s, s.redemptions[k].code))
    && (forall j, k :: 0 <= j < k < |s.redemptions| ==> s.redemptions[j].code.jti != s.redemptions[k].code.jti)
  }

  /** Dropping only expired records and writing only records of other kinds keeps every promise. */
  lemma ClaimsEvolve(cfg: Config, s: State, s': State, written: set<ClaimId>)
    requires cfg.stateStore && StoreInv(cfg, s)
    requires s'.now == s.now && s'.sidAbs == s.sidAbs && s'.codes == s.codes
    requires s'.loggedOut == s.loggedOut && s'.redemptions == s.redemptions
    requires ClaimStore.OnlyExpiredDropped(s.claims, s'.claims, s.now, written)
    requires forall sid :: RevokedSession(sid) !in written
    requires forall k :: 0 <= k < |s.redemptions| ==> SpentCode(s.redemptions[k].code.jti) !in written
    ensures StoreInv(cfg, s')
  {
    forall sid | sid in s'.loggedOut ensures MarkedWhileReadable(s', sid) {
      assert MarkedWhileReadable(s, sid);
    }
    forall k | 0 <= k < |s'.redemptions| ensures SpentWhileValid(s', s'.redemptions[k].code) {
      assert SpentWhileValid(s, s.redemptions[k].code);
    }
  }

  lemma TimeKeepsStore(cfg: Config, s: State, s': State)
    requires StoreInv(cfg, s)
    requires s.now <= s'.now && s'.claims == s.claims && s'.redemptions == s.redemptions && s'.loggedOut == s.loggedOut
    requires forall jti :: jti in s.codes ==> jti in s'.codes && s'.codes[jti] == s.codes[jti]
    requires forall sid :: sid in s.sidAbs ==> sid in s'.sidAbs && s'.sidAbs[sid] == s.sidAbs[sid]
    ensures StoreInv(cfg, s')
  {
    forall sid | sid in s'.loggedOut ensures MarkedWhileReadable(s', sid) {
      assert MarkedWhileReadable(s, sid);
    }
    forall k | 0 <= k < |s'.redemptions| ensures SpentWhileValid(s', s'.redemptions[k].code) {
      assert SpentWhileValid(s, s.redemptions[k].code);
    }
  }

  // ---------------------------------------------------------------- redemption

  /** A code that was redeemed before still holds a live claim, so the store cannot call it fresh. */
  lemma FreshMeansUnredeemed(cfg: Config, s: State, code: Code)
    requires StoreInv(cfg, s) && s.now <= code.exp
    requires code.jti in s.codes && s.codes[code.jti].code == code
    requires ClaimStore.Outcome(s.claims, cfg.maxEntries, s.now, SpentCode(code.jti)).Fresh?
    ensures forall k :: 0 <= k < |s.redemptions| ==> s.redemptions[k].code.jti != code.jti
  {
    forall k | 0 <= k < |s.redemptions| ensures s.redemptions[k].code.jti != code.jti {
      assert SpentWhileValid(s, s.redemptions[k].code);
    }
  }

  lemma FreshRedemptionKeepsStore(cfg: Config, s: State, code: Code, claims: map<ClaimId, int>, issued: seq<Redemption>)
    requires cfg.stateStore && StoreInv(cfg, s) && s.now <= code.exp
    requires code.jti in s.codes && s.codes[code.jti].code == code
    requires ClaimStore.Outcome(s.claims, cfg.maxEntries, s.now, SpentCode(code.jti)).Fresh?
    requires claims == ClaimStore.AfterClaim(s.claims, cfg.maxEntries, s.now, SpentCode(code.jti), code.exp - s.now + 60)
    requires |issued| <= 1 && forall k :: 0 <= k < |issued| ==> issued[k].code == code
    ensures StoreInv(cfg, s.(claims := claims, redemptions := s.redemptions + issued))
  {
    FreshMeansUnredeemed(cfg, s, code);
    ClaimStore.ClaimFrame(s.claims, cfg.maxEntries, s.now, SpentCode(code.jti), code.exp - s.now + 60);
    var mid := s.(claims := claims);
    ClaimsEvolve(cfg, s, mid, {SpentCode(code.jti)});
    assert SpentWhileValid(mid, code);
    var s' := mid.(redemptions := s.redemptions + issued);
    forall k | 0 <= k < |s'.redemptions| ensures SpentWhileValid(s', s'.redemptions[k].code) {
      if k < |s.redemptions| {
        assert SpentWhileValid(mid, mid.redemptions[k].code);
      }
    }
    forall sid | sid in s'.loggedOut ensures MarkedWhileReadable(s', sid) {
      assert MarkedWhileReadable(mid, sid);
    }
  }

  lemma TokenKeepsStore(cfg: Config, s: State, code: Code, clientId: string, redirectUri: string, verifier: Option<string>)
    requires cfg.stateStore && StoreInv(cfg, s) && code.jti in s.codes && s.codes[code.jti].code == code
    ensures StoreInv(cfg, AfterExchange(s, Redeem(cfg, s, code, clientId, redirectUri, verifier)))
  {
    var x := Redeem(cfg, s, code, clientId, redirectUri, verifier);
    var s' := AfterExchange(s, x);
    var id := SpentCode(code.jti);
    if !GrantMatches(cfg, s.now, code, clientId, redirectUri, verifier) {
      TimeKeepsStore(cfg, s, s');
    } else if ClaimStore.Outcome(s.claims, cfg.maxEntries, s.now, id).Fresh? {
      FreshRedemptionKeepsStore(cfg, s, code, x.claims, x.issued);
    } else {
      ClaimStore.ClaimFrame(s.claims, cfg.maxEntries, s.now, id, code.exp - s.now + 60);
      assert x.issued == [];
      ClaimsEvolve(cfg, s, s', {});
    }
  }

  // ---------------------------------------------------------------- logout

  ghost predicate MarksKept(s: State, before: map<ClaimId, int>, after: map<ClaimId, int>) {
    && MarkersCarryCap(s, after)
    && (forall k :: k in before && before[k] >= s.now ==> k in after && after[k] == before[k])
    && (forall k :: k in after && !k.RevokedSession? ==> k in before && after[k] == before[k])
  }

  lemma RevokeOneMarks(cfg: Config, s: State, claims: map<ClaimId, int>, session: Session)
    requires MarkersCarryCap(s, claims)
    requires session.sid in s.sidAbs && s.sidAbs[session.sid] == session.abs
    ensures MarksKept(s, claims, RevokeOne(cfg, s.now, claims, session).claims)
    ensures RevokeOne(cfg, s.now, claims, session).Revoked? && session.exp >= s.now && session.abs > s.now ==>
              ClaimStore.Held(RevokeOne(cfg, s.now, claims, session).claims, s.now, RevokedSession(session.sid))
  {
  }

  lemma {:induction false} RevokeEachMarks(cfg: Config, s: State, claims: map<ClaimId, int>, sessions: seq<Session>)
    requires MarkersCarryCap(s, claims)
    requires forall k :: 0 <= k < |sessions| ==> sessions[k].sid in s.sidAbs && s.sidAbs[sessions[k].sid] == sessions[k].abs
    ensures MarksKept(s, claims, RevokeEach(cfg, s.now, claims, sessions).claims)
    ensures RevokeEach(cfg, s.now, claims, sessions).Revoked? ==>
              forall k :: 0 <= k < |sessions| && sessions[k].exp >= s.now && sessions[k].abs > s.now ==>
                RevokedSession(sessions[k].sid) in RevokeEach(cfg, s.now, claims, sessions).claims
    decreases |sessions|
  {
    if sessions != [] {
      RevokeOneMarks(cfg, s, claims, sessions[0]);
      var after := RevokeOne(cfg, s.now, claims, sessions[0]).claims;
      var rest := sessions[1..];
      RevokeEachMarks(cfg, s, after, rest);
      var r := RevokeEach(cfg, s.now, claims, sessions);
      if r.Revoked? {
        forall k | 0 <= k < |sessions| && sessions[k].exp >= s.now && sessions[k].abs > s.now
          ensures RevokedSession(sessions[k].sid) in r.claims
        {
          assert k > 0 ==> rest[k - 1] == sessions[k];
        }
      }
    }
  }

  lemma EndedAreMarked(cfg: Config, s: State, cookies: seq<Session>)
    requires cfg.stateStore && StoreInv(cfg, s)
    requires forall k :: 0 <= k < |cookies| ==> cookies[k].sid in s.sidAbs && s.sidAbs[cookies[k].sid] == cookies[k].abs
    ensures MarksKept(s, s.claims, Logout(cfg, s, cookies).claims)
    ensures forall sid :: sid in Logout(cfg, s, cookies).ended ==>
              sid in s.sidAbs && RevokedSession(sid) in Logout(cfg, s, cookies).claims
  {
    RevokeEachMarks(cfg, s, s.claims, cookies);
  }

  lemma LogoutKeepsStore(cfg: Config, s: State, cookies: seq<Session>)
    requires cfg.stateStore && StoreInv(cfg, s)
    requires forall k :: 0 <= k < |cookies| ==> cookies[k].sid in s.sidAbs && s.sidAbs[cookies[k].sid] == cookies[k].abs
    ensures StoreInv(cfg, AfterLogout(s, Logout(cfg, s, cookies)))
  {
    var s' := AfterLogout(s, Logout(cfg, s, cookies));
    EndedAreMarked(cfg, s, cookies);
    forall sid | sid in s'.loggedOut ensures MarkedWhileReadable(s', sid) {
      if sid in s.loggedOut {
        assert MarkedWhileReadable(s, sid);
      }
    }
    forall k | 0 <= k < |s'.redemptions| ensures SpentWhileValid(s', s'.redemptions[k].code) {
      assert SpentWhileValid(s, s.redemptions[k].code);
    }
  }

  // ---------------------------------------------------------------- every step

  /** Sealing a code or a session touches neither the store nor any earlier cap or code. */
  lemma SealingKeepsStore(cfg: Config, s: State, e: Effect, jti: string)
    requires Inv(cfg, s) && StoreInv(cfg, s) && EffectOk(cfg, s, e)
    requires e.Complete? ==> jti !in s.codes
    ensures StoreInv(cfg, Apply(cfg, s, e, jti))
  {
    TimeKeepsStore(cfg, s, Apply(cfg, s, e, jti));
  }

  lemma ResponseKeepsStore(cfg: Config, s: State, i: Input)
    requires Inv(cfg, s) && StoreInv(cfg, s) && Admissible(s, i) && !Quiet(i)
    ensures StoreInv(cfg, Apply(cfg, Base(s, i), Respond(cfg, s, i), CodeIdOf(i)))
  {
    var base := Base(s, i);
    BaseExtends(s, i);
    InvMono(cfg, s, base);
    TimeKeepsStore(cfg, s, base);
    RespondOk(cfg, s, i);
    CompletionsAreFresh(cfg, s, i);
    SealingKeepsStore(cfg, base, Respond(cfg, s, i), CodeIdOf(i));
  }

  lemma PresentedHaveCaps(cfg: Config, s: State, cookies: seq<Session>)
    requires Inv(cfg, s) && forall k :: 0 <= k < |cookies| ==> cookies[k] in s.sessions
    ensures forall k :: 0 <= k < |cookies| ==> cookies[k].sid in s.sidAbs && s.sidAbs[cookies[k].sid] == cookies[k].abs
  {
    forall k | 0 <= k < |cookies| ensures cookies[k].sid in s.sidAbs && s.sidAbs[cookies[k].sid] == cookies[k].abs {
      assert GoodSession(s, cookies[k], s.sessions[cookies[k]]);
    }
  }

  lemma OtherTrafficKeepsStore(cfg: Config, s: State, id: ClaimId, tag: string, ttl: int)
    requires cfg.stateStore && StoreInv(cfg, s)
    ensures StoreInv(cfg, s.(claims := ClaimStore.AfterHas(s.claims, s.now, id)))
    ensures StoreInv(cfg, s.(claims := ClaimStore.AfterClaim(s.claims, cfg.maxEntries, s.now, OtherClaim(tag), ttl)))
  {
    ClaimStore.HasFrame(s.claims, s.now, id);
    ClaimsEvolve(cfg, s, s.(claims := ClaimStore.AfterHas(s.claims, s.now, id)), {});
    ClaimStore.ClaimFrame(s.claims, cfg.maxEntries, s.now, OtherClaim(tag), ttl);
    ClaimsEvolve(cfg, s, s.(claims := ClaimStore.AfterClaim(s.claims, cfg.maxEntries, s.now, OtherClaim(tag), ttl)), {OtherClaim(tag)});
  }

  lemma ClockAndDirectoryKeepStore(cfg: Config, s: State, n: nat, directory: map<RecordKey, IdentityRecord>)
    requires StoreInv(cfg, s)
    ensures StoreInv(cfg, s.(now := s.now + n)) && StoreInv(cfg, s.(directory := directory))
  {
    TimeKeepsStore(cfg, s, s.(now := s.now + n));
    TimeKeepsStore(cfg, s, s.(directory := directory));
  }

  lemma ExchangeKeepsStore(cfg: Config, s: State, i: Input)
    requires cfg.stateStore && Inv(cfg, s) && StoreInv(cfg, s) && Admissible(s, i) && i.TokenIn?
    ensures StoreInv(cfg, Step(cfg, s, i))
  {
    assert GoodCode(cfg, s, i.code, s.codes[i.code]);
    TokenKeepsStore(cfg, s, s.codes[i.code].code, i.clientId, i.redirectUri, i.verifier);
  }

  lemma SignOutKeepsStore(cfg: Config, s: State, i: Input)
    requires cfg.stateStore && Inv(cfg, s) && StoreInv(cfg, s) && Admissible(s, i) && i.LogoutIn?
    ensures StoreInv(cfg, Step(cfg, s, i))
  {
    PresentedHaveCaps(cfg, s, i.cookies);
    LogoutKeepsStore(cfg, s, i.cookies);
  }

  lemma TrafficKeepsStore(cfg: Config, s: State, i: Input)
    requires cfg.stateStore && StoreInv(cfg, s) && Admissible(s, i) && (i.OtherClaimIn? || i.HasIn?)
    ensures StoreInv(cfg, Step(cfg, s, i))
  {
    if i.HasIn? {
      OtherTrafficKeepsStore(cfg, s, i.id, "", 0);
    } else {
      OtherTrafficKeepsStore(cfg, s, OtherClaim(i.tag), i.tag, i.ttl);
    }
  }

  lemma QuietKeepsStore(cfg: Config, s: State, i: Input)
    requires cfg.stateStore && Inv(cfg, s) && StoreInv(cfg, s) && Admissible(s, i) && Quiet(i)
    ensures StoreInv(cfg, Step(cfg, s, i))
  {
    match i
    case TokenIn(_, _, _, _) => ExchangeKeepsStore(cfg, s, i);
    case LogoutIn(_) => SignOutKeepsStore(cfg, s, i);
    case OtherClaimIn(_, _) => TrafficKeepsStore(cfg, s, i);
    case HasIn(_) => TrafficKeepsStore(cfg, s, i);
    case Tick(n) => ClockAndDirectoryKeepStore(cfg, s, n, s.directory);
    case OperatorIn(directory) => ClockAndDirectoryKeepStore(cfg, s, 0, directory);
  }

  lemma StepKeepsStore(cfg: Config, s: State, i: Input)
    requires cfg.stateStore && Inv(cfg, s) && StoreInv(cfg, s) && Admissible(s, i)
    ensures StoreInv(cfg, Step(cfg, s, i))
  {
    if Quiet(i) {
      QuietKeepsStore(cfg, s, i);
    } else {
      ResponseKeepsStore(cfg, s, i);
    }
  }

  // ---------------------------------------------------------------- redemptions, with or without a store

  /** The exchanged code is one that was minted, and every check of the grant passed when it was exchanged. */
  ghost predicate Genuine(cfg: Config, s: State, r: Redemption) {
    && r.code.jti in s.codes && s.codes[r.code.jti].code == r.code
    && GrantMatches(cfg, r.at, r.code, r.clientId, r.redirectUri, r.verifier)
  }

  ghost predicate RedemptionInv(cfg: Config, s: State) {
    forall k :: 0 <= k < |s.redemptions| ==> Genuine(cfg, s, s.redemptions[k])
  }

  /** Codes are only ever added. */
  lemma CodesPersist(cfg: Config, s: State, i: Input)
    requires Admissible(s, i)
    ensures forall jti :: jti in s.codes ==> jti in Step(cfg, s, i).codes && Step(cfg, s, i).codes[jti] == s.codes[jti]
  {
    if Quiet(i) {
      QuietStep(cfg, s, i);
    } else {
      CompletionsAreFresh(cfg, s, i);
      ApplyAddsCodes(cfg, Base(s, i), Respond(cfg, s, i), CodeIdOf(i));
    }
  }

  lemma ApplyAddsCodes(cfg: Config, s: State, e: Effect, jti: string)
    requires e.Complete? ==> jti !in s.codes
    ensures forall k :: k in s.codes ==> k in Apply(cfg, s, e, jti).codes && Apply(cfg, s, e, jti).codes[k] == s.codes[k]
    ensures Apply(cfg, s, e, jti).redemptions == s.redemptions
  {
  }

  lemma OldRedemptionsStay(cfg: Config, s: State, s': State)
    requires RedemptionInv(cfg, s) && s'.redemptions == s.redemptions
    requires forall jti :: jti in s.codes ==> jti in s'.codes && s'.codes[jti] == s.codes[jti]
    ensures RedemptionInv(cfg, s')
  {
    forall k | 0 <= k < |s'.redemptions| ensures Genuine(cfg, s', s'.redemptions[k]) {
      assert Genuine(cfg, s, s.redemptions[k]);
    }
  }

  lemma ExchangeIsGenuine(cfg: Config, s: State, code: Code, clientId: string, redirectUri: string, verifier: Option<string>)
    requires RedemptionInv(cfg, s) && code.jti in s.codes && s.codes[code.jti].code == code
    ensures RedemptionInv(cfg, AfterExchange(s, Redeem(cfg, s, code, clientId, redirectUri, verifier)))
  {
    var x := Redeem(cfg, s, code, clientId, redirectUri, verifier);
    var s' := AfterExchange(s, x);
    assert |x.issued| <= 1;
    forall k | 0 <= k < |s'.redemptions| ensures Genuine(cfg, s', s'.redemptions[k]) {
      if k < |s.redemptions| {
        assert Genuine(cfg, s, s.redemptions[k]);
      }
    }
  }

  lemma QuietKeepsRedemptions(cfg: Config, s: State, i: Input)
    requires Admissible(s, i) && Quiet(i) && !i.TokenIn?
    ensures Step(cfg, s, i).redemptions == s.redemptions
  {
  }

  lemma StepKeepsRedemptions(cfg: Config, s: State, i: Input)
    requires Inv(cfg, s) && RedemptionInv(cfg, s) && Admissible(s, i)
    ensures RedemptionInv(cfg, Step(cfg, s, i))
  {
    if i.TokenIn? {
      assert GoodCode(cfg, s, i.code, s.codes[i.code]);
      ExchangeIsGenuine(cfg, s, s.codes[i.code].code, i.clientId, i.redirectUri, i.verifier);
    } else {
      CodesPersist(cfg, s, i);
      if Quiet(i) {
        QuietKeepsRedemptions(cfg, s, i);
      } else {
        CompletionsAreFresh(cfg, s, i);
        ApplyAddsCodes(cfg, Base(s, i), Respond(cfg, s, i), CodeIdOf(i));
      }
      OldRedemptionsStay(cfg, s, Step(cfg, s, i));
    }
  }
}

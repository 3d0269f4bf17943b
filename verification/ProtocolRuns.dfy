/** Continuing a run with anything at all, and what survives whatever is put in between. */
module ProtocolRuns {
  import opened Basics
  import opened Session
  import opened Transaction
  import opened Protocol
  import opened ProtocolInvariant
  import opened ProtocolStore
  import ClaimStore

  /** One input; something that was never sealed, or an identifier that is not new, cannot be presented. */
  function Take(cfg: Config, s: State, i: Input): State {
    if Admissible(s, i) then Step(cfg, s, i) else s
  }

  function After(cfg: Config, s: State, others: seq<Input>): State {
    if others == [] then s else Take(cfg, After(cfg, s, others[..|others| - 1]), others[|others| - 1])
  }

  ghost predicate Reachable(cfg: Config, s: State) {
    exists first, before :: Init(first) && s == After(cfg, first, before)
  }

  // ---------------------------------------------------------------- where claims come from

  /** Codes are claimed only once minted, sessions revoked only once sealed. */
  ghost predicate ClaimsKnown(s: State) {
    && (forall jti :: SpentCode(jti) in s.claims ==> jti in s.codes)
    && (forall sid :: RevokedSession(sid) in s.claims ==> sid in s.sidAbs)
  }

  ghost predicate ClaimsOf(claims: map<ClaimId, int>, sessions: seq<Session>, id: ClaimId) {
    id in claims || exists k :: 0 <= k < |sessions| && id == RevokedSession(sessions[k].sid)
  }

  lemma {:induction false} RevokedOnly(cfg: Config, now: int, claims: map<ClaimId, int>, sessions: seq<Session>, id: ClaimId)
    requires id in RevokeEach(cfg, now, claims, sessions).claims
    ensures ClaimsOf(claims, sessions, id)
    decreases |sessions|
  {
    if sessions != [] {
      var one := RevokeOne(cfg, now, claims, sessions[0]);
      if one.Revoked? {
        RevokedOnly(cfg, now, one.claims, sessions[1..], id);
        if id !in one.claims {
          var k :| 0 <= k < |sessions[1..]| && id == RevokedSession(sessions[1..][k].sid);
          assert sessions[k + 1] == sessions[1..][k];
        }
      }
    }
  }

  /** What a step may add to the store. */
  ghost predicate MayAdd(s: State, i: Input, id: ClaimId)
    requires Admissible(s, i)
  {
    match i
    case TokenIn(jti, _, _, _) => id == SpentCode(s.codes[jti].code.jti)
    case LogoutIn(cookies) => exists k :: 0 <= k < |cookies| && id == RevokedSession(cookies[k].sid)
    case OtherClaimIn(tag, _) => id == OtherClaim(tag)
    case _ => false
  }

  lemma LogoutAdds(cfg: Config, s: State, cookies: seq<Session>, id: ClaimId)
    requires id in Logout(cfg, s, cookies).claims
    ensures ClaimsOf(s.claims, cookies, id)
  {
    if cfg.stateStore {
      RevokedOnly(cfg, s.now, s.claims, cookies, id);
    }
  }

  lemma StepAdds(cfg: Config, s: State, i: Input, id: ClaimId)
    requires Admissible(s, i) && id in Step(cfg, s, i).claims
    ensures id in s.claims || MayAdd(s, i, id)
  {
    if i.LogoutIn? {
      LogoutAdds(cfg, s, i.cookies, id);
    } else if !Quiet(i) {
      ApplyAddsNoClaims(cfg, Base(s, i), Respond(cfg, s, i), CodeIdOf(i));
    }
  }

  lemma ApplyAddsNoClaims(cfg: Config, s: State, e: Effect, jti: string)
    ensures Apply(cfg, s, e, jti).claims == s.claims
  {
  }

  // ---------------------------------------------------------------- what only grows

  ghost predicate Grows(s: State, s': State) {
    && s.now <= s'.now && s.txs <= s'.txs && s.legs <= s'.legs
    && s.sessions.Keys <= s'.sessions.Keys && s.sidAbs.Keys <= s'.sidAbs.Keys
    && (forall jti :: jti in s.codes ==> jti in s'.codes && s'.codes[jti] == s.codes[jti])
  }

  lemma ApplyGrows(cfg: Config, s: State, e: Effect, jti: string)
    requires e.Complete? ==> jti !in s.codes
    ensures Grows(s, Apply(cfg, s, e, jti))
  {
  }

  lemma StepGrows(cfg: Config, s: State, i: Input)
    requires Admissible(s, i)
    ensures Grows(s, Step(cfg, s, i))
  {
    if Quiet(i) {
      QuietStep(cfg, s, i);
    } else {
      CompletionsAreFresh(cfg, s, i);
      ApplyGrows(cfg, Base(s, i), Respond(cfg, s, i), CodeIdOf(i));
    }
  }

  lemma {:induction false} AfterGrows(cfg: Config, s: State, others: seq<Input>)
    ensures Grows(s, After(cfg, s, others))
  {
    if others != [] {
      var most := others[..|others| - 1];
      AfterGrows(cfg, s, most);
      if Admissible(After(cfg, s, most), others[|others| - 1]) {
        StepGrows(cfg, After(cfg, s, most), others[|others| - 1]);
      }
    }
  }

  // ---------------------------------------------------------------- reachable states

  ghost predicate Facts(cfg: Config, s: State) {
    Inv(cfg, s) && ClaimsKnown(s)
  }

  lemma StepKeepsClaimsKnown(cfg: Config, s: State, i: Input)
    requires Inv(cfg, s) && ClaimsKnown(s) && Admissible(s, i)
    ensures ClaimsKnown(Step(cfg, s, i))
  {
    var s' := Step(cfg, s, i);
    StepGrows(cfg, s, i);
    forall jti | SpentCode(jti) in s'.claims ensures jti in s'.codes {
      StepAdds(cfg, s, i, SpentCode(jti));
      if i.TokenIn? {
        assert GoodCode(cfg, s, i.code, s.codes[i.code]);
      }
    }
    forall sid | RevokedSession(sid) in s'.claims ensures sid in s'.sidAbs {
      StepAdds(cfg, s, i, RevokedSession(sid));
      if i.LogoutIn? && RevokedSession(sid) !in s.claims {
        var k :| 0 <= k < |i.cookies| && RevokedSession(sid) == RevokedSession(i.cookies[k].sid);
        assert GoodSession(s, i.cookies[k], s.sessions[i.cookies[k]]);
      }
    }
  }

  lemma TakeKeepsFacts(cfg: Config, s: State, i: Input)
    requires Facts(cfg, s)
    ensures Facts(cfg, Take(cfg, s, i))
  {
    if Admissible(s, i) {
      StepKeepsInv(cfg, s, i);
      StepKeepsClaimsKnown(cfg, s, i);
    }
  }

  lemma {:induction false} AfterKeepsFacts(cfg: Config, s: State, others: seq<Input>)
    requires Facts(cfg, s)
    ensures Facts(cfg, After(cfg, s, others))
  {
    if others != [] {
      AfterKeepsFacts(cfg, s, others[..|others| - 1]);
      TakeKeepsFacts(cfg, After(cfg, s, others[..|others| - 1]), others[|others| - 1]);
    }
  }

  lemma ReachableFacts(cfg: Config, s: State)
    requires Reachable(cfg, s)
    ensures Facts(cfg, s)
  {
    var first, before :| Init(first) && s == After(cfg, first, before);
    AfterKeepsFacts(cfg, first, before);
  }

  // ---------------------------------------------------------------- what stays out of the store

  ghost predicate NotPresented(others: seq<Input>, jti: string) {
    forall k :: 0 <= k < |others| ==> !(others[k].TokenIn? && others[k].code == jti)
  }

  ghost predicate Names(cookies: seq<Session>, sid: string) {
    exists k :: 0 <= k < |cookies| && cookies[k].sid == sid
  }

  /** Nobody signs this session out. */
  ghost predicate NotSignedOut(others: seq<Input>, sid: string) {
    forall k :: 0 <= k < |others| ==> !(others[k].LogoutIn? && Names(others[k].cookies, sid))
  }

  lemma SpentByPresenting(cfg: Config, s: State, i: Input, jti: string)
    requires Facts(cfg, s) && SpentCode(jti) !in s.claims && SpentCode(jti) in Take(cfg, s, i).claims
    ensures i.TokenIn? && i.code == jti
  {
    StepAdds(cfg, s, i, SpentCode(jti));
    assert GoodCode(cfg, s, i.code, s.codes[i.code]);
  }

  lemma MarkedBySigningOut(cfg: Config, s: State, i: Input, sid: string)
    requires RevokedSession(sid) !in s.claims && RevokedSession(sid) in Take(cfg, s, i).claims
    ensures i.LogoutIn? && Names(i.cookies, sid)
  {
    StepAdds(cfg, s, i, RevokedSession(sid));
    var k :| 0 <= k < |i.cookies| && RevokedSession(sid) == RevokedSession(i.cookies[k].sid);
  }

  lemma {:induction false} UnpresentedIsUnspent(cfg: Config, s: State, others: seq<Input>, jti: string)
    requires Facts(cfg, s) && SpentCode(jti) !in s.claims && NotPresented(others, jti)
    ensures SpentCode(jti) !in After(cfg, s, others).claims
  {
    if others != [] {
      var most, i := others[..|others| - 1], others[|others| - 1];
      UnpresentedIsUnspent(cfg, s, most, jti);
      AfterKeepsFacts(cfg, s, most);
      if SpentCode(jti) in Take(cfg, After(cfg, s, most), i).claims {
        SpentByPresenting(cfg, After(cfg, s, most), i, jti);
      }
    }
  }

  lemma {:induction false} UnsignedOutIsUnmarked(cfg: Config, s: State, others: seq<Input>, sid: string)
    requires RevokedSession(sid) !in s.claims && NotSignedOut(others, sid)
    ensures RevokedSession(sid) !in After(cfg, s, others).claims
  {
    if others != [] {
      var most, i := others[..|others| - 1], others[|others| - 1];
      UnsignedOutIsUnmarked(cfg, s, most, sid);
      if RevokedSession(sid) in Take(cfg, After(cfg, s, most), i).claims {
        MarkedBySigningOut(cfg, After(cfg, s, most), i, sid);
      }
    }
  }
}

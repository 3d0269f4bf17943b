/** Exactly which deployments can mint a code that misses its acr demand: those with a guessable decoy. */
module ProtocolDecoys {
  import opened Basics
  import opened Acr
  import opened Session
  import opened Transaction
  import opened Identity
  import opened Protocol
  import opened ProtocolInvariant
  import opened ProtocolSafety

  ghost predicate MeetsDemand(s: State, jti: string)
    requires jti in s.codes
  {
    s.codes[jti].txId in s.requests && Satisfies(s.codes[jti].code.acr, s.requests[s.codes[jti].txId].request.acrValues)
  }

  /** Whoever guesses what, in every run every code meets the demand of its own request. */
  ghost predicate AlwaysMeetsDemands(cfg: Config) {
    forall run: seq<State>, inputs: seq<Input>, k: int, jti: string ::
      IsRun(cfg, run, inputs) && 0 <= k < |run| && jti in run[k].codes ==> MeetsDemand(run[k], jti)
  }

  // ---------------------------------------------------------------- a guessed decoy

  /** A request that only a provider could satisfy. */
  const Demanding := Request("client", "https://rp.example/cb", None, None, [], "query", None, [FEDERATED], [], None, None, None, [])

  const Quietly := RouteEnv(None, false, false, "", SendEnv(true, "CODE", false))

  function Beginning(): State {
    State(0, {}, {}, map[], map[], map[], map[], map[], {}, {}, {}, map[], {}, [])
  }

  function FirstTx(cfg: Config): Tx {
    NewTransaction(0, cfg.transactionTtl, "tx", Demanding)
  }

  function DecoyTx(cfg: Config, email: string): Tx {
    WithOtp(FirstTx(cfg).(rememberMe := Some(false)).(email := Some(email)), 0, Some(Digest("tx", email, "CODE")), cfg.otpTtl, 0)
  }

  function Inputs(cfg: Config, typed: string, email: string): seq<Input> {
    [AuthorizeIn(Demanding, "tx", None, "unused"),
     EmailIn(FirstTx(cfg), typed, false, false, Quietly),
     OtpIn(DecoyTx(cfg, email), "CODE", None, None, "sid", "guessed")]
  }

  lemma DemandRulesCodesOut()
    ensures RequiresFederation([FEDERATED]) && !Satisfies(OTP, [FEDERATED])
  {
    OtpSatisfiesIff([FEDERATED]);
    RequiresFederationIffOtpFails([FEDERATED]);
  }

  lemma RequestOpens(cfg: Config, s: State)
    requires s == Beginning()
    ensures Admissible(s, Inputs(cfg, "", "")[0])
    ensures var s1 := Step(cfg, s, AuthorizeIn(Demanding, "tx", None, "unused"));
            s1 == s.(requests := map["tx" := Asked(Demanding, 0)], txs := {FirstTx(cfg)})
  {
    var i := AuthorizeIn(Demanding, "tx", None, "unused");
    assert Respond(cfg, s, i) == Page(FirstTx(cfg));
    assert s.requests["tx" := Asked(Demanding, 0)] == map["tx" := Asked(Demanding, 0)];
  }

  lemma DecoyIsShown(cfg: Config, s: State, typed: string, email: string)
    requires DecoyPossible(cfg, Some(email)) && cfg.addressOf(typed) == Some(email) && s.now == 0 && FirstTx(cfg) in s.txs
    ensures var s2 := Step(cfg, s, EmailIn(FirstTx(cfg), typed, false, false, Quietly));
            s2 == s.(txs := s.txs + {DecoyTx(cfg, email)}, generated := s.generated + {Digest("tx", email, "CODE")})
  {
    DemandRulesCodesOut();
    var ready := FirstTx(cfg).(rememberMe := Some(false)).(email := Some(email));
    assert Route(cfg, s, ready, Quietly) == SendOtp(cfg, s, ready, false, Quietly.send);
    assert SendOtp(cfg, s, ready, false, Quietly.send) == SendCode(DecoyTx(cfg, email), Digest("tx", email, "CODE"), false);
  }

  lemma GuessCompletes(cfg: Config, s: State, email: string)
    requires cfg.otpMaxAttempts > 0 && s.now == 0
    ensures var e := OtpSubmit(cfg, s, DecoyTx(cfg, email), "CODE", None, None, "sid");
            e.Complete? && e.tx == DecoyTx(cfg, email) && e.session.acr == OTP
  {
    assert CodeAccepted(cfg, s, DecoyTx(cfg, email), "CODE");
  }

  lemma GuessIsTaken(cfg: Config, s: State, email: string)
    requires cfg.otpMaxAttempts > 0 && s.now == 0 && DecoyTx(cfg, email) in s.txs
    requires s.sidAbs == map[] && s.codes == map[] && "tx" in s.requests && s.requests["tx"].request == Demanding
    ensures var s3 := Step(cfg, s, OtpIn(DecoyTx(cfg, email), "CODE", None, None, "sid", "guessed"));
            "guessed" in s3.codes && !MeetsDemand(s3, "guessed")
  {
    GuessCompletes(cfg, s, email);
    DemandRulesCodesOut();
  }

  /** In a deployment with a guessable decoy, one lucky guess mints a code that does not meet its request. */
  lemma GuessedDecoyMissesItsDemand(cfg: Config, typed: string, email: string) returns (run: seq<State>)
    requires GuessableDecoy(cfg, Some(email)) && cfg.addressOf(typed) == Some(email)
    ensures IsRun(cfg, run, Inputs(cfg, typed, email)) && "guessed" in run[3].codes && !MeetsDemand(run[3], "guessed")
  {
    var inputs := Inputs(cfg, typed, email);
    var s0 := Beginning();
    RequestOpens(cfg, s0);
    var s1 := Step(cfg, s0, inputs[0]);
    DecoyIsShown(cfg, s1, typed, email);
    var s2 := Step(cfg, s1, inputs[1]);
    GuessIsTaken(cfg, s2, email);
    var s3 := Step(cfg, s2, inputs[2]);
    run := [s0, s1, s2, s3];
    forall k {:trigger inputs[k]} | 0 <= k < |inputs|
      ensures Admissible(run[k], inputs[k]) && run[k + 1] == Step(cfg, run[k], inputs[k])
    {
      assert k == 0 || k == 1 || k == 2;
    }
  }

  // ---------------------------------------------------------------- the exact condition

  lemma DemandsMetWithoutDecoys(cfg: Config, run: seq<State>, inputs: seq<Input>, k: nat, jti: string)
    requires forall email: string :: !GuessableDecoy(cfg, Some(email))
    requires IsRun(cfg, run, inputs) && k < |run| && jti in run[k].codes
    ensures MeetsDemand(run[k], jti)
  {
    CodesMeetTheirDemand(cfg, run, inputs, k, jti);
  }

  /**
   * Over all runs, whatever is guessed: every code meets its demand if and only if no address is
   * shown a decoy.  A deployment can read the condition off its configuration.
   */
  lemma DemandsAlwaysMetIff(cfg: Config)
    ensures AlwaysMeetsDemands(cfg) <==> forall email: string :: !GuessableDecoy(cfg, Some(email))
  {
    if forall email: string :: !GuessableDecoy(cfg, Some(email)) {
      forall run: seq<State>, inputs: seq<Input>, k: int, jti: string | IsRun(cfg, run, inputs) && 0 <= k < |run| && jti in run[k].codes
        ensures MeetsDemand(run[k], jti)
      {
        DemandsMetWithoutDecoys(cfg, run, inputs, k, jti);
      }
    } else {
      var email: string :| GuessableDecoy(cfg, Some(email));
      var typed :| cfg.addressOf(typed) == Some(email);
      var run := GuessedDecoyMissesItsDemand(cfg, typed, email);
    }
  }

  /** Nothing serves this address, and the deployment does not say so. */
  predicate Unserved(cfg: Config, email: string) {
    !LocalAllowed(cfg, Some(email)) && Candidates(cfg, Some(email)) == [] && !OtpAllowed(cfg, Some(email))
  }

  /**
   * With the form of the gateway itself: either decoys are never shown or never take a code, or every
   * address in normal form, with one @ and a domain of two labels or more, is served somehow.
   */
  lemma DemandsAlwaysMetForAddressesIff(cfg: Config)
    requires forall typed :: cfg.addressOf(typed) == ReadAddress(typed)
    ensures AlwaysMeetsDemands(cfg) <==>
              || !cfg.otpEnabled || cfg.explainUnknown || cfg.otpMaxAttempts == 0
              || forall email :: Address(email) ==> !Unserved(cfg, email)
  {
    DemandsAlwaysMetIff(cfg);
    forall email: string
      ensures GuessableDecoy(cfg, Some(email)) <==>
                cfg.otpEnabled && !cfg.explainUnknown && cfg.otpMaxAttempts > 0 && Address(email) && Unserved(cfg, email)
    {
      OfferedIff(cfg, email);
    }
  }

  lemma OfferedIff(cfg: Config, email: string)
    requires forall typed :: cfg.addressOf(typed) == ReadAddress(typed)
    ensures (exists typed :: cfg.addressOf(typed) == Some(email)) <==> Address(email)
  {
    AddressIff(email);
    if Address(email) {
      var typed :| ReadAddress(typed) == Some(email);
      assert cfg.addressOf(typed) == Some(email);
    }
    forall typed | cfg.addressOf(typed) == Some(email) ensures Address(email) {
      assert ReadAddress(typed) == Some(email);
    }
  }

  /** In particular, explaining unknown addresses or switching email codes off is enough. */
  lemma ExplainingIsEnough(cfg: Config)
    requires cfg.explainUnknown || !cfg.otpEnabled
    ensures AlwaysMeetsDemands(cfg)
  {
    DemandsAlwaysMetIff(cfg);
  }
}

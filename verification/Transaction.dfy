/** The in-flight authorisation request the browser carries between screens. */
module Transaction {
  import opened Basics

  datatype Stage = Email | Choose | Otp | LocalPassword | LocalMfa | Continue

  datatype Prompt = PromptNone | PromptLogin | PromptConsent | PromptSelectAccount

  /** A validated authorisation request. */
  datatype Request = Request(
    clientId: string,
    redirectUri: string,
    state: Option<string>,
    nonce: Option<string>,
    scope: seq<string>,
    responseMode: string,
    codeChallenge: Option<string>,
    acrValues: seq<string>,
    prompt: seq<Prompt>,
    maxAge: Option<nat>,
    loginHint: Option<string>,
    idTokenAlg: Option<string>,
    resource: seq<string>)

  /**
   * The keyed digest of a one-time code.  The source hashes the three parts joined by " | ";
   * OtpDigestInput.JoinIsInjective shows that the joined text determines them.
   */
  datatype Digest = Digest(txId: string, email: string, code: string)

  datatype OtpState = OtpState(digest: Option<Digest>, exp: int, attempts: nat, resends: nat, iat: int)

  datatype LocalRef = LocalRef(id: string, version: int)

  datatype Tx = Tx(
    id: string,
    stage: Stage,
    clientId: string,
    redirectUri: string,
    state: Option<string>,
    nonce: Option<string>,
    scope: seq<string>,
    responseMode: string,
    codeChallenge: Option<string>,
    acrValues: seq<string>,
    prompt: seq<Prompt>,
    maxAge: Option<nat>,
    loginHint: Option<string>,
    idTokenAlg: Option<string>,
    resource: seq<string>,
    iat: int,
    exp: int,
    rememberMe: Option<bool>,
    email: Option<string>,
    otp: Option<OtpState>,
    localIdentity: Option<LocalRef>)

  function NewTransaction(now: int, ttl: nat, id: string, req: Request): Tx {
    Tx(id, Stage.Email, req.clientId, req.redirectUri, req.state, req.nonce, req.scope,
       req.responseMode, req.codeChallenge, req.acrValues, req.prompt, req.maxAge, req.loginHint,
       req.idTokenAlg, req.resource, now, now + ttl, None, None, None, None)
  }

  function WithOtp(tx: Tx, now: int, digest: Option<Digest>, expiresAt: int, resends: nat): Tx {
    tx.(stage := Otp, otp := Some(OtpState(digest, expiresAt, 0, resends, now)))
  }

  function WithOtpAttempt(tx: Tx): Tx
    requires tx.otp.Some?
  {
    tx.(otp := Some(tx.otp.value.(attempts := tx.otp.value.attempts + 1)))
  }

  /** Discard the attempt and the address: "use a different email address". */
  function WithoutOtp(tx: Tx): Tx {
    tx.(otp := None, email := None, localIdentity := None, stage := Stage.Email)
  }

  /** Discard the attempt but keep the address; the stage is left for the caller to set. */
  function WithoutAttempt(tx: Tx): Tx {
    tx.(otp := None, localIdentity := None)
  }

  /** The request a transaction still stands for. */
  function RequestOf(tx: Tx): Request {
    Request(tx.clientId, tx.redirectUri, tx.state, tx.nonce, tx.scope, tx.responseMode,
            tx.codeChallenge, tx.acrValues, tx.prompt, tx.maxAge, tx.loginHint, tx.idTokenAlg, tx.resource)
  }

  predicate Expired(tx: Tx, now: int) {
    tx.exp < now
  }
}

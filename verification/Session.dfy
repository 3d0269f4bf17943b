/** The sealed sign-in session: two lifetimes, re-authentication, and freshness. */
module Session {
  import opened Basics

  /**
   * The record key of a local identity.  The source keys records by an HMAC of the canonical
   * address; an ideal keyed digest is injective, which a datatype constructor states exactly.
   */
  datatype RecordKey = RecordKey(email: string)

  type Claims = map<string, string>

  datatype Lifetimes = Lifetimes(idleTtl: nat, maxLifetime: nat)

  /** What one completed authentication hands to the session. */
  datatype SessionArgs = SessionArgs(
    email: string,
    emailVerified: bool,
    acr: string,
    upstream: Option<string>,
    claims: Option<Claims>,
    localId: Option<string>,
    localKey: Option<RecordKey>,
    localVersion: Option<int>)

  datatype Session = Session(
    sid: string,
    email: string,
    emailVerified: bool,
    acr: string,
    authTime: int,
    upstream: Option<string>,
    claims: Option<Claims>,
    localId: Option<string>,
    localKey: Option<RecordKey>,
    localVersion: Option<int>,
    iat: int,
    exp: int,
    abs: int)

  function NewSession(life: Lifetimes, now: int, sid: string, args: SessionArgs): Session {
    Session(sid, args.email, args.emailVerified, args.acr, now, args.upstream, args.claims,
            args.localId, args.localKey, args.localVersion,
            now, now + life.idleTtl, now + life.maxLifetime)
  }

  /** The identifier, issue time and absolute cap survive; every authentication field is replaced. */
  function Reauthenticate(life: Lifetimes, now: int, session: Session, args: SessionArgs): Session {
    session.(email := args.email,
             emailVerified := args.emailVerified,
             acr := args.acr,
             authTime := now,
             upstream := args.upstream,
             claims := args.claims,
             localId := args.localId,
             localKey := args.localKey,
             localVersion := args.localVersion,
             exp := now + life.idleTtl)
  }

  /** Push the idle timeout forward, never past the absolute cap. */
  function Touch(life: Lifetimes, now: int, session: Session): Session {
    session.(exp := Min(now + life.idleTtl, session.abs))
  }

  predicate IsFresh(session: Session, now: int, maxAge: Option<nat>, clockSkew: nat) {
    && !(session.exp + clockSkew < now)
    && !(session.abs < now)
    && (maxAge.Some? ==> !(session.authTime + maxAge.value < now))
  }
}

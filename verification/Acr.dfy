/** Authentication context classes: what an authentication is worth and which demands it meets. */
module Acr {

  const OTP := "urn:sag:acr:email-otp"
  const LOCAL_PASSWORD := "urn:sag:acr:local-password"
  const LOCAL_MFA := "urn:sag:acr:local-mfa"
  const FEDERATED := "urn:sag:acr:federated"
  const FEDERATED_MFA := "urn:sag:acr:federated-mfa"
  const MFA := "urn:sag:acr:mfa"

  /** Position in the ordered chain OTP, FEDERATED, FEDERATED_MFA; zero for every other name. */
  function StrengthOf(acr: string): nat {
    if acr == OTP then 1
    else if acr == FEDERATED then 2
    else if acr == FEDERATED_MFA then 3
    else 0
  }

  /** Does a held context meet one requested value? */
  predicate Meets(held: string, want: string) {
    if want == MFA then held == LOCAL_MFA || held == FEDERATED_MFA
    else if want == held then true
    else if held == LOCAL_PASSWORD || held == LOCAL_MFA || want == LOCAL_PASSWORD || want == LOCAL_MFA then
      held == LOCAL_MFA && want == LOCAL_PASSWORD
    else StrengthOf(want) > 0 && StrengthOf(held) >= StrengthOf(want)
  }

  /** The requested values are alternatives; an empty request is always met. */
  predicate Satisfies(held: string, requested: seq<string>) {
    |requested| == 0 || exists want :: want in requested && Meets(held, want)
  }

  /** The result of `Math.min` over a possibly empty list of strengths. */
  datatype Bound = Finite(n: nat) | Infinite

  /** The strengths of the recognised requested values, the bare MFA demand counted as FEDERATED_MFA. */
  function KnownStrengths(requested: seq<string>): seq<nat> {
    if requested == [] then []
    else
      var s := StrengthOf(if requested[0] == MFA then FEDERATED_MFA else requested[0]);
      (if s > 0 then [s] else []) + KnownStrengths(requested[1..])
  }

  function Least(known: seq<nat>): Bound {
    if known == [] then Infinite
    else match Least(known[1..])
      case Infinite => Finite(known[0])
      case Finite(n) => Finite(if known[0] <= n then known[0] else n)
  }

  /** The weakest method that could meet the request. */
  function MinimumStrengthRequired(requested: seq<string>): Bound {
    if |requested| == 0 then Finite(0) else Least(KnownStrengths(requested))
  }

  predicate RequiresFederation(requested: seq<string>) {
    match MinimumStrengthRequired(requested)
    case Infinite => true
    case Finite(n) => n > StrengthOf(OTP)
  }

  function AcrForLocal(secondFactor: bool): string {
    if secondFactor then LOCAL_MFA else LOCAL_PASSWORD
  }

  function AcrFromUpstream(mfa: bool): string {
    if mfa then FEDERATED_MFA else FEDERATED
  }

  lemma {:induction false} LeastOfKnown(requested: seq<string>)
    ensures Least(KnownStrengths(requested)) == Finite(1) <==> OTP in requested
    ensures Least(KnownStrengths(requested)) != Finite(0)
  {
    if requested != [] {
      LeastOfKnown(requested[1..]);
      var s := StrengthOf(if requested[0] == MFA then FEDERATED_MFA else requested[0]);
      var rest := KnownStrengths(requested[1..]);
      assert ([s] + rest)[1..] == rest;
      assert [] + rest == rest;
    }
  }

  /** An email code meets a request exactly when the request is empty or names it. */
  lemma OtpSatisfiesIff(requested: seq<string>)
    ensures Satisfies(OTP, requested) <==> requested == [] || OTP in requested
  {
    if OTP in requested {
      assert Meets(OTP, OTP);
    }
  }

  /** Routing and acceptance agree: OTP is ruled out by the router exactly when it would be refused at the end. */
  lemma RequiresFederationIffOtpFails(requested: seq<string>)
    ensures RequiresFederation(requested) <==> !Satisfies(OTP, requested)
  {
    LeastOfKnown(requested);
    OtpSatisfiesIff(requested);
  }
}

/** Which update a second-factor attempt asks for, given the record it was handed. */
module SecondFactor {
  import opened Basics
  import opened UpperCase
  import opened LocalRecords
  import T = Totp

  /** The foreign calls: Argon2id verification, and the one-time codes of a seed. */
  datatype Verifier = Verifier(argon: (string, string) -> bool, codes: (string, string, int) -> T.Generator, skew: int)

  function BeforeHyphen(s: string): string {
    if s == "" || s[0] == '-' then "" else [s[0]] + BeforeHyphen(s[1..])
  }

  function FindBackup(bs: seq<Backup>, id: string): (r: Option<Backup>)
    ensures r.Some? ==> r.value in bs && r.value.id == id
    ensures r.None? ==> forall b :: b in bs ==> b.id != id
  {
    if bs == [] then None else if bs[0].id == id then Some(bs[0]) else FindBackup(bs[1..], id)
  }

  function TotpVerdict(v: Verifier, t: Totp, code: string, now: int): T.Outcome {
    T.Verdict(v.codes(t.secret, t.algorithm, t.digits), code, now, t.digits, t.period, v.skew, t.lastUsedStep)
  }

  ghost predicate Settles(v: Verifier, ts: seq<Totp>, code: string, now: int, id: string, step: int) {
    exists i :: 0 <= i < |ts| && ts[i].id == id && TotpVerdict(v, ts[i], code, now) == T.Settled(Some(step))
  }

  /** The first authenticator that settles on a step decides; a thrown error ends the search. */
  function FirstTotp(v: Verifier, ts: seq<Totp>, code: string, now: int): (r: Option<Update>)
    ensures r.Some? ==> r.value.MarkStep? && Settles(v, ts, code, now, r.value.totpId, r.value.step)
  {
    if ts == [] then None
    else
      match TotpVerdict(v, ts[0], code, now)
      case Thrown => None
      case Settled(Some(step)) => Some(MarkStep(ts[0].id, step))
      case Settled(None) =>
        var rest := FirstTotp(v, ts[1..], code, now);
        assert rest.Some? ==> forall i :: 0 <= i < |ts[1..]| ==> ts[1..][i] == ts[i + 1];
        rest
  }

  /** A code whose selector names a recovery code is only ever tried as that recovery code. */
  function Choose(v: Verifier, r: Record, code: string, now: int): Option<Update> {
    var normalised := T.WithoutSpaces(Upper(code));
    var id := BeforeHyphen(normalised);
    var backup := if SafeId(id) then FindBackup(r.backups, id) else None;
    if backup.Some? then
      if v.argon(backup.value.hash, normalised) then Some(SpendBackup(backup.value.id)) else None
    else FirstTotp(v, r.totp, code, now)
  }

  ghost predicate HasBackup(r: Record, id: string) {
    exists i :: 0 <= i < |r.backups| && r.backups[i].id == id
  }

  /** The authenticator exists and the step is above its marker. */
  ghost predicate Unspent(r: Record, id: string, step: int) {
    exists i :: 0 <= i < |r.totp| && r.totp[i].id == id
                && (r.totp[i].lastUsedStep.Some? ==> step > r.totp[i].lastUsedStep.value)
  }

  /** An update that the record it was computed from justifies. */
  ghost predicate Justified(r: Record, u: Update) {
    match u
    case SpendBackup(id) => HasBackup(r, id)
    case MarkStep(id, step) => 0 <= step <= MAX_SAFE && Unspent(r, id, step)
    case RetainToken(_, _) => true
  }

  /** Only factors the record holds, and only steps above the marker, are ever chosen. */
  lemma ChoiceIsJustified(v: Verifier, r: Record, code: string, now: int)
    requires Choose(v, r, code, now).Some?
    ensures Justified(r, Choose(v, r, code, now).value) && !Choose(v, r, code, now).value.RetainToken?
  {
    var u := Choose(v, r, code, now).value;
    if u.MarkStep? {
      var i :| 0 <= i < |r.totp| && r.totp[i].id == u.totpId
               && TotpVerdict(v, r.totp[i], code, now) == T.Settled(Some(u.step));
      var t := r.totp[i];
      T.AcceptedStep(v.codes(t.secret, t.algorithm, t.digits), code, now, t.digits, t.period, v.skew, t.lastUsedStep);
    }
  }

  /**
   * A code is never tried as something else once it names a stored recovery code, and a recovery
   * code is spent only after its own verifier accepted the whole normalised code.
   */
  lemma RecoveryNeedsItsVerifier(v: Verifier, r: Record, code: string, now: int)
    requires SafeId(BeforeHyphen(T.WithoutSpaces(Upper(code))))
    requires HasBackup(r, BeforeHyphen(T.WithoutSpaces(Upper(code))))
    ensures var normalised := T.WithoutSpaces(Upper(code));
            exists i :: 0 <= i < |r.backups| && r.backups[i].id == BeforeHyphen(normalised)
              && Choose(v, r, code, now)
                 == (if v.argon(r.backups[i].hash, normalised) then Some(SpendBackup(r.backups[i].id)) else None)
  {
    var id := BeforeHyphen(T.WithoutSpaces(Upper(code)));
    var i :| 0 <= i < |r.backups| && r.backups[i].id == id;
    var b := FindBackup(r.backups, id);
    assert r.backups[i] in r.backups;
    var j :| 0 <= j < |r.backups| && r.backups[j] == b.value;
  }

  /** The authenticator at this place is the first to settle on a step. */
  ghost predicate FirstToSettle(v: Verifier, ts: seq<Totp>, code: string, now: int, i: int, step: int) {
    && 0 <= i < |ts| && TotpVerdict(v, ts[i], code, now) == T.Settled(Some(step))
    && forall j :: 0 <= j < i ==> TotpVerdict(v, ts[j], code, now) == T.Settled(None)
  }

  lemma {:induction false} SettlingIsTaken(v: Verifier, ts: seq<Totp>, code: string, now: int, i: int, step: int)
    requires FirstToSettle(v, ts, code, now, i, step)
    ensures FirstTotp(v, ts, code, now) == Some(MarkStep(ts[i].id, step))
  {
    if i > 0 {
      var rest := ts[1..];
      assert rest[i - 1] == ts[i] && forall j :: 0 <= j < i - 1 ==> rest[j] == ts[j + 1];
      assert TotpVerdict(v, ts[0], code, now) == T.Settled(None);
      SettlingIsTaken(v, rest, code, now, i - 1, step);
    }
  }

  lemma {:induction false} TakenIsFirst(v: Verifier, ts: seq<Totp>, code: string, now: int) returns (i: int)
    requires FirstTotp(v, ts, code, now).Some?
    ensures FirstToSettle(v, ts, code, now, i, FirstTotp(v, ts, code, now).value.step)
    ensures ts[i].id == FirstTotp(v, ts, code, now).value.totpId
  {
    if TotpVerdict(v, ts[0], code, now) == T.Settled(None) {
      var rest := ts[1..];
      var k := TakenIsFirst(v, rest, code, now);
      i := k + 1;
      assert ts[i] == rest[k] && forall j :: 1 <= j < i ==> ts[j] == rest[j - 1];
    } else {
      i := 0;
    }
  }

  lemma FirstTotpIff(v: Verifier, ts: seq<Totp>, code: string, now: int, u: Update)
    ensures FirstTotp(v, ts, code, now) == Some(u) <==>
              u.MarkStep? && exists i :: FirstToSettle(v, ts, code, now, i, u.step) && ts[i].id == u.totpId
  {
    if FirstTotp(v, ts, code, now).Some? {
      var i := TakenIsFirst(v, ts, code, now);
    }
    if u.MarkStep? {
      forall i | FirstToSettle(v, ts, code, now, i, u.step) && ts[i].id == u.totpId
        ensures FirstTotp(v, ts, code, now) == Some(u)
      {
        SettlingIsTaken(v, ts, code, now, i, u.step);
      }
    }
  }

  /**
   * Exactly what is accepted when the code names no stored recovery code: the first authenticator,
   * in order, that settles on a step.
   */
  lemma TotpChosenIff(v: Verifier, r: Record, code: string, now: int, u: Update)
    requires var id := BeforeHyphen(T.WithoutSpaces(Upper(code))); !(SafeId(id) && HasBackup(r, id))
    ensures Choose(v, r, code, now) == Some(u) <==>
              u.MarkStep? && exists i :: FirstToSettle(v, r.totp, code, now, i, u.step) && r.totp[i].id == u.totpId
  {
    var id := BeforeHyphen(T.WithoutSpaces(Upper(code)));
    assert FindBackup(r.backups, id).None? || !SafeId(id) by {
      if FindBackup(r.backups, id).Some? {
        var b := FindBackup(r.backups, id).value;
        var i :| 0 <= i < |r.backups| && r.backups[i] == b;
        assert HasBackup(r, id);
      }
    }
    FirstTotpIff(v, r.totp, code, now, u);
  }
}

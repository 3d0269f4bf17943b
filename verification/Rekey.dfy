/** Re-sealing the retained upstream credentials of every record under the current secret. */
module Rekey {
  import opened Basics
  import opened LocalRecords

  /** `token` is absent when the payload holds something that is not a string. */
  datatype Payload = Payload(
    v: int, identityId: string, linkId: string, upstream: string, issuer: string, subject: string, token: Option<string>)

  type Secret = string

  /**
   * Sealing as a foreign function of secret, purpose, payload and nonce. `nonce` stands for the
   * random bytes drawn for a link, `disk` for whether a file could be replaced.
   */
  datatype Env = Env(
    checks: Checks, secrets: seq<Secret>,
    seal: (Secret, string, Payload, int) -> string, open: (Secret, string, string) -> Option<Payload>,
    size: (string, Payload) -> nat, nonce: (string, string) -> int, disk: string -> bool)

  predicate Faithful(e: Env, secret: Secret, purpose: string, payload: Payload, nonce: int) {
    var token := e.seal(secret, purpose, payload, nonce);
    e.open(secret, purpose, token) == Some(payload) && |token| == e.size(purpose, payload)
  }

  /** Authenticated encryption: what was sealed opens, only what was sealed opens, lengths do not depend on key or nonce. */
  ghost predicate Ideal(e: Env) {
    && |e.secrets| >= 1
    && (forall k, p, x, n :: Faithful(e, k, p, x, n))
    && (forall k, p, t :: e.open(k, p, t).Some? ==> exists n :: t == e.seal(k, p, e.open(k, p, t).value, n))
  }

  function Purpose(id: string, linkId: string): string {
    "local-identity-refresh/" + id + "/" + linkId
  }

  /** `unseal`: the first secret in the list that opens the token. */
  function Unseal(e: Env, secrets: seq<Secret>, purpose: string, token: string): (r: Option<Payload>)
    ensures r.Some? ==> exists k :: k in secrets && e.open(k, purpose, token) == r
  {
    if secrets == [] then None
    else
      var first := e.open(secrets[0], purpose, token);
      if first.Some? then first else Unseal(e, secrets[1..], purpose, token)
  }

  predicate Bound(r: Record, l: Link, x: Payload) {
    x.v == 1 && x.identityId == r.id && x.linkId == l.id && x.upstream == l.upstream
    && x.issuer == l.issuer && x.subject == l.subject && x.token.Some?
  }

  datatype Opening = Opening(token: string, current: bool)

  function OpenToken(e: Env, r: Record, l: Link): Option<Opening>
    requires |e.secrets| >= 1 && l.refreshToken.Some?
  {
    var purpose := Purpose(r.id, l.id);
    var direct := Unseal(e, [e.secrets[0]], purpose, l.refreshToken.value);
    var payload := if direct.Some? then direct else Unseal(e, e.secrets, purpose, l.refreshToken.value);
    if payload.None? || !Bound(r, l, payload.value) then None
    else Some(Opening(payload.value.token.value, direct.Some?))
  }

  predicate Retains(l: Link) {
    l.refreshToken.Some? && l.refreshToken.value != ""
  }

  function Resealed(e: Env, r: Record, l: Link, token: string): Link
    requires |e.secrets| >= 1
  {
    var payload := Payload(1, r.id, l.id, l.upstream, l.issuer, l.subject, Some(token));
    l.(refreshToken := Some(e.seal(e.secrets[0], Purpose(r.id, l.id), payload, e.nonce(r.id, l.id))))
  }

  function RekeyLink(e: Env, r: Record, l: Link): Option<Link>
    requires |e.secrets| >= 1
  {
    if !Retains(l) then Some(l)
    else
      var o := OpenToken(e, r, l);
      if o.None? then None else if o.value.current then Some(l) else Some(Resealed(e, r, l, o.value.token))
  }

  predicate Stale(e: Env, r: Record, l: Link)
    requires |e.secrets| >= 1
  {
    Retains(l) && OpenToken(e, r, l).Some? && !OpenToken(e, r, l).value.current
  }

  datatype LinksResult = LinksFailed | LinksDone(links: seq<Link>, changed: bool)

  /** The loop over one record's links; an unreadable credential ends it with an error. */
  method RekeyLinks(e: Env, r: Record) returns (out: LinksResult)
    requires |e.secrets| >= 1
    ensures out.LinksFailed? <==> exists i :: 0 <= i < |r.links| && RekeyLink(e, r, r.links[i]).None?
    ensures out.LinksDone? ==> |out.links| == |r.links|
    ensures out.LinksDone? ==> forall i :: 0 <= i < |r.links| ==> RekeyLink(e, r, r.links[i]) == Some(out.links[i])
    ensures out.LinksDone? ==> (out.changed <==> exists i :: 0 <= i < |r.links| && Stale(e, r, r.links[i]))
  {
    var upstreams: seq<Link> := [];
    var changed := false;
    var i := 0;
    while i < |r.links|
      invariant 0 <= i <= |r.links| && |upstreams| == i
      invariant forall j :: 0 <= j < i ==> RekeyLink(e, r, r.links[j]) == Some(upstreams[j])
      invariant changed <==> exists j :: 0 <= j < i && Stale(e, r, r.links[j])
    {
      var l := r.links[i];
      if !Retains(l) {
        upstreams := upstreams + [l];
      } else {
        var o := OpenToken(e, r, l);
        if o.None? {
          assert RekeyLink(e, r, r.links[i]).None?;
          return LinksFailed;
        }
        if !o.value.current {
          assert Stale(e, r, r.links[i]);
          changed := true;
        }
        upstreams := upstreams + [if o.value.current then l else Resealed(e, r, l, o.value.token)];
      }
      i := i + 1;
    }
    return LinksDone(upstreams, changed);
  }

  // ---------------------------------------------------------------- what one link keeps

  /** What a link's retained credential opens to under these secrets. */
  function TokenUnder(e: Env, secrets: seq<Secret>, r: Record, l: Link): Option<string>
    requires |secrets| >= 1
  {
    if !Retains(l) then None
    else
      var o := OpenToken(e.(secrets := secrets), r, l);
      if o.None? then None else Some(o.value.token)
  }

  lemma OpenedWasSealed(e: Env, r: Record, l: Link)
    requires Ideal(e) && l.refreshToken.Some? && OpenToken(e, r, l).Some?
    ensures var payload := Payload(1, r.id, l.id, l.upstream, l.issuer, l.subject, Some(OpenToken(e, r, l).value.token));
            |l.refreshToken.value| == e.size(Purpose(r.id, l.id), payload)
  {
    var purpose := Purpose(r.id, l.id);
    var direct := Unseal(e, [e.secrets[0]], purpose, l.refreshToken.value);
    var payload := if direct.Some? then direct else Unseal(e, e.secrets, purpose, l.refreshToken.value);
    var k :| e.open(k, purpose, l.refreshToken.value) == payload;
    var n :| l.refreshToken.value == e.seal(k, purpose, e.open(k, purpose, l.refreshToken.value).value, n);
    assert Faithful(e, k, purpose, payload.value, n);
  }

  /** A re-sealed credential opens to the same token, with the current secret alone or any list that starts with it. */
  lemma ResealedOpens(e: Env, r: Record, l: Link, token: string, secrets: seq<Secret>)
    requires Ideal(e) && |secrets| >= 1 && secrets[0] == e.secrets[0]
    ensures Resealed(e, r, l, token).refreshToken.Some?
    ensures OpenToken(e.(secrets := secrets), r, Resealed(e, r, l, token)) == Some(Opening(token, true))
    ensures var payload := Payload(1, r.id, l.id, l.upstream, l.issuer, l.subject, Some(token));
            |Resealed(e, r, l, token).refreshToken.value| == e.size(Purpose(r.id, l.id), payload)
  {
    var purpose := Purpose(r.id, l.id);
    var payload := Payload(1, r.id, l.id, l.upstream, l.issuer, l.subject, Some(token));
    var sealed := e.seal(e.secrets[0], purpose, payload, e.nonce(r.id, l.id));
    assert Faithful(e, e.secrets[0], purpose, payload, e.nonce(r.id, l.id));
    assert Unseal(e.(secrets := secrets), [secrets[0]], purpose, sealed) == Some(payload);
    assert Bound(r, Resealed(e, r, l, token), payload);
  }

  lemma DirectOpens(e: Env, r: Record, l: Link, secrets: seq<Secret>)
    requires Ideal(e) && l.refreshToken.Some? && OpenToken(e, r, l).Some? && OpenToken(e, r, l).value.current
    requires |secrets| >= 1 && secrets[0] == e.secrets[0]
    ensures OpenToken(e.(secrets := secrets), r, l) == OpenToken(e, r, l)
  {
    var purpose := Purpose(r.id, l.id);
    assert Unseal(e, [e.secrets[0]], purpose, l.refreshToken.value) == e.open(e.secrets[0], purpose, l.refreshToken.value);
  }

  /** Rekeying a link keeps everything but the ciphertext, keeps the token, its size, and makes it current. */
  lemma RekeyLinkKeeps(e: Env, r: Record, l: Link, secrets: seq<Secret>)
    requires Ideal(e) && RekeyLink(e, r, l).Some? && |secrets| >= 1 && secrets[0] == e.secrets[0]
    ensures var l' := RekeyLink(e, r, l).value;
            && l' == l.(refreshToken := l'.refreshToken) && (TokenFits(l) ==> TokenFits(l'))
            && TokenUnder(e, secrets, r, l') == TokenUnder(e, e.secrets, r, l)
            && (Retains(l) <==> Retains(l'))
            && (Retains(l') ==> TokenUnder(e, secrets, r, l').Some? && OpenToken(e.(secrets := secrets), r, l').Some?
                                && OpenToken(e.(secrets := secrets), r, l').value.current)
  {
    if Retains(l) {
      var o := OpenToken(e, r, l).value;
      OpenedWasSealed(e, r, l);
      if o.current {
        DirectOpens(e, r, l, secrets);
      } else {
        ResealedOpens(e, r, l, o.token, secrets);
      }
      assert e.(secrets := e.secrets) == e;
    }
  }

  // ---------------------------------------------------------------- one record

  /** Each link by itself, as the loop leaves it; `None` when some credential does not open. */
  function RekeyedLinks(e: Env, r: Record, ls: seq<Link>): (out: Option<seq<Link>>)
    requires |e.secrets| >= 1
    ensures out.Some? ==> |out.value| == |ls| && forall i :: 0 <= i < |ls| ==> RekeyLink(e, r, ls[i]) == Some(out.value[i])
    ensures out.None? ==> exists i :: 0 <= i < |ls| && RekeyLink(e, r, ls[i]).None?
  {
    if ls == [] then Some([])
    else
      var n := |ls| - 1;
      var rest := RekeyedLinks(e, r, ls[..n]);
      var last := RekeyLink(e, r, ls[n]);
      if rest.Some? && last.Some? then Some(rest.value + [last.value]) else None
  }

  datatype FileResult = Failed | Unchanged | Replaced(doc: Document)

  predicate AnyStale(e: Env, r: Record)
    requires |e.secrets| >= 1
  {
    exists i :: 0 <= i < |r.links| && Stale(e, r, r.links[i])
  }

  function RekeyedRecord(r: Record, links: seq<Link>): Record {
    r.(links := links, revision := r.revision + 1)
  }

  /** One file of the sweep: parse it, rekey its links, and replace it if any credential was stale. */
  function RekeyFile(e: Env, doc: Document, key: string): FileResult
    requires |e.secrets| >= 1
  {
    var parsed := Parse(e.checks, doc, key);
    if parsed.None? then Failed
    else
      var r := parsed.value;
      var links := RekeyedLinks(e, r, r.links);
      if links.None? then Failed
      else if !AnyStale(e, r) then Unchanged
      else if !Writable(e.checks, RekeyedRecord(r, links.value)) || !e.disk(key) then Failed
      else Replaced(Stored(RekeyedRecord(r, links.value)))
  }

  /** The same account with the same links, whose credentials mean the same. */
  ghost predicate Equivalent(e: Env, secrets: seq<Secret>, a: Record, b: Record)
    requires |e.secrets| >= 1 && |secrets| >= 1
  {
    && b == a.(links := b.links, revision := b.revision) && b.revision >= a.revision
    && |a.links| == |b.links|
    && forall i :: 0 <= i < |a.links| ==> LinkKept(e, secrets, a, a.links[i], b.links[i])
  }

  ghost predicate LinkKept(e: Env, secrets: seq<Secret>, r: Record, a: Link, b: Link)
    requires |e.secrets| >= 1 && |secrets| >= 1
  {
    && b == a.(refreshToken := b.refreshToken) && (Retains(a) <==> Retains(b))
    && TokenUnder(e, secrets, r, b) == TokenUnder(e, e.secrets, r, a)
  }

  /** Every retained credential opens with the first secret alone. */
  ghost predicate AllCurrent(e: Env, r: Record)
    requires |e.secrets| >= 1
  {
    forall i :: 0 <= i < |r.links| && Retains(r.links[i]) ==> OpenToken(e, r, r.links[i]).Some? && OpenToken(e, r, r.links[i]).value.current
  }

  lemma BindingIgnoresTheRest(e: Env, secrets: seq<Secret>, a: Record, b: Record, l: Link)
    requires |secrets| >= 1 && a.id == b.id
    ensures TokenUnder(e, secrets, a, l) == TokenUnder(e, secrets, b, l)
    ensures l.refreshToken.Some? ==> OpenToken(e.(secrets := secrets), a, l) == OpenToken(e.(secrets := secrets), b, l)
  {
  }

  /** The rekeyed record, for the current secret alone as for any list that starts with it. */
  lemma RekeyedRecordKeeps(e: Env, r: Record, links: seq<Link>, secrets: seq<Secret>)
    requires Ideal(e) && WellFormed(e.checks, r) && r.revision < MAX_SAFE
    requires RekeyedLinks(e, r, r.links) == Some(links) && |secrets| >= 1 && secrets[0] == e.secrets[0]
    ensures WellFormed(e.checks, RekeyedRecord(r, links))
    ensures Equivalent(e, secrets, r, RekeyedRecord(r, links))
    ensures AllCurrent(e.(secrets := secrets), RekeyedRecord(r, links))
  {
    var b := RekeyedRecord(r, links);
    forall i | 0 <= i < |links|
      ensures LinkKept(e, secrets, r, r.links[i], links[i]) && GoodLink(e.checks, links[i]) && TokenFits(links[i])
      ensures Retains(links[i]) ==> OpenToken(e.(secrets := secrets), b, links[i]).Some?
                                    && OpenToken(e.(secrets := secrets), b, links[i]).value.current
    {
      RekeyLinkKeeps(e, r, r.links[i], secrets);
      BindingIgnoresTheRest(e, secrets, r, b, links[i]);
      assert GoodLink(e.checks, r.links[i]) && TokenFits(r.links[i]);
    }
    assert LinkIds(links) == LinkIds(r.links);
  }
}

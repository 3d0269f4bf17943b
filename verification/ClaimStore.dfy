/**
 * The claim half of the in-process state store: `claim` and `has` over a bounded map from
 * identifiers to expiry seconds.  These functions are the specification that the MemoryStore
 * class implements and that the sign-in protocol runs against.
 */
module ClaimStore {
  import opened Basics

  /** A claim succeeds, finds a live claim, or finds the map full of live claims and throws. */
  datatype ClaimResult = Fresh | Taken | Full

  /** Records that are not yet past their expiry second. */
  function Live<K>(claims: map<K, int>, now: int): map<K, int> {
    map k | k in claims && claims[k] >= now :: claims[k]
  }

  predicate Held<K>(claims: map<K, int>, now: int, id: K) {
    id in claims && claims[id] >= now
  }

  /** What `claim` does before writing: sweep when the map is at its bound. */
  function Swept<K>(claims: map<K, int>, maxEntries: nat, now: int): map<K, int> {
    if |claims| >= maxEntries then Live(claims, now) else claims
  }

  function Outcome<K>(claims: map<K, int>, maxEntries: nat, now: int, id: K): ClaimResult {
    if Held(claims, now, id) then Taken
    else if |Swept(claims, maxEntries, now)| >= maxEntries then Full
    else Fresh
  }

  function AfterClaim<K>(claims: map<K, int>, maxEntries: nat, now: int, id: K, ttl: int): map<K, int> {
    match Outcome(claims, maxEntries, now, id)
    case Taken => claims
    case Full => Swept(claims, maxEntries, now)
    case Fresh => Swept(claims, maxEntries, now)[id := now + Max(1, ttl)]
  }

  /** `has` drops the record it was asked about when that record has expired. */
  function AfterHas<K>(claims: map<K, int>, now: int, id: K): map<K, int> {
    if id in claims && claims[id] < now then claims - {id} else claims
  }

  /** Nothing but the named record changes, and only expired records disappear. */
  ghost predicate OnlyExpiredDropped<K(!new)>(before: map<K, int>, after: map<K, int>, now: int, written: set<K>) {
    && (forall k :: k in before && before[k] >= now && k !in written ==> k in after && after[k] == before[k])
    && (forall k :: k in after && k !in written ==> k in before && after[k] == before[k])
  }

  lemma LiveIsSmaller<K>(claims: map<K, int>, now: int)
    ensures |Live(claims, now)| <= |claims|
  {
    SubsetSize(Live(claims, now).Keys, claims.Keys);
  }

  lemma {:induction false} SubsetSize<K>(small: set<K>, big: set<K>)
    requires small <= big
    ensures |small| <= |big|
    decreases small
  {
    if small != {} {
      var k :| k in small;
      SubsetSize(small - {k}, big - {k});
    }
  }

  /** The bound is kept by every claim, whatever it decides. */
  lemma ClaimKeepsBound<K(!new)>(claims: map<K, int>, maxEntries: nat, now: int, id: K, ttl: int)
    requires |claims| <= maxEntries
    ensures |AfterClaim(claims, maxEntries, now, id, ttl)| <= maxEntries
  {
    LiveIsSmaller(claims, now);
    var swept := Swept(claims, maxEntries, now);
    assert |swept| <= maxEntries;
    if Outcome(claims, maxEntries, now, id) == Fresh {
      var after := AfterClaim(claims, maxEntries, now, id, ttl);
      assert after.Keys == swept.Keys + {id};
    }
  }

  /** A refused claim changes no live record; a fresh one writes exactly its own record. */
  lemma ClaimFrame<K(!new)>(claims: map<K, int>, maxEntries: nat, now: int, id: K, ttl: int)
    ensures OnlyExpiredDropped(claims, AfterClaim(claims, maxEntries, now, id, ttl), now,
                               if Outcome(claims, maxEntries, now, id) == Fresh then {id} else {})
    ensures Outcome(claims, maxEntries, now, id) == Fresh ==>
              Held(AfterClaim(claims, maxEntries, now, id, ttl), now + Max(1, ttl), id)
  {
  }

  lemma HasFrame<K(!new)>(claims: map<K, int>, now: int, id: K)
    ensures OnlyExpiredDropped(claims, AfterHas(claims, now, id), now, {})
  {
  }

  /** The store refuses for lack of room only when it is full of live records. */
  lemma FullMeansLive<K>(claims: map<K, int>, maxEntries: nat, now: int, id: K)
    requires |claims| <= maxEntries
    ensures Outcome(claims, maxEntries, now, id) == Full <==>
              id !in Live(claims, now) && |Live(claims, now)| == maxEntries
  {
    LiveIsSmaller(claims, now);
    if |claims| < maxEntries {
      assert |Live(claims, now)| < maxEntries;
    }
  }
}

/** Attempt limits on local credentials, built on protected counters. */
module Limits {
  import opened Basics
  import opened Identity
  import opened CounterStore
  import Store = MemoryStore

  datatype Factor = Password | Mfa
  datatype Scope = Address | Network

  /** Counter keys.  Tags stand for keyed digests, which are injective in the value they hide. */
  datatype LimitKey =
    | LocalKey(factor: Factor, scope: Scope, tag: string, bucket: int)
    | OtherKey(name: string)

  datatype Policy = Policy(window: int, maxAttempts: nat, networkMaxAttempts: nat, maxEntries: nat)

  predicate ValidPolicy(p: Policy) {
    p.window > 0 && p.maxEntries > 0
  }

  datatype Attempt = Attempt(now: int, email: string, factor: Factor, network: Option<string>)

  function AddressKey(p: Policy, a: Attempt): LimitKey
    requires ValidPolicy(p)
  {
    LocalKey(a.factor, Address, StripPlusTag(a.email), a.now / p.window)
  }

  /** The network bucket is counted first; a refusal there leaves the address bucket alone. */
  function AfterNetwork(p: Policy, t: Table<LimitKey>, a: Attempt): (bool, Table<LimitKey>)
    requires ValidPolicy(p)
  {
    if a.network.None? || p.networkMaxAttempts == 0 then (true, t)
    else
      var key := LocalKey(a.factor, Network, a.network.value, a.now / p.window);
      var used := Count(t, p.maxEntries, a.now, key);
      (used.Some? && used.value <= p.networkMaxAttempts,
       AfterIncrement(t, p.maxEntries, a.now, key, p.window, true))
  }

  function Allowed(p: Policy, t: Table<LimitKey>, a: Attempt): bool
    requires ValidPolicy(p)
  {
    var (passed, t1) := AfterNetwork(p, t, a);
    passed &&
      var used := Count(t1, p.maxEntries, a.now, AddressKey(p, a));
      used.Some? && used.value <= p.maxAttempts
  }

  function AfterAttempt(p: Policy, t: Table<LimitKey>, a: Attempt): Table<LimitKey>
    requires ValidPolicy(p)
  {
    var (passed, t1) := AfterNetwork(p, t, a);
    if passed then AfterIncrement(t1, p.maxEntries, a.now, AddressKey(p, a), p.window, true) else t1
  }

  /** May this credential attempt proceed?  A full store denies it. */
  method CheckLocalAuthAllowed(store: Store.MemoryStore<LimitKey>, p: Policy, a: Attempt) returns (allowed: bool)
    requires ValidPolicy(p) && store.Valid() && store.maxEntries == p.maxEntries
    modifies store`order, store`counters
    ensures store.Valid()
    ensures allowed == Allowed(p, old(store.Counters()), a)
    ensures store.Counters() == AfterAttempt(p, old(store.Counters()), a)
  {
    var bucket := a.now / p.window;
    if a.network.Some? && p.networkMaxAttempts > 0 {
      var networkUsed := store.Increment(a.now, LocalKey(a.factor, Network, a.network.value, bucket), p.window, true);
      if networkUsed.None? || networkUsed.value > p.networkMaxAttempts {
        return false;
      }
    }
    var used := store.Increment(a.now, LocalKey(a.factor, Address, StripPlusTag(a.email), bucket), p.window, true);
    return used.Some? && used.value <= p.maxAttempts;
  }

  // ---------------------------------------------------------------- runs

  /** Credential attempts mixed with any other counter traffic. */
  datatype Op = Try(attempt: Attempt) | Traffic(now: int, name: string, ttl: int, failClosed: bool)

  function TimeOf(op: Op): int {
    match op case Try(a) => a.now case Traffic(now, _, _, _) => now
  }

  function AfterOp(p: Policy, t: Table<LimitKey>, op: Op): Table<LimitKey>
    requires ValidPolicy(p)
  {
    match op
    case Try(a) => AfterAttempt(p, t, a)
    case Traffic(now, name, ttl, failClosed) => AfterIncrement(t, p.maxEntries, now, OtherKey(name), ttl, failClosed)
  }

  predicate Counts(p: Policy, t: Table<LimitKey>, op: Op, key: LimitKey)
    requires ValidPolicy(p)
  {
    op.Try? && AddressKey(p, op.attempt) == key && Allowed(p, t, op.attempt)
  }

  /** How many attempts of a run were let through for one mailbox, factor and window bucket. */
  function AllowedCount(p: Policy, t: Table<LimitKey>, ops: seq<Op>, key: LimitKey): nat
    requires ValidPolicy(p)
    decreases |ops|
  {
    if ops == [] then 0
    else (if Counts(p, t, ops[0], key) then 1 else 0) + AllowedCount(p, AfterOp(p, t, ops[0]), ops[1..], key)
  }

  ghost predicate Ordered(ops: seq<Op>) {
    forall i, j :: 0 <= i <= j < |ops| ==> TimeOf(ops[i]) <= TimeOf(ops[j])
  }

  ghost predicate Bounded(p: Policy, t: Table<LimitKey>) {
    Valid(t) && |t.order| <= p.maxEntries
  }

  /** If the bucket's counter exists it is protected and outlives the bucket. */
  ghost predicate Guarded(p: Policy, t: Table<LimitKey>, key: LimitKey)
    requires ValidPolicy(p)
  {
    key.LocalKey? && (key in t.entries ==>
      t.entries[key].failClosed && t.entries[key].expiresAt >= (key.bucket + 1) * p.window)
  }

  function Used(t: Table<LimitKey>, key: LimitKey): nat {
    if key in t.entries then t.entries[key].count else 0
  }

  lemma InBucket(p: Policy, now: int, bucket: int)
    requires ValidPolicy(p)
    ensures now / p.window == bucket <==> bucket * p.window <= now < (bucket + 1) * p.window
  {
    var q, r := now / p.window, now % p.window;
    assert now == q * p.window + r && 0 <= r < p.window;
    if q < bucket {
      MulMono(q + 1, bucket, p.window);
      assert (q + 1) * p.window == q * p.window + p.window;
    } else if q > bucket {
      MulMono(bucket + 1, q, p.window);
    } else {
      assert (q + 1) * p.window == q * p.window + p.window;
    }
  }

  lemma MulMono(a: int, b: int, w: int)
    requires a <= b && w > 0
    ensures a * w <= b * w
  {
    assert (b - a) * w >= 0;
  }

  /** Counting some other key inside the bucket cannot move the guarded counter. */
  lemma OtherKeyKeeps(p: Policy, t: Table<LimitKey>, now: int, other: LimitKey, ttl: int, failClosed: bool, key: LimitKey)
    requires ValidPolicy(p) && Bounded(p, t) && Guarded(p, t, key) && other != key
    requires now < (key.bucket + 1) * p.window
    ensures var t' := AfterIncrement(t, p.maxEntries, now, other, ttl, failClosed);
            Bounded(p, t') && Guarded(p, t', key) && Used(t', key) == Used(t, key)
  {
    IncrementKeepsBound(t, p.maxEntries, now, other, ttl, failClosed);
    NothingInvented(t, p.maxEntries, now, other, ttl, failClosed);
    if key in t.entries {
      ProtectedSurvives(t, p.maxEntries, now, other, ttl, failClosed, key);
    }
  }

  /** Counting the key itself inside its bucket: the count is exact, and the counter stays guarded. */
  lemma OwnKeyCounts(p: Policy, t: Table<LimitKey>, now: int, key: LimitKey)
    requires ValidPolicy(p) && Bounded(p, t) && Guarded(p, t, key)
    requires key.bucket * p.window <= now < (key.bucket + 1) * p.window
    ensures var t' := AfterIncrement(t, p.maxEntries, now, key, p.window, true);
            && Bounded(p, t') && Guarded(p, t', key)
            && (Count(t, p.maxEntries, now, key).Some? ==>
                  Count(t, p.maxEntries, now, key).value == Used(t, key) + 1 == Used(t', key))
            && Used(t', key) >= Used(t, key)
  {
    IncrementKeepsBound(t, p.maxEntries, now, key, p.window, true);
    MakeRoomKeeps(t, p.maxEntries, now);
    assert key.bucket * p.window + p.window == (key.bucket + 1) * p.window;
  }

  lemma AttemptStep(p: Policy, t: Table<LimitKey>, a: Attempt, key: LimitKey)
    requires ValidPolicy(p) && Bounded(p, t) && Guarded(p, t, key) && key.scope == Address
    requires a.now < (key.bucket + 1) * p.window
    ensures var t' := AfterAttempt(p, t, a);
            && Bounded(p, t') && Guarded(p, t', key) && Used(t', key) >= Used(t, key)
            && (Counts(p, t, Try(a), key) ==> Used(t', key) == Used(t, key) + 1 <= p.maxAttempts)
  {
    if a.network.Some? && p.networkMaxAttempts > 0 {
      OtherKeyKeeps(p, t, a.now, LocalKey(a.factor, Network, a.network.value, a.now / p.window), p.window, true, key);
    }
    var (passed, t1) := AfterNetwork(p, t, a);
    if passed {
      if AddressKey(p, a) == key {
        InBucket(p, a.now, key.bucket);
        OwnKeyCounts(p, t1, a.now, key);
      } else {
        OtherKeyKeeps(p, t1, a.now, AddressKey(p, a), p.window, true, key);
      }
    }
  }

  lemma OrderedTail(ops: seq<Op>)
    requires ops != [] && Ordered(ops)
    ensures Ordered(ops[1..]) && (|ops| > 1 ==> TimeOf(ops[0]) <= TimeOf(ops[1..][0]))
  {
    assert forall i :: 0 <= i < |ops[1..]| ==> ops[1..][i] == ops[i + 1];
  }

  lemma LateOpIsUncounted(p: Policy, t: Table<LimitKey>, op: Op, key: LimitKey)
    requires ValidPolicy(p) && key.LocalKey? && TimeOf(op) >= (key.bucket + 1) * p.window
    ensures !Counts(p, t, op, key)
  {
    if op.Try? {
      InBucket(p, op.attempt.now, key.bucket);
    }
  }

  lemma {:induction false} NothingAfterBucket(p: Policy, t: Table<LimitKey>, ops: seq<Op>, key: LimitKey)
    requires ValidPolicy(p) && Ordered(ops) && key.LocalKey?
    requires ops != [] ==> TimeOf(ops[0]) >= (key.bucket + 1) * p.window
    ensures AllowedCount(p, t, ops, key) == 0
    decreases |ops|
  {
    if ops != [] {
      LateOpIsUncounted(p, t, ops[0], key);
      OrderedTail(ops);
      NothingAfterBucket(p, AfterOp(p, t, ops[0]), ops[1..], key);
    }
  }

  lemma {:induction false} AllowedBound(p: Policy, t: Table<LimitKey>, ops: seq<Op>, key: LimitKey)
    requires ValidPolicy(p) && Bounded(p, t) && Guarded(p, t, key) && key.scope == Address && Ordered(ops)
    ensures AllowedCount(p, t, ops, key) + Used(t, key) <= Max(Used(t, key), p.maxAttempts)
    decreases |ops|
  {
    if ops != [] {
      var op, rest := ops[0], ops[1..];
      OrderedTail(ops);
      if TimeOf(op) >= (key.bucket + 1) * p.window {
        NothingAfterBucket(p, t, ops, key);
      } else {
        match op {
          case Try(a) => AttemptStep(p, t, a, key);
          case Traffic(now, name, ttl, failClosed) => OtherKeyKeeps(p, t, now, OtherKey(name), ttl, failClosed, key);
        }
        AllowedBound(p, AfterOp(p, t, op), rest, key);
      }
    }
  }

  /** One more count for this key stays within the limit: room on a live counter, or room for a new one. */
  ghost predicate HasRoom(t: Table<LimitKey>, maxEntries: nat, now: int, key: LimitKey, limit: nat) {
    if LiveAt(t, now, key) then t.entries[key].count < limit
    else limit >= 1 && !(|LiveOrder(t.order, t.entries, now)| == maxEntries && AllLiveProtected(t, now))
  }

  lemma CountIff(p: Policy, t: Table<LimitKey>, now: int, key: LimitKey, limit: nat)
    requires ValidPolicy(p) && Bounded(p, t)
    ensures Count(t, p.maxEntries, now, key).Some? && Count(t, p.maxEntries, now, key).value <= limit <==>
              HasRoom(t, p.maxEntries, now, key, limit)
  {
    ThrowsIff(t, p.maxEntries, now, key);
  }

  /** An attempt is allowed exactly when the network bucket, if counted, and then the address bucket have room. */
  lemma AllowedIff(p: Policy, t: Table<LimitKey>, a: Attempt)
    requires ValidPolicy(p) && Bounded(p, t)
    ensures var counted := a.network.Some? && p.networkMaxAttempts > 0;
            Allowed(p, t, a) <==>
              if counted then
                var net := LocalKey(a.factor, Network, a.network.value, a.now / p.window);
                && HasRoom(t, p.maxEntries, a.now, net, p.networkMaxAttempts)
                && HasRoom(AfterIncrement(t, p.maxEntries, a.now, net, p.window, true), p.maxEntries, a.now, AddressKey(p, a), p.maxAttempts)
              else HasRoom(t, p.maxEntries, a.now, AddressKey(p, a), p.maxAttempts)
  {
    if a.network.Some? && p.networkMaxAttempts > 0 {
      var net := LocalKey(a.factor, Network, a.network.value, a.now / p.window);
      CountIff(p, t, a.now, net, p.networkMaxAttempts);
      IncrementKeepsBound(t, p.maxEntries, a.now, net, p.window, true);
      CountIff(p, AfterIncrement(t, p.maxEntries, a.now, net, p.window, true), a.now, AddressKey(p, a), p.maxAttempts);
    } else {
      CountIff(p, t, a.now, AddressKey(p, a), p.maxAttempts);
    }
  }

  /**
   * Over any run of the store, whatever other traffic fills it, at most maxAttempts attempts are let
   * through for one mailbox, factor and window bucket.
   */
  lemma AttemptsAreLimited(p: Policy, ops: seq<Op>, factor: Factor, mailbox: string, bucket: int)
    requires ValidPolicy(p) && Ordered(ops)
    ensures AllowedCount(p, Table([], map[]), ops, LocalKey(factor, Address, mailbox, bucket)) <= p.maxAttempts
  {
    AllowedBound(p, Table([], map[]), ops, LocalKey(factor, Address, mailbox, bucket));
  }

  // ---------------------------------------------------------------- one more operation

  function TableAfter(p: Policy, t: Table<LimitKey>, ops: seq<Op>): Table<LimitKey>
    requires ValidPolicy(p)
    decreases |ops|
  {
    if ops == [] then t else TableAfter(p, AfterOp(p, t, ops[0]), ops[1..])
  }

  lemma {:induction false} OneMoreOp(p: Policy, t: Table<LimitKey>, ops: seq<Op>, op: Op, key: LimitKey)
    requires ValidPolicy(p)
    ensures TableAfter(p, t, ops + [op]) == AfterOp(p, TableAfter(p, t, ops), op)
    ensures AllowedCount(p, t, ops + [op], key)
            == AllowedCount(p, t, ops, key) + if Counts(p, TableAfter(p, t, ops), op, key) then 1 else 0
    decreases |ops|
  {
    var more := ops + [op];
    if ops == [] {
      assert more == [op] && more[1..] == [];
    } else {
      assert more[0] == ops[0] && more[1..] == ops[1..] + [op];
      OneMoreOp(p, AfterOp(p, t, ops[0]), ops[1..], op, key);
    }
  }
}

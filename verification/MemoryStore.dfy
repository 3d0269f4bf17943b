/** The single-process state store, as it mutates its two maps. */
module MemoryStore {
  import opened Basics
  import opened ClaimStore
  import opened CounterStore

  /** One pass over the map in insertion order, deleting what has expired. */
  method SweepTable<K(==,!new)>(order: seq<K>, entries: map<K, Counter>, now: int)
      returns (kept: seq<K>, live: map<K, Counter>)
    requires CounterStore.Valid(Table(order, entries))
    ensures Table(kept, live) == Sweep(Table(order, entries), now)
  {
    kept, live := [], entries;
    var i := 0;
    ghost var seen: set<K> := {};
    while i < |order|
      invariant 0 <= i <= |order|
      invariant kept + LiveOrder(order[i..], entries, now) == LiveOrder(order, entries, now)
      invariant forall j :: 0 <= j < |order| ==> (order[j] in seen <==> j < i)
      invariant forall k :: k in live <==> k in entries && (k !in seen || entries[k].expiresAt >= now)
      invariant forall k :: k in live ==> live[k] == entries[k]
    {
      var key := order[i];
      KeptStep(kept, order, i, entries, now);
      if live[key].expiresAt < now {
        live := live - {key};
      } else {
        kept := kept + [key];
      }
      seen := seen + {key};
      i := i + 1;
    }
    assert order[i..] == [] && kept + [] == kept;
  }

  class MemoryStore<K(==,!new)> {
    const maxEntries: nat
    var claims: map<K, int>
    var order: seq<K>
    var counters: map<K, Counter>

    /** Counters as the insertion-ordered table they form. */
    function Counters(): (t: Table<K>)
      reads this
    {
      Table(order, counters)
    }

    ghost predicate Valid()
      reads this
    {
      && maxEntries > 0
      && |claims| <= maxEntries
      && |order| <= maxEntries
      && CounterStore.Valid(Counters())
    }

    constructor (maxEntries: nat)
      requires maxEntries > 0
      ensures Valid() && this.maxEntries == maxEntries
      ensures claims == map[] && Counters() == Table([], map[])
    {
      this.maxEntries := maxEntries;
      claims, order, counters := map[], [], map[];
    }

    /** Delete every claim past its expiry second, in any order. */
    method SweepClaims(now: int)
      modifies this`claims
      ensures claims == Live(old(claims), now)
    {
      var rest := claims.Keys;
      while rest != {}
        invariant rest <= claims.Keys
        invariant forall k :: k in claims <==> k in old(claims) && (k in rest || old(claims)[k] >= now)
        invariant forall k :: k in claims ==> claims[k] == old(claims)[k]
        decreases rest
      {
        var key :| key in rest;
        if claims[key] < now {
          claims := claims - {key};
        }
        rest := rest - {key};
      }
    }

    /** True the first time, false while a live claim exists; Full stands for the thrown error. */
    method Claim(now: int, id: K, ttl: int) returns (r: ClaimResult)
      requires Valid()
      modifies this`claims
      ensures Valid()
      ensures r == Outcome(old(claims), maxEntries, now, id)
      ensures claims == AfterClaim(old(claims), maxEntries, now, id, ttl)
    {
      ghost var before := claims;
      if id in claims && claims[id] >= now {
        return Taken;
      }
      if |claims| >= maxEntries {
        SweepClaims(now);
        LiveIsSmaller(before, now);
        if |claims| >= maxEntries {
          return Full;
        }
      }
      ghost var swept := claims;
      claims := claims[id := now + Max(1, ttl)];
      assert claims.Keys == swept.Keys + {id};
      return Fresh;
    }

    method Has(now: int, id: K) returns (r: bool)
      requires Valid()
      modifies this`claims
      ensures Valid()
      ensures r == Held(old(claims), now, id)
      ensures claims == AfterHas(old(claims), now, id)
    {
      if id !in claims {
        return false;
      }
      if claims[id] < now {
        SubsetSize(claims.Keys - {id}, claims.Keys);
        claims := claims - {id};
        return false;
      }
      return true;
    }

    /** Delete expired counters while walking the map in insertion order. */
    method SweepCounters(now: int)
      requires CounterStore.Valid(Counters())
      modifies this`order, this`counters
      ensures Counters() == Sweep(old(Counters()), now)
    {
      var kept, live := SweepTable(order, counters, now);
      order, counters := kept, live;
    }

    /**
     * Walk the counters oldest first, skip protected ones, and stop as soon as there is room or a
     * tenth of the bound has been dropped.
     */
    method EvictOldest()
      requires CounterStore.Valid(Counters()) && 0 < maxEntries && |order| <= maxEntries
      modifies this`order, this`counters
      ensures var t := old(Counters());
              var v := Victim(t.order, t.entries);
              Counters() == if |t.order| >= maxEntries && v < |t.order| then RemoveAt(t, v) else t
    {
      ghost var t := Counters();
      var drop := Max(1, (maxEntries + 9) / 10);
      var walk := order;
      var i := 0;
      ghost var v := Victim(t.order, t.entries);
      while i < |walk|
        invariant 0 <= i <= |walk| && walk == t.order
        // either nothing is dropped yet, or the one eviction has already made room
        invariant || (Counters() == t && drop >= 1 && i + Victim(walk[i..], t.entries) == v)
                  || (|t.order| >= maxEntries && v < |t.order| && Counters() == RemoveAt(t, v))
      {
        if |order| < maxEntries {
          break;
        }
        var oldest := walk[i];
        assert walk[i..] == [oldest] + walk[i + 1..];
        if !counters[oldest].failClosed {
          order := order[..i] + order[i + 1..];
          counters := counters - {oldest};
          drop := drop - 1;
          if drop <= 0 {
            break;
          }
        }
        i := i + 1;
      }
    }

    /** The running count of a window starting at 1; None stands for the thrown error. */
    method Increment(now: int, key: K, ttl: int, failClosed: bool) returns (r: Option<nat>)
      requires Valid()
      modifies this`order, this`counters
      ensures Valid()
      ensures r == Count(old(Counters()), maxEntries, now, key)
      ensures Counters() == AfterIncrement(old(Counters()), maxEntries, now, key, ttl, failClosed)
    {
      ghost var t := Counters();
      IncrementKeepsBound(t, maxEntries, now, key, ttl, failClosed);
      if key in counters && counters[key].expiresAt >= now {
        var existing := counters[key];
        if failClosed {
          existing := existing.(failClosed := true);
        }
        existing := existing.(count := existing.count + 1);
        counters := counters[key := existing];
        return Some(existing.count);
      }
      if |order| >= maxEntries {
        SweepValid(t, now);
        SweepCounters(now);
        EvictOldest();
        if |order| >= maxEntries {
          return None;
        }
      }
      assert Counters() == MakeRoom(t, maxEntries, now);
      MakeRoomKeeps(t, maxEntries, now);
      if key !in counters {
        order := order + [key];
      }
      counters := counters[key := Counter(now + Max(1, ttl), 1, failClosed)];
      return Some(1);
    }
  }
}

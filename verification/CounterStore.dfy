/**
 * The counter half of the in-process state store: a bounded, insertion-ordered map of windows.
 * Best-effort counters may be dropped to make room; protected ones never are.
 */
module CounterStore {
  import opened Basics

  datatype Counter = Counter(expiresAt: int, count: nat, failClosed: bool)

  /** A JavaScript Map: the entries, and the order in which their keys were inserted. */
  datatype Table<K(==)> = Table(order: seq<K>, entries: map<K, Counter>)

  ghost predicate Distinct<K>(order: seq<K>) {
    forall i, j :: 0 <= i < j < |order| ==> order[i] != order[j]
  }

  ghost predicate Valid<K>(t: Table<K>) {
    && Distinct(t.order)
    && (forall k :: k in t.order ==> k in t.entries)
    && (forall k :: k in t.entries ==> k in t.order)
  }

  predicate LiveAt<K>(t: Table<K>, now: int, key: K) {
    key in t.entries && t.entries[key].expiresAt >= now
  }

  /** The keys of live records, in insertion order. */
  function LiveOrder<K>(order: seq<K>, entries: map<K, Counter>, now: int): seq<K> {
    if order == [] then []
    else
      (if order[0] in entries && entries[order[0]].expiresAt >= now then [order[0]] else [])
      + LiveOrder(order[1..], entries, now)
  }

  function Sweep<K>(t: Table<K>, now: int): Table<K> {
    Table(LiveOrder(t.order, t.entries, now),
          map k | k in t.entries && t.entries[k].expiresAt >= now :: t.entries[k])
  }

  /** Position of the oldest record that may be evicted, or the length of the order when there is none. */
  function Victim<K>(order: seq<K>, entries: map<K, Counter>): (i: nat)
    ensures i <= |order|
  {
    if order == [] then 0
    else if order[0] in entries && !entries[order[0]].failClosed then 0
    else 1 + Victim(order[1..], entries)
  }

  function RemoveAt<K>(t: Table<K>, i: nat): Table<K>
    requires i < |t.order|
  {
    Table(t.order[..i] + t.order[i + 1..], t.entries - {t.order[i]})
  }

  /** Sweep, then evict the oldest unprotected record if the table is still full. */
  function MakeRoom<K>(t: Table<K>, maxEntries: nat, now: int): Table<K> {
    if |t.order| < maxEntries then t
    else
      var swept := Sweep(t, now);
      var i := Victim(swept.order, swept.entries);
      if |swept.order| >= maxEntries && i < |swept.order| then RemoveAt(swept, i) else swept
  }

  function Put<K>(t: Table<K>, key: K, counter: Counter): Table<K> {
    Table(if key in t.entries then t.order else t.order + [key], t.entries[key := counter])
  }

  function Bump(c: Counter, failClosed: bool): Counter {
    Counter(c.expiresAt, c.count + 1, c.failClosed || failClosed)
  }

  /** The running count, or None when the store is full of protected counters and throws. */
  function Count<K>(t: Table<K>, maxEntries: nat, now: int, key: K): Option<nat> {
    if LiveAt(t, now, key) then Some(t.entries[key].count + 1)
    else if |MakeRoom(t, maxEntries, now).order| >= maxEntries then None
    else Some(1)
  }

  function AfterIncrement<K>(t: Table<K>, maxEntries: nat, now: int, key: K, ttl: int, failClosed: bool): Table<K> {
    if LiveAt(t, now, key) then Table(t.order, t.entries[key := Bump(t.entries[key], failClosed)])
    else
      var room := MakeRoom(t, maxEntries, now);
      if |room.order| >= maxEntries then room
      else Put(room, key, Counter(now + Max(1, ttl), 1, failClosed))
  }

  // ---------------------------------------------------------------- lemmas

  lemma {:induction false} LiveOrderMembers<K(!new)>(order: seq<K>, entries: map<K, Counter>, now: int)
    requires Distinct(order)
    ensures forall k :: k in LiveOrder(order, entries, now) <==> k in order && k in entries && entries[k].expiresAt >= now
    ensures Distinct(LiveOrder(order, entries, now))
    ensures |LiveOrder(order, entries, now)| <= |order|
  {
    if order != [] {
      LiveOrderMembers(order[1..], entries, now);
      var rest := LiveOrder(order[1..], entries, now);
      assert order == [order[0]] + order[1..];
      assert order[0] !in order[1..];
      assert order[0] !in rest;
    }
  }

  /** Walking one key further keeps what was kept plus what is still to come equal to the whole. */
  lemma KeptStep<K>(kept: seq<K>, order: seq<K>, i: nat, entries: map<K, Counter>, now: int)
    requires i < |order|
    requires kept + LiveOrder(order[i..], entries, now) == LiveOrder(order, entries, now)
    ensures (if order[i] in entries && entries[order[i]].expiresAt >= now then kept + [order[i]] else kept)
            + LiveOrder(order[i + 1..], entries, now) == LiveOrder(order, entries, now)
  {
    assert order[i..][1..] == order[i + 1..];
  }

  lemma SweepValid<K(!new)>(t: Table<K>, now: int)
    requires Valid(t)
    ensures Valid(Sweep(t, now)) && |Sweep(t, now).order| <= |t.order|
  {
    LiveOrderMembers(t.order, t.entries, now);
  }

  lemma {:induction false} VictimIsOldestUnprotected<K(!new)>(order: seq<K>, entries: map<K, Counter>)
    requires forall k :: k in order ==> k in entries
    ensures forall j :: 0 <= j < Victim(order, entries) ==> entries[order[j]].failClosed
    ensures Victim(order, entries) < |order| ==> !entries[order[Victim(order, entries)]].failClosed
  {
    if order != [] && entries[order[0]].failClosed {
      var rest := order[1..];
      VictimIsOldestUnprotected(rest, entries);
      assert forall j :: 0 <= j < |rest| ==> rest[j] == order[j + 1];
      forall j | 0 <= j < Victim(order, entries) ensures entries[order[j]].failClosed {
        if j > 0 {
          assert order[j] == rest[j - 1];
        }
      }
    }
  }

  lemma RemoveAtValid<K(!new)>(t: Table<K>, i: nat)
    requires Valid(t) && i < |t.order|
    ensures Valid(RemoveAt(t, i)) && |RemoveAt(t, i).order| == |t.order| - 1
  {
    var r := RemoveAt(t, i);
    forall k ensures k in r.order <==> k in r.entries {
      if k in r.entries {
        var j :| 0 <= j < |t.order| && t.order[j] == k;
        assert r.order[if j < i then j else j - 1] == k;
      }
    }
  }

  /** What making room may and may not lose. */
  lemma MakeRoomKeeps<K(!new)>(t: Table<K>, maxEntries: nat, now: int)
    requires Valid(t) && |t.order| <= maxEntries
    ensures Valid(MakeRoom(t, maxEntries, now)) && |MakeRoom(t, maxEntries, now).order| <= maxEntries
    ensures forall k :: k in t.entries && t.entries[k].expiresAt >= now && t.entries[k].failClosed ==>
              k in MakeRoom(t, maxEntries, now).entries
    ensures forall k :: k in MakeRoom(t, maxEntries, now).entries ==>
              k in t.entries && MakeRoom(t, maxEntries, now).entries[k] == t.entries[k]
  {
    SweepValid(t, now);
    var swept := Sweep(t, now);
    var i := Victim(swept.order, swept.entries);
    VictimIsOldestUnprotected(swept.order, swept.entries);
    if i < |swept.order| {
      RemoveAtValid(swept, i);
      assert !swept.entries[swept.order[i]].failClosed;
    }
  }

  /** Both the shape and the bound survive every increment. */
  lemma IncrementKeepsBound<K(!new)>(t: Table<K>, maxEntries: nat, now: int, key: K, ttl: int, failClosed: bool)
    requires Valid(t) && |t.order| <= maxEntries
    ensures Valid(AfterIncrement(t, maxEntries, now, key, ttl, failClosed))
    ensures |AfterIncrement(t, maxEntries, now, key, ttl, failClosed).order| <= maxEntries
  {
    MakeRoomKeeps(t, maxEntries, now);
    if LiveAt(t, now, key) {
      assert forall k :: k in t.entries[key := Bump(t.entries[key], failClosed)] <==> k in t.entries;
    } else {
      var room := MakeRoom(t, maxEntries, now);
      var put := Put(room, key, Counter(now + Max(1, ttl), 1, failClosed));
      assert forall k :: k in put.order <==> k in room.order || k == key;
    }
  }

  /** A live protected counter is never swept or evicted, and only its own key can move it. */
  lemma ProtectedSurvives<K(!new)>(t: Table<K>, maxEntries: nat, now: int, key: K, ttl: int, failClosed: bool, guarded: K)
    requires Valid(t) && |t.order| <= maxEntries
    requires LiveAt(t, now, guarded) && t.entries[guarded].failClosed
    ensures var after := AfterIncrement(t, maxEntries, now, key, ttl, failClosed);
            && guarded in after.entries
            && after.entries[guarded] ==
                 (if key == guarded then Bump(t.entries[guarded], failClosed) else t.entries[guarded])
  {
    MakeRoomKeeps(t, maxEntries, now);
  }

  /** Nothing appears except the incremented key, and nothing else changes value. */
  lemma NothingInvented<K(!new)>(t: Table<K>, maxEntries: nat, now: int, key: K, ttl: int, failClosed: bool)
    requires Valid(t) && |t.order| <= maxEntries
    ensures forall k :: k in AfterIncrement(t, maxEntries, now, key, ttl, failClosed).entries && k != key ==>
              k in t.entries && AfterIncrement(t, maxEntries, now, key, ttl, failClosed).entries[k] == t.entries[k]
  {
    MakeRoomKeeps(t, maxEntries, now);
  }

  ghost predicate AllLiveProtected<K>(t: Table<K>, now: int) {
    forall k :: k in t.entries && t.entries[k].expiresAt >= now ==> t.entries[k].failClosed
  }

  /** The store throws exactly when a new counter meets a table full of live protected ones. */
  lemma ThrowsIff<K(!new)>(t: Table<K>, maxEntries: nat, now: int, key: K)
    requires Valid(t) && |t.order| <= maxEntries && maxEntries > 0
    ensures Count(t, maxEntries, now, key).None? <==>
              !LiveAt(t, now, key) && |LiveOrder(t.order, t.entries, now)| == maxEntries && AllLiveProtected(t, now)
  {
    SweepValid(t, now);
    var swept := Sweep(t, now);
    VictimIsOldestUnprotected(swept.order, swept.entries);
    var i := Victim(swept.order, swept.entries);
    if i < |swept.order| {
      RemoveAtValid(swept, i);
      assert swept.order[i] in swept.entries;
    } else {
      forall k | k in t.entries && t.entries[k].expiresAt >= now ensures t.entries[k].failClosed {
        assert k in swept.order;
        var j :| 0 <= j < |swept.order| && swept.order[j] == k;
      }
    }
    if |t.order| < maxEntries {
      LiveOrderMembers(t.order, t.entries, now);
    }
  }
}

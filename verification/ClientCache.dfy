/** The bounded read-through cache in front of the client stores, misses included. */
module ClientCache {
  import opened Basics

  const MISS_TTL := 10
  const MAX_CACHED := 500

  /** A loaded client record, or `None` for an unknown client. */
  type Answer = Option<string>

  datatype Entry = Entry(key: string, value: Answer, expiresAt: int)

  /** A map in insertion order. */
  type Table = seq<Entry>

  predicate DistinctKeys(t: Table) {
    forall i, j :: 0 <= i < j < |t| ==> t[i].key != t[j].key
  }

  ghost predicate Holds(t: Table, key: string) {
    exists i :: 0 <= i < |t| && t[i].key == key
  }

  function Without(t: Table, key: string): (r: Table)
    ensures |r| <= |t|
  {
    if t == [] then [] else (if t[0].key == key then [] else [t[0]]) + Without(t[1..], key)
  }

  function LiveOnly(t: Table, now: int): (r: Table)
    ensures |r| <= |t|
  {
    if t == [] then [] else (if t[0].expiresAt <= now then [] else [t[0]]) + LiveOnly(t[1..], now)
  }

  function Evicted(t: Table, now: int): Table {
    if |LiveOnly(t, now)| < |t| then LiveOnly(t, now) else if t == [] then t else t[1..]
  }

  function TtlFor(value: Answer, ttl: int): int {
    if value.None? then Min(ttl, MISS_TTL) else ttl
  }

  /** What a finished load leaves behind. */
  function Stored(t: Table, key: string, value: Answer, ttl: int, now: int): Table {
    var rest := Without(t, key);
    (if |rest| >= MAX_CACHED then Evicted(rest, now) else rest) + [Entry(key, value, now + TtlFor(value, ttl))]
  }

  function Find(t: Table, key: string): (r: Option<Entry>)
    ensures r.Some? ==> r.value in t && r.value.key == key
    ensures r.None? ==> forall e :: e in t ==> e.key != key
  {
    if t == [] then None else if t[0].key == key then Some(t[0]) else Find(t[1..], key)
  }

  /** The cached answer, if there is a live one. */
  function Hit(t: Table, key: string, now: int): Option<Answer> {
    var e := Find(t, key);
    if e.Some? && e.value.expiresAt > now then Some(e.value.value) else None
  }

  // ---------------------------------------------------------------- facts about the table

  lemma {:induction false} WithoutMembers(t: Table, key: string)
    ensures forall e :: e in Without(t, key) <==> e in t && e.key != key
    ensures DistinctKeys(t) ==> DistinctKeys(Without(t, key))
  {
    if t != [] {
      WithoutMembers(t[1..], key);
      if DistinctKeys(t) {
        HeadIsUnique(t);
        ConsDistinct(t[0], Without(t[1..], key));
      }
    }
  }

  lemma {:induction false} LiveMembers(t: Table, now: int)
    ensures forall e :: e in LiveOnly(t, now) <==> e in t && e.expiresAt > now
    ensures DistinctKeys(t) ==> DistinctKeys(LiveOnly(t, now))
    ensures |LiveOnly(t, now)| == |t| <==> forall e :: e in t ==> e.expiresAt > now
  {
    if t != [] {
      LiveMembers(t[1..], now);
      if DistinctKeys(t) {
        HeadIsUnique(t);
        ConsDistinct(t[0], LiveOnly(t[1..], now));
      }
      assert t == [t[0]] + t[1..];
    }
  }

  lemma HeadIsUnique(t: Table)
    requires t != [] && DistinctKeys(t)
    ensures DistinctKeys(t[1..]) && forall e :: e in t[1..] ==> e.key != t[0].key
  {
    forall e | e in t[1..] ensures e.key != t[0].key {
      var i :| 0 <= i < |t[1..]| && t[1..][i] == e;
      assert t[i + 1] == e;
    }
  }

  lemma ConsDistinct(e: Entry, t: Table)
    ensures DistinctKeys(t) && (forall f :: f in t ==> f.key != e.key) ==> DistinctKeys([e] + t)
  {
    assert forall i :: 0 <= i < |t| ==> t[i] in t;
  }

  lemma EvictedMembers(t: Table, now: int)
    requires DistinctKeys(t)
    ensures DistinctKeys(Evicted(t, now)) && |Evicted(t, now)| <= |t| && (t != [] ==> |Evicted(t, now)| < |t|)
    ensures forall e :: e in Evicted(t, now) ==> e in t
    ensures forall e :: e in t && e !in Evicted(t, now) && e.expiresAt > now ==>
              e == t[0] && forall f :: f in t ==> f.expiresAt > now
  {
    LiveMembers(t, now);
    if |LiveOnly(t, now)| == |t| && t != [] {
      HeadIsUnique(t);
      assert t == [t[0]] + t[1..];
    }
  }

  /** What `Stored` keeps and drops: the bound, the new entry, and live entries unless all were live. */
  lemma StoredMembers(t: Table, key: string, value: Answer, ttl: int, now: int)
    requires DistinctKeys(t) && |t| <= MAX_CACHED
    ensures var r := Stored(t, key, value, ttl, now);
            && DistinctKeys(r) && |r| <= MAX_CACHED
            && (forall e :: e in r ==> e == Entry(key, value, now + TtlFor(value, ttl)) || (e in t && e.key != key))
            && Entry(key, value, now + TtlFor(value, ttl)) in r
  {
    var rest := Without(t, key);
    WithoutMembers(t, key);
    var kept := if |rest| >= MAX_CACHED then Evicted(rest, now) else rest;
    if |rest| >= MAX_CACHED {
      EvictedMembers(rest, now);
    }
    var e := Entry(key, value, now + TtlFor(value, ttl));
    SnocDistinct(kept, e);
    assert (kept + [e])[|kept|] == e;
  }

  lemma SnocDistinct(t: Table, e: Entry)
    requires DistinctKeys(t) && forall f :: f in t ==> f.key != e.key
    ensures DistinctKeys(t + [e])
  {
    assert forall i :: 0 <= i < |t| ==> t[i] in t;
  }

  /** A live entry of another client is dropped only when the table was full and held nothing expired; then it is the oldest. */
  lemma LiveEvictedOnlyWhenAllLive(t: Table, key: string, value: Answer, ttl: int, now: int, e: Entry)
    requires DistinctKeys(t) && |t| <= MAX_CACHED && e in t && e.key != key && e.expiresAt > now
    requires e !in Stored(t, key, value, ttl, now)
    ensures |t| == MAX_CACHED && t[0] == e && !Holds(t, key) && forall f :: f in t ==> f.expiresAt > now
  {
    var rest := Without(t, key);
    WithoutMembers(t, key);
    assert e in rest;
    assert |rest| >= MAX_CACHED;
    WithoutNothing(t, key);
    EvictedMembers(rest, now);
  }

  lemma {:induction false} WithoutNothing(t: Table, key: string)
    ensures |Without(t, key)| == |t| ==> Without(t, key) == t && !Holds(t, key)
  {
    if t != [] {
      WithoutNothing(t[1..], key);
      assert t == [t[0]] + t[1..];
      if |Without(t, key)| == |t| {
        forall i | 0 <= i < |t| ensures t[i].key != key {
          assert i > 0 ==> t[1..][i - 1] == t[i];
        }
      }
    }
  }

  lemma {:induction false} LiveSnoc(t: Table, e: Entry, now: int)
    ensures LiveOnly(t + [e], now) == LiveOnly(t, now) + (if e.expiresAt <= now then [] else [e])
  {
    if t != [] {
      LiveSnoc(t[1..], e, now);
      assert (t + [e])[1..] == t[1..] + [e];
    }
  }

  /** The table once the first `done` entries have been looked at. */
  function Swept(t: Table, done: nat, now: int): Table
    requires done <= |t|
  {
    LiveOnly(t[..done], now) + t[done..]
  }

  lemma SweptStep(t: Table, done: nat, now: int)
    requires done <= |t| && |LiveOnly(t[..done], now)| < |Swept(t, done, now)|
    ensures done < |t|
    ensures var k := |LiveOnly(t[..done], now)|; var s := Swept(t, done, now);
            && s[k] == t[done]
            && if t[done].expiresAt <= now
               then Swept(t, done + 1, now) == s[..k] + s[k + 1..] && |LiveOnly(t[..done + 1], now)| == k
               else Swept(t, done + 1, now) == s && |LiveOnly(t[..done + 1], now)| == k + 1
  {
    assert |t[done..]| > 0 && done < |t|;
    assert t[..done + 1] == t[..done] + [t[done]];
    LiveSnoc(t[..done], t[done], now);
    assert t[done..] == [t[done]] + t[done + 1..];
    var live, rest := LiveOnly(t[..done], now), t[done + 1..];
    assert (live + ([t[done]] + rest))[..|live|] == live && (live + ([t[done]] + rest))[|live| + 1..] == rest;
  }

  // ---------------------------------------------------------------- the code

  /** All entries have been looked at. */
  lemma SweptEnd(t: Table, done: nat, now: int)
    requires done <= |t| && |Swept(t, done, now)| <= |LiveOnly(t[..done], now)|
    ensures done == |t| && Swept(t, done, now) == LiveOnly(t, now)
    ensures |LiveOnly(t, now)| == |t| ==> LiveOnly(t, now) == t
  {
    assert t[..|t|] == t;
    AllLiveStay(t, now);
  }

  lemma {:induction false} AllLiveStay(t: Table, now: int)
    ensures |LiveOnly(t, now)| == |t| ==> LiveOnly(t, now) == t
  {
    if t != [] {
      AllLiveStay(t[1..], now);
      assert t == [t[0]] + t[1..];
    }
  }

  /** Deleting while iterating: after a deletion the next entry is at the same place. */
  method DropExpired(t: Table, now: int) returns (r: Table, freed: bool)
    ensures r == LiveOnly(t, now) && (freed <==> |r| < |t|) && (!freed ==> r == t)
  {
    r := t;
    freed := false;
    var i := 0;
    ghost var done := 0;
    assert Swept(t, 0, now) == t;
    while i < |r|
      invariant 0 <= done <= |t| && r == Swept(t, done, now)
      invariant i == |LiveOnly(t[..done], now)| <= done
      invariant freed <==> i < done
      decreases |r| - i
    {
      SweptStep(t, done, now);
      if r[i].expiresAt <= now {
        r := r[..i] + r[i + 1..];
        freed := true;
      } else {
        i := i + 1;
      }
      done := done + 1;
    }
    SweptEnd(t, done, now);
  }

  class Cache {
    var entries: Table
    const ttl: int

    ghost predicate Valid()
      reads this
    {
      DistinctKeys(entries) && |entries| <= MAX_CACHED
    }

    constructor (ttl: int)
      ensures Valid() && entries == [] && this.ttl == ttl
    {
      entries := [];
      this.ttl := ttl;
    }

    /** Before the loader is awaited. */
    method Lookup(key: string, now: int) returns (r: Option<Answer>)
      requires Valid()
      ensures r == Hit(entries, key, now)
    {
      r := None;
      var i := 0;
      while i < |entries|
        invariant 0 <= i <= |entries|
        invariant Hit(entries, key, now) == Hit(entries[i..], key, now)
      {
        assert entries[i..][1..] == entries[i + 1..];
        if entries[i].key == key {
          return if entries[i].expiresAt > now then Some(entries[i].value) else None;
        }
        i := i + 1;
      }
    }

    /** The expired entries go; if there were none, the oldest does. */
    method Evict(now: int)
      requires Valid()
      modifies this
      ensures entries == Evicted(old(entries), now)
    {
      LiveMembers(entries, now);
      var freed;
      entries, freed := DropExpired(entries, now);
      if !freed && |entries| > 0 {
        entries := entries[1..];
      }
    }

    /** After the loader answered; loads for other keys, or the same one, may have finished meanwhile. */
    method Store(key: string, value: Answer, now: int)
      requires Valid()
      modifies this
      ensures entries == Stored(old(entries), key, value, ttl, now) && Valid()
    {
      StoredMembers(entries, key, value, ttl, now);
      WithoutMembers(entries, key);
      var life := if value.None? then Min(ttl, MISS_TTL) else ttl;
      entries := Without(entries, key);
      if |entries| >= MAX_CACHED {
        Evict(now);
      }
      entries := entries + [Entry(key, value, now + life)];
    }
  }

  // ---------------------------------------------------------------- every interleaving of loads

  datatype Load = Load(key: string, value: Answer, at: int)

  /** A request answered from the table. */
  datatype Served = Served(key: string, value: Answer, at: int, loadsBefore: nat)

  /** `pending` holds the keys being loaded; `loads` and `served` are history. */
  datatype State = State(clock: int, entries: Table, pending: seq<string>, loads: seq<Load>, served: seq<Served>)

  datatype Event =
    | Tick(seconds: nat)
    | Ask(key: string)
    | Loaded(index: nat, value: Answer)
    | LoadFailed(index: nat)

  function Remove(s: seq<string>, i: nat): seq<string>
    requires i < |s|
  {
    s[..i] + s[i + 1..]
  }

  function Step(ttl: int, s: State, e: Event): State {
    match e
    case Tick(n) => s.(clock := s.clock + n)
    case Ask(key) =>
      var hit := if ttl <= 0 then None else Hit(s.entries, key, s.clock);
      if hit.Some? then s.(served := s.served + [Served(key, hit.value, s.clock, |s.loads|)])
      else s.(pending := s.pending + [key])
    case Loaded(i, value) =>
      if i >= |s.pending| then s
      else
        var key := s.pending[i];
        s.(pending := Remove(s.pending, i), loads := s.loads + [Load(key, value, s.clock)],
           entries := if ttl <= 0 then s.entries else Stored(s.entries, key, value, ttl, s.clock))
    case LoadFailed(i) => if i >= |s.pending| then s else s.(pending := Remove(s.pending, i))
  }

  function Run(ttl: int, s: State, es: seq<Event>): State {
    if es == [] then s else Step(ttl, Run(ttl, s, es[..|es| - 1]), es[|es| - 1])
  }

  function Start(clock: int): State {
    State(clock, [], [], [], [])
  }

  /** The last of the first n finished loads for a key. */
  ghost predicate IsLatest(loads: seq<Load>, n: nat, i: int, key: string) {
    0 <= i < n <= |loads| && loads[i].key == key && forall j :: i < j < n ==> loads[j].key != key
  }

  /** An entry is the result of the latest finished load for its key. */
  ghost predicate Sourced(ttl: int, s: State, e: Entry) {
    exists i :: IsLatest(s.loads, |s.loads|, i, e.key) && s.loads[i].value == e.value
      && e.expiresAt == s.loads[i].at + TtlFor(e.value, ttl) && s.loads[i].at <= s.clock
  }

  ghost predicate ServedOk(ttl: int, s: State, a: Served) {
    exists i :: IsLatest(s.loads, a.loadsBefore, i, a.key) && s.loads[i].value == a.value
      && s.loads[i].at <= a.at < s.loads[i].at + TtlFor(a.value, ttl)
  }

  ghost predicate Inv(ttl: int, s: State) {
    && DistinctKeys(s.entries) && |s.entries| <= MAX_CACHED
    && (forall e :: e in s.entries ==> Sourced(ttl, s, e))
    && (forall k :: 0 <= k < |s.served| ==> ServedOk(ttl, s, s.served[k]))
  }

  /** More loads never change what was the latest before them. */
  lemma ServedStays(ttl: int, s: State, s': State)
    requires Inv(ttl, s) && s.loads <= s'.loads && s'.served == s.served
    ensures forall k :: 0 <= k < |s'.served| ==> ServedOk(ttl, s', s'.served[k])
  {
    forall k | 0 <= k < |s'.served| ensures ServedOk(ttl, s', s'.served[k]) {
      var a := s.served[k];
      assert ServedOk(ttl, s, a);
      var i :| IsLatest(s.loads, a.loadsBefore, i, a.key) && s.loads[i].value == a.value
               && s.loads[i].at <= a.at < s.loads[i].at + TtlFor(a.value, ttl);
      assert IsLatest(s'.loads, a.loadsBefore, i, a.key);
    }
  }

  lemma SourcedStays(ttl: int, s: State, s': State, e: Entry)
    requires Sourced(ttl, s, e) && s.clock <= s'.clock
    requires s'.loads == s.loads || (|s'.loads| == |s.loads| + 1 && s.loads <= s'.loads && s'.loads[|s.loads|].key != e.key)
    ensures Sourced(ttl, s', e)
  {
    var i :| IsLatest(s.loads, |s.loads|, i, e.key) && s.loads[i].value == e.value
             && e.expiresAt == s.loads[i].at + TtlFor(e.value, ttl) && s.loads[i].at <= s.clock;
    assert IsLatest(s'.loads, |s'.loads|, i, e.key);
  }

  lemma LoadedKeepsInv(ttl: int, s: State, i: nat, value: Answer)
    requires Inv(ttl, s) && (ttl <= 0 ==> s.entries == [])
    ensures Inv(ttl, Step(ttl, s, Loaded(i, value)))
  {
    if i < |s.pending| {
      var s' := Step(ttl, s, Loaded(i, value));
      ServedStays(ttl, s, s');
      if ttl > 0 {
        var key := s.pending[i];
        StoredMembers(s.entries, key, value, ttl, s.clock);
        assert IsLatest(s'.loads, |s'.loads|, |s.loads|, key);
        forall e | e in s'.entries ensures Sourced(ttl, s', e) {
          if e.key != key { SourcedStays(ttl, s, s', e); }
        }
      }
    }
  }

  lemma AskKeepsInv(ttl: int, s: State, key: string)
    requires Inv(ttl, s)
    ensures Inv(ttl, Step(ttl, s, Ask(key)))
  {
    var s' := Step(ttl, s, Ask(key));
    forall e | e in s'.entries ensures Sourced(ttl, s', e) { SourcedStays(ttl, s, s', e); }
    ServedStays(ttl, s, s'.(served := s.served));
    if |s'.served| > |s.served| {
      var e := Find(s.entries, key).value;
      assert Sourced(ttl, s, e);
      assert ServedOk(ttl, s', s'.served[|s.served|]);
      forall k | 0 <= k < |s'.served| ensures ServedOk(ttl, s', s'.served[k]) {
        if k < |s.served| {
          assert ServedOk(ttl, s, s.served[k]);
        }
      }
    }
  }

  lemma {:induction false} ReachableInv(ttl: int, clock: int, es: seq<Event>)
    ensures Inv(ttl, Run(ttl, Start(clock), es)) && (ttl <= 0 ==> Run(ttl, Start(clock), es).entries == [])
  {
    if es != [] {
      ReachableInv(ttl, clock, es[..|es| - 1]);
      var s, e := Run(ttl, Start(clock), es[..|es| - 1]), es[|es| - 1];
      var s' := Step(ttl, s, e);
      match e {
        case Loaded(i, value) => LoadedKeepsInv(ttl, s, i, value);
        case Ask(key) => AskKeepsInv(ttl, s, key);
        case _ =>
          ServedStays(ttl, s, s');
          forall x | x in s'.entries ensures Sourced(ttl, s', x) { SourcedStays(ttl, s, s', x); }
      }
    }
  }

  /** The table never exceeds its bound, whatever is asked and however loads overlap. */
  lemma TableStaysBounded(ttl: int, clock: int, es: seq<Event>)
    ensures |Run(ttl, Start(clock), es).entries| <= MAX_CACHED && DistinctKeys(Run(ttl, Start(clock), es).entries)
  {
    ReachableInv(ttl, clock, es);
  }

  /**
   * Every cached answer is the result of the latest load for that client finished before it, and is
   * younger than the ttl; a cached miss is younger than ten seconds as well.
   */
  lemma CachedAnswersAreRecent(ttl: int, clock: int, es: seq<Event>, k: nat)
    requires k < |Run(ttl, Start(clock), es).served|
    ensures var s := Run(ttl, Start(clock), es); var a := s.served[k];
            exists i :: IsLatest(s.loads, a.loadsBefore, i, a.key) && s.loads[i].value == a.value
              && s.loads[i].at <= a.at < s.loads[i].at + ttl && (a.value.None? ==> a.at < s.loads[i].at + MISS_TTL)
  {
    ReachableInv(ttl, clock, es);
    var s := Run(ttl, Start(clock), es);
    assert ServedOk(ttl, s, s.served[k]);
  }
}

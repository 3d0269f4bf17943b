/**
 * The keys of one peer instance: cached, fetched once at a time, retried no sooner than allowed,
 * and served from the last good answer while the grace period lasts.
 *
 * A resolution is a task with an interleaving point at each `await`. Peers do not share entries in
 * any of the tables, so one peer stands for each of them.
 */
module Peers {
  import opened Basics

  /** `kid` is empty when absent; `members` names the members of the object and `text` is its JSON text. */
  datatype Jwk = Jwk(kid: string, members: set<string>, text: string)

  /** An entry of a peer's answer: an object with a `kty`, or anything else. */
  datatype Offered = NotAKey | Key(key: Jwk)

  /** The two members the code looks for: the private exponent or scalar, and a symmetric key. */
  predicate CarriesSecret(k: Jwk) {
    "d" in k.members || "k" in k.members
  }

  datatype Config = Config(cacheTtl: int, staleTtl: int, retryAfter: int)

  datatype Entry = Entry(keys: seq<Jwk>, fetchedAt: int)

  datatype Phase =
    | Started(cached: Option<Entry>)              // waiting for the cache read
    | Fetching(cached: Option<Entry>, now: int)   // waiting for the network
    | Settled(keys: seq<Jwk>, now: int)           // answered, entry still in the table
    | Closed(keys: seq<Jwk>, now: int)

  /** `seen` is how many good answers had been stored when this resolution began. */
  datatype Task = Task(phase: Phase, seen: nat, fetched: bool)

  datatype Result = Pending | Failed | Succeeded

  datatype Fetch = Fetch(start: int, result: Result)

  /** `good` lists the stored answers, `fetches` the network calls; both are history. */
  datatype State = State(
    clock: int, cached: Option<Entry>, retry: Option<int>, inFlight: Option<nat>, tasks: seq<Task>,
    good: seq<Entry>, fetches: seq<Fetch>)

  datatype Event =
    | Tick(seconds: nat)
    | Ask
    | Look(task: nat)
    | Answer(task: nat, offered: Option<seq<Offered>>)   // None: any failure before the keys are read
    | Close(task: nat)

  function UsableKeys(o: seq<Offered>): seq<Jwk> {
    if o == [] then [] else (if o[0].Key? && !CarriesSecret(o[0].key) then [o[0].key] else []) + UsableKeys(o[1..])
  }

  function GraceKeys(c: Config, cached: Option<Entry>, now: int): seq<Jwk> {
    if cached.Some? && now - cached.value.fetchedAt < c.staleTtl then cached.value.keys else []
  }

  function WithPhase(s: State, t: nat, p: Phase): State
    requires t < |s.tasks|
  {
    s.(tasks := s.tasks[t := s.tasks[t].(phase := p)])
  }

  /** `keysFor`: join the pending resolution or start one. */
  function DoAsk(s: State): State {
    if s.inFlight.Some? then s
    else s.(tasks := s.tasks + [Task(Started(s.cached), |s.good|, false)], inFlight := Some(|s.tasks|))
  }

  /** After the cache read: answer from the cache, hold back, or start a fetch. */
  function DoLook(c: Config, s: State, t: nat): State {
    if t >= |s.tasks| || !s.tasks[t].phase.Started? then s
    else
      var cached, now := s.tasks[t].phase.cached, s.clock;
      if cached.Some? && now - cached.value.fetchedAt < c.cacheTtl then WithPhase(s, t, Settled(cached.value.keys, now))
      else if now < (if s.retry.Some? then s.retry.value else 0) then WithPhase(s, t, Settled(GraceKeys(c, cached, now), now))
      else WithPhase(s, t, Fetching(cached, now)).(fetches := s.fetches + [Fetch(now, Pending)])
  }

  function Conclude(fs: seq<Fetch>, r: Result): seq<Fetch> {
    if fs == [] then [] else fs[|fs| - 1 := fs[|fs| - 1].(result := r)]
  }

  /** The fetch returns: an answer without a usable public key counts as a failure. */
  function DoAnswer(c: Config, s: State, t: nat, offered: Option<seq<Offered>>): State {
    if t >= |s.tasks| || !s.tasks[t].phase.Fetching? then s
    else
      var cached, now := s.tasks[t].phase.cached, s.tasks[t].phase.now;
      var keys := if offered.Some? then UsableKeys(offered.value) else [];
      if keys != [] then
        var entry := Entry(keys, now);
        s.(tasks := s.tasks[t := Task(Settled(keys, now), s.tasks[t].seen, true)], retry := None,
           cached := Some(entry), good := s.good + [entry], fetches := Conclude(s.fetches, Succeeded))
      else
        WithPhase(s, t, Settled(GraceKeys(c, cached, now), now)).(
          retry := if c.retryAfter > 0 then Some(now + c.retryAfter) else s.retry, fetches := Conclude(s.fetches, Failed))
  }

  /** The `finally`: whatever the table holds for the peer is deleted. */
  function DoClose(s: State, t: nat): State {
    if t < |s.tasks| && s.tasks[t].phase.Settled?
    then WithPhase(s, t, Closed(s.tasks[t].phase.keys, s.tasks[t].phase.now)).(inFlight := None)
    else s
  }

  function Step(c: Config, s: State, e: Event): State {
    match e
    case Tick(n) => s.(clock := s.clock + n)
    case Ask => DoAsk(s)
    case Look(t) => DoLook(c, s, t)
    case Answer(t, offered) => DoAnswer(c, s, t, offered)
    case Close(t) => DoClose(s, t)
  }

  function Run(c: Config, s: State, es: seq<Event>): State {
    if es == [] then s else Step(c, Run(c, s, es[..|es| - 1]), es[|es| - 1])
  }

  function Start(clock: nat): State {
    State(clock, None, None, None, [], [], [])
  }

  // ---------------------------------------------------------------- invariants

  predicate Answered(p: Phase) {
    p.Settled? || p.Closed?
  }

  /** A resolution is open exactly while it is the one in the table. */
  ghost predicate FlightInv(s: State) {
    && (forall t :: 0 <= t < |s.tasks| && !s.tasks[t].phase.Closed? ==> s.inFlight == Some(t))
    && (s.inFlight.Some? ==> s.inFlight.value < |s.tasks| && !s.tasks[s.inFlight.value].phase.Closed?)
  }

  /** No stored answer is empty or from the future, and they are in order of time. */
  ghost predicate GoodInv(good: seq<Entry>, clock: int) {
    && (forall i :: 0 <= i < |good| ==> good[i].keys != [] && good[i].fetchedAt <= clock)
    && (forall i, j :: 0 <= i < j < |good| ==> good[i].fetchedAt <= good[j].fetchedAt)
  }

  /** The cache holds the last good answer. */
  ghost predicate CacheInv(s: State) {
    s.cached == (if s.good == [] then None else Some(s.good[|s.good| - 1])) && GoodInv(s.good, s.clock)
  }

  /** What the answer of a resolution is, in terms of what had been stored before it began. */
  ghost predicate AnswerOk(c: Config, s: State, t: Task)
    requires Answered(t.phase) && t.seen <= |s.good|
  {
    && t.phase.now <= s.clock
    && (t.fetched ==> exists i :: t.seen <= i < |s.good| && s.good[i] == Entry(t.phase.keys, t.phase.now))
    && (!t.fetched && t.seen == 0 ==> t.phase.keys == [])
    && (!t.fetched && t.seen > 0 && t.phase.keys != [] ==>
          t.phase.keys == s.good[t.seen - 1].keys && t.phase.now < s.good[t.seen - 1].fetchedAt + Max(c.staleTtl, c.cacheTtl))
    && (!t.fetched && t.seen > 0 && t.phase.keys == [] ==>
          t.phase.now >= s.good[t.seen - 1].fetchedAt + Max(c.staleTtl, c.cacheTtl))
  }

  ghost predicate TaskOk(c: Config, s: State, t: Task) {
    && t.seen <= |s.good|
    && (t.phase.Started? ==> t.phase.cached == s.cached && t.seen == |s.good| && !t.fetched)
    && (t.phase.Fetching? ==> t.phase.cached == s.cached && t.seen == |s.good| && !t.fetched
                              && t.phase.now <= s.clock && s.fetches != [] && s.fetches[|s.fetches| - 1] == Fetch(t.phase.now, Pending)
                              && (s.cached.Some? ==> s.cached.value.fetchedAt <= t.phase.now
                                                     && s.cached.value.fetchedAt + c.cacheTtl <= t.phase.now))
    && (Answered(t.phase) ==> AnswerOk(c, s, t))
  }

  /** Fetches start in order, only the last may be pending, and a failure holds all later ones back. */
  ghost predicate Spaced(fetches: seq<Fetch>, clock: int, wait: int) {
    && (forall i :: 0 <= i < |fetches| ==> fetches[i].start <= clock)
    && (forall i, j :: 0 <= i < j < |fetches| ==> fetches[i].start <= fetches[j].start)
    && (forall i, j :: 0 <= i < j < |fetches| && fetches[i].result.Failed? ==> fetches[i].start + wait <= fetches[j].start)
    && (forall i :: 0 <= i < |fetches| - 1 ==> !fetches[i].result.Pending?)
  }

  /** The retry marker remembers the last failure; a pending fetch belongs to the open task. */
  ghost predicate FetchInv(c: Config, s: State) {
    && Spaced(s.fetches, s.clock, Max(c.retryAfter, 0))
    && (s.fetches != [] && s.fetches[|s.fetches| - 1].result.Failed? && c.retryAfter > 0 ==>
          s.retry == Some(s.fetches[|s.fetches| - 1].start + c.retryAfter))
    && (s.fetches != [] && s.fetches[|s.fetches| - 1].result.Pending? ==>
          s.inFlight.Some? && s.inFlight.value < |s.tasks| && s.tasks[s.inFlight.value].phase.Fetching?)
  }

  ghost predicate Inv(c: Config, s: State) {
    FlightInv(s) && CacheInv(s) && FetchInv(c, s) && forall t :: 0 <= t < |s.tasks| ==> TaskOk(c, s, s.tasks[t])
  }

  // ---------------------------------------------------------------- every event keeps them

  /** More good answers may be appended and time may pass without disturbing an answered task. */
  lemma AnswerStays(c: Config, s: State, s': State, t: Task)
    requires Answered(t.phase) && t.seen <= |s.good| && AnswerOk(c, s, t)
    requires s.good <= s'.good && s.clock <= s'.clock
    ensures t.seen <= |s'.good| && AnswerOk(c, s', t)
  {
    if t.fetched {
      var i :| t.seen <= i < |s.good| && s.good[i] == Entry(t.phase.keys, t.phase.now);
      assert s'.good[i] == s.good[i];
    }
  }

  lemma TickKeepsInv(c: Config, s: State, n: nat)
    requires Inv(c, s)
    ensures Inv(c, s.(clock := s.clock + n))
  {
    var s' := s.(clock := s.clock + n);
    forall k | 0 <= k < |s'.tasks| ensures TaskOk(c, s', s'.tasks[k]) {
      assert TaskOk(c, s, s.tasks[k]);
      if Answered(s.tasks[k].phase) { AnswerStays(c, s, s', s.tasks[k]); }
    }
  }

  lemma AskKeepsTasks(c: Config, s: State)
    requires Inv(c, s)
    ensures forall k :: 0 <= k < |DoAsk(s).tasks| ==> TaskOk(c, DoAsk(s), DoAsk(s).tasks[k])
  {
    var s' := DoAsk(s);
    forall k | 0 <= k < |s'.tasks| ensures TaskOk(c, s', s'.tasks[k]) {
      if k < |s.tasks| {
        assert TaskOk(c, s, s.tasks[k]);
        if Answered(s.tasks[k].phase) { AnswerStays(c, s, s', s.tasks[k]); }
      }
    }
  }

  lemma AskKeepsInv(c: Config, s: State)
    requires Inv(c, s)
    ensures Inv(c, DoAsk(s))
  {
    AskKeepsTasks(c, s);
    assert FlightInv(DoAsk(s)) && FetchInv(c, DoAsk(s));
  }

  lemma CloseKeepsTasks(c: Config, s: State, t: nat)
    requires Inv(c, s) && t < |s.tasks| && s.tasks[t].phase.Settled?
    ensures forall k :: 0 <= k < |s.tasks| ==> TaskOk(c, DoClose(s, t), DoClose(s, t).tasks[k])
  {
    var s' := DoClose(s, t);
    forall k | 0 <= k < |s'.tasks| ensures TaskOk(c, s', s'.tasks[k]) {
      assert TaskOk(c, s, s.tasks[k]);
      if Answered(s.tasks[k].phase) { AnswerStays(c, s, s', s.tasks[k]); }
    }
  }

  lemma CloseKeepsInv(c: Config, s: State, t: nat)
    requires Inv(c, s)
    ensures Inv(c, DoClose(s, t))
  {
    if t < |s.tasks| && s.tasks[t].phase.Settled? {
      CloseKeepsTasks(c, s, t);
      assert FlightInv(DoClose(s, t)) && FetchInv(c, DoClose(s, t));
    }
  }

  /** A task other than the open one is closed, so nothing that happens to the open one concerns it. */
  lemma OthersStay(c: Config, s: State, s': State, t: nat, k: nat)
    requires Inv(c, s) && t < |s.tasks| && k < |s.tasks| && k != t && !s.tasks[t].phase.Closed?
    requires |s'.tasks| == |s.tasks| && s'.tasks[k] == s.tasks[k] && s.good <= s'.good && s.clock <= s'.clock
    ensures TaskOk(c, s', s'.tasks[k])
  {
    assert TaskOk(c, s, s.tasks[k]);
    AnswerStays(c, s, s', s.tasks[k]);
  }

  lemma LookKeepsTasks(c: Config, s: State, t: nat)
    requires Inv(c, s) && t < |s.tasks| && s.tasks[t].phase.Started?
    ensures forall k :: 0 <= k < |s.tasks| ==> TaskOk(c, DoLook(c, s, t), DoLook(c, s, t).tasks[k])
  {
    var s' := DoLook(c, s, t);
    forall k | 0 <= k < |s.tasks| ensures TaskOk(c, s', s'.tasks[k]) {
      if k == t { assert TaskOk(c, s, s.tasks[t]); } else { OthersStay(c, s, s', t, k); }
    }
  }

  lemma FetchIsSpaced(fetches: seq<Fetch>, clock: int, wait: int)
    requires Spaced(fetches, clock, wait)
    requires fetches != [] ==> !fetches[|fetches| - 1].result.Pending?
    requires fetches != [] && fetches[|fetches| - 1].result.Failed? ==> fetches[|fetches| - 1].start + wait <= clock
    ensures Spaced(fetches + [Fetch(clock, Pending)], clock, wait)
  {
    var n := |fetches|;
    assert forall i :: 0 <= i < n && fetches[i].result.Failed? ==>
        fetches[i].start + wait <= clock && fetches[i].start <= fetches[n - 1].start;
  }

  lemma ConcludedIsSpaced(fetches: seq<Fetch>, clock: int, wait: int, r: Result)
    requires Spaced(fetches, clock, wait)
    ensures Spaced(Conclude(fetches, r), clock, wait)
  {
  }

  lemma LookKeepsFetches(c: Config, s: State, t: nat)
    requires Inv(c, s) && t < |s.tasks| && s.tasks[t].phase.Started?
    ensures FetchInv(c, DoLook(c, s, t))
  {
    if |DoLook(c, s, t).fetches| > |s.fetches| {
      FetchIsSpaced(s.fetches, s.clock, Max(c.retryAfter, 0));
    }
  }

  lemma AnswerKeepsTasks(c: Config, s: State, t: nat, offered: Option<seq<Offered>>)
    requires Inv(c, s) && t < |s.tasks| && s.tasks[t].phase.Fetching?
    ensures forall k :: 0 <= k < |s.tasks| ==> TaskOk(c, DoAnswer(c, s, t, offered), DoAnswer(c, s, t, offered).tasks[k])
  {
    var s' := DoAnswer(c, s, t, offered);
    forall k | 0 <= k < |s.tasks| ensures TaskOk(c, s', s'.tasks[k]) {
      if k == t {
        assert TaskOk(c, s, s.tasks[t]);
        if s'.tasks[t].fetched {
          assert s'.good[|s.good|] == Entry(s'.tasks[t].phase.keys, s'.tasks[t].phase.now);
        }
      } else {
        OthersStay(c, s, s', t, k);
      }
    }
  }

  lemma GoodGrows(good: seq<Entry>, clock: int, e: Entry)
    requires GoodInv(good, clock) && e.keys != [] && e.fetchedAt <= clock
    requires good != [] ==> good[|good| - 1].fetchedAt <= e.fetchedAt
    ensures GoodInv(good + [e], clock)
  {
    assert forall i :: 0 <= i < |good| ==> good[i].fetchedAt <= good[|good| - 1].fetchedAt;
  }

  lemma AnswerKeepsCache(c: Config, s: State, t: nat, offered: Option<seq<Offered>>)
    requires Inv(c, s) && t < |s.tasks| && s.tasks[t].phase.Fetching?
    ensures CacheInv(DoAnswer(c, s, t, offered))
  {
    assert TaskOk(c, s, s.tasks[t]);
    var keys := if offered.Some? then UsableKeys(offered.value) else [];
    if keys != [] {
      GoodGrows(s.good, s.clock, Entry(keys, s.tasks[t].phase.now));
    }
  }

  lemma AnswerKeepsFetches(c: Config, s: State, t: nat, offered: Option<seq<Offered>>)
    requires Inv(c, s) && t < |s.tasks| && s.tasks[t].phase.Fetching?
    ensures FetchInv(c, DoAnswer(c, s, t, offered))
  {
    assert TaskOk(c, s, s.tasks[t]);
    var keys := if offered.Some? then UsableKeys(offered.value) else [];
    ConcludedIsSpaced(s.fetches, s.clock, Max(c.retryAfter, 0), if keys != [] then Succeeded else Failed);
  }

  lemma LookKeepsInv(c: Config, s: State, t: nat)
    requires Inv(c, s)
    ensures Inv(c, DoLook(c, s, t))
  {
    if t < |s.tasks| && s.tasks[t].phase.Started? {
      LookKeepsTasks(c, s, t);
      LookKeepsFetches(c, s, t);
    }
  }

  lemma AnswerKeepsInv(c: Config, s: State, t: nat, offered: Option<seq<Offered>>)
    requires Inv(c, s)
    ensures Inv(c, DoAnswer(c, s, t, offered))
  {
    if t < |s.tasks| && s.tasks[t].phase.Fetching? {
      AnswerKeepsTasks(c, s, t, offered);
      AnswerKeepsCache(c, s, t, offered);
      AnswerKeepsFetches(c, s, t, offered);
      assert FlightInv(DoAnswer(c, s, t, offered));
    }
  }

  lemma StepKeepsInv(c: Config, s: State, e: Event)
    requires Inv(c, s)
    ensures Inv(c, Step(c, s, e))
  {
    match e
    case Tick(n) => TickKeepsInv(c, s, n);
    case Ask => AskKeepsInv(c, s);
    case Look(t) => LookKeepsInv(c, s, t);
    case Answer(t, offered) => AnswerKeepsInv(c, s, t, offered);
    case Close(t) => CloseKeepsInv(c, s, t);
  }

  lemma {:induction false} ReachableInv(c: Config, clock: nat, es: seq<Event>)
    ensures Inv(c, Run(c, Start(clock), es))
  {
    if es != [] {
      ReachableInv(c, clock, es[..|es| - 1]);
      StepKeepsInv(c, Run(c, Start(clock), es[..|es| - 1]), es[|es| - 1]);
    }
  }

  // ---------------------------------------------------------------- what every run guarantees

  /** At most one resolution is open at any time. */
  lemma SingleFlight(c: Config, clock: nat, es: seq<Event>, t: nat, u: nat)
    requires var s := Run(c, Start(clock), es);
             t < |s.tasks| && u < |s.tasks| && !s.tasks[t].phase.Closed? && !s.tasks[u].phase.Closed?
    ensures t == u
  {
    ReachableInv(c, clock, es);
  }

  /** After a failed fetch, no later fetch starts sooner than the back-off, counted from the start of the failed one. */
  lemma FailuresHoldBack(c: Config, clock: nat, es: seq<Event>, i: nat, j: nat)
    requires var s := Run(c, Start(clock), es); i < j < |s.fetches| && s.fetches[i].result.Failed?
    ensures var s := Run(c, Start(clock), es); s.fetches[i].start + c.retryAfter <= s.fetches[j].start
  {
    ReachableInv(c, clock, es);
  }

  /** A first fetch that fails after `took` seconds, and a second request `gap` seconds after the failure. */
  function AfterFailure(c: Config, clock: nat, took: nat, gap: nat): State {
    var s1 := Step(c, Step(c, Start(clock), Ask), Look(0));
    var s2 := Step(c, Step(c, s1, Tick(took)), Answer(0, None));
    var s3 := Step(c, Step(c, s2, Close(0)), Tick(gap));
    Step(c, Step(c, s3, Ask), Look(1))
  }

  /**
   * The back-off counts from the start of the failed fetch, so the second request fetches if and only
   * if `took` and `gap` together reach it: at once, if the failure took that long.
   */
  lemma SecondFetchIff(c: Config, clock: nat, took: nat, gap: nat)
    ensures var fetches := AfterFailure(c, clock, took, gap).fetches;
            && (|fetches| == 2 <==> took + gap >= c.retryAfter)
            && (|fetches| == 2 ==> fetches == [Fetch(clock, Failed), Fetch(clock + took + gap, Pending)])
  {
    var s1 := Step(c, Step(c, Start(clock), Ask), Look(0));
    assert s1.tasks == [Task(Fetching(None, clock), 0, false)] && s1.fetches == [Fetch(clock, Pending)];
    var s2 := Step(c, Step(c, s1, Tick(took)), Answer(0, None));
    assert s2.tasks == [Task(Settled([], clock), 0, false)] && s2.fetches == [Fetch(clock, Failed)];
    var s3 := Step(c, Step(c, s2, Close(0)), Tick(gap));
    assert s3.inFlight == None && |s3.tasks| == 1 && s3.clock == clock + took + gap && s3.cached == None;
    var s4 := Step(c, s3, Ask);
    assert s4.tasks[1] == Task(Started(None), 0, false) && s4.fetches == [Fetch(clock, Failed)];
  }

  /**
   * Once a good answer with timestamp `f` is stored, every resolution that begins afterwards and
   * reads the clock before f + staleTtl contributes keys, whatever fails.
   */
  lemma GracePeriodHolds(c: Config, clock: nat, es: seq<Event>, t: nat, i: nat)
    requires var s := Run(c, Start(clock), es);
             && t < |s.tasks| && Answered(s.tasks[t].phase) && i < s.tasks[t].seen <= |s.good|
             && s.tasks[t].phase.now < s.good[i].fetchedAt + c.staleTtl
    ensures Run(c, Start(clock), es).tasks[t].phase.keys != []
  {
    ReachableInv(c, clock, es);
    GraceFromInv(c, Run(c, Start(clock), es), t, i);
  }

  lemma GraceFromInv(c: Config, s: State, t: nat, i: nat)
    requires Inv(c, s) && t < |s.tasks| && Answered(s.tasks[t].phase) && i < s.tasks[t].seen <= |s.good|
    requires s.tasks[t].phase.now < s.good[i].fetchedAt + c.staleTtl
    ensures s.tasks[t].phase.keys != []
  {
    assert TaskOk(c, s, s.tasks[t]);
    assert s.good[i].fetchedAt <= s.good[s.tasks[t].seen - 1].fetchedAt;
  }

  /**
   * The exact answer: nothing if and only if this resolution fetched nothing and the last good
   * answer, if there was one, is past both of its lifetimes; otherwise either the fetched keys, or
   * all the keys of the last good answer stored before the resolution began.
   */
  lemma EmptyAnswerIff(c: Config, clock: nat, es: seq<Event>, t: nat)
    requires t < |Run(c, Start(clock), es).tasks| && Answered(Run(c, Start(clock), es).tasks[t].phase)
    ensures var s := Run(c, Start(clock), es);
            && s.tasks[t].seen <= |s.good|
            && (s.tasks[t].phase.keys == [] <==> !s.tasks[t].fetched && Forgotten(c, s, s.tasks[t]))
            && (!s.tasks[t].fetched && s.tasks[t].phase.keys != [] ==>
                  s.tasks[t].seen > 0 && s.tasks[t].phase.keys == s.good[s.tasks[t].seen - 1].keys)
  {
    ReachableInv(c, clock, es);
    AnswerFromInv(c, Run(c, Start(clock), es), t);
  }

  /** No good answer had been stored, or the last one is past both of its lifetimes. */
  predicate Forgotten(c: Config, s: State, t: Task)
    requires Answered(t.phase) && t.seen <= |s.good|
  {
    t.seen == 0 || t.phase.now >= s.good[t.seen - 1].fetchedAt + Max(c.staleTtl, c.cacheTtl)
  }

  lemma AnswerFromInv(c: Config, s: State, t: nat)
    requires Inv(c, s) && t < |s.tasks| && Answered(s.tasks[t].phase)
    ensures s.tasks[t].seen <= |s.good|
    ensures s.tasks[t].phase.keys == [] <==> !s.tasks[t].fetched && Forgotten(c, s, s.tasks[t])
    ensures !s.tasks[t].fetched && s.tasks[t].phase.keys != [] ==>
              s.tasks[t].seen > 0 && s.tasks[t].phase.keys == s.good[s.tasks[t].seen - 1].keys
  {
    assert TaskOk(c, s, s.tasks[t]);
  }

  // ---------------------------------------------------------------- only offered public keys are passed on

  lemma {:induction false} UsableKeysMembers(o: seq<Offered>, k: Jwk)
    ensures k in UsableKeys(o) <==> Key(k) in o && !CarriesSecret(k)
  {
    if o != [] {
      UsableKeysMembers(o[1..], k);
      assert o == [o[0]] + o[1..];
    }
  }

  /** Some answer of the peer in this run listed the key, and it has neither of the two members. */
  ghost predicate OfferedIn(es: seq<Event>, k: Jwk) {
    !CarriesSecret(k) && exists i :: 0 <= i < |es| && es[i].Answer? && es[i].offered.Some? && Key(k) in es[i].offered.value
  }

  ghost predicate AllOffered(es: seq<Event>, keys: seq<Jwk>) {
    forall k :: k in keys ==> OfferedIn(es, k)
  }

  function CachedKeys(c: Option<Entry>): seq<Jwk> {
    if c.Some? then c.value.keys else []
  }

  function PhaseKeys(p: Phase): seq<Jwk> {
    match p
    case Started(c) => CachedKeys(c)
    case Fetching(c, _) => CachedKeys(c)
    case Settled(keys, _) => keys
    case Closed(keys, _) => keys
  }

  ghost predicate SourceInv(es: seq<Event>, s: State) {
    && AllOffered(es, CachedKeys(s.cached))
    && forall t :: 0 <= t < |s.tasks| ==> AllOffered(es, PhaseKeys(s.tasks[t].phase))
  }

  lemma OfferedStays(es: seq<Event>, e: Event, keys: seq<Jwk>)
    requires AllOffered(es, keys)
    ensures AllOffered(es + [e], keys)
  {
    forall k | k in keys ensures OfferedIn(es + [e], k) {
      var i :| 0 <= i < |es| && es[i].Answer? && es[i].offered.Some? && Key(k) in es[i].offered.value;
      assert (es + [e])[i] == es[i];
    }
  }

  lemma AnswerIsOffered(es: seq<Event>, t: nat, offered: seq<Offered>)
    ensures AllOffered(es + [Answer(t, Some(offered))], UsableKeys(offered))
  {
    var all := es + [Answer(t, Some(offered))];
    forall k | k in UsableKeys(offered) ensures OfferedIn(all, k) {
      UsableKeysMembers(offered, k);
      assert all[|es|].Answer?;
    }
  }

  /** The keys a task holds after an event are ones it, the cache or this very answer held before. */
  lemma PhaseKeysComeFrom(c: Config, s: State, e: Event, t: nat)
    requires t < |Step(c, s, e).tasks|
    ensures var keys := PhaseKeys(Step(c, s, e).tasks[t].phase);
            || (t < |s.tasks| && forall k :: k in keys ==> k in PhaseKeys(s.tasks[t].phase))
            || keys == CachedKeys(s.cached)
            || (e.Answer? && e.offered.Some? && keys == UsableKeys(e.offered.value))
  {
  }

  lemma StepKeepsSource(c: Config, s: State, es: seq<Event>, e: Event)
    requires SourceInv(es, s)
    ensures SourceInv(es + [e], Step(c, s, e))
  {
    var s' := Step(c, s, e);
    OfferedStays(es, e, CachedKeys(s.cached));
    if e.Answer? && e.offered.Some? { AnswerIsOffered(es, e.task, e.offered.value); }
    forall t | 0 <= t < |s'.tasks| ensures AllOffered(es + [e], PhaseKeys(s'.tasks[t].phase)) {
      PhaseKeysComeFrom(c, s, e, t);
      if t < |s.tasks| { OfferedStays(es, e, PhaseKeys(s.tasks[t].phase)); }
    }
  }

  lemma {:induction false} ReachableSource(c: Config, clock: nat, es: seq<Event>)
    ensures SourceInv(es, Run(c, Start(clock), es))
  {
    if es != [] {
      var most := es[..|es| - 1];
      ReachableSource(c, clock, most);
      StepKeepsSource(c, Run(c, Start(clock), most), most, es[|es| - 1]);
      assert most + [es[|es| - 1]] == es;
    }
  }

  /**
   * Every key any resolution ever contributes was listed by the peer in some answer of the same run,
   * and has neither a `d` nor a `k`.
   */
  lemma OnlyOfferedKeysArePassedOn(c: Config, clock: nat, es: seq<Event>, t: nat, k: Jwk)
    requires var s := Run(c, Start(clock), es);
             t < |s.tasks| && Answered(s.tasks[t].phase) && k in s.tasks[t].phase.keys
    ensures OfferedIn(es, k)
  {
    ReachableSource(c, clock, es);
    var s := Run(c, Start(clock), es);
    assert AllOffered(es, PhaseKeys(s.tasks[t].phase));
  }

  ghost predicate Contributes(c: Config, clock: nat, es: seq<Event>, t: int, k: Jwk) {
    var s := Run(c, Start(clock), es);
    0 <= t < |s.tasks| && Answered(s.tasks[t].phase) && k in s.tasks[t].phase.keys
  }

  /** A peer that answers with one key. */
  function AnswerWith(k: Jwk): seq<Event> {
    [Ask, Look(0), Answer(0, Some([Key(k)]))]
  }

  lemma KeyGetsThrough(c: Config, clock: nat, k: Jwk)
    requires !CarriesSecret(k)
    ensures Contributes(c, clock, AnswerWith(k), 0, k)
  {
    var es := AnswerWith(k);
    var s0 := Start(clock);
    assert es[..0] == [] && es[..1] == [Ask] && es[..2] == [Ask, Look(0)] && es[..3] == es;
    assert es[..1][..0] == [] && es[..2][..1] == es[..1] && es[..3][..2] == es[..2];
    assert Run(c, s0, []) == s0;
    var s1 := Step(c, s0, Ask);
    assert Run(c, s0, es[..1]) == s1;
    var s2 := Step(c, s1, Look(0));
    assert Run(c, s0, es[..2]) == s2;
    assert s2.tasks == [Task(Fetching(None, clock), 0, false)];
    var s3 := Step(c, s2, es[2]);
    assert Run(c, s0, es) == s3;
    UsableKeysMembers([Key(k)], k);
    assert Key(k) in [Key(k)];
  }

  /**
   * Exactly what can be passed on: any key without `d` and `k`.  Other private members, such as the
   * `p`, `q` and `dp` of an RSA key whose `d` is missing, do not stop one.
   */
  lemma PassedOnIff(c: Config, clock: nat, k: Jwk)
    ensures (exists es, t :: Contributes(c, clock, es, t, k)) <==> !CarriesSecret(k)
  {
    if !CarriesSecret(k) {
      KeyGetsThrough(c, clock, k);
    }
    forall es, t | Contributes(c, clock, es, t, k) ensures !CarriesSecret(k) {
      OnlyOfferedKeysArePassedOn(c, clock, es, t, k);
    }
  }

  // ---------------------------------------------------------------- the published set

  datatype Collected = Collected(keys: seq<Jwk>, incomplete: bool)

  function Flatten(perPeer: seq<seq<Jwk>>): seq<Jwk> {
    if perPeer == [] then [] else perPeer[0] + Flatten(perPeer[1..])
  }

  function Collect(perPeer: seq<seq<Jwk>>): Collected {
    Collected(Flatten(perPeer), exists i :: 0 <= i < |perPeer| && perPeer[i] == [])
  }

  /** The document holds all keys each peer contributed. */
  lemma {:induction false} CollectHoldsEveryPeer(perPeer: seq<seq<Jwk>>, i: nat, k: nat)
    requires i < |perPeer| && k < |perPeer[i]|
    ensures perPeer[i][k] in Collect(perPeer).keys
  {
    if i > 0 {
      CollectHoldsEveryPeer(perPeer[1..], i - 1, k);
    }
  }

  /** It is reported complete exactly when it holds a key of every configured peer. */
  lemma CompleteIff(perPeer: seq<seq<Jwk>>)
    ensures !Collect(perPeer).incomplete <==>
              forall i :: 0 <= i < |perPeer| ==> exists key :: key in perPeer[i] && key in Collect(perPeer).keys
  {
    forall i | 0 <= i < |perPeer| && perPeer[i] != []
      ensures exists key :: key in perPeer[i] && key in Collect(perPeer).keys
    {
      CollectHoldsEveryPeer(perPeer, i, 0);
      assert perPeer[i][0] in perPeer[i];
    }
  }

  function KeyId(k: Jwk): string {
    if k.kid != "" then k.kid else k.text
  }

  ghost predicate HasId(keys: seq<Jwk>, id: string) {
    exists i :: 0 <= i < |keys| && KeyId(keys[i]) == id
  }

  /** What merging means: the own keys first, then the first key of each further id, in order. */
  ghost function Merged(own: seq<Jwk>, peers: seq<Jwk>): seq<Jwk> {
    if peers == [] then own
    else
      var m := Merged(own, peers[..|peers| - 1]);
      var last := peers[|peers| - 1];
      if HasId(m, KeyId(last)) then m else m + [last]
  }

  method MergeJwks(own: seq<Jwk>, peers: seq<Jwk>) returns (keys: seq<Jwk>)
    ensures keys == Merged(own, peers)
  {
    keys := own;
    var seen := set i | 0 <= i < |own| :: KeyId(own[i]);
    var i := 0;
    while i < |peers|
      invariant 0 <= i <= |peers|
      invariant keys == Merged(own, peers[..i])
      invariant forall id :: id in seen <==> HasId(keys, id)
    {
      assert peers[..i + 1][..i] == peers[..i];
      var id := KeyId(peers[i]);
      if id !in seen {
        seen := seen + {id};
        IdsAfterAppend(keys, peers[i]);
        keys := keys + [peers[i]];
      }
      i := i + 1;
    }
    assert peers[..i] == peers;
  }

  lemma IdsAfterAppend(keys: seq<Jwk>, k: Jwk)
    ensures forall id :: HasId(keys + [k], id) <==> HasId(keys, id) || id == KeyId(k)
  {
    forall id ensures HasId(keys + [k], id) <==> HasId(keys, id) || id == KeyId(k) {
      var all := keys + [k];
      assert KeyId(all[|keys|]) == KeyId(k);
      if HasId(keys, id) {
        var i :| 0 <= i < |keys| && KeyId(keys[i]) == id;
        assert KeyId(all[i]) == id;
      }
      if HasId(all, id) {
        var i :| 0 <= i < |all| && KeyId(all[i]) == id;
        assert i < |keys| ==> KeyId(keys[i]) == id;
      }
    }
  }

  /** Own keys stay in front, every id is published, and nothing appended repeats an id. */
  lemma {:induction false} MergeIsLossless(own: seq<Jwk>, peers: seq<Jwk>)
    ensures own <= Merged(own, peers)
    ensures forall id :: HasId(Merged(own, peers), id) <==> HasId(own, id) || HasId(peers, id)
    ensures forall i :: |own| <= i < |Merged(own, peers)| ==>
              Merged(own, peers)[i] in peers && !HasId(Merged(own, peers)[..i], KeyId(Merged(own, peers)[i]))
  {
    if peers != [] {
      var n := |peers| - 1;
      MergeIsLossless(own, peers[..n]);
      IdsAfterAppend(peers[..n], peers[n]);
      assert peers[..n] + [peers[n]] == peers;
      var m := Merged(own, peers[..n]);
      IdsAfterAppend(m, peers[n]);
      var r := Merged(own, peers);
      forall i | |own| <= i < |r| ensures r[i] in peers && !HasId(r[..i], KeyId(r[i])) {
        assert r[..i] == m[..i] || i == |m|;
        if i == |m| { assert r[..i] == m; } else { assert r[i] == m[i]; }
      }
    }
  }
}

/**
 * Local sign-in put together: the browser flow, the identity record of one mailbox and the attempt
 * limits run side by side.  A password or second-factor submission carries the verdict of its own
 * counted attempt; a second factor for the mailbox carries the outcome of its own record update.
 */
module LocalSignIn {
  import opened Basics
  import P = Protocol
  import PI = ProtocolInvariant
  import PR = ProtocolRuns
  import R = RecordStore
  import RH = RecordHistory
  import RS = RecordSafety
  import LR = LocalRecords
  import L = Limits
  import C = CounterStore
  import T = Transaction
  import S = Session

  datatype Env = Env(cfg: P.Config, store: R.Env, policy: L.Policy, mailbox: string)

  /** An attempt that was counted, and whether the limits let it through. */
  datatype Permit = Permit(attempt: L.Attempt, allowed: bool)

  /** A completed second-factor authentication of the mailbox and the record update it rests on. */
  datatype SignIn = SignIn(proof: P.Proof, task: nat)

  /** `ops`, the used sets and `signIns` are history. */
  datatype World = World(
    flow: P.State, records: R.State, counters: C.Table<L.LimitKey>,
    ops: seq<L.Op>, permits: seq<Permit>, usedPermits: set<nat>, usedTasks: set<nat>, signIns: seq<SignIn>)

  datatype Verdict = ByTask(task: nat) | Elsewhere(accepted: bool)

  datatype Action =
    | Browse(input: P.Input)
    | Work(event: R.Event)
    | OtherCounter(name: string, ttl: int, failClosed: bool)
    | Attempt(email: string, factor: L.Factor, network: Option<string>)
    | Password(tx: T.Tx, permit: nat, matches: bool, presented: Option<S.Session>, sid: string, jti: string)
    | Second(tx: T.Tx, permit: nat, verdict: Verdict, presented: Option<S.Session>, sid: string, jti: string)

  /** Each counted attempt is for one submission, of its own factor and address. */
  predicate Holds(w: World, permit: nat, tx: T.Tx, factor: L.Factor) {
    && permit < |w.permits| && permit !in w.usedPermits
    && w.permits[permit].attempt.factor == factor && tx.email == Some(w.permits[permit].attempt.email)
  }

  /** Each record update answers one submission; it has ended, and was asked for by a second factor. */
  predicate Answers(env: Env, w: World, tx: T.Tx, verdict: Verdict) {
    match verdict
    case Elsewhere(_) => tx.email != Some(env.mailbox)
    case ByTask(t) =>
      && t < |w.records.tasks| && t !in w.usedTasks
      && (w.records.tasks[t].phase.Finished? || w.records.tasks[t].phase.Refused?)
      && (w.records.tasks[t].change.Some? ==> !w.records.tasks[t].change.value.RetainToken?)
  }

  function AcceptedBy(w: World, verdict: Verdict): bool {
    match verdict
    case Elsewhere(accepted) => accepted
    case ByTask(t) => t < |w.records.tasks| && w.records.tasks[t].phase == R.Finished(true)
  }

  /** The input a submission amounts to; anything else is itself. */
  function InputOf(w: World, a: Action): Option<P.Input> {
    match a
    case Browse(i) => if i.PasswordIn? || i.MfaIn? then None else Some(i)
    case Password(tx, permit, matches, presented, sid, jti) =>
      if Holds(w, permit, tx, L.Password) then Some(P.PasswordIn(tx, w.permits[permit].allowed, matches, presented, sid, jti)) else None
    case Second(tx, permit, verdict, presented, sid, jti) =>
      if Holds(w, permit, tx, L.Mfa) then Some(P.MfaIn(tx, w.permits[permit].allowed, AcceptedBy(w, verdict), presented, sid, jti))
      else None
    case _ => None
  }

  /** What a second-factor submission leaves in the history. */
  function NewSignIns(env: Env, w: World, i: P.Input, verdict: Verdict): seq<SignIn>
    requires P.Admissible(w.flow, i)
  {
    var e := P.Respond(env.cfg, w.flow, i);
    if verdict.ByTask? && e.Complete? then [SignIn(e.proof, verdict.task)] else []
  }

  function Act(env: Env, w: World, a: Action): World
    requires L.ValidPolicy(env.policy)
  {
    match a
    case Work(ev) => w.(records := R.Step(env.store, w.records, ev))
    case OtherCounter(name, ttl, failClosed) =>
      var op := L.Traffic(w.flow.now, name, ttl, failClosed);
      w.(counters := L.AfterOp(env.policy, w.counters, op), ops := w.ops + [op])
    case Attempt(email, factor, network) =>
      var attempt := L.Attempt(w.flow.now, email, factor, network);
      w.(counters := L.AfterOp(env.policy, w.counters, L.Try(attempt)), ops := w.ops + [L.Try(attempt)],
         permits := w.permits + [Permit(attempt, L.Allowed(env.policy, w.counters, attempt))])
    case Browse(_) =>
      var i := InputOf(w, a);
      if i.None? then w else w.(flow := PR.Take(env.cfg, w.flow, i.value))
    case Password(_, permit, _, _, _, _) =>
      var i := InputOf(w, a);
      if i.None? || !P.Admissible(w.flow, i.value) then w
      else w.(flow := P.Step(env.cfg, w.flow, i.value), usedPermits := w.usedPermits + {permit})
    case Second(tx, permit, verdict, _, _, _) =>
      var i := InputOf(w, a);
      if i.None? || !P.Admissible(w.flow, i.value) || !Answers(env, w, tx, verdict) then w
      else w.(flow := P.Step(env.cfg, w.flow, i.value), usedPermits := w.usedPermits + {permit},
              usedTasks := if verdict.ByTask? then w.usedTasks + {verdict.task} else w.usedTasks,
              signIns := w.signIns + NewSignIns(env, w, i.value, verdict))
  }

  function Acts(env: Env, w: World, actions: seq<Action>): World
    requires L.ValidPolicy(env.policy)
  {
    if actions == [] then w else Act(env, Acts(env, w, actions[..|actions| - 1]), actions[|actions| - 1])
  }

  ghost predicate Beginning(env: Env, w: World) {
    && P.Init(w.flow)
    && (exists doc :: LR.Parse(env.store.checks, doc, env.store.key).Some? && w.records == R.Start(env.store, doc))
    && w.counters == C.Table([], map[]) && w.ops == [] && w.permits == [] && w.usedPermits == {} && w.usedTasks == {}
    && w.signIns == []
  }

  // ---------------------------------------------------------------- the limits

  ghost predicate CountsOk(env: Env, w: World)
    requires L.ValidPolicy(env.policy)
  {
    && L.Ordered(w.ops) && (forall i :: 0 <= i < |w.ops| ==> L.TimeOf(w.ops[i]) <= w.flow.now)
    && w.counters == L.TableAfter(env.policy, C.Table([], map[]), w.ops)
  }

  /** The counted attempts that were let through for one bucket. */
  function LetThrough(env: Env, permits: seq<Permit>, key: L.LimitKey): set<nat>
    requires L.ValidPolicy(env.policy)
  {
    set p | 0 <= p < |permits| && permits[p].allowed && L.AddressKey(env.policy, permits[p].attempt) == key :: p
  }

  ghost predicate PermitsOk(env: Env, w: World, key: L.LimitKey)
    requires L.ValidPolicy(env.policy)
  {
    |LetThrough(env, w.permits, key)| == L.AllowedCount(env.policy, C.Table([], map[]), w.ops, key)
  }

  lemma OpKeepsCounts(env: Env, w: World, op: L.Op)
    requires L.ValidPolicy(env.policy) && CountsOk(env, w) && L.TimeOf(op) == w.flow.now
    ensures CountsOk(env, w.(counters := L.AfterOp(env.policy, w.counters, op), ops := w.ops + [op]))
  {
    L.OneMoreOp(env.policy, C.Table([], map[]), w.ops, op, L.OtherKey(""));
  }

  lemma PermitCounts(env: Env, permits: seq<Permit>, p: Permit, key: L.LimitKey)
    requires L.ValidPolicy(env.policy)
    ensures |LetThrough(env, permits + [p], key)|
            == |LetThrough(env, permits, key)| + if p.allowed && L.AddressKey(env.policy, p.attempt) == key then 1 else 0
  {
    var more := permits + [p];
    var before := LetThrough(env, permits, key);
    assert forall i :: 0 <= i < |permits| ==> more[i] == permits[i];
    assert more[|permits|] == p;
    forall i: nat ensures i in LetThrough(env, more, key) <==>
        i in before || (i == |permits| && p.allowed && L.AddressKey(env.policy, p.attempt) == key)
    {
    }
    if p.allowed && L.AddressKey(env.policy, p.attempt) == key {
      assert LetThrough(env, more, key) == before + {|permits|};
    } else {
      assert LetThrough(env, more, key) == before;
    }
  }

  lemma AttemptKeepsPermits(env: Env, w: World, a: Action, key: L.LimitKey)
    requires L.ValidPolicy(env.policy) && CountsOk(env, w) && PermitsOk(env, w, key) && a.Attempt?
    ensures PermitsOk(env, Act(env, w, a), key)
  {
    var attempt := L.Attempt(w.flow.now, a.email, a.factor, a.network);
    L.OneMoreOp(env.policy, C.Table([], map[]), w.ops, L.Try(attempt), key);
    PermitCounts(env, w.permits, Permit(attempt, L.Allowed(env.policy, w.counters, attempt)), key);
  }

  lemma TrafficKeepsPermits(env: Env, w: World, a: Action, key: L.LimitKey)
    requires L.ValidPolicy(env.policy) && CountsOk(env, w) && PermitsOk(env, w, key) && a.OtherCounter?
    ensures PermitsOk(env, Act(env, w, a), key)
  {
    L.OneMoreOp(env.policy, C.Table([], map[]), w.ops, L.Traffic(w.flow.now, a.name, a.ttl, a.failClosed), key);
  }

  lemma FlowTimeGrows(env: Env, w: World, a: Action)
    requires L.ValidPolicy(env.policy)
    ensures w.flow.now <= Act(env, w, a).flow.now
  {
    var i := InputOf(w, a);
    if i.Some? && P.Admissible(w.flow, i.value) {
      PR.StepGrows(env.cfg, w.flow, i.value);
    }
  }

  lemma ActKeepsLimits(env: Env, w: World, a: Action, key: L.LimitKey)
    requires L.ValidPolicy(env.policy) && CountsOk(env, w) && PermitsOk(env, w, key)
    ensures CountsOk(env, Act(env, w, a)) && PermitsOk(env, Act(env, w, a), key)
  {
    FlowTimeGrows(env, w, a);
    match a
    case Attempt(email, factor, network) =>
      OpKeepsCounts(env, w, L.Try(L.Attempt(w.flow.now, email, factor, network)));
      AttemptKeepsPermits(env, w, a, key);
    case OtherCounter(name, ttl, failClosed) =>
      OpKeepsCounts(env, w, L.Traffic(w.flow.now, name, ttl, failClosed));
      TrafficKeepsPermits(env, w, a, key);
    case _ =>
  }

  lemma {:induction false} LimitsHold(env: Env, w: World, actions: seq<Action>, key: L.LimitKey)
    requires L.ValidPolicy(env.policy) && Beginning(env, w)
    ensures CountsOk(env, Acts(env, w, actions)) && PermitsOk(env, Acts(env, w, actions), key)
  {
    if actions == [] {
      assert LetThrough(env, w.permits, key) == {};
    } else {
      LimitsHold(env, w, actions[..|actions| - 1], key);
      ActKeepsLimits(env, Acts(env, w, actions[..|actions| - 1]), actions[|actions| - 1], key);
    }
  }

  /** The submissions that reached a handler with the limits' consent, for one bucket. */
  function Submitted(env: Env, w: World, key: L.LimitKey): set<nat>
    requires L.ValidPolicy(env.policy)
  {
    LetThrough(env, w.permits, key) * w.usedPermits
  }

  lemma SubsetIsNoLarger(a: set<nat>, b: set<nat>)
    requires a <= b
    ensures |a| <= |b|
  {
    assert b == a + (b - a);
  }

  /**
   * Over every run, whatever else happens, at most maxAttempts passwords (or second factors) of one
   * mailbox and window reach their handler with the limits' consent.
   */
  lemma SubmissionsAreLimited(env: Env, w: World, actions: seq<Action>, factor: L.Factor, mailbox: string, bucket: int)
    requires L.ValidPolicy(env.policy) && Beginning(env, w)
    ensures |Submitted(env, Acts(env, w, actions), L.LocalKey(factor, L.Address, mailbox, bucket))| <= env.policy.maxAttempts
  {
    var key := L.LocalKey(factor, L.Address, mailbox, bucket);
    LimitsHold(env, w, actions, key);
    var end := Acts(env, w, actions);
    L.AttemptsAreLimited(env.policy, end.ops, factor, mailbox, bucket);
    SubsetIsNoLarger(Submitted(env, end, key), LetThrough(env, end.permits, key));
  }

  // ---------------------------------------------------------------- the factors

  /** A second-factor authentication of the mailbox. */
  predicate IsSecond(env: Env, p: P.Proof) {
    p.LocalProof? && p.secondFactor && p.email == env.mailbox
  }

  /** Only a second-factor submission brings second-factor evidence, and it brings its own. */
  lemma NewEvidence(cfg: P.Config, s: P.State, i: P.Input, p: P.Proof)
    requires PI.Inv(cfg, s) && P.Admissible(s, i) && p in P.Step(cfg, s, i).proofs && p !in s.proofs
    requires p.LocalProof? && p.secondFactor
    ensures i.MfaIn? && i.accepted && i.limitAllowed && i.tx.email == Some(p.email)
    ensures P.Respond(cfg, s, i).Complete? && P.Respond(cfg, s, i).proof == p
  {
    if PI.Quiet(i) {
      PI.QuietStep(cfg, s, i);
    } else {
      AppliedEvidence(cfg, P.Base(s, i), P.Respond(cfg, s, i), P.CodeIdOf(i), p);
      EffectEvidence(cfg, s, i);
    }
  }

  lemma AppliedEvidence(cfg: P.Config, s: P.State, e: P.Effect, jti: string, p: P.Proof)
    requires p in P.Apply(cfg, s, e, jti).proofs && p !in s.proofs
    ensures (e.Complete? || e.AskSecondFactor?) && e.proof == p
  {
  }

  /** The evidence an effect may add, whatever handler it came from. */
  ghost predicate NoNewSecond(s: P.State, e: P.Effect) {
    && (e.Complete? && e.proof.LocalProof? && e.proof.secondFactor ==> e.proof in s.proofs)
    && (e.AskSecondFactor? ==> !e.proof.LocalProof?)
  }

  lemma EffectEvidence(cfg: P.Config, s: P.State, i: P.Input)
    requires PI.Inv(cfg, s) && P.Admissible(s, i) && !PI.Quiet(i)
    ensures !i.MfaIn? ==> NoNewSecond(s, P.Respond(cfg, s, i))
    ensures i.MfaIn? && P.Respond(cfg, s, i).Complete? ==>
              i.accepted && i.limitAllowed && i.tx.email.Some? && P.Respond(cfg, s, i).proof.LocalProof?
              && P.Respond(cfg, s, i).proof.email == i.tx.email.value
    ensures i.MfaIn? ==> !P.Respond(cfg, s, i).AskSecondFactor?
  {
    if i.AuthorizeIn? || i.ContinueIn? {
      SessionBringsNothing(cfg, s, i);
    } else if i.EmailIn? || i.OtpRequestIn? || i.ResendIn? || i.RestartIn? || i.ChooseIn? {
      ScreensBringNothing(cfg, s, i);
    }
  }

  lemma SessionBringsNothing(cfg: P.Config, s: P.State, i: P.Input)
    requires PI.Inv(cfg, s) && P.Admissible(s, i) && (i.AuthorizeIn? || i.ContinueIn?)
    ensures NoNewSecond(s, P.Respond(cfg, s, i))
  {
    if i.presented.Some? {
      assert PI.GoodSession(s, i.presented.value, s.sessions[i.presented.value]);
    }
  }

  lemma RoutingBringsNothing(cfg: P.Config, s: P.State, tx: T.Tx, env: P.RouteEnv)
    requires tx.email.Some?
    ensures !P.Route(cfg, s, tx, env).Complete? && !P.Route(cfg, s, tx, env).AskSecondFactor?
  {
  }

  lemma ScreensBringNothing(cfg: P.Config, s: P.State, i: P.Input)
    requires P.Admissible(s, i) && (i.EmailIn? || i.OtpRequestIn? || i.ResendIn? || i.RestartIn? || i.ChooseIn?)
    ensures !P.Respond(cfg, s, i).Complete? && !P.Respond(cfg, s, i).AskSecondFactor?
  {
    if i.EmailIn? && cfg.addressOf(i.typed).Some? {
      RoutingBringsNothing(cfg, s, i.tx.(rememberMe := Some(i.remember)).(email := cfg.addressOf(i.typed)), i.env);
    }
  }

  // ---------------------------------------------------------------- record updates that have ended

  predicate Ended(t: R.Task) {
    t.phase.Finished? || t.phase.Refused?
  }

  /** A request whose update has ended stays as it is. */
  lemma EndedStays(e: R.Env, s: R.State, ev: R.Event, t: nat)
    requires t < |s.tasks| && Ended(s.tasks[t])
    ensures t < |R.Step(e, s, ev).tasks| && R.Step(e, s, ev).tasks[t] == s.tasks[t]
  {
  }

  // ---------------------------------------------------------------- one factor, one sign-in

  /** The sign-in rests on an accepted update that spent a recovery code or moved a replay marker. */
  ghost predicate Backed(w: World, x: SignIn) {
    && x.task < |w.records.tasks| && x.task in w.usedTasks && w.records.tasks[x.task].phase == R.Finished(true)
    && w.records.tasks[x.task].change.Some? && !w.records.tasks[x.task].change.value.RetainToken?
  }

  ghost predicate Listed(w: World, p: P.Proof) {
    exists k :: 0 <= k < |w.signIns| && w.signIns[k].proof == p
  }

  ghost predicate RecordsOk(env: Env, w: World) {
    && R.LockInv(w.records) && RH.HistoryInv(env.store, w.records)
    && forall t :: t in w.usedTasks ==> t < |w.records.tasks| && Ended(w.records.tasks[t])
  }

  ghost predicate SignInsOk(w: World) {
    && (forall k :: 0 <= k < |w.signIns| ==> Backed(w, w.signIns[k]))
    && (forall j, k :: 0 <= j < k < |w.signIns| ==> w.signIns[j].task != w.signIns[k].task)
  }

  ghost predicate EvidenceOk(env: Env, w: World) {
    PI.Inv(env.cfg, w.flow) && forall p :: p in w.flow.proofs && IsSecond(env, p) ==> Listed(w, p)
  }

  ghost predicate FactorsOk(env: Env, w: World) {
    RecordsOk(env, w) && SignInsOk(w) && EvidenceOk(env, w)
  }

  lemma SameSignInsStay(w: World, w': World)
    requires SignInsOk(w) && w'.signIns == w.signIns && w'.usedTasks == w.usedTasks
    requires forall t :: t in w.usedTasks && t < |w.records.tasks| ==>
               t < |w'.records.tasks| && w'.records.tasks[t] == w.records.tasks[t]
    ensures SignInsOk(w')
  {
    forall k | 0 <= k < |w'.signIns| ensures Backed(w', w'.signIns[k]) {
      assert Backed(w, w.signIns[k]);
    }
  }

  lemma SameFlowKeepsEvidence(env: Env, w: World, w': World)
    requires EvidenceOk(env, w) && w'.flow == w.flow && w.signIns <= w'.signIns
    ensures EvidenceOk(env, w')
  {
    forall p | p in w'.flow.proofs && IsSecond(env, p) ensures Listed(w', p) {
      OldStaysListed(w, w', p);
    }
  }

  lemma WorkKeepsFactors(env: Env, w: World, ev: R.Event)
    requires FactorsOk(env, w)
    ensures FactorsOk(env, w.(records := R.Step(env.store, w.records, ev)))
  {
    R.StepKeepsLock(env.store, w.records, ev);
    RH.StepKeepsHistory(env.store, w.records, ev);
    var w' := w.(records := R.Step(env.store, w.records, ev));
    forall t | t in w.usedTasks ensures t < |w'.records.tasks| && w'.records.tasks[t] == w.records.tasks[t] {
      EndedStays(env.store, w.records, ev, t);
    }
    SameSignInsStay(w, w');
    SameFlowKeepsEvidence(env, w, w');
  }

  /** A step that is not a second factor for the mailbox needs nothing listed. */
  lemma FlowKeepsEvidence(env: Env, w: World, i: P.Input, w': World)
    requires EvidenceOk(env, w) && P.Admissible(w.flow, i) && !(i.MfaIn? && i.tx.email == Some(env.mailbox))
    requires w'.flow == P.Step(env.cfg, w.flow, i) && w'.signIns == w.signIns
    ensures EvidenceOk(env, w')
  {
    PI.StepKeepsInv(env.cfg, w.flow, i);
    forall p | p in w'.flow.proofs && IsSecond(env, p) ensures Listed(w', p) {
      if p !in w.flow.proofs {
        NewEvidence(env.cfg, w.flow, i, p);
      }
      OldStaysListed(w, w', p);
    }
  }

  lemma FlowKeepsFactors(env: Env, w: World, i: P.Input, permits: set<nat>)
    requires FactorsOk(env, w) && P.Admissible(w.flow, i) && !(i.MfaIn? && i.tx.email == Some(env.mailbox))
    ensures FactorsOk(env, w.(flow := P.Step(env.cfg, w.flow, i), usedPermits := permits))
  {
    var w' := w.(flow := P.Step(env.cfg, w.flow, i), usedPermits := permits);
    SameSignInsStay(w, w');
    FlowKeepsEvidence(env, w, i, w');
  }

  /** The new sign-in, if there is one, is backed by the update that answered it. */
  lemma NewSignInIsBacked(env: Env, w: World, i: P.Input, task: nat)
    requires PI.Inv(env.cfg, w.flow) && RH.HistoryInv(env.store, w.records) && P.Admissible(w.flow, i) && i.MfaIn?
    requires Answers(env, w, i.tx, ByTask(task)) && i.accepted == AcceptedBy(w, ByTask(task))
    ensures forall x :: x in NewSignIns(env, w, i, ByTask(task)) ==>
              x.task == task && Backed(w.(usedTasks := w.usedTasks + {task}), x)
  {
    EffectEvidence(env.cfg, w.flow, i);
    assert RH.TaskOk(w.records, w.records.tasks[task]);
  }

  lemma SecondKeepsSignIns(w: World, w': World, task: nat, added: seq<SignIn>)
    requires SignInsOk(w) && w'.signIns == w.signIns + added && w'.records == w.records
    requires w'.usedTasks == w.usedTasks + {task} && task !in w.usedTasks && |added| <= 1
    requires forall x :: x in added ==> x.task == task && Backed(w', x)
    ensures SignInsOk(w')
  {
    forall k | 0 <= k < |w'.signIns| ensures Backed(w', w'.signIns[k]) {
      if k < |w.signIns| {
        assert Backed(w, w.signIns[k]);
      } else {
        assert w'.signIns[k] in added;
      }
    }
    forall j, k | 0 <= j < k < |w'.signIns| ensures w'.signIns[j].task != w'.signIns[k].task {
      assert Backed(w, w.signIns[j]);
      if k == |w.signIns| {
        assert w'.signIns[k] in added;
      }
    }
  }

  lemma SecondKeepsEvidence(env: Env, w: World, i: P.Input, task: nat, w': World)
    requires EvidenceOk(env, w) && P.Admissible(w.flow, i) && i.MfaIn?
    requires w'.flow == P.Step(env.cfg, w.flow, i) && w'.signIns == w.signIns + NewSignIns(env, w, i, ByTask(task))
    ensures EvidenceOk(env, w')
  {
    PI.StepKeepsInv(env.cfg, w.flow, i);
    forall p | p in w'.flow.proofs && IsSecond(env, p) ensures Listed(w', p) {
      if p in w.flow.proofs {
        OldStaysListed(w, w', p);
      } else {
        NewEvidence(env.cfg, w.flow, i, p);
        assert w'.signIns[|w.signIns|].proof == p;
      }
    }
  }

  /** A second factor for the mailbox, answered by a record update of its own. */
  lemma SecondKeepsFactors(env: Env, w: World, i: P.Input, task: nat, permits: set<nat>)
    requires FactorsOk(env, w) && P.Admissible(w.flow, i) && i.MfaIn?
    requires Answers(env, w, i.tx, ByTask(task)) && i.accepted == AcceptedBy(w, ByTask(task))
    ensures FactorsOk(env, w.(flow := P.Step(env.cfg, w.flow, i), usedPermits := permits,
                              usedTasks := w.usedTasks + {task}, signIns := w.signIns + NewSignIns(env, w, i, ByTask(task))))
  {
    var added := NewSignIns(env, w, i, ByTask(task));
    var w' := w.(flow := P.Step(env.cfg, w.flow, i), usedPermits := permits, usedTasks := w.usedTasks + {task},
                 signIns := w.signIns + added);
    NewSignInIsBacked(env, w, i, task);
    SecondKeepsEvidence(env, w, i, task, w');
    SecondKeepsTheRest(env, w, w', task, added);
  }

  lemma SecondKeepsTheRest(env: Env, w: World, w': World, task: nat, added: seq<SignIn>)
    requires RecordsOk(env, w) && SignInsOk(w)
    requires w'.records == w.records && w'.usedTasks == w.usedTasks + {task} && w'.signIns == w.signIns + added
    requires task < |w.records.tasks| && Ended(w.records.tasks[task]) && task !in w.usedTasks && |added| <= 1
    requires forall x :: x in added ==> x.task == task && Backed(w.(usedTasks := w.usedTasks + {task}), x)
    ensures RecordsOk(env, w') && SignInsOk(w')
  {
    forall x | x in added ensures Backed(w', x) {
      assert Backed(w.(usedTasks := w.usedTasks + {task}), x);
    }
    SecondKeepsSignIns(w, w', task, added);
  }

  lemma OldStaysListed(w: World, w': World, p: P.Proof)
    requires Listed(w, p) && w.signIns <= w'.signIns
    ensures Listed(w', p)
  {
    var k :| 0 <= k < |w.signIns| && w.signIns[k].proof == p;
    assert w'.signIns[k] == w.signIns[k];
  }

  lemma AnsweredSubmission(env: Env, w: World, a: Action, i: P.Input)
    requires L.ValidPolicy(env.policy) && FactorsOk(env, w) && a.Second? && InputOf(w, a) == Some(i)
    requires P.Admissible(w.flow, i) && Answers(env, w, a.tx, a.verdict) && a.verdict.ByTask?
    ensures FactorsOk(env, Act(env, w, a))
  {
    SecondKeepsFactors(env, w, i, a.verdict.task, w.usedPermits + {a.permit});
  }

  lemma ForeignSubmission(env: Env, w: World, a: Action, i: P.Input)
    requires L.ValidPolicy(env.policy) && FactorsOk(env, w) && a.Second? && InputOf(w, a) == Some(i)
    requires P.Admissible(w.flow, i) && Answers(env, w, a.tx, a.verdict) && a.verdict.Elsewhere?
    ensures FactorsOk(env, Act(env, w, a))
  {
    FlowKeepsFactors(env, w, i, w.usedPermits + {a.permit});
    assert w.signIns + [] == w.signIns;
  }

  lemma SubmissionKeepsFactors(env: Env, w: World, a: Action)
    requires L.ValidPolicy(env.policy) && FactorsOk(env, w) && a.Second?
    ensures FactorsOk(env, Act(env, w, a))
  {
    var i := InputOf(w, a);
    if i.Some? && P.Admissible(w.flow, i.value) && Answers(env, w, a.tx, a.verdict) {
      if a.verdict.ByTask? {
        AnsweredSubmission(env, w, a, i.value);
      } else {
        ForeignSubmission(env, w, a, i.value);
      }
    }
  }

  lemma ActKeepsFactors(env: Env, w: World, a: Action)
    requires L.ValidPolicy(env.policy) && FactorsOk(env, w)
    ensures FactorsOk(env, Act(env, w, a))
  {
    var i := InputOf(w, a);
    if a.Work? {
      WorkKeepsFactors(env, w, a.event);
    } else if a.Second? {
      SubmissionKeepsFactors(env, w, a);
    } else if a.Browse? || a.Password? {
      if i.Some? && P.Admissible(w.flow, i.value) {
        FlowKeepsFactors(env, w, i.value, Act(env, w, a).usedPermits);
      }
    } else {
      CountersKeepFactors(env, w, Act(env, w, a));
    }
  }

  lemma CountersKeepFactors(env: Env, w: World, w': World)
    requires FactorsOk(env, w)
    requires w'.flow == w.flow && w'.records == w.records && w'.usedTasks == w.usedTasks && w'.signIns == w.signIns
    ensures FactorsOk(env, w')
  {
    SameSignInsStay(w, w');
    SameFlowKeepsEvidence(env, w, w');
  }

  lemma BeginningIsOk(env: Env, w: World)
    requires Beginning(env, w)
    ensures FactorsOk(env, w)
  {
    var doc :| LR.Parse(env.store.checks, doc, env.store.key).Some? && w.records == R.Start(env.store, doc);
    StartIsOk(env.store, doc);
  }

  lemma StartIsOk(e: R.Env, doc: LR.Document)
    requires LR.Parse(e.checks, doc, e.key).Some?
    ensures R.LockInv(R.Start(e, doc)) && RH.HistoryInv(e, R.Start(e, doc))
  {
    RH.ReachableInv(e, doc, []);
    assert R.Run(e, R.Start(e, doc), []) == R.Start(e, doc);
  }

  lemma {:induction false} FactorsHold(env: Env, w: World, actions: seq<Action>)
    requires L.ValidPolicy(env.policy) && Beginning(env, w)
    ensures FactorsOk(env, Acts(env, w, actions))
  {
    if actions == [] {
      BeginningIsOk(env, w);
    } else {
      FactorsHold(env, w, actions[..|actions| - 1]);
      ActKeepsFactors(env, Acts(env, w, actions[..|actions| - 1]), actions[|actions| - 1]);
    }
  }

  /**
   * Over every run, each second-factor authentication of the mailbox rests on a record update of its
   * own that spent a recovery code or moved a replay marker, and no two of them on the same recovery
   * code or the same authenticator and time-step.
   */
  lemma OneFactorOneSignIn(env: Env, w: World, actions: seq<Action>)
    requires L.ValidPolicy(env.policy) && Beginning(env, w)
    ensures var end := Acts(env, w, actions);
            && (forall p :: p in end.flow.proofs && IsSecond(env, p) ==> Listed(end, p))
            && (forall k :: 0 <= k < |end.signIns| ==> Backed(end, end.signIns[k]))
            && (forall j, k :: 0 <= j < k < |end.signIns| ==>
                  end.records.tasks[end.signIns[j].task].change != end.records.tasks[end.signIns[k].task].change)
  {
    FactorsHold(env, w, actions);
    var end := Acts(env, w, actions);
    forall j, k | 0 <= j < k < |end.signIns|
      ensures end.records.tasks[end.signIns[j].task].change != end.records.tasks[end.signIns[k].task].change
    {
      assert Backed(end, end.signIns[j]) && Backed(end, end.signIns[k]);
      RS.AcceptedFactorsDiffer(env.store, end.records, end.signIns[j].task, end.signIns[k].task);
    }
  }
}

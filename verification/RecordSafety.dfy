/** The guarantees of the record store over every schedule of requests. */
module RecordSafety {
  import opened Basics
  import opened LocalRecords
  import opened SecondFactor
  import opened RecordStore
  import opened RecordHistory

  // ---------------------------------------------------------------- the promise-chain lock

  /** At any moment of any schedule at most one task is between entering and releasing. */
  lemma MutualExclusion(e: Env, doc: Document, evs: seq<Event>, t: nat, u: nat)
    requires Parse(e.checks, doc, e.key).Some?
    requires var s := Run(e, Start(e, doc), evs);
             t < |s.tasks| && u < |s.tasks| && Critical(s.tasks[t].phase) && Critical(s.tasks[u].phase)
    ensures t == u
  {
    ReachableInv(e, doc, evs);
    LockIsExclusive(Run(e, Start(e, doc), evs), t, u);
  }

  /** First come, first served: whoever has entered was preceded only by tasks that have already released. */
  lemma LockServesInOrder(e: Env, doc: Document, evs: seq<Event>, i: nat, j: nat)
    requires Parse(e.checks, doc, e.key).Some?
    requires var s := Run(e, Start(e, doc), evs);
             i < j < |s.line| && s.line[j] < |s.tasks| && !s.tasks[s.line[j]].phase.Waiting?
    ensures var s := Run(e, Start(e, doc), evs);
            s.line[i] < |s.tasks| && s.tasks[s.line[i]].phase.Finished?
  {
    ReachableInv(e, doc, evs);
    var s := Run(e, Start(e, doc), evs);
    assert InTurn(s, j);
  }

  ghost predicate Pending(s: State, t: nat) {
    t < |s.tasks| && Queued(s.tasks[t].phase) && !s.tasks[t].phase.Finished?
  }

  /** The shared lock table holds an entry exactly while some task has not released: it never leaks. */
  lemma LockTableIsTight(e: Env, doc: Document, evs: seq<Event>)
    requires Parse(e.checks, doc, e.key).Some?
    ensures var s := Run(e, Start(e, doc), evs);
            s.tail.Some? <==> exists t :: Pending(s, t)
  {
    ReachableInv(e, doc, evs);
    TableFromInv(Run(e, Start(e, doc), evs));
  }

  lemma TableFromInv(s: State)
    requires LockInv(s)
    ensures s.tail.Some? <==> exists t :: Pending(s, t)
  {
    if s.tail.Some? {
      assert Pending(s, s.line[|s.line| - 1]);
    }
  }

  ghost predicate CanMove(s: State, t: nat) {
    Pending(s, t) && (s.tasks[t].phase.Waiting? ==> Settled(s, s.tasks[t].phase.previous))
  }

  /** While anybody waits, some task can move: it is inside the lock, or its predecessor has settled. */
  lemma NoDeadlock(e: Env, doc: Document, evs: seq<Event>, t: nat)
    requires Parse(e.checks, doc, e.key).Some? && Pending(Run(e, Start(e, doc), evs), t)
    ensures exists u :: CanMove(Run(e, Start(e, doc), evs), u)
  {
    ReachableInv(e, doc, evs);
    SomebodyCanMove(Run(e, Start(e, doc), evs), t);
  }

  lemma SomebodyCanMove(s: State, t: nat)
    requires LockInv(s) && Pending(s, t)
    ensures exists u :: CanMove(s, u)
  {
    var i :| 0 <= i < |s.line| && s.line[i] == t;
    var first := FirstPending(s, i);
    assert InTurn(s, first);
    assert CanMove(s, s.line[first]);
  }

  /** The first task in line that has not released. */
  lemma {:induction false} FirstPending(s: State, i: nat) returns (first: nat)
    requires LockInv(s) && i < |s.line| && Pending(s, s.line[i])
    ensures first <= i && Pending(s, s.line[first]) && AllFinished(s, first)
  {
    if AllFinished(s, i) {
      first := i;
    } else {
      var j :| 0 <= j < i && !s.tasks[s.line[j]].phase.Finished?;
      first := FirstPending(s, j);
    }
  }

  // ---------------------------------------------------------------- no lost update

  /**
   * The history is one chain: each version is exactly its predecessor with one justified update and
   * the next revision, each was written by its own task, that task had read the predecessor, and
   * every task that reported success wrote one.
   */
  lemma NoLostUpdate(e: Env, doc: Document, evs: seq<Event>)
    requires Parse(e.checks, doc, e.key).Some?
    ensures var s := Run(e, Start(e, doc), evs);
            && Chain(e, s.versions, s.changes) && WritersOk(s) && FileTracks(e, s)
            && forall i :: 0 <= i < |s.versions| ==> s.versions[i].revision == s.versions[0].revision + i
  {
    ReachableInv(e, doc, evs);
    var s := Run(e, Start(e, doc), evs);
    forall i | 0 <= i < |s.versions| ensures s.versions[i].revision == s.versions[0].revision + i {
      RevisionsCount(e, s.versions, s.changes, i);
    }
  }

  /** A compare-and-swap is refused only if a newer version really exists: there are no spurious failures. */
  lemma RefusedOnlyIfStale(e: Env, doc: Document, evs: seq<Event>, t: nat)
    requires Parse(e.checks, doc, e.key).Some?
    requires var s := Run(e, Start(e, doc), evs); t < |s.tasks| && s.tasks[t].phase.Loaded?
    ensures var s := Run(e, Start(e, doc), evs);
            s.versions != [] && (MayWrite(s, t) <==> s.tasks[t].snapshot == Last(s.versions))
  {
    ReachableInv(e, doc, evs);
    var s := Run(e, Start(e, doc), evs);
    assert TaskOk(s, s.tasks[t]);
    if MayWrite(s, t) {
      WriterIsCurrent(e, s, t);
    }
  }

  lemma SubmitJoins(e: Env, s: State, t: nat, job: Job, u: Update)
    requires t < |s.tasks| && s.tasks[t].phase.Holding?
    requires Asked(e, job, s.tasks[t].snapshot) == Some(u) && Writable(e.checks, Updated(s.tasks[t].snapshot, u))
    ensures Step(e, s, Submit(t, job)) == Joined(s, t, Some(u))
  {
  }

  lemma LockedUpdateSucceeds(e: Env, s2: State, t: nat, r: Record, u: Update)
    requires |s2.tasks| == t + 1 && s2.tasks[t] == Task(r, Some(u), Waiting(None)) && s2.tail == Some(t)
    requires s2.file.revision == r.revision
    ensures var s3 := Step(e, s2, Enter(t));
            var s4 := Step(e, s3, Read(t, true));
            var s5 := Step(e, s4, Write(t, Written));
            var s6 := Step(e, s5, Release(t));
            && |s6.tasks| == t + 1 && s6.tasks[t].phase == Finished(true) && s6.file == Stored(Updated(r, u))
            && s6.tail == None && s6.changes == s2.changes + [u]
  {
    var s3 := Step(e, s2, Enter(t));
    assert s3.tasks[t] == Task(r, Some(u), Inside) && s3.tail == Some(t) && s3.file == s2.file;
    var s4 := Step(e, s3, Read(t, true));
    assert s4.tasks[t] == Task(r, Some(u), Loaded(r.revision)) && s4.tail == Some(t);
    var s5 := Step(e, s4, Write(t, Written));
    assert s5.tasks[t] == Task(r, Some(u), Finishing(true)) && s5.tail == Some(t);
  }

  /** A request that meets nobody else succeeds: the file holds its update and the lock is free again. */
  lemma UncontendedUpdateSucceeds(e: Env, s: State, job: Job, r: Record, u: Update)
    requires s.tail == None && Parse(e.checks, s.file, e.key) == Some(r)
    requires Asked(e, job, r) == Some(u) && Writable(e.checks, Updated(r, u))
    ensures var t := |s.tasks|;
            var s1 := Step(e, s, Find);
            var s2 := Step(e, s1, Submit(t, job));
            var s3 := Step(e, s2, Enter(t));
            var s4 := Step(e, s3, Read(t, true));
            var s5 := Step(e, s4, Write(t, Written));
            var s6 := Step(e, s5, Release(t));
            && |s6.tasks| == t + 1 && s6.tasks[t].phase == Finished(true) && s6.file == Stored(Updated(r, u))
            && s6.tail == None && s6.changes == s.changes + [u]
  {
    var t := |s.tasks|;
    var s1 := Step(e, s, Find);
    assert s1.tasks[t] == Task(r, None, Holding);
    SubmitJoins(e, s1, t, job, u);
    var s2 := Step(e, s1, Submit(t, job));
    assert s2.tasks[t] == Task(r, Some(u), Waiting(None)) && s2.tail == Some(t) && s2.file == s.file;
    LockedUpdateSucceeds(e, s2, t, r, u);
  }

  lemma {:induction false} AccountIsKept(e: Env, vs: seq<Record>, us: seq<Update>, i: nat)
    requires Chain(e, vs, us) && i < |vs|
    ensures SameAccount(vs[0], vs[i])
  {
    if i > 0 {
      AccountIsKept(e, vs, us, i - 1);
      assert Follows(vs[i - 1], us[i - 1], vs[i]);
      assert Good(e, vs[i - 1]);
      UpdateKeepsShape(e.checks, vs[i - 1], us[i - 1]);
    }
  }

  /** No schedule of factor and token updates changes the account, or drops its second-factor requirement. */
  lemma AccountOutlivesEveryRun(e: Env, doc: Document, evs: seq<Event>)
    requires Parse(e.checks, doc, e.key).Some?
    ensures var s := Run(e, Start(e, doc), evs);
            s.versions != [] && SameAccount(Parse(e.checks, doc, e.key).value, Last(s.versions))
  {
    ReachableInv(e, doc, evs);
    var s := Run(e, Start(e, doc), evs);
    AccountIsKept(e, s.versions, s.changes, |s.versions| - 1);
    FirstVersion(e, doc, evs);
  }

  lemma {:induction false} FirstVersion(e: Env, doc: Document, evs: seq<Event>)
    requires Parse(e.checks, doc, e.key).Some?
    ensures var s := Run(e, Start(e, doc), evs);
            s.versions != [] && s.versions[0] == Parse(e.checks, doc, e.key).value
  {
    if evs != [] {
      FirstVersion(e, doc, evs[..|evs| - 1]);
      VersionsGrow(e, Run(e, Start(e, doc), evs[..|evs| - 1]), evs[|evs| - 1]);
    }
  }

  lemma VersionsGrow(e: Env, s: State, ev: Event)
    ensures s.versions <= Step(e, s, ev).versions
  {
  }

  // ---------------------------------------------------------------- recovery codes

  lemma SpentIsGone(r: Record, id: string)
    ensures !HasBackup(Updated(r, SpendBackup(id)), id)
  {
    WithoutBackupMembers(r.backups, id);
    var next := Updated(r, SpendBackup(id));
    forall i | 0 <= i < |next.backups| ensures next.backups[i].id != id {
      assert next.backups[i] in next.backups;
    }
  }

  lemma BackupsNeverReturn(r: Record, u: Update, id: string)
    requires !HasBackup(r, id)
    ensures !HasBackup(Updated(r, u), id)
  {
    if u.SpendBackup? {
      WithoutBackupMembers(r.backups, u.backupId);
      var next := Updated(r, u);
      forall i | 0 <= i < |next.backups| ensures next.backups[i].id != id {
        assert next.backups[i] in r.backups;
      }
    }
  }

  lemma {:induction false} SpentStaysSpent(e: Env, vs: seq<Record>, us: seq<Update>, i: nat, j: nat)
    requires Chain(e, vs, us) && i < j < |vs| && us[i].SpendBackup?
    ensures !HasBackup(vs[j], us[i].backupId)
  {
    assert Follows(vs[j - 1], us[j - 1], vs[j]);
    if j == i + 1 {
      SpentIsGone(vs[i], us[i].backupId);
    } else {
      SpentStaysSpent(e, vs, us, i, j - 1);
      BackupsNeverReturn(vs[j - 1], us[j - 1], us[i].backupId);
    }
  }

  /** Under every schedule a recovery code is accepted at most once. */
  lemma RecoveryCodesWorkOnce(e: Env, doc: Document, evs: seq<Event>, t: nat, u: nat)
    requires Parse(e.checks, doc, e.key).Some?
    requires var s := Run(e, Start(e, doc), evs);
             && t < |s.tasks| && u < |s.tasks| && t != u
             && Accepted(s.tasks[t].phase) && Accepted(s.tasks[u].phase)
    ensures var s := Run(e, Start(e, doc), evs);
            forall id :: !(s.tasks[t].change == Some(SpendBackup(id)) && s.tasks[u].change == Some(SpendBackup(id)))
  {
    var s := Run(e, Start(e, doc), evs);
    ReachableInv(e, doc, evs);
    var i, j := AcceptedPair(e, s, t, u);
    var a, b := if i < j then i else j, if i < j then j else i;
    if s.changes[a].SpendBackup? {
      SpentStaysSpent(e, s.versions, s.changes, a, b);
      assert Follows(s.versions[b], s.changes[b], s.versions[b + 1]);
    }
  }

  lemma AcceptedPair(e: Env, s: State, t: nat, u: nat) returns (i: nat, j: nat)
    requires HistoryInv(e, s) && t < |s.tasks| && u < |s.tasks| && t != u
    requires Accepted(s.tasks[t].phase) && Accepted(s.tasks[u].phase)
    ensures i < |s.changes| && j < |s.changes| && i != j
    ensures s.tasks[t].change == Some(s.changes[i]) && s.tasks[u].change == Some(s.changes[j])
  {
    i :| 0 <= i < |s.writers| && s.writers[i] == t;
    j :| 0 <= j < |s.writers| && s.writers[j] == u;
  }

  // ---------------------------------------------------------------- one-time password steps

  /** The marker of the authenticator has reached the step. */
  ghost predicate MarkedFrom(r: Record, id: string, step: int) {
    forall k :: 0 <= k < |r.totp| && r.totp[k].id == id ==>
      r.totp[k].lastUsedStep.Some? && r.totp[k].lastUsedStep.value >= step
  }

  lemma MarkingMarks(r: Record, id: string, step: int)
    requires DistinctStrings(TotpIds(r.totp))
    ensures MarkedFrom(Updated(r, MarkStep(id, step)), id, step)
  {
    MarkTotpEntries(r.totp, id, step);
  }

  lemma MarkersNeverFall(r: Record, u: Update, id: string, step: int)
    requires DistinctStrings(TotpIds(r.totp)) && Justified(r, u) && MarkedFrom(r, id, step)
    ensures MarkedFrom(Updated(r, u), id, step)
  {
    if u.MarkStep? {
      MarkTotpEntries(r.totp, u.totpId, u.step);
      var i :| 0 <= i < |r.totp| && r.totp[i].id == u.totpId
               && (r.totp[i].lastUsedStep.Some? ==> u.step > r.totp[i].lastUsedStep.value);
      forall k | 0 <= k < |r.totp| && r.totp[k].id == id
        ensures Updated(r, u).totp[k].lastUsedStep.Some? && Updated(r, u).totp[k].lastUsedStep.value >= step
      {
        assert TotpIds(r.totp)[k] == r.totp[k].id && TotpIds(r.totp)[i] == r.totp[i].id;
      }
    }
  }

  lemma {:induction false} MarkedStaysMarked(e: Env, vs: seq<Record>, us: seq<Update>, i: nat, j: nat)
    requires Chain(e, vs, us) && i < j < |vs| && us[i].MarkStep?
    ensures MarkedFrom(vs[j], us[i].totpId, us[i].step)
  {
    assert Follows(vs[j - 1], us[j - 1], vs[j]);
    assert Good(e, vs[j - 1]);
    if j == i + 1 {
      MarkingMarks(vs[i], us[i].totpId, us[i].step);
    } else {
      MarkedStaysMarked(e, vs, us, i, j - 1);
      MarkersNeverFall(vs[j - 1], us[j - 1], us[i].totpId, us[i].step);
    }
  }

  ghost predicate SameSeeds(a: seq<Totp>, b: seq<Totp>) {
    |a| == |b| && forall k :: 0 <= k < |a| ==> a[k].id == b[k].id && a[k].secret == b[k].secret
  }

  /** The authenticators of a record, by id and seed, never change. */
  lemma {:induction false} SeedsAreKept(e: Env, vs: seq<Record>, us: seq<Update>, i: nat)
    requires Chain(e, vs, us) && i < |vs|
    ensures SameSeeds(vs[0].totp, vs[i].totp)
  {
    if i > 0 {
      SeedsAreKept(e, vs, us, i - 1);
      assert Follows(vs[i - 1], us[i - 1], vs[i]);
      assert Good(e, vs[i - 1]);
      UpdateKeepsSeeds(vs[i - 1], us[i - 1]);
    }
  }

  lemma UpdateKeepsSeeds(r: Record, u: Update)
    requires DistinctStrings(TotpIds(r.totp))
    ensures SameSeeds(r.totp, Updated(r, u).totp)
  {
    if u.MarkStep? {
      MarkTotpEntries(r.totp, u.totpId, u.step);
    }
  }

  /** The authenticator with this id carries this seed. */
  ghost predicate HasSeed(r: Record, id: string, secret: string) {
    exists k :: 0 <= k < |r.totp| && r.totp[k].id == id && r.totp[k].secret == secret
  }

  lemma OneIdPerSeed(e: Env, vs: seq<Record>, us: seq<Update>, i: nat, j: nat, a: string, b: string, secret: string)
    requires Chain(e, vs, us) && i < |vs| && j < |vs|
    requires HasSeed(vs[i], a, secret) && HasSeed(vs[j], b, secret)
    ensures a == b
  {
    SeedsAreKept(e, vs, us, i);
    SeedsAreKept(e, vs, us, j);
    assert HasSeed(vs[0], a, secret) && HasSeed(vs[0], b, secret);
    assert Good(e, vs[0]);
    SeedsIdentify(vs[0], a, b, secret);
  }

  lemma SeedsIdentify(r: Record, a: string, b: string, secret: string)
    requires DistinctStrings(TotpSecrets(r.totp)) && HasSeed(r, a, secret) && HasSeed(r, b, secret)
    ensures a == b
  {
    var k :| 0 <= k < |r.totp| && r.totp[k].id == a && r.totp[k].secret == secret;
    var m :| 0 <= m < |r.totp| && r.totp[m].id == b && r.totp[m].secret == secret;
    assert TotpSecrets(r.totp)[k] == TotpSecrets(r.totp)[m];
  }

  /**
   * In the order of the writes, the steps accepted for one seed strictly increase, whichever
   * credential id they were accepted under.
   */
  lemma StepsStrictlyIncrease(e: Env, doc: Document, evs: seq<Event>, i: nat, j: nat, secret: string)
    requires Parse(e.checks, doc, e.key).Some?
    requires var s := Run(e, Start(e, doc), evs);
             && i < j < |s.changes| && |s.versions| == |s.changes| + 1
             && s.changes[i].MarkStep? && s.changes[j].MarkStep?
             && HasSeed(s.versions[i], s.changes[i].totpId, secret) && HasSeed(s.versions[j], s.changes[j].totpId, secret)
    ensures var s := Run(e, Start(e, doc), evs);
            s.changes[i].step < s.changes[j].step
  {
    ReachableInv(e, doc, evs);
    var s := Run(e, Start(e, doc), evs);
    OneIdPerSeed(e, s.versions, s.changes, i, j, s.changes[i].totpId, s.changes[j].totpId, secret);
    LaterStepIsGreater(e, s.versions, s.changes, i, j);
  }

  lemma LaterStepIsGreater(e: Env, vs: seq<Record>, us: seq<Update>, i: nat, j: nat)
    requires Chain(e, vs, us) && i < j < |us| && us[i].MarkStep? && us[j].MarkStep? && us[i].totpId == us[j].totpId
    ensures us[i].step < us[j].step
  {
    MarkedStaysMarked(e, vs, us, i, j);
    assert Follows(vs[j], us[j], vs[j + 1]);
  }

  /** No two requests are ever both accepted for the same authenticator and time-step. */
  lemma StepsWorkOnce(e: Env, doc: Document, evs: seq<Event>, t: nat, u: nat)
    requires Parse(e.checks, doc, e.key).Some?
    requires var s := Run(e, Start(e, doc), evs);
             && t < |s.tasks| && u < |s.tasks| && t != u
             && Accepted(s.tasks[t].phase) && Accepted(s.tasks[u].phase)
    ensures var s := Run(e, Start(e, doc), evs);
            forall id, step :: !(s.tasks[t].change == Some(MarkStep(id, step)) && s.tasks[u].change == Some(MarkStep(id, step)))
  {
    var s := Run(e, Start(e, doc), evs);
    ReachableInv(e, doc, evs);
    var i, j := AcceptedPair(e, s, t, u);
    var a, b := if i < j then i else j, if i < j then j else i;
    if s.changes[a].MarkStep? && s.changes[b].MarkStep? && s.changes[a].totpId == s.changes[b].totpId {
      LaterStepIsGreater(e, s.versions, s.changes, a, b);
    }
  }

  /** Two requests are never accepted for the same recovery code, nor for the same authenticator and step. */
  lemma AcceptedFactorsDiffer(e: Env, s: State, t: nat, u: nat)
    requires HistoryInv(e, s) && t < |s.tasks| && u < |s.tasks| && t != u
    requires Accepted(s.tasks[t].phase) && Accepted(s.tasks[u].phase)
    requires s.tasks[t].change.Some? && !s.tasks[t].change.value.RetainToken?
    ensures s.tasks[t].change != s.tasks[u].change
  {
    var i, j := AcceptedPair(e, s, t, u);
    var a, b := if i < j then i else j, if i < j then j else i;
    if s.changes[a].SpendBackup? {
      SpentStaysSpent(e, s.versions, s.changes, a, b);
      assert Follows(s.versions[b], s.changes[b], s.versions[b + 1]);
    } else if s.changes[a].MarkStep? && s.changes[b].MarkStep? && s.changes[a].totpId == s.changes[b].totpId {
      LaterStepIsGreater(e, s.versions, s.changes, a, b);
    }
  }
}

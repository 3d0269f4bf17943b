/** What every schedule keeps of a record's history, and what that means for second factors. */
module RecordHistory {
  import opened Basics
  import opened LocalRecords
  import opened SecondFactor
  import opened RecordStore

  // ---------------------------------------------------------------- the chain of versions

  /** One version follows another: derived from it by a justified update, one revision later. */
  ghost predicate Follows(r: Record, u: Update, next: Record) {
    Justified(r, u) && Admissible(r, u) && next == Updated(r, u)
  }

  ghost predicate Good(e: Env, r: Record) {
    Shaped(e.checks, r) && r.key == e.key
  }

  ghost predicate Chain(e: Env, versions: seq<Record>, changes: seq<Update>) {
    && |versions| == |changes| + 1
    && (forall i :: 0 <= i < |versions| ==> Good(e, versions[i]))
    && (forall i :: 0 <= i < |changes| ==> Follows(versions[i], changes[i], versions[i + 1]))
  }

  function Last(versions: seq<Record>): Record
    requires versions != []
  {
    versions[|versions| - 1]
  }

  lemma {:induction false} RevisionsCount(e: Env, versions: seq<Record>, changes: seq<Update>, i: nat)
    requires Chain(e, versions, changes) && i < |versions|
    ensures versions[i].revision == versions[0].revision + i
  {
    if i > 0 {
      RevisionsCount(e, versions, changes, i - 1);
      assert Follows(versions[i - 1], changes[i - 1], versions[i]);
    }
  }

  /** A version is identified by its revision. */
  lemma RevisionIdentifies(e: Env, versions: seq<Record>, changes: seq<Update>, r: Record)
    requires Chain(e, versions, changes) && r in versions && r.revision == Last(versions).revision
    ensures r == Last(versions)
  {
    var i :| 0 <= i < |versions| && versions[i] == r;
    RevisionsCount(e, versions, changes, i);
    RevisionsCount(e, versions, changes, |versions| - 1);
  }

  lemma NextIsGood(e: Env, r: Record, u: Update)
    requires Good(e, r) && Justified(r, u) && Admissible(r, u)
    ensures Good(e, Updated(r, u)) && Follows(r, u, Updated(r, u))
  {
    UpdateKeepsShape(e.checks, r, u);
  }

  lemma ChainExtends(e: Env, versions: seq<Record>, changes: seq<Update>, u: Update, next: Record)
    requires Chain(e, versions, changes) && Good(e, next) && Follows(Last(versions), u, next)
    ensures Chain(e, versions + [next], changes + [u])
  {
    var vs, us := versions + [next], changes + [u];
    var n := |changes|;
    assert vs[n] == Last(versions) && vs[n + 1] == next && us[n] == u;
    forall i | 0 <= i < |vs| ensures Good(e, vs[i]) {
      if i <= n { assert vs[i] == versions[i]; }
    }
    forall i | 0 <= i < |us| ensures Follows(vs[i], us[i], vs[i + 1]) {
      if i < n { assert vs[i] == versions[i] && vs[i + 1] == versions[i + 1] && us[i] == changes[i]; }
    }
  }

  lemma ChainGrows(e: Env, versions: seq<Record>, changes: seq<Update>, u: Update)
    requires Chain(e, versions, changes)
    requires Justified(Last(versions), u) && Admissible(Last(versions), u)
    ensures Chain(e, versions + [Updated(Last(versions), u)], changes + [u])
  {
    assert Good(e, Last(versions));
    NextIsGood(e, Last(versions), u);
    ChainExtends(e, versions, changes, u, Updated(Last(versions), u));
  }

  // ---------------------------------------------------------------- the invariant

  /** The file is the newest version: its revision always, its content whenever it can be read at all. */
  ghost predicate FileTracks(e: Env, s: State)
    requires s.versions != []
  {
    && s.file.revision == Last(s.versions).revision
    && (Parse(e.checks, s.file, e.key).Some? ==> Parse(e.checks, s.file, e.key).value == Last(s.versions))
  }

  ghost predicate TaskOk(s: State, t: Task) {
    && t.snapshot in s.versions
    && (t.change.Some? ==> Justified(t.snapshot, t.change.value) && Admissible(t.snapshot, t.change.value))
    && (Queued(t.phase) ==> t.change.Some?)
    && (t.phase.Loaded? ==> t.phase.current == s.file.revision)
  }

  predicate Accepted(p: Phase) {
    p == Finishing(true) || p == Finished(true)
  }

  predicate Ended(p: Phase) {
    p.Finishing? || p.Finished?
  }

  predicate Wrote(t: Task, r: Record, u: Update) {
    Ended(t.phase) && t.snapshot == r && t.change == Some(u)
  }

  /** Each version after the first was written by one task, each task wrote at most one, and an accepted task wrote one. */
  ghost predicate WritersOk(s: State) {
    && |s.writers| == |s.changes| && |s.versions| == |s.changes| + 1
    && (forall i, j :: 0 <= i < j < |s.writers| ==> s.writers[i] != s.writers[j])
    && (forall i :: 0 <= i < |s.writers| ==> s.writers[i] < |s.tasks| && Wrote(s.tasks[s.writers[i]], s.versions[i], s.changes[i]))
    && (forall t :: 0 <= t < |s.tasks| && Accepted(s.tasks[t].phase) ==> t in s.writers)
  }

  ghost predicate HistoryInv(e: Env, s: State) {
    && Chain(e, s.versions, s.changes)
    && FileTracks(e, s)
    && (forall t :: 0 <= t < |s.tasks| ==> TaskOk(s, s.tasks[t]))
    && WritersOk(s)
  }

  // ---------------------------------------------------------------- every event keeps it

  lemma FindKeepsHistory(e: Env, s: State)
    requires HistoryInv(e, s)
    ensures HistoryInv(e, DoFind(e, s))
  {
    var s' := DoFind(e, s);
    forall t | 0 <= t < |s'.tasks| ensures TaskOk(s', s'.tasks[t]) {
      if t < |s.tasks| { assert TaskOk(s, s.tasks[t]); }
    }
  }

  lemma AskedIsSound(e: Env, job: Job, r: Record)
    requires Asked(e, job, r).Some? && Writable(e.checks, Updated(r, Asked(e, job, r).value))
    ensures Justified(r, Asked(e, job, r).value) && Admissible(r, Asked(e, job, r).value)
  {
    if job.Factor? {
      ChoiceIsJustified(e.verifier, r, job.code, job.now);
    }
  }

  /** A task that has not ended may be replaced by one that is in order. */
  lemma ReplacedKeepsHistory(e: Env, s: State, t: nat, task: Task, tail: Option<nat>, line: seq<nat>)
    requires HistoryInv(e, s) && t < |s.tasks| && !Ended(s.tasks[t].phase)
    requires TaskOk(s, task) && !Ended(task.phase)
    ensures HistoryInv(e, s.(tasks := s.tasks[t := task], tail := tail, line := line))
  {
    var s' := s.(tasks := s.tasks[t := task], tail := tail, line := line);
    forall k | 0 <= k < |s'.tasks| ensures TaskOk(s', s'.tasks[k]) {
      assert TaskOk(s, s.tasks[k]);
    }
  }

  lemma SubmitKeepsHistory(e: Env, s: State, t: nat, job: Job)
    requires HistoryInv(e, s)
    ensures HistoryInv(e, DoSubmit(e, s, t, job))
  {
    if t < |s.tasks| && s.tasks[t].phase.Holding? {
      assert TaskOk(s, s.tasks[t]);
      var r := s.tasks[t].snapshot;
      var u := Asked(e, job, r);
      if u.None? || !Writable(e.checks, Updated(r, u.value)) {
        ReplacedKeepsHistory(e, s, t, s.tasks[t].(phase := Refused), s.tail, s.line);
      } else {
        AskedIsSound(e, job, r);
        ReplacedKeepsHistory(e, s, t, Task(r, u, Waiting(s.tail)), Some(t), s.line + [t]);
      }
    }
  }

  /** A change of phase that neither writes nor claims to have written. */
  lemma QuietKeepsHistory(e: Env, s: State, t: nat, p: Phase, tail: Option<nat>)
    requires HistoryInv(e, s) && t < |s.tasks| && Queued(s.tasks[t].phase)
    requires p.Loaded? ==> p.current == s.file.revision
    requires Accepted(p) ==> Accepted(s.tasks[t].phase)
    requires Ended(s.tasks[t].phase) ==> Ended(p)
    ensures HistoryInv(e, WithPhase(s, t, p).(tail := tail))
  {
    var s' := WithPhase(s, t, p).(tail := tail);
    assert TaskOk(s, s.tasks[t]);
    forall k | 0 <= k < |s'.tasks| ensures TaskOk(s', s'.tasks[k]) {
      assert TaskOk(s, s.tasks[k]);
    }
  }

  ghost predicate MayWrite(s: State, t: nat) {
    t < |s.tasks| && s.tasks[t].phase.Loaded? && s.tasks[t].change.Some?
    && s.tasks[t].phase.current == s.tasks[t].snapshot.revision
  }

  /** The compare-and-swap really compares: a task that may write holds the newest version. */
  lemma WriterIsCurrent(e: Env, s: State, t: nat)
    requires HistoryInv(e, s) && MayWrite(s, t)
    ensures s.tasks[t].snapshot == Last(s.versions)
  {
    assert TaskOk(s, s.tasks[t]);
    RevisionIdentifies(e, s.versions, s.changes, s.tasks[t].snapshot);
  }

  lemma WriteKeepsFile(e: Env, s: State, t: nat, disk: Disk)
    requires HistoryInv(e, s) && MayWrite(s, t) && !disk.NotWritten?
    ensures Chain(e, DoWrite(s, t, disk).versions, DoWrite(s, t, disk).changes)
    ensures FileTracks(e, DoWrite(s, t, disk))
  {
    WriterIsCurrent(e, s, t);
    assert TaskOk(s, s.tasks[t]);
    var u := s.tasks[t].change.value;
    ChainGrows(e, s.versions, s.changes, u);
    var next := Updated(Last(s.versions), u);
    var s' := DoWrite(s, t, disk);
    assert Last(s'.versions) == next;
    assert Good(e, s'.versions[|s'.versions| - 1]);
    StoredFormParsesBack(e.checks, next);
  }

  lemma WriteKeepsTasks(e: Env, s: State, t: nat, disk: Disk)
    requires HistoryInv(e, s) && LockInv(s) && MayWrite(s, t) && !disk.NotWritten?
    ensures forall k :: 0 <= k < |s.tasks| ==> TaskOk(DoWrite(s, t, disk), DoWrite(s, t, disk).tasks[k])
  {
    var s' := DoWrite(s, t, disk);
    forall k | 0 <= k < |s.tasks| ensures TaskOk(s', s'.tasks[k]) {
      assert TaskOk(s, s.tasks[k]);
      if s.tasks[k].phase.Loaded? {
        LockIsExclusive(s, t, k);
      }
    }
  }

  lemma WriteKeepsWriters(e: Env, s: State, t: nat, disk: Disk)
    requires HistoryInv(e, s) && MayWrite(s, t) && !disk.NotWritten?
    ensures WritersOk(DoWrite(s, t, disk))
  {
    WriterIsCurrent(e, s, t);
    var s' := DoWrite(s, t, disk);
    assert t !in s.writers;
    forall k | 0 <= k < |s'.tasks| && Accepted(s'.tasks[k].phase) ensures k in s'.writers {
      if k == t { assert s'.writers[|s.writers|] == t; } else { assert k in s.writers; }
    }
  }

  lemma WriteKeepsHistory(e: Env, s: State, t: nat, disk: Disk)
    requires HistoryInv(e, s) && LockInv(s)
    ensures HistoryInv(e, DoWrite(s, t, disk))
  {
    if MayWrite(s, t) && !disk.NotWritten? {
      WriteKeepsFile(e, s, t, disk);
      WriteKeepsTasks(e, s, t, disk);
      WriteKeepsWriters(e, s, t, disk);
    } else if DoWrite(s, t, disk) != s {
      QuietKeepsHistory(e, s, t, Finishing(false), s.tail);
    }
  }

  lemma LockStepsKeepHistory(e: Env, s: State, t: nat, ok: bool)
    requires HistoryInv(e, s)
    ensures HistoryInv(e, DoEnter(s, t)) && HistoryInv(e, DoRead(s, t, ok)) && HistoryInv(e, DoRelease(s, t))
  {
    if t < |s.tasks| && Queued(s.tasks[t].phase) {
      match s.tasks[t].phase
      case Waiting(_) => QuietKeepsHistory(e, s, t, Inside, s.tail);
      case Inside => QuietKeepsHistory(e, s, t, if ok then Loaded(s.file.revision) else Finishing(false), s.tail);
      case Finishing(done) => QuietKeepsHistory(e, s, t, Finished(done), if s.tail == Some(t) then None else s.tail);
      case _ =>
    }
  }

  lemma StepKeepsHistory(e: Env, s: State, ev: Event)
    requires HistoryInv(e, s) && LockInv(s)
    ensures HistoryInv(e, Step(e, s, ev))
  {
    match ev
    case Find => FindKeepsHistory(e, s);
    case Submit(t, job) => SubmitKeepsHistory(e, s, t, job);
    case Enter(t) => LockStepsKeepHistory(e, s, t, true);
    case Read(t, ok) => LockStepsKeepHistory(e, s, t, ok);
    case Write(t, disk) => WriteKeepsHistory(e, s, t, disk);
    case Release(t) => LockStepsKeepHistory(e, s, t, true);
  }

  lemma {:induction false} ReachableInv(e: Env, doc: Document, evs: seq<Event>)
    requires Parse(e.checks, doc, e.key).Some?
    ensures LockInv(Run(e, Start(e, doc), evs)) && HistoryInv(e, Run(e, Start(e, doc), evs))
  {
    if evs == [] {
      ParsedIsWellFormed(e.checks, doc, e.key);
    } else {
      var s := Run(e, Start(e, doc), evs[..|evs| - 1]);
      ReachableInv(e, doc, evs[..|evs| - 1]);
      StepKeepsLock(e, s, evs[|evs| - 1]);
      StepKeepsHistory(e, s, evs[|evs| - 1]);
    }
  }
}

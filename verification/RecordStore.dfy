/**
 * Concurrent updates of one identity record in one process.
 *
 * Each `await` of the service and of the file adapter is a place where other requests may run, so
 * a request is a task that moves through phases, one event at a time, in any order the scheduler
 * likes: read a snapshot without a lock, decide on an update, join the promise chain of the
 * record, enter once the predecessor's promise has settled, re-read the revision, write by
 * renaming, and release. A promise is named by its creator.
 */
module RecordStore {
  import opened Basics
  import opened LocalRecords
  import opened SecondFactor

  datatype Phase =
    | Holding                          // has a snapshot, nothing decided yet
    | Refused                          // no update was asked for
    | Waiting(previous: Option<nat>)   // in the chain behind that promise, or behind none
    | Inside                           // holds the lock, the file not yet re-read
    | Loaded(current: int)             // holds the lock, this revision was read
    | Finishing(ok: bool)              // the operation settled, the lock is still held
    | Finished(ok: bool)               // lock released, caller answered

  datatype Task = Task(snapshot: Record, change: Option<Update>, phase: Phase)

  /** `versions`, `changes`, `writers` and `line` are history; the code keeps only the first three fields. */
  datatype State = State(
    file: Document, tail: Option<nat>, tasks: seq<Task>,
    versions: seq<Record>, changes: seq<Update>, writers: seq<nat>, line: seq<nat>)

  datatype Env = Env(checks: Checks, verifier: Verifier, key: string)

  datatype Job = Factor(code: string, now: int) | Retain(linkId: string, sealed: string)

  /** Whether the rename took effect and whether the write then reported an error (directory sync may). */
  datatype Disk = Written | WrittenThenFailed | NotWritten

  datatype Event =
    | Find
    | Submit(task: nat, job: Job)
    | Enter(task: nat)
    | Read(task: nat, ok: bool)
    | Write(task: nat, disk: Disk)
    | Release(task: nat)

  function Asked(e: Env, job: Job, r: Record): Option<Update> {
    match job
    case Factor(code, now) => Choose(e.verifier, r, code, now)
    case Retain(linkId, sealed) => Some(RetainToken(linkId, sealed))
  }

  function WithPhase(s: State, t: nat, p: Phase): State
    requires t < |s.tasks|
  {
    s.(tasks := s.tasks[t := s.tasks[t].(phase := p)])
  }

  // ---------------------------------------------------------------- events

  /** `find`: parse whatever the file holds now; an unreadable record starts no task. */
  function DoFind(e: Env, s: State): State {
    var r := Parse(e.checks, s.file, e.key);
    if r.None? then s else s.(tasks := s.tasks + [Task(r.value, None, Holding)])
  }

  /**
   * A document beyond the adapter's bounds is refused before the lock is asked for.  Otherwise, up
   * to the first await inside `withKeyLock`: the previous promise is noted, the own one becomes
   * the tail.
   */
  function DoSubmit(e: Env, s: State, t: nat, job: Job): State {
    if t >= |s.tasks| || !s.tasks[t].phase.Holding? then s
    else
      var r := s.tasks[t].snapshot;
      var u := Asked(e, job, r);
      if u.None? || !Writable(e.checks, Updated(r, u.value)) then WithPhase(s, t, Refused)
      else Joined(s, t, u)
  }

  function Joined(s: State, t: nat, u: Option<Update>): State
    requires t < |s.tasks|
  {
    s.(tasks := s.tasks[t := Task(s.tasks[t].snapshot, u, Waiting(s.tail))], tail := Some(t), line := s.line + [t])
  }

  predicate Settled(s: State, promise: Option<nat>) {
    promise.Some? ==> promise.value < |s.tasks| && s.tasks[promise.value].phase.Finished?
  }

  function DoEnter(s: State, t: nat): State {
    if t < |s.tasks| && s.tasks[t].phase.Waiting? && Settled(s, s.tasks[t].phase.previous)
    then WithPhase(s, t, Inside)
    else s
  }

  function DoRead(s: State, t: nat, ok: bool): State {
    if t < |s.tasks| && s.tasks[t].phase.Inside?
    then WithPhase(s, t, if ok then Loaded(s.file.revision) else Finishing(false))
    else s
  }

  /** The compare-and-swap: nothing is written unless the revision read is the snapshot's. */
  function DoWrite(s: State, t: nat, disk: Disk): State {
    if t >= |s.tasks| || !s.tasks[t].phase.Loaded? || s.tasks[t].change.None? then s
    else
      var task := s.tasks[t];
      if task.phase.current != task.snapshot.revision || disk.NotWritten? then WithPhase(s, t, Finishing(false))
      else
        var next := Updated(task.snapshot, task.change.value);
        WithPhase(s, t, Finishing(disk.Written?)).(
          file := Stored(next), versions := s.versions + [next],
          changes := s.changes + [task.change.value], writers := s.writers + [t])
  }

  function DoRelease(s: State, t: nat): State {
    if t < |s.tasks| && s.tasks[t].phase.Finishing?
    then WithPhase(s, t, Finished(s.tasks[t].phase.ok)).(tail := if s.tail == Some(t) then None else s.tail)
    else s
  }

  function Step(e: Env, s: State, ev: Event): State {
    match ev
    case Find => DoFind(e, s)
    case Submit(t, job) => DoSubmit(e, s, t, job)
    case Enter(t) => DoEnter(s, t)
    case Read(t, ok) => DoRead(s, t, ok)
    case Write(t, disk) => DoWrite(s, t, disk)
    case Release(t) => DoRelease(s, t)
  }

  function Run(e: Env, s: State, evs: seq<Event>): State {
    if evs == [] then s else Step(e, Run(e, s, evs[..|evs| - 1]), evs[|evs| - 1])
  }

  /** A directory holding one readable record, and no request under way. */
  function Start(e: Env, doc: Document): State
    requires Parse(e.checks, doc, e.key).Some?
  {
    State(doc, None, [], [Parse(e.checks, doc, e.key).value], [], [], [])
  }

  // ---------------------------------------------------------------- the lock

  predicate Queued(p: Phase) {
    !p.Holding? && !p.Refused?
  }

  predicate Critical(p: Phase) {
    p.Inside? || p.Loaded? || p.Finishing?
  }

  predicate AllFinished(s: State, n: nat) {
    forall j :: 0 <= j < n && j < |s.line| ==> s.line[j] < |s.tasks| && s.tasks[s.line[j]].phase.Finished?
  }

  /** The line holds each queued task once. */
  ghost predicate LineLists(s: State) {
    && (forall i :: 0 <= i < |s.line| ==> s.line[i] < |s.tasks| && Queued(s.tasks[s.line[i]].phase))
    && (forall i, j :: 0 <= i < j < |s.line| ==> s.line[i] != s.line[j])
    && (forall t :: 0 <= t < |s.tasks| && Queued(s.tasks[t].phase) ==> t in s.line)
  }

  /** The tail entry exists exactly while the last in line has not released. */
  ghost predicate TailTracks(s: State) {
    match s.tail
    case None => AllFinished(s, |s.line|)
    case Some(t) => |s.line| > 0 && s.line[|s.line| - 1] == t && t < |s.tasks| && !s.tasks[t].phase.Finished?
  }

  /** Where the i-th in line may be, given those before it. */
  ghost predicate InTurn(s: State, i: nat)
    requires i < |s.line| && s.line[i] < |s.tasks|
  {
    match s.tasks[s.line[i]].phase
    case Waiting(None) => AllFinished(s, i)
    case Waiting(Some(p)) => i > 0 && s.line[i - 1] == p
    case _ => AllFinished(s, i)
  }

  ghost predicate LockInv(s: State) {
    LineLists(s) && TailTracks(s) && forall i :: 0 <= i < |s.line| ==> InTurn(s, i)
  }

  /** Only the phase of one queued task changes, from unfinished to another queued phase. */
  ghost predicate Moves(s: State, s': State, t: nat) {
    && t < |s.tasks| && |s'.tasks| == |s.tasks| && s'.line == s.line
    && (forall k :: 0 <= k < |s.tasks| && k != t ==> s'.tasks[k].phase == s.tasks[k].phase)
    && Queued(s.tasks[t].phase) && Queued(s'.tasks[t].phase) && !s'.tasks[t].phase.Waiting? && !s.tasks[t].phase.Finished?
  }

  lemma MoveKeepsLine(s: State, s': State, t: nat)
    requires LockInv(s) && Moves(s, s', t)
    ensures LineLists(s')
    ensures forall n :: 0 <= n <= |s.line| && AllFinished(s, n) ==> AllFinished(s', n)
  {
  }

  lemma MoveKeepsTurn(s: State, s': State, t: nat, k: nat)
    requires LockInv(s) && Moves(s, s', t) && LineLists(s') && k < |s.line|
    requires s.tasks[t].phase.Waiting? ==> Settled(s, s.tasks[t].phase.previous)
    ensures InTurn(s', k)
  {
    MoveKeepsLine(s, s', t);
    assert InTurn(s, k);
    if s.line[k] == t {
      MoverIsFirst(s, t, k);
    }
  }

  lemma MoveKeepsTail(s: State, s': State, t: nat)
    requires LockInv(s) && Moves(s, s', t)
    requires s.tasks[t].phase.Waiting? ==> Settled(s, s.tasks[t].phase.previous)
    requires s'.tail == if s'.tasks[t].phase.Finished? && s.tail == Some(t) then None else s.tail
    ensures TailTracks(s')
  {
    MoveKeepsLine(s, s', t);
    if s'.tasks[t].phase.Finished? && s.tail == Some(t) {
      MoverIsFirst(s, t, |s.line| - 1);
    }
  }

  /** A task that moves forward inside the lock keeps everybody's turn. */
  lemma MoveKeepsLock(s: State, s': State, t: nat)
    requires LockInv(s) && Moves(s, s', t)
    requires s.tasks[t].phase.Waiting? ==> Settled(s, s.tasks[t].phase.previous)
    requires s'.tail == if s'.tasks[t].phase.Finished? && s.tail == Some(t) then None else s.tail
    ensures LockInv(s')
  {
    MoveKeepsLine(s, s', t);
    MoveKeepsTail(s, s', t);
    forall k | 0 <= k < |s'.line| ensures InTurn(s', k) {
      MoveKeepsTurn(s, s', t, k);
    }
  }

  lemma MoverIsFirst(s: State, t: nat, i: nat)
    requires LockInv(s) && i < |s.line| && s.line[i] == t
    requires s.tasks[t].phase.Waiting? ==> Settled(s, s.tasks[t].phase.previous)
    ensures AllFinished(s, i)
  {
    assert InTurn(s, i);
    if s.tasks[t].phase.Waiting? && s.tasks[t].phase.previous.Some? {
      assert InTurn(s, i - 1);
    }
  }

  /** Everybody in line stays where they are; newcomers may only stand behind them. */
  ghost predicate LineStays(s: State, s': State) {
    && s.line <= s'.line && |s.tasks| <= |s'.tasks|
    && forall i :: 0 <= i < |s.line| ==> s.line[i] < |s.tasks| && s'.tasks[s.line[i]].phase == s.tasks[s.line[i]].phase
  }

  lemma TurnsStay(s: State, s': State, n: nat)
    requires LineStays(s, s') && n <= |s.line|
    ensures AllFinished(s, n) ==> AllFinished(s', n)
  {
    assert forall j :: 0 <= j < n ==> s'.line[j] == s.line[j];
  }

  lemma TurnStays(s: State, s': State, k: nat)
    requires LineStays(s, s') && k < |s.line| && InTurn(s, k)
    ensures InTurn(s', k)
  {
    TurnsStay(s, s', k);
    assert s'.line[k] == s.line[k] && (k > 0 ==> s'.line[k - 1] == s.line[k - 1]);
  }

  lemma RefusalKeepsLock(s: State, t: nat)
    requires LockInv(s) && t < |s.tasks| && s.tasks[t].phase.Holding?
    ensures LockInv(WithPhase(s, t, Refused))
  {
    var s' := WithPhase(s, t, Refused);
    assert t !in s.line;
    forall k | 0 <= k < |s'.line| ensures InTurn(s', k) { TurnStays(s, s', k); }
    TurnsStay(s, s', |s.line|);
  }

  lemma JoinKeepsLists(s: State, t: nat, u: Option<Update>)
    requires LockInv(s) && t < |s.tasks| && s.tasks[t].phase.Holding?
    ensures LineLists(Joined(s, t, u)) && LineStays(s, Joined(s, t, u))
  {
    var s' := Joined(s, t, u);
    assert t !in s.line;
    forall k | 0 <= k < |s'.tasks| && Queued(s'.tasks[k].phase) ensures k in s'.line {
      if k == t { assert s'.line[|s.line|] == t; } else { assert k in s.line; }
    }
  }

  lemma JoinKeepsLock(s: State, t: nat, u: Option<Update>)
    requires LockInv(s) && t < |s.tasks| && s.tasks[t].phase.Holding?
    ensures LockInv(Joined(s, t, u))
  {
    var s' := Joined(s, t, u);
    JoinKeepsLists(s, t, u);
    TurnsStay(s, s', |s.line|);
    forall k | 0 <= k < |s'.line| ensures InTurn(s', k) {
      if k < |s.line| { TurnStays(s, s', k); }
    }
  }

  lemma SubmitKeepsLock(e: Env, s: State, t: nat, job: Job)
    requires LockInv(s)
    ensures LockInv(DoSubmit(e, s, t, job))
  {
    if t < |s.tasks| && s.tasks[t].phase.Holding? {
      RefusalKeepsLock(s, t);
      JoinKeepsLock(s, t, Asked(e, job, s.tasks[t].snapshot));
    }
  }

  lemma NewTaskKeepsLock(s: State, task: Task)
    requires LockInv(s) && task.phase.Holding?
    ensures LockInv(s.(tasks := s.tasks + [task]))
  {
    var s' := s.(tasks := s.tasks + [task]);
    forall k | 0 <= k < |s'.line| ensures InTurn(s', k) { TurnStays(s, s', k); }
    TurnsStay(s, s', |s.line|);
  }

  lemma FindKeepsLock(e: Env, s: State)
    requires LockInv(s)
    ensures LockInv(DoFind(e, s))
  {
    var r := Parse(e.checks, s.file, e.key);
    if r.Some? {
      NewTaskKeepsLock(s, Task(r.value, None, Holding));
    }
  }

  lemma TaskMoves(s: State, t: nat, p: Phase)
    requires t < |s.tasks| && Queued(s.tasks[t].phase) && !s.tasks[t].phase.Finished? && Queued(p) && !p.Waiting?
    ensures Moves(s, WithPhase(s, t, p), t)
  {
  }

  lemma EnterAndReadKeepLock(s: State, t: nat, ok: bool)
    requires LockInv(s)
    ensures LockInv(DoEnter(s, t)) && LockInv(DoRead(s, t, ok))
  {
    if DoEnter(s, t) != s {
      TaskMoves(s, t, Inside);
      MoveKeepsLock(s, DoEnter(s, t), t);
    }
    if DoRead(s, t, ok) != s {
      TaskMoves(s, t, if ok then Loaded(s.file.revision) else Finishing(false));
      MoveKeepsLock(s, DoRead(s, t, ok), t);
    }
  }

  lemma WriteAndReleaseKeepLock(s: State, t: nat, disk: Disk)
    requires LockInv(s)
    ensures LockInv(DoWrite(s, t, disk)) && LockInv(DoRelease(s, t))
  {
    if DoWrite(s, t, disk) != s { MoveKeepsLock(s, DoWrite(s, t, disk), t); }
    if DoRelease(s, t) != s { MoveKeepsLock(s, DoRelease(s, t), t); }
  }

  lemma StepKeepsLock(e: Env, s: State, ev: Event)
    requires LockInv(s)
    ensures LockInv(Step(e, s, ev))
  {
    match ev
    case Find => FindKeepsLock(e, s);
    case Submit(t, job) => SubmitKeepsLock(e, s, t, job);
    case Enter(t) => EnterAndReadKeepLock(s, t, true);
    case Read(t, ok) => EnterAndReadKeepLock(s, t, ok);
    case Write(t, disk) => WriteAndReleaseKeepLock(s, t, disk);
    case Release(t) => WriteAndReleaseKeepLock(s, t, NotWritten);
  }

  /** At most one task is between entering and releasing. */
  lemma LockIsExclusive(s: State, t: nat, u: nat)
    requires LockInv(s) && t < |s.tasks| && u < |s.tasks|
    requires Critical(s.tasks[t].phase) && Critical(s.tasks[u].phase)
    ensures t == u
  {
    var i :| 0 <= i < |s.line| && s.line[i] == t;
    var j :| 0 <= j < |s.line| && s.line[j] == u;
    assert InTurn(s, i) && InTurn(s, j);
  }
}

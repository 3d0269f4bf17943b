/** The bounded FIFO semaphore in front of Argon2, whose permits are handed from holder to waiter. */
module Semaphore {
  import opened Basics

  datatype Outcome = Granted | Queued | Busy

  /** `holders`, `waited` and `woken` are history: who holds a permit, who ever queued, who was ever woken. */
  datatype Permits = Permits(
    limit: nat, maxQueue: nat, active: int, queue: seq<nat>,
    holders: set<nat>, waited: seq<nat>, woken: seq<nat>)

  predicate Known(p: Permits, id: nat) {
    id in p.holders || id in p.queue
  }

  function OutcomeOf(p: Permits): Outcome {
    if p.active < p.limit then Granted else if |p.queue| >= p.maxQueue then Busy else Queued
  }

  function Acquired(p: Permits, id: nat): Permits {
    match OutcomeOf(p)
    case Granted => p.(active := p.active + 1, holders := p.holders + {id})
    case Queued => p.(queue := p.queue + [id], waited := p.waited + [id])
    case Busy => p
  }

  function Released(p: Permits, id: nat): Permits {
    if p.queue == [] then p.(active := p.active - 1, holders := p.holders - {id})
    else p.(queue := p.queue[1..], holders := p.holders - {id} + {p.queue[0]}, woken := p.woken + [p.queue[0]])
  }

  /** Permits are conserved, waiting implies that all are out, and waiters are woken in arrival order. */
  ghost predicate Inv(p: Permits) {
    && p.limit >= 1
    && p.active == |p.holders| && p.active <= p.limit
    && (p.queue != [] ==> p.active == p.limit)
    && |p.queue| <= p.maxQueue
    && (forall i :: 0 <= i < |p.queue| ==> p.queue[i] !in p.holders)
    && (forall i, j :: 0 <= i < j < |p.queue| ==> p.queue[i] != p.queue[j])
    && p.waited == p.woken + p.queue
  }

  lemma AcquireKeepsInv(p: Permits, id: nat)
    requires Inv(p) && !Known(p, id)
    ensures Inv(Acquired(p, id))
  {
  }

  lemma ReleaseKeepsInv(p: Permits, id: nat)
    requires Inv(p) && id in p.holders
    ensures Inv(Released(p, id))
  {
    if p.queue != [] {
      var kept := p.holders - {id};
      assert p.queue[0] !in kept;
      assert |kept + {p.queue[0]}| == |kept| + 1;
      assert p.queue == [p.queue[0]] + p.queue[1..];
      assert p.woken + p.queue == p.woken + [p.queue[0]] + p.queue[1..];
    }
  }

  class Semaphore {
    const limit: nat
    const maxQueue: nat
    var active: int
    var queue: seq<nat>
    ghost var holders: set<nat>
    ghost var waited: seq<nat>
    ghost var woken: seq<nat>

    ghost function View(): Permits
      reads this
    {
      Permits(limit, maxQueue, active, queue, holders, waited, woken)
    }

    constructor (limit: nat, maxQueue: nat)
      requires limit >= 1
      ensures View() == Permits(limit, maxQueue, 0, [], {}, [], []) && Inv(View())
    {
      this.limit := limit;
      this.maxQueue := maxQueue;
      active := 0;
      queue := [];
      holders := {};
      waited := [];
      woken := [];
    }

    /** `Queued` stands for the pending promise; the waiter's id stands for its resolver. */
    method Acquire(id: nat) returns (r: Outcome)
      requires Inv(View()) && !Known(View(), id)
      modifies this
      ensures View() == Acquired(old(View()), id) && r == OutcomeOf(old(View()))
      ensures Inv(View())
    {
      AcquireKeepsInv(View(), id);
      if active < limit {
        active := active + 1;
        holders := holders + {id};
        return Granted;
      }
      if |queue| >= maxQueue {
        return Busy;
      }
      queue := queue + [id];
      waited := waited + [id];
      return Queued;
    }

    method Release(ghost id: nat) returns (next: Option<nat>)
      requires Inv(View()) && id in holders
      modifies this
      ensures View() == Released(old(View()), id)
      ensures next == if old(queue) == [] then None else Some(old(queue)[0])
      ensures Inv(View())
    {
      ReleaseKeepsInv(View(), id);
      if queue == [] {
        active := active - 1;
        holders := holders - {id};
        return None;
      }
      next := Some(queue[0]);
      holders := holders - {id} + {queue[0]};
      woken := woken + [queue[0]];
      queue := queue[1..];
    }
  }

  // ---------------------------------------------------------------- every run

  datatype Op = Acquire(id: nat) | Release(id: nat)

  /** `run` acquires before and releases once after its operation; nothing else touches the permits. */
  predicate Legal(p: Permits, op: Op) {
    match op
    case Acquire(id) => !Known(p, id)
    case Release(id) => id in p.holders
  }

  function Next(p: Permits, op: Op): Permits {
    match op
    case Acquire(id) => Acquired(p, id)
    case Release(id) => Released(p, id)
  }

  function Run(p: Permits, ops: seq<Op>): Permits
    decreases |ops|
  {
    if ops == [] then p else Run(Next(p, ops[0]), ops[1..])
  }

  predicate LegalRun(p: Permits, ops: seq<Op>)
    decreases |ops|
  {
    ops == [] || (Legal(p, ops[0]) && LegalRun(Next(p, ops[0]), ops[1..]))
  }

  function Releases(ops: seq<Op>): (n: nat)
    ensures n <= |ops|
  {
    if ops == [] then 0 else (if ops[0].Release? then 1 else 0) + Releases(ops[1..])
  }

  /** Every run keeps the permits conserved and bounded. */
  lemma {:induction false} RunKeepsInv(p: Permits, ops: seq<Op>)
    requires Inv(p) && LegalRun(p, ops)
    ensures Inv(Run(p, ops))
    decreases |ops|
  {
    if ops != [] {
      match ops[0] {
        case Acquire(id) => AcquireKeepsInv(p, id);
        case Release(id) => ReleaseKeepsInv(p, id);
      }
      RunKeepsInv(Next(p, ops[0]), ops[1..]);
    }
  }

  lemma {:induction false} WokenGrows(p: Permits, ops: seq<Op>, id: nat)
    requires id in p.woken
    ensures id in Run(p, ops).woken
    decreases |ops|
  {
    if ops != [] {
      WokenGrows(Next(p, ops[0]), ops[1..], id);
    }
  }

  /** The waiter in place k moves up one place per release and is handed a permit by release number k + 1. */
  lemma {:induction false} WaiterServedInTurn(p: Permits, ops: seq<Op>, k: nat)
    requires Inv(p) && LegalRun(p, ops) && k < |p.queue|
    ensures var n := Releases(ops);
            if n <= k then k - n < |Run(p, ops).queue| && Run(p, ops).queue[k - n] == p.queue[k]
            else p.queue[k] in Run(p, ops).woken
    decreases |ops|
  {
    if ops != [] {
      var q := Next(p, ops[0]);
      match ops[0] {
        case Acquire(id) => AcquireKeepsInv(p, id);
        case Release(id) => ReleaseKeepsInv(p, id);
      }
      if ops[0].Release? && k == 0 {
        WokenGrows(q, ops[1..], p.queue[0]);
      } else {
        WaiterServedInTurn(q, ops[1..], if ops[0].Release? then k - 1 else k);
      }
    }
  }
}

/**
 * The three state store backends as claim servers.  Each is a state machine over its own storage,
 * with the housekeeping its platform does behind its back, and each refines one small promise:
 * two successful claims of one identifier are at least the first claim's lifetime apart.
 */
module Backends {
  import opened Basics
  import ClaimStore

  /** A successful claim: who, when (in seconds), and for how long. */
  datatype Grant = Grant(id: string, at: int, ttl: int)

  const LONGEST := 366 * 86400

  ghost predicate Apart(a: Grant, b: Grant) {
    a.id == b.id && a.ttl <= LONGEST ==> b.at >= a.at + a.ttl
  }

  ghost predicate StrictlyApart(a: Grant, b: Grant) {
    a.id == b.id ==> b.at > a.at + a.ttl
  }

  ghost predicate Spaced(grants: seq<Grant>) {
    forall i, j :: 0 <= i < j < |grants| ==> Apart(grants[i], grants[j])
  }

  ghost predicate StrictlySpaced(grants: seq<Grant>) {
    forall i, j :: 0 <= i < j < |grants| ==> StrictlyApart(grants[i], grants[j])
  }

  // ---------------------------------------------------------------- in-process memory

  datatype Memory = Memory(now: int, claims: map<string, int>, grants: seq<Grant>)

  datatype MemoryOp = MemoryTick(seconds: nat) | MemoryClaim(id: string, ttl: int) | MemoryHas(id: string)

  function MemoryStep(maxEntries: nat, m: Memory, op: MemoryOp): Memory {
    match op
    case MemoryTick(seconds) => m.(now := m.now + seconds)
    case MemoryHas(id) => m.(claims := ClaimStore.AfterHas(m.claims, m.now, id))
    case MemoryClaim(id, ttl) =>
      m.(claims := ClaimStore.AfterClaim(m.claims, maxEntries, m.now, id, ttl),
         grants := if ClaimStore.Outcome(m.claims, maxEntries, m.now, id).Fresh?
                   then m.grants + [Grant(id, m.now, ttl)] else m.grants)
  }

  function MemoryRun(maxEntries: nat, m: Memory, ops: seq<MemoryOp>): Memory
    decreases |ops|
  {
    if ops == [] then m else MemoryRun(maxEntries, MemoryStep(maxEntries, m, ops[0]), ops[1..])
  }

  /** Until a grant has run out, its record is in the map with at least that expiry. */
  ghost predicate MemoryRemembers(m: Memory, g: Grant) {
    m.now <= g.at + g.ttl ==> g.id in m.claims && m.claims[g.id] >= g.at + g.ttl
  }

  ghost predicate MemoryInv(m: Memory) {
    StrictlySpaced(m.grants) && forall i :: 0 <= i < |m.grants| ==> MemoryRemembers(m, m.grants[i])
  }

  lemma MemoryStepKeeps(maxEntries: nat, m: Memory, op: MemoryOp)
    requires MemoryInv(m)
    ensures MemoryInv(MemoryStep(maxEntries, m, op))
  {
    var m' := MemoryStep(maxEntries, m, op);
    match op {
      case MemoryTick(_) =>
      case MemoryHas(id) => ClaimStore.HasFrame(m.claims, m.now, id);
      case MemoryClaim(id, ttl) =>
        ClaimStore.ClaimFrame(m.claims, maxEntries, m.now, id, ttl);
        forall i | 0 <= i < |m.grants| ensures MemoryRemembers(m', m.grants[i]) {
          assert MemoryRemembers(m, m.grants[i]);
        }
    }
    forall i | 0 <= i < |m'.grants| ensures MemoryRemembers(m', m'.grants[i]) {
      if i < |m.grants| {
        assert MemoryRemembers(m, m.grants[i]);
      }
    }
  }

  lemma {:induction false} MemoryRefines(maxEntries: nat, m: Memory, ops: seq<MemoryOp>)
    requires MemoryInv(m)
    ensures StrictlySpaced(MemoryRun(maxEntries, m, ops).grants)
    decreases |ops|
  {
    if ops != [] {
      MemoryStepKeeps(maxEntries, m, ops[0]);
      MemoryRefines(maxEntries, MemoryStep(maxEntries, m, ops[0]), ops[1..]);
    }
  }

  // ---------------------------------------------------------------- DynamoDB

  /** One table holds claims and counters; expiry is an attribute, deletion is lazy. */
  datatype Item = Item(expiresAt: int, hits: nat)

  datatype Dynamo = Dynamo(now: int, items: map<string, Item>, grants: seq<Grant>)

  datatype DynamoOp =
    | DynamoTick(seconds: nat)
    | PutItem(id: string, ttl: int)
    | UpdateItem(id: string, ttl: int)
    | TtlDelete(id: string)

  /** The conditional write: absent, or expired but not yet collected. */
  predicate ConditionHolds(d: Dynamo, id: string) {
    id !in d.items || d.items[id].expiresAt < d.now
  }

  function DynamoStep(d: Dynamo, op: DynamoOp): Dynamo {
    match op
    case DynamoTick(seconds) => d.(now := d.now + seconds)
    case PutItem(id, ttl) =>
      if ConditionHolds(d, id)
      then d.(items := d.items[id := Item(d.now + Max(60, ttl), 0)], grants := d.grants + [Grant(id, d.now, ttl)])
      else d
    case UpdateItem(id, ttl) =>
      if id in d.items then d.(items := d.items[id := Item(d.items[id].expiresAt, d.items[id].hits + 1)])
      else d.(items := d.items[id := Item(d.now + Max(60, ttl), 1)])
    case TtlDelete(id) =>
      if id in d.items && d.items[id].expiresAt < d.now then d.(items := d.items - {id}) else d
  }

  function DynamoRun(d: Dynamo, ops: seq<DynamoOp>): Dynamo
    decreases |ops|
  {
    if ops == [] then d else DynamoRun(DynamoStep(d, ops[0]), ops[1..])
  }

  ghost predicate DynamoRemembers(d: Dynamo, g: Grant) {
    d.now <= g.at + g.ttl ==> g.id in d.items && d.items[g.id].expiresAt >= g.at + g.ttl
  }

  ghost predicate DynamoInv(d: Dynamo) {
    StrictlySpaced(d.grants) && forall i :: 0 <= i < |d.grants| ==> DynamoRemembers(d, d.grants[i])
  }

  lemma DynamoStepKeeps(d: Dynamo, op: DynamoOp)
    requires DynamoInv(d)
    ensures DynamoInv(DynamoStep(d, op))
  {
    var d' := DynamoStep(d, op);
    forall i | 0 <= i < |d'.grants| ensures DynamoRemembers(d', d'.grants[i]) {
      if i < |d.grants| {
        assert DynamoRemembers(d, d.grants[i]);
      }
    }
  }

  /** Neither counters sharing the table nor lazy deletion can bring a claim back early. */
  lemma {:induction false} DynamoRefines(d: Dynamo, ops: seq<DynamoOp>)
    requires DynamoInv(d)
    ensures StrictlySpaced(DynamoRun(d, ops).grants)
    decreases |ops|
  {
    if ops != [] {
      DynamoStepKeeps(d, ops[0]);
      DynamoRefines(DynamoStep(d, ops[0]), ops[1..]);
    }
  }

  // ---------------------------------------------------------------- Durable Objects

  /** One object per identifier, holding a claim, a count or both, until its one alarm (in milliseconds) empties it. */
  datatype Object = Object(claimed: bool, count: nat, alarm: int)

  datatype Durable = Durable(nowMs: int, objects: map<string, Object>, grants: seq<Grant>)

  datatype DurableOp =
    | DurableTick(ms: nat)
    | DurableClaim(id: string, ttl: int)
    | DurableCount(id: string, ttl: int)
    | Alarm(id: string)

  /** A missing lifetime counts as two minutes; every lifetime is clamped to between a minute and 366 days. */
  function Clamp(ttl: int): int {
    Min(Max(if ttl == 0 then 120 else ttl, 60), LONGEST)
  }

  /** What an object holds; nothing before its first use and after its alarm. */
  function ObjectAt(d: Durable, id: string): Object {
    if id in d.objects then d.objects[id] else Object(false, 0, 0)
  }

  /** Both operations set the one alarm of the object: a claim always, a count when it is the first. */
  function DurableStep(d: Durable, op: DurableOp): Durable {
    match op
    case DurableTick(ms) => d.(nowMs := d.nowMs + ms)
    case DurableClaim(id, ttl) =>
      var o := ObjectAt(d, id);
      if o.claimed then d
      else d.(objects := d.objects[id := Object(true, o.count, d.nowMs + Clamp(ttl) * 1000)],
              grants := d.grants + [Grant(id, d.nowMs / 1000, ttl)])
    case DurableCount(id, ttl) =>
      var o := ObjectAt(d, id);
      d.(objects := d.objects[id := Object(o.claimed, o.count + 1, if o.count == 0 then d.nowMs + Clamp(ttl) * 1000 else o.alarm)])
    case Alarm(id) =>
      if id in d.objects && d.objects[id].alarm <= d.nowMs then d.(objects := d.objects - {id}) else d
  }

  function DurableRun(d: Durable, ops: seq<DurableOp>): Durable
    decreases |ops|
  {
    if ops == [] then d else DurableRun(DurableStep(d, ops[0]), ops[1..])
  }

  /** Claims and counters are kept under different prefixes, so an identifier is used as one or the other. */
  ghost predicate NeverCounted(ops: seq<DurableOp>, id: string) {
    forall k :: 0 <= k < |ops| ==> !(ops[k].DurableCount? && ops[k].id == id)
  }

  ghost predicate SpacedFor(grants: seq<Grant>, id: string) {
    forall i, j :: 0 <= i < j < |grants| && grants[i].id == id ==> Apart(grants[i], grants[j])
  }

  ghost predicate DurableRemembers(d: Durable, g: Grant) {
    g.ttl <= LONGEST && d.nowMs / 1000 < g.at + g.ttl ==>
      g.id in d.objects && d.objects[g.id].claimed && d.objects[g.id].alarm >= (g.at + g.ttl) * 1000
  }

  ghost predicate DurableInv(d: Durable, id: string) {
    SpacedFor(d.grants, id) && forall i :: 0 <= i < |d.grants| && d.grants[i].id == id ==> DurableRemembers(d, d.grants[i])
  }

  lemma DurableStepKeeps(d: Durable, op: DurableOp, id: string)
    requires DurableInv(d, id) && !(op.DurableCount? && op.id == id)
    ensures DurableInv(DurableStep(d, op), id)
  {
    var d' := DurableStep(d, op);
    forall i | 0 <= i < |d'.grants| && d'.grants[i].id == id ensures DurableRemembers(d', d'.grants[i]) {
      if i < |d.grants| {
        assert DurableRemembers(d, d.grants[i]);
      }
    }
    forall i, j | 0 <= i < j < |d'.grants| && d'.grants[i].id == id ensures Apart(d'.grants[i], d'.grants[j]) {
      if j == |d.grants| {
        assert DurableRemembers(d, d.grants[i]);
      }
    }
  }

  /** Whatever happens to other objects, and whenever the alarm fires once it is due. */
  lemma {:induction false} DurableRefines(d: Durable, ops: seq<DurableOp>, id: string)
    requires DurableInv(d, id) && NeverCounted(ops, id)
    ensures SpacedFor(DurableRun(d, ops).grants, id)
    decreases |ops|
  {
    if ops != [] {
      DurableStepKeeps(d, ops[0], id);
      assert forall k :: 0 <= k < |ops[1..]| ==> ops[1..][k] == ops[k + 1];
      DurableRefines(DurableStep(d, ops[0]), ops[1..], id);
    }
  }

  lemma DurableRunFour(d: Durable, a: DurableOp, b: DurableOp, c: DurableOp, e: DurableOp)
    ensures DurableRun(d, [a, b, c, e]) == DurableStep(DurableStep(DurableStep(DurableStep(d, a), b), c), e)
  {
    assert [a, b, c, e][1..] == [b, c, e] && [b, c, e][1..] == [c, e] && [c, e][1..] == [e] && [e][1..] == [];
    var d1 := DurableStep(d, a);
    var d2 := DurableStep(d1, b);
    var d3 := DurableStep(d2, c);
    var d4 := DurableStep(d3, e);
    assert DurableRun(d4, []) == d4;
    assert DurableRun(d3, [e]) == d4;
    assert DurableRun(d2, [c, e]) == d4;
    assert DurableRun(d1, [b, c, e]) == d4;
  }

  /** The prefixes matter: a count on the object of a claim replaces its alarm, and the claim is gone a minute later. */
  lemma CountingLosesAClaim(id: string, ttl: int)
    requires 60 < ttl <= LONGEST
    ensures var d := DurableRun(Durable(0, map[], []), [DurableClaim(id, ttl), DurableCount(id, 60), DurableTick(60000), Alarm(id)]);
            var again := DurableStep(d, DurableClaim(id, ttl));
            |again.grants| == 2 && !Apart(again.grants[0], again.grants[1])
  {
    DurableRunFour(Durable(0, map[], []), DurableClaim(id, ttl), DurableCount(id, 60), DurableTick(60000), Alarm(id));
  }

  // ---------------------------------------------------------------- refusals have a cause

  /** A grant that has not run out, the backend's own minimum included. */
  ghost predicate Outstanding(g: Grant, id: string, now: int, least: int) {
    g.id == id && now <= g.at + Max(least, g.ttl)
  }

  ghost predicate Granted(grants: seq<Grant>, id: string, now: int, least: int) {
    exists i :: 0 <= i < |grants| && Outstanding(grants[i], id, now, least)
  }

  /** The expiry of a stored record is that of some grant. */
  ghost predicate Explains(grants: seq<Grant>, id: string, expiresAt: int, least: int) {
    exists i :: 0 <= i < |grants| && grants[i].id == id && expiresAt == grants[i].at + Max(least, grants[i].ttl)
  }

  lemma ExplainsMore(grants: seq<Grant>, g: Grant, id: string, expiresAt: int, least: int)
    requires Explains(grants, id, expiresAt, least) || (g.id == id && expiresAt == g.at + Max(least, g.ttl))
    ensures Explains(grants + [g], id, expiresAt, least)
  {
    var all := grants + [g];
    assert all[|grants|] == g;
    if Explains(grants, id, expiresAt, least) {
      var i :| 0 <= i < |grants| && grants[i].id == id && expiresAt == grants[i].at + Max(least, grants[i].ttl);
      assert all[i] == grants[i];
    }
  }

  lemma ExplainedIsGranted(grants: seq<Grant>, id: string, expiresAt: int, least: int, now: int)
    requires Explains(grants, id, expiresAt, least) && now <= expiresAt
    ensures Granted(grants, id, now, least)
  {
    var i :| 0 <= i < |grants| && grants[i].id == id && expiresAt == grants[i].at + Max(least, grants[i].ttl);
    assert Outstanding(grants[i], id, now, least);
  }

  ghost predicate MemoryExplained(m: Memory) {
    forall id :: id in m.claims ==> Explains(m.grants, id, m.claims[id], 1)
  }

  lemma MemoryStepExplained(maxEntries: nat, m: Memory, op: MemoryOp)
    requires MemoryExplained(m)
    ensures MemoryExplained(MemoryStep(maxEntries, m, op))
  {
    var m' := MemoryStep(maxEntries, m, op);
    if |m'.grants| > |m.grants| {
      forall id | id in m'.claims ensures Explains(m'.grants, id, m'.claims[id], 1) {
        ExplainsMore(m.grants, Grant(op.id, m.now, op.ttl), id, m'.claims[id], 1);
      }
    }
  }

  /** Over every run, the memory store calls an id taken only while an earlier successful claim of it has not run out. */
  lemma {:induction false} MemoryRefusalsHaveACause(maxEntries: nat, m: Memory, ops: seq<MemoryOp>, id: string)
    requires MemoryExplained(m)
    ensures var end := MemoryRun(maxEntries, m, ops);
            ClaimStore.Outcome(end.claims, maxEntries, end.now, id) == ClaimStore.Taken ==>
              Granted(end.grants, id, end.now, 1)
    decreases |ops|
  {
    if ops == [] {
      if ClaimStore.Held(m.claims, m.now, id) {
        ExplainedIsGranted(m.grants, id, m.claims[id], 1, m.now);
      }
    } else {
      MemoryStepExplained(maxEntries, m, ops[0]);
      MemoryRefusalsHaveACause(maxEntries, MemoryStep(maxEntries, m, ops[0]), ops[1..], id);
    }
  }

  ghost predicate DynamoExplained(d: Dynamo, id: string) {
    id in d.items ==> Explains(d.grants, id, d.items[id].expiresAt, 60)
  }

  lemma DynamoStepExplained(d: Dynamo, op: DynamoOp, id: string)
    requires DynamoExplained(d, id) && !(op.UpdateItem? && op.id == id)
    ensures DynamoExplained(DynamoStep(d, op), id)
  {
    var d' := DynamoStep(d, op);
    if |d'.grants| > |d.grants| && id in d'.items {
      ExplainsMore(d.grants, Grant(op.id, d.now, op.ttl), id, d'.items[id].expiresAt, 60);
    }
  }

  /** The same for DynamoDB, for an identifier that is never used as a counter. */
  lemma {:induction false} DynamoRefusalsHaveACause(d: Dynamo, ops: seq<DynamoOp>, id: string)
    requires DynamoExplained(d, id) && forall i :: 0 <= i < |ops| ==> !(ops[i].UpdateItem? && ops[i].id == id)
    ensures var end := DynamoRun(d, ops);
            !ConditionHolds(end, id) ==> Granted(end.grants, id, end.now, 60)
    decreases |ops|
  {
    if ops == [] {
      if !ConditionHolds(d, id) {
        ExplainedIsGranted(d.grants, id, d.items[id].expiresAt, 60, d.now);
      }
    } else {
      DynamoStepExplained(d, ops[0], id);
      DynamoRefusalsHaveACause(DynamoStep(d, ops[0]), ops[1..], id);
    }
  }

  /** All three backends, each started empty, keep the common promise over every run. */
  lemma EveryBackendSpacesClaims(maxEntries: nat, start: int, memory: seq<MemoryOp>, dynamo: seq<DynamoOp>,
                                 durable: seq<DurableOp>, id: string)
    ensures Spaced(MemoryRun(maxEntries, Memory(start, map[], []), memory).grants)
    ensures Spaced(DynamoRun(Dynamo(start, map[], []), dynamo).grants)
    ensures NeverCounted(durable, id) ==> SpacedFor(DurableRun(Durable(start, map[], []), durable).grants, id)
  {
    MemoryRefines(maxEntries, Memory(start, map[], []), memory);
    DynamoRefines(Dynamo(start, map[], []), dynamo);
    if NeverCounted(durable, id) {
      DurableRefines(Durable(start, map[], []), durable, id);
    }
  }
}

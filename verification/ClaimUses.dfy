/**
 * What single use means for the callers of the store.  A value is opened, the lifetime of its claim
 * is measured, and the store grants the claim: three readings of the clock with awaits in between.
 */
module ClaimUses {
  import opened Basics
  import opened Backends

  /**
   * One successful use: opened no later than `last`, measured and granted no earlier than that, and
   * claimed until `due`.
   */
  ghost predicate Uses(g: Grant, id: string, last: int, due: int, read: int, measured: int) {
    g.id == id && read <= last && read <= measured <= g.at && g.ttl == due - measured
  }

  /** Some use, and later another one with these three readings. */
  ghost predicate UsedAgain(grants: seq<Grant>, id: string, last: int, due: int, read: int, measured: int, at: int) {
    exists i, j, r, m :: UsedBefore(grants, i, j, id, last, due, r, m)
      && Uses(grants[j], id, last, due, read, measured) && grants[j].at == at
  }

  ghost predicate UsedBefore(grants: seq<Grant>, i: int, j: int, id: string, last: int, due: int, r: int, m: int) {
    0 <= i < j < |grants| && Uses(grants[i], id, last, due, r, m) && grants[i].ttl <= LONGEST
  }

  /** A use that reaches the store only after the claim's due time, although it was opened in time. */
  predicate Straggles(last: int, due: int, read: int, measured: int, at: int) {
    read <= last && read <= measured <= at && due < at
  }

  lemma PairIsUsedAgain(grants: seq<Grant>, id: string, last: int, due: int, first: int, read: int, measured: int)
    requires |grants| == 2 && Uses(grants[0], id, last, due, first, first) && grants[0].ttl <= LONGEST
    requires Uses(grants[1], id, last, due, read, measured)
    ensures UsedAgain(grants, id, last, due, read, measured, grants[1].at)
  {
    assert UsedBefore(grants, 0, 1, id, last, due, first, first);
  }

  // ---------------------------------------------------------------- memory

  ghost predicate MemoryAllows(maxEntries: nat, start: int, id: string, last: int, due: int, read: int, measured: int, at: int) {
    exists ops :: UsedAgain(MemoryRun(maxEntries, Memory(start, map[], []), ops).grants, id, last, due, read, measured, at)
  }

  lemma SecondUseStraggles(grants: seq<Grant>, id: string, last: int, due: int, read: int, measured: int, at: int)
    requires StrictlySpaced(grants) && UsedAgain(grants, id, last, due, read, measured, at)
    ensures Straggles(last, due, read, measured, at)
  {
    var i, j, r, m :| UsedBefore(grants, i, j, id, last, due, r, m) && Uses(grants[j], id, last, due, read, measured) && grants[j].at == at;
    assert StrictlyApart(grants[i], grants[j]);
  }

  lemma MemoryRunThree(maxEntries: nat, m: Memory, a: MemoryOp, b: MemoryOp, c: MemoryOp)
    ensures MemoryRun(maxEntries, m, [a, b, c]) == MemoryStep(maxEntries, MemoryStep(maxEntries, MemoryStep(maxEntries, m, a), b), c)
  {
    assert [a, b, c][1..] == [b, c] && [b, c][1..] == [c] && [c][1..] == [];
    var m1 := MemoryStep(maxEntries, m, a);
    var m2 := MemoryStep(maxEntries, m1, b);
    var m3 := MemoryStep(maxEntries, m2, c);
    assert MemoryRun(maxEntries, m3, []) == m3;
    assert MemoryRun(maxEntries, m2, [c]) == m3;
    assert MemoryRun(maxEntries, m1, [b, c]) == m3;
  }

  lemma MemoryStraggler(maxEntries: nat, start: int, id: string, last: int, due: int, read: int, measured: int, at: int)
    requires maxEntries >= 1 && start <= last && start < due <= start + LONGEST && Straggles(last, due, read, measured, at)
    ensures MemoryAllows(maxEntries, start, id, last, due, read, measured, at)
  {
    var a, b, c := MemoryClaim(id, due - start), MemoryTick(at - start), MemoryClaim(id, due - measured);
    var m0 := Memory(start, map[], []);
    MemoryRunThree(maxEntries, m0, a, b, c);
    var m1 := MemoryStep(maxEntries, m0, a);
    assert m1.claims == map[id := due] && m1.grants == [Grant(id, start, due - start)];
    var m2 := MemoryStep(maxEntries, m1, b);
    var end := MemoryStep(maxEntries, m2, c);
    assert end.grants == [Grant(id, start, due - start), Grant(id, at, due - measured)];
    PairIsUsedAgain(end.grants, id, last, due, start, read, measured);
  }

  /**
   * With the memory store a value can be used again, in some run, if and only if the second use
   * straggles: opened in time, but in the store only after the claim has run out.
   */
  lemma MemorySecondUseIff(maxEntries: nat, start: int, id: string, last: int, due: int, read: int, measured: int, at: int)
    requires maxEntries >= 1 && start <= last && start < due <= start + LONGEST
    ensures MemoryAllows(maxEntries, start, id, last, due, read, measured, at) <==> Straggles(last, due, read, measured, at)
  {
    if MemoryAllows(maxEntries, start, id, last, due, read, measured, at) {
      var ops :| UsedAgain(MemoryRun(maxEntries, Memory(start, map[], []), ops).grants, id, last, due, read, measured, at);
      MemoryRefines(maxEntries, Memory(start, map[], []), ops);
      SecondUseStraggles(MemoryRun(maxEntries, Memory(start, map[], []), ops).grants, id, last, due, read, measured, at);
    }
    if Straggles(last, due, read, measured, at) {
      MemoryStraggler(maxEntries, start, id, last, due, read, measured, at);
    }
  }

  // ---------------------------------------------------------------- DynamoDB

  ghost predicate DynamoAllows(start: int, id: string, last: int, due: int, read: int, measured: int, at: int) {
    exists ops :: UsedAgain(DynamoRun(Dynamo(start, map[], []), ops).grants, id, last, due, read, measured, at)
  }

  lemma DynamoRunThree(d: Dynamo, a: DynamoOp, b: DynamoOp, c: DynamoOp)
    ensures DynamoRun(d, [a, b, c]) == DynamoStep(DynamoStep(DynamoStep(d, a), b), c)
  {
    assert [a, b, c][1..] == [b, c] && [b, c][1..] == [c] && [c][1..] == [];
    var d1 := DynamoStep(d, a);
    var d2 := DynamoStep(d1, b);
    var d3 := DynamoStep(d2, c);
    assert DynamoRun(d3, []) == d3;
    assert DynamoRun(d2, [c]) == d3;
    assert DynamoRun(d1, [b, c]) == d3;
  }

  lemma DynamoStraggler(start: int, id: string, last: int, due: int, read: int, measured: int, at: int)
    requires start <= last && start + 60 <= due <= start + LONGEST && Straggles(last, due, read, measured, at)
    ensures DynamoAllows(start, id, last, due, read, measured, at)
  {
    var a, b, c := PutItem(id, due - start), DynamoTick(at - start), PutItem(id, due - measured);
    var d0 := Dynamo(start, map[], []);
    DynamoRunThree(d0, a, b, c);
    var end := DynamoStep(DynamoStep(DynamoStep(d0, a), b), c);
    assert end.grants == [Grant(id, start, due - start), Grant(id, at, due - measured)];
    PairIsUsedAgain(end.grants, id, last, due, start, read, measured);
  }

  /** The same for DynamoDB, from at least a minute before the due time. */
  lemma DynamoSecondUseIff(start: int, id: string, last: int, due: int, read: int, measured: int, at: int)
    requires start <= last && start + 60 <= due <= start + LONGEST
    ensures DynamoAllows(start, id, last, due, read, measured, at) <==> Straggles(last, due, read, measured, at)
  {
    if DynamoAllows(start, id, last, due, read, measured, at) {
      var ops :| UsedAgain(DynamoRun(Dynamo(start, map[], []), ops).grants, id, last, due, read, measured, at);
      DynamoRefines(Dynamo(start, map[], []), ops);
      SecondUseStraggles(DynamoRun(Dynamo(start, map[], []), ops).grants, id, last, due, read, measured, at);
    }
    if Straggles(last, due, read, measured, at) {
      DynamoStraggler(start, id, last, due, read, measured, at);
    }
  }

  // ---------------------------------------------------------------- Durable Objects

  ghost predicate DurableAllows(start: int, id: string, last: int, due: int, read: int, measured: int, at: int) {
    exists ops :: NeverCounted(ops, id)
      && UsedAgain(DurableRun(Durable(start * 1000, map[], []), ops).grants, id, last, due, read, measured, at)
  }

  lemma DurableSecondUseIsLate(grants: seq<Grant>, id: string, last: int, due: int, read: int, measured: int, at: int)
    requires SpacedFor(grants, id) && UsedAgain(grants, id, last, due, read, measured, at)
    ensures read <= last && read <= measured <= at && due <= at
  {
    var i, j, r, m :| UsedBefore(grants, i, j, id, last, due, r, m) && Uses(grants[j], id, last, due, read, measured) && grants[j].at == at;
    assert Apart(grants[i], grants[j]);
  }

  lemma DurableStraggler(start: int, id: string, last: int, due: int, read: int, measured: int, at: int)
    requires start <= last && start + 60 <= due <= start + LONGEST
    requires read <= last && read <= measured <= at && due <= at
    ensures DurableAllows(start, id, last, due, read, measured, at)
  {
    var a, b, c, e := DurableClaim(id, due - start), DurableTick((at - start) * 1000), Alarm(id), DurableClaim(id, due - measured);
    var d0 := Durable(start * 1000, map[], []);
    DurableRunFour(d0, a, b, c, e);
    var d1 := DurableStep(d0, a);
    assert d1.objects == map[id := Object(true, 0, due * 1000)] && d1.grants == [Grant(id, start, due - start)];
    var d2 := DurableStep(d1, b);
    assert d2.nowMs == at * 1000;
    var d3 := DurableStep(d2, c);
    assert id !in d3.objects;
    var end := DurableStep(d3, e);
    assert end.grants == [Grant(id, start, due - start), Grant(id, at, due - measured)];
    PairIsUsedAgain(end.grants, id, last, due, start, read, measured);
    assert NeverCounted([a, b, c, e], id);
  }

  /** On Durable Objects the due second itself is late enough: the alarm may fire first. */
  lemma DurableSecondUseIff(start: int, id: string, last: int, due: int, read: int, measured: int, at: int)
    requires start <= last && start + 60 <= due <= start + LONGEST
    ensures DurableAllows(start, id, last, due, read, measured, at) <==>
              read <= last && read <= measured <= at && due <= at
  {
    if DurableAllows(start, id, last, due, read, measured, at) {
      var ops :| NeverCounted(ops, id)
        && UsedAgain(DurableRun(Durable(start * 1000, map[], []), ops).grants, id, last, due, read, measured, at);
      DurableRefines(Durable(start * 1000, map[], []), ops, id);
      DurableSecondUseIsLate(DurableRun(Durable(start * 1000, map[], []), ops).grants, id, last, due, read, measured, at);
    }
    if read <= last && read <= measured <= at && due <= at {
      DurableStraggler(start, id, last, due, read, measured, at);
    }
  }

  // ---------------------------------------------------------------- authorization codes and client assertions

  function CodeId(jti: string): string {
    "authorization-code:" + jti
  }

  function AssertionId(tag: string): string {
    "client-assertion:" + tag
  }

  /**
   * A code is opened until its expiry and claimed for a minute longer.  A second exchange is possible
   * if and only if it was opened in time and reached the store after that minute, so whatever the
   * backend it needs at least the whole minute in between.
   */
  lemma SecondExchangeIff(maxEntries: nat, start: int, jti: string, exp: int, read: int, measured: int, at: int)
    requires maxEntries >= 1 && start <= exp && exp + 60 <= start + LONGEST
    ensures var inTime := read <= exp && read <= measured <= at;
            && (MemoryAllows(maxEntries, start, CodeId(jti), exp, exp + 60, read, measured, at) <==> inTime && exp + 60 < at)
            && (DynamoAllows(start, CodeId(jti), exp, exp + 60, read, measured, at) <==> inTime && exp + 60 < at)
            && (DurableAllows(start, CodeId(jti), exp, exp + 60, read, measured, at) <==> inTime && exp + 60 <= at)
            && (inTime && exp + 60 <= at ==> at - read >= 60)
  {
    MemorySecondUseIff(maxEntries, start, CodeId(jti), exp, exp + 60, read, measured, at);
    DynamoSecondUseIff(start, CodeId(jti), exp, exp + 60, read, measured, at);
    DurableSecondUseIff(start, CodeId(jti), exp, exp + 60, read, measured, at);
  }

  /**
   * An assertion is validated until exp + skew and claimed until then.  A second acceptance is
   * possible if and only if it was validated in time and reached the store after that moment; on
   * Durable Objects, in that very second already.
   */
  lemma SecondAcceptanceIff(maxEntries: nat, start: int, tag: string, exp: int, skew: nat, validated: int, measured: int, at: int)
    requires maxEntries >= 1 && start + 60 <= exp + skew <= start + LONGEST
    ensures var due := exp + skew; var inTime := validated <= due && validated <= measured <= at;
            && (MemoryAllows(maxEntries, start, AssertionId(tag), due, due, validated, measured, at) <==> inTime && due < at)
            && (DynamoAllows(start, AssertionId(tag), due, due, validated, measured, at) <==> inTime && due < at)
            && (DurableAllows(start, AssertionId(tag), due, due, validated, measured, at) <==> inTime && due <= at)
  {
    var due := exp + skew;
    MemorySecondUseIff(maxEntries, start, AssertionId(tag), due, due, validated, measured, at);
    DynamoSecondUseIff(start, AssertionId(tag), due, due, validated, measured, at);
    DurableSecondUseIff(start, AssertionId(tag), due, due, validated, measured, at);
  }
}

/** An agent's place in its queue: no script but a submit or an update of that agent ever moves it. */
module ValkeyPlaces {
  import opened Text
  import opened Ordering
  import opened Agents
  import opened ValkeyRecords
  import opened ValkeyLaws

  /** Where an agent would wait: its queue and its position there. */
  function Place(a: Agent): (string, string, int, int) {
    (NamespaceValue(a), QueueValue(a), QueueScore(a), CreatedScore(a))
  }

  predicate SameOrigin(a: Agent, b: Agent) {
    b.id == a.id && b.createdAt == a.createdAt
  }

  /** The same agents, each with the id, the creation time and the place it had. */
  ghost predicate SamePlaces(before: Records, after: Records) {
    && after.Keys == before.Keys
    && forall id | id in before :: Place(after[id]) == Place(before[id]) && SameOrigin(before[id], after[id])
  }

  lemma RewriteKeepsPlace(a: Agent, owner: string, token: string, result: string, now: int, untilMs: int, until: Option<int>)
    ensures forall b | b in {Claimed(a, owner, token, now, untilMs, until), Released(a, now), Renewed(a, now, untilMs),
                             CompletedBy(a, owner, token, result, now)} :: Place(b) == Place(a) && SameOrigin(a, b)
  {
    assert |QUEUE| == 5 && |NAMESPACE| == 12 && |CREATED| == 12 && |QUEUE_CREATED| == 16 && |LEASE_UNTIL| == 16;
    assert |COMPLETED_BY| == 13 && |COMPLETED_TOKEN| == 19 && |COMPLETED_AT| == 13;
    assert QUEUE_CREATED[0] == 'q' && LEASE_UNTIL[0] == '_';
  }

  lemma TakeKeepsPlaces(agents: Records, r: TakeRequest, prefix: string, ofId: bool)
    ensures SamePlaces(agents, TakeHead(agents, r, prefix, ofId).agents)
  {
    hide Claimed, Place, HeadOf, LeaseDuration;
    var head := HeadOf(agents, r.ns, r.queue);
    if head.Some? && head.value in agents {
      var a := agents[head.value];
      RewriteKeepsPlace(a, r.agentId, TokenFor(prefix, ofId, head.value), "", r.now, r.now + LeaseDuration(a, r.defaultLease), None);
    }
  }

  lemma {:induction false} BatchKeepsPlaces(agents: Records, r: TakeRequest, prefix: string, index: nat, limit: nat)
    requires 1 <= index
    ensures SamePlaces(agents, TakeBatch(agents, r, prefix, index, limit).agents)
    decreases limit + 1 - index
  {
    hide TakeHead, Place;
    if index <= limit {
      TakeKeepsPlaces(agents, r, BatchPrefix(prefix, index), true);
      TakeBatchStep(agents, r, prefix, index, limit);
      BatchKeepsPlaces(TakeHead(agents, r, BatchPrefix(prefix, index), true).agents, r, prefix, index + 1, limit);
    }
  }

  lemma ReapKeepsPlaces(agents: Records, now: int, batch: nat)
    ensures SamePlaces(agents, ReapOnce(agents, now, batch).agents)
  {
    hide Released, Place, ReapTargets;
    forall id | id in agents ensures Place(Released(agents[id], now)) == Place(agents[id]) && SameOrigin(agents[id], Released(agents[id], now)) {
      RewriteKeepsPlace(agents[id], "", "", "", now, 0, None);
    }
  }

  predicate IsLocal(op: Op) {
    !op.OutOp? && !op.UpdateOp? && !op.CompleteAndOutOp?
  }

  lemma LocalKeepsPlaces(agents: Records, op: Op)
    requires IsLocal(op)
    ensures SamePlaces(agents, Apply(agents, op).agents)
  {
    hide Claimed, Released, Renewed, CompletedBy, Place, TakeHead, TakeBatch, ReapOnce;
    match op
    case ClaimOp(id, agentId, token, now, untilMs) =>
      if id in agents { RewriteKeepsPlace(agents[id], agentId, token, "", now, untilMs, Some(untilMs)); }
    case QueueTakeOp(r, token) => TakeKeepsPlaces(agents, r, token, false);
    case QueueBatchTakeOp(r, prefix, limit) => BatchKeepsPlaces(agents, r, prefix, 1, limit);
    case CompleteOp(id, agentId, token, result, now) =>
      if id in agents { RewriteKeepsPlace(agents[id], agentId, token, result, now, 0, None); }
    case ReleaseOp(id, agentId, token, now) =>
      if id in agents { RewriteKeepsPlace(agents[id], agentId, token, "", now, 0, None); }
    case RenewOp(id, agentId, token, now, untilMs) =>
      if id in agents { RewriteKeepsPlace(agents[id], agentId, token, "", now, untilMs, None); }
    case ReapOp(now, batch) => ReapKeepsPlaces(agents, now, batch);
  }

  lemma {:induction false} OutAllElsewhere(agents: Records, outputs: seq<Agent>, id: string)
    requires id in agents && forall k | 0 <= k < |outputs| :: outputs[k].id != id
    ensures id in OutAll(agents, outputs) && OutAll(agents, outputs)[id] == agents[id]
    decreases |outputs|
  {
    if outputs != [] {
      OutAllElsewhere(agents[outputs[0].id := outputs[0]], outputs[1..], id);
    }
  }

  /** The script neither submits nor updates this agent. */
  predicate LeavesAlone(op: Op, id: string) {
    && (op.OutOp? ==> op.agent.id != id)
    && (op.UpdateOp? ==> op.id != id)
    && (op.CompleteAndOutOp? ==> forall k | 0 <= k < |op.outputs| :: op.outputs[k].id != id)
  }

  lemma StepKeepsPlace(agents: Records, op: Op, id: string)
    requires id in agents && LeavesAlone(op, id)
    ensures var after := Apply(agents, op).agents; id in after && Place(after[id]) == Place(agents[id])
  {
    hide Place, CompletedBy, Claimed, Released, Renewed, TakeHead, TakeBatch, ReapOnce;
    if IsLocal(op) {
      LocalKeepsPlaces(agents, op);
    } else if op.CompleteAndOutOp? && op.id in agents {
      var done := CompletedBy(agents[op.id], op.agentId, op.token, op.result, op.now);
      RewriteKeepsPlace(agents[op.id], op.agentId, op.token, op.result, op.now, 0, None);
      OutAllElsewhere(agents[op.id := done], op.outputs, id);
    }
  }

  ghost predicate AllLeaveAlone(ops: seq<Op>, id: string) {
    forall i | 0 <= i < |ops| :: LeavesAlone(ops[i], id)
  }

  /** Over any run of scripts an agent keeps its place unless it is itself submitted again or updated. */
  lemma {:induction false} RunKeepsPlace(agents: Records, ops: seq<Op>, id: string)
    requires id in agents && AllLeaveAlone(ops, id)
    ensures var after := ApplyAll(agents, ops); id in after && Place(after[id]) == Place(agents[id])
    decreases |ops|
  {
    hide Place, Apply, LeavesAlone;
    if ops != [] {
      StepKeepsPlace(agents, ops[0], id);
      RunKeepsPlace(Apply(agents, ops[0]).agents, ops[1..], id);
    }
  }

  /**
   * Whatever happens between two moments at which an agent waits, it waits in the same queue with the
   * same score, and in the same order against every other agent that was left alone.
   */
  lemma WaitsWhereItWaited(agents: Records, ops: seq<Op>, id: string, other: string, ns: string, queue: string)
    requires id in agents && other in agents && Queued(agents[id], ns, queue)
    requires AllLeaveAlone(ops, id) && AllLeaveAlone(ops, other)
    ensures var after := ApplyAll(agents, ops);
            && id in after && other in after
            && (Queued(after[id], ns, queue) <==> after[id].status == New)
            && QueueScore(after[id]) == QueueScore(agents[id])
            && (Ahead(after, id, other) <==> Ahead(agents, id, other))
  {
    hide ApplyAll, QueueScore, CreatedScore;
    RunKeepsPlace(agents, ops, id);
    RunKeepsPlace(agents, ops, other);
  }

  /** The script puts this agent back: a release that was granted, or a reaper pass over its expired lease. */
  ghost predicate PutsBack(agents: Records, op: Op, id: string) {
    || (op.ReleaseOp? && op.id == id && Apply(agents, op).code == ReleasedOk)
    || (op.ReapOp? && id in ReapTargets(agents, op.now, op.batch))
  }

  lemma PutBackWaits(agents: Records, op: Op, id: string)
    requires id in agents && PutsBack(agents, op, id)
    ensures id in Apply(agents, op).agents && Apply(agents, op).agents[id].status == New
  {
    if op.ReapOp? {
      ReapSparesRunning(agents, op.now, op.batch, id);
    }
  }

  lemma {:induction false} ApplyAllSnoc(agents: Records, ops: seq<Op>, op: Op)
    ensures ApplyAll(agents, ops + [op]) == Apply(ApplyAll(agents, ops), op).agents
    decreases |ops|
  {
    hide Apply;
    if ops == [] {
      assert ops + [op] == [op] && [op][1..] == [];
    } else {
      assert (ops + [op])[1..] == ops[1..] + [op];
      ApplyAllSnoc(Apply(agents, ops[0]).agents, ops[1..], op);
    }
  }

  /** An agent that was claimed out of a queue and is put back after any run stands in the queue's sorted set as before. */
  lemma PutBackRegainsPosition(agents: Records, ops: seq<Op>, last: Op, id: string, ns: string, queue: string)
    requires id in agents && Queued(agents[id], ns, queue) && AllLeaveAlone(ops, id)
    requires PutsBack(ApplyAll(agents, ops), last, id)
    ensures var scores := QueueScores(ApplyAll(agents, ops + [last]), ns, queue);
            id in scores && scores[id] == QueueScores(agents, ns, queue)[id]
  {
    hide ApplyAll, Apply, QueueScore, CreatedScore;
    var mid := ApplyAll(agents, ops);
    RunKeepsPlace(agents, ops, id);
    assert LeavesAlone(last, id);
    StepKeepsPlace(mid, last, id);
    PutBackWaits(mid, last, id);
    ApplyAllSnoc(agents, ops, last);
  }
}

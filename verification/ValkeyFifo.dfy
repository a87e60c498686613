/** First in, first out: what order the queues of a Valkey store really serve, told by creation times. */
module ValkeyFifo {
  import opened Text
  import opened Ordering
  import opened Agents
  import opened ValkeyRecords
  import opened ValkeyLaws
  import opened ValkeyPlaces
  import opened ValkeyQuery
  import opened Placement

  /** The agent waits in this queue of this namespace; the column decides, then the metadata. */
  predicate WaitsIn(a: Agent, ns: string, queue: string) {
    && a.status == New && queue != "" && Has(a.metadata, QUEUE, queue)
    && (if a.namespaceId != "" then a.namespaceId == ns
        else if NAMESPACE in a.metadata then a.metadata[NAMESPACE] == ns
        else ns == "")
  }

  lemma WaitsIsQueued(a: Agent, ns: string, queue: string)
    ensures Queued(a, ns, queue) <==> WaitsIn(a, ns, queue)
  {
  }

  /** Created earlier, or at the same time with the smaller id. */
  predicate Earlier(agents: Records, id: string, other: string)
    requires id in agents && other in agents
  {
    agents[id].createdAt < agents[other].createdAt || (agents[id].createdAt == agents[other].createdAt && StrLess(id, other))
  }

  ghost predicate IsOldest(agents: Records, ns: string, queue: string, id: string) {
    && id in agents && WaitsIn(agents[id], ns, queue)
    && forall other | other in agents && other != id && WaitsIn(agents[other], ns, queue) :: Earlier(agents, id, other)
  }

  /** The record ranks by its creation time. */
  predicate RanksByAge(a: Agent) {
    QueueScore(a) == a.createdAt && CreatedScore(a) == a.createdAt
  }

  lemma HeadIsOldest(agents: Records, ns: string, queue: string, id: string)
    requires forall k | k in agents :: RanksByAge(agents[k])
    ensures HeadOf(agents, ns, queue) == Some(id) <==> IsOldest(agents, ns, queue, id)
  {
    hide HeadOf, QueueScore, CreatedScore, WaitsIn, Queued;
    HeadIsLeast(agents, ns, queue, id);
    forall k | k in agents ensures Queued(agents[k], ns, queue) <==> WaitsIn(agents[k], ns, queue) {
      WaitsIsQueued(agents[k], ns, queue);
    }
  }

  /** Of two waiting agents that carry a queue time, the one with the later time is not the head. */
  lemma LaterQueueTimeWaits(agents: Records, ns: string, queue: string, id: string, other: string, m: int, n: int)
    requires id in agents && WaitsIn(agents[id], ns, queue) && Has(agents[id].metadata, QUEUE_CREATED, FormatInt(m))
    requires other in agents && WaitsIn(agents[other], ns, queue) && Has(agents[other].metadata, QUEUE_CREATED, FormatInt(n))
    requires m < n
    ensures HeadOf(agents, ns, queue) != Some(other)
  {
    WaitsIsQueued(agents[id], ns, queue);
    WaitsIsQueued(agents[other], ns, queue);
    ToNumberOfFormat(m);
    ToNumberOfFormat(n);
    HeadIsLeast(agents, ns, queue, other);
  }

  // ----- Normalised records -----

  /** Whatever queue time the agent brings is its creation time, or not a number at all. */
  predicate BringsNoOtherTime(a: Agent) {
    ScoreOr(MetaValue(a, QUEUE_CREATED), a.createdAt) == a.createdAt
  }

  lemma NormalizedRanksByAge(a: Agent)
    requires BringsNoOtherTime(a)
    ensures RanksByAge(Normalized(a)) && Normalized(a).createdAt == a.createdAt
  {
    KeysApart();
    TimeKeysApart();
    ToNumberOfFormat(a.createdAt);
    hide ToNumber, FormatInt, TrimSpace;
  }

  lemma TimeKeysApart()
    ensures CREATED != QUEUE_CREATED && CREATED != LEASE_UNTIL && QUEUE_CREATED != LEASE_UNTIL
  {
    assert |CREATED| == 12 && |QUEUE_CREATED| == 16 && |LEASE_UNTIL| == 16 && QUEUE_CREATED[0] == 'q' && LEASE_UNTIL[0] == '_';
  }

  lemma NoTimeBrought(a: Agent)
    requires QUEUE_CREATED !in a.metadata
    ensures BringsNoOtherTime(a)
  {
  }

  /** What a submit stores from agents that bring no queue time is served first in, first out. */
  lemma SubmittedFirstInFirstOut(drafts: Records, ns: string, queue: string, id: string)
    requires forall k | k in drafts :: QUEUE_CREATED !in drafts[k].metadata
    ensures var agents := map k | k in drafts :: Normalized(drafts[k]);
            HeadOf(agents, ns, queue) == Some(id) <==> IsOldest(agents, ns, queue, id)
  {
    hide HeadOf, Normalized, RanksByAge, IsOldest;
    var agents := map k | k in drafts :: Normalized(drafts[k]);
    forall k | k in agents ensures RanksByAge(agents[k]) {
      NoTimeBrought(drafts[k]);
      NormalizedRanksByAge(drafts[k]);
    }
    HeadIsOldest(agents, ns, queue, id);
  }

  // ----- Whole runs of a store -----

  /** No step brings a queue time of its own, and no update moves the creation time. */
  ghost predicate NoOwnTimes(c: Cluster, step: Step) {
    && (step.OutStep? ==> QUEUE_CREATED !in step.agent.metadata)
    && (step.UpdateStep? ==>
          && QUEUE_CREATED !in step.metadata
          && (step.shard < |c| && step.id in c[step.shard] ==> step.next.createdAt == c[step.shard][step.id].createdAt))
    && (step.CompleteAndOutStep? ==> forall k | 0 <= k < |step.outputs| :: QUEUE_CREATED !in step.outputs[k].metadata)
  }

  ghost predicate AllRankByAge(agents: Records) {
    forall id | id in agents :: RanksByAge(agents[id])
  }

  lemma UpdatedRanksByAge(current: Agent, metadata: map<string, string>, next: Agent)
    requires RanksByAge(current) && QUEUE_CREATED !in metadata && next.createdAt == current.createdAt
    ensures RanksByAge(Placement.Updated(current, metadata, next))
  {
    hide Normalized, ToNumber;
    var merged := next.(id := current.id, namespaceId := Decoded(current).namespaceId, metadata := current.metadata + metadata);
    assert MetaValue(merged, QUEUE_CREATED) == MetaValue(current, QUEUE_CREATED);
    NormalizedRanksByAge(merged);
  }

  lemma OutputsRankByAge(outputs: seq<Agent>, parent: Agent)
    requires forall k | 0 <= k < |outputs| :: QUEUE_CREATED !in outputs[k].metadata
    ensures forall k | 0 <= k < |outputs| :: RanksByAge(ForParent(outputs, parent)[k])
  {
    hide Normalized, RanksByAge;
    forall k | 0 <= k < |outputs| ensures RanksByAge(ForParent(outputs, parent)[k]) {
      NoTimeBrought(InheritedFrom(outputs[k], parent));
      NormalizedRanksByAge(InheritedFrom(outputs[k], parent));
    }
  }

  lemma {:induction false} OutAllRanksByAge(agents: Records, outputs: seq<Agent>)
    requires AllRankByAge(agents) && forall k | 0 <= k < |outputs| :: RanksByAge(outputs[k])
    ensures AllRankByAge(OutAll(agents, outputs))
    decreases |outputs|
  {
    hide RanksByAge;
    if outputs != [] {
      OutAllRanksByAge(agents[outputs[0].id := outputs[0]], outputs[1..]);
    }
  }

  lemma LocalRanksByAge(agents: Records, op: Op)
    requires AllRankByAge(agents) && IsLocal(op)
    ensures AllRankByAge(Apply(agents, op).agents)
  {
    hide Apply, QueueScore, CreatedScore;
    LocalKeepsPlaces(agents, op);
  }

  lemma CompleteAndOutRanksByAge(agents: Records, id: string, agentId: string, token: string, result: string, outputs: seq<Agent>, now: int)
    requires AllRankByAge(agents) && forall k | 0 <= k < |outputs| :: RanksByAge(outputs[k])
    ensures AllRankByAge(Apply(agents, CompleteAndOutOp(id, agentId, token, result, outputs, now)).agents)
  {
    CompleteAndOutRecords(agents, id, agentId, token, result, outputs, now);
    hide Apply, QueueScore, CreatedScore, CompletedBy;
    if id in agents {
      var done := CompletedBy(agents[id], agentId, token, result, now);
      RewriteKeepsPlace(agents[id], agentId, token, result, now, 0, None);
      assert RanksByAge(done) by {
        assert Place(done) == Place(agents[id]);
      }
      OutAllRanksByAge(agents[id := done], outputs);
    }
  }

  ghost predicate ClusterRanksByAge(c: Cluster) {
    forall i | 0 <= i < |c| :: AllRankByAge(c[i])
  }

  lemma StepRanksByAge(hash: Hash, c: Cluster, step: Step)
    requires c != [] && ClusterRanksByAge(c) && NoOwnTimes(c, step)
    ensures ClusterRanksByAge(TakeStep(hash, c, step))
  {
    hide HomeOf, MovesQueue, Normalized, Placement.Updated, ForParent, RanksByAge, Decoded;
    match step {
      case OutStep(a) =>
        NoTimeBrought(a);
        NormalizedRanksByAge(a);
      case UpdateStep(i, id, metadata, next) =>
        if i < |c| && id in c[i] {
          UpdatedRanksByAge(c[i][id], metadata, next);
        }
      case CompleteAndOutStep(i, id, agentId, token, result, outputs, now) =>
        if i < |c| && id in c[i] {
          var outs := ForParent(outputs, Decoded(c[i][id]));
          OutputsRankByAge(outputs, Decoded(c[i][id]));
          CompleteAndOutRanksByAge(c[i], id, agentId, token, result, outs, now);
        }
      case LocalStep(i, op) =>
        if i < |c| && IsLocal(op) {
          LocalRanksByAge(c[i], op);
        }
    }
  }

  ghost predicate NeverOwnTimes(hash: Hash, c: Cluster, steps: seq<Step>)
    requires c != []
    decreases |steps|
  {
    steps == [] || (NoOwnTimes(c, steps[0]) && NeverOwnTimes(hash, TakeStep(hash, c, steps[0]), steps[1..]))
  }

  lemma {:induction false} StepsRankByAge(hash: Hash, c: Cluster, steps: seq<Step>)
    requires c != [] && ClusterRanksByAge(c) && NeverOwnTimes(hash, c, steps)
    ensures ClusterRanksByAge(TakeSteps(hash, c, steps))
    decreases |steps|
  {
    hide TakeStep, NoOwnTimes, ClusterRanksByAge;
    if steps != [] {
      StepRanksByAge(hash, c, steps[0]);
      StepsRankByAge(hash, TakeStep(hash, c, steps[0]), steps[1..]);
    }
  }

  /**
   * In every store reached by submits, updates, takes, renewals, releases, completions and reaping, the
   * head of a queue is its oldest waiting agent: least creation time, ties by id.
   */
  lemma ReachableFirstInFirstOut(hash: Hash, shards: nat, steps: seq<Step>, i: nat, ns: string, queue: string, id: string)
    requires i < shards && NeverOwnTimes(hash, NoAgents(shards), steps)
    ensures var agents := TakeSteps(hash, NoAgents(shards), steps)[i];
            HeadOf(agents, ns, queue) == Some(id) <==> IsOldest(agents, ns, queue, id)
  {
    hide HeadOf, IsOldest, RanksByAge, NeverOwnTimes;
    StepsRankByAge(hash, NoAgents(shards), steps);
    HeadIsOldest(TakeSteps(hash, NoAgents(shards), steps)[i], ns, queue, id);
  }
}

/**
 * What each Valkey script does to a record, field by field, and who may run it. The laws speak of
 * fields and metadata entries alone.
 */
module ValkeyEffects {
  import opened Text
  import opened Ordering
  import opened Agents
  import opened ValkeyRecords
  import opened ValkeyLaws

  /** The lease a client must hold to end or extend it. */
  predicate HoldsLease(agents: Records, id: string, agentId: string, token: string) {
    id in agents && agents[id].status == InProgress && agents[id].owner == agentId && agents[id].leaseToken == token
  }

  predicate IsLeaseOp(op: Op) {
    op.CompleteOp? || op.CompleteAndOutOp? || op.ReleaseOp? || op.RenewOp?
  }

  predicate IsGrant(code: Code) {
    code == CompletedOk || code == CompletedAndOut || code == ReleasedOk || code == RenewedOk
  }

  /** The first thing that is wrong with the record for this client. */
  predicate NamesConflict(a: Agent, agentId: string, token: string, code: Code) {
    && (a.status != InProgress ==> code == InvalidStatus)
    && (a.status == InProgress && a.owner != agentId ==> code == OwnerMismatch)
    && (a.status == InProgress && a.owner == agentId && a.leaseToken != token ==> code == TokenMismatch)
  }

  /**
   * A complete, complete-and-out, release or renew is granted exactly to the holder of the lease.
   * Everybody else changes nothing and is told the first field that differs.
   */
  lemma GrantedToHolderOnly(agents: Records, op: Op)
    requires IsLeaseOp(op)
    ensures var r := Apply(agents, op);
            && (IsGrant(r.code) <==> HoldsLease(agents, op.id, op.agentId, op.token))
            && (!IsGrant(r.code) ==> r.agents == agents)
            && (IsGrant(r.code) && !op.RenewOp? && !op.CompleteAndOutOp? ==> r.agents != agents)
            && (op.id !in agents ==> r.code == NotFound)
            && (op.id in agents ==>
                  if op.CompleteOp? && agents[op.id].status == Completed then
                    r.code == if MetaValue(agents[op.id], COMPLETED_TOKEN) == op.token then AlreadyCompleted else StaleToken
                  else NamesConflict(agents[op.id], op.agentId, op.token, r.code))
  {
    hide OutAll;
  }

  /** No other record is touched. */
  ghost predicate OnlyRecord(before: Records, after: Records, id: string) {
    && id in before && after.Keys == before.Keys
    && forall other | other in before && other != id :: after[other] == before[other]
  }

  lemma KeysDiffer()
    ensures COMPLETED_BY != COMPLETED_TOKEN && COMPLETED_BY != COMPLETED_AT && COMPLETED_TOKEN != COMPLETED_AT
    ensures LEASE_UNTIL !in {COMPLETED_BY, COMPLETED_TOKEN, COMPLETED_AT}
  {
    assert |COMPLETED_BY| == 13 && |COMPLETED_TOKEN| == 19 && |COMPLETED_AT| == 13 && |LEASE_UNTIL| == 16;
    assert COMPLETED_BY[11] == 'b' && COMPLETED_AT[11] == 'a';
  }

  // ----- Completion -----

  ghost predicate IsCompletion(a: Agent, b: Agent, agentId: string, token: string, result: string, now: int) {
    && SameWork(a, b) && b.status == Completed && NoLease(b) && b.version == a.version + 1 && b.updatedAt == now
    && Has(b.payload, "result", result) && SameExcept(a.payload, b.payload, {"result"})
    && Has(b.metadata, COMPLETED_BY, agentId) && Has(b.metadata, COMPLETED_TOKEN, token)
    && Has(b.metadata, COMPLETED_AT, FormatInt(now)) && LEASE_UNTIL !in b.metadata
    && SameExcept(a.metadata, b.metadata, {COMPLETED_BY, COMPLETED_TOKEN, COMPLETED_AT, LEASE_UNTIL})
  }

  lemma CompletedByIs(a: Agent, agentId: string, token: string, result: string, now: int)
    ensures IsCompletion(a, CompletedBy(a, agentId, token, result, now), agentId, token, result, now)
  {
    KeysDiffer();
  }

  /** The holder's completion puts result and winner on record and ends the lease. */
  lemma CompleteEffect(agents: Records, id: string, agentId: string, token: string, result: string, now: int)
    requires HoldsLease(agents, id, agentId, token)
    ensures var after := Apply(agents, CompleteOp(id, agentId, token, result, now)).agents;
            OnlyRecord(agents, after, id) && IsCompletion(agents[id], after[id], agentId, token, result, now)
  {
    hide CompletedBy, IsCompletion;
    CompletedByIs(agents[id], agentId, token, result, now);
  }

  ghost predicate DistinctIds(outputs: seq<Agent>) {
    forall i, j | 0 <= i < j < |outputs| :: outputs[i].id != outputs[j].id
  }

  predicate IsOutput(outputs: seq<Agent>, id: string) {
    exists k :: 0 <= k < |outputs| && outputs[k].id == id
  }

  lemma {:induction false} OutAllStores(agents: Records, outputs: seq<Agent>)
    requires DistinctIds(outputs)
    ensures var after := OutAll(agents, outputs);
            && (forall k | 0 <= k < |outputs| :: outputs[k].id in after && after[outputs[k].id] == outputs[k])
            && (forall id | !IsOutput(outputs, id) ::
                  (id in after <==> id in agents) && (id in after ==> after[id] == agents[id]))
    decreases |outputs|
  {
    if outputs != [] {
      var rest, more := outputs[1..], agents[outputs[0].id := outputs[0]];
      assert forall k | 0 <= k < |rest| :: rest[k] == outputs[k + 1];
      OutAllStores(more, rest);
      forall k | 0 <= k < |outputs|
        ensures outputs[k].id in OutAll(agents, outputs) && OutAll(agents, outputs)[outputs[k].id] == outputs[k]
      {
        if k > 0 {
          assert rest[k - 1] == outputs[k];
        }
      }
      forall id | !IsOutput(outputs, id)
        ensures var after := OutAll(agents, outputs); (id in after <==> id in agents) && (id in after ==> after[id] == agents[id])
      {
        assert outputs[0].id != id;
        assert !IsOutput(rest, id);
      }
    }
  }

  /** Completing with outputs completes the agent and stores every output as given; nothing else changes. */
  lemma CompleteAndOutEffect(agents: Records, id: string, agentId: string, token: string, result: string, outputs: seq<Agent>, now: int)
    requires HoldsLease(agents, id, agentId, token) && DistinctIds(outputs)
    requires !IsOutput(outputs, id)
    ensures var after := Apply(agents, CompleteAndOutOp(id, agentId, token, result, outputs, now)).agents;
            && id in after && IsCompletion(agents[id], after[id], agentId, token, result, now)
            && (forall k | 0 <= k < |outputs| :: outputs[k].id in after && after[outputs[k].id] == outputs[k])
            && (forall other | other != id && !IsOutput(outputs, other) ::
                  (other in after <==> other in agents) && (other in after ==> after[other] == agents[other]))
  {
    hide CompletedBy, IsCompletion, OutAll;
    CompletedByIs(agents[id], agentId, token, result, now);
    OutAllStores(agents[id := CompletedBy(agents[id], agentId, token, result, now)], outputs);
  }

  // ----- Release, renew, claim -----

  ghost predicate IsReset(a: Agent, b: Agent, now: int) {
    && SameWork(a, b) && b.status == New && NoLease(b) && b.version == a.version + 1 && b.updatedAt == now
    && b.payload == a.payload && LEASE_UNTIL !in b.metadata && SameExcept(a.metadata, b.metadata, {LEASE_UNTIL})
  }

  lemma ReleaseEffect(agents: Records, id: string, agentId: string, token: string, now: int)
    requires HoldsLease(agents, id, agentId, token)
    ensures var after := Apply(agents, ReleaseOp(id, agentId, token, now)).agents;
            OnlyRecord(agents, after, id) && IsReset(agents[id], after[id], now)
  {
  }

  /** A renewal moves the expiry to what was asked; version, owner and token stay. */
  lemma RenewEffect(agents: Records, id: string, agentId: string, token: string, now: int, untilMs: int)
    requires HoldsLease(agents, id, agentId, token)
    ensures var after := Apply(agents, RenewOp(id, agentId, token, now, untilMs)).agents;
            && OnlyRecord(agents, after, id)
            && var a, b := agents[id], after[id];
               && SameWork(a, b) && b.status == InProgress && b.owner == agentId && b.leaseToken == token
               && b.version == a.version && b.payload == a.payload && b.ownerTime == Some(now) && b.updatedAt == now
               && b.leaseUntil == Some(untilMs) && Has(b.metadata, LEASE_UNTIL, FormatInt(untilMs))
               && SameExcept(a.metadata, b.metadata, {LEASE_UNTIL})
  {
  }

  ghost predicate IsClaim(a: Agent, b: Agent, agentId: string, token: string, now: int, untilMs: int) {
    && SameWork(a, b) && b.status == InProgress && b.owner == agentId && b.leaseToken == token && b.version == a.version + 1
    && b.ownerTime == Some(now) && b.updatedAt == now && b.payload == a.payload
    && Has(b.metadata, LEASE_UNTIL, FormatInt(untilMs)) && SameExcept(a.metadata, b.metadata, {LEASE_UNTIL})
  }

  lemma ClaimEffect(agents: Records, id: string, agentId: string, token: string, now: int, untilMs: int)
    ensures var r := Apply(agents, ClaimOp(id, agentId, token, now, untilMs));
            if id !in agents then r == Outcome(agents, NotFound)
            else if agents[id].status != New then r == Outcome(agents, StatusChanged)
            else
              && r.code == ClaimedOne && OnlyRecord(agents, r.agents, id)
              && IsClaim(agents[id], r.agents[id], agentId, token, now, untilMs) && r.agents[id].leaseUntil == Some(untilMs)
  {
  }

  /** How long a lease lasts: lease_ms if it is a positive numeral, else lease_sec if it is one, else the default. */
  ghost predicate IsLeaseLength(m: map<string, string>, default: int, length: int) {
    && (forall n: nat | n > 0 && Has(m, LEASE_MS, Decimal(n)) :: length == n)
    && (forall n: nat | n > 0 && Unusable(m, LEASE_MS) && Has(m, LEASE_SEC, Decimal(n)) :: length == 1000 * n)
    && (Unusable(m, LEASE_MS) && Unusable(m, LEASE_SEC) ==> length == default)
  }

  /** The entry is missing, empty, or a number that is not positive. */
  ghost predicate Unusable(m: map<string, string>, key: string) {
    key !in m || m[key] == "" || exists n: int :: n <= 0 && m[key] == FormatInt(n)
  }

  lemma NotPositive(m: map<string, string>, key: string)
    requires Unusable(m, key)
    ensures ScoreOr(if key in m then m[key] else "", 0) <= 0
  {
    if key in m && m[key] != "" {
      var n: int :| n <= 0 && m[key] == FormatInt(n);
      ToNumberOfFormat(n);
    }
  }

  lemma LengthOfLease(a: Agent, default: int)
    ensures IsLeaseLength(a.metadata, default, LeaseDuration(a, default))
  {
    hide FormatInt, ToNumber;
    forall n: nat ensures ScoreOr(Decimal(n), 0) == n {
      NumeralScore(n);
    }
    if Unusable(a.metadata, LEASE_MS) {
      NotPositive(a.metadata, LEASE_MS);
    }
    if Unusable(a.metadata, LEASE_SEC) {
      NotPositive(a.metadata, LEASE_SEC);
    }
  }

  lemma NumeralScore(n: nat)
    ensures ScoreOr(Decimal(n), 0) == n
  {
    ToNumberOfFormat(n);
  }

  /**
   * A queue take claims the head for the taker if it is of the wanted kind and owner, for the time its
   * metadata or the default says, and changes nothing otherwise.
   */
  lemma QueueTakeEffect(agents: Records, r: TakeRequest, token: string)
    ensures var out := Apply(agents, QueueTakeOp(r, token));
            match HeadOf(agents, r.ns, r.queue)
            case None => out == Outcome(agents, Empty)
            case Some(id) =>
              && id in agents
              && if (r.kind == "" || agents[id].kind == r.kind) && (r.owner == "" || agents[id].owner == r.owner) then
                   && out.code == ClaimedOne && OnlyRecord(agents, out.agents, id)
                   && exists length :: IsLeaseLength(agents[id].metadata, r.defaultLease, length)
                                       && IsClaim(agents[id], out.agents[id], r.agentId, token, r.now, r.now + length)
                 else out == Outcome(agents, NotQueueHead)
  {
    hide HeadOf, LeaseDuration, IsLeaseLength;
    var head := HeadOf(agents, r.ns, r.queue);
    if head.Some? {
      HeadIsLeast(agents, r.ns, r.queue, head.value);
      var a := agents[head.value];
      LengthOfLease(a, r.defaultLease);
      if Wanted(a, r) {
        assert IsClaim(a, Apply(agents, QueueTakeOp(r, token)).agents[head.value], r.agentId, token, r.now,
                       r.now + LeaseDuration(a, r.defaultLease));
      }
    }
  }

  // ----- Expiry -----

  /** A running lease that lasts until `until`. */
  predicate RunsUntil(agents: Records, id: string, until: int) {
    id in agents && agents[id].status == InProgress && Has(agents[id].metadata, LEASE_UNTIL, FormatInt(until))
  }

  lemma ScoreOfLease(agents: Records, id: string, until: int)
    requires RunsUntil(agents, id, until)
    ensures LeaseScore(agents[id]) == until
  {
    ToNumberOfFormat(until);
  }

  lemma BigBatchTakesAll(agents: Records, now: int, batch: nat, id: string)
    requires |agents| <= batch
    ensures id in ReapTargets(agents, now, batch) <==> id in ExpiredScores(agents, now)
  {
    hide ExpiredScores;
    var expired := ExpiredScores(agents, now);
    InOrderSpec(expired);
    FewerExpired(agents, now);
    assert ReapTargets(agents, now, batch) == InOrder(expired);
    assert id in InOrder(expired) <==> id in expired.Keys;
  }

  lemma FewerExpired(agents: Records, now: int)
    ensures |ExpiredScores(agents, now)| <= |agents|
  {
    var expired := ExpiredScores(agents, now);
    Smaller(expired.Keys, agents.Keys);
    assert |expired| == |expired.Keys| && |agents| == |agents.Keys|;
  }

  lemma {:induction false} Smaller(a: set<string>, b: set<string>)
    requires a <= b
    ensures |a| <= |b|
  {
    if x :| x in a {
      Smaller(a - {x}, b - {x});
    }
  }

  /** A pass with room for everyone ends a lease exactly when its time has come. */
  lemma ReapEndsWhatRanOut(agents: Records, now: int, batch: nat, id: string, until: int)
    requires RunsUntil(agents, id, until) && |agents| <= batch
    ensures var after := Apply(agents, ReapOp(now, batch)).agents;
            id in after && if 0 < until <= now then IsReset(agents[id], after[id], now) else after[id] == agents[id]
  {
    hide ReapTargets, ExpiredScores, LeaseScore;
    ScoreOfLease(agents, id, until);
    ReapSparesRunning(agents, now, batch, id);
    BigBatchTakesAll(agents, now, batch, id);
    ExpiredMeans(agents, now, id);
  }

  /** A smaller pass never ends a lease while it leaves one that ran out earlier. */
  lemma EarlierLeaseEndsFirst(agents: Records, now: int, batch: nat, id: string, until: int, later: string, untilLater: int)
    requires RunsUntil(agents, id, until) && RunsUntil(agents, later, untilLater) && 0 < until < untilLater
    ensures later in ReapTargets(agents, now, batch) ==> id in ReapTargets(agents, now, batch)
  {
    hide ReapTargets, ExpiredScores, LeaseScore;
    var ids := ReapTargets(agents, now, batch);
    ScoreOfLease(agents, id, until);
    ScoreOfLease(agents, later, untilLater);
    ExpiredMeans(agents, now, id);
    ExpiredMeans(agents, now, later);
    ExpiredValue(agents, now, id);
    ExpiredValue(agents, now, later);
    ReapTargetsEarliest(agents, now, batch);
    if later in ids {
      var i :| 0 <= i < |ids| && ids[i] == later;
      assert ids[i] in ExpiredScores(agents, now);
    }
  }

  lemma ExpiredValue(agents: Records, now: int, id: string)
    ensures id in ExpiredScores(agents, now) ==> ExpiredScores(agents, now)[id] == LeaseScore(agents[id])
  {
  }
}

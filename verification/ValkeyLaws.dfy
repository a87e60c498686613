/** Laws of the Valkey scripts: queue order, batches and the reaper. */
module ValkeyLaws {
  import opened Text
  import opened Ordering
  import opened Agents
  import opened ValkeyRecords

  lemma InOrderSpec(scores: map<string, int>)
    ensures var order := InOrder(scores);
            && Enumerates(order, scores.Keys) && |order| == |scores|
            && forall i, j | 0 <= i < j < |order| :: Before(ScoreKey(scores)(order[i]), ScoreKey(scores)(order[j]))
  {
    var key, order := ScoreKey(scores), InOrder(scores);
    ListingSpec(scores.Keys, key);
    forall i, j | 0 <= i < j < |order| ensures Before(key(order[i]), key(order[j])) {
      BeforeTotal(key(order[i]), key(order[j]));
    }
  }

  predicate Ahead(agents: Records, id: string, other: string)
    requires id in agents && other in agents
  {
    Before(SortKey(QueueScore(agents[id]), id), SortKey(QueueScore(agents[other]), other))
  }

  /** The head is the least waiting agent of its queue, and the only candidate for that place. */
  lemma HeadIsLeast(agents: Records, ns: string, queue: string, id: string)
    ensures HeadOf(agents, ns, queue) == Some(id) <==>
              && id in agents && Queued(agents[id], ns, queue)
              && forall other | other in agents && Queued(agents[other], ns, queue) && other != id :: Ahead(agents, id, other)
    ensures HeadOf(agents, ns, queue) == None <==> forall other | other in agents :: !Queued(agents[other], ns, queue)
  {
    var scores := QueueScores(agents, ns, queue);
    var order := InOrder(scores);
    InOrderSpec(scores);
    if order != [] {
      var head := order[0];
      assert head in order;
      forall other | other in scores && other != head ensures Ahead(agents, head, other) {
        assert other in order;
        var j :| 0 <= j < |order| && order[j] == other;
      }
      if id in scores && id != head {
        BeforeTotal(SortKey(scores[id], id), SortKey(scores[head], head));
      }
    }
    assert forall other | other in agents && Queued(agents[other], ns, queue) :: other in scores && other in order;
  }

  /**
   * A take either claims that least agent, leaving every other record alone, or changes nothing: when
   * the queue is empty, or when its head is not of the wanted kind and owner.
   */
  lemma TakeClaimsHeadOnly(agents: Records, r: TakeRequest, token: string)
    ensures var out := Apply(agents, QueueTakeOp(r, token));
            match HeadOf(agents, r.ns, r.queue)
            case None => out == Outcome(agents, Empty)
            case Some(id) =>
              id in agents &&
              if Wanted(agents[id], r) then
                && out.code == ClaimedOne && out.agents.Keys == agents.Keys
                && (forall other | other in agents && other != id :: out.agents[other] == agents[other])
                && out.agents[id].status == InProgress && out.agents[id].leaseToken == token
                && out.agents[id].owner == r.agentId && out.agents[id].version == agents[id].version + 1
                && LeaseScore(out.agents[id]) == r.now + LeaseDuration(agents[id], r.defaultLease)
              else out == Outcome(agents, NotQueueHead)
  {
    var head := HeadOf(agents, r.ns, r.queue);
    if head.Some? {
      HeadIsLeast(agents, r.ns, r.queue, head.value);
      ToNumberOfFormat(r.now + LeaseDuration(agents[head.value], r.defaultLease));
    }
  }

  function TakeOps(r: TakeRequest, tokens: seq<string>): seq<Op> {
    seq(|tokens|, i requires 0 <= i < |tokens| => QueueTakeOp(r, tokens[i]))
  }

  /** Token `i` of a batch starts with the batch's prefix and the position `index + i`. */
  ghost predicate BatchTokens(tokens: seq<string>, prefix: string, index: nat) {
    forall i | 0 <= i < |tokens| :: BatchPrefix(prefix, index + i) <= tokens[i]
  }

  lemma BatchPrefixUnique(prefix: string, i: nat, j: nat, token: string)
    requires BatchPrefix(prefix, i) <= token && BatchPrefix(prefix, j) <= token
    ensures i == j
  {
    var a, b := token[|BatchPrefix(prefix, i)|..], token[|BatchPrefix(prefix, j)|..];
    assert token == BatchPrefix(prefix, i) + a == BatchPrefix(prefix, j) + b;
    assert token[|prefix| + 1..] == Decimal(i) + ":" + a;
    assert token[|prefix| + 1..] == Decimal(j) + ":" + b;
    NumeralUnique(i, a, j, b);
  }

  lemma BatchTokensDistinct(tokens: seq<string>, prefix: string, index: nat)
    requires BatchTokens(tokens, prefix, index)
    ensures NoDuplicates(tokens)
  {
    forall i, j | 0 <= i < j < |tokens| ensures tokens[i] != tokens[j] {
      if tokens[i] == tokens[j] {
        BatchPrefixUnique(prefix, index + i, index + j, tokens[i]);
      }
    }
  }

  lemma BatchTokensPrepend(token: string, rest: seq<string>, prefix: string, index: nat)
    requires BatchPrefix(prefix, index) <= token && BatchTokens(rest, prefix, index + 1)
    ensures BatchTokens([token] + rest, prefix, index)
  {
    var tokens := [token] + rest;
    forall i | 0 <= i < |tokens| ensures BatchPrefix(prefix, index + i) <= tokens[i] {
      if i > 0 {
        assert index + i == index + 1 + (i - 1) && tokens[i] == rest[i - 1];
      }
    }
  }

  /** The tokens a batch hands out, in order. */
  ghost function TokensTaken(agents: Records, r: TakeRequest, prefix: string, index: nat, limit: nat): seq<string>
    requires 1 <= index
    decreases limit + 1 - index
  {
    if index > limit then []
    else
      var taken := TakeHead(agents, r, BatchPrefix(prefix, index), true);
      if taken.code != ClaimedOne then []
      else [BatchPrefix(prefix, index) + HeadOf(agents, r.ns, r.queue).value]
           + TokensTaken(taken.agents, r, prefix, index + 1, limit)
  }

  lemma {:induction false} TokensTakenSpec(agents: Records, r: TakeRequest, prefix: string, index: nat, limit: nat)
    requires 1 <= index <= limit + 1
    ensures var tokens := TokensTaken(agents, r, prefix, index, limit);
            |tokens| <= limit + 1 - index && BatchTokens(tokens, prefix, index)
    decreases limit + 1 - index
  {
    if index <= limit {
      var taken := TakeHead(agents, r, BatchPrefix(prefix, index), true);
      if taken.code == ClaimedOne {
        TokensTakenSpec(taken.agents, r, prefix, index + 1, limit);
        BatchTokensPrepend(BatchPrefix(prefix, index) + HeadOf(agents, r.ns, r.queue).value,
                           TokensTaken(taken.agents, r, prefix, index + 1, limit), prefix, index);
      }
    }
  }

  lemma {:induction false} BatchUnrolls(agents: Records, r: TakeRequest, prefix: string, index: nat, limit: nat)
    requires 1 <= index <= limit + 1
    ensures TakeBatch(agents, r, prefix, index, limit).agents
         == ApplyAll(agents, TakeOps(r, TokensTaken(agents, r, prefix, index, limit)))
    decreases limit + 1 - index
  {
    if index <= limit {
      TakeBatchStep(agents, r, prefix, index, limit);
      var taken := TakeHead(agents, r, BatchPrefix(prefix, index), true);
      if taken.code == ClaimedOne {
        BatchUnrolls(taken.agents, r, prefix, index + 1, limit);
        BatchPrepends(agents, r, taken, BatchPrefix(prefix, index) + HeadOf(agents, r.ns, r.queue).value,
                      TokensTaken(taken.agents, r, prefix, index + 1, limit));
      }
    }
  }

  lemma BatchPrepends(agents: Records, r: TakeRequest, taken: Outcome, token: string, rest: seq<string>)
    requires taken == TakeHead(agents, r, token, false)
    ensures ApplyAll(taken.agents, TakeOps(r, rest)) == ApplyAll(agents, TakeOps(r, [token] + rest))
  {
    var ops := TakeOps(r, [token] + rest);
    assert ops[0] == QueueTakeOp(r, token) && ops[1..] == TakeOps(r, rest);
  }

  /** A batch take leaves the store as at most `limit` single takes would, each with its own token. */
  lemma BatchIsSingleTakes(agents: Records, r: TakeRequest, prefix: string, limit: nat)
    ensures var tokens := TokensTaken(agents, r, prefix, 1, limit);
            && |tokens| <= limit && NoDuplicates(tokens)
            && Apply(agents, QueueBatchTakeOp(r, prefix, limit)).agents == ApplyAll(agents, TakeOps(r, tokens))
  {
    TokensTakenSpec(agents, r, prefix, 1, limit);
    BatchUnrolls(agents, r, prefix, 1, limit);
    BatchTokensDistinct(TokensTaken(agents, r, prefix, 1, limit), prefix, 1);
  }

  /** The first `n` members of a sorted set: that many, all of them members, none with a smaller one left out. */
  lemma FirstInOrder(scores: map<string, int>, n: nat)
    ensures var ids := Take(InOrder(scores), n);
            && NoDuplicates(ids)
            && |ids| == (if n < |scores| then n else |scores|)
            && (forall i | 0 <= i < |ids| :: ids[i] in scores)
            && forall i, other | 0 <= i < |ids| && other in scores && other !in ids ::
                 Before(SortKey(scores[ids[i]], ids[i]), SortKey(scores[other], other))
  {
    hide InOrder;
    var order := InOrder(scores);
    var ids := Take(order, n);
    InOrderSpec(scores);
    assert forall i | 0 <= i < |order| :: order[i] in order;
    forall i, other | 0 <= i < |ids| && other in scores && other !in ids
      ensures Before(SortKey(scores[ids[i]], ids[i]), SortKey(scores[other], other))
    {
      assert other in order;
      var j :| 0 <= j < |order| && order[j] == other;
      assert forall k | 0 <= k < |ids| :: ids[k] in ids && ids[k] == order[k];
    }
  }

  /** The reaper ends the `batch` earliest-expiring expired leases, or all of them if there are fewer. */
  lemma ReapTargetsEarliest(agents: Records, now: int, batch: nat)
    ensures var ids := ReapTargets(agents, now, batch);
            var expired := ExpiredScores(agents, now);
            && NoDuplicates(ids)
            && |ids| == (if batch < |expired| then batch else |expired|)
            && (forall i | 0 <= i < |ids| :: ids[i] in expired)
            && forall i, other | 0 <= i < |ids| && other in expired && other !in ids ::
                 Before(SortKey(expired[ids[i]], ids[i]), SortKey(expired[other], other))
  {
    FirstInOrder(ExpiredScores(agents, now), batch);
  }

  lemma ExpiredMeans(agents: Records, now: int, id: string)
    ensures id in ExpiredScores(agents, now) <==>
              id in agents && agents[id].status == InProgress && 0 < LeaseScore(agents[id]) <= now
  {
  }

  /** Reaping changes only expired leases in progress; a lease still running is never touched. */
  lemma ReapSparesRunning(agents: Records, now: int, batch: nat, id: string)
    requires id in agents
    ensures var after := ReapOnce(agents, now, batch).agents;
            && after.Keys == agents.Keys
            && after[id] == (if id in ReapTargets(agents, now, batch) then Released(agents[id], now) else agents[id])
            && (agents[id].status != InProgress || LeaseScore(agents[id]) > now ==> after[id] == agents[id])
  {
    var ids := ReapTargets(agents, now, batch);
    ReapTargetsEarliest(agents, now, batch);
    ExpiredMeans(agents, now, id);
  }

  /** Each pass removes from the expired leases exactly the ones it ended. */
  lemma ExpiredAfterRelease(agents: Records, ids: seq<string>, now: int, id: string)
    ensures id in ExpiredScores(ReleaseAll(agents, ids, now), now) <==> id in ExpiredScores(agents, now) && id !in ids
  {
    ExpiredMeans(agents, now, id);
    ExpiredMeans(ReleaseAll(agents, ids, now), now, id);
  }

  lemma ExpiredAfterReap(agents: Records, now: int, batch: nat)
    ensures var ids := ReapTargets(agents, now, batch);
            |ExpiredScores(ReapOnce(agents, now, batch).agents, now)| == |ExpiredScores(agents, now)| - |ids|
  {
    var ids := ReapTargets(agents, now, batch);
    ReapTargetsEarliest(agents, now, batch);
    forall id ensures id in ExpiredScores(ReleaseAll(agents, ids, now), now) <==> id in ExpiredScores(agents, now) && id !in ids {
      ExpiredAfterRelease(agents, ids, now, id);
    }
    SizeWithout(ExpiredScores(agents, now), ids, ExpiredScores(ReleaseAll(agents, ids, now), now));
  }

  lemma SizeWithout(all: map<string, int>, ids: seq<string>, left: map<string, int>)
    requires NoDuplicates(ids) && forall i | 0 <= i < |ids| :: ids[i] in all
    requires forall id :: id in left <==> id in all && id !in ids
    ensures |left| == |all| - |ids|
  {
    var ended := set id | id in all && id in ids;
    EnumeratesSize(ids, ended);
    assert left.Keys == all.Keys - ended;
    assert |left.Keys| == |all.Keys| - |ended|;
  }

  ghost function ReapRepeatedly(agents: Records, now: int, batch: nat, passes: nat): Records {
    if passes == 0 then agents else ReapRepeatedly(ReapOnce(agents, now, batch).agents, now, batch, passes - 1)
  }

  ghost function ReleaseExpired(agents: Records, now: int): Records {
    map id | id in agents :: if id in ExpiredScores(agents, now) then Released(agents[id], now) else agents[id]
  }

  lemma ReleaseExpiredAfterPass(agents: Records, ids: seq<string>, now: int)
    requires forall i | 0 <= i < |ids| :: ids[i] in ExpiredScores(agents, now)
    ensures ReleaseExpired(ReleaseAll(agents, ids, now), now) == ReleaseExpired(agents, now)
  {
    var after := ReleaseAll(agents, ids, now);
    forall id | id in agents ensures ReleaseExpired(after, now)[id] == ReleaseExpired(agents, now)[id] {
      ExpiredAfterRelease(agents, ids, now, id);
    }
  }

  /** Enough passes at one instant end every expired lease exactly once and nothing else. */
  lemma {:induction false} ReapDrains(agents: Records, now: int, batch: nat, passes: nat)
    requires passes * batch >= |ExpiredScores(agents, now)|
    ensures ReapRepeatedly(agents, now, batch, passes) == ReleaseExpired(agents, now)
    decreases passes
  {
    hide ExpiredScores, ReleaseExpired, ReapTargets, ReleaseAll;
    if passes > 0 {
      ReapTargetsEarliest(agents, now, batch);
      ExpiredAfterReap(agents, now, batch);
      assert passes * batch == (passes - 1) * batch + batch && (passes - 1) * batch >= 0;
      ReapDrains(ReapOnce(agents, now, batch).agents, now, batch, passes - 1);
      ReleaseExpiredAfterPass(agents, ReapTargets(agents, now, batch), now);
    } else {
      NothingToRelease(agents, now);
    }
  }

  lemma NothingToRelease(agents: Records, now: int)
    requires |ExpiredScores(agents, now)| == 0
    ensures ReleaseExpired(agents, now) == agents
  {
    assert ExpiredScores(agents, now) == map[];
  }

  /** The bound is sharp: with fewer passes some expired lease is left. */
  lemma {:induction false} TooFewPassesLeaveSome(agents: Records, now: int, batch: nat, passes: nat)
    requires passes * batch < |ExpiredScores(agents, now)|
    ensures |ExpiredScores(ReapRepeatedly(agents, now, batch, passes), now)| == |ExpiredScores(agents, now)| - passes * batch
    decreases passes
  {
    hide ExpiredScores, ReapTargets, ReleaseAll;
    if passes > 0 {
      ReapTargetsEarliest(agents, now, batch);
      ExpiredAfterReap(agents, now, batch);
      assert passes * batch == (passes - 1) * batch + batch && (passes - 1) * batch >= 0;
      TooFewPassesLeaveSome(ReapOnce(agents, now, batch).agents, now, batch, passes - 1);
    }
  }

  lemma NothingLeftExpired(agents: Records, now: int)
    ensures ExpiredScores(ReleaseExpired(agents, now), now) == map[]
  {
    forall id ensures id !in ExpiredScores(ReleaseExpired(agents, now), now) {
      ExpiredMeans(agents, now, id);
      ExpiredMeans(ReleaseExpired(agents, now), now, id);
    }
  }
}

/**
 * Fencing on a Valkey shard: the tokens of ended claims are dead over whole runs of scripts. An update
 * reads and writes a record in one step here; submits bring no lease.
 */
module ValkeyFencing {
  import opened Text
  import opened Ordering
  import opened Agents
  import opened ValkeyRecords
  import opened ValkeyLaws
  import opened ValkeyEffects

  /** The records of a shard and every lease token they ever held. */
  datatype Shop = Shop(agents: Records, seen: set<string>)

  predicate Unleased(a: Agent) {
    a.leaseToken == "" && a.status != InProgress
  }

  /** New tokens come from a fresh supply; a batch draws a fresh prefix. */
  ghost predicate Legal(s: Shop, op: Op) {
    match op
    case OutOp(a) => Unleased(a)
    case UpdateOp(id, next) =>
      id in s.agents ==> next.status == s.agents[id].status && next.leaseToken == s.agents[id].leaseToken
    case ClaimOp(_, _, token, _, _) => token != "" && token !in s.seen
    case QueueTakeOp(_, token) => token != "" && token !in s.seen
    case QueueBatchTakeOp(_, prefix, _) => forall t | t in s.seen :: !(prefix + ":" <= t)
    case CompleteAndOutOp(_, _, _, _, outputs, _) => forall k | 0 <= k < |outputs| :: Unleased(outputs[k])
    case _ => true
  }

  function Tokens(agents: Records): set<string> {
    set id | id in agents && agents[id].leaseToken != "" :: agents[id].leaseToken
  }

  ghost function Next(s: Shop, op: Op): Shop {
    var after := Apply(s.agents, op).agents;
    Shop(after, s.seen + Tokens(after))
  }

  /** Running leases and only they carry a token, each its own. */
  ghost predicate Inv(s: Shop) {
    && "" !in s.seen && Tokens(s.agents) <= s.seen
    && (forall id | id in s.agents :: s.agents[id].status == InProgress <==> s.agents[id].leaseToken != "")
    && (forall i, j | i in s.agents && j in s.agents && i != j && s.agents[i].leaseToken != "" ::
          s.agents[i].leaseToken != s.agents[j].leaseToken)
  }

  /** A record's token is gone, unchanged, or one never seen before. */
  ghost predicate Evolves(s: Shop, t: Shop) {
    && s.seen <= t.seen
    && forall id | id in t.agents ::
         || t.agents[id].leaseToken == ""
         || (id in s.agents && t.agents[id].leaseToken == s.agents[id].leaseToken)
         || t.agents[id].leaseToken !in s.seen
  }

  lemma EvolvesTransitive(s: Shop, t: Shop, u: Shop)
    requires Evolves(s, t) && Evolves(t, u)
    ensures Evolves(s, u)
  {
  }

  /** One record is replaced by one without a lease, with the lease it had, or with a fresh one. */
  lemma ReplaceKeeps(s: Shop, id: string, next: Agent, seen: set<string>)
    requires Inv(s) && s.seen <= seen && "" !in seen && (next.status == InProgress <==> next.leaseToken != "")
    requires next.leaseToken != "" ==>
               (id in s.agents && next.leaseToken == s.agents[id].leaseToken) || next.leaseToken in seen - s.seen
    ensures var t := Shop(s.agents[id := next], seen); Inv(t) && Evolves(s, t)
  {
    var t := Shop(s.agents[id := next], seen);
    forall x | x in Tokens(t.agents) ensures x in seen {
      var k :| k in t.agents && t.agents[k].leaseToken == x && x != "";
      if k != id {
        assert x in Tokens(s.agents);
      } else if id in s.agents && x == s.agents[id].leaseToken {
        assert x in Tokens(s.agents);
      }
    }
    forall i, j | i in t.agents && j in t.agents && i != j && t.agents[i].leaseToken != ""
      ensures t.agents[i].leaseToken != t.agents[j].leaseToken
    {
      if i == id && j in s.agents && s.agents[j].leaseToken != "" {
        assert s.agents[j].leaseToken in Tokens(s.agents);
      }
      if j == id && i in s.agents {
        assert s.agents[i].leaseToken in Tokens(s.agents);
      }
    }
  }

  /** The tokens remembered may be any set that holds the old ones and the live ones. */
  lemma Remember(s: Shop, t: Shop, seen: set<string>)
    requires Inv(t) && Evolves(s, t) && s.seen <= seen && Tokens(t.agents) <= seen && "" !in seen
    ensures Inv(Shop(t.agents, seen)) && Evolves(s, Shop(t.agents, seen))
  {
  }

  lemma SameRecords(s: Shop, op: Op)
    requires Inv(s) && Apply(s.agents, op).agents == s.agents
    ensures Next(s, op) == s && Evolves(s, s)
  {
    assert s.seen + Tokens(s.agents) == s.seen;
  }

  lemma NoEmptyToken(agents: Records)
    ensures "" !in Tokens(agents)
  {
  }

  lemma NextFrom(s: Shop, op: Op, t: Shop)
    requires Inv(s) && Inv(t) && Evolves(s, t) && t.agents == Apply(s.agents, op).agents
    ensures Inv(Next(s, op)) && Evolves(s, Next(s, op))
  {
    hide Inv, Evolves, Apply;
    InvSeen(s);
    NoEmptyToken(t.agents);
    Remember(s, t, s.seen + Tokens(t.agents));
  }

  lemma InvSeen(s: Shop)
    requires Inv(s)
    ensures "" !in s.seen
  {
  }

  // ----- The scripts -----

  lemma TakeKeeps(s: Shop, r: TakeRequest, token: string)
    requires Inv(s) && token != "" && token !in s.seen
    ensures var t := Shop(Apply(s.agents, QueueTakeOp(r, token)).agents, s.seen + {token}); Inv(t) && Evolves(s, t)
  {
    hide HeadOf, ValkeyEffects.IsLeaseLength;
    var out := Apply(s.agents, QueueTakeOp(r, token));
    QueueTakeEffect(s.agents, r, token);
    if out.code == ClaimedOne {
      var id := HeadOf(s.agents, r.ns, r.queue).value;
      assert out.agents == s.agents[id := out.agents[id]];
      ReplaceKeeps(s, id, out.agents[id], s.seen + {token});
    } else {
      assert out.agents == s.agents;
    }
  }

  function Elements(tokens: seq<string>): set<string> {
    set t | t in tokens
  }

  lemma {:induction false} TakesKeep(s: Shop, r: TakeRequest, tokens: seq<string>)
    requires Inv(s) && NoDuplicates(tokens) && forall i | 0 <= i < |tokens| :: tokens[i] != "" && tokens[i] !in s.seen
    ensures var t := Shop(ApplyAll(s.agents, TakeOps(r, tokens)), s.seen + Elements(tokens));
            Inv(t) && Evolves(s, t)
    decreases |tokens|
  {
    hide Inv, Apply;
    var ops := TakeOps(r, tokens);
    if tokens == [] {
      assert s.seen + Elements(tokens) == s.seen;
      StaysSelf(s);
    } else {
      var rest := tokens[1..];
      assert ops[0] == QueueTakeOp(r, tokens[0]) && ops[1..] == TakeOps(r, rest);
      TakeKeeps(s, r, tokens[0]);
      var t := Shop(Apply(s.agents, ops[0]).agents, s.seen + {tokens[0]});
      forall i | 0 <= i < |rest| ensures rest[i] != "" && rest[i] !in t.seen {
        assert rest[i] == tokens[i + 1];
      }
      TakesKeep(t, r, rest);
      var u := Shop(ApplyAll(t.agents, TakeOps(r, rest)), t.seen + Elements(rest));
      EvolvesTransitive(s, t, u);
      assert tokens == [tokens[0]] + rest;
      assert t.seen + Elements(rest) == s.seen + Elements(tokens);
    }
  }

  lemma StaysSelf(s: Shop)
    ensures Evolves(s, s)
  {
  }

  lemma BatchKeeps(s: Shop, r: TakeRequest, prefix: string, limit: nat)
    requires Inv(s) && forall t | t in s.seen :: !(prefix + ":" <= t)
    ensures var next := Next(s, QueueBatchTakeOp(r, prefix, limit)); Inv(next) && Evolves(s, next)
  {
    hide Inv, Evolves, Apply, TokensTaken;
    var op, tokens := QueueBatchTakeOp(r, prefix, limit), TokensTaken(s.agents, r, prefix, 1, limit);
    BatchIsSingleTakes(s.agents, r, prefix, limit);
    TokensTakenSpec(s.agents, r, prefix, 1, limit);
    forall i | 0 <= i < |tokens| ensures tokens[i] != "" && tokens[i] !in s.seen {
      assert BatchPrefix(prefix, 1 + i) <= tokens[i];
      assert prefix + ":" <= BatchPrefix(prefix, 1 + i);
    }
    TakesKeep(s, r, tokens);
    NextFrom(s, op, Shop(ApplyAll(s.agents, TakeOps(r, tokens)), s.seen + Elements(tokens)));
  }

  lemma {:induction false} OutAllKeeps(s: Shop, outputs: seq<Agent>)
    requires Inv(s) && forall k | 0 <= k < |outputs| :: Unleased(outputs[k])
    ensures var t := Shop(OutAll(s.agents, outputs), s.seen); Inv(t) && Evolves(s, t)
    decreases |outputs|
  {
    hide Inv, Evolves;
    InvSeen(s);
    if outputs == [] {
      StaysSelf(s);
    } else {
      var t := Shop(s.agents[outputs[0].id := outputs[0]], s.seen);
      ReplaceKeeps(s, outputs[0].id, outputs[0], s.seen);
      OutAllKeeps(t, outputs[1..]);
      EvolvesTransitive(s, t, Shop(OutAll(t.agents, outputs[1..]), s.seen));
    }
  }

  lemma ReleasedToken(agents: Records, now: int)
    ensures forall id | id in agents :: Released(agents[id], now).leaseToken == "" && Released(agents[id], now).status == New
  {
  }

  lemma ReapKeeps(s: Shop, now: int, batch: nat)
    requires Inv(s)
    ensures var next := Next(s, ReapOp(now, batch)); Inv(next) && Evolves(s, next)
  {
    hide ReapTargets, Released;
    ReleasedToken(s.agents, now);
    var after := Apply(s.agents, ReapOp(now, batch)).agents;
    forall x | x in Tokens(after) ensures x in s.seen {
      var id :| id in after && after[id].leaseToken == x && x != "";
      assert x in Tokens(s.agents);
    }
    assert s.seen + Tokens(after) == s.seen;
  }

  /** A script that rewrites at most the record it names. */
  lemma RewriteKeeps(s: Shop, op: Op, id: string)
    requires Inv(s) && Legal(s, op)
    requires (op.ClaimOp? || op.CompleteOp? || op.ReleaseOp? || op.RenewOp?) && op.id == id
    ensures Inv(Next(s, op)) && Evolves(s, Next(s, op))
  {
    var after := Apply(s.agents, op).agents;
    if after == s.agents {
      SameRecords(s, op);
    } else {
      assert after == s.agents[id := after[id]];
      var seen := if op.ClaimOp? then s.seen + {op.token} else s.seen;
      ReplaceKeeps(s, id, after[id], seen);
      NextFrom(s, op, Shop(after, seen));
    }
  }

  /** Every script keeps tokens in order and brings none back. */
  lemma StepKeeps(s: Shop, op: Op)
    requires Inv(s) && Legal(s, op)
    ensures Inv(Next(s, op)) && Evolves(s, Next(s, op))
  {
    InvSeen(s);
    hide Inv, Evolves, Next, TakeHead, TakeBatch, ReapOnce;
    match op
    case OutOp(a) =>
      ReplaceKeeps(s, a.id, a, s.seen);
      NextFrom(s, op, Shop(s.agents[a.id := a], s.seen));
    case UpdateOp(id, next) =>
      UpdateKeeps(s, id, next);
    case QueueTakeOp(r, token) =>
      TakeKeeps(s, r, token);
      NextFrom(s, op, Shop(Apply(s.agents, op).agents, s.seen + {token}));
    case QueueBatchTakeOp(r, prefix, limit) => BatchKeeps(s, r, prefix, limit);
    case CompleteAndOutOp(id, agentId, token, result, outputs, now) =>
      CompleteAndOutKeeps(s, id, agentId, token, result, outputs, now);
    case ReapOp(now, batch) => ReapKeeps(s, now, batch);
    case ClaimOp(id, _, _, _, _) => RewriteKeeps(s, op, id);
    case CompleteOp(id, _, _, _, _) => RewriteKeeps(s, op, id);
    case ReleaseOp(id, _, _, _) => RewriteKeeps(s, op, id);
    case RenewOp(id, _, _, _, _) => RewriteKeeps(s, op, id);
  }

  lemma UpdateKeeps(s: Shop, id: string, next: Agent)
    requires Inv(s) && Legal(s, UpdateOp(id, next))
    ensures Inv(Next(s, UpdateOp(id, next))) && Evolves(s, Next(s, UpdateOp(id, next)))
  {
    var op := UpdateOp(id, next);
    if id in s.agents {
      ReplaceKeeps(s, id, next, s.seen);
      NextFrom(s, op, Shop(s.agents[id := next], s.seen));
    } else {
      SameRecords(s, op);
    }
  }

  lemma CompleteAndOutKeeps(s: Shop, id: string, agentId: string, token: string, result: string, outputs: seq<Agent>, now: int)
    requires Inv(s) && forall k | 0 <= k < |outputs| :: Unleased(outputs[k])
    ensures var next := Next(s, CompleteAndOutOp(id, agentId, token, result, outputs, now)); Inv(next) && Evolves(s, next)
  {
    InvSeen(s);
    hide Inv, Evolves, Next, OutAll;
    var op := CompleteAndOutOp(id, agentId, token, result, outputs, now);
    if HoldsLease(s.agents, id, agentId, token) {
      var done := CompletedBy(s.agents[id], agentId, token, result, now);
      var t := Shop(s.agents[id := done], s.seen);
      ReplaceKeeps(s, id, done, s.seen);
      OutAllKeeps(t, outputs);
      EvolvesTransitive(s, t, Shop(OutAll(t.agents, outputs), s.seen));
      NextFrom(s, op, Shop(OutAll(t.agents, outputs), s.seen));
    } else {
      GrantedToHolderOnly(s.agents, op);
      SameRecords(s, op);
    }
  }

  // ----- Whole runs -----

  ghost function Run(s: Shop, ops: seq<Op>): Shop
    decreases |ops|
  {
    if ops == [] then s else Run(Next(s, ops[0]), ops[1..])
  }

  ghost predicate LegalRun(s: Shop, ops: seq<Op>)
    decreases |ops|
  {
    ops == [] || (Legal(s, ops[0]) && LegalRun(Next(s, ops[0]), ops[1..]))
  }

  const EMPTY := Shop(map[], {})

  /** The records of the run are those of the record-level run. */
  lemma {:induction false} RunIsApplyAll(s: Shop, ops: seq<Op>)
    ensures Run(s, ops).agents == ApplyAll(s.agents, ops)
    decreases |ops|
  {
    hide Apply;
    if ops != [] {
      RunIsApplyAll(Next(s, ops[0]), ops[1..]);
    }
  }

  lemma {:induction false} RunKeeps(s: Shop, ops: seq<Op>)
    requires Inv(s) && LegalRun(s, ops)
    ensures Inv(Run(s, ops)) && Evolves(s, Run(s, ops))
    decreases |ops|
  {
    hide Inv, Legal, Next;
    if ops == [] {
      StaysSelf(s);
    } else {
      var t := Next(s, ops[0]);
      StepKeeps(s, ops[0]);
      RunKeeps(t, ops[1..]);
      EvolvesTransitive(s, t, Run(t, ops[1..]));
    }
  }

  lemma {:induction false} RunSplit(s: Shop, a: seq<Op>, b: seq<Op>)
    ensures Run(s, a + b) == Run(Run(s, a), b)
    ensures LegalRun(s, a + b) <==> LegalRun(s, a) && LegalRun(Run(s, a), b)
    decreases |a|
  {
    hide Legal, Next;
    if a == [] {
      assert a + b == b;
    } else {
      assert (a + b)[1..] == a[1..] + b;
      RunSplit(Next(s, a[0]), a[1..], b);
    }
  }

  ghost function At(ops: seq<Op>, i: nat): Shop
    requires i <= |ops|
  {
    Run(EMPTY, ops[..i])
  }

  lemma EmptyOk()
    ensures Inv(EMPTY)
  {
  }

  lemma AtLegal(ops: seq<Op>, i: nat)
    requires LegalRun(EMPTY, ops) && i <= |ops|
    ensures Inv(At(ops, i)) && LegalRun(EMPTY, ops[..i]) && LegalRun(At(ops, i), ops[i..])
  {
    hide Inv, Legal, Next;
    EmptyOk();
    assert ops == ops[..i] + ops[i..];
    RunSplit(EMPTY, ops[..i], ops[i..]);
    RunKeeps(EMPTY, ops[..i]);
  }

  lemma AtEvolves(ops: seq<Op>, i: nat, k: nat)
    requires LegalRun(EMPTY, ops) && i <= k <= |ops|
    ensures Evolves(At(ops, i), At(ops, k))
  {
    hide Inv, Legal, Next, Evolves;
    AtLegal(ops, i);
    AtLegal(ops, k);
    assert ops[..k] == ops[..i] + ops[i..k];
    RunSplit(EMPTY, ops[..i], ops[i..k]);
    RunKeeps(At(ops, i), ops[i..k]);
  }

  lemma AtNext(ops: seq<Op>, i: nat)
    requires i < |ops|
    ensures At(ops, i + 1) == Next(At(ops, i), ops[i])
  {
    hide Next, Legal;
    assert ops[..i + 1] == ops[..i] + [ops[i]];
    RunSplit(EMPTY, ops[..i], [ops[i]]);
    assert [ops[i]][1..] == [];
  }

  /** Someone's lease runs under this token. */
  ghost predicate Held(s: Shop, token: string) {
    token in Tokens(s.agents)
  }

  ghost predicate Spent(s: Shop, token: string) {
    token in s.seen && !Held(s, token)
  }

  predicate Presents(op: Op, token: string) {
    IsLeaseOp(op) && op.token == token
  }

  lemma TokenHeld(s: Shop, token: string)
    ensures Held(s, token) <==> token != "" && exists id :: id in s.agents && s.agents[id].leaseToken == token
  {
  }

  lemma SpentStays(s: Shop, t: Shop, token: string)
    requires Inv(s) && Spent(s, token) && Evolves(s, t)
    ensures Spent(t, token)
  {
    TokenHeld(s, token);
  }

  lemma SpentIsInert(s: Shop, op: Op, token: string)
    requires Inv(s) && Spent(s, token) && Presents(op, token)
    ensures Apply(s.agents, op).agents == s.agents
  {
    hide Apply;
    GrantedToHolderOnly(s.agents, op);
    TokenHeld(s, token);
  }

  /** At any time a live token belongs to one agent. */
  lemma OneHolder(ops: seq<Op>, i: string, j: string)
    requires LegalRun(EMPTY, ops)
    ensures var agents := ApplyAll(map[], ops);
            i in agents && j in agents && agents[i].leaseToken == agents[j].leaseToken != "" ==> i == j
  {
    hide Apply, Legal;
    EmptyOk();
    RunKeeps(EMPTY, ops);
    RunIsApplyAll(EMPTY, ops);
  }

  /**
   * Fencing: once the claim behind a token ends, by completion, release or the reaper, no later
   * complete, release or renew that presents the token changes a record.
   */
  lemma Fenced(ops: seq<Op>, i: nat, k: nat, token: string)
    requires LegalRun(EMPTY, ops) && i < k < |ops|
    requires Held(At(ops, i), token) && !Held(At(ops, i + 1), token)
    requires Presents(ops[k], token)
    ensures ApplyAll(map[], ops[..k + 1]) == ApplyAll(map[], ops[..k])
  {
    hide Inv, LegalRun, Evolves, Next, Presents, Apply;
    AtLegal(ops, i);
    AtLegal(ops, k);
    HeldIsSeen(At(ops, i), token);
    AtEvolves(ops, i, i + 1);
    SeenStays(At(ops, i), At(ops, i + 1), token);
    AtLegal(ops, i + 1);
    AtEvolves(ops, i + 1, k);
    SpentStays(At(ops, i + 1), At(ops, k), token);
    SpentIsInert(At(ops, k), ops[k], token);
    AtNext(ops, k);
    NextAgents(At(ops, k), ops[k]);
    RunIsApplyAll(EMPTY, ops[..k + 1]);
    RunIsApplyAll(EMPTY, ops[..k]);
  }

  lemma HeldIsSeen(s: Shop, token: string)
    requires Inv(s) && Held(s, token)
    ensures token in s.seen
  {
  }

  lemma SeenStays(s: Shop, t: Shop, token: string)
    requires Evolves(s, t) && token in s.seen
    ensures token in t.seen
  {
  }

  lemma NextAgents(s: Shop, op: Op)
    ensures Next(s, op).agents == Apply(s.agents, op).agents
  {
  }

  /** A granted complete or release, or a pass of the reaper over the lease, ends the claim for good. */
  lemma EndedIsSpent(s: Shop, op: Op, id: string, token: string)
    requires Inv(s) && Legal(s, op) && id in s.agents && s.agents[id].leaseToken == token != ""
    requires id in Next(s, op).agents && Next(s, op).agents[id].leaseToken == ""
    ensures Spent(Next(s, op), token)
  {
    StepKeeps(s, op);
    assert token in Tokens(s.agents);
    TokenHeld(s, token);
  }
}

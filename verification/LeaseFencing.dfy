/** What no step can undo: spent tokens stay spent, completed agents stay completed, the log only grows. */
module LeaseFencing {
  import opened Text
  import opened Agents
  import opened LeaseProtocol
  import opened LeaseSafety

  /** How a later store relates to an earlier one. */
  ghost predicate Evolves(s: Store, t: Store) {
    && s.rows.Keys <= t.rows.Keys && s.log <= t.log && s.issued <= t.issued
    && (forall id | id in t.rows ::
          || t.rows[id].leaseToken == ""
          || (id in s.rows && t.rows[id].leaseToken == s.rows[id].leaseToken)
          || t.rows[id].leaseToken !in s.issued)
    && (forall id | id in s.rows ::
          && s.rows[id].version <= t.rows[id].version
          && t.rows[id].ttl == s.rows[id].ttl && t.rows[id].createdAt == s.rows[id].createdAt)
    && (forall id | id in s.rows && s.rows[id].leaseToken != "" && s.rows[id].leaseToken in s.issued ::
          t.rows[id].leaseToken == s.rows[id].leaseToken ==> t.rows[id].owner == s.rows[id].owner)
    && (forall id | id in s.rows && s.rows[id].status == Completed :: t.rows[id].status == Completed)
  }

  ghost predicate CompletedSame(s: Store, t: Store) {
    forall id | id in s.rows && s.rows[id].status == Completed :: id in t.rows && t.rows[id] == s.rows[id]
  }

  lemma EvolvesTransitive(s: Store, t: Store, u: Store)
    requires Evolves(s, t) && Evolves(t, u)
    ensures Evolves(s, u) && (CompletedSame(s, t) && CompletedSame(t, u) ==> CompletedSame(s, u))
  {
  }

  lemma EvolvesReflexive(s: Store)
    ensures Evolves(s, s) && CompletedSame(s, s)
  {
  }

  lemma WriteEvolves(s: Store, next: Agent, kind: EventType, agentId: string, issued: set<string>)
    requires Follows(s, next, kind) && TokenSource(s, next, issued)
    ensures var t := Write(s, next, kind, agentId).(issued := issued);
            Evolves(s, t) && (kind != UpdatedEvent ==> CompletedSame(s, t))
  {
  }

  lemma ClaimEvolves(s: Store, id: string, agentId: string, token: string, default: int, now: int)
    requires Inv(s) && Claimable(s, id, now) && token != "" && token !in s.issued
    ensures var t := Claim(s, id, agentId, token, default, now);
            Inv(t) && Evolves(s, t) && CompletedSame(s, t)
  {
    ClaimKeeps(s, id, agentId, token, default, now);
    WriteEvolves(s, Claimed(s.rows[id], agentId, token, default, now), ClaimedEvent, agentId, s.issued + {token});
  }

  lemma {:induction false} TakeFirstEvolves(s: Store, candidates: seq<string>, agentId: string, token: string, default: int, now: int)
    requires Inv(s) && token != "" && token !in s.issued
    ensures var t := TakeFirst(s, candidates, agentId, token, default, now).store; Evolves(s, t) && CompletedSame(s, t)
  {
    if candidates != [] {
      if Claimable(s, candidates[0], now) {
        ClaimEvolves(s, candidates[0], agentId, token, default, now);
      } else {
        TakeFirstEvolves(s, candidates[1..], agentId, token, default, now);
      }
    }
  }

  lemma {:induction false} TakeEachEvolves(s: Store, claims: seq<(string, string)>, agentId: string, default: int, now: int)
    requires Inv(s) && FreshClaims(s, claims)
    ensures var t := TakeEach(s, claims, agentId, default, now); Evolves(s, t) && CompletedSame(s, t)
    decreases |claims|
  {
    hide Inv, Evolves, CompletedSame;
    if claims == [] {
      EvolvesReflexive(s);
    } else {
      var (id, token) := claims[0];
      if Claimable(s, id, now) {
        var t := Claim(s, id, agentId, token, default, now);
        ClaimEvolves(s, id, agentId, token, default, now);
        TakeEachEvolves(t, claims[1..], agentId, default, now);
        EvolvesTransitive(s, t, TakeEach(t, claims[1..], agentId, default, now));
      } else {
        TakeEachEvolves(s, claims[1..], agentId, default, now);
      }
    }
  }

  lemma {:induction false} CreateEachEvolves(s: Store, outputs: seq<(string, Agent)>, parent: Agent, withNamespace: bool,
                                             agentId: string, now: int)
    requires FreshOutputs(s, outputs) && "" !in s.issued
    ensures var t := CreateEach(s, outputs, parent, withNamespace, agentId, now); Evolves(s, t) && CompletedSame(s, t)
    decreases |outputs|
  {
    hide Evolves, CompletedSame;
    if outputs == [] {
      EvolvesReflexive(s);
    } else {
      var (id, draft) := outputs[0];
      var output := Submitted(Inherited(draft, parent, withNamespace), id, now);
      var t := Write(s, output, CreatedEvent, agentId);
      WriteEvolves(s, output, CreatedEvent, agentId, s.issued);
      CreateEachEvolves(t, outputs[1..], parent, withNamespace, agentId, now);
      EvolvesTransitive(s, t, CreateEach(t, outputs[1..], parent, withNamespace, agentId, now));
    }
  }

  lemma {:induction false} ReleaseEachEvolves(s: Store, ids: seq<string>, now: int)
    requires Inv(s)
    ensures var t := ReleaseEach(s, ids, now); Evolves(s, t) && CompletedSame(s, t)
    decreases |ids|
  {
    if ids != [] {
      if Overdue(s, ids[0], now) {
        var next := Released(s.rows[ids[0]], now);
        var t := Write(s, next, ReleasedEvent, "reaper");
        ReleasedOk(s.rows[ids[0]], now);
        WriteKeeps(s, next, ReleasedEvent, "reaper", s.issued);
        WriteEvolves(s, next, ReleasedEvent, "reaper", s.issued);
        ReleaseEachEvolves(t, ids[1..], now);
        EvolvesTransitive(s, t, ReleaseEach(t, ids[1..], now));
      } else {
        ReleaseEachEvolves(s, ids[1..], now);
      }
    }
  }

  lemma CompleteEvolves(s: Store, id: string, agentId: string, token: string, result: string, now: int)
    requires Inv(s)
    ensures var t := Complete(s, id, agentId, token, result, now).store; Evolves(s, t) && CompletedSame(s, t)
  {
    if MissingArgument(agentId, token) == None && Holds(s, id, agentId, token, now) {
      WriteEvolves(s, CompletedBy(s.rows[id], agentId, token, result, now), CompletedEvent, agentId, s.issued);
    }
  }

  lemma CompleteAndOutEvolves(s: Store, id: string, agentId: string, token: string, result: string,
                              outputs: seq<(string, Agent)>, now: int)
    requires Inv(s) && FreshOutputs(s, outputs)
    ensures var t := CompleteAndOut(s, id, agentId, token, result, outputs, true, now).store;
            Evolves(s, t) && CompletedSame(s, t)
  {
    hide LogOk, RowOk, Evolves, CompletedSame;
    if MissingArgument(agentId, token) == None && Holds(s, id, agentId, token, now) {
      var done := CompletedBy(s.rows[id], agentId, token, result, now);
      var t := Write(s, done, CompletedEvent, agentId);
      CompleteKeeps(s, id, agentId, token, result, now);
      WriteEvolves(s, done, CompletedEvent, agentId, s.issued);
      CreateEachEvolves(t, outputs, done, true, agentId, now);
      EvolvesTransitive(s, t, CreateEach(t, outputs, done, true, agentId, now));
    } else {
      EvolvesReflexive(s);
    }
  }

  lemma ReleaseEvolves(s: Store, id: string, agentId: string, token: string, now: int)
    requires Inv(s)
    ensures var t := Release(s, id, agentId, token, now).store; Evolves(s, t) && CompletedSame(s, t)
  {
    if MissingArgument(agentId, token) == None && Holds(s, id, agentId, token, now) {
      WriteEvolves(s, Released(s.rows[id], now), ReleasedEvent, agentId, s.issued);
    }
  }

  lemma RenewEvolves(s: Store, id: string, agentId: string, token: string, default: int, now: int)
    requires Inv(s)
    ensures var t := Renew(s, id, agentId, token, default, now).store; Evolves(s, t) && CompletedSame(s, t)
  {
    hide Evolves, CompletedSame, Inv;
    if MissingArgument(agentId, token) == None && Holds(s, id, agentId, token, now) {
      RenewedRowEvolves(s, id, default, now);
    } else {
      EvolvesReflexive(s);
    }
  }

  lemma RenewedRowEvolves(s: Store, id: string, default: int, now: int)
    requires id in s.rows && s.rows[id].status == InProgress
    ensures var t := s.(rows := s.rows[id := Renewed(s.rows[id], default, now)]); Evolves(s, t) && CompletedSame(s, t)
  {
  }

  lemma UpdateEvolves(s: Store, id: string, payload: map<string, string>, tags: Option<seq<string>>,
                      metadata: map<string, string>, agentId: string, now: int)
    requires Inv(s) && id in s.rows
    ensures Evolves(s, Write(s, Patched(s.rows[id], payload, tags, metadata, now), UpdatedEvent, agentId))
  {
    WriteEvolves(s, Patched(s.rows[id], payload, tags, metadata, now), UpdatedEvent, agentId, s.issued);
  }

  lemma OutEvolves(s: Store, id: string, draft: Agent, now: int)
    requires Inv(s) && id !in s.rows && IsDraft(draft)
    ensures var t := Next(s, OutOp(id, draft, now)).store; Evolves(s, t) && CompletedSame(s, t)
  {
    WriteEvolves(s, Submitted(draft, id, now), CreatedEvent, MetaValue(draft, AGENT_ID), s.issued);
  }

  /** What every step other than an update guarantees. */
  lemma NextEvolvesStrictly(s: Store, op: Op)
    requires Inv(s) && Legal(s, op) && !op.UpdateOp?
    ensures var t := Next(s, op).store; Evolves(s, t) && CompletedSame(s, t)
  {
    match op
    case OutOp(id, draft, now) => OutEvolves(s, id, draft, now);
    case TakeOp(candidates, agentId, token, default, now) => TakeFirstEvolves(s, candidates, agentId, token, default, now);
    case BatchTakeOp(claims, agentId, default, now) => TakeEachEvolves(s, claims, agentId, default, now);
    case CompleteOp(id, agentId, token, result, now) => CompleteEvolves(s, id, agentId, token, result, now);
    case CompleteAndOutOp(id, agentId, token, result, outputs, now) =>
      CompleteAndOutEvolves(s, id, agentId, token, result, outputs, now);
    case ReleaseOp(id, agentId, token, now) => ReleaseEvolves(s, id, agentId, token, now);
    case RenewOp(id, agentId, token, default, now) => RenewEvolves(s, id, agentId, token, default, now);
    case ReapOp(ids, now) => ReleaseEachEvolves(s, ids, now);
  }

  lemma NextEvolves(s: Store, op: Op)
    requires Inv(s) && Legal(s, op)
    ensures Evolves(s, Next(s, op).store)
    ensures !op.UpdateOp? ==> CompletedSame(s, Next(s, op).store)
  {
    if op.UpdateOp? {
      if Visible(s, op.id, op.now) {
        UpdateEvolves(s, op.id, op.payload, op.tags, op.metadata, op.agentId, op.now);
      }
    } else {
      NextEvolvesStrictly(s, op);
    }
  }

  /** Over any run: rows are never lost, the log only grows, completed agents stay completed. */
  lemma {:induction false} RunEvolves(s: Store, ops: seq<Op>)
    requires Inv(s) && LegalRun(s, ops)
    ensures Inv(Run(s, ops)) && Evolves(s, Run(s, ops))
    decreases |ops|
  {
    if ops != [] {
      var t := Next(s, ops[0]).store;
      NextKeeps(s, ops[0]);
      NextEvolves(s, ops[0]);
      RunEvolves(t, ops[1..]);
      EvolvesTransitive(s, t, Run(t, ops[1..]));
    }
  }

  /** Someone's lease runs under this token. */
  ghost predicate Held(s: Store, token: string) {
    token != "" && exists id :: id in s.rows && s.rows[id].leaseToken == token
  }

  ghost predicate Spent(s: Store, token: string) {
    token in s.issued && !Held(s, token)
  }

  /** The step tries to complete, release or renew under this token. */
  predicate Presents(op: Op, token: string) {
    match op
    case CompleteOp(_, _, t, _, _) => t == token
    case CompleteAndOutOp(_, _, t, _, _, _) => t == token
    case ReleaseOp(_, _, t, _) => t == token
    case RenewOp(_, _, t, _, _) => t == token
    case _ => false
  }

  /** In every reachable store a live token belongs to one agent. */
  lemma OneHolder(ops: seq<Op>, i: string, j: string)
    requires LegalRun(EMPTY, ops)
    ensures var s := Run(EMPTY, ops);
            i in s.rows && j in s.rows && s.rows[i].leaseToken == s.rows[j].leaseToken != "" ==> i == j
  {
    RunKeeps(EMPTY, ops);
  }

  lemma SpentIsInert(s: Store, op: Op, token: string)
    requires Inv(s) && Spent(s, token) && Presents(op, token)
    ensures Next(s, op).store == s
  {
  }

  lemma SpentStays(s: Store, t: Store, token: string)
    requires Inv(s) && Spent(s, token) && Evolves(s, t)
    ensures Spent(t, token)
  {
  }

  /** A token that is held and then no longer held has been spent. */
  lemma DroppedIsSpent(s: Store, t: Store, token: string)
    requires Inv(s) && Held(s, token) && Evolves(s, t) && !Held(t, token)
    ensures Spent(t, token)
  {
  }

  /** The store after the first `i` steps of a run. */
  function At(ops: seq<Op>, i: nat): Store
    requires i <= |ops|
  {
    Run(EMPTY, ops[..i])
  }

  lemma EmptyOk()
    ensures Inv(EMPTY)
  {
  }

  lemma AtLegal(ops: seq<Op>, i: nat)
    requires LegalRun(EMPTY, ops) && i <= |ops|
    ensures LegalRun(EMPTY, ops[..i]) && Inv(At(ops, i))
  {
    hide Inv, Legal, Next;
    EmptyOk();
    assert ops == ops[..i] + ops[i..];
    RunSplit(EMPTY, ops[..i], ops[i..]);
    RunKeeps(EMPTY, ops[..i]);
  }

  lemma AtNext(ops: seq<Op>, i: nat)
    requires i < |ops|
    ensures At(ops, i + 1) == Next(At(ops, i), ops[i]).store
  {
    assert ops[..i + 1] == ops[..i] + [ops[i]];
    RunSplit(EMPTY, ops[..i], [ops[i]]);
    assert Run(At(ops, i), [ops[i]]) == Next(At(ops, i), ops[i]).store;
  }

  lemma AtEvolves(ops: seq<Op>, i: nat, k: nat)
    requires LegalRun(EMPTY, ops) && i <= k <= |ops|
    ensures Evolves(At(ops, i), At(ops, k))
  {
    hide Inv, Legal, Next, Evolves;
    AtLegal(ops, i);
    AtLegal(ops, k);
    assert ops[..k] == ops[..i] + ops[i..k];
    RunSplit(EMPTY, ops[..i], ops[i..k]);
    RunEvolves(At(ops, i), ops[i..k]);
  }

  /**
   * Fencing: once the claim behind a token ends, in whatever way, no later complete, release or renew
   * that presents the token changes anything.
   */
  lemma Fenced(ops: seq<Op>, i: nat, k: nat, token: string)
    requires LegalRun(EMPTY, ops) && i < k < |ops|
    requires Held(At(ops, i), token) && !Held(At(ops, i + 1), token)
    requires Presents(ops[k], token)
    ensures At(ops, k + 1) == At(ops, k)
  {
    hide Inv, LegalRun, Evolves, At, Next, Held, Spent, Presents;
    AtLegal(ops, i);
    AtLegal(ops, i + 1);
    AtLegal(ops, k);
    AtEvolves(ops, i, i + 1);
    DroppedIsSpent(At(ops, i), At(ops, i + 1), token);
    AtEvolves(ops, i + 1, k);
    SpentStays(At(ops, i + 1), At(ops, k), token);
    SpentIsInert(At(ops, k), ops[k], token);
    AtNext(ops, k);
  }

  lemma RowDropsToken(s: Store, t: Store, id: string, token: string)
    requires Inv(s) && Evolves(s, t) && id in s.rows && s.rows[id].leaseToken == token != ""
    requires t.rows[id].leaseToken == ""
    ensures Spent(t, token)
  {
  }

  lemma CompleteAndOutRow(s: Store, id: string, agentId: string, token: string, result: string,
                          outputs: seq<(string, Agent)>, now: int)
    requires Inv(s) && FreshOutputs(s, outputs)
    requires CompleteAndOut(s, id, agentId, token, result, outputs, true, now).verdict == Done
    ensures Holds(s, id, agentId, token, now)
    ensures var t := CompleteAndOut(s, id, agentId, token, result, outputs, true, now).store;
            id in t.rows && t.rows[id] == CompletedBy(s.rows[id], agentId, token, result, now)
  {
    CompleteKeeps(s, id, agentId, token, result, now);
    var done := CompletedBy(s.rows[id], agentId, token, result, now);
    CreateEachRows(Write(s, done, CompletedEvent, agentId), outputs, done, true, agentId, now, id);
  }

  /** A successful complete or release, or a reaper pass over an overdue lease. */
  ghost predicate Ends(s: Store, op: Op, id: string) {
    || (op.CompleteOp? && op.id == id && Next(s, op).verdict == Done)
    || (op.CompleteAndOutOp? && op.id == id && Next(s, op).verdict == Done)
    || (op.ReleaseOp? && op.id == id && Next(s, op).verdict == Done)
    || (op.ReapOp? && id in op.ids && Overdue(s, id, op.now))
  }

  lemma EndingClearsRow(s: Store, op: Op, id: string)
    requires Inv(s) && Legal(s, op) && id in s.rows && Ends(s, op, id)
    ensures var t := Next(s, op).store; id in t.rows && t.rows[id].leaseToken == ""
  {
    hide LogOk, TokensOk, FreshOutputs;
    if op.ReapOp? {
      ReleaseEachEnds(s, op.ids, id, op.now);
    } else if op.CompleteAndOutOp? {
      CompleteAndOutRow(s, id, op.agentId, op.token, op.result, op.outputs, op.now);
    }
  }

  /** Each way of ending a claim spends its token. */
  lemma EndsClaim(s: Store, op: Op, id: string, token: string)
    requires Inv(s) && Legal(s, op) && id in s.rows && s.rows[id].leaseToken == token != "" && Ends(s, op, id)
    ensures Spent(Next(s, op).store, token)
  {
    NextEvolves(s, op);
    EndingClearsRow(s, op, id);
    RowDropsToken(s, Next(s, op).store, id, token);
  }

  lemma {:induction false} ReleaseEachEnds(s: Store, ids: seq<string>, id: string, now: int)
    requires Inv(s) && id in s.rows && (s.rows[id].leaseToken == "" || (id in ids && Overdue(s, id, now)))
    ensures var t := ReleaseEach(s, ids, now); id in t.rows && t.rows[id].leaseToken == ""
    decreases |ids|
  {
    if ids != [] {
      if Overdue(s, ids[0], now) {
        var next := Released(s.rows[ids[0]], now);
        ReleasedOk(s.rows[ids[0]], now);
        WriteKeeps(s, next, ReleasedEvent, "reaper", s.issued);
        ReleaseEachEnds(Write(s, next, ReleasedEvent, "reaper"), ids[1..], id, now);
      } else {
        ReleaseEachEnds(s, ids[1..], id, now);
      }
    }
  }

  lemma {:induction false} CreateEachRows(s: Store, outputs: seq<(string, Agent)>, parent: Agent, withNamespace: bool,
                                          agentId: string, now: int, id: string)
    requires id in s.rows && FreshOutputs(s, outputs)
    ensures var t := CreateEach(s, outputs, parent, withNamespace, agentId, now); id in t.rows && t.rows[id] == s.rows[id]
    decreases |outputs|
  {
    if outputs != [] {
      var (newId, draft) := outputs[0];
      CreateEachRows(Write(s, Submitted(Inherited(draft, parent, withNamespace), newId, now), CreatedEvent, agentId),
                     outputs[1..], parent, withNamespace, agentId, now, id);
    }
  }

  /** The event log of every agent carries versions 1..current and replays to its status. */
  lemma LogReplays(ops: seq<Op>, id: string)
    requires LegalRun(EMPTY, ops)
    ensures var s := Run(EMPTY, ops);
            var events := History(s.log, id);
            if id in s.rows then
              && |events| == s.rows[id].version
              && (forall k | 0 <= k < |events| :: events[k].version == k + 1 && events[k].tupleId == id)
              && Replay(events) == Some(s.rows[id].status)
            else events == []
  {
    RunKeeps(EMPTY, ops);
    HistoryOwn(Run(EMPTY, ops).log, id);
  }

  lemma {:induction false} HistoryOwn(log: seq<Event>, id: string)
    ensures forall k | 0 <= k < |History(log, id)| :: History(log, id)[k].tupleId == id
  {
    if log != [] {
      HistoryOwn(log[..|log| - 1], id);
    }
  }

  /** No agent is ever completed twice, whatever the run. */
  lemma AtMostOneCompletion(ops: seq<Op>, id: string)
    requires LegalRun(EMPTY, ops)
    ensures var s := Run(EMPTY, ops);
            CompletedCount(History(s.log, id)) == if id in s.rows && s.rows[id].status == Completed then 1 else 0
  {
    RunKeeps(EMPTY, ops);
  }

  /** The agent is completed and its metadata names the winning token. */
  ghost predicate WonBy(s: Store, id: string, token: string) {
    id in s.rows && s.rows[id].status == Completed && MetaValue(s.rows[id], COMPLETED_TOKEN) == token
  }

  predicate LeavesRecord(op: Op, id: string) {
    op.UpdateOp? && op.id == id ==> COMPLETED_TOKEN !in op.metadata
  }

  lemma NamespaceIsNotToken()
    ensures NAMESPACE != COMPLETED_TOKEN
  {
    assert NAMESPACE[0] == 'n' && COMPLETED_TOKEN[0] == '_';
  }

  lemma WonByStays(s: Store, op: Op, id: string, token: string)
    requires Inv(s) && Legal(s, op) && WonBy(s, id, token) && LeavesRecord(op, id)
    ensures WonBy(Next(s, op).store, id, token)
  {
    hide LogOk, TokensOk, Legal;
    NextEvolves(s, op);
    if op.UpdateOp? && op.id == id {
      PatchedRecord(s.rows[id], op.payload, op.tags, op.metadata, op.now);
    }
  }

  lemma {:induction false} WonByStaysOver(s: Store, ops: seq<Op>, id: string, token: string)
    requires Inv(s) && LegalRun(s, ops) && WonBy(s, id, token)
    requires forall i | 0 <= i < |ops| :: LeavesRecord(ops[i], id)
    ensures WonBy(Run(s, ops), id, token)
    decreases |ops|
  {
    if ops != [] {
      WonByStays(s, ops[0], id, token);
      NextKeeps(s, ops[0]);
      WonByStaysOver(Next(s, ops[0]).store, ops[1..], id, token);
    }
  }

  /** The step completes the agent under this token, with or without outputs. */
  ghost predicate Wins(s: Store, op: Op, id: string, token: string) {
    (op.CompleteOp? || op.CompleteAndOutOp?) && op.id == id && op.token == token && Next(s, op).verdict == Done
  }

  lemma WinIsRecorded(s: Store, op: Op, id: string, token: string)
    requires Inv(s) && Legal(s, op) && Wins(s, op, id, token)
    ensures Inv(Next(s, op).store) && WonBy(Next(s, op).store, id, token)
  {
    hide LogOk, TokensOk, RowOk, FreshOutputs;
    NextKeeps(s, op);
    if op.CompleteAndOutOp? {
      CompleteAndOutRow(s, id, op.agentId, token, op.result, op.outputs, op.now);
    }
    CompletionKeepsNamespace(s.rows[id].metadata, op.agentId, token, op.now);
  }

  /**
   * After a completion of either kind and any further run that leaves the recorded token alone, the
   * winner's retry succeeds and changes nothing, so no output is created twice, and every other token
   * is turned away as stale. Retries of both kinds are covered.
   */
  lemma CompletionIsIdempotent(s: Store, op: Op, id: string, token: string, ops: seq<Op>, agentId: string, token': string,
                               result: string, outputs: seq<(string, Agent)>, now: int)
    requires Inv(s) && Legal(s, op) && Wins(s, op, id, token)
    requires LegalRun(Next(s, op).store, ops) && forall i | 0 <= i < |ops| :: LeavesRecord(ops[i], id)
    requires agentId != "" && token' != ""
    requires Visible(Run(Next(s, op).store, ops), id, now)
    ensures var t := Run(Next(s, op).store, ops);
            var verdict := if token' == token then Replayed else StaleToken;
            && Complete(t, id, agentId, token', result, now) == Result(t, verdict)
            && CompleteAndOut(t, id, agentId, token', result, outputs, true, now) == Result(t, verdict)
  {
    hide Inv, Legal, LegalRun, LeavesRecord, Next, Run, CreateEach;
    WinIsRecorded(s, op, id, token);
    WonByStaysOver(Next(s, op).store, ops, id, token);
  }

  lemma PatchedRecord(a: Agent, payload: map<string, string>, tags: Option<seq<string>>, metadata: map<string, string>, now: int)
    ensures MetaValue(Patched(a, payload, tags, metadata, now), COMPLETED_TOKEN)
         == if COMPLETED_TOKEN in metadata then metadata[COMPLETED_TOKEN] else MetaValue(a, COMPLETED_TOKEN)
  {
    NamespaceIsNotToken();
  }

  /** An update may overwrite the record: the retry then succeeds exactly when the update left the winner's token. */
  lemma RetryAfterUpdate(s: Store, id: string, token: string, payload: map<string, string>, tags: Option<seq<string>>,
                         metadata: map<string, string>, editor: string, now: int, agentId: string, result: string, now': int)
    requires Inv(s) && WonBy(s, id, token) && token != "" && agentId != ""
    requires Visible(s, id, now) && Visible(s, id, now')
    ensures var t := Next(s, UpdateOp(id, payload, tags, metadata, editor, now)).store;
            Complete(t, id, agentId, token, result, now').verdict == Replayed
            <==> (COMPLETED_TOKEN in metadata ==> metadata[COMPLETED_TOKEN] == token)
  {
    RetryOnPatched(s, id, payload, tags, metadata, editor, now, agentId, token, result, now');
  }

  lemma RetryOnPatched(s: Store, id: string, payload: map<string, string>, tags: Option<seq<string>>,
                       metadata: map<string, string>, editor: string, now: int,
                       agentId: string, token: string, result: string, now': int)
    requires Visible(s, id, now) && Visible(s, id, now') && s.rows[id].id == id && s.rows[id].status == Completed
    requires token != "" && agentId != ""
    ensures var t := Next(s, UpdateOp(id, payload, tags, metadata, editor, now)).store;
            Complete(t, id, agentId, token, result, now').verdict == Replayed
            <==> (if COMPLETED_TOKEN in metadata then metadata[COMPLETED_TOKEN] else MetaValue(s.rows[id], COMPLETED_TOKEN)) == token
  {
    var next := Patched(s.rows[id], payload, tags, metadata, now);
    PatchedRecord(s.rows[id], payload, tags, metadata, now);
    assert Next(s, UpdateOp(id, payload, tags, metadata, editor, now)).store.rows[id] == next;
  }

  /** Completing with outputs is all or nothing. */
  lemma CompleteAndOutAtomic(s: Store, id: string, agentId: string, token: string, result: string,
                             outputs: seq<(string, Agent)>, now: int)
    requires Inv(s) && FreshOutputs(s, outputs)
    ensures var r := CompleteAndOut(s, id, agentId, token, result, outputs, true, now);
            if r.verdict != Done then r.store == s
            else
              && id in s.rows && id in r.store.rows
              && r.store.rows[id] == CompletedBy(s.rows[id], agentId, token, result, now)
              && AllCreated(Write(s, r.store.rows[id], CompletedEvent, agentId), r.store, outputs, r.store.rows[id], agentId, now)
  {
    if CompleteAndOut(s, id, agentId, token, result, outputs, true, now).verdict == Done {
      CompleteKeeps(s, id, agentId, token, result, now);
      CompleteAndOutRow(s, id, agentId, token, result, outputs, now);
      var done := CompletedBy(s.rows[id], agentId, token, result, now);
      CreateEachAll(Write(s, done, CompletedEvent, agentId), outputs, done, agentId, now);
    }
  }

  function OutputIds(outputs: seq<(string, Agent)>): set<string> {
    if outputs == [] then {} else {outputs[0].0} + OutputIds(outputs[1..])
  }

  /** Between the stores every output appeared as version 1 with its own event, and no other row did. */
  ghost predicate AllCreated(s: Store, t: Store, outputs: seq<(string, Agent)>, parent: Agent, agentId: string, now: int) {
    && t.rows.Keys == s.rows.Keys + OutputIds(outputs)
    && |t.log| == |s.log| + |outputs| && s.log <= t.log
    && (forall i | 0 <= i < |outputs| ::
          && outputs[i].0 in t.rows
          && t.rows[outputs[i].0] == Submitted(Inherited(outputs[i].1, parent, true), outputs[i].0, now))
    && (forall i | 0 <= i < |outputs| :: t.log[|s.log| + i] == Event(outputs[i].0, CreatedEvent, 1, agentId))
  }

  lemma {:induction false} CreateEachAll(s: Store, outputs: seq<(string, Agent)>, parent: Agent, agentId: string, now: int)
    requires FreshOutputs(s, outputs)
    ensures AllCreated(s, CreateEach(s, outputs, parent, true, agentId, now), outputs, parent, agentId, now)
    decreases |outputs|
  {
    if outputs != [] {
      var (id, draft) := outputs[0];
      var output := Submitted(Inherited(draft, parent, true), id, now);
      var u := Write(s, output, CreatedEvent, agentId);
      var t := CreateEach(u, outputs[1..], parent, true, agentId, now);
      CreateEachAll(u, outputs[1..], parent, agentId, now);
      CreateEachRows(u, outputs[1..], parent, true, agentId, now, id);
      AllCreatedPrepend(s, u, t, outputs, parent, agentId, now);
    }
  }

  lemma AllCreatedPrepend(s: Store, u: Store, t: Store, outputs: seq<(string, Agent)>, parent: Agent, agentId: string, now: int)
    requires outputs != []
    requires u == Write(s, Submitted(Inherited(outputs[0].1, parent, true), outputs[0].0, now), CreatedEvent, agentId)
    requires AllCreated(u, t, outputs[1..], parent, agentId, now)
    requires outputs[0].0 in t.rows && t.rows[outputs[0].0] == u.rows[outputs[0].0]
    ensures AllCreated(s, t, outputs, parent, agentId, now)
  {
    var rest := outputs[1..];
    forall i | 0 <= i < |outputs|
      ensures outputs[i].0 in t.rows
           && t.rows[outputs[i].0] == Submitted(Inherited(outputs[i].1, parent, true), outputs[i].0, now)
    {
      assert i > 0 ==> outputs[i] == rest[i - 1];
    }
    forall i | 0 <= i < |outputs| ensures t.log[|s.log| + i] == Event(outputs[i].0, CreatedEvent, 1, agentId) {
      if i > 0 {
        assert t.log[|u.log| + (i - 1)] == Event(rest[i - 1].0, CreatedEvent, 1, agentId);
      } else {
        assert t.log[|s.log|] == u.log[|s.log|];
      }
    }
  }

  // ----- Refusals -----

  /** Classifying this row would report neither a status, an owner nor a token as the conflict. */
  predicate FallsThrough(a: Agent, agentId: string, token: string) {
    Conflict(a, agentId, token) == Rejected || CompletionConflict(a, agentId, token) == Rejected
  }

  /**
   * The guarded update is refused on one state and the row is read again on a later one. In none of
   * the later states does the classification fall through.
   */
  ghost predicate AlwaysExplained(s: Store, id: string, agentId: string, token: string, now: int) {
    forall ops, now' | LegalRun(s, ops) && now <= now' && Visible(Run(s, ops), id, now') ::
      !FallsThrough(Run(s, ops).rows[id], agentId, token)
  }

  /** The agent can never be claimed again: it is completed or its time to live is over. */
  predicate Gone(s: Store, id: string, now: int) {
    id in s.rows && (s.rows[id].status == Completed || !Live(s.rows[id], now))
  }

  lemma RefusalStands(s: Store, t: Store, id: string, agentId: string, token: string, now: int, now': int)
    requires Inv(s) && Inv(t) && Evolves(s, t) && token != "" && !Holds(s, id, agentId, token, now)
    requires now <= now' && Visible(t, id, now') && (token in s.issued || Gone(s, id, now))
    ensures !FallsThrough(t.rows[id], agentId, token)
  {
    hide LogOk;
  }

  function Blank(now: int): Agent {
    Agent("", "", New, map[], [], "", "", "", "", 0, now, now, None, "", None, 0, map[])
  }

  lemma RunOne(s: Store, op: Op)
    ensures Run(s, [op]) == Next(s, op).store && (LegalRun(s, [op]) <==> Legal(s, op))
  {
    assert [op][1..] == [];
  }

  lemma RunTwo(s: Store, a: Op, b: Op)
    ensures Run(s, [a, b]) == Next(Next(s, a).store, b).store
    ensures LegalRun(s, [a, b]) <==> Legal(s, a) && Legal(Next(s, a).store, b)
  {
    assert [a, b][1..] == [b];
    RunOne(Next(s, a).store, b);
  }

  /** Under a token nobody holds yet, the agent can be claimed before the row is read again. */
  lemma ClaimFallsThrough(s: Store, id: string, agentId: string, token: string, now: int) returns (op: Op)
    requires Claimable(s, id, now) && s.rows[id].id == id && token != "" && token !in s.issued
    ensures Legal(s, op)
    ensures var t := Next(s, op).store; Visible(t, id, now) && FallsThrough(t.rows[id], agentId, token)
  {
    op := TakeOp([id], agentId, token, 1, now);
  }

  lemma UnissuedMayFallThrough(s: Store, id: string, agentId: string, token: string, now: int)
    requires Inv(s) && token != "" && token !in s.issued && !Gone(s, id, now)
    ensures !AlwaysExplained(s, id, agentId, token, now)
  {
    hide LogOk, FallsThrough;
    if Claimable(s, id, now) {
      var take := ClaimFallsThrough(s, id, agentId, token, now);
      RunOne(s, take);
    } else {
      var first := if id in s.rows then ReapOp([id], s.rows[id].leaseUntil.value + 1) else OutOp(id, Blank(now), now);
      var t := Next(s, first).store;
      MadeClaimable(s, id, now, first);
      var take := ClaimFallsThrough(t, id, agentId, token, now);
      RunTwo(s, first, take);
    }
  }

  lemma MadeClaimable(s: Store, id: string, now: int, first: Op)
    requires Inv(s) && !Gone(s, id, now) && !Claimable(s, id, now)
    requires id in s.rows ==> s.rows[id].leaseUntil.Some? && first == ReapOp([id], s.rows[id].leaseUntil.value + 1)
    requires id !in s.rows ==> first == OutOp(id, Blank(now), now)
    ensures var t := Next(s, first).store;
            Legal(s, first) && Claimable(t, id, now) && t.rows[id].id == id && t.issued == s.issued
  {
    hide LogOk;
    if id in s.rows {
      assert ReleaseEach(s, [id], first.now) == Write(s, Released(s.rows[id], first.now), ReleasedEvent, "reaper") by {
        assert [id][1..] == [];
      }
    }
  }

  /**
   * Every refusal is explained, however late the row is read again, exactly when the token was issued
   * before the refusal or the agent can no longer be claimed.
   */
  lemma AlwaysExplainedIff(s: Store, id: string, agentId: string, token: string, now: int)
    requires Inv(s) && token != "" && !Holds(s, id, agentId, token, now)
    ensures AlwaysExplained(s, id, agentId, token, now) <==> token in s.issued || Gone(s, id, now)
  {
    hide Inv, FallsThrough, Evolves, Gone;
    if token in s.issued || Gone(s, id, now) {
      forall ops, now' | LegalRun(s, ops) && now <= now' && Visible(Run(s, ops), id, now')
        ensures !FallsThrough(Run(s, ops).rows[id], agentId, token)
      {
        RunEvolves(s, ops);
        RefusalStands(s, Run(s, ops), id, agentId, token, now, now');
      }
    } else {
      UnissuedMayFallThrough(s, id, agentId, token, now);
    }
  }
}

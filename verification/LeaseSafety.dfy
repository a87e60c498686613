/** Safety of the lease protocol over whole runs: the event log, fencing tokens, at-most-once completion. */
module LeaseSafety {
  import opened Text
  import opened Agents
  import opened LeaseProtocol

  /** The events of one agent, oldest first. */
  function History(log: seq<Event>, id: string): seq<Event> {
    if log == [] then []
    else History(log[..|log| - 1], id) + (if log[|log| - 1].tupleId == id then [log[|log| - 1]] else [])
  }

  /** What an event does to a status; None marks an event that cannot happen there. */
  function Advance(status: Option<Status>, kind: EventType): Option<Status> {
    match kind
    case CreatedEvent => if status == None then Some(New) else None
    case ClaimedEvent => if status == Some(New) then Some(InProgress) else None
    case ReleasedEvent => if status == Some(InProgress) then Some(New) else None
    case CompletedEvent => if status == Some(InProgress) then Some(Completed) else None
    case UpdatedEvent => status
  }

  function Replay(events: seq<Event>): Option<Status> {
    if events == [] then None else Advance(Replay(events[..|events| - 1]), events[|events| - 1].kind)
  }

  function CompletedCount(events: seq<Event>): nat {
    if events == [] then 0
    else CompletedCount(events[..|events| - 1]) + (if events[|events| - 1].kind == CompletedEvent then 1 else 0)
  }

  /** Versions run 1, 2, ... up to the row's, and the event types replay to the row's status. */
  ghost predicate Chronicle(events: seq<Event>, a: Agent) {
    && |events| == a.version
    && (forall k | 0 <= k < |events| :: events[k].version == k + 1)
    && Replay(events) == Some(a.status)
    && CompletedCount(events) == if a.status == Completed then 1 else 0
  }

  ghost predicate RowOk(a: Agent) {
    && a.status in {New, InProgress, Completed}
    && (a.status == InProgress <==> a.leaseToken != "")
    && (a.status == InProgress <==> a.leaseUntil.Some?)
    && (a.status == New ==> a.owner == "")
    && Synced(a) == a
  }

  ghost predicate RowsOk(s: Store) {
    forall id | id in s.rows :: s.rows[id].id == id && RowOk(s.rows[id])
  }

  /** Live tokens were issued, and no two agents hold the same one. */
  ghost predicate TokensOk(s: Store) {
    && "" !in s.issued
    && (forall id | id in s.rows :: s.rows[id].leaseToken == "" || s.rows[id].leaseToken in s.issued)
    && (forall i, j | i in s.rows && j in s.rows && i != j && s.rows[i].leaseToken != "" ::
          s.rows[i].leaseToken != s.rows[j].leaseToken)
  }

  ghost predicate LogOk(s: Store) {
    && (forall id | id in s.rows :: Chronicle(History(s.log, id), s.rows[id]))
    && (forall id | id !in s.rows :: History(s.log, id) == [])
  }

  ghost predicate Inv(s: Store) {
    RowsOk(s) && TokensOk(s) && LogOk(s)
  }

  lemma HistoryAppend(log: seq<Event>, e: Event, id: string)
    ensures History(log + [e], id) == if e.tupleId == id then History(log, id) + [e] else History(log, id)
  {
    assert (log + [e])[..|log|] == log;
  }

  lemma ChronicleAppend(events: seq<Event>, e: Event, next: Agent)
    requires forall k | 0 <= k < |events| :: events[k].version == k + 1
    requires e.version == next.version == |events| + 1
    requires Advance(Replay(events), e.kind) == Some(next.status)
    requires CompletedCount(events) == if Replay(events) == Some(Completed) then 1 else 0
    ensures Chronicle(events + [e], next)
  {
    assert (events + [e])[..|events|] == events;
  }

  /** The row a write starts from, if any. */
  ghost predicate Follows(s: Store, next: Agent, kind: EventType) {
    if next.id in s.rows then
      && next.version == s.rows[next.id].version + 1
      && next.ttl == s.rows[next.id].ttl && next.createdAt == s.rows[next.id].createdAt
      && Advance(Some(s.rows[next.id].status), kind) == Some(next.status)
    else next.version == 1 && Advance(None, kind) == Some(next.status)
  }

  /** A written row holds no token, keeps its own under the same owner, or gets one never issued before. */
  ghost predicate TokenSource(s: Store, next: Agent, issued: set<string>) {
    && s.issued <= issued && "" !in issued
    && (next.leaseToken == ""
        || (next.id in s.rows && next.leaseToken == s.rows[next.id].leaseToken && next.owner == s.rows[next.id].owner)
        || (next.leaseToken !in s.issued && next.leaseToken in issued))
  }

  lemma ChronicleGrows(events: seq<Event>, e: Event, a: Agent, next: Agent)
    requires Chronicle(events, a) && e.version == next.version == a.version + 1
    requires Advance(Some(a.status), e.kind) == Some(next.status)
    ensures Chronicle(events + [e], next)
  {
    hide Replay, CompletedCount;
    ChronicleAppend(events, e, next);
  }

  lemma WriteKeepsLog(s: Store, next: Agent, kind: EventType, agentId: string, issued: set<string>)
    requires LogOk(s) && Follows(s, next, kind)
    ensures LogOk(Write(s, next, kind, agentId).(issued := issued))
  {
    hide Chronicle, History;
    var e := Event(next.id, kind, next.version, agentId);
    forall id ensures History(s.log + [e], id) == if next.id == id then History(s.log, id) + [e] else History(s.log, id) {
      HistoryAppend(s.log, e, id);
    }
    if next.id in s.rows {
      ChronicleGrows(History(s.log, next.id), e, s.rows[next.id], next);
    } else {
      ChronicleAppend([], e, next);
    }
  }

  lemma WriteKeepsTokens(s: Store, next: Agent, kind: EventType, agentId: string, issued: set<string>)
    requires TokensOk(s) && TokenSource(s, next, issued)
    ensures TokensOk(Write(s, next, kind, agentId).(issued := issued))
  {
  }

  lemma WriteKeepsRows(s: Store, next: Agent, kind: EventType, agentId: string, issued: set<string>)
    requires RowsOk(s) && RowOk(next)
    ensures RowsOk(Write(s, next, kind, agentId).(issued := issued))
  {
    hide RowOk;
  }

  lemma WriteKeeps(s: Store, next: Agent, kind: EventType, agentId: string, issued: set<string>)
    requires Inv(s) && RowOk(next) && Follows(s, next, kind) && TokenSource(s, next, issued)
    ensures Inv(Write(s, next, kind, agentId).(issued := issued))
  {
    hide RowsOk, TokensOk, LogOk, RowOk, Follows, TokenSource;
    WriteKeepsRows(s, next, kind, agentId, issued);
    WriteKeepsTokens(s, next, kind, agentId, issued);
    WriteKeepsLog(s, next, kind, agentId, issued);
  }

  lemma ClaimKeeps(s: Store, id: string, agentId: string, token: string, default: int, now: int)
    requires Inv(s) && Claimable(s, id, now) && token != "" && token !in s.issued
    ensures Inv(Claim(s, id, agentId, token, default, now))
  {
    WriteKeeps(s, Claimed(s.rows[id], agentId, token, default, now), ClaimedEvent, agentId, s.issued + {token});
  }

  lemma {:induction false} TakeFirstKeeps(s: Store, candidates: seq<string>, agentId: string, token: string, default: int, now: int)
    requires Inv(s) && token != "" && token !in s.issued
    ensures Inv(TakeFirst(s, candidates, agentId, token, default, now).store)
  {
    if candidates != [] {
      if Claimable(s, candidates[0], now) {
        ClaimKeeps(s, candidates[0], agentId, token, default, now);
      } else {
        TakeFirstKeeps(s, candidates[1..], agentId, token, default, now);
      }
    }
  }

  lemma {:induction false} TakeEachKeeps(s: Store, claims: seq<(string, string)>, agentId: string, default: int, now: int)
    requires Inv(s) && FreshClaims(s, claims)
    ensures Inv(TakeEach(s, claims, agentId, default, now))
    decreases |claims|
  {
    if claims != [] {
      var (id, token) := claims[0];
      var s' := if Claimable(s, id, now) then Claim(s, id, agentId, token, default, now) else s;
      if Claimable(s, id, now) {
        ClaimKeeps(s, id, agentId, token, default, now);
      }
      TakeEachKeeps(s', claims[1..], agentId, default, now);
    }
  }

  lemma SyncedTwice(a: Agent)
    ensures Synced(Synced(a)) == Synced(a)
  {
  }

  lemma SubmittedOk(draft: Agent, id: string, now: int)
    requires IsDraft(draft)
    ensures RowOk(Submitted(draft, id, now))
  {
    SyncedTwice(draft.(id := id, updatedAt := now, version := 1));
  }

  lemma {:induction false} CreateEachKeeps(s: Store, outputs: seq<(string, Agent)>, parent: Agent, withNamespace: bool,
                                           agentId: string, now: int)
    requires Inv(s) && FreshOutputs(s, outputs)
    ensures Inv(CreateEach(s, outputs, parent, withNamespace, agentId, now))
    decreases |outputs|
  {
    if outputs != [] {
      var (id, draft) := outputs[0];
      var output := Submitted(Inherited(draft, parent, withNamespace), id, now);
      SubmittedOk(Inherited(draft, parent, withNamespace), id, now);
      WriteKeeps(s, output, CreatedEvent, agentId, s.issued);
      CreateEachKeeps(Write(s, output, CreatedEvent, agentId), outputs[1..], parent, withNamespace, agentId, now);
    }
  }

  lemma CompletionKeepsNamespace(m: map<string, string>, owner: string, token: string, now: int)
    ensures var m' := CompletionMetadata(m, owner, token, now);
            (NAMESPACE in m' <==> NAMESPACE in m) && (NAMESPACE in m ==> m'[NAMESPACE] == m[NAMESPACE])
    ensures var m' := CompletionMetadata(m, owner, token, now);
            token != "" ==> COMPLETED_TOKEN in m' && m'[COMPLETED_TOKEN] == token
  {
    assert NAMESPACE[0] == 'n' && COMPLETED_BY[0] == '_' && COMPLETED_TOKEN[0] == '_' && COMPLETED_AT[0] == '_';
    assert |COMPLETED_BY| == 13 && |COMPLETED_TOKEN| == 19 && |COMPLETED_AT| == 13;
  }

  lemma CompletedOk(a: Agent, owner: string, token: string, result: string, now: int)
    requires RowOk(a)
    ensures RowOk(CompletedBy(a, owner, token, result, now))
  {
    CompletionKeepsNamespace(a.metadata, owner, token, now);
    var done := CompletedBy(a, owner, token, result, now);
    assert Synced(a) == a;
    if done.namespaceId != "" {
      assert done.metadata[NAMESPACE := done.namespaceId] == done.metadata;
    }
  }

  lemma {:induction false} ReleaseEachKeeps(s: Store, ids: seq<string>, now: int)
    requires Inv(s)
    ensures Inv(ReleaseEach(s, ids, now))
    decreases |ids|
  {
    if ids != [] {
      if Overdue(s, ids[0], now) {
        ReleasedOk(s.rows[ids[0]], now);
        WriteKeeps(s, Released(s.rows[ids[0]], now), ReleasedEvent, "reaper", s.issued);
        ReleaseEachKeeps(Write(s, Released(s.rows[ids[0]], now), ReleasedEvent, "reaper"), ids[1..], now);
      } else {
        ReleaseEachKeeps(s, ids[1..], now);
      }
    }
  }

  lemma ReleasedOk(a: Agent, now: int)
    requires RowOk(a)
    ensures RowOk(Released(a, now))
  {
    assert Synced(a) == a;
  }

  lemma RenewKeeps(s: Store, id: string, default: int, now: int)
    requires Inv(s) && id in s.rows && s.rows[id].status == InProgress
    ensures Inv(s.(rows := s.rows[id := Renewed(s.rows[id], default, now)]))
  {
    hide History, Replay, CompletedCount;
    assert Synced(s.rows[id]) == s.rows[id];
  }

  lemma UpdateKeeps(s: Store, id: string, payload: map<string, string>, tags: Option<seq<string>>,
                    metadata: map<string, string>, agentId: string, now: int)
    requires Inv(s) && id in s.rows
    ensures Inv(Write(s, Patched(s.rows[id], payload, tags, metadata, now), UpdatedEvent, agentId))
  {
    var next := Patched(s.rows[id], payload, tags, metadata, now);
    SyncedTwice(s.rows[id].(payload := s.rows[id].payload + payload,
                            tags := if tags.Some? then tags.value else s.rows[id].tags,
                            metadata := s.rows[id].metadata + metadata, updatedAt := now,
                            version := s.rows[id].version + 1));
    assert Synced(s.rows[id]) == s.rows[id];
    WriteKeeps(s, next, UpdatedEvent, agentId, s.issued);
  }

  lemma CompleteKeeps(s: Store, id: string, agentId: string, token: string, result: string, now: int)
    requires Inv(s) && Holds(s, id, agentId, token, now)
    ensures var done := CompletedBy(s.rows[id], agentId, token, result, now);
            Synced(done) == done && Inv(Write(s, done, CompletedEvent, agentId))
  {
    var done := CompletedBy(s.rows[id], agentId, token, result, now);
    CompletedOk(s.rows[id], agentId, token, result, now);
    WriteKeeps(s, done, CompletedEvent, agentId, s.issued);
  }

  lemma OutKeeps(s: Store, id: string, draft: Agent, now: int)
    requires Inv(s) && id !in s.rows && IsDraft(draft)
    ensures Inv(Write(s, Submitted(draft, id, now), CreatedEvent, MetaValue(draft, AGENT_ID)))
  {
    SubmittedOk(draft, id, now);
    WriteKeeps(s, Submitted(draft, id, now), CreatedEvent, MetaValue(draft, AGENT_ID), s.issued);
  }

  lemma ReleaseKeeps(s: Store, id: string, agentId: string, now: int)
    requires Inv(s) && id in s.rows && s.rows[id].status == InProgress
    ensures Inv(Write(s, Released(s.rows[id], now), ReleasedEvent, agentId))
  {
    hide LogOk;
    ReleasedOk(s.rows[id], now);
    WriteKeeps(s, Released(s.rows[id], now), ReleasedEvent, agentId, s.issued);
  }

  lemma CompleteAndOutKeeps(s: Store, id: string, agentId: string, token: string, result: string,
                            outputs: seq<(string, Agent)>, now: int)
    requires Inv(s) && FreshOutputs(s, outputs) && Holds(s, id, agentId, token, now)
    ensures Inv(CompleteAndOut(s, id, agentId, token, result, outputs, true, now).store)
  {
    hide LogOk, TokensOk, RowOk;
    CompleteKeeps(s, id, agentId, token, result, now);
    var done := CompletedBy(s.rows[id], agentId, token, result, now);
    CreateEachKeeps(Write(s, done, CompletedEvent, agentId), outputs, done, true, agentId, now);
  }

  /** Every step keeps rows, tokens and log in order. */
  lemma NextKeeps(s: Store, op: Op)
    requires Inv(s) && Legal(s, op)
    ensures Inv(Next(s, op).store)
  {
    hide Inv, FreshOutputs, FreshClaims, CreateEach;
    match op
    case OutOp(id, draft, now) => OutKeeps(s, id, draft, now);
    case TakeOp(candidates, agentId, token, default, now) => TakeFirstKeeps(s, candidates, agentId, token, default, now);
    case BatchTakeOp(claims, agentId, default, now) => TakeEachKeeps(s, claims, agentId, default, now);
    case CompleteOp(id, agentId, token, result, now) =>
      if Holds(s, id, agentId, token, now) {
        CompleteKeeps(s, id, agentId, token, result, now);
      }
    case CompleteAndOutOp(id, agentId, token, result, outputs, now) =>
      if Holds(s, id, agentId, token, now) {
        CompleteAndOutKeeps(s, id, agentId, token, result, outputs, now);
      }
    case ReleaseOp(id, agentId, token, now) =>
      if Holds(s, id, agentId, token, now) {
        ReleaseKeeps(s, id, agentId, now);
      }
    case RenewOp(id, agentId, token, default, now) =>
      if Holds(s, id, agentId, token, now) {
        RenewKeeps(s, id, default, now);
      }
    case UpdateOp(id, payload, tags, metadata, agentId, now) =>
      if Visible(s, id, now) {
        UpdateKeeps(s, id, payload, tags, metadata, agentId, now);
      }
    case ReapOp(ids, now) => ReleaseEachKeeps(s, ids, now);
  }

  /** Every reachable store is in order. */
  lemma {:induction false} RunKeeps(s: Store, ops: seq<Op>)
    requires Inv(s) && LegalRun(s, ops)
    ensures Inv(Run(s, ops))
    decreases |ops|
  {
    if ops != [] {
      NextKeeps(s, ops[0]);
      RunKeeps(Next(s, ops[0]).store, ops[1..]);
    }
  }
}

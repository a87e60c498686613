/**
 * The SQLite lifecycle: every operation loads a row, checks it, overwrites its fields, writes it back
 * and appends an event. It is proved to take the same steps as the Postgres state machine.
 */
module SqliteStore {
  import opened Text
  import opened Ordering
  import opened Agents
  import LP = LeaseProtocol
  import opened LeaseSafety

  class Database {
    var rows: map<string, Agent>
    var log: seq<LP.Event>
    ghost var issued: set<string>

    ghost function State(): LP.Store
      reads this
    {
      LP.Store(rows, log, issued)
    }

    ghost predicate Valid()
      reads this
    {
      Inv(State())
    }

    constructor ()
      ensures Valid() && State() == LP.EMPTY
    {
      rows, log, issued := map[], [], {};
    }

    /** Write one row, with the namespace kept in step, and append one event. */
    method Store(t: Agent, kind: LP.EventType, agentId: string)
      modifies this`rows, this`log
      ensures rows == old(rows)[t.id := LP.Synced(t)]
      ensures log == old(log) + [LP.Event(t.id, kind, t.version, agentId)]
    {
      var next := t;
      if t.namespaceId != "" {
        next := next.(metadata := next.metadata[NAMESPACE := next.namespaceId]);
      } else if NAMESPACE in t.metadata && t.metadata[NAMESPACE] != "" {
        next := next.(namespaceId := t.metadata[NAMESPACE]);
      }
      rows := rows[t.id := next];
      log := log + [LP.Event(t.id, kind, t.version, agentId)];
    }

    method Out(id: string, draft: Agent, now: int)
      requires Valid() && LP.Legal(State(), LP.OutOp(id, draft, now))
      modifies this
      ensures Valid() && State() == LP.Next(old(State()), LP.OutOp(id, draft, now)).store
    {
      NextKeeps(State(), LP.OutOp(id, draft, now));
      var t := draft.(id := id, updatedAt := now);
      if t.version == 0 {
        t := t.(version := 1);
      }
      Store(t, LP.CreatedEvent, MetaValue(draft, AGENT_ID));
    }

    /** The guarded update of one candidate. */
    method ClaimRow(id: string, agentId: string, token: string, default: int, now: int)
      requires LP.Claimable(State(), id, now) && rows[id].id == id
      modifies this
      ensures State() == LP.Claim(old(State()), id, agentId, token, default, now)
    {
      var t := rows[id];
      t := t.(status := InProgress, owner := agentId, ownerTime := Some(now), leaseToken := token);
      t := t.(leaseUntil := Some(now + LP.LeaseMs(t, default)), updatedAt := now, version := t.version + 1);
      rows := rows[id := t];
      log := log + [LP.Event(id, LP.ClaimedEvent, t.version, agentId)];
      issued := issued + {token};
    }

    /** Walk the selected rows and claim the first one the guarded update still accepts. */
    method Take(candidates: seq<string>, agentId: string, token: string, default: int, now: int) returns (verdict: LP.Verdict)
      requires Valid() && token != "" && token !in issued
      modifies this
      ensures Valid()
      ensures LP.Result(State(), verdict) == LP.TakeFirst(old(State()), candidates, agentId, token, default, now)
    {
      TakeFirstKeeps(State(), candidates, agentId, token, default, now);
      verdict := LP.Nothing;
      var i := 0;
      while i < |candidates| && verdict == LP.Nothing
        invariant i <= |candidates|
        invariant verdict == LP.Nothing ==> State() == old(State())
        invariant LP.TakeFirst(old(State()), candidates, agentId, token, default, now)
               == if verdict == LP.Nothing then LP.TakeFirst(old(State()), candidates[i..], agentId, token, default, now)
                  else LP.Result(State(), verdict)
      {
        assert candidates[i..][1..] == candidates[i + 1..];
        var id := candidates[i];
        if id in rows && LP.Live(rows[id], now) && rows[id].status == New {
          ClaimRow(id, agentId, token, default, now);
          verdict := LP.Done;
        }
        i := i + 1;
      }
    }

    method Complete(id: string, agentId: string, token: string, result: string, now: int) returns (verdict: LP.Verdict)
      requires Valid()
      modifies this
      ensures Valid()
      ensures LP.Result(State(), verdict) == LP.Complete(old(State()), id, agentId, token, result, now)
    {
      NextKeeps(State(), LP.CompleteOp(id, agentId, token, result, now));
      if agentId == "" { return LP.AgentRequired; }
      if token == "" { return LP.TokenRequired; }
      if id !in rows || !LP.Live(rows[id], now) { return LP.NotFound; }
      var t := rows[id];
      if t.status == Completed {
        return if LP.CompletionTokenMatches(t, token) then LP.Replayed else LP.StaleToken;
      }
      if t.status != InProgress { return LP.InvalidStatus; }
      if t.owner != agentId { return LP.OwnedByOther; }
      if t.leaseToken != token { return LP.TokenMismatch; }
      CompleteKeeps(State(), id, agentId, token, result, now);
      t := Finish(t, agentId, token, result, now);
      Store(t, LP.CompletedEvent, agentId);
      return LP.Done;
    }

    /** Complete, then create every output in the same transaction; the namespace is not inherited here. */
    method CompleteAndOut(id: string, agentId: string, token: string, result: string, outputs: seq<(string, Agent)>, now: int)
      returns (verdict: LP.Verdict)
      requires Valid() && LP.FreshOutputs(State(), outputs)
      modifies this
      ensures Valid()
      ensures LP.Result(State(), verdict) == LP.CompleteAndOut(old(State()), id, agentId, token, result, outputs, false, now)
    {
      if agentId == "" { return LP.AgentRequired; }
      if token == "" { return LP.TokenRequired; }
      if id !in rows || !LP.Live(rows[id], now) { return LP.NotFound; }
      var t := rows[id];
      if t.status == Completed {
        return if LP.CompletionTokenMatches(t, token) then LP.Replayed else LP.StaleToken;
      }
      if t.status != InProgress { return LP.InvalidStatus; }
      if t.owner != agentId { return LP.OwnedByOther; }
      if t.leaseToken != token { return LP.TokenMismatch; }
      CompleteKeeps(State(), id, agentId, token, result, now);
      t := Finish(t, agentId, token, result, now);
      Store(t, LP.CompletedEvent, agentId);
      CreateEachKeeps(State(), outputs, t, false, agentId, now);
      CreateOutputs(outputs, t, agentId, now);
      return LP.Done;
    }

    method CreateOutputs(outputs: seq<(string, Agent)>, parent: Agent, agentId: string, now: int)
      requires LP.FreshOutputs(State(), outputs)
      modifies this`rows, this`log
      ensures State() == LP.CreateEach(old(State()), outputs, parent, false, agentId, now)
    {
      ghost var target := LP.CreateEach(State(), outputs, parent, false, agentId, now);
      for i := 0 to |outputs|
        invariant LP.CreateEach(State(), outputs[i..], parent, false, agentId, now) == target
      {
        assert outputs[i..][1..] == outputs[i + 1..];
        var out := outputs[i].1.(id := outputs[i].0, updatedAt := now);
        if out.version == 0 { out := out.(version := 1); }
        if out.traceId == "" { out := out.(traceId := parent.traceId); }
        if out.parentId == "" { out := out.(parentId := parent.id); }
        Store(out, LP.CreatedEvent, agentId);
      }
    }

    method Release(id: string, agentId: string, token: string, now: int) returns (verdict: LP.Verdict)
      requires Valid()
      modifies this
      ensures Valid()
      ensures LP.Result(State(), verdict) == LP.Release(old(State()), id, agentId, token, now)
    {
      NextKeeps(State(), LP.ReleaseOp(id, agentId, token, now));
      if agentId == "" { return LP.AgentRequired; }
      if token == "" { return LP.TokenRequired; }
      if id !in rows || !LP.Live(rows[id], now) { return LP.NotFound; }
      var t := rows[id];
      if t.status != InProgress { return LP.InvalidStatus; }
      if t.owner != agentId { return LP.OwnedByOther; }
      if t.leaseToken != token { return LP.TokenMismatch; }
      ReleasedOk(t, now);
      t := Reset(t, now);
      Store(t, LP.ReleasedEvent, agentId);
      return LP.Done;
    }

    method Update(id: string, payload: map<string, string>, tags: Option<seq<string>>, metadata: map<string, string>,
                  agentId: string, now: int) returns (verdict: LP.Verdict)
      requires Valid()
      modifies this
      ensures Valid()
      ensures LP.Result(State(), verdict) == LP.Next(old(State()), LP.UpdateOp(id, payload, tags, metadata, agentId, now))
    {
      hide LogOk, TokensOk, RowOk;
      NextKeeps(State(), LP.UpdateOp(id, payload, tags, metadata, agentId, now));
      if id !in rows || !LP.Live(rows[id], now) { return LP.NotFound; }
      var t := rows[id];
      t := t.(payload := t.payload + payload, metadata := t.metadata + metadata);
      if tags.Some? { t := t.(tags := tags.value); }
      t := t.(updatedAt := now, version := t.version + 1);
      Store(t, LP.UpdatedEvent, agentId);
      return LP.Done;
    }

    /** One row of a reaper pass. */
    method ResetRow(id: string, now: int)
      requires LP.Overdue(State(), id, now) && rows[id].id == id
      modifies this`rows, this`log
      ensures State() == LP.Write(old(State()), LP.Released(old(rows)[id], now), LP.ReleasedEvent, "reaper")
    {
      rows := rows[id := LP.Released(rows[id], now)];
      log := log + [LP.Event(id, LP.ReleasedEvent, rows[id].version, "reaper")];
    }

    /** Select every overdue lease, then reset the rows one by one. */
    method Reap(now: int) returns (ids: seq<string>)
      requires Valid()
      modifies this
      ensures Valid()
      ensures Enumerates(ids, set id | id in old(rows) && LP.Overdue(old(State()), id, now))
      ensures State() == LP.ReleaseEach(old(State()), ids, now)
    {
      hide Inv, LP.ReleaseEach, LP.Overdue;
      ids := Enumerate(set id | id in rows && OverdueRow(rows[id], now));
      OverdueRows(State(), ids, now);
      ReleaseEachKeeps(State(), ids, now);
      ResetAll(ids, now);
    }

    method ResetAll(ids: seq<string>, now: int)
      requires RowsOk(State()) && NoDuplicates(ids) && forall j | 0 <= j < |ids| :: LP.Overdue(State(), ids[j], now)
      modifies this`rows, this`log
      ensures State() == LP.ReleaseEach(old(State()), ids, now)
    {
      hide LP.ReleaseEach, RowOk, LP.Released;
      ghost var target := LP.ReleaseEach(State(), ids, now);
      assert ids[0..] == ids;
      for i := 0 to |ids|
        invariant LP.ReleaseEach(State(), ids[i..], now) == target
        invariant RowsOk(State())
        invariant forall j | i <= j < |ids| :: LP.Overdue(State(), ids[j], now)
      {
        ReapStep(State(), ids, i, now);
        ReleasedOk(rows[ids[i]], now);
        ReleasedId(rows[ids[i]], now);
        ResetRow(ids[i], now);
      }
      assert ids[|ids|..] == [];
      ReapNone(State(), now);
    }
  }

  predicate OverdueRow(a: Agent, now: int) {
    a.status == InProgress && a.leaseUntil.Some? && a.leaseUntil.value < now
  }

  lemma OverdueRows(s: LP.Store, ids: seq<string>, now: int)
    requires Inv(s) && Enumerates(ids, set id | id in s.rows && OverdueRow(s.rows[id], now))
    ensures RowsOk(s) && forall j | 0 <= j < |ids| :: LP.Overdue(s, ids[j], now)
    ensures (set id | id in s.rows && OverdueRow(s.rows[id], now)) == set id | id in s.rows && LP.Overdue(s, id, now)
  {
    forall j | 0 <= j < |ids| ensures LP.Overdue(s, ids[j], now) {
      assert ids[j] in ids;
    }
  }

  lemma ReleasedId(a: Agent, now: int)
    ensures LP.Released(a, now).id == a.id
  {
  }

  lemma ReapNone(s: LP.Store, now: int)
    ensures LP.ReleaseEach(s, [], now) == s
  {
  }

  lemma ReapStep(s: LP.Store, ids: seq<string>, i: nat, now: int)
    requires i < |ids| && LP.Overdue(s, ids[i], now)
    ensures LP.ReleaseEach(s, ids[i..], now)
         == LP.ReleaseEach(LP.Write(s, LP.Released(s.rows[ids[i]], now), LP.ReleasedEvent, "reaper"), ids[i + 1..], now)
  {
    assert ids[i..][1..] == ids[i + 1..];
  }

  /** The completed form of a row, field by field. */
  method Finish(row: Agent, agentId: string, token: string, result: string, now: int) returns (t: Agent)
    ensures t == LP.CompletedBy(row, agentId, token, result, now)
  {
    t := row.(payload := row.payload["result" := result]);
    if agentId != "" { t := t.(metadata := t.metadata[COMPLETED_BY := agentId]); }
    if token != "" { t := t.(metadata := t.metadata[COMPLETED_TOKEN := token]); }
    t := t.(metadata := t.metadata[COMPLETED_AT := FormatInt(now)]);
    t := t.(status := Completed, owner := "", ownerTime := None, leaseToken := "", leaseUntil := None, updatedAt := now);
    t := t.(version := t.version + 1);
  }

  method Reset(row: Agent, now: int) returns (t: Agent)
    ensures t == LP.Released(row, now)
  {
    t := row.(status := New, owner := "", ownerTime := None, leaseToken := "", leaseUntil := None, updatedAt := now);
    t := t.(version := t.version + 1);
  }

  /** Neither backend ever reaches the fall-through after its conflict checks. */
  lemma NeverRejected(s: LP.Store, id: string, agentId: string, token: string, result: string, default: int, now: int)
    ensures LP.Complete(s, id, agentId, token, result, now).verdict != LP.Rejected
    ensures LP.Release(s, id, agentId, token, now).verdict != LP.Rejected
    ensures LP.Renew(s, id, agentId, token, default, now).verdict != LP.Rejected
  {
  }

  /** When the two backends store the same output: its namespace is named, or not needed, or repeated in the metadata. */
  lemma InheritanceAgrees(draft: Agent, parent: Agent, id: string, now: int)
    ensures LP.Submitted(LP.Inherited(draft, parent, true), id, now) == LP.Submitted(LP.Inherited(draft, parent, false), id, now)
       <==> draft.namespaceId != "" || parent.namespaceId == "" || MetaValue(draft, NAMESPACE) == parent.namespaceId
  {
    var a := LP.Inherited(draft, parent, true).(id := id, updatedAt := now, version := 1);
    var b := LP.Inherited(draft, parent, false).(id := id, updatedAt := now, version := 1);
    if draft.namespaceId == "" && parent.namespaceId != "" && MetaValue(draft, NAMESPACE) == parent.namespaceId {
      assert a.metadata[NAMESPACE := parent.namespaceId] == b.metadata;
    }
  }

  /** An output that names no namespace: Postgres files it under its parent's, SQLite under none. */
  lemma InheritanceDiffers()
    ensures var draft := Agent("", "task", New, map[], [], "", "", "", "", 0, 0, 0, None, "", None, 0, map[]);
            var parent := draft.(id := "p", namespaceId := "team", metadata := map[NAMESPACE := "team"], version := 1);
            && LP.Submitted(LP.Inherited(draft, parent, true), "c", 1).namespaceId == "team"
            && LP.Submitted(LP.Inherited(draft, parent, false), "c", 1).namespaceId == ""
  {
  }

  /** Then completing with outputs is the same step in both. */
  lemma {:induction false} OutputsAgree(s: LP.Store, outputs: seq<(string, Agent)>, parent: Agent, agentId: string, now: int)
    requires forall i | 0 <= i < |outputs| ::
      || outputs[i].1.namespaceId != "" || parent.namespaceId == ""
      || MetaValue(outputs[i].1, NAMESPACE) == parent.namespaceId
    ensures LP.CreateEach(s, outputs, parent, true, agentId, now) == LP.CreateEach(s, outputs, parent, false, agentId, now)
    decreases |outputs|
  {
    if outputs != [] {
      InheritanceAgrees(outputs[0].1, parent, outputs[0].0, now);
      var output := LP.Submitted(LP.Inherited(outputs[0].1, parent, true), outputs[0].0, now);
      OutputsAgree(LP.Write(s, output, LP.CreatedEvent, agentId), outputs[1..], parent, agentId, now);
    }
  }
}

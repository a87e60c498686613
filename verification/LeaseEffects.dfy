/**
 * What each step of the lease protocol does to a row, field by field, and who may take it. The laws
 * speak of fields alone, so they hold the steps to what the API promises.
 */
module LeaseEffects {
  import opened Text
  import opened Agents
  import opened LeaseProtocol
  import opened LeaseSafety
  import opened LeaseFencing
  import opened LeaseRenewal

  /** No other row is touched. */
  ghost predicate OnlyRow(s: Store, t: Store, id: string) {
    && id in s.rows && t.rows.Keys == s.rows.Keys
    && forall other | other in s.rows && other != id :: t.rows[other] == s.rows[other]
  }

  predicate Unexpired(a: Agent, now: int) {
    a.ttl == 0 || now < a.createdAt + a.ttl
  }

  /** The lease a client must hold to end or extend it. */
  predicate HoldsLease(s: Store, id: string, agentId: string, token: string, now: int) {
    && agentId != "" && token != "" && id in s.rows && Unexpired(s.rows[id], now)
    && s.rows[id].status == InProgress && s.rows[id].owner == agentId && s.rows[id].leaseToken == token
  }

  predicate IsLeaseOp(op: Op) {
    op.CompleteOp? || op.CompleteAndOutOp? || op.ReleaseOp? || op.RenewOp?
  }

  /**
   * A complete, complete-and-out, release or renew is granted exactly to the holder of the lease.
   * Everybody else changes nothing and is told the first thing that is wrong.
   */
  lemma GrantedToHolderOnly(s: Store, op: Op)
    requires IsLeaseOp(op)
    ensures var r, completes := Next(s, op), op.CompleteOp? || op.CompleteAndOutOp?;
            && (r.verdict == Done <==> HoldsLease(s, op.id, op.agentId, op.token, op.now))
            && (r.verdict != Done ==> r.store == s)
            && (op.agentId == "" ==> r.verdict == AgentRequired)
            && (op.agentId != "" && op.token == "" ==> r.verdict == TokenRequired)
            && (op.agentId != "" && op.token != "" ==>
                  if op.id !in s.rows || !Unexpired(s.rows[op.id], op.now) then r.verdict == NotFound
                  else
                    var a := s.rows[op.id];
                    if completes && a.status == Completed then
                      r.verdict == if Has(a.metadata, COMPLETED_TOKEN, op.token) then Replayed else StaleToken
                    else if a.status != InProgress then r.verdict == InvalidStatus
                    else if a.owner != op.agentId then r.verdict == OwnedByOther
                    else if a.leaseToken != op.token then r.verdict == TokenMismatch
                    else r.verdict == Done)
  {
    hide CreateEach;
  }

  // ----- Completion -----

  /** A completed row: the result and the winner are on record, the lease is gone, all else is as it was. */
  ghost predicate IsCompletion(a: Agent, b: Agent, agentId: string, token: string, result: string, now: int) {
    && SameWork(a, b) && b.status == Completed && NoLease(b) && b.version == a.version + 1 && b.updatedAt == now
    && Has(b.payload, "result", result) && SameExcept(a.payload, b.payload, {"result"})
    && Has(b.metadata, COMPLETED_BY, agentId) && Has(b.metadata, COMPLETED_TOKEN, token)
    && Has(b.metadata, COMPLETED_AT, FormatInt(now))
    && SameExcept(a.metadata, b.metadata, {COMPLETED_BY, COMPLETED_TOKEN, COMPLETED_AT})
  }

  lemma KeysDiffer()
    ensures COMPLETED_BY != COMPLETED_TOKEN && COMPLETED_BY != COMPLETED_AT && COMPLETED_TOKEN != COMPLETED_AT
  {
    assert |COMPLETED_BY| == 13 && |COMPLETED_TOKEN| == 19 && |COMPLETED_AT| == 13;
    assert COMPLETED_BY[11] == 'b' && COMPLETED_AT[11] == 'a';
  }

  lemma CompletedByIs(a: Agent, agentId: string, token: string, result: string, now: int)
    requires agentId != "" && token != ""
    ensures IsCompletion(a, CompletedBy(a, agentId, token, result, now), agentId, token, result, now)
  {
    KeysDiffer();
  }

  /** Both ways of completing leave the row completed as the API promises. */
  lemma CompletionEffect(s: Store, op: Op, id: string, token: string)
    requires Inv(s) && Legal(s, op) && Wins(s, op, id, token)
    ensures var t := Next(s, op).store;
            && id in s.rows && id in t.rows && IsCompletion(s.rows[id], t.rows[id], op.agentId, token, op.result, op.now)
            && (forall other | other in s.rows && other != id :: other in t.rows && t.rows[other] == s.rows[other])
            && |t.log| > |s.log| && t.log[|s.log|] == Event(id, CompletedEvent, s.rows[id].version + 1, op.agentId)
            && (op.CompleteOp? ==> t.rows.Keys == s.rows.Keys && |t.log| == |s.log| + 1)
  {
    hide LogOk, TokensOk, RowOk, CompletedBy, IsCompletion;
    CompletedByIs(s.rows[id], op.agentId, token, op.result, op.now);
    CompleteKeeps(s, id, op.agentId, token, op.result, op.now);
    CompletedId(s.rows[id], op.agentId, token, op.result, op.now);
    if op.CompleteAndOutOp? {
      var done := CompletedBy(s.rows[id], op.agentId, token, op.result, op.now);
      var mid := Write(s, done, CompletedEvent, op.agentId);
      CompleteAndOutRow(s, id, op.agentId, token, op.result, op.outputs, op.now);
      CreateEachLog(mid, op.outputs, done, op.agentId, op.now);
      forall other | other in s.rows && other != id
        ensures other in Next(s, op).store.rows && Next(s, op).store.rows[other] == s.rows[other]
      {
        CreateEachRows(mid, op.outputs, done, true, op.agentId, op.now, other);
      }
    }
  }

  lemma CompletedId(a: Agent, agentId: string, token: string, result: string, now: int)
    ensures CompletedBy(a, agentId, token, result, now).id == a.id
         && CompletedBy(a, agentId, token, result, now).version == a.version + 1
  {
  }

  lemma {:induction false} CreateEachLog(s: Store, outputs: seq<(string, Agent)>, parent: Agent, agentId: string, now: int)
    ensures s.log <= CreateEach(s, outputs, parent, true, agentId, now).log
    decreases |outputs|
  {
    if outputs != [] {
      var (id, draft) := outputs[0];
      CreateEachLog(Write(s, Submitted(Inherited(draft, parent, true), id, now), CreatedEvent, agentId),
                    outputs[1..], parent, agentId, now);
    }
  }

  predicate LeavesResult(op: Op, id: string) {
    op.UpdateOp? && op.id == id ==> "result" !in op.payload
  }

  ghost predicate ResultIs(s: Store, id: string, result: string) {
    id in s.rows && s.rows[id].status == Completed && Has(s.rows[id].payload, "result", result)
  }

  lemma StepKeepsResult(s: Store, op: Op, id: string, result: string)
    requires Inv(s) && Legal(s, op) && ResultIs(s, id, result) && LeavesResult(op, id)
    ensures ResultIs(Next(s, op).store, id, result)
  {
    hide LogOk, TokensOk, RowOk, Legal;
    NextEvolves(s, op);
  }

  /** Over any run the recorded result stays the winner's until an update writes that entry. */
  lemma {:induction false} ResultStays(s: Store, ops: seq<Op>, id: string, result: string)
    requires Inv(s) && LegalRun(s, ops) && ResultIs(s, id, result)
    requires forall i | 0 <= i < |ops| :: LeavesResult(ops[i], id)
    ensures ResultIs(Run(s, ops), id, result)
    decreases |ops|
  {
    hide Inv, Legal, Next, ResultIs, LeavesResult;
    if ops != [] {
      StepKeepsResult(s, ops[0], id, result);
      NextKeeps(s, ops[0]);
      ResultStays(Next(s, ops[0]).store, ops[1..], id, result);
    }
  }

  lemma WinnersResultStays(s: Store, op: Op, id: string, token: string, ops: seq<Op>)
    requires Inv(s) && Legal(s, op) && Wins(s, op, id, token)
    requires LegalRun(Next(s, op).store, ops) && forall i | 0 <= i < |ops| :: LeavesResult(ops[i], id)
    ensures ResultIs(Run(Next(s, op).store, ops), id, op.result)
  {
    hide Inv, Legal, LegalRun, Next, Run, LeavesResult;
    CompletionEffect(s, op, id, token);
    NextKeeps(s, op);
    ResultStays(Next(s, op).store, ops, id, op.result);
  }

  /** An output starts as the draft says, with what it leaves open taken from the completed agent. */
  lemma OutputEffect(s: Store, op: Op, id: string, token: string, k: nat)
    requires Inv(s) && Legal(s, op) && Wins(s, op, id, token) && op.CompleteAndOutOp? && k < |op.outputs|
    ensures id in s.rows
    ensures var t, (outId, draft), parent := Next(s, op).store, op.outputs[k], s.rows[id];
            && outId !in s.rows && outId in t.rows
            && var row := t.rows[outId];
               && row.id == outId && row.status == New && NoLease(row) && row.version == 1
               && row.kind == draft.kind && row.payload == draft.payload && row.tags == draft.tags && row.ttl == draft.ttl
               && row.createdAt == draft.createdAt && row.updatedAt == op.now
               && row.traceId == (if draft.traceId == "" then parent.traceId else draft.traceId)
               && row.parentId == (if draft.parentId == "" then id else draft.parentId)
               && (draft.namespaceId != "" ==> row.namespaceId == draft.namespaceId)
               && (draft.namespaceId == "" && parent.namespaceId != "" ==> row.namespaceId == parent.namespaceId)
               && SameExcept(draft.metadata, row.metadata, {NAMESPACE})
  {
    hide LogOk, TokensOk, RowOk;
    CompleteAndOutAtomic(s, id, op.agentId, token, op.result, op.outputs, op.now);
    assert op.outputs[k] == op.outputs[k];
  }

  // ----- Release, renew, reap -----

  ghost predicate IsReset(a: Agent, b: Agent, now: int) {
    && SameWork(a, b) && b.status == New && NoLease(b) && b.version == a.version + 1 && b.updatedAt == now
    && b.payload == a.payload && b.metadata == a.metadata
  }

  /** A granted release puts the agent back as it was before it was taken. */
  lemma ReleaseEffect(s: Store, id: string, agentId: string, token: string, now: int)
    requires Inv(s) && HoldsLease(s, id, agentId, token, now)
    ensures var t := Next(s, ReleaseOp(id, agentId, token, now)).store;
            && OnlyRow(s, t, id) && IsReset(s.rows[id], t.rows[id], now) && t.issued == s.issued
            && t.log == s.log + [Event(id, ReleasedEvent, s.rows[id].version + 1, agentId)]
  {
    hide LogOk, TokensOk, RowOk;
  }

  /** A granted renewal moves the lease's expiry and nothing a reader of the event log would see. */
  lemma RenewEffect(s: Store, id: string, agentId: string, token: string, default: int, now: int)
    requires Inv(s) && HoldsLease(s, id, agentId, token, now)
    ensures var t := Next(s, RenewOp(id, agentId, token, default, now)).store;
            && OnlyRow(s, t, id) && t.log == s.log && t.issued == s.issued
            && var a, b := s.rows[id], t.rows[id];
               && SameWork(a, b) && b.status == InProgress && b.owner == agentId && b.leaseToken == token
               && b.version == a.version && b.payload == a.payload && b.metadata == a.metadata
               && b.ownerTime == Some(now) && b.updatedAt == now && b.leaseUntil.Some?
               && IsLeaseLength(a.metadata, default, b.leaseUntil.value - now)
  {
    hide LogOk, TokensOk, RowOk;
    LengthOfLease(s.rows[id], default);
  }

  /** How long a lease lasts: lease_sec if it is a positive numeral, else lease_ms if it is one, else the default. */
  ghost predicate IsLeaseLength(m: map<string, string>, default: int, length: int) {
    && (forall n: nat | n > 0 && Has(m, LEASE_SEC, Decimal(n)) :: length == 1000 * n)
    && (forall n: nat | n > 0 && Unusable(m, LEASE_SEC) && Has(m, LEASE_MS, Decimal(n)) :: length == n)
    && (Unusable(m, LEASE_SEC) && Unusable(m, LEASE_MS) ==> length == default)
  }

  /** The entry is missing, zero, or not a numeral. */
  predicate Unusable(m: map<string, string>, key: string) {
    key !in m || m[key] == "0" || m[key] == "" || exists i :: 0 <= i < |m[key]| && !('0' <= m[key][i] <= '9')
  }

  lemma LengthOfLease(a: Agent, default: int)
    ensures IsLeaseLength(a.metadata, default, LeaseMs(a, default))
  {
    forall n: nat ensures NatValue(Decimal(n)) == n {
      DecimalRoundTrip(n);
    }
    assert Decimal(0) == "0";
  }

  /** The reaper resets exactly the listed rows whose lease ran out before `now`. */
  lemma ReapEffect(s: Store, ids: seq<string>, now: int, id: string)
    requires Inv(s) && id in s.rows
    ensures var t, a := Next(s, ReapOp(ids, now)).store, s.rows[id];
            && id in t.rows
            && if id in ids && a.status == InProgress && a.leaseUntil.Some? && a.leaseUntil.value < now
               then IsReset(a, t.rows[id], now)
               else t.rows[id] == a
  {
    hide LogOk, TokensOk;
    ReapExact(s, ids, now, id);
  }

  // ----- Take, submit, update -----

  predicate Waits(s: Store, id: string, now: int) {
    id in s.rows && s.rows[id].status == New && Unexpired(s.rows[id], now)
  }

  ghost predicate IsClaim(a: Agent, b: Agent, agentId: string, token: string, default: int, now: int) {
    && SameWork(a, b) && b.status == InProgress && b.owner == agentId && b.leaseToken == token
    && b.ownerTime == Some(now) && b.updatedAt == now && b.version == a.version + 1
    && b.payload == a.payload && b.metadata == a.metadata
    && b.leaseUntil.Some? && IsLeaseLength(a.metadata, default, b.leaseUntil.value - now)
  }

  /** A take claims the first candidate that waits, and nothing if none does. */
  lemma {:induction false} TakeEffect(s: Store, candidates: seq<string>, agentId: string, token: string, default: int, now: int)
    requires RowsOk(s)
    ensures var r := Next(s, TakeOp(candidates, agentId, token, default, now));
            if forall i | 0 <= i < |candidates| :: !Waits(s, candidates[i], now) then r == Result(s, Nothing)
            else
              && r.verdict == Done && r.store.issued == s.issued + {token}
              && exists i :: 0 <= i < |candidates| && Claims(s, r.store, candidates, i, agentId, token, default, now)
    decreases |candidates|
  {
    hide LeaseMs, RowOk;
    if candidates != [] {
      var id, rest := candidates[0], candidates[1..];
      if Claimable(s, id, now) {
        FirstClaims(s, candidates, agentId, token, default, now);
      } else {
        hide Claims;
        TakeEffect(s, rest, agentId, token, default, now);
        assert !Waits(s, id, now);
        var t := Next(s, TakeOp(rest, agentId, token, default, now)).store;
        if k :| 0 <= k < |candidates| && Waits(s, candidates[k], now) {
          assert Waits(s, rest[k - 1], now);
          var i :| 0 <= i < |rest| && Claims(s, t, rest, i, agentId, token, default, now);
          LaterClaims(s, t, candidates, i, agentId, token, default, now);
        } else {
          forall i | 0 <= i < |rest| ensures !Waits(s, rest[i], now) {
            assert rest[i] == candidates[i + 1];
          }
        }
      }
    }
  }

  lemma FirstClaims(s: Store, candidates: seq<string>, agentId: string, token: string, default: int, now: int)
    requires RowsOk(s) && candidates != [] && Claimable(s, candidates[0], now)
    ensures var t := Claim(s, candidates[0], agentId, token, default, now);
            Claims(s, t, candidates, 0, agentId, token, default, now) && t.issued == s.issued + {token}
  {
    hide LeaseMs, RowOk, IsLeaseLength;
    LengthOfLease(s.rows[candidates[0]], default);
  }

  lemma LaterClaims(s: Store, t: Store, candidates: seq<string>, i: nat, agentId: string, token: string, default: int, now: int)
    requires candidates != [] && !Waits(s, candidates[0], now) && i < |candidates[1..]|
    requires Claims(s, t, candidates[1..], i, agentId, token, default, now)
    ensures Claims(s, t, candidates, i + 1, agentId, token, default, now)
  {
    hide IsClaim, OnlyRow, Waits;
    forall j | 0 <= j < i + 1 ensures !Waits(s, candidates[j], now) {
      assert j > 0 ==> candidates[j] == candidates[1..][j - 1];
    }
  }

  ghost predicate Claims(s: Store, t: Store, candidates: seq<string>, i: nat, agentId: string, token: string, default: int, now: int)
    requires i < |candidates|
  {
    var id := candidates[i];
    && Waits(s, id, now) && (forall j | 0 <= j < i :: !Waits(s, candidates[j], now))
    && OnlyRow(s, t, id) && IsClaim(s.rows[id], t.rows[id], agentId, token, default, now)
    && t.log == s.log + [Event(id, ClaimedEvent, s.rows[id].version + 1, agentId)]
  }

  /** The token a batch has for an agent: that of its first mention. */
  function FirstMention(claims: seq<(string, string)>, id: string): Option<string> {
    if claims == [] then None
    else if claims[0].0 == id then Some(claims[0].1)
    else FirstMention(claims[1..], id)
  }

  ghost predicate Keyed(s: Store) {
    forall id | id in s.rows :: s.rows[id].id == id
  }

  lemma {:induction false} BatchRow(s: Store, claims: seq<(string, string)>, agentId: string, default: int, now: int, id: string)
    requires Keyed(s) && id in s.rows
    ensures var t, token := TakeEach(s, claims, agentId, default, now), FirstMention(claims, id);
            && id in t.rows
            && t.rows[id] == if Waits(s, id, now) && token.Some? then Claimed(s.rows[id], agentId, token.value, default, now)
                             else s.rows[id]
    decreases |claims|
  {
    hide LeaseMs;
    if claims != [] {
      var (first, token) := claims[0];
      BatchRow(if Claimable(s, first, now) then Claim(s, first, agentId, token, default, now) else s,
               claims[1..], agentId, default, now, id);
    }
  }

  /** A batch claims each listed row that waits, once, under the token of its first mention. */
  lemma BatchTakeEffect(s: Store, claims: seq<(string, string)>, agentId: string, default: int, now: int, id: string)
    requires Keyed(s) && id in s.rows
    ensures var t, token := Next(s, BatchTakeOp(claims, agentId, default, now)).store, FirstMention(claims, id);
            && id in t.rows
            && if Waits(s, id, now) && token.Some? then IsClaim(s.rows[id], t.rows[id], agentId, token.value, default, now)
               else t.rows[id] == s.rows[id]
  {
    hide LeaseMs, TakeEach, IsLeaseLength;
    BatchRow(s, claims, agentId, default, now, id);
    LengthOfLease(s.rows[id], default);
  }

  /** Namespace column and metadata entry say the same, the column deciding when it is set. */
  predicate NamespaceInStep(a: Agent, column: string, entry: string) {
    if column != "" then a.namespaceId == column && Has(a.metadata, NAMESPACE, column)
    else a.namespaceId == entry && MetaValue(a, NAMESPACE) == entry
  }

  /** A submit files the draft under its id as version 1. */
  lemma SubmitEffect(s: Store, id: string, draft: Agent, now: int)
    requires Legal(s, OutOp(id, draft, now))
    ensures var t := Next(s, OutOp(id, draft, now)).store;
            && t.rows.Keys == s.rows.Keys + {id} && (forall other | other in s.rows :: t.rows[other] == s.rows[other])
            && t.log == s.log + [Event(id, CreatedEvent, 1, MetaValue(draft, AGENT_ID))]
            && var row := t.rows[id];
               && SameWork(draft.(id := id, namespaceId := row.namespaceId), row)
               && row.status == New && NoLease(row) && row.version == 1 && row.updatedAt == now && row.payload == draft.payload
               && SameExcept(draft.metadata, row.metadata, {NAMESPACE})
               && NamespaceInStep(row, draft.namespaceId, MetaValue(draft, NAMESPACE))
  {
  }

  /** Entries the update names take its values, all others keep theirs; `skip` is settled elsewhere. */
  ghost predicate Merged(before: map<string, string>, update: map<string, string>, after: map<string, string>, skip: set<string>) {
    && (forall k | k in update && k !in skip :: Has(after, k, update[k]))
    && SameExcept(before, after, update.Keys + skip)
  }

  ghost predicate IsUpdate(a: Agent, b: Agent, payload: map<string, string>, tags: Option<seq<string>>,
                           metadata: map<string, string>, now: int)
  {
    && SameWork(a.(tags := b.tags, namespaceId := b.namespaceId), b)
    && b.tags == (if tags.Some? then tags.value else a.tags)
    && b.status == a.status && b.owner == a.owner && b.ownerTime == a.ownerTime
    && b.leaseToken == a.leaseToken && b.leaseUntil == a.leaseUntil && b.version == a.version + 1 && b.updatedAt == now
    && Merged(a.payload, payload, b.payload, {}) && Merged(a.metadata, metadata, b.metadata, {NAMESPACE})
    && NamespaceInStep(b, a.namespaceId, if NAMESPACE in metadata then metadata[NAMESPACE] else MetaValue(a, NAMESPACE))
  }

  lemma PatchedIs(a: Agent, payload: map<string, string>, tags: Option<seq<string>>, metadata: map<string, string>, now: int)
    ensures var b := Patched(a, payload, tags, metadata, now);
            IsUpdate(a, b, payload, tags, metadata, now) && b.id == a.id && b.version == a.version + 1
  {
  }

  /** An update merges payload and metadata, replaces the tags if it brings any, and leaves the lease alone. */
  lemma UpdateEffect(s: Store, id: string, payload: map<string, string>, tags: Option<seq<string>>,
                     metadata: map<string, string>, agentId: string, now: int)
    requires Keyed(s)
    ensures var r := Next(s, UpdateOp(id, payload, tags, metadata, agentId, now));
            if id !in s.rows || !Unexpired(s.rows[id], now) then r == Result(s, NotFound)
            else
              && r.verdict == Done && OnlyRow(s, r.store, id) && r.store.issued == s.issued
              && r.store.log == s.log + [Event(id, UpdatedEvent, s.rows[id].version + 1, agentId)]
              && IsUpdate(s.rows[id], r.store.rows[id], payload, tags, metadata, now)
  {
    hide Patched, IsUpdate;
    if id in s.rows {
      PatchedIs(s.rows[id], payload, tags, metadata, now);
    }
  }
}

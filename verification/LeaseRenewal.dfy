/** The reaper and the holder: exactly the overdue leases end, and a punctual holder keeps its lease. */
module LeaseRenewal {
  import opened Text
  import opened Agents
  import opened LeaseProtocol
  import opened LeaseSafety
  import opened LeaseFencing

  /** One reaper pass: every listed overdue lease is reset once, every other row is untouched. */
  lemma {:induction false} ReapExact(s: Store, ids: seq<string>, now: int, id: string)
    requires RowsOk(s) && id in s.rows
    ensures var t := ReleaseEach(s, ids, now);
            id in t.rows && t.rows[id] == if id in ids && Overdue(s, id, now) then Released(s.rows[id], now) else s.rows[id]
    decreases |ids|
  {
    if ids != [] {
      if Overdue(s, ids[0], now) {
        ReleasedOk(s.rows[ids[0]], now);
        ReapExact(Write(s, Released(s.rows[ids[0]], now), ReleasedEvent, "reaper"), ids[1..], now, id);
      } else {
        ReapExact(s, ids[1..], now, id);
      }
    }
  }

  lemma {:induction false} TakeFirstSpares(s: Store, candidates: seq<string>, agentId: string, token: string, default: int, now: int, id: string)
    requires RowsOk(s) && id in s.rows && s.rows[id].status == InProgress
    ensures var t := TakeFirst(s, candidates, agentId, token, default, now).store; id in t.rows && t.rows[id] == s.rows[id]
  {
    if candidates != [] && !Claimable(s, candidates[0], now) {
      TakeFirstSpares(s, candidates[1..], agentId, token, default, now, id);
    }
  }

  lemma {:induction false} TakeEachSpares(s: Store, claims: seq<(string, string)>, agentId: string, default: int, now: int, id: string)
    requires Inv(s) && FreshClaims(s, claims) && id in s.rows && s.rows[id].status == InProgress
    ensures var t := TakeEach(s, claims, agentId, default, now); id in t.rows && t.rows[id] == s.rows[id]
    decreases |claims|
  {
    if claims != [] {
      if Claimable(s, claims[0].0, now) {
        ClaimKeeps(s, claims[0].0, agentId, claims[0].1, default, now);
        TakeEachSpares(Claim(s, claims[0].0, agentId, claims[0].1, default, now), claims[1..], agentId, default, now, id);
      } else {
        TakeEachSpares(s, claims[1..], agentId, default, now, id);
      }
    }
  }

  datatype Holder = Holder(id: string, agentId: string, token: string)

  /** The holder's lease runs, for at least `lease` after `last`. */
  ghost predicate Secure(s: Store, h: Holder, last: int, lease: int) {
    && h.id in s.rows && s.rows[h.id].status == InProgress
    && s.rows[h.id].owner == h.agentId && s.rows[h.id].leaseToken == h.token
    && s.rows[h.id].leaseUntil.Some? && s.rows[h.id].leaseUntil.value >= last + lease
    && LeaseMs(s.rows[h.id], lease) >= lease
  }

  predicate IsRenewal(op: Op, h: Holder) {
    op.RenewOp? && op.id == h.id && op.agentId == h.agentId && op.token == h.token
  }

  /**
   * What is asked of one step. The holder presents its token only to renew, for no less than `lease`
   * and before the agent's time to live is over; nobody edits the agent's lease length.
   */
  predicate HolderKeepsTo(op: Op, h: Holder, a: Agent, lease: int) {
    && (Presents(op, h.token) ==> IsRenewal(op, h) && op.default >= lease && Live(a, op.now))
    && (op.UpdateOp? && op.id == h.id ==> LEASE_SEC !in op.metadata && LEASE_MS !in op.metadata)
  }

  /** The clock does not run backwards from step to step, nor past the end of the run. */
  predicate InTime(ops: seq<Op>, start: int, end: int) {
    if ops == [] then start <= end else start <= ops[0].now && InTime(ops[1..], ops[0].now, end)
  }

  /** The next renewal, or the end of the run, always comes within `lease` of the last grant. */
  predicate Punctual(ops: seq<Op>, h: Holder, last: int, lease: int, end: int)
    decreases |ops|
  {
    if ops == [] then end <= last + lease
    else if IsRenewal(ops[0], h) then ops[0].now <= last + lease && Punctual(ops[1..], h, ops[0].now, lease, end)
    else Punctual(ops[1..], h, last, lease, end)
  }

  /** So every step, a reaper pass included, happens within `lease` of the last grant. */
  lemma {:induction false} GapsBoundSteps(ops: seq<Op>, h: Holder, start: int, last: int, lease: int, end: int)
    requires InTime(ops, start, end) && Punctual(ops, h, last, lease, end)
    ensures start <= last + lease
  {
    if ops != [] && !IsRenewal(ops[0], h) {
      GapsBoundSteps(ops[1..], h, ops[0].now, last, lease, end);
    }
  }

  /** Time to live never changes, so `Live` may be judged on any earlier version of the row. */
  predicate SameLifetime(a: Agent, b: Agent) {
    a.ttl == b.ttl && a.createdAt == b.createdAt
  }

  lemma PatchKeepsLease(a: Agent, payload: map<string, string>, tags: Option<seq<string>>, metadata: map<string, string>, now: int, lease: int)
    requires LEASE_SEC !in metadata && LEASE_MS !in metadata
    ensures LeaseMs(Patched(a, payload, tags, metadata, now), lease) == LeaseMs(a, lease)
  {
    assert NAMESPACE[0] == 'n' && LEASE_SEC[0] == 'l' && LEASE_MS[0] == 'l';
  }

  lemma CompleteAndOutSpares(s: Store, id: string, agentId: string, token: string, result: string,
                             outputs: seq<(string, Agent)>, now: int, other: string)
    requires Inv(s) && FreshOutputs(s, outputs) && other in s.rows && s.rows[other].leaseToken != token
    ensures var t := CompleteAndOut(s, id, agentId, token, result, outputs, true, now).store;
            other in t.rows && t.rows[other] == s.rows[other]
  {
    hide LogOk, RowOk;
    if Holds(s, id, agentId, token, now) {
      CompleteKeeps(s, id, agentId, token, result, now);
      var done := CompletedBy(s.rows[id], agentId, token, result, now);
      CreateEachRows(Write(s, done, CompletedEvent, agentId), outputs, done, true, agentId, now, other);
    }
  }

  /** The rows a step leaves alone: a running lease whose token it does not present. */
  lemma StepSpares(s: Store, op: Op, h: Holder)
    requires Inv(s) && Legal(s, op) && h.id in s.rows && s.rows[h.id].status == InProgress && s.rows[h.id].leaseToken == h.token
    requires !Presents(op, h.token) && !(op.UpdateOp? && op.id == h.id) && (op.ReapOp? ==> !Overdue(s, h.id, op.now))
    ensures var t := Next(s, op).store; h.id in t.rows && t.rows[h.id] == s.rows[h.id]
  {
    hide LogOk, RowOk, FreshOutputs, FreshClaims, CreateEach, ReleaseEach, CompleteAndOut;
    match op
    case TakeOp(candidates, agentId, token, default, now) => TakeFirstSpares(s, candidates, agentId, token, default, now, h.id);
    case BatchTakeOp(claims, agentId, default, now) => TakeEachSpares(s, claims, agentId, default, now, h.id);
    case CompleteAndOutOp(id, agentId, token, result, outputs, now) =>
      CompleteAndOutSpares(s, id, agentId, token, result, outputs, now, h.id);
    case ReapOp(ids, now) => ReapExact(s, ids, now, h.id);
    case _ =>
  }

  lemma StepSecure(s: Store, op: Op, h: Holder, a: Agent, last: int, lease: int)
    requires Inv(s) && Legal(s, op) && Secure(s, h, last, lease) && SameLifetime(a, s.rows[h.id])
    requires h.agentId != "" && h.token != "" && HolderKeepsTo(op, h, a, lease) && (op.ReapOp? ==> op.now <= last + lease)
    ensures var t := Next(s, op).store;
            Secure(t, h, if IsRenewal(op, h) then op.now else last, lease) && SameLifetime(a, t.rows[h.id])
  {
    if IsRenewal(op, h) {
      assert Holds(s, h.id, h.agentId, h.token, op.now);
    } else if op.UpdateOp? && op.id == h.id {
      PatchKeepsLease(s.rows[h.id], op.payload, op.tags, op.metadata, op.now, lease);
    } else {
      StepSpares(s, op, h);
    }
  }

  ghost predicate StillHolds(s: Store, h: Holder) {
    && h.id in s.rows && s.rows[h.id].status == InProgress
    && s.rows[h.id].owner == h.agentId && s.rows[h.id].leaseToken == h.token
  }

  /**
   * A holder whose renewals come within its lease is never reaped: it holds the lease after every step,
   * whatever everyone else does and whenever the reaper runs.
   */
  lemma {:induction false} PunctualHolderKeepsLease(s: Store, ops: seq<Op>, h: Holder, a: Agent, start: int, last: int,
                                                    lease: int, end: int, n: nat)
    requires Inv(s) && LegalRun(s, ops) && Secure(s, h, last, lease) && SameLifetime(a, s.rows[h.id])
    requires h.agentId != "" && h.token != "" && forall i | 0 <= i < |ops| :: HolderKeepsTo(ops[i], h, a, lease)
    requires InTime(ops, start, end) && Punctual(ops, h, last, lease, end)
    requires n <= |ops|
    ensures StillHolds(Run(s, ops[..n]), h)
    decreases |ops|
  {
    hide Inv, Legal, Next, HolderKeepsTo;
    if n > 0 {
      var last' := if IsRenewal(ops[0], h) then ops[0].now else last;
      GapsBoundSteps(ops[1..], h, ops[0].now, last', lease, end);
      StepSecure(s, ops[0], h, a, last, lease);
      NextKeeps(s, ops[0]);
      assert ops[..n][1..] == ops[1..][..n - 1];
      PunctualHolderKeepsLease(Next(s, ops[0]).store, ops[1..], h, a, ops[0].now, last', lease, end, n - 1);
    }
  }

  /** A take starts such a lease. */
  lemma TakeIsSecure(s: Store, id: string, agentId: string, token: string, default: int, now: int, lease: int)
    requires Inv(s) && Claimable(s, id, now) && token != "" && token !in s.issued
    requires default >= lease && LeaseMs(s.rows[id], lease) >= lease
    ensures Secure(Claim(s, id, agentId, token, default, now), Holder(id, agentId, token), now, lease)
  {
  }
}

/**
 * The strict queue-head take of the Postgres store: one statement that picks the oldest waiting row of a
 * queue with one clause text and claims it only if it also satisfies a second, renumbered one.
 */
module StrictTake {
  import opened Text
  import opened Ordering
  import opened Agents
  import opened WhereText
  import opened WhereBuilder
  import opened LeaseProtocol
  import opened LeaseSafety
  import opened LeaseFencing

  type Rows = map<string, Agent>

  /** ORDER BY created_at, id. */
  function RowKey(rows: Rows, id: string): SortKey {
    SortKey(if id in rows then rows[id].createdAt else 0, id)
  }

  predicate Selected(text: string, args: seq<Arg>, rows: Rows, id: string, now: int) {
    id in rows && Eval(text, args, rows[id], now) == Some(true)
  }

  ghost predicate IsFirst(text: string, args: seq<Arg>, rows: Rows, id: string, now: int) {
    Selected(text, args, rows, id, now) &&
    forall k | k != id && Selected(text, args, rows, k, now) :: Before(RowKey(rows, id), RowKey(rows, k))
  }

  /** SELECT ... WHERE text ORDER BY created_at, id LIMIT 1. */
  method SelectFirst(text: string, args: seq<Arg>, rows: Rows, now: int) returns (id: Option<string>)
    ensures id.Some? ==> IsFirst(text, args, rows, id.value, now)
    ensures id.None? ==> forall k :: !Selected(text, args, rows, k, now)
  {
    var selected := set k | k in rows && Selected(text, args, rows, k, now);
    var ids := Enumerate(selected);
    var key := k => RowKey(rows, k);
    var sorted := StableSort(ids, key);
    SortSorted(ids, key);
    SortMultiset(ids, key);
    EnumeratesPermutation(ids, sorted, selected);
    if sorted == [] {
      forall k ensures !Selected(text, args, rows, k, now) {
        assert k in selected <==> k in sorted;
      }
      return None;
    }
    assert sorted[0] in sorted;
    forall k | k != sorted[0] && Selected(text, args, rows, k, now)
      ensures Before(RowKey(rows, sorted[0]), RowKey(rows, k))
    {
      assert k in sorted;
      var i :| 0 <= i < |sorted| && sorted[i] == k;
      BeforeTotal(key(sorted[0]), key(sorted[i]));
    }
    return Some(sorted[0]);
  }

  // ----- The take -----

  /** The oldest of the rows the head clause selects. */
  ghost predicate HeadOf(rows: Rows, id: string, q: Query, now: int) {
    id in rows && InHead(rows[id], q, now) &&
    forall k | k != id && k in rows && InHead(rows[k], q, now) :: Before(RowKey(rows, id), RowKey(rows, k))
  }

  function TakerOf(q: Query): string {
    if q.agentId != "" then q.agentId else if AGENT_ID in q.metadata then q.metadata[AGENT_ID] else ""
  }

  /** take() in strict mode; `locked` says whether the queue's advisory lock was free. */
  method TakeStrictQueueHead(s: Store, q: Query, locked: bool, token: string, default: int, now: int) returns (r: Result)
    ensures forall id | HeadOf(s.rows, id, q, now) ::
              r == if locked && (q.status.Some? ==> q.status.value == New) && Accepts(s.rows[id], Some(q), true, now)
                   then Result(Claim(s, id, if q.agentId != "" then q.agentId else if AGENT_ID in q.metadata then q.metadata[AGENT_ID] else "",
                                     token, default, now), Done)
                   else Result(s, Nothing)
    ensures (forall id :: !HeadOf(s.rows, id, q, now)) ==> r == Result(s, Nothing)
  {
    hide Eval, Render, Shift, HeadClauses, InHead, Accepts;
    if (q.status.Some? && q.status.value != New) || !locked {
      return Result(s, Nothing);
    }
    var head := HeadClauses(q);
    var headText := Render(head.clauses);
    var matchText, matchArgs, cs := BuildWhere(Some(q), true);
    var shifted := Shift(matchText, |head.args|);
    var more := [Str(StatusName(InProgress)), Str(TakerOf(q)), Str(FormatInt(now)), Str(token), Str(FormatInt(default))];
    var args := head.args + matchArgs + more;
    HeadUnderAll(q, matchArgs, more, now);
    var candidate := SelectHead(headText, args, s.rows, q, now);
    if candidate.None? {
      return Result(s, Nothing);
    }
    var id := candidate.value;
    OneHead(s.rows, id, q, now);
    HeadIsClaimable(s, id, q, now);
    ShiftKeepsMeaning(cs, head.args, matchArgs, more, s.rows[id], now);
    if Eval(shifted, args, s.rows[id], now) != Some(true) {
      return Result(s, Nothing);
    }
    return Result(Claim(s, id, TakerOf(q), token, default, now), Done);
  }

  /** The head clause, evaluated with all the statement's arguments, picks the head. */
  method SelectHead(text: string, args: seq<Arg>, rows: Rows, q: Query, now: int) returns (id: Option<string>)
    requires forall a :: Eval(text, args, a, now) == Some(InHead(a, q, now))
    ensures id.Some? ==> HeadOf(rows, id.value, q, now)
    ensures id.None? ==> forall k :: !HeadOf(rows, k, q, now)
  {
    hide Eval, InHead;
    id := SelectFirst(text, args, rows, now);
    assert forall k | k in rows :: Selected(text, args, rows, k, now) <==> InHead(rows[k], q, now);
  }

  lemma HeadUnderAll(q: Query, args: seq<Arg>, more: seq<Arg>, now: int)
    ensures forall a :: Eval(Render(HeadClauses(q).clauses), HeadClauses(q).args + args + more, a, now) == Some(InHead(a, q, now))
  {
    hide Eval, Render, HeadClauses, InHead, Shift;
    var b := HeadClauses(q);
    assert [] + b.args + (args + more) == b.args + args + more;
    ShiftByZero(b.clauses);
    forall a ensures Eval(Render(b.clauses), b.args + args + more, a, now) == Some(InHead(a, q, now)) {
      HeadClausesHold(q, a, now);
      ShiftKeepsMeaning(b.clauses, [], b.args, args + more, a, now);
    }
  }

  lemma HeadIsClaimable(s: Store, id: string, q: Query, now: int)
    requires HeadOf(s.rows, id, q, now)
    ensures Claimable(s, id, now)
  {
  }

  lemma OneHead(rows: Rows, id: string, q: Query, now: int)
    requires HeadOf(rows, id, q, now)
    ensures forall k :: HeadOf(rows, k, q, now) ==> k == id
  {
    forall k | HeadOf(rows, k, q, now) ensures k == id {
      BeforeTotal(RowKey(rows, id), RowKey(rows, k));
    }
  }

  // ----- What a claim is worth -----

  /** A live waiting row of the queue as the query spells it, in the namespace if one is named. */
  predicate InQueue(a: Agent, q: Query, now: int) {
    Live(a, now) && a.status == New && (q.namespaceId != "" ==> a.namespaceId == q.namespaceId) && QueueValue(a) == RawQueue(q)
  }

  ghost predicate OldestInQueue(rows: Rows, id: string, q: Query, now: int) {
    id in rows && InQueue(rows[id], q, now) &&
    forall k | k != id && k in rows && InQueue(rows[k], q, now) :: Before(RowKey(rows, id), RowKey(rows, k))
  }

  /** Whatever is claimed is the oldest waiting row of the named queue, for every spelling of the queue. */
  lemma ClaimIsOldest(rows: Rows, id: string, q: Query, now: int)
    requires RawQueue(q) != "" && HeadOf(rows, id, q, now) && Accepts(rows[id], Some(q), true, now)
    ensures OldestInQueue(rows, id, q, now)
  {
    assert EntryMatches(rows[id], QUEUE, q.metadata[QUEUE]);
  }

  /** In every store a run can lead to, the oldest waiting row of the queue, when it matches, is what a take claims. */
  ghost predicate NeverMisses(q: Query) {
    forall ops, id, now | LegalRun(EMPTY, ops) && OldestInQueue(Run(EMPTY, ops).rows, id, q, now)
                          && Accepts(Run(EMPTY, ops).rows[id], Some(q), true, now) ::
      HeadOf(Run(EMPTY, ops).rows, id, q, now)
  }

  /** No waiting row can match: it has no owner, and its metadata repeats its namespace. */
  predicate Unmatchable(q: Query) {
    q.owner != "" || (q.namespaceId != "" && NAMESPACE in q.metadata && q.metadata[NAMESPACE] != q.namespaceId)
  }

  lemma UnmatchableMatchesNothing(s: Store, id: string, q: Query, now: int)
    requires Inv(s) && id in s.rows && Unmatchable(q)
    ensures !Accepts(s.rows[id], Some(q), true, now)
  {
    hide LogOk, TokensOk;
    KeysDiffer();
    assert Synced(s.rows[id]) == s.rows[id];
  }

  lemma KeysDiffer()
    ensures NAMESPACE != QUEUE && NAMESPACE != AGENT_ID && QUEUE != AGENT_ID
  {
    assert |NAMESPACE| == 12 && |QUEUE| == 5 && |AGENT_ID| == 8;
  }

  /** A draft that the query accepts once it is stored. */
  function Fitting(q: Query): Agent {
    Agent("", q.kind, New, map[], q.tags, "", q.parentId, q.traceId, q.namespaceId, 0, 1, 1, None, "", None, 0, q.metadata)
  }

  /** An older draft of the same namespace that names no queue. */
  function Other(q: Query): Agent {
    Fitting(q).(createdAt := 0, metadata := map[])
  }

  lemma FittingFits(q: Query)
    requires !Unmatchable(q) && RawQueue(q) != ""
    ensures var a := Submitted(Fitting(q), "b", 1); Accepts(a, Some(q), true, 1) && InQueue(a, q, 1)
  {
    KeysDiffer();
    var a := Submitted(Fitting(q), "b", 1);
    assert QueueValue(a) == RawQueue(q);
    forall k | k in q.metadata ensures EntryMatches(a, k, q.metadata[k]) {
    }
  }

  lemma OtherStandsFirst(q: Query)
    requires RawQueue(q) != ""
    ensures var a := Submitted(Other(q), "a", 0);
            !InQueue(a, q, 1) && (TrimSpace(RawQueue(q)) == "" ==> InHead(a, q, 1))
  {
    KeysDiffer();
    assert QueueValue(Submitted(Other(q), "a", 0)) == "";
  }

  /** Two submits after which the take passes over the row it should claim. */
  lemma PaddedQueueMisses(q: Query)
    requires TrimSpace(RawQueue(q)) != RawQueue(q) && !Unmatchable(q)
    ensures !NeverMisses(q)
  {
    hide Accepts, InQueue, Submitted, RawQueue;
    var first, second := OutOp("a", Other(q), 0), OutOp("b", Fitting(q), 1);
    var fit, other := Submitted(Fitting(q), "b", 1), Submitted(Other(q), "a", 0);
    NonemptyRaw(q);
    SubmittedFields(Other(q), "a", 0);
    SubmittedFields(Fitting(q), "b", 1);
    RunTwo(EMPTY, first, second);
    var rows := Run(EMPTY, [first, second]).rows;
    assert rows == map["a" := other, "b" := fit];
    FittingFits(q);
    OtherStandsFirst(q);
    assert RowKey(rows, "a") == SortKey(0, "a") && RowKey(rows, "b") == SortKey(1, "b");
    assert OldestInQueue(rows, "b", q, 1);
    NotHead(rows, q);
    assert LegalRun(EMPTY, [first, second]) && Accepts(rows["b"], Some(q), true, 1);
  }

  lemma SubmittedFields(draft: Agent, id: string, now: int)
    ensures Submitted(draft, id, now).id == id && Submitted(draft, id, now).createdAt == draft.createdAt
  {
  }

  lemma NonemptyRaw(q: Query)
    requires TrimSpace(RawQueue(q)) != RawQueue(q)
    ensures RawQueue(q) != ""
  {
  }

  lemma NotHead(rows: Rows, q: Query)
    requires "a" in rows && "b" in rows && TrimSpace(RawQueue(q)) != RawQueue(q) && InQueue(rows["b"], q, 1)
    requires TrimSpace(RawQueue(q)) == "" ==> InHead(rows["a"], q, 1)
    requires rows["a"].createdAt == 0 && rows["b"].createdAt == 1
    ensures !HeadOf(rows, "b", q, 1)
  {
    hide TrimSpace, RawQueue;
    assert !Before(RowKey(rows, "b"), RowKey(rows, "a"));
  }

  /** A take finds every matching head exactly when the queue's name is trimmed, or nothing can match anyway. */
  lemma NeverMissesIffTrimmed(q: Query)
    requires RawQueue(q) != ""
    ensures NeverMisses(q) <==> TrimSpace(RawQueue(q)) == RawQueue(q) || Unmatchable(q)
  {
    if Unmatchable(q) {
      forall ops, id, now | LegalRun(EMPTY, ops) && OldestInQueue(Run(EMPTY, ops).rows, id, q, now)
        ensures !Accepts(Run(EMPTY, ops).rows[id], Some(q), true, now)
      {
        EmptyOk();
        RunKeeps(EMPTY, ops);
        UnmatchableMatchesNothing(Run(EMPTY, ops), id, q, now);
      }
    } else if TrimSpace(RawQueue(q)) == RawQueue(q) {
      hide LegalRun, Run, Accepts;
      forall rows, id, now | OldestInQueue(rows, id, q, now) ensures HeadOf(rows, id, q, now) {
        TrimmedHead(rows, id, q, now);
      }
    } else {
      PaddedQueueMisses(q);
    }
  }

  lemma TrimmedHead(rows: Rows, id: string, q: Query, now: int)
    requires RawQueue(q) != "" && TrimSpace(RawQueue(q)) == RawQueue(q) && OldestInQueue(rows, id, q, now)
    ensures HeadOf(rows, id, q, now)
  {
    hide TrimSpace, RawQueue;
  }
}

/** What a query's answer holds, said of the answer itself: who is in it, until when, and in what order. */
module ValkeyAnswers {
  import opened Text
  import opened Ordering
  import opened Agents
  import opened ValkeyRecords
  import opened ValkeyEffects
  import opened ValkeyShard
  import opened ValkeyQuery

  lemma AnswerMembers(agents: Records, query: Option<Query>, now: int, x: Agent)
    ensures x in ShardAnswer(agents, query, now) <==>
              exists id :: id in agents && ValkeyQuery.Visible(agents[id], query, now) && x == Decoded(agents[id])
  {
    hide Listing, Decoded, ValkeyQuery.Visible;
    ListingSpec(Matching(agents, query, now), AgentKey);
    assert x in ShardAnswer(agents, query, now) <==> x in Matching(agents, query, now);
  }

  /**
   * An agent that passes the filter is in the answer as long as its time to live lasts: always if it has
   * none, otherwise up to and including its last millisecond, and never after.
   */
  lemma InAnswerUntilExpiry(agents: Records, query: Option<Query>, now: int, id: string)
    requires OwnIds(agents) && id in agents && Matches(Decoded(agents[id]), query)
    ensures var a := agents[id];
            Decoded(a) in ShardAnswer(agents, query, now) <==> a.ttl <= 0 || now <= a.createdAt + a.ttl
  {
    hide ShardAnswer, Matches;
    AnswerMembers(agents, query, now, Decoded(agents[id]));
  }

  /** Nothing else is in the answer. */
  lemma AnswerHoldsOnlyMatches(agents: Records, query: Option<Query>, now: int, x: Agent)
    requires OwnIds(agents) && x in ShardAnswer(agents, query, now)
    ensures x.id in agents && x == Decoded(agents[x.id]) && Matches(x, query)
  {
    hide ShardAnswer, Matches;
    AnswerMembers(agents, query, now, x);
  }

  /** Once an agent is gone from the answer it stays gone. */
  lemma GoneStaysGone(agents: Records, query: Option<Query>, now: int, later: int, id: string)
    requires OwnIds(agents) && id in agents && now <= later && Matches(Decoded(agents[id]), query)
    requires Decoded(agents[id]) !in ShardAnswer(agents, query, now)
    ensures Decoded(agents[id]) !in ShardAnswer(agents, query, later)
  {
    hide ShardAnswer, Matches, Decoded;
    InAnswerUntilExpiry(agents, query, now, id);
    InAnswerUntilExpiry(agents, query, later, id);
  }

  /** Oldest first, ties by id, nobody twice. */
  lemma AnswerIsOrdered(agents: Records, query: Option<Query>, now: int)
    requires OwnIds(agents)
    ensures var s := ShardAnswer(agents, query, now);
            forall i, j | 0 <= i < j < |s| ::
              s[i].createdAt < s[j].createdAt || (s[i].createdAt == s[j].createdAt && StrLess(s[i].id, s[j].id))
  {
    var s := ShardAnswer(agents, query, now);
    ListingSpec(Matching(agents, query, now), AgentKey);
    forall i, j | 0 <= i < j < |s|
      ensures s[i].createdAt < s[j].createdAt || (s[i].createdAt == s[j].createdAt && StrLess(s[i].id, s[j].id))
    {
      assert s[i] in s && s[j] in s;
      AnswerHoldsOnlyMatches(agents, query, now, s[i]);
      AnswerHoldsOnlyMatches(agents, query, now, s[j]);
      BeforeTotal(AgentKey(s[i]), AgentKey(s[j]));
    }
  }

  /** A page is the answer's entries from `offset` on, at most `limit` of them. */
  lemma PageIsSlice<T>(s: seq<T>, limit: int, offset: int)
    ensures var page, from := Page(s, limit, offset), if offset > 0 then offset else 0;
            var left := if from < |s| then |s| - from else 0;
            && |page| == (if 0 < limit < left then limit else left)
            && forall i | 0 <= i < |page| :: page[i] == s[from + i]
  {
  }

  // ----- Reading back -----

  lemma {:induction false} NumeralHasNoSpace(s: string)
    requires s != "" && !IsSpace(s[0]) && !IsSpace(s[|s| - 1])
    ensures TrimSpace(s) == s
  {
  }

  /** A claimed agent is read back with the expiry its claim gave it, and otherwise as stored. */
  lemma ReadBackLease(a: Agent, b: Agent, agentId: string, token: string, now: int, untilMs: int)
    requires IsClaim(a, b, agentId, token, now, untilMs) && untilMs > 0 && b.leaseUntil == None
    ensures Decoded(b) == b.(namespaceId := Decoded(b).namespaceId, leaseUntil := Some(untilMs))
    ensures Decoded(b).namespaceId == if b.namespaceId != "" then b.namespaceId
              else if NAMESPACE in b.metadata then b.metadata[NAMESPACE] else ""
  {
    var raw := FormatInt(untilMs);
    assert AllDigits(raw) && IsDigit(raw[0]) && IsDigit(raw[|raw| - 1]);
    NumeralHasNoSpace(raw);
    ToNumberOfFormat(untilMs);
  }
}

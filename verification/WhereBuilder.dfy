/**
 * From a query to a WHERE clause: what a clause text means to the database under its arguments, and the
 * builders that turn a query into text and arguments.
 */
module WhereBuilder {
  import opened Text
  import opened Agents
  import opened WhereText
  import opened LeaseProtocol

  /** Statement arguments: text, a tag list, or a one-entry JSON object. */
  datatype Arg = Str(text: string) | Tags(tags: seq<string>) | Fragment(key: string, value: string)

  // ----- What a clause text means to the database -----

  function ColumnValue(a: Agent, c: Column): string {
    match c
    case StatusColumn => StatusName(a.status)
    case KindColumn => a.kind
    case OwnerColumn => a.owner
    case ParentColumn => a.parentId
    case TraceColumn => a.traceId
    case NamespaceColumn => a.namespaceId
    case QueueColumn => QueueValue(a)
  }

  predicate WellTyped(c: Clause, args: seq<Arg>) {
    c.Unexpired? || (0 < c.index <= |args| &&
      match c
      case Equals(_, i) => args[i - 1].Str?
      case HasTags(i) => args[i - 1].Tags?
      case HasEntry(i) => args[i - 1].Fragment?
      case Unexpired => true)
  }

  predicate ClauseHolds(c: Clause, args: seq<Arg>, a: Agent, now: int)
    requires WellTyped(c, args)
  {
    match c
    case Unexpired => Live(a, now)
    case Equals(column, i) => ColumnValue(a, column) == args[i - 1].text
    case HasTags(i) => forall t | t in args[i - 1].tags :: t in a.tags
    case HasEntry(i) => args[i - 1].key in a.metadata && a.metadata[args[i - 1].key] == args[i - 1].value
  }

  /** Whether a row satisfies a clause text under the arguments; None if the text or an argument is bad. */
  function Eval(text: string, args: seq<Arg>, a: Agent, now: int): Option<bool> {
    var parsed := Parse(text);
    if parsed.None? then None
    else
      var cs := parsed.value;
      if exists i | 0 <= i < |cs| :: !WellTyped(cs[i], args) then None
      else Some(forall i | 0 <= i < |cs| :: ClauseHolds(cs[i], args, a, now))
  }

  lemma EvalRendered(cs: seq<Clause>, args: seq<Arg>, a: Agent, now: int)
    requires cs != [] && forall i | 0 <= i < |cs| :: WellTyped(cs[i], args)
    ensures Eval(Render(cs), args, a, now) == Some(forall i | 0 <= i < |cs| :: ClauseHolds(cs[i], args, a, now))
  {
    hide Parse, Render, ClauseHolds, WellTyped;
    ParseRender(cs);
  }

  lemma ShiftedClauseHolds(c: Clause, first: seq<Arg>, args: seq<Arg>, more: seq<Arg>, a: Agent, now: int)
    requires WellTyped(c, args)
    ensures var c', args' := ShiftedClause(c, |first|), first + args + more;
            WellTyped(c', args') && ClauseHolds(c', args', a, now) == ClauseHolds(c, args, a, now)
  {
    if !c.Unexpired? {
      assert (first + args + more)[|first| + c.index - 1] == args[c.index - 1];
    }
  }

  /** Arguments put in front are made up for by the shift, arguments behind do not matter. */
  lemma ShiftKeepsMeaning(cs: seq<Clause>, first: seq<Arg>, args: seq<Arg>, more: seq<Arg>, a: Agent, now: int)
    requires cs != [] && forall i | 0 <= i < |cs| :: WellTyped(cs[i], args)
    ensures Eval(Shift(Render(cs), |first|), first + args + more, a, now) == Eval(Render(cs), args, a, now)
    ensures Eval(Render(cs), args, a, now).Some?
  {
    var all, ds := first + args + more, ShiftedClauses(cs, |first|);
    ShiftRendered(cs, |first|);
    forall i | 0 <= i < |cs|
      ensures WellTyped(ds[i], all) && ClauseHolds(ds[i], all, a, now) == ClauseHolds(cs[i], args, a, now)
    {
      ShiftedClauseHolds(cs[i], first, args, more, a, now);
    }
    EvalRendered(cs, args, a, now);
    EvalRendered(ds, all, a, now);
  }

  // ----- Building the clauses -----

  /** The clause list, its arguments and the number of the next placeholder. */
  datatype Builder = Builder(clauses: seq<Clause>, args: seq<Arg>, idx: nat)

  const START := Builder([Unexpired], [], 1)

  ghost predicate Numbered(b: Builder) {
    b.clauses != [] && b.idx == |b.args| + 1 && forall i | 0 <= i < |b.clauses| :: WellTyped(b.clauses[i], b.args)
  }

  ghost predicate Holds(b: Builder, a: Agent, now: int)
    requires Numbered(b)
  {
    forall i | 0 <= i < |b.clauses| :: ClauseHolds(b.clauses[i], b.args, a, now)
  }

  function Add(b: Builder, clause: Clause, arg: Arg): Builder {
    Builder(b.clauses + [clause], b.args + [arg], b.idx + 1)
  }

  function AddEquals(b: Builder, column: Column, value: string): Builder {
    Add(b, Equals(column, b.idx), Str(value))
  }

  function AddIfSet(b: Builder, column: Column, value: string): Builder {
    if value == "" then b else AddEquals(b, column, value)
  }

  lemma AddNumbered(b: Builder, clause: Clause, arg: Arg)
    requires Numbered(b) && WellTyped(clause, b.args + [arg])
    ensures Numbered(Add(b, clause, arg))
  {
    var r := Add(b, clause, arg);
    forall i | 0 <= i < |r.clauses| ensures WellTyped(r.clauses[i], r.args) {
      if i < |b.clauses| && !b.clauses[i].Unexpired? {
        assert r.args[b.clauses[i].index - 1] == b.args[b.clauses[i].index - 1];
      }
    }
  }

  lemma AddHolds(b: Builder, clause: Clause, arg: Arg, a: Agent, now: int)
    requires Numbered(b) && WellTyped(clause, b.args + [arg])
    ensures Numbered(Add(b, clause, arg))
    ensures Holds(Add(b, clause, arg), a, now) <==> Holds(b, a, now) && ClauseHolds(clause, b.args + [arg], a, now)
  {
    AddNumbered(b, clause, arg);
    var n, r := |b.clauses|, Add(b, clause, arg);
    forall i | 0 <= i < n
      ensures ClauseHolds(r.clauses[i], r.args, a, now) == ClauseHolds(b.clauses[i], b.args, a, now)
    {
      ArgsAppend(b.clauses[i], b.args, arg, a, now);
    }
    assert r.clauses[n] == clause;
  }

  lemma ArgsAppend(c: Clause, args: seq<Arg>, arg: Arg, a: Agent, now: int)
    requires WellTyped(c, args)
    ensures WellTyped(c, args + [arg]) && ClauseHolds(c, args + [arg], a, now) == ClauseHolds(c, args, a, now)
  {
    if !c.Unexpired? {
      assert (args + [arg])[c.index - 1] == args[c.index - 1];
    }
  }

  lemma AddEqualsHolds(b: Builder, column: Column, value: string, a: Agent, now: int)
    requires Numbered(b)
    ensures Numbered(AddEquals(b, column, value))
    ensures Holds(AddEquals(b, column, value), a, now) <==> Holds(b, a, now) && ColumnValue(a, column) == value
  {
    AddHolds(b, Equals(column, b.idx), Str(value), a, now);
  }

  lemma AddIfSetHolds(b: Builder, column: Column, value: string, a: Agent, now: int)
    requires Numbered(b)
    ensures Numbered(AddIfSet(b, column, value))
    ensures Holds(AddIfSet(b, column, value), a, now)
       <==> Holds(b, a, now) && (value != "" ==> ColumnValue(a, column) == value)
  {
    if value != "" {
      AddEqualsHolds(b, column, value, a, now);
    }
  }

  /** The metadata entry a query asks for: the queue column for "queue", the JSON column otherwise. */
  predicate EntryMatches(a: Agent, key: string, value: string) {
    if key == AGENT_ID then true
    else if key == QUEUE then QueueValue(a) == value
    else key in a.metadata && a.metadata[key] == value
  }

  /** The filter a query stands for in Postgres; a nil query only asks that the row be alive. */
  predicate Accepts(a: Agent, query: Option<Query>, forceNew: bool, now: int) {
    Live(a, now) &&
    (query.Some? ==>
      var q := query.value;
      && StatusMatches(a, q, forceNew)
      && FieldsMatch(a, q)
      && (forall t | t in q.tags :: t in a.tags)
      && (forall k | k in q.metadata :: EntryMatches(a, k, q.metadata[k])))
  }

  predicate StatusMatches(a: Agent, q: Query, forceNew: bool) {
    if forceNew then a.status == New else q.status.Some? ==> a.status == q.status.value
  }

  predicate FieldsMatch(a: Agent, q: Query) {
    && (q.kind != "" ==> a.kind == q.kind)
    && (q.owner != "" ==> a.owner == q.owner)
    && (q.parentId != "" ==> a.parentId == q.parentId)
    && (q.traceId != "" ==> a.traceId == q.traceId)
    && (q.namespaceId != "" ==> a.namespaceId == q.namespaceId)
  }

  function AddEntry(b: Builder, k: string, v: string): Builder {
    if k == AGENT_ID then b
    else if k == QUEUE then AddEquals(b, QueueColumn, v)
    else Add(b, HasEntry(b.idx), Fragment(k, v))
  }

  lemma EntryNumbered(b: Builder, k: string, v: string)
    requires Numbered(b)
    ensures Numbered(AddEntry(b, k, v))
  {
    if k == QUEUE {
      AddNumbered(b, Equals(QueueColumn, b.idx), Str(v));
    } else {
      AddNumbered(b, HasEntry(b.idx), Fragment(k, v));
    }
  }

  lemma EntryHolds(b: Builder, k: string, v: string, a: Agent, now: int)
    requires Numbered(b)
    ensures Numbered(AddEntry(b, k, v))
    ensures Holds(AddEntry(b, k, v), a, now) <==> Holds(b, a, now) && EntryMatches(a, k, v)
  {
    if k == AGENT_ID {
    } else if k == QUEUE {
      AddEqualsHolds(b, QueueColumn, v, a, now);
    } else {
      AddHolds(b, HasEntry(b.idx), Fragment(k, v), a, now);
    }
  }

  ghost predicate EntriesMatch(a: Agent, metadata: map<string, string>, keys: set<string>) {
    forall k | k in metadata && k in keys :: EntryMatches(a, k, metadata[k])
  }

  /** The entries are added in whatever order the map yields them. */
  method AddMetadata(b: Builder, metadata: map<string, string>) returns (r: Builder)
    requires Numbered(b)
    ensures Numbered(r)
    ensures forall a, now :: Holds(r, a, now) <==> (Holds(b, a, now) && EntriesMatch(a, metadata, metadata.Keys))
  {
    r := b;
    var rest := metadata.Keys;
    ghost var done: set<string> := {};
    while rest != {}
      invariant rest + done == metadata.Keys && Numbered(r)
      invariant forall a, now :: Holds(r, a, now) <==> (Holds(b, a, now) && EntriesMatch(a, metadata, done))
    {
      var k :| k in rest;
      ghost var r0, done0 := r, done;
      EntryNumbered(r, k, metadata[k]);
      rest, done, r := rest - {k}, done + {k}, AddEntry(r, k, metadata[k]);
      forall a, now ensures Holds(r, a, now) <==> (Holds(b, a, now) && EntriesMatch(a, metadata, done)) {
        EntryHolds(r0, k, metadata[k], a, now);
        assert EntriesMatch(a, metadata, done) <==> EntriesMatch(a, metadata, done0) && EntryMatches(a, k, metadata[k]);
      }
    }
  }

  /** The status filter: NEW when forced, else what the query asks for. */
  function AddStatus(b: Builder, q: Query, forceNew: bool): Builder {
    if forceNew then AddEquals(b, StatusColumn, StatusName(New))
    else if q.status.Some? then AddEquals(b, StatusColumn, StatusName(q.status.value))
    else b
  }

  function AddFields(b: Builder, q: Query): Builder {
    var b1 := AddIfSet(b, KindColumn, q.kind);
    var b2 := AddIfSet(b1, OwnerColumn, q.owner);
    var b3 := AddIfSet(b2, ParentColumn, q.parentId);
    var b4 := AddIfSet(b3, TraceColumn, q.traceId);
    AddIfSet(b4, NamespaceColumn, q.namespaceId)
  }

  function AddTags(b: Builder, tags: seq<string>): Builder {
    if tags == [] then b else Add(b, HasTags(b.idx), Tags(tags))
  }

  lemma StatusHolds(b: Builder, q: Query, forceNew: bool, a: Agent, now: int)
    requires Numbered(b)
    ensures Numbered(AddStatus(b, q, forceNew))
    ensures Holds(AddStatus(b, q, forceNew), a, now) <==> Holds(b, a, now) && StatusMatches(a, q, forceNew)
  {
    if forceNew || q.status.Some? {
      var wanted := if forceNew then New else q.status.value;
      AddEqualsHolds(b, StatusColumn, StatusName(wanted), a, now);
      StatusNameInjective(a.status, wanted);
    }
  }

  lemma FieldsHold(b: Builder, q: Query, a: Agent, now: int)
    requires Numbered(b)
    ensures Numbered(AddFields(b, q))
    ensures Holds(AddFields(b, q), a, now) <==> Holds(b, a, now) && FieldsMatch(a, q)
  {
    hide Numbered, Holds, AddIfSet;
    var b1 := AddIfSet(b, KindColumn, q.kind);
    AddIfSetHolds(b, KindColumn, q.kind, a, now);
    var b2 := AddIfSet(b1, OwnerColumn, q.owner);
    AddIfSetHolds(b1, OwnerColumn, q.owner, a, now);
    var b3 := AddIfSet(b2, ParentColumn, q.parentId);
    AddIfSetHolds(b2, ParentColumn, q.parentId, a, now);
    var b4 := AddIfSet(b3, TraceColumn, q.traceId);
    AddIfSetHolds(b3, TraceColumn, q.traceId, a, now);
    AddIfSetHolds(b4, NamespaceColumn, q.namespaceId, a, now);
  }

  lemma TagsHold(b: Builder, tags: seq<string>, a: Agent, now: int)
    requires Numbered(b)
    ensures Numbered(AddTags(b, tags))
    ensures Holds(AddTags(b, tags), a, now) <==> Holds(b, a, now) && forall t | t in tags :: t in a.tags
  {
    if tags != [] {
      AddHolds(b, HasTags(b.idx), Tags(tags), a, now);
    }
  }

  ghost predicate Written(text: string, args: seq<Arg>, cs: seq<Clause>) {
    cs != [] && text == Render(cs) && forall i | 0 <= i < |cs| :: WellTyped(cs[i], args)
  }

  lemma WrittenHolds(b: Builder, a: Agent, now: int)
    requires Numbered(b)
    ensures Eval(Render(b.clauses), b.args, a, now) == Some(Holds(b, a, now))
  {
    EvalRendered(b.clauses, b.args, a, now);
  }

  function Filters(q: Query, forceNew: bool): Builder {
    AddTags(AddFields(AddStatus(START, q, forceNew), q), q.tags)
  }

  lemma StartNumbered()
    ensures Numbered(START)
  {
  }

  lemma StartHolds(a: Agent, now: int)
    ensures Numbered(START) && (Holds(START, a, now) <==> Live(a, now))
  {
    assert START.clauses[0] == Unexpired;
  }

  lemma FiltersHold(q: Query, forceNew: bool, a: Agent, now: int)
    ensures Numbered(Filters(q, forceNew))
    ensures Holds(Filters(q, forceNew), a, now)
       <==> Live(a, now) && StatusMatches(a, q, forceNew) && FieldsMatch(a, q) && forall t | t in q.tags :: t in a.tags
  {
    hide Numbered, Holds, AddStatus, AddFields, AddTags;
    StartHolds(a, now);
    var b1 := AddStatus(START, q, forceNew);
    StatusHolds(START, q, forceNew, a, now);
    var b2 := AddFields(b1, q);
    FieldsHold(b1, q, a, now);
    TagsHold(b2, q.tags, a, now);
  }

  lemma FiltersNumbered(q: Query, forceNew: bool)
    ensures Numbered(Filters(q, forceNew))
  {
    FiltersHold(q, forceNew, Agent("", "", New, map[], [], "", "", "", "", 0, 0, 0, None, "", None, 0, map[]), 0);
  }

  method BuildClauses(query: Option<Query>, forceNew: bool) returns (b: Builder)
    ensures Numbered(b)
    ensures forall a, now :: Holds(b, a, now) <==> Accepts(a, query, forceNew, now)
  {
    hide Numbered, Holds, Filters;
    b := START;
    if query.None? {
      forall a, now ensures Numbered(b) && (Holds(b, a, now) <==> Accepts(a, query, forceNew, now)) {
        StartHolds(a, now);
      }
      StartNumbered();
      return;
    }
    var q := query.value;
    ghost var filters := Filters(q, forceNew);
    FiltersNumbered(q, forceNew);
    b := AddMetadata(Filters(q, forceNew), q.metadata);
    forall a, now ensures Holds(b, a, now) <==> Accepts(a, query, forceNew, now) {
      FiltersHold(q, forceNew, a, now);
      assert Holds(b, a, now) <==> (Holds(filters, a, now) && EntriesMatch(a, q.metadata, q.metadata.Keys));
    }
  }

  /** buildWhereClauses: the text selects exactly the live rows the query accepts, in any metadata order. */
  method BuildWhere(query: Option<Query>, forceNew: bool) returns (text: string, args: seq<Arg>, ghost cs: seq<Clause>)
    ensures Written(text, args, cs)
    ensures forall a, now :: Eval(text, args, a, now) == Some(Accepts(a, query, forceNew, now))
  {
    hide Eval, Render, Accepts;
    var b := BuildClauses(query, forceNew);
    text, args, cs := Render(b.clauses), b.args, b.clauses;
    forall a, now ensures Eval(text, args, a, now) == Some(Accepts(a, query, forceNew, now)) {
      WrittenHolds(b, a, now);
      assert Holds(b, a, now) <==> Accepts(a, query, forceNew, now);
    }
  }

  /** The queue a query names, as given. */
  function RawQueue(q: Query): string {
    if QUEUE in q.metadata then q.metadata[QUEUE] else ""
  }

  /** buildStrictQueueHeadWhereClauses: waiting rows of the namespace and of the queue's trimmed name. */
  function HeadClauses(q: Query): Builder {
    AddIfSet(AddIfSet(AddEquals(START, StatusColumn, StatusName(New)), NamespaceColumn, q.namespaceId),
             QueueColumn, TrimSpace(RawQueue(q)))
  }

  predicate InHead(a: Agent, q: Query, now: int) {
    && Live(a, now)
    && a.status == New
    && (q.namespaceId != "" ==> a.namespaceId == q.namespaceId)
    && (TrimSpace(RawQueue(q)) != "" ==> QueueValue(a) == TrimSpace(RawQueue(q)))
  }

  lemma HeadClausesHold(q: Query, a: Agent, now: int)
    ensures Numbered(HeadClauses(q))
    ensures Eval(Render(HeadClauses(q).clauses), HeadClauses(q).args, a, now) == Some(InHead(a, q, now))
  {
    hide Numbered, Holds, Eval, Render, AddEquals, AddIfSet;
    StartHolds(a, now);
    var b1 := AddEquals(START, StatusColumn, StatusName(New));
    AddEqualsHolds(START, StatusColumn, StatusName(New), a, now);
    StatusNameInjective(a.status, New);
    var b2 := AddIfSet(b1, NamespaceColumn, q.namespaceId);
    AddIfSetHolds(b1, NamespaceColumn, q.namespaceId, a, now);
    AddIfSetHolds(b2, QueueColumn, TrimSpace(RawQueue(q)), a, now);
    WrittenHolds(HeadClauses(q), a, now);
  }
}

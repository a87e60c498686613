/**
 * The Valkey key space: every key name is a family prefix followed by length-prefixed parts.
 * `Encode` is shared by the Go builders and the Lua builders, which spell the same strings.
 */
module Keys {
  import opened Text

  /** Keys with a fixed name. */
  datatype Fixed = AllIndex | NewOrder | LeaseOrder | EventStream | SpanCleanup

  /** Families whose names carry one variable part. */
  datatype Single =
    | AgentRecord | HotRecord | StatusIndex | KindIndex | OwnerIndex | TraceIndex | ParentIndex
    | NamespaceIndex | TagIndex | AgentStream | TraceStream | SpanTrace | ReaperLeader

  datatype Key =
    | Named(fixed: Fixed)
    | Of(single: Single, part: string)
    | MetadataIndex(name: string, value: string)
    | QueueOrder(queueNamespace: string, queue: string)
    | SpanRecord(trace: string, span: string)

  /** "<length>:<value>", so that a value may hold any character, ":" and digits included. */
  function Part(value: string): string {
    Decimal(|value|) + ":" + value
  }

  function FixedName(f: Fixed): string {
    match f
    case AllIndex => "index:all"
    case NewOrder => "order:new"
    case LeaseOrder => "lease:by_until"
    case EventStream => "stream:events"
    case SpanCleanup => "telemetry:cleanup"
  }

  function SingleFamily(f: Single): string {
    match f
    case AgentRecord => "agent:"
    case HotRecord => "agent_hot:"
    case StatusIndex => "index:status:"
    case KindIndex => "index:kind:"
    case OwnerIndex => "index:owner:"
    case TraceIndex => "index:trace:"
    case ParentIndex => "index:parent:"
    case NamespaceIndex => "index:namespace:"
    case TagIndex => "index:tag:"
    case AgentStream => "stream:events:agent:"
    case TraceStream => "stream:events:trace:"
    case SpanTrace => "telemetry:trace:"
    case ReaperLeader => "reaper:leader:"
  }

  function Family(k: Key): string {
    match k
    case Named(f) => FixedName(f)
    case Of(f, _) => SingleFamily(f)
    case MetadataIndex(_, _) => "index:meta:"
    case QueueOrder(_, _) => "queue:"
    case SpanRecord(_, _) => "telemetry:span:"
  }

  function Body(k: Key): string {
    match k
    case Named(_) => ""
    case Of(_, v) => Part(v)
    case MetadataIndex(n, v) => Part(n) + ":" + Part(v)
    case QueueOrder(ns, q) => Part(ns) + ":" + Part(q) + ":new"
    case SpanRecord(t, s) => Part(t) + ":" + Part(s)
  }

  function Encode(k: Key): string {
    Family(k) + Body(k)
  }

  /** Length prefixes make parts self-delimiting: a part and what follows it can always be split again. */
  lemma PartUnique(a: string, x: string, b: string, y: string)
    requires Part(a) + x == Part(b) + y
    ensures a == b && x == y
  {
    assert Part(a) + x == Decimal(|a|) + ":" + (a + x) && Part(b) + y == Decimal(|b|) + ":" + (b + y);
    NumeralUnique(|a|, a + x, |b|, b + y);
    assert a == (a + x)[..|a|] && b == (b + y)[..|b|];
    assert x == (a + x)[|a|..] && y == (b + y)[|b|..];
  }

  lemma PairUnique(a: string, b: string, x: string, c: string, d: string, y: string)
    requires Part(a) + ":" + Part(b) + x == Part(c) + ":" + Part(d) + y
    ensures a == c && b == d && x == y
  {
    var u, v := ":" + Part(b) + x, ":" + Part(d) + y;
    assert Part(a) + u == Part(a) + ":" + Part(b) + x;
    assert Part(c) + v == Part(c) + ":" + Part(d) + y;
    PartUnique(a, u, c, v);
    assert u[1..] == Part(b) + x && v[1..] == Part(d) + y;
    PartUnique(b, x, d, y);
  }

  /** The text before the first digit. */
  function LeadingText(s: string): string {
    if s == "" || IsDigit(s[0]) then "" else [s[0]] + LeadingText(s[1..])
  }

  predicate DigitFree(s: string) {
    forall i | 0 <= i < |s| :: !IsDigit(s[i])
  }

  lemma {:induction false} LeadingTextOf(p: string, b: string)
    requires DigitFree(p)
    requires b == "" || IsDigit(b[0])
    ensures LeadingText(p + b) == p
  {
    if p == "" {
      assert p + b == b;
    } else {
      assert (p + b)[1..] == p[1..] + b;
      LeadingTextOf(p[1..], b);
    }
  }

  lemma FixedNameDigitFree(f: Fixed)
    ensures DigitFree(FixedName(f))
  {
  }

  predicate IsLong(f: Single) {
    f == AgentStream || f == TraceStream || f == SpanTrace || f == ReaperLeader || f == NamespaceIndex
  }

  lemma LongDigitFree(f: Single)
    requires IsLong(f)
    ensures DigitFree(SingleFamily(f))
  {
  }

  lemma ShortDigitFree(f: Single)
    requires !IsLong(f)
    ensures DigitFree(SingleFamily(f))
  {
  }

  lemma SingleFamilyDigitFree(f: Single)
    ensures DigitFree(SingleFamily(f))
  {
    hide SingleFamily, DigitFree;
    if IsLong(f) {
      LongDigitFree(f);
    } else {
      ShortDigitFree(f);
    }
  }

  lemma FamilyDigitFree(k: Key)
    ensures DigitFree(Family(k))
  {
    match k
    case Named(f) => FixedNameDigitFree(f);
    case Of(f, _) => SingleFamilyDigitFree(f);
    case _ =>
  }

  lemma FamilyIsLeadingText(k: Key)
    ensures LeadingText(Encode(k)) == Family(k)
  {
    FamilyDigitFree(k);
    LeadingTextOf(Family(k), Body(k));
  }

  /** Tells the families apart by length and a few characters. */
  function NumberOf(p: string): nat
    requires |p| >= 6
  {
    if |p| == 6 then (if p[0] == 'a' then 0 else 1)
    else if |p| == 9 then (if p[0] == 'i' then 2 else 3)
    else if |p| == 10 then (if p[0] == 'a' then 4 else 5)
    else if |p| == 11 then (if p[6] == 'k' then 6 else 7)
    else if |p| == 12 then (if p[6] == 'o' then 8 else 9)
    else if |p| == 13 then (if p[6] == 's' then 10 else if p[6] == 'p' then 11 else 12)
    else if |p| == 14 then (if p[0] == 'l' then 13 else 14)
    else if |p| == 15 then 15
    else if |p| == 16 then (if p[0] == 'i' then 16 else 17)
    else if |p| == 17 then 18
    else if |p| == 20 && p[14] == 'a' then 19 else 20
  }

  function FamilyNumber(k: Key): nat {
    match k
    case Of(AgentRecord, _) => 0
    case QueueOrder(_, _) => 1
    case Named(AllIndex) => 2
    case Named(NewOrder) => 3
    case Of(HotRecord, _) => 4
    case Of(TagIndex, _) => 5
    case Of(KindIndex, _) => 6
    case MetadataIndex(_, _) => 7
    case Of(OwnerIndex, _) => 8
    case Of(TraceIndex, _) => 9
    case Of(StatusIndex, _) => 10
    case Of(ParentIndex, _) => 11
    case Named(EventStream) => 12
    case Named(LeaseOrder) => 13
    case Of(ReaperLeader, _) => 14
    case SpanRecord(_, _) => 15
    case Of(NamespaceIndex, _) => 16
    case Of(SpanTrace, _) => 17
    case Named(SpanCleanup) => 18
    case Of(AgentStream, _) => 19
    case Of(TraceStream, _) => 20
  }

  lemma FamilyDeterminesNumber(k: Key)
    ensures |Family(k)| >= 6 && NumberOf(Family(k)) == FamilyNumber(k)
  {
  }

  lemma BodyDeterminesKey(k: Key, l: Key)
    requires FamilyNumber(k) == FamilyNumber(l) && Body(k) == Body(l)
    ensures k == l
  {
    match k {
      case Named(_) =>
      case Of(_, v) =>
        assert Part(v) + "" == Part(l.part) + "";
        PartUnique(v, "", l.part, "");
      case MetadataIndex(n, v) =>
        assert Part(n) + ":" + Part(v) + "" == Part(l.name) + ":" + Part(l.value) + "";
        PairUnique(n, v, "", l.name, l.value, "");
      case QueueOrder(ns, q) =>
        PairUnique(ns, q, ":new", l.queueNamespace, l.queue, ":new");
      case SpanRecord(t, s) =>
        assert Part(t) + ":" + Part(s) + "" == Part(l.trace) + ":" + Part(l.span) + "";
        PairUnique(t, s, "", l.trace, l.span, "");
    }
  }

  /** No two keys share a name: not inside a family, not across families, whatever the parts hold. */
  lemma EncodeInjective(k: Key, l: Key)
    requires Encode(k) == Encode(l)
    ensures k == l
  {
    FamilyIsLeadingText(k);
    FamilyIsLeadingText(l);
    FamilyDeterminesNumber(k);
    FamilyDeterminesNumber(l);
    assert Body(k) == Encode(k)[|Family(k)|..];
    assert Body(l) == Encode(l)[|Family(l)|..];
    BodyDeterminesKey(k, l);
  }

  /** The members of the index sets and sorted sets as the server stores them, under encoded names. */
  ghost function Rendered(entries: set<(Key, string)>): set<(string, string)> {
    set e | e in entries :: (Encode(e.0), e.1)
  }

  /** Adding or removing one member under an encoded name touches exactly the intended key. */
  lemma RenderedAddRemove(entries: set<(Key, string)>, k: Key, id: string)
    ensures Rendered(entries + {(k, id)}) == Rendered(entries) + {(Encode(k), id)}
    ensures Rendered(entries - {(k, id)}) == Rendered(entries) - {(Encode(k), id)}
  {
    forall e | e in entries && e != (k, id)
      ensures (Encode(e.0), e.1) != (Encode(k), id)
    {
      if Encode(e.0) == Encode(k) {
        EncodeInjective(e.0, k);
      }
    }
    var removed := entries - {(k, id)};
    forall p | p in Rendered(removed) ensures p in Rendered(entries) - {(Encode(k), id)} {
      var e :| e in removed && p == (Encode(e.0), e.1);
      assert e in entries && e != (k, id);
    }
    forall p | p in Rendered(entries) - {(Encode(k), id)} ensures p in Rendered(removed) {
      var e :| e in entries && p == (Encode(e.0), e.1);
      assert e in removed;
    }
  }
}

/**
 * The WHERE clauses of the Postgres store as text: how they are written, how their placeholders are
 * renumbered, and how the text is read back.
 */
module WhereText {
  import opened Text

  datatype Column = StatusColumn | KindColumn | OwnerColumn | ParentColumn | TraceColumn | NamespaceColumn | QueueColumn

  /** One conjunct; `index` is the number of its placeholder, counted from 1. */
  datatype Clause =
    | Unexpired
    | Equals(column: Column, index: nat)
    | HasTags(index: nat)
    | HasEntry(index: nat)

  const TTL_HEAD := "(ttl_ms = 0 OR " + "created_at + (ttl_ms "
  const TTL_TAIL := "* interval '1 " + "millisecond') > now())"
  const TTL_CLAUSE := TTL_HEAD + TTL_TAIL
  const TAGS := "tags @> "
  const ENTRY := "metadata @> "
  const JSONB := "::jsonb"
  const AND := " AND "

  function ColumnText(c: Column): string {
    match c
    case StatusColumn => "status = "
    case KindColumn => "kind = "
    case OwnerColumn => "owner = "
    case ParentColumn => "parent_id = "
    case TraceColumn => "trace_id = "
    case NamespaceColumn => "namespace_id = "
    case QueueColumn => "queue = "
  }

  function Placeholder(n: nat): string {
    "$" + Decimal(n)
  }

  function ClauseText(c: Clause): string {
    match c
    case Unexpired => TTL_CLAUSE
    case Equals(column, index) => ColumnText(column) + Placeholder(index)
    case HasTags(index) => TAGS + Placeholder(index)
    case HasEntry(index) => ENTRY + Placeholder(index) + JSONB
  }

  /** The clauses joined with AND. */
  function Render(cs: seq<Clause>): string {
    if cs == [] then ""
    else if |cs| == 1 then ClauseText(cs[0])
    else ClauseText(cs[0]) + (AND + Render(cs[1..]))
  }

  // ----- Shifting placeholders -----

  function DigitRun(s: string): (n: nat)
    ensures n <= |s| && AllDigits(s[..n]) && (n < |s| ==> !IsDigit(s[n]))
  {
    if s != "" && IsDigit(s[0]) then 1 + DigitRun(s[1..]) else 0
  }

  predicate AtPlaceholder(s: string) {
    |s| > 1 && s[0] == '$' && IsDigit(s[1])
  }

  /** shiftPlaceholders: every "$n" becomes "$(n + offset)"; all other text stays. */
  function Shift(s: string, offset: nat): string {
    if s == "" then ""
    else if AtPlaceholder(s) then
      var n := DigitRun(s[1..]);
      Placeholder(NatValue(s[1..][..n]) + offset) + Shift(s[1..][n..], offset)
    else [s[0]] + Shift(s[1..], offset)
  }

  predicate NoDigitFirst(s: string) {
    s != "" ==> !IsDigit(s[0])
  }

  lemma {:induction false} DigitRunStops(a: string, b: string)
    requires NoDigitFirst(b)
    ensures DigitRun(a + b) == DigitRun(a)
  {
    if a == "" {
      assert a + b == b;
    } else {
      assert (a + b)[1..] == a[1..] + b;
      DigitRunStops(a[1..], b);
    }
  }

  lemma PlaceholderStops(a: string, b: string)
    requires a != "" && NoDigitFirst(b)
    ensures AtPlaceholder(a + b) == AtPlaceholder(a)
    ensures (a + b)[1..] == a[1..] + b
    ensures AtPlaceholder(a) ==>
              var n := DigitRun(a[1..]);
              DigitRun((a + b)[1..]) == n && (a + b)[1..][..n] == a[1..][..n] && (a + b)[1..][n..] == a[1..][n..] + b
  {
    assert (a + b)[1..] == a[1..] + b;
    DigitRunStops(a[1..], b);
  }

  lemma ShiftStep(s: string, offset: nat)
    ensures s == "" ==> Shift(s, offset) == ""
    ensures s != "" && !AtPlaceholder(s) ==> Shift(s, offset) == [s[0]] + Shift(s[1..], offset)
    ensures AtPlaceholder(s) ==>
              var n := DigitRun(s[1..]);
              Shift(s, offset) == Placeholder(NatValue(s[1..][..n]) + offset) + Shift(s[1..][n..], offset)
  {
  }

  lemma Associative(x: string, y: string, z: string)
    ensures x + (y + z) == (x + y) + z
  {
  }

  /** Shifting works piece by piece wherever no numeral is cut in two. */
  lemma {:induction false} ShiftConcat(a: string, b: string, offset: nat)
    requires NoDigitFirst(b)
    ensures Shift(a + b, offset) == Shift(a, offset) + Shift(b, offset)
    decreases |a|
  {
    hide Shift, AtPlaceholder, Placeholder, NatValue, DigitRun, NoDigitFirst;
    ShiftStep(a, offset);
    if a == "" {
      assert a + b == b;
    } else {
      PlaceholderStops(a, b);
      ShiftStep(a + b, offset);
      var n := if AtPlaceholder(a) then DigitRun(a[1..]) else 0;
      ShiftConcat(a[1..][n..], b, offset);
      var first := if AtPlaceholder(a) then Placeholder(NatValue(a[1..][..n]) + offset) else [a[0]];
      Associative(first, Shift(a[1..][n..], offset), Shift(b, offset));
    }
  }

  lemma {:induction false} ShiftPlain(s: string, offset: nat)
    requires '$' !in s
    ensures Shift(s, offset) == s
  {
    if s != "" {
      assert s == [s[0]] + s[1..];
      ShiftPlain(s[1..], offset);
    }
  }

  lemma {:induction false} DigitRunAll(s: string)
    requires AllDigits(s)
    ensures DigitRun(s) == |s|
  {
    if s != "" {
      DigitRunAll(s[1..]);
    }
  }

  lemma ShiftPlaceholder(n: nat, offset: nat)
    ensures Shift(Placeholder(n), offset) == Placeholder(n + offset)
  {
    var d := Decimal(n);
    assert Placeholder(n)[1..] == d;
    DigitRunAll(d);
    DecimalRoundTrip(n);
    assert d[..|d|] == d && d[|d|..] == "";
  }

  /** Nothing happens at offset 0, as in the source's early return. */
  lemma ShiftByZero(cs: seq<Clause>)
    ensures Shift(Render(cs), 0) == Render(cs)
  {
    hide Shift, Render;
    ShiftRendered(cs, 0);
    assert ShiftedClauses(cs, 0) == cs;
  }

  function ShiftedClause(c: Clause, offset: nat): Clause {
    match c
    case Unexpired => c
    case Equals(column, index) => Equals(column, index + offset)
    case HasTags(index) => HasTags(index + offset)
    case HasEntry(index) => HasEntry(index + offset)
  }

  function ShiftedClauses(cs: seq<Clause>, offset: nat): (r: seq<Clause>)
    ensures |r| == |cs| && forall i | 0 <= i < |cs| :: r[i] == ShiftedClause(cs[i], offset)
  {
    if cs == [] then [] else [ShiftedClause(cs[0], offset)] + ShiftedClauses(cs[1..], offset)
  }

  /** No fixed text holds a placeholder sign or the "A" of the separator. */
  predicate Clean(s: string) {
    '$' !in s && 'A' !in s
  }

  lemma CleanConcat(a: string, b: string)
    requires Clean(a) && Clean(b)
    ensures Clean(a + b)
  {
  }

  lemma TtlClean()
    ensures Clean(TTL_CLAUSE)
  {
    assert Clean("(ttl_ms = 0 OR ");
    assert Clean("created_at + (ttl_ms ");
    assert Clean("* interval '1 ");
    assert Clean("millisecond') > now())");
    CleanConcat("(ttl_ms = 0 OR ", "created_at + (ttl_ms ");
    CleanConcat("* interval '1 ", "millisecond') > now())");
    CleanConcat(TTL_HEAD, TTL_TAIL);
  }

  lemma ColumnClean(c: Column)
    ensures Clean(ColumnText(c))
  {
    match c
    case StatusColumn => assert Clean("status = ");
    case KindColumn => assert Clean("kind = ");
    case OwnerColumn => assert Clean("owner = ");
    case ParentColumn => assert Clean("parent_id = ");
    case TraceColumn => assert Clean("trace_id = ");
    case NamespaceColumn => assert Clean("namespace_id = ");
    case QueueColumn => assert Clean("queue = ");
  }

  lemma TextsClean()
    ensures Clean(TAGS) && Clean(ENTRY) && Clean(JSONB) && '$' !in AND
  {
    assert Clean(TAGS);
    assert Clean(ENTRY);
  }

  lemma ClauseClean(c: Clause)
    ensures Clean(TTL_CLAUSE) && Clean(TAGS) && Clean(ENTRY) && Clean(JSONB) && (c.Equals? ==> Clean(ColumnText(c.column)))
  {
    TtlClean();
    TextsClean();
    if c.Equals? {
      ColumnClean(c.column);
    }
  }

  lemma ShiftPrefixed(prefix: string, n: nat, offset: nat)
    requires '$' !in prefix
    ensures Shift(prefix + Placeholder(n), offset) == prefix + Placeholder(n + offset)
  {
    ShiftConcat(prefix, Placeholder(n), offset);
    ShiftPlain(prefix, offset);
    ShiftPlaceholder(n, offset);
  }

  lemma ShiftClauseText(c: Clause, offset: nat)
    ensures Shift(ClauseText(c), offset) == ClauseText(ShiftedClause(c, offset))
  {
    ClauseClean(c);
    match c
    case Unexpired =>
      ShiftPlain(TTL_CLAUSE, offset);
    case Equals(column, index) =>
      ShiftPrefixed(ColumnText(column), index, offset);
    case HasTags(index) =>
      ShiftPrefixed(TAGS, index, offset);
    case HasEntry(index) =>
      ShiftPrefixed(ENTRY, index, offset);
      ShiftConcat(ENTRY + Placeholder(index), JSONB, offset);
      ShiftPlain(JSONB, offset);
  }

  /** Renumbering the text is renumbering the clauses. */
  lemma {:induction false} ShiftRendered(cs: seq<Clause>, offset: nat)
    ensures Shift(Render(cs), offset) == Render(ShiftedClauses(cs, offset))
  {
    if cs != [] {
      ShiftClauseText(cs[0], offset);
      if |cs| > 1 {
        var rest := Render(cs[1..]);
        ShiftRendered(cs[1..], offset);
        ShiftConcat(ClauseText(cs[0]), AND + rest, offset);
        RenderStartsPlain(cs[1..]);
        ShiftConcat(AND, rest, offset);
        TextsClean();
        ShiftPlain(AND, offset);
        assert ShiftedClauses(cs, offset)[1..] == ShiftedClauses(cs[1..], offset);
      }
    }
  }

  lemma StartsPlain(c: Clause)
    ensures ClauseText(c) != "" && !IsDigit(ClauseText(c)[0])
  {
    match c
    case Unexpired => assert ClauseText(c)[0] == '(';
    case Equals(column, index) => assert ColumnText(column) != "" && !IsDigit(ColumnText(column)[0]);
    case HasTags(_) => assert ClauseText(c)[0] == 't';
    case HasEntry(_) => assert ClauseText(c)[0] == 'm';
  }

  lemma RenderStartsPlain(cs: seq<Clause>)
    ensures NoDigitFirst(Render(cs))
  {
    if cs != [] {
      StartsPlain(cs[0]);
    }
  }

  // ----- Reading the text back -----

  function Split(s: string): (r: seq<string>)
    ensures |r| > 0
  {
    if s == "" then [""]
    else if AND <= s then [""] + Split(s[|AND|..])
    else
      var r := Split(s[1..]);
      [[s[0]] + r[0]] + r[1..]
  }

  function ColumnOf(prefix: string): Option<Column> {
    if prefix == "status = " then Some(StatusColumn)
    else if prefix == "kind = " then Some(KindColumn)
    else if prefix == "owner = " then Some(OwnerColumn)
    else if prefix == "parent_id = " then Some(ParentColumn)
    else if prefix == "trace_id = " then Some(TraceColumn)
    else if prefix == "namespace_id = " then Some(NamespaceColumn)
    else if prefix == "queue = " then Some(QueueColumn)
    else None
  }

  predicate IsNumeral(s: string) {
    s != "" && AllDigits(s)
  }

  predicate IsEntryTail(s: string) {
    |s| > |JSONB| && s[|s| - |JSONB|..] == JSONB && IsNumeral(s[..|s| - |JSONB|])
  }

  function ParseClause(p: string): Option<Clause> {
    var d := IndexOf(p, '$');
    if d.None? then (if p == TTL_CLAUSE then Some(Unexpired) else None)
    else
      var prefix, tail := p[..d.value], p[d.value + 1..];
      if prefix == ENTRY then
        if IsEntryTail(tail) then Some(HasEntry(NatValue(tail[..|tail| - |JSONB|]))) else None
      else if !IsNumeral(tail) then None
      else if prefix == TAGS then Some(HasTags(NatValue(tail)))
      else if ColumnOf(prefix).Some? then Some(Equals(ColumnOf(prefix).value, NatValue(tail)))
      else None
  }

  function ParseAll(pieces: seq<string>): (r: Option<seq<Clause>>)
    ensures r.Some? ==> |r.value| == |pieces|
  {
    if pieces == [] then Some([])
    else
      var first, rest := ParseClause(pieces[0]), ParseAll(pieces[1..]);
      if first.None? || rest.None? then None else Some([first.value] + rest.value)
  }

  /** The conjunction a text stands for, if it is one. */
  function Parse(text: string): Option<seq<Clause>> {
    ParseAll(Split(text))
  }

  lemma {:induction false} SplitPiece(p: string, rest: string)
    requires 'A' !in p && (rest == "" || AND <= rest)
    ensures Split(p + rest) == [p + Split(rest)[0]] + Split(rest)[1..]
  {
    if p == "" {
      assert p + rest == rest;
    } else {
      var s := p + rest;
      assert s[1..] == p[1..] + rest;
      SplitPiece(p[1..], rest);
      assert !(AND <= s);
      assert [s[0]] + (p[1..] + Split(rest)[0]) == p + Split(rest)[0];
    }
  }

  lemma NoCapital(c: Clause)
    ensures 'A' !in ClauseText(c)
  {
    ClauseClean(c);
    if !c.Unexpired? {
      assert 'A' !in Decimal(c.index);
    }
  }

  function Texts(cs: seq<Clause>): (r: seq<string>)
    ensures |r| == |cs|
  {
    if cs == [] then [] else [ClauseText(cs[0])] + Texts(cs[1..])
  }

  lemma {:induction false} SplitRender(cs: seq<Clause>)
    requires cs != []
    ensures Split(Render(cs)) == Texts(cs)
  {
    var p := ClauseText(cs[0]);
    NoCapital(cs[0]);
    if |cs| == 1 {
      SplitPiece(p, "");
      assert p + "" == p;
    } else {
      var rest := AND + Render(cs[1..]);
      SplitPiece(p, rest);
      assert rest[|AND|..] == Render(cs[1..]);
      SplitRender(cs[1..]);
      assert p + "" == p;
    }
  }

  lemma DollarAt(prefix: string, tail: string)
    requires '$' !in prefix
    ensures IndexOf(prefix + "$" + tail, '$') == Some(|prefix|)
    ensures (prefix + "$" + tail)[..|prefix|] == prefix && (prefix + "$" + tail)[|prefix| + 1..] == tail
  {
    var s := prefix + "$" + tail;
    assert s[|prefix|] == '$';
    assert forall i | 0 <= i < |prefix| :: s[i] == prefix[i];
  }

  lemma ColumnOfText(c: Column)
    ensures ColumnOf(ColumnText(c)) == Some(c)
    ensures ColumnText(c) != TAGS && ColumnText(c) != ENTRY && TAGS != ENTRY
  {
    assert |"status = "| == 9 && |"kind = "| == 7 && |"owner = "| == 8 && |"parent_id = "| == 12;
    assert |"trace_id = "| == 11 && |"namespace_id = "| == 15 && |"queue = "| == 8 && |TAGS| == 8 && |ENTRY| == 12;
    assert "owner = "[0] == 'o' && "queue = "[0] == 'q' && TAGS[0] == 't' && "parent_id = "[0] == 'p' && ENTRY[0] == 'm';
  }

  lemma ParseClauseText(c: Clause)
    ensures ParseClause(ClauseText(c)) == Some(c)
  {
    ClauseClean(c);
    if !c.Unexpired? {
      DecimalRoundTrip(c.index);
    }
    match c
    case Unexpired =>
    case Equals(column, index) =>
      assert ClauseText(c) == ColumnText(column) + "$" + Decimal(index);
      DollarAt(ColumnText(column), Decimal(index));
      ColumnOfText(column);
    case HasTags(index) =>
      assert ClauseText(c) == TAGS + "$" + Decimal(index);
      DollarAt(TAGS, Decimal(index));
      ColumnOfText(StatusColumn);
    case HasEntry(index) =>
      var tail := Decimal(index) + JSONB;
      assert ClauseText(c) == ENTRY + "$" + tail;
      DollarAt(ENTRY, tail);
      assert tail[..|tail| - |JSONB|] == Decimal(index) && tail[|tail| - |JSONB|..] == JSONB;
  }

  lemma {:induction false} ParseTexts(cs: seq<Clause>)
    ensures ParseAll(Texts(cs)) == Some(cs)
  {
    if cs != [] {
      ParseClauseText(cs[0]);
      ParseTexts(cs[1..]);
      assert Texts(cs)[1..] == Texts(cs[1..]);
      assert [cs[0]] + cs[1..] == cs;
    }
  }

  /** The text says exactly what was put into it. */
  lemma ParseRender(cs: seq<Clause>)
    requires cs != []
    ensures Parse(Render(cs)) == Some(cs)
  {
    SplitRender(cs);
    ParseTexts(cs);
  }
}

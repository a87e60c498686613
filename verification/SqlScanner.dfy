/**
 * The migration loader's statement counter: a one-pass scanner over SQL text with quotes, comments and
 * dollar quotes. `word` stands for Unicode letters and digits; the results hold for any such class that
 * does not contain ";". Text is a sequence of bytes, as the scanner reads it.
 */
module SqlScanner {
  import opened Text

  type CharClass = char -> bool

  datatype Mode = Plain | LineComment | BlockComment(depth: nat) | DollarQuote(tag: string)

  /** Statements finished so far, whether the current one has content, and what the scanner is inside of. */
  datatype State = State(count: nat, hasContent: bool, mode: Mode)

  /** One scanner step: characters consumed and the next state, or an unterminated quote. */
  datatype Step = Consumed(n: nat, next: State) | Unterminated

  predicate StartsWith(s: string, p: string) {
    |p| <= |s| && s[..|p|] == p
  }

  /** The length of the quoted string at the start of `s`; doubled quotes stay inside. */
  function QuotedLength(s: string, quote: char): Option<nat>
    requires s != "" && s[0] == quote
  {
    var inner := AfterQuote(s[1..], quote);
    if inner.Some? then Some(inner.value + 1) else None
  }

  function AfterQuote(s: string, quote: char): (r: Option<nat>)
    ensures r.Some? ==> 0 < r.value <= |s|
  {
    if s == "" then None
    else if s[0] != quote then Plus(1, AfterQuote(s[1..], quote))
    else if |s| > 1 && s[1] == quote then Plus(2, AfterQuote(s[2..], quote))
    else Some(1)
  }

  predicate AllWord(s: string, word: CharClass) {
    forall i | 0 <= i < |s| :: word(s[i]) || s[i] == '_'
  }

  /** "$tag$" at the start of `s`, if there is one. */
  function DollarTag(s: string, word: CharClass): (r: Option<string>)
    requires s != "" && s[0] == '$'
    ensures r.Some? ==> 2 <= |r.value| <= |s| && r.value == s[..|r.value|] && r.value[|r.value| - 1] == '$'
    ensures r.Some? ==> AllWord(r.value[1..|r.value| - 1], word)
  {
    var end := IndexOf(s[1..], '$');
    if end.None? then None
    else if AllWord(s[1..end.value + 1], word) then
      assert s[..end.value + 2][1..end.value + 1] == s[1..end.value + 1];
      Some(s[..end.value + 2])
    else None
  }

  function ScanQuote(s: string, st: State, quote: char): Step
    requires s != "" && s[0] == quote
  {
    var n := QuotedLength(s, quote);
    if n.None? then Unterminated else Consumed(n.value, st.(hasContent := true))
  }

  function ScanPlain(s: string, st: State, word: CharClass): Step
    requires s != ""
  {
    if StartsWith(s, "--") then Consumed(2, st.(mode := LineComment))
    else if StartsWith(s, "/*") then Consumed(2, st.(mode := BlockComment(1)))
    else if s[0] == '\'' then ScanQuote(s, st, '\'')
    else if s[0] == '"' then ScanQuote(s, st, '"')
    else if s[0] == '$' then
      var tag := DollarTag(s, word);
      if tag.Some? then Consumed(|tag.value|, st.(hasContent := true, mode := DollarQuote(tag.value)))
      else Consumed(1, st.(hasContent := true))
    else if s[0] == ';' then
      Consumed(1, if st.hasContent then st.(count := st.count + 1, hasContent := false) else st)
    else Consumed(1, if IsSpace(s[0]) then st else st.(hasContent := true))
  }

  function Scan1(s: string, st: State, word: CharClass): (r: Step)
    requires s != ""
    ensures r.Consumed? && ModeOk(st.mode) ==> 0 < r.n <= |s| && ModeOk(r.next.mode)
  {
    match st.mode
    case LineComment => Consumed(1, if s[0] == '\n' then st.(mode := Plain) else st)
    case BlockComment(depth) =>
      if StartsWith(s, "/*") then Consumed(2, st.(mode := BlockComment(depth + 1)))
      else if StartsWith(s, "*/") then Consumed(2, st.(mode := if depth <= 1 then Plain else BlockComment(depth - 1)))
      else Consumed(1, st)
    case DollarQuote(tag) =>
      if StartsWith(s, tag) then Consumed(|tag|, st.(mode := Plain)) else Consumed(1, st)
    case Plain => ScanPlain(s, st, word)
  }

  predicate ModeOk(m: Mode) {
    (m.DollarQuote? ==> |m.tag| >= 2) && (m.BlockComment? ==> m.depth > 0)
  }

  /** Scan to the end of the text. */
  function ScanAll(s: string, st: State, word: CharClass): Option<State>
    requires ModeOk(st.mode)
    decreases |s|
  {
    if s == "" then Some(st)
    else
      var r := Scan1(s, st, word);
      if r.Unterminated? then None else ScanAll(s[r.n..], r.next, word)
  }

  const START := State(0, false, Plain)

  /** Nothing may be left open; trailing content counts as a statement. */
  function Finish(st: Option<State>): Option<nat> {
    if st.None? || st.value.mode != Plain then None
    else Some(st.value.count + if st.value.hasContent then 1 else 0)
  }

  function CountStatements(s: string, word: CharClass): Option<nat> {
    Finish(ScanAll(s, START, word))
  }

  lemma ScanAllStep(s: string, st: State, word: CharClass)
    requires ModeOk(st.mode) && s != ""
    ensures ScanAll(s, st, word) ==
              var r := Scan1(s, st, word);
              if r.Unterminated? then None else ScanAll(s[r.n..], r.next, word)
  {
  }

  /** countTopLevelSQLStatements; None stands for its error. */
  method CountTopLevelStatements(sql: string, word: CharClass) returns (count: Option<nat>)
    ensures count == CountStatements(sql, word)
  {
    var end := ScanFrom(sql, START, word);
    return Finish(end);
  }

  /** The scanner's loop, from any state. */
  method ScanFrom(sql: string, init: State, word: CharClass) returns (end: Option<State>)
    requires ModeOk(init.mode)
    ensures end == ScanAll(sql, init, word)
  {
    hide Scan1;
    ghost var goal := ScanAll(sql, init, word);
    var st, i := init, 0;
    assert sql[0..] == sql;
    while i < |sql|
      invariant i <= |sql| && ModeOk(st.mode)
      invariant ScanAll(sql[i..], st, word) == goal
    {
      var step := OneStep(sql, i, st, word);
      ScanAllStep(sql[i..], st, word);
      if step.Unterminated? {
        return None;
      }
      assert sql[i..][step.n..] == sql[i + step.n..];
      i, st := i + step.n, step.next;
    }
    return Some(st);
  }

  /** The body of the loop: what happens inside comments and dollar quotes, and outside of them. */
  method OneStep(sql: string, i: nat, st: State, word: CharClass) returns (step: Step)
    requires i < |sql|
    ensures step == Scan1(sql[i..], st, word)
  {
    var rest := sql[i..];
    match st.mode {
      case LineComment =>
        if sql[i] == '\n' {
          step := Consumed(1, st.(mode := Plain));
        } else {
          step := Consumed(1, st);
        }
      case BlockComment(depth) =>
        if StartsWith(rest, "/*") {
          step := Consumed(2, st.(mode := BlockComment(depth + 1)));
        } else if StartsWith(rest, "*/") {
          step := Consumed(2, st.(mode := if depth <= 1 then Plain else BlockComment(depth - 1)));
        } else {
          step := Consumed(1, st);
        }
      case DollarQuote(tag) =>
        if StartsWith(rest, tag) {
          step := Consumed(|tag|, st.(mode := Plain));
        } else {
          step := Consumed(1, st);
        }
      case Plain =>
        step := PlainStep(sql, i, st, word);
    }
  }

  method PlainStep(sql: string, i: nat, st: State, word: CharClass) returns (step: Step)
    requires i < |sql|
    ensures step == ScanPlain(sql[i..], st, word)
  {
    var rest := sql[i..];
    if StartsWith(rest, "--") {
      return Consumed(2, st.(mode := LineComment));
    }
    if StartsWith(rest, "/*") {
      return Consumed(2, st.(mode := BlockComment(1)));
    }
    var next := st;
    if sql[i] == '\'' || sql[i] == '"' {
      next := next.(hasContent := true);
      var end := ScanQuotedString(sql, i, sql[i]);
      return if end.None? then Unterminated else Consumed(end.value - i, next);
    }
    if sql[i] == '$' {
      next := next.(hasContent := true);
      var tag := DollarTag(rest, word);
      return if tag.Some? then Consumed(|tag.value|, next.(mode := DollarQuote(tag.value))) else Consumed(1, next);
    }
    if sql[i] == ';' {
      if next.hasContent {
        next := next.(count := next.count + 1, hasContent := false);
      }
    } else if !IsSpace(sql[i]) {
      next := next.(hasContent := true);
    }
    return Consumed(1, next);
  }

  /** scanQuotedString: from the opening quote to just past the closing one. */
  method ScanQuotedString(sql: string, start: nat, quote: char) returns (end: Option<nat>)
    requires start < |sql| && sql[start] == quote
    ensures end == Plus(start, QuotedLength(sql[start..], quote))
    ensures end.Some? ==> end.value > start
  {
    var i := start + 1;
    assert sql[start..][1..] == sql[i..];
    while i < |sql|
      invariant start < i <= |sql|
      invariant Plus(i, AfterQuote(sql[i..], quote)) == Plus(start + 1, AfterQuote(sql[start + 1..], quote))
    {
      var rest := sql[i..];
      if sql[i] != quote {
        assert rest[1..] == sql[i + 1..];
        i := i + 1;
      } else if i + 1 < |sql| && sql[i + 1] == quote {
        assert rest[2..] == sql[i + 2..];
        i := i + 2;
      } else {
        return Some(i + 1);
      }
    }
    return None;
  }

  // ----- Composition -----

  /** A tag never holds ";", so text that starts with one cannot complete it. */
  predicate TagOk(m: Mode, word: CharClass) {
    m.DollarQuote? ==> |m.tag| >= 2 && m.tag[0] == '$' && m.tag[|m.tag| - 1] == '$' && AllWord(m.tag[1..|m.tag| - 1], word)
  }

  lemma {:induction false} AfterQuoteStable(s: string, t: string, quote: char)
    requires AfterQuote(s, quote).Some? && t != "" && t[0] != quote
    ensures AfterQuote(s + t, quote) == AfterQuote(s, quote)
  {
    if s[0] != quote {
      assert (s + t)[1..] == s[1..] + t;
      AfterQuoteStable(s[1..], t, quote);
    } else if |s| > 1 && s[1] == quote {
      assert (s + t)[2..] == s[2..] + t;
      AfterQuoteStable(s[2..], t, quote);
    }
  }

  lemma StartsWithStable(s: string, t: string, p: string)
    requires t != "" && forall i | 0 <= i < |p| :: p[i] != t[0]
    ensures StartsWith(s + t, p) == StartsWith(s, p)
  {
    if |p| <= |s| {
      assert (s + t)[..|p|] == s[..|p|];
    } else if |p| <= |s + t| {
      assert (s + t)[..|p|][|s|] == t[0];
    }
  }

  lemma IndexOfAppend(s: string, t: string, c: char)
    ensures IndexOf(s, c).Some? ==> IndexOf(s + t, c) == IndexOf(s, c)
    ensures IndexOf(s, c).None? && IndexOf(s + t, c).Some? ==> IndexOf(s + t, c).value >= |s|
  {
    var u, v := IndexOf(s, c), IndexOf(s + t, c);
    assert forall i | 0 <= i < |s| :: (s + t)[i] == s[i];
    if u.Some? {
      assert (s + t)[u.value] == c;
    }
  }

  lemma DollarTagStable(s: string, t: string, word: CharClass)
    requires s != "" && s[0] == '$' && t != "" && t[0] == ';' && !word(';')
    ensures DollarTag(s + t, word) == DollarTag(s, word)
  {
    var u := s + t;
    assert u[1..] == s[1..] + t;
    IndexOfAppend(s[1..], t, '$');
    var end := IndexOf(u[1..], '$');
    if IndexOf(s[1..], '$').Some? {
      assert u[1..end.value + 1] == s[1..end.value + 1];
      assert u[..end.value + 2] == s[..end.value + 2];
    } else if end.Some? {
      assert u[1..end.value + 1][|s| - 1] == ';';
    }
  }

  lemma TagHasNoSemicolon(tag: string, word: CharClass)
    requires !word(';') && TagOk(DollarQuote(tag), word)
    ensures forall i | 0 <= i < |tag| :: tag[i] != ';'
  {
    forall i | 0 <= i < |tag| ensures tag[i] != ';' {
      if 0 < i < |tag| - 1 {
        assert tag[i] == tag[1..|tag| - 1][i - 1];
      }
    }
  }

  lemma QuoteStable(s: string, t: string, st: State, quote: char)
    requires s != "" && s[0] == quote && t != "" && t[0] != quote
    requires ScanQuote(s, st, quote).Consumed?
    ensures (s + t)[0] == quote && ScanQuote(s + t, st, quote) == ScanQuote(s, st, quote)
  {
    assert (s + t)[1..] == s[1..] + t;
    AfterQuoteStable(s[1..], t, quote);
  }

  lemma PlainStable(s: string, t: string, st: State, word: CharClass)
    requires s != "" && t != "" && t[0] == ';' && !word(';')
    requires TagOk(st.mode, word) && ScanPlain(s, st, word).Consumed?
    ensures ScanPlain(s + t, st, word) == ScanPlain(s, st, word) && TagOk(ScanPlain(s, st, word).next.mode, word)
  {
    hide ScanQuote, DollarTag, StartsWith;
    StartsWithStable(s, t, "--");
    StartsWithStable(s, t, "/*");
    assert (s + t)[0] == s[0];
    if StartsWith(s, "--") || StartsWith(s, "/*") {
    } else if s[0] == '\'' || s[0] == '"' {
      QuoteStable(s, t, st, s[0]);
      QuoteKeepsMode(s, st, s[0]);
    } else if s[0] == '$' {
      DollarTagStable(s, t, word);
    }
  }

  lemma QuoteKeepsMode(s: string, st: State, quote: char)
    requires s != "" && s[0] == quote && ScanQuote(s, st, quote).Consumed?
    ensures ScanQuote(s, st, quote).next.mode == st.mode
  {
  }

  /** A step that succeeds on `s` is the same step with ";..." appended. */
  lemma Scan1Stable(s: string, t: string, st: State, word: CharClass)
    requires s != "" && t != "" && t[0] == ';' && !word(';')
    requires TagOk(st.mode, word) && Scan1(s, st, word).Consumed?
    ensures Scan1(s + t, st, word) == Scan1(s, st, word) && TagOk(Scan1(s, st, word).next.mode, word)
  {
    hide ScanPlain, StartsWith;
    assert (s + t)[0] == s[0];
    match st.mode
    case DollarQuote(tag) =>
      TagHasNoSemicolon(tag, word);
      StartsWithStable(s, t, tag);
    case BlockComment(_) =>
      StartsWithStable(s, t, "/*");
      StartsWithStable(s, t, "*/");
    case Plain =>
      PlainStable(s, t, st, word);
    case LineComment =>
  }

  lemma {:induction false} ScanAllAppend(s: string, t: string, st: State, word: CharClass)
    requires t != "" && t[0] == ';' && !word(';') && ModeOk(st.mode) && TagOk(st.mode, word)
    requires ScanAll(s, st, word).Some?
    ensures ModeOk(ScanAll(s, st, word).value.mode)
    ensures ScanAll(s + t, st, word) == ScanAll(t, ScanAll(s, st, word).value, word)
    decreases |s|
  {
    if s == "" {
      assert s + t == t;
    } else {
      var r := Scan1(s, st, word);
      Scan1Stable(s, t, st, word);
      assert (s + t)[r.n..] == s[r.n..] + t;
      ScanAllAppend(s[r.n..], t, r.next, word);
    }
  }

  function Later(st: State, k: nat): State {
    st.(count := st.count + k)
  }

  lemma Scan1Shifts(s: string, st: State, k: nat, word: CharClass)
    requires s != "" && ModeOk(st.mode)
    ensures var r := Scan1(s, st, word);
            Scan1(s, Later(st, k), word) == if r.Unterminated? then Unterminated else Consumed(r.n, Later(r.next, k))
  {
  }

  /** Counting only ever adds to the count it started from. */
  lemma {:induction false} CountShifts(s: string, st: State, k: nat, word: CharClass)
    requires ModeOk(st.mode)
    ensures var a := ScanAll(s, st, word);
            ScanAll(s, Later(st, k), word) == if a.None? then None else Some(Later(a.value, k))
    decreases |s|
  {
    if s != "" {
      var r := Scan1(s, st, word);
      Scan1Shifts(s, st, k, word);
      ScanAllStep(s, st, word);
      ScanAllStep(s, Later(st, k), word);
      if r.Consumed? {
        CountShifts(s[r.n..], r.next, k, word);
      }
    }
  }

  lemma OtherStart(s: string, p: string)
    requires s != "" && p != "" && s[0] != p[0]
    ensures !StartsWith(s, p)
  {
    if |p| <= |s| {
      assert s[..|p|][0] == s[0];
    }
  }

  lemma AcrossSemicolon(s: string, st: State, word: CharClass)
    requires st.mode == Plain
    ensures ScanAll(";" + s, st, word) == ScanAll(s, Later(START, Finish(Some(st)).value), word)
  {
    var t := ";" + s;
    OtherStart(t, "--");
    OtherStart(t, "/*");
    ScanAllStep(t, st, word);
    assert t[1..] == s;
  }

  lemma AdditiveFrom(s1: string, s2: string, st: State, word: CharClass)
    requires !word(';') && st.mode == Plain
    requires Finish(ScanAll(s1, st, word)).Some?
    ensures ScanAll(s1 + (";" + s2), st, word)
         == ScanAll(s2, Later(START, Finish(ScanAll(s1, st, word)).value), word)
  {
    var mid := ScanAll(s1, st, word);
    ScanAllAppend(s1, ";" + s2, st, word);
    AcrossSemicolon(s2, mid.value, word);
  }

  /** Joining two scripts with ";" adds their statement counts. */
  lemma CountIsAdditive(s1: string, s2: string, word: CharClass)
    requires !word(';') && CountStatements(s1, word).Some? && CountStatements(s2, word).Some?
    ensures CountStatements(s1 + ";" + s2, word) == Some(CountStatements(s1, word).value + CountStatements(s2, word).value)
  {
    hide Scan1;
    assert s1 + ";" + s2 == s1 + (";" + s2);
    AdditiveFrom(s1, s2, START, word);
    CountShifts(s2, START, CountStatements(s1, word).value, word);
  }

  // ----- Quoting -----

  /** strings.ReplaceAll(value, q, qq). */
  function Doubled(value: string, quote: char): string {
    if value == "" then ""
    else (if value[0] == quote then [quote, quote] else [value[0]]) + Doubled(value[1..], quote)
  }

  /** pgQuoteLiteral with quote ', pgQuoteIdentifier with quote ". */
  function Quoted(value: string, quote: char): string {
    [quote] + Doubled(value, quote) + [quote]
  }

  lemma {:induction false} AfterDoubled(value: string, quote: char, rest: string)
    ensures AfterQuote(Doubled(value, quote) + ([quote] + rest), quote)
         == Plus(|Doubled(value, quote)|, AfterQuote([quote] + rest, quote))
  {
    var d, tail := Doubled(value, quote), [quote] + rest;
    if value == "" {
      assert d + tail == tail;
    } else {
      AfterDoubled(value[1..], quote, rest);
      var d' := Doubled(value[1..], quote);
      if value[0] == quote {
        assert d + tail == [quote, quote] + (d' + tail);
        assert (d + tail)[2..] == d' + tail;
      } else {
        assert d + tail == [value[0]] + (d' + tail);
        assert (d + tail)[1..] == d' + tail;
      }
    }
  }

  /** A quoted value scans as one string that ends at its own closing quote, exactly when no quote follows it. */
  lemma QuotedScansExactly(value: string, quote: char, rest: string)
    ensures QuotedLength(Quoted(value, quote) + rest, quote) == Some(|Quoted(value, quote)|)
       <==> !(rest != "" && rest[0] == quote)
  {
    var s := Quoted(value, quote) + rest;
    assert s[1..] == Doubled(value, quote) + ([quote] + rest);
    AfterDoubled(value, quote, rest);
    assert ([quote] + rest)[1..] == rest;
  }

  /** Whatever the value, its quoted form is one complete statement to the scanner. */
  lemma QuotedIsOneStatement(value: string, quote: char, word: CharClass)
    requires quote == '\'' || quote == '"'
    ensures CountStatements(Quoted(value, quote), word) == Some(1)
  {
    var s := Quoted(value, quote);
    QuotedScansExactly(value, quote, "");
    assert s + "" == s;
    OtherStart(s, "--");
    OtherStart(s, "/*");
    ScanAllStep(s, START, word);
    assert s[|s|..] == "";
  }
}

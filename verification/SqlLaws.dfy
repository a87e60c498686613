/**
 * What the statement counter makes of SQL text, said without the scanner: comments and white space are
 * invisible, dollar-quoted bodies and plain words are content, and whatever is left open is an error.
 */
module SqlLaws {
  import opened Text
  import opened SqlScanner

  const DASHES := "--"
  const OPEN := "/*"
  const CLOSE := "*/"

  function Content(st: State): State {
    st.(hasContent := true)
  }

  /** One step, on text split into what is read and what is left. */
  lemma Read(a: string, s: string, st: State, next: State, word: CharClass)
    requires ModeOk(st.mode) && a != "" && Scan1(a + s, st, word) == Consumed(|a|, next)
    ensures ModeOk(next.mode) && ScanAll(a + s, st, word) == ScanAll(s, next, word)
  {
    hide Scan1, ScanPlain;
    ScanAllStep(a + s, st, word);
    assert (a + s)[|a|..] == s;
  }

  lemma Starts(a: string, s: string)
    ensures StartsWith(a + s, a)
  {
    assert (a + s)[..|a|] == a;
  }

  // ----- Line comments -----

  lemma {:induction false} InLineComment(c: string, s: string, st: State, word: CharClass)
    requires st.mode == LineComment && '\n' !in c
    ensures ScanAll(c + ("\n" + s), st, word) == ScanAll(s, st.(mode := Plain), word)
    decreases |c|
  {
    hide ScanAll;
    if c == "" {
      assert c + ("\n" + s) == "\n" + s;
      Read("\n", s, st, st.(mode := Plain), word);
    } else {
      assert c + ("\n" + s) == [c[0]] + (c[1..] + ("\n" + s));
      Read([c[0]], c[1..] + ("\n" + s), st, st, word);
      InLineComment(c[1..], s, st, word);
    }
  }

  lemma OpenLineComment(s: string, st: State, word: CharClass)
    requires st.mode == Plain
    ensures ScanAll(DASHES + s, st, word) == ScanAll(s, st.(mode := LineComment), word)
  {
    hide ScanAll, StartsWith;
    Starts(DASHES, s);
    Read(DASHES, s, st, st.(mode := LineComment), word);
  }

  lemma LineCommentSkipped(c: string, s: string, st: State, word: CharClass)
    requires st.mode == Plain && '\n' !in c
    ensures ScanAll(DASHES + (c + ("\n" + s)), st, word) == ScanAll(s, st, word)
  {
    hide ScanAll;
    OpenLineComment(c + ("\n" + s), st, word);
    InLineComment(c, s, st.(mode := LineComment), word);
  }

  /** A line comment is invisible. */
  lemma LineCommentInvisible(c: string, s: string, word: CharClass)
    requires '\n' !in c
    ensures CountStatements(DASHES + c + "\n" + s, word) == CountStatements(s, word)
  {
    hide ScanAll;
    assert DASHES + c + "\n" + s == DASHES + (c + ("\n" + s));
    LineCommentSkipped(c, s, START, word);
  }

  lemma {:induction false} NoNewline(c: string, st: State, word: CharClass)
    requires st.mode == LineComment && '\n' !in c
    ensures ScanAll(c, st, word) == Some(st)
  {
    if c != "" {
      NoNewline(c[1..], st, word);
      assert c == [c[0]] + c[1..];
      Read([c[0]], c[1..], st, st, word);
    }
  }

  /** One that the text ends in, without a line break, is an error. */
  lemma LineCommentNeedsNewline(c: string, word: CharClass)
    requires '\n' !in c
    ensures CountStatements(DASHES + c, word) == None
  {
    hide ScanAll;
    OpenLineComment(c, START, word);
    NoNewline(c, START.(mode := LineComment), word);
  }

  // ----- Block comments -----

  /** The inside of a block comment: characters and comments within it. */
  datatype Body = End | Chars(text: string, rest: Body) | Inner(inner: Body, rest: Body)

  /** Text that neither opens nor closes a comment, read with what stands behind it. */
  predicate Quiet(t: string, behind: string) {
    forall i | 0 <= i < |t| :: !StartsWith((t + behind)[i..], OPEN) && !StartsWith((t + behind)[i..], CLOSE)
  }

  /** Every comment inside is closed, and the characters in between stay characters. */
  predicate BodyOk(b: Body, behind: string) {
    match b
    case End => true
    case Chars(text, rest) => Quiet(text, BodyText(rest) + behind) && BodyOk(rest, behind)
    case Inner(inner, rest) => BodyOk(inner, CLOSE) && BodyOk(rest, behind)
  }

  function BodyText(b: Body): string {
    match b
    case End => ""
    case Chars(text, rest) => text + BodyText(rest)
    case Inner(inner, rest) => OPEN + (BodyText(inner) + (CLOSE + BodyText(rest)))
  }

  lemma TwoChars(s: string, p: string)
    requires |p| == 2
    ensures StartsWith(s, p) <==> |s| > 1 && s[0] == p[0] && s[1] == p[1]
  {
    if |s| > 1 {
      assert s[..2][0] == s[0] && s[..2][1] == s[1];
    }
  }

  lemma {:induction false} QuietSkipped(t: string, behind: string, s: string, st: State, word: CharClass)
    requires st.mode.BlockComment? && st.mode.depth > 0 && Quiet(t, behind) && (behind != "" || s == "")
    ensures ScanAll(t + (behind + s), st, word) == ScanAll(behind + s, st, word)
    decreases |t|
  {
    hide ScanAll, StartsWith;
    if t == "" {
      assert t + (behind + s) == behind + s;
    } else {
      var u, rest := t + (behind + s), t[1..];
      var v := t + behind;
      assert v[0..] == v;
      assert |v| > 1 ==> u[1] == v[1];
      TwoChars(u, OPEN);
      TwoChars(u, CLOSE);
      TwoChars(v, OPEN);
      TwoChars(v, CLOSE);
      assert u == [t[0]] + (rest + (behind + s));
      Read([t[0]], rest + (behind + s), st, st, word);
      forall i | 0 <= i < |rest| ensures !StartsWith((rest + behind)[i..], OPEN) && !StartsWith((rest + behind)[i..], CLOSE) {
        assert (rest + behind)[i..] == v[i + 1..];
      }
      QuietSkipped(rest, behind, s, st, word);
    }
  }

  function Depth(st: State, d: nat): State {
    st.(mode := BlockComment(d))
  }

  lemma OpenInner(s: string, st: State, d: nat, word: CharClass)
    requires d > 0
    ensures ScanAll(OPEN + s, Depth(st, d), word) == ScanAll(s, Depth(st, d + 1), word)
  {
    hide ScanAll, StartsWith;
    Starts(OPEN, s);
    Read(OPEN, s, Depth(st, d), Depth(st, d + 1), word);
  }

  lemma CloseInner(s: string, st: State, d: nat, word: CharClass)
    requires d > 0
    ensures ScanAll(CLOSE + s, Depth(st, d + 1), word) == ScanAll(s, Depth(st, d), word)
    ensures ScanAll(CLOSE + s, Depth(st, 1), word) == ScanAll(s, st.(mode := Plain), word)
  {
    hide ScanAll, StartsWith;
    Starts(CLOSE, s);
    TwoChars(CLOSE + s, OPEN);
    Read(CLOSE, s, Depth(st, d + 1), Depth(st, d), word);
    Read(CLOSE, s, Depth(st, 1), st.(mode := Plain), word);
  }

  lemma {:induction false} BodySkipped(b: Body, d: nat, behind: string, s: string, st: State, word: CharClass)
    requires d > 0 && BodyOk(b, behind) && (behind != "" || s == "")
    ensures ScanAll(BodyText(b) + (behind + s), Depth(st, d), word) == ScanAll(behind + s, Depth(st, d), word)
    decreases b
  {
    hide ScanAll, Quiet;
    match b
    case End =>
      assert BodyText(b) + (behind + s) == behind + s;
    case Chars(text, rest) =>
      assert BodyText(b) + (behind + s) == text + ((BodyText(rest) + behind) + s);
      QuietSkipped(text, BodyText(rest) + behind, s, Depth(st, d), word);
      assert (BodyText(rest) + behind) + s == BodyText(rest) + (behind + s);
      BodySkipped(rest, d, behind, s, st, word);
    case Inner(inner, rest) =>
      var tail := BodyText(rest) + (behind + s);
      assert BodyText(b) + (behind + s) == OPEN + (BodyText(inner) + (CLOSE + tail));
      OpenInner(BodyText(inner) + (CLOSE + tail), st, d, word);
      BodySkipped(inner, d + 1, CLOSE, tail, st, word);
      CloseInner(tail, st, d, word);
      BodySkipped(rest, d, behind, s, st, word);
  }

  lemma OpenBlock(s: string, st: State, word: CharClass)
    requires st.mode == Plain
    ensures ScanAll(OPEN + s, st, word) == ScanAll(s, Depth(st, 1), word)
  {
    hide ScanAll, StartsWith;
    Starts(OPEN, s);
    TwoChars(OPEN + s, DASHES);
    Read(OPEN, s, st, Depth(st, 1), word);
  }

  lemma BlockSkipped(b: Body, s: string, st: State, word: CharClass)
    requires st.mode == Plain && BodyOk(b, CLOSE)
    ensures ScanAll(OPEN + (BodyText(b) + (CLOSE + s)), st, word) == ScanAll(s, st, word)
  {
    hide ScanAll;
    OpenBlock(BodyText(b) + (CLOSE + s), st, word);
    BodySkipped(b, 1, CLOSE, s, st, word);
    CloseInner(s, st, 1, word);
  }

  /** A block comment with its nested comments is invisible. */
  lemma BlockCommentInvisible(b: Body, s: string, word: CharClass)
    requires BodyOk(b, CLOSE)
    ensures CountStatements(OPEN + BodyText(b) + CLOSE + s, word) == CountStatements(s, word)
  {
    hide ScanAll;
    assert OPEN + BodyText(b) + CLOSE + s == OPEN + (BodyText(b) + (CLOSE + s));
    BlockSkipped(b, s, START, word);
  }

  /** One that is never closed is an error. */
  lemma BlockCommentNeedsClosing(b: Body, word: CharClass)
    requires BodyOk(b, "")
    ensures CountStatements(OPEN + BodyText(b), word) == None
  {
    hide ScanAll;
    OpenBlock(BodyText(b), START, word);
    BodySkipped(b, 1, "", "", START, word);
    assert BodyText(b) + ("" + "") == BodyText(b);
    Nothing(Depth(START, 1), word);
  }

  lemma Nothing(st: State, word: CharClass)
    requires ModeOk(st.mode)
    ensures ScanAll("", st, word) == Some(st)
  {
  }

  // ----- White space and words -----

  /** A character that is read on its own: no quote, no dollar, no semicolon. */
  predicate Ordinary(c: char) {
    c != '\'' && c != '"' && c != '$' && c != ';'
  }

  /** Ordinary characters that start no comment, whatever stands behind them. */
  predicate Words(t: string) {
    && (forall i | 0 <= i < |t| :: Ordinary(t[i]))
    && (forall i | 0 <= i < |t| - 1 :: !(t[i] == '-' && t[i + 1] == '-') && !(t[i] == '/' && t[i + 1] == '*'))
    && (t != "" ==> t[|t| - 1] != '-' && t[|t| - 1] != '/')
  }

  /** Space, tab, line feed, vertical tab, form feed, carriage return, next line, no-break space. */
  predicate IsBlank(c: char) {
    c in [' ', '\t', '\n', 11 as char, 12 as char, '\r', 0x85 as char, 0xA0 as char]
  }

  predicate Blank(t: string) {
    forall i | 0 <= i < |t| :: IsBlank(t[i])
  }

  lemma BlankIsSpace(c: char)
    ensures IsSpace(c) <==> IsBlank(c)
  {
  }

  lemma WordsTail(t: string)
    requires t != "" && Words(t)
    ensures Words(t[1..])
  {
    var u := t[1..];
    forall i | 0 <= i < |u| ensures Ordinary(u[i]) {
      assert u[i] == t[i + 1];
    }
    forall i | 0 <= i < |u| - 1 ensures !(u[i] == '-' && u[i + 1] == '-') && !(u[i] == '/' && u[i + 1] == '*') {
      assert u[i] == t[i + 1] && u[i + 1] == t[i + 2];
    }
  }

  lemma {:induction false} WordsRead(t: string, s: string, st: State, word: CharClass)
    requires st.mode == Plain && Words(t)
    ensures ScanAll(t + s, st, word) == ScanAll(s, if Blank(t) then st else Content(st), word)
    decreases |t|
  {
    hide ScanAll, StartsWith, IsSpace, IsBlank;
    if t == "" {
      assert t + s == s;
    } else {
      var u, rest := t + s, t[1..];
      TwoChars(u, DASHES);
      TwoChars(u, OPEN);
      assert |t| > 1 ==> u[1] == t[1];
      assert Ordinary(t[0]) && u == [t[0]] + (rest + s);
      BlankIsSpace(t[0]);
      var next := if IsBlank(t[0]) then st else Content(st);
      Read([t[0]], rest + s, st, next, word);
      WordsTail(t);
      WordsRead(rest, s, next, word);
      assert Blank(t) <==> IsBlank(t[0]) && Blank(rest) by {
        assert t == [t[0]] + rest;
      }
    }
  }

  /** White space is invisible. */
  lemma BlankInvisible(t: string, s: string, word: CharClass)
    requires Blank(t)
    ensures CountStatements(t + s, word) == CountStatements(s, word)
  {
    hide ScanAll;
    forall i | 0 <= i < |t| ensures Ordinary(t[i]) && t[i] != '-' && t[i] != '/' {
      assert IsBlank(t[i]);
    }
    WordsRead(t, s, START, word);
  }

  /** Text of words is one statement, unless it is all blank. */
  lemma WordsAreOneStatement(t: string, word: CharClass)
    requires Words(t)
    ensures CountStatements(t, word) == Some(if Blank(t) then 0 else 1)
  {
    hide ScanAll;
    WordsRead(t, "", START, word);
    assert t + "" == t;
    Nothing(START, word);
    Nothing(Content(START), word);
  }

  // ----- Dollar quotes -----

  predicate IsTag(tag: string, word: CharClass) {
    && |tag| >= 2 && tag[0] == '$' && tag[|tag| - 1] == '$'
    && '$' !in tag[1..|tag| - 1] && AllWord(tag[1..|tag| - 1], word)
  }

  /** The tag does not show up anywhere in the body, nor across the body's end. */
  predicate Free(body: string, tag: string) {
    forall i | 0 <= i < |body| :: !StartsWith((body + tag)[i..], tag)
  }

  lemma TagFound(tag: string, s: string, word: CharClass)
    requires IsTag(tag, word)
    ensures DollarTag(tag + s, word) == Some(tag)
  {
    var u := tag + s;
    var name := tag[1..|tag| - 1];
    assert u[1..] == name + ("$" + s);
    var end := IndexOf(u[1..], '$');
    assert u[1..][|name|] == '$';
    assert forall i | 0 <= i < |name| :: u[1..][i] == name[i];
    assert end == Some(|name|);
    assert u[1..|name| + 1] == name && u[..|name| + 2] == tag;
  }

  lemma OpenDollar(tag: string, s: string, st: State, word: CharClass)
    requires st.mode == Plain && IsTag(tag, word)
    ensures ScanAll(tag + s, st, word) == ScanAll(s, Content(st).(mode := DollarQuote(tag)), word)
  {
    hide ScanAll, StartsWith, DollarTag, IsTag;
    TagShape(tag, s, word);
    TagFound(tag, s, word);
    OtherStart(tag + s, DASHES);
    OtherStart(tag + s, OPEN);
    Read(tag, s, st, Content(st).(mode := DollarQuote(tag)), word);
  }

  lemma TagShape(tag: string, s: string, word: CharClass)
    requires IsTag(tag, word)
    ensures |tag| >= 2 && (tag + s)[0] == '$' == tag[0]
  {
  }

  lemma {:induction false} InDollar(body: string, tag: string, s: string, st: State, word: CharClass)
    requires |tag| >= 2 && st.mode == DollarQuote(tag) && Free(body, tag)
    ensures ScanAll(body + (tag + s), st, word) == ScanAll(s, st.(mode := Plain), word)
    decreases |body|
  {
    hide ScanAll, StartsWith;
    if body == "" {
      assert body + (tag + s) == tag + s;
      Starts(tag, s);
      Read(tag, s, st, st.(mode := Plain), word);
    } else {
      var u, rest := body + (tag + s), body[1..];
      assert u == [body[0]] + (rest + (tag + s));
      assert u == (body + tag) + s;
      assert (body + tag)[0..] == body + tag;
      PrefixIsEnough(body + tag, s, tag);
      Read([body[0]], rest + (tag + s), st, st, word);
      forall i | 0 <= i < |rest| ensures !StartsWith((rest + tag)[i..], tag) {
        assert (rest + tag)[i..] == (body + tag)[i + 1..];
      }
      InDollar(rest, tag, s, st, word);
    }
  }

  lemma PrefixIsEnough(a: string, s: string, p: string)
    requires |p| <= |a|
    ensures StartsWith(a + s, p) == StartsWith(a, p)
  {
    assert (a + s)[..|p|] == a[..|p|];
  }

  /** A dollar-quoted body is content, whatever it holds short of its own tag. */
  lemma DollarQuotedIsOneStatement(tag: string, body: string, word: CharClass)
    requires IsTag(tag, word) && Free(body, tag)
    ensures CountStatements(tag + body + tag, word) == Some(1)
  {
    hide ScanAll, Free, IsTag;
    var inside := Content(START).(mode := DollarQuote(tag));
    TagShape(tag, body + tag, word);
    assert tag + body + tag == tag + (body + (tag + ""));
    OpenDollar(tag, body + (tag + ""), START, word);
    InDollar(body, tag, "", inside, word);
    Nothing(inside.(mode := Plain), word);
  }

  /** The tag is nowhere in the body. */
  predicate Absent(body: string, tag: string) {
    forall i | 0 <= i < |body| :: !StartsWith(body[i..], tag)
  }

  lemma {:induction false} NeverClosed(body: string, tag: string, st: State, word: CharClass)
    requires |tag| >= 2 && st.mode == DollarQuote(tag) && Absent(body, tag)
    ensures ScanAll(body, st, word) == Some(st)
    decreases |body|
  {
    hide ScanAll, StartsWith;
    if body == "" {
      Nothing(st, word);
    } else {
      assert body[0..] == body && body == [body[0]] + body[1..];
      Read([body[0]], body[1..], st, st, word);
      forall i | 0 <= i < |body[1..]| ensures !StartsWith(body[1..][i..], tag) {
        assert body[1..][i..] == body[i + 1..];
      }
      NeverClosed(body[1..], tag, st, word);
    }
  }

  lemma DollarQuoteNeedsClosing(tag: string, body: string, word: CharClass)
    requires IsTag(tag, word) && Absent(body, tag)
    ensures CountStatements(tag + body, word) == None
  {
    hide ScanAll, Absent, IsTag;
    TagShape(tag, body, word);
    OpenDollar(tag, body, START, word);
    NeverClosed(body, tag, Content(START).(mode := DollarQuote(tag)), word);
  }

  /** A dollar sign that starts no quote is content like any other character. */
  lemma LoneDollarIsContent(s: string, st: State, word: CharClass)
    requires st.mode == Plain && '$' !in s
    ensures ScanAll("$" + s, st, word) == ScanAll(s, Content(st), word)
  {
    hide ScanAll, StartsWith;
    var u := "$" + s;
    assert u[1..] == s;
    OtherStart(u, DASHES);
    OtherStart(u, OPEN);
    Read("$", s, st, Content(st), word);
  }

  // ----- Quotes -----

  lemma {:induction false} DoubledStaysOpen(value: string, quote: char)
    ensures AfterQuote(Doubled(value, quote), quote) == None
  {
    if value != "" {
      var d, less := Doubled(value, quote), Doubled(value[1..], quote);
      DoubledStaysOpen(value[1..], quote);
      if value[0] == quote {
        assert d == [quote, quote] + less && d[2..] == less;
      } else {
        assert d == [value[0]] + less && d[1..] == less;
      }
    }
  }

  /** A quote that is never closed is an error. */
  lemma QuoteNeedsClosing(value: string, quote: char, word: CharClass)
    requires quote == '\'' || quote == '"'
    ensures CountStatements([quote] + Doubled(value, quote), word) == None
  {
    hide StartsWith;
    var s := [quote] + Doubled(value, quote);
    assert s[1..] == Doubled(value, quote);
    DoubledStaysOpen(value, quote);
    OtherStart(s, DASHES);
    OtherStart(s, OPEN);
    ScanAllStep(s, START, word);
  }

  // ----- Anywhere between statements -----

  /** What is invisible at the start of a text is invisible behind any complete statement. */
  lemma InvisibleBetweenStatements(p: string, gap: string, s: string, word: CharClass)
    requires !word(';') && CountStatements(p, word).Some?
    requires forall st: State | st.mode == Plain :: ScanAll(gap + s, st, word) == ScanAll(s, st, word)
    ensures CountStatements(p + ";" + gap + s, word) == CountStatements(p + ";" + s, word)
  {
    hide ScanAll;
    assert p + ";" + gap + s == p + (";" + (gap + s)) && p + ";" + s == p + (";" + s);
    AdditiveFrom(p, gap + s, START, word);
    AdditiveFrom(p, s, START, word);
  }
}

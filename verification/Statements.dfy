/** Statements of SQL text (src/messages.rs): `split_statements`, the keyword tests, and `parse_transaction_state`. The
    splitter only looks at ASCII characters, so the model reads characters where the source reads UTF-8 bytes. */
module Statements {
  import opened Bytes
  import opened Transactions
  import opened SqlTemplates
  import opened SqlLiterals
  import opened SqlRelexing

  /** What one turn of the splitter takes: text that stays, a comment or body that becomes a space, or a semicolon. */
  datatype Span = Shown(text: string) | Blank(text: string) | Cut

  function Raw(span: Span): string {
    if span.Cut? then ";" else span.text
  }

  function Visible(span: Span): string {
    match span
    case Shown(text) => text
    case Blank(_) => " "
    case Cut => ";"
  }

  predicate IsAlnum(c: char) {
    'A' <= c <= 'Z' || 'a' <= c <= 'z' || '0' <= c <= '9'
  }

  /** The characters that make `begin_proc` or `end_proc` part of a longer word. */
  predicate IsWord(c: char) {
    IsAlnum(c) || c == '_' || c == '$'
  }

  function Lower(c: char): char {
    if 'A' <= c <= 'Z' then c + ('a' - 'A') else c
  }

  /** `eq_ignore_ascii_case`, for a word in lower case. */
  predicate Spells(s: string, word: string) {
    |s| == |word| && forall i :: 0 <= i < |s| ==> Lower(s[i]) == word[i]
  }

  /** `find`: where `w` first occurs. */
  function Find(s: string, w: string): (p: Option<nat>)
    ensures p.Some? ==> p.value + |w| <= |s|
  {
    if w <= s then Some(0)
    else if s == [] then None
    else match Find(s[1..], w)
      case Some(p) => Some(p + 1)
      case None => None
  }

  const BEGIN_PROC := "begin_proc"
  const END_PROC := "end_proc"

  /** The first `end_proc` that is a word of its own, behind the character `prev`. */
  function FindEndProc(prev: char, s: string): (p: Option<nat>)
    ensures p.Some? ==> p.value + 8 <= |s|
    decreases |s|
  {
    if |s| < 8 then None
    else if !IsWord(prev) && Spells(s[..8], END_PROC) && (|s| == 8 || !IsWord(s[8])) then Some(0)
    else match FindEndProc(s[0], s[1..])
      case Some(p) => Some(p + 1)
      case None => None
  }

  predicate OpensProc(prev: char, s: string) {
    !IsWord(prev) && |s| >= 10 && Spells(s[..10], BEGIN_PROC)
  }

  /** Tag characters up to and including a closing dollar sign; unlike the tags of the parameter lexer these may have
      digits. 0 without one. */
  function BodyTag(s: string): (n: nat)
    ensures n <= |s|
  {
    if s == [] then 0
    else if s[0] == '$' then 1
    else if (IsAlnum(s[0]) || s[0] == '_') && BodyTag(s[1..]) > 0 then 1 + BodyTag(s[1..])
    else 0
  }

  /** The length up to the end of `w`, or all of `s`. */
  function Through(s: string, w: string): (n: nat)
    ensures n <= |s|
  {
    match Find(s, w)
    case Some(p) => p + |w|
    case None => |s|
  }

  function ProcLength(s: string): (n: nat)
    ensures n <= |s|
  {
    match FindEndProc(' ', s)
    case Some(p) => p + 8
    case None => |s|
  }

  /** The length up to the newline, which stays. */
  function RestOfLine(s: string): (n: nat)
    ensures n <= |s|
  {
    Find(s, "\n").GetOr(|s|)
  }

  /** The span at the front of text that is no string, no procedure body and no dollar-quoted body. */
  function PlainSpan(s: string): (span: Span)
    requires s != []
    ensures Raw(span) != [] && Raw(span) <= s
  {
    var rest := s[1..];
    if s[0] == '-' && rest != [] && rest[0] == '-' then Blank(s[..2 + RestOfLine(s[2..])])
    else if s[0] == '/' && rest != [] && rest[0] == '*' then Blank(s[..2 + Through(s[2..], "*/")])
    else if s[0] == ';' then Cut
    else Shown(s[..1])
  }

  /** The span at the front of `s`, behind the character `prev`. */
  function HeadSpan(prev: char, s: string): (span: Span)
    requires s != []
    ensures Raw(span) != [] && Raw(span) <= s
  {
    var rest := s[1..];
    if s[0] == '\'' || s[0] == '"' then Shown(s[..1 + QuoteLength(rest, s[0])])
    else if OpensProc(prev, s) then Blank(s[..10 + ProcLength(s[10..])])
    else if s[0] == '$' && BodyTag(rest) > 0 then
      var n := 1 + BodyTag(rest);
      Blank(s[..n + Through(s[n..], s[..n])])
    else PlainSpan(s)
  }

  function Last(prev: char, s: string): char {
    if s == [] then prev else s[|s| - 1]
  }

  function Spans(prev: char, s: string): seq<Span>
    decreases |s|
  {
    if s == [] then []
    else
      var span := HeadSpan(prev, s);
      [span] + Spans(Last(prev, Raw(span)), s[|Raw(span)|..])
  }

  /** The statements: shown text and spaces, cut at the semicolons. */
  function Split(spans: seq<Span>): (parts: seq<string>)
    ensures parts != []
  {
    if spans == [] then [""]
    else
      var before := Split(spans[..|spans| - 1]);
      var last := spans[|spans| - 1];
      if last.Cut? then before + [""] else Grown(before, Visible(last))
  }

  /** `parts` with more text at the end. */
  function Grown(parts: seq<string>, text: string): (r: seq<string>)
    requires parts != []
    ensures r != []
  {
    parts[..|parts| - 1] + [parts[|parts| - 1] + text]
  }

  // -- The splitter ---------------------------------------------------------------------------------

  /** The splitter has read `done`, and stands at `i`. */
  ghost predicate At(sql: string, done: seq<Span>, i: nat) {
    i <= |sql| && Spans(' ', sql) == done + Spans(Last(' ', sql[..i]), sql[i..])
  }

  lemma Regroup(all: seq<Span>, done: seq<Span>, here: seq<Span>, span: Span, rest: seq<Span>)
    requires all == done + here && here == [span] + rest
    ensures all == (done + [span]) + rest
  {
  }

  lemma LastOf(sql: string, i: nat, j: nat)
    requires i < j <= |sql|
    ensures Last(' ', sql[..j]) == Last(Last(' ', sql[..i]), sql[i..j])
  {
  }

  lemma SpansFirst(prev: char, s: string)
    requires s != []
    ensures var span := HeadSpan(prev, s);
            Spans(prev, s) == [span] + Spans(Last(prev, Raw(span)), s[|Raw(span)|..])
  {
  }

  /** One turn. */
  lemma TurnsTo(sql: string, done: seq<Span>, i: nat)
    requires At(sql, done, i) && i < |sql|
    ensures var span := HeadSpan(Last(' ', sql[..i]), sql[i..]);
            i + |Raw(span)| <= |sql| && At(sql, done + [span], i + |Raw(span)|)
  {
    hide HeadSpan, Spans;
    var prev := Last(' ', sql[..i]);
    var span := HeadSpan(prev, sql[i..]);
    var j := i + |Raw(span)|;
    SpansFirst(prev, sql[i..]);
    assert sql[i..][..|Raw(span)|] == sql[i..j] == Raw(span) && sql[i..][|Raw(span)|..] == sql[j..];
    LastOf(sql, i, j);
    Regroup(Spans(' ', sql), done, Spans(prev, sql[i..]), span, Spans(Last(prev, Raw(span)), sql[j..]));
  }

  /** `find_word_ci` for `end_proc`. */
  method FindWord(hay: string) returns (r: Option<nat>)
    ensures r == FindEndProc(' ', hay)
  {
    if |hay| < 8 {
      return None;
    }
    assert hay[0..] == hay;
    for start := 0 to |hay| - 7
      invariant FindEndProc(' ', hay) ==
                match FindEndProc(Last(' ', hay[..start]), hay[start..])
                case Some(p) => Some(p + start)
                case None => None
    {
      var before := start == 0 || !IsWord(hay[start - 1]);
      var after := start + 8 == |hay| || !IsWord(hay[start + 8]);
      assert hay[start..][..8] == hay[start..start + 8] && hay[start..][1..] == hay[start + 1..];
      if before && after && Spells(hay[start..start + 8], END_PROC) {
        return Some(start);
      }
    }
    r := None;
  }

  /** `dollar_tag`: the length of the tag at `start`, 0 without one. */
  method DollarTagLength(sql: string, start: nat) returns (n: nat)
    requires start < |sql| && sql[start] == '$'
    ensures n == if BodyTag(sql[start + 1..]) > 0 then 1 + BodyTag(sql[start + 1..]) else 0
  {
    var i := start + 1;
    while i < |sql|
      invariant start + 1 <= i <= |sql|
      invariant BodyTag(sql[start + 1..]) == if BodyTag(sql[i..]) > 0 then i - start - 1 + BodyTag(sql[i..]) else 0
    {
      assert sql[i..][1..] == sql[i + 1..];
      if sql[i] == '$' {
        return i + 1 - start;
      }
      if !(IsAlnum(sql[i]) || sql[i] == '_') {
        return 0;
      }
      i := i + 1;
    }
    n := 0;
  }

  /** The end of a turn: comments, semicolons and single characters. */
  method PlainTurn(rest: string) returns (span: Span)
    requires rest != []
    ensures span == PlainSpan(rest)
  {
    if rest[0] == '-' && |rest| > 1 && rest[1] == '-' {
      NewlineBehindDashes(rest);
      var end := Find(rest, "\n");
      match end
      case Some(p) => return Blank(rest[..p]);
      case None => return Blank(rest);
    }
    if rest[0] == '/' && |rest| > 1 && rest[1] == '*' {
      var end := Find(rest[2..], "*/");
      match end
      case Some(p) => return Blank(rest[..p + 4]);
      case None => return Blank(rest);
    }
    if rest[0] == ';' {
      return Cut;
    }
    span := Shown(rest[..1]);
  }

  /** A procedure body, behind its `begin_proc`. */
  method ProcTurn(rest: string) returns (span: Span)
    requires |rest| >= 10
    ensures span == Blank(rest[..10 + ProcLength(rest[10..])])
  {
    var off := FindWord(rest[10..]);
    match off
    case Some(p) => span := Blank(rest[..10 + p + 8]);
    case None => span := Blank(rest);
  }

  /** A dollar-quoted body, with its tag. */
  method BodyTurn(rest: string, tag: nat) returns (span: Span)
    requires tag <= |rest|
    ensures span == Blank(rest[..tag + Through(rest[tag..], rest[..tag])])
  {
    var end := Find(rest[tag..], rest[..tag]);
    match end
    case Some(p) => span := Blank(rest[..tag + p + tag]);
    case None => span := Blank(rest);
  }

  /** One turn of the loop in `split_statements`: what it takes at `i`. */
  method Turn(sql: string, i: nat) returns (span: Span)
    requires i < |sql|
    ensures span == HeadSpan(Last(' ', sql[..i]), sql[i..])
  {
    hide PlainSpan, ProcLength, Through, Find, QuoteLength, BodyTag, Spells;
    var ch, rest := sql[i], sql[i..];
    assert rest[1..] == sql[i + 1..];
    OnlyB(Last(' ', sql[..i]), rest);
    if ch == '\'' || ch == '"' {
      var end := QuoteEnd(sql, i + 1, ch);
      assert rest[..end - i] == sql[i..end];
      return Shown(sql[i..end]);
    }
    if (ch == 'b' || ch == 'B') && (i == 0 || !IsWord(sql[i - 1])) && |rest| >= 10 && Spells(rest[..10], BEGIN_PROC) {
      span := ProcTurn(rest);
      return;
    }
    if ch == '$' {
      var tag := DollarTagLength(sql, i);
      if tag > 0 {
        span := BodyTurn(rest, tag);
        return;
      }
    }
    span := PlainTurn(rest);
  }

  lemma OnlyB(prev: char, s: string)
    requires s != []
    ensures OpensProc(prev, s) ==> s[0] == 'b' || s[0] == 'B'
  {
    if OpensProc(prev, s) {
      assert Lower(s[..10][0]) == 'b';
    }
  }

  /** The source looks for the newline from the dashes on. */
  lemma NewlineBehindDashes(s: string)
    requires |s| >= 2 && s[0] == '-' && s[1] == '-'
    ensures Find(s, "\n").GetOr(|s|) == 2 + RestOfLine(s[2..])
  {
    assert s[1..][1..] == s[2..];
    assert Find(s, "\n").Some? == Find(s[1..], "\n").Some? == Find(s[2..], "\n").Some?;
  }

  /** `split_statements`. */
  method SplitStatements(sql: string) returns (statements: seq<string>)
    ensures statements == Split(Spans(' ', sql))
  {
    hide HeadSpan, Spans, At, Split, Grown;
    statements := [];
    var current, i := "", 0;
    ghost var done: seq<Span> := [];
    NothingRead(sql);
    while i < |sql|
      invariant i <= |sql| && At(sql, done, i) && statements + [current] == Split(done)
    {
      TurnsTo(sql, done, i);
      var span := Turn(sql, i);
      SplitSnoc(done, span);
      GrownLast(statements, current, Visible(span));
      done := done + [span];
      i := i + |Raw(span)|;
      if span.Cut? {
        statements, current := statements + [current], "";
      } else {
        current := current + Visible(span);
      }
    }
    NothingBehind(sql, done);
    statements := statements + [current];
  }

  lemma NothingRead(sql: string)
    ensures At(sql, [], 0) && Split([]) == [""]
  {
    assert sql[0..] == sql && [] + Spans(' ', sql) == Spans(' ', sql);
  }

  lemma SplitSnoc(done: seq<Span>, span: Span)
    ensures Split(done + [span]) == if span.Cut? then Split(done) + [""] else Grown(Split(done), Visible(span))
  {
    assert (done + [span])[..|done|] == done;
  }

  lemma GrownLast(parts: seq<string>, last: string, text: string)
    ensures Grown(parts + [last], text) == parts + [last + text]
  {
    assert (parts + [last])[..|parts|] == parts;
  }

  lemma NothingBehind(sql: string, done: seq<Span>)
    requires At(sql, done, |sql|)
    ensures Spans(' ', sql) == done
  {
    assert sql[|sql|..] == [];
  }

  // -- Nothing is lost and nothing inside a region cuts ------------------------------------------------

  function Source(spans: seq<Span>): string {
    if spans == [] then "" else Source(spans[..|spans| - 1]) + Raw(spans[|spans| - 1])
  }

  /** The text with every comment and every body as one space. */
  function Seen(spans: seq<Span>): string {
    if spans == [] then "" else Seen(spans[..|spans| - 1]) + Visible(spans[|spans| - 1])
  }

  function Cuts(spans: seq<Span>): nat {
    if spans == [] then 0 else (if spans[0].Cut? then 1 else 0) + Cuts(spans[1..])
  }

  /** Statements with semicolons between them. */
  function Join(parts: seq<string>): string
    requires parts != []
  {
    var last := parts[|parts| - 1];
    if |parts| == 1 then last else Join(parts[..|parts| - 1]) + ";" + last
  }

  lemma SourceSnoc(spans: seq<Span>, last: Span)
    ensures Source(spans + [last]) == Source(spans) + Raw(last)
  {
    assert (spans + [last])[..|spans|] == spans;
  }

  lemma {:induction false} SourcePrepends(span: Span, spans: seq<Span>)
    ensures Source([span] + spans) == Raw(span) + Source(spans)
  {
    hide Raw;
    if spans == [] {
      assert [span] + spans == [span] && [span][..0] == [];
    } else {
      var init, last := spans[..|spans| - 1], spans[|spans| - 1];
      assert [span] + spans == ([span] + init) + [last] && spans == init + [last];
      SourcePrepends(span, init);
      SourceSnoc([span] + init, last);
      SourceSnoc(init, last);
      Associative(Raw(span), Source(init), Raw(last));
    }
  }

  lemma {:induction false} SpansCover(prev: char, s: string)
    ensures Source(Spans(prev, s)) == s
    decreases |s|
  {
    if s != [] {
      var span := HeadSpan(prev, s);
      SpansCover(Last(prev, Raw(span)), s[|Raw(span)|..]);
      SourcePrepends(span, Spans(Last(prev, Raw(span)), s[|Raw(span)|..]));
    }
  }

  lemma GrownJoins(parts: seq<string>, text: string)
    requires parts != []
    ensures Join(Grown(parts, text)) == Join(parts) + text
  {
    var r := Grown(parts, text);
    assert r[..|r| - 1] == parts[..|parts| - 1];
  }

  lemma {:induction false} CutsSnoc(spans: seq<Span>, span: Span)
    ensures Cuts(spans + [span]) == Cuts(spans) + if span.Cut? then 1 else 0
  {
    if spans == [] {
      assert spans + [span] == [span];
    } else {
      FirstOfConcat(spans, [span]);
      CutsSnoc(spans[1..], span);
    }
  }

  lemma {:induction false} SplitJoins(spans: seq<Span>)
    ensures Join(Split(spans)) == Seen(spans) && |Split(spans)| == 1 + Cuts(spans)
  {
    if spans != [] {
      var before, last := spans[..|spans| - 1], spans[|spans| - 1];
      SplitJoins(before);
      CutsSnoc(before, last);
      assert before + [last] == spans;
      var parts := Split(before);
      if last.Cut? {
        assert (parts + [""])[..|parts|] == parts;
        assert Join(parts) + ";" + "" == Join(parts) + ";";
      } else {
        GrownJoins(parts, Visible(last));
      }
    }
  }

  /** The splitter loses nothing: its spans are the text; and the statements, joined by semicolons, are the text with
      its comments and bodies blanked out, so only the semicolons outside them and outside quotes separate. */
  lemma StatementsAreTheText(sql: string)
    ensures Source(Spans(' ', sql)) == sql
    ensures Join(Split(Spans(' ', sql))) == Seen(Spans(' ', sql))
    ensures |Split(Spans(' ', sql))| == 1 + Cuts(Spans(' ', sql))
  {
    SpansCover(' ', sql);
    SplitJoins(Spans(' ', sql));
  }

  // -- Keywords ---------------------------------------------------------------------------------------

  /** The front of `trim`; what it takes off the end never belongs to the first word. */
  function Trimmed(s: string): string {
    if s != [] && IsSpace(s[0]) then Trimmed(s[1..]) else s
  }

  /** `first_word_upper`. */
  function FirstWord(s: string): string {
    if s != [] && (IsAlnum(s[0]) || s[0] == '_') then [s[0]] + FirstWord(s[1..]) else []
  }

  /** `is_transaction_start` and `is_transaction_end`. */
  function Keyword(text: string): Statement {
    var word := FirstWord(text);
    if Spells(word, "begin") || Spells(word, "start") then Opens
    else if Spells(word, "commit") || Spells(word, "rollback") || Spells(word, "end") || Spells(word, "abort")
    then Closes
    else Neutral
  }

  function Classify(statement: string): Statement {
    Keyword(Trimmed(statement))
  }

  lemma NoKeyword()
    ensures Keyword("").Neutral?
  {
  }

  function Classified(statements: seq<string>): seq<Statement> {
    seq(|statements|, i requires 0 <= i < |statements| => Classify(statements[i]))
  }

  /** What the statements of a text do to the transaction. */
  function Batch(sql: string): seq<Statement> {
    Classified(Split(Spans(' ', sql)))
  }

  /** `parse_transaction_state`: the last boundary of the text, and whether it has an opening one. */
  method ParseTransactionState(sql: string) returns (state: Option<bool>, hadStart: bool)
    ensures state == LastBoundary(Batch(sql)) && hadStart == (Opens in Batch(sql))
  {
    hide Spans, Split, Trimmed, Keyword;
    NoKeyword();
    var statements := SplitStatements(sql);
    ghost var batch := Classified(statements);
    state, hadStart := None, false;
    for i := 0 to |statements|
      invariant state == LastBoundary(batch[..i]) && hadStart == (Opens in batch[..i])
    {
      assert batch[..i + 1] == batch[..i] + [batch[i]];
      var text := Trimmed(statements[i]);
      if text == "" {
        continue;
      }
      match Keyword(text)
      case Opens => state, hadStart := Some(true), true;
      case Closes => state := Some(false);
      case Neutral =>
    }
    assert batch[..|batch|] == batch;
  }

  // -- Literals never change the shape of a statement ----------------------------------------------------

  /** Behind `prev`, `a` is text that stays, whatever `t` follows it. */
  predicate Passes(prev: char, a: string, t: string) {
    && Spans(prev, a + t) == Spans(prev, a) + Spans(Last(prev, a), t)
    && AllShown(Spans(prev, a))
  }

  predicate AllShown(spans: seq<Span>) {
    forall i :: 0 <= i < |spans| ==> spans[i].Shown?
  }

  lemma FirstSpan(prev: char, s: string, text: string, rest: string)
    requires s == text + rest && s != [] && HeadSpan(prev, s) == Shown(text)
    ensures Spans(prev, s) == [Shown(text)] + Spans(Last(prev, text), rest)
  {
    assert s[|text|..] == rest;
  }

  lemma QuotedSpan(prev: char, v: string, t: string)
    requires t == [] || t[0] != '\''
    ensures Spans(prev, Quoted(v) + t) == [Shown(Quoted(v))] + Spans('\'', t)
  {
    var s := Quoted(v) + t;
    EscapedLength(v, t);
    assert s[1..] == Escaped(v) + "'" + t;
    assert s[..|Quoted(v)|] == Quoted(v);
    FirstSpan(prev, s, Quoted(v), t);
  }

  lemma QuotedPasses(prev: char, v: string, t: string)
    requires t == [] || t[0] != '\''
    ensures Passes(prev, Quoted(v), t)
  {
    hide Spans;
    QuotedSpan(prev, v, t);
    QuotedSpan(prev, v, []);
    assert Quoted(v) + [] == Quoted(v) && Spans('\'', []) == [] by {
      NoSpans('\'');
    }
  }

  lemma NoSpans(prev: char)
    ensures Spans(prev, []) == []
  {
  }

  /** Plain text without `b` and semicolons. */
  predicate Still(c: string) {
    Plain(c) && 'b' !in c && 'B' !in c && ';' !in c
  }

  lemma StillHead(prev: char, c: string, t: string)
    requires Still(c) && c != []
    ensures HeadSpan(prev, c + t) == Shown(c[..1]) && Still(c[1..])
  {
    PlainHead(c, t);
    assert PlainAt(c, 0);
    OnlyB(prev, c + t);
    if c[0] == '-' {
      assert (c + t)[1..][0] == c[1];
    }
    assert (c + t)[..1] == c[..1];
  }

  lemma {:induction false} StillPasses(prev: char, c: string, t: string)
    requires Still(c)
    ensures Passes(prev, c, t)
    decreases |c|
  {
    hide HeadSpan, Plain, Spans;
    NoSpans(prev);
    if c == [] {
      assert c + t == t;
    } else {
      StillHead(prev, c, t);
      StillHead(prev, c, []);
      StillPasses(c[0], c[1..], t);
      FirstSpan(prev, c + t, c[..1], c[1..] + t);
      assert c + [] == c && c == c[..1] + c[1..];
      FirstSpan(prev, c, c[..1], c[1..]);
      PassesBehind(Shown(c[..1]), Spans(prev, c + t), Spans(prev, c), Spans(c[0], c[1..] + t), Spans(c[0], c[1..]),
                   Spans(Last(prev, c), t));
    }
  }

  lemma PassesBehind(head: Span, all: seq<Span>, front: seq<Span>, tail: seq<Span>, rest: seq<Span>, t: seq<Span>)
    requires head.Shown? && AllShown(rest)
    requires all == [head] + tail && tail == rest + t && front == [head] + rest
    ensures all == front + t && AllShown(front)
  {
  }

  lemma PassesCompose(prev: char, a: string, b: string, t: string)
    requires Passes(prev, a, b + t) && Passes(prev, a, b) && Passes(Last(prev, a), b, t)
    ensures Passes(prev, a + b, t)
  {
    hide Spans;
    assert (a + b) + t == a + (b + t);
    assert Last(prev, a + b) == Last(Last(prev, a), b);
    Associative(Spans(prev, a), Spans(Last(prev, a), b), Spans(Last(prev, a + b), t));
  }

  lemma {:induction false} ChainPasses(prev: char, parts: seq<string>, end: string, t: string)
    requires parts != [] && Still(end) && end != [] && end[0] != '\''
    ensures Passes(prev, Chained(parts) + end, t)
    decreases |parts|
  {
    hide Spans, Plain;
    if |parts| == 1 {
      QuotedThen(prev, parts[0], end, t);
    } else {
      var tail := Chained(parts[1..]) + end;
      ChainPasses(' ', parts[1..], end, t);
      ChainPasses(' ', parts[1..], end, []);
      LinkPasses(tail, t);
      QuotedBefore(prev, parts[0], CHR92 + tail, t);
      ChainShape(parts, end);
    }
  }

  lemma QuotedThen(prev: char, v: string, end: string, t: string)
    requires Still(end) && end != [] && end[0] != '\''
    ensures Passes(prev, Quoted(v) + end, t)
  {
    hide Spans, Plain;
    StillPasses('\'', end, t);
    QuotedBefore(prev, v, end, t);
  }

  lemma QuotedBefore(prev: char, v: string, end: string, t: string)
    requires end != [] && end[0] != '\'' && Passes('\'', end, t)
    ensures Passes(prev, Quoted(v) + end, t)
  {
    hide Spans;
    QuotedPasses(prev, v, end + t);
    QuotedPasses(prev, v, end);
    PassesCompose(prev, Quoted(v), end, t);
  }

  lemma LinkPasses(tail: string, t: string)
    requires Passes(' ', tail, t)
    ensures Passes('\'', CHR92 + tail, t)
  {
    hide Spans, Plain;
    LinkIsStill();
    StillPasses('\'', CHR92, tail + t);
    StillPasses('\'', CHR92, tail);
    PassesCompose('\'', CHR92, tail, t);
  }

  lemma LinkIsStill()
    ensures Still(CHR92)
  {
  }

  lemma TextPasses(prev: char, text: string, t: string)
    requires TextLiteral(text).Some?
    requires t == [] || '\\' in text || t[0] != '\''
    ensures Passes(prev, TextLiteral(text).value, t)
  {
    hide Spans;
    if '\\' in text {
      var chain := Chained(Parts(text)) + ")";
      ChainPasses('(', Parts(text), ")", t);
      StillPasses(prev, "(", chain + t);
      StillPasses(prev, "(", chain);
      PassesCompose(prev, "(", chain, t);
      Reassociated("(", Chained(Parts(text)), ")");
    } else {
      QuotedPasses(prev, text, t);
    }
  }

  /** The characters of numbers. */
  predicate Numeral(c: char) {
    IsDigit(c) || c in {'.', 'e', 'E', '+', '-'}
  }

  predicate Numerals(s: string) {
    forall i :: 0 <= i < |s| ==> Numeral(s[i])
  }

  lemma NumeralParts(s: string, k: nat)
    requires k <= |s| && Numerals(s[..k]) && Numerals(s[k..])
    ensures Numerals(s)
  {
    forall i | 0 <= i < |s|
      ensures Numeral(s[i])
    {
      assert s[i] == if i < k then s[..k][i] else s[k..][i - k];
    }
  }

  lemma DigitsAreNumerals(t: string)
    ensures Numerals(t[..DigitCount(t)])
  {
    DigitsArePlain(t);
  }

  lemma ExponentIsNumerals(s: string)
    requires IsExponent(s)
    ensures Numerals(s)
  {
    if s != [] {
      var t := s[1..];
      var n := Signed(t);
      DigitsAreNumerals(t[n..]);
      assert t[n..] == t[n..][..DigitCount(t[n..])];
      NumeralParts(t, n);
      NumeralParts(s, 1);
    }
  }

  lemma FractionIsNumerals(u: string)
    requires u != [] && u[0] == '.' && IsExponent(u[1..][DigitCount(u[1..])..])
    ensures Numerals(u)
  {
    hide Numerals, DigitCount, IsExponent;
    var v := u[1..];
    DigitsAreNumerals(v);
    ExponentIsNumerals(v[DigitCount(v)..]);
    NumeralParts(v, DigitCount(v));
    OneNumeral(u[..1]);
    NumeralParts(u, 1);
  }

  lemma NumberIsNumerals(s: string)
    requires IsNumeric(s)
    ensures Numerals(s)
  {
    hide Numerals, DigitCount, IsExponent;
    var n := Signed(s);
    var t := s[n..];
    var u := t[DigitCount(t)..];
    DigitsAreNumerals(t);
    if u != [] && u[0] == '.' {
      FractionIsNumerals(u);
    } else {
      ExponentIsNumerals(u);
    }
    NumeralParts(t, DigitCount(t));
    SignIsNumeral(s);
    NumeralParts(s, n);
  }

  lemma OneNumeral(s: string)
    requires |s| == 1 && Numeral(s[0])
    ensures Numerals(s)
  {
  }

  lemma SignIsNumeral(s: string)
    ensures Signed(s) <= |s| && Numerals(s[..Signed(s)])
  {
  }

  lemma NumberIsStill(s: string)
    requires IsNumeric(s)
    ensures Still(s)
  {
    NumericIsPlain(s);
    NumberIsNumerals(s);
  }

  /** What a value is written as passes through the splitter as it is, wherever it stands. */
  lemma LiteralPasses(prev: char, v: SqlValue, t: string)
    requires SqlLiterals.Literal(v).Some?
    requires var literal := SqlLiterals.Literal(v).value; t != [] && Last(prev, literal) == '\'' ==> t[0] != '\''
    ensures Passes(prev, SqlLiterals.Literal(v).value, t)
  {
    hide Spans;
    match v
    case Null => StillPasses(prev, "NULL", t);
    case Bool(b) =>
      var c := if b then 't' else 'f';
      QuotedChar(c);
      assert Quoted([c]) == if b then "'t'" else "'f'";
      QuotedPasses(prev, [c], t);
    case Number(digits) =>
      NumberIsStill(digits);
      StillPasses(prev, digits, t);
    case TextValue(text) => TextPasses(prev, text, t);
  }

  lemma {:induction false} CutsConcat(a: seq<Span>, b: seq<Span>)
    ensures Cuts(a + b) == Cuts(a) + Cuts(b)
    ensures AllShown(a) ==> Cuts(a) == 0
  {
    if a == [] {
      assert a + b == b;
    } else {
      FirstOfConcat(a, b);
      CutsConcat(a[1..], b);
    }
  }

  /** Behind `before` the splitter stands between two spans, with `rest` in front of it. */
  predicate StandsBetween(before: string, rest: string) {
    Spans(' ', before + rest) == Spans(' ', before) + Spans(Last(' ', before), rest)
  }

  /** A literal never changes the shape of a statement: wherever the splitter stands between two spans, the number of
      statements is the same for every value, up to the last character of its literal. */
  lemma LiteralKeepsStatements(before: string, v: SqlValue, t: string)
    requires SqlLiterals.Literal(v).Some? && StandsBetween(before, SqlLiterals.Literal(v).value + t)
    requires var literal := SqlLiterals.Literal(v).value; t != [] && Last(' ', literal) == '\'' ==> t[0] != '\''
    ensures var literal := SqlLiterals.Literal(v).value;
            |Split(Spans(' ', before + (literal + t)))| ==
            1 + Cuts(Spans(' ', before)) + Cuts(Spans(Last(' ', literal), t))
  {
    hide Spans;
    var literal := SqlLiterals.Literal(v).value;
    LiteralPasses(Last(' ', before), v, t);
    CutsConcat(Spans(' ', before), Spans(Last(' ', before), literal + t));
    CutsConcat(Spans(Last(' ', before), literal), Spans(Last(' ', literal), t));
    SplitJoins(Spans(' ', before + (literal + t)));
  }

  /** Behind text without quotes, comments, dollar signs, semicolons and the letter b it always does. */
  lemma StandsBehindStill(before: string, rest: string)
    requires Still(before)
    ensures StandsBetween(before, rest)
  {
    StillPasses(' ', before, rest);
  }
}

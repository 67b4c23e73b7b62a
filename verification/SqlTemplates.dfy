/** The SQL lexer behind client-side parameters (src/params.rs): `SqlTemplate::parse` and `render`, and the separately
    written one-pass `substitute_bound_parameters` for positional bindings. The lexer only looks at ASCII characters,
    so the model reads characters where the source reads UTF-8 bytes. */
module SqlTemplates {
  import opened Bytes

  /** What one turn of the lexer takes: a character of code, a comment, a quoted string or identifier, a dollar tag, a
      character between dollar tags, or a numbered placeholder. */
  datatype Kind = Code | Comment | Quote | Tag | Body | Hole

  datatype Piece = Piece(kind: Kind, text: string)

  predicate IsDigit(c: char) {
    '0' <= c <= '9'
  }

  predicate IsTagChar(c: char) {
    'A' <= c <= 'Z' || 'a' <= c <= 'z' || c == '_'
  }

  /** Up to and including the next newline. */
  function LineLength(s: string): (n: nat)
    ensures n <= |s|
  {
    if s == [] then 0 else if s[0] == '\n' then 1 else 1 + LineLength(s[1..])
  }

  /** Up to the end of a block comment that is open `depth` times. */
  function BlockLength(s: string, depth: nat): (n: nat)
    requires depth > 0
    ensures n <= |s|
    decreases |s|
  {
    if |s| < 2 then |s|
    else if s[0] == '/' && s[1] == '*' then 2 + BlockLength(s[2..], depth + 1)
    else if s[0] == '*' && s[1] == '/' then if depth == 1 then 2 else 2 + BlockLength(s[2..], depth - 1)
    else 1 + BlockLength(s[1..], depth)
  }

  /** Up to and including the closing quote; a doubled quote does not close. */
  function QuoteLength(s: string, quote: char): (n: nat)
    ensures n <= |s|
    decreases |s|
  {
    if s == [] then 0
    else if s[0] != quote then 1 + QuoteLength(s[1..], quote)
    else if |s| > 1 && s[1] == quote then 2 + QuoteLength(s[2..], quote)
    else 1
  }

  /** Letters and underscores up to and including the closing dollar sign of a tag; 0 without one. */
  function TagLength(s: string): (n: nat)
    ensures n <= |s|
  {
    if s == [] then 0
    else if s[0] == '$' then 1
    else if IsTagChar(s[0]) && TagLength(s[1..]) > 0 then 1 + TagLength(s[1..])
    else 0
  }

  function DigitCount(s: string): (n: nat)
    ensures n <= |s|
    ensures n < |s| ==> !IsDigit(s[n])
  {
    if s == [] || !IsDigit(s[0]) then 0 else 1 + DigitCount(s[1..])
  }

  /** The piece at the front of code: its kind and its length. */
  function Head(s: string): (r: (Kind, nat))
    requires s != []
    ensures 1 <= r.1 <= |s|
    ensures r.0.Code? ==> r.1 == 1
  {
    var rest := s[1..];
    if s[0] == '-' && rest != [] && rest[0] == '-' then (Comment, 1 + LineLength(rest))
    else if s[0] == '/' && rest != [] && rest[0] == '*' then (Comment, 2 + BlockLength(s[2..], 1))
    else if s[0] == '\'' || s[0] == '"' then (Quote, 1 + QuoteLength(rest, s[0]))
    else if s[0] == '$' && TagLength(rest) > 0 then (Tag, 1 + TagLength(rest))
    else if s[0] == '$' && DigitCount(rest) > 0 then (Hole, 1 + DigitCount(rest))
    else (Code, 1)
  }

  /** The next piece: between dollar tags everything up to the closing tag is body. */
  function Next(tag: string, s: string): (r: (Piece, string))
    requires s != []
    ensures 1 <= |r.0.text| <= |s| && s == r.0.text + s[|r.0.text|..]
  {
    if tag == "" then
      var (kind, n) := Head(s);
      (Piece(kind, s[..n]), if kind.Tag? then s[..n] else "")
    else if tag <= s then (Piece(Tag, tag), "")
    else (Piece(Body, s[..1]), tag)
  }

  /** The pieces of `s`, read inside the dollar quote `tag` unless that is empty. */
  function Pieces(tag: string, s: string): seq<Piece>
    decreases |s|
  {
    if s == [] then []
    else
      var (piece, tag') := Next(tag, s);
      [piece] + Pieces(tag', s[|piece.text|..])
  }

  /** The number of a placeholder, as `parse::<usize>` reads its digits; 0 when it does not fit. */
  function Value(digits: string): (n: nat) {
    if digits == [] then 0 else 10 * Value(digits[..|digits| - 1]) + (digits[|digits| - 1] as int - '0' as int) % 10
  }

  const USIZE := 0x1_0000_0000_0000_0000

  function Index(hole: string): nat {
    var n := if hole == [] then 0 else Value(hole[1..]);
    if n < USIZE then n else 0
  }

  /** What the pieces are pieces of. */
  function Text(pieces: seq<Piece>): string {
    if pieces == [] then [] else Text(pieces[..|pieces| - 1]) + pieces[|pieces| - 1].text
  }

  lemma {:induction false} TextPrepend(piece: Piece, pieces: seq<Piece>)
    ensures Text([piece] + pieces) == piece.text + Text(pieces)
  {
    if pieces == [] {
      assert [piece] + pieces == [piece] && [piece][..0] == [];
    } else {
      var all := [piece] + pieces;
      assert all[..|all| - 1] == [piece] + pieces[..|pieces| - 1];
      TextPrepend(piece, pieces[..|pieces| - 1]);
      Associative(piece.text, Text(pieces[..|pieces| - 1]), pieces[|pieces| - 1].text);
    }
  }

  /** The lexer loses nothing. */
  lemma {:induction false} PiecesCover(tag: string, s: string)
    ensures Text(Pieces(tag, s)) == s
    decreases |s|
  {
    if s != [] {
      var (piece, tag') := Next(tag, s);
      PiecesCover(tag', s[|piece.text|..]);
      TextPrepend(piece, Pieces(tag', s[|piece.text|..]));
    }
  }

  // -- What substitution means --------------------------------------------------------------------

  /** `literals[k]` is what parameter `k + 1` is written as; `None` when it cannot be. */
  function Literal(literals: seq<Option<string>>, index: nat): Option<string> {
    if 1 <= index <= |literals| then literals[index - 1] else None
  }

  function Joined(before: Option<string>, text: Option<string>): Option<string> {
    if before.Some? && text.Some? then Some(before.value + text.value) else None
  }

  function Written(piece: Piece, literals: seq<Option<string>>): Option<string> {
    if piece.kind.Hole? then Literal(literals, Index(piece.text)) else Some(piece.text)
  }

  /** The text with every placeholder written out. */
  function Filled(pieces: seq<Piece>, literals: seq<Option<string>>): Option<string> {
    if pieces == [] then Some("")
    else Joined(Filled(pieces[..|pieces| - 1], literals), Written(pieces[|pieces| - 1], literals))
  }

  function UsedIndices(pieces: seq<Piece>): set<nat> {
    set i | 0 <= i < |pieces| && pieces[i].kind.Hole? :: Index(pieces[i].text)
  }

  /** Every parameter is used. */
  predicate AllUsed(used: set<nat>, count: nat) {
    forall k :: 1 <= k <= count ==> k in used
  }

  /** The result of substitution: no NUL, every placeholder has a literal, every parameter is used. */
  function Substituted(sql: string, literals: seq<Option<string>>): Option<string> {
    var pieces := Pieces("", sql);
    if '\0' !in sql && AllUsed(UsedIndices(pieces), |literals|) then Filled(pieces, literals) else None
  }

  // -- The lexer's loops -------------------------------------------------------------------------

  lemma BlockStep(sql: string, i: nat, depth: nat)
    requires i + 1 < |sql| && depth > 0
    ensures BlockLength(sql[i..], depth) ==
            if sql[i] == '/' && sql[i + 1] == '*' then 2 + BlockLength(sql[i + 2..], depth + 1)
            else if sql[i] == '*' && sql[i + 1] == '/' then
              if depth == 1 then 2 else 2 + BlockLength(sql[i + 2..], depth - 1)
            else 1 + BlockLength(sql[i + 1..], depth)
  {
    assert sql[i..][2..] == sql[i + 2..] && sql[i..][1..] == sql[i + 1..];
    assert sql[i..][0] == sql[i] && sql[i..][1] == sql[i + 1];
  }

  lemma BlockStops(sql: string, i: nat, depth: nat)
    requires i <= |sql| <= i + 1 && depth > 0
    ensures i + BlockLength(sql[i..], depth) == |sql|
  {
  }

  /** `block_comment_end`. */
  method BlockCommentEnd(sql: string, start: nat) returns (index: nat)
    requires start + 2 <= |sql|
    ensures index == start + 2 + BlockLength(sql[start + 2..], 1)
  {
    hide BlockLength;
    var depth := 1;
    index := start + 2;
    while index + 1 < |sql|
      invariant start + 2 <= index <= |sql| && depth > 0
      invariant index + BlockLength(sql[index..], depth) == start + 2 + BlockLength(sql[start + 2..], 1)
    {
      BlockStep(sql, index, depth);
      if sql[index] == '/' && sql[index + 1] == '*' {
        depth := depth + 1;
        index := index + 2;
      } else if sql[index] == '*' && sql[index + 1] == '/' {
        depth := depth - 1;
        index := index + 2;
        if depth == 0 {
          return;
        }
      } else {
        index := index + 1;
      }
    }
    BlockStops(sql, index, depth);
    index := |sql|;
  }

  /** The loop over a quoted string, behind its opening quote. */
  method QuoteEnd(sql: string, start: nat, quote: char) returns (i: nat)
    requires start <= |sql|
    ensures i == start + QuoteLength(sql[start..], quote)
  {
    i := start;
    while i < |sql|
      invariant start <= i <= |sql|
      invariant i + QuoteLength(sql[i..], quote) == start + QuoteLength(sql[start..], quote)
    {
      assert sql[i..][1..] == sql[i + 1..];
      if sql[i] == quote {
        if i + 1 < |sql| && sql[i + 1] == quote {
          assert sql[i..][2..] == sql[i + 2..];
          i := i + 2;
        } else {
          i := i + 1;
          return;
        }
      } else {
        i := i + 1;
      }
    }
  }

  /** `find('\n')`. */
  method LineEnd(sql: string, start: nat) returns (i: nat)
    requires start <= |sql|
    ensures i == start + LineLength(sql[start..])
  {
    i := start;
    while i < |sql|
      invariant start <= i <= |sql|
      invariant i + LineLength(sql[i..]) == start + LineLength(sql[start..])
    {
      assert sql[i..][1..] == sql[i + 1..];
      if sql[i] == '\n' {
        return i + 1;
      }
      i := i + 1;
    }
  }

  /** `dollar_tag_str`: the length of the tag at `start`, 0 without one. */
  method DollarTag(sql: string, start: nat) returns (n: nat)
    requires start < |sql| && sql[start] == '$'
    ensures n == if TagLength(sql[start + 1..]) > 0 then 1 + TagLength(sql[start + 1..]) else 0
  {
    var i := start + 1;
    while i < |sql|
      invariant start + 1 <= i <= |sql|
      invariant TagLength(sql[start + 1..]) ==
                if TagLength(sql[i..]) > 0 then i - start - 1 + TagLength(sql[i..]) else 0
    {
      assert sql[i..][1..] == sql[i + 1..];
      if sql[i] == '$' {
        return i + 1 - start;
      }
      if !IsTagChar(sql[i]) {
        return 0;
      }
      i := i + 1;
    }
    n := 0;
  }

  /** `dollar_number`: the digits behind the dollar sign at `start`, 0 without any. */
  method DollarNumber(sql: string, start: nat) returns (n: nat)
    requires start < |sql| && sql[start] == '$'
    ensures n == DigitCount(sql[start + 1..])
  {
    var i := start + 1;
    while i < |sql| && IsDigit(sql[i])
      invariant start + 1 <= i <= |sql|
      invariant DigitCount(sql[start + 1..]) == i - start - 1 + DigitCount(sql[i..])
    {
      assert sql[i..][1..] == sql[i + 1..];
      i := i + 1;
    }
    n := i - start - 1;
  }

  // -- Two passes -----------------------------------------------------------------------------------

  /** `SqlPlaceholder`. */
  datatype SqlPlaceholder = SqlPlaceholder(start: nat, end: nat, index: nat)

  /** `SqlTemplate`. */
  datatype SqlTemplate = SqlTemplate(source: string, placeholders: seq<SqlPlaceholder>)

  /** The placeholders among the pieces, by their places in the text. */
  function Marked(pieces: seq<Piece>): seq<SqlPlaceholder> {
    if pieces == [] then []
    else
      var before, last := pieces[..|pieces| - 1], pieces[|pieces| - 1];
      Marked(before)
      + (if last.kind.Hole? then [SqlPlaceholder(|Text(before)|, |Text(pieces)|, Index(last.text))] else [])
  }

  /** The lexer has read `done`, and stands at `i` inside the dollar quote `tag`, or in code. */
  ghost predicate Reading(sql: string, done: seq<Piece>, tag: string, i: nat) {
    && i <= |sql| && Text(done) == sql[..i]
    && Pieces("", sql) == done + Pieces(tag, sql[i..])
  }

  /** The piece the lexer takes at `i`. */
  ghost function PieceAt(sql: string, tag: string, i: nat): (Piece, string)
    requires i < |sql|
  {
    Next(tag, sql[i..])
  }

  lemma Snoc(done: seq<Piece>, piece: Piece)
    ensures (done + [piece])[..|done|] == done
    ensures Text(done + [piece]) == Text(done) + piece.text
    ensures Marked(done + [piece]) == Marked(done) + (
              if piece.kind.Hole?
              then [SqlPlaceholder(|Text(done)|, |Text(done)| + |piece.text|, Index(piece.text))] else [])
  {
    assert (done + [piece])[..|done|] == done;
  }

  lemma PiecesStep(sql: string, tag: string, i: nat)
    requires i < |sql|
    ensures var (piece, tag') := PieceAt(sql, tag, i);
            && i + |piece.text| <= |sql| && piece.text == sql[i..i + |piece.text|]
            && Pieces(tag, sql[i..]) == [piece] + Pieces(tag', sql[i + |piece.text|..])
  {
    var (piece, tag') := PieceAt(sql, tag, i);
    assert sql[i..][|piece.text|..] == sql[i + |piece.text|..];
    assert sql[i..][..|piece.text|] == sql[i..i + |piece.text|];
  }

  lemma Regroup(all: seq<Piece>, done: seq<Piece>, here: seq<Piece>, piece: Piece, rest: seq<Piece>)
    requires all == done + here && here == [piece] + rest
    ensures all == (done + [piece]) + rest
  {
  }

  lemma TextStep(sql: string, done: seq<Piece>, piece: Piece, i: nat, j: nat)
    requires i <= j <= |sql| && Text(done) == sql[..i] && piece.text == sql[i..j]
    ensures Text(done + [piece]) == sql[..j]
  {
    Snoc(done, piece);
    assert sql[..j] == sql[..i] + sql[i..j];
  }

  lemma ReadOne(sql: string, done: seq<Piece>, tag: string, i: nat)
    requires Reading(sql, done, tag, i) && i < |sql|
    ensures var (piece, tag') := PieceAt(sql, tag, i);
            && i + |piece.text| <= |sql| && piece.text == sql[i..i + |piece.text|]
            && Reading(sql, done + [piece], tag', i + |piece.text|)
  {
    hide Head, Pieces;
    var (piece, tag') := PieceAt(sql, tag, i);
    var j := i + |piece.text|;
    PiecesStep(sql, tag, i);
    Regroup(Pieces("", sql), done, Pieces(tag, sql[i..]), piece, Pieces(tag', sql[j..]));
    TextStep(sql, done, piece, i, j);
  }

  /** One turn of the lexer in `SqlTemplate::parse`, in code: where the piece ends, and which kind it is. */
  method TemplateTurn(sql: string, i: nat) returns (kind: Kind, end: nat)
    requires i < |sql|
    ensures (kind, end - i) == Head(sql[i..]) && i < end
  {
    assert sql[i..][1..] == sql[i + 1..] && (i + 1 < |sql| ==> sql[i..][2..] == sql[i + 2..]);
    if sql[i] == '-' && i + 1 < |sql| && sql[i + 1] == '-' {
      end := LineEnd(sql, i + 1);
      kind := Comment;
    } else if sql[i] == '/' && i + 1 < |sql| && sql[i + 1] == '*' {
      end := BlockCommentEnd(sql, i);
      kind := Comment;
    } else if sql[i] == '\'' || sql[i] == '"' {
      end := QuoteEnd(sql, i + 1, sql[i]);
      kind := Quote;
    } else if sql[i] == '$' {
      var tag := DollarTag(sql, i);
      if tag > 0 {
        return Tag, i + tag;
      }
      var digits := DollarNumber(sql, i);
      if digits > 0 {
        return Hole, i + 1 + digits;
      }
      return Code, i + 1;
    } else {
      return Code, i + 1;
    }
  }

  /** One turn inside a dollar quote. */
  lemma QuotedTurn(sql: string, tag: string, i: nat)
    requires i < |sql| && tag != ""
    ensures PieceAt(sql, tag, i) ==
            if tag <= sql[i..] then (Piece(Tag, tag), "") else (Piece(Body, sql[i..i + 1]), tag)
  {
    assert sql[i..][..1] == sql[i..i + 1];
  }

  lemma CodeTurn(sql: string, kind: Kind, i: nat, end: nat)
    requires i < |sql| && i < end && (kind, end - i) == Head(sql[i..])
    ensures end <= |sql| && PieceAt(sql, "", i) == (Piece(kind, sql[i..end]), if kind.Tag? then sql[i..end] else "")
  {
    assert sql[i..][..end - i] == sql[i..end];
  }

  lemma ReadAll(sql: string, done: seq<Piece>, tag: string)
    requires Reading(sql, done, tag, |sql|)
    ensures Pieces("", sql) == done && Text(done) == sql
  {
    assert sql[|sql|..] == [] && sql[..|sql|] == sql;
  }

  lemma ReadNone(sql: string)
    ensures Reading(sql, [], "", 0)
  {
    assert sql[0..] == sql && sql[..0] == [];
    assert [] + Pieces("", sql) == Pieces("", sql);
  }

  /** One turn of the loop in `SqlTemplate::parse`. */
  method ParseTurn(sql: string, dollarQuote: string, i: nat, ghost done: seq<Piece>)
    returns (end: nat, quote: string, hole: bool, ghost piece: Piece)
    requires Reading(sql, done, dollarQuote, i) && i < |sql|
    ensures i < end <= |sql| && Reading(sql, done + [piece], quote, end)
    ensures hole == piece.kind.Hole? && piece.text == sql[i..end]
  {
    hide Head, Pieces;
    ReadOne(sql, done, dollarQuote, i);
    piece := PieceAt(sql, dollarQuote, i).0;
    if dollarQuote != "" {
      QuotedTurn(sql, dollarQuote, i);
      if dollarQuote <= sql[i..] {
        return i + |dollarQuote|, "", false, piece;
      }
      return i + 1, dollarQuote, false, piece;
    }
    var kind: Kind;
    kind, end := TemplateTurn(sql, i);
    CodeTurn(sql, kind, i, end);
    quote := if kind.Tag? then sql[i..end] else "";
    hole := kind.Hole?;
  }

  /** `SqlTemplate::parse`. */
  method Parse(sql: string) returns (r: Option<SqlTemplate>)
    ensures r == if '\0' in sql then None else Some(SqlTemplate(sql, Marked(Pieces("", sql))))
  {
    if '\0' in sql {
      return None;
    }
    var placeholders: seq<SqlPlaceholder> := [];
    var i, dollarQuote := 0, "";
    ghost var done: seq<Piece> := [];
    ReadNone(sql);
    while i < |sql|
      invariant Reading(sql, done, dollarQuote, i) && placeholders == Marked(done)
    {
      var end, quote, hole, piece := ParseTurn(sql, dollarQuote, i, done);
      Snoc(done, piece);
      done := done + [piece];
      if hole {
        placeholders := placeholders + [SqlPlaceholder(i, end, Index(sql[i..end]))];
      }
      i, dollarQuote := end, quote;
    }
    ReadAll(sql, done, dollarQuote);
    r := Some(SqlTemplate(sql, placeholders));
  }

  // -- Rendering a template ----------------------------------------------------------------------------

  function End(placeholders: seq<SqlPlaceholder>): nat {
    if placeholders == [] then 0 else placeholders[|placeholders| - 1].end
  }

  /** The placeholders lie in the text, one behind the other. */
  predicate Placed(placeholders: seq<SqlPlaceholder>, length: nat) {
    if placeholders == [] then true
    else
      var before, last := placeholders[..|placeholders| - 1], placeholders[|placeholders| - 1];
      Placed(before, length) && End(before) <= last.start <= last.end <= length
  }

  /** The text up to the end of the last placeholder, written out. */
  function Rendered(source: string, placeholders: seq<SqlPlaceholder>, literals: seq<Option<string>>): Option<string>
    requires Placed(placeholders, |source|)
  {
    if placeholders == [] then Some("")
    else
      var before, last := placeholders[..|placeholders| - 1], placeholders[|placeholders| - 1];
      Joined(Joined(Rendered(source, before, literals), Some(source[End(before)..last.start])),
             Literal(literals, last.index))
  }

  function Indices(placeholders: seq<SqlPlaceholder>): set<nat> {
    set i | 0 <= i < |placeholders| :: placeholders[i].index
  }

  /** What one more placeholder adds. */
  lemma RenderStep(source: string, placeholders: seq<SqlPlaceholder>, k: nat, literals: seq<Option<string>>)
    requires Placed(placeholders, |source|) && k < |placeholders|
    ensures Placed(placeholders[..k], |source|) && Placed(placeholders[..k + 1], |source|)
    ensures End(placeholders[..k]) <= placeholders[k].start <= placeholders[k].end <= |source|
    ensures End(placeholders[..k + 1]) == placeholders[k].end
    ensures Rendered(source, placeholders[..k + 1], literals) ==
            Joined(Joined(Rendered(source, placeholders[..k], literals),
                          Some(source[End(placeholders[..k])..placeholders[k].start])),
                   Literal(literals, placeholders[k].index))
    ensures Indices(placeholders[..k + 1]) == Indices(placeholders[..k]) + {placeholders[k].index}
  {
    PlacedPrefix(placeholders, |source|, k);
    PrefixesOf(placeholders, k, |source|);
  }

  /** `used_parameters` says which of `n` parameters are among `indices`. */
  predicate Marks(used: seq<bool>, indices: set<nat>) {
    forall j :: 0 <= j < |used| ==> (used[j] <==> j + 1 in indices)
  }

  lemma AllMarked(used: seq<bool>, indices: set<nat>)
    requires Marks(used, indices)
    ensures AllUsed(indices, |used|) <==> forall j :: 0 <= j < |used| ==> used[j]
  {
    assert forall n :: 1 <= n <= |used| ==> (n in indices <==> used[n - 1]);
    if !AllUsed(indices, |used|) {
      var n :| 1 <= n <= |used| && n !in indices;
      assert !used[n - 1];
    }
  }

  /** `SqlTemplate::render`, for literals that are written by `literals`. */
  method Render(template: SqlTemplate, literals: seq<Option<string>>) returns (r: Option<string>)
    requires Placed(template.placeholders, |template.source|)
    ensures r == if AllUsed(Indices(template.placeholders), |literals|)
                 then Joined(Rendered(template.source, template.placeholders, literals),
                             Some(template.source[End(template.placeholders)..]))
                 else None
  {
    hide Rendered, Placed, Indices, AllUsed;
    var source, placeholders := template.source, template.placeholders;
    var result, previous := "", 0;
    var used: seq<bool> := seq(|literals|, _ => false);
    NothingRendered(source, placeholders, literals);
    for k := 0 to |placeholders|
      invariant Placed(placeholders[..k], |source|) && previous == End(placeholders[..k])
      invariant Rendered(source, placeholders[..k], literals) == Some(result)
      invariant |used| == |literals| && Marks(used, Indices(placeholders[..k]))
    {
      var placeholder := placeholders[k];
      RenderStep(source, placeholders, k, literals);
      result := result + source[previous..placeholder.start];
      if placeholder.index == 0 || placeholder.index > |literals| || literals[placeholder.index - 1].None? {
        NeverRendered(source, placeholders, literals, k + 1);
        return None;
      }
      used := used[placeholder.index - 1 := true];
      result := result + literals[placeholder.index - 1].value;
      previous := placeholder.end;
    }
    assert placeholders[..|placeholders|] == placeholders;
    AllMarked(used, Indices(placeholders));
    EndInside(placeholders, |source|);
    result := result + source[previous..];
    if exists j :: 0 <= j < |used| && !used[j] {
      return None;
    }
    r := Some(result);
  }

  lemma EndInside(placeholders: seq<SqlPlaceholder>, length: nat)
    requires Placed(placeholders, length)
    ensures End(placeholders) <= length
  {
  }

  lemma NothingRendered(source: string, placeholders: seq<SqlPlaceholder>, literals: seq<Option<string>>)
    ensures Placed(placeholders[..0], |source|) && Rendered(source, placeholders[..0], literals) == Some("")
    ensures Indices(placeholders[..0]) == {}
  {
  }

  lemma {:induction false} PlacedPrefix(placeholders: seq<SqlPlaceholder>, length: nat, k: nat)
    requires Placed(placeholders, length) && k <= |placeholders|
    ensures Placed(placeholders[..k], length)
  {
    if k < |placeholders| {
      var before := placeholders[..|placeholders| - 1];
      PlacedPrefix(before, length, k);
      assert before[..k] == placeholders[..k];
    } else {
      assert placeholders[..k] == placeholders;
    }
  }

  lemma PrefixesOf(placeholders: seq<SqlPlaceholder>, k: nat, length: nat)
    requires Placed(placeholders, length) && k < |placeholders|
    ensures Placed(placeholders[..k + 1], length)
    ensures placeholders[..k + 1] == placeholders[..k] + [placeholders[k]]
    ensures placeholders[..k + 1][..k] == placeholders[..k]
    ensures Indices(placeholders[..k + 1]) == Indices(placeholders[..k]) + {placeholders[k].index}
  {
    PlacedPrefix(placeholders, length, k + 1);
    IndicesSnoc(placeholders[..k], placeholders[k]);
    assert placeholders[..k + 1] == placeholders[..k] + [placeholders[k]];
  }

  lemma {:induction false} NeverRendered(source: string, placeholders: seq<SqlPlaceholder>,
                                         literals: seq<Option<string>>, k: nat)
    requires Placed(placeholders, |source|) && k <= |placeholders| && Placed(placeholders[..k], |source|)
    requires Rendered(source, placeholders[..k], literals).None?
    ensures Rendered(source, placeholders, literals).None?
  {
    if k < |placeholders| {
      var before := placeholders[..|placeholders| - 1];
      assert before[..k] == placeholders[..k];
      NeverRendered(source, before, literals, k);
    } else {
      assert placeholders[..k] == placeholders;
    }
  }

  lemma {:induction false} MarkedIsPlaced(pieces: seq<Piece>, length: nat)
    requires |Text(pieces)| <= length
    ensures Placed(Marked(pieces), length) && End(Marked(pieces)) <= |Text(pieces)|
  {
    if pieces != [] {
      var before, last := pieces[..|pieces| - 1], pieces[|pieces| - 1];
      MarkedIsPlaced(before, length);
      if last.kind.Hole? {
        var marked := Marked(pieces);
        assert marked[..|marked| - 1] == Marked(before);
      } else {
        assert Marked(pieces) == Marked(before);
      }
    }
  }

  lemma {:induction false} MarkedIndices(pieces: seq<Piece>)
    ensures Indices(Marked(pieces)) == UsedIndices(pieces)
  {
    if pieces != [] {
      var before, last := pieces[..|pieces| - 1], pieces[|pieces| - 1];
      MarkedIndices(before);
      UsedPrefix(pieces);
      if last.kind.Hole? {
        IndicesSnoc(Marked(before), SqlPlaceholder(|Text(before)|, |Text(pieces)|, Index(last.text)));
      } else {
        assert Marked(pieces) == Marked(before);
      }
    }
  }

  lemma IndicesSnoc(placeholders: seq<SqlPlaceholder>, more: SqlPlaceholder)
    ensures Indices(placeholders + [more]) == Indices(placeholders) + {more.index}
  {
    var longer := placeholders + [more];
    assert longer[|placeholders|] == more;
    forall n
      ensures n in Indices(longer) <==> n in Indices(placeholders) + {more.index}
    {
      if n in Indices(placeholders) {
        var i :| 0 <= i < |placeholders| && placeholders[i].index == n;
        assert longer[i].index == n;
      }
    }
  }

  lemma UsedPrefix(pieces: seq<Piece>)
    requires pieces != []
    ensures var before, last := pieces[..|pieces| - 1], pieces[|pieces| - 1];
            UsedIndices(pieces) == UsedIndices(before) + if last.kind.Hole? then {Index(last.text)} else {}
  {
    var before, last := pieces[..|pieces| - 1], pieces[|pieces| - 1];
    forall n
      ensures n in UsedIndices(pieces)
              <==> n in UsedIndices(before) + if last.kind.Hole? then {Index(last.text)} else {}
    {
      if n in UsedIndices(pieces) {
        var i :| 0 <= i < |pieces| && pieces[i].kind.Hole? && Index(pieces[i].text) == n;
        assert i < |before| ==> before[i].kind.Hole? && Index(before[i].text) == n;
      }
      if n in UsedIndices(before) {
        var i :| 0 <= i < |before| && before[i].kind.Hole? && Index(before[i].text) == n;
        assert pieces[i].kind.Hole? && Index(pieces[i].text) == n;
      }
      if last.kind.Hole? && n == Index(last.text) {
        assert pieces[|pieces| - 1].kind.Hole?;
      }
    }
  }

  lemma JoinedTwice(t: Option<string>, a: string, b: string)
    ensures Joined(Joined(t, Some(a)), Some(b)) == Joined(t, Some(a + b))
  {
    if t.Some? {
      assert t.value + a + b == t.value + (a + b);
    }
  }

  lemma JoinedEmpty(t: Option<string>, none: string)
    requires |none| == 0
    ensures Joined(t, Some(none)) == t
  {
    if t.Some? {
      assert t.value + none == t.value;
    }
  }

  lemma RenderedHole(source: string, pieces: seq<Piece>, literals: seq<Option<string>>)
    requires pieces != [] && pieces[|pieces| - 1].kind.Hole? && |Text(pieces)| <= |source|
    requires Placed(Marked(pieces), |source|)
    ensures var before, last := pieces[..|pieces| - 1], pieces[|pieces| - 1];
            && Placed(Marked(before), |source|) && End(Marked(before)) <= |Text(before)| <= |source|
            && End(Marked(pieces)) == |Text(pieces)|
            && Rendered(source, Marked(pieces), literals) ==
               Joined(Joined(Rendered(source, Marked(before), literals),
                             Some(source[End(Marked(before))..|Text(before)|])),
                      Literal(literals, Index(last.text)))
  {
    var before := pieces[..|pieces| - 1];
    MarkedIsPlaced(before, |source|);
    var marked := Marked(pieces);
    assert marked[..|marked| - 1] == Marked(before);
  }

  lemma RenderedCode(source: string, pieces: seq<Piece>, literals: seq<Option<string>>)
    requires pieces != [] && !pieces[|pieces| - 1].kind.Hole? && Text(pieces) <= source
    requires Placed(Marked(pieces), |source|)
    ensures var before, last := pieces[..|pieces| - 1], pieces[|pieces| - 1];
            && Marked(before) == Marked(pieces) && End(Marked(pieces)) <= |Text(before)| <= |Text(pieces)|
            && source[End(Marked(pieces))..|Text(pieces)|] == source[End(Marked(pieces))..|Text(before)|] + last.text
  {
    var before, last := pieces[..|pieces| - 1], pieces[|pieces| - 1];
    assert Marked(pieces) == Marked(before);
    MarkedIsPlaced(before, |source|);
    assert source[..|Text(pieces)|] == Text(before) + last.text;
  }

  /** Rendering between the placeholders is filling the pieces. */
  lemma {:induction false} RenderedIsFilled(source: string, pieces: seq<Piece>, literals: seq<Option<string>>)
    requires Text(pieces) <= source && Placed(Marked(pieces), |source|) && End(Marked(pieces)) <= |Text(pieces)|
    ensures Joined(Rendered(source, Marked(pieces), literals), Some(source[End(Marked(pieces))..|Text(pieces)|])) ==
            Filled(pieces, literals)
  {
    hide Joined, Literal, Placed, Index;
    if pieces == [] {
      JoinedEmpty(Some(""), source[0..0]);
    } else {
      var before, last := pieces[..|pieces| - 1], pieces[|pieces| - 1];
      var m, n := |Text(before)|, |Text(pieces)|;
      MarkedIsPlaced(before, |source|);
      RenderedIsFilled(source, before, literals);
      if last.kind.Hole? {
        RenderedHole(source, pieces, literals);
        JoinedEmpty(Rendered(source, Marked(pieces), literals), source[n..n]);
      } else {
        RenderedCode(source, pieces, literals);
        JoinedTwice(Rendered(source, Marked(before), literals), source[End(Marked(before))..m], last.text);
      }
    }
  }

  lemma RenderedIsSubstituted(sql: string, literals: seq<Option<string>>)
    requires '\0' !in sql
    ensures var placeholders := Marked(Pieces("", sql));
            && Placed(placeholders, |sql|) && End(placeholders) <= |sql|
            && Substituted(sql, literals) ==
               if AllUsed(Indices(placeholders), |literals|)
               then Joined(Rendered(sql, placeholders, literals), Some(sql[End(placeholders)..]))
               else None
  {
    hide Marked, Pieces, Rendered, Filled, Placed, Indices, UsedIndices, AllUsed;
    PiecesCover("", sql);
    MarkedIsPlaced(Pieces("", sql), |sql|);
    MarkedIndices(Pieces("", sql));
    RenderedIsFilled(sql, Pieces("", sql), literals);
    assert sql[End(Marked(Pieces("", sql)))..|sql|] == sql[End(Marked(Pieces("", sql)))..];
  }

  /** `substitute_parameters`: parse, then render. */
  method SubstituteParameters(sql: string, literals: seq<Option<string>>) returns (r: Option<string>)
    ensures r == Substituted(sql, literals)
  {
    var template := Parse(sql);
    if template.None? {
      return None;
    }
    RenderedIsSubstituted(sql, literals);
    r := Render(template.value, literals);
  }

  // -- One pass ------------------------------------------------------------------------------------------

  /** A question mark in code. */
  predicate IsQuestion(piece: Piece) {
    piece.kind.Code? && piece.text == "?"
  }

  predicate Asks(pieces: seq<Piece>) {
    exists i :: 0 <= i < |pieces| && IsQuestion(pieces[i])
  }

  function Questions(pieces: seq<Piece>): nat {
    if pieces == [] then 0
    else Questions(pieces[..|pieces| - 1]) + if IsQuestion(pieces[|pieces| - 1]) then 1 else 0
  }

  /** The text with every placeholder written out, where the k-th question mark stands for parameter k. */
  function BoundFilled(pieces: seq<Piece>, literals: seq<Option<string>>): Option<string> {
    if pieces == [] then Some("")
    else
      var before, last := pieces[..|pieces| - 1], pieces[|pieces| - 1];
      Joined(BoundFilled(before, literals),
             if IsQuestion(last) then Literal(literals, Questions(before) + 1) else Written(last, literals))
  }

  /** The parameters used by number, and by the question marks in their order. */
  function BoundUsed(pieces: seq<Piece>): set<nat> {
    if pieces == [] then {}
    else
      var before, last := pieces[..|pieces| - 1], pieces[|pieces| - 1];
      BoundUsed(before) + (if last.kind.Hole? then {Index(last.text)}
                           else if IsQuestion(last) then {Questions(before) + 1} else {})
  }

  /** What `first_placeholder` takes for a placeholder: a number, a question mark, or a colon or an at sign in front of
      a letter or an underscore. */
  predicate StrayAt(pieces: seq<Piece>, i: nat)
    requires i < |pieces|
  {
    || pieces[i].kind.Hole? || IsQuestion(pieces[i])
    || (&& pieces[i].kind.Code? && pieces[i].text in {":", "@"}
        && i + 1 < |pieces| && pieces[i + 1].text != [] && IsTagChar(pieces[i + 1].text[0]))
  }

  predicate Stray(pieces: seq<Piece>) {
    exists i :: 0 <= i < |pieces| && StrayAt(pieces, i)
  }

  /** The result of `substitute_bound_parameters` for positional bindings. Without bindings the text goes through
      unless it has a placeholder. */
  function BoundSubstituted(sql: string, literals: seq<Option<string>>): Option<string> {
    var pieces := Pieces("", sql);
    if '\0' in sql then None
    else if literals == [] then if Stray(pieces) then None else Some(sql)
    else if AllUsed(BoundUsed(pieces), |literals|) then BoundFilled(pieces, literals)
    else None
  }

  /** One turn of the loop in `substitute_bound_parameters`, in code: where the piece ends, its placeholder number if
      it is one, its dollar tag if it is one. */
  method BoundTurn(sql: string, i: nat) returns (kind: Kind, end: nat)
    requires i < |sql|
    ensures (kind, end - i) == Head(sql[i..]) && i < end
  {
    var ch := sql[i];
    assert sql[i..][1..] == sql[i + 1..] && (i + 1 < |sql| ==> sql[i..][2..] == sql[i + 2..]);
    if ch == '-' && i + 1 < |sql| && sql[i + 1] == '-' {
      end := LineEnd(sql, i + 1);
      return Comment, end;
    }
    if ch == '/' && i + 1 < |sql| && sql[i + 1] == '*' {
      end := BlockCommentEnd(sql, i);
      return Comment, end;
    }
    if ch == '\'' || ch == '"' {
      end := QuoteEnd(sql, i + 1, ch);
      return Quote, end;
    }
    if ch == '$' {
      var tag := DollarTag(sql, i);
      if tag > 0 {
        return Tag, i + tag;
      }
      var digits := DollarNumber(sql, i);
      if digits > 0 {
        return Hole, i + digits + 1;
      }
    }
    return Code, i + 1;
  }

  lemma BoundSnoc(done: seq<Piece>, piece: Piece, literals: seq<Option<string>>)
    ensures BoundFilled(done + [piece], literals) ==
            Joined(BoundFilled(done, literals),
                   if IsQuestion(piece) then Literal(literals, Questions(done) + 1) else Written(piece, literals))
    ensures Questions(done + [piece]) == Questions(done) + if IsQuestion(piece) then 1 else 0
    ensures BoundUsed(done + [piece]) == BoundUsed(done) + (
              if piece.kind.Hole? then {Index(piece.text)} else if IsQuestion(piece) then {Questions(done) + 1} else {})
  {
    assert (done + [piece])[..|done|] == done;
  }

  /** A prefix that cannot be filled cannot be completed. */
  lemma {:induction false} NeverBound(done: seq<Piece>, rest: seq<Piece>, literals: seq<Option<string>>)
    requires BoundFilled(done, literals).None?
    ensures BoundFilled(done + rest, literals).None?
  {
    var all := done + rest;
    if rest == [] {
      assert all == done;
    } else {
      NeverBound(done, rest[..|rest| - 1], literals);
      assert all[..|all| - 1] == done + rest[..|rest| - 1];
    }
  }

  /** The piece at `i`, written out: where it ends, the dollar quote behind it, and the parameter it uses. */
  method WritePiece(sql: string, i: nat, dollarQuote: string, literals: seq<Option<string>>, positionalIndex: nat)
    returns (written: Option<string>, end: nat, quote: string, used: set<nat>, question: bool)
    requires i < |sql|
    ensures i < end <= |sql|
    ensures var (piece, tag) := PieceAt(sql, dollarQuote, i);
            && end == i + |piece.text| && quote == tag && question == IsQuestion(piece)
            && written == (if IsQuestion(piece) then Literal(literals, positionalIndex + 1)
                           else Written(piece, literals))
            && used == (if piece.kind.Hole? then {Index(piece.text)}
                        else if IsQuestion(piece) then {positionalIndex + 1} else {})
  {
    used, question := {}, false;
    if dollarQuote != "" {
      QuotedTurn(sql, dollarQuote, i);
      if dollarQuote <= sql[i..] {
        return Some(dollarQuote), i + |dollarQuote|, "", {}, false;
      }
      return Some(sql[i..i + 1]), i + 1, dollarQuote, {}, false;
    }
    var kind: Kind;
    kind, end := BoundTurn(sql, i);
    CodeTurn(sql, kind, i, end);
    quote := if kind.Tag? then sql[i..end] else "";
    if kind.Hole? {
      var index := Index(sql[i..end]);
      return Literal(literals, index), end, quote, {index}, false;
    }
    if kind.Code? && sql[i] == '?' {
      assert sql[i..end] == "?";
      return Literal(literals, positionalIndex + 1), end, quote, {positionalIndex + 1}, true;
    }
    assert sql[i..end] != "?" || !kind.Code? by {
      assert sql[i..end][0] == sql[i];
    }
    written := Some(sql[i..end]);
  }

  /** The loop's variables say what is written so far. */
  ghost predicate Bound(done: seq<Piece>, literals: seq<Option<string>>, result: string, used: set<nat>,
                        positionalIndex: nat)
  {
    BoundFilled(done, literals) == Some(result) && positionalIndex == Questions(done) && used == BoundUsed(done)
  }

  /** One turn of the loop in `substitute_bound_parameters`; without a result the whole substitution fails. */
  method BindTurn(sql: string, i: nat, dollarQuote: string, literals: seq<Option<string>>, result: string,
                  used: set<nat>, positionalIndex: nat, ghost done: seq<Piece>)
    returns (result': Option<string>, end: nat, quote: string, used': set<nat>, positionalIndex': nat,
             ghost done': seq<Piece>)
    requires Reading(sql, done, dollarQuote, i) && i < |sql| && Bound(done, literals, result, used, positionalIndex)
    ensures i < end <= |sql| && Reading(sql, done', quote, end)
    ensures result'.Some? ==> Bound(done', literals, result'.value, used', positionalIndex')
    ensures result'.None? ==> BoundFilled(done', literals).None?
  {
    hide Head, Pieces;
    ReadOne(sql, done, dollarQuote, i);
    ghost var piece := PieceAt(sql, dollarQuote, i).0;
    BoundSnoc(done, piece, literals);
    done' := done + [piece];
    var written, more, question;
    written, end, quote, more, question := WritePiece(sql, i, dollarQuote, literals, positionalIndex);
    used' := used + more;
    positionalIndex' := if question then positionalIndex + 1 else positionalIndex;
    result' := if written.Some? then Some(result + written.value) else None;
  }

  lemma StrayHere(done: seq<Piece>, piece: Piece, rest: seq<Piece>)
    ensures var all := done + ([piece] + rest);
            StrayAt(all, |done|) <==>
              || piece.kind.Hole? || IsQuestion(piece)
              || (&& piece.kind.Code? && piece.text in {":", "@"}
                  && rest != [] && rest[0].text != [] && IsTagChar(rest[0].text[0]))
  {
    var all := done + ([piece] + rest);
    assert all[|done|] == piece && (rest != [] ==> all[|done| + 1] == rest[0]);
  }

  lemma PieceStarts(tag: string, s: string)
    ensures Pieces(tag, s) == [] <==> s == []
    ensures s != [] ==> Pieces(tag, s)[0].text != [] && Pieces(tag, s)[0].text[0] == s[0]
  {
  }

  /** The piece at `i` is stray just when the loop of `first_placeholder` says so. */
  lemma StrayTurn(sql: string, done: seq<Piece>, tag: string, i: nat)
    requires Reading(sql, done, tag, i) && i < |sql|
    ensures var piece, j := PieceAt(sql, tag, i).0, i + |PieceAt(sql, tag, i).0.text|;
            && |done| < |Pieces("", sql)|
            && (StrayAt(Pieces("", sql), |done|) <==>
                  || piece.kind.Hole? || IsQuestion(piece)
                  || (piece.kind.Code? && piece.text in {":", "@"} && j < |sql| && IsTagChar(sql[j])))
  {
    hide Head, Pieces, StrayAt;
    var (piece, tag') := PieceAt(sql, tag, i);
    var j := i + |piece.text|;
    PiecesStep(sql, tag, i);
    StrayHere(done, piece, Pieces(tag', sql[j..]));
    PieceStarts(tag', sql[j..]);
  }

  /** Whether `first_placeholder` finds something. */
  method FirstPlaceholder(sql: string) returns (found: bool)
    ensures found <==> Stray(Pieces("", sql))
  {
    hide Head, Pieces, StrayAt;
    var i, dollarQuote := 0, "";
    ghost var done: seq<Piece> := [];
    ReadNone(sql);
    while i < |sql|
      invariant Reading(sql, done, dollarQuote, i)
      invariant |done| <= |Pieces("", sql)| && forall k :: 0 <= k < |done| ==> !StrayAt(Pieces("", sql), k)
    {
      StrayTurn(sql, done, dollarQuote, i);
      ReadOne(sql, done, dollarQuote, i);
      done := done + [PieceAt(sql, dollarQuote, i).0];
      if dollarQuote != "" {
        QuotedTurn(sql, dollarQuote, i);
        if dollarQuote <= sql[i..] {
          i, dollarQuote := i + |dollarQuote|, "";
        } else {
          i := i + 1;
        }
      } else {
        var kind, end := BoundTurn(sql, i);
        CodeTurn(sql, kind, i, end);
        assert kind.Code? ==> sql[i..end] == [sql[i]];
        if kind.Hole? {
          return true;
        }
        if kind.Code? && (sql[i] == ':' || sql[i] == '@') && i + 1 < |sql| && IsTagChar(sql[i + 1]) {
          return true;
        }
        if kind.Code? && sql[i] == '?' {
          return true;
        }
        dollarQuote := if kind.Tag? then sql[i..end] else "";
        i := end;
      }
    }
    ReadAll(sql, done, dollarQuote);
    found := false;
  }

  /** `substitute_bound_parameters`, for positional bindings. */
  method SubstituteBoundParameters(sql: string, literals: seq<Option<string>>) returns (r: Option<string>)
    ensures r == BoundSubstituted(sql, literals)
  {
    if '\0' in sql {
      return None;
    }
    if literals == [] {
      var found := FirstPlaceholder(sql);
      return if found then None else Some(sql);
    }
    var result, dollarQuote := "", "";
    var usedPositional: set<nat> := {};
    var positionalIndex, i := 0, 0;
    ghost var done: seq<Piece> := [];
    ReadNone(sql);
    while i < |sql|
      invariant Reading(sql, done, dollarQuote, i)
      invariant Bound(done, literals, result, usedPositional, positionalIndex)
    {
      var written, end, quote, used, index, longer :=
        BindTurn(sql, i, dollarQuote, literals, result, usedPositional, positionalIndex, done);
      if written.None? {
        NeverBound(longer, Pieces(quote, sql[end..]), literals);
        return None;
      }
      result, usedPositional, positionalIndex, done := written.value, used, index, longer;
      i, dollarQuote := end, quote;
    }
    ReadAll(sql, done, dollarQuote);
    if exists index :: 1 <= index <= |literals| && index !in usedPositional {
      return None;
    }
    r := Some(result);
  }

  // -- One pass is two passes --------------------------------------------------------------------------------

  lemma {:induction false} NoQuestions(pieces: seq<Piece>, literals: seq<Option<string>>)
    requires !Asks(pieces)
    ensures Questions(pieces) == 0 && BoundFilled(pieces, literals) == Filled(pieces, literals)
    ensures BoundUsed(pieces) == UsedIndices(pieces)
  {
    if pieces != [] {
      NoQuestions(pieces[..|pieces| - 1], literals);
      UsedPrefix(pieces);
    }
  }

  /** Without a question mark in code the two substitutions succeed on the same inputs, with the same text. */
  lemma OnePassIsTwoPass(sql: string, literals: seq<Option<string>>)
    requires literals != [] && !Asks(Pieces("", sql))
    ensures BoundSubstituted(sql, literals) == Substituted(sql, literals)
  {
    NoQuestions(Pieces("", sql), literals);
  }

  /** Two texts with different characters at one place. */
  predicate Differ(x: string, y: string) {
    exists i :: 0 <= i < |x| && i < |y| && x[i] != y[i]
  }

  lemma DifferOn(x: string, y: string, more: string, other: string)
    requires Differ(x, y)
    ensures Differ(x + more, y + other)
  {
    var i :| 0 <= i < |x| && i < |y| && x[i] != y[i];
    assert (x + more)[i] == x[i] && (y + other)[i] == y[i];
  }

  /** No literal begins with a question mark. */
  predicate NoneAsks(literals: seq<Option<string>>) {
    forall k :: 0 <= k < |literals| && literals[k].Some? ==> literals[k].value != [] && literals[k].value[0] != '?'
  }

  /** The first question mark in code becomes a literal in one pass, and stays in two. */
  lemma {:induction false} FirstQuestionDecides(pieces: seq<Piece>, literals: seq<Option<string>>)
    requires NoneAsks(literals) && Asks(pieces)
    requires BoundFilled(pieces, literals).Some? && Filled(pieces, literals).Some?
    ensures Differ(BoundFilled(pieces, literals).value, Filled(pieces, literals).value)
  {
    var before, last := pieces[..|pieces| - 1], pieces[|pieces| - 1];
    var x, y := BoundFilled(before, literals).value, Filled(before, literals).value;
    var more := if IsQuestion(last) then Literal(literals, Questions(before) + 1) else Written(last, literals);
    if Asks(before) {
      FirstQuestionDecides(before, literals);
      DifferOn(x, y, more.value, Written(last, literals).value);
    } else {
      NoQuestions(before, literals);
      assert IsQuestion(last) && x == y;
      assert (x + more.value)[|x|] == more.value[0] && (y + "?")[|x|] == '?';
    }
  }

  lemma {:induction false} FilledWithNothing(pieces: seq<Piece>)
    requires Filled(pieces, []).Some?
    ensures Filled(pieces, []) == Some(Text(pieces))
  {
    if pieces != [] {
      FilledWithNothing(pieces[..|pieces| - 1]);
    }
  }

  /** Where two passes succeed, one pass gives the same if and only if no question mark stands in code; without
      bindings, if and only if nothing in code looks like a placeholder. */
  lemma QuestionsDiffer(sql: string, literals: seq<Option<string>>)
    requires NoneAsks(literals) && Substituted(sql, literals).Some?
    ensures BoundSubstituted(sql, literals) == Substituted(sql, literals)
            <==> if literals == [] then !Stray(Pieces("", sql)) else !Asks(Pieces("", sql))
  {
    hide Pieces, Stray, Asks;
    if literals == [] {
      FilledWithNothing(Pieces("", sql));
      PiecesCover("", sql);
    } else if !Asks(Pieces("", sql)) {
      OnePassIsTwoPass(sql, literals);
    } else if BoundSubstituted(sql, literals).Some? {
      FirstQuestionDecides(Pieces("", sql), literals);
    }
  }
}

/** Exactly when rendering keeps lexical structure (src/params.rs): if and only if no quote of a literal meets a quote,
    and no minus of a literal meets a minus. */
module SqlStructure {
  import opened Bytes
  import opened SqlTemplates
  import opened SqlLiterals
  import opened SqlRelexing

  // -- Neighbours in a lexed text ---------------------------------------------------------------------

  predicate Touch(x: string, y: string) {
    x != [] && y != [] && ((x[|x| - 1] == '\'' && y[0] == '\'') || (x[|x| - 1] == '-' && y[0] == '-'))
  }

  /** Outside dollar quotes no piece ends in a quote before a quote, or in a minus before a minus. */
  predicate Calm(pieces: seq<Piece>) {
    |pieces| < 2 || ((pieces[0].kind.Body? || !Touch(pieces[0].text, pieces[1].text)) && Calm(pieces[1..]))
  }

  lemma {:induction false} LineEnds(x: string)
    requires LineLength(x) < |x|
    ensures LineLength(x) > 0 && x[LineLength(x) - 1] == '\n'
  {
    if x[0] != '\n' {
      LineEnds(x[1..]);
    }
  }

  lemma {:induction false} BlockEnds(x: string, depth: nat)
    requires depth > 0 && BlockLength(x, depth) < |x|
    ensures BlockLength(x, depth) > 0 && x[BlockLength(x, depth) - 1] == '/'
    decreases |x|
  {
    if x[0] == '/' && x[1] == '*' {
      BlockEnds(x[2..], depth + 1);
    } else if x[0] == '*' && x[1] == '/' {
      if depth > 1 {
        BlockEnds(x[2..], depth - 1);
      }
    } else {
      BlockEnds(x[1..], depth);
    }
  }

  lemma {:induction false} TagEnds(x: string)
    requires TagLength(x) > 0
    ensures x[TagLength(x) - 1] == '$'
  {
    if x[0] != '$' {
      TagEnds(x[1..]);
    }
  }

  /** The piece at the front of code does not touch what follows it. */
  lemma HeadIsCalm(s: string)
    requires s != [] && Head(s).1 < |s|
    ensures !Touch(s[..Head(s).1], s[Head(s).1..])
    ensures Head(s).0.Tag? ==> s[Head(s).1 - 1] == '$'
  {
    var rest := s[1..];
    if s[0] == '-' && rest[0] == '-' {
      LineEnds(rest);
    } else if s[0] == '/' && rest[0] == '*' {
      BlockEnds(s[2..], 1);
    } else if s[0] == '\'' || s[0] == '"' {
      QuoteEnds(rest, s[0]);
    } else if s[0] == '$' && TagLength(rest) > 0 {
      TagEnds(rest);
    } else if s[0] == '$' && DigitCount(rest) > 0 {
      DigitsArePlain(rest);
    }
  }

  /** A dollar tag, or nothing. */
  predicate IsTag(tag: string) {
    tag == "" || tag[|tag| - 1] == '$'
  }

  lemma NextIsCalm(tag: string, s: string)
    requires IsTag(tag) && s != [] && |Next(tag, s).0.text| < |s|
    ensures var (piece, tag') := Next(tag, s);
            && (piece.kind.Body? || !Touch(piece.text, s[|piece.text|..]))
            && IsTag(tag') && (piece.kind.Body? ==> tag' != "")
  {
    if tag == "" {
      HeadIsCalm(s);
    }
  }

  lemma {:induction false} PiecesAreCalm(tag: string, s: string)
    requires IsTag(tag)
    ensures Calm(Pieces(tag, s))
    decreases |s|
  {
    if s != [] {
      var (piece, tag') := Next(tag, s);
      var rest := s[|piece.text|..];
      if rest != [] {
        NextIsCalm(tag, s);
        PiecesAreCalm(tag', rest);
        assert Pieces(tag, s) == [piece] + Pieces(tag', rest);
        assert Next(tag', rest).0.text[0] == rest[0];
      }
    }
  }

  // -- Neighbours in an expanded template -------------------------------------------------------------

  lemma {:induction false} CalmParts(a: seq<Piece>, b: seq<Piece>)
    requires Calm(a + b)
    ensures Calm(b)
    ensures a != [] && b != [] ==> a[|a| - 1].kind.Body? || !Touch(a[|a| - 1].text, b[0].text)
  {
    if a == [] {
      assert a + b == b;
    } else {
      FirstOfConcat(a, b);
      assert b != [] ==> (a + b)[1] == if |a| > 1 then a[1] else b[0];
      CalmParts(a[1..], b);
    }
  }

  lemma PiecesFirst(tag: string, s: string)
    requires s != []
    ensures var (piece, tag') := Next(tag, s);
            && Pieces(tag, s) == [piece] + Pieces(tag', s[|piece.text|..])
            && piece.text != [] && piece.text[0] == s[0] && s == piece.text + s[|piece.text|..]
    ensures Pieces(tag, []) == []
  {
  }

  /** The first and the last piece of a text begin and end as the text does. */
  lemma {:induction false} PiecesEnd(tag: string, s: string)
    requires s != []
    ensures var pieces := Pieces(tag, s);
            && pieces != []
            && var first, last := pieces[0].text, pieces[|pieces| - 1].text;
            first != [] && first[0] == s[0] && last != [] && last[|last| - 1] == s[|s| - 1]
    decreases |s|
  {
    hide Next, Pieces;
    var (piece, tag') := Next(tag, s);
    var rest := s[|piece.text|..];
    PiecesFirst(tag, s);
    if rest != [] {
      PiecesEnd(tag', rest);
    } else {
      PiecesFirst(tag', s);
    }
  }

  /** What one piece of the template becomes. */
  function Part(piece: Piece, literals: seq<Option<string>>): seq<Piece> {
    if piece.kind.Hole? then Pieces("", OutText(piece, literals)) else [piece]
  }

  lemma PartEnds(piece: Piece, literals: seq<Option<string>>)
    requires piece.text != [] && Covered([piece], literals)
    ensures var part, text := Part(piece, literals), OutText(piece, literals);
            && text != [] && part != []
            && part[0].text != [] && part[0].text[0] == text[0]
            && var last := part[|part| - 1];
            last.text != [] && last.text[|last.text| - 1] == text[|text| - 1] && (last.kind.Body? ==> piece.kind.Body?)
  {
    hide Pieces;
    if piece.kind.Hole? {
      assert [piece][0] == piece;
      var text := OutText(piece, literals);
      assert LexesAlone(text);
      PiecesEnd("", text);
      assert Pieces("", text)[|Pieces("", text)| - 1].kind in {Code, Quote};
    }
  }

  /** Where the expanded template is calm, the template's own neighbours fit. */
  lemma NeighboursFit(a: Piece, b: Piece, behind: seq<Piece>, literals: seq<Option<string>>)
    requires a.text != [] && b.text != [] && Covered([a], literals) && Covered([b], literals)
    requires a.kind.Body? ==> !b.kind.Hole?
    requires Calm(Part(a, literals) + (Part(b, literals) + behind))
    ensures Fit(a, b, literals)
  {
    hide Part, Calm;
    PartEnds(a, literals);
    PartEnds(b, literals);
    CalmParts(Part(a, literals), Part(b, literals) + behind);
    FirstOfConcat(Part(b, literals), behind);
  }

  lemma ExpandedFirst(piece: Piece, pieces: seq<Piece>, literals: seq<Option<string>>)
    ensures Expanded([piece] + pieces, literals) == Part(piece, literals) + Expanded(pieces, literals)
  {
    assert ([piece] + pieces)[1..] == pieces;
  }

  lemma ApartFirst(piece: Piece, pieces: seq<Piece>, literals: seq<Option<string>>)
    requires Apart(pieces, literals) && (pieces != [] ==> Fit(piece, pieces[0], literals))
    ensures Apart([piece] + pieces, literals)
  {
    assert ([piece] + pieces)[1..] == pieces;
  }

  lemma CoveredParts(piece: Piece, pieces: seq<Piece>, literals: seq<Option<string>>)
    requires Covered([piece] + pieces, literals)
    ensures Covered([piece], literals) && Covered(pieces, literals)
    ensures pieces != [] ==> Covered([pieces[0]], literals)
  {
    assert ([piece] + pieces)[0] == piece && ([piece] + pieces)[1..] == pieces;
    CoveredBehind([piece] + pieces, literals);
  }

  lemma {:induction false} CalmIsApart(tag: string, s: string, literals: seq<Option<string>>)
    requires IsTag(tag) && Covered(Pieces(tag, s), literals) && Calm(Expanded(Pieces(tag, s), literals))
    ensures Apart(Pieces(tag, s), literals)
    decreases |s|
  {
    if s != [] {
      hide Next, Pieces, Expanded, Calm, Apart, Covered, Part, Fit;
      var (piece, tag') := Next(tag, s);
      var rest := s[|piece.text|..];
      var pieces := Pieces(tag', rest);
      PiecesFirst(tag, s);
      ExpandedFirst(piece, pieces, literals);
      CoveredParts(piece, pieces, literals);
      CalmParts(Part(piece, literals), Expanded(pieces, literals));
      if rest != [] {
        NextIsCalm(tag, s);
        CalmIsApart(tag', rest, literals);
        FitsFirst(tag, s, tag', rest, literals);
      } else {
        PiecesFirst(tag', s);
        NothingApart(literals);
      }
      ApartFirst(piece, pieces, literals);
    }
  }

  lemma NothingApart(literals: seq<Option<string>>)
    ensures Apart([], literals)
  {
  }

  /** The first two pieces fit. */
  lemma FitsFirst(tag: string, s: string, tag': string, rest: string, literals: seq<Option<string>>)
    requires s != [] && rest != [] && Next(tag, s).1 == tag' && s[|Next(tag, s).0.text|..] == rest
    requires Next(tag, s).0.kind.Body? ==> tag' != ""
    requires Covered(Pieces(tag, s), literals) && Calm(Expanded(Pieces(tag, s), literals))
    ensures Pieces(tag', rest) != [] && Fit(Next(tag, s).0, Pieces(tag', rest)[0], literals)
  {
    var a, b := Next(tag, s).0, Next(tag', rest).0;
    PiecesFirst(tag, s);
    PiecesFirst(tag', rest);
    assert a.kind.Body? ==> !b.kind.Hole?;
    hide Next, Pieces, Expanded, Calm, Covered, Part, Fit;
    var pieces, behind := Pieces(tag', rest), Pieces(Next(tag', rest).1, rest[|b.text|..]);
    ExpandedFirst(a, pieces, literals);
    ExpandedFirst(b, behind, literals);
    CoveredParts(a, pieces, literals);
    assert pieces[0] == b;
    NeighboursFit(a, b, Expanded(behind, literals), literals);
  }

  // -- The theorem --------------------------------------------------------------------------------------

  /** Lexing the rendered text finds the comments, quoted strings and dollar-quoted bodies of the template and exactly
      the literals of the values. */
  predicate KeepsStructure(sql: string, values: seq<SqlValue>)
    requires Substituted(sql, Literals(values)).Some?
  {
    Pieces("", Substituted(sql, Literals(values)).value) == Expanded(Pieces("", sql), Literals(values))
  }

  /** Rendering keeps lexical structure if and only if no quote meets a quote and no minus a minus around a
      placeholder; and then no placeholder is left. */
  lemma RenderingKeepsStructure(sql: string, values: seq<SqlValue>)
    requires Substituted(sql, Literals(values)).Some?
    ensures KeepsStructure(sql, values) <==> Apart(Pieces("", sql), Literals(values))
    ensures KeepsStructure(sql, values) ==> !HasHole(Pieces("", Substituted(sql, Literals(values)).value))
  {
    if Apart(Pieces("", sql), Literals(values)) {
      ApartKeepsStructure(sql, values);
    } else {
      FilledIsOut(Pieces("", sql), Literals(values));
      ValuesCover(Pieces("", sql), values);
      PiecesAreCalm("", Substituted(sql, Literals(values)).value);
      if KeepsStructure(sql, values) {
        CalmIsApart("", sql, Literals(values));
      }
    }
  }

  lemma {:induction false} EscapedConcat(a: string, b: string)
    ensures Escaped(a + b) == Escaped(a) + Escaped(b)
  {
    if a == [] {
      assert a + b == b;
    } else {
      EscapedConcat(a[1..], b);
      assert (a + b)[1..] == a[1..] + b;
      var c := if a[0] == '\'' then "''" else [a[0]];
      assert c + (Escaped(a[1..]) + Escaped(b)) == (c + Escaped(a[1..])) + Escaped(b);
    }
  }

  lemma QuotedJoin(a: string, b: string)
    ensures Quoted(a) + Quoted(b) == Quoted(a + "'" + b)
  {
    EscapedConcat(a + "'", b);
    EscapedConcat(a, "'");
    assert Escaped("'") == "''" by {
      assert "'"[1..] == [];
    }
    JoinParts(Escaped(a), Escaped(b));
  }

  lemma JoinParts(a: string, b: string)
    ensures ("'" + a + "'") + ("'" + b + "'") == "'" + (a + "''" + b) + "'"
  {
  }

  lemma QuotedAlone(v: string)
    ensures Pieces("", Quoted(v)) == [Piece(Quote, Quoted(v))] && ReadText(Quoted(v)) == Some(v)
  {
    QuotedHead(v, []);
    QuotedReadsBack(v, []);
    assert Quoted(v) + [] == Quoted(v);
  }

  // -- Where it fails -------------------------------------------------------------------------------------

  /** A text value without NUL and backslash is one quoted string. */
  predicate OneString(v: string) {
    '\0' !in v && '\\' !in v
  }

  lemma OneDigit(c: char)
    requires '1' <= c <= '9'
    ensures Index(['$', c]) == c as int - '0' as int
  {
    assert ['$', c][1..] == [c] && [c][..0] == [];
    assert Value([c]) == 10 * Value([]) + (c as int - '0' as int) % 10;
  }

  lemma HoleHead(c: char, rest: string)
    requires '1' <= c <= '9' && (rest == [] || rest[0] == '$')
    ensures Head(['$', c] + rest) == (Hole, 2)
  {
    hide Pieces;
    var s := ['$', c] + rest;
    assert s[1..] == [c] + rest && s[1..][1..] == rest && DigitCount(rest) == 0;
    assert TagLength(s[1..]) == 0 && DigitCount(s[1..]) == 1;
  }

  lemma HoleFirst(c: char, rest: string)
    requires '1' <= c <= '9' && (rest == [] || rest[0] == '$')
    ensures Pieces("", ['$', c] + rest) == [Piece(Hole, ['$', c])] + Pieces("", rest)
  {
    hide Pieces, Head;
    HoleHead(c, rest);
    FirstPiece(['$', c] + rest, Hole, ['$', c], rest);
  }

  lemma TwoHoles()
    ensures Pieces("", "$1$2") == [Piece(Hole, "$1"), Piece(Hole, "$2")] && Index("$1") == 1 && Index("$2") == 2
  {
    hide Pieces, Index;
    HoleFirst('1', "$2");
    HoleFirst('2', []);
    NothingLexes([]);
    OneDigit('1');
    OneDigit('2');
    assert ['$', '1'] + "$2" == "$1$2" && "$2" + [] == "$2";
  }

  lemma MinusHead(s: string)
    requires |s| > 1 && s[0] == '-' && s[1] == '$'
    ensures Head(s) == (Code, 1)
  {
    hide LineLength, BlockLength, QuoteLength, TagLength, DigitCount;
  }

  lemma MinusHole()
    ensures Pieces("", "-$1") == [Piece(Code, "-"), Piece(Hole, "$1")] && Index("$1") == 1
  {
    hide Pieces, Index, Head;
    MinusHead("-$1");
    FirstPiece("-$1", Code, "-", "$1");
    HoleFirst('1', []);
    NothingLexes([]);
    OneDigit('1');
    assert ['$', '1'] + [] == "$1";
  }

  lemma FilledTwo(a: Piece, b: Piece, literals: seq<Option<string>>)
    requires Written(a, literals).Some? && Written(b, literals).Some?
    ensures Filled([a, b], literals) == Some(Written(a, literals).value + Written(b, literals).value)
  {
    hide Written;
    var none: seq<Piece> := [];
    assert [a, b][..1] == [a] && [a][..0] == none;
    assert Filled(none, literals) == Some("");
    assert "" + Written(a, literals).value == Written(a, literals).value;
    assert Filled([a], literals) == Written(a, literals);
  }

  /** The text "$1$2" with two text values: the literals become one quoted string, with another value. */
  lemma NeighboursJoin(a: string, b: string)
    requires OneString(a) && OneString(b)
    ensures var values := [TextValue(a), TextValue(b)];
            && Substituted("$1$2", Literals(values)) == Some(Quoted(a) + Quoted(b))
            && Pieces("", Quoted(a) + Quoted(b)) == [Piece(Quote, Quoted(a) + Quoted(b))]
            && ReadText(Quoted(a) + Quoted(b)) == Some(a + "'" + b)
            && !KeepsStructure("$1$2", values)
  {
    hide Pieces, Index, Filled, Quoted, KeepsStructure, ReadText;
    var values := [TextValue(a), TextValue(b)];
    TwoHoles();
    FilledTwo(Piece(Hole, "$1"), Piece(Hole, "$2"), Literals(values));
    UsedTwo(Piece(Hole, "$1"), Piece(Hole, "$2"));
    QuotedJoin(a, b);
    QuotedAlone(a + "'" + b);
    QuotesTouch(a, b);
    RenderingKeepsStructure("$1$2", values);
  }

  lemma UsedTwo(a: Piece, b: Piece)
    ensures b.kind.Hole? ==> Index(b.text) in UsedIndices([a, b])
    ensures a.kind.Hole? ==> Index(a.text) in UsedIndices([a, b])
  {
    assert [a, b][0] == a && [a, b][1] == b;
  }

  lemma QuotesTouch(a: string, b: string)
    ensures Touch(Quoted(a), Quoted(b))
  {
  }

  lemma CommentOpens(digits: string)
    requires digits != [] && digits[0] == '-'
    ensures Pieces("", "-" + digits) != [] && Pieces("", "-" + digits)[0].kind.Comment?
  {
    assert ("-" + digits)[1..] == digits;
  }

  lemma NumberIsWritten(digits: string)
    requires IsNumeric(digits)
    ensures Literals([Number(digits)]) == [Some(digits)]
  {
    hide IsNumeric;
  }

  lemma MinusRenders(literal: string)
    ensures Substituted("-$1", [Some(literal)]) == Some("-" + literal)
    ensures literal != [] && literal[0] == '-' ==> !Apart(Pieces("", "-$1"), [Some(literal)])
  {
    hide Pieces, Index, Filled, Head;
    MinusHole();
    FilledTwo(Piece(Code, "-"), Piece(Hole, "$1"), [Some(literal)]);
    UsedTwo(Piece(Code, "-"), Piece(Hole, "$1"));
  }

  /** The text "-$1" with a negative number: the minus and the literal open a comment. */
  lemma MinusOpensComment(digits: string)
    requires digits != [] && digits[0] == '-' && IsNumeric(digits)
    ensures var values := [Number(digits)];
            && Substituted("-$1", Literals(values)) == Some("-" + digits)
            && Pieces("", "-" + digits) != [] && Pieces("", "-" + digits)[0].kind.Comment?
            && !KeepsStructure("-$1", values)
  {
    hide Pieces, Substituted, Apart, Literals, IsNumeric, KeepsStructure;
    CommentOpens(digits);
    NumberIsWritten(digits);
    MinusRenders(digits);
    RenderingKeepsStructure("-$1", [Number(digits)]);
  }

  lemma {:induction false} PlainPieces(c: string, i: nat)
    requires Plain(c) && i < |c|
    ensures |Pieces("", c)| == |c| && Pieces("", c)[i] == Piece(Code, [c[i]])
    decreases |c|
  {
    hide Pieces, Plain;
    PlainFirst(c, []);
    PlainHead(c, []);
    NothingLexes([]);
    assert c + [] == c && c[1..] + [] == c[1..];
    if |c| > 1 {
      PlainPieces(c[1..], if i > 0 then i - 1 else 0);
    }
  }

  /** Without bindings one pass refuses every cast, because the second colon and the type look like a named
      placeholder; two passes let it through. Here for text without quotes, comments and dollar signs. */
  lemma CastIsRefused(sql: string, i: nat)
    requires Plain(sql) && '\0' !in sql && i + 2 < |sql| && sql[i] == ':' && sql[i + 1] == ':' && IsTagChar(sql[i + 2])
    ensures BoundSubstituted(sql, []) == None && Substituted(sql, []) == Some(sql)
  {
    hide Pieces, Plain;
    PlainPieces(sql, i + 1);
    PlainPieces(sql, i + 2);
    assert StrayAt(Pieces("", sql), i + 1);
    forall k: nat | k < |sql|
      ensures Pieces("", sql)[k].kind == Code
    {
      PlainPieces(sql, k);
    }
    FilledPlain(Pieces("", sql));
    PiecesCover("", sql);
  }

  lemma {:induction false} FilledPlain(pieces: seq<Piece>)
    requires forall i :: 0 <= i < |pieces| ==> !pieces[i].kind.Hole?
    ensures Filled(pieces, []) == Some(Text(pieces))
  {
    if pieces != [] {
      FilledPlain(pieces[..|pieces| - 1]);
    }
  }
}

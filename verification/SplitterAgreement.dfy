/** The statement splitter of src/messages.rs against the lexer of parameters of src/params.rs: where the two take the
    same regions of a text for comments, bodies and strings, and that the splitter then cuts at the semicolons in
    code. */
module SplitterAgreement {
  import opened Bytes
  import opened SqlTemplates
  import opened SqlRelexing
  import opened Statements

  // -- One comment and one tag ------------------------------------------------------------------------

  /** The first close mark in the text of a comment. */
  function Close(t: string): (p: Option<nat>)
    ensures p.Some? ==> p.value + 2 <= |t|
  {
    Find(t, "*/")
  }

  lemma CloseStep(t: string)
    requires |t| >= 2
    ensures t[0] == '*' && t[1] == '/' <==> Close(t) == Some(0)
    ensures !(t[0] == '*' && t[1] == '/') ==>
              Close(t) == if Close(t[1..]).Some? then Some(Close(t[1..]).value + 1) else None
  {
    assert "*/" <= t <==> t[0] == '*' && t[1] == '/';
  }

  lemma CloseOfShort(t: string)
    requires |t| < 2
    ensures Close(t).None?
  {
  }

  /** In an outer comment the first close mark is not the end, unless the text ends with it. */
  lemma {:induction false} InnerClose(t: string, depth: nat)
    requires depth > 0
    ensures Close(t).None? ==> BlockLength(t, depth) == |t|
    ensures Close(t).Some? && depth > 1 ==> BlockLength(t, depth) > Close(t).value + 2 || BlockLength(t, depth) == |t|
    decreases |t|
  {
    hide Close;
    if |t| < 2 {
      CloseOfShort(t);
    } else {
      CloseStep(t);
      if t[0] == '/' && t[1] == '*' {
        assert t[1..][1..] == t[2..];
        if |t| > 2 {
          CloseStep(t[1..]);
        } else {
          CloseOfShort(t[1..]);
        }
        InnerClose(t[2..], depth + 1);
        LongEnough(t[2..], depth + 1);
      } else if t[0] == '*' && t[1] == '/' {
        if depth > 1 {
          LongEnough(t[2..], depth - 1);
        }
      } else {
        InnerClose(t[1..], depth);
      }
    }
  }

  lemma LongEnough(t: string, depth: nat)
    requires depth > 0
    ensures BlockLength(t, depth) == |t| || BlockLength(t, depth) >= 2
  {
    if BlockLength(t, depth) < |t| {
      BlockIsLong(t, depth);
    }
  }

  /** Another comment opens before the first close mark, and text follows that. */
  predicate Nests(t: string) {
    && Close(t).Some? && Close(t).value + 2 < |t|
    && exists i :: 0 <= i < Close(t).value && OpensAt(t, i)
  }

  predicate OpensAt(t: string, i: nat)
    requires i + 1 < |t|
  {
    t[i] == '/' && t[i + 1] == '*'
  }

  lemma NestsBehind(t: string)
    requires |t| >= 2 && !OpensAt(t, 0) && !(t[0] == '*' && t[1] == '/')
    ensures Nests(t) <==> Nests(t[1..])
  {
    hide Close;
    CloseStep(t);
    if Nests(t) {
      var i :| 0 <= i < Close(t).value && OpensAt(t, i);
      assert OpensAt(t[1..], i - 1);
    }
    if Nests(t[1..]) {
      var i :| 0 <= i < Close(t[1..]).value && OpensAt(t[1..], i);
      assert OpensAt(t, i + 1);
    }
  }

  lemma {:induction false} BlocksAgree(t: string)
    ensures Through(t, "*/") == BlockLength(t, 1) <==> !Nests(t)
    decreases |t|
  {
    if |t| < 2 {
      CloseOfShort(t);
    } else {
      CloseStep(t);
      if OpensAt(t, 0) {
        OpeningDecides(t);
      } else if !(t[0] == '*' && t[1] == '/') {
        NestsBehind(t);
        BlocksAgree(t[1..]);
      }
    }
  }

  lemma OpeningDecides(t: string)
    requires |t| >= 2 && OpensAt(t, 0)
    ensures Through(t, "*/") == BlockLength(t, 1) <==> !Nests(t)
  {
    CloseStep(t);
    assert t[1..][1..] == t[2..];
    if |t| > 2 {
      CloseStep(t[1..]);
    } else {
      CloseOfShort(t[1..]);
    }
    InnerClose(t[2..], 2);
    LongEnough(t[2..], 2);
  }

  /** The splitter and the lexer of parameters end a block comment at the same place if and only if no other comment
      opens in it before its first close mark, or the text ends there. */
  lemma CommentsAgree(prev: char, s: string)
    requires |s| >= 2 && s[0] == '/' && s[1] == '*'
    ensures |Raw(HeadSpan(prev, s))| == Head(s).1 <==> !Nests(s[2..])
  {
    OnlyB(prev, s);
    BlocksAgree(s[2..]);
  }

  /** The splitter takes the text behind a dollar sign for the rest of a tag, and that has a digit. */
  predicate DigitTag(s: string) {
    exists i :: 0 <= i < BodyTag(s) && IsDigit(s[i])
  }

  /** The two take a dollar sign for the same tag if and only if that has no digit. */
  lemma {:induction false} TagsAgree(s: string)
    ensures BodyTag(s) == TagLength(s) <==> !DigitTag(s)
  {
    if s != [] && s[0] != '$' {
      TagsAgree(s[1..]);
      if exists i :: 0 <= i < BodyTag(s[1..]) && IsDigit(s[1..][i]) {
        var i :| 0 <= i < BodyTag(s[1..]) && IsDigit(s[1..][i]);
        assert BodyTag(s) > 0 ==> s[i + 1] == s[1..][i] && IsDigit(s[i + 1]);
      }
      if exists i :: 0 < i < BodyTag(s) && IsDigit(s[i]) {
        var i :| 0 < i < BodyTag(s) && IsDigit(s[i]);
        assert IsDigit(s[1..][i - 1]);
      }
    }
  }

  predicate BeginsNested(s: string) {
    |s| >= 7 && s[0] == '/' && s[1] == '*' && s[2] == '/' && s[3] == '*' && s[4] == '*' && s[5] == '/' && s[6] == ';'
  }

  lemma NestedForParameters(s: string)
    requires BeginsNested(s)
    ensures Head(s).0.Comment? && Head(s).1 >= 7
  {
    hide BlockLength, LineLength, QuoteLength, TagLength, DigitCount;
    BlockStep(s, 2, 1);
    BlockStep(s, 4, 2);
    LengthOfSemicolon(s[6..]);
  }

  lemma LengthOfSemicolon(s: string)
    requires s != [] && s[0] == ';'
    ensures BlockLength(s, 1) >= 1
  {
  }

  lemma NestedForSplitter(s: string)
    requires BeginsNested(s)
    ensures Through(s[2..], "*/") == 4
  {
    var t := s[2..];
    assert t[1..][1..] == t[2..];
    CloseStep(t);
    CloseStep(t[1..]);
    CloseStep(t[2..]);
  }

  /** A text that begins with a nested comment and a semicolon inside it. The lexer of parameters takes the semicolon
      for part of the comment; the splitter cuts there, and what the comment goes on with counts as a statement. */
  lemma NestedCommentSplits(s: string)
    requires BeginsNested(s)
    ensures Head(s).0.Comment? && Head(s).1 >= 7
    ensures Spans(' ', s) == [Blank(s[..6]), Cut] + Spans(';', s[7..])
  {
    hide Head, Spans, Through, BodyTag, ProcLength, OpensProc;
    NestedForParameters(s);
    NestedForSplitter(s);
    OnlyB(' ', s);
    OnlyB('/', s[6..]);
    SpansFirst(' ', s);
    SpansFirst('/', s[6..]);
    assert s[6..][1..] == s[7..];
    assert [Blank(s[..6])] + ([Cut] + Spans(';', s[7..])) == [Blank(s[..6]), Cut] + Spans(';', s[7..]);
  }

  /** A text that begins with a digit between two dollar signs, and a semicolon. */
  predicate BeginsWithDigitTag(s: string) {
    |s| >= 4 && s[0] == '$' && IsDigit(s[1]) && s[2] == '$' && s[3] == ';'
  }

  lemma DigitTagForParameters(s: string)
    requires BeginsWithDigitTag(s)
    ensures Head(s) == (Hole, 2) && Head(s[2..]) == (Code, 1) && Head(s[3..]) == (Code, 1)
  {
    hide LineLength, BlockLength, QuoteLength;
    var rest := s[1..];
    assert rest[0] == s[1] && rest[1..] == s[2..] && s[2..][0] == '$' && s[2..][1..] == s[3..] && s[3..][0] == ';';
    assert TagLength(rest) == 0 && DigitCount(s[2..]) == 0;
    assert TagLength(s[3..]) == 0 && DigitCount(s[3..]) == 0;
  }

  lemma DigitTagForSplitter(s: string)
    requires BeginsWithDigitTag(s)
    ensures BodyTag(s[1..]) == 2 && Through(s[3..], s[..3]) >= 1
  {
    var rest := s[1..];
    assert rest[0] == s[1] && rest[1..] == s[2..] && s[2..][0] == '$';
    assert !(s[..3] <= s[3..]);
  }

  lemma DigitTagPieces(s: string)
    requires BeginsWithDigitTag(s)
    ensures Pieces("", s) == [Piece(Hole, s[..2]), Piece(Code, "$"), Piece(Code, ";")] + Pieces("", s[4..])
  {
    hide Head, Pieces;
    DigitTagForParameters(s);
    assert s[2..][1..] == s[3..] && s[3..][1..] == s[4..];
    FirstPiece(s, Hole, s[..2], s[2..]);
    FirstPiece(s[2..], Code, "$", s[3..]);
    FirstPiece(s[3..], Code, ";", s[4..]);
  }

  lemma DigitTagSpan(prev: char, s: string)
    requires BeginsWithDigitTag(s)
    ensures HeadSpan(prev, s).Blank? && |Raw(HeadSpan(prev, s))| >= 4
  {
    hide BodyTag, Through, OpensProc;
    DigitTagForSplitter(s);
    OnlyB(prev, s);
  }

  /** The lexer of parameters takes the digit for a placeholder and the semicolon for code; the splitter takes both for
      part of a dollar-quoted body and does not cut there. */
  lemma DigitTagHidesSemicolon(prev: char, s: string)
    requires BeginsWithDigitTag(s)
    ensures Pieces("", s) == [Piece(Hole, s[..2]), Piece(Code, "$"), Piece(Code, ";")] + Pieces("", s[4..])
    ensures HeadSpan(prev, s).Blank? && |Raw(HeadSpan(prev, s))| >= 4
  {
    DigitTagPieces(s);
    DigitTagSpan(prev, s);
  }

  // -- All regions of a text ----------------------------------------------------------------------------

  /** The region at the front of code as the lexer of parameters has it: a dollar-quoted body whole, a line comment
      without its newline, and a placeholder as single characters. */
  function Region(s: string): (n: nat)
    requires s != []
    ensures n <= |s|
  {
    var (kind, n) := Head(s);
    match kind
    case Comment => if s[0] == '-' && s[n - 1] == '\n' then n - 1 else n
    case Tag => n + Through(s[n..], s[..n])
    case Hole => 1
    case _ => n
  }

  /** The splitter, behind `prev`, takes the same region. */
  predicate SameRegion(prev: char, s: string)
    requires s != []
  {
    |Raw(HeadSpan(prev, s))| == Region(s)
  }

  /** No procedure body, no dollar tag with a digit and no nested comment begins here. */
  predicate Ordinary(prev: char, s: string)
    requires s != []
  {
    && !OpensProc(prev, s)
    && (s[0] == '$' ==> !DigitTag(s[1..]))
    && (|s| > 1 && s[0] == '/' && s[1] == '*' ==> !Nests(s[2..]))
  }

  lemma {:induction false} LineWithoutNewline(x: string)
    ensures var n := LineLength(x);
            RestOfLine(x) == if n > 0 && x[n - 1] == '\n' then n - 1 else n
  {
    if x != [] {
      NewlineStep(x);
      if x[0] != '\n' {
        LineWithoutNewline(x[1..]);
      }
    }
  }

  lemma NewlineStep(x: string)
    requires x != []
    ensures RestOfLine(x) == if x[0] == '\n' then 0 else 1 + RestOfLine(x[1..])
  {
    assert "\n" <= x <==> x[0] == '\n';
  }

  lemma {:induction false} TagIsBodyTag(s: string)
    ensures TagLength(s) > 0 ==> BodyTag(s) == TagLength(s)
  {
    if s != [] && s[0] != '$' {
      TagIsBodyTag(s[1..]);
    }
  }

  lemma DollarRegion(prev: char, s: string)
    requires s != [] && s[0] == '$'
    ensures SameRegion(prev, s) <==> !DigitTag(s[1..])
  {
    hide DigitTag;
    OnlyB(prev, s);
    TagIsBodyTag(s[1..]);
    TagsAgree(s[1..]);
  }

  lemma DashRegion(prev: char, s: string)
    requires |s| > 1 && s[0] == '-' && s[1] == '-'
    ensures SameRegion(prev, s)
  {
    OnlyB(prev, s);
    assert s[1..][1..] == s[2..];
    LineWithoutNewline(s[2..]);
    var n := LineLength(s[2..]);
    assert LineLength(s[1..]) == 1 + n;
    assert n > 0 ==> s[2..][n - 1] == s[n + 1];
  }

  /** The two take the same region at the front of a text if and only if it begins in an ordinary way. */
  lemma RegionIsExact(prev: char, s: string)
    requires s != []
    ensures SameRegion(prev, s) <==> Ordinary(prev, s)
  {
    OnlyB(prev, s);
    if s[0] == '$' {
      DollarRegion(prev, s);
    } else if |s| > 1 && s[0] == '-' && s[1] == '-' {
      DashRegion(prev, s);
    } else if |s| > 1 && s[0] == '/' && s[1] == '*' {
      CommentsAgree(prev, s);
    } else {
      PlainRegion(prev, s);
    }
  }

  lemma PlainRegion(prev: char, s: string)
    requires s != [] && s[0] != '$'
    requires |s| > 1 ==> !(s[0] == '-' && s[1] == '-') && !(s[0] == '/' && s[1] == '*')
    ensures SameRegion(prev, s) <==> !OpensProc(prev, s)
  {
    OnlyB(prev, s);
  }

  /** The two take the same regions all along the text. */
  predicate SameRegions(prev: char, s: string)
    decreases |s|
  {
    s == [] || (var text := Raw(HeadSpan(prev, s)); SameRegion(prev, s) && SameRegions(Last(prev, text), s[|text|..]))
  }

  predicate AllOrdinary(prev: char, s: string)
    decreases |s|
  {
    s == [] || (var text := Raw(HeadSpan(prev, s)); Ordinary(prev, s) && AllOrdinary(Last(prev, text), s[|text|..]))
  }

  /** The splitter takes the regions of the lexer of parameters if and only if no procedure body, no dollar tag with a
      digit and no nested comment begins in code. */
  lemma {:induction false} RegionsAgree(prev: char, s: string)
    ensures SameRegions(prev, s) <==> AllOrdinary(prev, s)
    decreases |s|
  {
    hide HeadSpan, SameRegion, Ordinary;
    if s != [] {
      var text := Raw(HeadSpan(prev, s));
      RegionIsExact(prev, s);
      RegionsAgree(Last(prev, text), s[|text|..]);
    }
  }

  // -- Semicolons ------------------------------------------------------------------------------------------

  /** Semicolons in code. */
  function Semicolons(pieces: seq<Piece>): nat {
    if pieces == [] then 0
    else (if pieces[0] == Piece(Code, ";") then 1 else 0) + Semicolons(pieces[1..])
  }

  lemma SemicolonsFirst(tag: string, s: string)
    requires s != []
    ensures var (piece, tag') := Next(tag, s);
            Semicolons(Pieces(tag, s)) ==
            (if piece == Piece(Code, ";") then 1 else 0) + Semicolons(Pieces(tag', s[|piece.text|..]))
  {
  }

  /** A dollar-quoted body has no semicolon in code. */
  lemma {:induction false} BodyHasNone(tag: string, x: string)
    requires tag != ""
    ensures Semicolons(Pieces(tag, x)) == Semicolons(Pieces("", x[Through(x, tag)..]))
    decreases |x|
  {
    if x == [] {
    } else {
      SemicolonsFirst(tag, x);
      if !(tag <= x) {
        ThroughStep(x, tag);
        BodyHasNone(tag, x[1..]);
        assert x[1..][Through(x[1..], tag)..] == x[Through(x, tag)..];
      }
    }
  }

  lemma ThroughStep(x: string, w: string)
    requires x != [] && !(w <= x)
    ensures Through(x, w) == 1 + Through(x[1..], w)
  {
  }

  /** The digits of a placeholder have none. */
  lemma {:induction false} DigitsHaveNone(x: string)
    ensures Semicolons(Pieces("", x)) == Semicolons(Pieces("", x[DigitCount(x)..]))
  {
    if x == [] || !IsDigit(x[0]) {
      assert x[0..] == x;
    } else {
      SemicolonsFirst("", x);
      DigitsHaveNone(x[1..]);
      assert x[1..][DigitCount(x[1..])..] == x[DigitCount(x)..];
    }
  }

  lemma CutsFirst(prev: char, s: string)
    requires s != []
    ensures var span := HeadSpan(prev, s);
            Cuts(Spans(prev, s)) == (if span.Cut? then 1 else 0) + Cuts(Spans(Last(prev, Raw(span)), s[|Raw(span)|..]))
  {
  }

  lemma CodeFirst(s: string)
    requires s != []
    ensures var (kind, n) := Head(s);
            Semicolons(Pieces("", s)) ==
            (if kind.Code? && s[..n] == ";" then 1 else 0)
            + Semicolons(Pieces(if kind.Tag? then s[..n] else "", s[n..]))
  {
    hide Head;
    SemicolonsFirst("", s);
  }

  lemma TagSemicolons(s: string)
    requires s != [] && Head(s).0.Tag?
    ensures Semicolons(Pieces("", s)) == Semicolons(Pieces("", s[Region(s)..]))
  {
    hide Head, Pieces, Semicolons, Through;
    var n := Head(s).1;
    CodeFirst(s);
    BodyHasNone(s[..n], s[n..]);
    assert s[n..][Through(s[n..], s[..n])..] == s[Region(s)..];
  }

  lemma HoleSemicolons(s: string)
    requires s != [] && Head(s).0.Hole?
    ensures Semicolons(Pieces("", s)) == Semicolons(Pieces("", s[1..]))
  {
    HoleLength(s);
    hide Head, Pieces, Semicolons;
    CodeFirst(s);
    DigitsHaveNone(s[1..]);
    assert s[1..][Head(s).1 - 1..] == s[Head(s).1..];
  }

  lemma HoleLength(s: string)
    requires s != [] && Head(s).0.Hole?
    ensures Head(s).1 == 1 + DigitCount(s[1..])
  {
  }

  lemma NewlineIsCode(s: string)
    requires s != [] && s[0] == '\n'
    ensures Semicolons(Pieces("", s)) == Semicolons(Pieces("", s[1..]))
  {
    hide Pieces, Semicolons;
    CodeFirst(s);
    assert s[..1] == "\n";
  }

  lemma CommentSemicolons(s: string)
    requires s != [] && Head(s).0.Comment?
    ensures Semicolons(Pieces("", s)) == Semicolons(Pieces("", s[Region(s)..]))
  {
    hide Head, Pieces, Semicolons;
    var n := Head(s).1;
    CodeFirst(s);
    if s[0] == '-' && s[n - 1] == '\n' {
      NewlineIsCode(s[n - 1..]);
      assert s[n - 1..][1..] == s[n..];
    }
  }

  /** The splitter cuts at a semicolon, and nowhere else. */
  lemma CutIsSemicolon(prev: char, s: string)
    requires s != []
    ensures HeadSpan(prev, s).Cut? <==> s[0] == ';'
    ensures s[0] == ';' ==> Head(s) == (Code, 1)
  {
    OnlyB(prev, s);
  }

  lemma OtherRegion(s: string)
    requires s != [] && Head(s).0 in {Code, Quote}
    ensures Region(s) == Head(s).1 && (Head(s).0.Code? ==> Head(s).1 == 1)
  {
    hide Through, LineLength, BlockLength, QuoteLength, TagLength, DigitCount;
  }

  lemma OtherSemicolons(s: string)
    requires s != [] && Head(s).0 in {Code, Quote}
    ensures Semicolons(Pieces("", s)) == (if s[0] == ';' then 1 else 0) + Semicolons(Pieces("", s[Region(s)..]))
  {
    hide Head, Pieces, Semicolons, Region, HeadSpan;
    CutIsSemicolon(' ', s);
    OtherRegion(s);
    CodeFirst(s);
    assert s[..1] == [s[0]];
  }

  /** The region at the front of code, and how many semicolons it is. */
  lemma RegionSemicolons(prev: char, s: string)
    requires s != []
    ensures Semicolons(Pieces("", s)) ==
            (if HeadSpan(prev, s).Cut? then 1 else 0) + Semicolons(Pieces("", s[Region(s)..]))
  {
    CutIsSemicolon(prev, s);
    hide Head, Pieces, Semicolons, HeadSpan;
    match Head(s).0
    case Tag => TagSemicolons(s);
    case Hole => HoleSemicolons(s);
    case Comment => CommentSemicolons(s);
    case _ => OtherSemicolons(s);
  }

  lemma NothingCuts(prev: char)
    ensures Cuts(Spans(prev, [])) == 0 == Semicolons(Pieces("", []))
  {
  }

  lemma OrdinaryFirst(prev: char, s: string)
    requires s != [] && AllOrdinary(prev, s)
    ensures var text := Raw(HeadSpan(prev, s)); Ordinary(prev, s) && AllOrdinary(Last(prev, text), s[|text|..])
  {
  }

  /** Then the splitter cuts exactly as often as there are semicolons in code. */
  lemma {:induction false} CutsAreSemicolons(prev: char, s: string)
    requires AllOrdinary(prev, s)
    ensures Cuts(Spans(prev, s)) == Semicolons(Pieces("", s))
    decreases |s|
  {
    hide HeadSpan, Ordinary, Spans, Pieces, Region, Cuts, Semicolons, AllOrdinary;
    if s == [] {
      NothingCuts(prev);
    } else {
      var text := Raw(HeadSpan(prev, s));
      OrdinaryFirst(prev, s);
      RegionIsExact(prev, s);
      CutsFirst(prev, s);
      RegionSemicolons(prev, s);
      CutsAreSemicolons(Last(prev, text), s[|text|..]);
    }
  }

  /** A text has one statement more than it has semicolons in code, as the lexer of parameters reads it. */
  lemma StatementsAreSeparated(sql: string)
    requires AllOrdinary(' ', sql)
    ensures |Split(Spans(' ', sql))| == 1 + Semicolons(Pieces("", sql))
  {
    CutsAreSemicolons(' ', sql);
    SplitJoins(Spans(' ', sql));
  }
}

/** Rendering keeps lexical structure (src/params.rs): lexing the rendered text finds the template's own pieces, and in
    the place of every placeholder the pieces of its literal. */
module SqlRelexing {
  import opened Bytes
  import opened SqlTemplates
  import opened SqlLiterals

  // -- What the lexer reads does not depend on what follows it -------------------------------------

  lemma {:induction false} LineStable(x: string, y: string)
    requires LineLength(x) < |x| && LineLength(x) <= |y| && x[..LineLength(x)] == y[..LineLength(x)]
    ensures LineLength(y) == LineLength(x)
  {
    assert x[..LineLength(x)][0] == x[0] == y[0];
    if x[0] != '\n' {
      var m := LineLength(x[1..]);
      assert x[1..][..m] == x[..m + 1][1..] == y[..m + 1][1..] == y[1..][..m];
      LineStable(x[1..], y[1..]);
    }
  }

  lemma {:induction false} BlockStable(x: string, y: string, depth: nat)
    requires depth > 0
    requires BlockLength(x, depth) < |x| && BlockLength(x, depth) <= |y|
    requires x[..BlockLength(x, depth)] == y[..BlockLength(x, depth)]
    ensures 2 <= BlockLength(y, depth) == BlockLength(x, depth)
    decreases |x|
  {
    var n := BlockLength(x, depth);
    BlockIsLong(x, depth);
    assert x[..n][0] == x[0] == y[0] && x[..n][1] == x[1] == y[1];
    if x[0] == '/' && x[1] == '*' {
      assert x[2..][..n - 2] == x[..n][2..] == y[2..][..n - 2];
      BlockStable(x[2..], y[2..], depth + 1);
    } else if x[0] == '*' && x[1] == '/' {
      if depth > 1 {
        assert x[2..][..n - 2] == x[..n][2..] == y[2..][..n - 2];
        BlockStable(x[2..], y[2..], depth - 1);
      }
    } else {
      assert x[1..][..n - 1] == x[..n][1..] == y[1..][..n - 1];
      BlockStable(x[1..], y[1..], depth);
    }
  }

  lemma {:induction false} BlockIsLong(x: string, depth: nat)
    requires depth > 0 && BlockLength(x, depth) < |x|
    ensures BlockLength(x, depth) >= 2
    decreases |x|
  {
    if !(x[0] == '/' && x[1] == '*') && !(x[0] == '*' && x[1] == '/') {
      BlockIsLong(x[1..], depth);
    }
  }

  lemma {:induction false} QuoteStable(x: string, y: string, quote: char)
    requires QuoteLength(x, quote) < |x| && QuoteLength(x, quote) <= |y|
    requires x[..QuoteLength(x, quote)] == y[..QuoteLength(x, quote)]
    requires |y| > QuoteLength(x, quote) ==> y[QuoteLength(x, quote)] != quote
    ensures QuoteLength(y, quote) == QuoteLength(x, quote)
    decreases |x|
  {
    var n := QuoteLength(x, quote);
    assert x[..n][0] == x[0] == y[0];
    if x[0] != quote {
      assert x[1..][..n - 1] == x[..n][1..] == y[1..][..n - 1];
      QuoteStable(x[1..], y[1..], quote);
    } else if |x| > 1 && x[1] == quote {
      assert x[..n][1] == x[1] == y[1];
      assert x[2..][..n - 2] == x[..n][2..] == y[2..][..n - 2];
      QuoteStable(x[2..], y[2..], quote);
    }
  }

  lemma {:induction false} TagStable(x: string, y: string)
    requires TagLength(x) > 0 && TagLength(x) <= |y| && x[..TagLength(x)] == y[..TagLength(x)]
    ensures TagLength(y) == TagLength(x)
  {
    var n := TagLength(x);
    assert x[..n][0] == x[0] == y[0];
    if x[0] != '$' {
      assert x[1..][..n - 1] == x[..n][1..] == y[1..][..n - 1];
      TagStable(x[1..], y[1..]);
    }
  }

  /** A dollar sign that opens no tag before the next dollar sign opens none whatever follows. */
  lemma {:induction false} NoTagStable(x: string, y: string, m: nat)
    requires TagLength(x) == 0 && m < |x| && x[m] == '$' && m <= |y| && x[..m] == y[..m]
    ensures TagLength(y) == 0
  {
    assert m > 0;
    assert x[..m][0] == x[0] == y[0];
    if IsTagChar(x[0]) {
      assert x[1..][..m - 1] == x[..m][1..] == y[1..][..m - 1];
      NoTagStable(x[1..], y[1..], m - 1);
    }
  }

  // -- The first placeholder ------------------------------------------------------------------------

  /** How much of the text comes before the first placeholder. */
  function BeforeHole(pieces: seq<Piece>): nat {
    if pieces == [] || pieces[0].kind.Hole? then 0 else |pieces[0].text| + BeforeHole(pieces[1..])
  }

  predicate HasHole(pieces: seq<Piece>) {
    exists i :: 0 <= i < |pieces| && pieces[i].kind.Hole?
  }

  lemma {:induction false} HoleIsDollar(tag: string, s: string)
    requires HasHole(Pieces(tag, s))
    ensures BeforeHole(Pieces(tag, s)) < |s| && s[BeforeHole(Pieces(tag, s))] == '$'
    ensures |tag| <= BeforeHole(Pieces(tag, s))
    decreases |s|
  {
    var (piece, tag') := Next(tag, s);
    var rest := s[|piece.text|..];
    var pieces := Pieces(tag, s);
    assert pieces[1..] == Pieces(tag', rest);
    if !piece.kind.Hole? {
      var i :| 0 <= i < |pieces| && pieces[i].kind.Hole?;
      assert pieces[1..][i - 1].kind.Hole?;
      HoleIsDollar(tag', rest);
    }
  }

  /** `out` is `s` up to the first placeholder, and goes on with a literal that does not join what is before it. */
  predicate Agrees(s: string, out: string, h: nat) {
    && 0 < h < |s| && h < |out| && s[..h] == out[..h] && s[h] == '$'
    && out[h] != '"' && out[h] != '*' && out[h] != '$'
    && (s[h - 1] == '\'' ==> out[h] != '\'')
    && (s[h - 1] == '-' ==> out[h] != '-')
  }

  lemma AgreesAt(s: string, out: string, h: nat, k: nat)
    requires Agrees(s, out, h) && k < h
    ensures s[k] == out[k]
  {
    assert s[..h][k] == out[..h][k];
  }

  lemma AgreesFrom(s: string, out: string, h: nat, k: nat, n: nat)
    requires Agrees(s, out, h) && k + n <= h
    ensures s[k..][..n] == out[k..][..n]
  {
    assert s[k..][..n] == s[..h][k..k + n] == out[..h][k..k + n] == out[k..][..n];
  }

  /** A quoted string in front of the first placeholder. */
  lemma QuoteHeads(s: string, out: string, h: nat)
    requires Agrees(s, out, h) && (s[0] == '\'' || s[0] == '"') && Head(s).1 <= h
    ensures Head(out) == Head(s)
  {
    var m := QuoteLength(s[1..], s[0]);
    AgreesAt(s, out, h, 0);
    AgreesFrom(s, out, h, 1, m);
    QuoteEnds(s[1..], s[0]);
    if 1 + m < h {
      AgreesAt(s, out, h, 1 + m);
    }
    assert out[1..][m] == out[1 + m] && s[1..][m] == s[1 + m];
    assert s[1..][m - 1] == s[m];
    QuoteStable(s[1..], out[1..], s[0]);
  }

  /** A quoted string that ends ends with its quote, and no other quote follows. */
  lemma {:induction false} QuoteEnds(x: string, quote: char)
    requires QuoteLength(x, quote) < |x|
    ensures QuoteLength(x, quote) > 0 && x[QuoteLength(x, quote) - 1] == quote && x[QuoteLength(x, quote)] != quote
    decreases |x|
  {
    if x[0] != quote {
      QuoteEnds(x[1..], quote);
    } else if |x| > 1 && x[1] == quote {
      QuoteEnds(x[2..], quote);
    }
  }

  /** A comment in front of the first placeholder. */
  lemma CommentHeads(s: string, out: string, h: nat)
    requires Agrees(s, out, h) && Head(s).0.Comment? && Head(s).1 <= h
    ensures Head(out) == Head(s)
  {
    AgreesAt(s, out, h, 0);
    if s[0] == '-' {
      AgreesAt(s, out, h, 1);
      AgreesFrom(s, out, h, 1, LineLength(s[1..]));
      LineStable(s[1..], out[1..]);
    } else {
      AgreesAt(s, out, h, 1);
      AgreesFrom(s, out, h, 2, BlockLength(s[2..], 1));
      BlockStable(s[2..], out[2..], 1);
    }
  }

  /** A dollar sign in front of the first placeholder. */
  lemma DollarHeads(s: string, out: string, h: nat)
    requires Agrees(s, out, h) && s[0] == '$' && !Head(s).0.Hole? && Head(s).1 <= h
    ensures Head(out) == Head(s)
  {
    AgreesAt(s, out, h, 0);
    if TagLength(s[1..]) > 0 {
      AgreesFrom(s, out, h, 1, TagLength(s[1..]));
      TagStable(s[1..], out[1..]);
    } else {
      assert h > 1;
      AgreesFrom(s, out, h, 1, h - 1);
      NoTagStable(s[1..], out[1..], h - 1);
      AgreesAt(s, out, h, 1);
      assert DigitCount(out[1..]) == 0;
    }
  }

  lemma HeadStable(s: string, out: string, h: nat)
    requires Agrees(s, out, h) && !Head(s).0.Hole? && Head(s).1 <= h
    ensures Head(out) == Head(s)
  {
    AgreesAt(s, out, h, 0);
    if Head(s).0.Comment? {
      CommentHeads(s, out, h);
    } else if s[0] == '\'' || s[0] == '"' {
      QuoteHeads(s, out, h);
    } else if s[0] == '$' {
      DollarHeads(s, out, h);
    } else if h > 1 {
      AgreesAt(s, out, h, 1);
    }
  }

  lemma NextStable(tag: string, s: string, out: string, h: nat)
    requires Agrees(s, out, h) && |tag| <= h
    requires !Next(tag, s).0.kind.Hole? && |Next(tag, s).0.text| <= h
    ensures Next(tag, out) == Next(tag, s)
  {
    var n := |Next(tag, s).0.text|;
    AgreesFrom(s, out, h, 0, n);
    AgreesFrom(s, out, h, 0, |tag|);
    assert s[0..] == s && out[0..] == out;
    if tag == "" {
      HeadStable(s, out, h);
    }
  }

  // -- Rendered text ----------------------------------------------------------------------------------

  /** `a` is lexed the same with `t` behind it. */
  predicate Splits(a: string, t: string) {
    Pieces("", a + t) == Pieces("", a) + Pieces("", t)
  }

  /** Code and quoted strings only. */
  predicate Bare(pieces: seq<Piece>) {
    forall i :: 0 <= i < |pieces| ==> pieces[i].kind in {Code, Quote}
  }

  /** A literal that is lexed the same wherever it stands, as code and quoted strings: nothing that follows changes
      how it is read, unless it ends in a quote and another one follows. */
  ghost predicate LexesAlone(literal: string) {
    && literal != [] && literal[0] != '"' && literal[0] != '*' && literal[0] != '$'
    && Bare(Pieces("", literal))
    && (forall t: string :: (t != [] && literal[|literal| - 1] == '\'' ==> t[0] != '\'') ==> Splits(literal, t))
  }

  /** Every placeholder has a literal that lexes alone. */
  ghost predicate Covered(pieces: seq<Piece>, literals: seq<Option<string>>) {
    forall i :: 0 <= i < |pieces| && pieces[i].kind.Hole? ==>
      Written(pieces[i], literals).Some? && LexesAlone(Written(pieces[i], literals).value)
  }

  function OutText(piece: Piece, literals: seq<Option<string>>): string {
    Written(piece, literals).GetOr("")
  }

  function Out(pieces: seq<Piece>, literals: seq<Option<string>>): string {
    if pieces == [] then [] else OutText(pieces[0], literals) + Out(pieces[1..], literals)
  }

  /** The template's pieces, with the pieces of the literals in the place of the placeholders. */
  function Expanded(pieces: seq<Piece>, literals: seq<Option<string>>): seq<Piece> {
    if pieces == [] then []
    else
      (if pieces[0].kind.Hole? then Pieces("", OutText(pieces[0], literals)) else [pieces[0]])
      + Expanded(pieces[1..], literals)
  }

  /** Two neighbours of which one is a literal do not join: no quote meets a quote, no minus meets a minus. */
  predicate Fit(a: Piece, b: Piece, literals: seq<Option<string>>) {
    a.kind.Hole? || b.kind.Hole? ==>
      var x, y := OutText(a, literals), OutText(b, literals);
      x != [] && y != [] ==>
        && !(x[|x| - 1] == '\'' && y[0] == '\'')
        && !(x[|x| - 1] == '-' && y[0] == '-')
  }

  predicate Apart(pieces: seq<Piece>, literals: seq<Option<string>>) {
    |pieces| < 2 || (Fit(pieces[0], pieces[1], literals) && Apart(pieces[1..], literals))
  }

  lemma {:induction false} OutStarts(pieces: seq<Piece>, literals: seq<Option<string>>)
    requires pieces != [] && Covered(pieces, literals) && (!pieces[0].kind.Hole? ==> pieces[0].text != [])
    ensures OutText(pieces[0], literals) != [] && Out(pieces, literals) != []
    ensures Out(pieces, literals)[0] == OutText(pieces[0], literals)[0]
  {
  }

  lemma CoveredBehind(pieces: seq<Piece>, literals: seq<Option<string>>)
    requires pieces != [] && Covered(pieces, literals)
    ensures Covered(pieces[1..], literals)
  {
    assert forall i :: 0 <= i < |pieces[1..]| ==> pieces[1..][i] == pieces[i + 1];
  }

  lemma OutAgreesStep(pieces: seq<Piece>, literals: seq<Option<string>>, s: string, s': string, out': string)
    requires |pieces| > 1 && !pieces[0].kind.Hole? && pieces[0].text != [] && s == pieces[0].text + s'
    requires Fit(pieces[0], pieces[1], literals) && out' == Out(pieces[1..], literals)
    requires pieces[1].kind.Hole? ==>
               && s' != [] && s'[0] == '$' && out' != [] && OutText(pieces[1], literals) != []
               && out'[0] == OutText(pieces[1], literals)[0] && out'[0] != '"' && out'[0] != '*' && out'[0] != '$'
    requires !pieces[1].kind.Hole? ==> Agrees(s', out', BeforeHole(pieces[1..]))
    ensures Agrees(s, pieces[0].text + out', BeforeHole(pieces))
  {
    var text := pieces[0].text;
    if pieces[1].kind.Hole? {
      Adjoins(text, s, s', text + out', out');
    } else {
      Shifted(text, s, s', text + out', out', BeforeHole(pieces));
    }
  }

  lemma HoleStarts(pieces: seq<Piece>, literals: seq<Option<string>>)
    requires pieces != [] && pieces[0].kind.Hole? && Covered(pieces, literals)
    ensures var out, text := Out(pieces, literals), OutText(pieces[0], literals);
            text != [] && out != [] && out[0] == text[0] && out[0] != '"' && out[0] != '*' && out[0] != '$'
  {
    OutStarts(pieces, literals);
    assert LexesAlone(OutText(pieces[0], literals));
  }

  /** Up to the first placeholder the rendered text is the template's. */
  lemma {:induction false} OutAgrees(tag: string, s: string, literals: seq<Option<string>>)
    requires HasHole(Pieces(tag, s)) && !Pieces(tag, s)[0].kind.Hole?
    requires Covered(Pieces(tag, s), literals) && Apart(Pieces(tag, s), literals)
    ensures Agrees(s, Out(Pieces(tag, s), literals), BeforeHole(Pieces(tag, s)))
    decreases |s|
  {
    var pieces := Pieces(tag, s);
    var (piece, tag') := Next(tag, s);
    var s' := s[|piece.text|..];
    assert pieces[0] == piece && pieces[1..] == Pieces(tag', s');
    HoleBehind(pieces);
    HoleIsDollar(tag', s');
    CoveredBehind(pieces, literals);
    if pieces[1].kind.Hole? {
      HoleStarts(pieces[1..], literals);
    } else {
      OutAgrees(tag', s', literals);
    }
    OutAgreesStep(pieces, literals, s, s', Out(pieces[1..], literals));
  }

  lemma HoleBehind(pieces: seq<Piece>)
    requires HasHole(pieces) && !pieces[0].kind.Hole?
    ensures HasHole(pieces[1..])
  {
    var i :| 0 <= i < |pieces| && pieces[i].kind.Hole?;
    assert pieces[1..][i - 1].kind.Hole?;
  }

  lemma Adjoins(text: string, s: string, s': string, out: string, out': string)
    requires s == text + s' && out == text + out' && text != [] && s' != [] && s'[0] == '$' && out' != []
    requires out'[0] != '"' && out'[0] != '*' && out'[0] != '$'
    requires text[|text| - 1] == '\'' ==> out'[0] != '\''
    requires text[|text| - 1] == '-' ==> out'[0] != '-'
    ensures Agrees(s, out, |text|)
  {
    assert s[..|text|] == text == out[..|text|];
  }

  lemma Shifted(text: string, s: string, s': string, out: string, out': string, h: nat)
    requires s == text + s' && out == text + out' && h >= |text| && Agrees(s', out', h - |text|)
    ensures Agrees(s, out, h)
  {
    var k := h - |text|;
    assert s[..h] == text + s'[..k] && out[..h] == text + out'[..k];
  }

  lemma {:induction false} WithoutHoles(pieces: seq<Piece>, literals: seq<Option<string>>)
    requires !HasHole(pieces)
    ensures Expanded(pieces, literals) == pieces && Out(pieces, literals) == Text(pieces)
  {
    if pieces != [] {
      assert forall i :: 0 <= i < |pieces[1..]| ==> pieces[1..][i] == pieces[i + 1];
      WithoutHoles(pieces[1..], literals);
      TextPrepend(pieces[0], pieces[1..]);
      assert pieces == [pieces[0]] + pieces[1..];
    }
  }

  lemma HoleIsCode(tag: string, s: string)
    requires s != [] && Next(tag, s).0.kind.Hole?
    ensures tag == "" && Next(tag, s).1 == ""
  {
  }

  /** Lexing rendered SQL finds the template's pieces and the pieces of the literals, and no placeholder. */
  lemma {:induction false} RenderedLexes(tag: string, s: string, literals: seq<Option<string>>)
    requires Covered(Pieces(tag, s), literals) && Apart(Pieces(tag, s), literals)
    ensures Pieces(tag, Out(Pieces(tag, s), literals)) == Expanded(Pieces(tag, s), literals)
    decreases |s|
  {
    var pieces := Pieces(tag, s);
    if !HasHole(pieces) {
      WithoutHoles(pieces, literals);
      PiecesCover(tag, s);
    } else {
      var (piece, tag') := Next(tag, s);
      var rest := Pieces(tag', s[|piece.text|..]);
      var out, out' := Out(pieces, literals), Out(rest, literals);
      assert pieces == [piece] + rest && pieces[1..] == rest;
      CoveredBehind(pieces, literals);
      RenderedLexes(tag', s[|piece.text|..], literals);
      assert out == OutText(piece, literals) + out';
      if piece.kind.Hole? {
        HoleIsCode(tag, s);
        if rest != [] {
          assert rest[0] == Next(tag', s[|piece.text|..]).0;
          OutStarts(rest, literals);
        }
        assert LexesAlone(OutText(pieces[0], literals)) && Splits(OutText(piece, literals), out');
      } else {
        HoleIsDollar(tag, s);
        OutAgrees(tag, s, literals);
        NextStable(tag, s, out, BeforeHole(pieces));
        assert out[|piece.text|..] == out';
      }
    }
  }

  // -- Literals lex alone ---------------------------------------------------------------------------------

  lemma Chain(abt: seq<Piece>, ab: seq<Piece>, a: seq<Piece>, bt: seq<Piece>, b: seq<Piece>, t: seq<Piece>)
    requires abt == a + bt && bt == b + t && ab == a + b
    ensures abt == ab + t
    ensures Bare(a) && Bare(b) ==> Bare(ab)
  {
  }

  lemma Compose(a: string, b: string, t: string)
    requires Splits(a, b + t) && Splits(a, b) && Splits(b, t)
    ensures Splits(a + b, t)
    ensures Bare(Pieces("", a)) && Bare(Pieces("", b)) ==> Bare(Pieces("", a + b))
  {
    ComposeRight(a, b, t);
    ComposeLeft(a, b, t);
  }

  lemma ComposeRight(a: string, b: string, t: string)
    requires Splits(a, b + t) && Splits(a, b) && Splits(b, t)
    ensures Pieces("", a + (b + t)) == Pieces("", a + b) + Pieces("", t)
    ensures Bare(Pieces("", a)) && Bare(Pieces("", b)) ==> Bare(Pieces("", a + b))
  {
    Chain(Pieces("", a + (b + t)), Pieces("", a + b), Pieces("", a), Pieces("", b + t), Pieces("", b), Pieces("", t));
  }

  lemma ComposeLeft(a: string, b: string, t: string)
    requires Pieces("", a + (b + t)) == Pieces("", a + b) + Pieces("", t)
    ensures Splits(a + b, t)
  {
    Reassociated(a, b, t);
  }

  lemma Reassociated(a: string, b: string, t: string)
    ensures (a + b) + t == a + (b + t)
  {
  }

  lemma FirstPiece(s: string, kind: Kind, text: string, rest: string)
    requires s == text + rest && text != [] && Head(s) == (kind, |text|) && !kind.Tag?
    ensures Pieces("", s) == [Piece(kind, text)] + Pieces("", rest)
  {
    assert s[..|text|] == text && s[|text|..] == rest;
  }

  /** Text without quotes, comments and dollar signs. */
  predicate Plain(c: string) {
    forall i :: 0 <= i < |c| ==> PlainAt(c, i)
  }

  predicate PlainAt(c: string, i: nat)
    requires i < |c|
  {
    && c[i] != '/' && c[i] != '\'' && c[i] != '"' && c[i] != '$'
    && (c[i] == '-' ==> i + 1 < |c| && c[i + 1] != '-')
  }

  lemma PlainHead(c: string, t: string)
    requires Plain(c) && c != []
    ensures Head(c + t) == (Code, 1) && Plain(c[1..])
  {
    assert PlainAt(c, 0);
    if c[0] == '-' {
      assert (c + t)[1..][0] == c[1];
    }
    forall i | 0 <= i < |c[1..]|
      ensures PlainAt(c[1..], i)
    {
      assert PlainAt(c, i + 1);
    }
  }

  lemma PlainFirst(c: string, t: string)
    requires Plain(c) && c != []
    ensures Pieces("", c + t) == [Piece(Code, c[..1])] + Pieces("", c[1..] + t)
  {
    PlainHead(c, t);
    FirstPiece(c + t, Code, c[..1], c[1..] + t);
  }

  lemma {:induction false} PlainSplits(c: string, t: string)
    requires Plain(c)
    ensures Splits(c, t) && Bare(Pieces("", c))
    decreases |c|
  {
    if c == [] {
      assert c + t == t;
    } else {
      PlainHead(c, t);
      PlainSplits(c[1..], t);
      PlainFirst(c, t);
      PlainFirst(c, []);
      assert c + [] == c && c[1..] + [] == c[1..];
      Chain(Pieces("", c + t), Pieces("", c), [Piece(Code, c[..1])], Pieces("", c[1..] + t),
            Pieces("", c[1..]), Pieces("", t));
    }
  }

  lemma {:induction false} EscapedLength(v: string, t: string)
    requires t == [] || t[0] != '\''
    ensures QuoteLength(Escaped(v) + "'" + t, '\'') == |Escaped(v)| + 1
  {
    var s := Escaped(v) + "'" + t;
    if v == [] {
      assert s == "'" + t;
    } else {
      EscapedLength(v[1..], t);
      var rest := Escaped(v[1..]) + "'" + t;
      if v[0] == '\'' {
        assert s == "''" + rest && s[2..] == rest;
      } else {
        assert s == [v[0]] + rest && s[1..] == rest;
      }
    }
  }

  lemma QuotedIsHead(v: string, t: string)
    requires t == [] || t[0] != '\''
    ensures Head(Quoted(v) + t) == (Quote, |Quoted(v)|)
  {
    EscapedLength(v, t);
    assert (Quoted(v) + t)[1..] == Escaped(v) + "'" + t;
  }

  lemma QuotedHead(v: string, t: string)
    requires t == [] || t[0] != '\''
    ensures Pieces("", Quoted(v) + t) == [Piece(Quote, Quoted(v))] + Pieces("", t)
  {
    QuotedIsHead(v, t);
    FirstPiece(Quoted(v) + t, Quote, Quoted(v), t);
  }

  lemma NothingLexes(s: string)
    ensures s == [] ==> Pieces("", s) == []
  {
  }

  lemma QuotedSplits(v: string, t: string)
    requires t == [] || t[0] != '\''
    ensures Splits(Quoted(v), t) && Bare(Pieces("", Quoted(v)))
  {
    hide Pieces;
    QuotedHead(v, t);
    QuotedHead(v, []);
    NothingLexes([]);
    assert Quoted(v) + [] == Quoted(v);
  }

  lemma LinkSplits(link: string, tail: string, t: string)
    requires Plain(link) && Splits(tail, t) && Bare(Pieces("", tail))
    ensures Splits(link + tail, t) && Bare(Pieces("", link + tail))
  {
    PlainSplits(link, tail + t);
    PlainSplits(link, tail);
    Compose(link, tail, t);
  }

  lemma ChainGoesOn(v: string, link: string, t: string)
    requires Splits(link, t) && Bare(Pieces("", link)) && link != [] && link[0] != '\''
    ensures Splits(Quoted(v) + link, t) && Bare(Pieces("", Quoted(v) + link))
  {
    QuotedSplits(v, link + t);
    QuotedSplits(v, link);
    Compose(Quoted(v), link, t);
  }

  lemma ChainEnds(v: string, end: string, t: string)
    requires Plain(end) && end != [] && end[0] != '\''
    ensures Splits(Quoted(v) + end, t) && Bare(Pieces("", Quoted(v) + end))
  {
    PlainSplits(end, t);
    ChainGoesOn(v, end, t);
  }

  lemma ChainShape(parts: seq<string>, end: string)
    requires |parts| > 1
    ensures Chained(parts) + end == Quoted(parts[0]) + (CHR92 + (Chained(parts[1..]) + end))
  {
    FourParts(Quoted(parts[0]), CHR92, Chained(parts[1..]), end);
  }

  lemma FourParts(a: string, b: string, c: string, d: string)
    ensures a + b + c + d == a + (b + (c + d))
  {
  }

  lemma {:induction false} ChainSplits(parts: seq<string>, end: string, t: string)
    requires parts != [] && Plain(end) && end != [] && end[0] != '\''
    ensures Splits(Chained(parts) + end, t) && Bare(Pieces("", Chained(parts) + end))
    decreases |parts|
  {
    if |parts| == 1 {
      ChainEnds(parts[0], end, t);
    } else {
      var tail := Chained(parts[1..]) + end;
      ChainSplits(parts[1..], end, t);
      LinkSplits(CHR92, tail, t);
      ChainGoesOn(parts[0], CHR92 + tail, t);
      ChainShape(parts, end);
    }
  }

  /** A number is plain text. */
  lemma {:induction false} DigitsArePlain(t: string)
    ensures forall i :: 0 <= i < DigitCount(t) ==> IsDigit(t[i])
  {
    if t != [] && IsDigit(t[0]) {
      DigitsArePlain(t[1..]);
      assert forall i :: 0 < i < DigitCount(t) ==> t[i] == t[1..][i - 1];
    }
  }

  lemma ExponentIsPlain(s: string)
    requires IsExponent(s)
    ensures Plain(s) && (s != [] ==> s[0] != '-')
  {
    if s != [] {
      var t := s[1..];
      var digits := t[Signed(t)..];
      DigitsArePlain(digits);
      forall i | 0 <= i < |s|
        ensures PlainAt(s, i)
      {
        if i >= 1 + Signed(t) {
          assert s[i] == digits[i - 1 - Signed(t)];
        } else if i == 1 {
          assert s[2] == digits[0];
        }
      }
    }
  }

  lemma PlainConcat(a: string, b: string)
    requires Plain(b) && (b != [] ==> b[0] != '-') && forall i :: 0 <= i < |a| ==> IsDigit(a[i]) || a[i] == '.'
    ensures Plain(a + b) && (a + b != [] ==> (a + b)[0] != '-')
  {
    forall i | 0 <= i < |a + b|
      ensures PlainAt(a + b, i)
    {
      if i >= |a| {
        assert PlainAt(b, i - |a|);
      }
    }
  }

  lemma MantissaIsPlain(t: string)
    requires IsExponent(Mantissa(t).1)
    ensures Plain(t) && (t != [] ==> t[0] != '-')
  {
    hide DigitCount, IsExponent, Plain;
    var whole := DigitCount(t);
    var u := t[whole..];
    var rest := Mantissa(t).1;
    DigitsArePlain(t);
    ExponentIsPlain(rest);
    if u != [] && u[0] == '.' {
      var n := DigitCount(u[1..]);
      DigitsArePlain(u[1..]);
      assert u == u[..1 + n] + rest;
      assert forall i :: 1 <= i < 1 + n ==> u[i] == u[1..][i - 1];
      PlainConcat(u[..1 + n], rest);
    }
    assert t == t[..whole] + u;
    PlainConcat(t[..whole], u);
  }

  lemma NumericIsPlain(s: string)
    requires IsNumeric(s)
    ensures Plain(s) && s != [] && s[0] != '*'
  {
    var t := s[Signed(s)..];
    MantissaIsPlain(t);
    assert t != [];
    forall i | 0 <= i < |s|
      ensures PlainAt(s, i)
    {
      if i >= Signed(s) {
        assert PlainAt(t, i - Signed(s));
      } else {
        assert s[1] == t[0];
      }
    }
    assert PlainAt(s, 0) && (Signed(s) == 0 ==> t == s);
  }

  lemma QuotedChar(c: char)
    requires c != '\''
    ensures Quoted([c]) == "'" + [c] + "'"
  {
    assert [c][1..] == [] && Escaped([c]) == [c] + [];
  }

  /** A literal, and what `LexesAlone` asks of it for one text behind it. */
  predicate StandsBefore(literal: string, t: string) {
    && literal != [] && literal[0] != '"' && literal[0] != '*' && literal[0] != '$' && Bare(Pieces("", literal))
    && ((t != [] && literal[|literal| - 1] == '\'' ==> t[0] != '\'') ==> Splits(literal, t))
  }

  lemma PlainStands(c: string, t: string)
    requires Plain(c) && c != [] && c[0] != '*'
    ensures StandsBefore(c, t)
  {
    assert PlainAt(c, 0);
    PlainSplits(c, t);
  }

  lemma QuotedStands(v: string, t: string)
    ensures StandsBefore(Quoted(v), t)
  {
    QuotedSplits(v, []);
    if t == [] || t[0] != '\'' {
      QuotedSplits(v, t);
    }
  }

  lemma ChainStands(begin: string, parts: seq<string>, end: string, t: string)
    requires parts != [] && Plain(begin) && begin != [] && begin[0] == '('
    requires Plain(end) && end != [] && end[0] != '\''
    ensures StandsBefore(begin + Chained(parts) + end, t)
  {
    var chain := Chained(parts) + end;
    PlainSplits(begin, chain + t);
    PlainSplits(begin, chain);
    ChainSplits(parts, end, t);
    Compose(begin, chain, t);
    Reassociated(begin, Chained(parts), end);
  }

  lemma TextStands(text: string, t: string)
    requires TextLiteral(text).Some?
    ensures StandsBefore(TextLiteral(text).value, t)
  {
    if '\\' in text {
      ChainStands("(", Parts(text), ")", t);
    } else {
      QuotedStands(text, t);
    }
  }

  lemma NullStands(t: string)
    ensures StandsBefore("NULL", t)
  {
    PlainStands("NULL", t);
  }

  lemma BoolStands(b: bool, t: string)
    ensures StandsBefore(if b then "'t'" else "'f'", t)
  {
    var c := if b then 't' else 'f';
    QuotedChar(c);
    assert Quoted([c]) == if b then "'t'" else "'f'";
    QuotedStands([c], t);
  }

  lemma NumberStands(digits: string, t: string)
    requires IsNumeric(digits)
    ensures StandsBefore(digits, t)
  {
    NumericIsPlain(digits);
    PlainStands(digits, t);
  }

  lemma LiteralStands(v: SqlValue, t: string)
    requires SqlLiterals.Literal(v).Some?
    ensures StandsBefore(SqlLiterals.Literal(v).value, t)
  {
    match v
    case Null => NullStands(t);
    case Bool(b) => BoolStands(b, t);
    case Number(digits) => NumberStands(digits, t);
    case TextValue(text) => TextStands(text, t);
  }

  /** Whatever a value is written as lexes alone. */
  lemma LiteralsLexAlone(v: SqlValue)
    ensures SqlLiterals.Literal(v).Some? ==> LexesAlone(SqlLiterals.Literal(v).value)
  {
    if SqlLiterals.Literal(v).Some? {
      var literal := SqlLiterals.Literal(v).value;
      forall t: string | t != [] && literal[|literal| - 1] == '\'' ==> t[0] != '\''
        ensures Splits(literal, t)
      {
        LiteralStands(v, t);
      }
      LiteralStands(v, []);
    }
  }

  // -- The theorem ---------------------------------------------------------------------------------------------

  lemma {:induction false} FilledIsOut(pieces: seq<Piece>, literals: seq<Option<string>>)
    ensures Filled(pieces, literals).Some? ==> Filled(pieces, literals).value == Out(pieces, literals)
    ensures Filled(pieces, literals).Some? ==> forall i :: 0 <= i < |pieces| ==> Written(pieces[i], literals).Some?
  {
    if pieces != [] {
      var before, last := pieces[..|pieces| - 1], pieces[|pieces| - 1];
      FilledIsOut(before, literals);
      OutSnoc(before, last, literals);
      assert pieces == before + [last];
      assert forall i :: 0 <= i < |before| ==> pieces[i] == before[i];
    }
  }

  lemma {:induction false} OutSnoc(before: seq<Piece>, last: Piece, literals: seq<Option<string>>)
    ensures Out(before + [last], literals) == Out(before, literals) + OutText(last, literals)
  {
    if before == [] {
      assert before + [last] == [last];
      assert Out([last][1..], literals) == [];
    } else {
      OutSnoc(before[1..], last, literals);
      assert (before + [last])[1..] == before[1..] + [last];
      assert (before + [last])[0] == before[0];
    }
  }

  lemma {:induction false} ExpandedHasNoHole(pieces: seq<Piece>, literals: seq<Option<string>>)
    requires Covered(pieces, literals)
    ensures !HasHole(Expanded(pieces, literals))
  {
    if pieces != [] {
      CoveredBehind(pieces, literals);
      ExpandedHasNoHole(pieces[1..], literals);
      if pieces[0].kind.Hole? {
        assert LexesAlone(OutText(pieces[0], literals));
      }
    }
  }

  lemma WrittenIsLiteral(piece: Piece, values: seq<SqlValue>)
    requires piece.kind.Hole? && Written(piece, Literals(values)).Some?
    ensures 1 <= Index(piece.text) <= |values|
    ensures Written(piece, Literals(values)) == SqlLiterals.Literal(values[Index(piece.text) - 1])
  {
  }

  lemma HoleLexesAlone(piece: Piece, values: seq<SqlValue>)
    requires piece.kind.Hole? && Written(piece, Literals(values)).Some?
    ensures LexesAlone(Written(piece, Literals(values)).value)
  {
    WrittenIsLiteral(piece, values);
    LiteralsLexAlone(values[Index(piece.text) - 1]);
  }

  lemma ValuesCover(pieces: seq<Piece>, values: seq<SqlValue>)
    requires forall i :: 0 <= i < |pieces| ==> Written(pieces[i], Literals(values)).Some?
    ensures Covered(pieces, Literals(values))
  {
    forall i | 0 <= i < |pieces| && pieces[i].kind.Hole?
      ensures Written(pieces[i], Literals(values)).Some? && LexesAlone(Written(pieces[i], Literals(values)).value)
    {
      HoleLexesAlone(pieces[i], values);
    }
  }

  /** Where the placeholders are apart, lexing the rendered text finds the template's pieces and the pieces of the
      literals, and no placeholder. */
  lemma ApartKeepsStructure(sql: string, values: seq<SqlValue>)
    requires Substituted(sql, Literals(values)).Some? && Apart(Pieces("", sql), Literals(values))
    ensures var rendered := Substituted(sql, Literals(values)).value;
            && Pieces("", rendered) == Expanded(Pieces("", sql), Literals(values))
            && !HasHole(Pieces("", rendered))
  {
    var pieces := Pieces("", sql);
    FilledIsOut(pieces, Literals(values));
    ValuesCover(pieces, values);
    RenderedLexes("", sql, Literals(values));
    ExpandedHasNoHole(pieces, Literals(values));
  }
}

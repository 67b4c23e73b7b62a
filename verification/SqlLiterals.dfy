/** SQL literals (src/params.rs): how values are written, how a text literal reads back, and how literals lex. */
module SqlLiterals {
  import opened Bytes
  import opened SqlTemplates

  /** A parameter value. `Number` is the decimal text of an integer, a finite float, a decimal or a numeric; dates and
      times are written as text. */
  datatype SqlValue = Null | Bool(value: bool) | Number(digits: string) | TextValue(text: string) | Binary

  // -- Numbers ---------------------------------------------------------------------------------

  function Signed(s: string): nat {
    if s != [] && (s[0] == '+' || s[0] == '-') then 1 else 0
  }

  /** An exponent, or nothing. */
  predicate IsExponent(s: string) {
    s == [] || ((s[0] == 'e' || s[0] == 'E') &&
                var t := s[1..]; var digits := t[Signed(t)..]; digits != [] && DigitCount(digits) == |digits|)
  }

  /** `digits[.digits]` at the front: how many digits, and what follows. */
  function Mantissa(t: string): (nat, string) {
    var whole := DigitCount(t);
    var u := t[whole..];
    if u != [] && u[0] == '.' then (whole + DigitCount(u[1..]), u[1..][DigitCount(u[1..])..]) else (whole, u)
  }

  /** `[+-]digits[.digits][e[+-]digits]`, with a digit before or behind the point. */
  predicate IsNumeric(s: string) {
    var (digits, rest) := Mantissa(s[Signed(s)..]);
    digits > 0 && IsExponent(rest)
  }

  /** A loop over digits. */
  method SkipDigits(s: string, start: nat) returns (i: nat)
    requires start <= |s|
    ensures i == start + DigitCount(s[start..]) && s[i..] == s[start..][i - start..]
  {
    i := start;
    while i < |s| && IsDigit(s[i])
      invariant start <= i <= |s| && i + DigitCount(s[i..]) == start + DigitCount(s[start..])
    {
      assert s[i..][1..] == s[i + 1..];
      i := i + 1;
    }
  }

  lemma MantissaIs(t: string, u: string, v: string)
    requires u == t[DigitCount(t)..]
    requires u != [] && u[0] == '.' ==> v == u[1..]
    ensures Mantissa(t) == if u != [] && u[0] == '.' then (DigitCount(t) + DigitCount(v), v[DigitCount(v)..])
                           else (DigitCount(t), u)
  {
  }

  method SkipMantissa(s: string, start: nat) returns (i: nat, digits: nat)
    requires start <= |s|
    ensures i <= |s| && (digits, s[i..]) == Mantissa(s[start..])
  {
    hide DigitCount;
    i := SkipDigits(s, start);
    digits := i - start;
    ghost var u := s[i..];
    MantissaIs(s[start..], u, if u != [] then u[1..] else u);
    if i < |s| && s[i] == '.' {
      assert u[1..] == s[i + 1..];
      var fraction := SkipDigits(s, i + 1);
      digits := digits + (fraction - i - 1);
      i := fraction;
    }
  }

  method EndsInExponent(s: string, start: nat) returns (ends: bool)
    requires start <= |s|
    ensures ends <==> IsExponent(s[start..])
  {
    var i := start;
    if i < |s| && (s[i] == 'e' || s[i] == 'E') {
      i := i + 1;
      assert s[start..][1..] == s[i..];
      if i < |s| && (s[i] == '+' || s[i] == '-') {
        assert s[i..][1..] == s[i + 1..];
        i := i + 1;
      }
      var behind := SkipDigits(s, i);
      return behind != i && behind == |s|;
    }
    ends := i == |s|;
  }

  /** `valid_numeric_literal`. */
  method ValidNumericLiteral(s: string) returns (valid: bool)
    ensures valid <==> IsNumeric(s)
  {
    var i, digits := SkipMantissa(s, Signed(s));
    if digits == 0 {
      return false;
    }
    valid := EndsInExponent(s, i);
  }

  // -- Text ----------------------------------------------------------------------------------------

  const CHR92 := " || chr(92) || "

  function Escaped(v: string): string {
    if v == [] then [] else (if v[0] == '\'' then "''" else [v[0]]) + Escaped(v[1..])
  }

  /** `append_quoted_text`. */
  function Quoted(v: string): string {
    "'" + Escaped(v) + "'"
  }

  /** `split('\\')`. */
  function Parts(v: string): (parts: seq<string>)
    ensures parts != []
  {
    if v == [] then [[]]
    else if v[0] == '\\' then [[]] + Parts(v[1..])
    else [[v[0]] + Parts(v[1..])[0]] + Parts(v[1..])[1..]
  }

  /** Quoted parts, with a backslash between them. */
  function Chained(parts: seq<string>): string
    requires parts != []
  {
    if |parts| == 1 then Quoted(parts[0]) else Quoted(parts[0]) + CHR92 + Chained(parts[1..])
  }

  /** `write_text_literal`. */
  function TextLiteral(v: string): Option<string> {
    if '\0' in v then None
    else if '\\' in v then Some("(" + Chained(Parts(v)) + ")")
    else Some(Quoted(v))
  }

  /** `write_nz_value_sql`. */
  function Literal(v: SqlValue): Option<string> {
    match v
    case Null => Some("NULL")
    case Bool(b) => Some(if b then "'t'" else "'f'")
    case Number(digits) => if IsNumeric(digits) then Some(digits) else None
    case TextValue(text) => TextLiteral(text)
    case Binary => None
  }

  /** `append_quoted_text`, onto `output`. */
  method AppendQuotedText(value: string, output: string) returns (r: string)
    ensures r == output + Quoted(value)
  {
    r := output + "'";
    for i := 0 to |value|
      invariant r + Escaped(value[i..]) == output + "'" + Escaped(value)
    {
      assert value[i..][1..] == value[i + 1..];
      var ch := value[i];
      ghost var before := r;
      r := r + [ch];
      if ch == '\'' {
        r := r + "'";
        assert r == before + "''";
      }
      assert r + Escaped(value[i + 1..]) == before + Escaped(value[i..]);
    }
    assert Escaped(value[|value|..]) == [];
    assert r == output + "'" + Escaped(value);
    r := r + "'";
    assert r == output + ("'" + Escaped(value) + "'");
  }

  /** `write_text_literal`. */
  method WriteTextLiteral(value: string) returns (r: Option<string>)
    ensures r == TextLiteral(value)
  {
    if '\0' in value {
      return None;
    }
    if '\\' !in value {
      var quoted := AppendQuotedText(value, "");
      assert "" + Quoted(value) == Quoted(value);
      return Some(quoted);
    }
    var parts := Parts(value);
    var output := AppendQuotedText(parts[0], "(");
    ChainedIs(parts);
    Regrouped("(", Quoted(parts[0]), Behind(parts[1..]), []);
    for k := 1 to |parts|
      invariant output + Behind(parts[k..]) == "(" + Chained(parts)
    {
      assert parts[k..][1..] == parts[k + 1..];
      ChainedIs(parts[k..]);
      Regrouped(output, CHR92, Quoted(parts[k]), Behind(parts[k + 1..]));
      output := AppendQuotedText(parts[k], output + CHR92);
    }
    assert output + Behind(parts[|parts|..]) == output;
    r := Some(output + ")");
    assert ("(" + Chained(parts)) + ")" == "(" + Chained(parts) + ")";
  }

  lemma Regrouped(a: string, b: string, c: string, d: string)
    ensures a + (b + c + d) == a + b + c + d
    ensures d == [] ==> a + (b + c) == a + b + c
  {
    assert a + (b + c) == a + b + c;
    assert a + ((b + c) + d) == (a + (b + c)) + d;
  }

  /** The parts that follow a first one. */
  function Behind(parts: seq<string>): string {
    if parts == [] then [] else CHR92 + Chained(parts)
  }

  lemma ChainedIs(parts: seq<string>)
    requires parts != []
    ensures Chained(parts) == Quoted(parts[0]) + Behind(parts[1..])
    ensures Behind(parts) == CHR92 + Quoted(parts[0]) + Behind(parts[1..])
  {
    hide Quoted;
    Associative(CHR92, Quoted(parts[0]), Behind(parts[1..]));
  }

  // -- Reading a text literal ------------------------------------------------------------------------

  /** The content of a quoted string at the front, and what follows it. */
  function ReadQuoted(s: string): Option<(string, string)> {
    if s == [] || s[0] != '\'' then None else ReadContent(s[1..])
  }

  function ReadContent(s: string): Option<(string, string)>
    decreases |s|
  {
    if s == [] then None
    else if s[0] != '\'' then
      var r := ReadContent(s[1..]);
      if r.None? then None else Some(([s[0]] + r.value.0, r.value.1))
    else if |s| > 1 && s[1] == '\'' then
      var r := ReadContent(s[2..]);
      if r.None? then None else Some(("'" + r.value.0, r.value.1))
    else Some(([], s[1..]))
  }

  /** Quoted strings joined by `|| chr(92) ||`, up to a closing parenthesis; `chr(92)` is a backslash. */
  function ReadChain(s: string): Option<string>
    decreases |s|
  {
    match ReadQuoted(s)
    case None => None
    case Some((content, rest)) =>
      if rest == ")" then Some(content)
      else if CHR92 <= rest && |rest| < |s| then
        var more := ReadChain(rest[|CHR92|..]);
        if more.None? then None else Some(content + "\\" + more.value)
      else None
  }

  /** What a server makes of a text literal. */
  function ReadText(s: string): Option<string> {
    if s != [] && s[0] == '(' then ReadChain(s[1..])
    else
      match ReadQuoted(s)
      case Some((content, rest)) => if rest == [] then Some(content) else None
      case None => None
  }

  lemma {:induction false} ContentReadsBack(v: string, t: string)
    requires t == [] || t[0] != '\''
    ensures ReadContent(Escaped(v) + "'" + t) == Some((v, t))
  {
    var s := Escaped(v) + "'" + t;
    if v == [] {
      assert s == "'" + t && s[1..] == t;
    } else {
      var rest := Escaped(v[1..]) + "'" + t;
      ContentReadsBack(v[1..], t);
      if v[0] == '\'' {
        assert s == "''" + rest && s[2..] == rest;
      } else {
        assert s == [v[0]] + rest && s[1..] == rest;
      }
      assert v == [v[0]] + v[1..];
    }
  }

  lemma QuotedReadsBack(v: string, t: string)
    requires t == [] || t[0] != '\''
    ensures ReadQuoted(Quoted(v) + t) == Some((v, t))
  {
    ContentReadsBack(v, t);
    assert (Quoted(v) + t)[1..] == Escaped(v) + "'" + t;
  }

  /** Parts put together with backslashes. */
  function Glued(parts: seq<string>): string
    requires parts != []
  {
    if |parts| == 1 then parts[0] else parts[0] + "\\" + Glued(parts[1..])
  }

  lemma {:induction false} PartsGlue(v: string)
    ensures Glued(Parts(v)) == v
  {
    if v != [] {
      PartsGlue(v[1..]);
      var rest := Parts(v[1..]);
      assert v == [v[0]] + v[1..];
      if v[0] == '\\' {
        assert ([[]] + rest)[1..] == rest;
      } else if |rest| > 1 {
        assert Parts(v)[1..] == rest[1..];
        assert [v[0]] + (rest[0] + "\\" + Glued(rest[1..])) == ([v[0]] + rest[0]) + "\\" + Glued(rest[1..]);
      }
    }
  }

  lemma {:induction false} ChainReadsBack(parts: seq<string>)
    requires parts != []
    ensures ReadChain(Chained(parts) + ")") == Some(Glued(parts))
    decreases |parts|
  {
    var s := Chained(parts) + ")";
    if |parts| == 1 {
      QuotedReadsBack(parts[0], ")");
    } else {
      var rest := CHR92 + (Chained(parts[1..]) + ")");
      assert s == Quoted(parts[0]) + rest;
      QuotedReadsBack(parts[0], rest);
      assert rest[|CHR92|..] == Chained(parts[1..]) + ")";
      assert CHR92 <= rest && rest != ")";
      ChainReadsBack(parts[1..]);
    }
  }

  /** Every text value that can be written reads back as itself, with or without backslashes. */
  lemma TextReadsBack(v: string)
    ensures '\0' in v <==> TextLiteral(v).None?
    ensures TextLiteral(v).Some? ==> ReadText(TextLiteral(v).value) == Some(v)
  {
    if '\0' !in v {
      if '\\' in v {
        ChainReadsBack(Parts(v));
        PartsGlue(v);
        var literal := "(" + Chained(Parts(v)) + ")";
        assert literal[1..] == Chained(Parts(v)) + ")";
      } else {
        QuotedReadsBack(v, []);
        assert Quoted(v) + [] == Quoted(v);
      }
    }
  }

  // -- Values as parameters --------------------------------------------------------------------------

  function Literals(values: seq<SqlValue>): seq<Option<string>> {
    seq(|values|, i requires 0 <= i < |values| => Literal(values[i]))
  }

  lemma NumberNeverAsks(s: string)
    requires IsNumeric(s)
    ensures s != [] && s[0] != '?'
  {
    var t := s[Signed(s)..];
    assert t != [] && (IsDigit(t[0]) || t[0] == '.');
  }

  lemma ValuesNeverAsk(values: seq<SqlValue>)
    ensures NoneAsks(Literals(values))
  {
    forall k | 0 <= k < |values| && Literal(values[k]).Some?
      ensures Literal(values[k]).value != [] && Literal(values[k]).value[0] != '?'
    {
      if values[k].Number? {
        NumberNeverAsks(values[k].digits);
      }
    }
  }

  /** For the values of parameters: where two passes succeed, one pass gives the same if and only if no question mark
      stands in code; without values, if and only if nothing in code looks like a placeholder. */
  lemma QuestionsDecide(sql: string, values: seq<SqlValue>)
    requires Substituted(sql, Literals(values)).Some?
    ensures BoundSubstituted(sql, Literals(values)) == Substituted(sql, Literals(values))
            <==> if values == [] then !Stray(Pieces("", sql)) else !Asks(Pieces("", sql))
  {
    ValuesNeverAsk(values);
    QuestionsDiffer(sql, Literals(values));
  }
}

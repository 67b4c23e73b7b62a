/** The identifier printer and its two readers (src/metadata/extended.rs): `quote_identifier`,
    `split_identifier_path` and `normalize_object_name`. */
module Identifiers {
  import opened Bytes

  function TrimStart(s: string): string {
    if s != [] && IsSpace(s[0]) then TrimStart(s[1..]) else s
  }

  function TrimEnd(s: string): string {
    if s != [] && IsSpace(s[|s| - 1]) then TrimEnd(s[..|s| - 1]) else s
  }

  /** `trim`. */
  function Trim(s: string): string {
    TrimEnd(TrimStart(s))
  }

  predicate PlainStart(c: char) {
    'A' <= c <= 'Z'
  }

  predicate PlainChar(c: char) {
    'A' <= c <= 'Z' || '0' <= c <= '9' || c == '_'
  }

  /** A name that needs no quotes, given the reserved words. */
  predicate Unquoted(reserved: set<string>, name: string) {
    name != [] && PlainStart(name[0]) && (forall i :: 0 <= i < |name| ==> PlainChar(name[i])) && name !in reserved
  }

  /** Every quote doubled. */
  function Doubled(name: string): string {
    if name == [] then [] else (if name[0] == '"' then "\"\"" else [name[0]]) + Doubled(name[1..])
  }

  function Enclosed(name: string): string {
    "\"" + name + "\""
  }

  /** `quote_identifier`. */
  function QuoteIdentifier(reserved: set<string>, name: string): string {
    if Unquoted(reserved, name) then name else Enclosed(Doubled(name))
  }

  /** Parts joined by dots. */
  function Dotted(parts: seq<string>): string
    requires parts != []
  {
    if |parts| == 1 then parts[0] else parts[0] + "." + Dotted(parts[1..])
  }

  // -- split_identifier_path --------------------------------------------------------------------

  /** The first loop: the raw parts of `s`, read behind `current`; `None` when a quote stays open. */
  function RawParts(current: string, quoted: bool, s: string): Option<seq<string>>
    decreases |s|
  {
    if s == [] then if quoted then None else Some([current])
    else if s[0] == '"' && quoted && |s| > 1 && s[1] == '"' then RawParts(current + "\"\"", quoted, s[2..])
    else if s[0] == '"' then RawParts(current + "\"", !quoted, s[1..])
    else if s[0] == '.' && !quoted then
      var rest := RawParts([], false, s[1..]);
      if rest.None? then None else Some([current] + rest.value)
    else RawParts(current + [s[0]], quoted, s[1..])
  }

  /** Pairs of quotes as one; `None` for a single quote. */
  function Paired(s: string): Option<string>
    decreases |s|
  {
    if s == [] then Some([])
    else if s[0] != '"' then
      var rest := Paired(s[1..]);
      if rest.None? then None else Some([s[0]] + rest.value)
    else if |s| > 1 && s[1] == '"' then
      var rest := Paired(s[2..]);
      if rest.None? then None else Some("\"" + rest.value)
    else None
  }

  /** One raw part as an identifier. */
  function Identifier(raw: string): Option<string> {
    var part := Trim(raw);
    if part == [] || part[0] != '"' then if '"' in part then None else Some(part)
    else if |part| < 2 || part[|part| - 1] != '"' then None
    else Paired(part[1..|part| - 1])
  }

  function Identifiers(raws: seq<string>): Option<seq<string>> {
    if raws == [] then Some([])
    else
      var before, last := Identifiers(raws[..|raws| - 1]), Identifier(raws[|raws| - 1]);
      if before.Some? && last.Some? then Some(before.value + [last.value]) else None
  }

  /** Up to three parts, none empty but an omitted schema. */
  predicate PathShaped(parts: seq<string>) {
    var omitted := |parts| == 3 && parts[0] != [] && parts[1] == [] && parts[2] != [];
    |parts| <= 3 && ([] !in parts || omitted)
  }

  /** What `split_identifier_path` makes of a path. */
  function Split(value: string): Option<seq<string>> {
    var raws := RawParts([], false, value);
    if raws.None? then None
    else
      var parts := Identifiers(raws.value);
      if parts.Some? && PathShaped(parts.value) then parts else None
  }

  /** The first loop of `split_identifier_path`. */
  method SplitRaw(value: string) returns (r: Option<seq<string>>)
    ensures r == RawParts([], false, value)
  {
    var rawParts: seq<string> := [];
    var current, quoted, i := "", false, 0;
    assert value[0..] == value;
    BehindNone(RawParts([], false, value));
    while i < |value|
      invariant i <= |value|
      invariant RawParts([], false, value) == Behind(rawParts, RawParts(current, quoted, value[i..]))
    {
      var ch := value[i];
      assert value[i..][1..] == value[i + 1..] && (i + 1 < |value| ==> value[i..][2..] == value[i + 2..]);
      if ch == '"' && quoted && i + 1 < |value| && value[i + 1] == '"' {
        current := current + "\"\"";
        i := i + 2;
      } else if ch == '"' {
        current := current + "\"";
        quoted := !quoted;
        i := i + 1;
      } else if ch == '.' && !quoted {
        BehindOne(rawParts, current, RawParts([], false, value[i + 1..]));
        rawParts := rawParts + [current];
        current := "";
        i := i + 1;
      } else {
        current := current + [ch];
        i := i + 1;
      }
    }
    assert value[|value|..] == [];
    if quoted {
      return None;
    }
    r := Some(rawParts + [current]);
  }

  function Behind(done: seq<string>, rest: Option<seq<string>>): Option<seq<string>> {
    if rest.None? then None else Some(done + rest.value)
  }

  lemma BehindNone(rest: Option<seq<string>>)
    ensures Behind([], rest) == rest
  {
    if rest.Some? {
      assert [] + rest.value == rest.value;
    }
  }

  lemma BehindOne(done: seq<string>, current: string, rest: Option<seq<string>>)
    ensures Behind(done, if rest.None? then None else Some([current] + rest.value)) == Behind(done + [current], rest)
  {
    if rest.Some? {
      assert done + ([current] + rest.value) == done + [current] + rest.value;
    }
  }

  /** The inner loop over a quoted part. */
  method Unpair(s: string) returns (r: Option<string>)
    ensures r == Paired(s)
  {
    var identifier, i := "", 0;
    assert s[0..] == s;
    PrependTo("", "", Paired(s));
    while i < |s|
      invariant i <= |s|
      invariant Paired(s) == if Paired(s[i..]).None? then None else Some(identifier + Paired(s[i..]).value)
    {
      assert s[i..][1..] == s[i + 1..] && (i + 1 < |s| ==> s[i..][2..] == s[i + 2..]);
      if s[i] == '"' {
        if i + 1 >= |s| || s[i + 1] != '"' {
          return None;
        }
        PrependTo(identifier, "\"", Paired(s[i + 2..]));
        identifier := identifier + "\"";
        i := i + 2;
      } else {
        PrependTo(identifier, [s[i]], Paired(s[i + 1..]));
        identifier := identifier + [s[i]];
        i := i + 1;
      }
    }
    assert s[|s|..] == [] && identifier + [] == identifier;
    r := Some(identifier);
  }

  lemma PrependTo(identifier: string, more: string, rest: Option<string>)
    ensures rest.Some? ==> identifier + (more + rest.value) == (identifier + more) + rest.value
    ensures rest.Some? ==> "" + rest.value == rest.value
  {
  }

  /** `split_identifier_path`. */
  method SplitIdentifierPath(value: string) returns (r: Option<seq<string>>)
    ensures r == Split(value)
  {
    var raws := SplitRaw(value);
    if raws.None? {
      return None;
    }
    var parts: seq<string> := [];
    for k := 0 to |raws.value|
      invariant Identifiers(raws.value[..k]) == Some(parts)
    {
      assert raws.value[..k + 1][..k] == raws.value[..k];
      var part := Trim(raws.value[k]);
      var identifier: Option<string>;
      if part == [] || part[0] != '"' {
        identifier := if '"' in part then None else Some(part);
      } else if |part| < 2 || part[|part| - 1] != '"' {
        identifier := None;
      } else {
        identifier := Unpair(part[1..|part| - 1]);
      }
      if identifier.None? {
        NoIdentifiers(raws.value, k + 1);
        return None;
      }
      parts := parts + [identifier.value];
    }
    assert raws.value[..|raws.value|] == raws.value;
    r := if PathShaped(parts) then Some(parts) else None;
  }

  lemma {:induction false} NoIdentifiers(raws: seq<string>, k: nat)
    requires k <= |raws| && Identifiers(raws[..k]).None?
    ensures Identifiers(raws).None?
  {
    if k < |raws| {
      assert raws[..|raws| - 1][..k] == raws[..k];
      NoIdentifiers(raws[..|raws| - 1], k);
    } else {
      assert raws[..k] == raws;
    }
  }

  // -- The round trip ------------------------------------------------------------------------------

  lemma {:induction false} DoubledWalk(current: string, name: string, t: string)
    requires t == [] || t[0] != '"'
    ensures RawParts(current, true, Doubled(name) + "\"" + t) == RawParts(current + Doubled(name) + "\"", false, t)
    decreases |name|
  {
    var s := Doubled(name) + "\"" + t;
    if name == [] {
      assert s == "\"" + t && s[1..] == t;
      assert current + [] + "\"" == current + "\"";
    } else {
      var c := if name[0] == '"' then "\"\"" else [name[0]];
      var rest := Doubled(name[1..]) + "\"" + t;
      assert s == c + rest;
      DoubledWalk(current + c, name[1..], t);
      assert current + c + Doubled(name[1..]) + "\"" == current + (c + Doubled(name[1..])) + "\"";
      if name[0] == '"' {
        assert s[2..] == rest;
      } else {
        assert s[1..] == rest;
      }
    }
  }

  lemma {:induction false} PlainWalk(current: string, name: string, t: string)
    requires forall i :: 0 <= i < |name| ==> PlainChar(name[i])
    ensures RawParts(current, false, name + t) == RawParts(current + name, false, t)
    decreases |name|
  {
    if name == [] {
      assert name + t == t && current + name == current;
    } else {
      assert (name + t)[1..] == name[1..] + t;
      PlainWalk(current + [name[0]], name[1..], t);
      assert current + [name[0]] + name[1..] == current + name;
    }
  }

  lemma EnclosedWalk(name: string, t: string)
    requires t == [] || t[0] != '"'
    ensures RawParts([], false, Enclosed(Doubled(name)) + t) == RawParts(Enclosed(Doubled(name)), false, t)
  {
    var s := Enclosed(Doubled(name)) + t;
    assert s[1..] == Doubled(name) + "\"" + t && s[0] == '"';
    assert [] + "\"" == "\"";
    DoubledWalk("\"", name, t);
  }

  /** A printed identifier is read as one raw part. */
  lemma QuotedWalk(reserved: set<string>, name: string, t: string)
    requires t == [] || t[0] != '"'
    ensures RawParts([], false, QuoteIdentifier(reserved, name) + t) ==
            RawParts(QuoteIdentifier(reserved, name), false, t)
  {
    if Unquoted(reserved, name) {
      PlainWalk([], name, t);
      assert [] + name == name;
    } else {
      EnclosedWalk(name, t);
    }
  }

  function Quoted(reserved: set<string>, names: seq<string>): seq<string> {
    seq(|names|, i requires 0 <= i < |names| => QuoteIdentifier(reserved, names[i]))
  }

  lemma {:induction false} PathWalk(reserved: set<string>, names: seq<string>)
    requires names != []
    ensures RawParts([], false, Dotted(Quoted(reserved, names))) == Some(Quoted(reserved, names))
    decreases |names|
  {
    var parts := Quoted(reserved, names);
    var first := parts[0];
    if |names| == 1 {
      QuotedWalk(reserved, names[0], []);
      assert first + [] == first && [first] == parts;
    } else {
      var rest := Dotted(parts[1..]);
      assert parts[1..] == Quoted(reserved, names[1..]);
      PathWalk(reserved, names[1..]);
      assert first + "." + rest == first + ("." + rest);
      QuotedWalk(reserved, names[0], "." + rest);
      assert ("." + rest)[1..] == rest;
      assert [first] + parts[1..] == parts;
    }
  }

  lemma TrimKeeps(s: string)
    requires s != [] && !IsSpace(s[0]) && !IsSpace(s[|s| - 1])
    ensures Trim(s) == s
  {
  }

  lemma {:induction false} DoubledPairs(name: string)
    ensures Paired(Doubled(name)) == Some(name)
  {
    if name != [] {
      DoubledPairs(name[1..]);
      var rest := Doubled(name[1..]);
      assert name == [name[0]] + name[1..];
      if name[0] == '"' {
        assert ("\"\"" + rest)[2..] == rest;
      } else {
        assert ([name[0]] + rest)[1..] == rest;
      }
    }
  }

  lemma IdentifierReadsBack(reserved: set<string>, name: string)
    ensures Identifier(QuoteIdentifier(reserved, name)) == Some(name)
  {
    var printed := QuoteIdentifier(reserved, name);
    if Unquoted(reserved, name) {
      assert PlainChar(name[|name| - 1]);
      TrimKeeps(name);
      assert forall i :: 0 <= i < |name| ==> PlainChar(name[i]);
    } else {
      TrimKeeps(printed);
      assert printed[1..|printed| - 1] == Doubled(name);
      DoubledPairs(name);
    }
  }

  lemma {:induction false} IdentifiersReadBack(reserved: set<string>, names: seq<string>)
    ensures Identifiers(Quoted(reserved, names)) == Some(names)
    decreases |names|
  {
    hide QuoteIdentifier;
    if names != [] {
      var before := names[..|names| - 1];
      IdentifiersReadBack(reserved, before);
      IdentifierReadsBack(reserved, names[|names| - 1]);
      assert Quoted(reserved, names)[..|names| - 1] == Quoted(reserved, before);
      assert names == before + [names[|names| - 1]];
    }
  }

  /** `split_identifier_path` reads back one to three non-empty names printed by `quote_identifier` and joined by
      dots, whatever characters they have. */
  lemma SplitReadsBack(reserved: set<string>, names: seq<string>)
    requires 1 <= |names| <= 3 && [] !in names
    ensures Split(Dotted(Quoted(reserved, names))) == Some(names)
  {
    PathWalk(reserved, names);
    IdentifiersReadBack(reserved, names);
  }

  // -- normalize_object_name -----------------------------------------------------------------------

  /** The loop: raw parts with pairs of quotes already made one, and dots kept inside parentheses; `None` when a quote
      or a parenthesis stays open. */
  function ObjectParts(part: string, inQuotes: bool, parentheses: nat, s: string): Option<seq<string>>
    decreases |s|
  {
    if s == [] then if inQuotes || parentheses != 0 then None else Some([part])
    else if s[0] == '"' && inQuotes && |s| > 1 && s[1] == '"' then
      ObjectParts(part + "\"", inQuotes, parentheses, s[2..])
    else if s[0] == '"' then ObjectParts(part + "\"", !inQuotes, parentheses, s[1..])
    else if !inQuotes && s[0] == '(' then ObjectParts(part + "(", inQuotes, parentheses + 1, s[1..])
    else if !inQuotes && s[0] == ')' then
      ObjectParts(part + ")", inQuotes, if parentheses == 0 then 0 else parentheses - 1, s[1..])
    else if !inQuotes && parentheses == 0 && s[0] == '.' then
      Behind([part], ObjectParts([], inQuotes, parentheses, s[1..]))
    else ObjectParts(part + [s[0]], inQuotes, parentheses, s[1..])
  }

  /** `replace("\"\"", "\"")`. */
  function Collapsed(s: string): string
    decreases |s|
  {
    if s == [] then []
    else if |s| > 1 && s[0] == '"' && s[1] == '"' then "\"" + Collapsed(s[2..])
    else [s[0]] + Collapsed(s[1..])
  }

  /** `normalize_identifier`; `upper` is `to_uppercase`. */
  function NormalizeIdentifier(upper: string -> string, part: string): Option<string> {
    var trimmed := Trim(part);
    if trimmed == [] then None
    else if trimmed[0] == '"' then
      if |trimmed| < 2 || trimmed[|trimmed| - 1] != '"' then None
      else Some(Collapsed(trimmed[1..|trimmed| - 1]))
    else Some(upper(trimmed))
  }

  /** What `normalize_object_name` makes of a name, given a schema for names without one. */
  function Normalized(upper: string -> string, name: string, schema: Option<string>): Option<(Option<string>, string)> {
    var parts := ObjectParts([], false, 0, name);
    if parts.None? || parts.value == [] || |parts.value| > 2 then None
    else
      var relation := NormalizeIdentifier(upper, parts.value[|parts.value| - 1]);
      var given := if |parts.value| == 2 then Some(parts.value[0]) else schema;
      if relation.None? then None
      else if given.None? then Some((None, relation.value))
      else
        var normalized := NormalizeIdentifier(upper, given.value);
        if normalized.None? then None else Some((normalized, relation.value))
  }

  /** `normalize_object_name`. */
  method NormalizeObjectName(upper: string -> string, name: string, schema: Option<string>)
    returns (r: Option<(Option<string>, string)>)
    ensures r == Normalized(upper, name, schema)
  {
    var parts: seq<string> := [];
    var part, inQuotes, parentheses, i := "", false, 0, 0;
    assert name[0..] == name;
    BehindNone(ObjectParts([], false, 0, name));
    while i < |name|
      invariant i <= |name| && parentheses >= 0
      invariant ObjectParts([], false, 0, name) == Behind(parts, ObjectParts(part, inQuotes, parentheses, name[i..]))
    {
      var ch := name[i];
      assert name[i..][1..] == name[i + 1..] && (i + 1 < |name| ==> name[i..][2..] == name[i + 2..]);
      if ch == '"' {
        if inQuotes && i + 1 < |name| && name[i + 1] == '"' {
          part := part + "\"";
          i := i + 1;
        } else {
          inQuotes := !inQuotes;
          part := part + [ch];
        }
      } else if !inQuotes && ch == '(' {
        parentheses := parentheses + 1;
        part := part + [ch];
      } else if !inQuotes && ch == ')' {
        parentheses := if parentheses == 0 then 0 else parentheses - 1;
        part := part + [ch];
      } else if !inQuotes && parentheses == 0 && ch == '.' {
        BehindTwice(parts, part, ObjectParts([], false, 0, name[i + 1..]));
        parts := parts + [part];
        part := "";
      } else {
        part := part + [ch];
      }
      i := i + 1;
    }
    assert name[|name|..] == [];
    ghost var all := parts + [part];
    parts := parts + [part];
    if inQuotes || parentheses != 0 || parts == [] || |parts| > 2 {
      return None;
    }
    var relation := NormalizeIdentifier(upper, parts[|parts| - 1]);
    if relation.None? {
      return None;
    }
    var given := if |parts| >= 2 then Some(parts[|parts| - 2]) else schema;
    if given.None? {
      return Some((None, relation.value));
    }
    var normalized := NormalizeIdentifier(upper, given.value);
    r := if normalized.None? then None else Some((normalized, relation.value));
  }

  lemma BehindTwice(done: seq<string>, part: string, rest: Option<seq<string>>)
    ensures Behind(done, Behind([part], rest)) == Behind(done + [part], rest)
  {
    if rest.Some? {
      assert done + ([part] + rest.value) == done + [part] + rest.value;
    }
  }

  lemma {:induction false} DoubledObject(part: string, name: string, t: string)
    requires t == [] || t[0] != '"'
    ensures ObjectParts(part, true, 0, Doubled(name) + "\"" + t) == ObjectParts(part + name + "\"", false, 0, t)
    decreases |name|
  {
    var s := Doubled(name) + "\"" + t;
    if name == [] {
      assert s == "\"" + t && s[1..] == t;
      assert part + [] + "\"" == part + "\"";
    } else {
      var rest := Doubled(name[1..]) + "\"" + t;
      DoubledObject(part + [name[0]], name[1..], t);
      assert part + [name[0]] + name[1..] == part + name by {
        assert name == [name[0]] + name[1..];
      }
      if name[0] == '"' {
        assert s == "\"\"" + rest && s[2..] == rest;
      } else {
        assert s == [name[0]] + rest && s[1..] == rest;
      }
    }
  }

  lemma {:induction false} PlainObject(part: string, name: string, t: string)
    requires forall i :: 0 <= i < |name| ==> PlainChar(name[i])
    ensures ObjectParts(part, false, 0, name + t) == ObjectParts(part + name, false, 0, t)
    decreases |name|
  {
    if name == [] {
      assert name + t == t && part + name == part;
    } else {
      assert (name + t)[1..] == name[1..] + t;
      PlainObject(part + [name[0]], name[1..], t);
      assert part + [name[0]] + name[1..] == part + name;
    }
  }

  /** A printed name as the loop reads it: its quotes are already single. */
  function ReadName(reserved: set<string>, name: string): string {
    if Unquoted(reserved, name) then name else Enclosed(name)
  }

  lemma EnclosedObject(name: string, t: string)
    requires t == [] || t[0] != '"'
    ensures ObjectParts([], false, 0, Enclosed(Doubled(name)) + t) == ObjectParts(Enclosed(name), false, 0, t)
  {
    var s := Enclosed(Doubled(name)) + t;
    assert s[1..] == Doubled(name) + "\"" + t && s[0] == '"';
    assert [] + "\"" == "\"";
    DoubledObject("\"", name, t);
  }

  lemma NameWalk(reserved: set<string>, name: string, t: string)
    requires t == [] || t[0] != '"'
    ensures ObjectParts([], false, 0, QuoteIdentifier(reserved, name) + t) ==
            ObjectParts(ReadName(reserved, name), false, 0, t)
  {
    if Unquoted(reserved, name) {
      PlainObject([], name, t);
      assert [] + name == name;
    } else {
      EnclosedObject(name, t);
    }
  }

  /** `to_uppercase` leaves upper-case ASCII names alone. */
  ghost predicate Uppercases(upper: string -> string) {
    forall s: string :: (forall i :: 0 <= i < |s| ==> PlainChar(s[i])) ==> upper(s) == s
  }

  lemma NameReadsBack(reserved: set<string>, upper: string -> string, name: string)
    requires Uppercases(upper)
    ensures NormalizeIdentifier(upper, ReadName(reserved, name)) ==
            Some(if Unquoted(reserved, name) then name else Collapsed(name))
  {
    var read := ReadName(reserved, name);
    if Unquoted(reserved, name) {
      assert PlainChar(name[|name| - 1]);
      TrimKeeps(name);
    } else {
      TrimKeeps(read);
      assert read[1..|read| - 1] == name;
    }
  }

  /** No two quotes side by side. */
  predicate NoPair(name: string) {
    forall i :: 0 <= i < |name| - 1 ==> !(name[i] == '"' && name[i + 1] == '"')
  }

  lemma {:induction false} CollapsedIsShorter(s: string)
    ensures |Collapsed(s)| <= |s|
    decreases |s|
  {
    if s != [] {
      if |s| > 1 && s[0] == '"' && s[1] == '"' {
        CollapsedIsShorter(s[2..]);
      } else {
        CollapsedIsShorter(s[1..]);
      }
    }
  }

  /** Undoubling a second time changes exactly the names with two quotes side by side. */
  lemma {:induction false} CollapseIsExact(name: string)
    ensures Collapsed(name) == name <==> NoPair(name)
    decreases |name|
  {
    if name != [] {
      if |name| > 1 && name[0] == '"' && name[1] == '"' {
        CollapsedIsShorter(name[2..]);
      } else {
        CollapseIsExact(name[1..]);
        assert name == [name[0]] + name[1..];
        assert Collapsed(name)[1..] == Collapsed(name[1..]);
        if NoPair(name) {
          forall i | 0 <= i < |name[1..]| - 1
            ensures !(name[1..][i] == '"' && name[1..][i + 1] == '"')
          {
            assert name[1..][i] == name[i + 1] && name[1..][i + 1] == name[i + 2];
          }
        }
        if NoPair(name[1..]) {
          forall i | 0 <= i < |name| - 1
            ensures !(name[i] == '"' && name[i + 1] == '"')
          {
            if i > 0 {
              assert name[1..][i - 1] == name[i] && name[1..][i] == name[i + 1];
            }
          }
        }
      }
    }
  }

  lemma UnquotedHasNoPair(reserved: set<string>, name: string)
    requires Unquoted(reserved, name)
    ensures NoPair(name)
  {
    forall i | 0 <= i < |name| - 1
      ensures !(name[i] == '"' && name[i + 1] == '"')
    {
      assert PlainChar(name[i]);
    }
  }

  lemma OneObject(reserved: set<string>, relation: string)
    ensures ObjectParts([], false, 0, QuoteIdentifier(reserved, relation)) == Some([ReadName(reserved, relation)])
  {
    NameWalk(reserved, relation, []);
    assert QuoteIdentifier(reserved, relation) + [] == QuoteIdentifier(reserved, relation);
  }

  /** A printed name, read back: it is lost exactly when it has two quotes side by side. */
  lemma PrintedReadsBack(reserved: set<string>, upper: string -> string, name: string)
    requires Uppercases(upper)
    ensures var read := NormalizeIdentifier(upper, ReadName(reserved, name));
            read.Some? && (read.value == name <==> NoPair(name))
  {
    NameReadsBack(reserved, upper, name);
    CollapseIsExact(name);
    if Unquoted(reserved, name) {
      UnquotedHasNoPair(reserved, name);
    }
  }

  /** `normalize_object_name` reads back a printed object name just when it has no two quotes side by side: it
      undoubles twice. */
  lemma ObjectReadsBack(reserved: set<string>, upper: string -> string, relation: string)
    requires Uppercases(upper)
    ensures Normalized(upper, QuoteIdentifier(reserved, relation), None) == Some((None, relation)) <==> NoPair(relation)
  {
    OneObject(reserved, relation);
    PrintedReadsBack(reserved, upper, relation);
  }

  lemma TwoObjects(reserved: set<string>, schema: string, relation: string)
    ensures ObjectParts([], false, 0, QuoteIdentifier(reserved, schema) + "." + QuoteIdentifier(reserved, relation)) ==
            Some([ReadName(reserved, schema), ReadName(reserved, relation)])
  {
    hide QuoteIdentifier, ReadName;
    var tail := QuoteIdentifier(reserved, relation);
    NameWalk(reserved, schema, "." + tail);
    assert QuoteIdentifier(reserved, schema) + "." + tail == QuoteIdentifier(reserved, schema) + ("." + tail);
    assert ("." + tail)[1..] == tail;
    OneObject(reserved, relation);
    assert [ReadName(reserved, schema)] + [ReadName(reserved, relation)] ==
           [ReadName(reserved, schema), ReadName(reserved, relation)];
  }

  /** The same for a schema and an object. */
  lemma QualifiedReadsBack(reserved: set<string>, upper: string -> string, schema: string, relation: string)
    requires Uppercases(upper)
    ensures var printed := QuoteIdentifier(reserved, schema) + "." + QuoteIdentifier(reserved, relation);
            Normalized(upper, printed, None) == Some((Some(schema), relation)) <==> NoPair(schema) && NoPair(relation)
  {
    hide QuoteIdentifier, ReadName, ObjectParts, NormalizeIdentifier, NoPair, Uppercases;
    TwoObjects(reserved, schema, relation);
    PrintedReadsBack(reserved, upper, schema);
    PrintedReadsBack(reserved, upper, relation);
  }
}

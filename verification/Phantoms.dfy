/** When the buffered result and the stream summary have the same sets (src/connection.rs, `flush_current` against
    `finish_stream_result_set`), as a condition on the messages of the response. */
module Phantoms {
  import opened Bytes
  import opened TupleDesc
  import opened Rows
  import opened Framing
  import opened Responses
  import opened SinkAgreement

  /** What the messages so far leave open: no set, a set that has no row and no column of a text description, or a set
      that the buffered result keeps. */
  datatype Open = NoSet | Bare | Solid

  /** What the rest of a response depends on: the columns and the descriptor rows are read with, and the open set. */
  datatype Scan = Scan(cached: Option<seq<Column>>, descriptor: Option<Descriptor>, open: Open)

  const START := Scan(None, None, NoSet)

  /** `m` is a row, binary or text, and its values decode. */
  ghost predicate Decodes<V>(env: Env<V>, s: Scan, m: Message) {
    match m
    case Row(payload) => s.descriptor.Some? && EagerRow(env.codec, s.descriptor.value, payload).Values?
    case Tagged(kind, payload) => kind == DATA_ROW && s.cached.Some? && env.textRow(payload, s.cached.value).TextRow?
    case _ => false
  }

  ghost function Scanned<V>(env: Env<V>, s: Scan, m: Message): Scan {
    if Decodes(env, s, m) then s.(open := Solid)
    else if !m.Tagged? then s
    else if m.kind == COMMAND_COMPLETE then s.(open := NoSet)
    else if m.kind == ROW_DESCRIPTION && env.rowDescription(m.payload).Some? then
      var columns := env.rowDescription(m.payload).value;
      s.(cached := Some(columns), open := if columns == [] then Bare else Solid)
    else if m.kind == ROW_DESCRIPTION_STANDARD && Described(m.payload, Oids(s.cached)).Some? then
      var d := Described(m.payload, Oids(s.cached)).value;
      Scan(Some(s.cached.GetOr(env.describe(d))), Some(d), if s.open.NoSet? then Bare else s.open)
    else s
  }

  /** Messages that close the open set. */
  predicate ClosesSet(m: Message) {
    m.Ready? || (m.Tagged? && (m.kind == COMMAND_COMPLETE || m.kind == ROW_DESCRIPTION))
  }

  /** No set that a binary description alone, or a text description without columns, opened is closed before a row of
      it is decoded. */
  ghost predicate NoPhantom<V>(env: Env<V>, s: Scan, b: seq<byte>)
    decreases |b|
  {
    match NextFrame(b)
    case Frame(m, rest) => !(ClosesSet(m) && s.open.Bare?) && (m.Ready? || NoPhantom(env, Scanned(env, s, m), rest))
    case _ => true
  }

  // -- The messages tell the open set ----------------------------------------------------------------

  function OpenOf<V>(p: Progress<V>, q: Progress<V>): Open {
    if q.currentIndex.None? then NoSet
    else if p.current.None? || (p.current.value.rows == [] && p.current.value.columns == []) then Bare
    else Solid
  }

  ghost predicate Tracks<V>(s: Scan, p: Progress<V>, q: Progress<V>) {
    s == Scan(p.cached, p.descriptor, OpenOf(p, q))
  }

  /** How many closed sets of the stream the buffered result has not got. */
  function Missing<V>(p: Progress<V>, q: Progress<V>): int {
    |q.streamSets| - |p.sets| - if q.currentIndex.Some? then 1 else 0
  }

  /** After a step the scan goes on, and a phantom more is missing if `phantom` says so. */
  ghost predicate Advances<V>(p: Progress<V>, q: Progress<V>, r: Scan, a: Progress<V>, b: Progress<V>, phantom: bool) {
    Tracks(r, a, b) && Missing(a, b) == Missing(p, q) + if phantom then 1 else 0
  }

  lemma ValuesRowTracks<V(!new)>(env: Env<V>, p: Progress<V>, q: Progress<V>, text: seq<bool>, s: Scan, values: seq<V>)
    requires NeverFails(env) && Agree(p, q, text) && Tracks(s, p, q) && p.cached.Some?
    ensures var a, b := OnValuesRow(env, p, p.cached.value, values), OnValuesRow(env, q, p.cached.value, values);
            a.Some? && b.Some? && Advances(p, q, s.(open := Solid), a.value, b.value, false)
  {
    ValuesRowKeeps(env, p, q, text, values);
  }

  lemma RowTracks<V(!new)>(env: Env<V>, p: Progress<V>, q: Progress<V>, text: seq<bool>, s: Scan, m: Message)
    requires NeverFails(env) && Agree(p, q, text) && Tracks(s, p, q)
    requires m.Row? || (m.Tagged? && m.kind == DATA_ROW)
    requires Step(env, p, m).Some? && Step(env, q, m).Some?
    ensures Advances(p, q, Scanned(env, s, m), Step(env, p, m).value, Step(env, q, m).value, false)
  {
    assert TextColumns(p) == TextColumns(q) == p.cached;
    if Decodes(env, s, m) {
      var values := if m.Row? then EagerRow(env.codec, s.descriptor.value, m.payload).values
                    else env.textRow(m.payload, s.cached.value).values;
      ValuesRowTracks(env, p, q, text, s, values);
    }
  }

  /** What the messages other than rows need of the two sides. */
  predicate Sides<V>(p: Progress<V>, q: Progress<V>) {
    && Coherent(p) && Coherent(q) && !p.streaming && q.streaming && q.current.None?
    && p.cached == q.cached && p.descriptor == q.descriptor
    && (p.current.Some? ==> q.currentIndex.Some? && p.cached.Some?)
  }

  lemma CommandDoneTracks<V>(env: Env<V>, p: Progress<V>, q: Progress<V>, s: Scan, payload: seq<byte>)
    requires Sides(p, q) && Tracks(s, p, q)
    ensures Advances(p, q, s.(open := NoSet),
                     OnCommandDone(env, p, payload), OnCommandDone(env, q, payload), s.open.Bare?)
  {
  }

  lemma DescriptionTracks<V>(env: Env<V>, p: Progress<V>, q: Progress<V>, s: Scan, columns: seq<Column>)
    requires Sides(p, q) && Tracks(s, p, q)
    ensures Advances(p, q, s.(cached := Some(columns), open := if columns == [] then Bare else Solid),
                     OnRowDescription(env, p, columns), OnRowDescription(env, q, columns), s.open.Bare?)
  {
  }

  lemma BinaryDescriptionTracks<V>(env: Env<V>, p: Progress<V>, q: Progress<V>, s: Scan, d: Descriptor)
    requires Sides(p, q) && Tracks(s, p, q)
    ensures Advances(p, q,
                     Scan(Some(s.cached.GetOr(env.describe(d))), Some(d), if s.open.NoSet? then Bare else s.open),
                     OnBinaryDescription(env, p, d), OnBinaryDescription(env, q, d), false)
  {
  }

  /** A message about neither sets nor rows. */
  predicate IsStatus(kind: byte) {
    kind != COMMAND_COMPLETE && kind != ROW_DESCRIPTION && kind != DATA_ROW && kind != ROW_DESCRIPTION_STANDARD
  }

  /** `r` differs from `p` only in what it reports beside the sets. */
  ghost predicate SameSide<V>(p: Progress<V>, r: Progress<V>) {
    r == p.(error := r.error, notices := r.notices, told := r.told)
  }

  lemma StatusKeepsSide<V>(env: Env<V>, p: Progress<V>, kind: byte, payload: seq<byte>, parsed: Option<Descriptor>)
    requires Coherent(p) && IsStatus(kind)
    ensures OnTagged(env, p, kind, payload, parsed).Some? && SameSide(p, OnTagged(env, p, kind, payload, parsed).value)
  {
    hide Tell;
  }

  lemma StatusTracks<V>(env: Env<V>, p: Progress<V>, q: Progress<V>, s: Scan, kind: byte, payload: seq<byte>,
                        parsed: Option<Descriptor>)
    requires Sides(p, q) && Tracks(s, p, q) && IsStatus(kind)
    ensures OnTagged(env, p, kind, payload, parsed).Some? && OnTagged(env, q, kind, payload, parsed).Some?
    ensures Advances(p, q, s, OnTagged(env, p, kind, payload, parsed).value,
                     OnTagged(env, q, kind, payload, parsed).value, false)
  {
    hide OnTagged;
    StatusKeepsSide(env, p, kind, payload, parsed);
    StatusKeepsSide(env, q, kind, payload, parsed);
  }

  lemma TaggedTracks<V>(env: Env<V>, p: Progress<V>, q: Progress<V>, s: Scan, kind: byte, payload: seq<byte>,
                        parsed: Option<Descriptor>)
    requires Sides(p, q) && Tracks(s, p, q) && kind != DATA_ROW && parsed == Described(payload, Oids(s.cached))
    requires OnTagged(env, p, kind, payload, parsed).Some? && OnTagged(env, q, kind, payload, parsed).Some?
    ensures Advances(p, q, Scanned(env, s, Tagged(kind, payload)), OnTagged(env, p, kind, payload, parsed).value,
                     OnTagged(env, q, kind, payload, parsed).value, ClosesSet(Tagged(kind, payload)) && s.open.Bare?)
  {
    hide Advances, Sides, Tracks, OnCommandDone, OnRowDescription, OnBinaryDescription;
    if kind == COMMAND_COMPLETE {
      CommandDoneTracks(env, p, q, s, payload);
    } else if kind == ROW_DESCRIPTION {
      DescriptionTracks(env, p, q, s, env.rowDescription(payload).value);
    } else if kind == ROW_DESCRIPTION_STANDARD {
      BinaryDescriptionTracks(env, p, q, s, parsed.value);
    } else {
      StatusTracks(env, p, q, s, kind, payload, parsed);
    }
  }

  lemma StepTracks<V(!new)>(env: Env<V>, p: Progress<V>, q: Progress<V>, text: seq<bool>, s: Scan, m: Message)
    requires NeverFails(env) && Agree(p, q, text) && Tracks(s, p, q) && !m.Ready?
    requires Step(env, p, m).Some? && Step(env, q, m).Some?
    ensures Advances(p, q, Scanned(env, s, m),
                     Step(env, p, m).value, Step(env, q, m).value, ClosesSet(m) && s.open.Bare?)
  {
    hide OnTagged, OnBinaryRow;
    if m.Row? || (m.Tagged? && m.kind == DATA_ROW) {
      RowTracks(env, p, q, text, s, m);
    } else if m.Tagged? {
      TaggedTracks(env, p, q, s, m.kind, m.payload, Described(m.payload, Oids(s.cached)));
    }
  }

  lemma {:induction false} ResponseTracks<V(!new)>(
    env: Env<V>, p: Progress<V>, q: Progress<V>, text: seq<bool>, s: Scan, b: seq<byte>)
    requires NeverFails(env) && Agree(p, q, text) && Tracks(s, p, q) && Missing(p, q) >= 0
    requires Response(env, p, b).Complete? && Response(env, q, b).Complete?
    ensures |Response(env, p, b).progress.sets| == |Response(env, q, b).progress.streamSets|
            <==> Missing(p, q) == 0 && NoPhantom(env, s, b)
    decreases |b|
  {
    var f := NextFrame(b);
    if !f.message.Ready? {
      StepKeeps(env, p, q, text, f.message);
      StepTracks(env, p, q, text, s, f.message);
      var a, r := Step(env, p, f.message).value, Step(env, q, f.message).value;
      ResponseTracks(env, a, r, Mark(text, |r.streamSets|, f.message), Scanned(env, s, f.message), f.rest);
    }
  }

  /** The buffered result and the stream have the same sets if and only if the messages leave no phantom. */
  lemma SameSetsIffNoPhantom<V(!new)>(env: Env<V>, b: seq<byte>)
    requires NeverFails(env) && Response(env, Begin(false), b).Complete?
    ensures Response(env, Begin(true), b).Complete?
    ensures SameSets(Response(env, Begin(false), b).progress, Response(env, Begin(true), b).progress)
            <==> NoPhantom(env, START, b)
  {
    SameSetsBySummary(env, b);
    ResponseTracks(env, Begin(false), Begin(true), [], START, b);
  }

  // -- Text descriptions first --------------------------------------------------------------------------

  /** Every text description has columns, and every binary one comes inside the set of a text one. */
  ghost predicate TextFirst<V>(env: Env<V>, described: bool, b: seq<byte>)
    decreases |b|
  {
    match NextFrame(b)
    case Frame(m, rest) =>
      if m.Ready? then true
      else if m.Tagged? && m.kind == ROW_DESCRIPTION then
        env.rowDescription(m.payload) !in {None, Some([])} && TextFirst(env, true, rest)
      else if m.Tagged? && m.kind == COMMAND_COMPLETE then TextFirst(env, false, rest)
      else (m.Tagged? && m.kind == ROW_DESCRIPTION_STANDARD ==> described) && TextFirst(env, described, rest)
    case _ => true
  }

  /** Then nothing is a phantom. */
  lemma {:induction false} TextFirstHasNoPhantom<V>(env: Env<V>, s: Scan, described: bool, b: seq<byte>)
    requires TextFirst(env, described, b) && !s.open.Bare? && (described ==> s.open.Solid?)
    ensures NoPhantom(env, s, b)
    decreases |b|
  {
    var f := NextFrame(b);
    if f.Frame? && !f.message.Ready? {
      var m := f.message;
      var text, done := m.Tagged? && m.kind == ROW_DESCRIPTION, m.Tagged? && m.kind == COMMAND_COMPLETE;
      TextFirstHasNoPhantom(env, Scanned(env, s, m), text || (described && !done), f.rest);
    }
  }

  /** Where every binary description follows a non-empty text one of the same set, both results have the same sets. */
  lemma TextFirstAgrees<V(!new)>(env: Env<V>, b: seq<byte>)
    requires NeverFails(env) && Response(env, Begin(false), b).Complete? && TextFirst(env, false, b)
    ensures Response(env, Begin(true), b).Complete?
    ensures SameSets(Response(env, Begin(false), b).progress, Response(env, Begin(true), b).progress)
  {
    SameSetsIffNoPhantom(env, b);
    TextFirstHasNoPhantom(env, START, false, b);
  }

  // -- Where the two differ -----------------------------------------------------------------------------

  /** A message of kind `kind` is at the front of `b`. */
  predicate Starts(b: seq<byte>, kind: byte) {
    NextFrame(b).Frame? && NextFrame(b).message.Tagged? && NextFrame(b).message.kind == kind
  }

  predicate StartsReady(b: seq<byte>) {
    NextFrame(b).Frame? && NextFrame(b).message.Ready?
  }

  /** A binary description and ReadyForQuery: one set for the stream, none in the buffered result. */
  lemma BareDescriptionDiffers<V>(env: Env<V>, b: seq<byte>)
    requires Starts(b, ROW_DESCRIPTION_STANDARD) && Described(NextFrame(b).message.payload, None).Some?
    requires StartsReady(NextFrame(b).rest)
    ensures Response(env, Begin(false), b).Complete? && Response(env, Begin(true), b).Complete?
    ensures Response(env, Begin(false), b).progress.sets == []
    ensures |Response(env, Begin(true), b).progress.streamSets| == 1
  {
    var d := Described(NextFrame(b).message.payload, None).value;
    var p: Progress<V> := Begin(false);
    var q: Progress<V> := Begin(true);
    BinaryDescriptionTracks(env, p, q, START, d);
    assert Response(env, OnBinaryDescription(env, p, d), NextFrame(b).rest).Complete?;
    assert Response(env, OnBinaryDescription(env, q, d), NextFrame(b).rest).Complete?;
  }

  /** Two messages, and a binary description and ReadyForQuery behind them. */
  predicate DescriptionAfterCommand(b: seq<byte>) {
    && Starts(b, ROW_DESCRIPTION) && Starts(NextFrame(b).rest, COMMAND_COMPLETE)
    && Starts(NextFrame(NextFrame(b).rest).rest, ROW_DESCRIPTION_STANDARD)
    && StartsReady(NextFrame(NextFrame(NextFrame(b).rest).rest).rest)
  }

  lemma DescriptionsParse<V>(env: Env<V>, b: seq<byte>)
    requires DescriptionAfterCommand(b) && Response(env, Begin(false), b).Complete?
    ensures var columns := env.rowDescription(NextFrame(b).message.payload);
            && columns.Some?
            && Described(NextFrame(NextFrame(NextFrame(b).rest).rest).message.payload, Oids(columns)).Some?
  {
    hide Response, NextFrame, OnRowDescription, OnCommandDone;
    var second := NextFrame(b).rest;
    GoesOn(env, Begin(false), b);
    var columns := env.rowDescription(NextFrame(b).message.payload).value;
    var p1 := OnRowDescription(env, Begin(false), columns);
    GoesOn(env, p1, second);
    CachedColumns(env, Begin(false), columns, NextFrame(second).message.payload);
    GoesOn(env, OnCommandDone(env, p1, NextFrame(second).message.payload), NextFrame(second).rest);
  }

  /** A binary description behind a command that had a text one, without rows of its own: the text description of
      another set does not help. */
  lemma DescriptionAfterCommandDiffers<V(!new)>(env: Env<V>, b: seq<byte>)
    requires NeverFails(env) && Response(env, Begin(false), b).Complete? && DescriptionAfterCommand(b)
    ensures Response(env, Begin(true), b).Complete?
    ensures !SameSets(Response(env, Begin(false), b).progress, Response(env, Begin(true), b).progress)
  {
    SameSetsIffNoPhantom(env, b);
    DescriptionsParse(env, b);
    hide Response, NextFrame, NoPhantom, SameSets;
    var second := NextFrame(b).rest;
    var s1 := Scanned(env, START, NextFrame(b).message);
    ScanGoesOn(env, START, b);
    ScanGoesOn(env, s1, second);
    BareDescriptionScans(env, Scanned(env, s1, NextFrame(second).message), NextFrame(second).rest);
  }

  lemma ScanGoesOn<V>(env: Env<V>, s: Scan, b: seq<byte>)
    requires NextFrame(b).Frame? && !NextFrame(b).message.Ready?
    ensures NoPhantom(env, s, b) ==> NoPhantom(env, Scanned(env, s, NextFrame(b).message), NextFrame(b).rest)
  {
  }

  lemma BareDescriptionScans<V>(env: Env<V>, s: Scan, b: seq<byte>)
    requires s.open.NoSet? && Starts(b, ROW_DESCRIPTION_STANDARD) && StartsReady(NextFrame(b).rest)
    requires Described(NextFrame(b).message.payload, Oids(s.cached)).Some?
    ensures !NoPhantom(env, s, b)
  {
    if NoPhantom(env, s, b) {
      ScanGoesOn(env, s, b);
    }
  }

  lemma GoesOn<V>(env: Env<V>, p: Progress<V>, b: seq<byte>)
    requires Coherent(p) && Response(env, p, b).Complete? && NextFrame(b).Frame? && !NextFrame(b).message.Ready?
    ensures Step(env, p, NextFrame(b).message).Some?
    ensures Response(env, Step(env, p, NextFrame(b).message).value, NextFrame(b).rest).Complete?
  {
  }

  lemma CachedColumns<V>(env: Env<V>, p: Progress<V>, columns: seq<Column>, payload: seq<byte>)
    requires Coherent(p)
    ensures OnCommandDone(env, OnRowDescription(env, p, columns), payload).cached == Some(columns)
  {
  }

  /** The payload of a binary description of one column: zero bytes but for the number of columns. */
  const ONE_COLUMN: seq<byte> := seq(80, i => if i == 35 then 1 else 0)

  /** The description, and ReadyForQuery. */
  const BARE_RESPONSE: seq<byte> := [88, 0, 0, 0, 0, 0, 0, 0, 80] + ONE_COLUMN + [90, 0, 0, 0, 0]

  lemma WordOf(at: nat)
    requires at + 4 <= 80 && (at == 32 || at + 4 <= 35 || at > 35)
    ensures BigI32(ONE_COLUMN, at) == if at == 32 then 1 else 0
  {
  }

  lemma OneColumnHeader()
    ensures HeaderOk(ONE_COLUMN, None) && BigI32(ONE_COLUMN, 32) == 1
    ensures forall at :: at in {4, 16, 20, 24, 28} ==> BigI32(ONE_COLUMN, at) == 0
  {
    hide BigI32;
    WordOf(4);
    WordOf(16);
    WordOf(20);
    WordOf(24);
    WordOf(28);
    WordOf(32);
  }

  lemma OneColumnEntry()
    ensures FieldAt(ONE_COLUMN, HEADER_LEN, None) == Some(Field(0, 0, 0, 0, 0, false, 2, 1))
  {
    hide BigI32;
    forall at: nat | 36 <= at <= 64
      ensures BigI32(ONE_COLUMN, at) == 0
    {
      WordOf(at);
    }
  }

  lemma OneColumnIsDescribed()
    ensures Described(ONE_COLUMN, None).Some? && Described(ONE_COLUMN, None).value.numFields == 1
  {
    hide BigI32, FieldAt, HeaderOk;
    OneColumnHeader();
    OneColumnEntry();
    var d := Descriptor(0, 0, 0, 0, 0, 1, [0], [0], [0], [0], [0], [false], [2], [1]);
    assert Entry(ONE_COLUMN, None, 0) == Some(FieldOf(d, 0));
    assert Encodes(ONE_COLUMN, None, d);
  }

  /** Bytes on which the two results differ, whatever the parsers and the sink are. */
  lemma BareResponseDiffers<V>(env: Env<V>)
    ensures Response(env, Begin(false), BARE_RESPONSE).Complete? && Response(env, Begin(true), BARE_RESPONSE).Complete?
    ensures Response(env, Begin(false), BARE_RESPONSE).progress.sets == []
    ensures |Response(env, Begin(true), BARE_RESPONSE).progress.streamSets| == 1
  {
    var b, ready := BARE_RESPONSE, [90, 0, 0, 0, 0];
    assert b[9..89] == ONE_COLUMN && b[89..] == ready;
    assert BigI32(b, 5) == 80 && NextFrame(b) == Frame(Tagged(ROW_DESCRIPTION_STANDARD, ONE_COLUMN), ready);
    assert SkipNuls(ready) == ready;
    OneColumnIsDescribed();
    BareDescriptionDiffers(env, b);
  }
}

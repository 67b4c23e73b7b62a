/** What the response loop makes of the messages of one response (src/connection.rs,
    `drain_response_with_sink` and the result-set helpers below it). The same state serves both sinks: the
    buffered one collects rows, the streaming one hands them to a callback. */
module Responses {
  import opened Bytes
  import opened TupleDesc
  import opened Rows
  import opened Framing

  datatype Column = Column(name: seq<byte>, oid: int)

  /** What the text-row parser of src/types makes of a payload. */
  datatype TextParse<V> = TextRow(values: seq<V>) | BadValue | BadFrame

  datatype ResultSet<V> = ResultSet(columns: seq<Column>, rows: seq<seq<V>>, nullability: Option<seq<bool>>)

  datatype StreamResultSet = StreamResultSet(columns: seq<Column>, nullability: Option<seq<bool>>, rowCount: nat)

  /** One call of a `QueryStreamSink`. */
  datatype Callback<V> =
    | OnColumns(index: nat, columns: seq<Column>, nullability: Option<seq<bool>>)
    | OnValues(index: nat, values: seq<V>)
    | OnNotice(text: string)
    | OnCommandComplete(tag: string, affected: int)

  /** The payload parsers that are not part of this model, and the sink: `sink` says whether the last call of a
      history succeeds. Any functions at all. */
  datatype Env<!V> = Env(
    codec: Codec<V>,
    rowDescription: seq<byte> -> Option<seq<Column>>,
    describe: Descriptor -> seq<Column>,
    textRow: (seq<byte>, seq<Column>) -> TextParse<V>,
    message: seq<byte> -> string,
    tag: seq<byte> -> string,
    affected: string -> int,
    sink: seq<Callback<V>> -> bool)

  /** The sink's side of a response: the calls it got, whether the last one failed, whether a cancel went out. */
  datatype Told<V> = Told(calls: seq<Callback<V>>, failed: bool, cancelSent: bool)

  /** The variables of the loop. */
  datatype Progress<V> = Progress(
    streaming: bool,
    cached: Option<seq<Column>>,
    descriptor: Option<Descriptor>,
    nullability: Option<seq<bool>>,
    rowsAffected: int,
    notices: seq<string>,
    error: Option<NzError>,
    deferred: bool,
    // buffered
    sets: seq<ResultSet<V>>,
    current: Option<ResultSet<V>>,
    rowColumns: Option<seq<Column>>,
    rowMetadata: Option<seq<Column>>,
    // streaming
    streamSets: seq<StreamResultSet>,
    columnsSent: seq<bool>,
    currentIndex: Option<nat>,
    told: Told<V>)

  function Begin<V>(streaming: bool): Progress<V> {
    Progress(streaming, None, None, None, -1, [], None, false,
             [], None, None, None,
             [], [], None, Told([], false, false))
  }

  /** The variables fit together. */
  predicate Coherent<V>(p: Progress<V>) {
    && |p.columnsSent| == |p.streamSets|
    && (p.currentIndex.Some? ==> p.currentIndex.value < |p.streamSets|)
    && (p.error.Some? ==> p.error.value.Database?)
  }

  /** A cancel that went out stays out, and the sink does not change. */
  predicate Onward<V>(p: Progress<V>, r: Progress<V>) {
    Coherent(r) && r.streaming == p.streaming && (p.told.cancelSent ==> r.told.cancelSent)
  }

  // -- Buffered sink ------------------------------------------------------------------

  /** `flush_current`: an empty set is kept only for its columns. */
  function FlushCurrent<V>(p: Progress<V>): Progress<V> {
    var keep := p.current.Some? && (p.current.value.rows != [] || p.current.value.columns != []);
    p.(sets := if keep then p.sets + [p.current.value] else p.sets, current := None, rowColumns := None)
  }

  /** `push_existing_row` for a row whose metadata is `columns`; `None` is the column-count mismatch. */
  function PushExistingRow<V>(p: Progress<V>, columns: seq<Column>, values: seq<V>): Option<Progress<V>> {
    var begun := if p.current.None?
                  then p.(rowColumns := Some(columns), current := Some(ResultSet(columns, [], p.nullability)))
                  else p;
    var open := begun.current.value;
    if open.columns != [] && |columns| != |open.columns| then None
    else Some(begun.(rowColumns := if begun.rowColumns.None? then Some(open.columns) else begun.rowColumns,
                      current := Some(open.(rows := open.rows + [values]))))
  }

  // -- Streaming sink -----------------------------------------------------------------

  /** One sink call (`record_stream_sink_result`): none once a call has failed. */
  function Tell<V>(env: Env<V>, t: Told<V>, c: Callback<V>): Told<V> {
    if t.failed then t else Told(t.calls + [c], !env.sink(t.calls + [c]), t.cancelSent)
  }

  function Call<V>(env: Env<V>, p: Progress<V>, c: Callback<V>): Progress<V> {
    p.(told := Tell(env, p.told, c))
  }

  /** `cancel_if_sink_aborted!` after a step that started with `before`: a fresh failure sends the one cancel. */
  function CancelIfAborted<V>(before: Told<V>, p: Progress<V>): Progress<V> {
    p.(told := p.told.(cancelSent := p.told.cancelSent || (p.told.failed && !before.failed)))
  }

  /** `ensure_stream_result_set`. */
  function EnsureStreamSet<V>(p: Progress<V>, columns: seq<Column>, nullability: Option<seq<bool>>): (r: Progress<V>)
    requires Coherent(p)
    ensures Onward(p, r) && r.currentIndex.Some?
  {
    if p.currentIndex.Some? then p
    else p.(streamSets := p.streamSets + [StreamResultSet(columns, nullability, 0)],
            columnsSent := p.columnsSent + [false],
            currentIndex := Some(|p.streamSets|))
  }

  /** `emit_stream_columns`: once per set. */
  function EmitColumns<V>(env: Env<V>, p: Progress<V>, index: nat): (r: Progress<V>)
    requires Coherent(p) && index < |p.streamSets|
    ensures Onward(p, r)
  {
    var summary := p.streamSets[index];
    p.(columnsSent := p.columnsSent[index := true],
       told := if p.columnsSent[index] then p.told
               else Tell(env, p.told, OnColumns(index, summary.columns, summary.nullability)))
  }

  /** `emit_stream_row`. */
  function EmitRow<V>(env: Env<V>, p: Progress<V>, values: seq<V>): (r: Progress<V>)
    requires Coherent(p) && p.currentIndex.Some?
    ensures Onward(p, r)
  {
    var index := p.currentIndex.value;
    var called := Call(env, EmitColumns(env, p, index), OnValues(index, values));
    var open := called.streamSets[index];
    CancelIfAborted(p.told, called.(streamSets := called.streamSets[index := open.(rowCount := open.rowCount + 1)]))
  }

  /** `finish_stream_result_set`. */
  function FinishStreamSet<V>(env: Env<V>, p: Progress<V>): (r: Progress<V>)
    requires Coherent(p)
    ensures Onward(p, r) && r.currentIndex.None?
  {
    if p.currentIndex.None? then p else EmitColumns(env, p, p.currentIndex.value).(currentIndex := None)
  }

  /** The end of a set on either sink. */
  function FinishSet<V>(env: Env<V>, p: Progress<V>): (r: Progress<V>)
    requires Coherent(p)
    ensures Onward(p, r)
  {
    if p.streaming then FinishStreamSet(env, p) else FlushCurrent(p)
  }

  // -- Messages -------------------------------------------------------------------------

  /** A decoded row, text or binary, in the set described by `fallback` unless one is open. */
  function OnValuesRow<V>(env: Env<V>, p: Progress<V>, fallback: seq<Column>, values: seq<V>): (r: Option<Progress<V>>)
    requires Coherent(p)
    ensures r.Some? ==> Onward(p, r.value)
    ensures r.Some? ==> r.value.descriptor == p.descriptor
  {
    if p.streaming then Some(EmitRow(env, EnsureStreamSet(p, fallback, p.nullability), values))
    else
      var metadata := p.rowMetadata.GetOr(fallback);
      PushExistingRow(p.(rowMetadata := Some(metadata)), metadata, values)
  }

  /** The columns a binary row is read with. */
  function BinaryColumns<V>(env: Env<V>, p: Progress<V>): seq<Column>
    requires p.descriptor.Some?
  {
    var described := p.cached.GetOr(env.describe(p.descriptor.value));
    if p.streaming then described else p.rowColumns.GetOr(described)
  }

  /** The columns a text row is read with (`current_columns_ref` when streaming). */
  function TextColumns<V>(p: Progress<V>): Option<seq<Column>> {
    var open := if p.current.Some? then Some(p.current.value.columns) else None;
    if p.streaming then (if open.Some? then open else p.cached)
    else if p.rowColumns.Some? then p.rowColumns
    else if p.cached.Some? then p.cached
    else open
  }

  function OnDataRow<V>(env: Env<V>, p: Progress<V>, payload: seq<byte>): (r: Option<Progress<V>>)
    requires Coherent(p)
    ensures r.Some? ==> Onward(p, r.value)
  {
    var columns := TextColumns(p);
    if columns.None? then None
    else
      match env.textRow(payload, columns.value)
      case BadFrame => None
      case BadValue => Some(p.(deferred := true))
      case TextRow(values) => OnValuesRow(env, p, columns.value, values)
  }

  function CountAffected<V>(p: Progress<V>, n: int): Progress<V> {
    p.(rowsAffected := if n < 0 then p.rowsAffected else if p.rowsAffected < 0 then n else p.rowsAffected + n)
  }

  function CloseCommand<V>(env: Env<V>, p: Progress<V>, tag: string, n: int): (r: Progress<V>)
    requires Coherent(p)
    ensures Onward(p, r)
  {
    if p.streaming then
      var finished := CancelIfAborted(p.told, FinishStreamSet(env, p));
      CancelIfAborted(finished.told, Call(env, finished, OnCommandComplete(tag, n)))
    else FlushCurrent(p).(rowMetadata := None)
  }

  function OnCommandDone<V>(env: Env<V>, p: Progress<V>, payload: seq<byte>): (r: Progress<V>)
    requires Coherent(p)
    ensures Onward(p, r)
  {
    var n := env.affected(env.tag(payload));
    CloseCommand(env, CountAffected(p, n), env.tag(payload), n)
  }

  function OnNoticeText<V>(env: Env<V>, p: Progress<V>, text: string): (r: Progress<V>)
    requires Coherent(p)
    ensures Onward(p, r)
  {
    if text == "" then p
    else
      var called := if p.streaming then CancelIfAborted(p.told, Call(env, p, OnNotice(text))) else p;
      called.(notices := called.notices + [text])
  }

  function OnRowDescription<V>(env: Env<V>, p: Progress<V>, columns: seq<Column>): (r: Progress<V>)
    requires Coherent(p)
    ensures Onward(p, r)
  {
    if p.streaming then
      var finished := CancelIfAborted(p.told, FinishStreamSet(env, p));
      EnsureStreamSet(finished, columns, None).(cached := Some(columns), nullability := None)
    else
      FlushCurrent(p).(cached := Some(columns), nullability := None,
                       rowColumns := Some(columns), rowMetadata := Some(columns),
                       current := Some(ResultSet(columns, [], None)))
  }

  function OnBinaryDescription<V>(env: Env<V>, p: Progress<V>, d: Descriptor): (r: Progress<V>)
    requires Coherent(p)
    ensures Onward(p, r)
  {
    var nullability := Some(d.nullAllowed);
    var bare := p.current.None? && p.cached.None?;
    var q := p.(descriptor := Some(d), nullability := nullability,
                cached := if bare then Some(env.describe(d)) else p.cached,
                rowMetadata := if bare && !p.streaming then Some(env.describe(d)) else p.rowMetadata,
                current := if p.current.Some? then Some(p.current.value.(nullability := nullability)) else None);
    if !p.streaming then q
    else
      var begun := EnsureStreamSet(q, q.cached.GetOr(env.describe(d)), nullability);
      var index := begun.currentIndex.value;
      var open := begun.streamSets[index].(nullability := nullability);
      var renewed := begun.(streamSets := begun.streamSets[index := open]);
      CancelIfAborted(renewed.told, EmitColumns(env, renewed, index))
  }

  function Oids(columns: Option<seq<Column>>): Option<seq<int>> {
    match columns
    case None => None
    case Some(c) => Some(seq(|c|, i requires 0 <= i < |c| => c[i].oid))
  }

  /** A length-prefixed message, when its payload parses; `parsed` is what `DbosTupleDesc::parse` makes of a binary
      description. `None` is a protocol fault. */
  function OnTagged<V>(env: Env<V>, p: Progress<V>, kind: byte, payload: seq<byte>, parsed: Option<Descriptor>)
    : (r: Option<Progress<V>>)
    requires Coherent(p)
    ensures r.Some? ==> Onward(p, r.value)
  {
    if kind == COMMAND_COMPLETE then Some(OnCommandDone(env, p, payload))
    else if kind == ERROR_RESPONSE then
      Some(p.(error := if p.error.None? then Some(Database(env.message(payload))) else p.error))
    else if kind == NOTICE_RESPONSE then Some(OnNoticeText(env, p, env.message(payload)))
    else if kind == ROW_DESCRIPTION then
      (match env.rowDescription(payload)
       case None => None
       case Some(columns) => Some(OnRowDescription(env, p, columns)))
    else if kind == DATA_ROW then OnDataRow(env, p, payload)
    else if kind == ROW_DESCRIPTION_STANDARD then
      (match parsed
       case None => None
       case Some(d) => Some(OnBinaryDescription(env, p, d)))
    else Some(p)
  }

  /** A binary row, given what the eager reader makes of it. */
  function OnBinaryRow<V>(env: Env<V>, p: Progress<V>, parse: RowParse<V>): (r: Option<Progress<V>>)
    requires Coherent(p) && p.descriptor.Some?
    ensures r.Some? ==> Onward(p, r.value) && r.value.descriptor == p.descriptor
  {
    match parse
    case BadLayout => None
    case BadField => Some(p.(deferred := true))
    case Values(values) => OnValuesRow(env, p, BinaryColumns(env, p), values)
  }

  // -- The response as a whole -------------------------------------------------------------

  /** One message other than ReadyForQuery. `None` is a protocol fault. */
  ghost function Step<V>(env: Env<V>, p: Progress<V>, m: Message): (r: Option<Progress<V>>)
    requires Coherent(p) && !m.Ready?
    ensures r.Some? ==> Onward(p, r.value)
  {
    match m
    case Row(payload) =>
      if p.descriptor.None? then None
      else OnBinaryRow(env, p, EagerRow(env.codec, p.descriptor.value, payload))
    case Control(_) => Some(p)
    case Tagged(kind, payload) => OnTagged(env, p, kind, payload, Described(payload, Oids(p.cached)))
    case Ready => Some(p)
  }

  /** How a response ends: at ReadyForQuery, with the bytes behind it; by a protocol fault; at a message that is not
      part of this model; or not at all, the stream ending first. */
  datatype Ending<V> = Complete(progress: Progress<V>, rest: seq<byte>) | Faulty | Foreign | Cut

  /** The response in `b`, as a function of the bytes alone. */
  ghost function Response<V>(env: Env<V>, p: Progress<V>, b: seq<byte>): (e: Ending<V>)
    requires Coherent(p)
    ensures e.Complete? ==> Coherent(e.progress) && FinishSet(env, e.progress) == e.progress
    ensures e.Complete? ==> e.progress.streaming == p.streaming
    decreases |b|
  {
    var h := SkipNuls(b);
    if |h| >= 5 && h[0] == ROW_STANDARD && p.descriptor.None? then Faulty
    else
      match NextFrame(b)
      case NeedMore => Cut
      case Refused => Faulty
      case Unmodelled => Foreign
      case Frame(m, rest) =>
        if m.Ready? then Complete(FinishSet(env, p), rest)
        else
          match Step(env, p, m)
          case None => Faulty
          case Some(q) => Response(env, q, rest)
  }

  /** The response loop leaves exactly what framing alone says is left. */
  lemma {:induction false} ResponseEndsAtReady<V>(env: Env<V>, p: Progress<V>, b: seq<byte>)
    requires Coherent(p) && Response(env, p, b).Complete?
    ensures AfterResponse(b) == Some(Response(env, p, b).rest)
    decreases |b|
  {
    var f := NextFrame(b);
    if !f.message.Ready? {
      ResponseEndsAtReady(env, Step(env, p, f.message).value, f.rest);
    }
  }
}

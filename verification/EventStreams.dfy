/** The event stream of the native async driver (src/native_async.rs) as a step system: the driver task produces events
    and pooled row batches from the messages of a response, under a byte budget, a batch slot and a bounded channel;
    the stream handle consumes them. Every interleaving of the two, with a cancel, a close or a dropped handle at any
    point, is a run. */
module EventStreams {
  import opened Bytes

  const STREAM_BYTES: nat := 8 * 1024 * 1024
  const STREAM_BATCH_ROWS: nat := 256
  const STREAM_BATCH_BYTES: nat := 1024 * 1024
  const STREAM_EVENT_CHANNEL_BATCHES: nat := 6
  const STREAM_BATCH_POOL_SIZE: nat := 1

  /** `retained` is what the row or the column metadata is charged for (`retained_bytes`). */
  datatype Row = Row(id: nat, retained: nat)
  datatype Columns = Columns(id: nat, retained: nat)

  datatype Event =
    | ResultSetStart(index: nat, columns: Columns, nullability: Option<seq<bool>>)
    | RowEvent(row: Row)
    | ResultSetEnd(index: nat, rowCount: nat)
    | CommandComplete(tag: string)
    | Notice(text: string)

  /** `clamp(1, STREAM_BYTES)`. */
  function Charge(n: nat): (c: nat)
    ensures 1 <= c <= STREAM_BYTES
  {
    if n < 1 then 1 else if n > STREAM_BYTES then STREAM_BYTES else n
  }

  /** The permits `EventSender::send` takes for an event. */
  function EventCharge(e: Event): nat {
    match e
    case ResultSetStart(_, columns, _) => Charge(columns.retained)
    case RowEvent(row) => Charge(row.retained)
    case Notice(text) => Charge(|text| + 64)
    case _ => 64
  }

  // -- The response, as the drain loop turns it into stream operations ---------------------

  /** `BinaryRow` and `TextRow` messages are rows; `None` is a row whose value did not decode. `BadDescription`
      is a row description that does not parse: the open set is finished before the loop ends with an error. `Fault` is
      any other message that ends the loop with an error; a response may also just end. `Quiet` messages produce
      nothing. */
  datatype WireMessage =
    | RowMessage(row: Option<Row>, described: Columns)
    | Description(columns: Columns)
    | BinaryDescription(columns: Columns, nullability: seq<bool>)
    | CommandDone(tag: string)
    | NoticeMessage(text: string)
    | Quiet
    | BadDescription
    | Fault
    | ReadyForQuery

  /** `push_row`, `flush_rows` and `send`. */
  datatype Op = Push(row: Row) | Flush | Emit(event: Event)

  datatype OpenSet = OpenSet(columns: Columns, nullability: Option<seq<bool>>)

  /** `set_index`, `row_count`, `started`, `current` and `cached_columns` of `drain_response_inner`. */
  datatype Drain = Drain(index: nat, rows: nat, started: bool, current: Option<OpenSet>, cached: Option<Columns>)

  const DRAIN_START := Drain(0, 0, false, None, None)

  predicate DrainOk(d: Drain) {
    d.started ==> d.current.Some?
  }

  /** `emit_result_start`. */
  function ResultStart(d: Drain): (seq<Op>, Drain)
    requires d.current.Some?
  {
    if d.started then ([], d)
    else ([Emit(ResultSetStart(d.index, d.current.value.columns, d.current.value.nullability))], d.(started := true))
  }

  /** `finish_response_set`. */
  function FinishSet(d: Drain): (seq<Op>, Drain) {
    if d.current.None? then ([Flush], d)
    else
      ([Flush] + ResultStart(d).0 + [Emit(ResultSetEnd(d.index, d.rows))],
       d.(index := d.index + 1, rows := 0, started := false, current := None))
  }

  /** The operations of one message, and the loop's variables behind it. */
  function Expand(d: Drain, m: WireMessage): (r: (seq<Op>, Drain)) {
    match m
    case RowMessage(row, described) =>
      var current := d.current.GetOr(OpenSet(d.cached.GetOr(described), None));
      var counted := d.(current := Some(current), rows := d.rows + 1);
      if row.None? then ([], counted)
      else (ResultStart(counted).0 + [Push(row.value)], ResultStart(counted).1)
    case Description(columns) =>
      (FinishSet(d).0, FinishSet(d).1.(current := Some(OpenSet(columns, None)), cached := Some(columns)))
    case BinaryDescription(columns, nullability) =>
      var current := d.current.GetOr(OpenSet(d.cached.GetOr(columns), None));
      ([], d.(current := Some(current.(nullability := Some(nullability)))))
    case CommandDone(tag) =>
      var start := if d.current.Some? then ResultStart(d) else ([], d);
      (start.0 + [Flush, Emit(CommandComplete(tag))] + FinishSet(start.1).0, FinishSet(start.1).1)
    case NoticeMessage(text) => (if text == "" then [] else [Flush, Emit(Notice(text))], d)
    case Quiet => ([], d)
    case BadDescription => FinishSet(d)
    case Fault => ([], d)
    case ReadyForQuery => FinishSet(d)
  }

  predicate Fails(m: WireMessage) {
    m.Fault? || m.BadDescription?
  }

  predicate Last(m: WireMessage) {
    Fails(m) || m.ReadyForQuery?
  }

  /** The messages the loop still reads behind the first one. */
  function Behind(wire: seq<WireMessage>): (w: seq<WireMessage>)
    requires wire != []
    ensures |w| < |wire|
  {
    if Last(wire[0]) then [] else wire[1..]
  }

  /** The response is read to its ReadyForQuery. */
  predicate Whole(wire: seq<WireMessage>) {
    wire != [] && (wire[0].ReadyForQuery? || (!Fails(wire[0]) && Whole(wire[1..])))
  }

  function OpEvent(op: Op): seq<Event> {
    match op
    case Push(row) => [RowEvent(row)]
    case Emit(event) => [event]
    case Flush => []
  }

  function OpEvents(ops: seq<Op>): seq<Event> {
    if ops == [] then [] else OpEvent(ops[0]) + OpEvents(ops[1..])
  }

  /** All the events of a response, in wire order. */
  function Events(d: Drain, wire: seq<WireMessage>): seq<Event>
    decreases |wire|
  {
    if wire == [] then [] else OpEvents(Expand(d, wire[0]).0) + Events(Expand(d, wire[0]).1, Behind(wire))
  }

  // -- What the events say about the response --------------------------------------------------

  function RowsIn(events: seq<Event>): seq<Row> {
    if events == [] then []
    else (if events[0].RowEvent? then [events[0].row] else []) + RowsIn(events[1..])
  }

  /** The rows of a response that decoded. */
  function WireRows(wire: seq<WireMessage>): seq<Row>
    decreases |wire|
  {
    if wire == [] then []
    else (if wire[0].RowMessage? && wire[0].row.Some? then [wire[0].row.value] else []) + WireRows(Behind(wire))
  }

  /** A reader of the events: whether a result set is open, its index, and its rows so far. */
  datatype Reader = Reader(inSet: bool, index: nat, rows: nat)

  function ReadEvent(r: Reader, e: Event): Option<Reader> {
    match e
    case ResultSetStart(i, _, _) => if !r.inSet && i == r.index then Some(Reader(true, i, 0)) else None
    case RowEvent(_) => if r.inSet then Some(r.(rows := r.rows + 1)) else None
    case ResultSetEnd(i, n) => if r.inSet && i == r.index && r.rows <= n then Some(Reader(false, i + 1, 0)) else None
    case _ => Some(r)
  }

  /** Result sets are numbered from 0, do not overlap, and hold all rows; the count at the end of a set is at least
      the number of rows it delivered. `None` is an event out of place. */
  function Reads(r: Option<Reader>, events: seq<Event>): Option<Reader>
    decreases |events|
  {
    if r.None? || events == [] then r else Reads(ReadEvent(r.value, events[0]), events[1..])
  }

  lemma {:induction false} ReadsConcat(r: Option<Reader>, a: seq<Event>, b: seq<Event>)
    ensures Reads(r, a + b) == Reads(Reads(r, a), b)
    decreases |a|
  {
    if a == [] {
      assert a + b == b;
    } else {
      FirstOfConcat(a, b);
      ReadsConcat(if r.None? then r else ReadEvent(r.value, a[0]), a[1..], b);
    }
  }

  lemma {:induction false} RowsConcat(a: seq<Event>, b: seq<Event>)
    ensures RowsIn(a + b) == RowsIn(a) + RowsIn(b)
  {
    if a == [] {
      assert a + b == b;
    } else {
      FirstOfConcat(a, b);
      RowsConcat(a[1..], b);
      Associative(if a[0].RowEvent? then [a[0].row] else [], RowsIn(a[1..]), RowsIn(b));
    }
  }

  lemma {:induction false} OpEventsConcat(a: seq<Op>, b: seq<Op>)
    ensures OpEvents(a + b) == OpEvents(a) + OpEvents(b)
  {
    if a == [] {
      assert a + b == b;
    } else {
      FirstOfConcat(a, b);
      OpEventsConcat(a[1..], b);
      Associative(OpEvent(a[0]), OpEvents(a[1..]), OpEvents(b));
    }
  }

  /** The reader and the loop agree on the set they are in. */
  predicate InStep(r: Option<Reader>, d: Drain) {
    && r.Some? && r.value.inSet == d.started && r.value.index == d.index
    && (d.started ==> r.value.rows <= d.rows && d.current.Some?)
  }

  lemma {:induction false} StartReads(d: Drain, r: Option<Reader>)
    requires InStep(r, d) && d.current.Some?
    ensures var e := ResultStart(d); InStep(Reads(r, OpEvents(e.0)), e.1) && RowsIn(OpEvents(e.0)) == []
  {
    if !d.started {
      var start := ResultSetStart(d.index, d.current.value.columns, d.current.value.nullability);
      assert OpEvents([Emit(start)]) == [start];
    }
  }

  lemma OneOp(op: Op)
    ensures OpEvents([op]) == OpEvent(op)
  {
    assert OpEvents([op]) == OpEvent(op) + OpEvents([]);
  }

  lemma ReadsThen(r: Option<Reader>, a: seq<Op>, b: seq<Op>)
    ensures Reads(r, OpEvents(a + b)) == Reads(Reads(r, OpEvents(a)), OpEvents(b))
    ensures RowsIn(OpEvents(a + b)) == RowsIn(OpEvents(a)) + RowsIn(OpEvents(b))
  {
    OpEventsConcat(a, b);
    ReadsConcat(r, OpEvents(a), OpEvents(b));
    RowsConcat(OpEvents(a), OpEvents(b));
  }

  lemma {:induction false} FinishReads(d: Drain, r: Option<Reader>)
    requires InStep(r, d)
    ensures var e := FinishSet(d); InStep(Reads(r, OpEvents(e.0)), e.1) && RowsIn(OpEvents(e.0)) == []
  {
    OneOp(Flush);
    if d.current.Some? {
      var start, end := ResultStart(d), Emit(ResultSetEnd(d.index, d.rows));
      StartReads(d, r);
      OneOp(end);
      ReadsThen(r, [Flush], start.0);
      ReadsThen(r, [Flush] + start.0, [end]);
    }
  }

  lemma {:induction false} CommandReads(d: Drain, tag: string, r: Option<Reader>)
    requires InStep(r, d)
    ensures var e := Expand(d, CommandDone(tag)); InStep(Reads(r, OpEvents(e.0)), e.1) && RowsIn(OpEvents(e.0)) == []
  {
    var start := if d.current.Some? then ResultStart(d) else ([], d);
    if d.current.Some? {
      StartReads(d, r);
    }
    var done := [Flush, Emit(CommandComplete(tag))];
    DoneReads(tag, Reads(r, OpEvents(start.0)));
    FinishReads(start.1, Reads(r, OpEvents(start.0)));
    ReadsThen(r, start.0, done);
    ReadsThen(r, start.0 + done, FinishSet(start.1).0);
  }

  lemma DoneReads(tag: string, r: Option<Reader>)
    ensures var done := [Flush, Emit(CommandComplete(tag))];
            Reads(r, OpEvents(done)) == r && RowsIn(OpEvents(done)) == []
  {
    OneOp(Flush);
    OneOp(Emit(CommandComplete(tag)));
    OpEventsConcat([Flush], [Emit(CommandComplete(tag))]);
    assert [Flush] + [Emit(CommandComplete(tag))] == [Flush, Emit(CommandComplete(tag))];
  }

  lemma {:induction false} RowReads(d: Drain, m: WireMessage, r: Option<Reader>)
    requires InStep(r, d) && m.RowMessage?
    ensures var e := Expand(d, m);
            && InStep(Reads(r, OpEvents(e.0)), e.1)
            && RowsIn(OpEvents(e.0)) == (if m.row.Some? then [m.row.value] else [])
  {
    if m.row.Some? {
      var open := d.current.GetOr(OpenSet(d.cached.GetOr(m.described), None));
      var counted := d.(current := Some(open), rows := d.rows + 1);
      StartReads(counted, r);
      OneOp(Push(m.row.value));
      ReadsThen(r, ResultStart(counted).0, [Push(m.row.value)]);
    }
  }

  lemma {:induction false} ExpandReads(d: Drain, m: WireMessage, r: Option<Reader>)
    requires InStep(r, d)
    ensures var e := Expand(d, m);
            && InStep(Reads(r, OpEvents(e.0)), e.1)
            && RowsIn(OpEvents(e.0)) == (if m.RowMessage? && m.row.Some? then [m.row.value] else [])
  {
    match m
    case RowMessage(_, _) => RowReads(d, m, r);
    case CommandDone(tag) => CommandReads(d, tag, r);
    case Description(_) => FinishReads(d, r);
    case ReadyForQuery => FinishReads(d, r);
    case BadDescription => FinishReads(d, r);
    case NoticeMessage(text) =>
      assert [Flush, Emit(Notice(text))][1..] == [Emit(Notice(text))];
      assert OpEvents([Emit(Notice(text))]) == [Notice(text)];
    case _ =>
  }

  /** The events of a response carry exactly its decoded rows, in order, inside properly numbered result sets, and a
      whole response leaves no set open. */
  lemma {:induction false} EventsTellTheResponse(d: Drain, wire: seq<WireMessage>, r: Option<Reader>)
    requires InStep(r, d)
    ensures RowsIn(Events(d, wire)) == WireRows(wire)
    ensures Reads(r, Events(d, wire)).Some?
    ensures Whole(wire) ==> !Reads(r, Events(d, wire)).value.inSet
    decreases |wire|
  {
    if wire != [] {
      var e := Expand(d, wire[0]);
      ExpandReads(d, wire[0], r);
      EventsTellTheResponse(e.1, Behind(wire), Reads(r, OpEvents(e.0)));
      ReadsConcat(r, OpEvents(e.0), Events(e.1, Behind(wire)));
      RowsConcat(OpEvents(e.0), Events(e.1, Behind(wire)));
    }
  }

  // -- No event over a partial batch ---------------------------------------------------------------

  /** From a partial batch or none: no event is sent over a partial batch, and a batch left at the end belongs to a
      started result set. */
  predicate Orderly(holding: bool, ops: seq<Op>, started: bool)
    decreases |ops|
  {
    if ops == [] then holding ==> started
    else
      match ops[0]
      case Emit(_) => !holding && Orderly(false, ops[1..], started)
      case Flush => Orderly(false, ops[1..], started)
      case Push(_) => Orderly(true, ops[1..], started)
  }

  lemma {:induction false} OrderlyWithout(ops: seq<Op>, started: bool)
    requires Orderly(true, ops, started)
    ensures Orderly(false, ops, started)
  {
  }

  lemma {:induction false} FinishIsOrderly(d: Drain, holding: bool, started: bool)
    requires DrainOk(d) && (holding ==> d.started)
    ensures Orderly(holding, FinishSet(d).0, started)
  {
    assert Orderly(false, [], started);
    if d.current.Some? {
      var end := Emit(ResultSetEnd(d.index, d.rows));
      assert Orderly(false, [end], started);
      assert ([Flush] + ResultStart(d).0 + [end])[1..] == ResultStart(d).0 + [end];
      assert !d.started ==> (ResultStart(d).0 + [end])[1..] == [end];
      assert Orderly(false, ResultStart(d).0 + [end], started);
    }
  }

  /** No message sends an event over the rows of a partial batch. */
  lemma {:induction false} ExpandIsOrderly(d: Drain, m: WireMessage, holding: bool)
    requires DrainOk(d) && (holding ==> d.started)
    ensures DrainOk(Expand(d, m).1) && Orderly(holding, Expand(d, m).0, Expand(d, m).1.started)
    ensures m.ReadyForQuery? ==> !Expand(d, m).1.started
  {
    var after := Expand(d, m).1.started;
    match m
    case RowMessage(_, _) =>
      assert forall row :: Orderly(holding, [Push(row)], true);
      assert forall e, row :: ([Emit(e)] + [Push(row)])[1..] == [Push(row)];
    case Description(_) => FinishIsOrderly(d, holding, after);
    case CommandDone(tag) => CommandIsOrderly(d, tag, holding);
    case NoticeMessage(text) =>
      assert [Flush, Emit(Notice(text))][1..] == [Emit(Notice(text))];
    case ReadyForQuery => FinishIsOrderly(d, holding, after);
    case BadDescription => FinishIsOrderly(d, holding, after);
    case _ =>
  }

  lemma {:induction false} CommandIsOrderly(d: Drain, tag: string, holding: bool)
    requires DrainOk(d) && (holding ==> d.started)
    ensures Orderly(holding, Expand(d, CommandDone(tag)).0, Expand(d, CommandDone(tag)).1.started)
  {
    var after := Expand(d, CommandDone(tag)).1.started;
    var start := if d.current.Some? then ResultStart(d) else ([], d);
    var tail := FinishSet(start.1).0;
    var done := [Flush, Emit(CommandComplete(tag))];
    FinishIsOrderly(start.1, false, after);
    assert (done + tail)[1..] == [Emit(CommandComplete(tag))] + tail;
    assert ([Emit(CommandComplete(tag))] + tail)[1..] == tail;
    assert forall h: bool :: Orderly(h, done + tail, after);
    assert start.0 + done + tail == start.0 + (done + tail);
    assert start.0 != [] ==> (start.0 + (done + tail))[1..] == done + tail;
  }

  // -- The pipe -----------------------------------------------------------------------------

  /** `PooledRowBatch`: the rows not yet taken, the bytes pushed, and the permits it holds. */
  datatype Batch = Batch(rows: seq<Row>, bytes: nat, staging: nat, rowPermit: nat)

  /** `QueuedStreamItem`. */
  datatype Item = EventItem(event: Event, permit: nat) | RowsItem(batch: Batch)

  /** Where the driver task is suspended: at no await; in `StreamBatchPool::acquire`, before and behind its slot
      permit; at the staging permit; in `flush_rows`, at its permit and at the channel, with the row to push next; in
      `send`, at its permit and at the channel; or at the end. */
  datatype Phase =
    | Next
    | Slot(row: Row)
    | Buffer(row: Row)
    | Staging(row: Row, batch: Batch)
    | RowBudget(batch: Batch, after: Option<Row>)
    | RowSpace(batch: Batch, after: Option<Row>)
    | EventBudget(event: Event)
    | EventSpace(event: Event, permit: nat)
    | Over

  datatype Shared = Shared(budget: nat, slots: nat, free: nat, queue: seq<Item>)

  /** What the driver task has still to do: operations of the current message, and the messages behind it. */
  datatype Program = Program(ops: seq<Op>, drain: Drain, wire: seq<WireMessage>)

  datatype Producer = Producer(program: Program, phase: Phase, held: Option<Batch>)

  /** `releasing` are the permits of a batch whose buffer is already back in the pool. */
  datatype Consumer = Consumer(pending: Option<Batch>, releasing: Option<nat>, delivered: seq<Event>)

  /** `stopped` is the interruption of the operation, `closed` the dropped receiver, `lost` that the producer gave
      something up. */
  datatype State = State(
    shared: Shared, producer: Producer, consumer: Consumer, stopped: bool, closed: bool, lost: bool)

  function Start(wire: seq<WireMessage>): State {
    State(Shared(STREAM_BYTES, STREAM_BATCH_POOL_SIZE, STREAM_BATCH_POOL_SIZE, []),
          Producer(Program([], DRAIN_START, wire), Next, None), Consumer(None, None, []), false, false, false)
  }

  function RowBytes(row: Row): (n: nat)
    ensures 1 <= n <= STREAM_BYTES
  {
    Charge(row.retained)
  }

  function Held(b: Batch): nat {
    b.staging + b.rowPermit
  }

  /** Dropping a batch: its buffer goes back to the pool, then its permits and its slot. */
  function DropBatch(sh: Shared, b: Batch): Shared {
    sh.(budget := sh.budget + Held(b), slots := sh.slots + 1, free := sh.free + 1)
  }

  /** The operation failed and its result is ignored. */
  function Lose(s: State, sh: Shared): State {
    s.(shared := sh, producer := s.producer.(phase := Next), lost := true)
  }

  function In(s: State, sh: Shared, phase: Phase): State {
    s.(shared := sh, producer := s.producer.(phase := phase))
  }

  function Grown(b: Batch, row: Row): Batch {
    b.(rows := b.rows + [row], bytes := b.bytes + RowBytes(row))
  }

  /** The end of `push_row`: a batch that got full is flushed. */
  function Place(p: Producer, row: Row, b: Batch): Producer {
    var grown := Grown(b, row);
    if |grown.rows| >= STREAM_BATCH_ROWS || grown.bytes >= STREAM_BATCH_BYTES then
      p.(phase := RowBudget(grown, None), held := None)
    else
      p.(phase := Next, held := Some(grown))
  }

  /** The start of an operation. */
  function BeginOp(p: Producer, op: Op): Producer {
    match op
    case Emit(event) => p.(phase := EventBudget(event))
    case Flush => if p.held.None? then p else p.(phase := RowBudget(p.held.value, None), held := None)
    case Push(row) =>
      if p.held.None? then p.(phase := Slot(row))
      else
        var b := p.held.value;
        if |b.rows| >= STREAM_BATCH_ROWS || b.bytes + RowBytes(row) > STREAM_BATCH_BYTES then
          p.(phase := RowBudget(b, Some(row)), held := None)
        else Place(p, row, b)
  }

  /** The operations of the next message. */
  function ReadMessage(g: Program): Program
    requires g.wire != []
  {
    Program(Expand(g.drain, g.wire[0]).0, Expand(g.drain, g.wire[0]).1, Behind(g.wire))
  }

  /** The end of the response: a batch that is still held is dropped. */
  function Finish(s: State): State {
    var held := s.producer.held;
    s.(producer := s.producer.(phase := Over, held := None), lost := s.lost || held.Some?,
       shared := if held.Some? then DropBatch(s.shared, held.value) else s.shared)
  }

  /** Between two awaits: the next operation, the next message, or the end of the response. */
  function Advance(s: State): State {
    var p := s.producer;
    if p.program.ops != [] then
      s.(producer := BeginOp(p.(program := p.program.(ops := p.program.ops[1..])), p.program.ops[0]))
    else if p.program.wire != [] then s.(producer := p.(program := ReadMessage(p.program)))
    else Finish(s)
  }

  /** The driver task is at an await. */
  predicate AtAwait(s: State) {
    !s.producer.phase.Next? && !s.producer.phase.Over?
  }

  /** One step of the driver task at an await; `None` when it has to wait. An interruption is looked at first. The
      buffer behind a slot permit is taken with `expect`. */
  function Await(s: State): Option<State>
    requires AtAwait(s)
    requires s.producer.phase.Buffer? ==> s.shared.free > 0
  {
    var p, sh := s.producer, s.shared;
    match p.phase
    case Slot(row) =>
      if s.stopped then Some(Lose(s, sh))
      else if sh.slots == 0 then None
      else Some(In(s, sh.(slots := sh.slots - 1), Buffer(row)))
    case Buffer(row) =>
      var b := Batch([], 0, 0, 0);
      Some(s.(shared := sh.(free := sh.free - 1),
              producer := if RowBytes(row) <= STREAM_BATCH_BYTES then p.(phase := Staging(row, b))
                          else Place(p, row, b)))
    case Staging(row, b) =>
      if s.stopped then Some(Lose(s, DropBatch(sh, b)))
      else if sh.budget < STREAM_BATCH_BYTES then None
      else Some(s.(shared := sh.(budget := sh.budget - STREAM_BATCH_BYTES),
                   producer := Place(p, row, b.(staging := STREAM_BATCH_BYTES))))
    case RowBudget(b, after) =>
      if s.stopped then Some(Lose(s, DropBatch(sh, b)))
      else if sh.budget < Charge(b.bytes) then None
      else Some(In(s, sh.(budget := sh.budget - Charge(b.bytes) + b.staging),
                   RowSpace(b.(staging := 0, rowPermit := Charge(b.bytes)), after)))
    case RowSpace(b, after) =>
      if s.stopped || s.closed then Some(Lose(s, DropBatch(sh, b)))
      else if |sh.queue| >= STREAM_EVENT_CHANNEL_BATCHES then None
      else Some(In(s, sh.(queue := sh.queue + [RowsItem(b)]), if after.Some? then Slot(after.value) else Next))
    case EventBudget(event) =>
      if s.stopped then Some(Lose(s, sh))
      else if sh.budget < EventCharge(event) then None
      else Some(In(s, sh.(budget := sh.budget - EventCharge(event)), EventSpace(event, EventCharge(event))))
    case EventSpace(event, permit) =>
      if s.stopped || s.closed then Some(Lose(s, sh.(budget := sh.budget + permit)))
      else if |sh.queue| >= STREAM_EVENT_CHANNEL_BATCHES then None
      else Some(In(s, sh.(queue := sh.queue + [EventItem(event, permit)]), Next))
  }

  /** The last row of a batch is out: the buffer goes back first. */
  function Exhaust(s: State, b: Batch, delivered: seq<Event>): State {
    s.(shared := s.shared.(free := s.shared.free + 1), consumer := Consumer(None, Some(Held(b)), delivered))
  }

  function Release(s: State): State
    requires s.consumer.releasing.Some?
  {
    s.(shared := s.shared.(budget := s.shared.budget + s.consumer.releasing.value, slots := s.shared.slots + 1),
       consumer := s.consumer.(releasing := None))
  }

  /** `pop_row`. */
  function PopRow(s: State, b: Batch): State {
    var c := s.consumer;
    if b.rows == [] then Exhaust(s, b, c.delivered)
    else if |b.rows| == 1 then Exhaust(s, b, c.delivered + [RowEvent(b.rows[0])])
    else s.(consumer := c.(pending := Some(b.(rows := b.rows[1..])), delivered := c.delivered + [RowEvent(b.rows[0])]))
  }

  function Receive(s: State): State
    requires s.shared.queue != []
  {
    var sh, c := s.shared, s.consumer;
    match sh.queue[0]
    case EventItem(event, permit) =>
      s.(shared := sh.(queue := sh.queue[1..], budget := sh.budget + permit),
         consumer := c.(delivered := c.delivered + [event]))
    case RowsItem(b) => s.(shared := sh.(queue := sh.queue[1..]), consumer := c.(pending := Some(b)))
  }

  /** One step of the stream handle (`poll_event`); `None` when it has nothing to take. */
  function ConsumerStep(s: State): Option<State> {
    if s.consumer.releasing.Some? then Some(Release(s))
    else if s.consumer.pending.Some? then Some(PopRow(s, s.consumer.pending.value))
    else if s.shared.queue != [] then Some(Receive(s))
    else None
  }

  /** A cancel or a close. */
  function Stop(s: State): State {
    s.(stopped := true)
  }

  /** The handle is dropped, and with it everything queued and pending. */
  function Close(s: State): State {
    var sh, c := s.shared, s.consumer;
    var batches := QueueBatches(sh.queue) + Count(c.pending);
    s.(closed := true,
       shared := Shared(sh.budget + QueuePermits(sh.queue) + PendingPermits(c) + c.releasing.GetOr(0),
                        sh.slots + batches + Count(c.releasing), sh.free + batches, []),
       consumer := Consumer(None, None, c.delivered))
  }

  function Count<T>(o: Option<T>): nat {
    if o.Some? then 1 else 0
  }

  function QueuePermits(queue: seq<Item>): nat {
    if queue == [] then 0 else ItemPermits(queue[0]) + QueuePermits(queue[1..])
  }

  function QueueBatches(queue: seq<Item>): nat {
    if queue == [] then 0 else (if queue[0].RowsItem? then 1 else 0) + QueueBatches(queue[1..])
  }

  function PendingPermits(c: Consumer): nat {
    if c.pending.Some? then Held(c.pending.value) else 0
  }

  function RowEvents(rows: seq<Row>): seq<Event> {
    seq(|rows|, i requires 0 <= i < |rows| => RowEvent(rows[i]))
  }

  function QueueEvents(queue: seq<Item>): seq<Event> {
    if queue == [] then [] else ItemEvents(queue[0]) + QueueEvents(queue[1..])
  }

  // -- The shape of batches -----------------------------------------

  function TotalBytes(rows: seq<Row>): nat {
    if rows == [] then 0 else TotalBytes(rows[..|rows| - 1]) + RowBytes(rows[|rows| - 1])
  }

  /** At most 256 rows, and at most 1 MiB unless it is a single row. */
  predicate Bounded(b: Batch) {
    && 1 <= |b.rows| <= STREAM_BATCH_ROWS
    && b.bytes == TotalBytes(b.rows)
    && (b.bytes <= STREAM_BATCH_BYTES || |b.rows| == 1)
  }

  /** A batch that is still filled: it holds its staging permit, unless it is about to be flushed for its one large
      row. */
  predicate Filling(b: Batch) {
    Bounded(b) && b.rowPermit == 0 && b.staging == (if b.bytes <= STREAM_BATCH_BYTES then STREAM_BATCH_BYTES else 0)
  }

  predicate Queued(b: Batch) {
    Bounded(b) && b.staging == 0 && b.rowPermit == Charge(b.bytes)
  }

  predicate PhaseShaped(phase: Phase) {
    match phase
    case Staging(row, b) => b == Batch([], 0, 0, 0) && RowBytes(row) <= STREAM_BATCH_BYTES
    case RowBudget(b, _) => Filling(b)
    case RowSpace(b, _) => Queued(b)
    case _ => true
  }

  predicate HeldShaped(p: Producer) {
    && PhaseShaped(p.phase)
    && (p.held.Some? ==> p.phase.Next? && Filling(p.held.value) && p.held.value.bytes < STREAM_BATCH_BYTES)
  }

  predicate QueueShaped(queue: seq<Item>) {
    forall i :: 0 <= i < |queue| && queue[i].RowsItem? ==> Queued(queue[i].batch)
  }

  predicate Shaped(s: State) {
    && HeldShaped(s.producer)
    && QueueShaped(s.shared.queue)
    && (s.consumer.pending.Some? ==> 1 <= |s.consumer.pending.value.rows| <= STREAM_BATCH_ROWS)
  }

  // -- Conservation -----------------------------------------------------------------------------

  function ProducerPermits(p: Producer): nat {
    (if p.held.Some? then Held(p.held.value) else 0)
    + match p.phase
      case Staging(_, b) => Held(b)
      case RowBudget(b, _) => Held(b)
      case RowSpace(b, _) => Held(b)
      case EventSpace(_, n) => n
      case _ => 0
  }

  /** Batches the producer has a buffer for. */
  function ProducerBatches(p: Producer): nat {
    Count(p.held) + if p.phase.Staging? || p.phase.RowBudget? || p.phase.RowSpace? then 1 else 0
  }

  /** No permit, slot or buffer is ever lost or made up. */
  predicate Conserved(s: State) {
    var sh, p, c := s.shared, s.producer, s.consumer;
    var batches := ProducerBatches(p) + QueueBatches(sh.queue) + Count(c.pending);
    && sh.budget + ProducerPermits(p) + QueuePermits(sh.queue) + PendingPermits(c) + c.releasing.GetOr(0)
       == STREAM_BYTES
    && sh.slots + batches + (if p.phase.Buffer? then 1 else 0) + Count(c.releasing) == STREAM_BATCH_POOL_SIZE
    && sh.free + batches == STREAM_BATCH_POOL_SIZE
    && |sh.queue| <= STREAM_EVENT_CHANNEL_BATCHES
  }

  /** The free buffers never fall below the available slots, and behind a slot permit there is a buffer. */
  lemma BuffersCoverSlots(s: State)
    requires Conserved(s)
    ensures s.shared.free >= s.shared.slots
    ensures s.producer.phase.Buffer? ==> s.shared.free > 0
  {
  }

  function ItemPermits(item: Item): nat {
    match item
    case EventItem(_, n) => n
    case RowsItem(b) => Held(b)
  }

  function ItemEvents(item: Item): seq<Event> {
    match item
    case EventItem(e, _) => [e]
    case RowsItem(b) => RowEvents(b.rows)
  }

  lemma {:induction false} QueueAppend(queue: seq<Item>, item: Item)
    ensures QueuePermits(queue + [item]) == QueuePermits(queue) + ItemPermits(item)
    ensures QueueBatches(queue + [item]) == QueueBatches(queue) + (if item.RowsItem? then 1 else 0)
  {
    if queue == [] {
      assert queue + [item] == [item];
    } else {
      FirstOfConcat(queue, [item]);
      QueueAppend(queue[1..], item);
    }
  }

  lemma {:induction false} QueueEventsAppend(queue: seq<Item>, item: Item)
    ensures QueueEvents(queue + [item]) == QueueEvents(queue) + ItemEvents(item)
  {
    if queue == [] {
      assert queue + [item] == [item];
      assert QueueEvents([item]) == ItemEvents(item) + QueueEvents([]);
    } else {
      FirstOfConcat(queue, [item]);
      QueueEventsAppend(queue[1..], item);
      Associative(ItemEvents(queue[0]), QueueEvents(queue[1..]), ItemEvents(item));
    }
  }

  /** What `Conserved` asks of the producer. */
  function Footprint(p: Producer): (nat, nat, nat) {
    (ProducerPermits(p), ProducerBatches(p), if p.phase.Buffer? then 1 else 0)
  }

  lemma PlaceFootprint(p: Producer, row: Row, b: Batch)
    ensures Footprint(Place(p, row, b)) == (Held(b), 1, 0)
  {
  }

  lemma BeginFootprint(p: Producer, op: Op)
    requires p.phase.Next?
    ensures Footprint(BeginOp(p, op)) == Footprint(p)
  {
    if op.Push? && p.held.Some? {
      PlaceFootprint(p, op.row, p.held.value);
    }
  }

  lemma AdvanceConserves(s: State)
    requires Conserved(s) && s.producer.phase.Next?
    ensures Conserved(Advance(s))
  {
    var p := s.producer;
    if p.program.ops != [] {
      BeginFootprint(p.(program := p.program.(ops := p.program.ops[1..])), p.program.ops[0]);
    }
  }

  lemma SlotConserves(s: State)
    requires Conserved(s) && s.producer.held.None? && s.producer.phase.Slot?
    ensures Await(s).Some? ==> Conserved(Await(s).value)
  {
  }

  lemma BufferConserves(s: State)
    requires Conserved(s) && s.producer.held.None? && s.producer.phase.Buffer?
    ensures Await(s).Some? ==> Conserved(Await(s).value)
  {
    PlaceFootprint(s.producer, s.producer.phase.row, Batch([], 0, 0, 0));
  }

  lemma StagingConserves(s: State)
    requires Conserved(s) && s.producer.held.None? && s.producer.phase.Staging? && s.producer.phase.batch.staging == 0
    ensures Await(s).Some? ==> Conserved(Await(s).value)
  {
    var b := s.producer.phase.batch;
    PlaceFootprint(s.producer, s.producer.phase.row, b.(staging := STREAM_BATCH_BYTES));
  }

  lemma BudgetConserves(s: State)
    requires Conserved(s) && s.producer.held.None?
    requires (s.producer.phase.RowBudget? && s.producer.phase.batch.rowPermit == 0) || s.producer.phase.EventBudget?
    ensures Await(s).Some? ==> Conserved(Await(s).value)
  {
  }

  lemma SpaceConserves(s: State)
    requires Conserved(s) && s.producer.held.None? && (s.producer.phase.RowSpace? || s.producer.phase.EventSpace?)
    ensures Await(s).Some? ==> Conserved(Await(s).value)
  {
    match s.producer.phase
    case RowSpace(b, _) => QueueAppend(s.shared.queue, RowsItem(b));
    case EventSpace(event, n) => QueueAppend(s.shared.queue, EventItem(event, n));
  }

  lemma AwaitConserves(s: State)
    requires Conserved(s) && AtAwait(s) && HeldShaped(s.producer)
    ensures Await(s).Some? ==> Conserved(Await(s).value)
  {
    hide Conserved, Await;
    match s.producer.phase
    case Slot(_) => SlotConserves(s);
    case Buffer(_) => BufferConserves(s);
    case Staging(_, _) => StagingConserves(s);
    case RowBudget(_, _) => BudgetConserves(s);
    case EventBudget(_) => BudgetConserves(s);
    case RowSpace(_, _) => SpaceConserves(s);
    case EventSpace(_, _) => SpaceConserves(s);
  }

  lemma PopConserves(s: State)
    requires Conserved(s) && s.consumer.pending.Some? && s.consumer.releasing.None?
    ensures Conserved(PopRow(s, s.consumer.pending.value))
  {
  }

  lemma ReceiveConserves(s: State)
    requires Conserved(s) && s.consumer.pending.None? && s.shared.queue != []
    ensures Conserved(Receive(s))
  {
  }

  lemma ConsumerConserves(s: State)
    requires Conserved(s)
    ensures ConsumerStep(s).Some? ==> Conserved(ConsumerStep(s).value)
  {
    if s.consumer.releasing.None? {
      if s.consumer.pending.Some? {
        PopConserves(s);
      } else if s.shared.queue != [] {
        ReceiveConserves(s);
      }
    }
  }

  lemma CloseConserves(s: State)
    requires Conserved(s)
    ensures Conserved(Stop(s)) && Conserved(Close(s))
  {
  }

  // -- The order of operations ----------------------------------------------------------------

  /** Whether the current operation may leave a partial batch. */
  predicate Holding(p: Producer) {
    match p.phase
    case Next => p.held.Some?
    case Slot(_) => true
    case Buffer(_) => true
    case Staging(_, _) => true
    case RowBudget(_, after) => after.Some?
    case RowSpace(_, after) => after.Some?
    case _ => false
  }

  predicate Ordered(p: Producer) {
    && DrainOk(p.program.drain)
    && Orderly(Holding(p), p.program.ops, p.program.drain.started)
    && (p.phase.Over? ==> p.program.ops == [] && p.program.wire == [])
  }

  ghost predicate Invariant(s: State) {
    Conserved(s) && Shaped(s) && Ordered(s.producer)
  }

  lemma {:induction false} GrownBytes(rows: seq<Row>, row: Row)
    ensures TotalBytes(rows + [row]) == TotalBytes(rows) + RowBytes(row)
  {
    assert (rows + [row])[..|rows|] == rows;
  }

  lemma {:induction false} PlaceShaped(p: Producer, row: Row, b: Batch)
    requires b.rowPermit == 0 && b.bytes == TotalBytes(b.rows) && |b.rows| < STREAM_BATCH_ROWS
    requires if RowBytes(row) > STREAM_BATCH_BYTES then b.rows == [] && b.staging == 0
             else b.staging == STREAM_BATCH_BYTES && b.bytes + RowBytes(row) <= STREAM_BATCH_BYTES
    ensures HeldShaped(Place(p, row, b))
  {
    GrownBytes(b.rows, row);
  }

  lemma {:induction false} BeginShaped(p: Producer, op: Op)
    requires HeldShaped(p) && p.phase.Next?
    requires op.Emit? ==> p.held.None?
    ensures HeldShaped(BeginOp(p, op))
  {
    if op.Push? && p.held.Some? {
      var b := p.held.value;
      if |b.rows| < STREAM_BATCH_ROWS && b.bytes + RowBytes(op.row) <= STREAM_BATCH_BYTES {
        PlaceShaped(p, op.row, b);
      }
    }
  }

  lemma {:induction false} AdvanceShaped(s: State)
    requires Invariant(s) && s.producer.phase.Next?
    ensures Shaped(Advance(s))
  {
    var p := s.producer;
    if p.program.ops != [] {
      BeginShaped(p.(program := p.program.(ops := p.program.ops[1..])), p.program.ops[0]);
    }
  }

  lemma {:induction false} AwaitHeldShaped(s: State)
    requires HeldShaped(s.producer) && AtAwait(s) && (s.producer.phase.Buffer? ==> s.shared.free > 0)
    ensures Await(s).Some? ==> HeldShaped(Await(s).value.producer)
  {
    match s.producer.phase
    case Buffer(row) =>
      if RowBytes(row) > STREAM_BATCH_BYTES {
        PlaceShaped(s.producer, row, Batch([], 0, 0, 0));
      }
    case Staging(row, b) => PlaceShaped(s.producer, row, b.(staging := STREAM_BATCH_BYTES));
    case _ =>
  }

  lemma {:induction false} AwaitShaped(s: State)
    requires Shaped(s) && AtAwait(s) && (s.producer.phase.Buffer? ==> s.shared.free > 0)
    ensures Await(s).Some? ==> Shaped(Await(s).value)
  {
    AwaitHeldShaped(s);
  }

  lemma {:induction false} ConsumerShaped(s: State)
    requires Shaped(s)
    ensures ConsumerStep(s).Some? ==> Shaped(ConsumerStep(s).value)
    ensures Shaped(Stop(s)) && Shaped(Close(s))
  {
  }

  lemma {:induction false} AdvanceOrdered(s: State)
    requires Ordered(s.producer) && s.producer.phase.Next?
    ensures Ordered(Advance(s).producer)
  {
    var g := s.producer.program;
    if g.ops != [] {
      if g.ops[0].Push? {
        OrderlyWithout(g.ops[1..], g.drain.started);
      }
    } else if g.wire != [] {
      ExpandIsOrderly(g.drain, g.wire[0], s.producer.held.Some?);
    }
  }

  lemma {:induction false} AwaitOrdered(s: State)
    requires Ordered(s.producer) && HeldShaped(s.producer) && AtAwait(s)
    requires s.producer.phase.Buffer? ==> s.shared.free > 0
    ensures Await(s).Some? ==> Ordered(Await(s).value.producer)
  {
    if Holding(s.producer) {
      OrderlyWithout(s.producer.program.ops, s.producer.program.drain.started);
    }
  }

  // -- No deadlock -----------------------------------------------------------------------------------

  /** Whenever the producer waits, for the byte budget, the batch slot or the channel, the consumer has something to
      take. */
  lemma NeverStuck(s: State)
    requires Conserved(s) && AtAwait(s) && HeldShaped(s.producer)
    ensures ConsumerStep(s).None? ==> Await(s).Some?
  {
    if ConsumerStep(s).None? {
      IdleConsumer(s);
      match s.producer.phase
      case RowBudget(b, _) => assert s.shared.budget >= Charge(b.bytes);
      case _ =>
    }
  }

  /** With nothing to take, every permit is free or with the producer. */
  lemma IdleConsumer(s: State)
    requires Conserved(s) && ConsumerStep(s).None?
    ensures s.shared.queue == []
    ensures s.shared.budget + ProducerPermits(s.producer) == STREAM_BYTES
    ensures s.shared.slots + ProducerBatches(s.producer) + (if s.producer.phase.Buffer? then 1 else 0)
            == STREAM_BATCH_POOL_SIZE
  {
  }

  // -- Delivery ---------------------------------------------------------------------------------------

  function HeldRows(o: Option<Batch>): seq<Event> {
    if o.Some? then RowEvents(o.value.rows) else []
  }

  function After(o: Option<Row>): seq<Event> {
    if o.Some? then [RowEvent(o.value)] else []
  }

  function PhaseEvents(phase: Phase): seq<Event> {
    match phase
    case Slot(row) => [RowEvent(row)]
    case Buffer(row) => [RowEvent(row)]
    case Staging(row, _) => [RowEvent(row)]
    case RowBudget(b, after) => RowEvents(b.rows) + After(after)
    case RowSpace(b, after) => RowEvents(b.rows) + After(after)
    case EventBudget(event) => [event]
    case EventSpace(event, _) => [event]
    case _ => []
  }

  function Tail(g: Program): seq<Event> {
    OpEvents(g.ops) + Events(g.drain, g.wire)
  }

  /** What the producer will still send if nothing stops it. */
  function Upcoming(p: Producer): seq<Event> {
    HeldRows(p.held) + PhaseEvents(p.phase) + Tail(p.program)
  }

  /** What the consumer has got, and what is on its way. */
  function Sent(s: State): seq<Event> {
    s.consumer.delivered + HeldRows(s.consumer.pending) + QueueEvents(s.shared.queue)
  }

  /** Nothing is delivered out of order, twice, or over a gap. */
  ghost predicate Faithful(s: State, all: seq<Event>) {
    && Sent(s) <= all
    && (!s.lost && !s.closed ==> Sent(s) + Upcoming(s.producer) == all)
    && (s.lost ==> s.stopped || s.closed || s.producer.phase.Over?)
  }

  lemma PlaceUpcoming(p: Producer, row: Row, b: Batch)
    ensures Upcoming(Place(p, row, b)) == RowEvents(b.rows) + [RowEvent(row)] + Tail(p.program)
  {
    hide Tail;
    assert RowEvents(b.rows + [row]) == RowEvents(b.rows) + [RowEvent(row)];
  }

  lemma BeginUpcoming(p: Producer, op: Op)
    requires p.phase.Next? && (op.Emit? ==> p.held.None?)
    ensures Upcoming(BeginOp(p, op)) == HeldRows(p.held) + OpEvents([op]) + Tail(p.program)
  {
    hide Tail;
    OneOp(op);
    if op.Push? && p.held.Some? {
      PlaceUpcoming(p, op.row, p.held.value);
    }
  }

  lemma TailSplits(g: Program)
    ensures g.ops != [] ==> Tail(g) == OpEvents([g.ops[0]]) + Tail(g.(ops := g.ops[1..]))
    ensures g.ops == [] && g.wire != [] ==> Tail(ReadMessage(g)) == Tail(g)
  {
  }

  lemma SameTail(p: Producer, g: Program)
    requires Tail(g) == Tail(p.program)
    ensures Upcoming(p.(program := g)) == Upcoming(p)
  {
    hide Tail;
  }

  lemma OpUpcoming(p: Producer)
    requires p.phase.Next? && p.program.ops != [] && (p.program.ops[0].Emit? ==> p.held.None?)
    ensures Upcoming(BeginOp(p.(program := p.program.(ops := p.program.ops[1..])), p.program.ops[0])) == Upcoming(p)
  {
    hide Events, OpEvents;
    var g := p.program;
    TailSplits(g);
    BeginUpcoming(p.(program := g.(ops := g.ops[1..])), g.ops[0]);
  }

  lemma FinishFaithful(s: State, all: seq<Event>)
    requires s.producer.phase.Next? && s.producer.program.ops == [] && s.producer.program.wire == []
    requires Faithful(s, all)
    ensures Faithful(Finish(s), all)
  {
    assert Tail(s.producer.program) == [];
  }

  lemma AdvanceFaithful(s: State, all: seq<Event>)
    requires Ordered(s.producer) && s.producer.phase.Next? && Faithful(s, all)
    ensures Faithful(Advance(s), all)
  {
    var p := s.producer;
    if p.program.ops != [] {
      OpUpcoming(p);
    } else if p.program.wire != [] {
      TailSplits(p.program);
      SameTail(p, ReadMessage(p.program));
    } else {
      FinishFaithful(s, all);
    }
  }

  /** What a send adds for the consumer it takes from the producer. */
  lemma Moved(sent: seq<Event>, item: seq<Event>, rest: seq<Event>, all: seq<Event>)
    requires sent + (item + rest) == all
    ensures sent + item + rest == all && sent + item <= all
  {
    assert sent + (item + rest) == sent + item + rest;
  }

  lemma SentWith(s: State, item: Item, producer: Producer)
    ensures var r := s.(shared := s.shared.(queue := s.shared.queue + [item]), producer := producer);
            Sent(r) == Sent(s) + ItemEvents(item)
  {
    QueueEventsAppend(s.shared.queue, item);
    Associative(s.consumer.delivered + HeldRows(s.consumer.pending), QueueEvents(s.shared.queue), ItemEvents(item));
  }

  lemma RowsLeave(p: Producer, b: Batch, after: Option<Row>)
    requires p.phase == RowSpace(b, after) && p.held.None?
    ensures Upcoming(p) == ItemEvents(RowsItem(b)) + (After(after) + Tail(p.program))
    ensures Upcoming(p.(phase := if after.Some? then Slot(after.value) else Next)) == After(after) + Tail(p.program)
  {
    hide Tail;
  }

  lemma EventLeaves(p: Producer, event: Event, permit: nat)
    requires p.phase == EventSpace(event, permit) && p.held.None?
    ensures Upcoming(p) == ItemEvents(EventItem(event, permit)) + Tail(p.program)
    ensures Upcoming(p.(phase := Next)) == Tail(p.program)
  {
    hide Tail;
  }

  lemma SpaceFaithful(s: State, all: seq<Event>)
    requires (s.producer.phase.RowSpace? || s.producer.phase.EventSpace?) && s.producer.held.None? && Faithful(s, all)
    ensures Await(s).Some? ==> Faithful(Await(s).value, all)
  {
    hide Tail;
    var p := s.producer;
    if !s.stopped && !s.closed {
      match p.phase
      case RowSpace(b, after) =>
        RowsLeave(p, b, after);
        SentWith(s, RowsItem(b), p.(phase := if after.Some? then Slot(after.value) else Next));
        Moved(Sent(s), ItemEvents(RowsItem(b)), After(after) + Tail(p.program), all);
      case EventSpace(event, n) =>
        EventLeaves(p, event, n);
        SentWith(s, EventItem(event, n), p.(phase := Next));
        Moved(Sent(s), ItemEvents(EventItem(event, n)), Tail(p.program), all);
    }
  }

  lemma AwaitFaithful(s: State, all: seq<Event>)
    requires AtAwait(s) && HeldShaped(s.producer) && Faithful(s, all)
    requires s.producer.phase.Buffer? ==> s.shared.free > 0
    ensures Await(s).Some? ==> Faithful(Await(s).value, all)
  {
    var p := s.producer;
    match p.phase
    case Buffer(row) => PlaceUpcoming(p, row, Batch([], 0, 0, 0));
    case Staging(row, b) => PlaceUpcoming(p, row, b.(staging := STREAM_BATCH_BYTES));
    case RowSpace(_, _) => SpaceFaithful(s, all);
    case EventSpace(_, _) => SpaceFaithful(s, all);
    case _ =>
  }

  lemma PopSent(s: State, b: Batch)
    requires s.consumer.pending == Some(b)
    ensures Sent(PopRow(s, b)) == Sent(s)
  {
    var delivered := s.consumer.delivered;
    if b.rows != [] {
      var row := [RowEvent(b.rows[0])];
      assert RowEvents(b.rows) == row + RowEvents(b.rows[1..]);
      assert delivered + row + RowEvents(b.rows[1..]) == delivered + RowEvents(b.rows);
      assert |b.rows| == 1 ==> delivered + row == delivered + RowEvents(b.rows);
    } else {
      assert delivered == delivered + RowEvents(b.rows);
    }
  }

  lemma ReceiveSent(s: State)
    requires s.shared.queue != [] && s.consumer.pending.None?
    ensures Sent(Receive(s)) == Sent(s)
  {
  }

  lemma ConsumerFaithful(s: State, all: seq<Event>)
    requires Faithful(s, all)
    ensures ConsumerStep(s).Some? ==> Faithful(ConsumerStep(s).value, all)
    ensures Faithful(Stop(s), all)
  {
    if s.consumer.releasing.None? {
      if s.consumer.pending.Some? {
        PopSent(s, s.consumer.pending.value);
      } else if s.shared.queue != [] {
        ReceiveSent(s);
      }
    }
  }

  lemma CloseFaithful(s: State, all: seq<Event>)
    requires Faithful(s, all)
    ensures Faithful(Close(s), all)
  {
    assert s.consumer.delivered <= Sent(s);
  }

  // -- Runs ---------------------------------------------------------------------------------------------

  /** A response that is read to its end, so far. */
  predicate Complete(s: State) {
    var g := s.producer.program;
    (Whole(g.wire) || (g.wire == [] && !g.drain.started)) && (s.lost ==> s.stopped || s.closed)
  }

  /** Everything that holds in every state of every run. */
  ghost predicate Good(s: State, wire: seq<WireMessage>) {
    && Conserved(s) && Shaped(s) && Ordered(s.producer)
    && Faithful(s, Events(DRAIN_START, wire))
    && (Whole(wire) ==> Complete(s))
  }

  lemma StartIsGood(wire: seq<WireMessage>)
    ensures Good(Start(wire), wire)
  {
    var s := Start(wire);
    assert Sent(s) == [] && Upcoming(s.producer) == Events(DRAIN_START, wire);
  }

  lemma AdvanceComplete(s: State)
    requires Complete(s) && Ordered(s.producer) && s.producer.phase.Next?
    ensures Complete(Advance(s))
  {
    var g := s.producer.program;
    if g.ops == [] && g.wire != [] {
      ExpandIsOrderly(g.drain, g.wire[0], s.producer.held.Some?);
    }
  }

  lemma AwaitComplete(s: State)
    requires Complete(s) && AtAwait(s) && (s.producer.phase.Buffer? ==> s.shared.free > 0)
    ensures Await(s).Some? ==> Complete(Await(s).value)
  {
  }

  /** The driver task is not waiting. */
  predicate CanProduce(s: State)
    requires s.producer.phase.Buffer? ==> s.shared.free > 0
  {
    s.producer.phase.Next? || (AtAwait(s) && Await(s).Some?)
  }

  /** A step of the driver task; without one it stays where it is. */
  function Produce(s: State): State
    requires s.producer.phase.Buffer? ==> s.shared.free > 0
  {
    if s.producer.phase.Next? then Advance(s) else if s.producer.phase.Over? then s else Await(s).GetOr(s)
  }

  lemma ProduceIsGood(s: State, wire: seq<WireMessage>)
    requires Good(s, wire)
    ensures s.producer.phase.Buffer? ==> s.shared.free > 0
    ensures Good(Produce(s), wire)
  {
    BuffersCoverSlots(s);
    var all := Events(DRAIN_START, wire);
    if s.producer.phase.Next? {
      AdvanceConserves(s);
      AdvanceShaped(s);
      AdvanceOrdered(s);
      AdvanceFaithful(s, all);
      if Whole(wire) {
        AdvanceComplete(s);
      }
    } else if AtAwait(s) && Await(s).Some? {
      AwaitConserves(s);
      AwaitShaped(s);
      AwaitOrdered(s);
      AwaitFaithful(s, all);
      if Whole(wire) {
        AwaitComplete(s);
      }
    }
  }

  lemma ConsumeIsGood(s: State, wire: seq<WireMessage>)
    requires Good(s, wire)
    ensures Good(ConsumerStep(s).GetOr(s), wire)
  {
    hide Conserved, Faithful, Shaped, Events;
    ConsumerConserves(s);
    ConsumerShaped(s);
    ConsumerFaithful(s, Events(DRAIN_START, wire));
  }

  lemma DisturbedIsGood(s: State, wire: seq<WireMessage>)
    requires Good(s, wire)
    ensures Good(Stop(s), wire) && Good(Close(s), wire)
  {
    CloseConserves(s);
    ConsumerShaped(s);
    ConsumerFaithful(s, Events(DRAIN_START, wire));
    CloseFaithful(s, Events(DRAIN_START, wire));
  }

  datatype Choice = Producing | Consuming | Stopping | Closing

  /** The state of the run that follows `schedule`. Behind every slot permit there is a buffer (`expect`). */
  ghost function Play(wire: seq<WireMessage>, schedule: seq<Choice>): (s: State)
    ensures Good(s, wire)
    decreases |schedule|
  {
    if schedule == [] then
      StartIsGood(wire);
      Start(wire)
    else
      var before := Play(wire, schedule[..|schedule| - 1]);
      match schedule[|schedule| - 1]
      case Producing => ProduceIsGood(before, wire); Produce(before)
      case Consuming => ConsumeIsGood(before, wire); ConsumerStep(before).GetOr(before)
      case Stopping => DisturbedIsGood(before, wire); Stop(before)
      case Closing => DisturbedIsGood(before, wire); Close(before)
  }

  /** In every run what is delivered is a prefix of the response's events, in wire order, and no batch is too big. */
  lemma RunsDeliverInOrder(wire: seq<WireMessage>, schedule: seq<Choice>)
    ensures var s := Play(wire, schedule);
            && s.consumer.delivered <= Events(DRAIN_START, wire)
            && forall i :: 0 <= i < |s.shared.queue| && s.shared.queue[i].RowsItem? ==> Bounded(s.shared.queue[i].batch)
  {
    var s := Play(wire, schedule);
    assert s.consumer.delivered <= Sent(s);
  }

  /** No run deadlocks: where the producer waits, the consumer has something to take. */
  lemma RunsNeverStick(wire: seq<WireMessage>, schedule: seq<Choice>)
    ensures var s := Play(wire, schedule);
            && (s.producer.phase.Buffer? ==> s.shared.free > 0)
            && (AtAwait(s) && Await(s).None? ==> ConsumerStep(s).Some?)
  {
    var s := Play(wire, schedule);
    BuffersCoverSlots(s);
    if AtAwait(s) {
      NeverStuck(s);
    }
  }

  /** Nobody has a step left. */
  predicate Settled(s: State)
    requires s.producer.phase.Buffer? ==> s.shared.free > 0
  {
    ConsumerStep(s).None? && !CanProduce(s)
  }

  /** A run that has come to rest is over: every permit, slot and buffer is back, and a whole response that nobody
      stopped or closed is delivered completely. */
  ghost predicate Done(s: State, wire: seq<WireMessage>) {
    && s.producer.phase.Over?
    && s.shared == Shared(STREAM_BYTES, STREAM_BATCH_POOL_SIZE, STREAM_BATCH_POOL_SIZE, [])
    && (Whole(wire) && !s.stopped && !s.closed ==> s.consumer.delivered == Events(DRAIN_START, wire))
  }

  lemma SettledIsDone(s: State, wire: seq<WireMessage>)
    requires Good(s, wire)
    ensures s.producer.phase.Buffer? ==> s.shared.free > 0
    ensures Settled(s) ==> Done(s, wire)
  {
    BuffersCoverSlots(s);
    if Settled(s) {
      IdleConsumer(s);
      if AtAwait(s) {
        NeverStuck(s);
      }
      assert Sent(s) == s.consumer.delivered;
      assert s.producer.phase.Over? ==> Upcoming(s.producer) == [];
    }
  }

  lemma SettledRunsAreDone(wire: seq<WireMessage>, schedule: seq<Choice>)
    ensures var s := Play(wire, schedule);
            && (s.producer.phase.Buffer? ==> s.shared.free > 0)
            && (Settled(s) ==> Done(s, wire))
  {
    SettledIsDone(Play(wire, schedule), wire);
  }

  // -- Termination -------------------------------------------------------------------------------------

  /** How far the current operation has to go. */
  function Rank(phase: Phase): nat {
    match phase
    case RowBudget(_, Some(_)) => 8
    case RowSpace(_, Some(_)) => 7
    case Slot(_) => 6
    case Buffer(_) => 5
    case Staging(_, _) => 4
    case RowBudget(_, None) => 3
    case EventBudget(_) => 3
    case RowSpace(_, None) => 2
    case EventSpace(_, _) => 2
    case Next => 1
    case Over => 0
  }

  function QueueWork(queue: seq<Item>): nat {
    if queue == [] then 0
    else (match queue[0] case EventItem(_, _) => 1 case RowsItem(b) => 3 + 2 * |b.rows|) + QueueWork(queue[1..])
  }

  /** The steps the consumer has left. */
  function Work(s: State): nat {
    QueueWork(s.shared.queue)
    + (if s.consumer.pending.Some? then 2 + 2 * |s.consumer.pending.value.rows| else 0)
    + Count(s.consumer.releasing)
  }

  lemma ConsumerProgress(s: State)
    ensures ConsumerStep(s).Some? ==>
              Work(ConsumerStep(s).value) < Work(s) && ConsumerStep(s).value.producer == s.producer
  {
  }

  lemma ProducerProgress(s: State)
    requires (s.producer.phase.Buffer? ==> s.shared.free > 0) && CanProduce(s)
    ensures var p, q := s.producer, Produce(s).producer;
            || |q.program.wire| < |p.program.wire|
            || (q.program.wire == p.program.wire && |q.program.ops| < |p.program.ops|)
            || (q.program == p.program && Rank(q.phase) < Rank(p.phase))
  {
  }

  /** How often the stream can still be stopped or closed. */
  function Disturbances(s: State): nat {
    (if s.stopped then 0 else 1) + (if s.closed then 0 else 1)
  }

  lemma Undisturbed(s: State)
    requires s.producer.phase.Buffer? ==> s.shared.free > 0
    ensures Produce(s).stopped == s.stopped && Produce(s).closed == s.closed
    ensures ConsumerStep(s).Some? ==>
              ConsumerStep(s).value.stopped == s.stopped && ConsumerStep(s).value.closed == s.closed
  {
  }

  /** Every stream ends, under any scheduler that lets somebody move, with a cancel and a dropped handle at any point:
      all permits, slots and buffers are back, what was delivered is a prefix of the response's events, and all of
      them if the response is whole and nobody stopped or closed. */
  method Run(wire: seq<WireMessage>) returns (s: State)
    ensures Done(s, wire) && s.consumer.delivered <= Events(DRAIN_START, wire)
    ensures Whole(wire) && !s.stopped && !s.closed ==> s.consumer.delivered == Events(DRAIN_START, wire)
  {
    hide Conserved, Shaped, Ordered, Faithful, Events, Complete;
    s := Start(wire);
    StartIsGood(wire);
    while true
      invariant Good(s, wire)
      decreases Disturbances(s), |s.producer.program.wire|, |s.producer.program.ops|, Rank(s.producer.phase), Work(s)
    {
      SettledIsDone(s, wire);
      if Settled(s) {
        DeliveredIsPrefix(s, wire);
        return;
      }
      var producing: bool, stopping: bool, closing: bool := *, *, *;
      Undisturbed(s);
      DisturbedIsGood(s, wire);
      if stopping && !s.stopped {
        s := Stop(s);
      } else if closing && !s.closed {
        s := Close(s);
      } else if CanProduce(s) && (producing || ConsumerStep(s).None?) {
        ProducerProgress(s);
        ProduceIsGood(s, wire);
        s := Produce(s);
      } else {
        ConsumerProgress(s);
        ConsumeIsGood(s, wire);
        s := ConsumerStep(s).value;
      }
    }
  }

  lemma DeliveredIsPrefix(s: State, wire: seq<WireMessage>)
    requires Good(s, wire)
    ensures s.consumer.delivered <= Events(DRAIN_START, wire)
  {
    assert s.consumer.delivered <= Sent(s);
  }
}

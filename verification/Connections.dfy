/** The synchronous connection (src/connection.rs): the response loop over the read buffer, with its fast path for
    rows that are already buffered, and the resynchronisation of an abandoned response. */
module Connections {
  import opened Bytes
  import opened TupleDesc
  import opened Rows
  import opened ReadBuffers
  import opened Framing
  import opened Responses
  import opened Transactions
  import Statements

  /** `DbosRead`. */
  datatype Available<V> = NotAvailable | Parsed(parse: RowParse<V>)

  /** How sending the query packet went. A packet whose write timed out did not reach the server whole. Where only the
      flush behind the write timed out it may still do so; and where something else failed, too, but then the session is
      retired. */
  datatype WriteOutcome = Written | WriteTimedOut | FlushTimedOut | WriteFailed

  /** How a command ends for its caller. */
  datatype Outcome<V> = Finished(progress: Progress<V>) | SinkAborted(progress: Progress<V>) | Failed(error: NzError)

  /** A command: its text, its sink, how writing its packet went, what the server sends because of it (also when only
      part of the packet reached it, and perhaps nothing), and how many of its statements the server executes, if it
      got the whole packet. */
  datatype Command = Command(
    sql: string,
    streaming: bool,
    write: WriteOutcome,
    reply: seq<ReadEvent>,
    executed: nat)
  {
    function Batch(): seq<Statement> {
      Statements.Batch(sql)
    }
  }

  predicate IsTransport(e: NzError) {
    e == Io || e == IoTimeout
  }

  /** `is_command_timeout`. */
  predicate IsCommandTimeout(e: NzError) {
    e == Timeout || e == IoTimeout
  }

  class NzConnection<V> {
    const env: Env<V>
    const stream: Socket
    const buffer: ReadBuffer
    var connected: bool
    var protocolFaulted: bool
    var protocolSyncRequired: bool
    var frameInProgress: bool
    var decodeErrorSynced: bool
    var cancels: nat
    var inTransaction: bool
    /** Whether the server's session has a transaction open. */
    ghost var serverInTransaction: bool

    ghost predicate Valid()
      reads this, buffer, stream
    {
      buffer.Valid() && stream.Valid()
    }

    /** Everything the server has sent or will send and the connection has not consumed. */
    ghost function Rest(): seq<byte>
      reads this, buffer, buffer.buf, stream
      requires buffer.Valid()
    {
      buffer.Rest(stream)
    }

    constructor (env: Env<V>, stream: Socket, buffer: ReadBuffer)
      requires stream.Valid() && buffer.Valid()
      ensures Valid() && Rest() == buffer.Rest(stream)
      ensures this.env == env && this.stream == stream && this.buffer == buffer
      ensures connected && !protocolFaulted && !protocolSyncRequired && !frameInProgress && !decodeErrorSynced
      ensures cancels == 0 && !inTransaction && !serverInTransaction
    {
      this.env, this.stream, this.buffer := env, stream, buffer;
      connected, protocolFaulted, protocolSyncRequired := true, false, false;
      frameInProgress, decodeErrorSynced := false, false;
      cancels, inTransaction, serverInTransaction := 0, false, false;
    }

    // -- Low-level reads ------------------------------------------------------------

    /** `read_type_byte`: the first byte that is not padding. */
    method ReadTypeByte() returns (r: Result<byte>)
      requires Valid()
      modifies buffer, buffer.buf, stream
      ensures Valid() && (buffer.buf == old(buffer.buf) || fresh(buffer.buf))
      ensures old(Clean(stream.script)) ==> Clean(stream.script)
      ensures r.Ok? ==> r.value != 0 && SkipNuls(old(Rest())) == [r.value] + Rest()
      ensures r.Err? ==> SkipNuls(Rest()) == SkipNuls(old(Rest()))
      ensures r.Err? ==> r.error == Closed || IsTransport(r.error)
      ensures r == Err(Closed) ==> SkipNuls(old(Rest())) == []
      ensures r.Err? && IsTransport(r.error) ==> !old(Clean(stream.script))
    {
      while true
        invariant Valid() && (buffer.buf == old(buffer.buf) || fresh(buffer.buf))
        invariant old(Clean(stream.script)) ==> Clean(stream.script)
        invariant SkipNuls(Rest()) == SkipNuls(old(Rest()))
        decreases |Rest()|
      {
        ghost var before := Rest();
        var b := buffer.ReadByte(stream);
        if b.Err? {
          return b;
        }
        assert before == [b.value] + Rest();
        if b.value != 0 {
          return b;
        }
      }
    }

    /** `read_len`, then `read_payload`: the body of the length-prefixed frame `h`. */
    method ReadBody(ghost h: seq<byte>) returns (r: Result<seq<byte>>)
      requires Valid() && |h| >= 5 && Rest() == h[5..]
      requires h[0] != 0 && h[0] != ROW_STANDARD && !External(h[0]) && !IsReady(h[0]) && !IsControl(h[0])
      modifies buffer, buffer.buf, stream
      ensures Valid() && (buffer.buf == old(buffer.buf) || fresh(buffer.buf))
      ensures old(Clean(stream.script)) ==> Clean(stream.script)
      ensures r.Ok? ==> HeadFrame(h) == Frame(Tagged(h[0], r.value), Rest())
      ensures r == Err(Protocol) ==> HeadFrame(h) == Refused
      ensures r == Err(Closed) ==> HeadFrame(h) == NeedMore
      ensures r.Err? ==> r.error == Protocol || r.error == Closed || IsTransport(r.error)
      ensures r.Err? && IsTransport(r.error) ==> !old(Clean(stream.script))
    {
      ghost var w := Rest();
      BodyFrame(h);
      var len := buffer.ReadI32(stream);
      if len.Err? {
        return Err(len.error);
      }
      if !ValidLength(len.value, true) {
        return Err(Protocol);
      }
      var n: nat := len.value;
      if n <= |w[4..]| {
        SliceOfDrop(w, 4, 0, n);
        SliceOfDrop(w, 4, n, n);
        assert w[4..][..n] == w[4..][0..n];
      }
      r := buffer.ReadBytes(stream, n);
    }

    /** The reserved word and the payload length of a binary row. */
    method ReadRowLength() returns (r: Result<nat>)
      requires Valid()
      modifies buffer, buffer.buf, stream
      ensures Valid() && (buffer.buf == old(buffer.buf) || fresh(buffer.buf))
      ensures old(Clean(stream.script)) ==> Clean(stream.script)
      ensures r.Ok? ==>
                && |old(Rest())| >= 8 && ValidLength(BigI32(old(Rest()), 4), false)
                && r.value == BigI32(old(Rest()), 4)
                && Rest() == old(Rest())[8..]
      ensures r == Err(Protocol) ==> |old(Rest())| >= 8 && !ValidLength(BigI32(old(Rest()), 4), false)
      ensures r == Err(Closed) ==> |old(Rest())| < 8
      ensures r.Err? ==> r.error == Protocol || r.error == Closed || IsTransport(r.error)
      ensures r.Err? && IsTransport(r.error) ==> !old(Clean(stream.script))
    {
      ghost var w := Rest();
      var skipped := buffer.Skip(stream, 4);
      if skipped.Err? {
        return Err(skipped.error);
      }
      assert Rest() == w[4..];
      var len := buffer.ReadI32(stream);
      if len.Err? {
        return Err(len.error);
      }
      assert len.value == BigI32(w[4..], 0) == BigI32(w, 4) && Rest() == w[4..][4..] == w[8..];
      if !ValidLength(len.value, false) {
        return Err(Protocol);
      }
      r := Ok(len.value);
    }

    /** The payload of a binary row, parsed in place and consumed unless its layout is invalid. */
    method ReadRowPayload(d: Descriptor, n: nat) returns (r: Result<RowParse<V>>)
      requires Valid() && LengthOk(n)
      modifies buffer, buffer.buf, stream
      ensures Valid() && (buffer.buf == old(buffer.buf) || fresh(buffer.buf))
      ensures old(Clean(stream.script)) ==> Clean(stream.script)
      ensures r.Ok? ==>
                && |old(Rest())| >= n
                && r.value == EagerRow(env.codec, d, old(Rest())[..n]) && !r.value.BadLayout?
                && Rest() == old(Rest())[n..]
      ensures r == Err(Protocol) ==> |old(Rest())| >= n && EagerRow(env.codec, d, old(Rest())[..n]).BadLayout?
      ensures r == Err(Closed) ==> |old(Rest())| < n
      ensures r.Err? ==> r.error == Protocol || r.error == Closed || IsTransport(r.error)
      ensures r.Err? && IsTransport(r.error) ==> !old(Clean(stream.script))
    {
      hide EagerRow;
      var payload := buffer.PeekBytes(stream, n);
      if payload.Err? {
        return Err(payload.error);
      }
      ghost var unread := buffer.Unread();
      var parse := ParsePayload(d, payload.value);
      if parse.BadLayout? {
        return Err(Protocol);
      }
      buffer.Advance(n);
      SplitInFront(unread, Wire(stream.script), n);
      r := Ok(parse);
    }

    /** `parse_row_classified`, with its flag as a case. */
    method ParsePayload(d: Descriptor, payload: seq<byte>) returns (parse: RowParse<V>)
      ensures parse == EagerRow(env.codec, d, payload)
    {
      var parsed, values, fieldStage := ParseRowClassified(env.codec, d, payload);
      parse := if parsed.Ok? then Values(values) else if fieldStage then BadField else BadLayout;
    }

    /** `read_dbos_tuple_into`, behind the type byte and the shared header of the frame `h`. */
    method ReadDbosTuple(d: Descriptor, ghost h: seq<byte>) returns (r: Result<RowParse<V>>)
      requires Valid() && |h| >= 5 && h[0] == ROW_STANDARD && Rest() == h[5..]
      modifies buffer, buffer.buf, stream
      ensures Valid() && (buffer.buf == old(buffer.buf) || fresh(buffer.buf))
      ensures old(Clean(stream.script)) ==> Clean(stream.script)
      ensures r.Ok? ==>
                && HeadFrame(h).Frame? && HeadFrame(h).message.Row?
                && r.value == EagerRow(env.codec, d, HeadFrame(h).message.payload) && !r.value.BadLayout?
                && Rest() == HeadFrame(h).rest
      ensures r == Err(Protocol) ==>
                || HeadFrame(h) == Refused
                || (&& HeadFrame(h).Frame? && HeadFrame(h).message.Row?
                    && EagerRow(env.codec, d, HeadFrame(h).message.payload).BadLayout?)
      ensures r == Err(Closed) ==> HeadFrame(h) == NeedMore
      ensures r.Err? ==> r.error == Protocol || r.error == Closed || IsTransport(r.error)
      ensures r.Err? && IsTransport(r.error) ==> !old(Clean(stream.script))
    {
      RowFrameSteps(h);
      var len := ReadRowLength();
      if len.Err? {
        return Err(len.error);
      }
      r := ReadRowPayload(d, len.value);
    }

    /** The length of the binary row frame at the front of the buffer, when all of it is there. */
    method AvailableRow() returns (r: Result<nat>, available: seq<byte>)
      requires Valid()
      ensures available == buffer.Unread()
      ensures r == Ok(0) || r == Err(Protocol) || (r.Ok? && 13 <= r.value <= |available|)
      ensures r != Ok(0) ==> |Rest()| >= 5 && Rest()[0] == ROW_STANDARD
      ensures r.Ok? && r.value > 0 ==>
                HeadFrame(Rest()) == Frame(Row(available[13..r.value]), available[r.value..] + Wire(stream.script))
      ensures r.Err? ==> HeadFrame(Rest()) == Refused
    {
      available := buffer.Slice();
      ghost var w := Rest();
      if |available| < 13 || available[0] != ROW_STANDARD {
        return Ok(0), available;
      }
      var rowLen := BigI32(available, 9);
      assert rowLen == BigI32(w, 9);
      if !ValidLength(rowLen, false) {
        return Err(Protocol), available;
      }
      var frameLen := 13 + rowLen;
      if |available| < frameLen {
        return Ok(0), available;
      }
      assert w[13..frameLen] == available[13..frameLen];
      assert w[frameLen..] == available[frameLen..] + Wire(stream.script);
      r := Ok(frameLen);
    }

    /** `try_read_available_dbos_row`: a whole binary row that is already buffered, without touching the stream. */
    method TryReadAvailableDbosRow(d: Descriptor) returns (r: Result<Available<V>>)
      requires Valid()
      modifies buffer
      ensures Valid() && buffer.buf == old(buffer.buf)
      ensures r == Ok(NotAvailable) ==> Rest() == old(Rest())
      ensures r.Ok? && r.value.Parsed? ==>
                && |old(Rest())| >= 5 && old(Rest())[0] == ROW_STANDARD
                && HeadFrame(old(Rest())).Frame? && HeadFrame(old(Rest())).message.Row?
                && r.value.parse == EagerRow(env.codec, d, HeadFrame(old(Rest())).message.payload)
                && !r.value.parse.BadLayout?
                && Rest() == HeadFrame(old(Rest())).rest
      ensures r.Err? ==>
                && r.error == Protocol
                && |old(Rest())| >= 5 && old(Rest())[0] == ROW_STANDARD
                && (|| HeadFrame(old(Rest())) == Refused
                    || (&& HeadFrame(old(Rest())).Frame? && HeadFrame(old(Rest())).message.Row?
                        && EagerRow(env.codec, d, HeadFrame(old(Rest())).message.payload).BadLayout?))
    {
      var frame, available := AvailableRow();
      if frame.Err? {
        return Err(Protocol);
      }
      if frame.value == 0 {
        return Ok(NotAvailable);
      }
      var parsed, values, fieldStage := ParseRowClassified(env.codec, d, available[13..frame.value]);
      if parsed.Err? && !fieldStage {
        return Err(Protocol);
      }
      buffer.Advance(frame.value);
      r := Ok(Parsed(if parsed.Ok? then Values(values) else BadField));
    }

    // -- The response loop ------------------------------------------------------------

    /** `cancel`: out of band; nothing on this stream changes. */
    method Cancel()
      modifies this`cancels
      ensures cancels == old(cancels) + 1
    {
      cancels := cancels + 1;
    }

    /** The effect of `cancel_if_sink_aborted!` on the connection. */
    method CancelIfSent(before: Progress<V>, after: Progress<V>)
      modifies this`cancels, this`protocolSyncRequired
      ensures cancels == old(cancels) + (if after.told.cancelSent && !before.told.cancelSent then 1 else 0)
    {
      if after.told.cancelSent && !before.told.cancelSent {
        protocolSyncRequired := true;
        Cancel();
      }
    }

    /** `e` is how a response that ends as `ending` is reported, or a failure of the transport. */
    ghost predicate Reports(e: NzError, ending: Ending<V>, clean: bool) {
      match e
      case Protocol => ending.Faulty?
      case Closed => ending.Cut?
      case Unsupported => ending.Foreign?
      case _ => IsTransport(e) && !clean
    }

    /** The first binary row of a batch, behind its type byte. */
    method FirstRow(p: Progress<V>, ghost h: seq<byte>) returns (r: Result<RowParse<V>>)
      requires Valid() && Coherent(p) && h == [ROW_STANDARD] + Rest()
      modifies buffer, buffer.buf, stream
      ensures Valid() && (buffer.buf == old(buffer.buf) || fresh(buffer.buf))
      ensures old(Clean(stream.script)) ==> Clean(stream.script)
      ensures r.Ok? ==> RowAt(p, h, r.value) && Rest() == HeadFrame(h).rest
      ensures r.Err? ==> Reports(r.error, Response(env, p, h), old(Clean(stream.script)))
    {
      assert h[1..] == Rest();
      var skipped := buffer.Skip(stream, 4);
      if skipped.Err? {
        HeadCut(p, h);
        return Err(skipped.error);
      }
      assert Rest() == h[5..];
      if p.descriptor.None? {
        HeadUndescribed(p, h);
        return Err(Protocol);
      }
      r := ReadDbosTuple(p.descriptor.value, h);
      HeadRow(p, h);
    }

    /** Every further binary row the buffer already holds. */
    method BufferedRows(p: Progress<V>, ghost h: seq<byte>) returns (r: Result<Progress<V>>)
      requires Valid() && Coherent(p) && p.descriptor.Some? && Reaches(h, Rest())
      modifies this`cancels, this`protocolSyncRequired, buffer
      ensures Valid() && buffer.buf == old(buffer.buf)
      ensures r.Ok? ==>
                && Continues(r.value, Rest(), p, old(Rest()))
                && Reaches(h, Rest())
                && cancels == old(cancels) + Sent(p, r.value)
                && (p.told.cancelSent ==> r.value.told.cancelSent)
      ensures r.Err? ==> r.error == Protocol && Response(env, p, old(Rest())) == Faulty
      ensures old(cancels) <= cancels <= old(cancels) + (if p.told.cancelSent then 0 else 1)
    {
      var q := p;
      while true
        invariant Valid() && buffer.buf == old(buffer.buf)
        invariant q.descriptor.Some?
        invariant Continues(q, Rest(), p, old(Rest())) && Reaches(h, Rest())
        invariant cancels == old(cancels) + Sent(p, q)
        invariant p.told.cancelSent ==> q.told.cancelSent
        decreases |Rest()|
      {
        ghost var w := Rest();
        var more := TryReadAvailableDbosRow(q.descriptor.value);
        if more.Err? {
          HeadRow(q, w);
          return Err(Protocol);
        }
        if more.value.NotAvailable? {
          return Ok(q);
        }
        var next := TakeRow(q, w, more.value.parse);
        if next.None? {
          return Err(Protocol);
        }
        ReachesFurther(h, w, Rest());
        q := next.value;
      }
    }

    /** One parsed binary row handed to the sink. */
    method TakeRow(p: Progress<V>, ghost h: seq<byte>, parse: RowParse<V>) returns (r: Option<Progress<V>>)
      requires Coherent(p) && RowAt(p, h, parse)
      modifies this`cancels, this`protocolSyncRequired
      ensures r.None? ==> Response(env, p, h) == Faulty && cancels == old(cancels)
      ensures r.Some? ==>
                && Continues(r.value, HeadFrame(h).rest, p, h) && r.value.descriptor.Some?
                && cancels == old(cancels) + Sent(p, r.value)
                && (p.told.cancelSent ==> r.value.told.cancelSent)
      ensures Reaches(h, HeadFrame(h).rest) && NextFrame(h) == HeadFrame(h)
    {
      RowStep(p, h, parse);
      r := OnBinaryRow(env, p, parse);
      if r.Some? {
        CancelIfSent(p, r.value);
      }
    }

    /** A binary row, and with it every further row the buffer already holds. */
    method RowBranch(p: Progress<V>, ghost h: seq<byte>) returns (r: Result<Progress<V>>)
      requires Valid() && Coherent(p) && h == [ROW_STANDARD] + Rest()
      modifies this`cancels, this`protocolSyncRequired, buffer, buffer.buf, stream
      ensures Valid() && (buffer.buf == old(buffer.buf) || fresh(buffer.buf))
      ensures old(Clean(stream.script)) ==> Clean(stream.script)
      ensures r.Ok? ==>
                && Continues(r.value, Rest(), p, h)
                && |Rest()| < |h|
                && Reaches(h, Rest())
                && cancels == old(cancels) + Sent(p, r.value)
                && (p.told.cancelSent ==> r.value.told.cancelSent)
      ensures r.Err? ==> Reports(r.error, Response(env, p, h), old(Clean(stream.script)))
      ensures old(cancels) <= cancels <= old(cancels) + (if p.told.cancelSent then 0 else 1)
    {
      hide Reaches, Response;
      var first := FirstRow(p, h);
      if first.Err? {
        return Err(first.error);
      }
      var q := TakeRow(p, h, first.value);
      if q.None? {
        return Err(Protocol);
      }
      if first.value.BadField? {
        return Ok(q.value);
      }
      r := BufferedRows(q.value, h);
    }

    /** Any message but a binary row, behind its type byte. `done` is ReadyForQuery. */
    method MessageBranch(p: Progress<V>, t: byte, ghost h: seq<byte>) returns (r: Result<Progress<V>>, done: bool)
      requires Valid() && Coherent(p) && t != 0 && t != ROW_STANDARD && !External(t) && h == [t] + Rest()
      modifies this`cancels, this`protocolSyncRequired, buffer, buffer.buf, stream
      ensures Valid() && (buffer.buf == old(buffer.buf) || fresh(buffer.buf))
      ensures old(Clean(stream.script)) ==> Clean(stream.script)
      ensures r.Ok? && done ==>
                && Response(env, p, h) == Complete(r.value, Rest()) && r.value == FinishSet(env, p)
                && !protocolSyncRequired && cancels == old(cancels)
      ensures r.Ok? && !done ==>
                && Continues(r.value, Rest(), p, h)
                && |Rest()| < |h|
                && Reaches(h, Rest())
                && cancels == old(cancels) + Sent(p, r.value)
                && (p.told.cancelSent ==> r.value.told.cancelSent)
      ensures r.Err? ==> Reports(r.error, Response(env, p, h), old(Clean(stream.script)))
      ensures old(cancels) <= cancels <= old(cancels) + (if p.told.cancelSent then 0 else 1)
    {
      done := false;
      assert h[1..] == Rest();
      HeadMessage(p, h);
      var skipped := buffer.Skip(stream, 4);
      if skipped.Err? {
        return Err(skipped.error), false;
      }
      assert Rest() == h[5..];
      if IsReady(t) {
        protocolSyncRequired := false;
        return Ok(FinishSet(env, p)), true;
      }
      if IsControl(t) {
        HeadControl(p, h);
        return Ok(p), false;
      }
      r := BodyBranch(p, t, h);
    }

    /** A length-prefixed message, behind its header. */
    method BodyBranch(p: Progress<V>, t: byte, ghost h: seq<byte>) returns (r: Result<Progress<V>>)
      requires Valid() && Coherent(p) && t != 0 && t != ROW_STANDARD && !External(t) && !IsReady(t) && !IsControl(t)
      requires |h| >= 5 && h[0] == t && Rest() == h[5..]
      modifies this`cancels, this`protocolSyncRequired, buffer, buffer.buf, stream
      ensures Valid() && (buffer.buf == old(buffer.buf) || fresh(buffer.buf))
      ensures old(Clean(stream.script)) ==> Clean(stream.script)
      ensures r.Ok? ==>
                && Continues(r.value, Rest(), p, h)
                && |Rest()| < |h|
                && Reaches(h, Rest())
                && cancels == old(cancels) + Sent(p, r.value)
                && (p.told.cancelSent ==> r.value.told.cancelSent)
      ensures r.Err? ==> Reports(r.error, Response(env, p, h), old(Clean(stream.script)))
      ensures old(cancels) <= cancels <= old(cancels) + (if p.told.cancelSent then 0 else 1)
    {
      HeadBody(p, h);
      var body := ReadBody(h);
      if body.Err? {
        return Err(body.error);
      }
      TaggedStep(p, h);
      r := OnBody(p, t, body.value);
    }

    /** The body of a length-prefixed message. */
    method OnBody(p: Progress<V>, t: byte, payload: seq<byte>) returns (r: Result<Progress<V>>)
      requires Coherent(p)
      modifies this`cancels, this`protocolSyncRequired
      ensures Step(env, p, Tagged(t, payload)) == if r.Ok? then Some(r.value) else None
      ensures r.Err? ==> r.error == Protocol && cancels == old(cancels)
      ensures r.Ok? ==>
                && Coherent(r.value)
                && cancels == old(cancels) + Sent(p, r.value)
                && (p.told.cancelSent ==> r.value.told.cancelSent)
    {
      var parsed: Option<Descriptor> := None;
      if t == ROW_DESCRIPTION_STANDARD {
        var descriptor := Parse(payload, Oids(p.cached));
        if descriptor.Ok? {
          parsed := Some(descriptor.value);
        }
      }
      var q := OnTagged(env, p, t, payload, parsed);
      if q.None? {
        return Err(Protocol);
      }
      CancelIfSent(p, q.value);
      r := Ok(q.value);
    }

    /** The message behind its type byte. */
    method Dispatch(p: Progress<V>, t: byte, ghost h: seq<byte>) returns (r: Result<Progress<V>>, done: bool)
      requires Valid() && Coherent(p) && t != 0 && h == [t] + Rest()
      modifies this`cancels, this`protocolSyncRequired, buffer, buffer.buf, stream
      ensures Valid() && (buffer.buf == old(buffer.buf) || fresh(buffer.buf))
      ensures old(Clean(stream.script)) ==> Clean(stream.script)
      ensures r.Ok? && done ==>
                Response(env, p, h) == Complete(r.value, Rest()) && !protocolSyncRequired && cancels == old(cancels)
      ensures r.Ok? && !done ==>
                && Continues(r.value, Rest(), p, h)
                && |Rest()| < |h|
                && Reaches(h, Rest())
                && cancels == old(cancels) + Sent(p, r.value)
                && (p.told.cancelSent ==> r.value.told.cancelSent)
      ensures r.Err? ==> Reports(r.error, Response(env, p, h), old(Clean(stream.script)))
      ensures old(cancels) <= cancels <= old(cancels) + (if p.told.cancelSent then 0 else 1)
    {
      done := false;
      PaddingIsSkipped(p, h, h);
      if External(t) {
        return Err(Unsupported), false;
      }
      if t == ROW_STANDARD {
        r := RowBranch(p, h);
      } else {
        r, done := MessageBranch(p, t, h);
      }
    }

    /** One turn of the loop. */
    method Turn(p: Progress<V>) returns (r: Result<Progress<V>>, done: bool)
      requires Valid() && Coherent(p)
      modifies this`cancels, this`protocolSyncRequired, this`frameInProgress, buffer, buffer.buf, stream
      ensures Valid() && (buffer.buf == old(buffer.buf) || fresh(buffer.buf))
      ensures old(Clean(stream.script)) ==> Clean(stream.script)
      ensures r.Ok? && done ==> Response(env, p, old(Rest())) == Complete(r.value, Rest()) && !protocolSyncRequired
      ensures r.Ok? && done ==> cancels == old(cancels)
      ensures r.Ok? && !done ==>
                && Continues(r.value, Rest(), p, old(Rest()))
                && |Rest()| < |old(Rest())|
                && Reaches(old(Rest()), Rest())
                && cancels == old(cancels) + Sent(p, r.value)
                && (p.told.cancelSent ==> r.value.told.cancelSent)
      ensures r.Err? ==> Reports(r.error, Response(env, p, old(Rest())), old(Clean(stream.script)))
      ensures r == Err(IoTimeout) && !frameInProgress ==> Reaches(old(Rest()), Rest())
      ensures old(cancels) <= cancels <= old(cancels) + (if p.told.cancelSent then 0 else 1)
    {
      frameInProgress, done := false, false;
      ghost var before := Rest();
      var t := ReadTypeByte();
      if t.Err? {
        EmptyIsCut(p, before);
        return Err(t.error), false;
      }
      frameInProgress := true;
      ghost var h := [t.value] + Rest();
      PaddingIsSkipped(p, before, h);
      r, done := Dispatch(p, t.value, h);
      if r.Ok? && !done {
        ReachesTransitive(before, h, Rest());
      }
    }

    /** The loop of `drain_response_with_sink`: it reports what the bytes of the response mean, however they arrive. */
    method ResponseLoop(streaming: bool) returns (r: Result<Progress<V>>)
      requires Valid()
      modifies this`cancels, this`protocolSyncRequired, this`frameInProgress, buffer, buffer.buf, stream
      ensures Valid() && (buffer.buf == old(buffer.buf) || fresh(buffer.buf))
      ensures old(Clean(stream.script)) ==> Clean(stream.script)
      ensures r.Ok? ==>
                && Response(env, Begin(streaming), old(Rest())) == Complete(r.value, Rest())
                && !protocolSyncRequired
      ensures r.Err? ==> Reports(r.error, Response(env, Begin(streaming), old(Rest())), old(Clean(stream.script)))
      ensures r == Err(IoTimeout) && !frameInProgress ==> Reaches(old(Rest()), Rest())
      ensures old(cancels) <= cancels <= old(cancels) + 1
    {
      var p: Progress<V> := Begin(streaming);
      ghost var w := Rest();
      while true
        invariant Valid() && (buffer.buf == old(buffer.buf) || fresh(buffer.buf))
        invariant old(Clean(stream.script)) ==> Clean(stream.script)
        invariant Continues(p, Rest(), Begin(streaming), w) && Reaches(w, Rest())
        invariant cancels == old(cancels) + Sent(Begin(streaming), p)
        decreases |Rest()|
      {
        ghost var before := Rest();
        var q, done := Turn(p);
        if q.Err? || done {
          if q == Err(IoTimeout) && !frameInProgress {
            ReachesTransitive(w, before, Rest());
          }
          return q;
        }
        ReachesTransitive(w, before, Rest());
        p := q.value;
      }
    }

    /** The loop, and behind it the return of the capacity a large response needed. */
    method LoopAndShrink(streaming: bool) returns (r: Result<Progress<V>>)
      requires Valid()
      modifies this`cancels, this`protocolSyncRequired, this`frameInProgress, buffer, buffer.buf, stream
      ensures Valid() && (buffer.buf == old(buffer.buf) || fresh(buffer.buf))
      ensures buffer.buf.Length <= SHRINK_LIMIT || |buffer.Unread()| > INITIAL
      ensures old(Clean(stream.script)) ==> Clean(stream.script)
      ensures r.Ok? ==>
                && Response(env, Begin(streaming), old(Rest())) == Complete(r.value, Rest())
                && !protocolSyncRequired
      ensures r.Err? ==> Reports(r.error, Response(env, Begin(streaming), old(Rest())), old(Clean(stream.script)))
      ensures r == Err(IoTimeout) && !frameInProgress ==> Reaches(old(Rest()), Rest())
      ensures old(cancels) <= cancels <= old(cancels) + 1
    {
      r := ResponseLoop(streaming);
      buffer.ShrinkIfLarge();
    }

    // -- Retiring the session ------------------------------------------------------------

    /** `mark_protocol_fault`. */
    method MarkProtocolFault()
      modifies this`connected, this`protocolFaulted
      ensures protocolFaulted && !connected
    {
      protocolFaulted, connected := true, false;
    }

    /** `mark_faulted_after`: an error that leaves the read position unknown retires the session. */
    method MarkFaultedAfter(e: NzError)
      modifies this`connected, this`protocolFaulted, this`decodeErrorSynced
      ensures !decodeErrorSynced
      ensures connected == (old(connected) && (old(decodeErrorSynced) || !(e == Protocol || e == Closed || e == Io)))
      ensures protocolFaulted ==
              if old(decodeErrorSynced) then old(protocolFaulted)
              else if e == Protocol then true
              else if e == Closed || e == Io then false
              else old(protocolFaulted)
    {
      if decodeErrorSynced {
        decodeErrorSynced := false;
        return;
      }
      if e == Protocol {
        MarkProtocolFault();
      } else if e == Closed || (IsTransport(e) && !IsCommandTimeout(e)) {
        MarkProtocolFault();
        protocolFaulted := false;
      }
    }

    // -- A whole response -------------------------------------------------------------------

    /** `drain_response_with_sink` behind its loop. A timeout between messages leaves the rest of the response to be
        resynchronised; a timeout inside a message retires the session. */
    method DrainResponse(streaming: bool) returns (r: Outcome<V>)
      requires Valid() && connected
      modifies this`cancels, this`protocolSyncRequired, this`frameInProgress, this`connected, this`protocolFaulted
      modifies this`decodeErrorSynced, buffer, buffer.buf, stream
      ensures Valid() && (buffer.buf == old(buffer.buf) || fresh(buffer.buf))
      ensures Means(r, decodeErrorSynced, Response(env, Begin(streaming), old(Rest())), Rest(),
                    old(Clean(stream.script)))
      ensures EndsAtReady(r, decodeErrorSynced) ==> connected && !protocolSyncRequired
      ensures r == Failed(Timeout) && connected ==> protocolSyncRequired && Reaches(old(Rest()), Rest())
      ensures old(cancels) <= cancels <= old(cancels) + 2
    {
      hide Response, Reaches;
      ghost var w := Rest();
      decodeErrorSynced := false;
      var looped := LoopAndShrink(streaming);
      if looped.Err? {
        ErrorMeans(looped.error, Response(env, Begin(streaming), w), Rest(), old(Clean(stream.script)));
        var e := OnLoopError(looped.error);
        return Failed(e);
      }
      r := Settle(looped.value);
    }

    /** The error arm behind the loop: a timeout cancels the statement out of band. */
    method OnLoopError(e: NzError) returns (reported: NzError)
      requires !decodeErrorSynced
      modifies this`cancels, this`protocolSyncRequired, this`connected, this`protocolFaulted, this`decodeErrorSynced
      ensures !decodeErrorSynced
      ensures reported == if IsCommandTimeout(e) then Timeout else e
      ensures IsCommandTimeout(e) ==> connected == (old(connected) && !frameInProgress)
      ensures IsCommandTimeout(e) && !frameInProgress ==> protocolSyncRequired
      ensures !IsCommandTimeout(e) ==> connected == old(connected)
      ensures old(cancels) <= cancels <= old(cancels) + 1
    {
      if IsCommandTimeout(e) {
        Cancel();
        if frameInProgress {
          MarkFaultedAfter(Closed);
        } else {
          protocolSyncRequired := true;
        }
        return Timeout;
      }
      reported := e;
    }

    /** The success arm behind the loop: a sink error first, then the server's, then a value that did not decode. */
    method Settle(p: Progress<V>) returns (r: Outcome<V>)
      requires Coherent(p) && FinishSet(env, p) == p && !decodeErrorSynced
      modifies this`decodeErrorSynced
      ensures r == Verdict(p)
      ensures decodeErrorSynced == (!(p.streaming && p.told.failed) && p.error.None? && p.deferred)
    {
      var finished := FinishSet(env, p);
      if finished.streaming && finished.told.failed {
        return SinkAborted(finished);
      }
      if finished.error.Some? {
        return Failed(finished.error.value);
      }
      if finished.deferred {
        decodeErrorSynced := true;
        return Failed(Protocol);
      }
      r := Finished(finished);
    }

    /** What a response that was read to its ReadyForQuery amounts to. */
    static function Verdict(p: Progress<V>): Outcome<V> {
      if p.streaming && p.told.failed then SinkAborted(p)
      else if p.error.Some? then Failed(p.error.value)
      else if p.deferred then Failed(Protocol)
      else Finished(p)
    }

    /** The response was read to its ReadyForQuery. */
    ghost predicate EndsAtReady(r: Outcome<V>, synced: bool) {
      r.Finished? || r.SinkAborted? || r.error.Database? || synced
    }

    /** How an outcome follows from the bytes of the response. Only a transport failure, or a timeout, can make a
        difference between two ways of receiving the same bytes. */
    static ghost predicate Means(r: Outcome<V>, synced: bool, ending: Ending<V>, rest: seq<byte>, clean: bool) {
      || (!clean && !synced && (r == Failed(Timeout) || r == Failed(Io)))
      || match ending
         case Complete(p, left) =>
           && rest == left
           && r == Verdict(p)
           && synced == (!(p.streaming && p.told.failed) && p.error.None? && p.deferred)
         case Faulty => !synced && r == Failed(Protocol)
         case Cut => !synced && r == Failed(Closed)
         case Foreign => !synced && r == Failed(Unsupported)
    }

    /** The rest of the response, from `b` with `q`, is the rest from `a` with `p`. */
    ghost predicate Continues(q: Progress<V>, b: seq<byte>, p: Progress<V>, a: seq<byte>)
      requires Coherent(p)
    {
      Coherent(q) && |b| <= |a| && Response(env, q, b) == Response(env, p, a)
    }

    /** The message at the front of `h` is a binary row, and `parse` is what the reader makes of it. */
    ghost predicate RowAt(p: Progress<V>, h: seq<byte>, parse: RowParse<V>) {
      && p.descriptor.Some?
      && h != [] && h[0] == ROW_STANDARD && HeadFrame(h).Frame? && HeadFrame(h).message.Row?
      && parse == EagerRow(env.codec, p.descriptor.value, HeadFrame(h).message.payload)
      && !parse.BadLayout?
    }

    /** Cancels between two points of a response: one at most. */
    static function Sent(before: Progress<V>, after: Progress<V>): nat {
      if after.told.cancelSent && !before.told.cancelSent then 1 else 0
    }

    lemma ErrorMeans(e: NzError, ending: Ending<V>, rest: seq<byte>, clean: bool)
      requires Reports(e, ending, clean)
      ensures Means(Failed(if IsCommandTimeout(e) then Timeout else e), false, ending, rest, clean)
      ensures !EndsAtReady(Failed(if IsCommandTimeout(e) then Timeout else e), false)
    {
    }

    lemma HeadCut(p: Progress<V>, h: seq<byte>)
      requires Coherent(p) && h != [] && h[0] == ROW_STANDARD
      ensures |h| < 5 ==> Response(env, p, h) == Cut
    {
    }

    lemma HeadUndescribed(p: Progress<V>, h: seq<byte>)
      requires Coherent(p) && |h| >= 5 && h[0] == ROW_STANDARD && p.descriptor.None?
      ensures Response(env, p, h) == Faulty
    {
    }

    lemma HeadRow(p: Progress<V>, h: seq<byte>)
      requires Coherent(p) && p.descriptor.Some? && |h| >= 5 && h[0] == ROW_STANDARD
      ensures HeadFrame(h) == NeedMore ==> Response(env, p, h) == Cut
      ensures HeadFrame(h) == Refused ==> Response(env, p, h) == Faulty
      ensures HeadFrame(h).Frame? && HeadFrame(h).message.Row? ==>
                EagerRow(env.codec, p.descriptor.value, HeadFrame(h).message.payload).BadLayout? ==>
                  Response(env, p, h) == Faulty
    {
      assert SkipNuls(h) == h;
    }

    lemma RowStep(p: Progress<V>, h: seq<byte>, parse: RowParse<V>)
      requires Coherent(p) && RowAt(p, h, parse)
      ensures Reaches(h, HeadFrame(h).rest) && NextFrame(h) == HeadFrame(h)
      ensures match OnBinaryRow(env, p, parse)
              case None => Response(env, p, h) == Faulty
              case Some(q) => Response(env, p, h) == Response(env, q, HeadFrame(h).rest)
    {
      assert SkipNuls(h) == h;
    }

    /** The front of a message that is no binary row, in terms of what follows its type byte and header. */
    lemma HeadMessage(p: Progress<V>, h: seq<byte>)
      requires Coherent(p) && h != [] && h[0] != 0 && h[0] != ROW_STANDARD && !External(h[0])
      ensures |h| < 5 ==> Response(env, p, h) == Cut
      ensures |h| >= 5 && IsReady(h[0]) ==> Response(env, p, h) == Complete(FinishSet(env, p), h[5..])
    {
      assert SkipNuls(h) == h;
    }

    lemma HeadControl(p: Progress<V>, h: seq<byte>)
      requires Coherent(p) && |h| >= 5 && IsControl(h[0])
      ensures Response(env, p, h) == Response(env, p, h[5..]) && Reaches(h, h[5..])
    {
      assert SkipNuls(h) == h;
      assert HeadFrame(h) == Frame(Control(h[0]), h[5..]);
    }

    lemma HeadBody(p: Progress<V>, h: seq<byte>)
      requires Coherent(p) && |h| >= 5 && h[0] != 0 && h[0] != ROW_STANDARD && !External(h[0])
      ensures HeadFrame(h) == NeedMore ==> Response(env, p, h) == Cut
      ensures HeadFrame(h) == Refused ==> Response(env, p, h) == Faulty
    {
      assert SkipNuls(h) == h;
    }

    lemma TaggedStep(p: Progress<V>, h: seq<byte>)
      requires Coherent(p) && h != [] && h[0] != 0 && HeadFrame(h).Frame? && HeadFrame(h).message.Tagged?
      ensures Reaches(h, HeadFrame(h).rest)
      ensures match Step(env, p, HeadFrame(h).message)
              case None => Response(env, p, h) == Faulty
              case Some(q) => Response(env, p, h) == Response(env, q, HeadFrame(h).rest)
    {
      assert SkipNuls(h) == h;
    }

    lemma EmptyIsCut(p: Progress<V>, b: seq<byte>)
      requires Coherent(p)
      ensures SkipNuls(b) == [] ==> Response(env, p, b) == Cut
    {
    }

    lemma PaddingIsSkipped(p: Progress<V>, b: seq<byte>, h: seq<byte>)
      requires Coherent(p) && SkipNuls(b) == h && h != []
      ensures SkipNuls(h) == h && h[0] != 0
      ensures Response(env, p, h) == Response(env, p, b)
      ensures External(h[0]) ==> Response(env, p, b) == Foreign
    {
      assert h[0] != 0;
    }

    // -- Resynchronisation -------------------------------------------------------------------

    /** `wait_buffered`: until `n` bytes are buffered, the deadline passes, or the stream fails. */
    method WaitBuffered(n: nat) returns (ok: bool)
      requires Valid()
      modifies buffer, buffer.buf, stream
      ensures Valid() && (buffer.buf == old(buffer.buf) || fresh(buffer.buf))
      ensures old(Clean(stream.script)) ==> Clean(stream.script)
      ensures Rest() == old(Rest())
      ensures ok ==> |buffer.Unread()| >= n
    {
      while true
        invariant Valid() && (buffer.buf == old(buffer.buf) || fresh(buffer.buf))
        invariant old(Clean(stream.script)) ==> Clean(stream.script)
        invariant Rest() == old(Rest())
        decreases Remaining(stream.script)
      {
        var _ := buffer.PullAvailable(stream);
        var available := buffer.Available();
        if available >= n {
          return true;
        }
        var expired: bool := *;
        if expired {
          return false;
        }
        var ready := buffer.EnsureData(stream, if available + 1 <= n then available + 1 else n);
        if ready.Err? && ready.error != IoTimeout {
          return false;
        }
      }
    }

    /** The header of a binary row in `drain_orphaned`, behind its type byte. */
    method OrphanRowHeader(ghost w: seq<byte>) returns (r: Result<()>, n: int)
      requires Valid() && w == [ROW_STANDARD] + Rest() && |buffer.Unread()| >= 4
      modifies buffer, buffer.buf, stream
      ensures Valid() && (buffer.buf == old(buffer.buf) || fresh(buffer.buf))
      ensures old(Clean(stream.script)) ==> Clean(stream.script)
      ensures r.Ok? ==> |w| >= 13 && n == BigI32(w, 9) && Rest() == w[13..]
      ensures r.Err? ==> r.error == Protocol
    {
      n := 0;
      r := buffer.Skip(stream, 4);
      if r.Err? {
        return;
      }
      assert Rest() == w[5..];
      var ready := WaitBuffered(8);
      if !ready {
        return Err(Protocol), 0;
      }
      var header := buffer.ReadBytes(stream, 8);
      r := header.Unit();
      if header.Ok? {
        assert Rest() == w[5..][8..] == w[13..];
        n := BigI32(header.value, 4);
      }
    }

    /** A binary row of `drain_orphaned`, behind its type byte. */
    method OrphanRow(ghost w: seq<byte>) returns (r: Result<()>)
      requires Valid() && w == [ROW_STANDARD] + Rest() && |buffer.Unread()| >= 4
      modifies buffer, buffer.buf, stream
      ensures Valid() && (buffer.buf == old(buffer.buf) || fresh(buffer.buf))
      ensures old(Clean(stream.script)) ==> Clean(stream.script)
      ensures r.Ok? ==> OrphanFrame(w) == OrphanStep.Skip(Rest())
      ensures r.Err? ==> r.error == Protocol
    {
      var n: int;
      r, n := OrphanRowHeader(w);
      if r.Err? {
        return;
      }
      if !ValidLength(n, false) {
        return Err(Protocol);
      }
      var ready := WaitBuffered(8 + n);
      if !ready {
        return Err(Protocol);
      }
      r := buffer.Skip(stream, 8 + n);
      if r.Ok? {
        SliceOfDrop(w, 13, 8 + n, 8 + n);
      }
    }

    /** A length-prefixed message of `drain_orphaned`, behind its header. */
    method OrphanBody(ghost w: seq<byte>) returns (r: Result<()>)
      requires Valid() && |w| >= 5 && Rest() == w[5..]
      requires w[0] != 0 && w[0] != ROW_STANDARD && !IsReady(w[0])
      requires w[0] != EMPTY_QUERY_RESPONSE && w[0] != CONTROL_ZERO && w[0] != CONTROL_A
      modifies buffer, buffer.buf, stream
      ensures Valid() && (buffer.buf == old(buffer.buf) || fresh(buffer.buf))
      ensures old(Clean(stream.script)) ==> Clean(stream.script)
      ensures r.Ok? ==> OrphanFrame(w) == OrphanStep.Skip(Rest())
      ensures r.Err? ==> r.error == Protocol
    {
      var ready := WaitBuffered(4);
      if !ready {
        return Err(Protocol);
      }
      var len := buffer.ReadI32(stream);
      r := len.Unit();
      if r.Err? {
        return;
      }
      assert Rest() == w[5..][4..] == w[9..];
      assert len.value == BigI32(w, 5);
      if !ValidLength(len.value, true) {
        return Err(Protocol);
      }
      if len.value == 0 {
        return Ok(());
      }
      ready := WaitBuffered(len.value);
      if !ready {
        return Err(Protocol);
      }
      r := buffer.Skip(stream, len.value);
      if r.Ok? {
        SliceOfDrop(w, 9, len.value, len.value);
      }
    }

    /** One turn of the loop in `drain_orphaned`. */
    method OrphanTurn() returns (r: Result<()>, done: bool)
      requires Valid()
      modifies buffer, buffer.buf, stream
      ensures Valid() && (buffer.buf == old(buffer.buf) || fresh(buffer.buf))
      ensures old(Clean(stream.script)) ==> Clean(stream.script)
      ensures r.Ok? && !done ==> OrphanFrame(old(Rest())) == OrphanStep.Skip(Rest())
      ensures r.Ok? && done ==>
                && OrphanFrame(old(Rest())).Synced?
                && SkipNuls(Rest()) == SkipNuls(OrphanFrame(old(Rest())).rest)
      ensures r.Err? ==> r.error == Protocol
    {
      ghost var w := Rest();
      done := false;
      var ready := WaitBuffered(1);
      if !ready {
        return Err(Protocol), false;
      }
      var t := buffer.ReadByte(stream);
      r := t.Unit();
      if r.Err? {
        return;
      }
      assert w == [t.value] + Rest() && w[1..] == Rest();
      if t.value == 0 {
        return Ok(()), false;
      }
      ready := WaitBuffered(4);
      if !ready {
        return Err(Protocol), false;
      }
      if t.value == ROW_STANDARD {
        r := OrphanRow(w);
        return;
      }
      r := buffer.Skip(stream, 4);
      if r.Err? {
        return;
      }
      assert Rest() == w[5..];
      if IsReady(t.value) {
        DiscardBufferedNuls();
        return Ok(()), true;
      }
      if t.value == EMPTY_QUERY_RESPONSE || t.value == CONTROL_ZERO || t.value == CONTROL_A {
        return Ok(()), false;
      }
      r := OrphanBody(w);
    }

    /** `discard_leading_nulls` on the connection's buffer. */
    method DiscardBufferedNuls()
      requires Valid()
      modifies buffer
      ensures Valid() && buffer.buf == old(buffer.buf)
      ensures SkipNuls(Rest()) == SkipNuls(old(Rest()))
      ensures AllNul(old(buffer.Unread())) ==> buffer.Unread() == []
    {
      ghost var w, unread := Rest(), buffer.Unread();
      var n := buffer.DiscardLeadingNulls();
      assert w[..n] == unread[..n] && w[n..] == Rest();
      NulCountIsPadding(w, n);
      SkipNulsTwice(w, n);
    }

    /** `drain_orphaned`. */
    method DrainOrphaned() returns (r: Result<()>)
      requires Valid()
      modifies buffer, buffer.buf, stream
      ensures Valid() && (buffer.buf == old(buffer.buf) || fresh(buffer.buf))
      ensures old(Clean(stream.script)) ==> Clean(stream.script)
      ensures r.Ok? ==>
                && AfterOrphan(old(Rest())).Some?
                && SkipNuls(Rest()) == SkipNuls(AfterOrphan(old(Rest())).value)
      ensures r.Err? ==> r.error == Protocol
    {
      while true
        invariant Valid() && (buffer.buf == old(buffer.buf) || fresh(buffer.buf))
        invariant old(Clean(stream.script)) ==> Clean(stream.script)
        invariant AfterOrphan(Rest()) == AfterOrphan(old(Rest()))
        decreases |Rest()|
      {
        var done;
        r, done := OrphanTurn();
        if r.Err? || done {
          return;
        }
      }
    }

    /** `ensure_protocol_synced`: before a command, whatever an abandoned response left is consumed up to its
        ReadyForQuery. Without such a leftover nothing but padding is. */
    method EnsureProtocolSynced() returns (r: Result<()>)
      requires Valid()
      modifies this`protocolSyncRequired, buffer, buffer.buf, stream
      ensures Valid() && (buffer.buf == old(buffer.buf) || fresh(buffer.buf))
      ensures old(Clean(stream.script)) ==> Clean(stream.script)
      ensures r.Ok? ==> !protocolSyncRequired
      ensures r.Ok? ==>
                || (!old(protocolSyncRequired) && SkipNuls(Rest()) == SkipNuls(old(Rest())))
                || (&& AfterOrphan(old(Rest())).Some?
                    && SkipNuls(Rest()) == SkipNuls(AfterOrphan(old(Rest())).value))
      ensures r.Err? ==> r.error == Protocol && protocolSyncRequired == old(protocolSyncRequired)
      ensures !old(protocolSyncRequired) && SkipNuls(old(Rest())) == [] ==> r.Ok?
    {
      ghost var w := Rest();
      var mustWait := protocolSyncRequired;
      var _ := buffer.PullAvailable(stream);
      var available := buffer.Available();
      if available == 0 && !mustWait {
        return Ok(());
      }
      OrphanSkipsAllNuls(w);
      BlankPrefix(buffer.Unread(), w);
      DiscardBufferedNuls();
      OrphanSkipsAllNuls(Rest());
      available := buffer.Available();
      if available == 0 && !mustWait {
        return Ok(());
      }
      r := DrainOrphaned();
      if r.Ok? {
        protocolSyncRequired := false;
      }
    }

    lemma BlankPrefix(a: seq<byte>, b: seq<byte>)
      requires a <= b
      ensures SkipNuls(b) == [] ==> AllNul(a)
    {
      SkipNulsIsDrop(b);
      NulCountIsPadding(b, |b|);
      assert b[..|b|] == b;
    }

    // -- Commands ------------------------------------------------------------------------------

    /** Nothing but padding is left of what the server sent, or the session knows that it abandoned a response and
        `drain_orphaned` will not stop inside it. */
    ghost predicate AtBoundary()
      reads this, buffer, buffer.buf, stream
      requires buffer.Valid()
    {
      if protocolSyncRequired then Orphaned(Rest()) else SkipNuls(Rest()) == []
    }

    /** Between commands a connected session is aligned. */
    ghost predicate Aligned()
      reads this, buffer, buffer.buf, stream
      requires buffer.Valid()
    {
      !decodeErrorSynced && (connected ==> AtBoundary())
    }

    /** The flag never hides a transaction that the server still has open. */
    ghost predicate TransactionTracked()
      reads this
    {
      connected && serverInTransaction ==> inTransaction
    }

    /** The server answers a command with at most one response, without external-table messages, and reports an error
        unless every statement was executed. */
    ghost predicate Answers(c: Command) {
      var ending := Meaning(c);
      && (forall i :: 0 <= i < |c.reply| && c.reply[i].Data? ==> c.reply[i].bytes != [])
      && SingleResponse(Wire(c.reply)) && !ending.Foreign?
      && c.executed <= |c.Batch()|
      && (ending.Complete? && ending.progress.error.None? ==> c.executed == |c.Batch()|)
    }

    /** The command's own response. */
    ghost function Meaning(c: Command): Ending<V> {
      Response(env, Begin(c.streaming), Wire(c.reply))
    }

    /** How a response is reported when nothing fails on the way. */
    static ghost function Report(ending: Ending<V>): Outcome<V> {
      match ending
      case Complete(p, _) => Verdict(p)
      case Faulty => Failed(Protocol)
      case Cut => Failed(Closed)
      case Foreign => Failed(Unsupported)
    }

    /** An outcome that carries results, or an error of the server, reports the command's own response. */
    ghost predicate OwnAnswer(c: Command, r: Outcome<V>) {
      r.Finished? || r.SinkAborted? || r.error.Database? ==> r == Report(Meaning(c))
    }

    /** `send_query_packet`: first the leftovers of an abandoned response, then the packet. What the server sends
        because of it follows on the stream. */
    method Send(c: Command) returns (r: Result<()>)
      requires Valid() && Answers(c)
      modifies this`protocolSyncRequired, buffer, buffer.buf, stream
      ensures Valid() && (buffer.buf == old(buffer.buf) || fresh(buffer.buf))
      ensures old(Clean(stream.script)) && Clean(c.reply) ==> Clean(stream.script)
      ensures r.Ok? ==> c.write.Written?
      ensures r.Err? ==>
                || r.error == Protocol
                || (r.error == Timeout && c.write.WriteTimedOut?)
                || (r.error == IoTimeout && c.write.FlushTimedOut?)
                || (r.error == Io && c.write.WriteFailed?)
      ensures r != Err(Protocol) ==> !protocolSyncRequired
      ensures r != Err(Protocol) && old(AtBoundary()) ==> SkipNuls(Rest()) == SkipNuls(Wire(c.reply))
      ensures old(!protocolSyncRequired && AtBoundary()) ==> r != Err(Protocol)
    {
      r := EnsureProtocolSynced();
      if r.Err? {
        return;
      }
      BlankIsOrphaned(old(Rest()));
      Append(c.reply);
      match c.write
      case Written => return Ok(());
      case WriteTimedOut => return Err(Timeout);
      case FlushTimedOut => return Err(IoTimeout);
      case WriteFailed => return Err(Io);
    }

    /** What the server sends arrives behind everything it sent before. */
    method Append(reply: seq<ReadEvent>)
      requires Valid() && forall i :: 0 <= i < |reply| && reply[i].Data? ==> reply[i].bytes != []
      modifies stream
      ensures Valid() && Rest() == old(Rest()) + Wire(reply)
      ensures old(Clean(stream.script)) && Clean(reply) ==> Clean(stream.script)
      ensures SkipNuls(old(Rest())) == [] ==> SkipNuls(Rest()) == SkipNuls(Wire(reply))
    {
      WireConcat(stream.script, reply);
      PaddingBefore(Rest(), Wire(reply));
      stream.script := stream.script + reply;
    }

    lemma BlankIsOrphaned(b: seq<byte>)
      ensures SkipNuls(b) == [] ==> Orphaned(b)
    {
      if SkipNuls(b) == [] {
        PaddingIsRecoverable(b);
      }
    }

    lemma {:induction false} PaddingBefore(left: seq<byte>, b: seq<byte>)
      ensures SkipNuls(left) == [] ==> SkipNuls(left + b) == SkipNuls(b)
    {
      if left == [] {
        assert left + b == b;
      } else if left[0] == 0 {
        PaddingBefore(left[1..], b);
        assert (left + b)[1..] == left[1..] + b;
      }
    }

    /** `restore_tx_on_error`. */
    method RestoreTxOnError(sql: string, prev: bool)
      modifies this`inTransaction
      ensures inTransaction == Restored(prev, Statements.Batch(sql))
    {
      var state, hadStart := Statements.ParseTransactionState(sql);
      match state
      case Some(open) => inTransaction := if open then true else prev || hadStart;
      case None => inTransaction := prev;
    }

    /** The stream when a response is over: at its end, at a boundary of an abandoned one, or nowhere known. */
    ghost predicate Left(c: Command, r: Outcome<V>)
      reads this, buffer, buffer.buf, stream
      requires buffer.Valid()
    {
      if EndsAtReady(r, decodeErrorSynced) then
        connected && !protocolSyncRequired && SkipNuls(Rest()) == [] && (decodeErrorSynced ==> r.Failed?)
      else
        && !decodeErrorSynced
        && r.error in {Protocol, Closed, Io, Timeout}
        && (r.error == Timeout && connected && Recoverable(Wire(c.reply)) ==> AtBoundary())
    }

    method Receive(c: Command) returns (r: Outcome<V>)
      requires Valid() && connected && Answers(c)
      modifies this`cancels, this`protocolSyncRequired, this`frameInProgress, this`connected, this`protocolFaulted
      modifies this`decodeErrorSynced, buffer, buffer.buf, stream
      ensures Valid() && (buffer.buf == old(buffer.buf) || fresh(buffer.buf))
      ensures SkipNuls(old(Rest())) == SkipNuls(Wire(c.reply)) ==>
                && OwnAnswer(c, r) && Left(c, r) && r != Failed(IoTimeout)
                && (old(Clean(stream.script)) ==> r == Report(Meaning(c)))
    {
      ghost var w := Rest();
      r := DrainResponse(c.streaming);
      if SkipNuls(w) == SkipNuls(Wire(c.reply)) {
        CommandSettles(c, w, r, decodeErrorSynced, Rest(), old(Clean(stream.script)));
        AbandonedTail(Wire(c.reply), w, Rest());
      }
    }

    /** The command's response, once its packet is out. */
    method Conclude(c: Command, prev: bool) returns (r: Outcome<V>)
      requires Valid() && connected && Answers(c)
      modifies this`cancels, this`protocolSyncRequired, this`frameInProgress, this`connected, this`protocolFaulted
      modifies this`decodeErrorSynced, this`inTransaction, buffer, buffer.buf, stream
      ensures Valid() && (buffer.buf == old(buffer.buf) || fresh(buffer.buf))
      ensures inTransaction == if r.Finished? then old(inTransaction) else Restored(prev, c.Batch())
      ensures SkipNuls(old(Rest())) == SkipNuls(Wire(c.reply)) ==>
                && OwnAnswer(c, r) && r != Failed(IoTimeout)
                && (old(Clean(stream.script)) ==> r == Report(Meaning(c)))
                && (Aligned() || (r == Failed(Timeout) && !Recoverable(Wire(c.reply))))
    {
      hide Orphaned, SkipNuls, Recoverable, Restored, Meaning;
      r := Receive(c);
      if !r.Finished? {
        RestoreTxOnError(c.sql, prev);
      }
      if r.Failed? {
        MarkFaultedAfter(r.error);
      }
    }

    /** The packet could not be sent: `run_batch_with_duration` puts the flag back; a write timeout is handled like a
        read timeout, because the server may hold part of the packet. */
    method OnSendError(e: NzError, prev: bool)
      modifies this`cancels, this`protocolSyncRequired, this`connected, this`protocolFaulted, this`decodeErrorSynced
      modifies this`inTransaction
      ensures inTransaction == prev && !decodeErrorSynced
      ensures protocolSyncRequired == (old(protocolSyncRequired) || IsCommandTimeout(e))
      ensures connected == (old(connected) && (old(decodeErrorSynced) || !(e == Protocol || e == Closed || e == Io)))
    {
      inTransaction := prev;
      if IsCommandTimeout(e) {
        protocolSyncRequired := true;
        Cancel();
      }
      MarkFaultedAfter(e);
    }

    /** The sending half of a command. The flag is settled before the packet leaves. */
    method Issue(c: Command) returns (r: Result<()>)
      requires Valid() && connected && Answers(c)
      modifies this`cancels, this`protocolSyncRequired, this`connected, this`protocolFaulted, this`decodeErrorSynced
      modifies this`inTransaction, buffer, buffer.buf, stream
      ensures Valid() && (buffer.buf == old(buffer.buf) || fresh(buffer.buf))
      ensures old(Clean(stream.script)) && Clean(c.reply) ==> Clean(stream.script)
      ensures r.Ok? ==> connected && inTransaction == Pending(old(inTransaction), c.Batch())
      ensures r.Ok? && old(AtBoundary()) ==> SkipNuls(Rest()) == SkipNuls(Wire(c.reply))
      ensures r.Err? ==> inTransaction == old(inTransaction) && r.error in {Protocol, Timeout, IoTimeout, Io}
      ensures r == Err(IoTimeout) ==> c.write.FlushTimedOut?
      ensures r.Err? && old(Aligned()) ==> Aligned() || (IsCommandTimeout(r.error) && !Recoverable(Wire(c.reply)))
      ensures r.Err? && connected && old(!decodeErrorSynced) ==> IsCommandTimeout(r.error)
      ensures old(!protocolSyncRequired && AtBoundary()) && c.write.Written? ==> r.Ok?
    {
      var prev := inTransaction;
      var state, _ := Statements.ParseTransactionState(c.sql);
      if state.Some? {
        inTransaction := state.value;
      }
      r := Send(c);
      if r.Err? {
        OnSendError(r.error, prev);
        if SkipNuls(Rest()) == SkipNuls(Wire(c.reply)) {
          AbandonedTail(Wire(c.reply), Rest(), Rest());
        }
      }
    }

    /** `run_batch_with_duration` and `run_batch_stream_with_duration`. From an aligned session a command gets its own
        answer and leaves an aligned session, unless it times out in a response that `drain_orphaned` cannot read. */
    method RunBatch(c: Command) returns (r: Outcome<V>)
      requires Valid() && Answers(c)
      modifies this, buffer, buffer.buf, stream
      ensures Valid() && (buffer.buf == old(buffer.buf) || fresh(buffer.buf))
      ensures '\0' in c.sql ==> r == Failed(Config)
      ensures '\0' !in c.sql && old(protocolFaulted) ==> r == Failed(Protocol)
      ensures '\0' !in c.sql && old(!protocolFaulted && !connected) ==> r == Failed(Closed)
      ensures old(Aligned()) ==>
                && OwnAnswer(c, r)
                && (Aligned() || (TimedOut(r) && !Recoverable(Wire(c.reply))))
      ensures old(Aligned() && connected && !protocolFaulted && !protocolSyncRequired && Clean(stream.script))
              && Clean(c.reply) && c.write.Written? && '\0' !in c.sql
              ==> r == Report(Meaning(c))
      ensures old(Aligned() && TransactionTracked()) && !Hides(c, r, old(inTransaction)) ==> TransactionTracked()
      ensures r == Failed(IoTimeout) && old(Aligned()) ==>
                && c.write.FlushTimedOut? && inTransaction == old(inTransaction)
                && serverInTransaction == Execute(old(serverInTransaction), c.Batch()[..c.executed])
      ensures old(Aligned() && inTransaction == serverInTransaction) && r.Finished? ==>
                inTransaction == serverInTransaction
    {
      hide Orphaned, SkipNuls, Recoverable, Execute, Restored, Meaning, LastBoundary;
      if '\0' in c.sql {
        return Failed(Config);
      }
      if protocolFaulted {
        return Failed(Protocol);
      }
      if !connected {
        return Failed(Closed);
      }
      var prev := inTransaction;
      var sent := Issue(c);
      if sent.Err? {
        if sent.error == IoTimeout || sent.error == Io {
          serverInTransaction := Execute(serverInTransaction, c.Batch()[..c.executed]);
          FlushSettles(c, old(serverInTransaction), prev);
        }
        return Failed(sent.error);
      }
      serverInTransaction := Execute(serverInTransaction, c.Batch()[..c.executed]);
      r := Conclude(c, prev);
      TransactionSettles(c, old(serverInTransaction), prev, r);
    }

    /** The flush of the packet timed out, and the flag that was put back may hide a transaction of the batch. */
    static predicate Hides(c: Command, r: Outcome<V>, prev: bool) {
      r == Failed(IoTimeout) && !prev && Opens in c.Batch()
    }

    static predicate TimedOut(r: Outcome<V>) {
      r.Failed? && IsCommandTimeout(r.error)
    }

    lemma FlushSettles(c: Command, open: bool, prev: bool)
      requires Answers(c)
      ensures (open ==> prev) && Execute(open, c.Batch()[..c.executed]) ==> prev || Opens in c.Batch()
    {
      PutBackIsSound(prev, c.Batch());
      assert Execute(open, c.Batch()[..c.executed]) && !prev && !open ==> Exposes(prev, c.Batch(), open, c.executed);
    }

    lemma TransactionSettles(c: Command, open: bool, prev: bool, r: Outcome<V>)
      requires Answers(c)
      ensures OwnAnswer(c, r) && r.Finished? ==>
                Execute(open, c.Batch()[..c.executed]) == LastBoundary(c.Batch()).GetOr(open)
      ensures (open ==> prev) ==> (Execute(open, c.Batch()[..c.executed]) ==> Restored(prev, c.Batch()))
    {
      if OwnAnswer(c, r) && r.Finished? {
        assert c.Batch()[..c.executed] == c.Batch();
        ExecuteIsLastBoundary(open, c.Batch());
      }
      if open ==> prev {
        RestoredIsSound(open, prev, c.Batch(), c.executed);
      }
    }

    /** No command of the run so far timed out in a response that `drain_orphaned` cannot read. */
    static ghost predicate Recovered(commands: seq<Command>, outcomes: seq<Outcome<V>>)
      requires |outcomes| <= |commands|
    {
      forall i :: 0 <= i < |outcomes| && TimedOut(outcomes[i]) ==> Recoverable(Wire(commands[i].reply))
    }

    /** All messages of the responses that timed out are such that `drain_orphaned` finds the next one. */
    static ghost predicate SafelyTimedOut(commands: seq<Command>, outcomes: seq<Outcome<V>>)
      requires |outcomes| <= |commands|
    {
      forall i :: 0 <= i < |outcomes| && TimedOut(outcomes[i]) ==> OrphanSafe(Wire(commands[i].reply))
    }

    static predicate NothingHidden(commands: seq<Command>, outcomes: seq<Outcome<V>>)
      requires |outcomes| <= |commands|
    {
      forall i :: 0 <= i < |outcomes| && outcomes[i] == Failed(IoTimeout) ==> Opens !in commands[i].Batch()
    }

    /** Whole runs: no command ever gets the answer of another one, and the session stays aligned and its
        transaction flag sound, over any mixture of successes, errors, aborted sinks and timeouts; the flag only if no
        batch that opens a transaction had its flush timed out. */
    method RunCommands(commands: seq<Command>) returns (outcomes: seq<Outcome<V>>)
      requires Valid() && Aligned() && TransactionTracked()
      requires forall i :: 0 <= i < |commands| ==> Answers(commands[i])
      modifies this, buffer, buffer.buf, stream
      ensures Valid() && |outcomes| == |commands|
      ensures Recovered(commands, outcomes) ==>
                && Aligned() && (NothingHidden(commands, outcomes) ==> TransactionTracked())
                && forall i :: 0 <= i < |commands| ==> OwnAnswer(commands[i], outcomes[i])
      ensures SafelyTimedOut(commands, outcomes) ==> Recovered(commands, outcomes)
    {
      hide Orphaned, SkipNuls, Recoverable, Recovered, NothingHidden, SafelyTimedOut, OwnAnswer, Answers;
      outcomes := [];
      for k := 0 to |commands|
        invariant Valid() && (buffer.buf == old(buffer.buf) || fresh(buffer.buf))
        invariant |outcomes| == k
        invariant Recovered(commands, outcomes) ==>
                    && Aligned() && (NothingHidden(commands, outcomes) ==> TransactionTracked())
                    && forall i :: 0 <= i < k ==> OwnAnswer(commands[i], outcomes[i])
      {
        ghost var earlier := outcomes;
        var r := RunBatch(commands[k]);
        outcomes := outcomes + [r];
        RecoveredSoFar(commands, earlier, r);
      }
      SafeIsRecovered(commands, outcomes);
    }

    lemma SafeIsRecovered(commands: seq<Command>, outcomes: seq<Outcome<V>>)
      requires |outcomes| == |commands| && forall i :: 0 <= i < |commands| ==> Answers(commands[i])
      ensures SafelyTimedOut(commands, outcomes) ==> Recovered(commands, outcomes)
    {
      forall i | SafelyTimedOut(commands, outcomes) && 0 <= i < |outcomes| && TimedOut(outcomes[i])
        ensures Recoverable(Wire(commands[i].reply))
      {
        SafeIsRecoverable(Wire(commands[i].reply));
      }
    }

    lemma RecoveredSoFar(commands: seq<Command>, outcomes: seq<Outcome<V>>, r: Outcome<V>)
      requires |outcomes| < |commands|
      ensures NothingHidden(commands, outcomes + [r]) ==>
                && NothingHidden(commands, outcomes)
                && (r == Failed(IoTimeout) ==> Opens !in commands[|outcomes|].Batch())
      ensures Recovered(commands, outcomes + [r]) ==>
                && Recovered(commands, outcomes)
                && (TimedOut(r) ==> Recoverable(Wire(commands[|outcomes|].reply)))
    {
      var longer := outcomes + [r];
      assert forall i :: 0 <= i < |outcomes| ==> longer[i] == outcomes[i];
      assert longer[|outcomes|] == r;
    }

    /** Chunking independence: however the same bytes are split into reads, a response gives the same outcome, and
        the same unread rest when it is read to its end. */
    static method DrainTwoWays(a: NzConnection<V>, b: NzConnection<V>, streaming: bool)
      returns (ra: Outcome<V>, rb: Outcome<V>)
      requires a.Valid() && b.Valid() && a.connected && b.connected && a.env == b.env
      requires {a, a.buffer, a.buffer.buf, a.stream} !! {b, b.buffer, b.buffer.buf, b.stream}
      requires a.Rest() == b.Rest() && Clean(a.stream.script) && Clean(b.stream.script)
      modifies a, a.buffer, a.buffer.buf, a.stream, b, b.buffer, b.buffer.buf, b.stream
      ensures a.Valid() && b.Valid() && ra == rb && a.decodeErrorSynced == b.decodeErrorSynced
      ensures a.EndsAtReady(ra, a.decodeErrorSynced) ==> a.Rest() == b.Rest()
    {
      ra := a.DrainResponse(streaming);
      rb := b.DrainResponse(streaming);
    }

    /** A command that is read to ReadyForQuery leaves padding; one that is not ends in an error that retires the
        session, or in a timeout. */
    lemma CommandSettles(c: Command, w: seq<byte>, r: Outcome<V>, synced: bool, rest: seq<byte>, clean: bool)
      requires Answers(c) && SkipNuls(w) == SkipNuls(Wire(c.reply))
      requires Means(r, synced, Response(env, Begin(c.streaming), w), rest, clean)
      ensures OwnAnswer(c, r) && (clean ==> r == Report(Meaning(c))) && r != Failed(IoTimeout)
      ensures EndsAtReady(r, synced) ==> SkipNuls(rest) == [] && (synced ==> r.Failed?)
      ensures !EndsAtReady(r, synced) ==> !synced && r.error in {Protocol, Closed, Io, Timeout}
    {
      SamePadding(Begin(c.streaming), w, Wire(c.reply));
      if Meaning(c).Complete? {
        ResponseEndsAtReady(env, Begin(c.streaming), Wire(c.reply));
      }
    }

    lemma {:induction false} AbandonedTail(reply: seq<byte>, w: seq<byte>, rest: seq<byte>)
      requires SkipNuls(w) == SkipNuls(reply)
      ensures Recoverable(reply) && Reaches(w, rest) ==> Orphaned(rest)
    {
      if Recoverable(reply) && Reaches(w, rest) {
        ReachesTransitive(reply, w, rest);
        RecoverableAlong(reply, rest);
      }
    }

    /** Only what follows the padding counts. */
    lemma SamePadding(p: Progress<V>, a: seq<byte>, b: seq<byte>)
      requires Coherent(p)
      ensures SkipNuls(a) == SkipNuls(b) ==> Response(env, p, a) == Response(env, p, b)
    {
    }
  }
}

/** Where backend messages begin and end. `NextFrame` is the framing of the response loop
    (`drain_response_with_sink`), `OrphanFrame` the separately written framing of `drain_orphaned`, both in
    src/connection.rs. External-table messages are not part of this model. */
module Framing {
  import opened Bytes

  const ROW_STANDARD: byte := 89 // 'Y'
  const READY_FOR_QUERY: byte := 90 // 'Z'
  const READY_FOR_QUERY_ALT: byte := 0x4c // 'L'
  const CONTROL_ZERO: byte := 0x30
  const CONTROL_A: byte := 0x41
  const EMPTY_QUERY_RESPONSE: byte := 73 // 'I'
  const COMMAND_COMPLETE: byte := 67 // 'C'
  const ERROR_RESPONSE: byte := 69 // 'E'
  const NOTICE_RESPONSE: byte := 78 // 'N'
  const ROW_DESCRIPTION: byte := 84 // 'T'
  const DATA_ROW: byte := 68 // 'D'
  const ROW_DESCRIPTION_STANDARD: byte := 88 // 'X'
  const EXT_CANCEL: byte := 120 // 'x'

  /** Export start, export data, import and log: `u`, `U`, `l`, `e`. */
  predicate External(t: byte) {
    t == 117 || t == 85 || t == 108 || t == 101
  }

  predicate IsReady(t: byte) {
    t == READY_FOR_QUERY || t == READY_FOR_QUERY_ALT
  }

  /** Messages without a length: the type byte and four more bytes. */
  predicate IsControl(t: byte) {
    t == CONTROL_ZERO || t == CONTROL_A || t == EXT_CANCEL
  }

  datatype Message = Row(payload: seq<byte>) | Ready | Control(kind: byte) | Tagged(kind: byte, payload: seq<byte>)

  /** What the front of a byte string is; a whole message comes with the bytes behind it. */
  datatype Framed = NeedMore | Refused | Unmodelled | Frame(message: Message, rest: seq<byte>)

  /** Length of the zero padding at the front. */
  function NulCount(b: seq<byte>): (n: nat)
    ensures n <= |b|
    ensures n < |b| ==> b[n] != 0
  {
    if b != [] && b[0] == 0 then 1 + NulCount(b[1..]) else 0
  }

  function SkipNuls(b: seq<byte>): (r: seq<byte>)
    ensures |r| <= |b|
    ensures r != [] ==> r[0] != 0
  {
    if b != [] && b[0] == 0 then SkipNuls(b[1..]) else b
  }

  lemma {:induction false} SkipNulsIsDrop(b: seq<byte>)
    ensures SkipNuls(b) == b[NulCount(b)..]
  {
    if b != [] && b[0] == 0 {
      SkipNulsIsDrop(b[1..]);
    }
  }

  lemma {:induction false} SkipNulsTwice(b: seq<byte>, n: nat)
    requires n <= NulCount(b)
    ensures SkipNuls(b[n..]) == SkipNuls(b)
  {
    if n > 0 {
      SkipNulsTwice(b[1..], n - 1);
      assert b[1..][n - 1..] == b[n..];
    } else {
      assert b[0..] == b;
    }
  }

  lemma {:induction false} NulCountIsPadding(b: seq<byte>, n: nat)
    requires n <= |b|
    ensures n <= NulCount(b) <==> AllNul(b[..n])
  {
    if n > 0 {
      assert b[..n][0] == b[0];
      if b[0] == 0 {
        NulCountIsPadding(b[1..], n - 1);
        assert b[1..][..n - 1] == b[..n][1..];
        assert b[..n] == [b[0]] + b[..n][1..];
      }
    }
  }

  /** The message at the front of `b`, whose first byte is its type. */
  function HeadFrame(b: seq<byte>): (f: Framed)
    requires b != []
    ensures f.Frame? ==> |f.rest| + 5 <= |b|
  {
    var t := b[0];
    if External(t) then Unmodelled
    else if t == ROW_STANDARD then
      if |b| < 13 then NeedMore
      else
        var n := BigI32(b, 9);
        if !ValidLength(n, false) then Refused
        else if |b| < 13 + n then NeedMore
        else Frame(Row(b[13..13 + n]), b[13 + n..])
    else if |b| < 5 then NeedMore
    else if IsReady(t) then Frame(Ready, b[5..])
    else if IsControl(t) then Frame(Control(t), b[5..])
    else if |b| < 9 then NeedMore
    else
      var n := BigI32(b, 5);
      if !ValidLength(n, true) then Refused
      else if |b| < 9 + n then NeedMore
      else Frame(Tagged(t, b[9..9 + n]), b[9 + n..])
  }

  /** The next message, after any zero padding. */
  function NextFrame(b: seq<byte>): (f: Framed)
    ensures f.Frame? ==> |f.rest| + 5 <= |b|
  {
    var h := SkipNuls(b);
    if h == [] then NeedMore else HeadFrame(h)
  }

  /** What follows the first ReadyForQuery, as the response loop frames messages. */
  function AfterResponse(b: seq<byte>): (r: Option<seq<byte>>)
    ensures r.Some? ==> |r.value| < |b|
    decreases |b|
  {
    match NextFrame(b)
    case Frame(m, rest) => if m.Ready? then Some(rest) else AfterResponse(rest)
    case _ => None
  }

  /** `after` is what is left of `before` once some padding and whole messages, none of them ReadyForQuery, are
      gone. */
  ghost predicate Reaches(before: seq<byte>, after: seq<byte>)
    decreases |before|
  {
    || SkipNuls(before) == SkipNuls(after)
    || (&& NextFrame(before).Frame?
        && !NextFrame(before).message.Ready?
        && Reaches(NextFrame(before).rest, after))
  }

  /** What is left of a response at a message boundary ends at the same ReadyForQuery. */
  lemma {:induction false} ReachesKeepsResponse(before: seq<byte>, after: seq<byte>)
    requires Reaches(before, after)
    ensures AfterResponse(after) == AfterResponse(before)
    decreases |before|
  {
    if SkipNuls(before) != SkipNuls(after) {
      ReachesKeepsResponse(NextFrame(before).rest, after);
    }
  }

  lemma {:induction false} ReachesFurther(before: seq<byte>, mid: seq<byte>, after: seq<byte>)
    requires Reaches(before, mid)
    requires SkipNuls(mid) == SkipNuls(after)
             || (&& NextFrame(mid).Frame? && !NextFrame(mid).message.Ready?
                 && SkipNuls(NextFrame(mid).rest) == SkipNuls(after))
    ensures Reaches(before, after)
    decreases |before|
  {
    if SkipNuls(before) != SkipNuls(mid) {
      ReachesFurther(NextFrame(before).rest, mid, after);
    }
  }

  lemma {:induction false} ReachesTransitive(a: seq<byte>, b: seq<byte>, c: seq<byte>)
    requires Reaches(a, b) && Reaches(b, c)
    ensures Reaches(a, c)
    decreases |a|
  {
    if SkipNuls(a) != SkipNuls(b) {
      ReachesTransitive(NextFrame(a).rest, b, c);
    }
  }

  /** A binary row frame in terms of what follows its type byte and header. */
  lemma RowFrame(h: seq<byte>)
    requires |h| >= 5 && h[0] == ROW_STANDARD
    ensures NextFrame(h) == HeadFrame(h)
    ensures var w := h[5..];
            if |w| < 8 then HeadFrame(h) == NeedMore
            else
              var n := BigI32(w, 4);
              if !ValidLength(n, false) then HeadFrame(h) == Refused
              else if |w| < 8 + n then HeadFrame(h) == NeedMore
              else HeadFrame(h) == Frame(Row(w[8..8 + n]), w[8 + n..])
  {
    var w := h[5..];
    if |w| >= 8 {
      var n := BigI32(w, 4);
      assert n == BigI32(h, 9);
      if n >= 0 && |w| >= 8 + n {
        SliceOfDrop(h, 5, 8, 8 + n);
        SliceOfDrop(h, 5, 8 + n, 8 + n);
      }
    }
  }

  /** The same, read in two steps: eight bytes with the length, then the payload. */
  lemma RowFrameSteps(h: seq<byte>)
    requires |h| >= 5 && h[0] == ROW_STANDARD
    ensures |h[5..]| < 8 ==> HeadFrame(h) == NeedMore
    ensures |h[5..]| >= 8 && !ValidLength(BigI32(h[5..], 4), false) ==> HeadFrame(h) == Refused
    ensures |h[5..]| >= 8 && ValidLength(BigI32(h[5..], 4), false) ==>
              var n, w := BigI32(h[5..], 4), h[5..][8..];
              HeadFrame(h) == if |w| < n then NeedMore else Frame(Row(w[..n]), w[n..])
  {
    RowFrame(h);
    var w := h[5..];
    if |w| >= 8 && ValidLength(BigI32(w, 4), false) && |w| >= 8 + BigI32(w, 4) {
      SliceOfDrop(w, 8, 0, BigI32(w, 4));
      SliceOfDrop(w, 8, BigI32(w, 4), BigI32(w, 4));
      assert w[8..][..BigI32(w, 4)] == w[8..][0..BigI32(w, 4)];
    }
  }

  /** A length-prefixed frame in terms of what follows its type byte and header. */
  lemma BodyFrame(h: seq<byte>)
    requires |h| >= 5 && h[0] != 0 && h[0] != ROW_STANDARD
    requires !External(h[0]) && !IsReady(h[0]) && !IsControl(h[0])
    ensures NextFrame(h) == HeadFrame(h)
    ensures var w := h[5..];
            if |w| < 4 then HeadFrame(h) == NeedMore
            else
              var n := BigI32(w, 0);
              if !ValidLength(n, true) then HeadFrame(h) == Refused
              else if |w| < 4 + n then HeadFrame(h) == NeedMore
              else HeadFrame(h) == Frame(Tagged(h[0], w[4..4 + n]), w[4 + n..])
  {
    var w := h[5..];
    if |w| >= 4 {
      var n := BigI32(w, 0);
      assert n == BigI32(h, 5);
      if n >= 0 && |w| >= 4 + n {
        SliceOfDrop(h, 5, 4, 4 + n);
        SliceOfDrop(h, 5, 4 + n, 4 + n);
      }
    }
  }

  // -- The framing of drain_orphaned ---------------------------------------------------

  datatype OrphanStep = Wait | Invalid | Skip(rest: seq<byte>) | Synced(rest: seq<byte>)

  /** One turn of the loop in `drain_orphaned`. */
  function OrphanFrame(b: seq<byte>): (s: OrphanStep)
    ensures s.Skip? || s.Synced? ==> |s.rest| < |b|
  {
    if b == [] then Wait
    else if b[0] == 0 then Skip(b[1..])
    else if |b| < 5 then Wait
    else if b[0] == ROW_STANDARD then
      if |b| < 13 then Wait
      else if !ValidLength(BigI32(b, 9), false) || 8 + BigI32(b, 9) > MAX_PROTOCOL_PAYLOAD then Invalid
      else if |b| < 13 + 8 + BigI32(b, 9) then Wait
      else Skip(b[13 + 8 + BigI32(b, 9)..])
    else if IsReady(b[0]) then Synced(b[5..])
    else if b[0] == EMPTY_QUERY_RESPONSE || b[0] == CONTROL_ZERO || b[0] == CONTROL_A then Skip(b[5..])
    else if |b| < 9 then Wait
    else if !ValidLength(BigI32(b, 5), true) then Invalid
    else if |b| < 9 + BigI32(b, 5) then Wait
    else Skip(b[9 + BigI32(b, 5)..])
  }

  /** What is left when `drain_orphaned` reports the session synchronised. */
  function AfterOrphan(b: seq<byte>): (r: Option<seq<byte>>)
    decreases |b|
  {
    match OrphanFrame(b)
    case Synced(rest) => Some(rest)
    case Skip(rest) => AfterOrphan(rest)
    case _ => None
  }

  /** The responses whose message boundaries `drain_orphaned` keeps: all messages are safe. In particular those without
      binary rows, external-table cancels and empty-query messages. */
  predicate OrphanSafe(b: seq<byte>)
    decreases |b|
  {
    match NextFrame(b)
    case Frame(m, rest) => m.Ready? || (SafeMessage(m, rest) && OrphanSafe(rest))
    case _ => false
  }

  /** `drain_orphaned` skips eight bytes more than a binary row has, and refuses the row if that passes the payload cap;
      it reads a length behind an external-table cancel, which has none; and it reads none for an empty-query message,
      which has one. All other messages are safe. */
  predicate SafeMessage(m: Message, rest: seq<byte>) {
    match m
    case Ready => true
    case Row(payload) => NulCount(rest) >= 8 && |payload| + 8 <= MAX_PROTOCOL_PAYLOAD
    case Control(kind) => kind == EXT_CANCEL ==> NulCount(rest) >= 4
    case Tagged(kind, payload) => kind == EMPTY_QUERY_RESPONSE ==> payload == []
  }

  lemma {:induction false} OrphanSkipsNuls(b: seq<byte>, n: nat)
    requires n <= NulCount(b)
    ensures AfterOrphan(b) == AfterOrphan(b[n..])
  {
    if n == 0 {
      assert b[0..] == b;
    } else {
      assert b[1..][n - 1..] == b[n..];
      OrphanSkipsNuls(b[1..], n - 1);
    }
  }

  lemma {:induction false} OrphanSkipsAllNuls(b: seq<byte>)
    ensures AfterOrphan(b) == AfterOrphan(SkipNuls(b))
  {
    if b != [] && b[0] == 0 {
      OrphanSkipsAllNuls(b[1..]);
    }
  }

  /** A length word is four bytes of padding just when it is zero. */
  lemma {:induction false} ZeroWord(b: seq<byte>)
    requires |b| >= 9
    ensures NulCount(b[5..]) >= 4 <==> BigI32(b, 5) == 0
  {
    NulCountIsPadding(b[5..], 4);
    assert b[5..][..4] == [b[5], b[6], b[7], b[8]];
  }

  /** Dropping bytes keeps what follows the padding just when the bytes are padding. */
  lemma {:induction false} OnlyPaddingDrops(b: seq<byte>, n: nat)
    requires n <= |b|
    ensures SkipNuls(b[n..]) == SkipNuls(b) <==> n <= NulCount(b)
  {
    SkipNulsIsDrop(b);
    if n <= NulCount(b) {
      SkipNulsTwice(b, n);
    }
  }

  /** The step of `drain_orphaned` from the message at the front of `h` comes to the response loop's boundary. */
  predicate StepsTogether(h: seq<byte>)
    requires h != [] && HeadFrame(h).Frame?
  {
    OrphanFrame(h).Skip? && SkipNuls(OrphanFrame(h).rest) == SkipNuls(HeadFrame(h).rest)
  }

  lemma {:induction false} OrphanRowExact(h: seq<byte>)
    requires h != [] && HeadFrame(h).Frame? && HeadFrame(h).message.Row?
    ensures SafeMessage(HeadFrame(h).message, HeadFrame(h).rest) <==> StepsTogether(h)
  {
    var rest, n := HeadFrame(h).rest, BigI32(h, 9);
    if |rest| >= 8 {
      OnlyPaddingDrops(rest, 8);
      assert h[13 + 8 + n..] == rest[8..];
    }
  }

  lemma {:induction false} OrphanControlExact(h: seq<byte>)
    requires h != [] && HeadFrame(h).Frame? && HeadFrame(h).message.Control?
    ensures SafeMessage(HeadFrame(h).message, HeadFrame(h).rest) <==> StepsTogether(h)
  {
    hide SkipNuls, NulCount;
    if h[0] == EXT_CANCEL && |h| >= 9 {
      var n := BigI32(h, 5);
      ZeroWord(h);
      if 0 <= n && |h| >= 9 + n {
        OnlyPaddingDrops(h[5..], 4 + n);
        assert h[9 + n..] == h[5..][4 + n..];
      }
    }
  }

  lemma {:induction false} OrphanTaggedExact(h: seq<byte>)
    requires h != [] && h[0] != 0 && HeadFrame(h).Frame? && HeadFrame(h).message.Tagged?
    ensures SafeMessage(HeadFrame(h).message, HeadFrame(h).rest) <==> StepsTogether(h)
  {
    var n := BigI32(h, 5);
    if h[0] == EMPTY_QUERY_RESPONSE {
      ZeroWord(h);
      OnlyPaddingDrops(h[5..], 4 + n);
      assert h[9 + n..] == h[5..][4 + n..];
    }
  }

  /** `drain_orphaned` comes to the response loop's next message boundary from a safe message, and from no other. */
  lemma {:induction false} OrphanStepExact(h: seq<byte>)
    requires h != [] && h[0] != 0 && HeadFrame(h).Frame? && !HeadFrame(h).message.Ready?
    ensures SafeMessage(HeadFrame(h).message, HeadFrame(h).rest) <==> StepsTogether(h)
  {
    match HeadFrame(h).message
    case Row(_) => OrphanRowExact(h);
    case Control(_) => OrphanControlExact(h);
    case Tagged(_, _) => OrphanTaggedExact(h);
  }

  /** `drain_orphaned` passes through every message boundary of the response loop, up to ReadyForQuery. */
  ghost predicate OrphanKeepsBoundaries(b: seq<byte>)
    decreases |b|
  {
    match NextFrame(b)
    case Frame(m, rest) =>
      || m.Ready?
      || (StepsTogether(SkipNuls(b)) && OrphanKeepsBoundaries(rest))
    case _ => false
  }

  /** Which responses `drain_orphaned` reads message by message: exactly the orphan-safe ones. */
  lemma {:induction false} OrphanSafeIsExact(b: seq<byte>)
    ensures OrphanKeepsBoundaries(b) <==> OrphanSafe(b)
    decreases |b|
  {
    var f := NextFrame(b);
    if f.Frame? && !f.message.Ready? {
      OrphanStepExact(SkipNuls(b));
      OrphanSafeIsExact(f.rest);
    }
  }

  lemma {:induction false} OrphanStepsOver(h: seq<byte>)
    requires h != [] && h[0] != 0 && HeadFrame(h).Frame? && !HeadFrame(h).message.Ready?
    requires SafeMessage(HeadFrame(h).message, HeadFrame(h).rest)
    ensures AfterOrphan(h) == AfterOrphan(HeadFrame(h).rest)
  {
    OrphanStepExact(h);
    OrphanSkipsAllNuls(OrphanFrame(h).rest);
    OrphanSkipsAllNuls(HeadFrame(h).rest);
  }

  /** Resynchronisation is exact: on an orphan-safe response `drain_orphaned` stops at the ReadyForQuery where the
      response loop would have stopped. */
  lemma {:induction false} OrphanAgrees(b: seq<byte>)
    requires OrphanSafe(b)
    ensures AfterOrphan(b) == AfterResponse(b)
    decreases |b|
  {
    var h := SkipNuls(b);
    OrphanSkipsAllNuls(b);
    if !HeadFrame(h).message.Ready? {
      OrphanStepsOver(h);
      OrphanAgrees(HeadFrame(h).rest);
    }
  }

  // -- Abandoned responses ----------------------------------------------------------------

  /** Everything behind the ReadyForQuery of `b`, if it has one, is padding. */
  predicate SingleResponse(b: seq<byte>) {
    AfterResponse(b).Some? ==> SkipNuls(AfterResponse(b).value) == []
  }

  /** Where `drain_orphaned` finds an end of `b`, nothing but padding is behind it. */
  predicate Orphaned(b: seq<byte>) {
    AfterOrphan(b).Some? ==> SkipNuls(AfterOrphan(b).value) == []
  }

  /** The same from every message boundary of `b`: wherever the response is abandoned, `drain_orphaned` does not stop
      inside it. */
  predicate Recoverable(b: seq<byte>)
    decreases |b|
  {
    && Orphaned(b)
    && (NextFrame(b).Frame? && !NextFrame(b).message.Ready? ==> Recoverable(NextFrame(b).rest))
  }

  lemma {:induction false} PaddingIsRecoverable(b: seq<byte>)
    requires SkipNuls(b) == []
    ensures Recoverable(b) && SingleResponse(b)
  {
    OrphanSkipsAllNuls(b);
  }

  /** A complete orphan-safe response can be abandoned anywhere. */
  lemma {:induction false} SafeIsRecoverable(b: seq<byte>)
    requires OrphanSafe(b) && SingleResponse(b)
    ensures Recoverable(b)
    decreases |b|
  {
    OrphanAgrees(b);
    if !NextFrame(b).message.Ready? {
      SafeIsRecoverable(NextFrame(b).rest);
    }
  }

  lemma {:induction false} RecoverableAlong(before: seq<byte>, after: seq<byte>)
    requires Recoverable(before) && Reaches(before, after)
    ensures Orphaned(after)
    decreases |before|
  {
    if SkipNuls(before) == SkipNuls(after) {
      OrphanSkipsAllNuls(before);
      OrphanSkipsAllNuls(after);
    } else {
      RecoverableAlong(NextFrame(before).rest, after);
    }
  }

  /** Where a complete response is not recoverable, the cause is a message that is not safe. */
  lemma {:induction false} UnrecoverableIsUnsafe(b: seq<byte>)
    requires AfterResponse(b).Some? && SingleResponse(b) && !Recoverable(b)
    ensures exists at :: Reaches(b, at) && UnsafeAt(at)
  {
    if OrphanSafe(b) {
      SafeIsRecoverable(b);
    } else {
      UnsafeSomewhere(b);
    }
  }

  /** The message at the front of `b` is not safe. */
  predicate UnsafeAt(b: seq<byte>) {
    NextFrame(b).Frame? && !SafeMessage(NextFrame(b).message, NextFrame(b).rest)
  }

  lemma {:induction false} UnsafeSomewhere(b: seq<byte>)
    requires AfterResponse(b).Some? && !OrphanSafe(b)
    ensures exists at :: Reaches(b, at) && UnsafeAt(at)
    decreases |b|
  {
    if UnsafeAt(b) {
      assert Reaches(b, b);
    } else {
      UnsafeSomewhere(NextFrame(b).rest);
      var at :| Reaches(NextFrame(b).rest, at) && UnsafeAt(at);
      assert Reaches(b, at);
    }
  }

  // -- Where it is not ------------------------------------------------------------------

  /** Safe messages, then a binary row, then ReadyForQuery with at most two bytes behind its type and header. */
  predicate RowBeforeReady(b: seq<byte>)
    decreases |b|
  {
    match NextFrame(b)
    case Frame(m, rest) =>
      if m.Row? then NextFrame(rest).Frame? && NextFrame(rest).message.Ready? && |rest| < 8
      else !m.Ready? && SafeMessage(m, rest) && RowBeforeReady(rest)
    case _ => false
  }

  /** The row header is counted twice: after any such response `drain_orphaned` waits for bytes the server has no
      reason to send, although the response is complete. */
  lemma {:induction false} OrphanStarves(b: seq<byte>)
    requires RowBeforeReady(b)
    ensures AfterResponse(b).Some? && AfterOrphan(b) == None
    decreases |b|
  {
    var h := SkipNuls(b);
    OrphanSkipsAllNuls(b);
    if !HeadFrame(h).message.Row? {
      OrphanStepsOver(h);
      OrphanStarves(HeadFrame(h).rest);
    }
  }

  /** Worse: when the message after a binary row has a 90-byte payload, the double count makes `drain_orphaned` take
      the low byte of that length for a ReadyForQuery. It reports the session synchronised inside the message, four
      bytes into its payload. */
  lemma {:induction false} OrphanStopsInsideMessage(row: seq<byte>, b: seq<byte>)
    requires |row| >= 13 && row[0] == ROW_STANDARD && HeadFrame(row) == Frame(Row(row[13..]), [])
    requires |row| - 5 <= MAX_PROTOCOL_PAYLOAD
    requires b != [] && b[0] != 0 && HeadFrame(b).Frame? && HeadFrame(b).message.Tagged?
    requires |HeadFrame(b).message.payload| == 90
    ensures NextFrame(row + b) == Frame(Row(row[13..]), b)
    ensures AfterOrphan(row + b) == Some(b[13..])
    ensures AfterResponse(row + b) == AfterResponse(HeadFrame(b).rest)
    ensures |AfterOrphan(row + b).value| > |HeadFrame(b).rest|
  {
    var w := row + b;
    assert BigI32(w, 9) == BigI32(row, 9) == |row| - 13;
    assert w[13..13 + |row| - 13] == row[13..] && w[|row|..] == b;
    assert BigI32(b, 5) == 90;
    assert b[5] == 0 && b[6] == 0 && b[7] == 0 && b[8] == 90;
    assert w[13 + 8 + (|row| - 13)..] == b[8..];
    assert b[8..][5..] == b[13..];
  }

  /** An empty-query message with a 90-byte payload has the same effect, because its length is not read. */
  lemma {:induction false} OrphanStopsInsideEmptyQuery(b: seq<byte>)
    requires b != [] && b[0] == EMPTY_QUERY_RESPONSE
    requires HeadFrame(b).Frame? && |HeadFrame(b).message.payload| == 90
    ensures AfterOrphan(b) == Some(b[13..])
    ensures AfterResponse(b) == AfterResponse(HeadFrame(b).rest)
    ensures |AfterOrphan(b).value| > |HeadFrame(b).rest|
  {
    assert BigI32(b, 5) == 90;
    assert b[5] == 0 && b[6] == 0 && b[7] == 0 && b[8] == 90;
    assert AllNul(b[5..][..3]);
    NulCountIsPadding(b[5..], 3);
    OrphanSkipsNuls(b[5..], 3);
    assert b[5..][3..] == b[8..] && b[8..][5..] == b[13..];
  }

  /** An external-table cancel has no length, but `drain_orphaned` reads one: the next message, when no padding is in
      front of it, is taken for a length beyond the payload cap, and resynchronisation fails. */
  lemma OrphanRefusesCancel(b: seq<byte>)
    requires |b| >= 9 && b[0] == EXT_CANCEL && b[5] != 0
    ensures NextFrame(b) == Frame(Control(EXT_CANCEL), b[5..]) && AfterResponse(b) == AfterResponse(b[5..])
    ensures AfterOrphan(b) == None
  {
  }
}

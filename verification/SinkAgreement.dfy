/** The buffered and the streaming sink see the same response (src/connection.rs, the two halves of
    `drain_response_with_sink`), and a failing sink is left alone. */
module SinkAgreement {
  import opened Bytes
  import opened TupleDesc
  import opened Rows
  import opened Framing
  import opened Responses

  ghost predicate NeverFails<V(!new)>(env: Env<V>) {
    forall calls :: env.sink(calls)
  }

  /** The rows a sink was given for set `index`, in order. */
  function RowsOf<V>(calls: seq<Callback<V>>, index: nat): seq<seq<V>> {
    if calls == [] then []
    else
      var last := calls[|calls| - 1];
      RowsOf(calls[..|calls| - 1], index)
      + (if last.OnValues? && last.index == index then [last.values] else [])
  }

  lemma RowsOfAppend<V>(calls: seq<Callback<V>>, c: Callback<V>, index: nat)
    ensures RowsOf(calls + [c], index) ==
            RowsOf(calls, index) + (if c.OnValues? && c.index == index then [c.values] else [])
  {
    assert (calls + [c])[..|calls|] == calls;
  }

  /** Set `index`, put together again from the callbacks and the stream summary. */
  function Rebuilt<V>(q: Progress<V>, index: nat): ResultSet<V>
    requires index < |q.streamSets|
  {
    ResultSet(q.streamSets[index].columns, RowsOf(q.told.calls, index), q.streamSets[index].nullability)
  }

  /** Whether the buffered result has a set for stream set `index`: it needs a row, or columns from a text
      description. A set opened by a binary description alone, and never given a row, is a phantom. */
  predicate Kept<V>(q: Progress<V>, text: seq<bool>, index: nat)
    requires index < |q.streamSets| == |text|
  {
    q.streamSets[index].rowCount > 0 || (text[index] && q.streamSets[index].columns != [])
  }

  /** The sets among the first `n` that are no phantoms. */
  function Rebuild<V>(q: Progress<V>, text: seq<bool>, n: nat): seq<ResultSet<V>>
    requires n <= |q.streamSets| == |text|
  {
    if n == 0 then []
    else Rebuild(q, text, n - 1) + (if Kept(q, text, n - 1) then [Rebuilt(q, n - 1)] else [])
  }

  lemma {:induction false} RebuildFrame<V>(q: Progress<V>, r: Progress<V>, text: seq<bool>, more: seq<bool>, n: nat)
    requires |q.streamSets| == |text| && |r.streamSets| == |more| && n <= |text| && n <= |more|
    requires forall j :: 0 <= j < n ==> q.streamSets[j] == r.streamSets[j] && text[j] == more[j]
    requires forall j :: 0 <= j < n ==> RowsOf(q.told.calls, j) == RowsOf(r.told.calls, j)
    ensures Rebuild(q, text, n) == Rebuild(r, more, n)
  {
    if n > 0 {
      RebuildFrame(q, r, text, more, n - 1);
    }
  }

  /** All the columns the buffered loop keeps are the cached description: no column count can mismatch. */
  ghost predicate OneDescription<V>(p: Progress<V>) {
    && (p.descriptor.Some? ==> p.cached.Some?)
    && (p.current.Some? ==> p.cached == Some(p.current.value.columns))
    && (p.rowColumns.Some? ==> p.cached == p.rowColumns)
    && (p.rowMetadata.Some? ==> p.cached == p.rowMetadata)
  }

  ghost predicate SameResponse<V>(p: Progress<V>, q: Progress<V>) {
    && p.cached == q.cached && p.descriptor == q.descriptor && p.nullability == q.nullability
    && p.rowsAffected == q.rowsAffected && p.notices == q.notices
    && p.error == q.error && p.deferred == q.deferred
  }

  ghost predicate CallsFit<V>(q: Progress<V>) {
    && (forall j :: 0 <= j < |q.streamSets| ==> |RowsOf(q.told.calls, j)| == q.streamSets[j].rowCount)
    && (forall j :: |q.streamSets| <= j ==> RowsOf(q.told.calls, j) == [])
  }

  /** The open set on both sides. */
  ghost predicate OpenAgrees<V>(p: Progress<V>, q: Progress<V>, text: seq<bool>)
    requires |q.streamSets| == |text|
  {
    if q.currentIndex.None? then p.current.None? && p.sets == Rebuild(q, text, |text|)
    else
      && var k := q.currentIndex.value;
      && k + 1 == |text|
      && p.sets == Rebuild(q, text, k)
      && match p.current
         case Some(open) => open == Rebuilt(q, k) && (text[k] || q.streamSets[k].rowCount > 0)
         case None =>
           && !text[k] && q.streamSets[k].rowCount == 0
           && Some(q.streamSets[k].columns) == q.cached && q.streamSets[k].nullability == q.nullability
  }

  ghost predicate Agree<V>(p: Progress<V>, q: Progress<V>, text: seq<bool>) {
    && Coherent(p) && Coherent(q)
    && !p.streaming && q.streaming && q.current.None? && !q.told.failed
    && OneDescription(p) && SameResponse(p, q) && CallsFit(q)
    && |text| == |q.streamSets|
    && OpenAgrees(p, q, text)
  }

  /** Marks which stream sets a text description opened. */
  function Mark(text: seq<bool>, sets: nat, m: Message): seq<bool> {
    if sets > |text| then text + [m.Tagged? && m.kind == ROW_DESCRIPTION] else text
  }

  // -- Steps ----------------------------------------------------------------------------

  /** A callback other than a row changes nothing the agreement looks at. */
  lemma CallKeeps<V(!new)>(env: Env<V>, p: Progress<V>, q: Progress<V>, text: seq<bool>, c: Callback<V>)
    requires NeverFails(env) && Agree(p, q, text) && !c.OnValues?
    ensures Agree(p, Call(env, q, c), text)
  {
    var r := Call(env, q, c);
    forall j: nat
      ensures RowsOf(r.told.calls, j) == RowsOf(q.told.calls, j)
    {
      RowsOfAppend(q.told.calls, c, j);
    }
    RebuildFrame(q, r, text, text, if q.currentIndex.Some? then q.currentIndex.value else |text|);
  }

  lemma MarkKeeps<V(!new)>(p: Progress<V>, q: Progress<V>, text: seq<bool>, sent: seq<bool>)
    requires Agree(p, q, text) && |sent| == |q.columnsSent|
    ensures Agree(p, q.(columnsSent := sent), text)
  {
    RebuildFrame(q, q.(columnsSent := sent), text, text, if q.currentIndex.Some? then q.currentIndex.value else |text|);
  }

  lemma EmitColumnsKeeps<V(!new)>(env: Env<V>, p: Progress<V>, q: Progress<V>, text: seq<bool>, index: nat)
    requires NeverFails(env) && Agree(p, q, text) && index < |q.streamSets|
    ensures Agree(p, EmitColumns(env, q, index), text)
  {
    var marked := q.(columnsSent := q.columnsSent[index := true]);
    MarkKeeps(p, q, text, marked.columnsSent);
    CallKeeps(env, p, marked, text, OnColumns(index, q.streamSets[index].columns, q.streamSets[index].nullability));
  }

  lemma CloseSets<V(!new)>(p: Progress<V>, q: Progress<V>, text: seq<bool>)
    requires Agree(p, q, text) && q.currentIndex.Some?
    ensures FlushCurrent(p).sets == Rebuild(q, text, |text|)
  {
    var k := q.currentIndex.value;
    assert |RowsOf(q.told.calls, k)| == q.streamSets[k].rowCount;
  }

  lemma CloseKeeps<V(!new)>(p: Progress<V>, q: Progress<V>, text: seq<bool>)
    requires Agree(p, q, text) && q.currentIndex.Some?
    ensures Agree(FlushCurrent(p), q.(currentIndex := None), text)
  {
    CloseSets(p, q, text);
    RebuildFrame(q, q.(currentIndex := None), text, text, |text|);
  }

  /** Closing the open set on both sides. */
  lemma FinishKeeps<V(!new)>(env: Env<V>, p: Progress<V>, q: Progress<V>, text: seq<bool>)
    requires NeverFails(env) && Agree(p, q, text)
    ensures Agree(FlushCurrent(p), FinishStreamSet(env, q), text)
  {
    if q.currentIndex.Some? {
      EmitColumnsKeeps(env, p, q, text, q.currentIndex.value);
      CloseKeeps(p, EmitColumns(env, q, q.currentIndex.value), text);
    }
  }

  /** A set opened by a row or by a binary description is a phantom until it has a row. */
  lemma EnsureKeeps<V(!new)>(p: Progress<V>, q: Progress<V>, text: seq<bool>)
    requires Agree(p, q, text) && p.cached.Some? && q.currentIndex.None?
    ensures Agree(p, EnsureStreamSet(q, p.cached.value, q.nullability), text + [false])
  {
    RebuildFrame(q, EnsureStreamSet(q, p.cached.value, q.nullability), text, text + [false], |text|);
  }

  /** The open set gets a row on both sides. */
  lemma RowKeeps<V(!new)>(env: Env<V>, p: Progress<V>, q: Progress<V>, text: seq<bool>, values: seq<V>)
    requires NeverFails(env) && Agree(p, q, text) && q.currentIndex.Some? && p.cached.Some?
    ensures var pushed := PushExistingRow(p.(rowMetadata := p.cached), p.cached.value, values);
            pushed.Some? && Agree(pushed.value, EmitRow(env, q, values), text)
  {
    var k := q.currentIndex.value;
    EmitColumnsKeeps(env, p, q, text, k);
    RowAlone(p, EmitColumns(env, q, k), text, values);
    EmitRowIs(env, q, values);
  }

  lemma EmitRowIs<V(!new)>(env: Env<V>, q: Progress<V>, values: seq<V>)
    requires NeverFails(env) && Coherent(q) && q.currentIndex.Some? && !q.told.failed
    ensures var k := q.currentIndex.value;
            var e := EmitColumns(env, q, k);
            && !e.told.failed
            && EmitRow(env, q, values) ==
               e.(told := e.told.(calls := e.told.calls + [OnValues(k, values)]),
                  streamSets := e.streamSets[k := e.streamSets[k].(rowCount := e.streamSets[k].rowCount + 1)])
  {
  }

  lemma RowAlone<V(!new)>(p: Progress<V>, q: Progress<V>, text: seq<bool>, values: seq<V>)
    requires Agree(p, q, text) && q.currentIndex.Some? && p.cached.Some?
    ensures var k := q.currentIndex.value;
            var pushed := PushExistingRow(p.(rowMetadata := p.cached), p.cached.value, values);
            && pushed.Some?
            && Agree(pushed.value,
                     q.(told := q.told.(calls := q.told.calls + [OnValues(k, values)]),
                        streamSets := q.streamSets[k := q.streamSets[k].(rowCount := q.streamSets[k].rowCount + 1)]),
                     text)
  {
    var k := q.currentIndex.value;
    var r := q.(told := q.told.(calls := q.told.calls + [OnValues(k, values)]),
                streamSets := q.streamSets[k := q.streamSets[k].(rowCount := q.streamSets[k].rowCount + 1)]);
    forall j: nat
      ensures RowsOf(r.told.calls, j) == RowsOf(q.told.calls, j) + (if j == k then [values] else [])
    {
      RowsOfAppend(q.told.calls, OnValues(k, values), j);
    }
    RebuildFrame(q, r, text, text, k);
    assert p.current.None? ==> RowsOf(q.told.calls, k) == [];
  }

  lemma ValuesRowKeeps<V(!new)>(env: Env<V>, p: Progress<V>, q: Progress<V>, text: seq<bool>, values: seq<V>)
    requires NeverFails(env) && Agree(p, q, text) && p.cached.Some?
    ensures var a := OnValuesRow(env, p, p.cached.value, values);
            var b := OnValuesRow(env, q, p.cached.value, values);
            && a.Some? && b.Some?
            && Agree(a.value, b.value, Mark(text, |b.value.streamSets|, Row([])))
  {
    var marked := if q.currentIndex.None? then text + [false] else text;
    if q.currentIndex.None? {
      EnsureKeeps(p, q, text);
    }
    RowKeeps(env, p, EnsureStreamSet(q, p.cached.value, q.nullability), marked, values);
  }

  lemma DataRowKeeps<V(!new)>(env: Env<V>, p: Progress<V>, q: Progress<V>, text: seq<bool>, payload: seq<byte>)
    requires NeverFails(env) && Agree(p, q, text)
    ensures OnDataRow(env, p, payload).Some? <==> OnDataRow(env, q, payload).Some?
    ensures OnDataRow(env, p, payload).Some? ==>
              var b := OnDataRow(env, q, payload).value;
              Agree(OnDataRow(env, p, payload).value, b, Mark(text, |b.streamSets|, Tagged(DATA_ROW, payload)))
  {
    assert TextColumns(p) == TextColumns(q) == p.cached;
    if p.cached.Some? {
      match env.textRow(payload, p.cached.value)
      case BadFrame =>
      case BadValue => DeferKeeps(p, q, text);
      case TextRow(values) => ValuesRowKeeps(env, p, q, text, values);
    }
  }

  lemma DeferKeeps<V(!new)>(p: Progress<V>, q: Progress<V>, text: seq<bool>)
    requires Agree(p, q, text)
    ensures Agree(p.(deferred := true), q.(deferred := true), text)
  {
    RebuildFrame(q, q.(deferred := true), text, text, if q.currentIndex.Some? then q.currentIndex.value else |text|);
  }

  lemma BinaryRowKeeps<V(!new)>(env: Env<V>, p: Progress<V>, q: Progress<V>, text: seq<bool>,
                                parse: RowParse<V>, m: Message)
    requires NeverFails(env) && Agree(p, q, text) && p.descriptor.Some? && m.Row?
    ensures OnBinaryRow(env, p, parse).Some? <==> OnBinaryRow(env, q, parse).Some?
    ensures OnBinaryRow(env, p, parse).Some? ==>
              var b := OnBinaryRow(env, q, parse).value;
              Agree(OnBinaryRow(env, p, parse).value, b, Mark(text, |b.streamSets|, m))
  {
    match parse
    case BadLayout =>
    case BadField => DeferKeeps(p, q, text);
    case Values(values) => ValuesRowKeeps(env, p, q, text, values);
  }

  lemma NoCancel<V>(before: Told<V>, q: Progress<V>)
    requires !q.told.failed
    ensures CancelIfAborted(before, q) == q
  {
  }

  lemma CloseCommandKeeps<V(!new)>(env: Env<V>, p: Progress<V>, q: Progress<V>, text: seq<bool>, tag: string, n: int)
    requires NeverFails(env) && Agree(p, q, text)
    ensures Agree(CloseCommand(env, p, tag, n), CloseCommand(env, q, tag, n), text)
  {
    FinishKeeps(env, p, q, text);
    var a, b := FlushCurrent(p), FinishStreamSet(env, q);
    NoCancel(q.told, b);
    MetadataKeeps(a, b, text);
    CallKeeps(env, a.(rowMetadata := None), b, text, OnCommandComplete(tag, n));
    NoCancel(b.told, Call(env, b, OnCommandComplete(tag, n)));
  }

  lemma MetadataKeeps<V(!new)>(p: Progress<V>, q: Progress<V>, text: seq<bool>)
    requires Agree(p, q, text)
    ensures Agree(p.(rowMetadata := None), q, text)
  {
  }

  lemma AffectedKeeps<V(!new)>(p: Progress<V>, q: Progress<V>, text: seq<bool>, n: int)
    requires Agree(p, q, text)
    ensures Agree(CountAffected(p, n), CountAffected(q, n), text)
  {
    RebuildFrame(q, CountAffected(q, n), text, text, if q.currentIndex.Some? then q.currentIndex.value else |text|);
  }

  lemma CommandDoneKeeps<V(!new)>(env: Env<V>, p: Progress<V>, q: Progress<V>, text: seq<bool>, payload: seq<byte>)
    requires NeverFails(env) && Agree(p, q, text)
    ensures Agree(OnCommandDone(env, p, payload), OnCommandDone(env, q, payload), text)
  {
    var n := env.affected(env.tag(payload));
    AffectedKeeps(p, q, text, n);
    CloseCommandKeeps(env, CountAffected(p, n), CountAffected(q, n), text, env.tag(payload), n);
  }

  lemma NoticeKeeps<V(!new)>(env: Env<V>, p: Progress<V>, q: Progress<V>, text: seq<bool>, notice: string)
    requires NeverFails(env) && Agree(p, q, text)
    ensures Agree(OnNoticeText(env, p, notice), OnNoticeText(env, q, notice), text)
  {
    CallKeeps(env, p, q, text, OnNotice(notice));
    var called := Call(env, q, OnNotice(notice));
    RebuildFrame(called, called.(notices := called.notices + [notice]), text, text,
                 if q.currentIndex.Some? then q.currentIndex.value else |text|);
  }

  lemma ErrorKeeps<V(!new)>(p: Progress<V>, q: Progress<V>, text: seq<bool>, error: Option<NzError>)
    requires Agree(p, q, text) && (error.Some? ==> error.value.Database?)
    ensures Agree(p.(error := error), q.(error := error), text)
  {
    RebuildFrame(q, q.(error := error), text, text, if q.currentIndex.Some? then q.currentIndex.value else |text|);
  }

  lemma RowDescriptionKeeps<V(!new)>(env: Env<V>, p: Progress<V>, q: Progress<V>, text: seq<bool>, columns: seq<Column>)
    requires NeverFails(env) && Agree(p, q, text)
    ensures |OnRowDescription(env, q, columns).streamSets| == |text| + 1
    ensures Agree(OnRowDescription(env, p, columns), OnRowDescription(env, q, columns), text + [true])
  {
    FinishKeeps(env, p, q, text);
    var finished := FinishStreamSet(env, q);
    RebuildFrame(finished, OnRowDescription(env, q, columns), text, text + [true], |text|);
  }

  lemma BinaryDescriptionKeeps<V(!new)>(env: Env<V>, p: Progress<V>, q: Progress<V>, text: seq<bool>, d: Descriptor)
    requires NeverFails(env) && Agree(p, q, text)
    ensures var b := OnBinaryDescription(env, q, d);
            Agree(OnBinaryDescription(env, p, d), b, Mark(text, |b.streamSets|, Row([])))
  {
    var nullability := Some(d.nullAllowed);
    var cached := if p.cached.None? then Some(env.describe(d)) else p.cached;
    var a := OnBinaryDescription(env, p, d);
    var q1 := q.(descriptor := Some(d), nullability := nullability, cached := cached);
    var marked := if q.currentIndex.None? then text + [false] else text;
    var begun := EnsureStreamSet(q1, cached.value, nullability);
    var index := begun.currentIndex.value;
    var open := begun.streamSets[index].(nullability := nullability);
    var renewed := begun.(streamSets := begun.streamSets[index := open]);
    RebuildFrame(q, renewed, text, marked, index);
    assert Agree(a, renewed, marked);
    EmitColumnsKeeps(env, a, renewed, marked, index);
  }

  // -- Whole responses ----------------------------------------------------------------------

  /** One message does the same on both sinks. */
  lemma StepKeeps<V(!new)>(env: Env<V>, p: Progress<V>, q: Progress<V>, text: seq<bool>, m: Message)
    requires NeverFails(env) && Agree(p, q, text) && !m.Ready?
    ensures Step(env, p, m).Some? <==> Step(env, q, m).Some?
    ensures Step(env, p, m).Some? ==>
              var b := Step(env, q, m).value;
              Agree(Step(env, p, m).value, b, Mark(text, |b.streamSets|, m))
  {
    match m
    case Control(_) =>
    case Row(payload) =>
      if p.descriptor.Some? {
        BinaryRowKeeps(env, p, q, text, EagerRow(env.codec, p.descriptor.value, payload), m);
      }
    case Tagged(kind, payload) => TaggedKeeps(env, p, q, text, kind, payload, Described(payload, Oids(p.cached)));
  }

  lemma TaggedKeeps<V(!new)>(env: Env<V>, p: Progress<V>, q: Progress<V>, text: seq<bool>,
                             kind: byte, payload: seq<byte>, parsed: Option<Descriptor>)
    requires NeverFails(env) && Agree(p, q, text)
    ensures OnTagged(env, p, kind, payload, parsed).Some? <==> OnTagged(env, q, kind, payload, parsed).Some?
    ensures OnTagged(env, p, kind, payload, parsed).Some? ==>
              var b := OnTagged(env, q, kind, payload, parsed).value;
              Agree(OnTagged(env, p, kind, payload, parsed).value, b, Mark(text, |b.streamSets|, Tagged(kind, payload)))
  {
    if kind == ROW_DESCRIPTION || kind == DATA_ROW || kind == ROW_DESCRIPTION_STANDARD {
      RowMessageKeeps(env, p, q, text, kind, payload, parsed);
    } else {
      StatusMessageKeeps(env, p, q, text, kind, payload, parsed);
    }
  }

  lemma StatusMessageKeeps<V(!new)>(env: Env<V>, p: Progress<V>, q: Progress<V>, text: seq<bool>,
                                    kind: byte, payload: seq<byte>, parsed: Option<Descriptor>)
    requires NeverFails(env) && Agree(p, q, text)
    requires kind != ROW_DESCRIPTION && kind != DATA_ROW && kind != ROW_DESCRIPTION_STANDARD
    ensures OnTagged(env, p, kind, payload, parsed).Some? && OnTagged(env, q, kind, payload, parsed).Some?
    ensures Agree(OnTagged(env, p, kind, payload, parsed).value, OnTagged(env, q, kind, payload, parsed).value, text)
  {
    if kind == COMMAND_COMPLETE {
      CommandDoneKeeps(env, p, q, text, payload);
    } else if kind == ERROR_RESPONSE {
      ErrorKeeps(p, q, text, if p.error.None? then Some(Database(env.message(payload))) else p.error);
    } else if kind == NOTICE_RESPONSE {
      NoticeKeeps(env, p, q, text, env.message(payload));
    }
  }

  lemma RowMessageKeeps<V(!new)>(env: Env<V>, p: Progress<V>, q: Progress<V>, text: seq<bool>,
                                 kind: byte, payload: seq<byte>, parsed: Option<Descriptor>)
    requires NeverFails(env) && Agree(p, q, text)
    requires kind == ROW_DESCRIPTION || kind == DATA_ROW || kind == ROW_DESCRIPTION_STANDARD
    ensures OnTagged(env, p, kind, payload, parsed).Some? <==> OnTagged(env, q, kind, payload, parsed).Some?
    ensures OnTagged(env, p, kind, payload, parsed).Some? ==>
              var b := OnTagged(env, q, kind, payload, parsed).value;
              Agree(OnTagged(env, p, kind, payload, parsed).value, b, Mark(text, |b.streamSets|, Tagged(kind, payload)))
  {
    hide OnDataRow, OnRowDescription, OnBinaryDescription;
    if kind == DATA_ROW {
      DataRowKeeps(env, p, q, text, payload);
    } else if kind == ROW_DESCRIPTION {
      if env.rowDescription(payload).Some? {
        RowDescriptionKeeps(env, p, q, text, env.rowDescription(payload).value);
      }
    } else if parsed.Some? {
      BinaryDescriptionKeeps(env, p, q, text, parsed.value);
    }
  }

  /** Which stream sets of a response a text description opened. */
  ghost function TextSets<V>(env: Env<V>, q: Progress<V>, b: seq<byte>, text: seq<bool>): seq<bool>
    requires Coherent(q)
    decreases |b|
  {
    match NextFrame(b)
    case Frame(m, rest) =>
      if m.Ready? || Step(env, q, m).None? then text
      else
        var r := Step(env, q, m).value;
        TextSets(env, r, rest, Mark(text, |r.streamSets|, m))
    case _ => text
  }

  lemma {:induction false} ResponsesAgree<V(!new)>(env: Env<V>, p: Progress<V>, q: Progress<V>, text: seq<bool>,
                                                   b: seq<byte>)
    requires NeverFails(env) && Agree(p, q, text)
    ensures SameEnding(Response(env, p, b), Response(env, q, b))
    ensures Response(env, p, b).Complete? ==>
              && Response(env, q, b).progress.currentIndex.None?
              && Agree(Response(env, p, b).progress, Response(env, q, b).progress, TextSets(env, q, b, text))
    decreases |b|
  {
    var h := SkipNuls(b);
    if !(|h| >= 5 && h[0] == ROW_STANDARD && p.descriptor.None?) {
      match NextFrame(b)
      case Frame(m, rest) =>
        if m.Ready? {
          FinishKeeps(env, p, q, text);
        } else {
          StepKeeps(env, p, q, text, m);
          if Step(env, p, m).Some? {
            var r := Step(env, q, m).value;
            ResponsesAgree(env, Step(env, p, m).value, r, Mark(text, |r.streamSets|, m), rest);
          }
        }
      case _ =>
    }
  }

  ghost predicate SameEnding<V>(a: Ending<V>, b: Ending<V>) {
    match a
    case Complete(_, rest) => b.Complete? && b.rest == rest
    case Faulty => b.Faulty?
    case Foreign => b.Foreign?
    case Cut => b.Cut?
  }

  /** The buffered and the streaming drain agree on every byte string, when the sink never fails: same ending, same
      bytes left, same error, notices and affected rows; and the buffered result sets are exactly the sets of the
      stream summary that are no phantoms, with the rows the sink was given. */
  lemma SinksAgree<V(!new)>(env: Env<V>, b: seq<byte>)
    requires NeverFails(env)
    ensures var buffered, streamed := Response(env, Begin(false), b), Response(env, Begin(true), b);
            && SameEnding(buffered, streamed)
            && (buffered.Complete? ==>
                  var p, q, text := buffered.progress, streamed.progress, TextSets(env, Begin(true), b, []);
                  && SameResponse(p, q)
                  && |text| == |q.streamSets|
                  && p.sets == Rebuild(q, text, |text|)
                  && forall j :: 0 <= j < |text| ==> |RowsOf(q.told.calls, j)| == q.streamSets[j].rowCount)
  {
    ResponsesAgree(env, Begin(false), Begin(true), [], b);
  }

  lemma {:induction false} RebuildCount<V>(q: Progress<V>, text: seq<bool>, n: nat)
    requires n <= |q.streamSets| == |text|
    ensures |Rebuild(q, text, n)| <= n
    ensures |Rebuild(q, text, n)| == n <==> forall j :: 0 <= j < n ==> Kept(q, text, j)
    ensures |Rebuild(q, text, n)| == n ==> forall j :: 0 <= j < n ==> Rebuild(q, text, n)[j] == Rebuilt(q, j)
  {
    if n > 0 {
      RebuildCount(q, text, n - 1);
    }
  }

  /** The buffered result has the sets of the stream, each with the rows the sink was given. */
  ghost predicate SameSets<V>(p: Progress<V>, q: Progress<V>) {
    p.sets == seq(|q.streamSets|, j requires 0 <= j < |q.streamSets| => Rebuilt(q, j))
  }

  /** The two results have the same sets if and only if they have the same number of sets, and if and only if the
      summary has no phantom. */
  lemma SameSetsBySummary<V(!new)>(env: Env<V>, b: seq<byte>)
    requires NeverFails(env) && Response(env, Begin(false), b).Complete?
    ensures Response(env, Begin(true), b).Complete?
    ensures var p, q := Response(env, Begin(false), b).progress, Response(env, Begin(true), b).progress;
            var text := TextSets(env, Begin(true), b, []);
            && |text| == |q.streamSets|
            && (SameSets(p, q) <==> |p.sets| == |q.streamSets|)
            && (SameSets(p, q) <==> forall j :: 0 <= j < |text| ==> Kept(q, text, j))
  {
    SinksAgree(env, b);
    var q, text := Response(env, Begin(true), b).progress, TextSets(env, Begin(true), b, []);
    RebuildCount(q, text, |text|);
  }

  // -- A failing sink -----------------------------------------------------------------------------

  /** Every call but the last one succeeded, and the last one failed if and only if the sink has failed. */
  ghost predicate History<V>(env: Env<V>, q: Progress<V>) {
    && (forall k :: 0 < k < |q.told.calls| ==> env.sink(q.told.calls[..k]))
    && (q.told.failed <==> q.told.calls != [] && !env.sink(q.told.calls))
  }

  /** `r` follows `q`: calls are only added, and none once the sink has failed. */
  ghost predicate Follows<V>(env: Env<V>, q: Progress<V>, r: Progress<V>) {
    && History(env, r)
    && q.told.calls <= r.told.calls
    && (q.told.failed ==> r.told.failed && r.told.calls == q.told.calls)
    && (q.told.cancelSent ==> r.told.cancelSent)
  }

  lemma CallFollows<V>(env: Env<V>, q: Progress<V>, c: Callback<V>)
    requires History(env, q)
    ensures Follows(env, q, Call(env, q, c))
  {
    if !q.told.failed {
      var calls := q.told.calls + [c];
      forall k | 0 < k < |calls|
        ensures env.sink(calls[..k])
      {
        assert calls[..k] == if k < |q.told.calls| then q.told.calls[..k] else q.told.calls;
      }
    }
  }

  lemma EmitColumnsFollows<V>(env: Env<V>, q: Progress<V>, index: nat)
    requires History(env, q) && Coherent(q) && index < |q.streamSets|
    ensures Follows(env, q, EmitColumns(env, q, index))
  {
    CallFollows(env, q.(columnsSent := q.columnsSent[index := true]),
                OnColumns(index, q.streamSets[index].columns, q.streamSets[index].nullability));
  }

  lemma ValuesRowFollows<V>(env: Env<V>, q: Progress<V>, fallback: seq<Column>, values: seq<V>)
    requires History(env, q) && Coherent(q) && q.streaming
    ensures Follows(env, q, OnValuesRow(env, q, fallback, values).value)
    ensures OnValuesRow(env, q, fallback, values).value.streaming
  {
    var begun := EnsureStreamSet(q, fallback, q.nullability);
    var index := begun.currentIndex.value;
    EmitColumnsFollows(env, begun, index);
    CallFollows(env, EmitColumns(env, begun, index), OnValues(index, values));
  }

  lemma StepFollows<V>(env: Env<V>, q: Progress<V>, m: Message)
    requires History(env, q) && Coherent(q) && q.streaming && !m.Ready? && Step(env, q, m).Some?
    ensures Follows(env, q, Step(env, q, m).value) && Step(env, q, m).value.streaming
  {
    match m
    case Control(_) =>
    case Row(payload) =>
      var parse := EagerRow(env.codec, q.descriptor.value, payload);
      if parse.Values? {
        ValuesRowFollows(env, q, BinaryColumns(env, q), parse.values);
      }
    case Tagged(kind, payload) => TaggedFollows(env, q, kind, payload, Described(payload, Oids(q.cached)));
  }

  lemma TaggedFollows<V>(env: Env<V>, q: Progress<V>, kind: byte, payload: seq<byte>, parsed: Option<Descriptor>)
    requires History(env, q) && Coherent(q) && q.streaming && OnTagged(env, q, kind, payload, parsed).Some?
    ensures Follows(env, q, OnTagged(env, q, kind, payload, parsed).value)
    ensures OnTagged(env, q, kind, payload, parsed).value.streaming
  {
    if kind == COMMAND_COMPLETE {
      CommandDoneFollows(env, q, payload);
    } else if kind == NOTICE_RESPONSE {
      NoticeFollows(env, q, env.message(payload));
    } else if kind == ROW_DESCRIPTION {
      RowDescriptionFollows(env, q, env.rowDescription(payload).value);
    } else if kind == DATA_ROW {
      DataRowFollows(env, q, payload);
    } else if kind == ROW_DESCRIPTION_STANDARD {
      BinaryDescriptionFollows(env, q, parsed.value);
    }
  }

  lemma FinishFollows<V>(env: Env<V>, q: Progress<V>)
    requires History(env, q) && Coherent(q)
    ensures var r := CancelIfAborted(q.told, FinishStreamSet(env, q));
            Follows(env, q, r) && r.streaming == q.streaming
    ensures Follows(env, q, FinishStreamSet(env, q))
  {
    if q.currentIndex.Some? {
      EmitColumnsFollows(env, q, q.currentIndex.value);
    }
  }

  lemma CancelFollows<V>(env: Env<V>, before: Told<V>, q: Progress<V>, r: Progress<V>)
    requires Follows(env, q, r)
    ensures Follows(env, q, CancelIfAborted(before, r))
  {
  }

  lemma FollowsTransitive<V>(env: Env<V>, q: Progress<V>, r: Progress<V>, s: Progress<V>)
    requires Follows(env, q, r) && Follows(env, r, s)
    ensures Follows(env, q, s)
  {
  }

  lemma CommandDoneFollows<V>(env: Env<V>, q: Progress<V>, payload: seq<byte>)
    requires History(env, q) && Coherent(q) && q.streaming
    ensures Follows(env, q, OnCommandDone(env, q, payload)) && OnCommandDone(env, q, payload).streaming
  {
    var n := env.affected(env.tag(payload));
    var counted := CountAffected(q, n);
    FinishFollows(env, counted);
    var finished := CancelIfAborted(counted.told, FinishStreamSet(env, counted));
    var c := OnCommandComplete(env.tag(payload), n);
    CallFollows(env, finished, c);
    CancelFollows(env, finished.told, finished, Call(env, finished, c));
    FollowsTransitive(env, counted, finished, CancelIfAborted(finished.told, Call(env, finished, c)));
  }

  lemma NoticeFollows<V>(env: Env<V>, q: Progress<V>, text: string)
    requires History(env, q) && Coherent(q) && q.streaming
    ensures Follows(env, q, OnNoticeText(env, q, text)) && OnNoticeText(env, q, text).streaming
  {
    CallFollows(env, q, OnNotice(text));
  }

  lemma RowDescriptionFollows<V>(env: Env<V>, q: Progress<V>, columns: seq<Column>)
    requires History(env, q) && Coherent(q) && q.streaming
    ensures Follows(env, q, OnRowDescription(env, q, columns)) && OnRowDescription(env, q, columns).streaming
  {
    FinishFollows(env, q);
  }

  lemma DataRowFollows<V>(env: Env<V>, q: Progress<V>, payload: seq<byte>)
    requires History(env, q) && Coherent(q) && q.streaming && OnDataRow(env, q, payload).Some?
    ensures Follows(env, q, OnDataRow(env, q, payload).value) && OnDataRow(env, q, payload).value.streaming
  {
    var columns := TextColumns(q).value;
    var parse := env.textRow(payload, columns);
    if parse.TextRow? {
      ValuesRowFollows(env, q, columns, parse.values);
    }
  }

  lemma BinaryDescriptionFollows<V>(env: Env<V>, q: Progress<V>, d: Descriptor)
    requires History(env, q) && Coherent(q) && q.streaming
    ensures Follows(env, q, OnBinaryDescription(env, q, d)) && OnBinaryDescription(env, q, d).streaming
  {
    var nullability := Some(d.nullAllowed);
    var bare := q.current.None? && q.cached.None?;
    var q1 := q.(descriptor := Some(d), nullability := nullability,
                 cached := if bare then Some(env.describe(d)) else q.cached,
                 current := if q.current.Some? then Some(q.current.value.(nullability := nullability)) else None);
    var begun := EnsureStreamSet(q1, q1.cached.GetOr(env.describe(d)), nullability);
    var index := begun.currentIndex.value;
    var open := begun.streamSets[index].(nullability := nullability);
    EmitColumnsFollows(env, begun.(streamSets := begun.streamSets[index := open]), index);
  }

  /** Once a sink call has failed there is no further one, however long the response goes on. */
  lemma {:induction false} FailedSinkIsLeftAlone<V>(env: Env<V>, q: Progress<V>, b: seq<byte>)
    requires History(env, q) && Coherent(q) && q.streaming && Response(env, q, b).Complete?
    ensures Follows(env, q, Response(env, q, b).progress)
    decreases |b|
  {
    var f := NextFrame(b);
    if f.message.Ready? {
      if q.currentIndex.Some? {
        EmitColumnsFollows(env, q, q.currentIndex.value);
      }
    } else {
      StepFollows(env, q, f.message);
      FailedSinkIsLeftAlone(env, Step(env, q, f.message).value, f.rest);
    }
  }

  /** The same, but for what the sink was told. */
  ghost predicate SameButSink<V>(q: Progress<V>, r: Progress<V>) {
    r == q.(told := r.told)
  }

  lemma EmitRowIgnoresSink<V>(env: Env<V>, sink: seq<Callback<V>> -> bool, q: Progress<V>, r: Progress<V>,
                              values: seq<V>)
    requires Coherent(q) && SameButSink(q, r) && q.currentIndex.Some?
    ensures SameButSink(EmitRow(env, q, values), EmitRow(env.(sink := sink), r, values))
  {
    var k := q.currentIndex.value;
    var a, b := EmitColumns(env, q, k), EmitColumns(env.(sink := sink), r, k);
    assert SameButSink(a, b);
    assert SameButSink(Call(env, a, OnValues(k, values)), Call(env.(sink := sink), b, OnValues(k, values)));
  }

  lemma ValuesRowIgnoresSink<V>(env: Env<V>, sink: seq<Callback<V>> -> bool, q: Progress<V>, r: Progress<V>,
                                fallback: seq<Column>, values: seq<V>)
    requires Coherent(q) && q.streaming && SameButSink(q, r)
    ensures SameButSink(OnValuesRow(env, q, fallback, values).value,
                        OnValuesRow(env.(sink := sink), r, fallback, values).value)
    ensures OnValuesRow(env, q, fallback, values).value.streaming
  {
    EmitRowIgnoresSink(env, sink, EnsureStreamSet(q, fallback, q.nullability),
                       EnsureStreamSet(r, fallback, r.nullability), values);
  }

  lemma FinishIgnoresSink<V>(env: Env<V>, sink: seq<Callback<V>> -> bool, q: Progress<V>, r: Progress<V>)
    requires Coherent(q) && SameButSink(q, r)
    ensures SameButSink(CancelIfAborted(q.told, FinishStreamSet(env, q)),
                        CancelIfAborted(r.told, FinishStreamSet(env.(sink := sink), r)))
    ensures SameButSink(FinishStreamSet(env, q), FinishStreamSet(env.(sink := sink), r))
    ensures FinishStreamSet(env, q).streaming == q.streaming
  {
  }

  lemma CommandDoneIgnoresSink<V>(env: Env<V>, sink: seq<Callback<V>> -> bool, q: Progress<V>, r: Progress<V>,
                                  payload: seq<byte>)
    requires Coherent(q) && q.streaming && SameButSink(q, r)
    ensures SameButSink(OnCommandDone(env, q, payload), OnCommandDone(env.(sink := sink), r, payload))
    ensures OnCommandDone(env, q, payload).streaming
  {
    var n := env.affected(env.tag(payload));
    FinishIgnoresSink(env, sink, CountAffected(q, n), CountAffected(r, n));
  }

  lemma RowDescriptionIgnoresSink<V>(env: Env<V>, sink: seq<Callback<V>> -> bool, q: Progress<V>, r: Progress<V>,
                                     columns: seq<Column>)
    requires Coherent(q) && q.streaming && SameButSink(q, r)
    ensures SameButSink(OnRowDescription(env, q, columns), OnRowDescription(env.(sink := sink), r, columns))
    ensures OnRowDescription(env, q, columns).streaming
  {
    FinishIgnoresSink(env, sink, q, r);
  }

  lemma BinaryDescriptionIgnoresSink<V>(env: Env<V>, sink: seq<Callback<V>> -> bool, q: Progress<V>, r: Progress<V>,
                                        d: Descriptor)
    requires Coherent(q) && q.streaming && SameButSink(q, r)
    ensures SameButSink(OnBinaryDescription(env, q, d), OnBinaryDescription(env.(sink := sink), r, d))
    ensures OnBinaryDescription(env, q, d).streaming
  {
  }

  lemma DataRowIgnoresSink<V>(env: Env<V>, sink: seq<Callback<V>> -> bool, q: Progress<V>, r: Progress<V>,
                              payload: seq<byte>)
    requires Coherent(q) && q.streaming && SameButSink(q, r)
    ensures OnDataRow(env, q, payload).Some? <==> OnDataRow(env.(sink := sink), r, payload).Some?
    ensures OnDataRow(env, q, payload).Some? ==>
              && SameButSink(OnDataRow(env, q, payload).value, OnDataRow(env.(sink := sink), r, payload).value)
              && OnDataRow(env, q, payload).value.streaming
  {
    var columns := TextColumns(q);
    if columns.Some? && env.textRow(payload, columns.value).TextRow? {
      ValuesRowIgnoresSink(env, sink, q, r, columns.value, env.textRow(payload, columns.value).values);
    }
  }

  lemma NoticeIgnoresSink<V>(env: Env<V>, sink: seq<Callback<V>> -> bool, q: Progress<V>, r: Progress<V>, text: string)
    requires Coherent(q) && q.streaming && SameButSink(q, r)
    ensures SameButSink(OnNoticeText(env, q, text), OnNoticeText(env.(sink := sink), r, text))
    ensures OnNoticeText(env, q, text).streaming
  {
  }

  lemma TaggedIgnoresSink<V>(env: Env<V>, sink: seq<Callback<V>> -> bool, q: Progress<V>, r: Progress<V>,
                             kind: byte, payload: seq<byte>, parsed: Option<Descriptor>)
    requires Coherent(q) && q.streaming && SameButSink(q, r)
    ensures OnTagged(env, q, kind, payload, parsed).Some?
            <==> OnTagged(env.(sink := sink), r, kind, payload, parsed).Some?
    ensures OnTagged(env, q, kind, payload, parsed).Some? ==>
              && SameButSink(OnTagged(env, q, kind, payload, parsed).value,
                             OnTagged(env.(sink := sink), r, kind, payload, parsed).value)
              && OnTagged(env, q, kind, payload, parsed).value.streaming
  {
    if kind == COMMAND_COMPLETE {
      CommandDoneIgnoresSink(env, sink, q, r, payload);
    } else if kind == ROW_DESCRIPTION {
      if env.rowDescription(payload).Some? {
        RowDescriptionIgnoresSink(env, sink, q, r, env.rowDescription(payload).value);
      }
    } else if kind == DATA_ROW {
      DataRowIgnoresSink(env, sink, q, r, payload);
    } else if kind == ROW_DESCRIPTION_STANDARD && parsed.Some? {
      BinaryDescriptionIgnoresSink(env, sink, q, r, parsed.value);
    } else if kind == NOTICE_RESPONSE {
      NoticeIgnoresSink(env, sink, q, r, env.message(payload));
    }
  }

  lemma StepIgnoresSink<V>(env: Env<V>, sink: seq<Callback<V>> -> bool, q: Progress<V>, r: Progress<V>, m: Message)
    requires Coherent(q) && q.streaming && SameButSink(q, r) && !m.Ready?
    ensures Step(env, q, m).Some? <==> Step(env.(sink := sink), r, m).Some?
    ensures Step(env, q, m).Some? ==>
              && SameButSink(Step(env, q, m).value, Step(env.(sink := sink), r, m).value)
              && Step(env, q, m).value.streaming
  {
    match m
    case Control(_) =>
    case Row(payload) =>
      if q.descriptor.Some? && EagerRow(env.codec, q.descriptor.value, payload).Values? {
        ValuesRowIgnoresSink(env, sink, q, r, BinaryColumns(env, q),
                             EagerRow(env.codec, q.descriptor.value, payload).values);
      }
    case Tagged(kind, payload) => TaggedIgnoresSink(env, sink, q, r, kind, payload, Described(payload, Oids(q.cached)));
  }

  /** A sink cannot derail the drain: whatever it answers, the response ends in the same way with the same bytes left,
      and the summary, its sets and row counts are the same. */
  lemma {:induction false} SinkCannotDerail<V>(env: Env<V>, sink: seq<Callback<V>> -> bool,
                                               q: Progress<V>, r: Progress<V>, b: seq<byte>)
    requires Coherent(q) && q.streaming && SameButSink(q, r)
    ensures Coherent(r)
    ensures SameEnding(Response(env, q, b), Response(env.(sink := sink), r, b))
    ensures Response(env, q, b).Complete? ==>
              SameButSink(Response(env, q, b).progress, Response(env.(sink := sink), r, b).progress)
    decreases |b|
  {
    var h := SkipNuls(b);
    if !(|h| >= 5 && h[0] == ROW_STANDARD && q.descriptor.None?) {
      match NextFrame(b)
      case Frame(m, rest) =>
        if m.Ready? {
          FinishIgnoresSink(env, sink, q, r);
        } else {
          StepIgnoresSink(env, sink, q, r, m);
          if Step(env, q, m).Some? {
            SinkCannotDerail(env, sink, Step(env, q, m).value, Step(env.(sink := sink), r, m).value, rest);
          }
        }
      case _ =>
    }
  }
}

/** Lazily decoded binary rows: `validate_row_layout` (src/tuple_desc.rs) and `RawRowData`
    (src/connection.rs). A raw row keeps its payload, memoises cells and whole-row reads, and must give the
    values the eager reader would have given. */
module RawRows {
  import opened Bytes
  import opened TupleDesc
  import opened Rows

  /** `pack_row_span`: start and end in the halves of a u64; `None` when one does not fit. */
  function Pack(s: Span): Option<nat> {
    if s.start < TWO_32 && s.end < TWO_32 then Some(s.start * TWO_32 + s.end) else None
  }

  function Unpack(packed: nat): Span {
    Span(packed / TWO_32, packed % TWO_32)
  }

  lemma UnpackPack(s: Span)
    requires Pack(s).Some?
    ensures Unpack(Pack(s).value) == s
  {
  }

  /** The layout the lazy validator accepts: `EagerLayout` without `validate_row_field_storage`, and with
      spans that fit their packed form. */
  ghost predicate LazyLayout(d: Descriptor, row: seq<byte>, spans: seq<Span>) {
    && BitmapOk(d, row)
    && Varying(d, row, spans)
    && (forall j :: 0 <= j < |spans| ==> Pack(spans[j]).Some?)
    && forall i :: 0 <= i < d.numFields && !IsNull(d, row, i) ==> FieldStart(d, row, spans, i).Some?
  }

  lemma LayoutLocatesEveryField(d: Descriptor, row: seq<byte>, spans: seq<Span>, i: nat)
    requires Consistent(d) && Varying(d, row, spans) && i < d.numFields && !IsNull(d, row, i)
    ensures (exists other :: LazyLayout(d, row, other)) ==> FieldStart(d, row, spans, i).Some?
  {
    forall other | LazyLayout(d, row, other)
      ensures FieldStart(d, row, spans, i).Some?
    {
      VaryingUnique(d, row, other, spans);
    }
  }

  lemma LayoutPacksEverySpan(d: Descriptor, row: seq<byte>, spans: seq<Span>, j: nat)
    requires Consistent(d) && d.numVarying > 0 && d.fixedFieldsSize >= 0
    requires Tiling(row, d.fixedFieldsSize, spans) && j < |spans| <= d.numVarying
    ensures (exists other :: LazyLayout(d, row, other)) ==> Pack(spans[j]).Some?
  {
    forall other | LazyLayout(d, row, other)
      ensures Pack(spans[j]).Some?
    {
      TilingPrefix(row, d.fixedFieldsSize, spans, other, |spans|);
      assert other[j] == other[..|spans|][j] == spans[..|spans|][j];
    }
  }

  ghost predicate PackedAs(packed: seq<nat>, spans: seq<Span>) {
    |packed| <= |spans| && forall j :: 0 <= j < |packed| ==> Pack(spans[j]) == Some(packed[j])
  }

  /** `validate_row_layout`: accepts exactly the lazy layouts, and returns their packed spans. */
  method ValidateRowLayout(d: Descriptor, row: seq<byte>) returns (r: Result<seq<nat>>, ghost spans: seq<Span>)
    ensures r.Ok? ==> LazyLayout(d, row, spans) && |r.value| == |spans| && PackedAs(r.value, spans)
    ensures r.Err? ==> r.error == Protocol && forall other :: !LazyLayout(d, row, other)
  {
    spans := [];
    if !BitmapOk(d, row) {
      return Err(Protocol), spans;
    }
    var packed: seq<nat> := [];
    if d.numVarying > 0 && d.fixedFieldsSize < 0 {
      return Err(Protocol), spans;
    }
    var cursor: nat := if d.numVarying == 0 then 0 else d.fixedFieldsSize;
    for j := 0 to d.numVarying
      invariant |spans| == j == |packed| && PackedAs(packed, spans)
      invariant d.numVarying > 0 ==>
                  && Tiling(row, d.fixedFieldsSize, spans)
                  && cursor == StartOf(d.fixedFieldsSize, spans, j)
    {
      TilingContinues(row, d.fixedFieldsSize, spans, d.numVarying);
      if cursor + 2 > |row| {
        return Err(Protocol), spans;
      }
      var encoded := LittleU16(row, cursor);
      if encoded < 2 || cursor + encoded > |row| || cursor + encoded + encoded % 2 > |row| {
        return Err(Protocol), spans;
      }
      TilingExtend(row, d.fixedFieldsSize, spans);
      spans := spans + [Span(cursor, cursor + encoded)];
      LayoutPacksEverySpan(d, row, spans, j);
      var span := Pack(Span(cursor, cursor + encoded));
      if span.None? {
        return Err(Protocol), spans;
      }
      packed := packed + [span.value];
      cursor := cursor + encoded;
      if encoded % 2 != 0 {
        cursor := cursor + 1;
      }
    }
    for i := 0 to d.numFields
      invariant forall k :: 0 <= k < i && !IsNull(d, row, k) ==> FieldStart(d, row, spans, k).Some?
    {
      if !IsNull(d, row, i) {
        LayoutLocatesEveryField(d, row, spans, i);
        if d.fieldFixedSize[i] != 0 {
          if d.fieldFixedSize[i] < 0 || d.fieldOffset[i] < 0 || FixedWidth(d, i) < 0
             || d.fieldOffset[i] + FixedWidth(d, i) > |row|
          {
            return Err(Protocol), spans;
          }
        } else if d.numVarying > 0 {
          if d.fieldOffset[i] < 0 || d.fieldOffset[i] >= d.numVarying {
            return Err(Protocol), spans;
          }
        } else if d.fixedFieldsSize < 0 || d.fixedFieldsSize > |row| {
          return Err(Protocol), spans;
        }
      }
    }
    r := Ok(packed);
  }

  // -- Agreement with the eager reader --------------------------------------------

  /** Every row the eager reader accepts is a valid raw row, and each of its cells holds the eager value.
      Payloads are at most `MAX_PROTOCOL_PAYLOAD` bytes, so spans always fit their packed form. */
  lemma LazyRefinesEager<V>(codec: Codec<V>, d: Descriptor, row: seq<byte>)
    requires |row| <= MAX_PROTOCOL_PAYLOAD && EagerRow(codec, d, row).Values?
    ensures exists spans :: LazyLayout(d, row, spans)
    ensures forall spans :: LazyLayout(d, row, spans) ==>
              forall i :: 0 <= i < d.numFields ==>
                Cell(codec, d, row, spans, i) == Decoded(EagerRow(codec, d, row).values[i])
  {
    var spans :| EagerLayout(d, row, spans);
    EagerIsLazy(d, row, spans);
    EagerRowVia(codec, d, row, spans);
    forall other | LazyLayout(d, row, other)
      ensures other == spans
    {
      VaryingUnique(d, row, other, spans);
    }
  }

  lemma EagerIsLazy(d: Descriptor, row: seq<byte>, spans: seq<Span>)
    requires |row| <= MAX_PROTOCOL_PAYLOAD && EagerLayout(d, row, spans)
    ensures LazyLayout(d, row, spans)
  {
    forall j | 0 <= j < |spans|
      ensures Pack(spans[j]).Some?
    {
      TilingFloor(row, d.fixedFieldsSize, spans, j);
    }
    forall i | 0 <= i < d.numFields && !IsNull(d, row, i)
      ensures FieldStart(d, row, spans, i).Some?
    {
      assert FieldStored(d, row, spans, i);
    }
  }

  /** The converse needs exactly the storage checks the lazy validator skips. */
  lemma LazyIsEagerIffStorageOk(d: Descriptor, row: seq<byte>, spans: seq<Span>)
    requires |row| <= MAX_PROTOCOL_PAYLOAD && LazyLayout(d, row, spans)
    ensures (exists other :: EagerLayout(d, row, other)) <==>
            forall i :: 0 <= i < d.numFields && !IsNull(d, row, i) ==>
              StorageOk(d, row, i, FieldStart(d, row, spans, i).value)
  {
    if forall i :: 0 <= i < d.numFields && !IsNull(d, row, i) ==>
                     StorageOk(d, row, i, FieldStart(d, row, spans, i).value) {
      assert EagerLayout(d, row, spans);
    }
    forall other, i | EagerLayout(d, row, other) && 0 <= i < d.numFields && !IsNull(d, row, i)
      ensures StorageOk(d, row, i, FieldStart(d, row, spans, i).value)
    {
      VaryingUnique(d, row, other, spans);
      assert FieldStored(d, row, other, i);
    }
  }

  /** A row only the lazy reader accepts: a fixed TIMETZ column whose declared size is below 12. */
  lemma LazyAcceptsMore()
    ensures exists d, row, spans ::
              LazyLayout(d, row, spans) && forall other :: !EagerLayout(d, row, other)
  {
    var d := Descriptor(0, 1, 0, 2, 14, 1, [NZ_TYPE_TIME_TZ], [8], [12], [2], [12], [true], [2], [1]);
    var row: seq<byte> := seq(14, _ => 0);
    assert LazyLayout(d, row, []);
    forall other
      ensures !EagerLayout(d, row, other)
    {
      assert !IsNull(d, row, 0);
      if |other| == 0 {
        assert !FieldStored(d, row, other, 0);
      }
    }
  }

  /** What a failure at the field stage can be. It is a truncated read, rather than bytes that do not convert,
      only for a scalar stored outside the fixed area, or an opaque value in a row without varying fields: no
      descriptor that stores its scalars and opaque values as fixed fields can produce one. */
  lemma FieldStageTruncation<V>(codec: Codec<V>, d: Descriptor, row: seq<byte>, spans: seq<Span>, i: nat)
    requires EagerLayout(d, row, spans) && i < d.numFields && !IsNull(d, row, i)
    ensures FieldStart(d, row, spans, i).Some?
    ensures var t, at := d.fieldType[i], FieldStart(d, row, spans, i).value;
            Cell(codec, d, row, spans, i).Truncated? <==>
              && d.fieldFixedSize[i] == 0
              && if ScalarWidth(t) > 0 then at + ScalarWidth(t) > |row|
                 else
                   && t !in LENGTH_PREFIXED + {NZ_TYPE_CHAR, NZ_TYPE_TIME_TZ, NZ_TYPE_NUMERIC}
                   && d.numVarying == 0
                   && (at + 2 > |row| || LittleU16(row, at) < 2 || at + LittleU16(row, at) > |row|)
  {
    assert FieldStored(d, row, spans, i);
    var t, at := d.fieldType[i], FieldStart(d, row, spans, i).value;
    if d.fieldFixedSize[i] == 0 && d.numVarying > 0 {
      assert SpanAt(row, d.fixedFieldsSize, spans, d.fieldOffset[i]);
    }
  }

  // -- The raw row -------------------------------------------------------------------

  class RawRow<V> {
    const codec: Codec<V>
    const d: Descriptor
    const payload: seq<byte>
    /** Number of described columns, which need not be the descriptor's field count. */
    const columns: nat
    var decoded: Option<seq<V>>
    var cells: Option<seq<Option<V>>>
    var cursor: nat
    var spans: seq<nat>
    ghost const layout: seq<Span>

    /** The one answer for cell `i`, whatever was read before. */
    ghost function Answer(i: nat): Result<V>
      requires LazyLayout(d, payload, layout)
    {
      if i >= columns then Err(Config)
      else if i >= d.numFields then Err(Protocol)
      else
        match Cell(codec, d, payload, layout, i)
        case Decoded(v) => Ok(v)
        case _ => Err(Protocol)
    }

    ghost predicate Valid()
      reads this
    {
      && LazyLayout(d, payload, layout)
      && PackedAs(spans, layout)
      && (|spans| < d.numVarying ==> cursor == StartOf(d.fixedFieldsSize, layout, |spans|))
      && (decoded.Some? ==>
            |decoded.value| == columns && forall i :: 0 <= i < columns ==> Answer(i) == Ok(decoded.value[i]))
      && (cells.Some? ==>
            && |cells.value| == columns
            && forall i :: 0 <= i < columns && cells.value[i].Some? ==> Answer(i) == Ok(cells.value[i].value))
    }

    /** `from_dbos_raw_with_metadata`, for a payload `validate_row_layout` accepted. */
    constructor (codec: Codec<V>, d: Descriptor, payload: seq<byte>, columns: nat, packed: seq<nat>,
                 ghost layout: seq<Span>)
      requires LazyLayout(d, payload, layout) && |packed| == |layout| && PackedAs(packed, layout)
      ensures Valid()
      ensures this.codec == codec && this.d == d && this.payload == payload
      ensures this.columns == columns && this.layout == layout
    {
      this.codec, this.d, this.payload, this.columns, this.layout := codec, d, payload, columns, layout;
      decoded, cells := None, None;
      cursor := if d.fixedFieldsSize < 0 then 0 else d.fixedFieldsSize;
      spans := packed;
    }

    /** `ensure_dbos_spans`. */
    method EnsureDbosSpans(count: nat) returns (r: Result<()>)
      requires Valid()
      modifies this`cursor, this`spans
      ensures Valid()
      ensures r.Ok? <==> count <= d.numVarying
      ensures r.Ok? ==> |spans| >= count
      ensures r.Err? ==> r.error == Protocol
    {
      while |spans| < count
        invariant Valid()
        decreases count - |spans|
      {
        if |spans| >= d.numVarying {
          return Err(Protocol);
        }
        assert SpanAt(payload, d.fixedFieldsSize, layout, |spans|);
        var encoded := LittleU16(payload, cursor);
        var packed := Pack(Span(cursor, cursor + encoded));
        assert layout[|spans|] == Span(cursor, cursor + encoded);
        cursor := cursor + encoded + (if encoded % 2 != 0 then 1 else 0);
        spans := spans + [packed.value];
      }
      r := Ok(());
    }

    /** The start `dbos_span` and `decode_all` give a non-null field. */
    method FieldOffset(i: nat) returns (r: Result<nat>)
      requires Valid() && i < d.numFields && !IsNull(d, payload, i)
      modifies this`cursor, this`spans
      ensures Valid()
      ensures r == Ok(FieldStart(d, payload, layout, i).value)
    {
      assert FieldStart(d, payload, layout, i).Some?;
      if d.fieldFixedSize[i] != 0 {
        r := Ok(d.fieldOffset[i]);
      } else if d.numVarying == 0 {
        r := Ok(d.fixedFieldsSize);
      } else {
        var ensured := EnsureDbosSpans(d.fieldOffset[i] + 1);
        UnpackPack(layout[d.fieldOffset[i]]);
        r := Ok(Unpack(spans[d.fieldOffset[i]]).start);
      }
    }

    /** `decode_value`. */
    method DecodeValue(i: nat) returns (r: Result<V>)
      requires Valid() && i < columns
      modifies this`cursor, this`spans
      ensures Valid()
      ensures r.Ok? <==> Answer(i).Ok?
      ensures r.Ok? ==> r == Answer(i)
    {
      if i >= d.numFields {
        return Err(Config);
      }
      if IsNull(d, payload, i) {
        return Ok(codec.nothing);
      }
      var start := FieldOffset(i);
      var parsed := ParseField(codec, d, payload, start.value, i);
      match parsed
      case Decoded(v) => r := Ok(v);
      case _ => r := Err(Protocol);
    }

    /** `value`: one cell, memoised. */
    method Value(i: nat) returns (r: Result<V>)
      requires Valid()
      modifies this
      ensures Valid()
      ensures r == Answer(i)
    {
      if decoded.Some? {
        return if i < |decoded.value| then Ok(decoded.value[i]) else Err(Config);
      }
      if cells.None? {
        cells := Some(seq(columns, _ => None));
      }
      if i >= |cells.value| {
        return Err(Config);
      }
      if cells.value[i].None? {
        var value := DecodeValue(i);
        if value.Err? {
          return Err(Protocol);
        }
        cells := Some(cells.value[i := Some(value.value)]);
      }
      r := Ok(cells.value[i].value);
    }

    /** `decode_all`: the first failing cell decides the error. */
    method DecodeAll() returns (r: Result<seq<V>>)
      requires Valid()
      modifies this`cursor, this`spans
      ensures Valid()
      ensures r.Ok? <==> forall i :: 0 <= i < columns ==> Answer(i).Ok?
      ensures r.Ok? ==> |r.value| == columns && forall i :: 0 <= i < columns ==> Answer(i) == Ok(r.value[i])
    {
      if columns > d.numFields {
        assert Answer(d.numFields).Err?;
        return Err(Config);
      }
      var ensured := EnsureDbosSpans(d.numVarying);
      var values: seq<V> := [];
      for i := 0 to columns
        invariant Valid() && |values| == i
        invariant forall k :: 0 <= k < i ==> Answer(k) == Ok(values[k])
      {
        var value := DecodeValue(i);
        if value.Err? {
          assert Answer(i).Err?;
          return Err(value.error);
        }
        values := values + [value.value];
      }
      r := Ok(values);
    }

    /** `try_values`: the whole row, memoised. */
    method TryValues() returns (r: Result<seq<V>>)
      requires Valid()
      modifies this
      ensures Valid()
      ensures r.Ok? <==> forall i :: 0 <= i < columns ==> Answer(i).Ok?
      ensures r.Ok? ==> |r.value| == columns && forall i :: 0 <= i < columns ==> Answer(i) == Ok(r.value[i])
    {
      if decoded.None? {
        var values := DecodeAll();
        if values.Err? {
          return values;
        }
        decoded := Some(values.value);
      }
      r := Ok(decoded.value);
    }
  }

  /** One read of a raw row. */
  datatype Access = OneCell(index: nat) | WholeRow

  /** Any sequence of reads, in any order, of a row the eager reader accepts returns the eager values. */
  method ReadInAnyOrder<V>(codec: Codec<V>, d: Descriptor, row: seq<byte>, columns: nat, accesses: seq<Access>)
    returns (answers: seq<seq<V>>)
    requires |row| <= MAX_PROTOCOL_PAYLOAD && columns == d.numFields
    requires EagerRow(codec, d, row).Values?
    requires forall k :: 0 <= k < |accesses| && accesses[k].OneCell? ==> accesses[k].index < columns
    ensures |answers| == |accesses|
    ensures forall k :: 0 <= k < |accesses| ==>
              answers[k] == if accesses[k].WholeRow? then EagerRow(codec, d, row).values
                            else [EagerRow(codec, d, row).values[accesses[k].index]]
  {
    ghost var values := EagerRow(codec, d, row).values;
    LazyRefinesEager(codec, d, row);
    var packed, layout := ValidateRowLayout(d, row);
    EagerValuesCount(codec, d, row);
    var raw := new RawRow(codec, d, row, columns, packed.value, layout);
    answers := [];
    for k := 0 to |accesses|
      invariant raw.Valid() && |answers| == k
      invariant forall i :: 0 <= i < columns ==> raw.Answer(i) == Ok(values[i])
      invariant forall j :: 0 <= j < k ==>
        answers[j] == if accesses[j].WholeRow? then values else [values[accesses[j].index]]
    {
      match accesses[k]
      case OneCell(i) =>
        var one := raw.Value(i);
        answers := answers + [[one.value]];
      case WholeRow =>
        var all := raw.TryValues();
        assert all.value == values;
        answers := answers + [all.value];
    }
  }

  lemma EagerValuesCount<V>(codec: Codec<V>, d: Descriptor, row: seq<byte>)
    requires EagerRow(codec, d, row).Values?
    ensures |EagerRow(codec, d, row).values| == d.numFields
  {
  }
}

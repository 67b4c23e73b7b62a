/** One binary row: its layout, and the eager reader that classifies every failure (src/tuple_desc.rs).
    Layout: two reserved bytes, null bitmap, fixed fields, varying fields. */
module Rows {
  import opened Bytes
  import opened TupleDesc

  /** A varying field: start of its length prefix, end of its value (without the padding byte). */
  datatype Span = Span(start: nat, end: nat)

  function Next(s: Span): nat {
    s.end + (if (s.end - s.start) % 2 != 0 then 1 else 0)
  }

  predicate NullBitmapOk(d: Descriptor, row: seq<byte>) {
    && |row| >= 2
    && (d.nullsAllowed != 0 ==> forall i :: 0 <= i < |d.nullByteOffset| ==> d.nullByteOffset[i] < |row|)
  }

  /** `validate_row_bitmap`. */
  predicate BitmapOk(d: Descriptor, row: seq<byte>) {
    Consistent(d) && NullBitmapOk(d, row)
  }

  /** `is_null`. */
  predicate IsNull(d: Descriptor, row: seq<byte>, i: nat)
    requires Consistent(d) && i < d.numFields
  {
    d.nullsAllowed != 0 && d.nullByteOffset[i] < |row| && Masked(row[d.nullByteOffset[i]], d.nullBitMask[i])
  }

  // -- Varying fields ---------------------------------------------------------

  /** A varying field of `row` starts at `at`: prefix, value and padding all fit. */
  predicate VaryingAt(row: seq<byte>, at: nat) {
    && at + 2 <= |row|
    && LittleU16(row, at) >= 2
    && at + LittleU16(row, at) + LittleU16(row, at) % 2 <= |row|
  }

  /** Where the `j`-th of consecutive fields starts. */
  function StartOf(start: nat, spans: seq<Span>, j: nat): nat
    requires j <= |spans|
  {
    if j == 0 then start else Next(spans[j - 1])
  }

  ghost predicate SpanAt(row: seq<byte>, start: nat, spans: seq<Span>, j: nat)
    requires j < |spans|
  {
    && spans[j].start == StartOf(start, spans, j)
    && VaryingAt(row, spans[j].start)
    && spans[j].end == spans[j].start + LittleU16(row, spans[j].start)
  }

  /** `spans` are consecutive varying fields of `row`, the first starting at `start`. */
  ghost predicate Tiling(row: seq<byte>, start: nat, spans: seq<Span>) {
    forall j :: 0 <= j < |spans| ==> SpanAt(row, start, spans, j)
  }

  lemma {:induction false} TilingPrefix(row: seq<byte>, start: nat, a: seq<Span>, b: seq<Span>, n: nat)
    requires Tiling(row, start, a) && Tiling(row, start, b) && n <= |a| && n <= |b|
    ensures a[..n] == b[..n]
  {
    if n > 0 {
      TilingPrefix(row, start, a, b, n - 1);
      assert SpanAt(row, start, a, n - 1) && SpanAt(row, start, b, n - 1);
      assert n > 1 ==> a[n - 2] == a[..n - 1][n - 2] == b[..n - 1][n - 2] == b[n - 2];
      assert a[..n] == a[..n - 1] + [a[n - 1]] && b[..n] == b[..n - 1] + [b[n - 1]];
    }
  }

  /** Any longer tiling has a varying field where `spans` ends. */
  lemma TilingContinues(row: seq<byte>, start: nat, spans: seq<Span>, count: nat)
    requires Tiling(row, start, spans) && |spans| < count
    ensures (exists other :: |other| == count && Tiling(row, start, other))
              ==> VaryingAt(row, StartOf(start, spans, |spans|))
  {
    forall other: seq<Span> | |other| == count && Tiling(row, start, other)
      ensures VaryingAt(row, StartOf(start, spans, |spans|))
    {
      TilingPrefix(row, start, spans, other, |spans|);
      assert SpanAt(row, start, other, |spans|);
      assert |spans| > 0 ==> other[|spans| - 1] == other[..|spans|][|spans| - 1];
    }
  }

  lemma TilingExtend(row: seq<byte>, start: nat, spans: seq<Span>)
    requires Tiling(row, start, spans) && VaryingAt(row, StartOf(start, spans, |spans|))
    ensures var at := StartOf(start, spans, |spans|);
            Tiling(row, start, spans + [Span(at, at + LittleU16(row, at))])
  {
    var at := StartOf(start, spans, |spans|);
    var more := spans + [Span(at, at + LittleU16(row, at))];
    forall j | 0 <= j < |more|
      ensures SpanAt(row, start, more, j)
    {
      assert j < |spans| ==> SpanAt(row, start, spans, j);
    }
  }

  /** Varying spans are non-empty, increasing and disjoint; they tile the row from `start`, each padded to an
      even length, and never leave the row. */
  lemma {:induction false} TilingIsDisjoint(row: seq<byte>, start: nat, spans: seq<Span>, j: nat, k: nat)
    requires Tiling(row, start, spans) && j < k < |spans|
    ensures start <= spans[j].start < spans[j].end <= Next(spans[j]) <= spans[k].start < spans[k].end <= |row|
    ensures (spans[k].start - start) % 2 == 0
    decreases k
  {
    assert SpanAt(row, start, spans, k);
    if k == j + 1 {
      TilingFloor(row, start, spans, j);
      TilingFloor(row, start, spans, k);
    } else {
      TilingIsDisjoint(row, start, spans, j, k - 1);
      TilingFloor(row, start, spans, k);
    }
  }

  lemma {:induction false} TilingFloor(row: seq<byte>, start: nat, spans: seq<Span>, j: nat)
    requires Tiling(row, start, spans) && j < |spans|
    ensures start <= spans[j].start && (spans[j].start - start) % 2 == 0
    ensures spans[j].start + 2 <= spans[j].end <= Next(spans[j]) <= |row|
  {
    assert SpanAt(row, start, spans, j);
    if j > 0 {
      TilingFloor(row, start, spans, j - 1);
    }
  }

  /** The varying fields of a row as the descriptor counts them. */
  ghost predicate Varying(d: Descriptor, row: seq<byte>, spans: seq<Span>)
    requires Consistent(d)
  {
    && |spans| == d.numVarying
    && (d.numVarying > 0 ==> d.fixedFieldsSize >= 0 && Tiling(row, d.fixedFieldsSize, spans))
  }

  lemma VaryingUnique(d: Descriptor, row: seq<byte>, a: seq<Span>, b: seq<Span>)
    requires Consistent(d) && Varying(d, row, a) && Varying(d, row, b)
    ensures a == b
  {
    if d.numVarying > 0 {
      TilingPrefix(row, d.fixedFieldsSize, a, b, |a|);
      assert a == a[..|a|] && b == b[..|b|];
    }
  }

  // -- Field positions --------------------------------------------------------

  /** `fixed_width`, negative where it reports an error. */
  function FixedWidth(d: Descriptor, i: nat): int
    requires Consistent(d) && i < d.numFields
  {
    var t := d.fieldType[i];
    if t in {NZ_TYPE_DOUBLE, NZ_TYPE_TIME, NZ_TYPE_TIMESTAMP, NZ_TYPE_INT8} then 8
    else if t in {NZ_TYPE_INT, NZ_TYPE_FLOAT, NZ_TYPE_DATE} then 4
    else if t == NZ_TYPE_INT2 then 2
    else if t in {NZ_TYPE_BOOL, NZ_TYPE_INT1} then 1
    else if t in {NZ_TYPE_INTERVAL, NZ_TYPE_TIME_TZ} then 12
    else if t == NZ_TYPE_CHAR then d.fieldSize[i]
    else d.fieldTrueSize[i]
  }

  /** `row_field_start`: where a non-null field lies, `None` when it would leave the row. */
  function FieldStart(d: Descriptor, row: seq<byte>, spans: seq<Span>, i: nat): (s: Option<nat>)
    requires Consistent(d) && i < d.numFields && |spans| == d.numVarying
    ensures s.Some? && |spans| == 0 ==> s.value <= |row|
  {
    if d.fieldFixedSize[i] != 0 then
      if d.fieldFixedSize[i] < 0 || d.fieldOffset[i] < 0 || FixedWidth(d, i) < 0
         || d.fieldOffset[i] + FixedWidth(d, i) > |row|
      then None else Some(d.fieldOffset[i])
    else if |spans| > 0 then
      if 0 <= d.fieldOffset[i] < |spans| then Some(spans[d.fieldOffset[i]].start) else None
    else if 0 <= d.fixedFieldsSize <= |row| then Some(d.fixedFieldsSize)
    else None
  }

  const LENGTH_PREFIXED := {NZ_TYPE_NCHAR, NZ_TYPE_NVARCHAR, NZ_TYPE_VARCHAR, NZ_TYPE_VAR_FIXED_CHAR,
                            NZ_TYPE_JSON, NZ_TYPE_JSONPATH}

  /** `validate_row_field_storage`: the extra storage checks only the eager reader makes. */
  predicate StorageOk(d: Descriptor, row: seq<byte>, i: nat, start: nat)
    requires Consistent(d) && i < d.numFields
  {
    var fixed := d.fieldFixedSize[i] != 0;
    var bound := start + FixedWidth(d, i);
    if fixed && FixedWidth(d, i) < 0 then false
    else if d.fieldType[i] == NZ_TYPE_CHAR then
      d.fieldSize[i] >= 0 && start + d.fieldSize[i] <= |row| && (fixed ==> start + d.fieldSize[i] <= bound)
    else if d.fieldType[i] in LENGTH_PREFIXED then
      && start + 2 <= |row| && (fixed ==> start + 2 <= bound)
      && var encoded := LittleU16(row, start);
      encoded >= 2 && start + encoded <= |row| && (fixed ==> start + encoded <= bound)
    else if d.fieldType[i] == NZ_TYPE_TIME_TZ then
      d.fieldSize[i] >= 12 && start + d.fieldSize[i] <= |row| && (fixed ==> start + d.fieldSize[i] <= bound)
    else true
  }

  ghost predicate FieldStored(d: Descriptor, row: seq<byte>, spans: seq<Span>, i: nat)
    requires Consistent(d) && i < d.numFields && |spans| == d.numVarying
  {
    && FieldStart(d, row, spans, i).Some?
    && StorageOk(d, row, i, FieldStart(d, row, spans, i).value)
  }

  /** The layout the eager reader accepts, with the varying spans it finds. */
  ghost predicate EagerLayout(d: Descriptor, row: seq<byte>, spans: seq<Span>) {
    && BitmapOk(d, row)
    && Varying(d, row, spans)
    && forall i :: 0 <= i < d.numFields && !IsNull(d, row, i) ==> FieldStored(d, row, spans, i)
  }

  lemma LayoutStoresEveryField(d: Descriptor, row: seq<byte>, spans: seq<Span>, i: nat)
    requires Consistent(d) && Varying(d, row, spans) && i < d.numFields && !IsNull(d, row, i)
    ensures (exists other :: EagerLayout(d, row, other)) ==> FieldStored(d, row, spans, i)
  {
    forall other | EagerLayout(d, row, other)
      ensures FieldStored(d, row, spans, i)
    {
      VaryingUnique(d, row, other, spans);
    }
  }

  // -- Field values -------------------------------------------------------------

  datatype FieldParse<V> = Truncated | Undecodable | Decoded(value: V)

  function FromCodec<V>(v: Option<V>): FieldParse<V> {
    match v case None => Undecodable case Some(x) => Decoded(x)
  }

  /** Bytes a scalar wire type reads; 0 for the other types. */
  function ScalarWidth(t: int): nat {
    if t in {NZ_TYPE_INT8, NZ_TYPE_DOUBLE, NZ_TYPE_TIME, NZ_TYPE_TIMESTAMP} then 8
    else if t in {NZ_TYPE_INT, NZ_TYPE_FLOAT, NZ_TYPE_DATE} then 4
    else if t == NZ_TYPE_INT2 then 2
    else if t in {NZ_TYPE_INT1, NZ_TYPE_BOOL} then 1
    else if t == NZ_TYPE_INTERVAL then 12
    else 0
  }

  /** `parse_field_into`: the value of the field whose storage starts at `off`. */
  function ParseField<V>(codec: Codec<V>, d: Descriptor, row: seq<byte>, off: nat, i: nat): FieldParse<V>
    requires Consistent(d) && i < d.numFields
  {
    var t, size := d.fieldType[i], d.fieldSize[i];
    if t == NZ_TYPE_CHAR then
      if size < 0 || off + size > |row| then Truncated else FromCodec(codec.text(t, row[off..off + size]))
    else if t in LENGTH_PREFIXED then
      if off + 2 > |row| || LittleU16(row, off) < 2 || off + LittleU16(row, off) > |row| then Truncated
      else FromCodec(codec.text(t, row[off + 2..off + LittleU16(row, off)]))
    else if ScalarWidth(t) > 0 then
      if off + ScalarWidth(t) > |row| then Truncated else FromCodec(codec.scalar(t, row[off..off + ScalarWidth(t)]))
    else if t == NZ_TYPE_TIME_TZ then
      if size < 12 || off + size > |row| then Truncated else FromCodec(codec.scalar(t, row[off..off + size]))
    else if t == NZ_TYPE_NUMERIC then
      FromCodec(codec.numeric(size, d.fieldTrueSize[i], row[if off <= |row| then off else |row|..]))
    else if d.fieldFixedSize[i] != 0 then
      if FixedWidth(d, i) < 0 || off + FixedWidth(d, i) > |row| then Truncated
      else Decoded(codec.binary(row[off..off + FixedWidth(d, i)]))
    else
      if off + 2 > |row| || LittleU16(row, off) < 2 || off + LittleU16(row, off) > |row| then Truncated
      else Decoded(codec.binary(row[off + 2..off + LittleU16(row, off)]))
  }

  /** The value of cell `i` under a layout: NULL, or the conversion of its storage. */
  function Cell<V>(codec: Codec<V>, d: Descriptor, row: seq<byte>, spans: seq<Span>, i: nat): FieldParse<V>
    requires Consistent(d) && i < d.numFields && |spans| == d.numVarying
    requires !IsNull(d, row, i) ==> FieldStart(d, row, spans, i).Some?
  {
    if IsNull(d, row, i) then Decoded(codec.nothing)
    else ParseField(codec, d, row, FieldStart(d, row, spans, i).value, i)
  }

  /** What an eager read of a row amounts to. */
  datatype RowParse<V> = BadLayout | BadField | Values(values: seq<V>)

  ghost function EagerRow<V>(codec: Codec<V>, d: Descriptor, row: seq<byte>): (r: RowParse<V>)
    ensures r.BadLayout? <==> !exists spans :: EagerLayout(d, row, spans)
  {
    if !exists spans :: EagerLayout(d, row, spans) then BadLayout
    else
      var spans :| EagerLayout(d, row, spans);
      if forall i :: 0 <= i < d.numFields ==> Cell(codec, d, row, spans, i).Decoded? then
        Values(seq(d.numFields, i requires 0 <= i < d.numFields => Cell(codec, d, row, spans, i).value))
      else BadField
  }

  /** `EagerRow` through any layout of the row: the choice of spans is no choice. */
  lemma EagerRowVia<V>(codec: Codec<V>, d: Descriptor, row: seq<byte>, spans: seq<Span>)
    requires EagerLayout(d, row, spans)
    ensures EagerRow(codec, d, row).Values?
            <==> forall i :: 0 <= i < d.numFields ==> Cell(codec, d, row, spans, i).Decoded?
    ensures EagerRow(codec, d, row).Values? ==>
              && |EagerRow(codec, d, row).values| == d.numFields
              && forall i :: 0 <= i < d.numFields ==>
                   Cell(codec, d, row, spans, i) == Decoded(EagerRow(codec, d, row).values[i])
  {
    forall other | EagerLayout(d, row, other)
      ensures other == spans
    {
      VaryingUnique(d, row, other, spans);
    }
  }

  // -- The eager reader ------------------------------------------------------------

  /** The varying-field scan of `parse_row_classified`: the spans, or the first field that does not fit. */
  method ScanVarying(d: Descriptor, row: seq<byte>) returns (r: Result<seq<Span>>)
    requires BitmapOk(d, row)
    ensures r.Ok? ==> Varying(d, row, r.value)
    ensures r.Err? ==> r.error == Protocol && forall spans :: !Varying(d, row, spans)
  {
    var spans: seq<Span> := [];
    if d.numVarying > 0 {
      if d.fixedFieldsSize < 0 {
        return Err(Protocol);
      }
      var voff := d.fixedFieldsSize;
      for j := 0 to d.numVarying
        invariant |spans| == j && Tiling(row, d.fixedFieldsSize, spans)
        invariant voff == StartOf(d.fixedFieldsSize, spans, j)
      {
        if voff + 2 > |row| || LittleU16(row, voff) < 2
           || voff + LittleU16(row, voff) > |row|
           || voff + LittleU16(row, voff) + LittleU16(row, voff) % 2 > |row|
        {
          TilingContinues(row, d.fixedFieldsSize, spans, d.numVarying);
          return Err(Protocol);
        }
        TilingExtend(row, d.fixedFieldsSize, spans);
        var vlen := LittleU16(row, voff);
        spans := spans + [Span(voff, voff + vlen)];
        voff := voff + vlen;
        if vlen % 2 != 0 {
          voff := voff + 1;
        }
      }
    }
    r := Ok(spans);
  }

  /** `parse_row_classified`. `fieldStage` tells a value that does not convert, in a well-formed row, from a row
      whose layout is invalid; the first leaves the session usable, the second retires it. */
  method ParseRowClassified<V>(codec: Codec<V>, d: Descriptor, row: seq<byte>)
    returns (r: Result<()>, out: seq<V>, fieldStage: bool)
    ensures r.Err? ==> r.error == Protocol
    ensures r.Err? && !fieldStage <==> EagerRow(codec, d, row).BadLayout?
    ensures r.Err? && fieldStage <==> EagerRow(codec, d, row).BadField?
    ensures r.Ok? ==> EagerRow(codec, d, row) == Values(out)
  {
    out, fieldStage := [], false;
    if !BitmapOk(d, row) {
      return Err(Protocol), out, false;
    }
    var scan := ScanVarying(d, row);
    if scan.Err? {
      return Err(Protocol), out, false;
    }
    var spans := scan.value;
    for i := 0 to d.numFields
      invariant forall k :: 0 <= k < i && !IsNull(d, row, k) ==> FieldStored(d, row, spans, k)
    {
      if !IsNull(d, row, i) {
        var start := FieldStart(d, row, spans, i);
        if start.None? || !StorageOk(d, row, i, start.value) {
          LayoutStoresEveryField(d, row, spans, i);
          return Err(Protocol), out, false;
        }
      }
    }
    assert EagerLayout(d, row, spans);
    EagerRowVia(codec, d, row, spans);
    for i := 0 to d.numFields
      invariant |out| == i
      invariant forall k :: 0 <= k < i ==> Cell(codec, d, row, spans, k) == Decoded(out[k])
    {
      if IsNull(d, row, i) {
        out := out + [codec.nothing];
      } else {
        assert FieldStored(d, row, spans, i);
        var start := FieldStart(d, row, spans, i).value;
        fieldStage := true;
        var parsed := ParseField(codec, d, row, start, i);
        if !parsed.Decoded? {
          assert !Cell(codec, d, row, spans, i).Decoded?;
          return Err(Protocol), out, true;
        }
        out := out + [parsed.value];
      }
    }
    r := Ok(());
  }
}

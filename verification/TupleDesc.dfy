/** The binary (DBOS) tuple descriptor, the layout of a row and its eager reader: src/tuple_desc.rs. */
module TupleDesc {
  import opened Bytes

  // DBOS wire types that the reader treats specially (src/messages.rs, nz_type).
  const NZ_TYPE_DOUBLE := 2
  const NZ_TYPE_INT := 3
  const NZ_TYPE_FLOAT := 4
  const NZ_TYPE_DATE := 6
  const NZ_TYPE_NUMERIC := 7
  const NZ_TYPE_TIME := 8
  const NZ_TYPE_TIMESTAMP := 9
  const NZ_TYPE_INTERVAL := 10
  const NZ_TYPE_TIME_TZ := 11
  const NZ_TYPE_BOOL := 12
  const NZ_TYPE_INT1 := 13
  const NZ_TYPE_CHAR := 15
  const NZ_TYPE_VARCHAR := 16
  const NZ_TYPE_INT2 := 19
  const NZ_TYPE_INT8 := 20
  const NZ_TYPE_VAR_FIXED_CHAR := 21
  const NZ_TYPE_NCHAR := 25
  const NZ_TYPE_NVARCHAR := 26
  const NZ_TYPE_JSON := 30
  const NZ_TYPE_JSONPATH := 32
  const NZ_TYPE_INTVS_ABS_TIME_FIX := 39

  const OID_ABSTIME := 702

  /** `DbosTupleDesc`. The fields the row readers never look at are left out. */
  datatype Descriptor = Descriptor(
    nullsAllowed: int,
    numFixed: int,
    numVarying: int,
    fixedFieldsSize: int,
    maxRecordSize: int,
    numFields: nat,
    fieldType: seq<int>,
    fieldSize: seq<int>,
    fieldTrueSize: seq<int>,
    fieldOffset: seq<int>,
    fieldFixedSize: seq<int>,
    nullAllowed: seq<bool>,
    nullByteOffset: seq<nat>,
    nullBitMask: seq<byte>)

  /** The value conversions of src/types, which are not part of this model: any functions at all.
      `None` is a byte string the conversion rejects (invalid UTF-8, a BOOLEAN that is neither 0 nor 1, ...). */
  datatype Codec<V> = Codec(
    nothing: V,
    text: (int, seq<byte>) -> Option<V>,
    scalar: (int, seq<byte>) -> Option<V>,
    numeric: (int, int, seq<byte>) -> Option<V>,
    binary: seq<byte> -> V)

  // -- Descriptor -----------------------------------------------------------

  /** The descriptor half of `validate_row_bitmap`. */
  predicate Consistent(d: Descriptor) {
    && |d.fieldType| == |d.fieldSize| == |d.fieldTrueSize| == |d.fieldOffset| == |d.fieldFixedSize| == d.numFields
    && |d.nullByteOffset| == |d.nullBitMask| == d.numFields
    && 0 <= d.numVarying <= d.numFields
  }

  /** What `parse` guarantees beyond consistency. */
  predicate WellFormed(d: Descriptor) {
    && Consistent(d)
    && |d.nullAllowed| == d.numFields <= 100_000
    && 0 <= d.numFixed <= d.numFields
    && d.fixedFieldsSize >= 0 && d.maxRecordSize >= 0
    && (forall i :: 0 <= i < d.numFields ==>
          d.fieldSize[i] >= -1 && d.fieldTrueSize[i] >= -1 && d.fieldOffset[i] >= 0 && d.fieldFixedSize[i] >= 0)
    && (forall i :: 0 <= i < d.numFields ==> d.nullByteOffset[i] >= 2)
  }

  const HEADER_LEN := 36
  const FIELD_LEN := 36

  /** Acceptance of the 36-byte header and of the payload length. `cached` holds the type OIDs of the text
      description, when there is one. */
  predicate HeaderOk(data: seq<byte>, cached: Option<seq<int>>) {
    && |data| >= HEADER_LEN
    && var n := BigI32(data, 32);
    && 0 <= n <= 100_000
    && 0 <= BigI32(data, 16) <= n
    && 0 <= BigI32(data, 20) <= n
    && BigI32(data, 24) >= 0 && BigI32(data, 28) >= 0
    && (cached.Some? ==> |cached.value| == n)
    && ValidLength(HEADER_LEN + n * FIELD_LEN + 8, true)
    && |data| >= HEADER_LEN + n * FIELD_LEN + 8
  }

  /** One column of the descriptor: the `i`-th entry of every vector. */
  datatype Field = Field(
    fieldType: int, size: int, trueSize: int, offset: int, fixedSize: int,
    nullable: bool, byteOffset: nat, mask: byte)

  function FieldOf(d: Descriptor, i: nat): Field
    requires Consistent(d) && |d.nullAllowed| == d.numFields && i < d.numFields
  {
    Field(d.fieldType[i], d.fieldSize[i], d.fieldTrueSize[i], d.fieldOffset[i], d.fieldFixedSize[i],
          d.nullAllowed[i], d.nullByteOffset[i], d.nullBitMask[i])
  }

  function BitMask(bit: nat): byte
    requires bit < 8
  {
    [1, 2, 4, 8, 16, 32, 64, 128][bit]
  }

  /** The column entry at byte `at`, or `None` when its layout words are out of range. `oid` is the OID the
      text description gave the column: an abstime arrives typed as an INT and is restored. */
  function FieldAt(data: seq<byte>, at: nat, oid: Option<int>): (f: Option<Field>)
    requires at + FIELD_LEN <= |data|
    ensures f.Some? ==>
              && f.value.size >= -1 && f.value.trueSize >= -1
              && f.value.offset >= 0 && f.value.fixedSize >= 0 && f.value.byteOffset >= 2
  {
    var wireType, physField := BigI32(data, at), BigI32(data, at + 16);
    if !(0 <= physField <= 100_000) || BigI32(data, at + 4) < -1 || BigI32(data, at + 8) < -1
       || BigI32(data, at + 12) < 0 || BigI32(data, at + 28) < 0
    then None
    else
      var fieldType := if wireType == NZ_TYPE_INT && oid == Some(OID_ABSTIME) then NZ_TYPE_INTVS_ABS_TIME_FIX
                       else wireType;
      Some(Field(fieldType, BigI32(data, at + 4), BigI32(data, at + 8), BigI32(data, at + 12),
                 BigI32(data, at + 28), BigI32(data, at + 24) != 0, 2 + physField / 8, BitMask(physField % 8)))
  }

  function OidOf(cached: Option<seq<int>>, i: nat): Option<int> {
    if cached.Some? && i < |cached.value| then Some(cached.value[i]) else None
  }

  /** The `i`-th column entry of an accepted payload. */
  function Entry(data: seq<byte>, cached: Option<seq<int>>, i: nat): Option<Field>
    requires HeaderOk(data, cached) && i < BigI32(data, 32)
  {
    FieldAt(data, HEADER_LEN + i * FIELD_LEN, OidOf(cached, i))
  }

  /** `d` is what the payload says: every header word and every column entry. */
  ghost predicate Encodes(data: seq<byte>, cached: Option<seq<int>>, d: Descriptor) {
    && HeaderOk(data, cached)
    && Consistent(d) && |d.nullAllowed| == d.numFields
    && d.numFields == BigI32(data, 32)
    && d.nullsAllowed == BigI32(data, 4) && d.numFixed == BigI32(data, 16) && d.numVarying == BigI32(data, 20)
    && d.fixedFieldsSize == BigI32(data, 24) && d.maxRecordSize == BigI32(data, 28)
    && forall i :: 0 <= i < d.numFields ==> Entry(data, cached, i) == Some(FieldOf(d, i))
  }

  /** A parsed descriptor can only be what the payload encodes, and then all its sizes and offsets are in
      range: the sign checks of the row readers never fire on it. */
  lemma EncodedIsWellFormed(data: seq<byte>, cached: Option<seq<int>>, d: Descriptor)
    requires Encodes(data, cached, d)
    ensures WellFormed(d)
  {
    forall i | 0 <= i < d.numFields
      ensures d.fieldSize[i] >= -1 && d.fieldTrueSize[i] >= -1 && d.fieldOffset[i] >= 0
      ensures d.fieldFixedSize[i] >= 0 && d.nullByteOffset[i] >= 2
    {
      assert Entry(data, cached, i) == Some(FieldOf(d, i));
    }
  }

  lemma EncodesUnique(data: seq<byte>, cached: Option<seq<int>>, a: Descriptor, b: Descriptor)
    requires Encodes(data, cached, a) && Encodes(data, cached, b)
    ensures a == b
  {
    forall i | 0 <= i < a.numFields
      ensures a.fieldType[i] == b.fieldType[i] && a.fieldSize[i] == b.fieldSize[i]
      ensures a.fieldTrueSize[i] == b.fieldTrueSize[i] && a.fieldOffset[i] == b.fieldOffset[i]
      ensures a.fieldFixedSize[i] == b.fieldFixedSize[i] && a.nullAllowed[i] == b.nullAllowed[i]
      ensures a.nullByteOffset[i] == b.nullByteOffset[i] && a.nullBitMask[i] == b.nullBitMask[i]
    {
      assert Entry(data, cached, i) == Some(FieldOf(a, i));
    }
  }

  /** The descriptor a payload encodes, when there is one. */
  ghost function Described(data: seq<byte>, cached: Option<seq<int>>): (r: Option<Descriptor>)
    ensures r.Some? ==> Encodes(data, cached, r.value)
    ensures r.None? ==> forall d :: !Encodes(data, cached, d)
  {
    if exists d :: Encodes(data, cached, d) then
      var d :| Encodes(data, cached, d);
      Some(d)
    else None
  }

  /** `d` with the header of the payload and its first `ix` columns. */
  ghost predicate EncodesColumns(data: seq<byte>, cached: Option<seq<int>>, d: Descriptor, ix: nat) {
    && HeaderOk(data, cached)
    && ix <= d.numFields == BigI32(data, 32)
    && d.nullsAllowed == BigI32(data, 4) && d.numFixed == BigI32(data, 16) && d.numVarying == BigI32(data, 20)
    && d.fixedFieldsSize == BigI32(data, 24) && d.maxRecordSize == BigI32(data, 28)
    && |d.fieldType| == |d.fieldSize| == |d.fieldTrueSize| == |d.fieldOffset| == |d.fieldFixedSize| == ix
    && |d.nullAllowed| == |d.nullByteOffset| == |d.nullBitMask| == ix
    && forall i :: 0 <= i < ix ==>
         Entry(data, cached, i) ==
         Some(Field(d.fieldType[i], d.fieldSize[i], d.fieldTrueSize[i], d.fieldOffset[i],
                    d.fieldFixedSize[i], d.nullAllowed[i], d.nullByteOffset[i], d.nullBitMask[i]))
  }

  function Push(d: Descriptor, f: Field): Descriptor {
    d.(fieldType := d.fieldType + [f.fieldType],
       fieldSize := d.fieldSize + [f.size],
       fieldTrueSize := d.fieldTrueSize + [f.trueSize],
       fieldOffset := d.fieldOffset + [f.offset],
       nullAllowed := d.nullAllowed + [f.nullable],
       nullByteOffset := d.nullByteOffset + [f.byteOffset],
       nullBitMask := d.nullBitMask + [f.mask],
       fieldFixedSize := d.fieldFixedSize + [f.fixedSize])
  }

  lemma PushKeepsEncoding(data: seq<byte>, cached: Option<seq<int>>, d: Descriptor, ix: nat, f: Field)
    requires EncodesColumns(data, cached, d, ix) && ix < d.numFields
    requires Entry(data, cached, ix) == Some(f)
    ensures EncodesColumns(data, cached, Push(d, f), ix + 1)
  {
  }

  lemma AllColumnsEncoded(data: seq<byte>, cached: Option<seq<int>>, d: Descriptor)
    requires EncodesColumns(data, cached, d, d.numFields)
    ensures Described(data, cached) == Some(d)
  {
    assert Encodes(data, cached, d);
    EncodesUnique(data, cached, d, Described(data, cached).value);
  }

  lemma EveryEntryParses(data: seq<byte>, cached: Option<seq<int>>, i: nat)
    requires HeaderOk(data, cached) && i < BigI32(data, 32)
    ensures Described(data, cached).Some? ==> Entry(data, cached, i).Some?
  {
    if Described(data, cached).Some? {
      assert Entry(data, cached, i) == Some(FieldOf(Described(data, cached).value, i));
    }
  }

  /** `DbosTupleDesc::parse`: the one descriptor the payload encodes, or a protocol fault. */
  method Parse(data: seq<byte>, cached: Option<seq<int>>) returns (r: Result<Descriptor>)
    ensures Described(data, cached) == if r.Ok? then Some(r.value) else None
    ensures r.Err? ==> r.error == Protocol
  {
    if |data| < HEADER_LEN {
      return Err(Protocol);
    }
    var n := BigI32(data, 32);
    if !(0 <= n <= 100_000) {
      return Err(Protocol);
    }
    var fixed, varying := BigI32(data, 16), BigI32(data, 20);
    if fixed < 0 || varying < 0 || fixed > n || varying > n || BigI32(data, 24) < 0 || BigI32(data, 28) < 0 {
      return Err(Protocol);
    }
    if cached.Some? && |cached.value| != n {
      return Err(Protocol);
    }
    var descriptorLen := HEADER_LEN + n * FIELD_LEN + 8;
    if !ValidLength(descriptorLen, true) || |data| < descriptorLen {
      return Err(Protocol);
    }
    var d := Descriptor(BigI32(data, 4), fixed, varying, BigI32(data, 24), BigI32(data, 28), n,
                        [], [], [], [], [], [], [], []);
    var ix := 0;
    while ix < n
      invariant 0 <= ix <= n && EncodesColumns(data, cached, d, ix)
    {
      var entry := FieldAt(data, HEADER_LEN + ix * FIELD_LEN, OidOf(cached, ix));
      EveryEntryParses(data, cached, ix);
      if entry.None? {
        return Err(Protocol);
      }
      PushKeepsEncoding(data, cached, d, ix, entry.value);
      d := Push(d, entry.value);
      ix := ix + 1;
    }
    AllColumnsEncoded(data, cached, d);
    r := Ok(d);
  }
}

/** The batches of `query_batches` (src/native_async.rs, `push_stream_batch` and `flush_stream_batch`). */
module RowBatches {
  import opened Bytes
  import opened EventStreams

  const BATCH_ROWS: nat := 256
  const BATCH_BYTES: nat := 1024 * 1024

  function Retained(rows: seq<Row>): nat {
    if rows == [] then 0 else Retained(rows[..|rows| - 1]) + rows[|rows| - 1].retained
  }

  function Flattened(batches: seq<seq<Row>>): seq<Row> {
    if batches == [] then [] else Flattened(batches[..|batches| - 1]) + batches[|batches| - 1]
  }

  /** At least one row, at most 256, and at most 1 MiB unless it is a single row. */
  predicate BatchOk(rows: seq<Row>) {
    1 <= |rows| <= BATCH_ROWS && (Retained(rows) <= BATCH_BYTES || |rows| == 1)
  }

  class BatchWriter {
    var rows: seq<Row>
    var bytes: nat
    /** What went to the channel. */
    var sent: seq<seq<Row>>

    /** The rows in hand make no full batch yet. */
    ghost predicate Valid()
      reads this
    {
      && bytes == Retained(rows) && |rows| < BATCH_ROWS
      && (rows != [] ==> bytes < BATCH_BYTES)
      && forall i :: 0 <= i < |sent| ==> BatchOk(sent[i])
    }

    ghost function Contents(): seq<Row>
      reads this
    {
      Flattened(sent) + rows
    }

    constructor ()
      ensures Valid() && Contents() == [] && sent == []
    {
      rows, bytes, sent := [], 0, [];
    }

    /** `flush_stream_batch`. */
    method Flush()
      requires bytes == Retained(rows) && (rows != [] ==> BatchOk(rows))
      requires forall i :: 0 <= i < |sent| ==> BatchOk(sent[i])
      modifies this
      ensures Valid() && rows == [] && Contents() == old(Contents())
      ensures old(rows) != [] ==> sent == old(sent) + [old(rows)]
      ensures old(rows) == [] ==> sent == old(sent)
    {
      if rows == [] {
        return;
      }
      bytes := 0;
      assert (sent + [rows])[..|sent|] == sent;
      sent := sent + [rows];
      rows := [];
    }

    /** `push_stream_batch`. */
    method Push(row: Row)
      requires Valid()
      modifies this
      ensures Valid() && Contents() == old(Contents()) + [row]
    {
      if rows != [] && bytes + row.retained > BATCH_BYTES {
        Flush();
      }
      ghost var before := Contents();
      assert (rows + [row])[..|rows|] == rows;
      assert before + [row] == Flattened(sent) + (rows + [row]);
      bytes := bytes + row.retained;
      rows := rows + [row];
      if |rows| >= BATCH_ROWS || bytes >= BATCH_BYTES {
        Flush();
      }
    }

    /** Pushing the rows of a result set, then `finish_response_set`: every row is in exactly one batch, in order. */
    method Write(input: seq<Row>)
      requires Valid() && rows == [] && sent == []
      modifies this
      ensures Flattened(sent) == input && forall i :: 0 <= i < |sent| ==> BatchOk(sent[i])
    {
      for k := 0 to |input|
        invariant Valid() && Contents() == input[..k]
      {
        Push(input[k]);
        assert input[..k + 1] == input[..k] + [input[k]];
      }
      assert input[..|input|] == input;
      Flush();
      assert Flattened(sent) + [] == Flattened(sent);
    }
  }
}

/** Client-side tracking of explicit transactions: the flag of a batch and `restore_tx_on_error` (src/connection.rs),
    against a server that executes a prefix of the batch. */
module Transactions {
  import opened Bytes

  /** What a statement of a batch does to the transaction: BEGIN and START open one; COMMIT, ROLLBACK, END and
      ABORT close it. */
  datatype Statement = Opens | Closes | Neutral

  /** The server's transaction after it executed `batch`. */
  function Execute(open: bool, batch: seq<Statement>): bool {
    if batch == [] then open
    else
      var before := Execute(open, batch[..|batch| - 1]);
      match batch[|batch| - 1]
      case Opens => true
      case Closes => false
      case Neutral => before
  }

  /** The last boundary of a batch, and whether it opens a transaction. */
  function LastBoundary(batch: seq<Statement>): Option<bool> {
    if batch == [] then None
    else
      match batch[|batch| - 1]
      case Opens => Some(true)
      case Closes => Some(false)
      case Neutral => LastBoundary(batch[..|batch| - 1])
  }

  /** The flag before the packet leaves. */
  function Pending(flag: bool, batch: seq<Statement>): bool {
    LastBoundary(batch).GetOr(flag)
  }

  /** `restore_tx_on_error`. */
  function Restored(prev: bool, batch: seq<Statement>): bool {
    match LastBoundary(batch)
    case Some(false) => prev || Opens in batch
    case None => prev
    case Some(true) => true
  }

  lemma {:induction false} ExecuteIsLastBoundary(open: bool, batch: seq<Statement>)
    ensures Execute(open, batch) == LastBoundary(batch).GetOr(open)
  {
    if batch != [] {
      ExecuteIsLastBoundary(open, batch[..|batch| - 1]);
    }
  }

  /** After a failed batch the flag never hides an open transaction, whichever prefix the server executed. */
  lemma {:induction false} RestoredIsSound(open: bool, prev: bool, batch: seq<Statement>, executed: nat)
    requires executed <= |batch| && (open ==> prev)
    ensures Execute(open, batch[..executed]) ==> Restored(prev, batch)
  {
    ExecuteIsLastBoundary(open, batch[..executed]);
    NoBoundaryInPrefix(batch, executed);
    if LastBoundary(batch[..executed]) == Some(true) {
      OpensSomewhere(batch[..executed]);
    }
  }

  lemma {:induction false} OpensSomewhere(batch: seq<Statement>)
    requires LastBoundary(batch) == Some(true)
    ensures Opens in batch
  {
    if batch[|batch| - 1].Neutral? {
      OpensSomewhere(batch[..|batch| - 1]);
    }
  }

  lemma {:induction false} NoBoundaryInPrefix(batch: seq<Statement>, n: nat)
    requires n <= |batch|
    ensures LastBoundary(batch).None? ==> LastBoundary(batch[..n]).None?
  {
    if n < |batch| {
      assert batch[..|batch| - 1][..n] == batch[..n];
      if LastBoundary(batch).None? {
        NoBoundaryInPrefix(batch[..|batch| - 1], n);
      }
    } else {
      assert batch[..n] == batch;
    }
  }

  /** The flag a failed batch leaves is the least sound one that looks only at the batch and the earlier flag: when it
      is raised, some prefix of the batch, from some state the earlier flag allows, does leave a transaction open. */
  lemma RestoredIsTight(prev: bool, batch: seq<Statement>)
    requires Restored(prev, batch)
    ensures exists open, executed ::
              (open ==> prev) && 0 <= executed <= |batch| && Execute(open, batch[..executed])
  {
    if prev {
      assert batch[..0] == [];
      assert Execute(true, batch[..0]);
    } else {
      if LastBoundary(batch) == Some(true) {
        OpensSomewhere(batch);
      }
      var i :| 0 <= i < |batch| && batch[i] == Opens;
      assert batch[..i + 1][|batch[..i + 1]| - 1] == Opens;
      assert Execute(false, batch[..i + 1]);
    }
  }

  /** With the flag back at `prev`, a transaction that the executed part of the batch leaves open is hidden. */
  predicate Exposes(prev: bool, batch: seq<Statement>, open: bool, executed: nat) {
    (open ==> prev) && executed <= |batch| && Execute(open, batch[..executed]) && !prev
  }

  /** A failed send puts the flag back. If the server may have got the packet all the same, the flag can hide an open
      transaction if and only if it was down and the batch opens one. */
  lemma PutBackIsSound(prev: bool, batch: seq<Statement>)
    ensures (exists open, executed: nat :: Exposes(prev, batch, open, executed)) <==> !prev && Opens in batch
  {
    if open, executed: nat :| Exposes(prev, batch, open, executed) {
      ExecuteIsLastBoundary(open, batch[..executed]);
      OpensSomewhere(batch[..executed]);
    }
    if !prev && Opens in batch {
      var i :| 0 <= i < |batch| && batch[i] == Opens;
      assert batch[..i + 1][|batch[..i + 1]| - 1] == Opens;
      assert Exposes(prev, batch, false, i + 1);
    }
  }
}

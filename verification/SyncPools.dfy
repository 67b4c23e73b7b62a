/** The synchronous connection pool (src/pool.rs) as a step system over its locked state: any number of workers that
    check connections out, run batches on them, fail or succeed, and release them, while the pool may be closed. */
module SyncPools {
  import opened Bytes
  import opened Transactions

  /** A connection, seen from the pool: whether it is usable, its transaction flag, and whether the server has a
      transaction open. */
  datatype Conn = Conn(connected: bool, flag: bool, serverOpen: bool)

  const FRESH := Conn(true, false, false)

  /** The flag does not hide an open transaction of a usable connection (`Connections.RunBatch` keeps this, unless the
      flush of an opening batch times out). */
  predicate Tracked(c: Conn) {
    c.connected && c.serverOpen ==> c.flag
  }

  /** A worker: without a connection; connecting, with its place in the total taken; holding a connection; in
      `release_with`, before and behind the lock; or in `ensure_min`, connecting outside the lock. */
  datatype Worker =
    | Free
    | Connecting
    | Leased(conn: Conn)
    | Releasing(conn: Conn, destroy: bool)
    | Destroyed
    | Refilling

  datatype SyncPool = SyncPool(
    max: nat, min: nat, rollback: bool, idle: seq<Conn>, total: nat, closed: bool, workers: seq<Worker>)

  /** How a batch ends on a connection. Its packet may not go out whole; then nothing is executed and the flag is put
      back. Where only the flush behind it failed the flag is put back, too, but the packet may still be executed. After
      any failure the connection may be retired. */
  datatype Ran =
    | Succeeded
    | Unsent(retired: bool)
    | Unflushed(executed: nat, retired: bool)
    | FailedAfter(executed: nat, retired: bool)

  datatype Event =
    | NewWorker
    | Get(i: nat, stale: nat)
    | Connected(i: nat, ok: bool)
    | Run(i: nat, batch: seq<Statement>, ran: Ran)
    | Release(i: nat, sqlErrorOnly: bool, wornOut: bool)
    | RollBack(i: nat, ran: Ran)
    | Return(i: nat)
    | EnsureMin(i: nat)
    | Refilled(i: nat, ok: bool)
    | Close

  function To(p: SyncPool, i: nat, w: Worker): SyncPool
    requires i < |p.workers|
  {
    p.(workers := p.workers[i := w])
  }

  function UpTo(batch: seq<Statement>, n: nat): seq<Statement> {
    if n <= |batch| then batch[..n] else batch
  }

  /** A batch on a connection, as the session tracks it and as the server executes it. */
  function AfterBatch(c: Conn, batch: seq<Statement>, ran: Ran): Conn {
    match ran
    case Succeeded => c.(flag := Pending(c.flag, batch), serverOpen := Execute(c.serverOpen, batch))
    case Unsent(retired) => c.(connected := c.connected && !retired)
    case Unflushed(executed, retired) =>
      Conn(c.connected && !retired, c.flag, Execute(c.serverOpen, UpTo(batch, executed)))
    case FailedAfter(executed, retired) =>
      Conn(c.connected && !retired, Restored(c.flag, batch), Execute(c.serverOpen, UpTo(batch, executed)))
  }

  /** `get`, under the lock: stale connections go, then a usable one is handed out, or a new one is begun, or the
      worker waits. */
  function OnGet(p: SyncPool, i: nat, stale: nat): SyncPool
    requires i < |p.workers|
  {
    if p.closed then p
    else if stale < |p.idle| then
      var dropped := p.(idle := p.idle[stale + 1..], total := Less(p.total, stale));
      To(dropped, i, Leased(p.idle[stale]))
    else
      var emptied := p.(idle := [], total := Less(p.total, |p.idle|));
      if emptied.total < p.max then To(emptied.(total := emptied.total + 1), i, Connecting) else emptied
  }

  /** `release_with`, before the lock: an error that is no SQL error, a worn-out or a closed connection is destroyed; a
      leaked transaction is rolled back first. */
  function OnRelease(p: SyncPool, i: nat, c: Conn, sqlErrorOnly: bool, wornOut: bool): SyncPool
    requires i < |p.workers|
  {
    To(p, i, Releasing(c, !sqlErrorOnly || wornOut || !c.connected))
  }

  /** Whether `release_with` sends a ROLLBACK. */
  predicate MustRollBack(p: SyncPool, c: Conn, destroy: bool) {
    !destroy && p.rollback && c.flag
  }

  function OnRollBack(p: SyncPool, i: nat, c: Conn, ran: Ran): SyncPool
    requires i < |p.workers|
  {
    To(p, i, Releasing(AfterBatch(c, [Closes], ran), !ran.Succeeded?))
  }

  /** `release_with`, under the lock. */
  function OnReturn(p: SyncPool, i: nat, c: Conn, destroy: bool): SyncPool
    requires i < |p.workers|
  {
    if destroy || p.closed then To(p.(total := Less(p.total, 1)), i, Destroyed)
    else To(p.(idle := p.idle + [c]), i, Free)
  }

  /** The end of `ensure_min`. A refill is not counted before it is idle. */
  function OnRefilled(p: SyncPool, i: nat, ok: bool): SyncPool
    requires i < |p.workers|
  {
    if ok && !p.closed && p.total < p.max then To(p.(idle := p.idle + [FRESH], total := p.total + 1), i, Free)
    else To(p, i, Free)
  }

  function WorkerStep(p: SyncPool, i: nat, e: Event): Option<SyncPool>
    requires i < |p.workers|
  {
    match p.workers[i]
    case Free => if e.Get? then Some(OnGet(p, i, e.stale)) else None
    case Connecting =>
      if !e.Connected? then None
      else Some(if e.ok then To(p, i, Leased(FRESH)) else To(p.(total := Less(p.total, 1)), i, Free))
    case Leased(c) =>
      if e.Run? && c.connected then Some(To(p, i, Leased(AfterBatch(c, e.batch, e.ran))))
      else if e.Release? then Some(OnRelease(p, i, c, e.sqlErrorOnly, e.wornOut))
      else None
    case Releasing(c, destroy) =>
      if e.RollBack? && MustRollBack(p, c, destroy) then Some(OnRollBack(p, i, c, e.ran))
      else if e.Return? && !MustRollBack(p, c, destroy) then Some(OnReturn(p, i, c, destroy))
      else None
    case Destroyed =>
      if e.EnsureMin? then Some(To(p, i, if p.total < p.min && !p.closed then Refilling else Free)) else None
    case Refilling => if e.Refilled? then Some(OnRefilled(p, i, e.ok)) else None
  }

  /** One step of the system; an event that cannot happen changes nothing. `close` empties the pool. */
  function Step(p: SyncPool, e: Event): SyncPool {
    match e
    case NewWorker => p.(workers := p.workers + [Free])
    case Close => p.(closed := true, total := Less(p.total, |p.idle|), idle := [])
    case _ => if e.i < |p.workers| then WorkerStep(p, e.i, e).GetOr(p) else p
  }

  /** A pool with `warm` connections made by `new`. */
  function Open(max: nat, min: nat, rollback: bool, warm: nat): SyncPool {
    SyncPool(max, min, rollback, seq(warm, _ => FRESH), warm, false, [])
  }

  function Play(start: SyncPool, schedule: seq<Event>): SyncPool {
    if schedule == [] then start else Step(Play(start, schedule[..|schedule| - 1]), schedule[|schedule| - 1])
  }

  // -- Accounting -----------------------------------------------------------------------------------

  /** The worker has a place in the total. */
  function Counted(w: Worker): nat {
    if w.Connecting? || w.Leased? || w.Releasing? then 1 else 0
  }

  function Sum(workers: seq<Worker>): nat {
    if workers == [] then 0 else Counted(workers[0]) + Sum(workers[1..])
  }

  lemma {:induction false} SumUpdate(workers: seq<Worker>, i: nat, w: Worker)
    requires i < |workers|
    ensures Sum(workers[i := w]) + Counted(workers[i]) == Sum(workers) + Counted(w)
  {
    if i == 0 {
      assert workers[i := w][1..] == workers[1..];
    } else {
      SumUpdate(workers[1..], i - 1, w);
      assert workers[i := w][1..] == workers[1..][i - 1 := w];
    }
  }

  lemma {:induction false} SumAppend(workers: seq<Worker>, w: Worker)
    ensures Sum(workers + [w]) == Sum(workers) + Counted(w)
  {
    if workers == [] {
      assert workers + [w] == [w];
    } else {
      FirstOfConcat(workers, [w]);
      SumAppend(workers[1..], w);
    }
  }

  /** The connection a worker has; `sound` says that no flag was left hiding a transaction. */
  predicate WorkerOk(w: Worker, sound: bool) {
    match w
    case Leased(c) => sound ==> Tracked(c)
    case Releasing(c, destroy) => (sound ==> Tracked(c)) && (!c.connected ==> destroy)
    case _ => true
  }

  /** An idle connection: usable, with `rollback_on_release` without a flag, and tracked if `sound`. */
  predicate IdleOk(rollback: bool, c: Conn, sound: bool) {
    c.connected && (rollback ==> !c.flag) && (sound ==> Tracked(c))
  }

  ghost predicate Invariant(p: SyncPool, sound: bool) {
    && p.total == |p.idle| + Sum(p.workers) <= p.max
    && (forall j :: 0 <= j < |p.idle| ==> IdleOk(p.rollback, p.idle[j], sound))
    && (forall i :: 0 <= i < |p.workers| ==> WorkerOk(p.workers[i], sound))
  }

  /** The flush of a batch that opens a transaction fails behind a flag that is down. */
  predicate Hides(p: SyncPool, e: Event) {
    && e.Run? && e.i < |p.workers| && p.workers[e.i].Leased?
    && e.ran.Unflushed? && !p.workers[e.i].conn.flag && Opens in e.batch
  }

  /** A batch keeps the flag sound, unless its flush failed behind a flag that is down and it opens a transaction; and
      exact, unless it failed after it was sent. */
  lemma BatchKeepsTracked(c: Conn, batch: seq<Statement>, ran: Ran)
    requires Tracked(c) && c.connected
    ensures !(ran.Unflushed? && !c.flag && Opens in batch) ==> Tracked(AfterBatch(c, batch, ran))
    ensures (ran.Succeeded? || ran.Unsent?) && c.flag == c.serverOpen ==>
              AfterBatch(c, batch, ran).flag == AfterBatch(c, batch, ran).serverOpen
  {
    assert batch[..|batch|] == batch;
    match ran
    case Succeeded => ExecuteIsLastBoundary(c.serverOpen, batch);
    case Unsent(_) =>
    case Unflushed(executed, _) =>
      var n := if executed <= |batch| then executed else |batch|;
      PutBackIsSound(c.flag, batch);
      assert Execute(c.serverOpen, batch[..n]) && !c.flag ==> Exposes(c.flag, batch, c.serverOpen, n);
    case FailedAfter(executed, _) =>
      RestoredIsSound(c.serverOpen, c.flag, batch, if executed <= |batch| then executed else |batch|);
  }

  lemma RollbackCloses(c: Conn)
    ensures !AfterBatch(c, [Closes], Succeeded).serverOpen && !AfterBatch(c, [Closes], Succeeded).flag
    ensures AfterBatch(c, [Closes], Succeeded).connected == c.connected
  {
  }

  /** One worker moves on: the total follows. */
  lemma MoveKeeps(p: SyncPool, r: SyncPool, i: nat, w: Worker, sound: bool)
    requires Invariant(p, sound) && i < |p.workers| && r.workers == p.workers[i := w]
    requires r.max == p.max && r.rollback == p.rollback
    requires r.total + |p.idle| + Counted(p.workers[i]) == p.total + |r.idle| + Counted(w) && r.total <= r.max
    requires forall j :: 0 <= j < |r.idle| ==> IdleOk(p.rollback, r.idle[j], sound)
    requires WorkerOk(w, sound)
    ensures Invariant(r, sound)
  {
    SumUpdate(p.workers, i, w);
  }

  lemma {:induction false} SumAtLeast(workers: seq<Worker>, i: nat)
    requires i < |workers|
    ensures Counted(workers[i]) <= Sum(workers)
  {
    if i > 0 {
      SumAtLeast(workers[1..], i - 1);
    }
  }

  lemma GetKeeps(p: SyncPool, i: nat, stale: nat, sound: bool)
    requires Invariant(p, sound) && i < |p.workers| && p.workers[i].Free?
    ensures Invariant(OnGet(p, i, stale), sound)
  {
    var r := OnGet(p, i, stale);
    if !p.closed {
      assert r.workers == p.workers[i := r.workers[i]];
      if stale < |p.idle| {
        assert IdleOk(p.rollback, p.idle[stale], sound);
      }
      MoveKeeps(p, r, i, r.workers[i], sound);
    }
  }

  lemma LeasedKeeps(p: SyncPool, i: nat, e: Event, sound: bool)
    requires Invariant(p, sound) && i < |p.workers| && p.workers[i].Leased? && WorkerStep(p, i, e).Some?
    requires (e.Run? ==> e.i == i) && !(sound && Hides(p, e))
    ensures Invariant(WorkerStep(p, i, e).value, sound)
  {
    var r := WorkerStep(p, i, e).value;
    assert WorkerOk(p.workers[i], sound);
    if e.Run? && sound {
      BatchKeepsTracked(p.workers[i].conn, e.batch, e.ran);
    }
    MoveKeeps(p, r, i, r.workers[i], sound);
  }

  lemma ReleasingKeeps(p: SyncPool, i: nat, e: Event, sound: bool)
    requires Invariant(p, sound) && i < |p.workers| && p.workers[i].Releasing? && WorkerStep(p, i, e).Some?
    ensures Invariant(WorkerStep(p, i, e).value, sound)
  {
    var r := WorkerStep(p, i, e).value;
    var c := p.workers[i].conn;
    assert WorkerOk(p.workers[i], sound);
    SumAtLeast(p.workers, i);
    if e.RollBack? {
      if sound {
        BatchKeepsTracked(c, [Closes], e.ran);
      }
      if e.ran.Succeeded? {
        RollbackCloses(c);
      }
    }
    MoveKeeps(p, r, i, r.workers[i], sound);
  }

  lemma WorkerKeepsSettings(p: SyncPool, i: nat, e: Event)
    requires i < |p.workers| && WorkerStep(p, i, e).Some?
    ensures WorkerStep(p, i, e).value.rollback == p.rollback && WorkerStep(p, i, e).value.max == p.max
  {
  }

  lemma WorkerKeeps(p: SyncPool, i: nat, e: Event, sound: bool)
    requires Invariant(p, sound) && i < |p.workers| && WorkerStep(p, i, e).Some?
    requires (e.Run? ==> e.i == i) && !(sound && Hides(p, e))
    ensures Invariant(WorkerStep(p, i, e).value, sound)
    ensures WorkerStep(p, i, e).value.rollback == p.rollback && WorkerStep(p, i, e).value.max == p.max
  {
    WorkerKeepsSettings(p, i, e);
    hide OnGet, OnRelease, OnRollBack, OnReturn, AfterBatch;
    var r := WorkerStep(p, i, e).value;
    match p.workers[i]
    case Free => GetKeeps(p, i, e.stale, sound);
    case Leased(_) => LeasedKeeps(p, i, e, sound);
    case Releasing(_, _) => ReleasingKeeps(p, i, e, sound);
    case Connecting =>
      SumAtLeast(p.workers, i);
      MoveKeeps(p, r, i, r.workers[i], sound);
    case Destroyed => MoveKeeps(p, r, i, r.workers[i], sound);
    case Refilling => MoveKeeps(p, r, i, r.workers[i], sound);
  }

  lemma StepKeeps(p: SyncPool, e: Event, sound: bool)
    requires Invariant(p, sound) && !(sound && Hides(p, e))
    ensures Invariant(Step(p, e), sound) && Step(p, e).rollback == p.rollback && Step(p, e).max == p.max
  {
    hide WorkerStep;
    match e
    case NewWorker => SumAppend(p.workers, Free);
    case Close =>
    case _ =>
      if e.i < |p.workers| && WorkerStep(p, e.i, e).Some? {
        WorkerKeeps(p, e.i, e, sound);
      }
  }

  /** No step of the run hides a transaction behind a failed flush. */
  predicate HidesNothing(start: SyncPool, schedule: seq<Event>) {
    if schedule == [] then true
    else
      var before := schedule[..|schedule| - 1];
      HidesNothing(start, before) && !Hides(Play(start, before), schedule[|schedule| - 1])
  }

  /** In every run the total is the number of idle, leased and connecting connections, never more than the maximum;
      and with `rollback_on_release`, where no failed flush hides a transaction, no idle connection has a transaction
      open on its server. */
  lemma {:induction false} RunsAreSafe(max: nat, min: nat, rollback: bool, warm: nat, schedule: seq<Event>)
    requires warm <= min <= max
    ensures var start := Open(max, min, rollback, warm);
            var p := Play(start, schedule);
            && Invariant(p, HidesNothing(start, schedule)) && p.rollback == rollback && p.max == max && p.total <= max
            && (rollback && HidesNothing(start, schedule) ==>
                  forall j :: 0 <= j < |p.idle| ==> !p.idle[j].serverOpen)
    decreases |schedule|
  {
    hide Step, Hides;
    var start := Open(max, min, rollback, warm);
    if schedule == [] {
      assert forall j :: 0 <= j < |start.idle| ==> start.idle[j] == FRESH;
    } else {
      var before, last := schedule[..|schedule| - 1], schedule[|schedule| - 1];
      RunsAreSafe(max, min, rollback, warm, before);
      StepKeeps(Play(start, before), last, HidesNothing(start, schedule));
    }
    OpenOnlyBehindFlags(Play(start, schedule), HidesNothing(start, schedule));
  }

  lemma OpenOnlyBehindFlags(p: SyncPool, sound: bool)
    requires Invariant(p, sound)
    ensures p.rollback && sound ==> forall j :: 0 <= j < |p.idle| ==> !p.idle[j].serverOpen
  {
    forall j | p.rollback && sound && 0 <= j < |p.idle|
      ensures !p.idle[j].serverOpen
    {
      assert IdleOk(p.rollback, p.idle[j], sound);
    }
  }

  lemma PlayOne(start: SyncPool, schedule: seq<Event>, e: Event)
    ensures Play(start, schedule + [e]) == Step(Play(start, schedule), e)
  {
    assert (schedule + [e])[..|schedule|] == schedule;
  }

  /** One worker, in a pool that rolls back on release. */
  function Alone(max: nat, idle: seq<Conn>, total: nat, w: Worker): SyncPool {
    SyncPool(max, 0, true, idle, total, false, [w])
  }

  /** The flush of an opening batch fails, and nothing of it is seen. */
  lemma HidingRun(max: nat, batch: seq<Statement>, executed: nat)
    requires executed <= |batch| && Execute(false, batch[..executed])
    ensures Step(Alone(max, [], 1, Leased(FRESH)), Run(0, batch, Unflushed(executed, false)))
            == Alone(max, [], 1, Leased(Conn(true, false, true)))
  {
  }

  lemma AloneSteps(max: nat, c: Conn)
    requires max > 0 && c.connected && !c.flag
    ensures Step(Open(max, 0, true, 0), NewWorker) == Alone(max, [], 0, Free)
    ensures Step(Alone(max, [], 0, Free), Get(0, 0)) == Alone(max, [], 1, Connecting)
    ensures Step(Alone(max, [], 1, Connecting), Connected(0, true)) == Alone(max, [], 1, Leased(FRESH))
    ensures Step(Alone(max, [], 1, Leased(c)), Release(0, true, false)) == Alone(max, [], 1, Releasing(c, false))
    ensures Step(Alone(max, [], 1, Releasing(c, false)), Return(0)) == Alone(max, [c], 1, Free)
  {
  }

  /** A worker takes a new connection, the flush of a batch that opens a transaction fails, and it lets the connection
      go: the flag is down, so nothing is rolled back, and the idle connection has a transaction open on its server. */
  lemma FlushHidesTransaction(max: nat, batch: seq<Statement>)
    requires max > 0 && Opens in batch
    ensures exists schedule :: Play(Open(max, 0, true, 0), schedule) == Alone(max, [Conn(true, false, true)], 1, Free)
  {
    hide Step, Play;
    PutBackIsSound(false, batch);
    var open, executed: nat :| Exposes(false, batch, open, executed);
    var start, run := Open(max, 0, true, 0), Run(0, batch, Unflushed(executed, false));
    var s1 := [NewWorker];
    var s2 := s1 + [Get(0, 0)];
    var s3 := s2 + [Connected(0, true)];
    var s4 := s3 + [run];
    var s5 := s4 + [Release(0, true, false)];
    AloneSteps(max, Conn(true, false, true));
    HidingRun(max, batch, executed);
    PlayNothing(start);
    assert [] + s1 == s1;
    PlayOne(start, [], NewWorker);
    PlayOne(start, s1, Get(0, 0));
    PlayOne(start, s2, Connected(0, true));
    PlayOne(start, s3, run);
    PlayOne(start, s4, Release(0, true, false));
    PlayOne(start, s5, Return(0));
    assert Play(start, s5 + [Return(0)]) == Alone(max, [Conn(true, false, true)], 1, Free);
  }

  lemma PlayNothing(start: SyncPool)
    ensures Play(start, []) == start
  {
  }
}

/** Client-side transaction isolation of the native async client (src/native_async.rs) as a step system: client clones
    and transactions over one session mutex, a bounded FIFO of requests and the driver task. Futures and transaction
    guards can be dropped at any await. */
module SessionLeases {
  import opened Bytes

  const REQUEST_QUEUE: nat := 32

  datatype Kind = Begin | Commit | Rollback | Other

  /** A queued request; `abandoned` is a dropped response receiver. A request of a plain client carries the session
      lease while it is queued and processed. */
  datatype Request = Request(id: nat, owner: nat, kind: Kind, abandoned: bool)

  datatype LeaseOwner = ByAgent(i: nat) | ByRequest(id: nat)

  /** How a transaction's guard came free. */
  datatype End = Committed | RolledBack | Stopped

  /** A plain request: asking for the lease, sending, waiting for the reply. A transaction: asking for its guard,
      sending BEGIN and waiting for it; open; sending COMMIT or ROLLBACK and waiting for it; the cleanup task of a
      dropped transaction, sending ROLLBACK and waiting for it, or about to drop the guard behind a stop. */
  datatype Agent =
    | Asking | Sending | Replying(id: nat) | Over
    | GuardAsking | Beginning | BeginSent(id: nat) | Open
    | Ending(kind: Kind) | EndSent(kind: Kind, id: nat)
    | Cleaning | CleanSent(id: nat) | Stopping | Ended

  /** The driver at the head of its loop, behind its look at `closing`, processing the head of the queue, or out. */
  datatype Driver = Head | Checked | Running | Exited

  datatype Entry =
    | Started(request: Request)
    | Completed(request: Request, ok: bool)
    | ToldToStop
    | Released(owner: nat, how: End)

  /** `late` counts the statements started after the driver was told to stop. */
  datatype Session = Session(
    lease: Option<LeaseOwner>, agents: seq<Agent>, pipe: seq<Request>, driver: Driver, closing: bool, flag: bool,
    answers: map<nat, bool>, next: nat, late: nat, log: seq<Entry>)

  datatype Event =
    | NewRequest
    | NewTransaction
    | Take(i: nat)
    | Send(i: nat)
    | SendRefused(i: nat)
    | Finish(i: nat, kind: Kind)
    | Observe(i: nat)
    | Drop(i: nat)
    | DropWithoutRuntime(i: nat)
    | CleanupTimeout(i: nat)
    | FreeGuard(i: nat)
    | AbandonStatement(k: nat)
    | Stop
    | Check
    | Repoll
    | Receive
    | Complete(ok: bool, reusable: bool, flag: bool)
    | Drain

  function Fresh(): Session {
    Session(None, [], [], Head, false, false, map[], 0, 0, [])
  }

  function Become(s: Session, i: nat, a: Agent): Session
    requires i < |s.agents|
  {
    s.(agents := s.agents[i := a])
  }

  /** A guard that is dropped. */
  function Unlock(s: Session, o: LeaseOwner): Session {
    if s.lease == Some(o) then s.(lease := None) else s
  }

  /** `stop`. */
  function Tell(s: Session): Session {
    s.(closing := true, log := s.log + [ToldToStop])
  }

  /** A request is queued behind the others. */
  function Push(s: Session, i: nat, kind: Kind): Session {
    s.(pipe := s.pipe + [Request(s.next, i, kind, false)], next := s.next + 1)
  }

  function AbandonIn(pipe: seq<Request>, id: nat): seq<Request> {
    seq(|pipe|, k requires 0 <= k < |pipe| => if pipe[k].id == id then pipe[k].(abandoned := true) else pipe[k])
  }

  function Abandon(s: Session, id: nat): Session {
    s.(pipe := AbandonIn(s.pipe, id))
  }

  /** The session mutex is granted. `transaction` refuses at once when one is open already. */
  function OnTake(s: Session, i: nat): Option<Session>
    requires i < |s.agents|
  {
    if s.lease.Some? then None
    else
      match s.agents[i]
      case Asking => Some(Become(s.(lease := Some(ByAgent(i))), i, Sending))
      case GuardAsking =>
        if s.flag then Some(Become(s, i, Over)) else Some(Become(s.(lease := Some(ByAgent(i))), i, Beginning))
      case _ => None
  }

  /** Behind the driver's loop the queue is closed at some point; then a send fails. */
  function OnSendRefused(s: Session, i: nat): Option<Session>
    requires i < |s.agents|
  {
    if !s.driver.Exited? then None
    else
      match s.agents[i]
      case Sending => Some(Unlock(Become(s, i, Over), ByAgent(i)))
      case Beginning => Some(Become(s, i, Cleaning))
      case Ending(_) => Some(Become(s, i, Cleaning))
      case Cleaning => Some(Tell(Become(s, i, Stopping)))
      case _ => None
  }

  /** The requests that wait in the channel: all but the one that is processed. */
  function Waiting(s: Session): int {
    |s.pipe| - if s.driver.Running? then 1 else 0
  }

  /** The request of an agent enters the queue. A plain request takes its lease along. Until the queue is closed this
      can happen behind the driver's loop, too. */
  function OnSend(s: Session, i: nat): Option<Session>
    requires i < |s.agents|
  {
    if Waiting(s) >= REQUEST_QUEUE then None
    else
      match s.agents[i]
      case Sending => Some(Push(Become(s.(lease := Some(ByRequest(s.next))), i, Replying(s.next)), i, Other))
      case Beginning => Some(Push(Become(s, i, BeginSent(s.next)), i, Begin))
      case Open => Some(Push(s, i, Other))
      case Ending(kind) => Some(Push(Become(s, i, EndSent(kind, s.next)), i, kind))
      case Cleaning => Some(Push(Become(s, i, CleanSent(s.next)), i, Rollback))
      case _ => None
  }

  function Release(s: Session, i: nat, how: End): Session
    requires i < |s.agents|
  {
    Unlock(Become(s, i, Ended), ByAgent(i)).(log := s.log + [Released(i, how)])
  }

  /** An agent sees the answer to its request. A transaction whose BEGIN, COMMIT or ROLLBACK fails is dropped. */
  function OnObserve(s: Session, i: nat): Option<Session>
    requires i < |s.agents|
  {
    match s.agents[i]
    case Replying(id) => if id in s.answers then Some(Become(s, i, Over)) else None
    case BeginSent(id) => if id in s.answers then Some(Become(s, i, if s.answers[id] then Open else Cleaning)) else None
    case EndSent(kind, id) =>
      if id !in s.answers then None
      else if s.answers[id] then Some(Release(s, i, if kind.Commit? then Committed else RolledBack))
      else Some(Become(s, i, Cleaning))
    case CleanSent(id) =>
      if id !in s.answers then None
      else if s.answers[id] then Some(Release(s, i, RolledBack))
      else Some(Tell(Become(s, i, Stopping)))
    case _ => None
  }

  /** A future, or a transaction, is dropped. A dropped transaction spawns its cleanup. */
  function OnDrop(s: Session, i: nat): Option<Session>
    requires i < |s.agents|
  {
    match s.agents[i]
    case Asking => Some(Become(s, i, Over))
    case GuardAsking => Some(Become(s, i, Over))
    case Sending => Some(Unlock(Become(s, i, Over), ByAgent(i)))
    case Replying(id) => Some(Abandon(Become(s, i, Over), id))
    case Beginning => Some(Become(s, i, Cleaning))
    case Open => Some(Become(s, i, Cleaning))
    case Ending(_) => Some(Become(s, i, Cleaning))
    case BeginSent(id) => Some(Abandon(Become(s, i, Cleaning), id))
    case EndSent(_, id) => Some(Abandon(Become(s, i, Cleaning), id))
    case _ => None
  }

  /** Without a runtime there is no cleanup: the driver is told to stop before the guard goes. */
  function OnDropWithoutRuntime(s: Session, i: nat): Option<Session>
    requires i < |s.agents|
  {
    match s.agents[i]
    case Beginning => Some(Tell(Become(s, i, Stopping)))
    case Open => Some(Tell(Become(s, i, Stopping)))
    case Ending(_) => Some(Tell(Become(s, i, Stopping)))
    case BeginSent(id) => Some(Tell(Abandon(Become(s, i, Stopping), id)))
    case EndSent(_, id) => Some(Tell(Abandon(Become(s, i, Stopping), id)))
    case _ => None
  }

  /** The cleanup's ROLLBACK did not succeed in time. */
  function OnCleanupTimeout(s: Session, i: nat): Option<Session>
    requires i < |s.agents|
  {
    match s.agents[i]
    case Cleaning => Some(Tell(Become(s, i, Stopping)))
    case CleanSent(id) => Some(Tell(Abandon(Become(s, i, Stopping), id)))
    case _ => None
  }

  /** A step of one agent. */
  function AgentStep(s: Session, i: nat, e: Event): Option<Session>
    requires i < |s.agents|
  {
    match e
    case Take(_) => OnTake(s, i)
    case Send(_) => OnSend(s, i)
    case SendRefused(_) => OnSendRefused(s, i)
    case Finish(_, kind) =>
      if s.agents[i].Open? && (kind.Commit? || kind.Rollback?) then Some(Become(s, i, Ending(kind))) else None
    case Observe(_) => OnObserve(s, i)
    case Drop(_) => OnDrop(s, i)
    case DropWithoutRuntime(_) => OnDropWithoutRuntime(s, i)
    case CleanupTimeout(_) => OnCleanupTimeout(s, i)
    case FreeGuard(_) => if s.agents[i].Stopping? then Some(Release(s, i, Stopped)) else None
    case _ => None
  }

  /** The driver takes the next request; one that nobody waits for is skipped. */
  function OnReceive(s: Session): Option<Session> {
    if !s.driver.Checked? || s.pipe == [] then None
    else if s.pipe[0].abandoned then
      Some(Unlock(s.(pipe := s.pipe[1..], driver := Head), ByRequest(s.pipe[0].id)))
    else
      Some(s.(driver := Running, late := s.late + (if s.closing then 1 else 0), log := s.log + [Started(s.pipe[0])]))
  }

  /** The request is answered, and with it goes its lease. */
  function OnComplete(s: Session, ok: bool, reusable: bool, flag: bool): Option<Session> {
    if !s.driver.Running? || s.pipe == [] then None
    else
      var r := s.pipe[0];
      Some(Unlock(s.(pipe := s.pipe[1..], driver := if reusable then Head else Exited, flag := flag,
                     answers := s.answers[r.id := ok], log := s.log + [Completed(r, ok)]), ByRequest(r.id)))
  }

  /** Behind the loop the queue is drained: every late caller gets an error. */
  function OnDrain(s: Session): Option<Session> {
    if !s.driver.Exited? || s.pipe == [] then None
    else
      Some(Unlock(s.(pipe := s.pipe[1..], answers := s.answers[s.pipe[0].id := false]), ByRequest(s.pipe[0].id)))
  }

  function DriverStep(s: Session, e: Event): Option<Session> {
    match e
    case Check =>
      if s.driver.Head? then Some(s.(driver := if s.closing then Exited else Checked)) else None
    case Repoll => if s.driver.Checked? then Some(s.(driver := Head)) else None
    case Receive => OnReceive(s)
    case Complete(ok, reusable, flag) => OnComplete(s, ok, reusable, flag)
    case Drain => OnDrain(s)
    case _ => None
  }

  /** One step of the system; an event that cannot happen changes nothing. */
  function Step(s: Session, e: Event): Session {
    match e
    case NewRequest => s.(agents := s.agents + [Asking])
    case NewTransaction => s.(agents := s.agents + [GuardAsking])
    case Stop => Tell(s)
    case AbandonStatement(k) =>
      if k < |s.pipe| && s.pipe[k].kind.Other? then Abandon(s, s.pipe[k].id) else s
    case Check => DriverStep(s, e).GetOr(s)
    case Repoll => DriverStep(s, e).GetOr(s)
    case Receive => DriverStep(s, e).GetOr(s)
    case Complete(_, _, _) => DriverStep(s, e).GetOr(s)
    case Drain => DriverStep(s, e).GetOr(s)
    case _ => if e.i < |s.agents| then AgentStep(s, e.i, e).GetOr(s) else s
  }

  function Play(schedule: seq<Event>): Session {
    if schedule == [] then Fresh() else Step(Play(schedule[..|schedule| - 1]), schedule[|schedule| - 1])
  }

  // -- What runs keep ---------------------------------------------------------------------------

  /** The agent is a transaction that holds its guard. */
  predicate Guards(a: Agent) {
    a.Beginning? || a.BeginSent? || a.Open? || a.Ending? || a.EndSent? || a.Cleaning? || a.CleanSent? || a.Stopping?
  }

  /** The agent has sent nothing yet. */
  predicate New(a: Agent) {
    a.Asking? || a.Sending? || a.GuardAsking? || a.Beginning?
  }

  /** The BEGIN of transaction `i` was started. */
  ghost predicate Begun(log: seq<Entry>, i: nat) {
    exists r: Request :: Entry.Started(r) in log && r.owner == i && r.kind.Begin?
  }

  /** The guard of `i` was released behind a successful COMMIT or ROLLBACK. */
  ghost predicate Settled(log: seq<Entry>, i: nat) {
    Released(i, Committed) in log || Released(i, RolledBack) in log
  }

  ghost predicate Freed(log: seq<Entry>, i: nat) {
    Settled(log, i) || Released(i, Stopped) in log
  }

  /** A request of kind `kind` of agent `i` succeeded. */
  ghost predicate Succeeded(log: seq<Entry>, i: nat, kind: Kind) {
    exists r: Request :: Completed(r, true) in log && r.owner == i && r.kind == kind
  }

  /** Each statement that starts between the BEGIN of a transaction and the release of its guard is its own; a guard
      is released behind a successful COMMIT or ROLLBACK of its transaction, or behind a stop; and behind a COMMIT or
      ROLLBACK no statement of the transaction is left to start. */
  ghost predicate Isolated(log: seq<Entry>)
    decreases |log|
  {
    log == [] || (Isolated(log[..|log| - 1]) && Allowed(log[..|log| - 1], log[|log| - 1]))
  }

  ghost predicate Allowed(log: seq<Entry>, e: Entry) {
    match e
    case Started(r) =>
      (forall i: nat :: Begun(log, i) && !Freed(log, i) ==> r.owner == i) && !Settled(log, r.owner)
    case Released(i, Committed) => Succeeded(log, i, Commit)
    case Released(i, RolledBack) => Succeeded(log, i, Rollback)
    case Released(i, Stopped) => ToldToStop in log
    case _ => true
  }

  lemma IsolatedThen(log: seq<Entry>, e: Entry)
    requires Isolated(log) && Allowed(log, e)
    ensures Isolated(log + [e])
  {
    assert (log + [e])[..|log|] == log;
  }

  // -- The queue, seen from one agent ---------------------------------------------------------------

  predicate OwnNone(pipe: seq<Request>, i: nat) {
    forall k :: 0 <= k < |pipe| ==> pipe[k].owner != i
  }

  predicate OwnAll(pipe: seq<Request>, i: nat) {
    forall k :: 0 <= k < |pipe| ==> pipe[k].owner == i
  }

  /** Behind a request of `i` there are only its own. */
  predicate OwnBehind(pipe: seq<Request>, i: nat) {
    forall j, k :: 0 <= j < k < |pipe| && pipe[j].owner == i ==> pipe[k].owner == i
  }

  predicate OwnUpTo(pipe: seq<Request>, i: nat, id: nat) {
    forall k :: 0 <= k < |pipe| && pipe[k].owner == i ==> pipe[k].id <= id
  }

  /** The request `id`, while it is queued, is of kind `kind` and owned by `i`. */
  predicate Identified(pipe: seq<Request>, i: nat, kind: Kind, id: nat) {
    forall k :: 0 <= k < |pipe| && pipe[k].id == id ==> pipe[k].owner == i && pipe[k].kind == kind
  }

  predicate OwnBegin(pipe: seq<Request>, i: nat) {
    exists k :: 0 <= k < |pipe| && pipe[k].owner == i && pipe[k].kind.Begin?
  }

  /** Requests are numbered in the order of the queue, above every answered one. */
  predicate Numbered(pipe: seq<Request>, answers: map<nat, bool>, next: nat) {
    && (forall j, k :: 0 <= j < k < |pipe| ==> pipe[j].id < pipe[k].id)
    && (forall k :: 0 <= k < |pipe| ==> pipe[k].id < next)
    && (forall id :: id in answers ==> id < next)
    && (forall id, k :: id in answers && 0 <= k < |pipe| ==> id < pipe[k].id)
  }

  /** The same requests, but for who still waits. */
  predicate SamePipe(p: seq<Request>, q: seq<Request>) {
    |p| == |q| && forall k :: 0 <= k < |p| ==> p[k].id == q[k].id && p[k].owner == q[k].owner && p[k].kind == q[k].kind
  }

  // -- The invariant ------------------------------------------------------------------------------------

  ghost predicate GlobalOk(s: Session) {
    && Numbered(s.pipe, s.answers, s.next)
    && (forall k :: 0 <= k < |s.pipe| ==> s.pipe[k].owner < |s.agents|)
    && (forall i: nat :: Begun(s.log, i) || Freed(s.log, i) ==> i < |s.agents|)
    && (s.lease.Some? && s.lease.value.ByAgent? ==> s.lease.value.i < |s.agents|)
    && (s.closing ==> ToldToStop in s.log)
    && s.late <= 1 && (s.late == 1 ==> s.closing && !s.driver.Checked?)
    && (s.driver.Running? ==> s.pipe != [])
  }

  /** The request whose answer decides about the guard. */
  function Awaited(a: Agent): Option<(Kind, nat)> {
    match a
    case EndSent(kind, id) => Some((kind, id))
    case CleanSent(id) => Some((Rollback, id))
    case _ => None
  }

  ghost predicate AwaitedOk(s: Session, i: nat, kind: Kind, id: nat) {
    && (kind.Commit? || kind.Rollback?) && id < s.next
    && Identified(s.pipe, i, kind, id) && OwnUpTo(s.pipe, i, id)
    && (id in s.answers && s.answers[id] ==> Succeeded(s.log, i, kind))
  }

  /** Agent `i` holds the mutex exactly when it should; a transaction with its guard has only its own requests behind
      its first one, and only its own requests queued once its BEGIN was started. */
  ghost predicate Facts(a: Agent, i: nat, holds: bool, pipe: seq<Request>, log: seq<Entry>) {
    && (a.Sending? || Guards(a) <==> holds)
    && (Guards(a) ==> OwnBehind(pipe, i))
    && (Guards(a) && Begun(log, i) ==> OwnAll(pipe, i))
    && (Begun(log, i) ==> !New(a) && (Guards(a) || Freed(log, i)))
    && (OwnBegin(pipe, i) ==> Guards(a) || Freed(log, i))
    && (Freed(log, i) ==> a.Ended?)
    && (New(a) || Settled(log, i) ==> OwnNone(pipe, i))
    && (a.Stopping? ==> ToldToStop in log)
    && (a.Ending? ==> a.kind.Commit? || a.kind.Rollback?)
  }

  ghost predicate AgentOk(s: Session, i: nat)
    requires i < |s.agents|
  {
    var a := s.agents[i];
    && Facts(a, i, s.lease == Some(ByAgent(i)), s.pipe, s.log)
    && (Awaited(a).Some? ==> AwaitedOk(s, i, Awaited(a).value.0, Awaited(a).value.1))
  }

  ghost predicate Invariant(s: Session) {
    && GlobalOk(s) && Isolated(s.log)
    && forall i :: 0 <= i < |s.agents| ==> AgentOk(s, i)
  }

  /** A step of agent `i` that queues nothing and releases nothing. */
  ghost predicate Quiet(s: Session, r: Session, i: nat)
    requires i < |s.agents|
  {
    && |r.agents| == |s.agents| && (forall j :: 0 <= j < |s.agents| && j != i ==> r.agents[j] == s.agents[j])
    && (forall j: nat :: j != i ==> (r.lease == Some(ByAgent(j)) <==> s.lease == Some(ByAgent(j))))
    && SamePipe(s.pipe, r.pipe) && r.answers == s.answers && r.next == s.next
    && r.driver == s.driver && r.late == s.late
    && ((r.log == s.log && r.closing == s.closing) || (r.log == s.log + [ToldToStop] && r.closing))
  }

  lemma SameLog(log: seq<Entry>, e: Entry, i: nat)
    ensures e.ToldToStop? || e.Completed? ==>
              (Begun(log + [e], i) <==> Begun(log, i)) && (Freed(log + [e], i) <==> Freed(log, i))
    ensures e.ToldToStop? || e.Completed? ==> (Settled(log + [e], i) <==> Settled(log, i))
    ensures forall kind :: Succeeded(log, i, kind) ==> Succeeded(log + [e], i, kind)
  {
  }

  lemma QuietOther(s: Session, r: Session, i: nat, j: nat)
    requires i < |s.agents| && j < |s.agents| && j != i && Quiet(s, r, i) && AgentOk(s, j)
    ensures AgentOk(r, j)
  {
    SameLog(s.log, ToldToStop, j);
  }

  lemma QuietKeeps(s: Session, r: Session, i: nat)
    requires Invariant(s) && i < |s.agents| && Quiet(s, r, i) && AgentOk(r, i)
    ensures Invariant(r)
  {
    forall j | 0 <= j < |s.agents|
      ensures AgentOk(r, j)
    {
      if j != i {
        QuietOther(s, r, i, j);
      }
    }
    forall j: nat
      ensures (Begun(r.log, j) <==> Begun(s.log, j)) && (Freed(r.log, j) <==> Freed(s.log, j))
    {
      SameLog(s.log, ToldToStop, j);
    }
    IsolatedThen(s.log, ToldToStop);
  }

  lemma TakeKeeps(s: Session, i: nat)
    requires Invariant(s) && i < |s.agents| && OnTake(s, i).Some?
    ensures Invariant(OnTake(s, i).value)
  {
    assert AgentOk(s, i);
    QuietKeeps(s, OnTake(s, i).value, i);
  }

  /** A step towards the end of an agent: a plain request that is over, or a transaction that opens, is cleaned up, or
      stopped. */
  lemma TurnKeeps(s: Session, r: Session, i: nat)
    requires Invariant(s) && i < |s.agents| && Quiet(s, r, i)
    requires || r.agents[i].Over? || r.agents[i].Open? || r.agents[i].Cleaning?
             || (r.agents[i].Stopping? && r.log != s.log)
    requires (Guards(r.agents[i]) <==> Guards(s.agents[i])) && !s.agents[i].Ended?
    requires if Guards(r.agents[i]) then r.lease == s.lease else r.lease != Some(ByAgent(i))
    ensures Invariant(r)
  {
    assert AgentOk(s, i);
    SameLog(s.log, ToldToStop, i);
    QuietKeeps(s, r, i);
  }

  lemma AbandonsKeep(s: Session, i: nat)
    requires i < |s.agents|
    ensures match s.agents[i]
            case Replying(id) => SamePipe(s.pipe, AbandonIn(s.pipe, id))
            case BeginSent(id) => SamePipe(s.pipe, AbandonIn(s.pipe, id))
            case EndSent(_, id) => SamePipe(s.pipe, AbandonIn(s.pipe, id))
            case CleanSent(id) => SamePipe(s.pipe, AbandonIn(s.pipe, id))
            case _ => true
  {
  }

  lemma DropKeeps(s: Session, i: nat)
    requires Invariant(s) && i < |s.agents| && OnDrop(s, i).Some?
    ensures Invariant(OnDrop(s, i).value)
  {
    assert AgentOk(s, i);
    AbandonsKeep(s, i);
    TurnKeeps(s, OnDrop(s, i).value, i);
  }

  lemma DropWithoutRuntimeKeeps(s: Session, i: nat)
    requires Invariant(s) && i < |s.agents| && OnDropWithoutRuntime(s, i).Some?
    ensures Invariant(OnDropWithoutRuntime(s, i).value)
  {
    assert AgentOk(s, i);
    AbandonsKeep(s, i);
    TurnKeeps(s, OnDropWithoutRuntime(s, i).value, i);
  }

  lemma CleanupTimeoutKeeps(s: Session, i: nat)
    requires Invariant(s) && i < |s.agents| && OnCleanupTimeout(s, i).Some?
    ensures Invariant(OnCleanupTimeout(s, i).value)
  {
    assert AgentOk(s, i);
    AbandonsKeep(s, i);
    TurnKeeps(s, OnCleanupTimeout(s, i).value, i);
  }

  lemma FinishKeeps(s: Session, i: nat, kind: Kind)
    requires Invariant(s) && i < |s.agents| && s.agents[i].Open? && (kind.Commit? || kind.Rollback?)
    ensures Invariant(Become(s, i, Ending(kind)))
  {
    assert AgentOk(s, i);
    QuietKeeps(s, Become(s, i, Ending(kind)), i);
  }

  lemma RefusedSendKeeps(s: Session, i: nat)
    requires Invariant(s) && i < |s.agents| && OnSendRefused(s, i).Some?
    ensures Invariant(OnSendRefused(s, i).value)
  {
    assert AgentOk(s, i);
    TurnKeeps(s, OnSendRefused(s, i).value, i);
  }

  /** Whoever queues a request holds the mutex. */
  lemma PushKeeps(s: Session, a: Agent, i: nat, kind: Kind, lease: Option<LeaseOwner>)
    requires Invariant(s) && i < |s.agents| && s.lease == Some(ByAgent(i)) && !New(a)
    requires lease == s.lease || lease == Some(ByRequest(s.next))
    requires a.Sending? || Guards(a) <==> lease == s.lease
    requires (Guards(a) <==> Guards(s.agents[i])) && !a.Stopping? && !a.Ending?
    requires kind.Begin? ==> Guards(a)
    requires Awaited(a).Some? ==> Awaited(a).value == (kind, s.next) && (kind.Commit? || kind.Rollback?)
    ensures Invariant(Push(Become(s.(lease := lease), i, a), i, kind))
  {
    var r := Push(Become(s.(lease := lease), i, a), i, kind);
    assert AgentOk(s, i);
    forall j | 0 <= j < |s.agents|
      ensures AgentOk(r, j)
    {
      assert AgentOk(s, j);
    }
  }

  /** What the agent is behind its send, and whose the lease is. */
  function Sent(s: Session, i: nat): Option<(Agent, Kind, Option<LeaseOwner>)>
    requires i < |s.agents|
  {
    match s.agents[i]
    case Sending => Some((Replying(s.next), Other, Some(ByRequest(s.next))))
    case Beginning => Some((BeginSent(s.next), Begin, s.lease))
    case Open => Some((Open, Other, s.lease))
    case Ending(kind) => Some((EndSent(kind, s.next), kind, s.lease))
    case Cleaning => Some((CleanSent(s.next), Rollback, s.lease))
    case _ => None
  }

  lemma SendIsPush(s: Session, i: nat)
    requires i < |s.agents| && OnSend(s, i).Some?
    ensures Sent(s, i).Some?
    ensures var (a, kind, lease) := Sent(s, i).value;
            OnSend(s, i).value == Push(Become(s.(lease := lease), i, a), i, kind)
  {
    assert s.agents[i].Open? ==> s.agents[i := Open] == s.agents;
  }

  lemma SendKeeps(s: Session, i: nat)
    requires Invariant(s) && i < |s.agents| && OnSend(s, i).Some?
    ensures Invariant(OnSend(s, i).value)
  {
    assert AgentOk(s, i);
    SendIsPush(s, i);
    var (a, kind, lease) := Sent(s, i).value;
    PushKeeps(s, a, i, kind, lease);
  }

  lemma ReleaseKeeps(s: Session, i: nat, how: End)
    requires Invariant(s) && i < |s.agents| && Guards(s.agents[i]) && Allowed(s.log, Released(i, how))
    requires !how.Stopped? ==> OwnNone(s.pipe, i)
    ensures Invariant(Release(s, i, how))
  {
    var r := Release(s, i, how);
    var e := Released(i, how);
    assert AgentOk(s, i);
    IsolatedThen(s.log, e);
    assert forall j: nat :: Begun(r.log, j) <==> Begun(s.log, j);
    assert forall j: nat :: j != i ==>
        (Freed(r.log, j) <==> Freed(s.log, j)) && (Settled(r.log, j) <==> Settled(s.log, j));
    forall j | 0 <= j < |s.agents|
      ensures AgentOk(r, j)
    {
      assert AgentOk(s, j);
      SameLog(s.log, e, j);
    }
  }

  /** What was answered is no longer queued, nor is anything queued before it. */
  lemma AnsweredIsGone(s: Session, i: nat, id: nat)
    requires GlobalOk(s) && id in s.answers && OwnUpTo(s.pipe, i, id)
    ensures OwnNone(s.pipe, i)
  {
  }

  lemma AnswerKeeps(s: Session, i: nat)
    requires Invariant(s) && i < |s.agents| && Awaited(s.agents[i]).Some?
    requires Awaited(s.agents[i]).value.1 in s.answers && s.answers[Awaited(s.agents[i]).value.1]
    ensures Invariant(Release(s, i, if Awaited(s.agents[i]).value.0.Commit? then Committed else RolledBack))
  {
    assert AgentOk(s, i);
    var (kind, id) := Awaited(s.agents[i]).value;
    AnsweredIsGone(s, i, id);
    ReleaseKeeps(s, i, if kind.Commit? then Committed else RolledBack);
  }

  lemma RefusalKeeps(s: Session, i: nat)
    requires Invariant(s) && i < |s.agents| && OnObserve(s, i).Some?
    requires Awaited(s.agents[i]).Some? ==> !s.answers[Awaited(s.agents[i]).value.1]
    ensures Invariant(OnObserve(s, i).value)
  {
    assert AgentOk(s, i);
    TurnKeeps(s, OnObserve(s, i).value, i);
  }

  lemma ObserveKeeps(s: Session, i: nat)
    requires Invariant(s) && i < |s.agents| && OnObserve(s, i).Some?
    ensures Invariant(OnObserve(s, i).value)
  {
    var awaited := Awaited(s.agents[i]);
    if awaited.Some? && s.answers[awaited.value.1] {
      AnswerKeeps(s, i);
    } else {
      RefusalKeeps(s, i);
    }
  }

  // -- The driver ------------------------------------------------------------------------------------

  /** A statement that starts is the guard holder's own, once its BEGIN was started. */
  lemma StartIsAllowed(s: Session)
    requires Invariant(s) && s.pipe != []
    ensures Allowed(s.log, Started(s.pipe[0]))
  {
    var r := s.pipe[0];
    forall i: nat | Begun(s.log, i) && !Freed(s.log, i)
      ensures r.owner == i
    {
      assert AgentOk(s, i);
    }
    assert AgentOk(s, r.owner);
  }

  lemma StartKeeps(s: Session, r: Session)
    requires Invariant(s) && s.pipe != [] && s.driver.Checked?
    requires r == s.(driver := Running, late := s.late + (if s.closing then 1 else 0),
                     log := s.log + [Started(s.pipe[0])])
    ensures Invariant(r)
  {
    hide Isolated;
    var q := s.pipe[0];
    StartIsAllowed(s);
    IsolatedThen(s.log, Started(q));
    forall j: nat
      ensures Begun(r.log, j) <==> Begun(s.log, j) || (q.owner == j && q.kind.Begin?)
      ensures (Freed(r.log, j) <==> Freed(s.log, j)) && (Settled(r.log, j) <==> Settled(s.log, j))
    {
    }
    forall j | 0 <= j < |s.agents|
      ensures AgentOk(r, j)
    {
      assert AgentOk(s, j);
      SameLog(s.log, Started(q), j);
    }
  }

  /** The head of the queue goes, answered or not. */
  function Pop(s: Session, driver: Driver, flag: bool, answer: Option<bool>, logged: bool): Session
    requires s.pipe != []
  {
    var q := s.pipe[0];
    Unlock(s.(pipe := s.pipe[1..], driver := driver, flag := flag,
              answers := if answer.Some? then s.answers[q.id := answer.value] else s.answers,
              log := if logged && answer.Some? then s.log + [Completed(q, answer.value)] else s.log), ByRequest(q.id))
  }

  lemma PopViews(pipe: seq<Request>, i: nat)
    requires pipe != []
    ensures OwnNone(pipe, i) ==> OwnNone(pipe[1..], i)
    ensures OwnAll(pipe, i) ==> OwnAll(pipe[1..], i)
    ensures OwnBehind(pipe, i) ==> OwnBehind(pipe[1..], i)
    ensures OwnBegin(pipe[1..], i) ==> OwnBegin(pipe, i)
    ensures forall id :: OwnUpTo(pipe, i, id) ==> OwnUpTo(pipe[1..], i, id)
    ensures forall kind, id :: Identified(pipe, i, kind, id) ==> Identified(pipe[1..], i, kind, id)
  {
    assert forall k :: 0 <= k < |pipe[1..]| ==> pipe[1..][k] == pipe[k + 1];
  }

  lemma PopAwaited(s: Session, driver: Driver, flag: bool, answer: Option<bool>, logged: bool,
                   i: nat, kind: Kind, id: nat)
    requires s.pipe != [] && AwaitedOk(s, i, kind, id) && (answer == Some(true) ==> logged)
    ensures AwaitedOk(Pop(s, driver, flag, answer, logged), i, kind, id)
  {
    PopViews(s.pipe, i);
    if answer.Some? {
      SameLog(s.log, Completed(s.pipe[0], answer.value), i);
    }
  }

  lemma PopFacts(a: Agent, i: nat, holds: bool, pipe: seq<Request>, log: seq<Entry>, answer: bool)
    requires pipe != [] && Facts(a, i, holds, pipe, log)
    ensures Facts(a, i, holds, pipe[1..], log)
    ensures Facts(a, i, holds, pipe[1..], log + [Completed(pipe[0], answer)])
  {
    PopViews(pipe, i);
    SameLog(log, Completed(pipe[0], answer), i);
  }

  lemma PopAgent(s: Session, driver: Driver, flag: bool, answer: Option<bool>, logged: bool, j: nat)
    requires Invariant(s) && s.pipe != [] && j < |s.agents| && (answer == Some(true) ==> logged)
    ensures AgentOk(Pop(s, driver, flag, answer, logged), j)
  {
    assert AgentOk(s, j);
    PopFacts(s.agents[j], j, s.lease == Some(ByAgent(j)), s.pipe, s.log, answer.GetOr(false));
    var awaited := Awaited(s.agents[j]);
    if awaited.Some? {
      PopAwaited(s, driver, flag, answer, logged, j, awaited.value.0, awaited.value.1);
    }
  }

  lemma PopKeeps(s: Session, driver: Driver, flag: bool, answer: Option<bool>, logged: bool)
    requires Invariant(s) && s.pipe != [] && (answer == Some(true) ==> logged)
    requires !driver.Running? && (driver.Checked? ==> !s.closing)
    ensures Invariant(Pop(s, driver, flag, answer, logged))
  {
    hide AgentOk, Isolated;
    var r := Pop(s, driver, flag, answer, logged);
    var e := Completed(s.pipe[0], answer.GetOr(false));
    IsolatedThen(s.log, e);
    forall j | 0 <= j < |s.agents|
      ensures AgentOk(r, j)
    {
      PopAgent(s, driver, flag, answer, logged, j);
    }
    forall j: nat
      ensures (Begun(r.log, j) <==> Begun(s.log, j)) && (Freed(r.log, j) <==> Freed(s.log, j))
    {
      SameLog(s.log, e, j);
    }
    assert forall k :: 0 <= k < |s.pipe[1..]| ==> s.pipe[1..][k] == s.pipe[k + 1];
  }

  lemma DriverKeeps(s: Session, e: Event)
    requires Invariant(s) && DriverStep(s, e).Some?
    ensures Invariant(DriverStep(s, e).value)
  {
    match e
    case Check => SameAgents(s, DriverStep(s, e).value);
    case Repoll => SameAgents(s, DriverStep(s, e).value);
    case Receive =>
      if s.pipe[0].abandoned {
        PopKeeps(s, Head, s.flag, None, false);
      } else {
        StartKeeps(s, DriverStep(s, e).value);
      }
    case Complete(ok, reusable, flag) => PopKeeps(s, if reusable then Head else Exited, flag, Some(ok), true);
    case Drain => PopKeeps(s, Exited, s.flag, Some(false), false);
  }

  lemma SameAgents(s: Session, r: Session)
    requires Invariant(s) && r == s.(driver := r.driver) && !r.driver.Running?
    requires r.driver.Checked? ==> !s.closing
    ensures Invariant(r)
  {
    forall j | 0 <= j < |s.agents|
      ensures AgentOk(r, j)
    {
      assert AgentOk(s, j);
    }
  }

  // -- Runs -----------------------------------------------------------------------------------------------

  lemma NewAgentKeeps(s: Session, a: Agent)
    requires Invariant(s) && (a.Asking? || a.GuardAsking?)
    ensures Invariant(s.(agents := s.agents + [a]))
  {
    var r := s.(agents := s.agents + [a]);
    forall j | 0 <= j < |r.agents|
      ensures AgentOk(r, j)
    {
      if j < |s.agents| {
        assert AgentOk(s, j);
      } else {
        assert !Begun(s.log, j) && !Freed(s.log, j);
      }
    }
  }

  /** A stop from anywhere, and a dropped statement future. */
  lemma OutsideKeeps(s: Session, r: Session)
    requires Invariant(s) && r.agents == s.agents && r.lease == s.lease && SamePipe(s.pipe, r.pipe)
    requires r.answers == s.answers && r.next == s.next && r.driver == s.driver && r.late == s.late
    requires (r.log == s.log && r.closing == s.closing) || (r.log == s.log + [ToldToStop] && r.closing)
    ensures Invariant(r)
  {
    forall j | 0 <= j < |s.agents|
      ensures AgentOk(r, j)
    {
      assert AgentOk(s, j);
      SameLog(s.log, ToldToStop, j);
    }
    forall j: nat
      ensures (Begun(r.log, j) <==> Begun(s.log, j)) && (Freed(r.log, j) <==> Freed(s.log, j))
    {
      SameLog(s.log, ToldToStop, j);
    }
    IsolatedThen(s.log, ToldToStop);
  }

  lemma AgentKeeps(s: Session, i: nat, e: Event)
    requires Invariant(s) && i < |s.agents| && AgentStep(s, i, e).Some?
    ensures Invariant(AgentStep(s, i, e).value)
  {
    match e
    case Take(_) => TakeKeeps(s, i);
    case Send(_) => SendKeeps(s, i);
    case SendRefused(_) => RefusedSendKeeps(s, i);
    case Finish(_, kind) => FinishKeeps(s, i, kind);
    case Observe(_) => ObserveKeeps(s, i);
    case Drop(_) => DropKeeps(s, i);
    case DropWithoutRuntime(_) => DropWithoutRuntimeKeeps(s, i);
    case CleanupTimeout(_) => CleanupTimeoutKeeps(s, i);
    case FreeGuard(_) =>
      assert AgentOk(s, i);
      ReleaseKeeps(s, i, Stopped);
  }

  lemma StepKeeps(s: Session, e: Event)
    requires Invariant(s)
    ensures Invariant(Step(s, e))
  {
    match e
    case NewRequest => NewAgentKeeps(s, Asking);
    case NewTransaction => NewAgentKeeps(s, GuardAsking);
    case Stop => OutsideKeeps(s, Tell(s));
    case AbandonStatement(k) =>
      if k < |s.pipe| {
        OutsideKeeps(s, Abandon(s, s.pipe[k].id));
      }
    case Check => DriverEventKeeps(s, e);
    case Repoll => DriverEventKeeps(s, e);
    case Receive => DriverEventKeeps(s, e);
    case Complete(_, _, _) => DriverEventKeeps(s, e);
    case Drain => DriverEventKeeps(s, e);
    case _ =>
      if e.i < |s.agents| && AgentStep(s, e.i, e).Some? {
        AgentKeeps(s, e.i, e);
      }
  }

  lemma DriverEventKeeps(s: Session, e: Event)
    requires Invariant(s)
    ensures Invariant(DriverStep(s, e).GetOr(s))
  {
    if DriverStep(s, e).Some? {
      DriverKeeps(s, e);
    }
  }

  /** Transactions are isolated in every interleaving of clients, transactions, dropped futures and guards, and the
      driver starts at most one more statement once it is told to stop. */
  lemma {:induction false} RunsAreIsolated(schedule: seq<Event>)
    ensures var s := Play(schedule); Invariant(s) && Isolated(s.log) && s.late <= 1
    decreases |schedule|
  {
    if schedule != [] {
      RunsAreIsolated(schedule[..|schedule| - 1]);
      StepKeeps(Play(schedule[..|schedule| - 1]), schedule[|schedule| - 1]);
    }
  }

  /** The same about two places of the log. */
  lemma {:induction false} StatementsAreOwn(log: seq<Entry>, b: nat, i: nat)
    requires Isolated(log) && b < |log| && log[b].Started? && Begun(log[..b], i) && !Freed(log[..b], i)
    ensures log[b].request.owner == i
    decreases |log|
  {
    var before := log[..|log| - 1];
    if b < |before| {
      assert before[..b] == log[..b];
      StatementsAreOwn(before, b, i);
    } else {
      assert log[..b] == before;
    }
  }
}

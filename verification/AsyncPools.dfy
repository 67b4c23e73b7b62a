/** The async connection pool (src/async_pool.rs) as a step system: any number of checkouts, each suspended at one of
    its awaits, over the shared idle list, the total and the permits. A schedule is any interleaving of their steps,
    of dropped checkouts and of closing the pool. */
module AsyncPools {
  import opened Bytes

  /** Where a checkout is. A number is the connection it has in hand.
      Waiting: for a permit. Holding: at the head of the loop. Probing: `probe_idle`. Retiring: `retire`, awaited;
      Abandoned: `retire`, after its checkout was dropped. Committed: the idle list was empty. Connecting: registered
      and in `connect`. Leased: handed out. Returning: in `finish`. Closing: in `finish`, not retained. Leaving: the
      permit is all that is left. Gone: nothing is. */
  datatype Phase =
    | Waiting | Holding | Probing(conn: nat) | Retiring(conn: nat) | Abandoned(conn: nat) | Committed
    | Connecting(conn: nat) | Leased(conn: nat) | Returning(conn: nat) | Closing(conn: nat) | Leaving | Gone

  /** `PoolState`, the semaphore and the checkouts. `drops` counts the checkouts dropped during the probe, `made` the
      connections made. */
  datatype Pool = Pool(
    max: nat, idle: seq<nat>, total: nat, closed: bool, permits: nat, permitsClosed: bool,
    checkouts: seq<Phase>, drops: nat, made: nat)

  datatype Event =
    | Arrive
    | Acquire(i: nat)
    | Look(i: nat)
    | Probed(i: nat, usable: bool)
    | Retired(i: nat)
    | Register(i: nat)
    | Connected(i: nat, ok: bool)
    | Release(i: nat)
    | ReleaseWithoutRuntime(i: nat)
    | Finish(i: nat, destroy: bool)
    | ConnectionClosed(i: nat)
    | FreePermit(i: nat)
    | DropCheckout(i: nat)
    | ClosePermits
    | End

  function Open(max: nat): Pool {
    Pool(max, [], 0, false, max, false, [], 0, 0)
  }

  function To(p: Pool, i: nat, phase: Phase): Pool
    requires i < |p.checkouts|
  {
    p.(checkouts := p.checkouts[i := phase])
  }

  /** The head of the loop in `acquire`: under the lock, the last idle connection or none. */
  function OnLook(p: Pool, i: nat): Pool
    requires i < |p.checkouts|
  {
    if p.closed then To(p, i, Leaving)
    else if p.idle == [] then To(p, i, Committed)
    else To(p.(idle := p.idle[..|p.idle| - 1]), i, Probing(p.idle[|p.idle| - 1]))
  }

  /** Behind the loop: a new connection is registered before it is made. */
  function OnRegister(p: Pool, i: nat): Pool
    requires i < |p.checkouts|
  {
    if p.closed then To(p, i, Leaving) else To(p.(total := p.total + 1, made := p.made + 1), i, Connecting(p.made))
  }

  /** `finish`, behind the rollback: the connection becomes idle before its permit is free. */
  function OnFinish(p: Pool, i: nat, conn: nat, destroy: bool): Pool
    requires i < |p.checkouts|
  {
    if !destroy && !p.closed then To(p.(idle := p.idle + [conn]), i, Leaving) else To(p, i, Closing(conn))
  }

  /** A checkout future that is dropped at an await. During the probe its reservation is not registered. */
  function OnDrop(p: Pool, i: nat): Option<Pool>
    requires i < |p.checkouts|
  {
    match p.checkouts[i]
    case Waiting => Some(To(p, i, Gone))
    case Probing(_) => Some(To(p.(drops := p.drops + 1), i, Leaving))
    case Retiring(conn) => Some(To(p, i, Abandoned(conn)))
    case Connecting(_) => Some(To(p.(total := Less(p.total, 1)), i, Leaving))
    case _ => None
  }

  /** A step of checkout `i`; `None` when it is not at that point. */
  function CheckoutStep(p: Pool, i: nat, e: Event): Option<Pool>
    requires i < |p.checkouts|
  {
    match (p.checkouts[i], e)
    case (Waiting, Acquire(_)) =>
      if p.permits == 0 || p.permitsClosed then None else Some(To(p.(permits := p.permits - 1), i, Holding))
    case (Holding, Look(_)) => Some(OnLook(p, i))
    case (Probing(conn), Probed(_, usable)) => Some(To(p, i, if usable then Leased(conn) else Retiring(conn)))
    case (Retiring(_), Retired(_)) => Some(To(p.(total := Less(p.total, 1)), i, Holding))
    case (Abandoned(_), Retired(_)) => Some(To(p.(total := Less(p.total, 1)), i, Leaving))
    case (Committed, Register(_)) => Some(OnRegister(p, i))
    case (Connecting(conn), Connected(_, ok)) =>
      if ok && !p.closed then Some(To(p, i, Leased(conn))) else Some(To(p.(total := Less(p.total, 1)), i, Leaving))
    case (Leased(conn), Release(_)) => Some(To(p, i, Returning(conn)))
    case (Leased(_), ReleaseWithoutRuntime(_)) => Some(To(p.(total := Less(p.total, 1)), i, Leaving))
    case (Returning(conn), Finish(_, destroy)) => Some(OnFinish(p, i, conn, destroy))
    case (Closing(_), ConnectionClosed(_)) => Some(To(p.(total := Less(p.total, 1)), i, Leaving))
    case (Leaving, FreePermit(_)) => Some(To(p.(permits := p.permits + 1), i, Gone))
    case (_, DropCheckout(_)) => OnDrop(p, i)
    case _ => None
  }

  /** One step of the system; an event that cannot happen changes nothing. */
  function Step(p: Pool, e: Event): Pool {
    match e
    case Arrive => p.(checkouts := p.checkouts + [Waiting])
    case ClosePermits => p.(permitsClosed := true)
    case End => p.(closed := true, total := Less(p.total, |p.idle|), idle := [])
    case _ => if e.i < |p.checkouts| then CheckoutStep(p, e.i, e).GetOr(p) else p
  }

  function Play(max: nat, schedule: seq<Event>): Pool {
    if schedule == [] then Open(max) else Step(Play(max, schedule[..|schedule| - 1]), schedule[|schedule| - 1])
  }

  // -- Accounting ------------------------------------------------------------------------------

  /** The checkout holds a permit. */
  function Permit(phase: Phase): nat {
    if phase.Waiting? || phase.Gone? then 0 else 1
  }

  /** The checkout has a connection in hand, or one on its way. */
  function Live(phase: Phase): nat {
    match phase
    case Waiting => 0
    case Holding => 0
    case Committed => 0
    case Leaving => 0
    case Gone => 0
    case _ => 1
  }

  /** Live, or bound to connect. */
  function Engaged(phase: Phase): nat {
    if phase.Committed? then 1 else Live(phase)
  }

  function Sum(checkouts: seq<Phase>, weight: Phase -> nat): nat {
    if checkouts == [] then 0 else weight(checkouts[0]) + Sum(checkouts[1..], weight)
  }

  lemma {:induction false} SumUpdate(checkouts: seq<Phase>, weight: Phase -> nat, i: nat, phase: Phase)
    requires i < |checkouts|
    ensures Sum(checkouts[i := phase], weight) + weight(checkouts[i]) == Sum(checkouts, weight) + weight(phase)
  {
    if i == 0 {
      assert checkouts[i := phase][1..] == checkouts[1..];
    } else {
      SumUpdate(checkouts[1..], weight, i - 1, phase);
      assert checkouts[i := phase][1..] == checkouts[1..][i - 1 := phase];
    }
  }

  lemma {:induction false} SumAppend(checkouts: seq<Phase>, weight: Phase -> nat, phase: Phase)
    ensures Sum(checkouts + [phase], weight) == Sum(checkouts, weight) + weight(phase)
  {
    if checkouts != [] {
      SumAppend(checkouts[1..], weight, phase);
      assert (checkouts + [phase])[1..] == checkouts[1..] + [phase];
    } else {
      assert checkouts + [phase] == [phase];
    }
  }

  lemma {:induction false} EngagedHoldPermits(checkouts: seq<Phase>)
    ensures Sum(checkouts, Live) <= Sum(checkouts, Engaged) <= Sum(checkouts, Permit)
  {
    if checkouts != [] {
      EngagedHoldPermits(checkouts[1..]);
    }
  }

  /** Connections of the pool: idle, in hand, leased or connecting. */
  function LiveCount(p: Pool): nat {
    |p.idle| + Sum(p.checkouts, Live)
  }

  /** Permits are conserved; idle connections and engaged checkouts fit the bound; the total counts the live
      connections and, for good, every probe that was dropped. */
  ghost predicate Balanced(p: Pool) {
    && p.permits + Sum(p.checkouts, Permit) == p.max
    && |p.idle| + Sum(p.checkouts, Engaged) <= p.max
    && p.total == LiveCount(p) + p.drops
  }

  /** `r` is `p` after a step of checkout `i` that keeps the accounts: its permit, its share of the bound, and its
      share of the total. */
  ghost predicate LocalStep(p: Pool, r: Pool, i: nat)
    requires i < |p.checkouts|
  {
    && |r.checkouts| == |p.checkouts| && r.checkouts == p.checkouts[i := r.checkouts[i]] && r.max == p.max
    && var was, now := p.checkouts[i], r.checkouts[i];
       && r.permits + Permit(now) == p.permits + Permit(was)
       && (|r.idle| + Engaged(now) <= |p.idle| + Engaged(was) || (r.idle == [] && Permit(now) == 1))
       && r.total + |p.idle| + Live(was) + p.drops == p.total + |r.idle| + Live(now) + r.drops
  }

  lemma LocalKeeps(p: Pool, r: Pool, i: nat)
    requires Balanced(p) && i < |p.checkouts| && LocalStep(p, r, i)
    ensures Balanced(r)
  {
    SumUpdate(p.checkouts, Permit, i, r.checkouts[i]);
    SumUpdate(p.checkouts, Engaged, i, r.checkouts[i]);
    SumUpdate(p.checkouts, Live, i, r.checkouts[i]);
    EngagedHoldPermits(r.checkouts);
  }

  lemma LookIsLocal(p: Pool, i: nat)
    requires i < |p.checkouts| && p.checkouts[i].Holding?
    ensures LocalStep(p, OnLook(p, i), i)
  {
  }

  lemma FinishIsLocal(p: Pool, i: nat, conn: nat, destroy: bool)
    requires i < |p.checkouts| && p.checkouts[i] == Returning(conn)
    ensures LocalStep(p, OnFinish(p, i, conn, destroy), i)
  {
  }

  lemma DropIsLocal(p: Pool, i: nat)
    requires i < |p.checkouts| && Live(p.checkouts[i]) <= p.total
    ensures OnDrop(p, i).Some? ==> LocalStep(p, OnDrop(p, i).value, i)
  {
  }

  lemma CheckoutIsLocal(p: Pool, i: nat, e: Event)
    requires i < |p.checkouts| && Live(p.checkouts[i]) <= p.total
    ensures CheckoutStep(p, i, e).Some? ==> LocalStep(p, CheckoutStep(p, i, e).value, i)
  {
    hide OnLook, OnFinish, OnDrop;
    if p.checkouts[i].Holding? && e.Look? {
      LookIsLocal(p, i);
    } else if p.checkouts[i].Returning? && e.Finish? {
      FinishIsLocal(p, i, p.checkouts[i].conn, e.destroy);
    } else if e.DropCheckout? {
      DropIsLocal(p, i);
    }
  }

  lemma {:induction false} SumAtLeast(checkouts: seq<Phase>, weight: Phase -> nat, i: nat)
    requires i < |checkouts|
    ensures weight(checkouts[i]) <= Sum(checkouts, weight)
  {
    if i > 0 {
      SumAtLeast(checkouts[1..], weight, i - 1);
    }
  }

  lemma CheckoutKeeps(p: Pool, i: nat, e: Event)
    requires Balanced(p) && i < |p.checkouts|
    ensures CheckoutStep(p, i, e).Some? ==>
              Balanced(CheckoutStep(p, i, e).value) && CheckoutStep(p, i, e).value.max == p.max
  {
    SumAtLeast(p.checkouts, Live, i);
    CheckoutIsLocal(p, i, e);
    var r := CheckoutStep(p, i, e);
    if r.Some? {
      LocalKeeps(p, r.value, i);
    }
  }

  lemma StepKeeps(p: Pool, e: Event)
    requires Balanced(p)
    ensures Balanced(Step(p, e)) && Step(p, e).max == p.max
  {
    hide CheckoutStep;
    match e
    case Arrive =>
      SumAppend(p.checkouts, Permit, Waiting);
      SumAppend(p.checkouts, Engaged, Waiting);
      SumAppend(p.checkouts, Live, Waiting);
    case ClosePermits =>
    case End =>
    case _ =>
      if e.i < |p.checkouts| {
        CheckoutKeeps(p, e.i, e);
      }
  }

  /** In every run: never more than `max` connections, and the total is exact but for the checkouts dropped during
      the probe. */
  lemma {:induction false} RunsAreBounded(max: nat, schedule: seq<Event>)
    ensures var p := Play(max, schedule);
            && Balanced(p) && p.max == max
            && LiveCount(p) <= max
            && (p.total == LiveCount(p) <==> p.drops == 0)
    decreases |schedule|
  {
    hide Step;
    if schedule != [] {
      RunsAreBounded(max, schedule[..|schedule| - 1]);
      StepKeeps(Play(max, schedule[..|schedule| - 1]), schedule[|schedule| - 1]);
    }
    EngagedHoldPermits(Play(max, schedule).checkouts);
  }

  predicate AllGone(p: Pool) {
    forall i :: 0 <= i < |p.checkouts| ==> p.checkouts[i].Gone?
  }

  lemma {:induction false} GoneWeighsNothing(checkouts: seq<Phase>)
    requires forall i :: 0 <= i < |checkouts| ==> checkouts[i].Gone?
    ensures Sum(checkouts, Permit) == 0 && Sum(checkouts, Live) == 0
  {
    if checkouts != [] {
      GoneWeighsNothing(checkouts[1..]);
    }
  }

  /** When every checkout is over, all permits are back and the total is the idle connections plus the dropped
      probes. */
  lemma FinishedRunsReturnEverything(max: nat, schedule: seq<Event>)
    ensures var p := Play(max, schedule);
            AllGone(p) ==> p.permits == max && p.total == |p.idle| + p.drops
  {
    RunsAreBounded(max, schedule);
    if AllGone(Play(max, schedule)) {
      GoneWeighsNothing(Play(max, schedule).checkouts);
    }
  }

  // -- Exclusive use --------------------------------------------------------------------------------

  /** The connection a checkout has. */
  function Conn(phase: Phase): multiset<nat> {
    match phase
    case Waiting => multiset{}
    case Holding => multiset{}
    case Committed => multiset{}
    case Leaving => multiset{}
    case Gone => multiset{}
    case _ => multiset{phase.conn}
  }

  function Conns(checkouts: seq<Phase>): multiset<nat> {
    if checkouts == [] then multiset{} else Conn(checkouts[0]) + Conns(checkouts[1..])
  }

  function Everything(p: Pool): multiset<nat> {
    multiset(p.idle) + Conns(p.checkouts)
  }

  /** No connection is in two places, idle or in use. */
  ghost predicate Exclusive(p: Pool) {
    forall c :: Everything(p)[c] <= if c < p.made then 1 else 0
  }

  lemma Swapped(a: multiset<nat>, b: multiset<nat>, c: multiset<nat>)
    ensures a + b + c == c + b + a
  {
  }

  lemma Prepended(a: multiset<nat>, b: multiset<nat>, c: multiset<nat>, d: multiset<nat>, e: multiset<nat>)
    requires b + c == d + e
    ensures a + b + c == a + d + e
  {
    assert a + b + c == a + (b + c);
    assert a + d + e == a + (d + e);
  }

  lemma {:induction false} ConnsUpdate(checkouts: seq<Phase>, i: nat, phase: Phase)
    requires i < |checkouts|
    ensures Conns(checkouts[i := phase]) + Conn(checkouts[i]) == Conns(checkouts) + Conn(phase)
  {
    var rest := checkouts[1..];
    if i == 0 {
      assert checkouts[i := phase][1..] == rest;
      Swapped(Conn(phase), Conns(rest), Conn(checkouts[0]));
    } else {
      ConnsUpdate(rest, i - 1, phase);
      assert checkouts[i := phase][1..] == rest[i - 1 := phase];
      Prepended(Conn(checkouts[0]), Conns(rest[i - 1 := phase]), Conn(checkouts[i]), Conns(rest), Conn(phase));
    }
  }

  lemma {:induction false} ConnsAppend(checkouts: seq<Phase>)
    ensures Conns(checkouts + [Waiting]) == Conns(checkouts)
  {
    if checkouts != [] {
      ConnsAppend(checkouts[1..]);
      assert (checkouts + [Waiting])[1..] == checkouts[1..] + [Waiting];
    }
  }

  /** A step takes no connection from anybody else: it moves one, gives one up, or makes a new one. */
  ghost predicate MovesOwn(p: Pool, r: Pool, i: nat)
    requires i < |p.checkouts|
  {
    && |r.checkouts| == |p.checkouts| && r.checkouts == p.checkouts[i := r.checkouts[i]]
    && p.made <= r.made
    && multiset(r.idle) + Conn(r.checkouts[i]) <=
       multiset(p.idle) + Conn(p.checkouts[i]) + (if r.made > p.made then multiset{p.made} else multiset{})
  }

  lemma LookMovesOwn(p: Pool, i: nat)
    requires i < |p.checkouts| && p.checkouts[i].Holding?
    ensures MovesOwn(p, OnLook(p, i), i)
  {
    if p.idle != [] {
      assert p.idle == p.idle[..|p.idle| - 1] + [p.idle[|p.idle| - 1]];
    }
  }

  /** A step that keeps the idle list, and the checkout's connection or gives it up. */
  predicate KeepsOwn(p: Pool, r: Pool, i: nat)
    requires i < |p.checkouts|
  {
    && |r.checkouts| == |p.checkouts| && r.checkouts == p.checkouts[i := r.checkouts[i]]
    && r.idle == p.idle && r.made == p.made
    && (|| Live(r.checkouts[i]) == 0
        || (Live(p.checkouts[i]) == 1 && Live(r.checkouts[i]) == 1 && r.checkouts[i].conn == p.checkouts[i].conn))
  }

  lemma CheckoutKeepsOwn(p: Pool, i: nat, e: Event)
    requires i < |p.checkouts|
    requires !p.checkouts[i].Holding? && !p.checkouts[i].Committed? && !p.checkouts[i].Returning?
    ensures CheckoutStep(p, i, e).Some? ==> KeepsOwn(p, CheckoutStep(p, i, e).value, i)
  {
  }

  lemma KeepingMovesOwn(p: Pool, r: Pool, i: nat)
    requires i < |p.checkouts| && KeepsOwn(p, r, i)
    ensures MovesOwn(p, r, i)
  {
  }

  lemma FinishMovesOwn(p: Pool, i: nat, conn: nat, destroy: bool)
    requires i < |p.checkouts| && p.checkouts[i] == Returning(conn)
    ensures MovesOwn(p, OnFinish(p, i, conn, destroy), i)
  {
  }

  lemma RegisterMovesOwn(p: Pool, i: nat)
    requires i < |p.checkouts| && p.checkouts[i].Committed?
    ensures MovesOwn(p, OnRegister(p, i), i)
  {
  }

  lemma ListStep(p: Pool, i: nat, e: Event)
    requires i < |p.checkouts| && CheckoutStep(p, i, e).Some?
    ensures p.checkouts[i].Holding? ==> CheckoutStep(p, i, e).value == OnLook(p, i)
    ensures p.checkouts[i].Committed? ==> CheckoutStep(p, i, e).value == OnRegister(p, i)
    ensures p.checkouts[i].Returning? ==>
              e.Finish? && CheckoutStep(p, i, e).value == OnFinish(p, i, p.checkouts[i].conn, e.destroy)
  {
  }

  lemma CheckoutMovesOwn(p: Pool, i: nat, e: Event, r: Pool)
    requires i < |p.checkouts| && CheckoutStep(p, i, e) == Some(r)
    ensures MovesOwn(p, r, i)
  {
    var phase := p.checkouts[i];
    ListStep(p, i, e);
    if phase.Holding? {
      LookMovesOwn(p, i);
    } else if phase.Committed? {
      RegisterMovesOwn(p, i);
    } else if phase.Returning? {
      FinishMovesOwn(p, i, phase.conn, e.destroy);
    } else {
      CheckoutKeepsOwn(p, i, e);
      KeepingMovesOwn(p, r, i);
    }
  }

  lemma Merge(idle: multiset<nat>, idle': multiset<nat>, conns: multiset<nat>, conns': multiset<nat>,
              own: multiset<nat>, own': multiset<nat>, more: multiset<nat>)
    requires conns' + own == conns + own' && idle' + own' <= idle + own + more
    ensures forall c :: (idle' + conns')[c] <= (idle + conns)[c] + more[c]
  {
    forall c
      ensures (idle' + conns')[c] <= (idle + conns)[c] + more[c]
    {
      assert (conns' + own)[c] == (conns + own')[c];
      assert (idle' + own')[c] <= (idle + own + more)[c];
    }
  }

  lemma MoveKeepsExclusive(p: Pool, r: Pool, i: nat)
    requires Exclusive(p) && i < |p.checkouts| && MovesOwn(p, r, i)
    ensures Exclusive(r)
  {
    var more := if r.made > p.made then multiset{p.made} else multiset{};
    ConnsUpdate(p.checkouts, i, r.checkouts[i]);
    Merge(multiset(p.idle), multiset(r.idle), Conns(p.checkouts), Conns(r.checkouts), Conn(p.checkouts[i]),
          Conn(r.checkouts[i]), more);
    forall c
      ensures Everything(r)[c] <= if c < r.made then 1 else 0
    {
      assert Everything(r)[c] <= Everything(p)[c] + more[c];
    }
  }

  lemma FewerIsExclusive(p: Pool, r: Pool)
    requires Exclusive(p) && Everything(r) <= Everything(p) && r.made == p.made
    ensures Exclusive(r)
  {
    forall c
      ensures Everything(r)[c] <= if c < r.made then 1 else 0
    {
      assert Everything(r)[c] <= Everything(p)[c];
    }
  }

  lemma ExclusiveKeeps(p: Pool, e: Event)
    requires Exclusive(p)
    ensures Exclusive(Step(p, e))
  {
    hide CheckoutStep, Exclusive;
    match e
    case Arrive =>
      ConnsAppend(p.checkouts);
      FewerIsExclusive(p, Step(p, e));
    case ClosePermits => FewerIsExclusive(p, Step(p, e));
    case End => FewerIsExclusive(p, Step(p, e));
    case _ =>
      if e.i < |p.checkouts| && CheckoutStep(p, e.i, e).Some? {
        var r := CheckoutStep(p, e.i, e).value;
        CheckoutMovesOwn(p, e.i, e, r);
        MoveKeepsExclusive(p, r, e.i);
      }
  }

  lemma {:induction false} RunsAreExclusive(max: nat, schedule: seq<Event>)
    ensures Exclusive(Play(max, schedule))
    decreases |schedule|
  {
    hide Step;
    if schedule != [] {
      RunsAreExclusive(max, schedule[..|schedule| - 1]);
      ExclusiveKeeps(Play(max, schedule[..|schedule| - 1]), schedule[|schedule| - 1]);
    }
  }

  // -- The leak ---------------------------------------------------------------------------------------

  lemma Then(max: nat, schedule: seq<Event>, e: Event) returns (longer: seq<Event>)
    ensures longer == schedule + [e] && Play(max, longer) == Step(Play(max, schedule), e)
  {
    longer := schedule + [e];
    assert longer[..|schedule|] == schedule;
  }

  /** A first connection is made. */
  lemma FirstLease() returns (s: seq<Event>)
    ensures Play(1, s) == Pool(1, [], 1, false, 0, false, [Leased(0)], 0, 1)
  {
    s := Then(1, [], Arrive);
    s := Then(1, s, Acquire(0));
    s := Then(1, s, Look(0));
    s := Then(1, s, Register(0));
    s := Then(1, s, Connected(0, true));
  }

  /** It is released. */
  lemma FirstRelease() returns (s: seq<Event>)
    ensures Play(1, s) == Pool(1, [0], 1, false, 1, false, [Gone], 0, 1)
  {
    s := FirstLease();
    s := Then(1, s, Release(0));
    s := Then(1, s, Finish(0, false));
    s := Then(1, s, FreePermit(0));
  }

  /** The next checkout is dropped while it probes the connection. */
  lemma DroppedProbe() returns (s: seq<Event>)
    ensures Play(1, s) == Pool(1, [], 1, false, 1, false, [Gone, Gone], 1, 1)
  {
    s := FirstRelease();
    s := Then(1, s, Arrive);
    s := Then(1, s, Acquire(1));
    s := Then(1, s, Look(1));
    s := Then(1, s, DropCheckout(1));
    s := Then(1, s, FreePermit(1));
  }

  /** The total can pass the maximum: behind a dropped probe, a third checkout connects. */
  lemma TotalPassesMax()
    ensures exists schedule :: var p := Play(1, schedule); p.total == 2 && LiveCount(p) == 1 && p.max == 1
  {
    var s := DroppedProbe();
    s := Then(1, s, Arrive);
    s := Then(1, s, Acquire(2));
    s := Then(1, s, Look(2));
    s := Then(1, s, Register(2));
    assert Play(1, s) == Pool(1, [], 2, false, 0, false, [Gone, Gone, Connecting(1)], 1, 2);
    assert Sum([Gone, Gone, Connecting(1)], Live) == 1;
  }
}

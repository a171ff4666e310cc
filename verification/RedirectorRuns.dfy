/** Runs of the redirector pool: sizes, and what becomes of every request. */
module RedirectorRuns {
  import opened Basics
  import opened Wrappers
  import opened RedirectorPool
  import opened RedirectorInvariants

  // ----- the number of workers --------------------------------------------------------------

  predicate LimitsOk(p: Pool) {
    1 <= p.low <= p.high
  }

  /** The limits are in order, and the workers that are not stopping respect the ceiling, which may be
      exceeded by one only while both limits are the same. */
  predicate SizeOk(p: Pool) {
    LimitsOk(p) && |Live(p)| <= p.high + (if p.low == p.high then 1 else 0)
  }

  lemma LiveIsSome(p: Pool)
    requires Valid(p)
    ensures |Live(p)| <= |p.worker|
  {
    assert |p.worker| == |p.worker.Keys|;
    Smaller(Live(p), p.worker.Keys);
  }

  lemma {:induction false} Smaller(a: set<Wid>, b: set<Wid>)
    requires a <= b
    ensures |a| <= |b|
  {
    if a == {} {
    } else {
      var w :| w in a;
      Smaller(a - {w}, b - {w});
    }
  }

  /** How `provision` treats the ceiling: from a pool within it, it starts at least the missing workers and
      ends within it too, except in exactly one situation, where it ends one above: the limits are equal,
      workers are missing, and the queue is at least as long as the pool was. */
  lemma ProvisionCeiling(p: Pool, born: seq<Worker>)
    requires Valid(p) && 1 <= p.low <= p.high && |p.worker| <= p.high
    requires Fresh(p, born) && |born| == ProvisionCount(p)
    ensures var q := SpawnAll(p, born);
            && p.low <= |q.worker| <= p.high + 1
            && (|q.worker| > p.high <==> p.low == p.high && |p.worker| < p.low && |p.queue| >= |p.worker|)
  {
    SpawnAllKeeps(p, born);
  }

  lemma ProvisionSize(p: Pool, born: seq<Worker>)
    requires Valid(p) && SizeOk(p) && Fresh(p, born) && |born| == ProvisionCount(p)
    ensures SizeOk(SpawnAll(p, born))
  {
    SpawnAllKeeps(p, born);
    LiveIsSome(p);
    LiveIsSome(SpawnAll(p, born));
  }

  /** A respawn leaves none of the old workers in service and starts as many new ones as there were, or as the nearer
      limit allows. */
  lemma RespawnSize(p: Pool, order: seq<Wid>, born: seq<Worker>)
    requires Valid(p) && 1 <= p.low <= p.high && p.worker.Keys == (set w | w in order)
    requires Fresh(StopAll(p, order), born) && |born| == RespawnCount(p)
    ensures var q := SpawnAll(StopAll(p, order), born);
            && Valid(q) && Held(q) == Held(p) && SizeOk(q) && Live(q) !! p.worker.Keys
            && |Live(q)| == (if |p.worker| < p.low then p.low else if |p.worker| > p.high then p.high else |p.worker|)
  {
    hide StopAll, SpawnAll, Held, Fresh, Valid, RespawnCount;
    var s := StopAll(p, order);
    StopAllKeeps(p, order);
    assert Live(s) == {};
    SpawnAllKeeps(s, born);
    HeldSame(p, SpawnAll(s, born));
    NamesAreNew(p, s, born);
    RespawnCountIs(p);
    hide Live;
  }

  lemma RespawnCountIs(p: Pool)
    requires 1 <= p.low <= p.high
    ensures RespawnCount(p) == if |p.worker| < p.low then p.low else if |p.worker| > p.high then p.high else |p.worker|
  {
  }

  lemma NamesAreNew(p: Pool, s: Pool, born: seq<Worker>)
    requires Valid(p) && Live(s) == {} && s.nextid == p.nextid
    ensures Live(SpawnAll(s, born)) !! p.worker.Keys
  {
    hide SpawnAll;
    SpawnAllNames(s, born);
  }

  // ----- stopping the oldest workers --------------------------------------------------------

  lemma StopOldestKeeps(p: Pool, l: Look)
    requires Valid(p) && IsOldest(p, l.now, l.oldest)
    ensures var q := StopOldest(p, l);
            && Valid(q) && Held(q) == Held(p) && Live(q) <= Live(p)
            && |Live(q)| == |Live(p)| - (if l.oldest.Some? then 1 else 0)
            && q.low == p.low && q.high == p.high
            && (forall w | w in q.worker :: w in p.worker && q.worker[w] == p.worker[w])
  {
    if l.oldest.Some? {
      var w := l.oldest.value;
      StopKeeps(p, w);
      HeldSame(p, StopWorker(p, w));
      assert w in Live(p) && Live(StopWorker(p, w)) == Live(p) - {w};
    }
  }

  /** Every look finds what `_oldest` finds at that moment. */
  ghost predicate LooksRight(p: Pool, looks: seq<Look>)
    decreases |looks|
  {
    |looks| == 0 ||
    (IsOldest(p, looks[0].now, looks[0].oldest) && LooksRight(Decrease(p, looks[0]), looks[1..]))
  }

  /** Every look is taken after all workers of the pool were created. */
  predicate ClockAhead(p: Pool, looks: seq<Look>) {
    forall w, i | w in p.worker && 0 <= i < |looks| :: p.worker[w].creation < looks[i].now
  }

  lemma {:induction false} DecreaseAllKeeps(p: Pool, looks: seq<Look>)
    requires Valid(p) && LooksRight(p, looks)
    ensures var q := DecreaseAll(p, looks);
            && Valid(q) && Held(q) == Held(p) && |Live(q)| <= |Live(p)|
            && q.low == p.low && q.high == p.high
            && (0 <= p.low && ClockAhead(p, looks) ==> |Live(q)| <= Max(|Live(p)| - |looks|, p.low))
    decreases |looks|
  {
    hide Valid, IsOldest, Live, Held;
    if |looks| == 0 {
    } else {
      var l := looks[0];
      var q := Decrease(p, l);
      LiveIsSome(p);
      StopOldestKeeps(p, l);
      if ClockAhead(p, looks) && |Live(p)| > 0 {
        SomeoneIsOldest(p, l);
      }
      assert ClockAhead(p, looks) ==> ClockAhead(q, looks[1..]);
      DecreaseAllKeeps(q, looks[1..]);
    }
  }

  lemma SomeoneIsOldest(p: Pool, l: Look)
    requires Valid(p) && |Live(p)| > 0 && IsOldest(p, l.now, l.oldest)
    requires forall w | w in p.worker :: p.worker[w].creation < l.now
    ensures l.oldest.Some?
  {
    var w :| w in Live(p);
    assert Eligible(p, l.now, w);
  }

  lemma LowerSize(p: Pool, count: nat, looks: seq<Look>)
    requires Valid(p) && SizeOk(p) && |looks| == count
    requires LooksRight(LowerLimit(p, count), looks) && ClockAhead(p, looks)
    ensures SizeOk(DecreaseAll(LowerLimit(p, count), looks))
  {
    hide Valid, LooksRight, DecreaseAll, Held;
    LimitsKeep(p, LowerLimit(p, count));
    DecreaseAllKeeps(LowerLimit(p, count), looks);
    hide Live, ClockAhead;
  }

  /** Changing the limits changes nothing else. */
  lemma LimitsKeep(p: Pool, q: Pool)
    requires Valid(p) && q == p.(low := q.low, high := q.high)
    ensures Valid(q) && Held(q) == Held(p) && Live(q) == Live(p)
  {
  }

  /** The workers that could be stopped at that moment. */
  function Stoppable(p: Pool, now: real): set<Wid> {
    set w | w in Live(p) && p.worker[w].creation < now
  }

  lemma StopOldestStoppable(p: Pool, l: Look)
    requires Valid(p) && IsOldest(p, l.now, l.oldest)
    ensures l.oldest.None? <==> Stoppable(p, l.now) == {}
    ensures |Stoppable(StopOldest(p, l), l.now)| == |Stoppable(p, l.now)| - (if l.oldest.Some? then 1 else 0)
  {
    match l.oldest {
      case None =>
        forall w | w in Stoppable(p, l.now)
          ensures false
        {
          assert Eligible(p, l.now, w);
        }
      case Some(w) =>
        StopKeeps(p, w);
        StopRemoves(p, StopWorker(p, w), l.now, w);
    }
  }

  lemma StopRemoves(p: Pool, q: Pool, now: real, w: Wid)
    requires Live(q) == Live(p) - {w} && w in Stoppable(p, now)
    requires forall v | v in Live(q) :: v in p.worker && q.worker[v] == p.worker[v]
    ensures |Stoppable(q, now)| == |Stoppable(p, now)| - 1
  {
    assert Stoppable(q, now) == Stoppable(p, now) - {w};
  }

  /** When the clock does not move between the looks, they stop as many workers as there are looks and
      stoppable workers, or they reach the lower limit first. */
  lemma {:induction false} DecreaseAtOnce(p: Pool, now: real, looks: seq<Look>) returns (stopped: nat)
    requires Valid(p) && LooksRight(p, looks) && forall l | l in looks :: l.now == now
    ensures |Live(DecreaseAll(p, looks))| == |Live(p)| - stopped
    ensures stopped <= |looks| && stopped <= |Stoppable(p, now)|
    ensures stopped == |looks| || stopped == |Stoppable(p, now)| || |Live(p)| - stopped <= p.low
    decreases |looks|
  {
    hide Valid, IsOldest, Live, Held, Stoppable;
    stopped := 0;
    if |looks| == 0 {
    } else {
      var l := looks[0];
      LiveIsSome(p);
      StopOldestKeeps(p, l);
      StopOldestStoppable(p, l);
      assert l in looks;
      stopped := DecreaseAtOnce(Decrease(p, l), now, looks[1..]);
      if p.low < |p.worker| && l.oldest.Some? {
        stopped := stopped + 1;
      }
    }
  }

  /** Lowering the limit at one moment keeps the ceiling exactly when enough of the workers in service were
      created before that moment. */
  lemma LowerSizeExactly(p: Pool, count: nat, now: real, looks: seq<Look>)
    requires Valid(p) && SizeOk(p) && |looks| == count && forall l | l in looks :: l.now == now
    requires LooksRight(LowerLimit(p, count), looks)
    ensures var lowered := LowerLimit(p, count);
            SizeOk(DecreaseAll(lowered, looks)) <==>
              |Live(p)| - Min(count, |Stoppable(p, now)|)
                <= lowered.high + (if lowered.low == lowered.high then 1 else 0)
  {
    var q := LowerLimit(p, count);
    LimitsKeep(p, q);
    hide Valid, LooksRight, DecreaseAll;
    assert Stoppable(q, now) == Stoppable(p, now) && Live(q) == Live(p);
    var stopped := DecreaseAtOnce(q, now, looks);
    DecreaseAllKeeps(q, looks);
    hide Live, Stoppable;
  }

  lemma {:induction false} IncreaseAllKeeps(p: Pool, born: seq<Worker>)
    requires Valid(p) && Fresh(p, born)
    ensures var q := IncreaseAll(p, born);
            && Valid(q) && Held(q) == Held(p) && |Live(q)| <= Max(|Live(p)|, p.high)
            && q.low == p.low && q.high == p.high
    decreases |born|
  {
    hide Valid, Live, Spawn, Held;
    if |born| == 0 {
    } else {
      var q := Increase(p, born[0]);
      SpawnKeeps(p, born[0]);
      LiveIsSome(p);
      HeldSame(p, q);
      IncreaseAllKeeps(q, born[1..]);
    }
  }

  lemma LimitsFresh(p: Pool, q: Pool, born: seq<Worker>)
    requires Fresh(p, born) && q == p.(low := q.low, high := q.high)
    ensures Fresh(q, born)
  {
  }

  lemma NoIncrease(p: Pool, born: seq<Worker>)
    requires |born| == 0
    ensures IncreaseAll(p, born) == p
  {
  }

  lemma RaiseSize(p: Pool, count: nat, born: seq<Worker>)
    requires Valid(p) && SizeOk(p) && |born| == count && Fresh(p, born)
    ensures SizeOk(IncreaseAll(RaiseLimit(p, count), born))
  {
    hide Valid, Held, Live, IncreaseAll, Fresh;
    LimitsKeep(p, RaiseLimit(p, count));
    LimitsFresh(p, RaiseLimit(p, count), born);
    IncreaseAllKeeps(RaiseLimit(p, count), born);
    if count == 0 {
      NoIncrease(p, born);
    }
  }

  // ----- runs -------------------------------------------------------------------------------

  /** One operation of the pool together with everything the environment decides during it. */
  datatype Event =
    | Submit(request: Request, first: Attempt, second: Attempt)
    | DrainQueue(first: Attempt, second: Attempt)
    | HearFrom(handle: Handle, ok: bool, first: Attempt, second: Attempt)
    | Provision(born: seq<Worker>)
    | DeprovisionOne(look: Look)
    | Respawn(order: seq<Wid>, born: seq<Worker>)
    | Raise(count: nat, born: seq<Worker>)
    | Lower(count: nat, looks: seq<Look>)
    | KillWorkers(order: seq<Wid>)

  predicate Lists(order: seq<Wid>, p: Pool) {
    p.worker.Keys == (set w | w in order)
  }

  /** The environment's decisions are possible in this state. */
  ghost predicate Enabled(p: Pool, e: Event) {
    match e
    case Provision(born) => Fresh(p, born) && |born| == ProvisionCount(p)
    case DeprovisionOne(look) => IsOldest(p, look.now, look.oldest)
    case Respawn(order, born) =>
      Lists(order, p) && Fresh(StopAll(p, order), born) && |born| == RespawnCount(p)
    case Raise(count, born) => |born| == count && Fresh(p, born)
    case Lower(count, looks) =>
      |looks| == count && LooksRight(LowerLimit(p, count), looks)
    case KillWorkers(order) => Lists(order, p)
    case _ => true
  }

  /** The pool, and an account of every request ever given to it: how often it was answered, which jobs were
      dropped, and how many workers were reaped for it. */
  datatype Ledger = Ledger(pool: Pool, submitted: multiset<Request>, answered: multiset<Request>,
                           dropped: multiset<Job>, blamed: multiset<Request>)

  function Times(r: Request, n: nat): multiset<Request> {
    multiset{}[r := n]
  }

  function Settled(l: Ledger, r: Request, e: Effect): Ledger {
    l.(pool := e.pool,
       answered := if e.answered then l.answered + multiset{r} else l.answered,
       blamed := l.blamed + Times(r, e.blamed))
  }

  ghost function Next(l: Ledger, e: Event): Ledger
    requires Enabled(l.pool, e)
  {
    var p := l.pool;
    match e
    case Submit(r, first, second) =>
      Settled(l.(submitted := l.submitted + multiset{r}), r, Ask(p, r, false, first, second))
    case DrainQueue(first, second) =>
      if p.queue == [] then l else Settled(l, p.queue[0].request, Drain(p, first, second))
    case HearFrom(h, ok, first, second) =>
      if h in p.processes && p.processes[h] in p.active then
        Settled(l, p.active[p.processes[h]].request, Hear(p, h, ok, first, second))
      else
        l.(pool := Hear(p, h, ok, first, second).pool)
    case Provision(born) => l.(pool := SpawnAll(p, born))
    case DeprovisionOne(look) => l.(pool := Deprovision(p, look))
    case Respawn(order, born) => l.(pool := SpawnAll(StopAll(p, order), born))
    case Raise(count, born) => l.(pool := IncreaseAll(RaiseLimit(p, count), born))
    case Lower(count, looks) => l.(pool := DecreaseAll(LowerLimit(p, count), looks))
    case KillWorkers(order) => l.(pool := ReapAll(p, order), dropped := l.dropped + Jobs(p.active))
  }

  /** The account of one request: with `held` in the pool, everything submitted is held, answered or dropped,
      and every worker reaped for it was paid from a budget of two for each submission. */
  ghost predicate Accounts(l: Ledger, held: multiset<Job>, r: Request) {
    var kept := held + l.dropped;
    && l.submitted[r] == kept[Job(r, false)] + kept[Job(r, true)] + l.answered[r]
    && l.blamed[r] + 2 * kept[Job(r, false)] + kept[Job(r, true)] <= 2 * l.submitted[r]
  }

  ghost predicate Inv(l: Ledger) {
    && Valid(l.pool)
    && LimitsOk(l.pool)
    && forall r :: Accounts(l, Held(l.pool), r)
  }

  /** Settling one request keeps every account. */
  lemma SettledAccounts(l: Ledger, p: Pool, others: multiset<Job>, r: Request, tainted: bool, e: Effect)
    requires Handled(p, others, r, tainted, e)
    requires forall r' :: Accounts(l, others + multiset{Job(r, tainted)}, r')
    ensures forall r' :: Accounts(Settled(l, r, e), Held(e.pool), r')
  {
    hide Valid, Live, Held;
    forall r'
      ensures Accounts(Settled(l, r, e), Held(e.pool), r')
    {
      assert Accounts(l, others + multiset{Job(r, tainted)}, r');
      assert Times(r, e.blamed)[r'] == if r' == r then e.blamed else 0;
    }
  }

  lemma SubmitKeeps(l: Ledger, r: Request, first: Attempt, second: Attempt)
    requires Inv(l)
    ensures Inv(Next(l, Submit(r, first, second)))
  {
    hide Valid, Live, Held, Ask, Handled;
    var p := l.pool;
    var l' := l.(submitted := l.submitted + multiset{r});
    AskKeeps(p, r, false, first, second);
    forall r'
      ensures Accounts(l', Held(p) + multiset{Job(r, false)}, r')
    {
      assert Accounts(l, Held(p), r');
    }
    SettledAccounts(l', p, Held(p), r, false, Ask(p, r, false, first, second));
    HandledSize(p, Held(p), r, false, Ask(p, r, false, first, second));
  }

  lemma HandledSize(p: Pool, others: multiset<Job>, r: Request, tainted: bool, e: Effect)
    requires Handled(p, others, r, tainted, e)
    ensures Valid(e.pool) && e.pool.low == p.low && e.pool.high == p.high && |Live(e.pool)| <= |Live(p)|
  {
    Smaller(Live(e.pool), Live(p));
  }

  /** Settling a job the pool already held. */
  lemma SettleKeeps(l: Ledger, job: Job, e: Effect)
    requires Inv(l) && job in Held(l.pool)
    requires Handled(l.pool, Held(l.pool) - multiset{job}, job.request, job.tainted, e)
    ensures Inv(Settled(l, job.request, e))
  {
    hide Valid, Live, Held, Handled;
    var p := l.pool;
    var others := Held(p) - multiset{job};
    assert others + multiset{job} == Held(p);
    assert job == Job(job.request, job.tainted);
    SettledAccounts(l, p, others, job.request, job.tainted, e);
    HandledSize(p, others, job.request, job.tainted, e);
  }

  lemma DrainQueueKeeps(l: Ledger, first: Attempt, second: Attempt)
    requires Inv(l)
    ensures Inv(Next(l, DrainQueue(first, second)))
  {
    hide Valid, Live, Held, Handled, Accounts;
    var p := l.pool;
    DrainKeeps(p, first, second);
    if p.queue != [] {
      if p.available == {} {
        NothingSettled(l, p.queue[0].request);
      } else {
        SettleKeeps(l, p.queue[0], Drain(p, first, second));
      }
    }
  }

  lemma NothingSettled(l: Ledger, r: Request)
    ensures Settled(l, r, Effect(l.pool, false, 0)) == l
  {
    assert l.blamed + Times(r, 0) == l.blamed;
  }

  lemma HearFromKeeps(l: Ledger, h: Handle, ok: bool, first: Attempt, second: Attempt)
    requires Inv(l)
    ensures Inv(Next(l, HearFrom(h, ok, first, second)))
  {
    hide Valid, Live, Held, Handled, Hear, Accounts;
    var p := l.pool;
    HearKeeps(p, h, ok, first, second);
    var e := Hear(p, h, ok, first, second);
    if h in p.processes && p.processes[h] in p.active {
      SettleKeeps(l, p.active[p.processes[h]], e);
    } else {
      PoolChanges(l, e.pool);
    }
  }

  /** An operation that holds the same jobs. */
  lemma PoolChanges(l: Ledger, q: Pool)
    requires Inv(l) && Valid(q) && Held(q) == Held(l.pool) && LimitsOk(q)
    ensures Inv(l.(pool := q))
  {
    hide Valid, Live, Held;
    forall r
      ensures Accounts(l.(pool := q), Held(q), r)
    {
      assert Accounts(l, Held(l.pool), r);
    }
  }

  lemma KillKeeps(l: Ledger, order: seq<Wid>)
    requires Inv(l) && Lists(order, l.pool)
    ensures Inv(Next(l, KillWorkers(order)))
    ensures Next(l, KillWorkers(order)).pool.worker == map[]
  {
    hide Valid, Live, Held, Accounts;
    var (p, q) := (l.pool, ReapAll(l.pool, order));
    ReapAllKeeps(p, order);
    assert q.worker.Keys == {};
    NobodyIsBusy(q);
    KilledAccounts(l, q);
  }

  lemma NobodyIsBusy(p: Pool)
    requires Valid(p) && p.worker.Keys == {}
    ensures p.worker == map[] && p.active == map[]
  {
    assert p.active.Keys == {};
  }

  /** The jobs of the busy workers are the ones dropped. */
  lemma KilledAccounts(l: Ledger, q: Pool)
    requires q.active == map[] && q.queue == l.pool.queue && forall r :: Accounts(l, Held(l.pool), r)
    ensures forall r :: Accounts(l.(pool := q, dropped := l.dropped + Jobs(l.pool.active)), Held(q), r)
  {
    forall r
      ensures Accounts(l.(pool := q, dropped := l.dropped + Jobs(l.pool.active)), Held(q), r)
    {
      assert Accounts(l, Held(l.pool), r);
    }
  }

  /** Every operation keeps the shape of the pool, the order of its limits, and every request's account. */
  lemma NextKeeps(l: Ledger, e: Event)
    requires Inv(l) && Enabled(l.pool, e)
    ensures Inv(Next(l, e))
  {
    hide Valid, Live, Held, Accounts, Fresh, IsOldest, LooksRight, Jobs;
    var p := l.pool;
    match e {
      case Submit(r, first, second) => SubmitKeeps(l, r, first, second);
      case DrainQueue(first, second) => DrainQueueKeeps(l, first, second);
      case HearFrom(h, ok, first, second) => HearFromKeeps(l, h, ok, first, second);
      case Provision(born) =>
        SpawnAllKeeps(p, born);
        HeldSame(p, SpawnAll(p, born));
        PoolChanges(l, SpawnAll(p, born));
      case DeprovisionOne(look) =>
        StopOldestKeeps(p, look);
        PoolChanges(l, Deprovision(p, look));
      case Respawn(order, born) =>
        RespawnSize(p, order, born);
        PoolChanges(l, SpawnAll(StopAll(p, order), born));
      case Raise(count, born) =>
        LimitsKeep(p, RaiseLimit(p, count));
        LimitsFresh(p, RaiseLimit(p, count), born);
        IncreaseAllKeeps(RaiseLimit(p, count), born);
        PoolChanges(l, IncreaseAll(RaiseLimit(p, count), born));
      case Lower(count, looks) =>
        LimitsKeep(p, LowerLimit(p, count));
        DecreaseAllKeeps(LowerLimit(p, count), looks);
        PoolChanges(l, DecreaseAll(LowerLimit(p, count), looks));
      case KillWorkers(order) => KillKeeps(l, order);
    }
  }

  /** Lowering the limit comes at moments when the clock has moved since every worker was created. */
  predicate ClockMoved(p: Pool, e: Event) {
    e.Lower? ==> ClockAhead(p, e.looks)
  }

  /** Every operation keeps the ceiling, lowering the limit if the clock has moved. */
  lemma NextWithinCeiling(l: Ledger, e: Event)
    requires Inv(l) && SizeOk(l.pool) && Enabled(l.pool, e) && ClockMoved(l.pool, e)
    ensures SizeOk(Next(l, e).pool)
  {
    hide Valid, Held, Accounts, Fresh, IsOldest, LooksRight, Jobs, ClockAhead, Live, SizeOk, Handled;
    hide Ask, Drain, Hear, SpawnAll, StopAll, ReapAll, IncreaseAll, DecreaseAll, Deprovision;
    var p := l.pool;
    match e {
      case Submit(r, first, second) =>
        AskKeeps(p, r, false, first, second);
        HandledSize(p, Held(p), r, false, Ask(p, r, false, first, second));
        Shrunk(p, Ask(p, r, false, first, second).pool);
      case DrainQueue(first, second) => DrainShrinks(p, first, second);
      case HearFrom(h, ok, first, second) => HearShrinks(p, h, ok, first, second);
      case Provision(born) => ProvisionSize(p, born);
      case DeprovisionOne(look) => DeprovisionShrinks(p, look);
      case Respawn(order, born) => RespawnSize(p, order, born);
      case Raise(count, born) => RaiseSize(p, count, born);
      case Lower(count, looks) => LowerSize(p, count, looks);
      case KillWorkers(order) =>
        ReapAllKeeps(p, order);
        Smaller(Live(ReapAll(p, order)), Live(p));
        Shrunk(p, ReapAll(p, order));
    }
  }

  lemma Shrunk(p: Pool, q: Pool)
    requires SizeOk(p) && q.low == p.low && q.high == p.high && |Live(q)| <= |Live(p)|
    ensures SizeOk(q)
  {
    hide Live;
  }

  lemma DeprovisionShrinks(p: Pool, look: Look)
    requires Valid(p) && SizeOk(p) && IsOldest(p, look.now, look.oldest)
    ensures SizeOk(Deprovision(p, look))
  {
    hide Valid, Live, Held, IsOldest, StopOldest;
    StopOldestKeeps(p, look);
  }

  lemma DrainShrinks(p: Pool, first: Attempt, second: Attempt)
    requires Valid(p) && SizeOk(p)
    ensures SizeOk(Drain(p, first, second).pool)
  {
    hide Valid, Live, Held, Ask, Handled;
    DrainKeeps(p, first, second);
    if p.available != {} && p.queue != [] {
      var job := p.queue[0];
      HandledSize(p, Held(p) - multiset{job}, job.request, job.tainted, Drain(p, first, second));
    }
  }

  lemma HearShrinks(p: Pool, h: Handle, ok: bool, first: Attempt, second: Attempt)
    requires Valid(p) && SizeOk(p)
    ensures SizeOk(Hear(p, h, ok, first, second).pool)
  {
    hide Valid, Live, Held, Hear, Handled;
    HearKeeps(p, h, ok, first, second);
    var e := Hear(p, h, ok, first, second);
    if h in p.processes && p.processes[h] in p.active {
      var job := p.active[p.processes[h]];
      HandledSize(p, Held(p) - multiset{job}, job.request, job.tainted, e);
    } else {
      Smaller(Live(e.pool), Live(p));
    }
  }

  ghost predicate EnabledAll(l: Ledger, es: seq<Event>)
    decreases |es|
  {
    |es| == 0 || (Enabled(l.pool, es[0]) && EnabledAll(Next(l, es[0]), es[1..]))
  }

  ghost function Run(l: Ledger, es: seq<Event>): Ledger
    requires EnabledAll(l, es)
    decreases |es|
  {
    if |es| == 0 then l else Run(Next(l, es[0]), es[1..])
  }

  function Initial(low: int, high: int): Ledger {
    Ledger(Pool(low, high, 1, map[], map[], {}, {}, map[], {}, []), multiset{}, multiset{}, multiset{}, multiset{})
  }

  lemma {:induction false} RunKeeps(l: Ledger, es: seq<Event>)
    requires Inv(l) && EnabledAll(l, es)
    ensures Inv(Run(l, es))
    decreases |es|
  {
    hide Inv, Next, Enabled;
    if |es| == 0 {
    } else {
      NextKeeps(l, es[0]);
      RunKeeps(Next(l, es[0]), es[1..]);
    }
  }

  /** In every state a run can reach from an empty pool: idle and busy workers partition the pool, stopping
      workers are busy, polled handles match workers with a child, the limits are in order, and every request is
      accounted for. */
  lemma EveryRunKeeps(low: int, high: int, es: seq<Event>)
    requires 1 <= low <= high && EnabledAll(Initial(low, high), es)
    ensures Inv(Run(Initial(low, high), es))
  {
    InitialIsFine(low, high);
    RunKeeps(Initial(low, high), es);
  }

  lemma InitialIsFine(low: int, high: int)
    requires 1 <= low <= high
    ensures Inv(Initial(low, high)) && SizeOk(Initial(low, high).pool)
  {
    assert Jobs(map[]) == multiset{};
    assert Live(Initial(low, high).pool) == {};
  }

  ghost predicate ClockMovedAll(l: Ledger, es: seq<Event>)
    requires EnabledAll(l, es)
    decreases |es|
  {
    |es| == 0 || (ClockMoved(l.pool, es[0]) && ClockMovedAll(Next(l, es[0]), es[1..]))
  }

  lemma {:induction false} RunWithinCeiling(l: Ledger, es: seq<Event>)
    requires Inv(l) && SizeOk(l.pool) && EnabledAll(l, es) && ClockMovedAll(l, es)
    ensures SizeOk(Run(l, es).pool)
    decreases |es|
  {
    hide Inv, SizeOk, Next, Enabled, ClockMoved;
    if |es| == 0 {
    } else {
      NextKeeps(l, es[0]);
      NextWithinCeiling(l, es[0]);
      RunWithinCeiling(Next(l, es[0]), es[1..]);
    }
  }

  /** The ceiling holds in every state reached by a run in which the limit is only lowered when the clock has
      moved since the workers were created. */
  lemma EveryRunWithinCeiling(low: int, high: int, es: seq<Event>)
    requires 1 <= low <= high && EnabledAll(Initial(low, high), es) && ClockMovedAll(Initial(low, high), es)
    ensures SizeOk(Run(Initial(low, high), es).pool)
  {
    hide Inv, SizeOk, Run, EnabledAll, ClockMovedAll;
    InitialIsFine(low, high);
    RunWithinCeiling(Initial(low, high), es);
  }

  /** A run without that assumption that ends above the ceiling: three workers are started, and at the very moment
      of their creation the limit is lowered from three to one; all three stay in service. */
  lemma LowerNeedsClock() returns (es: seq<Event>)
    ensures |es| == 2 && EnabledAll(Initial(2, 3), es) && !SizeOk(Run(Initial(2, 3), es).pool)
  {
    hide SpawnAll, DecreaseAll, LooksRight, Run, EnabledAll, IsOldest, ProvisionCount;
    var (w, look) := (Worker(5.0, None), Look(5.0, None));
    var (start, lower) := (Event.Provision([w, w, w]), Lower(2, [look, look]));
    es := [start, lower];
    var l := Initial(2, 3);
    var q := ThreeStarted(w);
    var p := LowerLimit(q, 2);
    NobodyIsOlder(p, look, w);
    NothingLowered(p, look);
    RunOfTwo(l, start, lower);
    assert Live(p) == {1, 2, 3};
  }

  lemma NobodyIsOlder(p: Pool, look: Look, w: Worker)
    requires forall v | v in p.worker :: p.worker[v] == w
    requires w.creation == look.now
    ensures IsOldest(p, look.now, None)
  {
  }

  lemma RunOfTwo(l: Ledger, a: Event, b: Event)
    requires Enabled(l.pool, a) && Enabled(Next(l, a).pool, b)
    ensures EnabledAll(l, [a, b]) && Run(l, [a, b]) == Next(Next(l, a), b)
  {
    hide Enabled, Next;
    assert [a, b][1..] == [b] && [b][1..] == [];
    assert EnabledAll(Next(l, a), [b]) && Run(Next(l, a), [b]) == Next(Next(l, a), b);
  }

  /** A run of one operation that ends above the ceiling: an empty pool that is to have exactly one worker is
      provisioned, and has two. */
  lemma CeilingIsExceeded(w: Worker) returns (es: seq<Event>)
    requires w.process.None?
    ensures |es| == 1 && es[0].Provision? && EnabledAll(Initial(1, 1), es)
    ensures var p := Run(Initial(1, 1), es).pool; |p.worker| == 2 && |Live(p)| == 2 && p.high == 1
  {
    hide SpawnAll, Run, EnabledAll, ProvisionCount;
    var e := Event.Provision([w, w]);
    es := [e];
    var q := TwoStarted(w);
    RunOfOne(Initial(1, 1), e);
    assert Live(q) == {1, 2} && q.worker.Keys == {1, 2};
    assert |q.worker| == |q.worker.Keys|;
  }

  lemma RunOfOne(l: Ledger, e: Event)
    requires Enabled(l.pool, e)
    ensures EnabledAll(l, [e]) && Run(l, [e]) == Next(l, e)
  {
    hide Enabled, Next;
    assert [e][1..] == [];
  }

  lemma TwoStarted(w: Worker) returns (q: Pool)
    requires w.process.None?
    ensures q == SpawnAll(Initial(1, 1).pool, [w, w])
    ensures q == Pool(1, 1, 3, map[1 := w, 2 := w], map[], {}, {1, 2}, map[], {}, [])
    ensures ProvisionCount(Initial(1, 1).pool) == 2
  {
    var p := Initial(1, 1).pool;
    var a := Spawn(p, w);
    q := Spawn(a, w);
    assert [w, w][1..] == [w] && [w][1..] == [];
    assert SpawnAll(a, [w]) == q;
  }

  lemma ThreeStarted(w: Worker) returns (q: Pool)
    requires w.process.None?
    ensures q == SpawnAll(Initial(2, 3).pool, [w, w, w])
    ensures q == Pool(2, 3, 4, map[1 := w, 2 := w, 3 := w], map[], {}, {1, 2, 3}, map[], {}, [])
    ensures ProvisionCount(Initial(2, 3).pool) == 3
  {
    var p := Initial(2, 3).pool;
    var (a, b) := (Spawn(p, w), Spawn(Spawn(p, w), w));
    q := Spawn(b, w);
    assert [w, w, w][1..] == [w, w] && [w, w][1..] == [w] && [w][1..] == [];
    assert SpawnAll(b, [w]) == q && SpawnAll(a, [w, w]) == q;
  }

  lemma NothingLowered(p: Pool, look: Look)
    requires look.oldest.None? && IsOldest(p, look.now, None)
    ensures LooksRight(p, [look, look]) && DecreaseAll(p, [look, look]) == p
  {
    assert Decrease(p, look) == p;
    assert [look, look][1..] == [look] && [look][1..] == [];
    assert LooksRight(p, [look]) && DecreaseAll(p, [look]) == p;
  }

  /** How often the pool holds a request: queued, or with a busy worker. */
  ghost function HeldCount(p: Pool, r: Request): nat {
    Held(p)[Job(r, false)] + Held(p)[Job(r, true)]
  }

  /** Without the final kill, every request given to the pool is accounted for in every reachable state: it
      was answered or is held, as often as it was submitted, and at most two workers were reaped for each
      submission.  A request submitted once is in exactly one place. */
  lemma NoRequestIsLost(low: int, high: int, es: seq<Event>, r: Request)
    requires 1 <= low <= high && EnabledAll(Initial(low, high), es)
    requires forall e | e in es :: !e.KillWorkers?
    ensures var l := Run(Initial(low, high), es);
            && l.submitted[r] == HeldCount(l.pool, r) + l.answered[r]
            && l.blamed[r] <= 2 * l.submitted[r]
            && (l.submitted[r] == 1 ==> HeldCount(l.pool, r) + l.answered[r] == 1)
  {
    EveryRunKeeps(low, high, es);
    OnlyKillDrops(Initial(low, high), es);
    assert Accounts(Run(Initial(low, high), es), Held(Run(Initial(low, high), es).pool), r);
  }

  lemma {:induction false} OnlyKillDrops(l: Ledger, es: seq<Event>)
    requires EnabledAll(l, es) && forall e | e in es :: !e.KillWorkers?
    ensures Run(l, es).dropped == l.dropped
    decreases |es|
  {
    hide Enabled;
    if |es| == 0 {
    } else {
      assert es[0] in es;
      NextDrops(l, es[0]);
      OnlyKillDrops(Next(l, es[0]), es[1..]);
    }
  }

  lemma NextDrops(l: Ledger, e: Event)
    requires Enabled(l.pool, e) && !e.KillWorkers?
    ensures Next(l, e).dropped == l.dropped
  {
  }

  // ----- stopping workers -------------------------------------------------------------------

  /** Putting a request to the pool leaves every busy worker, stopping or not, with the job it had, and
      creates no worker. */
  lemma {:induction false} AskSparesBusy(p: Pool, r: Request, tainted: bool, first: Attempt, second: Attempt)
    requires Valid(p)
    ensures var e := Ask(p, r, tainted, first, second);
            && e.pool.worker.Keys <= p.worker.Keys
            && e.pool.stopping == p.stopping
            && forall w | w in p.active :: w in e.pool.active && e.pool.active[w] == p.active[w]
    decreases !tainted
  {
    if p.available != {} {
      var w := Popped(p.available, first.pick);
      var q := p.(available := p.available - {w});
      PopKeeps(p, w);
      ReapKeeps(q, {w}, w);
      ReapFree(q, w);
      hide Valid, ValidWith, Reap;
      if first.verdict == Failed && !tainted {
        AskSparesBusy(Reap(q, w), r, true, second, second);
      }
    }
  }

  /** A stopping worker is reaped as soon as its child answers, whatever the answer and the retry. */
  lemma StoppingIsReaped(p: Pool, h: Handle, ok: bool, first: Attempt, second: Attempt)
    requires Valid(p) && h in p.processes && p.processes[h] in p.stopping
    ensures p.processes[h] !in Hear(p, h, ok, first, second).pool.worker
  {
    var w := p.processes[h];
    var q := p.(active := p.active - {w});
    FinishKeeps(p, w);
    ReleaseKeeps(q, w);
    hide Valid, ValidWith, Release;
    var q' := Release(q, w);
    ReapReleased(q', w);
    if !ok && !p.active[w].tainted {
      AskSparesBusy(Reap(q', w), p.active[w].request, true, first, second);
    }
  }
}

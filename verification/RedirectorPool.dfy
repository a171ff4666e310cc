/** The pool of redirector workers: what each operation of `RedirectorManager` does to the pool, as functions
    on a value.  Everything the operating system, the children and the clock decide is an argument:
    which idle worker `set.pop` returns, what a worker answers, which handles new children get. */
module RedirectorPool {
  import opened Basics
  import opened Wrappers

  type Wid = nat
  type Handle = nat

  /** A request from the main process; requests are told apart by their client and content. */
  datatype Request = Request(client: nat, content: string)

  /** A request held by the pool.  It is tainted once a worker was reaped for failing it. */
  datatype Job = Job(request: Request, tainted: bool)

  datatype Worker = Worker(creation: real, process: Option<Handle>)

  datatype Pool = Pool(
    low: int, high: int, nextid: Wid,
    worker: map<Wid, Worker>,
    processes: map<Handle, Wid>,
    watched: set<Handle>,          // the sockets registered with the poller as 'read_workers'
    available: set<Wid>,
    active: map<Wid, Job>,
    stopping: set<Wid>,
    queue: seq<Job>)

  // ----- single workers ---------------------------------------------------------------------

  function Spawn(p: Pool, born: Worker): Pool {
    var q := p.(nextid := p.nextid + 1,
                worker := p.worker[p.nextid := born],
                available := p.available + {p.nextid});
    match born.process
    case None => q
    case Some(h) => q.(processes := q.processes[h := p.nextid], watched := q.watched + {h})
  }

  function SpawnAll(p: Pool, born: seq<Worker>): Pool
    decreases |born|
  {
    if |born| == 0 then p else SpawnAll(Spawn(p, born[0]), born[1..])
  }

  function Reap(p: Pool, w: Wid): Pool {
    if w !in p.worker then p
    else
      var q := p.(worker := p.worker - {w}, active := p.active - {w},
                  stopping := p.stopping - {w}, available := p.available - {w});
      match p.worker[w].process
      case None => q
      case Some(h) => q.(processes := q.processes - {h}, watched := q.watched - {h})
  }

  function StopWorker(p: Pool, w: Wid): Pool {
    if w in p.active then p.(stopping := p.stopping + {w}) else Reap(p, w)
  }

  function StopAll(p: Pool, ws: seq<Wid>): Pool
    decreases |ws|
  {
    if |ws| == 0 then p else StopAll(StopWorker(p, ws[0]), ws[1..])
  }

  function ReapAll(p: Pool, ws: seq<Wid>): Pool
    decreases |ws|
  {
    if |ws| == 0 then p else ReapAll(Reap(p, ws[0]), ws[1..])
  }

  function Release(p: Pool, w: Wid): Pool {
    if w !in p.worker then p
    else if w in p.stopping then Reap(p, w)
    else p.(available := p.available + {w})
  }

  // ----- requests ---------------------------------------------------------------------------

  /** What a worker makes of a request: it fails (or raises), asks its child, or decides at once. */
  datatype Verdict = Failed | Deferred | Decided

  /** One attempt: the worker `set.pop` happens to return and what that worker does. */
  datatype Attempt = Attempt(pick: Wid, verdict: Verdict)

  /** The worker popped from a set that holds one: `pick` names it, or any member stands in for it. */
  ghost function Popped(s: set<Wid>, pick: Wid): (w: Wid)
    requires s != {}
    ensures w in s && (pick in s ==> w == pick)
  {
    if pick in s then pick else var w :| w in s; w
  }

  /** The pool after an operation on a request, whether it was answered, and how many workers were reaped
      for failing it meanwhile. */
  datatype Effect = Effect(pool: Pool, answered: bool, blamed: nat)

  ghost function Ask(p: Pool, r: Request, tainted: bool, first: Attempt, second: Attempt): Effect
    decreases !tainted
  {
    if p.available == {} then Effect(p.(queue := p.queue + [Job(r, tainted)]), false, 0)
    else
      var w := Popped(p.available, first.pick);
      var q := p.(available := p.available - {w});
      match first.verdict
      case Decided => Effect(Release(q, w), true, 0)
      case Deferred => Effect(q.(active := q.active[w := Job(r, tainted)]), false, 0)
      case Failed =>
        if tainted then Effect(Reap(q, w), true, 1)
        else
          var retry := Ask(Reap(q, w), r, true, second, second);
          Effect(retry.pool, retry.answered, retry.blamed + 1)
  }

  /** `doqueue`. */
  ghost function Drain(p: Pool, first: Attempt, second: Attempt): Effect {
    if p.available == {} || p.queue == [] then Effect(p, false, 0)
    else Ask(p.(queue := p.queue[1..]), p.queue[0].request, p.queue[0].tainted, first, second)
  }

  /** `getDecision`: a worker's child wrote something (or closed its output). */
  ghost function Hear(p: Pool, h: Handle, ok: bool, first: Attempt, second: Attempt): Effect {
    if h !in p.processes then Effect(p, false, 0)
    else if p.processes[h] !in p.active then Effect(Reap(p, p.processes[h]), false, 0)
    else Settle(p, p.processes[h], ok, first, second)
  }

  /** The worker's answer decides the job it was busy with, or the worker is reaped for failing it. */
  ghost function Settle(p: Pool, w: Wid, ok: bool, first: Attempt, second: Attempt): Effect
    requires w in p.active
  {
    var job := p.active[w];
    var q := Release(p.(active := p.active - {w}), w);
    if ok then Effect(q, true, 0)
    else if job.tainted then Effect(Reap(q, w), true, 1)
    else
      var retry := Ask(Reap(q, w), job.request, true, first, second);
      Effect(retry.pool, retry.answered, retry.blamed + 1)
  }

  // ----- pool size --------------------------------------------------------------------------

  /** How many workers `respawn` starts. */
  function RespawnCount(p: Pool): int {
    Max(Min(|p.worker|, p.high), p.low)
  }

  /** How many workers `provision` starts: the missing ones, then some more when the queue is long.  The
      second number is computed from the worker count taken before the first. */
  function ProvisionCount(p: Pool): int {
    var n := |p.worker|;
    Max(0, p.low - n) +
    (if |p.queue| >= n && n < p.high then Min(Max(1, Min(p.low, (p.high - p.low) / 4)), p.high - n) else 0)
  }

  /** The worker `_oldest` returns: created before now and before all others that are not stopping. */
  predicate Eligible(p: Pool, now: real, w: Wid) {
    w in p.worker && p.worker[w].creation < now && w !in p.stopping
  }

  ghost predicate IsOldest(p: Pool, now: real, choice: Option<Wid>) {
    match choice
    case None => forall w :: !Eligible(p, now, w)
    case Some(w) =>
      Eligible(p, now, w) &&
      forall v | Eligible(p, now, v) :: p.worker[w].creation <= p.worker[v].creation
  }

  /** A moment at which the oldest worker is looked for, and the one found. */
  datatype Look = Look(now: real, oldest: Option<Wid>)

  function StopOldest(p: Pool, l: Look): Pool {
    match l.oldest
    case None => p
    case Some(w) => StopWorker(p, w)
  }

  function Deprovision(p: Pool, l: Look): Pool {
    if p.queue == [] && |p.worker| > p.low then StopOldest(p, l) else p
  }

  /** `_decrease` and `decrease`. */
  function Decrease(p: Pool, l: Look): Pool {
    if p.low < |p.worker| then StopOldest(p, l) else p
  }

  function DecreaseAll(p: Pool, looks: seq<Look>): Pool
    decreases |looks|
  {
    if |looks| == 0 then p else DecreaseAll(Decrease(p, looks[0]), looks[1..])
  }

  /** `_increase` and `increase`. */
  function Increase(p: Pool, born: Worker): Pool {
    if |p.worker| < p.high then Spawn(p, born) else p
  }

  function IncreaseAll(p: Pool, born: seq<Worker>): Pool
    decreases |born|
  {
    if |born| == 0 then p else IncreaseAll(Increase(p, born[0]), born[1..])
  }

  /** The spawn-limit changes of the supervisor. */
  function RaiseLimit(p: Pool, count: nat): Pool {
    p.(low := p.low + count, high := Max(p.low + count, p.high))
  }

  function LowerLimit(p: Pool, count: nat): Pool {
    var high := Max(1, p.high - count);
    p.(high := high, low := Min(high, p.low))
  }
}

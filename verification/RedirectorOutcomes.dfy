/** What one operation of the redirector pool does with the request it is about, and how many workers one operation
    starts or stops, stated on the tables of the pool and on what the workers decide. */
module RedirectorOutcomes {
  import opened Basics
  import opened Wrappers
  import opened RedirectorPool
  import opened RedirectorInvariants

  // ----- single requests --------------------------------------------------------------------

  /** The pool without a worker: no table names it, and nothing else is different. */
  function Without(p: Pool, w: Wid): Pool {
    p.(worker := (map v | v in p.worker && v != w :: p.worker[v]),
       available := (set v | v in p.available && v != w),
       active := (map v | v in p.active && v != w :: p.active[v]),
       stopping := (set v | v in p.stopping && v != w),
       processes := (map h | h in p.processes && p.processes[h] != w :: p.processes[h]),
       watched := (set h | h in p.watched && !(h in p.processes && p.processes[h] == w)))
  }

  /** What a request comes to.  Without an idle worker it is queued, last.  Otherwise an idle worker is asked: it may
      decide at once, and the request is answered and the pool as it was; it may defer, and is busy with the request;
      or it may fail and is gone, and the request is put to the pool again, or answered if a worker failed it before. */
  ghost predicate Placed(p: Pool, r: Request, tainted: bool, first: Verdict, second: Verdict, q: Pool, answered: bool)
    decreases !tainted
  {
    if p.available == {} then !answered && q == p.(queue := p.queue + [Job(r, tainted)])
    else match first
      case Decided => answered && q == p
      case Deferred => !answered && exists w :: w in p.available && q == Busy(p, w, Job(r, tainted))
      case Failed =>
        exists w :: w in p.available &&
          if tainted then answered && q == Without(p, w)
          else Placed(Without(p, w), r, true, second, second, q, answered)
  }

  /** The pool in which an idle worker took a job. */
  function Busy(p: Pool, w: Wid, j: Job): Pool {
    p.(available := p.available - {w}, active := p.active[w := j])
  }

  lemma ReapIsWithout(p: Pool, held: set<Wid>, w: Wid)
    requires ValidWith(p, held)
    ensures Reap(p, w) == Without(p, w)
  {
    if w in p.worker {
      TablesWithout(p, held, w);
    } else {
      assert Without(p, w) == p;
    }
  }

  lemma TablesWithout(p: Pool, held: set<Wid>, w: Wid)
    requires ValidWith(p, held) && w in p.worker
    ensures Reap(p, w) == Without(p, w)
  {
    var (a, b) := (Reap(p, w), Without(p, w));
    assert a.worker == b.worker && a.active == b.active;
    assert a.available == b.available && a.stopping == b.stopping;
    assert a.processes == b.processes && a.watched == b.watched;
  }

  /** A worker that was only taken out of the idle set. */
  lemma HeldIsWithout(p: Pool, w: Wid)
    requires Valid(p) && w in p.available
    ensures Reap(p.(available := p.available - {w}), w) == Without(p, w)
  {
    PopKeeps(p, w);
    ReapIsWithout(p.(available := p.available - {w}), {w}, w);
    SameWithout(p, p.(available := p.available - {w}), w);
  }

  lemma SameWithout(p: Pool, q: Pool, w: Wid)
    requires q == p.(available := p.available - {w})
    ensures Without(p, w) == Without(q, w)
  {
  }

  lemma {:induction false} AskPlaces(p: Pool, r: Request, tainted: bool, first: Attempt, second: Attempt)
    requires Valid(p)
    ensures var e := Ask(p, r, tainted, first, second);
            Placed(p, r, tainted, first.verdict, second.verdict, e.pool, e.answered)
    decreases !tainted
  {
    hide Valid, ValidWith, Reap, Without, Release;
    if p.available != {} {
      var w := Popped(p.available, first.pick);
      var q := p.(available := p.available - {w});
      PopKeeps(p, w);
      HeldIsWithout(p, w);
      match first.verdict {
        case Decided => BackIsSame(p, w);
        case Deferred => assert Busy(p, w, Job(r, tainted)) == Ask(p, r, tainted, first, second).pool;
        case Failed =>
          ReapFree(q, w);
          if !tainted {
            AskPlaces(Reap(q, w), r, true, second, second);
          }
      }
    }
  }

  /** A worker taken and released is idle as before. */
  lemma BackIsSame(p: Pool, w: Wid)
    requires Valid(p) && w in p.available
    ensures Release(p.(available := p.available - {w}), w) == p
  {
    assert p.available - {w} + {w} == p.available;
  }

  /** The oldest queued request is the one put to the pool, if a worker is idle. */
  lemma DrainPlaces(p: Pool, first: Attempt, second: Attempt)
    requires Valid(p)
    ensures var e := Drain(p, first, second);
            if p.available == {} || p.queue == [] then e.pool == p && !e.answered
            else Placed(p.(queue := p.queue[1..]), p.queue[0].request, p.queue[0].tainted,
                        first.verdict, second.verdict, e.pool, e.answered)
  {
    hide Placed, Ask;
    if p.available != {} && p.queue != [] {
      DequeueKeeps(p);
      AskPlaces(p.(queue := p.queue[1..]), p.queue[0].request, p.queue[0].tainted, first, second);
    }
  }

  /** The pool once a worker finished its job: it is idle again, or gone if it was to stop. */
  function Finished(p: Pool, w: Wid): Pool {
    if w in p.stopping then Without(p, w)
    else p.(active := (map v | v in p.active && v != w :: p.active[v]), available := p.available + {w})
  }

  /** What a child's output comes to.  An unknown child changes nothing, and an idle worker's output ends it.  A good
      answer of a busy worker answers its request; a bad one ends the worker, and answers the request if a worker
      failed it before, or else puts it to the pool again. */
  ghost predicate Heard(p: Pool, h: Handle, ok: bool, first: Verdict, second: Verdict, q: Pool, answered: bool) {
    if h !in p.processes then !answered && q == p
    else
      var w := p.processes[h];
      if w !in p.active then !answered && q == Without(p, w)
      else if ok then answered && q == Finished(p, w)
      else if p.active[w].tainted then answered && q == Without(p, w)
      else Placed(Without(p, w), p.active[w].request, true, first, second, q, answered)
  }

  lemma HearPlaces(p: Pool, h: Handle, ok: bool, first: Attempt, second: Attempt)
    requires Valid(p)
    ensures var e := Hear(p, h, ok, first, second);
            Heard(p, h, ok, first.verdict, second.verdict, e.pool, e.answered)
  {
    hide Valid, ValidWith, Reap, Without, Release, Placed, Ask, Finished;
    if h in p.processes {
      var w := p.processes[h];
      if w in p.active {
        var q := Release(p.(active := p.active - {w}), w);
        FinishKeeps(p, w);
        ReleaseKeeps(p.(active := p.active - {w}), w);
        ReleaseFinishes(p, w);
        ReapFinished(p, w);
        ReapReleased(q, w);
        if !ok && !p.active[w].tainted {
          AskPlaces(Reap(q, w), p.active[w].request, true, first, second);
        }
      } else {
        ValidIsHeld(p);
        ReapIsWithout(p, {}, w);
      }
    }
  }

  lemma ValidIsHeld(p: Pool)
    requires Valid(p)
    ensures ValidWith(p, {})
  {
  }

  lemma ReleaseFinishes(p: Pool, w: Wid)
    requires Valid(p) && w in p.active
    ensures Release(p.(active := p.active - {w}), w) == Finished(p, w)
  {
    var q := p.(active := p.active - {w});
    FinishIsValid(p, w);
    assert q.active == map v | v in p.active && v != w :: p.active[v];
    if w in p.stopping {
      ReapIsWithout(q, {w}, w);
      assert Without(q, w) == Without(p, w);
    }
  }

  lemma ReapFinished(p: Pool, w: Wid)
    requires Valid(p) && w in p.active
    ensures Reap(Release(p.(active := p.active - {w}), w), w) == Without(p, w)
  {
    hide Valid, ValidWith, Reap, Release, Without, Finished;
    var f := Finished(p, w);
    FinishKeeps(p, w);
    ReleaseFinishes(p, w);
    ReleaseKeeps(p.(active := p.active - {w}), w);
    ValidIsHeld(f);
    ReapIsWithout(f, {}, w);
    FinishedWithout(p, w);
  }

  lemma FinishedWithout(p: Pool, w: Wid)
    requires Valid(p) && w in p.active
    ensures Without(Finished(p, w), w) == Without(p, w)
  {
    var (a, b) := (Without(Finished(p, w), w), Without(p, w));
    assert a.available == b.available;
    assert a.worker == b.worker && a.active == b.active && a.stopping == b.stopping;
    assert a.processes == b.processes && a.watched == b.watched;
  }

  // ----- stopping ---------------------------------------------------------------------------

  /** The pool once a worker was told to stop: a busy one will when it is done, an idle one is gone. */
  function Stopped(p: Pool, w: Wid): Pool {
    if w in p.active then p.(stopping := p.stopping + {w}) else Without(p, w)
  }

  /** A worker in service that was created before now, and before or with all others. */
  ghost predicate Oldest(p: Pool, now: real, w: Wid) {
    && w in Live(p) && p.worker[w].creation < now
    && forall v :: v in Live(p) && p.worker[v].creation < now ==> p.worker[w].creation <= p.worker[v].creation
  }

  /** `deprovision` stops an oldest worker if nothing is queued, more workers exist than the lower limit asks for, and
      one in service is older than now; otherwise it changes nothing. */
  lemma DeprovisionStops(p: Pool, l: Look)
    requires Valid(p) && IsOldest(p, l.now, l.oldest)
    ensures if p.queue == [] && |p.worker| > p.low && exists w :: Oldest(p, l.now, w)
            then exists w :: Oldest(p, l.now, w) && Deprovision(p, l) == Stopped(p, w)
            else Deprovision(p, l) == p
  {
    OldestIs(p, l);
  }

  /** Lowering the number of workers by one does so whatever is queued. */
  lemma DecreaseStops(p: Pool, l: Look)
    requires Valid(p) && IsOldest(p, l.now, l.oldest)
    ensures if |p.worker| > p.low && exists w :: Oldest(p, l.now, w)
            then exists w :: Oldest(p, l.now, w) && Decrease(p, l) == Stopped(p, w)
            else Decrease(p, l) == p
  {
    OldestIs(p, l);
  }

  lemma OldestIs(p: Pool, l: Look)
    requires Valid(p) && IsOldest(p, l.now, l.oldest)
    ensures l.oldest.Some? <==> exists w :: Oldest(p, l.now, w)
    ensures l.oldest.Some? ==> Oldest(p, l.now, l.oldest.value) && StopOldest(p, l) == Stopped(p, l.oldest.value)
  {
    hide Without, Reap, ValidWith;
    if l.oldest.Some? {
      var w := l.oldest.value;
      forall v | v in Live(p) && p.worker[v].creation < l.now
        ensures p.worker[w].creation <= p.worker[v].creation
      {
        assert Eligible(p, l.now, v);
      }
      EligibleLives(p, l.now, w);
      assert Oldest(p, l.now, w);
      ValidIsHeld(p);
      ReapIsWithout(p, {}, w);
    } else {
      forall w
        ensures !Oldest(p, l.now, w)
      {
        assert !Eligible(p, l.now, w);
      }
    }
  }

  lemma EligibleLives(p: Pool, now: real, w: Wid)
    requires Eligible(p, now, w)
    ensures w in Live(p) && p.worker[w].creation < now
  {
  }

  // ----- numbers of workers -----------------------------------------------------------------

  /** Growing by this many is allowed under a backlog: one always; more only up to the lower limit and to a quarter of
      the difference of the limits. */
  predicate Growth(p: Pool, k: int) {
    k <= p.high - |p.worker| && (k <= 1 || (k <= p.low && 4 * k <= p.high - p.low))
  }

  /** How many workers `provision` starts: those missing below the lower limit; and as many as the growth under a
      backlog allows, if as many requests are queued as there are workers and these are below the upper limit. */
  lemma ProvisionCountIs(p: Pool) returns (more: nat)
    requires 0 <= p.low <= p.high
    ensures ProvisionCount(p) == (if |p.worker| < p.low then p.low - |p.worker| else 0) + more
    ensures if |p.queue| < |p.worker| || |p.worker| >= p.high then more == 0
            else more >= 1 && Growth(p, more) && forall k :: Growth(p, k) ==> k <= more
  {
    more := 0;
    if |p.queue| >= |p.worker| && |p.worker| < p.high {
      more := Min(Max(1, Min(p.low, (p.high - p.low) / 4)), p.high - |p.worker|);
    }
  }

  /** As many workers are started as asked for and as fit below the upper limit. */
  lemma {:induction false} IncreaseStarts(p: Pool, born: seq<Worker>)
    requires Valid(p) && Fresh(p, born)
    ensures var q := IncreaseAll(p, born);
            |q.worker| == |p.worker| + (if |p.worker| + |born| <= p.high then |born|
                                        else if |p.worker| <= p.high then p.high - |p.worker| else 0)
    decreases |born|
  {
    hide Valid, Spawn, Fresh;
    if |born| == 0 {
    } else {
      var q := Increase(p, born[0]);
      FreshFirst(p, born);
      SpawnKeeps(p, born[0]);
      FreshRest(p, born);
      IncreaseStarts(q, born[1..]);
    }
  }

  lemma FreshFirst(p: Pool, born: seq<Worker>)
    requires Fresh(p, born) && |born| > 0
    ensures born[0].process.Some? ==> born[0].process.value !in p.processes
  {
  }

  lemma FreshRest(p: Pool, born: seq<Worker>)
    requires Fresh(p, born) && |born| > 0
    ensures Fresh(p, born[1..]) && Fresh(Spawn(p, born[0]), born[1..])
  {
  }
}

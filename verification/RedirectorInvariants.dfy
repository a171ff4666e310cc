/** What every operation of the redirector pool keeps, and what follows for every run. */
module RedirectorInvariants {
  import opened Basics
  import opened Wrappers
  import opened RedirectorPool

  // ----- the shape of the pool --------------------------------------------------------------

  /** The pool while the workers in `held` are in the hands of an operation: the others are idle or busy,
      never both; only busy or held workers are stopping; and the handles polled are exactly those of the
      live workers that have a child, one each. */
  ghost predicate ValidWith(p: Pool, held: set<Wid>) {
    && (forall w | w in p.worker :: w < p.nextid)
    && p.available + p.active.Keys + held == p.worker.Keys
    && p.available !! p.active.Keys !! held
    && p.stopping <= p.active.Keys + held
    && (forall h | h in p.processes :: p.processes[h] in p.worker && p.worker[p.processes[h]].process == Some(h))
    && (forall w | w in p.worker && p.worker[w].process.Some? ::
          p.worker[w].process.value in p.processes && p.processes[p.worker[w].process.value] == w)
    && p.watched == p.processes.Keys
  }

  ghost predicate Valid(p: Pool) {
    ValidWith(p, {})
  }

  /** The handles of the new children are new, and differ from each other. */
  predicate Fresh(p: Pool, born: seq<Worker>) {
    && (forall i | 0 <= i < |born| && born[i].process.Some? :: born[i].process.value !in p.processes)
    && (forall i, j | 0 <= i < j < |born| && born[i].process.Some? :: born[i].process != born[j].process)
  }

  /** The workers that are not stopping. */
  function Live(p: Pool): set<Wid> {
    p.worker.Keys - p.stopping
  }

  // ----- the requests the pool holds --------------------------------------------------------

  ghost function AnyKey(m: map<Wid, Job>): (w: Wid)
    requires m.Keys != {}
    ensures w in m
  {
    var w :| w in m.Keys; w
  }

  /** The jobs of the busy workers. */
  ghost function Jobs(m: map<Wid, Job>): multiset<Job>
    decreases |m|
  {
    if m.Keys == {} then multiset{} else multiset{m[AnyKey(m)]} + Jobs(m - {AnyKey(m)})
  }

  ghost function Held(p: Pool): multiset<Job> {
    multiset(p.queue) + Jobs(p.active)
  }

  lemma JobsUnfold(m: map<Wid, Job>)
    requires m.Keys != {}
    ensures Jobs(m) == multiset{m[AnyKey(m)]} + Jobs(m - {AnyKey(m)})
  {
  }

  lemma {:induction false} JobsWithout(m: map<Wid, Job>, w: Wid)
    requires w in m
    ensures Jobs(m) == multiset{m[w]} + Jobs(m - {w})
    decreases |m|
  {
    hide Jobs;
    JobsUnfold(m);
    var v := AnyKey(m);
    if v != w {
      var a, b := m - {v}, m - {w};
      assert w in a && a[w] == m[w] && v in b && b[v] == m[v];
      assert a - {w} == b - {v};
      JobsWithout(a, w);
      JobsWithout(b, v);
    }
  }

  lemma JobsWith(m: map<Wid, Job>, w: Wid, j: Job)
    requires w !in m
    ensures Jobs(m[w := j]) == multiset{j} + Jobs(m)
  {
    JobsWithout(m[w := j], w);
    assert m[w := j] - {w} == m;
  }

  // ----- single workers ---------------------------------------------------------------------

  lemma SpawnIsValid(p: Pool, born: Worker)
    requires Valid(p)
    requires born.process.Some? ==> born.process.value !in p.processes
    ensures Valid(Spawn(p, born))
  {
    hide Spawn;
    SpawnSets(p, born);
    SpawnHandles(p, born);
  }

  lemma SpawnSets(p: Pool, born: Worker)
    requires Valid(p)
    ensures var q := Spawn(p, born);
            && (forall w | w in q.worker :: w < q.nextid)
            && q.available + q.active.Keys == q.worker.Keys
            && q.available !! q.active.Keys
            && q.stopping <= q.active.Keys
  {
    var (q, w) := (Spawn(p, born), p.nextid);
    assert w !in p.worker.Keys;
    assert q.worker.Keys == p.worker.Keys + {w} && q.available == p.available + {w};
  }

  lemma SpawnHandles(p: Pool, born: Worker)
    requires Valid(p)
    requires born.process.Some? ==> born.process.value !in p.processes
    ensures var q := Spawn(p, born);
            && (forall h | h in q.processes :: h in q.watched && q.processes[h] in q.worker &&
                  q.worker[q.processes[h]].process == Some(h))
            && (forall w | w in q.worker && q.worker[w].process.Some? ::
                  q.worker[w].process.value in q.processes && q.processes[q.worker[w].process.value] == w)
            && q.watched == q.processes.Keys
  {
    var q := Spawn(p, born);
    assert p.nextid !in p.worker;
    forall h | h in q.processes
      ensures h in q.watched && q.processes[h] in q.worker && q.worker[q.processes[h]].process == Some(h)
    {
      if born.process != Some(h) {
        assert h in p.processes;
      }
    }
  }

  lemma SpawnKeeps(p: Pool, born: Worker)
    requires Valid(p)
    requires born.process.Some? ==> born.process.value !in p.processes
    ensures var q := Spawn(p, born);
            && Valid(q) && q.active == p.active && q.queue == p.queue
            && |Live(q)| == |Live(p)| + 1 && |q.worker| == |p.worker| + 1
            && p.nextid !in p.worker && q.worker == p.worker[p.nextid := born] && p.nextid in q.available
            && q.low == p.low && q.high == p.high
            && (forall h | h in q.processes :: h in p.processes || born.process == Some(h))
  {
    SpawnIsValid(p, born);
    SpawnGrows(p, born);
    hide Valid, Spawn, Live;
    assert |Spawn(p, born).worker| == |Spawn(p, born).worker.Keys| && |p.worker| == |p.worker.Keys|;
    AddOne(p.worker.Keys, p.nextid);
    AddOne(Live(p), p.nextid);
  }

  lemma SpawnGrows(p: Pool, born: Worker)
    requires Valid(p)
    ensures var q := Spawn(p, born);
            && q.worker.Keys == p.worker.Keys + {p.nextid} && Live(q) == Live(p) + {p.nextid}
            && q.worker == p.worker[p.nextid := born] && p.nextid in q.available
            && p.nextid !in p.worker.Keys && p.nextid !in Live(p)
            && q.active == p.active && q.queue == p.queue && q.low == p.low && q.high == p.high
            && (forall h | h in q.processes :: h in p.processes || born.process == Some(h))
  {
  }

  lemma AddOne(s: set<Wid>, w: Wid)
    requires w !in s
    ensures |s + {w}| == |s| + 1
  {
  }

  lemma {:induction false} SpawnAllKeeps(p: Pool, born: seq<Worker>)
    requires Valid(p) && Fresh(p, born)
    ensures var q := SpawnAll(p, born);
            && Valid(q) && q.active == p.active && q.queue == p.queue
            && |Live(q)| == |Live(p)| + |born| && |q.worker| == |p.worker| + |born|
            && q.low == p.low && q.high == p.high
    decreases |born|
  {
    hide Valid, Live, Spawn;
    if |born| == 0 {
    } else {
      SpawnKeeps(p, born[0]);
      SpawnAllKeeps(Spawn(p, born[0]), born[1..]);
    }
  }

  /** New workers have new names. */
  lemma {:induction false} SpawnAllNames(p: Pool, born: seq<Worker>)
    ensures forall w | w in Live(SpawnAll(p, born)) :: w in Live(p) || w >= p.nextid
    decreases |born|
  {
    if |born| == 0 {
    } else {
      SpawnAllNames(Spawn(p, born[0]), born[1..]);
    }
  }

  /** Reaping forgets the worker everywhere, and its job with it. */
  lemma ReapKeeps(p: Pool, held: set<Wid>, w: Wid)
    requires ValidWith(p, held)
    ensures var q := Reap(p, w);
            && ValidWith(q, held - {w}) && w !in q.worker
            && q.worker == p.worker - {w} && q.active == p.active - {w} && q.queue == p.queue
            && q.stopping == p.stopping - {w} && Live(q) == Live(p) - {w}
            && q.low == p.low && q.high == p.high
  {
    if w !in p.worker {
      assert p.worker - {w} == p.worker && p.active - {w} == p.active;
    }
  }

  lemma ReleaseKeeps(p: Pool, w: Wid)
    requires ValidWith(p, {w})
    ensures var q := Release(p, w);
            && Valid(q) && q.active == p.active && q.queue == p.queue && Live(q) == Live(p)
            && (w in q.worker <==> w !in p.stopping)
            && q.low == p.low && q.high == p.high
  {
    ReapKeeps(p, {w}, w);
    assert p.active - {w} == p.active;
  }

  lemma StopKeeps(p: Pool, w: Wid)
    requires Valid(p)
    ensures var q := StopWorker(p, w);
            && Valid(q) && q.active == p.active && q.queue == p.queue && Live(q) == Live(p) - {w}
            && q.worker.Keys <= p.worker.Keys
            && q.low == p.low && q.high == p.high
            && (forall v | v in q.worker :: q.worker[v] == p.worker[v])
  {
    ReapKeeps(p, {}, w);
    if w !in p.active {
      assert p.active - {w} == p.active;
    }
  }

  lemma {:induction false} StopAllKeeps(p: Pool, ws: seq<Wid>)
    requires Valid(p)
    ensures var q := StopAll(p, ws);
            && Valid(q) && q.active == p.active && q.queue == p.queue
            && Live(q) == Live(p) - (set w | w in ws)
            && q.low == p.low && q.high == p.high && q.nextid == p.nextid
    decreases |ws|
  {
    if |ws| == 0 {
    } else {
      StopKeeps(p, ws[0]);
      StopAllKeeps(StopWorker(p, ws[0]), ws[1..]);
      assert (set w | w in ws) == {ws[0]} + (set w | w in ws[1..]);
    }
  }

  lemma {:induction false} ReapAllKeeps(p: Pool, ws: seq<Wid>)
    requires Valid(p)
    ensures var q := ReapAll(p, ws);
            && Valid(q) && q.queue == p.queue && q.worker.Keys == p.worker.Keys - (set w | w in ws)
            && Live(q) <= Live(p)
            && q.low == p.low && q.high == p.high
    decreases |ws|
  {
    if |ws| == 0 {
    } else {
      ReapKeeps(p, {}, ws[0]);
      ReapAllKeeps(Reap(p, ws[0]), ws[1..]);
      assert (set w | w in ws) == {ws[0]} + (set w | w in ws[1..]);
    }
  }

  // ----- requests ---------------------------------------------------------------------------

  /** How many workers may still be reaped for a request. */
  function Budget(tainted: bool): nat {
    if tainted then 1 else 2
  }

  /** Beside the jobs in `others`, the pool was given one request: it is answered, or held exactly once, by
      a busy worker or the queue; nothing else changes hands; and every worker reaped for it uses up part
      of its budget. */
  ghost predicate Handled(p: Pool, others: multiset<Job>, r: Request, tainted: bool, e: Effect) {
    && Valid(e.pool)
    && Live(e.pool) <= Live(p)
    && e.blamed <= Budget(tainted)
    && (if e.answered then Held(e.pool) == others
        else e.blamed < Budget(tainted) && Held(e.pool) == others + multiset{Job(r, tainted || e.blamed > 0)})
    && e.pool.low == p.low && e.pool.high == p.high
  }

  lemma PopKeeps(p: Pool, w: Wid)
    requires Valid(p) && w in p.available
    ensures ValidWith(p.(available := p.available - {w}), {w}) && w !in p.active && w !in p.stopping
  {
  }

  lemma EnqueueHeld(p: Pool, j: Job)
    requires Valid(p)
    ensures var q := p.(queue := p.queue + [j]);
            Valid(q) && Live(q) == Live(p) && Held(q) == Held(p) + multiset{j}
  {
  }

  /** The worker that takes a deferred request was idle, so it was not stopping. */
  lemma AssignHeld(p: Pool, w: Wid, j: Job)
    requires Valid(p) && w in p.available
    ensures var q := p.(available := p.available - {w}, active := p.active[w := j]);
            Valid(q) && Live(q) == Live(p) && Held(q) == Held(p) + multiset{j} && w !in q.stopping
  {
    JobsWith(p.active, w, j);
    AssignIsValid(p, w, j);
    hide Jobs, Valid;
  }

  lemma AssignIsValid(p: Pool, w: Wid, j: Job)
    requires Valid(p) && w in p.available
    ensures w !in p.active && w !in p.stopping
    ensures Valid(p.(available := p.available - {w}, active := p.active[w := j]))
  {
  }

  lemma {:induction false} AskKeeps(p: Pool, r: Request, tainted: bool, first: Attempt, second: Attempt)
    requires Valid(p)
    ensures Handled(p, Held(p), r, tainted, Ask(p, r, tainted, first, second))
    decreases !tainted
  {
    hide Valid, ValidWith, Live, Jobs, Reap, Release;
    if p.available == {} {
      EnqueueHeld(p, Job(r, tainted));
    } else {
      var w := Popped(p.available, first.pick);
      var q := p.(available := p.available - {w});
      PopKeeps(p, w);
      assert Live(q) == Live(p) && Held(q) == Held(p) by {
        LiveAndHeld(p, q);
      }
      match first.verdict {
        case Decided =>
          ReleaseKeeps(q, w);
        case Deferred =>
          AssignHeld(p, w, Job(r, tainted));
        case Failed =>
          ReapFree(q, w);
          if !tainted {
            AskKeeps(Reap(q, w), r, true, second, second);
          }
      }
    }
  }

  lemma LiveAndHeld(p: Pool, q: Pool)
    requires p.worker == q.worker && p.stopping == q.stopping && p.active == q.active && p.queue == q.queue
    ensures Live(q) == Live(p) && Held(q) == Held(p)
  {
  }

  /** Reaping a held worker loses no request. */
  lemma ReapFree(p: Pool, w: Wid)
    requires ValidWith(p, {w})
    ensures var q := Reap(p, w);
            Valid(q) && Live(q) <= Live(p) && Held(q) == Held(p) && q.low == p.low && q.high == p.high
  {
    ReapKeeps(p, {w}, w);
    assert p.active - {w} == p.active;
    assert {w} - {w} == {};
  }

  lemma DequeueKeeps(p: Pool)
    requires Valid(p) && p.queue != []
    ensures var q := p.(queue := p.queue[1..]);
            Valid(q) && Live(q) == Live(p) &&
            p.queue[0] in Held(p) && Held(q) == Held(p) - multiset{p.queue[0]}
  {
    assert p.queue == [p.queue[0]] + p.queue[1..];
  }

  lemma DrainKeeps(p: Pool, first: Attempt, second: Attempt)
    requires Valid(p)
    ensures var e := Drain(p, first, second);
            if p.available == {} || p.queue == [] then e == Effect(p, false, 0)
            else p.queue[0] in Held(p) &&
                 Handled(p, Held(p) - multiset{p.queue[0]}, p.queue[0].request, p.queue[0].tainted, e)
  {
    if p.available != {} && p.queue != [] {
      DequeueKeeps(p);
      hide Valid, Live, Held, Ask, Handled;
      var q, job := p.(queue := p.queue[1..]), p.queue[0];
      AskKeeps(q, job.request, job.tainted, first, second);
      HandledSame(q, p, Held(q), job.request, job.tainted, Drain(p, first, second));
    }
  }

  lemma HandledSame(p: Pool, q: Pool, others: multiset<Job>, r: Request, tainted: bool, e: Effect)
    requires Handled(p, others, r, tainted, e)
    requires Live(p) == Live(q) && p.low == q.low && p.high == q.high
    ensures Handled(q, others, r, tainted, e)
  {
  }

  /** Taking the job from a busy worker. */
  lemma FinishKeeps(p: Pool, w: Wid)
    requires Valid(p) && w in p.active
    ensures var q := p.(active := p.active - {w});
            ValidWith(q, {w}) && Live(q) == Live(p) &&
            p.active[w] in Held(p) && Held(q) == Held(p) - multiset{p.active[w]}
  {
    FinishIsValid(p, w);
    hide ValidWith, Jobs;
    JobsWithout(p.active, w);
  }

  lemma FinishIsValid(p: Pool, w: Wid)
    requires Valid(p) && w in p.active
    ensures ValidWith(p.(active := p.active - {w}), {w})
  {
  }

  /** A child's output settles the job of its worker and no other. */
  lemma HearKeeps(p: Pool, h: Handle, ok: bool, first: Attempt, second: Attempt)
    requires Valid(p)
    ensures var e := Hear(p, h, ok, first, second);
            if h in p.processes && p.processes[h] in p.active then
              var job := p.active[p.processes[h]];
              job in Held(p) && Handled(p, Held(p) - multiset{job}, job.request, job.tainted, e)
            else
              && Valid(e.pool) && Live(e.pool) <= Live(p) && Held(e.pool) == Held(p)
              && !e.answered && e.blamed == 0
              && e.pool.low == p.low && e.pool.high == p.high
  {
    if h in p.processes {
      hide Valid, ValidWith, Handled, Live, Held, Release, Reap;
      var w := p.processes[h];
      if w in p.active {
        HearBusy(p, w, ok, first, second);
      } else {
        ReapReleased(p, w);
      }
    }
  }

  lemma HearBusy(p: Pool, w: Wid, ok: bool, first: Attempt, second: Attempt)
    requires Valid(p) && w in p.active
    ensures var job := p.active[w];
            job in Held(p) && Handled(p, Held(p) - multiset{job}, job.request, job.tainted, Settle(p, w, ok, first, second))
  {
    hide Valid, ValidWith, Live, Held, Release, Reap, Ask;
    var job := p.active[w];
    var q := p.(active := p.active - {w});
    FinishKeeps(p, w);
    ReleaseKeeps(q, w);
    HeldSame(q, Release(q, w));
    ReapReleased(Release(q, w), w);
    if !ok && !job.tainted {
      AskKeeps(Reap(Release(q, w), w), job.request, true, first, second);
    }
  }

  lemma HeldSame(p: Pool, q: Pool)
    requires p.active == q.active && p.queue == q.queue
    ensures Held(p) == Held(q)
  {
  }

  lemma ReapReleased(p: Pool, w: Wid)
    requires Valid(p) && w !in p.active
    ensures var q := Reap(p, w);
            Valid(q) && Live(q) <= Live(p) && Held(q) == Held(p) && q.low == p.low && q.high == p.high
  {
    ReapKeeps(p, {}, w);
    assert p.active - {w} == p.active;
  }
}

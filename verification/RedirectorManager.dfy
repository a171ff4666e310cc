/** The manager itself, with the fields the program updates in place.  Each method is tied to the function on
    pools that specifies it; what is proved of those functions holds of these methods. */
module RedirectorManagement {
  import opened Basics
  import opened Wrappers
  import P = RedirectorPool
  import opened RedirectorInvariants
  import opened RedirectorRuns
  import opened RedirectorOutcomes

  class RedirectorManager {
    var low: int
    var high: int
    var nextid: P.Wid
    var worker: map<P.Wid, P.Worker>
    var processes: map<P.Handle, P.Wid>
    var watched: set<P.Handle>
    var available: set<P.Wid>
    var active: map<P.Wid, P.Job>
    var stopping: set<P.Wid>
    var queue: seq<P.Job>

    function State(): P.Pool
      reads this
    {
      P.Pool(low, high, nextid, worker, processes, watched, available, active, stopping, queue)
    }

    constructor (low: int, high: int)
      ensures State() == Initial(low, high).pool
    {
      this.low, this.high, nextid := low, high, 1;
      worker, processes, watched := map[], map[], {};
      available, active, stopping, queue := {}, map[], {}, [];
    }

    method Spawn(born: P.Worker)
      modifies this
      ensures State() == P.Spawn(old(State()), born)
    {
      var wid := nextid;
      nextid := nextid + 1;
      worker := worker[wid := born];
      available := available + {wid};
      if born.process.Some? {
        processes := processes[born.process.value := wid];
        watched := watched + {born.process.value};
      }
    }

    method SpawnAll(born: seq<P.Worker>)
      modifies this
      ensures State() == P.SpawnAll(old(State()), born)
    {
      var i := 0;
      while i < |born|
        invariant 0 <= i <= |born|
        invariant P.SpawnAll(State(), born[i..]) == P.SpawnAll(old(State()), born)
      {
        assert born[i..][1..] == born[i + 1..];
        Spawn(born[i]);
        i := i + 1;
      }
    }

    method Reap(w: P.Wid)
      modifies this
      ensures State() == P.Reap(old(State()), w)
    {
      if w !in worker {
        assert State() == P.Reap(old(State()), w);
        return;
      }
      active := active - {w};
      stopping := stopping - {w};
      available := available - {w};
      var process := worker[w].process;
      worker := worker - {w};
      if process.Some? {
        watched := watched - {process.value};
        processes := processes - {process.value};
      }
    }

    method StopWorker(w: P.Wid)
      modifies this
      ensures State() == P.StopWorker(old(State()), w)
    {
      if w !in active {
        Reap(w);
      } else {
        stopping := stopping + {w};
      }
    }

    /** The names in a set, in the order the program's iteration happens to produce. */
    method Listing(s: set<P.Wid>) returns (order: seq<P.Wid>)
      ensures s == (set w | w in order)
    {
      order := [];
      var rest := s;
      while rest != {}
        invariant rest <= s
        invariant forall v :: v in s <==> v in rest || v in order
        decreases rest
      {
        var w :| w in rest;
        rest := rest - {w};
        order := order + [w];
      }
    }

    method Respawn(born: seq<P.Worker>) returns (order: seq<P.Wid>)
      requires |born| == P.RespawnCount(State())
      modifies this
      ensures Lists(order, old(State()))
      ensures State() == P.SpawnAll(P.StopAll(old(State()), order), born)
    {
      order := Listing(worker.Keys);
      var i := 0;
      while i < |order|
        invariant 0 <= i <= |order|
        invariant P.StopAll(State(), order[i..]) == P.StopAll(old(State()), order)
      {
        assert order[i..][1..] == order[i + 1..];
        StopWorker(order[i]);
        i := i + 1;
      }
      SpawnAll(born);
    }

    method KillWorkers() returns (order: seq<P.Wid>)
      modifies this
      ensures Lists(order, old(State()))
      ensures State() == P.ReapAll(old(State()), order)
    {
      order := Listing(worker.Keys);
      var i := 0;
      while i < |order|
        invariant 0 <= i <= |order|
        invariant P.ReapAll(State(), order[i..]) == P.ReapAll(old(State()), order)
      {
        assert order[i..][1..] == order[i + 1..];
        Reap(order[i]);
        i := i + 1;
      }
    }

    // ----- sizes ----------------------------------------------------------------------------

    method Oldest(now: real) returns (oldest: Option<P.Wid>)
      ensures P.IsOldest(State(), now, oldest)
    {
      oldest := None;
      var past := now;
      var rest := worker.Keys;
      while rest != {}
        invariant rest <= worker.Keys
        invariant past <= now
        invariant oldest.None? ==> past == now
        invariant oldest.Some? ==> P.Eligible(State(), now, oldest.value) && worker[oldest.value].creation == past
        invariant forall v | v !in rest && P.Eligible(State(), now, v) :: past <= worker[v].creation && oldest.Some?
        decreases rest
      {
        var w :| w in rest;
        rest := rest - {w};
        if worker[w].creation < past && w !in stopping {
          past := worker[w].creation;
          oldest := Some(w);
        }
      }
    }

    method Deprovision(now: real) returns (look: P.Look)
      modifies this
      ensures P.IsOldest(old(State()), look.now, look.oldest) && look.now == now
      ensures State() == P.Deprovision(old(State()), look)
    {
      var oldest := Oldest(now);
      look := P.Look(now, oldest);
      if |queue| == 0 && |worker| > low && oldest.Some? {
        StopWorker(oldest.value);
      }
    }

    method Decrease(nows: seq<real>) returns (looks: seq<P.Look>)
      modifies this
      ensures |looks| == |nows| && forall i | 0 <= i < |nows| :: looks[i].now == nows[i]
      ensures LooksRight(old(State()), looks)
      ensures State() == P.DecreaseAll(old(State()), looks)
      decreases |nows|
    {
      looks := [];
      if |nows| > 0 {
        var oldest := Oldest(nows[0]);
        var look := P.Look(nows[0], oldest);
        if low < |worker| && oldest.Some? {
          StopWorker(oldest.value);
        }
        assert State() == P.Decrease(old(State()), look);
        var rest := Decrease(nows[1..]);
        looks := [look] + rest;
        assert looks[1..] == rest;
      }
    }

    method Increase(born: seq<P.Worker>)
      modifies this
      ensures State() == P.IncreaseAll(old(State()), born)
    {
      var i := 0;
      while i < |born|
        invariant 0 <= i <= |born|
        invariant P.IncreaseAll(State(), born[i..]) == P.IncreaseAll(old(State()), born)
      {
        assert born[i..][1..] == born[i + 1..];
        if |worker| < high {
          Spawn(born[i]);
        }
        i := i + 1;
      }
    }

    method Provision(born: seq<P.Worker>)
      requires |born| == P.ProvisionCount(State())
      modifies this
      ensures State() == P.SpawnAll(old(State()), born)
    {
      var size := |queue|;
      var workers := |worker|;
      var missing := Max(0, low - workers);
      if workers < low {
        SpawnAll(born[..missing]);
      }
      assert State() == P.SpawnAll(old(State()), born[..missing]);
      SpawnAllSplits(old(State()), born, missing);
      SpawnAllLimits(old(State()), born[..missing]);
      if size >= workers {
        if workers >= high {
          assert born[missing..] == [];
          return;
        }
        var more := Min(Max(1, Min(low, (high - low) / 4)), high - workers);
        assert |born[missing..]| == more;
        SpawnAll(born[missing..]);
      }
    }

    method IncreaseSpawnLimit(count: nat, born: seq<P.Worker>)
      requires |born| == count
      modifies this
      ensures State() == P.IncreaseAll(P.RaiseLimit(old(State()), count), born)
      ensures low == old(low) + count && high == if old(high) < low then low else old(high)
    {
      IncreaseAllLimits(P.RaiseLimit(State(), count), born);
      low := low + count;
      high := Max(low, high);
      Increase(born);
    }

    method DecreaseSpawnLimit(count: nat, nows: seq<real>) returns (looks: seq<P.Look>)
      requires |nows| == count
      modifies this
      ensures |looks| == count && LooksRight(P.LowerLimit(old(State()), count), looks)
      ensures State() == P.DecreaseAll(P.LowerLimit(old(State()), count), looks)
      ensures high == (if old(high) - count < 1 then 1 else old(high) - count)
      ensures low == if high < old(low) then high else old(low)
    {
      high := Max(1, high - count);
      low := Min(high, low);
      ghost var lowered := State();
      looks := Decrease(nows);
      DecreaseAllLimits(lowered, looks);
    }

    // ----- requests -------------------------------------------------------------------------

    /** Takes an idle worker, skipping names of workers that no longer exist. */
    method Acquire() returns (w: Option<P.Wid>)
      modifies this`available
      ensures available <= old(available)
      ensures w.None? ==> available == {}
      ensures w.Some? ==> w.value in old(available) && w.value in worker && w.value !in available
      ensures forall v | v in old(available) && v !in available && w != Some(v) :: v !in worker
    {
      w := None;
      while available != {}
        invariant available <= old(available)
        invariant forall v | v in old(available) && v !in available :: v !in worker
        decreases available
      {
        var identifier :| identifier in available;
        available := available - {identifier};
        if identifier in worker {
          return Some(identifier);
        }
      }
    }

    method Release(w: P.Wid)
      modifies this
      ensures State() == P.Release(old(State()), w)
    {
      if w in worker {
        if w in stopping {
          Reap(w);
        } else {
          available := available + {w};
        }
      }
    }

    /** `request`: `first` and `second` are what the first and, in a retry, the second worker make of it. */
    method Request(r: P.Request, tainted: bool, first: P.Verdict, second: P.Verdict)
      returns (answered: bool, ghost a: P.Attempt, ghost b: P.Attempt)
      requires Valid(State())
      modifies this
      ensures a.verdict == first && b.verdict == second
      ensures var e := P.Ask(old(State()), r, tainted, a, b);
              State() == e.pool && answered == e.answered
      ensures Placed(old(State()), r, tainted, first, second, State(), answered)
      decreases !tainted
    {
      hide Valid, ValidWith, Held, Live, Placed;
      a, b := P.Attempt(0, first), P.Attempt(0, second);
      ghost var p := State();
      AvailableExist(p);
      var w := Acquire();
      if w.None? {
        answered := false;
        queue := queue + [P.Job(r, tainted)];
      } else {
        assert available == p.available - {w.value};
        a := P.Attempt(w.value, first);
        PopKeeps(p, w.value);
        match first {
          case Failed =>
            ReapKeeps(State(), {w.value}, w.value);
            ReapFree(State(), w.value);
            Reap(w.value);
            if !tainted {
              ghost var c, d;
              ghost var q := State();
              answered, c, d := Request(r, true, second, second);
              b := c;
              AskOnce(q, r, c, d);
              AskSparesBusy(q, r, true, c, c);
            } else {
              answered := true;
            }
            Release(w.value);
          case Deferred =>
            active := active[w.value := P.Job(r, tainted)];
            answered := false;
          case Decided =>
            answered := true;
            Release(w.value);
        }
      }
      AskPlaces(p, r, tainted, a, b);
    }

    method DoQueue(first: P.Verdict, second: P.Verdict)
      returns (answered: bool, ghost a: P.Attempt, ghost b: P.Attempt)
      requires Valid(State())
      modifies this
      ensures a.verdict == first && b.verdict == second
      ensures var e := P.Drain(old(State()), a, b);
              State() == e.pool && answered == e.answered
      ensures if old(available) == {} || old(queue) == [] then State() == old(State()) && !answered
              else Placed(old(State()).(queue := old(queue)[1..]), old(queue)[0].request, old(queue)[0].tainted,
                          first, second, State(), answered)
    {
      hide Placed, P.Ask;
      ghost var p := State();
      if available != {} && |queue| != 0 {
        var job := queue[0];
        queue := queue[1..];
        DequeueKeeps(p);
        answered, a, b := Request(job.request, job.tainted, first, second);
      } else {
        answered, a, b := false, P.Attempt(0, first), P.Attempt(0, second);
      }
    }

    method GetDecision(pipe: P.Handle, ok: bool, first: P.Verdict, second: P.Verdict)
      returns (answered: bool, ghost a: P.Attempt, ghost b: P.Attempt)
      requires Valid(State())
      modifies this
      ensures a.verdict == first && b.verdict == second
      ensures var e := P.Hear(old(State()), pipe, ok, a, b);
              State() == e.pool && answered == e.answered
      ensures Heard(old(State()), pipe, ok, first, second, State(), answered)
    {
      hide Heard, Placed;
      ghost var p := State();
      a, b := P.Attempt(0, first), P.Attempt(0, second);
      answered := false;
      if pipe in processes {
        var w := processes[pipe];
        if w in active {
          var job := active[w];
          FinishKeeps(State(), w);
          active := active - {w};
          ReleaseKeeps(State(), w);
          Release(w);
          if ok {
            answered := true;
          } else {
            ReapReleased(State(), w);
            Reap(w);
            if !job.tainted {
              answered, a, b := Request(job.request, true, first, second);
            } else {
              answered := true;
            }
          }
        } else {
          Reap(w);
        }
      }
      HearPlaces(p, pipe, ok, a, b);
    }
  }

  lemma {:induction false} SpawnAllLimits(p: P.Pool, born: seq<P.Worker>)
    ensures P.SpawnAll(p, born).low == p.low && P.SpawnAll(p, born).high == p.high
    decreases |born|
  {
    if |born| == 0 {
    } else {
      SpawnAllLimits(P.Spawn(p, born[0]), born[1..]);
    }
  }

  lemma {:induction false} IncreaseAllLimits(p: P.Pool, born: seq<P.Worker>)
    ensures P.IncreaseAll(p, born).low == p.low && P.IncreaseAll(p, born).high == p.high
    decreases |born|
  {
    if |born| == 0 {
    } else {
      IncreaseAllLimits(P.Increase(p, born[0]), born[1..]);
    }
  }

  lemma {:induction false} DecreaseAllLimits(p: P.Pool, looks: seq<P.Look>)
    ensures P.DecreaseAll(p, looks).low == p.low && P.DecreaseAll(p, looks).high == p.high
    decreases |looks|
  {
    if |looks| == 0 {
    } else {
      DecreaseAllLimits(P.Decrease(p, looks[0]), looks[1..]);
    }
  }

  lemma AvailableExist(p: P.Pool)
    requires Valid(p)
    ensures forall v | v in p.available :: v in p.worker
  {
  }

  /** A tainted request makes one attempt. */
  lemma AskOnce(p: P.Pool, r: P.Request, a: P.Attempt, b: P.Attempt)
    ensures P.Ask(p, r, true, a, b) == P.Ask(p, r, true, a, a)
  {
  }

  lemma {:induction false} SpawnAllSplits(p: P.Pool, born: seq<P.Worker>, n: nat)
    requires n <= |born|
    ensures P.SpawnAll(P.SpawnAll(p, born[..n]), born[n..]) == P.SpawnAll(p, born)
    decreases n
  {
    if n == 0 {
      assert born[0..] == born;
    } else {
      assert born[..n][1..] == born[1..][..n - 1];
      assert born[n..] == born[1..][n - 1..];
      SpawnAllSplits(P.Spawn(p, born[0]), born[1..], n - 1);
    }
  }
}

/** Runs of the resolver: every lookup is answered at most once, and after a bounded number of timeouts and
    replies. */
module ResolverRuns {
  import opened Basics
  import opened Wrappers
  import opened ByteStrings
  import opened DnsNames
  import opened Resolver

  datatype Event =
    | Starting(client: Client, host: Host, cached: Option<Bytes>, now: real)
    | Receiving(reply: Reply, now: real)
    | Unparsable(now: real)
    | CleaningUp(now: real)

  /** The resolver and an account of the lookups given to it; the clock is the time of the last operation. */
  datatype Ledger = Ledger(resolver: Resolver, clock: real, started: multiset<Client>, answered: multiset<Client>)

  /** The clock does not run backwards, and a client has one lookup at a time. */
  predicate Enabled(l: Ledger, e: Event) {
    e.now >= l.clock && (e.Starting? ==> e.client !in l.resolver.clients)
  }

  function One(a: Option<(Client, Answer)>): multiset<Client> {
    if a.Some? then multiset{a.value.0} else multiset{}
  }

  /** A lookup for the empty name is refused without an answer and does not count as started. */
  function Next(c: Config, l: Ledger, e: Event): Ledger {
    match e
    case Starting(client, host, cached, now) =>
      var x := Start(c, l.resolver, client, host, cached, now);
      Ledger(x.resolver, now, l.started + (if host == [] then multiset{} else multiset{client}), l.answered + One(x.answer))
    case Receiving(reply, now) =>
      var x := Receive(l.resolver, reply, now);
      Ledger(x.resolver, now, l.started, l.answered + One(x.answer))
    case Unparsable(now) => l.(clock := now)
    case CleaningUp(now) =>
      var d := Cleanup(c, l.resolver, now);
      Ledger(d.resolver, now, l.started, l.answered + Told(d.answers))
  }

  /** The lookups started are those answered and those waiting. */
  ghost predicate InvL(c: Config, l: Ledger) {
    && Inv(c, l.resolver)
    && ClockOk(l.resolver, l.clock)
    && l.started == l.answered + multiset(l.resolver.clients.Keys)
  }

  lemma ReceiveCounts(c: Config, r: Resolver, m: Reply, now: real)
    requires Inv(c, r)
    ensures var x := Receive(r, m, now);
            multiset(r.clients.Keys) == multiset(x.resolver.clients.Keys) + One(x.answer)
  {
    hide Resolvable, Timed, Without;
    var q := Receive(r, m, now).resolver;
    if m.identifier in r.resolving {
      var k := r.resolving[m.identifier].client;
      if Receive(r, m, now).answer.Some? {
        assert r.clients.Keys == q.clients.Keys + {k};
      } else {
        assert r.clients.Keys == q.clients.Keys;
      }
    }
  }

  lemma ReceiveClock(c: Config, r: Resolver, m: Reply, now: real)
    requires Inv(c, r) && ClockOk(r, now)
    ensures ClockOk(Receive(r, m, now).resolver, now)
  {
    hide Resolvable, Matched, Timed, Without;
    if m.identifier in r.resolving {
      ForgetClock(Chase(r, m), m.identifier, now);
    }
  }

  lemma ForgetClock(r: Resolver, id: Id, now: real)
    requires id in r.resolving && ClockOk(r, now)
    ensures ClockOk(Forget(r, id), now)
  {
    var k := r.resolving[id].client;
    if k in r.clients && Entry(r.clients[k].since, k) in r.active {
      var i := RemoveEntryAt(r.active, Entry(r.clients[k].since, k));
      hide Without, IndexOf;
    }
  }

  lemma LaterClock(r: Resolver, clock: real, now: real)
    requires ClockOk(r, clock) && clock <= now
    ensures ClockOk(r, now)
  {
  }

  lemma StartClock(c: Config, r: Resolver, client: Client, host: Host, cached: Option<Bytes>, now: real)
    requires ClockOk(r, now)
    ensures ClockOk(Start(c, r, client, host, cached, now).resolver, now)
  {
    hide IsUnqualified, IsJumbo;
  }

  lemma StartCounts(c: Config, r: Resolver, client: Client, host: Host, cached: Option<Bytes>, now: real)
    requires client !in r.clients
    ensures var x := Start(c, r, client, host, cached, now);
            multiset(x.resolver.clients.Keys) + One(x.answer)
            == multiset(r.clients.Keys) + (if host == [] then multiset{} else multiset{client})
  {
    hide IsUnqualified, IsJumbo;
    var x := Start(c, r, client, host, cached, now);
    if x.answer.None? && host != [] {
      assert x.resolver.clients.Keys == r.clients.Keys + {client};
    }
  }

  lemma Exchange(started: multiset<Client>, answered: multiset<Client>, waiting: multiset<Client>,
                 told: multiset<Client>, more: multiset<Client>, waiting': multiset<Client>)
    requires started == answered + waiting && waiting' + told == waiting + more
    ensures started + more == answered + told + waiting'
  {
    forall k
      ensures (started + more)[k] == (answered + told + waiting')[k]
    {
      assert (waiting' + told)[k] == (waiting + more)[k];
    }
  }

  lemma NextKeeps(c: Config, l: Ledger, e: Event)
    requires InvL(c, l) && Enabled(l, e) && c.timeout > 0.0
    ensures InvL(c, Next(c, l, e))
  {
    hide Inv, ClockOk, Start, Receive, Cleanup;
    LaterClock(l.resolver, l.clock, e.now);
    match e {
      case Starting(client, host, cached, now) =>
        StartKeeps(c, l.resolver, client, host, cached, now);
        StartClock(c, l.resolver, client, host, cached, now);
        StartCounts(c, l.resolver, client, host, cached, now);
        var x := Start(c, l.resolver, client, host, cached, now);
        Exchange(l.started, l.answered, multiset(l.resolver.clients.Keys), One(x.answer),
                 if host == [] then multiset{} else multiset{client}, multiset(x.resolver.clients.Keys));
      case Receiving(reply, now) =>
        ReceiveKeeps(c, l.resolver, reply, now);
        ReceiveCounts(c, l.resolver, reply, now);
        ReceiveClock(c, l.resolver, reply, now);
      case Unparsable(now) =>
      case CleaningUp(now) =>
        CleanupKeeps(c, l.resolver, now);
    }
  }

  predicate EnabledAll(c: Config, l: Ledger, es: seq<Event>)
    decreases |es|
  {
    |es| == 0 || (Enabled(l, es[0]) && EnabledAll(c, Next(c, l, es[0]), es[1..]))
  }

  function Run(c: Config, l: Ledger, es: seq<Event>): Ledger
    decreases |es|
  {
    if |es| == 0 then l else Run(c, Next(c, l, es[0]), es[1..])
  }

  function Initial(clock: real): Ledger {
    Ledger(Resolver(1, map[], map[], [], map[]), clock, multiset{}, multiset{})
  }

  lemma {:induction false} RunKeeps(c: Config, l: Ledger, es: seq<Event>)
    requires InvL(c, l) && EnabledAll(c, l, es) && c.timeout > 0.0
    ensures InvL(c, Run(c, l, es))
    decreases |es|
  {
    hide InvL, Next, Enabled;
    if |es| == 0 {
    } else {
      NextKeeps(c, l, es[0]);
      RunKeeps(c, Next(c, l, es[0]), es[1..]);
    }
  }

  /** In every reachable state the three indexes are in step, and the lookups started are exactly those
      answered, once each, and those waiting. */
  lemma EveryRunKeeps(c: Config, clock: real, es: seq<Event>)
    requires EnabledAll(c, Initial(clock), es) && c.timeout > 0.0
    ensures InvL(c, Run(c, Initial(clock), es))
  {
    RunKeeps(c, Initial(clock), es);
  }

  // ----- bounded waiting ----------------------------------------------------------------------

  /** The operation concerned the client: its query was sent again, or another one was sent for it. */
  predicate Concerns(c: Config, l: Ledger, e: Event, k: Client) {
    var q := Next(c, l, e).resolver;
    k in l.resolver.clients && k in q.clients && q.clients[k] != l.resolver.clients[k]
  }

  /** A reply to the client's own query that names another host. */
  predicate OwnMismatch(l: Ledger, e: Event, k: Client) {
    && e.Receiving? && k in l.resolver.clients
    && e.reply.identifier == l.resolver.clients[k].identifier && Mismatch(l.resolver, e.reply)
  }

  /** While it waits, the client's potential pays for every operation that concerns it, but for its own mismatches. */
  lemma NextProgress(c: Config, l: Ledger, e: Event, k: Client)
    requires InvL(c, l) && Enabled(l, e) && c.timeout > 0.0 && !OwnMismatch(l, e, k)
    requires k in l.resolver.clients && k in Next(c, l, e).resolver.clients
    ensures Potential(c, Next(c, l, e).resolver, k) + (if Concerns(c, l, e, k) then 1 else 0)
            <= Potential(c, l.resolver, k)
  {
    hide Matched, Timed, ClockOk, Receive, Start, ExpireAll, Mismatch;
    var r := l.resolver;
    LaterClock(r, l.clock, e.now);
    match e {
      case Starting(client, host, cached, now) =>
        StartSpares(c, r, client, host, cached, now, k);
      case Unparsable(now) =>
      case Receiving(m, now) =>
        if r.clients[k].identifier == m.identifier {
          Awaited(c, r, k);
          if Receive(r, m, now).answer.None? {
            ReplyProgressIff(c, r, m, now);
          } else {
            AnsweredOnce(c, r, m, m, now, now);
            AnsweredClient(r, m, now);
          }
        } else {
          OtherReply(c, r, m, now, k);
        }
      case CleaningUp(now) =>
        var n := Due(r.active, now - c.timeout);
        var s := r.(active := r.active[n..]);
        assert r.active[..n] + r.active[n..] == r.active;
        MatchedSame(c, r, s);
        ExpireAllOnce(c, s, r.active[..n], now, k);
        RetryCosts(c, r, Cleanup(c, r, now).resolver, k);
    }
  }

  lemma Awaited(c: Config, r: Resolver, k: Client)
    requires Inv(c, r) && k in r.clients
    ensures r.clients[k].identifier in r.resolving && r.resolving[r.clients[k].identifier].client == k
  {
  }

  lemma AnsweredClient(r: Resolver, m: Reply, now: real)
    requires Receive(r, m, now).answer.Some?
    ensures m.identifier in r.resolving && Receive(r, m, now).answer.value.0 == r.resolving[m.identifier].client
  {
  }

  lemma StartSpares(c: Config, r: Resolver, client: Client, host: Host, cached: Option<Bytes>, now: real, k: Client)
    requires k in r.clients && k != client
    ensures var q := Start(c, r, client, host, cached, now).resolver;
            k in q.clients && q.clients[k] == r.clients[k] && Potential(c, q, k) == Potential(c, r, k)
  {
    hide IsUnqualified, IsJumbo;
  }

  lemma RetryCosts(c: Config, r: Resolver, q: Resolver, k: Client)
    requires k in r.clients && k in q.clients && q.chained == r.chained
    requires q.clients[k] == r.clients[k] ||
             (q.clients[k].identifier == r.clients[k].identifier && q.clients[k].attempt == r.clients[k].attempt + 1)
    ensures Potential(c, q, k) + (if q.clients[k] != r.clients[k] then 1 else 0) <= Potential(c, r, k)
  {
  }

  /** The client waits throughout the run. */
  predicate WaitsThrough(c: Config, l: Ledger, es: seq<Event>, k: Client)
    decreases |es|
  {
    k in l.resolver.clients && (|es| == 0 || WaitsThrough(c, Next(c, l, es[0]), es[1..], k))
  }

  /** How many operations of the run concern the client. */
  function Concerning(c: Config, l: Ledger, es: seq<Event>, k: Client): nat
    decreases |es|
  {
    if |es| == 0 then 0
    else (if Concerns(c, l, es[0], k) then 1 else 0) + Concerning(c, Next(c, l, es[0]), es[1..], k)
  }

  /** How many of them are mismatched replies to its own queries. */
  function Mismatches(c: Config, l: Ledger, es: seq<Event>, k: Client): nat
    decreases |es|
  {
    if |es| == 0 then 0
    else (if OwnMismatch(l, es[0], k) then 1 else 0) + Mismatches(c, Next(c, l, es[0]), es[1..], k)
  }

  lemma {:induction false} PotentialPays(c: Config, l: Ledger, es: seq<Event>, k: Client)
    requires InvL(c, l) && EnabledAll(c, l, es) && c.timeout > 0.0 && WaitsThrough(c, l, es, k)
    ensures Concerning(c, l, es, k) <= Potential(c, l.resolver, k) + Allowance(c, Mismatches(c, l, es, k))
    decreases |es|
  {
    hide InvL, Next, Enabled, OwnMismatch, Potential, Concerns, Allowance, Attempts;
    PotentialInRange(c, l, k);
    OneMore(c, 0);
    if |es| == 0 {
    } else {
      var (next, rest) := (Next(c, l, es[0]), es[1..]);
      NextKeeps(c, l, es[0]);
      PotentialPays(c, next, rest, k);
      StillWaits(c, next, rest, k);
      if OwnMismatch(l, es[0], k) {
        PotentialInRange(c, next, k);
        OneMore(c, Mismatches(c, next, rest, k));
      } else {
        NextProgress(c, l, es[0], k);
      }
    }
  }

  /** What `n` lookups with chains of full length may cost. */
  function Allowance(c: Config, n: nat): nat {
    11 * Attempts(c) * n
  }

  lemma OneMore(c: Config, n: nat)
    ensures Allowance(c, 0) == 0 && Allowance(c, 1 + n) == 11 * Attempts(c) + Allowance(c, n)
  {
    hide Attempts;
  }

  lemma PotentialInRange(c: Config, l: Ledger, k: Client)
    requires InvL(c, l) && k in l.resolver.clients
    ensures 0 <= Potential(c, l.resolver, k) <= 11 * Attempts(c) - 1
  {
    hide Inv, Potential, Attempts;
    PotentialBounds(c, l.resolver, k);
  }

  /** In every run through which a client waits, whatever happens to others: fewer of its timeouts, follow-ups and
      mismatches go by than 11 times the configured number of attempts, for each mismatched reply to its own
      queries and once more. */
  lemma EveryLookupIsBounded(c: Config, l: Ledger, es: seq<Event>, k: Client)
    requires InvL(c, l) && EnabledAll(c, l, es) && c.timeout > 0.0 && WaitsThrough(c, l, es, k)
    ensures Concerning(c, l, es, k) < Allowance(c, 1 + Mismatches(c, l, es, k))
  {
    hide InvL, WaitsThrough, Concerning, EnabledAll, Mismatches, Potential, Allowance, Attempts;
    PotentialPays(c, l, es, k);
    StillWaits(c, l, es, k);
    PotentialInRange(c, l, k);
    OneMore(c, Mismatches(c, l, es, k));
  }

  lemma StillWaits(c: Config, l: Ledger, es: seq<Event>, k: Client)
    requires WaitsThrough(c, l, es, k)
    ensures k in l.resolver.clients
  {
  }

  // ----- waiting for ever -----------------------------------------------------------------------

  /** A reply to the client's query that names another host and is of no use, a second later. */
  function Wrong(l: Ledger, k: Client): Event
    requires k in l.resolver.clients && l.resolver.clients[k].identifier in l.resolver.resolving
  {
    var id := l.resolver.clients[k].identifier;
    Receiving(Reply(id, l.resolver.resolving[id].hostname + [0], None, None), l.clock + 1.0)
  }

  lemma WrongConcerns(c: Config, l: Ledger, k: Client)
    requires InvL(c, l) && k in l.resolver.clients
    ensures l.resolver.clients[k].identifier in l.resolver.resolving
    ensures var e := Wrong(l, k);
            && Enabled(l, e) && OwnMismatch(l, e, k)
            && k in Next(c, l, e).resolver.clients && Concerns(c, l, e, k)
  {
    hide Resolvable, Without, Timed;
    var r := l.resolver;
    Awaited(c, r, k);
    SinceIsPast(c, l, k);
    assert |Wrong(l, k).reply.forhost| == |r.resolving[r.clients[k].identifier].hostname| + 1;
  }

  lemma SinceIsPast(c: Config, l: Ledger, k: Client)
    requires InvL(c, l) && k in l.resolver.clients
    ensures l.resolver.clients[k].since <= l.clock
  {
    hide Matched;
    AllListed(l.resolver);
  }

  lemma {:induction false} WaitsOn(c: Config, l: Ledger, k: Client, n: nat) returns (es: seq<Event>)
    requires InvL(c, l) && k in l.resolver.clients && c.timeout > 0.0
    ensures |es| == n && EnabledAll(c, l, es) && WaitsThrough(c, l, es, k)
    ensures Concerning(c, l, es, k) == Mismatches(c, l, es, k) == n
    decreases n
  {
    hide InvL, Next, Enabled, OwnMismatch, Concerns, Wrong;
    if n == 0 {
      es := [];
    } else {
      WrongConcerns(c, l, k);
      var e := Wrong(l, k);
      NextKeeps(c, l, e);
      var rest := WaitsOn(c, Next(c, l, e), k, n - 1);
      es := [e] + rest;
      assert es[1..] == rest;
    }
  }

  /** There is no bound without counting mismatches: for every n, a run in which a client's lookup is started and the
      client then waits through n mismatched replies, each of which concerns it. */
  lemma MismatchesNeverEnd(c: Config, k: Client, host: Host, n: nat) returns (es: seq<Event>)
    requires Resolvable(c, host) && c.timeout > 0.0
    ensures |es| == n + 1 && EnabledAll(c, Initial(0.0), es) && es[0].Starting? && es[0].client == k
    ensures var l := Next(c, Initial(0.0), es[0]);
            && WaitsThrough(c, l, es[1..], k)
            && Concerning(c, l, es[1..], k) == Mismatches(c, l, es[1..], k) == n
  {
    hide EnabledAll, WaitsThrough, Concerning, Mismatches, Resolvable;
    var e := Starting(k, host, None, 0.0);
    InitialIsFine(c);
    NextKeeps(c, Initial(0.0), e);
    StartWaits(c, k, host);
    var rest := WaitsOn(c, Next(c, Initial(0.0), e), k, n);
    es := [e] + rest;
    assert es[1..] == rest;
    FirstEnabled(c, e, rest);
  }

  lemma InitialIsFine(c: Config)
    ensures InvL(c, Initial(0.0))
  {
  }

  lemma StartWaits(c: Config, k: Client, host: Host)
    requires Resolvable(c, host)
    ensures k in Next(c, Initial(0.0), Starting(k, host, None, 0.0)).resolver.clients
  {
    hide IsUnqualified, IsJumbo;
  }

  lemma FirstEnabled(c: Config, e: Event, rest: seq<Event>)
    requires Enabled(Initial(0.0), e) && EnabledAll(c, Next(c, Initial(0.0), e), rest)
    ensures EnabledAll(c, Initial(0.0), [e] + rest)
  {
    assert ([e] + rest)[1..] == rest;
  }
}

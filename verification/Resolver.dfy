/** The UDP side of `ResolverManager`: which client waits for which DNS query, since when and for which attempt.
    Identifiers are never reused, each operation reads the clock once, and replies are complete. */
module Resolver {
  import opened Basics
  import opened Wrappers
  import opened ByteStrings
  import opened DnsNames

  type Client = nat
  type Id = nat
  type Host = Bytes

  const MAX_CHAIN: nat := 10

  datatype Config = Config(retries: int, timeout: real, fqdn: bool)

  /** What a query is for: the name the client asked for, and the name now looked up for it. */
  datatype Lookup = Lookup(client: Client, original: Host, hostname: Host)

  /** What a client waits for. */
  datatype Pending = Pending(identifier: Id, since: real, attempt: nat)

  datatype Entry = Entry(time: real, client: Client)

  datatype Resolver = Resolver(
    nextid: Id,
    clients: map<Client, Pending>,
    resolving: map<Id, Lookup>,
    active: seq<Entry>,
    chained: map<Id, nat>)

  /** What a client is told in the end; or nothing yet. */
  datatype Answer = Found(ip: Bytes) | NotFound | Unqualified | TimedOut

  /** An operation that concerns at most one client. */
  datatype Result = Result(resolver: Resolver, answer: Option<(Client, Answer)>)

  // ----- starting ---------------------------------------------------------------------------

  predicate IsUnqualified(c: Config, host: Host) {
    c.fqdn && FindDot(host) == |host|
  }

  /** A label over 255 bytes. */
  predicate IsJumbo(host: Host) {
    exists p | p in Split(host) :: |p| > 255
  }

  predicate Resolvable(c: Config, host: Host) {
    host != [] && !IsUnqualified(c, host) && !IsJumbo(host)
  }

  function ChainCount(r: Resolver, id: Id): nat {
    if id in r.chained then r.chained[id] else 0
  }

  /** Recording that a query was sent for a client. */
  function Send(r: Resolver, id: Id, l: Lookup, now: real, attempt: nat): Resolver {
    r.(resolving := r.resolving[id := l],
       clients := r.clients[l.client := Pending(id, now, attempt)],
       active := r.active + [Entry(now, l.client)])
  }

  /** `startResolving` for a new decision; `cached` is what the cache knows of the host. */
  function Start(c: Config, r: Resolver, client: Client, host: Host, cached: Option<Bytes>, now: real): Result {
    if host == [] then Result(r, None)
    else if cached.Some? then Result(r, Some((client, Found(cached.value))))
    else if IsUnqualified(c, host) then Result(r, Some((client, Unqualified)))
    else if IsJumbo(host) then Result(r, Some((client, NotFound)))
    else Result(Send(r.(nextid := r.nextid + 1), r.nextid, Lookup(client, host, host), now, 1), None)
  }

  // ----- replies ----------------------------------------------------------------------------

  /** A reply: its identifier and question, the address found in it, if any, and the name the resolver would
      have to look up next, if any. */
  datatype Reply = Reply(identifier: Id, forhost: Host, value: Option<Bytes>, follow: Option<Host>)

  /** Whether the worker sends another query because of this reply (at most ten in a row). */
  predicate Follows(r: Resolver, m: Reply) {
    m.follow.Some? && ChainCount(r, m.identifier) < MAX_CHAIN
  }

  /** The worker's own bookkeeping, done even for replies nobody waits for. */
  function Chase(r: Resolver, m: Reply): Resolver {
    if Follows(r, m) then
      r.(nextid := r.nextid + 1,
         chained := (r.chained - {m.identifier})[r.nextid := ChainCount(r, m.identifier) + 1])
    else r.(chained := r.chained - {m.identifier})
  }

  /** Forgetting what a reply answers. */
  function Forget(r: Resolver, id: Id): Resolver
    requires id in r.resolving
  {
    var client := r.resolving[id].client;
    r.(resolving := r.resolving - {id},
       clients := r.clients - {client},
       active := if client in r.clients then Without(r.active, Entry(r.clients[client].since, client)) else r.active)
  }

  /** `getResponse`. */
  function Receive(r: Resolver, m: Reply, now: real): Result {
    var chased := Chase(r, m);
    if m.identifier !in r.resolving then Result(chased, None)
    else
      var l := r.resolving[m.identifier];
      var q := Forget(chased, m.identifier);
      if Follows(r, m) then Result(Send(q, r.nextid, l.(hostname := m.follow.value), now, 1), None)
      else if m.forhost != l.hostname then
        Result(Send(q, m.identifier, l, now, if l.client in r.clients then r.clients[l.client].attempt else 1), None)
      else if m.value.Some? then Result(q, Some((l.client, Found(m.value.value))))
      else Result(q, Some((l.client, NotFound)))
  }

  // ----- timeouts ---------------------------------------------------------------------------

  /** What `cleanup` does about one entry that is due: the client's query is sent again, under the same
      identifier and for the name asked for originally, or given up. */
  function Expire(c: Config, r: Resolver, e: Entry, now: real): Result {
    if e.client !in r.clients then Result(r, None)
    else
      var p := r.clients[e.client];
      var q := TakenOut(r, e.client);
      if p.identifier !in r.resolving then Result(q, None)
      else
        var l := r.resolving[p.identifier];
        if p.attempt < c.retries then
          Result(if Resolvable(c, l.original)
                 then Send(q, p.identifier, Lookup(l.client, l.original, l.original), now, p.attempt + 1) else q, None)
        else Result(q, Some((l.client, TimedOut)))
  }

  /** A client and its query forgotten. */
  function TakenOut(r: Resolver, k: Client): Resolver
    requires k in r.clients
  {
    r.(clients := r.clients - {k}, resolving := r.resolving - {r.clients[k].identifier})
  }

  datatype Cleaned = Cleaned(resolver: Resolver, answers: seq<(Client, Answer)>)

  /** The loop of `cleanup` over the entries due, oldest first. */
  function ExpireAll(c: Config, r: Resolver, due: seq<Entry>, now: real): Cleaned
    decreases |due|
  {
    if |due| == 0 then Cleaned(r, [])
    else
      var one := Expire(c, r, due[0], now);
      var rest := ExpireAll(c, one.resolver, due[1..], now);
      Cleaned(rest.resolver, (if one.answer.Some? then [one.answer.value] else []) + rest.answers)
  }

  /** How many entries, from the front, are not younger than the cutoff. */
  function Due(active: seq<Entry>, cutoff: real): (n: nat)
    ensures n <= |active|
    ensures forall i | 0 <= i < n :: active[i].time <= cutoff
    ensures n < |active| ==> active[n].time > cutoff
  {
    if |active| == 0 || active[0].time > cutoff then 0 else 1 + Due(active[1..], cutoff)
  }

  /** `cleanup`: the entries due are taken out, and what is sent again is entered anew. */
  function Cleanup(c: Config, r: Resolver, now: real): Cleaned {
    var n := Due(r.active, now - c.timeout);
    ExpireAll(c, r.(active := r.active[n..]), r.active[..n], now)
  }

  // ----- the invariant ----------------------------------------------------------------------

  /** The waiting clients are listed once each, by the time they started waiting. */
  ghost predicate Timed(clients: map<Client, Pending>, active: seq<Entry>) {
    && (forall i | 0 <= i < |active| :: active[i].client in clients && clients[active[i].client].since == active[i].time)
    && (forall i, j | 0 <= i < j < |active| :: active[i].client != active[j].client)
    && (forall i, j | 0 <= i < j < |active| :: active[i].time <= active[j].time)
    && (forall k | k in clients :: Entry(clients[k].since, k) in active)
  }

  /** Clients and queries correspond one to one; every query is for a name that can be looked up; identifiers
      are old; and no chain of lookups is longer than ten. */
  ghost predicate Matched(c: Config, r: Resolver) {
    && (forall k | k in r.clients :: r.clients[k].identifier in r.resolving &&
          r.resolving[r.clients[k].identifier].client == k && 1 <= r.clients[k].attempt <= Attempts(c))
    && (forall id | id in r.resolving :: id < r.nextid && Resolvable(c, r.resolving[id].original) &&
          r.resolving[id].client in r.clients && r.clients[r.resolving[id].client].identifier == id)
    && (forall id | id in r.chained :: id < r.nextid && r.chained[id] <= MAX_CHAIN)
  }

  /** At least one attempt is made. */
  function Attempts(c: Config): nat {
    if c.retries < 1 then 1 else c.retries
  }

  ghost predicate Inv(c: Config, r: Resolver) {
    Matched(c, r) && Timed(r.clients, r.active)
  }

  /** The clock is not behind any entry. */
  predicate ClockOk(r: Resolver, now: real) {
    forall i | 0 <= i < |r.active| :: r.active[i].time <= now
  }

  lemma TimedAppend(clients: map<Client, Pending>, active: seq<Entry>, k: Client, p: Pending)
    requires Timed(clients, active) && k !in clients
    requires forall i | 0 <= i < |active| :: active[i].time <= p.since
    ensures Timed(clients[k := p], active + [Entry(p.since, k)])
  {
    var more := active + [Entry(p.since, k)];
    assert more[|active|] == Entry(p.since, k);
    var after := clients[k := p];
    forall x | x in after
      ensures Entry(after[x].since, x) in more
    {
      if x != k {
        assert Entry(clients[x].since, x) in active;
      }
    }
  }

  lemma RemoveEntryAt(active: seq<Entry>, e: Entry) returns (i: nat)
    requires e in active
    ensures i < |active| && active[i] == e && Without(active, e) == active[..i] + active[i + 1..]
  {
    i := IndexOf(active, e);
  }

  lemma TimedRemove(clients: map<Client, Pending>, active: seq<Entry>, k: Client)
    requires Timed(clients, active) && k in clients
    ensures var less := Without(active, Entry(clients[k].since, k));
            && Timed(clients - {k}, less)
            && forall x | x in less :: x in active
  {
    var i := RemoveEntryAt(active, Entry(clients[k].since, k));
    hide Without, IndexOf;
    TimedWithout(clients, active, i);
    assert clients - {active[i].client} == clients - {k};
  }

  lemma TimedWithout(clients: map<Client, Pending>, active: seq<Entry>, i: nat)
    requires Timed(clients, active) && i < |active|
    ensures Timed(clients - {active[i].client}, active[..i] + active[i + 1..])
  {
    var less := active[..i] + active[i + 1..];
    assert forall j | 0 <= j < |less| :: less[j] == active[if j < i then j else j + 1];
    var after := clients - {active[i].client};
    forall x | x in after
      ensures Entry(after[x].since, x) in less
    {
      var j :| 0 <= j < |active| && active[j] == Entry(clients[x].since, x);
      assert less[if j < i then j else j - 1] == active[j];
    }
  }

  lemma TimedHead(clients: map<Client, Pending>, active: seq<Entry>)
    requires Timed(clients, active) && |active| > 0
    ensures active[0].client in clients && Timed(clients - {active[0].client}, active[1..])
  {
    var k := active[0].client;
    forall x | x in clients - {k}
      ensures Entry(clients[x].since, x) in active[1..]
    {
      assert Entry(clients[x].since, x) in active;
    }
  }

  // ----- every operation keeps it -------------------------------------------------------------

  lemma SendMatched(c: Config, r: Resolver, id: Id, l: Lookup, now: real, attempt: nat)
    requires Matched(c, r) && l.client !in r.clients && id !in r.resolving && id < r.nextid
    requires Resolvable(c, l.original) && 1 <= attempt <= Attempts(c)
    ensures Matched(c, Send(r, id, l, now, attempt))
  {
    hide Resolvable;
  }

  lemma SendKeeps(c: Config, r: Resolver, id: Id, l: Lookup, now: real, attempt: nat)
    requires Inv(c, r) && ClockOk(r, now) && l.client !in r.clients && id !in r.resolving && id < r.nextid
    requires Resolvable(c, l.original) && 1 <= attempt <= Attempts(c)
    ensures var q := Send(r, id, l, now, attempt);
            Inv(c, q) && ClockOk(q, now)
  {
    SendMatched(c, r, id, l, now, attempt);
    TimedAppend(r.clients, r.active, l.client, Pending(id, now, attempt));
    hide Timed, Matched;
  }

  lemma ForgetKeeps(c: Config, r: Resolver, id: Id)
    requires Inv(c, r) && id in r.resolving
    ensures var q := Forget(r, id);
            && Inv(c, q) && id !in q.resolving && r.resolving[id].client !in q.clients
            && q.clients == r.clients - {r.resolving[id].client}
            && forall x | x in q.active :: x in r.active
  {
    hide Resolvable, Without;
    TimedRemove(r.clients, r.active, r.resolving[id].client);
    hide Timed;
  }

  lemma StartKeeps(c: Config, r: Resolver, client: Client, host: Host, cached: Option<Bytes>, now: real)
    requires Inv(c, r) && ClockOk(r, now) && client !in r.clients
    ensures Inv(c, Start(c, r, client, host, cached, now).resolver)
  {
    hide Timed, IsUnqualified, IsJumbo;
    if Resolvable(c, host) && cached.None? {
      SendKeeps(c, r.(nextid := r.nextid + 1), r.nextid, Lookup(client, host, host), now, 1);
    }
  }

  lemma ChaseKeeps(c: Config, r: Resolver, m: Reply)
    requires Inv(c, r)
    ensures Inv(c, Chase(r, m))
  {
    hide Timed, Resolvable;
  }

  lemma ReceiveKeeps(c: Config, r: Resolver, m: Reply, now: real)
    requires Inv(c, r) && ClockOk(r, now)
    ensures Inv(c, Receive(r, m, now).resolver)
  {
    ChaseKeeps(c, r, m);
    if m.identifier in r.resolving {
      var chased := Chase(r, m);
      var q := Forget(chased, m.identifier);
      ForgetKeeps(c, chased, m.identifier);
      ClockStays(chased, q, now);
      var l := r.resolving[m.identifier];
      assert Resolvable(c, l.original) && l.client in r.clients && 1 <= r.clients[l.client].attempt <= Attempts(c);
      assert m.identifier < r.nextid && r.nextid !in q.resolving;
      hide Timed, Matched, Resolvable, Forget;
      if Follows(r, m) {
        SendKeeps(c, q, r.nextid, l.(hostname := m.follow.value), now, 1);
      } else if m.forhost != l.hostname {
        SendKeeps(c, q, m.identifier, l, now, r.clients[l.client].attempt);
      }
    }
  }

  lemma ClockStays(r: Resolver, q: Resolver, now: real)
    requires ClockOk(r, now) && forall x | x in q.active :: x in r.active
    ensures ClockOk(q, now)
  {
    forall i | 0 <= i < |q.active|
      ensures q.active[i].time <= now
    {
      assert q.active[i] in q.active;
    }
  }

  // ----- timeouts keep it too -----------------------------------------------------------------

  /** The invariant while the entries in `due` were taken out and not yet dealt with. */
  ghost predicate InvWith(c: Config, r: Resolver, due: seq<Entry>) {
    Matched(c, r) && Timed(r.clients, due + r.active)
  }

  /** Taking a client and its query out. */
  lemma DropMatched(c: Config, r: Resolver, k: Client)
    requires Matched(c, r) && k in r.clients
    ensures Matched(c, TakenOut(r, k))
  {
    hide Resolvable;
  }

  lemma ClientFacts(c: Config, r: Resolver, k: Client)
    requires Matched(c, r) && k in r.clients
    ensures var p := r.clients[k];
            && p.identifier in r.resolving && p.identifier < r.nextid && 1 <= p.attempt <= Attempts(c)
            && r.resolving[p.identifier].client == k && Resolvable(c, r.resolving[p.identifier].original)
  {
    hide Resolvable;
  }

  lemma ExpireShape(c: Config, r: Resolver, e: Entry, now: real)
    requires Matched(c, r) && e.client in r.clients
    ensures var p := r.clients[e.client];
            && p.identifier in r.resolving
            && var again := Lookup(e.client, r.resolving[p.identifier].original, r.resolving[p.identifier].original);
            Expire(c, r, e, now) ==
              if p.attempt < c.retries then Result(Send(TakenOut(r, e.client), p.identifier, again, now, p.attempt + 1), None)
              else Result(TakenOut(r, e.client), Some((e.client, TimedOut)))
  {
    hide Resolvable, Matched, TakenOut, Send;
    ClientFacts(c, r, e.client);
    var p := r.clients[e.client];
    var l := r.resolving[p.identifier];
    assert l.client == e.client;
    assert Resolvable(c, l.original);
    if p.attempt < c.retries {
      assert Expire(c, r, e, now) == Result(Send(TakenOut(r, e.client), p.identifier, Lookup(l.client, l.original, l.original), now, p.attempt + 1), None);
    }
  }

  lemma ExpireEffect(c: Config, r: Resolver, e: Entry, now: real)
    requires Matched(c, r) && e.client in r.clients
    ensures Expired(c, r, e, Expire(c, r, e, now))
  {
    hide Matched, Expire;
    ExpireShape(c, r, e, now);
  }

  lemma ExpireMatched(c: Config, r: Resolver, e: Entry, now: real)
    requires Matched(c, r) && e.client in r.clients
    ensures Matched(c, Expire(c, r, e, now).resolver)
  {
    hide Matched, Expire, Resolvable, Send;
    ClientFacts(c, r, e.client);
    ExpireShape(c, r, e, now);
    DropMatched(c, r, e.client);
    var p := r.clients[e.client];
    if p.attempt < c.retries {
      var l := r.resolving[p.identifier];
      SendMatched(c, TakenOut(r, e.client), p.identifier, Lookup(e.client, l.original, l.original), now, p.attempt + 1);
    }
  }

  lemma ExpireTimed(c: Config, r: Resolver, due: seq<Entry>, now: real)
    requires |due| > 0 && InvWith(c, r, due) && ClockOk(r.(active := due + r.active), now)
    ensures due[0].client in r.clients
    ensures var q := Expire(c, r, due[0], now).resolver;
            && Timed(q.clients, due[1..] + q.active)
            && q.active == (if due[0].client in q.clients then r.active + [Entry(now, due[0].client)] else r.active)
  {
    hide Matched, Timed, Resolvable;
    var e := due[0];
    var all := due + r.active;
    assert all[0] == e && all[1..] == due[1..] + r.active;
    TimedHead(r.clients, all);
    ExpireShape(c, r, e, now);
    hide Expire;
    var p := r.clients[e.client];
    if p.attempt < c.retries {
      AllBefore(due, r.active, now);
      hide ClockOk;
      TimedAppend(r.clients - {e.client}, due[1..] + r.active, e.client, Pending(p.identifier, now, p.attempt + 1));
      assert due[1..] + r.active + [Entry(now, e.client)] == due[1..] + (r.active + [Entry(now, e.client)]);
    }
  }

  lemma ExpireKeeps(c: Config, r: Resolver, due: seq<Entry>, now: real)
    requires |due| > 0 && InvWith(c, r, due) && ClockOk(r.(active := due + r.active), now)
    ensures var one := Expire(c, r, due[0], now);
            && InvWith(c, one.resolver, due[1..])
            && ClockOk(one.resolver.(active := due[1..] + one.resolver.active), now)
            && Expired(c, r, due[0], one)
            && one.resolver.active ==
               (if due[0].client in one.resolver.clients then r.active + [Entry(now, due[0].client)] else r.active)
  {
    hide Expire, Matched, Timed, ClockOk, Expired;
    ExpireTimed(c, r, due, now);
    ExpireEffect(c, r, due[0], now);
    ExpireMatched(c, r, due[0], now);
    ClockMoves(r, due, Expire(c, r, due[0], now).resolver, now);
  }

  lemma AllBefore(due: seq<Entry>, active: seq<Entry>, now: real)
    requires |due| > 0 && forall i | 0 <= i < |due + active| :: (due + active)[i].time <= now
    ensures forall i | 0 <= i < |due[1..] + active| :: (due[1..] + active)[i].time <= now
  {
    assert forall i | 0 <= i < |due[1..] + active| :: (due[1..] + active)[i] == (due + active)[i + 1];
  }

  lemma ClockMoves(r: Resolver, due: seq<Entry>, q: Resolver, now: real)
    requires |due| > 0 && ClockOk(r.(active := due + r.active), now)
    requires q.active == r.active || q.active == r.active + [Entry(now, due[0].client)]
    ensures ClockOk(q.(active := due[1..] + q.active), now)
  {
    AllBefore(due, r.active, now);
    assert due[1..] + (r.active + [Entry(now, due[0].client)]) == due[1..] + r.active + [Entry(now, due[0].client)];
  }

  /** What happens to the client of an entry that is due, and to no other: while there are attempts left its
      query is sent again under the same identifier; otherwise it is told, and forgotten. */
  ghost predicate Expired(c: Config, r: Resolver, e: Entry, one: Result) {
    e.client in r.clients &&
    var p := r.clients[e.client];
    var q := one.resolver;
    && q.chained == r.chained
    && (forall k | k in r.clients && k != e.client :: k in q.clients && q.clients[k] == r.clients[k])
    && (forall k | k in q.clients :: k in r.clients)
    && (if p.attempt < c.retries then
          one.answer.None? && e.client in q.clients && q.clients[e.client].identifier == p.identifier &&
          q.clients[e.client].attempt == p.attempt + 1
        else one.answer == Some((e.client, TimedOut)) && e.client !in q.clients)
  }

  /** The clients that were told something. */
  function Told(answers: seq<(Client, Answer)>): multiset<Client> {
    if |answers| == 0 then multiset{} else multiset{answers[0].0} + Told(answers[1..])
  }

  lemma {:induction false} ExpireAllKeeps(c: Config, r: Resolver, due: seq<Entry>, now: real)
    requires InvWith(c, r, due) && ClockOk(r.(active := due + r.active), now)
    ensures var d := ExpireAll(c, r, due, now);
            && Inv(c, d.resolver) && ClockOk(d.resolver, now)
            && (forall x | x in d.resolver.active :: x in r.active || x.time == now)
            && multiset(r.clients.Keys) == multiset(d.resolver.clients.Keys) + Told(d.answers)
    decreases |due|
  {
    hide Matched, Timed, ClockOk, Expire;
    if |due| == 0 {
      assert due + r.active == r.active;
    } else {
      var one := Expire(c, r, due[0], now);
      ExpireKeeps(c, r, due, now);
      ExpireAllKeeps(c, one.resolver, due[1..], now);
      ExpiredCounts(c, r, due[0], one);
      ToldOneMore(one.answer, ExpireAll(c, one.resolver, due[1..], now).answers);
    }
  }

  lemma ToldOneMore(first: Option<(Client, Answer)>, rest: seq<(Client, Answer)>)
    ensures Told((if first.Some? then [first.value] else []) + rest)
            == (if first.Some? then multiset{first.value.0} else multiset{}) + Told(rest)
  {
    if first.Some? {
      assert ([first.value] + rest)[1..] == rest;
    } else {
      assert [] + rest == rest;
    }
  }

  lemma ExpiredCounts(c: Config, r: Resolver, e: Entry, one: Result)
    requires Expired(c, r, e, one)
    ensures multiset(r.clients.Keys) == multiset(one.resolver.clients.Keys) +
                                        (if one.answer.Some? then multiset{one.answer.value.0} else multiset{})
  {
    if one.answer.Some? {
      assert r.clients.Keys == one.resolver.clients.Keys + {e.client};
    } else {
      assert r.clients.Keys == one.resolver.clients.Keys;
    }
  }

  /** After `cleanup` nothing older than the cutoff is waiting. */
  lemma CleanupKeeps(c: Config, r: Resolver, now: real)
    requires Inv(c, r) && ClockOk(r, now) && c.timeout > 0.0
    ensures var d := Cleanup(c, r, now);
            && Inv(c, d.resolver) && ClockOk(d.resolver, now)
            && (forall x | x in d.resolver.active :: x.time > now - c.timeout)
            && (forall k | k in d.resolver.clients :: d.resolver.clients[k].since > now - c.timeout)
            && multiset(r.clients.Keys) == multiset(d.resolver.clients.Keys) + Told(d.answers)
  {
    hide Matched, Timed, ExpireAll, ClockOk;
    var n := Due(r.active, now - c.timeout);
    var s := r.(active := r.active[n..]);
    assert r.active[..n] + r.active[n..] == r.active;
    MatchedSame(c, r, s);
    ExpireAllKeeps(c, s, r.active[..n], now);
    var d := Cleanup(c, r, now);
    forall x | x in d.resolver.active
      ensures x.time > now - c.timeout
    {
      if x in s.active {
        RestIsYoung(r.clients, r.active, n, now - c.timeout, x);
      }
    }
    AllListed(d.resolver);
  }

  lemma RestIsYoung(clients: map<Client, Pending>, active: seq<Entry>, n: nat, cutoff: real, x: Entry)
    requires Timed(clients, active) && n <= |active| && (n < |active| ==> active[n].time > cutoff) && x in active[n..]
    ensures x.time > cutoff
  {
    var i :| 0 <= i < |active[n..]| && active[n..][i] == x;
    assert active[n].time <= active[n + i].time;
  }

  lemma AllListed(r: Resolver)
    requires Timed(r.clients, r.active)
    ensures forall k | k in r.clients :: Entry(r.clients[k].since, k) in r.active
  {
  }

  lemma MatchedSame(c: Config, r: Resolver, q: Resolver)
    requires Matched(c, r) && q == r.(active := q.active)
    ensures Matched(c, q)
  {
    hide Resolvable;
  }

  // ----- replies nobody waits for -------------------------------------------------------------

  /** A reply with an identifier that is not awaited (late, repeated or made up) answers nobody and changes
      nothing about what is awaited. */
  lemma StrayReplyIgnored(r: Resolver, m: Reply, now: real)
    requires m.identifier !in r.resolving
    ensures var x := Receive(r, m, now);
            && x.answer.None?
            && x.resolver.clients == r.clients && x.resolver.resolving == r.resolving && x.resolver.active == r.active
  {
  }

  /** Once a reply answered its client, every later reply with the same identifier is such a stray. */
  lemma AnsweredOnce(c: Config, r: Resolver, m: Reply, again: Reply, now: real, later: real)
    requires Inv(c, r) && Receive(r, m, now).answer.Some? && again.identifier == m.identifier
    ensures var x := Receive(r, m, now);
            && x.answer.value.0 in r.clients && x.answer.value.0 !in x.resolver.clients
            && Receive(x.resolver, again, later).answer.None?
            && Receive(x.resolver, again, later).resolver.clients == x.resolver.clients
  {
    hide Resolvable, Timed, Without;
    ChaseKeeps(c, r, m);
    ForgetKeeps(c, Chase(r, m), m.identifier);
    StrayReplyIgnored(Receive(r, m, now).resolver, again, later);
  }

  // ----- progress ---------------------------------------------------------------------------

  /** What a waiting client may still cost: the lookups its chain may still grow by, and for each of them and
      the present one, the attempts. */
  function Potential(c: Config, r: Resolver, k: Client): int
    requires k in r.clients
  {
    (MAX_CHAIN - ChainCount(r, r.clients[k].identifier)) * Attempts(c) + (Attempts(c) - r.clients[k].attempt)
  }

  /** A reply with the right identifier but for another name, and of no use otherwise. */
  predicate Mismatch(r: Resolver, m: Reply) {
    m.identifier in r.resolving && !Follows(r, m) && m.forhost != r.resolving[m.identifier].hostname
  }

  lemma PotentialBounds(c: Config, r: Resolver, k: Client)
    requires Inv(c, r) && k in r.clients
    ensures 0 <= Potential(c, r, k) <= (MAX_CHAIN + 1) * Attempts(c) - 1
  {
    hide Resolvable, Timed;
    var n := ChainCount(r, r.clients[k].identifier);
    assert 0 <= n <= MAX_CHAIN;
    assert 0 <= (MAX_CHAIN - n) * Attempts(c) <= MAX_CHAIN * Attempts(c);
  }

  /** A reply that leaves its client waiting brings it closer to an answer exactly when it is no mismatch: a
      mismatch makes the program forget how long the chain already was. */
  lemma ReplyProgressIff(c: Config, r: Resolver, m: Reply, now: real)
    requires Inv(c, r) && m.identifier in r.resolving && Receive(r, m, now).answer.None?
    ensures var k := r.resolving[m.identifier].client;
            var q := Receive(r, m, now).resolver;
            k in r.clients && k in q.clients && (Potential(c, q, k) < Potential(c, r, k) <==> !Mismatch(r, m))
  {
    hide Resolvable, Timed, Without;
    var k := r.resolving[m.identifier].client;
    var q := Receive(r, m, now).resolver;
    var n := ChainCount(r, m.identifier);
    assert n <= MAX_CHAIN;
    if Follows(r, m) {
      assert ChainCount(q, r.nextid) == n + 1;
      assert (MAX_CHAIN - n) * Attempts(c) == (MAX_CHAIN - (n + 1)) * Attempts(c) + Attempts(c);
    } else {
      assert ChainCount(q, m.identifier) == 0;
      assert MAX_CHAIN * Attempts(c) >= (MAX_CHAIN - n) * Attempts(c);
    }
  }

  /** A reply for another query does not concern the client. */
  lemma OtherReply(c: Config, r: Resolver, m: Reply, now: real, k: Client)
    requires Inv(c, r) && k in r.clients && r.clients[k].identifier != m.identifier
    ensures var q := Receive(r, m, now).resolver;
            k in q.clients && q.clients[k] == r.clients[k] && Potential(c, q, k) == Potential(c, r, k)
  {
    hide Resolvable, Timed, Without;
    assert r.clients[k].identifier < r.nextid;
  }

  /** What a cleanup does to one client: nothing, an answer, or one more attempt. */
  lemma {:induction false} ExpireAllOnce(c: Config, r: Resolver, due: seq<Entry>, now: real, k: Client)
    requires InvWith(c, r, due) && ClockOk(r.(active := due + r.active), now) && k in r.clients
    ensures var q := ExpireAll(c, r, due, now).resolver;
            && q.chained == r.chained
            && (k in q.clients ==>
                  q.clients[k] == r.clients[k] ||
                  (q.clients[k].identifier == r.clients[k].identifier && q.clients[k].attempt == r.clients[k].attempt + 1))
            && ((forall i | 0 <= i < |due| :: due[i].client != k) ==> k in q.clients && q.clients[k] == r.clients[k])
    decreases |due|
  {
    hide Matched, Timed, ClockOk, Expire;
    if |due| == 0 {
    } else {
      var one := Expire(c, r, due[0], now);
      ExpireKeeps(c, r, due, now);
      if k in one.resolver.clients {
        ExpireAllOnce(c, one.resolver, due[1..], now, k);
        if due[0].client == k {
          NotDueTwice(one.resolver, due[1..], r.active, k, now);
        }
      } else {
        ExpireAllGone(c, one.resolver, due[1..], now, k);
      }
    }
  }

  lemma NotDueTwice(q: Resolver, due: seq<Entry>, active: seq<Entry>, k: Client, now: real)
    requires Timed(q.clients, due + q.active) && q.active == active + [Entry(now, k)]
    ensures forall i | 0 <= i < |due| :: due[i].client != k
  {
    var all := due + q.active;
    assert all[|all| - 1].client == k;
    assert forall i | 0 <= i < |due| :: all[i] == due[i];
  }

  lemma {:induction false} ExpireAllGone(c: Config, r: Resolver, due: seq<Entry>, now: real, k: Client)
    requires InvWith(c, r, due) && ClockOk(r.(active := due + r.active), now) && k !in r.clients
    ensures var q := ExpireAll(c, r, due, now).resolver;
            q.chained == r.chained && k !in q.clients
    decreases |due|
  {
    hide Matched, Timed, ClockOk, Expire;
    if |due| == 0 {
    } else {
      ExpireKeeps(c, r, due, now);
      ExpireAllGone(c, Expire(c, r, due[0], now).resolver, due[1..], now, k);
    }
  }
}

/** What one client's lookup comes to.  A lookup is described alone, without the resolver's tables and without the other
    clients; the resolver, serving all clients from shared tables, is proved to do exactly that for each of them. */
module ResolverLookups {
  import opened Basics
  import opened Wrappers
  import opened ByteStrings
  import opened DnsNames
  import opened Resolver
  import opened ResolverRuns

  // ----- a lookup alone -----------------------------------------------------------------------

  /** A client that waits: the identifier of its query, the name it asked for, the name now looked up for it, how many
      lookups led there, since when it waits and which attempt this is. */
  datatype Wait = Idle | Waiting(id: Id, asked: Host, sought: Host, chain: nat, since: real, attempt: nat)

  /** What becomes of the client in one operation, and what it is told. */
  datatype Turn = Turn(wait: Wait, told: Option<Answer>)

  /** A name without a dot, which the configuration refuses. */
  predicate Dotless(c: Config, host: Host) {
    c.fqdn && DOT !in host
  }

  /** A part of the name has more than 255 bytes. */
  ghost predicate TooLong(host: Host) {
    exists i: nat :: LongAt(host, i)
  }

  predicate LongAt(host: Host, i: nat) {
    i + 256 <= |host| && DOT !in host[i..i + 256]
  }

  /** One operation as it concerns client `k`; `next` is the identifier the next query gets. */
  ghost function Alone(c: Config, w: Wait, next: Id, e: Event, k: Client): Turn {
    match e
    case Starting(client, host, cached, now) =>
      if client != k || host == [] then Turn(w, None)
      else if cached.Some? then Turn(w, Some(Found(cached.value)))
      else if Dotless(c, host) then Turn(w, Some(Unqualified))
      else if TooLong(host) then Turn(w, Some(NotFound))
      else Turn(Waiting(next, host, host, 0, now, 1), None)
    case Receiving(m, now) =>
      if w.Idle? || m.identifier != w.id then Turn(w, None)
      else if m.follow.Some? && w.chain < 10 then
        Turn(Waiting(next, w.asked, m.follow.value, w.chain + 1, now, 1), None)
      else if m.forhost != w.sought then Turn(w.(chain := 0, since := now), None)
      else Turn(Idle, Some(if m.value.Some? then Found(m.value.value) else NotFound))
    case Unparsable(_) => Turn(w, None)
    case CleaningUp(now) =>
      if w.Idle? || w.since > now - c.timeout then Turn(w, None)
      else if w.attempt < c.retries then Turn(w.(sought := w.asked, since := now, attempt := w.attempt + 1), None)
      else Turn(Idle, Some(TimedOut))
  }

  // ----- the resolver's view of it --------------------------------------------------------------

  function View(r: Resolver, k: Client): Wait {
    if k in r.clients && r.clients[k].identifier in r.resolving then
      var (p, l) := (r.clients[k], r.resolving[r.clients[k].identifier]);
      Waiting(p.identifier, l.original, l.hostname, ChainCount(r, p.identifier), p.since, p.attempt)
    else Idle
  }

  function AnswerIn(answers: seq<(Client, Answer)>, k: Client): Option<Answer> {
    if |answers| == 0 then None
    else if answers[0].0 == k then Some(answers[0].1) else AnswerIn(answers[1..], k)
  }

  function AnswerOf(a: Option<(Client, Answer)>, k: Client): Option<Answer> {
    if a.Some? && a.value.0 == k then Some(a.value.1) else None
  }

  /** What the operation tells the client. */
  function ToldIn(c: Config, l: Ledger, e: Event, k: Client): Option<Answer> {
    match e
    case Starting(client, host, cached, now) => AnswerOf(Start(c, l.resolver, client, host, cached, now).answer, k)
    case Receiving(reply, now) => AnswerOf(Receive(l.resolver, reply, now).answer, k)
    case Unparsable(_) => None
    case CleaningUp(now) => AnswerIn(Cleanup(c, l.resolver, now).answers, k)
  }

  // ----- names ----------------------------------------------------------------------------------

  lemma {:induction false} SplitParts(host: Host)
    ensures IsJumbo(host) <==> TooLong(host)
    decreases |host|
  {
    hide FindDot, Split;
    var n := FindDot(host);
    SplitStep(host);
    if n == |host| {
      WholePart(host);
    } else {
      SplitParts(host[n + 1..]);
      FirstPart(host, n);
    }
  }

  lemma WholePart(host: Host)
    requires FindDot(host) == |host|
    ensures TooLong(host) <==> |host| > 255
    ensures (exists p :: p in [host] && |p| > 255) <==> |host| > 255
  {
    hide FindDot;
    if |host| > 255 {
      assert LongAt(host, 0);
      assert host in [host];
    }
  }

  lemma FirstPart(host: Host, n: nat)
    requires n < |host| && host[n] == DOT && DOT !in host[..n]
    ensures TooLong(host) <==> n > 255 || TooLong(host[n + 1..])
  {
    if n > 255 {
      assert LongAt(host, 0);
    } else if TooLong(host) {
      var i: nat :| LongAt(host, i);
      if i <= n {
        DotInside(host, n, i);
      } else {
        assert host[i..i + 256] == host[n + 1..][i - n - 1..i - n - 1 + 256];
        assert LongAt(host[n + 1..], i - n - 1);
      }
    } else if TooLong(host[n + 1..]) {
      var i: nat :| LongAt(host[n + 1..], i);
      assert host[n + 1..][i..i + 256] == host[n + 1 + i..n + 1 + i + 256];
      assert LongAt(host, n + 1 + i);
    }
  }

  lemma DotInside(host: Host, n: nat, i: nat)
    requires n < |host| && host[n] == DOT && i <= n <= 255
    ensures !LongAt(host, i)
  {
    if i + 256 <= |host| {
      assert host[i..i + 256][n - i] == DOT;
    }
  }

  lemma NoDot(c: Config, host: Host)
    ensures IsUnqualified(c, host) <==> Dotless(c, host)
  {
  }

  // ----- the resolver does what a lookup alone does ---------------------------------------------

  lemma StartsAlone(c: Config, l: Ledger, e: Event, k: Client)
    requires InvL(c, l) && Enabled(l, e) && e.Starting?
    ensures var t := Alone(c, View(l.resolver, k), l.resolver.nextid, e, k);
            View(Next(c, l, e).resolver, k) == t.wait && ToldIn(c, l, e, k) == t.told
  {
    hide IsUnqualified, IsJumbo, Dotless, TooLong, Timed, ClockOk;
    NoDot(c, e.host);
    SplitParts(e.host);
  }

  lemma ReceivesAlone(c: Config, l: Ledger, e: Event, k: Client)
    requires InvL(c, l) && e.Receiving?
    ensures var t := Alone(c, View(l.resolver, k), l.resolver.nextid, e, k);
            View(Next(c, l, e).resolver, k) == t.wait && ToldIn(c, l, e, k) == t.told
  {
    hide Inv, ClockOk, Receive;
    ViewIs(c, l.resolver, k);
    if k in l.resolver.clients && l.resolver.clients[k].identifier == e.reply.identifier {
      ReceivesOwn(c, l.resolver, e.reply, e.now, k);
    } else {
      ReceivesOther(c, l.resolver, e.reply, e.now, k);
    }
  }

  lemma ViewIs(c: Config, r: Resolver, k: Client)
    requires Inv(c, r)
    ensures View(r, k).Waiting? <==> k in r.clients
    ensures k in r.clients ==> View(r, k).id == r.clients[k].identifier
  {
    hide Resolvable, Timed;
  }

  lemma ReceivesOwn(c: Config, r: Resolver, m: Reply, now: real, k: Client)
    requires Inv(c, r) && k in r.clients && r.clients[k].identifier == m.identifier
    ensures var x := Receive(r, m, now);
            var t := Alone(c, View(r, k), r.nextid, Receiving(m, now), k);
            View(x.resolver, k) == t.wait && AnswerOf(x.answer, k) == t.told
  {
    hide Timed, Resolvable, Basics.Without;
    ClientFacts(c, r, k);
    hide Matched;
  }

  lemma ReceivesOther(c: Config, r: Resolver, m: Reply, now: real, k: Client)
    requires Inv(c, r) && (k in r.clients ==> r.clients[k].identifier != m.identifier)
    ensures var x := Receive(r, m, now);
            View(x.resolver, k) == View(r, k) && AnswerOf(x.answer, k) == None
  {
    hide Timed, Resolvable, Basics.Without;
    if m.identifier in r.resolving {
      assert r.resolving[m.identifier].client in r.clients;
    }
    if k in r.clients {
      ClientFacts(c, r, k);
    }
    hide Matched;
  }

  /** What a cleanup does to one of the entries that are due. */
  lemma ExpiresAlone(c: Config, r: Resolver, e: Entry, now: real, k: Client)
    requires Matched(c, r) && e.client in r.clients && r.clients[e.client].since <= now - c.timeout
    ensures var one := Expire(c, r, e, now);
            var t := if k == e.client then Alone(c, View(r, k), 0, CleaningUp(now), k) else Turn(View(r, k), None);
            View(one.resolver, k) == t.wait && AnswerOf(one.answer, k) == t.told
  {
    hide Expire, Resolvable;
    ExpireShape(c, r, e, now);
  }

  lemma {:induction false} AllExpireAlone(c: Config, r: Resolver, due: seq<Entry>, now: real, k: Client)
    requires InvWith(c, r, due) && ClockOk(r.(active := due + r.active), now)
    requires c.timeout > 0.0 && forall i | 0 <= i < |due| :: due[i].time <= now - c.timeout
    ensures var d := ExpireAll(c, r, due, now);
            var t := if Among(due, k) then Alone(c, View(r, k), 0, CleaningUp(now), k) else Turn(View(r, k), None);
            View(d.resolver, k) == t.wait && AnswerIn(d.answers, k) == t.told
    decreases |due|
  {
    hide Matched, Timed, ClockOk, Expire, Alone, View, Among;
    if |due| == 0 {
      AmongNone(k);
    } else {
      var one := Expire(c, r, due[0], now);
      DueHead(r, due);
      ExpireKeeps(c, r, due, now);
      ExpiresAlone(c, r, due[0], now, k);
      AllExpireAlone(c, one.resolver, due[1..], now, k);
      AmongFirst(due, k);
      if due[0].client == k {
        NotDueAgain(one.resolver, due[1..], r.active, k, now);
      }
      AnswerInFirst(one.answer, ExpireAll(c, one.resolver, due[1..], now).answers, k);
    }
  }

  predicate Among(due: seq<Entry>, k: Client) {
    exists i :: 0 <= i < |due| && due[i].client == k
  }

  lemma AmongNone(k: Client)
    ensures !Among([], k)
  {
  }

  lemma AmongFirst(due: seq<Entry>, k: Client)
    requires |due| > 0
    ensures Among(due, k) <==> due[0].client == k || Among(due[1..], k)
  {
    if i :| 0 <= i < |due| && due[i].client == k && i > 0 {
      assert due[1..][i - 1].client == k;
    }
  }

  lemma DueHead(r: Resolver, due: seq<Entry>)
    requires Timed(r.clients, due + r.active) && |due| > 0
    ensures due[0].client in r.clients && r.clients[due[0].client].since == due[0].time
  {
    assert (due + r.active)[0] == due[0];
  }

  /** A client dealt with is not due a second time. */
  lemma NotDueAgain(q: Resolver, due: seq<Entry>, active: seq<Entry>, k: Client, now: real)
    requires Timed(q.clients, due + q.active)
    requires q.active == if k in q.clients then active + [Entry(now, k)] else active
    ensures !Among(due, k)
  {
    if k in q.clients {
      NotDueTwice(q, due, active, k, now);
    } else {
      forall i | 0 <= i < |due|
        ensures due[i].client != k
      {
        assert (due + q.active)[i] == due[i];
      }
    }
  }

  lemma AnswerInFirst(first: Option<(Client, Answer)>, rest: seq<(Client, Answer)>, k: Client)
    ensures AnswerIn((if first.Some? then [first.value] else []) + rest, k) ==
            if AnswerOf(first, k).Some? then AnswerOf(first, k) else AnswerIn(rest, k)
  {
    if first.Some? {
      assert ([first.value] + rest)[1..] == rest;
    } else {
      assert [] + rest == rest;
    }
  }

  lemma CleansAlone(c: Config, l: Ledger, e: Event, k: Client)
    requires InvL(c, l) && Enabled(l, e) && c.timeout > 0.0 && e.CleaningUp?
    ensures var t := Alone(c, View(l.resolver, k), l.resolver.nextid, e, k);
            View(Next(c, l, e).resolver, k) == t.wait && ToldIn(c, l, e, k) == t.told
  {
    hide Matched, Timed, ExpireAll, ClockOk, Among;
    var r := l.resolver;
    var n := Due(r.active, e.now - c.timeout);
    var s := r.(active := r.active[n..]);
    assert r.active[..n] + r.active[n..] == r.active;
    LaterClock(r, l.clock, e.now);
    MatchedSame(c, r, s);
    AllExpireAlone(c, s, r.active[..n], e.now, k);
    DueIsOld(c, r, n, e.now, k);
    hide Due;
  }

  /** The entries that are due are those of the clients that wait long enough. */
  lemma DueIsOld(c: Config, r: Resolver, n: nat, now: real, k: Client)
    requires Inv(c, r) && n == Due(r.active, now - c.timeout)
    ensures Among(r.active[..n], k) <==> View(r, k).Waiting? && View(r, k).since <= now - c.timeout
  {
    hide Resolvable, Due;
    if k in r.clients {
      var i :| 0 <= i < |r.active| && r.active[i] == Entry(r.clients[k].since, k);
      if i < n {
        assert r.active[..n][i].client == k;
      } else {
        RestIsYoung(r.clients, r.active, n, now - c.timeout, r.active[n..][i - n]);
      }
    }
  }

  /** In every operation, each client is told and waits for what it would if its lookup were alone. */
  lemma NextIsAlone(c: Config, l: Ledger, e: Event, k: Client)
    requires InvL(c, l) && Enabled(l, e) && c.timeout > 0.0
    ensures var t := Alone(c, View(l.resolver, k), l.resolver.nextid, e, k);
            View(Next(c, l, e).resolver, k) == t.wait && ToldIn(c, l, e, k) == t.told
  {
    hide InvL, Enabled, View, ToldIn, Alone, Next;
    match e {
      case Starting(_, _, _, _) => StartsAlone(c, l, e, k);
      case Receiving(_, _) => ReceivesAlone(c, l, e, k);
      case Unparsable(_) => NothingAlone(c, l, e, k);
      case CleaningUp(_) => CleansAlone(c, l, e, k);
    }
  }

  lemma NothingAlone(c: Config, l: Ledger, e: Event, k: Client)
    requires e.Unparsable?
    ensures var t := Alone(c, View(l.resolver, k), l.resolver.nextid, e, k);
            View(Next(c, l, e).resolver, k) == t.wait && ToldIn(c, l, e, k) == t.told
  {
  }

  // ----- chains of lookups ----------------------------------------------------------------------

  /** The operation is a reply to the client's present query. */
  predicate Own(l: Ledger, e: Event, k: Client) {
    View(l.resolver, k).Waiting? && e.Receiving? && e.reply.identifier == View(l.resolver, k).id
  }

  /** While the client waits, its queries lead from name to name, and it does not time out; other clients may do
      anything. */
  ghost predicate Leads(c: Config, l: Ledger, es: seq<Event>, k: Client, names: seq<Host>)
    decreases |es|
  {
    if |es| == 0 then names == []
    else if Own(l, es[0], k) then
      names != [] && es[0].reply.follow == Some(names[0]) && Leads(c, Next(c, l, es[0]), es[1..], k, names[1..])
    else
      && (es[0].CleaningUp? && View(l.resolver, k).Waiting? ==> View(l.resolver, k).since > es[0].now - c.timeout)
      && Leads(c, Next(c, l, es[0]), es[1..], k, names)
  }

  lemma {:induction false} ChainLeads(c: Config, l: Ledger, es: seq<Event>, k: Client, names: seq<Host>)
    requires InvL(c, l) && EnabledAll(c, l, es) && c.timeout > 0.0 && View(l.resolver, k).Waiting?
    requires Leads(c, l, es, k, names) && View(l.resolver, k).chain + |names| <= 10
    ensures var (w, v) := (View(l.resolver, k), View(Run(c, l, es).resolver, k));
            && v.Waiting? && v.asked == w.asked && v.chain == w.chain + |names|
            && v.sought == if names == [] then w.sought else names[|names| - 1]
    ensures InvL(c, Run(c, l, es))
    decreases |es|
  {
    hide InvL, Next, View, Enabled;
    if |es| == 0 {
    } else {
      NextKeeps(c, l, es[0]);
      NextIsAlone(c, l, es[0], k);
      WaitingIsBusy(c, l, k);
      StillWaiting(c, l, es[0], k);
      ChainLeads(c, Next(c, l, es[0]), es[1..], k, if Own(l, es[0], k) then names[1..] else names);
    }
  }

  lemma WaitingIsBusy(c: Config, l: Ledger, k: Client)
    requires InvL(c, l)
    ensures View(l.resolver, k).Waiting? <==> k in l.resolver.clients
  {
    hide Inv;
    ViewIs(c, l.resolver, k);
  }

  lemma StillWaiting(c: Config, l: Ledger, e: Event, k: Client)
    requires Enabled(l, e) && View(l.resolver, k).Waiting? && k in l.resolver.clients
    ensures e.Starting? ==> e.client != k
  {
  }

  /** A client asks for a name that is looked up.  Its queries may lead over at most ten further names, while other
      clients come and go.  Then the reply to its last query, for the last of the names, answers it: with the address in
      the reply, or that there is none. */
  lemma ChainIsAnswered(c: Config, l: Ledger, k: Client, host: Host, now: real, es: seq<Event>, names: seq<Host>,
                        last: Event)
    requires InvL(c, l) && c.timeout > 0.0 && k !in l.resolver.clients && now >= l.clock
    requires host != [] && !Dotless(c, host) && !TooLong(host)
    requires var l1 := Next(c, l, Starting(k, host, None, now));
             && EnabledAll(c, l1, es) && Leads(c, l1, es, k, names) && |names| <= 10
             && var l2 := Run(c, l1, es);
                && Enabled(l2, last) && Own(l2, last, k) && (last.reply.follow.None? || |names| == 10)
                && last.reply.forhost == if names == [] then host else names[|names| - 1]
    ensures var l2 := Run(c, Next(c, l, Starting(k, host, None, now)), es);
            && k in l2.resolver.clients && k !in Next(c, l2, last).resolver.clients
            && Receive(l2.resolver, last.reply, last.now).answer ==
               Some((k, if last.reply.value.Some? then Found(last.reply.value.value) else NotFound))
  {
    hide InvL, Next, View, Run, Leads, EnabledAll, Receive, TooLong, Dotless;
    var e := Starting(k, host, None, now);
    var l1 := Next(c, l, e);
    NextKeeps(c, l, e);
    WaitingIsBusy(c, l, k);
    NextIsAlone(c, l, e, k);
    ChainLeads(c, l1, es, k, names);
    var l2 := Run(c, l1, es);
    NextIsAlone(c, l2, last, k);
    NextKeeps(c, l2, last);
    WaitingIsBusy(c, l2, k);
    WaitingIsBusy(c, Next(c, l2, last), k);
  }
}

/** The resolver manager itself, with the tables the program updates in place. */
module ResolverManagement {
  import opened Basics
  import opened Wrappers
  import opened ByteStrings
  import opened DnsNames
  import R = Resolver
  import K = ResolverCache

  class ResolverManager {
    const config: R.Config
    const ttl: real
    var nextid: R.Id
    var clients: map<R.Client, R.Pending>
    var resolving: map<R.Id, R.Lookup>
    var active: seq<R.Entry>
    var chained: map<R.Id, nat>
    var cache: map<K.Host, Bytes>
    var cached: seq<K.Bucket>

    function State(): R.Resolver
      reads this
    {
      R.Resolver(nextid, clients, resolving, active, chained)
    }

    function Cache(): K.Cache
      reads this
    {
      K.Cache(cache, cached)
    }

    constructor (config: R.Config, ttl: real)
      ensures this.config == config && this.ttl == ttl
      ensures State() == R.Resolver(1, map[], map[], [], map[]) && Cache() == K.Cache(map[], [])
    {
      this.config, this.ttl := config, ttl;
      nextid, clients, resolving, active, chained := 1, map[], map[], [], map[];
      cache, cached := map[], [];
    }

    // ----- the cache ------------------------------------------------------------------------

    /** The time -1 stands for an empty cache: a first bucket that is not later raises an exception, after the
        address was cached. */
    method CacheDestination(host: R.Host, ip: Bytes, now: real) returns (raised: bool)
      modifies this`cache, this`cached
      ensures raised <==> host !in old(cache) && |old(cached)| == 0 && now + ttl < 0.0
      ensures if raised then cache == old(cache)[host := ip] && cached == old(cached)
              else Cache() == K.Insert(old(Cache()), ttl, host, ip, now)
    {
      raised := false;
      if host !in cache {
        var expire := K.BucketTime(now + ttl);
        K.BucketTimeSign(now + ttl);
        var n := |cached|;
        var latest := if n > 0 then cached[n - 1].time else -1.0;
        cache := cache[host := ip];
        if expire > latest {
          cached := cached + [K.Bucket(expire, [host])];
        } else if n > 0 {
          cached := cached[n - 1 := K.Bucket(latest, cached[n - 1].hosts + [host])];
        } else {
          raised := true;
        }
      }
    }

    method ExpireCache(now: real)
      modifies this`cache, this`cached
      ensures Cache() == K.ExpireOne(old(Cache()), now)
    {
      if |cached| > 0 {
        var oldest := cached[0];
        if now >= oldest.time || |cache| > K.MAX_ENTRIES {
          cached := cached[1..];
          ForgetHosts(oldest.hosts);
        }
      }
    }

    method ForgetHosts(hosts: seq<R.Host>)
      modifies this`cache
      ensures cache == old(cache) - K.Elements(hosts)
    {
      hide K.Elements;
      var i := 0;
      NoElements(cache);
      while i < |hosts|
        invariant 0 <= i <= |hosts|
        invariant cache == old(cache) - K.Elements(hosts[..i])
      {
        OneMoreElement(old(cache), hosts, i);
        cache := cache - {hosts[i]};
        i := i + 1;
      }
      assert hosts[..i] == hosts;
    }

    // ----- lookups --------------------------------------------------------------------------

    method Send(id: R.Id, l: R.Lookup, now: real, attempt: nat)
      modifies this`resolving, this`clients, this`active
      ensures State() == R.Send(old(State()), id, l, now, attempt)
    {
      resolving := resolving[id := l];
      clients := clients[l.client := R.Pending(id, now, attempt)];
      active := active + [R.Entry(now, l.client)];
    }

    /** `startResolving` for a new decision. */
    method StartResolving(client: R.Client, host: R.Host, now: real) returns (answer: Option<(R.Client, R.Answer)>)
      modifies this
      ensures var known := if host in old(cache) then Some(old(cache)[host]) else None;
              R.Result(State(), answer) == R.Start(config, old(State()), client, host, known, now)
      ensures Cache() == old(Cache())
    {
      answer := None;
      if |host| > 0 {
        if host in cache {
          answer := Some((client, R.Found(cache[host])));
        } else if R.IsUnqualified(config, host) {
          answer := Some((client, R.Unqualified));
        } else if R.IsJumbo(host) {
          answer := Some((client, R.NotFound));
        } else {
          var id := nextid;
          nextid := nextid + 1;
          Send(id, R.Lookup(client, host, host), now, 1);
        }
      }
    }

    /** `getResponse`, once the worker has read a reply. */
    method GetResponse(m: R.Reply, now: real) returns (answer: Option<(R.Client, R.Answer)>)
      requires now + ttl >= 0.0
      modifies this
      ensures R.Result(State(), answer) == R.Receive(old(State()), m, now)
      ensures Cache() == if answer.Some? && answer.value.1.Found?
                         then K.Insert(old(Cache()), ttl, old(resolving)[m.identifier].original, answer.value.1.ip, now)
                         else old(Cache())
    {
      hide Without;
      answer := None;
      ghost var r := State();
      var follows := R.Follows(State(), m);
      var chain := R.ChainCount(State(), m.identifier);
      var newid := nextid;
      if follows {
        nextid := nextid + 1;
      }
      chained := chained - {m.identifier};
      if follows {
        chained := chained[newid := chain + 1];
      }
      assert State() == R.Chase(r, m);
      if m.identifier !in resolving {
        return;
      }
      var l := resolving[m.identifier];
      resolving := resolving - {m.identifier};
      var attempt := 1;
      if l.client in clients {
        attempt := clients[l.client].attempt;
        active := Remove(active, R.Entry(clients[l.client].since, l.client));
      }
      clients := clients - {l.client};
      assert State() == R.Forget(R.Chase(r, m), m.identifier);
      if follows {
        Send(newid, l.(hostname := m.follow.value), now, 1);
      } else if m.forhost != l.hostname {
        Send(m.identifier, l, now, attempt);
      } else if m.value.Some? {
        answer := Some((l.client, R.Found(m.value.value)));
        var _ := CacheDestination(l.original, m.value.value, now);
      } else {
        answer := Some((l.client, R.NotFound));
      }
    }

    /** What `cleanup` does about one entry. */
    method Expire(e: R.Entry, now: real) returns (answer: Option<(R.Client, R.Answer)>)
      modifies this`clients, this`resolving, this`active
      ensures R.Result(State(), answer) == R.Expire(config, old(State()), e, now)
    {
      answer := None;
      if e.client in clients {
        var p := clients[e.client];
        clients := clients - {e.client};
        if p.identifier in resolving {
          var l := resolving[p.identifier];
          resolving := resolving - {p.identifier};
          if p.attempt < config.retries {
            if R.Resolvable(config, l.original) {
              Send(p.identifier, R.Lookup(l.client, l.original, l.original), now, p.attempt + 1);
            }
          } else {
            answer := Some((l.client, R.TimedOut));
          }
        } else {
          assert resolving == resolving - {p.identifier};
        }
      }
    }

    /** `cleanup`: the program walks along the list it appends to, and stops at the first entry that is young
        enough, which is at the latest the first one it appended itself. */
    method Cleanup(now: real) returns (answers: seq<(R.Client, R.Answer)>)
      requires config.timeout > 0.0
      modifies this`clients, this`resolving, this`active
      ensures R.Cleaned(State(), answers) == R.Cleanup(config, old(State()), now)
    {
      hide R.Expire, R.ExpireAll;
      var cutoff := now - config.timeout;
      ghost var n := R.Due(active, cutoff);
      ghost var due := active[..n];
      answers := [];
      var count := 0;
      assert State().(active := active[n..]) == old(State()).(active := old(active)[n..]);
      while count < |active| && active[count].time <= cutoff
        invariant 0 <= count <= n <= |active| && active[..n] == due
        invariant |active| > n ==> active[n].time > cutoff
        invariant var rest := R.ExpireAll(config, State().(active := active[n..]), due[count..], now);
                  R.Cleaned(rest.resolver, answers + rest.answers) == R.Cleanup(config, old(State()), now)
        decreases n - count
      {
        assert active[count] == due[count] && due[count..][1..] == due[count + 1..];
        ExpireIgnoresFront(config, State(), n, due[count], now);
        CleanupStep(config, State(), n, due[count..], answers, now);
        ghost var before := active;
        var answer := Expire(active[count], now);
        assert active[..|before|] == before;
        if answer.Some? {
          answers := answers + [answer.value];
        } else {
          assert answers + [] == answers;
        }
        count := count + 1;
      }
      assert count == n;
      assert due[n..] == [] && answers + [] == answers;
      NothingDue(config, State().(active := active[n..]), now);
      active := active[count..];
    }
  }

  /** Expiring looks at no entry but the one given, and only appends to the list. */
  lemma ExpireIgnoresFront(c: R.Config, r: R.Resolver, n: nat, e: R.Entry, now: real)
    requires n <= |r.active|
    ensures var x := R.Expire(c, r, e, now);
            && |r.active| <= |x.resolver.active| && x.resolver.active[..|r.active|] == r.active
            && (forall i | |r.active| <= i < |x.resolver.active| :: x.resolver.active[i].time == now)
            && R.Expire(c, r.(active := r.active[n..]), e, now)
               == R.Result(x.resolver.(active := x.resolver.active[n..]), x.answer)
  {
    hide R.Resolvable;
    assert (r.active + [R.Entry(now, e.client)])[n..] == r.active[n..] + [R.Entry(now, e.client)];
    if e.client in r.clients && r.clients[e.client].identifier in r.resolving {
      var l := r.resolving[r.clients[e.client].identifier];
      assert (r.active + [R.Entry(now, l.client)])[n..] == r.active[n..] + [R.Entry(now, l.client)];
    }
  }

  lemma NoElements(m: map<R.Host, Bytes>)
    ensures forall hosts: seq<R.Host> | |hosts| == 0 :: m - K.Elements(hosts) == m
  {
  }

  lemma OneMoreElement(m: map<R.Host, Bytes>, hosts: seq<R.Host>, i: nat)
    requires i < |hosts|
    ensures m - K.Elements(hosts[..i + 1]) == m - K.Elements(hosts[..i]) - {hosts[i]}
  {
    assert hosts[..i + 1] == hosts[..i] + [hosts[i]];
    assert K.Elements(hosts[..i + 1]) == K.Elements(hosts[..i]) + {hosts[i]};
  }

  lemma NothingDue(c: R.Config, r: R.Resolver, now: real)
    ensures R.ExpireAll(c, r, [], now) == R.Cleaned(r, [])
  {
  }

  /** One round of the cleanup loop. */
  lemma CleanupStep(c: R.Config, r: R.Resolver, n: nat, due: seq<R.Entry>, answers: seq<(R.Client, R.Answer)>, now: real)
    requires |due| > 0 && n <= |r.active|
    ensures n <= |R.Expire(c, r, due[0], now).resolver.active|
    ensures var x := R.Expire(c, r, due[0], now);
            var before := R.ExpireAll(c, r.(active := r.active[n..]), due, now);
            var after := R.ExpireAll(c, x.resolver.(active := x.resolver.active[n..]), due[1..], now);
            && before.resolver == after.resolver
            && answers + before.answers == answers + (if x.answer.Some? then [x.answer.value] else []) + after.answers
  {
    hide R.Expire;
    ExpireIgnoresFront(c, r, n, due[0], now);
  }
}

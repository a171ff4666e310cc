/** The resolver's cache: addresses by host, and the hosts in buckets by expiry time. */
module ResolverCache {
  import opened Wrappers
  import opened ByteStrings
  import opened DnsNames

  type Host = Bytes

  const MAX_ENTRIES := 1024 * 20

  datatype Bucket = Bucket(time: real, hosts: seq<Host>)

  datatype Cache = Cache(cache: map<Host, Bytes>, cached: seq<Bucket>)

  /** The time rounded down to a multiple of five seconds. */
  function BucketTime(t: real): real {
    (t / 5.0).Floor as real * 5.0
  }

  lemma BucketTimeIsClose(t: real)
    ensures t - 5.0 < BucketTime(t) <= t
  {
  }

  lemma BucketTimeSign(t: real)
    ensures t >= 0.0 ==> BucketTime(t) >= 0.0
    ensures t < 0.0 ==> BucketTime(t) <= -5.0
  {
    var n := (t / 5.0).Floor;
    assert t < 0.0 ==> n <= -1;
  }

  /** `cacheDestination`. */
  function Insert(c: Cache, ttl: real, host: Host, ip: Bytes, now: real): Cache {
    if host in c.cache then c
    else
      var expire := BucketTime(now + ttl);
      var n := |c.cached|;
      Cache(c.cache[host := ip],
            if n == 0 || expire > c.cached[n - 1].time then c.cached + [Bucket(expire, [host])]
            else c.cached[n - 1 := Bucket(c.cached[n - 1].time, c.cached[n - 1].hosts + [host])])
  }

  function Elements(s: seq<Host>): set<Host> {
    set h | h in s
  }

  /** `expireCache`: at most one bucket goes, the oldest. */
  function ExpireOne(c: Cache, now: real): Cache {
    if |c.cached| > 0 && (now >= c.cached[0].time || |c.cache| > MAX_ENTRIES)
    then Cache(c.cache - Elements(c.cached[0].hosts), c.cached[1..])
    else c
  }

  // ----- the invariant ----------------------------------------------------------------------

  /** The host is in this bucket at this place. */
  predicate At(cached: seq<Bucket>, i: nat, a: nat, h: Host) {
    i < |cached| && a < |cached[i].hosts| && cached[i].hosts[a] == h
  }

  /** Every cached host is in exactly one place of one bucket, and nothing else is in a bucket. */
  ghost predicate Placed(c: Cache) {
    && (forall i: nat, a: nat, h | At(c.cached, i, a, h) :: h in c.cache)
    && (forall h | h in c.cache :: exists i: nat, a: nat :: At(c.cached, i, a, h))
    && (forall i: nat, a: nat, j: nat, b: nat, h | At(c.cached, i, a, h) && At(c.cached, j, b, h) :: i == j && a == b)
  }

  predicate Increasing(cached: seq<Bucket>) {
    forall i, j | 0 <= i < j < |cached| :: cached[i].time < cached[j].time
  }

  /** No bucket expires five seconds or more before the lifetime of a host in it is over; `inserted` records
      when each host was cached. */
  ghost predicate LongEnough(c: Cache, ttl: real, inserted: map<Host, real>) {
    forall i: nat, a: nat, h | At(c.cached, i, a, h) :: h in inserted && c.cached[i].time > inserted[h] + ttl - 5.0
  }

  ghost predicate Inv(c: Cache, ttl: real, inserted: map<Host, real>) {
    Placed(c) && Increasing(c.cached) && LongEnough(c, ttl, inserted)
  }

  /** How inserting changes the places: one more, for the new host. */
  lemma InsertPlaces(c: Cache, ttl: real, host: Host, ip: Bytes, now: real) returns (i0: nat, a0: nat)
    requires host !in c.cache
    ensures var q := Insert(c, ttl, host, ip, now);
            && i0 < |q.cached| && q.cached[i0].time >= BucketTime(now + ttl)
            && (forall i: nat, a: nat, h :: At(q.cached, i, a, h) <==> At(c.cached, i, a, h) || (i == i0 && a == a0 && h == host))
            && (forall i | 0 <= i < |c.cached| :: i < |q.cached| && q.cached[i].time == c.cached[i].time)
            && (forall h :: !At(c.cached, i0, a0, h))
            && (Increasing(c.cached) ==> Increasing(q.cached))
  {
    var n := |c.cached|;
    if n == 0 || BucketTime(now + ttl) > c.cached[n - 1].time {
      i0, a0 := n, 0;
    } else {
      i0, a0 := n - 1, |c.cached[n - 1].hosts|;
    }
  }

  lemma InsertKeeps(c: Cache, ttl: real, host: Host, ip: Bytes, now: real, inserted: map<Host, real>)
    requires Inv(c, ttl, inserted) && host !in c.cache
    ensures Inv(Insert(c, ttl, host, ip, now), ttl, inserted[host := now])
  {
    hide Insert, At, BucketTime;
    var q := Insert(c, ttl, host, ip, now);
    var i0, a0 := InsertPlaces(c, ttl, host, ip, now);
    assert q.cached[i0].time > now + ttl - 5.0 by {
      BucketTimeIsClose(now + ttl);
    }
    InsertLongEnough(c, q, ttl, host, now, inserted, i0, a0);
    assert q.cache == c.cache[host := ip] by {
      InsertedKeys(c, ttl, host, ip, now);
    }
    assert At(q.cached, i0, a0, host);
    forall h | h in q.cache
      ensures exists i: nat, a: nat :: At(q.cached, i, a, h)
    {
      if h != host {
        var i: nat, a: nat :| At(c.cached, i, a, h);
        assert At(q.cached, i, a, h);
      }
    }
  }

  lemma InsertedKeys(c: Cache, ttl: real, host: Host, ip: Bytes, now: real)
    requires host !in c.cache
    ensures Insert(c, ttl, host, ip, now).cache == c.cache[host := ip]
  {
  }

  lemma InsertLongEnough(c: Cache, q: Cache, ttl: real, host: Host, now: real, inserted: map<Host, real>, i0: nat, a0: nat)
    requires Placed(c) && LongEnough(c, ttl, inserted) && host !in c.cache
    requires forall i: nat, a: nat, h :: At(q.cached, i, a, h) <==> At(c.cached, i, a, h) || (i == i0 && a == a0 && h == host)
    requires forall i | 0 <= i < |c.cached| :: i < |q.cached| && q.cached[i].time == c.cached[i].time
    requires i0 < |q.cached| && q.cached[i0].time > now + ttl - 5.0
    ensures LongEnough(q, ttl, inserted[host := now])
  {
    forall i: nat, a: nat, h | At(q.cached, i, a, h)
      ensures h in inserted[host := now] && q.cached[i].time > inserted[host := now][h] + ttl - 5.0
    {
      if At(c.cached, i, a, h) {
        assert h in c.cache;
      }
    }
  }

  /** Expiring moves every place up by one bucket. */
  lemma ExpireKeeps(c: Cache, now: real, ttl: real, inserted: map<Host, real>)
    requires Inv(c, ttl, inserted)
    ensures Inv(ExpireOne(c, now), ttl, inserted)
  {
    var q := ExpireOne(c, now);
    if q != c {
      forall i: nat, a: nat, h
        ensures At(q.cached, i, a, h) <==> At(c.cached, i + 1, a, h)
      {
      }
      ExpirePlaced(c, q);
    }
  }

  lemma ExpirePlaced(c: Cache, q: Cache)
    requires Placed(c) && |c.cached| > 0 && q == Cache(c.cache - Elements(c.cached[0].hosts), c.cached[1..])
    requires forall i: nat, a: nat, h :: At(q.cached, i, a, h) <==> At(c.cached, i + 1, a, h)
    ensures Placed(q)
  {
    forall h | h in q.cache
      ensures exists i: nat, a: nat :: At(q.cached, i, a, h)
    {
      var i: nat, a: nat :| At(c.cached, i, a, h);
      assert i != 0;
      assert At(q.cached, i - 1, a, h);
    }
    forall i: nat, a: nat, h | At(q.cached, i, a, h)
      ensures h in q.cache
    {
      assert At(c.cached, i + 1, a, h);
      if h in c.cached[0].hosts {
        var b: nat :| b < |c.cached[0].hosts| && c.cached[0].hosts[b] == h;
        assert At(c.cached, 0, b, h);
      }
    }
  }

  /** Why a host leaves: its whole bucket leaves with it, and nothing else does; and unless the cache is over
      its size limit, its lifetime was over or had less than five seconds to go. */
  lemma WhyExpired(c: Cache, now: real, ttl: real, inserted: map<Host, real>, h: Host)
    requires Inv(c, ttl, inserted) && h in c.cache && h !in ExpireOne(c, now).cache
    ensures |c.cached| > 0 && h in c.cached[0].hosts
    ensures forall g | g in c.cache :: g !in ExpireOne(c, now).cache <==> g in c.cached[0].hosts
    ensures h in inserted && (|c.cache| > MAX_ENTRIES || now > inserted[h] + ttl - 5.0)
  {
    var a: nat :| a < |c.cached[0].hosts| && c.cached[0].hosts[a] == h;
    assert At(c.cached, 0, a, h);
  }

  /** When a host leaves: it is in the oldest bucket, and this is due or the cache is over its size limit.  All other
      hosts keep their addresses. */
  lemma ExpiredIff(c: Cache, now: real, ttl: real, inserted: map<Host, real>, h: Host)
    requires Inv(c, ttl, inserted) && h in c.cache
    ensures h !in ExpireOne(c, now).cache <==>
              && |c.cached| > 0 && h in c.cached[0].hosts
              && (now >= c.cached[0].time || |c.cache| > 20480)
    ensures h in ExpireOne(c, now).cache ==> ExpireOne(c, now).cache[h] == c.cache[h]
  {
    hide Inv;
  }

  /** A new host is found with its address, in the last bucket, which is due neither after its lifetime nor five seconds
      or more before the end of it, unless that bucket was there and is later. */
  lemma InsertedIn(c: Cache, ttl: real, host: Host, ip: Bytes, now: real)
    requires host !in c.cache
    ensures var q := Insert(c, ttl, host, ip, now);
            && q.cache == c.cache[host := ip] && |q.cached| > 0
            && var b := q.cached[|q.cached| - 1];
               && |b.hosts| > 0 && b.hosts[|b.hosts| - 1] == host
               && (now + ttl - 5.0 < b.time <= now + ttl || (|c.cached| > 0 && b.time == c.cached[|c.cached| - 1].time))
               && now + ttl - 5.0 < b.time
  {
    BucketTimeIsClose(now + ttl);
  }

  // ----- runs -------------------------------------------------------------------------------

  datatype Event = Caching(host: Host, ip: Bytes, now: real) | Expiring(now: real)

  /** The cache together with the record of when each host was last cached. */
  datatype Ledger = Ledger(cache: Cache, inserted: map<Host, real>)

  function Next(l: Ledger, ttl: real, e: Event): Ledger {
    match e
    case Caching(host, ip, now) =>
      if host in l.cache.cache then l
      else Ledger(Insert(l.cache, ttl, host, ip, now), l.inserted[host := now])
    case Expiring(now) => Ledger(ExpireOne(l.cache, now), l.inserted)
  }

  function Run(l: Ledger, ttl: real, es: seq<Event>): Ledger
    decreases |es|
  {
    if |es| == 0 then l else Run(Next(l, ttl, es[0]), ttl, es[1..])
  }

  lemma {:induction false} RunKeeps(l: Ledger, ttl: real, es: seq<Event>)
    requires Inv(l.cache, ttl, l.inserted)
    ensures var q := Run(l, ttl, es); Inv(q.cache, ttl, q.inserted)
    decreases |es|
  {
    hide Inv, Insert, ExpireOne;
    if |es| == 0 {
    } else {
      match es[0] {
        case Caching(host, ip, now) =>
          if host !in l.cache.cache {
            InsertKeeps(l.cache, ttl, host, ip, now, l.inserted);
          }
        case Expiring(now) => ExpireKeeps(l.cache, now, ttl, l.inserted);
      }
      RunKeeps(Next(l, ttl, es[0]), ttl, es[1..]);
    }
  }

  /** In every reachable state each cached host is in exactly one bucket, bucket times strictly increase, and no
      bucket is due five seconds or more before a lifetime in it is over. */
  lemma EveryRunKeeps(ttl: real, es: seq<Event>)
    ensures var q := Run(Ledger(Cache(map[], []), map[]), ttl, es); Inv(q.cache, ttl, q.inserted)
  {
    RunKeeps(Ledger(Cache(map[], []), map[]), ttl, es);
  }
}

/** `TimeCache` of `lib/exaproxy/util/cache.py`: a dictionary that remembers when its keys were set and hands
    out the ones older than a timeout.  Only the keys of the dictionary matter here. */
module TimeCaches {
  import opened Wrappers

  type Key = nat
  type Time = int

  datatype Stamp = Stamp(key: Key, at: Time)

  /** `time` is the ordered dictionary of times, `last` the entry that `expired` took from it too early. */
  datatype Cache = Cache(timeout: int, keys: set<Key>, time: seq<Stamp>, last: Option<Stamp>)

  // ----- operations -------------------------------------------------------------------------

  /** Setting a key of an ordered dictionary: a key that is there keeps its place. */
  function Touch(stamps: seq<Stamp>, key: Key, now: Time): seq<Stamp> {
    if |stamps| == 0 then [Stamp(key, now)]
    else if stamps[0].key == key then [Stamp(key, now)] + stamps[1..]
    else [stamps[0]] + Touch(stamps[1..], key, now)
  }

  function Without(stamps: seq<Stamp>, key: Key): seq<Stamp> {
    if |stamps| == 0 then []
    else if stamps[0].key == key then Without(stamps[1..], key)
    else [stamps[0]] + Without(stamps[1..], key)
  }

  function Insert(c: Cache, key: Key, now: Time): Cache {
    c.(keys := c.keys + {key}, time := if c.timeout > 0 then Touch(c.time, key, now) else c.time)
  }

  /** `del` and `pop`; the entry held back in `last` stays. */
  function Remove(c: Cache, key: Key): Cache {
    c.(keys := c.keys - {key}, time := Without(c.time, key))
  }

  /** The loop of `expired`, with the keys it yields. */
  function Sweep(c: Cache, expire: Time, maximum: int): (Cache, seq<Key>)
    decreases |c.time|
  {
    if |c.time| == 0 || maximum == 0 then (c, [])
    else
      var (s, rest) := (c.time[0], c.(time := c.time[1..]));
      if s.at > expire then (rest.(last := Some(s)), [])
      else if s.key in c.keys then
        var (d, keys) := Sweep(rest, expire, maximum - 1);
        (d, [s.key] + keys)
      else Sweep(rest, expire, maximum)
  }

  function Expired(c: Cache, now: Time, maximum: int): (Cache, seq<Key>) {
    var expire := now - c.timeout;
    if c.last.None? then Sweep(c, expire, maximum)
    else if c.last.value.at > expire then (c, [])
    else if c.last.value.key in c.keys then
      var (d, keys) := Sweep(c.(last := None), expire, maximum - 1);
      (d, [c.last.value.key] + keys)
    else Sweep(c.(last := None), expire, maximum)
  }

  class TimeCache {
    const timeout: int
    var keys: set<Key>
    var time: seq<Stamp>
    var last: Option<Stamp>

    function State(): Cache
      reads this
    {
      Cache(timeout, keys, time, last)
    }

    constructor (timeout: int)
      ensures State() == Cache(timeout, {}, [], None)
    {
      this.timeout := timeout;
      keys, time, last := {}, [], None;
    }

    method SetItem(key: Key, now: Time)
      modifies this
      ensures State() == Insert(old(State()), key, now)
    {
      keys := keys + {key};
      if timeout > 0 {
        time := Touch(time, key, now);
      }
    }

    method Pop(key: Key)
      modifies this
      ensures State() == Remove(old(State()), key)
    {
      if exists s | s in time :: s.key == key {
        time := Without(time, key);
      } else {
        WithoutNothing(time, key);
      }
      keys := keys - {key};
    }

    /** Consumed to its end; the entries it looks at are taken before each key is yielded. */
    method ExpiredKeys(now: Time, maximum: int) returns (out: seq<Key>)
      modifies this
      ensures State() == Expired(old(State()), now, maximum).0 && out == Expired(old(State()), now, maximum).1
    {
      hide Sweep;
      var expire := now - timeout;
      if last.None? {
        out := SweepKeys(expire, maximum);
      } else if last.value.at > expire {
        out := [];
      } else {
        var key := last.value.key;
        last := None;
        if key in keys {
          out := SweepKeys(expire, maximum - 1);
          out := [key] + out;
        } else {
          out := SweepKeys(expire, maximum);
        }
      }
    }

    /** The loop of `expired`. */
    method SweepKeys(expire: Time, limit: int) returns (out: seq<Key>)
      modifies this
      ensures State() == Sweep(old(State()), expire, limit).0 && out == Sweep(old(State()), expire, limit).1
    {
      var maximum := limit;
      out := [];
      while |time| > 0 && maximum != 0
        invariant keys == old(keys) && last == old(last)
        invariant Sweep(old(State()), expire, limit).0 == Sweep(State(), expire, maximum).0
        invariant Sweep(old(State()), expire, limit).1 == out + Sweep(State(), expire, maximum).1
        decreases |time|
      {
        var s := time[0];
        time := time[1..];
        if s.at > expire {
          last := Some(s);
          break;
        }
        if s.key in keys {
          maximum := maximum - 1;
          out := out + [s.key];
        }
      }
      assert out + [] == out;
    }
  }

  lemma WithoutNothing(stamps: seq<Stamp>, key: Key)
    requires forall s | s in stamps :: s.key != key
    ensures Without(stamps, key) == stamps
  {
  }

  /** Setting a key again replaces its time and keeps its place; a key that is not there goes last. */
  lemma {:induction false} TouchKeepsPlace(before: seq<Stamp>, key: Key, earlier: Time, behind: seq<Stamp>, now: Time)
    requires forall s | s in before :: s.key != key
    ensures Touch(before + [Stamp(key, earlier)] + behind, key, now) == before + [Stamp(key, now)] + behind
    ensures Touch(before, key, now) == before + [Stamp(key, now)]
    decreases |before|
  {
    var all := before + [Stamp(key, earlier)] + behind;
    if |before| == 0 {
      assert all[1..] == behind;
    } else {
      assert all[0] == before[0] && all[1..] == before[1..] + [Stamp(key, earlier)] + behind;
      assert before[0] in before;
      TouchKeepsPlace(before[1..], key, earlier, behind, now);
      assert [before[0]] + (before[1..] + [Stamp(key, now)] + behind) == before + [Stamp(key, now)] + behind;
    }
  }

  /** Without a timeout no times are kept, and nothing is handed out. */
  lemma NothingIsTimed(c: Cache, key: Key, now: Time, maximum: int)
    requires c.timeout <= 0 && c.time == [] && c.last.None?
    ensures Insert(c, key, now) == c.(keys := c.keys + {key})
    ensures Remove(c, key) == c.(keys := c.keys - {key})
    ensures Expired(c, now, maximum) == (c, [])
  {
  }

  // ----- a plain list of times ----------------------------------------------------------------

  /** Every entry the cache still remembers, oldest first. */
  function Queue(c: Cache): seq<Stamp> {
    (if c.last.Some? then [c.last.value] else []) + c.time
  }

  function Live(keys: set<Key>, stamps: seq<Stamp>): seq<Stamp> {
    if |stamps| == 0 then []
    else (if stamps[0].key in keys then [stamps[0]] else []) + Live(keys, stamps[1..])
  }

  /** What the cache stands for: the keys that are set and were not handed out, with their times. */
  function Pending(c: Cache): seq<Stamp> {
    Live(c.keys, Queue(c))
  }

  /** The oldest entries set no later than `expire`, at most `maximum` of them. */
  function Due(stamps: seq<Stamp>, expire: Time, maximum: nat): (due: seq<Stamp>)
    ensures due <= stamps && |due| <= maximum
    ensures forall s | s in due :: s.at <= expire
    ensures |due| < |stamps| ==> |due| == maximum || stamps[|due|].at > expire
  {
    if |stamps| == 0 || maximum == 0 || stamps[0].at > expire then []
    else [stamps[0]] + Due(stamps[1..], expire, maximum - 1)
  }

  function Keys(stamps: seq<Stamp>): (keys: seq<Key>)
    ensures |keys| == |stamps|
    ensures forall i | 0 <= i < |keys| :: keys[i] == stamps[i].key
  {
    seq(|stamps|, i requires 0 <= i < |stamps| => stamps[i].key)
  }

  predicate Sorted(stamps: seq<Stamp>) {
    forall i, j | 0 <= i < j < |stamps| :: stamps[i].at <= stamps[j].at
  }

  predicate Distinct(stamps: seq<Stamp>) {
    forall i, j | 0 <= i < j < |stamps| :: stamps[i].key != stamps[j].key
  }

  predicate Valid(c: Cache, now: Time) {
    && c.timeout > 0
    && Sorted(c.time) && Distinct(c.time)
    && (forall s | s in c.time :: s.at <= now && s.key in c.keys)
    && (c.last.Some? ==> Before(c.last.value, c.time, now))
  }

  predicate Before(first: Stamp, stamps: seq<Stamp>, now: Time) {
    && first.at <= now
    && forall s | s in stamps :: first.at <= s.at && first.key != s.key
  }

  /** The held-back entry is one to hand out now. */
  predicate LastIsDue(c: Cache, now: Time) {
    c.last.Some? && c.last.value.key in c.keys && c.last.value.at <= now - c.timeout
  }

  lemma LiveIsAll(keys: set<Key>, stamps: seq<Stamp>)
    requires forall s | s in stamps :: s.key in keys
    ensures Live(keys, stamps) == stamps
  {
    if |stamps| > 0 {
      assert stamps[0] in stamps;
    }
  }

  /** How many entries a sweep may take: any number when the count it works with is negative. */
  function Limit(c: Cache, maximum: int): nat {
    if maximum < 0 then |c.time| else maximum
  }

  lemma KeysOfMore(s: Stamp, more: seq<Stamp>)
    ensures Keys([s] + more) == [s.key] + Keys(more)
  {
  }

  /** One turn of the loop that takes an entry, beside the plain list. */
  lemma TakingOne(c: Cache, expire: Time, maximum: int)
    requires |c.time| > 0 && maximum != 0 && c.time[0].at <= expire
    requires forall s | s in c.time :: s.key in c.keys
    ensures var (s, rest) := (c.time[0], c.(time := c.time[1..]));
            && Due(c.time, expire, Limit(c, maximum)) == [s] + Due(rest.time, expire, Limit(rest, maximum - 1))
            && Sweep(c, expire, maximum).0 == Sweep(rest, expire, maximum - 1).0
            && Sweep(c, expire, maximum).1 == [s.key] + Sweep(rest, expire, maximum - 1).1
  {
    assert c.time[0] in c.time;
  }

  lemma {:induction false} SweepYieldsDue(c: Cache, expire: Time, maximum: int)
    requires forall s | s in c.time :: s.key in c.keys
    ensures Sweep(c, expire, maximum).1 == Keys(Due(c.time, expire, Limit(c, maximum)))
    decreases |c.time|
  {
    hide Keys, Limit;
    if |c.time| == 0 || maximum == 0 || c.time[0].at > expire {
      NothingTaken(c, expire, maximum);
      NoKeys();
    } else {
      var (s, rest) := (c.time[0], c.(time := c.time[1..]));
      TakingOne(c, expire, maximum);
      SweepYieldsDue(rest, expire, maximum - 1);
      KeysOfMore(s, Due(rest.time, expire, Limit(rest, maximum - 1)));
    }
  }

  lemma {:induction false} SweepLeavesRest(c: Cache, expire: Time, maximum: int)
    requires c.last.None?
    requires forall s | s in c.time :: s.key in c.keys
    ensures var (d, due) := (Sweep(c, expire, maximum).0, Due(c.time, expire, Limit(c, maximum)));
            Queue(d) == c.time[|due|..] && d.keys == c.keys && d.timeout == c.timeout
    decreases |c.time|
  {
    hide Sweep, Due, Limit;
    if |c.time| == 0 || maximum == 0 || c.time[0].at > expire {
      NothingTaken(c, expire, maximum);
    } else {
      var rest := c.(time := c.time[1..]);
      TakingOne(c, expire, maximum);
      SweepLeavesRest(rest, expire, maximum - 1);
      var more := Due(rest.time, expire, Limit(rest, maximum - 1));
      assert c.time[1..][|more|..] == c.time[1 + |more|..];
    }
  }

  lemma NothingTaken(c: Cache, expire: Time, maximum: int)
    requires |c.time| == 0 || maximum == 0 || c.time[0].at > expire
    ensures var (d, out) := Sweep(c, expire, maximum);
            && out == [] && Due(c.time, expire, Limit(c, maximum)) == []
            && d.keys == c.keys && d.timeout == c.timeout && (c.last.None? ==> Queue(d) == c.time)
  {
  }

  lemma NoKeys()
    ensures Keys([]) == []
  {
  }

  // ----- each operation on the plain list -----------------------------------------------------

  /** `d` is `c` after its `n` oldest pending entries left. */
  predicate Leaves(c: Cache, d: Cache, n: nat, now: Time) {
    && n <= |Pending(c)| && Pending(d) == Pending(c)[n..]
    && Valid(d, now) && d.keys == c.keys && d.timeout == c.timeout
    && (forall s | s in Queue(d) :: s in Queue(c))
  }

  /** Handing out: exactly the due keys of the plain list, in order and within the limit, are yielded and leave
      the list.  The one exception is a limit of zero while the held-back entry is due. */
  lemma ExpiredRefines(c: Cache, now: Time, maximum: nat)
    requires Valid(c, now)
    requires maximum > 0 || !LastIsDue(c, now)
    ensures var due := Due(Pending(c), now - c.timeout, maximum);
            Expired(c, now, maximum).1 == Keys(due) && Leaves(c, Expired(c, now, maximum).0, |due|, now)
  {
    hide Sweep, Keys, Due, Leaves, Valid, Pending;
    if c.last.None? {
      SweepRefines(c, now, maximum);
    } else if c.last.value.at > now - c.timeout {
      HeldBackWaits(c, now, maximum);
      NoKeys();
    } else {
      var rest := c.(last := None);
      RestIsValid(c, now);
      if c.last.value.key in c.keys {
        SweepRefines(rest, now, maximum - 1);
        LastComesFirst(c, now, maximum);
        LastLeavesFirst(c, Expired(c, now, maximum).0, |Due(c.time, now - c.timeout, maximum - 1)|, now);
      } else {
        SweepRefines(rest, now, maximum);
        DeadLastLeaves(c, Expired(c, now, maximum).0, |Due(c.time, now - c.timeout, maximum)|, now);
      }
    }
  }

  /** Leaving a cache without its held-back entry, seen from the cache with it. */
  lemma LastLeavesFirst(c: Cache, d: Cache, n: nat, now: Time)
    requires Valid(c, now) && c.last.Some? && c.last.value.key in c.keys
    requires Leaves(c.(last := None), d, n, now)
    ensures Leaves(c, d, n + 1, now)
  {
    hide Valid, Queue, Pending;
    QueueOfRest(c);
    QueueHolds(c);
    assert Pending(c)[1..][n..] == Pending(c)[n + 1..];
  }

  lemma DeadLastLeaves(c: Cache, d: Cache, n: nat, now: Time)
    requires Valid(c, now) && c.last.Some? && c.last.value.key !in c.keys
    requires Leaves(c.(last := None), d, n, now)
    ensures Leaves(c, d, n, now) && Pending(c) == Pending(c.(last := None))
  {
    hide Valid, Queue, Pending;
    QueueOfRest(c);
    QueueHolds(c);
  }

  lemma QueueOfRest(c: Cache)
    ensures Queue(c.(last := None)) == c.time
    ensures c.last.Some? ==>
              var rest := Pending(c.(last := None));
              Pending(c) == if c.last.value.key in c.keys then [c.last.value] + rest else rest
  {
    if c.last.Some? {
      assert Queue(c)[0] == c.last.value && Queue(c)[1..] == c.time;
    }
  }

  lemma RestIsValid(c: Cache, now: Time)
    requires Valid(c, now)
    ensures Valid(c.(last := None), now)
  {
  }

  lemma SweepRefines(c: Cache, now: Time, maximum: int)
    requires Valid(c, now) && c.last.None?
    ensures Pending(c) == c.time
    ensures var due := Due(c.time, now - c.timeout, Limit(c, maximum));
            && Sweep(c, now - c.timeout, maximum).1 == Keys(due)
            && Leaves(c, Sweep(c, now - c.timeout, maximum).0, |due|, now)
  {
    hide Sweep, Keys, Leaves, Pending, Queue, Sorted, Distinct, Due, Limit;
    SweepYieldsDue(c, now - c.timeout, maximum);
    SweepLeavesRest(c, now - c.timeout, maximum);
    SuffixLeaves(c, Sweep(c, now - c.timeout, maximum).0, |Due(c.time, now - c.timeout, Limit(c, maximum))|, now);
  }

  lemma SuffixLeaves(c: Cache, d: Cache, n: nat, now: Time)
    requires Valid(c, now) && c.last.None? && n <= |c.time|
    requires Queue(d) == c.time[n..] && d.keys == c.keys && d.timeout == c.timeout
    ensures Pending(c) == c.time && Leaves(c, d, n, now)
  {
    hide Sorted, Distinct, Queue, Valid;
    QueueOfRest(c);
    assert c.(last := None) == c;
    SuffixIsValid(c, d, n, now);
    LiveIsAll(c.keys, c.time);
    LiveIsAll(d.keys, Queue(d));
  }

  lemma SuffixIsValid(c: Cache, d: Cache, n: nat, now: Time)
    requires Valid(c, now) && n <= |c.time|
    requires Queue(d) == c.time[n..] && d.keys == c.keys && d.timeout == c.timeout
    ensures Valid(d, now) && (forall s | s in c.time :: s.key in c.keys)
    ensures forall s | s in Queue(d) :: s in c.time
  {
    hide Sorted, Distinct;
    SuffixIsOrdered(c.time, n);
    if d.last.Some? {
      var queue := c.time[n..];
      assert d.last.value == queue[0] && d.time == queue[1..];
      SuffixIsOrdered(queue, 1);
      HeadIsBefore(queue, now);
    } else {
      assert d.time == c.time[n..];
    }
  }

  lemma HeadIsBefore(stamps: seq<Stamp>, now: Time)
    requires |stamps| > 0 && Sorted(stamps) && Distinct(stamps) && stamps[0].at <= now
    ensures Before(stamps[0], stamps[1..], now)
  {
    forall s | s in stamps[1..] ensures stamps[0].at <= s.at && stamps[0].key != s.key {
      var i :| 1 <= i < |stamps| && stamps[i] == s;
    }
  }

  lemma QueueHolds(d: Cache)
    ensures forall s | s in d.time :: s in Queue(d)
  {
    var front := if d.last.Some? then [d.last.value] else [];
    assert forall i | 0 <= i < |d.time| :: d.time[i] == (front + d.time)[|front| + i];
  }

  lemma SuffixIsOrdered(stamps: seq<Stamp>, n: nat)
    requires Sorted(stamps) && Distinct(stamps) && n <= |stamps|
    ensures Sorted(stamps[n..]) && Distinct(stamps[n..])
  {
  }

  /** While the oldest entry is too young nothing is due. */
  lemma HeldBackWaits(c: Cache, now: Time, maximum: nat)
    requires Valid(c, now) && c.last.Some? && c.last.value.at > now - c.timeout
    ensures Due(Pending(c), now - c.timeout, maximum) == [] && Leaves(c, c, 0, now)
  {
    hide Pending, Queue, Sorted, Distinct, Live;
    PendingIs(c);
    assert [] + c.time == c.time;
    assert |c.time| > 0 ==> c.time[0] in c.time;
  }

  lemma LastComesFirst(c: Cache, now: Time, maximum: nat)
    requires Valid(c, now) && LastIsDue(c, now) && maximum > 0
    ensures var expire := now - c.timeout;
            && Pending(c) == [c.last.value] + c.time
            && Due(Pending(c), expire, maximum) == [c.last.value] + Due(c.time, expire, maximum - 1)
            && Keys(Due(Pending(c), expire, maximum)) == [c.last.value.key] + Keys(Due(c.time, expire, maximum - 1))
  {
    hide Keys, Pending, Queue;
    PendingIs(c);
    KeysOfMore(c.last.value, Due(c.time, now - c.timeout, maximum - 1));
  }

  /** With a limit of zero, the refinement fails exactly when the held-back entry is due, and then every due key
      is handed out. */
  lemma ZeroIsUnlimitedIff(c: Cache, now: Time)
    requires Valid(c, now)
    ensures Expired(c, now, 0).1 != [] <==> LastIsDue(c, now)
    ensures LastIsDue(c, now) ==>
              Expired(c, now, 0).1 == Keys(Due(Pending(c), now - c.timeout, |Queue(c)|))
  {
    hide Keys, Sweep, Valid, Leaves, Pending, Due;
    if LastIsDue(c, now) {
      RestIsValid(c, now);
      SweepRefines(c.(last := None), now, -1);
      LastComesFirst(c, now, |Queue(c)|);
    } else {
      ExpiredRefines(c, now, 0);
      NoKeys();
    }
  }

  /** Under `Valid` only the held-back entry can be dead. */
  lemma PendingIs(c: Cache)
    requires forall s | s in c.time :: s.key in c.keys
    ensures Pending(c) == (if c.last.Some? && c.last.value.key in c.keys then [c.last.value] else []) + c.time
  {
    QueueOfRest(c);
    LiveIsAll(c.keys, c.time);
    assert Pending(c.(last := None)) == c.time;
  }

  lemma TouchAppends(stamps: seq<Stamp>, key: Key, now: Time)
    requires forall s | s in stamps :: s.key != key
    ensures Touch(stamps, key, now) == stamps + [Stamp(key, now)]
  {
    if |stamps| > 0 {
      assert stamps[0] in stamps;
    }
  }

  /** Setting a key that is not set adds it to the end of the plain list, unless the cache still holds back an
      entry of that key from before it was removed. */
  lemma InsertAppendsIff(c: Cache, key: Key, now: Time)
    requires Valid(c, now) && key !in c.keys
    ensures Pending(Insert(c, key, now)) == Pending(c) + [Stamp(key, now)]
       <==> !(c.last.Some? && c.last.value.key == key)
  {
    hide Pending, Queue, Sorted, Distinct;
    TouchAppends(c.time, key, now);
    var d := Insert(c, key, now);
    assert d.time == c.time + [Stamp(key, now)];
    PendingIs(c);
    PendingIs(d);
  }

  lemma InsertKeeps(c: Cache, key: Key, now: Time)
    requires Valid(c, now) && key !in c.keys && !(c.last.Some? && c.last.value.key == key)
    ensures Valid(Insert(c, key, now), now)
    ensures Queue(Insert(c, key, now)) == Queue(c) + [Stamp(key, now)]
  {
    hide Queue;
    TouchAppends(c.time, key, now);
    QueueGrows(c, Insert(c, key, now), Stamp(key, now));
  }

  lemma QueueGrows(c: Cache, d: Cache, s: Stamp)
    requires d.time == c.time + [s] && d.last == c.last
    ensures Queue(d) == Queue(c) + [s]
  {
  }

  /** Why a key must not be used again while it is held back: set at 0, removed, set again at 8 and with a
      timeout of 10, it is handed out at 10. */
  lemma HeldBackKeyReused()
    ensures var a := Expired(Insert(Cache(10, {}, [], None), 7, 0), 5, 100).0;
            var b := Insert(Remove(a, 7), 7, 8);
            a.last == Some(Stamp(7, 0)) && b.time == [Stamp(7, 8)] && Expired(b, 10, 100).1 == [7]
  {
    var c := Insert(Cache(10, {}, [], None), 7, 0);
    assert c.time == [Stamp(7, 0)];
    var a := Expired(c, 5, 100).0;
    assert a == Cache(10, {7}, [], Some(Stamp(7, 0)));
  }

  lemma {:induction false} WithoutKeeps(stamps: seq<Stamp>, key: Key)
    ensures forall s :: s in Without(stamps, key) <==> s in stamps && s.key != key
    ensures Sorted(stamps) && Distinct(stamps) ==> Sorted(Without(stamps, key)) && Distinct(Without(stamps, key))
  {
    if |stamps| == 0 {
    } else {
      WithoutKeeps(stamps[1..], key);
      var rest := Without(stamps[1..], key);
      assert forall s :: s in stamps <==> s == stamps[0] || s in stamps[1..];
      if Sorted(stamps) && Distinct(stamps) {
        HeadIsBefore(stamps, stamps[0].at);
        ConsIsOrdered(stamps[0], rest);
      }
    }
  }

  lemma ConsIsOrdered(s: Stamp, rest: seq<Stamp>)
    requires Sorted(rest) && Distinct(rest) && Before(s, rest, s.at)
    ensures Sorted([s] + rest) && Distinct([s] + rest)
  {
    assert forall i | 1 <= i < |rest| + 1 :: ([s] + rest)[i] == rest[i - 1] && rest[i - 1] in rest;
  }

  /** Removing a key removes it from the plain list and nothing else. */
  lemma RemoveRefines(c: Cache, key: Key, now: Time)
    requires Valid(c, now)
    ensures Valid(Remove(c, key), now) && Pending(Remove(c, key)) == Without(Pending(c), key)
    ensures forall s | s in Queue(Remove(c, key)) :: s in Queue(c)
  {
    hide Pending, Sorted, Distinct;
    WithoutKeeps(c.time, key);
    PendingIs(Remove(c, key));
    PendingIs(c);
    assert forall s: seq<Stamp> | s in {c.time, Without(c.time, key)} :: [] + s == s;
    if c.last.Some? {
      WithoutCons(c.last.value, c.time, key);
    }
  }

  lemma WithoutCons(s: Stamp, rest: seq<Stamp>, key: Key)
    ensures Without([s] + rest, key) == (if s.key == key then [] else [s]) + Without(rest, key)
  {
    assert ([s] + rest)[1..] == rest;
  }

  // ----- runs ---------------------------------------------------------------------------------

  datatype Event = Put(key: Key, at: Time) | Drop(key: Key) | Expire(at: Time, maximum: nat)

  /** A cache in use: `born` is every key ever set with its time, `out` every key handed out with the time it
      was. */
  datatype Run = Run(cache: Cache, now: Time, born: seq<Stamp>, out: seq<Stamp>)

  /** The clock does not go back, a key is set only once, and some key may be handed out. */
  predicate Allowed(r: Run, e: Event) {
    match e
    case Put(key, at) => at >= r.now && forall b | b in r.born :: b.key != key
    case Drop(key) => true
    case Expire(at, maximum) => at >= r.now && maximum > 0
  }

  function HandedOut(keys: seq<Key>, at: Time): (out: seq<Stamp>)
    ensures Keys(out) == keys && forall s | s in out :: s.at == at
  {
    var out := seq(|keys|, i requires 0 <= i < |keys| => Stamp(keys[i], at));
    assert Keys(out) == keys;
    out
  }

  function Next(r: Run, e: Event): Run {
    match e
    case Put(key, at) => Run(Insert(r.cache, key, at), at, r.born + [Stamp(key, at)], r.out)
    case Drop(key) => r.(cache := Remove(r.cache, key))
    case Expire(at, maximum) =>
      var (d, keys) := Expired(r.cache, at, maximum);
      Run(d, at, r.born, r.out + HandedOut(keys, at))
  }

  /** `a` is what is left of `b` when some of its elements are taken away. */
  predicate InOrder(a: seq<Key>, b: seq<Key>)
    decreases |b|
  {
    if |a| == 0 then true
    else if |b| == 0 then false
    else (a[|a| - 1] == b[|b| - 1] && InOrder(a[..|a| - 1], b[..|b| - 1])) || InOrder(a, b[..|b| - 1])
  }

  /** A key handed out was set at least `timeout` before. */
  predicate Waited(out: seq<Stamp>, born: seq<Stamp>, timeout: int) {
    forall o | o in out :: exists b | b in born :: b.key == o.key && b.at + timeout <= o.at
  }

  /** Keys that are set and were not handed out are still in line. */
  predicate NoneForgotten(r: Run) {
    forall b | b in r.born && b.key in r.cache.keys :: b.key in Keys(r.out) || b in Pending(r.cache)
  }

  predicate Good(r: Run) {
    && Valid(r.cache, r.now) && Distinct(r.born)
    && InOrder(Keys(r.out) + Keys(Pending(r.cache)), Keys(r.born))
    && Waited(r.out, r.born, r.cache.timeout)
    && NoneForgotten(r)
    && (forall s | s in Queue(r.cache) :: s in r.born)
    && (forall k | k in r.cache.keys :: k in Keys(r.born))
  }

  predicate AllowedRun(r: Run, es: seq<Event>)
    decreases |es|
  {
    |es| > 0 ==> Allowed(r, es[0]) && AllowedRun(Next(r, es[0]), es[1..])
  }

  function After(r: Run, es: seq<Event>): Run
    decreases |es|
  {
    if |es| == 0 then r else After(Next(r, es[0]), es[1..])
  }

  lemma {:induction false} OrderDrops(a: seq<Key>, i: nat, b: seq<Key>)
    requires InOrder(a, b) && i < |a|
    ensures InOrder(a[..i] + a[i + 1..], b)
    decreases |b|
  {
    var (c, d) := (a[..i] + a[i + 1..], b[..|b| - 1]);
    if InOrder(a, d) {
      OrderDrops(a, i, d);
    } else if i < |a| - 1 {
      OrderDrops(a[..|a| - 1], i, d);
      assert c[..|c| - 1] == a[..|a| - 1][..i] + a[..|a| - 1][i + 1..];
    } else {
      assert c == a[..|a| - 1];
    }
  }

  lemma {:induction false} OrderOfFirst(a: seq<Key>, more: seq<Key>, b: seq<Key>)
    requires InOrder(a + more, b)
    ensures InOrder(a, b)
    decreases |more|
  {
    if |more| == 0 {
      assert a + more == a;
    } else {
      var i := |a + more| - 1;
      OrderDrops(a + more, i, b);
      assert (a + more)[..i] + (a + more)[i + 1..] == a + more[..|more| - 1];
      OrderOfFirst(a, more[..|more| - 1], b);
    }
  }

  lemma OrderGrows(a: seq<Key>, b: seq<Key>, k: Key)
    requires InOrder(a, b)
    ensures InOrder(a + [k], b + [k])
  {
    assert (a + [k])[..|a|] == a && (b + [k])[..|b|] == b;
  }

  lemma {:induction false} OrderIsOnce(a: seq<Key>, b: seq<Key>)
    requires InOrder(a, b) && forall i, j | 0 <= i < j < |b| :: b[i] != b[j]
    ensures forall i, j | 0 <= i < j < |a| :: a[i] != a[j]
    ensures forall k | k in a :: k in b
    decreases |b|
  {
    if |a| == 0 {
    } else {
      var (x, d) := (a[..|a| - 1], b[..|b| - 1]);
      if InOrder(a, d) {
        OrderIsOnce(a, d);
      } else {
        OrderIsOnce(x, d);
        assert a == x + [a[|a| - 1]] && b == d + [a[|a| - 1]];
        assert forall i | 0 <= i < |x| :: a[i] == x[i] && x[i] in x;
      }
    }
  }

  lemma KeysAppend(a: seq<Stamp>, b: seq<Stamp>)
    ensures Keys(a + b) == Keys(a) + Keys(b)
  {
  }

  lemma InKeys(stamps: seq<Stamp>, s: Stamp)
    requires s in stamps
    ensures s.key in Keys(stamps)
  {
    var i :| 0 <= i < |stamps| && stamps[i] == s;
    assert Keys(stamps)[i] == s.key;
  }

  lemma PutKeeps(r: Run, key: Key, at: Time)
    requires Good(r) && Allowed(r, Put(key, at))
    ensures Good(Next(r, Put(key, at)))
  {
    hide Keys, InOrder, Distinct, Insert, Pending, Queue, Waited;
    var (c, s, born) := (r.cache, Stamp(key, at), r.born);
    var d := Insert(c, key, at);
    PutIsFresh(r, key);
    LaterIsValid(c, r.now, at);
    InsertKeeps(c, key, at);
    InsertAppendsIff(c, key, at);
    BornGrows(born, s);
    KeysAppend(Pending(c), [s]);
    KeysAppend(born, [s]);
    KeyOf(s);
    OrderGrows(Keys(r.out) + Keys(Pending(c)), Keys(born), key);
    assert Keys(r.out) + Keys(Pending(c)) + [key] == Keys(r.out) + Keys(Pending(d));
    StillWaited(r.out, born, s, c.timeout);
    InsertedKeys(c, key, at);
  }

  lemma InsertedKeys(c: Cache, key: Key, at: Time)
    ensures Insert(c, key, at).keys == c.keys + {key} && Insert(c, key, at).timeout == c.timeout
  {
  }

  lemma KeyOf(s: Stamp)
    ensures Keys([s]) == [s.key]
  {
  }

  lemma PutIsFresh(r: Run, key: Key)
    requires Good(r) && forall b | b in r.born :: b.key != key
    ensures key !in r.cache.keys && !(r.cache.last.Some? && r.cache.last.value.key == key)
  {
    hide Valid, InOrder, NoneForgotten, Waited, Distinct;
    if r.cache.last.Some? {
      assert Queue(r.cache)[0] == r.cache.last.value;
      assert r.cache.last.value in Queue(r.cache);
    }
    NotInKeys(r.born, key);
  }

  lemma NotInKeys(stamps: seq<Stamp>, key: Key)
    requires forall s | s in stamps :: s.key != key
    ensures key !in Keys(stamps)
  {
  }

  lemma LaterIsValid(c: Cache, now: Time, at: Time)
    requires Valid(c, now) && now <= at
    ensures Valid(c, at)
  {
  }

  lemma BornGrows(born: seq<Stamp>, s: Stamp)
    requires Distinct(born) && forall b | b in born :: b.key != s.key
    ensures Distinct(born + [s])
  {
  }

  lemma StillWaited(out: seq<Stamp>, born: seq<Stamp>, s: Stamp, timeout: int)
    requires Waited(out, born, timeout)
    ensures Waited(out, born + [s], timeout)
  {
    forall o | o in out ensures exists b | b in born + [s] :: b.key == o.key && b.at + timeout <= o.at {
      var b :| b in born && b.key == o.key && b.at + timeout <= o.at;
      assert b in born + [s];
    }
  }

  lemma DropKeeps(r: Run, key: Key)
    requires Good(r)
    ensures Good(Next(r, Drop(key)))
  {
    hide Keys, InOrder, Distinct, Pending, Queue, Waited;
    var c := r.cache;
    RemoveRefines(c, key, r.now);
    WithoutKeeps(Pending(c), key);
    PendingIsDistinct(c, r.now);
    OrderWithout(Keys(r.out), Pending(c), key, Keys(r.born));
  }

  lemma PendingIsDistinct(c: Cache, now: Time)
    requires Valid(c, now)
    ensures Distinct(Pending(c)) && Sorted(Pending(c))
  {
    hide Pending, Queue, Sorted, Distinct, Live;
    PendingIs(c);
    assert [] + c.time == c.time;
    if c.last.Some? {
      ConsIsOrdered(c.last.value, c.time);
    }
  }

  lemma OrderWithout(out: seq<Key>, stamps: seq<Stamp>, key: Key, born: seq<Key>)
    requires Distinct(stamps) && InOrder(out + Keys(stamps), born)
    ensures InOrder(out + Keys(Without(stamps, key)), born)
  {
    hide InOrder;
    if i :| 0 <= i < |stamps| && stamps[i].key == key {
      WithoutOne(stamps, i);
      var a := out + Keys(stamps);
      OrderDrops(a, |out| + i, born);
      assert a[..|out| + i] + a[|out| + i + 1..] == out + Keys(stamps[..i] + stamps[i + 1..]);
    } else {
      WithoutNothing(stamps, key);
    }
  }

  lemma {:induction false} WithoutOne(stamps: seq<Stamp>, i: nat)
    requires Distinct(stamps) && i < |stamps|
    ensures Without(stamps, stamps[i].key) == stamps[..i] + stamps[i + 1..]
    decreases |stamps|
  {
    if i == 0 {
      WithoutNothing(stamps[1..], stamps[0].key);
    } else {
      WithoutOne(stamps[1..], i - 1);
      assert stamps[..i] == [stamps[0]] + stamps[1..][..i - 1];
      assert stamps[i + 1..] == stamps[1..][i..];
    }
  }

  lemma ExpireKeeps(r: Run, at: Time, maximum: nat)
    requires Good(r) && Allowed(r, Expire(at, maximum))
    ensures Good(Next(r, Expire(at, maximum)))
  {
    hide Keys, InOrder, Distinct, Pending, Queue, Waited, Valid, Due, Expired, HandedOut, NoneForgotten;
    var c := r.cache;
    LaterIsValid(c, r.now, at);
    ExpiredRefines(c, at, maximum);
    var due := Due(Pending(c), at - c.timeout, maximum);
    var (d, keys) := Expired(c, at, maximum);
    assert Pending(c) == due + Pending(d);
    KeysAppend(due, Pending(d));
    KeysAppend(r.out, HandedOut(keys, at));
    assert Keys(r.out) + (Keys(due) + Keys(Pending(d))) == Keys(r.out) + Keys(due) + Keys(Pending(d));
    PendingIsBorn(r);
    DueHaveWaited(r, due, at);
    ExpireForgetsNone(r, Next(r, Expire(at, maximum)), due);
  }

  lemma PendingIsBorn(r: Run)
    requires forall s | s in Queue(r.cache) :: s in r.born
    ensures forall s | s in Pending(r.cache) :: s in r.born
  {
    hide Queue;
    LiveIsSome(r.cache.keys, Queue(r.cache));
  }

  lemma LiveIsSome(keys: set<Key>, stamps: seq<Stamp>)
    ensures forall s | s in Live(keys, stamps) :: s in stamps
  {
  }

  lemma DueHaveWaited(r: Run, due: seq<Stamp>, at: Time)
    requires Waited(r.out, r.born, r.cache.timeout)
    requires forall s | s in due :: s in r.born && s.at <= at - r.cache.timeout
    ensures Waited(r.out + HandedOut(Keys(due), at), r.born, r.cache.timeout)
  {
    var more := HandedOut(Keys(due), at);
    forall o | o in more ensures exists b | b in r.born :: b.key == o.key && b.at + r.cache.timeout <= o.at {
      var i :| 0 <= i < |more| && more[i] == o;
      assert Keys(more)[i] == Keys(due)[i] == due[i].key;
      assert due[i] in due;
    }
  }

  lemma ExpireForgetsNone(r: Run, next: Run, due: seq<Stamp>)
    requires NoneForgotten(r) && next.born == r.born && next.cache.keys == r.cache.keys
    requires Pending(r.cache) == due + Pending(next.cache) && Keys(next.out) == Keys(r.out) + Keys(due)
    ensures NoneForgotten(next)
  {
    hide Keys, Pending;
    forall b | b in next.born && b.key in next.cache.keys
      ensures b.key in Keys(next.out) || b in Pending(next.cache)
    {
      if b in due {
        InKeys(due, b);
      }
    }
  }

  lemma NextKeeps(r: Run, e: Event)
    requires Good(r) && Allowed(r, e)
    ensures Good(Next(r, e))
  {
    hide Good, Next;
    match e
    case Put(key, at) => PutKeeps(r, key, at);
    case Drop(key) => DropKeeps(r, key);
    case Expire(at, maximum) => ExpireKeeps(r, at, maximum);
  }

  lemma {:induction false} RunKeeps(r: Run, es: seq<Event>)
    requires Good(r) && AllowedRun(r, es)
    ensures Good(After(r, es))
    decreases |es|
  {
    hide Good, Next, Allowed;
    if |es| == 0 {
    } else {
      NextKeeps(r, es[0]);
      RunKeeps(Next(r, es[0]), es[1..]);
    }
  }

  lemma GoodIsOnce(r: Run)
    requires Good(r)
    ensures InOrder(Keys(r.out), Keys(r.born)) && Distinct(r.out)
    ensures Waited(r.out, r.born, r.cache.timeout) && NoneForgotten(r)
  {
    hide InOrder, Valid, Waited, NoneForgotten;
    OrderOfFirst(Keys(r.out), Keys(Pending(r.cache)), Keys(r.born));
    OrderIsOnce(Keys(r.out), Keys(r.born));
  }

  /** An empty cache, with its timeout. */
  function Empty(timeout: int, now: Time): Run {
    Run(Cache(timeout, {}, [], None), now, [], [])
  }

  lemma EmptyIsGood(timeout: int, now: Time)
    requires timeout > 0
    ensures Good(Empty(timeout, now))
  {
  }

  /** From an empty cache, whatever is set, removed and expired in whatever order: keys are handed out in the order
      they were set, each at most once and not before its timeout, and none that is still set is forgotten. */
  lemma EveryRunKeeps(timeout: int, now: Time, es: seq<Event>)
    requires timeout > 0 && AllowedRun(Empty(timeout, now), es)
    ensures var end := After(Empty(timeout, now), es);
            && InOrder(Keys(end.out), Keys(end.born))
            && Distinct(end.out) && Waited(end.out, end.born, end.cache.timeout) && NoneForgotten(end)
  {
    hide Good, After, AllowedRun;
    EmptyIsGood(timeout, now);
    RunKeeps(Empty(timeout, now), es);
    GoodIsOnce(After(Empty(timeout, now), es));
  }

  /** After any run from an empty cache: when fewer keys than the limit are handed out, no key that is set and
      waited long enough is left. */
  lemma NothingDueIsLeft(timeout: int, now: Time, es: seq<Event>, at: Time, maximum: nat)
    requires timeout > 0 && AllowedRun(Empty(timeout, now), es)
    requires var r := After(Empty(timeout, now), es);
             Allowed(r, Expire(at, maximum)) && |Expired(r.cache, at, maximum).1| < maximum
    ensures var next := Next(After(Empty(timeout, now), es), Expire(at, maximum));
            forall b | b in next.born && b.key in next.cache.keys && b.key !in Keys(next.out) ::
              b.at + next.cache.timeout > at
  {
    hide Keys, Pending, Valid, Expired, HandedOut, Due, Good, Sorted, Allowed, After, AllowedRun;
    EmptyIsGood(timeout, now);
    RunKeeps(Empty(timeout, now), es);
    var r := After(Empty(timeout, now), es);
    ExpireKeeps(r, at, maximum);
    RestIsYoung(r, at, maximum);
    ForgetsNone(Next(r, Expire(at, maximum)));
  }

  lemma ForgetsNone(r: Run)
    requires Good(r)
    ensures NoneForgotten(r)
  {
  }

  lemma RestIsYoung(r: Run, at: Time, maximum: nat)
    requires Good(r) && Allowed(r, Expire(at, maximum))
    requires |Expired(r.cache, at, maximum).1| < maximum
    ensures var d := Expired(r.cache, at, maximum).0;
            d.timeout == r.cache.timeout && forall b | b in Pending(d) :: b.at + d.timeout > at
  {
    hide Keys, Pending, Valid, Expired, Due, InOrder, Waited, NoneForgotten, Distinct, Queue, Sorted;
    var c := r.cache;
    LaterIsValid(c, r.now, at);
    ExpiredRefines(c, at, maximum);
    PendingIsDistinct(c, at);
    SuffixIsYoung(Pending(c), at - c.timeout, maximum);
  }

  lemma SuffixIsYoung(stamps: seq<Stamp>, expire: Time, maximum: nat)
    requires Sorted(stamps) && |Due(stamps, expire, maximum)| < maximum
    ensures forall b | b in stamps[|Due(stamps, expire, maximum)|..] :: b.at > expire
  {
    hide Due;
  }
}

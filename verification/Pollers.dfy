/** The two pollers.  The epoll poller keeps, for each event, the registered sockets and the corked ones among
    them, and tells the kernel about the others; the select poller keeps one list for each event and implements
    cork as removal and uncork as addition.  Registration is assumed to succeed.  The program has one poller, which
    all its managers share, each with names of its own. */
module Pollers {
  import opened Basics

  type Sock = nat

  /** The events the content manager and the client manager use. */
  datatype Name = OpeningDownload | ReadDownload | WriteDownload | OpeningClient | ReadClient | WriteClient

  const DOWNLOADS: set<Name> := {OpeningDownload, ReadDownload, WriteDownload}
  const CLIENTS: set<Name> := {OpeningClient, ReadClient, WriteClient}

  datatype Op = Add | Remove | Cork | Uncork

  // ----- epoll ------------------------------------------------------------------------------

  /** One event: the `sockets` and `corked` tables, and what the kernel was last told to watch. */
  datatype EpollEvent = EpollEvent(sockets: set<Sock>, corked: set<Sock>, kernel: set<Sock>)

  function EpollStep(e: EpollEvent, op: Op, s: Sock): EpollEvent {
    match op
    case Add =>
      if s !in e.sockets then e.(sockets := e.sockets + {s}, kernel := e.kernel + {s}) else e
    case Remove =>
      if s !in e.sockets then e
      else if s !in e.corked then e.(sockets := e.sockets - {s}, kernel := e.kernel - {s})
      else e.(sockets := e.sockets - {s}, corked := e.corked - {s})
    case Cork =>
      if s in e.sockets && s !in e.corked then e.(corked := e.corked + {s}, kernel := e.kernel - {s}) else e
    case Uncork =>
      if s in e.sockets && s in e.corked then e.(corked := e.corked - {s}, kernel := e.kernel + {s}) else e
  }

  // ----- select -----------------------------------------------------------------------------

  function SelectStep(l: seq<Sock>, op: Op, s: Sock): seq<Sock> {
    match op
    case Add => if s !in l then l + [s] else l
    case Uncork => if s !in l then l + [s] else l
    case Remove => Without(l, s)
    case Cork => Without(l, s)
  }

  // ----- agreement --------------------------------------------------------------------------

  predicate Distinct(l: seq<Sock>) {
    forall i, j | 0 <= i < j < |l| :: l[i] != l[j]
  }

  /** The kernel watches the sockets that are registered and not corked, and the select list holds exactly
      these, once each. */
  ghost predicate Agree(e: EpollEvent, l: seq<Sock>) {
    && e.corked <= e.sockets
    && e.kernel == e.sockets - e.corked
    && Distinct(l)
    && (forall s :: s in l <==> s in e.kernel)
  }

  /** The one thing each call must respect for the pollers to stay in step. */
  predicate Disciplined(e: EpollEvent, op: Op, s: Sock) {
    match op
    case Add => s !in e.corked
    case Uncork => s in e.sockets
    case _ => true
  }

  lemma WithoutRemoves(l: seq<Sock>, s: Sock)
    requires Distinct(l) && s in l
    ensures Distinct(Without(l, s))
    ensures forall x :: x in Without(l, s) <==> x in l && x != s
  {
    hide IndexOf;
    CutRemoves(l, IndexOf(l, s));
  }

  lemma CutRemoves(l: seq<Sock>, i: nat)
    requires Distinct(l) && i < |l|
    ensures Distinct(l[..i] + l[i + 1..])
    ensures forall x :: x in l[..i] + l[i + 1..] <==> x in l && x != l[i]
  {
    var (r, front, back) := (l[..i] + l[i + 1..], l[..i], l[i + 1..]);
    assert forall j | 0 <= j < |r| :: r[j] == l[if j < i then j else j + 1];
    hide Distinct;
    assert l == front + [l[i]] + back;
    assert forall x :: x in l <==> x in front || x == l[i] || x in back;
    NotElsewhere(l, i);
  }

  lemma NotElsewhere(l: seq<Sock>, i: nat)
    requires Distinct(l) && i < |l|
    ensures l[i] !in l[..i] && l[i] !in l[i + 1..]
  {
  }

  lemma AppendKeeps(l: seq<Sock>, s: Sock)
    requires Distinct(l) && s !in l
    ensures Distinct(l + [s])
    ensures forall x :: x in l + [s] <==> x in l || x == s
  {
  }

  /** From agreement, one call leads to agreement exactly when it is disciplined: a corked socket is not added
      again, and only a registered socket is uncorked. */
  lemma StepAgreesIff(e: EpollEvent, l: seq<Sock>, op: Op, s: Sock)
    requires Agree(e, l)
    ensures Agree(EpollStep(e, op, s), SelectStep(l, op, s)) <==> Disciplined(e, op, s)
  {
    hide Without, Distinct;
    assert s in l <==> s in e.kernel;
    if s in l {
      WithoutRemoves(l, s);
    } else {
      AppendKeeps(l, s);
      assert s in l + [s];
    }
  }

  // ----- both pollers, given the same calls ---------------------------------------------------

  datatype Watch = Watch(epoll: map<Name, EpollEvent>, select: map<Name, seq<Sock>>)

  /** These events were set up in both pollers. */
  predicate SetUp(w: Watch, names: set<Name>) {
    forall n | n in names :: n in w.epoll && n in w.select
  }

  /** And the pollers agree on them. */
  ghost predicate InStep(w: Watch, names: set<Name>) {
    SetUp(w, names) && forall n | n in names :: Agree(w.epoll[n], w.select[n])
  }

  /** From `w` to `v`, no other events than these changed. */
  ghost predicate Only(w: Watch, v: Watch, names: set<Name>) {
    forall n: Name | n !in names ::
      && (n in w.epoll <==> n in v.epoll) && (n in w.select <==> n in v.select)
      && (n in w.epoll ==> v.epoll[n] == w.epoll[n]) && (n in w.select ==> v.select[n] == w.select[n])
  }

  function Call(w: Watch, n: Name, op: Op, s: Sock): Watch
    requires n in w.epoll && n in w.select
  {
    Watch(w.epoll[n := EpollStep(w.epoll[n], op, s)], w.select[n := SelectStep(w.select[n], op, s)])
  }

  lemma CallKeeps(w: Watch, names: set<Name>, n: Name, op: Op, s: Sock)
    requires InStep(w, names) && n in names && Disciplined(w.epoll[n], op, s)
    ensures InStep(Call(w, n, op, s), names)
  {
    hide Agree, Disciplined, EpollStep, SelectStep;
    StepAgreesIff(w.epoll[n], w.select[n], op, s);
  }

  lemma CallOnly(w: Watch, names: set<Name>, n: Name, op: Op, s: Sock)
    requires SetUp(w, names) && n in names
    ensures SetUp(Call(w, n, op, s), names) && Only(w, Call(w, n, op, s), names)
  {
    hide EpollStep, SelectStep;
  }

  /** What a call does to who is watched. */
  lemma CallWatches(w: Watch, names: set<Name>, n: Name, op: Op, s: Sock, x: Sock)
    requires SetUp(w, names) && n in names && Agree(w.epoll[n], w.select[n]) && Disciplined(w.epoll[n], op, s)
    ensures var v := Call(w, n, op, s);
            && SetUp(v, names)
            && (forall m | m in names && m != n :: v.epoll[m] == w.epoll[m])
            && (x != s ==> (x in v.epoll[n].kernel <==> x in w.epoll[n].kernel))
            && (s in v.epoll[n].kernel <==>
                  match op
                  case Add => true
                  case Remove => false
                  case Cork => false
                  case Uncork => true)
  {
    hide SelectStep, Distinct;
  }

  /** A call for a socket changes nobody else's kernel entry. */
  lemma CallLeaves(w: Watch, names: set<Name>, n: Name, op: Op, s: Sock)
    requires SetUp(w, names) && n in names
    ensures var v := Call(w, n, op, s);
            SetUp(v, names) && forall m | m in names :: v.epoll[m].kernel - {s} == w.epoll[m].kernel - {s}
  {
    hide SelectStep;
    var (a, b) := (w.epoll[n].kernel, EpollStep(w.epoll[n], op, s).kernel);
    assert a - {s} == b - {s};
  }

  /** What one disciplined call of a poller in step does. */
  lemma CallTells(w: Watch, names: set<Name>, n: Name, op: Op, s: Sock)
    requires InStep(w, names) && n in names && Disciplined(w.epoll[n], op, s)
    ensures var v := Call(w, n, op, s);
            && SetUp(v, names)
            && (forall m | m in names && m != n :: v.epoll[m] == w.epoll[m])
            && (forall m | m in names :: v.epoll[m].kernel - {s} == w.epoll[m].kernel - {s})
            && (s in v.epoll[n].kernel <==> op.Add? || op.Uncork?)
            && v.epoll[n].corked <= w.epoll[n].corked + (if op.Cork? then {s} else {})
  {
    CallLeaves(w, names, n, op, s);
    CallWatches(w, names, n, op, s, s);
    hide SelectStep, Agree;
  }

  lemma OnlyTwice(u: Watch, v: Watch, w: Watch, names: set<Name>)
    requires Only(u, v, names) && Only(v, w, names)
    ensures Only(u, w, names)
  {
  }

  lemma OnlyNone(w: Watch, names: set<Name>)
    ensures Only(w, w, names)
  {
  }

  /** What others do leaves the agreement on one's own events alone. */
  lemma OthersKeep(w: Watch, v: Watch, names: set<Name>, others: set<Name>)
    requires Only(w, v, others) && names !! others && InStep(w, names)
    ensures InStep(v, names)
  {
    hide Agree;
  }

  const NOTHING := EpollEvent({}, {}, {})

  function NoWatch(): Watch {
    Watch(map[OpeningDownload := NOTHING, ReadDownload := NOTHING, WriteDownload := NOTHING,
              OpeningClient := NOTHING, ReadClient := NOTHING, WriteClient := NOTHING],
          map[OpeningDownload := [], ReadDownload := [], WriteDownload := [],
              OpeningClient := [], ReadClient := [], WriteClient := []])
  }

  /** These events were set up, and no socket was added yet. */
  predicate Empty(w: Watch, names: set<Name>) {
    SetUp(w, names) && forall n | n in names :: w.epoll[n] == NOTHING && w.select[n] == []
  }

  lemma EmptyInStep(w: Watch, names: set<Name>)
    requires Empty(w, names)
    ensures InStep(w, names)
  {
  }

  // ----- the classes --------------------------------------------------------------------------

  /** The ghost field follows what a select poller given the same calls would hold. */
  class EPoller {
    var events: map<Name, EpollEvent>
    ghost var lists: map<Name, seq<Sock>>

    ghost function Watching(): Watch
      reads this
    {
      Watch(events, lists)
    }

    constructor ()
      ensures Watching() == Watch(map[], map[])
    {
      events, lists := map[], map[];
    }

    /** `setupRead` and `setupWrite`. */
    method Setup(name: Name)
      modifies this
      ensures events == if name in old(events) then old(events) else old(events)[name := NOTHING]
      ensures lists == if name in old(lists) then old(lists) else old(lists)[name := []]
    {
      if name !in events {
        events := events[name := NOTHING];
      }
      if name !in lists {
        lists := lists[name := []];
      }
    }

    method AddSocket(name: Name, sock: Sock) returns (res: bool)
      requires SetUp(Watching(), {name})
      modifies this
      ensures Watching() == Call(old(Watching()), name, Add, sock)
      ensures res <==> sock !in old(events)[name].sockets
    {
      var e := events[name];
      res := sock !in e.sockets;
      if res {
        e := e.(sockets := e.sockets + {sock});
        e := e.(kernel := e.kernel + {sock});
      }
      events := events[name := e];
      lists := lists[name := SelectStep(lists[name], Add, sock)];
    }

    method RemoveSocket(name: Name, sock: Sock)
      requires SetUp(Watching(), {name})
      modifies this
      ensures Watching() == Call(old(Watching()), name, Remove, sock)
    {
      hide Without;
      var e := events[name];
      if sock in e.sockets {
        e := e.(sockets := e.sockets - {sock});
        if sock !in e.corked {
          e := e.(kernel := e.kernel - {sock});
        } else {
          e := e.(corked := e.corked - {sock});
        }
      }
      events := events[name := e];
      lists := lists[name := SelectStep(lists[name], Remove, sock)];
    }

    method CorkSocket(name: Name, sock: Sock) returns (res: bool)
      requires SetUp(Watching(), {name})
      modifies this
      ensures Watching() == Call(old(Watching()), name, Cork, sock)
      ensures res <==> events[name] != old(events)[name]
    {
      hide Without;
      var e := events[name];
      res := sock in e.sockets && sock !in e.corked;
      if res {
        e := e.(corked := e.corked + {sock});
        e := e.(kernel := e.kernel - {sock});
        assert sock in e.corked;
      }
      events := events[name := e];
      lists := lists[name := SelectStep(lists[name], Cork, sock)];
    }

    method UncorkSocket(name: Name, sock: Sock) returns (res: bool)
      requires SetUp(Watching(), {name})
      modifies this
      ensures Watching() == Call(old(Watching()), name, Uncork, sock)
      ensures res <==> events[name] != old(events)[name]
    {
      var e := events[name];
      res := false;
      if sock in e.sockets {
        if sock in e.corked {
          e := e.(corked := e.corked - {sock});
          e := e.(kernel := e.kernel + {sock});
          res := true;
          assert sock !in e.corked;
        }
      }
      events := events[name := e];
      lists := lists[name := SelectStep(lists[name], Uncork, sock)];
    }
  }

  class SelectPoller {
    var lists: map<Name, seq<Sock>>

    constructor ()
      ensures lists == map[]
    {
      lists := map[];
    }

    method Setup(name: Name)
      modifies this
      ensures lists == if name in old(lists) then old(lists) else old(lists)[name := []]
    {
      if name !in lists {
        lists := lists[name := []];
      }
    }

    /** Also `uncorkReadSocket` and `uncorkWriteSocket`. */
    method AddSocket(name: Name, sock: Sock)
      requires name in lists
      modifies this
      ensures lists == old(lists)[name := SelectStep(old(lists)[name], Add, sock)]
      ensures lists == old(lists)[name := SelectStep(old(lists)[name], Uncork, sock)]
    {
      if sock !in lists[name] {
        lists := lists[name := lists[name] + [sock]];
      }
    }

    /** Also `corkReadSocket` and `corkWriteSocket`. */
    method RemoveSocket(name: Name, sock: Sock)
      requires name in lists
      modifies this
      ensures lists == old(lists)[name := SelectStep(old(lists)[name], Remove, sock)]
      ensures lists == old(lists)[name := SelectStep(old(lists)[name], Cork, sock)]
    {
      var l := Basics.Remove(lists[name], sock);
      lists := lists[name := l];
    }
  }
}

/** What becomes of one client.  It is described alone, without the manager's tables, its other clients and the poller's;
    the client manager, keeping all clients in shared tables, is proved to do exactly that for each. */
module ClientLives {
  import opened Wrappers
  import opened Pollers
  import opened Clients

  // ----- a client alone -------------------------------------------------------------------------

  /** What is known of a socket: the name of its client, if there is one; whether this has sent a request; for which of
      the three events the socket is watched; and how often it is marked as having data to send. */
  datatype Life = Life(name: Option<ClientName>, asked: bool, awaited: bool, read: bool, written: bool, marks: nat)

  /** The client is cleaned up; one mark goes with it. */
  function Gone(l: Life): Life {
    Life(None, false, false, false, false, if l.marks > 0 then l.marks - 1 else 0)
  }

  /** One operation as it concerns socket `k`; `next` is the name a new client gets. */
  function Alone(l: Life, next: ClientName, e: Event, k: Sock): Life {
    if e.sock != k then l
    else match e
      case Accepting(_) => Life(Some(next), false, true, false, false, l.marks)
      case AcceptingPassthrough(_) => Life(Some(next), true, false, true, false, l.marks)
      case OpeningReadable(_, got) =>
        if l.name.None? || l.asked || got == Incomplete then l
        else if got == Closed then Gone(l)
        else l.(asked := true, awaited := false, read := false)
      case Readable(_, got) =>
        if !l.asked || got == Incomplete then l
        else if got == Closed then Gone(l)
        else l.(read := false)
      case Writing(_, sent) =>
        if !l.asked then l
        else if sent.Over? then Gone(l)
        else if sent.buffered then (if l.marks == 0 then l.(marks := 1, written := true) else l)
        else if sent.had && l.marks > 0 then l.(marks := l.marks - 1, written := false)
        else l
      case Starting(_, content, got, sent) =>
        if !l.asked || !content then l
        else if sent.Over? || got != Incomplete then Gone(l)
        else if sent == Report(true, false) then l.(read := true, marks := l.marks + 1, written := true)
        else if sent == Report(false, true) && l.marks > 0 then l.(read := true, marks := l.marks - 1, written := false)
        else l.(read := true)
      case Corking(_) => if l.asked then l.(read := false) else l
      case Uncorking(_) => if l.asked then l.(read := true) else l
      case Expiring(_) => if l.name.Some? && !l.asked then Gone(l) else l
  }

  // ----- the manager's view of it -----------------------------------------------------------------

  function View(c: Clients, k: Sock): Life
    requires Ready(c.watch)
  {
    Life(if k in c.bysock then Some(c.bysock[k]) else if k in c.norequest then Some(c.norequest[k]) else None,
         k in c.bysock, k in c.watch.epoll[OpeningClient].kernel, k in c.watch.epoll[ReadClient].kernel,
         k in c.watch.epoll[WriteClient].kernel, c.buffered[k])
  }

  /** What is not the operation's socket stays as it is. */
  lemma OthersLive(c: Clients, q: Clients, sock: Sock, k: Sock)
    requires Ready(c.watch) && Ready(q.watch) && k != sock
    requires q.bysock - {sock} == c.bysock - {sock} && q.norequest - {sock} == c.norequest - {sock}
    requires q.buffered[sock := 0] == c.buffered[sock := 0]
    requires forall n | n in CLIENTS :: q.watch.epoll[n].kernel - {sock} == c.watch.epoll[n].kernel - {sock}
    ensures View(q, k) == View(c, k)
  {
    assert k in q.bysock - {sock} <==> k in q.bysock;
    assert k in q.norequest - {sock} <==> k in q.norequest;
    assert q.buffered[sock := 0][k] == q.buffered[k] && c.buffered[sock := 0][k] == c.buffered[k];
    SameMember(c.watch.epoll[OpeningClient].kernel, q.watch.epoll[OpeningClient].kernel, sock, k);
    SameMember(c.watch.epoll[ReadClient].kernel, q.watch.epoll[ReadClient].kernel, sock, k);
    SameMember(c.watch.epoll[WriteClient].kernel, q.watch.epoll[WriteClient].kernel, sock, k);
  }

  lemma SameMember(a: set<Sock>, b: set<Sock>, sock: Sock, x: Sock)
    requires a - {sock} == b - {sock} && x != sock
    ensures x in a <==> x in b
  {
    assert x in a <==> x in a - {sock};
    assert x in b <==> x in b - {sock};
  }

  /** A socket is watched for an event only if it is registered for it. */
  lemma WatchedIs(c: Clients, k: Sock)
    requires Inv(c)
    ensures k in c.watch.epoll[OpeningClient].kernel <==> k in c.norequest
    ensures k in c.watch.epoll[ReadClient].kernel ==> k in c.bysock
    ensures k in c.watch.epoll[WriteClient].kernel ==> k in c.bysock
    ensures k in c.norequest ==> k !in c.bysock
    ensures forall n | n in CLIENTS :: c.watch.epoll[n].corked <= c.watch.epoll[n].sockets
  {
    assert Agree(c.watch.epoll[OpeningClient], c.watch.select[OpeningClient]);
    assert Agree(c.watch.epoll[ReadClient], c.watch.select[ReadClient]);
    assert Agree(c.watch.epoll[WriteClient], c.watch.select[WriteClient]);
  }

  // ----- each operation -----------------------------------------------------------------------------

  lemma AcceptLives(c: Clients, sock: Sock, k: Sock)
    requires Inv(c) && sock !in c.norequest && sock !in c.bysock
    ensures Ready(Accept(c, sock).watch)
    ensures View(Accept(c, sock), k) == Alone(View(c, k), c.nextid + 1, Accepting(sock), k)
  {
    WatchedIs(c, sock);
    CallTells(c.watch, CLIENTS, OpeningClient, Add, sock);
    hide Inv, Call;
    if k != sock {
      OthersLive(c, Accept(c, sock), sock, k);
    }
  }

  lemma AcceptPassthroughLives(c: Clients, sock: Sock, k: Sock)
    requires Inv(c) && sock !in c.norequest && sock !in c.bysock
    ensures Ready(AcceptPassthrough(c, sock).watch)
    ensures View(AcceptPassthrough(c, sock), k) == Alone(View(c, k), c.nextid + 1, AcceptingPassthrough(sock), k)
  {
    WatchedIs(c, sock);
    CallTells(c.watch, CLIENTS, ReadClient, Add, sock);
    hide Inv, Call;
    if k != sock {
      OthersLive(c, AcceptPassthrough(c, sock), sock, k);
    }
  }

  lemma CleanupTells(w: Watch, sock: Sock)
    requires Ready(w) && InStep(w, CLIENTS)
    ensures var v := CleanupWatch(w, sock);
            && Ready(v)
            && (forall n | n in CLIENTS :: v.epoll[n].kernel - {sock} == w.epoll[n].kernel - {sock})
            && (forall n | n in CLIENTS :: sock !in v.epoll[n].kernel)
  {
    hide Agree, Call;
    CallKeeps(w, CLIENTS, WriteClient, Remove, sock);
    CallTells(w, CLIENTS, WriteClient, Remove, sock);
    var a := Call(w, WriteClient, Remove, sock);
    CallKeeps(a, CLIENTS, ReadClient, Remove, sock);
    CallTells(a, CLIENTS, ReadClient, Remove, sock);
    CallTells(Call(a, ReadClient, Remove, sock), CLIENTS, OpeningClient, Remove, sock);
  }

  /** Cleaning up a client, whatever was just done about reading from it. */
  lemma CleanupLives(c: Clients, sock: Sock, name: ClientName, k: Sock)
    requires Ready(c.watch) && InStep(c.watch, CLIENTS) && (sock in c.norequest || sock in c.bysock)
    ensures Ready(Cleanup(c, sock, name).watch)
    ensures View(Cleanup(c, sock, name), k) == if k == sock then Gone(View(c, k)) else View(c, k)
  {
    hide InStep, CleanupWatch;
    CleanupTells(c.watch, sock);
    if k != sock {
      var q := Cleanup(c, sock, name);
      assert q.bysock - {sock} == c.bysock - {sock} && q.norequest - {sock} == c.norequest - {sock};
      assert q.buffered[sock := 0] == c.buffered[sock := 0];
      OthersLive(c, q, sock, k);
    }
  }

  lemma RequestTells(w: Watch, sock: Sock)
    requires Ready(w) && InStep(w, CLIENTS) && sock !in w.epoll[ReadClient].corked
    ensures var v := RequestWatch(w, sock);
            && Ready(v)
            && (forall n | n in CLIENTS :: v.epoll[n].kernel - {sock} == w.epoll[n].kernel - {sock})
            && sock !in v.epoll[OpeningClient].kernel && sock !in v.epoll[ReadClient].kernel
            && v.epoll[WriteClient] == w.epoll[WriteClient]
  {
    hide Agree, Call;
    CallKeeps(w, CLIENTS, ReadClient, Add, sock);
    CallTells(w, CLIENTS, ReadClient, Add, sock);
    var a := Call(w, ReadClient, Add, sock);
    CallKeeps(a, CLIENTS, OpeningClient, Remove, sock);
    CallTells(a, CLIENTS, OpeningClient, Remove, sock);
    CallTells(Call(a, OpeningClient, Remove, sock), CLIENTS, ReadClient, Cork, sock);
  }

  lemma RequestLives(c: Clients, sock: Sock, got: Got, k: Sock)
    requires Inv(c)
    ensures Ready(ReadRequest(c, sock, got).watch)
    ensures View(ReadRequest(c, sock, got), k) == Alone(View(c, k), 0, OpeningReadable(sock, got), k)
  {
    hide Books, Agree, CleanupWatch, RequestWatch, Cleanup;
    WatchedIs(c, sock);
    if sock in c.norequest {
      CleanupLives(c, sock, c.norequest[sock], k);
      RequestTells(c.watch, sock);
      hide InStep;
      var q := ReadRequest(c, sock, got);
      if k != sock && got == Request {
        assert q.bysock - {sock} == c.bysock - {sock} && q.norequest - {sock} == c.norequest - {sock};
        OthersLive(c, q, sock, k);
      }
    }
  }

  /** Reading from a client stops or goes on. */
  lemma PollLives(c: Clients, op: Op, sock: Sock, k: Sock)
    requires Inv(c) && sock in c.bysock && (op.Cork? || op.Uncork?)
    ensures var q := Tell(c, ReadClient, op, sock);
            && Ready(q.watch) && InStep(q.watch, CLIENTS)
            && View(q, k) == if k == sock then View(c, k).(read := op.Uncork?) else View(c, k)
  {
    CallTells(c.watch, CLIENTS, ReadClient, op, sock);
    CallKeeps(c.watch, CLIENTS, ReadClient, op, sock);
    hide Inv, Call, InStep;
    if k != sock {
      OthersLive(c, Tell(c, ReadClient, op, sock), sock, k);
    }
  }

  lemma AppendLives(c: Clients, sock: Sock, k: Sock)
    requires Ready(c.watch) && InStep(c.watch, CLIENTS) && sock !in c.watch.epoll[WriteClient].corked
    ensures Ready(Append(c, sock).watch)
    ensures View(Append(c, sock), k) ==
            if k == sock then View(c, k).(marks := View(c, k).marks + 1, written := true) else View(c, k)
  {
    CallTells(c.watch, CLIENTS, WriteClient, Add, sock);
    hide Call, InStep;
    if k != sock {
      assert Append(c, sock).buffered[sock := 0] == c.buffered[sock := 0];
      OthersLive(c, Append(c, sock), sock, k);
    }
  }

  lemma UnmarkLives(c: Clients, sock: Sock, k: Sock)
    requires Ready(c.watch) && InStep(c.watch, CLIENTS) && sock in c.buffered
    ensures Ready(Unmark(c, sock).watch)
    ensures View(Unmark(c, sock), k) ==
            if k == sock then View(c, k).(marks := View(c, k).marks - 1, written := false) else View(c, k)
  {
    CallTells(c.watch, CLIENTS, WriteClient, Remove, sock);
    hide Call, InStep;
    if k != sock {
      assert Unmark(c, sock).buffered[sock := 0] == c.buffered[sock := 0];
      OthersLive(c, Unmark(c, sock), sock, k);
    }
  }

  lemma WriteIsNeverCorked(c: Clients, sock: Sock)
    requires Inv(c)
    ensures Ready(c.watch) && InStep(c.watch, CLIENTS) && sock !in c.watch.epoll[WriteClient].corked
    ensures sock in c.norequest ==> sock !in c.bysock
  {
    hide InStep;
  }

  lemma SendLives(c: Clients, sock: Sock, sent: Sent, k: Sock)
    requires Inv(c)
    ensures Ready(SendData(c, sock, sent).watch)
    ensures View(SendData(c, sock, sent), k) == Alone(View(c, k), 0, Writing(sock, sent), k)
  {
    hide Inv, InStep, Cleanup, Append, Unmark;
    WriteIsNeverCorked(c, sock);
    if sock in c.bysock {
      CleanupLives(c, sock, c.bysock[sock], k);
      AppendLives(c, sock, k);
      if sock in c.buffered {
        UnmarkLives(c, sock, k);
      }
    }
  }

  lemma StartLives(c: Clients, sock: Sock, content: bool, got: Got, sent: Sent, k: Sock)
    requires Inv(c)
    ensures Ready(StartData(c, sock, content, got, sent).watch)
    ensures View(StartData(c, sock, content, got, sent), k) == Alone(View(c, k), 0, Starting(sock, content, got, sent), k)
  {
    hide Inv, InStep, Cleanup, Append, Unmark, Call;
    WriteIsNeverCorked(c, sock);
    if sock in c.bysock && content {
      if sent.Over? {
        CleanupLives(c, sock, c.bysock[sock], k);
      } else {
        PollLives(c, Uncork, sock, k);
        var a := Tell(c, ReadClient, Uncork, sock);
        assert a.watch.epoll[WriteClient] == c.watch.epoll[WriteClient] by {
          TellLeavesWriting(c, sock);
        }
        if got != Incomplete {
          CleanupLives(a, sock, c.bysock[sock], k);
        } else if sent == Report(true, false) {
          AppendLives(a, sock, k);
        } else if sent == Report(false, true) && sock in c.buffered {
          UnmarkLives(a, sock, k);
        }
      }
    }
  }

  lemma TellLeavesWriting(c: Clients, sock: Sock)
    requires Ready(c.watch)
    ensures Ready(Tell(c, ReadClient, Uncork, sock).watch)
    ensures Tell(c, ReadClient, Uncork, sock).watch.epoll[WriteClient] == c.watch.epoll[WriteClient]
  {
    hide EpollStep, SelectStep;
  }

  lemma ReadLives(c: Clients, sock: Sock, got: Got, k: Sock)
    requires Inv(c)
    ensures Ready(ReadData(c, sock, got).watch)
    ensures View(ReadData(c, sock, got), k) == Alone(View(c, k), 0, Readable(sock, got), k)
  {
    hide Inv, InStep, Cleanup, Call;
    WriteIsNeverCorked(c, sock);
    if sock in c.bysock {
      CleanupLives(c, sock, c.bysock[sock], k);
      PollLives(c, Cork, sock, k);
    }
  }

  lemma CorkLives(c: Clients, sock: Sock, k: Sock)
    requires Inv(c)
    ensures Ready(CorkUpload(c, sock).watch) && Ready(UncorkUpload(c, sock).watch)
    ensures View(CorkUpload(c, sock), k) == Alone(View(c, k), 0, Corking(sock), k)
    ensures View(UncorkUpload(c, sock), k) == Alone(View(c, k), 0, Uncorking(sock), k)
  {
    hide Inv, InStep, Call;
    WriteIsNeverCorked(c, sock);
    if sock in c.bysock {
      PollLives(c, Cork, sock, k);
      PollLives(c, Uncork, sock, k);
    }
  }

  lemma ExpireLives(c: Clients, sock: Sock, k: Sock)
    requires Inv(c)
    ensures Ready(Next(c, Expiring(sock)).watch)
    ensures View(Next(c, Expiring(sock)), k) == Alone(View(c, k), 0, Expiring(sock), k)
  {
    hide Inv, InStep, Cleanup;
    WriteIsNeverCorked(c, sock);
    if sock in c.norequest {
      CleanupLives(c, sock, c.norequest[sock], k);
    }
  }

  /** In every operation, what is known of each socket becomes what it would if the client were alone; and names are
      given out one after the other. */
  lemma NextIsAlone(c: Clients, e: Event, k: Sock)
    requires Inv(c) && Enabled(c, e)
    ensures Ready(c.watch) && Ready(Next(c, e).watch)
    ensures View(Next(c, e), k) == Alone(View(c, k), c.nextid + 1, e, k)
    ensures Next(c, e).nextid == c.nextid + (if e.Accepting? || e.AcceptingPassthrough? then 1 else 0)
  {
    hide Inv, View, Accept, AcceptPassthrough, ReadRequest, ReadData, SendData, StartData, CorkUpload, UncorkUpload, Cleanup;
    hide Ready;
    InvReady(c);
    NamesAre(c, e);
    match e {
      case Accepting(s) => AcceptLives(c, s, k);
      case AcceptingPassthrough(s) => AcceptPassthroughLives(c, s, k);
      case OpeningReadable(s, got) => RequestLives(c, s, got, k);
      case Readable(s, got) => ReadLives(c, s, got, k);
      case Writing(s, sent) => SendLives(c, s, sent, k);
      case Starting(s, content, got, sent) => StartLives(c, s, content, got, sent, k);
      case Corking(s) => CorkLives(c, s, k);
      case Uncorking(s) => CorkLives(c, s, k);
      case Expiring(s) => ExpireLives(c, s, k);
    }
  }

  lemma NamesAre(c: Clients, e: Event)
    requires Ready(c.watch)
    ensures Next(c, e).nextid == c.nextid + (if e.Accepting? || e.AcceptingPassthrough? then 1 else 0)
  {
    hide Call, CleanupWatch, RequestWatch;
  }

  /** The operations of a run, one after the other; `next` is the name the next new client gets. */
  function AloneAll(l: Life, next: ClientName, es: seq<Event>, k: Sock): Life
    decreases |es|
  {
    if |es| == 0 then l
    else
      AloneAll(Alone(l, next, es[0], k), next + (if es[0].Accepting? || es[0].AcceptingPassthrough? then 1 else 0),
               es[1..], k)
  }

  lemma {:induction false} RunIsAlone(c: Clients, es: seq<Event>, k: Sock)
    requires Inv(c) && EnabledAll(c, es)
    ensures Ready(c.watch) && Ready(Run(c, es).watch)
    ensures View(Run(c, es), k) == AloneAll(View(c, k), c.nextid + 1, es, k)
    decreases |es|
  {
    hide Inv, View, Alone, Next, Enabled, Ready;
    InvReady(c);
    if |es| == 0 {
    } else {
      NextIsAlone(c, es[0], k);
      NextKeeps(c, es[0]);
      RunIsAlone(Next(c, es[0]), es[1..], k);
    }
  }

  /** After any operations from the start, what is known of every socket is what these operations make of it alone. */
  lemma EveryRunIsAlone(es: seq<Event>, k: Sock)
    requires EnabledAll(INITIAL, es)
    ensures Ready(Run(INITIAL, es).watch)
    ensures View(Run(INITIAL, es), k) == AloneAll(Life(None, false, false, false, false, 0), 1, es, k)
  {
    hide Run, EnabledAll, AloneAll;
    EmptyInStep(NoWatch(), CLIENTS);
    RunIsAlone(INITIAL, es, k);
  }
}

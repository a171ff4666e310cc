/** The bookkeeping of `ClientManager`: clients that have not sent a request, clients that have, their names,
    the sockets marked as having unsent data, and what both pollers are told. */
module Clients {
  import opened Wrappers
  import opened Pollers

  type ClientName = nat

  /** `buffered` is a list in the program; only how often a socket is in it matters. */
  datatype Clients = Clients(
    norequest: map<Sock, ClientName>,
    bysock: map<Sock, ClientName>,
    byname: map<ClientName, Sock>,
    buffered: multiset<Sock>,
    nextid: ClientName,
    watch: Watch)

  /** What reading from a client gives: nothing complete, a request, or the end of the connection. */
  datatype Got = Incomplete | Request | Closed

  /** What writing to a client gives: the connection is over; or the client's report whether it now has data to
      send, and whether it had before. */
  datatype Sent = Over | Report(buffered: bool, had: bool)

  predicate Ready(w: Watch) {
    SetUp(w, CLIENTS)
  }

  function Tell(c: Clients, n: Name, op: Op, s: Sock): Clients
    requires n in c.watch.epoll && n in c.watch.select
  {
    c.(watch := Call(c.watch, n, op, s))
  }

  // ----- operations -------------------------------------------------------------------------

  /** `httpConnection`, `icapConnection` and `tlsConnection`. */
  function Accept(c: Clients, sock: Sock): Clients
    requires Ready(c.watch)
  {
    Tell(c.(norequest := c.norequest[sock := c.nextid + 1], byname := c.byname[c.nextid + 1 := sock], nextid := c.nextid + 1),
         OpeningClient, Add, sock)
  }

  /** `passthroughConnection`. */
  function AcceptPassthrough(c: Clients, sock: Sock): Clients
    requires Ready(c.watch)
  {
    Tell(c.(bysock := c.bysock[sock := c.nextid + 1], byname := c.byname[c.nextid + 1 := sock], nextid := c.nextid + 1),
         ReadClient, Add, sock)
  }

  function Cleanup(c: Clients, sock: Sock, name: ClientName): Clients
    requires Ready(c.watch)
  {
    c.(bysock := c.bysock - {sock}, norequest := c.norequest - {sock}, byname := c.byname - {name},
       buffered := c.buffered - multiset{sock},
       watch := if sock in c.bysock || sock in c.norequest then CleanupWatch(c.watch, sock) else c.watch)
  }

  /** What the poller is told when a client's socket is closed. */
  function CleanupWatch(w: Watch, sock: Sock): Watch
    requires Ready(w)
  {
    Call(Call(Call(w, WriteClient, Remove, sock), ReadClient, Remove, sock), OpeningClient, Remove, sock)
  }

  /** What the poller is told when a client's first request is there. */
  function RequestWatch(w: Watch, sock: Sock): Watch
    requires Ready(w)
  {
    Call(Call(Call(w, ReadClient, Add, sock), OpeningClient, Remove, sock), ReadClient, Cork, sock)
  }

  /** `readRequest`: a first request moves the client, whose socket is not read until the request is handled. */
  function ReadRequest(c: Clients, sock: Sock, got: Got): Clients
    requires Ready(c.watch)
  {
    if sock !in c.norequest || got == Incomplete then c
    else if got == Closed then Cleanup(c, sock, c.norequest[sock])
    else
      c.(norequest := c.norequest - {sock}, bysock := c.bysock[sock := c.norequest[sock]],
         watch := RequestWatch(c.watch, sock))
  }

  function ReadData(c: Clients, sock: Sock, got: Got): Clients
    requires Ready(c.watch)
  {
    if sock !in c.bysock || got == Incomplete then c
    else if got == Closed then Cleanup(c, sock, c.bysock[sock])
    else Tell(c, ReadClient, Cork, sock)
  }

  function Append(c: Clients, sock: Sock): Clients
    requires Ready(c.watch)
  {
    Tell(c.(buffered := c.buffered + multiset{sock}), WriteClient, Add, sock)
  }

  function Unmark(c: Clients, sock: Sock): Clients
    requires Ready(c.watch)
  {
    Tell(c.(buffered := c.buffered - multiset{sock}), WriteClient, Remove, sock)
  }

  function SendData(c: Clients, sock: Sock, sent: Sent): Clients
    requires Ready(c.watch)
  {
    if sock !in c.bysock then c
    else if sent.Over? then Cleanup(c, sock, c.bysock[sock])
    else if sent.buffered then (if sock !in c.buffered then Append(c, sock) else c)
    else if sent.had && sock in c.buffered then Unmark(c, sock)
    else c
  }

  /** `startData`: `content` says whether there is anything to send; writing an unknown command is over at once. */
  function StartData(c: Clients, sock: Sock, content: bool, got: Got, sent: Sent): Clients
    requires Ready(c.watch)
  {
    if sock !in c.bysock || !content then c
    else if sent.Over? then Cleanup(c, sock, c.bysock[sock])
    else
      var a := Tell(c, ReadClient, Uncork, sock);
      if got != Incomplete then Cleanup(a, sock, c.bysock[sock])
      else if sent == Report(true, false) then Append(a, sock)
      else if sent == Report(false, true) && sock in c.buffered then Unmark(a, sock)
      else a
  }

  /** When `startData` raises an exception: it removes from the list a socket that is not there. */
  predicate StartRaises(c: Clients, sock: Sock, content: bool, got: Got, sent: Sent) {
    sock in c.bysock && content && got == Incomplete && sent == Report(false, true) && sock !in c.buffered
  }

  function CorkUpload(c: Clients, sock: Sock): Clients
    requires Ready(c.watch)
  {
    if sock in c.bysock then Tell(c, ReadClient, Cork, sock) else c
  }

  function UncorkUpload(c: Clients, sock: Sock): Clients
    requires Ready(c.watch)
  {
    if sock in c.bysock then Tell(c, ReadClient, Uncork, sock) else c
  }

  // ----- what every operation keeps ----------------------------------------------------------

  /** A client either has sent a request or has not; names and sockets correspond one to one. */
  ghost predicate Books(c: Clients) {
    && c.norequest.Keys !! c.bysock.Keys
    && (forall s | s in c.norequest :: c.norequest[s] in c.byname && c.byname[c.norequest[s]] == s)
    && (forall s | s in c.bysock :: c.bysock[s] in c.byname && c.byname[c.bysock[s]] == s)
    && (forall n | n in c.byname :: n <= c.nextid &&
          (if c.byname[n] in c.norequest then c.norequest[c.byname[n]] == n
           else c.byname[n] in c.bysock && c.bysock[c.byname[n]] == n))
  }

  /** Sockets are registered for their first request exactly while there was none, for reading exactly
      afterwards, and for writing only then and only when marked; nothing else is watched, and only reading is ever
      corked. */
  ghost predicate Watched(c: Clients) {
    && Ready(c.watch)
    && InStep(c.watch, CLIENTS)
    && c.watch.epoll[OpeningClient].sockets == c.norequest.Keys
    && c.watch.epoll[ReadClient].sockets == c.bysock.Keys
    && c.watch.epoll[WriteClient].sockets <= c.bysock.Keys
    && (forall s | s in c.watch.epoll[WriteClient].sockets :: s in c.buffered)
    && c.watch.epoll[OpeningClient].corked == c.watch.epoll[WriteClient].corked == {}
  }

  ghost predicate Inv(c: Clients) {
    Books(c) && Watched(c)
  }

  lemma TellKeeps(c: Clients, n: Name, op: Op, s: Sock)
    requires Ready(c.watch) && InStep(c.watch, CLIENTS) && n in CLIENTS
    requires Disciplined(c.watch.epoll[n], op, s)
    ensures Ready(Tell(c, n, op, s).watch) && InStep(Tell(c, n, op, s).watch, CLIENTS)
  {
    CallKeeps(c.watch, CLIENTS, n, op, s);
  }

  lemma CorkedIsRegistered(c: Clients, n: Name)
    requires InStep(c.watch, CLIENTS) && n in CLIENTS
    ensures c.watch.epoll[n].corked <= c.watch.epoll[n].sockets
  {
  }

  lemma NextIsNew(c: Clients)
    requires Books(c)
    ensures c.nextid + 1 !in c.byname
    ensures forall s | s in c.norequest :: c.norequest[s] != c.nextid + 1
    ensures forall s | s in c.bysock :: c.bysock[s] != c.nextid + 1
  {
  }

  lemma AcceptBooks(c: Clients, sock: Sock)
    requires Books(c) && Ready(c.watch) && sock !in c.norequest && sock !in c.bysock
    ensures Books(Accept(c, sock))
  {
    hide Ready, Call;
    NextIsNew(c);
  }

  lemma AcceptPassthroughBooks(c: Clients, sock: Sock)
    requires Books(c) && Ready(c.watch) && sock !in c.norequest && sock !in c.bysock
    ensures Books(AcceptPassthrough(c, sock))
  {
    hide Ready, Call;
    NextIsNew(c);
  }

  lemma AcceptKeeps(c: Clients, sock: Sock)
    requires Inv(c) && sock !in c.norequest && sock !in c.bysock
    ensures Inv(Accept(c, sock))
  {
    hide InStep, Books, EpollStep, SelectStep, Agree;
    AcceptBooks(c, sock);
    AddNewKeeps(c.watch, OpeningClient, sock);
  }

  lemma AcceptPassthroughKeeps(c: Clients, sock: Sock)
    requires Inv(c) && sock !in c.norequest && sock !in c.bysock
    ensures Inv(AcceptPassthrough(c, sock))
  {
    hide InStep, Books, EpollStep, SelectStep, Agree;
    AcceptPassthroughBooks(c, sock);
    AddNewKeeps(c.watch, ReadClient, sock);
  }

  lemma AddNewKeeps(w: Watch, n: Name, sock: Sock)
    requires InStep(w, CLIENTS) && n in CLIENTS && sock !in w.epoll[n].sockets
    ensures var v := Call(w, n, Add, sock);
            && Ready(v) && InStep(v, CLIENTS)
            && v.epoll[n].sockets == w.epoll[n].sockets + {sock} && v.epoll[n].corked == w.epoll[n].corked
            && forall m | m in CLIENTS && m != n :: v.epoll[m] == w.epoll[m]
  {
    assert w.epoll[n].corked <= w.epoll[n].sockets;
    hide InStep, SelectStep, Agree;
    CallKeeps(w, CLIENTS, n, Add, sock);
  }

  lemma CleanupBooks(c: Clients, sock: Sock, name: ClientName)
    requires Books(c) && Ready(c.watch)
    requires (sock in c.norequest && c.norequest[sock] == name) || (sock in c.bysock && c.bysock[sock] == name)
    ensures var q := Cleanup(c, sock, name);
            && Books(q) && q.norequest == c.norequest - {sock} && q.bysock == c.bysock - {sock}
            && name !in q.byname
  {
    hide Ready, Call;
  }

  lemma CleanupWatchKeeps(w: Watch, sock: Sock)
    requires Ready(w) && InStep(w, CLIENTS) && w.epoll[OpeningClient].corked == w.epoll[WriteClient].corked == {}
    ensures var v := CleanupWatch(w, sock);
            && Ready(v) && InStep(v, CLIENTS)
            && (forall n | n in CLIENTS ::
                  v.epoll[n].sockets == w.epoll[n].sockets - {sock})
            && v.epoll[OpeningClient].corked == v.epoll[WriteClient].corked == {}
  {
    hide InStep, Agree, SelectStep;
    var a := Call(w, WriteClient, Remove, sock);
    CallKeeps(w, CLIENTS, WriteClient, Remove, sock);
    var b := Call(a, ReadClient, Remove, sock);
    CallKeeps(a, CLIENTS, ReadClient, Remove, sock);
    CallKeeps(b, CLIENTS, OpeningClient, Remove, sock);
  }

  /** The socket of a client and its name, or neither. */
  predicate Matching(c: Clients, sock: Sock, name: ClientName) {
    || (sock in c.norequest && c.norequest[sock] == name)
    || (sock in c.bysock && c.bysock[sock] == name)
    || (sock !in c.norequest && sock !in c.bysock && name !in c.byname)
  }

  /** Cleaning up leaves the closed socket registered nowhere. */
  lemma CleanupKeeps(c: Clients, sock: Sock, name: ClientName)
    requires Inv(c)
    requires Matching(c, sock, name)
    ensures var q := Cleanup(c, sock, name);
            && Inv(q) && name !in q.byname
            && forall n | n in CLIENTS :: sock !in q.watch.epoll[n].sockets
  {
    hide InStep, Books, CleanupWatch, Cleanup;
    if sock in c.norequest || sock in c.bysock {
      KnownCleanupKeeps(c, sock, name);
    } else {
      UnknownCleanupKeeps(c, sock, name);
    }
  }

  lemma KnownCleanupKeeps(c: Clients, sock: Sock, name: ClientName)
    requires Inv(c) && Matching(c, sock, name) && (sock in c.norequest || sock in c.bysock)
    ensures var q := Cleanup(c, sock, name);
            && Inv(q) && name !in q.byname
            && forall n | n in CLIENTS :: sock !in q.watch.epoll[n].sockets
  {
    hide InStep, Books, CleanupWatch;
    CleanupBooks(c, sock, name);
    CleanupWatchKeeps(c.watch, sock);
  }

  lemma UnknownCleanupKeeps(c: Clients, sock: Sock, name: ClientName)
    requires Inv(c) && sock !in c.norequest && sock !in c.bysock && name !in c.byname
    ensures var q := Cleanup(c, sock, name);
            && Inv(q) && name !in q.byname
            && forall n | n in CLIENTS :: sock !in q.watch.epoll[n].sockets
  {
    hide InStep, Books, CleanupWatch;
    assert c.norequest - {sock} == c.norequest && c.bysock - {sock} == c.bysock && c.byname - {name} == c.byname;
    AnyBuffered(c, Cleanup(c, sock, name));
  }

  /** The names, tables and sockets match or not whatever is marked. */
  lemma AnyBuffered(c: Clients, q: Clients)
    requires Books(c) && q == c.(buffered := q.buffered)
    ensures Books(q)
  {
  }

  lemma FirstRequestBooks(c: Clients, sock: Sock)
    requires Books(c) && Ready(c.watch) && sock in c.norequest
    ensures var q := ReadRequest(c, sock, Request);
            Books(q) && q.norequest == c.norequest - {sock} && q.bysock == c.bysock[sock := c.norequest[sock]] &&
            sock !in c.bysock
  {
    hide Ready, Call;
  }

  lemma RequestWatchKeeps(w: Watch, sock: Sock)
    requires Ready(w) && InStep(w, CLIENTS) && w.epoll[OpeningClient].corked == {}
    requires sock in w.epoll[OpeningClient].sockets && sock !in w.epoll[ReadClient].sockets
    ensures var v := RequestWatch(w, sock);
            && Ready(v) && InStep(v, CLIENTS)
            && v.epoll[OpeningClient].sockets == w.epoll[OpeningClient].sockets - {sock}
            && v.epoll[ReadClient].sockets == w.epoll[ReadClient].sockets + {sock}
            && v.epoll[WriteClient] == w.epoll[WriteClient]
            && v.epoll[OpeningClient].corked == {}
  {
    assert w.epoll[ReadClient].corked <= w.epoll[ReadClient].sockets;
    hide InStep, Agree, SelectStep;
    var a := Call(w, ReadClient, Add, sock);
    CallKeeps(w, CLIENTS, ReadClient, Add, sock);
    var b := Call(a, OpeningClient, Remove, sock);
    CallKeeps(a, CLIENTS, OpeningClient, Remove, sock);
    CallKeeps(b, CLIENTS, ReadClient, Cork, sock);
  }

  lemma ReadRequestKeeps(c: Clients, sock: Sock, got: Got)
    requires Inv(c)
    ensures Inv(ReadRequest(c, sock, got))
  {
    hide Cleanup, InStep, Call;
    if sock in c.norequest {
      if got == Closed {
        hide Books, Watched;
        CleanupKeeps(c, sock, c.norequest[sock]);
      } else if got == Request {
        FirstRequestBooks(c, sock);
        hide Books;
        RequestWatchKeeps(c.watch, sock);
        hide RequestWatch;
      }
    }
  }

  /** Corking and uncorking a client that sent a request. */
  lemma PollKeeps(c: Clients, op: Op, sock: Sock)
    requires Inv(c) && sock in c.bysock && op in {Cork, Uncork}
    ensures Inv(Tell(c, ReadClient, op, sock))
  {
    CorkedIsRegistered(c, ReadClient);
    hide InStep, Agree, SelectStep;
    TellKeeps(c, ReadClient, op, sock);
  }

  lemma MarkKeeps(c: Clients, sock: Sock)
    requires Inv(c) && sock in c.bysock
    ensures Inv(Append(c, sock)) && Inv(Unmark(c, sock))
  {
    hide InStep, Agree, SelectStep;
    TellKeeps(c.(buffered := c.buffered + multiset{sock}), WriteClient, Add, sock);
    TellKeeps(c.(buffered := c.buffered - multiset{sock}), WriteClient, Remove, sock);
  }

  lemma SendDataKeeps(c: Clients, sock: Sock, sent: Sent)
    requires Inv(c)
    ensures Inv(SendData(c, sock, sent))
  {
    hide Books, Watched, Tell, Cleanup, Append, Unmark;
    if sock in c.bysock {
      CleanupKeeps(c, sock, c.bysock[sock]);
      MarkKeeps(c, sock);
    }
  }

  lemma InvReady(c: Clients)
    requires Inv(c)
    ensures Ready(c.watch) && ReadClient in c.watch.epoll && ReadClient in c.watch.select
  {
  }

  lemma StartDataKeeps(c: Clients, sock: Sock, content: bool, got: Got, sent: Sent)
    requires Inv(c)
    ensures Inv(StartData(c, sock, content, got, sent))
  {
    hide Books, Watched, Cleanup, Append, Unmark, Call, Ready;
    if sock in c.bysock && content {
      InvReady(c);
      CleanupKeeps(c, sock, c.bysock[sock]);
      PollKeeps(c, Uncork, sock);
      var a := Tell(c, ReadClient, Uncork, sock);
      InvReady(a);
      CleanupKeeps(a, sock, c.bysock[sock]);
      MarkKeeps(a, sock);
    }
  }

  // ----- runs -------------------------------------------------------------------------------

  datatype Event =
    | Accepting(sock: Sock)
    | AcceptingPassthrough(sock: Sock)
    | OpeningReadable(sock: Sock, got: Got)
    | Readable(sock: Sock, got: Got)
    | Writing(sock: Sock, sent: Sent)
    | Starting(sock: Sock, content: bool, got: Got, sent: Sent)
    | Corking(sock: Sock)
    | Uncorking(sock: Sock)
    | Expiring(sock: Sock)

  predicate Enabled(c: Clients, e: Event) {
    match e
    case Accepting(s) => s !in c.norequest && s !in c.bysock
    case AcceptingPassthrough(s) => s !in c.norequest && s !in c.bysock
    case _ => true
  }

  function Next(c: Clients, e: Event): Clients
    requires Ready(c.watch)
  {
    match e
    case Accepting(s) => Accept(c, s)
    case AcceptingPassthrough(s) => AcceptPassthrough(c, s)
    case OpeningReadable(s, got) => ReadRequest(c, s, got)
    case Readable(s, got) => ReadData(c, s, got)
    case Writing(s, sent) => SendData(c, s, sent)
    case Starting(s, content, got, sent) => StartData(c, s, content, got, sent)
    case Corking(s) => CorkUpload(c, s)
    case Uncorking(s) => UncorkUpload(c, s)
    case Expiring(s) => if s in c.norequest then Cleanup(c, s, c.norequest[s]) else c
  }

  lemma NextKeeps(c: Clients, e: Event)
    requires Inv(c) && Enabled(c, e)
    ensures Inv(Next(c, e))
  {
    hide Books, Watched, Call, Tell, Cleanup, ReadRequest, SendData, StartData, Accept, AcceptPassthrough;
    match e {
      case Accepting(s) => AcceptKeeps(c, s);
      case AcceptingPassthrough(s) => AcceptPassthroughKeeps(c, s);
      case OpeningReadable(s, got) => ReadRequestKeeps(c, s, got);
      case Readable(s, got) =>
        if s in c.bysock {
          CleanupKeeps(c, s, c.bysock[s]);
          PollKeeps(c, Cork, s);
        }
      case Writing(s, sent) => SendDataKeeps(c, s, sent);
      case Starting(s, content, got, sent) => StartDataKeeps(c, s, content, got, sent);
      case Corking(s) =>
        if s in c.bysock {
          PollKeeps(c, Cork, s);
        }
      case Uncorking(s) =>
        if s in c.bysock {
          PollKeeps(c, Uncork, s);
        }
      case Expiring(s) =>
        if s in c.norequest {
          CleanupKeeps(c, s, c.norequest[s]);
        }
    }
  }

  ghost predicate EnabledAll(c: Clients, es: seq<Event>)
    decreases |es|
  {
    |es| == 0 || (Ready(c.watch) && Enabled(c, es[0]) && EnabledAll(Next(c, es[0]), es[1..]))
  }

  ghost function Run(c: Clients, es: seq<Event>): Clients
    requires EnabledAll(c, es)
    decreases |es|
  {
    if |es| == 0 then c else Run(Next(c, es[0]), es[1..])
  }

  const INITIAL := Clients(map[], map[], map[], multiset{}, 0, NoWatch())

  lemma {:induction false} RunKeeps(c: Clients, es: seq<Event>)
    requires Inv(c) && EnabledAll(c, es)
    ensures Inv(Run(c, es))
    decreases |es|
  {
    hide Inv, Next, Enabled, Ready;
    if |es| == 0 {
    } else {
      NextKeeps(c, es[0]);
      RunKeeps(Next(c, es[0]), es[1..]);
    }
  }

  /** In every reachable state the tables are right, the registrations match them, and the select poller would
      watch exactly the sockets the epoll poller watches for the manager's events. */
  lemma EveryRunKeeps(es: seq<Event>)
    requires EnabledAll(INITIAL, es)
    ensures var c := Run(INITIAL, es);
            Inv(c) && forall n, s | n in CLIENTS :: s in c.watch.select[n] <==> s in c.watch.epoll[n].kernel
  {
    EmptyInStep(NoWatch(), CLIENTS);
    RunKeeps(INITIAL, es);
    var c := Run(INITIAL, es);
    hide Run, EnabledAll;
    forall n, s | n in CLIENTS
      ensures s in c.watch.select[n] <==> s in c.watch.epoll[n].kernel
    {
      assert Agree(c.watch.epoll[n], c.watch.select[n]);
    }
  }

  // ----- the list of marked sockets -------------------------------------------------------------

  /** The marked sockets are those polled for writing, once each. */
  ghost predicate Single(c: Clients)
    requires Ready(c.watch)
  {
    forall s :: c.buffered[s] == if s in c.watch.epoll[WriteClient].sockets then 1 else 0
  }

  /** `startData` appends a socket without looking for it in the list. */
  predicate Doubles(c: Clients, e: Event) {
    e.Starting? && e.sock in c.bysock && e.content && e.got == Incomplete && e.sent == Report(true, false) &&
    e.sock in c.buffered
  }

  lemma CleanupSingle(c: Clients, sock: Sock, name: ClientName)
    requires Inv(c) && Ready(c.watch) && Single(c) && (sock in c.norequest || sock in c.bysock)
    ensures Ready(Cleanup(c, sock, name).watch) && Single(Cleanup(c, sock, name))
  {
    hide Books, InStep, Call;
    CleanupWatchKeeps(c.watch, sock);
    hide CleanupWatch;
  }

  /** Calls about reading do not concern the list. */
  lemma ReadingSingle(c: Clients, d: Clients, n: Name, op: Op, sock: Sock)
    requires Ready(c.watch) && Single(c) && n in {OpeningClient, ReadClient}
    requires d.buffered == c.buffered && d.watch == Call(c.watch, n, op, sock)
    ensures Ready(d.watch) && Single(d)
  {
    hide EpollStep, SelectStep;
  }

  lemma MarkSingle(c: Clients, sock: Sock)
    requires Inv(c) && Ready(c.watch) && Single(c)
    ensures Ready(Append(c, sock).watch) && (Single(Append(c, sock)) <==> sock !in c.buffered)
    ensures Ready(Unmark(c, sock).watch) && Single(Unmark(c, sock))
  {
    hide Books, InStep, SelectStep;
    var q := Append(c, sock);
    assert q.buffered[sock] == c.buffered[sock] + 1;
    assert sock in q.watch.epoll[WriteClient].sockets;
  }

  lemma RequestSingle(c: Clients, sock: Sock)
    requires Inv(c) && Ready(c.watch) && Single(c) && sock in c.norequest
    ensures var q := ReadRequest(c, sock, Request); Ready(q.watch) && Single(q)
  {
    hide Cleanup, InStep, Call;
    FirstRequestBooks(c, sock);
    hide Books;
    RequestWatchKeeps(c.watch, sock);
    hide RequestWatch;
  }

  lemma SendDataSingle(c: Clients, sock: Sock, sent: Sent)
    requires Inv(c) && Ready(c.watch) && Single(c)
    ensures Ready(SendData(c, sock, sent).watch) && Single(SendData(c, sock, sent))
  {
    hide Books, Watched, Tell, Cleanup, Append, Unmark, Single, Ready;
    if sock in c.bysock {
      CleanupSingle(c, sock, c.bysock[sock]);
      MarkSingle(c, sock);
    }
  }

  lemma StartDataSingleIff(c: Clients, sock: Sock, content: bool, got: Got, sent: Sent)
    requires Inv(c) && Ready(c.watch) && Single(c)
    ensures Ready(StartData(c, sock, content, got, sent).watch)
    ensures Single(StartData(c, sock, content, got, sent)) <==> !Doubles(c, Starting(sock, content, got, sent))
  {
    hide Books, Watched, Cleanup, Append, Unmark, Call, Ready, Single;
    if sock in c.bysock && content {
      InvReady(c);
      CleanupSingle(c, sock, c.bysock[sock]);
      var a := Tell(c, ReadClient, Uncork, sock);
      PollKeeps(c, Uncork, sock);
      ReadingSingle(c, a, ReadClient, Uncork, sock);
      CleanupSingle(a, sock, c.bysock[sock]);
      MarkSingle(a, sock);
    }
  }

  /** Every operation keeps the list free of duplicates and stale entries, except a `startData` that appends a
      socket that is there. */
  lemma NextSingleIff(c: Clients, e: Event)
    requires Inv(c) && Ready(c.watch) && Single(c) && Enabled(c, e)
    ensures Ready(Next(c, e).watch) && (Single(Next(c, e)) <==> !Doubles(c, e))
  {
    hide Books, Watched, Call, Cleanup, SendData, StartData, Ready, Single, Inv;
    InvReady(c);
    match e {
      case Accepting(s) => ReadingSingle(c, Accept(c, s), OpeningClient, Add, s);
      case AcceptingPassthrough(s) => ReadingSingle(c, AcceptPassthrough(c, s), ReadClient, Add, s);
      case OpeningReadable(s, got) =>
        if s in c.norequest {
          RequestSingle(c, s);
          CleanupSingle(c, s, c.norequest[s]);
        }
      case Readable(s, got) =>
        if s in c.bysock {
          CleanupSingle(c, s, c.bysock[s]);
          ReadingSingle(c, Tell(c, ReadClient, Cork, s), ReadClient, Cork, s);
        }
      case Writing(s, sent) => SendDataSingle(c, s, sent);
      case Starting(s, content, got, sent) => StartDataSingleIff(c, s, content, got, sent);
      case Corking(s) =>
        if s in c.bysock {
          ReadingSingle(c, CorkUpload(c, s), ReadClient, Cork, s);
        }
      case Uncorking(s) =>
        if s in c.bysock {
          ReadingSingle(c, UncorkUpload(c, s), ReadClient, Uncork, s);
        }
      case Expiring(s) =>
        if s in c.norequest {
          CleanupSingle(c, s, c.norequest[s]);
        }
    }
  }

  /** After any doubled entry, the cleanup of the client leaves its closed socket in the list. */
  lemma DoubleGoesStale(c: Clients, e: Event)
    requires Inv(c) && Ready(c.watch) && Doubles(c, e)
    ensures var a := Next(c, e);
            && Ready(a.watch) && e.sock in a.bysock
            && var b := Cleanup(a, e.sock, a.bysock[e.sock]); e.sock !in b.bysock && e.sock in b.buffered
  {
    hide Books, InStep, Call;
    NextKeeps(c, e);
  }

  // ----- who is polled for writing --------------------------------------------------------------

  ghost predicate Polled(c: Clients, sock: Sock)
    requires Ready(c.watch)
  {
    sock in c.watch.epoll[WriteClient].sockets
  }

  lemma CleanupPolled(c: Clients, sock: Sock, name: ClientName, k: Sock)
    requires Inv(c) && Ready(c.watch) && (sock in c.norequest || sock in c.bysock)
    ensures Ready(Cleanup(c, sock, name).watch) && (Polled(Cleanup(c, sock, name), k) <==> Polled(c, k) && k != sock)
  {
    hide Books, InStep, Call;
    CleanupWatchKeeps(c.watch, sock);
    hide CleanupWatch;
  }

  /** Calls about reading change nothing about writing. */
  lemma ReadingPolled(c: Clients, d: Clients, n: Name, op: Op, sock: Sock, k: Sock)
    requires Ready(c.watch) && n in {OpeningClient, ReadClient} && d.watch == Call(c.watch, n, op, sock)
    ensures Ready(d.watch) && (Polled(d, k) <==> Polled(c, k))
  {
    hide EpollStep, SelectStep;
  }

  lemma MarkPolled(c: Clients, sock: Sock, k: Sock)
    requires Ready(c.watch)
    ensures Ready(Append(c, sock).watch) && (Polled(Append(c, sock), k) <==> Polled(c, k) || k == sock)
    ensures Ready(Unmark(c, sock).watch) && (Polled(Unmark(c, sock), k) <==> Polled(c, k) && k != sock)
  {
    hide SelectStep;
  }

  lemma RequestPolled(c: Clients, sock: Sock, k: Sock)
    requires Inv(c) && Ready(c.watch) && sock in c.norequest
    ensures var q := ReadRequest(c, sock, Request); Ready(q.watch) && (Polled(q, k) <==> Polled(c, k))
  {
    hide Cleanup, InStep, Call;
    FirstRequestBooks(c, sock);
    hide Books;
    RequestWatchKeeps(c.watch, sock);
    hide RequestWatch;
  }

  /** After a report: polled if there is something to send, not when it was flushed, and otherwise as before. */
  lemma SendDataPolled(c: Clients, sock: Sock, sent: Sent, k: Sock)
    requires Inv(c) && Ready(c.watch) && Single(c) && sock in c.bysock
    ensures var q := SendData(c, sock, sent);
            && Ready(q.watch)
            && (Polled(q, k) <==>
                  if k != sock then Polled(c, k)
                  else if sent.Over? then false
                  else if sent.buffered then true
                  else !sent.had && Polled(c, sock))
  {
    hide Books, Watched, Tell, Cleanup, Append, Unmark;
    CleanupPolled(c, sock, c.bysock[sock], k);
    MarkPolled(c, sock, k);
    assert sock in c.buffered <==> c.buffered[sock] > 0;
  }

  /** The same when an answer is started, but the report of data to send is only heeded when there was none. */
  lemma StartDataPolled(c: Clients, sock: Sock, got: Got, sent: Sent, k: Sock)
    requires Inv(c) && Ready(c.watch) && Single(c) && sock in c.bysock
    ensures var q := StartData(c, sock, true, got, sent);
            && Ready(q.watch)
            && (Polled(q, k) <==>
                  if k != sock then Polled(c, k)
                  else if sent.Over? || got != Incomplete then false
                  else if sent == Report(true, false) then true
                  else sent != Report(false, true) && Polled(c, sock))
  {
    hide Books, Watched, Tell, Cleanup, Append, Unmark, Ready, Polled, Single;
    InvReady(c);
    CleanupPolled(c, sock, c.bysock[sock], k);
    var a := Tell(c, ReadClient, Uncork, sock);
    PollKeeps(c, Uncork, sock);
    UncorkIsReading(c, sock);
    ReadingPolled(c, a, ReadClient, Uncork, sock, k);
    ReadingPolled(c, a, ReadClient, Uncork, sock, sock);
    CleanupPolled(a, sock, c.bysock[sock], k);
    MarkPolled(a, sock, k);
    MarkedIffPolled(c, sock);
  }

  lemma NothingToDo(c: Clients, sock: Sock, content: bool, got: Got, sent: Sent)
    requires Ready(c.watch) && (sock !in c.bysock || !content)
    ensures sock !in c.bysock ==> SendData(c, sock, sent) == c
    ensures StartData(c, sock, content, got, sent) == c
  {
  }

  lemma OverIsGone(c: Clients, sock: Sock, got: Got, sent: Sent)
    requires Ready(c.watch) && sock in c.bysock
    ensures sent.Over? ==> sock !in SendData(c, sock, sent).bysock
    ensures sent.Over? || got != Incomplete ==> sock !in StartData(c, sock, true, got, sent).bysock
  {
    hide CleanupWatch, Call;
  }

  lemma StartedStays(c: Clients, sock: Sock, sent: Sent)
    requires Ready(c.watch) && sock in c.bysock && sent.Report?
    ensures sock in StartData(c, sock, true, Incomplete, sent).bysock
  {
    hide Call;
  }

  lemma UncorkIsReading(c: Clients, sock: Sock)
    requires Ready(c.watch)
    ensures var a := Tell(c, ReadClient, Uncork, sock);
            a.watch == Call(c.watch, ReadClient, Uncork, sock) && a == c.(watch := a.watch)
  {
  }

  lemma MarkedIffPolled(c: Clients, sock: Sock)
    requires Ready(c.watch) && Single(c)
    ensures sock in c.buffered <==> Polled(c, sock)
  {
    assert sock in c.buffered <==> c.buffered[sock] > 0;
  }

  /** Every operation but these two leaves the clients that stay as they were, and the others always. */
  lemma NextPolled(c: Clients, e: Event, k: Sock)
    requires Inv(c) && Ready(c.watch) && Single(c) && Enabled(c, e)
    requires (e.Writing? || e.Starting?) ==> k != e.sock
    ensures Ready(Next(c, e).watch)
    ensures k in Next(c, e).bysock ==> (Polled(Next(c, e), k) <==> Polled(c, k))
  {
    hide Books, Watched, Call, SendData, StartData, Ready, Single, Polled, Inv, CleanupWatch, RequestWatch;
    InvReady(c);
    match e {
      case Accepting(s) => ReadingPolled(c, Accept(c, s), OpeningClient, Add, s, k);
      case AcceptingPassthrough(s) => ReadingPolled(c, AcceptPassthrough(c, s), ReadClient, Add, s, k);
      case OpeningReadable(s, got) =>
        if s in c.norequest {
          RequestPolled(c, s, k);
          CleanupPolled(c, s, c.norequest[s], k);
        }
      case Readable(s, got) =>
        if s in c.bysock {
          CleanupPolled(c, s, c.bysock[s], k);
          ReadingPolled(c, Tell(c, ReadClient, Cork, s), ReadClient, Cork, s, k);
        }
      case Writing(s, sent) =>
        if s in c.bysock {
          SendDataPolled(c, s, sent, k);
        } else {
          NothingToDo(c, s, true, Incomplete, sent);
        }
      case Starting(s, content, got, sent) =>
        if s in c.bysock && content {
          StartDataPolled(c, s, got, sent, k);
        } else {
          NothingToDo(c, s, content, got, sent);
        }
      case Corking(s) =>
        if s in c.bysock {
          ReadingPolled(c, CorkUpload(c, s), ReadClient, Cork, s, k);
        }
      case Uncorking(s) =>
        if s in c.bysock {
          ReadingPolled(c, UncorkUpload(c, s), ReadClient, Uncork, s, k);
        }
      case Expiring(s) =>
        if s in c.norequest {
          CleanupPolled(c, s, c.norequest[s], k);
        }
    }
  }

  lemma PolledIsAnswered(c: Clients)
    requires Inv(c)
    ensures Ready(c.watch) && forall k | Polled(c, k) :: k in c.bysock
  {
  }

  /** A client is newly polled for writing only when something is sent to it. */
  lemma NewlyPolled(c: Clients, e: Event, k: Sock)
    requires Inv(c) && Ready(c.watch) && Enabled(c, e)
    ensures Ready(Next(c, e).watch)
    ensures Polled(Next(c, e), k) ==>
              Polled(c, k) || (k == e.sock && k in c.bysock && (e.Writing? || (e.Starting? && e.content)))
  {
    hide Books, Watched, Call, Append, Unmark, Cleanup, ReadRequest, Ready, Polled, Inv;
    InvReady(c);
    match e {
      case Accepting(s) => ReadingPolled(c, Accept(c, s), OpeningClient, Add, s, k);
      case AcceptingPassthrough(s) => ReadingPolled(c, AcceptPassthrough(c, s), ReadClient, Add, s, k);
      case OpeningReadable(s, got) => ReadRequestPolled(c, s, got, k);
      case Readable(s, got) =>
        if s in c.bysock {
          CleanupPolled(c, s, c.bysock[s], k);
          ReadingPolled(c, Tell(c, ReadClient, Cork, s), ReadClient, Cork, s, k);
        }
      case Writing(s, sent) =>
        if s in c.bysock {
          CleanupPolled(c, s, c.bysock[s], k);
          MarkPolled(c, s, k);
        }
      case Starting(s, content, got, sent) =>
        if s in c.bysock && content {
          CleanupPolled(c, s, c.bysock[s], k);
          var a := Tell(c, ReadClient, Uncork, s);
          PollKeeps(c, Uncork, s);
          ReadingPolled(c, a, ReadClient, Uncork, s, k);
          CleanupPolled(a, s, c.bysock[s], k);
          MarkPolled(a, s, k);
        }
      case Corking(s) =>
        if s in c.bysock {
          ReadingPolled(c, CorkUpload(c, s), ReadClient, Cork, s, k);
        }
      case Uncorking(s) =>
        if s in c.bysock {
          ReadingPolled(c, UncorkUpload(c, s), ReadClient, Uncork, s, k);
        }
      case Expiring(s) =>
        if s in c.norequest {
          CleanupPolled(c, s, c.norequest[s], k);
        }
    }
  }

  lemma ReadRequestPolled(c: Clients, sock: Sock, got: Got, k: Sock)
    requires Inv(c) && Ready(c.watch)
    ensures var q := ReadRequest(c, sock, got); Ready(q.watch) && (Polled(q, k) ==> Polled(c, k))
  {
    hide Books, Watched, Call, Cleanup, Ready, Polled, Inv, RequestWatch;
    if sock in c.norequest {
      RequestPolled(c, sock, k);
      CleanupPolled(c, sock, c.norequest[sock], k);
    }
  }

  // ----- sharing the poller ---------------------------------------------------------------------

  /** What others do on the shared poller does not concern the clients. */
  lemma OthersKeepClients(c: Clients, v: Watch)
    requires Inv(c) && Only(c.watch, v, DOWNLOADS)
    ensures Inv(c.(watch := v))
  {
    OthersKeep(c.watch, v, CLIENTS, DOWNLOADS);
    hide InStep;
  }

  lemma TellOnly(c: Clients, n: Name, op: Op, s: Sock)
    requires Ready(c.watch) && n in CLIENTS
    ensures Ready(Tell(c, n, op, s).watch) && Only(c.watch, Tell(c, n, op, s).watch, CLIENTS)
  {
    CallOnly(c.watch, CLIENTS, n, op, s);
  }

  lemma CleanupOnly(c: Clients, sock: Sock, name: ClientName)
    requires Ready(c.watch)
    ensures Ready(Cleanup(c, sock, name).watch) && Only(c.watch, Cleanup(c, sock, name).watch, CLIENTS)
  {
    hide EpollStep, SelectStep;
  }

  lemma ReadRequestOnly(c: Clients, sock: Sock, got: Got)
    requires Ready(c.watch)
    ensures Ready(ReadRequest(c, sock, got).watch) && Only(c.watch, ReadRequest(c, sock, got).watch, CLIENTS)
  {
    hide EpollStep, SelectStep, Cleanup;
    if sock in c.norequest {
      CleanupOnly(c, sock, c.norequest[sock]);
    }
  }

  lemma SendDataOnly(c: Clients, sock: Sock, sent: Sent)
    requires Ready(c.watch)
    ensures Ready(SendData(c, sock, sent).watch) && Only(c.watch, SendData(c, sock, sent).watch, CLIENTS)
  {
    hide EpollStep, SelectStep, Cleanup, Only, Call;
    OnlyNone(c.watch, CLIENTS);
    if sock in c.bysock {
      CleanupOnly(c, sock, c.bysock[sock]);
      MarkOnly(c, sock);
    }
  }

  lemma MarkOnly(c: Clients, sock: Sock)
    requires Ready(c.watch)
    ensures Ready(Append(c, sock).watch) && Only(c.watch, Append(c, sock).watch, CLIENTS)
    ensures Ready(Unmark(c, sock).watch) && Only(c.watch, Unmark(c, sock).watch, CLIENTS)
  {
    hide Only, Call;
    CallOnly(c.watch, CLIENTS, WriteClient, Add, sock);
    CallOnly(c.watch, CLIENTS, WriteClient, Remove, sock);
  }

  lemma StartDataOnly(c: Clients, sock: Sock, content: bool, got: Got, sent: Sent)
    requires Ready(c.watch)
    ensures var q := StartData(c, sock, content, got, sent);
            Ready(q.watch) && Only(c.watch, q.watch, CLIENTS)
  {
    hide Cleanup, Append, Unmark, Only, Call;
    OnlyNone(c.watch, CLIENTS);
    if sock in c.bysock {
      var a := Tell(c, ReadClient, Uncork, sock);
      CleanupOnly(c, sock, c.bysock[sock]);
      TellOnly(c, ReadClient, Uncork, sock);
      CleanupOnly(a, sock, c.bysock[sock]);
      MarkOnly(a, sock);
      var q := StartData(c, sock, content, got, sent);
      if Only(a.watch, q.watch, CLIENTS) {
        OnlyTwice(c.watch, a.watch, q.watch, CLIENTS);
      }
    }
  }

  /** No operation tells the poller anything but about the clients' events. */
  lemma NextOnly(c: Clients, e: Event)
    requires Ready(c.watch)
    ensures Ready(Next(c, e).watch) && Only(c.watch, Next(c, e).watch, CLIENTS)
  {
    hide Cleanup, ReadRequest, SendData, StartData, Only, Call;
    OnlyNone(c.watch, CLIENTS);
    match e {
      case Accepting(s) => CallOnly(c.watch, CLIENTS, OpeningClient, Add, s);
      case AcceptingPassthrough(s) => CallOnly(c.watch, CLIENTS, ReadClient, Add, s);
      case OpeningReadable(s, got) => ReadRequestOnly(c, s, got);
      case Readable(s, got) =>
        if s in c.bysock {
          CleanupOnly(c, s, c.bysock[s]);
          TellOnly(c, ReadClient, Cork, s);
        }
      case Writing(s, sent) => SendDataOnly(c, s, sent);
      case Starting(s, content, got, sent) => StartDataOnly(c, s, content, got, sent);
      case Corking(s) => TellOnly(c, ReadClient, Cork, s);
      case Uncorking(s) => TellOnly(c, ReadClient, Uncork, s);
      case Expiring(s) =>
        if s in c.norequest {
          CleanupOnly(c, s, c.norequest[s]);
        }
    }
  }

  /** The sockets of all clients. */
  function Sockets(c: Clients): set<Sock> {
    c.norequest.Keys + c.bysock.Keys
  }

  /** No operation but accepting brings in a socket. */
  lemma NextSockets(c: Clients, e: Event)
    requires Ready(c.watch)
    ensures Sockets(Next(c, e)) <= Sockets(c) + (if e.Accepting? || e.AcceptingPassthrough? then {e.sock} else {})
  {
    hide EpollStep, SelectStep, CleanupWatch, RequestWatch, Call;
  }
}

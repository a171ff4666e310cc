/** The bookkeeping of `ContentManager`: downloads being opened and established, their clients, the sockets
    with unsent data, and what both pollers are told about them.  What the network and the configuration
    decide are arguments. */
module Downloads {
  import opened Wrappers
  import opened Pollers

  type Client = nat

  datatype Download = Download(client: Client, sock: Sock, host: string, port: int)

  /** `buffered` is a list in the program, to which a socket is only added when it is absent; `unsent` are the
      sockets whose download has bytes in its own write buffer. */
  datatype Content = Content(
    opening: map<Sock, Download>,
    established: map<Sock, Download>,
    byclient: map<Client, Download>,
    buffered: set<Sock>,
    unsent: set<Sock>,
    watch: Watch)

  /** The outcome of writing: everything sent, some bytes left, or a connection error. */
  datatype Written = Drained | Partial | Broken

  /** What becomes of a request for a new connection: the host is no address; it is denied, or local and not
      allowed; no socket could be connected; or there is a new socket. */
  datatype Dial = NoAddress | Denied | NoSocket | Socket(sock: Sock)

  predicate Ready(w: Watch) {
    SetUp(w, DOWNLOADS)
  }

  // ----- operations -------------------------------------------------------------------------

  function Tell(c: Content, n: Name, op: Op, s: Sock): Content
    requires n in c.watch.epoll && n in c.watch.select
  {
    c.(watch := Call(c.watch, n, op, s))
  }

  /** The download forgotten, but for the list of sockets with unsent data and the poller. */
  function Dropped(c: Content, sock: Sock, client: Client): Content {
    c.(established := c.established - {sock}, opening := c.opening - {sock}, byclient := c.byclient - {client},
       unsent := c.unsent - {sock})
  }

  /** `_terminate`. */
  function Terminate(c: Content, sock: Sock, client: Client): Content
    requires Ready(c.watch)
  {
    if sock !in c.established && sock !in c.opening then c
    else
      var a := if sock in c.established then Tell(c, ReadDownload, Remove, sock) else Tell(c, OpeningDownload, Remove, sock);
      var b := Dropped(a, sock, client);
      if sock in b.buffered then Tell(b.(buffered := b.buffered - {sock}), WriteDownload, Remove, sock) else b
  }

  function EndClient(c: Content, client: Client): Content
    requires Ready(c.watch)
  {
    if client in c.byclient then Terminate(c, c.byclient[client].sock, client) else c
  }

  /** Whether bytes are left in the write buffer after a write; a connection error keeps all there were, and the
      data `added`, if any. */
  predicate Left(c: Content, sock: Sock, added: bool, w: Written) {
    w == Partial || (w == Broken && (added || sock in c.unsent))
  }

  function Kept(c: Content, sock: Sock, left: bool): Content {
    c.(unsent := if left then c.unsent + {sock} else c.unsent - {sock})
  }

  /** Marking a socket that is or may be polled for writing, after a write. */
  function Mark(c: Content, sock: Sock, w: Written): Content
    requires Ready(c.watch)
  {
    if w == Partial then
      if sock !in c.buffered then Tell(c.(buffered := c.buffered + {sock}), WriteDownload, Add, sock) else c
    else
      if sock in c.buffered then Tell(c.(buffered := c.buffered - {sock}), WriteDownload, Remove, sock) else c
  }

  /** A write, and noting its outcome. */
  function Note(c: Content, sock: Sock, added: bool, w: Written): Content
    requires Ready(c.watch)
  {
    Mark(Kept(c, sock, Left(c, sock, added, w)), sock, w)
  }

  /** A new download, whose write buffer is the request, if there is one. */
  function Open(c: Content, d: Download, request: bool): Content
    requires Ready(c.watch)
  {
    Tell(Opened(c, d, request), OpeningDownload, Add, d.sock)
  }

  function Opened(c: Content, d: Download, request: bool): Content {
    Kept(c.(opening := c.opening[d.sock := d], byclient := c.byclient[d.client := d]), d.sock, request)
  }

  /** `getContent` for the commands that connect somewhere (`download`, `connect`, `intercept`); `request` says
      whether there is anything to send. */
  function Connect(c: Content, client: Client, host: string, port: int, dial: Dial, request: bool, w: Written): Content
    requires Ready(c.watch)
  {
    var reuse := client in c.byclient && c.byclient[client].host == host && c.byclient[client].port == port;
    var a := if client in c.byclient && !reuse then EndClient(c, client) else c;
    if dial == NoAddress then Local(a, client)
    else if reuse then Note(a, a.byclient[client].sock, request, w)
    else if dial.Socket? then Open(a, Download(client, dial.sock, host, port), request)
    else Local(a, client)
  }

  /** `getContent` for all other commands, and for connections that were refused: content of our own replaces
      the client's download. */
  function Local(c: Content, client: Client): Content
    requires Ready(c.watch)
  {
    EndClient(c, client)
  }

  /** What the poller is told once a connection is open. */
  function StartWatch(w: Watch, sock: Sock, buffered: bool): Watch
    requires Ready(w)
  {
    var a := Call(w, WriteDownload, Remove, sock);
    var b := Call(a, OpeningDownload, Remove, sock);
    var e := Call(b, ReadDownload, Add, sock);
    if buffered then Call(e, WriteDownload, Add, sock) else e
  }

  /** `startDownload`: the connection is open, and what is in the write buffer is written. */
  function Start(c: Content, sock: Sock, w: Written): Content
    requires Ready(c.watch)
  {
    if sock !in c.opening then c
    else
      var a := Kept(c, sock, Left(c, sock, false, w));
      a.(opening := c.opening - {sock}, established := c.established[sock := c.opening[sock]],
         watch := StartWatch(c.watch, sock, sock in c.buffered))
  }

  /** `readData`; `closed` when the server closed the connection. */
  function Read(c: Content, sock: Sock, closed: bool): Content
    requires Ready(c.watch)
  {
    if sock in c.established && closed then Terminate(c, sock, c.established[sock].client) else c
  }

  /** `sendSocketData`. */
  function SendSocket(c: Content, sock: Sock, added: bool, w: Written): Content
    requires Ready(c.watch)
  {
    if sock in c.established then Note(c, sock, added, w) else c
  }

  /** `sendClientData`. */
  function SendClient(c: Content, client: Client, added: bool, w: Written): Content
    requires Ready(c.watch)
  {
    if client !in c.byclient then c
    else
      var sock := c.byclient[client].sock;
      if sock in c.established then Note(c, sock, added, w)
      else if sock in c.opening then Kept(c, sock, added || sock in c.unsent).(buffered := c.buffered + {sock})
      else Terminate(c, sock, client)      // the client's socket is in neither table
  }

  function CorkClient(c: Content, client: Client): Content
    requires Ready(c.watch)
  {
    if client in c.byclient then Tell(c, ReadDownload, Cork, c.byclient[client].sock) else c
  }

  function UncorkClient(c: Content, client: Client): Content
    requires Ready(c.watch)
  {
    if client in c.byclient && c.byclient[client].sock in c.established
    then Tell(c, ReadDownload, Uncork, c.byclient[client].sock) else c
  }

  // ----- what every operation keeps ----------------------------------------------------------

  /** Opening and established downloads are disjoint and together correspond one to one with the clients; and
      no other socket is marked as buffered or has unsent bytes. */
  ghost predicate Books(c: Content) {
    && c.opening.Keys !! c.established.Keys
    && (forall s | s in c.opening :: c.opening[s].sock == s &&
          c.opening[s].client in c.byclient && c.byclient[c.opening[s].client] == c.opening[s])
    && (forall s | s in c.established :: c.established[s].sock == s &&
          c.established[s].client in c.byclient && c.byclient[c.established[s].client] == c.established[s])
    && (forall k | k in c.byclient :: c.byclient[k].client == k &&
          (if c.byclient[k].sock in c.opening then c.opening[c.byclient[k].sock] == c.byclient[k]
           else c.byclient[k].sock in c.established && c.established[c.byclient[k].sock] == c.byclient[k]))
    && c.buffered + c.unsent <= c.opening.Keys + c.established.Keys
  }

  /** Exactly the established sockets are registered for reading, exactly the opening ones for the completion of
      their connection; only sockets marked as buffered are registered for writing, and of the established ones
      all that are marked.  Nothing else is watched, and only reading is ever corked. */
  ghost predicate Watched(c: Content) {
    && Ready(c.watch)
    && InStep(c.watch, DOWNLOADS)
    && c.watch.epoll[ReadDownload].sockets == c.established.Keys
    && c.watch.epoll[OpeningDownload].sockets == c.opening.Keys
    && c.watch.epoll[WriteDownload].sockets <= c.buffered
    && (forall s | s in c.established :: s in c.watch.epoll[WriteDownload].sockets <==> s in c.buffered)
    && c.watch.epoll[OpeningDownload].corked == {}
    && c.watch.epoll[WriteDownload].corked == {}
  }

  ghost predicate Inv(c: Content) {
    Books(c) && Watched(c)
  }

  lemma TellKeeps(c: Content, n: Name, op: Op, s: Sock)
    requires Ready(c.watch) && InStep(c.watch, DOWNLOADS) && n in DOWNLOADS
    requires Disciplined(c.watch.epoll[n], op, s)
    ensures Ready(Tell(c, n, op, s).watch) && InStep(Tell(c, n, op, s).watch, DOWNLOADS)
  {
    CallKeeps(c.watch, DOWNLOADS, n, op, s);
  }

  lemma TerminateBooks(c: Content, sock: Sock, client: Client)
    requires Books(c) && Ready(c.watch) && (sock in c.established || sock in c.opening)
    requires sock in c.established ==> c.established[sock].client == client
    requires sock in c.opening ==> c.opening[sock].client == client
    ensures var q := Terminate(c, sock, client);
            && Books(q)
            && q.opening == c.opening - {sock} && q.established == c.established - {sock}
            && q.buffered == c.buffered - {sock} && q.byclient == c.byclient - {client}
  {
    hide Ready, Call, Books;
    var q := Terminate(c, sock, client);
    DroppedBooks(c, sock, client, q.watch);
    assert q == Dropped(c.(watch := q.watch), sock, client).(buffered := c.buffered - {sock});
  }

  lemma DroppedBooks(c: Content, sock: Sock, client: Client, w: Watch)
    requires Books(c) && (sock in c.established || sock in c.opening)
    requires sock in c.established ==> c.established[sock].client == client
    requires sock in c.opening ==> c.opening[sock].client == client
    ensures Books(Dropped(c.(watch := w), sock, client).(buffered := c.buffered - {sock}))
  {
  }

  lemma TerminateWatched(c: Content, sock: Sock, client: Client)
    requires Inv(c) && (sock in c.established || sock in c.opening)
    requires var q := Terminate(c, sock, client);
             && q.opening == c.opening - {sock} && q.established == c.established - {sock}
             && q.buffered == c.buffered - {sock}
    ensures Watched(Terminate(c, sock, client))
  {
    hide InStep, Agree, SelectStep, Books;
    assert c.opening.Keys !! c.established.Keys by {
      BooksDisjoint(c);
    }
    var n := if sock in c.established then ReadDownload else OpeningDownload;
    TellKeeps(c, n, Remove, sock);
    var a := Tell(c, n, Remove, sock);
    var b := Dropped(a, sock, client);
    if sock in b.buffered {
      TellKeeps(b.(buffered := b.buffered - {sock}), WriteDownload, Remove, sock);
    }
  }

  lemma BooksDisjoint(c: Content)
    requires Books(c)
    ensures c.opening.Keys !! c.established.Keys && c.buffered <= c.opening.Keys + c.established.Keys
  {
  }

  lemma TerminateKeeps(c: Content, sock: Sock, client: Client)
    requires Inv(c)
    requires sock in c.established ==> c.established[sock].client == client
    requires sock in c.opening ==> c.opening[sock].client == client
    ensures var q := Terminate(c, sock, client);
            && Inv(q) && sock !in q.opening && sock !in q.established && sock !in q.buffered
            && (sock in c.opening || sock in c.established ==> client !in q.byclient)
  {
    BooksDisjoint(c);
    if sock in c.established || sock in c.opening {
      TerminateBooks(c, sock, client);
      TerminateWatched(c, sock, client);
    }
    hide Books, Watched;
  }

  lemma EndClientKeeps(c: Content, client: Client)
    requires Inv(c)
    ensures Inv(EndClient(c, client)) && client !in EndClient(c, client).byclient
  {
    hide InStep;
    if client in c.byclient {
      TerminateKeeps(c, c.byclient[client].sock, client);
    }
  }

  lemma NoteKeeps(c: Content, sock: Sock, added: bool, w: Written)
    requires Inv(c) && (sock in c.opening || sock in c.established)
    ensures Inv(Note(c, sock, added, w))
  {
    hide Books, Watched, Note;
    InvReady(c);
    NoteBooks(c, sock, added, w);
    NoteWatched(c, sock, added, w);
  }

  lemma NoteBooks(c: Content, sock: Sock, added: bool, w: Written)
    requires Books(c) && Ready(c.watch) && (sock in c.opening || sock in c.established)
    ensures Books(Note(c, sock, added, w))
  {
    hide Ready, Call, Left;
  }

  lemma NoteWatched(c: Content, sock: Sock, added: bool, w: Written)
    requires Watched(c)
    ensures Watched(Note(c, sock, added, w))
  {
    hide InStep, Agree, SelectStep;
    var a := Kept(c, sock, Left(c, sock, added, w));
    if w == Partial {
      TellKeeps(a.(buffered := a.buffered + {sock}), WriteDownload, Add, sock);
    } else {
      TellKeeps(a.(buffered := a.buffered - {sock}), WriteDownload, Remove, sock);
    }
  }

  lemma OpenBooks(c: Content, d: Download, request: bool)
    requires Books(c) && Ready(c.watch)
    requires d.client !in c.byclient && d.sock !in c.opening && d.sock !in c.established
    ensures Books(Open(c, d, request))
  {
    hide Ready, Call;
  }

  lemma OpenKeeps(c: Content, d: Download, request: bool)
    requires Inv(c) && d.client !in c.byclient && d.sock !in c.opening && d.sock !in c.established
    ensures Inv(Open(c, d, request))
  {
    OpenBooks(c, d, request);
    BooksDisjoint(c);
    hide InStep, Agree, SelectStep, Books;
    TellKeeps(Opened(c, d, request), OpeningDownload, Add, d.sock);
  }

  lemma StartBooks(c: Content, sock: Sock, w: Written)
    requires Books(c) && Ready(c.watch) && sock in c.opening
    ensures var q := Start(c, sock, w);
            && Books(q) && q.buffered == c.buffered
            && q.opening == c.opening - {sock} && q.established == c.established[sock := c.opening[sock]]
  {
    hide Ready, Call;
  }

  lemma StartWatchKeeps(w: Watch, sock: Sock, buffered: bool)
    requires Ready(w) && InStep(w, DOWNLOADS)
    requires sock !in w.epoll[ReadDownload].sockets && sock in w.epoll[OpeningDownload].sockets
    requires w.epoll[WriteDownload].corked == w.epoll[OpeningDownload].corked == {}
    ensures var v := StartWatch(w, sock, buffered);
            && Ready(v) && InStep(v, DOWNLOADS)
            && v.epoll[ReadDownload].sockets == w.epoll[ReadDownload].sockets + {sock}
            && v.epoll[OpeningDownload].sockets == w.epoll[OpeningDownload].sockets - {sock}
            && v.epoll[WriteDownload].sockets == w.epoll[WriteDownload].sockets - {sock} + (if buffered then {sock} else {})
            && v.epoll[WriteDownload].corked == v.epoll[OpeningDownload].corked == {}
  {
    assert w.epoll[ReadDownload].corked <= w.epoll[ReadDownload].sockets;
    hide InStep, Agree, SelectStep;
    var a := Call(w, WriteDownload, Remove, sock);
    CallKeeps(w, DOWNLOADS, WriteDownload, Remove, sock);
    var b := Call(a, OpeningDownload, Remove, sock);
    CallKeeps(a, DOWNLOADS, OpeningDownload, Remove, sock);
    var e := Call(b, ReadDownload, Add, sock);
    CallKeeps(b, DOWNLOADS, ReadDownload, Add, sock);
    CallKeeps(e, DOWNLOADS, WriteDownload, Add, sock);
  }

  lemma StartKeeps(c: Content, sock: Sock, w: Written)
    requires Inv(c)
    ensures Inv(Start(c, sock, w))
  {
    hide InStep, Books, StartWatch, Call;
    if sock in c.opening {
      StartBooks(c, sock, w);
      BooksDisjoint(c);
      StartWatchKeeps(c.watch, sock, sock in c.buffered);
    }
  }

  lemma CorkKeeps(c: Content, client: Client)
    requires Inv(c)
    ensures Inv(CorkClient(c, client)) && Inv(UncorkClient(c, client))
  {
    hide InStep, Agree, SelectStep;
    if client in c.byclient {
      var sock := c.byclient[client].sock;
      TellKeeps(c, ReadDownload, Cork, sock);
      if sock in c.established {
        TellKeeps(c, ReadDownload, Uncork, sock);
      }
    }
  }

  lemma ConnectKeeps(c: Content, client: Client, host: string, port: int, dial: Dial, request: bool, w: Written)
    requires Inv(c) && (dial.Socket? ==> dial.sock !in c.opening && dial.sock !in c.established)
    ensures Inv(Connect(c, client, host, port, dial, request, w))
  {
    EndClientKeeps(c, client);
    EndClientShrinks(c, client);
    var reuse := client in c.byclient && c.byclient[client].host == host && c.byclient[client].port == port;
    var a := if client in c.byclient && !reuse then EndClient(c, client) else c;
    hide Watched, Call;
    EndClientKeeps(a, client);
    if dial != NoAddress && reuse {
      NoteKeeps(a, a.byclient[client].sock, request, w);
    } else if dial.Socket? && !reuse {
      OpenKeeps(a, Download(client, dial.sock, host, port), request);
    }
  }

  lemma EndClientShrinks(c: Content, client: Client)
    requires Inv(c)
    ensures EndClient(c, client).opening.Keys <= c.opening.Keys
    ensures EndClient(c, client).established.Keys <= c.established.Keys
  {
    hide InStep, Call;
  }

  /** The branch for a client whose socket is neither opening nor established is never taken: passing on data
      ends no download. */
  lemma SendClientKeeps(c: Content, client: Client, added: bool, w: Written)
    requires Inv(c)
    ensures Inv(SendClient(c, client, added, w))
    ensures SendClient(c, client, added, w).byclient == c.byclient
  {
    if client in c.byclient {
      var sock := c.byclient[client].sock;
      ClientHasSocket(c, client);
      hide Watched, Books, Note;
      if sock in c.established {
        NoteKeeps(c, sock, added, w);
        NoteSameClients(c, sock, added, w);
      } else {
        OpeningBuffers(c, sock, added || sock in c.unsent);
      }
    }
  }

  lemma ClientHasSocket(c: Content, client: Client)
    requires Books(c) && client in c.byclient
    ensures c.byclient[client].sock in c.opening || c.byclient[client].sock in c.established
  {
  }

  lemma NoteSameClients(c: Content, sock: Sock, added: bool, w: Written)
    requires Ready(c.watch)
    ensures Note(c, sock, added, w).byclient == c.byclient
  {
    hide Ready, Call, Left;
  }

  /** Data for a connection that is being opened is kept, and nothing is polled for. */
  lemma OpeningBuffers(c: Content, sock: Sock, left: bool)
    requires Inv(c) && sock in c.opening && sock !in c.established
    ensures Inv(Kept(c, sock, left).(buffered := c.buffered + {sock}))
  {
    hide InStep, Ready;
  }

  // ----- runs -------------------------------------------------------------------------------

  datatype Event =
    | Connecting(client: Client, host: string, port: int, dial: Dial, added: bool, written: Written)
    | Serving(client: Client)
    | Connected(sock: Sock, written: Written)
    | Readable(sock: Sock, closed: bool)
    | Writable(sock: Sock, added: bool, written: Written)
    | FromClient(client: Client, added: bool, written: Written)
    | Ending(client: Client)
    | Corking(client: Client)
    | Uncorking(client: Client)

  /** New sockets are new. */
  predicate Enabled(c: Content, e: Event) {
    e.Connecting? && e.dial.Socket? ==> e.dial.sock !in c.opening && e.dial.sock !in c.established
  }

  function Next(c: Content, e: Event): Content
    requires Ready(c.watch)
  {
    match e
    case Connecting(client, host, port, dial, added, w) => Connect(c, client, host, port, dial, added, w)
    case Serving(client) => Local(c, client)
    case Connected(sock, w) => Start(c, sock, w)
    case Readable(sock, closed) => Read(c, sock, closed)
    case Writable(sock, added, w) => SendSocket(c, sock, added, w)
    case FromClient(client, added, w) => SendClient(c, client, added, w)
    case Ending(client) => EndClient(c, client)
    case Corking(client) => CorkClient(c, client)
    case Uncorking(client) => UncorkClient(c, client)
  }

  lemma NextKeeps(c: Content, e: Event)
    requires Inv(c) && Enabled(c, e)
    ensures Inv(Next(c, e))
  {
    hide Books, Watched, Call, Connect, Terminate, Start, Note;
    match e {
      case Connecting(client, host, port, dial, added, w) => ConnectKeeps(c, client, host, port, dial, added, w);
      case Serving(client) => EndClientKeeps(c, client);
      case Connected(sock, w) => StartKeeps(c, sock, w);
      case Readable(sock, closed) =>
        EstablishedOnly(c, sock);
        if sock in c.established {
          TerminateKeeps(c, sock, c.established[sock].client);
        }
      case Writable(sock, added, w) =>
        if sock in c.established {
          NoteKeeps(c, sock, added, w);
        }
      case FromClient(client, added, w) => SendClientKeeps(c, client, added, w);
      case Ending(client) => EndClientKeeps(c, client);
      case Corking(client) => CorkKeeps(c, client);
      case Uncorking(client) => CorkKeeps(c, client);
    }
  }

  /** A socket in no table is registered for no event. */
  lemma GoneIsUnwatched(c: Content, sock: Sock)
    requires Inv(c) && sock !in c.opening && sock !in c.established
    ensures forall n | n in DOWNLOADS :: n in c.watch.epoll && sock !in c.watch.epoll[n].sockets
  {
    hide InStep;
    BooksDisjoint(c);
    hide Books;
  }

  lemma EstablishedOnly(c: Content, sock: Sock)
    requires Books(c)
    ensures sock in c.established ==> sock !in c.opening
  {
  }

  ghost predicate EnabledAll(c: Content, es: seq<Event>)
    decreases |es|
  {
    |es| == 0 || (Ready(c.watch) && Enabled(c, es[0]) && EnabledAll(Next(c, es[0]), es[1..]))
  }

  ghost function Run(c: Content, es: seq<Event>): Content
    requires EnabledAll(c, es)
    decreases |es|
  {
    if |es| == 0 then c else Run(Next(c, es[0]), es[1..])
  }

  const INITIAL := Content(map[], map[], map[], {}, {}, NoWatch())

  lemma {:induction false} RunKeeps(c: Content, es: seq<Event>)
    requires Inv(c) && EnabledAll(c, es)
    ensures Inv(Run(c, es))
    decreases |es|
  {
    hide Inv, Next, Enabled, Ready;
    if |es| == 0 {
    } else {
      NextKeeps(c, es[0]);
      RunKeeps(Next(c, es[0]), es[1..]);
    }
  }

  /** In every reachable state the books are right, the registrations match them, and the select poller would
      watch exactly the sockets the epoll poller watches for the manager's events. */
  lemma EveryRunKeeps(es: seq<Event>)
    requires EnabledAll(INITIAL, es)
    ensures var c := Run(INITIAL, es);
            Inv(c) && forall n, s | n in DOWNLOADS :: s in c.watch.select[n] <==> s in c.watch.epoll[n].kernel
  {
    EmptyInStep(NoWatch(), DOWNLOADS);
    RunKeeps(INITIAL, es);
    var c := Run(INITIAL, es);
    hide Run, EnabledAll;
    forall n, s | n in DOWNLOADS
      ensures s in c.watch.select[n] <==> s in c.watch.epoll[n].kernel
    {
      assert Agree(c.watch.epoll[n], c.watch.select[n]);
    }
  }

  /** A socket that is closed is registered nowhere any more. */
  lemma ClosedIsUnwatched(c: Content, client: Client)
    requires Inv(c) && client in c.byclient
    ensures var s := c.byclient[client].sock;
            forall n | n in DOWNLOADS ::
              s !in EndClient(c, client).watch.epoll[n].sockets
  {
    TerminateKeeps(c, c.byclient[client].sock, client);
    hide Books, InStep, Terminate;
  }

  // ----- unsent bytes ---------------------------------------------------------------------------

  /** Every established socket with unsent bytes is polled for writing, so that they will be sent. */
  ghost predicate Covered(c: Content)
    requires Ready(c.watch)
  {
    forall s | s in c.established && s in c.unsent :: s in c.watch.epoll[WriteDownload].kernel
  }

  /** What is left of the first write on a new connection is polled for if and only if data had been buffered for
      the socket while it was opened, or nothing is left. */
  lemma StartPollsIff(c: Content, sock: Sock, w: Written)
    requires Inv(c) && sock in c.opening
    ensures var q := Start(c, sock, w);
            (sock in q.unsent ==> sock in q.watch.epoll[WriteDownload].kernel)
            <==> sock in c.buffered || !Left(c, sock, false, w)
  {
    BooksDisjoint(c);
    StartWatchKeeps(c.watch, sock, sock in c.buffered);
    var v := StartWatch(c.watch, sock, sock in c.buffered);
    assert Agree(v.epoll[WriteDownload], v.select[WriteDownload]);
    hide StartWatch;
  }

  /** The two ways to strand unsent bytes on an established connection: the first write leaves some on a socket that
      is not marked, or a later write ends in a connection error with some left. */
  predicate Strands(c: Content, e: Event) {
    match e
    case Connected(sock, w) => sock in c.opening && sock !in c.buffered && Left(c, sock, false, w)
    case Writable(sock, added, w) => sock in c.established && BrokenOff(c, sock, added, w)
    case FromClient(client, added, w) =>
      client in c.byclient && c.byclient[client].sock in c.established &&
      BrokenOff(c, c.byclient[client].sock, added, w)
    case Connecting(client, host, port, dial, added, w) =>
      dial != NoAddress && client in c.byclient && c.byclient[client].host == host && c.byclient[client].port == port &&
      c.byclient[client].sock in c.established && BrokenOff(c, c.byclient[client].sock, added, w)
    case _ => false
  }

  predicate BrokenOff(c: Content, sock: Sock, added: bool, w: Written) {
    w == Broken && Left(c, sock, added, w)
  }

  /** What is polled for writing, of the established sockets: those marked as buffered. */
  lemma MarkedIsPolled(c: Content)
    requires Inv(c)
    ensures forall s | s in c.established :: s in c.watch.epoll[WriteDownload].kernel <==> s in c.buffered
  {
    assert Agree(c.watch.epoll[WriteDownload], c.watch.select[WriteDownload]);
  }

  /** The same, without the pollers. */
  predicate Noted(c: Content) {
    forall s | s in c.established && s in c.unsent :: s in c.buffered
  }

  lemma CoveredIsNoted(c: Content)
    requires Inv(c)
    ensures Ready(c.watch) && (Covered(c) <==> Noted(c))
  {
    MarkedIsPolled(c);
  }

  lemma NoteNotesIff(c: Content, sock: Sock, added: bool, w: Written)
    requires Ready(c.watch) && Noted(c)
    ensures Noted(Note(c, sock, added, w)) <==> !(sock in c.established && BrokenOff(c, sock, added, w))
  {
    hide Ready, Call;
    var q := Note(c, sock, added, w);
    assert sock in c.established && BrokenOff(c, sock, added, w) ==> sock in q.unsent && sock !in q.buffered;
  }

  lemma EndClientNotes(c: Content, client: Client)
    requires Ready(c.watch) && Noted(c)
    ensures Ready(EndClient(c, client).watch) && Noted(EndClient(c, client))
  {
    hide EpollStep, SelectStep;
  }

  lemma OpenNotes(c: Content, d: Download, request: bool)
    requires Ready(c.watch) && Noted(c) && d.sock !in c.established
    ensures Noted(Open(c, d, request))
  {
    hide Ready, Call;
  }

  lemma StartNotesIff(c: Content, sock: Sock, w: Written)
    requires Ready(c.watch) && Noted(c) && sock in c.opening
    ensures Noted(Start(c, sock, w)) <==> !(sock !in c.buffered && Left(c, sock, false, w))
  {
    hide Ready, Call, StartWatch;
    var q := Start(c, sock, w);
    assert sock in q.established;
  }

  lemma ConnectNotesIff(c: Content, client: Client, host: string, port: int, dial: Dial, request: bool, w: Written)
    requires Inv(c) && Noted(c) && (dial.Socket? ==> dial.sock !in c.opening && dial.sock !in c.established)
    ensures Noted(Connect(c, client, host, port, dial, request, w))
       <==> !Strands(c, Connecting(client, host, port, dial, request, w))
  {
    var reuse := client in c.byclient && c.byclient[client].host == host && c.byclient[client].port == port;
    var a := if client in c.byclient && !reuse then EndClient(c, client) else c;
    EndClientNotes(c, client);
    EndClientShrinks(c, client);
    hide EndClient, Noted, Note, BrokenOff, Open, Inv;
    EndClientNotes(a, client);
    if dial != NoAddress && reuse {
      NoteNotesIff(a, a.byclient[client].sock, request, w);
    } else if dial.Socket? && !reuse {
      OpenNotes(a, Download(client, dial.sock, host, port), request);
    }
  }

  lemma SendClientNotesIff(c: Content, client: Client, added: bool, w: Written)
    requires Inv(c) && Noted(c)
    ensures Noted(SendClient(c, client, added, w)) <==> !Strands(c, FromClient(client, added, w))
  {
    if client in c.byclient {
      var sock := c.byclient[client].sock;
      assert sock in c.opening || sock in c.established;
      NoteNotesIff(c, sock, added, w);
    }
    hide Note, Watched;
  }

  lemma NextNotesIff(c: Content, e: Event)
    requires Inv(c) && Enabled(c, e) && Noted(c)
    ensures Noted(Next(c, e)) <==> !Strands(c, e)
  {
    hide Noted, Inv, Call, Connect, SendClient, EndClient, Start, Note, BrokenOff, Left;
    InvReady(c);
    match e {
      case Connecting(client, host, port, dial, added, w) => ConnectNotesIff(c, client, host, port, dial, added, w);
      case Serving(client) => EndClientNotes(c, client);
      case Connected(sock, w) =>
        if sock in c.opening {
          StartNotesIff(c, sock, w);
        } else {
          NothingStarts(c, sock, w);
        }
      case Readable(sock, closed) => ReadNotes(c, sock, closed);
      case Writable(sock, added, w) => NoteNotesIff(c, sock, added, w);
      case FromClient(client, added, w) => SendClientNotesIff(c, client, added, w);
      case Ending(client) => EndClientNotes(c, client);
      case Corking(client) => CorkNotes(c, client);
      case Uncorking(client) => CorkNotes(c, client);
    }
  }

  lemma InvReady(c: Content)
    requires Inv(c)
    ensures Ready(c.watch)
  {
  }

  lemma NothingStarts(c: Content, sock: Sock, w: Written)
    requires Ready(c.watch) && sock !in c.opening
    ensures Start(c, sock, w) == c
  {
  }

  lemma ReadNotes(c: Content, sock: Sock, closed: bool)
    requires Ready(c.watch) && Noted(c)
    ensures Noted(Read(c, sock, closed))
  {
    hide Call;
  }

  lemma CorkNotes(c: Content, client: Client)
    requires Ready(c.watch) && Noted(c)
    ensures Noted(CorkClient(c, client)) && Noted(UncorkClient(c, client))
  {
    hide Ready, Call;
  }

  /** An operation leaves all unsent bytes polled for if and only if it does not strand any. */
  lemma NextCoversIff(c: Content, e: Event)
    requires Inv(c) && Enabled(c, e) && Ready(c.watch) && Covered(c)
    ensures Ready(Next(c, e).watch) && (Covered(Next(c, e)) <==> !Strands(c, e))
  {
    hide Inv, Covered, Noted, Next, Strands;
    NextKeeps(c, e);
    CoveredIsNoted(c);
    CoveredIsNoted(Next(c, e));
    NextNotesIff(c, e);
  }

  ghost predicate StrandsNone(c: Content, es: seq<Event>)
    requires EnabledAll(c, es)
    decreases |es|
  {
    |es| == 0 || (!Strands(c, es[0]) && StrandsNone(Next(c, es[0]), es[1..]))
  }

  lemma {:induction false} RunCovers(c: Content, es: seq<Event>)
    requires Inv(c) && Noted(c) && EnabledAll(c, es) && StrandsNone(c, es)
    ensures Inv(Run(c, es)) && Noted(Run(c, es))
    decreases |es|
  {
    hide Inv, Noted, Next, Strands, Enabled, Ready;
    if |es| == 0 {
    } else {
      NextKeeps(c, es[0]);
      NextNotesIff(c, es[0]);
      RunCovers(Next(c, es[0]), es[1..]);
    }
  }

  /** In every state reached by a run that strands nothing, all unsent bytes of established connections are polled
      for. */
  lemma EveryRunCovers(es: seq<Event>)
    requires EnabledAll(INITIAL, es) && StrandsNone(INITIAL, es)
    ensures Ready(Run(INITIAL, es).watch) && Covered(Run(INITIAL, es))
  {
    hide Covered, Noted, Run, EnabledAll, StrandsNone, Books;
    EmptyInStep(NoWatch(), DOWNLOADS);
    InitialIsFine();
    RunCovers(INITIAL, es);
    CoveredIsNoted(Run(INITIAL, es));
  }

  lemma InitialIsFine()
    requires InStep(NoWatch(), DOWNLOADS)
    ensures Inv(INITIAL) && Noted(INITIAL)
  {
  }

  /** A run of two events that does strand bytes: a connection is opened for a request, and its first write is cut
      short. */
  lemma FirstWriteIsStranded(client: Client, sock: Sock, host: string, port: int) returns (es: seq<Event>)
    ensures |es| == 2 && EnabledAll(INITIAL, es)
    ensures var c := Run(INITIAL, es);
            && Ready(c.watch) && sock in c.established && sock in c.unsent
            && sock !in c.watch.epoll[WriteDownload].sockets && !Covered(c)
  {
    hide Inv, Next, Covered, Books, Call, Ready;
    var open := Connecting(client, host, port, Socket(sock), true, Drained);
    var start := Connected(sock, Partial);
    es := [open, start];
    EmptyInStep(NoWatch(), DOWNLOADS);
    InitialIsFine();
    InvReady(INITIAL);
    var a := Next(INITIAL, open);
    NextKeeps(INITIAL, open);
    InvReady(a);
    var b := Next(a, start);
    OpenedNow(client, host, port, sock);
    StartedShort(a, sock);
    assert es[1..] == [start] && es[1..][1..] == [];
    assert EnabledAll(a, [start]) && Run(a, [start]) == b;
    assert Run(INITIAL, es) == b;
  }

  lemma OpenedNow(client: Client, host: string, port: int, sock: Sock)
    requires Enabled(INITIAL, Connecting(client, host, port, Socket(sock), true, Drained))
    ensures var a := Next(INITIAL, Connecting(client, host, port, Socket(sock), true, Drained));
            sock in a.opening && sock !in a.buffered
  {
    hide Call;
  }

  lemma StartedShort(a: Content, sock: Sock)
    requires Inv(a) && sock in a.opening && sock !in a.buffered
    ensures var b := Next(a, Connected(sock, Partial));
            && Inv(b) && Ready(b.watch) && sock in b.established && sock in b.unsent
            && sock !in b.watch.epoll[WriteDownload].sockets && !Covered(b)
  {
    hide Books, InStep, Call, StartWatch;
    var b := Next(a, Connected(sock, Partial));
    StartKeeps(a, sock, Partial);
    CoveredIsNoted(b);
    assert sock in b.established && sock in b.unsent && sock !in b.buffered;
    hide Covered;
  }

  // ----- sharing the poller ---------------------------------------------------------------------

  /** What others do on the shared poller does not concern the downloads. */
  lemma OthersKeepDownloads(c: Content, v: Watch)
    requires Inv(c) && Only(c.watch, v, CLIENTS)
    ensures Inv(c.(watch := v))
  {
    OthersKeep(c.watch, v, DOWNLOADS, CLIENTS);
    hide InStep;
  }

  lemma TellOnly(c: Content, n: Name, op: Op, s: Sock)
    requires Ready(c.watch) && n in DOWNLOADS
    ensures Ready(Tell(c, n, op, s).watch) && Only(c.watch, Tell(c, n, op, s).watch, DOWNLOADS)
  {
    CallOnly(c.watch, DOWNLOADS, n, op, s);
  }

  lemma TerminateOnly(c: Content, sock: Sock, client: Client)
    requires Ready(c.watch)
    ensures Ready(Terminate(c, sock, client).watch) && Only(c.watch, Terminate(c, sock, client).watch, DOWNLOADS)
  {
    hide EpollStep, SelectStep;
  }

  lemma EndClientOnly(c: Content, client: Client)
    requires Ready(c.watch)
    ensures Ready(EndClient(c, client).watch) && Only(c.watch, EndClient(c, client).watch, DOWNLOADS)
  {
    hide Terminate, Only;
    OnlyNone(c.watch, DOWNLOADS);
    if client in c.byclient {
      TerminateOnly(c, c.byclient[client].sock, client);
    }
  }

  lemma NoteOnly(c: Content, sock: Sock, added: bool, w: Written)
    requires Ready(c.watch)
    ensures Ready(Note(c, sock, added, w).watch) && Only(c.watch, Note(c, sock, added, w).watch, DOWNLOADS)
  {
    hide Only, Call;
    OnlyNone(c.watch, DOWNLOADS);
    CallOnly(c.watch, DOWNLOADS, WriteDownload, Add, sock);
    CallOnly(c.watch, DOWNLOADS, WriteDownload, Remove, sock);
  }

  lemma StartOnly(c: Content, sock: Sock, w: Written)
    requires Ready(c.watch)
    ensures Ready(Start(c, sock, w).watch) && Only(c.watch, Start(c, sock, w).watch, DOWNLOADS)
  {
    hide EpollStep, SelectStep;
  }

  lemma ConnectOnly(c: Content, client: Client, host: string, port: int, dial: Dial, request: bool, w: Written)
    requires Ready(c.watch)
    ensures var q := Connect(c, client, host, port, dial, request, w);
            Ready(q.watch) && Only(c.watch, q.watch, DOWNLOADS)
  {
    hide EndClient, Note, Only, Call;
    var reuse := client in c.byclient && c.byclient[client].host == host && c.byclient[client].port == port;
    var a := if client in c.byclient && !reuse then EndClient(c, client) else c;
    OnlyNone(c.watch, DOWNLOADS);
    EndClientOnly(c, client);
    EndClientOnly(a, client);
    if dial != NoAddress && reuse {
      NoteOnly(a, a.byclient[client].sock, request, w);
    } else if dial.Socket? && !reuse {
      CallOnly(a.watch, DOWNLOADS, OpeningDownload, Add, dial.sock);
    }
    var q := Connect(c, client, host, port, dial, request, w);
    OnlyTwice(c.watch, a.watch, q.watch, DOWNLOADS);
  }

  lemma SendClientOnly(c: Content, client: Client, added: bool, w: Written)
    requires Ready(c.watch)
    ensures var q := SendClient(c, client, added, w);
            Ready(q.watch) && Only(c.watch, q.watch, DOWNLOADS)
  {
    hide Note, Terminate, Only;
    OnlyNone(c.watch, DOWNLOADS);
    if client in c.byclient {
      NoteOnly(c, c.byclient[client].sock, added, w);
      TerminateOnly(c, c.byclient[client].sock, client);
    }
  }

  /** No operation tells the poller anything but about the downloads' events. */
  lemma NextOnly(c: Content, e: Event)
    requires Ready(c.watch)
    ensures Ready(Next(c, e).watch) && Only(c.watch, Next(c, e).watch, DOWNLOADS)
  {
    hide Connect, EndClient, Start, Terminate, Note, SendClient, Only, Call, Ready;
    OnlyNone(c.watch, DOWNLOADS);
    match e {
      case Connecting(client, host, port, dial, added, w) => ConnectOnly(c, client, host, port, dial, added, w);
      case Serving(client) => EndClientOnly(c, client);
      case Connected(sock, w) => StartOnly(c, sock, w);
      case Readable(sock, closed) =>
        if sock in c.established {
          TerminateOnly(c, sock, c.established[sock].client);
        }
      case Writable(sock, added, w) => NoteOnly(c, sock, added, w);
      case FromClient(client, added, w) => SendClientOnly(c, client, added, w);
      case Ending(client) => EndClientOnly(c, client);
      case Corking(client) =>
        if client in c.byclient {
          TellOnly(c, ReadDownload, Cork, c.byclient[client].sock);
        }
      case Uncorking(client) =>
        if client in c.byclient {
          TellOnly(c, ReadDownload, Uncork, c.byclient[client].sock);
        }
    }
  }

  /** The sockets of all downloads. */
  function Sockets(c: Content): set<Sock> {
    c.opening.Keys + c.established.Keys
  }

  /** No operation but connecting brings in a socket. */
  lemma NextSockets(c: Content, e: Event)
    requires Ready(c.watch)
    ensures Sockets(Next(c, e)) <= Sockets(c) + (if e.Connecting? && e.dial.Socket? then {e.dial.sock} else {})
  {
    hide Connect, Start, EndClient, Note, Call, Terminate, SendClient;
    match e {
      case Connecting(client, host, port, dial, added, w) => ConnectSockets(c, client, host, port, dial, added, w);
      case Serving(client) => EndClientSockets(c, client);
      case Connected(sock, w) => StartSockets(c, sock, w);
      case Readable(sock, closed) =>
        if sock in c.established {
          TerminateSockets(c, sock, c.established[sock].client);
        }
      case Writable(sock, added, w) => NoteSockets(c, sock, added, w);
      case FromClient(client, added, w) => SendClientSockets(c, client, added, w);
      case Ending(client) => EndClientSockets(c, client);
      case Corking(client) =>
      case Uncorking(client) =>
    }
  }

  lemma TerminateSockets(c: Content, sock: Sock, client: Client)
    requires Ready(c.watch)
    ensures Sockets(Terminate(c, sock, client)) <= Sockets(c)
  {
    hide Call;
  }

  lemma EndClientSockets(c: Content, client: Client)
    requires Ready(c.watch)
    ensures Ready(EndClient(c, client).watch) && Sockets(EndClient(c, client)) <= Sockets(c)
  {
    hide Terminate;
    EndClientOnly(c, client);
    if client in c.byclient {
      TerminateSockets(c, c.byclient[client].sock, client);
    }
  }

  lemma NoteSockets(c: Content, sock: Sock, added: bool, w: Written)
    requires Ready(c.watch)
    ensures Sockets(Note(c, sock, added, w)) == Sockets(c)
  {
    hide Call;
  }

  lemma StartSockets(c: Content, sock: Sock, w: Written)
    requires Ready(c.watch)
    ensures Sockets(Start(c, sock, w)) == Sockets(c)
  {
    hide StartWatch;
  }

  lemma ConnectSockets(c: Content, client: Client, host: string, port: int, dial: Dial, request: bool, w: Written)
    requires Ready(c.watch)
    ensures Sockets(Connect(c, client, host, port, dial, request, w))
            <= Sockets(c) + (if dial.Socket? then {dial.sock} else {})
  {
    hide EndClient, Note, Call, Ready, Sockets;
    var reuse := client in c.byclient && c.byclient[client].host == host && c.byclient[client].port == port;
    var a := if client in c.byclient && !reuse then EndClient(c, client) else c;
    EndClientSockets(c, client);
    EndClientSockets(a, client);
    if dial != NoAddress && reuse {
      NoteSockets(a, a.byclient[client].sock, request, w);
    } else if dial.Socket? && !reuse {
      OpenSockets(a, Download(client, dial.sock, host, port), request);
    }
  }

  lemma OpenSockets(c: Content, d: Download, request: bool)
    requires Ready(c.watch)
    ensures Sockets(Open(c, d, request)) <= Sockets(c) + {d.sock}
  {
    hide Call;
  }

  lemma SendClientSockets(c: Content, client: Client, added: bool, w: Written)
    requires Ready(c.watch)
    ensures Sockets(SendClient(c, client, added, w)) <= Sockets(c)
  {
    hide Note, Terminate;
    if client in c.byclient {
      NoteSockets(c, c.byclient[client].sock, added, w);
      TerminateSockets(c, c.byclient[client].sock, client);
    }
  }
}

/** What becomes of one client's download.  It is described alone, without the manager's tables, its other downloads and
    the poller's; the content manager, keeping all downloads in shared tables, is proved to do exactly that for each. */
module DownloadLives {
  import opened Wrappers
  import opened Pollers
  import opened Downloads

  // ----- a download alone -----------------------------------------------------------------------

  /** The download of a client: its socket and where it leads; whether the connection is open; for which of the three
      events the socket is watched; whether it is marked as having data to send; and whether it has any. */
  datatype Life =
    | Nothing
    | Life(sock: Sock, host: string, port: int, open: bool, awaited: bool, read: bool, written: bool, marked: bool, unsent: bool)

  /** Bytes are written, or the attempt fails.  While some are left the socket is marked, and watched from when it was
      marked on; when none are, neither. */
  function Wrote(l: Life, added: bool, w: Written): Life
    requires l.Life?
  {
    match w
    case Partial => l.(marked := true, written := l.written || !l.marked, unsent := true)
    case Drained => l.(marked := false, written := l.written && !l.marked, unsent := false)
    case Broken => l.(marked := false, written := l.written && !l.marked, unsent := l.unsent || added)
  }

  /** The socket that the operation is about, if it is about one. */
  predicate About(l: Life, sock: Sock) {
    l.Life? && l.sock == sock
  }

  /** One operation as it concerns client `k`. */
  function Alone(l: Life, e: Event, k: Client): Life {
    match e
    case Connecting(client, host, port, dial, added, w) =>
      if client != k then l
      else if l.Life? && l.host == host && l.port == port then
        if dial == NoAddress then Nothing else Wrote(l, added, w)
      else if dial.Socket? then Life(dial.sock, host, port, false, true, false, false, false, added)
      else Nothing
    case Serving(client) => if client == k then Nothing else l
    case Connected(sock, w) =>
      if About(l, sock) && !l.open then
        l.(open := true, awaited := false, read := true, written := l.marked,
           unsent := w == Partial || (w == Broken && l.unsent))
      else l
    case Readable(sock, closed) => if About(l, sock) && l.open && closed then Nothing else l
    case Writable(sock, added, w) => if About(l, sock) && l.open then Wrote(l, added, w) else l
    case FromClient(client, added, w) =>
      if client != k || l.Nothing? then l
      else if l.open then Wrote(l, added, w)
      else l.(marked := true, unsent := l.unsent || added)
    case Ending(client) => if client == k then Nothing else l
    case Corking(client) => if client == k && l.Life? then l.(read := false) else l
    case Uncorking(client) => if client == k && l.Life? && l.open then l.(read := true) else l
  }

  // ----- the manager's view of it -----------------------------------------------------------------

  function View(c: Content, k: Client): Life
    requires Ready(c.watch)
  {
    if k !in c.byclient then Nothing
    else
      var d := c.byclient[k];
      Life(d.sock, d.host, d.port, d.sock in c.established, d.sock in c.watch.epoll[OpeningDownload].kernel,
           d.sock in c.watch.epoll[ReadDownload].kernel, d.sock in c.watch.epoll[WriteDownload].kernel,
           d.sock in c.buffered, d.sock in c.unsent)
  }

  /** Different clients have different sockets. */
  lemma Apart(c: Content, k: Client, x: Client)
    requires Books(c) && k in c.byclient && x in c.byclient && k != x
    ensures c.byclient[k].sock != c.byclient[x].sock
  {
  }

  lemma InTables(c: Content, k: Client)
    requires Books(c) && k in c.byclient
    ensures var d := c.byclient[k];
            && (d.sock in c.opening <==> d.sock !in c.established)
            && (d.sock in c.opening ==> c.opening[d.sock] == d)
            && (d.sock in c.established ==> c.established[d.sock] == d)
            && d.client == k
  {
  }

  lemma SockIsSomeones(c: Content, sock: Sock)
    requires Books(c)
    ensures sock in c.established ==> c.established[sock].client in c.byclient &&
                                      c.byclient[c.established[sock].client] == c.established[sock] &&
                                      c.established[sock].sock == sock
    ensures sock in c.opening ==> c.opening[sock].client in c.byclient &&
                                  c.byclient[c.opening[sock].client] == c.opening[sock] && c.opening[sock].sock == sock
  {
  }


  // ----- each operation -----------------------------------------------------------------------------

  /** The download of another client, when one socket's is changed. */
  lemma OthersLive(c: Content, q: Content, sock: Sock, k: Client)
    requires Ready(c.watch) && Ready(q.watch)
    requires (k in c.byclient <==> k in q.byclient) && (k in c.byclient ==> q.byclient[k] == c.byclient[k])
    requires k in c.byclient ==> c.byclient[k].sock != sock
    requires forall x | x != sock :: (x in q.established <==> x in c.established)
    requires q.buffered - {sock} == c.buffered - {sock} && q.unsent - {sock} == c.unsent - {sock}
    requires forall n | n in DOWNLOADS :: q.watch.epoll[n].kernel - {sock} == c.watch.epoll[n].kernel - {sock}
    ensures View(q, k) == View(c, k)
  {
    if k in c.byclient {
      var x := c.byclient[k].sock;
      SameMember(c.buffered, q.buffered, sock, x);
      SameMember(c.unsent, q.unsent, sock, x);
      SameMember(c.watch.epoll[OpeningDownload].kernel, q.watch.epoll[OpeningDownload].kernel, sock, x);
      SameMember(c.watch.epoll[ReadDownload].kernel, q.watch.epoll[ReadDownload].kernel, sock, x);
      SameMember(c.watch.epoll[WriteDownload].kernel, q.watch.epoll[WriteDownload].kernel, sock, x);
    }
  }

  lemma SameMember(a: set<Sock>, b: set<Sock>, sock: Sock, x: Sock)
    requires a - {sock} == b - {sock} && x != sock
    ensures x in a <==> x in b
  {
    assert x in a <==> x in a - {sock};
    assert x in b <==> x in b - {sock};
  }

  lemma TerminateLives(c: Content, sock: Sock, k: Client)
    requires Inv(c) && (sock in c.established || sock in c.opening)
    ensures var j := (if sock in c.established then c.established[sock] else c.opening[sock]).client;
            var q := Terminate(c, sock, j);
            Ready(q.watch) && View(q, k) == if k == j then Nothing else View(c, k)
  {
    hide Watched, Terminate, Books;
    InvReady(c);
    var j := (if sock in c.established then c.established[sock] else c.opening[sock]).client;
    SockIsSomeones(c, sock);
    TerminateTables(c, sock, j);
    if k != j {
      if k in c.byclient {
        Apart(c, j, k);
      }
      OthersLive(c, Terminate(c, sock, j), sock, k);
    }
  }

  /** The client is forgotten, and nothing changes for other clients and sockets. */
  lemma TerminateTables(c: Content, sock: Sock, j: Client)
    requires Ready(c.watch) && (sock in c.established || sock in c.opening)
    ensures var q := Terminate(c, sock, j);
            && Ready(q.watch)
            && q.byclient == c.byclient - {j} && q.established == c.established - {sock}
            && q.buffered - {sock} == c.buffered - {sock} && q.unsent - {sock} == c.unsent - {sock}
            && forall n | n in DOWNLOADS :: q.watch.epoll[n].kernel - {sock} == c.watch.epoll[n].kernel - {sock}
  {
    hide Call;
    var n := if sock in c.established then ReadDownload else OpeningDownload;
    CallLeaves(c.watch, DOWNLOADS, n, Remove, sock);
    CallLeaves(Call(c.watch, n, Remove, sock), DOWNLOADS, WriteDownload, Remove, sock);
  }

  lemma EndLives(c: Content, client: Client, k: Client)
    requires Inv(c)
    ensures Ready(EndClient(c, client).watch)
    ensures View(EndClient(c, client), k) == if k == client then Nothing else View(c, k)
  {
    hide Watched, Terminate;
    InvReady(c);
    if client in c.byclient {
      InTables(c, client);
      TerminateLives(c, c.byclient[client].sock, k);
    }
  }

  /** What the marking of a socket and its registration for writing have to do with each other. */
  lemma WritingIs(c: Content, sock: Sock)
    requires Inv(c)
    ensures sock in c.watch.epoll[WriteDownload].kernel ==> sock in c.buffered
    ensures sock in c.established ==> (sock in c.watch.epoll[WriteDownload].kernel <==> sock in c.buffered)
  {
    hide Books;
    assert Agree(c.watch.epoll[WriteDownload], c.watch.select[WriteDownload]);
  }

  lemma NoteLives(c: Content, sock: Sock, added: bool, w: Written, k: Client)
    requires Inv(c) && (sock in c.established || sock in c.opening)
    ensures var q := Note(c, sock, added, w);
            && Ready(q.watch)
            && View(q, k) == if About(View(c, k), sock) then Wrote(View(c, k), added, w) else View(c, k)
  {
    hide Inv, Call, Note, Ready, Wrote;
    InvReady(c);
    NoteKeeps(c, sock, added, w);
    InvReady(Note(c, sock, added, w));
    NoteTables(c, sock, added, w);
    if About(View(c, k), sock) {
      NoteWatches(c, sock, added, w);
      NoteOwn(c, sock, added, w, k);
    } else {
      OthersLive(c, Note(c, sock, added, w), sock, k);
    }
  }

  /** The tables stay, and nothing changes for other sockets. */
  lemma NoteTables(c: Content, sock: Sock, added: bool, w: Written)
    requires Ready(c.watch)
    ensures var q := Note(c, sock, added, w);
            && q.byclient == c.byclient && q.established == c.established && q.opening == c.opening
            && q.buffered - {sock} == c.buffered - {sock} && q.unsent - {sock} == c.unsent - {sock}
            && Ready(q.watch)
            && forall n | n in DOWNLOADS :: q.watch.epoll[n].kernel - {sock} == c.watch.epoll[n].kernel - {sock}
  {
    hide Call;
    CallLeaves(c.watch, DOWNLOADS, WriteDownload, if w == Partial then Add else Remove, sock);
  }

  lemma NoteOwn(c: Content, sock: Sock, added: bool, w: Written, k: Client)
    requires Ready(c.watch) && k in c.byclient && c.byclient[k].sock == sock
    requires var q := Note(c, sock, added, w);
             && Ready(q.watch)
             && q.watch.epoll[OpeningDownload] == c.watch.epoll[OpeningDownload]
             && q.watch.epoll[ReadDownload] == c.watch.epoll[ReadDownload]
             && (sock in q.watch.epoll[WriteDownload].kernel <==>
                   if w == Partial then sock in c.watch.epoll[WriteDownload].kernel || sock !in c.buffered else
                   sock in c.watch.epoll[WriteDownload].kernel && sock !in c.buffered)
    ensures View(Note(c, sock, added, w), k) == Wrote(View(c, k), added, w)
  {
    hide Call, Ready;
  }

  /** The socket itself. */
  lemma NoteWatches(c: Content, sock: Sock, added: bool, w: Written)
    requires Inv(c) && (sock in c.established || sock in c.opening)
    ensures Ready(Note(c, sock, added, w).watch)
    ensures var (e, f) := (c.watch.epoll, Note(c, sock, added, w).watch.epoll);
            && f[OpeningDownload] == e[OpeningDownload] && f[ReadDownload] == e[ReadDownload]
            && (sock in f[WriteDownload].kernel <==>
                  if w == Partial then sock in e[WriteDownload].kernel || sock !in c.buffered else
                  sock in e[WriteDownload].kernel && sock !in c.buffered)
  {
    assert Agree(c.watch.epoll[WriteDownload], c.watch.select[WriteDownload]);
    CallWatches(c.watch, DOWNLOADS, WriteDownload, if w == Partial then Add else Remove, sock, sock);
    hide InStep, Books, Call, Agree;
  }

  lemma OpenLives(c: Content, d: Download, request: bool, k: Client)
    requires Inv(c) && d.client !in c.byclient && d.sock !in c.opening && d.sock !in c.established
    ensures var q := Open(c, d, request);
            && Ready(q.watch)
            && View(q, k) == if k == d.client then Life(d.sock, d.host, d.port, false, true, false, false, false, request)
                             else View(c, k)
  {
    hide Call, Agree, SelectStep;
    InvReady(c);
    CallLeaves(c.watch, DOWNLOADS, OpeningDownload, Add, d.sock);
    OpenWatches(c, d.sock);
    if k == d.client {
      BooksDisjoint(c);
      assert d.sock !in c.unsent;
    } else {
      if k in c.byclient {
        InTables(c, k);
      }
      hide Books, Watched;
      OthersLive(c, Open(c, d, request), d.sock, k);
    }
  }

  /** A socket that is in no table is watched for nothing but what it is added for. */
  lemma OpenWatches(c: Content, sock: Sock)
    requires Inv(c) && sock !in c.opening && sock !in c.established
    ensures var e := Call(c.watch, OpeningDownload, Add, sock).epoll;
            && SetUp(Call(c.watch, OpeningDownload, Add, sock), DOWNLOADS)
            && sock in e[OpeningDownload].kernel && sock !in e[ReadDownload].kernel && sock !in e[WriteDownload].kernel
            && sock !in c.buffered
  {
    hide SelectStep;
    BooksDisjoint(c);
    WritingIs(c, sock);
    assert Agree(c.watch.epoll[OpeningDownload], c.watch.select[OpeningDownload]);
    assert Agree(c.watch.epoll[ReadDownload], c.watch.select[ReadDownload]);
    hide Books;
  }

  lemma ConnectLives(c: Content, client: Client, host: string, port: int, dial: Dial, request: bool, w: Written, k: Client)
    requires Inv(c) && Enabled(c, Connecting(client, host, port, dial, request, w))
    ensures var q := Connect(c, client, host, port, dial, request, w);
            Ready(q.watch) && View(q, k) == Alone(View(c, k), Connecting(client, host, port, dial, request, w), k)
  {
    hide Inv, Note, Open, EndClient, Wrote, View, Ready;
    InvReady(c);
    var reuse := client in c.byclient && c.byclient[client].host == host && c.byclient[client].port == port;
    ViewIs(c, client);
    ViewIs(c, k);
    if reuse && dial != NoAddress {
      HasSocket(c, client);
      NoteLives(c, c.byclient[client].sock, request, w, k);
      AboutIs(c, client, k);
    } else {
      EndLives(c, client, k);
      EndLives(c, client, client);
      EndClientKeeps(c, client);
      EndClientShrinks(c, client);
      var a := EndClient(c, client);
      NotThere(c, client);
      EndLives(a, client, k);
      NotThere(a, client);
      if dial.Socket? && !reuse {
        OpenLives(a, Download(client, dial.sock, host, port), request, k);
      }
    }
  }

  lemma ViewIs(c: Content, k: Client)
    requires Ready(c.watch)
    ensures View(c, k).Life? <==> k in c.byclient
    ensures k in c.byclient ==>
              var (l, d) := (View(c, k), c.byclient[k]); l.sock == d.sock && l.host == d.host && l.port == d.port
  {
  }

  lemma HasSocket(c: Content, client: Client)
    requires Inv(c) && client in c.byclient
    ensures c.byclient[client].sock in c.established || c.byclient[client].sock in c.opening
  {
    hide Watched;
  }

  /** A client's socket is nobody else's. */
  lemma AboutIs(c: Content, client: Client, k: Client)
    requires Inv(c) && Ready(c.watch) && client in c.byclient
    ensures About(View(c, k), c.byclient[client].sock) <==> k == client
  {
    hide Watched;
    if k != client && k in c.byclient {
      Apart(c, client, k);
    }
    hide Books;
  }

  lemma NotThere(c: Content, client: Client)
    requires Ready(c.watch)
    ensures client !in c.byclient ==> EndClient(c, client) == c
  {
  }

  /** What the poller watches a socket for once its connection is open. */
  lemma StartWatches(c: Content, sock: Sock)
    requires Inv(c) && sock in c.opening
    ensures var v := StartWatch(c.watch, sock, sock in c.buffered);
            && SetUp(v, DOWNLOADS)
            && (forall n | n in DOWNLOADS :: v.epoll[n].kernel - {sock} == c.watch.epoll[n].kernel - {sock})
            && sock !in v.epoll[OpeningDownload].kernel && sock in v.epoll[ReadDownload].kernel
            && (sock in v.epoll[WriteDownload].kernel <==> sock in c.buffered)
  {
    BooksDisjoint(c);
    var w := c.watch;
    assert w.epoll[ReadDownload].corked <= w.epoll[ReadDownload].sockets by {
      assert Agree(w.epoll[ReadDownload], w.select[ReadDownload]);
    }
    hide Books, Agree, Call;
    CallKeeps(w, DOWNLOADS, WriteDownload, Remove, sock);
    var a := Call(w, WriteDownload, Remove, sock);
    CallTells(w, DOWNLOADS, WriteDownload, Remove, sock);
    CallKeeps(a, DOWNLOADS, OpeningDownload, Remove, sock);
    var b := Call(a, OpeningDownload, Remove, sock);
    CallTells(a, DOWNLOADS, OpeningDownload, Remove, sock);
    CallKeeps(b, DOWNLOADS, ReadDownload, Add, sock);
    var d := Call(b, ReadDownload, Add, sock);
    CallTells(b, DOWNLOADS, ReadDownload, Add, sock);
    CallTells(d, DOWNLOADS, WriteDownload, Add, sock);
  }

  lemma StartLives(c: Content, sock: Sock, w: Written, k: Client)
    requires Inv(c)
    ensures var q := Start(c, sock, w);
            Ready(q.watch) && View(q, k) == Alone(View(c, k), Connected(sock, w), k)
  {
    hide Inv, StartWatch, Ready;
    InvReady(c);
    StartKeeps(c, sock, w);
    InvReady(Start(c, sock, w));
    ViewIs(c, k);
    if sock !in c.opening {
      NotOpening(c, sock, k);
    } else {
      StartWatches(c, sock);
      OpeningIs(c, sock);
      AboutIs(c, c.opening[sock].client, k);
      if About(View(c, k), sock) {
        StartOwn(c, sock, w, k);
      } else {
        StartOthers(c, sock, w, k);
      }
    }
  }

  lemma OpeningIs(c: Content, sock: Sock)
    requires Inv(c) && sock in c.opening
    ensures var j := c.opening[sock].client; j in c.byclient && c.byclient[j].sock == sock && sock !in c.established
  {
    hide Watched;
    SockIsSomeones(c, sock);
  }

  lemma NotOpening(c: Content, sock: Sock, k: Client)
    requires Inv(c) && Ready(c.watch) && sock !in c.opening
    ensures !(About(View(c, k), sock) && !View(c, k).open)
  {
    hide Watched;
  }

  lemma StartOwn(c: Content, sock: Sock, w: Written, k: Client)
    requires Ready(c.watch) && sock in c.opening && sock !in c.established && k in c.byclient && c.byclient[k].sock == sock
    requires var v := StartWatch(c.watch, sock, sock in c.buffered);
             && SetUp(v, DOWNLOADS)
             && sock !in v.epoll[OpeningDownload].kernel && sock in v.epoll[ReadDownload].kernel
             && (sock in v.epoll[WriteDownload].kernel <==> sock in c.buffered)
    ensures Ready(Start(c, sock, w).watch) && View(Start(c, sock, w), k) == Alone(View(c, k), Connected(sock, w), k)
  {
    hide StartWatch;
  }

  lemma StartOthers(c: Content, sock: Sock, w: Written, k: Client)
    requires Ready(c.watch) && sock in c.opening && !About(View(c, k), sock)
    requires var v := StartWatch(c.watch, sock, sock in c.buffered);
             SetUp(v, DOWNLOADS) && forall n | n in DOWNLOADS :: v.epoll[n].kernel - {sock} == c.watch.epoll[n].kernel - {sock}
    ensures Ready(Start(c, sock, w).watch) && View(Start(c, sock, w), k) == View(c, k)
  {
    hide StartWatch;
    OthersLive(c, Start(c, sock, w), sock, k);
  }

  lemma ReadLives(c: Content, sock: Sock, closed: bool, k: Client)
    requires Inv(c)
    ensures var q := Read(c, sock, closed);
            Ready(q.watch) && View(q, k) == Alone(View(c, k), Readable(sock, closed), k)
  {
    hide Terminate, Watched;
    InvReady(c);
    SockIsSomeones(c, sock);
    if sock in c.established {
      AboutIs(c, c.established[sock].client, k);
      TerminateLives(c, sock, k);
    }
    ViewIs(c, k);
  }

  lemma SendLives(c: Content, sock: Sock, added: bool, w: Written, k: Client)
    requires Inv(c)
    ensures var q := SendSocket(c, sock, added, w);
            Ready(q.watch) && View(q, k) == Alone(View(c, k), Writable(sock, added, w), k)
  {
    hide Note, Watched, Wrote;
    InvReady(c);
    SockIsSomeones(c, sock);
    if sock in c.established {
      NoteLives(c, sock, added, w, k);
    }
    ViewIs(c, k);
  }

  lemma FromClientLives(c: Content, client: Client, added: bool, w: Written, k: Client)
    requires Inv(c)
    ensures var q := SendClient(c, client, added, w);
            Ready(q.watch) && View(q, k) == Alone(View(c, k), FromClient(client, added, w), k)
  {
    hide Note, Inv, Wrote, Ready;
    InvReady(c);
    ViewIs(c, k);
    if client in c.byclient {
      var sock := c.byclient[client].sock;
      HasSocket(c, client);
      AboutIs(c, client, k);
      if sock in c.established {
        NoteLives(c, sock, added, w, k);
      } else if k != client {
        OthersLive(c, SendClient(c, client, added, w), sock, k);
      }
    }
  }

  lemma CorkLives(c: Content, client: Client, k: Client)
    requires Inv(c)
    ensures Ready(CorkClient(c, client).watch) && View(CorkClient(c, client), k) == Alone(View(c, k), Corking(client), k)
  {
    hide Books, Agree, Call;
    InvReady(c);
    if client in c.byclient {
      var sock := c.byclient[client].sock;
      CallTells(c.watch, DOWNLOADS, ReadDownload, Cork, sock);
      AboutIs(c, client, k);
      hide Inv, InStep;
      if k != client {
        OthersLive(c, CorkClient(c, client), sock, k);
      }
    }
  }

  lemma UncorkLives(c: Content, client: Client, k: Client)
    requires Inv(c)
    ensures Ready(UncorkClient(c, client).watch) && View(UncorkClient(c, client), k) == Alone(View(c, k), Uncorking(client), k)
  {
    hide Books, Agree, Call;
    InvReady(c);
    if client in c.byclient && c.byclient[client].sock in c.established {
      var sock := c.byclient[client].sock;
      CallTells(c.watch, DOWNLOADS, ReadDownload, Uncork, sock);
      AboutIs(c, client, k);
      hide Inv, InStep;
      if k != client {
        OthersLive(c, UncorkClient(c, client), sock, k);
      }
    }
  }

  /** In every operation, each client's download becomes what it would if it were alone. */
  lemma NextIsAlone(c: Content, e: Event, k: Client)
    requires Inv(c) && Enabled(c, e)
    ensures Ready(c.watch) && Ready(Next(c, e).watch) && View(Next(c, e), k) == Alone(View(c, k), e, k)
  {
    hide Inv, View, Alone, Connect, EndClient, Start, Read, SendSocket, SendClient, CorkClient, UncorkClient, Enabled, Ready;
    InvReady(c);
    match e {
      case Connecting(client, host, port, dial, added, w) => ConnectLives(c, client, host, port, dial, added, w, k);
      case Serving(client) => EndedAlone(c, client, k);
      case Connected(sock, w) => StartLives(c, sock, w, k);
      case Readable(sock, closed) => ReadLives(c, sock, closed, k);
      case Writable(sock, added, w) => SendLives(c, sock, added, w, k);
      case FromClient(client, added, w) => FromClientLives(c, client, added, w, k);
      case Ending(client) => EndedAlone(c, client, k);
      case Corking(client) => CorkLives(c, client, k);
      case Uncorking(client) => UncorkLives(c, client, k);
    }
  }

  lemma EndedAlone(c: Content, client: Client, k: Client)
    requires Inv(c)
    ensures Ready(c.watch) && Ready(EndClient(c, client).watch)
    ensures View(EndClient(c, client), k) == Alone(View(c, k), Ending(client), k)
    ensures View(EndClient(c, client), k) == Alone(View(c, k), Serving(client), k)
  {
    hide Inv, View, EndClient;
    InvReady(c);
    EndLives(c, client, k);
  }

  /** All operations of a run, one after the other. */
  function AloneAll(l: Life, es: seq<Event>, k: Client): Life
    decreases |es|
  {
    if |es| == 0 then l else AloneAll(Alone(l, es[0], k), es[1..], k)
  }

  lemma {:induction false} RunIsAlone(c: Content, es: seq<Event>, k: Client)
    requires Inv(c) && EnabledAll(c, es)
    ensures Ready(c.watch) && Ready(Run(c, es).watch) && View(Run(c, es), k) == AloneAll(View(c, k), es, k)
    decreases |es|
  {
    hide Inv, View, Alone, Next, Enabled, Ready;
    InvReady(c);
    if |es| == 0 {
    } else {
      NextIsAlone(c, es[0], k);
      NextKeeps(c, es[0]);
      RunIsAlone(Next(c, es[0]), es[1..], k);
    }
  }

  /** After any operations from the start, every client's download is what these operations make of it alone. */
  lemma EveryRunIsAlone(es: seq<Event>, k: Client)
    requires EnabledAll(INITIAL, es)
    ensures Ready(Run(INITIAL, es).watch) && View(Run(INITIAL, es), k) == AloneAll(Nothing, es, k)
  {
    hide Run, EnabledAll, AloneAll;
    InitialIsFine();
    RunIsAlone(INITIAL, es, k);
  }
}

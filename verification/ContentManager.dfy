/** The content manager itself, updating its tables in place and driving the poller it shares.  The ghost field
    follows which downloads have unsent bytes of their own. */
module ContentManagement {
  import opened Wrappers
  import opened Pollers
  import D = Downloads

  class ContentManager {
    var opening: map<Sock, D.Download>
    var established: map<Sock, D.Download>
    var byclient: map<D.Client, D.Download>
    var buffered: set<Sock>
    const poller: EPoller
    ghost var unsent: set<Sock>

    ghost function State(): D.Content
      reads this, poller
    {
      D.Content(opening, established, byclient, buffered, unsent, poller.Watching())
    }

    /** The tables match each other and the registrations, and the two pollers would watch the same sockets. */
    ghost predicate Valid()
      reads this, poller
    {
      D.Inv(State())
    }

    ghost predicate Ready()
      reads this, poller
    {
      D.Ready(State().watch)
    }

    constructor (poller: EPoller)
      requires Empty(poller.Watching(), DOWNLOADS)
      ensures this.poller == poller && State() == D.INITIAL.(watch := poller.Watching()) && Valid()
    {
      this.poller := poller;
      opening, established, byclient, buffered, unsent := map[], map[], map[], {}, {};
      new;
      EmptyInStep(poller.Watching(), DOWNLOADS);
    }

    /** The calls of the poller's add, remove, cork and uncork methods. */
    method Tell(n: Name, op: Op, s: Sock)
      requires Ready() && n in DOWNLOADS
      modifies poller
      ensures State() == D.Tell(old(State()), n, op, s) && Ready()
    {
      var res;
      match op {
        case Add => res := poller.AddSocket(n, s);
        case Remove => poller.RemoveSocket(n, s);
        case Cork => res := poller.CorkSocket(n, s);
        case Uncork => res := poller.UncorkSocket(n, s);
      }
      CallOnly(old(poller.Watching()), DOWNLOADS, n, op, s);
    }

    method Terminate(sock: Sock, client: D.Client) returns (res: bool)
      requires Valid()
      requires sock in established ==> established[sock].client == client
      requires sock in opening ==> opening[sock].client == client
      modifies this, poller
      ensures Valid() && State() == D.Terminate(old(State()), sock, client)
      ensures Only(old(poller.Watching()), poller.Watching(), DOWNLOADS)
      ensures res <==> sock in old(established) || sock in old(opening)
    {
      hide D.Books, InStep, Only, Call;
      D.TerminateKeeps(State(), sock, client);
      D.TerminateOnly(State(), sock, client);
      if sock in established {
        Tell(ReadDownload, Remove, sock);
      } else if sock in opening {
        Tell(OpeningDownload, Remove, sock);
      } else {
        return false;
      }
      established := established - {sock};
      opening := opening - {sock};
      byclient := byclient - {client};
      unsent := unsent - {sock};
      if sock in buffered {
        buffered := buffered - {sock};
        Tell(WriteDownload, Remove, sock);
      }
      return true;
    }

    method EndClientDownload(client: D.Client) returns (res: bool)
      requires Valid()
      modifies this, poller
      ensures Valid() && State() == D.EndClient(old(State()), client)
      ensures Only(old(poller.Watching()), poller.Watching(), DOWNLOADS)
    {
      hide InStep, Only, Call;
      D.EndClientOnly(State(), client);
      if client in byclient {
        res := Terminate(byclient[client].sock, client);
      } else {
        res := false;
      }
    }

    /** What each sender does with the outcome of a write; whether the marking changed. */
    method Note(sock: Sock, ghost added: bool, w: D.Written) returns (change: bool)
      requires Valid() && (sock in opening || sock in established)
      modifies this, poller
      ensures Valid() && State() == D.Note(old(State()), sock, added, w)
      ensures Only(old(poller.Watching()), poller.Watching(), DOWNLOADS)
      ensures change <==> buffered != old(buffered)
    {
      hide D.Books, InStep, Only, Call;
      D.NoteKeeps(State(), sock, added, w);
      D.NoteOnly(State(), sock, added, w);
      unsent := D.Kept(State(), sock, D.Left(State(), sock, added, w)).unsent;
      change := false;
      if w == D.Partial {
        if sock !in buffered {
          buffered := buffered + {sock};
          change := true;
          assert sock in buffered;
          Tell(WriteDownload, Add, sock);
        }
      } else if sock in buffered {
        buffered := buffered - {sock};
        change := true;
        assert sock !in buffered;
        Tell(WriteDownload, Remove, sock);
      }
    }

    /** `getDownloader` and the end of `getContent`; a new connection gets a new socket. */
    method Connect(client: D.Client, host: string, port: int, dial: D.Dial, ghost request: bool, w: D.Written)
      requires Valid() && (dial.Socket? ==> dial.sock !in opening && dial.sock !in established)
      modifies this, poller
      ensures Valid() && State() == D.Connect(old(State()), client, host, port, dial, request, w)
      ensures Only(old(poller.Watching()), poller.Watching(), DOWNLOADS)
    {
      hide D.Terminate, D.Note, D.Tell, D.Watched, D.Opened, Only, Call;
      ghost var c := State();
      D.InvReady(c);
      D.ConnectKeeps(c, client, host, port, dial, request, w);
      D.ConnectOnly(c, client, host, port, dial, request, w);
      D.EndClientKeeps(c, client);
      var reuse := false;
      if client in byclient {
        reuse := byclient[client].host == host && byclient[client].port == port;
        if !reuse {
          var _ := EndClientDownload(client);
        }
      }
      if dial != D.NoAddress && reuse {
        var _ := Note(byclient[client].sock, request, w);
      } else if dial.Socket? && !reuse {
        D.InvReady(State());
        OpenDownload(D.Download(client, dial.sock, host, port), request);
      } else {
        var _ := EndClientDownload(client);
      }
    }

    method OpenDownload(d: D.Download, ghost request: bool)
      requires Ready()
      modifies this, poller
      ensures State() == D.Open(old(State()), d, request)
    {
      unsent := D.Opened(State(), d, request).unsent;
      opening := opening[d.sock := d];
      byclient := byclient[d.client := d];
      Tell(OpeningDownload, Add, d.sock);
    }

    /** `startDownload`; `w` is the outcome of writing the request. */
    method StartDownload(sock: Sock, w: D.Written) returns (client: Option<D.Client>, change: bool)
      requires Valid()
      modifies this, poller
      ensures Valid() && State() == D.Start(old(State()), sock, w)
      ensures Only(old(poller.Watching()), poller.Watching(), DOWNLOADS)
      ensures client == if sock in old(opening) then Some(old(opening)[sock].client) else None
    {
      hide D.Books, InStep, Only, Call;
      D.StartKeeps(State(), sock, w);
      D.StartOnly(State(), sock, w);
      if sock !in opening {
        return None, false;
      }
      var d := opening[sock];
      unsent := D.Kept(State(), sock, D.Left(State(), sock, false, w)).unsent;
      opening := opening - {sock};
      Tell(WriteDownload, Remove, sock);
      established := established[sock := d];
      Tell(OpeningDownload, Remove, sock);
      Tell(ReadDownload, Add, sock);
      change := sock in buffered;
      if change {
        Tell(WriteDownload, Add, sock);
      }
      client := Some(d.client);
    }

    method ReadData(sock: Sock, closed: bool)
      requires Valid()
      modifies this, poller
      ensures Valid() && State() == D.Read(old(State()), sock, closed)
      ensures Only(old(poller.Watching()), poller.Watching(), DOWNLOADS)
      ensures sock in old(established) && closed ==>
                && sock !in established && sock !in opening && old(established)[sock].client !in byclient
                && forall n | n in DOWNLOADS :: n in poller.events && sock !in poller.events[n].sockets
      ensures !(sock in old(established) && closed) ==> State() == old(State())
    {
      hide InStep, Only, Call;
      ghost var c := State();
      D.EstablishedOnly(State(), sock);
      OnlyNone(poller.Watching(), DOWNLOADS);
      if sock in established && closed {
        D.TerminateKeeps(c, sock, established[sock].client);
        var _ := Terminate(sock, established[sock].client);
        D.GoneIsUnwatched(State(), sock);
      }
    }

    method SendSocketData(sock: Sock, ghost added: bool, w: D.Written)
      requires Valid()
      modifies this, poller
      ensures Valid() && State() == D.SendSocket(old(State()), sock, added, w)
      ensures Only(old(poller.Watching()), poller.Watching(), DOWNLOADS)
    {
      hide D.Books, InStep, D.Note, Only, Call;
      OnlyNone(poller.Watching(), DOWNLOADS);
      if sock in established {
        var _ := Note(sock, added, w);
      }
    }

    method SendClientData(client: D.Client, ghost added: bool, w: D.Written)
      requires Valid()
      modifies this, poller
      ensures Valid() && State() == D.SendClient(old(State()), client, added, w)
      ensures Only(old(poller.Watching()), poller.Watching(), DOWNLOADS)
    {
      hide InStep, D.Note, Only, Call;
      D.SendClientKeeps(State(), client, added, w);
      D.SendClientOnly(State(), client, added, w);
      if client in byclient {
        var sock := byclient[client].sock;
        if sock in established {
          var _ := Note(sock, added, w);
        } else if sock in opening {
          unsent := D.Kept(State(), sock, added || sock in unsent).unsent;
          buffered := buffered + {sock};
        } else {
          assert false;      // a client's socket is opening or established
        }
      }
    }

    method CorkClientDownload(client: D.Client)
      requires Valid()
      modifies this, poller
      ensures Valid() && State() == D.CorkClient(old(State()), client)
      ensures Only(old(poller.Watching()), poller.Watching(), DOWNLOADS)
    {
      hide D.Books, InStep, Only, Call;
      D.CorkKeeps(State(), client);
      OnlyNone(poller.Watching(), DOWNLOADS);
      if client in byclient {
        D.TellOnly(State(), ReadDownload, Cork, byclient[client].sock);
        Tell(ReadDownload, Cork, byclient[client].sock);
      }
    }

    method UncorkClientDownload(client: D.Client)
      requires Valid()
      modifies this, poller
      ensures Valid() && State() == D.UncorkClient(old(State()), client)
      ensures Only(old(poller.Watching()), poller.Watching(), DOWNLOADS)
    {
      hide D.Books, InStep, Only, Call;
      D.CorkKeeps(State(), client);
      OnlyNone(poller.Watching(), DOWNLOADS);
      if client in byclient && byclient[client].sock in established {
        D.TellOnly(State(), ReadDownload, Uncork, byclient[client].sock);
        Tell(ReadDownload, Uncork, byclient[client].sock);
      }
    }

    /** Any of these operations. */
    method On(e: D.Event)
      requires Valid() && D.Enabled(State(), e)
      modifies this, poller
      ensures Valid() && Ready() && old(Ready()) && State() == D.Next(old(State()), e)
      ensures Only(old(poller.Watching()), poller.Watching(), DOWNLOADS)
    {
      hide D.Inv, Only, D.Connect, D.EndClient, D.Start, D.Read, D.SendSocket, D.SendClient, D.CorkClient, D.UncorkClient;
      D.InvReady(State());
      D.NextOnly(State(), e);
      match e {
        case Connecting(client, host, port, dial, added, w) => Connect(client, host, port, dial, added, w);
        case Serving(client) => var _ := EndClientDownload(client);
        case Connected(sock, w) => var _, _ := StartDownload(sock, w);
        case Readable(sock, closed) => ReadData(sock, closed);
        case Writable(sock, added, w) => SendSocketData(sock, added, w);
        case FromClient(client, added, w) => SendClientData(client, added, w);
        case Ending(client) => var _ := EndClientDownload(client);
        case Corking(client) => CorkClientDownload(client);
        case Uncorking(client) => UncorkClientDownload(client);
      }
    }
  }
}

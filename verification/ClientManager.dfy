/** The client manager itself, updating its tables in place and driving the poller it shares. */
module ClientManagement {
  import opened Basics
  import opened Wrappers
  import opened Pollers
  import C = Clients

  class ClientManager {
    var norequest: map<Sock, C.ClientName>
    var bysock: map<Sock, C.ClientName>
    var byname: map<C.ClientName, Sock>
    var buffered: seq<Sock>
    var nextid: C.ClientName
    const poller: EPoller

    ghost function State(): C.Clients
      reads this, poller
    {
      C.Clients(norequest, bysock, byname, multiset(buffered), nextid, poller.Watching())
    }

    /** The tables match each other and the registrations, and the two pollers would watch the same sockets. */
    ghost predicate Valid()
      reads this, poller
    {
      C.Inv(State())
    }

    ghost predicate Ready()
      reads this, poller
    {
      C.Ready(State().watch)
    }

    constructor (poller: EPoller)
      requires Empty(poller.Watching(), CLIENTS)
      ensures this.poller == poller && State() == C.INITIAL.(watch := poller.Watching()) && Valid()
    {
      this.poller := poller;
      norequest, bysock, byname, buffered, nextid := map[], map[], map[], [], 0;
      new;
      EmptyInStep(poller.Watching(), CLIENTS);
    }

    /** The calls of the poller's add, remove, cork and uncork methods. */
    method Tell(n: Name, op: Op, s: Sock)
      requires Ready() && n in CLIENTS
      modifies poller
      ensures State() == C.Tell(old(State()), n, op, s) && Ready()
    {
      var res;
      match op {
        case Add => res := poller.AddSocket(n, s);
        case Remove => poller.RemoveSocket(n, s);
        case Cork => res := poller.CorkSocket(n, s);
        case Uncork => res := poller.UncorkSocket(n, s);
      }
      CallOnly(old(poller.Watching()), CLIENTS, n, op, s);
    }

    /** `httpConnection`, `icapConnection` and `tlsConnection`; a new connection has a new socket. */
    method Connection(sock: Sock) returns (name: C.ClientName)
      requires Valid() && sock !in norequest && sock !in bysock
      modifies this, poller
      ensures Valid() && State() == C.Accept(old(State()), sock) && name in byname && byname[name] == sock
      ensures Only(old(poller.Watching()), poller.Watching(), CLIENTS)
    {
      hide C.Books, InStep, Only, Call;
      C.AcceptKeeps(State(), sock);
      CallOnly(poller.Watching(), CLIENTS, OpeningClient, Add, sock);
      nextid := nextid + 1;
      name := nextid;
      norequest := norequest[sock := name];
      byname := byname[name := sock];
      Tell(OpeningClient, Add, sock);
    }

    method PassthroughConnection(sock: Sock) returns (name: C.ClientName)
      requires Valid() && sock !in norequest && sock !in bysock
      modifies this, poller
      ensures Valid() && State() == C.AcceptPassthrough(old(State()), sock) && name in byname && byname[name] == sock
      ensures Only(old(poller.Watching()), poller.Watching(), CLIENTS)
    {
      hide C.Books, InStep, Only, Call;
      C.AcceptPassthroughKeeps(State(), sock);
      CallOnly(poller.Watching(), CLIENTS, ReadClient, Add, sock);
      nextid := nextid + 1;
      name := nextid;
      bysock := bysock[sock := name];
      byname := byname[name := sock];
      Tell(ReadClient, Add, sock);
    }

    /** An unknown socket is an error that changes nothing but the list. */
    method Cleanup(sock: Sock, name: C.ClientName)
      requires Valid()
      requires C.Matching(State(), sock, name)
      modifies this, poller
      ensures Valid() && State() == C.Cleanup(old(State()), sock, name)
      ensures Only(old(poller.Watching()), poller.Watching(), CLIENTS)
    {
      hide C.Inv, C.Matching, C.CleanupWatch, Only;
      C.InvReady(State());
      C.CleanupKeeps(State(), sock, name);
      C.CleanupOnly(State(), sock, name);
      if sock in bysock || sock in norequest {
        CleanupPoller(sock);
      }
      bysock := bysock - {sock};
      norequest := norequest - {sock};
      byname := byname - {name};
      WithoutCounts(buffered, sock);
      buffered := Basics.Remove(buffered, sock);
    }

    method CleanupPoller(sock: Sock)
      requires Ready()
      modifies poller
      ensures State() == old(State()).(watch := C.CleanupWatch(old(State()).watch, sock))
    {
      Tell(WriteClient, Remove, sock);
      Tell(ReadClient, Remove, sock);
      Tell(OpeningClient, Remove, sock);
    }

    /** What `expire` does about a socket that was idle for too long. */
    method Expire(sock: Sock)
      requires Valid()
      modifies this, poller
      ensures Valid()
      ensures State() == if sock in old(norequest) then C.Cleanup(old(State()), sock, old(norequest)[sock]) else old(State())
      ensures Only(old(poller.Watching()), poller.Watching(), CLIENTS)
    {
      hide C.Inv, C.Cleanup, Only;
      OnlyNone(poller.Watching(), CLIENTS);
      if sock in norequest {
        Cleanup(sock, norequest[sock]);
      }
    }

    method ReadRequest(sock: Sock, got: C.Got)
      requires Valid()
      modifies this, poller
      ensures Valid() && State() == C.ReadRequest(old(State()), sock, got)
      ensures Only(old(poller.Watching()), poller.Watching(), CLIENTS)
    {
      hide C.Books, InStep, C.Cleanup, Only, Call;
      C.ReadRequestKeeps(State(), sock, got);
      C.ReadRequestOnly(State(), sock, got);
      if sock in norequest {
        var client := norequest[sock];
        if got == C.Request {
          norequest := norequest - {sock};
          bysock := bysock[sock := client];
          Tell(ReadClient, Add, sock);
          Tell(OpeningClient, Remove, sock);
          Tell(ReadClient, Cork, sock);
        } else if got == C.Closed {
          Cleanup(sock, client);
        }
      }
    }

    method ReadData(sock: Sock, got: C.Got)
      requires Valid()
      modifies this, poller
      ensures Valid() && State() == C.ReadData(old(State()), sock, got)
      ensures Only(old(poller.Watching()), poller.Watching(), CLIENTS)
    {
      hide C.Books, InStep, C.Cleanup, Only, Call;
      OnlyNone(poller.Watching(), CLIENTS);
      if sock in bysock {
        if got == C.Request {
          C.PollKeeps(State(), Cork, sock);
          C.TellOnly(State(), ReadClient, Cork, sock);
          Tell(ReadClient, Cork, sock);
        } else if got == C.Closed {
          Cleanup(sock, bysock[sock]);
        }
      }
    }

    /** Marking a socket whose client has data to send. */
    method Append(sock: Sock)
      requires Valid() && sock in bysock
      modifies this, poller
      ensures Valid() && State() == C.Append(old(State()), sock)
      ensures Only(old(poller.Watching()), poller.Watching(), CLIENTS)
    {
      hide C.Books, InStep, Only, Call;
      C.MarkKeeps(State(), sock);
      C.MarkOnly(State(), sock);
      buffered := buffered + [sock];
      Tell(WriteClient, Add, sock);
    }

    method Unmark(sock: Sock)
      requires Valid() && sock in bysock
      modifies this, poller
      ensures Valid() && State() == C.Unmark(old(State()), sock)
      ensures Only(old(poller.Watching()), poller.Watching(), CLIENTS)
    {
      hide C.Books, InStep, Only, Call;
      C.MarkKeeps(State(), sock);
      C.MarkOnly(State(), sock);
      WithoutCounts(buffered, sock);
      buffered := Basics.Remove(buffered, sock);
      Tell(WriteClient, Remove, sock);
    }

    method SendData(sock: Sock, sent: C.Sent)
      requires Valid()
      modifies this, poller
      ensures Valid() && State() == C.SendData(old(State()), sock, sent)
      ensures Only(old(poller.Watching()), poller.Watching(), CLIENTS)
    {
      hide C.Inv, C.Append, C.Unmark, C.Cleanup, Only;
      C.InvReady(State());
      OnlyNone(poller.Watching(), CLIENTS);
      if sock in bysock {
        if sent.Over? {
          Cleanup(sock, bysock[sock]);
        } else if sent.buffered {
          if sock !in buffered {
            Append(sock);
          }
        } else if sent.had && sock in buffered {
          Unmark(sock);
        }
      }
    }

    /** The result says whether an exception was raised. */
    method StartData(sock: Sock, content: bool, got: C.Got, sent: C.Sent) returns (raised: bool)
      requires Valid()
      modifies this, poller
      ensures Valid() && State() == C.StartData(old(State()), sock, content, got, sent)
      ensures Only(old(poller.Watching()), poller.Watching(), CLIENTS)
      ensures raised <==> C.StartRaises(old(State()), sock, content, got, sent)
    {
      hide C.Books, InStep, C.Append, C.Unmark, C.Cleanup, Only, Call;
      C.StartDataOnly(State(), sock, content, got, sent);
      raised := false;
      if sock !in bysock || !content {
        return;
      }
      var name := bysock[sock];
      if sent.Over? {
        Cleanup(sock, name);
        return;
      }
      C.PollKeeps(State(), Uncork, sock);
      Tell(ReadClient, Uncork, sock);
      if got != C.Incomplete {
        Cleanup(sock, name);
      } else if sent.buffered && !sent.had {
        Append(sock);
      } else if !sent.buffered && sent.had {
        if sock in buffered {
          Unmark(sock);
        } else {
          raised := true;
        }
      }
    }

    method CorkUpload(sock: Sock)
      requires Valid()
      modifies this, poller
      ensures Valid() && State() == C.CorkUpload(old(State()), sock)
      ensures Only(old(poller.Watching()), poller.Watching(), CLIENTS)
    {
      hide C.Books, InStep, Only, Call;
      OnlyNone(poller.Watching(), CLIENTS);
      if sock in bysock {
        C.PollKeeps(State(), Cork, sock);
        C.TellOnly(State(), ReadClient, Cork, sock);
        Tell(ReadClient, Cork, sock);
      }
    }

    method UncorkUpload(sock: Sock)
      requires Valid()
      modifies this, poller
      ensures Valid() && State() == C.UncorkUpload(old(State()), sock)
      ensures Only(old(poller.Watching()), poller.Watching(), CLIENTS)
    {
      hide C.Books, InStep, Only, Call;
      OnlyNone(poller.Watching(), CLIENTS);
      if sock in bysock {
        C.PollKeeps(State(), Uncork, sock);
        C.TellOnly(State(), ReadClient, Uncork, sock);
        Tell(ReadClient, Uncork, sock);
      }
    }

    /** Any of these operations. */
    method On(e: C.Event)
      requires Valid() && C.Enabled(State(), e)
      modifies this, poller
      ensures Valid() && Ready() && old(Ready()) && State() == C.Next(old(State()), e)
      ensures Only(old(poller.Watching()), poller.Watching(), CLIENTS)
    {
      hide C.Inv, Only, C.Cleanup, C.ReadRequest, C.ReadData, C.SendData, C.StartData, C.Accept, C.AcceptPassthrough;
      C.InvReady(State());
      C.NextOnly(State(), e);
      match e {
        case Accepting(sock) => var _ := Connection(sock);
        case AcceptingPassthrough(sock) => var _ := PassthroughConnection(sock);
        case OpeningReadable(sock, got) => ReadRequest(sock, got);
        case Readable(sock, got) => ReadData(sock, got);
        case Writing(sock, sent) => SendData(sock, sent);
        case Starting(sock, content, got, sent) => var _ := StartData(sock, content, got, sent);
        case Corking(sock) => CorkUpload(sock);
        case Uncorking(sock) => UncorkUpload(sock);
        case Expiring(sock) => Expire(sock);
      }
    }
  }
}

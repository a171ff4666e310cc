/** The supervisor's poller and managers.  The managers are separate objects that share the poller: an operation of
    one changes nothing the other relies on. */
module Supervision {
  import opened Wrappers
  import opened Pollers
  import opened ContentManagement
  import opened ClientManagement
  import D = Downloads
  import C = Clients
  import M = Managers

  class Supervisor {
    const poller: EPoller
    const content: ContentManager
    const client: ClientManager

    ghost function State(): M.Both
      reads content, content.poller, client, client.poller
    {
      M.Both(content.State(), client.State())
    }

    ghost predicate Valid()
      reads content, content.poller, client, client.poller
    {
      && content.poller == poller && client.poller == poller
      && content.Valid() && client.Valid()
      && D.Sockets(content.State()) !! C.Sockets(client.State())
    }

    constructor ()
      ensures Valid() && State() == M.INITIAL
      ensures fresh(poller) && fresh(content) && fresh(client)
    {
      hide D.Inv, C.Inv;
      var p := SharedPoller();
      poller := p;
      content := new ContentManager(p);
      client := new ClientManager(p);
    }

    /** Any operation of the content manager. */
    method OnContent(e: D.Event)
      requires Valid() && M.Enabled(State(), M.OfContent(e))
      modifies content, poller
      ensures Valid() && State() == M.Next(old(State()), M.OfContent(e))
    {
      hide D.Inv, C.Inv, Only, D.Next;
      D.InvReady(content.State());
      C.InvReady(client.State());
      ghost var before := State();
      D.NextSockets(before.content, e);
      content.On(e);
      C.OthersKeepClients(before.client, poller.Watching());
    }

    /** Any operation of the client manager. */
    method OnClient(e: C.Event)
      requires Valid() && M.Enabled(State(), M.OfClient(e))
      modifies client, poller
      ensures Valid() && State() == M.Next(old(State()), M.OfClient(e))
    {
      hide D.Inv, C.Inv, Only, C.Next;
      D.InvReady(content.State());
      C.InvReady(client.State());
      ghost var before := State();
      C.NextSockets(before.client, e);
      client.On(e);
      D.OthersKeepDownloads(before.content, poller.Watching());
    }
  }

  /** The events of both managers, set up in the order of the program. */
  method SharedPoller() returns (p: EPoller)
    ensures fresh(p) && p.Watching() == NoWatch()
    ensures Empty(p.Watching(), DOWNLOADS) && Empty(p.Watching(), CLIENTS)
  {
    hide NoWatch, Empty;
    p := new EPoller();
    p.Setup(ReadClient);
    p.Setup(OpeningClient);
    p.Setup(WriteClient);
    assert p.events == map[ReadClient := NOTHING, OpeningClient := NOTHING, WriteClient := NOTHING];
    assert p.lists == map[ReadClient := [], OpeningClient := [], WriteClient := []];
    p.Setup(ReadDownload);
    p.Setup(WriteDownload);
    p.Setup(OpeningDownload);
    SetUpInAnyOrder(p.Watching());
  }

  lemma SetUpInAnyOrder(w: Watch)
    requires w.epoll == map[ReadClient := NOTHING, OpeningClient := NOTHING, WriteClient := NOTHING,
                            ReadDownload := NOTHING, WriteDownload := NOTHING, OpeningDownload := NOTHING]
    requires w.select == map[ReadClient := [], OpeningClient := [], WriteClient := [],
                             ReadDownload := [], WriteDownload := [], OpeningDownload := []]
    ensures w == NoWatch() && Empty(w, DOWNLOADS) && Empty(w, CLIENTS)
  {
    assert w.epoll == NoWatch().epoll;
    assert w.select == NoWatch().select;
  }
}

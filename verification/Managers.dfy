/** The two managers on the one poller they share, with their operations in any order, as the supervisor sets them
    up and the reactor drives them. */
module Managers {
  import opened Wrappers
  import opened Pollers
  import D = Downloads
  import C = Clients

  /** Both managers, with the same poller. */
  datatype Both = Both(content: D.Content, client: C.Clients)

  datatype Event = OfContent(content: D.Event) | OfClient(client: C.Event)

  /** The socket an operation brings in, if any. */
  function NewSocket(e: Event): set<Sock> {
    match e
    case OfContent(Connecting(_, _, _, Socket(s), _, _)) => {s}
    case OfClient(Accepting(s)) => {s}
    case OfClient(AcceptingPassthrough(s)) => {s}
    case _ => {}
  }

  function Sockets(b: Both): set<Sock> {
    D.Sockets(b.content) + C.Sockets(b.client)
  }

  /** New sockets are new to both managers. */
  predicate Enabled(b: Both, e: Event) {
    NewSocket(e) !! Sockets(b)
  }

  ghost predicate Inv(b: Both) {
    && b.content.watch == b.client.watch
    && D.Inv(b.content) && C.Inv(b.client)
    && D.Sockets(b.content) !! C.Sockets(b.client)
  }

  /** One manager's operation, of which the other sees what became of the poller. */
  function Next(b: Both, e: Event): Both
    requires D.Ready(b.content.watch) && C.Ready(b.client.watch)
  {
    match e
    case OfContent(f) =>
      var q := D.Next(b.content, f);
      Both(q, b.client.(watch := q.watch))
    case OfClient(f) =>
      var q := C.Next(b.client, f);
      Both(b.content.(watch := q.watch), q)
  }

  lemma InvReady(b: Both)
    requires Inv(b)
    ensures D.Ready(b.content.watch) && C.Ready(b.client.watch)
  {
    D.InvReady(b.content);
    C.InvReady(b.client);
  }

  /** Each manager's operations keep what both managers rely on. */
  lemma NextKeeps(b: Both, e: Event)
    requires Inv(b) && Enabled(b, e)
    ensures D.Ready(b.content.watch) && C.Ready(b.client.watch) && Inv(Next(b, e))
  {
    hide D.Inv, C.Inv, D.Next, C.Next, Only, D.Ready, C.Ready;
    InvReady(b);
    match e {
      case OfContent(f) =>
        assert D.Enabled(b.content, f);
        D.NextKeeps(b.content, f);
        D.NextOnly(b.content, f);
        D.NextSockets(b.content, f);
        C.OthersKeepClients(b.client, D.Next(b.content, f).watch);
      case OfClient(f) =>
        assert C.Enabled(b.client, f);
        C.NextKeeps(b.client, f);
        C.NextOnly(b.client, f);
        C.NextSockets(b.client, f);
        D.OthersKeepDownloads(b.content, C.Next(b.client, f).watch);
    }
  }

  ghost predicate EnabledAll(b: Both, es: seq<Event>)
    decreases |es|
  {
    |es| == 0 ||
    (D.Ready(b.content.watch) && C.Ready(b.client.watch) && Enabled(b, es[0]) && EnabledAll(Next(b, es[0]), es[1..]))
  }

  ghost function Run(b: Both, es: seq<Event>): Both
    requires EnabledAll(b, es)
    decreases |es|
  {
    if |es| == 0 then b else Run(Next(b, es[0]), es[1..])
  }

  const INITIAL := Both(D.INITIAL, C.INITIAL)

  lemma {:induction false} RunKeeps(b: Both, es: seq<Event>)
    requires Inv(b) && EnabledAll(b, es)
    ensures Inv(Run(b, es))
    decreases |es|
  {
    hide Inv, Next, Enabled;
    if |es| == 0 {
    } else {
      NextKeeps(b, es[0]);
      RunKeeps(Next(b, es[0]), es[1..]);
    }
  }

  lemma InitialIsFine()
    ensures Inv(INITIAL)
  {
    EmptyInStep(NoWatch(), DOWNLOADS);
    EmptyInStep(NoWatch(), CLIENTS);
    D.InitialIsFine();
  }

  /** For every event of either manager, the select poller would watch exactly the sockets the epoll poller does:
      those registered and not corked, once each. */
  ghost predicate SameWatch(w: Watch) {
    forall n: Name :: n in w.epoll && n in w.select && Agree(w.epoll[n], w.select[n])
  }

  lemma InvIsSameWatch(b: Both)
    requires Inv(b)
    ensures SameWatch(b.content.watch)
  {
    hide Agree, D.Books, C.Books;
    forall n: Name
      ensures n in DOWNLOADS || n in CLIENTS
    {
      EitherName(n);
    }
  }

  lemma EitherName(n: Name)
    ensures n in DOWNLOADS || n in CLIENTS
  {
    match n {
      case OpeningDownload =>
      case ReadDownload =>
      case WriteDownload =>
      case OpeningClient =>
      case ReadClient =>
      case WriteClient =>
    }
  }

  /** For every sequence of calls the two managers can make on their poller, in whatever order: in every reachable
      state each manager's tables match each other and its registrations, no socket belongs to both, and the two
      kinds of poller watch the same sockets. */
  lemma EveryRunKeeps(es: seq<Event>)
    requires EnabledAll(INITIAL, es)
    ensures Inv(Run(INITIAL, es)) && SameWatch(Run(INITIAL, es).content.watch)
  {
    hide Inv, SameWatch, Run, EnabledAll;
    InitialIsFine();
    RunKeeps(INITIAL, es);
    InvIsSameWatch(Run(INITIAL, es));
  }

  /** No socket is watched that neither manager has. */
  lemma WatchedIsKept(b: Both, n: Name, s: Sock)
    requires Inv(b) && n in b.content.watch.epoll && s in b.content.watch.epoll[n].kernel
    ensures s in Sockets(b)
  {
    EitherName(n);
    if n in DOWNLOADS {
      assert Agree(b.content.watch.epoll[n], b.content.watch.select[n]);
    } else {
      assert Agree(b.client.watch.epoll[n], b.client.watch.select[n]);
    }
    hide InStep;
  }
}

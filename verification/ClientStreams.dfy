/** The clients together with what each has still to be sent: every client's writer, the answers the program starts,
    and whether the client is polled for writing when it should be. */
module ClientStreams {
  import opened Wrappers
  import opened Pollers
  import C = Clients
  import W = Writers

  /** `Plain` are the TLS and the passthrough clients. */
  datatype Kind = Http | Icap | Plain

  /** An answer: data of which more is to come; all of it; a header and a local file, which may be unreadable; or a
      command the client does not know. */
  datatype Answer = Stream(data: string) | Finish(data: string) | File(header: string, content: Option<string>) | Unknown

  /** What the client manager is told of it: a result, or an exception. */
  datatype Begun = Begun(writer: W.Writer, told: Option<C.Sent>)

  function Told(y: W.Yield): Option<C.Sent> {
    match y
    case Report(buffered, had, _) => Some(C.Report(buffered, had))
    case Close => Some(C.Over)
    case Exhausted => None
  }

  /** `startData` of the clients: a new coroutine takes over the bytes pending.  The result is what the first `send`
      gave, or for a complete answer what the request to close gave; the HTTP client drops the latter.  For a file it
      is a report that does not depend on the buffer. */
  function Begin(kind: Kind, pending: string, a: Answer, net: W.Net): Begun {
    var start := W.Writer(pending, false, 0);
    match a
    case Stream(data) =>
      var s := W.Write(start, Some(data), net);
      Begun(s.writer, Told(s.yielded))
    case Finish(data) =>
      var s := W.Write(start, Some(data), net);
      var t := W.Write(s.writer, None, net);
      Begun(t.writer, Told(if kind == Http then s.yielded else t.yielded))
    case File(header, Some(content)) =>
      if kind == Plain then Begun(start, Some(C.Over))
      else
        var buffer := if kind == Http then W.HttpFile(pending, header, content) else W.IcapFile(pending, header, content);
        Begun(W.Write(W.Writer(buffer, false, 0), None, net).writer, Some(C.Report(true, false)))
    case File(header, None) =>
      if kind == Http then Begun(W.Writer(pending, false, 2), None)
      else Begun(start, Some(C.Over))
    case Unknown => Begun(start, Some(C.Over))
  }

  /** `writers` holds the coroutines of the clients that were answered. */
  datatype Session = Session(clients: C.Clients, kinds: map<Sock, Kind>, writers: map<Sock, W.Writer>)

  datatype Event =
    | Accepting(sock: Sock, kind: Kind)
    | AcceptingPassthrough(sock: Sock)
    | OpeningReadable(sock: Sock, got: C.Got)
    | Readable(sock: Sock, got: C.Got)
    | Sending(sock: Sock, data: Option<string>, net: W.Net)
    | Starting(sock: Sock, answer: Option<Answer>, got: C.Got, net: W.Net)
    | Corking(sock: Sock)
    | Uncorking(sock: Sock)
    | Expiring(sock: Sock)

  /** The bytes a new coroutine finds. */
  function PendingBytes(s: Session, sock: Sock): string {
    if sock in s.writers then s.writers[sock].buffer else ""
  }

  function KindOf(s: Session, sock: Sock): Kind {
    if sock in s.kinds then s.kinds[sock] else Plain
  }

  /** What this means for the client manager; nothing after an exception. */
  function Meant(s: Session, e: Event): Option<C.Event> {
    match e
    case Accepting(sock, _) => Some(C.Accepting(sock))
    case AcceptingPassthrough(sock) => Some(C.AcceptingPassthrough(sock))
    case OpeningReadable(sock, got) => Some(C.OpeningReadable(sock, got))
    case Readable(sock, got) => Some(C.Readable(sock, got))
    case Sending(sock, data, net) =>
      if sock !in s.writers then None
      else
        var sent := Told(W.Write(s.writers[sock], data, net).yielded);
        if sent.Some? then Some(C.Writing(sock, sent.value)) else None
    case Starting(sock, answer, got, net) =>
      if sock !in s.clients.bysock then None
      else if answer.None? then Some(C.Starting(sock, false, got, C.Over))
      else
        var sent := Begin(KindOf(s, sock), PendingBytes(s, sock), answer.value, net).told;
        if sent.Some? then Some(C.Starting(sock, true, got, sent.value)) else None
    case Corking(sock) => Some(C.Corking(sock))
    case Uncorking(sock) => Some(C.Uncorking(sock))
    case Expiring(sock) => Some(C.Expiring(sock))
  }

  function Written(s: Session, e: Event): map<Sock, W.Writer> {
    match e
    case Sending(sock, data, net) =>
      if sock in s.writers then s.writers[sock := W.Write(s.writers[sock], data, net).writer] else s.writers
    case Starting(sock, answer, got, net) =>
      if sock in s.clients.bysock && answer.Some?
      then s.writers[sock := Begin(KindOf(s, sock), PendingBytes(s, sock), answer.value, net).writer] else s.writers
    case _ => s.writers
  }

  function Kinds(s: Session, e: Event): map<Sock, Kind> {
    if e.Accepting? then s.kinds[e.sock := e.kind] else s.kinds
  }

  /** The coroutines of clients that are gone are closed. */
  function Next(s: Session, e: Event): Session
    requires C.Ready(s.clients.watch)
  {
    var f := Meant(s, e);
    var c := if f.Some? then C.Next(s.clients, f.value) else s.clients;
    var w := Written(s, e);
    Session(c, Kinds(s, e), map k | k in w && k in c.bysock :: w[k])
  }

  /** New sockets are new, and data is only sent to clients that were answered. */
  predicate Enabled(s: Session, e: Event) {
    && (e.Accepting? || e.AcceptingPassthrough? ==> e.sock !in C.Sockets(s.clients))
    && (e.Sending? && e.sock in s.clients.bysock ==> e.sock in s.writers)
  }

  // ----- what every operation keeps -----------------------------------------------------------

  /** Only clients that were answered are polled for writing. */
  ghost predicate Inv(s: Session) {
    && C.Inv(s.clients)
    && s.writers.Keys <= s.clients.bysock.Keys
    && C.Ready(s.clients.watch)
    && s.clients.watch.epoll[WriteClient].sockets <= s.writers.Keys
  }

  /** Every client that has unsent bytes, or was told to close when it has none left, is polled for writing. */
  ghost predicate Tended(s: Session)
    requires C.Ready(s.clients.watch)
  {
    forall k | k in s.writers && (s.writers[k].buffer != "" || s.writers[k].finished) ::
      k in s.clients.watch.epoll[WriteClient].sockets
  }

  /** The answer is complete, and the client is forgotten: by the HTTP client when all of it left at once, because it
      drops the request to close; by the others when some of it is left, because they report no new data. */
  ghost predicate Forgets(s: Session, e: Event)
    requires C.Ready(s.clients.watch)
  {
    && e.Starting? && e.sock in s.clients.bysock && e.got == C.Incomplete
    && e.answer.Some? && e.answer.value.Finish?
    && var pending := PendingBytes(s, e.sock);
       var t := W.Write(W.Writer(pending, false, 0), Some(e.answer.value.data), e.net);
       && t.yielded.Report?
       && if KindOf(s, e.sock) == Http then
            t.writer.buffer == "" && (pending != "" || e.sock !in s.clients.watch.epoll[WriteClient].sockets)
          else
            t.writer.buffer != "" && e.sock !in s.clients.watch.epoll[WriteClient].sockets
  }

  lemma InvReady(s: Session)
    requires Inv(s)
    ensures C.Ready(s.clients.watch)
  {
  }

  /** What the client manager is told is something it can be told. */
  lemma MeantIsEnabled(s: Session, e: Event)
    requires Enabled(s, e) && Meant(s, e).Some?
    ensures C.Enabled(s.clients, Meant(s, e).value)
  {
    hide Begin, Told;
  }

  /** For which clients there is a coroutine afterwards. */
  lemma WrittenKeys(s: Session, e: Event)
    requires s.writers.Keys <= s.clients.bysock.Keys
    ensures s.writers.Keys <= Written(s, e).Keys
    ensures Meant(s, e).Some? && (Meant(s, e).value.Writing? || (Meant(s, e).value.Starting? && Meant(s, e).value.content)) ==>
              Meant(s, e).value.sock in Written(s, e)
  {
    hide Begin, Told;
  }

  /** Every operation keeps the clients' invariant, and only answered clients are polled for writing. */
  lemma NextKeeps(s: Session, e: Event)
    requires Inv(s) && Enabled(s, e)
    ensures Inv(Next(s, e))
  {
    hide C.Inv, C.Next, Meant, Written, C.Polled, Enabled;
    WrittenKeys(s, e);
    var (f, c) := (Meant(s, e), Next(s, e).clients);
    if f.Some? {
      MeantIsEnabled(s, e);
      C.NextKeeps(s.clients, f.value);
      C.InvReady(c);
      C.PolledIsAnswered(c);
      forall k | C.Polled(c, k)
        ensures k in Next(s, e).writers
      {
        C.NewlyPolled(s.clients, f.value, k);
        if C.Polled(s.clients, k) {
          StillPolled(s, k);
        }
      }
      PolledKeys(c, Next(s, e).writers);
    }
  }

  lemma StillPolled(s: Session, k: Sock)
    requires Inv(s) && C.Polled(s.clients, k)
    ensures k in s.writers
  {
    hide C.Inv;
  }

  lemma PolledKeys(c: C.Clients, writers: map<Sock, W.Writer>)
    requires C.Ready(c.watch) && forall k | C.Polled(c, k) :: k in writers
    ensures c.watch.epoll[WriteClient].sockets <= writers.Keys
  {
    forall k | k in c.watch.epoll[WriteClient].sockets
      ensures k in writers
    {
      assert C.Polled(c, k);
    }
  }

  // ----- exactly when a client is forgotten -----------------------------------------------------

  /** The writer of a client has something to send, or is to end. */
  predicate Busy(w: W.Writer) {
    w.buffer != "" || w.finished
  }

  /** A report says of data to send what is true of the buffer afterwards. */
  lemma ReportIsBusy(w: W.Writer, data: Option<string>, net: W.Net)
    ensures var s := W.Write(w, data, net);
            && (s.yielded.Report? ==> s.yielded.buffered == Busy(s.writer) && s.yielded.had == (w.buffer != ""))
            && (s.yielded.Exhausted? ==> s.writer == w)
  {
  }

  /** The client has nothing to send, or is polled for writing. */
  ghost predicate TendedTo(s: Session, sock: Sock)
    requires C.Ready(s.clients.watch)
  {
    sock in s.writers && Busy(s.writers[sock]) ==> C.Polled(s.clients, sock)
  }

  /** What a client's report means after something was sent to it. */
  lemma SendingTends(s: Session, sock: Sock, data: Option<string>, net: W.Net)
    requires Inv(s) && C.Single(s.clients) && Tended(s) && sock in s.writers
    ensures var e := Sending(sock, data, net);
            C.Ready(Next(s, e).clients.watch) && TendedTo(Next(s, e), sock)
  {
    hide C.Inv, C.Single, C.SendData, W.Write;
    var w := W.Write(s.writers[sock], data, net);
    ReportIsBusy(s.writers[sock], data, net);
    var sent := Told(w.yielded);
    if sent.Some? {
      C.SendDataPolled(s.clients, sock, sent.value, sock);
      C.OverIsGone(s.clients, sock, C.Incomplete, sent.value);
    }
  }

  /** What starting an answer leaves to do, and what the client manager is told of it. */
  lemma BeginIsBusy(kind: Kind, pending: string, a: Answer, net: W.Net)
    ensures var b := Begin(kind, pending, a, net);
            var t := W.Write(W.Writer(pending, false, 0), Some(if a.Finish? then a.data else ""), net);
            && (a.Unknown? ==> b.told == Some(C.Over))
            && (b.told.None? ==> b.writer.buffer == pending && !b.writer.finished)
            && (a.Stream? && b.told.Some? && b.told.value.Report? ==>
                  b.told.value.buffered == Busy(b.writer) && b.told.value.had == (pending != ""))
            && (a.File? && b.told.Some? && b.told.value.Report? ==> b.told.value == C.Report(true, false))
            && (a.Finish? && b.told.Some? && b.told.value.Report? ==>
                  && Busy(b.writer) && t.yielded.Report?
                  && (if kind == Http then b.told.value == C.Report(t.writer.buffer != "", pending != "")
                      else t.writer.buffer != "" && b.told.value == C.Report(true, true)))
            && (a.Finish? && t.yielded.Report? && (kind == Http || t.writer.buffer != "") ==>
                  b.told.Some? && b.told.value.Report?)
  {
    hide W.Write, W.HttpFile, W.IcapFile;
    var w := W.Writer(pending, false, 0);
    match a
    case Stream(data) =>
      ReportIsBusy(w, Some(data), net);
      FirstWrite(w, data, net);
    case Finish(data) =>
      ReportIsBusy(w, Some(data), net);
      FirstWrite(w, data, net);
      ThenClose(W.Write(w, Some(data), net).writer, net);
    case File(header, content) =>
    case Unknown =>
  }

  /** Starting an answer raises an exception only for a file that an HTTP client cannot read, and so does whatever is sent
      to the client afterwards. */
  lemma BeginRaisesIff(kind: Kind, pending: string, a: Answer, net: W.Net)
    ensures var b := Begin(kind, pending, a, net);
            && (b.told.None? <==> kind == Http && a.File? && a.content.None?)
            && (b.told.None? ==> forall data, n :: W.Write(b.writer, data, n) == W.Step(b.writer, "", W.Exhausted))
  {
    var w := W.Writer(pending, false, 0);
    match a
    case Stream(data) => FirstWrite(w, data, net);
    case Finish(data) =>
      FirstWrite(w, data, net);
      ThenClose(W.Write(w, Some(data), net).writer, net);
    case File(header, content) =>
    case Unknown =>
  }

  /** What starting an answer leaves in the writer: the bytes pending and the new ones, in order, less what the socket
      took at once, which is tried only if nothing was pending or nothing is new; a file is left whole, and put by the
      ICAP client behind its header. */
  lemma BeginHolds(kind: Kind, pending: string, a: Answer, net: W.Net)
    ensures var w := Begin(kind, pending, a, net).writer;
            && (a.Stream? || a.Finish? ==>
                  var all := pending + a.data;
                  var tries := pending == "" || a.data == "";
                  && w.buffer == all[if tries && net.Takes? then (if net.n < |all| then net.n else |all|) else 0..]
                  && (w.finished <==> a.Finish? && !(tries && net.Fails?)))
            && (a.File? && a.content.Some? && kind != Plain ==>
                  && w.finished
                  && w.buffer == if kind == Http then pending + a.header + a.content.value
                                 else a.header + pending + a.content.value)
  {
    hide W.Write;
    var w := W.Writer(pending, false, 0);
    match a
    case Stream(data) => FirstKeeps(w, data, net);
    case Finish(data) =>
      FirstKeeps(w, data, net);
      ThenCloseKeeps(W.Write(w, Some(data), net).writer, net);
    case File(header, Some(content)) =>
      var b := if kind == Http then W.HttpFile(pending, header, content) else W.IcapFile(pending, header, content);
      assert b == if kind == Http then pending + header + content else header + pending + content;
      ThenCloseKeeps(W.Writer(b, false, 0), net);
    case _ =>
  }

  lemma FirstKeeps(w: W.Writer, data: string, net: W.Net)
    requires w.closes == 0 && !w.finished
    ensures var s := W.Write(w, Some(data), net).writer;
            var all := w.buffer + data;
            var tries := w.buffer == "" || data == "";
            && s.buffer == all[if tries && net.Takes? then (if net.n < |all| then net.n else |all|) else 0..]
            && !s.finished && s.closes == (if tries && net.Fails? then 1 else 0)
  {
  }

  lemma ThenCloseKeeps(w: W.Writer, net: W.Net)
    requires w.closes <= 1 && !w.finished
    ensures var t := W.Write(w, None, net).writer; t.buffer == w.buffer && (t.finished <==> w.closes == 0)
  {
    assert w.buffer + "" == w.buffer;
  }

  lemma FirstWrite(w: W.Writer, data: string, net: W.Net)
    requires w.closes == 0 && !w.finished
    ensures var s := W.Write(w, Some(data), net);
            && !s.yielded.Exhausted? && !s.writer.finished
            && s.writer.closes == (if s.yielded.Report? then 0 else 1)
  {
  }

  /** The request to close: it is granted when nothing is left. */
  lemma ThenClose(w: W.Writer, net: W.Net)
    requires w.closes <= 1
    ensures var t := W.Write(w, None, net);
            if w.closes == 1 then t.yielded.Close?
            else if w.buffer == "" then t.yielded.Close? && t.writer == W.Writer("", true, 1)
            else t.yielded == W.Report(true, true, 0) && t.writer == W.Writer(w.buffer, true, 0)
  {
    assert w.buffer + "" == w.buffer;
  }

  lemma ReportTendsIff(s: Session, sock: Sock, a: Answer, net: W.Net)
    requires Inv(s) && C.Single(s.clients) && Tended(s) && sock in s.clients.bysock
    requires var told := Begin(KindOf(s, sock), PendingBytes(s, sock), a, net).told; told.Some? && told.value.Report?
    ensures var e := Starting(sock, Some(a), C.Incomplete, net);
            C.Ready(Next(s, e).clients.watch) && (TendedTo(Next(s, e), sock) <==> !Forgets(s, e))
  {
    hide C.Inv, C.Single, C.StartData, Begin, W.Write;
    InvReady(s);
    var e := Starting(sock, Some(a), C.Incomplete, net);
    var (kind, pending) := (KindOf(s, sock), PendingBytes(s, sock));
    assert TendedTo(s, sock) && (pending != "" ==> C.Polled(s.clients, sock));
    var b := Begin(kind, pending, a, net);
    BeginIsBusy(kind, pending, a, net);
    C.StartDataPolled(s.clients, sock, C.Incomplete, b.told.value, sock);
    C.StartedStays(s.clients, sock, b.told.value);
    assert sock in Next(s, e).writers && Next(s, e).writers[sock] == b.writer;
    hide Tended;
  }

  lemma StartingTendsIff(s: Session, sock: Sock, answer: Option<Answer>, got: C.Got, net: W.Net)
    requires Inv(s) && C.Single(s.clients) && Tended(s) && sock in s.clients.bysock
    ensures var e := Starting(sock, answer, got, net);
            C.Ready(Next(s, e).clients.watch) && (TendedTo(Next(s, e), sock) <==> !Forgets(s, e))
  {
    hide C.Inv, C.Single, C.StartData, Begin, W.Write;
    InvReady(s);
    var e := Starting(sock, answer, got, net);
    var (kind, pending) := (KindOf(s, sock), PendingBytes(s, sock));
    assert TendedTo(s, sock) && (pending != "" ==> C.Polled(s.clients, sock));
    if answer.None? {
      C.NothingToDo(s.clients, sock, false, got, C.Over);
    } else {
      var b := Begin(kind, pending, answer.value, net);
      BeginIsBusy(kind, pending, answer.value, net);
      if b.told.Some? {
        var told := b.told.value;
        if got == C.Incomplete && told.Report? {
          ReportTendsIff(s, sock, answer.value, net);
        } else {
          C.StartDataPolled(s.clients, sock, got, told, sock);
          C.OverIsGone(s.clients, sock, got, told);
        }
      }
    }
  }

  /** The other clients are as well tended as before. */
  lemma OthersTended(s: Session, e: Event, k: Sock)
    requires Inv(s) && C.Single(s.clients) && Tended(s) && Enabled(s, e)
    requires e.Sending? || e.Starting? ==> k != e.sock
    ensures C.Ready(Next(s, e).clients.watch) && TendedTo(Next(s, e), k)
  {
    hide C.Inv, C.Single, C.Next, C.Enabled, Begin, W.Write, Told;
    InvReady(s);
    assert TendedTo(s, k);
    var f := Meant(s, e);
    if f.Some? {
      MeantIsEnabled(s, e);
      C.NextPolled(s.clients, f.value, k);
    }
  }

  lemma TendedIsAll(s: Session)
    requires C.Ready(s.clients.watch)
    ensures Tended(s) <==> forall k | k in s.writers :: TendedTo(s, k)
  {
    if forall k | k in s.writers :: TendedTo(s, k) {
      forall k | k in s.writers && (s.writers[k].buffer != "" || s.writers[k].finished)
        ensures k in s.clients.watch.epoll[WriteClient].sockets
      {
        assert TendedTo(s, k);
      }
    }
  }

  /** From a state in which every client with unsent bytes, or told to close, is polled for writing, an operation keeps
      it so if and only if it does not start a complete answer and forget the client. */
  lemma NextTendsIff(s: Session, e: Event)
    requires Inv(s) && C.Single(s.clients) && Enabled(s, e) && C.Ready(s.clients.watch) && Tended(s)
    ensures C.Ready(Next(s, e).clients.watch) && (Tended(Next(s, e)) <==> !Forgets(s, e))
  {
    hide Inv, C.Single, Next, Tended, TendedTo, Forgets, Enabled;
    NextKeeps(s, e);
    InvReady(Next(s, e));
    var q := Next(s, e);
    TendedIsAll(q);
    forall k | k in q.writers && (e.Sending? || e.Starting? ==> k != e.sock)
      ensures TendedTo(q, k)
    {
      OthersTended(s, e, k);
    }
    if e.Starting? && e.sock in s.clients.bysock {
      StartingTendsIff(s, e.sock, e.answer, e.got, e.net);
      GoneIsTended(q, e.sock);
    } else {
      ForgetsIsStarting(s, e);
      if e.Sending? || e.Starting? {
        AnsweredTends(s, e);
        GoneIsTended(q, e.sock);
      }
    }
  }

  lemma GoneIsTended(s: Session, k: Sock)
    requires C.Ready(s.clients.watch)
    ensures k !in s.writers ==> TendedTo(s, k)
  {
  }

  lemma ForgetsIsStarting(s: Session, e: Event)
    requires C.Ready(s.clients.watch)
    ensures Forgets(s, e) ==> e.Starting? && e.sock in s.clients.bysock
  {
  }

  /** Sending, and starting an answer for a client that is gone. */
  lemma AnsweredTends(s: Session, e: Event)
    requires Inv(s) && C.Single(s.clients) && Tended(s) && Enabled(s, e)
    requires e.Sending? || (e.Starting? && e.sock !in s.clients.bysock)
    ensures C.Ready(Next(s, e).clients.watch) && TendedTo(Next(s, e), e.sock)
  {
    hide C.Inv, C.Single, C.Next, Begin, W.Write, Told;
    InvReady(s);
    assert TendedTo(s, e.sock);
    if e.Sending? && e.sock in s.writers {
      SendingTends(s, e.sock, e.data, e.net);
    }
  }

  // ----- runs -----------------------------------------------------------------------------------

  /** The answer marks a client that is marked already. */
  predicate Doubles(s: Session, e: Event) {
    Meant(s, e).Some? && C.Doubles(s.clients, Meant(s, e).value)
  }

  lemma NextSingleIff(s: Session, e: Event)
    requires Inv(s) && C.Ready(s.clients.watch) && C.Single(s.clients) && Enabled(s, e)
    ensures C.Ready(Next(s, e).clients.watch) && (C.Single(Next(s, e).clients) <==> !Doubles(s, e))
  {
    hide C.Inv, C.Single, C.Next, C.Doubles, C.Enabled, Meant, Written;
    if Meant(s, e).Some? {
      MeantIsEnabled(s, e);
      C.NextSingleIff(s.clients, Meant(s, e).value);
    }
  }

  /** The exception of `startData`, removing a mark that is not there, cannot happen to a client that is tended. */
  lemma StartDoesNotRaise(s: Session, e: Event)
    requires Inv(s) && C.Ready(s.clients.watch) && Tended(s) && Meant(s, e).Some? && Meant(s, e).value.Starting?
    ensures var f := Meant(s, e).value; !C.StartRaises(s.clients, f.sock, f.content, f.got, f.sent)
  {
    hide C.Books, InStep, Begin, W.Write, Told;
    if e.answer.Some? {
      BeginIsBusy(KindOf(s, e.sock), PendingBytes(s, e.sock), e.answer.value, e.net);
      assert TendedTo(s, e.sock);
      var told := Begin(KindOf(s, e.sock), PendingBytes(s, e.sock), e.answer.value, e.net).told;
      if told == Some(C.Report(false, true)) {
        assert PendingBytes(s, e.sock) != "";
        assert C.Polled(s.clients, e.sock);
      }
    }
  }

  ghost predicate EnabledAll(s: Session, es: seq<Event>)
    decreases |es|
  {
    |es| == 0 || (C.Ready(s.clients.watch) && Enabled(s, es[0]) && EnabledAll(Next(s, es[0]), es[1..]))
  }

  ghost function Run(s: Session, es: seq<Event>): Session
    requires EnabledAll(s, es)
    decreases |es|
  {
    if |es| == 0 then s else Run(Next(s, es[0]), es[1..])
  }

  /** No answer of the run forgets a client or marks one twice. */
  ghost predicate Careful(s: Session, es: seq<Event>)
    requires EnabledAll(s, es)
    decreases |es|
  {
    |es| == 0 || (!Forgets(s, es[0]) && !Doubles(s, es[0]) && Careful(Next(s, es[0]), es[1..]))
  }

  ghost predicate Fine(s: Session) {
    Inv(s) && C.Ready(s.clients.watch) && C.Single(s.clients) && Tended(s)
  }

  const INITIAL := Session(C.INITIAL, map[], map[])

  lemma InitialIsFine()
    ensures Fine(INITIAL)
  {
    EmptyInStep(NoWatch(), CLIENTS);
  }

  lemma NextIsFine(s: Session, e: Event)
    requires Fine(s) && Enabled(s, e) && !Forgets(s, e) && !Doubles(s, e)
    ensures Fine(Next(s, e))
  {
    hide Inv, C.Single, Tended, Next, Forgets, Doubles;
    NextKeeps(s, e);
    InvReady(Next(s, e));
    NextSingleIff(s, e);
    NextTendsIff(s, e);
  }

  lemma {:induction false} RunIsFine(s: Session, es: seq<Event>)
    requires Fine(s) && EnabledAll(s, es) && Careful(s, es)
    ensures Fine(Run(s, es))
    decreases |es|
  {
    hide Fine, Next, Forgets, Doubles, Enabled;
    if |es| == 0 {
    } else {
      NextIsFine(s, es[0]);
      RunIsFine(Next(s, es[0]), es[1..]);
    }
  }

  /** In every state reached without such an answer, every client that has unsent bytes or was told to close is polled
      for writing, and no client is marked twice or after it is gone. */
  lemma EveryRunTends(es: seq<Event>)
    requires EnabledAll(INITIAL, es) && Careful(INITIAL, es)
    ensures var s := Run(INITIAL, es); C.Ready(s.clients.watch) && Tended(s) && C.Single(s.clients)
  {
    hide Run, EnabledAll, Careful, Inv, C.Single, Tended;
    InitialIsFine();
    RunIsFine(INITIAL, es);
  }

  // ----- the three faults -----------------------------------------------------------------------

  lemma RunOfMore(s: Session, e: Event, es: seq<Event>)
    requires C.Ready(s.clients.watch) && Enabled(s, e) && EnabledAll(Next(s, e), es)
    ensures EnabledAll(s, [e] + es) && Run(s, [e] + es) == Run(Next(s, e), es)
  {
    hide Enabled, Next;
    assert ([e] + es)[1..] == es;
  }

  lemma RunOfNone(s: Session)
    ensures EnabledAll(s, []) && Run(s, []) == s
  {
  }

  /** A client that has just sent its first request. */
  ghost predicate JustAsked(s: Session, sock: Sock, kind: Kind) {
    && Fine(s) && sock in s.clients.bysock && KindOf(s, sock) == kind && sock !in s.writers
    && !C.Polled(s.clients, sock)
  }

  lemma FirstRequest(sock: Sock, kind: Kind) returns (s: Session)
    ensures C.Ready(INITIAL.clients.watch) && Enabled(INITIAL, Accepting(sock, kind))
    ensures var a := Next(INITIAL, Accepting(sock, kind));
            && C.Ready(a.clients.watch) && Enabled(a, OpeningReadable(sock, C.Request))
            && s == Next(a, OpeningReadable(sock, C.Request))
    ensures JustAsked(s, sock, kind)
  {
    hide C.Inv, C.Single, Tended, Call, InStep;
    InitialIsFine();
    var (e, f) := (Accepting(sock, kind), OpeningReadable(sock, C.Request));
    NextIsFine(INITIAL, e);
    var a := Next(INITIAL, e);
    NextIsFine(a, f);
    s := Next(a, f);
  }

  /** A run of one event after the first request. */
  lemma FirstAnswer(sock: Sock, kind: Kind, e: Event) returns (es: seq<Event>, s: Session)
    requires e.Starting? && e.sock == sock
    ensures JustAsked(s, sock, kind)
    ensures |es| == 3 && es[2] == e && EnabledAll(INITIAL, es) && Run(INITIAL, es) == Next(s, e)
  {
    hide Next, Inv, Tended, C.Single;
    s := FirstRequest(sock, kind);
    var (f, g) := (Accepting(sock, kind), OpeningReadable(sock, C.Request));
    InvReady(s);
    RunOfNone(Next(s, e));
    RunOfMore(s, e, []);
    RunOfMore(Next(INITIAL, f), g, [e]);
    RunOfMore(INITIAL, f, [g] + [e]);
    es := [f] + ([g] + [e]);
    assert [e] + [] == [e];
  }

  /** The HTTP client forgets a client whose whole answer leaves at once: it was told to close, has nothing left to send,
      and is neither closed nor polled for writing. */
  lemma CloseIsForgotten(sock: Sock, data: string) returns (es: seq<Event>)
    ensures |es| == 3 && EnabledAll(INITIAL, es)
    ensures var s := Run(INITIAL, es);
            && C.Ready(s.clients.watch) && sock in s.clients.bysock && sock in s.writers
            && s.writers[sock].finished && s.writers[sock].buffer == "" && !C.Polled(s.clients, sock)
  {
    hide Next, JustAsked, Run, EnabledAll;
    var e := Starting(sock, Some(Finish(data)), C.Incomplete, W.Takes(|data|));
    var s: Session;
    es, s := FirstAnswer(sock, Http, e);
    AllAtOnce(s, sock, data);
  }

  lemma AllAtOnce(s: Session, sock: Sock, data: string)
    requires JustAsked(s, sock, Http)
    ensures var q := Next(s, Starting(sock, Some(Finish(data)), C.Incomplete, W.Takes(|data|)));
            && C.Ready(q.clients.watch) && sock in q.clients.bysock && sock in q.writers
            && q.writers[sock].finished && q.writers[sock].buffer == "" && !C.Polled(q.clients, sock)
  {
    hide C.Inv, C.Single, C.StartData, Tended, C.Polled;
    var b := Begin(Http, "", Finish(data), W.Takes(|data|));
    assert b.told == Some(C.Report(false, false)) && b.writer == W.Writer("", true, 1);
    C.StartDataPolled(s.clients, sock, C.Incomplete, C.Report(false, false), sock);
    C.StartedStays(s.clients, sock, C.Report(false, false));
  }

  /** The other clients leave unsent bytes of a whole answer without polling for them. */
  lemma CloseIsStranded(sock: Sock, data: string, kind: Kind) returns (es: seq<Event>)
    requires data != "" && kind != Http
    ensures |es| == 3 && EnabledAll(INITIAL, es)
    ensures var s := Run(INITIAL, es);
            && C.Ready(s.clients.watch) && sock in s.clients.bysock && sock in s.writers
            && s.writers[sock].buffer == data && !C.Polled(s.clients, sock)
  {
    hide Next, JustAsked, Run, EnabledAll;
    var e := Starting(sock, Some(Finish(data)), C.Incomplete, W.Blocks);
    var s: Session;
    es, s := FirstAnswer(sock, kind, e);
    NoneAtOnce(s, sock, data, kind);
  }

  lemma NoneAtOnce(s: Session, sock: Sock, data: string, kind: Kind)
    requires JustAsked(s, sock, kind) && data != "" && kind != Http
    ensures var q := Next(s, Starting(sock, Some(Finish(data)), C.Incomplete, W.Blocks));
            && C.Ready(q.clients.watch) && sock in q.clients.bysock && sock in q.writers
            && q.writers[sock].buffer == data && !C.Polled(q.clients, sock)
  {
    hide C.Inv, C.Single, C.StartData, Tended, C.Polled;
    var b := Begin(kind, "", Finish(data), W.Blocks);
    assert "" + data == data && data + "" == data;
    assert b.told == Some(C.Report(true, true)) && b.writer == W.Writer(data, true, 0);
    C.StartDataPolled(s.clients, sock, C.Incomplete, C.Report(true, true), sock);
    C.StartedStays(s.clients, sock, C.Report(true, true));
  }

  /** A file is answered with the same report whatever is pending. */
  lemma FileReport(kind: Kind, pending: string, header: string, content: string, net: W.Net)
    requires kind != Plain
    ensures var b := Begin(kind, pending, File(header, Some(content)), net);
            b.told == Some(C.Report(true, false)) && b.writer.closes <= 1
  {
  }

  /** A client whose two requests are both answered with a file, the second while bytes of the first are unsent, is
      marked twice; once it is closed, its socket stays in the list of marked sockets. */
  lemma MarkGoesStale(sock: Sock, kind: Kind, header: string, content: string) returns (es: seq<Event>)
    requires kind != Plain
    ensures |es| == 6 && EnabledAll(INITIAL, es)
    ensures var s := Run(INITIAL, es);
            sock !in s.clients.bysock && sock !in s.clients.norequest && sock in s.clients.buffered
  {
    hide Next, JustAsked, Run, EnabledAll, Fine;
    var e := Starting(sock, Some(File(header, Some(content))), C.Incomplete, W.Blocks);
    var (g, f) := (Readable(sock, C.Request), Sending(sock, Some(""), W.Fails));
    var s := FirstRequest(sock, kind);
    var (a, b) := (Accepting(sock, kind), OpeningReadable(sock, C.Request));
    TwoFiles(s, sock, kind, header, content);
    var t := Next(s, e);
    var u := Next(t, g);
    var v := Next(u, e);
    RunOfNone(Next(v, f));
    RunOfMore(v, f, []);
    RunOfMore(u, e, [f] + []);
    RunOfMore(t, g, [e] + ([f] + []));
    RunOfMore(s, e, [g] + ([e] + ([f] + [])));
    RunOfMore(Next(INITIAL, a), b, [e] + ([g] + ([e] + ([f] + []))));
    RunOfMore(INITIAL, a, [b] + ([e] + ([g] + ([e] + ([f] + [])))));
    es := [a] + ([b] + ([e] + ([g] + ([e] + ([f] + [])))));
  }

  /** Another request changes nothing but what is read from the client. */
  lemma NextRequest(s: Session, sock: Sock)
    requires Inv(s) && sock in s.clients.bysock
    ensures C.Ready(s.clients.watch) && Enabled(s, Readable(sock, C.Request))
    ensures var t := Next(s, Readable(sock, C.Request));
            && Inv(t) && sock in t.clients.bysock && t.kinds == s.kinds && t.clients.buffered == s.clients.buffered
  {
    hide C.Inv, Call;
    NextKeeps(s, Readable(sock, C.Request));
  }

  lemma FileMarks(s: Session, sock: Sock, e: Event)
    requires Inv(s) && sock in s.clients.bysock && KindOf(s, sock) != Plain
    requires e.Starting? && e.sock == sock && e.got == C.Incomplete
    requires e.answer.Some? && e.answer.value.File? && e.answer.value.content.Some?
    ensures C.Ready(s.clients.watch) && Enabled(s, e)
    ensures var t := Next(s, e);
            && Inv(t) && sock in t.clients.bysock && t.kinds == s.kinds
            && sock in t.writers && t.writers[sock].closes <= 1
            && t.clients.buffered == s.clients.buffered + multiset{sock}
  {
    hide C.Inv, Call, Begin, W.Write;
    FileReport(KindOf(s, sock), PendingBytes(s, sock), e.answer.value.header, e.answer.value.content.value, e.net);
    NextKeeps(s, e);
  }

  lemma LastGoes(s: Session, sock: Sock)
    requires Inv(s) && sock in s.clients.bysock && sock in s.writers && s.writers[sock].closes <= 1
    ensures var f := Sending(sock, Some(""), W.Fails);
            && C.Ready(s.clients.watch) && Enabled(s, f)
            && var c := Next(s, f).clients;
               sock !in c.bysock && sock !in c.norequest && c.buffered == s.clients.buffered - multiset{sock}
  {
    hide C.Books, InStep, C.CleanupWatch, W.Write;
    LastSend(s.writers[sock]);
  }

  lemma TwoFiles(s: Session, sock: Sock, kind: Kind, header: string, content: string)
    requires JustAsked(s, sock, kind) && kind != Plain
    ensures var e := Starting(sock, Some(File(header, Some(content))), C.Incomplete, W.Blocks);
            var (g, f) := (Readable(sock, C.Request), Sending(sock, Some(""), W.Fails));
            && C.Ready(s.clients.watch) && Enabled(s, e)
            && var t := Next(s, e);
               && C.Ready(t.clients.watch) && Enabled(t, g)
               && var u := Next(t, g);
                  && C.Ready(u.clients.watch) && Enabled(u, e)
                  && var v := Next(u, e);
                     && C.Ready(v.clients.watch) && Enabled(v, f)
                     && var c := Next(v, f).clients;
                        sock !in c.bysock && sock !in c.norequest && sock in c.buffered
  {
    hide Inv, Next, Enabled, Tended, C.Single;
    var e := Starting(sock, Some(File(header, Some(content))), C.Incomplete, W.Blocks);
    FileMarks(s, sock, e);
    var t := Next(s, e);
    NextRequest(t, sock);
    var u := Next(t, Readable(sock, C.Request));
    FileMarks(u, sock, e);
    var v := Next(u, e);
    LastGoes(v, sock);
    assert v.clients.buffered == s.clients.buffered + multiset{sock} + multiset{sock};
  }

  /** A failing socket, or nothing left to send, ends the client. */
  lemma LastSend(w: W.Writer)
    requires w.closes < 2
    ensures Told(W.Write(w, Some(""), W.Fails).yielded) == Some(C.Over)
  {
  }
}

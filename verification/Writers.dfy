/** The two byte streams the proxy writes: to its clients (the writing coroutine of the HTTP and ICAP clients)
    and to the servers it downloads from (`Content`). */
module Writers {
  import opened Basics
  import opened Wrappers

  /** What the socket does when written to: it takes some bytes, would block, or fails for good. */
  datatype Net = Takes(n: nat) | Blocks | Fails

  // ----- to the client ------------------------------------------------------------------------

  /** The coroutine's state; `finished` once told to close; `closes` is how often it asked for the connection to be
      closed, which it does twice before it runs out. */
  datatype Writer = Writer(buffer: string, finished: bool, closes: nat) {
    predicate Over() {
      closes > 0
    }
  }

  /** What it yields: a report (whether bytes are still to be sent or the end is near, whether there were any
      before, and how many were sent), or the request to close; a coroutine that ran out raises an exception. */
  datatype Yield = Report(buffered: bool, had: bool, sent: nat) | Close | Exhausted

  datatype Step = Step(writer: Writer, sent: string, yielded: Yield)

  /** One `send` into the coroutine: more data, or `None` for "close when everything is sent". */
  function Write(w: Writer, data: Option<string>, net: Net): Step {
    if w.closes == 1 then Step(w.(closes := 2), "", Close)
    else if w.closes > 1 then Step(w, "", Exhausted)
    else
      var had := |w.buffer| > 0;
      var buffer := w.buffer + (if data.Some? then data.value else "");
      var finished := w.finished || data.None?;
      if finished && |buffer| == 0 then Step(Writer(w.buffer, finished, 1), "", Close)
      else if !had || data == Some("") then
        match net
        case Takes(k) =>
          var n := Min(k, |buffer|);
          Step(Writer(buffer[n..], finished, 0), buffer[..n], Report(n < |buffer| || finished, had, n))
        case Blocks => Step(Writer(buffer, finished, 0), "", Report(|buffer| > 0 || finished, had, 0))
        case Fails => Step(Writer(buffer, finished, 1), "", Close)
      else Step(Writer(buffer, finished, 0), "", Report(|buffer| > 0 || finished, had, 0))
  }

  class ClientWriter {
    var buffer: string
    var finished: bool
    var closes: nat

    function State(): Writer
      reads this
    {
      Writer(buffer, finished, closes)
    }

    /** A new coroutine takes over what an earlier one left in the buffer. */
    constructor (pending: string)
      ensures State() == Writer(pending, false, 0)
    {
      buffer, finished, closes := pending, false, 0;
    }

    method WriteData(data: Option<string>, net: Net) returns (sent: string, yielded: Yield)
      modifies this
      ensures Step(State(), sent, yielded) == Write(old(State()), data, net)
    {
      sent := "";
      if closes == 1 {
        closes := 2;
        return sent, Close;
      }
      if closes > 1 {
        return sent, Exhausted;
      }
      var w_buffer := buffer;
      var had_buffer := |w_buffer| > 0;
      if data.Some? {
        w_buffer := w_buffer + data.value;
      } else {
        finished := true;
      }
      assert data.None? ==> buffer + "" == buffer;
      if finished && |w_buffer| == 0 {
        closes := 1;
        return sent, Close;
      }
      if !had_buffer || data == Some("") {
        match net {
          case Takes(k) =>
            var n := Min(k, |w_buffer|);
            sent := w_buffer[..n];
            w_buffer := w_buffer[n..];
            buffer := w_buffer;
            yielded := Report(|w_buffer| > 0 || finished, had_buffer, n);
          case Blocks =>
            buffer := w_buffer;
            yielded := Report(|w_buffer| > 0 || finished, had_buffer, 0);
          case Fails =>
            buffer := w_buffer;
            closes := 1;
            yielded := Close;
        }
      } else {
        buffer := w_buffer;
        yielded := Report(|w_buffer| > 0 || finished, had_buffer, 0);
      }
    }
  }

  // ----- to the server ------------------------------------------------------------------------

  /** `Content.writeData`: the new buffer and the bytes sent; an error of any kind keeps all bytes. */
  function Push(buffer: string, data: string, net: Net): (string, string) {
    var all := buffer + data;
    if net.Takes? then (all[Min(net.n, |all|)..], all[..Min(net.n, |all|)]) else (all, "")
  }

  class ServerWriter {
    var buffer: string

    constructor (request: string)
      ensures buffer == request
    {
      buffer := request;
    }

    /** The result is whether bytes are left, or `None` when the connection failed. */
    method WriteData(data: string, net: Net) returns (res: Option<bool>, sent: string)
      modifies this
      ensures (buffer, sent) == Push(old(buffer), data, net)
      ensures sent + buffer == old(buffer) + data
      ensures |sent| == if net.Fails? || net.Blocks? then 0 else if net.n < |old(buffer) + data| then net.n else |old(buffer) + data|
      ensures res == if net.Fails? then None else Some(buffer != "")
    {
      var w_buffer := buffer + data;
      sent := "";
      match net {
        case Takes(k) =>
          sent := w_buffer[..Min(k, |w_buffer|)];
          buffer := w_buffer[Min(k, |w_buffer|)..];
          res := Some(|buffer| > 0);
        case Blocks =>
          buffer := w_buffer;
          res := Some(|buffer| > 0);
        case Fails =>
          buffer := w_buffer;
          res := None;
      }
    }

    method BufferData(data: string) returns (res: bool)
      modifies this
      ensures buffer == old(buffer) + data && (res <==> buffer != "")
    {
      buffer := buffer + data;
      res := |buffer| > 0;
    }
  }

  // ----- order ------------------------------------------------------------------------------

  /** One `send` and what the socket then does. */
  datatype Input = Input(data: Option<string>, net: Net)

  /** The end of a run: the writer, everything accepted, everything sent, and whether a socket error ended it. */
  datatype Trace = Trace(writer: Writer, accepted: string, sent: string, failed: bool)

  function Begin(pending: string): Trace {
    Trace(Writer(pending, false, 0), pending, "", false)
  }

  /** Data offered after the connection was given up is not accepted. */
  function Next(t: Trace, i: Input): Trace {
    var s := Write(t.writer, i.data, i.net);
    Trace(s.writer,
          if !t.writer.Over() && i.data.Some? then t.accepted + i.data.value else t.accepted,
          t.sent + s.sent,
          t.failed || (!t.writer.Over() && s.writer.Over() && !EndsCleanly(t.writer, i.data)))
  }

  /** The coroutine breaks out of its loop: told to close, now or before, with nothing left to send. */
  predicate EndsCleanly(w: Writer, data: Option<string>) {
    (w.finished || data.None?) && w.buffer == "" && (data.None? || data.value == "")
  }

  function Run(t: Trace, inputs: seq<Input>): Trace
    decreases |inputs|
  {
    if |inputs| == 0 then t else Run(Next(t, inputs[0]), inputs[1..])
  }

  predicate InOrder(t: Trace) {
    && t.accepted == t.sent + t.writer.buffer
    && (t.writer.Over() && !t.failed ==> t.writer.finished && t.writer.buffer == "")
  }

  function Bytes(data: Option<string>): string {
    if data.Some? then data.value else ""
  }

  /** One step loses, repeats and reorders nothing, and ends the stream cleanly exactly when it should. */
  lemma WriteIsExact(w: Writer, data: Option<string>, net: Net)
    requires !w.Over()
    ensures var s := Write(w, data, net);
            && s.sent + s.writer.buffer == w.buffer + Bytes(data)
            && s.writer.finished == (w.finished || data.None?)
            && (EndsCleanly(w, data) ==> s.writer.Over() && s.writer.finished && s.writer.buffer == "")
            && (s.writer.Over() && !EndsCleanly(w, data) ==> net.Fails?)
  {
    var s := Write(w, data, net);
    var all := w.buffer + Bytes(data);
    var n := |s.sent|;
    assert all == all[..n] + all[n..];
    assert |all| == 0 <==> w.buffer == "" && Bytes(data) == "";
  }

  /** When the writer sends, and what it yields.  It tries the socket if nothing was pending, or if it is given nothing
      more; the socket takes what it can.  It asks for the connection to be closed when it ends cleanly or the socket
      fails, and otherwise reports whether there is something to do, whether there was something pending, and how much
      was sent. */
  lemma WriteSends(w: Writer, data: Option<string>, net: Net)
    requires !w.Over()
    ensures var s := Write(w, data, net);
            var all := |w.buffer| + |Bytes(data)|;
            var tries := !EndsCleanly(w, data) && (w.buffer == "" || data == Some(""));
            && |s.sent| == (if !tries || !net.Takes? then 0 else if net.n < all then net.n else all)
            && (s.yielded.Close? <==> EndsCleanly(w, data) || (tries && net.Fails?))
            && (s.writer.Over() <==> s.yielded.Close?)
            && (!s.yielded.Close? ==>
                  s.yielded == Report(s.writer.buffer != "" || s.writer.finished, w.buffer != "", |s.sent|))
  {
  }

  /** A writer that is over asks once more for the connection to be closed, and then raises an exception. */
  lemma OverRunsOut(w: Writer, data: Option<string>, net: Net, more: Option<string>, again: Net)
    requires w.closes == 1
    ensures var s := Write(w, data, net);
            && s.yielded == Close && s.sent == "" && Write(s.writer, more, again) == Step(s.writer, "", Exhausted)
  {
  }

  function Total(ns: seq<nat>): nat {
    if |ns| == 0 then 0 else ns[0] + Total(ns[1..])
  }

  /** The manager sends nothing more whenever the socket is ready, and this takes some bytes each time. */
  function Flushes(ns: seq<nat>): seq<Input> {
    if |ns| == 0 then [] else [Input(Some(""), Takes(ns[0]))] + Flushes(ns[1..])
  }

  /** So everything pending is sent once the socket has taken as much, and no sooner; and a writer that was told to
      close then asks for it at the next turn. */
  lemma {:induction false} FlushesAll(t: Trace, ns: seq<nat>)
    requires InOrder(t) && (t.writer.Over() ==> t.writer.buffer == "")
    ensures var u := Run(t, Flushes(ns));
            && |u.writer.buffer| == (if Total(ns) < |t.writer.buffer| then |t.writer.buffer| - Total(ns) else 0)
            && u.accepted == t.accepted && InOrder(u)
            && (u.writer.buffer == "" && u.writer.finished && !u.writer.Over() ==>
                  Write(u.writer, Some(""), Blocks).yielded == Close)
    decreases |ns|
  {
    hide Write;
    if |ns| == 0 {
      FinishedEnds(t.writer);
    } else {
      var i := Input(Some(""), Takes(ns[0]));
      NextInOrder(t, i);
      FlushStep(t, ns[0]);
      assert Flushes(ns)[0] == i && Flushes(ns)[1..] == Flushes(ns[1..]);
      FlushesAll(Next(t, i), ns[1..]);
    }
  }

  lemma FinishedEnds(w: Writer)
    ensures w.buffer == "" && w.finished && !w.Over() ==> Write(w, Some(""), Blocks).yielded == Close
  {
  }

  lemma FlushStep(t: Trace, n: nat)
    requires InOrder(t) && (t.writer.Over() ==> t.writer.buffer == "")
    ensures var u := Next(t, Input(Some(""), Takes(n)));
            && u.accepted == t.accepted
            && |u.writer.buffer| == (if n < |t.writer.buffer| then |t.writer.buffer| - n else 0)
            && (u.writer.Over() ==> u.writer.buffer == "")
  {
    hide Write;
    assert t.accepted + "" == t.accepted;
    if t.writer.Over() {
      WriteOver(t.writer, Some(""), Takes(n));
    } else {
      WriteIsExact(t.writer, Some(""), Takes(n));
      WriteSends(t.writer, Some(""), Takes(n));
      var s := Write(t.writer, Some(""), Takes(n));
      assert |s.sent| + |s.writer.buffer| == |s.sent + s.writer.buffer|;
    }
  }

  lemma NextInOrder(t: Trace, i: Input)
    requires InOrder(t)
    ensures InOrder(Next(t, i))
    ensures !t.writer.Over() ==>
              (Next(t, i).writer.Over() && !Next(t, i).failed <==> !t.failed && EndsCleanly(t.writer, i.data))
  {
    hide Write, EndsCleanly;
    var s := Write(t.writer, i.data, i.net);
    if t.writer.Over() {
      WriteOver(t.writer, i.data, i.net);
      assert t.sent + "" == t.sent;
    } else {
      WriteIsExact(t.writer, i.data, i.net);
      Reassociate(t.sent, s.sent, s.writer.buffer, t.writer.buffer, Bytes(i.data));
      assert t.accepted + "" == t.accepted;
    }
  }

  lemma WriteOver(w: Writer, data: Option<string>, net: Net)
    requires w.Over()
    ensures var s := Write(w, data, net);
            s.sent == "" && s.writer.Over() && s.writer == w.(closes := s.writer.closes) && !s.yielded.Report?
  {
  }

  lemma Reassociate(sent: string, more: string, buffer': string, buffer: string, data: string)
    requires more + buffer' == buffer + data
    ensures sent + more + buffer' == sent + buffer + data
  {
    assert sent + more + buffer' == sent + (more + buffer');
  }

  lemma {:induction false} RunInOrder(t: Trace, inputs: seq<Input>)
    requires InOrder(t)
    ensures InOrder(Run(t, inputs))
    decreases |inputs|
  {
    if |inputs| == 0 {
    } else {
      NextInOrder(t, inputs[0]);
      RunInOrder(Next(t, inputs[0]), inputs[1..]);
    }
  }

  /** Under any mix of partial sends, would-block errors and requests to close, the bytes accepted (those offered
      after a request to close included) are the bytes sent followed by the buffer, in order; and a writer that
      ends without a socket error was told to close and has sent everything it accepted. */
  lemma ClientStreamIsExact(pending: string, inputs: seq<Input>)
    ensures var t := Run(Begin(pending), inputs);
            && t.accepted == t.sent + t.writer.buffer
            && (t.writer.Over() && !t.failed ==> t.writer.finished && t.sent == t.accepted)
  {
    RunInOrder(Begin(pending), inputs);
    var t := Run(Begin(pending), inputs);
    if t.writer.Over() && !t.failed {
      assert t.sent + "" == t.sent;
    }
  }

  /** Data and what the socket does, for the server's stream. */
  datatype Pushed = Pushed(data: string, net: Net)

  function PushAll(buffer: string, sent: string, ps: seq<Pushed>): (string, string)
    decreases |ps|
  {
    if |ps| == 0 then (buffer, sent)
    else
      var (b, s) := Push(buffer, ps[0].data, ps[0].net);
      PushAll(b, sent + s, ps[1..])
  }

  function Offered(ps: seq<Pushed>): string {
    if |ps| == 0 then "" else ps[0].data + Offered(ps[1..])
  }

  lemma {:induction false} ServerStreamIsExact(buffer: string, sent: string, ps: seq<Pushed>)
    ensures var (b, s) := PushAll(buffer, sent, ps); s + b == sent + buffer + Offered(ps)
    decreases |ps|
  {
    if |ps| == 0 {
      assert sent + buffer + "" == sent + buffer;
    } else {
      var (b, s) := Push(buffer, ps[0].data, ps[0].net);
      assert s + b == buffer + ps[0].data;
      ServerStreamIsExact(b, sent + s, ps[1..]);
      assert sent + s + b == sent + (s + b);
      assert sent + (buffer + ps[0].data) + Offered(ps[1..]) == sent + buffer + (ps[0].data + Offered(ps[1..]));
    }
  }

  /** The server's socket is always tried, and takes what it can. */
  lemma PushSends(buffer: string, data: string, net: Net)
    ensures var (b, s) := Push(buffer, data, net);
            && s + b == buffer + data
            && |s| == if !net.Takes? then 0 else if net.n < |buffer| + |data| then net.n else |buffer| + |data|
  {
    var all := buffer + data;
    if net.Takes? {
      assert all == all[..Min(net.n, |all|)] + all[Min(net.n, |all|)..];
    }
  }

  // ----- local files --------------------------------------------------------------------------

  /** The buffer when a local file is to be sent after what is pending, as the HTTP client fills it. */
  function HttpFile(pending: string, header: string, file: string): string {
    pending + (header + file)
  }

  /** The same in the ICAP client, which puts the header in front of everything. */
  function IcapFile(pending: string, header: string, file: string): string {
    header + (pending + file)
  }

  /** The ICAP client is sure to keep the order, for every header and file, if and only if nothing was pending. */
  lemma IcapFileInOrderIff(pending: string)
    ensures pending == "" <==>
            forall header: string, file: string :: IcapFile(pending, header, file) == HttpFile(pending, header, file)
  {
    if pending == "" {
      forall header: string, file: string
        ensures IcapFile(pending, header, file) == HttpFile(pending, header, file)
      {
        assert "" + file == file && "" + (header + file) == header + file;
      }
    } else {
      var header := [if pending[0] == 'H' then 'I' else 'H'];
      assert IcapFile(pending, header, "")[0] != HttpFile(pending, header, "")[0];
    }
  }

  function Repeat(s: string, n: nat): string {
    if n == 0 then "" else s + Repeat(s, n - 1)
  }

  lemma {:induction false} RepeatAdds(s: string, m: nat, n: nat)
    ensures Repeat(s, m) + Repeat(s, n) == Repeat(s, m + n)
    decreases m
  {
    if m == 0 {
    } else {
      RepeatAdds(s, m - 1, n);
      assert s + Repeat(s, m - 1) + Repeat(s, n) == s + (Repeat(s, m - 1) + Repeat(s, n));
    }
  }

  /** Two strings that can be exchanged are repetitions of one string. */
  lemma {:induction false} ExchangedAreRepeated(a: string, b: string) returns (s: string, m: nat, n: nat)
    requires a + b == b + a
    ensures a == Repeat(s, m) && b == Repeat(s, n)
    decreases |a| + |b|, |a| > |b|
  {
    if a == "" {
      s, m, n := b, 0, 1;
      assert b + "" == b;
    } else if b == "" {
      s, m, n := a, 1, 0;
      assert a + "" == a;
    } else if |a| <= |b| {
      assert b == a + b[|a|..] by {
        assert (a + b)[..|a|] == a && (b + a)[..|a|] == b[..|a|];
      }
      var c := b[|a|..];
      assert a + c == c + a by {
        assert (a + b)[|a|..] == b && (b + a)[|a|..] == c + a;
      }
      s, m, n := ExchangedAreRepeated(a, c);
      RepeatAdds(s, m, n);
      n := m + n;
    } else {
      s, n, m := ExchangedAreRepeated(b, a);
    }
  }

  /** Of one header and some pending bytes the order is kept, if at all, only because both are repetitions of the
      same string. */
  lemma IcapHeaderInOrderIff(pending: string, header: string, file: string)
    ensures IcapFile(pending, header, file) == HttpFile(pending, header, file) <==>
            exists s: string, m: nat, n: nat :: pending == Repeat(s, m) && header == Repeat(s, n)
  {
    var a, b := IcapFile(pending, header, file), HttpFile(pending, header, file);
    var n := |header| + |pending|;
    assert a == header + pending + file && b == pending + header + file;
    assert a[..n] == header + pending && b[..n] == pending + header;
    if a == b {
      var s, m, k := ExchangedAreRepeated(pending, header);
      assert pending == Repeat(s, m) && header == Repeat(s, k);
    }
    if s: string, m: nat, k: nat :| pending == Repeat(s, m) && header == Repeat(s, k) {
      RepeatAdds(s, m, k);
      RepeatAdds(s, k, m);
    }
  }

  /** A response header sent before the rest of the response it follows. */
  lemma IcapFileOutOfOrder()
    ensures IcapFile("body", "HTTP", "") != HttpFile("body", "HTTP", "")
  {
    assert IcapFile("body", "HTTP", "")[0] == 'H';
  }
}

/** Chunked request bodies, read from a socket in arbitrary pieces: the size-line scanner
    `checkChunkSize`, `_chunked`, `_transfer` and `process` of the HTTP and ICAP clients.

    The scanner is called again on every read.  The main result is that what it decides never
    depends on how the bytes were cut into reads: after each read the client stands exactly where
    one scan over everything received so far would put it. */
module ChunkedBody {
  import opened Basics
  import opened Wrappers

  const MAX_CHUNK: nat := 0x100000
  const MAX_PARTIAL: nat := 6

  // ----- size lines -------------------------------------------------------------------------

  predicate IsHexDigit(c: char) {
    '0' <= c <= '9' || 'a' <= c <= 'f' || 'A' <= c <= 'F'
  }

  predicate AllHex(s: string) {
    forall i | 0 <= i < |s| :: IsHexDigit(s[i])
  }

  predicate IsHex(s: string) {
    |s| != 0 && AllHex(s)
  }

  function HexDigit(c: char): nat
    requires IsHexDigit(c)
  {
    if c <= '9' then c as int - '0' as int
    else if c <= 'F' then c as int - 'A' as int + 10
    else c as int - 'a' as int + 10
  }

  function HexValue(s: string): nat
    requires AllHex(s)
  {
    if |s| == 0 then 0 else 16 * HexValue(s[..|s| - 1]) + HexDigit(s[|s| - 1])
  }

  /** The index of the first `c` in `s`, or `|s|` when there is none. */
  function Find(s: string, c: char): (n: nat)
    ensures n <= |s|
    ensures forall i | 0 <= i < n :: s[i] != c
    ensures n < |s| ==> s[n] == c
  {
    if |s| == 0 || s[0] == c then 0
    else
      1 + Find(s[1..], c)
  }

  /** What the first line of a buffer says: nothing yet, nonsense, or a chunk of `size` bytes announced by
      a line of `line` bytes (newline included) and followed by an end of line of `eol` bytes. */
  datatype SizeLine = Missing | Malformed | Size(size: nat, line: nat, eol: nat)

  function ReadLine(s: string): SizeLine {
    var n := Find(s, '\n');
    if n == |s| then Missing
    else
      var crlf := n > 0 && s[n - 1] == '\r';
      var text := if crlf then s[..n - 1] else s[..n];
      var digits := text[..Find(text, ';')];
      if !IsHex(digits) || HexValue(digits) > MAX_CHUNK then Malformed
      else Size(HexValue(digits), n + 1, if crlf then 2 else 1)
  }

  /** The distance from one size line to the next. */
  function Hop(l: SizeLine): nat
    requires l.Size?
  {
    l.line + l.size + l.eol
  }

  function Drop(s: string, n: nat): string {
    if n <= |s| then s[n..] else ""
  }

  // ----- the scanner ------------------------------------------------------------------------

  /** The scanner's answer: whether more chunks are expected, and how many bytes were recognised
      (`None` when the data is refused). */
  datatype Scan = Scan(more: bool, length: Option<nat>)

  /** The value computed by `CheckChunkSize` once `total` bytes were recognised before `s`. */
  function ScanFrom(s: string, total: nat): Scan
    decreases |s|
  {
    if |s| == 0 then Scan(true, Some(total))
    else
      match ReadLine(s)
      case Missing => Scan(true, if |s| > MAX_PARTIAL then None else Some(0))
      case Malformed => Scan(true, None)
      case Size(size, line, _) =>
        if size == 0 then Scan(false, Some(total + line))
        else ScanFrom(Drop(s, Hop(ReadLine(s))), total + Hop(ReadLine(s)))
  }

  function ScanAll(s: string): Scan {
    ScanFrom(s, 0)
  }

  method CheckChunkSize(buffer: string) returns (more: bool, length: Option<nat>)
    ensures Scan(more, length) == ScanAll(buffer)
  {
    hide ReadLine;
    var r := buffer;
    var total := 0;
    while |r| != 0
      invariant ScanFrom(r, total) == ScanAll(buffer)
      decreases |r|
    {
      match ReadLine(r) {
        case Missing =>
          if |r| > MAX_PARTIAL {
            return true, None;
          }
          return true, Some(0);
        case Malformed =>
          return true, None;
        case Size(size, line, eol) =>
          if size == 0 {
            return false, Some(total + line);
          }
          total := total + line + size + eol;
          r := Drop(r, line + size + eol);
      }
    }
    return true, Some(total);
  }

  // ----- positions of size lines ------------------------------------------------------------

  /** `p` is where a size line of `s` starts, or will start, counting from a size line at 0. */
  predicate Boundary(s: string, p: nat)
    decreases p
  {
    p == 0 ||
    (ReadLine(s).Size? && ReadLine(s).size > 0 && Hop(ReadLine(s)) <= p &&
     Boundary(Drop(s, Hop(ReadLine(s))), p - Hop(ReadLine(s))))
  }

  /** Past the bytes received there is no further size line. */
  lemma NoLineInNothing(s: string, p: nat)
    requires |s| == 0
    ensures Boundary(s, p) <==> p == 0
  {
    assert ReadLine(s).Missing?;
  }

  lemma {:induction false} FindGrows(s: string, t: string, c: char)
    requires Find(s, c) < |s|
    ensures Find(s + t, c) == Find(s, c)
  {
    if s[0] != c {
      assert (s + t)[1..] == s[1..] + t;
      FindGrows(s[1..], t, c);
    }
  }

  /** A complete line is read the same way whatever follows it. */
  lemma ReadLineGrows(s: string, t: string)
    requires !ReadLine(s).Missing?
    ensures ReadLine(s + t) == ReadLine(s)
  {
    var n := Find(s, '\n');
    FindGrows(s, t, '\n');
    assert (s + t)[..n] == s[..n];
    if n > 0 {
      assert (s + t)[..n - 1] == s[..n - 1];
    }
  }

  lemma {:induction false} BoundaryGrows(s: string, t: string, p: nat)
    requires Boundary(s, p)
    ensures Boundary(s + t, p)
    decreases p
  {
    hide ReadLine;
    if p == 0 {
    } else {
      ReadLineGrows(s, t);
      var h := Hop(ReadLine(s));
      if h <= |s| {
        assert Drop(s + t, h) == Drop(s, h) + t;
        BoundaryGrows(Drop(s, h), t, p - h);
      } else {
        NoLineInNothing(Drop(s, h), p - h);
      }
    }
  }

  lemma {:induction false} BoundaryJoins(s: string, p: nat, q: nat)
    requires Boundary(s, p) && p <= |s| && Boundary(s[p..], q)
    ensures Boundary(s, p + q)
    decreases p
  {
    hide ReadLine;
    if p == 0 {
      assert s[0..] == s;
    } else {
      var h := Hop(ReadLine(s));
      assert Drop(s, h)[p - h..] == s[p..];
      BoundaryJoins(Drop(s, h), p - h, q);
    }
  }

  /** Starting the count elsewhere changes no decision, only the position of the end. */
  lemma {:induction false} ScanShifts(s: string, total: nat, offset: nat)
    ensures ScanFrom(s, total + offset).more == ScanFrom(s, total).more
    ensures ScanFrom(s, total + offset).length.None? == ScanFrom(s, total).length.None?
    ensures !ScanFrom(s, total).more ==>
              && ScanFrom(s, total).length.Some?
              && ScanFrom(s, total + offset).length == Some(ScanFrom(s, total).length.value + offset)
    decreases |s|
  {
    hide ReadLine;
    if |s| != 0 && ReadLine(s).Size? && ReadLine(s).size > 0 {
      var h := Hop(ReadLine(s));
      ScanShifts(Drop(s, h), total + h, offset);
    }
  }

  /** One scan from the start decides what a scan from any size line on decides. */
  lemma {:induction false} ScanResumes(s: string, p: nat)
    requires Boundary(s, p)
    ensures p > |s| ==> ScanAll(s) == Scan(true, Some(p))
    ensures p <= |s| ==>
              && ScanAll(s).more == ScanAll(s[p..]).more
              && ScanAll(s).length.None? == ScanAll(s[p..]).length.None?
              && (!ScanAll(s).more ==> ScanAll(s[p..]).length.Some? &&
                                       ScanAll(s).length == Some(p + ScanAll(s[p..]).length.value))
    decreases p
  {
    hide ReadLine;
    if p > |s| {
      ScanOverruns(s, p, 0);
    } else if p == 0 {
      assert s[0..] == s;
      ScanShifts(s, 0, 0);
    } else {
      var h := Hop(ReadLine(s));
      ScanShifts(s[h..], 0, h);
      ScanResumes(s[h..], p - h);
      assert s[h..][p - h..] == s[p..];
    }
  }

  lemma {:induction false} ScanOverruns(s: string, p: nat, total: nat)
    requires Boundary(s, p) && p > |s|
    ensures ScanFrom(s, total) == Scan(true, Some(total + p))
    decreases p
  {
    hide ReadLine;
    if |s| == 0 {
      NoLineInNothing(s, p);
    }
    var h := Hop(ReadLine(s));
    if h <= |s| {
      ScanOverruns(Drop(s, h), p - h, total + h);
    } else {
      NoLineInNothing(Drop(s, h), p - h);
    }
  }

  /** When more is expected, the bytes recognised end at a size line (or nothing was recognised). */
  lemma {:induction false} ScanStopsAtBoundary(s: string, total: nat)
    ensures var r := ScanFrom(s, total);
            r.more && r.length.Some? ==>
              r.length.value == 0 || (r.length.value >= total && Boundary(s, r.length.value - total))
    decreases |s|
  {
    hide ReadLine;
    if |s| != 0 && ReadLine(s).Size? && ReadLine(s).size > 0 {
      var h := Hop(ReadLine(s));
      ScanStopsAtBoundary(Drop(s, h), total + h);
    }
  }

  /** A line is complete when its newline is there. */
  lemma LineEnds(s: string)
    ensures ReadLine(s).Missing? <==> Find(s, '\n') == |s|
    ensures ReadLine(s).Size? ==> 2 <= ReadLine(s).line == Find(s, '\n') + 1
  {
  }

  /** The end lies inside the bytes scanned, after at least a line of two. */
  lemma {:induction false} ScanEndsInside(s: string, total: nat)
    requires !ScanFrom(s, total).more
    ensures ScanFrom(s, total).length.Some?
    ensures total + 2 <= ScanFrom(s, total).length.value <= total + |s|
    decreases |s|
  {
    hide ReadLine, Find, ScanFrom;
    ScanGoesOn(s, total);
    LineInside(s);
    if ReadLine(s).size > 0 {
      var h := Hop(ReadLine(s));
      ScanEndsInside(Drop(s, h), total + h);
    }
  }

  /** A scan that sees the end reads a size line first, and scans on after the chunk unless it is the last. */
  lemma ScanGoesOn(s: string, total: nat)
    requires !ScanFrom(s, total).more
    ensures ReadLine(s).Size?
    ensures if ReadLine(s).size == 0 then ScanFrom(s, total) == Scan(false, Some(total + ReadLine(s).line))
            else ScanFrom(s, total) == ScanFrom(Drop(s, Hop(ReadLine(s))), total + Hop(ReadLine(s))) &&
                 Hop(ReadLine(s)) <= |s|
  {
    hide ReadLine;
    if |s| != 0 && ReadLine(s).Size? && Hop(ReadLine(s)) > |s| {
      assert ScanFrom("", total + Hop(ReadLine(s))).more;
    }
  }

  lemma LineInside(s: string)
    ensures ReadLine(s).Size? ==> 2 <= ReadLine(s).line <= |s|
  {
    hide Find;
    LineEnds(s);
  }

  /** Once the end was seen, further bytes do not move it. */
  lemma {:induction false} EndIsStable(s: string, t: string, total: nat)
    requires !ScanFrom(s, total).more
    ensures ScanFrom(s + t, total) == ScanFrom(s, total)
    decreases |s|
  {
    hide ReadLine;
    ReadLineGrows(s, t);
    if ReadLine(s).size > 0 {
      var h := Hop(ReadLine(s));
      ScanEndsInside(Drop(s, h), total + h);
      assert Drop(s + t, h) == Drop(s, h) + t;
      EndIsStable(Drop(s, h), t, total + h);
    }
  }

  // ----- the clients' read step -------------------------------------------------------------

  datatype Mode = Chunked | Transfer | EndChunk | ExtraHeaders | NewRequest

  /** What the reading coroutine keeps between reads: bytes not yet passed on, how many of the coming
      bytes are already accounted for, and what is being read. */
  datatype Body = Body(buffer: string, pending: nat, mode: Mode)

  /** The result of processing a buffer; `data` is `None` when the client must be dropped. */
  datatype Step = Step(data: Option<string>, body: Body)

  function TransferStep(b: Body): Step {
    var length := Min(|b.buffer|, b.pending);
    Step(Some(b.buffer[..length]),
         Body(b.buffer[length..], b.pending - length, if b.pending == length then NewRequest else b.mode))
  }

  /** `_chunked` of both clients, which differ only in the mode that follows the last chunk. */
  function ChunkedStep(b: Body, next: Mode): Step {
    var length := Min(|b.buffer|, b.pending);
    var rest := b.buffer[length..];
    var scan := ScanAll(Drop(rest, b.pending - length));
    var pending := b.pending - length + (if scan.length.Some? then scan.length.value else 0);
    Step(if scan.length.Some? then Some(b.buffer[..length]) else None,
         Body(rest, pending, if scan.more then b.mode else if pending > 0 then next else NewRequest))
  }

  function HttpProcess(b: Body): Step
    requires b.mode == Chunked || b.mode == Transfer
  {
    if b.mode == Transfer then TransferStep(b) else ChunkedStep(b, EndChunk)
  }

  /** The ICAP client discards the body, and with it the scanner's refusal: it never returns `None` here. */
  function IcapProcess(b: Body): Step
    requires b.mode == Chunked || b.mode == Transfer
  {
    var first := if b.mode == Transfer then TransferStep(b) else ChunkedStep(b, Transfer);
    var last := if b.mode == Chunked && first.body.mode == Transfer then TransferStep(first.body) else first;
    Step(Some(""), last.body)
  }

  function Receive(b: Body, bytes: string): Body {
    b.(buffer := b.buffer + bytes)
  }

  /** The HTTP reading coroutine while it is in chunked mode. */
  class HttpReader {
    var buffer: string
    var pending: nat
    var mode: Mode

    function State(): Body
      reads this
    {
      Body(buffer, pending, mode)
    }

    constructor (leftover: string)
      ensures State() == Body(leftover, 0, Chunked)
    {
      buffer, pending, mode := leftover, 0, Chunked;
    }

    method Read(bytes: string) returns (data: Option<string>)
      requires mode == Chunked
      modifies this
      ensures Step(data, State()) == HttpProcess(Receive(old(State()), bytes))
    {
      hide ScanFrom;
      buffer := buffer + bytes;
      var length := Min(|buffer|, pending);
      var sent := buffer[..length];
      buffer := buffer[length..];
      pending := pending - length;
      var more, found := CheckChunkSize(Drop(buffer, pending));
      if found.Some? {
        pending := pending + found.value;
        data := Some(sent);
      } else {
        data := None;
      }
      if !more {
        mode := if pending > 0 then EndChunk else NewRequest;
      }
    }
  }

  // ----- runs -------------------------------------------------------------------------------

  function Join(pieces: seq<string>): string {
    if |pieces| == 0 then "" else pieces[0] + Join(pieces[1..])
  }

  /** The end of a run: what was passed on, whether the data was refused, and the pieces never read. */
  datatype Outcome = Outcome(body: Body, emitted: string, refused: bool, unread: seq<string>)

  function HttpRun(b: Body, pieces: seq<string>): (r: Outcome)
    ensures |r.unread| <= |pieces|
    decreases |pieces|
  {
    if |pieces| == 0 || b.mode != Chunked then Outcome(b, "", false, pieces)
    else
      var s := HttpProcess(Receive(b, pieces[0]));
      if s.data.None? then Outcome(s.body, "", true, pieces[1..])
      else
        var r := HttpRun(s.body, pieces[1..]);
        r.(emitted := s.data.value + r.emitted)
  }

  function IcapRun(b: Body, pieces: seq<string>): (r: Outcome)
    ensures |r.unread| <= |pieces|
    decreases |pieces|
  {
    if |pieces| == 0 || b.mode != Chunked then Outcome(b, "", false, pieces)
    else
      var s := IcapProcess(Receive(b, pieces[0]));
      IcapRun(s.body, pieces[1..])
  }

  /** After `received`, of which the first `gone` bytes were passed on, the reader holds the rest and has
      accounted for everything up to a size line. */
  predicate Tracks(b: Body, received: string, gone: nat) {
    && b.mode == Chunked
    && gone <= |received|
    && b.buffer == received[gone..]
    && Boundary(received, gone + b.pending)
  }

  predicate Continues(s: Scan) {
    s.more && s.length.Some?
  }

  /** What scanning from the size line at `q` adds to one scan of everything. */
  lemma ScanFromBoundary(all: string, q: nat)
    requires Boundary(all, q) && q <= |all|
    ensures var rest := ScanAll(all[q..]);
            && rest.more == ScanAll(all).more
            && rest.length.None? == ScanAll(all).length.None?
            && (Continues(rest) ==> Boundary(all, q + rest.length.value))
            && (!rest.more ==> rest.length.Some? && rest.length.value >= 2 &&
                               ScanAll(all).length == Some(q + rest.length.value))
  {
    hide ReadLine, ScanFrom;
    ScanResumes(all, q);
    ScanStopsAtBoundary(all[q..], 0);
    if Continues(ScanAll(all[q..])) {
      BoundaryJoins(all, q, ScanAll(all[q..]).length.value);
    } else if !ScanAll(all[q..]).more {
      ScanEndsInside(all[q..], 0);
    }
  }

  /** One read: the decision is the one a single scan over everything received takes. */
  lemma ChunkedStepTracks(b: Body, received: string, gone: nat, bytes: string, next: Mode)
    returns (gone': nat)
    requires Tracks(b, received, gone)
    ensures var all := received + bytes;
            var s := ChunkedStep(Receive(b, bytes), next);
            && gone <= gone' <= |all|
            && s.body.buffer == all[gone'..]
            && s.data == (if ScanAll(all).length.None? then None else Some(all[gone..gone']))
            && (ScanAll(all).more ==> Tracks(s.body, all, gone'))
            && (!ScanAll(all).more ==> s.body.mode == next && s.body.pending >= 2 &&
                                       ScanAll(all).length == Some(gone' + s.body.pending))
  {
    hide ReadLine, ScanAll, Boundary;
    var all := received + bytes;
    var r := Receive(b, bytes);
    var q := gone + b.pending;
    var n := Min(|r.buffer|, b.pending);
    gone' := gone + n;
    assert r.buffer == all[gone..];
    assert r.buffer[n..] == all[gone'..] && r.buffer[..n] == all[gone..gone'];
    BoundaryGrows(received, bytes, q);
    if q <= |all| {
      assert Drop(all[gone'..], 0) == all[q..];
      ScanFromBoundary(all, q);
    } else {
      assert Drop(all[gone'..], q - |all|) == "";
      ScanNothing();
      ScanResumes(all, q);
    }
  }

  lemma ScanNothing()
    ensures ScanAll("") == Scan(true, Some(0))
  {
  }

  /** Everything received once the first `i` pieces were read. */
  function After(received: string, pieces: seq<string>, i: nat): string
    requires i <= |pieces|
  {
    received + Join(pieces[..i])
  }

  lemma AfterNone(received: string, pieces: seq<string>)
    ensures After(received, pieces, 0) == received
  {
  }

  lemma AfterNext(received: string, pieces: seq<string>, i: nat)
    requires 0 < i <= |pieces|
    ensures After(received, pieces, i) == After(received + pieces[0], pieces[1..], i - 1)
  {
    assert pieces[..i][0] == pieces[0] && pieces[..i][1..] == pieces[1..][..i - 1];
  }

  /** The reads already made are `pieces[..Made(r, pieces)]`. */
  function Made(r: Outcome, pieces: seq<string>): nat
    requires |r.unread| <= |pieces|
  {
    |pieces| - |r.unread|
  }

  /** Before the last read made, one scan of what was received so far would have gone on. */
  predicate WentOn(received: string, pieces: seq<string>, made: nat)
    requires made <= |pieces|
  {
    forall i | 0 < i < made :: Continues(ScanAll(After(received, pieces, i)))
  }

  predicate HttpAgrees(r: Outcome, received: string, gone: nat, pieces: seq<string>) {
    && |r.unread| <= |pieces|
    && gone <= |received|
    && var k := Made(r, pieces);
       var all := After(received, pieces, k);
       && r.unread == pieces[k..]
       && WentOn(received, pieces, k)
       && (r.refused ==> k > 0 && ScanAll(all).length.None?)
       && (!r.refused ==>
             && r.emitted + r.body.buffer == all[gone..]
             && (if r.body.mode == Chunked then k == |pieces| && (k > 0 ==> Continues(ScanAll(all)))
                 else k > 0 && r.body.mode == EndChunk && r.body.pending >= 2 &&
                      ScanAll(all) == Scan(false, Some(gone + |r.emitted| + r.body.pending))))
  }

  lemma {:induction false} HttpRunTracks(b: Body, received: string, gone: nat, pieces: seq<string>)
    requires Tracks(b, received, gone)
    ensures HttpAgrees(HttpRun(b, pieces), received, gone, pieces)
    decreases |pieces|
  {
    hide ReadLine, ScanAll, Boundary, ChunkedStep;
    var r := HttpRun(b, pieces);
    if |pieces| == 0 {
      assert After(received, pieces, 0) == received;
    } else {
      var all := received + pieces[0];
      var gone' := ChunkedStepTracks(b, received, gone, pieces[0], EndChunk);
      var s := HttpProcess(Receive(b, pieces[0]));
      assert After(all, pieces[1..], 0) == all;
      AfterNext(received, pieces, 1);
      if s.data.Some? && s.body.mode == Chunked {
        HttpRunTracks(s.body, all, gone', pieces[1..]);
        HttpRunSteps(r, HttpRun(s.body, pieces[1..]), received, gone, gone', pieces);
      } else {
        HttpRunEnds(b, received, gone, gone', pieces);
      }
    }
  }

  /** A run that ends with its first read. */
  lemma HttpRunEnds(b: Body, received: string, gone: nat, gone': nat, pieces: seq<string>)
    requires |pieces| > 0 && gone <= gone' <= |received + pieces[0]| && gone <= |received| && b.mode == Chunked
    requires var all := received + pieces[0];
             var s := ChunkedStep(Receive(b, pieces[0]), EndChunk);
             && s.body.buffer == all[gone'..]
             && s.data == (if ScanAll(all).length.None? then None else Some(all[gone..gone']))
             && (s.data.None? || s.body.mode != Chunked)
             && (s.data.Some? ==> s.body.mode == EndChunk && s.body.pending >= 2 && !ScanAll(all).more &&
                                  ScanAll(all).length == Some(gone' + s.body.pending))
    ensures HttpAgrees(HttpRun(b, pieces), received, gone, pieces)
  {
    hide ReadLine, ScanAll, ChunkedStep, Join;
    var all := received + pieces[0];
    var s := HttpProcess(Receive(b, pieces[0]));
    AfterNext(received, pieces, 1);
    AfterNone(all, pieces[1..]);
    if s.data.Some? {
      assert HttpRun(s.body, pieces[1..]) == Outcome(s.body, "", false, pieces[1..]);
      assert s.data.value + "" == all[gone..gone'];
      assert all[gone..gone'] + all[gone'..] == all[gone..];
    }
  }

  /** Putting one more read in front of a run that agrees. */
  lemma HttpRunSteps(r: Outcome, r': Outcome, received: string, gone: nat, gone': nat, pieces: seq<string>)
    requires |pieces| > 0 && gone <= |received| && gone <= gone' <= |received + pieces[0]|
    requires Continues(ScanAll(received + pieces[0]))
    requires HttpAgrees(r', received + pieces[0], gone', pieces[1..])
    requires r == r'.(emitted := (received + pieces[0])[gone..gone'] + r'.emitted)
    ensures HttpAgrees(r, received, gone, pieces)
  {
    hide ScanAll, Join;
    var k := Made(r, pieces);
    forall i | 0 < i <= k
      ensures After(received, pieces, i) == After(received + pieces[0], pieces[1..], i - 1)
    {
      AfterNext(received, pieces, i);
    }
    AfterNone(received + pieces[0], pieces[1..]);
  }

  /** However the bytes are cut into reads, the HTTP client passes on or holds every byte in order, and
      after each read it has decided exactly what one scan over everything received decides: it goes on, it
      refuses, or it leaves chunked mode with the end of the zero-size line accounted for to the byte. */
  lemma HttpAgreesWithOneScan(leftover: string, pieces: seq<string>)
    ensures HttpAgrees(HttpRun(Body(leftover, 0, Chunked), pieces), leftover, 0, pieces)
  {
    HttpRunTracks(Body(leftover, 0, Chunked), leftover, 0, pieces);
  }

  /** The ICAP client ignores refusals, so it leaves chunked mode at the first read with which one scan sees
      the end, whatever the length of the lines, and then holds exactly the bytes after the end. */
  predicate IcapAgrees(r: Outcome, received: string, pieces: seq<string>) {
    && |r.unread| <= |pieces|
    && var k := Made(r, pieces);
       var all := After(received, pieces, k);
       && r.unread == pieces[k..]
       && !r.refused
       && (forall i | 0 < i < k :: ScanAll(After(received, pieces, i)).more)
       && (if r.body.mode == Chunked then k == |pieces| && (k > 0 ==> ScanAll(all).more)
           else k > 0 && !ScanAll(all).more && ScanAll(all).length.Some? &&
                ScanAll(all).length.value <= |all| &&
                r.body == Body(all[ScanAll(all).length.value..], 0, NewRequest))
  }

  /** One read of the ICAP client. */
  lemma IcapStepTracks(b: Body, received: string, gone: nat, bytes: string) returns (gone': nat)
    requires Tracks(b, received, gone)
    ensures var all := received + bytes;
            var s := IcapProcess(Receive(b, bytes));
            && s.data.Some?
            && (ScanAll(all).more ==> Tracks(s.body, all, gone'))
            && (!ScanAll(all).more ==> ScanAll(all).length.Some? && ScanAll(all).length.value <= |all| &&
                                       s.body == Body(all[ScanAll(all).length.value..], 0, NewRequest))
  {
    hide ReadLine, ScanFrom, Boundary, ChunkedStep;
    var all := received + bytes;
    gone' := ChunkedStepTracks(b, received, gone, bytes, Transfer);
    if !ScanAll(all).more {
      ScanEndsInside(all, 0);
      var first := ChunkedStep(Receive(b, bytes), Transfer);
      assert first.body.buffer[first.body.pending..] == all[ScanAll(all).length.value..];
    }
  }

  lemma {:induction false} IcapRunTracks(b: Body, received: string, gone: nat, pieces: seq<string>)
    requires Tracks(b, received, gone)
    ensures IcapAgrees(IcapRun(b, pieces), received, pieces)
    decreases |pieces|
  {
    hide ReadLine, ScanAll, Boundary, IcapProcess;
    AfterNone(received, pieces);
    if |pieces| == 0 {
    } else {
      var all := received + pieces[0];
      var gone' := IcapStepTracks(b, received, gone, pieces[0]);
      var s := IcapProcess(Receive(b, pieces[0]));
      AfterNone(all, pieces[1..]);
      AfterNext(received, pieces, 1);
      if s.body.mode == Chunked {
        IcapRunTracks(s.body, all, gone', pieces[1..]);
        var k := Made(IcapRun(b, pieces), pieces);
        forall i | 0 < i <= k
          ensures After(received, pieces, i) == After(all, pieces[1..], i - 1)
        {
          AfterNext(received, pieces, i);
        }
      }
    }
  }

  lemma IcapAgreesWithOneScan(leftover: string, pieces: seq<string>)
    ensures IcapAgrees(IcapRun(Body(leftover, 0, Chunked), pieces), leftover, pieces)
  {
    IcapRunTracks(Body(leftover, 0, Chunked), leftover, 0, pieces);
  }

  /** The end is seen as soon as its last byte is there. */
  lemma {:induction false} EndInPrefix(s: string, total: nat, cut: nat)
    requires !ScanFrom(s, total).more && ScanFrom(s, total).length.Some?
    requires cut <= |s| && ScanFrom(s, total).length.value <= total + cut
    ensures ScanFrom(s[..cut], total) == ScanFrom(s, total)
    decreases |s|
  {
    hide ReadLine, Find;
    LineEnds(s);
    if ReadLine(s).size == 0 {
      LineIsLocal(s, cut);
    } else {
      var h := Hop(ReadLine(s));
      var t := Drop(s, h);
      assert ScanFrom(s, total) == ScanFrom(t, total + h);
      ScanEndsInside(t, total + h);
      EndInPrefix(t, total + h, cut - h);
      LineIsLocal(s, cut);
      assert Drop(s[..cut], h) == t[..cut - h];
    }
  }

  // ----- bodies of known length ---------------------------------------------------------------

  /** The HTTP reading coroutine while it passes on a body of known length. */
  function TransferRun(b: Body, pieces: seq<string>): (r: Outcome)
    ensures |r.unread| <= |pieces|
    decreases |pieces|
  {
    if |pieces| == 0 || b.mode != Transfer then Outcome(b, "", false, pieces)
    else
      var s := HttpProcess(Receive(b, pieces[0]));
      var r := TransferRun(s.body, pieces[1..]);
      r.(emitted := s.data.value + r.emitted)
  }

  /** For every cut into reads: the client passes on exactly the first `n` bytes, as they come, and ends with what
      followed them at the first read that completes them. */
  lemma {:induction false} TransferIsExact(leftover: string, n: nat, pieces: seq<string>)
    requires |pieces| > 0
    ensures var r := TransferRun(Body(leftover, n, Transfer), pieces);
            var k := Made(r, pieces);
            var all := After(leftover, pieces, k);
            && k > 0 && r.unread == pieces[k..] && !r.refused
            && (if |all| >= n then
                  r.emitted == all[..n] && r.body == Body(all[n..], 0, NewRequest) &&
                  (k > 1 ==> |After(leftover, pieces, k - 1)| < n)
                else k == |pieces| && r.emitted == all && r.body == Body("", n - |all|, Transfer))
    decreases |pieces|
  {
    hide Join, TransferRun;
    var one := leftover + pieces[0];
    AfterNext(leftover, pieces, 1);
    AfterNone(one, pieces[1..]);
    if |one| >= n {
      LastTransfer(leftover, n, pieces);
    } else {
      NotLastTransfer(leftover, n, pieces);
      if |pieces| > 1 {
        TransferIsExact("", n - |one|, pieces[1..]);
        var k := Made(TransferRun(Body("", n - |one|, Transfer), pieces[1..]), pieces[1..]);
        AfterSplits(leftover, pieces, k + 1);
        AfterSplits(leftover, pieces, k);
      }
    }
  }

  lemma LastTransfer(leftover: string, n: nat, pieces: seq<string>)
    requires |pieces| > 0 && |leftover + pieces[0]| >= n
    ensures var one := leftover + pieces[0];
            TransferRun(Body(leftover, n, Transfer), pieces)
            == Outcome(Body(one[n..], 0, NewRequest), one[..n], false, pieces[1..])
  {
    hide TransferRun, HttpProcess;
    var one := leftover + pieces[0];
    TransferNext(Body(leftover, n, Transfer), pieces);
    OneStep(one, n);
    TransferStops(Body(one[n..], 0, NewRequest), pieces[1..]);
    assert one[..n] + "" == one[..n];
  }

  lemma NotLastTransfer(leftover: string, n: nat, pieces: seq<string>)
    requires |pieces| > 0 && |leftover + pieces[0]| < n
    ensures var one := leftover + pieces[0];
            var more := TransferRun(Body("", n - |one|, Transfer), pieces[1..]);
            && TransferRun(Body(leftover, n, Transfer), pieces) == more.(emitted := one + more.emitted)
            && (|pieces| == 1 ==> more == Outcome(Body("", n - |one|, Transfer), "", false, []))
  {
    hide TransferRun, HttpProcess;
    var one := leftover + pieces[0];
    TransferNext(Body(leftover, n, Transfer), pieces);
    OneStep(one, n);
    if |pieces| == 1 {
      assert pieces[1..] == [];
      TransferStops(Body("", n - |one|, Transfer), pieces[1..]);
    }
  }

  lemma TransferNext(b: Body, pieces: seq<string>)
    requires |pieces| > 0 && b.mode == Transfer
    ensures var s := HttpProcess(Receive(b, pieces[0]));
            && s.data.Some?
            && TransferRun(b, pieces) ==
               TransferRun(s.body, pieces[1..]).(emitted := s.data.value + TransferRun(s.body, pieces[1..]).emitted)
  {
    hide ChunkedStep;
  }

  lemma TransferStops(b: Body, pieces: seq<string>)
    requires |pieces| == 0 || b.mode != Transfer
    ensures TransferRun(b, pieces) == Outcome(b, "", false, pieces)
  {
  }

  lemma OneStep(one: string, n: nat)
    ensures HttpProcess(Body(one, n, Transfer)) ==
            if |one| >= n then Step(Some(one[..n]), Body(one[n..], 0, NewRequest))
            else Step(Some(one), Body("", n - |one|, Transfer))
  {
    hide ChunkedStep;
    assert one[|one|..] == "" && one[..|one|] == one;
  }

  lemma AfterSplits(leftover: string, pieces: seq<string>, k: nat)
    requires 0 < k <= |pieces|
    ensures After(leftover, pieces, k) == leftover + pieces[0] + After("", pieces[1..], k - 1)
  {
    AfterNext(leftover, pieces, k);
    var rest := Join(pieces[1..][..k - 1]);
    assert leftover + pieces[0] + rest == leftover + pieces[0] + ("" + rest);
  }

  // ----- when every way of cutting the stream is accepted -----------------------------------

  /** Every size line has at most six bytes before its newline. */
  ghost predicate ShortLines(s: string) {
    forall p: nat | Boundary(s, p) && p < |s| :: Find(s[p..], '\n') <= 6
  }

  /** Why a scan refuses: a complete line that is no size line, or an incomplete one that is too long. */
  lemma {:induction false} WhyRefused(s: string, total: nat) returns (p: nat)
    requires ScanFrom(s, total).length.None?
    ensures Boundary(s, p) && p < |s|
    ensures ReadLine(s[p..]).Malformed? || (ReadLine(s[p..]).Missing? && |s| - p > 6)
    decreases |s|
  {
    hide ReadLine;
    if ReadLine(s).Size? {
      var h := Hop(ReadLine(s));
      p := WhyRefused(Drop(s, h), total + h);
      assert Drop(s, h)[p..] == s[h + p..];
      p := h + p;
    } else {
      p := 0;
      assert s[0..] == s;
    }
  }

  lemma {:induction false} FindInPrefix(s: string, cut: nat, c: char)
    requires Find(s, c) < cut <= |s|
    ensures Find(s[..cut], c) == Find(s, c)
  {
    if s[0] != c {
      assert s[..cut][1..] == s[1..][..cut - 1];
      FindInPrefix(s[1..], cut - 1, c);
    }
  }

  /** A complete line is read from the bytes up to its newline. */
  lemma LineIsLocal(s: string, cut: nat)
    requires Find(s, '\n') < cut <= |s|
    ensures ReadLine(s[..cut]) == ReadLine(s)
  {
    hide ReadLine, Find;
    FindInPrefix(s, cut, '\n');
    LineEnds(s);
    LineEnds(s[..cut]);
    assert s[..cut] + s[cut..] == s;
    ReadLineGrows(s[..cut], s[cut..]);
  }

  /** A size line that starts inside a prefix starts there in the prefix too. */
  lemma {:induction false} BoundaryInPrefix(s: string, p: nat, cut: nat)
    requires Boundary(s, p) && p <= cut <= |s|
    ensures Boundary(s[..cut], p)
    decreases p
  {
    hide ReadLine, Find;
    if p == 0 {
    } else {
      var h := Hop(ReadLine(s));
      LineEnds(s);
      LineIsLocal(s, cut);
      assert Drop(s[..cut], h) == s[h..][..cut - h];
      BoundaryInPrefix(s[h..], p - h, cut - h);
    }
  }

  /** A scan that will see the end refuses no prefix of the stream when all its lines are short. */
  lemma PrefixAccepted(s: string, cut: nat)
    requires !ScanAll(s).more && ShortLines(s) && cut <= |s|
    ensures ScanAll(s[..cut]).length.Some?
  {
    hide ReadLine, Find, ScanFrom, Boundary;
    if ScanAll(s[..cut]).length.None? {
      var p := WhyRefused(s[..cut], 0);
      assert s[..cut] + s[cut..] == s;
      BoundaryGrows(s[..cut], s[cut..], p);
      assert s[..cut][p..] == s[p..][..cut - p];
      RefusedLine(s[p..], cut - p);
      ScanResumes(s, p);
    }
  }

  /** A prefix whose first line is refused: so is the whole, or the line is long. */
  lemma RefusedLine(s: string, cut: nat)
    requires 0 < cut <= |s|
    requires ReadLine(s[..cut]).Malformed? || (ReadLine(s[..cut]).Missing? && cut > MAX_PARTIAL)
    ensures ScanAll(s).more || Find(s, '\n') > MAX_PARTIAL
  {
    hide Find, ReadLine;
    LineEnds(s);
    LineEnds(s[..cut]);
    if ReadLine(s[..cut]).Malformed? {
      assert s[..cut] + s[cut..] == s;
      ReadLineGrows(s[..cut], s[cut..]);
    } else {
      if Find(s, '\n') < cut {
        LineIsLocal(s, cut);
      }
    }
  }

  /** Stopping seven bytes into a longer size line is refused. */
  lemma LongLineRefused(s: string, p: nat)
    requires Boundary(s, p) && p < |s| && Find(s[p..], '\n') > 6
    ensures p + 7 <= |s| && ScanAll(s[..p + 7]).length.None?
  {
    hide ReadLine, Boundary, ScanFrom, Find;
    BoundaryInPrefix(s, p, p + 7);
    ScanResumes(s[..p + 7], p);
    var rest := s[..p + 7][p..];
    assert rest == s[p..][..7];
    LongPartialIsRefused(rest);
  }

  lemma LongPartialIsRefused(rest: string)
    requires |rest| > 6 && forall i | 0 <= i < |rest| :: rest[i] != '\n'
    ensures ScanAll(rest).length.None?
  {
    hide ReadLine;
    LineEnds(rest);
  }

  /** For a body that one scan accepts: the HTTP client accepts it however it is cut into reads exactly when
      no size line has more than six bytes before its newline. */
  lemma HttpAcceptsEveryCutIffShort(s: string)
    requires !ScanAll(s).more
    ensures ShortLines(s) <==>
              forall leftover: string, pieces: seq<string> | leftover + Join(pieces) == s ::
                !HttpRun(Body(leftover, 0, Chunked), pieces).refused
  {
    hide ReadLine, ScanAll, Boundary, Find, HttpRun;
    if ShortLines(s) {
      forall leftover: string, pieces: seq<string> | leftover + Join(pieces) == s
        ensures !HttpRun(Body(leftover, 0, Chunked), pieces).refused
      {
        ShortIsAccepted(s, leftover, pieces);
      }
    } else {
      var p: nat :| Boundary(s, p) && p < |s| && !(Find(s[p..], '\n') <= 6);
      LongLineRefused(s, p);
      CutIsRefused(s, p + 7);
    }
  }

  lemma ShortIsAccepted(s: string, leftover: string, pieces: seq<string>)
    requires !ScanAll(s).more && ShortLines(s) && leftover + Join(pieces) == s
    ensures !HttpRun(Body(leftover, 0, Chunked), pieces).refused
  {
    hide ReadLine, ScanAll, Boundary, Find, HttpRun;
    HttpAgreesWithOneScan(leftover, pieces);
    var r := HttpRun(Body(leftover, 0, Chunked), pieces);
    if r.refused {
      var k := Made(r, pieces);
      JoinSplits(pieces, k);
      var all := After(leftover, pieces, k);
      assert all + Join(pieces[k..]) == s;
      assert s[..|all|] == all;
      PrefixAccepted(s, |all|);
    }
  }

  lemma {:induction false} JoinSplits(pieces: seq<string>, k: nat)
    requires k <= |pieces|
    ensures Join(pieces) == Join(pieces[..k]) + Join(pieces[k..])
  {
    if k > 0 {
      JoinSplits(pieces[1..], k - 1);
      assert pieces[..k][1..] == pieces[1..][..k - 1];
      assert pieces[1..][k - 1..] == pieces[k..];
    } else {
      assert pieces[0..] == pieces;
    }
  }

  lemma CutIsRefused(s: string, cut: nat)
    requires cut <= |s| && ScanAll(s[..cut]).length.None?
    ensures "" + Join([s[..cut], s[cut..]]) == s
    ensures HttpRun(Body("", 0, Chunked), [s[..cut], s[cut..]]).refused
  {
    hide ReadLine, ScanAll, ChunkedStep, HttpRun, Join;
    JoinTwo(s[..cut], s[cut..]);
    var gone' := ChunkedStepTracks(Body("", 0, Chunked), "", 0, s[..cut], EndChunk);
    assert "" + s[..cut] == s[..cut];
    RefusedAtOnce(Body("", 0, Chunked), [s[..cut], s[cut..]]);
  }

  lemma RefusedAtOnce(b: Body, pieces: seq<string>)
    requires b.mode == Chunked && |pieces| > 0 && HttpProcess(Receive(b, pieces[0])).data.None?
    ensures HttpRun(b, pieces).refused
  {
    hide HttpProcess;
  }

  lemma JoinTwo(a: string, b: string)
    ensures Join([a, b]) == a + b
  {
    assert [a, b][1..] == [b];
    assert [b][1..] == [];
    assert Join([b]) == b;
  }

  // ----- the grammar ------------------------------------------------------------------------

  function LowerDigit(d: nat): char
    requires d < 16
  {
    "0123456789abcdef"[d]
  }

  function UpperDigit(d: nat): char
    requires d < 16
  {
    "0123456789ABCDEF"[d]
  }

  /** How a sender writes a number: least significant digit last, in either case, with any leading zeros. */
  predicate Writes(digits: string, n: nat) {
    if digits == "" then n == 0
    else
      var last := digits[|digits| - 1];
      (last == LowerDigit(n % 16) || last == UpperDigit(n % 16)) && Writes(digits[..|digits| - 1], n / 16)
  }

  predicate Numeral(digits: string, n: nat) {
    digits != "" && Writes(digits, n)
  }

  /** The shortest numeral, in lower case. */
  function HexText(n: nat): string {
    if n < 16 then [LowerDigit(n)] else HexText(n / 16) + [LowerDigit(n % 16)]
  }

  /** Every number has a numeral. */
  lemma {:induction false} HexTextWrites(n: nat)
    ensures Numeral(HexText(n), n)
    decreases n
  {
    if n < 16 {
      assert Writes("", 0) && [LowerDigit(n)][..0] == "";
    } else {
      HexTextWrites(n / 16);
      assert HexText(n)[..|HexText(n)| - 1] == HexText(n / 16);
    }
  }

  /** A written number is read as itself. */
  lemma {:induction false} NumeralIsRead(digits: string, n: nat)
    requires Writes(digits, n)
    ensures AllHex(digits) && HexValue(digits) == n
    decreases |digits|
  {
    if digits == "" {
    } else {
      var front := digits[..|digits| - 1];
      NumeralIsRead(front, n / 16);
      assert digits == front + [digits[|digits| - 1]];
      DigitIsRead(n % 16);
    }
  }

  lemma DigitIsRead(d: nat)
    requires d < 16
    ensures IsHexDigit(LowerDigit(d)) && HexDigit(LowerDigit(d)) == d
    ensures IsHexDigit(UpperDigit(d)) && HexDigit(UpperDigit(d)) == d
  {
  }

  /** What is read is a number somebody can have written. */
  lemma {:induction false} ReadIsNumeral(digits: string)
    requires AllHex(digits)
    ensures Writes(digits, HexValue(digits))
    decreases |digits|
  {
    if digits == "" {
    } else {
      var last := digits[|digits| - 1];
      ReadIsNumeral(digits[..|digits| - 1]);
      DigitIsWritten(last);
      hide HexDigit, LowerDigit, UpperDigit;
      LastDigit(HexValue(digits[..|digits| - 1]), HexDigit(last));
    }
  }

  lemma LastDigit(n: nat, d: nat)
    requires d < 16
    ensures (16 * n + d) % 16 == d && (16 * n + d) / 16 == n
  {
  }

  lemma DigitIsWritten(c: char)
    requires IsHexDigit(c)
    ensures HexDigit(c) < 16 && (c == LowerDigit(HexDigit(c)) || c == UpperDigit(HexDigit(c)))
  {
  }

  /** A chunk as a sender writes it (section 4.1 of RFC 7230): hexadecimal size, extensions, end of line,
      payload, end of line; the code also accepts bare newlines, used consistently within a chunk. */
  datatype Chunk = Chunk(digits: string, extension: string, crlf: bool, payload: string)

  function Eol(crlf: bool): string {
    if crlf then "\r\n" else "\n"
  }

  function EncodeLine(c: Chunk): string {
    c.digits + c.extension + Eol(c.crlf)
  }

  function EncodeChunk(c: Chunk): string {
    EncodeLine(c) + c.payload + Eol(c.crlf)
  }

  function EncodeChunks(chunks: seq<Chunk>): string {
    if |chunks| == 0 then "" else EncodeChunk(chunks[0]) + EncodeChunks(chunks[1..])
  }

  function Encode(chunks: seq<Chunk>, last: Chunk): string {
    EncodeChunks(chunks) + EncodeLine(last)
  }

  /** The extension starts with a semicolon, holds no newline, and does not make a bare newline look like a carriage
      return and newline. */
  predicate GoodExtension(c: Chunk) {
    && (c.extension != "" ==> c.extension[0] == ';')
    && (forall i | 0 <= i < |c.extension| :: c.extension[i] != '\n')
    && (!c.crlf && c.extension != "" ==> c.extension[|c.extension| - 1] != '\r')
  }

  /** The line announces `n` bytes. */
  predicate GoodLine(c: Chunk, n: nat) {
    Numeral(c.digits, n) && GoodExtension(c)
  }

  predicate WellFormed(c: Chunk) {
    GoodLine(c, |c.payload|) && 0 < |c.payload|
  }

  /** The code refuses longer chunks. */
  predicate GoodChunk(c: Chunk) {
    WellFormed(c) && |c.payload| <= 0x100000
  }

  predicate GoodLast(c: Chunk) {
    GoodLine(c, 0)
  }

  lemma {:induction false} FindSkips(a: string, b: string, c: char)
    requires forall i | 0 <= i < |a| :: a[i] != c
    ensures Find(a + b, c) == |a| + Find(b, c)
  {
    if |a| > 0 {
      assert (a + b)[1..] == a[1..] + b;
      FindSkips(a[1..], b, c);
    } else {
      assert a + b == b;
    }
  }

  /** The reader finds in a written size line what the sender put there, unless it announces too much. */
  lemma ReadsWrittenLine(c: Chunk, n: nat, rest: string)
    requires GoodLine(c, n)
    ensures ReadLine(EncodeLine(c) + rest) ==
            if n > 0x100000 then Malformed else Size(n, |EncodeLine(c)|, |Eol(c.crlf)|)
  {
    hide ReadLine, GoodExtension, HexValue, Writes, EncodeLine;
    NumeralIsRead(c.digits, n);
    HexLineIsRead(c, rest);
  }

  lemma HexLineIsRead(c: Chunk, rest: string)
    requires IsHex(c.digits) && GoodExtension(c)
    ensures ReadLine(EncodeLine(c) + rest) ==
            if HexValue(c.digits) > 0x100000 then Malformed
            else Size(HexValue(c.digits), |EncodeLine(c)|, |Eol(c.crlf)|)
  {
    hide HexValue, Find, EncodeLine, GoodExtension, AllHex;
    NewlineOfLine(c, rest);
    TextOfLine(c, rest);
    SizeOfText(c);
  }

  /** Without its end, the line is the text the sender wrote. */
  lemma TextOfLine(c: Chunk, rest: string)
    requires IsHex(c.digits) && GoodExtension(c)
    ensures var s := EncodeLine(c) + rest;
            var k := |EncodeLine(c)| - 1;
            && k > 0 && (s[k - 1] == '\r' <==> c.crlf)
            && (if c.crlf then s[..k - 1] else s[..k]) == c.digits + c.extension
  {
    var text := c.digits + c.extension;
    var s := EncodeLine(c) + rest;
    assert s[..|text|] == text;
    assert !c.crlf ==> s[|text| - 1] == text[|text| - 1];
  }

  /** And nothing else is a size line: a complete line that is not refused is one that some sender wrote. */
  lemma ReadLineIsWritten(line: string, rest: string) returns (c: Chunk, n: nat)
    requires '\n' !in line
    requires ReadLine(line + "\n" + rest) != Malformed
    ensures GoodLine(c, n) && n <= 0x100000 && EncodeLine(c) == line + "\n"
  {
    hide ReadLine, HexValue, Writes, EncodeLine, GoodExtension, Split;
    c := Split(line);
    DigitsOfLine(line, rest);
    n := HexValue(c.digits);
    ReadIsNumeral(c.digits);
    SplitIsEncoded(line);
    SplitIsGood(line);
  }

  /** The parts of a line, as a sender would have written them. */
  function Split(line: string): Chunk {
    var crlf := line != "" && line[|line| - 1] == '\r';
    var text := if crlf then line[..|line| - 1] else line;
    var m := Find(text, ';');
    Chunk(text[..m], text[m..], crlf, "")
  }

  lemma DigitsOfLine(line: string, rest: string)
    requires '\n' !in line && ReadLine(line + "\n" + rest) != Malformed
    ensures IsHex(Split(line).digits) && HexValue(Split(line).digits) <= 0x100000
  {
    hide HexValue, Find, IsHex;
    var s := line + "\n" + rest;
    assert s == line + ("\n" + rest);
    FindSkips(line, "\n" + rest, '\n');
    FindFirst("\n" + rest, '\n');
    var k := |line|;
    assert s[..k] == line;
    if k > 0 {
      assert s[k - 1] == line[k - 1] && s[..k - 1] == line[..k - 1];
    }
  }

  lemma SplitIsEncoded(line: string)
    ensures EncodeLine(Split(line)) == line + "\n"
  {
    hide Find;
    var c := Split(line);
    if c.crlf {
      assert line == line[..|line| - 1] + "\r";
      assert c.digits + c.extension == line[..|line| - 1];
    } else {
      assert c.digits + c.extension == line;
    }
  }

  lemma SplitIsGood(line: string)
    requires '\n' !in line
    ensures GoodExtension(Split(line))
  {
    hide Find;
  }

  lemma SizeOfText(c: Chunk)
    requires IsHex(c.digits) && GoodExtension(c)
    ensures var text := c.digits + c.extension; text[..Find(text, ';')] == c.digits
  {
    hide HexValue, Find;
    FindSkips(c.digits, c.extension, ';');
    FindFirst(c.extension, ';');
  }

  lemma FindFirst(s: string, c: char)
    requires s == "" || s[0] == c
    ensures Find(s, c) == 0
  {
  }

  lemma NewlineOfLine(c: Chunk, rest: string)
    requires IsHex(c.digits) && GoodExtension(c)
    ensures Find(EncodeLine(c) + rest, '\n') == |EncodeLine(c)| - 1
  {
    hide Find;
    var before := c.digits + c.extension + (if c.crlf then "\r" else "");
    assert EncodeLine(c) + rest == before + ("\n" + rest);
    FindFirst("\n" + rest, '\n');
    FindSkips(before, "\n" + rest, '\n');
  }

  lemma ScanSkipsChunk(c: Chunk, tail: string, total: nat)
    requires GoodChunk(c)
    ensures ScanFrom(EncodeChunk(c) + tail, total) == ScanFrom(tail, total + |EncodeChunk(c)|)
  {
    hide ReadLine, GoodLine;
    var head := EncodeChunk(c);
    assert head + tail == EncodeLine(c) + (c.payload + Eol(c.crlf) + tail);
    ReadsWrittenLine(c, |c.payload|, c.payload + Eol(c.crlf) + tail);
    assert Hop(ReadLine(head + tail)) == |head|;
    assert Drop(head + tail, |head|) == tail;
  }

  lemma ScanStopsAtLast(last: Chunk, rest: string, total: nat)
    requires GoodLast(last)
    ensures ScanFrom(EncodeLine(last) + rest, total) == Scan(false, Some(total + |EncodeLine(last)|))
  {
    hide ReadLine, GoodLine;
    ReadsWrittenLine(last, 0, rest);
  }

  lemma LongChunkIsRefused(c: Chunk, rest: string, total: nat)
    requires WellFormed(c) && |c.payload| > 0x100000
    ensures ScanFrom(EncodeLine(c) + rest, total) == Scan(true, None)
  {
    hide ReadLine, Find, GoodLine;
    ReadsWrittenLine(c, |c.payload|, rest);
  }

  /** One scan of any well-formed body, whatever its chunks hold and whatever follows it: it ends exactly at the
      end of the body if no chunk is longer than 0x100000 bytes, and refuses it otherwise. */
  lemma {:induction false} ScanFindsEndIff(chunks: seq<Chunk>, last: Chunk, rest: string, total: nat)
    requires GoodLast(last) && forall c | c in chunks :: WellFormed(c)
    ensures ScanFrom(Encode(chunks, last) + rest, total) ==
            if forall c | c in chunks :: GoodChunk(c)
            then Scan(false, Some(total + |Encode(chunks, last)|)) else Scan(true, None)
    decreases |chunks|
  {
    hide ReadLine, WellFormed, GoodLast, ScanFrom, EncodeChunk, EncodeLine, Eol;
    if |chunks| == 0 {
      assert Encode(chunks, last) == EncodeLine(last);
      ScanStopsAtLast(last, rest, total);
    } else {
      var c := chunks[0];
      assert c in chunks;
      var more := Encode(chunks[1..], last) + rest;
      assert Encode(chunks, last) + rest == EncodeChunk(c) + more;
      if GoodChunk(c) {
        ScanSkipsChunk(c, more, total);
        ScanFindsEndIff(chunks[1..], last, rest, total + |EncodeChunk(c)|);
      } else {
        LongChunkIsRefused(c, c.payload + Eol(c.crlf) + more, total);
        ChunkParts(c, more);
      }
    }
  }

  lemma ChunkParts(c: Chunk, more: string)
    ensures EncodeChunk(c) + more == EncodeLine(c) + (c.payload + Eol(c.crlf) + more)
  {
    hide EncodeLine, Eol;
  }

  lemma {:induction false} ScanSkipsChunks(chunks: seq<Chunk>, tail: string, total: nat)
    requires forall c | c in chunks :: GoodChunk(c)
    ensures ScanFrom(EncodeChunks(chunks) + tail, total) == ScanFrom(tail, total + |EncodeChunks(chunks)|)
    decreases |chunks|
  {
    hide GoodChunk, EncodeChunk, ScanFrom;
    if |chunks| == 0 {
      assert EncodeChunks(chunks) + tail == tail;
    } else {
      assert chunks[0] in chunks;
      ScanSkipsChunk(chunks[0], EncodeChunks(chunks[1..]) + tail, total);
      assert EncodeChunks(chunks) + tail == EncodeChunk(chunks[0]) + (EncodeChunks(chunks[1..]) + tail);
      ScanSkipsChunks(chunks[1..], tail, total + |EncodeChunk(chunks[0])|);
    }
  }

  /** What one scan of an unfinished body accounts for: all complete chunks; but nothing at all while a size line of at
      most six bytes is incomplete, and a longer one is refused. */
  lemma ScanOfUnfinished(chunks: seq<Chunk>, tail: string)
    requires (forall c | c in chunks :: GoodChunk(c)) && '\n' !in tail
    ensures ScanAll(EncodeChunks(chunks) + tail) ==
            if tail == "" then Scan(true, Some(|EncodeChunks(chunks)|))
            else Scan(true, if |tail| > 6 then None else Some(0))
  {
    hide ReadLine, GoodChunk, EncodeChunks;
    ScanSkipsChunks(chunks, tail, 0);
    LineEnds(tail);
  }

  /** A chunk is accounted for to its end as soon as its size line is there. */
  lemma ScanOfBegun(chunks: seq<Chunk>, c: Chunk, tail: string)
    requires (forall c | c in chunks :: GoodChunk(c)) && GoodChunk(c) && EncodeLine(c) <= tail < EncodeChunk(c)
    ensures ScanAll(EncodeChunks(chunks) + tail) == Scan(true, Some(|EncodeChunks(chunks)| + |EncodeChunk(c)|))
  {
    hide GoodChunk, EncodeChunks, EncodeChunk, ScanFrom;
    ScanSkipsChunks(chunks, tail, 0);
    ScanInChunk(c, tail, |EncodeChunks(chunks)|);
  }

  lemma ScanInChunk(c: Chunk, tail: string, total: nat)
    requires GoodChunk(c) && EncodeLine(c) <= tail < EncodeChunk(c)
    ensures ScanFrom(tail, total) == Scan(true, Some(total + |EncodeChunk(c)|))
  {
    hide ReadLine, GoodLine;
    var rest := tail[|EncodeLine(c)|..];
    assert tail == EncodeLine(c) + rest;
    ReadsWrittenLine(c, |c.payload|, rest);
  }

  lemma ScanFindsEnd(chunks: seq<Chunk>, last: Chunk, rest: string, total: nat)
    requires GoodLast(last) && forall c | c in chunks :: GoodChunk(c)
    ensures ScanFrom(Encode(chunks, last) + rest, total) ==
            Scan(false, Some(total + |Encode(chunks, last)|))
  {
    hide GoodLast, WellFormed, ScanFrom, Encode;
    ScanFindsEndIff(chunks, last, rest, total);
  }

  /** A well-formed body with a longer chunk, cut into any reads: the HTTP client refuses it, and the ICAP client,
      which ignores the refusal, never leaves chunked mode. */
  lemma LongBodyNeverEnds(chunks: seq<Chunk>, last: Chunk, rest: string, leftover: string, pieces: seq<string>)
    requires GoodLast(last) && forall c | c in chunks :: WellFormed(c)
    requires exists c :: c in chunks && |c.payload| > 0x100000
    requires leftover + Join(pieces) == Encode(chunks, last) + rest && |pieces| > 0
    ensures HttpRun(Body(leftover, 0, Chunked), pieces).refused
    ensures IcapRun(Body(leftover, 0, Chunked), pieces).body.mode == Chunked
  {
    hide ReadLine, ScanFrom, Boundary, Find, HttpRun, IcapRun, Encode, WellFormed, GoodLast;
    var s := Encode(chunks, last) + rest;
    ScanFindsEndIff(chunks, last, rest, 0);
    HttpAgreesWithOneScan(leftover, pieces);
    IcapAgreesWithOneScan(leftover, pieces);
    NoEndSeen(s, leftover, pieces, Made(HttpRun(Body(leftover, 0, Chunked), pieces), pieces));
    NoEndSeen(s, leftover, pieces, Made(IcapRun(Body(leftover, 0, Chunked), pieces), pieces));
  }

  /** No part of a stream without an end shows one. */
  lemma NoEndSeen(s: string, leftover: string, pieces: seq<string>, k: nat)
    requires ScanAll(s).more && leftover + Join(pieces) == s && k <= |pieces|
    ensures ScanAll(After(leftover, pieces, k)).more
    ensures k == |pieces| ==> After(leftover, pieces, k) == s
  {
    hide ReadLine, ScanFrom, Find;
    var all := After(leftover, pieces, k);
    JoinSplits(pieces, k);
    assert all + Join(pieces[k..]) == s;
    if k == |pieces| {
      assert pieces[..k] == pieces;
    }
    if !ScanAll(all).more {
      EndIsStable(all, Join(pieces[k..]), 0);
    }
  }

  /** A well-formed body followed by anything, cut into any reads: the ICAP client, once it leaves chunked
      mode, holds exactly what it received after the body; the HTTP client, unless it refused, has accounted
      for exactly the body, and it refuses no cut when every size line is short. */
  lemma WellFormedBody(chunks: seq<Chunk>, last: Chunk, rest: string, leftover: string, pieces: seq<string>)
    requires GoodLast(last) && forall c | c in chunks :: GoodChunk(c)
    requires leftover + Join(pieces) == Encode(chunks, last) + rest && |pieces| > 0
    ensures var n := |Encode(chunks, last)|;
            var i := IcapRun(Body(leftover, 0, Chunked), pieces);
            var k := Made(i, pieces);
            && i.body.mode == NewRequest
            && n <= |After(leftover, pieces, k)|
            && (k > 1 ==> |After(leftover, pieces, k - 1)| < n)
            && i.body.buffer == After(leftover, pieces, k)[n..]
    ensures var n := |Encode(chunks, last)|;
            var h := HttpRun(Body(leftover, 0, Chunked), pieces);
            && (!h.refused ==> h.body.mode == EndChunk && |h.emitted| + h.body.pending == n &&
                               n <= |h.emitted + h.body.buffer|)
            && (ShortLines(Encode(chunks, last) + rest) ==> !h.refused)
  {
    hide ReadLine, ScanFrom, Boundary, Find, HttpRun, IcapRun, Encode, GoodChunk;
    var s := Encode(chunks, last) + rest;
    ScanFindsEnd(chunks, last, rest, 0);
    IcapAgreesWithOneScan(leftover, pieces);
    HttpAgreesWithOneScan(leftover, pieces);
    var i := IcapRun(Body(leftover, 0, Chunked), pieces);
    var h := HttpRun(Body(leftover, 0, Chunked), pieces);
    EndSeen(s, leftover, pieces, Made(i, pieces));
    EndSeen(s, leftover, pieces, Made(h, pieces));
    if Made(i, pieces) > 1 {
      EndSeen(s, leftover, pieces, Made(i, pieces) - 1);
      assert ScanAll(After(leftover, pieces, Made(i, pieces) - 1)).more;
    }
    if ShortLines(s) {
      ShortIsAccepted(s, leftover, pieces);
    }
  }

  /** What one scan of the first reads says about the end of the whole stream. */
  lemma EndSeen(s: string, leftover: string, pieces: seq<string>, k: nat)
    requires !ScanAll(s).more && ScanAll(s).length.Some?
    requires leftover + Join(pieces) == s && k <= |pieces|
    ensures var all := After(leftover, pieces, k);
            && |all| <= |s|
            && (k == |pieces| ==> all == s)
            && (!ScanAll(all).more ==> ScanAll(all) == ScanAll(s) && ScanAll(s).length.value <= |all|)
            && (ScanAll(all).more ==> |all| < ScanAll(s).length.value)
  {
    hide ReadLine, ScanFrom, Boundary, Find;
    var all := After(leftover, pieces, k);
    JoinSplits(pieces, k);
    assert all + Join(pieces[k..]) == s;
    if k == |pieces| {
      assert pieces[..k] == pieces;
    }
    if !ScanAll(all).more {
      EndIsStable(all, Join(pieces[k..]), 0);
      ScanEndsInside(all, 0);
    } else if |all| >= ScanAll(s).length.value {
      assert s[..|all|] == all;
      EndInPrefix(s, 0, |all|);
    }
  }

  // ----- after the last chunk: what the HTTP client does not do ------------------------------

  /** What happens when the client reads on after the last chunk: the connection was closed; an exception (the
      local variable `seek` of `_endChunk` was never assigned); or some data is passed on and reading goes on. */
  datatype Ending = Disconnected | Unassigned | Goes(data: string, body: Body)

  /** One read in the mode that follows the last chunk; an empty read is the end of the connection. */
  function EndChunkRead(b: Body, bytes: string): Ending {
    if bytes == "" then Disconnected
    else
      var buffer := b.buffer + bytes;
      var rest := Drop(buffer, b.pending);
      if |rest| >= 2 && rest[..2] == "\r\n" then Goes("", Body(buffer, b.pending + 2, NewRequest))
      else if |rest| >= 1 && rest[0] == '\n' then Goes("", Body(buffer, b.pending + 1, NewRequest))
      else if rest != "" && rest != "\r" then Goes("", Body(buffer, b.pending, ExtraHeaders))
      else Unassigned
  }

  /** With the whole body received, the read fails exactly when nothing beyond the body had arrived before and a
      lone carriage return arrives now. */
  lemma EndChunkFails(b: Body, bytes: string)
    requires b.pending <= |b.buffer|
    ensures EndChunkRead(b, bytes).Unassigned? <==> b.pending == |b.buffer| && bytes == "\r"
  {
    var rest := Drop(b.buffer + bytes, b.pending);
    assert |rest| == |b.buffer| - b.pending + |bytes|;
    if |rest| == 1 {
      assert rest == [rest[0]];
      assert bytes != "" ==> rest == bytes;
    }
  }

  /** For every stream, cut and leftover with which the HTTP client leaves chunked mode: its next read fails if
      and only if the client has received the body to the byte and now gets a carriage return alone. */
  lemma EndFailsIff(leftover: string, pieces: seq<string>, bytes: string)
    requires var r := HttpRun(Body(leftover, 0, Chunked), pieces); !r.refused && r.body.mode != Chunked
    ensures var r := HttpRun(Body(leftover, 0, Chunked), pieces);
            var all := After(leftover, pieces, Made(r, pieces));
            && ScanAll(all).length.Some?
            && (EndChunkRead(r.body, bytes).Unassigned? <==> ScanAll(all).length.value == |all| && bytes == "\r")
  {
    hide ReadLine, ScanFrom, HttpRun, EndChunkRead, After;
    var r := HttpRun(Body(leftover, 0, Chunked), pieces);
    HttpAgreesWithOneScan(leftover, pieces);
    ScanEndsInside(After(leftover, pieces, Made(r, pieces)), 0);
    EndChunkFails(r.body, bytes);
  }

  /** The failure exists for every body with short lines: the body in one read, then a carriage return. */
  lemma LoneReturnFails(chunks: seq<Chunk>, last: Chunk)
    requires GoodLast(last) && (forall c | c in chunks :: GoodChunk(c)) && ShortLines(Encode(chunks, last))
    ensures var r := HttpRun(Body("", 0, Chunked), [Encode(chunks, last)]);
            !r.refused && r.body.mode == EndChunk && EndChunkRead(r.body, "\r").Unassigned?
  {
    hide ReadLine, ScanAll, Boundary, Find, HttpRun, IcapRun, Encode, GoodChunk, GoodLast, EndChunkRead, ShortLines;
    var body := Encode(chunks, last);
    var r := HttpRun(Body("", 0, Chunked), [body]);
    assert body + "" == body;
    assert Join([body]) == body && "" + body == body;
    WellFormedBody(chunks, last, "", "", [body]);
    HttpAgreesWithOneScan("", [body]);
    assert After("", [body], 1) == body by {
      assert [body][..1] == [body];
    }
    AfterNone("", [body]);
    EndChunkFails(r.body, "\r");
  }

  /** The HTTP client never passes on the end of a chunked body: when it leaves chunked mode at least two
      body bytes, the end of the zero-size line, are still in its buffer.  Whatever it reads next, it passes on
      nothing, and unless it stops they are still at the head of its buffer, which is then read as headers. */
  lemma HttpKeepsTail(chunks: seq<Chunk>, last: Chunk, rest: string, leftover: string, pieces: seq<string>,
                      bytes: string)
    requires GoodLast(last) && forall c | c in chunks :: GoodChunk(c)
    requires leftover + Join(pieces) == Encode(chunks, last) + rest && |pieces| > 0
    ensures var body := Encode(chunks, last);
            var h := HttpRun(Body(leftover, 0, Chunked), pieces);
            var next := EndChunkRead(h.body, bytes);
            !h.refused ==>
              && |h.emitted| + 2 <= |body| == |h.emitted| + h.body.pending
              && h.emitted <= body
              && body[|h.emitted|..] <= h.body.buffer
              && (next.Goes? ==> next.data == "" && next.body.mode != EndChunk && body[|h.emitted|..] <= next.body.buffer)
              && (next.Unassigned? <==> |h.body.buffer| == h.body.pending && bytes == "\r")
  {
    hide ReadLine, ScanAll, Boundary, Find, HttpRun, IcapRun, Encode, GoodChunk, GoodLast, EndChunkRead;
    WellFormedBody(chunks, last, rest, leftover, pieces);
    HttpAgreesWithOneScan(leftover, pieces);
    var h := HttpRun(Body(leftover, 0, Chunked), pieces);
    if !h.refused {
      var k := Made(h, pieces);
      JoinSplits(pieces, k);
      HeldTail(h, After(leftover, pieces, k), Join(pieces[k..]), Encode(chunks, last), rest);
      EndChunkFails(h.body, bytes);
      EndChunkGoes(h.body, bytes);
    }
  }

  lemma EndChunkGoes(b: Body, bytes: string)
    ensures var next := EndChunkRead(b, bytes);
            next.Goes? ==> next.data == "" && next.body.mode != EndChunk && next.body.buffer == b.buffer + bytes
  {
  }

  /** What the read finds after the body: the end of the chunked body is counted, and anything else is left to be
      read as headers. */
  lemma EndIsCounted(head: string, end: string, bytes: string, before: string)
    requires before + bytes == head + end && bytes != ""
    ensures var next := EndChunkRead(Body(before, |head|, EndChunk), bytes);
            && ("\r\n" <= end ==> next == Goes("", Body(head + end, |head| + 2, NewRequest)))
            && ("\n" <= end ==> next == Goes("", Body(head + end, |head| + 1, NewRequest)))
            && (end != "" && end != "\r" && !("\r\n" <= end) && !("\n" <= end) ==>
                  next == Goes("", Body(head + end, |head|, ExtraHeaders)))
  {
    assert Drop(head + end, |head|) == end;
  }

  lemma HeldTail(h: Outcome, all: string, unseen: string, body: string, rest: string)
    requires all + unseen == body + rest && h.emitted + h.body.buffer == all
    requires |h.emitted| + h.body.pending == |body| <= |all|
    ensures h.emitted <= body && body[|h.emitted|..] <= h.body.buffer
  {
    assert all[..|body|] == (all + unseen)[..|body|] == body;
    assert h.body.buffer == all[|h.emitted|..];
  }
}

/** The pipe between the processes: messages framed by their decimal length, a colon and a final comma.  The
    pickled contents of a message are any string; a pipe hands out bytes in pieces of any size. */
module Framing {
  import opened Wrappers

  // ----- decimal numbers ----------------------------------------------------------------------

  predicate IsDigit(c: char) {
    '0' <= c <= '9'
  }

  predicate AllDigits(s: string) {
    forall i | 0 <= i < |s| :: IsDigit(s[i])
  }

  function Digit(n: nat): char
    requires n < 10
  {
    '0' + n as char
  }

  function Decimal(n: nat): (s: string)
    ensures |s| > 0 && AllDigits(s)
  {
    if n < 10 then [Digit(n)] else Decimal(n / 10) + [Digit(n % 10)]
  }

  function ParseDecimal(s: string): nat
    requires AllDigits(s)
  {
    if |s| == 0 then 0 else 10 * ParseDecimal(s[..|s| - 1]) + (s[|s| - 1] as int - '0' as int)
  }

  lemma {:induction false} DecimalRoundTrip(n: nat)
    ensures ParseDecimal(Decimal(n)) == n
  {
    var s := Decimal(n);
    if n >= 10 {
      assert s[..|s| - 1] == Decimal(n / 10);
      DecimalRoundTrip(n / 10);
    } else {
      assert s[..0] == "";
    }
  }

  /** How a number is written: its last digit last, with any leading zeros. */
  predicate Writes(digits: string, n: nat) {
    if digits == "" then n == 0
    else digits[|digits| - 1] == "0123456789"[n % 10] && Writes(digits[..|digits| - 1], n / 10)
  }

  /** What is written for a number is its shortest numeral. */
  lemma {:induction false} DecimalWrites(n: nat)
    ensures Writes(Decimal(n), n) && (n > 0 ==> Decimal(n)[0] != '0')
    decreases n
  {
    var s := Decimal(n);
    DigitIs(n % 10);
    if n >= 10 {
      assert s[..|s| - 1] == Decimal(n / 10);
      DecimalWrites(n / 10);
    } else {
      assert s[..0] == "" && Writes("", 0);
    }
  }

  lemma DigitIs(d: nat)
    requires d < 10
    ensures Digit(d) == "0123456789"[d] && Digit(d) as int - '0' as int == d && (d > 0 ==> Digit(d) != '0')
  {
  }

  /** And a numeral is read as its number, which is the only one it writes. */
  lemma {:induction false} WrittenIsParsed(digits: string, n: nat)
    ensures Writes(digits, n) <==> AllDigits(digits) && ParseDecimal(digits) == n
    decreases |digits|
  {
    if digits == "" {
    } else {
      var (front, last) := (digits[..|digits| - 1], digits[|digits| - 1]);
      WrittenIsParsed(front, n / 10);
      assert digits == front + [last];
      DigitIs(n % 10);
      if AllDigits(digits) {
        LastDigit(ParseDecimal(front), last);
      }
    }
  }

  lemma LastDigit(n: nat, c: char)
    requires IsDigit(c)
    ensures var v := 10 * n + (c as int - '0' as int);
            v % 10 == c as int - '0' as int && v / 10 == n && c == "0123456789"[v % 10]
  {
  }

  // ----- frames -----------------------------------------------------------------------------

  function Frame(payload: string): string {
    Decimal(|payload|) + ":" + payload + ","
  }

  /** The digits end at the first colon, whatever the payload holds. */
  lemma ColonEndsLength(payload: string, rest: string)
    ensures var s, d := Frame(payload) + rest, Decimal(|payload|);
            && |Frame(payload)| == |d| + |payload| + 2
            && s[..|d|] == d && s[|d|] == ':' && s[|d| + 1..] == payload + "," + rest
  {
    hide Decimal, AllDigits;
    var (d, more) := (Decimal(|payload|), payload + "," + rest);
    var s := Frame(payload) + rest;
    assert s == d + ([':'] + more);
    assert s[|d|..] == [':'] + more;
  }

  /** Nothing can be read in two ways: the first frame of a stream, and what follows it, are determined. */
  lemma FrameIsUnambiguous(p: string, rest: string, p': string, rest': string)
    requires Frame(p) + rest == Frame(p') + rest'
    ensures p == p' && rest == rest'
  {
    var s, d, d' := Frame(p) + rest, Decimal(|p|), Decimal(|p'|);
    ColonEndsLength(p, rest);
    ColonEndsLength(p', rest');
    assert forall i | 0 <= i < |d| :: IsDigit(d[i]) && s[i] == s[..|d|][i];
    assert forall i | 0 <= i < |d'| :: IsDigit(d'[i]) && s[i] == s[..|d'|][i];
    assert |d| == |d'|;
    DecimalRoundTrip(|p|);
    DecimalRoundTrip(|p'|);
    var t := p + "," + rest;
    assert t[..|p|] == p && t[|p| + 1..] == rest;
    assert t[..|p'|] == p' && t[|p'| + 1..] == rest';
  }

  /** The frames of several messages. */
  function Frames(payloads: seq<string>): string {
    if |payloads| == 0 then "" else Frame(payloads[0]) + Frames(payloads[1..])
  }

  // ----- the pipe ---------------------------------------------------------------------------

  class Pipe {
    var data: string

    constructor ()
      ensures data == ""
    {
      data := "";
    }

    /** At most `n` bytes; at least one when there are any. */
    method Read(n: nat) returns (s: string)
      requires n > 0
      modifies this
      ensures old(data) == s + data && |s| <= n
      ensures |s| > 0 || old(data) == ""
    {
      if |data| == 0 {
        s := "";
      } else {
        var k :| 1 <= k <= n && k <= |data|;
        s := data[..k];
        data := data[k..];
      }
    }

    method Put(payload: string)
      modifies this
      ensures data == old(data) + Frame(payload)
    {
      data := data + Frame(payload);
    }
  }

  predicate StartsWithDigits(s: string) {
    |s| > 0 && AllDigits(s)
  }

  function FindColon(s: string): (n: nat)
    ensures n <= |s|
    ensures n < |s| ==> s[n] == ':'
    ensures forall i | 0 <= i < n :: s[i] != ':'
  {
    if |s| == 0 || s[0] == ':' then 0 else 1 + FindColon(s[1..])
  }

  function DigitCount(s: string): (n: nat)
    ensures n <= |s| && forall i | 0 <= i < n :: IsDigit(s[i])
    ensures n < |s| ==> !IsDigit(s[n])
  {
    if |s| == 0 || !IsDigit(s[0]) then 0 else 1 + DigitCount(s[1..])
  }

  /** What a stream holds that ends with the bytes `s`: a message and what follows it; something else; or the
      beginning of a message that never comes, on which the program goes on reading for ever. */
  datatype Reading = Message(payload: string, rest: string) | Garbage | Endless

  function ReadStream(s: string): Reading {
    var d := DigitCount(s);
    if d == 0 then Garbage
    else if d == |s| then Endless
    else if s[d] != ':' then Garbage
    else
      var (n, body) := (ParseDecimal(s[..d]), s[d + 1..]);
      if |body| <= n then Endless
      else if body[n] == ',' then Message(body[..n], body[n + 1..])
      else Garbage
  }

  /** A frame is read as its payload. */
  lemma FrameIsRead(payload: string, rest: string)
    ensures ReadStream(Frame(payload) + rest) == Message(payload, rest)
  {
    var s, d := Frame(payload) + rest, Decimal(|payload|);
    ColonEndsLength(payload, rest);
    DecimalRoundTrip(|payload|);
    assert forall i | 0 <= i < |d| :: IsDigit(d[i]) && s[i] == s[..|d|][i];
    DigitsEnd(s, |d|);
    var body := payload + "," + rest;
    assert body[..|payload|] == payload && body[|payload| + 1..] == rest;
  }

  lemma DigitsEnd(s: string, d: nat)
    requires d < |s| && (forall i | 0 <= i < d :: IsDigit(s[i])) && !IsDigit(s[d])
    ensures DigitCount(s) == d
  {
    hide DigitCount;
  }

  /** Nothing else is: what is read as a message is a frame, but for leading zeros in its length. */
  lemma ReadIsFrame(s: string)
    requires ReadStream(s).Message?
    ensures var r := ReadStream(s);
            exists digits :: digits != "" && Writes(digits, |r.payload|) && s == digits + ":" + r.payload + "," + r.rest
  {
    var (r, d) := (ReadStream(s), DigitCount(s));
    var body := s[d + 1..];
    assert body == r.payload + "," + r.rest;
    assert s == s[..d] + ":" + body;
    assert s[..d] + ":" + (r.payload + "," + r.rest) == s[..d] + ":" + r.payload + "," + r.rest;
    WrittenIsParsed(s[..d], |r.payload|);
  }

  /** The program waits for ever exactly on what begins a message, so that more could complete it. */
  lemma EndlessIff(s: string)
    ensures ReadStream(s).Endless? <==>
            s != "" && !ReadStream(s).Message? && exists more :: ReadStream(s + more).Message?
  {
    if ReadStream(s).Endless? {
      var _ := Completion(s);
    } else if ReadStream(s).Garbage? && s != "" {
      forall more
        ensures !ReadStream(s + more).Message?
      {
        StaysGarbage(s, more);
      }
    }
  }

  lemma Completion(s: string) returns (more: string)
    requires ReadStream(s).Endless?
    ensures ReadStream(s + more).Message?
  {
    hide ParseDecimal;
    var d := DigitCount(s);
    var n := ParseDecimal(s[..d]);
    var fill := seq(n, _ => 'x');
    if d == |s| {
      more := ":" + fill + ",";
      assert (s + more)[..d] == s && s[..d] == s;
      assert (s + more)[d + 1..] == fill + ",";
    } else {
      var body := s[d + 1..];
      more := fill[|body|..] + ",";
      assert (s + more)[..d] == s[..d];
      assert (s + more)[d + 1..] == body + more;
    }
    DigitsEnd(s + more, d);
  }

  lemma StaysGarbage(s: string, more: string)
    requires ReadStream(s).Garbage? && s != ""
    ensures ReadStream(s + more).Garbage?
  {
    hide ParseDecimal;
    var d := DigitCount(s);
    DigitsEnd(s + more, d);
    assert (s + more)[..d] == s[..d];
    assert (s + more)[d + 1..] == s[d + 1..] + more;
  }

  /** What was read so far: up to three bytes, or digits and one more byte. */
  predicate AtLength(read: string, left: string, all: string) {
    && read + left == all
    && (all != "" ==> read != "")
    && (|read| > 3 ==> AllDigits(read[..|read| - 1]))
  }

  /** Digits only: unless the stream ends here, the next byte is there. */
  lemma DigitsAreShort(read: string, left: string, all: string)
    requires AtLength(read, left, all) && StartsWithDigits(read) && !ReadStream(all).Endless?
    ensures |left| > 0
  {
    assert left == "" ==> all == read;
    assert forall i | 0 <= i < |read| :: IsDigit(read[i]) && read[i] == all[i];
  }

  /** Otherwise the length is complete: the digits end inside what was read, and at most one byte of what follows
      the colon was read. */
  lemma LengthIsComplete(read: string, left: string, all: string)
    requires AtLength(read, left, all) && !StartsWithDigits(read) && all != ""
    ensures var (d, n) := (DigitCount(all), FindColon(read));
            && d < |read| && read[..d] == all[..d] && read[d] == all[d]
            && (d > 0 ==> |read| - d - 1 <= 1)
            && (0 < n < |read| && AllDigits(read[..n]) <==> d > 0 && all[d] == ':')
            && (d > 0 && all[d] == ':' ==> n == d && read[d + 1..] + left == all[d + 1..])
  {
    hide DigitCount, FindColon;
    var (d, n) := (DigitCount(all), FindColon(read));
    assert forall i | 0 <= i < |read| :: read[i] == all[i];
    assert d < |read|;
    assert forall i | 0 <= i < |read| - 1 :: read[..|read| - 1][i] == read[i];
    assert forall i | 0 <= i < n :: read[..n][i] == read[i];
    assert forall i | 0 <= i < d :: all[i] != ':';
    assert read[d + 1..] + left == all[d + 1..];
  }

  /** `MessageReader.read`, on any stream on which it does not read for ever: a frame gives its payload and leaves
      the pipe exactly at the end of the frame, whatever the sizes of the pieces read; anything else gives no
      message. */
  method ReadMessage(pipe: Pipe) returns (message: Option<string>)
    requires !ReadStream(pipe.data).Endless?
    modifies pipe
    ensures match ReadStream(old(pipe.data))
            case Message(payload, rest) => message == Some(payload) && pipe.data == rest
            case Garbage => message == None
  {
    hide ReadStream, DigitCount, FindColon, ParseDecimal;
    ghost var all := pipe.data;
    var s := pipe.Read(3);
    while StartsWithDigits(s)
      invariant AtLength(s, pipe.data, all)
      decreases |pipe.data|
    {
      DigitsAreShort(s, pipe.data, all);
      var more := pipe.Read(1);
      assert (s + more)[..|s + more| - 1] == s;
      s := s + more;
    }
    if s == "" {
      NothingToRead();
      return None;
    }
    LengthIsComplete(s, pipe.data, all);
    var n := FindColon(s);
    if n == 0 || n == |s| || !AllDigits(s[..n]) {
      NoLength(all);
      return None;
    }
    LengthFits(all);
    var length := ParseDecimal(s[..n]);
    var pickled := ReadOn(pipe, s[n + 1..], length + 1);
    BodyIsRead(all, pickled, pipe.data);
    message := if pickled[|pickled| - 1] == ',' then Some(pickled[..|pickled| - 1]) else None;
  }

  lemma NothingToRead()
    ensures ReadStream("") == Garbage
  {
  }

  lemma NoLength(all: string)
    requires DigitCount(all) < |all| && !(DigitCount(all) > 0 && all[DigitCount(all)] == ':')
    ensures ReadStream(all) == Garbage
  {
  }

  lemma LengthFits(all: string)
    requires !ReadStream(all).Endless? && 0 < DigitCount(all) < |all| && all[DigitCount(all)] == ':'
    ensures ParseDecimal(all[..DigitCount(all)]) < |all[DigitCount(all) + 1..]|
  {
  }

  /** The loop for the payload and the comma, of `count` bytes, once `start` of them were read. */
  method ReadOn(pipe: Pipe, start: string, count: nat) returns (pickled: string)
    requires |start| <= count <= |start| + |pipe.data|
    modifies pipe
    ensures |pickled| == count && pickled + pipe.data == start + old(pipe.data)
  {
    pickled := start;
    var remaining := count - |pickled|;
    while remaining > 0
      invariant remaining == count - |pickled| >= 0
      invariant pickled + pipe.data == start + old(pipe.data)
      decreases remaining
    {
      var more := pipe.Read(remaining);
      remaining := remaining - |more|;
      pickled := pickled + more;
    }
  }

  lemma BodyIsRead(all: string, pickled: string, left: string)
    requires !ReadStream(all).Endless?
    requires var d := DigitCount(all);
             && 0 < d < |all| && all[d] == ':' && |pickled| == ParseDecimal(all[..d]) + 1
             && pickled + left == all[d + 1..]
    ensures ReadStream(all) == if pickled[|pickled| - 1] == ',' then Message(pickled[..|pickled| - 1], left) else Garbage
  {
    hide DigitCount, ParseDecimal;
    CutAfter(pickled, left);
  }

  lemma CutAfter(pickled: string, left: string)
    requires pickled != ""
    ensures var (body, n) := (pickled + left, |pickled| - 1);
            body[n] == pickled[n] && body[..n] == pickled[..n] && body[n + 1..] == left
  {
  }

  /** Any sequence of messages is read back exactly, in order. */
  method ReadMessages(pipe: Pipe, count: nat, ghost payloads: seq<string>, ghost rest: string)
    returns (messages: seq<string>)
    requires |payloads| == count && pipe.data == Frames(payloads) + rest
    modifies pipe
    ensures messages == payloads && pipe.data == rest
  {
    messages := [];
    while |messages| < count
      invariant |messages| <= count && messages == payloads[..|messages|]
      invariant pipe.data == Frames(payloads[|messages|..]) + rest
    {
      ghost var left := payloads[|messages|..];
      assert left[1..] == payloads[|messages| + 1..];
      assert pipe.data == Frame(left[0]) + (Frames(left[1..]) + rest);
      FrameIsRead(left[0], Frames(left[1..]) + rest);
      var m := ReadMessage(pipe);
      messages := messages + [m.value];
    }
    assert payloads[count..] == [];
  }
}

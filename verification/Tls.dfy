/** Finding the host name in a TLS ClientHello (section 7.4.1.2 of RFC 5246, section 3 of RFC 6066), as
    `lib/exaproxy/tls/decode.py` does it. */
module Tls {
  import opened Wrappers
  import opened ByteStrings

  const HEADER: nat := 5
  const HANDSHAKE: byte := 0x16
  const CLIENT_HELLO: byte := 0x01

  /** The parser raises an exception (an unpacking error), finds no name, or finds one. */
  datatype Parsed = Raises | NoName | Name(host: Bytes)

  // ----- the scanning loops -------------------------------------------------------------------

  /** The body of the first server_name extension without its outer length; `None` for an exception, and
      nothing when there is no such extension. */
  function ServerNameList(data: Bytes): Option<Bytes>
    decreases |data|
  {
    if |data| == 0 then Some([])
    else if |data| < 4 then None
    else
      var length := ReadU16(data[2..]);
      if ReadU16(data) == 0 then Some(Drop(Take(data, length + 4), 6))
      else ServerNameList(Drop(data, length + 4))
  }

  function FirstName(data: Bytes): Parsed
    decreases |data|
  {
    if |data| == 0 then NoName
    else if |data| < 3 then Raises
    else
      var length := ReadU16(data[1..]);
      if data[0] == 0 then Name(Drop(Take(data, length + 3), 3))
      else FirstName(Drop(data, length + 3))
  }

  /** The parser from the extensions on; reading a missing single byte finds no name, reading a missing number
      is an exception. */
  function FromExtensions(data: Bytes): Parsed {
    if |data| == 0 then NoName
    else if |data| == 1 then Raises
    else
      match ServerNameList(Take(Drop(data, 2), ReadU16(data)))
      case None => Raises
      case Some(names) => FirstName(names)
  }

  function FromCompressions(data: Bytes): Parsed {
    if |data| == 0 then NoName else FromExtensions(Drop(data, data[0] as int + 1))
  }

  function FromCiphers(data: Bytes): Parsed {
    if |data| < 2 then Raises else FromCompressions(Drop(data, ReadU16(data) + 2))
  }

  function FromSession(data: Bytes): Parsed {
    if |data| == 0 then NoName else FromCiphers(Drop(data, data[0] as int + 1))
  }

  function FromRecord(data: Bytes): Parsed {
    if |data| == 0 || data[0] != CLIENT_HELLO then NoName else FromSession(Drop(data, 38))
  }

  function Parse(data: Bytes): Parsed {
    if |data| < HEADER + 1 || data[0] != HANDSHAKE || data[1] < 3 then NoName
    else FromRecord(Take(data[5..], ReadU16(data[3..]) + HEADER))
  }

  /** `parse_hello`, on any bytes; both loops end. */
  method ParseHello(packet: Bytes) returns (r: Parsed)
    ensures r == Parse(packet)
  {
    hide Drop, Take, ReadU16, FirstName, ServerNameList;
    if |packet| < HEADER + 1 || packet[0] != HANDSHAKE || packet[1] < 3 {
      return NoName;
    }
    var data := Take(packet[5..], ReadU16(packet[3..]) + HEADER);
    if |data| == 0 || data[0] != CLIENT_HELLO {
      return NoName;
    }
    data := Drop(data, 38);
    if |data| == 0 {
      return NoName;
    }
    data := Drop(data, data[0] as int + 1);
    if |data| < 2 {
      return Raises;
    }
    data := Drop(data, ReadU16(data) + 2);
    if |data| == 0 {
      return NoName;
    }
    data := Drop(data, data[0] as int + 1);
    if |data| == 0 {
      return NoName;
    }
    if |data| == 1 {
      return Raises;
    }
    r := ScanExtensions(Take(Drop(data, 2), ReadU16(data)));
  }

  /** The two loops of `parse_hello`. */
  method ScanExtensions(extensions: Bytes) returns (r: Parsed)
    ensures var list := ServerNameList(extensions);
            r == if list.None? then Raises else FirstName(list.value)
  {
    hide Take, Drop, ReadU16, ServerNameList, FirstName;
    var data := extensions;
    ghost var list := ServerNameList(data);
    var found := false;
    while |data| > 0 && !found
      invariant if found then list == Some(data) else ServerNameList(data) == list
      decreases !found, |data|
    {
      ListStep(data);
      if |data| < 4 {
        return Raises;
      }
      var length := ReadU16(data[2..]);
      if ReadU16(data) == 0 {
        data := Drop(Take(data, length + 4), 6);
        found := true;
      } else {
        data := Drop(data, length + 4);
      }
    }
    ListStep(data);
    while |data| > 0
      invariant list.Some? && FirstName(data) == FirstName(list.value)
      decreases |data|
    {
      NameStep(data);
      if |data| < 3 {
        return Raises;
      }
      var length := ReadU16(data[1..]);
      if data[0] == 0 {
        return Name(Drop(Take(data, length + 3), 3));
      }
      data := Drop(data, length + 3);
    }
    NameStep(data);
    return NoName;
  }

  /** One turn of each loop. */
  lemma ListStep(data: Bytes)
    ensures |data| == 0 ==> ServerNameList(data) == Some([])
    ensures 0 < |data| < 4 ==> ServerNameList(data).None?
    ensures |data| >= 4 ==>
              var length := ReadU16(data[2..]);
              && |Drop(data, length + 4)| < |data|
              && ServerNameList(data) ==
                 if ReadU16(data) == 0 then Some(Drop(Take(data, length + 4), 6)) else ServerNameList(Drop(data, length + 4))
  {
    hide Take, ReadU16;
  }

  lemma NameStep(data: Bytes)
    ensures |data| == 0 ==> FirstName(data) == NoName
    ensures 0 < |data| < 3 ==> FirstName(data) == Raises
    ensures |data| >= 3 ==>
              var length := ReadU16(data[1..]);
              && |Drop(data, length + 3)| < |data|
              && FirstName(data) ==
                 if data[0] == 0 then Name(Drop(Take(data, length + 3), 3)) else FirstName(Drop(data, length + 3))
  {
    hide Take, ReadU16;
  }

  // ----- well-formed hellos -------------------------------------------------------------------

  datatype Entry = Entry(kind: byte, name: Bytes)

  datatype Extension = ServerNames(names: seq<Entry>) | Other(kind: nat, body: Bytes)

  /** `fixed` are the two bytes of the version, the 32 random bytes and the three length bytes before them.  A
      hello may end with its compression methods (section 7.4.1.2 of RFC 5246). */
  datatype Hello = Hello(major: byte, minor: byte, fixed: Bytes, session: Bytes, ciphers: Bytes, compressions: Bytes,
                         extensions: Option<seq<Extension>>)

  function EncodeEntries(es: seq<Entry>): Bytes
    requires forall e | e in es :: |e.name| < 0x10000
  {
    if |es| == 0 then [] else [es[0].kind] + U16(|es[0].name|) + es[0].name + EncodeEntries(es[1..])
  }

  predicate GoodEntries(es: seq<Entry>) {
    && (forall e | e in es :: |e.name| < 0x10000)
    && |EncodeEntries(es)| + 2 < 0x10000
  }

  predicate GoodExtension(x: Extension) {
    match x
    case ServerNames(names) => GoodEntries(names)
    case Other(kind, body) => 0 < kind < 0x10000 && |body| < 0x10000
  }

  function Kind(x: Extension): (kind: nat)
    requires GoodExtension(x)
    ensures kind < 0x10000
  {
    if x.ServerNames? then 0 else x.kind
  }

  function Body(x: Extension): (body: Bytes)
    requires GoodExtension(x)
    ensures |body| < 0x10000
  {
    match x
    case ServerNames(names) => U16(|EncodeEntries(names)|) + EncodeEntries(names)
    case Other(_, body) => body
  }

  function EncodeExtensions(xs: seq<Extension>): Bytes
    requires forall x | x in xs :: GoodExtension(x)
  {
    if |xs| == 0 then []
    else
      var x := xs[0];
      assert GoodExtension(x);
      U16(Kind(x)) + U16(|Body(x)|) + Body(x) + EncodeExtensions(xs[1..])
  }

  /** A field whose length fits one byte. */
  function Short(field: Bytes): Bytes
    requires |field| < 0x100
  {
    [|field|] + field
  }

  predicate GoodBlock(block: Option<seq<Extension>>) {
    block.Some? ==>
      && (forall x | x in block.value :: GoodExtension(x))
      && |EncodeExtensions(block.value)| < 0x10000
  }

  function EncodeBlock(block: Option<seq<Extension>>): Bytes
    requires GoodBlock(block)
  {
    if block.None? then [] else U16(|EncodeExtensions(block.value)|) + EncodeExtensions(block.value)
  }

  predicate GoodHello(h: Hello) {
    && h.major >= 3 && |h.fixed| == 37
    && |h.session| < 0x100 && |h.ciphers| < 0x10000 && |h.compressions| < 0x100
    && GoodBlock(h.extensions)
    && |EncodeHandshake(h)| < 0x10000
  }

  function EncodeHandshake(h: Hello): Bytes
    requires |h.session| < 0x100 && |h.ciphers| < 0x10000 && |h.compressions| < 0x100 && GoodBlock(h.extensions)
  {
    [0x01] + h.fixed + Short(h.session) + (U16(|h.ciphers|) + h.ciphers) + Short(h.compressions) +
    EncodeBlock(h.extensions)
  }

  function EncodeHello(h: Hello): Bytes
    requires GoodHello(h)
  {
    [0x16, h.major, h.minor] + U16(|EncodeHandshake(h)|) + EncodeHandshake(h)
  }

  /** The first entry of type host_name. */
  function FirstHost(es: seq<Entry>): Parsed {
    if |es| == 0 then NoName else if es[0].kind == 0 then Name(es[0].name) else FirstHost(es[1..])
  }

  /** What a server would see: the first host_name of the first server_name extension. */
  function FirstServerName(xs: seq<Extension>): Parsed {
    if |xs| == 0 then NoName
    else if xs[0].ServerNames? then FirstHost(xs[0].names)
    else FirstServerName(xs[1..])
  }

  function Expected(h: Hello): Parsed {
    if h.extensions.None? then NoName else FirstServerName(h.extensions.value)
  }

  lemma {:induction false} EntriesAreRead(es: seq<Entry>)
    requires forall e | e in es :: |e.name| < 0x10000
    ensures FirstName(EncodeEntries(es)) == FirstHost(es)
    decreases |es|
  {
    hide U16, ReadU16;
    if |es| == 0 {
    } else {
      var (e, rest) := (es[0], EncodeEntries(es[1..]));
      assert e in es;
      EntryIsRead(e, rest);
      EntriesAreRead(es[1..]);
    }
  }

  /** One host name entry in front of others. */
  lemma EntryIsRead(e: Entry, rest: Bytes)
    requires |e.name| < 0x10000
    ensures var data := [e.kind] + U16(|e.name|) + e.name + rest;
            && |data| >= 3 && data[0] == e.kind && ReadU16(data[1..]) == |e.name|
            && Drop(Take(data, |e.name| + 3), 3) == e.name && Drop(data, |e.name| + 3) == rest
  {
    hide U16, ReadU16;
    var data := [e.kind] + U16(|e.name|) + e.name + rest;
    U16RoundTrip(|e.name|, e.name + rest);
    assert data[1..] == U16(|e.name|) + (e.name + rest);
    assert data[..|e.name| + 3][3..] == e.name;
  }

  /** One extension in front of others. */
  lemma ExtensionIsRead(kind: nat, body: Bytes, rest: Bytes)
    requires kind < 0x10000 && |body| < 0x10000
    ensures var data := U16(kind) + U16(|body|) + body + rest;
            && |data| >= 4 && ReadU16(data) == kind && ReadU16(data[2..]) == |body|
            && Drop(Take(data, |body| + 4), 6) == Drop(body, 2) && Drop(data, |body| + 4) == rest
  {
    hide U16, ReadU16;
    var data := U16(kind) + U16(|body|) + body + rest;
    U16RoundTrip(kind, U16(|body|) + body + rest);
    U16RoundTrip(|body|, body + rest);
    assert data == U16(kind) + (U16(|body|) + body + rest);
    assert data[2..] == U16(|body|) + (body + rest);
    assert data[..|body| + 4] == U16(kind) + U16(|body|) + body;
  }

  lemma {:induction false} ExtensionsAreRead(xs: seq<Extension>)
    requires forall x | x in xs :: GoodExtension(x)
    ensures var list := ServerNameList(EncodeExtensions(xs));
            list.Some? && FirstName(list.value) == FirstServerName(xs)
    decreases |xs|
  {
    hide U16, ReadU16, FirstName, FirstHost, Drop, Take;
    if |xs| == 0 {
      NoNameInNothing();
    } else {
      var x := xs[0];
      assert GoodExtension(x);
      var rest := EncodeExtensions(xs[1..]);
      ExtensionIsRead(Kind(x), Body(x), rest);
      if x.ServerNames? {
        U16RoundTrip(|EncodeEntries(x.names)|, EncodeEntries(x.names));
        EntriesAreRead(x.names);
      } else {
        ExtensionsAreRead(xs[1..]);
      }
    }
  }

  lemma NoNameInNothing()
    ensures FirstName([]) == NoName
  {
  }

  // ----- the fixed part of a hello ------------------------------------------------------------

  lemma SessionIsSkipped(field: Bytes, rest: Bytes)
    requires |field| < 0x100
    ensures FromSession(Short(field) + rest) == FromCiphers(rest)
  {
    hide FromCiphers;
    assert Drop(Short(field) + rest, |field| + 1) == rest;
  }

  lemma CompressionsAreSkipped(field: Bytes, rest: Bytes)
    requires |field| < 0x100
    ensures FromCompressions(Short(field) + rest) == FromExtensions(rest)
  {
    hide FromExtensions;
    assert Drop(Short(field) + rest, |field| + 1) == rest;
  }

  lemma CiphersAreSkipped(field: Bytes, rest: Bytes)
    requires |field| < 0x10000
    ensures FromCiphers(U16(|field|) + field + rest) == FromCompressions(rest)
  {
    hide FromCompressions, U16, ReadU16;
    U16RoundTrip(|field|, field + rest);
    assert U16(|field|) + field + rest == U16(|field|) + (field + rest);
    assert Drop(U16(|field|) + field + rest, |field| + 2) == rest;
  }

  lemma ExtensionsAreCut(x: Bytes, trailing: Bytes)
    requires |x| < 0x10000
    ensures var list := ServerNameList(x);
            FromExtensions(U16(|x|) + x + trailing) == if list.None? then Raises else FirstName(list.value)
  {
    hide ServerNameList, FirstName, U16, ReadU16;
    U16RoundTrip(|x|, x + trailing);
    assert U16(|x|) + x + trailing == U16(|x|) + (x + trailing);
    assert Take(x + trailing, |x|) == x;
  }

  /** Reading a handshake comes down to reading what follows its compression methods. */
  lemma FixedPartIsSkipped(h: Hello, trailing: Bytes)
    requires GoodHello(h)
    ensures FromRecord(EncodeHandshake(h) + trailing) == FromExtensions(EncodeBlock(h.extensions) + trailing)
  {
    hide U16, ReadU16, EncodeBlock, GoodBlock, FromSession, FromCiphers, FromCompressions, FromExtensions, Short;
    var extensions := EncodeBlock(h.extensions) + trailing;
    var compressions := Short(h.compressions) + extensions;
    var ciphers := U16(|h.ciphers|) + h.ciphers + compressions;
    var session := Short(h.session) + ciphers;
    var record := EncodeHandshake(h) + trailing;
    assert record == [CLIENT_HELLO] + h.fixed + session;
    assert Drop(record, 38) == session;
    SessionIsSkipped(h.session, ciphers);
    CiphersAreSkipped(h.ciphers, compressions);
    CompressionsAreSkipped(h.compressions, extensions);
  }

  lemma HandshakeIsParsed(h: Hello, trailing: Bytes)
    requires GoodHello(h) && h.extensions.Some?
    ensures FromRecord(EncodeHandshake(h) + trailing) == Expected(h)
  {
    hide U16, ServerNameList, FirstName, EncodeExtensions, GoodExtension, FromRecord, EncodeHandshake, FromExtensions;
    hide FirstServerName;
    var xs := h.extensions.value;
    FixedPartIsSkipped(h, trailing);
    ExtensionsAreCut(EncodeExtensions(xs), trailing);
    ExtensionsAreRead(xs);
  }

  /** The parser cuts the packet five bytes after the end of the hello, because it counts the record header twice. */
  lemma RecordIsCutLate(h: Hello, trailing: Bytes)
    requires GoodHello(h)
    ensures Parse(EncodeHello(h) + trailing) == FromRecord(EncodeHandshake(h) + Take(trailing, 5))
  {
    hide U16, ReadU16, GoodBlock, EncodeHandshake, FromRecord;
    var shake := EncodeHandshake(h);
    var packet := EncodeHello(h) + trailing;
    U16RoundTrip(|shake|, shake + trailing);
    assert packet == [HANDSHAKE, h.major, h.minor] + (U16(|shake|) + (shake + trailing));
    assert packet[3..] == U16(|shake|) + (shake + trailing);
    assert packet[5..] == shake + trailing;
    assert Take(shake + trailing, |shake| + HEADER) == shake + Take(trailing, HEADER);
    HandshakeIsLong(h);
  }

  lemma HandshakeIsLong(h: Hello)
    requires GoodHello(h)
    ensures |EncodeHandshake(h)| >= 1
  {
    hide U16, EncodeBlock, GoodBlock;
  }

  /** Bytes after a hello that do no harm even if they are read as an extensions block: none, a bare length, or a
      length of zero. */
  predicate Harmless(trailing: Bytes) {
    |trailing| == 0 || |trailing| == 2 || (|trailing| > 2 && trailing[0] == trailing[1] == 0)
  }

  lemma TrailingAsExtensions(trailing: Bytes)
    ensures FromExtensions(Take(trailing, HEADER)) == if Harmless(trailing) then NoName else Raises
  {
    var t := Take(trailing, HEADER);
    if |t| >= 2 {
      var block := Take(Drop(t, 2), ReadU16(t));
      assert |block| < 4;
      assert |block| == 0 <==> Harmless(trailing);
      NoNameInNothing();
    }
  }

  /** For every well-formed ClientHello, with or without extensions and whatever its session, ciphers,
      compressions and extensions are, and whatever bytes follow it: the parser returns exactly the host name a
      server would see if and only if the hello has an extensions block or the bytes after it are harmless.
      Otherwise it reads those bytes as extensions and raises an exception. */
  lemma HelloIsParsedIff(h: Hello, trailing: Bytes)
    requires GoodHello(h)
    ensures var r := Parse(EncodeHello(h) + trailing);
            && (r == Expected(h) <==> h.extensions.Some? || Harmless(trailing))
            && (r != Expected(h) ==> r == Raises)
  {
    hide GoodHello, EncodeHello, EncodeHandshake, FromRecord, FromExtensions, Harmless, Take, FirstServerName;
    RecordIsCutLate(h, trailing);
    var late := Take(trailing, HEADER);
    if h.extensions.Some? {
      HandshakeIsParsed(h, late);
    } else {
      FixedPartIsSkipped(h, late);
      assert EncodeBlock(h.extensions) + late == late;
      TrailingAsExtensions(trailing);
    }
  }

  /** A packet that holds exactly one record, as `TLSClient` passes it on, is always read correctly. */
  lemma HelloAloneIsParsed(h: Hello)
    requires GoodHello(h)
    ensures Parse(EncodeHello(h)) == Expected(h)
  {
    hide GoodHello, EncodeHello, Parse;
    assert EncodeHello(h) + [] == EncodeHello(h);
    HelloIsParsedIff(h, []);
  }

  /** Anything but the first bytes of a handshake record of version 3 or later with a ClientHello in it holds no name. */
  lemma OthersHaveNoName(packet: Bytes)
    requires |packet| < 6 || packet[0] != 0x16 || packet[1] < 3 || packet[5] != 0x01
    ensures Parse(packet) == NoName
  {
    hide ReadU16;
    if |packet| >= 6 {
      assert packet[5..][0] == packet[5];
    }
  }

  /** Any hello without extensions raises when the header of another record follows it in the packet. */
  lemma NextRecordRaises(h: Hello, minor: byte, rest: Bytes)
    requires GoodHello(h) && h.extensions.None?
    ensures Parse(EncodeHello(h) + ([HANDSHAKE, 3, minor] + rest)) == Raises
  {
    hide GoodHello, EncodeHello, Parse;
    HelloIsParsedIff(h, [HANDSHAKE, 3, minor] + rest);
  }
}

/** DNS messages (section 4.1 of RFC 1035) as `lib/exaproxy/dns/codec.py` and `dnstype.py` write and read them.
    Textual IP addresses are represented by the bytes they stand for. */
module DnsCodec {
  import opened Wrappers
  import opened ByteStrings
  import opened DnsNames

  // ----- the table of record types ----------------------------------------------------------

  datatype Conversion = Ipv4 | Ipv6 | Name | Unimplemented

  /** A line of the definition file. */
  datatype Definition = Definition(name: string, value: nat, querytype: string)

  datatype Table = Table(byname: map<string, (nat, Conversion)>, byvalue: map<nat, (string, Conversion)>) {
    /** `None` where the program raises an exception. */
    function EncodeQuery(q: Query): Option<Bytes> {
      if q.kind.None? || q.kind.value !in byname then None
      else
        var name := WriteName(q.question);
        var value := byname[q.kind.value].0;
        if name.None? || value >= 0x10000 then None else Some(name.value + U16(value) + U16(1))
    }

    function EncodeResource(r: Resource): Option<Bytes> {
      if r.kind.None? || r.kind.value !in byname then None
      else
        var (value, conversion) := byname[r.kind.value];
        var name := WriteName(r.question);
        var rdata := EncodeValue(conversion, r.response);
        if name.None? || rdata.None? || value >= 0x10000 || r.ttl >= 0x1_0000_0000 || |rdata.value| >= 0x10000 then None
        else Some(name.value + U16(value) + U16(1) + U32(r.ttl) + U16(|rdata.value|) + rdata.value)
    }
  }

  function ConversionNamed(s: string): Option<Conversion> {
    if s == "ipv4" then Some(Ipv4)
    else if s == "ipv6" then Some(Ipv6)
    else if s == "string" then Some(Name)
    else if s == "unimplemented" then Some(Unimplemented)
    else None
  }

  /** The two directions of the table are inverse to each other. */
  predicate Inverse(t: Table) {
    && (forall n | n in t.byname :: t.byname[n].0 in t.byvalue && t.byvalue[t.byname[n].0] == (n, t.byname[n].1))
    && (forall v | v in t.byvalue :: t.byvalue[v].0 in t.byname && t.byname[t.byvalue[v].0] == (v, t.byvalue[v].1))
  }

  /** No two lines share a name or a value, and every conversion is known. */
  predicate Consistent(lines: seq<Definition>) {
    && (forall i, j | 0 <= i < j < |lines| :: lines[i].name != lines[j].name && lines[i].value != lines[j].value)
    && (forall i | 0 <= i < |lines| :: ConversionNamed(lines[i].querytype).Some?)
  }

  predicate Describes(t: Table, lines: seq<Definition>) {
    && (forall i | 0 <= i < |lines| ::
          var c := ConversionNamed(lines[i].querytype);
          c.Some? && lines[i].name in t.byname && t.byname[lines[i].name] == (lines[i].value, c.value))
    && (forall n | n in t.byname :: exists i :: 0 <= i < |lines| && lines[i].name == n)
  }

  predicate Built(t: Table, lines: seq<Definition>) {
    Consistent(lines) && Inverse(t) && Describes(t, lines)
  }

  function Add(t: Table, d: Definition, c: Conversion): Table {
    Table(t.byname[d.name := (d.value, c)], t.byvalue[d.value := (d.name, c)])
  }

  lemma AddKeepsInverse(t: Table, d: Definition, c: Conversion)
    requires Inverse(t) && d.name !in t.byname && d.value !in t.byvalue
    ensures Inverse(Add(t, d, c))
  {
  }

  lemma AddKeepsDescribes(t: Table, lines: seq<Definition>, d: Definition, c: Conversion)
    requires Describes(t, lines) && d.name !in t.byname && ConversionNamed(d.querytype) == Some(c)
    ensures Describes(Add(t, d, c), lines + [d])
  {
    hide ConversionNamed;
    var all := lines + [d];
    forall n | n in Add(t, d, c).byname
      ensures exists i :: 0 <= i < |all| && all[i].name == n
    {
      if n == d.name {
        assert all[|lines|].name == n;
      } else {
        var i :| 0 <= i < |lines| && lines[i].name == n;
        assert all[i].name == n;
      }
    }
  }

  lemma AddKeepsConsistent(t: Table, lines: seq<Definition>, d: Definition)
    requires Built(t, lines) && d.name !in t.byname && d.value !in t.byvalue && ConversionNamed(d.querytype).Some?
    ensures Consistent(lines + [d])
  {
    hide ConversionNamed;
    forall i | 0 <= i < |lines|
      ensures lines[i].name != d.name && lines[i].value != d.value
    {
      assert lines[i].name in t.byname;
    }
  }

  /** A name or value already in the table was on an earlier line. */
  lemma SeenBefore(t: Table, lines: seq<Definition>, d: Definition) returns (k: nat)
    requires Built(t, lines) && (d.name in t.byname || d.value in t.byvalue)
    ensures k < |lines| && (lines[k].name == d.name || lines[k].value == d.value)
  {
    hide ConversionNamed;
    var n := if d.name in t.byname then d.name else t.byvalue[d.value].0;
    assert n in t.byname;
    k :| 0 <= k < |lines| && lines[k].name == n;
    assert t.byname[lines[k].name] == (lines[k].value, ConversionNamed(lines[k].querytype).value);
  }

  /** `parseConfiguration`: a corrupt definition file is an exception; otherwise the table holds exactly the
      lines of the file, and can be used in both directions. */
  method ParseConfiguration(lines: seq<Definition>) returns (r: Option<Table>)
    ensures r.Some? <==> Consistent(lines)
    ensures r.Some? ==> Inverse(r.value) && Describes(r.value, lines)
  {
    hide ConversionNamed, Inverse, Describes;
    var t := Table(map[], map[]);
    var i := 0;
    EmptyIsBuilt();
    while i < |lines|
      invariant 0 <= i <= |lines|
      invariant Built(t, lines[..i])
    {
      var d := lines[i];
      if d.name in t.byname || d.value in t.byvalue {
        ghost var k := SeenBefore(t, lines[..i], d);
        assert lines[k] == lines[..i][k];
        return None;
      }
      var c := ConversionNamed(d.querytype);
      if c.None? {
        return None;
      }
      AddKeepsInverse(t, d, c.value);
      AddKeepsDescribes(t, lines[..i], d, c.value);
      AddKeepsConsistent(t, lines[..i], d);
      assert lines[..i + 1] == lines[..i] + [d];
      t := Add(t, d, c.value);
      i := i + 1;
    }
    assert lines[..i] == lines;
    return Some(t);
  }

  lemma EmptyIsBuilt()
    ensures Built(Table(map[], map[]), [])
  {
  }

  // ----- integers ---------------------------------------------------------------------------

  function U32(n: nat): Bytes
    requires n < 0x1_0000_0000
  {
    U16(n / 0x10000) + U16(n % 0x10000)
  }

  function ReadU32(s: Bytes): nat
    requires |s| >= 4
  {
    ReadU16(s) * 0x10000 + ReadU16(s[2..])
  }

  // ----- records ----------------------------------------------------------------------------

  /** `None` as kind stands for a type the table does not know. */
  datatype Query = Query(kind: Option<string>, question: Bytes)

  datatype Value = Address(bytes: Bytes) | Hostname(name: Bytes)

  datatype Resource = Resource(kind: Option<string>, question: Bytes, response: Option<Value>, ttl: nat)

  datatype Request = Request(identifier: nat, queries: seq<Query>)

  datatype Response = Response(identifier: nat, complete: bool, queries: seq<Query>,
                               responses: seq<Resource>, authorities: seq<Resource>, additionals: seq<Resource>)

  /** What a call does: raise an exception, go round forever, or return. */
  datatype Outcome<+T> = Raised | Hangs | Done(value: T)

  function EncodeValue(c: Conversion, v: Option<Value>): Option<Bytes> {
    match (c, v)
    case (Ipv4, Some(Address(b))) => if |b| == 4 then Some(b) else None
    case (Ipv6, Some(Address(b))) => if |b| == 16 then Some(b) else None
    case (Name, Some(Hostname(n))) => WriteName(n)
    case _ => None
  }

  function DecodeValue(c: Conversion, rdata: Bytes, packet: Bytes): Outcome<Option<Value>> {
    match c
    case Ipv4 => if |rdata| == 4 then Done(Some(Address(rdata))) else Raised
    case Ipv6 => if |rdata| == 16 then Done(Some(Address(rdata))) else Raised
    case Unimplemented => Done(None)
    case Name =>
      match NameTrail(rdata, packet)
      case Exception => Raised
      case Endless => Hangs
      case TooLong => Done(None)
      case Trail(labels) => Done(Some(Hostname(Join(labels))))
  }

  // ----- writing ----------------------------------------------------------------------------

  /** The records one after the other. */
  function EncodeAll<T>(encode: T -> Option<Bytes>, records: seq<T>): Option<Bytes> {
    if |records| == 0 then Some([])
    else
      var first := encode(records[0]);
      var rest := EncodeAll(encode, records[1..]);
      if first.None? || rest.None? then None else Some(first.value + rest.value)
  }

  function EncodeRequest(t: Table, r: Request): Option<Bytes> {
    if r.identifier >= 0x10000 || |r.queries| >= 0x10000 then None
    else
      var queries := EncodeAll(t.EncodeQuery, r.queries);
      if queries.None? then None
      else Some(U16(r.identifier) + U16(256) + U16(|r.queries|) + [0, 0, 0, 0, 0, 0] + queries.value)
  }

  function EncodeResponse(t: Table, r: Response): Option<Bytes> {
    if r.identifier >= 0x10000 || |r.queries| >= 0x10000 || |r.responses| >= 0x10000 ||
       |r.authorities| >= 0x10000 || |r.additionals| >= 0x10000 then None
    else
      var queries := EncodeAll(t.EncodeQuery, r.queries);
      var resources := EncodeAll(t.EncodeResource, r.responses + r.authorities + r.additionals);
      if queries.None? || resources.None? then None
      else Some(U16(r.identifier) + U16(0x8000) + U16(|r.queries|) + U16(|r.responses|) +
                U16(|r.authorities|) + U16(|r.additionals|) + queries.value + resources.value)
  }

  /** The loop that accumulates encoded records after what was written before; an exception ends it. */
  method WriteAll<T>(encode: T -> Option<Bytes>, records: seq<T>, written: Bytes) returns (bytes: Option<Bytes>)
    ensures var all := EncodeAll(encode, records);
            bytes == if all.None? then None else Some(written + all.value)
  {
    var out, i := written, 0;
    ghost var all := EncodeAll(encode, records);
    while i < |records|
      invariant 0 <= i <= |records|
      invariant var rest := EncodeAll(encode, records[i..]);
                if all.None? then rest.None? else rest.Some? && out + rest.value == written + all.value
    {
      assert records[i..][1..] == records[i + 1..];
      var record := encode(records[i]);
      if record.None? {
        return None;
      }
      out := out + record.value;
      i := i + 1;
    }
    assert records[i..] == [] && out + [] == out;
    return Some(out);
  }

  /** `encodeRequest`. */
  method WriteRequest(t: Table, r: Request) returns (bytes: Option<Bytes>)
    ensures bytes == EncodeRequest(t, r)
  {
    hide EncodeAll, U16;
    if r.identifier >= 0x10000 || |r.queries| >= 0x10000 {
      return None;
    }
    var header := U16(r.identifier) + U16(256) + U16(|r.queries|) + [0, 0, 0, 0, 0, 0];
    bytes := WriteAll(t.EncodeQuery, r.queries, header);
  }

  /** `encodeResponse`. */
  method WriteResponse(t: Table, r: Response) returns (bytes: Option<Bytes>)
    ensures bytes == EncodeResponse(t, r)
  {
    hide EncodeAll, U16;
    if r.identifier >= 0x10000 || |r.queries| >= 0x10000 || |r.responses| >= 0x10000 ||
       |r.authorities| >= 0x10000 || |r.additionals| >= 0x10000 {
      return None;
    }
    var header := U16(r.identifier) + U16(0x8000) + U16(|r.queries|) + U16(|r.responses|) +
                  U16(|r.authorities|) + U16(|r.additionals|);
    bytes := WriteAll(t.EncodeQuery, r.queries, header);
    if bytes.Some? {
      bytes := WriteAll(t.EncodeResource, r.responses + r.authorities + r.additionals, bytes.value);
    }
  }

  // ----- reading ----------------------------------------------------------------------------

  /** A record reader refuses the data, or returns a record and its size. */
  datatype Reading<+T> = Refused | Read(record: T, size: nat)

  datatype RawQuery = RawQuery(question: Bytes, value: nat)

  datatype RawResource = RawResource(question: Bytes, value: nat, ttl: nat, rdata: Bytes)

  /** The name at the start of the data, with its size; an empty name counts as refused. */
  function ReadName(data: Bytes, packet: Bytes): Outcome<Reading<Bytes>> {
    match NameTrail(data, packet)
    case Exception => Raised
    case Endless => Hangs
    case TooLong => Done(Refused)
    case Trail(labels) =>
      var read := ReadLabels(data).read;
      if |Join(labels)| == 0 || read.None? then Done(Refused) else Done(Read(Join(labels), read.value))
  }

  /** `DNSQuery`. */
  function ReadQuery(data: Bytes, packet: Bytes): Outcome<Reading<RawQuery>> {
    match ReadName(data, packet)
    case Raised => Raised
    case Hangs => Hangs
    case Done(Refused) => Done(Refused)
    case Done(Read(name, n)) =>
      var rest := Drop(data, n);
      if |rest| < 4 then Done(Refused) else Done(Read(RawQuery(name, ReadU16(rest)), n + 4))
  }

  /** `DNSResource`; the root, written as one zero byte, is the name ".". */
  function ReadResource(data: Bytes, packet: Bytes): Outcome<Reading<RawResource>> {
    var owner: Outcome<Reading<Bytes>> :=
      if |data| > 0 && data[0] == 0 then Done(Read([DOT], 1)) else ReadName(data, packet);
    match owner
    case Raised => Raised
    case Hangs => Hangs
    case Done(Refused) => Done(Refused)
    case Done(Read(name, n)) =>
      var rest := Drop(data, n);
      if |rest| < 10 then Raised
      else
        var length := ReadU16(rest[8..]);
        if |rest| < 10 + length then Done(Refused)
        else Done(Read(RawResource(name, ReadU16(rest), ReadU32(rest[4..]), rest[10..10 + length]), n + 10 + length))
  }

  /** The records read and the data left; no records and no data once one was refused. */
  datatype Section<+T> = Section(records: Option<seq<T>>, data: Bytes)

  function DecodeRecords<T>(read: (Bytes, Bytes) -> Outcome<Reading<T>>, data: Bytes, count: nat, packet: Bytes)
    : Outcome<Section<T>>
    decreases count
  {
    if count == 0 then Done(Section(Some([]), data))
    else
      match read(data, packet)
      case Raised => Raised
      case Hangs => Hangs
      case Done(Refused) => Done(Section(None, []))
      case Done(Read(record, size)) => Prepend(record, DecodeRecords(read, Drop(data, size), count - 1, packet))
  }

  function Prepend<T>(record: T, rest: Outcome<Section<T>>): Outcome<Section<T>> {
    match rest
    case Done(Section(Some(records), data)) => Done(Section(Some([record] + records), data))
    case _ => rest
  }

  /** The loop of `_decodeRecords`. */
  method ReadRecords<T>(read: (Bytes, Bytes) -> Outcome<Reading<T>>, data: Bytes, count: nat, packet: Bytes)
    returns (r: Outcome<Section<T>>)
    ensures r == DecodeRecords(read, data, count, packet)
  {
    var rest := data;
    var records: seq<T> := [];
    var i := 0;
    PrependNone(DecodeRecords(read, data, count, packet));
    while i < count
      invariant 0 <= i <= count
      invariant DecodeRecords(read, data, count, packet) ==
                PrependAll(records, DecodeRecords(read, rest, count - i, packet))
    {
      match read(rest, packet) {
        case Raised => return Raised;
        case Hangs => return Hangs;
        case Done(Refused) => return Done(Section(None, []));
        case Done(Read(record, size)) =>
          PrependNext(records, record, DecodeRecords(read, Drop(rest, size), count - i - 1, packet));
          records := records + [record];
          rest := Drop(rest, size);
      }
      i := i + 1;
    }
    assert records + [] == records;
    return Done(Section(Some(records), rest));
  }

  function PrependAll<T>(records: seq<T>, rest: Outcome<Section<T>>): Outcome<Section<T>> {
    match rest
    case Done(Section(Some(more), data)) => Done(Section(Some(records + more), data))
    case _ => rest
  }

  lemma PrependNone<T>(rest: Outcome<Section<T>>)
    ensures PrependAll([], rest) == rest
  {
    if rest.Done? && rest.value.records.Some? {
      assert [] + rest.value.records.value == rest.value.records.value;
    }
  }

  lemma PrependNext<T>(records: seq<T>, record: T, rest: Outcome<Section<T>>)
    ensures PrependAll(records, Prepend(record, rest)) == PrependAll(records + [record], rest)
  {
    if rest.Done? && rest.value.records.Some? {
      assert records + ([record] + rest.value.records.value) == records + [record] + rest.value.records.value;
    }
  }

  function KnownQuery(t: Table, q: RawQuery): Query {
    Query(if q.value in t.byvalue then Some(t.byvalue[q.value].0) else None, q.question)
  }

  function KnownResource(t: Table, r: RawResource, packet: Bytes): Outcome<Resource> {
    if r.value !in t.byvalue then Done(Resource(None, r.question, None, r.ttl))
    else
      match DecodeValue(t.byvalue[r.value].1, r.rdata, packet)
      case Raised => Raised
      case Hangs => Hangs
      case Done(v) => Done(Resource(Some(t.byvalue[r.value].0), r.question, v, r.ttl))
  }

  function KnownQueries(t: Table, qs: seq<RawQuery>): seq<Query> {
    if |qs| == 0 then [] else [KnownQuery(t, qs[0])] + KnownQueries(t, qs[1..])
  }

  function KnownResources(t: Table, rs: seq<RawResource>, packet: Bytes): Outcome<seq<Resource>> {
    if |rs| == 0 then Done([])
    else
      match KnownResource(t, rs[0], packet)
      case Raised => Raised
      case Hangs => Hangs
      case Done(r) =>
        var rest := KnownResources(t, rs[1..], packet);
        if rest.Done? then Done([r] + rest.value) else rest
  }

  function DecodeQueries(t: Table, data: Bytes, count: nat, packet: Bytes): Outcome<Section<Query>> {
    match DecodeRecords(ReadQuery, data, count, packet)
    case Raised => Raised
    case Hangs => Hangs
    case Done(Section(None, rest)) => Done(Section(None, rest))
    case Done(Section(Some(qs), rest)) => Done(Section(Some(KnownQueries(t, qs)), rest))
  }

  function DecodeResources(t: Table, data: Bytes, count: nat, packet: Bytes): Outcome<Section<Resource>> {
    match DecodeRecords(ReadResource, data, count, packet)
    case Raised => Raised
    case Hangs => Hangs
    case Done(Section(None, rest)) => Done(Section(None, rest))
    case Done(Section(Some(rs), rest)) =>
      match KnownResources(t, rs, packet)
      case Raised => Raised
      case Hangs => Hangs
      case Done(known) => Done(Section(Some(known), rest))
  }

  /** A message that is no request, or holds no readable query, gives no request. */
  function DecodeRequest(t: Table, packet: Bytes): Outcome<Option<Request>> {
    if |packet| < 12 then Raised
    else if ReadU16(packet[2..]) / 0x8000 != 0 then Done(None)
    else
      match DecodeQueries(t, packet[12..], ReadU16(packet[4..]), packet)
      case Raised => Raised
      case Hangs => Hangs
      case Done(Section(queries, _)) =>
        if queries.None? || |queries.value| == 0 then Done(None)
        else Done(Some(Request(ReadU16(packet), queries.value)))
  }

  /** `DNSResponseType`: a truncated response, or one with an unreadable section, keeps no records. */
  function MakeResponse(identifier: nat, complete: bool, queries: Option<seq<Query>>, responses: Option<seq<Resource>>,
                        authorities: Option<seq<Resource>>, additionals: Option<seq<Resource>>): Response {
    if complete && queries.Some? && responses.Some? && authorities.Some? && additionals.Some?
    then Response(identifier, complete, queries.value, responses.value, authorities.value, additionals.value)
    else Response(identifier, complete, [], [], [], [])
  }

  function DecodeResponse(t: Table, packet: Bytes): Outcome<Response> {
    if |packet| < 12 then Raised
    else
      var flags := ReadU16(packet[2..]);
      var complete := flags / 0x200 % 2 == 0;
      if flags / 0x8000 != 1 then Done(MakeResponse(ReadU16(packet), complete, None, None, None, None))
      else
        match DecodeQueries(t, packet[12..], ReadU16(packet[4..]), packet)
        case Raised => Raised
        case Hangs => Hangs
        case Done(q) =>
          match DecodeResources(t, q.data, ReadU16(packet[6..]), packet)
          case Raised => Raised
          case Hangs => Hangs
          case Done(a) =>
            match DecodeResources(t, a.data, ReadU16(packet[8..]), packet)
            case Raised => Raised
            case Hangs => Hangs
            case Done(n) =>
              match DecodeResources(t, n.data, ReadU16(packet[10..]), packet)
              case Raised => Raised
              case Hangs => Hangs
              case Done(x) => Done(MakeResponse(ReadU16(packet), complete, q.records, a.records, n.records, x.records))
  }

  // ----- what is written is read back -------------------------------------------------------

  lemma U32RoundTrip(n: nat, rest: Bytes)
    requires n < 0x1_0000_0000
    ensures |U32(n)| == 4 && ReadU32(U32(n) + rest) == n && Drop(U32(n) + rest, 4) == rest
  {
    var high, low := U16(n / 0x10000), U16(n % 0x10000);
    assert U32(n) + rest == high + (low + rest);
    U16RoundTrip(n / 0x10000, low + rest);
    U16RoundTrip(n % 0x10000, rest);
    assert (U32(n) + rest)[2..] == low + rest;
    assert (U32(n) + rest)[4..] == rest;
  }

  predicate GoodQuery(t: Table, q: Query) {
    q.kind.Some? && q.kind.value in t.byname && t.byname[q.kind.value].0 < 0x10000 && GoodName(q.question)
  }

  function RawOf(t: Table, q: Query): RawQuery
    requires GoodQuery(t, q)
  {
    RawQuery(q.question, t.byname[q.kind.value].0)
  }

  lemma NameIsRead(name: Bytes, rest: Bytes, packet: Bytes)
    requires GoodName(name)
    ensures WriteName(name).Some? && |WriteName(name).value| > 1 && WriteName(name).value[0] != 0
    ensures ReadName(WriteName(name).value + rest, packet) == Done(Read(name, |WriteName(name).value|))
    ensures Drop(WriteName(name).value + rest, |WriteName(name).value|) == rest
  {
    hide NameTrail, ReadLabels, GoodName, WriteName, Join;
    GoodNameRead(name, rest, packet);
    var w := WriteName(name).value;
    assert (w + rest)[|w|..] == rest;
  }

  lemma QueryIsRead(t: Table, q: Query, rest: Bytes, packet: Bytes)
    requires GoodQuery(t, q)
    ensures t.EncodeQuery(q).Some?
    ensures ReadQuery(t.EncodeQuery(q).value + rest, packet) == Done(Read(RawOf(t, q), |t.EncodeQuery(q).value|))
  {
    hide ReadName, GoodName, WriteName, Drop, U16, ReadU16;
    var value := t.byname[q.kind.value].0;
    NameIsRead(q.question, U16(value) + U16(1) + rest, packet);
    var w := WriteName(q.question).value;
    assert t.EncodeQuery(q).value + rest == w + (U16(value) + U16(1) + rest);
    U16RoundTrip(value, U16(1) + rest);
    U16RoundTrip(1, rest);
    assert U16(value) + U16(1) + rest == U16(value) + (U16(1) + rest);
  }

  lemma NoRecords<T>(read: (Bytes, Bytes) -> Outcome<Reading<T>>, data: Bytes, packet: Bytes)
    ensures DecodeRecords(read, data, 0, packet) == Done(Section(Some([]), data))
  {
  }

  /** Reading the first of several records. */
  lemma FirstRecord<T>(read: (Bytes, Bytes) -> Outcome<Reading<T>>, w: Bytes, rest: Bytes, record: T, count: nat,
                       packet: Bytes)
    requires count > 0 && read(w + rest, packet) == Done(Read(record, |w|))
    ensures DecodeRecords(read, w + rest, count, packet) == Prepend(record, DecodeRecords(read, rest, count - 1, packet))
  {
    assert Drop(w + rest, |w|) == rest;
  }

  function RawsOf(t: Table, qs: seq<Query>): seq<RawQuery>
    requires forall q | q in qs :: GoodQuery(t, q)
  {
    if |qs| == 0 then [] else [RawOf(t, qs[0])] + RawsOf(t, qs[1..])
  }

  lemma {:induction false} QueriesAreRead(t: Table, qs: seq<Query>, rest: Bytes, packet: Bytes)
    requires forall q | q in qs :: GoodQuery(t, q)
    ensures EncodeAll(t.EncodeQuery, qs).Some?
    ensures DecodeRecords(ReadQuery, EncodeAll(t.EncodeQuery, qs).value + rest, |qs|, packet)
            == Done(Section(Some(RawsOf(t, qs)), rest))
    decreases |qs|
  {
    hide ReadQuery, Table.EncodeQuery, GoodQuery, RawOf, DecodeRecords;
    if |qs| == 0 {
      NoRecords(ReadQuery, rest, packet);
      assert [] + rest == rest;
    } else {
      assert qs[0] in qs;
      QueriesAreRead(t, qs[1..], rest, packet);
      var more := EncodeAll(t.EncodeQuery, qs[1..]).value;
      QueryIsRead(t, qs[0], more + rest, packet);
      var w := t.EncodeQuery(qs[0]).value;
      assert EncodeAll(t.EncodeQuery, qs).value + rest == w + (more + rest);
      FirstRecord(ReadQuery, w, more + rest, RawOf(t, qs[0]), |qs|, packet);
    }
  }

  lemma {:induction false} QueriesAreKnown(t: Table, qs: seq<Query>)
    requires Inverse(t) && forall q | q in qs :: GoodQuery(t, q)
    ensures KnownQueries(t, RawsOf(t, qs)) == qs
  {
    if |qs| == 0 {
    } else {
      assert GoodQuery(t, qs[0]);
      QueriesAreKnown(t, qs[1..]);
    }
  }

  lemma QueriesRoundTrip(t: Table, qs: seq<Query>, rest: Bytes, packet: Bytes)
    requires Inverse(t) && forall q | q in qs :: GoodQuery(t, q)
    ensures EncodeAll(t.EncodeQuery, qs).Some?
    ensures DecodeQueries(t, EncodeAll(t.EncodeQuery, qs).value + rest, |qs|, packet) == Done(Section(Some(qs), rest))
  {
    QueriesAreRead(t, qs, rest, packet);
    QueriesAreKnown(t, qs);
  }

  /** A value its conversion can write, and read back. */
  predicate GoodValue(c: Conversion, v: Option<Value>) {
    match (c, v)
    case (Ipv4, Some(Address(b))) => |b| == 4
    case (Ipv6, Some(Address(b))) => |b| == 16
    case (Name, Some(Hostname(n))) => GoodName(n)
    case _ => false
  }

  lemma ValueRoundTrip(c: Conversion, v: Option<Value>, packet: Bytes)
    requires GoodValue(c, v)
    ensures EncodeValue(c, v).Some? && DecodeValue(c, EncodeValue(c, v).value, packet) == Done(v)
  {
    if c == Name {
      GoodNameRead(v.value.name, [], packet);
      assert WriteName(v.value.name).value + [] == WriteName(v.value.name).value;
    }
  }

  predicate GoodResource(t: Table, r: Resource) {
    && r.kind.Some? && r.kind.value in t.byname && t.byname[r.kind.value].0 < 0x10000
    && GoodName(r.question)
    && GoodValue(t.byname[r.kind.value].1, r.response)
    && EncodeValue(t.byname[r.kind.value].1, r.response).Some?
    && |EncodeValue(t.byname[r.kind.value].1, r.response).value| < 0x10000
    && r.ttl < 0x1_0000_0000
  }

  function RawResourceOf(t: Table, r: Resource): RawResource
    requires GoodResource(t, r)
  {
    var (value, conversion) := t.byname[r.kind.value];
    RawResource(r.question, value, r.ttl, EncodeValue(conversion, r.response).value)
  }

  /** The fixed part of a resource, and its data. */
  function Tail(value: nat, ttl: nat, rdata: Bytes): Bytes
    requires value < 0x10000 && ttl < 0x1_0000_0000 && |rdata| < 0x10000
  {
    U16(value) + U16(1) + U32(ttl) + U16(|rdata|) + rdata
  }

  lemma TailIsRead(value: nat, ttl: nat, rdata: Bytes, rest: Bytes)
    requires value < 0x10000 && ttl < 0x1_0000_0000 && |rdata| < 0x10000
    ensures var s := Tail(value, ttl, rdata) + rest;
            && |s| >= 10 + |rdata| && |Tail(value, ttl, rdata)| == 10 + |rdata|
            && ReadU16(s) == value && ReadU32(s[4..]) == ttl && ReadU16(s[8..]) == |rdata|
            && s[10..10 + |rdata|] == rdata
  {
    hide U16, U32, ReadU16, ReadU32;
    var s := Tail(value, ttl, rdata) + rest;
    var a := U16(1) + U32(ttl) + U16(|rdata|) + rdata + rest;
    var b := U16(|rdata|) + (rdata + rest);
    U16RoundTrip(value, a);
    U16RoundTrip(1, []);
    U32RoundTrip(ttl, b);
    U16RoundTrip(|rdata|, rdata + rest);
    assert s == U16(value) + a;
    assert s[4..] == U32(ttl) + b;
    assert s[8..] == b;
    assert s[10..] == rdata + rest;
    assert s[10..10 + |rdata|] == s[10..][..|rdata|];
  }

  lemma ResourceIsRead(t: Table, r: Resource, rest: Bytes, packet: Bytes)
    requires GoodResource(t, r)
    ensures t.EncodeResource(r).Some?
    ensures ReadResource(t.EncodeResource(r).value + rest, packet)
            == Done(Read(RawResourceOf(t, r), |t.EncodeResource(r).value|))
  {
    hide ReadName, GoodName, WriteName, Drop, U16, U32, ReadU16, ReadU32, EncodeValue, GoodValue;
    var (value, conversion) := t.byname[r.kind.value];
    var rdata := EncodeValue(conversion, r.response).value;
    var tail := Tail(value, r.ttl, rdata);
    NameIsRead(r.question, tail + rest, packet);
    TailIsRead(value, r.ttl, rdata, rest);
    var w := WriteName(r.question).value;
    assert t.EncodeResource(r).value == w + tail;
    assert t.EncodeResource(r).value + rest == w + (tail + rest);
    assert (w + (tail + rest))[0] == w[0];
  }

  function RawResourcesOf(t: Table, rs: seq<Resource>): seq<RawResource>
    requires forall r | r in rs :: GoodResource(t, r)
  {
    if |rs| == 0 then [] else [RawResourceOf(t, rs[0])] + RawResourcesOf(t, rs[1..])
  }

  lemma {:induction false} ResourcesAreRead(t: Table, rs: seq<Resource>, rest: Bytes, packet: Bytes)
    requires forall r | r in rs :: GoodResource(t, r)
    ensures EncodeAll(t.EncodeResource, rs).Some?
    ensures DecodeRecords(ReadResource, EncodeAll(t.EncodeResource, rs).value + rest, |rs|, packet)
            == Done(Section(Some(RawResourcesOf(t, rs)), rest))
    decreases |rs|
  {
    hide ReadResource, Table.EncodeResource, GoodResource, RawResourceOf, DecodeRecords;
    if |rs| == 0 {
      NoRecords(ReadResource, rest, packet);
      assert [] + rest == rest;
    } else {
      assert rs[0] in rs;
      ResourcesAreRead(t, rs[1..], rest, packet);
      var more := EncodeAll(t.EncodeResource, rs[1..]).value;
      ResourceIsRead(t, rs[0], more + rest, packet);
      var w := t.EncodeResource(rs[0]).value;
      assert EncodeAll(t.EncodeResource, rs).value + rest == w + (more + rest);
      FirstRecord(ReadResource, w, more + rest, RawResourceOf(t, rs[0]), |rs|, packet);
    }
  }

  lemma {:induction false} ResourcesAreKnown(t: Table, rs: seq<Resource>, packet: Bytes)
    requires Inverse(t) && forall r | r in rs :: GoodResource(t, r)
    ensures KnownResources(t, RawResourcesOf(t, rs), packet) == Done(rs)
  {
    hide EncodeValue, DecodeValue, GoodValue;
    if |rs| == 0 {
    } else {
      assert GoodResource(t, rs[0]);
      var (value, conversion) := t.byname[rs[0].kind.value];
      assert t.byvalue[value] == (rs[0].kind.value, conversion);
      ValueRoundTrip(t.byname[rs[0].kind.value].1, rs[0].response, packet);
      assert KnownResource(t, RawResourceOf(t, rs[0]), packet) == Done(rs[0]);
      ResourcesAreKnown(t, rs[1..], packet);
      assert RawResourcesOf(t, rs)[1..] == RawResourcesOf(t, rs[1..]);
      assert [rs[0]] + rs[1..] == rs;
    }
  }

  lemma ResourcesRoundTrip(t: Table, rs: seq<Resource>, rest: Bytes, packet: Bytes)
    requires Inverse(t) && forall r | r in rs :: GoodResource(t, r)
    ensures EncodeAll(t.EncodeResource, rs).Some?
    ensures DecodeResources(t, EncodeAll(t.EncodeResource, rs).value + rest, |rs|, packet) == Done(Section(Some(rs), rest))
  {
    ResourcesAreRead(t, rs, rest, packet);
    ResourcesAreKnown(t, rs, packet);
  }

  function Header(identifier: nat, flags: nat, queries: nat, responses: nat, authorities: nat, additionals: nat): Bytes
    requires identifier < 0x10000 && flags < 0x10000 && queries < 0x10000
    requires responses < 0x10000 && authorities < 0x10000 && additionals < 0x10000
  {
    U16(identifier) + U16(flags) + U16(queries) + U16(responses) + U16(authorities) + U16(additionals)
  }

  lemma HeaderIsRead(identifier: nat, flags: nat, queries: nat, responses: nat, authorities: nat, additionals: nat,
                     rest: Bytes)
    requires identifier < 0x10000 && flags < 0x10000 && queries < 0x10000
    requires responses < 0x10000 && authorities < 0x10000 && additionals < 0x10000
    ensures var s := Header(identifier, flags, queries, responses, authorities, additionals) + rest;
            && |s| == 12 + |rest|
            && ReadU16(s) == identifier && ReadU16(s[2..]) == flags && ReadU16(s[4..]) == queries
            && ReadU16(s[6..]) == responses && ReadU16(s[8..]) == authorities && ReadU16(s[10..]) == additionals
            && s[12..] == rest
  {
    hide U16, ReadU16;
    var s := Header(identifier, flags, queries, responses, authorities, additionals) + rest;
    var f := U16(additionals) + rest;
    var e := U16(authorities) + f;
    var d := U16(responses) + e;
    var c := U16(queries) + d;
    var b := U16(flags) + c;
    assert s == U16(identifier) + b;
    hide Header;
    assert s[0..] == s;
    Peel(s, 0, identifier, b);
    Peel(s, 2, flags, c);
    Peel(s, 4, queries, d);
    Peel(s, 6, responses, e);
    Peel(s, 8, authorities, f);
    Peel(s, 10, additionals, rest);
  }

  /** Reading one 16-bit number inside a message. */
  lemma Peel(s: Bytes, k: nat, n: nat, rest: Bytes)
    requires k <= |s| && n < 0x10000 && s[k..] == U16(n) + rest
    ensures k + 2 <= |s| && ReadU16(s[k..]) == n && s[k + 2..] == rest
  {
    U16RoundTrip(n, rest);
    assert s[k..][2..] == s[k + 2..];
  }

  /** A request over known types and good names is written without an exception and read back as it was; a
      request without queries is written too, but reads back as no request. */
  lemma RequestRoundTrip(t: Table, r: Request)
    requires Inverse(t) && r.identifier < 0x10000 && |r.queries| < 0x10000
    requires forall q | q in r.queries :: GoodQuery(t, q)
    ensures EncodeRequest(t, r).Some?
    ensures DecodeRequest(t, EncodeRequest(t, r).value) == Done(if |r.queries| > 0 then Some(r) else None)
  {
    hide EncodeAll, DecodeQueries, U16, ReadU16, GoodQuery, Inverse;
    var queries := EncodeAll(t.EncodeQuery, r.queries);
    QueriesRoundTrip(t, r.queries, [], []);
    var n := |r.queries|;
    var packet := EncodeRequest(t, r).value;
    ZeroBytes();
    assert packet == Header(r.identifier, 256, n, 0, 0, 0) + queries.value;
    HeaderIsRead(r.identifier, 256, n, 0, 0, 0, queries.value);
    QueriesRoundTrip(t, r.queries, [], packet);
    assert queries.value + [] == queries.value;
  }

  lemma ZeroBytes()
    ensures [0, 0, 0, 0, 0, 0] == U16(0) + U16(0) + U16(0)
  {
  }

  predicate GoodResponse(t: Table, r: Response) {
    && r.complete && r.identifier < 0x10000
    && |r.queries| < 0x10000 && |r.responses| < 0x10000 && |r.authorities| < 0x10000 && |r.additionals| < 0x10000
    && (forall q | q in r.queries :: GoodQuery(t, q))
    && (forall x | x in r.responses + r.authorities + r.additionals :: GoodResource(t, x))
  }

  lemma {:induction false} EncodeAllAppends(t: Table, a: seq<Resource>, b: seq<Resource>)
    requires EncodeAll(t.EncodeResource, a).Some? && EncodeAll(t.EncodeResource, b).Some?
    ensures EncodeAll(t.EncodeResource, a + b) ==
            Some(EncodeAll(t.EncodeResource, a).value + EncodeAll(t.EncodeResource, b).value)
  {
    hide Table.EncodeResource;
    if |a| == 0 {
      assert a + b == b;
      assert [] + EncodeAll(t.EncodeResource, b).value == EncodeAll(t.EncodeResource, b).value;
    } else {
      assert (a + b)[1..] == a[1..] + b;
      EncodeAllAppends(t, a[1..], b);
      var first := t.EncodeResource(a[0]).value;
      var (v, w) := (EncodeAll(t.EncodeResource, a[1..]).value, EncodeAll(t.EncodeResource, b).value);
      assert first + (v + w) == first + v + w;
    }
  }

  /** The three lists of resources are written one after the other. */
  lemma ResourcesInOrder(t: Table, r: Response)
    requires GoodResponse(t, r)
    ensures var (a, b, c) := (EncodeAll(t.EncodeResource, r.responses), EncodeAll(t.EncodeResource, r.authorities),
                              EncodeAll(t.EncodeResource, r.additionals));
            && a.Some? && b.Some? && c.Some?
            && EncodeAll(t.EncodeResource, r.responses + r.authorities + r.additionals)
               == Some(a.value + b.value + c.value)
  {
    hide EncodeAll, Table.EncodeResource, GoodResource, GoodQuery;
    ResourcesAreRead(t, r.responses, [], []);
    ResourcesAreRead(t, r.authorities, [], []);
    ResourcesAreRead(t, r.additionals, [], []);
    EncodeAllAppends(t, r.responses, r.authorities);
    EncodeAllAppends(t, r.responses + r.authorities, r.additionals);
  }

  /** A complete response over known, implemented types and good names is written without an exception, and
      its identifier, its queries and its three lists of resources are read back in order. */
  lemma ResponseRoundTrip(t: Table, r: Response)
    requires Inverse(t) && GoodResponse(t, r)
    ensures EncodeResponse(t, r).Some?
    ensures DecodeResponse(t, EncodeResponse(t, r).value) == Done(r)
  {
    hide EncodeAll, DecodeQueries, DecodeResources, U16, ReadU16, GoodQuery, GoodResource, Inverse, Header;
    QueriesRoundTrip(t, r.queries, [], []);
    ResourcesInOrder(t, r);
    var packet := EncodeResponse(t, r).value;
    var q := EncodeAll(t.EncodeQuery, r.queries).value;
    var a := EncodeAll(t.EncodeResource, r.responses).value;
    var b := EncodeAll(t.EncodeResource, r.authorities).value;
    var c := EncodeAll(t.EncodeResource, r.additionals).value;
    var h := Header(r.identifier, 0x8000, |r.queries|, |r.responses|, |r.authorities|, |r.additionals|);
    PacketShape(t, r, h, q, a, b, c);
    HeaderIsRead(r.identifier, 0x8000, |r.queries|, |r.responses|, |r.authorities|, |r.additionals|, q + (a + (b + c)));
    QueriesRoundTrip(t, r.queries, a + (b + c), packet);
    ResourcesRoundTrip(t, r.responses, b + c, packet);
    ResourcesRoundTrip(t, r.authorities, c, packet);
    ResourcesRoundTrip(t, r.additionals, [], packet);
    assert c + [] == c;
  }

  lemma PacketShape(t: Table, r: Response, h: Bytes, q: Bytes, a: Bytes, b: Bytes, c: Bytes)
    requires GoodResponse(t, r)
    requires h == Header(r.identifier, 0x8000, |r.queries|, |r.responses|, |r.authorities|, |r.additionals|)
    requires EncodeAll(t.EncodeQuery, r.queries) == Some(q)
    requires EncodeAll(t.EncodeResource, r.responses + r.authorities + r.additionals) == Some(a + b + c)
    ensures EncodeResponse(t, r) == Some(h + (q + (a + (b + c))))
  {
    hide EncodeAll, U16, GoodQuery, GoodResource;
    assert h + q + (a + b + c) == h + (q + (a + (b + c)));
  }

  // ----- when decoding ends -------------------------------------------------------------------

  lemma RecordEnds(data: Bytes, packet: Bytes)
    requires PointersGoBack(packet)
    ensures !ReadQuery(data, packet).Hangs? && !ReadResource(data, packet).Hangs?
  {
    hide NameTrail, ReadLabels, Join, PointersGoBack, ReadU16, ReadU32, Drop;
    NameEnds(data, packet);
  }

  lemma {:induction false} RecordsEnd<T>(read: (Bytes, Bytes) -> Outcome<Reading<T>>, data: Bytes, count: nat,
                                         packet: Bytes)
    requires forall d: Bytes :: !read(d, packet).Hangs?
    ensures !DecodeRecords(read, data, count, packet).Hangs?
    decreases count
  {
    if count == 0 {
    } else {
      var r := read(data, packet);
      if r.Done? && r.value.Read? {
        RecordsEnd(read, Drop(data, r.value.size), count - 1, packet);
      }
    }
  }

  lemma {:induction false} ResourcesEnd(t: Table, rs: seq<RawResource>, packet: Bytes)
    requires PointersGoBack(packet)
    ensures !KnownResources(t, rs, packet).Hangs?
    decreases |rs|
  {
    hide NameTrail, Join, PointersGoBack;
    if |rs| == 0 {
    } else {
      NameEnds(rs[0].rdata, packet);
      ResourcesEnd(t, rs[1..], packet);
    }
  }

  lemma SectionEnds(t: Table, data: Bytes, count: nat, packet: Bytes)
    requires PointersGoBack(packet)
    ensures !DecodeQueries(t, data, count, packet).Hangs? && !DecodeResources(t, data, count, packet).Hangs?
  {
    hide PointersGoBack, ReadQuery, ReadResource, DecodeRecords, KnownResources, KnownQueries;
    forall d: Bytes
      ensures !ReadQuery(d, packet).Hangs? && !ReadResource(d, packet).Hangs?
    {
      RecordEnds(d, packet);
    }
    RecordsEnd(ReadQuery, data, count, packet);
    RecordsEnd(ReadResource, data, count, packet);
    var r := DecodeRecords(ReadResource, data, count, packet);
    if r.Done? && r.value.records.Some? {
      ResourcesEnd(t, r.value.records.value, packet);
    }
  }

  /** Every packet whose bare pointers point backwards is decoded, or refused by an exception, in finite time,
      whatever else it holds. */
  lemma DecodingEnds(t: Table, packet: Bytes)
    requires PointersGoBack(packet)
    ensures !DecodeRequest(t, packet).Hangs? && !DecodeResponse(t, packet).Hangs?
  {
    hide PointersGoBack, DecodeQueries, DecodeResources, ReadU16, MakeResponse;
    if |packet| >= 12 {
      SectionEnds(t, packet[12..], ReadU16(packet[4..]), packet);
      var q := DecodeQueries(t, packet[12..], ReadU16(packet[4..]), packet);
      if q.Done? {
        SectionEnds(t, q.value.data, ReadU16(packet[6..]), packet);
        var a := DecodeResources(t, q.value.data, ReadU16(packet[6..]), packet);
        if a.Done? {
          SectionEnds(t, a.value.data, ReadU16(packet[8..]), packet);
          var b := DecodeResources(t, a.value.data, ReadU16(packet[8..]), packet);
          if b.Done? {
            SectionEnds(t, b.value.data, ReadU16(packet[10..]), packet);
          }
        }
      }
    }
  }

  /** A response that is never decoded: its first question, right after the header of 12 bytes, is a pointer to
      itself.  Nothing else in it matters. */
  lemma SelfPointerHangs(t: Table, identifier: nat, queries: nat, responses: nat, authorities: nat, additionals: nat,
                         rest: Bytes)
    requires identifier < 0x10000 && 0 < queries < 0x10000
    requires responses < 0x10000 && authorities < 0x10000 && additionals < 0x10000
    ensures DecodeResponse(t, Header(identifier, 0x8000, queries, responses, authorities, additionals) +
                              ([0xc0, 12] + rest)).Hangs?
  {
    hide U16, ReadU16, ReadLabels, Header, DecodeResources, KnownQueries;
    var data := [0xc0, 12] + rest;
    var packet := Header(identifier, 0x8000, queries, responses, authorities, additionals) + data;
    HeaderIsRead(identifier, 0x8000, queries, responses, authorities, additionals, data);
    PointerIsRead(rest);
    SelfPointerIsEndless(packet, 12, 0);
    JoinNonEmpty([]);
    assert NameTrail(data, packet).Endless?;
    assert ReadQuery(data, packet).Hangs?;
  }

  lemma PointerIsRead(rest: Bytes)
    ensures ReadLabels([0xc0, 12] + rest) == Stretch(Some(2), [], Some(12))
  {
  }
}

/** DNS messages as they stand on the wire (section 4.1 of RFC 1035), described from their bytes alone: any response
    laid out so is decoded to what it says, and what the program writes is laid out so. */
module DnsWire {
  import opened Wrappers
  import opened ByteStrings
  import opened DnsNames
  import opened DnsSpelling
  import opened DnsCodec

  /** A name: its labels, through how many pointers it is spelled, and how many bytes it takes where it stands. */
  datatype Spelling = Spelling(labels: seq<Bytes>, hops: nat, size: nat)

  datatype WireQuery = WireQuery(name: Spelling, value: nat, dnsclass: nat)

  /** `target` is the name in the data, if there is one. */
  datatype WireResource = WireResource(name: Spelling, value: nat, dnsclass: nat, ttl: nat, rdata: Bytes, target: Spelling)

  // ----- where things stand -------------------------------------------------------------------

  /** The `k` bytes at `i` are the number `n` in network order. */
  predicate NumberAt(packet: Bytes, i: nat, k: nat, n: nat) {
    i + k <= |packet| && BigEndian(packet[i..i + k]) == n
  }

  predicate NameAt(packet: Bytes, i: nat, name: Spelling) {
    && i <= |packet|
    && Spells(packet, packet[i..], name.labels, name.hops)
    && Occupies(packet[i..], name.size)
    && (|Join(name.labels)| <= 500 || name.hops == 0)
  }

  predicate QueryAt(packet: Bytes, i: nat, w: WireQuery) {
    && NameAt(packet, i, w.name) && w.name.labels != []
    && NumberAt(packet, i + w.name.size, 2, w.value)
    && NumberAt(packet, i + w.name.size + 2, 2, w.dnsclass)
  }

  /** The owner of a resource may be the root, written as a zero. */
  predicate ResourceAt(packet: Bytes, i: nat, w: WireResource) {
    && NameAt(packet, i, w.name) && (w.name.labels != [] || packet[i] == 0)
    && var j := i + w.name.size;
       && NumberAt(packet, j, 2, w.value)
       && NumberAt(packet, j + 2, 2, w.dnsclass)
       && NumberAt(packet, j + 4, 4, w.ttl)
       && NumberAt(packet, j + 8, 2, |w.rdata|)
       && j + 10 + |w.rdata| <= |packet| && packet[j + 10..j + 10 + |w.rdata|] == w.rdata
  }

  function QuerySize(w: WireQuery): nat {
    w.name.size + 4
  }

  function ResourceSize(w: WireResource): nat {
    w.name.size + 10 + |w.rdata|
  }

  predicate QueriesAt(packet: Bytes, i: nat, ws: seq<WireQuery>, end: nat)
    decreases |ws|
  {
    if |ws| == 0 then i == end
    else QueryAt(packet, i, ws[0]) && QueriesAt(packet, i + QuerySize(ws[0]), ws[1..], end)
  }

  predicate ResourcesAt(packet: Bytes, i: nat, ws: seq<WireResource>, end: nat)
    decreases |ws|
  {
    if |ws| == 0 then i == end
    else ResourceAt(packet, i, ws[0]) && ResourcesAt(packet, i + ResourceSize(ws[0]), ws[1..], end)
  }

  // ----- what it says -------------------------------------------------------------------------

  function QueryMeant(t: Table, w: WireQuery): Query {
    Query(if w.value in t.byvalue then Some(t.byvalue[w.value].0) else None, Join(w.name.labels))
  }

  /** The data fits its type. */
  predicate Fits(t: Table, packet: Bytes, w: WireResource) {
    w.value in t.byvalue ==>
      match t.byvalue[w.value].1
      case Ipv4 => |w.rdata| == 4
      case Ipv6 => |w.rdata| == 16
      case Unimplemented => true
      case Name =>
        && Spells(packet, w.rdata, w.target.labels, w.target.hops)
        && (|Join(w.target.labels)| <= 500 || w.target.hops == 0)
  }

  function ValueMeant(t: Table, w: WireResource): Option<Value> {
    if w.value !in t.byvalue then None
    else match t.byvalue[w.value].1
      case Unimplemented => None
      case Name => Some(Hostname(Join(w.target.labels)))
      case _ => Some(Address(w.rdata))
  }

  function ResourceMeant(t: Table, w: WireResource): Resource {
    Resource(if w.value in t.byvalue then Some(t.byvalue[w.value].0) else None,
             if w.name.labels == [] then [DOT] else Join(w.name.labels), ValueMeant(t, w), w.ttl)
  }

  function QueriesMeant(t: Table, ws: seq<WireQuery>): seq<Query> {
    if |ws| == 0 then [] else [QueryMeant(t, ws[0])] + QueriesMeant(t, ws[1..])
  }

  function ResourcesMeant(t: Table, ws: seq<WireResource>): seq<Resource> {
    if |ws| == 0 then [] else [ResourceMeant(t, ws[0])] + ResourcesMeant(t, ws[1..])
  }

  // ----- reading ------------------------------------------------------------------------------

  lemma NumberIsRead(packet: Bytes, i: nat, n: nat)
    requires NumberAt(packet, i, 2, n)
    ensures |Drop(packet, i)| >= 2 && ReadU16(Drop(packet, i)) == n
  {
    hide BigEndian;
    ReadU16IsBigEndian(packet[i..]);
    assert packet[i..][..2] == packet[i..i + 2];
  }

  lemma LongNumberIsRead(packet: Bytes, i: nat, n: nat)
    requires NumberAt(packet, i, 4, n)
    ensures |Drop(packet, i)| >= 4 && ReadU32(Drop(packet, i)) == n
  {
    hide BigEndian, ReadU16;
    var s := packet[i..];
    FourBytes(s);
    ReadU16IsBigEndian(s);
    ReadU16IsBigEndian(s[2..]);
    assert s[..4] == packet[i..i + 4];
  }

  lemma FourBytes(s: Bytes)
    requires |s| >= 4
    ensures BigEndian(s[..4]) == BigEndian(s[..2]) * 0x10000 + BigEndian(s[2..][..2])
  {
    hide BigEndian;
    ReadU16IsBigEndian(s[2..]);
    BigEndianNext(s[..2], s[2]);
    BigEndianNext(s[..3], s[3]);
    assert s[..2] + [s[2]] == s[..3] && s[..3] + [s[3]] == s[..4];
  }

  lemma DropTwice(packet: Bytes, i: nat, n: nat)
    requires i <= |packet|
    ensures Drop(packet[i..], n) == Drop(packet, i + n)
  {
    if i + n <= |packet| {
      assert packet[i..][n..] == packet[i + n..];
    }
  }

  lemma NameIsThere(packet: Bytes, i: nat, name: Spelling)
    requires NameAt(packet, i, name)
    ensures NameTrail(packet[i..], packet) == Trail(name.labels)
    ensures ReadLabels(packet[i..]).Stretch? && ReadLabels(packet[i..]).read == Some(name.size)
    ensures Join(name.labels) == [] <==> name.labels == []
  {
    hide ReadLabels, NameTrail, Join, Spells, Occupies;
    SpelledIsRead(packet, packet[i..], name.labels, name.hops);
    SpelledHasBytes(packet, packet[i..], name.labels, name.hops);
    JoinNonEmpty(name.labels);
  }

  /** Spelled labels are not empty. */
  lemma {:induction false} SpelledHasBytes(packet: Bytes, s: Bytes, labels: seq<Bytes>, hops: nat)
    requires Spells(packet, s, labels, hops)
    ensures forall p | p in labels :: p != []
    decreases hops, |labels|
  {
    if s[0] == 0 {
    } else if s[0] / 64 == 3 {
      SpelledHasBytes(packet, packet[(s[0] as int % 64) * 256 + s[1] as int..], labels, hops - 1);
    } else {
      SpelledHasBytes(packet, s[1 + s[0]..], labels[1..], hops);
      assert forall p | p in labels :: p == labels[0] || p in labels[1..];
    }
  }

  lemma QueryIsThere(packet: Bytes, i: nat, w: WireQuery)
    requires QueryAt(packet, i, w)
    ensures ReadQuery(packet[i..], packet) == Done(Read(RawQuery(Join(w.name.labels), w.value), QuerySize(w)))
    ensures i + QuerySize(w) <= |packet|
  {
    hide ReadLabels, NameTrail, Join, NameAt, BigEndian, ReadU16;
    NameIsThere(packet, i, w.name);
    NameStarts(packet, i, w.name);
    DropTwice(packet, i, w.name.size);
    NumberIsRead(packet, i + w.name.size, w.value);
  }

  lemma NameStarts(packet: Bytes, i: nat, name: Spelling)
    requires NameAt(packet, i, name)
    ensures i <= |packet|
  {
  }

  function RawQueryOf(w: WireQuery): RawQuery {
    RawQuery(Join(w.name.labels), w.value)
  }

  function RawResourceAt(w: WireResource): RawResource {
    RawResource(if w.name.labels == [] then [DOT] else Join(w.name.labels), w.value, w.ttl, w.rdata)
  }

  /** The owner of a resource: a name, or the root. */
  lemma OwnerIsThere(packet: Bytes, i: nat, name: Spelling)
    requires NameAt(packet, i, name) && (name.labels != [] || packet[i..][0] == 0)
    ensures i <= |packet|
    ensures (if |packet[i..]| > 0 && packet[i..][0] == 0 then Done(Read([DOT], 1)) else ReadName(packet[i..], packet))
            == Done(Read(if name.labels == [] then [DOT] else Join(name.labels), name.size))
  {
    hide ReadLabels, NameTrail, Join, NameAt;
    NameIsThere(packet, i, name);
    NameHasBytes(packet, i, name);
    ZeroIsEmpty(packet, i, name);
  }

  lemma ZeroIsEmpty(packet: Bytes, i: nat, name: Spelling)
    requires NameAt(packet, i, name)
    ensures packet[i..][0] == 0 ==> name.labels == [] && name.size == 1
  {
  }

  lemma ResourceIsThere(packet: Bytes, i: nat, w: WireResource)
    requires ResourceAt(packet, i, w)
    ensures ReadResource(packet[i..], packet) == Done(Read(RawResourceAt(w), ResourceSize(w)))
    ensures i + ResourceSize(w) <= |packet|
  {
    hide ReadName, NameAt, NumberAt, ReadU16, ReadU32, Join;
    NameStarts(packet, i, w.name);
    NameHasBytes(packet, i, w.name);
    OwnerIsThere(packet, i, w.name);
    var j := i + w.name.size;
    DropTwice(packet, i, w.name.size);
    assert Drop(packet, j) == packet[j..];
    FixedPartIsRead(packet, j, w);
  }

  lemma NameHasBytes(packet: Bytes, i: nat, name: Spelling)
    requires NameAt(packet, i, name)
    ensures i < |packet| && packet[i..][0] == packet[i]
  {
  }

  /** What follows the name of a resource. */
  lemma FixedPartIsRead(packet: Bytes, j: nat, w: WireResource)
    requires NumberAt(packet, j, 2, w.value) && NumberAt(packet, j + 4, 4, w.ttl) && NumberAt(packet, j + 8, 2, |w.rdata|)
    requires j + 10 + |w.rdata| <= |packet| && packet[j + 10..j + 10 + |w.rdata|] == w.rdata
    ensures var rest := packet[j..];
            && |rest| >= 10 + |w.rdata|
            && ReadU16(rest) == w.value && ReadU32(rest[4..]) == w.ttl && ReadU16(rest[8..]) == |w.rdata|
            && rest[10..10 + |w.rdata|] == w.rdata
  {
    hide NumberAt, ReadU16, ReadU32;
    var rest := packet[j..];
    NumberIsRead(packet, j, w.value);
    LongNumberIsRead(packet, j + 4, w.ttl);
    NumberIsRead(packet, j + 8, |w.rdata|);
    assert rest[4..] == packet[j + 4..] && rest[8..] == packet[j + 8..];
  }

  lemma {:induction false} QueriesAreThere(t: Table, packet: Bytes, i: nat, ws: seq<WireQuery>, end: nat)
    requires QueriesAt(packet, i, ws, end) && i <= |packet|
    ensures end <= |packet|
    ensures DecodeQueries(t, packet[i..], |ws|, packet) == Done(Section(Some(QueriesMeant(t, ws)), packet[end..]))
    decreases |ws|
  {
    var raws := QueriesAreRead(packet, i, ws, end);
    QueriesAreMeant(t, ws, raws);
    hide DecodeRecords;
  }

  lemma {:induction false} QueriesAreRead(packet: Bytes, i: nat, ws: seq<WireQuery>, end: nat) returns (raws: seq<RawQuery>)
    requires QueriesAt(packet, i, ws, end) && i <= |packet|
    ensures end <= |packet| && |raws| == |ws| && forall k | 0 <= k < |ws| :: raws[k] == RawQueryOf(ws[k])
    ensures DecodeRecords(ReadQuery, packet[i..], |ws|, packet) == Done(Section(Some(raws), packet[end..]))
    decreases |ws|
  {
    hide ReadQuery, QueryAt, RawQueryOf, QuerySize, DecodeRecords;
    if |ws| == 0 {
      raws := [];
      NoRecords(ReadQuery, packet[i..], packet);
    } else {
      QueryIsThere(packet, i, ws[0]);
      ReadAsRaw(ws[0]);
      var next := i + QuerySize(ws[0]);
      var more := QueriesAreRead(packet, next, ws[1..], end);
      raws := [RawQueryOf(ws[0])] + more;
      assert packet[i..] == packet[i..next] + packet[next..];
      FirstRecord(ReadQuery, packet[i..next], packet[next..], RawQueryOf(ws[0]), |ws|, packet);
    }
  }

  lemma ReadAsRaw(w: WireQuery)
    ensures RawQueryOf(w) == RawQuery(Join(w.name.labels), w.value)
  {
  }

  lemma {:induction false} QueriesAreMeant(t: Table, ws: seq<WireQuery>, raws: seq<RawQuery>)
    requires |raws| == |ws| && forall k | 0 <= k < |ws| :: raws[k] == RawQueryOf(ws[k])
    ensures KnownQueries(t, raws) == QueriesMeant(t, ws)
    decreases |ws|
  {
    if |ws| == 0 {
    } else {
      QueriesAreMeant(t, ws[1..], raws[1..]);
    }
  }

  lemma {:induction false} ResourcesAreRead(packet: Bytes, i: nat, ws: seq<WireResource>, end: nat)
    returns (raws: seq<RawResource>)
    requires ResourcesAt(packet, i, ws, end) && i <= |packet|
    ensures end <= |packet| && |raws| == |ws| && forall k | 0 <= k < |ws| :: raws[k] == RawResourceAt(ws[k])
    ensures DecodeRecords(ReadResource, packet[i..], |ws|, packet) == Done(Section(Some(raws), packet[end..]))
    decreases |ws|
  {
    hide ReadResource, ResourceAt, RawResourceAt, ResourceSize, DecodeRecords;
    if |ws| == 0 {
      raws := [];
      NoRecords(ReadResource, packet[i..], packet);
    } else {
      ResourceIsThere(packet, i, ws[0]);
      var next := i + ResourceSize(ws[0]);
      var more := ResourcesAreRead(packet, next, ws[1..], end);
      raws := [RawResourceAt(ws[0])] + more;
      assert packet[i..] == packet[i..next] + packet[next..];
      FirstRecord(ReadResource, packet[i..next], packet[next..], RawResourceAt(ws[0]), |ws|, packet);
    }
  }

  lemma ResourceIsMeant(t: Table, packet: Bytes, w: WireResource)
    requires Fits(t, packet, w)
    ensures KnownResource(t, RawResourceAt(w), packet) == Done(ResourceMeant(t, w))
  {
    hide NameTrail, Join, Spells;
    if w.value in t.byvalue && t.byvalue[w.value].1 == Name {
      SpelledIsRead(packet, w.rdata, w.target.labels, w.target.hops);
    }
  }

  lemma {:induction false} ResourcesAreMeant(t: Table, packet: Bytes, ws: seq<WireResource>, raws: seq<RawResource>)
    requires |raws| == |ws| && forall k | 0 <= k < |ws| :: raws[k] == RawResourceAt(ws[k])
    requires forall w | w in ws :: Fits(t, packet, w)
    ensures KnownResources(t, raws, packet) == Done(ResourcesMeant(t, ws))
    decreases |ws|
  {
    hide KnownResource, ResourceMeant, RawResourceAt, Fits;
    if |ws| == 0 {
    } else {
      assert ws[0] in ws;
      ResourceIsMeant(t, packet, ws[0]);
      ResourcesAreMeant(t, packet, ws[1..], raws[1..]);
    }
  }

  lemma ResourcesAreThere(t: Table, packet: Bytes, i: nat, ws: seq<WireResource>, end: nat)
    requires ResourcesAt(packet, i, ws, end) && i <= |packet| && forall w | w in ws :: Fits(t, packet, w)
    ensures end <= |packet|
    ensures DecodeResources(t, packet[i..], |ws|, packet) == Done(Section(Some(ResourcesMeant(t, ws)), packet[end..]))
  {
    hide DecodeRecords, KnownResources, ResourcesMeant, Fits, ResourcesAt, ReadResource;
    var raws := ResourcesAreRead(packet, i, ws, end);
    ResourcesAreMeant(t, packet, ws, raws);
  }

  /** An address of the wrong length raises an exception. */
  lemma BadAddressRaises(t: Table, packet: Bytes, w: WireResource)
    requires w.value in t.byvalue
    requires (t.byvalue[w.value].1 == Ipv4 && |w.rdata| != 4) || (t.byvalue[w.value].1 == Ipv6 && |w.rdata| != 16)
    ensures KnownResource(t, RawResourceAt(w), packet).Raised?
  {
  }

  /** A message whose name is cut short, or that ends with the name, has no record there; the records before it go too. */
  lemma {:induction false} CutRecordsAreDropped(packet: Bytes, i: nat, ws: seq<WireQuery>, end: nat, name: Bytes, cut: nat,
                                                more: nat)
    requires QueriesAt(packet, i, ws, end) && i <= |packet| && end <= |packet|
    requires GoodName(name) && WriteName(name).Some?
    requires 0 < cut < |WriteName(name).value| && packet[end..] == WriteName(name).value[..cut]
    ensures DecodeRecords(ReadQuery, packet[i..], |ws| + 1 + more, packet) == Done(Section(None, []))
    decreases |ws|
  {
    hide QueryAt, QuerySize, RawQueryOf, WriteName, GoodName, ReadQuery, DecodeRecords;
    if |ws| == 0 {
      CutNameIsRefused(name, cut, packet);
      RefusedFirst(packet[i..], more, packet);
    } else {
      QueryIsThere(packet, i, ws[0]);
      ReadAsRaw(ws[0]);
      var next := i + QuerySize(ws[0]);
      CutRecordsAreDropped(packet, next, ws[1..], end, name, cut, more);
      assert packet[i..] == packet[i..next] + packet[next..];
      FirstRecord(ReadQuery, packet[i..next], packet[next..], RawQueryOf(ws[0]), |ws| + 1 + more, packet);
    }
  }

  lemma RefusedFirst(data: Bytes, more: nat, packet: Bytes)
    requires ReadQuery(data, packet) == Done(Refused)
    ensures DecodeRecords(ReadQuery, data, 1 + more, packet) == Done(Section(None, []))
  {
    hide ReadQuery;
  }

  lemma CutNameIsRefused(name: Bytes, cut: nat, packet: Bytes)
    requires GoodName(name) && WriteName(name).Some? && 0 < cut < |WriteName(name).value|
    ensures ReadQuery(WriteName(name).value[..cut], packet) == Done(Refused)
  {
    hide ReadLabels, Split, WriteParts;
    WriteNameParts(name);
    GoodHasNoFinalDot(name);
    CutNameIsNotRead(Split(name), cut);
  }

  // ----- whole responses ----------------------------------------------------------------------

  /** The four lists of a message, and where each ends. */
  datatype Body = Body(queries: seq<WireQuery>, responses: seq<WireResource>, authorities: seq<WireResource>,
                       additionals: seq<WireResource>)

  /** The header: the identifier, two bytes of flags, and the lengths of the four lists. */
  predicate HeaderAt(packet: Bytes, identifier: nat, b: Body) {
    && |packet| >= 12
    && NumberAt(packet, 0, 2, identifier)
    && NumberAt(packet, 4, 2, |b.queries|)
    && NumberAt(packet, 6, 2, |b.responses|)
    && NumberAt(packet, 8, 2, |b.authorities|)
    && NumberAt(packet, 10, 2, |b.additionals|)
  }

  predicate BodyAt(packet: Bytes, b: Body, i: nat, j: nat, k: nat, end: nat) {
    && QueriesAt(packet, 12, b.queries, i)
    && ResourcesAt(packet, i, b.responses, j)
    && ResourcesAt(packet, j, b.authorities, k)
    && ResourcesAt(packet, k, b.additionals, end)
  }

  /** The first flag says that this is a response, the seventh that it was cut short. */
  predicate IsResponse(packet: Bytes)
    requires |packet| >= 12
  {
    packet[2] / 128 == 1
  }

  predicate IsCut(packet: Bytes)
    requires |packet| >= 12
  {
    packet[2] / 2 % 2 == 1
  }

  lemma FlagsAre(packet: Bytes)
    requires |packet| >= 12
    ensures var flags := ReadU16(packet[2..]);
            && (flags / 0x8000 != 0 <==> IsResponse(packet)) && (flags / 0x8000 == 1 <==> IsResponse(packet))
            && (flags / 0x200 % 2 == 0 <==> !IsCut(packet))
  {
    var (a, b) := (packet[2] as int, packet[3] as int);
    assert ReadU16(packet[2..]) == a * 256 + b;
    assert (a * 256 + b) / 0x200 == a / 2;
    assert (a * 256 + b) / 0x8000 == a / 128;
  }

  /** Every response that is laid out as the standard says, with compressed names or without, and whose data fits its
      types, is decoded to its identifier and its four lists in order, or, if it was cut short, to the identifier
      alone. */
  lemma WireResponseIsDecoded(t: Table, packet: Bytes, identifier: nat, b: Body, i: nat, j: nat, k: nat, end: nat)
    requires HeaderAt(packet, identifier, b) && BodyAt(packet, b, i, j, k, end) && IsResponse(packet)
    requires forall w | w in b.responses + b.authorities + b.additionals :: Fits(t, packet, w)
    ensures DecodeResponse(t, packet) ==
            Done(if IsCut(packet) then Response(identifier, false, [], [], [], [])
                 else Response(identifier, true, QueriesMeant(t, b.queries), ResourcesMeant(t, b.responses),
                               ResourcesMeant(t, b.authorities), ResourcesMeant(t, b.additionals)))
  {
    hide QueriesAt, ResourcesAt, DecodeQueries, DecodeResources, QueriesMeant, ResourcesMeant, ReadU16, Fits, NumberAt;
    hide IsCut, IsResponse;
    FlagsAre(packet);
    HeaderIsThere(packet, identifier, b);
    QueriesAreThere(t, packet, 12, b.queries, i);
    ResourcesAreThere(t, packet, i, b.responses, j);
    ResourcesAreThere(t, packet, j, b.authorities, k);
    ResourcesAreThere(t, packet, k, b.additionals, end);
  }

  lemma HeaderIsThere(packet: Bytes, identifier: nat, b: Body)
    requires HeaderAt(packet, identifier, b)
    ensures ReadU16(packet) == identifier && ReadU16(packet[4..]) == |b.queries| && ReadU16(packet[6..]) == |b.responses|
    ensures ReadU16(packet[8..]) == |b.authorities| && ReadU16(packet[10..]) == |b.additionals|
  {
    hide NumberAt, ReadU16;
    assert packet[0..] == packet;
    NumberIsRead(packet, 0, identifier);
    NumberIsRead(packet, 4, |b.queries|);
    NumberIsRead(packet, 6, |b.responses|);
    NumberIsRead(packet, 8, |b.authorities|);
    NumberIsRead(packet, 10, |b.additionals|);
  }

  /** A request laid out so is decoded to its identifier and queries; without queries, or as a response, to none. */
  lemma WireRequestIsDecoded(t: Table, packet: Bytes, identifier: nat, b: Body, i: nat)
    requires HeaderAt(packet, identifier, b) && QueriesAt(packet, 12, b.queries, i)
    ensures DecodeRequest(t, packet) ==
            Done(if IsResponse(packet) || b.queries == [] then None
                 else Some(Request(identifier, QueriesMeant(t, b.queries))))
  {
    hide QueriesAt, DecodeQueries, QueriesMeant, ReadU16, NumberAt, IsResponse;
    FlagsAre(packet);
    HeaderIsThere(packet, identifier, b);
    QueriesAreThere(t, packet, 12, b.queries, i);
    MeantLength(t, b.queries);
  }

  lemma MeantLength(t: Table, ws: seq<WireQuery>)
    ensures |QueriesMeant(t, ws)| == |ws|
  {
  }

  // ----- writing ------------------------------------------------------------------------------

  /** A written name: its labels are the parts between its dots, and it is not compressed. */
  function Written(name: Bytes): Spelling
    requires WriteName(name).Some?
  {
    Spelling(Split(name), 0, |WriteName(name).value|)
  }

  /** The query as it is written, in the class of the internet. */
  function WireOf(t: Table, q: Query): WireQuery
    requires GoodQuery(t, q) && WriteName(q.question).Some?
  {
    WireQuery(Written(q.question), t.byname[q.kind.value].0, 1)
  }

  lemma WrittenNameAt(name: Bytes, packet: Bytes, i: nat)
    requires GoodName(name) && WriteName(name).Some?
    requires i + |WriteName(name).value| <= |packet|
    requires packet[i..i + |WriteName(name).value|] == WriteName(name).value
    ensures NameAt(packet, i, Written(name)) && Split(name) != [] && Join(Split(name)) == name
    ensures |WriteName(name).value| > 0
  {
    hide Split, WriteParts, Join, Spells, Occupies;
    WriteNameParts(name);
    GoodHasNoFinalDot(name);
    JoinSplit(name);
    var w := WriteName(name).value;
    var rest := packet[i + |w|..];
    assert packet[i..] == w + rest;
    WrittenSpells(Split(name), rest, packet);
    OccupiesSome(w + rest, |w|);
  }

  lemma OccupiesSome(s: Bytes, n: nat)
    requires Occupies(s, n)
    ensures n > 0
  {
  }

  /** The parts of a packet that is three parts one after the other. */
  lemma Middle(packet: Bytes, front: Bytes, w: Bytes, rest: Bytes)
    requires packet == front + w + rest
    ensures |front| + |w| <= |packet| && packet[|front|..|front| + |w|] == w
  {
  }

  lemma AfterFront(packet: Bytes, front: Bytes, w: Bytes, rest: Bytes)
    requires packet == front + w + rest
    ensures packet[|front|..] == w + rest
  {
  }

  lemma WrittenQueryAt(t: Table, q: Query, packet: Bytes, front: Bytes, rest: Bytes)
    requires GoodQuery(t, q) && t.EncodeQuery(q).Some? && packet == front + t.EncodeQuery(q).value + rest
    ensures WriteName(q.question).Some? && QueryAt(packet, |front|, WireOf(t, q))
    ensures QuerySize(WireOf(t, q)) == |t.EncodeQuery(q).value|
  {
    hide GoodName, WriteName, BigEndian, U16, Spells, Occupies, NameAt, Join;
    var name := WriteName(q.question).value;
    var (value, one) := (U16(t.byname[q.kind.value].0), U16(1));
    U16IsBigEndian(t.byname[q.kind.value].0);
    U16IsBigEndian(1);
    assert packet == front + name + (value + one + rest);
    assert packet == front + name + value + (one + rest);
    assert packet == front + name + value + one + rest;
    Middle(packet, front, name, value + one + rest);
    Middle(packet, front + name, value, one + rest);
    Middle(packet, front + name + value, one, rest);
    WrittenNameAt(q.question, packet, |front|);
  }

  lemma EncodedName(t: Table, q: Query)
    requires GoodQuery(t, q)
    ensures WriteName(q.question).Some? && t.EncodeQuery(q).Some?
  {
    hide GoodName, WriteName;
    GoodNameRead(q.question, [], []);
  }

  function WiresOf(t: Table, qs: seq<Query>): (ws: seq<WireQuery>)
    requires forall q | q in qs :: GoodQuery(t, q) && WriteName(q.question).Some?
    ensures |ws| == |qs| && forall k | 0 <= k < |qs| :: ws[k] == WireOf(t, qs[k])
  {
    if |qs| == 0 then [] else [WireOf(t, qs[0])] + WiresOf(t, qs[1..])
  }

  lemma {:induction false} WrittenQueriesAt(t: Table, qs: seq<Query>, packet: Bytes, front: Bytes, rest: Bytes)
    requires forall q | q in qs :: GoodQuery(t, q) && WriteName(q.question).Some?
    requires EncodeAll(t.EncodeQuery, qs).Some? && packet == front + EncodeAll(t.EncodeQuery, qs).value + rest
    ensures QueriesAt(packet, |front|, WiresOf(t, qs), |front| + |EncodeAll(t.EncodeQuery, qs).value|)
    decreases |qs|
  {
    hide GoodQuery, WriteName, Table.EncodeQuery, QueryAt, QuerySize, WireOf;
    if |qs| == 0 {
    } else {
      assert qs[0] in qs;
      var (first, more) := (t.EncodeQuery(qs[0]).value, EncodeAll(t.EncodeQuery, qs[1..]).value);
      assert packet == front + first + (more + rest);
      assert packet == (front + first) + more + rest;
      WrittenQueryAt(t, qs[0], packet, front, more + rest);
      WrittenQueriesAt(t, qs[1..], packet, front + first, rest);
    }
  }

  /** What is written as the data of a resource: an address, or a name. */
  predicate DataIs(rdata: Bytes, v: Value) {
    match v
    case Address(bytes) => rdata == bytes
    case Hostname(name) => WriteName(name) == Some(rdata)
  }

  /** The resource as it is written, in the class of the internet. */
  function WireResourceOf(t: Table, r: Resource, rdata: Bytes): WireResource
    requires GoodResource(t, r) && WriteName(r.question).Some? && DataIs(rdata, r.response.value)
  {
    WireResource(Written(r.question), t.byname[r.kind.value].0, 1, r.ttl, rdata,
                 if r.response.value.Hostname? then Written(r.response.value.name) else Spelling([], 0, 0))
  }

  /** The data of a good resource is what its value says, and fits. */
  lemma DataFits(t: Table, r: Resource, packet: Bytes) returns (rdata: Bytes)
    requires Inverse(t) && GoodResource(t, r)
    ensures WriteName(r.question).Some? && EncodeValue(t.byname[r.kind.value].1, r.response) == Some(rdata)
    ensures r.response.Some? && DataIs(rdata, r.response.value) && Fits(t, packet, WireResourceOf(t, r, rdata))
    ensures ResourceMeant(t, WireResourceOf(t, r, rdata)) == r
  {
    hide WriteName, GoodName, Spells, Split, Join;
    GoodNameRead(r.question, [], []);
    rdata := EncodeValue(t.byname[r.kind.value].1, r.response).value;
    JoinSplit(r.question);
    if r.response.value.Hostname? {
      WrittenData(r.response.value.name, rdata, packet);
    }
  }

  lemma WrittenData(name: Bytes, rdata: Bytes, packet: Bytes)
    requires GoodName(name) && WriteName(name) == Some(rdata)
    ensures Spells(packet, rdata, Split(name), 0) && Join(Split(name)) == name
  {
    hide Spells, Split, Join, GoodName, WriteParts;
    WrittenNameAt(name, rdata, 0);
    SpelledAnywhere(rdata, packet, rdata, Split(name));
    assert rdata[0..] == rdata;
  }

  /** What is spelled without pointers is spelled so in any packet. */
  lemma {:induction false} SpelledAnywhere(packet: Bytes, other: Bytes, s: Bytes, labels: seq<Bytes>)
    requires Spells(packet, s, labels, 0)
    ensures Spells(other, s, labels, 0)
    decreases |labels|
  {
    if s[0] != 0 {
      SpelledAnywhere(packet, other, s[1 + s[0]..], labels[1..]);
    }
  }

  lemma U32IsBigEndian(n: nat)
    requires n < 0x1_0000_0000
    ensures |U32(n)| == 4 && BigEndian(U32(n)) == n
  {
    hide BigEndian, U16;
    U16IsBigEndian(n / 0x10000);
    U16IsBigEndian(n % 0x10000);
    FourBytes(U32(n));
    assert U32(n)[..4] == U32(n) && U32(n)[..2] == U16(n / 0x10000) && U32(n)[2..][..2] == U16(n % 0x10000);
  }

  lemma WrittenResourceAt(t: Table, r: Resource, rdata: Bytes, packet: Bytes, front: Bytes, rest: Bytes)
    requires GoodResource(t, r) && WriteName(r.question).Some? && DataIs(rdata, r.response.value)
    requires EncodeValue(t.byname[r.kind.value].1, r.response) == Some(rdata)
    requires t.EncodeResource(r).Some? && packet == front + t.EncodeResource(r).value + rest
    ensures ResourceAt(packet, |front|, WireResourceOf(t, r, rdata))
    ensures ResourceSize(WireResourceOf(t, r, rdata)) == |t.EncodeResource(r).value|
  {
    hide GoodName, WriteName, BigEndian, U16, U32, Spells, Occupies, NameAt, Join, EncodeValue, GoodValue;
    var name := WriteName(r.question).value;
    var (a, b) := (U16(t.byname[r.kind.value].0), U16(1));
    var (c, d) := (U32(r.ttl), U16(|rdata|));
    U16IsBigEndian(t.byname[r.kind.value].0);
    U16IsBigEndian(1);
    U32IsBigEndian(r.ttl);
    U16IsBigEndian(|rdata|);
    assert t.EncodeResource(r).value == name + a + b + c + d + rdata;
    Middle(packet, front, t.EncodeResource(r).value, rest);
    AfterFront(packet, front, t.EncodeResource(r).value, rest);
    SixParts(packet, front, name, a, b, c, d, rdata, rest);
    WrittenNameAt(r.question, packet, |front|);
  }

  lemma SixParts(packet: Bytes, front: Bytes, name: Bytes, a: Bytes, b: Bytes, c: Bytes, d: Bytes, e: Bytes, rest: Bytes)
    requires |front| <= |packet| && packet[|front|..] == name + a + b + c + d + e + rest
    requires |a| == |b| == |d| == 2 && |c| == 4
    ensures var (i, j) := (|front|, |front| + |name|);
            && j + 10 + |e| <= |packet|
            && packet[i..j] == name && packet[j..j + 2] == a && packet[j + 2..j + 4] == b && packet[j + 4..j + 8] == c
            && packet[j + 8..j + 10] == d && packet[j + 10..j + 10 + |e|] == e
  {
    var j := |front| + |name|;
    var (z, y) := (e + rest, d + (e + rest));
    var (x, w) := (c + y, b + (c + y));
    Regroup(name, a, b, c, d, e, rest);
    assert packet[|front|..] == name + (a + w);
    NextPart(packet, |front|, name, a + w);
    NextPart(packet, j, a, w);
    NextPart(packet, j + 2, b, x);
    NextPart(packet, j + 4, c, y);
    NextPart(packet, j + 8, d, z);
    NextPart(packet, j + 10, e, rest);
  }

  lemma Regroup(name: Bytes, a: Bytes, b: Bytes, c: Bytes, d: Bytes, e: Bytes, rest: Bytes)
    ensures name + a + b + c + d + e + rest == name + (a + (b + (c + (d + (e + rest)))))
  {
    Associates(name + a + b + c + d, e, rest);
    Associates(name + a + b + c, d, e + rest);
    Associates(name + a + b, c, d + (e + rest));
    Associates(name + a, b, c + (d + (e + rest)));
    Associates(name, a, b + (c + (d + (e + rest))));
  }

  lemma Associates(x: Bytes, y: Bytes, z: Bytes)
    ensures x + y + z == x + (y + z)
  {
  }

  lemma NextPart(packet: Bytes, i: nat, w: Bytes, rest: Bytes)
    requires i <= |packet| && packet[i..] == w + rest
    ensures i + |w| <= |packet| && packet[i..i + |w|] == w && packet[i + |w|..] == rest
  {
    assert packet[i..][..|w|] == packet[i..i + |w|];
    assert packet[i..][|w|..] == packet[i + |w|..];
  }

  /** Written resources stand one after the other, each as it is, in the class of the internet. */
  predicate Says(t: Table, w: WireResource, r: Resource) {
    ResourceMeant(t, w) == r && w.dnsclass == 1 && w.name.hops == 0 && w.target.hops == 0
  }

  lemma {:induction false} WrittenResourcesAt(t: Table, rs: seq<Resource>, packet: Bytes, front: Bytes, rest: Bytes)
    returns (ws: seq<WireResource>)
    requires Inverse(t) && forall r | r in rs :: GoodResource(t, r)
    requires EncodeAll(t.EncodeResource, rs).Some? && packet == front + EncodeAll(t.EncodeResource, rs).value + rest
    ensures |ws| == |rs| && forall k | 0 <= k < |rs| :: Says(t, ws[k], rs[k]) && Fits(t, packet, ws[k])
    ensures ResourcesAt(packet, |front|, ws, |front| + |EncodeAll(t.EncodeResource, rs).value|)
    decreases |rs|
  {
    hide GoodResource, WriteName, Table.EncodeResource, ResourceAt, ResourceSize, Inverse, Fits, DataIs, ResourceMeant;
    ws := [];
    if |rs| == 0 {
    } else {
      assert rs[0] in rs;
      var (first, more) := (t.EncodeResource(rs[0]).value, EncodeAll(t.EncodeResource, rs[1..]).value);
      assert packet == front + first + (more + rest);
      assert packet == (front + first) + more + rest;
      var rdata := DataFits(t, rs[0], packet);
      WrittenResourceAt(t, rs[0], rdata, packet, front, more + rest);
      var w := WireResourceOf(t, rs[0], rdata);
      ws := WrittenResourcesAt(t, rs[1..], packet, front + first, rest);
      ws := [w] + ws;
    }
  }

  lemma HeaderBytes(identifier: nat, flags: nat, b: Body, rest: Bytes)
    requires identifier < 0x10000 && flags < 0x10000 && |b.queries| < 0x10000
    requires |b.responses| < 0x10000 && |b.authorities| < 0x10000 && |b.additionals| < 0x10000
    ensures var packet := Header(identifier, flags, |b.queries|, |b.responses|, |b.authorities|, |b.additionals|) + rest;
            && HeaderAt(packet, identifier, b) && |packet| == 12 + |rest|
            && packet[2] as int == flags / 256 && packet[3] as int == flags % 256 && packet[12..] == rest
  {
    hide BigEndian, U16;
    var packet := Header(identifier, flags, |b.queries|, |b.responses|, |b.authorities|, |b.additionals|) + rest;
    var (n, a, h, d) := (U16(|b.queries|), U16(|b.responses|), U16(|b.authorities|), U16(|b.additionals|));
    U16IsBigEndian(identifier);
    U16IsBigEndian(flags);
    U16IsBigEndian(|b.queries|);
    U16IsBigEndian(|b.responses|);
    U16IsBigEndian(|b.authorities|);
    U16IsBigEndian(|b.additionals|);
    assert packet[0..] == U16(identifier) + (U16(flags) + (n + (a + (h + (d + rest)))));
    hide Header;
    NextPart(packet, 0, U16(identifier), U16(flags) + (n + (a + (h + (d + rest)))));
    NextPart(packet, 2, U16(flags), n + (a + (h + (d + rest))));
    NextPart(packet, 4, n, a + (h + (d + rest)));
    NextPart(packet, 6, a, h + (d + rest));
    NextPart(packet, 8, h, d + rest);
    NextPart(packet, 10, d, rest);
    FlagBytes(packet, flags);
  }

  lemma FlagBytes(packet: Bytes, flags: nat)
    requires flags < 0x10000 && |packet| >= 4 && packet[2..4] == U16(flags)
    ensures packet[2] as int == flags / 256 && packet[3] as int == flags % 256
  {
    assert packet[2..4][0] == packet[2] && packet[2..4][1] == packet[3];
  }

  /** A request is laid out as the standard says: its identifier, the flags of a query that wants recursion, the number
      of its queries and no other records, and its queries, uncompressed and in the class of the internet. */
  lemma RequestIsLaidOut(t: Table, r: Request) returns (b: Body)
    requires Inverse(t) && r.identifier < 0x10000 && |r.queries| < 0x10000
    requires forall q | q in r.queries :: GoodQuery(t, q)
    ensures EncodeRequest(t, r).Some?
    ensures var packet := EncodeRequest(t, r).value;
            && HeaderAt(packet, r.identifier, b) && packet[2] == 1 && packet[3] == 0
            && b.responses == b.authorities == b.additionals == []
            && QueriesAt(packet, 12, b.queries, |packet|)
    ensures QueriesMeant(t, b.queries) == r.queries
    ensures forall w | w in b.queries :: w.dnsclass == 1 && w.name.hops == 0
  {
    hide EncodeAll, U16, GoodQuery, Inverse, Header, QueriesAt, HeaderAt, WriteName, EncodeRequest;
    QueriesRoundTrip(t, r.queries, [], []);
    var queries := EncodeAll(t.EncodeQuery, r.queries).value;
    forall q | q in r.queries
      ensures WriteName(q.question).Some?
    {
      EncodedName(t, q);
    }
    b := Body(WiresOf(t, r.queries), [], [], []);
    RequestParts(t, r, queries);
    var packet := EncodeRequest(t, r).value;
    HeaderBytes(r.identifier, 256, b, queries);
    assert packet == packet[..12] + queries + [];
    WrittenQueriesAt(t, r.queries, packet, packet[..12], []);
    WiresMean(t, r.queries);
  }

  lemma RequestParts(t: Table, r: Request, queries: Bytes)
    requires r.identifier < 0x10000 && |r.queries| < 0x10000 && EncodeAll(t.EncodeQuery, r.queries) == Some(queries)
    ensures EncodeRequest(t, r) == Some(Header(r.identifier, 256, |r.queries|, 0, 0, 0) + queries)
  {
    hide U16, EncodeAll;
    ZeroBytes();
    assert U16(r.identifier) + U16(256) + U16(|r.queries|) + [0, 0, 0, 0, 0, 0]
        == Header(r.identifier, 256, |r.queries|, 0, 0, 0);
  }

  lemma {:induction false} WiresMean(t: Table, qs: seq<Query>)
    requires Inverse(t) && forall q | q in qs :: GoodQuery(t, q) && WriteName(q.question).Some?
    ensures QueriesMeant(t, WiresOf(t, qs)) == qs
    decreases |qs|
  {
    hide WriteName, GoodName, Join, Split;
    if |qs| == 0 {
    } else {
      assert qs[0] in qs;
      JoinSplit(qs[0].question);
      WiresMean(t, qs[1..]);
    }
  }

  /** The wire resources are these resources, fit their types, and stand uncompressed and in the class of the internet. */
  predicate SaysAll(t: Table, packet: Bytes, ws: seq<WireResource>, rs: seq<Resource>) {
    |ws| == |rs| && forall k | 0 <= k < |rs| :: Says(t, ws[k], rs[k]) && Fits(t, packet, ws[k])
  }

  /** A response is laid out as the standard says: its identifier, the flag of a response and no other, the lengths of
      its lists, its queries, and its three lists of resources in order. */
  lemma ResponseIsLaidOut(t: Table, r: Response) returns (b: Body, i: nat, j: nat, k: nat)
    requires Inverse(t) && GoodResponse(t, r)
    ensures EncodeResponse(t, r).Some?
    ensures var packet := EncodeResponse(t, r).value;
            && HeaderAt(packet, r.identifier, b) && packet[2] == 0x80 && packet[3] == 0
            && BodyAt(packet, b, i, j, k, |packet|)
            && QueriesMeant(t, b.queries) == r.queries
            && SaysAll(t, packet, b.responses, r.responses)
            && SaysAll(t, packet, b.authorities, r.authorities)
            && SaysAll(t, packet, b.additionals, r.additionals)
    ensures forall w | w in b.queries :: w.dnsclass == 1 && w.name.hops == 0
  {
    hide EncodeAll, GoodQuery, GoodResource, Inverse, Header, HeaderAt, QueriesAt, ResourcesAt, WriteName, EncodeResponse;
    hide SaysAll, QueriesMeant;
    QueriesRoundTrip(t, r.queries, [], []);
    ResourcesInOrder(t, r);
    var (q, x) := (EncodeAll(t.EncodeQuery, r.queries).value, EncodeAll(t.EncodeResource, r.responses).value);
    var (y, z) := (EncodeAll(t.EncodeResource, r.authorities).value, EncodeAll(t.EncodeResource, r.additionals).value);
    var h := Header(r.identifier, 0x8000, |r.queries|, |r.responses|, |r.authorities|, |r.additionals|);
    PacketShape(t, r, h, q, x, y, z);
    var packet := h + (q + (x + (y + z)));
    var f := LaidOutQueries(t, r.queries, packet, h, q, x + (y + z));
    i := |h| + |q|;
    var a, e := LaidOutResources(t, r.responses, packet, h + q, x, y + z);
    j := i + |x|;
    var c, g := LaidOutResources(t, r.authorities, packet, h + q + x, y, z);
    k := j + |y|;
    var d, o := LaidOutResources(t, r.additionals, packet, h + q + x + y, z, []);
    b := Body(f, a, c, d);
    HeaderBytes(r.identifier, 0x8000, b, q + (x + (y + z)));
  }

  lemma LaidOutQueries(t: Table, qs: seq<Query>, packet: Bytes, front: Bytes, w: Bytes, rest: Bytes)
    returns (ws: seq<WireQuery>)
    requires Inverse(t) && (forall q | q in qs :: GoodQuery(t, q)) && EncodeAll(t.EncodeQuery, qs) == Some(w)
    requires packet == front + (w + rest)
    ensures |ws| == |qs| && QueriesAt(packet, |front|, ws, |front| + |w|) && QueriesMeant(t, ws) == qs
    ensures forall w | w in ws :: w.dnsclass == 1 && w.name.hops == 0
  {
    hide EncodeAll, GoodQuery, Inverse, QueriesAt, WriteName;
    forall q | q in qs
      ensures WriteName(q.question).Some?
    {
      EncodedName(t, q);
    }
    ws := WiresOf(t, qs);
    Associates(front, w, rest);
    WrittenQueriesAt(t, qs, packet, front, rest);
    WiresMean(t, qs);
  }

  lemma LaidOutResources(t: Table, rs: seq<Resource>, packet: Bytes, front: Bytes, w: Bytes, rest: Bytes)
    returns (ws: seq<WireResource>, end: nat)
    requires Inverse(t) && (forall r | r in rs :: GoodResource(t, r)) && EncodeAll(t.EncodeResource, rs) == Some(w)
    requires packet == front + w + rest
    ensures ResourcesAt(packet, |front|, ws, end) && end == |front| + |w|
    ensures |ws| == |rs| && SaysAll(t, packet, ws, rs)
  {
    hide EncodeAll, GoodResource, Inverse, ResourcesAt, WriteName, Says, Fits;
    ws := WrittenResourcesAt(t, rs, packet, front, rest);
    end := |front| + |w|;
  }
}

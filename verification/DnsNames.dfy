/** Domain names on the wire (sections 3.1 and 4.1.4 of RFC 1035), as `lib/exaproxy/dns/convert.py` writes
    and reads them.  `None` results stand for exceptions. */
module DnsNames {
  import opened Wrappers
  import opened ByteStrings

  const DOT: byte := 46
  const COMPRESSED: byte := 0xc0
  const OFFSETS: nat := 0x4000      // one more than the largest pointer
  const MAX_NAME: nat := 500

  // ----- splitting and joining at dots ------------------------------------------------------

  function FindDot(s: Bytes): (n: nat)
    ensures n <= |s|
    ensures n < |s| ==> s[n] == DOT
    ensures forall i | 0 <= i < n :: s[i] != DOT
  {
    if |s| == 0 || s[0] == DOT then 0 else 1 + FindDot(s[1..])
  }

  function Split(s: Bytes): (r: seq<Bytes>)
    ensures |r| > 0
    decreases |s|
  {
    var n := FindDot(s);
    if n == |s| then [s] else [s[..n]] + Split(s[n + 1..])
  }

  function Join(parts: seq<Bytes>): Bytes {
    if |parts| == 0 then []
    else if |parts| == 1 then parts[0]
    else parts[0] + [DOT] + Join(parts[1..])
  }

  function StripDots(s: Bytes): (r: Bytes)
    ensures r <= s
    ensures r == [] || r[|r| - 1] != DOT
  {
    if s != [] && s[|s| - 1] == DOT then StripDots(s[..|s| - 1]) else s
  }

  // ----- writing names ----------------------------------------------------------------------

  function WriteParts(parts: seq<Bytes>): Option<Bytes> {
    if |parts| == 0 then Some([])
    else if |parts[0]| > 255 then None
    else
      var rest := WriteParts(parts[1..]);
      if rest.None? then None else Some([|parts[0]|] + parts[0] + rest.value)
  }

  /** `string_to_dns`. */
  function WriteName(s: Bytes): Option<Bytes> {
    WriteParts(Split(StripDots(s) + [DOT]))
  }

  // ----- reading one stretch of labels ------------------------------------------------------

  /** What `dns_string` makes of some bytes: it may raise an exception; otherwise how many bytes it read
      (`None` when a label was cut short), the labels, and a pointer to where the name goes on. */
  datatype Stretch = Raises | Stretch(read: Option<nat>, labels: seq<Bytes>, pointer: Option<nat>)

  function ReadLabels(s: Bytes): (r: Stretch)
    ensures r.Stretch? && r.pointer.Some? ==> r.pointer.value < OFFSETS
    ensures r.Stretch? ==> forall l | l in r.labels :: l != []
    decreases |s|
  {
    if |s| == 0 then Stretch(Some(0), [], None)
    else if s[0] >= COMPRESSED then
      if |s| < 2 then Raises else Stretch(Some(2), [], Some((s[0] - COMPRESSED) * 256 + s[1]))
    else if s[0] == 0 then Stretch(Some(1), [], None)
    else if |s| <= s[0] + 1 then Stretch(None, [], None)
    else
      Resumed(s[0] + 1, [s[1..1 + s[0]]], ReadLabels(s[1 + s[0]..]))
  }

  /** Reading on after `parts`, which took `n` bytes. */
  function Resumed(n: nat, parts: seq<Bytes>, rest: Stretch): Stretch {
    if rest.Raises? || rest.read.None? then rest
    else Stretch(Some(n + rest.read.value), parts + rest.labels, rest.pointer)
  }

  /** One step of reading. */
  lemma ReadStep(s: Bytes)
    ensures ReadLabels(s) ==
            if |s| == 0 then Stretch(Some(0), [], None)
            else if s[0] >= COMPRESSED then
              if |s| < 2 then Raises else Stretch(Some(2), [], Some((s[0] - COMPRESSED) * 256 + s[1]))
            else if s[0] == 0 then Stretch(Some(1), [], None)
            else if |s| <= s[0] + 1 then Stretch(None, [], None)
            else Resumed(s[0] + 1, [s[1..1 + s[0]]], ReadLabels(s[1 + s[0]..]))
  {
  }

  /** `dns_string`, returning the labels before they are joined. */
  method DnsString(name: Bytes) returns (r: Stretch)
    ensures r == ReadLabels(name)
  {
    hide ReadLabels;
    var s := name;
    var parts: seq<Bytes> := [];
    var remaining := |s|;
    var read: nat := 0;
    assert ReadLabels(name).Stretch? ==> [] + ReadLabels(name).labels == ReadLabels(name).labels;
    while |s| != 0
      invariant remaining == |s|
      invariant if |parts| > 0 then |s| > 0 else read == 0
      invariant ReadLabels(name) == Resumed(read, parts, ReadLabels(s))
      decreases |s|
    {
      ReadStep(s);
      var length := s[0];
      remaining := remaining - (length + 1);
      if length >= COMPRESSED {
        if |s| < 2 {
          return Raises;
        }
        return Stretch(Some(read + 2), parts, Some((length - COMPRESSED) * 256 + s[1]));
      }
      if length == 0 {
        return Stretch(Some(read + 1), parts, None);
      }
      if remaining <= 0 {
        return Stretch(None, [], None);
      }
      ResumedNext(read, parts, length + 1, s[1..1 + length], ReadLabels(s[1 + length..]));
      read := read + length + 1;
      parts := parts + [s[1..1 + length]];
      s := s[1 + length..];
    }
    ReadStep(s);
    return Stretch(Some(read), [], None);
  }

  lemma ResumedNext(read: nat, parts: seq<Bytes>, n: nat, part: Bytes, rest: Stretch)
    ensures Resumed(read, parts, Resumed(n, [part], rest)) == Resumed(read + n, parts + [part], rest)
  {
    if rest.Stretch? {
      assert parts + ([part] + rest.labels) == parts + [part] + rest.labels;
    }
  }

  // ----- following pointers -----------------------------------------------------------------

  /** Where reading a compressed name leads: an exception, a refusal of more than 500 bytes, no end at all, or
      the labels found. */
  datatype Trail = Exception | TooLong | Endless | Trail(labels: seq<Bytes>)

  function Continued(labels: seq<Bytes>, t: Trail): Trail {
    if t.Trail? then Trail(labels + t.labels) else t
  }

  predicate IsPointer(p: nat) {
    p < OFFSETS
  }

  function AllPointers(): set<nat> {
    set p: nat | p < OFFSETS && IsPointer(p)
  }

  /** The labels reached from the pointer `q` with `used` bytes of name read before.  `seen` are the pointers
      visited since the last label: meeting one of them again, the program goes round forever. */
  function Follow(packet: Bytes, q: nat, used: nat, seen: set<nat>): Trail
    requires q < OFFSETS && used <= MAX_NAME
    decreases MAX_NAME - used, AllPointers() - seen
  {
    if q in seen then Endless
    else
      match ReadLabels(Drop(packet, q))
      case Raises => Exception
      case Stretch(_, labels, pointer) =>
        var used' := used + |Join(labels)|;
        if used' > MAX_NAME then TooLong
        else if pointer.None? then Trail(labels)
        else
          JoinNonEmpty(labels);
          assert IsPointer(q);
          Continued(labels, Follow(packet, pointer.value, used', if labels == [] then seen + {q} else {}))
  }

  lemma JoinNonEmpty(parts: seq<Bytes>)
    requires forall p | p in parts :: p != []
    ensures Join(parts) == [] <==> parts == []
  {
    if |parts| == 1 {
      assert parts[0] in parts;
    }
  }

  /** The same loop as the program runs it, cut off after `fuel` rounds (`Endless` when it was not done). */
  function Rounds(packet: Bytes, q: nat, used: nat, fuel: nat): Trail
    requires q < OFFSETS && used <= MAX_NAME
    decreases fuel
  {
    if fuel == 0 then Endless
    else
      match ReadLabels(Drop(packet, q))
      case Raises => Exception
      case Stretch(_, labels, pointer) =>
        var used' := used + |Join(labels)|;
        if used' > MAX_NAME then TooLong
        else if pointer.None? then Trail(labels)
        else Continued(labels, Rounds(packet, pointer.value, used', fuel - 1))
  }

  /** What is not endless is found after finitely many rounds. */
  lemma {:induction false} FollowIsReached(packet: Bytes, q: nat, used: nat, seen: set<nat>) returns (fuel: nat)
    requires q < OFFSETS && used <= MAX_NAME && !Follow(packet, q, used, seen).Endless?
    ensures Rounds(packet, q, used, fuel) == Follow(packet, q, used, seen)
    decreases MAX_NAME - used, AllPointers() - seen
  {
    hide ReadLabels, Join;
    fuel := 1;
    var r := ReadLabels(Drop(packet, q));
    if r.Stretch? && used + |Join(r.labels)| <= MAX_NAME && r.pointer.Some? {
      JoinNonEmpty(r.labels);
      assert IsPointer(q);
      fuel := FollowIsReached(packet, r.pointer.value, used + |Join(r.labels)|, if r.labels == [] then seen + {q} else {});
      fuel := fuel + 1;
    }
  }

  // ----- exactly when the program goes round forever ------------------------------------------

  /** At `q` there is nothing but a pointer, to `next`. */
  predicate OnlyPointer(packet: Bytes, q: nat, next: nat) {
    ReadLabels(Drop(packet, q)) == Stretch(Some(2), [], Some(next))
  }

  /** A chain of bare pointers that starts at `path[0]` and leads to `q`. */
  predicate Chain(packet: Bytes, path: seq<nat>, q: nat)
    decreases |path|
  {
    if |path| == 0 then true
    else path[0] < OFFSETS && OnlyPointer(packet, path[0], if |path| == 1 then q else path[1]) &&
         Chain(packet, path[1..], q)
  }

  lemma {:induction false} ChainRounds(packet: Bytes, path: seq<nat>, q: nat, used: nat, fuel: nat)
    requires q < OFFSETS && used <= MAX_NAME && Chain(packet, path, q) && |path| > 0
    ensures fuel <= |path| ==> Rounds(packet, path[0], used, fuel).Endless?
    ensures fuel > |path| ==>
              Rounds(packet, path[0], used, fuel).Endless? == Rounds(packet, q, used, fuel - |path|).Endless?
    decreases |path|
  {
    hide ReadLabels;
    if fuel > 0 && |path| > 1 {
      ChainRounds(packet, path[1..], q, used, fuel - 1);
    }
  }

  /** A chain of bare pointers back to its start is never left. */
  lemma {:induction false} CircleIsEndless(packet: Bytes, path: seq<nat>, used: nat, fuel: nat)
    requires |path| > 0 && used <= MAX_NAME && Chain(packet, path, path[0])
    ensures Rounds(packet, path[0], used, fuel).Endless?
    decreases fuel
  {
    ChainRounds(packet, path, path[0], used, fuel);
    if fuel > |path| {
      CircleIsEndless(packet, path, used, fuel - |path|);
    }
  }

  lemma {:induction false} ChainGrows(packet: Bytes, path: seq<nat>, q: nat, next: nat)
    requires q < OFFSETS && Chain(packet, path, q) && OnlyPointer(packet, q, next)
    ensures Chain(packet, path + [q], next)
    decreases |path|
  {
    hide ReadLabels, OnlyPointer;
    if |path| == 0 {
    } else {
      assert (path + [q])[1..] == path[1..] + [q];
      ChainGrows(packet, path[1..], q, next);
    }
  }

  lemma {:induction false} ChainFrom(packet: Bytes, path: seq<nat>, q: nat, i: nat)
    requires Chain(packet, path, q) && i < |path|
    ensures Chain(packet, path[i..], q)
    decreases |path|
  {
    if i > 0 {
      assert path[1..][i - 1..] == path[i..];
      ChainFrom(packet, path[1..], q, i - 1);
    } else {
      assert path[0..] == path;
    }
  }

  function Visited(path: seq<nat>): set<nat> {
    set p | p in path
  }

  /** One step of an endless trail. */
  lemma EndlessStep(packet: Bytes, q: nat, used: nat, seen: set<nat>)
    requires q < OFFSETS && used <= MAX_NAME && q !in seen && Follow(packet, q, used, seen).Endless?
    ensures var r := ReadLabels(Drop(packet, q));
            && r.Stretch? && r.pointer.Some? && used + |Join(r.labels)| <= MAX_NAME
            && (r.labels == [] <==> |Join(r.labels)| == 0)
            && Follow(packet, r.pointer.value, used + |Join(r.labels)|, if r.labels == [] then seen + {q} else {}).Endless?
  {
    hide ReadLabels, Join;
    var r := ReadLabels(Drop(packet, q));
    if r.Stretch? {
      JoinNonEmpty(r.labels);
    }
  }

  lemma OneMoreVisited(path: seq<nat>, q: nat)
    requires q < OFFSETS && q !in path
    ensures q !in Visited(path) && q in AllPointers() && Visited(path + [q]) == Visited(path) + {q}
    ensures AllPointers() - Visited(path + [q]) < AllPointers() - Visited(path)
  {
    assert IsPointer(q);
    assert q in AllPointers() - Visited(path);
  }

  /** A circle of bare pointers. */
  predicate Circle(packet: Bytes, path: seq<nat>) {
    |path| > 0 && Chain(packet, path, path[0])
  }

  /** The program's loop, started at `q`, is at the pointer `p` after `n` rounds. */
  predicate Reaches(packet: Bytes, q: nat, used: nat, p: nat, n: nat)
    decreases n
  {
    if n == 0 then q == p
    else
      var r := ReadLabels(Drop(packet, q));
      && r.Stretch? && r.pointer.Some? && used + |Join(r.labels)| <= MAX_NAME
      && Reaches(packet, r.pointer.value, used + |Join(r.labels)|, p, n - 1)
  }

  /** What is endless leads into a circle. */
  lemma {:induction false} FindCircle(packet: Bytes, q: nat, used: nat, path: seq<nat>) returns (circle: seq<nat>, n: nat)
    requires q < OFFSETS && used <= MAX_NAME && Chain(packet, path, q)
    requires Follow(packet, q, used, Visited(path)).Endless?
    ensures Circle(packet, circle) && Reaches(packet, q, used, circle[0], n)
    decreases MAX_NAME - used, AllPointers() - Visited(path)
  {
    hide ReadLabels, Join, Follow, Chain, Visited, AllPointers, Drop;
    if q in path {
      var i :| 0 <= i < |path| && path[i] == q;
      ChainFrom(packet, path, q, i);
      circle, n := path[i..], 0;
    } else {
      OneMoreVisited(path, q);
      EndlessStep(packet, q, used, Visited(path));
      var r := ReadLabels(Drop(packet, q));
      if r.labels == [] {
        BarePointer(Drop(packet, q));
        ChainGrows(packet, path, q, r.pointer.value);
        circle, n := FindCircle(packet, r.pointer.value, used, path + [q]);
      } else {
        NoneVisited(packet, r.pointer.value);
        circle, n := FindCircle(packet, r.pointer.value, used + |Join(r.labels)|, []);
      }
      n := n + 1;
    }
  }

  lemma NoneVisited(packet: Bytes, q: nat)
    ensures Visited([]) == {} && Chain(packet, [], q)
  {
  }

  /** From a circle that is reached the loop does not come back. */
  lemma {:induction false} CircleIsFinal(packet: Bytes, q: nat, used: nat, circle: seq<nat>, n: nat, fuel: nat)
    requires q < OFFSETS && used <= MAX_NAME && Circle(packet, circle) && Reaches(packet, q, used, circle[0], n)
    ensures Rounds(packet, q, used, fuel).Endless?
    decreases n
  {
    hide ReadLabels, Join, Chain;
    if n == 0 {
      CircleIsEndless(packet, circle, used, fuel);
    } else if fuel > 0 {
      var r := ReadLabels(Drop(packet, q));
      CircleIsFinal(packet, r.pointer.value, used + |Join(r.labels)|, circle, n - 1, fuel - 1);
    }
  }

  /** When `Follow` says endless, no number of rounds is enough. */
  lemma EndlessIsEndless(packet: Bytes, q: nat, used: nat, path: seq<nat>, fuel: nat)
    requires q < OFFSETS && used <= MAX_NAME && Chain(packet, path, q)
    requires Follow(packet, q, used, Visited(path)).Endless?
    ensures Rounds(packet, q, used, fuel).Endless?
  {
    hide Follow, Chain, Rounds;
    var circle, n := FindCircle(packet, q, used, path);
    CircleIsFinal(packet, q, used, circle, n, fuel);
  }

  lemma BarePointer(s: Bytes)
    requires ReadLabels(s).Stretch? && ReadLabels(s).labels == [] && ReadLabels(s).pointer.Some?
    ensures ReadLabels(s) == Stretch(Some(2), [], ReadLabels(s).pointer)
  {
  }

  /** The program's loop ends, with the result `Follow` gives, exactly when `Follow` is not endless, that is
      when it meets no circle of bare pointers. */
  lemma LoopEndsIff(packet: Bytes, q: nat, used: nat)
    requires q < OFFSETS && used <= MAX_NAME
    ensures !Follow(packet, q, used, {}).Endless? <==> exists fuel :: !Rounds(packet, q, used, fuel).Endless?
    ensures !Follow(packet, q, used, {}).Endless? ==>
              exists fuel :: Rounds(packet, q, used, fuel) == Follow(packet, q, used, {})
  {
    hide Follow, Rounds;
    if Follow(packet, q, used, {}).Endless? {
      forall fuel: nat
        ensures Rounds(packet, q, used, fuel).Endless?
      {
        assert Visited([]) == {};
        EndlessIsEndless(packet, q, used, [], fuel);
      }
    } else {
      var fuel := FollowIsReached(packet, q, used, {});
    }
  }

  /** Following pointers does not end if and only if it reaches a circle of bare pointers. */
  lemma EndlessIff(packet: Bytes, q: nat, used: nat)
    requires q < OFFSETS && used <= MAX_NAME
    ensures Follow(packet, q, used, {}).Endless? <==>
            exists circle: seq<nat>, n: nat :: Circle(packet, circle) && Reaches(packet, q, used, circle[0], n)
  {
    hide Follow, Rounds, Chain, Reaches;
    if Follow(packet, q, used, {}).Endless? {
      NoneVisited(packet, q);
      var circle, n := FindCircle(packet, q, used, []);
    } else if circle: seq<nat>, n: nat :| Circle(packet, circle) && Reaches(packet, q, used, circle[0], n) {
      LoopEndsIff(packet, q, used);
      var fuel :| !Rounds(packet, q, used, fuel).Endless?;
      CircleIsFinal(packet, q, used, circle, n, fuel);
      assert false;
    }
  }

  /** Every bare pointer of the packet points before itself. */
  ghost predicate PointersGoBack(packet: Bytes) {
    forall q: nat, next: nat | OnlyPointer(packet, q, next) :: next < q
  }

  /** Then reading always ends. */
  lemma {:induction false} BackwardIsFinite(packet: Bytes, q: nat, used: nat, seen: set<nat>)
    requires q < OFFSETS && used <= MAX_NAME && PointersGoBack(packet)
    requires forall p | p in seen :: q < p
    ensures !Follow(packet, q, used, seen).Endless?
    decreases MAX_NAME - used, q
  {
    hide ReadLabels, Join;
    var r := ReadLabels(Drop(packet, q));
    if r.Stretch? && used + |Join(r.labels)| <= MAX_NAME && r.pointer.Some? {
      JoinNonEmpty(r.labels);
      if r.labels == [] {
        BarePointer(Drop(packet, q));
        assert OnlyPointer(packet, q, r.pointer.value);
        BackwardIsFinite(packet, r.pointer.value, used, seen + {q});
      } else {
        BackwardIsFinite(packet, r.pointer.value, used + |Join(r.labels)|, {});
      }
    }
  }

  /** The shortest circle: a pointer to itself. */
  lemma SelfPointerIsEndless(packet: Bytes, q: nat, used: nat)
    requires q < OFFSETS && used <= MAX_NAME && OnlyPointer(packet, q, q)
    ensures Follow(packet, q, used, {}).Endless?
  {
    hide ReadLabels;
    JoinNonEmpty([]);
    assert Follow(packet, q, used, {q}).Endless?;
  }

  // ----- names as the decoders read them -----------------------------------------------------

  /** Where a name that starts with the bytes `s` of a message leads.  The limit of 500 bytes is looked at
      only after a pointer was followed. */
  function NameTrail(s: Bytes, packet: Bytes): Trail {
    match ReadLabels(s)
    case Raises => Exception
    case Stretch(_, labels, pointer) =>
      if pointer.None? then Trail(labels)
      else if |Join(labels)| <= MAX_NAME then
        Continued(labels, Follow(packet, pointer.value, |Join(labels)|, {}))
      else if ReadLabels(Drop(packet, pointer.value)).Raises? then Exception
      else TooLong
  }

  lemma NameEnds(s: Bytes, packet: Bytes)
    requires PointersGoBack(packet)
    ensures !NameTrail(s, packet).Endless?
  {
    hide ReadLabels, Join, PointersGoBack, Follow;
    var r := ReadLabels(s);
    if r.Stretch? && r.pointer.Some? && |Join(r.labels)| <= MAX_NAME {
      BackwardIsFinite(packet, r.pointer.value, |Join(r.labels)|, {});
    }
  }

  function TotalLength(parts: seq<Bytes>): nat {
    if |parts| == 0 then 0 else TotalLength(parts[..|parts| - 1]) + |parts[|parts| - 1]|
  }

  lemma {:induction false} JoinConcat(a: seq<Bytes>, b: seq<Bytes>)
    ensures Join(a + b) == if a == [] then Join(b) else if b == [] then Join(a) else Join(a) + [DOT] + Join(b)
  {
    if a == [] {
      assert a + b == b;
    } else if b == [] {
      assert a + b == a;
    } else {
      assert (a + b)[1..] == a[1..] + b;
      JoinConcat(a[1..], b);
    }
  }

  /** Joining the stretches, each joined before, is joining all labels. */
  lemma JoinStretch(parts: seq<Bytes>, all: seq<Bytes>, labels: seq<Bytes>)
    requires Join(parts) == Join(all) && (parts == [] <==> all == []) && labels != []
    ensures Join(parts + [Join(labels)]) == Join(all + labels)
  {
    JoinConcat(parts, [Join(labels)]);
    JoinConcat(all, labels);
  }

  /** `dns_to_string_info`, on the names for which the program does not go round forever. */
  method DnsToStringInfo(s: Bytes, packet: Bytes) returns (read: Option<nat>, name: Option<Bytes>, raised: bool)
    requires !NameTrail(s, packet).Endless?
    ensures raised <==> NameTrail(s, packet).Exception?
    ensures NameTrail(s, packet).TooLong? ==> name.None?
    ensures NameTrail(s, packet).Trail? ==> name == Some(Join(NameTrail(s, packet).labels))
    ensures !raised ==> read == ReadLabels(s).read
  {
    hide ReadLabels, Join, Drop;
    read, name, raised := None, None, true;
    var r := DnsString(s);
    if r.Raises? {
      return;
    }
    read := r.read;
    var value := Join(r.labels);
    var parts: seq<Bytes> := if |value| != 0 then [value] else [];
    var pointer: Option<nat> := r.pointer;
    ghost var all := r.labels;
    ghost var seen: set<nat> := {};
    StartJoined(r.labels, value, parts);
    while pointer.Some?
      invariant pointer.Some? ==> pointer.value < OFFSETS
      invariant Join(parts) == Join(all) && (parts == [] <==> all == [])
      invariant TotalLength(parts) > MAX_NAME ==> r.pointer == pointer && all == r.labels
      invariant TotalLength(parts) > MAX_NAME ==> |Join(r.labels)| > MAX_NAME
      invariant TotalLength(parts) <= MAX_NAME ==> NameTrail(s, packet) == Ahead(packet, all, pointer, TotalLength(parts), seen)
      decreases if TotalLength(parts) > MAX_NAME then 0 else MAX_NAME - TotalLength(parts), AllPointers() - seen
    {
      var hop := DnsString(Drop(packet, pointer.value));
      ghost var total := TotalLength(parts);
      if total <= MAX_NAME {
        AheadStep(packet, all, pointer.value, total, seen);
      }
      if hop.Raises? {
        return;
      }
      value := Join(hop.labels);
      JoinNonEmpty(hop.labels);
      if |value| != 0 {
        JoinStretch(parts, all, hop.labels);
        parts := parts + [value];
      } else {
        assert all + hop.labels == all;
      }
      if TotalLength(parts) > MAX_NAME {
        raised := false;
        return;
      }
      seen := if hop.labels == [] then seen + {pointer.value} else {};
      all := all + hop.labels;
      pointer := hop.pointer;
    }
    return read, Some(Join(parts)), false;
  }

  /** The trail once `all` was read: done, or still to be followed. */
  function Ahead(packet: Bytes, all: seq<Bytes>, pointer: Option<nat>, used: nat, seen: set<nat>): Trail
    requires (pointer.Some? ==> pointer.value < OFFSETS) && used <= MAX_NAME
  {
    if pointer.None? then Trail(all) else Continued(all, Follow(packet, pointer.value, used, seen))
  }

  lemma AheadStep(packet: Bytes, all: seq<Bytes>, q: nat, used: nat, seen: set<nat>)
    requires q < OFFSETS && used <= MAX_NAME && !Ahead(packet, all, Some(q), used, seen).Endless?
    ensures q in AllPointers() && q !in seen
    ensures var hop := ReadLabels(Drop(packet, q));
            Ahead(packet, all, Some(q), used, seen) ==
            if hop.Raises? then Exception
            else if used + |Join(hop.labels)| > MAX_NAME then TooLong
            else Ahead(packet, all + hop.labels, hop.pointer, used + |Join(hop.labels)|,
                       if hop.labels == [] then seen + {q} else {})
  {
    hide ReadLabels, Join, Drop;
    assert IsPointer(q);
    var hop := ReadLabels(Drop(packet, q));
    if hop.Stretch? && used + |Join(hop.labels)| <= MAX_NAME && hop.pointer.Some? {
      JoinNonEmpty(hop.labels);
      var t := Follow(packet, hop.pointer.value, used + |Join(hop.labels)|, if hop.labels == [] then seen + {q} else {});
      if t.Trail? {
        assert all + (hop.labels + t.labels) == all + hop.labels + t.labels;
      }
    }
  }

  lemma StartJoined(labels: seq<Bytes>, value: Bytes, parts: seq<Bytes>)
    requires forall l | l in labels :: l != []
    requires value == Join(labels) && parts == (if |value| != 0 then [value] else [])
    ensures Join(parts) == Join(labels) && (parts == [] <==> labels == []) && TotalLength(parts) == |value|
  {
    JoinNonEmpty(labels);
  }

  // ----- which names survive being written and read ------------------------------------------

  /** A label that is neither empty nor so long that its length reads as a pointer. */
  predicate GoodPart(p: Bytes) {
    1 <= |p| < COMPRESSED
  }

  predicate GoodName(s: Bytes) {
    forall p | p in Split(s) :: GoodPart(p)
  }

  lemma SplitStep(s: Bytes)
    ensures Split(s) == if FindDot(s) == |s| then [s] else [s[..FindDot(s)]] + Split(s[FindDot(s) + 1..])
  {
    hide FindDot;
    var n := FindDot(s);
  }

  /** The parts hold no dot, so they are the ones between the dots. */
  lemma {:induction false} PartsAreDotless(s: Bytes)
    ensures forall p | p in Split(s) :: DOT !in p
    decreases |s|
  {
    hide Split, FindDot;
    SplitStep(s);
    if FindDot(s) < |s| {
      PartsAreDotless(s[FindDot(s) + 1..]);
    }
  }

  lemma {:induction false} SplitWithDot(s: Bytes)
    ensures Split(s + [DOT]) == Split(s) + [[]]
    decreases |s|
  {
    hide Split, FindDot;
    var n := FindDot(s);
    FindDotWithDot(s);
    SplitStep(s);
    SplitStep(s + [DOT]);
    if n == |s| {
      assert (s + [DOT])[..n] == s && (s + [DOT])[n + 1..] == [];
      SplitNothing();
    } else {
      assert (s + [DOT])[..n] == s[..n] && (s + [DOT])[n + 1..] == s[n + 1..] + [DOT];
      SplitWithDot(s[n + 1..]);
    }
  }

  lemma SplitNothing()
    ensures Split([]) == [[]]
  {
  }

  lemma {:induction false} FindDotWithDot(s: Bytes)
    ensures FindDot(s + [DOT]) == FindDot(s)
  {
    if |s| > 0 && s[0] != DOT {
      assert (s + [DOT])[1..] == s[1..] + [DOT];
      FindDotWithDot(s[1..]);
    }
  }

  lemma {:induction false} JoinSplit(s: Bytes)
    ensures Join(Split(s)) == s
    decreases |s|
  {
    hide Split, FindDot, Join;
    SplitStep(s);
    var n := FindDot(s);
    if n == |s| {
      JoinOne(s);
    } else {
      JoinSplit(s[n + 1..]);
      JoinCons(s[..n], Split(s[n + 1..]));
      assert s == s[..n] + [DOT] + s[n + 1..];
    }
  }

  lemma JoinOne(p: Bytes)
    ensures Join([p]) == p
  {
  }

  lemma JoinCons(p: Bytes, parts: seq<Bytes>)
    requires |parts| > 0
    ensures Join([p] + parts) == p + [DOT] + Join(parts)
  {
    assert ([p] + parts)[1..] == parts;
  }

  /** Reading back written labels, with anything after them, finds all of them and stops at their end exactly
      when all of them are good. */
  lemma {:induction false} ReadWritten(parts: seq<Bytes>, rest: Bytes)
    requires WriteParts(parts + [[]]).Some?
    ensures var w := WriteParts(parts + [[]]).value;
            var r := ReadLabels(w + rest);
            && |w| > 0
            && ((r.Stretch? && r.read == Some(|w|) && r.pointer.None?) <==> forall p | p in parts :: GoodPart(p))
            && ((forall p | p in parts :: GoodPart(p)) ==> r.labels == parts)
    decreases |parts|
  {
    hide ReadLabels;
    var w := WriteParts(parts + [[]]).value;
    ReadStep(w + rest);
    if |parts| == 0 {
      assert (parts + [[]])[1..] == [] && (parts + [[]])[0] == [];
      assert w == [0];
    } else {
      var p := parts[0];
      assert (parts + [[]])[1..] == parts[1..] + [[]];
      var w' := WriteParts(parts[1..] + [[]]).value;
      assert w + rest == [|p|] + p + (w' + rest);
      ReadWritten(parts[1..], rest);
      if GoodPart(p) {
        assert (w + rest)[1..1 + |p|] == p;
        assert (w + rest)[1 + |p|..] == w' + rest;
        assert forall q :: q in parts <==> q == p || q in parts[1..];
      }
    }
  }

  lemma WriteNameParts(s: Bytes)
    ensures WriteName(s) == WriteParts(Split(StripDots(s)) + [[]])
  {
    SplitWithDot(StripDots(s));
  }

  lemma {:induction false} GoodIsWritable(parts: seq<Bytes>)
    requires forall p | p in parts :: GoodPart(p)
    ensures WriteParts(parts + [[]]).Some?
  {
    if |parts| > 0 {
      assert (parts + [[]])[1..] == parts[1..] + [[]];
      assert GoodPart(parts[0]);
      GoodIsWritable(parts[1..]);
    } else {
      assert (parts + [[]])[1..] == [] && (parts + [[]])[0] == [];
    }
  }

  lemma FinalDotIsBad(s: Bytes)
    requires s == [] || s[|s| - 1] == DOT
    ensures !GoodName(s)
  {
    if s == [] {
      SplitNothing();
      assert [] in Split(s);
    } else {
      SplitWithDot(s[..|s| - 1]);
      assert s == s[..|s| - 1] + [DOT];
      assert Split(s)[|Split(s)| - 1] == [];
      assert [] in Split(s);
    }
  }

  lemma GoodHasNoFinalDot(s: Bytes)
    requires GoodName(s)
    ensures s != [] && StripDots(s) == s
  {
    hide GoodName;
    if s == [] || s[|s| - 1] == DOT {
      FinalDotIsBad(s);
    }
  }

  /** The bytes written for a name are read back, to their last byte, as the same name. */
  predicate RoundTrips(s: Bytes) {
    WriteName(s).Some? &&
    var r := ReadLabels(WriteName(s).value);
    r.Stretch? && r.read == Some(|WriteName(s).value|) && r.pointer.None? && Join(r.labels) == s
  }

  /** A name survives exactly when it has no empty label (so it is not empty, and neither starts nor ends with
      a dot) and no label of 192 bytes or more; the writer accepts labels up to 255. */
  lemma NameRoundTripIff(s: Bytes)
    ensures RoundTrips(s) <==> GoodName(s)
  {
    hide ReadLabels, Split, WriteParts, Join;
    WriteNameParts(s);
    JoinSplit(StripDots(s));
    if RoundTrips(s) {
      ReadWritten(Split(StripDots(s)), []);
      assert WriteName(s).value + [] == WriteName(s).value;
    }
    if GoodName(s) {
      GoodHasNoFinalDot(s);
      GoodIsWritable(Split(s));
      ReadWritten(Split(s), []);
      assert WriteName(s).value + [] == WriteName(s).value;
    }
  }

  /** A surviving name inside a message: whatever follows it and whatever the message, it is read exactly. */
  lemma GoodNameRead(s: Bytes, rest: Bytes, packet: Bytes)
    requires GoodName(s)
    ensures WriteName(s).Some? && |WriteName(s).value| > 1 && WriteName(s).value[0] != 0
    ensures ReadLabels(WriteName(s).value + rest) == Stretch(Some(|WriteName(s).value|), Split(s), None)
    ensures NameTrail(WriteName(s).value + rest, packet) == Trail(Split(s)) && Join(Split(s)) == s && s != []
  {
    hide ReadLabels, Split, Join;
    WriteNameParts(s);
    GoodHasNoFinalDot(s);
    GoodIsWritable(Split(s));
    ReadWritten(Split(s), rest);
    JoinSplit(s);
    assert Split(s)[0] in Split(s);
    assert (Split(s) + [[]])[0] == Split(s)[0];
  }
}

/** What a compressed name on the wire means, from its bytes alone (section 4.1.4 of RFC 1035), and that the program
    reads exactly that. */
module DnsSpelling {
  import opened Wrappers
  import opened ByteStrings
  import opened DnsNames

  /** The data begins with a name of these labels: each is its length and its bytes; then comes a zero, or two bytes of
      which the upper two bits are set and the lower fourteen say where in the packet the rest is spelled, through
      `hops` pointers in all. */
  predicate Spells(packet: Bytes, s: Bytes, labels: seq<Bytes>, hops: nat)
    decreases hops, |labels|
  {
    if s == [] then false
    else if s[0] == 0 then labels == [] && hops == 0
    else if s[0] / 64 == 3 then
      && |s| >= 2 && hops > 0
      && var q: nat := (s[0] as int % 64) * 256 + s[1] as int;
         q <= |packet| && Spells(packet, packet[q..], labels, hops - 1)
    else
      && labels != [] && |s| > s[0] && labels[0] == s[1..1 + s[0]]
      && Spells(packet, s[1 + s[0]..], labels[1..], hops)
  }

  /** The name, up to the zero or the pointer, takes `n` bytes of the data. */
  predicate Occupies(s: Bytes, n: nat) {
    if s == [] then false
    else if s[0] == 0 then n == 1
    else if s[0] / 64 == 3 then n == 2
    else 1 + s[0] <= |s| && 1 + s[0] <= n && Occupies(s[1 + s[0]..], n - 1 - s[0])
  }

  // ----- one stretch ----------------------------------------------------------------------------

  /** The bytes up to the first pointer are the first labels, and the pointer spells the others. */
  lemma {:induction false} FirstStretch(packet: Bytes, s: Bytes, labels: seq<Bytes>, hops: nat, n: nat)
    returns (k: nat)
    requires Spells(packet, s, labels, hops) && Occupies(s, n)
    ensures k <= |labels|
    ensures var r := ReadLabels(s);
            && r.Stretch? && r.read == Some(n) && r.labels == labels[..k]
            && (if r.pointer.None? then k == |labels| && hops == 0
                else hops > 0 && r.pointer.value <= |packet| &&
                     Spells(packet, packet[r.pointer.value..], labels[k..], hops - 1))
    decreases |labels|
  {
    hide ReadLabels;
    ReadStep(s);
    k := 0;
    if s[0] == 0 || s[0] / 64 == 3 {
      assert labels[0..] == labels;
    } else {
      var rest := s[1 + s[0]..];
      k := FirstStretch(packet, rest, labels[1..], hops, n - 1 - s[0]);
      assert [labels[0]] + labels[1..][..k] == labels[..k + 1];
      assert labels[1..][k..] == labels[k + 1..];
      k := k + 1;
    }
  }

  lemma {:induction false} SpelledOccupies(packet: Bytes, s: Bytes, labels: seq<Bytes>, hops: nat) returns (n: nat)
    requires Spells(packet, s, labels, hops)
    ensures Occupies(s, n) && n > 0
    decreases |labels|
  {
    if s[0] == 0 {
      n := 1;
    } else if s[0] / 64 == 3 {
      n := 2;
    } else {
      n := SpelledOccupies(packet, s[1 + s[0]..], labels[1..], hops);
      n := n + 1 + s[0];
    }
  }

  // ----- the rounds of the program ----------------------------------------------------------------

  lemma {:induction false} JoinLength(a: seq<Bytes>, b: seq<Bytes>)
    ensures |Join(a)| + |Join(b)| <= |Join(a + b)| <= |Join(a)| + |Join(b)| + 1
  {
    JoinConcat(a, b);
  }

  /** What one round reads of a spelled name, and what is left of it. */
  lemma OneRound(packet: Bytes, s: Bytes, labels: seq<Bytes>, hops: nat) returns (first: seq<Bytes>, others: seq<Bytes>)
    requires Spells(packet, s, labels, hops)
    ensures first + others == labels
    ensures |Join(first)| + |Join(others)| <= |Join(labels)| <= |Join(first)| + |Join(others)| + 1
    ensures var r := ReadLabels(s);
            && r.Stretch? && r.labels == first
            && (if r.pointer.None? then first == labels && hops == 0
                else hops > 0 && r.pointer.value <= |packet| &&
                     Spells(packet, packet[r.pointer.value..], others, hops - 1))
  {
    hide ReadLabels, Join, Spells, Occupies;
    var n := SpelledOccupies(packet, s, labels, hops);
    var k := FirstStretch(packet, s, labels, hops, n);
    first, others := labels[..k], labels[k..];
    assert first + others == labels;
    JoinLength(first, others);
    assert k == |labels| ==> first == labels;
  }

  /** A name within the limit is found after as many rounds as there are pointers, and one more. */
  lemma {:induction false} SpelledIsFound(packet: Bytes, q: nat, labels: seq<Bytes>, hops: nat, used: nat)
    requires q <= |packet| && q < OFFSETS && Spells(packet, packet[q..], labels, hops)
    requires used + |Join(labels)| <= 500
    ensures Rounds(packet, q, used, hops + 1) == Trail(labels)
    decreases hops
  {
    hide ReadLabels, Join, Spells;
    var first, others := OneRound(packet, packet[q..], labels, hops);
    var r := ReadLabels(Drop(packet, q));
    if r.pointer.Some? {
      SpelledIsFound(packet, r.pointer.value, others, hops - 1, used + |Join(first)|);
    }
  }

  /** A name over the limit is refused in time. */
  lemma {:induction false} LongIsRefused(packet: Bytes, q: nat, labels: seq<Bytes>, hops: nat, used: nat)
    requires q <= |packet| && q < OFFSETS && used <= 500 && Spells(packet, packet[q..], labels, hops)
    requires used + |Join(labels)| > 500 + hops
    ensures Rounds(packet, q, used, hops + 1) == TooLong
    decreases hops
  {
    hide ReadLabels, Join, Spells;
    var first, others := OneRound(packet, packet[q..], labels, hops);
    var r := ReadLabels(Drop(packet, q));
    if r.pointer.Some? && used + |Join(first)| <= 500 {
      LongIsRefused(packet, r.pointer.value, others, hops - 1, used + |Join(first)|);
    }
  }

  /** More rounds change nothing. */
  lemma {:induction false} RoundsAreStable(packet: Bytes, q: nat, used: nat, fuel: nat, more: nat)
    requires q < OFFSETS && used <= MAX_NAME && fuel <= more && !Rounds(packet, q, used, fuel).Endless?
    ensures Rounds(packet, q, used, more) == Rounds(packet, q, used, fuel)
    decreases fuel
  {
    hide ReadLabels, Join;
    var r := ReadLabels(Drop(packet, q));
    if r.Stretch? && used + |Join(r.labels)| <= MAX_NAME && r.pointer.Some? {
      RoundsAreStable(packet, r.pointer.value, used + |Join(r.labels)|, fuel - 1, more - 1);
    }
  }

  lemma RoundsAreFollowed(packet: Bytes, q: nat, used: nat, fuel: nat)
    requires q < OFFSETS && used <= MAX_NAME && !Rounds(packet, q, used, fuel).Endless?
    ensures Follow(packet, q, used, {}) == Rounds(packet, q, used, fuel)
  {
    hide Rounds, Follow;
    LoopEndsIff(packet, q, used);
    var n: nat :| Rounds(packet, q, used, n) == Follow(packet, q, used, {});
    if n <= fuel {
      RoundsAreStable(packet, q, used, n, fuel);
    } else {
      RoundsAreStable(packet, q, used, fuel, n);
    }
  }

  // ----- the name as the program reads it -----------------------------------------------------------

  /** Every name of at most 500 bytes is read as its labels, wherever its pointers lead, and accounted for up to its
      first pointer or its end; a name that is longer by more than its pointers, and has some, is refused. */
  lemma SpelledIsRead(packet: Bytes, s: Bytes, labels: seq<Bytes>, hops: nat)
    requires Spells(packet, s, labels, hops)
    ensures |Join(labels)| <= 500 || hops == 0 ==> NameTrail(s, packet) == Trail(labels)
    ensures |Join(labels)| > 500 + hops && hops > 0 ==> NameTrail(s, packet) == TooLong
    ensures forall n: nat | Occupies(s, n) :: ReadLabels(s).Stretch? && ReadLabels(s).read == Some(n)
  {
    hide ReadLabels, Join, Spells, Follow, Occupies, Rounds;
    forall m: nat | Occupies(s, m)
      ensures ReadLabels(s).Stretch? && ReadLabels(s).read == Some(m)
    {
      var _ := FirstStretch(packet, s, labels, hops, m);
    }
    var first, others := OneRound(packet, s, labels, hops);
    var r := ReadLabels(s);
    if r.pointer.Some? {
      RestIsFollowed(packet, r.pointer.value, others, hops - 1, |Join(first)|, |Join(labels)|);
    }
  }

  lemma RestIsFollowed(packet: Bytes, q: nat, others: seq<Bytes>, hops: nat, used: nat, all: nat)
    requires q <= |packet| && q < OFFSETS && Spells(packet, packet[q..], others, hops)
    requires used + |Join(others)| <= all <= used + |Join(others)| + 1
    ensures all <= 500 ==> Follow(packet, q, used, {}) == Trail(others)
    ensures all > 501 + hops && used <= 500 ==> Follow(packet, q, used, {}) == TooLong
    ensures !ReadLabels(Drop(packet, q)).Raises?
  {
    hide ReadLabels, Join, Spells, Follow, Rounds;
    var _, _ := OneRound(packet, packet[q..], others, hops);
    if all <= 500 {
      SpelledIsFound(packet, q, others, hops, used);
      RoundsAreFollowed(packet, q, used, hops + 1);
    } else if all > 501 + hops && used <= 500 {
      LongIsRefused(packet, q, others, hops, used);
      RoundsAreFollowed(packet, q, used, hops + 1);
    }
  }

  // ----- writing ----------------------------------------------------------------------------------

  /** Written labels, if they are good, spell themselves without a pointer, whatever follows. */
  lemma {:induction false} WrittenSpells(parts: seq<Bytes>, rest: Bytes, packet: Bytes)
    requires WriteParts(parts + [[]]).Some? && forall p | p in parts :: GoodPart(p)
    ensures var w := WriteParts(parts + [[]]).value;
            Spells(packet, w + rest, parts, 0) && Occupies(w + rest, |w|)
    decreases |parts|
  {
    hide Spells, Occupies;
    var w := WriteParts(parts + [[]]).value;
    if |parts| == 0 {
      assert (parts + [[]])[1..] == [] && (parts + [[]])[0] == [];
      assert w == [0];
      EmptyIsSpelled(rest, packet);
    } else {
      var p := parts[0];
      assert GoodPart(p);
      assert (parts + [[]])[1..] == parts[1..] + [[]];
      var more := WriteParts(parts[1..] + [[]]).value;
      assert w + rest == [|p|] + p + (more + rest);
      WrittenSpells(parts[1..], rest, packet);
      OneMoreLabel(packet, p, more + rest, parts[1..], 0, |more|);
      assert [p] + parts[1..] == parts;
    }
  }

  lemma EmptyIsSpelled(rest: Bytes, packet: Bytes)
    ensures Spells(packet, [0] + rest, [], 0) && Occupies([0] + rest, 1)
  {
  }

  lemma OneMoreLabel(packet: Bytes, p: Bytes, more: Bytes, labels: seq<Bytes>, hops: nat, n: nat)
    requires GoodPart(p) && Spells(packet, more, labels, hops) && Occupies(more, n)
    ensures var s := [|p|] + p + more;
            Spells(packet, s, [p] + labels, hops) && Occupies(s, 1 + |p| + n)
  {
    var s := [|p|] + p + more;
    assert s[1..1 + |p|] == p && s[1 + |p|..] == more;
    assert ([p] + labels)[1..] == labels;
  }

  /** Labels written before a pointer, to where other labels are spelled, spell both. */
  lemma {:induction false} PointerSpells(front: seq<Bytes>, q: nat, rest: Bytes, packet: Bytes, labels: seq<Bytes>,
                                         hops: nat)
    requires WriteParts(front).Some? && forall p | p in front :: GoodPart(p)
    requires q < 0x4000 && q <= |packet| && Spells(packet, packet[q..], labels, hops)
    ensures var s := WriteParts(front).value + [0xc0 + q / 256, q % 256] + rest;
            && Spells(packet, s, front + labels, hops + 1)
            && Occupies(s, |WriteParts(front).value| + 2)
    decreases |front|
  {
    hide Spells, Occupies;
    var pointer := [0xc0 + q / 256, q % 256];
    var s := WriteParts(front).value + pointer + rest;
    if |front| == 0 {
      assert front + labels == labels && s == pointer + rest;
      BarePointerSpells(q, rest, packet, labels, hops);
    } else {
      var p := front[0];
      assert GoodPart(p);
      var more := WriteParts(front[1..]).value + pointer + rest;
      assert s == [|p|] + p + more;
      PointerSpells(front[1..], q, rest, packet, labels, hops);
      OneMoreLabel(packet, p, more, front[1..] + labels, hops + 1, |WriteParts(front[1..]).value| + 2);
      assert [p] + (front[1..] + labels) == front + labels;
    }
  }

  lemma BarePointerSpells(q: nat, rest: Bytes, packet: Bytes, labels: seq<Bytes>, hops: nat)
    requires q < 0x4000 && q <= |packet| && Spells(packet, packet[q..], labels, hops)
    ensures var s := [0xc0 + q / 256, q % 256] + rest;
            Spells(packet, s, labels, hops + 1) && Occupies(s, 2)
  {
    var s := [0xc0 + q / 256, q % 256] + rest;
    PointerBits(q);
    assert s[0] == 0xc0 + q / 256 && s[1] == q % 256;
  }

  lemma PointerBits(q: nat)
    requires q < 0x4000
    ensures (0xc0 + q / 256) / 64 == 3 && (0xc0 + q / 256) % 64 * 256 + q % 256 == q
  {
  }

  // ----- names that are cut short, and names that cannot be written -------------------------------------

  /** Of a written name that is cut short nothing is read, wherever it is cut. */
  lemma {:induction false} CutNameIsNotRead(parts: seq<Bytes>, cut: nat)
    requires WriteParts(parts + [[]]).Some? && forall p | p in parts :: GoodPart(p)
    requires 0 < cut < |WriteParts(parts + [[]]).value|
    ensures ReadLabels(WriteParts(parts + [[]]).value[..cut]) == Stretch(None, [], None)
    decreases |parts|
  {
    hide ReadLabels;
    var w := WriteParts(parts + [[]]).value;
    var s := w[..cut];
    ReadStep(s);
    if |parts| == 0 {
      OneZero(parts);
    } else {
      var p := parts[0];
      assert GoodPart(p) && (parts + [[]])[1..] == parts[1..] + [[]];
      var more := WriteParts(parts[1..] + [[]]).value;
      assert w == [|p|] + p + more;
      if cut > |p| + 1 {
        assert s[1 + |p|..] == more[..cut - 1 - |p|];
        CutNameIsNotRead(parts[1..], cut - 1 - |p|);
      }
    }
  }

  lemma OneZero(parts: seq<Bytes>)
    requires |parts| == 0
    ensures WriteParts(parts + [[]]) == Some([0])
  {
    assert (parts + [[]])[1..] == [] && (parts + [[]])[0] == [];
    var w: Bytes := [0] + [] + [];
    assert WriteParts((parts + [[]])[1..]) == Some([]) && w == [0];
  }

  /** Labels before the first half of a pointer raise an exception. */
  lemma {:induction false} HalfPointerRaises(front: seq<Bytes>, half: byte)
    requires WriteParts(front).Some? && (forall p | p in front :: GoodPart(p)) && half >= 192
    ensures ReadLabels(WriteParts(front).value + [half]).Raises?
    decreases |front|
  {
    hide ReadLabels;
    var s := WriteParts(front).value + [half];
    ReadStep(s);
    if |front| == 0 {
      assert s == [half];
    } else {
      var p := front[0];
      assert GoodPart(p);
      var more := WriteParts(front[1..]).value + [half];
      assert s == [|p|] + p + more;
      assert s[1 + |p|..] == more;
      HalfPointerRaises(front[1..], half);
    }
  }

  /** A name can be written if and only if no part of it has more than 255 bytes. */
  lemma WritableIff(s: Bytes)
    ensures WriteName(s).Some? <==> forall p | p in Split(StripDots(s)) :: |p| <= 255
  {
    hide Split, WriteParts;
    WriteNameParts(s);
    PartsWritableIff(Split(StripDots(s)));
  }

  lemma {:induction false} PartsWritableIff(parts: seq<Bytes>)
    ensures WriteParts(parts + [[]]).Some? <==> forall p | p in parts :: |p| <= 255
    decreases |parts|
  {
    if |parts| == 0 {
      assert (parts + [[]])[1..] == [] && (parts + [[]])[0] == [];
    } else {
      assert (parts + [[]])[1..] == parts[1..] + [[]];
      PartsWritableIff(parts[1..]);
      assert forall p :: p in parts <==> p == parts[0] || p in parts[1..];
    }
  }

  function Dots(n: nat): Bytes {
    if n == 0 then [] else Dots(n - 1) + [DOT]
  }

  /** Dots at the end of a name make no difference to what is written, and nothing else is left out. */
  lemma {:induction false} FinalDotsDoNotCount(s: Bytes, n: nat)
    requires s == [] || s[|s| - 1] != DOT
    ensures StripDots(s + Dots(n)) == s && WriteName(s + Dots(n)) == WriteName(s)
    decreases n
  {
    hide Split, WriteParts, StripDots;
    if n == 0 {
      assert s + [] == s;
      NoFinalDot(s);
    } else {
      FinalDotsDoNotCount(s, n - 1);
      assert s + Dots(n) == s + Dots(n - 1) + [DOT];
      OneFinalDot(s + Dots(n - 1));
    }
  }

  lemma NoFinalDot(s: Bytes)
    requires s == [] || s[|s| - 1] != DOT
    ensures StripDots(s) == s
  {
  }

  lemma OneFinalDot(s: Bytes)
    ensures StripDots(s + [DOT]) == StripDots(s)
  {
    assert (s + [DOT])[..|s|] == s;
  }
}

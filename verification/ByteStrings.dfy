/** Python byte strings as sequences of bytes, and 16-bit numbers in network order. */
module ByteStrings {
  type byte = b: int | 0 <= b < 0x100
  type Bytes = seq<byte>

  /** The slice `s[n:]`. */
  function Drop(s: Bytes, n: nat): Bytes {
    if n <= |s| then s[n..] else []
  }

  /** The slice `s[:n]`. */
  function Take(s: Bytes, n: nat): Bytes {
    if n <= |s| then s[..n] else s
  }

  function U16(n: nat): Bytes
    requires n < 0x10000
  {
    [n / 256, n % 256]
  }

  function ReadU16(s: Bytes): nat
    requires |s| >= 2
  {
    s[0] as int * 256 + s[1] as int
  }

  /** The number that bytes in network order stand for. */
  function BigEndian(s: Bytes): nat {
    if s == [] then 0 else BigEndian(s[..|s| - 1]) * 256 + s[|s| - 1] as int
  }

  lemma BigEndianNext(s: Bytes, b: byte)
    ensures BigEndian(s + [b]) == BigEndian(s) * 256 + b as int
  {
    assert (s + [b])[..|s|] == s;
  }

  lemma U16IsBigEndian(n: nat)
    requires n < 0x10000
    ensures |U16(n)| == 2 && BigEndian(U16(n)) == n
  {
    BigEndianNext([], n / 256);
    BigEndianNext([n / 256], n % 256);
    assert [] + [n / 256] == [n / 256] && [n / 256] + [n % 256] == U16(n);
  }

  lemma ReadU16IsBigEndian(s: Bytes)
    requires |s| >= 2
    ensures ReadU16(s) == BigEndian(s[..2])
  {
    BigEndianNext([], s[0]);
    BigEndianNext([s[0]], s[1]);
    assert [] + [s[0]] == [s[0]] && [s[0]] + [s[1]] == s[..2];
  }

  lemma U16RoundTrip(n: nat, rest: Bytes)
    requires n < 0x10000
    ensures |U16(n)| == 2 && ReadU16(U16(n) + rest) == n && Drop(U16(n) + rest, 2) == rest
  {
    assert (U16(n) + rest)[2..] == rest;
  }
}

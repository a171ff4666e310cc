/** Python's `min`, `max`, `list.index` and list removal. */
module Basics {
  function Min(a: int, b: int): int { if a < b then a else b }
  function Max(a: int, b: int): int { if a < b then b else a }

  /** The first place of an element. */
  function IndexOf<T(==)>(s: seq<T>, x: T): (i: nat)
    requires x in s
    ensures i < |s| && s[i] == x
  {
    if s[0] == x then 0 else 1 + IndexOf(s[1..], x)
  }

  /** `list.remove` on a list that may not hold the element. */
  function Without<T(==)>(s: seq<T>, x: T): (r: seq<T>)
    ensures x !in s ==> r == s
  {
    if x in s then s[..IndexOf(s, x)] + s[IndexOf(s, x) + 1..] else s
  }

  /** The search for the element, and its removal. */
  method Remove<T(==)>(s: seq<T>, x: T) returns (r: seq<T>)
    ensures r == Without(s, x)
  {
    if x !in s {
      return s;
    }
    ghost var n := IndexOf(s, x);
    IsFirst(s, x);
    var i := 0;
    while s[i] != x
      invariant i <= n
      decreases n - i
    {
      i := i + 1;
    }
    r := s[..i] + s[i + 1..];
  }

  lemma {:induction false} IsFirst<T>(s: seq<T>, x: T)
    requires x in s
    ensures forall j | 0 <= j < IndexOf(s, x) :: s[j] != x
  {
    if s[0] == x {
    } else {
      IsFirst(s[1..], x);
      assert forall j | 1 <= j < |s| :: s[j] == s[1..][j - 1];
    }
  }

  lemma WithoutCounts<T>(s: seq<T>, x: T)
    ensures multiset(Without(s, x)) == multiset(s) - multiset{x}
  {
    hide IndexOf;
    if x in s {
      CutCounts(s, IndexOf(s, x));
    }
  }

  lemma CutCounts<T>(s: seq<T>, i: nat)
    requires i < |s|
    ensures multiset(s[..i] + s[i + 1..]) == multiset(s) - multiset{s[i]}
  {
    var (front, back) := (s[..i], s[i + 1..]);
    assert s == front + [s[i]] + back;
    assert multiset(front + [s[i]] + back) == multiset(front) + multiset{s[i]} + multiset(back);
  }
}

/** Queues kept in a ring of fixed size. */
module Rings {
  // The count entries of ring s from index head on, around its end
  ghost function Unrolled<T>(s: seq<T>, head: nat, count: nat): (r: seq<T>)
    requires head < |s| && count <= |s|
    ensures |r| == count
  {
    if head + count <= |s| then s[head..head + count] else s[head..] + s[..head + count - |s|]
  }

  // Index i, less than twice around the ring
  function Wrapped(i: nat, n: nat): nat
    requires i < 2 * n
  {
    if i < n then i else i - n
  }

  // That is how the code's remainder works out.
  lemma Wraps(i: nat, n: nat)
    requires i < 2 * n
    ensures i % n == Wrapped(i, n)
  {
    if i >= n {
      assert i == n * 1 + (i - n);
    }
  }

  // The next index
  function Step(i: nat, n: nat): (r: nat)
    requires i < n
    ensures r == Wrapped(i + 1, n)
  {
    Wraps(i + 1, n);
    (i + 1) % n
  }

  // Writing behind the last entry
  lemma UnrolledPush<T>(s: seq<T>, head: nat, count: nat, x: T)
    requires head < |s| && count < |s|
    ensures Unrolled(s[Wrapped(head + count, |s|) := x], head, count + 1) == Unrolled(s, head, count) + [x]
  {
  }

  lemma UnrolledPop<T>(s: seq<T>, head: nat, count: nat)
    requires head < |s| && 0 < count <= |s|
    ensures [s[head]] + Unrolled(s, Wrapped(head + 1, |s|), count - 1) == Unrolled(s, head, count)
  {
    hide Unrolled;
    if head + count <= |s| {
      PopInside(s, head, count);
    } else if head + 1 == |s| {
      PopAtEnd(s, count);
    } else {
      PopAround(s, head, count);
    }
  }

  lemma PopInside<T>(s: seq<T>, head: nat, count: nat)
    requires 0 < count && head + count <= |s|
    ensures [s[head]] + Unrolled(s, Wrapped(head + 1, |s|), count - 1) == Unrolled(s, head, count)
  {
    assert s[head..head + count] == [s[head]] + s[head + 1..head + count];
  }

  lemma PopAtEnd<T>(s: seq<T>, count: nat)
    requires 1 < count <= |s|
    ensures [s[|s| - 1]] + Unrolled(s, 0, count - 1) == Unrolled(s, |s| - 1, count)
  {
  }

  lemma PopAround<T>(s: seq<T>, head: nat, count: nat)
    requires head + 1 < |s| < head + count && count <= |s|
    ensures [s[head]] + Unrolled(s, head + 1, count - 1) == Unrolled(s, head, count)
  {
    assert s[head..] == [s[head]] + s[head + 1..];
  }
}

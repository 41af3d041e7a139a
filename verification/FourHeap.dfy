/** The 4-ary timer heap: keys are cached in the slots, and every watcher knows its own slot. */
module FourHeap {
  import opened Watchers

  const DHEAP := 4
  const HEAP0 := DHEAP - 1

  // A heap slot: the cached key and the watcher.
  datatype Slot = Slot(at: real, w: Watcher)

  // Division as in C, truncating toward zero.
  function CDiv(a: int, b: int): int
    requires b > 0
  {
    if a >= 0 then a / b else -((-a) / b)
  }

  function Parent(k: int): int {
    CDiv(k - HEAP0 - 1, DHEAP) + HEAP0
  }

  function FirstChild(k: int): int {
    DHEAP * (k - HEAP0) + HEAP0 + 1
  }

  // The parent macro inverts the child expression, and maps the root to itself only because C rounds toward zero.
  lemma ParentOfChild(i: int, p: int)
    requires i > HEAP0 && p >= HEAP0
    ensures Parent(i) == p <==> FirstChild(p) <= i < FirstChild(p) + DHEAP
    ensures HEAP0 <= Parent(i) < i
    ensures Parent(HEAP0) == HEAP0
    ensures (HEAP0 - HEAP0 - 1) / DHEAP + HEAP0 != HEAP0
  {}

  ghost predicate Edge(s: seq<Slot>, i: int)
    requires HEAP0 < i < |s|
  {
    s[Parent(i)].at <= s[i].at
  }

  // The library's own heap condition.
  ghost predicate Ordered(s: seq<Slot>, n: nat)
    requires n + HEAP0 <= |s|
  {
    forall i :: HEAP0 < i < n + HEAP0 ==> Edge(s, i)
  }

  // Ordered except for the edges that touch slot k; its parent is still below its children.
  ghost predicate OrderedBut(s: seq<Slot>, n: nat, k: int)
    requires HEAP0 <= k && n + HEAP0 <= |s|
  {
    && (forall i :: HEAP0 < i < n + HEAP0 && i != k && Parent(i) != k ==> Edge(s, i))
    && (k > HEAP0 ==> forall i :: HEAP0 < i < n + HEAP0 && Parent(i) == k ==> s[Parent(k)].at <= s[i].at)
  }

  ghost predicate ChildrenAbove(s: seq<Slot>, n: nat, k: int)
    requires HEAP0 <= k && n + HEAP0 <= |s|
  {
    forall i :: HEAP0 < i < n + HEAP0 && Parent(i) == k ==> Edge(s, i)
  }

  // Slots HEAP0..HEAP0+n hold exactly the watchers of `keys`, once each, with those keys cached;
  // every watcher but the one in slot k points back to its slot.
  ghost predicate HoldsBut(s: seq<Slot>, n: nat, k: int, keys: map<Watcher, real>)
    reads (set w | w in keys)`active
    requires n + HEAP0 <= |s|
  {
    && (forall i :: HEAP0 <= i < n + HEAP0 ==> s[i].w in keys && s[i].at == keys[s[i].w])
    && (forall i :: HEAP0 <= i < n + HEAP0 && i != k ==> s[i].w.active == i)
    && (HEAP0 <= k < n + HEAP0 ==> forall i :: HEAP0 <= i < n + HEAP0 && i != k ==> s[i].w != s[k].w)
    && (forall w :: w in keys && !(HEAP0 <= k < n + HEAP0 && w == s[k].w) ==>
          HEAP0 <= w.active < n + HEAP0 && s[w.active].w == w)
  }

  // The heap is the finite map `keys`: back-pointers and slots are a bijection.
  ghost predicate Holds(s: seq<Slot>, n: nat, keys: map<Watcher, real>)
    reads (set w | w in keys)`active
    requires n + HEAP0 <= |s|
  {
    HoldsBut(s, n, -1, keys)
  }

  // One step of UpHeap on the ordering: the parent moves down into the hole, the hole moves up.
  lemma UpStep(s: seq<Slot>, n: nat, k: int, he: Slot)
    requires HEAP0 < k < n + HEAP0 <= |s| && s[k] == he
    requires OrderedBut(s, n, k) && ChildrenAbove(s, n, k)
    requires he.at < s[Parent(k)].at
    ensures HEAP0 <= Parent(k) < k
    ensures OrderedBut(s[k := s[Parent(k)]][Parent(k) := he], n, Parent(k))
    ensures ChildrenAbove(s[k := s[Parent(k)]][Parent(k) := he], n, Parent(k))
  {
    var p := Parent(k);
    ParentOfChild(k, p);
    var t := s[k := s[p]][p := he];
    forall i | HEAP0 < i < n + HEAP0
      ensures i != p && Parent(i) != p ==> Edge(t, i)
      ensures Parent(i) == p ==> Edge(t, i)
      ensures p > HEAP0 && Parent(i) == p ==> t[Parent(p)].at <= t[i].at
    {
      ParentOfChild(i, p);
      ParentOfChild(i, k);
      assert i != k && Parent(i) != k ==> Edge(s, i);
      if p > HEAP0 {
        ParentOfChild(p, Parent(p));
        ParentOfChild(p, k);
        assert Edge(s, p);
      }
    }
  }

  // The hole at k closes when its own edges hold.
  lemma HoleCloses(s: seq<Slot>, n: nat, k: int)
    requires HEAP0 <= k < n + HEAP0 <= |s|
    requires OrderedBut(s, n, k) && ChildrenAbove(s, n, k)
    requires k > HEAP0 ==> Edge(s, k)
    ensures Ordered(s, n)
  {
  }

  // Copies slot p over the hole at k, so that the hole, meant for `he`, moves to p.
  method MoveHole(heap: array<Slot>, k: int, p: int, ghost he: Slot, ghost n: nat, ghost keys: map<Watcher, real>)
    requires HEAP0 <= k < n + HEAP0 <= heap.Length && HEAP0 <= p < n + HEAP0 && p != k
    requires HoldsBut(heap[..][k := he], n, k, keys)
    modifies heap, (set w | w in keys)`active
    ensures heap[..] == old(heap[..])[k := old(heap[p])]
    ensures heap[..][p := he] == old(heap[..][k := he])[k := old(heap[p])][p := he]
    ensures HoldsBut(heap[..][p := he], n, p, keys)
  {
    ghost var s := heap[..][k := he];
    assert s[p] == heap[p];
    heap[k] := heap[p];
    heap[k].w.active := k;
    assert heap[..][p := he] == s[k := s[p]][p := he];
  }

  method FillHole(heap: array<Slot>, k: int, he: Slot, ghost n: nat, ghost keys: map<Watcher, real>)
    requires HEAP0 <= k < n + HEAP0 <= heap.Length
    requires HoldsBut(heap[..][k := he], n, k, keys)
    modifies heap, (set w | w in keys)`active
    ensures heap[..] == old(heap[..])[k := he]
    ensures Holds(heap[..], n, keys)
  {
    assert heap[..][k := he][k] == he;
    heap[k] := he;
    he.w.active := k;
  }

  // Towards the root.
  // Only the first m slots need be ordered.
  method UpHeap(heap: array<Slot>, k0: int, ghost m: nat, ghost n: nat, ghost keys: map<Watcher, real>)
    requires HEAP0 <= k0 < m + HEAP0 <= n + HEAP0 <= heap.Length
    requires HoldsBut(heap[..], n, k0, keys)
    requires OrderedBut(heap[..], m, k0) && ChildrenAbove(heap[..], m, k0)
    modifies heap, (set w | w in keys)`active
    ensures Holds(heap[..], n, keys) && Ordered(heap[..], m)
    ensures forall i :: 0 <= i < heap.Length && !(HEAP0 <= i < n + HEAP0) ==> heap[i] == old(heap[i])
  {
    hide HoldsBut, OrderedBut, ChildrenAbove, Ordered;
    var k, he := k0, heap[k0];
    ghost var s := heap[..];
    while true
      invariant HEAP0 <= k < m + HEAP0
      invariant s == heap[..][k := he]
      invariant HoldsBut(s, n, k, keys)
      invariant OrderedBut(s, m, k) && ChildrenAbove(s, m, k)
      invariant forall i :: 0 <= i < heap.Length && !(HEAP0 <= i < n + HEAP0) ==> heap[i] == old(heap[i])
      decreases k
    {
      var p := Parent(k);
      if k > HEAP0 { ParentOfChild(k, p); }
      assert HEAP0 <= p <= k;
      if p == k || heap[p].at <= he.at {
        break;
      }
      assert s[p] == heap[p] && s[k] == he;
      UpStep(s, m, k, he);
      MoveHole(heap, k, p, he, n, keys);
      s := s[k := s[p]][p := he];
      k := p;
    }
    HoleCloses(s, m, k);
    FillHole(heap, k, he, n, keys);
  }

  // One step of DownHeap on the ordering: the least child moves up into the hole, the hole moves down.
  lemma DownStep(s: seq<Slot>, n: nat, k: int, c: int, he: Slot)
    requires HEAP0 <= k && HEAP0 < c < n + HEAP0 <= |s| && Parent(c) == k && k < c && s[k] == he
    requires OrderedBut(s, n, k) && (k > HEAP0 ==> Edge(s, k))
    requires s[c].at < he.at
    requires forall i :: HEAP0 < i < n + HEAP0 && Parent(i) == k ==> s[c].at <= s[i].at
    ensures OrderedBut(s[k := s[c]][c := he], n, c) && Edge(s[k := s[c]][c := he], c)
  {
    var t := s[k := s[c]][c := he];
    forall i | HEAP0 < i < n + HEAP0
      ensures i != c && Parent(i) != c ==> Edge(t, i)
      ensures Parent(i) == c ==> t[Parent(c)].at <= t[i].at
    {
      ParentOfChild(i, k);
      ParentOfChild(i, c);
      if i != k && Parent(i) != k {
        assert Edge(s, i);
      }
      if i == k {
        assert Edge(s, k);
      }
    }
  }

  // The least of the children pos..pos+DHEAP that exist, the first of them on a tie.
  method MinChild(heap: array<Slot>, end: int, pos: int) returns (minpos: int)
    requires 0 <= pos < end <= heap.Length
    ensures pos <= minpos < pos + DHEAP && minpos < end
    ensures forall i :: pos <= i < pos + DHEAP && i < end ==> heap[minpos].at <= heap[i].at
    ensures forall i :: pos <= i < minpos ==> heap[minpos].at < heap[i].at
  {
    minpos := pos;
    var minat := heap[minpos].at;
    if pos + DHEAP - 1 < end {
      if heap[pos + 1].at < minat { minpos := pos + 1; minat := heap[minpos].at; }
      if heap[pos + 2].at < minat { minpos := pos + 2; minat := heap[minpos].at; }
      if heap[pos + 3].at < minat { minpos := pos + 3; minat := heap[minpos].at; }
    } else {
      if pos + 1 < end && heap[pos + 1].at < minat { minpos := pos + 1; minat := heap[minpos].at; }
      if pos + 2 < end && heap[pos + 2].at < minat { minpos := pos + 2; minat := heap[minpos].at; }
      // the fourth child cannot exist here, so the C code's test for it is dead
    }
  }

  // What DownHeap does at the end of its walk: no child, or none below `he`.
  lemma WalkEnds(h: seq<Slot>, n: nat, k: int, he: Slot)
    requires HEAP0 <= k < n + HEAP0 <= |h|
    requires forall i :: FirstChild(k) <= i < FirstChild(k) + DHEAP && i < n + HEAP0 ==> he.at <= h[i].at
    requires OrderedBut(h[k := he], n, k) && (k > HEAP0 ==> Edge(h[k := he], k))
    ensures Ordered(h[k := he], n)
  {
    forall i | HEAP0 < i < n + HEAP0 && Parent(i) == k ensures Edge(h[k := he], i) { ParentOfChild(i, k); }
    HoleCloses(h[k := he], n, k);
  }

  lemma WalkGoesOn(h: seq<Slot>, n: nat, k: int, c: int, he: Slot)
    requires HEAP0 <= k < n + HEAP0 <= |h| && FirstChild(k) <= c < FirstChild(k) + DHEAP && c < n + HEAP0
    requires forall i :: FirstChild(k) <= i < FirstChild(k) + DHEAP && i < n + HEAP0 ==> h[c].at <= h[i].at
    requires h[c].at < he.at
    requires OrderedBut(h[k := he], n, k) && (k > HEAP0 ==> Edge(h[k := he], k))
    ensures k < c
    ensures OrderedBut(h[k := h[c]][c := he], n, c) && Edge(h[k := h[c]][c := he], c)
  {
    var s := h[k := he];
    ParentOfChild(c, k);
    forall i | HEAP0 < i < n + HEAP0 && Parent(i) == k ensures s[c].at <= s[i].at { ParentOfChild(i, k); }
    DownStep(s, n, k, c, he);
    assert s[k := s[c]][c := he] == h[k := h[c]][c := he];
  }

  // Away from the root.
  method DownHeap(heap: array<Slot>, n: nat, k0: int, ghost keys: map<Watcher, real>)
    requires HEAP0 <= k0 < n + HEAP0 <= heap.Length
    requires HoldsBut(heap[..], n, k0, keys)
    requires OrderedBut(heap[..], n, k0) && (k0 > HEAP0 ==> Edge(heap[..], k0))
    modifies heap, (set w | w in keys)`active
    ensures Holds(heap[..], n, keys) && Ordered(heap[..], n)
    ensures forall i :: 0 <= i < heap.Length && !(HEAP0 <= i < n + HEAP0) ==> heap[i] == old(heap[i])
  {
    hide HoldsBut, OrderedBut, Ordered;
    var k, he := k0, heap[k0];
    assert heap[..][k := he] == heap[..];
    while true
      invariant HEAP0 <= k < n + HEAP0
      invariant HoldsBut(heap[..][k := he], n, k, keys)
      invariant OrderedBut(heap[..][k := he], n, k) && (k > HEAP0 ==> Edge(heap[..][k := he], k))
      invariant forall i :: 0 <= i < heap.Length && !(HEAP0 <= i < n + HEAP0) ==> heap[i] == old(heap[i])
      decreases n + HEAP0 - k
    {
      var pos := FirstChild(k);
      if pos >= n + HEAP0 {
        break;
      }
      var c := MinChild(heap, n + HEAP0, pos);
      if he.at <= heap[c].at {
        break;
      }
      WalkGoesOn(heap[..], n, k, c, he);
      MoveHole(heap, k, c, he, n, keys);
      k := c;
    }
    WalkEnds(heap[..], n, k, he);
    FillHole(heap, k, he, n, keys);
  }

  // Moves the element of slot k, whose key has changed, to a correct place.
  method AdjustHeap(heap: array<Slot>, n: nat, k: int, ghost keys: map<Watcher, real>)
    requires HEAP0 <= k < n + HEAP0 <= heap.Length
    requires HoldsBut(heap[..], n, k, keys) && OrderedBut(heap[..], n, k)
    modifies heap, (set w | w in keys)`active
    ensures Holds(heap[..], n, keys) && Ordered(heap[..], n)
    ensures forall i :: 0 <= i < heap.Length && !(HEAP0 <= i < n + HEAP0) ==> heap[i] == old(heap[i])
  {
    if k > HEAP0 { ParentOfChild(k, Parent(k)); }
    if k > HEAP0 && heap[k].at <= heap[Parent(k)].at {
      UpHeap(heap, k, n, n, keys);
    } else {
      DownHeap(heap, n, k, keys);
    }
  }

  // Rebuilds the heap from arbitrary keys, one UpHeap after the other.
  method ReHeap(heap: array<Slot>, n: nat, ghost keys: map<Watcher, real>)
    requires n + HEAP0 <= heap.Length
    requires Holds(heap[..], n, keys)
    modifies heap, (set w | w in keys)`active
    ensures Holds(heap[..], n, keys) && Ordered(heap[..], n)
    ensures forall i :: 0 <= i < heap.Length && !(HEAP0 <= i < n + HEAP0) ==> heap[i] == old(heap[i])
  {
    for i := 0 to n
      invariant Holds(heap[..], n, keys) && Ordered(heap[..], i)
      invariant forall j :: 0 <= j < heap.Length && !(HEAP0 <= j < n + HEAP0) ==> heap[j] == old(heap[j])
    {
      UpHeap(heap, i + HEAP0, i + 1, n, keys);
    }
  }

  // The root key is the least key of the heap.
  lemma {:induction false} RootIsLeast(s: seq<Slot>, n: nat, i: int)
    requires HEAP0 <= i < n + HEAP0 <= |s| && Ordered(s, n)
    ensures s[HEAP0].at <= s[i].at
    decreases i
  {
    if i > HEAP0 {
      ParentOfChild(i, Parent(i));
      assert Edge(s, i);
      RootIsLeast(s, n, Parent(i));
    }
  }
}

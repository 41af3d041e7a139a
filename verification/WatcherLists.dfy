/** The singly linked lists of I/O watchers, threaded through their `next` fields. */
module WatcherLists {
  import opened Watchers

  // The watcher at index i, or null past the end.
  function At(s: seq<Watcher>, i: nat): Watcher? {
    if i < |s| then s[i] else null
  }

  // The list from head on holds exactly s, in this order.
  ghost predicate IsList(head: Watcher?, s: seq<Watcher>)
    reads s`next
  {
    && head == At(s, 0)
    && (forall i :: 0 <= i < |s| ==> s[i].next == At(s, i + 1))
    && (forall i, j :: 0 <= i < j < |s| ==> s[i] != s[j])
  }

  ghost function Without(s: seq<Watcher>, w: Watcher): seq<Watcher> {
    if s == [] then [] else if s[0] == w then s[1..] else [s[0]] + Without(s[1..], w)
  }

  lemma {:induction false} WithoutAt(s: seq<Watcher>, k: nat)
    requires k < |s| && forall i :: 0 <= i < k ==> s[i] != s[k]
    ensures Without(s, s[k]) == s[..k] + s[k + 1..]
  {
    if k > 0 { WithoutAt(s[1..], k - 1); }
  }

  lemma {:induction false} WithoutAbsent(s: seq<Watcher>, w: Watcher)
    requires w !in s
    ensures Without(s, w) == s
  {
    if s != [] { WithoutAbsent(s[1..], w); }
  }

  lemma EmptyIsList()
    ensures IsList(null, [])
  {
  }

  // A list has no watcher twice, so that exactly w is missing.
  lemma {:induction false} WithoutHas(s: seq<Watcher>, w: Watcher)
    requires forall i, j :: 0 <= i < j < |s| ==> s[i] != s[j]
    ensures forall x :: x in Without(s, w) ==> x in s && x != w
    ensures forall x :: x in s && x != w ==> x in Without(s, w)
    ensures |Without(s, w)| == |s| - if w in s then 1 else 0
  {
    if s != [] { WithoutHas(s[1..], w); }
  }

  lemma ListWithout(head: Watcher?, s: seq<Watcher>, w: Watcher)
    requires IsList(head, s)
    ensures forall x :: x in Without(s, w) ==> x in s && x != w
    ensures forall x :: x in s && x != w ==> x in Without(s, w)
  {
    WithoutHas(s, w);
  }

  // wlist_add
  method ListAdd(head: Watcher?, w: Watcher, ghost s: seq<Watcher>) returns (h: Watcher)
    requires IsList(head, s) && w !in s
    modifies w`next
    ensures h == w && IsList(h, [w] + s)
  {
    w.next := head;
    h := w;
    ConsIsList(w, head, s);
  }

  lemma NextInList(head: Watcher?, s: seq<Watcher>, k: nat)
    requires IsList(head, s) && k < |s|
    ensures s[k].next == At(s, k + 1) && head == s[0]
  {
  }

  lemma TailIsList(s: seq<Watcher>, n: nat)
    requires n <= |s| && forall i, j :: 0 <= i < j < |s| ==> s[i] != s[j]
    requires forall i :: n <= i < |s| ==> s[i].next == At(s, i + 1)
    ensures IsList(At(s, n), s[n..])
  {
    forall i | 0 <= i < |s[n..]| ensures s[n..][i].next == At(s[n..], i + 1) {
      assert s[n..][i] == s[n + i];
    }
  }

  lemma ConsIsList(w: Watcher, head: Watcher?, s: seq<Watcher>)
    requires IsList(head, s) && w.next == head && w !in s
    ensures IsList(w, [w] + s)
  {
    var r := [w] + s;
    forall i | 0 < i < |r| ensures r[i].next == At(r, i + 1) {
      assert s[i - 1].next == At(s, i);
    }
  }

  // Moving the link from s[k] past the next element takes that element out.
  lemma {:induction false} LinkDropped(s: seq<Watcher>, k: nat)
    requires k + 1 < |s| && forall i, j :: 0 <= i < j < |s| ==> s[i] != s[j]
    requires forall i :: 0 <= i < |s| ==> s[i].next == At(s, if i == k then k + 2 else i + 1)
    ensures IsList(s[0], Without(s, s[k + 1]))
  {
    hide IsList;
    WithoutHas(s[1..], s[k + 1]);
    if k == 0 {
      TailIsList(s, 2);
      assert Without(s[1..], s[1]) == s[2..];
      ConsIsList(s[0], At(s, 2), s[2..]);
    } else {
      TailLinks(s, k);
      LinkDropped(s[1..], k - 1);
      ConsIsList(s[0], s[1], Without(s[1..], s[k + 1]));
    }
  }

  lemma TailLinks(s: seq<Watcher>, k: nat)
    requires 0 < k && k + 1 < |s|
    requires forall i :: 0 <= i < |s| ==> s[i].next == At(s, if i == k then k + 2 else i + 1)
    ensures forall i :: 0 <= i < |s[1..]| ==> s[1..][i].next == At(s[1..], if i == k - 1 then k + 1 else i + 1)
    ensures s[0].next == s[1]
  {
    forall i | 0 <= i < |s[1..]| ensures s[1..][i].next == At(s[1..], if i == k - 1 then k + 1 else i + 1) {
      assert s[1..][i] == s[i + 1];
    }
  }

  // wlist_del: finds the link to w, in the head or in another watcher, and moves it past w.
  method ListDelete(head: Watcher?, w: Watcher, ghost s: seq<Watcher>) returns (h: Watcher?)
    requires IsList(head, s)
    modifies s`next
    ensures IsList(h, Without(s, w))
  {
    hide Without;
    if head == w {
      NextInList(head, s, 0);
      TailIsList(s, 1);
      WithoutAt(s, 0);
      return w.next;
    }
    h := head;
    var at, k := FindLink(head, w, s);
    if at == null {
      WithoutAbsent(s, w);
    } else {
      NextInList(head, s, k);
      at.next := w.next;
      LinkDropped(s, k);
    }
  }

  // The watcher whose link leads to w, if there is one behind the head
  method FindLink(head: Watcher?, w: Watcher, ghost s: seq<Watcher>) returns (at: Watcher?, ghost k: nat)
    requires IsList(head, s) && head != w
    ensures if at == null then w !in s else k + 1 < |s| && at == s[k] && w == s[k + 1]
  {
    at, k := head, 0;
    while at != null && at.next != w
      invariant k <= |s| && at == At(s, k)
      invariant forall i :: 0 <= i <= k && i < |s| ==> s[i] != w
      decreases |s| - k
    {
      NextInList(head, s, k);
      at, k := at.next, k + 1;
    }
    if at != null { NextInList(head, s, k); }
  }

  // The events that the watchers of a list want between them.
  ghost function Wanted(s: seq<Watcher>): Events
    reads s`events
  {
    if s == [] then {} else s[0].events + Wanted(s[1..])
  }

  lemma WantedCons(w: Watcher, s: seq<Watcher>)
    ensures Wanted([w] + s) == w.events + Wanted(s)
  {
    assert ([w] + s)[1..] == s;
  }

  lemma {:induction false} WantedIff(s: seq<Watcher>, e: Flag)
    ensures e in Wanted(s) <==> exists i :: 0 <= i < |s| && e in s[i].events
  {
    if s != [] {
      WantedIff(s[1..], e);
      if i :| 0 <= i < |s[1..]| && e in s[1..][i].events { assert e in s[i + 1].events; }
      if i :| 0 < i < |s| && e in s[i].events { assert e in s[1..][i - 1].events; }
    }
  }

  // One list of started I/O watchers for each fd.
  class FdLists {
    var heads: seq<Watcher?>
    ghost var lists: seq<seq<Watcher>>
    ghost const known: set<Watcher>

    ghost predicate Within()
      reads this
    {
      |heads| == |lists| && forall f :: 0 <= f < |lists| ==> forall w :: w in lists[f] ==> w in known
    }

    ghost predicate Listed(f: nat)
      requires f < |heads| == |lists|
      reads this, lists[f]`next, lists[f]`active, lists[f]`fd, lists[f]`events
    {
      && IsList(heads[f], lists[f])
      && forall w :: w in lists[f] ==> w.active != 0 && w.fd == f && w.events <= {READ, WRITE}
    }

    // The started watchers are exactly those in the list of their fd.
    ghost predicate Valid()
      reads this, known`next, known`active, known`fd, known`events
    {
      && Within()
      && (forall f :: 0 <= f < |lists| ==> Listed(f))
      && (forall w :: w in known && w.active != 0 ==> 0 <= w.fd < |lists| && w in lists[w.fd])
    }

    ghost function WantedOn(f: nat): Events
      requires Within()
      reads this, known`events
    {
      if f < |lists| then Wanted(lists[f]) else {}
    }

    constructor (known: set<Watcher>)
      requires forall w :: w in known ==> w.active == 0
      ensures Valid() && this.known == known && heads == []
    {
      heads, lists := [], [];
      this.known := known;
    }

    lemma HeadIsStarted(fd: nat)
      requires Valid() && fd < |heads| && heads[fd] != null
      ensures heads[fd] in known && heads[fd].active != 0 && heads[fd].fd == fd
    {
      assert Listed(fd);
    }

    lemma NoHeadNothingWanted(fd: nat)
      requires Valid() && fd < |heads| && heads[fd] == null
      ensures WantedOn(fd) == {} && lists[fd] == []
    {
      assert Listed(fd);
    }

    lemma Chain(fd: nat)
      requires Valid() && fd < |heads|
      ensures heads[fd] == At(lists[fd], 0)
      ensures forall i :: 0 <= i < |lists[fd]| ==> lists[fd][i].next == At(lists[fd], i + 1)
      ensures forall i, j :: 0 <= i < j < |lists[fd]| ==> lists[fd][i] != lists[fd][j]
      ensures forall w :: w in lists[fd] ==> w in known && w.active != 0
    {
      assert Listed(fd);
    }

    // The list of an fd holds its started watchers, and no others.
    lemma ListedIff(fd: nat, w: Watcher)
      requires Valid() && fd < |heads| && w in known
      ensures w in lists[fd] <==> w.active != 0 && w.fd == fd
    {
      assert Listed(fd);
    }

    method Grow(size: nat)
      requires Valid() && |heads| <= size
      modifies this
      ensures Within() && Valid() && |heads| == size
      ensures forall f: nat :: WantedOn(f) == old(WantedOn(f))
    {
      hide IsList;
      lists := lists + seq(size - |heads|, _ => []);
      heads := heads + seq(size - |heads|, _ => null);
      EmptyIsList();
      forall f | 0 <= f < |lists| ensures Listed(f) {
        assert f < old(|lists|) ==> old(Listed(f));
      }
    }

    // The part of ev_io_start that enters w in its list
    method Link(w: Watcher)
      requires Valid() && w in known && w.active == 0 && 0 <= w.fd < |heads| && w.events <= {READ, WRITE, IOFDSET}
      modifies this, w`active, w`next, w`events
      ensures Within() && Valid() && w.active == 1 && w.events == old(w.events) - {IOFDSET} && |heads| == old(|heads|)
      ensures lists == old(lists)[w.fd := [w] + old(lists[w.fd])]
      ensures WantedOn(w.fd) == old(WantedOn(w.fd)) + w.events
      ensures forall f: nat :: f != w.fd ==> WantedOn(f) == old(WantedOn(f))
    {
      hide IsList, Wanted;
      var fd := w.fd;
      assert Listed(fd);
      var head := ListAdd(heads[fd], w, lists[fd]);
      heads := heads[fd := head];
      lists := lists[fd := [w] + lists[fd]];
      w.active := 1;
      w.events := w.events - {IOFDSET};
      forall f | 0 <= f < |lists| ensures Listed(f) {
        assert old(Listed(f)) && w !in old(lists[f]);
      }
      WantedCons(w, lists[fd][1..]);
      forall f: nat | f != w.fd ensures WantedOn(f) == old(WantedOn(f)) {
        assert f < |lists| ==> old(Listed(f)) && w !in lists[f];
      }
    }

    // The part of ev_io_stop that takes w out of its list
    method Unlink(w: Watcher)
      requires Valid() && w in known && w.active != 0
      modifies this, known`next, w`active
      ensures Within() && Valid() && w.active == 0 && |heads| == old(|heads|) && 0 <= w.fd < |heads|
      ensures lists == old(lists)[w.fd := Without(old(lists[w.fd]), w)]
      ensures forall f: nat :: f != w.fd ==> WantedOn(f) == old(WantedOn(f))
    {
      hide Wanted, IsList;
      var fd := w.fd;
      assert Listed(fd);
      ListWithout(heads[fd], lists[fd], w);
      var head := ListDelete(heads[fd], w, lists[fd]);
      heads := heads[fd := head];
      lists := lists[fd := Without(lists[fd], w)];
      w.active := 0;
      forall f | 0 <= f < |lists| ensures Listed(f) {
        assert old(Listed(f)) && forall x :: x in old(lists[f]) ==> f != fd ==> x !in old(lists[fd]);
      }
    }

    // The walk in fd_reify
    method Collect(fd: nat) returns (events: Events)
      requires Valid() && fd < |heads|
      ensures events == WantedOn(fd) && events <= {READ, WRITE}
    {
      assert Listed(fd);
      events := {};
      var w := heads[fd];
      ghost var k := 0;
      ghost var s := lists[fd];
      while w != null
        invariant k <= |s| && w == At(s, k)
        invariant events + Wanted(s[k..]) == Wanted(s) && events <= {READ, WRITE}
        decreases |s| - k
      {
        assert s[k].next == At(s, k + 1) && s[k..][1..] == s[k + 1..];
        events := events + w.events;
        w := w.next;
        k := k + 1;
      }
    }
  }
}

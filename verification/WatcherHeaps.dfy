/** A growing heap of watchers with the operations the start, stop and again functions share. */
module WatcherHeaps {
  import opened Watchers
  import opened Arrays
  import opened FourHeap

  // sizeof (ANHE): a double and a pointer.
  const SLOT_SIZE := 16

  // Taking out slot k and putting any other slot there leaves the order intact away from k.
  lemma RemoveKeepsOrder(s: seq<Slot>, n: nat, m: nat, k: int, x: Slot)
    requires HEAP0 <= k < m + HEAP0 && m <= n && n + HEAP0 <= |s| && Ordered(s, n)
    ensures OrderedBut(s[k := x], m, k)
  {
    var t := s[k := x];
    if k > HEAP0 { ParentOfChild(k, k); }
    forall i | HEAP0 < i < m + HEAP0
      ensures i != k && Parent(i) != k ==> Edge(t, i)
      ensures k > HEAP0 && Parent(i) == k ==> t[Parent(k)].at <= t[i].at
    {
      ParentOfChild(i, k);
      assert Edge(s, i);
      assert k > HEAP0 ==> Edge(s, k);
    }
  }

  lemma PrefixOrdered(s: seq<Slot>, n: nat, m: nat)
    requires m <= n && n + HEAP0 <= |s| && Ordered(s, n)
    ensures Ordered(s, m)
  {
    forall i | HEAP0 < i < m + HEAP0 ensures Edge(s, i) {}
  }

  lemma InsertHolds(s: seq<Slot>, t: seq<Slot>, n: nat, x: Slot, keys: map<Watcher, real>)
    requires n + HEAP0 <= |s| && n + HEAP0 < |t| && t[..n + HEAP0] == s[..n + HEAP0] && t[n + HEAP0] == x
    requires Holds(s, n, keys) && x.w !in keys
    ensures HoldsBut(t, n + 1, n + HEAP0, keys[x.w := x.at])
  {
    forall i | HEAP0 <= i < n + HEAP0 ensures t[i] == s[i] && t[i].w in keys {
      assert t[i] == t[..n + HEAP0][i] == s[i];
    }
    forall w | w in keys ensures t[w.active].w == w {
      assert t[w.active] == s[w.active];
    }
  }

  lemma InsertOrdered(s: seq<Slot>, t: seq<Slot>, n: nat)
    requires n + HEAP0 <= |s| && n + HEAP0 < |t| && t[..n + HEAP0] == s[..n + HEAP0]
    requires Ordered(s, n)
    ensures OrderedBut(t, n + 1, n + HEAP0) && ChildrenAbove(t, n + 1, n + HEAP0)
  {
    forall i | HEAP0 < i < n + 1 + HEAP0
      ensures Parent(i) != n + HEAP0
      ensures i != n + HEAP0 ==> Edge(t, i)
    {
      ParentOfChild(i, n + HEAP0);
      if i != n + HEAP0 {
        assert Edge(s, i);
        assert t[i] == t[..n + HEAP0][i] == s[i] && t[Parent(i)] == t[..n + HEAP0][Parent(i)] == s[Parent(i)];
      }
    }
  }

  // The last slot takes the place of slot k, whose watcher w leaves.
  lemma RemoveHolds(s: seq<Slot>, n: nat, k: int, w: Watcher, keys: map<Watcher, real>)
    requires HEAP0 <= k < n + HEAP0 <= |s| && s[k].w == w
    requires Holds(s, n, keys)
    ensures k < n - 1 + HEAP0 ==> HoldsBut(s[k := s[n - 1 + HEAP0]], n - 1, k, keys - {w})
    ensures k == n - 1 + HEAP0 ==> Holds(s, n - 1, keys - {w})
  {
  }

  // Slot k gets a new key for its watcher.
  lemma RekeyHolds(s: seq<Slot>, n: nat, k: int, x: Slot, keys: map<Watcher, real>)
    requires HEAP0 <= k < n + HEAP0 <= |s| && s[k].w == x.w
    requires Holds(s, n, keys)
    ensures HoldsBut(s[k := x], n, k, keys[x.w := x.at])
  {
  }

  class WatcherHeap {
    var slots: array<Slot>
    var cnt: nat
    ghost const mine: set<Watcher>   // every watcher that may enter this heap

    // The active watchers and their due times.
    ghost function Keys(): map<Watcher, real>
      reads mine`active, mine`at
    {
      map w | w in mine && w.active != 0 :: w.at
    }

    ghost predicate Valid()
      reads this, slots, mine`active, mine`at
    {
      && cnt + HEAP0 <= slots.Length
      && Holds(slots[..], cnt, Keys())
      && Ordered(slots[..], cnt)
    }

    // What Keys() is after a heap operation on `keys`.
    lemma KeysAre(keys: map<Watcher, real>)
      requires cnt + HEAP0 <= slots.Length && Holds(slots[..], cnt, keys)
      requires keys.Keys <= mine
      requires forall w :: w in keys ==> keys[w] == w.at
      requires forall w :: w in mine && w !in keys ==> w.active == 0
      ensures Keys() == keys
    {
    }

    // The unused slots hold whatever the memory holds, here `junk`.
    constructor (mine: set<Watcher>, junk: Slot)
      requires forall w :: w in mine ==> w.active == 0
      ensures Valid() && Keys() == map[] && this.mine == mine && fresh(slots)
    {
      slots, cnt := new Slot[HEAP0](_ => junk), 0;
      this.mine := mine;
    }

    // array_needsize for this array
    method NeedSize(need: nat)
      modifies this`slots
      requires slots.Length >= HEAP0
      ensures need <= slots.Length && old(slots.Length) <= slots.Length
      ensures slots == old(slots) || fresh(slots)
      ensures slots[..old(slots.Length)] == old(slots[..])
    {
      if need > slots.Length {
        var size := ArrayNextSize(SLOT_SIZE, slots.Length, need, 8);
        var junk := slots[0];
        var bigger := new Slot[size](_ => junk);
        for i := 0 to slots.Length
          invariant slots == old(slots) && slots[..] == old(slots[..])
          invariant bigger[..i] == slots[..i]
        {
          bigger[i] := slots[i];
        }
        slots := bigger;
      }
    }

    // Puts w, with its time, into the slot after the last.
    method Append(w: Watcher, ghost keys: map<Watcher, real>)
      requires cnt + HEAP0 <= slots.Length && Holds(slots[..], cnt, keys) && Ordered(slots[..], cnt)
      requires w !in keys
      modifies this`slots, this`cnt, slots, w`active
      ensures slots == old(slots) || fresh(slots)
      ensures cnt == old(cnt) + 1 && cnt + HEAP0 <= slots.Length && w.active == cnt - 1 + HEAP0
      ensures HoldsBut(slots[..], cnt, w.active, keys[w := w.at])
      ensures OrderedBut(slots[..], cnt, w.active) && ChildrenAbove(slots[..], cnt, w.active)
    {
      hide HoldsBut, OrderedBut, ChildrenAbove, Ordered;
      ghost var s := slots[..];
      cnt := cnt + 1;
      w.active := cnt + HEAP0 - 1;
      NeedSize(w.active + 1);
      assert slots[..][..w.active] == slots[..|s|][..w.active] == s[..w.active];
      slots[w.active] := Slot(w.at, w);
      assert slots[..][..w.active] == s[..w.active];
      InsertOrdered(s, slots[..], cnt - 1);
      assert Holds(s, cnt - 1, keys);
      InsertHolds(s, slots[..], cnt - 1, Slot(w.at, w), keys);
    }

    // Enters w with its time `at`, as the start functions do.
    method Insert(w: Watcher)
      requires Valid() && w in mine && w.active == 0
      modifies this`slots, this`cnt, slots, mine`active
      ensures Valid() && (slots == old(slots) || fresh(slots))
      ensures w.active != 0 && Keys() == old(Keys())[w := w.at] && cnt == old(cnt) + 1
    {
      hide HoldsBut, OrderedBut, ChildrenAbove, Ordered;
      ghost var keys := Keys();
      Append(w, keys);
      UpHeap(slots, w.active, cnt, cnt, keys[w := w.at]);
      KeysAre(keys[w := w.at]);
    }

    // Moves the last slot into slot k, whose watcher w leaves.
    method MoveLast(k: int, ghost w: Watcher, ghost keys: map<Watcher, real>)
      requires cnt + HEAP0 <= slots.Length && HEAP0 <= k < cnt + HEAP0 && slots[k].w == w
      requires Holds(slots[..], cnt, keys) && Ordered(slots[..], cnt)
      modifies this`cnt, slots, (set x | x in keys)`active
      ensures cnt == old(cnt) - 1
      ensures Holds(slots[..], cnt, keys - {w}) && Ordered(slots[..], cnt)
    {
      hide HoldsBut, OrderedBut, ChildrenAbove, Ordered;
      ghost var s := slots[..];
      RemoveHolds(s, cnt, k, w, keys);
      cnt := cnt - 1;
      if k < cnt + HEAP0 {
        RemoveKeepsOrder(s, cnt + 1, cnt, k, s[cnt + HEAP0]);
        slots[k] := slots[cnt + HEAP0];
        assert slots[..] == s[k := s[cnt + HEAP0]];
        AdjustHeap(slots, cnt, k, keys - {w});
      } else {
        PrefixOrdered(s, cnt + 1, cnt);
      }
    }

    // Takes w out: the last slot moves into its place, as the stop functions do.
    method Remove(w: Watcher)
      requires Valid() && w in mine && w.active != 0
      modifies this`cnt, slots, mine`active
      ensures Valid()
      ensures w.active == 0 && Keys() == old(Keys()) - {w} && cnt == old(cnt) - 1
    {
      ghost var keys := Keys();
      assert w in keys && HEAP0 <= w.active < cnt + HEAP0 && slots[..][w.active].w == w;
      hide HoldsBut, OrderedBut, ChildrenAbove, Ordered;
      MoveLast(w.active, w, keys);
      w.active := 0;
      KeysAre(keys - {w});
    }

    // Refreshes the cached key of w, whose time has changed, and moves it to a correct place.
    method Adjust(w: Watcher, ghost keys: map<Watcher, real>)
      requires w in mine && w.active != 0 && cnt + HEAP0 <= slots.Length
      requires Holds(slots[..], cnt, keys) && Ordered(slots[..], cnt)
      requires w in keys && Keys() == keys[w := w.at]
      modifies slots, mine`active
      ensures Valid() && Keys() == keys[w := w.at]
    {
      ghost var k, s := w.active, slots[..];
      assert HEAP0 <= k < cnt + HEAP0 && s[k].w == w;
      RekeyHolds(s, cnt, k, Slot(w.at, w), keys);
      RemoveKeepsOrder(s, cnt, cnt, k, Slot(w.at, w));
      hide HoldsBut, OrderedBut, ChildrenAbove, Ordered;
      slots[w.active] := Slot(w.at, w);
      assert slots[..] == s[k := Slot(w.at, w)];
      AdjustHeap(slots, cnt, w.active, keys[w := w.at]);
      KeysAre(keys[w := w.at]);
    }

    // The same for the watcher in the root slot, which can only go down.
    method DownRoot(w: Watcher, ghost keys: map<Watcher, real>)
      requires w in mine && w.active == HEAP0 && cnt + HEAP0 <= slots.Length
      requires Holds(slots[..], cnt, keys) && Ordered(slots[..], cnt)
      requires w in keys && Keys() == keys[w := w.at]
      modifies slots, mine`active
      ensures Valid() && Keys() == keys[w := w.at]
    {
      ghost var s := slots[..];
      assert HEAP0 < cnt + HEAP0 && s[HEAP0].w == w;
      RekeyHolds(s, cnt, HEAP0, Slot(w.at, w), keys);
      RemoveKeepsOrder(s, cnt, cnt, HEAP0, Slot(w.at, w));
      hide HoldsBut, OrderedBut, ChildrenAbove, Ordered;
      slots[HEAP0] := Slot(w.at, w);
      assert slots[..] == s[HEAP0 := Slot(w.at, w)];
      DownHeap(slots, cnt, HEAP0, keys[w := w.at]);
      KeysAre(keys[w := w.at]);
    }

    // Gives w the time t, and its place in the heap if it is active.
    method Retime(w: Watcher, t: real)
      requires Valid() && w in mine
      modifies slots, w`at, mine`active
      ensures Valid() && w.at == t
      ensures Keys() == if w in old(Keys()) then old(Keys())[w := t] else old(Keys())
      ensures old(w.active) == 0 ==> w.active == 0
    {
      ghost var keys := Keys();
      hide HoldsBut, Ordered;
      assert w in keys <==> w.active != 0;
      w.at := t;
      if w.active != 0 {
        assert Keys() == keys[w := t];
        Adjust(w, keys);
      } else {
        assert Keys() == keys;
      }
    }

    // The same for the root, which can only go down.
    method RetimeRoot(w: Watcher, t: real)
      requires Valid() && w in mine && w.active == HEAP0
      modifies slots, w`at, mine`active
      ensures Valid() && w.at == t && Keys() == old(Keys())[w := t]
    {
      ghost var keys := Keys();
      hide HoldsBut, Ordered;
      assert w in keys;
      w.at := t;
      assert Keys() == keys[w := t];
      DownRoot(w, keys);
    }

    // The watcher in the root slot.
    function Top(): Watcher
      reads this, slots
      requires slots.Length > HEAP0
    {
      slots[HEAP0].w
    }

    // The top watcher is the earliest of all and due before `now`.
    ghost predicate TopOverdue(now: real)
      reads this, slots, mine`active, mine`at
    {
      && slots.Length > HEAP0 && Top() in Keys() && Top().active == HEAP0 && Keys()[Top()] < now
      && forall x :: x in Keys() ==> Keys()[Top()] <= Keys()[x]
    }

    ghost predicate NoneOverdue(now: real)
      reads mine`active, mine`at
    {
      forall x :: x in Keys() ==> now <= Keys()[x]
    }

    // The guard of the reify loops: is there a watcher, and is the earliest due before `now`?
    method Overdue(now: real) returns (due: bool)
      requires Valid()
      ensures if due then TopOverdue(now) else NoneOverdue(now)
    {
      due := cnt > 0 && slots[HEAP0].at < now;
      forall x | x in Keys() ensures cnt > 0 && slots[HEAP0].at <= Keys()[x] {
        assert slots[..][x.active].w == x;
        RootIsLeast(slots[..], cnt, x.active);
      }
    }

    // The first i slots and their watchers have their new times `keys1`; `s` and `keys` are from before.
    ghost predicate RetimedTo(i: nat, s: seq<Slot>, keys: map<Watcher, real>, keys1: map<Watcher, real>)
      reads this, slots, (set w | w in keys)`at, (set w | w in keys)`active
      requires i <= cnt && cnt + HEAP0 <= |s| == slots.Length
    {
      && Holds(s, cnt, keys) && keys1.Keys == keys.Keys
      && (forall j :: HEAP0 <= j < cnt + HEAP0 ==>
            s[j].w in keys && slots[j] == if j < i + HEAP0 then Slot(keys1[s[j].w], s[j].w) else s[j])
      && (forall w :: w in keys ==> w.at == if w.active < i + HEAP0 then keys1[w] else keys[w])
    }

    method RetimeSlot(i: nat, t: real, ghost s: seq<Slot>, ghost keys: map<Watcher, real>, ghost keys1: map<Watcher,
                      real>)
      requires i < cnt && cnt + HEAP0 <= |s| == slots.Length && RetimedTo(i, s, keys, keys1)
      requires slots[i + HEAP0].w in keys1 && t == keys1[slots[i + HEAP0].w]
      modifies slots, (set w | w in keys)`at
      ensures RetimedTo(i + 1, s, keys, keys1)
    {
      SlotWatchers(s, cnt, keys);
      assert Holds(s, cnt, keys);
      hide HoldsBut, Holds;
      var w := slots[i + HEAP0].w;
      w.at := t;
      slots[i + HEAP0] := Slot(w.at, w);
    }

    ghost predicate OthersIdle(keys: map<Watcher, real>)
      reads mine`active
    {
      forall w :: w in mine && w !in keys ==> w.active == 0
    }

    // The watcher of the next slot to retime still has its old time.
    lemma ToRetime(i: nat, s: seq<Slot>, keys: map<Watcher, real>, keys1: map<Watcher, real>)
      requires i < cnt && cnt + HEAP0 <= |s| == slots.Length && RetimedTo(i, s, keys, keys1)
      ensures slots[i + HEAP0].w in keys && slots[i + HEAP0].w.at == keys[slots[i + HEAP0].w] && keys1.Keys == keys.Keys
    {
      SlotWatchers(s, cnt, keys);
    }

    // When all slots have their new times the heap holds them, though not in order.
    lemma AllRetimed(s: seq<Slot>, keys: map<Watcher, real>, keys1: map<Watcher, real>)
      requires cnt + HEAP0 <= |s| == slots.Length && RetimedTo(cnt, s, keys, keys1)
      ensures Holds(slots[..], cnt, keys1)
      ensures keys.Keys <= mine && OthersIdle(keys) ==> Keys() == keys1
    {
      SlotWatchers(s, cnt, keys);
      forall w | w in keys1 ensures slots[..][w.active].w == w {
        assert s[w.active].w == w;
      }
    }

    // timers_reschedule: shifting every key by one offset needs no moves.
    method ShiftAll(adjust: real)
      requires Valid()
      modifies slots, (set w | w in Keys())`at
      ensures Valid() && Keys() == ShiftedKeys(old(Keys()), adjust)
    {
      ghost var s, keys := slots[..], Keys();
      ghost var keys1 := ShiftedKeys(keys, adjust);
      SlotWatchers(s, cnt, keys);
      assert RetimedTo(0, s, keys, keys1);
      hide HoldsBut, Ordered;
      for i := 0 to cnt
        invariant RetimedTo(i, s, keys, keys1)
      {
        SlotWatchers(s, cnt, keys);
        RetimeSlot(i, slots[i + HEAP0].w.at + adjust, s, keys, keys1);
      }
      AllRetimed(s, keys, keys1);
      ShiftKeepsOrder(s, slots[..], cnt, keys, adjust);
    }

    // The end of periodics_reschedule: a reheap restores the heap from whatever times were set.
    method Rebuild(ghost s: seq<Slot>, ghost keys: map<Watcher, real>, ghost keys1: map<Watcher, real>)
      requires cnt + HEAP0 <= |s| == slots.Length && RetimedTo(cnt, s, keys, keys1)
      requires keys.Keys <= mine && OthersIdle(keys)
      modifies slots, mine`active
      ensures Valid() && Keys() == keys1
    {
      AllRetimed(s, keys, keys1);
      assert forall w :: w in keys1 ==> keys1[w] == w.at;
      hide HoldsBut, Ordered, RetimedTo;
      ReHeap(slots, cnt, keys1);
      KeysAre(keys1);
    }
  }

  ghost function ShiftedKeys(keys: map<Watcher, real>, adjust: real): (r: map<Watcher, real>)
    ensures r.Keys == keys.Keys && forall w :: w in keys ==> r[w] == keys[w] + adjust
  {
    map w | w in keys :: keys[w] + adjust
  }

  lemma SlotWatchers(s: seq<Slot>, n: nat, keys: map<Watcher, real>)
    requires n + HEAP0 <= |s| && Holds(s, n, keys)
    ensures forall i :: HEAP0 <= i < n + HEAP0 ==> s[i].w in keys && s[i].at == keys[s[i].w] && s[i].w.active == i
    ensures forall w :: w in keys ==> HEAP0 <= w.active < n + HEAP0 && s[w.active].w == w
  {
  }

  lemma ShiftKeepsOrder(s: seq<Slot>, t: seq<Slot>, n: nat, keys: map<Watcher, real>, adjust: real)
    requires n + HEAP0 <= |s| && n + HEAP0 <= |t| && Ordered(s, n)
    requires forall j :: HEAP0 <= j < n + HEAP0 ==> s[j].w in keys && s[j].at == keys[s[j].w]
    requires forall j :: HEAP0 <= j < n + HEAP0 ==> t[j] == Slot(ShiftedKeys(keys, adjust)[s[j].w], s[j].w)
    ensures Ordered(t, n)
  {
    forall i | HEAP0 < i < n + HEAP0 ensures Edge(t, i) {
      ParentOfChild(i, HEAP0);
      assert Edge(s, i);
    }
  }
}

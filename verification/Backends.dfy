/** Two polling backends, each holding the same map from file descriptors to event masks. */
module Backends {
  import opened Watchers
  import opened Arrays

  const PTR: PointerSize := 8

  // A call of backend_modify
  datatype Call = Call(fd: nat, oev: Events, nev: Events)

  // ev_poll.c

  datatype PollFd = PollFd(fd: nat, events: Events)

  class PollBackend {
    var polls: seq<PollFd>   // allocated entries; the first pollcnt are in use
    var pollcnt: nat
    var pollidxs: seq<int>   // the index of each fd in polls, or -1
    ghost var calls: seq<Call>

    // polls and pollidxs are inverse to each other.
    ghost predicate Inverse()
      reads this`polls, this`pollcnt, this`pollidxs
    {
      && pollcnt <= |polls|
      && (forall fd :: 0 <= fd < |pollidxs| && pollidxs[fd] != -1 ==>
            0 <= pollidxs[fd] < pollcnt && polls[pollidxs[fd]].fd == fd)
      && (forall i :: 0 <= i < pollcnt ==> polls[i].fd < |pollidxs| && pollidxs[polls[i].fd] == i)
    }

    ghost predicate Valid()
      reads this`polls, this`pollcnt, this`pollidxs
    {
      Inverse() && forall i :: 0 <= i < pollcnt ==> {} < polls[i].events <= {READ, WRITE}
    }

    // The events polled for on fd.
    ghost function Interest(fd: nat): Events
      requires Inverse()
      reads this`polls, this`pollcnt, this`pollidxs
    {
      if fd < |pollidxs| && pollidxs[fd] >= 0 then polls[pollidxs[fd]].events else {}
    }

    constructor ()
      ensures Valid() && calls == [] && forall fd :: Interest(fd) == {}
    {
      polls, pollcnt, pollidxs, calls := [], 0, [], [];
    }

    // poll_modify
    method Modify(fd: nat, oev: Events, nev: Events)
      requires Valid() && oev == Interest(fd) && nev <= {READ, WRITE}
      modifies this
      ensures Valid() && Interest(fd) == nev && calls == old(calls) + [Call(fd, oev, nev)]
      ensures forall g :: g != fd ==> Interest(g) == old(Interest(g))
    {
      calls := calls + [Call(fd, oev, nev)];
      if oev == nev {
        return;
      }
      GrowIndex(fd + 1);
      if pollidxs[fd] < 0 {
        Allocate(fd);
      }
      if nev != {} {
        SetEvents(fd, nev);
      } else {
        SwapRemove(fd);
      }
    }

    method SetEvents(fd: nat, nev: Events)
      requires Inverse() && fd < |pollidxs| && pollidxs[fd] >= 0 && {} < nev <= {READ, WRITE}
      requires forall i :: 0 <= i < pollcnt && i != pollidxs[fd] ==> {} < polls[i].events <= {READ, WRITE}
      modifies this`polls
      ensures Valid() && Interest(fd) == nev
      ensures forall g :: g != fd ==> Interest(g) == old(Interest(g))
    {
      var idx := pollidxs[fd];
      polls := polls[idx := polls[idx].(events := nev)];
    }

    method GrowIndex(need: nat)
      requires Valid()
      modifies this`pollidxs
      ensures Valid() && need <= |pollidxs| && forall g :: Interest(g) == old(Interest(g))
    {
      if need > |pollidxs| {
        var max := ArrayNextSize(4, |pollidxs|, need, PTR);
        pollidxs := pollidxs + seq(max - |pollidxs|, _ => -1);
      }
    }

    // The entries of a grown array hold whatever was there.
    method Allocate(fd: nat)
      requires Valid() && fd < |pollidxs| && pollidxs[fd] < 0
      modifies this`polls, this`pollcnt, this`pollidxs
      ensures Inverse() && |pollidxs| == old(|pollidxs|) && pollcnt == old(pollcnt) + 1 && pollidxs[fd] == old(pollcnt)
      ensures forall i :: 0 <= i < old(pollcnt) ==> polls[i] == old(polls[i])
      ensures forall g :: g != fd ==> Interest(g) == old(Interest(g))
    {
      pollidxs := pollidxs[fd := pollcnt];
      pollcnt := pollcnt + 1;
      if pollcnt > |polls| {
        var max := ArrayNextSize(8, |polls|, pollcnt, PTR);
        var junk: PollFd := *;
        polls := polls + seq(max - |polls|, _ => junk);
      }
      polls := polls[pollcnt - 1 := polls[pollcnt - 1].(fd := fd)];
    }

    // The last entry moves into the place of the one removed.
    method SwapRemove(fd: nat)
      requires Inverse() && fd < |pollidxs| && pollidxs[fd] >= 0
      requires forall i :: 0 <= i < pollcnt && i != pollidxs[fd] ==> {} < polls[i].events <= {READ, WRITE}
      modifies this`polls, this`pollcnt, this`pollidxs
      ensures Valid() && Interest(fd) == {}
      ensures forall g :: g != fd ==> Interest(g) == old(Interest(g))
    {
      var idx := pollidxs[fd];
      pollidxs := pollidxs[fd := -1];
      pollcnt := pollcnt - 1;
      if idx < pollcnt {
        polls := polls[idx := polls[pollcnt]];
        pollidxs := pollidxs[polls[idx].fd := idx];
      }
    }
  }

  // ev_select.c, where the bitmaps are words of the size of a long

  const NFDBITS := 64

  // The word operations have names, to reason about them one at a time.
  function Set(w: bv64, mask: bv64): bv64 {
    w | mask
  }

  function Clear(w: bv64, mask: bv64): bv64 {
    w & !mask
  }

  function And(x: bv64, y: bv64): bv64 {
    x & y
  }

  predicate Test(w: bv64, mask: bv64) {
    And(w, mask) != 0
  }

  function Double(x: bv64): bv64 {
    x << 1
  }

  // 1 shifted left k times
  function Shifted(k: nat): bv64 {
    if k == 0 then 1 else Double(Shifted(k - 1))
  }

  function Mask(fd: nat): bv64 {
    Shifted(fd % NFDBITS)
  }

  predicate Bit(words: seq<bv64>, fd: nat) {
    fd / NFDBITS < |words| && Test(words[fd / NFDBITS], Mask(fd))
  }

  lemma {:induction false} ShiftsAreDisjoint(j: nat, k: nat)
    requires j < k
    ensures !Test(Shifted(j), Shifted(k)) && !Test(Shifted(k), Shifted(j))
  {
    hide Test, Double;
    if j == 0 {
      OddAndEven(Shifted(k - 1));
    } else {
      ShiftsAreDisjoint(j - 1, k - 1);
      DoubleBoth(Shifted(j - 1), Shifted(k - 1));
      DoubleBoth(Shifted(k - 1), Shifted(j - 1));
    }
  }

  lemma OddAndEven(y: bv64)
    ensures !Test(1, Double(y)) && !Test(Double(y), 1)
  {
  }

  lemma DoubleBoth(x: bv64, y: bv64)
    requires !Test(x, y)
    ensures !Test(Double(x), Double(y))
  {
  }

  function Byte(x: bv64): bv64 {
    x << 8
  }

  lemma DoubleEightTimes(x: bv64)
    ensures Double(Double(Double(Double(Double(Double(Double(Double(x)))))))) == Byte(x)
  {
  }

  lemma EightShifts(k: nat)
    ensures Shifted(k + 8) == Byte(Shifted(k))
  {
    hide Double, Byte;
    DoubleEightTimes(Shifted(k));
    assert Shifted(k + 4) == Double(Double(Double(Double(Shifted(k))))) by {
      assert Shifted(k + 2) == Double(Double(Shifted(k)));
    }
    assert Shifted(k + 6) == Double(Double(Shifted(k + 4)));
  }

  // A one shifted less than NFDBITS times is still there.
  lemma {:induction false} ShiftedNotZero(k: nat)
    requires k < NFDBITS
    ensures Shifted(k) != 0
    decreases NFDBITS - k
  {
    if k == NFDBITS - 1 {
      EightShifts(0);
      EightShifts(8);
      EightShifts(16);
      EightShifts(24);
      EightShifts(32);
      EightShifts(40);
      EightShifts(48);
      assert Shifted(56) == 0x100_0000_0000_0000;
      assert Shifted(60) == 0x1000_0000_0000_0000 by { assert Shifted(58) == 0x400_0000_0000_0000; }
      assert Shifted(62) == 0x4000_0000_0000_0000;
    } else {
      ShiftedNotZero(k + 1);
    }
  }

  lemma MasksAreDisjoint(fd: nat, g: nat)
    ensures Mask(fd) != 0 && (fd % NFDBITS != g % NFDBITS ==> !Test(Mask(fd), Mask(g)))
  {
    hide Test, Shifted;
    var j, k := fd % NFDBITS, g % NFDBITS;
    ShiftedNotZero(j);
    if j < k { ShiftsAreDisjoint(j, k); }
    if k < j { ShiftsAreDisjoint(k, j); }
  }

  lemma SetThenTest(w: bv64, mask: bv64)
    requires mask != 0
    ensures Test(Set(w, mask), mask)
  {
  }

  lemma ClearThenTest(w: bv64, mask: bv64)
    ensures !Test(Clear(w, mask), mask)
  {
  }

  lemma OrOutside(w: bv64, mask: bv64, other: bv64)
    requires And(mask, other) == 0
    ensures And(Set(w, mask), other) == And(w, other)
  {
  }

  lemma AndNotOutside(w: bv64, mask: bv64, other: bv64)
    requires And(mask, other) == 0
    ensures And(Clear(w, mask), other) == And(w, other)
  {
  }

  lemma OthersKeep(w: bv64, mask: bv64, other: bv64)
    requires !Test(mask, other)
    ensures Test(Set(w, mask), other) == Test(w, other)
    ensures Test(Clear(w, mask), other) == Test(w, other)
  {
    hide Set, Clear, And;
    OrOutside(w, mask, other);
    AndNotOutside(w, mask, other);
  }

  // Setting or clearing the bit of fd in its word changes that bit and no other.
  lemma OneBitChanges(words: seq<bv64>, fd: nat, g: nat)
    requires fd / NFDBITS < |words|
    ensures Bit(words[fd / NFDBITS := Set(words[fd / NFDBITS], Mask(fd))], g) == (g == fd || Bit(words, g))
    ensures Bit(words[fd / NFDBITS := Clear(words[fd / NFDBITS], Mask(fd))], g) == (g != fd && Bit(words, g))
  {
    hide Mask, Test, Set, Clear;
    MasksAreDisjoint(fd, g);
    var w := words[fd / NFDBITS];
    if g == fd {
      SetThenTest(w, Mask(fd));
      ClearThenTest(w, Mask(fd));
    } else if g / NFDBITS == fd / NFDBITS {
      OthersKeep(w, Mask(fd), Mask(g));
    }
  }

  class SelectBackend {
    var ri: seq<bv64>   // vec_ri
    var wi: seq<bv64>   // vec_wi
    ghost var calls: seq<Call>

    ghost predicate Valid()
      reads this`ri, this`wi
    {
      |ri| == |wi|
    }

    // The events selected for on fd.
    ghost function Interest(fd: nat): Events
      reads this`ri, this`wi
    {
      (if Bit(ri, fd) then {READ} else {}) + if Bit(wi, fd) then {WRITE} else {}
    }

    constructor ()
      ensures Valid() && calls == [] && forall fd :: Interest(fd) == {}
    {
      ri, wi, calls := [], [], [];
    }

    // select_modify
    method Modify(fd: nat, oev: Events, nev: Events)
      requires Valid() && oev == Interest(fd) && nev <= {READ, WRITE}
      modifies this
      ensures Valid() && Interest(fd) == nev && calls == old(calls) + [Call(fd, oev, nev)]
      ensures forall g :: g != fd ==> Interest(g) == old(Interest(g))
    {
      hide Interest;
      calls := calls + [Call(fd, oev, nev)];
      assert forall g: nat :: Interest(g) == old(Interest(g));
      Change(fd, oev, nev);
    }

    // Its work on the bitmaps; the grown words are zeroed, as in the loop there.
    method Change(fd: nat, oev: Events, nev: Events)
      requires Valid() && oev == Interest(fd) && nev <= {READ, WRITE}
      modifies this`ri, this`wi
      ensures Valid() && Interest(fd) == nev
      ensures forall g :: g != fd ==> Interest(g) == old(Interest(g))
    {
      if oev == nev {
        return;
      }
      var word, mask := fd / NFDBITS, Mask(fd);
      Grow(word + 1);
      ri := WithBit(ri, word, mask, READ in nev, fd);
      wi := WithBit(wi, word, mask, WRITE in nev, fd);
    }

    // The new words are zeroed.
    method Grow(need: nat)
      requires Valid()
      modifies this`ri, this`wi
      ensures Valid() && need <= |ri| && forall g :: Interest(g) == old(Interest(g))
    {
      while |ri| < need
        invariant Valid() && forall g :: Bit(ri, g) == old(Bit(ri, g)) && Bit(wi, g) == old(Bit(wi, g))
        decreases need - |ri|
      {
        ri, wi := ri + [0], wi + [0];
      }
    }

    // Sets the bit of fd, and clears it again unless it is wanted.
    function WithBit(words: seq<bv64>, word: nat, mask: bv64, want: bool, ghost fd: nat): (r: seq<bv64>)
      requires word == fd / NFDBITS < |words| && mask == Mask(fd)
      ensures |r| == |words| && forall g: nat :: Bit(r, g) == if g == fd then want else Bit(words, g)
    {
      hide Bit, Set, Clear, Mask;
      var marked := words[word := Set(words[word], mask)];
      var r := if want then marked else marked[word := Clear(marked[word], mask)];
      assert forall g: nat :: Bit(r, g) == if g == fd then want else Bit(words, g) by {
        forall g: nat ensures Bit(r, g) == if g == fd then want else Bit(words, g) {
          OneBitChanges(words, fd, g);
          OneBitChanges(marked, fd, g);
        }
      }
      r
    }
  }

  // Any other backend, as far as the table sees it: it holds the masks, and may report an fd it cannot watch.
  class FaultyBackend {
    var masks: map<nat, Events>
    var faults: seq<bool>         // whether the calls to come fail
    ghost var reported: seq<nat>  // the fds that calls have failed for
    ghost var calls: seq<Call>

    ghost function Interest(fd: nat): Events
      reads this`masks
    {
      if fd in masks then masks[fd] else {}
    }

    constructor (faults: seq<bool>)
      ensures reported == [] && calls == [] && forall fd :: Interest(fd) == {}
    {
      masks, this.faults, reported, calls := map[], faults, [], [];
    }

    // epoll_modify returns at once when no events are wanted, and may kill the fd otherwise.
    method Modify(fd: nat, oev: Events, nev: Events) returns (gone: bool)
      modifies this
      ensures Interest(fd) == nev && (gone ==> nev != {}) && reported == old(reported) + if gone then [fd] else []
      ensures calls == old(calls) + [Call(fd, oev, nev)]
      ensures forall g :: g != fd ==> Interest(g) == old(Interest(g))
    {
      calls := calls + [Call(fd, oev, nev)];
      masks := masks[fd := nev];
      if nev == {} || faults == [] {
        return false;
      }
      gone := faults[0];
      faults := faults[1..];
      if gone { reported := reported + [fd]; }
    }
  }

  datatype Backend = Poll(p: PollBackend) | Select(s: SelectBackend) | Faulty(f: FaultyBackend) {
    ghost function Object(): object {
      match this
      case Poll(p) => p
      case Select(s) => s
      case Faulty(f) => f
    }

    ghost predicate Valid()
      reads Object()
    {
      match this
      case Poll(p) => p.Valid()
      case Select(s) => s.Valid()
      case Faulty(_) => true
    }

    // The events watched on fd.
    ghost function Interest(fd: nat): Events
      requires Valid()
      reads Object()
    {
      match this
      case Poll(p) => p.Interest(fd)
      case Select(s) => s.Interest(fd)
      case Faulty(f) => f.Interest(fd)
    }

    // The fds that it has given up, one after the other
    ghost function Reported(): seq<nat>
      reads Object()
    {
      if Faulty? then f.reported else []
    }

    // What it has been told, one call after the other
    ghost function Calls(): seq<Call>
      reads Object()
    {
      match this
      case Poll(p) => p.calls
      case Select(s) => s.calls
      case Faulty(f) => f.calls
    }

    // backend_modify; an fd that is gone is the caller's to kill.
    method Modify(fd: nat, oev: Events, nev: Events) returns (gone: bool)
      requires Valid() && oev == Interest(fd) && nev <= {READ, WRITE}
      modifies Object()
      ensures Valid() && Interest(fd) == nev && (gone ==> nev != {} && Faulty?)
      ensures Reported() == old(Reported()) + if gone then [fd] else []
      ensures Calls() == old(Calls()) + [Call(fd, oev, nev)]
      ensures forall g :: g != fd ==> Interest(g) == old(Interest(g))
    {
      gone := false;
      match this {
        case Poll(p) => p.Modify(fd, oev, nev);
        case Select(s) => s.Modify(fd, oev, nev);
        case Faulty(f) => gone := f.Modify(fd, oev, nev);
      }
    }
  }
}

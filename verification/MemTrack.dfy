/** The tracker of allocations, with its table and its running totals. */
module MemTrack {
  const MAX_TRACKS := 256

  // A size_t has 64 bits.
  const SIZES := 0x1_0000_0000_0000_0000

  datatype Status = Ok | ParamError | Error | TrackError

  datatype Track = Track(active: bool, ptr: nat, size: nat)

  // The sizes of the active entries, and their number
  function Usage(tracks: seq<Track>): nat {
    if tracks == [] then 0 else Usage(tracks[..|tracks| - 1]) + Charge(tracks[|tracks| - 1])
  }

  function Charge(t: Track): nat {
    if t.active then t.size else 0
  }

  function Actives(tracks: seq<Track>): nat {
    if tracks == [] then 0 else Actives(tracks[..|tracks| - 1]) + if tracks[|tracks| - 1].active then 1 else 0
  }

  lemma {:induction false} UsageUpdate(tracks: seq<Track>, i: nat, t: Track)
    requires i < |tracks|
    ensures Usage(tracks[i := t]) == Usage(tracks) - Charge(tracks[i]) + Charge(t)
    ensures Actives(tracks[i := t]) == Actives(tracks) - (if tracks[i].active then 1 else 0) + if t.active then 1 else 0
  {
    var n := |tracks| - 1;
    if i == n {
      assert tracks[i := t][..n] == tracks[..n];
    } else {
      UsageUpdate(tracks[..n], i, t);
      assert tracks[i := t][..n] == tracks[..n][i := t];
    }
  }

  lemma {:induction false} NoUsage(tracks: seq<Track>)
    requires forall i :: 0 <= i < |tracks| ==> !tracks[i].active
    ensures Usage(tracks) == 0 && Actives(tracks) == 0
  {
    if tracks != [] { NoUsage(tracks[..|tracks| - 1]); }
  }

  // The current usage is that of the table, and what has been allocated and not freed, modulo the range of a size_t.
  predicate Agree(usage: nat, current: nat, freed: nat, total: nat) {
    && current < SIZES && freed < SIZES && total < SIZES
    && current == usage % SIZES && current == (total - freed) % SIZES
  }

  // Reducing a summand changes nothing modulo the range.
  lemma Reduced(a: int, b: int)
    ensures (a % SIZES + b) % SIZES == (a + b) % SIZES
  {
    var q := a / SIZES;
    assert a + b == a % SIZES + b + SIZES * q;
    Shifted(a % SIZES + b, q);
  }

  lemma Shifted(a: int, q: int)
    ensures (a + SIZES * q) % SIZES == a % SIZES
  {
    var k := a / SIZES;
    assert a + SIZES * q == SIZES * (k + q) + a % SIZES;
  }

  lemma AllocAgrees(usage: nat, current: nat, freed: nat, total: nat, n: nat)
    requires Agree(usage, current, freed, total)
    ensures Agree(usage + n, (current + n) % SIZES, freed, (total + n) % SIZES)
  {
    Reduced(usage, n);
    Reduced(total - freed, n);
    var f: int := freed;
    Reduced(total + n, -f);
  }

  lemma FreeAgrees(usage: nat, current: nat, freed: nat, total: nat, n: nat)
    requires Agree(usage, current, freed, total) && n <= usage
    ensures Agree(usage - n, (current - n) % SIZES, (freed + n) % SIZES, total)
  {
    var d: int := n;
    Reduced(usage, -d);
    Reduced(total - freed, -d);
    Negated(freed + n, total);
  }

  lemma Negated(a: int, b: int)
    ensures (b - a % SIZES) % SIZES == (b - a) % SIZES
  {
    assert b - a % SIZES == b - a + SIZES * (a / SIZES);
    Shifted(b - a, a / SIZES);
  }

  lemma InRange(usage: nat, current: nat, freed: nat, total: nat)
    requires Agree(usage, current, freed, total)
    ensures current < SIZES && (usage < SIZES ==> current == usage)
  {
  }

  class Tracker {
    const tracks: array<Track>
    var initialized: bool
    var totalAllocated: nat
    var totalFreed: nat
    var currentUsage: nat
    var peakUsage: nat
    var allocCount: nat
    var freeCount: nat
    var activeAllocs: int
    var leakCount: nat
    ghost var most: nat             // the greatest usage that the table has had

    // The totals agree with the table as far as a size_t can tell, and the counts exactly; the peak is the greatest
    // usage, unless that went beyond a size_t.
    ghost predicate Valid()
      reads this, tracks
    {
      && tracks.Length == MAX_TRACKS
      && Agree(Usage(tracks[..]), currentUsage, totalFreed, totalAllocated)
      && Usage(tracks[..]) <= most && (most < SIZES ==> peakUsage == most)
      && activeAllocs == Actives(tracks[..]) == allocCount - freeCount
    }

    constructor ()
      ensures Valid() && fresh(tracks) && !initialized && Usage(tracks[..]) == 0
    {
      tracks := new Track[MAX_TRACKS](_ => Track(false, 0, 0));
      initialized, totalAllocated, totalFreed, currentUsage, peakUsage := false, 0, 0, 0, 0;
      allocCount, freeCount, activeAllocs, leakCount, most := 0, 0, 0, 0, 0;
      new;
      NoUsage(tracks[..]);
    }

    // mem_track_init
    method Init()
      requires Valid()
      modifies this, tracks
      ensures Valid() && initialized
      ensures !old(initialized) ==> Usage(tracks[..]) == 0 && totalAllocated == totalFreed == peakUsage == 0
      ensures old(initialized) ==> tracks[..] == old(tracks[..]) && peakUsage == old(peakUsage)
    {
      if initialized {
        return;
      }
      forall i | 0 <= i < MAX_TRACKS {
        tracks[i] := Track(false, 0, 0);
      }
      NoUsage(tracks[..]);
      totalAllocated, totalFreed, currentUsage, peakUsage := 0, 0, 0, 0;
      allocCount, freeCount, activeAllocs, leakCount, most := 0, 0, 0, 0, 0;
      initialized := true;
    }

    // mem_track_cleanup; the table stays until the next init
    method Cleanup()
      requires Valid()
      modifies this`initialized
      ensures Valid() && !initialized
    {
      initialized := false;
    }

    // mem_track_alloc
    method Alloc(ptr: nat, n: nat) returns (r: Status)
      requires Valid() && n < SIZES
      modifies this, tracks
      ensures Valid() && initialized == old(initialized)
      ensures r == if ptr == 0 then ParamError else if !initialized then Error
                   else if forall i :: 0 <= i < MAX_TRACKS ==> old(tracks[i].active) then TrackError else Ok
      ensures r != Ok ==> tracks[..] == old(tracks[..])
      ensures r == Ok ==> exists i ::
                && 0 <= i < MAX_TRACKS && !old(tracks[i].active) && (forall k :: 0 <= k < i ==> old(tracks[k].active))
                && tracks[..] == old(tracks[..])[i := Track(true, ptr, n)]
      ensures r == Ok ==>
                && Usage(tracks[..]) == old(Usage(tracks[..])) + n
                && Actives(tracks[..]) == old(Actives(tracks[..])) + 1
      ensures most == if Usage(tracks[..]) > old(most) then Usage(tracks[..]) else old(most)
      ensures r == Ok ==>
                && totalAllocated == (old(totalAllocated) + n) % SIZES
                && currentUsage == (old(currentUsage) + n) % SIZES
                && allocCount == old(allocCount) + 1 && activeAllocs == old(activeAllocs) + 1
                && peakUsage == if currentUsage > old(peakUsage) then currentUsage else old(peakUsage)
      ensures r != Ok ==> totalAllocated == old(totalAllocated) && currentUsage == old(currentUsage)
      ensures r != Ok ==> peakUsage == old(peakUsage)
      ensures r != Ok ==> activeAllocs == old(activeAllocs) && allocCount == old(allocCount)
      ensures totalFreed == old(totalFreed) && freeCount == old(freeCount)
    {
      hide Agree, Usage, Actives;
      if ptr == 0 {
        return ParamError;
      }
      if !initialized {
        return Error;
      }
      var slot := FirstFree();
      if slot < 0 {
        return TrackError;
      }
      Enter(slot, ptr, n);
      r := Ok;
    }

    method FirstFree() returns (slot: int)
      requires tracks.Length == MAX_TRACKS
      ensures -1 <= slot < MAX_TRACKS
      ensures slot >= 0 ==> !tracks[slot].active
      ensures forall k :: 0 <= k < (if slot < 0 then MAX_TRACKS else slot) ==> tracks[k].active
    {
      for i := 0 to MAX_TRACKS
        invariant forall k :: 0 <= k < i ==> tracks[k].active
      {
        if !tracks[i].active {
          return i;
        }
      }
      slot := -1;
    }

    method Enter(slot: nat, ptr: nat, n: nat)
      requires Valid() && slot < MAX_TRACKS && !tracks[slot].active && n < SIZES
      modifies this`totalAllocated, this`currentUsage, this`peakUsage, this`allocCount, this`activeAllocs, this`most
      modifies tracks
      ensures Valid() && tracks[..] == old(tracks[..])[slot := Track(true, ptr, n)]
      ensures Usage(tracks[..]) == old(Usage(tracks[..])) + n && Actives(tracks[..]) == old(Actives(tracks[..])) + 1
      ensures most == if Usage(tracks[..]) > old(most) then Usage(tracks[..]) else old(most)
      ensures totalAllocated == (old(totalAllocated) + n) % SIZES && currentUsage == (old(currentUsage) + n) % SIZES
      ensures allocCount == old(allocCount) + 1 && activeAllocs == old(activeAllocs) + 1
      ensures peakUsage == if currentUsage > old(peakUsage) then currentUsage else old(peakUsage)
    {
      hide Agree, Usage, Actives;
      UsageUpdate(tracks[..], slot, Track(true, ptr, n));
      AllocAgrees(Usage(tracks[..]), currentUsage, totalFreed, totalAllocated, n);
      InRange(Usage(tracks[..]) + n, (currentUsage + n) % SIZES, totalFreed, (totalAllocated + n) % SIZES);
      tracks[slot] := Track(true, ptr, n);
      assert tracks[..] == old(tracks[..])[slot := Track(true, ptr, n)];
      totalAllocated := (totalAllocated + n) % SIZES;
      currentUsage := (currentUsage + n) % SIZES;
      allocCount, activeAllocs := allocCount + 1, activeAllocs + 1;
      most := if Usage(tracks[..]) > most then Usage(tracks[..]) else most;
      if currentUsage > peakUsage {
        peakUsage := currentUsage;
      }
    }

    // mem_track_free drops the first entry of that address.
    method Free(ptr: nat) returns (r: Status)
      requires Valid()
      modifies this`totalFreed, this`currentUsage, this`freeCount, this`activeAllocs, tracks
      ensures Valid() && initialized == old(initialized) && peakUsage == old(peakUsage) && most == old(most)
      ensures r == if ptr == 0 then ParamError else if !initialized then Error
                   else if forall i :: 0 <= i < MAX_TRACKS ==>
                     !old(tracks[i].active && tracks[i].ptr == ptr) then Error else Ok
      ensures r != Ok ==> tracks[..] == old(tracks[..])
      ensures r == Ok ==>
                exists i ::
                  && 0 <= i < MAX_TRACKS && old(tracks[i].active && tracks[i].ptr == ptr)
                  && (forall k :: 0 <= k < i ==> !old(tracks[k].active && tracks[k].ptr == ptr))
                  && tracks[..] == old(tracks[..])[i := Track(false, 0, 0)]
                  && Usage(tracks[..]) == old(Usage(tracks[..])) - old(tracks[i].size)
                  && totalFreed == (old(totalFreed) + old(tracks[i].size)) % SIZES
                  && currentUsage == (old(currentUsage) - old(tracks[i].size)) % SIZES
      ensures r == Ok ==> freeCount == old(freeCount) + 1 && activeAllocs == old(activeAllocs) - 1
      ensures r != Ok ==> totalFreed == old(totalFreed) && currentUsage == old(currentUsage)
      ensures r != Ok ==> freeCount == old(freeCount) && activeAllocs == old(activeAllocs)
    {
      hide Agree, Usage, Actives;
      if ptr == 0 {
        return ParamError;
      }
      if !initialized {
        return Error;
      }
      for i := 0 to MAX_TRACKS
        invariant Valid() && initialized && tracks[..] == old(tracks[..]) && peakUsage == old(peakUsage)
                  && most == old(most)
        invariant forall k :: 0 <= k < i ==> !(tracks[k].active && tracks[k].ptr == ptr)
        invariant totalFreed == old(totalFreed) && currentUsage == old(currentUsage)
        invariant freeCount == old(freeCount) && activeAllocs == old(activeAllocs)
      {
        if tracks[i].active && tracks[i].ptr == ptr {
          Drop(i);
          return Ok;
        }
      }
      r := Error;
    }

    method Drop(i: nat)
      requires Valid() && i < MAX_TRACKS && tracks[i].active
      modifies this`totalFreed, this`currentUsage, this`freeCount, this`activeAllocs, tracks
      ensures Valid() && tracks[..] == old(tracks[..])[i := Track(false, 0, 0)]
      ensures Usage(tracks[..]) == old(Usage(tracks[..])) - old(tracks[i].size)
      ensures totalFreed == (old(totalFreed) + old(tracks[i].size)) % SIZES
      ensures currentUsage == (old(currentUsage) - old(tracks[i].size)) % SIZES
      ensures freeCount == old(freeCount) + 1 && activeAllocs == old(activeAllocs) - 1
    {
      hide Agree, Usage, Actives;
      UsageUpdate(tracks[..], i, Track(false, 0, 0));
      FreeAgrees(Usage(tracks[..]), currentUsage, totalFreed, totalAllocated, tracks[i].size);
      totalFreed := (totalFreed + tracks[i].size) % SIZES;
      currentUsage := (currentUsage - tracks[i].size) % SIZES;
      freeCount, activeAllocs := freeCount + 1, activeAllocs - 1;
      tracks[i] := Track(false, 0, 0);
      assert tracks[..] == old(tracks[..])[i := Track(false, 0, 0)];
    }

    // mem_track_detect_leaks
    method DetectLeaks() returns (count: int)
      requires Valid()
      modifies this`leakCount
      ensures Valid() && count == leakCount == Actives(tracks[..]) == activeAllocs
    {
      count := 0;
      for i := 0 to MAX_TRACKS
        invariant count == Actives(tracks[..i])
      {
        assert tracks[..i + 1][..i] == tracks[..i];
        if tracks[i].active {
          count := count + 1;
        }
      }
      assert tracks[..MAX_TRACKS] == tracks[..];
      leakCount := count;
    }
  }
}

/** The table of watched file descriptors, and how the backend is brought into line with it. */
module FdTable {
  import opened Watchers
  import opened WatcherLists
  import opened Arrays
  import opened Backends
  import opened Pending

  // EV_ANFD_REIFY is bit 0, as EV_READ is.
  const ANFD_REIFY: Events := {READ}

  const KILLED: Events := {ERROR, READ, WRITE}

  // The head of an fd's list is kept apart, in FdLists.
  datatype Anfd = Anfd(events: Events, reify: Events)

  // From index n on, fdchanges holds each fd whose reify flags are set, exactly once.
  ghost predicate Changes(anfds: seq<Anfd>, fdchanges: seq<nat>, n: nat) {
    && n <= |fdchanges|
    && (forall i :: n <= i < |fdchanges| ==> fdchanges[i] < |anfds| && anfds[fdchanges[i]].reify != {})
    && (forall i, j :: n <= i < j < |fdchanges| ==> fdchanges[i] != fdchanges[j])
    && (forall f :: 0 <= f < |anfds| && anfds[f].reify != {} ==> exists i :: n <= i < |fdchanges| && fdchanges[i] == f)
  }

  lemma FlagKeepsChanges(anfds: seq<Anfd>, fdchanges: seq<nat>, n: nat, fd: nat, flags: Events)
    requires Changes(anfds, fdchanges, n) && fd < |anfds| && flags != {}
    ensures var marked := anfds[fd := anfds[fd].(reify := anfds[fd].reify + flags)];
            Changes(marked, fdchanges + if anfds[fd].reify == {} then [fd] else [], n)
  {
    var marked := anfds[fd := anfds[fd].(reify := anfds[fd].reify + flags)];
    var more := fdchanges + if anfds[fd].reify == {} then [fd] else [];
    assert flags <= marked[fd].reify;
    forall f | 0 <= f < |anfds| && marked[f].reify != {} ensures exists i :: n <= i < |more| && more[i] == f {
      if anfds[f].reify != {} {
        var i :| n <= i < |fdchanges| && fdchanges[i] == f;
        assert more[i] == f;
      } else {
        assert f == fd && more[|fdchanges|] == fd;
      }
    }
  }

  lemma FlaggedIsListed(anfds: seq<Anfd>, fdchanges: seq<nat>, n: nat, fd: nat)
    requires Changes(anfds, fdchanges, n) && fd < |anfds| && anfds[fd].reify != {}
    ensures fdchanges != []
  {
  }

  lemma GrowKeepsChanges(anfds: seq<Anfd>, more: seq<Anfd>, fdchanges: seq<nat>, n: nat)
    requires Changes(anfds, fdchanges, n) && forall f :: 0 <= f < |more| ==> more[f].reify == {}
    ensures Changes(anfds + more, fdchanges, n)
  {
  }

  // The first change is dealt with.
  lemma UnflagKeepsChanges(anfds: seq<Anfd>, fdchanges: seq<nat>, n: nat, events: Events)
    requires Changes(anfds, fdchanges, n) && n < |fdchanges|
    ensures fdchanges[n] < |anfds| && Changes(anfds[fdchanges[n] := Anfd(events, {})], fdchanges, n + 1)
  {
  }

  // What the backend is told when these changes are dealt with one after the other: the former and the wanted events of
  // each fd where they differ, or that may have been opened anew.
  ghost function ToTell(anfds: seq<Anfd>, wanted: seq<Events>, changes: seq<nat>): seq<Call> {
    if changes == [] then []
    else
      var f := changes[0];
      (if f < |anfds| == |wanted| && (IOFDSET in anfds[f].reify || anfds[f].events != wanted[f])
       then [Call(f, anfds[f].events, wanted[f])] else [])
      + ToTell(anfds, wanted, changes[1..])
  }

  // It is told of such an fd and of no other, with just these events, and once.
  lemma {:induction false} ToldIff(anfds: seq<Anfd>, wanted: seq<Events>, changes: seq<nat>, c: Call)
    requires |anfds| == |wanted| && forall i :: 0 <= i < |changes| ==> changes[i] < |anfds|
    ensures c in ToTell(anfds, wanted, changes) <==>
            && c.fd in changes && c.oev == anfds[c.fd].events && c.nev == wanted[c.fd]
            && (IOFDSET in anfds[c.fd].reify || c.oev != c.nev)
  {
    if changes != [] {
      ToldIff(anfds, wanted, changes[1..], c);
      assert changes == [changes[0]] + changes[1..];
    }
  }

  lemma {:induction false} ToldOnce(anfds: seq<Anfd>, wanted: seq<Events>, changes: seq<nat>, i: nat, j: nat)
    requires |anfds| == |wanted| && forall i :: 0 <= i < |changes| ==> changes[i] < |anfds|
    requires forall i, j :: 0 <= i < j < |changes| ==> changes[i] != changes[j]
    requires i < j < |ToTell(anfds, wanted, changes)|
    ensures ToTell(anfds, wanted, changes)[i].fd != ToTell(anfds, wanted, changes)[j].fd
  {
    var told, rest := ToTell(anfds, wanted, changes), ToTell(anfds, wanted, changes[1..]);
    if |told| == |rest| {
      ToldOnce(anfds, wanted, changes[1..], i, j);
    } else if i > 0 {
      ToldOnce(anfds, wanted, changes[1..], i - 1, j - 1);
    } else {
      assert told[j] == rest[j - 1];
      ToldIff(anfds, wanted, changes[1..], rest[j - 1]);
    }
  }

  // Changes elsewhere do not matter.
  lemma {:induction false} ToTellSame(a: seq<Anfd>, w: seq<Events>, b: seq<Anfd>, v: seq<Events>, changes: seq<nat>)
    requires |a| == |b| == |w| == |v| && forall f :: f in changes && f < |a| ==> a[f] == b[f] && w[f] == v[f]
    ensures ToTell(a, w, changes) == ToTell(b, v, changes)
  {
    if changes != [] { ToTellSame(a, w, b, v, changes[1..]); }
  }

  lemma {:induction false} ToTellAppend(a: seq<Anfd>, w: seq<Events>, changes: seq<nat>, f: nat)
    ensures ToTell(a, w, changes + [f]) == ToTell(a, w, changes) + ToTell(a, w, [f])
  {
    if changes == [] {
      assert changes + [f] == [f];
    } else {
      ToTellAppend(a, w, changes[1..], f);
      assert (changes + [f])[1..] == changes[1..] + [f];
    }
  }

  // And then of the fds that it gave up, on which nothing is wanted any more
  ghost function Dropped(lost: seq<nat>, wanted: seq<Events>): seq<Call> {
    if lost == [] then []
    else
      var f := lost[|lost| - 1];
      Dropped(lost[..|lost| - 1], wanted) + [Call(f, if f < |wanted| then wanted[f] else {}, {})]
  }

  ghost predicate SameBut(was: seq<Events>, now: seq<Events>, lost: seq<nat>) {
    |was| == |now| && forall f :: 0 <= f < |now| && f !in lost ==> now[f] == was[f]
  }

  lemma Tails(changes: seq<nat>, n: nat, more: seq<nat>)
    requires n < |changes|
    ensures changes[n..] == [changes[n]] + changes[n + 1..]
    ensures (changes + more)[n + 1..] == changes[n + 1..] + more
  {
  }

  lemma DroppedMore(lost: seq<nat>, wanted: seq<Events>, fd: nat)
    ensures Dropped(lost + [fd], wanted) ==
            Dropped(lost, wanted) + [Call(fd, if fd < |wanted| then wanted[fd] else {}, {})]
  {
    assert (lost + [fd])[..|lost|] == lost;
  }

  lemma Regroup<T>(calls: seq<T>, one: seq<T>, left: seq<T>, due: seq<T>, more: seq<T>, before: seq<T>, dropped: seq<T>)
    requires one + left == due + more && calls + due == before + dropped
    ensures (calls + one) + left == before + (dropped + more)
  {
    assert (calls + one) + left == calls + (one + left);
    assert calls + (due + more) == (calls + due) + more;
  }

  // Of the change of fd the backend has been told, and maybe has given it up.
  lemma ToldOf(a: seq<Anfd>, w: seq<Events>, fd: nat, rest: seq<nat>, gone: bool, b: seq<Anfd>, v: seq<Events>)
    requires fd < |a| == |w| == |b| == |v| && fd !in rest && (gone ==> w[fd] != {})
    requires b == a[fd := Anfd(w[fd], if gone then ANFD_REIFY else {})] && v == (if gone then w[fd := {}] else w)
    ensures ToTell(a, w, [fd]) + ToTell(b, v, rest + if gone then [fd] else [])
            == ToTell(a, w, [fd] + rest) + if gone then [Call(fd, w[fd], {})] else []
  {
    hide ToTell;
    ToTellFirst(a, w, fd, rest);
    ToTellSame(a, w, b, v, rest);
    if gone {
      ToTellAppend(b, v, rest, fd);
      ToTellOne(b, v, fd);
    } else {
      assert rest + [] == rest;
    }
  }

  lemma ToTellOne(a: seq<Anfd>, w: seq<Events>, f: nat)
    requires f < |a| == |w|
    ensures ToTell(a, w, [f]) ==
            if IOFDSET in a[f].reify || a[f].events != w[f] then [Call(f, a[f].events, w[f])] else []
  {
    assert [f][1..] == [];
    assert ToTell(a, w, []) == [];
  }

  lemma ToTellFirst(a: seq<Anfd>, w: seq<Events>, f: nat, rest: seq<nat>)
    ensures ToTell(a, w, [f] + rest) == ToTell(a, w, [f]) + ToTell(a, w, rest)
  {
    assert ([f] + rest)[1..] == rest && [f][1..] == [];
    assert ToTell(a, w, []) == [];
  }

  // What a reify starts from: the started watchers, what has been fed to each, the trace, the calls that the backend
  // has had and those that are due, and what is wanted on each fd
  datatype Before = Before(started: set<Watcher>, fed: map<Watcher, seq<Events>>, trace: seq<Step>,
                           calls: seq<Call>, wanted: seq<Events>)

  lemma ToldSum(a: seq<Anfd>, v: seq<Events>, b: seq<Anfd>, w: seq<Events>, fd: nat, rest: seq<nat>, gone: bool,
                calls: seq<Call>, before: seq<Call>, lost: seq<nat>, wanted: seq<Events>)
    requires fd < |a| == |w| == |b| == |v| == |wanted| && fd !in rest && (gone ==> w[fd] != {} && w[fd] == wanted[fd])
    requires b == a[fd := Anfd(w[fd], if gone then ANFD_REIFY else {})] && v == (if gone then w[fd := {}] else w)
    requires calls + ToTell(a, w, [fd] + rest) == before + Dropped(lost, wanted)
    ensures (calls + ToTell(a, w, [fd])) + ToTell(b, v, rest + if gone then [fd] else []) ==
            before + Dropped(lost + if gone then [fd] else [], wanted)
  {
    hide ToTell, Dropped;
    ToldOf(a, w, fd, rest, gone, b, v);
    DroppedMore(lost, wanted, fd);
    var more := if gone then [Call(fd, w[fd], {})] else [];
    var one, left := ToTell(a, w, [fd]), ToTell(b, v, rest + if gone then [fd] else []);
    Regroup(calls, one, left, ToTell(a, w, [fd] + rest), more, before, Dropped(lost, wanted));
    if !gone {
      assert lost + [] == lost && Dropped(lost, wanted) + more == Dropped(lost, wanted);
    }
  }

  class Table {
    var anfds: seq<Anfd>
    var fdchanges: seq<nat>
    const fds: FdLists
    const backend: Backend
    const queue: PendingQueues

    // Different objects play the different parts.
    ghost predicate Apart()
      reads this`anfds
    {
      && backend.Object() != this && backend.Object() != queue && backend.Object() != fds
      && fds.known <= queue.known && forall w :: w in fds.known ==> w != backend.Object()
    }

    // The events of every fd that has not changed are those its watchers want.
    ghost predicate CleanBut(but: int)
      requires fds.Within()
      reads this`anfds, fds, fds.known`events
    {
      forall f :: 0 <= f < |anfds| && f != but && anfds[f].reify == {} ==> anfds[f].events == fds.WantedOn(f)
    }

    // The backend watches what the table says.
    ghost predicate Synced()
      reads this`anfds, backend.Object()
    {
      && backend.Valid()
      && (forall f :: 0 <= f < |anfds| ==> backend.Interest(f) == anfds[f].events && anfds[f].events <= {READ, WRITE})
      && (forall f: nat :: f >= |anfds| ==> backend.Interest(f) == {})
    }

    ghost predicate Prioritised()
      reads fds.known`active, fds.known`priority
    {
      forall w :: w in fds.known && w.active != 0 ==> 0 <= w.AbsPri() < NUMPRI
    }

    // All that holds of the table when the changes before index n have been dealt with; `but` is an fd still to be
    // flagged.
    ghost predicate Own(n: nat, but: int)
      requires fds.Within()
      reads this, fds, backend.Object(), fds.known`active, fds.known`next, fds.known`fd, fds.known`events
      reads fds.known`priority
    {
      && Apart() && Prioritised()
      && fds.Valid() && |fds.heads| == |anfds|
      && n <= |fdchanges| && Changes(anfds, fdchanges, n) && CleanBut(but) && Synced()
    }

    ghost predicate Inv(n: nat, but: int)
      reads this, fds, backend.Object(), fds.known`active, fds.known`next, fds.known`fd, fds.known`events
      reads fds.known`priority
      reads queue`pendings, queue`pendingpri, queue`trace, queue.known`pending, queue.known`priority, queue.known`fed
    {
      fds.Within() && Own(n, but) && queue.Valid()
    }

    ghost predicate Valid()
      reads this, fds, backend.Object(), queue`pendings, queue`pendingpri, queue`trace, queue.known`pending
      reads queue.known`priority, queue.known`fed
      reads fds.known`active, fds.known`next, fds.known`fd, fds.known`events, fds.known`priority
    {
      Inv(0, -1)
    }

    constructor (fds: FdLists, queue: PendingQueues, backend: Backend)
      requires fds.Valid() && fds.heads == [] && fds.known <= queue.known && queue.Valid()
      requires backend.Valid() && forall f: nat :: backend.Interest(f) == {}
      ensures Valid() && this.fds == fds && this.queue == queue && this.backend == backend && anfds == []
    {
      anfds, fdchanges := [], [];
      this.fds, this.queue, this.backend := fds, queue, backend;
    }

    // fd_change
    method FdChange(fd: nat, flags: Events, ghost n: nat)
      requires Inv(n, fd) && fd < |anfds| && flags != {}
      modifies this
      ensures Inv(n, -1) && |fdchanges| <= old(|fdchanges|) + 1
      ensures anfds == old(anfds)[fd := old(anfds[fd]).(reify := old(anfds[fd].reify) + flags)]
      ensures fdchanges == old(fdchanges) + if old(anfds[fd].reify) == {} then [fd] else []
    {
      hide Changes, FdLists.Valid, PendingQueues.Valid, Prioritised;
      FlagKeepsChanges(anfds, fdchanges, n, fd, flags);
      var reify := anfds[fd].reify;
      anfds := anfds[fd := anfds[fd].(reify := reify + flags)];
      if reify == {} {
        fdchanges := fdchanges + [fd];
      }
      assert fdchanges == old(fdchanges) + if reify == {} then [fd] else [];
    }

    // array_needsize with array_init_zero
    method NeedSize(need: nat)
      requires Valid()
      modifies this, fds
      ensures Valid() && need <= |anfds| && old(anfds) <= anfds && fdchanges == old(fdchanges)
      ensures forall f: nat :: fds.WantedOn(f) == old(fds.WantedOn(f))
    {
      hide Own, PendingQueues.Valid, FdLists.WantedOn;
      assert allocated(backend.Object());
      if need > |anfds| {
        var max := ArrayNextSize(12, |anfds|, need, PTR);
        GrowTable(max);
      }
    }

    method GrowTable(size: nat)
      requires Valid() && size >= |anfds|
      modifies this`anfds, fds
      ensures Valid() && |anfds| == size && old(anfds) <= anfds
      ensures forall f: nat :: fds.WantedOn(f) == old(fds.WantedOn(f))
    {
      hide Changes, FdLists.Valid, PendingQueues.Valid, Prioritised;
      fds.Grow(size);
      var more := seq(size - |anfds|, _ => Anfd({}, {}));
      GrowKeepsChanges(anfds, more, fdchanges, 0);
      anfds := anfds + more;
    }

    // ev_io_start; the asserts there are its precondition
    method IoStart(w: Watcher)
      requires Valid() && w in fds.known && (w.active == 0 ==> w.fd >= 0 && w.events <= {READ, WRITE, IOFDSET})
      modifies this, fds, w`priority, w`active, w`next, w`events
      ensures Valid()
      ensures old(w.active) != 0 ==> anfds == old(anfds) && fds.lists == old(fds.lists) && w.events == old(w.events)
      ensures old(w.active) == 0 ==>
                && w.active == 1 && w.priority == ClampPriority(old(w.priority))
                && w.events == old(w.events) - {IOFDSET}
                && fds.WantedOn(w.fd) == old(fds.WantedOn(w.fd)) + w.events
                && w.fd < |anfds| && ANFD_REIFY <= anfds[w.fd].reify
                && (IOFDSET in old(w.events) ==> IOFDSET in anfds[w.fd].reify)
      ensures forall f: nat :: f != w.fd ==> fds.WantedOn(f) == old(fds.WantedOn(f))
      ensures fdchanges == [] <==> old(fdchanges) == [] && old(w.active) != 0
      ensures |old(anfds)| <= |anfds| && w.active != 0
      ensures w.priority == old(w.priority) || w.priority == ClampPriority(old(w.priority))
    {
      hide Changes, FdLists.Valid, PendingQueues.Valid, FdLists.WantedOn, CleanBut, Synced;
      if w.active != 0 {
        return;
      }
      queue.AdjustPriority(w);
      NeedSize(w.fd + 1);
      LinkAndFlag(w);
    }

    method LinkAndFlag(w: Watcher)
      requires Valid() && w in fds.known && w.active == 0 && 0 <= w.fd < |anfds| && w.events <= {READ, WRITE, IOFDSET}
      requires 0 <= w.AbsPri() < NUMPRI
      modifies this, fds, w`active, w`next, w`events
      ensures Valid() && w.active == 1 && w.events == old(w.events) - {IOFDSET} && |anfds| == |old(anfds)|
      ensures fds.WantedOn(w.fd) == old(fds.WantedOn(w.fd)) + w.events
      ensures w.fd < |anfds| && ANFD_REIFY <= anfds[w.fd].reify
              && (IOFDSET in old(w.events) ==> IOFDSET in anfds[w.fd].reify)
      ensures (forall f: nat :: f != w.fd ==> fds.WantedOn(f) == old(fds.WantedOn(f))) && fdchanges != []
    {
      hide Changes, FdLists.Valid, PendingQueues.Valid, FdLists.WantedOn, Watcher.AbsPri;
      var flags := w.events * {IOFDSET} + ANFD_REIFY;
      fds.Link(w);
      FdChange(w.fd, flags, 0);
      FlaggedIsListed(anfds, fdchanges, 0, w.fd);
    }

    // ev_io_stop; in fd_reify it may run when the changes before index n have been dealt with
    method IoStop(w: Watcher, ghost n: nat)
      requires Inv(n, -1) && w in fds.known
      modifies this, fds, queue`pendings, queue`trace, w`pending, w`fed, w`active, fds.known`next
      ensures Inv(n, -1) && w.active == 0 && w.fed == []
      ensures |anfds| == old(|anfds|) && forall f: nat :: f != w.fd ==> fds.WantedOn(f) == old(fds.WantedOn(f))
      ensures old(w.active) == 0 ==> anfds == old(anfds) && fdchanges == old(fdchanges) && fds.lists == old(fds.lists)
      ensures old(w.active) != 0 ==>
                && 0 <= w.fd < |anfds|
                && fds.lists == old(fds.lists)[w.fd := Without(old(fds.lists[w.fd]), w)]
      ensures n == 0 ==> (fdchanges == [] <==> old(fdchanges) == [] && old(w.active) == 0)
      ensures ClearsOnly(old(queue.trace), queue.trace, w)
      ensures old(w.active) != 0 ==>
                && anfds == old(anfds)[w.fd := old(anfds)[w.fd].(reify := old(anfds)[w.fd].reify + ANFD_REIFY)]
                && fdchanges == old(fdchanges) + if old(anfds)[w.fd].reify == {} then [w.fd] else []
    {
      hide Changes, FdLists.Valid, PendingQueues.Valid, FdLists.WantedOn;
      var _ := queue.ClearPending(w);
      if w.active == 0 {
        return;
      }
      fds.Unlink(w);
      FdChange(w.fd, ANFD_REIFY, n);
      FlaggedIsListed(anfds, fdchanges, n, w.fd);
    }
  
    // The started I/O watchers
    ghost function Started(): set<Watcher>
      reads fds, fds.known`active
    {
      set w | w in fds.known && w.active != 0
    }

    // Since `was`, only watchers of lost fds have been stopped, and they have been fed the error events and nothing
    // else; what is pending of the others is as it was. The trace says so.
    ghost predicate OnlyKilled(was: Before, lost: seq<nat>)
      reads fds, fds.known`active, fds.known`fed, fds.known`fd, queue`trace
    {
      && Started() <= was.started <= fds.known == was.fed.Keys
      && (forall w :: w in was.started && w.active == 0 ==> w.fed == [KILLED] && w.fd in lost)
      && (forall w :: w in fds.known && (w !in was.started || w.active != 0) ==> w.fed == was.fed[w])
      && was.trace <= queue.trace
      && (forall k :: |was.trace| <= k < |queue.trace| ==> KillStep(queue.trace[k], was.started, lost))
    }

    // A watcher of a lost fd is fed the error events, or what was pending of it is cleared.
    ghost predicate KillStep(s: Step, started: set<Watcher>, lost: seq<nat>)
      reads fds.known`fd
    {
      match s
      case Fed(w, e) => w in started && w in fds.known && w.fd in lost && e == KILLED
      case Cleared(w, _) => w in started && w in fds.known && w.fd in lost
      case Invoked(_) => false
    }

    // No watcher of a lost fd is left.
    ghost predicate Emptied(lost: seq<nat>)
      reads fds
    {
      forall f :: f in lost ==> f < |fds.lists| && fds.lists[f] == []
    }

    // What is wanted on every fd of the table
    ghost function Wanteds(): (r: seq<Events>)
      requires fds.Within()
      reads this`anfds, fds, fds.known`events
      ensures |r| == |anfds| && forall f :: 0 <= f < |anfds| ==> r[f] == fds.WantedOn(f)
    {
      WantedBelow(|anfds|)
    }

    ghost function WantedBelow(n: nat): (r: seq<Events>)
      requires fds.Within()
      reads fds, fds.known`events
      ensures |r| == n && forall f :: 0 <= f < n ==> r[f] == fds.WantedOn(f)
    {
      if n == 0 then [] else WantedBelow(n - 1) + [fds.WantedOn(n - 1)]
    }

    // What the backend has been told, and what it will be told of the changes from index n on, is what was due, and the
    // end of the interest in each lost fd; on the others is wanted what was.
    ghost predicate Telling(n: nat, was: Before, lost: seq<nat>)
      requires fds.Within() && n <= |fdchanges|
      reads this`anfds, this`fdchanges, fds, fds.known`events, backend.Object()
    {
      && backend.Calls() + ToTell(anfds, Wanteds(), fdchanges[n..]) == was.calls + Dropped(lost, was.wanted)
      && SameBut(was.wanted, Wanteds(), lost)
    }

    ghost function Snapshot(): Before
      requires fds.Within()
      reads this, fds, fds.known`active, fds.known`events, fds.known`fed, queue`trace, backend.Object()
    {
      Before(Started(), map w | w in fds.known :: w.fed, queue.trace,
             backend.Calls() + ToTell(anfds, Wanteds(), fdchanges), Wanteds())
    }

    lemma ReifyStarts()
      requires Valid()
      ensures OnlyKilled(Snapshot(), []) && Telling(0, Snapshot(), []) && Emptied([])
    {
      assert fdchanges[0..] == fdchanges;
    }

    method KillOne(w: Watcher, ghost n: nat) returns (ghost mid: seq<Step>)
      requires Inv(n, -1) && w in Started()
      modifies this, fds, queue`pendings, queue`pendingpri, queue`trace, w`pending, w`fed, w`active, fds.known`next
      ensures Inv(n, -1) && |anfds| == old(|anfds|) && w.active == 0 && w.fed == [KILLED]
      ensures 0 <= w.fd < |old(fds.lists)| && fds.lists == old(fds.lists)[w.fd := Without(old(fds.lists[w.fd]), w)]
      ensures forall f: nat :: f != w.fd ==> fds.WantedOn(f) == old(fds.WantedOn(f))
      ensures w.fd < |anfds|
      ensures anfds == old(anfds)[w.fd := old(anfds)[w.fd].(reify := old(anfds)[w.fd].reify + ANFD_REIFY)]
      ensures fdchanges == old(fdchanges) + if old(anfds)[w.fd].reify == {} then [w.fd] else []
      ensures ClearsOnly(old(queue.trace), mid, w) && queue.trace == mid + [Fed(w, KILLED)]
    {
      hide Changes, FdLists.Valid, PendingQueues.Valid, FdLists.WantedOn;
      IoStop(w, n);
      mid := queue.trace;
      queue.FeedEvent(w, KILLED);
    }

    // And nobody else
    method KillNext(w: Watcher, ghost n: nat, ghost was: Before, ghost lost: seq<nat>)
      requires Inv(n, -1) && OnlyKilled(was, lost) && w in Started() && w.fd in lost
      modifies this, fds, queue`pendings, queue`pendingpri, queue`trace, w`pending, w`fed, w`active, fds.known`next
      ensures Inv(n, -1) && OnlyKilled(was, lost) && |anfds| == old(|anfds|) && w.active == 0
      ensures 0 <= w.fd < |old(fds.lists)| && fds.lists == old(fds.lists)[w.fd := Without(old(fds.lists[w.fd]), w)]
      ensures forall f: nat :: f != w.fd ==> fds.WantedOn(f) == old(fds.WantedOn(f))
      ensures w.fd < |anfds|
      ensures anfds == old(anfds)[w.fd := old(anfds)[w.fd].(reify := old(anfds)[w.fd].reify + ANFD_REIFY)]
      ensures fdchanges == old(fdchanges) + if old(anfds)[w.fd].reify == {} then [w.fd] else []
      ensures old(queue.trace) <= queue.trace
    {
      hide Inv, FdLists.WantedOn;
      ghost var mid := KillOne(w, n);
    }

    // fd_kill
    method FdKill(fd: nat, ghost n: nat, ghost was: Before, ghost lost: seq<nat>)
      requires Inv(n, -1) && fd < |anfds| && OnlyKilled(was, lost) && fd in lost
      modifies this, fds, queue`pendings, queue`pendingpri, queue`trace, fds.known`pending, fds.known`fed
      modifies fds.known`active, fds.known`next
      ensures Inv(n, -1) && OnlyKilled(was, lost) && |anfds| == old(|anfds|)
      ensures fd < |old(fds.lists)| && fds.lists == old(fds.lists)[fd := []]
      ensures Started() <= old(Started()) && (old(fds.WantedOn(fd)) != {} ==> Started() != old(Started()))
      ensures fds.WantedOn(fd) == {} && forall f: nat :: f != fd ==> fds.WantedOn(f) == old(fds.WantedOn(f))
      ensures old(fds.WantedOn(fd)) != {} && old(anfds[fd].reify) == {} ==>
                && anfds == old(anfds)[fd := old(anfds[fd]).(reify := ANFD_REIFY)]
                && fdchanges == old(fdchanges) + [fd]
      ensures old(queue.trace) <= queue.trace
    {
      hide Changes, FdLists.Valid, PendingQueues.Valid, FdLists.WantedOn, CleanBut, Synced, OnlyKilled;
      while fds.heads[fd] != null
        invariant Inv(n, -1) && OnlyKilled(was, lost) && |anfds| == old(|anfds|) && fd < |fds.lists| == |old(fds.lists)|
        invariant fds.lists == old(fds.lists)[fd := fds.lists[fd]]
        invariant Started() <= old(Started()) && old(queue.trace) <= queue.trace
        invariant forall f: nat :: f != fd ==> fds.WantedOn(f) == old(fds.WantedOn(f))
        invariant Started() == old(Started()) ==>
                    && fds.WantedOn(fd) == old(fds.WantedOn(fd)) && anfds == old(anfds) && fdchanges == old(fdchanges)
        invariant Started() != old(Started()) && old(anfds[fd].reify) == {} ==>
                    && anfds == old(anfds)[fd := old(anfds[fd]).(reify := ANFD_REIFY)]
                    && fdchanges == old(fdchanges) + [fd]
        decreases Started()
      {
        var w := fds.heads[fd];
        fds.HeadIsStarted(fd);
        ghost var before := Started();
        assert {} + ANFD_REIFY == ANFD_REIFY + ANFD_REIFY == ANFD_REIFY;
        KillNext(w, n, was, lost);
        assert w in before && w !in Started();
      }
      fds.NoHeadNothingWanted(fd);
    }

    // Recomputes the events of the fd at index n of the changes, and tells the backend.
    method Update(n: nat) returns (gone: bool)
      requires Inv(n, -1) && n < |fdchanges|
      modifies this`anfds, backend.Object()
      ensures Inv(n + 1, -1) && |anfds| == old(|anfds|) && fdchanges[n] < |anfds|
      ensures anfds == old(anfds)[fdchanges[n] := Anfd(fds.WantedOn(fdchanges[n]), {})]
      ensures backend.Calls() ==
              old(backend.Calls())
              + (var was, events := old(anfds)[fdchanges[n]], fds.WantedOn(fdchanges[n]);
                 if IOFDSET in was.reify || was.events != events then [Call(fdchanges[n], was.events, events)] else [])
      ensures gone ==> fds.WantedOn(fdchanges[n]) != {} && backend.Faulty?
      ensures backend.Reported() == old(backend.Reported()) + if gone then [fdchanges[n]] else []
    {
      hide Changes, FdLists.Valid, PendingQueues.Valid, FdLists.WantedOn, Prioritised;
      UnflagKeepsChanges(anfds, fdchanges, n, fds.WantedOn(fdchanges[n]));
      var fd := fdchanges[n];
      var was := anfds[fd];
      var events := fds.Collect(fd);
      anfds := anfds[fd := Anfd(events, {})];
      gone := Tell(fd, was, events);
    }

    // The backend is told of an fd whose events have changed or that may be another file.
    method Tell(fd: nat, was: Anfd, events: Events) returns (gone: bool)
      requires backend.Valid() && was.events == backend.Interest(fd) && events <= {READ, WRITE}
      modifies backend.Object()
      ensures backend.Valid() && backend.Interest(fd) == events
      ensures forall g :: g != fd ==> backend.Interest(g) == old(backend.Interest(g))
      ensures backend.Calls() ==
              old(backend.Calls())
              + if IOFDSET in was.reify || was.events != events then [Call(fd, was.events, events)] else []
      ensures gone ==> events != {} && backend.Faulty?
      ensures backend.Reported() == old(backend.Reported()) + if gone then [fd] else []
    {
      var reify := if was.events != events then {IOFDSET} else was.reify;
      gone := false;
      if IOFDSET in reify {
        gone := backend.Modify(fd, was.events, events);
      }
    }

    // One turn of the loop in fd_reify; `lost` is what the backend has given up since the loop began.
    method ReifyOne(n: nat, ghost was: Before, ghost before: seq<nat>, ghost lost0: seq<nat>)
        returns (ghost lost: seq<nat>)
      requires Inv(n, -1) && n < |fdchanges| && OnlyKilled(was, lost0) && Emptied(lost0) && Telling(n, was, lost0)
      requires backend.Reported() == before + lost0
      modifies this, fds, backend.Object(), queue`pendings, queue`pendingpri, queue`trace
      modifies fds.known`pending, fds.known`fed, fds.known`active, fds.known`next
      ensures Inv(n + 1, -1) && OnlyKilled(was, lost) && Emptied(lost) && Telling(n + 1, was, lost)
      ensures backend.Reported() == before + lost && |anfds| == old(|anfds|)
      ensures Started() <= old(Started()) && (Started() == old(Started()) ==> fdchanges == old(fdchanges))
      ensures old(queue.trace) <= queue.trace
    {
      hide Changes, FdLists.Valid, PendingQueues.Valid, FdLists.WantedOn, CleanBut, Synced, OnlyKilled, Telling, ToTell,
        Wanteds, SameBut, Dropped, Prioritised;
      var fd := fdchanges[n];
      ToTellDistinct(n);
      ghost var a, w, changes, calls := anfds, Wanteds(), fdchanges, backend.Calls();
      TellingMeans(n, was, lost0);
      var gone := Update(n);
      assert Wanteds() == w;
      ToTellOne(a, w, fd);
      if gone {
        lost := GiveUp(fd, n + 1, was, lost0);
      } else {
        lost := lost0 + [];
        assert lost == lost0;
      }
      TellingNext(n, was, lost0, gone, a, w, changes, calls);
    }

    // The backend cannot watch fd: its watchers are killed, and it enters the changes once more.
    method GiveUp(fd: nat, ghost n: nat, ghost was: Before, ghost lost0: seq<nat>) returns (ghost lost: seq<nat>)
      requires Inv(n, -1) && fd < |anfds| && OnlyKilled(was, lost0) && Emptied(lost0)
      requires fds.WantedOn(fd) != {} && anfds[fd].reify == {}
      modifies this, fds, queue`pendings, queue`pendingpri, queue`trace, fds.known`pending, fds.known`fed
      modifies fds.known`active, fds.known`next
      ensures Inv(n, -1) && lost == lost0 + [fd] && OnlyKilled(was, lost) && Emptied(lost)
      ensures Started() < old(Started()) && Wanteds() == old(Wanteds())[fd := {}]
      ensures anfds == old(anfds)[fd := old(anfds[fd]).(reify := ANFD_REIFY)] && fdchanges == old(fdchanges) + [fd]
      ensures old(queue.trace) <= queue.trace
    {
      hide Changes, FdLists.Valid, PendingQueues.Valid, FdLists.WantedOn, CleanBut, Synced, OnlyKilled, Wanteds;
      LostMore(was, lost0, fd);
      lost := lost0 + [fd];
      FdKill(fd, n, was, lost);
      assert Wanteds() == old(Wanteds())[fd := {}];
    }

    lemma ToTellDistinct(n: nat)
      requires Inv(n, -1) && n < |fdchanges|
      ensures fdchanges[n] < |anfds| && fdchanges[n] !in fdchanges[n + 1..]
    {
    }

    lemma TellingMeans(n: nat, was: Before, lost: seq<nat>)
      requires Inv(n, -1) && Telling(n, was, lost) && Emptied(lost)
      ensures backend.Calls() + ToTell(anfds, Wanteds(), fdchanges[n..]) == was.calls + Dropped(lost, was.wanted)
      ensures SameBut(was.wanted, Wanteds(), lost) && forall f :: f in lost ==> fds.WantedOn(f) == {}
    {
    }

    lemma TellingNext(n: nat, was: Before, lost: seq<nat>, gone: bool, a: seq<Anfd>, w: seq<Events>, changes: seq<nat>,
                      calls: seq<Call>)
      requires fds.Within() && n < |changes| && n + 1 <= |fdchanges|
      requires var fd := changes[n];
               && fd < |a| == |w| == |anfds| && fd !in changes[n + 1..]
               && backend.Calls() == calls + ToTell(a, w, [fd])
               && anfds == a[fd := Anfd(w[fd], if gone then ANFD_REIFY else {})]
               && Wanteds() == (if gone then w[fd := {}] else w)
               && fdchanges == changes + (if gone then [fd] else [])
               && (gone ==> w[fd] != {} && fd !in lost)
      requires calls + ToTell(a, w, changes[n..]) == was.calls + Dropped(lost, was.wanted)
      requires SameBut(was.wanted, w, lost)
      ensures Telling(n + 1, was, lost + if gone then [changes[n]] else [])
    {
      hide ToTell, Dropped, FdLists.WantedOn;
      var fd, rest := changes[n], changes[n + 1..];
      Tails(changes, n, if gone then [fd] else []);
      ToldSum(a, Wanteds(), anfds, w, fd, rest, gone, calls, was.calls, lost, was.wanted);
    }

    lemma LostMore(was: Before, lost: seq<nat>, fd: nat)
      requires OnlyKilled(was, lost)
      ensures OnlyKilled(was, lost + [fd])
    {
    }

    // With all changes dealt with, no fd is dirty, and the backend watches what the watchers want.
    lemma AllClean()
      requires Inv(|fdchanges|, -1)
      ensures Changes(anfds, [], 0) && forall f: nat :: backend.Interest(f) == fds.WantedOn(f)
    {
      hide FdLists.Valid, PendingQueues.Valid;
    }

    lemma NoneChanged()
      requires Valid() && fdchanges == []
      ensures |anfds| == |fds.lists| && forall f :: 0 <= f < |anfds| ==> anfds[f].reify == {}
    {
      hide FdLists.WantedOn, PendingQueues.Valid, CleanBut, Synced;
    }

    // fd_reify ends however many fds the backend gives up, each of which enters fdchanges once more. The backend is
    // told of the changes, and then of the end of each fd that it gave up.
    method FdReify() returns (ghost lost: seq<nat>)
      requires Valid()
      modifies this, fds, backend.Object(), queue`pendings, queue`pendingpri, queue`trace
      modifies fds.known`pending, fds.known`fed, fds.known`active, fds.known`next
      ensures Valid() && fdchanges == [] && |anfds| == old(|anfds|)
      ensures forall f: nat :: backend.Interest(f) == fds.WantedOn(f)
      ensures backend.Reported() == old(backend.Reported()) + lost && Emptied(lost) && OnlyKilled(old(Snapshot()), lost)
      ensures backend.Calls() ==
              old(backend.Calls() + ToTell(anfds, Wanteds(), fdchanges)) + Dropped(lost, old(Wanteds()))
      ensures Started() == set w | w in old(Started()) && w.fd !in lost
      ensures old(queue.trace) <= queue.trace
    {
      hide Changes, FdLists.Valid, PendingQueues.Valid, FdLists.WantedOn, CleanBut, Synced, OnlyKilled, Telling, ToTell,
        Dropped, Prioritised;
      ReifyStarts();
      ghost var before, was := backend.Reported(), Snapshot();
      lost := [];
      var i := 0;
      while i < |fdchanges|
        invariant i <= |fdchanges| && Inv(i, -1) && OnlyKilled(was, lost) && |anfds| == old(|anfds|)
        invariant backend.Reported() == before + lost && Emptied(lost) && old(queue.trace) <= queue.trace
        invariant Telling(i, was, lost)
        decreases Started(), |fdchanges| - i
      {
        lost := ReifyOne(i, was, before, lost);
        i := i + 1;
      }
      AllTold(was, lost);
      AllClean();
      fdchanges := [];
    }

    lemma AllTold(was: Before, lost: seq<nat>)
      requires Inv(|fdchanges|, -1) && OnlyKilled(was, lost) && Emptied(lost) && Telling(|fdchanges|, was, lost)
      ensures backend.Calls() == was.calls + Dropped(lost, was.wanted)
      ensures Started() == set w | w in was.started && w.fd !in lost
    {
      assert fdchanges[|fdchanges|..] == [];
    }

    // What w wants of the events
    ghost function Portion(w: Watcher, revents: Events): seq<Events>
      reads w`events
    {
      if w.events * revents == {} then [] else [w.events * revents]
    }

    // Since `fed0` and `before`, the first k watchers of s have been fed what they want of the events, once, and nobody
    // else has been fed anything.
    ghost predicate Dispatched(s: seq<Watcher>, k: nat, revents: Events, fed0: map<Watcher, seq<Events>>,
                               before: seq<Step>)
      reads fds.known`fed, fds.known`events, queue`trace
    {
      && k <= |s| && fed0.Keys == fds.known
      && (forall w :: w in fds.known ==> w.fed == fed0[w] + if w in s[..k] then Portion(w, revents) else [])
      && before <= queue.trace
      && forall j :: |before| <= j < |queue.trace| ==>
           && queue.trace[j].Fed? && queue.trace[j].fw in fds.known && queue.trace[j].fw in s[..k]
           && [queue.trace[j].e] == Portion(queue.trace[j].fw, revents)
    }

    method DeliverOne(w: Watcher, revents: Events, ghost k: nat, ghost s: seq<Watcher>,
                      ghost fed0: map<Watcher, seq<Events>>, ghost before: seq<Step>)
      requires Valid() && w in Started() && k < |s| && w == s[k] && w !in s[..k]
               && Dispatched(s, k, revents, fed0, before)
      modifies queue`pendings, queue`pendingpri, queue`trace, w`pending, w`fed
      ensures Valid() && Dispatched(s, k + 1, revents, fed0, before)
    {
      hide Changes, FdLists.Valid, PendingQueues.Valid, FdLists.WantedOn;
      assert s[..k + 1] == s[..k] + [w];
      var ev := w.events * revents;
      if ev != {} {
        queue.FeedEvent(w, ev);
      }
    }

    ghost function FedNow(): map<Watcher, seq<Events>>
      reads fds.known`fed
    {
      map w | w in fds.known :: w.fed
    }

    lemma NoneDispatched(s: seq<Watcher>, revents: Events)
      ensures Dispatched(s, 0, revents, FedNow(), queue.trace)
    {
    }

    lemma Chain(fd: nat)
      requires Valid() && fd < |anfds|
      ensures fd < |fds.heads| == |fds.lists| && fds.heads[fd] == At(fds.lists[fd], 0)
      ensures forall i :: 0 <= i < |fds.lists[fd]| ==> fds.lists[fd][i].next == At(fds.lists[fd], i + 1)
      ensures forall i, j :: 0 <= i < j < |fds.lists[fd]| ==> fds.lists[fd][i] != fds.lists[fd][j]
      ensures forall w :: w in fds.lists[fd] ==> w in fds.known && w in Started()
    {
      fds.Chain(fd);
    }

    // fd_event_nocheck
    method FdEventNocheck(fd: nat, revents: Events)
      requires Valid() && fd < |anfds| == |fds.lists|
      modifies queue`pendings, queue`pendingpri, queue`trace, fds.known`pending, fds.known`fed
      ensures Valid()
      ensures Dispatched(fds.lists[fd], |fds.lists[fd]|, revents, old(FedNow()), old(queue.trace))
    {
      hide Inv, Dispatched, Started, FedNow;
      Chain(fd);
      ghost var s, fed0, before := fds.lists[fd], FedNow(), queue.trace;
      NoneDispatched(s, revents);
      ghost var k := 0;
      var w := fds.heads[fd];
      while w != null
        invariant Valid() && k <= |s| && w == At(s, k) && Dispatched(s, k, revents, fed0, before)
        decreases |s| - k
      {
        DeliverOne(w, revents, k, s, fed0, before);
        w := w.next;
        k := k + 1;
      }
      assert k == |s| && s == fds.lists[fd];
    }

    // What fd_event feeds to w: its portion, if it is started on this fd and the fd has not changed
    ghost function Share(w: Watcher, fd: nat, revents: Events): seq<Events>
      requires fd < |anfds|
      reads this`anfds, w`active, w`fd, w`events
    {
      if w.active != 0 && w.fd == fd && anfds[fd].reify == {} then Portion(w, revents) else []
    }

    // Every step since `before` is a watcher's share.
    ghost predicate SharesOnly(before: seq<Step>, fd: nat, revents: Events)
      requires fd < |anfds|
      reads this`anfds, queue`trace, fds.known`active, fds.known`fd, fds.known`events
    {
      && before <= queue.trace
      && forall j :: |before| <= j < |queue.trace| ==>
           && queue.trace[j].Fed? && queue.trace[j].fw in fds.known
           && [queue.trace[j].e] == Share(queue.trace[j].fw, fd, revents)
    }

    // fd_event: an fd that has changed since the poll gets nothing; each watcher of any other is fed its share.
    method FdEvent(fd: nat, revents: Events)
      requires Valid() && fd < |anfds| == |fds.lists|
      modifies queue`pendings, queue`pendingpri, queue`trace, fds.known`pending, fds.known`fed
      ensures Valid()
      ensures forall w :: w in fds.known ==> w.fed == old(w.fed) + Share(w, fd, revents)
      ensures SharesOnly(old(queue.trace), fd, revents)
    {
      hide Inv, Dispatched, Share, FdLists.Valid, SharesOnly;
      ghost var fed0, before := FedNow(), queue.trace;
      if anfds[fd].reify == {} {
        FdEventNocheck(fd, revents);
      }
      DispatchedShares(fd, revents, fed0, before);
    }

    lemma DispatchedShares(fd: nat, revents: Events, fed0: map<Watcher, seq<Events>>, before: seq<Step>)
      requires Valid() && fd < |anfds| == |fds.lists|
      requires if anfds[fd].reify == {} then Dispatched(fds.lists[fd], |fds.lists[fd]|, revents, fed0, before)
               else fed0 == FedNow() && before == queue.trace
      ensures fed0.Keys == fds.known && SharesOnly(before, fd, revents)
      ensures forall w :: w in fds.known ==> w.fed == fed0[w] + Share(w, fd, revents)
    {
      var s := fds.lists[fd];
      assert s[..|s|] == s;
      forall w | w in fds.known ensures w in s <==> w.active != 0 && w.fd == fd {
        fds.ListedIff(fd, w);
      }
    }

    // ev_feed_fd_event: no look at the changes, and nothing for an fd out of range
    method FeedFdEvent(fd: int, revents: Events)
      requires Valid() && |anfds| == |fds.lists|
      modifies queue`pendings, queue`pendingpri, queue`trace, fds.known`pending, fds.known`fed
      ensures Valid() && old(queue.trace) <= queue.trace
      ensures forall w :: w in fds.known ==>
                w.fed == old(w.fed) + if 0 <= fd < |anfds| && w in fds.lists[fd] then Portion(w, revents) else []
    {
      hide Inv;
      if 0 <= fd < |anfds| {
        FdEventNocheck(fd, revents);
        assert fds.lists[fd][..|fds.lists[fd]|] == fds.lists[fd];
      }
    }
  }
}

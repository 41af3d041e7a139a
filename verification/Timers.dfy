/** Starting, stopping, restarting, rescheduling and expiring timers and periodics. */
module Timers {
  import opened Options
  import opened Watchers
  import opened FourHeap
  import opened WatcherHeaps
  import opened Pending
  import opened Periodics

  datatype Kind = Timers | Periodics

  // The next due time of a repeating timer: no earlier than now.
  function NextDue(at: real, repeat: real, now: real): (r: real)
    ensures r >= now && r >= at + repeat
    ensures r == now || r == at + repeat
  {
    if at + repeat < now then now else at + repeat
  }

  ghost predicate Distinct(ws: seq<Watcher>) {
    forall i, j :: 0 <= i < j < |ws| ==> ws[i] != ws[j]
  }

  // The batch lists watchers that were overdue, earliest first.
  ghost predicate OverdueInOrder(batch: seq<Watcher>, keys0: map<Watcher, real>, now: real) {
    && Distinct(batch)
    && (forall w :: w in batch ==> w in keys0 && keys0[w] < now)
    && (forall i, j :: 0 <= i < j < |batch| ==> keys0[batch[i]] <= keys0[batch[j]])
  }

  ghost function OverdueOf(keys: map<Watcher, real>, now: real): set<Watcher> {
    set w | w in keys && keys[w] < now
  }

  // The due times after a batch has expired: `nexts` has the next due time of each watcher, None if it runs once.
  ghost function Expired(batch: seq<Watcher>, keys0: map<Watcher, real>, nexts: map<Watcher, Option<real>>)
    : map<Watcher, real>
    requires keys0.Keys <= nexts.Keys
  {
    map w | w in keys0 && !(w in batch && nexts[w].None?) :: if w in batch then nexts[w].value else keys0[w]
  }

  // The due times after w alone has expired.
  ghost function ExpiredOne(keys: map<Watcher, real>, w: Watcher, next: Option<real>): map<Watcher, real> {
    if next.Some? then keys[w := next.value] else keys - {w}
  }

  lemma ExpireOne(batch: seq<Watcher>, w: Watcher, keys0: map<Watcher, real>, nexts: map<Watcher, Option<real>>)
    requires keys0.Keys <= nexts.Keys && w in keys0 && w !in batch
    ensures Expired(batch + [w], keys0, nexts) == ExpiredOne(Expired(batch, keys0, nexts), w, nexts[w])
  {
  }

  // Nobody outside the batch was due before somebody in it.
  ghost predicate Earlier(batch: seq<Watcher>, keys0: map<Watcher, real>) {
    forall f, w :: f in batch && f in keys0 && w in keys0 && w !in batch ==> keys0[f] <= keys0[w]
  }

  // No next due time is already past.
  ghost predicate Future(keys0: map<Watcher, real>, nexts: map<Watcher, Option<real>>, now: real) {
    keys0.Keys <= nexts.Keys && forall w :: w in keys0 && nexts[w].Some? ==> now <= nexts[w].value
  }

  // The earliest overdue watcher is not in the batch yet, and comes after all that are.
  lemma NextInOrder(batch: seq<Watcher>, w: Watcher, keys0: map<Watcher, real>, nexts: map<Watcher, Option<real>>,
                    now: real)
    requires Future(keys0, nexts, now) && OverdueInOrder(batch, keys0, now) && Earlier(batch, keys0)
    requires var keys := Expired(batch, keys0, nexts);
             w in keys && keys[w] < now && forall x :: x in keys ==> keys[w] <= keys[x]
    ensures w !in batch && w in keys0 && keys0[w] == Expired(batch, keys0, nexts)[w]
    ensures OverdueInOrder(batch + [w], keys0, now) && Earlier(batch + [w], keys0)
  {
    var keys := Expired(batch, keys0, nexts);
    forall x | x in keys0 && x !in batch ensures keys0[w] <= keys0[x] {
      assert keys[w] <= keys[x];
    }
  }

  // When nothing in the heap is overdue any more, the batch is exactly what was overdue.
  lemma BatchComplete(batch: seq<Watcher>, keys0: map<Watcher, real>, nexts: map<Watcher, Option<real>>, now: real)
    requires keys0.Keys <= nexts.Keys && OverdueInOrder(batch, keys0, now)
    requires forall x :: x in Expired(batch, keys0, nexts) ==> now <= Expired(batch, keys0, nexts)[x]
    ensures forall w :: w in keys0 && keys0[w] < now ==> w in batch
    ensures forall w :: w in batch ==> w in keys0 && keys0[w] < now
  {
    forall w | w in keys0 && keys0[w] < now ensures w in batch {
      assert w !in batch ==> w in Expired(batch, keys0, nexts);
    }
  }

  // What a reify starts from: the due times, the next due times, what is pending of every watcher and has been fed to
  // it, the time field of each, and the trace
  datatype Prior = Prior(keys: map<Watcher, real>, nexts: map<Watcher, Option<real>>, pend: map<Watcher, nat>,
                         fed: map<Watcher, seq<Events>>, at: map<Watcher, real>, trace: seq<Step>)

  class TimedLoop {
    const kind: Kind
    const heap: WatcherHeap
    const queue: PendingQueues
    var now: real          // mn_now for timers, ev_rt_now for periodics
    var activecnt: int

    // What the library asserts of a watcher of this kind.
    ghost predicate WellSet(w: Watcher)
      reads w`repeat, w`interval, w`reschedule
    {
      match kind
      case Timers => w.repeat >= 0.0
      case Periodics => w.interval >= 0.0 && (w.reschedule.Some? ==> forall t :: w.reschedule.value(t) >= t)
    }

    // All of Valid() but the queues
    ghost predicate Own()
      reads this, heap, heap.slots, heap.mine`active, heap.mine`at, heap.mine`repeat, heap.mine`priority
      reads heap.mine`interval, heap.mine`reschedule
    {
      && heap.mine <= queue.known && heap.Valid()
      && (forall w :: w in heap.mine ==> WellSet(w))
      && (forall w :: w in heap.Keys() ==> 0 <= w.AbsPri() < NUMPRI)
    }

    ghost predicate Valid()
      reads this, heap, heap.slots, heap.mine`active, heap.mine`at, heap.mine`repeat, heap.mine`priority
      reads heap.mine`interval, heap.mine`reschedule
      reads queue`pendings, queue`pendingpri, queue`trace, queue.known`pending, queue.known`priority, queue.known`fed
    {
      Own() && queue.Valid()
    }

    // When periodic w will be due next, by its callback if it has one, else by its interval; None if it is to run once,
    // at its offset.
    function PeriodicNext(w: Watcher): (r: Option<real>)
      reads this`now, w`offset, w`interval, w`reschedule, w`repeat
      requires WellSet(w) && kind.Periodics?
      ensures r.Some? ==> r.value >= now
      ensures w.reschedule.Some? ==> r == Some(w.reschedule.value(now))
      ensures w.reschedule.None? && w.interval != 0.0 ==>
                r.Some? && r.value > now && r.value == NextPeriodic(w.offset, w.interval, now)
      ensures w.reschedule.None? && w.interval == 0.0 ==> r.None?
    {
      if w.reschedule.Some? then Some(w.reschedule.value(now))
      else if w.interval != 0.0 then
        NextIsSoon(w.offset, w.interval, now);
        Some(NextPeriodic(w.offset, w.interval, now))
      else None
    }

    // When w will be due after it has expired now.
    function NextOf(w: Watcher): (r: Option<real>)
      reads this`now, w`at, w`repeat, w`offset, w`interval, w`reschedule
      requires WellSet(w)
      ensures r.Some? ==> r.value >= now
      ensures kind.Timers? && w.repeat == 0.0 ==> r.None?
      ensures kind.Timers? && w.repeat != 0.0 ==>
                r == Some(if w.at + w.repeat < now then now else w.at + w.repeat)
      ensures kind.Periodics? ==> (r.None? <==> w.reschedule.None? && w.interval == 0.0)
    {
      match kind
      case Timers => if w.repeat != 0.0 then Some(NextDue(w.at, w.repeat, now)) else None
      case Periodics => PeriodicNext(w)
    }

    // The time a stopped watcher keeps: timers become relative again.
    function Stopped(at: real): real
      reads this`now
    {
      if kind.Timers? then at - now else at
    }

    constructor (kind: Kind, heap: WatcherHeap, queue: PendingQueues, now: real, others: int)
      requires heap.Valid() && heap.Keys() == map[] && queue.Valid() && heap.mine <= queue.known
      requires kind.Timers? ==> forall w :: w in heap.mine ==> w.repeat >= 0.0
      requires kind.Periodics? ==> forall w :: w in heap.mine ==>
                 w.interval >= 0.0 && (w.reschedule.Some? ==> forall t :: w.reschedule.value(t) >= t)
      ensures Valid() && this.kind == kind && this.heap == heap && this.queue == queue && this.now == now
              && activecnt == others
    {
      this.kind, this.heap, this.queue, this.now, activecnt := kind, heap, queue, now, others;
    }

    // The common part of the start functions, for an inactive w and its due time.
    method Enter(w: Watcher, at: real)
      requires Valid() && w in heap.mine && w.active == 0
      modifies this`activecnt, heap`slots, heap`cnt, heap.slots, heap.mine`active, w`at, w`priority
      ensures Valid() && activecnt - heap.cnt == old(activecnt - heap.cnt)
      ensures heap.slots == old(heap.slots) || fresh(heap.slots)
      ensures heap.Keys() == old(heap.Keys())[w := at]
      ensures w.priority == old(w.priority) || w.priority == ClampPriority(old(w.priority))
    {
      hide Own, PendingQueues.Valid, WatcherHeap.Keys;
      Prepare(w, at);
      Admit(w);
    }

    // The due time, and pri_adjust
    method Prepare(w: Watcher, at: real)
      requires Valid() && w in heap.mine && w.active == 0
      modifies heap.slots, heap.mine`active, w`at, w`priority
      ensures Valid() && w.active == 0 && w.at == at && heap.Keys() == old(heap.Keys())
      ensures w.priority == ClampPriority(old(w.priority))
    {
      hide WatcherHeap.Valid, PendingQueues.Valid, WellSet;
      heap.Retime(w, at);
      queue.AdjustPriority(w);
    }

    // The counting, and the insertion into the heap
    method Admit(w: Watcher)
      requires Valid() && w in heap.mine && w.active == 0 && 0 <= w.AbsPri() < NUMPRI
      modifies this`activecnt, heap`slots, heap`cnt, heap.slots, heap.mine`active
      ensures Valid() && activecnt - heap.cnt == old(activecnt - heap.cnt)
      ensures heap.slots == old(heap.slots) || fresh(heap.slots)
      ensures heap.Keys() == old(heap.Keys())[w := w.at]
    {
      hide WatcherHeap.Valid, PendingQueues.Valid, WellSet;
      activecnt := activecnt + 1;
      heap.Insert(w);
    }

    // ev_timer_start
    method TimerStart(w: Watcher)
      requires Valid() && kind.Timers? && w in heap.mine
      modifies this`activecnt, heap`slots, heap`cnt, heap.slots, heap.mine`active, w`at, w`priority
      ensures Valid() && activecnt - heap.cnt == old(activecnt - heap.cnt)
      ensures heap.slots == old(heap.slots) || fresh(heap.slots)
      ensures heap.Keys() == if old(w.active) == 0 then old(heap.Keys())[w := old(w.at) + now] else old(heap.Keys())
      ensures w.priority == old(w.priority) || w.priority == ClampPriority(old(w.priority))
    {
      hide WatcherHeap.Valid, PendingQueues.Valid, WellSet;
      if w.active != 0 {
        return;
      }
      Enter(w, w.at + now);
    }

    // ev_periodic_start
    method PeriodicStart(w: Watcher)
      requires Valid() && kind.Periodics? && w in heap.mine
      modifies this`activecnt, heap`slots, heap`cnt, heap.slots, heap.mine`active, w`at, w`priority
      ensures Valid() && activecnt - heap.cnt == old(activecnt - heap.cnt)
      ensures heap.slots == old(heap.slots) || fresh(heap.slots)
      ensures old(w.active) != 0 ==> heap.Keys() == old(heap.Keys())
      ensures old(w.active) == 0 ==>
                heap.Keys() == old(heap.Keys())[w := if PeriodicNext(w).Some? then PeriodicNext(w).value else w.offset]
      ensures w.priority == old(w.priority) || w.priority == ClampPriority(old(w.priority))
    {
      hide WatcherHeap.Valid, PendingQueues.Valid, NextPeriodic;
      if w.active != 0 {
        return;
      }
      var at := w.offset;
      if w.reschedule.Some? {
        at := w.reschedule.value(now);
      } else if w.interval != 0.0 {
        at := PeriodicRecalc(w.offset, w.interval, now);
      }
      Enter(w, at);
    }

    // The common part of the stop functions, for an active w.
    method Leave(w: Watcher)
      requires Valid() && w in heap.mine && w.active != 0
      modifies this`activecnt, heap`cnt, heap.slots, heap.mine`active, w`at
      ensures Valid() && activecnt - heap.cnt == old(activecnt - heap.cnt)
      ensures w.active == 0 && heap.Keys() == old(heap.Keys()) - {w} && w.at == Stopped(old(w.at))
    {
      hide WatcherHeap.Valid, PendingQueues.Valid, WellSet;
      heap.Remove(w);
      heap.Retime(w, Stopped(w.at));
      activecnt := activecnt - 1;
    }

    // ev_timer_stop and ev_periodic_stop
    method Stop(w: Watcher)
      requires Valid() && w in heap.mine
      modifies this`activecnt, heap`cnt, heap.slots, heap.mine`active, w`at
      modifies queue`pendings, queue`trace, w`pending, w`fed
      ensures Valid() && activecnt - heap.cnt == old(activecnt - heap.cnt)
      ensures w.pending == 0 && w.fed == []
      ensures w.active == 0 && heap.Keys() == old(heap.Keys()) - {w}
      ensures w.at == if old(w.active) != 0 then Stopped(old(w.at)) else old(w.at)
      ensures ClearsOnly(old(queue.trace), queue.trace, w)
    {
      hide WatcherHeap.Valid, PendingQueues.Valid, WellSet;
      ghost var keys := heap.Keys();
      var _ := queue.ClearPending(w);
      assert heap.Keys() == keys;
      if w.active == 0 {
        return;
      }
      Leave(w);
    }

    // ev_timer_again
    method TimerAgain(w: Watcher)
      requires Valid() && kind.Timers? && w in heap.mine
      modifies this`activecnt, heap`slots, heap`cnt, heap.slots, heap.mine`active, w`at, w`priority
      modifies queue`pendings, queue`trace, w`pending, w`fed
      ensures Valid() && activecnt - heap.cnt == old(activecnt - heap.cnt)
      ensures heap.slots == old(heap.slots) || fresh(heap.slots)
      ensures w.pending == 0 && w.fed == []
      ensures heap.Keys() == if w.repeat != 0.0 then old(heap.Keys())[w := now + w.repeat] else old(heap.Keys()) - {w}
      ensures w.repeat == 0.0 ==> w.at == if old(w.active) != 0 then Stopped(old(w.at)) else old(w.at)
      ensures w.priority == old(w.priority) || w.priority == ClampPriority(old(w.priority))
      ensures ClearsOnly(old(queue.trace), queue.trace, w)
    {
      hide WatcherHeap.Valid, PendingQueues.Valid, WellSet;
      ghost var keys := heap.Keys();
      var _ := queue.ClearPending(w);
      assert heap.Keys() == keys;
      Renew(w);
    }

    // The rest of it, with the pending event cleared
    method Renew(w: Watcher)
      requires Valid() && kind.Timers? && w in heap.mine && w.pending == 0 && w.fed == []
      modifies this`activecnt, heap`slots, heap`cnt, heap.slots, heap.mine`active, w`at, w`priority
      modifies queue`pendings, queue`trace, w`pending, w`fed
      ensures Valid() && activecnt - heap.cnt == old(activecnt - heap.cnt)
      ensures heap.slots == old(heap.slots) || fresh(heap.slots)
      ensures w.pending == 0 && w.fed == []
      ensures heap.Keys() == if w.repeat != 0.0 then old(heap.Keys())[w := now + w.repeat] else old(heap.Keys()) - {w}
      ensures w.repeat == 0.0 ==> w.at == if old(w.active) != 0 then Stopped(old(w.at)) else old(w.at)
      ensures w.priority == old(w.priority) || w.priority == ClampPriority(old(w.priority))
      ensures ClearsOnly(old(queue.trace), queue.trace, w)
    {
      hide WatcherHeap.Valid, PendingQueues.Valid, WellSet;
      if w.active != 0 {
        if w.repeat != 0.0 {
          heap.Retime(w, now + w.repeat);
        } else {
          Stop(w);
        }
      } else if w.repeat != 0.0 {
        heap.Retime(w, w.repeat);
        TimerStart(w);
      }
    }

    // ev_periodic_again
    method PeriodicAgain(w: Watcher)
      requires Valid() && kind.Periodics? && w in heap.mine
      modifies this`activecnt, heap`slots, heap`cnt, heap.slots, heap.mine`active, w`at, w`priority
      modifies queue`pendings, queue`trace, w`pending, w`fed
      ensures Valid() && activecnt - heap.cnt == old(activecnt - heap.cnt)
      ensures heap.slots == old(heap.slots) || fresh(heap.slots)
      ensures heap.Keys() == old(heap.Keys())[w := if PeriodicNext(w).Some? then PeriodicNext(w).value else w.offset]
      ensures w.priority == old(w.priority) || w.priority == ClampPriority(old(w.priority))
      ensures ClearsOnly(old(queue.trace), queue.trace, w)
    {
      hide WatcherHeap.Valid, PendingQueues.Valid, NextPeriodic;
      Stop(w);
      PeriodicStart(w);
    }

    // The body of the reify loops for the earliest watcher w: reschedule or stop it.
    method ExpireRoot(w: Watcher)
      requires Valid() && w in heap.Keys() && w.active == HEAP0
      modifies this`activecnt, heap`cnt, heap.slots, heap.mine`active, w`at
      modifies queue`pendings, queue`trace, w`pending, w`fed
      ensures Valid() && activecnt - heap.cnt == old(activecnt - heap.cnt)
      ensures heap.Keys() == ExpiredOne(old(heap.Keys()), w, old(NextOf(w)))
      ensures old(NextOf(w)).None? ==> w.at == Stopped(old(w.at)) && w.pending == 0 && w.fed == []
      ensures old(NextOf(w)).Some? ==> w.pending == old(w.pending) && w.fed == old(w.fed)
      ensures if old(NextOf(w)).None? then ClearsOnly(old(queue.trace), queue.trace, w)
              else queue.trace == old(queue.trace)
    {
      hide WatcherHeap.Valid, PendingQueues.Valid, NextPeriodic;
      if kind.Timers? {
        if w.repeat != 0.0 {
          var at := w.at + w.repeat;
          if at < now { at := now; }
          heap.RetimeRoot(w, at);
        } else {
          Stop(w);
        }
      } else if w.reschedule.Some? {
        heap.RetimeRoot(w, w.reschedule.value(now));
      } else if w.interval != 0.0 {
        var at := PeriodicRecalc(w.offset, w.interval, now);
        heap.RetimeRoot(w, at);
      } else {
        Stop(w);
      }
    }

    // The batch holds the overdue watchers found so far, earliest first, stopped or set anew; the others are as they
    // were.
    ghost predicate Collected(batch: seq<Watcher>, p: Prior)
      reads this`now, heap.mine`active, heap.mine`at
    {
      && p.keys.Keys <= heap.mine && Future(p.keys, p.nexts, now)
      && OverdueInOrder(batch, p.keys, now) && Earlier(batch, p.keys)
      && heap.Keys() == Expired(batch, p.keys, p.nexts)
    }

    // A watcher that is stopped loses its pending event; nobody else's changes.
    ghost predicate Withdrawn(batch: seq<Watcher>, p: Prior)
      reads queue.known`pending, queue.known`fed
    {
      && p.pend.Keys == p.fed.Keys == queue.known && (forall w :: w in batch ==> w in p.nexts)
      && forall w :: w in queue.known ==>
           if w in batch && p.nexts[w].None? then w.pending == 0 && w.fed == []
           else w.pending == p.pend[w] && w.fed == p.fed[w]
    }

    // The time field is that before for a watcher that was not running, and relative to now for a timer that has been
    // stopped. The trace has grown by clearing stopped watchers only.
    ghost predicate Aside(batch: seq<Watcher>, p: Prior)
      reads this`now, heap.mine`at, queue`trace
    {
      AsideBut(batch, p, queue.trace, Ats())
    }

    ghost function Ats(): map<Watcher, real>
      reads heap.mine`at
    {
      map w | w in heap.mine :: w.at
    }

    ghost predicate AsideBut(batch: seq<Watcher>, p: Prior, trace: seq<Step>, at: map<Watcher, real>)
      reads this`now
    {
      && p.at.Keys == at.Keys == heap.mine && p.keys.Keys <= heap.mine
      && (forall w :: w in heap.mine && w !in p.keys ==> at[w] == p.at[w])
      && (forall w :: w in batch ==>
            w in p.keys && w in p.nexts && (p.nexts[w].None? ==> at[w] == Stopped(p.keys[w])))
      && p.trace <= trace
      && forall k :: |p.trace| <= k < |trace| ==> ClearStep(trace[k], batch, p)
    }

    ghost predicate ClearStep(s: Step, batch: seq<Watcher>, p: Prior) {
      s.Cleared? && s.cw in batch && s.cw in p.nexts && p.nexts[s.cw].None?
    }

    // The times and intervals that decide the next due times of the watchers still to come.
    ghost predicate Foretold(batch: seq<Watcher>, p: Prior)
      reads this`now, heap.mine`at, heap.mine`repeat, heap.mine`offset, heap.mine`interval, heap.mine`reschedule
      reads heap.mine`priority
    {
      && p.keys.Keys <= heap.mine
      && (forall w :: w in p.keys ==> 0 <= w.AbsPri() < NUMPRI)
      && forall w :: w in p.keys && w !in batch ==> w in p.nexts && WellSet(w) && NextOf(w) == p.nexts[w]
    }

    ghost predicate Progress(batch: seq<Watcher>, p: Prior)
      reads this, heap, heap.slots, heap.mine`active, heap.mine`at, heap.mine`repeat, heap.mine`priority
      reads heap.mine`offset, heap.mine`interval, heap.mine`reschedule
      reads queue`pendings, queue`pendingpri, queue`trace, queue.known`pending, queue.known`priority, queue.known`fed
    {
      Valid() && Collected(batch, p) && Withdrawn(batch, p) && Foretold(batch, p) && Aside(batch, p)
    }

    // ExpireRoot and what it does to pending events and to the watchers still to come
    method ExpireNext(w: Watcher, ghost batch: seq<Watcher>, ghost p: Prior)
      requires Valid() && w in heap.Keys() && w in p.keys && w.active == HEAP0 && w !in batch
      requires Withdrawn(batch, p) && Foretold(batch, p)
      modifies this`activecnt, heap`cnt, heap.slots, heap.mine`active, w`at
      modifies queue`pendings, queue`trace, w`pending, w`fed
      ensures Valid() && Withdrawn(batch + [w], p) && Foretold(batch + [w], p) && w in p.nexts
      ensures activecnt - heap.cnt == old(activecnt - heap.cnt)
      ensures heap.Keys() == ExpiredOne(old(heap.Keys()), w, p.nexts[w])
      ensures p.nexts[w].None? ==> w.at == Stopped(old(w.at))
      ensures if p.nexts[w].None? then ClearsOnly(old(queue.trace), queue.trace, w) else queue.trace == old(queue.trace)
    {
      hide Valid, WatcherHeap.Keys, NextOf, WellSet, ClearsOnly, Stopped;
      ExpireRoot(w);
    }

    // And to the trace and the time fields
    method ExpireAside(w: Watcher, ghost batch: seq<Watcher>, ghost p: Prior)
      requires Valid() && w in heap.Keys() && w in p.keys && w.active == HEAP0 && w !in batch && w in heap.mine
      requires Withdrawn(batch, p) && Foretold(batch, p) && Aside(batch, p) && w.at == p.keys[w]
      modifies this`activecnt, heap`cnt, heap.slots, heap.mine`active, w`at
      modifies queue`pendings, queue`trace, w`pending, w`fed
      ensures Valid() && Withdrawn(batch + [w], p) && Foretold(batch + [w], p) && Aside(batch + [w], p)
      ensures activecnt - heap.cnt == old(activecnt - heap.cnt)
      ensures heap.Keys() == ExpiredOne(old(heap.Keys()), w, p.nexts[w])
      ensures old(queue.trace) <= queue.trace
    {
      hide Valid, WatcherHeap.Keys, Withdrawn, Foretold, Stopped, AsideBut;
      ghost var trace, at := queue.trace, Ats();
      ExpireNext(w, batch, p);
      assert Ats() == at[w := w.at];
      AsideMore(w, batch, p, trace, at);
    }

    lemma AsideMore(w: Watcher, batch: seq<Watcher>, p: Prior, trace: seq<Step>, at: map<Watcher, real>)
      requires AsideBut(batch, p, trace, at) && w in p.keys && w in p.nexts && Ats() == at[w := w.at]
      requires p.nexts[w].None? ==> w.at == Stopped(p.keys[w])
      requires if p.nexts[w].None? then ClearsOnly(trace, queue.trace, w) else queue.trace == trace
      ensures Aside(batch + [w], p)
    {
    }

    // The earliest watcher may be expired next.
    lemma NextReady(w: Watcher, batch: seq<Watcher>, p: Prior)
      requires Collected(batch, p) && heap.TopOverdue(now) && w == heap.Top()
      ensures w in heap.Keys() && w in p.keys && w in heap.mine && w.active == HEAP0 && w !in batch && w.at == p.keys[w]
      ensures OverdueInOrder(batch + [w], p.keys, now) && Earlier(batch + [w], p.keys)
      ensures Expired(batch + [w], p.keys, p.nexts) == ExpiredOne(heap.Keys(), w, p.nexts[w])
      ensures OverdueOf(ExpiredOne(heap.Keys(), w, p.nexts[w]), now) < OverdueOf(heap.Keys(), now)
    {
      NextInOrder(batch, w, p.keys, p.nexts, now);
      ExpireOne(batch, w, p.keys, p.nexts);
      assert w !in OverdueOf(ExpiredOne(heap.Keys(), w, p.nexts[w]), now) && w in OverdueOf(heap.Keys(), now);
    }

    method CollectNext(w: Watcher, ghost batch: seq<Watcher>, ghost p: Prior)
      requires Progress(batch, p)
      requires heap.TopOverdue(now) && w == heap.Top()
      modifies this`activecnt, heap`cnt, heap.slots, heap.mine`active, heap.mine`at
      modifies queue`pendings, queue`trace, heap.mine`pending, heap.mine`fed
      ensures Progress(batch + [w], p)
      ensures activecnt - heap.cnt == old(activecnt - heap.cnt)
      ensures OverdueOf(heap.Keys(), now) < OverdueOf(old(heap.Keys()), now)
      ensures old(queue.trace) <= queue.trace
    {
      hide Valid, Withdrawn, Foretold, Aside, OverdueInOrder, Earlier, Future, Expired, ExpiredOne, OverdueOf,
        WatcherHeap.Keys, WatcherHeap.TopOverdue;
      NextReady(w, batch, p);
      ExpireAside(w, batch, p);
    }

    // The first loop of the reify functions; terminates because the set of overdue watchers shrinks.
    method CollectOverdue(ghost p: Prior) returns (batch: seq<Watcher>)
      requires Progress([], p)
      modifies this`activecnt, heap`cnt, heap.slots, heap.mine`active, heap.mine`at
      modifies queue`pendings, queue`trace, heap.mine`pending, heap.mine`fed
      ensures Progress(batch, p) && heap.NoneOverdue(now)
      ensures activecnt - heap.cnt == old(activecnt - heap.cnt)
      ensures old(queue.trace) <= queue.trace
    {
      hide Valid, Progress, OverdueOf, WatcherHeap.TopOverdue, WatcherHeap.NoneOverdue, WatcherHeap.Keys;
      batch := [];
      HeapValid(batch, p);
      var due := heap.Overdue(now);
      while due
        invariant Progress(batch, p)
        invariant activecnt - heap.cnt == old(activecnt - heap.cnt) && old(queue.trace) <= queue.trace
        invariant if due then heap.TopOverdue(now) else heap.NoneOverdue(now)
        decreases OverdueOf(heap.Keys(), now)
      {
        batch, due := CollectTop(batch, p);
      }
    }

    method CollectTop(was: seq<Watcher>, ghost p: Prior) returns (batch: seq<Watcher>, due: bool)
      requires Progress(was, p) && heap.TopOverdue(now)
      modifies this`activecnt, heap`cnt, heap.slots, heap.mine`active, heap.mine`at
      modifies queue`pendings, queue`trace, heap.mine`pending, heap.mine`fed
      ensures Progress(batch, p) && OverdueOf(heap.Keys(), now) < OverdueOf(old(heap.Keys()), now)
      ensures activecnt - heap.cnt == old(activecnt - heap.cnt)
      ensures if due then heap.TopOverdue(now) else heap.NoneOverdue(now)
      ensures old(queue.trace) <= queue.trace
    {
      hide Valid, Progress, OverdueOf, WatcherHeap.TopOverdue, WatcherHeap.NoneOverdue, WatcherHeap.Keys;
      TopIsMine();
      var w := heap.Top();
      CollectNext(w, was, p);
      batch := was + [w];
      HeapValid(batch, p);
      due := heap.Overdue(now);
    }

    lemma HeapValid(batch: seq<Watcher>, p: Prior)
      requires Progress(batch, p)
      ensures heap.Valid()
    {
    }

    lemma TopIsMine()
      requires heap.TopOverdue(now)
      ensures heap.slots.Length > HEAP0 && heap.Top() in heap.mine
    {
    }

    // The state before a reify, as maps.
    ghost function NextsOf(): map<Watcher, Option<real>>
      reads this`now, heap.mine`at, heap.mine`repeat, heap.mine`offset, heap.mine`interval, heap.mine`reschedule
      requires forall w :: w in heap.mine ==> WellSet(w)
    {
      map w | w in heap.mine :: NextOf(w)
    }

    ghost function PendingOf(): map<Watcher, nat>
      reads queue.known`pending
    {
      map w | w in queue.known :: w.pending
    }

    ghost function EventsOf(): map<Watcher, seq<Events>>
      reads queue.known`fed
    {
      map w | w in queue.known :: w.fed
    }

    ghost function State(): Prior
      reads this`now, heap.mine`active, heap.mine`at, heap.mine`repeat, heap.mine`offset, heap.mine`interval
      reads heap.mine`reschedule, queue.known`pending, queue.known`fed, queue`trace
      requires forall w :: w in heap.mine ==> WellSet(w)
    {
      Prior(heap.Keys(), NextsOf(), PendingOf(), EventsOf(), Ats(), queue.trace)
    }

    function Flags(): (r: Events)
      ensures r == {TIMER} <==> kind.Timers?
      ensures r == {PERIODIC} <==> kind.Periodics?
    {
      if kind.Timers? then {TIMER} else {PERIODIC}
    }

    // The watcher's event was not pending, or was withdrawn, when it was fed.
    ghost predicate Fresh(w: Watcher, p: Prior)
      requires w in p.pend && w in p.nexts
    {
      p.pend[w] == 0 || p.nexts[w].None?
    }

    // What a reify did, from the due times, next due times, pending indices and fed events before it: the batch is
    // exactly the overdue watchers, earliest first; the others are untouched, and nothing is overdue any more; each
    // watcher of the batch was fed once, and the trace says nothing else; and of two new entries of one priority that
    // of the earlier watcher is on top.
    ghost predicate Reified(batch: seq<Watcher>, p: Prior)
      reads this, heap.mine`active, heap.mine`at, queue.known`pending, queue.known`fed, queue.known`priority
      reads queue`trace
    {
      && p.at.Keys == heap.mine && p.keys.Keys <= heap.mine
      && (forall w :: w in heap.mine && w !in p.keys ==> w.at == p.at[w])
      && (forall w :: w in batch && w in p.nexts && w in p.keys && p.nexts[w].None? ==> w.at == Stopped(p.keys[w]))
      && p.trace <= queue.trace
      && (forall k :: |p.trace| <= k < |queue.trace| ==> ExpiryStep(queue.trace[k], batch, p))
      && p.keys.Keys <= p.nexts.Keys && p.pend.Keys == p.fed.Keys == queue.known && OverdueInOrder(batch, p.keys, now)
      && (forall w :: w in p.keys && p.keys[w] < now ==> w in batch)
      && heap.Keys() == Expired(batch, p.keys, p.nexts)
      && (forall w :: w in heap.Keys() ==> now <= heap.Keys()[w])
      && (forall w :: w in batch ==> w in queue.known)
      && (forall w :: w in queue.known && w !in batch ==> w.fed == p.fed[w] && w.pending == p.pend[w])
      && (forall w :: w in batch ==> w.pending > 0 && w.fed == (if p.nexts[w].None? then [] else p.fed[w]) + [Flags()])
      && (forall i, j :: 0 <= i < j < |batch| && batch[i].priority == batch[j].priority
                         && Fresh(batch[i], p) && Fresh(batch[j], p) ==>
            batch[i].pending > batch[j].pending)
    }

    // A watcher of the batch is fed, or what was pending of one that is stopped is cleared.
    ghost predicate ExpiryStep(s: Step, batch: seq<Watcher>, p: Prior) {
      ClearStep(s, batch, p) || (s.Fed? && s.fw in batch && s.e == Flags())
    }

    // The pending indices and fed events of the batch before it is fed.
    ghost function BatchPending(batch: seq<Watcher>, p: Prior): seq<nat>
      requires forall w :: w in batch ==> w in p.nexts && w in p.pend
    {
      seq(|batch|, i requires 0 <= i < |batch| => if p.nexts[batch[i]].None? then 0 else p.pend[batch[i]])
    }

    ghost function BatchFed(batch: seq<Watcher>, p: Prior): seq<seq<Events>>
      requires forall w :: w in batch ==> w in p.nexts && w in p.fed
    {
      seq(|batch|, i requires 0 <= i < |batch| => if p.nexts[batch[i]].None? then [] else p.fed[batch[i]])
    }

    lemma BatchBefore(batch: seq<Watcher>, p: Prior)
      requires Progress(batch, p)
      ensures Valid() && Distinct(batch) && p.keys.Keys <= p.nexts.Keys && p.pend.Keys == p.fed.Keys == queue.known
      ensures forall w :: w in batch ==> w in p.nexts && w in queue.known && w in heap.mine && 0 <= w.AbsPri() < NUMPRI
      ensures Pendings(batch) == BatchPending(batch, p)
      ensures Pending.FedOf(batch) == BatchFed(batch, p)
      ensures OverdueInOrder(batch, p.keys, now) && heap.Keys() == Expired(batch, p.keys, p.nexts)
      ensures forall w :: w in queue.known && w !in batch ==> w.fed == p.fed[w] && w.pending == p.pend[w]
      ensures AsideBut(batch, p, queue.trace, Ats())
    {
      hide AsideBut, WatcherHeap.Valid, PendingQueues.Valid, Expired, NextOf, WellSet, WatcherHeap.Keys, Future,
        Earlier;
    }

    // Feeding the batch touches nothing but its pending entries.
    method FeedBatch(batch: seq<Watcher>)
      requires Valid() && Distinct(batch)
      requires forall w :: w in batch ==> w in queue.known && 0 <= w.AbsPri() < NUMPRI
      modifies queue`pendings, queue`pendingpri, queue`trace, (set w | w in batch)`pending, (set w | w in batch)`fed
      ensures Valid() && heap.Keys() == old(heap.Keys())
      ensures queue.FedFrom(batch, 0, Flags(), old(Pendings(batch)), old(Pending.FedOf(batch)),
              old(Lengths(queue.pendings)))
      ensures FeedsOnly(old(queue.trace), queue.trace, batch, Flags())
    {
      hide WatcherHeap.Valid, PendingQueues.Valid, PendingQueues.FedFrom, WellSet;
      if batch != [] {
        queue.FeedReverseDone(batch, Flags());
      } else {
        FedNobody(batch);
      }
      assert heap.Keys() == old(heap.Keys());
    }

    lemma FedNobody(batch: seq<Watcher>)
      requires queue.Valid() && batch == []
      ensures queue.FedFrom(batch, 0, Flags(), Pendings(batch), Pending.FedOf(batch), Lengths(queue.pendings))
    {
    }

    // What FedFrom means for each watcher of the batch.
    lemma FedOnce(batch: seq<Watcher>, p: Prior, len0: seq<nat>)
      requires forall w :: w in batch ==> w in p.nexts && w in p.pend && w in p.fed && 0 <= w.AbsPri() < NUMPRI
      requires queue.FedFrom(batch, 0, Flags(), BatchPending(batch, p), BatchFed(batch, p), len0)
      ensures forall w :: w in batch ==>
                && w.pending > 0
                && w.fed == (if p.nexts[w].None? then [] else p.fed[w]) + [Flags()]
      ensures forall i, j :: 0 <= i < j < |batch| && batch[i].priority == batch[j].priority
                             && Fresh(batch[i], p) && Fresh(batch[j], p) ==>
                batch[i].pending > batch[j].pending
    {
      forall w | w in batch ensures w.pending > 0 && w.fed == (if p.nexts[w].None? then [] else p.fed[w]) + [Flags()] {
        var i :| 0 <= i < |batch| && batch[i] == w;
      }
    }

    lemma ReifiedFrom(batch: seq<Watcher>, p: Prior, len0: seq<nat>, mid: seq<Step>)
      requires p.keys.Keys <= p.nexts.Keys && p.pend.Keys == p.fed.Keys == queue.known
      requires OverdueInOrder(batch, p.keys, now) && heap.Keys() == Expired(batch, p.keys, p.nexts)
               && heap.NoneOverdue(now)
      requires forall w :: w in batch ==> w in p.nexts && w in queue.known && 0 <= w.AbsPri() < NUMPRI
      requires forall w :: w in queue.known && w !in batch ==> w.fed == p.fed[w] && w.pending == p.pend[w]
      requires queue.FedFrom(batch, 0, Flags(), BatchPending(batch, p), BatchFed(batch, p), len0)
      requires AsideBut(batch, p, mid, Ats()) && FeedsOnly(mid, queue.trace, batch, Flags())
      ensures Reified(batch, p)
    {
      hide OverdueInOrder, Expired, PendingQueues.FedFrom, WatcherHeap.Keys, BatchPending, BatchFed, Fresh, Flags;
      BatchComplete(batch, p.keys, p.nexts, now);
      FedOnce(batch, p, len0);
    }

    lemma ReifyStarts()
      requires Valid()
      ensures forall w :: w in heap.mine ==> WellSet(w)
      ensures Progress([], State())
    {
    }

    // timers_reify and periodics_reify: returns the expired watchers, earliest first.
    method Reify() returns (batch: seq<Watcher>)
      requires Valid()
      modifies this`activecnt, heap`cnt, heap.slots, heap.mine`active, heap.mine`at
      modifies queue`pendings, queue`pendingpri, queue`trace, heap.mine`pending, heap.mine`fed
      ensures Valid() && activecnt - heap.cnt == old(activecnt - heap.cnt)
      ensures Reified(batch, old(State()))
      ensures old(queue.trace) <= queue.trace
    {
      hide Valid, Progress, Aside, AsideBut, State, WatcherHeap.Keys, Pendings, Pending.FedOf, BatchPending, BatchFed,
        WellSet, OverdueInOrder, Expired, PendingQueues.FedFrom, Distinct, Reified, WatcherHeap.NoneOverdue;
      ReifyStarts();
      ghost var p := State();
      batch := CollectOverdue(p);
      BatchBefore(batch, p);
      ghost var len0, mid := Lengths(queue.pendings), queue.trace;
      FeedBatch(batch);
      ReifiedFrom(batch, p, len0, mid);
    }

    // After a reify, undisturbed callbacks of one priority run in the order in which their watchers were due.
    lemma InvokedInDueOrder(batch: seq<Watcher>, p: Prior, i: int, j: int)
      requires Valid() && Reified(batch, p)
      requires 0 <= i < j < |batch| && batch[i].priority == batch[j].priority
      requires Fresh(batch[i], p) && Fresh(batch[j], p)
      ensures p.keys[batch[i]] <= p.keys[batch[j]]
      ensures exists a, b :: 0 <= a < b < |DrainOrder(queue.pendings)| &&
                             DrainOrder(queue.pendings)[a].w == batch[i] && DrainOrder(queue.pendings)[b].w == batch[j]
    {
      hide ExpiryStep, Expired, WatcherHeap.Keys, Own, Stopped, Flags;
      queue.InvokedBefore(batch[i], batch[j]);
    }

    // timers_reschedule
    method TimersReschedule(adjust: real)
      requires Valid() && kind.Timers?
      modifies heap.slots, heap.mine`at
      ensures Valid() && heap.Keys() == ShiftedKeys(old(heap.Keys()), adjust)
    {
      hide WatcherHeap.Valid, PendingQueues.Valid, WellSet;
      heap.ShiftAll(adjust);
    }

    // The due times after a reschedule: one-shot periodics keep theirs.
    ghost function RescheduledKeys(keys: map<Watcher, real>): (r: map<Watcher, real>)
      reads this`now, heap.mine`repeat, heap.mine`offset, heap.mine`interval, heap.mine`reschedule
      requires kind.Periodics? && keys.Keys <= heap.mine && forall w :: w in heap.mine ==> WellSet(w)
      ensures r.Keys == keys.Keys
      ensures forall w :: w in keys ==> r[w] == if PeriodicNext(w).Some? then PeriodicNext(w).value else keys[w]
    {
      map w | w in keys :: if PeriodicNext(w).Some? then PeriodicNext(w).value else keys[w]
    }

    method RescheduleSlot(i: nat, ghost s: seq<Slot>, ghost keys: map<Watcher, real>, ghost keys1: map<Watcher, real>)
      requires kind.Periodics? && keys.Keys <= heap.mine && forall w :: w in heap.mine ==> WellSet(w)
      requires i < heap.cnt && heap.cnt + HEAP0 <= |s| == heap.slots.Length && heap.RetimedTo(i, s, keys, keys1)
      requires keys1 == RescheduledKeys(keys)
      modifies heap.slots, heap.mine`at
      ensures heap.RetimedTo(i + 1, s, keys, keys1)
    {
      hide WatcherHeap.RetimedTo, NextPeriodic;
      heap.ToRetime(i, s, keys, keys1);
      var w := heap.slots[i + HEAP0].w;
      var t := w.at;
      if w.reschedule.Some? {
        t := w.reschedule.value(now);
      } else if w.interval != 0.0 {
        t := PeriodicRecalc(w.offset, w.interval, now);
      }
      heap.RetimeSlot(i, t, s, keys, keys1);
    }

    method RescheduleSlots(ghost s: seq<Slot>, ghost keys: map<Watcher, real>, ghost keys1: map<Watcher, real>)
      requires kind.Periodics? && keys.Keys <= heap.mine && forall w :: w in heap.mine ==> WellSet(w)
      requires heap.cnt + HEAP0 <= |s| == heap.slots.Length && heap.RetimedTo(0, s, keys, keys1)
      requires keys1 == RescheduledKeys(keys)
      modifies heap.slots, heap.mine`at
      ensures heap.RetimedTo(heap.cnt, s, keys, keys1)
    {
      hide WatcherHeap.RetimedTo, WellSet, RescheduledKeys;
      for i := 0 to heap.cnt
        invariant heap.RetimedTo(i, s, keys, keys1)
      {
        RescheduleSlot(i, s, keys, keys1);
      }
    }

    // periodics_reschedule
    method PeriodicsReschedule()
      requires Valid() && kind.Periodics?
      modifies heap.slots, heap.mine`at, heap.mine`active
      ensures Valid() && heap.Keys() == old(RescheduledKeys(heap.Keys()))
    {
      hide WatcherHeap.RetimedTo, WatcherHeap.Valid, WatcherHeap.OthersIdle, WatcherHeap.Keys, PendingQueues.Valid,
        WellSet;
      ghost var s, keys := heap.slots[..], heap.Keys();
      KeysAreMine();
      ghost var keys1 := RescheduledKeys(keys);
      RescheduleStarts(s, keys, keys1);
      RescheduleSlots(s, keys, keys1);
      heap.Rebuild(s, keys, keys1);
    }

    lemma KeysAreMine()
      ensures heap.Keys().Keys <= heap.mine
    {
    }

    lemma RescheduleStarts(s: seq<Slot>, keys: map<Watcher, real>, keys1: map<Watcher, real>)
      requires Valid() && s == heap.slots[..] && keys == heap.Keys() && keys1.Keys == keys.Keys
      ensures heap.cnt + HEAP0 <= |s| == heap.slots.Length && heap.RetimedTo(0, s, keys, keys1)
      ensures keys.Keys <= heap.mine && heap.OthersIdle(keys)
    {
    }
  }
}

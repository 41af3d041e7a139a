/** The loop: I/O watchers, timers and periodics side by side, with one set of pending queues, and its turns. */
module EventLoop {
  import opened Options
  import opened Watchers
  import opened WatcherLists
  import opened FourHeap
  import opened WatcherHeaps
  import opened Pending
  import opened Backends
  import opened FdTable
  import opened Timers
  import opened Plans
  import opened Feeds

  // What a turn is given: the events reported and the readings of both clocks
  datatype Input = Input(ready: seq<(nat, Events)>, mnNow: real, rtNow: real)

  class Loop {
    const queue: PendingQueues
    const table: Table
    const timers: TimedLoop
    const periodics: TimedLoop
    var script: seq<Deed>    // what the callbacks still to run will do

    // Each part has its own objects and its own watchers; they share the queues.
    ghost predicate Apart()
      reads timers.heap`slots, periodics.heap`slots
    {
      && table.queue == timers.queue == periodics.queue == queue
      && timers.kind == Timers && periodics.kind == Periodics && timers != periodics && timers.heap != periodics.heap
      && timers.heap.slots != periodics.heap.slots
      && table.fds.known <= queue.known && timers.heap.mine <= queue.known && periodics.heap.mine <= queue.known
      && table.fds.known !! timers.heap.mine && table.fds.known !! periodics.heap.mine
      && timers.heap.mine !! periodics.heap.mine
      && var b := table.backend.Object();
         && b != timers && b != periodics && b != timers.heap && b != periodics.heap && b != this && b != queue
         && b != timers.heap.slots && b != periodics.heap.slots && b != queue.pendingW
         && forall w :: w in queue.known ==> w != b
    }

    ghost predicate Valid()
      reads table, table.fds, table.backend.Object()
      reads table.fds.known`active, table.fds.known`next, table.fds.known`fd, table.fds.known`events
      reads table.fds.known`priority
      reads queue`pendings, queue`pendingpri, queue`trace, queue.known`pending, queue.known`priority, queue.known`fed
      reads timers, timers.heap, timers.heap.slots, timers.heap.mine
      reads periodics, periodics.heap, periodics.heap.slots, periodics.heap.mine
    {
      && Apart() && table.fds.Within() && table.Own(0, -1) && timers.Own() && periodics.Own() && queue.Valid()
    }

    // Parts made for each other
    constructor (queue: PendingQueues, table: Table, timers: TimedLoop, periodics: TimedLoop, script: seq<Deed>)
      requires table.Valid() && timers.Valid() && periodics.Valid()
      requires table.queue == timers.queue == periodics.queue == queue
      requires timers.kind == Timers && periodics.kind == Periodics && timers.heap != periodics.heap
      requires timers.heap.slots != periodics.heap.slots
      requires table.fds.known !! timers.heap.mine && table.fds.known !! periodics.heap.mine
      requires timers.heap.mine !! periodics.heap.mine && queue.pendingW != table.backend.Object()
      requires forall w :: w in queue.known ==> w != table.backend.Object()
      ensures Valid() && this.queue == queue && this.table == table && this.timers == timers
      ensures this.periodics == periodics && this.script == script
    {
      this.queue, this.table, this.timers, this.periodics, this.script := queue, table, timers, periodics, script;
    }

    // When a periodic that is started now is due
    ghost function PeriodicTime(w: Watcher): real
      requires periodics.WellSet(w) && periodics.kind.Periodics?
      reads periodics`now, w`offset, w`interval, w`reschedule, w`repeat
    {
      if periodics.PeriodicNext(w).Some? then periodics.PeriodicNext(w).value else w.offset
    }

    // No started watcher of this kind is overdue.
    ghost predicate NoneOverdue(l: TimedLoop)
      reads l, l.heap.mine`active, l.heap.mine`at
    {
      forall w :: w in l.heap.Keys() ==> l.now <= l.heap.Keys()[w]
    }

    // What the watchers of one kind are
    ghost function Kept(l: TimedLoop): Timed
      reads l.heap.mine`active, l.heap.mine`at, l.heap.mine`fed
    {
      Timed(l.heap.Keys(), map w | w in l.heap.mine :: w.fed, l.Ats())
    }

    // When the timers with these due times are due after they have expired now; None for one that runs once
    ghost function TimerNexts(keys: map<Watcher, real>): map<Watcher, Option<real>>
      reads timers`now, timers.heap.mine`repeat
    {
      map w | w in keys && w in timers.heap.mine ::
        if w.repeat == 0.0 then None
        else Some(if keys[w] + w.repeat < timers.now then timers.now else keys[w] + w.repeat)
    }

    ghost function PeriodicNexts(): map<Watcher, Option<real>>
      reads periodics`now, periodics.heap.mine`offset, periodics.heap.mine`interval, periodics.heap.mine`reschedule
      reads periodics.heap.mine`repeat
    {
      map w | w in periodics.heap.mine && periodics.WellSet(w) && periodics.kind.Periodics? :: periodics.PeriodicNext(w)
    }

    // From what they were, those that were due have expired: they have their next due times, or are stopped with a time
    // relative to now, and each has been fed its expiry, once. The others are as they were.
    ghost predicate Expired(l: TimedLoop, was: Timed, nexts: map<Watcher, Option<real>>)
      reads l, l.heap.mine`active, l.heap.mine`at, l.heap.mine`fed
    {
      && was.fed.Keys == was.at.Keys == l.heap.mine && was.keys.Keys <= l.heap.mine && was.keys.Keys <= nexts.Keys
      && l.heap.Keys() == NewDue(was.keys, nexts, l.now)
      && (forall w :: w in l.heap.mine ==>
            w.fed == if w in was.keys && was.keys[w] < l.now
                     then (if nexts[w].None? then [] else was.fed[w]) + [l.Flags()] else was.fed[w])
      && (forall w :: w in l.heap.mine && w !in was.keys ==> w.at == was.at[w])
      && (forall w :: w in was.keys && was.keys[w] < l.now && nexts[w].None? ==> w.at == l.Stopped(was.keys[w]))
    }

    // When each timer is due, or would be if it were started now
    ghost function TimerTimes(): map<Watcher, real>
      reads timers`now, timers.heap.mine`active, timers.heap.mine`at
    {
      map w | w in timers.heap.mine :: if w in timers.heap.Keys() then timers.heap.Keys()[w] else w.at + timers.now
    }

    // When the repeating timers are due if they are set anew now
    ghost function AgainTimes(): map<Watcher, real>
      reads timers`now, timers.heap.mine`repeat
    {
      map w | w in timers.heap.mine && w.repeat != 0.0 :: timers.now + w.repeat
    }

    // When the periodics are due if they are set anew now
    ghost function NextTimes(): map<Watcher, real>
      reads periodics`now, periodics.heap.mine`offset, periodics.heap.mine`interval, periodics.heap.mine`reschedule
      reads periodics.heap.mine`repeat
    {
      map w | w in periodics.heap.mine && periodics.WellSet(w) && periodics.kind.Periodics? :: PeriodicTime(w)
    }

    // What the deeds of callbacks depend on and may change
    ghost function Planned(): Plan
      reads timers`now, timers.heap.mine`active, timers.heap.mine`at, timers.heap.mine`repeat
      reads periodics`now, periodics.heap.mine`offset, periodics.heap.mine`interval, periodics.heap.mine`reschedule
      reads periodics.heap.mine`repeat, periodics.heap.mine`active, periodics.heap.mine`at
      reads table, table.fds, table.fds.known`active
    {
      Plan(timers.heap.Keys().Keys, TimerTimes(), AgainTimes(), periodics.heap.Keys(), NextTimes(), table.Started(),
           table.fdchanges == [])
    }

    lemma NextTime(w: Watcher)
      requires Valid() && w in periodics.heap.mine
      ensures periodics.WellSet(w) && w in NextTimes() && NextTimes()[w] == PeriodicTime(w)
      ensures w in periodics.heap.Keys() <==> w.active != 0
    {
    }

    lemma AgainTime(w: Watcher)
      requires w in timers.heap.mine
      ensures w in TimerTimes() && (w in timers.heap.Keys() <==> w.active != 0)
      ensures w in AgainTimes() <==> w.repeat != 0.0
      ensures w.repeat != 0.0 ==> AgainTimes()[w] == timers.now + w.repeat
    {
    }

    // No operation takes a watcher out of these sets.
    ghost function Fit(): Usable
      reads queue.known`priority, table.fds.known`fd, table.fds.known`events
    {
      UsableOf(queue.known, table.fds.known, timers.heap.mine, periodics.heap.mine)
    }

    lemma IncludesItself()
      ensures Includes(Fit(), Fit())
    {
    }

    ghost predicate ScriptOk()
      reads this`script, queue.known`priority, table.fds.known`fd, table.fds.known`events
    {
      ScriptFits(Fit())
    }

    ghost predicate ScriptFits(fit: Usable)
      reads this`script
    {
      forall d :: d in script ==> DeedOk(d, fit)
    }

    // A script stays so when more watchers are in range.
    lemma StillOk(fit: Usable)
      requires Includes(Fit(), fit)
      ensures ScriptFits(fit) ==> ScriptOk()
    {
    }

    lemma ScriptStarts(fit: Usable)
      requires fit == Fit() && ScriptFits(fit)
      ensures ScriptOk()
    {
    }

    // The operations on one part, beside the others

    // ev_timer_start
    method TimerStart(w: Watcher)
      requires Valid() && w in timers.heap.mine
      modifies timers`activecnt, timers.heap`slots, timers.heap`cnt, timers.heap.slots, timers.heap.mine`active
      modifies w`at, w`priority
      ensures Valid()
      ensures timers.heap.slots == old(timers.heap.slots) || fresh(timers.heap.slots)
      ensures Includes(Fit(), old(Fit())) && (old(ScriptOk()) ==> ScriptOk())
      ensures old(w.active) != 0 ==> timers.heap.Keys() == old(timers.heap.Keys())
      ensures old(w.active) == 0 ==> timers.heap.Keys() == old(timers.heap.Keys())[w := old(w.at) + timers.now]
      ensures periodics.heap.Keys() == old(periodics.heap.Keys())
      ensures TimerTimes() == old(TimerTimes())
    {
      hide Table.Own, TimedLoop.Own, PendingQueues.Valid, ScriptFits;
      ghost var fit := Fit();
      timers.TimerStart(w);
      StillOk(fit);
    }

    // ev_timer_stop
    method TimerStop(w: Watcher)
      requires Valid() && w in timers.heap.mine
      modifies timers`activecnt, timers.heap`cnt, timers.heap.slots, timers.heap.mine`active, w`at
      modifies queue`pendings, queue`trace, w`pending, w`fed
      ensures Valid()
      ensures w.fed == [] && timers.heap.Keys() == old(timers.heap.Keys()) - {w}
      ensures w.at == if old(w.active) != 0 then old(w.at) - timers.now else old(w.at)
      ensures periodics.heap.Keys() == old(periodics.heap.Keys())
      ensures ClearsOnly(old(queue.trace), queue.trace, w)
      ensures TimerTimes() == old(TimerTimes())
      ensures Includes(Fit(), old(Fit()))
    {
      hide Table.Own, TimedLoop.Own, PendingQueues.Valid, AgainTimes, NextTimes, Table.Started, Fit, Includes;
      IncludesItself();
      timers.Stop(w);
    }

    // ev_timer_again
    method TimerAgain(w: Watcher)
      requires Valid() && w in timers.heap.mine
      modifies timers`activecnt, timers.heap`slots, timers.heap`cnt, timers.heap.slots, timers.heap.mine`active
      modifies w`at, w`priority
      modifies queue`pendings, queue`trace, w`pending, w`fed
      ensures Valid()
      ensures timers.heap.slots == old(timers.heap.slots) || fresh(timers.heap.slots)
      ensures Includes(Fit(), old(Fit())) && (old(ScriptOk()) ==> ScriptOk())
      ensures w.fed == []
      ensures w.repeat == 0.0 ==> w.at == if old(w.active) != 0 then old(w.at) - timers.now else old(w.at)
      ensures timers.heap.Keys() ==
              if w.repeat != 0.0 then old(timers.heap.Keys())[w := timers.now + w.repeat]
              else old(timers.heap.Keys()) - {w}
      ensures periodics.heap.Keys() == old(periodics.heap.Keys())
      ensures ClearsOnly(old(queue.trace), queue.trace, w)
      ensures TimerTimes() ==
              if w.repeat != 0.0 then old(TimerTimes())[w := timers.now + w.repeat] else old(TimerTimes())
    {
      hide Table.Own, TimedLoop.Own, PendingQueues.Valid, ScriptFits;
      ghost var fit := Fit();
      timers.TimerAgain(w);
      StillOk(fit);
    }

    lemma WatchersAreSet()
      requires Valid()
      ensures forall w :: w in timers.heap.mine ==> timers.WellSet(w)
      ensures forall w :: w in periodics.heap.mine ==> periodics.WellSet(w)
    {
    }

    // ev_periodic_start
    method PeriodicStart(w: Watcher)
      requires Valid() && w in periodics.heap.mine && periodics.WellSet(w)
      modifies periodics`activecnt, periodics.heap`slots, periodics.heap`cnt, periodics.heap.slots
      modifies periodics.heap.mine`active
      modifies w`at, w`priority
      ensures Valid()
      ensures periodics.heap.slots == old(periodics.heap.slots) || fresh(periodics.heap.slots)
      ensures Includes(Fit(), old(Fit())) && (old(ScriptOk()) ==> ScriptOk())
      ensures old(w.active) != 0 ==> periodics.heap.Keys() == old(periodics.heap.Keys())
      ensures old(w.active) == 0 ==> periodics.heap.Keys() == old(periodics.heap.Keys())[w := PeriodicTime(w)]
      ensures timers.heap.Keys() == old(timers.heap.Keys())
    {
      hide Table.Own, TimedLoop.Own, PendingQueues.Valid, ScriptFits;
      ghost var fit := Fit();
      periodics.PeriodicStart(w);
      StillOk(fit);
    }

    // ev_periodic_stop
    method PeriodicStop(w: Watcher)
      requires Valid() && w in periodics.heap.mine
      modifies periodics`activecnt, periodics.heap`cnt, periodics.heap.slots, periodics.heap.mine`active, w`at
      modifies queue`pendings, queue`trace, w`pending, w`fed
      ensures Valid()
      ensures w.fed == [] && periodics.heap.Keys() == old(periodics.heap.Keys()) - {w}
      ensures timers.heap.Keys() == old(timers.heap.Keys())
      ensures ClearsOnly(old(queue.trace), queue.trace, w)
      ensures Includes(Fit(), old(Fit()))
    {
      hide Table.Own, TimedLoop.Own, PendingQueues.Valid, AgainTimes, TimerTimes, Table.Started, Fit, Includes;
      IncludesItself();
      periodics.Stop(w);
    }

    // ev_periodic_again
    method PeriodicAgain(w: Watcher)
      requires Valid() && w in periodics.heap.mine && periodics.WellSet(w)
      modifies periodics`activecnt, periodics.heap`slots, periodics.heap`cnt, periodics.heap.slots
      modifies periodics.heap.mine`active
      modifies w`at, w`priority
      modifies queue`pendings, queue`trace, w`pending, w`fed
      ensures Valid()
      ensures periodics.heap.slots == old(periodics.heap.slots) || fresh(periodics.heap.slots)
      ensures Includes(Fit(), old(Fit())) && (old(ScriptOk()) ==> ScriptOk())
      ensures periodics.heap.Keys() == old(periodics.heap.Keys())[w := PeriodicTime(w)]
      ensures timers.heap.Keys() == old(timers.heap.Keys())
      ensures ClearsOnly(old(queue.trace), queue.trace, w)
    {
      hide Table.Own, TimedLoop.Own, PendingQueues.Valid, ScriptFits;
      ghost var fit := Fit();
      periodics.PeriodicAgain(w);
      StillOk(fit);
    }

    // ev_io_start
    method IoStart(w: Watcher)
      requires Valid() && w in table.fds.known
      requires w.active == 0 ==> w.fd >= 0 && w.events <= {READ, WRITE, IOFDSET}
      modifies table, table.fds, w`priority, w`active, w`next, w`events
      ensures Valid()
      ensures Includes(Fit(), old(Fit())) && (old(ScriptOk()) ==> ScriptOk())
      ensures old(w.active) == 0 ==>
                && w.active == 1
                && table.fds.WantedOn(w.fd) == old(table.fds.WantedOn(w.fd)) + w.events
      ensures w.events == if old(w.active) == 0 then old(w.events) - {IOFDSET} else old(w.events)
      ensures table.fdchanges == [] <==> old(table.fdchanges) == [] && old(w.active) != 0
      ensures |old(table.anfds)| <= |table.anfds| && w.active != 0 && (old(w.active) == 0 ==> w.fd < |table.anfds|)
      ensures timers.heap.Keys() == old(timers.heap.Keys())
      ensures periodics.heap.Keys() == old(periodics.heap.Keys())
      ensures table.Started() == old(table.Started()) + {w}
    {
      hide Table.Own, TimedLoop.Own, PendingQueues.Valid, ScriptFits;
      ghost var fit := Fit();
      table.IoStart(w);
      StillOk(fit);
    }

    // ev_io_stop
    method IoStop(w: Watcher)
      requires Valid() && w in table.fds.known
      modifies table, table.fds, queue`pendings, queue`trace, w`pending, w`fed, w`active, table.fds.known`next
      ensures Valid()
      ensures w.active == 0 && w.fed == [] && |table.anfds| == |old(table.anfds)|
      ensures table.fdchanges == [] <==> old(table.fdchanges) == [] && old(w.active) == 0
      ensures timers.heap.Keys() == old(timers.heap.Keys())
      ensures periodics.heap.Keys() == old(periodics.heap.Keys())
      ensures ClearsOnly(old(queue.trace), queue.trace, w)
      ensures table.Started() == old(table.Started()) - {w}
      ensures Includes(Fit(), old(Fit()))
    {
      hide Table.Own, TimedLoop.Own, PendingQueues.Valid, AgainTimes, NextTimes, TimerTimes, WatcherHeap.Keys,
        Fit, Includes;
      IncludesItself();
      table.IoStop(w, 0);
    }

    // The fds of the started I/O watchers are in the table.
    lemma StartedOnTable()
      requires Valid()
      ensures forall w :: w in table.Started() ==> 0 <= w.fd < |table.anfds|
    {
    }

    lemma PlanStarted()
      ensures Planned().started == table.Started()
    {
    }

    lemma KindFlags()
      requires Valid()
      ensures timers.Flags() == {TIMER} && periodics.Flags() == {PERIODIC}
    {
    }

    lemma KindsApart()
      requires Valid()
      ensures table.fds.known !! timers.heap.mine && table.fds.known !! periodics.heap.mine
      ensures timers.heap.mine !! periodics.heap.mine && timers != periodics
    {
    }

    lemma Subsets()
      requires Valid()
      ensures timers.heap.Keys().Keys <= timers.heap.mine && periodics.heap.Keys().Keys <= periodics.heap.mine
      ensures table.Started() <= table.fds.known
      ensures table.fds.known <= queue.known && timers.heap.mine <= queue.known && periodics.heap.mine <= queue.known
      ensures table.fds.known !! timers.heap.mine && table.fds.known !! periodics.heap.mine
      ensures timers.heap.mine !! periodics.heap.mine && timers != periodics && timers.heap != periodics.heap
      ensures timers.heap.slots != periodics.heap.slots && table.backend.Object() != this
      ensures forall w :: w in queue.known ==> w != table.backend.Object()
    {
    }

    // ev_feed_event
    method FeedEvent(w: Watcher, revents: Events)
      requires Valid() && w in queue.known && 0 <= w.AbsPri() < NUMPRI
      modifies queue`pendings, queue`pendingpri, queue`trace, w`pending, w`fed
      ensures Valid() && w.fed == old(w.fed) + [revents] && queue.trace == old(queue.trace) + [Step.Fed(w, revents)]
      ensures queue.pendingpri < NUMPRI && Planned() == old(Planned())
      ensures Includes(Fit(), old(Fit()))
    {
      hide Table.Own, TimedLoop.Own, PendingQueues.Valid, WatcherHeap.Keys, TimerTimes, AgainTimes, NextTimes,
        Table.Started, Fit, Includes;
      IncludesItself();
      queue.FeedEvent(w, revents);
    }

    // ev_clear_pending
    method ClearPending(w: Watcher) returns (events: Events)
      requires Valid() && w in queue.known
      modifies queue`pendings, queue`trace, w`pending, w`fed
      ensures Valid() && w.fed == [] && events == OrAll(old(w.fed))
      ensures queue.trace == old(queue.trace) + if old(w.fed) == [] then [] else [Cleared(w, old(w.fed))]
      ensures Planned() == old(Planned())
      ensures Includes(Fit(), old(Fit()))
    {
      hide Table.Own, TimedLoop.Own, PendingQueues.Valid, WatcherHeap.Keys, TimerTimes, AgainTimes, NextTimes,
        Table.Started, Fit, Includes;
      IncludesItself();
      events := queue.ClearPending(w);
    }

    // A deed on a timer
    method ActTimer(d: Deed)
      requires Valid() && (d.StartTimer? || d.StopTimer? || d.AgainTimer?) && d.w in timers.heap.mine
      modifies timers`activecnt, timers.heap`slots, timers.heap`cnt, timers.heap.slots, timers.heap.mine`active
      modifies timers.heap.mine`at, timers.heap.mine`priority, timers.heap.mine`pending, timers.heap.mine`fed
      modifies queue`pendings, queue`trace
      ensures Valid() && Planned() == After(old(Planned()), d) && ByDeed(old(queue.trace), queue.trace, d)
      ensures timers.heap.slots == old(timers.heap.slots) || fresh(timers.heap.slots)
      ensures Includes(Fit(), old(Fit()))
    {
      hide ByDeed, ClearsOnly, ScriptOk, Valid, WatcherHeap.Keys, TimerTimes, AgainTimes, NextTimes, Table.Started,
        FdLists.WantedOn, TimedLoop.WellSet, Fit, Includes;
      KindsApart();
      AgainTime(d.w);
      ghost var was := queue.trace;
      match d {
        case StartTimer(w) => TimerStart(w);
        case StopTimer(w) => TimerStop(w);
        case AgainTimer(w) => TimerAgain(w);
      }
      ClearsByDeed(was, queue.trace, d);
    }

    // A deed on a periodic
    method ActPeriodic(d: Deed)
      requires Valid() && (d.StartPeriodic? || d.StopPeriodic? || d.AgainPeriodic?) && d.w in periodics.heap.mine
      modifies periodics`activecnt, periodics.heap`slots, periodics.heap`cnt, periodics.heap.slots
      modifies periodics.heap.mine`active
      modifies periodics.heap.mine`at, periodics.heap.mine`priority, periodics.heap.mine`pending
      modifies periodics.heap.mine`fed
      modifies queue`pendings, queue`trace
      ensures Valid() && Planned() == After(old(Planned()), d) && ByDeed(old(queue.trace), queue.trace, d)
      ensures periodics.heap.slots == old(periodics.heap.slots) || fresh(periodics.heap.slots)
      ensures Includes(Fit(), old(Fit()))
    {
      hide ByDeed, ClearsOnly, ScriptOk, Valid, WatcherHeap.Keys, TimerTimes, AgainTimes, NextTimes, Table.Started,
        FdLists.WantedOn, TimedLoop.WellSet, PeriodicTime, Fit, Includes;
      KindsApart();
      WatchersAreSet();
      NextTime(d.w);
      ghost var was := queue.trace;
      match d {
        case StartPeriodic(w) => PeriodicStart(w);
        case StopPeriodic(w) => PeriodicStop(w);
        case AgainPeriodic(w) => PeriodicAgain(w);
      }
      ClearsByDeed(was, queue.trace, d);
    }

    // A deed on an I/O watcher
    method ActIo(d: Deed)
      requires Valid() && DeedOk(d, Fit()) && (d.StartIo? || d.StopIo?)
      modifies table, table.fds, queue`pendings, queue`trace
      modifies table.fds.known`active, table.fds.known`next, table.fds.known`events
      modifies table.fds.known`priority, table.fds.known`pending, table.fds.known`fed
      ensures Valid() && Planned() == After(old(Planned()), d) && ByDeed(old(queue.trace), queue.trace, d)
      ensures |old(table.anfds)| <= |table.anfds|
      ensures Includes(Fit(), old(Fit()))
    {
      hide ByDeed, ClearsOnly, ScriptOk, Valid, WatcherHeap.Keys, TimerTimes, AgainTimes, NextTimes, Table.Started,
        FdLists.WantedOn, TimedLoop.WellSet, Fit, Includes;
      KindsApart();
      WatchersOk(d.w);
      ghost var was := queue.trace;
      match d {
        case StartIo(w) => IoStart(w);
        case StopIo(w) => IoStop(w);
      }
      ClearsByDeed(was, queue.trace, d);
    }

    // A deed on the pending queues
    method ActQueue(d: Deed)
      requires Valid() && DeedOk(d, Fit()) && (d.Feed? || d.Clear?)
      modifies queue`pendings, queue`pendingpri, queue`trace, queue.known`pending, queue.known`fed
      ensures Valid() && Planned() == After(old(Planned()), d) && ByDeed(old(queue.trace), queue.trace, d)
      ensures old(queue.pendingpri) < NUMPRI ==> queue.pendingpri < NUMPRI
    {
      hide ClearsOnly, ScriptOk, Valid, WatcherHeap.Keys, TimerTimes, AgainTimes, NextTimes, Table.Started,
        FdLists.WantedOn, TimedLoop.WellSet, Fit, Includes;
      WatchersOk(d.w);
      match d {
        case Feed(w, e) => FeedEvent(w, e);
        case Clear(w) => var _ := ClearPending(w);
      }
    }

    lemma WatchersOk(w: Watcher)
      ensures w in table.Started() <==> w in table.fds.known && w.active != 0
      ensures Fit().known == queue.known && Fit().io == table.fds.known
      ensures Fit().timers == timers.heap.mine && Fit().periodics == periodics.heap.mine
      ensures w in Fit().inRange ==> w in queue.known && 0 <= w.AbsPri() < NUMPRI
      ensures w in Fit().startable ==> w in table.fds.known && w.fd >= 0 && w.events <= {READ, WRITE, IOFDSET}
    {
    }

    lemma DeedsWatcher(d: Deed)
      requires DeedOk(d, Fit())
      ensures d.StartTimer? || d.StopTimer? || d.AgainTimer? ==> d.w in timers.heap.mine
      ensures d.StartPeriodic? || d.StopPeriodic? || d.AgainPeriodic? ==> d.w in periodics.heap.mine
    {
    }

    // A callback calls one of the functions above.
    method Act(d: Deed)
      requires Valid() && DeedOk(d, Fit()) && !d.Drain? && !d.Return? && queue.pendingpri < NUMPRI
      modifies table, table.fds, timers`activecnt, timers.heap`slots, timers.heap`cnt, timers.heap.slots
      modifies periodics`activecnt, periodics.heap`slots, periodics.heap`cnt, periodics.heap.slots
      modifies queue`pendings, queue`pendingpri, queue`trace, queue.known`pending, queue.known`fed
      modifies queue.known`active, queue.known`at, queue.known`priority, queue.known`next, queue.known`events
      ensures Valid() && Planned() == After(old(Planned()), d) && ByDeed(old(queue.trace), queue.trace, d)
      ensures queue.pendingpri < NUMPRI && |old(table.anfds)| <= |table.anfds|
      ensures timers.heap.slots == old(timers.heap.slots) || fresh(timers.heap.slots)
      ensures periodics.heap.slots == old(periodics.heap.slots) || fresh(periodics.heap.slots)
      ensures Includes(Fit(), old(Fit()))
    {
      hide ByDeed, ClearsOnly, ScriptOk, Valid, Planned, After, Fit, Includes, DeedOk;
      IncludesItself();
      DeedsWatcher(d);
      Subsets();
      if d.StartTimer? || d.StopTimer? || d.AgainTimer? {
        ActTimer(d);
      } else if d.StartPeriodic? || d.StopPeriodic? || d.AgainPeriodic? {
        ActPeriodic(d);
      } else if d.StartIo? || d.StopIo? {
        ActIo(d);
      } else {
        ActQueue(d);
      }
    }

    // The deeds done so far have brought plan p to where it is now, and the steps of the trace since `before` are
    // invocations and what the deeds have caused.
    ghost predicate Going(p: Plan, deeds: seq<Deed>, before: seq<Step>, n: nat)
      reads this`script, table, table.fds, table.backend.Object()
      reads table.fds.known`active, table.fds.known`next, table.fds.known`fd, table.fds.known`events
      reads table.fds.known`priority
      reads queue`pendings, queue`pendingpri, queue`trace, queue.known`pending, queue.known`priority, queue.known`fed
      reads timers, timers.heap, timers.heap.slots, timers.heap.mine
      reads periodics, periodics.heap, periodics.heap.slots, periodics.heap.mine
    {
      && Valid() && ScriptOk() && n <= |table.anfds|
      && |script| <= |deeds| && script == deeds[|deeds| - |script|..]
      && ByDeeds(before, queue.trace, deeds[..|deeds| - |script|])
      && Planned() == Outcome(p, deeds[..|deeds| - |script|])
    }

    // The next deed of the script is done, unless it is for the caller.
    method NextDeed(ghost p: Plan, ghost deeds: seq<Deed>, ghost before: seq<Step>, ghost n: nat) returns (d: Deed)
      requires Going(p, deeds, before, n) && script != [] && queue.pendingpri < NUMPRI
      modifies table, table.fds, timers`activecnt, timers.heap`slots, timers.heap`cnt, timers.heap.slots
      modifies periodics`activecnt, periodics.heap`slots, periodics.heap`cnt, periodics.heap.slots
      modifies queue`pendings, queue`pendingpri, queue`trace, queue.known`pending, queue.known`fed
      modifies queue.known`active, queue.known`at, queue.known`priority, queue.known`next, queue.known`events
      modifies this`script
      ensures Going(p, deeds, before, n) && queue.pendingpri < NUMPRI && |script| == old(|script|) - 1
      ensures |script| < |deeds| && d == deeds[|deeds| - |script| - 1]
      ensures timers.heap.slots == old(timers.heap.slots) || fresh(timers.heap.slots)
      ensures periodics.heap.slots == old(periodics.heap.slots) || fresh(periodics.heap.slots)
    {
      hide ByDeed, ByDeeds, Valid, Planned, After, Outcome, Fit, Includes, DeedOk;
      IncludesItself();
      Subsets();
      ghost var fit, k := Fit(), |deeds| - |script|;
      ghost var was := queue.trace;
      d := script[0];
      OutcomeAppend(p, deeds[..k], d);
      assert deeds[..k] + [d] == deeds[..k + 1];
      script := script[1..];
      if !d.Drain? && !d.Return? {
        Act(d);
      } else {
        OtherDeeds(Planned(), d);
        ClearsByDeed(was, was, d);
      }
      StillOk(fit);
      ByDeedsAppend(before, was, queue.trace, deeds[..k], d);
    }

    // The last callback has run to its end.
    ghost predicate Ended(deeds: seq<Deed>)
      reads this`script
    {
      script == [] || (|script| < |deeds| && deeds[|deeds| - |script| - 1].Return?)
    }

    // A callback runs its part of the script.
    method RunCallback(ghost p: Plan, ghost deeds: seq<Deed>, ghost before: seq<Step>, ghost n: nat)
      requires Going(p, deeds, before, n) && queue.pendingpri < NUMPRI
      modifies table, table.fds, timers`activecnt, timers.heap`slots, timers.heap`cnt, timers.heap.slots
      modifies periodics`activecnt, periodics.heap`slots, periodics.heap`cnt, periodics.heap.slots
      modifies queue`pendings, queue`pendingpri, queue`trace, queue.known`pending, queue.known`fed
      modifies queue.known`active, queue.known`at, queue.known`priority, queue.known`next, queue.known`events
      modifies this`script, queue.pendingW`pending
      ensures Going(p, deeds, before, n) && queue.pendingpri < NUMPRI && |script| <= old(|script|) && Ended(deeds)
      ensures |script| == old(|script|) ==>
                && script == [] && queue.pendings == old(queue.pendings) && queue.pendingpri == old(queue.pendingpri)
                && queue.trace == old(queue.trace)
      ensures timers.heap.slots == old(timers.heap.slots) || fresh(timers.heap.slots)
      ensures periodics.heap.slots == old(periodics.heap.slots) || fresh(periodics.heap.slots)
      decreases |script|, 0
    {
      hide Going;
      while script != []
        invariant Going(p, deeds, before, n) && queue.pendingpri < NUMPRI && |script| <= old(|script|)
        invariant |script| == old(|script|) ==>
                    && script == old(script) && queue.pendings == old(queue.pendings)
                    && queue.pendingpri == old(queue.pendingpri) && queue.trace == old(queue.trace)
        invariant timers.heap.slots == old(timers.heap.slots) || fresh(timers.heap.slots)
        invariant periodics.heap.slots == old(periodics.heap.slots) || fresh(periodics.heap.slots)
        decreases |script|
      {
        var d := NextDeed(p, deeds, before, n);
        if d.Drain? {
          InvokePending(p, deeds, before, n);
        } else if d.Return? {
          return;
        }
      }
    }

    // What is delivered and what is left, for a drain that nobody disturbs
    ghost predicate Undisturbed(n: nat, order: seq<Entry>)
      reads queue`pendings, queue`trace
    {
      n <= |queue.trace| && Delivered(queue.trace, n) + DrainOrder(queue.pendings) == order
    }

    method PopTop(ghost p: Plan, ghost deeds: seq<Deed>, ghost before: seq<Step>, ghost n: nat, ghost m: nat,
                  ghost order: seq<Entry>)
      requires Going(p, deeds, before, n) && 0 <= queue.pendingpri < NUMPRI && |queue.pendings| == NUMPRI
      requires queue.pendings[queue.pendingpri] != []
      modifies queue`pendings, queue`trace, queue.known`pending, queue.known`fed, queue.pendingW`pending
      ensures Going(p, deeds, before, n) && |queue.pendings| == NUMPRI
      ensures Total(queue.pendings) == old(Total(queue.pendings)) - 1 && queue.pendingpri < NUMPRI
      ensures old(Undisturbed(m, order)) ==> Undisturbed(m, order)
    {
      hide ByDeeds, Table.Own, TimedLoop.Own, PendingQueues.Coherent, PendingQueues.Accounted, Outcome, ScriptOk,
        WatcherHeap.Keys, TimerTimes, AgainTimes, NextTimes, Table.Started, Delivered, DrainOrder, Total;
      ghost var trace, ps := queue.trace, queue.pendings;
      var e := queue.PopEntry();
      ByDeedsInvoke(before, trace, queue.trace[|trace|], deeds[..|deeds| - |script|]);
      PopDelivers(trace, queue.trace[|trace|].i, 0, ps, queue.pendingpri);
      if m <= |trace| {
        PopDelivers(trace, queue.trace[|trace|].i, m, ps, queue.pendingpri);
      }
    }

    method InvokeTop(ghost p: Plan, ghost deeds: seq<Deed>, ghost before: seq<Step>, ghost n: nat, ghost m: nat,
                     ghost order: seq<Entry>)
      requires Going(p, deeds, before, n) && 0 <= queue.pendingpri < NUMPRI && |queue.pendings| == NUMPRI
      requires queue.pendings[queue.pendingpri] != []
      modifies table, table.fds, timers`activecnt, timers.heap`slots, timers.heap`cnt, timers.heap.slots
      modifies periodics`activecnt, periodics.heap`slots, periodics.heap`cnt, periodics.heap.slots
      modifies queue`pendings, queue`pendingpri, queue`trace, queue.known`pending, queue.known`fed
      modifies queue.known`active, queue.known`at, queue.known`priority, queue.known`next, queue.known`events
      modifies this`script, queue.pendingW`pending
      ensures Going(p, deeds, before, n) && queue.pendingpri < NUMPRI && |script| <= old(|script|) && Ended(deeds)
      ensures |script| == old(|script|) ==>
                Total(queue.pendings) == old(Total(queue.pendings)) - 1 && queue.pendingpri == old(queue.pendingpri)
      ensures old(script) == [] && old(Undisturbed(m, order)) ==> Undisturbed(m, order)
      ensures timers.heap.slots == old(timers.heap.slots) || fresh(timers.heap.slots)
      ensures periodics.heap.slots == old(periodics.heap.slots) || fresh(periodics.heap.slots)
      decreases |script|, 1
    {
      hide Going, Undisturbed, Total;
      PopTop(p, deeds, before, n, m, order);
      RunCallback(p, deeds, before, n);
    }

    lemma QueueShape(p: Plan, deeds: seq<Deed>, before: seq<Step>, n: nat)
      requires Going(p, deeds, before, n)
      ensures |queue.pendings| == NUMPRI && 0 <= queue.pendingpri <= NUMPRI
      ensures forall q :: queue.pendingpri < q < NUMPRI ==> queue.pendings[q] == []
    {
    }

    method SetPri(pri: nat, ghost p: Plan, ghost deeds: seq<Deed>, ghost before: seq<Step>, ghost n: nat)
      requires Going(p, deeds, before, n) && |queue.pendings| == NUMPRI && pri <= NUMPRI
      requires forall q :: pri < q < NUMPRI ==> queue.pendings[q] == []
      modifies queue`pendingpri
      ensures Going(p, deeds, before, n) && queue.pendingpri == pri
    {
      hide Table.Own, TimedLoop.Own, PendingQueues.Coherent, PendingQueues.Accounted, Outcome, ScriptOk,
        WatcherHeap.Keys, TimerTimes, AgainTimes, NextTimes, Table.Started;
      queue.pendingpri := pri;
    }

    ghost predicate NothingPending()
      reads queue`pendings
    {
      |queue.pendings| == NUMPRI && forall q :: 0 <= q < NUMPRI ==> queue.pendings[q] == []
    }

    // ev_invoke_pending; a callback may call it too.
    method InvokePending(ghost p: Plan, ghost deeds: seq<Deed>, ghost before: seq<Step>, ghost n: nat)
      requires Going(p, deeds, before, n)
      modifies table, table.fds, timers`activecnt, timers.heap`slots, timers.heap`cnt, timers.heap.slots
      modifies periodics`activecnt, periodics.heap`slots, periodics.heap`cnt, periodics.heap.slots
      modifies queue`pendings, queue`pendingpri, queue`trace, queue.known`pending, queue.known`fed
      modifies queue.known`active, queue.known`at, queue.known`priority, queue.known`next, queue.known`events
      modifies this`script, queue.pendingW`pending
      ensures Going(p, deeds, before, n) && NothingPending() && queue.pendingpri == 0 && |script| <= old(|script|)
      ensures Ended(deeds) || (old(NothingPending()) && queue.trace == old(queue.trace))
      ensures old(script) == [] ==> Undisturbed(old(|queue.trace|), old(DrainOrder(queue.pendings)))
      ensures timers.heap.slots == old(timers.heap.slots) || fresh(timers.heap.slots)
      ensures periodics.heap.slots == old(periodics.heap.slots) || fresh(periodics.heap.slots)
      decreases |script|, 2
    {
      hide Going, Undisturbed, Total, DrainOrder, Ended;
      ghost var m, order := |queue.trace|, DrainOrder(queue.pendings);
      StartsUndisturbed();
      QueueShape(p, deeds, before, n);
      SetPri(NUMPRI, p, deeds, before, n);
      while queue.pendingpri > 0
        invariant Going(p, deeds, before, n) && |script| <= old(|script|)
        invariant |queue.pendings| == NUMPRI && 0 <= queue.pendingpri <= NUMPRI
        invariant forall q :: queue.pendingpri <= q < NUMPRI ==> queue.pendings[q] == []
        invariant old(script) == [] ==> Undisturbed(m, order)
        invariant Ended(deeds) || (queue.pendings == old(queue.pendings) && queue.trace == old(queue.trace))
        invariant timers.heap.slots == old(timers.heap.slots) || fresh(timers.heap.slots)
        invariant periodics.heap.slots == old(periodics.heap.slots) || fresh(periodics.heap.slots)
        decreases |script|, Total(queue.pendings), queue.pendingpri
      {
        ghost var s, t, pri := |script|, Total(queue.pendings), queue.pendingpri - 1;
        SetPri(queue.pendingpri - 1, p, deeds, before, n);
        while queue.pendings[queue.pendingpri] != []
          invariant Going(p, deeds, before, n) && |script| <= old(|script|)
          invariant |queue.pendings| == NUMPRI && 0 <= queue.pendingpri < NUMPRI
          invariant forall q :: queue.pendingpri < q < NUMPRI ==> queue.pendings[q] == []
          invariant || |script| < s
                    || (|script| == s && (Total(queue.pendings) < t
                                          || (Total(queue.pendings) == t && queue.pendingpri == pri)))
          invariant old(script) == [] ==> Undisturbed(m, order)
          invariant Ended(deeds) || (queue.pendings == old(queue.pendings) && queue.trace == old(queue.trace))
          invariant timers.heap.slots == old(timers.heap.slots) || fresh(timers.heap.slots)
          invariant periodics.heap.slots == old(periodics.heap.slots) || fresh(periodics.heap.slots)
          decreases |script|, Total(queue.pendings)
        {
          InvokeTop(p, deeds, before, n, m, order);
          QueueShape(p, deeds, before, n);
        }
      }
    }

    lemma StartsUndisturbed()
      ensures Undisturbed(|queue.trace|, DrainOrder(queue.pendings))
    {
      hide DrainOrder;
      assert Delivered(queue.trace, |queue.trace|) == [];
      assert [] + DrainOrder(queue.pendings) == DrainOrder(queue.pendings);
    }

    // What puts watchers in the queues: the backend, and the clocks

    // What a reify starts from, in the terms of one kind
    ghost predicate Agree(l: TimedLoop, p: Prior, was: Timed, nexts: map<Watcher, Option<real>>) {
      && was.keys == p.keys && was.at == p.at && p.keys.Keys <= p.nexts.Keys && p.keys.Keys <= nexts.Keys
      && p.keys.Keys <= l.heap.mine && was.fed.Keys == l.heap.mine <= p.fed.Keys
      && (forall w :: w in p.keys ==> nexts[w] == p.nexts[w])
      && (forall w :: w in l.heap.mine ==> was.fed[w] == p.fed[w])
    }

    lemma TimerNextsAgree(p: Prior, was: Timed)
      requires Valid() && (forall w :: w in timers.heap.mine ==> timers.WellSet(w))
      requires p == timers.State() && was == Kept(timers)
      ensures Agree(timers, p, was, TimerNexts(p.keys)) && p.trace == queue.trace && was.keys == timers.heap.Keys()
    {
      hide PendingQueues.Valid, Table.Own, WatcherHeap.Valid;
    }

    lemma PeriodicNextsAgree(p: Prior, was: Timed)
      requires Valid() && (forall w :: w in periodics.heap.mine ==> periodics.WellSet(w))
      requires p == periodics.State() && was == Kept(periodics)
      ensures Agree(periodics, p, was, PeriodicNexts()) && p.trace == queue.trace && was.keys == periodics.heap.Keys()
    {
      hide PendingQueues.Valid, Table.Own, WatcherHeap.Valid;
    }

    lemma AfterReify(l: TimedLoop, batch: seq<Watcher>, p: Prior, was: Timed, nexts: map<Watcher, Option<real>>)
      requires l.Reified(batch, p) && Agree(l, p, was, nexts)
      requires l.queue == queue
      ensures NoneOverdue(l) && Expired(l, was, nexts)
      ensures Expiries(p.trace, queue.trace, was.keys, nexts, l.now, l.Flags())
    {
    }

    // timers_reify
    method TimersReify() returns (batch: seq<Watcher>)
      requires Valid()
      modifies timers`activecnt, timers.heap`cnt, timers.heap.slots, timers.heap.mine`active, timers.heap.mine`at
      modifies queue`pendings, queue`pendingpri, queue`trace, timers.heap.mine`pending, timers.heap.mine`fed
      ensures Valid() && NoneOverdue(timers)
      ensures timers.Reified(batch, old(timers.State()))
      ensures Expired(timers, old(Kept(timers)), TimerNexts(old(timers.heap.Keys())))
      ensures Expiries(old(queue.trace), queue.trace, old(timers.heap.Keys()), TimerNexts(old(timers.heap.Keys())),
                       timers.now, {TIMER})
      ensures periodics.heap.Keys() == old(periodics.heap.Keys())
    {
      hide Table.Own, TimedLoop.Own, PendingQueues.Valid, WatcherHeap.Keys, NoneOverdue, Expired, Expiries, Kept,
        TimedLoop.Reified, TimedLoop.State, TimerNexts, PeriodicNexts;
      WatchersAreSet();
      KindFlags();
      ghost var p, was, nexts := timers.State(), Kept(timers), TimerNexts(timers.heap.Keys());
      TimerNextsAgree(p, was);
      batch := timers.Reify();
      AfterReify(timers, batch, p, was, nexts);
    }

    // periodics_reify
    method PeriodicsReify() returns (batch: seq<Watcher>)
      requires Valid()
      modifies periodics`activecnt, periodics.heap`cnt, periodics.heap.slots, periodics.heap.mine`active
      modifies periodics.heap.mine`at
      modifies queue`pendings, queue`pendingpri, queue`trace, periodics.heap.mine`pending, periodics.heap.mine`fed
      ensures Valid() && NoneOverdue(periodics)
      ensures periodics.Reified(batch, old(periodics.State()))
      ensures Expired(periodics, old(Kept(periodics)), PeriodicNexts())
      ensures Expiries(old(queue.trace), queue.trace, old(periodics.heap.Keys()), PeriodicNexts(), periodics.now,
                       {PERIODIC})
      ensures timers.heap.Keys() == old(timers.heap.Keys())
    {
      hide Table.Own, TimedLoop.Own, PendingQueues.Valid, WatcherHeap.Keys, NoneOverdue, Expired, Expiries, Kept,
        TimedLoop.Reified, TimedLoop.State, TimerNexts, PeriodicNexts;
      WatchersAreSet();
      KindFlags();
      ghost var p, was, nexts := periodics.State(), Kept(periodics), PeriodicNexts();
      PeriodicNextsAgree(p, was);
      batch := periodics.Reify();
      AfterReify(periodics, batch, p, was, nexts);
    }

    // timers_reschedule and periodics_reschedule, when the clock has jumped
    method Reschedule(adjust: real)
      requires Valid()
      modifies timers.heap.slots, timers.heap.mine`at
      modifies periodics.heap.slots, periodics.heap.mine`at, periodics.heap.mine`active
      ensures Valid()
      ensures timers.heap.Keys() == ShiftedKeys(old(timers.heap.Keys()), adjust)
      ensures periodics.heap.Keys() == old(periodics.RescheduledKeys(periodics.heap.Keys()))
    {
      hide Table.Own, TimedLoop.Own, PendingQueues.Valid, WatcherHeap.Keys, TimedLoop.RescheduledKeys;
      WatchersAreSet();
      periodics.KeysAreMine();
      timers.TimersReschedule(adjust);
      periodics.PeriodicsReschedule();
    }

    // time_update, when the clocks have not jumped
    method TimeUpdate(mnNow: real, rtNow: real)
      requires Valid()
      modifies timers`now, periodics`now
      ensures Valid() && timers.now == mnNow && periodics.now == rtNow
    {
      hide Table.Own, PendingQueues.Valid, WatcherHeap.Keys, WatcherHeap.Valid;
      timers.now, periodics.now := mnNow, rtNow;
    }

    // The fds and events of the started I/O watchers
    ghost function Wants(): map<Watcher, (int, Events)>
      reads table.fds, table.fds.known`active, table.fds.known`fd, table.fds.known`events
    {
      map w | w in table.Started() :: (w.fd, w.events)
    }

    // What has been fed to the I/O watchers: since `fed0` the started ones of lost fds have been fed the error events,
    // their other events being cleared, and those of other fds their parts of the reports.
    ghost predicate IoFed(fed0: map<Watcher, seq<Events>>, wants: map<Watcher, (int, Events)>,
                          ready: seq<(nat, Events)>, lost: seq<nat>)
      reads table.fds.known`fed
    {
      && fed0.Keys == table.fds.known && wants.Keys <= fed0.Keys
      && forall w :: w in table.fds.known ==>
           w.fed == if w !in wants then fed0[w]
                    else if wants[w].0 in lost then [KILLED] else fed0[w] + Shares(wants[w], ready)
    }

    // fd_reify
    method FdReify() returns (ghost lost: seq<nat>)
      requires Valid()
      modifies table, table.fds, table.backend.Object(), queue`pendings, queue`pendingpri, queue`trace
      modifies table.fds.known`pending, table.fds.known`fed, table.fds.known`active, table.fds.known`next
      ensures Valid()
      ensures table.fdchanges == [] && |table.anfds| == old(|table.anfds|)
      ensures forall f: nat :: table.backend.Interest(f) == table.fds.WantedOn(f)
      ensures Wants() == Left(old(Wants()), lost) && IoFed(old(table.FedNow()), old(Wants()), [], lost)
      ensures IoSteps(old(queue.trace), queue.trace, old(Wants()), [], lost)
      ensures Informed(old(table.backend.Reported()), old(CallsDue()), lost, old(table.Wanteds()))
      ensures timers.heap.Keys() == old(timers.heap.Keys()) && periodics.heap.Keys() == old(periodics.heap.Keys())
    {
      hide Table.Own, TimedLoop.Own, PendingQueues.Valid, WatcherHeap.Keys, FdLists.WantedOn, Table.Started,
        Table.OnlyKilled, Table.Wanteds, IoFed, IoSteps, ToTell, Dropped;
      Subsets();
      ghost var snap, wants, fed0 := table.Snapshot(), Wants(), table.FedNow();
      SnapshotIs(snap);
      lost := table.FdReify();
      AfterFdReify(snap, wants, fed0, lost);
    }

    lemma SnapshotIs(snap: Before)
      requires table.fds.Within() && snap == table.Snapshot()
      ensures snap.started == table.Started() == Wants().Keys && snap.fed == table.FedNow()
              && snap.trace == table.queue.trace
      ensures forall w :: w in Wants() ==> Wants()[w] == (w.fd, w.events)
    {
    }

    lemma AfterFdReify(snap: Before, wants: map<Watcher, (int, Events)>, fed0: map<Watcher, seq<Events>>,
                       lost: seq<nat>)
      requires table.OnlyKilled(snap, lost) && table.Started() == set w | w in snap.started && w.fd !in lost
      requires snap.started == wants.Keys && snap.fed == fed0 && forall w :: w in wants ==> wants[w] == (w.fd, w.events)
      requires table.queue == queue
      ensures Wants() == Left(wants, lost) && IoFed(fed0, wants, [], lost)
      ensures IoSteps(snap.trace, queue.trace, wants, [], lost)
    {
      forall w | w in table.fds.known
        ensures w.fed == if w !in wants then fed0[w]
                         else if wants[w].0 in lost then [KILLED] else fed0[w] + Shares(wants[w], [])
      {
        assert w in table.Started() <==> w.active != 0;
        assert fed0[w] + [] == fed0[w];
      }
    }

    // fd_event
    method FdEvent(fd: nat, revents: Events)
      requires Valid() && fd < |table.anfds| == |table.fds.lists|
      modifies queue`pendings, queue`pendingpri, queue`trace, table.fds.known`pending, table.fds.known`fed
      ensures Valid() && table.SharesOnly(old(queue.trace), fd, revents)
      ensures forall w :: w in table.fds.known ==> w.fed == old(w.fed) + table.Share(w, fd, revents)
      ensures timers.heap.Keys() == old(timers.heap.Keys()) && periodics.heap.Keys() == old(periodics.heap.Keys())
    {
      hide Table.Own, TimedLoop.Own, PendingQueues.Valid, WatcherHeap.Keys, Table.Share, Table.SharesOnly;
      table.FdEvent(fd, revents);
    }

    // What the backend reports: events for fds of the table
    ghost predicate Reports(ready: seq<(nat, Events)>)
      reads table`anfds
    {
      forall e :: e in ready ==> e.0 < |table.anfds|
    }

    // What a poll has fed, when all fds are unchanged
    ghost predicate Polled(fed0: map<Watcher, seq<Events>>, before: seq<Step>, ready: seq<(nat, Events)>)
      reads table.fds, table.fds.known`active, table.fds.known`fd, table.fds.known`events, table.fds.known`fed
      reads queue`trace
    {
      IoFed(fed0, Wants(), ready, []) && IoSteps(before, queue.trace, Wants(), ready, [])
    }

    // One call of fd_event in a poll
    method PollOne(r: (nat, Events), ghost done: seq<(nat, Events)>, ghost fed0: map<Watcher, seq<Events>>,
                   ghost before: seq<Step>)
      requires Valid() && r.0 < |table.anfds| && table.fdchanges == [] && Polled(fed0, before, done)
      modifies queue`pendings, queue`pendingpri, queue`trace, table.fds.known`pending, table.fds.known`fed
      ensures Valid() && Polled(fed0, before, done + [r])
    {
      hide Valid, WatcherHeap.Keys, Polled, Table.Share, Table.SharesOnly;
      Unchanged();
      ghost var fed1, mid := table.FedNow(), queue.trace;
      PolledMeans(fed0, before, done);
      FdEvent(r.0, r.1);
      PolledMore(r, done, fed0, before, fed1, mid);
    }

    lemma PolledMeans(fed0: map<Watcher, seq<Events>>, before: seq<Step>, ready: seq<(nat, Events)>)
      requires Polled(fed0, before, ready)
      ensures IoFed(fed0, Wants(), ready, []) && IoSteps(before, queue.trace, Wants(), ready, [])
      ensures forall w :: w in table.fds.known ==>
                w in fed0 && table.FedNow()[w] == fed0[w] + if w in Wants() then Shares(Wants()[w], ready) else []
    {
    }

    lemma PolledMore(r: (nat, Events), done: seq<(nat, Events)>, fed0: map<Watcher, seq<Events>>, before: seq<Step>,
                     fed1: map<Watcher, seq<Events>>, mid: seq<Step>)
      requires r.0 < |table.anfds| && table.anfds[r.0].reify == {} && fed0.Keys == fed1.Keys == table.fds.known
      requires forall w :: w in table.fds.known ==>
                 fed1[w] == fed0[w] + if w in Wants() then Shares(Wants()[w], done) else []
      requires forall w :: w in table.fds.known ==> w.fed == fed1[w] + table.Share(w, r.0, r.1)
      requires IoSteps(before, mid, Wants(), done, []) && table.SharesOnly(mid, r.0, r.1) && table.queue == queue
      ensures Polled(fed0, before, done + [r])
    {
      forall w | w in Wants()
        ensures Shares(Wants()[w], done + [r]) == Shares(Wants()[w], done) + table.Share(w, r.0, r.1)
      {
        SharesAppend(Wants()[w], done, r);
      }
      hide Shares;
    }

    lemma Unchanged()
      requires Valid() && table.fdchanges == []
      ensures |table.anfds| == |table.fds.lists| && table.queue == queue
      ensures forall f :: 0 <= f < |table.anfds| ==> table.anfds[f].reify == {}
    {
      table.NoneChanged();
    }

    // The calls of fd_event in a poll
    method Poll(ready: seq<(nat, Events)>)
      requires Valid() && Reports(ready) && table.fdchanges == []
      modifies queue`pendings, queue`pendingpri, queue`trace, table.fds.known`pending, table.fds.known`fed
      ensures Valid() && Polled(old(table.FedNow()), old(queue.trace), ready)
    {
      hide Valid, Polled;
      ghost var fed0, before := table.FedNow(), queue.trace;
      PollStarts();
      for k := 0 to |ready|
        invariant Valid() && Polled(fed0, before, ready[..k])
      {
        assert ready[k] in ready && ready[..k + 1] == ready[..k] + [ready[k]];
        PollOne(ready[k], ready[..k], fed0, before);
      }
      assert ready[..|ready|] == ready;
    }

    lemma PollStarts()
      ensures Polled(table.FedNow(), queue.trace, [])
    {
    }

    // The first half of a turn: the backend is told of all changes, and what it then reports is fed.
    method TurnIo(ready: seq<(nat, Events)>) returns (ghost lost: seq<nat>)
      requires Valid() && Reports(ready)
      modifies table, table.fds, table.backend.Object(), queue`pendings, queue`pendingpri, queue`trace
      modifies table.fds.known`pending, table.fds.known`fed, table.fds.known`active, table.fds.known`next
      ensures Valid() && table.fdchanges == [] && |table.anfds| == old(|table.anfds|)
      ensures IoFed(old(table.FedNow()), old(Wants()), ready, lost) && Wants() == Left(old(Wants()), lost)
      ensures IoSteps(old(queue.trace), queue.trace, old(Wants()), ready, lost)
      ensures Informed(old(table.backend.Reported()), old(CallsDue()), lost, old(table.Wanteds()))
      ensures timers.heap.Keys() == old(timers.heap.Keys()) && periodics.heap.Keys() == old(periodics.heap.Keys())
    {
      hide Valid, WatcherHeap.Keys, FdLists.WantedOn, IoFed, IoSteps, Wants, Polled, Informed, CallsDue,
        Table.Wanteds;
      Subsets();
      ghost var fed0, wants, before := table.FedNow(), Wants(), queue.trace;
      lost := FdReify();
      ghost var fed1, mid := table.FedNow(), queue.trace;
      ReifiedMeans(fed0, wants, lost);
      Poll(ready);
      IoJoin(fed0, fed1, wants, before, mid, ready, lost);
    }

    lemma ReifiedMeans(fed0: map<Watcher, seq<Events>>, wants: map<Watcher, (int, Events)>, lost: seq<nat>)
      requires IoFed(fed0, wants, [], lost)
      ensures wants.Keys <= fed0.Keys == table.fds.known
      ensures forall w :: w in table.fds.known ==>
                table.FedNow()[w] == if w in wants && wants[w].0 in lost then [KILLED] else fed0[w]
    {
    }

    lemma IoJoin(fed0: map<Watcher, seq<Events>>, fed1: map<Watcher, seq<Events>>, wants: map<Watcher, (int, Events)>,
                 before: seq<Step>, mid: seq<Step>, ready: seq<(nat, Events)>, lost: seq<nat>)
      requires wants.Keys <= fed0.Keys == table.fds.known && Wants() == Left(wants, lost)
      requires forall w :: w in table.fds.known ==>
                 w in fed1 && fed1[w] == if w in wants && wants[w].0 in lost then [KILLED] else fed0[w]
      requires IoSteps(before, mid, wants, [], lost) && Polled(fed1, mid, ready)
      ensures IoFed(fed0, wants, ready, lost) && IoSteps(before, queue.trace, wants, ready, lost)
    {
      hide Wants, IoSteps, Shares;
      IoStepsJoin(before, mid, queue.trace, wants, ready, lost);
    }

    // The second: the clocks are read, and what is due is fed.
    method TurnTimers(mnNow: real, rtNow: real)
      requires Valid()
      modifies timers`now, timers`activecnt, timers.heap`cnt, timers.heap.slots, timers.heap.mine`active
      modifies timers.heap.mine`at
      modifies periodics`now, periodics`activecnt, periodics.heap`cnt, periodics.heap.slots
      modifies periodics.heap.mine`active, periodics.heap.mine`at
      modifies queue`pendings, queue`pendingpri, queue`trace, timers.heap.mine`pending, timers.heap.mine`fed
      modifies periodics.heap.mine`pending, periodics.heap.mine`fed
      ensures Valid() && timers.now == mnNow && periodics.now == rtNow && NoneOverdue(timers) && NoneOverdue(periodics)
      ensures Expired(timers, old(Kept(timers)), TimerNexts(old(timers.heap.Keys())))
      ensures Expired(periodics, old(Kept(periodics)), PeriodicNexts())
      ensures Wants() == old(Wants())
      ensures exists mid ::
                && Expiries(old(queue.trace), mid, old(timers.heap.Keys()), TimerNexts(old(timers.heap.Keys())), mnNow,
                  {TIMER})
                && Expiries(mid, queue.trace, old(periodics.heap.Keys()), PeriodicNexts(), rtNow, {PERIODIC})
    {
      hide Valid, NoneOverdue, WatcherHeap.Keys, TimedLoop.Reified, TimedLoop.State, Expired, Expiries, Kept,
        TimerNexts, PeriodicNexts, Wants;
      Subsets();
      TimeUpdate(mnNow, rtNow);
      WatchersAreSet();
      var _ := TimersReify();
      ghost var mid := queue.trace;
      WatchersAreSet();
      var _ := PeriodicsReify();
    }

    // Nothing is overdue, and the backend knows of every change.
    ghost predicate AllFed()
      reads timers, timers.heap.mine, periodics, periodics.heap.mine, table, table.fds, table.fds.known`active
    {
      UpToDate(Planned(), timers.now, periodics.now)
    }

    lemma FedIff()
      requires Valid()
      ensures AllFed() <==> NoneOverdue(timers) && NoneOverdue(periodics) && table.fdchanges == []
      ensures Sound(Planned(), timers.now)
    {
    }

    // What a turn starts from
    ghost function Start(): Eve
      reads timers.heap.mine`active, timers.heap.mine`at, timers.heap.mine`fed
      reads periodics.heap.mine`active, periodics.heap.mine`at, periodics.heap.mine`fed
      reads table.fds, table.fds.known`active, table.fds.known`fd, table.fds.known`events, table.fds.known`fed
    {
      Eve(Kept(timers), map[], Kept(periodics), map[], table.FedNow(), Wants(), [], [])
    }

    // What it is given: the clocks, by which the next due times are reckoned, the reports, and the lost fds
    ghost function Given(e: Eve, ready: seq<(nat, Events)>, lost: seq<nat>): Eve
      reads timers`now, timers.heap.mine`repeat
      reads periodics`now, periodics.heap.mine`offset, periodics.heap.mine`interval, periodics.heap.mine`reschedule
      reads periodics.heap.mine`repeat
    {
      e.(timerNexts := TimerNexts(e.timers.keys), periodicNexts := PeriodicNexts(), ready := ready, lost := lost)
    }

    // The plan that a turn makes of it: the timers and periodics that were due have expired, the others are as they
    // were, and the I/O watchers of lost fds are stopped.
    ghost function Reckoned(e: Eve): Plan
      reads timers`now, timers.heap.mine`repeat
      reads periodics`now, periodics.heap.mine`offset, periodics.heap.mine`interval, periodics.heap.mine`reschedule
      reads periodics.heap.mine`repeat
    {
      var keys := NewDue(e.timers.keys, e.timerNexts, timers.now);
      Plan(keys.Keys,
           map w | w in timers.heap.mine && w in e.timers.at ::
             if w in keys then keys[w]
             else if w in e.timers.keys then e.timers.keys[w] else e.timers.at[w] + timers.now,
           AgainTimes(), NewDue(e.periodics.keys, e.periodicNexts, periodics.now), NextTimes(),
           Left(e.wants, e.lost).Keys, true)
    }

    // What has been fed since `before` is what was due or ready, and nothing else, and the plan is that of a turn that
    // starts from e.
    ghost predicate TurnFed(e: Eve, before: seq<Step>)
      reads timers, timers.heap.mine, periodics, periodics.heap.mine, table, table.fds, table.fds.known, queue`trace
    {
      && Expired(timers, e.timers, e.timerNexts) && Expired(periodics, e.periodics, e.periodicNexts)
      && IoFed(e.io, e.wants, e.ready, e.lost) && Planned() == Reckoned(e)
      && AllCaused(before, queue.trace, e, timers.now, periodics.now)
    }

    // What the backend has been told and has reported when all changes have been dealt with
    ghost predicate Informed(reported: seq<nat>, calls: seq<Call>, lost: seq<nat>, wanted: seq<Events>)
      reads table.backend.Object()
    {
      table.backend.Reported() == reported + lost && table.backend.Calls() == calls + Dropped(lost, wanted)
    }

    // The calls that the backend has had, and those that are due
    ghost function CallsDue(): seq<Call>
      requires table.fds.Within()
      reads table, table.fds, table.fds.known`events, table.backend.Object()
    {
      table.backend.Calls() + ToTell(table.anfds, table.Wanteds(), table.fdchanges)
    }

    // All that is due or ready is fed, and nothing else.
    method FeedAll(ready: seq<(nat, Events)>, mnNow: real, rtNow: real) returns (ghost lost: seq<nat>)
      requires Valid() && ScriptOk() && Reports(ready)
      modifies table, table.fds, table.backend.Object(), table.fds.known`active, table.fds.known`next
      modifies timers`now, timers`activecnt, timers.heap`cnt, timers.heap.slots, timers.heap.mine`active
      modifies timers.heap.mine`at
      modifies periodics`now, periodics`activecnt, periodics.heap`cnt, periodics.heap.slots
      modifies periodics.heap.mine`active, periodics.heap.mine`at
      modifies queue`pendings, queue`pendingpri, queue`trace, queue.known`pending, queue.known`fed
      ensures Valid() && ScriptOk() && AllFed() && timers.now == mnNow && periodics.now == rtNow
      ensures |table.anfds| == old(|table.anfds|)
      ensures TurnFed(Given(old(Start()), ready, lost), old(queue.trace))
      ensures Informed(old(table.backend.Reported()), old(CallsDue()), lost, old(table.Wanteds()))
    {
      hide Valid, ScriptOk, NoneOverdue, WatcherHeap.Keys, Table.Started, AllFed, Planned, IoFed, IoSteps, Expired,
        Expiries, Kept, TimerNexts, PeriodicNexts, TurnFed, Informed, CallsDue, Table.Wanteds, Wants, Table.FedNow,
        Start, FdLists.WantedOn;
      Subsets();
      ghost var e0, t0 := Start(), queue.trace;
      StartIs(e0);
      lost := TurnIo(ready);
      ghost var t1 := queue.trace;
      TurnTimers(mnNow, rtNow);
      FedIff();
      FedAllOf(Given(e0, ready, lost), t0, t1);
    }

    lemma StartIs(e: Eve)
      requires e == Start()
      ensures e.timers == Kept(timers) && e.periodics == Kept(periodics) && e.io == table.FedNow() && e.wants == Wants()
      ensures e.timers.keys == timers.heap.Keys() && e.periodics.keys == periodics.heap.Keys()
      ensures e.wants.Keys == table.Started()
    {
    }

    lemma FedAllOf(e: Eve, t0: seq<Step>, t1: seq<Step>)
      requires Valid() && table.fdchanges == [] && Wants() == Left(e.wants, e.lost)
      requires Expired(timers, e.timers, e.timerNexts) && Expired(periodics, e.periodics, e.periodicNexts)
      requires IoFed(e.io, e.wants, e.ready, e.lost) && IoSteps(t0, t1, e.wants, e.ready, e.lost)
      requires exists t2 :: Expiries(t1, t2, e.timers.keys, e.timerNexts, timers.now, {TIMER})
                            && Expiries(t2, queue.trace, e.periodics.keys, e.periodicNexts, periodics.now, {PERIODIC})
      ensures TurnFed(e, t0)
    {
      hide Valid, Expired, IoFed, IoSteps, Expiries, AllCaused, Wants, Planned, Reckoned;
      var t2 :| Expiries(t1, t2, e.timers.keys, e.timerNexts, timers.now, {TIMER})
                && Expiries(t2, queue.trace, e.periodics.keys, e.periodicNexts, periodics.now, {PERIODIC});
      CausedInTurn(t0, t1, t2, queue.trace, e, timers.now, periodics.now);
      ReckonedIs(e);
    }

    lemma ReckonedIs(e: Eve)
      requires Valid() && table.fdchanges == [] && Wants() == Left(e.wants, e.lost)
      requires Expired(timers, e.timers, e.timerNexts) && Expired(periodics, e.periodics, e.periodicNexts)
      ensures Planned() == Reckoned(e)
    {
      hide Table.Own, TimedLoop.Own, PendingQueues.Valid, AgainTimes, NextTimes;
      assert table.Started() == Wants().Keys;
      assert TimerTimes() == Reckoned(e).times;
    }

    // All that had been fed to w has been answered since the first n steps.
    ghost predicate FedAnswered(n: nat, fed0: map<Watcher, seq<Events>>)
      reads queue`trace
    {
      forall w, e :: w in fed0 && e in fed0[w] ==> AnsweredWith(queue.trace, n, w, e)
    }

    ghost function FedMap(): map<Watcher, seq<Events>>
      reads queue.known`fed
    {
      map w | w in queue.known :: w.fed
    }

    lemma DrainStarts()
      requires Valid() && ScriptOk()
      ensures Going(Planned(), script, queue.trace, |table.anfds|)
    {
      hide Valid, ScriptOk, Planned;
      assert script[..0] == [] && script[|script| - |script|..] == script;
    }

    lemma DrainEnds(before: seq<Step>, fed0: map<Watcher, seq<Events>>)
      requires Valid() && NothingPending() && before <= queue.trace
      requires fed0.Keys <= queue.known && forall w :: w in fed0 ==> fed0[w] == Owed(before, w)
      ensures FedAnswered(|before|, fed0)
    {
      hide Table.Own, TimedLoop.Own, Owed, Answered, AnsweredWith;
      queue.AllAnswered(before);
      forall w, e | w in fed0 && e in fed0[w] ensures AnsweredWith(queue.trace, |before|, w, e) {
        AnswersAll(queue.trace, |before|, w, fed0[w]);
      }
    }

    lemma AllDelivered(n: nat, order: seq<Entry>)
      requires NothingPending() && Undisturbed(n, order)
      ensures Delivered(queue.trace, n) == order
    {
      DrainOrderEmpty(queue.pendings);
    }

    lemma OwedNow()
      requires Valid()
      ensures forall w :: w in queue.known ==> w.fed == Owed(queue.trace, w)
    {
    }

    // The callbacks of a turn run, and do the deeds `done`. Every event that was pending has been answered: it was part
    // of an invocation, or a callback has cleared it.
    method Drain() returns (ghost done: seq<Deed>)
      requires Valid() && ScriptOk()
      modifies table, table.fds, timers`activecnt, timers.heap`slots, timers.heap`cnt, timers.heap.slots
      modifies periodics`activecnt, periodics.heap`slots, periodics.heap`cnt, periodics.heap.slots
      modifies queue`pendings, queue`pendingpri, queue`trace, queue.known`pending, queue.known`fed
      modifies queue.known`active, queue.known`at, queue.known`priority, queue.known`next, queue.known`events
      modifies this`script, queue.pendingW`pending
      ensures Valid() && ScriptOk() && NothingPending() && |old(table.anfds)| <= |table.anfds|
      ensures old(script) == done + script && Planned() == Outcome(old(Planned()), done)
      ensures old(queue.trace) <= queue.trace && ByDeeds(old(queue.trace), queue.trace, done)
      ensures FedAnswered(|old(queue.trace)|, old(FedMap()))
      ensures || script == [] || (done != [] && done[|done| - 1].Return?)
              || (old(NothingPending()) && queue.trace == old(queue.trace))
      ensures old(script) == [] ==> Delivered(queue.trace, |old(queue.trace)|) == old(DrainOrder(queue.pendings))
      ensures old(AllFed()) ==> (AllFed() <==> !LeavesWork(old(Planned()), done, timers.now, periodics.now))
      ensures timers.heap.slots == old(timers.heap.slots) || fresh(timers.heap.slots)
      ensures periodics.heap.slots == old(periodics.heap.slots) || fresh(periodics.heap.slots)
    {
      hide Valid, ScriptOk, Planned, Undisturbed, Outcome, FedAnswered, LeavesWork, DrainOrder, Owed, UpToDate, Sound;
      DrainStarts();
      OwedNow();
      FedIff();
      ghost var p, deeds, before, fed0 := Planned(), script, queue.trace, FedMap();
      ghost var order := DrainOrder(queue.pendings);
      InvokePending(p, deeds, before, |table.anfds|);
      done := deeds[..|deeds| - |script|];
      DrainEnds(before, fed0);
      if deeds == [] { AllDelivered(|before|, order); }
      if UpToDate(p, timers.now, periodics.now) {
        UpToDateIff(p, done, timers.now, periodics.now);
      }
    }

    // Every watcher that was due by these times has been answered since the first n steps.
    ghost predicate DueAnswered(l: TimedLoop, keys0: map<Watcher, real>, n: nat)
      reads l`now, queue`trace
    {
      forall w :: w in keys0 && keys0[w] < l.now ==> AnsweredWith(queue.trace, n, w, l.Flags())
    }

    // So has every I/O watcher that was started, by fd and events: for each report, or for its fd being gone.
    ghost predicate IoAnswered(wants: map<Watcher, (int, Events)>, ready: seq<(nat, Events)>, n: nat)
      reads queue`trace
    {
      forall w, i :: w in wants && 0 <= i < |ready| && ready[i].0 == wants[w].0 && wants[w].1 * ready[i].1 != {} ==>
        AnsweredWith(queue.trace, n, w, KILLED) || AnsweredWith(queue.trace, n, w, wants[w].1 * ready[i].1)
    }

    // What must have been fed for that
    ghost predicate ToAnswer(fed: map<Watcher, seq<Events>>, dueT: map<Watcher, real>, dueP: map<Watcher, real>,
                             wants: map<Watcher, (int, Events)>, ready: seq<(nat, Events)>)
      reads timers`now, periodics`now
    {
      && (forall w :: w in dueT && dueT[w] < timers.now ==> w in fed && timers.Flags() in fed[w])
      && (forall w :: w in dueP && dueP[w] < periodics.now ==> w in fed && periodics.Flags() in fed[w])
      && (forall w, i :: w in wants && 0 <= i < |ready| && ready[i].0 == wants[w].0 && wants[w].1 * ready[i].1 != {} ==>
            w in fed && (KILLED in fed[w] || wants[w].1 * ready[i].1 in fed[w]))
    }

    lemma AllToAnswer(e: Eve)
      requires Expired(timers, e.timers, e.timerNexts) && Expired(periodics, e.periodics, e.periodicNexts)
      requires IoFed(e.io, e.wants, e.ready, e.lost)
      requires table.fds.known + timers.heap.mine + periodics.heap.mine <= queue.known
      ensures ToAnswer(FedMap(), e.timers.keys, e.periodics.keys, e.wants, e.ready)
    {
      forall w, i | w in e.wants && 0 <= i < |e.ready| && e.ready[i].0 == e.wants[w].0
        && e.wants[w].1 * e.ready[i].1 != {}
        ensures KILLED in w.fed || e.wants[w].1 * e.ready[i].1 in w.fed
      {
        SharesIff(e.wants[w], e.ready, e.wants[w].1 * e.ready[i].1);
      }
    }

    lemma AnsweredAll(fed: map<Watcher, seq<Events>>, dueT: map<Watcher, real>, dueP: map<Watcher, real>,
                      wants: map<Watcher, (int, Events)>, ready: seq<(nat, Events)>, n: nat)
      requires ToAnswer(fed, dueT, dueP, wants, ready) && FedAnswered(n, fed)
      ensures DueAnswered(timers, dueT, n) && DueAnswered(periodics, dueP, n) && IoAnswered(wants, ready, n)
    {
      hide AnsweredWith;
    }

    // One turn of ev_run: the backend is told of all changes, what is ready and what is due is fed, and every callback
    // runs. Up to step n of the trace, what was due or ready has been fed, and nothing else; from there on, the
    // callbacks of every watcher that was due or ready have run, or a callback has cleared or stopped the watcher. The
    // plan `fed`, in which nothing is overdue and the backend knows of every change, is that before with what was due
    // expired; what the callbacks did has brought it to where it is now.
    method Turn(ready: seq<(nat, Events)>, mnNow: real, rtNow: real)
      returns (ghost n: nat, ghost fed: Plan, ghost done: seq<Deed>, ghost lost: seq<nat>)
      requires Valid() && ScriptOk() && Reports(ready)
      modifies table, table.fds, timers`activecnt, timers.heap`slots, timers.heap`cnt, timers.heap.slots
      modifies periodics`activecnt, periodics.heap`slots, periodics.heap`cnt, periodics.heap.slots
      modifies queue`pendings, queue`pendingpri, queue`trace, queue.known`pending, queue.known`fed
      modifies queue.known`active, queue.known`at, queue.known`priority, queue.known`next, queue.known`events
      modifies this`script, queue.pendingW`pending
      modifies table.backend.Object(), timers`now, periodics`now
      ensures Valid() && ScriptOk() && NothingPending() && timers.now == mnNow && periodics.now == rtNow
      ensures |old(table.anfds)| <= |table.anfds| && old(queue.trace) <= queue.trace
      ensures |old(queue.trace)| <= n <= |queue.trace| && FedAnswered(|old(queue.trace)|, old(FedMap()))
      ensures DueAnswered(timers, old(timers.heap.Keys()), n) && DueAnswered(periodics, old(periodics.heap.Keys()), n)
      ensures IoAnswered(old(Wants()), ready, n)
      ensures old(script) == done + script && Planned() == Outcome(fed, done) && UpToDate(fed, mnNow, rtNow)
      ensures fed == Reckoned(Given(old(Start()), ready, lost)) && fed.started <= old(table.Started())
      ensures AllCaused(old(queue.trace), queue.trace[..n], Given(old(Start()), ready, lost), mnNow, rtNow)
      ensures Informed(old(table.backend.Reported()), old(CallsDue()), lost, old(table.Wanteds()))
      ensures n == |queue.trace| || script == [] || (done != [] && done[|done| - 1].Return?)
      ensures AllFed() <==> !LeavesWork(fed, done, mnNow, rtNow)
      ensures ByDeeds(queue.trace[..n], queue.trace, done)
      ensures timers.heap.slots == old(timers.heap.slots) || fresh(timers.heap.slots)
      ensures periodics.heap.slots == old(periodics.heap.slots) || fresh(periodics.heap.slots)
    {
      hide Valid, ScriptOk, Planned, Outcome, FedAnswered, LeavesWork, DrainOrder, Delivered, Owed, UpToDate, Sound,
        WatcherHeap.Keys, ToAnswer, DueAnswered, IoAnswered, ByDeeds, Table.Started, Reports, Wants, Start, Given,
        AllCaused, Reckoned, Informed, CallsDue, Table.Wanteds, NothingPending;
      Subsets();
      OwedNow();
      ghost var dueT, dueP, wants := timers.heap.Keys(), periodics.heap.Keys(), Wants();
      ghost var before, fed0 := queue.trace, FedMap();
      lost := FeedTurn(ready, mnNow, rtNow);
      ghost var mid, fed1 := queue.trace, FedMap();
      n, fed := |mid|, Planned();
      done := Drain();
      assert queue.trace[..n] == mid;
      AnsweredAll(fed1, dueT, dueP, wants, ready, n);
      DrainEnds(before, fed0);
    }

    // What FeedAll does, for what the callbacks will have to answer
    method FeedTurn(ready: seq<(nat, Events)>, mnNow: real, rtNow: real) returns (ghost lost: seq<nat>)
      requires Valid() && ScriptOk() && Reports(ready)
      modifies table, table.fds, table.backend.Object(), table.fds.known`active, table.fds.known`next
      modifies timers`now, timers`activecnt, timers.heap`cnt, timers.heap.slots, timers.heap.mine`active
      modifies timers.heap.mine`at
      modifies periodics`now, periodics`activecnt, periodics.heap`cnt, periodics.heap.slots
      modifies periodics.heap.mine`active, periodics.heap.mine`at
      modifies queue`pendings, queue`pendingpri, queue`trace, queue.known`pending, queue.known`fed
      ensures Valid() && ScriptOk() && AllFed() && timers.now == mnNow && periodics.now == rtNow
      ensures |table.anfds| == old(|table.anfds|) && old(queue.trace) <= queue.trace
      ensures Planned() == Reckoned(Given(old(Start()), ready, lost)) && Planned().started <= old(table.Started())
      ensures AllCaused(old(queue.trace), queue.trace, Given(old(Start()), ready, lost), mnNow, rtNow)
      ensures ToAnswer(FedMap(), old(timers.heap.Keys()), old(periodics.heap.Keys()), old(Wants()), ready)
      ensures Informed(old(table.backend.Reported()), old(CallsDue()), lost, old(table.Wanteds()))
    {
      hide Valid, ScriptOk, Planned, AllFed, WatcherHeap.Keys, ToAnswer, Table.Started, Reports, Wants, Table.FedNow,
        Kept, TimerNexts, PeriodicNexts, AllCaused, Reckoned, TurnFed, Informed, CallsDue, Table.Wanteds, Start;
      ghost var e0, before := Start(), queue.trace;
      StartIs(e0);
      lost := FeedAll(ready, mnNow, rtNow);
      TurnFedMeans(Given(e0, ready, lost), before);
    }

    lemma TurnFedMeans(e: Eve, before: seq<Step>)
      requires Valid() && TurnFed(e, before)
      ensures before <= queue.trace && AllCaused(before, queue.trace, e, timers.now, periodics.now)
      ensures Planned() == Reckoned(e) && Planned().started <= e.wants.Keys
      ensures ToAnswer(FedMap(), e.timers.keys, e.periodics.keys, e.wants, e.ready)
    {
      hide Valid, Planned, Expired, IoFed, ToAnswer, TimerTimes, AgainTimes, NextTimes, Table.Started, Caused, NewDue;
      Subsets();
      AllToAnswer(e);
    }

    // Several turns of ev_run: whatever was fed, before or in them, has been answered at the end, for the rest of the
    // trace as for its beginning.
    method Run(inputs: seq<Input>)
      requires Valid() && ScriptOk()
      requires forall x, e :: x in inputs && e in x.ready ==> e.0 < |table.anfds|
      modifies table, table.fds, timers`activecnt, timers.heap`slots, timers.heap`cnt, timers.heap.slots
      modifies periodics`activecnt, periodics.heap`slots, periodics.heap`cnt, periodics.heap.slots
      modifies queue`pendings, queue`pendingpri, queue`trace, queue.known`pending, queue.known`fed
      modifies queue.known`active, queue.known`at, queue.known`priority, queue.known`next, queue.known`events
      modifies this`script, queue.pendingW`pending
      modifies table.backend.Object(), timers`now, periodics`now
      ensures Valid() && ScriptOk() && old(queue.trace) <= queue.trace && |old(table.anfds)| <= |table.anfds|
      ensures inputs != [] ==> NothingPending() && AllAnswered()
      ensures timers.heap.slots == old(timers.heap.slots) || fresh(timers.heap.slots)
      ensures periodics.heap.slots == old(periodics.heap.slots) || fresh(periodics.heap.slots)
    {
      hide Valid, ScriptOk, Planned, Outcome, FedAnswered, LeavesWork, UpToDate, WatcherHeap.Keys, DueAnswered,
        IoAnswered, ByDeeds, Table.Started, NothingPending;
      for i := 0 to |inputs|
        invariant Valid() && ScriptOk() && old(queue.trace) <= queue.trace && |old(table.anfds)| <= |table.anfds|
        invariant i > 0 ==> NothingPending()
        invariant timers.heap.slots == old(timers.heap.slots) || fresh(timers.heap.slots)
        invariant periodics.heap.slots == old(periodics.heap.slots) || fresh(periodics.heap.slots)
      {
        assert inputs[i] in inputs;
        var _, _, _, _ := Turn(inputs[i].ready, inputs[i].mnNow, inputs[i].rtNow);
      }
      if inputs != [] { NothingLeft(); }
    }

    // Every event in the trace has been answered after it was fed.
    ghost predicate AllAnswered()
      reads queue`trace
    {
      forall n :: 0 <= n < |queue.trace| && queue.trace[n].Fed? ==>
        AnsweredWith(queue.trace, n + 1, queue.trace[n].fw, queue.trace[n].e)
    }

    lemma NothingLeft()
      requires Valid() && NothingPending()
      ensures AllAnswered()
    {
      hide Table.Own, TimedLoop.Own, AnsweredWith;
      forall n | 0 <= n < |queue.trace| && queue.trace[n].Fed?
        ensures AnsweredWith(queue.trace, n + 1, queue.trace[n].fw, queue.trace[n].e)
      {
        queue.EveryEventAnswered(n);
      }
    }
  }

  // A watcher as ev_init and the setters leave it
  ghost predicate Idle(w: Watcher)
    reads w
  {
    w.active == 0 && w.pending == 0 && w.fed == []
  }

  // Any watchers, as long as none is of two kinds, make up a loop.
  method NewLoop(io: set<Watcher>, timed: set<Watcher>, periodic: set<Watcher>, dummy: Watcher, backend: Backend,
                 now: real, script: seq<Deed>)
    returns (loop: Loop)
    requires io !! timed && io !! periodic && timed !! periodic && forall w :: w in io + timed + periodic ==> Idle(w)
    requires dummy !in io + timed + periodic && dummy != backend.Object()
    requires forall w :: w in io + timed + periodic ==> w != backend.Object()
    requires forall w :: w in timed ==> w.repeat >= 0.0
    requires forall w :: w in periodic ==>
               w.interval >= 0.0 && (w.reschedule.Some? ==> forall t :: w.reschedule.value(t) >= t)
    requires backend.Valid() && forall f: nat :: backend.Interest(f) == {}
    requires forall d :: d in script ==> DeedOk(d, UsableOf(io + timed + periodic, io, timed, periodic))
    ensures fresh(loop) && fresh(loop.queue) && fresh(loop.table) && fresh(loop.table.fds)
    ensures fresh(loop.timers) && fresh(loop.timers.heap) && fresh(loop.timers.heap.slots)
    ensures fresh(loop.periodics) && fresh(loop.periodics.heap) && fresh(loop.periodics.heap.slots)
    ensures loop.Valid() && loop.ScriptOk() && loop.script == script
    ensures loop.table.fds.known == io && loop.timers.heap.mine == timed && loop.periodics.heap.mine == periodic
    ensures loop.queue.known == io + timed + periodic && loop.queue.pendingW == dummy && loop.queue.trace == []
    ensures loop.table.backend == backend && loop.table.anfds == [] && loop.timers.now == loop.periodics.now == now
  {
    hide DeedOk, UsableOf, Loop.ScriptOk, Loop.Valid, Idle;
    ghost var fit := UsableOf(io + timed + periodic, io, timed, periodic);
    loop := Assemble(io, timed, periodic, dummy, backend, now, script);
    loop.ScriptStarts(fit);
  }

  method Assemble(io: set<Watcher>, timed: set<Watcher>, periodic: set<Watcher>, dummy: Watcher, backend: Backend,
                  now: real, script: seq<Deed>)
    returns (loop: Loop)
    requires io !! timed && io !! periodic && timed !! periodic && forall w :: w in io + timed + periodic ==> Idle(w)
    requires dummy !in io + timed + periodic && dummy != backend.Object()
    requires forall w :: w in io + timed + periodic ==> w != backend.Object()
    requires forall w :: w in timed ==> w.repeat >= 0.0
    requires forall w :: w in periodic ==>
               w.interval >= 0.0 && (w.reschedule.Some? ==> forall t :: w.reschedule.value(t) >= t)
    requires backend.Valid() && forall f: nat :: backend.Interest(f) == {}
    ensures fresh(loop) && fresh(loop.queue) && fresh(loop.table) && fresh(loop.table.fds)
    ensures fresh(loop.timers) && fresh(loop.timers.heap) && fresh(loop.timers.heap.slots)
    ensures fresh(loop.periodics) && fresh(loop.periodics.heap) && fresh(loop.periodics.heap.slots)
    ensures loop.Valid() && loop.script == script
    ensures loop.table.fds.known == io && loop.timers.heap.mine == timed && loop.periodics.heap.mine == periodic
    ensures loop.queue.known == io + timed + periodic && loop.queue.pendingW == dummy && loop.queue.trace == []
    ensures loop.table.backend == backend && loop.table.anfds == [] && loop.timers.now == loop.periodics.now == now
  {
    hide PendingQueues.Valid, Table.Own, TimedLoop.Own, Loop.Valid;
    assert allocated(backend.Object());
    var queue := new PendingQueues(io + timed + periodic, dummy);
    var timers := NewTimed(Timers, timed, dummy, queue, now);
    var periodics := NewTimed(Periodics, periodic, dummy, queue, now);
    var table := NewTable(io, queue, backend);
    loop := new Loop(queue, table, timers, periodics, script);
  }

  method NewTimed(kind: Kind, mine: set<Watcher>, junk: Watcher, queue: PendingQueues, now: real) returns (l: TimedLoop)
    requires queue.Valid() && mine <= queue.known && forall w :: w in mine ==> w.active == 0
    requires kind.Timers? ==> forall w :: w in mine ==> w.repeat >= 0.0
    requires kind.Periodics? ==> forall w :: w in mine ==>
               w.interval >= 0.0 && (w.reschedule.Some? ==> forall t :: w.reschedule.value(t) >= t)
    ensures l.Valid() && fresh(l) && fresh(l.heap) && fresh(l.heap.slots)
    ensures l.kind == kind && l.heap.mine == mine && l.queue == queue && l.now == now
  {
    var heap := new WatcherHeap(mine, Slot(0.0, junk));
    l := new TimedLoop(kind, heap, queue, now, 0);
  }

  method NewTable(io: set<Watcher>, queue: PendingQueues, backend: Backend) returns (t: Table)
    requires queue.Valid() && io <= queue.known && forall w :: w in io ==> w.active == 0
    requires backend.Valid() && (forall f: nat :: backend.Interest(f) == {}) && backend.Object() != queue
    requires forall w :: w in io ==> w != backend.Object()
    ensures t.Valid() && fresh(t) && fresh(t.fds) && t.fds.known == io && t.queue == queue && t.backend == backend
    ensures t.anfds == []
  {
    assert allocated(backend.Object());
    var fds := new FdLists(io);
    t := new Table(fds, queue, backend);
  }

  // A server on this loop watches a listening fd and has an idle timer; its accept callback starts the watcher of the
  // connection.
  method NewServer(listener: Watcher, connection: Watcher, timer: Watcher, dummy: Watcher, backend: Backend)
    returns (loop: Loop)
    requires listener != connection && listener != timer && connection != timer
             && dummy !in {listener, connection, timer}
    requires Idle(listener) && Idle(connection) && Idle(timer) && timer.repeat == 0.0
    requires listener.fd >= 0 && connection.fd >= 0 && listener.events == connection.events == {READ}
    requires backend.Object() !in {listener, connection, timer, dummy}
    requires backend.Valid() && forall f: nat :: backend.Interest(f) == {}
    modifies listener, timer
    ensures fresh(loop) && fresh(loop.queue) && fresh(loop.table) && fresh(loop.table.fds)
    ensures fresh(loop.timers) && fresh(loop.timers.heap) && fresh(loop.timers.heap.slots)
    ensures fresh(loop.periodics) && fresh(loop.periodics.heap) && fresh(loop.periodics.heap.slots)
    ensures loop.Valid() && loop.ScriptOk() && loop.script == [StartIo(connection), Return]
    ensures loop.table.fds.known == {listener, connection} && loop.queue.known == {listener, connection, timer}
    ensures loop.timers.heap.mine == {timer} && loop.periodics.heap.mine == {}
    ensures loop.queue.pendingW == dummy && loop.table.backend == backend && loop.queue.trace == []
    ensures loop.timers.heap.Keys() == map[timer := old(timer.at)]
    ensures listener.active != 0 && listener.events == {READ} && listener.fd == old(listener.fd) < |loop.table.anfds|
  {
    hide Loop.Valid, Loop.ScriptOk, Loop.Planned, FdLists.WantedOn, Loop.Fit, Loop.ScriptFits, Loop.TimerTimes;
    assert allocated(backend.Object());
    loop := NewLoop({listener, connection}, {timer}, {}, dummy, backend, 0.0, [StartIo(connection), Return]);
    loop.TimerStart(timer);
    loop.IoStart(listener);
  }

  // In its first turn somebody connects and the timer is due. The accept callback leaves a new fd for the backend to be
  // told of, which is done in the second turn.
  method Serve(listener: Watcher, connection: Watcher, timer: Watcher, dummy: Watcher, backend: Backend)
    returns (loop: Loop, ghost first: seq<Step>, ghost upToDate: bool)
    requires listener != connection && listener != timer && connection != timer
             && dummy !in {listener, connection, timer}
    requires Idle(listener) && Idle(connection) && Idle(timer) && timer.repeat == 0.0 && timer.at < 1.0
    requires listener.fd >= 0 && connection.fd >= 0 && listener.events == connection.events == {READ}
    requires backend.Object() !in {listener, connection, timer, dummy}
    requires backend.Valid() && forall f: nat :: backend.Interest(f) == {}
    modifies listener, connection, timer, dummy, backend.Object()
    ensures fresh(loop) && loop.Valid() && loop.NothingPending() && loop.AllAnswered() && first <= loop.queue.trace
    ensures AnsweredWith(first, 0, timer, {TIMER})
    ensures AnsweredWith(first, 0, listener, {READ}) || AnsweredWith(first, 0, listener, KILLED)
    ensures !upToDate && loop.AllFed()
  {
    hide Loop.Valid, Loop.ScriptOk, Loop.Planned, FdLists.WantedOn, Loop.Fit, Loop.TimerTimes, AnsweredWith, LeavesWork,
      UpToDate, Outcome, Loop.Reckoned, Loop.Start, Loop.Given, AllCaused, Loop.Informed, Loop.CallsDue,
      Loop.FedAnswered, ByDeeds, Loop.NothingPending, Loop.AllAnswered, Loop.AllFed;
    loop := NewServer(listener, connection, timer, dummy, backend);
    assert listener in loop.Wants() && connection !in loop.table.Started();
    var ready := [(listener.fd, {READ})];
    assert {READ} * ready[0].1 == {READ};
    var n, fed, done, _ := loop.Turn(ready, 1.0, 1.0);
    first, upToDate := loop.queue.trace, loop.AllFed();
    loop.KindFlags();
    AnsweredSince(first, n);
    Accepted(fed, done, loop.script, connection);
    var _, fed2, done2, _ := loop.Turn([], 2.0, 2.0);
    NoStartsNoWork(fed2, done2, 2.0, 2.0);
    loop.NothingLeft();
  }

  lemma AnsweredSince(trace: seq<Step>, n: nat)
    ensures forall w, e :: AnsweredWith(trace, n, w, e) ==> n < |trace| && AnsweredWith(trace, 0, w, e)
  {
  }

  lemma Accepted(fed: Plan, done: seq<Deed>, script: seq<Deed>, connection: Watcher)
    requires done + script == [StartIo(connection), Return] && connection !in fed.started
    requires script == [] || (done != [] && done[|done| - 1].Return?)
    ensures script == [] && LeavesWork(fed, done, 1.0, 1.0)
  {
    assert forall k :: 0 <= k < |done| ==> done[k] == (done + script)[k];
    assert |done| == 2;
    assert done[0] == StartIo(connection) && Toggles(fed, done[0]);
  }
}

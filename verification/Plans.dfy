/** What callbacks do to the loop while they run, and what that leaves overdue or unknown to the backend. */
module Plans {
  import opened Watchers
  import opened Pending

  // What a callback may do; `Return` ends it.
  datatype Deed =
    | Feed(w: Watcher, events: Events)
    | Clear(w: Watcher)
    | Drain
    | Return
    | StartTimer(w: Watcher)
    | StopTimer(w: Watcher)
    | AgainTimer(w: Watcher)
    | StartPeriodic(w: Watcher)
    | StopPeriodic(w: Watcher)
    | AgainPeriodic(w: Watcher)
    | StartIo(w: Watcher)
    | StopIo(w: Watcher)

  // What the deeds may change: which timers run and when each is or would be due, when the started periodics are due,
  // which I/O watchers are started, and whether the backend knows of every change. `again` and `next` have the due
  // times of repeating timers and of periodics that are set anew.
  datatype Plan = Plan(
    running: set<Watcher>, times: map<Watcher, real>, again: map<Watcher, real>,
    periodics: map<Watcher, real>, next: map<Watcher, real>,
    started: set<Watcher>, clean: bool)

  // The plan after a deed
  ghost function After(p: Plan, d: Deed): Plan {
    match d
    case StartTimer(w) => if w in p.times then p.(running := p.running + {w}) else p
    case StopTimer(w) => p.(running := p.running - {w})
    case AgainTimer(w) =>
      if w in p.again then p.(running := p.running + {w}, times := p.times[w := p.again[w]])
      else p.(running := p.running - {w})
    case StartPeriodic(w) =>
      if w in p.next && w !in p.periodics then p.(periodics := p.periodics[w := p.next[w]]) else p
    case StopPeriodic(w) => p.(periodics := p.periodics - {w})
    case AgainPeriodic(w) => if w in p.next then p.(periodics := p.periodics[w := p.next[w]]) else p
    case StartIo(w) => p.(started := p.started + {w}, clean := p.clean && w in p.started)
    case StopIo(w) => p.(started := p.started - {w}, clean := p.clean && w !in p.started)
    case _ => p
  }

  ghost function Outcome(p: Plan, deeds: seq<Deed>): Plan {
    if deeds == [] then p else After(Outcome(p, deeds[..|deeds| - 1]), deeds[|deeds| - 1])
  }

  lemma OutcomeAppend(p: Plan, deeds: seq<Deed>, d: Deed)
    ensures Outcome(p, deeds + [d]) == After(Outcome(p, deeds), d)
  {
    assert (deeds + [d])[..|deeds|] == deeds;
  }

  lemma OtherDeeds(p: Plan, d: Deed)
    requires d.Drain? || d.Return?
    ensures After(p, d) == p
  {
  }

  // Timers and periodics have times; a repeating timer that is set anew is not overdue.
  ghost predicate Sound(p: Plan, mn: real) {
    && p.running <= p.times.Keys && p.again.Keys <= p.times.Keys && p.periodics.Keys <= p.next.Keys
    && forall w :: w in p.again ==> mn <= p.again[w]
  }

  ghost predicate TimerLate(p: Plan, w: Watcher, mn: real) {
    w in p.running && w in p.times && p.times[w] < mn
  }

  ghost predicate PeriodicLate(p: Plan, w: Watcher, rt: real) {
    w in p.periodics && p.periodics[w] < rt
  }

  // Nothing is overdue, and the backend knows of every change.
  ghost predicate UpToDate(p: Plan, mn: real, rt: real) {
    && p.clean
    && (forall w :: w in p.running ==> !TimerLate(p, w, mn))
    && (forall w :: w in p.periodics ==> !PeriodicLate(p, w, rt))
  }

  // Of the deeds in `starts` and `stops`, the last one is in `starts`.
  ghost predicate LastStarts(deeds: seq<Deed>, starts: set<Deed>, stops: set<Deed>) {
    deeds != [] &&
    var d := deeds[|deeds| - 1];
    d in starts || (d !in stops && LastStarts(deeds[..|deeds| - 1], starts, stops))
  }

  // The deeds leave timer w overdue: it would be due before now, they never set it anew, and they start it last.
  ghost predicate LeavesTimerLate(p: Plan, deeds: seq<Deed>, w: Watcher, mn: real) {
    && w in p.times && p.times[w] < mn && (w in p.again ==> AgainTimer(w) !in deeds)
    && LastStarts(deeds, {StartTimer(w)}, {StopTimer(w), AgainTimer(w)})
  }

  // The deeds leave periodic w overdue: its next time is before now, and they start it last.
  ghost predicate LeavesPeriodicLate(p: Plan, deeds: seq<Deed>, w: Watcher, rt: real) {
    && w in p.next && p.next[w] < rt && (w in p.periodics ==> StopPeriodic(w) in deeds || AgainPeriodic(w) in deeds)
    && LastStarts(deeds, {StartPeriodic(w), AgainPeriodic(w)}, {StopPeriodic(w)})
  }

  // The deed starts a stopped I/O watcher or stops a started one.
  ghost predicate Toggles(p: Plan, d: Deed) {
    (d.StartIo? && d.w !in p.started) || (d.StopIo? && d.w in p.started)
  }

  ghost predicate ChangesFd(p: Plan, deeds: seq<Deed>) {
    exists d :: d in deeds && Toggles(p, d)
  }

  lemma AfterSound(p: Plan, d: Deed, mn: real)
    requires Sound(p, mn)
    ensures Sound(After(p, d), mn)
    ensures After(p, d).again == p.again && After(p, d).next == p.next && After(p, d).times.Keys == p.times.Keys
  {
  }

  lemma {:induction false} OutcomeSound(p: Plan, deeds: seq<Deed>, mn: real)
    requires Sound(p, mn)
    ensures Sound(Outcome(p, deeds), mn)
    ensures var q := Outcome(p, deeds); q.again == p.again && q.next == p.next && q.times.Keys == p.times.Keys
  {
    hide After, Sound;
    if deeds != [] {
      OutcomeSound(p, deeds[..|deeds| - 1], mn);
      AfterSound(Outcome(p, deeds[..|deeds| - 1]), deeds[|deeds| - 1], mn);
    }
  }

  // What a deed does to timer w
  lemma AfterTimer(p: Plan, d: Deed, w: Watcher, mn: real)
    requires Sound(p, mn) && w in p.times
    ensures var q := After(p, d);
            && w in q.times && q.times[w] == (if d == AgainTimer(w) && w in p.again then p.again[w] else p.times[w])
            && (w in q.running <==> if d == StartTimer(w) || (d == AgainTimer(w) && w in p.again) then true
                                    else w in p.running && d != StopTimer(w) && d != AgainTimer(w))
  {
  }

  lemma {:induction false} TimeLateIff(p: Plan, deeds: seq<Deed>, w: Watcher, mn: real)
    requires Sound(p, mn) && w in p.times
    ensures w in Outcome(p, deeds).times
    ensures Outcome(p, deeds).times[w] < mn <==> p.times[w] < mn && (w in p.again ==> AgainTimer(w) !in deeds)
  {
    hide After;
    if deeds != [] {
      var before, d := deeds[..|deeds| - 1], deeds[|deeds| - 1];
      TimeLateIff(p, before, w, mn);
      OutcomeSound(p, before, mn);
      AfterTimer(Outcome(p, before), d, w, mn);
      assert deeds == before + [d];
    }
  }

  // A timer is overdue after the deeds exactly if they leave it so.
  lemma {:induction false} TimerLateIff(p: Plan, deeds: seq<Deed>, w: Watcher, mn: real)
    requires Sound(p, mn) && !TimerLate(p, w, mn)
    ensures TimerLate(Outcome(p, deeds), w, mn) <==> LeavesTimerLate(p, deeds, w, mn)
  {
    hide After, Sound;
    OutcomeSound(p, deeds, mn);
    if w in p.times && deeds != [] {
      var before, d := deeds[..|deeds| - 1], deeds[|deeds| - 1];
      TimerLateIff(p, before, w, mn);
      TimeLateIff(p, deeds, w, mn);
      TimeLateIff(p, before, w, mn);
      OutcomeSound(p, before, mn);
      AfterTimer(Outcome(p, before), d, w, mn);
      assert deeds == before + [d];
    }
  }

  // What a deed does to periodic w
  lemma AfterPeriodic(p: Plan, d: Deed, w: Watcher)
    ensures var q := After(p, d).periodics;
            if w in p.next && (d == AgainPeriodic(w) || (d == StartPeriodic(w) && w !in p.periodics)) then
              w in q && q[w] == p.next[w]
            else
              (w in q <==> w in p.periodics && d != StopPeriodic(w)) && (w in q ==> q[w] == p.periodics[w])
  {
  }

  // Where a periodic stands after the deeds
  lemma {:induction false} PeriodicIs(p: Plan, deeds: seq<Deed>, w: Watcher, mn: real)
    requires Sound(p, mn)
    ensures var q := Outcome(p, deeds);
            var kept := w in p.periodics && StopPeriodic(w) !in deeds && AgainPeriodic(w) !in deeds;
            var starts := LastStarts(deeds, {StartPeriodic(w), AgainPeriodic(w)}, {StopPeriodic(w)});
            if kept then w in q.periodics && q.periodics[w] == p.periodics[w]
            else (w in q.periodics <==> starts && w in p.next) && (w in q.periodics ==> q.periodics[w] == p.next[w])
  {
    hide After;
    if deeds != [] {
      var before, d := deeds[..|deeds| - 1], deeds[|deeds| - 1];
      PeriodicIs(p, before, w, mn);
      OutcomeSound(p, before, mn);
      AfterPeriodic(Outcome(p, before), d, w);
      assert deeds == before + [d];
    }
  }

  // So is a periodic.
  lemma PeriodicLateIff(p: Plan, deeds: seq<Deed>, w: Watcher, mn: real, rt: real)
    requires Sound(p, mn) && !PeriodicLate(p, w, rt)
    ensures PeriodicLate(Outcome(p, deeds), w, rt) <==> LeavesPeriodicLate(p, deeds, w, rt)
  {
    hide After, LastStarts, Outcome;
    PeriodicIs(p, deeds, w, mn);
  }

  lemma AfterIo(p: Plan, d: Deed)
    ensures After(p, d).clean <==> p.clean && !Toggles(p, d)
    ensures !Toggles(p, d) ==> After(p, d).started == p.started
  {
  }

  // The backend still knows of every change exactly if no deed changes an fd.
  lemma {:induction false} CleanIff(p: Plan, deeds: seq<Deed>)
    ensures Outcome(p, deeds).clean <==> p.clean && !ChangesFd(p, deeds)
    ensures !ChangesFd(p, deeds) ==> Outcome(p, deeds).started == p.started
  {
    hide After;
    if deeds != [] {
      var before, d := deeds[..|deeds| - 1], deeds[|deeds| - 1];
      CleanIff(p, before);
      AfterIo(Outcome(p, before), d);
      assert deeds == before + [d];
      if ChangesFd(p, before) {
        var x :| x in before && Toggles(p, x);
        assert x in deeds;
      } else {
        assert Toggles(Outcome(p, before), d) <==> Toggles(p, d);
      }
    }
  }

  // The deeds leave something to be done before the next poll.
  ghost predicate LeavesWork(p: Plan, deeds: seq<Deed>, mn: real, rt: real) {
    || ChangesFd(p, deeds)
    || (exists w :: w in p.times && LeavesTimerLate(p, deeds, w, mn))
    || (exists w :: w in p.next && LeavesPeriodicLate(p, deeds, w, rt))
  }

  lemma UpToDateIff(p: Plan, deeds: seq<Deed>, mn: real, rt: real)
    requires Sound(p, mn) && UpToDate(p, mn, rt)
    ensures UpToDate(Outcome(p, deeds), mn, rt) <==> !LeavesWork(p, deeds, mn, rt)
  {
    CleanIff(p, deeds);
    OutcomeSound(p, deeds, mn);
    forall w
      ensures TimerLate(Outcome(p, deeds), w, mn) <==> LeavesTimerLate(p, deeds, w, mn)
      ensures PeriodicLate(Outcome(p, deeds), w, rt) <==> LeavesPeriodicLate(p, deeds, w, rt)
    {
      TimerLateIff(p, deeds, w, mn);
      PeriodicLateIff(p, deeds, w, mn, rt);
    }
  }

  // The watchers of a loop and of its parts, those whose priority is in range, and the I/O watchers that may be started
  datatype Usable = Usable(
    known: set<Watcher>, io: set<Watcher>, timers: set<Watcher>, periodics: set<Watcher>,
    inRange: set<Watcher>, startable: set<Watcher>)

  ghost function UsableOf(known: set<Watcher>, io: set<Watcher>, timers: set<Watcher>, periodics: set<Watcher>): Usable
    reads known`priority, io`fd, io`events
  {
    Usable(known, io, timers, periodics,
           set w | w in known && 0 <= w.AbsPri() < NUMPRI,
           set w | w in io && w.fd >= 0 && w.events <= {READ, WRITE, IOFDSET})
  }

  ghost predicate Includes(more: Usable, some: Usable) {
    && some.known <= more.known && some.io <= more.io && some.timers <= more.timers && some.periodics <= more.periodics
    && some.inRange <= more.inRange && some.startable <= more.startable
  }

  // The arguments of a deed are those its function accepts.
  ghost predicate DeedOk(d: Deed, fit: Usable) {
    match d
    case Feed(w, _) => w in fit.inRange
    case Clear(w) => w in fit.known
    case StartTimer(w) => w in fit.timers
    case StopTimer(w) => w in fit.timers
    case AgainTimer(w) => w in fit.timers
    case StartPeriodic(w) => w in fit.periodics
    case StopPeriodic(w) => w in fit.periodics
    case AgainPeriodic(w) => w in fit.periodics
    case StartIo(w) => w in fit.startable
    case StopIo(w) => w in fit.io
    case _ => true
  }

  // Deeds that neither start anything nor stop an I/O watcher leave no work.
  lemma NoStartsNoWork(p: Plan, deeds: seq<Deed>, mn: real, rt: real)
    requires forall d :: d in deeds ==> d.Feed? || d.Clear? || d.Drain? || d.Return? || d.StopTimer? || d.StopPeriodic?
    ensures !LeavesWork(p, deeds, mn, rt)
  {
    forall starts, stops | LastStarts(deeds, starts, stops) ensures exists d :: d in deeds && d in starts {
      LastIsOne(deeds, starts, stops);
    }
  }

  lemma {:induction false} LastIsOne(deeds: seq<Deed>, starts: set<Deed>, stops: set<Deed>)
    requires LastStarts(deeds, starts, stops)
    ensures exists d :: d in deeds && d in starts
  {
    if deeds[|deeds| - 1] !in starts { LastIsOne(deeds[..|deeds| - 1], starts, stops); }
  }

  // The deed takes back what is pending of w.
  ghost predicate Withdraws(d: Deed, w: Watcher) {
    || d == Clear(w) || d == StopTimer(w) || d == AgainTimer(w) || d == StopPeriodic(w) || d == AgainPeriodic(w)
    || d == StopIo(w)
  }

  // The deed is the cause of this step.
  ghost predicate Causes(d: Deed, s: Step) {
    (s.Fed? && d == Feed(s.fw, s.e)) || (s.Cleared? && Withdraws(d, s.cw))
  }

  ghost predicate ByDeed(before: seq<Step>, trace: seq<Step>, d: Deed) {
    before <= trace && forall k :: |before| <= k < |trace| ==> Causes(d, trace[k])
  }

  // Every new step is an invocation or has its cause among the deeds.
  ghost predicate ByDeeds(before: seq<Step>, trace: seq<Step>, deeds: seq<Deed>) {
    && before <= trace
    && forall k :: |before| <= k < |trace| ==> trace[k].Invoked? || exists d :: d in deeds && Causes(d, trace[k])
  }

  lemma ClearsByDeed(before: seq<Step>, trace: seq<Step>, d: Deed)
    requires before == trace || (!d.Drain? && !d.Return? && Withdraws(d, d.w) && ClearsOnly(before, trace, d.w))
    ensures ByDeed(before, trace, d)
  {
  }

  lemma ByDeedsAppend(before: seq<Step>, t: seq<Step>, trace: seq<Step>, deeds: seq<Deed>, d: Deed)
    requires ByDeeds(before, t, deeds) && ByDeed(t, trace, d)
    ensures ByDeeds(before, trace, deeds + [d])
  {
    forall k | |before| <= k < |trace|
      ensures trace[k].Invoked? || exists x :: x in deeds + [d] && Causes(x, trace[k])
    {
      if k < |t| {
        assert trace[k] == t[k];
        if !t[k].Invoked? {
          var x :| x in deeds && Causes(x, t[k]);
          assert x in deeds + [d];
        }
      } else {
        assert d in deeds + [d];
      }
    }
  }

  lemma ByDeedsInvoke(before: seq<Step>, trace: seq<Step>, s: Step, deeds: seq<Deed>)
    requires ByDeeds(before, trace, deeds) && s.Invoked?
    ensures ByDeeds(before, trace + [s], deeds)
  {
  }

  // Without deeds there are only invocations.
  lemma NoDeedsNoClears(before: seq<Step>, trace: seq<Step>)
    requires ByDeeds(before, trace, [])
    ensures forall k :: |before| <= k < |trace| ==> trace[k].Invoked?
  {
  }
}

/** What a turn of the loop feeds before its callbacks run, and why. */
module Feeds {
  import opened Options
  import opened Watchers
  import opened Pending
  import opened FdTable

  // The due times after the watchers that were due before now have expired, each with its next due time if it has one
  ghost function NewDue(keys: map<Watcher, real>, nexts: map<Watcher, Option<real>>, now: real): (r: map<Watcher, real>)
    ensures forall w :: w in keys && now <= keys[w] ==> w in r && r[w] == keys[w]
    ensures forall w :: w in keys && keys[w] < now ==> (w in r <==> w in nexts && nexts[w].Some?)
    ensures r.Keys <= keys.Keys
    ensures forall w :: w in r && keys[w] < now ==> r[w] == nexts[w].value
  {
    map w | w in keys && (now <= keys[w] || (w in nexts && nexts[w].Some?)) ::
      if now <= keys[w] then keys[w] else nexts[w].value
  }

  // A watcher that was due is fed its expiry, or what was pending of one that runs once is cleared.
  ghost predicate ExpiryStep(s: Step, keys: map<Watcher, real>, nexts: map<Watcher, Option<real>>, now: real,
                             flags: Events) {
    match s
    case Fed(w, e) => w in keys && keys[w] < now && e == flags
    case Cleared(w, _) => w in keys && keys[w] < now && w in nexts && nexts[w].None?
    case Invoked(_) => false
  }

  ghost predicate Expiries(before: seq<Step>, trace: seq<Step>, keys: map<Watcher, real>,
                           nexts: map<Watcher, Option<real>>, now: real, flags: Events) {
    && before <= trace
    && forall k :: |before| <= k < |trace| ==> ExpiryStep(trace[k], keys, nexts, now, flags)
  }

  // What an I/O watcher with this fd and these events gets of the reports
  ghost function Shares(want: (int, Events), ready: seq<(nat, Events)>): seq<Events> {
    if ready == [] then []
    else
      var r := ready[|ready| - 1];
      Shares(want, ready[..|ready| - 1]) + if r.0 == want.0 && want.1 * r.1 != {} then [want.1 * r.1] else []
  }

  lemma SharesAppend(want: (int, Events), ready: seq<(nat, Events)>, r: (nat, Events))
    ensures Shares(want, ready + [r]) ==
            Shares(want, ready) + if r.0 == want.0 && want.1 * r.1 != {} then [want.1 * r.1] else []
  {
    assert (ready + [r])[..|ready|] == ready;
  }

  // It gets its part of each report on its fd, and nothing else.
  lemma {:induction false} SharesIff(want: (int, Events), ready: seq<(nat, Events)>, e: Events)
    ensures e in Shares(want, ready) <==>
            exists i :: 0 <= i < |ready| && ready[i].0 == want.0 && e == want.1 * ready[i].1 && e != {}
  {
    if ready != [] {
      var n := |ready| - 1;
      SharesIff(want, ready[..n], e);
      if i :| 0 <= i < n && ready[..n][i].0 == want.0 && e == want.1 * ready[..n][i].1 && e != {} {
        assert ready[i].0 == want.0;
      }
      if i :| 0 <= i < |ready| && ready[i].0 == want.0 && e == want.1 * ready[i].1 && e != {} {
        assert i < n ==> ready[..n][i] == ready[i];
      }
    }
  }

  // A started I/O watcher is fed the error events if the backend has given up its fd, after which what was pending of
  // it is cleared, and its part of a report otherwise.
  ghost predicate IoStep(s: Step, wants: map<Watcher, (int, Events)>, ready: seq<(nat, Events)>, lost: seq<nat>) {
    match s
    case Fed(w, e) =>
      w in wants && if wants[w].0 in lost then e == KILLED else e in Shares(wants[w], ready)
    case Cleared(w, _) => w in wants && wants[w].0 in lost
    case Invoked(_) => false
  }

  ghost predicate IoSteps(before: seq<Step>, trace: seq<Step>, wants: map<Watcher, (int, Events)>,
                          ready: seq<(nat, Events)>, lost: seq<nat>) {
    && before <= trace
    && forall k :: |before| <= k < |trace| ==> IoStep(trace[k], wants, ready, lost)
  }

  // What the watchers of one kind are before a turn: their due times, what has been fed to each, and their time fields
  datatype Timed = Timed(keys: map<Watcher, real>, fed: map<Watcher, seq<Events>>, at: map<Watcher, real>)

  // What a turn starts from, and what it is given: the next due times of timers and periodics, the events of the I/O
  // watchers that are started, the reports, and the fds that are lost
  datatype Eve = Eve(
    timers: Timed, timerNexts: map<Watcher, Option<real>>, periodics: Timed, periodicNexts: map<Watcher, Option<real>>,
    io: map<Watcher, seq<Events>>, wants: map<Watcher, (int, Events)>, ready: seq<(nat, Events)>, lost: seq<nat>)

  // Every step has its cause in a watcher that was due, a report, or a lost fd.
  ghost predicate Caused(s: Step, e: Eve, mn: real, rt: real) {
    || IoStep(s, e.wants, e.ready, e.lost)
    || ExpiryStep(s, e.timers.keys, e.timerNexts, mn, {TIMER})
    || ExpiryStep(s, e.periodics.keys, e.periodicNexts, rt, {PERIODIC})
  }

  ghost predicate AllCaused(before: seq<Step>, trace: seq<Step>, e: Eve, mn: real, rt: real) {
    before <= trace && forall k :: |before| <= k < |trace| ==> Caused(trace[k], e, mn, rt)
  }

  lemma CausedInTurn(t0: seq<Step>, t1: seq<Step>, t2: seq<Step>, t3: seq<Step>, e: Eve, mn: real, rt: real)
    requires IoSteps(t0, t1, e.wants, e.ready, e.lost)
    requires Expiries(t1, t2, e.timers.keys, e.timerNexts, mn, {TIMER})
    requires Expiries(t2, t3, e.periodics.keys, e.periodicNexts, rt, {PERIODIC})
    ensures AllCaused(t0, t3, e, mn, rt)
  {
    hide IoStep, ExpiryStep;
    forall k | |t0| <= k < |t3| ensures Caused(t3[k], e, mn, rt) {
      assert k < |t2| ==> t3[k] == t2[k];
      assert k < |t1| ==> t3[k] == t1[k];
    }
  }

  // The I/O watchers that are left when the lost fds are gone
  ghost function Left(wants: map<Watcher, (int, Events)>, lost: seq<nat>): map<Watcher, (int, Events)> {
    map w | w in wants && wants[w].0 !in lost :: wants[w]
  }

  lemma IoStepsJoin(t0: seq<Step>, t1: seq<Step>, t2: seq<Step>, wants: map<Watcher, (int, Events)>,
                    ready: seq<(nat, Events)>, lost: seq<nat>)
    requires IoSteps(t0, t1, wants, [], lost) && IoSteps(t1, t2, Left(wants, lost), ready, [])
    ensures IoSteps(t0, t2, wants, ready, lost)
  {
    forall k | |t0| <= k < |t2| ensures IoStep(t2[k], wants, ready, lost) {
      if k < |t1| {
        assert t2[k] == t1[k] && IoStep(t1[k], wants, [], lost);
      } else {
        assert IoStep(t2[k], Left(wants, lost), ready, []);
      }
    }
  }
}

/** The event watchers of the loop: one class for the common head and for the timer and I/O parts. */
module Watchers {
  import opened Options

  // An event mask is the set of its one-bits; the named ones are those the loop itself uses.
  datatype Flag = READ | WRITE | IOFDSET | TIMER | PERIODIC | ASYNC | SIGNAL | ERROR | Other(bit: nat)

  type Events = set<Flag>

  const MINPRI := -2
  const MAXPRI := 2
  const NUMPRI := MAXPRI - MINPRI + 1

  // Fields `active`, `pending` and `priority` are the common head of every watcher; `at` and `repeat`
  // belong to timers, `at`, `offset`, `interval` and `reschedule` to periodics, the rest to I/O watchers.
  class Watcher {
    var active: int
    var pending: nat
    ghost var fed: seq<Events>         // all events fed since this watcher was last cleared or invoked
    var priority: int
    var at: real
    var repeat: real
    var offset: real
    var interval: real
    var reschedule: Option<real -> real>
    var fd: int
    var events: Events
    var next: Watcher?

    // The index of this watcher's pending queue.
    function AbsPri(): int
      reads this`priority
    {
      priority - MINPRI
    }
  }

  function ClampPriority(pri: int): (r: int)
    ensures MINPRI <= r <= MAXPRI
    ensures MINPRI <= pri <= MAXPRI ==> r == pri
  {
    if pri < MINPRI then MINPRI else if pri > MAXPRI then MAXPRI else pri
  }
}

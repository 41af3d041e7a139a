/** The per-priority stacks of pending events, and the trace of what is fed, cleared and invoked. */
module Pending {
  import opened Watchers

  datatype Entry = Entry(w: Watcher, events: Events)

  // One callback invocation: its watcher and events, its priority, the events fed to the watcher since it
  // was last cleared, and the lengths of all queues at that moment.
  datatype Invocation = Invocation(w: Watcher, events: Events, pri: int, fed: seq<Events>, counts: seq<nat>)

  // What happens to the queues: a watcher is fed, its pending events are cleared, or it is invoked with them.
  datatype Step = Fed(fw: Watcher, e: Events) | Cleared(cw: Watcher, fed: seq<Events>) | Invoked(i: Invocation) {
    // The step ends what was pending of w.
    predicate Settles(w: Watcher) {
      (Cleared? && cw == w) || (Invoked? && i.w == w)
    }

    // What a settling step answers: all that was fed since the one before
    function Answers(): seq<Events>
      requires !Fed?
    {
      if Cleared? then fed else i.fed
    }
  }

  // The events fed to w that the trace has neither cleared nor invoked
  ghost function Owed(trace: seq<Step>, w: Watcher): seq<Events> {
    if trace == [] then []
    else
      var last, before := trace[|trace| - 1], trace[..|trace| - 1];
      if last.Settles(w) then [] else if last.Fed? && last.fw == w then Owed(before, w) + [last.e] else Owed(before, w)
  }

  lemma OwedAppend(trace: seq<Step>, s: Step, w: Watcher)
    ensures Owed(trace + [s], w) ==
            if s.Settles(w) then [] else if s.Fed? && s.fw == w then Owed(trace, w) + [s.e] else Owed(trace, w)
  {
    assert (trace + [s])[..|trace|] == trace;
  }

  // Only watchers are fed, every settling step answers exactly what was owed, and every invocation is in order.
  ghost predicate StepOk(before: seq<Step>, s: Step, dummy: Watcher) {
    && (s.Fed? ==> s.fw != dummy)
    && (s.Cleared? ==> s.fed == Owed(before, s.cw))
    && (s.Invoked? ==> InvocationOk(s.i, dummy) && (s.i.w != dummy ==> s.i.fed == Owed(before, s.i.w)))
  }

  ghost predicate History(trace: seq<Step>, dummy: Watcher) {
    forall k :: 0 <= k < |trace| ==> StepOk(trace[..k], trace[k], dummy)
  }

  lemma HistoryAppend(trace: seq<Step>, s: Step, dummy: Watcher)
    requires History(trace, dummy) && StepOk(trace, s, dummy)
    ensures History(trace + [s], dummy)
  {
    var more := trace + [s];
    forall k | 0 <= k < |more| ensures StepOk(more[..k], more[k], dummy) {
      assert more[..k] == trace[..k];
    }
  }

  // Some step after the first n answers all of these events of w.
  ghost predicate Answered(trace: seq<Step>, n: nat, w: Watcher, events: seq<Events>) {
    exists k :: n <= k < |trace| && trace[k].Settles(w) && events <= trace[k].Answers()
  }

  // What is owed after n steps is answered later, or is owed still.
  lemma {:induction false} NothingIsLost(trace: seq<Step>, n: nat, w: Watcher, dummy: Watcher)
    requires History(trace, dummy) && n <= |trace| && w != dummy
    ensures Answered(trace, n, w, Owed(trace[..n], w)) || Owed(trace[..n], w) <= Owed(trace, w)
    decreases |trace| - n
  {
    hide Owed, InvocationOk;
    if n == |trace| {
      assert trace[..n] == trace;
    } else {
      var s, before := trace[n], trace[..n];
      assert StepOk(before, s, dummy) && trace[..n + 1] == before + [s];
      OwedAppend(before, s, w);
      if s.Settles(w) {
        assert Owed(before, w) <= s.Answers();
      } else {
        NothingIsLost(trace, n + 1, w, dummy);
        if Answered(trace, n + 1, w, Owed(trace[..n + 1], w)) {
          var k :| n + 1 <= k < |trace| && trace[k].Settles(w) && Owed(trace[..n + 1], w) <= trace[k].Answers();
          assert Owed(before, w) <= trace[k].Answers();
        }
      }
    }
  }

  // So every feed is answered, or is owed still.
  lemma EveryFeedIsAnswered(trace: seq<Step>, n: nat, dummy: Watcher)
    requires History(trace, dummy) && n < |trace| && trace[n].Fed?
    ensures var w, upTo := trace[n].fw, Owed(trace[..n + 1], trace[n].fw);
            && upTo != [] && upTo[|upTo| - 1] == trace[n].e
            && (Answered(trace, n + 1, w, upTo) || upTo <= Owed(trace, w))
  {
    assert trace[..n + 1] == trace[..n] + [trace[n]];
    OwedAppend(trace[..n], trace[n], trace[n].fw);
    NothingIsLost(trace, n + 1, trace[n].fw, dummy);
  }

  // The trace has grown by steps that clear w, if at all.
  ghost predicate ClearsOnly(before: seq<Step>, trace: seq<Step>, w: Watcher) {
    before <= trace && forall k :: |before| <= k < |trace| ==> trace[k].Cleared? && trace[k].cw == w
  }

  // The trace has grown by feeding e to some of these watchers.
  ghost predicate FeedsOnly(before: seq<Step>, trace: seq<Step>, ws: seq<Watcher>, e: Events) {
    before <= trace && forall k :: |before| <= k < |trace| ==> trace[k].Fed? && trace[k].fw in ws && trace[k].e == e
  }

  // Some step after the first n answers this event of w.
  ghost predicate AnsweredWith(trace: seq<Step>, n: nat, w: Watcher, e: Events) {
    exists k :: n <= k < |trace| && trace[k].Settles(w) && e in trace[k].Answers()
  }

  lemma AnswersAll(trace: seq<Step>, n: nat, w: Watcher, events: seq<Events>)
    requires Answered(trace, n, w, events)
    ensures forall e :: e in events ==> AnsweredWith(trace, n, w, e)
  {
    var k :| n <= k < |trace| && trace[k].Settles(w) && events <= trace[k].Answers();
    assert forall e :: e in events ==> e in trace[k].Answers();
  }

  ghost function OrAll(fed: seq<Events>): Events {
    if fed == [] then {} else OrAll(fed[..|fed| - 1]) + fed[|fed| - 1]
  }

  lemma {:induction false} OrAllAppend(fed: seq<Events>, e: Events)
    ensures OrAll(fed + [e]) == OrAll(fed) + e
    ensures OrAll([e]) == e
  {
    assert (fed + [e])[..|fed|] == fed;
    assert OrAll([e]) == OrAll([]) + e;
  }

  ghost function Reversed<T>(s: seq<T>): (r: seq<T>)
    ensures |r| == |s|
    ensures forall i :: 0 <= i < |s| ==> r[i] == s[|s| - 1 - i]
  {
    if s == [] then [] else [s[|s| - 1]] + Reversed(s[..|s| - 1])
  }

  // The order in which undisturbed stacks are emptied: highest priority first, last entry first.
  ghost function DrainOrder(ps: seq<seq<Entry>>): seq<Entry> {
    if ps == [] then [] else Reversed(ps[|ps| - 1]) + DrainOrder(ps[..|ps| - 1])
  }

  lemma {:induction false} DrainOrderPop(ps: seq<seq<Entry>>, p: int)
    requires 0 <= p < |ps| && ps[p] != []
    requires forall q :: p < q < |ps| ==> ps[q] == []
    ensures DrainOrder(ps) == [ps[p][|ps[p]| - 1]] + DrainOrder(ps[p := ps[p][..|ps[p]| - 1]])
  {
    var popped := ps[p := ps[p][..|ps[p]| - 1]];
    if p == |ps| - 1 {
      assert popped[..p] == ps[..p];
      assert DrainOrder(ps) == [ps[p][|ps[p]| - 1]] + Reversed(popped[p]) + DrainOrder(ps[..p]) by {
        assert DrainOrder(ps) == Reversed(ps[p]) + DrainOrder(ps[..p]);
      }
      assert DrainOrder(popped) == Reversed(popped[p]) + DrainOrder(popped[..p]);
    } else {
      DrainOrderPop(ps[..|ps| - 1], p);
      assert popped[..|ps| - 1] == ps[..|ps| - 1][p := ps[p][..|ps[p]| - 1]];
    }
  }

  lemma {:induction false} DrainOrderEmpty(ps: seq<seq<Entry>>)
    requires forall q :: 0 <= q < |ps| ==> ps[q] == []
    ensures DrainOrder(ps) == []
  {
    if ps != [] { DrainOrderEmpty(ps[..|ps| - 1]); }
  }

  ghost function Total(ps: seq<seq<Entry>>): nat {
    if ps == [] then 0 else |ps[|ps| - 1]| + Total(ps[..|ps| - 1])
  }

  lemma {:induction false} TotalPop(ps: seq<seq<Entry>>, p: int)
    requires 0 <= p < |ps| && ps[p] != []
    ensures Total(ps[p := ps[p][..|ps[p]| - 1]]) == Total(ps) - 1
  {
    var popped := ps[p := ps[p][..|ps[p]| - 1]];
    if p == |ps| - 1 {
      assert popped[..p] == ps[..p];
    } else {
      TotalPop(ps[..|ps| - 1], p);
      assert popped[..|ps| - 1] == ps[..|ps| - 1][p := ps[p][..|ps[p]| - 1]];
    }
  }

  // Where entry j of stack p comes in the drain order: after the stacks above it and the entries pushed later.
  ghost function Position(ps: seq<seq<Entry>>, p: int, j: int): int
    requires 0 <= p < |ps| && 0 <= j < |ps[p]|
  {
    Total(ps) - Total(ps[..p + 1]) + |ps[p]| - 1 - j
  }

  lemma {:induction false} DrainPosition(ps: seq<seq<Entry>>, p: int, j: int)
    requires 0 <= p < |ps| && 0 <= j < |ps[p]|
    ensures |DrainOrder(ps)| == Total(ps) && 0 <= Position(ps, p, j) < Total(ps)
    ensures DrainOrder(ps)[Position(ps, p, j)] == ps[p][j]
  {
    DrainOrderLength(ps);
    var low := ps[..|ps| - 1];
    if p == |ps| - 1 {
      assert ps[..p + 1] == ps;
      assert Total(low) >= 0;
    } else {
      DrainPosition(low, p, j);
      assert low[..p + 1] == ps[..p + 1];
    }
  }

  lemma {:induction false} DrainOrderLength(ps: seq<seq<Entry>>)
    ensures |DrainOrder(ps)| == Total(ps)
  {
    if ps != [] { DrainOrderLength(ps[..|ps| - 1]); }
  }

  // Of two pending entries of one priority the one pushed later is invoked first.
  lemma LaterPushedFirst(ps: seq<seq<Entry>>, p: int, i: int, j: int)
    requires 0 <= p < |ps| && 0 <= i < j < |ps[p]|
    ensures 0 <= Position(ps, p, j) < Position(ps, p, i) < |DrainOrder(ps)|
    ensures DrainOrder(ps)[Position(ps, p, j)] == ps[p][j] && DrainOrder(ps)[Position(ps, p, i)] == ps[p][i]
  {
    DrainPosition(ps, p, i);
    DrainPosition(ps, p, j);
  }

  // The entries invoked after the first n steps of a trace
  ghost function Delivered(trace: seq<Step>, n: nat): seq<Entry> {
    if |trace| <= n then []
    else
      var last := trace[|trace| - 1];
      Delivered(trace[..|trace| - 1], n) + if last.Invoked? then [Entry(last.i.w, last.i.events)] else []
  }

  // Popping the highest stack moves its last entry from the drain order to the trace.
  lemma {:induction false} PopDelivers(before: seq<Step>, i: Invocation, n: nat, ps: seq<seq<Entry>>, p: int)
    requires n <= |before| && 0 <= p < |ps| && ps[p] != [] && Entry(i.w, i.events) == ps[p][|ps[p]| - 1]
    requires forall q :: p < q < |ps| ==> ps[q] == []
    ensures Delivered(before + [Invoked(i)], n) + DrainOrder(ps[p := ps[p][..|ps[p]| - 1]]) ==
            Delivered(before, n) + DrainOrder(ps)
    ensures Total(ps[p := ps[p][..|ps[p]| - 1]]) == Total(ps) - 1
  {
    assert (before + [Invoked(i)])[..|before|] == before;
    DrainOrderPop(ps, p);
    TotalPop(ps, p);
  }

  // No callback may run while a higher priority has an entry, and it gets every event fed since the last clear.
  ghost predicate InvocationOk(i: Invocation, dummy: Watcher) {
    && 0 <= i.pri < NUMPRI && |i.counts| == NUMPRI
    && (forall q :: i.pri < q < NUMPRI ==> i.counts[q] == 0)
    && (i.w != dummy ==> i.fed != [] && i.events == OrAll(i.fed))
  }

  ghost function Lengths(ps: seq<seq<Entry>>): (r: seq<nat>)
    ensures |r| == |ps| && forall i :: 0 <= i < |ps| ==> r[i] == |ps[i]|
  {
    if ps == [] then [] else Lengths(ps[..|ps| - 1]) + [|ps[|ps| - 1]|]
  }

  ghost function Pendings(ws: seq<Watcher>): (r: seq<nat>)
    reads ws`pending
    ensures |r| == |ws| && forall i :: 0 <= i < |ws| ==> r[i] == ws[i].pending
  {
    if ws == [] then [] else Pendings(ws[..|ws| - 1]) + [ws[|ws| - 1].pending]
  }

  ghost function FedOf(ws: seq<Watcher>): (r: seq<seq<Events>>)
    reads ws`fed
    ensures |r| == |ws| && forall i :: 0 <= i < |ws| ==> r[i] == ws[i].fed
  {
    if ws == [] then [] else FedOf(ws[..|ws| - 1]) + [ws[|ws| - 1].fed]
  }

  class PendingQueues {
    var pendings: seq<seq<Entry>>
    var pendingpri: int
    const pendingW: Watcher            // stands in for a watcher whose event was cleared
    ghost const known: set<Watcher>    // every watcher that may be fed
    ghost var trace: seq<Step>

    // A watcher is pending iff its slot points to it and holds every event fed since it was last cleared.
    ghost predicate Linked(w: Watcher)
      reads this`pendings, w`pending, w`priority, w`fed
    {
      && |pendings| == NUMPRI
      && (w.pending == 0 <==> w.fed == [])
      && (w.pending > 0 ==>
            && 0 <= w.AbsPri() < NUMPRI && w.pending <= |pendings[w.AbsPri()]|
            && pendings[w.AbsPri()][w.pending - 1] == Entry(w, OrAll(w.fed)))
    }

    // No slot points to a watcher but the one the watcher points back to.
    ghost predicate SlotOk(p: int, j: int)
      reads this`pendings, known`pending, known`priority
      requires 0 <= p < |pendings| && 0 <= j < |pendings[p]|
    {
      var w := pendings[p][j].w;
      w == pendingW || (w in known && w.pending == j + 1 && w.AbsPri() == p)
    }

    ghost predicate Coherent()
      reads this`pendings, known`pending, known`priority, known`fed
    {
      && |pendings| == NUMPRI && pendingW !in known
      && (forall w :: w in known ==> Linked(w))
      && (forall p, j :: 0 <= p < NUMPRI && 0 <= j < |pendings[p]| ==> SlotOk(p, j))
    }

    // What is pending of each watcher is what the trace owes it.
    ghost predicate Accounted()
      reads this`trace, known`fed
    {
      && History(trace, pendingW)
      && (forall k :: 0 <= k < |trace| && trace[k].Fed? ==> trace[k].fw in known)
      && forall w :: w in known ==> w.fed == Owed(trace, w)
    }

    ghost predicate Valid()
      reads this`pendings, this`pendingpri, this`trace, known`pending, known`priority, known`fed
    {
      && |pendings| == NUMPRI && Coherent() && Accounted() && 0 <= pendingpri <= NUMPRI
      && forall q :: pendingpri < q < NUMPRI ==> pendings[q] == []
    }

    constructor (known: set<Watcher>, dummy: Watcher)
      requires dummy !in known
      requires forall w :: w in known ==> w.pending == 0 && w.fed == []
      ensures Valid() && this.known == known && pendingW == dummy
      ensures pendings == seq(NUMPRI, _ => []) && trace == []
    {
      pendings, pendingpri, pendingW := seq(NUMPRI, _ => []), 0, dummy;
      this.known, trace := known, [];
    }

    method AddToEntry(w: Watcher, revents: Events)
      requires Coherent() && w in known && w.pending > 0
      modifies this`pendings, w`fed
      ensures Coherent() && w.fed == old(w.fed) + [revents]
      ensures pendings == old(pendings)[w.AbsPri() :=
                old(pendings[w.AbsPri()])[w.pending - 1 :=
                  Entry(w, old(pendings[w.AbsPri()][w.pending - 1]).events + revents)]]
    {
      var pri := w.AbsPri();
      assert Linked(w);
      OrAllAppend(w.fed, revents);
      var e := pendings[pri][w.pending - 1];
      pendings := pendings[pri := pendings[pri][w.pending - 1 := e.(events := e.events + revents)]];
      w.fed := w.fed + [revents];
      forall p, j | 0 <= p < NUMPRI && 0 <= j < |pendings[p]| ensures SlotOk(p, j) {
        assert old(SlotOk(p, j));
      }
      forall x | x in known ensures Linked(x) {
        assert old(Linked(x));
      }
    }

    method PushEntry(w: Watcher, revents: Events)
      requires Coherent() && w in known && w.pending == 0 && 0 <= w.AbsPri() < NUMPRI
      modifies this`pendings, w`pending, w`fed
      ensures Coherent() && w.fed == [revents] && w.pending == old(|pendings[w.AbsPri()]|) + 1
      ensures pendings == old(pendings)[w.AbsPri() := old(pendings[w.AbsPri()]) + [Entry(w, revents)]]
    {
      var pri := w.AbsPri();
      OrAllAppend([], revents);
      w.pending := |pendings[pri]| + 1;
      pendings := pendings[pri := pendings[pri] + [Entry(w, revents)]];
      w.fed := [revents];
      forall p, j | 0 <= p < NUMPRI && 0 <= j < |pendings[p]| ensures SlotOk(p, j) {
        assert j < old(|pendings[p]|) ==> old(SlotOk(p, j));
      }
      forall x | x in known ensures Linked(x) {
        assert old(Linked(x)) && old(Linked(w));
      }
    }

    lemma Appending(s: Step)
      requires StepOk(trace, s, pendingW) && Accounted()
      ensures History(trace + [s], pendingW)
      ensures forall w :: w in known ==>
                (Owed(trace + [s], w) ==
                 if s.Settles(w) then [] else if s.Fed? && s.fw == w then w.fed + [s.e] else w.fed)
    {
      HistoryAppend(trace, s, pendingW);
      forall w ensures Owed(trace + [s], w) ==
                if s.Settles(w) then [] else if s.Fed? && s.fw == w then Owed(trace, w) + [s.e] else Owed(trace, w) {
        OwedAppend(trace, s, w);
      }
    }

    // ev_feed_event
    method FeedEvent(w: Watcher, revents: Events)
      requires Valid() && w in known && 0 <= w.AbsPri() < NUMPRI
      modifies this`pendings, this`pendingpri, this`trace, w`pending, w`fed
      ensures Valid() && w.fed == old(w.fed) + [revents] && pendingpri == NUMPRI - 1
      ensures trace == old(trace) + [Fed(w, revents)]
      ensures |pendings| == NUMPRI && 0 < w.pending <= |pendings[w.AbsPri()]|
      ensures forall p :: 0 <= p < NUMPRI ==>
                |pendings[p]| == old(|pendings[p]|) + if p == w.AbsPri() && old(w.pending) == 0 then 1 else 0
      ensures old(w.pending) > 0 ==> w.pending == old(w.pending)
      ensures old(w.pending) > 0 ==> pendings == old(pendings)[w.AbsPri() :=
                old(pendings[w.AbsPri()])[w.pending - 1 :=
                  Entry(w, old(pendings[w.AbsPri()][w.pending - 1]).events + revents)]]
      ensures old(w.pending) == 0 ==> w.pending == old(|pendings[w.AbsPri()]|) + 1
      ensures old(w.pending) == 0 ==>
                pendings == old(pendings)[w.AbsPri() := old(pendings[w.AbsPri()]) + [Entry(w, revents)]]
    {
      hide SlotOk, Linked, OrAll, History, Owed;
      EmptyIff(w);
      Appending(Fed(w, revents));
      if w.pending > 0 {
        AddToEntry(w, revents);
      } else {
        PushEntry(w, revents);
      }
      pendingpri := NUMPRI - 1;
      trace := trace + [Fed(w, revents)];
    }

    lemma EmptyIff(w: Watcher)
      requires Coherent() && w in known
      ensures w.pending == 0 <==> w.fed == []
      ensures w.pending == 0 ==> OrAll(w.fed) == {}
      ensures |pendings| == NUMPRI
      ensures w.pending > 0 ==> 0 <= w.AbsPri() < NUMPRI && w.pending <= |pendings[w.AbsPri()]|
    {
      assert Linked(w);
    }

    // ev_clear_pending; the internal clear_pending drops the result
    method ClearPending(w: Watcher) returns (events: Events)
      requires Valid() && w in known
      modifies this`pendings, this`trace, w`pending, w`fed
      ensures Valid() && w.pending == 0 && w.fed == []
      ensures events == OrAll(old(w.fed))
      ensures trace == old(trace) + if old(w.fed) == [] then [] else [Cleared(w, old(w.fed))]
      ensures old(w.pending) == 0 ==> pendings == old(pendings)
      ensures old(w.pending) > 0 ==> pendings == old(pendings)[w.AbsPri() :=
                old(pendings[w.AbsPri()])[old(w.pending) - 1 := Entry(pendingW, events)]]
    {
      hide SlotOk, Linked, OrAll, History, Owed;
      EmptyIff(w);
      if w.pending == 0 {
        return {};
      }
      Appending(Cleared(w, w.fed));
      trace := trace + [Cleared(w, w.fed)];
      events := DropEvents(w);
    }

    method DropEvents(w: Watcher) returns (events: Events)
      requires Coherent() && w in known && w.pending > 0
      modifies this`pendings, w`pending, w`fed
      ensures Coherent() && w.pending == 0 && w.fed == [] && 0 <= w.AbsPri() < NUMPRI && events == OrAll(old(w.fed))
      ensures old(w.pending) <= |old(pendings)[w.AbsPri()]|
      ensures pendings == old(pendings)[w.AbsPri() :=
                old(pendings[w.AbsPri()])[old(w.pending) - 1 := Entry(pendingW, events)]]
    {
      assert Linked(w);
      var pri, i := w.AbsPri(), w.pending - 1;
      events := pendings[pri][i].events;
      pendings := pendings[pri := pendings[pri][i := Entry(pendingW, events)]];
      w.pending := 0;
      w.fed := [];
      forall p, j | 0 <= p < NUMPRI && 0 <= j < |pendings[p]| ensures SlotOk(p, j) {
        assert old(SlotOk(p, j));
      }
      forall x | x in known ensures Linked(x) {
        assert old(Linked(x));
      }
    }

    // With nothing pending, all that was owed before has been answered since.
    lemma AllAnswered(before: seq<Step>)
      requires Valid() && before <= trace && forall p :: 0 <= p < NUMPRI ==> pendings[p] == []
      ensures forall w :: w in known && Owed(before, w) != [] ==> Answered(trace, |before|, w, Owed(before, w))
    {
      hide History, Owed, Answered;
      forall w | w in known && Owed(before, w) != [] ensures Answered(trace, |before|, w, Owed(before, w)) {
        assert Linked(w) && trace[..|before|] == before;
        NothingIsLost(trace, |before|, w, pendingW);
      }
    }

    // And so has been every event that was ever fed.
    lemma EveryEventAnswered(n: nat)
      requires Valid() && (forall p :: 0 <= p < NUMPRI ==> pendings[p] == [])
      requires n < |trace| && trace[n].Fed?
      ensures AnsweredWith(trace, n + 1, trace[n].fw, trace[n].e)
    {
      EveryFeedIsAnswered(trace, n, pendingW);
      AllAnswered(trace[..n + 1]);
      AnswersAll(trace, n + 1, trace[n].fw, Owed(trace[..n + 1], trace[n].fw));
    }

    // Of two pending watchers of one priority the one with the higher index is invoked first.
    lemma InvokedBefore(a: Watcher, b: Watcher)
      requires Valid() && a in known && b in known && a.priority == b.priority && a.pending > b.pending > 0
      ensures exists i, j :: 0 <= i < j < |DrainOrder(pendings)|
                             && DrainOrder(pendings)[i].w == a && DrainOrder(pendings)[j].w == b
    {
      assert Linked(a) && Linked(b);
      var p, i, j := a.AbsPri(), Position(pendings, a.AbsPri(), a.pending - 1),
        Position(pendings, a.AbsPri(), b.pending - 1);
      LaterPushedFirst(pendings, p, b.pending - 1, a.pending - 1);
      assert DrainOrder(pendings)[i].w == a && DrainOrder(pendings)[j].w == b;
    }

    // pri_adjust: clamps the priority of a watcher that is being started.
    method AdjustPriority(w: Watcher)
      requires Valid() && w in known
      modifies w`priority
      ensures Valid() && w.priority == ClampPriority(old(w.priority))
      ensures w.pending > 0 ==> w.priority == old(w.priority)
    {
      assert Linked(w);
      w.priority := ClampPriority(w.priority);
      forall p, j | 0 <= p < NUMPRI && 0 <= j < |pendings[p]| ensures SlotOk(p, j) {
        assert old(SlotOk(p, j));
      }
      forall x | x in known ensures Linked(x) {
        assert old(Linked(x));
      }
    }

    // The watchers of a batch from index n on have been fed e, from the last to the first; `p0`, `f0` and `len0`
    // are their pending indices, their fed events and the queue lengths before.
    ghost predicate FedFrom(batch: seq<Watcher>, n: int, e: Events, p0: seq<nat>, f0: seq<seq<Events>>, len0: seq<nat>)
      requires 0 <= n <= |batch| && (forall w :: w in batch ==> 0 <= w.AbsPri() < NUMPRI)
      reads this`pendings, batch`pending, batch`fed, batch`priority
    {
      && |pendings| == |len0| == NUMPRI && |p0| == |f0| == |batch|
      && (forall p :: 0 <= p < NUMPRI ==> len0[p] <= |pendings[p]|)
      && (forall i :: 0 <= i < n ==> batch[i].fed == f0[i] && batch[i].pending == p0[i])
      && (forall i :: n <= i < |batch| ==> batch[i].fed == f0[i] + [e])
      && (forall i :: n <= i < |batch| ==>
            if p0[i] > 0 then batch[i].pending == p0[i]
            else len0[batch[i].AbsPri()] < batch[i].pending <= |pendings[batch[i].AbsPri()]|)
      && (forall i, j :: n <= i < j < |batch| && p0[i] == 0 == p0[j] && batch[i].priority == batch[j].priority ==>
            batch[i].pending > batch[j].pending)
    }

    method FeedNext(w: Watcher, ghost batch: seq<Watcher>, ghost n: int, e: Events, ghost p0: seq<nat>,
                    ghost f0: seq<seq<Events>>, ghost len0: seq<nat>)
      requires Valid() && 0 <= n < |batch| && w == batch[n]
               && (forall w :: w in batch ==> w in known && 0 <= w.AbsPri() < NUMPRI)
      requires forall i, j :: 0 <= i < j < |batch| ==> batch[i] != batch[j]
      requires FedFrom(batch, n + 1, e, p0, f0, len0)
      modifies this`pendings, this`pendingpri, this`trace, w`pending, w`fed
      ensures Valid() && FedFrom(batch, n, e, p0, f0, len0)
      ensures trace == old(trace) + [Fed(w, e)]
    {
      hide Valid;
      FeedEvent(w, e);
    }

    lemma NoneFed(batch: seq<Watcher>, e: Events)
      requires Valid() && forall w :: w in batch ==> 0 <= w.AbsPri() < NUMPRI
      ensures FedFrom(batch, |batch|, e, Pendings(batch), FedOf(batch), Lengths(pendings))
    {
    }

    // feed_reverse_done: feeds a batch from its end, so that of two new entries the earlier of the batch is on top.
    method FeedReverseDone(batch: seq<Watcher>, e: Events)
      requires Valid() && forall w :: w in batch ==> w in known && 0 <= w.AbsPri() < NUMPRI
      requires forall i, j :: 0 <= i < j < |batch| ==> batch[i] != batch[j]
      modifies this`pendings, this`pendingpri, this`trace, (set w | w in batch)`pending, (set w | w in batch)`fed
      ensures Valid() && FedFrom(batch, 0, e, old(Pendings(batch)), old(FedOf(batch)), old(Lengths(pendings)))
      ensures FeedsOnly(old(trace), trace, batch, e)
    {
      hide Valid, FedFrom, Pendings, FedOf, Lengths;
      NoneFed(batch, e);
      ghost var p0, f0, len0 := Pendings(batch), FedOf(batch), Lengths(pendings);
      var n := |batch|;
      while n > 0
        invariant 0 <= n <= |batch| && Valid() && FedFrom(batch, n, e, p0, f0, len0)
        invariant FeedsOnly(old(trace), trace, batch, e)
      {
        n := n - 1;
        FeedNext(batch[n], batch, n, e, p0, f0, len0);
      }
    }

    // What the trace says of the invocation of the top entry.
    ghost function Invoking(): Invocation
      reads this`pendings, this`pendingpri, known`fed, pendingW`fed
      requires 0 <= pendingpri < |pendings| && pendings[pendingpri] != []
      requires var w := pendings[pendingpri][|pendings[pendingpri]| - 1].w; w in known || w == pendingW
    {
      var e := pendings[pendingpri][|pendings[pendingpri]| - 1];
      Invocation(e.w, e.events, pendingpri, e.w.fed, Lengths(pendings))
    }

    lemma TopInvocation()
      requires Valid() && pendingpri < NUMPRI && pendings[pendingpri] != []
      ensures var w := pendings[pendingpri][|pendings[pendingpri]| - 1].w; w in known || w == pendingW
      ensures StepOk(trace, Invoked(Invoking()), pendingW)
      ensures var e := pendings[pendingpri][|pendings[pendingpri]| - 1];
              Invoking().w == e.w && Invoking().events == e.events
    {
      var w := pendings[pendingpri][|pendings[pendingpri]| - 1].w;
      assert SlotOk(pendingpri, |pendings[pendingpri]| - 1);
      assert w != pendingW ==> Linked(w);
    }

    // Takes the last entry of queue p and marks its watcher not pending.
    method DropTop(p: int) returns (e: Entry)
      requires Coherent() && 0 <= p < NUMPRI && pendings[p] != []
      modifies this`pendings, known`pending, known`fed, pendingW`pending
      ensures Coherent() && e == old(pendings[p][|pendings[p]| - 1])
      ensures pendings == old(pendings)[p := old(pendings[p][..|pendings[p]| - 1])]
      ensures forall w :: w in known ==> w.fed == if w == e.w then [] else old(w.fed)
    {
      ghost var j := |pendings[p]| - 1;
      assert SlotOk(p, j);
      e := pendings[p][|pendings[p]| - 1];
      pendings := pendings[p := pendings[p][..|pendings[p]| - 1]];
      e.w.pending := 0;
      if e.w != pendingW { e.w.fed := []; }
      forall q, i | 0 <= q < NUMPRI && 0 <= i < |pendings[q]| ensures SlotOk(q, i) {
        assert old(SlotOk(q, i)) && old(SlotOk(p, j));
      }
      forall x | x in known ensures Linked(x) {
        assert old(Linked(x));
      }
    }

    // The head of every invocation.
    method PopEntry() returns (e: Entry)
      requires Valid() && pendingpri < NUMPRI && pendings[pendingpri] != []
      modifies this`pendings, this`trace, known`pending, known`fed, pendingW`pending
      ensures Valid() && e == old(pendings[pendingpri][|pendings[pendingpri]| - 1])
      ensures pendings == old(pendings)[pendingpri := old(pendings[pendingpri][..|pendings[pendingpri]| - 1])]
      ensures |trace| == old(|trace|) + 1 && trace == old(trace) + [trace[old(|trace|)]] && trace[old(|trace|)].Invoked?
      ensures trace[old(|trace|)].i.w == e.w && trace[old(|trace|)].i.events == e.events
    {
      hide Coherent, InvocationOk, History, Owed, StepOk, Invoking;
      TopInvocation();
      ghost var step := Invoked(Invoking());
      Appending(step);
      trace := trace + [step];
      e := DropTop(pendingpri);
    }
  }
}

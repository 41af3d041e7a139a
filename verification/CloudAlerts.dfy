/** The hand-off of the pending alert among the message thread, the upload threads and the timeout thread. */
module CloudAlerts {
  import opened Options

  // A thread that handles an image: it takes the alert under the lock, and sends it without.
  datatype Taker = Idle | Holding(alert: nat)

  // The timeout thread sends and clears the alert under the lock; an exception ends it.
  datatype Checker = Asleep | Sending(alert: nat) | Clearing(alert: nat) | Dead

  datatype Outcome = Done | Raised

  // Where an alert is, or has ended: Lost was taken but sending it raised an exception, Overwritten was replaced by a
  // later alert before anyone took it.
  datatype Place = Pending | Taken(who: nat) | Sent | Lost | Overwritten

  datatype Tally = Tally(pending: nat, taken: nat, sent: nat, lost: nat, overwritten: nat) {
    function Plus(p: Place): Tally {
      match p
      case Pending => this.(pending := pending + 1)
      case Taken(_) => this.(taken := taken + 1)
      case Sent => this.(sent := sent + 1)
      case Lost => this.(lost := lost + 1)
      case Overwritten => this.(overwritten := overwritten + 1)
    }

    function Total(): nat {
      pending + taken + sent + lost + overwritten
    }
  }

  function Count(places: seq<Place>): Tally {
    if places == [] then Tally(0, 0, 0, 0, 0) else Count(places[..|places| - 1]).Plus(places[|places| - 1])
  }

  lemma {:induction false} CountIsTotal(places: seq<Place>)
    ensures Count(places).Total() == |places|
  {
    if places != [] { CountIsTotal(places[..|places| - 1]); }
  }

  lemma CountAppend(places: seq<Place>, p: Place)
    ensures Count(places + [p]) == Count(places).Plus(p)
  {
    assert (places + [p])[..|places|] == places;
  }

  lemma PlusCommutes(t: Tally, p: Place, q: Place)
    ensures t.Plus(p).Plus(q) == t.Plus(q).Plus(p)
  {
  }

  // An alert that moves leaves one count and enters another.
  lemma {:induction false} CountMove(places: seq<Place>, id: nat, p: Place)
    requires id < |places|
    ensures Count(places[id := p]).Plus(places[id]) == Count(places).Plus(p)
  {
    var n := |places| - 1;
    var moved := places[id := p];
    if id == n {
      assert moved[..n] == places[..n];
    } else {
      CountMove(places[..n], id, p);
      PlusCommutes(Count(moved[..n]), places[n], places[id]);
      PlusCommutes(Count(places[..n]), places[n], p);
      assert moved[..n] == places[..n][id := p];
    }
  }

  class HandOff {
    var pending: Option<nat>        // pending_alert; alerts are numbered in the order of their arrival
    var locked: bool                // pending_lock, where a thread keeps it for more than one step
    var checker: Checker
    var takers: seq<Taker>
    var received: nat               // how many have arrived
    var sent: seq<nat>              // what has been sent
    ghost var places: seq<Place>    // where each alert received is

    ghost predicate PendingOk()
      reads this`pending, this`checker, this`places
    {
      && (pending.Some? && !checker.Clearing? ==> pending.value < |places| && places[pending.value] == Pending)
      && (forall id :: 0 <= id < |places| && places[id] == Pending ==> pending == Some(id) && !checker.Clearing?)
    }

    ghost predicate TakersOk()
      reads this`takers, this`places
    {
      && (forall w :: 0 <= w < |takers| && takers[w].Holding? ==>
            takers[w].alert < |places| && places[takers[w].alert] == Taken(w))
      && (forall id :: 0 <= id < |places| && places[id].Taken? ==>
            places[id].who < |takers| && takers[places[id].who] == Holding(id))
    }

    // Nothing is sent twice.
    ghost predicate SentOk()
      reads this`sent, this`places
    {
      && (forall i :: 0 <= i < |sent| ==> sent[i] < |places| && places[sent[i]] == Sent)
      && (forall i, j :: 0 <= i < j < |sent| ==> sent[i] != sent[j])
      && |sent| == Count(places).sent
    }

    ghost predicate LockOk()
      reads this`locked, this`checker, this`pending
    {
      && (locked <==> checker.Sending? || checker.Clearing?)
      && (checker.Sending? || checker.Clearing? ==> pending == Some(checker.alert))
    }

    ghost predicate Valid()
      reads this
    {
      received == |places| && PendingOk() && TakersOk() && SentOk() && LockOk()
    }

    constructor (threads: nat)
      ensures Valid() && places == [] && sent == [] && |takers| == threads && pending == None
    {
      pending, locked, checker, received, sent, places := None, false, Asleep, 0, [], [];
      takers := seq(threads, _ => Idle);
    }

    // handle_alert
    method Receive()
      requires Valid() && !locked
      modifies this`pending, this`received, this`places
      ensures Valid() && pending == Some(old(received)) && received == old(received) + 1
      ensures places == (if old(pending).Some? then old(places)[old(pending).value := Overwritten] else old(places))
              + [Pending]
    {
      hide Count;
      if pending.Some? {
        CountMove(places, pending.value, Overwritten);
        places := places[pending.value := Overwritten];
      }
      CountAppend(places, Pending);
      places := places + [Pending];
      pending, received := Some(received), received + 1;
    }

    // The locked part of do_POST, handle_image_uploaded and handle_image_upload
    method Take(who: nat)
      requires Valid() && !locked && who < |takers| && takers[who].Idle?
      modifies this`pending, this`takers, this`places
      ensures Valid() && pending == None
      ensures takers == if old(pending).Some? then old(takers)[who := Holding(old(pending).value)] else old(takers)
      ensures places == if old(pending).Some? then old(places)[old(pending).value := Taken(who)] else old(places)
    {
      hide Count;
      if pending.Some? {
        CountMove(places, pending.value, Taken(who));
        places := places[pending.value := Taken(who)];
        takers := takers[who := Holding(pending.value)];
        pending := None;
      }
    }

    // What follows: the taker sends its alert, or an exception stops it.
    method Send(who: nat, outcome: Outcome)
      requires Valid() && who < |takers| && takers[who].Holding?
      modifies this`takers, this`sent, this`places
      ensures Valid() && takers == old(takers)[who := Idle]
      ensures sent == old(sent) + if outcome == Done then [old(takers)[who].alert] else []
      ensures places == old(places)[old(takers)[who].alert := if outcome == Done then Sent else Lost]
    {
      hide Count;
      var alert := takers[who].alert;
      CountMove(places, alert, if outcome == Done then Sent else Lost);
      places := places[alert := if outcome == Done then Sent else Lost];
      if outcome == Done {
        sent := sent + [alert];
      }
      takers := takers[who := Idle];
    }

    // A look of check_pending: an alert that is overdue is sent under the lock. Looking for an image may raise.
    method Check(overdue: bool, outcome: Outcome)
      requires Valid() && !locked && checker.Asleep?
      modifies this`locked, this`checker
      ensures Valid()
      ensures checker == if pending.None? || !overdue then Asleep else if outcome == Raised then Dead
              else Sending(pending.value)
    {
      if pending.Some? && overdue {
        if outcome == Raised {
          checker := Dead;
        } else {
          locked, checker := true, Sending(pending.value);
        }
      }
    }

    // Sending may raise as well; then the alert stays pending, and the thread is gone.
    method CheckSend(outcome: Outcome)
      requires Valid() && checker.Sending?
      modifies this`locked, this`checker, this`sent, this`places
      ensures Valid()
      ensures outcome == Done ==> checker == Clearing(old(checker).alert) && sent == old(sent) + [old(checker).alert]
      ensures outcome == Done ==> places == old(places)[old(checker).alert := Sent]
      ensures outcome == Raised ==> checker == Dead && !locked && sent == old(sent) && places == old(places)
    {
      hide Count;
      if outcome == Done {
        var alert := checker.alert;
        CountMove(places, alert, Sent);
        places := places[alert := Sent];
        sent := sent + [alert];
        checker := Clearing(alert);
      } else {
        checker, locked := Dead, false;
      }
    }

    method CheckClear()
      requires Valid() && checker.Clearing?
      modifies this`pending, this`locked, this`checker
      ensures Valid() && pending == None && checker == Asleep && !locked
    {
      pending, checker, locked := None, Asleep, false;
    }

    // Each alert is sent at most once, and every alert received is accounted for.
    lemma Conserved()
      requires Valid()
      ensures forall i, j :: 0 <= i < j < |sent| ==> sent[i] != sent[j]
      ensures var c := Count(places);
              && received == |sent| + c.taken + c.lost + c.overwritten + c.pending
              && c.pending == if pending.Some? && !checker.Clearing? then 1 else 0
    {
      CountIsTotal(places);
      if pending.Some? && !checker.Clearing? {
        OnePending(places, pending.value);
      } else {
        NonePending(places);
      }
    }

    lemma {:induction false} NonePending(places: seq<Place>)
      requires Pending !in places
      ensures Count(places).pending == 0
    {
      if places != [] { NonePending(places[..|places| - 1]); }
    }

    lemma {:induction false} OnePending(places: seq<Place>, id: nat)
      requires id < |places| && places[id] == Pending
      requires forall k :: 0 <= k < |places| && k != id ==> places[k] != Pending
      ensures Count(places).pending == 1
    {
      var n := |places| - 1;
      if id == n {
        NonePending(places[..n]);
      } else {
        OnePending(places[..n], id);
      }
    }
  }
}

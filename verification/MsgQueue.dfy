/** The bounded message queue: a ring under a mutex, with senders and receivers asleep on two condition variables. */
module MsgQueue {
  import opened Rings

  const DEFAULT_CAPACITY := 32
  const TWO_32 := 0x1_0000_0000

  datatype Message<P> = Message(id: nat, payload: P)

  // The id of message number i: the ids start at one, and wrap around.
  function Id(i: nat): nat {
    (i + 1) % TWO_32
  }

  // No two of 2^32 messages in a row have the same id, and the first has id 1.
  lemma IdsDiffer(i: nat, j: nat)
    requires i < j < i + TWO_32
    ensures Id(i) != Id(j) && Id(0) == 1 && Id(i) < TWO_32
  {
  }

  lemma NextId(i: nat)
    ensures (Id(i) + 1) % TWO_32 == Id(i + 1)
  {
  }

  // How long a call is ready to wait, as the sign of timeout_ms says
  datatype Patience = Poll | Timed | Forever

  // A thread between two of its turns with the mutex. A signal picks one that is asleep; Awake is a spurious wake-up
  // and Expired a timeout, neither of which a signal can reach any more. A timeout may also come upon a thread that has
  // been signalled and has not run since: POSIX lets pthread_cond_timedwait consume the signal and report the timeout.
  datatype Thread<T> =
    | Out
    | Asleep(job: T, patience: Patience)
    | Signalled(job: T, patience: Patience)
    | Awake(job: T, patience: Patience)
    | Expired

  datatype Outcome = Ok | Error | Full | Empty | Timeout | Waiting

  predicate SomeAsleep<T>(threads: seq<Thread<T>>) {
    exists i :: 0 <= i < |threads| && threads[i].Asleep?
  }

  // How many have been signalled and have not run since
  function Roused<T>(threads: seq<Thread<T>>): nat {
    if threads == [] then 0 else Roused(threads[..|threads| - 1]) + if threads[|threads| - 1].Signalled? then 1 else 0
  }

  lemma {:induction false} RousedUpdate<T>(threads: seq<Thread<T>>, i: nat, t: Thread<T>)
    requires i < |threads|
    ensures Roused(threads[i := t]) ==
            Roused(threads) - (if threads[i].Signalled? then 1 else 0) + if t.Signalled? then 1 else 0
  {
    var n := |threads| - 1;
    if i == n {
      assert threads[i := t][..n] == threads[..n];
    } else {
      RousedUpdate(threads[..n], i, t);
      assert threads[i := t][..n] == threads[..n][i := t];
    }
  }

  lemma {:induction false} SomeRoused<T>(threads: seq<Thread<T>>)
    requires Roused(threads) > 0
    ensures exists i :: 0 <= i < |threads| && threads[i].Signalled?
  {
    var n := |threads| - 1;
    if threads[n].Signalled? {
    } else {
      SomeRoused(threads[..n]);
      var i :| 0 <= i < n && threads[..n][i].Signalled?;
      assert threads[i].Signalled?;
    }
  }

  // The choices open to pthread_cond_signal
  predicate MayPick<T>(threads: seq<Thread<T>>, pick: nat) {
    SomeAsleep(threads) ==> pick < |threads| && threads[pick].Asleep?
  }

  // One sleeper is signalled, if there is one, and goes on with its call when it runs.
  function Signal<T>(threads: seq<Thread<T>>, pick: nat): (r: seq<Thread<T>>)
    requires MayPick(threads, pick)
    ensures |r| == |threads|
    ensures forall i :: 0 <= i < |threads| && (i != pick || !SomeAsleep(threads)) ==> r[i] == threads[i]
    ensures SomeAsleep(threads) ==>
              && r[pick].Signalled?
              && r[pick].job == threads[pick].job && r[pick].patience == threads[pick].patience
  {
    if SomeAsleep(threads) then threads[pick := Signalled(threads[pick].job, threads[pick].patience)] else threads
  }

  // pthread_cond_broadcast: every sleeper is signalled, and nobody else.
  function Broadcast<T>(threads: seq<Thread<T>>): (r: seq<Thread<T>>)
    ensures |r| == |threads| && !SomeAsleep(r)
    ensures forall i :: 0 <= i < |threads| && !threads[i].Asleep? ==> r[i] == threads[i]
    ensures forall i :: 0 <= i < |threads| && threads[i].Asleep? ==>
              && r[i].Signalled? && r[i].job == threads[i].job && r[i].patience == threads[i].patience
  {
    seq(|threads|, i requires 0 <= i < |threads| =>
      if threads[i].Asleep? then Signalled(threads[i].job, threads[i].patience) else threads[i])
  }

  // If anyone sleeps unsignalled, all that there is to wait for is promised to threads that have been signalled.
  predicate NoneForgotten<T>(threads: seq<Thread<T>>, available: int) {
    SomeAsleep(threads) ==> available <= Roused(threads)
  }

  // One more is available, and one sleeper is signalled.
  lemma SignalKeeps<T>(threads: seq<Thread<T>>, pick: nat, available: int)
    requires NoneForgotten(threads, available) && MayPick(threads, pick)
    ensures NoneForgotten(Signal(threads, pick), available + 1)
  {
    if SomeAsleep(threads) {
      RousedUpdate(threads, pick, Signalled(threads[pick].job, threads[pick].patience));
    }
  }

  // A thread takes one and is out, or goes to sleep when there is none, or just goes.
  lemma TurnKeeps<T>(threads: seq<Thread<T>>, who: nat, t: Thread<T>, available: int, taken: nat)
    requires who < |threads| && !threads[who].Asleep? && NoneForgotten(threads, available)
    requires if t.Asleep? then available <= 0 && taken == 0
             else !t.Signalled? && (threads[who].Signalled? && available > 0 ==> taken == 1)
    ensures NoneForgotten(threads[who := t], available - taken)
  {
    RousedUpdate(threads, who, t);
    if SomeAsleep(threads[who := t]) && !t.Asleep? {
      var i :| 0 <= i < |threads| && threads[who := t][i].Asleep?;
      assert threads[i].Asleep?;
    }
  }

  lemma NotAsleepKept<T>(threads: seq<Thread<T>>, who: nat, t: Thread<T>)
    requires who < |threads|
    ensures !SomeAsleep(threads) && !t.Asleep? ==> !SomeAsleep(threads[who := t])
    ensures t.Asleep? ==> SomeAsleep(threads[who := t])
  {
    if SomeAsleep(threads[who := t]) && !t.Asleep? {
      var i :| 0 <= i < |threads| && threads[who := t][i].Asleep?;
      assert threads[i].Asleep?;
    }
    assert threads[who := t][who] == t;
  }

  // A sleeper wakes up without a signal.
  lemma DisturbKeeps<T>(threads: seq<Thread<T>>, who: nat, t: Thread<T>, available: int)
    requires who < |threads| && threads[who].Asleep? && !t.Asleep? && !t.Signalled? && NoneForgotten(threads, available)
    ensures NoneForgotten(threads[who := t], available)
  {
    RousedUpdate(threads, who, t);
  }

  // A signalled thread that expires instead takes its signal with it. That leaves someone forgotten exactly if someone
  // sleeps and the other signalled threads are too few for what is there.
  lemma ExpiryForgetsIff<T>(threads: seq<Thread<T>>, who: nat, available: int)
    requires who < |threads| && threads[who].Signalled? && NoneForgotten(threads, available)
    ensures NoneForgotten(threads[who := Expired], available) <==> !SomeAsleep(threads) || available < Roused(threads)
    ensures NoneForgotten(threads[who := Expired], available) <==> !Robs(threads, available)
  {
    RousedUpdate(threads, who, Expired);
    NotAsleepKept(threads, who, Expired);
    if i :| 0 <= i < |threads| && threads[i].Asleep? {
      assert threads[who := Expired][i].Asleep?;
    }
  }

  lemma ExpiryKeeps<T>(threads: seq<Thread<T>>, who: nat, available: int, lost: nat)
    requires who < |threads| && threads[who].Signalled? && NoneForgotten(threads, available - lost)
    ensures NoneForgotten(threads[who := Expired], available - (lost + if Robs(threads, available) then 1 else 0))
  {
    RousedUpdate(threads, who, Expired);
    NotAsleepKept(threads, who, Expired);
  }

  // Whether a signalled thread that expires now leaves someone forgotten
  predicate Robs<T>(threads: seq<Thread<T>>, available: int) {
    SomeAsleep(threads) && available >= Roused(threads)
  }

  class Queue<P(0)> {
    const messages: array<Message<P>>
    var count: nat
    var head: nat
    var tail: nat
    var nextId: nat                       // 32 bits
    var closed: bool
    var senders: seq<Thread<P>>
    var receivers: seq<Thread<()>>
    ghost var enqueued: seq<Message<P>>
    ghost var received: seq<Message<P>>
    ghost var lostMessages: nat           // signals to receivers that an expiry took from sleepers who needed them
    ghost var lostRooms: nat              // likewise for senders

    ghost predicate Ring()
      reads this`count, this`head, this`tail
    {
      0 < messages.Length && count <= messages.Length && head < messages.Length
        && tail == Wrapped(head + count, messages.Length)
    }

    // What is queued, the oldest first
    ghost function Contents(): seq<Message<P>>
      requires Ring()
      reads this`count, this`head, this`tail, messages
    {
      Unrolled(messages[..], head, count)
    }

    // Messages come out in the order in which they went in, and their ids count up.
    ghost predicate Fifo()
      requires Ring()
      reads this`count, this`head, this`tail, this`nextId, this`enqueued, this`received, messages
    {
      && received + Contents() == enqueued
      && nextId == Id(|enqueued|)
      && forall i :: 0 <= i < |enqueued| ==> enqueued[i].id == Id(i)
    }

    ghost predicate Awaited()
      reads this
    {
      && NoneForgotten(receivers, count - lostMessages)
      && NoneForgotten(senders, messages.Length - count - lostRooms)
      && (closed ==> !SomeAsleep(receivers) && !SomeAsleep(senders))
    }

    ghost predicate Valid()
      reads this, messages
    {
      Ring() && Fifo() && Awaited()
    }

    // msgq_create
    constructor (capacity: int, senders: nat, receivers: nat)
      ensures Valid() && fresh(messages) && messages.Length == (if capacity <= 0 then DEFAULT_CAPACITY else capacity)
      ensures Contents() == [] && !closed && lostMessages == lostRooms == 0
      ensures this.senders == seq(senders, _ => Out) && this.receivers == seq(receivers, _ => Out)
    {
      messages := new Message<P>[if capacity <= 0 then DEFAULT_CAPACITY else capacity];
      count, head, tail, nextId, closed, enqueued, received := 0, 0, 0, 1, false, [], [];
      lostMessages, lostRooms := 0, 0;
      this.senders, this.receivers := seq(senders, _ => Out), seq(receivers, _ => Out);
    }

    // The turn of a sender that finds room
    method Enqueue(payload: P)
      requires Ring() && Fifo() && count < messages.Length
      modifies this`count, this`tail, this`nextId, this`enqueued, messages
      ensures Ring() && Fifo() && count == old(count) + 1
      ensures Contents() == old(Contents()) + [Message(old(nextId), payload)]
      ensures enqueued == old(enqueued) + [Message(old(nextId), payload)]
    {
      hide Unrolled, Id;
      NextId(|enqueued|);
      Wraps(tail + 1, messages.Length);
      ghost var m := Message(nextId, payload);
      UnrolledPush(messages[..], head, count, m);
      messages[tail] := Message(nextId, payload);
      assert messages[..] == old(messages[..])[tail := m];
      nextId := (nextId + 1) % TWO_32;
      tail := (tail + 1) % messages.Length;
      count := count + 1;
      enqueued := enqueued + [m];
    }

    // The turn of a receiver that finds a message
    method Dequeue() returns (m: Message<P>)
      requires Ring() && Fifo() && count > 0
      modifies this`count, this`head, this`received
      ensures Ring() && Fifo() && count == old(count) - 1 && received == old(received) + [m]
      ensures [m] + Contents() == old(Contents())
    {
      hide Unrolled, Id;
      Wraps(head + 1, messages.Length);
      UnrolledPop(messages[..], head, count);
      m := messages[head];
      head := (head + 1) % messages.Length;
      count := count - 1;
      received := received + [m];
    }
  
    // The turn of a sender in the loop of msgq_send, from having the mutex to giving it up; `pick` is whom it signals.
    method SendTurn(who: nat, payload: P, patience: Patience, pick: nat) returns (r: Outcome)
      requires Valid() && who < |senders| && !senders[who].Asleep? && MayPick(receivers, pick)
      modifies this`count, this`tail, this`nextId, this`enqueued, this`senders, this`receivers, messages
      ensures Valid()
      ensures r == if old(count) < messages.Length then Ok else if closed then Error else if patience == Poll then Full
              else Waiting
      ensures Contents() == old(Contents()) + if r == Ok then [Message(old(nextId), payload)] else []
      ensures enqueued == old(enqueued) + if r == Ok then [Message(old(nextId), payload)] else []
      ensures receivers == if r == Ok then Signal(old(receivers), pick) else old(receivers)
      ensures senders == old(senders)[who := if r == Waiting then Asleep(payload, patience) else Out]
    {
      hide Fifo, NoneForgotten, Roused;
      ghost var room := messages.Length - count - lostRooms;
      if count >= messages.Length {
        r := if closed then Error else if patience == Poll then Full else Waiting;
        var t := if r == Waiting then Asleep(payload, patience) else Out;
        TurnKeeps(senders, who, t, room, 0);
        NotAsleepKept(senders, who, t);
        senders := senders[who := t];
      } else {
        TurnKeeps(senders, who, Out, room, 1);
        NotAsleepKept(senders, who, Out);
        SignalKeeps(receivers, pick, count - lostMessages);
        Enqueue(payload);
        receivers, senders := Signal(receivers, pick), senders[who := Out];
        r := Ok;
      }
    }

    // msgq_send; a call that has to wait goes on with ResumeSend or ExpireSend.
    method Send(who: nat, payload: P, patience: Patience, pick: nat) returns (r: Outcome)
      requires Valid() && who < |senders| && senders[who].Out? && MayPick(receivers, pick)
      modifies this`count, this`tail, this`nextId, this`enqueued, this`senders, this`receivers, messages
      ensures Valid()
      ensures r == if closed then Error else if old(count) < messages.Length then Ok else if patience == Poll then Full
              else Waiting
      ensures Contents() == old(Contents()) + if r == Ok then [Message(old(nextId), payload)] else []
      ensures senders == old(senders)[who := if r == Waiting then Asleep(payload, patience) else Out]
      ensures receivers == if r == Ok then Signal(old(receivers), pick) else old(receivers)
    {
      if closed {
        return Error;
      }
      r := SendTurn(who, payload, patience, pick);
    }

    method ResumeSend(who: nat, pick: nat) returns (r: Outcome)
      requires Valid() && who < |senders| && (senders[who].Signalled? || senders[who].Awake?)
               && MayPick(receivers, pick)
      modifies this`count, this`tail, this`nextId, this`enqueued, this`senders, this`receivers, messages
      ensures Valid()
      ensures var patience := old(senders[who].patience);
              && r == (if old(count) < messages.Length then Ok else if closed then Error
                       else if patience == Poll then Full else Waiting)
              && senders ==
                 old(senders)[who := if r == Waiting then Asleep(old(senders[who].job), patience) else Out]
      ensures Contents() == old(Contents()) + if r == Ok then [Message(old(nextId), old(senders[who].job))] else []
      ensures receivers == if r == Ok then Signal(old(receivers), pick) else old(receivers)
    {
      r := SendTurn(who, senders[who].job, senders[who].patience, pick);
    }

    // The turn of a receiver in the loop of msgq_receive
    method ReceiveTurn(who: nat, patience: Patience, pick: nat) returns (r: Outcome, ghost got: seq<Message<P>>)
      requires Valid() && who < |receivers| && !receivers[who].Asleep? && MayPick(senders, pick)
      modifies this`count, this`head, this`received, this`senders, this`receivers
      ensures Valid()
      ensures r == if old(count) > 0 then Ok else if closed then Error else if patience == Poll then Empty else Waiting
      ensures |got| == (if r == Ok then 1 else 0) && got + Contents() == old(Contents())
              && received == old(received) + got
      ensures senders == if r == Ok then Signal(old(senders), pick) else old(senders)
      ensures receivers == old(receivers)[who := if r == Waiting then Asleep((), patience) else Out]
    {
      hide Fifo, NoneForgotten, Roused;
      if count == 0 {
        r, got := if closed then Error else if patience == Poll then Empty else Waiting, [];
        var t := if r == Waiting then Asleep((), patience) else Out;
        TurnKeeps(receivers, who, t, count - lostMessages, 0);
        NotAsleepKept(receivers, who, t);
        receivers := receivers[who := t];
      } else {
        TurnKeeps(receivers, who, Out, count - lostMessages, 1);
        NotAsleepKept(receivers, who, Out);
        SignalKeeps(senders, pick, messages.Length - count - lostRooms);
        var m := Dequeue();
        senders, receivers := Signal(senders, pick), receivers[who := Out];
        r, got := Ok, [m];
      }
    }
  
    // msgq_receive
    method Receive(who: nat, patience: Patience, pick: nat) returns (r: Outcome, ghost got: seq<Message<P>>)
      requires Valid() && who < |receivers| && receivers[who].Out? && MayPick(senders, pick)
      modifies this`count, this`head, this`received, this`senders, this`receivers
      ensures Valid()
      ensures r == if old(count) > 0 then Ok else if closed then Error else if patience == Poll then Empty else Waiting
      ensures |got| == (if r == Ok then 1 else 0) && got + Contents() == old(Contents())
              && received == old(received) + got
      ensures receivers == old(receivers)[who := if r == Waiting then Asleep((), patience) else Out]
      ensures senders == if r == Ok then Signal(old(senders), pick) else old(senders)
    {
      if closed && count == 0 {
        assert receivers == receivers[who := Out];
        return Error, [];
      }
      r, got := ReceiveTurn(who, patience, pick);
    }

    method ResumeReceive(who: nat, pick: nat) returns (r: Outcome, ghost got: seq<Message<P>>)
      requires Valid() && who < |receivers| && (receivers[who].Signalled? || receivers[who].Awake?)
               && MayPick(senders, pick)
      modifies this`count, this`head, this`received, this`senders, this`receivers
      ensures Valid()
      ensures var patience := old(receivers[who].patience);
              && r == (if old(count) > 0 then Ok else if closed then Error
                       else if patience == Poll then Empty else Waiting)
              && receivers == old(receivers)[who := if r == Waiting then Asleep((), patience) else Out]
      ensures |got| == (if r == Ok then 1 else 0) && got + Contents() == old(Contents())
              && received == old(received) + got
      ensures senders == if r == Ok then Signal(old(senders), pick) else old(senders)
    {
      r, got := ReceiveTurn(who, receivers[who].patience, pick);
    }

    // A sender wakes up for no reason, or because its time is up; then it has no claim to a signal.
    method DisturbSender(who: nat, expired: bool)
      requires Valid() && who < |senders| && senders[who].Asleep? && (expired ==> senders[who].patience == Timed)
      modifies this`senders
      ensures Valid()
      ensures senders == old(senders)[who := if expired then Expired
              else Awake(old(senders[who].job), old(senders[who].patience))]
    {
      hide Fifo;
      var t := if expired then Expired else Awake(senders[who].job, senders[who].patience);
      DisturbKeeps(senders, who, t, messages.Length - count - lostRooms);
      NotAsleepKept(senders, who, t);
      senders := senders[who := t];
    }

    method DisturbReceiver(who: nat, expired: bool)
      requires Valid() && who < |receivers| && receivers[who].Asleep? && (expired ==> receivers[who].patience == Timed)
      modifies this`receivers
      ensures Valid()
      ensures receivers == old(receivers)[who := if expired then Expired else Awake((), old(receivers[who].patience))]
    {
      hide Fifo;
      var t := if expired then Expired else Awake((), receivers[who].patience);
      DisturbKeeps(receivers, who, t, count - lostMessages);
      NotAsleepKept(receivers, who, t);
      receivers := receivers[who := t];
    }

    // The time of a signalled sender is up before it runs, and its signal is lost.
    method ExpireSignalledSender(who: nat)
      requires Valid() && who < |senders| && senders[who].Signalled? && senders[who].patience == Timed
      modifies this`senders, this`lostRooms
      ensures Valid() && senders == old(senders)[who := Expired]
      ensures lostRooms == old(lostRooms) + if Robs(old(senders), messages.Length - count) then 1 else 0
    {
      hide Fifo;
      ExpiryKeeps(senders, who, messages.Length - count, lostRooms);
      NotAsleepKept(senders, who, Expired);
      lostRooms := lostRooms + if Robs(senders, messages.Length - count) then 1 else 0;
      senders := senders[who := Expired];
    }

    method ExpireSignalledReceiver(who: nat)
      requires Valid() && who < |receivers| && receivers[who].Signalled? && receivers[who].patience == Timed
      modifies this`receivers, this`lostMessages
      ensures Valid() && receivers == old(receivers)[who := Expired]
      ensures lostMessages == old(lostMessages) + if Robs(old(receivers), count) then 1 else 0
    {
      hide Fifo;
      ExpiryKeeps(receivers, who, count, lostMessages);
      NotAsleepKept(receivers, who, Expired);
      lostMessages := lostMessages + if Robs(receivers, count) then 1 else 0;
      receivers := receivers[who := Expired];
    }

    // A call whose time is up returns so, whatever has happened in the meantime.
    method ExpireSend(who: nat) returns (r: Outcome)
      requires Valid() && who < |senders| && senders[who].Expired?
      modifies this`senders
      ensures Valid() && r == Timeout && senders == old(senders)[who := Out]
    {
      hide Fifo;
      TurnKeeps(senders, who, Out, messages.Length - count - lostRooms, 0);
      NotAsleepKept(senders, who, Out);
      senders := senders[who := Out];
      r := Timeout;
    }

    method ExpireReceive(who: nat) returns (r: Outcome)
      requires Valid() && who < |receivers| && receivers[who].Expired?
      modifies this`receivers
      ensures Valid() && r == Timeout && receivers == old(receivers)[who := Out]
    {
      hide Fifo;
      TurnKeeps(receivers, who, Out, count - lostMessages, 0);
      NotAsleepKept(receivers, who, Out);
      receivers := receivers[who := Out];
      r := Timeout;
    }

    // msgq_close
    method Close()
      requires Valid()
      modifies this`closed, this`senders, this`receivers
      ensures Valid() && closed && senders == Broadcast(old(senders)) && receivers == Broadcast(old(receivers))
    {
      hide Fifo;
      closed := true;
      senders, receivers := Broadcast(senders), Broadcast(receivers);
    }

    // Nobody waits in vain unless a timeout has taken a signal from a sleeper who needed it: a receiver sleeps over a
    // queued message, or a sender over free room, only while another has been signalled to come for it.
    lemma NobodyWaitsInVain()
      requires Valid()
      ensures lostMessages == 0 && SomeAsleep(receivers) && count > 0 ==>
                exists i :: 0 <= i < |receivers| && receivers[i].Signalled?
      ensures lostRooms == 0 && SomeAsleep(senders) && count < messages.Length ==>
                exists i :: 0 <= i < |senders| && senders[i].Signalled?
      ensures lostMessages == 0 == lostRooms && SomeAsleep(receivers) && SomeAsleep(senders) ==>
                || (exists i :: 0 <= i < |receivers| && receivers[i].Signalled?)
                || (exists i :: 0 <= i < |senders| && senders[i].Signalled?)
    {
      if Roused(receivers) > 0 { SomeRoused(receivers); }
      if Roused(senders) > 0 { SomeRoused(senders); }
    }
  }

  // Two receivers wait, the second with a timeout.
  method TwoWait<P(0)>() returns (q: Queue<P>)
    ensures fresh(q) && fresh(q.messages) && q.Valid() && q.count == 0 && !q.closed && q.messages.Length == 1
    ensures q.receivers == [Asleep((), Forever), Asleep((), Timed)] && q.senders == [Out]
  {
    hide Queue.Fifo, Queue.Awaited, Unrolled;
    q := new Queue<P>(1, 1, 2);
    assert q.receivers == [Out, Out] && q.senders == [Out];
    var r, got := q.Receive(0, Forever, 0);
    assert q.receivers == [Asleep((), Forever), Out] && q.senders == [Out];
    r, got := q.Receive(1, Timed, 0);
    assert q.receivers == [Asleep((), Forever), Asleep((), Timed)] && q.senders == [Out];
  }

  // A message is sent, the signal goes to the second receiver, and its time is up before it runs: the first sleeps over
  // the message with nobody signalled.
  method TimeoutTakesSignal<P(0)>(payload: P) returns (q: Queue<P>)
    ensures fresh(q) && q.Valid() && q.count == 1 && !NoneForgotten(q.receivers, q.count)
    ensures forall i :: 0 <= i < |q.receivers| ==> !q.receivers[i].Signalled?
  {
    hide Queue.Fifo, Queue.Awaited, Unrolled, NoneForgotten;
    q := TwoWait<P>();
    assert q.receivers[1].Asleep?;
    var r := q.Send(0, payload, Poll, 1);
    assert q.receivers == [Asleep((), Forever), Signalled((), Timed)];
    q.ExpireSignalledReceiver(1);
    assert q.receivers == [Asleep((), Forever), Expired];
    AllForgotten(q.receivers, 0, q.count);
  }

  lemma AllForgotten<T>(threads: seq<Thread<T>>, i: nat, available: int)
    requires i < |threads| && threads[i].Asleep? && available > 0
    requires forall k :: 0 <= k < |threads| ==> !threads[k].Signalled?
    ensures !NoneForgotten(threads, available)
  {
    NobodyRoused(threads);
  }

  lemma {:induction false} NobodyRoused<T>(threads: seq<Thread<T>>)
    requires forall i :: 0 <= i < |threads| ==> !threads[i].Signalled?
    ensures Roused(threads) == 0
  {
    if threads != [] { NobodyRoused(threads[..|threads| - 1]); }
  }
}

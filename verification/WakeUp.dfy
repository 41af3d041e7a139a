/** The wake-up protocol between the loop and senders in other threads or signal handlers, one shared access a step. */
module WakeUp {
  // What a sender marks: asyncs[n]->sent, or signals[n].pending.
  datatype Target = Target(async: bool, n: nat)

  // A sender is at the access it will make next: ev_async_send or ev_feed_signal, then evpipe_write.
  datatype SenderPc =
    | Idle
    | Mark(t: Target)
    | TestFlag(t: Target)
    | SetFlag(t: Target)
    | SetSkipped(t: Target)
    | TestWanted(t: Target)
    | ClearSkipped(t: Target)
    | Write(t: Target)

  // Likewise the loop: ev_run from asking for wake-ups to blocking, and pipecb, which sees to signals, then asyncs.
  datatype LoopPc =
    | Running
    | TestSkipped
    | Polling(block: bool)
    | Polled(ready: bool)
    | Unwanted(ready: bool)
    | Callback(read: bool)
    | ReadPipe
    | ResetSkipped
    | Test(async: bool)
    | Clear(async: bool)
    | Scan(async: bool, i: nat)
    | Feed(async: bool, i: nat)

  datatype Memory = Memory(
    wanted: bool,         // pipe_write_wanted
    skipped: bool,        // pipe_write_skipped
    sigPending: bool,
    asyncPending: bool,
    marks: set<Target>,   // the sent and pending fields that are set
    pipe: nat)            // bytes in the pipe
  {
    // The flag that senders of this kind set.
    predicate Flag(async: bool) {
      if async then asyncPending else sigPending
    }

    function WithFlag(async: bool, v: bool): Memory {
      if async then this.(asyncPending := v) else this.(sigPending := v)
    }
  }

  datatype State = State(m: Memory, loop: LoopPc, senders: seq<SenderPc>) {
    predicate Initial() {
      && m == Memory(false, false, false, false, {}, 0) && loop == Running
      && forall i :: 0 <= i < |senders| ==> senders[i].Idle?
    }
  }

  // The sizes of the two tables.
  datatype Sizes = Sizes(signals: nat, asyncs: nat) {
    function Of(async: bool): nat {
      if async then asyncs else signals
    }

    predicate Known(t: Target) {
      t.n < Of(t.async)
    }
  }

  // One access. `Call` starts a send; a full pipe drops the byte; the poll reports the pipe only if it has a byte,
  // and may return for other reasons; the read takes some of the bytes.
  datatype Step =
    | Call(who: nat, t: Target)
    | Send(who: nat, full: bool)
    | Loop(mayBlock: bool, ready: bool, taken: nat)

  predicate Enabled(z: Sizes, s: State, step: Step) {
    match step
    case Call(who, t) => who < |s.senders| && s.senders[who].Idle? && z.Known(t)
    case Send(who, full) => who < |s.senders| && !s.senders[who].Idle? && (full ==> s.m.pipe > 0)
    case Loop(_, ready, taken) => (ready ==> s.m.pipe > 0) && taken <= s.m.pipe
  }

  function SendStep(m: Memory, pc: SenderPc, full: bool): (Memory, SenderPc) {
    match pc
    case Idle => (m, Idle)
    case Mark(t) => (m.(marks := m.marks + {t}), TestFlag(t))
    case TestFlag(t) => (m, if m.Flag(t.async) then Idle else SetFlag(t))
    case SetFlag(t) => (m.WithFlag(t.async, true), SetSkipped(t))
    case SetSkipped(t) => (m.(skipped := true), TestWanted(t))
    case TestWanted(t) => (m, if m.wanted then ClearSkipped(t) else Idle)
    case ClearSkipped(t) => (m.(skipped := false), Write(t))
    case Write(t) => (if full then m else m.(pipe := m.pipe + 1), Idle)
  }

  // ev_run, from asking for wake-ups to queueing pipecb.
  function RunStep(m: Memory, pc: LoopPc, mayBlock: bool, ready: bool): (Memory, LoopPc) {
    match pc
    case Running => (m.(wanted := true), TestSkipped)
    case TestSkipped => (m, Polling(mayBlock && !m.skipped))
    case Polling(_) => (m, Polled(ready))
    case Polled(r) => (m.(wanted := false), Unwanted(r))
    case Unwanted(r) => (m, if m.skipped || r then Callback(r) else Running)
    case _ => (m, pc)
  }

  function PipecbStep(z: Sizes, m: Memory, pc: LoopPc, taken: nat): (Memory, LoopPc)
    requires taken <= m.pipe
  {
    match pc
    case Callback(read) => (m, if read then ReadPipe else ResetSkipped)
    case ReadPipe => (m.(pipe := m.pipe - taken), ResetSkipped)
    case ResetSkipped => (m.(skipped := false), Test(false))
    case Test(async) => (m, if m.Flag(async) then Clear(async) else AfterScan(async))
    case Clear(async) => (m.WithFlag(async, false), Scan(async, z.Of(async)))
    case Scan(async, i) =>
      (m, if i == 0 then AfterScan(async)
          else if Target(async, i - 1) in m.marks then Feed(async, i - 1) else Scan(async, i - 1))
    case Feed(async, i) => (m.(marks := m.marks - {Target(async, i)}), Scan(async, i))
    case _ => (m, pc)
  }

  function AfterScan(async: bool): LoopPc {
    if async then Running else Test(true)
  }

  predicate InPipecb(pc: LoopPc) {
    !(pc.Running? || pc.TestSkipped? || pc.Polling? || pc.Polled? || pc.Unwanted?)
  }

  function Next(z: Sizes, s: State, step: Step): State
    requires Enabled(z, s, step)
  {
    match step
    case Call(who, t) => s.(senders := s.senders[who := Mark(t)])
    case Send(who, full) =>
      var r := SendStep(s.m, s.senders[who], full);
      State(r.0, s.loop, s.senders[who := r.1])
    case Loop(mayBlock, ready, taken) =>
      var r := if InPipecb(s.loop) then PipecbStep(z, s.m, s.loop, taken) else RunStep(s.m, s.loop, mayBlock, ready);
      State(r.0, r.1, s.senders)
  }

  // pipecb is on its way to test the flag of this kind, or to clear it.
  predicate WillTest(pc: LoopPc, async: bool) {
    match pc
    case Callback(_) => true
    case ReadPipe => true
    case ResetSkipped => true
    case Test(a) => async || !a
    case Clear(a) => async || !a
    case Scan(a, _) => async && !a
    case Feed(a, _) => async && !a
    case _ => false
  }

  // The scan of the marks will still reach t.
  predicate WillReach(pc: LoopPc, t: Target) {
    || (pc.Scan? && pc.async == t.async && t.n < pc.i)
    || (pc.Feed? && pc.async == t.async && t.n <= pc.i)
  }

  // This sender is sure to set pipe_write_skipped or to write.
  predicate Waking(pc: SenderPc) {
    pc.SetSkipped? || pc.ClearSkipped? || pc.Write?
  }

  // This sender is about to see to the flag of its kind.
  predicate Flagging(pc: SenderPc, async: bool) {
    (pc.TestFlag? || pc.SetFlag?) && pc.t.async == async
  }

  predicate SomeWaking(senders: seq<SenderPc>) {
    exists i :: 0 <= i < |senders| && Waking(senders[i])
  }

  predicate SomeAsking(senders: seq<SenderPc>) {
    exists i :: 0 <= i < |senders| && senders[i].TestWanted?
  }

  predicate SomeFlagging(senders: seq<SenderPc>, async: bool) {
    exists i :: 0 <= i < |senders| && Flagging(senders[i], async)
  }

  predicate WantsWhilePolling(m: Memory, pc: LoopPc) {
    pc == TestSkipped || pc.Polling? || pc.Polled? ==> m.wanted
  }

  // A set flag will be seen: there is a byte or a sender sure to cause one, or pipecb will look, or the loop has not
  // yet tested pipe_write_skipped, or the sender that set it since will find that a wake-up is wanted.
  predicate FlagCovered(m: Memory, pc: LoopPc, senders: seq<SenderPc>, async: bool) {
    m.Flag(async) ==>
      || m.pipe > 0
      || SomeWaking(senders)
      || WillTest(pc, async)
      || (m.skipped && (pc != Polling(true) || SomeAsking(senders)))
  }

  predicate MarkCovered(m: Memory, pc: LoopPc, senders: seq<SenderPc>, t: Target) {
    t in m.marks ==> m.Flag(t.async) || WillReach(pc, t) || SomeFlagging(senders, t.async)
  }

  ghost predicate Inv(z: Sizes, s: State) {
    && WantsWhilePolling(s.m, s.loop)
    && FlagCovered(s.m, s.loop, s.senders, false) && FlagCovered(s.m, s.loop, s.senders, true)
    && (forall t :: z.Known(t) ==> MarkCovered(s.m, s.loop, s.senders, t))
  }

  lemma InitialInv(z: Sizes, s: State)
    requires s.Initial()
    ensures Inv(z, s)
  {
  }

  // What replacing one sender does to the existential statements.
  lemma SendersUpdate(senders: seq<SenderPc>, who: nat, pc: SenderPc, async: bool)
    requires who < |senders|
    ensures var r := senders[who := pc];
            && (SomeWaking(senders) && !Waking(senders[who]) ==> SomeWaking(r)) && (Waking(pc) ==> SomeWaking(r))
            && (SomeAsking(senders) && !senders[who].TestWanted? ==> SomeAsking(r))
            && (pc.TestWanted? ==> SomeAsking(r))
            && (SomeFlagging(senders, async) && !Flagging(senders[who], async) ==> SomeFlagging(r, async))
            && (Flagging(pc, async) ==> SomeFlagging(r, async))
  {
    var r := senders[who := pc];
    assert r[who] == pc;
    assert forall i :: 0 <= i < |senders| && i != who ==> r[i] == senders[i];
  }

  lemma SendKeepsFlag(m: Memory, loop: LoopPc, senders: seq<SenderPc>, who: nat, full: bool, async: bool)
    requires WantsWhilePolling(m, loop) && FlagCovered(m, loop, senders, async)
    requires who < |senders| && !senders[who].Idle? && (full ==> m.pipe > 0)
    ensures var r := SendStep(m, senders[who], full);
            WantsWhilePolling(r.0, loop) && FlagCovered(r.0, loop, senders[who := r.1], async)
  {
    hide SomeWaking, SomeAsking, SomeFlagging, WillTest;
    SendersUpdate(senders, who, SendStep(m, senders[who], full).1, async);
  }

  lemma SendKeepsMark(m: Memory, loop: LoopPc, senders: seq<SenderPc>, who: nat, full: bool, u: Target)
    requires MarkCovered(m, loop, senders, u)
    requires who < |senders| && !senders[who].Idle?
    ensures var r := SendStep(m, senders[who], full); MarkCovered(r.0, loop, senders[who := r.1], u)
  {
    hide SomeWaking, SomeAsking, SomeFlagging, WillReach;
    SendersUpdate(senders, who, SendStep(m, senders[who], full).1, u.async);
  }

  lemma RunKeepsFlag(m: Memory, pc: LoopPc, senders: seq<SenderPc>, mayBlock: bool, ready: bool, async: bool)
    requires WantsWhilePolling(m, pc) && FlagCovered(m, pc, senders, async) && !InPipecb(pc) && (ready ==> m.pipe > 0)
    ensures var r := RunStep(m, pc, mayBlock, ready);
            WantsWhilePolling(r.0, r.1) && FlagCovered(r.0, r.1, senders, async)
  {
    hide SomeWaking, SomeAsking;
  }

  lemma PipecbKeepsFlag(z: Sizes, m: Memory, pc: LoopPc, senders: seq<SenderPc>, taken: nat, async: bool)
    requires taken <= m.pipe && FlagCovered(m, pc, senders, async) && InPipecb(pc)
    ensures var r := PipecbStep(z, m, pc, taken); WantsWhilePolling(r.0, r.1) && FlagCovered(r.0, r.1, senders, async)
  {
    hide SomeWaking, SomeAsking;
  }

  lemma RunKeepsMark(m: Memory, pc: LoopPc, senders: seq<SenderPc>, mayBlock: bool, ready: bool, u: Target)
    requires MarkCovered(m, pc, senders, u) && !InPipecb(pc)
    ensures var r := RunStep(m, pc, mayBlock, ready); MarkCovered(r.0, r.1, senders, u)
  {
    hide SomeFlagging;
  }

  lemma PipecbKeepsMark(z: Sizes, m: Memory, pc: LoopPc, senders: seq<SenderPc>, taken: nat, u: Target)
    requires taken <= m.pipe && MarkCovered(m, pc, senders, u) && InPipecb(pc) && z.Known(u)
    ensures var r := PipecbStep(z, m, pc, taken); MarkCovered(r.0, r.1, senders, u)
  {
    hide SomeFlagging;
  }

  lemma CallKeeps(z: Sizes, s: State, who: nat, t: Target)
    requires Inv(z, s) && Enabled(z, s, Call(who, t))
    ensures Inv(z, Next(z, s, Call(who, t)))
  {
    hide SomeWaking, SomeAsking, SomeFlagging, WillTest, WillReach, Memory.Flag;
    SendersUpdate(s.senders, who, Mark(t), true);
    SendersUpdate(s.senders, who, Mark(t), false);
    var r := Next(z, s, Call(who, t));
    forall u | z.Known(u) ensures MarkCovered(r.m, r.loop, r.senders, u) {
      assert MarkCovered(s.m, s.loop, s.senders, u);
    }
  }

  lemma NextKeeps(z: Sizes, s: State, step: Step)
    requires Inv(z, s) && Enabled(z, s, step)
    ensures Inv(z, Next(z, s, step))
  {
    hide WantsWhilePolling, FlagCovered, MarkCovered, RunStep, PipecbStep, SendStep;
    var r := Next(z, s, step);
    match step {
      case Call(who, t) => CallKeeps(z, s, who, t);
      case Send(who, full) =>
        SendKeepsFlag(s.m, s.loop, s.senders, who, full, false);
        SendKeepsFlag(s.m, s.loop, s.senders, who, full, true);
        forall u | z.Known(u) ensures MarkCovered(r.m, r.loop, r.senders, u) {
          SendKeepsMark(s.m, s.loop, s.senders, who, full, u);
        }
      case Loop(mayBlock, ready, taken) => LoopKeeps(z, s, mayBlock, ready, taken);
    }
  }

  lemma LoopKeeps(z: Sizes, s: State, mayBlock: bool, ready: bool, taken: nat)
    requires Inv(z, s) && Enabled(z, s, Loop(mayBlock, ready, taken))
    ensures Inv(z, Next(z, s, Loop(mayBlock, ready, taken)))
  {
    hide WantsWhilePolling, FlagCovered, MarkCovered, RunStep, PipecbStep, SendStep;
    var r := Next(z, s, Loop(mayBlock, ready, taken));
    if InPipecb(s.loop) {
      PipecbKeepsFlag(z, s.m, s.loop, s.senders, taken, false);
      PipecbKeepsFlag(z, s.m, s.loop, s.senders, taken, true);
      forall u | z.Known(u) ensures MarkCovered(r.m, r.loop, r.senders, u) {
        PipecbKeepsMark(z, s.m, s.loop, s.senders, taken, u);
      }
    } else {
      RunKeepsFlag(s.m, s.loop, s.senders, mayBlock, ready, false);
      RunKeepsFlag(s.m, s.loop, s.senders, mayBlock, ready, true);
      forall u | z.Known(u) ensures MarkCovered(r.m, r.loop, r.senders, u) {
        RunKeepsMark(s.m, s.loop, s.senders, mayBlock, ready, u);
      }
    }
  }

  // Any run from an initial state.
  ghost predicate IsRun(z: Sizes, states: seq<State>, steps: seq<Step>) {
    && |states| == |steps| + 1 && states[0].Initial()
    && forall i :: 0 <= i < |steps| ==> Enabled(z, states[i], steps[i]) && states[i + 1] == Next(z, states[i], steps[i])
  }

  lemma {:induction false} RunKeeps(z: Sizes, states: seq<State>, steps: seq<Step>, n: nat)
    requires IsRun(z, states, steps) && n < |states|
    ensures Inv(z, states[n])
  {
    if n == 0 {
      InitialInv(z, states[0]);
    } else {
      RunKeeps(z, states, steps, n - 1);
      NextKeeps(z, states[n - 1], steps[n - 1]);
    }
  }

  // No sender is between leaving its mark and the end of its call.
  predicate NobodyMidCall(senders: seq<SenderPc>) {
    forall i :: 0 <= i < |senders| ==> senders[i].Idle? || senders[i].Mark?
  }

  // No lost wake-up: when the loop blocks on an empty pipe and no sender is mid-call, nothing is pending.
  lemma NoLostWakeUp(z: Sizes, states: seq<State>, steps: seq<Step>, n: nat)
    requires IsRun(z, states, steps) && n < |states|
    requires states[n].loop == Polling(true) && states[n].m.pipe == 0 && NobodyMidCall(states[n].senders)
    ensures !states[n].m.sigPending && !states[n].m.asyncPending && forall t :: z.Known(t) ==> t !in states[n].m.marks
  {
    RunKeeps(z, states, steps, n);
    var s := states[n];
    forall t | z.Known(t) ensures t !in s.m.marks { assert MarkCovered(s.m, s.loop, s.senders, t); }
  }

  // How far the loop is from the end of its pass.
  function Left(z: Sizes, pc: LoopPc): nat {
    var scans := 2 * z.signals + 2 * z.asyncs;
    match pc
    case Scan(async, i) => 2 * i + if async then 0 else 2 * z.asyncs + 3
    case Feed(async, i) => 2 * i + 1 + if async then 0 else 2 * z.asyncs + 3
    case Clear(async) => if async then 2 * z.asyncs + 1 else scans + 4
    case Test(async) => if async then 2 * z.asyncs + 2 else scans + 5
    case ResetSkipped => scans + 6
    case ReadPipe => scans + 7
    case Callback(_) => scans + 8
    case Unwanted(_) => scans + 9
    case Polled(_) => scans + 10
    case Polling(_) => scans + 11
    case TestSkipped => scans + 12
    case Running => scans + 13
  }

  // This pass will not feed t: pipecb is past the test of its flag, or the poll missed the byte.
  predicate NextPass(m: Memory, pc: LoopPc, t: Target) {
    && !WillReach(pc, t)
    && !WillTest(pc, t.async)
    && (InPipecb(pc) || (!m.skipped && (pc == Polled(false) || pc == Unwanted(false))))
  }

  function StepsToFeed(z: Sizes, m: Memory, pc: LoopPc, t: Target): nat {
    Left(z, pc) + if NextPass(m, pc, t) then 2 * z.signals + 2 * z.asyncs + 14 else 0
  }

  // The senders are quiet, and t has been sent.
  ghost predicate Owed(z: Sizes, s: State, t: Target) {
    Inv(z, s) && NobodyMidCall(s.senders) && z.Known(t) && t in s.m.marks
  }

  // A blocked poll returns only for a readable pipe, and every poll reports one.
  predicate Honest(s: State, step: Step) {
    step.Loop? && s.loop.Polling? ==> step.ready == (s.m.pipe > 0) && (s.loop.block ==> step.ready)
  }

  predicate Alone(s: State, step: Step) {
    step.Loop? && Honest(s, step)
  }

  lemma OwedStep(z: Sizes, s: State, t: Target, step: Step)
    requires Owed(z, s, t) && s.loop != Feed(t.async, t.n) && Enabled(z, s, step) && Alone(s, step)
    ensures var r := Next(z, s, step);
            Owed(z, r, t) && StepsToFeed(z, r.m, r.loop, t) < StepsToFeed(z, s.m, s.loop, t)
  {
    NextKeeps(z, s, step);
    assert MarkCovered(s.m, s.loop, s.senders, t);
    assert !SomeWaking(s.senders) && !SomeAsking(s.senders) && !SomeFlagging(s.senders, t.async);
    if InPipecb(s.loop) {
      if Scanning(s.loop) {
        NearerInScan(z, s.m, s.loop, t, step.taken);
      } else {
        NearerBeforeScan(z, s.m, s.loop, t, step.taken);
      }
    } else {
      NearerInRun(z, s.m, s.loop, t, step.mayBlock, step.ready);
    }
  }

  predicate Scanning(pc: LoopPc) {
    pc.Scan? || pc.Feed?
  }

  lemma NearerInScan(z: Sizes, m: Memory, pc: LoopPc, t: Target, taken: nat)
    requires z.Known(t) && t in m.marks && pc != Feed(t.async, t.n) && Scanning(pc) && taken <= m.pipe
    requires m.Flag(t.async) || WillReach(pc, t)
    ensures var r := PipecbStep(z, m, pc, taken);
            t in r.0.marks && StepsToFeed(z, r.0, r.1, t) < StepsToFeed(z, m, pc, t)
  {
  }

  lemma NearerBeforeScan(z: Sizes, m: Memory, pc: LoopPc, t: Target, taken: nat)
    requires z.Known(t) && t in m.marks && InPipecb(pc) && !Scanning(pc) && taken <= m.pipe
    requires m.Flag(t.async)
    ensures var r := PipecbStep(z, m, pc, taken);
            t in r.0.marks && StepsToFeed(z, r.0, r.1, t) < StepsToFeed(z, m, pc, t)
  {
  }

  lemma NearerInRun(z: Sizes, m: Memory, pc: LoopPc, t: Target, mayBlock: bool, ready: bool)
    requires !InPipecb(pc) && (pc.Polling? ==> ready == (m.pipe > 0) && (pc.block ==> ready))
    requires m.pipe > 0 || m.skipped
    ensures var r := RunStep(m, pc, mayBlock, ready);
            r.0.marks == m.marks && StepsToFeed(z, r.0, r.1, t) < StepsToFeed(z, m, pc, t)
  {
  }

  // With a mark left and the senders quiet, the loop is free to step: it is not blocked on an empty pipe.
  lemma OwedIsNotBlocked(z: Sizes, s: State, t: Target)
    requires Owed(z, s, t)
    ensures exists step :: Enabled(z, s, step) && Alone(s, step)
  {
    assert MarkCovered(s.m, s.loop, s.senders, t) && FlagCovered(s.m, s.loop, s.senders, t.async);
    assert Enabled(z, s, Loop(false, s.m.pipe > 0, 0)) && Alone(s, Loop(false, s.m.pipe > 0, 0));
  }

  // And it feeds the event of every marked watcher or signal in a bounded number of its own steps, within two passes.
  lemma {:induction false} QuietSendIsFed(z: Sizes, states: seq<State>, steps: seq<Step>, t: Target)
    requires |states| == |steps| + 1 && Owed(z, states[0], t)
             && |steps| >= StepsToFeed(z, states[0].m, states[0].loop, t)
    requires forall i :: 0 <= i < |steps| ==>
               && Enabled(z, states[i], steps[i]) && Alone(states[i], steps[i])
               && states[i + 1] == Next(z, states[i], steps[i])
    ensures exists k :: 0 <= k < |states| && states[k].loop == Feed(t.async, t.n)
    decreases StepsToFeed(z, states[0].m, states[0].loop, t)
  {
    if states[0].loop != Feed(t.async, t.n) {
      if |steps| == 0 {
        OwedIsNotBlocked(z, states[0], t);
        var step :| Enabled(z, states[0], step) && Alone(states[0], step);
        OwedStep(z, states[0], t, step);
        assert false;
      } else {
        OwedStep(z, states[0], t, steps[0]);
        QuietSendIsFed(z, states[1..], steps[1..], t);
        var k :| 0 <= k < |states[1..]| && states[1..][k].loop == Feed(t.async, t.n);
        assert states[k + 1] == states[1..][k];
      }
    }
  }

  // t has been marked, and its flag is set or the scan is on its way; senders may be anywhere in their calls.
  ghost predicate Sent(z: Sizes, s: State, t: Target) {
    Inv(z, s) && z.Known(t) && t in s.m.marks && (s.m.Flag(t.async) || WillReach(s.loop, t))
  }

  // So it is once no sender is still to see to the flag.
  lemma MarkedIsSent(z: Sizes, s: State, t: Target)
    requires Inv(z, s) && z.Known(t) && t in s.m.marks && !SomeFlagging(s.senders, t.async)
    ensures Sent(z, s, t)
  {
    assert MarkCovered(s.m, s.loop, s.senders, t);
  }

  function Pass(z: Sizes): nat {
    2 * z.signals + 2 * z.asyncs + 14
  }

  // The steps of the loop until t is fed: this pass may miss the byte or be past the flag, but no byte is missed twice.
  function Budget(z: Sizes, m: Memory, pc: LoopPc, t: Target): nat {
    Left(z, pc) +
    if InPipecb(pc) then (if WillReach(pc, t) || WillTest(pc, t.async) then 0 else 2 * Pass(z))
    else if pc == Polled(true) || pc == Unwanted(true) then 0
    else if m.pipe > 0 && pc != Polled(false) && pc != Unwanted(false) then 0
    else Pass(z)
  }

  // A scan is somewhere in its table.
  predicate ScanInRange(z: Sizes, pc: LoopPc) {
    (pc.Scan? ==> pc.i <= z.Of(pc.async)) && (pc.Feed? ==> pc.i < z.Of(pc.async))
  }

  lemma BudgetIsThreePasses(z: Sizes, m: Memory, pc: LoopPc, t: Target)
    requires ScanInRange(z, pc)
    ensures Budget(z, m, pc, t) < 3 * Pass(z)
  {
  }

  lemma {:induction false} ScanStaysInRange(z: Sizes, states: seq<State>, steps: seq<Step>, n: nat)
    requires IsRun(z, states, steps) && n < |states|
    ensures ScanInRange(z, states[n].loop)
  {
    if n > 0 { ScanStaysInRange(z, states, steps, n - 1); }
  }

  // A pass ends without running pipecb although a flag is set.
  predicate EmptyPass(s: State, step: Step) {
    step.Loop? && s.loop == Unwanted(false) && !s.m.skipped && s.m.pipe == 0
  }

  // That happens only while a sender is about to set pipe_write_skipped or to write.
  lemma EmptyPassMeansWaking(z: Sizes, s: State, t: Target, step: Step)
    requires Sent(z, s, t) && EmptyPass(s, step)
    ensures SomeWaking(s.senders)
  {
    assert FlagCovered(s.m, s.loop, s.senders, t.async);
  }

  // And the loop blocks on an empty pipe only while a sender is in the middle of its call.
  lemma BlockedMeansMidCall(z: Sizes, s: State, t: Target)
    requires Sent(z, s, t) && s.loop == Polling(true) && s.m.pipe == 0
    ensures SomeWaking(s.senders) || SomeAsking(s.senders)
  {
    assert FlagCovered(s.m, s.loop, s.senders, t.async);
  }

  // Whatever the senders do, a step of the loop brings the feed nearer, but for the end of an empty pass.
  lemma SentStep(z: Sizes, s: State, t: Target, step: Step)
    requires Sent(z, s, t) && s.loop != Feed(t.async, t.n) && Enabled(z, s, step) && Honest(s, step)
    ensures var r := Next(z, s, step);
            && Sent(z, r, t)
            && Budget(z, r.m, r.loop, t) + (if step.Loop? then 1 else 0)
               <= Budget(z, s.m, s.loop, t) + if EmptyPass(s, step) then 5 else 0
  {
    NextKeeps(z, s, step);
    match step
    case Call(_, _) =>
    case Send(who, full) => SentSend(z, s.m, s.loop, s.senders[who], t, full);
    case Loop(mayBlock, ready, taken) =>
      if InPipecb(s.loop) {
        if Scanning(s.loop) { SentScan(z, s.m, s.loop, t, taken); } else { SentPipecb(z, s.m, s.loop, t, taken); }
      } else {
        SentRun(z, s.m, s.loop, t, mayBlock, ready);
      }
  }

  lemma SentSend(z: Sizes, m: Memory, pc: LoopPc, sender: SenderPc, t: Target, full: bool)
    requires t in m.marks && (m.Flag(t.async) || WillReach(pc, t))
    ensures var r := SendStep(m, sender, full);
            t in r.0.marks && (r.0.Flag(t.async) || WillReach(pc, t)) && Budget(z, r.0, pc, t) <= Budget(z, m, pc, t)
  {
  }

  lemma SentScan(z: Sizes, m: Memory, pc: LoopPc, t: Target, taken: nat)
    requires z.Known(t) && t in m.marks && pc != Feed(t.async, t.n) && Scanning(pc) && taken <= m.pipe
    requires m.Flag(t.async) || WillReach(pc, t)
    ensures var r := PipecbStep(z, m, pc, taken);
            && t in r.0.marks && (r.0.Flag(t.async) || WillReach(r.1, t))
            && Budget(z, r.0, r.1, t) + 1 <= Budget(z, m, pc, t)
  {
  }

  lemma SentPipecb(z: Sizes, m: Memory, pc: LoopPc, t: Target, taken: nat)
    requires z.Known(t) && t in m.marks && InPipecb(pc) && !Scanning(pc) && taken <= m.pipe
    requires m.Flag(t.async) || WillReach(pc, t)
    ensures var r := PipecbStep(z, m, pc, taken);
            && t in r.0.marks && (r.0.Flag(t.async) || WillReach(r.1, t))
            && Budget(z, r.0, r.1, t) + 1 <= Budget(z, m, pc, t)
  {
  }

  lemma SentRun(z: Sizes, m: Memory, pc: LoopPc, t: Target, mayBlock: bool, ready: bool)
    requires t in m.marks && !InPipecb(pc) && m.Flag(t.async)
    requires pc.Polling? ==> ready == (m.pipe > 0) && (pc.block ==> ready)
    ensures var r := RunStep(m, pc, mayBlock, ready);
            && t in r.0.marks && r.0.Flag(t.async)
            && Budget(z, r.0, r.1, t) + 1
               <= Budget(z, m, pc, t) + if pc == Unwanted(false) && !m.skipped && m.pipe == 0 then 5 else 0
  {
  }

  function LoopSteps(steps: seq<Step>): nat {
    if steps == [] then 0 else LoopSteps(steps[1..]) + if steps[0].Loop? then 1 else 0
  }

  function EmptyPasses(states: seq<State>, steps: seq<Step>): nat
    requires |states| == |steps| + 1
  {
    if steps == [] then 0 else EmptyPasses(states[1..], steps[1..]) + if EmptyPass(states[0], steps[0]) then 1 else 0
  }

  // Every send is fed in a bounded number of the loop's own steps, however many calls other senders, or the same ones,
  // make meanwhile and however their steps fall between those of the loop. The bound is three passes, and the five
  // steps of each pass that ends empty because a sender stands still before its write.
  lemma {:induction false} EverySendIsFed(z: Sizes, states: seq<State>, steps: seq<Step>, t: Target)
    requires |states| == |steps| + 1 && Sent(z, states[0], t)
    requires forall i :: 0 <= i < |steps| ==>
               && Enabled(z, states[i], steps[i]) && Honest(states[i], steps[i])
               && states[i + 1] == Next(z, states[i], steps[i])
    requires LoopSteps(steps) >= Budget(z, states[0].m, states[0].loop, t) + 5 * EmptyPasses(states, steps)
    ensures exists k :: 0 <= k < |states| && states[k].loop == Feed(t.async, t.n)
    decreases |steps|
  {
    if states[0].loop != Feed(t.async, t.n) && steps != [] {
      SentStep(z, states[0], t, steps[0]);
      EverySendIsFed(z, states[1..], steps[1..], t);
      var k :| 0 <= k < |states[1..]| && states[1..][k].loop == Feed(t.async, t.n);
      assert states[k + 1] == states[1..][k];
    }
  }

  // From any point of any run at which t is marked and no sender is still to see to its flag
  lemma SendInRunIsFed(z: Sizes, states: seq<State>, steps: seq<Step>, n: nat, t: Target)
    requires IsRun(z, states, steps) && n <= |steps| && z.Known(t) && t in states[n].m.marks
    requires !SomeFlagging(states[n].senders, t.async)
    requires forall i :: n <= i < |steps| ==> Honest(states[i], steps[i])
    requires LoopSteps(steps[n..]) >= 3 * Pass(z) + 5 * EmptyPasses(states[n..], steps[n..])
    ensures exists k :: n <= k < |states| && states[k].loop == Feed(t.async, t.n)
  {
    RunKeeps(z, states, steps, n);
    MarkedIsSent(z, states[n], t);
    ScanStaysInRange(z, states, steps, n);
    BudgetIsThreePasses(z, states[n].m, states[n].loop, t);
    EverySendIsFed(z, states[n..], steps[n..], t);
    var k :| 0 <= k < |states[n..]| && states[n..][k].loop == Feed(t.async, t.n);
    assert states[n + k] == states[n..][k];
  }

  // The other way round: only what has been sent is fed.

  lemma {:induction false} OnlyMarksAreFed(z: Sizes, states: seq<State>, steps: seq<Step>, n: nat, t: Target)
    requires IsRun(z, states, steps) && n < |states| && states[n].loop == Feed(t.async, t.n)
    ensures z.Known(t) && t in states[n].m.marks
  {
    ScanStaysInRange(z, states, steps, n);
    FeedIsMarked(z, states, steps, n);
  }

  // While the loop is about to feed, the mark stays.
  lemma {:induction false} FeedIsMarked(z: Sizes, states: seq<State>, steps: seq<Step>, n: nat)
    requires IsRun(z, states, steps) && n < |states|
    ensures states[n].loop.Feed? ==> Target(states[n].loop.async, states[n].loop.i) in states[n].m.marks
  {
    if n > 0 { FeedIsMarked(z, states, steps, n - 1); }
  }

  // How often the loop has fed t in the first n steps, how often senders have marked it, and how often they were called
  ghost function Feeds(states: seq<State>, steps: seq<Step>, n: nat, t: Target): nat
    requires n <= |steps| < |states|
  {
    if n == 0 then 0
    else Feeds(states, steps, n - 1, t)
         + if steps[n - 1].Loop? && states[n - 1].loop == Feed(t.async, t.n) then 1 else 0
  }

  ghost function Marks(states: seq<State>, steps: seq<Step>, n: nat, t: Target): nat
    requires n <= |steps| < |states|
  {
    if n == 0 then 0
    else
      var step, senders := steps[n - 1], states[n - 1].senders;
      Marks(states, steps, n - 1, t)
      + if step.Send? && step.who < |senders| && senders[step.who] == Mark(t) then 1 else 0
  }

  ghost function Calls(steps: seq<Step>, n: nat, t: Target): nat
    requires n <= |steps|
  {
    if n == 0 then 0 else Calls(steps, n - 1, t) + if steps[n - 1].Call? && steps[n - 1].t == t then 1 else 0
  }

  // Every feed uses up a mark of its own: sends may be merged into one feed, but no feed is made up.
  lemma {:induction false} FeedsAreMarks(z: Sizes, states: seq<State>, steps: seq<Step>, n: nat, t: Target)
    requires IsRun(z, states, steps) && n <= |steps|
    ensures Feeds(states, steps, n, t) + (if t in states[n].m.marks then 1 else 0) <= Marks(states, steps, n, t)
  {
    if n > 0 {
      FeedsAreMarks(z, states, steps, n - 1, t);
      FeedIsMarked(z, states, steps, n - 1);
      MarksAfter(z, states[n - 1], steps[n - 1], t);
    }
  }

  // What one step does to the mark of t
  lemma MarksAfter(z: Sizes, s: State, step: Step, t: Target)
    requires Enabled(z, s, step)
    ensures t in Next(z, s, step).m.marks ==>
              t in s.m.marks || (step.Send? && s.senders[step.who] == Mark(t))
    ensures step.Loop? && s.loop == Feed(t.async, t.n) ==> t !in Next(z, s, step).m.marks
  {
  }

  ghost function Marking(senders: seq<SenderPc>, t: Target): nat {
    if senders == [] then 0
    else Marking(senders[..|senders| - 1], t) + if senders[|senders| - 1] == Mark(t) then 1 else 0
  }

  lemma {:induction false} MarkingUpdate(senders: seq<SenderPc>, who: nat, pc: SenderPc, t: Target)
    requires who < |senders|
    ensures Marking(senders[who := pc], t) + (if senders[who] == Mark(t) then 1 else 0)
            == Marking(senders, t) + if pc == Mark(t) then 1 else 0
  {
    var low, r := senders[..|senders| - 1], senders[who := pc];
    if who < |low| {
      MarkingUpdate(low, who, pc, t);
      assert r[..|r| - 1] == low[who := pc];
    } else {
      assert r[..|r| - 1] == low;
    }
  }

  lemma {:induction false} NobodyMarking(senders: seq<SenderPc>, t: Target)
    requires forall i :: 0 <= i < |senders| ==> senders[i].Idle?
    ensures Marking(senders, t) == 0
  {
    if senders != [] { NobodyMarking(senders[..|senders| - 1], t); }
  }

  // Each mark belongs to a call, and each call marks once.
  lemma {:induction false} MarksAreCalls(z: Sizes, states: seq<State>, steps: seq<Step>, n: nat, t: Target)
    requires IsRun(z, states, steps) && n <= |steps|
    ensures Marks(states, steps, n, t) + Marking(states[n].senders, t) == Calls(steps, n, t)
  {
    if n == 0 {
      NobodyMarking(states[0].senders, t);
    } else {
      MarksAreCalls(z, states, steps, n - 1, t);
      var s, r := states[n - 1], states[n];
      match steps[n - 1]
      case Call(who, _) => MarkingUpdate(s.senders, who, r.senders[who], t);
      case Send(who, full) => MarkingUpdate(s.senders, who, SendStep(s.m, s.senders[who], full).1, t);
      case Loop(_, _, _) =>
    }
  }

  // So no watcher or signal is fed more often than it was sent.
  lemma FedAtMostSent(z: Sizes, states: seq<State>, steps: seq<Step>, n: nat, t: Target)
    requires IsRun(z, states, steps) && n <= |steps|
    ensures Feeds(states, steps, n, t) <= Calls(steps, n, t)
  {
    FeedsAreMarks(z, states, steps, n, t);
    MarksAreCalls(z, states, steps, n, t);
  }

  // A sender that finds the flag of its kind set, as the next of two does, leaves its mark and nothing else.
  lemma SecondSendIsSilent(m: Memory, t: Target, full: bool)
    requires m.Flag(t.async)
    ensures var first := SendStep(m, Mark(t), full);
            SendStep(first.0, first.1, full) == (m.(marks := m.marks + {t}), Idle)
  {
  }

  // While the loop takes no step it wants no wake-up, and nothing is written to the pipe.
  lemma {:induction false} RunningLoopGetsNoByte(z: Sizes, states: seq<State>, steps: seq<Step>, n: nat)
    requires IsRun(z, states, steps) && n < |states| && forall i :: 0 <= i < n ==> !steps[i].Loop?
    ensures !states[n].m.wanted && states[n].m.pipe == 0
    ensures forall i :: 0 <= i < |states[n].senders| ==>
            !states[n].senders[i].ClearSkipped? && !states[n].senders[i].Write?
  {
    if n > 0 { RunningLoopGetsNoByte(z, states, steps, n - 1); }
  }

  // And pipecb runs only if somebody has sent.
  lemma {:induction false} NobodySentNoCallback(z: Sizes, states: seq<State>, steps: seq<Step>, n: nat)
    requires IsRun(z, states, steps) && n < |states| && forall i :: 0 <= i < n ==> !steps[i].Send?
    ensures !InPipecb(states[n].loop) && !states[n].m.skipped && states[n].m.pipe == 0
    ensures states[n].loop != Polled(true) && states[n].loop != Unwanted(true)
  {
    if n > 0 { NobodySentNoCallback(z, states, steps, n - 1); }
  }

  // How many steps the loop takes until it blocks, if nobody sends
  function StepsToSleep(z: Sizes, m: Memory, pc: LoopPc): nat {
    if pc == Polling(true) then 0
    else if pc.Running? && !m.skipped then 2
    else if pc.TestSkipped? && !m.skipped then 1
    else if (pc.Test? || pc.Clear? || Scanning(pc)) && m.skipped then Left(z, pc) + Pass(z) + 3
    else Left(z, pc) + 3
  }

  lemma NearerToSleep(z: Sizes, m: Memory, pc: LoopPc, ready: bool, taken: nat)
    requires pc != Polling(true) && taken <= m.pipe
    ensures var r := if InPipecb(pc) then PipecbStep(z, m, pc, taken) else RunStep(m, pc, true, ready);
            StepsToSleep(z, r.0, r.1) < StepsToSleep(z, m, pc)
  {
  }

  // A loop that nobody wakes and that may block goes to sleep within two passes.
  lemma {:induction false} QuietLoopSleeps(z: Sizes, states: seq<State>, steps: seq<Step>)
    requires |states| == |steps| + 1 && |steps| >= StepsToSleep(z, states[0].m, states[0].loop)
    requires forall i :: 0 <= i < |steps| ==>
               && Enabled(z, states[i], steps[i]) && steps[i].Loop? && steps[i].mayBlock
               && states[i + 1] == Next(z, states[i], steps[i])
    ensures exists k :: 0 <= k < |states| && states[k].loop == Polling(true)
    decreases |steps|
  {
    if states[0].loop != Polling(true) && steps != [] {
      NearerToSleep(z, states[0].m, states[0].loop, steps[0].ready, steps[0].taken);
      QuietLoopSleeps(z, states[1..], steps[1..]);
      var k :| 0 <= k < |states[1..]| && states[1..][k].loop == Polling(true);
      assert states[k + 1] == states[1..][k];
    }
  }
}

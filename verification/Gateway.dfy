/** The alert state machine of the gateway. */
module Gateway {
  import opened Options
  import opened FanRules

  datatype Fusion = Safe | Monitor | Alert | Cooldown

  // Multiplication by 0.95, truncated toward zero
  function Decayed(score: int): int {
    if score >= 0 then score * 19 / 20 else -(-score * 19 / 20)
  }

  // The old score decays, and is dropped a minute after the last strong signal; this tick's signals are added.
  function NextScore(accum: int, lastSignal: int, now: int, newSignals: int): int {
    (if lastSignal > 0 && now - lastSignal > 60 then 0 else Decayed(accum)) + newSignals
  }

  // How far signals of at most s a tick take the score
  function Ceiling(s: nat): nat {
    if s == 0 then 0 else 20 * s - 19
  }

  // The transitions of the state machine
  function NextState(from: Fusion, since: int, score: int, suspicious: bool): Fusion {
    match from
    case Safe => if suspicious then Monitor else Safe
    case Monitor => if score >= 60 then Alert else if since > 60 then Safe else Monitor
    case Alert => if since > 30 then Cooldown else Alert
    case Cooldown => if since > 30 then Safe else Cooldown
  }

  // What a tick does to the fan, by the state it finds and the state it moves to
  function FanTick(from: Fusion, to: Fusion, cfg: Config, r: Rules, t: Tick): (Rules, seq<Event>) {
    if from == Alert then SmokeThenOn(cfg, r, t)
    else if from == Cooldown || to == Alert then SmokeThenTemp(cfg, r, t)
    else TempOnly(cfg, r, t)
  }

  // Outside ALERT no tick issues opposing commands; in ALERT exactly those that find the smoke cleared after its time
  // in a room that is not hot, and the fan off when they look again.
  lemma OpposesIff(from: Fusion, to: Fusion, cfg: Config, r: Rules, t: Tick)
    ensures Opposing(FanTick(from, to, cfg, r, t).1) <==>
            && from == Alert && r.Meddled(t.fan1).FanDue(cfg, t.smoke, t.nowSmoke) && !cfg.Hot(t.temp)
            && (if t.fan2.Some? then !t.fan2.value else t.ok1)
    ensures FireAlert !in FanTick(from, to, cfg, r, t).1
  {
    hide SmokeThenOn, SmokeThenTemp, TempOnly;
    AlertOpposesIff(cfg, r, t);
    BothNeverOppose(cfg, r, t);
    TempIsSteady(cfg, r, t);
  }

  // What a tick is for. The smoke is looked at in ALERT, in COOLDOWN and on the way to ALERT: the third reading of
  // smoke in a row, or a later one, sets the time of the fan and switches it on if it is off, unless the sensor is
  // taken to be faulty, which is reported. In ALERT the fan is on at the end if its last call succeeds. In any other
  // state the temperature has the last word, unless there is smoke or the time of the smoke fan is not up. The fan
  // state changes only by another thread or by a call that has succeeded.
  lemma TickActs(from: Fusion, to: Fusion, cfg: Config, r: Rules, t: Tick)
    ensures var (after, commands) := FanTick(from, to, cfg, r, t);
            var looks := from == Alert || from == Cooldown || to == Alert;
            var start := if r.alarmStart == 0 then t.nowSmoke else r.alarmStart;
            && (looks && t.smoke == cfg.smokeLevel != UNREAD ==> after.debounce == r.debounce + 1)
            && (looks && t.smoke == cfg.smokeLevel != UNREAD && r.debounce >= 2
                && t.nowSmoke - start < cfg.faultTimeout ==>
                  && after.until == t.nowSmoke + cfg.fanDuration && after.alarmStart == start
                  && ((if t.fan1.Some? then t.fan1.value else r.fan) || Relay(true, t.ok1) in commands))
            && (!looks ==> after == r.(fan := after.fan))
            && (from == Alert && t.ok2 ==> after.fan)
            && (from != Alert && t.temp != UNREAD && t.smoke != cfg.smokeLevel && t.nowTemp >= after.until && t.ok2 ==>
                  && (t.temp > cfg.tempHigh && t.temp >= cfg.tempLow ==> after.fan)
                  && (t.temp < cfg.tempLow && t.temp <= cfg.tempHigh ==> !after.fan))
            && (looks && t.smoke == cfg.smokeLevel != UNREAD && r.debounce >= 2
                && t.nowSmoke - start >= cfg.faultTimeout && !r.fault ==>
                  FaultAlert in commands && after.fault)
            && (after.fan == r.fan || t.fan1 == Some(after.fan) || t.fan2 == Some(after.fan)
                || Relay(after.fan, true) in commands)
            && (from != Alert && t.temp != UNREAD && t.smoke != cfg.smokeLevel && t.nowTemp >= after.until
                && t.temp > cfg.tempHigh && t.fan2 == Some(false) ==>
                  Relay(true, t.ok2) in commands)
  {
    hide SmokeFirst, TempOnly;
    SmokeActs(cfg, r, t);
    TempActs(cfg, r, t);
    TempActs(cfg, SmokeFirst(cfg, r, t).0, t);
  }

  lemma SmokeActs(cfg: Config, r: Rules, t: Tick)
    ensures var (after, commands) := SmokeFirst(cfg, r, t);
            var start := if r.alarmStart == 0 then t.nowSmoke else r.alarmStart;
            && (t.smoke == cfg.smokeLevel != UNREAD ==> after.debounce == r.debounce + 1)
            && (t.smoke == cfg.smokeLevel != UNREAD && r.debounce >= 2 && t.nowSmoke - start < cfg.faultTimeout ==>
                  && after.until == t.nowSmoke + cfg.fanDuration && after.alarmStart == start
                  && ((if t.fan1.Some? then t.fan1.value else r.fan) || Relay(true, t.ok1) in commands))
            && (t.smoke == cfg.smokeLevel != UNREAD && r.debounce >= 2 && t.nowSmoke - start >= cfg.faultTimeout
                && !r.fault ==>
                  FaultAlert in commands && after.fault)
            && (after.fan == r.fan || t.fan1 == Some(after.fan) || Relay(after.fan, true) in commands)
  {
  }

  lemma TempActs(cfg: Config, r: Rules, t: Tick)
    ensures var (after, commands) := TempOnly(cfg, r, t);
            && after == r.(fan := after.fan)
            && (t.temp != UNREAD && t.smoke != cfg.smokeLevel && t.nowTemp >= after.until && t.ok2 ==>
                  && (t.temp > cfg.tempHigh && t.temp >= cfg.tempLow ==> after.fan)
                  && (t.temp < cfg.tempLow && t.temp <= cfg.tempHigh ==> !after.fan))
            && (after.fan == r.fan || t.fan2 == Some(after.fan) || Relay(after.fan, true) in commands)
            && (t.temp != UNREAD && t.smoke != cfg.smokeLevel && t.nowTemp >= after.until
                && t.temp > cfg.tempHigh && t.fan2 == Some(false) ==>
                  Relay(true, t.ok2) in commands)
  {
  }

  // The decay takes a twentieth, rounded toward zero.
  lemma DecayIsTruncated(score: int)
    ensures score >= 0 ==> 20 * Decayed(score) <= 19 * score < 20 * Decayed(score) + 20
    ensures score <= 0 ==> 20 * Decayed(score) - 20 < 19 * score <= 20 * Decayed(score)
  {
  }

  class Controller {
    const cfg: Config
    const rules: Fan
    var fusion: Fusion            // g_fusion_state
    var enterTime: int            // g_state_enter_time
    var alertSent: bool           // g_alert_sent_flag
    var accum: int                // g_fusion_accum_score
    var lastSignal: int           // last_signal_time
    var aiConfidence: real        // g_ai_best_confidence, which the AI patrol also sets

    ghost var clock: int          // when the last tick began
    ghost var log: seq<Event>
    ghost var entries: seq<int>   // when ALERT was entered
    ghost var alerts: seq<int>    // when a fire alert was published: the clock of its tick
    ghost var strongest: nat      // the greatest sum of signals that a tick has brought

    // One alert for each visit to ALERT but one that has only begun.
    ghost predicate OnePerVisit()
      reads this`fusion, this`alertSent, this`entries, this`alerts, this`enterTime
    {
      && |alerts| == |entries| - (if fusion == Alert && !alertSent then 1 else 0)
      && (alertSent ==> fusion == Alert)
      && (fusion == Alert ==> entries != [] && entries[|entries| - 1] == enterTime)
      && (forall i :: 0 <= i < |alerts| ==> entries[i] <= alerts[i])
    }

    // Entries are more than 60 seconds apart, alerts more than 30.
    ghost predicate Spaced()
      reads this`entries, this`alerts
    {
      && (forall i, j :: 0 <= i < j < |entries| ==> entries[j] - entries[i] > 60)
      && (forall i, j :: 0 <= i < j < |alerts| ==> alerts[j] - alerts[i] > 30)
      && (forall i, j :: 0 <= i < j && i < |alerts| && j < |entries| ==> entries[j] - alerts[i] > 30)
    }

    // How long ago the last visit to ALERT must have been
    ghost predicate Timely()
      reads this`fusion, this`enterTime, this`clock, this`entries, this`alerts
    {
      && enterTime <= clock
      && (forall i :: 0 <= i < |alerts| ==> alerts[i] <= clock)
      && (fusion == Cooldown ==>
            && (forall i :: 0 <= i < |entries| ==> enterTime - entries[i] > 30)
            && (forall i :: 0 <= i < |alerts| ==> alerts[i] <= enterTime))
      && (fusion == Safe || fusion == Monitor ==>
            && (forall i :: 0 <= i < |entries| ==> enterTime - entries[i] > 60)
            && (forall i :: 0 <= i < |alerts| ==> enterTime - alerts[i] > 30))
    }

    ghost predicate AlertsOk()
      reads this`fusion, this`enterTime, this`alertSent, this`clock, this`entries, this`alerts
    {
      OnePerVisit() && Spaced() && Timely()
    }

    // The score stays under the ceiling of the strongest tick, and it takes a tick of at least 4 to get into ALERT.
    ghost predicate Scored()
      reads this`accum, this`strongest, this`entries
    {
      accum <= Ceiling(strongest) && (entries != [] ==> strongest >= 4)
    }

    ghost predicate Valid()
      reads this, rules
    {
      rules.cfg == cfg && rules.Valid() && AlertsOk() && Scored()
    }

    // time(NULL) is at least the zero that stands for no time.
    constructor (cfg: Config)
      ensures Valid() && fresh(rules) && this.cfg == cfg && fusion == Safe && clock == 0 && log == []
      ensures entries == [] && alerts == [] && accum == lastSignal == 0 && aiConfidence == 0.0 && strongest == 0
      ensures rules.Now() == Rules(false, 0, 0, 0, 0, false, 0)
    {
      this.cfg := cfg;
      rules := new Fan(cfg);
      fusion, enterTime, alertSent, accum, lastSignal, aiConfidence := Safe, 0, false, 0, 0, 0.0;
      clock, log, entries, alerts, strongest := 0, [], [], [], 0;
    }

    // sensor_fusion_score, given the sum of this tick's signals; called in SAFE and MONITOR only
    method FusionScore(now: int, newSignals: int) returns (score: int)
      requires Scored()
      modifies this`accum, this`lastSignal, this`strongest
      ensures Scored() && strongest == if newSignals > old(strongest) then newSignals else old(strongest)
      ensures score == accum == NextScore(old(accum), old(lastSignal), now, newSignals)
      ensures old(lastSignal) > 0 && now - old(lastSignal) > 60 ==> score == newSignals
      ensures !(old(lastSignal) > 0 && now - old(lastSignal) > 60) ==> score == Decayed(old(accum)) + newSignals
      ensures lastSignal == if newSignals > 0 && newSignals > cfg.weightPir * 2 then now else old(lastSignal)
    {
      CeilingHolds(accum, newSignals, strongest, if newSignals > strongest then newSignals else strongest);
      accum := Decayed(accum);
      if lastSignal > 0 && now - lastSignal > 60 {
        accum := 0;
      }
      accum := accum + newSignals;
      strongest := if newSignals > strongest then newSignals else strongest;
      if newSignals > 0 && newSignals > cfg.weightPir * 2 {
        lastSignal := now;
      }
      score := accum;
    }

    // Under its ceiling, the decay takes away what the next signals can add.
    lemma CeilingHolds(score: int, signals: int, s: nat, most: nat)
      requires score <= Ceiling(s) && s <= most && signals <= most
      ensures Decayed(score) + signals <= Ceiling(most) && signals <= Ceiling(most)
    {
      if score > 0 {
        assert score <= 20 * most - 19;
      }
    }

    // Ticks of at most 3, however many, never raise an alert.
    lemma WeakSignalsNeverAlert()
      requires Valid() && strongest <= 3
      ensures fusion != Alert && entries == [] && alerts == []
    {
    }

    // When SAFE gives way to MONITOR
    ghost predicate Suspicious(smoke: int)
      reads this`accum, this`aiConfidence
    {
      accum >= 60 || smoke == cfg.smokeLevel || aiConfidence > 0.20
    }

    lemma SentInAlert()
      requires AlertsOk() && fusion != Alert
      ensures !alertSent
    {
    }

    // A change of state, at the time of the tick
    method Goto(to: Fusion, now: int)
      requires AlertsOk() && Scored() && now == clock
      requires match fusion
               case Safe => to == Monitor
               case Monitor => to == Safe || (to == Alert && accum >= 60)
               case Alert => to == Cooldown && alertSent && clock - enterTime > 30
               case Cooldown => to == Safe && clock - enterTime > 30
      modifies this`fusion, this`enterTime, this`alertSent, this`entries
      ensures AlertsOk() && Scored() && fusion == to && enterTime == clock && !alertSent
      ensures entries == old(entries) + if to == Alert then [clock] else []
    {
      if to == Alert {
        entries := entries + [clock];
      }
      fusion, enterTime, alertSent := to, now, false;
    }

    ghost method Begin(now: int)
      requires AlertsOk() && clock <= now
      modifies this`clock
      ensures AlertsOk() && clock == now
    {
      clock := now;
    }

    // publish_alert, once a visit
    method Publish(now: int)
      requires AlertsOk() && now == clock && fusion == Alert && !alertSent
      modifies this`log, this`alerts, this`alertSent
      ensures AlertsOk() && alertSent && alerts == old(alerts) + [now] && log == old(log) + [FireAlert]
    {
      log := log + [FireAlert];
      alerts, alertSent := alerts + [now], true;
    }

    // What a tick has done: `fire` is whether it published, the others are the state before it.
    ghost predicate Ticked(t: Tick, fire: bool, from: Fusion, entered: int, r: Rules, was: seq<Event>, ins: seq<int>,
                           outs: seq<int>)
      reads this, rules
    {
      && clock == t.now && fusion == NextState(from, t.now - entered, accum, Suspicious(t.smoke))
      && enterTime == (if fusion == from then entered else t.now) && alertSent == (from == Alert && fusion == Alert)
      && rules.Now() == FanTick(from, fusion, cfg, r, t).0
      && log == was + FanTick(from, fusion, cfg, r, t).1 + (if fire then [FireAlert] else [])
      && entries == ins + (if from == Monitor && fusion == Alert then [t.now] else [])
      && alerts == outs + (if fire then [t.now] else [])
    }

    // The score and the change of state that may follow from it in SAFE and in MONITOR
    method Judge(t: Tick)
      requires AlertsOk() && Scored() && t.InOrder(clock) && (fusion == Safe || fusion == Monitor)
      modifies this
      ensures AlertsOk() && Scored() && clock == t.now && alerts == old(alerts) && log == old(log)
      ensures accum == NextScore(old(accum), old(lastSignal), t.nowScore, t.newSignals)
              && aiConfidence == old(aiConfidence)
      ensures lastSignal == if t.newSignals > 0 && t.newSignals > cfg.weightPir * 2 then t.nowScore else old(lastSignal)
      ensures fusion == NextState(old(fusion), t.now - old(enterTime), accum, Suspicious(t.smoke))
      ensures enterTime == (if fusion == old(fusion) then old(enterTime) else t.now)
      ensures entries == old(entries) + (if fusion == Alert then [t.now] else []) && !alertSent
    {
      hide AlertsOk, NextScore;
      SentInAlert();
      Begin(t.now);
      var score := FusionScore(t.nowScore, t.newSignals);
      if fusion == Safe {
        if score >= 60 || t.smoke == cfg.smokeLevel || aiConfidence > 0.20 {
          Goto(Monitor, t.now);
        }
      } else {
        if score >= 60 {
          Goto(Alert, t.now);
        } else if t.now - enterTime > 60 {
          Goto(Safe, t.now);
        }
      }
    }

    // The cases SAFE and MONITOR
    method TickQuiet(t: Tick)
      requires Valid() && t.InOrder(clock) && (fusion == Safe || fusion == Monitor)
      modifies this, rules
      ensures Valid() && aiConfidence == old(aiConfidence)
      ensures Ticked(t, false, old(fusion), old(enterTime), old(rules.Now()), old(log), old(entries), old(alerts))
      ensures accum == NextScore(old(accum), old(lastSignal), t.nowScore, t.newSignals)
      ensures lastSignal == if t.newSignals > 0 && t.newSignals > cfg.weightPir * 2 then t.nowScore else old(lastSignal)
    {
      hide AlertsOk, Scored, Fan.Valid, TempOnly, SmokeThenTemp, NextScore, Suspicious, Fan.Now;
      Judge(t);
      var commands;
      if fusion == Alert {
        commands := rules.ControlBoth(t);
      } else {
        commands := rules.ControlTemp(t);
      }
      log := log + commands;
    }

    // The alert of a visit, and its end
    method Visit(t: Tick)
      requires AlertsOk() && Scored() && fusion == Alert && t.now == clock
      modifies this`fusion, this`enterTime, this`alertSent, this`entries, this`alerts, this`log
      ensures AlertsOk() && Scored() && entries == old(entries)
      ensures fusion == NextState(Alert, t.now - old(enterTime), accum, false)
      ensures enterTime == (if fusion == Alert then old(enterTime) else t.now) && alertSent == (fusion == Alert)
      ensures alerts == old(alerts) + (if old(alertSent) then [] else [t.now])
      ensures log == old(log) + (if old(alertSent) then [] else [FireAlert])
    {
      hide AlertsOk, Scored;
      if !alertSent {
        Publish(t.now);
      }
      if t.now - enterTime > 30 {
        Goto(Cooldown, t.now);
      }
    }

    // The first tick of a visit publishes the fire alert, and no other does.
    method TickAlert(t: Tick)
      requires Valid() && t.InOrder(clock) && fusion == Alert
      modifies this, rules
      ensures Valid() && aiConfidence == old(aiConfidence) && accum == old(accum) && lastSignal == old(lastSignal)
      ensures Ticked(t, !old(alertSent), old(fusion), old(enterTime), old(rules.Now()), old(log), old(entries),
              old(alerts))
    {
      hide AlertsOk, Scored, Fan.Valid, SmokeThenOn, Suspicious, Fan.Now;
      Begin(t.now);
      var commands := rules.ControlAlert(t);
      log := log + commands;
      Visit(t);
    }

    method TickCooldown(t: Tick)
      requires Valid() && t.InOrder(clock) && fusion == Cooldown
      modifies this, rules
      ensures Valid() && aiConfidence == (if fusion == Safe then 0.0 else old(aiConfidence)) && accum == old(accum)
              && lastSignal == old(lastSignal)
      ensures Ticked(t, false, old(fusion), old(enterTime), old(rules.Now()), old(log), old(entries), old(alerts))
    {
      hide AlertsOk, Scored, Fan.Valid, SmokeThenTemp, Suspicious, Fan.Now;
      SentInAlert();
      Begin(t.now);
      var commands := rules.ControlBoth(t);
      log := log + commands;
      if t.now - enterTime > 30 {
        Goto(Safe, t.now);
        aiConfidence := 0.0;
      }
    }

    // auto_control: a tick without valid readings does nothing at all. SAFE gives way to MONITOR at any suspicion,
    // MONITOR to ALERT at a score of 60, or to SAFE after a minute; ALERT and COOLDOWN are over after half a minute.
    method AutoControl(t: Tick)
      requires Valid() && t.InOrder(clock)
      modifies this, rules
      ensures Valid()
      ensures if t.valid then
                Ticked(t, old(fusion == Alert && !alertSent), old(fusion), old(enterTime), old(rules.Now()), old(log),
                  old(entries), old(alerts))
              else
                && rules.Now() == old(rules.Now()) && log == old(log) && entries == old(entries)
                && alerts == old(alerts)
                && fusion == old(fusion) && enterTime == old(enterTime) && alertSent == old(alertSent)
                && clock == old(clock)
      ensures accum == if t.valid && (old(fusion) == Safe || old(fusion) == Monitor)
                       then NextScore(old(accum), old(lastSignal), t.nowScore, t.newSignals) else old(accum)
      ensures lastSignal == if t.valid && (old(fusion) == Safe || old(fusion) == Monitor) && t.newSignals > 0
              && t.newSignals > cfg.weightPir * 2
                            then t.nowScore else old(lastSignal)
      ensures aiConfidence == if t.valid && old(fusion) == Cooldown && fusion == Safe then 0.0 else old(aiConfidence)
      ensures t.valid ==>
                match old(fusion)
                case Safe =>
                  fusion ==
                  if accum >= 60 || t.smoke == cfg.smokeLevel || old(aiConfidence) > 0.20 then Monitor else Safe
                case Monitor =>
                  fusion == if accum >= 60 then Alert else if t.now - old(enterTime) > 60 then Safe else Monitor
                case Alert => fusion == if t.now - old(enterTime) > 30 then Cooldown else Alert
                case Cooldown => fusion == if t.now - old(enterTime) > 30 then Safe else Cooldown
    {
      if !t.valid {
        return;
      }
      match fusion {
        case Safe => TickQuiet(t);
        case Monitor => TickQuiet(t);
        case Alert => TickAlert(t);
        case Cooldown => TickCooldown(t);
      }
    }
  }

  // The defaults of the gateway
  const DEFAULTS := Config(0, 32, 30, 60, 30, 10, 5)

  // A tick at one instant, with valid readings at 25 degrees, and relay calls that succeed
  function TickAt(now: int, smoke: int, signals: int): Tick {
    Tick(now, now, now, now, true, 25, smoke, signals, true, true, None, None)
  }

  // Smoke is confirmed in ALERT, and the fan is on for half a minute.
  method ConfirmedRun() returns (c: Controller)
    ensures fresh(c) && fresh(c.rules) && c.Valid() && c.cfg == DEFAULTS && c.clock == 1015
    ensures c.fusion == Alert && c.alertSent && c.enterTime == 1005
    ensures c.rules.Now() == Rules(true, 1045, 1015, 3, 1015, false, 0)
  {
    hide Controller.Valid, NextScore, SmokeThenOn, SmokeThenTemp, TempOnly;
    c := new Controller(DEFAULTS);
    ScoresOfRun();
    QuietTick(1000);
    c.AutoControl(TickAt(1000, 0, 60));
    c.AutoControl(TickAt(1005, 0, 60));
    FirstSmoke();
    c.AutoControl(TickAt(1010, 0, 0));
    SecondSmoke();
    c.AutoControl(TickAt(1015, 0, 0));
    ThirdSmoke();
  }

  lemma ScoresOfRun()
    ensures NextScore(0, 0, 1000, 60) == 60 && NextScore(60, 1000, 1005, 60) == 117
  {
  }

  lemma QuietTick(now: int)
    ensures TempOnly(DEFAULTS, Rules(false, 0, 0, 0, 0, false, 0), TickAt(now, 0, 60)) ==
            (Rules(false, 0, 0, 0, 0, false, 0), [])
  {
  }

  lemma FirstSmoke()
    ensures SmokeThenTemp(DEFAULTS, Rules(false, 0, 0, 0, 0, false, 0), TickAt(1005, 0, 60)) ==
            (Rules(false, 0, 0, 1, 0, false, 0), [])
  {
    var none: seq<Event> := [];
    assert none + none == none;
  }

  lemma SecondSmoke()
    ensures SmokeThenOn(DEFAULTS, Rules(false, 0, 0, 1, 0, false, 0), TickAt(1010, 0, 0)) ==
            (Rules(true, 0, 0, 2, 0, false, 0), [Relay(true, true)])
  {
    assert [] + [Relay(true, true)] == [Relay(true, true)];
  }

  lemma ThirdSmoke()
    ensures SmokeThenOn(DEFAULTS, Rules(true, 0, 0, 2, 0, false, 0), TickAt(1015, 0, 0)) ==
            (Rules(true, 1045, 1015, 3, 1015, false, 0), [])
  {
  }

  // When the smoke has cleared, a slow tick, the last one in ALERT, switches the fan off and on again.
  method OpposingRun() returns (c: Controller, ghost before: seq<Event>)
    ensures fresh(c) && c.Valid() && c.log == before + [Relay(false, true), Relay(true, true)]
            && Opposing(c.log[|before|..])
  {
    hide Controller.Valid, SmokeThenOn, Opposing;
    c := ConfirmedRun();
    before := c.log;
    c.AutoControl(TickAt(1046, 1, 0));
    LastTick();
    assert c.log[|before|..] == [Relay(false, true), Relay(true, true)];
  }

  lemma LastTick()
    ensures SmokeThenOn(DEFAULTS, Rules(true, 1045, 1015, 3, 1015, false, 0), TickAt(1046, 1, 0)).1 ==
            [Relay(false, true), Relay(true, true)]
    ensures Opposing([Relay(false, true), Relay(true, true)])
  {
    assert Relay(false, true) in [Relay(false, true), Relay(true, true)]
      && Relay(true, true) in [Relay(false, true), Relay(true, true)];
  }
}

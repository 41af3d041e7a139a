/** The smoke and temperature rules of the gateway, which share the fan. */
module FanRules {
  import opened Options

  datatype Config = Config(
    smokeLevel: int,         // the reading that means smoke
    tempHigh: int,
    tempLow: int,
    faultTimeout: int,       // seconds of smoke after which the sensor is taken to be faulty
    fanDuration: int,
    alertInterval: int,
    weightPir: int)
  {
    predicate Hot(temp: int) {
      temp >= tempHigh && temp != UNREAD
    }
  }

  const UNREAD := -1         // a reading that failed

  datatype Event = Relay(on: bool, ok: bool) | FaultAlert | FireAlert

  // What one tick sees: its clock readings, in the order they are taken, the sensor cache, and how each relay call
  // would end. The command thread may set the fan state at any time; `fan1` and `fan2` are what it does before the
  // fan state is read for the first and for the second time.
  datatype Tick = Tick(
    now: int, nowScore: int, nowSmoke: int, nowTemp: int,
    valid: bool, temp: int, smoke: int,
    newSignals: int,
    ok1: bool, ok2: bool,
    fan1: Option<bool>, fan2: Option<bool>)
  {
    predicate InOrder(clock: int) {
      clock <= now <= nowScore <= nowSmoke <= nowTemp
    }
  }

  // Commands that both switch the fan on and switch it off
  predicate Opposing(commands: seq<Event>) {
    (exists ok :: Relay(true, ok) in commands) && (exists ok :: Relay(false, ok) in commands)
  }

  // How many readings of smoke in a row end the history; failed readings do not count.
  function Streak(readings: seq<int>, level: int): nat {
    if readings == [] then 0
    else
      var last, before := readings[|readings| - 1], readings[..|readings| - 1];
      if last == UNREAD then Streak(before, level) else if last == level then Streak(before, level) + 1 else 0
  }

  // The readings that did not fail
  function Read(readings: seq<int>): seq<int> {
    if readings == [] then []
    else
      var last, before := readings[|readings| - 1], Read(readings[..|readings| - 1]);
      if last == UNREAD then before else before + [last]
  }

  // The streak is the longest run of readings of smoke at the end.
  lemma {:induction false} StreakIsLongest(readings: seq<int>, level: int)
    requires level != UNREAD
    ensures var n, r := Streak(readings, level), Read(readings);
            && n <= |r|
            && (forall i :: |r| - n <= i < |r| ==> r[i] == level)
            && (n < |r| ==> r[|r| - n - 1] != level)
  {
    if readings != [] { StreakIsLongest(readings[..|readings| - 1], level); }
  }

  lemma StreakStep(readings: seq<int>, smoke: int, level: int)
    ensures Streak(readings + [smoke], level) ==
            if smoke == UNREAD then Streak(readings, level) else if smoke == level then Streak(readings, level) + 1
              else 0
  {
    assert (readings + [smoke])[..|readings|] == readings;
  }

  // What the rules remember
  datatype Rules = Rules(
    fan: bool,               // fan_state
    until: int,              // smoke_fan_until
    lastAlert: int,          // last_alert_time
    debounce: nat,           // smoke_debounce_cnt
    alarmStart: int,         // smoke_alarm_start_time
    fault: bool,             // smoke_sensor_fault
    lastFault: int)          // last_fault_alert_time
  {
    // Another thread may have set the fan state.
    function Meddled(other: Option<bool>): Rules {
      if other.Some? then this.(fan := other.value) else this
    }

    // The fan state after a relay call
    function Switched(on: bool, ok: bool): Rules {
      if ok then this.(fan := on) else this
    }

    function AlarmSince(now: int): int {
      if alarmStart == 0 then now else alarmStart
    }

    // The third reading of smoke in a row, or a later one
    predicate Smoky(cfg: Config, smoke: int) {
      smoke == cfg.smokeLevel != UNREAD && debounce >= 2
    }

    // It confirms smoke while the sensor is not taken to be faulty.
    predicate Confirms(cfg: Config, smoke: int, now: int) {
      Smoky(cfg, smoke) && now - AlarmSince(now) < cfg.faultTimeout
    }

    // The smoke has cleared, and the time for which the fan was switched on is up.
    predicate FanDue(cfg: Config, smoke: int, now: int) {
      smoke != UNREAD && smoke != cfg.smokeLevel && fan && 0 < until <= now
    }

    function FaultAlerts(cfg: Config, now: int): seq<Event> {
      (if fault then [] else [FaultAlert])
      + if now - (if fault then lastFault else now) > cfg.alertInterval then [FaultAlert] else []
    }

    function SmokeCommands(cfg: Config, smoke: int, temp: int, now: int, ok: bool): seq<Event> {
      if Confirms(cfg, smoke, now) then if fan then [] else [Relay(true, ok)]
      else if Smoky(cfg, smoke) then FaultAlerts(cfg, now)
      else if FanDue(cfg, smoke, now) && !cfg.Hot(temp) then [Relay(false, ok)]
      else []
    }

    function AfterSmoke(cfg: Config, smoke: int, temp: int, now: int, ok: bool): Rules {
      if smoke == UNREAD then this
      else if Confirms(cfg, smoke, now) then
        Rules(fan || ok, now + cfg.fanDuration, if now - lastAlert > cfg.alertInterval then now else lastAlert,
              debounce + 1, AlarmSince(now), fault, lastFault)
      else if Smoky(cfg, smoke) then
        this.(debounce := debounce + 1, alarmStart := AlarmSince(now), fault := true,
              lastFault := if FaultAlerts(cfg, now) == [] then lastFault else now)
      else if smoke == cfg.smokeLevel then
        this.(debounce := debounce + 1)
      else
        Rules(fan && !(FanDue(cfg, smoke, now) && !cfg.Hot(temp) && ok), if FanDue(cfg, smoke, now) then 0
          else until, lastAlert,
              0, 0, false, lastFault)
    }

    // The temperature may be acted on: it was read, there is no smoke, and the time of the smoke fan is up.
    predicate TempFree(cfg: Config, temp: int, smoke: int, now: int) {
      temp != UNREAD && smoke != cfg.smokeLevel && now >= until
    }

    function TempCommands(cfg: Config, temp: int, smoke: int, now: int, ok: bool): seq<Event> {
      if !TempFree(cfg, temp, smoke, now) then []
      else if temp > cfg.tempHigh && !fan then [Relay(true, ok)]
      else if temp < cfg.tempLow && fan then [Relay(false, ok)]
      else []
    }

    function AfterTemp(cfg: Config, temp: int, smoke: int, now: int, ok: bool): Rules {
      var commands := TempCommands(cfg, temp, smoke, now, ok);
      if commands == [] then this else Switched(commands[0].on, ok)
    }
  }

  // The fan in a tick: by the temperature alone, by smoke and then temperature, and in ALERT by smoke and then on.

  function TempOnly(cfg: Config, r: Rules, t: Tick): (Rules, seq<Event>) {
    var s := r.Meddled(t.fan2);
    (s.AfterTemp(cfg, t.temp, t.smoke, t.nowTemp, t.ok2), s.TempCommands(cfg, t.temp, t.smoke, t.nowTemp, t.ok2))
  }

  function SmokeFirst(cfg: Config, r: Rules, t: Tick): (Rules, seq<Event>) {
    var s := r.Meddled(t.fan1);
    (s.AfterSmoke(cfg, t.smoke, t.temp, t.nowSmoke, t.ok1), s.SmokeCommands(cfg, t.smoke, t.temp, t.nowSmoke, t.ok1))
  }

  function SmokeThenTemp(cfg: Config, r: Rules, t: Tick): (Rules, seq<Event>) {
    var s := SmokeFirst(cfg, r, t);
    var u := TempOnly(cfg, s.0, t);
    (u.0, s.1 + u.1)
  }

  function SmokeThenOn(cfg: Config, r: Rules, t: Tick): (Rules, seq<Event>) {
    var s := SmokeFirst(cfg, r, t);
    var u := s.0.Meddled(t.fan2);
    if u.fan then (u, s.1) else (u.Switched(true, t.ok2), s.1 + [Relay(true, t.ok2)])
  }

  // The smoke rule switches on only with smoke, and off only for smoke that has cleared where it is not hot.
  lemma SmokeSwitches(cfg: Config, r: Rules, t: Tick)
    ensures var s, commands := r.Meddled(t.fan1), SmokeFirst(cfg, r, t).1;
            && FireAlert !in commands
            && ((exists ok :: Relay(true, ok) in commands) ==> t.smoke == cfg.smokeLevel)
            && (if s.FanDue(cfg, t.smoke, t.nowSmoke) && !cfg.Hot(t.temp) then commands == [Relay(false, t.ok1)]
                else forall ok :: Relay(false, ok) !in commands)
  {
  }

  // The temperature rule never opposes itself, and does nothing while the temperature is in the band.
  lemma TempIsSteady(cfg: Config, r: Rules, t: Tick)
    ensures var commands := TempOnly(cfg, r, t).1;
            && FireAlert !in commands && !Opposing(commands)
            && (cfg.tempLow <= t.temp <= cfg.tempHigh ==> commands == [])
            && (t.smoke == cfg.smokeLevel ==> commands == [])
            && ((exists ok :: Relay(true, ok) in commands) ==> cfg.Hot(t.temp))
  {
  }

  // Both rules in one tick never oppose each other, whatever the command thread does in between and however the calls
  // end: a fan switched off for smoke that has cleared is not hot enough to be switched on.
  lemma BothNeverOppose(cfg: Config, r: Rules, t: Tick)
    ensures !Opposing(SmokeThenTemp(cfg, r, t).1) && FireAlert !in SmokeThenTemp(cfg, r, t).1
  {
    hide SmokeFirst, TempOnly;
    SmokeSwitches(cfg, r, t);
    TempIsSteady(cfg, SmokeFirst(cfg, r, t).0, t);
  }

  // A tick in ALERT opposes itself exactly when the smoke rule switches the fan off, and it is off when it is looked
  // at.
  lemma AlertOpposesIff(cfg: Config, r: Rules, t: Tick)
    ensures var s := r.Meddled(t.fan1);
            Opposing(SmokeThenOn(cfg, r, t).1) <==>
            && s.FanDue(cfg, t.smoke, t.nowSmoke) && !cfg.Hot(t.temp)
            && (if t.fan2.Some? then !t.fan2.value else t.ok1)
    ensures FireAlert !in SmokeThenOn(cfg, r, t).1
  {
    SmokeSwitches(cfg, r, t);
  }

  // The smoke has been confirmed since time t: that is when the reading was taken that was the third of smoke in a row,
  // and no reading since has ended the row.
  ghost predicate ConfirmedSince(readings: seq<int>, times: seq<int>, level: int, t: int) {
    exists k :: ThirdAt(readings, times, level, t, k)
  }

  ghost predicate ThirdAt(readings: seq<int>, times: seq<int>, level: int, t: int, k: int) {
    && 0 <= k < |readings| == |times|
    && times[k] == t && readings[k] == level && Streak(readings[..k + 1], level) == 3
    && forall j :: k < j <= |readings| ==> Streak(readings[..j], level) >= 3
  }

  lemma StillConfirmed(readings: seq<int>, times: seq<int>, level: int, t: int, smoke: int, now: int)
    requires ConfirmedSince(readings, times, level, t) && Streak(readings + [smoke], level) >= 3
    ensures ConfirmedSince(readings + [smoke], times + [now], level, t)
  {
    var k :| ThirdAt(readings, times, level, t, k);
    var more := readings + [smoke];
    assert more[..k + 1] == readings[..k + 1] && more[..|more|] == more;
    forall j | k < j <= |more| ensures Streak(more[..j], level) >= 3 {
      assert j <= |readings| ==> more[..j] == readings[..j];
    }
    assert ThirdAt(more, times + [now], level, t, k);
  }

  lemma NowConfirmed(readings: seq<int>, times: seq<int>, level: int, now: int)
    requires |readings| == |times| && Streak(readings + [level], level) == 3
    ensures ConfirmedSince(readings + [level], times + [now], level, now)
  {
    var more := readings + [level];
    assert more[..|readings| + 1] == more;
    assert ThirdAt(more, times + [now], level, now, |readings|);
  }

  class Fan {
    const cfg: Config
    var on: bool
    var until: int
    var lastAlert: int
    var debounce: nat
    var alarmStart: int
    var fault: bool
    var lastFault: int
    ghost var readings: seq<int>  // what auto_control_smoke has been given
    ghost var times: seq<int>     // and when

    // The alarm starts when the smoke is confirmed, and ends with the row. Time 0 stands for no time.
    ghost predicate AlarmOk()
      reads this`alarmStart, this`readings, this`times
    {
      && |readings| == |times|
      && (Streak(readings, cfg.smokeLevel) < 3 ==> alarmStart == 0)
      && (Streak(readings, cfg.smokeLevel) >= 3 && (forall i :: 0 <= i < |times| ==> times[i] != 0) ==>
            alarmStart != 0 && ConfirmedSince(readings, times, cfg.smokeLevel, alarmStart))
    }

    // The counter is the streak of smoke.
    ghost predicate Valid()
      reads this
    {
      debounce == Streak(readings, cfg.smokeLevel) && AlarmOk()
    }

    ghost function Now(): Rules
      reads this
    {
      Rules(on, until, lastAlert, debounce, alarmStart, fault, lastFault)
    }

    constructor (cfg: Config)
      ensures Valid() && this.cfg == cfg && Now() == Rules(false, 0, 0, 0, 0, false, 0) && readings == [] == times
    {
      this.cfg := cfg;
      on, until, lastAlert, debounce, alarmStart, fault, lastFault := false, 0, 0, 0, 0, false, 0;
      readings, times := [], [];
    }

    // What another thread does to the fan state
    method Meddle(other: Option<bool>)
      requires Valid()
      modifies this`on
      ensures Valid() && Now() == old(Now()).Meddled(other)
      ensures on == if other.Some? then other.value else old(on)
    {
      if other.Some? {
        on := other.value;
      }
    }

    // What the next reading makes of the alarm
    lemma AlarmStep(smoke: int, now: int)
      requires AlarmOk()
      ensures var start := if alarmStart == 0 then now else alarmStart;
              var more, ats, level := readings + [smoke], times + [now], cfg.smokeLevel;
              && (smoke == UNREAD ==> Streak(more, level) == Streak(readings, level))
              && (smoke == level != UNREAD ==> Streak(more, level) == Streak(readings, level) + 1)
              && (smoke != level && smoke != UNREAD ==> Streak(more, level) == 0)
              && (Streak(more, level) >= 3 && (forall i :: 0 <= i < |ats| ==> ats[i] != 0) ==>
                    start != 0 && (smoke == UNREAD ==> alarmStart != 0) && ConfirmedSince(more, ats, level, start))
    {
      hide ConfirmedSince, Streak;
      var more, ats, level := readings + [smoke], times + [now], cfg.smokeLevel;
      StreakStep(readings, smoke, level);
      if Streak(more, level) >= 3 && forall i :: 0 <= i < |ats| ==> ats[i] != 0 {
        assert ats[|times|] == now && forall i :: 0 <= i < |times| ==> times[i] == ats[i];
        if Streak(readings, level) >= 3 {
          StillConfirmed(readings, times, level, alarmStart, smoke, now);
        } else {
          NowConfirmed(readings, times, level, now);
        }
      }
    }

    // auto_control_smoke as auto_control calls it, with allow_alert 0. A reading that failed changes nothing. One of
    // smoke counts; from the third in a row on it switches the fan on, unless the row has lasted so long that the
    // sensor is taken to be faulty, which is reported. Any other reading ends the row, and the fan is switched off once
    // its time is up, unless it is hot.
    method AutoControlSmoke(smoke: int, temp: int, now: int, ok: bool) returns (commands: seq<Event>)
      requires Valid()
      modifies this
      ensures Valid() && readings == old(readings) + [smoke] && times == old(times) + [now]
      ensures Now() == old(Now()).AfterSmoke(cfg, smoke, temp, now, ok)
      ensures commands == old(Now()).SmokeCommands(cfg, smoke, temp, now, ok)
      ensures smoke == UNREAD ==> commands == [] && Now() == old(Now())
      ensures smoke == cfg.smokeLevel != UNREAD && Streak(readings, cfg.smokeLevel) < 3 ==>
                commands == [] && Now() == old(Now()).(debounce := old(debounce) + 1)
      ensures smoke == cfg.smokeLevel != UNREAD && Streak(readings, cfg.smokeLevel) >= 3 ==>
                alarmStart == if old(alarmStart) == 0 then now else old(alarmStart)
      ensures smoke == cfg.smokeLevel != UNREAD && Streak(readings, cfg.smokeLevel) >= 3
              && now - alarmStart < cfg.faultTimeout ==>
                && commands == (if old(on) then [] else [Relay(true, ok)]) && on == (old(on) || ok)
                && until == now + cfg.fanDuration && fault == old(fault)
      ensures smoke == cfg.smokeLevel != UNREAD && Streak(readings, cfg.smokeLevel) >= 3
              && now - alarmStart >= cfg.faultTimeout ==>
                && on == old(on) && until == old(until) && fault && (forall e :: e in commands ==> e == FaultAlert)
                && (commands != [] <==> !old(fault) || now - old(lastFault) > cfg.alertInterval)
                && lastFault == if commands == [] then old(lastFault) else now
      ensures smoke != cfg.smokeLevel && smoke != UNREAD ==>
                && debounce == 0 && alarmStart == 0 && !fault
                && var due := old(on) && 0 < old(until) <= now;
                   && until == (if due then 0 else old(until))
                   && (due && (temp < cfg.tempHigh || temp == UNREAD) ==>
                         commands == [Relay(false, ok)] && on == !ok)
                   && (!due || (temp >= cfg.tempHigh && temp != UNREAD) ==> commands == [] && on == old(on))
    {
      hide Streak, ConfirmedSince, Rules.AfterSmoke, Rules.SmokeCommands;
      AlarmStep(smoke, now);
      AfterSmokeIs(smoke, temp, now, ok);
      readings, times := readings + [smoke], times + [now];
      if smoke == UNREAD {
        return [];
      }
      if smoke == cfg.smokeLevel {
        debounce := debounce + 1;
        if debounce < 3 {
          return [];
        }
        commands := InRow(now, ok);
      } else {
        commands := RowOver(temp, now, ok);
      }
    }

    // The part for smoke that is confirmed
    method InRow(now: int, ok: bool) returns (commands: seq<Event>)
      modifies this`on, this`until, this`lastAlert, this`alarmStart, this`fault, this`lastFault
      ensures alarmStart == if old(alarmStart) == 0 then now else old(alarmStart)
      ensures now - alarmStart < cfg.faultTimeout ==>
                && commands == (if old(on) then [] else [Relay(true, ok)]) && on == (old(on) || ok)
                && until == now + cfg.fanDuration && fault == old(fault) && lastFault == old(lastFault)
                && lastAlert == if now - old(lastAlert) > cfg.alertInterval then now else old(lastAlert)
      ensures now - alarmStart >= cfg.faultTimeout ==>
                && on == old(on) && until == old(until) && lastAlert == old(lastAlert) && fault
                && commands == old(Now()).FaultAlerts(cfg, now) && (forall e :: e in commands ==> e == FaultAlert)
                && (commands != [] <==> !old(fault) || now - old(lastFault) > cfg.alertInterval)
                && lastFault == if commands == [] then old(lastFault) else now
    {
      if alarmStart == 0 {
        alarmStart := now;
      }
      if now - alarmStart >= cfg.faultTimeout {
        commands := ReportFault(now);
        return;
      }
      commands := [];
      if !on {
        commands := [Relay(true, ok)];
        if ok {
          on := true;
        }
      }
      until := now + cfg.fanDuration;
      if now - lastAlert > cfg.alertInterval {
        lastAlert := now;
      }
    }

    // And the part for a reading without smoke
    method RowOver(temp: int, now: int, ok: bool) returns (commands: seq<Event>)
      modifies this`on, this`until, this`debounce, this`alarmStart, this`fault
      ensures debounce == 0 && alarmStart == 0 && !fault
      ensures var due := old(on) && 0 < old(until) <= now;
              && until == (if due then 0 else old(until))
              && (due && (temp < cfg.tempHigh || temp == UNREAD) ==> commands == [Relay(false, ok)] && on == !ok)
              && (!due || (temp >= cfg.tempHigh && temp != UNREAD) ==> commands == [] && on == old(on))
    {
      commands := [];
      debounce, alarmStart, fault := 0, 0, false;
      if on && until > 0 && now >= until {
        if temp < cfg.tempHigh || temp == UNREAD {
          commands := [Relay(false, ok)];
          if ok {
            on := false;
          }
        }
        until := 0;
      }
    }

    lemma AfterSmokeIs(smoke: int, temp: int, now: int, ok: bool)
      ensures var r, start := Now(), if alarmStart == 0 then now else alarmStart;
              var after, commands := r.AfterSmoke(cfg, smoke, temp, now, ok),
                r.SmokeCommands(cfg, smoke, temp, now, ok);
              if smoke == UNREAD then after == r && commands == []
              else if smoke != cfg.smokeLevel then
                var due := on && 0 < until <= now;
                var off := due && (temp < cfg.tempHigh || temp == UNREAD);
                && after == Rules(on && !(off && ok), if due then 0 else until, lastAlert, 0, 0, false, lastFault)
                && commands == if off then [Relay(false, ok)] else []
              else if debounce < 2 then after == r.(debounce := debounce + 1) && commands == []
              else if now - start < cfg.faultTimeout then
                && after == Rules(on || ok, now + cfg.fanDuration,
                                  if now - lastAlert > cfg.alertInterval then now else lastAlert,
                                  debounce + 1, start, fault, lastFault)
                && commands == if on then [] else [Relay(true, ok)]
              else
                && after == r.(debounce := debounce + 1, alarmStart := start, fault := true,
                               lastFault := if r.FaultAlerts(cfg, now) == [] then lastFault else now)
                && commands == r.FaultAlerts(cfg, now)
    {
    }

    // A sensor that keeps reporting smoke is reported as faulty: at first, and then each time the interval is over.
    method ReportFault(now: int) returns (alerts: seq<Event>)
      modifies this`fault, this`lastFault
      ensures fault && alerts == old(Now()).FaultAlerts(cfg, now)
      ensures lastFault == if alerts == [] then old(lastFault) else now
      ensures alerts != [] <==> !old(fault) || now - old(lastFault) > cfg.alertInterval
      ensures forall e :: e in alerts ==> e == FaultAlert
    {
      alerts := [];
      if !fault {
        fault := true;
        alerts := alerts + [FaultAlert];
        lastFault := now;
      }
      if now - lastFault > cfg.alertInterval {
        alerts := alerts + [FaultAlert];
        lastFault := now;
      }
    }

    // auto_control_temp: on above the one threshold, off below the other, unless there is smoke or the time of the
    // smoke fan is not up.
    method AutoControlTemp(temp: int, smoke: int, now: int, ok: bool) returns (commands: seq<Event>)
      requires Valid()
      modifies this`on
      ensures Valid() && Now() == old(Now()).AfterTemp(cfg, temp, smoke, now, ok)
      ensures commands == old(Now()).TempCommands(cfg, temp, smoke, now, ok)
      ensures temp == UNREAD || smoke == cfg.smokeLevel || now < until ==> commands == [] && on == old(on)
      ensures temp != UNREAD && smoke != cfg.smokeLevel && now >= until ==>
                && (temp > cfg.tempHigh && !old(on) ==> commands == [Relay(true, ok)] && on == ok)
                && (temp < cfg.tempLow && old(on) ==> commands == [Relay(false, ok)] && on == !ok)
                && ((if old(on) then temp >= cfg.tempLow else temp <= cfg.tempHigh) ==>
                      commands == [] && on == old(on))
    {
      if temp == UNREAD {
        return [];
      }
      if smoke == cfg.smokeLevel || now < until {
        return [];
      }
      if temp > cfg.tempHigh && !on {
        if ok {
          on := true;
        }
        return [Relay(true, ok)];
      } else if temp < cfg.tempLow && on {
        if ok {
          on := false;
        }
        return [Relay(false, ok)];
      }
      commands := [];
    }

    // The calls of auto_control, as they follow each other in the different states

    method ControlTemp(t: Tick) returns (commands: seq<Event>)
      requires Valid()
      modifies this
      ensures Valid() && readings == old(readings) && times == old(times)
      ensures (Now(), commands) == TempOnly(cfg, old(Now()), t)
    {
      Meddle(t.fan2);
      commands := AutoControlTemp(t.temp, t.smoke, t.nowTemp, t.ok2);
    }

    method ControlBoth(t: Tick) returns (commands: seq<Event>)
      requires Valid()
      modifies this
      ensures Valid() && readings == old(readings) + [t.smoke] && times == old(times) + [t.nowSmoke]
      ensures (Now(), commands) == SmokeThenTemp(cfg, old(Now()), t)
    {
      hide Streak, Rules.AfterSmoke, Rules.SmokeCommands, TempOnly;
      Meddle(t.fan1);
      commands := AutoControlSmoke(t.smoke, t.temp, t.nowSmoke, t.ok1);
      var more := ControlTemp(t);
      commands := commands + more;
    }

    // In ALERT the fan is switched on whatever the smoke sensor says.
    method ControlAlert(t: Tick) returns (commands: seq<Event>)
      requires Valid()
      modifies this
      ensures Valid() && readings == old(readings) + [t.smoke] && times == old(times) + [t.nowSmoke]
      ensures (Now(), commands) == SmokeThenOn(cfg, old(Now()), t)
      ensures t.ok2 ==> on
      ensures t.fan2 == Some(false) ==> commands != [] && commands[|commands| - 1] == Relay(true, t.ok2) && on == t.ok2
    {
      hide Streak, Rules.AfterSmoke, Rules.SmokeCommands;
      Meddle(t.fan1);
      commands := AutoControlSmoke(t.smoke, t.temp, t.nowSmoke, t.ok1);
      Meddle(t.fan2);
      if !on {
        if t.ok2 {
          on := true;
        }
        commands := commands + [Relay(true, t.ok2)];
      }
    }
  }
}

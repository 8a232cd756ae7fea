/** The five fan attributes as one subscriber reads them together. */
module FanConsistency {
  import opened AcTypes
  import opened FanMapping
  import opened Kernel
  import opened MachineInts
  import opened Options
  import opened Projector
  import opened RunInvariants
  import opened TwinFields

  /** The settings agree in the terms of the FanControl cluster: all Off, all Auto, or a
      percent in the speed's range and the mode of that speed. */
  predicate SettingsAgree(p: Projection) {
    match p.speedSetting
    case None => p.percentSetting.None? && p.fanMode == FanModeCategory.Auto
    case Some(speed) =>
      p.percentSetting.Some? &&
      var percent := p.percentSetting.value;
      if speed == 0 then percent == 0 && p.fanMode == FanModeCategory.Off
      else
        && (speed - 1) * 100 < FAN_SPEED_MAX * percent <= speed * 100
        && p.fanMode == (if speed <= 2 then FanModeCategory.Low
                         else if speed <= 4 then FanModeCategory.Medium
                         else FanModeCategory.High)
  }

  /** The current speed is the set one, or the middle of the range in Auto, and the
      current percent is its share of the maximum, rounded down. */
  predicate CurrentsAgree(p: Projection) {
    && p.speedCurrent == p.speedSetting.UnwrapOr(3)
    && p.percentCurrent * FAN_SPEED_MAX <= p.speedCurrent * 100 < (p.percentCurrent + 1) * FAN_SPEED_MAX
  }

  predicate Consistent(p: Projection) {
    SettingsAgree(p) && CurrentsAgree(p)
  }

  /** The attribute layer turns percent 0 into a power-off and rejects values over 100. */
  predicate PercentInRange(i: WriteIntent) {
    i.SetPercent? && i.percent.Some? ==> 1 <= i.percent.value <= 100
  }

  ghost predicate PercentsInRange(es: seq<Event>) {
    forall i :: 0 <= i < |es| ==>
      && (es[i].Intent? ==> PercentInRange(es[i].intent))
      && (es[i].Bundle? ==> forall x :: x in es[i].intents ==> PercentInRange(x))
  }

  predicate Remembered(ac: AcState) {
    ac.fanPercent.Some? ==> 1 <= ac.fanPercent.value <= 100
  }

  lemma {:induction false} WritesKeepRemembered(cfg: Config, now: int, k: KernelState, xs: seq<WriteIntent>)
    requires Remembered(k.ac) && forall x :: x in xs ==> PercentInRange(x)
    ensures Remembered(ApplyAll(cfg, now, k, xs).ac)
  {
    if xs != [] {
      WritesKeepRemembered(cfg, now, k, xs[..|xs| - 1]);
      assert xs[|xs| - 1] in xs;
    }
  }

  lemma {:induction false} NonEdgesAmong(xs: seq<WriteIntent>)
    ensures forall x :: x in NonEdges(xs) ==> x in xs && !IsEdge(x)
  {
    if xs != [] {
      NonEdgesAmong(xs[..|xs| - 1]);
    }
  }

  lemma {:induction false} RememberedInEveryRun(cfg: Config, es: seq<Event>)
    requires PercentsInRange(es)
    ensures Remembered(Run(cfg, BootState(), es).ac)
  {
    if es != [] {
      var prior, e := es[..|es| - 1], es[|es| - 1];
      assert PercentsInRange(prior);
      RememberedInEveryRun(cfg, prior);
      var k := Run(cfg, BootState(), prior);
      if e.Bundle? {
        var centred := WriteCentre(cfg, e.now, k,
          Midpoint(LastHeat(e.intents).UnwrapOr(0), LastCool(e.intents).UnwrapOr(0)));
        NonEdgesAmong(e.intents);
        WritesKeepRemembered(cfg, e.now, centred, NonEdges(e.intents));
        WritesKeepRemembered(cfg, e.now, k, e.intents);
      }
    }
  }

  /** The attributes agree exactly when the remembered percent stands for the projected level. */
  lemma ConsistentIff(cfg: Config, ac: AcState)
    requires Remembered(ac) && ac.onOff.Projected()
    ensures Consistent(Project(cfg, ac)) <==> LevelOf(ac.fanPercent) == ac.fan.Projected()
  {
  }

  /** In every reachable state: a unit projected off reads off throughout, and one
      projected on reads consistently as soon as the wanted and observed level agree. */
  lemma FanReadsConsistently(cfg: Config, es: seq<Event>)
    requires PercentsInRange(es)
    requires var ac := Run(cfg, BootState(), es).ac; ac.onOff.Projected() ==> ac.fan.desired == ac.fan.observed
    ensures Consistent(Project(cfg, Run(cfg, BootState(), es).ac))
  {
    var ac := Run(cfg, BootState(), es).ac;
    if ac.onOff.Projected() {
      RememberedInEveryRun(cfg, es);
      PercentTracksFanInEveryRun(cfg, es);
      ConsistentIff(cfg, ac);
    }
  }

  /** While a controller's write still owns the fan, the fan reads consistently
      exactly when that write is not in flight, or is in flight to the level the
      device already runs at. */
  lemma ConsistentUntilSent(cfg: Config, es: seq<Event>)
    requires PercentsInRange(es)
    requires var ac := Run(cfg, BootState(), es).ac; ac.onOff.Projected() && ac.fan.attribution != Device
    ensures var ac := Run(cfg, BootState(), es).ac;
            Consistent(Project(cfg, ac)) <==> ac.fan.inFlight.None? || ac.fan.desired == ac.fan.observed
  {
    RememberedInEveryRun(cfg, es);
    PercentTracksFanInEveryRun(cfg, es);
    ConsistentIff(cfg, Run(cfg, BootState(), es).ac);
  }

  /** What a poll does to the agreement, in every reachable state of a unit shown on
      afterwards: a confirmed write and a change at the panel leave the fan consistent, a
      poll that reports nothing new leaves it as it was, and a poll that contradicts the
      level in flight leaves it consistent exactly when it reports the level wanted. */
  lemma ConsistentAfterPoll(cfg: Config, es: seq<Event>, now: int, poll: OperationalPoll)
    requires PercentsInRange(es)
    requires ApplyPoll(cfg, now, Run(cfg, BootState(), es), poll).ac.onOff.Projected()
    ensures var k := Run(cfg, BootState(), es);
            var fan, reported := k.ac.fan, FromS21Fan(poll.fan);
            Consistent(Project(cfg, ApplyPoll(cfg, now, k, poll).ac)) <==>
            if fan.inFlight == Some(reported) || fan.External(reported) then true
            else if reported == fan.observed then LevelOf(k.ac.fanPercent) == fan.Projected()
            else reported == fan.desired
  {
    RememberedInEveryRun(cfg, es);
    PercentTracksFanInEveryRun(cfg, es);
    PromisesKeptInEveryRun(cfg, es);
    LevelSurvivesPercent(FromS21Fan(poll.fan));
    ConsistentIff(cfg, ApplyPoll(cfg, now, Run(cfg, BootState(), es), poll).ac);
  }

  /** A poll from a running unit on Medium, a write of speed 6 answered by a clamp to
      level 2: afterwards the speed reads 6 and the percent 33. */
  lemma ClampLeavesFanApart()
    ensures var es := [
              Poll(5000, OperationalPoll(true, S21Mode.Cool, 2400, S21Fan.Medium, None)),
              Intent(7000, SetSpeed(Some(6))),
              Sent(Command(true, S21Mode.Cool, 2400, S21Fan.High)),
              Poll(8000, OperationalPoll(true, S21Mode.Cool, 2400, S21Fan.Low, None))];
            var p := Project(DEFAULT_CONFIG, Run(DEFAULT_CONFIG, BootState(), es).ac);
            p.speedSetting == Some(6) && p.percentSetting == Some(33) && !Consistent(p)
  {
    var cfg := DEFAULT_CONFIG;
    var e0 := Poll(5000, OperationalPoll(true, S21Mode.Cool, 2400, S21Fan.Medium, None));
    var e1 := Intent(7000, SetSpeed(Some(6)));
    var e2 := Sent(Command(true, S21Mode.Cool, 2400, S21Fan.High));
    var e3 := Poll(8000, OperationalPoll(true, S21Mode.Cool, 2400, S21Fan.Low, None));
    RunFour(cfg, BootState(), e0, e1, e2, e3);
    var k1 := Step(cfg, BootState(), e0);
    assert k1.ac.fan == Twin(Some(4), Some(4), None, Device, Device);
    var k2 := Step(cfg, k1, e1);
    assert k2.ac.fan == Twin(Some(4), Some(6), None, Device, Matter);
    var k3 := Step(cfg, k2, e2);
    assert k3.ac.fan.inFlight == Some(Some(6));
    var k4 := Step(cfg, k3, e3);
    assert k4.ac.fan == Twin(Some(2), Some(6), None, Device, Device);
    assert k4.ac.onOff.Projected();
  }

  lemma RunFour(cfg: Config, k: KernelState, e0: Event, e1: Event, e2: Event, e3: Event)
    ensures Run(cfg, k, [e0, e1, e2, e3]) == Step(cfg, Step(cfg, Step(cfg, Step(cfg, k, e0), e1), e2), e3)
  {
    assert [] + [e0] == [e0];
    assert [e0] + [e1] == [e0, e1];
    assert [e0, e1] + [e2] == [e0, e1, e2];
    assert [e0, e1, e2] + [e3] == [e0, e1, e2, e3];
    RunExtended(cfg, k, [], e0);
    RunExtended(cfg, k, [e0], e1);
    RunExtended(cfg, k, [e0, e1], e2);
    RunExtended(cfg, k, [e0, e1, e2], e3);
  }

  // ----- The exact percent -----

  predicate IdlePoll(e: Event, level: FanSpeed) {
    e.Poll? && FromS21Fan(e.poll.fan) == level
  }

  /** From every state, the poll that confirms the wanted level keeps the remembered
      percent exactly when the device ran at that level already, a controller still owns
      the fan at the send, or the percent is the one derived from the level. */
  lemma ConfirmationKeepsPercentIff(cfg: Config, k: KernelState, cmd: Command, echo: Event)
    requires IdlePoll(echo, k.ac.fan.desired)
    ensures var level := k.ac.fan.desired;
            var done := Step(cfg, CommandSent(k, cmd), echo).ac;
            && done.fan.Settled(level)
            && (done.fanPercent == k.ac.fanPercent <==>
                  || k.ac.fan.observed == level
                  || k.ac.fan.attribution != Device
                  || k.ac.fanPercent == DerivedPercent(level))
  {
  }

  /** The device owns the fan by the time a level written now is sent, with so many idle
      polls in between: the write asserted a level already wanted and did not take the
      fan over, or a poll that found nothing in flight took it back. A first poll that
      confirms an older command does not count. */
  predicate DeviceOwnsAtSend(fan: Twin<FanSpeed>, level: FanSpeed, polls: nat) {
    || (level == fan.desired && fan.attribution == Device)
    || (fan.inFlight.None? && polls >= 1)
    || (fan.inFlight == Some(fan.observed) && polls >= 2)
  }

  /** From any state, a percent write that gets past the guard, some polls that repeat the
      observed level, the send, and the poll that confirms it: the exact percent survives
      iff the device ran at its level already, does not own the fan at the send, or the
      percent is the canonical one of its level. */
  lemma ExactPercentSurvival(
      cfg: Config, now: int, k: KernelState, percent: byte, idle: seq<Event>, cmd: Command, echo: Event)
    requires Some(PercentToSpeedLevel(percent)) == k.ac.fan.observed || WindowOver(cfg, now, k.stamps.fan)
    requires forall i :: 0 <= i < |idle| ==> IdlePoll(idle[i], k.ac.fan.observed)
    requires IdlePoll(echo, Some(PercentToSpeedLevel(percent)))
    ensures var level := Some(PercentToSpeedLevel(percent));
            var written := ApplyIntent(cfg, now, k, SetPercent(Some(percent)));
            var done := Step(cfg, CommandSent(Run(cfg, written, idle), cmd), echo).ac;
            && done.fan.Settled(level)
            && (done.fanPercent == Some(percent) <==>
                  || k.ac.fan.observed == level
                  || !DeviceOwnsAtSend(k.ac.fan, level, |idle|)
                  || DerivedPercent(level) == Some(percent))
  {
    var level := Some(PercentToSpeedLevel(percent));
    var written := ApplyIntent(cfg, now, k, SetPercent(Some(percent)));
    assert written.ac.fan == k.ac.fan.WithDesired(level) && written.ac.fanPercent == Some(percent);
    hide ApplyIntent, CommandSent, Step, WindowOver, PercentToSpeedLevel, DerivedPercent;
    IdlePolls(cfg, written, idle);
    ConfirmationKeepsPercentIff(cfg, Run(cfg, written, idle), cmd, echo);
  }

  lemma {:induction false} IdlePolls(cfg: Config, k: KernelState, idle: seq<Event>)
    requires forall i :: 0 <= i < |idle| ==> IdlePoll(idle[i], k.ac.fan.observed)
    ensures var after, fan := Run(cfg, k, idle).ac, k.ac.fan;
            && after.fanPercent == k.ac.fanPercent
            && after.fan.observed == fan.observed && after.fan.desired == fan.desired
            && after.fan.inFlight ==
                 (if idle != [] && fan.inFlight == Some(fan.observed) then None else fan.inFlight)
            && after.fan.attribution ==
                 (if |idle| >= (match fan.inFlight case None => 1
                                case Some(sent) => if sent == fan.observed then 2 else |idle| + 1)
                  then Device else fan.attribution)
  {
    if idle != [] {
      IdlePolls(cfg, k, idle[..|idle| - 1]);
    }
  }

  const HIGH_POLL := OperationalPoll(true, S21Mode.Cool, 2400, S21Fan.High, None)

  /** A unit on High and 50 percent written, with an idle poll before it was sent. */
  function PollWritePoll(): seq<Event> {
    [Poll(5000, HIGH_POLL), Intent(7000, SetPercent(Some(50))), Poll(8000, HIGH_POLL)]
  }

  lemma DeviceOwnsUnsentLevel()
    ensures var k := Run(DEFAULT_CONFIG, BootState(), PollWritePoll());
            k.ac.fan == Twin(Some(6), Some(3), None, Device, Device) && k.stamps.fan == 8000
  {
    var cfg := DEFAULT_CONFIG;
    var e0, e1, e2 := Poll(5000, HIGH_POLL), Intent(7000, SetPercent(Some(50))), Poll(8000, HIGH_POLL);
    assert [] + [e0] == [e0] && [e0] + [e1] == [e0, e1] && [e0, e1] + [e2] == [e0, e1, e2];
    RunExtended(cfg, BootState(), [], e0);
    RunExtended(cfg, BootState(), [e0], e1);
    RunExtended(cfg, BootState(), [e0, e1], e2);
    hide Run;
    var k1 := Step(cfg, BootState(), e0);
    assert k1.ac.fan == Twin(Some(6), Some(6), None, Device, Device) && k1.stamps.fan == 5000;
    var k2 := Step(cfg, k1, e1);
    assert k2.ac.fan == Twin(Some(6), Some(3), None, Device, Matter);
  }

  /** Then no further poll is needed: 45 percent is the same level, so writing it does not
      take the fan over. Sent and confirmed at once, the fan reads 50. */
  lemma RewriteLosesPercent(cmd: Command)
    ensures var cfg := DEFAULT_CONFIG;
            var rewritten := ApplyIntent(cfg, 9500, Run(cfg, BootState(), PollWritePoll()), SetPercent(Some(45)));
            var echo := Poll(10000, HIGH_POLL.(fan := S21Fan.MidLow));
            && rewritten.ac.fanPercent == Some(45)
            && Step(cfg, CommandSent(rewritten, cmd), echo).ac.fanPercent == Some(50)
  {
    var cfg := DEFAULT_CONFIG;
    var k := Run(cfg, BootState(), PollWritePoll());
    hide Run;
    DeviceOwnsUnsentLevel();
    var rewritten := ApplyIntent(cfg, 9500, k, SetPercent(Some(45)));
    assert rewritten.ac.fan == k.ac.fan && rewritten.ac.fanPercent == Some(45);
  }
}

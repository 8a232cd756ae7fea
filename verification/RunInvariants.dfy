/** What holds in every state the kernel reaches from boot. */
module RunInvariants {
  import opened AcTypes
  import opened DeviceView
  import opened FanMapping
  import opened Kernel
  import opened Options
  import opened TwinFields

  // ----- Stamps -----

  predicate Timed(e: Event) {
    e.Intent? || e.Bundle? || e.Poll?
  }

  /** The clock starts at zero or later and never runs backwards. */
  ghost predicate Chronological(es: seq<Event>) {
    && (forall i :: 0 <= i < |es| && Timed(es[i]) ==> es[i].now >= 0)
    && (forall i, j :: 0 <= i < j < |es| && Timed(es[i]) && Timed(es[j]) ==> es[i].now <= es[j].now)
  }

  /** Power, mode and fan are reported together. */
  predicate StampsAligned(s: Stamps) {
    s.onOff == s.mode == s.fan
  }

  /** A setpoint is never fresher than the poll that carried it. */
  predicate StampsBounded(s: Stamps) {
    0 <= s.heat <= s.onOff && 0 <= s.cool <= s.onOff && 0 <= s.auto <= s.onOff
  }

  lemma {:induction false} AlignedInEveryRun(cfg: Config, es: seq<Event>)
    ensures StampsAligned(Run(cfg, BootState(), es).stamps)
  {
    if es != [] {
      var prior, e := es[..|es| - 1], es[|es| - 1];
      AlignedInEveryRun(cfg, prior);
      if !FromDevice(e) {
        ControllerUnseen(cfg, Run(cfg, BootState(), prior), e);
        assert See(Run(cfg, BootState(), es)) == See(Run(cfg, BootState(), prior));
      }
    }
  }

  /** With a monotone clock the common stamp bounds every setpoint stamp, and is the
      time of a past poll or zero. */
  lemma {:induction false} BoundedInEveryRun(cfg: Config, es: seq<Event>)
    requires Chronological(es)
    ensures var s := Run(cfg, BootState(), es).stamps;
            StampsBounded(s) && (s.onOff == 0 || exists i :: 0 <= i < |es| && es[i].Poll? && es[i].now == s.onOff)
  {
    if es != [] {
      var prior, e := es[..|es| - 1], es[|es| - 1];
      assert Chronological(prior);
      BoundedInEveryRun(cfg, prior);
      var s := Run(cfg, BootState(), prior).stamps;
      if e.Poll? {
        assert s.onOff <= e.now;
        assert es[|es| - 1].Poll? && es[|es| - 1].now == e.now;
      } else {
        if !FromDevice(e) {
          ControllerUnseen(cfg, Run(cfg, BootState(), prior), e);
          assert See(Run(cfg, BootState(), es)) == See(Run(cfg, BootState(), prior));
        }
        if s.onOff != 0 {
          var i :| 0 <= i < |prior| && prior[i].Poll? && prior[i].now == s.onOff;
          assert es[i].Poll? && es[i].now == s.onOff;
        }
      }
    }
  }

  /** Turning the unit on in another mode takes hold on both axes or on neither, and
      the window since the last poll alone decides which. */
  lemma PowerAndModeTogether(cfg: Config, es: seq<Event>, now: int, mode: OperationalMode)
    requires var k := Run(cfg, BootState(), es); !k.ac.onOff.observed && mode != k.ac.mode.observed
    ensures var k := Run(cfg, BootState(), es);
            ApplyIntent(cfg, now, k, SetSystemMode(true, mode)) ==
            if WindowOver(cfg, now, k.stamps.onOff)
            then k.(ac := k.ac.(onOff := k.ac.onOff.WithDesired(true), mode := k.ac.mode.WithDesired(mode)))
            else k
  {
    AlignedInEveryRun(cfg, es);
  }

  /** The fan level a write asks for. */
  function LevelWanted(i: WriteIntent): FanSpeed
    requires i.SetSpeed? || (i.SetPercent? && i.percent.Some?)
  {
    if i.SetSpeed? then i.speed else Some(PercentToSpeedLevel(i.percent.value))
  }

  /** A new fan level for a unit that is off, written as a speed or as a percent, starts
      the unit too and remembers a percent of that level, or does nothing. */
  lemma PowerAndFanTogether(cfg: Config, es: seq<Event>, now: int, i: WriteIntent)
    requires i.SetSpeed? || (i.SetPercent? && i.percent.Some?)
    requires var k := Run(cfg, BootState(), es); !k.ac.onOff.observed && LevelWanted(i) != k.ac.fan.observed
    ensures var k := Run(cfg, BootState(), es);
            var r := ApplyIntent(cfg, now, k, i);
            if WindowOver(cfg, now, k.stamps.onOff)
            then
              && r == k.(ac := k.ac.(onOff := k.ac.onOff.WithDesired(true),
                                     fan := k.ac.fan.WithDesired(LevelWanted(i)),
                                     fanPercent := r.ac.fanPercent))
              && LevelOf(r.ac.fanPercent) == LevelWanted(i)
            else r == k
  {
    AlignedInEveryRun(cfg, es);
    LevelSurvivesPercent(LevelWanted(i));
  }

  /** Whenever a power, mode or fan write gets past the device-wins window, so does a
      setpoint write made at the same moment. */
  lemma SetpointsPassWhenModeDoes(cfg: Config, es: seq<Event>, now: int)
    requires Chronological(es)
    requires WindowOver(cfg, now, Run(cfg, BootState(), es).stamps.mode)
    ensures var s := Run(cfg, BootState(), es).stamps;
            && WindowOver(cfg, now, s.heat)
            && WindowOver(cfg, now, s.cool)
            && WindowOver(cfg, now, s.auto)
  {
    AlignedInEveryRun(cfg, es);
    BoundedInEveryRun(cfg, es);
  }

  // ----- In flight -----

  /** Unless a controller has spoken since, what is in flight is what is wanted. */
  predicate PromiseKept<T(==)>(t: Twin<T>) {
    t.inFlight.Some? && t.attribution != Matter ==> t.desired == t.inFlight.value
  }

  predicate PromisesKept(ac: AcState) {
    && PromiseKept(ac.onOff) && PromiseKept(ac.mode) && PromiseKept(ac.fan)
    && PromiseKept(ac.heat) && PromiseKept(ac.cool) && PromiseKept(ac.auto)
  }

  lemma WriteKeepsPromises(cfg: Config, now: int, k: KernelState, i: WriteIntent)
    requires PromisesKept(k.ac)
    ensures PromisesKept(ApplyIntent(cfg, now, k, i).ac)
  {
  }

  lemma {:induction false} WritesKeepPromises(cfg: Config, now: int, k: KernelState, xs: seq<WriteIntent>)
    requires PromisesKept(k.ac)
    ensures PromisesKept(ApplyAll(cfg, now, k, xs).ac)
  {
    if xs != [] {
      WritesKeepPromises(cfg, now, k, xs[..|xs| - 1]);
      WriteKeepsPromises(cfg, now, ApplyAll(cfg, now, k, xs[..|xs| - 1]), xs[|xs| - 1]);
    }
  }

  lemma {:induction false} PromisesKeptInEveryRun(cfg: Config, es: seq<Event>)
    ensures PromisesKept(Run(cfg, BootState(), es).ac)
  {
    if es != [] {
      var prior, e := es[..|es| - 1], es[|es| - 1];
      PromisesKeptInEveryRun(cfg, prior);
      var k := Run(cfg, BootState(), prior);
      match e {
        case Intent(now, i) => WriteKeepsPromises(cfg, now, k, i);
        case Bundle(now, xs) =>
          if Collapses(k, xs) {
            var centred := WriteCentre(cfg, now, k, Midpoint(LastHeat(xs).value, LastCool(xs).value));
            WritesKeepPromises(cfg, now, centred, NonEdges(xs));
          } else {
            WritesKeepPromises(cfg, now, k, xs);
          }
        case _ =>
      }
    }
  }

  // ----- Running mode -----

  predicate RunningModeSound(ac: AcState) {
    && (ac.runningMode != RunningMode.Off ==> ac.onOff.observed)
    && (ac.runningMode == Cooling ==>
          ac.mode.observed == OperationalMode.Cool || ac.mode.observed == OperationalMode.Auto)
    && (ac.runningMode == Heating ==>
          ac.mode.observed == OperationalMode.Heat || ac.mode.observed == OperationalMode.Auto)
  }

  /** The bridge never claims to heat or cool in a unit that is off or in a mode that
      cannot, whatever the temperatures, setpoints, valve and hysteresis. */
  lemma {:induction false} RunningModeSoundInEveryRun(cfg: Config, es: seq<Event>)
    ensures RunningModeSound(Run(cfg, BootState(), es).ac)
  {
    if es != [] {
      var prior, e := es[..|es| - 1], es[|es| - 1];
      RunningModeSoundInEveryRun(cfg, prior);
      if !FromDevice(e) {
        ControllerUnseen(cfg, Run(cfg, BootState(), prior), e);
        assert See(Run(cfg, BootState(), es)) == See(Run(cfg, BootState(), prior));
      }
    }
  }

  /** A unit that is off does nothing, and one that names its direction in the mode byte
      runs in it, whatever the valve and the temperatures say. */
  lemma ModeByteDecides(cfg: Config, now: int, k: KernelState, poll: OperationalPoll)
    ensures var ac := ApplyPoll(cfg, now, k, poll).ac;
            && (!poll.onOff ==> ac.runningMode == RunningMode.Off)
            && (poll.onOff && poll.mode == S21Mode.AutoCooling ==>
                  ac.runningMode == Cooling && ac.mode.observed == OperationalMode.Auto)
            && (poll.onOff && poll.mode == S21Mode.AutoHeating ==>
                  ac.runningMode == Heating && ac.mode.observed == OperationalMode.Auto)
  {
  }

  /** A running unit that reports neither a direction nor its valve: the indoor
      temperature decides, outside the hysteresis around the setpoint just reported,
      and only in the direction the mode allows. */
  lemma TemperatureDecides(cfg: Config, now: int, k: KernelState, poll: OperationalPoll)
    requires cfg.hysteresis >= 0
    requires poll.onOff && poll.valveOpen.None? && DirectionHint(poll.mode).None?
    ensures var running, mode := ApplyPoll(cfg, now, k, poll).ac.runningMode, FromS21Mode(poll.mode);
            && (running == Cooling <==>
                  && (mode == OperationalMode.Cool || mode == OperationalMode.Auto)
                  && k.ac.indoor.Some? && k.ac.indoor.value > poll.setpoint + cfg.hysteresis)
            && (running == Heating <==>
                  && (mode == OperationalMode.Heat || mode == OperationalMode.Auto)
                  && k.ac.indoor.Some? && k.ac.indoor.value < poll.setpoint - cfg.hysteresis)
  {
  }

  /** A running unit that reports its valve: the valve decides whether it heats or cools
      at all, the mode which of the two, and in Auto the indoor temperature. */
  lemma ValveDecides(cfg: Config, now: int, k: KernelState, poll: OperationalPoll)
    requires poll.onOff && poll.valveOpen.Some? && DirectionHint(poll.mode).None?
    ensures var running, mode := ApplyPoll(cfg, now, k, poll).ac.runningMode, FromS21Mode(poll.mode);
            && (running != RunningMode.Off <==>
                  poll.valveOpen.value && mode != OperationalMode.Dry && mode != OperationalMode.FanOnly)
            && (running == Heating <==>
                  && poll.valveOpen.value
                  && (|| mode == OperationalMode.Heat
                      || (mode == OperationalMode.Auto && k.ac.indoor.Some? && k.ac.indoor.value < poll.setpoint)))
  {
  }

  // ----- Fan level and remembered percent -----

  /** The remembered percent stands for the wanted or the observed level, and for the
      wanted one unless the device had the last word. */
  predicate PercentTracksFan(ac: AcState) {
    && (LevelOf(ac.fanPercent) == ac.fan.desired || LevelOf(ac.fanPercent) == ac.fan.observed)
    && (ac.fan.attribution != Device ==> LevelOf(ac.fanPercent) == ac.fan.desired)
  }

  lemma WriteKeepsPercent(cfg: Config, now: int, k: KernelState, i: WriteIntent)
    requires PercentTracksFan(k.ac)
    ensures PercentTracksFan(ApplyIntent(cfg, now, k, i).ac)
  {
    if i.SetSpeed? {
      LevelSurvivesPercent(i.speed);
    }
  }

  lemma {:induction false} WritesKeepPercent(cfg: Config, now: int, k: KernelState, xs: seq<WriteIntent>)
    requires PercentTracksFan(k.ac)
    ensures PercentTracksFan(ApplyAll(cfg, now, k, xs).ac)
  {
    if xs != [] {
      WritesKeepPercent(cfg, now, k, xs[..|xs| - 1]);
      WriteKeepsPercent(cfg, now, ApplyAll(cfg, now, k, xs[..|xs| - 1]), xs[|xs| - 1]);
    }
  }

  lemma {:induction false} PercentTracksFanInEveryRun(cfg: Config, es: seq<Event>)
    ensures PercentTracksFan(Run(cfg, BootState(), es).ac)
  {
    if es != [] {
      var prior, e := es[..|es| - 1], es[|es| - 1];
      PercentTracksFanInEveryRun(cfg, prior);
      var k := Run(cfg, BootState(), prior);
      match e {
        case Intent(now, i) => WriteKeepsPercent(cfg, now, k, i);
        case Bundle(now, xs) =>
          if Collapses(k, xs) {
            var centred := WriteCentre(cfg, now, k, Midpoint(LastHeat(xs).value, LastCool(xs).value));
            WritesKeepPercent(cfg, now, centred, NonEdges(xs));
          } else {
            WritesKeepPercent(cfg, now, k, xs);
          }
        case Poll(now, poll) => LevelSurvivesPercent(FromS21Fan(poll.fan));
        case _ =>
      }
    }
  }
}

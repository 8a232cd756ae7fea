/** A subscriber that re-reads exactly what is reported never goes out of date. */
module Subscriber {
  import opened AcTypes
  import opened DeviceView
  import opened FanMapping
  import opened Kernel
  import opened MachineInts
  import opened Options
  import opened Projector
  import opened TwinFields

  /** The last answer a subscriber got for each attribute it follows. */
  type Copy = map<Attribute, Reading>

  ghost predicate UpToDate(copy: Copy, p: Projection) {
    forall a :: a in copy ==> copy[a] == Read(p, a)
  }

  function Refresh(copy: Copy, dirty: seq<Attribute>, p: Projection): Copy {
    map a | a in copy :: if a in dirty then Read(p, a) else copy[a]
  }

  predicate Reporting(e: Event) {
    e.Intent? || e.Bundle? || e.Poll? || e.Environment?
  }

  /** The subscriber's copy after a run in which step i published reports[i]. */
  function Follow(cfg: Config, k: KernelState, es: seq<Event>, reports: seq<seq<Attribute>>, copy: Copy): Copy
    requires |reports| == |es|
  {
    if es == [] then copy
    else
      var n := |es| - 1;
      Refresh(Follow(cfg, k, es[..n], reports[..n], copy), reports[n], Project(cfg, Run(cfg, k, es).ac))
  }

  /** Each step published what the reconciler's methods are proved to publish. */
  ghost predicate Published(cfg: Config, k: KernelState, es: seq<Event>, reports: seq<seq<Attribute>>)
    requires |reports| == |es|
  {
    forall n :: 0 <= n < |es| ==>
      && Reporting(es[n])
      && Reports(Project(cfg, Run(cfg, k, es[..n]).ac), Project(cfg, Run(cfg, k, es[..n + 1]).ac), reports[n])
  }

  /** An unreported attribute still reads as before; SystemMode too, although it is
      computed from two fields. */
  lemma UnreportedUnchanged(before: Projection, after: Projection, out: seq<Attribute>, a: Attribute)
    requires Reports(before, after, out) && a !in out
    ensures Read(after, a) == Read(before, a)
  {
  }

  /** A report has no duplicates, and leaves out no change. Only SystemMode can be
      reported for nothing: when the mode of a unit projected off changes. */
  lemma ReportExact(before: Projection, after: Projection, out: seq<Attribute>, a: Attribute)
    requires Reports(before, after, out)
    ensures forall i, j :: 0 <= i < j < |out| ==> out[i] != out[j]
    ensures a in out <==>
            || Read(before, a) != Read(after, a)
            || (a == SystemMode && !before.onOff && !after.onOff && before.mode != after.mode)
  {
  }

  lemma {:induction false} SubscribersStayUpToDate(
      cfg: Config, k: KernelState, es: seq<Event>, reports: seq<seq<Attribute>>, copy: Copy)
    requires |reports| == |es| && Published(cfg, k, es, reports)
    requires UpToDate(copy, Project(cfg, k.ac))
    ensures UpToDate(Follow(cfg, k, es, reports, copy), Project(cfg, Run(cfg, k, es).ac))
  {
    if es != [] {
      var n := |es| - 1;
      var prior := es[..n];
      forall m | 0 <= m < |prior|
        ensures Reporting(prior[m])
        ensures Reports(Project(cfg, Run(cfg, k, prior[..m]).ac), Project(cfg, Run(cfg, k, prior[..m + 1]).ac),
                        reports[..n][m])
      {
        assert prior[..m] == es[..m] && prior[..m + 1] == es[..m + 1];
        assert prior[m] == es[m];
      }
      SubscribersStayUpToDate(cfg, k, es[..n], reports[..n], copy);
      assert es[..n + 1] == es;
      var before, after := Project(cfg, Run(cfg, k, es[..n]).ac), Project(cfg, Run(cfg, k, es).ac);
      assert Reports(before, after, reports[n]);
      forall a | a in copy && a !in reports[n]
        ensures Read(after, a) == Read(before, a)
      {
        UnreportedUnchanged(before, after, reports[n], a);
      }
      FollowKeepsKeys(cfg, k, es[..n], reports[..n], copy);
    }
  }

  lemma {:induction false} FollowKeepsKeys(
      cfg: Config, k: KernelState, es: seq<Event>, reports: seq<seq<Attribute>>, copy: Copy)
    requires |reports| == |es|
    ensures Follow(cfg, k, es, reports, copy).Keys == copy.Keys
  {
    if es != [] {
      FollowKeepsKeys(cfg, k, es[..|es| - 1], reports[..|es| - 1], copy);
    }
  }

  // ----- Sensors -----

  function LastEnvironment(es: seq<Event>): Option<EnvironmentalPoll> {
    if es == [] then None
    else if es[|es| - 1].Environment? then Some(es[|es| - 1].env)
    else LastEnvironment(es[..|es| - 1])
  }

  lemma {:induction false} SensorsAreLastReported(cfg: Config, es: seq<Event>)
    ensures var ac, env := Run(cfg, BootState(), es).ac, LastEnvironment(es);
            && ac.indoor == (if env.Some? then Some(env.value.indoor) else None)
            && ac.outdoor == (if env.Some? then Some(env.value.outdoor) else None)
            && ac.humidity == (if env.Some? then Some(env.value.humidity) else None)
  {
    if es != [] {
      var prior, e := es[..|es| - 1], es[|es| - 1];
      SensorsAreLastReported(cfg, prior);
      if !FromDevice(e) {
        ControllerUnseen(cfg, Run(cfg, BootState(), prior), e);
        assert See(Run(cfg, BootState(), es)) == See(Run(cfg, BootState(), prior));
      }
    }
  }

  /** In every run subscribers read the sensors as last reported, the humidity in hundredths
      of a percent, and nothing before the first report. */
  lemma SensorReadings(cfg: Config, es: seq<Event>)
    ensures var p, env := Project(cfg, Run(cfg, BootState(), es).ac), LastEnvironment(es);
            && Read(p, LocalTemperature) == Temperature(if env.Some? then Some(env.value.indoor) else None)
            && Read(p, OutdoorTemperature) == Temperature(if env.Some? then Some(env.value.outdoor) else None)
            && Read(p, Humidity) == CentiPercent(if env.Some? then Some(100 * env.value.humidity) else None)
  {
    SensorsAreLastReported(cfg, es);
  }

  // ----- Other readings -----

  /** Before anything happened the unit is shown off and unreachable, in Auto around 22
      degrees, with nothing known and nobody's setpoint. */
  lemma BootReadings()
    ensures Project(DEFAULT_CONFIG, BootState().ac) ==
            Projection(false, OperationalMode.Auto, 2150, 2250, RunningMode.Off, None, None, Boot,
                       Some(0), FanModeCategory.Off, 0, Some(0), 0, None, false)
  {
  }

  /** And the first command, when a controller switches the unit on in some mode. */
  lemma FirstCommand(cfg: Config, now: int, mode: OperationalMode)
    ensures PendingCommand(ApplyIntent(cfg, now, BootState(), SetSystemMode(true, mode))) ==
            Some(Command(true, ToS21Mode(mode),
                         match mode { case Heat => 2000 case Cool => 2500 case _ => 2200 }, S21Fan.Auto))
  {
  }

  /** In every run the unit reads reachable exactly when it answered the last time. */
  lemma ReachableReading(cfg: Config, es: seq<Event>)
    ensures Read(Project(cfg, Run(cfg, BootState(), es).ac), Reachable) == Flag(LastContact(es) == Some(true))
  {
    ObservedIsLastReported(cfg, BootState(), es);
  }

  /** A unit that reads off reads as doing nothing; one that reads on after a poll reads as
      doing what the poll said, here by its mode byte. */
  lemma RunningReading(cfg: Config, now: int, k: KernelState, poll: OperationalPoll)
    ensures var p := Project(cfg, k.ac);
            Read(p, OnOff) == Flag(false) ==> Read(p, RunningModeAttribute) == Running(RunningMode.Off)
    ensures var p := Project(cfg, ApplyPoll(cfg, now, k, poll).ac);
            Read(p, OnOff) == Flag(true) ==>
              && (!poll.onOff ==> Read(p, RunningModeAttribute) == Running(RunningMode.Off))
              && (poll.onOff && poll.mode == S21Mode.AutoCooling ==> Read(p, RunningModeAttribute) == Running(Cooling))
              && (poll.onOff && poll.mode == S21Mode.AutoHeating ==> Read(p, RunningModeAttribute) == Running(Heating))
  {
  }

  /** The setpoint in charge of the observed mode is a controller's from the moment a write
      changes it, whatever mode is wanted. */
  lemma SourceAfterWrite(cfg: Config, now: int, k: KernelState, i: WriteIntent)
    ensures var before, r := k.ac, ApplyIntent(cfg, now, k, i).ac;
            Read(Project(cfg, r), SetpointSource) ==
            if r.ActiveSetpoint(before.mode.observed).desired != before.ActiveSetpoint(before.mode.observed).desired
            then Provenance(Matter) else Read(Project(cfg, before), SetpointSource)
  {
    hide ToInt16, Midpoint, SpeedLevelToPercent, PercentToSpeedLevel, DerivedPercent;
    WriteUnseen(cfg, now, k, i);
  }

  /** It stays so when a poll confirms it or repeats the old one; any other poll that carries
      a setpoint gives it to the device. */
  lemma SourceAfterPoll(cfg: Config, now: int, k: KernelState, poll: OperationalPoll)
    ensures var mode := FromS21Mode(poll.mode);
            var setpoint := k.ac.ActiveSetpoint(mode);
            mode == OperationalMode.Heat || mode == OperationalMode.Cool || mode == OperationalMode.Auto ==>
              Read(Project(cfg, ApplyPoll(cfg, now, k, poll).ac), SetpointSource) ==
              if setpoint.inFlight.Some? &&
                 (poll.setpoint == setpoint.inFlight.value || poll.setpoint == setpoint.observed)
              then Provenance(setpoint.attribution) else Provenance(Device)
  {
    hide ToInt16, FuseRunningMode, SpeedLevelToPercent, PercentAfterPoll;
  }

  // ----- Hand-over -----

  /** A write waits in this twin with nothing in flight. */
  predicate Waiting<T(==)>(t: Twin<T>) {
    t.inFlight.None? && t.Dirty()
  }

  /** The setpoint twin that a hand-over marks as in flight, where it can be seen: the
      wanted mode's, in the band of Auto or as an edge outside of it. */
  predicate SetpointTakenBack(ac: AcState) {
    var shown := ac.mode.Projected();
    match ac.mode.desired
    case Auto => shown == OperationalMode.Auto && Waiting(ac.auto)
    case Cool => shown != OperationalMode.Auto && Waiting(ac.cool)
    case Heat => shown != OperationalMode.Auto && Waiting(ac.heat)
    case _ => false
  }

  /** The band edges tell the centres apart, even where the narrowing wraps around. */
  lemma ShiftedApart(a: int16, b: int16, w: int16)
    ensures ToInt16(a - w) == ToInt16(b - w) <==> a == b
    ensures ToInt16(a + w) == ToInt16(b + w) <==> a == b
  {
  }

  /** The hand-over of a command publishes nothing. It leaves the whole projection as it
      was exactly when no write is waiting that subscribers already see: of the power, the
      mode, the fan of a unit shown on, or the setpoint of the wanted mode where shown. */
  lemma SendingTakesReadingBack(cfg: Config, k: KernelState, cmd: Command)
    ensures var before, after := Project(cfg, k.ac), Project(cfg, CommandSent(k, cmd).ac);
            && (before == after <==>
                  && !Waiting(k.ac.onOff) && !Waiting(k.ac.mode)
                  && !(k.ac.onOff.Projected() && Waiting(k.ac.fan))
                  && !SetpointTakenBack(k.ac))
            && after.onOff == k.ac.onOff.observed && after.mode == k.ac.mode.observed
  {
    hide ToInt16, SpeedLevelToPercent;
    ShiftedApart(k.ac.auto.observed, k.ac.auto.desired, cfg.halfWidth);
  }
}

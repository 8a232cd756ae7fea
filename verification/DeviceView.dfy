/** What the bridge believes about the device never depends on what controllers
    write, nor on which commands were sent or lost: it is exactly what was reported. */
module DeviceView {
  import opened AcTypes
  import opened FanMapping
  import opened Kernel
  import opened MachineInts
  import opened Options
  import opened TwinFields

  /** Everything in the kernel that speaks about the device. */
  datatype Seen = Seen(
    onOff: bool,
    mode: OperationalMode,
    heat: int16,
    cool: int16,
    auto: int16,
    fan: FanSpeed,
    runningMode: RunningMode,
    indoor: Option<int16>,
    outdoor: Option<int16>,
    humidity: Option<byte>,
    valveOpen: Option<bool>,
    reachable: bool,
    stamps: Stamps)

  function See(k: KernelState): Seen {
    Seen(k.ac.onOff.observed, k.ac.mode.observed, k.ac.heat.observed, k.ac.cool.observed, k.ac.auto.observed,
         k.ac.fan.observed, k.ac.runningMode, k.ac.indoor, k.ac.outdoor, k.ac.humidity, k.ac.valveOpen,
         k.ac.reachable, k.stamps)
  }

  predicate FromDevice(e: Event) {
    e.Poll? || e.Environment? || e.Lost?
  }

  /** The run with every write, send and send failure deleted. */
  function DeviceEvents(es: seq<Event>): seq<Event> {
    if es == [] then []
    else if FromDevice(es[|es| - 1]) then DeviceEvents(es[..|es| - 1]) + [es[|es| - 1]]
    else DeviceEvents(es[..|es| - 1])
  }

  lemma WriteUnseen(cfg: Config, now: int, k: KernelState, i: WriteIntent)
    ensures See(ApplyIntent(cfg, now, k, i)) == See(k)
  {
  }

  lemma {:induction false} WritesUnseen(cfg: Config, now: int, k: KernelState, xs: seq<WriteIntent>)
    ensures See(ApplyAll(cfg, now, k, xs)) == See(k)
  {
    if xs != [] {
      WritesUnseen(cfg, now, k, xs[..|xs| - 1]);
      WriteUnseen(cfg, now, ApplyAll(cfg, now, k, xs[..|xs| - 1]), xs[|xs| - 1]);
    }
  }

  lemma BundleUnseen(cfg: Config, now: int, k: KernelState, xs: seq<WriteIntent>)
    ensures See(ApplyBundle(cfg, now, k, xs)) == See(k)
  {
    if Collapses(k, xs) {
      var centred := WriteCentre(cfg, now, k, Midpoint(LastHeat(xs).value, LastCool(xs).value));
      WritesUnseen(cfg, now, centred, NonEdges(xs));
    } else {
      WritesUnseen(cfg, now, k, xs);
    }
  }

  lemma ControllerUnseen(cfg: Config, k: KernelState, e: Event)
    requires !FromDevice(e)
    ensures See(Step(cfg, k, e)) == See(k)
  {
    match e {
      case Intent(now, i) => WriteUnseen(cfg, now, k, i);
      case Bundle(now, xs) => BundleUnseen(cfg, now, k, xs);
      case _ =>
    }
  }

  /** A report's effect on the device view depends on that view alone. */
  lemma ReportsDetermine(cfg: Config, k: KernelState, l: KernelState, e: Event)
    requires FromDevice(e) && See(k) == See(l)
    ensures See(Step(cfg, k, e)) == See(Step(cfg, l, e))
  {
  }

  /** A poll leaves its mark on the twins it reported, and on no others. */
  lemma PollMarksReported(cfg: Config, now: int, k: KernelState, poll: OperationalPoll)
    ensures var r, mode := ApplyPoll(cfg, now, k, poll).ac, FromS21Mode(poll.mode);
            && r.onOff.lastSource == Device && r.mode.lastSource == Device && r.fan.lastSource == Device
            && r.heat.lastSource == (if mode == OperationalMode.Heat then Device else k.ac.heat.lastSource)
            && r.cool.lastSource == (if mode == OperationalMode.Cool then Device else k.ac.cool.lastSource)
            && r.auto.lastSource == (if mode == OperationalMode.Auto then Device else k.ac.auto.lastSource)
  {
    hide FuseRunningMode;
  }

  /** Non-interference over every run. */
  lemma {:induction false} NonInterference(cfg: Config, k: KernelState, es: seq<Event>)
    ensures See(Run(cfg, k, es)) == See(Run(cfg, k, DeviceEvents(es)))
  {
    if es != [] {
      var prior, e := es[..|es| - 1], es[|es| - 1];
      NonInterference(cfg, k, prior);
      if FromDevice(e) {
        var reports := DeviceEvents(prior);
        assert (reports + [e])[..|reports|] == reports;
        ReportsDetermine(cfg, Run(cfg, k, prior), Run(cfg, k, reports), e);
      } else {
        ControllerUnseen(cfg, Run(cfg, k, prior), e);
      }
    }
  }

  /** Two runs with the same reports, whatever the controllers did in each. */
  lemma SameReportsSameView(cfg: Config, k: KernelState, es: seq<Event>, fs: seq<Event>)
    requires DeviceEvents(es) == DeviceEvents(fs)
    ensures See(Run(cfg, k, es)) == See(Run(cfg, k, fs))
  {
    NonInterference(cfg, k, es);
    NonInterference(cfg, k, fs);
  }

  // ----- Observed is the last value reported -----

  function LastPoll(es: seq<Event>): Option<OperationalPoll> {
    if es == [] then None
    else if es[|es| - 1].Poll? then Some(es[|es| - 1].poll)
    else LastPoll(es[..|es| - 1])
  }

  /** The setpoint in the last poll that reported this mode. */
  function LastSetpoint(es: seq<Event>, mode: OperationalMode): Option<int16> {
    if es == [] then None
    else if es[|es| - 1].Poll? && FromS21Mode(es[|es| - 1].poll.mode) == mode
    then Some(es[|es| - 1].poll.setpoint)
    else LastSetpoint(es[..|es| - 1], mode)
  }

  /** Whether the device was reached the last time it was tried. */
  function LastContact(es: seq<Event>): Option<bool> {
    if es == [] then None
    else if es[|es| - 1].Poll? || es[|es| - 1].Lost? then Some(es[|es| - 1].Poll?)
    else LastContact(es[..|es| - 1])
  }

  ghost predicate AgreesWithReports(k: KernelState, es: seq<Event>, ac: AcState) {
    && ac.heat.observed == LastSetpoint(es, OperationalMode.Heat).UnwrapOr(k.ac.heat.observed)
    && ac.cool.observed == LastSetpoint(es, OperationalMode.Cool).UnwrapOr(k.ac.cool.observed)
    && ac.auto.observed == LastSetpoint(es, OperationalMode.Auto).UnwrapOr(k.ac.auto.observed)
    && ac.reachable == LastContact(es).UnwrapOr(k.ac.reachable)
    && match LastPoll(es)
       case None =>
         && ac.onOff.observed == k.ac.onOff.observed
         && ac.mode.observed == k.ac.mode.observed
         && ac.fan.observed == k.ac.fan.observed
         && ac.valveOpen == k.ac.valveOpen
       case Some(p) =>
         && ac.onOff.observed == p.onOff
         && ac.mode.observed == FromS21Mode(p.mode)
         && ac.fan.observed == FromS21Fan(p.fan)
         && ac.valveOpen == p.valveOpen
  }

  lemma {:induction false} ObservedIsLastReported(cfg: Config, k: KernelState, es: seq<Event>)
    ensures AgreesWithReports(k, es, Run(cfg, k, es).ac)
  {
    if es != [] {
      var prior, e := es[..|es| - 1], es[|es| - 1];
      ObservedIsLastReported(cfg, k, prior);
      if !FromDevice(e) {
        var before := Run(cfg, k, prior);
        ControllerUnseen(cfg, before, e);
        assert See(Step(cfg, before, e)) == See(before);
      }
    }
  }
}

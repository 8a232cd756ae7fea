/** Writes that land while a command is on the wire. The pump blocks until the device has
    answered and only then marks the twins as in flight, with what is wanted by then. */
module PumpRace {
  import opened AcTypes
  import opened Convergence
  import opened FanMapping
  import opened Kernel
  import opened Options
  import opened TwinFields

  // ----- What echoes leave behind -----

  /** The same but for who touched it. */
  predicate SameTwin<T(==)>(t: Twin<T>, u: Twin<T>) {
    t.observed == u.observed && t.desired == u.desired && t.inFlight == u.inFlight
  }

  predicate SameTwins(a: AcState, b: AcState) {
    && SameTwin(a.onOff, b.onOff) && SameTwin(a.mode, b.mode) && SameTwin(a.fan, b.fan)
    && SameTwin(a.heat, b.heat) && SameTwin(a.cool, b.cool) && SameTwin(a.auto, b.auto)
  }

  /** The twins after one echo of a command that was handed over in state k. */
  function EchoedOnce(k: KernelState, cmd: Command): AcState {
    var sent, mode := CommandSent(k, cmd).ac, FromS21Mode(cmd.mode);
    ObserveSetpoint(sent, mode, cmd.setpoint).(
      onOff := sent.onOff.Observing(cmd.onOff, Device),
      mode := sent.mode.Observing(mode, Device),
      fan := sent.fan.Observing(FromS21Fan(cmd.fan), Device))
  }

  lemma EchoResolves(cfg: Config, k: KernelState, cmd: Command, now: int, r: KernelState, poll: OperationalPoll)
    requires SameTwins(r.ac, CommandSent(k, cmd).ac) || SameTwins(r.ac, EchoedOnce(k, cmd))
    requires Echoes(cmd, poll)
    ensures SameTwins(ApplyPoll(cfg, now, r, poll).ac, EchoedOnce(k, cmd))
  {
  }

  /** Any number of echoes do what one does. */
  lemma {:induction false} EchoesResolve(cfg: Config, k: KernelState, cmd: Command, es: seq<Event>)
    requires EchoPolls(cmd, es)
    ensures var r := Run(cfg, CommandSent(k, cmd), es);
            && r.lastSent == Some(cmd)
            && SameTwins(r.ac, if HasPoll(es) then EchoedOnce(k, cmd) else CommandSent(k, cmd).ac)
  {
    if es != [] {
      var prior, e := es[..|es| - 1], es[|es| - 1];
      EchoesResolve(cfg, k, cmd, prior);
      if e.Poll? {
        EchoResolves(cfg, k, cmd, e.now, Run(cfg, CommandSent(k, cmd), prior), e.poll);
      } else {
        HasPollBefore(es);
      }
    }
  }

  lemma HasPollBefore(es: seq<Event>)
    requires es != [] && !es[|es| - 1].Poll?
    ensures HasPoll(es) <==> HasPoll(es[..|es| - 1])
  {
    var prior := es[..|es| - 1];
    if i :| 0 <= i < |es| && es[i].Poll? {
      assert prior[i].Poll?;
    }
    if i :| 0 <= i < |prior| && prior[i].Poll? {
      assert es[i].Poll?;
    }
  }

  // ----- What is still to be sent -----

  /** By the time it is marked in flight something else is wanted than the command
      carried, and the command changed the value: its echo contradicts the mark. */
  predicate Superseded<T(==)>(t: Twin<T>, sent: T) {
    t.desired != sent && t.observed != sent
  }

  /** Something else is wanted than the command carried, but the command left the value
      as it was: its echo looks like a stale poll, and the mark stays for good. */
  predicate Stuck<T(==)>(t: Twin<T>, sent: T) {
    t.desired != sent && t.observed == sent
  }

  /** The setpoint twin of mode m holds an unsent wish once the command is echoed. Only
      the twin of the mode wanted at the end of the send is marked as in flight, and only
      the twin of the mode that was sent is echoed. */
  predicate SetpointUnsent(k: KernelState, cmd: Command, m: OperationalMode) {
    var t := k.ac.ActiveSetpoint(m);
    if m == FromS21Mode(cmd.mode) then
      if m == k.ac.mode.desired then Superseded(t, cmd.setpoint)
      else if t.inFlight.None? then Stuck(t, cmd.setpoint)
      else t.desired != (if t.Stale(cmd.setpoint) then t.inFlight.value else cmd.setpoint)
    else
      m != k.ac.mode.desired && t.Dirty()
  }

  predicate AnyUnsent(k: KernelState, cmd: Command) {
    || Superseded(k.ac.onOff, cmd.onOff)
    || Superseded(k.ac.mode, FromS21Mode(cmd.mode))
    || Superseded(k.ac.fan, FromS21Fan(cmd.fan))
    || SetpointUnsent(k, cmd, OperationalMode.Heat)
    || SetpointUnsent(k, cmd, OperationalMode.Cool)
    || SetpointUnsent(k, cmd, OperationalMode.Auto)
  }

  /** From any state in which the device takes a command, told from that state alone: once
      it has echoed it, another command is pending exactly when some axis holds an unsent
      wish and the command was overtaken at all. It carries every wish, also the stuck
      ones, which make no command pending by themselves. */
  lemma OvertakenForwardedIff(cfg: Config, k: KernelState, cmd: Command, es: seq<Event>)
    requires EchoPolls(cmd, es) && HasPoll(es)
    ensures var r := Run(cfg, CommandSent(k, cmd), es);
            && (r.ac.onOff.Dirty() <==> Superseded(k.ac.onOff, cmd.onOff))
            && (r.ac.mode.Dirty() <==> Superseded(k.ac.mode, FromS21Mode(cmd.mode)))
            && (r.ac.fan.Dirty() <==> Superseded(k.ac.fan, FromS21Fan(cmd.fan)))
            && (PendingCommand(r).Some? <==> AnyUnsent(k, cmd) && Compose(k.ac) != cmd)
            && (PendingCommand(r).Some? ==>
                  var next := PendingCommand(r).value;
                  && next.onOff == k.ac.onOff.desired
                  && next.mode == ToS21Mode(k.ac.mode.desired)
                  && next.fan == ToS21Fan(k.ac.fan.desired))
  {
    EchoesResolve(cfg, k, cmd, es);
    UnsentAfterEcho(k, cmd);
    DeviceEnumsRoundTrip(k.ac.mode.desired, k.ac.fan.desired);
  }

  lemma UnsentAfterEcho(k: KernelState, cmd: Command)
    ensures var ac, wanted, mode := EchoedOnce(k, cmd), k.ac.mode.desired, FromS21Mode(cmd.mode);
            && ac.onOff.desired == k.ac.onOff.desired && ac.mode.desired == wanted && ac.fan.desired == k.ac.fan.desired
            && (ac.onOff.Dirty() <==> Superseded(k.ac.onOff, cmd.onOff))
            && (ac.mode.Dirty() <==> Superseded(k.ac.mode, mode))
            && (ac.fan.Dirty() <==> Superseded(k.ac.fan, FromS21Fan(cmd.fan)))
            && (ac.heat.Dirty() <==> SetpointUnsent(k, cmd, OperationalMode.Heat))
            && (ac.cool.Dirty() <==> SetpointUnsent(k, cmd, OperationalMode.Cool))
            && (ac.auto.Dirty() <==> SetpointUnsent(k, cmd, OperationalMode.Auto))
            && (wanted == mode ==> ac.ActiveSetpoint(mode).desired == k.ac.ActiveSetpoint(mode).desired)
  {
  }

  /** The loss end to end: a command that does not concern the fan is taken, a fan speed
      is written before the device has answered, the command arrives and is echoed any
      number of times. The speed stays wanted, is never observed and is not sent. */
  lemma WriteDuringSendIsLost(
      cfg: Config, now: int, k: KernelState, cmd: Command, speed: FanSpeed, es: seq<Event>)
    requires PendingCommand(k) == Some(cmd) && !AnyDirty(CommandSent(k, cmd).ac)
    requires k.ac.onOff.observed && k.ac.fan.inFlight.None?
    requires k.ac.fan.desired == k.ac.fan.observed != speed && WindowOver(cfg, now, k.stamps.fan)
    requires EchoPolls(cmd, es) && HasPoll(es)
    ensures var written := ApplyIntent(cfg, now, k, SetSpeed(speed));
            var r := Run(cfg, CommandSent(written, cmd), es);
            && written.ac.fan.Dirty()
            && r.ac.fan.desired == speed && r.ac.fan.observed != speed && r.ac.fan.Projected() != speed
            && PendingCommand(r) == None
  {
    var written := ApplyIntent(cfg, now, k, SetSpeed(speed));
    DeviceEnumsRoundTrip(k.ac.mode.desired, k.ac.fan.desired);
    EchoesResolve(cfg, written, cmd, es);
    OvertakenForwardedIff(cfg, written, cmd, es);
  }

  /** But when the power was overtaken as well, on a command that changed it, the lost
      speed goes out with the power. */
  lemma StuckSpeedTravelsAlong(cfg: Config, k: KernelState, cmd: Command, es: seq<Event>)
    requires EchoPolls(cmd, es) && HasPoll(es)
    requires Stuck(k.ac.fan, FromS21Fan(cmd.fan)) && Superseded(k.ac.onOff, cmd.onOff)
    ensures var r := Run(cfg, CommandSent(k, cmd), es);
            && !r.ac.fan.Dirty()
            && PendingCommand(r).Some? && PendingCommand(r).value.fan == ToS21Fan(k.ac.fan.desired)
  {
    OvertakenForwardedIff(cfg, k, cmd, es);
  }
}

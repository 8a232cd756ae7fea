/** What becomes of a command: the bridge waits without repeating it, and settles on
    it once the device echoes it. */
module Convergence {
  import opened AcTypes
  import opened Kernel
  import opened Options
  import opened Projector
  import opened TwinFields

  // ----- Nothing wanted, nothing sent -----

  /** The controllers' wishes and the last command are the same in both states. */
  predicate SameWishes(k: KernelState, l: KernelState) {
    && k.ac.onOff.desired == l.ac.onOff.desired
    && k.ac.mode.desired == l.ac.mode.desired
    && k.ac.heat.desired == l.ac.heat.desired
    && k.ac.cool.desired == l.ac.cool.desired
    && k.ac.auto.desired == l.ac.auto.desired
    && k.ac.fan.desired == l.ac.fan.desired
    && k.lastSent == l.lastSent
  }

  predicate BearsSetpoint(m: OperationalMode) {
    m == OperationalMode.Cool || m == OperationalMode.Heat || m == OperationalMode.Auto
  }

  predicate Unmoved<T(==)>(t: Twin<T>, v: T) {
    t.inFlight.None? ==> v == t.observed
  }

  /** A poll that moves only what is in flight. What is in flight it may confirm,
      repeat or contradict. */
  predicate MovesOnlyInFlight(k: KernelState, poll: OperationalPoll) {
    var mode := FromS21Mode(poll.mode);
    && Unmoved(k.ac.onOff, poll.onOff)
    && Unmoved(k.ac.mode, mode)
    && Unmoved(k.ac.fan, FromS21Fan(poll.fan))
    && (BearsSetpoint(mode) ==> Unmoved(k.ac.ActiveSetpoint(mode), poll.setpoint))
  }

  /** A run of such polls, with sensor readings and link losses in between. */
  ghost predicate Quiet(cfg: Config, k: KernelState, es: seq<Event>) {
    es == [] ||
    var prior, e := es[..|es| - 1], es[|es| - 1];
    && Quiet(cfg, k, prior)
    && (e.Environment? || e.Lost? || (e.Poll? && MovesOnlyInFlight(Run(cfg, k, prior), e.poll)))
  }

  lemma {:induction false} QuietKeepsWishes(cfg: Config, k: KernelState, es: seq<Event>)
    requires Quiet(cfg, k, es)
    ensures SameWishes(k, Run(cfg, k, es))
  {
    if es != [] {
      QuietKeepsWishes(cfg, k, es[..|es| - 1]);
    }
  }

  /** After a command was handed over, a quiet run never makes another one pending,
      even when the device contradicted it. */
  lemma NothingPendingWhileQuiet(cfg: Config, k: KernelState, cmd: Command, es: seq<Event>)
    requires PendingCommand(k) == Some(cmd)
    requires Quiet(cfg, CommandSent(k, cmd), es)
    ensures PendingCommand(Run(cfg, CommandSent(k, cmd), es)) == None
  {
    QuietKeepsWishes(cfg, CommandSent(k, cmd), es);
  }

  // ----- Convergence -----

  /** A poll taken before the device acted: it repeats what was observed. */
  predicate RepeatsObserved(k: KernelState, poll: OperationalPoll) {
    var mode := FromS21Mode(poll.mode);
    && poll.onOff == k.ac.onOff.observed
    && mode == k.ac.mode.observed
    && FromS21Fan(poll.fan) == k.ac.fan.observed
    && (BearsSetpoint(mode) ==> poll.setpoint == k.ac.ActiveSetpoint(mode).observed)
  }

  ghost predicate StalePolls(cfg: Config, k: KernelState, es: seq<Event>) {
    es == [] ||
    var prior, e := es[..|es| - 1], es[|es| - 1];
    && StalePolls(cfg, k, prior)
    && (e.Environment? || e.Lost? || (e.Poll? && RepeatsObserved(Run(cfg, k, prior), e.poll)))
  }

  /** A poll from a device that has taken the command. A unit in Auto may report the
      direction it runs in, and Dry and FanOnly report no meaningful setpoint. */
  predicate Echoes(cmd: Command, poll: OperationalPoll) {
    && poll.onOff == cmd.onOff
    && FromS21Mode(poll.mode) == FromS21Mode(cmd.mode)
    && FromS21Fan(poll.fan) == FromS21Fan(cmd.fan)
    && (BearsSetpoint(FromS21Mode(cmd.mode)) ==> poll.setpoint == cmd.setpoint)
  }

  predicate EchoPolls(cmd: Command, es: seq<Event>) {
    forall i :: 0 <= i < |es| ==> es[i].Environment? || es[i].Lost? || (es[i].Poll? && Echoes(cmd, es[i].poll))
  }

  predicate HasPoll(es: seq<Event>) {
    exists i :: 0 <= i < |es| && es[i].Poll?
  }

  /** The twin waits for v, or already has it. */
  predicate Awaits<T(==)>(t: Twin<T>, v: T) {
    t.desired == v && (t.inFlight == Some(v) || (t.inFlight.None? && t.observed == v))
  }

  predicate AwaitsCommand(k: KernelState, cmd: Command) {
    var mode := FromS21Mode(cmd.mode);
    && Awaits(k.ac.onOff, cmd.onOff)
    && Awaits(k.ac.mode, mode)
    && Awaits(k.ac.fan, FromS21Fan(cmd.fan))
    && (BearsSetpoint(mode) ==> Awaits(k.ac.ActiveSetpoint(mode), cmd.setpoint))
  }

  predicate SettledOn(k: KernelState, cmd: Command) {
    var mode := FromS21Mode(cmd.mode);
    && k.ac.onOff.Settled(cmd.onOff)
    && k.ac.mode.Settled(mode)
    && k.ac.fan.Settled(FromS21Fan(cmd.fan))
    && (BearsSetpoint(mode) ==> k.ac.ActiveSetpoint(mode).Settled(cmd.setpoint))
  }

  lemma SendingAwaits(k: KernelState, cmd: Command)
    requires PendingCommand(k) == Some(cmd)
    ensures AwaitsCommand(CommandSent(k, cmd), cmd)
  {
  }

  lemma StalePoll(cfg: Config, now: int, k: KernelState, cmd: Command, poll: OperationalPoll)
    requires AwaitsCommand(k, cmd) && RepeatsObserved(k, poll)
    ensures AwaitsCommand(ApplyPoll(cfg, now, k, poll), cmd) && MovesOnlyInFlight(k, poll)
  {
  }

  lemma EchoPoll(cfg: Config, now: int, k: KernelState, cmd: Command, poll: OperationalPoll)
    requires AwaitsCommand(k, cmd) && Echoes(cmd, poll)
    ensures SettledOn(ApplyPoll(cfg, now, k, poll), cmd) && MovesOnlyInFlight(k, poll)
  {
  }

  lemma {:induction false} StaleKeepsWaiting(cfg: Config, k: KernelState, cmd: Command, es: seq<Event>)
    requires AwaitsCommand(k, cmd) && StalePolls(cfg, k, es)
    ensures AwaitsCommand(Run(cfg, k, es), cmd) && Quiet(cfg, k, es)
  {
    if es != [] {
      var prior, e := es[..|es| - 1], es[|es| - 1];
      StaleKeepsWaiting(cfg, k, cmd, prior);
      if e.Poll? {
        StalePoll(cfg, e.now, Run(cfg, k, prior), cmd, e.poll);
      }
    }
  }

  lemma {:induction false} EchoSettles(cfg: Config, k: KernelState, cmd: Command, es: seq<Event>)
    requires AwaitsCommand(k, cmd) && EchoPolls(cmd, es)
    ensures AwaitsCommand(Run(cfg, k, es), cmd) && Quiet(cfg, k, es)
    ensures HasPoll(es) ==> SettledOn(Run(cfg, k, es), cmd)
  {
    if es != [] {
      var prior, e := es[..|es| - 1], es[|es| - 1];
      EchoSettles(cfg, k, cmd, prior);
      if e.Poll? {
        EchoPoll(cfg, e.now, Run(cfg, k, prior), cmd, e.poll);
      } else if HasPoll(es) {
        var i :| 0 <= i < |es| && es[i].Poll?;
        assert prior[i].Poll?;
      }
    }
  }

  /** From any state: hand over the pending command, let any number of stale polls
      arrive and then at least one echo. Power, mode, fan and the active setpoint end
      up observed and wanted as sent with nothing in flight, and at no point after the
      hand-over is another command pending. */
  lemma Converges(cfg: Config, k: KernelState, cmd: Command, stale: seq<Event>, echoes: seq<Event>)
    requires PendingCommand(k) == Some(cmd)
    requires StalePolls(cfg, CommandSent(k, cmd), stale)
    requires EchoPolls(cmd, echoes) && HasPoll(echoes)
    ensures var waiting := Run(cfg, CommandSent(k, cmd), stale);
            && SettledOn(Run(cfg, waiting, echoes), cmd)
            && Run(cfg, waiting, echoes).lastSent == Some(cmd) && Compose(Run(cfg, waiting, echoes).ac) == cmd
            && (forall n :: 0 <= n <= |stale| ==> PendingCommand(Run(cfg, CommandSent(k, cmd), stale[..n])) == None)
            && (forall n :: 0 <= n <= |echoes| ==> PendingCommand(Run(cfg, waiting, echoes[..n])) == None)
  {
    var sent := CommandSent(k, cmd);
    SendingAwaits(k, cmd);
    StaleKeepsWaiting(cfg, sent, cmd, stale);
    var waiting := Run(cfg, sent, stale);
    EchoSettles(cfg, waiting, cmd, echoes);
    QuietKeepsWishes(cfg, sent, stale);
    QuietKeepsWishes(cfg, waiting, echoes);
    forall n | 0 <= n <= |stale|
      ensures PendingCommand(Run(cfg, sent, stale[..n])) == None
    {
      QuietPrefix(cfg, sent, stale, n);
      NothingPendingWhileQuiet(cfg, k, cmd, stale[..n]);
    }
    forall n | 0 <= n <= |echoes|
      ensures PendingCommand(Run(cfg, waiting, echoes[..n])) == None
    {
      QuietPrefix(cfg, waiting, echoes, n);
      QuietKeepsWishes(cfg, waiting, echoes[..n]);
    }
  }

  /** And then subscribers read what was commanded: power and mode, the setpoint as the
      edge of its mode or as the middle of the band, and the fan speed. */
  lemma SettledIsShown(cfg: Config, k: KernelState, cmd: Command)
    requires SettledOn(k, cmd)
    requires -0x8000 <= cmd.setpoint - cfg.halfWidth < 0x8000 && -0x8000 <= cmd.setpoint + cfg.halfWidth < 0x8000
    ensures var p, mode := Project(cfg, k.ac), FromS21Mode(cmd.mode);
            && p.onOff == cmd.onOff && p.mode == mode
            && (mode == OperationalMode.Cool ==> p.coolingSetpoint == cmd.setpoint)
            && (mode == OperationalMode.Heat ==> p.heatingSetpoint == cmd.setpoint)
            && (mode == OperationalMode.Auto ==>
                  && p.heatingSetpoint == cmd.setpoint - cfg.halfWidth
                  && p.coolingSetpoint == cmd.setpoint + cfg.halfWidth)
            && (cmd.onOff ==> match FromS21Fan(cmd.fan)
                              case None => p.speedSetting == None
                              case Some(level) => p.speedSetting == Some(level))
  {
  }

  lemma {:induction false} QuietPrefix(cfg: Config, k: KernelState, es: seq<Event>, n: nat)
    requires n <= |es| && Quiet(cfg, k, es)
    ensures Quiet(cfg, k, es[..n])
  {
    if n < |es| {
      QuietPrefix(cfg, k, es[..|es| - 1], n);
      assert es[..|es| - 1][..n] == es[..n];
    } else {
      assert es[..n] == es;
    }
  }

  // ----- No command twice in a row -----

  /** The pump on the work queue: it takes the pending command, sends it while writes
      keep arriving, and then tells the kernel how that went. */
  datatype PumpEvent =
    | Take
    | Delivered
    | Rejected
    | Other(event: Event)

  /** The log keeps every delivered command, and a mark for every rejection. */
  datatype Entry = Dispatched(cmd: Command) | Failure

  datatype Pumped = Pumped(k: KernelState, outstanding: Option<Command>, log: seq<Entry>)

  function PumpStep(cfg: Config, p: Pumped, e: PumpEvent): Pumped {
    match e
    case Take => if p.outstanding.None? then p.(outstanding := PendingCommand(p.k)) else p
    case Delivered =>
      if p.outstanding.None? then p
      else Pumped(CommandSent(p.k, p.outstanding.value), None, p.log + [Dispatched(p.outstanding.value)])
    case Rejected =>
      if p.outstanding.None? then p else Pumped(CommandFailed(p.k), None, p.log + [Failure])
    case Other(e) => if e.Sent? || e.Failed? then p else p.(k := Step(cfg, p.k, e))
  }

  function PumpRun(cfg: Config, p: Pumped, es: seq<PumpEvent>): Pumped {
    if es == [] then p else PumpStep(cfg, PumpRun(cfg, p, es[..|es| - 1]), es[|es| - 1])
  }

  ghost predicate NoRepeats(log: seq<Entry>) {
    forall i :: 0 < i < |log| && log[i].Dispatched? ==> log[i] != log[i - 1]
  }

  ghost predicate PumpInvariant(p: Pumped) {
    && NoRepeats(p.log)
    && (p.k.lastSent.Some? <==> p.log != [] && p.log[|p.log| - 1].Dispatched?)
    && (p.k.lastSent.Some? ==> p.log[|p.log| - 1].cmd == p.k.lastSent.value)
    && (p.outstanding.Some? ==> p.outstanding != p.k.lastSent)
  }

  lemma {:induction false} BundleKeepsLastSent(cfg: Config, now: int, k: KernelState, xs: seq<WriteIntent>)
    ensures ApplyAll(cfg, now, k, xs).lastSent == k.lastSent
  {
    if xs != [] {
      BundleKeepsLastSent(cfg, now, k, xs[..|xs| - 1]);
    }
  }

  lemma StepKeepsLastSent(cfg: Config, k: KernelState, e: Event)
    requires !e.Sent? && !e.Failed?
    ensures Step(cfg, k, e).lastSent == k.lastSent
  {
    if e.Bundle? {
      var centred := WriteCentre(cfg, e.now, k,
        Midpoint(LastHeat(e.intents).UnwrapOr(0), LastCool(e.intents).UnwrapOr(0)));
      BundleKeepsLastSent(cfg, e.now, centred, NonEdges(e.intents));
      BundleKeepsLastSent(cfg, e.now, k, e.intents);
    }
  }

  /** In every run from boot, with writes and polls landing anywhere, also between
      the pump's take and the delivery: two neighbouring log entries are never the
      same command, so a repeat has a failure in between. */
  lemma {:induction false} NoCommandTwiceInARow(cfg: Config, es: seq<PumpEvent>)
    ensures PumpInvariant(PumpRun(cfg, Pumped(BootState(), None, []), es))
  {
    if es != [] {
      var prior, e := es[..|es| - 1], es[|es| - 1];
      NoCommandTwiceInARow(cfg, prior);
      if e.Other? && !e.event.Sent? && !e.event.Failed? {
        StepKeepsLastSent(cfg, PumpRun(cfg, Pumped(BootState(), None, []), prior).k, e.event);
      }
    }
  }

  // ----- A rejected command is retried -----

  /** The same twins hold unsent wishes in both states. */
  predicate SameDirt(k: KernelState, l: KernelState) {
    && k.ac.onOff.Dirty() == l.ac.onOff.Dirty()
    && k.ac.mode.Dirty() == l.ac.mode.Dirty()
    && k.ac.heat.Dirty() == l.ac.heat.Dirty()
    && k.ac.cool.Dirty() == l.ac.cool.Dirty()
    && k.ac.auto.Dirty() == l.ac.auto.Dirty()
    && k.ac.fan.Dirty() == l.ac.fan.Dirty()
  }

  lemma StalePollKeepsDirt(cfg: Config, now: int, k: KernelState, poll: OperationalPoll)
    requires RepeatsObserved(k, poll)
    ensures SameDirt(k, ApplyPoll(cfg, now, k, poll)) && SameWishes(k, ApplyPoll(cfg, now, k, poll))
  {
  }

  /** From any state: after a rejection the command stays pending for as long as the
      device reports nothing new, even with an older command still in flight. */
  lemma {:induction false} RetriedAfterFailure(cfg: Config, k: KernelState, cmd: Command, es: seq<Event>)
    requires PendingCommand(k) == Some(cmd) && StalePolls(cfg, CommandFailed(k), es)
    ensures var r := Run(cfg, CommandFailed(k), es);
            SameDirt(k, r) && SameWishes(CommandFailed(k), r) && PendingCommand(r) == Some(cmd)
  {
    if es != [] {
      var prior, e := es[..|es| - 1], es[|es| - 1];
      RetriedAfterFailure(cfg, k, cmd, prior);
      if e.Poll? {
        StalePollKeepsDirt(cfg, e.now, Run(cfg, CommandFailed(k), prior), e.poll);
      }
    }
  }

  // ----- The price of never repeating -----

  predicate OnlyObserves(es: seq<Event>) {
    forall i :: 0 <= i < |es| ==> !es[i].Sent? && !es[i].Failed?
  }

  /** For as long as no other command is delivered or fails, a write is forwarded exactly
      when it leads away from the last command delivered. */
  lemma {:induction false} ForwardedIff(cfg: Config, k: KernelState, cmd: Command, es: seq<Event>)
    requires k.lastSent == Some(cmd) && OnlyObserves(es)
    ensures var r := Run(cfg, k, es);
            && r.lastSent == Some(cmd)
            && (PendingCommand(r).Some? <==> AnyDirty(r.ac) && Compose(r.ac) != cmd)
  {
    if es != [] {
      var prior, e := es[..|es| - 1], es[|es| - 1];
      ForwardedIff(cfg, k, cmd, prior);
      StepKeepsLastSent(cfg, Run(cfg, k, prior), e);
    }
  }

  /** So a change made at the panel cannot be undone by the write that caused the last
      command: from any state settled on a command to run, the panel switches the unit
      off, a controller switches it on again after the window, and the bridge shows it
      on, knows the device is off, and has nothing to send. */
  lemma PanelOffIsNotUndone(cfg: Config, k: KernelState, cmd: Command, offAt: int, panel: OperationalPoll, onAt: int)
    requires SettledOn(k, cmd) && k.lastSent == Some(cmd) && Compose(k.ac) == cmd && cmd.onOff
    requires Echoes(cmd.(onOff := false), panel)
    requires offAt != 0 && onAt - offAt >= cfg.windowMs
    ensures var r := ApplyIntent(cfg, onAt, ApplyPoll(cfg, offAt, k, panel), SetOnOff(true));
            && r.ac.onOff.desired && !r.ac.onOff.observed && r.ac.onOff.Dirty()
            && Project(cfg, r.ac).onOff
            && PendingCommand(r) == None
  {
  }
}

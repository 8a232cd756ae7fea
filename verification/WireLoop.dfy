/** The reconciler, the manager's cache and the device in one loop. The device knows
    setpoints in half-degree steps only; the cache keeps a setpoint as it was sent. */
module WireLoop {
  import opened AcTypes
  import opened Convergence
  import opened Kernel
  import opened Options
  import opened S21Manager
  import opened S21Presentation

  datatype Loop = Loop(k: KernelState, m: Manager, device: Command)

  /** The pump: the manager hands the command to the device, which acknowledges it at
      doneAt, and the kernel marks it as in flight. */
  function SendLoop(l: Loop, cmd: Command, doneAt: int, bus: Bus): Loop {
    Loop(CommandSent(l.k, cmd),
         Set(l.m, doneAt, doneAt, bus.(accept := Ok(())), Update.Whole(cmd)),
         Carried(cmd))
  }

  /** One poll: the clock readings of the manager's two cache lookups and of the kernel,
      whether the link carries a read of the operation, the other answers of the bus, the
      valve, and whether a failure is one too many in a row. */
  datatype LoopPoll = LoopPoll(
    now: int,
    later: int,
    at: int,
    readable: bool,
    others: Bus,
    valve: Option<bool>,
    giveUp: bool)

  function PollBus(l: Loop, t: LoopPoll): Bus {
    t.others.(operation := if t.readable then Ok(l.device) else Err(BusFailure(1)))
  }

  function PollLoop(cfg: Config, l: Loop, t: LoopPoll): Loop {
    var op := OperationRead(l.m, t.now, t.later, PollBus(l, t));
    l.(k := match op
            case Ok(v) => ApplyPoll(cfg, t.at, l.k, OperationalPoll(v.onOff, v.mode, v.setpoint, v.fan, t.valve))
            case Err(_) => if t.giveUp then LinkDown(l.k) else l.k,
       m := ReadOperation(l.m, t.now, t.later, PollBus(l, t)))
  }

  function RunLoop(cfg: Config, l: Loop, ts: seq<LoopPoll>): Loop {
    if ts == [] then l else PollLoop(cfg, RunLoop(cfg, l, ts[..|ts| - 1]), ts[|ts| - 1])
  }

  /** The cross-check of a unit that runs on Auto does not contradict that. */
  predicate FanConfirms(l: Loop, cmd: Command, t: LoopPoll) {
    cmd.onOff && cmd.fan == S21Fan.Auto ==>
      var fan := CachedFan(l.m, t.later, PollBus(l, t));
      fan.Ok? ==> FromS21Fan(fan.value) == None
  }

  ghost predicate FanConfirmsAll(cfg: Config, l: Loop, cmd: Command, ts: seq<LoopPoll>) {
    forall n :: 0 <= n < |ts| ==> FanConfirms(RunLoop(cfg, l, ts[..n]), cmd, ts[n])
  }

  // ----- What the polls were served -----

  /** So far: no reading at all; the command as the cache keeps it; the device's version;
      or the one and then the other. */
  datatype Served = Nothing | FromCache | FromDevice | CacheThenDevice

  function ServedNext(s: Served, doneAt: int, maxAge: int, t: LoopPoll): Served {
    if s == FromDevice || s == CacheThenDevice then s
    else if t.now - doneAt <= maxAge then FromCache
    else if !t.readable then s
    else if s == Nothing then FromDevice
    else CacheThenDevice
  }

  function ServedBy(doneAt: int, maxAge: int, ts: seq<LoopPoll>): Served {
    if ts == [] then Nothing
    else ServedNext(ServedBy(doneAt, maxAge, ts[..|ts| - 1]), doneAt, maxAge, ts[|ts| - 1])
  }

  predicate InOrder(ts: seq<LoopPoll>) {
    forall i, j :: 0 <= i < j < |ts| ==> ts[i].now <= ts[j].now
  }

  /** Polls in the order of time on a link that carries them: the first one decides whether
      the cache is ever served, the last one whether the device is. */
  lemma {:induction false} TimingDecides(doneAt: int, maxAge: int, ts: seq<LoopPoll>)
    requires ts != [] && InOrder(ts) && forall i :: 0 <= i < |ts| ==> ts[i].readable
    ensures ServedBy(doneAt, maxAge, ts) ==
            if ts[|ts| - 1].now - doneAt <= maxAge then FromCache
            else if ts[0].now - doneAt <= maxAge then CacheThenDevice
            else FromDevice
  {
    if |ts| > 1 {
      TimingDecides(doneAt, maxAge, ts[..|ts| - 1]);
      assert ts[0].now <= ts[|ts| - 2].now <= ts[|ts| - 1].now;
    } else {
      assert ts[..0] == [];
    }
  }

  // ----- What the loop makes of it -----

  /** The wire cannot carry the setpoint of this command, and the mode has one. */
  predicate OffGrid(cmd: Command) {
    cmd.setpoint % 50 != 0 && BearsSetpoint(FromS21Mode(cmd.mode))
  }

  /** Power, mode and fan agree on the command, the setpoint does not: the device holds the
      rounded one, the controllers want the one they wrote. */
  predicate Apart(k: KernelState, cmd: Command) {
    var mode := FromS21Mode(cmd.mode);
    var setpoint := k.ac.ActiveSetpoint(mode);
    && k.ac.onOff.Settled(cmd.onOff)
    && k.ac.mode.Settled(mode)
    && k.ac.fan.Settled(FromS21Fan(cmd.fan))
    && setpoint.desired == cmd.setpoint && setpoint.observed == Quantised(cmd.setpoint)
    && (setpoint.inFlight == None || setpoint.inFlight == Some(cmd.setpoint))
  }

  /** All but the twins that the command concerns are as they were at the send. */
  predicate OthersUntouched(sent: KernelState, k: KernelState, mode: OperationalMode) {
    && (mode != OperationalMode.Heat ==> k.ac.heat == sent.ac.heat)
    && (mode != OperationalMode.Cool ==> k.ac.cool == sent.ac.cool)
    && (mode != OperationalMode.Auto ==> k.ac.auto == sent.ac.auto)
  }

  predicate KernelAfter(sent: KernelState, k: KernelState, cmd: Command, s: Served) {
    && k.lastSent == Some(cmd)
    && OthersUntouched(sent, k, FromS21Mode(cmd.mode))
    && match s
       case Nothing => k.ac.(reachable := sent.ac.reachable) == sent.ac
       case FromCache => SettledOn(k, cmd)
       case FromDevice => if OffGrid(cmd) then Apart(k, cmd) else SettledOn(k, cmd)
       case CacheThenDevice => SettledOn(k, Carried(cmd))
  }

  lemma ReadingMoves(
      cfg: Config, at: int, sent: KernelState, k: KernelState, cmd: Command, s: Served, poll: OperationalPoll)
    requires AwaitsCommand(sent, cmd) && InRange(cmd.setpoint)
    requires BearsSetpoint(FromS21Mode(cmd.mode)) ==>
               sent.ac.ActiveSetpoint(FromS21Mode(cmd.mode)).inFlight == Some(cmd.setpoint)
    requires KernelAfter(sent, k, cmd, s)
    ensures Echoes(cmd, poll) && (s == Nothing || s == FromCache) ==>
              KernelAfter(sent, ApplyPoll(cfg, at, k, poll), cmd, FromCache)
    ensures Echoes(Carried(cmd), poll) ==>
              KernelAfter(sent, ApplyPoll(cfg, at, k, poll), cmd,
                          if s == Nothing || s == FromDevice then FromDevice else CacheThenDevice)
  {
    QuantisedSetpoint(cmd.setpoint);
  }

  predicate LoopAfter(sent: Loop, l: Loop, cmd: Command, doneAt: int, s: Served) {
    && l.device == Carried(cmd) && l.m.maxAge == sent.m.maxAge
    && (if s == Nothing || s == FromCache then l.m.operation == Cache(Some(cmd), doneAt)
        else l.m.operation.value == Some(Carried(cmd)))
    && KernelAfter(sent.k, l.k, cmd, s)
  }

  lemma PollMoves(cfg: Config, sent: Loop, l: Loop, cmd: Command, doneAt: int, s: Served, t: LoopPoll)
    requires AwaitsCommand(sent.k, cmd) && InRange(cmd.setpoint)
    requires BearsSetpoint(FromS21Mode(cmd.mode)) ==>
               sent.k.ac.ActiveSetpoint(FromS21Mode(cmd.mode)).inFlight == Some(cmd.setpoint)
    requires LoopAfter(sent, l, cmd, doneAt, s) && FanConfirms(l, cmd, t)
    ensures LoopAfter(sent, PollLoop(cfg, l, t), cmd, doneAt, ServedNext(s, doneAt, sent.m.maxAge, t))
  {
    hide ApplyPoll, AwaitsCommand, KernelAfter, Quantised;
    var op := OperationRead(l.m, t.now, t.later, PollBus(l, t));
    if op.Ok? {
      var v := op.value;
      var poll := OperationalPoll(v.onOff, v.mode, v.setpoint, v.fan, t.valve);
      ReadingMoves(cfg, t.at, sent.k, l.k, cmd, s, poll);
    } else {
      LinkDownKeeps(sent.k, l.k, cmd, s);
    }
  }

  lemma LinkDownKeeps(sent: KernelState, k: KernelState, cmd: Command, s: Served)
    requires KernelAfter(sent, k, cmd, s)
    ensures KernelAfter(sent, LinkDown(k), cmd, s)
  {
  }

  lemma {:induction false} PollsMove(cfg: Config, sent: Loop, cmd: Command, doneAt: int, ts: seq<LoopPoll>)
    requires AwaitsCommand(sent.k, cmd) && InRange(cmd.setpoint)
    requires BearsSetpoint(FromS21Mode(cmd.mode)) ==>
               sent.k.ac.ActiveSetpoint(FromS21Mode(cmd.mode)).inFlight == Some(cmd.setpoint)
    requires LoopAfter(sent, sent, cmd, doneAt, Nothing) && FanConfirmsAll(cfg, sent, cmd, ts)
    ensures LoopAfter(sent, RunLoop(cfg, sent, ts), cmd, doneAt, ServedBy(doneAt, sent.m.maxAge, ts))
  {
    if ts != [] {
      var n := |ts| - 1;
      assert forall i :: 0 <= i < n ==> ts[..n][..i] == ts[..i];
      PollsMove(cfg, sent, cmd, doneAt, ts[..n]);
      PollMoves(cfg, sent, RunLoop(cfg, sent, ts[..n]), cmd, doneAt, ServedBy(doneAt, sent.m.maxAge, ts[..n]), ts[n]);
    }
  }

  /** Where the loop stands after any polls that follow an acknowledged command. Served
      from the cache it settles on the command, also on a setpoint that the device does
      not have; when the device is read then, it settles on the device's version and the
      controllers' wish is gone. Served by the device only, an off-grid setpoint leaves
      the two apart. As long as the wish stands nothing is pending; once it is gone the
      next command is, exactly when a shadow setpoint was waiting. */
  lemma LoopOutcome(
      cfg: Config, l: Loop, cmd: Command, doneAt: int, bus: Bus, ts: seq<LoopPoll>)
    requires PendingCommand(l.k) == Some(cmd) && InRange(cmd.setpoint)
    requires FanConfirmsAll(cfg, SendLoop(l, cmd, doneAt, bus), cmd, ts)
    ensures var sent := SendLoop(l, cmd, doneAt, bus);
            var r := RunLoop(cfg, sent, ts).k;
            match ServedBy(doneAt, l.m.maxAge, ts)
            case Nothing => AwaitsCommand(r, cmd) && PendingCommand(r) == None
            case FromCache => SettledOn(r, cmd) && PendingCommand(r) == None
            case FromDevice =>
              (if OffGrid(cmd) then Apart(r, cmd) else SettledOn(r, cmd)) && PendingCommand(r) == None
            case CacheThenDevice =>
              SettledOn(r, Carried(cmd)) && (PendingCommand(r).Some? <==> OffGrid(cmd) && AnyDirty(sent.k.ac))
  {
    SendingAwaits(l.k, cmd);
    DeviceEnumsRoundTrip(l.k.ac.mode.desired, l.k.ac.fan.desired);
    var sent := SendLoop(l, cmd, doneAt, bus);
    PollsMove(cfg, sent, cmd, doneAt, ts);
    NothingPendingAfter(sent.k, RunLoop(cfg, sent, ts).k, cmd, ServedBy(doneAt, l.m.maxAge, ts));
  }

  lemma NothingPendingAfter(sent: KernelState, k: KernelState, cmd: Command, s: Served)
    requires KernelAfter(sent, k, cmd, s) && AwaitsCommand(sent, cmd) && InRange(cmd.setpoint)
    requires Compose(sent.ac) == cmd && sent.lastSent == Some(cmd)
    ensures s != CacheThenDevice ==> PendingCommand(k) == None
    ensures s == CacheThenDevice ==> (PendingCommand(k).Some? <==> OffGrid(cmd) && AnyDirty(sent.ac))
    ensures s == Nothing ==> AwaitsCommand(k, cmd)
  {
    QuantisedSetpoint(cmd.setpoint);
  }

  /** Once there was a reading the loop stands settled on the command exactly when the
      setpoint is on the half-degree grid, or the mode carries none, or all readings so
      far came from the cache. */
  lemma LoopSettlesIff(cfg: Config, l: Loop, cmd: Command, doneAt: int, bus: Bus, ts: seq<LoopPoll>)
    requires PendingCommand(l.k) == Some(cmd) && InRange(cmd.setpoint)
    requires FanConfirmsAll(cfg, SendLoop(l, cmd, doneAt, bus), cmd, ts)
    requires ServedBy(doneAt, l.m.maxAge, ts) != Nothing
    ensures SettledOn(RunLoop(cfg, SendLoop(l, cmd, doneAt, bus), ts).k, cmd) <==>
            !OffGrid(cmd) || ServedBy(doneAt, l.m.maxAge, ts) == FromCache
  {
    LoopOutcome(cfg, l, cmd, doneAt, bus, ts);
    QuantisedSetpoint(cmd.setpoint);
  }

  /** On a link that carries its polls, in the terms of the clock. */
  lemma SettlesByClock(cfg: Config, l: Loop, cmd: Command, doneAt: int, bus: Bus, ts: seq<LoopPoll>, n: nat)
    requires PendingCommand(l.k) == Some(cmd) && InRange(cmd.setpoint)
    requires FanConfirmsAll(cfg, SendLoop(l, cmd, doneAt, bus), cmd, ts)
    requires InOrder(ts) && forall i :: 0 <= i < |ts| ==> ts[i].readable
    requires 0 < n <= |ts|
    ensures SettledOn(RunLoop(cfg, SendLoop(l, cmd, doneAt, bus), ts[..n]).k, cmd) <==>
            !OffGrid(cmd) || ts[n - 1].now - doneAt <= l.m.maxAge
  {
    hide RunLoop, SettledOn, OffGrid, SendLoop, PendingCommand, FanConfirms;
    assert forall i :: 0 <= i < n ==> ts[..n][..i] == ts[..i];
    TimingDecides(doneAt, l.m.maxAge, ts[..n]);
    LoopSettlesIff(cfg, l, cmd, doneAt, bus, ts[..n]);
  }

  /** So it is settled at some point of the polling exactly when the setpoint is on the
      grid, or the mode carries none, or the first poll comes no later after the
      acknowledgement than the cache may be old. */
  lemma SettlesEverIff(cfg: Config, l: Loop, cmd: Command, doneAt: int, bus: Bus, ts: seq<LoopPoll>)
    requires PendingCommand(l.k) == Some(cmd) && InRange(cmd.setpoint)
    requires FanConfirmsAll(cfg, SendLoop(l, cmd, doneAt, bus), cmd, ts)
    requires ts != [] && InOrder(ts) && forall i :: 0 <= i < |ts| ==> ts[i].readable
    ensures (exists n :: 0 < n <= |ts| && SettledOn(RunLoop(cfg, SendLoop(l, cmd, doneAt, bus), ts[..n]).k, cmd)) <==>
            !OffGrid(cmd) || ts[0].now - doneAt <= l.m.maxAge
  {
    hide RunLoop, SettledOn, OffGrid, SendLoop, PendingCommand, FanConfirmsAll;
    var sent := SendLoop(l, cmd, doneAt, bus);
    SettlesByClock(cfg, l, cmd, doneAt, bus, ts, 1);
    if n :| 0 < n <= |ts| && SettledOn(RunLoop(cfg, sent, ts[..n]).k, cmd) {
      SettlesByClock(cfg, l, cmd, doneAt, bus, ts, n);
      assert ts[0].now <= ts[n - 1].now;
    }
  }
}

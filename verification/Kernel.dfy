/** The bridge kernel as a state machine: what one controller write, one poll or one
    command notification does to the state. The class in Reconciler.dfy is proved to
    take exactly these steps. */
module Kernel {
  import opened AcTypes
  import opened FanMapping
  import opened MachineInts
  import opened Options
  import opened TwinFields

  datatype Config = Config(windowMs: int, halfWidth: int16, hysteresis: int16)

  const DEFAULT_CONFIG := Config(1000, 50, 50)

  /** The air conditioner as the bridge sees it: reconcilable twins, the remembered
      exact percent, and the observation-only fields. */
  datatype AcState = AcState(
    onOff: Twin<bool>,
    mode: Twin<OperationalMode>,
    heat: Twin<int16>,
    cool: Twin<int16>,
    auto: Twin<int16>,
    fan: Twin<FanSpeed>,
    fanPercent: Option<byte>,
    runningMode: RunningMode,
    indoor: Option<int16>,
    outdoor: Option<int16>,
    humidity: Option<byte>,
    valveOpen: Option<bool>,
    reachable: bool)
  {
    /** The setpoint in charge of the device's target temperature. */
    function ActiveSetpoint(m: OperationalMode): Twin<int16> {
      match m
      case Cool => cool
      case Heat => heat
      case _ => auto
    }
  }

  /** When the device last reported each twin; 0 is never. */
  datatype Stamps = Stamps(onOff: int, mode: int, heat: int, cool: int, auto: int, fan: int)

  datatype KernelState = KernelState(ac: AcState, stamps: Stamps, lastSent: Option<Command>)

  function BootState(): KernelState {
    KernelState(
      AcState(
        Initial(false), Initial(OperationalMode.Auto), Initial(2000), Initial(2500), Initial(2200),
        Initial(None), None, RunningMode.Off, None, None, None, None, false),
      Stamps(0, 0, 0, 0, 0, 0),
      None)
  }

  /** A write is dropped when the device reported something else a moment ago. */
  predicate PassesGuard(cfg: Config, now: int, stamp: int, differs: bool) {
    !differs || stamp == 0 || now - stamp >= cfg.windowMs
  }

  /** In the integers of the clock: the last report, if any, is at least a window ago. */
  predicate WindowOver(cfg: Config, now: int, stamp: int) {
    stamp == 0 || now - stamp >= cfg.windowMs
  }

  // ----- Controller writes -----

  function WriteOnOff(cfg: Config, now: int, k: KernelState, on: bool): KernelState {
    if PassesGuard(cfg, now, k.stamps.onOff, on != k.ac.onOff.observed)
    then k.(ac := k.ac.(onOff := k.ac.onOff.WithDesired(on)))
    else k
  }

  function WriteMode(cfg: Config, now: int, k: KernelState, mode: OperationalMode): KernelState {
    if PassesGuard(cfg, now, k.stamps.mode, mode != k.ac.mode.observed)
    then k.(ac := k.ac.(mode := k.ac.mode.WithDesired(mode)))
    else k
  }

  function WriteSystemMode(cfg: Config, now: int, k: KernelState, power: bool, mode: OperationalMode): KernelState {
    var powered := WriteOnOff(cfg, now, k, power);
    if power then WriteMode(cfg, now, powered, mode) else powered
  }

  /** Moves the Auto centre, unless the device has just reported another one. */
  function WriteCentre(cfg: Config, now: int, k: KernelState, centre: int16): KernelState {
    if PassesGuard(cfg, now, k.stamps.auto, centre != k.ac.auto.observed)
    then k.(ac := k.ac.(auto := k.ac.auto.WithDesired(centre)))
    else k
  }

  function Midpoint(a: int16, b: int16): int16 {
    ToInt16(TruncDiv(a + b, 2))
  }

  /** In Auto a heat edge pulls the centre to the middle of that edge and the current
      cool edge; outside Heat it is a shadow write with no guard. */
  function WriteHeat(cfg: Config, now: int, k: KernelState, value: int16): KernelState {
    match k.ac.mode.observed
    case Heat =>
      if PassesGuard(cfg, now, k.stamps.heat, value != k.ac.heat.observed)
      then k.(ac := k.ac.(heat := k.ac.heat.WithDesired(value)))
      else k
    case Auto =>
      WriteCentre(cfg, now, k, Midpoint(ToInt16(k.ac.auto.desired + cfg.halfWidth), value))
    case _ =>
      k.(ac := k.ac.(heat := k.ac.heat.WithDesired(value)))
  }

  function WriteCool(cfg: Config, now: int, k: KernelState, value: int16): KernelState {
    match k.ac.mode.observed
    case Cool =>
      if PassesGuard(cfg, now, k.stamps.cool, value != k.ac.cool.observed)
      then k.(ac := k.ac.(cool := k.ac.cool.WithDesired(value)))
      else k
    case Auto =>
      WriteCentre(cfg, now, k, Midpoint(value, ToInt16(k.ac.auto.desired - cfg.halfWidth)))
    case _ =>
      k.(ac := k.ac.(cool := k.ac.cool.WithDesired(value)))
  }

  /** A fan cannot run in a unit that is off. */
  function PowerOnForFan(cfg: Config, now: int, k: KernelState): KernelState {
    if k.ac.onOff.observed then k else WriteOnOff(cfg, now, k, true)
  }

  function WriteFan(cfg: Config, now: int, k: KernelState, fan: FanSpeed, percent: Option<byte>): KernelState {
    if PassesGuard(cfg, now, k.stamps.fan, fan != k.ac.fan.observed) then
      var powered := PowerOnForFan(cfg, now, k);
      powered.(ac := powered.ac.(fan := powered.ac.fan.WithDesired(fan), fanPercent := percent))
    else
      k
  }

  function ApplyIntent(cfg: Config, now: int, k: KernelState, i: WriteIntent): KernelState {
    match i
    case SetOnOff(on) => WriteOnOff(cfg, now, k, on)
    case SetSystemMode(power, mode) => WriteSystemMode(cfg, now, k, power, mode)
    case SetHeatingSetpoint(v) => WriteHeat(cfg, now, k, v)
    case SetCoolingSetpoint(v) => WriteCool(cfg, now, k, v)
    case SetSpeed(speed) => WriteFan(cfg, now, k, speed, DerivedPercent(speed))
    case SetPercent(None) => k
    case SetPercent(Some(p)) => WriteFan(cfg, now, k, Some(PercentToSpeedLevel(p)), Some(p))
  }

  /** The writes one after the other. */
  function ApplyAll(cfg: Config, now: int, k: KernelState, xs: seq<WriteIntent>): KernelState {
    if xs == [] then k
    else ApplyIntent(cfg, now, ApplyAll(cfg, now, k, xs[..|xs| - 1]), xs[|xs| - 1])
  }

  // ----- Bundles of writes -----

  predicate IsEdge(i: WriteIntent) {
    i.SetHeatingSetpoint? || i.SetCoolingSetpoint?
  }

  function LastHeat(xs: seq<WriteIntent>): Option<int16> {
    if xs == [] then None
    else if xs[|xs| - 1].SetHeatingSetpoint? then Some(xs[|xs| - 1].value)
    else LastHeat(xs[..|xs| - 1])
  }

  function LastCool(xs: seq<WriteIntent>): Option<int16> {
    if xs == [] then None
    else if xs[|xs| - 1].SetCoolingSetpoint? then Some(xs[|xs| - 1].value)
    else LastCool(xs[..|xs| - 1])
  }

  /** The writes that are not band edges, in order. */
  function NonEdges(xs: seq<WriteIntent>): seq<WriteIntent> {
    if xs == [] then []
    else if IsEdge(xs[|xs| - 1]) then NonEdges(xs[..|xs| - 1])
    else NonEdges(xs[..|xs| - 1]) + [xs[|xs| - 1]]
  }

  predicate Collapses(k: KernelState, xs: seq<WriteIntent>) {
    k.ac.mode.observed == OperationalMode.Auto && LastHeat(xs).Some? && LastCool(xs).Some?
  }

  /** A bundle in Auto that writes both edges sets the centre once, to the middle of
      the last pair, and applies the rest; any other bundle is the plain sequence. */
  function ApplyBundle(cfg: Config, now: int, k: KernelState, xs: seq<WriteIntent>): KernelState {
    if Collapses(k, xs) then
      var centred := WriteCentre(cfg, now, k, Midpoint(LastHeat(xs).value, LastCool(xs).value));
      ApplyAll(cfg, now, centred, NonEdges(xs))
    else
      ApplyAll(cfg, now, k, xs)
  }

  // ----- Polls -----

  /** Direction signals in order of authority: power, the mode byte, the refrigerant
      valve, and the indoor temperature against the active setpoint. */
  function FuseRunningMode(cfg: Config, ac: AcState, onOff: bool, mode: S21Mode, valve: Option<bool>): RunningMode {
    if !onOff then RunningMode.Off
    else if DirectionHint(mode).Some? then DirectionHint(mode).value
    else if valve == Some(false) then RunningMode.Off
    else if valve == Some(true) then
      match FromS21Mode(mode) {
        case Cool => Cooling
        case Heat => Heating
        case Auto => if ac.indoor.Some? && ac.indoor.value < ac.auto.observed then Heating else Cooling
        case _ => RunningMode.Off
      }
    else if ac.indoor.None? then RunningMode.Off
    else
      var indoor, h := ac.indoor.value, cfg.hysteresis;
      match FromS21Mode(mode) {
        case Cool => if ac.cool.observed + h >= indoor then RunningMode.Off else Cooling
        case Heat => if ac.heat.observed - h <= indoor then RunningMode.Off else Heating
        case Auto =>
          if indoor > ac.auto.observed + h then Cooling
          else if indoor < ac.auto.observed - h then Heating
          else RunningMode.Off
        case _ => RunningMode.Off
      }
  }

  /** The reported setpoint belongs to the reported mode; the other shadows stay. */
  function ObserveSetpoint(ac: AcState, mode: OperationalMode, v: int16): AcState {
    match mode
    case Cool => ac.(cool := ac.cool.Observing(v, Device))
    case Heat => ac.(heat := ac.heat.Observing(v, Device))
    case Auto => ac.(auto := ac.auto.Observing(v, Device))
    case _ => ac
  }

  function StampPoll(s: Stamps, mode: OperationalMode, now: int): Stamps {
    var all := s.(onOff := now, mode := now, fan := now);
    match mode
    case Cool => all.(cool := now)
    case Heat => all.(heat := now)
    case Auto => all.(auto := now)
    case _ => all
  }

  /** The remembered percent follows the device only when the device changed the level. */
  function PercentAfterPoll(before: AcState, fan: Twin<FanSpeed>): Option<byte> {
    if fan.observed != before.fan.observed && fan.attribution == Device
    then DerivedPercent(fan.observed)
    else before.fanPercent
  }

  function ApplyPoll(cfg: Config, now: int, k: KernelState, poll: OperationalPoll): KernelState {
    var mode := FromS21Mode(poll.mode);
    var fan := k.ac.fan.Observing(FromS21Fan(poll.fan), Device);
    var seen := ObserveSetpoint(k.ac, mode, poll.setpoint).(
      onOff := k.ac.onOff.Observing(poll.onOff, Device),
      mode := k.ac.mode.Observing(mode, Device),
      fan := fan,
      fanPercent := PercentAfterPoll(k.ac, fan),
      valveOpen := poll.valveOpen,
      reachable := true);
    k.(ac := seen.(runningMode := FuseRunningMode(cfg, seen, poll.onOff, poll.mode, poll.valveOpen)),
       stamps := StampPoll(k.stamps, mode, now))
  }

  function ApplyEnvironment(k: KernelState, poll: EnvironmentalPoll): KernelState {
    k.(ac := k.ac.(indoor := Some(poll.indoor), outdoor := Some(poll.outdoor), humidity := Some(poll.humidity)))
  }

  // ----- Commands -----

  /** One S21 command carries every axis; the setpoint is the active one. */
  function Compose(ac: AcState): Command {
    Command(
      ac.onOff.desired,
      ToS21Mode(ac.mode.desired),
      ac.ActiveSetpoint(ac.mode.desired).desired,
      ToS21Fan(ac.fan.desired))
  }

  predicate AnyDirty(ac: AcState) {
    ac.onOff.Dirty() || ac.mode.Dirty() || ac.heat.Dirty() || ac.cool.Dirty() || ac.auto.Dirty() || ac.fan.Dirty()
  }

  function PendingCommand(k: KernelState): Option<Command> {
    if AnyDirty(k.ac) && k.lastSent != Some(Compose(k.ac)) then Some(Compose(k.ac)) else None
  }

  function PromoteSetpoint(ac: AcState): AcState {
    match ac.mode.desired
    case Cool => ac.(cool := ac.cool.Promoted())
    case Heat => ac.(heat := ac.heat.Promoted())
    case Auto => ac.(auto := ac.auto.Promoted())
    case _ => ac
  }

  function CommandSent(k: KernelState, cmd: Command): KernelState {
    k.(ac := PromoteSetpoint(k.ac).(
         onOff := k.ac.onOff.Promoted(),
         mode := k.ac.mode.Promoted(),
         fan := k.ac.fan.Promoted()),
       lastSent := Some(cmd))
  }

  function CommandFailed(k: KernelState): KernelState {
    k.(lastSent := None)
  }

  function LinkDown(k: KernelState): KernelState {
    k.(ac := k.ac.(reachable := false))
  }

  // ----- Runs -----

  datatype Event =
    | Intent(now: int, intent: WriteIntent)
    | Bundle(now: int, intents: seq<WriteIntent>)
    | Poll(now: int, poll: OperationalPoll)
    | Environment(env: EnvironmentalPoll)
    | Sent(cmd: Command)
    | Failed
    | Lost

  function Step(cfg: Config, k: KernelState, e: Event): KernelState {
    match e
    case Intent(now, i) => ApplyIntent(cfg, now, k, i)
    case Bundle(now, xs) => ApplyBundle(cfg, now, k, xs)
    case Poll(now, poll) => ApplyPoll(cfg, now, k, poll)
    case Environment(env) => ApplyEnvironment(k, env)
    case Sent(cmd) => CommandSent(k, cmd)
    case Failed => CommandFailed(k)
    case Lost => LinkDown(k)
  }

  function Run(cfg: Config, k: KernelState, es: seq<Event>): KernelState {
    if es == [] then k else Step(cfg, Run(cfg, k, es[..|es| - 1]), es[|es| - 1])
  }

  lemma RunExtended(cfg: Config, k: KernelState, es: seq<Event>, e: Event)
    ensures Run(cfg, k, es + [e]) == Step(cfg, Run(cfg, k, es), e)
  {
  }
}

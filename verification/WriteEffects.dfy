/** What each controller write does, against what the device said last: in the integers of
    the clock and the values of the twins. */
module WriteEffects {
  import opened AcTypes
  import opened Convergence
  import opened DeviceView
  import opened FanConsistency
  import opened FanMapping
  import opened Kernel
  import opened MachineInts
  import opened Options
  import opened TwinFields

  // ----- The device-wins window -----

  function LastPollTime(es: seq<Event>): Option<int> {
    if es == [] then None
    else if es[|es| - 1].Poll? then Some(es[|es| - 1].now)
    else LastPollTime(es[..|es| - 1])
  }

  /** The last poll of a run, if at this time it is more recent than the window is long. A
      poll at time zero counts as none. */
  function JustReported(cfg: Config, es: seq<Event>, now: int): Option<OperationalPoll> {
    if LastPollTime(es).Some? && LastPollTime(es).value != 0 && now - LastPollTime(es).value < cfg.windowMs
    then LastPoll(es)
    else None
  }

  /** After a poll the stamps are its time, and what is observed is what it said. */
  lemma {:induction false} StampedByLastPoll(cfg: Config, es: seq<Event>)
    ensures var k := Run(cfg, BootState(), es);
            match LastPollTime(es)
            case None =>
              LastPoll(es).None? && k.stamps == Stamps(0, 0, 0, 0, 0, 0)
            case Some(at) =>
              && LastPoll(es).Some?
              && k.stamps.onOff == at && k.stamps.mode == at && k.stamps.fan == at
              && var p := LastPoll(es).value;
              && k.ac.onOff.observed == p.onOff && k.ac.mode.observed == FromS21Mode(p.mode)
              && k.ac.fan.observed == FromS21Fan(p.fan)
              && match FromS21Mode(p.mode)
                 case Heat => k.stamps.heat == at && k.ac.heat.observed == p.setpoint
                 case Cool => k.stamps.cool == at && k.ac.cool.observed == p.setpoint
                 case Auto => k.stamps.auto == at && k.ac.auto.observed == p.setpoint
                 case _ => true
  {
    if es != [] {
      var prior, e := es[..|es| - 1], es[|es| - 1];
      StampedByLastPoll(cfg, prior);
      if !FromDevice(e) {
        ControllerUnseen(cfg, Run(cfg, BootState(), prior), e);
        assert See(Run(cfg, BootState(), es)) == See(Run(cfg, BootState(), prior));
      }
    }
  }

  /** The centre of the band with this edge and the other edge of the wanted band. */
  function CentreOfHeat(cfg: Config, desired: int16, heat: int16): int16 {
    Halved(ToInt16(desired + cfg.halfWidth) + heat)
  }

  function CentreOfCool(cfg: Config, desired: int16, cool: int16): int16 {
    Halved(cool + ToInt16(desired - cfg.halfWidth))
  }

  /** The greatest int16 not above half of a non-negative sum; the least not below half of a
      negative one. */
  function Halved(sum: int): (half: int16)
    requires -0x1_0000 <= sum <= 0xFFFE
    ensures if sum >= 0 then 2 * half <= sum < 2 * half + 2 else 2 * half - 2 < sum <= 2 * half
  {
    if sum >= 0 then sum / 2 else -(-sum / 2)
  }

  /** The write asks for something else than the poll reported, on every axis it touches. */
  predicate Contradicts(cfg: Config, k: KernelState, i: WriteIntent, p: OperationalPoll) {
    match i
    case SetOnOff(on) => on != p.onOff
    case SetSystemMode(power, mode) => power != p.onOff && (power ==> mode != FromS21Mode(p.mode))
    case SetHeatingSetpoint(v) =>
      || (FromS21Mode(p.mode) == OperationalMode.Heat && v != p.setpoint)
      || (FromS21Mode(p.mode) == OperationalMode.Auto && CentreOfHeat(cfg, k.ac.auto.desired, v) != p.setpoint)
    case SetCoolingSetpoint(v) =>
      || (FromS21Mode(p.mode) == OperationalMode.Cool && v != p.setpoint)
      || (FromS21Mode(p.mode) == OperationalMode.Auto && CentreOfCool(cfg, k.ac.auto.desired, v) != p.setpoint)
    case SetSpeed(speed) => speed != FromS21Fan(p.fan)
    case SetPercent(None) => true
    case SetPercent(Some(percent)) => Some(PercentToSpeedLevel(percent)) != FromS21Fan(p.fan)
  }

  // ----- What a write makes wanted -----

  /** The twin with another wanted value; a controller owns it from then on, unless the
      value was wanted already. */
  predicate Wants<T(==)>(before: Twin<T>, after: Twin<T>, v: T) {
    && after.desired == v
    && after.observed == before.observed && after.inFlight == before.inFlight && after.lastSource == before.lastSource
    && after.attribution == (if before.desired == v then before.attribution else Matter)
  }

  /** All but the named twins are the same. */
  predicate OnlyPowerAndMode(k: KernelState, r: KernelState) {
    r == k.(ac := k.ac.(onOff := r.ac.onOff, mode := r.ac.mode))
  }

  predicate OnlySetpoints(k: KernelState, r: KernelState) {
    r == k.(ac := k.ac.(heat := r.ac.heat, cool := r.ac.cool, auto := r.ac.auto))
  }

  predicate OnlyPowerAndFan(k: KernelState, r: KernelState) {
    r == k.(ac := k.ac.(onOff := r.ac.onOff, fan := r.ac.fan, fanPercent := r.ac.fanPercent))
  }

  /** The device reported this a moment ago. */
  predicate Held(cfg: Config, now: int, stamp: int) {
    stamp != 0 && now - stamp < cfg.windowMs
  }

  lemma PowerWriteIs(cfg: Config, now: int, k: KernelState, i: WriteIntent)
    requires i.SetOnOff? || i.SetSystemMode?
    ensures var r := ApplyIntent(cfg, now, k, i);
            var power := if i.SetOnOff? then i.on else i.power;
            && OnlyPowerAndMode(k, r)
            && (if Held(cfg, now, k.stamps.onOff) && power != k.ac.onOff.observed then r.ac.onOff == k.ac.onOff
                else Wants(k.ac.onOff, r.ac.onOff, power))
            && (if i.SetOnOff? || !i.power || (Held(cfg, now, k.stamps.mode) && i.mode != k.ac.mode.observed)
                then r.ac.mode == k.ac.mode
                else Wants(k.ac.mode, r.ac.mode, i.mode))
  {
  }

  lemma HeatWriteIs(cfg: Config, now: int, k: KernelState, v: int16)
    ensures var r := ApplyIntent(cfg, now, k, SetHeatingSetpoint(v));
            match k.ac.mode.observed
            case Auto =>
              var centre := CentreOfHeat(cfg, k.ac.auto.desired, v);
              if Held(cfg, now, k.stamps.auto) && centre != k.ac.auto.observed then r == k
              else r == k.(ac := k.ac.(auto := r.ac.auto)) && Wants(k.ac.auto, r.ac.auto, centre)
            case m =>
              if m == OperationalMode.Heat && Held(cfg, now, k.stamps.heat) && v != k.ac.heat.observed then r == k
              else r == k.(ac := k.ac.(heat := r.ac.heat)) && Wants(k.ac.heat, r.ac.heat, v)
  {
    MidpointIsHalved(ToInt16(k.ac.auto.desired + cfg.halfWidth), v);
    hide Midpoint, Halved, ToInt16;
  }

  lemma CoolWriteIs(cfg: Config, now: int, k: KernelState, v: int16)
    ensures var r := ApplyIntent(cfg, now, k, SetCoolingSetpoint(v));
            match k.ac.mode.observed
            case Auto =>
              var centre := CentreOfCool(cfg, k.ac.auto.desired, v);
              if Held(cfg, now, k.stamps.auto) && centre != k.ac.auto.observed then r == k
              else r == k.(ac := k.ac.(auto := r.ac.auto)) && Wants(k.ac.auto, r.ac.auto, centre)
            case m =>
              if m == OperationalMode.Cool && Held(cfg, now, k.stamps.cool) && v != k.ac.cool.observed then r == k
              else r == k.(ac := k.ac.(cool := r.ac.cool)) && Wants(k.ac.cool, r.ac.cool, v)
  {
    MidpointIsHalved(v, ToInt16(k.ac.auto.desired - cfg.halfWidth));
    hide Midpoint, Halved, ToInt16;
  }

  lemma MidpointIsHalved(a: int16, b: int16)
    ensures Midpoint(a, b) == Halved(a + b)
  {
  }

  /** The write asks for this level: a speed is one, a percent p is the least level l
      with 100 l not below 6 p. */
  predicate AsksForLevel(i: WriteIntent, level: FanSpeed) {
    || (i.SetSpeed? && level == i.speed)
    || (i.SetPercent? && i.percent.Some? && level.Some?
        && (level.value - 1) * 100 < 6 * i.percent.value <= level.value * 100)
  }

  /** The percent remembered for it: the one written, or the level's share of 100, rounded
      down. */
  predicate Remembers(i: WriteIntent, percent: Option<byte>) {
    if i.SetPercent? then percent == i.percent
    else if i.SetSpeed? && i.speed.Some?
    then percent.Some? && 6 * percent.value <= 100 * i.speed.value < 6 * percent.value + 6
    else percent == None
  }

  lemma FanWriteIs(cfg: Config, now: int, k: KernelState, i: WriteIntent)
    requires i.SetSpeed? || i.SetPercent?
    ensures var r := ApplyIntent(cfg, now, k, i);
            if i.SetPercent? && i.percent.None? then r == k
            else
              var level := if i.SetSpeed? then i.speed else Some(PercentToSpeedLevel(i.percent.value));
              if Held(cfg, now, k.stamps.fan) && level != k.ac.fan.observed then r == k
              else
                && OnlyPowerAndFan(k, r)
                && Wants(k.ac.fan, r.ac.fan, level) && Remembers(i, r.ac.fanPercent)
                && (if k.ac.onOff.observed || Held(cfg, now, k.stamps.onOff) then r.ac.onOff == k.ac.onOff
                    else Wants(k.ac.onOff, r.ac.onOff, true))
  {
    hide PercentToSpeedLevel;
  }

  /** In every run: a power write is wanted unless the device just said otherwise; a
      system-mode write is the same for the power, and with the power on for the mode, while
      a power-off keeps the wanted mode. Nothing else changes. */
  lemma PowerAndModeWrites(cfg: Config, es: seq<Event>, now: int, i: WriteIntent)
    requires i.SetOnOff? || i.SetSystemMode?
    ensures var k := Run(cfg, BootState(), es);
            var r, p := ApplyIntent(cfg, now, k, i), JustReported(cfg, es, now);
            var power := if i.SetOnOff? then i.on else i.power;
            && OnlyPowerAndMode(k, r)
            && (if p.None? || p.value.onOff == power then Wants(k.ac.onOff, r.ac.onOff, power)
                else r.ac.onOff == k.ac.onOff)
            && (if i.SetSystemMode? && i.power && (p.None? || FromS21Mode(p.value.mode) == i.mode)
                then Wants(k.ac.mode, r.ac.mode, i.mode)
                else r.ac.mode == k.ac.mode)
  {
    StampedByLastPoll(cfg, es);
    PowerWriteIs(cfg, now, Run(cfg, BootState(), es), i);
    hide Run, ApplyIntent, FromS21Fan, FromS21Mode;
  }

  /** In every run: a fan write is wanted unless the device just said another level, and a
      unit seen off is wanted on as well, unless it just said so. Nothing else changes. */
  lemma FanWrites(cfg: Config, es: seq<Event>, now: int, i: WriteIntent, level: FanSpeed)
    requires AsksForLevel(i, level)
    requires i.SetPercent? ==> 1 <= i.percent.value <= 100
    ensures var k := Run(cfg, BootState(), es);
            var r, p := ApplyIntent(cfg, now, k, i), JustReported(cfg, es, now);
            if p.Some? && FromS21Fan(p.value.fan) != level then r == k
            else
              && OnlyPowerAndFan(k, r)
              && Wants(k.ac.fan, r.ac.fan, level) && Remembers(i, r.ac.fanPercent)
              && (if k.ac.onOff.observed || p.Some? then r.ac.onOff == k.ac.onOff
                  else Wants(k.ac.onOff, r.ac.onOff, true))
  {
    StampedByLastPoll(cfg, es);
    FanWriteIs(cfg, now, Run(cfg, BootState(), es), i);
    if i.SetPercent? {
      PercentRule(i.percent.value, level.value);
    }
    hide Run, ApplyIntent, FromS21Fan, FromS21Mode, PercentToSpeedLevel;
  }

  /** In every run: in its own mode an edge is wanted unless the device just said another
      setpoint; in Auto the centre halfway between the new edge and the other wanted one is,
      unless the device just said another; in every other mode the edge is wanted whatever
      the device said, for the day its mode comes back. Nothing else changes. */
  lemma SetpointWrites(cfg: Config, es: seq<Event>, now: int, i: WriteIntent)
    requires IsEdge(i)
    ensures var k := Run(cfg, BootState(), es);
            var r, p := ApplyIntent(cfg, now, k, i), JustReported(cfg, es, now);
            var own := if i.SetHeatingSetpoint? then OperationalMode.Heat else OperationalMode.Cool;
            var edge, after := k.ac.ActiveSetpoint(own), r.ac.ActiveSetpoint(own);
            && OnlySetpoints(k, r)
            && (if i.SetHeatingSetpoint? then r.ac.cool == k.ac.cool else r.ac.heat == k.ac.heat)
            && (if k.ac.mode.observed == OperationalMode.Auto then
                  var centre := if i.SetHeatingSetpoint? then CentreOfHeat(cfg, k.ac.auto.desired, i.value)
                                else CentreOfCool(cfg, k.ac.auto.desired, i.value);
                  && after == edge
                  && (if p.None? || p.value.setpoint == centre then Wants(k.ac.auto, r.ac.auto, centre)
                      else r.ac.auto == k.ac.auto)
                else
                  && r.ac.auto == k.ac.auto
                  && (if k.ac.mode.observed != own || p.None? || p.value.setpoint == i.value
                      then Wants(edge, after, i.value)
                      else after == edge))
  {
    StampedByLastPoll(cfg, es);
    var k := Run(cfg, BootState(), es);
    hide Run, ApplyIntent, CentreOfHeat, CentreOfCool, FromS21Fan, FromS21Mode;
    if i.SetHeatingSetpoint? {
      HeatWriteIs(cfg, now, k, i.value);
    } else {
      CoolWriteIs(cfg, now, k, i.value);
    }
  }

  /** The device wins: in every run, a write that contradicts what the device reported less
      than the window ago changes nothing at all. */
  lemma DeviceWins(cfg: Config, es: seq<Event>, now: int, i: WriteIntent)
    requires JustReported(cfg, es, now).Some?
    requires Contradicts(cfg, Run(cfg, BootState(), es), i, JustReported(cfg, es, now).value)
    ensures ApplyIntent(cfg, now, Run(cfg, BootState(), es), i) == Run(cfg, BootState(), es)
  {
    var k := Run(cfg, BootState(), es);
    hide Run, ApplyIntent, CentreOfHeat, CentreOfCool, PercentToSpeedLevel;
    StampedByLastPoll(cfg, es);
    match i {
      case SetOnOff(_) => PowerAndModeWrites(cfg, es, now, i);
      case SetSystemMode(_, _) => PowerAndModeWrites(cfg, es, now, i);
      case SetHeatingSetpoint(_) => SetpointWrites(cfg, es, now, i);
      case SetCoolingSetpoint(_) => SetpointWrites(cfg, es, now, i);
      case _ => FanWriteIs(cfg, now, k, i);
    }
  }

  // ----- From the write to the device -----

  /** What subscribers should find at the device once a write is through. */
  predicate Arrived(cfg: Config, k: KernelState, i: WriteIntent, ac: AcState) {
    match i
    case SetOnOff(on) => ac.onOff.Settled(on)
    case SetSystemMode(power, mode) => ac.onOff.Settled(power) && (power ==> ac.mode.Settled(mode))
    case SetHeatingSetpoint(v) =>
      if k.ac.mode.observed == OperationalMode.Auto then ac.auto.Settled(CentreOfHeat(cfg, k.ac.auto.desired, v))
      else ac.heat.Settled(v)
    case SetCoolingSetpoint(v) =>
      if k.ac.mode.observed == OperationalMode.Auto then ac.auto.Settled(CentreOfCool(cfg, k.ac.auto.desired, v))
      else ac.cool.Settled(v)
    case SetSpeed(speed) => ac.fan.Settled(speed)
    case SetPercent(percent) =>
      percent.Some? ==>
        && ac.fan.observed.Some? && ac.fan.Settled(ac.fan.observed)
        && (ac.fan.observed.value - 1) * 100 < 6 * percent.value <= ac.fan.observed.value * 100
  }

  /** The write concerns the mode that is wanted: a shadow setpoint waits for its own. */
  predicate Concerns(k: KernelState, i: WriteIntent) {
    IsEdge(i) ==>
      && k.ac.mode.desired == k.ac.mode.observed
      && (|| k.ac.mode.observed == OperationalMode.Auto
          || (i.SetHeatingSetpoint? && k.ac.mode.observed == OperationalMode.Heat)
          || (i.SetCoolingSetpoint? && k.ac.mode.observed == OperationalMode.Cool))
  }

  /** In every run: a write of a value that the window lets pass, once it makes a command
      pending that is handed over, polled while stale and at last echoed, is what the
      device holds, with nothing in flight. */
  lemma WriteArrives(
      cfg: Config, es: seq<Event>, now: int, i: WriteIntent, cmd: Command, stale: seq<Event>, echoes: seq<Event>)
    requires JustReported(cfg, es, now).None? && PercentInRange(i)
    requires var k := Run(cfg, BootState(), es);
             var r := ApplyIntent(cfg, now, k, i);
             && Concerns(k, i)
             && PendingCommand(r) == Some(cmd)
             && StalePolls(cfg, CommandSent(r, cmd), stale) && EchoPolls(cmd, echoes) && HasPoll(echoes)
    ensures var k := Run(cfg, BootState(), es);
            var sent := CommandSent(ApplyIntent(cfg, now, k, i), cmd);
            Arrived(cfg, k, i, Run(cfg, Run(cfg, sent, stale), echoes).ac)
  {
    var k := Run(cfg, BootState(), es);
    var r := ApplyIntent(cfg, now, k, i);
    Converges(cfg, r, cmd, stale, echoes);
    DeviceEnumsRoundTrip(r.ac.mode.desired, r.ac.fan.desired);
    match i {
      case SetOnOff(_) => PowerAndModeWrites(cfg, es, now, i);
      case SetSystemMode(_, _) => PowerAndModeWrites(cfg, es, now, i);
      case SetHeatingSetpoint(_) => SetpointWrites(cfg, es, now, i);
      case SetCoolingSetpoint(_) => SetpointWrites(cfg, es, now, i);
      case SetSpeed(speed) => FanWrites(cfg, es, now, i, speed);
      case SetPercent(Some(percent)) =>
        PercentRule(percent, PercentToSpeedLevel(percent));
        FanWrites(cfg, es, now, i, Some(PercentToSpeedLevel(percent)));
      case SetPercent(None) =>
    }
  }

  /** Nothing waits and nothing is under way. */
  predicate AtRest(ac: AcState) {
    && ac.onOff.Settled(ac.onOff.observed) && ac.mode.Settled(ac.mode.observed) && ac.fan.Settled(ac.fan.observed)
    && ac.heat.Settled(ac.heat.observed) && ac.cool.Settled(ac.cool.observed) && ac.auto.Settled(ac.auto.observed)
  }

  /** The command that puts one write through and repeats what the device does otherwise,
      in the device's own terms. */
  predicate PutsThrough(cfg: Config, k: KernelState, i: WriteIntent, cmd: Command) {
    var ac, heat, cool, auto := k.ac, k.ac.heat.observed, k.ac.cool.observed, k.ac.auto.observed;
    var on, mode, fan := cmd.onOff, FromS21Mode(cmd.mode), FromS21Fan(cmd.fan);
    && on == (match i
              case SetOnOff(value) => value
              case SetSystemMode(power, _) => power
              case SetSpeed(_) => true
              case SetPercent(Some(_)) => true
              case _ => ac.onOff.observed)
    && mode == (if i.SetSystemMode? && i.power then i.mode else ac.mode.observed)
    && (if i.SetSpeed? || (i.SetPercent? && i.percent.Some?) then AsksForLevel(i, fan) else fan == ac.fan.observed)
    && cmd.setpoint == (match mode
                        case Heat => if i.SetHeatingSetpoint? then i.value else heat
                        case Cool => if i.SetCoolingSetpoint? then i.value else cool
                        case _ =>
                          if ac.mode.observed != OperationalMode.Auto then auto
                          else if i.SetHeatingSetpoint? then CentreOfHeat(cfg, auto, i.value)
                          else if i.SetCoolingSetpoint? then CentreOfCool(cfg, auto, i.value)
                          else auto)
  }

  /** The write asks for something the device does not do. */
  predicate Changes(cfg: Config, ac: AcState, i: WriteIntent) {
    match i
    case SetOnOff(on) => on != ac.onOff.observed
    case SetSystemMode(power, mode) => power != ac.onOff.observed || (power && mode != ac.mode.observed)
    case SetHeatingSetpoint(v) =>
      if ac.mode.observed == OperationalMode.Auto
      then CentreOfHeat(cfg, ac.auto.observed, v) != ac.auto.observed
      else v != ac.heat.observed
    case SetCoolingSetpoint(v) =>
      if ac.mode.observed == OperationalMode.Auto
      then CentreOfCool(cfg, ac.auto.observed, v) != ac.auto.observed
      else v != ac.cool.observed
    case SetSpeed(speed) => !ac.onOff.observed || speed != ac.fan.observed
    case SetPercent(None) => false
    case SetPercent(Some(_)) => !ac.onOff.observed || !AsksForLevel(i, ac.fan.observed)
  }

  /** A command is pending exactly when the write changes something and the command that
      puts it through is not the last one delivered. */
  predicate SentUnlessRepeated(cfg: Config, k: KernelState, i: WriteIntent, next: Option<Command>) {
    && (next.Some? ==> PutsThrough(cfg, k, i, next.value) && Changes(cfg, k.ac, i))
    && (next.None? && Changes(cfg, k.ac, i) ==> k.lastSent.Some? && PutsThrough(cfg, k, i, k.lastSent.value))
    && (next.Some? ==> next != k.lastSent)
  }

  lemma PowerIsSent(cfg: Config, es: seq<Event>, now: int, i: WriteIntent)
    requires AtRest(Run(cfg, BootState(), es).ac) && JustReported(cfg, es, now).None?
    requires i.SetOnOff? || i.SetSystemMode?
    ensures var k := Run(cfg, BootState(), es);
            SentUnlessRepeated(cfg, k, i, PendingCommand(ApplyIntent(cfg, now, k, i)))
  {
    var k := Run(cfg, BootState(), es);
    var r := ApplyIntent(cfg, now, k, i);
    hide Run, ApplyIntent, CentreOfHeat, CentreOfCool, JustReported;
    DeviceEnumsRoundTrip(r.ac.mode.desired, r.ac.fan.desired);
    hide ToS21Mode, ToS21Fan, FromS21Mode, FromS21Fan;
    PowerAndModeWrites(cfg, es, now, i);
  }

  lemma FanIsSent(cfg: Config, es: seq<Event>, now: int, i: WriteIntent)
    requires AtRest(Run(cfg, BootState(), es).ac) && JustReported(cfg, es, now).None? && PercentInRange(i)
    requires i.SetSpeed? || i.SetPercent?
    ensures var k := Run(cfg, BootState(), es);
            SentUnlessRepeated(cfg, k, i, PendingCommand(ApplyIntent(cfg, now, k, i)))
  {
    var k := Run(cfg, BootState(), es);
    var r := ApplyIntent(cfg, now, k, i);
    hide Run, ApplyIntent, CentreOfHeat, CentreOfCool, JustReported, PercentToSpeedLevel;
    DeviceEnumsRoundTrip(r.ac.mode.desired, r.ac.fan.desired);
    hide ToS21Mode, ToS21Fan, FromS21Mode, FromS21Fan;
    if i.SetSpeed? {
      FanWrites(cfg, es, now, i, i.speed);
    } else if i.percent.None? {
      FanWriteIs(cfg, now, k, i);
    } else {
      var level := PercentToSpeedLevel(i.percent.value);
      PercentRule(i.percent.value, level);
      FanWrites(cfg, es, now, i, Some(level));
      assert AsksForLevel(i, k.ac.fan.observed) <==> k.ac.fan.observed == Some(level);
    }
  }

  lemma SetpointIsSent(cfg: Config, es: seq<Event>, now: int, i: WriteIntent)
    requires AtRest(Run(cfg, BootState(), es).ac) && JustReported(cfg, es, now).None?
    requires IsEdge(i)
    ensures var k := Run(cfg, BootState(), es);
            SentUnlessRepeated(cfg, k, i, PendingCommand(ApplyIntent(cfg, now, k, i)))
  {
    var k := Run(cfg, BootState(), es);
    var r := ApplyIntent(cfg, now, k, i);
    hide Run, ApplyIntent, CentreOfHeat, CentreOfCool, JustReported;
    DeviceEnumsRoundTrip(r.ac.mode.desired, r.ac.fan.desired);
    hide ToS21Mode, ToS21Fan, FromS21Mode, FromS21Fan;
    SetpointWrites(cfg, es, now, i);
  }

  /** In every run: from rest, a write that the window lets pass makes a command pending
      exactly when it asks for something the device does not do and the command that puts
      it through is not the last one delivered. */
  lemma WriteIsSent(cfg: Config, es: seq<Event>, now: int, i: WriteIntent)
    requires AtRest(Run(cfg, BootState(), es).ac) && JustReported(cfg, es, now).None? && PercentInRange(i)
    ensures var k := Run(cfg, BootState(), es);
            var next := PendingCommand(ApplyIntent(cfg, now, k, i));
            && (next.Some? ==> PutsThrough(cfg, k, i, next.value) && Changes(cfg, k.ac, i))
            && (next.None? && Changes(cfg, k.ac, i) ==>
                  k.lastSent.Some? && PutsThrough(cfg, k, i, k.lastSent.value))
            && (next.Some? ==> next != k.lastSent)
  {
    hide Run, ApplyIntent, PutsThrough, Changes, AtRest, PendingCommand;
    if i.SetOnOff? || i.SetSystemMode? {
      PowerIsSent(cfg, es, now, i);
    } else if IsEdge(i) {
      SetpointIsSent(cfg, es, now, i);
    } else {
      FanIsSent(cfg, es, now, i);
    }
  }
}

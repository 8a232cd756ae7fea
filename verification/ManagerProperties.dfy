/** Bounded bus traffic for commands a unit does not have, and caches that agree with
    the device they save asking. */
module ManagerProperties {
  import opened AcTypes
  import opened MachineInts
  import opened Options
  import opened S21Manager
  import opened S21Presentation

  datatype Request =
    | GetOperation
    | GetField
    | GetFan
    | GetSensor(sensor: Sensor)
    | GetUnit
    | SetFields(update: Update)

  /** Some requests read the clock a second time, after they may have asked the bus. */
  function Serve(m: Manager, now: int, later: int, bus: Bus, r: Request): Manager {
    match r
    case GetOperation => ReadOperation(m, now, later, bus)
    case GetField => FetchOperation(m, now, bus)
    case GetFan => ReadFan(m, now, later, bus)
    case GetSensor(s) => ReadSensor(m, now, bus, s)
    case GetUnit => ReadUnitState(m, bus)
    case SetFields(u) => Set(m, now, later, bus, u)
  }

  datatype Turn = Turn(now: int, later: int, bus: Bus, request: Request)

  function ServeAll(m: Manager, ts: seq<Turn>): Manager {
    if ts == [] then m
    else
      var t := ts[|ts| - 1];
      Serve(ServeAll(m, ts[..|ts| - 1]), t.now, t.later, t.bus, t.request)
  }

  // ----- Capability -----

  /** The capability automaton, with the number of bus calls it has let through. */
  predicate CapabilitySound(c: Capability) {
    match c.status
    case Supported => c.failureCount == 0 && c.successes > 0
    case Unknown => 0 <= c.failureCount <= 3 && c.successes == 0 && c.busCalls == c.failureCount
    case Unsupported => c.failureCount == 4 && c.successes == 0 && c.busCalls == 4
  }

  predicate CapabilitiesSound(m: Manager) {
    && CapabilitySound(m.coarseCap) && CapabilitySound(m.fanCap) && CapabilitySound(m.roomCap)
    && CapabilitySound(m.outdoorCap) && CapabilitySound(m.humidityCap) && CapabilitySound(m.unitStateCap)
  }

  lemma CallKeepsSound(c: Capability, ok: bool)
    requires CapabilitySound(c)
    ensures CapabilitySound(c.Called(ok))
  {
  }

  lemma ServeKeepsSound(m: Manager, t: Turn)
    requires CapabilitiesSound(m)
    ensures CapabilitiesSound(Serve(m, t.now, t.later, t.bus, t.request))
  {
    hide CapabilitySound, Capability.Called;
    CallKeepsSound(m.coarseCap, t.bus.coarse.Ok?);
    CallKeepsSound(m.fanCap, t.bus.fan.Ok?);
    CallKeepsSound(m.roomCap, t.bus.room.Ok?);
    CallKeepsSound(m.outdoorCap, t.bus.outdoor.Ok?);
    CallKeepsSound(m.humidityCap, t.bus.humidity.Ok?);
    CallKeepsSound(m.unitStateCap, t.bus.unitState.Ok?);
  }

  lemma {:induction false} CapabilityBound(maxAge: int, ts: seq<Turn>)
    ensures CapabilitiesSound(ServeAll(NewManager(maxAge), ts))
  {
    if ts != [] {
      CapabilityBound(maxAge, ts[..|ts| - 1]);
      ServeKeepsSound(ServeAll(NewManager(maxAge), ts[..|ts| - 1]), ts[|ts| - 1]);
    }
  }

  /** Unsupported is final, to the last bus call; Supported is never taken back. */
  predicate Absorbed(before: Capability, after: Capability) {
    && (before.status == Unsupported ==> after == before)
    && (before.status == Supported ==> after.status == Supported)
  }

  lemma {:induction false} CapabilityAbsorbing(m: Manager, ts: seq<Turn>)
    ensures var n := ServeAll(m, ts);
            && Absorbed(m.coarseCap, n.coarseCap) && Absorbed(m.fanCap, n.fanCap)
            && Absorbed(m.roomCap, n.roomCap) && Absorbed(m.outdoorCap, n.outdoorCap)
            && Absorbed(m.humidityCap, n.humidityCap) && Absorbed(m.unitStateCap, n.unitStateCap)
  {
    if ts != [] {
      CapabilityAbsorbing(m, ts[..|ts| - 1]);
    }
  }

  /** A command that has never succeeded reached the bus at most four times, through
      direct calls and through the caches together. */
  lemma AtMostFourTries(maxAge: int, ts: seq<Turn>)
    ensures var m := ServeAll(NewManager(maxAge), ts);
            && (m.coarseCap.successes == 0 ==> m.coarseCap.busCalls <= 4)
            && (m.fanCap.successes == 0 ==> m.fanCap.busCalls <= 4)
            && (m.roomCap.successes == 0 ==> m.roomCap.busCalls <= 4)
            && (m.outdoorCap.successes == 0 ==> m.outdoorCap.busCalls <= 4)
            && (m.humidityCap.successes == 0 ==> m.humidityCap.busCalls <= 4)
            && (m.unitStateCap.successes == 0 ==> m.unitStateCap.busCalls <= 4)
  {
    CapabilityBound(maxAge, ts);
  }

  // ----- The manager and its device -----

  datatype Snapshot = Snapshot(time: int, device: Command)

  /** The device holds what the wire can carry; the history is kept for the proof. */
  datatype World = World(m: Manager, device: Command, history: seq<Snapshot>)

  /** What becomes of a set-operation frame: it is lost or refused, taken and acknowledged,
      or taken while the acknowledgement is lost. */
  datatype Delivery = Lost | Acknowledged | Unacknowledged

  /** A request whose operation read the link may lose, or a change made at the panel. The
      other answers are whatever the bus gives. */
  datatype Happening =
    | Asked(now: int, later: int, request: Request, readable: bool, delivery: Delivery, others: Bus)
    | Panel(at: int, op: Command)

  function ReadBus(w: World, h: Happening): Bus
    requires h.Asked?
  {
    h.others.(operation := if h.readable then Ok(w.device) else Err(BusFailure(1)))
  }

  /** What the setter in this request sends, if it gets that far. */
  function Sent(w: World, h: Happening): Result<Command, Error>
    requires h.Asked?
  {
    if h.request.SetFields? then Wanted(w.m, h.now, ReadBus(w, h), h.request.update) else Err(BusFailure(0))
  }

  /** The device takes what arrives in range. */
  predicate Taken(w: World, h: Happening)
    requires h.Asked?
  {
    Sent(w, h).Ok? && InRange(Sent(w, h).value.setpoint) && h.delivery != Lost
  }

  predicate Accepted(w: World, h: Happening)
    requires h.Asked?
  {
    Taken(w, h) && h.delivery == Acknowledged
  }

  function BusDuring(w: World, h: Happening): Bus
    requires h.Asked?
  {
    ReadBus(w, h).(accept := if Accepted(w, h) then Ok(()) else Err(BusFailure(2)))
  }

  function Happen(w: World, h: Happening): World {
    match h
    case Asked(now, later, request, _, _, _) =>
      var device := if Taken(w, h) then Carried(Sent(w, h).value) else w.device;
      World(Serve(w.m, now, later, BusDuring(w, h), request), device,
            w.history + [Snapshot(now, w.device), Snapshot(later, device)])
    case Panel(at, op) =>
      World(w.m, Carried(op), w.history + [Snapshot(at, Carried(op))])
  }

  function Live(w: World, hs: seq<Happening>): World {
    if hs == [] then w else Happen(Live(w, hs[..|hs| - 1]), hs[|hs| - 1])
  }

  function FirstContact(maxAge: int, device: Command): World {
    World(NewManager(maxAge), Carried(device), [])
  }

  lemma CarriedTwice(op: Command)
    ensures Carried(Carried(op)) == Carried(op)
  {
    QuantisedSetpoint(op.setpoint);
  }

  lemma {:induction false} DeviceIsCarried(maxAge: int, device: Command, hs: seq<Happening>)
    ensures var w := Live(FirstContact(maxAge, device), hs); Carried(w.device) == w.device
  {
    if hs == [] {
      CarriedTwice(device);
    } else {
      var w, h := Live(FirstContact(maxAge, device), hs[..|hs| - 1]), hs[|hs| - 1];
      DeviceIsCarried(maxAge, device, hs[..|hs| - 1]);
      if h.Panel? {
        CarriedTwice(h.op);
      } else if Taken(w, h) {
        CarriedTwice(Sent(w, h).value);
      }
    }
  }

  // ----- Readings -----

  /** A value in a cache at most so old, or else what the bus says. */
  predicate ReadThrough<T(==)>(
      cache: Cache<T>, now: int, maxAge: int, onBus: Result<T, Error>, read: Result<T, Error>)
  {
    if cache.value.Some? && now - cache.timestamp <= maxAge then read == Ok(cache.value.value) else read == onBus
  }

  /** The bus's answer to an optional command, or an error without asking it. */
  predicate Tracked<T(==)>(c: Capability, onBus: Result<T, Error>, asked: Result<T, Error>) {
    asked == (if c.status == Unsupported then Err(UnsupportedCommand) else onBus)
  }

  /** The full operation: read through its cache; for a running unit whose fan reads Auto,
      and for no other, an answer of the fan command, read through a cache of its own,
      wins over that, and anything else leaves it. */
  lemma CrossCheckWins(
      m: Manager, now: int, later: int, bus: Bus, op: Result<Command, Error>, asked: Result<S21Fan, Error>,
      fan: Result<S21Fan, Error>)
    requires ReadThrough(m.operation, now, m.maxAge, bus.operation, op)
    requires Tracked(m.fanCap, bus.fan, asked) && ReadThrough(m.fan, later, m.maxAge, asked, fan)
    ensures OperationRead(m, now, later, bus) ==
            if op.Ok? && op.value.onOff && op.value.fan == S21Fan.Auto && fan.Ok?
            then Ok(Command(true, op.value.mode, op.value.setpoint, fan.value))
            else op
  {
  }

  /** The fan: its own command first, and the operation's fan when that fails. */
  lemma FanFallsBack(
      m: Manager, now: int, later: int, bus: Bus, op: Result<Command, Error>, asked: Result<S21Fan, Error>,
      fan: Result<S21Fan, Error>)
    requires ReadThrough(m.operation, later, m.maxAge, bus.operation, op)
    requires Tracked(m.fanCap, bus.fan, asked) && ReadThrough(m.fan, now, m.maxAge, asked, fan)
    ensures FanRead(m, now, later, bus) ==
            if fan.Ok? then fan else if op.Ok? then Ok(op.value.fan) else Err(op.error)
  {
  }

  /** A setter passes on the error of the read it starts from, and else the device's answer;
      a full one does not read. */
  lemma SetterAnswers(m: Manager, now: int, bus: Bus, u: Update, op: Result<Command, Error>)
    requires ReadThrough(m.operation, now, m.maxAge, bus.operation, op)
    ensures SetResult(m, now, bus, u) == if !u.Whole? && op.Err? then Err(op.error) else bus.accept
  {
  }

  /** The three sensors: their own command first, and their field of the coarse reading when
      that fails. */
  lemma SensorsFallBack(m: Manager, now: int, bus: Bus, asked: Result<Coarse, Error>, coarse: Result<Coarse, Error>)
    requires Tracked(m.coarseCap, bus.coarse, asked) && ReadThrough(m.coarse, now, m.maxAge, asked, coarse)
    ensures var room := OrCoarse(m.roomCap.Answer(bus.room), CachedCoarse(m, now, bus), (c: Coarse) => c.indoor);
            room == (if m.roomCap.status != Unsupported && bus.room.Ok? then bus.room
                     else if coarse.Ok? then Ok(coarse.value.indoor) else Err(coarse.error))
    ensures var read := CachedCoarse(m, now, bus);
            var outdoor := OrCoarse(m.outdoorCap.Answer(bus.outdoor), read, (c: Coarse) => c.outdoor);
            outdoor == (if m.outdoorCap.status != Unsupported && bus.outdoor.Ok? then bus.outdoor
                        else if coarse.Ok? then Ok(coarse.value.outdoor) else Err(coarse.error))
    ensures var read := CachedCoarse(m, now, bus);
            var humidity := OrCoarse(m.humidityCap.Answer(bus.humidity), read, (c: Coarse) => c.humidity);
            humidity == (if m.humidityCap.status != Unsupported && bus.humidity.Ok? then bus.humidity
                         else if coarse.Ok? then Ok(coarse.value.humidity) else Err(coarse.error))
  {
  }

  /** A capability before and after one call, with what went over the bus. */
  predicate CalledOnce(before: Capability, after: Capability, ok: bool) {
    if before.status == Unsupported then after == before
    else
      && after.busCalls == before.busCalls + 1
      && after.successes == before.successes + (if ok then 1 else 0)
      && (if ok then after.status == Supported && after.failureCount == 0
          else if before.status == Supported then after.status == Supported && after.failureCount == before.failureCount
          else
            && after.failureCount == before.failureCount + 1
            && after.status == (if before.failureCount >= 3 then Unsupported else Unknown))
  }

  lemma CalledIsCalledOnce(c: Capability, ok: bool)
    requires CapabilitySound(c)
    ensures CalledOnce(c, c.Called(ok), ok)
  {
  }

  /** The cache after a read through it, with a tracked fetch when it was too old. */
  predicate FilledBy<T(==)>(
      before: Cache<T>, after: Cache<T>, now: int, maxAge: int,
      cap: Capability, capAfter: Capability, onBus: Result<T, Error>)
  {
    if before.value.Some? && now - before.timestamp <= maxAge then after == before && capAfter == cap
    else
      && CalledOnce(cap, capAfter, onBus.Ok?)
      && (if cap.status != Unsupported && onBus.Ok? then after.value == Some(onBus.value) && after.timestamp == now
          else after == before)
  }

  lemma FetchesFill(m: Manager, now: int, bus: Bus)
    requires CapabilitiesSound(m)
    ensures var v := FetchCoarse(m, now, bus);
            && v == m.(coarse := v.coarse, coarseCap := v.coarseCap)
            && FilledBy(m.coarse, v.coarse, now, m.maxAge, m.coarseCap, v.coarseCap, bus.coarse)
    ensures var v := FetchFan(m, now, bus);
            && v == m.(fan := v.fan, fanCap := v.fanCap)
            && FilledBy(m.fan, v.fan, now, m.maxAge, m.fanCap, v.fanCap, bus.fan)
  {
    hide CalledOnce, CapabilitySound, Capability.Called;
    CalledIsCalledOnce(m.coarseCap, bus.coarse.Ok?);
    CalledIsCalledOnce(m.fanCap, bus.fan.Ok?);
  }

  /** The capability of a sensor's own command, and whether the bus answers it. */
  function CapabilityOf(m: Manager, s: Sensor): Capability {
    match s
    case Room => m.roomCap
    case Outdoor => m.outdoorCap
    case Humidity => m.humidityCap
  }

  predicate Answers(bus: Bus, s: Sensor) {
    match s
    case Room => bus.room.Ok?
    case Outdoor => bus.outdoor.Ok?
    case Humidity => bus.humidity.Ok?
  }

  /** The traffic of a sensor reading: one call of its own command, unless that is ruled out;
      the coarse command through its cache exactly when there was no answer; nothing else. */
  lemma SensorTraffic(m: Manager, now: int, bus: Bus, s: Sensor)
    requires CapabilitiesSound(m)
    ensures var v, cap := ReadSensor(m, now, bus, s), CapabilityOf(m, s);
            && CalledOnce(cap, CapabilityOf(v, s), Answers(bus, s))
            && v.(roomCap := m.roomCap, outdoorCap := m.outdoorCap, humidityCap := m.humidityCap) ==
               m.(coarse := v.coarse, coarseCap := v.coarseCap)
            && (forall o :: o != s ==> CapabilityOf(v, o) == CapabilityOf(m, o))
            && (if cap.status != Unsupported && Answers(bus, s)
                then v.coarse == m.coarse && v.coarseCap == m.coarseCap
                else FilledBy(m.coarse, v.coarse, now, m.maxAge, m.coarseCap, v.coarseCap, bus.coarse))
  {
    CalledIsCalledOnce(CapabilityOf(m, s), Answers(bus, s));
    FetchesFill(m, now, bus);
    hide CalledOnce, CapabilitySound, Capability.Called;
  }

  /** The traffic of the other reads: the unit state is asked every time; the fan command
      through its cache, for a fan reading always, for an operation reading exactly for a
      running unit on Auto. */
  lemma OtherTraffic(m: Manager, now: int, later: int, bus: Bus, op: Result<Command, Error>)
    requires CapabilitiesSound(m)
    requires ReadThrough(m.operation, now, m.maxAge, bus.operation, op)
    ensures var v := ReadUnitState(m, bus);
            CalledOnce(m.unitStateCap, v.unitStateCap, bus.unitState.Ok?) && v == m.(unitStateCap := v.unitStateCap)
    ensures var v := ReadFan(m, now, later, bus);
            && FilledBy(m.fan, v.fan, now, m.maxAge, m.fanCap, v.fanCap, bus.fan)
            && v == m.(fan := v.fan, fanCap := v.fanCap, operation := v.operation)
    ensures var v := ReadOperation(m, now, later, bus);
            && v == m.(fan := v.fan, fanCap := v.fanCap, operation := v.operation)
            && (if op.Ok? && op.value.onOff && op.value.fan == S21Fan.Auto
                then FilledBy(m.fan, v.fan, later, m.maxAge, m.fanCap, v.fanCap, bus.fan)
                else v.fan == m.fan && v.fanCap == m.fanCap)
  {
    CalledIsCalledOnce(m.unitStateCap, bus.unitState.Ok?);
    FetchesFill(m, now, bus);
    FetchesFill(FetchOperation(m, now, bus), later, bus);
    hide CalledOnce, CapabilitySound, Capability.Called, FilledBy, FetchFan;
  }

  // ----- What is in the cache -----

  /** The request read the operation from the device. */
  predicate Refreshed(w: World, h: Happening)
    requires h.Asked?
  {
    h.readable &&
    match h.request
    case GetOperation => !w.m.operation.Fresh(h.now, w.m.maxAge)
    case GetField => !w.m.operation.Fresh(h.now, w.m.maxAge)
    case GetFan => CachedFan(w.m, h.now, h.others).Err? && !w.m.operation.Fresh(h.later, w.m.maxAge)
    case SetFields(u) => !u.Whole? && !w.m.operation.Fresh(h.now, w.m.maxAge)
    case _ => false
  }

  /** The three ways the cached operation can come about. */
  lemma OperationAfter(w: World, h: Happening)
    requires h.Asked?
    ensures Happen(w, h).m.operation ==
            if Accepted(w, h) then Cache(Some(Sent(w, h).value), h.later)
            else if Refreshed(w, h) then Cache(Some(w.device), if h.request.GetFan? then h.later else h.now)
            else w.m.operation
    ensures Happen(w, h).m.maxAge == w.m.maxAge
  {
    hide Capability.Called, Capability.Answer, InRange;
    assert BusDuring(w, h).operation == ReadBus(w, h).operation && BusDuring(w, h).fan == h.others.fan;
  }

  /** The cached operation is the device's, up to the half-degree steps of the wire. */
  predicate CacheAgrees(w: World) {
    w.m.operation.value.Some? ==> Carried(w.m.operation.value.value) == w.device
  }

  /** What one happening does to the agreement, whether there was one before or not: an
      acknowledged setter and a read of the device establish it, a panel change and a
      setter whose acknowledgement is lost break it unless the cache is empty or they
      leave the device where the cache has it, and nothing else touches it. */
  lemma AgreementAfter(w: World, h: Happening)
    requires Carried(w.device) == w.device
    ensures CacheAgrees(Happen(w, h)) <==>
            match h
            case Panel(_, op) => w.m.operation.value.None? || Carried(w.m.operation.value.value) == Carried(op)
            case Asked(_, _, _, _, _, _) =>
              if Accepted(w, h) then true
              else if Taken(w, h) then
                if Refreshed(w, h) then Carried(Sent(w, h).value) == w.device
                else
                  || w.m.operation.value.None?
                  || Carried(w.m.operation.value.value) == Carried(Sent(w, h).value)
              else Refreshed(w, h) || CacheAgrees(w)
  {
    if h.Asked? {
      OperationAfter(w, h);
      hide Serve, Carried, Wanted, InRange, Refreshed;
    }
  }

  /** The device's operation with the requested field, or all of them, in its place. */
  function WithField(device: Command, u: Update): Command {
    match u
    case Power(on) => Command(on, device.mode, device.setpoint, device.fan)
    case Setpoint(v) => Command(device.onOff, device.mode, Quantised(v), device.fan)
    case Fan(fan) => Command(device.onOff, device.mode, device.setpoint, fan)
    case Whole(op) => Command(op.onOff, op.mode, Quantised(op.setpoint), op.fan)
  }

  /** A partial setter takes the other fields from the cache; sent over the wire, that is
      the operation the cache agrees with, with the one field in its place. */
  lemma SentIsWithField(w: World, h: Happening)
    requires Carried(w.device) == w.device && h.Asked? && Sent(w, h).Ok?
    ensures h.request.SetFields?
    ensures var base := if w.m.operation.Fresh(h.now, w.m.maxAge) then Carried(w.m.operation.value.value) else w.device;
            Carried(Sent(w, h).value) == WithField(base, h.request.update)
  {
  }

  /** From agreement, a setter that the device takes without an acknowledgement keeps it
      exactly when it changes nothing at the device, or nothing was cached and nothing had
      to be read. */
  lemma LostAckKeepsAgreementIff(w: World, h: Happening)
    requires Carried(w.device) == w.device && CacheAgrees(w)
    requires h.Asked? && Taken(w, h) && !Accepted(w, h)
    ensures Happen(w, h).device == WithField(w.device, h.request.update)
    ensures CacheAgrees(Happen(w, h)) <==>
            || Happen(w, h).device == w.device
            || (h.request.update.Whole? && w.m.operation.value.None?)
  {
    AgreementAfter(w, h);
    SentIsWithField(w, h);
  }

  /** And the next partial setter pays for it: served from the cache, it puts the device
      back to where it was before the unacknowledged change and edits that; only a cache
      miss makes it edit what the device really holds. */
  lemma NextSetterAfterLostAck(w: World, h: Happening, next: Happening)
    requires Carried(w.device) == w.device && CacheAgrees(w)
    requires h.Asked? && Taken(w, h) && !Accepted(w, h)
    requires next.Asked? && Taken(Happen(w, h), next) && !next.request.update.Whole?
    ensures var after := Happen(w, h);
            Happen(after, next).device ==
            WithField(if after.m.operation.Fresh(next.now, w.m.maxAge) then w.device else after.device,
                      next.request.update)
  {
    var after := Happen(w, h);
    OperationAfter(w, h);
    CarriedTwice(Sent(w, h).value);
    hide Serve, Quantised, Wanted, InRange, Refreshed, ReadBus;
    SentIsWithField(after, next);
    assert after.m.operation.value.Some? ==> Carried(after.m.operation.value.value) == w.device;
    hide Carried, WithField;
  }

  // ----- Undisturbed runs -----

  /** Nobody touches the panel, and no acknowledgement of a setter is lost. */
  predicate Undisturbed(hs: seq<Happening>) {
    forall i :: 0 <= i < |hs| ==> hs[i].Asked? && (hs[i].request.SetFields? ==> hs[i].delivery != Unacknowledged)
  }

  /** Then the cache agrees with the device in every run. */
  lemma {:induction false} CacheTransparent(maxAge: int, device: Command, hs: seq<Happening>)
    requires Undisturbed(hs)
    ensures CacheAgrees(Live(FirstContact(maxAge, device), hs))
  {
    if hs != [] {
      var prior := hs[..|hs| - 1];
      CacheTransparent(maxAge, device, prior);
      DeviceIsCarried(maxAge, device, prior);
      AgreementAfter(Live(FirstContact(maxAge, device), prior), hs[|hs| - 1]);
    }
  }

  /** The setpoint of the last accepted operation, for as long as the cache was not filled
      from the device since. */
  function LastAccepted(w: World, hs: seq<Happening>): Option<int16>
    requires Undisturbed(hs)
  {
    if hs == [] then None
    else
      var prior, h := hs[..|hs| - 1], hs[|hs| - 1];
      if Accepted(Live(w, prior), h) then Some(Sent(Live(w, prior), h).value.setpoint)
      else if Refreshed(Live(w, prior), h) then None
      else LastAccepted(w, prior)
  }

  lemma {:induction false} CacheHoldsLastAccepted(maxAge: int, device: Command, hs: seq<Happening>)
    requires Undisturbed(hs)
    ensures var w, last := Live(FirstContact(maxAge, device), hs), LastAccepted(FirstContact(maxAge, device), hs);
            w.m.operation.value.Some? ==>
              var cached := w.m.operation.value.value;
              if last.None? then cached == w.device else cached.setpoint == last.value && InRange(last.value)
  {
    if hs != [] {
      var prior := hs[..|hs| - 1];
      CacheHoldsLastAccepted(maxAge, device, prior);
      OperationAfter(Live(FirstContact(maxAge, device), prior), hs[|hs| - 1]);
      hide Serve, Carried, Wanted, InRange, Refreshed, OperationRead;
    }
  }

  /** So a getter that answers from the cache answers as a read of the device would: power,
      mode and fan always, and the setpoint exactly unless the cache still holds an
      accepted one that is off the half-degree grid. */
  lemma GettersTransparent(maxAge: int, device: Command, hs: seq<Happening>, h: Happening)
    requires Undisturbed(hs) && h.Asked?
    ensures var w, last := Live(FirstContact(maxAge, device), hs), LastAccepted(FirstContact(maxAge, device), hs);
            var read := CachedOperation(w.m, h.now, BusDuring(w, h));
            read.Ok? ==>
              && read.value.onOff == w.device.onOff
              && read.value.mode == w.device.mode
              && read.value.fan == w.device.fan
              && Quantised(read.value.setpoint) == w.device.setpoint
              && (read.value == w.device <==>
                    !w.m.operation.Fresh(h.now, w.m.maxAge) || last.None? || last.value % 50 == 0)
  {
    CacheTransparent(maxAge, device, hs);
    DeviceIsCarried(maxAge, device, hs);
    CacheHoldsLastAccepted(maxAge, device, hs);
    var w := Live(FirstContact(maxAge, device), hs);
    var read := CachedOperation(w.m, h.now, BusDuring(w, h));
    hide Live, LastAccepted;
    if read.Ok? {
      QuantisedSetpoint(read.value.setpoint);
      assert Carried(read.value) == w.device;
    }
  }

  /** The device as the successful setters alone would leave it, each editing its own
      field of the device's operation. */
  function Folded(w: World, hs: seq<Happening>): Command
    requires Undisturbed(hs)
  {
    if hs == [] then w.device
    else
      var prior, h := hs[..|hs| - 1], hs[|hs| - 1];
      if Accepted(Live(w, prior), h) then WithField(Folded(w, prior), h.request.update) else Folded(w, prior)
  }

  /** A partial setter sends the other fields from the cache; the device still ends up
      as if it had been given the one field. */
  lemma {:induction false} SettersActAsFieldUpdates(maxAge: int, device: Command, hs: seq<Happening>)
    requires Undisturbed(hs)
    ensures Live(FirstContact(maxAge, device), hs).device == Folded(FirstContact(maxAge, device), hs)
  {
    if hs != [] {
      var prior, h := hs[..|hs| - 1], hs[|hs| - 1];
      var w := Live(FirstContact(maxAge, device), prior);
      SettersActAsFieldUpdates(maxAge, device, prior);
      CacheTransparent(maxAge, device, prior);
      DeviceIsCarried(maxAge, device, prior);
      if Accepted(w, h) {
        SentIsWithField(w, h);
      }
    }
  }

  /** One accepted setter in an undisturbed run, field by field: the device does what was
      requested and keeps the rest, and the cache will say so. */
  lemma AcceptedSetterActs(maxAge: int, device: Command, hs: seq<Happening>, h: Happening)
    requires Undisturbed(hs) && h.Asked? && Accepted(Live(FirstContact(maxAge, device), hs), h)
    ensures var w := Live(FirstContact(maxAge, device), hs);
            var before, after := w.device, Happen(w, h).device;
            && (match h.request.update
                case Power(on) =>
                  && after.onOff == on
                  && after.mode == before.mode && after.setpoint == before.setpoint && after.fan == before.fan
                case Setpoint(v) =>
                  && after.setpoint == Quantised(v)
                  && after.onOff == before.onOff && after.mode == before.mode && after.fan == before.fan
                case Fan(fan) =>
                  && after.fan == fan
                  && after.onOff == before.onOff && after.mode == before.mode && after.setpoint == before.setpoint
                case Whole(op) =>
                  && after.onOff == op.onOff && after.mode == op.mode && after.fan == op.fan
                  && after.setpoint == Quantised(op.setpoint))
            && var cache := Happen(w, h).m.operation;
            && cache.value.Some? && cache.timestamp == h.later
            && cache.value.value.onOff == after.onOff && cache.value.value.mode == after.mode
            && cache.value.value.fan == after.fan && Quantised(cache.value.value.setpoint) == after.setpoint
  {
    var w := Live(FirstContact(maxAge, device), hs);
    CacheTransparent(maxAge, device, hs);
    DeviceIsCarried(maxAge, device, hs);
    SentIsWithField(w, h);
    OperationAfter(w, h);
  }

  /** A setter that succeeds leaves device and cache at the operation it sent, one that
      fails leaves the device alone unless only the acknowledgement was lost. */
  lemma SetterResult(w: World, h: Happening)
    requires h.Asked? && h.request.SetFields?
    ensures var v := Happen(w, h);
            match SetResult(w.m, h.now, BusDuring(w, h), h.request.update)
            case Ok(_) =>
              Sent(w, h).Ok? && v.device == Carried(Sent(w, h).value)
              && v.m.operation == Cache(Some(Sent(w, h).value), h.later)
            case Err(_) => v.device == w.device || h.delivery == Unacknowledged
  {
    OperationAfter(w, h);
    assert BusDuring(w, h).operation == ReadBus(w, h).operation;
  }

  // ----- Age under arbitrary disturbances -----

  /** The device was in this state at this time. */
  ghost predicate Was(history: seq<Snapshot>, time: int, device: Command) {
    exists i :: 0 <= i < |history| && history[i] == Snapshot(time, device)
  }

  ghost predicate CacheDated(w: World) {
    w.m.operation.value.Some? ==> Was(w.history, w.m.operation.timestamp, Carried(w.m.operation.value.value))
  }

  lemma WasStays(history: seq<Snapshot>, more: seq<Snapshot>, time: int, device: Command)
    requires Was(history, time, device)
    ensures Was(history + more, time, device)
  {
    var i :| 0 <= i < |history| && history[i] == Snapshot(time, device);
    assert (history + more)[i] == Snapshot(time, device);
  }

  lemma HappenKeepsDates(w: World, h: Happening)
    requires Carried(w.device) == w.device && CacheDated(w)
    ensures CacheDated(Happen(w, h))
  {
    var v, n := Happen(w, h), |w.history|;
    assert v.history == w.history + v.history[n..];
    if w.m.operation.value.Some? {
      WasStays(w.history, v.history[n..], w.m.operation.timestamp, Carried(w.m.operation.value.value));
    }
    if h.Asked? {
      OperationAfter(w, h);
      hide Serve, Carried, Wanted, InRange;
      assert v.history[n] == Snapshot(h.now, w.device) && v.history[n + 1] == Snapshot(h.later, v.device);
      assert Was(v.history, h.now, w.device) && Was(v.history, h.later, v.device);
      assert h.request.GetFan? ==> v.device == w.device;
    }
  }

  lemma {:induction false} CacheDatedInEveryRun(maxAge: int, device: Command, hs: seq<Happening>)
    ensures CacheDated(Live(FirstContact(maxAge, device), hs))
  {
    if hs != [] {
      CacheDatedInEveryRun(maxAge, device, hs[..|hs| - 1]);
      DeviceIsCarried(maxAge, device, hs[..|hs| - 1]);
      HappenKeepsDates(Live(FirstContact(maxAge, device), hs[..|hs| - 1]), hs[|hs| - 1]);
    }
  }

  /** Whatever happens at the panel and on the link, an operation returned at some time was
      the device's at most maxAge earlier. */
  lemma ReadIsRecent(maxAge: int, device: Command, hs: seq<Happening>, h: Happening)
    requires maxAge >= 0 && h.Asked?
    ensures var w := Live(FirstContact(maxAge, device), hs);
            var read := CachedOperation(w.m, h.now, BusDuring(w, h));
            read.Ok? ==> exists time :: h.now - time <= maxAge && Was(Happen(w, h).history, time, Carried(read.value))
  {
    CacheDatedInEveryRun(maxAge, device, hs);
    DeviceIsCarried(maxAge, device, hs);
    KeepsMaxAge(FirstContact(maxAge, device), hs);
    var w := Live(FirstContact(maxAge, device), hs);
    var read := CachedOperation(w.m, h.now, BusDuring(w, h));
    if read.Ok? {
      var n := |w.history|;
      assert Happen(w, h).history == w.history + Happen(w, h).history[n..];
      if w.m.operation.Fresh(h.now, w.m.maxAge) {
        WasStays(w.history, Happen(w, h).history[n..], w.m.operation.timestamp, Carried(read.value));
      } else {
        assert Happen(w, h).history[n] == Snapshot(h.now, w.device);
        assert Was(Happen(w, h).history, h.now, Carried(read.value));
      }
    }
  }

  lemma {:induction false} KeepsMaxAge(w: World, hs: seq<Happening>)
    ensures Live(w, hs).m.maxAge == w.m.maxAge
  {
    if hs != [] {
      KeepsMaxAge(w, hs[..|hs| - 1]);
    }
  }
}

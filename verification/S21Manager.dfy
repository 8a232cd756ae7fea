/** The orchestration layer above the S21 wire: per-command capability tracking, the
    read-through caches, and the getters and setters built on them. */
module S21Manager {
  import opened AcTypes
  import opened MachineInts
  import opened Options

  datatype Error = NotReady | UnsupportedCommand | BusFailure(code: int)

  // ----- Capability of one optional command -----

  datatype CommandStatus = Unknown | Supported | Unsupported

  const THRESHOLD: int := 3

  /** The last two fields are a ledger kept for the proof. */
  datatype Capability = Capability(status: CommandStatus, failureCount: int, busCalls: nat, successes: nat) {
    function Recorded(ok: bool): Capability {
      if ok then this.(status := Supported, failureCount := 0, successes := successes + 1)
      else if status == Supported then this
      else this.(failureCount := failureCount + 1,
                 status := if failureCount + 1 > THRESHOLD then Unsupported else status)
    }

    /** A call that goes to the bus unless the command is known not to work. */
    function Called(ok: bool): Capability {
      if status == Unsupported then this else this.(busCalls := busCalls + 1).Recorded(ok)
    }

    function Answer<T>(onBus: Result<T, Error>): Result<T, Error> {
      if status == Unsupported then Err(UnsupportedCommand) else onBus
    }
  }

  const UNTRIED := Capability(Unknown, 0, 0, 0)

  class CommandCapability {
    var status: CommandStatus
    var failureCount: int
    ghost var busCalls: nat
    ghost var successes: nat

    ghost function View(): Capability
      reads this
    {
      Capability(status, failureCount, busCalls, successes)
    }

    constructor ()
      ensures View() == UNTRIED
    {
      status, failureCount, busCalls, successes := Unknown, 0, 0, 0;
    }

    method RecordSuccess()
      modifies this
      ensures View() == old(View()).Recorded(true)
    {
      status := Supported;
      failureCount := 0;
      successes := successes + 1;
    }

    method RecordFailure()
      modifies this
      ensures View() == old(View()).Recorded(false)
    {
      if status == Supported {
        return;
      }
      failureCount := failureCount + 1;
      if failureCount > THRESHOLD {
        status := Unsupported;
      }
    }

    /** onBus is what the bus answers if it is asked. */
    method CallWithTracking<T>(onBus: Result<T, Error>) returns (r: Result<T, Error>)
      modifies this
      ensures View() == old(View()).Called(onBus.Ok?)
      ensures r == old(View()).Answer(onBus)
    {
      if status == Unsupported {
        return Err(UnsupportedCommand);
      }
      busCalls := busCalls + 1;
      if onBus.Ok? {
        RecordSuccess();
      } else {
        RecordFailure();
      }
      return onBus;
    }
  }

  // ----- Read-through cache -----

  datatype Cache<T> = Cache(value: Option<T>, timestamp: int) {
    predicate Fresh(now: int, maxAge: int) {
      value.Some? && now - timestamp <= maxAge
    }

    function Filled(now: int, fetched: Result<T, Error>): Cache<T> {
      match fetched
      case Ok(v) => Cache(Some(v), now)
      case Err(_) => this
    }
  }

  class ReadThroughCache<T> {
    const maxAge: int
    var value: Option<T>
    var timestamp: int

    function View(): Cache<T>
      reads this
    {
      Cache(value, timestamp)
    }

    constructor (maxAge: int)
      ensures View() == Cache(None, 0) && this.maxAge == maxAge
    {
      this.maxAge := maxAge;
      value, timestamp := None, 0;
    }

    method Lookup(now: int) returns (hit: Option<T>)
      ensures hit == if View().Fresh(now, maxAge) then View().value else None
    {
      hit := if value.Some? && now - timestamp <= maxAge then value else None;
    }

    method Fill(now: int, fetched: Result<T, Error>)
      modifies this
      ensures View() == old(View()).Filled(now, fetched)
    {
      if fetched.Ok? {
        value := Some(fetched.value);
        timestamp := now;
      }
    }

    method Update(now: int, v: T)
      modifies this
      ensures View() == Cache(Some(v), now)
    {
      value := Some(v);
      timestamp := now;
    }
  }

  // ----- The manager -----

  datatype Coarse = Coarse(indoor: int16, outdoor: int16, humidity: byte)

  datatype UnitState = UnitState(powerful: bool, defrost: bool, refrigerantValveOpen: bool, online: bool)

  /** What the bus would answer to each command during one call. */
  datatype Bus = Bus(
    operation: Result<Command, Error>,
    accept: Result<(), Error>,
    fan: Result<S21Fan, Error>,
    coarse: Result<Coarse, Error>,
    room: Result<int16, Error>,
    outdoor: Result<int16, Error>,
    humidity: Result<byte, Error>,
    unitState: Result<UnitState, Error>)

  datatype Manager = Manager(
    maxAge: int,
    operation: Cache<Command>,
    coarse: Cache<Coarse>,
    fan: Cache<S21Fan>,
    coarseCap: Capability,
    fanCap: Capability,
    roomCap: Capability,
    outdoorCap: Capability,
    humidityCap: Capability,
    unitStateCap: Capability)

  function NewManager(maxAge: int): Manager {
    Manager(maxAge, Cache(None, 0), Cache(None, 0), Cache(None, 0),
            UNTRIED, UNTRIED, UNTRIED, UNTRIED, UNTRIED, UNTRIED)
  }

  function CachedOperation(m: Manager, now: int, bus: Bus): Result<Command, Error> {
    if m.operation.Fresh(now, m.maxAge) then Ok(m.operation.value.value) else bus.operation
  }

  function FetchOperation(m: Manager, now: int, bus: Bus): Manager {
    if m.operation.Fresh(now, m.maxAge) then m
    else m.(operation := m.operation.Filled(now, bus.operation))
  }

  function CachedFan(m: Manager, now: int, bus: Bus): Result<S21Fan, Error> {
    if m.fan.Fresh(now, m.maxAge) then Ok(m.fan.value.value) else m.fanCap.Answer(bus.fan)
  }

  function FetchFan(m: Manager, now: int, bus: Bus): Manager {
    if m.fan.Fresh(now, m.maxAge) then m
    else m.(fan := m.fan.Filled(now, m.fanCap.Answer(bus.fan)), fanCap := m.fanCap.Called(bus.fan.Ok?))
  }

  function CachedCoarse(m: Manager, now: int, bus: Bus): Result<Coarse, Error> {
    if m.coarse.Fresh(now, m.maxAge) then Ok(m.coarse.value.value) else m.coarseCap.Answer(bus.coarse)
  }

  function FetchCoarse(m: Manager, now: int, bus: Bus): Manager {
    if m.coarse.Fresh(now, m.maxAge) then m
    else m.(coarse := m.coarse.Filled(now, m.coarseCap.Answer(bus.coarse)),
            coarseCap := m.coarseCap.Called(bus.coarse.Ok?))
  }

  /** The full reading; a running unit that says Auto is cross-checked for Quiet. The clock
      is read again for the second cache, as the first may have had to ask the bus. */
  function OperationRead(m: Manager, now: int, later: int, bus: Bus): Result<Command, Error> {
    var op := CachedOperation(m, now, bus);
    if op.Ok? && op.value.onOff && op.value.fan == S21Fan.Auto then
      var fan := CachedFan(m, later, bus);
      if fan.Ok? then Ok(op.value.(fan := fan.value)) else op
    else op
  }

  function ReadOperation(m: Manager, now: int, later: int, bus: Bus): Manager {
    var op := CachedOperation(m, now, bus);
    var fetched := FetchOperation(m, now, bus);
    if op.Ok? && op.value.onOff && op.value.fan == S21Fan.Auto then FetchFan(fetched, later, bus) else fetched
  }

  function ReadFan(m: Manager, now: int, later: int, bus: Bus): Manager {
    var fetched := FetchFan(m, now, bus);
    if CachedFan(m, now, bus).Ok? then fetched else FetchOperation(fetched, later, bus)
  }

  function FanRead(m: Manager, now: int, later: int, bus: Bus): Result<S21Fan, Error> {
    var fan := CachedFan(m, now, bus);
    if fan.Ok? then fan
    else match CachedOperation(m, later, bus)
      case Ok(op) => Ok(op.fan)
      case Err(e) => Err(e)
  }

  /** The precise answer, or the field of the coarse reading that stands in for it. */
  function OrCoarse<T>(precise: Result<T, Error>, coarse: Result<Coarse, Error>, pick: Coarse -> T): Result<T, Error> {
    if precise.Ok? then precise
    else match coarse
      case Ok(c) => Ok(pick(c))
      case Err(e) => Err(e)
  }

  /** A precise sensor, or the coarse reading when it does not answer. */
  datatype Sensor = Room | Outdoor | Humidity

  function ReadSensor(m: Manager, now: int, bus: Bus, s: Sensor): Manager {
    match s
    case Room =>
      var called := m.(roomCap := m.roomCap.Called(bus.room.Ok?));
      if m.roomCap.Answer(bus.room).Ok? then called else FetchCoarse(called, now, bus)
    case Outdoor =>
      var called := m.(outdoorCap := m.outdoorCap.Called(bus.outdoor.Ok?));
      if m.outdoorCap.Answer(bus.outdoor).Ok? then called else FetchCoarse(called, now, bus)
    case Humidity =>
      var called := m.(humidityCap := m.humidityCap.Called(bus.humidity.Ok?));
      if m.humidityCap.Answer(bus.humidity).Ok? then called else FetchCoarse(called, now, bus)
  }

  function ReadUnitState(m: Manager, bus: Bus): Manager {
    m.(unitStateCap := m.unitStateCap.Called(bus.unitState.Ok?))
  }

  /** One field of an operation, or all of them. */
  datatype Update = Power(on: bool) | Setpoint(value: int16) | Fan(fan: S21Fan) | Whole(op: Command)

  function Edited(op: Command, u: Update): Command {
    match u
    case Power(on) => op.(onOff := on)
    case Setpoint(v) => op.(setpoint := v)
    case Fan(f) => op.(fan := f)
    case Whole(w) => w
  }

  /** The operation a setter sends: a partial setter starts from the cached one. */
  function Wanted(m: Manager, now: int, bus: Bus, u: Update): Result<Command, Error> {
    if u.Whole? then Ok(u.op)
    else match CachedOperation(m, now, bus)
      case Ok(op) => Ok(Edited(op, u))
      case Err(e) => Err(e)
  }

  function Prepared(m: Manager, now: int, bus: Bus, u: Update): Manager {
    if u.Whole? then m else FetchOperation(m, now, bus)
  }

  /** doneAt is the time after the device answered. */
  function Set(m: Manager, now: int, doneAt: int, bus: Bus, u: Update): Manager {
    var wanted := Wanted(m, now, bus, u);
    var prepared := Prepared(m, now, bus, u);
    if wanted.Ok? && bus.accept.Ok? then prepared.(operation := Cache(Some(wanted.value), doneAt)) else prepared
  }

  function SetResult(m: Manager, now: int, bus: Bus, u: Update): Result<(), Error> {
    match Wanted(m, now, bus, u)
    case Err(e) => Err(e)
    case Ok(_) => bus.accept
  }

  class Orchestrator {
    const operation: ReadThroughCache<Command>
    const coarse: ReadThroughCache<Coarse>
    const fan: ReadThroughCache<S21Fan>
    const coarseCap: CommandCapability
    const fanCap: CommandCapability
    const roomCap: CommandCapability
    const outdoorCap: CommandCapability
    const humidityCap: CommandCapability
    const unitStateCap: CommandCapability
    const maxAge: int
    var isReady: bool
    var protocolMajor: byte

    ghost predicate Valid() {
      && operation.maxAge == coarse.maxAge == fan.maxAge == maxAge
      && coarseCap != fanCap && coarseCap != roomCap && coarseCap != outdoorCap && coarseCap != humidityCap
      && coarseCap != unitStateCap && fanCap != roomCap && fanCap != outdoorCap && fanCap != humidityCap
      && fanCap != unitStateCap && roomCap != outdoorCap && roomCap != humidityCap && roomCap != unitStateCap
      && outdoorCap != humidityCap && outdoorCap != unitStateCap && humidityCap != unitStateCap
    }

    ghost function View(): Manager
      reads operation, coarse, fan, coarseCap, fanCap, roomCap, outdoorCap, humidityCap, unitStateCap
    {
      Manager(maxAge, operation.View(), coarse.View(), fan.View(), coarseCap.View(), fanCap.View(), roomCap.View(),
              outdoorCap.View(), humidityCap.View(), unitStateCap.View())
    }

    constructor (maxAge: int)
      ensures Valid() && !isReady && protocolMajor == 0 && View() == NewManager(maxAge)
    {
      operation := new ReadThroughCache(maxAge);
      coarse := new ReadThroughCache(maxAge);
      fan := new ReadThroughCache(maxAge);
      coarseCap := new CommandCapability();
      fanCap := new CommandCapability();
      roomCap := new CommandCapability();
      outdoorCap := new CommandCapability();
      humidityCap := new CommandCapability();
      unitStateCap := new CommandCapability();
      this.maxAge := maxAge;
      isReady, protocolMajor := false, 0;
    }

    /** Ready once the unit has answered the protocol version query; a unit of major version
        2 or more may name another major version in an extended query. */
    method Init(version: Result<byte, Error>, extended: Result<byte, Error>) returns (ok: bool)
      modifies this
      ensures isReady == ok == (old(isReady) || version.Ok?)
      ensures protocolMajor ==
              if old(isReady) || version.Err? then old(protocolMajor)
              else if version.value >= 2 && extended.Ok? then extended.value
              else version.value
    {
      if isReady {
        return true;
      }
      if version.Err? {
        return false;
      }
      protocolMajor := version.value;
      if protocolMajor >= 2 && extended.Ok? {
        protocolMajor := extended.value;
      }
      isReady := true;
      return true;
    }

    method GetCachedOperation(now: int, bus: Bus) returns (r: Result<Command, Error>)
      requires Valid()
      modifies operation
      ensures View() == FetchOperation(old(View()), now, bus)
      ensures r == CachedOperation(old(View()), now, bus)
    {
      var hit := operation.Lookup(now);
      if hit.Some? {
        return Ok(hit.value);
      }
      operation.Fill(now, bus.operation);
      return bus.operation;
    }

    method GetCachedFan(now: int, bus: Bus) returns (r: Result<S21Fan, Error>)
      requires Valid()
      modifies fan, fanCap
      ensures View() == FetchFan(old(View()), now, bus)
      ensures r == CachedFan(old(View()), now, bus)
    {
      var hit := fan.Lookup(now);
      if hit.Some? {
        return Ok(hit.value);
      }
      r := fanCap.CallWithTracking(bus.fan);
      fan.Fill(now, r);
    }

    method GetCachedCoarse(now: int, bus: Bus) returns (r: Result<Coarse, Error>)
      requires Valid()
      modifies coarse, coarseCap
      ensures View() == FetchCoarse(old(View()), now, bus)
      ensures r == CachedCoarse(old(View()), now, bus)
    {
      var hit := coarse.Lookup(now);
      if hit.Some? {
        return Ok(hit.value);
      }
      r := coarseCap.CallWithTracking(bus.coarse);
      coarse.Fill(now, r);
    }

    method GetOperation(now: int, later: int, bus: Bus) returns (r: Result<Command, Error>)
      requires Valid()
      modifies operation, fan, fanCap
      ensures !isReady ==> r == Err(NotReady) && View() == old(View())
      ensures isReady ==> r == OperationRead(old(View()), now, later, bus)
      ensures isReady ==> View() == ReadOperation(old(View()), now, later, bus)
    {
      if !isReady {
        return Err(NotReady);
      }
      r := GetCachedOperation(now, bus);
      if r.Ok? && r.value.onOff && r.value.fan == S21Fan.Auto {
        var checked := GetCachedFan(later, bus);
        if checked.Ok? {
          r := Ok(r.value.(fan := checked.value));
        }
      }
    }

    method GetOnOff(now: int, bus: Bus) returns (r: Result<bool, Error>)
      requires Valid()
      modifies operation
      ensures !isReady ==> r == Err(NotReady) && View() == old(View())
      ensures isReady ==> View() == FetchOperation(old(View()), now, bus)
      ensures isReady ==> match CachedOperation(old(View()), now, bus)
                          case Ok(op) => r == Ok(op.onOff) case Err(e) => r == Err(e)
    {
      if !isReady {
        return Err(NotReady);
      }
      var op := GetCachedOperation(now, bus);
      return match op { case Ok(v) => Ok(v.onOff) case Err(e) => Err(e) };
    }

    method GetFanMode(now: int, later: int, bus: Bus) returns (r: Result<S21Fan, Error>)
      requires Valid()
      modifies operation, fan, fanCap
      ensures !isReady ==> r == Err(NotReady) && View() == old(View())
      ensures isReady ==> View() == ReadFan(old(View()), now, later, bus) && r == FanRead(old(View()), now, later, bus)
    {
      if !isReady {
        return Err(NotReady);
      }
      r := GetCachedFan(now, bus);
      if r.Err? {
        var op := GetCachedOperation(later, bus);
        r := match op { case Ok(v) => Ok(v.fan) case Err(e) => Err(e) };
      }
    }

    method GetRoomTemperature(now: int, bus: Bus) returns (r: Result<int16, Error>)
      requires Valid()
      modifies roomCap, coarse, coarseCap
      ensures !isReady ==> r == Err(NotReady) && View() == old(View())
      ensures isReady ==> View() == ReadSensor(old(View()), now, bus, Room)
      ensures isReady ==>
                r == OrCoarse(old(View()).roomCap.Answer(bus.room), CachedCoarse(old(View()), now, bus),
                              (c: Coarse) => c.indoor)
    {
      if !isReady {
        return Err(NotReady);
      }
      r := roomCap.CallWithTracking(bus.room);
      if r.Err? {
        var c := GetCachedCoarse(now, bus);
        r := match c { case Ok(v) => Ok(v.indoor) case Err(e) => Err(e) };
      }
    }

    method GetOutdoorTemperature(now: int, bus: Bus) returns (r: Result<int16, Error>)
      requires Valid()
      modifies outdoorCap, coarse, coarseCap
      ensures !isReady ==> r == Err(NotReady) && View() == old(View())
      ensures isReady ==> View() == ReadSensor(old(View()), now, bus, Outdoor)
      ensures isReady ==>
                r == OrCoarse(old(View()).outdoorCap.Answer(bus.outdoor), CachedCoarse(old(View()), now, bus),
                              (c: Coarse) => c.outdoor)
    {
      if !isReady {
        return Err(NotReady);
      }
      r := outdoorCap.CallWithTracking(bus.outdoor);
      if r.Err? {
        var c := GetCachedCoarse(now, bus);
        r := match c { case Ok(v) => Ok(v.outdoor) case Err(e) => Err(e) };
      }
    }

    method GetHumidity(now: int, bus: Bus) returns (r: Result<byte, Error>)
      requires Valid()
      modifies humidityCap, coarse, coarseCap
      ensures !isReady ==> r == Err(NotReady) && View() == old(View())
      ensures isReady ==> View() == ReadSensor(old(View()), now, bus, Humidity)
      ensures isReady ==>
                r == OrCoarse(old(View()).humidityCap.Answer(bus.humidity), CachedCoarse(old(View()), now, bus),
                              (c: Coarse) => c.humidity)
    {
      if !isReady {
        return Err(NotReady);
      }
      r := humidityCap.CallWithTracking(bus.humidity);
      if r.Err? {
        var c := GetCachedCoarse(now, bus);
        r := match c { case Ok(v) => Ok(v.humidity) case Err(e) => Err(e) };
      }
    }

    method GetUnitState(bus: Bus) returns (r: Result<UnitState, Error>)
      requires Valid()
      modifies unitStateCap
      ensures !isReady ==> r == Err(NotReady) && View() == old(View())
      ensures isReady ==> View() == ReadUnitState(old(View()), bus)
      ensures isReady ==> r == old(View()).unitStateCap.Answer(bus.unitState)
    {
      if !isReady {
        return Err(NotReady);
      }
      r := unitStateCap.CallWithTracking(bus.unitState);
    }

    /** All four setters; a partial one reads the cached operation first. */
    method SetFields(now: int, doneAt: int, bus: Bus, u: Update) returns (r: Result<(), Error>)
      requires Valid()
      modifies operation
      ensures !isReady ==> r == Err(NotReady) && View() == old(View())
      ensures isReady ==> View() == Set(old(View()), now, doneAt, bus, u) && r == SetResult(old(View()), now, bus, u)
    {
      if !isReady {
        return Err(NotReady);
      }
      var wanted;
      if u.Whole? {
        wanted := u.op;
      } else {
        var op := GetCachedOperation(now, bus);
        if op.Err? {
          return Err(op.error);
        }
        wanted := Edited(op.value, u);
      }
      if bus.accept.Err? {
        return bus.accept;
      }
      operation.Update(doneAt, wanted);
      return bus.accept;
    }
  }
}

/** The UART transaction machine: the starting call, the interrupt routine and the
    completion on the work queue, with the hardware as an adversary. */
module S21DataLinkUart {
  import opened MachineInts
  import opened Options
  import opened S21Frame

  datatype IsrState = Idle | WaitingRx | TimedOut | SendingAck

  datatype OpType = NoOp | Send | Transact

  datatype RxStatus = RxOk | UartError | Timeout

  datatype RxResult = RxResult(data: seq<byte>, status: RxStatus)

  datatype LinkError =
    | Busy
    | TimedOutError
    | UartErrorSeen
    | NoResponse
    | NakReceived
    | UnexpectedResponse
    | BadFrame(error: FrameError)

  /** What a caller's callback is given. */
  datatype Outcome = Acknowledged | Received(payload: seq<byte>) | Failed(error: LinkError)

  /** The event registers the interrupt routine looks at. */
  datatype Events = Events(frameTimeout: bool, endRx: bool, error: bool, endTx: bool, compare0: bool, nakMatch: bool)
  {
    /** The hardware may raise any of them at any time. */
    function Raise(e: Events): Events {
      Events(frameTimeout || e.frameTimeout, endRx || e.endRx, error || e.error, endTx || e.endTx,
             compare0 || e.compare0, nakMatch || e.nakMatch)
    }
  }

  const NO_EVENTS := Events(false, false, false, false, false, false)

  /** Kept for the proof: how many calls were made and what their callbacks were given,
      what was transmitted, the queue puts and work submissions of the current
      transaction, and how often the queue overflowed or was found empty. */
  datatype Ledger = Ledger(
    calls: nat,
    outcomes: seq<Outcome>,
    sent: seq<seq<byte>>,
    puts: nat,
    submits: nat,
    overflows: nat,
    underruns: nat)
  {
    function Answered(o: Outcome): Ledger {
      this.(outcomes := outcomes + [o])
    }
  }

  datatype Link = Link(
    isr: IsrState,
    op: OpType,
    queue: seq<RxResult>,
    workPending: bool,
    channelA: bool,
    events: Events,
    rxBuf: seq<byte>,
    txBuf: seq<byte>,
    stops: set<byte>,
    ledger: Ledger)

  function Startup(): Link {
    Link(Idle, NoOp, [], false, true, NO_EVENTS, [], [], {}, Ledger(0, [], [], 0, 0, 0, 0))
  }

  function Fit(bytes: seq<byte>): seq<byte> {
    if |bytes| <= RX_BUFFER then bytes else bytes[..RX_BUFFER]
  }

  /** The bytes at which the hardware stops receiving. */
  function StopsFor(op: OpType): set<byte> {
    match op
    case Transact => {ETX, NAK}
    case Send => {ACK, NAK}
    case NoOp => {}
  }

  /** The transmitter sends what the buffer holds when it is started. */
  function Transmit(u: Link, bytes: seq<byte>): Link {
    u.(txBuf := bytes, ledger := u.ledger.(sent := u.ledger.sent + [bytes]))
  }

  function Call(u: Link, op: OpType, payload: seq<byte>): Link {
    if u.op != NoOp then
      u.(ledger := u.ledger.(calls := u.ledger.calls + 1).Answered(Failed(Busy)))
    else
      Transmit(
        u.(op := op, isr := WaitingRx, queue := [], events := NO_EVENTS, stops := StopsFor(op),
           ledger := u.ledger.(calls := u.ledger.calls + 1, puts := 0, submits := 0)),
        Fit(Framed(payload)))
  }

  function Hardware(u: Link, raised: Events, rx: seq<byte>): Link {
    u.(events := u.events.Raise(raised), rxBuf := Fit(rx))
  }

  /** A put into the one-place queue never waits: a full queue loses the message. */
  function Put(u: Link, r: RxResult): Link {
    if u.queue == [] then u.(queue := [r], ledger := u.ledger.(puts := u.ledger.puts + 1))
    else u.(ledger := u.ledger.(puts := u.ledger.puts + 1, overflows := u.ledger.overflows + 1))
  }

  function Submit(u: Link): Link {
    u.(workPending := true, ledger := u.ledger.(submits := u.ledger.submits + 1))
  }

  function OnFrameTimeout(u: Link): Link {
    if !u.events.frameTimeout then u
    else
      var cleared := u.(events := u.events.(frameTimeout := false));
      if u.isr == WaitingRx then cleared.(isr := TimedOut) else cleared
  }

  /** A transact answered in time and not by a NAK is acknowledged before completion. */
  predicate NeedsAck(u: Link) {
    u.op == Transact && !u.events.compare0 && !u.events.nakMatch
  }

  function DeliverTimeout(u: Link): Link {
    Submit(Put(u, RxResult(u.rxBuf, Timeout)).(isr := Idle))
  }

  /** The result is queued first; a transact then sends its ACK with ENDTX unhooked from
      STARTRX, anything else is complete. */
  function DeliverReply(u: Link): Link {
    var got := Put(u, RxResult(u.rxBuf, if u.events.compare0 then Timeout else RxOk));
    if NeedsAck(u) then
      Transmit(got.(channelA := false, events := u.events.(endTx := false), isr := SendingAck), [ACK])
    else
      Submit(got.(events := u.events.(compare0 := false), isr := Idle))
  }

  function OnEndRx(u: Link): Link {
    if !u.events.endRx then u
    else
      var cleared := u.(events := u.events.(endRx := false));
      match u.isr
      case TimedOut => DeliverTimeout(cleared)
      case WaitingRx => DeliverReply(cleared)
      case _ => cleared
  }

  function OnError(u: Link): Link {
    if !u.events.error then u
    else
      var cleared := u.(events := u.events.(error := false));
      if u.isr == WaitingRx then Submit(Put(cleared, RxResult([], UartError)).(isr := Idle)) else cleared
  }

  function OnEndTx(u: Link): Link {
    if !u.events.endTx then u
    else
      var cleared := u.(events := u.events.(endTx := false));
      if u.isr == SendingAck then Submit(cleared.(channelA := true, isr := Idle)) else cleared
  }

  /** One interrupt, the handlers in their fixed order. */
  function Interrupt(u: Link): Link {
    OnEndTx(OnError(OnEndRx(OnFrameTimeout(u))))
  }

  function ResultError(r: RxResult): Option<LinkError> {
    match r.status
    case Timeout => Some(TimedOutError)
    case UartError => Some(UartErrorSeen)
    case RxOk =>
      if r.data == [] then Some(NoResponse)
      else if r.data[0] == NAK then Some(NakReceived)
      else None
  }

  function SendOutcome(r: RxResult): Outcome {
    match ResultError(r)
    case Some(e) => Failed(e)
    case None => if r.data[0] == ACK then Acknowledged else Failed(UnexpectedResponse)
  }

  function TransactOutcome(r: RxResult): Outcome {
    match ResultError(r)
    case Some(e) => Failed(e)
    case None =>
      match Answer(r.data) {
        case Ok(payload) => Received(payload)
        case Err(e) => Failed(BadFrame(e))
      }
  }

  /** The completion runs when submitted: it takes the result, releases the lock and
      fires the callback of the operation that held it. */
  function Complete(u: Link): Link {
    if !u.workPending then u
    else
      var empty := u.queue == [];
      var r := if empty then RxResult([], UartError) else u.queue[0];
      var released := u.(
        workPending := false, op := NoOp, stops := {},
        queue := if empty then [] else u.queue[1..],
        ledger := if empty then u.ledger.(underruns := u.ledger.underruns + 1) else u.ledger);
      match u.op
      case Send => released.(ledger := released.ledger.Answered(SendOutcome(r)))
      case Transact => released.(ledger := released.ledger.Answered(TransactOutcome(r)))
      case NoOp => released
  }

  datatype LinkStep =
    | CallSend(payload: seq<byte>)
    | CallTransact(payload: seq<byte>)
    | HardwareStep(raised: Events, rx: seq<byte>)
    | InterruptStep
    | CompletionStep

  function Step(u: Link, s: LinkStep): Link {
    match s
    case CallSend(payload) => Call(u, Send, payload)
    case CallTransact(payload) => Call(u, Transact, payload)
    case HardwareStep(raised, rx) => Hardware(u, raised, rx)
    case InterruptStep => Interrupt(u)
    case CompletionStep => Complete(u)
  }

  function Run(u: Link, ss: seq<LinkStep>): Link {
    if ss == [] then u else Step(Run(u, ss[..|ss| - 1]), ss[|ss| - 1])
  }

  // ----- The driver -----

  class UartDriver {
    var isr: IsrState
    var op: OpType
    var queue: seq<RxResult>
    var workPending: bool
    var channelA: bool
    var events: Events
    var rxBuf: seq<byte>
    var txBuf: seq<byte>
    var stops: set<byte>
    ghost var ledger: Ledger

    ghost function View(): Link
      reads this
    {
      Link(isr, op, queue, workPending, channelA, events, rxBuf, txBuf, stops, ledger)
    }

    constructor ()
      ensures View() == Startup()
    {
      isr, op, queue, workPending, channelA := Idle, NoOp, [], false, true;
      events, rxBuf, txBuf, stops := NO_EVENTS, [], [], {};
      ledger := Ledger(0, [], [], 0, 0, 0, 0);
    }

    /** Returns the outcome when the callback fires at once, which only the busy error does. */
    method Start(wanted: OpType, payload: seq<byte>) returns (now: Option<Outcome>)
      requires wanted != NoOp
      modifies this
      ensures View() == Call(old(View()), wanted, payload)
      ensures ledger.outcomes == old(ledger.outcomes) + (if now.Some? then [now.value] else [])
    {
      hide Framed;
      ledger := ledger.(calls := ledger.calls + 1);
      if op != NoOp {
        ledger := ledger.Answered(Failed(Busy));
        return Some(Failed(Busy));
      }
      op := wanted;
      var encoded := Encode(payload);
      stops := if wanted == Transact then {ETX, NAK} else {ACK, NAK};
      txBuf := if |encoded| <= RX_BUFFER then encoded else encoded[..RX_BUFFER];
      events := NO_EVENTS;
      queue := [];
      isr := WaitingRx;
      ledger := ledger.(puts := 0, submits := 0, sent := ledger.sent + [txBuf]);
      return None;
    }

    method PutResult(r: RxResult)
      modifies this
      ensures View() == Put(old(View()), r)
    {
      ledger := ledger.(puts := ledger.puts + 1);
      if queue == [] {
        queue := [r];
      } else {
        ledger := ledger.(overflows := ledger.overflows + 1);
      }
    }

    method SubmitCompletion()
      modifies this
      ensures View() == Submit(old(View()))
    {
      workPending := true;
      ledger := ledger.(submits := ledger.submits + 1);
    }

    method HandleInterrupt()
      modifies this
      ensures View() == Interrupt(old(View()))
    {
      if events.frameTimeout {
        events := events.(frameTimeout := false);
        if isr == WaitingRx {
          isr := TimedOut;
        }
      }
      HandleEndRx();
      HandleError();
      HandleEndTx();
    }

    method HandleError()
      modifies this
      ensures View() == OnError(old(View()))
    {
      if events.error {
        events := events.(error := false);
        if isr == WaitingRx {
          PutResult(RxResult([], UartError));
          isr := Idle;
          SubmitCompletion();
        }
      }
    }

    method HandleEndTx()
      modifies this
      ensures View() == OnEndTx(old(View()))
    {
      if events.endTx {
        events := events.(endTx := false);
        if isr == SendingAck {
          channelA := true;
          isr := Idle;
          SubmitCompletion();
        }
      }
    }

    method HandleEndRx()
      modifies this
      ensures View() == OnEndRx(old(View()))
    {
      if !events.endRx {
        return;
      }
      events := events.(endRx := false);
      if isr == TimedOut {
        PutResult(RxResult(rxBuf, Timeout));
        isr := Idle;
        SubmitCompletion();
      } else if isr == WaitingRx {
        HandleReply();
      }
    }

    method HandleReply()
      modifies this
      ensures View() == DeliverReply(old(View()))
    {
      var timeout := events.compare0;
      var needsAck := !timeout && !events.nakMatch && op == Transact;
      PutResult(RxResult(rxBuf, if timeout then Timeout else RxOk));
      if timeout {
        events := events.(compare0 := false);
      }
      if needsAck {
        SendAck();
      } else {
        isr := Idle;
        SubmitCompletion();
      }
    }

    /** Channel A is off so that the end of the ACK does not start another reception. */
    method SendAck()
      modifies this
      ensures View() == Transmit(
                old(View()).(channelA := false, events := old(events).(endTx := false), isr := SendingAck), [ACK])
    {
      channelA := false;
      events := events.(endTx := false);
      txBuf := [ACK];
      ledger := ledger.(sent := ledger.sent + [txBuf]);
      isr := SendingAck;
    }

    method RunCompletion()
      modifies this
      ensures View() == Complete(old(View()))
    {
      if !workPending {
        return;
      }
      workPending := false;
      var result;
      if queue == [] {
        ledger := ledger.(underruns := ledger.underruns + 1);
        result := RxResult([], UartError);
      } else {
        result := queue[0];
        queue := queue[1..];
      }
      stops := {};
      var held := op;
      op := NoOp;
      match held {
        case Send => ledger := ledger.Answered(SendOutcome(result));
        case Transact => ledger := ledger.Answered(TransactOutcome(result));
        case NoOp =>
      }
    }
  }

  // ----- Exactly once -----

  /** Where a transaction can stand. */
  predicate Consistent(u: Link) {
    match u.isr
    case Idle =>
      if u.op == NoOp then u.queue == [] && !u.workPending && u.ledger.puts == u.ledger.submits <= 1
      else |u.queue| == 1 && u.workPending && u.ledger.puts == 1 && u.ledger.submits == 1
    case SendingAck =>
      u.op == Transact && |u.queue| == 1 && !u.workPending && u.ledger.puts == 1 && u.ledger.submits == 0
    case _ => u.op != NoOp && u.queue == [] && !u.workPending && u.ledger.puts == 0 && u.ledger.submits == 0
  }

  /** At most one put and one submission a transaction, no message lost, no completion
      without a result, ENDTX unhooked from STARTRX just while the ACK goes out, and
      every call answered or still holding the lock; the stop bytes are those of the
      operation that holds it, none without one, and the receive buffer never overflows. */
  predicate ExactlyOnce(u: Link) {
    && Consistent(u)
    && u.ledger.puts <= 1 && u.ledger.submits <= 1
    && u.ledger.overflows == 0 && u.ledger.underruns == 0
    && (u.channelA <==> u.isr != SendingAck)
    && u.ledger.calls == |u.ledger.outcomes| + (if u.op == NoOp then 0 else 1)
    && u.stops == StopsFor(u.op) && |u.rxBuf| <= RX_BUFFER
  }

  /** Each handler keeps it, so any subset of events may be up in one interrupt. */
  lemma HandlersKeep(u: Link)
    requires ExactlyOnce(u)
    ensures ExactlyOnce(OnFrameTimeout(u)) && ExactlyOnce(OnEndRx(u))
    ensures ExactlyOnce(OnError(u)) && ExactlyOnce(OnEndTx(u))
  {
  }

  lemma InterruptKeeps(u: Link)
    requires ExactlyOnce(u)
    ensures ExactlyOnce(Interrupt(u))
  {
    hide OnFrameTimeout, OnEndRx, OnError, OnEndTx, ExactlyOnce;
    HandlersKeep(u);
    HandlersKeep(OnFrameTimeout(u));
    HandlersKeep(OnEndRx(OnFrameTimeout(u)));
    HandlersKeep(OnError(OnEndRx(OnFrameTimeout(u))));
  }

  lemma CompletionKeeps(u: Link)
    requires ExactlyOnce(u)
    ensures ExactlyOnce(Complete(u))
  {
  }

  lemma {:induction false} ExactlyOnceInEveryRun(ss: seq<LinkStep>)
    ensures ExactlyOnce(Run(Startup(), ss))
  {
    if ss != [] {
      var prior := ss[..|ss| - 1];
      ExactlyOnceInEveryRun(prior);
      var u := Run(Startup(), prior);
      match ss[|ss| - 1] {
        case InterruptStep => InterruptKeeps(u);
        case CompletionStep => CompletionKeeps(u);
        case _ =>
      }
    }
  }

  predicate PastReception(u: Link, op: OpType, outcomes: seq<Outcome>) {
    u.op == op && u.ledger.outcomes == outcomes && (u.isr == Idle || u.isr == SendingAck)
  }

  lemma HandlersAdvance(u: Link)
    requires ExactlyOnce(u)
    ensures var v := OnFrameTimeout(u);
            v.op == u.op && v.ledger == u.ledger && v.events.endRx == u.events.endRx
    ensures u.events.endRx ==> PastReception(OnEndRx(u), u.op, u.ledger.outcomes)
    ensures PastReception(u, u.op, u.ledger.outcomes) ==>
              && PastReception(OnFrameTimeout(u), u.op, u.ledger.outcomes)
              && PastReception(OnEndRx(u), u.op, u.ledger.outcomes) && OnEndRx(u).events.endTx == u.events.endTx
              && PastReception(OnError(u), u.op, u.ledger.outcomes) && OnError(u).events.endTx == u.events.endTx
              && PastReception(OnEndTx(u), u.op, u.ledger.outcomes)
    ensures OnFrameTimeout(u).events.endTx == u.events.endTx
    ensures PastReception(u, u.op, u.ledger.outcomes) && u.events.endTx ==> OnEndTx(u).isr == Idle
  {
  }

  lemma ReceptionEnds(u: Link, rx: seq<byte>)
    requires ExactlyOnce(u)
    ensures var v := Interrupt(Hardware(u, NO_EVENTS.(endRx := true), rx));
            ExactlyOnce(v) && PastReception(v, u.op, u.ledger.outcomes)
  {
    var raised := Hardware(u, NO_EVENTS.(endRx := true), rx);
    assert ExactlyOnce(raised);
    hide OnFrameTimeout, OnEndRx, OnError, OnEndTx, ExactlyOnce, PastReception;
    var timed := OnFrameTimeout(raised);
    HandlersKeep(raised);
    HandlersAdvance(raised);
    HandlersKeep(timed);
    HandlersAdvance(timed);
    HandlersKeep(OnEndRx(timed));
    HandlersAdvance(OnEndRx(timed));
    HandlersKeep(OnError(OnEndRx(timed)));
    HandlersAdvance(OnError(OnEndRx(timed)));
  }

  lemma TransmissionEnds(u: Link, rx: seq<byte>)
    requires ExactlyOnce(u) && PastReception(u, u.op, u.ledger.outcomes)
    ensures var v := Interrupt(Hardware(u, NO_EVENTS.(endTx := true), rx));
            ExactlyOnce(v) && PastReception(v, u.op, u.ledger.outcomes) && v.isr == Idle
  {
    var raised := Hardware(u, NO_EVENTS.(endTx := true), rx);
    assert ExactlyOnce(raised) && PastReception(raised, u.op, u.ledger.outcomes);
    hide OnEndRx, OnError, OnEndTx, ExactlyOnce;
    var timed := OnFrameTimeout(raised);
    HandlersKeep(raised);
    HandlersAdvance(raised);
    HandlersKeep(timed);
    HandlersAdvance(timed);
    HandlersKeep(OnEndRx(timed));
    HandlersAdvance(OnEndRx(timed));
    HandlersKeep(OnError(OnEndRx(timed)));
    HandlersAdvance(OnError(OnEndRx(timed)));
  }

  /** No deadlock: in every reachable state that holds the lock, an end of reception, an
      end of transmission and the completion answer the caller, exactly once. */
  lemma LockIsReleased(ss: seq<LinkStep>, rx: seq<byte>)
    requires Run(Startup(), ss).op != NoOp
    ensures var u := Run(Startup(), ss);
            var received := Interrupt(Hardware(u, NO_EVENTS.(endRx := true), rx));
            var done := Complete(Interrupt(Hardware(received, NO_EVENTS.(endTx := true), rx)));
            && done.op == NoOp
            && |done.ledger.outcomes| == |u.ledger.outcomes| + 1
            && done.ledger.outcomes[..|u.ledger.outcomes|] == u.ledger.outcomes
  {
    hide Interrupt;
    ExactlyOnceInEveryRun(ss);
    ReceptionEnds(Run(Startup(), ss), rx);
    TransmissionEnds(Interrupt(Hardware(Run(Startup(), ss), NO_EVENTS.(endRx := true), rx)), rx);
  }

  function Interrupts(u: Link, es: seq<Events>, rx: seq<byte>): Link {
    if es == [] then u else Interrupt(Hardware(Interrupts(u, es[..|es| - 1], rx), es[|es| - 1], rx))
  }

  /** One exchange up to its completion: the call, interrupts in each of which the hardware
      may raise any of its events at once, and whatever happens then. */
  function Exchanged(
      u: Link, op: OpType, request: seq<byte>, es: seq<Events>, rx: seq<byte>, tail: seq<LinkStep>): Link
  {
    Run(Interrupts(Call(u, op, request), es, rx), tail)
  }

  /** All that was raised in some interrupts. */
  function Raised(es: seq<Events>): Events {
    if es == [] then NO_EVENTS else Raised(es[..|es| - 1]).Raise(es[|es| - 1])
  }

  /** The reception ended, or failed before the line was found quiet. */
  predicate Over(raised: Events) {
    raised.endRx || (raised.error && !raised.frameTimeout)
  }

  /** The last of these interrupts, and none before, is the one that ends the reception. */
  ghost predicate EndsReception(es: seq<Events>) {
    es != [] && Over(Raised(es)) && forall n :: 0 <= n < |es| ==> !Over(Raised(es[..n]))
  }

  /** A timeout beats the bytes received, and the bytes beat a line error that comes
      with them. */
  function ResultOf(raised: Events, rx: seq<byte>): RxResult {
    if !raised.endRx then RxResult([], UartError)
    else RxResult(rx, if raised.frameTimeout || raised.compare0 then Timeout else RxOk)
  }

  function Verdict(op: OpType, raised: Events, rx: seq<byte>): Outcome {
    if op == Send then SendOutcome(ResultOf(raised, rx)) else TransactOutcome(ResultOf(raised, rx))
  }

  /** A traffic log: what the callers were told and what the transmitter sent. */
  datatype Traffic = Traffic(outcomes: seq<Outcome>, sent: seq<seq<byte>>)

  function TrafficOf(u: Link): Traffic {
    Traffic(u.ledger.outcomes, u.ledger.sent)
  }

  /** What an exchange transmits once the reception is over: the acknowledgement byte for
      a transact that ended its reception with no timeout and no NAK. */
  function Acks(op: OpType, raised: Events): seq<seq<byte>> {
    if op == Transact && raised.endRx && !raised.frameTimeout && !raised.compare0 && !raised.nakMatch
    then [[0x06]] else []
  }

  /** Still receiving, after these events and no others since the call. */
  predicate Receiving(u: Link, op: OpType, t: Traffic, raised: Events) {
    && u.op == op && TrafficOf(u) == t && u.queue == [] && !u.workPending
    && u.isr == (if raised.frameTimeout then TimedOut else WaitingRx)
    && u.events == NO_EVENTS.(compare0 := raised.compare0, nakMatch := raised.nakMatch)
  }

  /** The result is in the queue and waits for the completion, or for the end of the ACK. */
  predicate HasResult(u: Link, op: OpType, t: Traffic, r: RxResult) {
    && u.op == op && TrafficOf(u) == t && u.queue == [r]
    && (if u.workPending then u.isr == Idle else u.isr == SendingAck)
  }

  function Acked(t: Traffic, op: OpType, raised: Events): Traffic {
    t.(sent := t.sent + Acks(op, raised))
  }

  function Told(t: Traffic, outcomes: seq<Outcome>): Traffic {
    t.(outcomes := t.outcomes + outcomes)
  }

  lemma TimeoutWhileReceiving(u: Link, op: OpType, t: Traffic, before: Events, e: Events, rx: seq<byte>)
    requires Receiving(u, op, t, before) && |rx| <= RX_BUFFER && !Over(before)
    ensures var raised := before.Raise(e);
            OnFrameTimeout(Hardware(u, e, rx)) == u.(
              isr := if raised.frameTimeout then TimedOut else WaitingRx, rxBuf := rx,
              events := Events(false, e.endRx, e.error, e.endTx, raised.compare0, raised.nakMatch))
  {
  }

  lemma DeliveryQueues(u: Link)
    requires u.queue == [] && !u.workPending
    ensures var v := DeliverTimeout(u);
            HasResult(v, u.op, TrafficOf(u), RxResult(u.rxBuf, Timeout)) && v.events == u.events
    ensures var v, timeless := DeliverReply(u), u.events.(endRx := true, frameTimeout := false);
            && HasResult(v, u.op, Acked(TrafficOf(u), u.op, timeless),
                         RxResult(u.rxBuf, if u.events.compare0 then Timeout else RxOk))
            && (v.isr == SendingAck <==> Acks(u.op, timeless) != [])
            && (v.isr == SendingAck ==> !v.events.endTx) && !v.events.compare0
            && v.events.(endTx := false, compare0 := false, nakMatch := false) ==
               u.events.(endTx := false, compare0 := false, nakMatch := false)
  {
  }

  /** The first two handlers leave a reception that goes on as it is. */
  lemma NotEndedWhileReceiving(u: Link, op: OpType, t: Traffic, before: Events, e: Events, rx: seq<byte>)
    requires Receiving(u, op, t, before) && |rx| <= RX_BUFFER && !Over(before) && !e.endRx
    ensures var v, raised := OnEndRx(OnFrameTimeout(Hardware(u, e, rx))), before.Raise(e);
            && v.events.(endTx := false, compare0 := false, nakMatch := false) == NO_EVENTS.(error := e.error)
            && Receiving(v.(events := v.events.(error := false, endTx := false)), op, t, raised)
  {
    hide OnFrameTimeout, Hardware;
    TimeoutWhileReceiving(u, op, t, before, e, rx);
  }

  /** They settle one that ended; the last two handlers then only clear their events. */
  lemma EndedWhileReceiving(u: Link, op: OpType, t: Traffic, before: Events, e: Events, rx: seq<byte>)
    requires Receiving(u, op, t, before) && |rx| <= RX_BUFFER && !Over(before) && e.endRx
    ensures var v, raised := OnEndRx(OnFrameTimeout(Hardware(u, e, rx))), before.Raise(e);
            && v.events.(endTx := false, compare0 := false, nakMatch := false) == NO_EVENTS.(error := e.error)
            && HasResult(v, op, Acked(t, op, raised), ResultOf(raised, rx))
            && (v.isr == SendingAck <==> Acks(op, raised) != [])
            && (v.isr == SendingAck ==> !v.events.endTx)
  {
    hide OnFrameTimeout, Hardware;
    TimeoutWhileReceiving(u, op, t, before, e, rx);
    hide DeliverReply, DeliverTimeout, HasResult;
    var timed, raised := OnFrameTimeout(Hardware(u, e, rx)), before.Raise(e);
    var cleared := timed.(events := timed.events.(endRx := false));
    DeliveryQueues(cleared);
    AcksAlike(op, cleared.events.(endRx := true, frameTimeout := false), raised);
    assert t.sent + [] == t.sent;
    hide Acks;
    assert raised.frameTimeout ==> Acked(t, op, raised) == t;
  }

  lemma AcksAlike(op: OpType, e: Events, f: Events)
    requires e.endRx && f.endRx && !e.frameTimeout && e.compare0 == f.compare0 && e.nakMatch == f.nakMatch
    ensures Acks(op, f) == if f.frameTimeout then [] else Acks(op, e)
  {
  }

  lemma InterruptWhileReceiving(u: Link, op: OpType, t: Traffic, before: Events, e: Events, rx: seq<byte>)
    requires Receiving(u, op, t, before) && |rx| <= RX_BUFFER && !Over(before)
    ensures var v, raised := Interrupt(Hardware(u, e, rx)), before.Raise(e);
            if Over(raised)
            then HasResult(v, op, Acked(t, op, raised), ResultOf(raised, rx))
                 && (v.workPending <==> Acks(op, raised) == [])
            else Receiving(v, op, t, raised)
  {
    hide OnFrameTimeout, OnEndRx, Hardware;
    if e.endRx {
      EndedWhileReceiving(u, op, t, before, e, rx);
    } else {
      NotEndedWhileReceiving(u, op, t, before, e, rx);
    }
    assert t.sent + [] == t.sent;
  }

  lemma {:induction false} InterruptsReceive(u: Link, op: OpType, t: Traffic, es: seq<Events>, rx: seq<byte>)
    requires Receiving(u, op, t, NO_EVENTS) && |rx| <= RX_BUFFER
    requires forall n :: 0 <= n < |es| ==> !Over(Raised(es[..n]))
    ensures var v, raised := Interrupts(u, es, rx), Raised(es);
            if Over(raised)
            then HasResult(v, op, Acked(t, op, raised), ResultOf(raised, rx))
                 && (v.workPending <==> Acks(op, raised) == [])
            else Receiving(v, op, t, raised)
  {
    hide Interrupt, Receiving, HasResult, ResultOf, Acks, Acked;
    if es != [] {
      var prior := es[..|es| - 1];
      assert forall n :: 0 <= n < |prior| ==> prior[..n] == es[..n];
      InterruptsReceive(u, op, t, prior, rx);
      InterruptWhileReceiving(Interrupts(u, prior, rx), op, t, Raised(prior), es[|es| - 1], rx);
    }
  }

  predicate NoCompletion(tail: seq<LinkStep>) {
    forall i :: 0 <= i < |tail| ==> !tail[i].CompletionStep?
  }

  /** The calls among some steps are answered busy, one by one. */
  function Busies(tail: seq<LinkStep>): seq<Outcome> {
    if tail == [] then []
    else
      var s := tail[|tail| - 1];
      Busies(tail[..|tail| - 1]) + (if s.CallSend? || s.CallTransact? then [Failed(Busy)] else [])
  }

  lemma HandlersKeepResult(u: Link, op: OpType, t: Traffic, r: RxResult)
    requires HasResult(u, op, t, r)
    ensures HasResult(OnFrameTimeout(u), op, t, r) && HasResult(OnEndRx(u), op, t, r)
    ensures HasResult(OnError(u), op, t, r) && HasResult(OnEndTx(u), op, t, r)
  {
  }

  lemma ResultStays(u: Link, op: OpType, t: Traffic, r: RxResult, s: LinkStep)
    requires HasResult(u, op, t, r) && op != NoOp && !s.CompletionStep?
    ensures HasResult(Step(u, s), op, Told(t, Busies([s])), r)
  {
    assert [s][..0] == [];
    assert t.outcomes + [] == t.outcomes;
    if s.InterruptStep? {
      hide OnFrameTimeout, OnEndRx, OnError, OnEndTx, HasResult;
      HandlersKeepResult(u, op, t, r);
      HandlersKeepResult(OnFrameTimeout(u), op, t, r);
      HandlersKeepResult(OnEndRx(OnFrameTimeout(u)), op, t, r);
      HandlersKeepResult(OnError(OnEndRx(OnFrameTimeout(u))), op, t, r);
    } else {
      hide Interrupt, Framed;
    }
  }

  /** Neither hardware events nor interrupts nor other calls touch a result on its way, or
      transmit anything. */
  lemma {:induction false} ResultWaits(u: Link, op: OpType, t: Traffic, r: RxResult, tail: seq<LinkStep>)
    requires HasResult(u, op, t, r) && op != NoOp && NoCompletion(tail)
    ensures HasResult(Run(u, tail), op, Told(t, Busies(tail)), r)
  {
    hide HasResult, Step;
    if tail == [] {
      assert t.outcomes + [] == t.outcomes;
    } else {
      var prior, s := tail[..|tail| - 1], tail[|tail| - 1];
      ResultWaits(u, op, t, r, prior);
      ResultStays(Run(u, prior), op, Told(t, Busies(prior)), r, s);
      assert [s][..0] == [];
      assert t.outcomes + Busies(prior) + Busies([s]) == t.outcomes + Busies(tail);
    }
  }

  lemma AckEnds(u: Link, op: OpType, t: Traffic, r: RxResult, rx: seq<byte>)
    requires HasResult(u, op, t, r)
    ensures Interrupt(Hardware(u, NO_EVENTS.(endTx := true), rx)).workPending
  {
  }

  /** An exchange from any state with a free lock, up to its completion: the result and the
      traffic of it. */
  lemma ExchangeLeaves(
      u: Link, op: OpType, request: seq<byte>, es: seq<Events>, rx: seq<byte>, tail: seq<LinkStep>)
    requires ExactlyOnce(u) && u.op == NoOp && op != NoOp
    requires |rx| <= RX_BUFFER && EndsReception(es) && NoCompletion(tail)
    ensures var raised := Raised(es);
            var t := Traffic(u.ledger.outcomes, u.ledger.sent + [Fit(Framed(request))]);
            && HasResult(Interrupts(Call(u, op, request), es, rx), op, Acked(t, op, raised), ResultOf(raised, rx))
            && (Interrupts(Call(u, op, request), es, rx).workPending <==> Acks(op, raised) == [])
            && HasResult(Exchanged(u, op, request, es, rx, tail), op,
                         Told(Acked(t, op, raised), Busies(tail)), ResultOf(raised, rx))
  {
    hide Framed, Fit, ResultOf, Interrupt, Interrupts, Raised, Busies, Run, Acks, Acked, Told, HasResult;
    var called := Call(u, op, request);
    var t := Traffic(u.ledger.outcomes, u.ledger.sent + [Fit(Framed(request))]);
    assert Receiving(called, op, t, NO_EVENTS);
    InterruptsReceive(called, op, t, es, rx);
    ResultWaits(Interrupts(called, es, rx), op, Acked(t, op, Raised(es)), ResultOf(Raised(es), rx), tail);
  }

  /** From any state with a free lock, whatever comes up while receiving and whatever
      happens after it: the completion gives the caller the verdict, and until then only
      other callers are answered. The end of the ACK is all it can still wait for. */
  lemma ExchangeAnswers(
      u: Link, op: OpType, request: seq<byte>, es: seq<Events>, rx: seq<byte>, tail: seq<LinkStep>)
    requires ExactlyOnce(u) && u.op == NoOp && op != NoOp
    requires |rx| <= RX_BUFFER && EndsReception(es) && NoCompletion(tail)
    ensures var v := Exchanged(u, op, request, es, rx, tail);
            && Complete(v).ledger.outcomes ==
                 u.ledger.outcomes + Busies(tail) + (if v.workPending then [Verdict(op, Raised(es), rx)] else [])
            && Interrupt(Hardware(v, NO_EVENTS.(endTx := true), rx)).workPending
  {
    hide Framed, Fit, ResultOf, SendOutcome, TransactOutcome, Acks;
    hide Interrupt, Interrupts, Raised, Busies, Run, Exchanged;
    ExchangeLeaves(u, op, request, es, rx, tail);
    var raised := Raised(es);
    var t := Traffic(u.ledger.outcomes, u.ledger.sent + [Fit(Framed(request))]);
    var v := Exchanged(u, op, request, es, rx, tail);
    AckEnds(v, op, Told(Acked(t, op, raised), Busies(tail)), ResultOf(raised, rx), rx);
    assert u.ledger.outcomes + Busies(tail) + [] == u.ledger.outcomes + Busies(tail);
  }

  /** The verdict in the words of the callback: a timeout, frame or watchdog, before all; a
      line error when the reception never ended; no byte at all; a NAK in front; and else,
      for a send whether the first byte is the ACK, for a transact what the frame behind an
      optional ACK holds, or what is wrong with it. */
  lemma VerdictMeans(op: OpType, raised: Events, rx: seq<byte>)
    requires op != NoOp && Over(raised)
    ensures Verdict(op, raised, rx) ==
            if raised.endRx && (raised.frameTimeout || raised.compare0) then Failed(TimedOutError)
            else if !raised.endRx then Failed(UartErrorSeen)
            else if rx == [] then Failed(NoResponse)
            else if rx[0] == 0x15 then Failed(NakReceived)
            else if op == Send then (if rx[0] == 0x06 then Acknowledged else Failed(UnexpectedResponse))
            else
              var decoded := Unframed(if rx[0] == 0x06 then rx[1..] else rx);
              if decoded.Ok? then Received(decoded.value) else Failed(BadFrame(decoded.error))
  {
    hide Unframed;
  }

  /** What goes out on the line: first a frame, whose payload is the request exactly when
      that has 1 to 29 bytes; then, once, the byte 0x06 exactly for a transact that ended
      its reception with no frame timeout, no watchdog and no NAK match; and nothing more,
      whatever happens until and in the completion. */
  lemma ExchangeTransmits(
      u: Link, op: OpType, request: seq<byte>, es: seq<Events>, rx: seq<byte>, tail: seq<LinkStep>)
    requires ExactlyOnce(u) && u.op == NoOp && op != NoOp
    requires |rx| <= RX_BUFFER && EndsReception(es) && NoCompletion(tail)
    ensures var sent, raised := Complete(Exchanged(u, op, request, es, rx, tail)).ledger.sent, Raised(es);
            var acknowledged := op == Transact && raised.endRx && !raised.frameTimeout
                                && !raised.compare0 && !raised.nakMatch;
            && |sent| == |u.ledger.sent| + (if acknowledged then 2 else 1)
            && sent[..|u.ledger.sent|] == u.ledger.sent
            && (Unframed(sent[|u.ledger.sent|]) == Ok(request) <==> 1 <= |request| <= 29)
            && (acknowledged ==> sent[|u.ledger.sent| + 1] == [0x06])
  {
    hide ResultOf, SendOutcome, TransactOutcome, Unframed, Framed;
    hide Interrupt, Interrupts, Raised, Busies, Run, Exchanged;
    ExchangeLeaves(u, op, request, es, rx, tail);
    CodecExact(Fit(Framed(request)), request);
    FramedParts(request);
  }

  lemma ReplyVerdict(reply: seq<byte>, more: seq<byte>, raised: Events)
    requires raised.endRx
    ensures Verdict(Transact, raised, Cut(Reply(reply, more), {ETX, NAK}, RX_BUFFER)) == Received(reply) <==>
            !raised.frameTimeout && !raised.compare0 && 1 <= |reply| <= 28 && !HasStop(reply)
  {
    var rx := Cut(Reply(reply, more), {ETX, NAK}, RX_BUFFER);
    StreamRoundTrip(reply, more);
    ReplyPositions(reply, more);
    assert rx[0] == ACK;
  }

  /** A transact whose device answers with an ACK and the frame of some payload, cut by
      the hardware at the stop bytes the call has set: from any state with a free lock,
      whatever other events and calls come up on the way, the completion gives the caller
      that payload exactly when no timeout struck and it has 1 to 28 bytes and contains
      neither ETX nor NAK. */
  lemma ReplyReachesCaller(
      u: Link, request: seq<byte>, es: seq<Events>, reply: seq<byte>, more: seq<byte>, tail: seq<LinkStep>)
    requires ExactlyOnce(u) && u.op == NoOp
    requires EndsReception(es) && Raised(es).endRx && NoCompletion(tail)
    requires var rx := Cut(Reply(reply, more), Call(u, Transact, request).stops, RX_BUFFER);
             Exchanged(u, Transact, request, es, rx, tail).workPending
    ensures var rx := Cut(Reply(reply, more), Call(u, Transact, request).stops, RX_BUFFER);
            Complete(Exchanged(u, Transact, request, es, rx, tail)).ledger.outcomes ==
              u.ledger.outcomes + Busies(tail) + [Received(reply)] <==>
            !Raised(es).frameTimeout && !Raised(es).compare0 && 1 <= |reply| <= 28 && !HasStop(reply)
  {
    assert Call(u, Transact, request).stops == {ETX, NAK};
    hide Exchanged, Raised, Busies, Complete, Call, Cut, Reply, Verdict, HasStop, ExactlyOnce;
    var rx := Cut(Reply(reply, more), {ETX, NAK}, RX_BUFFER);
    CutFits(Reply(reply, more), {ETX, NAK}, RX_BUFFER);
    ReplyVerdict(reply, more, Raised(es));
    ExchangeAnswers(u, Transact, request, es, rx, tail);
    LastDiffers(u.ledger.outcomes + Busies(tail), Verdict(Transact, Raised(es), rx), Received(reply));
  }

  /** A send is reported as acknowledged exactly when no timeout struck and the first
      byte back is the ACK, whatever follows it; and it stops receiving at that byte. */
  lemma AckReachesCaller(
      u: Link, request: seq<byte>, es: seq<Events>, stream: seq<byte>, tail: seq<LinkStep>)
    requires ExactlyOnce(u) && u.op == NoOp
    requires EndsReception(es) && Raised(es).endRx && NoCompletion(tail)
    requires var rx := Cut(stream, Call(u, Send, request).stops, RX_BUFFER);
             Exchanged(u, Send, request, es, rx, tail).workPending
    ensures var rx := Cut(stream, Call(u, Send, request).stops, RX_BUFFER);
            && (Complete(Exchanged(u, Send, request, es, rx, tail)).ledger.outcomes ==
                  u.ledger.outcomes + Busies(tail) + [Acknowledged] <==>
                !Raised(es).frameTimeout && !Raised(es).compare0 && stream != [] && stream[0] == 0x06)
            && (stream != [] && (stream[0] == 0x06 || stream[0] == 0x15) ==> rx == [stream[0]])
  {
    assert Call(u, Send, request).stops == {ACK, NAK};
    hide Exchanged, Raised, Busies, Complete, Call;
    var rx := Cut(stream, {ACK, NAK}, RX_BUFFER);
    CutFits(stream, {ACK, NAK}, RX_BUFFER);
    ExchangeAnswers(u, Send, request, es, rx, tail);
    LastDiffers(u.ledger.outcomes + Busies(tail), Verdict(Send, Raised(es), rx), Acknowledged);
  }

  lemma LastDiffers(outcomes: seq<Outcome>, o: Outcome, p: Outcome)
    ensures outcomes + [o] == outcomes + [p] <==> o == p
  {
    assert (outcomes + [o])[|outcomes|] == o;
  }

  lemma {:induction false} CutFits(stream: seq<byte>, stops: set<byte>, room: nat)
    ensures |Cut(stream, stops, room)| <= room
  {
    if stream != [] && room > 0 && stream[0] !in stops {
      CutFits(stream[1..], stops, room - 1);
    }
  }
}

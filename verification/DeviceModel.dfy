/**
 * `UsbDevice::poll` of src/device.rs as a step function. The host, the driver and the classes
 * are values in the poll's input; what the device calls in turn is the poll's output.
 */
module DeviceModel {
  import opened UsbTypes
  import opened Control
  import opened Bus
  import opened PipeModel
  import opened Dispatch

  datatype DeviceState = Default | Addressed | Configured | Suspend

  datatype PollResult = NoEvent | ResetEvent | DataEvent(pending: Pending) | SuspendEvent | ResumeEvent

  /** What a class does with the handle it is given; the handle is consumed by the first answer. */
  datatype InAnswer =
    | IgnoreIn
    | AnswerIn(filler: Filler, take: Take)
    | AnswerStatic(data: seq<byte>, take: Take)
    | RefuseIn

  datatype OutAnswer = IgnoreOut | AnswerOut(take: Take) | RefuseOut

  datatype ClassScript = ClassScript(onIn: InAnswer, onOut: OutAnswer, altSetting: Option<byte>, setAlt: bool)

  /**
   * What rendering a requested descriptor comes to: the control buffer as the writer leaves it,
   * with the writer's position or its error, or a panic.
   */
  datatype Rendering =
    | NoDescriptor
    | Rendered(image: seq<byte>, position: nat)
    | RenderFailed(image: seq<byte>, error: UsbError)
    | RenderPanics

  /** One poll: the driver's event, and every answer the environment gives while it is handled. */
  datatype Input = Input(
    event: PollResult,
    classes: seq<ClassScript>,
    offer: Offer,          // the EP0-OUT read
    inTake: Take,          // the EP0-IN write after an IN completion
    builtInTake: Take,     // the EP0-IN write of a built-in answer
    rendering: Rendering,  // GET_DESCRIPTOR
    stalled: set<byte>)    // the endpoints for which is_stalled returns true

  datatype Call =
    | PipeCall(op: Op)                // an operation on the control pipe
    | ClassAsked(cls: nat)            // control_in or control_out of a class
    | ClassReset(cls: nat)
    | ClassPolled(cls: nat)
    | ClassEndpoint(call: EpCall)
    | BusReset
    | BusSuspend
    | BusResume
    | SetAddress(address: u16)
    | SetStalled(endpoint: byte, stalled: bool)
    | StatusDelivered                 // handle_in_complete returned true
    | AddressHandled(address: u16)    // built-in SET_ADDRESS
    | ConfigHandled(value: u16)       // built-in SET_CONFIGURATION
    | WakeupHandled(on: bool)         // built-in SET_FEATURE or CLEAR_FEATURE of remote wakeup

  datatype Device = Device(
    quirk: bool,           // QUIRK_SET_ADDRESS_BEFORE_STATUS
    pipe: Pipe,
    state: DeviceState,
    suspended: Option<DeviceState>,
    wakeup: bool,
    selfPowered: bool,
    pending: u16,          // 0 when no address is pending
    halted: bool)          // a Rust panic ended the program

  datatype Outcome = Outcome(dev: Device, calls: seq<Call>)

  function Do(d: Device, op: Op): Device {
    var t := Step(d.pipe, op);
    d.(pipe := t.pipe, halted := d.halted || t.reply.Panicked?)
  }

  /** The pipe operation a class's answer amounts to. */
  function AnswerOp(c: ClassScript, dir: UsbDirection): Option<Op> {
    if dir.In? then
      match c.onIn
      case IgnoreIn => None
      case AnswerIn(f, t) => Some(AcceptInOp(f, t))
      case AnswerStatic(data, t) => Some(AcceptStaticOp(data, t))
      case RefuseIn => Some(RejectOp)
    else
      match c.onOut
      case IgnoreOut => None
      case AnswerOut(t) => Some(AcceptOutOp(t))
      case RefuseOut => Some(RejectOp)
  }

  function DoAnswer(d: Device, answer: Option<Op>): Outcome {
    match answer
    case None => Outcome(d, [])
    case Some(op) => Outcome(Do(d, op), [PipeCall(op)])
  }

  /** The class loop: each class in turn, until the pipe is no longer waiting. */
  function Ask(d: Device, classes: seq<ClassScript>, dir: UsbDirection, k: nat): Outcome
    requires k <= |classes|
    decreases |classes| - k
  {
    if k == |classes| then
      Outcome(d, [])
    else
      var a := DoAnswer(d, AnswerOp(classes[k], dir));
      var calls := [ClassAsked(k)] + a.calls;
      if a.dev.halted || !a.dev.pipe.Waiting() then
        Outcome(a.dev, calls)
      else
        var rest := Ask(a.dev, classes, dir, k + 1);
        Outcome(rest.dev, calls + rest.calls)
  }

  /** The alternate setting of the first class that knows the interface. */
  function FirstAlt(classes: seq<ClassScript>): byte {
    if classes == [] then 0
    else if classes[0].altSetting.Some? then classes[0].altSetting.value
    else FirstAlt(classes[1..])
  }

  predicate AnySetAlt(classes: seq<ClassScript>) {
    exists k | 0 <= k < |classes| :: classes[k].setAlt
  }

  /** `(index as u8) & 0x8f`; see EndpointMask. */
  function EndpointOf(index: u16): byte {
    index % 0x100 / 0x80 * 0x80 + index % 0x10
  }

  /** It keeps bit 7 and the low four bits of the low byte. */
  lemma EndpointMask(index: u16, low: bv8)
    requires index % 0x100 == low as int
    ensures EndpointOf(index) == (low & 0x8f) as int
  {
    MaskOfLow(low);
    assert index % 0x10 == index % 0x100 % 0x10;
  }

  lemma MaskOfLow(low: bv8)
    ensures (low & 0x8f) as int == low as int / 0x80 * 0x80 + low as int % 0x10
  {
  }

  function AcceptBytes(d: Device, bytes: seq<byte>, t: Take): Op {
    AcceptInOp(Copying(bytes, |d.pipe.buf|), t)
  }

  /** `accept_writer`; a writer's position never passes the end of its buffer. */
  function AcceptWriter(d: Device, r: Rendering, t: Take): Op {
    match r
    case NoDescriptor => RejectOp
    case Rendered(image, position) => AcceptInOp(Filler(image, Ok(Min(position, |d.pipe.buf|))), t)
    case RenderFailed(image, e) => AcceptInOp(Filler(image, Err(e)), t)
    case RenderPanics => AcceptInOp(Filler([], Ok(0), true), t)
  }

  /** The built-in answer to an IN request no class answered; None leaves it to the final reject. */
  function BuiltInIn(d: Device, req: Request, x: Input): Option<Op> {
    if !req.requestType.Standard? then None
    else if req.request == GET_STATUS && req.recipient == Recipient.Device then
      Some(AcceptBytes(d, [(if d.selfPowered then 1 else 0) + (if d.wakeup then 2 else 0), 0], x.builtInTake))
    else if req.request == GET_STATUS && req.recipient == Interface then
      Some(AcceptBytes(d, [0, 0], x.builtInTake))
    else if req.request == GET_STATUS && req.recipient == Endpoint then
      Some(AcceptBytes(d, [if EndpointOf(req.index) in x.stalled then 1 else 0, 0], x.builtInTake))
    else if req.request == GET_DESCRIPTOR && req.recipient == Recipient.Device then
      Some(AcceptWriter(d, x.rendering, x.builtInTake))
    else if req.request == GET_CONFIGURATION && req.recipient == Recipient.Device then
      Some(AcceptBytes(d, [if d.state.Configured? then 1 else 0], x.builtInTake))
    else if req.request == GET_INTERFACE && req.recipient == Interface then
      Some(if req.index > 255 then RejectOp else AcceptBytes(d, [FirstAlt(x.classes)], x.builtInTake))
    else None
  }

  /** The device fields after built-in handling of an OUT request, before the pipe answers it. */
  function Configure(d: Device, req: Request): Device {
    if !req.requestType.Standard? || req.recipient != Recipient.Device then d
    else if req.request == CLEAR_FEATURE && req.value == FEATURE_DEVICE_REMOTE_WAKEUP then d.(wakeup := false)
    else if req.request == SET_FEATURE && req.value == FEATURE_DEVICE_REMOTE_WAKEUP then d.(wakeup := true)
    else if req.request == SET_ADDRESS && 1 <= req.value <= 127 then
      (if d.quirk then d.(state := Addressed) else d.(pending := req.value))
    else if req.request == SET_CONFIGURATION && req.value == 1 then d.(state := Configured)
    else if req.request == SET_CONFIGURATION && req.value == 0 && !d.state.Default? then d.(state := Addressed)
    else d
  }

  /** What the built-in handler of an OUT request does besides, in order. */
  function OutSideCalls(d: Device, req: Request): seq<Call> {
    if !req.requestType.Standard? then []
    else if req.recipient == Endpoint && req.value == FEATURE_ENDPOINT_HALT && req.request == CLEAR_FEATURE then
      [SetStalled(EndpointOf(req.index), false)]
    else if req.recipient == Endpoint && req.value == FEATURE_ENDPOINT_HALT && req.request == SET_FEATURE then
      [SetStalled(EndpointOf(req.index), true)]
    else if req.recipient == Recipient.Device && req.value == FEATURE_DEVICE_REMOTE_WAKEUP
            && req.request in {CLEAR_FEATURE, SET_FEATURE} then
      [WakeupHandled(req.request == SET_FEATURE)]
    else if req.recipient == Recipient.Device && req.request == SET_ADDRESS && 1 <= req.value <= 127 then
      [AddressHandled(req.value)] + (if d.quirk then [SetAddress(req.value)] else [])
    else if req.recipient == Recipient.Device && req.request == SET_CONFIGURATION && req.value <= 1 then
      [ConfigHandled(req.value)]
    else []
  }

  predicate AcceptsOut(req: Request, x: Input) {
    match req.recipient
    case Device =>
      || (req.request in {CLEAR_FEATURE, SET_FEATURE} && req.value == FEATURE_DEVICE_REMOTE_WAKEUP)
      || (req.request == SET_ADDRESS && 1 <= req.value <= 127)
      || (req.request == SET_CONFIGURATION && req.value <= 1)
    case Endpoint => req.request in {CLEAR_FEATURE, SET_FEATURE} && req.value == FEATURE_ENDPOINT_HALT
    case Interface =>
      && req.request == SET_INTERFACE && req.index <= 255 && req.value <= 255
      && (AnySetAlt(x.classes) || req.value == 0)
    case _ => false
  }

  function BuiltInOut(req: Request, x: Input): Option<Op> {
    if !req.requestType.Standard? then None
    else Some(if AcceptsOut(req, x) then AcceptOutOp(x.builtInTake) else RejectOp)
  }

  /** Runs the built-in answer, then rejects if nothing has answered. */
  function Finish(d: Device, answer: Option<Op>): Outcome {
    match answer
    case Some(op) =>
      var e := Do(d, op);
      if e.halted || Step(d.pipe, op).reply.Failed? || !e.pipe.Waiting() then
        Outcome(e, [PipeCall(op)])
      else
        Outcome(Do(e, RejectOp), [PipeCall(op), PipeCall(RejectOp)])
    case None =>
      if d.pipe.Waiting() then Outcome(Do(d, RejectOp), [PipeCall(RejectOp)]) else Outcome(d, [])
  }

  /** control_in */
  function ControlIn(d: Device, req: Request, x: Input): Outcome {
    var a := Ask(d, x.classes, In, 0);
    if a.dev.halted || !(x.classes == [] || a.dev.pipe.Waiting()) then
      a
    else
      var f := Finish(a.dev, BuiltInIn(a.dev, req, x));
      Outcome(f.dev, a.calls + f.calls)
  }

  /** control_out */
  function ControlOut(d: Device, req: Request, x: Input): Outcome {
    var a := Ask(d, x.classes, UsbDirection.Out, 0);
    if a.dev.halted || !(x.classes == [] || a.dev.pipe.Waiting()) then
      a
    else
      var e := Configure(a.dev, req);
      var f := Finish(e, BuiltInOut(req, x));
      Outcome(f.dev, a.calls + OutSideCalls(a.dev, req) + f.calls)
  }

  /** An EP0-IN completion, and the address change that waits for the status stage. */
  function Ep0InComplete(d: Device, x: Input): Outcome {
    var op := InDoneOp(x.inTake);
    var t := Step(d.pipe, op);
    var e := Do(d, op);
    if t.reply.StatusDone? then
      if !e.quirk && e.pending != 0 then
        Outcome(e.(pending := 0, state := Addressed), [PipeCall(op), StatusDelivered, SetAddress(e.pending)])
      else
        Outcome(e, [PipeCall(op), StatusDelivered])
    else
      Outcome(e, [PipeCall(op)])
  }

  /** The endpoint-0 part of a data event. */
  function Endpoint0(d: Device, ev: Pending, x: Input): Outcome {
    if !All(ev)[0] then
      Outcome(d, [])
    else if ev.epSetup[0] || ev.epOut[0] then
      var op := if ev.epSetup[0] then SetupOp(x.offer) else OutOp(x.offer);
      var t := Step(d.pipe, op);
      var e := Do(d, op);
      var rest :=
        if e.halted then Outcome(e, [])
        else if t.reply.Got? then
          (if t.reply.req.direction.In? then ControlIn(e, t.reply.req, x) else ControlOut(e, t.reply.req, x))
        else if ev.epInComplete[0] then Ep0InComplete(e, x)
        else Outcome(e, []);
      Outcome(rest.dev, [PipeCall(op)] + rest.calls)
    else
      Ep0InComplete(d, x)
  }

  function EndpointCalls(calls: seq<EpCall>): seq<Call> {
    seq(|calls|, k requires 0 <= k < |calls| => ClassEndpoint(calls[k]))
  }

  function PollClasses(n: nat): seq<Call> {
    seq(n, (k: nat) => ClassPolled(k))
  }

  function ResetClasses(n: nat): seq<Call> {
    seq(n, (k: nat) => ClassReset(k))
  }

  function HandleData(d: Device, ev: Pending, x: Input): Outcome {
    var a := Endpoint0(d, ev, x);
    if a.dev.halted then a
    else Outcome(a.dev, a.calls + EndpointCalls(Scan(ev, 1, |x.classes|)) + PollClasses(|x.classes|))
  }

  function HandleReset(d: Device, n: nat): Outcome {
    var e := Do(d, ResetOp).(state := Default, suspended := None, wakeup := false, pending := 0);
    Outcome(e, [BusReset, PipeCall(ResetOp)] + ResetClasses(n))
  }

  /** Leaving suspend. `expect` panics if the state before suspend was not recorded. */
  function Wake(d: Device): Outcome {
    if !d.state.Suspend? then Outcome(d, [])
    else if d.suspended.None? then Outcome(d.(halted := true), [BusResume])
    else Outcome(d.(state := d.suspended.value, suspended := None), [BusResume])
  }

  /** The poll once awake. */
  function Handle(d: Device, x: Input): Outcome {
    match x.event
    case NoEvent | ResumeEvent => Outcome(d, [])
    case ResetEvent => HandleReset(d, |x.classes|)
    case DataEvent(ev) => HandleData(d, ev, x)
    case SuspendEvent => Outcome(d.(suspended := Some(d.state), state := Suspend), [BusSuspend])
  }

  function Poll(d: Device, x: Input): Outcome {
    if d.halted || (d.state.Suspend? && (x.event.SuspendEvent? || x.event.NoEvent?)) then
      Outcome(d, [])
    else
      var w := Wake(d);
      if w.dev.halted then w
      else var h := Handle(w.dev, x); Outcome(h.dev, w.calls + h.calls)
  }

  function RunDevice(d: Device, xs: seq<Input>): Outcome
    decreases |xs|
  {
    if xs == [] then Outcome(d, [])
    else
      var first := Poll(d, xs[0]);
      var rest := RunDevice(first.dev, xs[1..]);
      Outcome(rest.dev, first.calls + rest.calls)
  }

  /** A device as `UsbDevice::build` makes it. */
  ghost predicate Built(d: Device) {
    && Fresh(d.pipe) && d.state.Default? && d.suspended.None?
    && !d.wakeup && d.pending == 0 && !d.halted
  }
}

/**
 * The endpoint-0 control pipe of src/control_pipe.rs as a step function: each operation maps a
 * pipe and the environment's answers to the next pipe, the events on the bus, and the reply.
 */
module PipeModel {
  import opened UsbTypes
  import opened Control
  import opened Bus

  datatype ControlState =
    | Idle
    | DataIn
    | DataInZlp
    | DataInLast
    | CompleteIn(req: Request)
    | StatusOut
    | CompleteOut
    | DataOut(req: Request)
    | StatusIn
    | Error

  datatype Pipe = Pipe(
    state: ControlState,
    buf: seq<byte>,
    staticBuf: Option<seq<byte>>,
    i: nat,
    len: nat,
    mps: nat)
  {
    predicate Waiting() {
      state.CompleteOut? || state.CompleteIn?
    }

    /** The buffer `write_in_chunk` sends from. */
    function Source(): seq<byte> {
      if staticBuf.Some? then staticBuf.value else buf
    }
  }

  datatype Event =
    | SetupTaken(req: Request)      // a SETUP packet that starts a transfer
    | SetupDropped(req: Request)    // an OUT SETUP packet whose data stage does not fit the buffer
    | SetupIgnored(data: seq<byte>) // a packet read into the buffer that does not parse
    | GotData(data: seq<byte>)      // an OUT packet of the data stage
    | GotZlp                        // a zero-length OUT packet read outside the data stage
    // An IN transfer accepted, to send `src`; `held` is the static buffer it was given, if any.
    | AcceptedIn(src: seq<byte>, held: Option<seq<byte>>)
    | Wrote(data: seq<byte>)        // a packet the bus took on EP0-IN
    | StatusSent                    // handle_in_complete returned true
    | Stalled                       // both directions of EP0 stalled
    | Unstalled                     // EP0-OUT unstalled
    | WasReset

  /** The Rust results of all operations. Panicked is a slice out of range, an underflow, or a callback's panic. */
  datatype Reply = Done | Got(req: Request) | StatusDone | Failed(error: UsbError) | Panicked

  datatype Turn = Turn(pipe: Pipe, events: seq<Event>, reply: Reply)

  /** The callback of `accept_in`: the bytes it leaves in the buffer, and the count it returns unless it panics. */
  datatype Filler = Filler(data: seq<byte>, count: Result<nat>, panics: bool := false)

  function HandleSetup(p: Pipe, o: Offer): Turn {
    match Read(o, |p.buf|)
    case Err(_) => Turn(p, [], Done)
    case Ok(d) =>
      var p := p.(buf := Overlay(p.buf, d));
      match Parse(d)
      case Err(_) => Turn(p, [SetupIgnored(d)], Done)
      case Ok(req) =>
        if req.direction.In? then
          Turn(p.(state := CompleteIn(req)), [Unstalled, SetupTaken(req)], Got(req))
        else if req.length == 0 then
          Turn(p.(len := 0, state := CompleteOut), [Unstalled, SetupTaken(req)], Got(req))
        else if req.length > |p.buf| then
          Turn(p, [Unstalled, SetupDropped(req)], Done)
        else
          Turn(p.(i := 0, len := req.length, state := DataOut(req)), [Unstalled, SetupTaken(req)], Done)
  }

  function SetError(p: Pipe): Pipe {
    p.(state := Error)
  }

  function HandleOut(p: Pipe, o: Offer): Turn {
    match p.state
    case DataOut(req) =>
      if p.i > |p.buf| then
        Turn(p, [], Panicked)
      else (
        match Read(o, |p.buf| - p.i)
        case Err(WouldBlock) => Turn(p, [], Done)
        case Err(_) => Turn(SetError(p), [Stalled], Done)
        case Ok(d) =>
          var p := p.(buf := p.buf[..p.i] + Overlay(p.buf[p.i..], d), i := p.i + |d|);
          if p.i >= p.len then
            Turn(p.(state := CompleteOut), [GotData(d)], Got(req))
          else
            Turn(p, [GotData(d)], Done)
      )
    case DataIn | DataInLast | DataInZlp | StatusOut => (
      match Read(o, 0)
      case Err(e) => Turn(p, [], Failed(e))
      case Ok(_) => Turn(p.(state := Idle), [GotZlp], Done)
    )
    case _ => (
      match Read(o, 0)
      case Err(e) => Turn(p, [], Failed(e))
      case Ok(_) => Turn(SetError(p), [GotZlp, Stalled], Done)
    )
  }

  function WriteInChunk(p: Pipe, t: Take): Turn {
    if p.i > p.len then
      Turn(p, [], Panicked)
    else
      var count := Min(p.len - p.i, p.mps);
      var source := p.Source();
      if p.i + count > |source| then
        Turn(p, [], Panicked)
      else
        match Write(t, source[p.i..p.i + count])
        case Err(e) => Turn(p, [], Failed(e))
        case Ok(n) =>
          var sent := [Wrote(source[p.i..p.i + n])];
          var p := p.(i := p.i + n);
          if p.i >= p.len then
            Turn(p.(staticBuf := None, state := if n == p.mps then DataInZlp else DataInLast), sent, Done)
          else
            Turn(p, sent, Done)
  }

  /** `write(&[])`: on success the pipe moves to `next`. */
  function WriteEmpty(p: Pipe, t: Take, next: ControlState): Turn {
    match Write(t, [])
    case Err(e) => Turn(p, [], Failed(e))
    case Ok(_) => Turn(p.(state := next), [Wrote([])], Done)
  }

  function HandleInComplete(p: Pipe, t: Take): Turn {
    match p.state
    case DataIn => WriteInChunk(p, t)
    case DataInZlp => WriteEmpty(p, t, DataInLast)
    case DataInLast => Turn(p.(state := StatusOut), [Unstalled], Done)
    case StatusIn => Turn(p.(state := Idle), [StatusSent], StatusDone)
    case _ => Turn(p, [], Done)
  }

  function AcceptOut(p: Pipe, t: Take): Turn {
    if p.state.CompleteOut? then WriteEmpty(p, t, StatusIn) else Turn(p, [], Failed(InvalidState))
  }

  function StartInTransfer(p: Pipe, req: Request, src: seq<byte>, held: Option<seq<byte>>, t: Take): Turn {
    var len := Min(|src|, req.length);
    var turn := WriteInChunk(p.(len := len, i := 0, state := DataIn), t);
    // A failed first write leaves the transfer started: the next IN-complete retries it.
    Turn(if turn.reply.Panicked? then p else turn.pipe, [AcceptedIn(src[..len], held)] + turn.events, turn.reply)
  }

  function AcceptIn(p: Pipe, f: Filler, t: Take): Turn {
    if !p.state.CompleteIn? then
      Turn(p, [], Failed(InvalidState))
    else if f.panics then
      Turn(p, [], Panicked)
    else
      var req := p.state.req;
      var p := p.(buf := Overlay(p.buf, f.data));
      match f.count
      case Err(e) => Turn(p, [], Failed(e))
      case Ok(n) =>
        if n > |p.buf| then
          Turn(SetError(p), [Stalled], Failed(BufferOverflow))
        else
          StartInTransfer(p, req, p.buf[..n], None, t)
  }

  function AcceptInStatic(p: Pipe, data: seq<byte>, t: Take): Turn {
    if !p.state.CompleteIn? then
      Turn(p, [], Failed(InvalidState))
    else
      StartInTransfer(p.(staticBuf := Some(data)), p.state.req, data, Some(data), t)
  }

  /** `ControlIn::accept_with` of src/class.rs: a callback that copies `data` if it fits. */
  function Copying(data: seq<byte>, capacity: nat): Filler {
    if |data| > capacity then Filler([], Err(BufferOverflow)) else Filler(data, Ok(|data|))
  }

  function Reject(p: Pipe): Turn {
    if p.Waiting() then Turn(SetError(p), [Stalled], Done) else Turn(p, [], Failed(InvalidState))
  }

  function Reset(p: Pipe): Turn {
    Turn(p.(state := Idle), [WasReset], Done)
  }

  /** `data()`; meaningful when `len` is within the buffer. */
  function Data(p: Pipe): seq<byte>
    requires p.len <= |p.buf|
  {
    p.buf[..p.len]
  }

  datatype Op =
    | SetupOp(offer: Offer)
    | OutOp(offer: Offer)
    | InDoneOp(take: Take)
    | AcceptOutOp(take: Take)
    | AcceptInOp(filler: Filler, take: Take)
    | AcceptStaticOp(data: seq<byte>, take: Take)
    | RejectOp
    | ResetOp

  function Step(p: Pipe, op: Op): Turn {
    match op
    case SetupOp(o) => HandleSetup(p, o)
    case OutOp(o) => HandleOut(p, o)
    case InDoneOp(t) => HandleInComplete(p, t)
    case AcceptOutOp(t) => AcceptOut(p, t)
    case AcceptInOp(f, t) => AcceptIn(p, f, t)
    case AcceptStaticOp(d, t) => AcceptInStatic(p, d, t)
    case RejectOp => Reject(p)
    case ResetOp => Reset(p)
  }

  function Run(p: Pipe, ops: seq<Op>): Pipe
    decreases |ops|
  {
    if ops == [] then p else Run(Step(p, ops[0]).pipe, ops[1..])
  }

  function Events(p: Pipe, ops: seq<Op>): seq<Event>
    decreases |ops|
  {
    if ops == [] then [] else var t := Step(p, ops[0]); t.events + Events(t.pipe, ops[1..])
  }

  /** The reply to the last operation of a run. */
  function LastReply(p: Pipe, ops: seq<Op>): Reply
    requires ops != []
  {
    Step(Run(p, ops[..|ops| - 1]), ops[|ops| - 1]).reply
  }

  lemma {:induction false} RunAppend(p: Pipe, a: seq<Op>, b: seq<Op>)
    ensures Run(p, a + b) == Run(Run(p, a), b)
    ensures Events(p, a + b) == Events(p, a) + Events(Run(p, a), b)
    decreases |a|
  {
    if a == [] {
      assert a + b == b;
    } else {
      assert (a + b)[1..] == a[1..] + b;
      RunAppend(Step(p, a[0]).pipe, a[1..], b);
    }
  }

  lemma TwoSteps(p: Pipe, a: Op, b: Op)
    ensures Run(p, [a, b]) == Step(Step(p, a).pipe, b).pipe
    ensures Events(p, [a, b]) == Step(p, a).events + Step(Step(p, a).pipe, b).events
  {
    hide Step;
    assert [a, b][1..] == [b] && [b][1..] == [];
    var q := Step(p, a).pipe;
    assert Events(q, [b]) == Step(q, b).events + [];
    assert Step(q, b).events + [] == Step(q, b).events;
    assert Run(q, [b]) == Step(q, b).pipe;
  }

  /** `n` IN-complete indications, each answered by a driver that takes the whole slice. */
  function FullWrites(n: nat, m: nat): seq<Op> {
    seq(n, _ => InDoneOp(Takes(m)))
  }

  /** A pipe as `ControlPipe::new` builds it. */
  ghost predicate Fresh(p: Pipe) {
    p.state.Idle? && p.staticBuf.None? && p.i == 0 && p.len == 0 && 0 < p.mps <= |p.buf|
  }

  /** The operation reads a packet off the SETUP stage, and so overwrites the start of the buffer. */
  predicate ReadsSetup(p: Pipe, op: Op) {
    op.SetupOp? && Read(op.offer, |p.buf|).Ok?
  }

  ghost predicate NoSetup(p: Pipe, ops: seq<Op>) {
    forall k | 0 <= k < |ops| :: !ReadsSetup(p, ops[k])
  }
}

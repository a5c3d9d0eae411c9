/** The entries of a run's log for requests handled by the device are the host's own requests, in order. */
module DeviceLog {
  import opened UsbTypes
  import opened Control
  import opened PipeModel
  import opened Dispatch
  import opened DeviceModel
  import opened DevicePipe
  import opened DeviceAnswers
  import opened DeviceRequests
  import opened StandardOut

  /** A request handled: address, configuration, remote wakeup, endpoint halt. */
  predicate IsHandled(c: Call) {
    c.AddressHandled? || c.ConfigHandled? || c.WakeupHandled? || c.SetStalled?
  }

  function Handled(log: seq<Call>): seq<Call> {
    if log == [] then [] else (if IsHandled(log[0]) then [log[0]] else []) + Handled(log[1..])
  }

  lemma {:induction false} HandledAppend(a: seq<Call>, b: seq<Call>)
    ensures Handled(a + b) == Handled(a) + Handled(b)
  {
    if a == [] {
      assert a + b == b;
    } else {
      assert (a + b)[0] == a[0] && (a + b)[1..] == a[1..] + b;
      HandledAppend(a[1..], b);
    }
  }

  ghost predicate NoneHandled(log: seq<Call>) {
    forall k | 0 <= k < |log| :: !IsHandled(log[k])
  }

  lemma {:induction false} NothingHandled(log: seq<Call>)
    requires NoneHandled(log)
    ensures Handled(log) == []
  {
    if log != [] {
      assert !IsHandled(log[0]);
      NothingHandled(log[1..]);
    }
  }

  /** A SETUP packet of the request. */
  function PacketOf(req: Request): SetupPacket {
    SetupPacket(TypeByte(req.direction, req.requestType, req.recipient), req.request, req.value, req.index, req.length)
  }

  lemma PacketIs(req: Request)
    ensures RequestOf(PacketOf(req)) == req && (req.direction.Out? <==> PacketOf(req).kind < 0x80)
  {
    TypeByteFields(req.direction, req.requestType, req.recipient);
  }

  /** Some class has answered the OUT request. */
  predicate AnsweredByClass(d: Device, x: Input)
    requires x.event.DataEvent?
  {
    var a := Ask(Before(d, x), x.classes, UsbDirection.Out, 0).dev;
    a.halted || !a.pipe.Waiting()
  }

  /** What the host asks for in a poll, if its request completes there and no class answers it. */
  function PollAsks(d: Device, x: Input): seq<Call> {
    if d.halted || !BringsRequest(d, x) then []
    else
      var req := Step(d.pipe, ReadOp(x)).reply.req;
      if req.direction.In? || AnsweredByClass(d, x) then [] else HandledFor(PacketOf(req))
  }

  function RunAsks(d: Device, xs: seq<Input>): seq<Call>
    decreases |xs|
  {
    if xs == [] then [] else PollAsks(d, xs[0]) + RunAsks(Poll(d, xs[0]).dev, xs[1..])
  }

  lemma HandledBetween(a: seq<Call>, b: seq<Call>, c: seq<Call>)
    requires NoneHandled(a) && NoneHandled(c)
    ensures Handled(a + b + c) == Handled(b)
  {
    NothingHandled(a);
    NothingHandled(c);
    HandledAppend(a, b);
    HandledAppend(a + b, c);
    assert [] + Handled(b) + [] == Handled(b);
  }

  lemma InNotHandled(d: Device, req: Request, x: Input)
    ensures NoneHandled(ControlIn(d, req, x).calls)
  {
    hide Ask, Finish, BuiltInIn;
    AskOnlyAsks(d, x.classes, In, 0);
    var a := Ask(d, x.classes, In, 0).dev;
    FinishOnlyAsks(a, BuiltInIn(a, req, x));
  }

  lemma OutHandled(d: Device, req: Request, x: Input)
    requires req.direction.Out? && (x.classes == [] ==> d.pipe.Waiting()) && !d.halted
    ensures var a := Ask(d, x.classes, UsbDirection.Out, 0).dev;
            Handled(ControlOut(d, req, x).calls)
            == if a.halted || !a.pipe.Waiting() then [] else HandledFor(PacketOf(req))
  {
    hide Ask, Finish, BuiltInOut, Configure, OutSideCalls, Handled, PacketOf, HandledFor;
    var a := Ask(d, x.classes, UsbDirection.Out, 0);
    assert x.classes == [] ==> a.dev == d by { EmptyAsk(d); }
    AskOnlyAsks(d, x.classes, UsbDirection.Out, 0);
    NothingHandled(a.calls);
    var f := Finish(Configure(a.dev, req), BuiltInOut(req, x));
    FinishOnlyAsks(Configure(a.dev, req), BuiltInOut(req, x));
    HandledBetween(a.calls, OutSideCalls(a.dev, req), f.calls);
    SideHandled(a.dev, req);
  }

  lemma EmptyAsk(d: Device)
    ensures Ask(d, [], UsbDirection.Out, 0).dev == d
  {
  }

  lemma SideHandled(d: Device, req: Request)
    requires req.direction.Out?
    ensures Handled(OutSideCalls(d, req)) == HandledFor(PacketOf(req))
  {
    hide *;
    var s := PacketOf(req);
    PacketIs(req);
    SideCallsAre(d, s);
    EntriesHandled(d, s);
    HandledAppend(HandledFor(s), QuirkCalls(d, s));
    NothingHandled(QuirkCalls(d, s));
    HandledOne(HandledFor(s));
    assert HandledFor(s) + [] == HandledFor(s);
  }

  lemma EntriesHandled(d: Device, s: SetupPacket)
    ensures |HandledFor(s)| <= 1 && (HandledFor(s) != [] ==> IsHandled(HandledFor(s)[0]))
    ensures NoneHandled(QuirkCalls(d, s))
  {
    hide EndpointOf;
  }

  lemma HandledOne(log: seq<Call>)
    requires |log| <= 1 && (log != [] ==> IsHandled(log[0]))
    ensures Handled(log) == log
  {
    if log != [] { assert log[1..] == []; }
  }

  lemma InCompleteNotHandled(d: Device, x: Input)
    ensures NoneHandled(Ep0InComplete(d, x).calls)
  {
    hide Step;
  }

  /** Endpoint 0 with no request to answer. */
  lemma NoRequestNotHandled(d: Device, x: Input)
    requires x.event.DataEvent? && !d.halted && !BringsRequest(d, x)
    ensures NoneHandled(Endpoint0(d, x.event.pending, x).calls)
  {
    InCompleteNotHandled(d, x);
    InCompleteNotHandled(Do(d, ReadOp(x)), x);
    hide Step, Ep0InComplete, ControlIn, ControlOut;
  }

  lemma RequestHandledOnce(d: Device, x: Input)
    requires Booked(d) && !d.halted && BringsRequest(d, x)
    ensures Handled(Endpoint0(Wake(d).dev, x.event.pending, x).calls) == PollAsks(d, x)
  {
    var req := Step(d.pipe, ReadOp(x)).reply.req;
    var s, e := PacketOf(req), Before(d, x);
    PacketIs(req);
    assert Brings(d, x, s);
    BeforeMeans(d, x, s);
    RequestHandled(d, x, s);
    hide Step, ControlIn, ControlOut, Endpoint0, PacketOf, RequestOf, Before, Brings, HandledFor, Handled;
    hide AnsweredByClass, NoneHandled, Ask;
    var o := ControlRequest(e, req, x);
    HandledReads(ReadOp(x), o.calls);
    if req.direction.In? {
      InNotHandled(e, req, x);
      NothingHandled(o.calls);
    } else {
      OutHandled(e, req, x);
      AnsweredMeans(d, x);
    }
  }

  lemma AnsweredMeans(d: Device, x: Input)
    requires x.event.DataEvent?
    ensures var a := Ask(Before(d, x), x.classes, UsbDirection.Out, 0).dev;
            AnsweredByClass(d, x) <==> a.halted || !a.pipe.Waiting()
  {
  }

  lemma HandledReads(op: Op, more: seq<Call>)
    ensures Handled([PipeCall(op)] + more) == Handled(more)
  {
    assert ([PipeCall(op)] + more)[1..] == more;
  }

  lemma TailNotHandled(x: Input)
    requires x.event.DataEvent?
    ensures NoneHandled(Tail(x))
  {
    hide Scan;
  }

  lemma PollHandled(d: Device, x: Input)
    requires Booked(d)
    ensures Handled(Poll(d, x).calls) == PollAsks(d, x)
  {
    if d.halted {
    } else if x.event.DataEvent? {
      var w := Wake(d);
      var a := Endpoint0(w.dev, x.event.pending, x);
      assert w.dev.pipe == d.pipe && !w.dev.halted && NoneHandled(w.calls);
      if BringsRequest(d, x) {
        RequestHandledOnce(d, x);
      } else {
        assert !BringsRequest(w.dev, x);
        NoRequestNotHandled(w.dev, x);
        NothingHandled(a.calls);
      }
      DataPollCalls(d, x);
      TailNotHandled(x);
      hide *;
      var tail := if a.dev.halted then [] else Tail(x);
      assert NoneHandled(tail) by { NoneInNothing(); }
      HandledBetween(w.calls, a.calls, tail);
      Assoc(w.calls, a.calls, tail);
    } else {
      NothingHandled(Poll(d, x).calls);
    }
  }

  lemma NoneInNothing()
    ensures NoneHandled([])
  {
  }

  /**
   * What a run has handled is what the host has asked for, in the same order and nothing more: the
   * log's entries for addresses, configurations, remote wakeup and endpoint halts are those of the
   * requests that completed and that no class answered, each read off the bytes of its SETUP packet.
   */
  lemma {:induction false} RunHandled(d: Device, xs: seq<Input>)
    requires Booked(d)
    ensures Handled(RunDevice(d, xs).calls) == RunAsks(d, xs)
    decreases |xs|
  {
    if xs != [] {
      hide Poll, PollAsks;
      var first := Poll(d, xs[0]);
      PollHandled(d, xs[0]);
      PollKeepsBooks(d, xs[0]);
      RunHandled(first.dev, xs[1..]);
      HandledAppend(first.calls, RunDevice(first.dev, xs[1..]).calls);
    }
  }

  /** What a log last said about an endpoint. */
  function LastStall(log: seq<Call>, endpoint: byte): Option<bool> {
    if log == [] then None
    else
      var later := LastStall(log[1..], endpoint);
      if later.None? && log[0].SetStalled? && log[0].endpoint == endpoint then Some(log[0].stalled) else later
  }

  lemma {:induction false} LastStallHandled(log: seq<Call>, endpoint: byte)
    ensures LastStall(log, endpoint) == LastStall(Handled(log), endpoint)
  {
    if log != [] {
      LastStallHandled(log[1..], endpoint);
      var rest := Handled(log[1..]);
      assert IsHandled(log[0]) ==> ([log[0]] + rest)[1..] == rest;
      assert [] + rest == rest;
    }
  }

  /** What the driver was last told about an endpoint is what the host last asked for it. */
  lemma LastHaltIsLastRequest(d: Device, xs: seq<Input>, endpoint: byte)
    requires Booked(d)
    ensures LastStall(RunDevice(d, xs).calls, endpoint) == LastStall(RunAsks(d, xs), endpoint)
  {
    hide RunDevice, RunAsks;
    RunHandled(d, xs);
    LastStallHandled(RunDevice(d, xs).calls, endpoint);
  }
}

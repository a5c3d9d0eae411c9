/**
 * The standard requests to the device that no class answers, from the bytes of the SETUP packet to
 * the events on the bus, the calls of the driver and the fields of the device (section 9.4 of USB 2.0).
 */
module StandardOut {
  import opened UsbTypes
  import opened Control
  import opened Bus
  import opened PipeModel
  import opened PipeIn
  import opened Dispatch
  import opened DeviceModel
  import opened DevicePipe
  import opened DeviceAnswers
  import opened DeviceRequests

  /** The requests that are granted: features, address, configuration, interface, endpoint halt. */
  predicate Granted(s: SetupPacket, x: Input) {
    || (s.kind == 0x00 && s.request in {1, 3} && s.value == 1)
    || (s.kind == 0x00 && s.request == 5 && 1 <= s.value <= 127)
    || (s.kind == 0x00 && s.request == 9 && s.value <= 1)
    || (&& s.kind == 0x01 && s.request == 11 && s.index <= 255 && s.value <= 255
        && (s.value == 0 || exists k | 0 <= k < |x.classes| :: x.classes[k].setAlt))
    || (s.kind == 0x02 && s.request in {1, 3} && s.value == 0)
  }

  /** What is handled, as the log names it. */
  function HandledFor(s: SetupPacket): seq<Call> {
    if s.kind == 0x00 && s.request in {1, 3} && s.value == 1 then [WakeupHandled(s.request == 3)]
    else if s.kind == 0x00 && s.request == 5 && 1 <= s.value <= 127 then [AddressHandled(s.value)]
    else if s.kind == 0x00 && s.request == 9 && s.value <= 1 then [ConfigHandled(s.value)]
    else if s.kind == 0x02 && s.request in {1, 3} && s.value == 0 then [SetStalled(EndpointOf(s.index), s.request == 3)]
    else []
  }

  /** The device with its fields as the request leaves them. */
  function Changed(d: Device, s: SetupPacket): Device {
    if s.kind != 0x00 then d
    else if s.request in {1, 3} && s.value == 1 then d.(wakeup := s.request == 3)
    else if s.request == 5 && 1 <= s.value <= 127 then
      (if d.quirk then d.(state := Addressed) else d.(pending := s.value))
    else if s.request == 9 && s.value == 1 then d.(state := Configured)
    else if s.request == 9 && s.value == 0 && d.state != Default then d.(state := Addressed)
    else d
  }

  lemma RequestKind(s: SetupPacket)
    requires s.kind < 0x80
    ensures var r := RequestOf(s);
            && r.direction.Out?
            && (r.requestType.Standard? && r.recipient.Device? <==> s.kind == 0x00)
            && (r.requestType.Standard? && r.recipient.Interface? <==> s.kind == 0x01)
            && (r.requestType.Standard? && r.recipient.Endpoint? <==> s.kind == 0x02)
  {
    ParseBytes(s);
    assert s.kind == 0x20 * (s.kind / 0x20) + s.kind % 0x20;
  }

  lemma BuiltInGrants(s: SetupPacket, x: Input)
    requires s.kind < 0x80
    ensures var answer := BuiltInOut(RequestOf(s), x);
            if Granted(s, x) then answer == Some(AcceptOutOp(x.builtInTake))
            else answer.None? || answer == Some(RejectOp)
  {
    RequestKind(s);
    hide DirectionOf, TypeOf, RecipientOf;
  }

  lemma ConfigureChanges(d: Device, s: SetupPacket)
    requires s.kind < 0x80
    ensures Configure(d, RequestOf(s)) == Changed(d, s)
  {
    RequestKind(s);
    hide DirectionOf, TypeOf, RecipientOf;
  }

  /** The driver is given the address at once if it has the quirk. */
  function QuirkCalls(d: Device, s: SetupPacket): seq<Call> {
    if d.quirk && s.kind == 0x00 && s.request == 5 && 1 <= s.value <= 127 then [SetAddress(s.value)] else []
  }

  lemma SideCallsAre(d: Device, s: SetupPacket)
    requires s.kind < 0x80
    ensures OutSideCalls(d, RequestOf(s)) == HandledFor(s) + QuirkCalls(d, s)
  {
    RequestKind(s);
    hide DirectionOf, TypeOf, RecipientOf, EndpointOf;
  }

  lemma FinishOut(d: Device, answer: Option<Op>, t: Take)
    requires d.pipe.state.CompleteOut? && !d.halted
    requires answer.None? || answer == Some(RejectOp) || answer == Some(AcceptOutOp(t))
    ensures var op := if answer.Some? then answer.value else RejectOp;
            Finish(d, answer) == Outcome(d.(pipe := Step(d.pipe, op).pipe), [PipeCall(op)])
    ensures Step(d.pipe, RejectOp) == Turn(d.pipe.(state := Error), [Stalled], Done)
    ensures var turn := Step(d.pipe, AcceptOutOp(t));
            if t.Takes? then turn == Turn(d.pipe.(state := StatusIn), [Wrote([])], Done)
            else turn.pipe == d.pipe && turn.events == []
  {
  }

  /** What follows the packet on the bus, and where it leaves the pipe. */
  function Verdict(s: SetupPacket, x: Input): (seq<Event>, ControlState) {
    if !Granted(s, x) then ([Stalled], Error)
    else if x.builtInTake.Takes? then ([Wrote([])], StatusIn)
    else ([], CompleteOut)
  }

  /** The device's own answer. */
  function Answer(s: SetupPacket, x: Input): Op {
    if Granted(s, x) then AcceptOutOp(x.builtInTake) else RejectOp
  }

  /** The calls for endpoint 0 of the poll that brings the request. */
  function RequestCalls(d: Device, x: Input, s: SetupPacket): seq<Call>
    requires x.event.DataEvent?
  {
    [PipeCall(ReadOp(x))]
    + (ClassesAsked(0, |x.classes|) + (HandledFor(s) + QuirkCalls(d, s)) + [PipeCall(Answer(s, x))])
  }

  lemma OutAnswered(d: Device, x: Input, s: SetupPacket)
    requires Booked(d) && !d.halted && Brings(d, x, s) && s.kind < 0x80 && Unanswered(x, UsbDirection.Out)
    ensures var e := Before(d, x);
            var o := ControlRequest(e, RequestOf(s), x);
            && o.dev == Changed(e, s).(pipe := Step(e.pipe, Answer(s, x)).pipe)
            && o.calls == ClassesAsked(0, |x.classes|) + (HandledFor(s) + QuirkCalls(d, s)) + [PipeCall(Answer(s, x))]
  {
    hide *;
    BringsMeans(d, x, s);
    var e, req := Before(d, x), RequestOf(s);
    var answer := BuiltInOut(req, x);
    BeforeMeans(d, x, s);
    AnswerOf(e, s, x);
    SameQuirk(d, x, s);
    OutUnanswered(d, x, s);
    BuiltInGrants(s, x);
    ConfigureChanges(e, s);
    SideCallsAre(e, s);
    FinishOut(Changed(e, s), answer, x.builtInTake);
  }

  lemma SameQuirk(d: Device, x: Input, s: SetupPacket)
    requires x.event.DataEvent?
    ensures QuirkCalls(Before(d, x), s) == QuirkCalls(d, s)
  {
    hide Step;
  }

  lemma SideNotPipe(d: Device, s: SetupPacket)
    ensures forall k | 0 <= k < |HandledFor(s) + QuirkCalls(d, s)| :: !(HandledFor(s) + QuirkCalls(d, s))[k].PipeCall?
  {
    hide EndpointOf;
  }

  lemma AnswerOf(e: Device, s: SetupPacket, x: Input)
    ensures Answer(s, x) == if Granted(s, x) then AcceptOutOp(x.builtInTake) else RejectOp
    ensures Changed(e, s).pipe == e.pipe && Changed(e, s).halted == e.halted
  {
    hide Granted;
  }

  lemma OutOps(d: Device, x: Input, s: SetupPacket)
    requires Booked(d) && !d.halted && Brings(d, x, s) && s.kind < 0x80 && Unanswered(x, UsbDirection.Out)
    ensures PipeOps(Poll(d, x).calls) == [ReadOp(x), Answer(s, x)]
  {
    hide *;
    BringsMeans(d, x, s);
    var side := HandledFor(s) + QuirkCalls(d, s);
    SideNotPipe(d, s);
    OutAnswered(d, x, s);
    RequestPoll(d, x, s);
    var op := Answer(s, x);
    Assoc(ClassesAsked(0, |x.classes|), side, [PipeCall(op)]);
    AskedOps(0, |x.classes|, side + [PipeCall(op)]);
    NoPipeOps(side);
    PipeOpsAppend(side, [PipeCall(op)]);
    OneOp(op);
    assert [] + [op] == [op] && [ReadOp(x)] + [op] == [ReadOp(x), op];
  }

  /**
   * Every request to the device that no class answers, class and vendor requests included: it is
   * granted with an empty packet, which the driver may refuse, or it is stalled, as its bytes say; the
   * fields change as they say; and they say what the driver and the log are told.
   */
  lemma OutSettled(d: Device, x: Input, s: SetupPacket)
    requires Booked(d) && !d.halted && Brings(d, x, s) && s.kind < 0x80 && Unanswered(x, UsbDirection.Out)
    ensures var o, read := Poll(d, x), Step(d.pipe, ReadOp(x));
            var (events, state) := Verdict(s, x);
            && OnBus(d, x) == read.events + events
            && o.dev == Changed(Wake(d).dev, s).(pipe := read.pipe.(state := state)) && !o.dev.halted
            && o.calls == Wake(d).calls + (RequestCalls(d, x, s) + Tail(x))
  {
    hide Step, Poll, Tail, Granted, Brings, Before, RequestOf, Booked, HandledFor, QuirkCalls;
    hide PipeOps, Events, ClassesAsked, Endpoint0, Wake, EndpointOf, ControlRequest;
    BringsMeans(d, x, s);
    var read := Step(d.pipe, ReadOp(x));
    BeforeMeans(d, x, s);
    OutAnswered(d, x, s);
    FinishOut(Before(d, x), None, x.builtInTake);
    OutOps(d, x, s);
    TwoSteps(d.pipe, ReadOp(x), Answer(s, x));
    RequestHandled(d, x, s);
    DataPollCalls(d, x);
  }

  /**
   * CLEAR_FEATURE and SET_FEATURE of an endpoint's halt, as a SETUP packet: the driver is told once,
   * about the endpoint the low byte of wIndex names, to stall it for code 3 and not to for code 1,
   * and then the status packet is offered.
   */
  lemma EndpointHalt(d: Device, x: Input, s: SetupPacket, low: bv8) returns (i: nat)
    requires Booked(d) && !d.halted && 8 <= |d.pipe.buf| && SetupPoll(x, s) && Unanswered(x, UsbDirection.Out)
    requires s == SetupPacket(0x02, s.request, 0, s.index, 0) && s.request in {1, 3} && s.index % 0x100 == low as int
    ensures var log := Poll(d, x).calls;
            && i + 1 < |log|
            && log[i] == SetStalled((low & 0x8f) as int, s.request == 3)
            && log[i + 1] == PipeCall(AcceptOutOp(x.builtInTake))
            && forall j | 0 <= j < |log| && log[j].SetStalled? :: j == i
    ensures PacketsOf(d, x) == if x.builtInTake.Takes? then [[]] else []
  {
    hide *;
    SetupBrings(d, x, s);
    OutSettled(d, x, s);
    SetupRead(d.pipe, s);
    HaltGranted(d, x, s);
    EndpointMask(s.index, low);
    NoStallsAround(d, x);
    var stall, answer := SetStalled(EndpointOf(s.index), s.request == 3), PipeCall(AcceptOutOp(x.builtInTake));
    var before := Wake(d).calls + ([PipeCall(ReadOp(x))] + ClassesAsked(0, |x.classes|));
    i := |before|;
    RequestCallsAre(d, x, s, stall, answer);
    assert Poll(d, x).calls == before + ([stall, answer] + Tail(x));
    OneStall(before, stall, answer, Tail(x));
    OutPackets(OnBus(d, x), [Unstalled, SetupTaken(RequestOf(s))], Verdict(s, x).0);
    assert PacketsOf(d, x) == Writes(OnBus(d, x)) by { PacketsAre(d, x); }
  }

  lemma HaltGranted(d: Device, x: Input, s: SetupPacket)
    requires s.kind == 0x02 && s.request in {1, 3} && s.value == 0 && SetupPoll(x, s)
    ensures x.event.DataEvent?
    ensures HandledFor(s) == [SetStalled(EndpointOf(s.index), s.request == 3)] && QuirkCalls(d, s) == []
    ensures Answer(s, x) == AcceptOutOp(x.builtInTake)
    ensures Verdict(s, x).0 == if x.builtInTake.Takes? then [Wrote([])] else []
  {
    hide EndpointOf;
  }

  /** The endpoint halts are the request's own. */
  lemma NoStallsAround(d: Device, x: Input)
    requires x.event.DataEvent?
    ensures var before := Wake(d).calls + ([PipeCall(ReadOp(x))] + ClassesAsked(0, |x.classes|));
            && (forall k | 0 <= k < |before| :: !before[k].SetStalled?)
            && (forall k | 0 <= k < |Tail(x)| :: !Tail(x)[k].SetStalled?)
  {
    hide Scan, ClassesAsked;
    AskedAreClasses(0, |x.classes|);
  }

  lemma RequestCallsAre(d: Device, x: Input, s: SetupPacket, stall: Call, answer: Call)
    requires x.event.DataEvent? && HandledFor(s) == [stall] && QuirkCalls(d, s) == []
    requires PipeCall(Answer(s, x)) == answer
    ensures RequestCalls(d, x, s) == [PipeCall(ReadOp(x))] + ClassesAsked(0, |x.classes|) + [stall, answer]
  {
    hide HandledFor, QuirkCalls, Answer, ClassesAsked;
    assert [stall] + [] == [stall] && [stall] + [answer] == [stall, answer];
  }

  lemma OneStall(before: seq<Call>, stall: Call, answer: Call, after: seq<Call>)
    requires forall k | 0 <= k < |before| :: !before[k].SetStalled?
    requires forall k | 0 <= k < |after| :: !after[k].SetStalled?
    requires !answer.SetStalled?
    ensures var log := before + ([stall, answer] + after);
            && log[|before|] == stall && log[|before| + 1] == answer
            && forall j | 0 <= j < |log| && log[j].SetStalled? :: j == |before|
  {
    var log := before + ([stall, answer] + after);
    assert forall j | 0 <= j < |before| :: log[j] == before[j];
    assert forall j | 0 <= j < |after| :: log[|before| + 2 + j] == after[j];
    assert forall j | |before| + 2 <= j < |log| :: log[j] == after[j - |before| - 2];
  }

  lemma OutPackets(all: seq<Event>, read: seq<Event>, answer: seq<Event>)
    requires |read| <= 2 && (forall k | 0 <= k < |read| :: !read[k].Wrote?)
    requires all == read + answer && |answer| <= 1
    ensures Writes(all) == if answer != [] && answer[0].Wrote? then [answer[0].data] else []
  {
    WritesAppend(read, answer);
    NoWrites(read);
    if answer != [] { WritesOfOne(answer[0]); }
  }
}

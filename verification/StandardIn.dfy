/**
 * What the host is told: the standard requests from the device that no class answers, from the bytes
 * of the SETUP packet to the packets on the bus (section 9.4 of USB 2.0). Descriptors are in EndToEnd.
 */
module StandardIn {
  import opened UsbTypes
  import opened Control
  import opened Bus
  import opened PipeModel
  import opened PipeIn
  import opened Dispatch
  import opened DeviceModel
  import opened DevicePipe
  import opened DeviceHistory
  import opened DeviceRequests
  import opened DeviceLog

  /** The device can answer with `n` bytes in one packet, and no class answers in its place. */
  ghost predicate CanAnswer(d: Device, x: Input, n: nat) {
    && Booked(d) && !d.halted
    && 8 <= |d.pipe.buf| && 0 < d.pipe.mps && n <= d.pipe.mps && n <= |d.pipe.buf| && d.pipe.staticBuf.None?
    && x.builtInTake.Takes? && n <= x.builtInTake.limit && Unanswered(x, In)
  }

  /** What the host has of an answer: no more than it has asked for. */
  function Cut(bytes: seq<byte>, length: nat): seq<byte> {
    bytes[..Min(|bytes|, length)]
  }

  lemma RequestKind(s: SetupPacket)
    requires 0x80 <= s.kind
    ensures var r := RequestOf(s);
            && r.direction.In?
            && (r.requestType.Standard? && r.recipient.Device? <==> s.kind == 0x80)
            && (r.requestType.Standard? && r.recipient.Interface? <==> s.kind == 0x81)
            && (r.requestType.Standard? && r.recipient.Endpoint? <==> s.kind == 0x82)
  {
    ParseBytes(s);
    assert s.kind == 0x20 * (s.kind / 0x20) + s.kind % 0x20;
  }

  /** A short answer goes out in the acceptance. */
  lemma AnswerBytes(p: Pipe, bytes: seq<byte>, t: Take)
    requires p.state.CompleteIn? && p.staticBuf.None? && p.mps > 0
    requires |bytes| <= p.mps && |bytes| <= |p.buf| && t.Takes? && |bytes| <= t.limit
    ensures var turn := Step(p, AcceptInOp(Copying(bytes, |p.buf|), t));
            var src := Cut(bytes, p.state.req.length);
            && turn.events == [AcceptedIn(src, None), Wrote(src)]
            && !turn.reply.Panicked? && !turn.pipe.Waiting()
  {
    var q := p.(buf := Overlay(p.buf, bytes));
    var src := Cut(bytes, p.state.req.length);
    assert q.buf[..|bytes|] == bytes && q.buf[0..|src|] == src && bytes[..|src|] == src;
  }

  lemma HostGets(d: Device, x: Input, s: SetupPacket, bytes: seq<byte>)
    requires CanAnswer(d, x, |bytes|) && 0x80 <= s.kind && SetupPoll(x, s)
    requires BuiltInIn(Before(d, x), RequestOf(s), x) == Some(AcceptInOp(Copying(bytes, |d.pipe.buf|), x.builtInTake))
    ensures PacketsOf(d, x) == [Cut(bytes, s.length)]
  {
    assert Booked(d) && !d.halted && Unanswered(x, In) && 0 < d.pipe.mps && d.pipe.staticBuf.None?
      && |bytes| <= d.pipe.mps && |bytes| <= |d.pipe.buf| && 8 <= |d.pipe.buf|
      && x.builtInTake.Takes? && |bytes| <= x.builtInTake.limit by { hide Booked, Unanswered; }
    hide *;
    var answer := AcceptInOp(Copying(bytes, |d.pipe.buf|), x.builtInTake);
    InRead(d, x, s);
    AnswerBytes(Holding(d.pipe, s), bytes, x.builtInTake);
    InRequest(d, x, s, answer);
    TwoSteps(d.pipe, SetupOp(x.offer), answer);
    var src := Cut(bytes, s.length);
    OnBusIs(d, x);
    assert OnBus(d, x) == [Unstalled, SetupTaken(RequestOf(s))] + [AcceptedIn(src, None), Wrote(src)];
    AnswerWritten([Unstalled, SetupTaken(RequestOf(s))], AcceptedIn(src, None), src);
    PacketsAre(d, x);
  }

  lemma AnswerWritten(before: seq<Event>, accepted: Event, bytes: seq<byte>)
    requires |before| <= 2 && (forall k | 0 <= k < |before| :: !before[k].Wrote?) && !accepted.Wrote?
    ensures Writes(before + [accepted, Wrote(bytes)]) == [bytes]
  {
    WritesAppend(before, [accepted, Wrote(bytes)]);
    NoWrites(before);
    WritesAppend([accepted], [Wrote(bytes)]);
    assert [accepted] + [Wrote(bytes)] == [accepted, Wrote(bytes)];
    WritesOfOne(accepted);
    WritesOfOne(Wrote(bytes));
  }

  /** The device awake: only the pipe has changed. */
  lemma BeforeFields(d: Device, x: Input, s: SetupPacket)
    requires Booked(d) && !d.halted && 8 <= |d.pipe.buf| && 0x80 <= s.kind && SetupPoll(x, s)
    ensures var e := Before(d, x);
            && e.state == Effective(d) && e.wakeup == d.wakeup && e.selfPowered == d.selfPowered
            && |e.pipe.buf| == |d.pipe.buf|
  {
    InRead(d, x, s);
    hide Brings, Step, Before;
  }

  /** GET_STATUS of the device. */
  lemma DeviceStatus(d: Device, x: Input, s: SetupPacket)
    requires CanAnswer(d, x, 2) && SetupPoll(x, s) && s.kind == 0x80 && s.request == 0
    ensures PacketsOf(d, x) == [Cut([(if d.selfPowered then 1 else 0) + (if d.wakeup then 2 else 0), 0], s.length)]
  {
    RequestKind(s);
    BeforeFields(d, x, s);
    hide Before, DirectionOf, TypeOf, RecipientOf, PacketsOf;
    HostGets(d, x, s, [(if d.selfPowered then 1 else 0) + (if d.wakeup then 2 else 0), 0]);
  }

  /** GET_STATUS of an interface. */
  lemma InterfaceStatus(d: Device, x: Input, s: SetupPacket)
    requires CanAnswer(d, x, 2) && SetupPoll(x, s) && s.kind == 0x81 && s.request == 0
    ensures PacketsOf(d, x) == [Cut([0, 0], s.length)]
  {
    RequestKind(s);
    BeforeFields(d, x, s);
    hide Before, DirectionOf, TypeOf, RecipientOf, PacketsOf;
    HostGets(d, x, s, [0, 0]);
  }

  /** GET_STATUS of an endpoint: the driver's word on the endpoint that the low byte of wIndex names. */
  lemma EndpointStatus(d: Device, x: Input, s: SetupPacket, low: bv8)
    requires CanAnswer(d, x, 2) && SetupPoll(x, s) && s.kind == 0x82 && s.request == 0 && s.index % 0x100 == low as int
    ensures PacketsOf(d, x) == [Cut([if (low & 0x8f) as int in x.stalled then 1 else 0, 0], s.length)]
  {
    RequestKind(s);
    BeforeFields(d, x, s);
    EndpointMask(s.index, low);
    hide Before, DirectionOf, TypeOf, RecipientOf, PacketsOf, EndpointOf;
    HostGets(d, x, s, [if EndpointOf(s.index) in x.stalled then 1 else 0, 0]);
  }

  /** GET_CONFIGURATION. */
  lemma ConfigurationValue(d: Device, x: Input, s: SetupPacket)
    requires CanAnswer(d, x, 1) && SetupPoll(x, s) && s.kind == 0x80 && s.request == 8
    ensures PacketsOf(d, x) == [Cut([if Effective(d).Configured? then 1 else 0], s.length)]
  {
    RequestKind(s);
    BeforeFields(d, x, s);
    hide Before, DirectionOf, TypeOf, RecipientOf, PacketsOf, Effective;
    HostGets(d, x, s, [if Effective(d).Configured? then 1 else 0]);
  }

  lemma {:induction false} FirstKnows(classes: seq<ClassScript>) returns (k: nat)
    ensures k <= |classes| && forall j | 0 <= j < k :: classes[j].altSetting.None?
    ensures k < |classes| ==> classes[k].altSetting.Some?
    ensures FirstAlt(classes) == if k == |classes| then 0 else classes[k].altSetting.value
  {
    if classes == [] || classes[0].altSetting.Some? {
      k := 0;
    } else {
      var i := FirstKnows(classes[1..]);
      k := i + 1;
      assert forall j | 0 < j < k :: classes[j] == classes[1..][j - 1];
    }
  }

  /** GET_INTERFACE of an interface number up to 255: the setting of the first class that knows it, or 0. */
  lemma InterfaceSetting(d: Device, x: Input, s: SetupPacket) returns (k: nat)
    requires CanAnswer(d, x, 1) && SetupPoll(x, s) && s.kind == 0x81 && s.request == 10 && s.index <= 255
    ensures k <= |x.classes| && forall j | 0 <= j < k :: x.classes[j].altSetting.None?
    ensures k < |x.classes| ==> x.classes[k].altSetting.Some?
    ensures PacketsOf(d, x) == [Cut([if k < |x.classes| then x.classes[k].altSetting.value else 0], s.length)]
  {
    RequestKind(s);
    BeforeFields(d, x, s);
    k := FirstKnows(x.classes);
    hide Before, DirectionOf, TypeOf, RecipientOf, PacketsOf, FirstAlt;
    HostGets(d, x, s, [FirstAlt(x.classes)]);
  }

  /** The requests the device has an answer to. */
  predicate Answerable(s: SetupPacket, x: Input) {
    || (s.kind == 0x80 && (s.request in {0, 8} || (s.request == 6 && !x.rendering.NoDescriptor?)))
    || (s.kind == 0x81 && (s.request == 0 || (s.request == 10 && s.index <= 255)))
    || (s.kind == 0x82 && s.request == 0)
  }

  lemma BuiltInAnswerable(d: Device, s: SetupPacket, x: Input)
    requires 0x80 <= s.kind
    ensures var answer := BuiltInIn(d, RequestOf(s), x);
            if Answerable(s, x) then
              answer.Some? && answer.value.AcceptInOp?
              && (answer.value.filler.count.Ok? ==> answer.value.filler.count.value <= |d.pipe.buf|)
            else answer.None? || answer == Some(RejectOp)
  {
    RequestKind(s);
    hide DirectionOf, TypeOf, RecipientOf, EndpointOf, FirstAlt;
  }

  /**
   * When endpoint 0 is stalled by a request from the device that no class answers, class and vendor
   * requests included: exactly when the device has no answer to it.
   */
  lemma InStalledIff(d: Device, x: Input, s: SetupPacket)
    requires Booked(d) && !d.halted && 8 <= |d.pipe.buf| && 0x80 <= s.kind && SetupPoll(x, s) && Unanswered(x, In)
    ensures Stalled in OnBus(d, x) <==> !Answerable(s, x)
    ensures !Answerable(s, x) ==>
              && OnBus(d, x) == [Unstalled, SetupTaken(RequestOf(s)), Stalled]
              && Poll(d, x).dev == Wake(d).dev.(pipe := Holding(d.pipe, s).(state := Error))
  {
    hide *;
    InRead(d, x, s);
    var e, q := Before(d, x), Holding(d.pipe, s);
    InUnanswered(d, x, s);
    BuiltInAnswerable(e, s, x);
    var answer := BuiltInIn(e, RequestOf(s), x);
    FinishIn(e, answer);
    OnBusIs(d, x);
    var op := if Answerable(s, x) then answer.value else RejectOp;
    OneOp(op);
    assert [SetupOp(x.offer)] + [op] == [SetupOp(x.offer), op];
    TwoSteps(d.pipe, SetupOp(x.offer), op);
    assert OnBus(d, x) == [Unstalled, SetupTaken(RequestOf(s))] + Step(q, op).events;
  }

  /** One answer, or a reject, settles an IN request; only a reject stalls. */
  lemma FinishIn(d: Device, answer: Option<Op>)
    requires d.pipe.state.CompleteIn? && !d.halted
    requires answer.None? || answer == Some(RejectOp)
          || (answer.value.AcceptInOp?
              && (answer.value.filler.count.Ok? ==> answer.value.filler.count.value <= |d.pipe.buf|))
    ensures var op := if answer.Some? then answer.value else RejectOp;
            && Finish(d, answer).calls == [PipeCall(op)]
            && (Stalled in Step(d.pipe, op).events <==> op.RejectOp?)
            && (op.RejectOp? ==> Step(d.pipe, op).events == [Stalled]
                                 && Finish(d, answer).dev == d.(pipe := d.pipe.(state := Error)))
  {
    hide Overlay;
  }

  /**
   * What the host is told of the configuration, after any run: the packet that answers
   * GET_CONFIGURATION is the byte 1 exactly when SET_CONFIGURATION(1) was the last change of state.
   */
  lemma HostIsToldConfiguration(d: Device, xs: seq<Input>, x: Input, s: SetupPacket)
    requires Built(d) && CanAnswer(RunDevice(d, xs).dev, x, 1) && SetupPoll(x, s) && s.kind == 0x80 && s.request == 8
    ensures var o := RunDevice(d, xs);
            PacketsOf(o.dev, x) == [Cut([if LastChange(o.calls) == Some(ConfigHandled(1)) then 1 else 0], s.length)]
  {
    hide *;
    ConfigurationHistory(d, xs);
    ConfigurationValue(RunDevice(d, xs).dev, x, s);
  }

  /**
   * And of remote wakeup: the bit in the answer to GET_STATUS is set exactly when the last word on it
   * since the last reset was SET_FEATURE.
   */
  lemma HostIsToldStatus(d: Device, xs: seq<Input>, x: Input, s: SetupPacket)
    requires Built(d) && CanAnswer(RunDevice(d, xs).dev, x, 2) && SetupPoll(x, s) && s.kind == 0x80 && s.request == 0
    ensures var o := RunDevice(d, xs);
            PacketsOf(o.dev, x)
            == [Cut([(if o.dev.selfPowered then 1 else 0)
                     + (if LastWakeup(o.calls) == Some(WakeupHandled(true)) then 2 else 0), 0], s.length)]
  {
    hide RunDevice, Recall, PacketsOf, CanAnswer, LastWakeup;
    var o := RunDevice(d, xs);
    HistoryAgrees(d, xs);
    RecallLastWakeup(o.calls, d.quirk);
    DeviceStatus(o.dev, x, s);
  }

  /**
   * And of an endpoint's halt: with a driver that reports what it was last told, the answer to
   * GET_STATUS of the endpoint is 1 exactly when the last halt request for it was SET_FEATURE.
   */
  lemma HostIsToldHalt(d: Device, xs: seq<Input>, x: Input, s: SetupPacket, low: bv8)
    requires Built(d) && CanAnswer(RunDevice(d, xs).dev, x, 2) && SetupPoll(x, s)
    requires s.kind == 0x82 && s.request == 0 && s.index % 0x100 == low as int
    requires (low & 0x8f) as int in x.stalled
             <==> LastStall(RunDevice(d, xs).calls, (low & 0x8f) as int) == Some(true)
    ensures PacketsOf(RunDevice(d, xs).dev, x)
         == [Cut([if LastStall(RunAsks(d, xs), (low & 0x8f) as int) == Some(true) then 1 else 0, 0], s.length)]
  {
    assert Booked(d);
    hide *;
    LastHaltIsLastRequest(d, xs, (low & 0x8f) as int);
    EndpointStatus(RunDevice(d, xs).dev, x, s, low);
  }
}

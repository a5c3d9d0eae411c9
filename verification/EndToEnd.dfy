/**
 * A descriptor from the classes to the host: the poll that brings GET_DESCRIPTOR, the writer that
 * fills the control buffer, the control pipe that sends it in packets, and the host that reads them.
 */
module EndToEnd {
  import opened UsbTypes
  import opened Control
  import opened Bus
  import opened PipeModel
  import opened PipeSafety
  import opened PipeIn
  import opened Dispatch
  import opened DeviceModel
  import opened DevicePipe
  import opened DeviceRequests
  import opened StandardIn
  import DescriptorModel
  import DescriptorRoundTrip
  import BosRoundTrip
  import GetDescriptor
  import DescriptorDecode

  /** What `get_descriptor` renders into the control buffer, as a device run is given it. */
  function RenderingOf(buf: seq<byte>, s: SetupPacket, f: GetDescriptor.Facts): Rendering {
    match GetDescriptor.Render(buf, RequestOf(s), f)
    case None => NoDescriptor
    case Some(n) =>
      match n.status
      case Good => Rendered(n.w.buf, n.w.position)
      case Bad(e) => RenderFailed(n.w.buf, e)
      case Panic => RenderPanics
  }

  /** The host sends no SETUP packet. */
  ghost predicate NoSetupPolls(xs: seq<Input>) {
    forall k | 0 <= k < |xs| && xs[k].event.DataEvent? :: !xs[k].event.pending.epSetup[0]
  }

  lemma NoSetupOps(p: Pipe, d: Device, xs: seq<Input>)
    requires NoSetupPolls(xs)
    ensures NoSetup(p, PipeOps(RunDevice(d, xs).calls))
  {
    RunMadeBy(d, xs);
    var ops := PipeOps(RunDevice(d, xs).calls);
    hide RunDevice, PipeOps;
    forall k | 0 <= k < |ops| ensures !ReadsSetup(p, ops[k]) {
      assert MadeBy(xs, ops[k]);
      var j :| 0 <= j < |xs| && MadeIn(xs[j], ops[k]);
    }
  }

  /** A device with a GET_DESCRIPTOR request coming that it will answer with a finished descriptor. */
  ghost predicate Answers(d: Device, x: Input, s: SetupPacket, f: GetDescriptor.Facts) {
    && Booked(d) && !d.halted && 8 <= |d.pipe.buf| && d.pipe.mps > 0 && d.pipe.staticBuf.None?
    && s.kind == 0x80 && s.request == 6
    && SetupPoll(x, s) && Unanswered(x, In)
    && DescriptorRoundTrip.HonestClasses(f.classes)
    && x.rendering == RenderingOf(Holding(d.pipe, s).buf, s, f)
    && x.rendering.Rendered?
  }

  lemma AnswerAccepted(p: Pipe, image: seq<byte>, position: nat, t: Take)
    requires p.state.CompleteIn? && p.state.req.direction.In? && p.mps > 0 && p.staticBuf.None?
    requires position <= |image| == |p.buf|
    ensures var answer := AcceptInOp(Filler(image, Ok(position)), t);
            var src := image[..Min(position, p.state.req.length)];
            var turn := Step(p, answer);
            && Accepts(p, answer, src)
            && !turn.reply.Panicked? && !turn.pipe.Waiting() && Sending(turn.pipe, src)
  {
    var answer := AcceptInOp(Filler(image, Ok(position)), t);
    var src := image[..Min(position, p.state.req.length)];
    assert Overlay(p.buf, image) == image by {
      assert p.buf[|image|..] == [];
    }
    StepSafe(p, answer);
    hide Step;
    AcceptedSending(p, answer, src);
  }

  /** What goes out after the acceptance, in any run without a SETUP packet. */
  lemma AnswerSent(p: Pipe, image: seq<byte>, position: nat, t: Take, ops: seq<Op>)
    requires p.state.CompleteIn? && p.state.req.direction.In? && p.mps > 0 && p.staticBuf.None?
    requires position <= |image| == |p.buf|
    requires NoSetup(Step(p, AcceptInOp(Filler(image, Ok(position)), t)).pipe, ops)
    ensures var run := [AcceptInOp(Filler(image, Ok(position)), t)] + ops;
            var sent := Flatten(Writes(Events(p, run)));
            var whole := image[..Min(position, p.state.req.length)];
            && sent <= whole
            && (Run(p, run).state.DataInLast? || Run(p, run).state.StatusOut? ==> sent == whole)
  {
    hide Step, Run, Events, Sending, Accepts, Flatten, Writes, NoSetup;
    var answer := AcceptInOp(Filler(image, Ok(position)), t);
    var src := image[..Min(position, p.state.req.length)];
    AnswerAccepted(p, image, position, t);
    NoSetupCalm(Step(p, answer).pipe, ops, src);
    LosslessIn(p, answer, src, ops);
  }

  /**
   * Whatever descriptor is asked for. From the poll that brings the request on, however the driver
   * refuses or splits the packets and whatever else is polled, what has gone out is a first part of
   * the descriptor's first wLength bytes, and all of them once the data stage is over.
   */
  lemma HostReadsDescriptor(d: Device, x: Input, s: SetupPacket, f: GetDescriptor.Facts, xs: seq<Input>)
    requires Answers(d, x, s, f) && NoSetupPolls(xs)
    ensures x.rendering.position <= |x.rendering.image|
    ensures var run := RunDevice(d, [x] + xs);
            var sent := Flatten(Writes(Events(d.pipe, PipeOps(run.calls))));
            var whole := x.rendering.image[..Min(x.rendering.position, s.length)];
            && sent <= whole
            && (run.dev.pipe.state.DataInLast? || run.dev.pipe.state.StatusOut? ==> sent == whole)
  {
    hide *;
    AnswersMeans(d, x, s, f);
    var image, position := x.rendering.image, x.rendering.position;
    var p := Holding(d.pipe, s);
    var answer := AcceptInOp(Filler(image, Ok(position)), x.builtInTake);
    AnswerAccepted(p, image, position, x.builtInTake);
    AnswerPolled(d, x, s, answer);
    var ops := RunAfter(d, x, [SetupOp(x.offer), answer], Step(p, answer).pipe, xs);
    AnswerSent(p, image, position, x.builtInTake, ops);
    assert [SetupOp(x.offer), answer] + ops == [SetupOp(x.offer)] + ([answer] + ops);
    AfterSetup(d, x, s, [answer] + ops);
  }

  lemma AnswersMeans(d: Device, x: Input, s: SetupPacket, f: GetDescriptor.Facts)
    requires Answers(d, x, s, f)
    ensures Booked(d) && !d.halted && 8 <= |d.pipe.buf|
    ensures s.kind == 0x80 && s.request == 6 && RequestOf(s).direction.In? && RequestOf(s).length == s.length
    ensures SetupPoll(x, s) && Unanswered(x, In)
    ensures x.rendering.Rendered? && x.rendering.position <= |x.rendering.image| == |d.pipe.buf|
    ensures var p := Holding(d.pipe, s);
            && p.state == CompleteIn(RequestOf(s)) && p.mps == d.pipe.mps > 0
            && p.staticBuf.None? && |p.buf| == |d.pipe.buf|
  {
    GetDescriptor.RenderFits(Holding(d.pipe, s).buf, RequestOf(s), f);
    hide GetDescriptor.Render;
  }

  lemma AnswerPolled(d: Device, x: Input, s: SetupPacket, answer: Op)
    requires Booked(d) && !d.halted && 8 <= |d.pipe.buf|
    requires s.kind == 0x80 && s.request == 6 && SetupPoll(x, s) && Unanswered(x, In)
    requires x.rendering.Rendered? && x.rendering.position <= |x.rendering.image| == |d.pipe.buf|
    requires answer == AcceptInOp(Filler(x.rendering.image, Ok(x.rendering.position)), x.builtInTake)
    requires var t := Step(Holding(d.pipe, s), answer); !t.reply.Panicked? && !t.pipe.Waiting()
    ensures PipeOps(Poll(d, x).calls) == [SetupOp(x.offer), answer]
  {
    hide Step, Poll, PipeOps;
    BeforeFields(d, x, s);
    DescriptorAnswer(d, x, s);
    hide Holding, Before, BuiltInIn;
    InRequest(d, x, s, answer);
  }

  /** A poll whose pipe operations are known, and the polls after it. */
  lemma RunAfter(d: Device, x: Input, first: seq<Op>, p: Pipe, xs: seq<Input>) returns (ops: seq<Op>)
    requires Booked(d) && NoSetupPolls(xs) && PipeOps(Poll(d, x).calls) == first
    ensures NoSetup(p, ops)
    ensures var run := RunDevice(d, [x] + xs);
            PipeOps(run.calls) == first + ops && run.dev.pipe == Run(d.pipe, first + ops)
  {
    hide Poll, RunDevice, PipeOps, Run;
    var after := Poll(d, x).dev;
    ops := PipeOps(RunDevice(after, xs).calls);
    NoSetupOps(p, after, xs);
    FirstPoll(d, x, xs);
    DeviceRunIsPipeRun(d, [x] + xs);
  }

  lemma DescriptorAnswer(d: Device, x: Input, s: SetupPacket)
    requires s.kind == 0x80 && s.request == 6 && SetupPoll(x, s)
    requires x.rendering.Rendered? && x.rendering.position <= |x.rendering.image| == |Before(d, x).pipe.buf|
    ensures BuiltInIn(Before(d, x), RequestOf(s), x)
         == Some(AcceptInOp(Filler(x.rendering.image, Ok(x.rendering.position)), x.builtInTake))
  {
  }

  lemma FirstPoll(d: Device, x: Input, xs: seq<Input>)
    ensures var first := Poll(d, x);
            var rest := RunDevice(first.dev, xs);
            PipeOps(RunDevice(d, [x] + xs).calls) == PipeOps(first.calls) + PipeOps(rest.calls)
  {
    hide Poll;
    assert ([x] + xs)[1..] == xs;
    PipeOpsAppend(Poll(d, x).calls, RunDevice(Poll(d, x).dev, xs).calls);
  }

  lemma AfterSetup(d: Device, x: Input, s: SetupPacket, ops: seq<Op>)
    requires 8 <= |d.pipe.buf| && 0x80 <= s.kind && SetupPoll(x, s)
    ensures Writes(Events(d.pipe, [SetupOp(x.offer)] + ops)) == Writes(Events(Holding(d.pipe, s), ops))
    ensures Run(d.pipe, [SetupOp(x.offer)] + ops) == Run(Holding(d.pipe, s), ops)
  {
    SetupRead(d.pipe, s);
    hide Step, Holding;
    assert ([SetupOp(x.offer)] + ops)[1..] == ops;
    JoinWrites(d.pipe, [SetupOp(x.offer)] + ops);
    NoWrites([Unstalled, SetupTaken(RequestOf(s))]);
    assert [] + Writes(Events(Holding(d.pipe, s), ops)) == Writes(Events(Holding(d.pipe, s), ops));
  }

  /** The host has it all: the data stage is over and had room for the whole descriptor. */
  ghost predicate Received(d: Device, x: Input, s: SetupPacket, xs: seq<Input>, bytes: seq<byte>) {
    var run := RunDevice(d, [x] + xs);
    && (run.dev.pipe.state.DataInLast? || run.dev.pipe.state.StatusOut?)
    && x.rendering.Rendered? && x.rendering.position <= s.length
    && bytes == Flatten(Writes(Events(d.pipe, PipeOps(run.calls))))
  }

  lemma ReceivedWhole(d: Device, x: Input, s: SetupPacket, f: GetDescriptor.Facts, xs: seq<Input>, bytes: seq<byte>)
    requires Answers(d, x, s, f) && NoSetupPolls(xs) && Received(d, x, s, xs, bytes)
    ensures var w := GetDescriptor.Render(Holding(d.pipe, s).buf, RequestOf(s), f).value.w;
            w.position == |bytes| <= |w.buf| && bytes == DescriptorRoundTrip.Written(w)
  {
    HostReadsDescriptor(d, x, s, f, xs);
    GetDescriptor.RenderFits(Holding(d.pipe, s).buf, RequestOf(s), f);
    hide GetDescriptor.Render, RunDevice, PipeOps, Writes, Events, Flatten, Holding;
  }

  /** The device descriptor: the host decodes the device's identity and the indexes of its strings. */
  lemma HostReadsDevice(d: Device, x: Input, s: SetupPacket, f: GetDescriptor.Facts, xs: seq<Input>, bytes: seq<byte>)
    requires Answers(d, x, s, f) && NoSetupPolls(xs) && Received(d, x, s, xs, bytes) && s.value / 0x100 == 1
    ensures var i, first := f.identity, if f.languages == [] then None else Some(f.languages[0]);
            && |bytes| == 18 && bytes[0] == 18
            && DescriptorDecode.Decode(bytes)
               == DescriptorDecode.DeviceDescriptor(
                    i.usbRev, i.cls, i.sub, i.protocol, i.mps0, i.vendor, i.product, i.release,
                    if first.Some? && first.value.manufacturer.Some? then 1 else 0,
                    if first.Some? && first.value.product.Some? then 2 else 0,
                    if first.Some? && first.value.serial.Some? then 3 else 0, 1)
  {
    ReceivedWhole(d, x, s, f, xs, bytes);
    RenderedWrite(d, x, s, f, 1, GetDescriptor.DeviceBytes(f));
    hide *;
    DescriptorDecode.DeviceDecodes(Holding(d.pipe, s).buf, f);
  }

  /**
   * The configuration descriptor: the host walks it block by block, and the blocks decode to the
   * configuration and to every call of every class, with all their fields.
   */
  lemma HostReadsConfiguration(d: Device, x: Input, s: SetupPacket, f: GetDescriptor.Facts, xs: seq<Input>,
                               bytes: seq<byte>)
    requires Answers(d, x, s, f) && NoSetupPolls(xs) && Received(d, x, s, xs, bytes)
    requires s.value / 0x100 == 2 && DescriptorRoundTrip.ShortClasses(f.classes)
    ensures DescriptorRoundTrip.Walk(bytes).Some?
    ensures DescriptorDecode.ConfigurationTold(DescriptorRoundTrip.Walk(bytes).value, f.config, f.classes, |bytes|)
  {
    hide *;
    ReceivedWhole(d, x, s, f, xs, bytes);
    ConfigRendered(d, x, s, f);
    DescriptorDecode.ConfigDecodes(Holding(d.pipe, s).buf, f.config, f.classes);
  }

  lemma ConfigRendered(d: Device, x: Input, s: SetupPacket, f: GetDescriptor.Facts)
    requires Answers(d, x, s, f) && s.value / 0x100 == 2
    ensures DescriptorRoundTrip.HonestClasses(f.classes)
    ensures GetDescriptor.Render(Holding(d.pipe, s).buf, RequestOf(s), f)
         == Some(DescriptorModel.Assemble(Holding(d.pipe, s).buf, f.config, f.classes))
    ensures DescriptorModel.Assemble(Holding(d.pipe, s).buf, f.config, f.classes).status.Good?
  {
    hide DescriptorModel.Assemble, DescriptorRoundTrip.HonestClasses, Holding;
  }

  /**
   * The BOS descriptor of a device that has one: the host walks to its header, the USB 2.0 extension
   * and all the capabilities that fit, and decodes them.
   */
  lemma HostReadsBos(d: Device, x: Input, s: SetupPacket, f: GetDescriptor.Facts, xs: seq<Input>, bytes: seq<byte>)
    requires Answers(d, x, s, f) && NoSetupPolls(xs) && Received(d, x, s, xs, bytes) && s.value / 0x100 == 15
    ensures f.identity.usbRev > 0x200 && DescriptorRoundTrip.Walk(bytes).Some?
    ensures DescriptorDecode.BosTold(DescriptorRoundTrip.Walk(bytes).value, |f.caps|,
                                     BosRoundTrip.Chosen(f.caps, |d.pipe.buf| - 12), |bytes|)
  {
    hide *;
    ReceivedWhole(d, x, s, f, xs, bytes);
    BosRendered(d, x, s, f);
    DescriptorDecode.BosDecodes(Holding(d.pipe, s).buf, f.caps);
  }

  lemma BosRendered(d: Device, x: Input, s: SetupPacket, f: GetDescriptor.Facts)
    requires Answers(d, x, s, f) && s.value / 0x100 == 15
    ensures f.identity.usbRev > 0x200
    ensures |Holding(d.pipe, s).buf| == |d.pipe.buf|
    ensures GetDescriptor.Render(Holding(d.pipe, s).buf, RequestOf(s), f)
         == Some(DescriptorModel.AssembleBos(Holding(d.pipe, s).buf, f.caps))
    ensures DescriptorModel.AssembleBos(Holding(d.pipe, s).buf, f.caps).status.Good?
  {
    hide DescriptorModel.AssembleBos;
  }

  /** String descriptor 0: the host reads the identifiers of the languages. */
  lemma HostReadsLanguages(d: Device, x: Input, s: SetupPacket, f: GetDescriptor.Facts, xs: seq<Input>,
                           bytes: seq<byte>)
    requires Answers(d, x, s, f) && NoSetupPolls(xs) && Received(d, x, s, xs, bytes)
    requires s.value == 0x300 && |f.languages| <= 126
    ensures BosRoundTrip.ReadString(bytes) == Some(DescriptorDecode.Ids(f.languages))
  {
    ReceivedWhole(d, x, s, f, xs, bytes);
    RenderedWrite(d, x, s, f, 3, GetDescriptor.LanguageIds(f.languages));
    hide *;
    DescriptorDecode.LanguagesDecode(Holding(d.pipe, s).buf, f);
  }

  /**
   * Any other string descriptor: there is a string that the index and the language select, and the
   * host reads it exactly when it has at most 126 code units.
   */
  lemma HostReadsString(d: Device, x: Input, s: SetupPacket, f: GetDescriptor.Facts, xs: seq<Input>, bytes: seq<byte>)
    returns (units: seq<u16>)
    requires Answers(d, x, s, f) && NoSetupPolls(xs) && Received(d, x, s, xs, bytes)
    requires s.value / 0x100 == 3 && s.value % 0x100 != 0
    ensures GetDescriptor.Selects(f, s.value % 0x100, s.index, units)
    ensures BosRoundTrip.ReadString(bytes) == Some(units) <==> |units| <= 126
  {
    ReceivedWhole(d, x, s, f, xs, bytes);
    var buf := Holding(d.pipe, s).buf;
    units := GetDescriptor.FindString(f, s.value % 0x100, s.index).value;
    GetDescriptor.SelectsIff(f, s.value % 0x100, s.index, units);
    BosRoundTrip.StringRoundTrip(DescriptorModel.Fresh(buf), units);
    hide DescriptorModel.WriteString, Received, BosRoundTrip.ReadString;
    hide GetDescriptor.FindString, GetDescriptor.Selects;
  }

  /** A descriptor that is written in one piece. */
  lemma RenderedWrite(d: Device, x: Input, s: SetupPacket, f: GetDescriptor.Facts, dtype: byte, data: seq<byte>)
    requires Answers(d, x, s, f)
    requires (s.value / 0x100 == 1 == dtype && data == GetDescriptor.DeviceBytes(f))
          || (s.value == 0x300 && dtype == 3 && data == GetDescriptor.LanguageIds(f.languages))
    ensures GetDescriptor.Render(Holding(d.pipe, s).buf, RequestOf(s), f)
         == Some(DescriptorModel.Write(DescriptorModel.Fresh(Holding(d.pipe, s).buf), dtype, data))
    ensures DescriptorModel.Write(DescriptorModel.Fresh(Holding(d.pipe, s).buf), dtype, data).status.Good?
  {
    hide GetDescriptor.DeviceBytes, GetDescriptor.LanguageIds, DescriptorModel.Write, Holding;
  }

  /**
   * A request that no class answers is stalled exactly when there is no such descriptor: its type is
   * none of DEVICE, CONFIGURATION and STRING, nor BOS on a device above USB 2.0, or its index and
   * language select no string.
   */
  lemma DescriptorRefusedIff(d: Device, x: Input, s: SetupPacket, f: GetDescriptor.Facts)
    requires Booked(d) && !d.halted && 8 <= |d.pipe.buf| && SetupPoll(x, s) && Unanswered(x, In)
    requires s.kind == 0x80 && s.request == 6 && x.rendering == RenderingOf(Holding(d.pipe, s).buf, s, f)
    ensures Stalled in OnBus(d, x) <==> !GetDescriptor.Exists(s, f)
  {
    hide *;
    InStalledIff(d, x, s);
    GetDescriptor.RefusedIff(Holding(d.pipe, s).buf, s, f);
    RenderingIs(Holding(d.pipe, s).buf, s, f);
    assert Answerable(s, x) <==> !x.rendering.NoDescriptor? by { DescriptorAnswerable(s, x); }
  }

  lemma DescriptorAnswerable(s: SetupPacket, x: Input)
    requires s.kind == 0x80 && s.request == 6
    ensures Answerable(s, x) <==> !x.rendering.NoDescriptor?
  {
  }

  lemma RenderingIs(buf: seq<byte>, s: SetupPacket, f: GetDescriptor.Facts)
    ensures RenderingOf(buf, s, f).NoDescriptor? <==> GetDescriptor.Render(buf, RequestOf(s), f).None?
  {
    hide GetDescriptor.Render, RequestOf;
  }

  /** A poll that reports only that an EP0-IN packet has gone, with a driver that takes the next one whole. */
  function Completion(m: nat): Input {
    var none := seq(16, _ => false);
    Input(DataEvent(Pending(none, none[0 := true], none)), [], NoRead(WouldBlock), Takes(m), Takes(m),
          NoDescriptor, {})
  }

  function Completions(n: nat, m: nat): seq<Input> {
    seq(n, _ => Completion(m))
  }

  lemma CompletionPoll(d: Device, src: seq<byte>)
    requires Booked(d) && !d.halted && Sending(d.pipe, src)
    ensures var m := d.pipe.mps;
            var o := Poll(d, Completion(m));
            && PipeOps(o.calls) == [InDoneOp(Takes(m))] && !o.dev.halted && Booked(o.dev)
            && o.dev.pipe == Step(d.pipe, InDoneOp(Takes(m))).pipe && Sending(o.dev.pipe, src) && o.dev.pipe.mps == m
  {
    var m := d.pipe.mps;
    var x, op := Completion(m), InDoneOp(Takes(m));
    SendStep(d.pipe, op, src);
    StepKeepsBufferSize(d.pipe, op);
    DataPoll(d, x);
    PollKeepsBooks(d, x);
    var w := Wake(d).dev;
    assert Ep0InComplete(w, x).dev.pipe == Step(w.pipe, op).pipe && !Ep0InComplete(w, x).dev.halted
      && PipeOps(Ep0InComplete(w, x).calls) == [op] by { CompletionOnly(w, x, src); }
    hide Poll, Step, Ep0InComplete, PipeOps, Sending;
    assert Endpoint0(w, x.event.pending, x) == Ep0InComplete(w, x) by { CompletionMask(m); }
  }

  lemma CompletionMask(m: nat)
    ensures var ev := Completion(m).event.pending;
            All(ev)[0] && !ev.epSetup[0] && !ev.epOut[0] && ev.epInComplete[0]
  {
  }

  lemma CompletionOnly(w: Device, x: Input, src: seq<byte>)
    requires !w.halted && Sending(w.pipe, src)
    ensures var o := Ep0InComplete(w, x);
            && o.dev.pipe == Step(w.pipe, InDoneOp(x.inTake)).pipe && !o.dev.halted
            && PipeOps(o.calls) == [InDoneOp(x.inTake)]
  {
    var op := InDoneOp(x.inTake);
    OneOp(op);
    assert !Step(w.pipe, op).reply.Panicked? && !Step(w.pipe, op).reply.StatusDone?;
    hide Step, PipeOps;
  }

  lemma {:induction false} CompletionsRun(d: Device, src: seq<byte>, n: nat)
    requires Booked(d) && !d.halted && Sending(d.pipe, src)
    ensures PipeOps(RunDevice(d, Completions(n, d.pipe.mps)).calls) == FullWrites(n, d.pipe.mps)
    decreases n
  {
    if n > 0 {
      hide Poll, Sending, Step;
      var m := d.pipe.mps;
      CompletionPoll(d, src);
      var next := Poll(d, Completion(m)).dev;
      CompletionsRun(next, src, n - 1);
      assert Completions(n, m) == [Completion(m)] + Completions(n - 1, m);
      FirstPoll(d, Completion(m), Completions(n - 1, m));
      assert FullWrites(n, m) == [InDoneOp(Takes(m))] + FullWrites(n - 1, m);
    }
  }

  /** A poll that brings the request, on its own, to a device with no classes. */
  function RequestPoll(d: Device, s: SetupPacket, f: GetDescriptor.Facts): Input {
    var none := seq(16, _ => false);
    Completion(d.pipe.mps).(
      event := DataEvent(Pending(none, none, none[0 := true])),
      offer := Packet(s.Bytes()),
      rendering := RenderingOf(Holding(d.pipe, s).buf, s, f))
  }

  /** The device has a finished descriptor to answer the request with, no longer than asked for. */
  ghost predicate HasAnswer(d: Device, s: SetupPacket, f: GetDescriptor.Facts) {
    && Booked(d) && !d.halted && 8 <= |d.pipe.buf| && d.pipe.mps > 0 && d.pipe.staticBuf.None?
    && s.kind == 0x80 && s.request == 6
    && DescriptorRoundTrip.HonestClasses(f.classes)
    && var n := GetDescriptor.Render(Holding(d.pipe, s).buf, RequestOf(s), f);
       n.Some? && n.value.status.Good? && n.value.w.position <= s.length
  }

  lemma RequestPollAnswers(d: Device, s: SetupPacket, f: GetDescriptor.Facts)
    requires HasAnswer(d, s, f)
    ensures var x := RequestPoll(d, s, f);
            Answers(d, x, s, f) && x.rendering.position <= s.length && x.builtInTake == Takes(d.pipe.mps)
  {
    hide GetDescriptor.Render, Holding, DescriptorRoundTrip.HonestClasses;
  }

  /**
   * And the host can have it: any descriptor that the device renders, whatever its length, from any
   * state of the device with no static buffer left over, after one poll for the request and one for
   * each full packet.
   */
  lemma HostCanRead(d: Device, s: SetupPacket, f: GetDescriptor.Facts) returns (xs: seq<Input>, bytes: seq<byte>)
    requires HasAnswer(d, s, f)
    ensures var x := RequestPoll(d, s, f);
            Answers(d, x, s, f) && NoSetupPolls(xs) && Received(d, x, s, xs, bytes)
  {
    hide *;
    var x := RequestPoll(d, s, f);
    RequestPollAnswers(d, s, f);
    AnswersMeans(d, x, s, f);
    var n := x.rendering.position / d.pipe.mps;
    xs := Completions(n, d.pipe.mps);
    CompletionsHaveNoSetup(n, d.pipe.mps);
    DescriptorSent(d, x, s, f, n);
    bytes := EndReceived(d, x, s, xs);
  }

  lemma CompletionsHaveNoSetup(n: nat, m: nat)
    ensures NoSetupPolls(Completions(n, m))
  {
    CompletionMask(m);
  }

  lemma EndReceived(d: Device, x: Input, s: SetupPacket, xs: seq<Input>) returns (bytes: seq<byte>)
    requires RunDevice(d, [x] + xs).dev.pipe.state.DataInLast?
    requires x.rendering.Rendered? && x.rendering.position <= s.length
    ensures Received(d, x, s, xs, bytes)
  {
    hide RunDevice, PipeOps, Events, Writes, Flatten;
    bytes := Flatten(Writes(Events(d.pipe, PipeOps(RunDevice(d, [x] + xs).calls))));
  }

  lemma DescriptorSent(d: Device, x: Input, s: SetupPacket, f: GetDescriptor.Facts, n: nat)
    requires Answers(d, x, s, f) && x.builtInTake == Takes(d.pipe.mps) && x.rendering.position <= s.length
    requires d.pipe.mps > 0 && n == x.rendering.position / d.pipe.mps
    ensures RunDevice(d, [x] + Completions(n, d.pipe.mps)).dev.pipe.state.DataInLast?
  {
    AnswersMeans(d, x, s, f);
    hide *;
    var p := Holding(d.pipe, s);
    var answer := AcceptInOp(Filler(x.rendering.image, Ok(x.rendering.position)), x.builtInTake);
    var src := x.rendering.image[..x.rendering.position];
    SentWhole(d, x, s, answer, src);
    AnswerPolled(d, x, s, answer);
    AnswerEnds(p, answer, src);
    SameEnd(d, x, s, answer, src, n);
  }

  lemma SameEnd(d: Device, x: Input, s: SetupPacket, answer: Op, src: seq<byte>, n: nat)
    requires Booked(d) && 8 <= |d.pipe.buf| && 0x80 <= s.kind && SetupPoll(x, s)
    requires PipeOps(Poll(d, x).calls) == [SetupOp(x.offer), answer]
    requires var next := Poll(d, x).dev;
             Booked(next) && !next.halted && Sending(next.pipe, src) && next.pipe.mps == d.pipe.mps
    ensures RunDevice(d, [x] + Completions(n, d.pipe.mps)).dev.pipe
         == Run(Holding(d.pipe, s), [answer] + FullWrites(n, d.pipe.mps))
  {
    hide *;
    var m := d.pipe.mps;
    CompletionsRun(Poll(d, x).dev, src, n);
    FirstPoll(d, x, Completions(n, m));
    BooksOf(d, [x] + Completions(n, m));
    assert [SetupOp(x.offer), answer] + FullWrites(n, m) == [SetupOp(x.offer)] + ([answer] + FullWrites(n, m));
    AfterSetup(d, x, s, [answer] + FullWrites(n, m));
  }

  lemma BooksOf(d: Device, xs: seq<Input>)
    requires Booked(d)
    ensures RunDevice(d, xs).dev.pipe == Run(d.pipe, PipeOps(RunDevice(d, xs).calls))
  {
    DeviceRunIsPipeRun(d, xs);
    hide RunDevice, PipeOps, Run;
  }

  /** The acceptance, and the device after it. */
  lemma SentWhole(d: Device, x: Input, s: SetupPacket, answer: Op, src: seq<byte>)
    requires Booked(d) && !d.halted && 8 <= |d.pipe.buf|
    requires s.kind == 0x80 && s.request == 6 && SetupPoll(x, s) && Unanswered(x, In)
    requires x.rendering.Rendered? && x.rendering.position <= |x.rendering.image| == |d.pipe.buf|
    requires answer == AcceptInOp(Filler(x.rendering.image, Ok(x.rendering.position)), x.builtInTake)
    requires x.rendering.position <= s.length && src == x.rendering.image[..x.rendering.position]
    requires var p := Holding(d.pipe, s);
             p.state == CompleteIn(RequestOf(s)) && p.mps > 0 && p.staticBuf.None? && |p.buf| == |d.pipe.buf|
    ensures var p, next := Holding(d.pipe, s), Poll(d, x).dev;
            && Accepts(p, answer, src)
            && !Step(p, answer).reply.Panicked? && !Step(p, answer).pipe.Waiting()
            && Booked(next) && !next.halted && Sending(next.pipe, src) && next.pipe.mps == p.mps
  {
    hide Step, Poll, Sending, Accepts;
    var p := Holding(d.pipe, s);
    assert Min(x.rendering.position, s.length) == x.rendering.position;
    AnswerAccepted(p, x.rendering.image, x.rendering.position, x.builtInTake);
    StepKeepsBufferSize(p, answer);
    InRead(d, x, s);
    DescriptorAnswer(d, x, s);
    PollKeepsBooks(d, x);
    hide Holding, BuiltInIn;
    InRequest(d, x, s, answer);
  }
}

/** One control request, from the poll that brings it: who is asked, who answers, and what the pipe does. */
module DeviceRequests {
  import opened UsbTypes
  import opened Control
  import opened Bus
  import opened PipeModel
  import opened PipeIn
  import opened Dispatch
  import opened DeviceModel
  import opened DevicePipe
  import opened DeviceAnswers

  /** A poll that brings a SETUP packet, with whatever else is pending. */
  predicate SetupPoll(x: Input, s: SetupPacket) {
    x.event.DataEvent? && x.event.pending.epSetup[0] && x.offer == Packet(s.Bytes())
  }

  /** The poll completes the request of this SETUP packet: it brings the packet itself, or the last of its data. */
  predicate Brings(d: Device, x: Input, s: SetupPacket) {
    BringsRequest(d, x) && Step(d.pipe, ReadOp(x)).reply == Got(RequestOf(s))
  }

  /** The pipe after it has read the packet. */
  function Holding(p: Pipe, s: SetupPacket): Pipe {
    var q := p.(buf := Overlay(p.buf, s.Bytes()));
    if 0x80 <= s.kind then q.(state := CompleteIn(RequestOf(s))) else q.(len := 0, state := CompleteOut)
  }

  lemma SetupRead(p: Pipe, s: SetupPacket)
    requires 8 <= |p.buf| && (0x80 <= s.kind || s.length == 0)
    ensures var t := Step(p, SetupOp(Packet(s.Bytes())));
            && t.pipe == Holding(p, s) && t.reply == Got(RequestOf(s))
            && t.events == [Unstalled, SetupTaken(RequestOf(s))]
  {
    ParseBytes(s);
    hide Parse;
  }

  lemma SetupBrings(d: Device, x: Input, s: SetupPacket)
    requires 8 <= |d.pipe.buf| && (0x80 <= s.kind || s.length == 0) && SetupPoll(x, s)
    ensures Brings(d, x, s) && ReadOp(x) == SetupOp(Packet(s.Bytes()))
  {
    SetupRead(d.pipe, s);
  }

  /** The device, awake, with the request before it. */
  function Before(d: Device, x: Input): Device
    requires x.event.DataEvent?
  {
    Do(Wake(d).dev, ReadOp(x))
  }

  lemma BeforeMeans(d: Device, x: Input, s: SetupPacket)
    requires Booked(d) && !d.halted && Brings(d, x, s)
    ensures var e := Before(d, x);
            && e == Wake(d).dev.(pipe := Step(d.pipe, ReadOp(x)).pipe)
            && !e.halted && e.pipe.Waiting() && (s.kind < 0x80 ==> e.pipe.state.CompleteOut?)
  {
    hide Parse, Overlay;
  }

  /** The calls of a poll after those for endpoint 0. */
  function Tail(x: Input): seq<Call>
    requires x.event.DataEvent?
  {
    EndpointCalls(Scan(x.event.pending, 1, |x.classes|)) + PollClasses(|x.classes|)
  }

  lemma DataPollCalls(d: Device, x: Input)
    requires Booked(d) && !d.halted && x.event.DataEvent?
    ensures var a := Endpoint0(Wake(d).dev, x.event.pending, x);
            && Poll(d, x).dev == a.dev
            && Poll(d, x).calls == Wake(d).calls + (a.calls + if a.dev.halted then [] else Tail(x))
  {
    hide Endpoint0, Scan, PollClasses, EndpointCalls;
    var a := Endpoint0(Wake(d).dev, x.event.pending, x);
    Assoc(a.calls, EndpointCalls(Scan(x.event.pending, 1, |x.classes|)), PollClasses(|x.classes|));
    assert a.calls + [] == a.calls;
  }

  /** Of a data event, the pipe sees what endpoint 0 does. */
  lemma DataPoll(d: Device, x: Input)
    requires Booked(d) && !d.halted && x.event.DataEvent?
    ensures var a := Endpoint0(Wake(d).dev, x.event.pending, x);
            Poll(d, x).dev == a.dev && PipeOps(Poll(d, x).calls) == PipeOps(a.calls)
  {
    hide *;
    var a := Endpoint0(Wake(d).dev, x.event.pending, x);
    var tail := if a.dev.halted then [] else Tail(x);
    DataPollCalls(d, x);
    NoOpsAround(d, x, a.dev.halted);
    PipeOpsAppend(Wake(d).calls, a.calls + tail);
    PipeOpsAppend(a.calls, tail);
    assert [] + (PipeOps(a.calls) + []) == PipeOps(a.calls);
  }

  lemma NoOpsAround(d: Device, x: Input, halted: bool)
    requires x.event.DataEvent?
    ensures PipeOps(Wake(d).calls) == [] && PipeOps(if halted then [] else Tail(x)) == []
  {
    hide Scan;
    NoPipeOps(Wake(d).calls);
    NoPipeOps(if halted then [] else Tail(x));
  }

  /** What the poll of a request comes to: its handling, and nothing else of endpoint 0. */
  lemma RequestHandled(d: Device, x: Input, s: SetupPacket)
    requires Booked(d) && !d.halted && Brings(d, x, s)
    ensures var e := Before(d, x);
            Endpoint0(Wake(d).dev, x.event.pending, x)
            == Outcome(ControlRequest(e, RequestOf(s), x).dev,
                       [PipeCall(ReadOp(x))] + ControlRequest(e, RequestOf(s), x).calls)
  {
    BeforeMeans(d, x, s);
    assert All(x.event.pending)[0];
    hide Step, ControlIn, ControlOut;
  }

  lemma RequestPoll(d: Device, x: Input, s: SetupPacket)
    requires Booked(d) && !d.halted && Brings(d, x, s)
    ensures var o := ControlRequest(Before(d, x), RequestOf(s), x);
            && Poll(d, x).dev == o.dev
            && PipeOps(Poll(d, x).calls) == [ReadOp(x)] + PipeOps(o.calls)
  {
    hide *;
    BringsMeans(d, x, s);
    var o := ControlRequest(Before(d, x), RequestOf(s), x);
    DataPoll(d, x);
    RequestHandled(d, x, s);
    PipeOpsAppend([PipeCall(ReadOp(x))], o.calls);
    OneOp(ReadOp(x));
  }

  lemma BringsMeans(d: Device, x: Input, s: SetupPacket)
    requires Brings(d, x, s)
    ensures x.event.DataEvent?
  {
  }

  lemma OneOp(op: Op)
    ensures PipeOps([PipeCall(op)]) == [op]
  {
    assert [PipeCall(op)][1..] == [];
  }

  /** The class leaves requests of this direction alone. */
  predicate Ignores(c: ClassScript, dir: UsbDirection) {
    if dir.In? then c.onIn.IgnoreIn? else c.onOut.IgnoreOut?
  }

  predicate Unanswered(x: Input, dir: UsbDirection) {
    forall k | 0 <= k < |x.classes| :: Ignores(x.classes[k], dir)
  }

  /** Classes j to k-1 asked, in order. */
  function ClassesAsked(j: nat, k: nat): seq<Call>
    decreases k - j
  {
    if j >= k then [] else [ClassAsked(j)] + ClassesAsked(j + 1, k)
  }

  lemma {:induction false} AskedAreClasses(j: nat, k: nat)
    ensures forall i | 0 <= i < |ClassesAsked(j, k)| :: ClassesAsked(j, k)[i].ClassAsked?
    decreases k - j
  {
    if j < k { AskedAreClasses(j + 1, k); }
  }

  /** Asking classes that leave the request alone changes nothing. */
  lemma {:induction false} AskPassesOver(d: Device, classes: seq<ClassScript>, dir: UsbDirection, j: nat, k: nat)
    requires j <= k <= |classes| && !d.halted && d.pipe.Waiting()
    requires forall i | j <= i < k :: Ignores(classes[i], dir)
    ensures var rest := Ask(d, classes, dir, k);
            Ask(d, classes, dir, j) == Outcome(rest.dev, ClassesAsked(j, k) + rest.calls)
    decreases k - j
  {
    var rest := Ask(d, classes, dir, k);
    if j < k {
      assert AnswerOp(classes[j], dir).None? by { assert Ignores(classes[j], dir); }
      AskPassesOver(d, classes, dir, j + 1, k);
      assert [ClassAsked(j)] + [] == [ClassAsked(j)];
      Assoc([ClassAsked(j)], ClassesAsked(j + 1, k), rest.calls);
    } else {
      assert [] + rest.calls == rest.calls;
    }
  }

  /** What the class loop and the final answer do: ask classes, and call on the pipe. */
  ghost predicate OnlyAsks(calls: seq<Call>) {
    forall k | 0 <= k < |calls| :: calls[k].ClassAsked? || calls[k].PipeCall?
  }

  lemma {:induction false} AskOnlyAsks(d: Device, classes: seq<ClassScript>, dir: UsbDirection, k: nat)
    requires k <= |classes|
    ensures OnlyAsks(Ask(d, classes, dir, k).calls)
    decreases |classes| - k
  {
    if k < |classes| {
      hide Step, AnswerOp;
      var a := DoAnswer(d, AnswerOp(classes[k], dir));
      if !a.dev.halted && a.dev.pipe.Waiting() {
        AskOnlyAsks(a.dev, classes, dir, k + 1);
      }
    }
  }

  lemma FinishOnlyAsks(d: Device, answer: Option<Op>)
    ensures OnlyAsks(Finish(d, answer).calls)
  {
    hide Step;
  }

  lemma AskUnanswered(d: Device, x: Input, dir: UsbDirection)
    requires !d.halted && d.pipe.Waiting() && Unanswered(x, dir)
    ensures Ask(d, x.classes, dir, 0) == Outcome(d, ClassesAsked(0, |x.classes|))
  {
    AskPassesOver(d, x.classes, dir, 0, |x.classes|);
    assert ClassesAsked(0, |x.classes|) + [] == ClassesAsked(0, |x.classes|);
  }

  lemma AskedOps(j: nat, k: nat, more: seq<Call>)
    ensures PipeOps(ClassesAsked(j, k) + more) == PipeOps(more)
  {
    AskedAreClasses(j, k);
    NoPipeOps(ClassesAsked(j, k));
    PipeOpsAppend(ClassesAsked(j, k), more);
    assert [] + PipeOps(more) == PipeOps(more);
  }

  /** An IN request that no class answers. */
  lemma InUnanswered(d: Device, x: Input, s: SetupPacket)
    requires Booked(d) && !d.halted && Brings(d, x, s) && 0x80 <= s.kind && Unanswered(x, In)
    ensures var e := Before(d, x);
            var f := Finish(e, BuiltInIn(e, RequestOf(s), x));
            && ControlRequest(e, RequestOf(s), x) == Outcome(f.dev, ClassesAsked(0, |x.classes|) + f.calls)
            && Poll(d, x).dev == f.dev && PipeOps(Poll(d, x).calls) == [ReadOp(x)] + PipeOps(f.calls)
  {
    var e := Before(d, x);
    BeforeMeans(d, x, s);
    assert RequestOf(s).direction.In?;
    hide Step, Poll, PipeOps, BuiltInIn, Before, Ask, Finish, ClassesAsked, RequestOf, Brings;
    RequestPoll(d, x, s);
    AskUnanswered(e, x, In);
    AskedOps(0, |x.classes|, Finish(e, BuiltInIn(e, RequestOf(s), x)).calls);
  }

  /** An OUT request that no class answers. */
  lemma OutUnanswered(d: Device, x: Input, s: SetupPacket)
    requires Booked(d) && !d.halted && Brings(d, x, s) && s.kind < 0x80 && Unanswered(x, UsbDirection.Out)
    ensures var e, req := Before(d, x), RequestOf(s);
            var f := Finish(Configure(e, req), BuiltInOut(req, x));
            && ControlRequest(e, req, x)
               == Outcome(f.dev, ClassesAsked(0, |x.classes|) + OutSideCalls(e, req) + f.calls)
            && Poll(d, x).dev == f.dev
  {
    var e := Before(d, x);
    BeforeMeans(d, x, s);
    assert RequestOf(s).direction.Out?;
    hide Step, Poll, PipeOps, BuiltInOut, Configure, OutSideCalls, Before, Ask, Finish, ClassesAsked, RequestOf, Brings;
    RequestPoll(d, x, s);
    AskUnanswered(e, x, UsbDirection.Out);
  }

  /** The pipe and the device once a request from the device has been read. */
  lemma InRead(d: Device, x: Input, s: SetupPacket)
    requires Booked(d) && !d.halted && 8 <= |d.pipe.buf| && 0x80 <= s.kind && SetupPoll(x, s)
    ensures Brings(d, x, s) && x.event.DataEvent? && ReadOp(x) == SetupOp(x.offer)
    ensures var q, req := Holding(d.pipe, s), RequestOf(s);
            && Before(d, x) == Wake(d).dev.(pipe := q) && !Before(d, x).halted
            && req.direction.In? && req.length == s.length
            && q.state == CompleteIn(req) && |q.buf| == |d.pipe.buf| && q == d.pipe.(buf := q.buf, state := q.state)
            && Step(d.pipe, SetupOp(x.offer)) == Turn(q, [Unstalled, SetupTaken(req)], Got(req))
  {
    SetupRead(d.pipe, s);
    SetupBrings(d, x, s);
    BeforeMeans(d, x, s);
    hide Brings, Step, Wake;
  }

  /** An IN request that the device answers itself, at once. */
  lemma InRequest(d: Device, x: Input, s: SetupPacket, answer: Op)
    requires Booked(d) && !d.halted && 8 <= |d.pipe.buf| && 0x80 <= s.kind && SetupPoll(x, s) && Unanswered(x, In)
    requires BuiltInIn(Before(d, x), RequestOf(s), x) == Some(answer)
    requires var t := Step(Holding(d.pipe, s), answer); !t.reply.Panicked? && !t.pipe.Waiting()
    ensures Poll(d, x).dev == Before(d, x).(pipe := Step(Holding(d.pipe, s), answer).pipe)
    ensures PipeOps(Poll(d, x).calls) == [SetupOp(x.offer), answer]
  {
    hide *;
    InRead(d, x, s);
    InUnanswered(d, x, s);
    FinishAnswered(Before(d, x), answer);
    OneOp(answer);
    assert [SetupOp(x.offer)] + [answer] == [SetupOp(x.offer), answer];
  }

  lemma FinishAnswered(e: Device, answer: Op)
    requires !e.halted && var t := Step(e.pipe, answer); !t.reply.Panicked? && !t.pipe.Waiting()
    ensures Finish(e, Some(answer)) == Outcome(e.(pipe := Step(e.pipe, answer).pipe), [PipeCall(answer)])
  {
    hide Step;
  }

  /** What a poll puts on the bus at endpoint 0, and the packets among it. */
  function OnBus(d: Device, x: Input): seq<Event> {
    Events(d.pipe, PipeOps(Poll(d, x).calls))
  }

  function PacketsOf(d: Device, x: Input): seq<seq<byte>> {
    Writes(OnBus(d, x))
  }

  lemma OnBusIs(d: Device, x: Input)
    ensures OnBus(d, x) == Events(d.pipe, PipeOps(Poll(d, x).calls))
  {
    hide Poll, PipeOps, Events;
  }

  lemma PacketsAre(d: Device, x: Input)
    ensures PacketsOf(d, x) == Writes(OnBus(d, x))
  {
    hide OnBus;
  }
}

/** The requests that a class answers: nobody else does anything, and the bus gets what the class says. */
module ClassRequests {
  import opened UsbTypes
  import opened Control
  import opened Bus
  import opened PipeModel
  import opened PipeIn
  import opened Dispatch
  import opened DeviceModel
  import opened DevicePipe
  import opened DeviceAnswers
  import opened DeviceRequests
  import opened StandardIn

  /** Class `k` is the first that does not leave the request alone. */
  ghost predicate FirstToAnswer(x: Input, dir: UsbDirection, k: nat) {
    k < |x.classes| && !Ignores(x.classes[k], dir) && forall j | 0 <= j < k :: Ignores(x.classes[j], dir)
  }

  /** The calls of the poll: the classes up to the one that answers, its answer, and the rest of the event. */
  function AnsweredCalls(d: Device, x: Input, k: nat, op: Op): seq<Call>
    requires x.event.DataEvent?
  {
    Wake(d).calls
    + (([PipeCall(ReadOp(x))] + (ClassesAsked(0, k) + [ClassAsked(k), PipeCall(op)])) + Tail(x))
  }

  lemma AskAnswered(d: Device, classes: seq<ClassScript>, dir: UsbDirection, k: nat, op: Op)
    requires !d.halted && d.pipe.Waiting()
    requires k < |classes| && AnswerOp(classes[k], dir) == Some(op) && forall j | 0 <= j < k :: Ignores(classes[j], dir)
    requires var t := Step(d.pipe, op); !t.reply.Panicked? && !t.pipe.Waiting()
    ensures Ask(d, classes, dir, 0)
         == Outcome(d.(pipe := Step(d.pipe, op).pipe), ClassesAsked(0, k) + [ClassAsked(k), PipeCall(op)])
  {
    hide Step, ClassesAsked;
    AskPassesOver(d, classes, dir, 0, k);
    assert [ClassAsked(k)] + [PipeCall(op)] == [ClassAsked(k), PipeCall(op)];
  }

  lemma ControlAnswered(d: Device, req: Request, x: Input)
    requires x.classes != []
    requires var a := Ask(d, x.classes, req.direction, 0); !a.dev.halted && !a.dev.pipe.Waiting()
    ensures ControlRequest(d, req, x) == Ask(d, x.classes, req.direction, 0)
  {
    hide Ask;
  }

  /** The first class to answer settles the request: the pipe sees its answer, and no other field changes. */
  lemma ClassSettles(d: Device, x: Input, s: SetupPacket, k: nat, op: Op)
    requires Booked(d) && !d.halted && Brings(d, x, s) && FirstToAnswer(x, RequestOf(s).direction, k)
    requires AnswerOp(x.classes[k], RequestOf(s).direction) == Some(op)
    requires var t := Step(Step(d.pipe, ReadOp(x)).pipe, op); !t.reply.Panicked? && !t.pipe.Waiting()
    ensures var read := Step(d.pipe, ReadOp(x));
            var o := Poll(d, x);
            && o.dev == Wake(d).dev.(pipe := Step(read.pipe, op).pipe) && !o.dev.halted
            && o.calls == AnsweredCalls(d, x, k, op)
            && OnBus(d, x) == read.events + Step(read.pipe, op).events
  {
    hide *;
    BringsMeans(d, x, s);
    BeforeMeans(d, x, s);
    var e, req := Before(d, x), RequestOf(s);
    FirstMeans(x, req.direction, k);
    AskAnswered(e, x.classes, req.direction, k, op);
    ControlAnswered(e, req, x);
    RequestHandled(d, x, s);
    DataPollCalls(d, x);
    RequestPoll(d, x, s);
    AskedOps(0, k, [ClassAsked(k), PipeCall(op)]);
    AskedOps(k, k + 1, [PipeCall(op)]);
    OneOp(op);
    OneAsked(k);
    assert [ClassAsked(k)] + [PipeCall(op)] == [ClassAsked(k), PipeCall(op)];
    assert [ReadOp(x)] + [op] == [ReadOp(x), op];
    TwoSteps(d.pipe, ReadOp(x), op);
    OnBusIs(d, x);
    assert AnsweredCalls(d, x, k, op) == Poll(d, x).calls by { AnsweredCallsAre(d, x, k, op); }
  }

  lemma FirstMeans(x: Input, dir: UsbDirection, k: nat)
    requires FirstToAnswer(x, dir, k)
    ensures k < |x.classes| && forall j | 0 <= j < k :: Ignores(x.classes[j], dir)
  {
    hide Ignores;
  }

  lemma AnsweredCallsAre(d: Device, x: Input, k: nat, op: Op)
    requires x.event.DataEvent?
    ensures AnsweredCalls(d, x, k, op)
         == Wake(d).calls + (([PipeCall(ReadOp(x))] + (ClassesAsked(0, k) + [ClassAsked(k), PipeCall(op)])) + Tail(x))
  {
    hide Wake, ClassesAsked, Tail;
  }

  lemma OneAsked(k: nat)
    ensures ClassesAsked(k, k + 1) == [ClassAsked(k)]
  {
    assert ClassesAsked(k + 1, k + 1) == [];
  }

  /** The device with its pipe, and nothing else, as the answer leaves it. */
  ghost predicate OnlyPipe(d: Device, x: Input, state: ControlState) {
    var o := Poll(d, x).dev;
    x.event.DataEvent? && o == Wake(d).dev.(pipe := Step(d.pipe, ReadOp(x)).pipe.(state := state)) && !o.halted
  }

  /** A class that accepts a request to the device has it acknowledged with an empty packet. */
  lemma ClassAccepts(d: Device, x: Input, s: SetupPacket, k: nat)
    requires Booked(d) && !d.halted && Brings(d, x, s) && s.kind < 0x80
    requires FirstToAnswer(x, UsbDirection.Out, k) && x.classes[k].onOut.AnswerOut? && x.classes[k].onOut.take.Takes?
    ensures OnBus(d, x) == Step(d.pipe, ReadOp(x)).events + [Wrote([])]
    ensures OnlyPipe(d, x, StatusIn)
    ensures Poll(d, x).calls == AnsweredCalls(d, x, k, AcceptOutOp(x.classes[k].onOut.take))
  {
    BringsMeans(d, x, s);
    BeforeMeans(d, x, s);
    OutDirection(s);
    AcceptedOut(Step(d.pipe, ReadOp(x)).pipe, x.classes[k].onOut.take);
    hide Step, Poll, Wake, Brings, OnBus, Before, RequestOf, AnsweredCalls;
    ClassSettles(d, x, s, k, AcceptOutOp(x.classes[k].onOut.take));
  }

  lemma OutDirection(s: SetupPacket)
    ensures RequestOf(s).direction.Out? <==> s.kind < 0x80
  {
  }

  lemma AcceptedOut(p: Pipe, t: Take)
    requires p.state.CompleteOut? && t.Takes?
    ensures Step(p, AcceptOutOp(t)) == Turn(p.(state := StatusIn), [Wrote([])], Done)
  {
  }

  /** A class that rejects a request, of either direction, has endpoint 0 stalled. */
  lemma ClassRefuses(d: Device, x: Input, s: SetupPacket, k: nat)
    requires Booked(d) && !d.halted && Brings(d, x, s) && FirstToAnswer(x, RequestOf(s).direction, k)
    requires if s.kind < 0x80 then x.classes[k].onOut.RefuseOut? else x.classes[k].onIn.RefuseIn?
    ensures OnBus(d, x) == Step(d.pipe, ReadOp(x)).events + [Stalled]
    ensures OnlyPipe(d, x, Error)
    ensures Poll(d, x).calls == AnsweredCalls(d, x, k, RejectOp)
  {
    BringsMeans(d, x, s);
    BeforeMeans(d, x, s);
    OutDirection(s);
    Rejected(Step(d.pipe, ReadOp(x)).pipe);
    hide Step, Poll, Wake, Brings, OnBus, Before, RequestOf, AnsweredCalls;
    ClassSettles(d, x, s, k, RejectOp);
  }

  lemma Rejected(p: Pipe)
    requires p.Waiting()
    ensures Step(p, RejectOp) == Turn(p.(state := Error), [Stalled], Done)
  {
  }

  /** The first packet of an accepted answer: as much of it as a packet holds and the driver takes. */
  lemma FirstPacket(p: Pipe, op: Op, src: seq<byte>)
    requires Accepts(p, op, src)
    ensures var t := Step(p, op);
            && Writes(t.events) == (if op.take.Refuses? then [] else [src[..Min(Min(|src|, p.mps), op.take.limit)]])
            && !t.reply.Panicked? && !t.pipe.Waiting() && Sending(t.pipe, src)
  {
    assert p.state.CompleteIn? && p.mps > 0 by { hide Overlay; }
    hide *;
    AcceptedSending(p, op, src);
    var q := AcceptIsChunk(p, op, src);
    var base, whole, held := AcceptIsStart(p, op, src);
    FirstChunk(q, op.take, src);
    StartFollows(base, p.state.req, whole, held, op.take);
    SendingRests(Step(p, op).pipe, src);
  }

  lemma SendingRests(p: Pipe, src: seq<byte>)
    requires Sending(p, src)
    ensures !p.Waiting()
  {
  }

  lemma StartFollows(p: Pipe, req: Request, src: seq<byte>, held: Option<seq<byte>>, t: Take)
    requires p.mps > 0 && Min(|src|, req.length) <= |p.Source()|
    ensures !StartInTransfer(p, req, src, held, t).reply.Panicked?
  {
  }

  lemma FirstChunk(q: Pipe, t: Take, src: seq<byte>)
    requires Sending(q, src) && q.state.DataIn? && q.i == 0
    ensures Writes(Step(q, InDoneOp(t)).events)
         == if t.Refuses? then [] else [src[..Min(Min(|src|, q.mps), t.limit)]]
  {
    var turn := WriteInChunk(q, t);
    var n := Min(|src|, q.mps);
    assert q.Source()[0..n] == src[..n] by { assert src[0..] == src; SliceTwice(q.Source(), src, 0, n); }
    if t.Takes? {
      var m := Min(n, t.limit);
      assert q.Source()[0..m] == src[..m] by { assert src[0..] == src; SliceTwice(q.Source(), src, 0, m); }
      WritesOfOne(turn.events[0]);
    }
  }

  /**
   * A class that accepts a request from the device, with bytes written into the buffer while no
   * static buffer is left over, or from a static buffer: the first packet is theirs, cut to what the
   * host asked for, to a packet and to what the driver takes; and the pipe goes on sending the rest.
   */
  lemma ClassAnswers(d: Device, x: Input, s: SetupPacket, k: nat, data: seq<byte>, t: Take)
    requires Booked(d) && !d.halted && 8 <= |d.pipe.buf| && 0 < d.pipe.mps && SetupPoll(x, s) && 0x80 <= s.kind
    requires FirstToAnswer(x, In, k)
    requires || x.classes[k].onIn == AnswerStatic(data, t)
             || (&& x.classes[k].onIn == AnswerIn(Filler(data, Ok(|data|)), t)
                 && |data| <= |d.pipe.buf| && d.pipe.staticBuf.None?)
    ensures PacketsOf(d, x) == if t.Refuses? then []
                               else [Cut(data, s.length)[..Min(Min(|Cut(data, s.length)|, d.pipe.mps), t.limit)]]
    ensures var o := Poll(d, x).dev;
            Sending(o.pipe, Cut(data, s.length)) && o == Wake(d).dev.(pipe := o.pipe) && !o.halted
  {
    var q := Holding(d.pipe, s);
    var op :=
      if x.classes[k].onIn.AnswerStatic? then AcceptStaticOp(data, t) else AcceptInOp(Filler(data, Ok(|data|)), t);
    var src := Cut(data, s.length);
    InRead(d, x, s);
    AnswerAccepts(q, op, data, t, s.length);
    assert AnswerOp(x.classes[k], In) == Some(op);
    hide *;
    FirstPacket(q, op, src);
    ClassSettles(d, x, s, k, op);
    WritesAppend([Unstalled, SetupTaken(RequestOf(s))], Step(q, op).events);
    NoWrites([Unstalled, SetupTaken(RequestOf(s))]);
    PacketsAre(d, x);
  }

  lemma AnswerAccepts(q: Pipe, op: Op, data: seq<byte>, t: Take, length: nat)
    requires q.state.CompleteIn? && q.state.req.length == length && q.mps > 0
    requires || op == AcceptStaticOp(data, t)
             || (op == AcceptInOp(Filler(data, Ok(|data|)), t) && |data| <= |q.buf| && q.staticBuf.None?)
    ensures Accepts(q, op, Cut(data, length)) && op.take == t
  {
    if op.AcceptInOp? {
      assert Overlay(q.buf, data)[..|data|] == data;
      assert Overlay(q.buf, data)[..Min(|data|, length)] == Overlay(q.buf, data)[..|data|][..Min(|data|, length)];
    }
  }
}

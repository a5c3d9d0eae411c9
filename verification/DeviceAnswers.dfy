/** Who answers a control request, and what every answer leaves behind. */
module DeviceAnswers {
  import opened UsbTypes
  import opened Control
  import opened PipeModel
  import opened PipeSafety
  import opened Dispatch
  import opened DeviceModel
  import opened DevicePipe

  /** The device after the first `j` classes have all been asked. */
  function After(d: Device, classes: seq<ClassScript>, dir: UsbDirection, j: nat): Device
    requires j <= |classes|
  {
    if j == 0 then d else DoAnswer(After(d, classes, dir, j - 1), AnswerOp(classes[j - 1], dir)).dev
  }

  /** The classes asked, in order. */
  function Asked(calls: seq<Call>): seq<nat> {
    if calls == [] then []
    else (if calls[0].ClassAsked? then [calls[0].cls] else []) + Asked(calls[1..])
  }

  lemma {:induction false} AskedAppend(a: seq<Call>, b: seq<Call>)
    ensures Asked(a + b) == Asked(a) + Asked(b)
  {
    if a == [] {
      assert a + b == b;
    } else {
      var head := if a[0].ClassAsked? then [a[0].cls] else [];
      assert (a + b)[0] == a[0] && (a + b)[1..] == a[1..] + b;
      AskedAppend(a[1..], b);
      assert Asked(a + b) == head + Asked(a[1..] + b);
      Assoc(head, Asked(a[1..]), Asked(b));
    }
  }

  function Range(k: nat, n: nat): seq<nat>
    decreases n - k
  {
    if k >= n then [] else [k] + Range(k + 1, n)
  }

  /** One past the last class asked, starting from class `k`. */
  function AskedUpTo(e: Device, classes: seq<ClassScript>, dir: UsbDirection, k: nat): (n: nat)
    requires k <= |classes|
    ensures k <= n <= |classes|
    decreases |classes| - k
  {
    if k == |classes| then k
    else
      var f := DoAnswer(e, AnswerOp(classes[k], dir)).dev;
      if f.halted || !f.pipe.Waiting() then k + 1 else AskedUpTo(f, classes, dir, k + 1)
  }

  /** The classes asked are k, k+1, ..., in order and without a gap. */
  lemma {:induction false} AskedInOrder(e: Device, classes: seq<ClassScript>, dir: UsbDirection, k: nat)
    requires k <= |classes|
    ensures Asked(Ask(e, classes, dir, k).calls) == Range(k, AskedUpTo(e, classes, dir, k))
    decreases |classes| - k
  {
    if k < |classes| {
      var a := DoAnswer(e, AnswerOp(classes[k], dir));
      var head := [ClassAsked(k)] + a.calls;
      AskedHead(e, k, AnswerOp(classes[k], dir));
      if !a.dev.halted && a.dev.pipe.Waiting() {
        AskedInOrder(a.dev, classes, dir, k + 1);
        AskedAppend(head, Ask(a.dev, classes, dir, k + 1).calls);
      } else {
        assert Range(k, k + 1) == [k] + Range(k + 1, k + 1);
      }
    }
  }

  /** Asking them has the effect of their answers alone, and stops only at an answer. */
  lemma {:induction false} AskStopsAtAnswer(d: Device, classes: seq<ClassScript>, dir: UsbDirection, k: nat)
    requires k <= |classes|
    ensures var e := After(d, classes, dir, k);
            var n := AskedUpTo(e, classes, dir, k);
            var f := After(d, classes, dir, n);
            && Ask(e, classes, dir, k).dev == f
            && (n < |classes| ==> f.halted || !f.pipe.Waiting())
    decreases |classes| - k
  {
    hide DoAnswer, AnswerOp, Step;
    if k < |classes| {
      AskStopsAtAnswer(d, classes, dir, k + 1);
    }
  }

  /** Every class asked after class `k` finds the pipe still waiting. */
  lemma {:induction false} AskedWaiting(d: Device, classes: seq<ClassScript>, dir: UsbDirection, k: nat, j: nat)
    requires k <= |classes| && k < j < AskedUpTo(After(d, classes, dir, k), classes, dir, k)
    ensures After(d, classes, dir, j).pipe.Waiting() && !After(d, classes, dir, j).halted
    decreases |classes| - k
  {
    if j > k + 1 {
      AskedWaiting(d, classes, dir, k + 1, j);
    }
  }

  /**
   * First answer wins. The classes asked are 0, 1, ..., n-1, each finding the pipe still waiting
   * for an answer; the list stops short of the end only because it no longer is.
   */
  lemma FirstAnswerWins(d: Device, classes: seq<ClassScript>, dir: UsbDirection) returns (n: nat)
    requires d.pipe.Waiting() && !d.halted
    ensures n <= |classes|
    ensures Asked(Ask(d, classes, dir, 0).calls) == Range(0, n)
    ensures Ask(d, classes, dir, 0).dev == After(d, classes, dir, n)
    ensures forall j: nat | j < n :: After(d, classes, dir, j).pipe.Waiting()
    ensures n < |classes| ==> var f := After(d, classes, dir, n); f.halted || !f.pipe.Waiting()
  {
    n := AskedUpTo(d, classes, dir, 0);
    AskedInOrder(d, classes, dir, 0);
    AskStopsAtAnswer(d, classes, dir, 0);
    forall j: nat | j < n ensures After(d, classes, dir, j).pipe.Waiting() {
      if j > 0 {
        AskedWaiting(d, classes, dir, 0, j);
      }
    }
  }

  lemma AskedHead(e: Device, k: nat, answer: Option<Op>)
    ensures Asked([ClassAsked(k)] + DoAnswer(e, answer).calls) == [k]
  {
    var calls := DoAnswer(e, answer).calls;
    AskedAppend([ClassAsked(k)], calls);
    assert Asked([ClassAsked(k)]) == [k] + Asked([]);
    if calls != [] {
      assert calls[1..] == [];
    }
  }

  /** The state in which a request is put to the classes and the built-in handlers. */
  ghost predicate Posed(p: Pipe, req: Request) {
    && Inv(p)
    && if req.direction.In? then p.state == CompleteIn(req) else p.state.CompleteOut?
  }

  lemma {:induction false} AskLeaves(d: Device, req: Request, classes: seq<ClassScript>, k: nat)
    requires k <= |classes| && Posed(d.pipe, req) && !d.halted
    ensures var a := Ask(d, classes, req.direction, k);
            && (a.dev.halted || !a.dev.pipe.Waiting() || Posed(a.dev.pipe, req))
            && (!a.dev.halted ==> |a.dev.pipe.buf| == |d.pipe.buf|)
    decreases |classes| - k
  {
    if k < |classes| {
      var answer := AnswerOp(classes[k], req.direction);
      var a := DoAnswer(d, answer);
      if answer.Some? {
        AnswerLeaves(d.pipe, req, answer.value);
      }
      if !a.dev.halted && a.dev.pipe.Waiting() {
        AskLeaves(a.dev, req, classes, k + 1);
      }
    }
  }

  lemma AnswerLeaves(p: Pipe, req: Request, op: Op)
    requires Posed(p, req)
    requires if req.direction.In? then op.AcceptInOp? || op.AcceptStaticOp? || op.RejectOp?
             else op.AcceptOutOp? || op.RejectOp?
    ensures var t := Step(p, op);
            && |t.pipe.buf| == |p.buf|
            && (!t.reply.Panicked? ==> !t.pipe.Waiting() || Posed(t.pipe, req))
  {
  }

  /** A built-in answer that ends in `?` returning the error. */
  predicate BuiltInFails(d: Device, answer: Option<Op>) {
    answer.Some? && Step(d.pipe, answer.value).reply.Failed?
  }

  /** The answer a request gets once no class has given one, and what an error leaves behind. */
  lemma BuiltInAnswers(d: Device, req: Request, answer: Option<Op>)
    requires Posed(d.pipe, req)
    requires answer.Some? ==> Fitting(d.pipe, req, answer.value)
    ensures var f := Finish(d, answer);
            f.dev.halted || (if BuiltInFails(d, answer) then StillOpen(f.dev.pipe, req) else !f.dev.pipe.Waiting())
  {
  }

  /** An answer of the request's own direction, whose count is within the buffer. */
  predicate Fitting(p: Pipe, req: Request, answer: Op) {
    || answer.RejectOp?
    || (req.direction.Out? && answer.AcceptOutOp?)
    || (&& req.direction.In? && answer.AcceptInOp?
        && (answer.filler.count.Ok? ==> answer.filler.count.value <= |p.buf|))
  }

  /** An OUT request still undecided; an IN request undecided, or accepted with nothing sent yet. */
  ghost predicate StillOpen(p: Pipe, req: Request) {
    if req.direction.In? then p.state == CompleteIn(req) || (p.state.DataIn? && p.i == 0) else p.state.CompleteOut?
  }

  /** control_in or control_out, by the direction of the request. */
  function ControlRequest(d: Device, req: Request, x: Input): Outcome {
    if req.direction.In? then ControlIn(d, req, x) else ControlOut(d, req, x)
  }

  /**
   * The request got exactly one outcome. If a class answered, no built-in handler ran; if none
   * did, the built-in handler found the pipe in the state its accept and reject demand; and the
   * pipe was left waiting only when the built-in answer's own write or rendering failed.
   */
  ghost predicate Settled(d: Device, req: Request, x: Input, o: Outcome) {
    var a := Ask(d, x.classes, req.direction, 0);
    var e := if req.direction.In? then a.dev else Configure(a.dev, req);
    var answer := if req.direction.In? then BuiltInIn(a.dev, req, x) else BuiltInOut(req, x);
    if a.dev.halted || !a.dev.pipe.Waiting() then o == a
    else
      && Posed(e.pipe, req)
      && o.dev == Finish(e, answer).dev
      && (o.dev.halted || (if BuiltInFails(e, answer) then StillOpen(o.dev.pipe, req) else !o.dev.pipe.Waiting()))
  }

  lemma ControlSettles(d: Device, req: Request, x: Input)
    requires Posed(d.pipe, req) && !d.halted
    ensures Settled(d, req, x, ControlRequest(d, req, x))
  {
    AskLeaves(d, req, x.classes, 0);
    var a := Ask(d, x.classes, req.direction, 0);
    if !a.dev.halted && a.dev.pipe.Waiting() {
      if req.direction.In? {
        BuiltInAnswers(a.dev, req, BuiltInIn(a.dev, req, x));
      } else {
        BuiltInAnswers(Configure(a.dev, req), req, BuiltInOut(req, x));
      }
    }
  }

  /** A request the pipe returns is posed: it is in the state that asks for its answer. */
  lemma GotIsPosed(p: Pipe, op: Op)
    requires Inv(p) && Step(p, op).reply.Got?
    ensures Posed(Step(p, op).pipe, Step(p, op).reply.req)
  {
    hide Parse;
  }

  /** The endpoint-0 read of a data event. */
  function ReadOp(x: Input): Op
    requires x.event.DataEvent?
  {
    if x.event.pending.epSetup[0] then SetupOp(x.offer) else OutOp(x.offer)
  }

  /** The poll brings endpoint 0 a packet that completes a request. */
  predicate BringsRequest(d: Device, x: Input) {
    && x.event.DataEvent?
    && (x.event.pending.epSetup[0] || x.event.pending.epOut[0])
    && Step(d.pipe, ReadOp(x)).reply.Got?
  }

  lemma PollSettles(d: Device, x: Input)
    requires Inv(d.pipe) && Booked(d) && !d.halted && BringsRequest(d, x)
    ensures var e := Do(Wake(d).dev, ReadOp(x));
            var req := Step(d.pipe, ReadOp(x)).reply.req;
            && Settled(e, req, x, ControlRequest(e, req, x))
            && Poll(d, x).dev == ControlRequest(e, req, x).dev
  {
    var w := Wake(d).dev;
    var e := Do(w, ReadOp(x));
    var req := Step(d.pipe, ReadOp(x)).reply.req;
    assert w.pipe == d.pipe && !w.halted;
    GotIsPosed(d.pipe, ReadOp(x));
    ControlSettles(e, req, x);
    assert All(x.event.pending)[0];
    hide Step, ControlIn, ControlOut, Settled;
    assert Endpoint0(w, x.event.pending, x).dev == ControlRequest(e, req, x).dev;
  }

  /**
   * Every request of every run: whenever a poll, after any history that keeps answers in reach of
   * a left-over static buffer, brings a request, the request is settled in that poll.
   */
  lemma EveryRequestSettles(d: Device, xs: seq<Input>, x: Input)
    requires Built(d) && AllInReach(d.pipe, PipeOps(RunDevice(d, xs).calls))
    requires BringsRequest(RunDevice(d, xs).dev, x)
    ensures var b := RunDevice(d, xs).dev;
            var e := Do(Wake(b).dev, ReadOp(x));
            var req := Step(b.pipe, ReadOp(x)).reply.req;
            && Settled(e, req, x, ControlRequest(e, req, x))
            && Poll(b, x).dev == ControlRequest(e, req, x).dev
  {
    DeviceFollowsProtocol(d, xs);
    DeviceRunIsPipeRun(d, xs);
    PollSettles(RunDevice(d, xs).dev, x);
  }
}

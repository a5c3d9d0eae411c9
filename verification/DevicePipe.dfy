/**
 * What a poll does to the control pipe is a run of pipe operations, so every theorem about pipe
 * runs holds of device runs.
 */
module DevicePipe {
  import opened UsbTypes
  import opened Control
  import opened PipeModel
  import opened PipeSafety
  import opened PipeTrace
  import opened Dispatch
  import opened DeviceModel

  /** The pipe operations among the calls of a run, in order. */
  function PipeOps(calls: seq<Call>): seq<Op> {
    if calls == [] then []
    else (if calls[0].PipeCall? then [calls[0].op] else []) + PipeOps(calls[1..])
  }

  lemma {:induction false} PipeOpsAppend(a: seq<Call>, b: seq<Call>)
    ensures PipeOps(a + b) == PipeOps(a) + PipeOps(b)
  {
    if a == [] {
      assert a + b == b;
    } else {
      var head := if a[0].PipeCall? then [a[0].op] else [];
      assert (a + b)[0] == a[0] && (a + b)[1..] == a[1..] + b;
      PipeOpsAppend(a[1..], b);
      assert PipeOps(a + b) == head + PipeOps(a[1..] + b);
      Assoc(head, PipeOps(a[1..]), PipeOps(b));
    }
  }

  lemma {:induction false} NoPipeOps(calls: seq<Call>)
    requires forall k | 0 <= k < |calls| :: !calls[k].PipeCall?
    ensures PipeOps(calls) == []
  {
    if calls != [] {
      assert !calls[0].PipeCall?;
      NoPipeOps(calls[1..]);
    }
  }

  /** The pipe ends where its own operations take it, and the device halts only if one panics. */
  ghost predicate Tracks(d: Device, o: Outcome) {
    && o.dev.pipe == Run(d.pipe, PipeOps(o.calls))
    && (o.dev.halted ==> d.halted || Panics(d.pipe, PipeOps(o.calls)))
  }

  ghost predicate PanicsAt(p: Pipe, ops: seq<Op>, k: nat)
    requires k < |ops|
  {
    Step(Run(p, ops[..k]), ops[k]).reply.Panicked?
  }

  ghost predicate Panics(p: Pipe, ops: seq<Op>) {
    exists k: nat | k < |ops| :: PanicsAt(p, ops, k)
  }

  lemma TracksNothing(d: Device, e: Device, calls: seq<Call>)
    requires e.pipe == d.pipe && (e.halted ==> d.halted)
    requires forall k | 0 <= k < |calls| :: !calls[k].PipeCall?
    ensures Tracks(d, Outcome(e, calls))
  {
    NoPipeOps(calls);
  }

  lemma TracksDo(d: Device, op: Op)
    ensures Tracks(d, Outcome(Do(d, op), [PipeCall(op)]))
  {
    var one := [PipeCall(op)];
    var ops := PipeOps(one);
    assert one[0].PipeCall? && one[1..] == [];
    assert ops == [op] + PipeOps(one[1..]);
    assert ops == [op];
    assert Run(d.pipe, ops) == Run(Step(d.pipe, op).pipe, []);
    if Do(d, op).halted && !d.halted {
      assert ops[..0] == [];
      assert PanicsAt(d.pipe, ops, 0);
    }
  }

  lemma PanicsFirst(p: Pipe, x: seq<Op>, y: seq<Op>)
    requires Panics(p, x)
    ensures Panics(p, x + y)
  {
    var k: nat :| k < |x| && PanicsAt(p, x, k);
    assert (x + y)[..k] == x[..k] && (x + y)[k] == x[k];
    assert PanicsAt(p, x + y, k);
  }

  lemma PanicsSecond(p: Pipe, x: seq<Op>, y: seq<Op>)
    requires Panics(Run(p, x), y)
    ensures Panics(p, x + y)
  {
    hide Step;
    var q := Run(p, x);
    var k: nat :| k < |y| && PanicsAt(q, y, k);
    var j := |x| + k;
    assert Run(p, (x + y)[..j]) == Run(q, y[..k]) by {
      RunAppend(p, x, y[..k]);
      assert (x + y)[..j] == x + y[..k];
    }
    assert (x + y)[j] == y[k];
    assert PanicsAt(p, x + y, j);
  }

  lemma TracksThen(d: Device, a: Outcome, b: Outcome)
    requires Tracks(d, a) && Tracks(a.dev, b)
    ensures Tracks(d, Outcome(b.dev, a.calls + b.calls))
  {
    PipeOpsAppend(a.calls, b.calls);
    var x, y := PipeOps(a.calls), PipeOps(b.calls);
    RunAppend(d.pipe, x, y);
    if b.dev.halted && !d.halted {
      if a.dev.halted {
        PanicsFirst(d.pipe, x, y);
      } else {
        PanicsSecond(d.pipe, x, y);
      }
    }
  }

  lemma {:induction false} AskTracks(d: Device, classes: seq<ClassScript>, dir: UsbDirection, k: nat)
    requires k <= |classes|
    ensures Tracks(d, Ask(d, classes, dir, k))
    decreases |classes| - k
  {
    if k == |classes| {
      TracksNothing(d, d, []);
    } else {
      var answer := AnswerOp(classes[k], dir);
      var a := DoAnswer(d, answer);
      TracksNothing(d, d, [ClassAsked(k)]);
      if answer.Some? { TracksDo(d, answer.value); } else { TracksNothing(d, d, []); }
      TracksThen(d, Outcome(d, [ClassAsked(k)]), a);
      if !a.dev.halted && a.dev.pipe.Waiting() {
        AskTracks(a.dev, classes, dir, k + 1);
        TracksThen(d, Outcome(a.dev, [ClassAsked(k)] + a.calls), Ask(a.dev, classes, dir, k + 1));
      }
    }
  }

  lemma FinishTracks(d: Device, answer: Option<Op>)
    ensures Tracks(d, Finish(d, answer))
  {
    match answer
    case Some(op) =>
      TracksDo(d, op);
      TracksDo(Do(d, op), RejectOp);
      TracksThen(d, Outcome(Do(d, op), [PipeCall(op)]), Outcome(Do(Do(d, op), RejectOp), [PipeCall(RejectOp)]));
      assert [PipeCall(op)] + [PipeCall(RejectOp)] == [PipeCall(op), PipeCall(RejectOp)];
    case None =>
      TracksDo(d, RejectOp);
      TracksNothing(d, d, []);
  }

  lemma ControlInTracks(d: Device, req: Request, x: Input)
    ensures Tracks(d, ControlIn(d, req, x))
  {
    AskTracks(d, x.classes, In, 0);
    var a := Ask(d, x.classes, In, 0);
    var answer := BuiltInIn(a.dev, req, x);
    FinishTracks(a.dev, answer);
    TracksThen(d, a, Finish(a.dev, answer));
    hide Ask, Finish, BuiltInIn, Tracks;
  }

  lemma SideTracks(d: Device, req: Request)
    ensures Tracks(d, Outcome(Configure(d, req), OutSideCalls(d, req)))
  {
    hide EndpointOf;
    TracksNothing(d, Configure(d, req), OutSideCalls(d, req));
  }

  lemma ControlOutTracks(d: Device, req: Request, x: Input)
    ensures Tracks(d, ControlOut(d, req, x))
  {
    hide Ask, Finish, BuiltInOut, Configure, OutSideCalls, Tracks;
    AskTracks(d, x.classes, UsbDirection.Out, 0);
    var b := Ask(d, x.classes, UsbDirection.Out, 0);
    var side := OutSideCalls(b.dev, req);
    var e := Configure(b.dev, req);
    SideTracks(b.dev, req);
    TracksThen(d, b, Outcome(e, side));
    FinishTracks(e, BuiltInOut(req, x));
    TracksThen(d, Outcome(e, b.calls + side), Finish(e, BuiltInOut(req, x)));
  }

  lemma InCompleteTracks(d: Device, x: Input)
    ensures Tracks(d, Ep0InComplete(d, x))
  {
    var op := InDoneOp(x.inTake);
    TracksDo(d, op);
    var o := Ep0InComplete(d, x);
    TracksNothing(Do(d, op), o.dev, o.calls[1..]);
    TracksThen(d, Outcome(Do(d, op), [PipeCall(op)]), Outcome(o.dev, o.calls[1..]));
    assert [PipeCall(op)] + o.calls[1..] == o.calls;
  }

  lemma Endpoint0Tracks(d: Device, ev: Pending, x: Input)
    ensures Tracks(d, Endpoint0(d, ev, x))
  {
    if !All(ev)[0] {
      TracksNothing(d, d, []);
    } else if ev.epSetup[0] || ev.epOut[0] {
      var op := if ev.epSetup[0] then SetupOp(x.offer) else OutOp(x.offer);
      var t := Step(d.pipe, op);
      var e := Do(d, op);
      TracksDo(d, op);
      if t.reply.Got? {
        ControlInTracks(e, t.reply.req, x);
        ControlOutTracks(e, t.reply.req, x);
      }
      InCompleteTracks(e, x);
      TracksNothing(e, e, []);
      var o := Endpoint0(d, ev, x);
      assert o.calls == [PipeCall(op)] + o.calls[1..];
      TracksThen(d, Outcome(e, [PipeCall(op)]), Outcome(o.dev, o.calls[1..]));
    } else {
      InCompleteTracks(d, x);
    }
  }

  lemma ResetTracks(d: Device, n: nat)
    ensures Tracks(d, HandleReset(d, n))
  {
    var o := HandleReset(d, n);
    var e := Do(d, ResetOp);
    TracksNothing(d, d, [BusReset]);
    TracksDo(d, ResetOp);
    TracksThen(d, Outcome(d, [BusReset]), Outcome(e, [PipeCall(ResetOp)]));
    assert [BusReset] + [PipeCall(ResetOp)] == [BusReset, PipeCall(ResetOp)];
    TracksNothing(e, o.dev, ResetClasses(n));
    TracksThen(d, Outcome(e, [BusReset, PipeCall(ResetOp)]), Outcome(o.dev, ResetClasses(n)));
  }

  lemma DataTracks(d: Device, ev: Pending, x: Input)
    ensures Tracks(d, HandleData(d, ev, x))
  {
    Endpoint0Tracks(d, ev, x);
    var a := Endpoint0(d, ev, x);
    var more := EndpointCalls(Scan(ev, 1, |x.classes|));
    TracksNothing(a.dev, a.dev, more);
    TracksThen(d, a, Outcome(a.dev, more));
    TracksNothing(a.dev, a.dev, PollClasses(|x.classes|));
    TracksThen(d, Outcome(a.dev, a.calls + more), Outcome(a.dev, PollClasses(|x.classes|)));
  }

  lemma HandleTracks(d: Device, x: Input)
    ensures Tracks(d, Handle(d, x))
  {
    match x.event
    case NoEvent | ResumeEvent => TracksNothing(d, d, []);
    case SuspendEvent => TracksNothing(d, Handle(d, x).dev, [BusSuspend]);
    case ResetEvent => ResetTracks(d, |x.classes|);
    case DataEvent(ev) => DataTracks(d, ev, x);
  }

  /** `device_state` is Suspend exactly when the state to go back to is recorded. */
  ghost predicate Booked(d: Device) {
    && (d.state.Suspend? <==> d.suspended.Some?)
    && (d.suspended.Some? ==> !d.suspended.value.Suspend?)
  }

  lemma PollTracks(d: Device, x: Input)
    requires Booked(d)
    ensures Tracks(d, Poll(d, x))
  {
    var w := Wake(d);
    TracksNothing(d, d, []);
    TracksNothing(d, w.dev, w.calls);
    HandleTracks(w.dev, x);
    TracksThen(d, w, Handle(w.dev, x));
  }

  /** Ask and Finish touch nothing but the pipe. */
  lemma {:induction false} AskKeeps(d: Device, classes: seq<ClassScript>, dir: UsbDirection, k: nat)
    requires k <= |classes|
    ensures var a := Ask(d, classes, dir, k); a.dev == d.(pipe := a.dev.pipe, halted := a.dev.halted)
    decreases |classes| - k
  {
    if k < |classes| {
      var a := DoAnswer(d, AnswerOp(classes[k], dir));
      if !a.dev.halted && a.dev.pipe.Waiting() {
        AskKeeps(a.dev, classes, dir, k + 1);
      }
    }
  }

  lemma HandleKeepsBooks(d: Device, x: Input)
    requires Booked(d) && !d.state.Suspend?
    ensures Booked(Handle(d, x).dev)
  {
    match x.event
    case DataEvent(ev) => Endpoint0KeepsBooks(d, ev, x);
    case _ =>
  }

  /** Awake, and nothing recorded to go back to. */
  predicate Awake(d: Device) {
    !d.state.Suspend? && d.suspended.None?
  }

  lemma FinishKeeps(d: Device, answer: Option<Op>)
    ensures var f := Finish(d, answer); f.dev == d.(pipe := f.dev.pipe, halted := f.dev.halted)
  {
    hide Step;
  }

  lemma ControlInKeepsAwake(d: Device, req: Request, x: Input)
    requires Awake(d)
    ensures Awake(ControlIn(d, req, x).dev)
  {
    AskKeeps(d, x.classes, In, 0);
    var a := Ask(d, x.classes, In, 0);
    FinishKeeps(a.dev, BuiltInIn(a.dev, req, x));
    hide Ask, Finish, BuiltInIn;
  }

  lemma ControlOutKeepsAwake(d: Device, req: Request, x: Input)
    requires Awake(d)
    ensures Awake(ControlOut(d, req, x).dev)
  {
    hide Ask, Finish, BuiltInOut;
    AskKeeps(d, x.classes, UsbDirection.Out, 0);
    var e := Configure(Ask(d, x.classes, UsbDirection.Out, 0).dev, req);
    assert Awake(e);
    FinishKeeps(e, BuiltInOut(req, x));
  }

  lemma Endpoint0KeepsBooks(d: Device, ev: Pending, x: Input)
    requires Booked(d) && !d.state.Suspend?
    ensures Awake(Endpoint0(d, ev, x).dev)
  {
    var op := if ev.epSetup[0] then SetupOp(x.offer) else OutOp(x.offer);
    var e := Do(d, op);
    var t := Step(d.pipe, op);
    hide Step, ControlIn, ControlOut;
    assert Awake(e);
    assert Awake(Ep0InComplete(e, x).dev) && Awake(Ep0InComplete(d, x).dev);
    hide Ep0InComplete;
    if t.reply.Got? {
      ControlInKeepsAwake(e, t.reply.req, x);
      ControlOutKeepsAwake(e, t.reply.req, x);
    }
  }

  lemma PollKeepsBooks(d: Device, x: Input)
    requires Booked(d)
    ensures Booked(Poll(d, x).dev)
  {
    HandleKeepsBooks(Wake(d).dev, x);
  }

  /** A program that has ended makes no more calls. */
  lemma {:induction false} HaltedRun(d: Device, xs: seq<Input>)
    requires d.halted
    ensures RunDevice(d, xs) == Outcome(d, [])
    decreases |xs|
  {
    if xs != [] {
      HaltedRun(d, xs[1..]);
    }
  }

  /**
   * A whole run of the device drives its control pipe through a run of pipe operations, the
   * books stay straight, and the program stops only where one of those operations panics.
   */
  lemma {:induction false} DeviceRunIsPipeRun(d: Device, xs: seq<Input>)
    requires Booked(d)
    ensures Tracks(d, RunDevice(d, xs)) && Booked(RunDevice(d, xs).dev)
    decreases |xs|
  {
    if xs == [] {
      TracksNothing(d, d, []);
    } else {
      var first := Poll(d, xs[0]);
      PollTracks(d, xs[0]);
      PollKeepsBooks(d, xs[0]);
      DeviceRunIsPipeRun(first.dev, xs[1..]);
      TracksThen(d, first, RunDevice(first.dev, xs[1..]));
    }
  }

  /**
   * So from a freshly built device, for any host, driver and classes that keep their answers in
   * reach of a left-over static buffer, endpoint 0 follows the code's protocol of stages, keeps to
   * the standard's exactly when nothing is done for an overtaken transfer, and never reaches a Rust
   * panic.
   */
  lemma DeviceFollowsProtocol(d: Device, xs: seq<Input>)
    requires Built(d) && AllInReach(d.pipe, PipeOps(RunDevice(d, xs).calls))
    ensures var o := RunDevice(d, xs);
            && Inv(o.dev.pipe)
            && !o.dev.halted
            && Follow(Quiet, Events(d.pipe, PipeOps(o.calls)), d.pipe.mps, false) == PhaseOf(o.dev.pipe)
            && (InOrder(Follow(Quiet, Events(d.pipe, PipeOps(o.calls)), d.pipe.mps, true))
                <==> Abides(d.pipe, PipeOps(o.calls), false))
  {
    var o := RunDevice(d, xs);
    var ops := PipeOps(o.calls);
    DeviceRunIsPipeRun(d, xs);
    RunRefines(d.pipe, ops);
    ConformsIff(d.pipe, ops);
    if o.dev.halted {
      var k: nat :| k < |ops| && PanicsAt(d.pipe, ops, k);
      RunSafe(d.pipe, ops, k);
    }
  }

  /** In this poll no class answers from a static buffer, and every callback returns. */
  predicate Tame(x: Input) {
    && !x.rendering.RenderPanics?
    && forall k | 0 <= k < |x.classes| ::
         !x.classes[k].onIn.AnswerStatic? && (x.classes[k].onIn.AnswerIn? ==> !x.classes[k].onIn.filler.panics)
  }

  /** The pipe operations a poll can make, each with the environment's answers of that poll. */
  predicate MadeIn(x: Input, op: Op) {
    match op
    case SetupOp(o) => x.event.DataEvent? && x.event.pending.epSetup[0] && o == x.offer
    case OutOp(o) => x.event.DataEvent? && x.event.pending.epOut[0] && o == x.offer
    case InDoneOp(t) => x.event.DataEvent? && x.event.pending.epInComplete[0] && t == x.inTake
    case AcceptStaticOp(_, _) => !Tame(x)
    case AcceptInOp(f, _) => f.panics ==> !Tame(x)
    case ResetOp => x.event.ResetEvent?
    case _ => true
  }

  ghost predicate AllMadeIn(x: Input, calls: seq<Call>) {
    forall k | 0 <= k < |calls| && calls[k].PipeCall? :: MadeIn(x, calls[k].op)
  }

  lemma MadeInBoth(x: Input, a: seq<Call>, b: seq<Call>)
    ensures AllMadeIn(x, a + b) <==> AllMadeIn(x, a) && AllMadeIn(x, b)
  {
    assert forall k | 0 <= k < |a| :: (a + b)[k] == a[k];
    assert forall k | 0 <= k < |b| :: (a + b)[|a| + k] == b[k];
    if AllMadeIn(x, a) && AllMadeIn(x, b) {
      forall k | 0 <= k < |a + b| && (a + b)[k].PipeCall? ensures MadeIn(x, (a + b)[k].op) {
        if k >= |a| { assert (a + b)[k] == b[k - |a|]; }
      }
    }
  }

  lemma {:induction false} AskMadeIn(d: Device, x: Input, dir: UsbDirection, k: nat)
    requires k <= |x.classes|
    ensures AllMadeIn(x, Ask(d, x.classes, dir, k).calls)
    decreases |x.classes| - k
  {
    if k < |x.classes| {
      var a := DoAnswer(d, AnswerOp(x.classes[k], dir));
      var head := [ClassAsked(k)] + a.calls;
      assert AllMadeIn(x, head);
      if !a.dev.halted && a.dev.pipe.Waiting() {
        AskMadeIn(a.dev, x, dir, k + 1);
        MadeInBoth(x, head, Ask(a.dev, x.classes, dir, k + 1).calls);
      }
    }
  }

  lemma FinishMadeIn(d: Device, answer: Option<Op>, x: Input)
    requires answer.Some? ==> MadeIn(x, answer.value)
    ensures AllMadeIn(x, Finish(d, answer).calls)
  {
    hide Step;
  }

  lemma BuiltInMadeIn(d: Device, req: Request, x: Input)
    ensures BuiltInIn(d, req, x).Some? ==> MadeIn(x, BuiltInIn(d, req, x).value)
    ensures BuiltInOut(req, x).Some? ==> MadeIn(x, BuiltInOut(req, x).value)
  {
  }

  lemma ControlMadeIn(d: Device, req: Request, x: Input)
    ensures AllMadeIn(x, ControlIn(d, req, x).calls) && AllMadeIn(x, ControlOut(d, req, x).calls)
  {
    hide Ask, Finish, BuiltInIn, BuiltInOut, EndpointOf, MadeIn;
    AskMadeIn(d, x, In, 0);
    AskMadeIn(d, x, UsbDirection.Out, 0);
    var a, b := Ask(d, x.classes, In, 0), Ask(d, x.classes, UsbDirection.Out, 0);
    BuiltInMadeIn(a.dev, req, x);
    FinishMadeIn(a.dev, BuiltInIn(a.dev, req, x), x);
    FinishMadeIn(Configure(b.dev, req), BuiltInOut(req, x), x);
    hide Configure;
    var side := OutSideCalls(b.dev, req);
    assert AllMadeIn(x, side);
    hide OutSideCalls;
    MadeInBoth(x, a.calls, Finish(a.dev, BuiltInIn(a.dev, req, x)).calls);
    MadeInBoth(x, b.calls, side);
    MadeInBoth(x, b.calls + side, Finish(Configure(b.dev, req), BuiltInOut(req, x)).calls);
  }

  lemma InCompleteMadeIn(d: Device, x: Input)
    requires x.event.DataEvent? && x.event.pending.epInComplete[0]
    ensures AllMadeIn(x, Ep0InComplete(d, x).calls)
  {
    hide Step;
  }

  lemma Endpoint0MadeIn(d: Device, x: Input)
    requires x.event.DataEvent?
    ensures AllMadeIn(x, Endpoint0(d, x.event.pending, x).calls)
  {
    var ev := x.event.pending;
    var op := if ev.epSetup[0] then SetupOp(x.offer) else OutOp(x.offer);
    var e := Do(d, op);
    var t := Step(d.pipe, op);
    if ev.epInComplete[0] {
      InCompleteMadeIn(d, x);
      InCompleteMadeIn(e, x);
    }
    if t.reply.Got? {
      ControlMadeIn(e, t.reply.req, x);
    }
    hide Step, ControlIn, ControlOut, Ep0InComplete, MadeIn;
    if ev.epSetup[0] || ev.epOut[0] {
      var rest := Endpoint0(d, ev, x).calls[1..];
      assert AllMadeIn(x, rest);
      assert AllMadeIn(x, [PipeCall(op)]) by { MadeInSetupOrOut(x, op); }
      MadeInBoth(x, [PipeCall(op)], rest);
      assert Endpoint0(d, ev, x).calls == [PipeCall(op)] + rest;
    }
  }

  lemma MadeInSetupOrOut(x: Input, op: Op)
    requires x.event.DataEvent? && (x.event.pending.epSetup[0] || x.event.pending.epOut[0])
    requires op == if x.event.pending.epSetup[0] then SetupOp(x.offer) else OutOp(x.offer)
    ensures MadeIn(x, op)
  {
  }

  lemma PollMadeIn(d: Device, x: Input)
    ensures AllMadeIn(x, Poll(d, x).calls)
  {
    hide Step, Scan;
    var w := Wake(d);
    if x.event.DataEvent? {
      Endpoint0MadeIn(w.dev, x);
      hide Endpoint0;
      var a := Endpoint0(w.dev, x.event.pending, x).calls;
      var more := EndpointCalls(Scan(x.event.pending, 1, |x.classes|));
      assert AllMadeIn(x, more) && AllMadeIn(x, PollClasses(|x.classes|));
      hide MadeIn;
      MadeInBoth(x, a, more);
      MadeInBoth(x, a + more, PollClasses(|x.classes|));
      assert AllMadeIn(x, Handle(w.dev, x).calls);
    }
    assert AllMadeIn(x, Handle(w.dev, x).calls);
    hide Handle;
    MadeInBoth(x, w.calls, Handle(w.dev, x).calls);
  }

  /** Some poll of the run makes the operation. */
  ghost predicate MadeBy(xs: seq<Input>, op: Op) {
    exists j | 0 <= j < |xs| :: MadeIn(xs[j], op)
  }

  /** Every operation a run makes on its pipe is made by some poll, with that poll's answers. */
  ghost predicate AllMadeBy(xs: seq<Input>, ops: seq<Op>) {
    forall k | 0 <= k < |ops| :: MadeBy(xs, ops[k])
  }

  lemma {:induction false} RunMadeBy(d: Device, xs: seq<Input>)
    ensures AllMadeBy(xs, PipeOps(RunDevice(d, xs).calls))
    decreases |xs|
  {
    if xs != [] {
      var first := Poll(d, xs[0]);
      var rest := RunDevice(first.dev, xs[1..]);
      PollMadeIn(d, xs[0]);
      RunMadeBy(first.dev, xs[1..]);
      PipeOpsAppend(first.calls, rest.calls);
      OpsMadeIn(xs[0], first.calls);
      MadeByBoth(xs, PipeOps(first.calls), PipeOps(rest.calls));
    }
  }

  lemma MadeByBoth(xs: seq<Input>, a: seq<Op>, b: seq<Op>)
    requires xs != []
    requires forall k | 0 <= k < |a| :: MadeIn(xs[0], a[k])
    requires AllMadeBy(xs[1..], b)
    ensures AllMadeBy(xs, a + b)
  {
    hide MadeIn;
    forall k | 0 <= k < |a + b| ensures MadeBy(xs, (a + b)[k]) {
      if k < |a| {
        assert MadeIn(xs[0], a[k]);
      } else {
        assert MadeBy(xs[1..], b[k - |a|]);
        var j :| 0 <= j < |xs[1..]| && MadeIn(xs[1..][j], b[k - |a|]);
        assert MadeIn(xs[j + 1], b[k - |a|]);
      }
    }
  }

  lemma {:induction false} OpsMadeIn(x: Input, calls: seq<Call>)
    requires AllMadeIn(x, calls)
    ensures forall k | 0 <= k < |PipeOps(calls)| :: MadeIn(x, PipeOps(calls)[k])
    decreases |calls|
  {
    if calls != [] {
      assert AllMadeIn(x, calls[1..]) by { assert forall k | 0 <= k < |calls[1..]| :: calls[1..][k] == calls[k + 1]; }
      OpsMadeIn(x, calls[1..]);
    }
  }

  predicate TameOp(op: Op) {
    !op.AcceptStaticOp? && (op.AcceptInOp? ==> !op.filler.panics)
  }

  ghost predicate AllTame(ops: seq<Op>) {
    forall k | 0 <= k < |ops| :: TameOp(ops[k])
  }

  lemma RunTame(d: Device, xs: seq<Input>)
    requires forall k | 0 <= k < |xs| :: Tame(xs[k])
    ensures AllTame(PipeOps(RunDevice(d, xs).calls))
  {
    hide RunDevice;
    RunMadeBy(d, xs);
    var ops := PipeOps(RunDevice(d, xs).calls);
    forall k | 0 <= k < |ops| ensures TameOp(ops[k]) {
      assert MadeBy(xs, ops[k]);
      var j :| 0 <= j < |xs| && MadeIn(xs[j], ops[k]);
    }
  }

  /** With nothing left over, no static answers and no panicking callback, every answer is in reach. */
  lemma {:induction false} TameInReach(p: Pipe, ops: seq<Op>)
    requires p.staticBuf.None? && AllTame(ops)
    ensures AllInReach(p, ops)
    decreases |ops|
  {
    if ops != [] {
      assert TameOp(ops[0]);
      assert Step(p, ops[0]).pipe.staticBuf.None?;
      TameInReach(Step(p, ops[0]).pipe, ops[1..]);
    }
  }

  /**
   * A device whose classes never answer from a static buffer, and whose callbacks return, needs no
   * other condition: no run reaches a Rust panic or leaves the protocol, whatever the host, driver
   * and classes do.
   */
  lemma SafeWithoutStaticAnswers(d: Device, xs: seq<Input>)
    requires Built(d) && forall k | 0 <= k < |xs| :: Tame(xs[k])
    ensures var o := RunDevice(d, xs);
            && Inv(o.dev.pipe) && !o.dev.halted
            && Follow(Quiet, Events(d.pipe, PipeOps(o.calls)), d.pipe.mps, false) == PhaseOf(o.dev.pipe)
  {
    hide Step, AllInReach, Poll;
    var o := RunDevice(d, xs);
    RunTame(d, xs);
    TameInReach(d.pipe, PipeOps(o.calls));
    DeviceFollowsProtocol(d, xs);
  }
}

/**
 * `UsbDevice` in the source's own form: fields updated step by step, loops over the class list and
 * the endpoint mask. Each method is proved to do what its step function in DeviceModel says, so
 * the theorems about device runs are theorems about this class.
 */
module UsbDevice {
  import opened UsbTypes
  import opened Control
  import opened Bus
  import opened PipeModel
  import opened ControlPipe
  import opened Dispatch
  import opened DeviceModel
  import opened DevicePipe
  import PipeSafety

  class Stack {
    const quirk: bool
    const pipe: Ep0Pipe
    var state: DeviceState
    var suspended: Option<DeviceState>
    var wakeup: bool
    var selfPowered: bool
    var pending: u16
    var halted: bool
    ghost var calls: seq<Call>

    ghost function View(): Device
      reads this, pipe, pipe.buf
    {
      DeviceModel.Device.Device(quirk, pipe.View(), state, suspended, wakeup, selfPowered, pending, halted)
    }

    /** This object has gone from `before`, with `log` behind it, through the outcome `o`. */
    ghost predicate Went(log: seq<Call>, o: Outcome)
      reads this, pipe, pipe.buf
    {
      calls == log + o.calls && halted == o.dev.halted && (!halted ==> View() == o.dev)
    }

    constructor (buf: array<byte>, mps: nat, quirk: bool)
      requires 0 < mps <= buf.Length
      ensures Built(View()) && calls == [] && fresh(pipe) && pipe.buf == buf
    {
      this.quirk := quirk;
      pipe := new Ep0Pipe(buf, mps);
      state := Default;
      suspended := None;
      wakeup := false;
      selfPowered := false;
      pending := 0;
      halted := false;
      calls := [];
    }

    /** One operation on the pipe; a panic ends the program. */
    method Do(op: Op) returns (r: Reply)
      requires !halted
      modifies this`halted, this`calls, pipe, pipe.buf
      ensures Went(old(calls), Outcome(DeviceModel.Do(old(View()), op), [PipeCall(op)]))
      ensures r == Step(old(View()).pipe, op).reply
    {
      match op {
        case SetupOp(o) => r := pipe.HandleSetup(o);
        case OutOp(o) => r := pipe.HandleOut(o);
        case InDoneOp(t) => r := pipe.HandleInComplete(t);
        case AcceptOutOp(t) => r := pipe.AcceptOut(t);
        case AcceptInOp(f, t) => r := pipe.AcceptIn(f, t);
        case AcceptStaticOp(d, t) => r := pipe.AcceptInStatic(d, t);
        case RejectOp => r := pipe.Reject();
        case ResetOp =>
          pipe.Reset();
          r := Done;
      }
      calls := calls + [PipeCall(op)];
      halted := r.Panicked?;
    }

    /** Puts the request to one class. */
    method AskClass(c: ClassScript, dir: UsbDirection, k: nat)
      requires !halted
      modifies this`halted, this`calls, pipe, pipe.buf
      ensures var a := DoAnswer(old(View()), AnswerOp(c, dir));
              Went(old(calls), Outcome(a.dev, [ClassAsked(k)] + a.calls))
    {
      hide PipeModel.Step;
      calls := calls + [ClassAsked(k)];
      var answer := AnswerOp(c, dir);
      if answer.Some? {
        var _ := Do(answer.value);
      }
    }

    /** The class loop of control_in and control_out. */
    method Ask(classes: seq<ClassScript>, dir: UsbDirection) returns (answered: bool)
      requires !halted
      modifies this`halted, this`calls, pipe, pipe.buf
      ensures Went(old(calls), DeviceModel.Ask(old(View()), classes, dir, 0))
      ensures !halted ==> answered == !(classes == [] || View().pipe.Waiting())
    {
      hide DeviceModel.DoAnswer;
      ghost var whole := DeviceModel.Ask(View(), classes, dir, 0);
      ghost var log, now := calls, View();
      var k := 0;
      while k < |classes|
        invariant 0 <= k <= |classes| && !halted && now == View()
        invariant k > 0 ==> now.pipe.Waiting()
        invariant var rest := DeviceModel.Ask(now, classes, dir, k);
                  whole.dev == rest.dev && log + whole.calls == calls + rest.calls
      {
        ghost var a := DoAnswer(now, AnswerOp(classes[k], dir));
        ghost var step := [ClassAsked(k)] + a.calls;
        ghost var before := calls;
        AskClass(classes[k], dir, k);
        if halted {
          return false;
        }
        now := View();
        var waiting := pipe.WaitingForResponse();
        if !waiting {
          return true;
        }
        Assoc(before, step, DeviceModel.Ask(now, classes, dir, k + 1).calls);
        k := k + 1;
      }
      return false;
    }

    /** The built-in answer, and the final reject if the pipe is still waiting. */
    method Finish(answer: Option<Op>) returns (failed: bool)
      requires !halted
      modifies this`halted, this`calls, pipe, pipe.buf
      ensures Went(old(calls), DeviceModel.Finish(old(View()), answer))
      ensures failed == (answer.Some? && Step(old(View()).pipe, answer.value).reply.Failed?)
    {
      failed := false;
      if answer.Some? {
        var r := Do(answer.value);
        if halted || r.Failed? {
          return r.Failed?;
        }
      }
      var waiting := pipe.WaitingForResponse();
      if waiting {
        var _ := Do(RejectOp);
      }
    }

    method ControlIn(req: Request, x: Input)
      requires !halted
      modifies this`halted, this`calls, pipe, pipe.buf
      ensures Went(old(calls), DeviceModel.ControlIn(old(View()), req, x))
    {
      hide DeviceModel.Ask, DeviceModel.Finish, BuiltInIn;
      var answered := Ask(x.classes, In);
      if halted || answered {
        return;
      }
      var answer := BuiltInAnswer(req, x);
      var _ := Finish(answer);
    }

    /** The match over standard IN requests. */
    method BuiltInAnswer(req: Request, x: Input) returns (answer: Option<Op>)
      requires !halted
      ensures answer == BuiltInIn(View(), req, x)
    {
      if !req.requestType.Standard? {
        return None;
      }
      match (req.recipient, req.request) {
        case (Device, GET_STATUS) =>
          var status := if selfPowered then 1 else 0;
          answer := Some(Accept([status + if wakeup then 2 else 0, 0], x.builtInTake));
        case (Interface, GET_STATUS) =>
          answer := Some(Accept([0, 0], x.builtInTake));
        case (Endpoint, GET_STATUS) =>
          answer := Some(Accept([if EndpointOf(req.index) in x.stalled then 1 else 0, 0], x.builtInTake));
        case (Device, GET_DESCRIPTOR) =>
          match x.rendering {
            case NoDescriptor =>
              answer := Some(RejectOp);
            case Rendered(image, position) =>
              answer := Some(AcceptInOp(Filler(image, Ok(Min(position, pipe.buf.Length))), x.builtInTake));
            case RenderFailed(image, e) =>
              answer := Some(AcceptInOp(Filler(image, Err(e)), x.builtInTake));
            case RenderPanics =>
              answer := Some(AcceptInOp(Filler([], Ok(0), true), x.builtInTake));
          }
        case (Device, GET_CONFIGURATION) =>
          answer := Some(Accept([if state.Configured? then 1 else 0], x.builtInTake));
        case (Interface, GET_INTERFACE) =>
          if req.index > 255 {
            return Some(RejectOp);
          }
          var k := 0;
          while k < |x.classes|
            invariant 0 <= k <= |x.classes|
            invariant FirstAlt(x.classes) == FirstAlt(x.classes[k..])
          {
            if x.classes[k].altSetting.Some? {
              return Some(Accept([x.classes[k].altSetting.value], x.builtInTake));
            }
            k := k + 1;
          }
          answer := Some(Accept([0], x.builtInTake));
        case _ =>
          answer := None;
      }
    }

    function Accept(bytes: seq<byte>, t: Take): Op
      reads this, pipe, pipe.buf
    {
      AcceptInOp(Copying(bytes, pipe.buf.Length), t)
    }

    method ControlOut(req: Request, x: Input)
      requires !halted
      modifies this, pipe, pipe.buf
      ensures Went(old(calls), DeviceModel.ControlOut(old(View()), req, x))
    {
      hide DeviceModel.Ask, DeviceModel.Finish;
      var answered := Ask(x.classes, UsbDirection.Out);
      if halted || answered {
        return;
      }
      var answer: Option<Op> := None;
      if req.requestType.Standard? {
        answer := Configure(req, x);
      }
      var _ := Finish(answer);
    }

    /** The match over standard OUT requests: the fields change before the pipe answers. */
    method Configure(req: Request, x: Input) returns (answer: Option<Op>)
      requires !halted && req.requestType.Standard?
      modifies this`state, this`wakeup, this`pending, this`calls
      ensures View() == DeviceModel.Configure(old(View()), req)
      ensures calls == old(calls) + OutSideCalls(old(View()), req)
      ensures answer == BuiltInOut(req, x)
    {
      answer := Some(AcceptOutOp(x.builtInTake));
      match (req.recipient, req.request) {
        case (Device, CLEAR_FEATURE) =>
          if req.value == FEATURE_DEVICE_REMOTE_WAKEUP {
            calls := calls + [WakeupHandled(false)];
            wakeup := false;
            return;
          }
        case (Endpoint, CLEAR_FEATURE) =>
          if req.value == FEATURE_ENDPOINT_HALT {
            calls := calls + [SetStalled(EndpointOf(req.index), false)];
            return;
          }
        case (Device, SET_FEATURE) =>
          if req.value == FEATURE_DEVICE_REMOTE_WAKEUP {
            calls := calls + [WakeupHandled(true)];
            wakeup := true;
            return;
          }
        case (Endpoint, SET_FEATURE) =>
          if req.value == FEATURE_ENDPOINT_HALT {
            calls := calls + [SetStalled(EndpointOf(req.index), true)];
            return;
          }
        case (Device, SET_ADDRESS) =>
          if 1 <= req.value <= 127 {
            calls := calls + [AddressHandled(req.value)];
            if quirk {
              calls := calls + [SetAddress(req.value)];
              state := Addressed;
            } else {
              pending := req.value;
            }
            return;
          }
        case (Device, SET_CONFIGURATION) =>
          if req.value == 1 {
            calls := calls + [ConfigHandled(1)];
            state := Configured;
            return;
          } else if req.value == 0 {
            calls := calls + [ConfigHandled(0)];
            if !state.Default? {
              state := Addressed;
            }
            return;
          }
        case (Interface, SET_INTERFACE) =>
          if req.index <= 255 && req.value <= 255 {
            for k := 0 to |x.classes|
              invariant forall j | 0 <= j < k :: !x.classes[j].setAlt
            {
              if x.classes[k].setAlt {
                return;
              }
            }
            if req.value == 0 {
              return;
            }
          }
        case _ =>
      }
      answer := Some(RejectOp);
    }

    method InComplete(x: Input)
      requires !halted
      modifies this, pipe, pipe.buf
      ensures Went(old(calls), Ep0InComplete(old(View()), x))
    {
      var r := Do(InDoneOp(x.inTake));
      if r.StatusDone? {
        calls := calls + [StatusDelivered];
        if !quirk && pending != 0 {
          calls := calls + [SetAddress(pending)];
          pending := 0;
          state := Addressed;
        }
      }
    }

    /** Answers a request that a SETUP or OUT packet completed. */
    method Control(req: Request, x: Input)
      requires !halted
      modifies this, pipe, pipe.buf
      ensures Went(old(calls), if req.direction.In? then DeviceModel.ControlIn(old(View()), req, x)
                               else DeviceModel.ControlOut(old(View()), req, x))
    {
      hide DeviceModel.ControlIn, DeviceModel.ControlOut;
      if req.direction.In? {
        ControlIn(req, x);
      } else {
        ControlOut(req, x);
      }
    }

    method Endpoint0(ev: Pending, x: Input)
      requires !halted
      modifies this, pipe, pipe.buf
      ensures Went(old(calls), DeviceModel.Endpoint0(old(View()), ev, x))
    {
      hide DeviceModel.ControlIn, DeviceModel.ControlOut, DeviceModel.Ep0InComplete, PipeModel.Step;
      if !All(ev)[0] {
        return;
      }
      if !ev.epSetup[0] && !ev.epOut[0] {
        InComplete(x);
        return;
      }
      var op := if ev.epSetup[0] then SetupOp(x.offer) else OutOp(x.offer);
      var r := Do(op);
      if halted {
        return;
      }
      ghost var d := View();
      if r.Got? {
        Control(r.req, x);
        ghost var o :=
          if r.req.direction.In? then DeviceModel.ControlIn(d, r.req, x) else DeviceModel.ControlOut(d, r.req, x);
        Assoc(old(calls), [PipeCall(op)], o.calls);
      } else if ev.epInComplete[0] {
        InComplete(x);
        Assoc(old(calls), [PipeCall(op)], Ep0InComplete(d, x).calls);
      }
    }

    method Reset(n: nat)
      requires !halted
      modifies this, pipe, pipe.buf
      ensures Went(old(calls), HandleReset(old(View()), n))
    {
      hide PipeModel.Step;
      calls := calls + [BusReset];
      state := Default;
      suspended := None;
      wakeup := false;
      pending := 0;
      var _ := Do(ResetOp);
      ResetAll(n);
    }

    method ResetAll(n: nat)
      modifies this`calls
      ensures calls == old(calls) + ResetClasses(n)
    {
      for k := 0 to n
        invariant calls == old(calls) + ResetClasses(k)
      {
        calls := calls + [ClassReset(k)];
      }
    }

    method PollAll(n: nat)
      modifies this`calls
      ensures calls == old(calls) + PollClasses(n)
    {
      for k := 0 to n
        invariant calls == old(calls) + PollClasses(k)
      {
        calls := calls + [ClassPolled(k)];
      }
    }

    /** The data branch: endpoint 0, the other endpoints, then every class's own poll. */
    method HandleData(ev: Pending, x: Input)
      requires !halted
      modifies this, pipe, pipe.buf
      ensures Went(old(calls), DeviceModel.HandleData(old(View()), ev, x))
    {
      hide DeviceModel.Endpoint0;
      Endpoint0(ev, x);
      if halted {
        return;
      }
      ghost var o := DeviceModel.Endpoint0(old(View()), ev, x);
      var epCalls := DispatchEndpoints(ev, |x.classes|);
      calls := calls + EndpointCalls(epCalls);
      Assoc(old(calls), o.calls, EndpointCalls(epCalls));
      PollAll(|x.classes|);
      Assoc(old(calls), o.calls + EndpointCalls(epCalls), PollClasses(|x.classes|));
    }

    /** The poll's match over bus events; true exactly when there was data for the classes. */
    method Handle(x: Input) returns (data: bool)
      requires !halted
      modifies this, pipe, pipe.buf
      ensures Went(old(calls), DeviceModel.Handle(old(View()), x))
      ensures data == x.event.DataEvent?
    {
      hide DeviceModel.HandleData, DeviceModel.HandleReset;
      match x.event {
        case NoEvent | ResumeEvent =>
        case ResetEvent =>
          Reset(|x.classes|);
        case DataEvent(ev) =>
          HandleData(ev, x);
          return true;
        case SuspendEvent =>
          calls := calls + [BusSuspend];
          suspended := Some(state);
          state := Suspend;
      }
      return false;
    }

    method Poll(x: Input) returns (data: bool)
      requires !halted
      modifies this, pipe, pipe.buf
      ensures Went(old(calls), DeviceModel.Poll(old(View()), x))
      ensures !halted ==> data == x.event.DataEvent?
    {
      hide DeviceModel.Handle;
      if state.Suspend? {
        if x.event.SuspendEvent? || x.event.NoEvent? {
          return false;
        }
        calls := calls + [BusResume];
        if suspended.None? {
          halted := true;
          return false;
        }
        state := suspended.value;
        suspended := None;
      }
      ghost var w := Wake(old(View()));
      data := Handle(x);
      Assoc(old(calls), w.calls, DeviceModel.Handle(w.dev, x).calls);
    }

    /**
     * The program's main loop: polls until it has nothing more to poll for, or panics. With classes
     * that never answer from a static buffer, and callbacks that return, a device fresh from the
     * builder never does.
     */
    method Run(xs: seq<Input>)
      requires !halted
      modifies this, pipe, pipe.buf
      ensures Went(old(calls), RunDevice(old(View()), xs))
      ensures Built(old(View())) && (forall k | 0 <= k < |xs| :: Tame(xs[k])) ==>
                !halted && PipeSafety.Inv(View().pipe)
    {
      hide DeviceModel.Poll;
      ghost var log, d := calls, View();
      ghost var whole := RunDevice(d, xs);
      var k := 0;
      while k < |xs| && !halted
        invariant 0 <= k <= |xs|
        invariant !halted ==> whole.dev == RunDevice(View(), xs[k..]).dev
        invariant !halted ==> log + whole.calls == calls + RunDevice(View(), xs[k..]).calls
        invariant halted ==> whole.dev.halted && calls == log + whole.calls
      {
        ghost var before, rest := calls, xs[k + 1..];
        ghost var first := DeviceModel.Poll(View(), xs[k]);
        assert xs[k..][0] == xs[k] && xs[k..][1..] == rest;
        var _ := Poll(xs[k]);
        Assoc(before, first.calls, RunDevice(first.dev, rest).calls);
        if halted {
          HaltedRun(first.dev, rest);
          assert first.calls + [] == first.calls;
        }
        k := k + 1;
      }
      assert !halted ==> xs[k..] == [];
      assert calls + [] == calls;
      if Built(d) && forall k | 0 <= k < |xs| :: Tame(xs[k]) {
        SafeWithoutStaticAnswers(d, xs);
      }
    }
  }
}

/**
 * Whole runs of the device: address safety (section 9.4.6 of USB 2.0), configuration history
 * (section 9.4.7), the suspend contract of src/bus.rs, and suspend transparency (section 9.1.1.6).
 */
module DeviceHistory {
  import opened UsbTypes
  import opened Control
  import opened PipeModel
  import opened Dispatch
  import opened DeviceModel
  import opened DevicePipe

  /** The state the device is in or, when suspended, will go back to. */
  function Effective(d: Device): DeviceState {
    if d.suspended.Some? then d.suspended.value else d.state
  }

  /** What the log of calls alone says about the device. */
  datatype History = History(
    awake: bool,
    state: DeviceState,
    wakeup: bool,
    pending: u16,         // SET_ADDRESS handled, not yet applied, no reset since
    delivered: bool,      // the last call was StatusDelivered
    handled: nat,         // SET_ADDRESS requests handled
    applied: nat,         // set_device_address calls
    ok: bool)             // every suspend, resume and set_device_address so far was in order

  const START := History(true, Default, false, 0, false, 0, 0, true)

  function Note(h: History, c: Call, quirk: bool): History {
    var n := h.(delivered := c.StatusDelivered?);
    match c
    case BusSuspend => n.(ok := h.ok && h.awake, awake := false)
    case BusResume => n.(ok := h.ok && !h.awake, awake := true)
    case BusReset => n.(state := Default, wakeup := false, pending := 0)
    case AddressHandled(a) => n.(handled := h.handled + 1, pending := if quirk then 0 else a)
    case SetAddress(a) =>
      n.(ok := h.ok && 1 <= a <= 127 && (quirk || (h.delivered && a == h.pending)),
         applied := h.applied + 1, pending := 0, state := Addressed)
    case ConfigHandled(v) =>
      n.(state := if v == 1 then Configured else if h.state.Default? then Default else Addressed)
    case WakeupHandled(on) => n.(wakeup := on)
    case _ => n
  }

  function Recall(h: History, calls: seq<Call>, quirk: bool): History
    decreases |calls|
  {
    if calls == [] then h else Recall(Note(h, calls[0], quirk), calls[1..], quirk)
  }

  lemma {:induction false} RecallAppend(h: History, a: seq<Call>, b: seq<Call>, quirk: bool)
    ensures Recall(h, a + b, quirk) == Recall(Recall(h, a, quirk), b, quirk)
    decreases |a|
  {
    if a == [] {
      assert a + b == b;
    } else {
      assert (a + b)[1..] == a[1..] + b;
      RecallAppend(Note(h, a[0], quirk), a[1..], b, quirk);
    }
  }

  /** Calls that say nothing about power, address or configuration. */
  predicate Plain(c: Call) {
    c.PipeCall? || c.ClassAsked? || c.ClassReset? || c.ClassPolled? || c.ClassEndpoint? || c.SetStalled?
  }

  ghost predicate AllPlain(calls: seq<Call>) {
    forall k | 0 <= k < |calls| :: Plain(calls[k])
  }

  lemma {:induction false} RecallPlain(h: History, calls: seq<Call>, quirk: bool)
    requires AllPlain(calls)
    ensures Recall(h, calls, quirk) == h.(delivered := h.delivered && calls == [])
    decreases |calls|
  {
    if calls != [] {
      assert Plain(calls[0]);
      RecallPlain(Note(h, calls[0], quirk), calls[1..], quirk);
    }
  }

  /** The log and the device agree. */
  ghost predicate Agrees(d: Device, h: History) {
    && Booked(d)
    && h.ok
    && h.awake == !d.state.Suspend?
    && h.state == Effective(d)
    && h.wakeup == d.wakeup
    && h.pending == d.pending <= 127
    && (d.quirk ==> d.pending == 0)
    && h.applied + (if d.pending != 0 then 1 else 0) <= h.handled
  }

  /** Agreement carries across an outcome, whatever the history before it. */
  ghost predicate Keeps(d: Device, o: Outcome) {
    && o.dev.quirk == d.quirk
    && forall h: History | Agrees(d, h) :: Agrees(o.dev, Recall(h, o.calls, d.quirk))
  }

  lemma KeepsPlain(d: Device, e: Device, calls: seq<Call>)
    requires AllPlain(calls) && e == d.(pipe := e.pipe, halted := e.halted)
    ensures Keeps(d, Outcome(e, calls))
  {
    forall h: History | Agrees(d, h) ensures Agrees(e, Recall(h, calls, d.quirk)) {
      RecallPlain(h, calls, d.quirk);
    }
  }

  lemma KeepsThen(d: Device, a: Outcome, b: Outcome)
    requires Keeps(d, a) && Keeps(a.dev, b)
    ensures Keeps(d, Outcome(b.dev, a.calls + b.calls))
  {
    forall h: History | Agrees(d, h) ensures Agrees(b.dev, Recall(h, a.calls + b.calls, d.quirk)) {
      RecallAppend(h, a.calls, b.calls, d.quirk);
      assert Agrees(a.dev, Recall(h, a.calls, d.quirk));
    }
  }

  lemma {:induction false} AskPlain(d: Device, classes: seq<ClassScript>, dir: UsbDirection, k: nat)
    requires k <= |classes|
    ensures AllPlain(Ask(d, classes, dir, k).calls)
    decreases |classes| - k
  {
    if k < |classes| {
      var a := DoAnswer(d, AnswerOp(classes[k], dir));
      if !a.dev.halted && a.dev.pipe.Waiting() {
        AskPlain(a.dev, classes, dir, k + 1);
      }
    }
  }

  lemma AskKeepsHistory(d: Device, classes: seq<ClassScript>, dir: UsbDirection)
    ensures Keeps(d, Ask(d, classes, dir, 0))
  {
    AskPlain(d, classes, dir, 0);
    AskKeeps(d, classes, dir, 0);
    KeepsPlain(d, Ask(d, classes, dir, 0).dev, Ask(d, classes, dir, 0).calls);
  }

  lemma FinishKeepsHistory(d: Device, answer: Option<Op>)
    ensures Keeps(d, Finish(d, answer))
  {
    KeepsPlain(d, Finish(d, answer).dev, Finish(d, answer).calls);
  }

  /** Built-in handling moves the fields exactly as its log entries say. */
  lemma ConfigureNoted(d: Device, req: Request, h: History)
    requires Awake(d) && Agrees(d, h)
    ensures var e, calls := Configure(d, req), OutSideCalls(d, req);
            && |calls| <= 2
            && Agrees(e, if calls == [] then h else if |calls| == 1 then Note(h, calls[0], d.quirk)
                         else Note(Note(h, calls[0], d.quirk), calls[1], d.quirk))
  {
    hide EndpointOf;
    if !req.requestType.Standard? || req.recipient != Recipient.Device {
    } else if req.request == SET_ADDRESS {
    } else if req.request == SET_CONFIGURATION {
    } else {
    }
  }

  lemma ConfigureKeepsHistory(d: Device, req: Request)
    requires Awake(d)
    ensures Keeps(d, Outcome(Configure(d, req), OutSideCalls(d, req)))
  {
    var e, calls := Configure(d, req), OutSideCalls(d, req);
    assert e.quirk == d.quirk;
    forall h: History | Agrees(d, h) ensures Agrees(e, Recall(h, calls, d.quirk)) {
      ConfigureNoted(d, req, h);
      RecallTwo(h, calls, d.quirk);
      hide Configure, OutSideCalls, Agrees, Note;
    }
  }

  lemma RecallTwo(h: History, calls: seq<Call>, quirk: bool)
    ensures calls == [] ==> Recall(h, calls, quirk) == h
    ensures |calls| == 1 ==> Recall(h, calls, quirk) == Note(h, calls[0], quirk)
    ensures |calls| == 2 ==> Recall(h, calls, quirk) == Note(Note(h, calls[0], quirk), calls[1], quirk)
  {
    if |calls| == 1 {
      assert calls[1..] == [];
    } else if |calls| == 2 {
      assert calls[1..] == [calls[1]];
      assert Recall(Note(h, calls[0], quirk), [calls[1]], quirk) == Note(Note(h, calls[0], quirk), calls[1], quirk);
    }
  }

  lemma ControlKeepsHistory(d: Device, req: Request, x: Input)
    requires Awake(d)
    ensures Keeps(d, ControlIn(d, req, x)) && Keeps(d, ControlOut(d, req, x))
  {
    var a := Ask(d, x.classes, In, 0);
    AskKeepsHistory(d, x.classes, In);
    FinishKeepsHistory(a.dev, BuiltInIn(a.dev, req, x));
    KeepsThen(d, a, Finish(a.dev, BuiltInIn(a.dev, req, x)));
    var b := Ask(d, x.classes, UsbDirection.Out, 0);
    var e := Configure(b.dev, req);
    var side := OutSideCalls(b.dev, req);
    AskKeepsHistory(d, x.classes, UsbDirection.Out);
    AskKeeps(d, x.classes, UsbDirection.Out, 0);
    ConfigureKeepsHistory(b.dev, req);
    KeepsThen(d, b, Outcome(e, side));
    FinishKeepsHistory(e, BuiltInOut(req, x));
    KeepsThen(d, Outcome(e, b.calls + side), Finish(e, BuiltInOut(req, x)));
  }

  lemma InCompleteKeepsHistory(d: Device, x: Input)
    requires Awake(d)
    ensures Keeps(d, Ep0InComplete(d, x))
  {
    var o := Ep0InComplete(d, x);
    forall h: History | Agrees(d, h) ensures Agrees(o.dev, Recall(h, o.calls, d.quirk)) {
      var h1 := Note(h, o.calls[0], d.quirk);
      if |o.calls| == 1 {
        assert Recall(h, o.calls, d.quirk) == h1;
      } else {
        var h2 := Note(h1, o.calls[1], d.quirk);
        assert o.calls[1..][0] == o.calls[1];
        if |o.calls| == 2 {
          assert Recall(h1, o.calls[1..], d.quirk) == h2;
        } else {
          assert o.calls[1..][1..] == [o.calls[2]];
          assert Recall(h2, [o.calls[2]], d.quirk) == Note(h2, o.calls[2], d.quirk);
        }
      }
    }
  }

  lemma Endpoint0KeepsHistory(d: Device, ev: Pending, x: Input)
    requires Awake(d)
    ensures Keeps(d, Endpoint0(d, ev, x))
  {
    if !All(ev)[0] {
      KeepsPlain(d, d, []);
    } else if ev.epSetup[0] || ev.epOut[0] {
      var op := if ev.epSetup[0] then SetupOp(x.offer) else OutOp(x.offer);
      var t := Step(d.pipe, op);
      var e := Do(d, op);
      KeepsPlain(d, e, [PipeCall(op)]);
      if t.reply.Got? { ControlKeepsHistory(e, t.reply.req, x); }
      InCompleteKeepsHistory(e, x);
      KeepsPlain(e, e, []);
      var o := Endpoint0(d, ev, x);
      assert o.calls == [PipeCall(op)] + o.calls[1..];
      KeepsThen(d, Outcome(e, [PipeCall(op)]), Outcome(o.dev, o.calls[1..]));
    } else {
      InCompleteKeepsHistory(d, x);
    }
  }

  lemma ResetKeepsHistory(d: Device, n: nat)
    requires Awake(d)
    ensures Keeps(d, HandleReset(d, n))
  {
    var o := HandleReset(d, n);
    var rest := [PipeCall(ResetOp)] + ResetClasses(n);
    assert o.calls[1..] == rest;
    forall h: History | Agrees(d, h) ensures Agrees(o.dev, Recall(h, o.calls, d.quirk)) {
      RecallPlain(Note(h, BusReset, d.quirk), rest, d.quirk);
    }
  }

  lemma DataKeepsHistory(d: Device, ev: Pending, x: Input)
    requires Awake(d)
    ensures Keeps(d, HandleData(d, ev, x))
  {
    hide Endpoint0;
    Endpoint0KeepsHistory(d, ev, x);
    var a := Endpoint0(d, ev, x);
    var more := EndpointCalls(Scan(ev, 1, |x.classes|)) + PollClasses(|x.classes|);
    KeepsPlain(a.dev, a.dev, more);
    KeepsThen(d, a, Outcome(a.dev, more));
    assert a.calls + more == a.calls + EndpointCalls(Scan(ev, 1, |x.classes|)) + PollClasses(|x.classes|);
  }

  lemma HandleKeepsHistory(d: Device, x: Input)
    requires Awake(d)
    ensures Keeps(d, Handle(d, x))
  {
    match x.event
    case NoEvent | ResumeEvent => KeepsPlain(d, d, []);
    case ResetEvent => ResetKeepsHistory(d, |x.classes|);
    case DataEvent(ev) => DataKeepsHistory(d, ev, x);
    case SuspendEvent =>
      var o := Handle(d, x);
      forall h: History | Agrees(d, h) ensures Agrees(o.dev, Recall(h, o.calls, d.quirk)) {
        assert Recall(h, [BusSuspend], d.quirk) == Note(h, BusSuspend, d.quirk);
      }
  }

  lemma PollKeepsHistory(d: Device, x: Input)
    requires Booked(d)
    ensures Keeps(d, Poll(d, x))
  {
    KeepsPlain(d, d, []);
    var w := Wake(d);
    forall h: History | Agrees(d, h) ensures Agrees(w.dev, Recall(h, w.calls, d.quirk)) {
      if w.calls != [] {
        assert Recall(h, [BusResume], d.quirk) == Note(h, BusResume, d.quirk);
      }
    }
    assert Awake(w.dev);
    HandleKeepsHistory(w.dev, x);
    KeepsThen(d, w, Handle(w.dev, x));
  }

  lemma {:induction false} RunKeepsHistory(d: Device, xs: seq<Input>)
    requires Booked(d)
    ensures Keeps(d, RunDevice(d, xs))
    decreases |xs|
  {
    if xs == [] {
      KeepsPlain(d, d, []);
    } else {
      var first := Poll(d, xs[0]);
      PollKeepsHistory(d, xs[0]);
      PollKeepsBooks(d, xs[0]);
      RunKeepsHistory(first.dev, xs[1..]);
      KeepsThen(d, first, RunDevice(first.dev, xs[1..]));
    }
  }

  /** The log of any run from a built device, read alone, tells the device's fields. */
  lemma HistoryAgrees(d: Device, xs: seq<Input>)
    requires Built(d)
    ensures var o := RunDevice(d, xs); Agrees(o.dev, Recall(START, o.calls, d.quirk))
  {
    RunKeepsHistory(d, xs);
    assert Agrees(d, START);
  }

  /** Nothing that went wrong is forgotten. */
  lemma {:induction false} FaultsStay(h: History, calls: seq<Call>, quirk: bool)
    requires !h.ok
    ensures !Recall(h, calls, quirk).ok
    decreases |calls|
  {
    if calls != [] {
      FaultsStay(Note(h, calls[0], quirk), calls[1..], quirk);
    }
  }

  /** The address that a log leaves pending: the latest SET_ADDRESS handled since the last reset or use. */
  function LatestAddress(log: seq<Call>): u16
    decreases |log|
  {
    if log == [] then 0
    else
      match log[|log| - 1]
      case AddressHandled(a) => a
      case BusReset | SetAddress(_) => 0
      case _ => LatestAddress(log[..|log| - 1])
  }

  lemma RecallLast(log: seq<Call>, quirk: bool)
    requires log != []
    ensures var init, last := log[..|log| - 1], log[|log| - 1];
            Recall(START, log, quirk) == Note(Recall(START, init, quirk), last, quirk)
  {
    hide Note;
    var init, last := log[..|log| - 1], log[|log| - 1];
    assert log == init + [last];
    RecallAppend(START, init, [last], quirk);
    var h := Recall(START, init, quirk);
    assert Recall(h, [last], quirk) == Recall(Note(h, last, quirk), [], quirk);
  }

  lemma {:induction false} RecallLatest(log: seq<Call>)
    ensures Recall(START, log, false).pending == LatestAddress(log)
    ensures Recall(START, log, false).delivered <==> log != [] && log[|log| - 1].StatusDelivered?
    decreases |log|
  {
    if log != [] {
      RecallLast(log, false);
      RecallLatest(log[..|log| - 1]);
      hide Recall;
    }
  }

  function Applications(log: seq<Call>): nat {
    if log == [] then 0 else (if log[0].SetAddress? then 1 else 0) + Applications(log[1..])
  }

  function Requests(log: seq<Call>): nat {
    if log == [] then 0 else (if log[0].AddressHandled? then 1 else 0) + Requests(log[1..])
  }

  lemma {:induction false} RecallCounts(h: History, log: seq<Call>, quirk: bool)
    ensures Recall(h, log, quirk).applied == h.applied + Applications(log)
    ensures Recall(h, log, quirk).handled == h.handled + Requests(log)
    decreases |log|
  {
    if log != [] {
      RecallCounts(Note(h, log[0], quirk), log[1..], quirk);
    }
  }

  /** Each application, where it stands in an orderly log. */
  ghost predicate InOrder(log: seq<Call>, j: nat)
    requires j < |log| && log[j].SetAddress?
  {
    && j > 0 && log[j - 1].StatusDelivered?
    && 1 <= log[j].address <= 127
    && log[j].address == LatestAddress(log[..j])
  }

  lemma OrderlyLog(log: seq<Call>, j: nat)
    requires Recall(START, log, false).ok
    requires j < |log| && log[j].SetAddress?
    ensures InOrder(log, j)
  {
    var before, after := log[..j], log[j + 1..];
    var h := Recall(START, before, false);
    var n := Note(h, log[j], false);
    assert log == before + ([log[j]] + after);
    RecallAppend(START, before, [log[j]] + after, false);
    assert ([log[j]] + after)[1..] == after;
    if !n.ok {
      FaultsStay(n, after, false);
    }
    RecallLatest(before);
  }

  /**
   * Address safety, without the quirk. In any run, `set_device_address` comes right after a
   * status-IN stage has completed, with an address in 1..127 that is the latest SET_ADDRESS
   * handled; an address pending at a reset is never applied; and there are never more
   * applications than requests.
   */
  lemma AddressSafety(d: Device, xs: seq<Input>)
    requires Built(d) && !d.quirk
    ensures var log := RunDevice(d, xs).calls;
            && (forall j: nat | j < |log| && log[j].SetAddress? :: InOrder(log, j))
            && Applications(log) <= Requests(log)
  {
    var log := RunDevice(d, xs).calls;
    HistoryAgrees(d, xs);
    RecallCounts(START, log, false);
    forall j: nat | j < |log| && log[j].SetAddress? ensures InOrder(log, j) {
      OrderlyLog(log, j);
    }
  }

  /** The last event of a log that can change the configuration, if any. */
  function LastChange(log: seq<Call>): Option<Call>
    decreases |log|
  {
    if log == [] then None
    else
      var last := log[|log| - 1];
      if last.BusReset? || last.SetAddress? || last.ConfigHandled? then Some(last)
      else LastChange(log[..|log| - 1])
  }

  lemma {:induction false} RecallLastChange(log: seq<Call>, quirk: bool)
    ensures Recall(START, log, quirk).state.Configured? <==> LastChange(log) == Some(ConfigHandled(1))
    decreases |log|
  {
    if log != [] {
      RecallLast(log, quirk);
      RecallLastChange(log[..|log| - 1], quirk);
      hide Recall;
    }
  }

  /**
   * Configuration history. The device is configured, or will be on resume, exactly when the last
   * of reset, address application and SET_CONFIGURATION was SET_CONFIGURATION(1).
   */
  lemma ConfigurationHistory(d: Device, xs: seq<Input>)
    requires Built(d)
    ensures var o := RunDevice(d, xs);
            Effective(o.dev).Configured? <==> LastChange(o.calls) == Some(ConfigHandled(1))
  {
    HistoryAgrees(d, xs);
    RecallLastChange(RunDevice(d, xs).calls, d.quirk);
  }

  /** The last event of a log that can change the remote-wakeup flag, if any. */
  function LastWakeup(log: seq<Call>): Option<Call>
    decreases |log|
  {
    if log == [] then None
    else
      var last := log[|log| - 1];
      if last.BusReset? || last.WakeupHandled? then Some(last) else LastWakeup(log[..|log| - 1])
  }

  lemma {:induction false} RecallLastWakeup(log: seq<Call>, quirk: bool)
    ensures Recall(START, log, quirk).wakeup <==> LastWakeup(log) == Some(WakeupHandled(true))
    decreases |log|
  {
    if log != [] {
      RecallLast(log, quirk);
      RecallLastWakeup(log[..|log| - 1], quirk);
      hide Recall;
    }
  }

  /** The suspend and resume calls of a log, in order; true is suspend. */
  function PowerCalls(log: seq<Call>): seq<bool> {
    if log == [] then []
    else (if log[0].BusSuspend? then [true] else if log[0].BusResume? then [false] else []) + PowerCalls(log[1..])
  }

  lemma {:induction false} RecallAlternates(h: History, log: seq<Call>, quirk: bool)
    requires Recall(h, log, quirk).ok
    ensures var s := PowerCalls(log);
            && (forall k | 0 <= k < |s| :: s[k] == (h.awake == (k % 2 == 0)))
            && Recall(h, log, quirk).awake == (h.awake == (|s| % 2 == 0))
    decreases |log|
  {
    if log != [] {
      var n := Note(h, log[0], quirk);
      if !n.ok {
        FaultsStay(n, log[1..], quirk);
      }
      if !h.ok {
        FaultsStay(h, log, quirk);
      }
      RecallAlternates(n, log[1..], quirk);
      var s, rest := PowerCalls(log), PowerCalls(log[1..]);
      if log[0].BusSuspend? || log[0].BusResume? {
        forall k | 0 <= k < |s| ensures s[k] == (h.awake == (k % 2 == 0)) {
          if k > 0 { assert s[k] == rest[k - 1]; }
        }
      }
    }
  }

  /**
   * The driver's suspend contract: in any run suspend and resume calls strictly alternate,
   * starting with suspend, and the device is in the Suspend state exactly after an odd number.
   */
  lemma SuspendAlternates(d: Device, xs: seq<Input>)
    requires Built(d)
    ensures var o := RunDevice(d, xs);
            var s := PowerCalls(o.calls);
            && (forall k | 0 <= k < |s| :: s[k] <==> k % 2 == 0)
            && (o.dev.state.Suspend? <==> |s| % 2 == 1)
            && Booked(o.dev)
  {
    HistoryAgrees(d, xs);
    RecallAlternates(START, RunDevice(d, xs).calls, d.quirk);
  }

  /** The device with its suspension undone. */
  function Core(d: Device): Device {
    d.(state := Effective(d), suspended := None)
  }

  predicate PowerEvent(x: Input) {
    x.event.SuspendEvent? || x.event.ResumeEvent? || x.event.NoEvent?
  }

  /** A run without its suspend, resume and empty polls. */
  function Erase(xs: seq<Input>): seq<Input> {
    if xs == [] then []
    else if PowerEvent(xs[0]) then Erase(xs[1..])
    else [xs[0]] + Erase(xs[1..])
  }

  /** The calls other than bus suspend and resume. */
  function Visible(calls: seq<Call>): seq<Call> {
    if calls == [] then []
    else (if calls[0].BusSuspend? || calls[0].BusResume? then [] else [calls[0]]) + Visible(calls[1..])
  }

  lemma {:induction false} VisibleAppend(a: seq<Call>, b: seq<Call>)
    ensures Visible(a + b) == Visible(a) + Visible(b)
  {
    if a == [] {
      assert a + b == b;
    } else {
      assert (a + b)[0] == a[0] && (a + b)[1..] == a[1..] + b;
      VisibleAppend(a[1..], b);
    }
  }

  lemma PollPower(d: Device, x: Input)
    requires Booked(d) && PowerEvent(x)
    ensures var o := Poll(d, x); Core(o.dev) == Core(d) && Visible(o.calls) == []
  {
    var o := Poll(d, x);
    if |o.calls| == 1 {
      assert o.calls[1..] == [];
    }
  }

  lemma PollActive(d: Device, x: Input)
    requires Booked(d) && !PowerEvent(x)
    ensures Poll(d, x).dev == if d.halted then d else Poll(Core(d), x).dev
    ensures Visible(Poll(d, x).calls) == Visible(Poll(Core(d), x).calls)
  {
    if d.state.Suspend? && !d.halted {
      var c := Core(d);
      assert Wake(d) == Outcome(c, [BusResume]);
      assert Wake(c) == Outcome(c, []);
      VisibleAppend([BusResume], Handle(c, x).calls);
      assert Visible([BusResume]) == [];
      assert [] + Handle(c, x).calls == Handle(c, x).calls;
    } else if !d.halted {
      assert Core(d) == d;
    }
  }

  /**
   * Suspend transparency. Two devices that differ only in being suspended, the one run over a
   * sequence of polls and the other over the same with every suspend, resume and empty poll
   * erased, end up differing only in being suspended, after the same calls to the classes, the
   * pipe and the bus, suspend and resume aside.
   */
  lemma {:induction false} SuspendTransparent(d: Device, e: Device, xs: seq<Input>)
    requires Booked(d) && Booked(e) && Core(d) == Core(e)
    ensures Core(RunDevice(d, xs).dev) == Core(RunDevice(e, Erase(xs)).dev)
    ensures Visible(RunDevice(d, xs).calls) == Visible(RunDevice(e, Erase(xs)).calls)
    decreases |xs|
  {
    if xs != [] {
      var x := xs[0];
      var a := Poll(d, x);
      PollKeepsBooks(d, x);
      VisibleAppend(a.calls, RunDevice(a.dev, xs[1..]).calls);
      if PowerEvent(x) {
        PollPower(d, x);
        SuspendTransparent(a.dev, e, xs[1..]);
      } else {
        PollActive(d, x);
        PollActive(e, x);
        var b := Poll(e, x);
        PollKeepsBooks(e, x);
        SuspendTransparent(a.dev, b.dev, xs[1..]);
        assert Erase(xs)[0] == x && Erase(xs)[1..] == Erase(xs[1..]);
        VisibleAppend(b.calls, RunDevice(b.dev, Erase(xs[1..])).calls);
      }
    }
  }
}

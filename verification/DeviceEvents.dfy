/** What a poll makes of the driver's event: the classes' callbacks, bus resets and suspension. */
module DeviceEvents {
  import opened UsbTypes
  import opened Control
  import opened PipeModel
  import opened Dispatch
  import opened DeviceModel
  import opened DevicePipe
  import opened DeviceRequests

  /**
   * A class should hear of the endpoint: the mask bit is set, and a SETUP packet hides an OUT packet.
   * Endpoint 0 is the device's own.
   */
  predicate Due(x: Input, c: EpCall) {
    && x.event.DataEvent? && 1 <= c.endpoint < 16 && c.cls < |x.classes|
    && match c.kind
       case Setup => x.event.pending.epSetup[c.endpoint]
       case OutPacket => x.event.pending.epOut[c.endpoint] && !x.event.pending.epSetup[c.endpoint]
       case InComplete => x.event.pending.epInComplete[c.endpoint]
  }

  /** By endpoint, an IN completion after a packet, by class. */
  predicate Earlier(a: EpCall, b: EpCall) {
    || a.endpoint < b.endpoint
    || (a.endpoint == b.endpoint && !a.kind.InComplete? && b.kind.InComplete?)
    || (a.endpoint == b.endpoint && a.kind == b.kind && a.cls < b.cls)
  }

  ghost predicate Ascending(calls: seq<EpCall>) {
    forall j, k | 0 <= j < k < |calls| :: Earlier(calls[j], calls[k])
  }

  lemma CallsForAscend(ev: Pending, i: nat, classes: nat)
    requires i < MAX_ENDPOINTS
    ensures var calls := CallsFor(ev, i, classes);
            Ascending(calls) && forall k | 0 <= k < |calls| :: calls[k].endpoint == i
  {
  }

  lemma {:induction false} ScanAscends(ev: Pending, i: nat, classes: nat)
    requires i <= MAX_ENDPOINTS
    ensures var calls := Scan(ev, i, classes);
            Ascending(calls) && forall k | 0 <= k < |calls| :: i <= calls[k].endpoint
    decreases MAX_ENDPOINTS - i
  {
    if i < MAX_ENDPOINTS {
      hide CallsFor;
      CallsForAscend(ev, i, classes);
      ScanAscends(ev, i + 1, classes);
      var a, b := CallsFor(ev, i, classes), Scan(ev, i + 1, classes);
      assert forall j, k | 0 <= j < |a| && 0 <= k < |b| :: Earlier(a[j], b[k]);
    }
  }

  predicate ForClasses(c: Call) {
    c.ClassEndpoint? || c.ClassPolled?
  }

  ghost predicate NotForClasses(calls: seq<Call>) {
    forall k | 0 <= k < |calls| :: !ForClasses(calls[k])
  }

  lemma SideNotForClasses(d: Device, req: Request)
    ensures NotForClasses(OutSideCalls(d, req))
  {
    hide EndpointOf;
  }

  lemma ControlNotForClasses(d: Device, req: Request, x: Input)
    ensures NotForClasses(ControlIn(d, req, x).calls) && NotForClasses(ControlOut(d, req, x).calls)
  {
    var a, b := Ask(d, x.classes, In, 0).dev, Ask(d, x.classes, UsbDirection.Out, 0).dev;
    SideNotForClasses(b, req);
    hide Ask, Finish, BuiltInIn, BuiltInOut, Configure, OutSideCalls;
    AskOnlyAsks(d, x.classes, In, 0);
    FinishOnlyAsks(a, BuiltInIn(a, req, x));
    AskOnlyAsks(d, x.classes, UsbDirection.Out, 0);
    FinishOnlyAsks(Configure(b, req), BuiltInOut(req, x));
  }

  lemma InCompleteNotForClasses(d: Device, x: Input)
    ensures NotForClasses(Ep0InComplete(d, x).calls)
  {
    hide Step;
  }

  lemma Endpoint0NotForClasses(d: Device, x: Input)
    requires x.event.DataEvent?
    ensures NotForClasses(Endpoint0(d, x.event.pending, x).calls)
  {
    var ev := x.event.pending;
    var op := if ev.epSetup[0] then SetupOp(x.offer) else OutOp(x.offer);
    var e, t := Do(d, op), Step(d.pipe, op);
    hide Step, Ep0InComplete, ControlIn, ControlOut;
    InCompleteNotForClasses(d, x);
    InCompleteNotForClasses(e, x);
    if t.reply.Got? { ControlNotForClasses(e, t.reply.req, x); }
  }

  lemma OtherNotForClasses(d: Device, x: Input)
    requires !x.event.DataEvent?
    ensures NotForClasses(Poll(d, x).calls)
  {
    hide Step;
  }

  /** The classes' calls of a data poll, if it gets to them. */
  lemma DeliveredCalls(d: Device, x: Input) returns (own: seq<Call>)
    requires Booked(d) && !d.halted && x.event.DataEvent?
    ensures NotForClasses(own)
    ensures Poll(d, x).calls == own + if Poll(d, x).dev.halted then [] else Tail(x)
  {
    var w := Wake(d);
    var a := Endpoint0(w.dev, x.event.pending, x);
    Endpoint0NotForClasses(w.dev, x);
    assert NotForClasses(w.calls);
    DataPollCalls(d, x);
    hide Poll, Endpoint0, Tail, Wake;
    own := w.calls + a.calls;
    Assoc(w.calls, a.calls, if a.dev.halted then [] else Tail(x));
  }

  lemma TailIs(x: Input)
    requires x.event.DataEvent?
    ensures var calls, n := Scan(x.event.pending, 1, |x.classes|), |x.classes|;
            && |Tail(x)| == |calls| + n
            && (forall k | 0 <= k < |calls| :: Tail(x)[k] == ClassEndpoint(calls[k]))
            && (forall k | 0 <= k < n :: Tail(x)[|calls| + k] == ClassPolled(k))
  {
    hide Scan;
  }

  /**
   * Who hears of what. In any poll of a running device, suspended or not, a class is called for an
   * endpoint exactly when the event's masks say so, and polled exactly when there is an event with
   * data; not if the poll ends in a panic, which comes before.
   */
  lemma PollDelivers(d: Device, x: Input, c: EpCall, k: nat)
    requires Booked(d) && !d.halted
    ensures var o := Poll(d, x);
            && (ClassEndpoint(c) in o.calls <==> Due(x, c) && !o.dev.halted)
            && (ClassPolled(k) in o.calls <==> x.event.DataEvent? && k < |x.classes| && !o.dev.halted)
  {
    hide Poll, Tail, Scan, NotForClasses;
    if x.event.DataEvent? {
      var own := DeliveredCalls(d, x);
      ScanContains(x.event.pending, 1, |x.classes|, c);
      TailIs(x);
      TailContains(x, Scan(x.event.pending, 1, |x.classes|), c, k);
      NoneAmong(own, c, k);
    } else {
      OtherNotForClasses(d, x);
      NoneAmong(Poll(d, x).calls, c, k);
    }
  }

  lemma NoneAmong(calls: seq<Call>, c: EpCall, k: nat)
    requires NotForClasses(calls)
    ensures ClassEndpoint(c) !in calls && ClassPolled(k) !in calls
  {
  }

  lemma TailContains(x: Input, calls: seq<EpCall>, c: EpCall, k: nat)
    requires x.event.DataEvent? && |Tail(x)| == |calls| + |x.classes|
    requires forall j | 0 <= j < |calls| :: Tail(x)[j] == ClassEndpoint(calls[j])
    requires forall j | 0 <= j < |x.classes| :: Tail(x)[|calls| + j] == ClassPolled(j)
    ensures ClassEndpoint(c) in Tail(x) <==> c in calls
    ensures ClassPolled(k) in Tail(x) <==> k < |x.classes|
  {
    hide Tail;
    var tail := Tail(x);
    forall j | |calls| <= j < |tail| ensures tail[j] == ClassPolled(j - |calls|) {
      assert tail[|calls| + (j - |calls|)] == ClassPolled(j - |calls|);
    }
    if c in calls {
      var j :| 0 <= j < |calls| && calls[j] == c;
      assert tail[j] == ClassEndpoint(c);
    }
    if k < |x.classes| {
      assert tail[|calls| + k] == ClassPolled(k);
    }
  }

  /**
   * In what order. Endpoint 0 comes first; then the callbacks, ascending by endpoint and without a
   * repetition; then each class's own poll, once, in the order of the list.
   */
  lemma PollOrder(d: Device, x: Input) returns (from: nat)
    requires Booked(d) && !d.halted && x.event.DataEvent? && !Poll(d, x).dev.halted
    ensures var log, n := Poll(d, x).calls, |x.classes|;
            && from + n <= |log|
            && (forall k | 0 <= k < from :: !ForClasses(log[k]))
            && (forall k | from <= k < |log| - n :: log[k].ClassEndpoint?)
            && (forall j, k | from <= j < k < |log| - n :: Earlier(log[j].call, log[k].call))
            && (forall k | 0 <= k < n :: log[|log| - n + k] == ClassPolled(k))
  {
    hide Poll, Tail, Scan, Earlier;
    var own := DeliveredCalls(d, x);
    from := |own|;
    ScanAscends(x.event.pending, 1, |x.classes|);
    TailIs(x);
    OrderOf(own, Scan(x.event.pending, 1, |x.classes|), Tail(x), |x.classes|);
  }

  lemma OrderOf(own: seq<Call>, calls: seq<EpCall>, tail: seq<Call>, n: nat)
    requires NotForClasses(own) && Ascending(calls) && |tail| == |calls| + n
    requires forall k | 0 <= k < |calls| :: tail[k] == ClassEndpoint(calls[k])
    requires forall k | 0 <= k < n :: tail[|calls| + k] == ClassPolled(k)
    ensures var log, from := own + tail, |own|;
            && (forall k | 0 <= k < from :: !ForClasses(log[k]))
            && (forall k | from <= k < |log| - n :: log[k].ClassEndpoint?)
            && (forall j, k | from <= j < k < |log| - n :: Earlier(log[j].call, log[k].call))
            && (forall k | 0 <= k < n :: log[|log| - n + k] == ClassPolled(k))
  {
    hide Earlier;
    var log, from := own + tail, |own|;
    assert forall k | 0 <= k < |own| :: log[k] == own[k];
    assert forall k | from <= k < from + |calls| :: log[k] == tail[k - from] == ClassEndpoint(calls[k - from]);
    forall k | 0 <= k < n ensures log[|log| - n + k] == ClassPolled(k) {
      assert log[|log| - n + k] == tail[|calls| + k];
    }
  }

  /**
   * A bus reset, in any state: the bus, the pipe and every class are reset, in that order, after a
   * resume if the device was suspended; and the device is back where it started.
   */
  lemma ResetPoll(d: Device, x: Input)
    requires Booked(d) && !d.halted && x.event.ResetEvent?
    ensures var o, n := Poll(d, x), |x.classes|;
            var first := (if d.state.Suspend? then [BusResume] else []) + [BusReset, PipeCall(ResetOp)];
            && |o.calls| == |first| + n && o.calls[..|first|] == first
            && (forall k | 0 <= k < n :: o.calls[|first| + k] == ClassReset(k))
            && o.dev.pipe == d.pipe.(state := Idle)
            && o.dev == Device.Device(d.quirk, o.dev.pipe, Default, None, false, d.selfPowered, 0, false)
  {
  }

  /** Whether the bus is suspended, by the host's last word on it. */
  function HostSuspends(before: bool, xs: seq<Input>): bool
    decreases |xs|
  {
    if xs == [] then before
    else HostSuspends(if xs[0].event.NoEvent? then before else xs[0].event.SuspendEvent?, xs[1..])
  }

  lemma SuspendPoll(d: Device, x: Input)
    requires Booked(d) && !d.halted
    ensures Poll(d, x).dev.state.Suspend? <==> if x.event.NoEvent? then d.state.Suspend? else x.event.SuspendEvent?
  {
    if x.event.DataEvent? {
      var w := Wake(d).dev;
      DataPollCalls(d, x);
      Endpoint0KeepsBooks(w, x.event.pending, x);
      hide Poll, Endpoint0;
    } else {
      hide Step;
    }
  }

  /** The device is suspended exactly when the last thing its driver reported was a suspended bus. */
  lemma {:induction false} SuspendFollowsHost(d: Device, xs: seq<Input>)
    requires Booked(d) && !RunDevice(d, xs).dev.halted
    ensures RunDevice(d, xs).dev.state.Suspend? <==> HostSuspends(d.state.Suspend?, xs)
    decreases |xs|
  {
    if xs != [] {
      hide Poll;
      if d.halted { HaltedRun(d, xs); }
      SuspendPoll(d, xs[0]);
      PollKeepsBooks(d, xs[0]);
      SuspendFollowsHost(Poll(d, xs[0]).dev, xs[1..]);
    }
  }
}

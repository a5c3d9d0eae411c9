/** When a SET_ADDRESS takes effect: at its own status stage, or at another request's. */
module DeviceAddress {
  import opened UsbTypes
  import opened Control
  import opened Bus
  import opened PipeModel
  import opened PipeOut
  import opened Dispatch
  import opened DeviceModel
  import opened DevicePipe
  import opened DeviceRequests
  import opened StandardOut

  /** The packet is a SETUP packet that starts a transfer. */
  predicate Starts(o: Offer, capacity: nat) {
    && o.Packet? && |o.data| <= capacity && Parse(o.data).Ok?
    && (Parse(o.data).value.direction.In? || Parse(o.data).value.length <= capacity)
  }

  /** The poll starts another transfer, or resets. */
  predicate Renews(x: Input, capacity: nat) {
    || x.event.ResetEvent?
    || (x.event.DataEvent? && x.event.pending.epSetup[0] && Starts(x.offer, capacity))
  }

  /** The poll brings an empty OUT packet, which is out of turn in the status stage of an OUT request. */
  predicate OutOfTurn(x: Input) {
    x.event.DataEvent? && !x.event.pending.epSetup[0] && x.event.pending.epOut[0] && x.offer == Packet([])
  }

  /** The poll reports that an EP0-IN packet has been taken by the host. */
  predicate Completes(x: Input) {
    x.event.DataEvent? && x.event.pending.epInComplete[0]
  }

  /** What the host and the driver do: the status packet completes before anything else ends the transfer. */
  predicate StatusCompletes(xs: seq<Input>, capacity: nat) {
    && xs != []
    && !Renews(xs[0], capacity) && !OutOfTurn(xs[0])
    && (Completes(xs[0]) || StatusCompletes(xs[1..], capacity))
  }

  /** A call that ends the transfer in progress: a reset, or a SETUP packet that starts another. */
  predicate Ends(c: Call, capacity: nat) {
    c.BusReset? || (c.PipeCall? && c.op.SetupOp? && Starts(c.op.offer, capacity))
  }

  ghost predicate NoneEnds(calls: seq<Call>, capacity: nat) {
    forall k | 0 <= k < |calls| :: !Ends(calls[k], capacity)
  }

  /** The log applies the address before anything ends the transfer in progress. */
  ghost predicate AppliedFirst(log: seq<Call>, address: u16, capacity: nat) {
    exists i | 0 <= i < |log| :: log[i] == SetAddress(address) && NoneEnds(log[..i], capacity)
  }

  lemma AppliedBoth(a: seq<Call>, b: seq<Call>, address: u16, capacity: nat)
    ensures AppliedFirst(a, address, capacity) ==> AppliedFirst(a + b, address, capacity)
    ensures NoneEnds(a, capacity) && SetAddress(address) !in a ==>
              (AppliedFirst(a + b, address, capacity) <==> AppliedFirst(b, address, capacity))
  {
    if AppliedFirst(a, address, capacity) {
      var i :| 0 <= i < |a| && a[i] == SetAddress(address) && NoneEnds(a[..i], capacity);
      assert (a + b)[i] == a[i] && (a + b)[..i] == a[..i];
    }
    if NoneEnds(a, capacity) && SetAddress(address) !in a {
      if AppliedFirst(b, address, capacity) {
        var i :| 0 <= i < |b| && b[i] == SetAddress(address) && NoneEnds(b[..i], capacity);
        NoneEndsBoth(a, b[..i], capacity);
        assert (a + b)[|a| + i] == b[i] && (a + b)[..|a| + i] == a + b[..i];
      }
      if AppliedFirst(a + b, address, capacity) {
        var i :| 0 <= i < |a + b| && (a + b)[i] == SetAddress(address) && NoneEnds((a + b)[..i], capacity);
        assert i >= |a|;
        var j := i - |a|;
        assert (a + b)[..i] == a + b[..j];
        NoneEndsBoth(a, b[..j], capacity);
        assert b[j] == SetAddress(address);
      }
    }
  }

  lemma NoneEndsBoth(a: seq<Call>, b: seq<Call>, capacity: nat)
    ensures NoneEnds(a + b, capacity) <==> NoneEnds(a, capacity) && NoneEnds(b, capacity)
  {
    hide Ends;
    assert forall k | 0 <= k < |a| :: (a + b)[k] == a[k];
    assert forall k | 0 <= k < |b| :: (a + b)[|a| + k] == b[k];
    if NoneEnds(a, capacity) && NoneEnds(b, capacity) {
      forall k | 0 <= k < |a + b| ensures !Ends((a + b)[k], capacity) {
        if k >= |a| { assert (a + b)[k] == b[k - |a|]; }
      }
    }
  }

  /** Once something has ended the transfer with no address applied before it, none is. */
  lemma EndedFirst(a: seq<Call>, c: Call, b: seq<Call>, address: u16, capacity: nat)
    requires Ends(c, capacity) && SetAddress(address) !in a
    ensures !AppliedFirst(a + ([c] + b), address, capacity)
  {
    var log := a + ([c] + b);
    assert log[|a|] == c;
    assert forall j | 0 <= j < |a| :: log[j] == a[j];
    forall i | 0 <= i < |log| && log[i] == SetAddress(address) ensures !NoneEnds(log[..i], capacity) {
      assert log[..i][|a|] == c;
    }
  }

  /** A pipe with no data stage and no answer outstanding, on a device whose books are straight. */
  ghost predicate AtRest(d: Device) {
    Booked(d) && !d.halted && !d.quirk && OutClosed(d.pipe)
  }

  /** The status packet of an OUT request is with the driver, and an address waits for it. */
  ghost predicate Awaiting(d: Device, address: u16) {
    AtRest(d) && d.pipe.state.StatusIn? && d.pending == address != 0
  }

  /** What endpoint 0 does at rest, when no transfer starts. */
  lemma RestingRead(d: Device, x: Input)
    requires x.event.DataEvent? && OutClosed(d.pipe) && !Renews(x, |d.pipe.buf|)
    requires x.event.pending.epSetup[0] || x.event.pending.epOut[0]
    ensures var op := if x.event.pending.epSetup[0] then SetupOp(x.offer) else OutOp(x.offer);
            var t := Step(d.pipe, op);
            && t.pipe == d.pipe.(buf := t.pipe.buf, state := if OutOfTurn(x) then Error else d.pipe.state)
            && |t.pipe.buf| == |d.pipe.buf| && !t.reply.Got? && !t.reply.Panicked?
            && !Ends(PipeCall(op), |d.pipe.buf|)
  {
    hide Parse;
  }

  lemma RestingInComplete(d: Device, x: Input, address: u16)
    requires !d.halted && !d.quirk && OutClosed(d.pipe)
    ensures var o := Ep0InComplete(d, x);
            && !o.dev.halted && NoneEnds(o.calls, |d.pipe.buf|)
            && if d.pipe.state.StatusIn?
               then d.pending != 0 ==> SetAddress(d.pending) in o.calls && o.dev.state.Addressed?
               else o.dev == d && SetAddress(address) !in o.calls
  {
    var o := Ep0InComplete(d, x);
    if d.pipe.state.StatusIn? && d.pending != 0 {
      assert o.calls[2] == SetAddress(d.pending);
    }
  }

  lemma RestingEndpoint0(d: Device, x: Input, address: u16)
    requires x.event.DataEvent? && !d.halted && !d.quirk && OutClosed(d.pipe) && !Renews(x, |d.pipe.buf|)
    ensures var a := Endpoint0(d, x.event.pending, x);
            && !a.dev.halted && NoneEnds(a.calls, |d.pipe.buf|)
            && if d.pipe.state.StatusIn? && Completes(x) && !OutOfTurn(x)
               then d.pending != 0 ==> SetAddress(d.pending) in a.calls && a.dev.state.Addressed?
               else
                 && SetAddress(address) !in a.calls
                 && a.dev == d.(pipe := a.dev.pipe) && |a.dev.pipe.buf| == |d.pipe.buf|
                 && a.dev.pipe.state == if OutOfTurn(x) then Error else d.pipe.state
  {
    var ev := x.event.pending;
    if ev.epSetup[0] || ev.epOut[0] {
      RestingRead(d, x);
      var op := if ev.epSetup[0] then SetupOp(x.offer) else OutOp(x.offer);
      var e := Do(d, op);
      RestingInComplete(e, x, address);
      hide Step, Ep0InComplete, Renews, Ends;
      var a := Endpoint0(d, ev, x);
      var rest := a.calls[1..];
      assert a.calls == [PipeCall(op)] + rest;
      assert NoneEnds([PipeCall(op)], |d.pipe.buf|);
      NoneEndsBoth([PipeCall(op)], rest, |d.pipe.buf|);
    } else {
      RestingInComplete(d, x, address);
      hide Step, Ep0InComplete, Renews, Ends;
    }
  }

  lemma TailQuiet(x: Input, address: u16, capacity: nat)
    requires x.event.DataEvent?
    ensures NoneEnds(Tail(x), capacity) && SetAddress(address) !in Tail(x)
  {
    hide Scan;
  }

  /** A poll at rest that starts nothing: either it applies the waiting address, or nothing changes. */
  lemma RestingPoll(d: Device, x: Input, address: u16)
    requires AtRest(d) && !Renews(x, |d.pipe.buf|)
    ensures var o := Poll(d, x);
            && NoneEnds(o.calls, |d.pipe.buf|)
            && if d.pipe.state.StatusIn? && Completes(x) && !OutOfTurn(x)
               then d.pending != 0 ==> SetAddress(d.pending) in o.calls && o.dev.state.Addressed?
               else
                 && SetAddress(address) !in o.calls
                 && AtRest(o.dev) && o.dev.pending == d.pending && |o.dev.pipe.buf| == |d.pipe.buf|
                 && o.dev.pipe.state == if OutOfTurn(x) then Error else d.pipe.state
  {
    PollKeepsBooks(d, x);
    if x.event.DataEvent? {
      var w := Wake(d);
      assert w.dev.pipe == d.pipe && w.dev.pending == d.pending && !w.dev.halted && !w.dev.quirk;
      hide Poll, Wake, Endpoint0, Tail, Renews, Ends, NoneEnds;
      DataPollCalls(d, x);
      RestingEndpoint0(w.dev, x, address);
      TailQuiet(x, address, |d.pipe.buf|);
      WakeQuiet(d, address);
      var a := Endpoint0(w.dev, x.event.pending, x).calls;
      NoneEndsBoth(a, Tail(x), |d.pipe.buf|);
      NoneEndsBoth(w.calls, a + Tail(x), |d.pipe.buf|);
    } else {
      hide Step;
    }
  }

  lemma WakeQuiet(d: Device, address: u16)
    ensures NoneEnds(Wake(d).calls, |d.pipe.buf|) && SetAddress(address) !in Wake(d).calls
  {
  }

  /** A poll that starts another transfer, or resets, does so before it can apply anything. */
  lemma RenewingPoll(d: Device, x: Input, address: u16, rest: seq<Call>)
    requires AtRest(d) && Renews(x, |d.pipe.buf|)
    ensures !AppliedFirst(Poll(d, x).calls + rest, address, |d.pipe.buf|)
  {
    var w := Wake(d).calls;
    var ending, more := RenewingCalls(d, x);
    hide Poll, Ends, Renews, AppliedFirst;
    assert w + ([ending] + more) + rest == w + ([ending] + (more + rest));
    EndedFirst(w, ending, more + rest, address, |d.pipe.buf|);
  }

  lemma RenewingCalls(d: Device, x: Input) returns (ending: Call, more: seq<Call>)
    requires AtRest(d) && Renews(x, |d.pipe.buf|)
    ensures Ends(ending, |d.pipe.buf|) && Poll(d, x).calls == Wake(d).calls + ([ending] + more)
  {
    hide PipeModel.Step, Starts;
    if x.event.DataEvent? {
      DataPollCalls(d, x);
      assert All(x.event.pending)[0];
      var a := Endpoint0(Wake(d).dev, x.event.pending, x);
      ending := PipeCall(SetupOp(x.offer));
      more := a.calls[1..] + if a.dev.halted then [] else Tail(x);
      assert a.calls == [ending] + a.calls[1..];
      hide Endpoint0, Poll, Tail;
      Assoc([ending], a.calls[1..], if a.dev.halted then [] else Tail(x));
    } else {
      ending := BusReset;
      more := [PipeCall(ResetOp)] + ResetClasses(|x.classes|);
      hide ResetClasses;
      assert [BusReset, PipeCall(ResetOp)] == [ending] + [PipeCall(ResetOp)];
      Assoc([ending], [PipeCall(ResetOp)], ResetClasses(|x.classes|));
    }
  }

  /** With no status packet out, no address is applied until another transfer starts. */
  lemma {:induction false} NotAppliedAtRest(d: Device, address: u16, xs: seq<Input>)
    requires AtRest(d) && !d.pipe.state.StatusIn?
    ensures !AppliedFirst(RunDevice(d, xs).calls, address, |d.pipe.buf|)
    decreases |xs|
  {
    if xs != [] {
      var o := Poll(d, xs[0]);
      var rest := RunDevice(o.dev, xs[1..]).calls;
      if Renews(xs[0], |d.pipe.buf|) {
        RenewingPoll(d, xs[0], address, rest);
      } else {
        RestingPoll(d, xs[0], address);
        hide Poll, Renews;
        NotAppliedAtRest(o.dev, address, xs[1..]);
        AppliedBoth(o.calls, rest, address, |d.pipe.buf|);
      }
    }
  }

  lemma {:induction false} AppliedWhenAwaitedIff(d: Device, address: u16, xs: seq<Input>)
    requires Awaiting(d, address)
    ensures AppliedFirst(RunDevice(d, xs).calls, address, |d.pipe.buf|) <==> StatusCompletes(xs, |d.pipe.buf|)
    decreases |xs|
  {
    if xs != [] {
      var x := xs[0];
      var o := Poll(d, x);
      var rest := RunDevice(o.dev, xs[1..]).calls;
      if Renews(x, |d.pipe.buf|) {
        RenewingPoll(d, x, address, rest);
      } else {
        RestingPoll(d, x, address);
        hide Poll, Renews;
        AppliedBoth(o.calls, rest, address, |d.pipe.buf|);
        if OutOfTurn(x) {
          NotAppliedAtRest(o.dev, address, xs[1..]);
        } else if Completes(x) {
          AppliedHere(o.calls, address, |d.pipe.buf|);
        } else {
          AppliedWhenAwaitedIff(o.dev, address, xs[1..]);
        }
      }
    }
  }

  lemma AppliedHere(calls: seq<Call>, address: u16, capacity: nat)
    requires NoneEnds(calls, capacity) && SetAddress(address) in calls
    ensures AppliedFirst(calls, address, capacity)
  {
    var i :| 0 <= i < |calls| && calls[i] == SetAddress(address);
    assert NoneEnds(calls[..i], capacity);
  }

  /** A poll that brings SET_ADDRESS to a device without the quirk, whose classes leave it alone. */
  ghost predicate AddressPoll(d: Device, address: u16, x: Input) {
    && Booked(d) && !d.halted && !d.quirk && 8 <= |d.pipe.buf| && 1 <= address <= 127
    && SetupPoll(x, SetupPacket(0x00, 5, address, 0, 0)) && Unanswered(x, UsbDirection.Out)
  }

  /** A request that the device grants, with no data: its status packet is offered at once. */
  lemma OutPolled(d: Device, x: Input, s: SetupPacket)
    requires Booked(d) && !d.halted && 8 <= |d.pipe.buf| && SetupPoll(x, s) && s.length == 0
    requires s.kind < 0x80 && Unanswered(x, UsbDirection.Out) && Granted(s, x)
    ensures var o := Poll(d, x).dev;
            && Booked(o) && !o.halted && |o.pipe.buf| == |d.pipe.buf|
            && o == Changed(Wake(d).dev, s).(pipe := o.pipe)
            && o.pipe.state == if x.builtInTake.Takes? then StatusIn else CompleteOut
  {
    SetupBrings(d, x, s);
    SetupRead(d.pipe, s);
    PollKeepsBooks(d, x);
    hide Poll, Brings, Granted, Step;
    OutSettled(d, x, s);
  }

  lemma AddressPolled(d: Device, address: u16, x: Input)
    requires AddressPoll(d, address, x)
    ensures var o := Poll(d, x).dev;
            && AtRest(o) && o.pending == address && |o.pipe.buf| == |d.pipe.buf|
            && o.pipe.state == if x.builtInTake.Takes? then StatusIn else CompleteOut
  {
    OutPolled(d, x, SetupPacket(0x00, 5, address, 0, 0));
  }

  /**
   * When SET_ADDRESS takes effect in its own transfer. Over any run that follows it, the device
   * applies the address before another transfer starts or the bus is reset, exactly when the driver
   * took the status packet and, of the polls that follow, the first to end the transfer reports its
   * completion: alone, that is, and not with a SETUP packet or an empty OUT packet.
   */
  lemma AddressAppliedAtOwnStatusIff(d: Device, address: u16, x: Input, xs: seq<Input>)
    requires AddressPoll(d, address, x)
    ensures AppliedFirst(RunDevice(Poll(d, x).dev, xs).calls, address, |d.pipe.buf|)
            <==> x.builtInTake.Takes? && StatusCompletes(xs, |d.pipe.buf|)
  {
    AddressPolled(d, address, x);
    hide Poll, RunDevice, AppliedFirst, StatusCompletes;
    if x.builtInTake.Takes? {
      AppliedWhenAwaitedIff(Poll(d, x).dev, address, xs);
    } else {
      NotAppliedAtRest(Poll(d, x).dev, address, xs);
    }
  }

  lemma ConfigurationPolled(d: Device, y: Input)
    requires AtRest(d) && 8 <= |d.pipe.buf|
    requires SetupPoll(y, SetupPacket(0x00, 9, 1, 0, 0))
    requires Unanswered(y, UsbDirection.Out) && y.builtInTake.Takes?
    ensures var o := Poll(d, y).dev;
            && AtRest(o) && o.state.Configured? && o.pipe.state.StatusIn?
            && o.pending == d.pending && |o.pipe.buf| == |d.pipe.buf|
  {
    OutPolled(d, y, SetupPacket(0x00, 9, 1, 0, 0));
  }

  /**
   * Otherwise another request's status stage applies it. Whether the driver refused the status
   * packet of SET_ADDRESS, or took it and reported its completion together with the next SETUP
   * packet, or never reported it: a SET_CONFIGURATION(1) that follows leaves the address pending,
   * and its own completion applies the address and so takes the device out of Configured again.
   */
  lemma AddressAppliedByAnotherRequest(d: Device, address: u16, x: Input, y: Input, z: Input)
    requires AddressPoll(d, address, x)
    requires SetupPoll(y, SetupPacket(0x00, 9, 1, 0, 0))
    requires Unanswered(y, UsbDirection.Out) && y.builtInTake.Takes?
    requires Completes(z) && !Renews(z, |d.pipe.buf|) && !OutOfTurn(z)
    ensures !StatusCompletes([y, z], |d.pipe.buf|)
    ensures var second := Poll(Poll(d, x).dev, y).dev;
            && second.state.Configured? && second.pipe.state.StatusIn?
            && SetAddress(address) in Poll(second, z).calls && Poll(second, z).dev.state.Addressed?
  {
    AddressPolled(d, address, x);
    ConfigurationPolled(Poll(d, x).dev, y);
    RestingPoll(Poll(Poll(d, x).dev, y).dev, z, address);
    hide Poll, RunDevice;
    ParseBytes(SetupPacket(0x00, 9, 1, 0, 0));
    hide Parse;
  }
}

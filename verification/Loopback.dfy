/**
 * The bulk loopback of src/test_class.rs: one buffer and one cursor, first for storing what the
 * host sends, then for echoing it.
 */
module Loopback {
  import opened UsbTypes
  import opened Bus

  datatype Loop = Loop(
    buf: seq<byte>,
    i: nat,
    len: nat,
    expectOut: bool,   // expect_bulk_out
    expectIn: bool,    // expect_bulk_in_complete
    m: nat)            // bulk packet size

  /** `panicked` covers the panics and asserts of the source and its slice and integer checks. */
  datatype Echo = Echo(loop: Loop, wrote: seq<seq<byte>>, panicked: bool)

  function WriteBulkIn(l: Loop, writeEmpty: bool, t: Take): Echo {
    if l.i > l.len then
      Echo(l, [], true)
    else
      var count := Min(l.len - l.i, l.m);
      if count == 0 && !writeEmpty then
        Echo(l.(len := 0, i := 0), [], false)
      else if l.i + count > |l.buf| then
        Echo(l, [], true)
      else
        var slice := l.buf[l.i..l.i + count];
        match Write(t, slice)
        case Ok(n) =>
          if n != count then Echo(l, [], true)
          else Echo(l.(expectIn := true, i := l.i + n), [slice], false)
        case Err(WouldBlock) => Echo(l, [], false)
        case Err(_) => Echo(l, [], true)
  }

  /** The bulk half of `poll`, outside bench mode. */
  function Poll(l: Loop, o: Offer, t: Take): Echo {
    if l.i > |l.buf| then
      Echo(l, [], true)
    else
      match Read(o, |l.buf| - l.i)
      case Err(WouldBlock) => Echo(l, [], false)
      case Err(_) => Echo(l, [], true)
      case Ok(d) =>
        if !l.expectOut then
          Echo(l, [], true)
        else
          var l := l.(buf := l.buf[..l.i] + Overlay(l.buf[l.i..], d), expectOut := false, i := l.i + |d|);
          if |d| < l.m then WriteBulkIn(l.(len := l.i, i := 0), |d| == 0, t) else Echo(l, [], false)
  }

  /** `endpoint_out` for the bulk endpoint. */
  function Announce(l: Loop): Loop {
    l.(expectOut := true)
  }

  /** `endpoint_in_complete` for the bulk endpoint. */
  function Complete(l: Loop, t: Take): Echo {
    if !l.expectIn then Echo(l, [], true) else WriteBulkIn(l.(expectIn := false), false, t)
  }

  function ResetLoop(l: Loop): Loop {
    l.(len := 0, i := 0, expectIn := false, expectOut := false)
  }

  /** What the host and the driver do: a packet, announced and polled; a completed echo; an idle poll. */
  datatype Action = Send(data: seq<byte>, take: Take) | Collect(take: Take) | Idle(take: Take)

  function Act(l: Loop, a: Action): Echo {
    match a
    case Send(d, t) => Poll(Announce(l), Packet(d), t)
    case Collect(t) => Complete(l, t)
    case Idle(t) => Poll(l, NoRead(WouldBlock), t)
  }

  function Run(l: Loop, actions: seq<Action>): Echo
    decreases |actions|
  {
    if actions == [] then Echo(l, [], false)
    else
      var first := Act(l, actions[0]);
      if first.panicked then first
      else
        var rest := Run(first.loop, actions[1..]);
        Echo(rest.loop, first.wrote + rest.wrote, rest.panicked)
  }

  /** Where the host stands: still sending a message, or with some echo packets yet to collect. */
  datatype Host = Sending(sofar: seq<byte>) | Collecting(msg: seq<byte>, left: nat)

  /** The echo of a message: full packets, then what is left; an empty message is one empty packet. */
  function EchoPackets(msg: seq<byte>, m: nat): (r: seq<seq<byte>>)
    requires m > 0
    ensures |r| > 0
    decreases |msg|
  {
    if |msg| <= m then [msg] else [msg[..m]] + EchoPackets(msg[m..], m)
  }

  /**
   * The host's side of the protocol: full packets, then one short one, no more than fits; then
   * every echo packet collected before the next message. None is a breach.
   */
  function NextHost(h: Host, a: Action, m: nat, capacity: nat): Option<Host>
    requires m > 0
  {
    match (h, a)
    case (_, Idle(_)) => Some(h)
    case (Sending(s), Send(d, t)) =>
      if |d| > m || |s| + |d| > capacity || (|d| < m && (t.Refuses? || t.limit < m)) then None
      else if |d| == m then Some(Sending(s + d))
      else Some(Collecting(s + d, |EchoPackets(s + d, m)|))
    case (Collecting(msg, left), Collect(t)) =>
      if t.Refuses? || t.limit < m then None
      else Some(if left <= 1 then Sending([]) else Collecting(msg, left - 1))
    case _ => None
  }

  function HostAfter(h: Host, actions: seq<Action>, m: nat, capacity: nat): Option<Host>
    requires m > 0
    decreases |actions|
  {
    if actions == [] then Some(h)
    else
      match NextHost(h, actions[0], m, capacity)
      case None => None
      case Some(n) => HostAfter(n, actions[1..], m, capacity)
  }

  /** The messages completed along the way. */
  function Messages(h: Host, actions: seq<Action>, m: nat, capacity: nat): seq<seq<byte>>
    requires m > 0
    decreases |actions|
  {
    if actions == [] then []
    else
      match NextHost(h, actions[0], m, capacity)
      case None => []
      case Some(n) =>
        (if h.Sending? && n.Collecting? then [n.msg] else []) + Messages(n, actions[1..], m, capacity)
  }

  function Echoes(msgs: seq<seq<byte>>, m: nat): seq<seq<byte>>
    requires m > 0
  {
    if msgs == [] then [] else EchoPackets(msgs[0], m) + Echoes(msgs[1..], m)
  }

  /** The echo packets not yet written. */
  function Owed(h: Host, l: Loop): seq<seq<byte>>
    requires l.m > 0
  {
    if h.Collecting? && l.i < l.len <= |l.buf| then EchoPackets(l.buf[l.i..l.len], l.m) else []
  }

  /** The class and the host are at the same point of the protocol. */
  ghost predicate InStep(h: Host, l: Loop) {
    && l.m > 0
    && !l.expectOut
    && match h
       case Sending(s) => !l.expectIn && l.len == 0 && l.i == |s| <= |l.buf| && l.buf[..l.i] == s
       case Collecting(msg, left) =>
         l.expectIn && l.i <= l.len == |msg| <= |l.buf| && l.buf[..l.len] == msg && left == |Owed(h, l)| + 1
  }

  /** A reset starts the loopback afresh, whatever was going on: nothing stored, nothing owed. */
  lemma ResetStarts(l: Loop)
    requires l.m > 0
    ensures var r := ResetLoop(l);
            InStep(Sending([]), r) && Owed(Sending([]), r) == [] && r.m == l.m && r.buf == l.buf
  {
  }

  /** Writing the next packet of an echo takes it off what is owed. */
  lemma EchoChunk(l: Loop, writeEmpty: bool, t: Take)
    requires l.m > 0 && l.i <= l.len <= |l.buf| && t.Takes? && l.m <= t.limit
    requires l.i < l.len || (writeEmpty && l.i == l.len)
    ensures var e := WriteBulkIn(l, writeEmpty, t);
            var packets := EchoPackets(l.buf[l.i..l.len], l.m);
            && !e.panicked
            && e.loop == l.(expectIn := true, i := e.loop.i) && l.i <= e.loop.i <= l.len
            && e.wrote == [packets[0]]
            && (if e.loop.i < l.len then EchoPackets(l.buf[e.loop.i..l.len], l.m) else []) == packets[1..]
  {
    var rest := l.buf[l.i..l.len];
    var count := Min(l.len - l.i, l.m);
    assert rest[..count] == l.buf[l.i..l.i + count];
    if |rest| > l.m {
      assert rest[l.m..] == l.buf[l.i + l.m..l.len];
    } else {
      assert rest[..count] == rest;
    }
  }

  lemma SendStep(h: Host, l: Loop, a: Action)
    requires InStep(h, l) && h.Sending? && a.Send? && NextHost(h, a, l.m, |l.buf|).Some?
    ensures var n := NextHost(h, a, l.m, |l.buf|).value;
            var e := Act(l, a);
            && !e.panicked && InStep(n, e.loop) && e.loop.m == l.m && |e.loop.buf| == |l.buf|
            && e.wrote + Owed(n, e.loop) == (if n.Collecting? then EchoPackets(n.msg, l.m) else [])
  {
    var d := a.data;
    var all := h.sofar + d;
    var stored := l.(buf := l.buf[..l.i] + Overlay(l.buf[l.i..], d), i := l.i + |d|);
    assert stored.buf[..stored.i] == all;
    if |d| < l.m {
      var start := stored.(len := stored.i, i := 0);
      assert start.buf[0..start.len] == all;
      EchoChunk(start, |d| == 0, a.take);
    }
  }

  lemma CollectStep(h: Host, l: Loop, a: Action)
    requires InStep(h, l) && h.Collecting? && a.Collect? && NextHost(h, a, l.m, |l.buf|).Some?
    ensures var n := NextHost(h, a, l.m, |l.buf|).value;
            var e := Act(l, a);
            && !e.panicked && InStep(n, e.loop) && e.loop.m == l.m && |e.loop.buf| == |l.buf|
            && e.wrote + Owed(n, e.loop) == Owed(h, l)
  {
    if l.i < l.len {
      EchoChunk(l.(expectIn := false), false, a.take);
    }
  }

  lemma StepInStep(h: Host, l: Loop, a: Action)
    requires InStep(h, l) && NextHost(h, a, l.m, |l.buf|).Some?
    ensures var n := NextHost(h, a, l.m, |l.buf|).value;
            var e := Act(l, a);
            && !e.panicked && InStep(n, e.loop) && e.loop.m == l.m && |e.loop.buf| == |l.buf|
            && e.wrote + Owed(n, e.loop)
               == Owed(h, l) + (if h.Sending? && n.Collecting? then EchoPackets(n.msg, l.m) else [])
  {
    match a
    case Idle(_) =>
    case Send(_, _) => SendStep(h, l, a);
    case Collect(_) => CollectStep(h, l, a);
  }

  /**
   * Bulk loopback, for any number of rounds. As long as the host keeps its side and the driver
   * takes what it is given, no panic or assert is reached, and what has been written, with what
   * is still owed, is the echo of every message sent, packet for packet.
   */
  lemma {:induction false} LoopbackRun(h: Host, l: Loop, actions: seq<Action>)
    requires InStep(h, l) && HostAfter(h, actions, l.m, |l.buf|).Some?
    ensures var n := HostAfter(h, actions, l.m, |l.buf|).value;
            var e := Run(l, actions);
            && !e.panicked && InStep(n, e.loop)
            && e.wrote + Owed(n, e.loop) == Owed(h, l) + Echoes(Messages(h, actions, l.m, |l.buf|), l.m)
    decreases |actions|
  {
    if actions != [] {
      var n := NextHost(h, actions[0], l.m, |l.buf|).value;
      var e := Act(l, actions[0]);
      StepInStep(h, l, actions[0]);
      LoopbackRun(n, e.loop, actions[1..]);
      LedgerStep(h, l, actions);
    } else {
      assert Owed(h, l) + [] == Owed(h, l);
    }
  }

  lemma LedgerStep(h: Host, l: Loop, actions: seq<Action>)
    requires InStep(h, l) && actions != [] && HostAfter(h, actions, l.m, |l.buf|).Some?
    requires !Act(l, actions[0]).panicked && !Run(l, actions).panicked
    requires var n := NextHost(h, actions[0], l.m, |l.buf|).value;
             var e := Act(l, actions[0]);
             var last := HostAfter(h, actions, l.m, |l.buf|).value;
             && e.loop.m == l.m && |e.loop.buf| == |l.buf| && Run(l, actions).loop.m > 0
             && e.wrote + Owed(n, e.loop)
                == Owed(h, l) + (if h.Sending? && n.Collecting? then EchoPackets(n.msg, l.m) else [])
             && Run(e.loop, actions[1..]).wrote + Owed(last, Run(l, actions).loop)
                == Owed(n, e.loop) + Echoes(Messages(n, actions[1..], l.m, |l.buf|), l.m)
    ensures var last := HostAfter(h, actions, l.m, |l.buf|).value;
            Run(l, actions).wrote + Owed(last, Run(l, actions).loop)
            == Owed(h, l) + Echoes(Messages(h, actions, l.m, |l.buf|), l.m)
  {
    var n := NextHost(h, actions[0], l.m, |l.buf|).value;
    var e := Act(l, actions[0]);
    var rest := Run(e.loop, actions[1..]);
    var last := HostAfter(h, actions, l.m, |l.buf|).value;
    var later := Messages(n, actions[1..], l.m, |l.buf|);
    var now := if h.Sending? && n.Collecting? then EchoPackets(n.msg, l.m) else [];
    assert Run(l, actions).wrote == e.wrote + rest.wrote;
    assert Echoes(Messages(h, actions, l.m, |l.buf|), l.m) == now + Echoes(later, l.m) by {
      if h.Sending? && n.Collecting? {
        assert ([n.msg] + later)[1..] == later;
      } else {
        assert [] + later == later;
      }
    }
    hide Run, Act, Owed, Echoes, Messages, EchoPackets, InStep;
    Assoc(e.wrote, rest.wrote, Owed(last, Run(l, actions).loop));
    Assoc(e.wrote, Owed(n, e.loop), Echoes(later, l.m));
    Assoc(Owed(h, l), now, Echoes(later, l.m));
  }

  lemma {:induction false} EchoFlattens(msg: seq<byte>, m: nat)
    requires m > 0
    ensures Flatten(EchoPackets(msg, m)) == msg
    decreases |msg|
  {
    if |msg| <= m {
      FlattenOne(msg);
    } else {
      EchoFlattens(msg[m..], m);
    }
  }

  /** max(1, ceil(T/m)) packets. */
  lemma {:induction false} EchoCount(msg: seq<byte>, m: nat)
    requires m > 0
    ensures var n := |EchoPackets(msg, m)|;
            (n - 1) * m < |msg| <= n * m || (n == 1 && msg == [])
    decreases |msg|
  {
    if |msg| > m {
      EchoCount(msg[m..], m);
      var k := |EchoPackets(msg[m..], m)|;
      assert (k + 1) * m == k * m + m && k * m == (k - 1) * m + m;
    }
  }

  lemma {:induction false} EchoesFlatten(msgs: seq<seq<byte>>, m: nat)
    requires m > 0
    ensures Flatten(Echoes(msgs, m)) == Flatten(msgs)
  {
    if msgs != [] {
      EchoesFlatten(msgs[1..], m);
      EchoFlattens(msgs[0], m);
      FlattenAppend(EchoPackets(msgs[0], m), Echoes(msgs[1..], m));
    }
  }

  /** Between messages the ledger is settled: every byte sent has come back, and the cursor is ready. */
  lemma LoopbackSettled(l: Loop, actions: seq<Action>)
    requires InStep(Sending([]), l) && HostAfter(Sending([]), actions, l.m, |l.buf|) == Some(Sending([]))
    ensures var msgs := Messages(Sending([]), actions, l.m, |l.buf|);
            var e := Run(l, actions);
            && !e.panicked
            && e.wrote == Echoes(msgs, l.m) && Flatten(e.wrote) == Flatten(msgs)
            && e.loop.i == 0 && e.loop.len == 0 && !e.loop.expectIn && !e.loop.expectOut
  {
    var msgs := Messages(Sending([]), actions, l.m, |l.buf|);
    LoopbackRun(Sending([]), l, actions);
    EchoesFlatten(msgs, l.m);
    assert Run(l, actions).wrote + [] == Run(l, actions).wrote;
    assert [] + Echoes(msgs, l.m) == Echoes(msgs, l.m);
  }

  ghost predicate AllIdle(actions: seq<Action>) {
    forall k | 0 <= k < |actions| :: actions[k].Idle?
  }

  lemma {:induction false} IdleDoesNothing(l: Loop, actions: seq<Action>)
    requires l.i <= |l.buf| && AllIdle(actions)
    ensures Run(l, actions) == Echo(l, [], false)
    decreases |actions|
  {
    if actions != [] {
      assert actions[0].Idle?;
      IdleDoesNothing(l, actions[1..]);
    }
  }

  /** The action at which the next packet of an echo is due: the short packet, or a completion before the end. */
  ghost predicate PacketDue(h: Host, l: Loop, a: Action)
    requires l.m > 0
  {
    match a
    case Send(d, _) => h.Sending? && |d| < l.m && |h.sofar| + |d| <= |l.buf|
    case Collect(_) => h.Collecting? && l.i < l.len
    case Idle(_) => false
  }

  /**
   * No packet of an echo is retried, the first or any later one. The echo goes on exactly when the
   * driver takes the packet that is due; if it refuses, the class expects no completion, an idle
   * poll writes nothing, a completion would be a panic, and the rest of the message stays unsent.
   */
  lemma EchoGoesOnIff(h: Host, l: Loop, a: Action)
    requires InStep(h, l) && PacketDue(h, l, a)
    requires a.take == Refuses(WouldBlock) || (a.take.Takes? && l.m <= a.take.limit)
    ensures var e := Act(l, a);
            && !e.panicked
            && (e.loop.expectIn <==> a.take.Takes?)
            && (a.take.Takes? ==> |e.wrote| == 1)
            && (a.take.Refuses? ==>
                  && e.wrote == []
                  && (h.Collecting? ==> e.loop.i == l.i < e.loop.len)
                  && (forall u: Take :: Act(e.loop, Collect(u)).panicked)
                  && (forall idle: seq<Action> | AllIdle(idle) :: Run(e.loop, idle) == Echo(e.loop, [], false)))
  {
    if a.take.Takes? {
      PacketTaken(h, l, a);
    } else {
      PacketRefused(h, l, a);
      var e := Act(l, a);
      hide Act;
      forall idle: seq<Action> | AllIdle(idle) ensures Run(e.loop, idle) == Echo(e.loop, [], false) {
        IdleDoesNothing(e.loop, idle);
      }
    }
  }

  /** A write of the next packet, of the bytes still to be echoed, that the source asserts away. */
  predicate BadWrite(t: Take, left: nat, m: nat) {
    match t
    case Refuses(e) => e != WouldBlock
    case Takes(limit) => limit < Min(left, m)
  }

  /**
   * When a poll panics, or fails an assert, in whatever state the loopback is: the driver reports an
   * error other than WouldBlock, or a packet that was not announced or does not fit; or the packet
   * ends a message and the driver fails the first packet of the echo, or takes a part of it.
   */
  lemma PollPanicsIff(l: Loop, o: Offer, t: Take)
    requires l.m > 0
    ensures Poll(l, o, t).panicked <==>
            || l.i > |l.buf|
            || match o
               case NoRead(e) => e != WouldBlock
               case Packet(d) =>
                 l.i + |d| > |l.buf| || !l.expectOut || (|d| < l.m && BadWrite(t, l.i + |d|, l.m))
  {
    hide Overlay;
  }

  /** When a completion is: nothing is being echoed, or the driver fails or cuts the packet that is due. */
  lemma CompletionPanicsIff(h: Host, l: Loop, t: Take)
    requires InStep(h, l)
    ensures Complete(l, t).panicked <==> h.Sending? || (l.i < l.len && BadWrite(t, l.len - l.i, l.m))
  {
  }

  lemma PacketTaken(h: Host, l: Loop, a: Action)
    requires InStep(h, l) && PacketDue(h, l, a) && a.take.Takes? && l.m <= a.take.limit
    ensures var e := Act(l, a); !e.panicked && e.loop.expectIn && |e.wrote| == 1
  {
    if a.Send? {
      var stored := l.(buf := l.buf[..l.i] + Overlay(l.buf[l.i..], a.data), i := l.i + |a.data|);
      var start := stored.(len := stored.i, i := 0);
      assert Act(l, a) == WriteBulkIn(start.(expectOut := false), |a.data| == 0, a.take);
      EchoChunk(start, |a.data| == 0, a.take);
    } else {
      EchoChunk(l.(expectIn := false), false, a.take);
    }
    hide WriteBulkIn, EchoPackets, Poll;
  }

  lemma PacketRefused(h: Host, l: Loop, a: Action)
    requires InStep(h, l) && PacketDue(h, l, a) && a.take == Refuses(WouldBlock)
    ensures var e := Act(l, a);
            && !e.panicked && !e.loop.expectIn && e.wrote == [] && e.loop.i <= |e.loop.buf|
            && (h.Collecting? ==> e.loop.i == l.i < e.loop.len)
            && (forall u: Take :: Act(e.loop, Collect(u)).panicked)
  {
  }

  /** While a message comes in, the length left from the last one is not looked at. */
  lemma {:induction false} LengthUnused(h: Host, l: Loop, x: nat, actions: seq<Action>)
    requires InStep(h, l) && h.Sending? && HostAfter(h, actions, l.m, |l.buf|).Some?
    ensures var a, b := Run(l, actions), Run(l.(len := x), actions);
            && a.wrote == b.wrote && a.panicked == b.panicked
            && a.loop == b.loop.(len := a.loop.len)
            && (HostAfter(h, actions, l.m, |l.buf|).value.Collecting? ==> a.loop == b.loop)
    decreases |actions|
  {
    if actions != [] {
      hide Act;
      var n := NextHost(h, actions[0], l.m, |l.buf|).value;
      var e := Act(l, actions[0]);
      StepInStep(h, l, actions[0]);
      LengthUnusedStep(h, l, x, actions[0]);
      hide InStep, NextHost;
      if n.Sending? {
        LengthUnused(n, e.loop, x, actions[1..]);
      }
    }
  }

  lemma LengthUnusedStep(h: Host, l: Loop, x: nat, a: Action)
    requires InStep(h, l) && h.Sending? && NextHost(h, a, l.m, |l.buf|).Some?
    ensures var n := NextHost(h, a, l.m, |l.buf|).value;
            var e, f := Act(l, a), Act(l.(len := x), a);
            if n.Sending? then f == e.(loop := e.loop.(len := x)) else f == e
  {
    hide Overlay;
  }

  /** What has come back of the message in hand. */
  function Echoed(h: Host, l: Loop): seq<byte> {
    if h.Collecting? && l.i <= |h.msg| then h.msg[..l.i] else []
  }

  /**
   * What a refused packet does to the messages after it: the bytes echoed before the refusal are
   * still in the buffer and the cursor behind them, so the next message is stored and comes back with
   * them in front, packet for packet as if the host had sent them again.
   */
  lemma RefusedEchoMixes(h: Host, l: Loop, a: Action, actions: seq<Action>)
    requires InStep(h, l) && PacketDue(h, l, a) && a.take == Refuses(WouldBlock)
    requires HostAfter(Sending(Echoed(h, l)), actions, l.m, |l.buf|).Some?
    ensures var e := Act(l, a).loop;
            var n := HostAfter(Sending(Echoed(h, l)), actions, l.m, |l.buf|).value;
            var r := Run(e, actions);
            && r.loop.m == l.m && !r.panicked
            && r.wrote + Owed(n, r.loop) == Echoes(Messages(Sending(Echoed(h, l)), actions, l.m, |l.buf|), l.m)
  {
    hide *;
    RefusedKeeps(h, l, a);
    KeptRun(Echoed(h, l), Act(l, a).loop, actions);
  }

  lemma KeptRun(kept: seq<byte>, e: Loop, actions: seq<Action>)
    requires InStep(Sending(kept), e.(len := 0)) && HostAfter(Sending(kept), actions, e.m, |e.buf|).Some?
    ensures var n := HostAfter(Sending(kept), actions, e.m, |e.buf|).value;
            var r := Run(e, actions);
            && r.loop.m == e.m && e.m > 0 && !r.panicked
            && r.wrote + Owed(n, r.loop) == Echoes(Messages(Sending(kept), actions, e.m, |e.buf|), e.m)
  {
    hide Run, HostAfter, Messages, Echoes;
    var clean := e.(len := 0);
    assert clean.(len := e.len) == e;
    LoopbackRun(Sending(kept), clean, actions);
    LengthUnused(Sending(kept), clean, e.len, actions);
    RunKeepsSize(clean, actions);
    var all := Echoes(Messages(Sending(kept), actions, e.m, |e.buf|), e.m);
    assert Owed(Sending(kept), clean) == [] && [] + all == all;
  }

  lemma ActKeepsSize(l: Loop, a: Action)
    ensures Act(l, a).loop.m == l.m
  {
    hide Overlay;
  }

  lemma {:induction false} RunKeepsSize(l: Loop, actions: seq<Action>)
    ensures Run(l, actions).loop.m == l.m
    decreases |actions|
  {
    hide Act;
    if actions != [] {
      ActKeepsSize(l, actions[0]);
      RunKeepsSize(Act(l, actions[0]).loop, actions[1..]);
    }
  }

  lemma RefusedKeeps(h: Host, l: Loop, a: Action)
    requires InStep(h, l) && PacketDue(h, l, a) && a.take == Refuses(WouldBlock)
    ensures var e := Act(l, a).loop;
            e.m == l.m > 0 && |e.buf| == |l.buf| && InStep(Sending(Echoed(h, l)), e.(len := 0))
  {
    if h.Collecting? {
      assert l.buf[..l.i] == l.buf[..l.len][..l.i];
    }
  }

  /** The first message to be completed after that begins with what had come back of the last. */
  lemma NextMessageMixed(kept: seq<byte>, d: seq<byte>, t: Take, m: nat, capacity: nat)
    requires m > 0 && |d| < m && |kept| + |d| <= capacity && t.Takes? && m <= t.limit
    ensures Messages(Sending(kept), [Send(d, t)], m, capacity) == [kept + d]
  {
    assert [Send(d, t)][1..] == [];
  }
}

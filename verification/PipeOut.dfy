/** OUT transfers: the data stage is reassembled in the buffer and the request surfaces exactly once. */
module PipeOut {
  import opened UsbTypes
  import opened Control
  import opened Bus
  import opened PipeModel
  import opened PipeIn

  /** The bytes of the data stage read in a stretch of a run. */
  function Received(events: seq<Event>): seq<byte> {
    if events == [] then []
    else (if events[0].GotData? then events[0].data else []) + Received(events[1..])
  }

  lemma {:induction false} ReceivedAppend(a: seq<Event>, b: seq<Event>)
    ensures Received(a + b) == Received(a) + Received(b)
  {
    if a == [] {
      assert a + b == b;
    } else {
      assert (a + b)[1..] == a[1..] + b;
      ReceivedAppend(a[1..], b);
    }
  }

  /** The data stage of `req` is open and `got` has arrived so far. */
  ghost predicate Receiving(p: Pipe, req: Request, got: seq<byte>) {
    && p.state == DataOut(req)
    && p.i == |got| < p.len == req.length <= |p.buf|
    && p.buf[..p.i] == got
  }

  /** The data stage is over; nothing short of a SETUP packet opens another. */
  predicate OutClosed(p: Pipe) {
    p.state.CompleteOut? || p.state.StatusIn? || p.state.Idle? || p.state.Error?
  }

  lemma ClosedStep(p: Pipe, op: Op)
    requires OutClosed(p) && !ReadsSetup(p, op)
    ensures var t := Step(p, op); OutClosed(t.pipe) && !t.reply.Got? && Received(t.events) == []
  {
    var ev := Step(p, op).events;
    if ev != [] {
      assert !ev[0].GotData?;
      assert |ev| <= 2;
      if |ev| == 2 { assert ev[1..] == [ev[1]] && !ev[1].GotData?; }
    }
  }

  lemma {:induction false} ClosedRun(p: Pipe, ops: seq<Op>)
    requires OutClosed(p) && NoSetup(p, ops)
    ensures OutClosed(Run(p, ops)) && Received(Events(p, ops)) == []
    decreases |ops|
  {
    if ops != [] {
      var t := Step(p, ops[0]);
      assert !ReadsSetup(p, ops[0]);
      ClosedStep(p, ops[0]);
      NoSetupTail(p, ops);
      ClosedRun(t.pipe, ops[1..]);
      ReceivedAppend(t.events, Events(t.pipe, ops[1..]));
    }
  }

  /** What one operation does to an open data stage. */
  lemma ReceiveStep(p: Pipe, op: Op, req: Request, got: seq<byte>)
    requires Receiving(p, req, got) && !ReadsSetup(p, op)
    ensures var t := Step(p, op);
            var after := got + Received(t.events);
            && (t.reply.Got? <==> req.length <= |after|)
            && (t.reply.Got? ==> Completed(t, req, after))
            && (OutClosed(t.pipe) || Receiving(t.pipe, req, after))
  {
    var t := Step(p, op);
    if op.OutOp? {
      match Read(op.offer, |p.buf| - p.i)
      case Err(_) =>
      case Ok(d) =>
        assert t.events == [GotData(d)];
        assert Received(t.events) == d + Received([]);
        assert t.pipe.buf[..t.pipe.i] == got + d;
    }
  }

  /** The turn that finishes the data stage: the request, and `data()` holding its first bytes. */
  ghost predicate Completed(t: Turn, req: Request, after: seq<byte>) {
    && t.reply == Got(req)
    && t.pipe.state.CompleteOut?
    && t.pipe.len == req.length <= |after| <= |t.pipe.buf|
    && t.pipe.buf[..|after|] == after
    && Data(t.pipe) == after[..req.length]
  }

  lemma {:induction false} StageAt(p: Pipe, req: Request, got: seq<byte>, ops: seq<Op>)
    requires Receiving(p, req, got) && NoSetup(p, ops)
    ensures Receiving(Run(p, ops), req, got + Received(Events(p, ops))) || OutClosed(Run(p, ops))
    decreases |ops|
  {
    if ops == [] {
      assert got + [] == got;
    } else {
      var more := Received(Step(p, ops[0]).events);
      var q := Step(p, ops[0]).pipe;
      assert OutClosed(q) || Receiving(q, req, got + more) by {
        assert !ReadsSetup(p, ops[0]);
        ReceiveStep(p, ops[0], req, got);
      }
      NoSetupTail(p, ops);
      if OutClosed(q) {
        ClosedRun(q, ops[1..]);
      } else {
        StageAt(q, req, got + more, ops[1..]);
        ReceivedAppend(Step(p, ops[0]).events, Events(q, ops[1..]));
        Assoc(got, more, Received(Events(q, ops[1..])));
      }
    }
  }

  lemma StageStep(p: Pipe, req: Request, before: seq<byte>, op: Op)
    requires (Receiving(p, req, before) || OutClosed(p)) && !ReadsSetup(p, op)
    ensures var t := Step(p, op);
            var after := before + Received(t.events);
            && (t.reply.Got? <==> |before| < req.length <= |after|)
            && (t.reply.Got? ==> Completed(t, req, after))
  {
    if OutClosed(p) {
      ClosedStep(p, op);
    } else {
      ReceiveStep(p, op, req, before);
    }
  }

  /**
   * OUT reassembly over any run without a SETUP packet. The k-th operation returns the request
   * exactly when it is the one at which the bytes received first reach wLength, and then `data()`
   * is their first wLength bytes, however they were split into packets.
   */
  lemma OutReassembly(p: Pipe, req: Request, got: seq<byte>, ops: seq<Op>, k: nat)
    requires Receiving(p, req, got) && NoSetup(p, ops) && k < |ops|
    ensures var t := Step(Run(p, ops[..k]), ops[k]);
            var before := got + Received(Events(p, ops[..k]));
            var after := got + Received(Events(p, ops[..k + 1]));
            && (t.reply.Got? <==> |before| < req.length <= |after|)
            && (t.reply.Got? ==> Completed(t, req, after))
  {
    var q := Run(p, ops[..k]);
    var t := Step(q, ops[k]);
    var before := got + Received(Events(p, ops[..k]));
    StageAt(p, req, got, ops[..k]);
    RunKeepsSize(p, ops[..k]);
    assert !ReadsSetup(q, ops[k]) by { assert !ReadsSetup(p, ops[k]); }
    EventsSplit(p, ops, k);
    Assoc(got, Received(Events(p, ops[..k])), Received(t.events));
    StageStep(q, req, before, ops[k]);
  }

  lemma EventsSplit(p: Pipe, ops: seq<Op>, k: nat)
    requires k < |ops|
    ensures Received(Events(p, ops[..k + 1]))
         == Received(Events(p, ops[..k])) + Received(Step(Run(p, ops[..k]), ops[k]).events)
  {
    assert ops[..k + 1] == ops[..k] + [ops[k]];
    RunAppend(p, ops[..k], [ops[k]]);
    var q := Run(p, ops[..k]);
    var t := Step(q, ops[k]);
    assert [ops[k]][1..] == [];
    assert Events(q, [ops[k]]) == t.events + [];
    assert t.events + [] == t.events;
    ReceivedAppend(Events(p, ops[..k]), t.events);
  }

  /** The host's side of a data stage: packets of any sizes, with polls that find nothing between. */
  function Payload(offers: seq<Offer>): seq<byte> {
    if offers == [] then []
    else (if offers[0].Packet? then offers[0].data else []) + Payload(offers[1..])
  }

  function Polls(offers: seq<Offer>): seq<Op> {
    seq(|offers|, k requires 0 <= k < |offers| => OutOp(offers[k]))
  }

  ghost predicate Clean(offers: seq<Offer>) {
    forall k | 0 <= k < |offers| :: offers[k].Packet? || offers[k] == NoRead(WouldBlock)
  }

  lemma DeliverOne(p: Pipe, req: Request, got: seq<byte>, o: Offer)
    requires Receiving(p, req, got) && (o.Packet? || o == NoRead(WouldBlock))
    requires |got + Payload([o])| <= |p.buf|
    ensures var t := Step(p, OutOp(o));
            var all := got + Payload([o]);
            && t.pipe.buf[..|all|] == all
            && if |all| < req.length then Receiving(t.pipe, req, all) && !t.reply.Got? else Completed(t, req, all)
  {
    var t := Step(p, OutOp(o));
    if o.Packet? {
      assert Payload([o]) == o.data + Payload([]);
      assert t.pipe.buf[..t.pipe.i] == got + o.data;
    } else {
      assert Payload([o]) == [] + Payload([]);
      assert got + [] == got;
    }
  }

  lemma {:induction false} DeliverPrefix(p: Pipe, req: Request, got: seq<byte>, offers: seq<Offer>)
    requires Receiving(p, req, got) && Clean(offers) && |got + Payload(offers)| < req.length
    ensures Receiving(Run(p, Polls(offers)), req, got + Payload(offers))
    decreases |offers|
  {
    if offers == [] {
      assert got + [] == got;
    } else {
      var head := [offers[0]];
      assert Payload(offers) == Payload(head) + Payload(offers[1..]);
      assert got + Payload(offers) == got + Payload(head) + Payload(offers[1..]);
      DeliverOne(p, req, got, offers[0]);
      assert Polls(offers)[1..] == Polls(offers[1..]);
      DeliverPrefix(Step(p, OutOp(offers[0])).pipe, req, got + Payload(head), offers[1..]);
    }
  }

  lemma {:induction false} PayloadAppend(a: seq<Offer>, o: Offer)
    ensures Payload(a + [o]) == Payload(a) + Payload([o])
  {
    if a == [] {
      assert a + [o] == [o];
    } else {
      assert (a + [o])[1..] == a[1..] + [o];
      PayloadAppend(a[1..], o);
    }
  }

  /**
   * The same from the host's side. As long as what it sends fits the buffer, every packet of the
   * data stage is taken: before wLength is reached the stage stays open with all the bytes in
   * place, and the poll that reaches it answers with the request.
   */
  lemma OutDelivery(p: Pipe, req: Request, offers: seq<Offer>, last: Offer)
    requires Receiving(p, req, []) && Clean(offers + [last])
    requires |Payload(offers)| < req.length
    requires |Payload(offers + [last])| <= |p.buf|
    ensures var q := Run(p, Polls(offers));
            var t := Step(q, OutOp(last));
            var all := Payload(offers + [last]);
            && Receiving(q, req, Payload(offers))
            && if |all| < req.length then Receiving(t.pipe, req, all) && !t.reply.Got? else Completed(t, req, all)
  {
    assert Clean(offers) by {
      assert forall k | 0 <= k < |offers| :: offers[k] == (offers + [last])[k];
    }
    assert last == (offers + [last])[|offers|];
    assert [] + Payload(offers) == Payload(offers);
    DeliverPrefix(p, req, [], offers);
    PayloadAppend(offers, last);
    RunKeepsSize(p, Polls(offers));
    DeliverOne(Run(p, Polls(offers)), req, Payload(offers), last);
  }

  /** How the stage opens: what a parsed OUT SETUP does depends only on its wLength. */
  lemma OutOpens(p: Pipe, setup: seq<byte>)
    requires |setup| == 8 <= |p.buf| && Parse(setup).value.direction.Out?
    ensures var req := Parse(setup).value;
            var t := Step(p, SetupOp(Packet(setup)));
            && (0 < req.length <= |p.buf| ==> Receiving(t.pipe, req, []))
            && (req.length > |p.buf| ==> t.pipe.state == p.state && t.pipe.i == p.i && t.pipe.len == p.len)
            && (t.reply.Got? <==> req.length == 0)
            && (t.reply.Got? ==> t.pipe.state.CompleteOut? && Data(t.pipe) == [])
  {
    var q := Step(p, SetupOp(Packet(setup))).pipe;
    assert q.buf[..0] == [];
  }

  /**
   * A packet read as SETUP in mid-stage that starts no transfer overwrites the start of what has
   * arrived: OutReassembly goes on from the overwritten bytes, which are still the right ones exactly
   * when the packet begins with them or begins them. If it was an OUT SETUP packet that does not fit,
   * what arrives next is the data of that request; see PipeOverlap.
   */
  lemma IgnoredSetupOutIff(p: Pipe, req: Request, got: seq<byte>, d: seq<byte>)
    requires Receiving(p, req, got) && |d| <= |p.buf| && Ignored(p, d)
    ensures var q := Step(p, SetupOp(Packet(d))).pipe;
            && Receiving(q, req, Overlay(got, d))
            && (Receiving(q, req, got) <==> d <= got || got <= d)
  {
    IgnoredStep(p, d);
    hide Step, Ignored;
    var buf := Overlay(p.buf, d);
    assert buf[..p.i] == Overlay(got, d) by {
      assert forall k | 0 <= k < p.i :: p.buf[k] == p.buf[..p.i][k] == got[k];
    }
    if Overlay(got, d) == got && |got| < |d| {
      assert got == d[..|got|];
    }
  }
}

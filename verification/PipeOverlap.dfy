/**
 * SETUP packets that arrive in mid-transfer and start none: an OUT SETUP packet whose data stage does
 * not fit the buffer, which the code drops with the old transfer still open, and a packet that does
 * not parse. Both overwrite the start of the buffer.
 */
module PipeOverlap {
  import opened UsbTypes
  import opened Control
  import opened Bus
  import opened PipeModel
  import opened PipeIn
  import opened PipeOut

  /** The last request taken up, and the last one read off the bus, taken up or not. */
  function LastTaken(events: seq<Event>): Option<Request> {
    if events == [] then None
    else
      var last := events[|events| - 1];
      if last.SetupTaken? then Some(last.req) else LastTaken(events[..|events| - 1])
  }

  function LastParsed(events: seq<Event>): Option<Request> {
    if events == [] then None
    else
      var last := events[|events| - 1];
      if last.SetupTaken? || last.SetupDropped? then Some(last.req) else LastParsed(events[..|events| - 1])
  }

  /** A request has been dropped since the last one taken up. */
  ghost predicate DroppedSince(events: seq<Event>) {
    exists k | 0 <= k < |events| && events[k].SetupDropped? :: NoneTaken(events[k..])
  }

  ghost predicate NoneTaken(events: seq<Event>) {
    forall k | 0 <= k < |events| :: !events[k].SetupTaken?
  }

  /** Every request dropped announced more than the buffer holds. */
  ghost predicate DroppedOversize(events: seq<Event>, capacity: nat) {
    forall k | 0 <= k < |events| && events[k].SetupDropped? :: events[k].req.length > capacity
  }

  lemma {:induction false} LastTakenAppend(a: seq<Event>, b: seq<Event>)
    ensures LastTaken(a + b) == if LastTaken(b).Some? then LastTaken(b) else LastTaken(a)
    decreases |b|
  {
    if b == [] {
      assert a + b == a;
    } else {
      var init := b[..|b| - 1];
      assert (a + b)[|a + b| - 1] == b[|b| - 1] && (a + b)[..|a + b| - 1] == a + init;
      LastTakenAppend(a, init);
    }
  }

  lemma DroppedOversizeBoth(a: seq<Event>, b: seq<Event>, capacity: nat)
    ensures DroppedOversize(a + b, capacity) <==> DroppedOversize(a, capacity) && DroppedOversize(b, capacity)
  {
    assert forall k | 0 <= k < |a| :: (a + b)[k] == a[k];
    assert forall k | 0 <= k < |b| :: (a + b)[|a| + k] == b[k];
    if DroppedOversize(a, capacity) && DroppedOversize(b, capacity) {
      forall k | 0 <= k < |a + b| && (a + b)[k].SetupDropped? ensures (a + b)[k].req.length > capacity {
        if k >= |a| { assert (a + b)[k] == b[k - |a|]; }
      }
    }
  }

  /** An open data stage is that of the last request taken up, and fits. */
  ghost predicate StageOf(p: Pipe, taken: Option<Request>) {
    p.state.DataOut? ==> taken == Some(p.state.req) && p.state.req.length <= |p.buf|
  }

  lemma StageStep(p: Pipe, op: Op, taken: Option<Request>)
    requires StageOf(p, taken)
    ensures var t := Step(p, op);
            && StageOf(t.pipe, if LastTaken(t.events).Some? then LastTaken(t.events) else taken)
            && DroppedOversize(t.events, |p.buf|)
  {
    hide Parse, Overlay;
    StepKeepsBufferSize(p, op);
    var t := Step(p, op);
    if op.SetupOp? {
      if |t.events| == 2 && t.events[1].SetupTaken? {
        assert t.events[1] == t.events[|t.events| - 1];
      } else {
        LastOfNone(t.events);
      }
    } else {
      TakesNone(p, op);
      LastOfNone(t.events);
    }
  }

  lemma TakesNone(p: Pipe, op: Op)
    requires !op.SetupOp?
    ensures var t := Step(p, op);
            && (forall k | 0 <= k < |t.events| :: !t.events[k].SetupTaken? && !t.events[k].SetupDropped?)
            && (t.pipe.state.DataOut? ==> t.pipe.state == p.state && |t.pipe.buf| == |p.buf|)
  {
    hide Overlay, Parse;
  }

  lemma {:induction false} LastOfNone(events: seq<Event>)
    requires NoneTaken(events)
    ensures LastTaken(events).None?
  {
    if events != [] {
      assert !events[|events| - 1].SetupTaken?;
      LastOfNone(events[..|events| - 1]);
    }
  }

  lemma {:induction false} StageRun(p: Pipe, ops: seq<Op>, before: seq<Event>)
    requires StageOf(p, LastTaken(before)) && DroppedOversize(before, |p.buf|)
    ensures var all := before + Events(p, ops);
            && StageOf(Run(p, ops), LastTaken(all)) && DroppedOversize(all, |p.buf|)
            && |Run(p, ops).buf| == |p.buf|
    decreases |ops|
  {
    if ops == [] {
      assert before + [] == before;
    } else {
      hide Step;
      var t := Step(p, ops[0]);
      StageStep(p, ops[0], LastTaken(before));
      StepKeepsBufferSize(p, ops[0]);
      LastTakenAppend(before, t.events);
      DroppedOversizeBoth(before, t.events, |p.buf|);
      StageRun(t.pipe, ops[1..], before + t.events);
      Assoc(before, t.events, Events(t.pipe, ops[1..]));
    }
  }

  /** The last request taken up is the last one parsed exactly when none has been dropped since. */
  lemma {:induction false} LastParsedIff(events: seq<Event>, req: Request, capacity: nat)
    requires LastTaken(events) == Some(req) && req.length <= capacity && DroppedOversize(events, capacity)
    ensures LastParsed(events) == Some(req) <==> !DroppedSince(events)
    decreases |events|
  {
    var n := |events| - 1;
    var last, init := events[n], events[..n];
    if last.SetupTaken? {
      forall k | 0 <= k < |events| && events[k].SetupDropped? ensures !NoneTaken(events[k..]) {
        assert events[k..][n - k] == last;
      }
    } else if last.SetupDropped? {
      assert events[n..] == [last] && NoneTaken(events[n..]);
    } else {
      assert forall k | 0 <= k < |init| :: init[k] == events[k];
      LastParsedIff(init, req, capacity);
      forall k | 0 <= k < n ensures NoneTaken(events[k..]) <==> NoneTaken(init[k..]) {
        assert events[k..] == init[k..] + [last];
      }
    }
  }

  /**
   * Whose data an OUT request comes with. In any run from a fresh pipe, a request that an OUT packet
   * completes is the last one the host sent exactly when none that does not fit has been read since.
   */
  lemma RequestIsLastIff(p: Pipe, ops: seq<Op>, o: Offer)
    requires Fresh(p) && Step(Run(p, ops), OutOp(o)).reply.Got?
    ensures var req := Step(Run(p, ops), OutOp(o)).reply.req;
            LastParsed(Events(p, ops)) == Some(req) <==> !DroppedSince(Events(p, ops))
  {
    StageRun(p, ops, []);
    assert [] + Events(p, ops) == Events(p, ops);
    var q := Run(p, ops);
    assert q.state == DataOut(Step(q, OutOp(o)).reply.req);
    hide Step, Run, Events;
    LastParsedIff(Events(p, ops), q.state.req, |p.buf|);
  }

  /** The packet is an OUT SETUP packet whose data stage does not fit. */
  predicate Oversize(p: Pipe, d: seq<byte>) {
    |d| == 8 && Parse(d).Ok? && Parse(d).value.direction.Out? && Parse(d).value.length > |p.buf|
  }

  lemma OversizeStep(p: Pipe, d: seq<byte>)
    requires 8 <= |p.buf| && Oversize(p, d)
    ensures var t := Step(p, SetupOp(Packet(d)));
            t.pipe == p.(buf := Overlay(p.buf, d)) && t.events == [Unstalled, SetupDropped(Parse(d).value)]
  {
    hide Parse;
  }

  /**
   * The data of a dropped request completes the one it overtook: the host asks for `a`, then for `b`,
   * sends the data of `b`, and the device is handed request `a` with that data.
   */
  lemma DataOfDroppedRequest(p: Pipe, a: seq<byte>, b: seq<byte>, data: seq<byte>)
    requires Fresh(p) && 8 <= |p.buf| && |a| == 8 && Parse(a).Ok? && Parse(a).value.direction.Out?
    requires 0 < Parse(a).value.length <= |data| <= |p.buf| && Oversize(p, b)
    ensures var q := Run(p, [SetupOp(Packet(a)), SetupOp(Packet(b))]);
            var t := Step(q, OutOp(Packet(data)));
            && t.reply == Got(Parse(a).value) && Parse(a).value != Parse(b).value
            && t.pipe.len <= |t.pipe.buf| && Data(t.pipe) == data[..Parse(a).value.length]
  {
    hide Parse;
    OutOpens(p, a);
    var r := Step(p, SetupOp(Packet(a))).pipe;
    var req := Parse(a).value;
    OversizeStep(r, b);
    IgnoredSetupOutIff(r, req, [], b);
    TwoSteps(p, SetupOp(Packet(a)), SetupOp(Packet(b)));
    var q := Step(r, SetupOp(Packet(b))).pipe;
    assert Overlay([], b) == [];
    var t := Step(q, OutOp(Packet(data)));
    hide Step;
    DeliverOne(q, req, [], Packet(data));
    assert Payload([Packet(data)]) == data + Payload([]);
    assert [] + Payload([Packet(data)]) == data;
  }

  /** A static answer goes on after a dropped request: its next packet is sent in the other's transfer. */
  lemma AnswerGoesOn(p: Pipe, src: seq<byte>, b: seq<byte>)
    requires Sending(p, src) && p.state.DataIn? && p.staticBuf.Some? && 8 <= |p.buf| && Oversize(p, b)
    ensures var sent := Writes(Events(p, [SetupOp(Packet(b)), InDoneOp(Takes(p.mps))]));
            sent == [src[p.i..p.i + Min(|src| - p.i, p.mps)]]
  {
    hide Parse, Step, WriteInChunk;
    OversizeStep(p, b);
    var packet := src[p.i..p.i + Min(|src| - p.i, p.mps)];
    StaticChunk(p, p.(buf := Overlay(p.buf, b)), src);
    hide Sending, Oversize;
    TwoSteps(p, SetupOp(Packet(b)), InDoneOp(Takes(p.mps)));
    var before := [Unstalled, SetupDropped(Parse(b).value)];
    WritesAppend(before, [Wrote(packet)]);
    NoWrites(before);
    WritesOfOne(Wrote(packet));
  }

  /** The next packet of a static answer does not depend on the buffer. */
  lemma StaticChunk(p: Pipe, q: Pipe, src: seq<byte>)
    requires Sending(p, src) && p.state.DataIn? && p.staticBuf.Some? && q == p.(buf := q.buf)
    ensures Step(q, InDoneOp(Takes(p.mps))).events == [Wrote(src[p.i..p.i + Min(|src| - p.i, p.mps)])]
  {
    SliceTwice(q.Source(), src, p.i, p.i + Min(|src| - p.i, p.mps));
  }

  /**
   * An answer the driver has not taken yet is overwritten by a dropped request: from a fresh pipe, the
   * host asks, the driver refuses the first packet, the host sends an OUT SETUP packet that does not
   * fit, and what goes out is that packet's own bytes.
   */
  lemma DroppedRequestSpoilsAnswer(p: Pipe, a: seq<byte>, data: seq<byte>, b: seq<byte>)
    requires Fresh(p) && 8 <= |p.buf| && |a| == 8 && Parse(a).Ok? && Parse(a).value.direction.In?
    requires 0 < |data| <= Min(8, Min(p.mps, Parse(a).value.length)) && Oversize(p, b)
    ensures var ops := [SetupOp(Packet(a)), AcceptInOp(Copying(data, |p.buf|), Refuses(WouldBlock)),
                        SetupOp(Packet(b)), InDoneOp(Takes(p.mps))];
            Writes(Events(p, ops)) == [b[..|data|]]
  {
    hide Parse, Step, WriteInChunk;
    var accept := AcceptInOp(Copying(data, |p.buf|), Refuses(WouldBlock));
    var p1 := InSetupRead(p, a);
    var p2 := RefusedAnswer(p1, data);
    OversizeStep(p2, b);
    var p3 := Step(p2, SetupOp(Packet(b))).pipe;
    WholeAnswerSent(p3, b[..|data|]);
    FourWrites(p, SetupOp(Packet(a)), accept, SetupOp(Packet(b)), InDoneOp(Takes(p.mps)));
    WritesOfOne(Wrote(b[..|data|]));
  }

  lemma InSetupRead(p: Pipe, a: seq<byte>) returns (q: Pipe)
    requires |a| == 8 <= |p.buf| && Parse(a).Ok? && Parse(a).value.direction.In?
    ensures q == Step(p, SetupOp(Packet(a))).pipe && Silent(Step(p, SetupOp(Packet(a))).events)
    ensures q == p.(buf := q.buf, state := CompleteIn(Parse(a).value)) && |q.buf| == |p.buf|
  {
    hide Parse;
    q := p.(buf := Overlay(p.buf, a), state := CompleteIn(Parse(a).value));
  }

  lemma WholeAnswerSent(p: Pipe, bytes: seq<byte>)
    requires p.state.DataIn? && p.staticBuf.None? && p.i == 0 && p.len == |bytes| <= p.mps
    requires |bytes| <= |p.buf| && p.buf[..|bytes|] == bytes
    ensures Step(p, InDoneOp(Takes(p.mps))).events == [Wrote(bytes)]
  {
    assert p.buf[0..|bytes|] == bytes;
  }

  lemma RefusedAnswer(p: Pipe, data: seq<byte>) returns (q: Pipe)
    requires p.state.CompleteIn? && p.staticBuf.None? && p.mps > 0
    requires |data| <= Min(|p.buf|, Min(p.mps, p.state.req.length))
    ensures var t := Step(p, AcceptInOp(Copying(data, |p.buf|), Refuses(WouldBlock)));
            q == t.pipe && |t.events| == 1 && t.events[0].AcceptedIn?
    ensures q.state.DataIn? && q.i == 0 && q.len == |data| && q.staticBuf.None? && q.mps == p.mps
    ensures |q.buf| == |p.buf|
  {
    q := p.(buf := Overlay(p.buf, data), i := 0, len := |data|, state := DataIn);
    assert q.buf[..|data|] == data;
  }

  /** The writes of four steps of which only the last writes. */
  lemma FourWrites(p: Pipe, a: Op, b: Op, c: Op, d: Op)
    requires var p1 := Step(p, a); var p2 := Step(p1.pipe, b); var p3 := Step(p2.pipe, c);
             Silent(p1.events) && Silent(p2.events) && Silent(p3.events)
    ensures var p3 := Step(Step(Step(p, a).pipe, b).pipe, c).pipe;
            Writes(Events(p, [a, b, c, d])) == Writes(Step(p3, d).events)
  {
    hide Step;
    var p1 := Step(p, a);
    var p2 := Step(p1.pipe, b);
    TwoSteps(p, a, b);
    TwoSteps(p2.pipe, c, d);
    assert [a, b] + [c, d] == [a, b, c, d];
    RunAppend(p, [a, b], [c, d]);
    WritesAppend(Events(p, [a, b]), Events(p2.pipe, [c, d]));
    WritesAppend(p1.events, p2.events);
    WritesAppend(Step(p2.pipe, c).events, Step(Step(p2.pipe, c).pipe, d).events);
    NoWrites(p1.events);
    NoWrites(p2.events);
    NoWrites(Step(p2.pipe, c).events);
    assert Writes(Events(p, [a, b])) == [];
  }

  ghost predicate Silent(events: seq<Event>) {
    |events| <= 2 && forall k | 0 <= k < |events| :: !events[k].Wrote?
  }
}

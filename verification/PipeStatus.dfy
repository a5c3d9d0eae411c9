/** The ends of a transfer, event by event: what follows the last packet, what a SETUP packet does, when EP0 stalls. */
module PipeStatus {
  import opened UsbTypes
  import opened Control
  import opened Bus
  import opened PipeModel
  import opened PipeIn

  /** Packets on the bus, one after another. */
  function WroteAll(packets: seq<seq<byte>>): seq<Event> {
    if packets == [] then [] else [Wrote(packets[0])] + WroteAll(packets[1..])
  }

  /** A completion in the data stage, with a driver that takes whole packets, sends the next packet left. */
  lemma NextPacket(p: Pipe, src: seq<byte>)
    requires Sending(p, src) && (p.state.DataIn? || p.state.DataInZlp?)
    ensures var t := Step(p, InDoneOp(Takes(p.mps)));
            && Rest(p, src) != [] && t.events == [Wrote(Rest(p, src)[0])]
            && Sending(t.pipe, src) && t.pipe.mps == p.mps && Rest(t.pipe, src) == Rest(p, src)[1..]
            && (t.pipe.state.DataIn? || t.pipe.state.DataInZlp? || t.pipe.state.DataInLast?)
  {
    var op := InDoneOp(Takes(p.mps));
    SendStep(p, op, src);
    if p.state.DataIn? {
      ChunkFragment(p, op.take, src);
      assert Step(p, op) == WriteInChunk(p, op.take);
    }
    hide Packets, Sending;
  }

  /** The whole of a data stage: its packets and nothing else, after as many completions. */
  lemma {:induction false} StageTrace(p: Pipe, src: seq<byte>)
    requires Sending(p, src) && (p.state.DataIn? || p.state.DataInZlp? || p.state.DataInLast?)
    ensures var ops := FullWrites(|Rest(p, src)|, p.mps);
            Events(p, ops) == WroteAll(Rest(p, src)) && Run(p, ops).state.DataInLast? && Run(p, ops).mps == p.mps
    decreases |Rest(p, src)|
  {
    if p.state.DataInLast? {
      assert FullWrites(0, p.mps) == [];
    } else {
      hide Step, Packets, Sending, Rest;
      var n := |Rest(p, src)|;
      NextPacket(p, src);
      var t := Step(p, InDoneOp(Takes(p.mps)));
      StageTrace(t.pipe, src);
      assert FullWrites(n, p.mps)[1..] == FullWrites(n - 1, p.mps);
    }
  }

  /**
   * A whole IN transfer on the bus. With a driver that takes whole packets, after the acceptance and
   * floor(n/m) completions the packets are out and nothing else is; the next completion unstalls
   * EP0-OUT, does nothing else, and only now is the status stage open; the host's empty packet
   * closes it.
   */
  lemma AnswerTrace(p: Pipe, accept: Op, src: seq<byte>)
    requires Accepts(p, accept, src) && accept.take == Takes(p.mps)
    ensures var sent := [accept] + FullWrites(|src| / p.mps, p.mps);
            var done := [accept] + FullWrites(|src| / p.mps + 1, p.mps);
            && Events(p, sent) != [] && Events(p, sent)[0].AcceptedIn?
            && Events(p, sent)[1..] == WroteAll(Packets(src, p.mps))
            && Run(p, sent).state.DataInLast?
            && Events(p, done) == Events(p, sent) + [Unstalled]
            && Run(p, done).state.StatusOut?
            && Step(Run(p, done), OutOp(Packet([]))).events == [GotZlp]
            && Step(Run(p, done), OutOp(Packet([]))).pipe.state.Idle?
  {
    hide Step, FullWrites, Run, Events;
    var m, k := p.mps, |src| / p.mps;
    var q := AcceptIsChunk(p, accept, src);
    var first := InDoneOp(Takes(m));
    StageTrace(q, src);
    assert Rest(q, src) == Packets(src, m) by { assert src[0..] == src; }
    hide Accepts, Sending, Packets;
    SameTrace(p, accept, q, first, FullWrites(k, m));
    MoreWrites(k, m);
    var sent := [accept] + FullWrites(k, m);
    assert [accept] + FullWrites(k + 1, m) == sent + [first];
    LastWrite(p, sent, first);
    StatusOpens(Run(p, sent), first.take);
  }

  lemma SameTrace(p: Pipe, accept: Op, q: Pipe, first: Op, ops: seq<Op>)
    requires var ev := Step(p, accept).events;
             && Step(p, accept).pipe == Step(q, first).pipe
             && ev != [] && ev[0].AcceptedIn? && ev[1..] == Step(q, first).events
    ensures var ev := Events(p, [accept] + ops);
            ev != [] && ev[0].AcceptedIn? && ev[1..] == Events(q, [first] + ops)
    ensures Run(p, [accept] + ops) == Run(q, [first] + ops)
  {
    hide Step;
    assert ([accept] + ops)[1..] == ops && ([first] + ops)[1..] == ops;
  }

  lemma MoreWrites(k: nat, m: nat)
    ensures FullWrites(k + 1, m) == [InDoneOp(Takes(m))] + FullWrites(k, m)
    ensures FullWrites(k + 1, m) == FullWrites(k, m) + [InDoneOp(Takes(m))]
  {
  }

  lemma LastWrite(p: Pipe, ops: seq<Op>, op: Op)
    ensures Run(p, ops + [op]) == Step(Run(p, ops), op).pipe
    ensures Events(p, ops + [op]) == Events(p, ops) + Step(Run(p, ops), op).events
  {
    hide Step;
    var q := Run(p, ops);
    RunAppend(p, ops, [op]);
    assert [op][1..] == [];
    assert Events(q, [op]) == Step(q, op).events + [];
    assert Step(q, op).events + [] == Step(q, op).events;
  }

  lemma StatusOpens(p: Pipe, t: Take)
    requires p.state.DataInLast?
    ensures var turn := Step(p, InDoneOp(t));
            var close := Step(turn.pipe, OutOp(Packet([])));
            && turn.events == [Unstalled] && turn.pipe.state.StatusOut?
            && close.events == [GotZlp] && close.pipe.state.Idle?
  {
  }

  /** The status stage of an IN transfer opens only on the completion of its last packet. */
  lemma StatusOpensIff(p: Pipe, op: Op)
    requires !p.state.StatusOut?
    ensures Step(p, op).pipe.state.StatusOut? <==> p.state.DataInLast? && op.InDoneOp?
    ensures Step(p, op).pipe.state.StatusOut? ==> Step(p, op).events == [Unstalled]
  {
    hide Parse, Overlay;
  }

  /**
   * In any run that ends in the status stage, some completion of a last packet opened it, by an
   * unstall of EP0-OUT and nothing else, and it has been open since.
   */
  lemma {:induction false} StatusOpenSince(p: Pipe, ops: seq<Op>) returns (k: nat)
    requires !p.state.StatusOut? && Run(p, ops).state.StatusOut?
    ensures k < |ops| && ops[k].InDoneOp? && Run(p, ops[..k]).state.DataInLast?
    ensures Step(Run(p, ops[..k]), ops[k]).events == [Unstalled]
    ensures forall j | k < j <= |ops| :: Run(p, ops[..j]).state.StatusOut?
    decreases |ops|
  {
    hide Step;
    var n := |ops| - 1;
    var init := ops[..n];
    assert ops == init + [ops[n]];
    LastWrite(p, init, ops[n]);
    if Run(p, init).state.StatusOut? {
      k := StatusOpenSince(p, init);
      assert init[..k] == ops[..k] && init[k] == ops[k];
    } else {
      k := n;
      StatusOpensIff(Run(p, init), ops[n]);
    }
    forall j | k < j <= |ops| ensures Run(p, ops[..j]).state.StatusOut? {
      if j <= n { assert init[..j] == ops[..j]; } else { assert ops[..j] == ops; }
    }
  }

  /** The four outcomes of a SETUP packet, by its bytes. In all four EP0-OUT is unstalled first. */
  lemma SetupOutcomes(p: Pipe, s: SetupPacket)
    requires 8 <= |p.buf|
    ensures var t := Step(p, SetupOp(Packet(s.Bytes())));
            var req := RequestOf(s);
            var q := p.(buf := s.Bytes() + p.buf[8..]);
            if 0x80 <= s.kind then
              t == Turn(q.(state := CompleteIn(req)), [Unstalled, SetupTaken(req)], Got(req))
            else if s.length == 0 then
              t == Turn(q.(state := CompleteOut, len := 0), [Unstalled, SetupTaken(req)], Got(req))
            else if s.length <= |p.buf| then
              t == Turn(q.(state := DataOut(req), len := s.length, i := 0), [Unstalled, SetupTaken(req)], Done)
            else
              t == Turn(q, [Unstalled, SetupDropped(req)], Done)
  {
    ParseBytes(s);
    hide Parse;
  }

  /** EP0-OUT is unstalled by every packet of eight bytes read as SETUP, when the last packet is out, and never else. */
  lemma UnstalledIff(p: Pipe, op: Op)
    ensures Unstalled in Step(p, op).events <==>
            || (op.SetupOp? && op.offer.Packet? && |op.offer.data| == 8 <= |p.buf|)
            || (op.InDoneOp? && p.state.DataInLast?)
  {
    hide Overlay;
    if op.SetupOp? && op.offer.Packet? && |op.offer.data| == 8 <= |p.buf| {
      assert Parse(op.offer.data).Ok?;
      hide Parse;
      assert Step(p, op).events[0] == Unstalled;
    } else if op.InDoneOp? && p.state.DataInLast? {
      assert Step(p, op).events[0] == Unstalled;
    }
  }

  /** An OUT packet the pipe cannot take: too long for the buffer, a driver's error, or empty and out of turn. */
  predicate BadPacket(p: Pipe, o: Offer) {
    match p.state
    case DataOut(_) => if o.Packet? then p.i + |o.data| > |p.buf| else o.error != WouldBlock
    case DataIn | DataInZlp | DataInLast | StatusOut => false
    case _ => o == Packet([])
  }

  /** When endpoint 0 is stalled, in any state the pipe can be in; and the pipe then waits for a SETUP packet. */
  lemma StalledIff(p: Pipe, op: Op)
    requires p.state.DataOut? ==> p.i <= |p.buf|
    ensures Stalled in Step(p, op).events <==>
            || (op.OutOp? && BadPacket(p, op.offer))
            || (op.RejectOp? && (p.state.CompleteIn? || p.state.CompleteOut?))
            || (&& op.AcceptInOp? && p.state.CompleteIn?
                && !op.filler.panics && op.filler.count.Ok? && op.filler.count.value > |p.buf|)
    ensures Stalled in Step(p, op).events ==> Step(p, op).pipe.state.Error?
  {
    hide Parse, Overlay;
  }

  /** An answer of the wrong direction, or that nobody asked for, is refused and changes nothing. */
  lemma AnswerRefused(p: Pipe, op: Op)
    requires || (op.AcceptOutOp? && !p.state.CompleteOut?)
             || ((op.AcceptInOp? || op.AcceptStaticOp?) && !p.state.CompleteIn?)
             || (op.RejectOp? && !p.state.CompleteOut? && !p.state.CompleteIn?)
    ensures Step(p, op) == Turn(p, [], Failed(InvalidState))
  {
    hide Overlay, WriteInChunk;
  }
}

/** The inductive invariant of the control pipe, and exactly when a Rust slice would go out of range. */
module PipeSafety {
  import opened UsbTypes
  import opened Control
  import opened Bus
  import opened PipeModel

  ghost predicate Inv(p: Pipe) {
    && 0 < p.mps
    && match p.state
       case DataIn => p.i <= p.len <= |p.Source()|
       case DataOut(req) => p.i < p.len == req.length <= |p.buf| && req.direction.Out?
       case CompleteIn(req) => req.direction.In?
       case CompleteOut => p.len <= |p.buf|
       case DataInZlp | DataInLast | StatusOut => p.i == p.len && p.staticBuf.None?
       case _ => true
  }

  /**
   * `static_in_buf` survives a reset, a new SETUP and an early status stage. An `accept_in` that
   * finds one left over is going to send from it, so the transfer has to be no longer than it is.
   * And the callback must not panic.
   */
  predicate InReach(p: Pipe, op: Op) {
    op.AcceptInOp? && p.state.CompleteIn? ==>
      && !op.filler.panics
      && (p.staticBuf.Some? && op.filler.count.Ok? && op.filler.count.value <= |p.buf| ==>
            Min(op.filler.count.value, p.state.req.length) <= |p.staticBuf.value|)
  }

  ghost predicate AllInReach(p: Pipe, ops: seq<Op>)
    decreases |ops|
  {
    ops == [] || (InReach(p, ops[0]) && AllInReach(Step(p, ops[0]).pipe, ops[1..]))
  }

  lemma ChunkSafe(p: Pipe, t: Take)
    requires Inv(p) && p.state.DataIn?
    ensures var turn := WriteInChunk(p, t);
            && Inv(turn.pipe) && !turn.reply.Panicked?
            && turn.pipe.buf == p.buf && turn.pipe.mps == p.mps
  {
  }

  lemma SetupSafe(p: Pipe, o: Offer)
    requires Inv(p)
    ensures var turn := HandleSetup(p, o);
            && Inv(turn.pipe) && !turn.reply.Panicked?
            && |turn.pipe.buf| == |p.buf| && turn.pipe.mps == p.mps
  {
    hide Parse;
  }

  lemma OutSafe(p: Pipe, o: Offer)
    requires Inv(p)
    ensures var turn := HandleOut(p, o);
            && Inv(turn.pipe) && !turn.reply.Panicked?
            && |turn.pipe.buf| == |p.buf| && turn.pipe.mps == p.mps
  {
  }

  lemma AcceptSafe(p: Pipe, op: Op)
    requires Inv(p) && InReach(p, op)
    requires op.AcceptInOp? || op.AcceptStaticOp?
    ensures var turn := Step(p, op);
            && Inv(turn.pipe) && !turn.reply.Panicked?
            && |turn.pipe.buf| == |p.buf| && turn.pipe.mps == p.mps
  {
    if p.state.CompleteIn? {
      var q := if op.AcceptInOp? then p.(buf := Overlay(p.buf, op.filler.data)) else p.(staticBuf := Some(op.data));
      if op.AcceptStaticOp? {
        ChunkSafe(q.(len := Min(|op.data|, p.state.req.length), i := 0, state := DataIn), op.take);
      } else if op.filler.count.Ok? && op.filler.count.value <= |p.buf| {
        assert |q.buf[..op.filler.count.value]| == op.filler.count.value;
        ChunkSafe(q.(len := Min(op.filler.count.value, p.state.req.length), i := 0, state := DataIn), op.take);
      }
    }
  }

  /** No operation in any state breaks the invariant or indexes out of range. */
  lemma StepSafe(p: Pipe, op: Op)
    requires Inv(p) && InReach(p, op)
    ensures Inv(Step(p, op).pipe) && !Step(p, op).reply.Panicked?
    ensures |Step(p, op).pipe.buf| == |p.buf| && Step(p, op).pipe.mps == p.mps
  {
    match op
    case SetupOp(o) => SetupSafe(p, o);
    case OutOp(o) => OutSafe(p, o);
    case AcceptInOp(_, _) => AcceptSafe(p, op);
    case AcceptStaticOp(_, _) => AcceptSafe(p, op);
    case InDoneOp(t) => if p.state.DataIn? { ChunkSafe(p, t); }
    case _ =>
  }

  /** Safety over whole runs: any operations, in any order, with any driver answers. */
  lemma {:induction false} RunSafe(p: Pipe, ops: seq<Op>, k: nat)
    requires Inv(p) && AllInReach(p, ops) && k < |ops|
    ensures Inv(Run(p, ops))
    ensures Inv(Run(p, ops[..k])) && !Step(Run(p, ops[..k]), ops[k]).reply.Panicked?
    decreases |ops|
  {
    StepSafe(p, ops[0]);
    var q := Step(p, ops[0]).pipe;
    if k > 0 {
      RunSafe(q, ops[1..], k - 1);
      assert ops[..k][1..] == ops[1..][..k - 1];
    } else if |ops| > 1 {
      RunSafe(q, ops[1..], 0);
    }
  }

  /**
   * The condition InReach is exact. When it fails, for a callback that returns, the transfer runs
   * off the end of the left-over static buffer after as many full packets as fit in it.
   */
  lemma OutOfReachPanics(p: Pipe, op: Op)
    requires Inv(p) && !InReach(p, op) && !op.filler.panics
    ensures var k := |p.staticBuf.value| / p.mps;
            var ops := [AcceptInOp(op.filler, Takes(p.mps))] + FullWrites(k, p.mps);
            LastReply(p, ops).Panicked?
  {
    var m, d := p.mps, p.staticBuf.value;
    var k := |d| / m;
    var first := AcceptInOp(op.filler, Takes(m));
    var ops := [first] + FullWrites(k, m);
    var q := p.(buf := Overlay(p.buf, op.filler.data), i := 0, state := DataIn,
                len := Min(op.filler.count.value, p.state.req.length));
    assert q.len > |d|;
    FirstWrite(p, first, q);
    if k == 0 {
      assert ops == [first];
      assert ops[..0] == [];
    } else {
      var rest := FullWrites(k - 1, m);
      var init := [first] + rest;
      assert ops[..|ops| - 1] == init;
      assert init[1..] == rest;
      DivBounds(|d|, m);
      WalksOff(q.(i := m), k - 1);
      assert Run(p, init) == Run(q.(i := m), rest);
    }
  }

  lemma DivBounds(n: nat, m: nat)
    requires m > 0
    ensures n / m * m <= n < n / m * m + m
    ensures n / m >= 1 ==> m <= n && m + (n / m - 1) * m == n / m * m
  {
    assert n == n / m * m + n % m;
  }

  lemma FirstWrite(p: Pipe, op: Op, q: Pipe)
    requires Inv(p) && !InReach(p, op) && !op.filler.panics && op.take == Takes(p.mps)
    requires q == p.(buf := Overlay(p.buf, op.filler.data), i := 0, state := DataIn,
                     len := Min(op.filler.count.value, p.state.req.length))
    ensures |p.staticBuf.value| < p.mps ==> Step(p, op).reply.Panicked?
    ensures p.mps <= |p.staticBuf.value| ==> Step(p, op).pipe == q.(i := p.mps)
  {
    var n := op.filler.count.value;
    assert |q.buf[..n]| == n;
    assert Step(p, op) == StartInTransfer(p.(buf := q.buf), p.state.req, q.buf[..n], None, op.take);
  }

  /** In mid-transfer past the buffer's end, each full write advances by one packet and stays there. */
  lemma {:induction false} WalksOff(p: Pipe, n: nat)
    requires p.mps > 0 && p.state.DataIn? && |p.Source()| < p.len
    requires p.i + n * p.mps <= |p.Source()|
    ensures var q := Run(p, FullWrites(n, p.mps));
            q == p.(i := p.i + n * p.mps)
    ensures |p.Source()| < p.i + n * p.mps + p.mps ==>
              Step(Run(p, FullWrites(n, p.mps)), InDoneOp(Takes(p.mps))).reply.Panicked?
    decreases n
  {
    hide Step;
    WalkStep(p);
    assert FullWrites(0, p.mps) == [];
    if n > 0 {
      var q := p.(i := p.i + p.mps);
      assert n * p.mps == p.mps + (n - 1) * p.mps;
      assert FullWrites(n, p.mps)[1..] == FullWrites(n - 1, p.mps);
      assert p.i + p.mps <= |p.Source()| by { assert (n - 1) * p.mps >= 0; }
      WalksOff(q, n - 1);
    }
  }

  /** One full write, before the end of the buffer and at it. */
  lemma WalkStep(p: Pipe)
    requires p.mps > 0 && p.state.DataIn? && p.i <= |p.Source()| < p.len
    ensures var t := Step(p, InDoneOp(Takes(p.mps)));
            if p.i + p.mps <= |p.Source()| then t.pipe == p.(i := p.i + p.mps) else t.reply.Panicked?
  {
  }
}

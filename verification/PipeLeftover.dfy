/**
 * The static buffer an interrupted answer leaves behind: read off the bus events of a run, the ways
 * it comes about, and what it does to the next answer.
 */
module PipeLeftover {
  import opened UsbTypes
  import opened Control
  import opened Bus
  import opened PipeModel
  import opened PipeSafety
  import opened PipeIn

  /** What the events of a run say about IN answers, without looking at the pipe. */
  datatype Tally = Tally(
    asked: Option<nat>,      // wLength of an IN request not answered yet
    owed: Option<nat>,       // bytes the data stage in progress has still to write
    left: Option<seq<byte>>) // the last static buffer given, unless a data stage has been written in full since

  const NOTHING := Tally(None, None, None)

  function Count(t: Tally, e: Event): Tally {
    match e
    case SetupTaken(req) => Tally(if req.direction.In? then Some(req.length) else None, None, t.left)
    case AcceptedIn(src, held) => Tally(None, Some(|src|), if held.Some? then held else t.left)
    case Wrote(d) =>
      if t.owed.None? then t
      else if |d| >= t.owed.value then t.(owed := None, left := None)
      else t.(owed := Some(t.owed.value - |d|))
    case GotZlp | Stalled | WasReset => Tally(None, None, t.left)
    case _ => t
  }

  function CountAll(t: Tally, events: seq<Event>): Tally
    decreases |events|
  {
    if events == [] then t else CountAll(Count(t, events[0]), events[1..])
  }

  lemma {:induction false} CountAppend(t: Tally, a: seq<Event>, b: seq<Event>)
    ensures CountAll(t, a + b) == CountAll(CountAll(t, a), b)
    decreases |a|
  {
    if a == [] {
      assert a + b == b;
    } else {
      assert (a + b)[1..] == a[1..] + b;
      CountAppend(Count(t, a[0]), a[1..], b);
    }
  }

  lemma CountTwo(t: Tally, events: seq<Event>)
    ensures events == [] ==> CountAll(t, events) == t
    ensures |events| == 1 ==> CountAll(t, events) == Count(t, events[0])
    ensures |events| == 2 ==> CountAll(t, events) == Count(Count(t, events[0]), events[1])
  {
    if |events| == 2 {
      assert events[1..] == [events[1]];
      assert CountAll(Count(t, events[0]), [events[1]]) == Count(Count(t, events[0]), events[1]);
    }
  }

  /** The tally and the pipe agree. */
  ghost predicate Matches(p: Pipe, t: Tally) {
    && t.left == p.staticBuf
    && t.owed == (if p.state.DataIn? && p.i <= p.len then Some(p.len - p.i) else None)
    && t.asked == (if p.state.CompleteIn? then Some(p.state.req.length) else None)
  }

  lemma ChunkCounts(p: Pipe, take: Take, t: Tally)
    requires Inv(p) && p.state.DataIn? && Matches(p, t)
    ensures var turn := WriteInChunk(p, take); Matches(turn.pipe, CountAll(t, turn.events))
  {
    CountTwo(t, WriteInChunk(p, take).events);
  }

  lemma StartCounts(p: Pipe, req: Request, src: seq<byte>, held: Option<seq<byte>>, take: Take, t: Tally)
    requires p.mps > 0 && p.state.CompleteIn? && Min(|src|, req.length) <= |p.Source()|
    requires p.staticBuf == if held.Some? then held else t.left
    ensures var turn := StartInTransfer(p, req, src, held, take); Matches(turn.pipe, CountAll(t, turn.events))
  {
    var len := Min(|src|, req.length);
    var q := p.(len := len, i := 0, state := DataIn);
    var first := [AcceptedIn(src[..len], held)];
    ChunkSafe(q, take);
    CountTwo(t, first);
    ChunkCounts(q, take, CountAll(t, first));
    var turn := WriteInChunk(q, take);
    hide WriteInChunk;
    CountAppend(t, first, turn.events);
  }

  lemma AcceptCounts(p: Pipe, op: Op, t: Tally)
    requires Inv(p) && InReach(p, op) && Matches(p, t) && (op.AcceptInOp? || op.AcceptStaticOp?)
    ensures Matches(Step(p, op).pipe, CountAll(t, Step(p, op).events))
  {
    CountTwo(t, Step(p, op).events);
    if p.state.CompleteIn? && op.AcceptStaticOp? {
      StartCounts(p.(staticBuf := Some(op.data)), p.state.req, op.data, Some(op.data), op.take, t);
    } else if p.state.CompleteIn? && op.filler.count.Ok? && op.filler.count.value <= |p.buf| {
      var q := p.(buf := Overlay(p.buf, op.filler.data));
      StartCounts(q, p.state.req, q.buf[..op.filler.count.value], None, op.take, t);
    }
    hide StartInTransfer, CountAll;
  }

  lemma StepCounts(p: Pipe, op: Op, t: Tally)
    requires Inv(p) && InReach(p, op) && Matches(p, t)
    ensures Matches(Step(p, op).pipe, CountAll(t, Step(p, op).events))
  {
    if op.AcceptInOp? || op.AcceptStaticOp? {
      AcceptCounts(p, op, t);
    } else if op.InDoneOp? && p.state.DataIn? {
      ChunkCounts(p, op.take, t);
    } else if op.SetupOp? {
      SetupCounts(p, op.offer, t);
    } else if op.OutOp? {
      OutCounts(p, op.offer, t);
    } else {
      CountTwo(t, Step(p, op).events);
      hide CountAll, WriteInChunk;
    }
  }

  lemma SetupCounts(p: Pipe, o: Offer, t: Tally)
    requires Matches(p, t)
    ensures var turn := HandleSetup(p, o); Matches(turn.pipe, CountAll(t, turn.events))
  {
    hide Parse, Overlay;
    CountTwo(t, HandleSetup(p, o).events);
    hide CountAll;
  }

  lemma OutCounts(p: Pipe, o: Offer, t: Tally)
    requires Inv(p) && Matches(p, t)
    ensures var turn := HandleOut(p, o); Matches(turn.pipe, CountAll(t, turn.events))
  {
    hide Overlay;
    CountTwo(t, HandleOut(p, o).events);
    hide CountAll;
  }

  lemma {:induction false} RunCounts(p: Pipe, ops: seq<Op>, t: Tally)
    requires Inv(p) && AllInReach(p, ops) && Matches(p, t)
    ensures Inv(Run(p, ops)) && Matches(Run(p, ops), CountAll(t, Events(p, ops)))
    decreases |ops|
  {
    if ops != [] {
      var turn := Step(p, ops[0]);
      StepSafe(p, ops[0]);
      StepCounts(p, ops[0], t);
      RunCounts(turn.pipe, ops[1..], CountAll(t, turn.events));
      CountAppend(t, turn.events, Events(turn.pipe, ops[1..]));
    }
  }

  /** PipeSafety.InReach, said of the events so far instead of the pipe's fields. */
  predicate WithinReach(t: Tally, op: Op, capacity: nat) {
    op.AcceptInOp? && t.asked.Some? ==>
      && !op.filler.panics
      && (t.left.Some? && op.filler.count.Ok? && op.filler.count.value <= capacity ==>
            Min(op.filler.count.value, t.asked.value) <= |t.left.value|)
  }

  ghost predicate ReachAt(p: Pipe, t: Tally, ops: seq<Op>, k: nat)
    requires k < |ops|
  {
    WithinReach(CountAll(t, Events(p, ops[..k])), ops[k], |p.buf|)
  }

  /**
   * The condition for a safe run, on its own bus events: each `accept_in` is no longer than the last
   * static buffer given, unless since then some data stage has been written in full; and no
   * callback panics.
   */
  lemma {:induction false} ReachIff(p: Pipe, t: Tally, ops: seq<Op>)
    requires Inv(p) && Matches(p, t)
    ensures AllInReach(p, ops) <==> forall k: nat | k < |ops| :: ReachAt(p, t, ops, k)
    decreases |ops|
  {
    if ops != [] {
      assert ops[..0] == [];
      assert ReachAt(p, t, ops, 0) <==> InReach(p, ops[0]);
      if InReach(p, ops[0]) {
        var turn := Step(p, ops[0]);
        var next := CountAll(t, turn.events);
        StepSafe(p, ops[0]);
        StepCounts(p, ops[0], t);
        ReachIff(turn.pipe, next, ops[1..]);
        forall k: nat | k < |ops[1..]|
          ensures ReachAt(p, t, ops, k + 1) <==> ReachAt(turn.pipe, next, ops[1..], k)
        {
          ReachLater(p, t, ops, k);
        }
        assert AllInReach(p, ops) <==> AllInReach(turn.pipe, ops[1..]);
        hide ReachAt, AllInReach, InReach, Step, CountAll, Events, Inv, Matches;
        if forall k: nat | k < |ops[1..]| :: ReachAt(turn.pipe, next, ops[1..], k) {
          forall k: nat | k < |ops| ensures ReachAt(p, t, ops, k) {
            if k > 0 { assert ReachAt(turn.pipe, next, ops[1..], k - 1); }
          }
        }
      }
    }
  }

  lemma ReachLater(p: Pipe, t: Tally, ops: seq<Op>, k: nat)
    requires k + 1 < |ops|
    ensures var turn := Step(p, ops[0]);
            ReachAt(p, t, ops, k + 1) <==> ReachAt(turn.pipe, CountAll(t, turn.events), ops[1..], k)
  {
    var turn := Step(p, ops[0]);
    var upTo := ops[..k + 1];
    assert upTo[0] == ops[0] && upTo[1..] == ops[1..][..k];
    assert |turn.pipe.buf| == |p.buf| by { StepKeepsBufferSize(p, ops[0]); }
    hide Step, WithinReach;
    CountAppend(t, turn.events, Events(turn.pipe, ops[1..][..k]));
  }

  /**
   * Which answers come out right, on the bus events of the run before them. In a run that sends all
   * of it, the host gets what the callback wrote exactly when no static buffer is left unsent, or
   * one that begins the same.
   */
  lemma FaithfulAfterIff(p: Pipe, before: seq<Op>, answer: Op, after: seq<Op>)
    requires Fresh(p) && AllInReach(p, before) && answer.AcceptInOp? && answer.filler.count.Ok?
    requires var q := Run(p, before);
             && q.state.CompleteIn? && answer.filler.count.value <= |q.buf| && InReach(q, answer)
             && NoSetup(Step(q, answer).pipe, after) && Run(q, [answer] + after).i == |Meant(q, answer)|
    ensures var q := Run(p, before);
            var left := CountAll(NOTHING, Events(p, before)).left;
            Flatten(Writes(Events(q, [answer] + after))) == Meant(q, answer)
            <==> left.None? || Meant(q, answer) <= left.value
  {
    RunCounts(p, before, NOTHING);
    RunKeepsSize(p, before);
    var q := Run(p, before);
    var src := if q.staticBuf.None? then Meant(q, answer) else q.staticBuf.value[..|Meant(q, answer)|];
    assert Accepts(q, answer, src);
    hide Step, Run, Events, Writes, Flatten, CountAll, Meant, Inv, Accepts;
    AcceptedSending(q, answer, src);
    NoSetupCalm(Step(q, answer).pipe, after, src);
    AnswerRightIff(q, answer, src, after);
  }

  /** What can cut an answer short: a reset, the host's early status packet, or only the next SETUP. */
  predicate CutsShort(cut: seq<Op>) {
    cut == [] || cut == [ResetOp] || cut == [OutOp(Packet([]))]
  }

  function Interrupted(setup: seq<byte>, data: seq<byte>, m: nat, cut: seq<Op>): seq<Op> {
    [SetupOp(Packet(setup)), AcceptStaticOp(data, Takes(m))] + cut + [SetupOp(Packet(setup))]
  }

  lemma AnswerBegun(p: Pipe, setup: seq<byte>, data: seq<byte>)
    requires Inv(p) && 8 <= |p.buf| && |setup| == 8 && Parse(setup).Ok? && Parse(setup).value.direction.In?
    requires p.mps < |data| && p.mps < Parse(setup).value.length
    ensures var q := Run(p, [SetupOp(Packet(setup)), AcceptStaticOp(data, Takes(p.mps))]);
            q.state.DataIn? && q.staticBuf == Some(data) && |q.buf| == |p.buf| && q.mps == p.mps
  {
    hide Parse;
    var ops := [SetupOp(Packet(setup)), AcceptStaticOp(data, Takes(p.mps))];
    var p1 := Step(p, ops[0]).pipe;
    var p2 := Step(p1, ops[1]).pipe;
    assert p1.state == CompleteIn(Parse(setup).value) && p1.mps == p.mps;
    assert p2.state.DataIn? && p2.staticBuf == Some(data);
    hide Step;
    assert ops[1..] == [ops[1]];
    assert Run(p, ops) == Run(p1, [ops[1]]) == Run(p2, []);
  }

  /** A static answer of more than one packet, cut short in any of these ways, is left behind. */
  lemma LeftoverReachable(p: Pipe, setup: seq<byte>, data: seq<byte>, cut: seq<Op>)
    requires Fresh(p) && 8 <= |p.buf| && |setup| == 8 && Parse(setup).Ok? && Parse(setup).value.direction.In?
    requires p.mps < |data| && p.mps < Parse(setup).value.length && CutsShort(cut)
    ensures var q := Run(p, Interrupted(setup, data, p.mps, cut));
            && q.state == CompleteIn(Parse(setup).value) && q.staticBuf == Some(data)
            && |q.buf| == |p.buf| && q.mps == p.mps
  {
    hide Parse;
    AnswerBegun(p, setup, data);
    var begin := [SetupOp(Packet(setup)), AcceptStaticOp(data, Takes(p.mps))];
    var next := [SetupOp(Packet(setup))];
    var q := Run(p, begin);
    RunAppend(p, begin + cut, next);
    RunAppend(p, begin, cut);
    if cut != [] {
      assert cut[1..] == [];
    }
    var r := Run(q, cut);
    assert r.staticBuf == Some(data) && |r.buf| == |p.buf| && r.mps == p.mps;
    assert next[1..] == [];
    assert Run(r, next) == Step(r, next[0]).pipe;
  }

  /**
   * And the next answer can then run off its end. From a fresh pipe, with only SETUP packets the
   * host may send and answers a class may give, the chunk writer's slice goes out of range.
   */
  lemma PanicReachable(p: Pipe, setup: seq<byte>, data: seq<byte>, cut: seq<Op>, n: nat)
    requires Fresh(p) && 8 <= |p.buf| && |setup| == 8 && Parse(setup).Ok? && Parse(setup).value.direction.In?
    requires p.mps < |data| < n <= |p.buf| && n <= Parse(setup).value.length && CutsShort(cut)
    ensures var answer := AcceptInOp(Filler([], Ok(n)), Takes(p.mps));
            var ops := Interrupted(setup, data, p.mps, cut) + [answer] + FullWrites(|data| / p.mps, p.mps);
            LastReply(p, ops).Panicked?
  {
    hide Parse;
    var before := Interrupted(setup, data, p.mps, cut);
    var answer := AcceptInOp(Filler([], Ok(n)), Takes(p.mps));
    var tail := [answer] + FullWrites(|data| / p.mps, p.mps);
    LeftoverReachable(p, setup, data, cut);
    var q := Run(p, before);
    assert Inv(q) && !InReach(q, answer);
    OutOfReachPanics(q, answer);
    hide Step, Run, Interrupted, FullWrites;
    LastOfBoth(p, before, tail);
    assert before + [answer] + FullWrites(|data| / p.mps, p.mps) == before + tail;
  }

  lemma LastOfBoth(p: Pipe, a: seq<Op>, b: seq<Op>)
    requires b != []
    ensures LastReply(p, a + b) == LastReply(Run(p, a), b)
  {
    hide Step, Run, Events;
    LastOfSum(a, b);
    RunAppend(p, a, b[..|b| - 1]);
  }

  lemma LastOfSum<T>(a: seq<T>, b: seq<T>)
    requires b != []
    ensures var sum := a + b; sum[..|sum| - 1] == a + b[..|b| - 1] && sum[|sum| - 1] == b[|b| - 1]
  {
  }
}

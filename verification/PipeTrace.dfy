/**
 * The control pipe follows a protocol of stages, an automaton over bus events alone that knows
 * nothing of cursors, buffers or pipe states. The stages and their order are those of a control
 * transfer in USB 2.0, with two liberties of the code.
 *
 * How the data stage of an IN transfer is cut into packets is the code's own: a driver may take part
 * of a packet in mid-stage, and a full last packet is always followed by an empty one.
 * PipeIn.DataStageIff says when that is the data stage of section 8.5.3.2 of USB 2.0.
 *
 * In USB 2.0 every SETUP packet ends the transfer in progress. The code goes on with it when the
 * SETUP packet announces more OUT data than the buffer holds. The automaton comes both ways: `ends`
 * says whether such a packet ends the transfer. RunRefines is about the code's way, and ConformsIff
 * says exactly when a run keeps to the standard's.
 */
module PipeTrace {
  import opened UsbTypes
  import opened Control
  import opened Bus
  import opened PipeModel
  import opened PipeSafety
  import opened PipeIn
  import opened PipeOut

  datatype Phase =
    | Quiet                // no transfer in progress
    | OutData(left: nat)   // data stage, `left` bytes still announced
    | OutDecide            // all announced bytes are in; accept or reject
    | OutStatus            // status packet written
    | InDecide             // accept or reject
    | InData(left: nat)    // data stage, `left` bytes still to go
    | InZlp                // data ended on a full packet: the code sends an empty one
    | InSent               // the short packet is out; the host's status packet is due
    | MustStall            // a packet came out of turn
    | Halted               // stalled until the next SETUP
    | Broken               // protocol violation

  /** A transfer is in progress. */
  predicate Busy(ph: Phase) {
    !(ph.Quiet? || ph.MustStall? || ph.Halted? || ph.Broken?)
  }

  function Next(ph: Phase, e: Event, m: nat, ends: bool): Phase {
    if ph.Broken? || (ph.MustStall? && !e.Stalled?) then Broken else
    match e
    case WasReset => Quiet
    case SetupTaken(req) =>
      if req.direction.In? then InDecide else if req.length == 0 then OutDecide else OutData(req.length)
    case SetupDropped(_) => if ends && Busy(ph) then Quiet else ph
    case SetupIgnored(_) => ph
    case Unstalled => ph
    case GotData(d) =>
      if !ph.OutData? then Broken else if |d| >= ph.left then OutDecide else OutData(ph.left - |d|)
    case AcceptedIn(src, _) => if ph.InDecide? then InData(|src|) else Broken
    case Wrote(d) => (
      match ph
      case OutDecide => if d == [] then OutStatus else Broken
      case InZlp => if d == [] then InSent else Broken
      case InData(left) =>
        if |d| > Min(left, m) then Broken
        else if |d| < left then InData(left - |d|)
        else if |d| == m then InZlp
        else InSent
      case _ => Broken
    )
    case StatusSent => if ph.OutStatus? then Quiet else Broken
    case GotZlp => if ph.InData? || ph.InZlp? || ph.InSent? then Quiet else MustStall
    case Stalled =>
      if ph.MustStall? || ph.OutData? || ph.OutDecide? || ph.InDecide? then Halted else Broken
  }

  function Follow(ph: Phase, events: seq<Event>, m: nat, ends: bool): Phase
    decreases |events|
  {
    if events == [] then ph else Follow(Next(ph, events[0], m, ends), events[1..], m, ends)
  }

  lemma {:induction false} FollowAppend(ph: Phase, a: seq<Event>, b: seq<Event>, m: nat, ends: bool)
    ensures Follow(ph, a + b, m, ends) == Follow(Follow(ph, a, m, ends), b, m, ends)
    decreases |a|
  {
    if a == [] {
      assert a + b == b;
    } else {
      assert (a + b)[1..] == a[1..] + b;
      FollowAppend(Next(ph, a[0], m, ends), a[1..], b, m, ends);
    }
  }

  lemma {:induction false} BrokenStays(events: seq<Event>, m: nat, ends: bool)
    ensures Follow(Broken, events, m, ends) == Broken
    decreases |events|
  {
    if events != [] {
      BrokenStays(events[1..], m, ends);
    }
  }

  /** Where the protocol stands, read off the pipe. */
  function PhaseOf(p: Pipe): Phase {
    match p.state
    case Idle => Quiet
    case DataIn => InData(if p.i <= p.len then p.len - p.i else 0)
    case DataInZlp => InZlp
    case DataInLast | StatusOut => InSent
    case CompleteIn(_) => InDecide
    case CompleteOut => OutDecide
    case DataOut(_) => OutData(if p.i <= p.len then p.len - p.i else 0)
    case StatusIn => OutStatus
    case Error => Halted
  }

  lemma FollowTwo(ph: Phase, events: seq<Event>, m: nat, ends: bool)
    ensures events == [] ==> Follow(ph, events, m, ends) == ph
    ensures |events| == 1 ==> Follow(ph, events, m, ends) == Next(ph, events[0], m, ends)
    ensures |events| == 2 ==> Follow(ph, events, m, ends) == Next(Next(ph, events[0], m, ends), events[1], m, ends)
  {
    if |events| == 2 {
      assert events[1..] == [events[1]];
      var next := Next(ph, events[0], m, ends);
      assert Follow(next, [events[1]], m, ends) == Next(next, events[1], m, ends);
    }
  }

  ghost predicate Refines(p: Pipe, t: Turn) {
    Follow(PhaseOf(p), t.events, p.mps, false) == PhaseOf(t.pipe)
  }

  lemma SetupRefines(p: Pipe, o: Offer)
    requires Inv(p)
    ensures Refines(p, HandleSetup(p, o))
  {
    hide Parse, Overlay;
    FollowTwo(PhaseOf(p), HandleSetup(p, o).events, p.mps, false);
    hide Follow, Inv;
  }

  lemma OutRefines(p: Pipe, o: Offer)
    requires Inv(p)
    ensures Refines(p, HandleOut(p, o))
  {
    FollowTwo(PhaseOf(p), HandleOut(p, o).events, p.mps, false);
  }

  lemma InDoneRefines(p: Pipe, t: Take)
    requires Inv(p)
    ensures Refines(p, HandleInComplete(p, t))
  {
    FollowTwo(PhaseOf(p), HandleInComplete(p, t).events, p.mps, false);
  }

  lemma ChunkRefines(p: Pipe, t: Take)
    requires Inv(p) && p.state.DataIn?
    ensures Refines(p, WriteInChunk(p, t))
  {
    FollowTwo(PhaseOf(p), WriteInChunk(p, t).events, p.mps, false);
  }

  /** An accepted transfer is a data stage with all of the source left, then its first chunk. */
  lemma StartRefines(p: Pipe, req: Request, src: seq<byte>, held: Option<seq<byte>>, t: Take)
    requires p.mps > 0 && p.state.CompleteIn? && Min(|src|, req.length) <= |p.Source()|
    ensures Refines(p, StartInTransfer(p, req, src, held, t))
  {
    var len := Min(|src|, req.length);
    var q := p.(len := len, i := 0, state := DataIn);
    ChunkSafe(q, t);
    ChunkRefines(q, t);
    var turn := WriteInChunk(q, t);
    hide WriteInChunk;
    var first := [AcceptedIn(src[..len], held)];
    FollowTwo(PhaseOf(p), first, p.mps, false);
    assert Next(PhaseOf(p), first[0], p.mps, false) == PhaseOf(q);
    FollowAppend(PhaseOf(p), first, turn.events, p.mps, false);
    hide Follow, Next;
  }

  lemma AcceptRefines(p: Pipe, op: Op)
    requires Inv(p) && InReach(p, op) && (op.AcceptInOp? || op.AcceptStaticOp?)
    ensures Refines(p, Step(p, op))
  {
    FollowTwo(PhaseOf(p), Step(p, op).events, p.mps, false);
    if p.state.CompleteIn? && op.AcceptStaticOp? {
      StartRefines(p.(staticBuf := Some(op.data)), p.state.req, op.data, Some(op.data), op.take);
    } else if p.state.CompleteIn? && op.filler.count.Ok? && op.filler.count.value <= |p.buf| {
      var q := p.(buf := Overlay(p.buf, op.filler.data));
      StartRefines(q, p.state.req, q.buf[..op.filler.count.value], None, op.take);
    }
    hide StartInTransfer;
  }

  lemma StepRefines(p: Pipe, op: Op)
    requires Inv(p) && InReach(p, op)
    ensures Refines(p, Step(p, op))
  {
    match op
    case SetupOp(o) => SetupRefines(p, o);
    case OutOp(o) => OutRefines(p, o);
    case InDoneOp(t) => InDoneRefines(p, t);
    case AcceptInOp(_, _) => AcceptRefines(p, op);
    case AcceptStaticOp(_, _) => AcceptRefines(p, op);
    case _ => FollowTwo(PhaseOf(p), Step(p, op).events, p.mps, false);
  }

  /**
   * Trace refinement: whatever the host, the driver and the classes do, the events of every run
   * follow the code's protocol, and the pipe's state is the phase they lead to.
   */
  lemma {:induction false} RunRefines(p: Pipe, ops: seq<Op>)
    requires Inv(p) && AllInReach(p, ops)
    ensures Inv(Run(p, ops))
    ensures Follow(PhaseOf(p), Events(p, ops), p.mps, false) == PhaseOf(Run(p, ops))
    ensures !Follow(PhaseOf(p), Events(p, ops), p.mps, false).Broken?
    decreases |ops|
  {
    if ops != [] {
      var t := Step(p, ops[0]);
      StepSafe(p, ops[0]);
      StepRefines(p, ops[0]);
      FollowAppend(PhaseOf(p), t.events, Events(t.pipe, ops[1..]), p.mps, false);
      RunRefines(t.pipe, ops[1..]);
    }
  }

  /** No packet out of turn has gone unanswered, and nothing was sent or taken out of turn. */
  predicate InOrder(ph: Phase) {
    !ph.Broken? && !ph.MustStall?
  }

  /** The step takes up another transfer, or resets. */
  ghost predicate Restarts(events: seq<Event>) {
    exists k | 0 <= k < |events| :: events[k].SetupTaken? || events[k].WasReset?
  }

  ghost predicate Drops(events: seq<Event>) {
    exists k | 0 <= k < |events| :: events[k].SetupDropped?
  }

  /** What a pipe with no transfer may do: read SETUP packets, and stall a packet out of turn. */
  ghost predicate LeavesAlone(events: seq<Event>) {
    || events == [GotZlp, Stalled]
    || forall k | 0 <= k < |events| :: events[k].SetupDropped? || events[k].SetupIgnored? || events[k].Unstalled?
  }

  /**
   * What the host, the driver and the classes must do for the standard to be kept. Once an OUT SETUP
   * packet that does not fit has overtaken a transfer, nothing more is done for that transfer: until
   * the pipe takes up another SETUP packet or is reset, it reads only SETUP packets, or stalls.
   */
  ghost predicate Abides(p: Pipe, ops: seq<Op>, overtaken: bool)
    decreases |ops|
  {
    ops == []
    || var t := Step(p, ops[0]);
       && (overtaken && !Restarts(t.events) ==> LeavesAlone(t.events))
       && Abides(t.pipe, ops[1..], OvertakenAfter(p, t, overtaken))
  }

  ghost predicate OvertakenAfter(p: Pipe, t: Turn, overtaken: bool) {
    !Restarts(t.events) && t.events != [GotZlp, Stalled] && (overtaken || (Drops(t.events) && Busy(PhaseOf(p))))
  }

  /** Where the standard's automaton stands. */
  ghost predicate Stands(p: Pipe, ph: Phase, overtaken: bool) {
    ph == if overtaken then Quiet else PhaseOf(p)
  }

  /** The run can no longer keep the standard. */
  predicate Doomed(p: Pipe, ph: Phase) {
    ph.Broken? || (ph.MustStall? && p.state.Idle?)
  }

  lemma {:induction false} FollowSame(ph: Phase, events: seq<Event>, m: nat)
    requires !Drops(events)
    ensures Follow(ph, events, m, true) == Follow(ph, events, m, false)
    decreases |events|
  {
    if events != [] {
      assert !events[0].SetupDropped?;
      assert forall k | 0 <= k < |events[1..]| :: events[1..][k] == events[k + 1];
      FollowSame(Next(ph, events[0], m, false), events[1..], m);
    }
  }

  /** Only an OUT SETUP packet that does not fit is dropped; the pipe stays where it was. */
  lemma DropStep(p: Pipe, op: Op)
    requires Drops(Step(p, op).events)
    ensures var t := Step(p, op);
            && |t.events| == 2 && t.events[0].Unstalled? && t.events[1].SetupDropped?
            && PhaseOf(t.pipe) == PhaseOf(p)
  {
    hide Parse, Overlay;
    var k :| 0 <= k < |Step(p, op).events| && Step(p, op).events[k].SetupDropped?;
  }

  /** A step of a pipe that has not been overtaken. */
  lemma StrictStep(p: Pipe, op: Op)
    requires Inv(p) && InReach(p, op)
    ensures var t := Step(p, op);
            && Stands(t.pipe, Follow(PhaseOf(p), t.events, p.mps, true), OvertakenAfter(p, t, false))
  {
    hide Step, InReach, Inv;
    var t := Step(p, op);
    if Drops(t.events) {
      DropStep(p, op);
      FollowTwo(PhaseOf(p), t.events, p.mps, true);
    } else {
      StepRefines(p, op);
      FollowSame(PhaseOf(p), t.events, p.mps);
    }
  }

  /** What a step of an overtaken pipe comes to, by the standard. */
  ghost predicate Overtaken(t: Turn, ph: Phase) {
    if Restarts(t.events) then ph == PhaseOf(t.pipe)
    else if LeavesAlone(t.events) then ph == if t.events == [GotZlp, Stalled] then PhaseOf(t.pipe) else Quiet
    else Doomed(t.pipe, ph)
  }

  lemma OvertakenSetup(p: Pipe, o: Offer)
    ensures var t := HandleSetup(p, o); Overtaken(t, Follow(Quiet, t.events, p.mps, true))
  {
    hide Parse, Overlay;
    var t := HandleSetup(p, o);
    FollowTwo(Quiet, t.events, p.mps, true);
    hide Follow;
    if |t.events| == 2 && t.events[1].SetupTaken? {
      assert Restarts(t.events);
    }
  }

  lemma OvertakenOut(p: Pipe, o: Offer)
    ensures var t := HandleOut(p, o); Overtaken(t, Follow(Quiet, t.events, p.mps, true))
  {
    hide Overlay;
    var t := HandleOut(p, o);
    FollowTwo(Quiet, t.events, p.mps, true);
    hide Follow;
    if t.events != [] { assert !LeavesAlone(t.events) <==> t.events != [GotZlp, Stalled]; }
  }

  lemma OvertakenInDone(p: Pipe, take: Take)
    ensures var t := HandleInComplete(p, take); Overtaken(t, Follow(Quiet, t.events, p.mps, true))
  {
    var t := HandleInComplete(p, take);
    FollowTwo(Quiet, t.events, p.mps, true);
    hide Follow;
  }

  lemma FirstBreaks(t: Turn, m: nat)
    requires t.events != [] && (t.events[0].AcceptedIn? || t.events[0].Wrote? || t.events[0].Stalled?)
    requires !Restarts(t.events)
    ensures Overtaken(t, Follow(Quiet, t.events, m, true))
  {
    BrokenStays(t.events[1..], m, true);
    assert !LeavesAlone(t.events) by { assert t.events[0] != GotZlp; }
  }

  lemma OvertakenAnswer(p: Pipe, op: Op)
    requires op.AcceptOutOp? || op.AcceptInOp? || op.AcceptStaticOp? || op.RejectOp?
    ensures var t := Step(p, op); Overtaken(t, Follow(Quiet, t.events, p.mps, true))
  {
    hide Overlay;
    var t := Step(p, op);
    if t.events == [] {
      FollowTwo(Quiet, t.events, p.mps, true);
    } else {
      FirstBreaks(t, p.mps);
    }
  }

  lemma OvertakenStep(p: Pipe, op: Op)
    ensures var t := Step(p, op); Overtaken(t, Follow(Quiet, t.events, p.mps, true))
  {
    match op
    case SetupOp(o) => OvertakenSetup(p, o);
    case OutOp(o) => OvertakenOut(p, o);
    case InDoneOp(take) => OvertakenInDone(p, take);
    case ResetOp =>
      FollowTwo(Quiet, Step(p, op).events, p.mps, true);
      assert Step(p, op).events[0].WasReset?;
    case _ => OvertakenAnswer(p, op);
  }

  lemma DoomedStep(p: Pipe, op: Op, ph: Phase)
    requires Doomed(p, ph)
    ensures Doomed(Step(p, op).pipe, Follow(ph, Step(p, op).events, p.mps, true))
  {
    var t := Step(p, op);
    if ph.Broken? {
      BrokenStays(t.events, p.mps, true);
    } else if t.events == [] {
      hide Parse, Overlay;
      FollowTwo(ph, t.events, p.mps, true);
    } else {
      assert !t.events[0].Stalled? by { hide Parse, Overlay; }
      BrokenStays(t.events[1..], p.mps, true);
    }
  }

  lemma {:induction false} DoomedRun(p: Pipe, ops: seq<Op>, ph: Phase)
    requires Doomed(p, ph)
    ensures !InOrder(Follow(ph, Events(p, ops), p.mps, true))
    decreases |ops|
  {
    if ops != [] {
      hide Step;
      var t := Step(p, ops[0]);
      DoomedStep(p, ops[0], ph);
      assert t.pipe.mps == p.mps by { StepKeepsBufferSize(p, ops[0]); }
      FollowAppend(ph, t.events, Events(t.pipe, ops[1..]), p.mps, true);
      DoomedRun(t.pipe, ops[1..], Follow(ph, t.events, p.mps, true));
    }
  }

  lemma {:induction false} ConformsFrom(p: Pipe, ops: seq<Op>, ph: Phase, overtaken: bool)
    requires Inv(p) && AllInReach(p, ops) && Stands(p, ph, overtaken)
    ensures InOrder(Follow(ph, Events(p, ops), p.mps, true)) <==> Abides(p, ops, overtaken)
    decreases |ops|
  {
    if ops != [] {
      hide Step, InReach, Inv;
      var t := Step(p, ops[0]);
      var next := Follow(ph, t.events, p.mps, true);
      StepSafe(p, ops[0]);
      FollowAppend(ph, t.events, Events(t.pipe, ops[1..]), p.mps, true);
      if overtaken { OvertakenStep(p, ops[0]); } else { StrictStep(p, ops[0]); }
      hide Follow;
      if overtaken && !Restarts(t.events) && !LeavesAlone(t.events) {
        DoomedRun(t.pipe, ops[1..], next);
      } else {
        assert Stands(t.pipe, next, OvertakenAfter(p, t, overtaken));
        ConformsFrom(t.pipe, ops[1..], next, OvertakenAfter(p, t, overtaken));
      }
    }
  }

  /**
   * When a run keeps to the standard's protocol, in which every SETUP packet ends the transfer in
   * progress: exactly when nothing is done for a transfer that a dropped SETUP packet has overtaken.
   */
  lemma ConformsIff(p: Pipe, ops: seq<Op>)
    requires Inv(p) && AllInReach(p, ops)
    ensures InOrder(Follow(PhaseOf(p), Events(p, ops), p.mps, true)) <==> Abides(p, ops, false)
  {
    ConformsFrom(p, ops, PhaseOf(p), false);
  }

  /** The operation reads no OUT SETUP packet that announces more than the buffer holds. */
  predicate Fitting(op: Op, capacity: nat) {
    op.SetupOp? && Read(op.offer, capacity).Ok? && Parse(op.offer.data).Ok?
    && Parse(op.offer.data).value.direction.Out?
    ==> Parse(op.offer.data).value.length <= capacity
  }

  lemma FittingDropsNothing(p: Pipe, op: Op)
    requires Fitting(op, |p.buf|)
    ensures !Drops(Step(p, op).events)
  {
    hide Parse, Overlay;
  }

  lemma {:induction false} FittingAbides(p: Pipe, ops: seq<Op>)
    requires forall k | 0 <= k < |ops| :: Fitting(ops[k], |p.buf|)
    ensures Abides(p, ops, false)
    decreases |ops|
  {
    if ops != [] {
      hide Step, Fitting;
      FittingDropsNothing(p, ops[0]);
      StepKeepsBufferSize(p, ops[0]);
      assert forall k | 0 <= k < |ops[1..]| :: ops[1..][k] == ops[k + 1];
      FittingAbides(Step(p, ops[0]).pipe, ops[1..]);
    }
  }

  /** A host that never announces more than the buffer holds always finds the standard kept. */
  lemma FittingConforms(p: Pipe, ops: seq<Op>)
    requires Inv(p) && AllInReach(p, ops) && forall k | 0 <= k < |ops| :: Fitting(ops[k], |p.buf|)
    ensures InOrder(Follow(PhaseOf(p), Events(p, ops), p.mps, true))
  {
    FittingAbides(p, ops);
    ConformsIff(p, ops);
  }

  predicate OneTransfer(events: seq<Event>) {
    forall k | 0 <= k < |events| :: !events[k].SetupTaken?
  }

  function Statuses(events: seq<Event>): nat {
    if events == [] then 0 else (if events[0].StatusSent? then 1 else 0) + Statuses(events[1..])
  }

  lemma TraceHead(events: seq<Event>)
    requires events != []
    ensures Writes(events) == (if events[0].Wrote? then [events[0].data] else []) + Writes(events[1..])
    ensures Received(events) == (if events[0].GotData? then events[0].data else []) + Received(events[1..])
    ensures Statuses(events) == (if events[0].StatusSent? then 1 else 0) + Statuses(events[1..])
  {
  }

  /** Traces the protocol allows from the middle of an OUT transfer to before the next one. */
  lemma {:induction false} OutTraces(ph: Phase, events: seq<Event>, m: nat)
    requires ph.OutData? || ph.OutDecide? || ph.OutStatus? || ph.Quiet? || ph.Halted? || ph.MustStall?
    requires OneTransfer(events) && !Follow(ph, events, m, false).Broken?
    ensures Writes(events) == [] || (Writes(events) == [[]] && (ph.OutData? || ph.OutDecide?))
    ensures Writes(events) != [] && ph.OutData? ==> ph.left <= |Received(events)|
    ensures Statuses(events) <= |Writes(events)| + (if ph.OutStatus? then 1 else 0)
    decreases |events|
  {
    if events != [] {
      var next := Next(ph, events[0], m, false);
      if next.Broken? {
        BrokenStays(events[1..], m, false);
      }
      assert !events[0].SetupTaken?;
      assert OneTransfer(events[1..]) by {
        assert forall k | 0 <= k < |events[1..]| :: events[1..][k] == events[k + 1];
      }
      hide Next, Follow;
      OutTraces(next, events[1..], m);
      TraceHead(events);
      hide Writes, Received, Statuses;
    }
  }

  /** Traces the protocol allows of an IN transfer that has not been accepted. */
  lemma {:induction false} InTraces(ph: Phase, events: seq<Event>, m: nat)
    requires ph.InDecide? || ph.Quiet? || ph.Halted? || ph.MustStall?
    requires OneTransfer(events) && !Follow(ph, events, m, false).Broken?
    requires ph.InDecide? ==> forall k | 0 <= k < |events| :: !events[k].AcceptedIn?
    ensures Writes(events) == [] && Statuses(events) == 0
    decreases |events|
  {
    if events != [] {
      var next := Next(ph, events[0], m, false);
      if next.Broken? {
        BrokenStays(events[1..], m, false);
      }
      assert !events[0].SetupTaken?;
      assert OneTransfer(events[1..]) by {
        assert forall k | 0 <= k < |events[1..]| :: events[1..][k] == events[k + 1];
      }
      if ph.InDecide? {
        assert !events[0].AcceptedIn?;
        assert forall k | 0 <= k < |events[1..]| :: events[1..][k] == events[k + 1];
      }
      InTraces(next, events[1..], m);
    }
  }

  /**
   * One OUT transfer, over any run up to the next SETUP taken up: at most one packet is written, it is
   * empty, it comes only after every announced byte, and the status stage completes at most once
   * and only after that packet.
   */
  lemma OutTransfer(p: Pipe, ops: seq<Op>)
    requires Inv(p) && AllInReach(p, ops) && (p.state.DataOut? || p.state.CompleteOut?)
    requires OneTransfer(Events(p, ops))
    ensures var ev := Events(p, ops);
            && (Writes(ev) == [] || Writes(ev) == [[]])
            && (Writes(ev) != [] && p.state.DataOut? ==> p.len <= p.i + |Received(ev)|)
            && Statuses(ev) <= |Writes(ev)|
  {
    RunRefines(p, ops);
    OutTraces(PhaseOf(p), Events(p, ops), p.mps);
  }

  /** One IN transfer: nothing is written before it is accepted, nor at all once it is stalled. */
  lemma InTransfer(p: Pipe, ops: seq<Op>)
    requires Inv(p) && AllInReach(p, ops) && OneTransfer(Events(p, ops))
    requires p.state.Error?
          || (p.state.CompleteIn? && forall k | 0 <= k < |Events(p, ops)| :: !Events(p, ops)[k].AcceptedIn?)
    ensures Writes(Events(p, ops)) == [] && Statuses(Events(p, ops)) == 0
  {
    RunRefines(p, ops);
    InTraces(PhaseOf(p), Events(p, ops), p.mps);
  }

  /** An IN transfer goes back to idle only on the host's zero-length status packet, or on a reset. */
  lemma InReturnsToIdle(p: Pipe, op: Op)
    requires p.state.CompleteIn? || Live(p)
    ensures Step(p, op).pipe.state.Idle? <==> op.ResetOp? || (Live(p) && op == OutOp(Packet([])))
  {
  }
}

/** IN transfers: nothing lost or repeated, and the packets are exactly the fragmentation of the source. */
module PipeIn {
  import opened UsbTypes
  import opened Control
  import opened Bus
  import opened PipeModel

  /** The packets a stretch of a run put on EP0-IN, in order. */
  function Writes(events: seq<Event>): seq<seq<byte>> {
    if events == [] then []
    else (if events[0].Wrote? then [events[0].data] else []) + Writes(events[1..])
  }

  lemma {:induction false} WritesAppend(a: seq<Event>, b: seq<Event>)
    ensures Writes(a + b) == Writes(a) + Writes(b)
  {
    if a == [] {
      assert a + b == b;
    } else {
      var head := if a[0].Wrote? then [a[0].data] else [];
      assert (a + b)[0] == a[0] && (a + b)[1..] == a[1..] + b;
      WritesAppend(a[1..], b);
      Assoc(head, Writes(a[1..]), Writes(b));
    }
  }

  lemma WritesOfOne(e: Event)
    ensures Writes([e]) == if e.Wrote? then [e.data] else []
  {
    assert Writes([e]) == (if e.Wrote? then [e.data] else []) + Writes([]);
  }

  /**
   * The code's fragmentation: full packets while they last, then one short packet, which is empty
   * when the length is a multiple of the packet size. DataStageIff says when that is the
   * data stage of section 8.5.3.2 of USB 2.0.
   */
  function Packets(s: seq<byte>, m: nat): (r: seq<seq<byte>>)
    requires m > 0
    ensures |r| == |s| / m + 1
    decreases |s|
  {
    if |s| < m then [s] else (OneLess(|s|, m); [s[..m]] + Packets(s[m..], m))
  }

  lemma OneLess(n: nat, m: nat)
    requires 0 < m <= n
    ensures (n - m) / m + 1 == n / m
  {
    var q, r := n / m, n % m;
    assert n - m == (q - 1) * m + r;
    DivUnique(n - m, m, q - 1, r);
  }

  lemma DivUnique(n: int, m: int, q: int, r: int)
    requires 0 <= r < m && n == q * m + r
    ensures n / m == q && n % m == r
  {
    var e := n / m - q;
    assert e * m == r - n % m;
    MultipleGrows(e, m);
  }

  lemma MultipleGrows(e: int, m: int)
    requires m > 0
    ensures e >= 1 ==> e * m >= m
    ensures e <= -1 ==> e * m <= -m
  {
  }

  /** The k-th packet is the k-th slice of `m` bytes; the last is what is left over. */
  lemma {:induction false} PacketAt(s: seq<byte>, m: nat, k: nat)
    requires m > 0 && k <= |s| / m
    ensures k * m <= |s|
    ensures k < |s| / m ==> (k + 1) * m <= |s| && Packets(s, m)[k] == s[k * m..(k + 1) * m]
    ensures k == |s| / m ==> |s| - k * m == |s| % m && Packets(s, m)[k] == s[k * m..]
    decreases k
  {
    SliceBounds(|s|, m, k);
    if k > 0 {
      OneLess(|s|, m);
      PacketAt(s[m..], m, k - 1);
      assert Packets(s, m)[k] == Packets(s[m..], m)[k - 1];
      PacketLater(s, m, k, Packets(s, m)[k]);
    } else if |s| < m {
      DivUnique(|s|, m, 0, |s|);
    } else {
      OneLess(|s|, m);
    }
  }

  /** A slice of what follows the first packet is a slice of the whole. */
  lemma PacketLater(s: seq<byte>, m: nat, k: nat, packet: seq<byte>)
    requires 0 < m <= |s| && 0 < k <= |s| / m && |s[m..]| / m == |s| / m - 1
    requires (k - 1) * m <= |s[m..]|
    requires k < |s| / m ==> k * m <= |s[m..]| && packet == s[m..][(k - 1) * m..k * m]
    requires k == |s| / m ==> packet == s[m..][(k - 1) * m..]
    ensures k * m <= |s|
    ensures k < |s| / m ==> (k + 1) * m <= |s| && packet == s[k * m..(k + 1) * m]
    ensures k == |s| / m ==> packet == s[k * m..]
  {
    SliceBounds(|s|, m, k);
    PreviousMultiple(m, k);
    DropThenSlice(s, m, (k - 1) * m, k * m);
  }

  lemma SliceBounds(n: nat, m: nat, k: nat)
    requires m > 0 && k <= n / m
    ensures k * m <= n
    ensures k < n / m ==> (k + 1) * m <= n
    ensures k == n / m ==> n - k * m == n % m
    ensures k > 0 ==> m <= n
  {
    assert n == n / m * m + n % m;
    assert k * m <= n / m * m;
    if k < n / m {
      assert (k + 1) * m <= n / m * m;
    }
    if k > 0 {
      assert m <= k * m;
    }
  }

  lemma PreviousMultiple(m: nat, k: nat)
    requires k > 0
    ensures k * m == m + (k - 1) * m && (k + 1) * m == m + k * m
  {
  }

  lemma DropThenSlice(s: seq<byte>, m: nat, a: nat, b: nat)
    requires m + a <= |s|
    ensures s[m..][a..] == s[m + a..]
    ensures a <= b && m + b <= |s| ==> s[m..][a..b] == s[m + a..m + b]
  {
  }

  lemma {:induction false} PacketsFlatten(s: seq<byte>, m: nat)
    requires m > 0
    ensures Flatten(Packets(s, m)) == s
    decreases |s|
  {
    if |s| < m {
      FlattenOne(s);
    } else {
      PacketsFlatten(s[m..], m);
    }
  }

  /** The pipe is past the acceptance of an IN transfer whose bytes are `src`. */
  ghost predicate Sending(p: Pipe, src: seq<byte>) {
    && p.mps > 0
    && p.i <= |src| == p.len
    && match p.state
       case DataIn => p.len <= |p.Source()| && p.Source()[p.i..p.len] == src[p.i..]
       case DataInZlp | DataInLast | StatusOut => p.i == p.len
       case Idle | Error => true
       case _ => false
  }

  /** A packet read as SETUP that starts no transfer: it does not parse, or announces more than fits. */
  predicate Ignored(p: Pipe, d: seq<byte>) {
    Parse(d).Err? || (Parse(d).value.direction.Out? && Parse(d).value.length > |p.buf|)
  }

  /** The packet overwrites nothing that is still to be sent, or puts the same bytes there. */
  predicate Harmless(p: Pipe, d: seq<byte>, src: seq<byte>)
    requires p.i <= |src|
  {
    p.staticBuf.Some? || |d| <= p.i || d[p.i..Min(|d|, |src|)] == src[p.i..Min(|d|, |src|)]
  }

  /** The operation leaves what is still to be sent alone. */
  predicate Calm(p: Pipe, op: Op, src: seq<byte>)
    requires p.i <= |src|
  {
    ReadsSetup(p, op) ==>
      Ignored(p, op.offer.data) && (p.state.DataIn? ==> Harmless(p, op.offer.data, src))
  }

  ghost predicate AllCalm(p: Pipe, ops: seq<Op>, src: seq<byte>)
    decreases |ops|
  {
    ops == [] || (p.i <= |src| && Calm(p, ops[0], src) && AllCalm(Step(p, ops[0]).pipe, ops[1..], src))
  }

  /** A run with no SETUP packet at all is calm. */
  lemma {:induction false} NoSetupCalm(p: Pipe, ops: seq<Op>, src: seq<byte>)
    requires Sending(p, src) && NoSetup(p, ops)
    ensures AllCalm(p, ops, src)
    decreases |ops|
  {
    if ops != [] {
      assert !ReadsSetup(p, ops[0]);
      SendStep(p, ops[0], src);
      NoSetupTail(p, ops);
      NoSetupCalm(Step(p, ops[0]).pipe, ops[1..], src);
    }
  }

  lemma IgnoredStep(p: Pipe, d: seq<byte>)
    requires |d| <= |p.buf| && Ignored(p, d)
    ensures var t := Step(p, SetupOp(Packet(d)));
            t.pipe == p.(buf := Overlay(p.buf, d)) && Writes(t.events) == []
  {
    hide Parse;
    NoWrites(Step(p, SetupOp(Packet(d))).events);
  }

  /** What an ignored SETUP packet does to a transfer in progress: the bytes still to be sent change. */
  lemma IgnoredSetup(p: Pipe, d: seq<byte>, src: seq<byte>)
    requires Sending(p, src) && p.state.DataIn? && |d| <= |p.buf| && Ignored(p, d)
    ensures var t := Step(p, SetupOp(Packet(d)));
            var now := src[..p.i] + t.pipe.Source()[p.i..p.len];
            && t.pipe == p.(buf := Overlay(p.buf, d))
            && Writes(t.events) == []
            && Sending(t.pipe, now)
            && (now == src <==> Harmless(p, d, src))
  {
    IgnoredStep(p, d);
    hide Step, Ignored;
    var t := Step(p, SetupOp(Packet(d)));
    var s := t.pipe.Source();
    var now := src[..p.i] + s[p.i..p.len];
    assert now[p.i..] == s[p.i..p.len];
    if p.staticBuf.None? {
      OverlayAgrees(p.buf, d, src, p.i);
    } else {
      assert now == src[..p.i] + src[p.i..];
    }
    assert now == src <==> s[p.i..p.len] == src[p.i..] by {
      assert src == src[..p.i] + src[p.i..];
      assert now == src ==> now[p.i..] == src[p.i..];
    }
  }

  lemma OverlayAgrees(buf: seq<byte>, d: seq<byte>, src: seq<byte>, i: nat)
    requires i <= |src| <= |buf| && |d| <= |buf| && buf[i..|src|] == src[i..]
    ensures Overlay(buf, d)[i..|src|] == src[i..]
            <==> |d| <= i || d[i..Min(|d|, |src|)] == src[i..Min(|d|, |src|)]
  {
    var o := Overlay(buf, d);
    if |d| <= i {
      assert o[i..|src|] == buf[i..|src|];
    } else {
      var end := Min(|d|, |src|);
      OverlaySlice(buf, d, i, |src|);
      assert src[i..] == src[i..end] + src[end..];
      assert buf[end..|src|] == src[end..] by {
        assert buf[end..|src|] == buf[i..|src|][end - i..] && src[end..] == src[i..][end - i..];
      }
      SameHead(d[i..end], src[i..end], src[end..]);
    }
  }

  lemma OverlaySlice(buf: seq<byte>, d: seq<byte>, i: nat, n: nat)
    requires i < |d| <= |buf| && i <= n <= |buf|
    ensures Overlay(buf, d)[i..n] == d[i..Min(|d|, n)] + buf[Min(|d|, n)..n]
  {
    var o := Overlay(buf, d);
    if n <= |d| {
      assert o[i..n] == d[i..n];
    } else {
      assert o[i..n] == o[i..|d|] + o[|d|..n];
      assert o[i..|d|] == d[i..] && o[|d|..n] == buf[|d|..n];
    }
  }

  lemma SameHead(a: seq<byte>, b: seq<byte>, rest: seq<byte>)
    requires |a| == |b|
    ensures a + rest == b + rest <==> a == b
  {
    if a + rest == b + rest {
      assert a == (a + rest)[..|a|] && b == (b + rest)[..|b|];
    }
  }

  lemma NoWrites(events: seq<Event>)
    requires |events| <= 2 && forall k | 0 <= k < |events| :: !events[k].Wrote?
    ensures Writes(events) == []
  {
    if |events| == 2 {
      assert events[1..][1..] == [];
    }
  }

  /** What the callback of an `accept_in` wrote, as far as the host asked for it. */
  function Meant(p: Pipe, op: Op): seq<byte>
    requires p.state.CompleteIn? && op.AcceptInOp? && op.filler.count.Ok? && op.filler.count.value <= |p.buf|
  {
    Overlay(p.buf, op.filler.data)[..Min(op.filler.count.value, p.state.req.length)]
  }

  /**
   * The operation accepts the IN transfer the pipe is asking about, and these are the bytes it will
   * send: those of the static buffer it is given, or of one left over, or what its callback wrote.
   */
  ghost predicate Accepts(p: Pipe, op: Op, src: seq<byte>) {
    && p.mps > 0
    && p.state.CompleteIn?
    && (|| (op.AcceptStaticOp? && src == op.data[..Min(|op.data|, p.state.req.length)])
        || (&& op.AcceptInOp?
            && !op.filler.panics
            && op.filler.count.Ok?
            && op.filler.count.value <= |p.buf|
            && if p.staticBuf.None? then src == Meant(p, op)
               else |Meant(p, op)| <= |p.staticBuf.value| && src == p.staticBuf.value[..|Meant(p, op)|]))
  }

  /** One step sends the next bytes of the source, in order, and no others. */
  lemma SendStep(p: Pipe, op: Op, src: seq<byte>)
    requires Sending(p, src) && Calm(p, op, src)
    ensures var t := Step(p, op);
            && Sending(t.pipe, src)
            && p.i <= t.pipe.i
            && Flatten(Writes(t.events)) == src[p.i..t.pipe.i]
  {
    if p.state.DataIn? && op.InDoneOp? {
      assert Step(p, op) == WriteInChunk(p, op.take);
      hide Step, WriteInChunk;
      SendChunk(p, op.take, src);
    } else {
      hide Step;
      SendNothing(p, op, src);
    }
  }

  /** Any step but a chunk sends no byte of the source. */
  lemma SendNothing(p: Pipe, op: Op, src: seq<byte>)
    requires Sending(p, src) && Calm(p, op, src) && !(p.state.DataIn? && op.InDoneOp?)
    ensures var t := Step(p, op);
            Sending(t.pipe, src) && t.pipe.i == p.i && Flatten(Writes(t.events)) == []
  {
    FlattenOne<byte>([]);
    if ReadsSetup(p, op) {
      hide Step, Parse;
      IgnoredStep(p, op.offer.data);
      if p.state.DataIn? { IgnoredSetup(p, op.offer.data, src); }
    } else {
      hide Parse, WriteInChunk;
      OneEvent(p, op);
      hide Writes, Flatten;
    }
  }

  lemma SendChunk(p: Pipe, t: Take, src: seq<byte>)
    requires Sending(p, src) && p.state.DataIn?
    ensures var turn := WriteInChunk(p, t);
            && Sending(turn.pipe, src)
            && p.i <= turn.pipe.i
            && Flatten(Writes(turn.events)) == src[p.i..turn.pipe.i]
  {
    var turn := WriteInChunk(p, t);
    if turn.events != [] {
      WritesOfOne(turn.events[0]);
      FlattenOne(turn.events[0].data);
      SliceTwice(p.Source(), src, p.i, turn.pipe.i);
    }
  }

  lemma SliceTwice(s: seq<byte>, src: seq<byte>, i: nat, j: nat)
    requires i <= j <= |src| <= |s| && s[i..|src|] == src[i..]
    ensures s[i..j] == src[i..j] && s[j..|src|] == src[j..]
  {
    assert s[i..j] == s[i..|src|][..j - i];
    assert s[j..|src|] == s[i..|src|][j - i..];
    assert src[i..j] == src[i..][..j - i];
    assert src[j..] == src[i..][j - i..];
  }

  /** Outside SETUP and acceptance a step has at most two events, and a packet written is its only one. */
  lemma FewEvents(p: Pipe, op: Op)
    requires !ReadsSetup(p, op) && !p.state.CompleteIn?
    ensures var ev := Step(p, op).events;
            |ev| <= 2 && (|ev| == 2 ==> !ev[0].Wrote? && !ev[1].Wrote?)
  {
    hide Parse, Overlay;
    match op
    case OutOp(o) => hide WriteInChunk;
    case InDoneOp(t) => assert |WriteInChunk(p, t).events| <= 1; hide WriteInChunk;
    case _ => hide WriteInChunk, HandleOut, HandleInComplete;
  }

  lemma OneEvent(p: Pipe, op: Op)
    requires !ReadsSetup(p, op) && !p.state.CompleteIn?
    ensures var ev := Step(p, op).events;
            Writes(ev) == if ev != [] && ev[0].Wrote? then [ev[0].data] else []
  {
    FewEvents(p, op);
    hide Step, ReadsSetup;
    var ev := Step(p, op).events;
    if |ev| == 1 {
      WritesOfOne(ev[0]);
    } else if |ev| == 2 {
      NoWrites(ev);
    }
  }

  lemma StepKeepsBufferSize(p: Pipe, op: Op)
    ensures |Step(p, op).pipe.buf| == |p.buf| && Step(p, op).pipe.mps == p.mps
  {
  }

  lemma {:induction false} RunKeepsSize(p: Pipe, ops: seq<Op>)
    ensures |Run(p, ops).buf| == |p.buf| && Run(p, ops).mps == p.mps
    decreases |ops|
  {
    if ops != [] {
      StepKeepsBufferSize(p, ops[0]);
      RunKeepsSize(Step(p, ops[0]).pipe, ops[1..]);
    }
  }

  lemma NoSetupTail(p: Pipe, ops: seq<Op>)
    requires ops != [] && NoSetup(p, ops)
    ensures NoSetup(Step(p, ops[0]).pipe, ops[1..])
  {
    StepKeepsBufferSize(p, ops[0]);
    forall k | 0 <= k < |ops[1..]| ensures !ReadsSetup(Step(p, ops[0]).pipe, ops[1..][k]) {
      assert !ReadsSetup(p, ops[k + 1]);
    }
  }

  /** From `p` to `q` the next bytes of the source have gone out, and `sent` is what they are. */
  ghost predicate Sent(p: Pipe, q: Pipe, sent: seq<byte>, src: seq<byte>) {
    Sending(p, src) && Sending(q, src) && p.i <= q.i && sent == src[p.i..q.i]
  }

  lemma SentTwice(p: Pipe, q: Pipe, a: seq<byte>, r: Pipe, b: seq<byte>, src: seq<byte>)
    requires Sent(p, q, a, src) && Sent(q, r, b, src)
    ensures Sent(p, r, a + b, src)
  {
    assert src[p.i..r.i] == src[p.i..q.i] + src[q.i..r.i];
  }

  lemma {:induction false} SendRun(p: Pipe, ops: seq<Op>, src: seq<byte>)
    requires Sending(p, src) && AllCalm(p, ops, src)
    ensures Sent(p, Run(p, ops), Flatten(Writes(Events(p, ops))), src)
    decreases |ops|
  {
    if ops == [] {
      assert src[p.i..p.i] == [];
    } else {
      var t := Step(p, ops[0]);
      var q := t.pipe;
      assert Sent(p, q, Flatten(Writes(t.events)), src) by {
        SendStep(p, ops[0], src);
      }
      SendRun(q, ops[1..], src);
      JoinWrites(p, ops);
      FlattenAppend(Writes(t.events), Writes(Events(q, ops[1..])));
      hide Step, Sent;
      SentTwice(p, q, Flatten(Writes(t.events)), Run(p, ops), Flatten(Writes(Events(q, ops[1..]))), src);
    }
  }

  /** The acceptance is a transfer start. */
  lemma AcceptIsStart(p: Pipe, op: Op, src: seq<byte>) returns (base: Pipe, whole: seq<byte>, held: Option<seq<byte>>)
    requires Accepts(p, op, src)
    ensures |src| == Min(|whole|, p.state.req.length)
    ensures base.mps == p.mps && |base.buf| == |p.buf| && base.state == p.state
    ensures |src| <= |base.Source()| && base.Source()[..|src|] == src
    ensures Step(p, op) == StartInTransfer(base, p.state.req, whole, held, op.take)
  {
    hide WriteInChunk;
    if op.AcceptInOp? {
      base, held := p.(buf := Overlay(p.buf, op.filler.data)), None;
      whole := base.buf[..op.filler.count.value];
    } else {
      base, whole, held := p.(staticBuf := Some(op.data)), op.data, Some(op.data);
    }
    assert |src| == Min(|whole|, p.state.req.length);
  }

  /** The acceptance is a transfer start followed by the same chunk writer that retries it. */
  lemma AcceptIsChunk(p: Pipe, op: Op, src: seq<byte>) returns (q: Pipe)
    requires Accepts(p, op, src)
    ensures Sending(q, src) && q.state.DataIn? && q.i == 0 && q.mps == p.mps && |q.buf| == |p.buf|
    ensures var t := Step(q, InDoneOp(op.take));
            var ev := Step(p, op).events;
            && Step(p, op).pipe == t.pipe && Writes(ev) == Writes(t.events)
            && ev != [] && ev[0].AcceptedIn? && ev[1..] == t.events
  {
    var base, whole, held := AcceptIsStart(p, op, src);
    q := base.(len := |src|, i := 0, state := DataIn);
    assert Sending(q, src) by { assert src[0..] == src; }
    var t := WriteInChunk(q, op.take);
    assert Step(q, InDoneOp(op.take)) == t;
    assert !t.reply.Panicked?;
    hide Step, WriteInChunk, Accepts;
    var accepted := AcceptedIn(whole[..|src|], held);
    WritesAppend([accepted], t.events);
    WritesOfOne(accepted);
    assert [] + Writes(t.events) == Writes(t.events);
  }

  lemma AcceptedSending(p: Pipe, op: Op, src: seq<byte>)
    requires Accepts(p, op, src)
    ensures Sending(Step(p, op).pipe, src)
  {
    hide Step;
    var q := AcceptIsChunk(p, op, src);
    SendStep(q, InDoneOp(op.take), src);
  }

  /**
   * Lossless retry. Whatever mix of refused, short and full writes the driver makes, starting
   * with the one inside the acceptance, and whatever other operations come between, SETUP packets
   * that leave the transfer and its bytes alone included, the bytes on the wire are the source up
   * to the cursor.
   */
  lemma LosslessIn(p: Pipe, accept: Op, src: seq<byte>, ops: seq<Op>)
    requires Accepts(p, accept, src) && AllCalm(Step(p, accept).pipe, ops, src)
    ensures var run := [accept] + ops;
            && Run(p, run).i <= |src|
            && Flatten(Writes(Events(p, run))) == src[..Run(p, run).i]
            && (Run(p, run).state.DataInLast? || Run(p, run).state.StatusOut? ==> Run(p, run).i == |src|)
  {
    hide Step, Run, Events, Writes, Flatten, AllCalm;
    var q := AcceptIsChunk(p, accept, src);
    var first := InDoneOp(accept.take);
    hide Accepts;
    CalmChunk(q, first, ops, src);
    SendRun(q, [first] + ops, src);
    SameRun(p, accept, q, first, ops);
  }

  lemma CalmChunk(q: Pipe, first: Op, ops: seq<Op>, src: seq<byte>)
    requires Sending(q, src) && first.InDoneOp? && AllCalm(Step(q, first).pipe, ops, src)
    ensures AllCalm(q, [first] + ops, src)
  {
    assert ([first] + ops)[1..] == ops;
  }

  /**
   * When an ignored SETUP packet in mid-transfer does no harm. In a run that goes on to send the
   * whole data stage, the bytes after it come out right exactly when they are static, or already
   * past the bytes it overwrites, or the same bytes.
   */
  lemma IgnoredSetupIff(p: Pipe, d: seq<byte>, src: seq<byte>, ops: seq<Op>)
    requires Sending(p, src) && p.state.DataIn? && |d| <= |p.buf| && Ignored(p, d)
    requires var q := Step(p, SetupOp(Packet(d))).pipe; NoSetup(q, ops) && Run(q, ops).i == |src|
    ensures Flatten(Writes(Events(p, [SetupOp(Packet(d))] + ops))) == src[p.i..] <==> Harmless(p, d, src)
  {
    var op := SetupOp(Packet(d));
    var t := Step(p, op);
    var now := src[..p.i] + t.pipe.Source()[p.i..p.len];
    IgnoredSetup(p, d, src);
    hide Step, Run, Writes, Events, Sending, AllCalm, Harmless, NoSetup, Parse, Flatten, Ignored;
    SendsRest(p, op, t, now, ops);
    assert now == src <==> now[p.i..] == src[p.i..] by {
      assert src == src[..p.i] + src[p.i..] && now == src[..p.i] + now[p.i..];
    }
  }

  /** After a step that writes nothing, a run that sends the whole source sends it from the cursor on. */
  lemma SendsRest(p: Pipe, op: Op, t: Turn, now: seq<byte>, ops: seq<Op>)
    requires t == Step(p, op) && Writes(t.events) == [] && Sending(t.pipe, now) && t.pipe.i == p.i
    requires NoSetup(t.pipe, ops) && Run(t.pipe, ops).i == |now|
    ensures Flatten(Writes(Events(p, [op] + ops))) == now[p.i..]
  {
    hide Step;
    NoSetupCalm(t.pipe, ops, now);
    SendRun(t.pipe, ops, now);
    assert ([op] + ops)[1..] == ops;
    JoinWrites(p, [op] + ops);
    assert [] + Writes(Events(t.pipe, ops)) == Writes(Events(t.pipe, ops));
    assert now[p.i..|now|] == now[p.i..];
  }

  lemma SameRun(p: Pipe, a: Op, q: Pipe, b: Op, ops: seq<Op>)
    requires Step(p, a).pipe == Step(q, b).pipe && Writes(Step(p, a).events) == Writes(Step(q, b).events)
    ensures Run(p, [a] + ops) == Run(q, [b] + ops)
    ensures Writes(Events(p, [a] + ops)) == Writes(Events(q, [b] + ops))
  {
    assert ([a] + ops)[1..] == ops && ([b] + ops)[1..] == ops;
    WritesAppend(Step(p, a).events, Events(Step(p, a).pipe, ops));
    WritesAppend(Step(q, b).events, Events(Step(q, b).pipe, ops));
  }

  /** The packets still to be sent. */
  function Rest(p: Pipe, src: seq<byte>): seq<seq<byte>>
    requires p.mps > 0 && p.i <= |src|
  {
    match p.state
    case DataIn => Packets(src[p.i..], p.mps)
    case DataInZlp => [[]]
    case _ => []
  }

  /** The IN transfer has not been cut short by the host, by an error or by a reset. */
  predicate Live(p: Pipe) {
    p.state.DataIn? || p.state.DataInZlp? || p.state.DataInLast? || p.state.StatusOut?
  }

  /** A driver that takes whole packets or refuses. */
  predicate WholePackets(op: Op, m: nat) {
    op.InDoneOp? && op.take.Takes? ==> m <= op.take.limit
  }

  /** One successful chunk is the next of the packets left. */
  lemma ChunkFragment(p: Pipe, t: Take, src: seq<byte>)
    requires Sending(p, src) && p.state.DataIn? && (t.Takes? ==> p.mps <= t.limit)
    ensures var turn := WriteInChunk(p, t);
            && turn.pipe.i <= |src| && turn.pipe.mps == p.mps
            && (turn.events == [] ==> turn.pipe == p)
            && (turn.events != [] ==>
                  && turn.events == [Wrote(Packets(src[p.i..], p.mps)[0])]
                  && Rest(turn.pipe, src) == Packets(src[p.i..], p.mps)[1..])
  {
    var turn := WriteInChunk(p, t);
    var left := src[p.i..];
    if t.Takes? {
      var n := turn.pipe.i - p.i;
      assert n == Min(|left|, p.mps);
      SliceTwice(p.Source(), src, p.i, p.i + n);
      assert src[p.i..p.i + n] == left[..n];
      if |left| > p.mps {
        assert left[p.mps..] == src[turn.pipe.i..];
      } else if |left| == p.mps {
        assert left[p.mps..] == [];
        assert Packets([], p.mps) == [[]];
      } else {
        assert left[..n] == left;
      }
    }
  }

  /** Every other operation writes nothing but the empty packet that is due. */
  lemma OtherFragment(p: Pipe, op: Op, src: seq<byte>)
    requires Sending(p, src) && !ReadsSetup(p, op) && !(p.state.DataIn? && op.InDoneOp?)
    ensures var t := Step(p, op);
            && (Live(t.pipe) ==> Live(p))
            && if t.events != [] && t.events[0].Wrote?
               then p.state.DataInZlp? && t.pipe.state.DataInLast? && t.events[0].data == []
               else t.pipe == p || (p.state.DataInLast? && t.pipe.state.StatusOut?) || !Live(t.pipe)
  {
    hide WriteInChunk, Parse;
  }

  lemma FragmentStep(p: Pipe, op: Op, src: seq<byte>)
    requires Sending(p, src) && Calm(p, op, src) && WholePackets(op, p.mps)
    ensures var t := Step(p, op);
            && Sending(t.pipe, src)
            && (Live(t.pipe) ==> Live(p))
            && if Live(t.pipe) then Writes(t.events) + Rest(t.pipe, src) == Rest(p, src) else Writes(t.events) == []
  {
    SendStep(p, op, src);
    if ReadsSetup(p, op) {
      IgnoredStep(p, op.offer.data);
      hide Step, Packets, Sending;
    } else if p.state.DataIn? && op.InDoneOp? {
      OneEvent(p, op);
      ChunkFragment(p, op.take, src);
      assert Step(p, op) == WriteInChunk(p, op.take);
      hide Step, WriteInChunk, Packets, Sending;
    } else {
      OneEvent(p, op);
      OtherFragment(p, op, src);
      hide Step, Packets, Sending;
    }
  }

  ghost predicate AllWhole(ops: seq<Op>, m: nat) {
    forall k | 0 <= k < |ops| :: WholePackets(ops[k], m)
  }

  /** From `p` to `q` the pipe has written `sent`, the next of the packets it had left. */
  ghost predicate Advanced(p: Pipe, sent: seq<seq<byte>>, q: Pipe, src: seq<byte>) {
    && Sending(p, src)
    && Sending(q, src)
    && q.mps == p.mps
    && (Live(q) ==> Live(p) && sent + Rest(q, src) == Rest(p, src))
    && (Live(p) ==> sent <= Rest(p, src))
    && (!Live(p) ==> sent == [])
  }

  lemma AdvanceTwice(p: Pipe, a: seq<seq<byte>>, q: Pipe, b: seq<seq<byte>>, r: Pipe, src: seq<byte>)
    requires Advanced(p, a, q, src) && Advanced(q, b, r, src)
    ensures Advanced(p, a + b, r, src)
  {
  }

  lemma {:induction false} FragmentRun(p: Pipe, ops: seq<Op>, src: seq<byte>)
    requires Sending(p, src) && AllCalm(p, ops, src) && AllWhole(ops, p.mps)
    ensures Advanced(p, Writes(Events(p, ops)), Run(p, ops), src)
    decreases |ops|
  {
    if ops != [] {
      var t := Step(p, ops[0]);
      var q := t.pipe;
      assert Advanced(p, Writes(t.events), q, src) by {
        assert WholePackets(ops[0], p.mps);
        FragmentStep(p, ops[0], src);
        StepKeepsBufferSize(p, ops[0]);
      }
      FragmentRun(q, ops[1..], src);
      AdvanceTwice(p, Writes(t.events), q, Writes(Events(q, ops[1..])), Run(p, ops), src);
      JoinWrites(p, ops);
    } else if Live(p) {
      assert [] + Rest(p, src) == Rest(p, src);
    }
  }

  lemma JoinWrites(p: Pipe, ops: seq<Op>)
    requires ops != []
    ensures var t := Step(p, ops[0]);
            Writes(Events(p, ops)) == Writes(t.events) + Writes(Events(t.pipe, ops[1..]))
  {
    var t := Step(p, ops[0]);
    WritesAppend(t.events, Events(t.pipe, ops[1..]));
  }

  /** The data stage of a transfer that has just started, as packets. */
  ghost predicate Fragments(q: Pipe, sent: seq<seq<byte>>, src: seq<byte>, m: nat)
    requires m > 0
  {
    && sent <= Packets(src, m)
    && (Live(q) ==> (|sent| == |src| / m + 1 <==> q.state.DataInLast? || q.state.StatusOut?))
    && (|sent| == |src| / m + 1 ==> sent == Packets(src, m) && Flatten(sent) == src)
  }

  lemma FragmentWhole(p: Pipe, ops: seq<Op>, src: seq<byte>)
    requires Sending(p, src) && p.state.DataIn? && p.i == 0 && AllCalm(p, ops, src) && AllWhole(ops, p.mps)
    ensures Fragments(Run(p, ops), Writes(Events(p, ops)), src, p.mps)
  {
    FragmentRun(p, ops, src);
    assert src[0..] == src;
    PacketsFlatten(src, p.mps);
    var q := Run(p, ops);
    PrefixEnd(Writes(Events(p, ops)), Rest(q, src), Packets(src, p.mps));
    assert Rest(q, src) == [] <==> !q.state.DataIn? && !q.state.DataInZlp?;
  }

  /**
   * The fragmentation theorem. With a driver that takes whole packets or refuses, the packets
   * written are, at every moment, an initial stretch of `Packets(src)`; unless the host or an
   * error cut the transfer short, the pipe has left the data stage exactly when all
   * floor(n/m) + 1 of them are out.
   */
  lemma InFragmentation(p: Pipe, accept: Op, src: seq<byte>, ops: seq<Op>)
    requires Accepts(p, accept, src) && AllCalm(Step(p, accept).pipe, ops, src) && AllWhole(ops, p.mps)
    requires accept.take.Takes? ==> p.mps <= accept.take.limit
    ensures Fragments(Run(p, [accept] + ops), Writes(Events(p, [accept] + ops)), src, p.mps)
  {
    var q := AcceptIsChunk(p, accept, src);
    var first := InDoneOp(accept.take);
    CalmChunk(q, first, ops, src);
    assert AllWhole([first] + ops, p.mps) by {
      assert forall k | 0 < k < |[first] + ops| :: ([first] + ops)[k] == ops[k - 1];
    }
    FragmentWhole(q, [first] + ops, src);
    SameRun(p, accept, q, first, ops);
  }

  /**
   * Where section 8.5.3.2 of USB 2.0 ends a data stage of wLength bytes: at a packet shorter than
   * the packet size, or once wLength bytes have gone.
   */
  predicate StageOver(sent: seq<seq<byte>>, m: nat, wLength: nat) {
    |Flatten(sent)| >= wLength || (sent != [] && |sent[|sent| - 1]| < m)
  }

  /** No packet is sent after the stage is over. */
  ghost predicate WithinStage(sent: seq<seq<byte>>, m: nat, wLength: nat) {
    forall k | 0 <= k < |sent| :: !StageOver(sent[..k], m, wLength)
  }

  lemma FirstPackets(src: seq<byte>, m: nat, k: nat)
    requires m > 0 && k <= |src| / m
    ensures k * m <= |src| && Flatten(Packets(src, m)[..k]) == src[..k * m]
    ensures k > 0 ==> |Packets(src, m)[k - 1]| == m
  {
    SliceBounds(|src|, m, k);
    FlattenFirst(src, m, k);
    if k > 0 {
      PacketAt(src, m, k - 1);
      PreviousMultiple(m, k);
    }
  }

  lemma {:induction false} FlattenFirst(src: seq<byte>, m: nat, k: nat)
    requires m > 0 && k <= |src| / m && k * m <= |src|
    ensures Flatten(Packets(src, m)[..k]) == src[..k * m]
    decreases k
  {
    if k > 0 {
      PacketAt(src, m, k - 1);
      PreviousMultiple(m, k);
      FlattenFirst(src, m, k - 1);
      var a, b := Packets(src, m)[..k - 1], [Packets(src, m)[k - 1]];
      assert Packets(src, m)[..k] == a + b;
      FlattenAppend(a, b);
      FlattenOne(Packets(src, m)[k - 1]);
      assert src[..k * m] == src[..(k - 1) * m] + src[(k - 1) * m..k * m];
    }
  }

  /** The code's fragmentation keeps within the stage exactly when the answer is short of wLength or of a packet. */
  lemma FragmentationIff(src: seq<byte>, m: nat, wLength: nat)
    requires m > 0 && |src| <= wLength
    ensures WithinStage(Packets(src, m), m, wLength) <==> |src| < wLength || |src| % m != 0
  {
    var all := Packets(src, m);
    forall k | 0 <= k < |all| ensures StageOver(all[..k], m, wLength) <==> k * m == wLength {
      FirstPackets(src, m, k);
      if k > 0 { assert all[..k][k - 1] == all[k - 1]; }
    }
    var last := |src| / m;
    SliceBounds(|src|, m, last);
    if |src| == wLength && |src| % m == 0 {
      assert StageOver(all[..last], m, wLength);
    } else {
      forall k | 0 <= k < |all| ensures k * m != wLength {
        SliceBounds(|src|, m, k);
        if k * m == wLength {
          DivUnique(|src|, m, k, 0);
        }
      }
    }
  }

  /**
   * When the data stage is the standard's. With a driver that takes whole packets or refuses, a
   * transfer that sends its whole data stage sends nothing after the standard says the stage is
   * over, exactly when the answer is shorter than wLength or not a multiple of the packet size.
   * In that case nothing out of stage is sent at any moment before either.
   */
  lemma DataStageIff(p: Pipe, accept: Op, src: seq<byte>, ops: seq<Op>)
    requires Accepts(p, accept, src) && AllCalm(Step(p, accept).pipe, ops, src) && AllWhole(ops, p.mps)
    requires accept.take.Takes? ==> p.mps <= accept.take.limit
    ensures var q := Run(p, [accept] + ops);
            var sent := Writes(Events(p, [accept] + ops));
            var wLength := p.state.req.length;
            && (|src| < wLength || |src| % p.mps != 0 ==> WithinStage(sent, p.mps, wLength))
            && (q.state.DataInLast? || q.state.StatusOut? ==>
                  (WithinStage(sent, p.mps, wLength) <==> |src| < wLength || |src| % p.mps != 0))
  {
    assert |src| <= p.state.req.length && p.mps > 0 by { hide Step, AllCalm; }
    hide *;
    InFragmentation(p, accept, src, ops);
    var q, sent := Run(p, [accept] + ops), Writes(Events(p, [accept] + ops));
    FragmentsWithin(q, sent, src, p.mps, p.state.req.length);
  }

  lemma FragmentsWithin(q: Pipe, sent: seq<seq<byte>>, src: seq<byte>, m: nat, wLength: nat)
    requires m > 0 && |src| <= wLength && Fragments(q, sent, src, m)
    ensures |src| < wLength || |src| % m != 0 ==> WithinStage(sent, m, wLength)
    ensures q.state.DataInLast? || q.state.StatusOut? ==>
              (WithinStage(sent, m, wLength) <==> |src| < wLength || |src| % m != 0)
  {
    hide StageOver, Flatten;
    FragmentationIff(src, m, wLength);
    var all := Packets(src, m);
    if WithinStage(all, m, wLength) {
      forall k | 0 <= k < |sent| ensures !StageOver(sent[..k], m, wLength) {
        assert sent[..k] == all[..k];
      }
    }
  }

  /** An answer of exactly wLength bytes in one full packet is followed by an empty packet out of stage. */
  lemma ExactAnswerOverruns(p: Pipe, accept: Op, src: seq<byte>)
    requires Accepts(p, accept, src) && |src| == p.state.req.length == p.mps
    requires accept.take.Takes? && p.mps <= accept.take.limit
    ensures var sent := Writes(Events(p, [accept, InDoneOp(Takes(0))]));
            sent == [src, []] && !WithinStage(sent, p.mps, p.state.req.length)
  {
    hide Step, Writes, Flatten;
    var q := AcceptIsChunk(p, accept, src);
    var first, second := InDoneOp(accept.take), InDoneOp(Takes(0));
    FullChunk(q, accept.take, src);
    SameRun(p, accept, q, first, [second]);
    assert [accept] + [second] == [accept, second] && [first] + [second] == [first, second];
    TwoSteps(q, first, second);
    hide Events, Sending, Accepts;
    WritesAppend([Wrote(src)], [Wrote([])]);
    WritesOfOne(Wrote(src));
    WritesOfOne(Wrote([]));
    FlattenOne(src);
    assert [src, []][..1] == [src];
    assert StageOver([src, []][..1], p.mps, |src|);
  }

  lemma FullChunk(q: Pipe, t: Take, src: seq<byte>)
    requires Sending(q, src) && q.state.DataIn? && q.i == 0 && |src| == q.mps && t.Takes? && q.mps <= t.limit
    ensures var turn := Step(q, InDoneOp(t));
            turn.events == [Wrote(src)] && Step(turn.pipe, InDoneOp(Takes(0))).events == [Wrote([])]
  {
    assert q.Source()[0..q.len] == src by { assert src[0..] == src; }
    assert WriteInChunk(q, t).events == [Wrote(src)];
  }

  /** With a driver that takes whole packets, a data stage of n bytes ends after floor(n/m) + 1 completions. */
  lemma {:induction false} StageEnds(p: Pipe, src: seq<byte>, k: nat)
    requires Sending(p, src) && p.state.DataIn? && (|src| - p.i) / p.mps == k
    ensures Run(p, FullWrites(k + 1, p.mps)).state.DataInLast?
    decreases k
  {
    var m, left := p.mps, |src| - p.i;
    var op := InDoneOp(Takes(m));
    assert m > 0 && left >= 0 && Calm(p, op, src);
    hide *;
    var q := Step(p, op).pipe;
    SendStep(p, op, src);
    WholeChunk(p, m, src);
    FirstWriteOf(p, k);
    QuotientCases(left, m, k);
    if left < m {
      NoWritesLeft(q);
    } else if left == m {
      FirstWriteOf(q, 0);
      StepKeepsBufferSize(q, op);
      NoWritesLeft(Step(q, op).pipe);
    } else {
      assert |src| - q.i == left - m && q.mps == m;
      StageEnds(q, src, k - 1);
    }
  }

  lemma QuotientCases(n: nat, m: nat, k: nat)
    requires m > 0 && n / m == k
    ensures n < m ==> k == 0
    ensures n == m ==> k == 1
    ensures n > m ==> k > 0 && (n - m) / m == k - 1
  {
    if n < m {
      DivUnique(n, m, 0, n);
    } else {
      OneLess(n, m);
      if n == m { DivUnique(n, m, 1, 0); }
    }
  }

  lemma NoWritesLeft(p: Pipe)
    ensures Run(p, FullWrites(0, p.mps)) == p
  {
  }

  lemma FirstWriteOf(p: Pipe, n: nat)
    ensures Run(p, FullWrites(n + 1, p.mps)) == Run(Step(p, InDoneOp(Takes(p.mps))).pipe, FullWrites(n, p.mps))
  {
    hide Step;
    assert FullWrites(n + 1, p.mps)[1..] == FullWrites(n, p.mps);
  }

  /** Where a chunk that the driver takes whole leaves the pipe. */
  lemma WholeChunk(p: Pipe, m: nat, src: seq<byte>)
    requires Sending(p, src) && p.state.DataIn? && m == p.mps
    ensures var left := |src| - p.i;
            var q := Step(p, InDoneOp(Takes(m))).pipe;
            && q.mps == m
            && (left < m ==> q.state.DataInLast?)
            && (left == m ==> q.state.DataInZlp? && Step(q, InDoneOp(Takes(m))).pipe.state.DataInLast?)
            && (left > m ==> q.state.DataIn? && q.i == p.i + m)
  {
  }

  /** The same from the acceptance on. */
  lemma AnswerEnds(p: Pipe, accept: Op, src: seq<byte>)
    requires Accepts(p, accept, src) && accept.take == Takes(p.mps)
    ensures Run(p, [accept] + FullWrites(|src| / p.mps, p.mps)).state.DataInLast?
  {
    hide Step, FullWrites, Run;
    var q := AcceptIsChunk(p, accept, src);
    hide Accepts, Sending;
    var k := |src| / p.mps;
    StageEnds(q, src, k);
    FirstWriteOf(q, k);
    SameRun(p, accept, q, InDoneOp(Takes(p.mps)), FullWrites(k, p.mps));
    OneMoreStep(q, InDoneOp(Takes(p.mps)), FullWrites(k, p.mps));
  }

  lemma OneMoreStep(p: Pipe, op: Op, ops: seq<Op>)
    ensures Run(p, [op] + ops) == Run(Step(p, op).pipe, ops)
  {
    hide Step;
    assert ([op] + ops)[1..] == ops;
  }

  lemma PrefixEnd<T>(a: seq<T>, rest: seq<T>, whole: seq<T>)
    requires a <= whole
    ensures |a| == |whole| ==> a == whole
    ensures a + rest == whole ==> (|a| == |whole| <==> rest == [])
  {
  }

  /**
   * When an answer of `accept_in` comes out right. In a run that sends all of it, the host gets what
   * the callback wrote exactly when no static buffer is left over, or one that begins the same.
   */
  lemma AnswerRightIff(p: Pipe, answer: Op, src: seq<byte>, ops: seq<Op>)
    requires answer.AcceptInOp? && Accepts(p, answer, src) && AllCalm(Step(p, answer).pipe, ops, src)
    requires Run(p, [answer] + ops).i == |src|
    ensures Flatten(Writes(Events(p, [answer] + ops))) == Meant(p, answer)
            <==> p.staticBuf.None? || Meant(p, answer) <= p.staticBuf.value
  {
    hide Step, Run, Events, AllCalm, Meant, Flatten, Writes;
    var meant := Meant(p, answer);
    assert if p.staticBuf.None? then src == meant
           else |meant| <= |p.staticBuf.value| && src == p.staticBuf.value[..|meant|];
    hide *;
    LosslessIn(p, answer, src, ops);
    assert src[..|src|] == src;
  }

  /**
   * Whether `accept_in` can be relied on. It sends every one-byte answer right exactly when no static
   * buffer is left over: with one left over, some goes out wrong or not at all.
   */
  lemma FaithfulIff(p: Pipe)
    requires p.mps > 0 && p.state.CompleteIn? && p.state.req.length > 0 && |p.buf| > 0
    ensures (forall b: byte :: Writes(Step(p, AcceptInOp(Copying([b], |p.buf|), Takes(p.mps))).events) == [[b]])
            <==> p.staticBuf.None?
  {
    forall b: byte
      ensures Step(p, AcceptInOp(Copying([b], |p.buf|), Takes(p.mps))).events ==
              if p.staticBuf.None? then [AcceptedIn([b], None), Wrote([b])]
              else if p.staticBuf.value == [] then [AcceptedIn([b], None)]
              else [AcceptedIn([b], None), Wrote([p.staticBuf.value[0]])]
    {
      OneByte(p, b);
    }
    forall b: byte, c: byte ensures Writes([AcceptedIn([b], None), Wrote([c])]) == [[c]] {
      WritesAppend([AcceptedIn([b], None)], [Wrote([c])]);
      assert [AcceptedIn([b], None)] + [Wrote([c])] == [AcceptedIn([b], None), Wrote([c])];
      WritesOfOne(AcceptedIn([b], None));
      WritesOfOne(Wrote([c]));
    }
    if p.staticBuf.Some? {
      var wrong: byte := if p.staticBuf.value == [] || p.staticBuf.value[0] != 0 then 0 else 1;
      WritesOfOne(AcceptedIn([wrong], None));
      var op := AcceptInOp(Copying([wrong], |p.buf|), Takes(p.mps));
      assert Writes(Step(p, op).events) != [[wrong]] by {
        if p.staticBuf.value != [] {
          assert [p.staticBuf.value[0]][0] != [wrong][0];
          assert [[p.staticBuf.value[0]]][0] != [[wrong]][0];
        }
      }
    }
  }

  lemma OneByte(p: Pipe, b: byte)
    requires p.mps > 0 && p.state.CompleteIn? && p.state.req.length > 0 && |p.buf| > 0
    ensures Step(p, AcceptInOp(Copying([b], |p.buf|), Takes(p.mps))).events ==
            if p.staticBuf.None? then [AcceptedIn([b], None), Wrote([b])]
            else if p.staticBuf.value == [] then [AcceptedIn([b], None)]
            else [AcceptedIn([b], None), Wrote([p.staticBuf.value[0]])]
  {
    var q := p.(buf := Overlay(p.buf, [b]));
    assert q.buf[..1] == [b];
    assert [b][..1] == [b];
    var r := q.(len := 1, i := 0, state := DataIn);
    if |r.Source()| > 0 {
      assert r.Source()[0..1] == [r.Source()[0]];
    }
  }
}

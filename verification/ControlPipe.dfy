/**
 * `ControlPipe` in the source's own form: one shared buffer, patched in place. Every method is
 * proved to do to the buffer and the fields what its step function in PipeModel does to a value.
 */
module ControlPipe {
  import opened UsbTypes
  import opened Control
  import opened Bus
  import opened PipeModel

  class Ep0Pipe {
    const mps: nat
    const buf: array<byte>
    var state: ControlState
    var staticBuf: Option<seq<byte>>
    var i: nat
    var len: nat
    ghost var log: seq<Event>

    ghost function View(): Pipe
      reads this, buf
    {
      Pipe(state, buf[..], staticBuf, i, len, mps)
    }

    constructor (buf: array<byte>, mps: nat)
      requires 0 < mps <= buf.Length
      ensures Fresh(View()) && log == [] && this.buf == buf && this.mps == mps
    {
      this.buf := buf;
      this.mps := mps;
      state := Idle;
      staticBuf := None;
      i := 0;
      len := 0;
      log := [];
    }

    method WaitingForResponse() returns (w: bool)
      ensures w == View().Waiting()
    {
      w := state.CompleteOut? || state.CompleteIn?;
    }

    method DataSlice() returns (d: seq<byte>)
      requires len <= buf.Length
      ensures d == Data(View())
    {
      d := buf[0..len];
    }

    /** Copies into the buffer from `at` on; what does not fit is cut, as a slice would cut it. */
    method CopyIn(at: nat, data: seq<byte>)
      requires at <= buf.Length
      modifies buf
      ensures buf[..] == old(buf[..at]) + Overlay(old(buf[at..]), data)
    {
      ghost var before := buf[..];
      var n := if |data| <= buf.Length - at then |data| else buf.Length - at;
      var k := 0;
      while k < n
        invariant 0 <= k <= n
        invariant forall j | 0 <= j < buf.Length ::
                    buf[j] == if at <= j < at + k then data[j - at] else before[j]
      {
        buf[at + k] := data[k];
        k := k + 1;
      }
      assert old(buf[..at]) == before[..at] && old(buf[at..]) == before[at..];
    }

    method SetError()
      modifies this`state, this`log
      ensures View() == old(View()).(state := Error) && log == old(log) + [Stalled]
    {
      state := Error;
      log := log + [Stalled];
    }

    method HandleSetup(o: Offer) returns (r: Reply)
      modifies this, buf
      ensures var t := PipeModel.HandleSetup(old(View()), o);
              View() == t.pipe && log == old(log) + t.events && r == t.reply
    {
      hide Parse;
      match Read(o, buf.Length) {
        case Err(_) =>
          return Done;
        case Ok(d) =>
          CopyIn(0, d);
          assert buf[..] == Overlay(old(buf[..]), d) by { assert old(buf[0..]) == old(buf[..]); }
          match Parse(buf[0..|d|]) {
            case Err(_) =>
              log := log + [SetupIgnored(d)];
              return Done;
            case Ok(req) =>
              log := log + [Unstalled];
              if req.direction.Out? {
                if req.length > 0 {
                  if req.length > buf.Length {
                    log := log + [SetupDropped(req)];
                    return Done;
                  }
                  i := 0;
                  len := req.length;
                  state := DataOut(req);
                  log := log + [SetupTaken(req)];
                  return Done;
                } else {
                  len := 0;
                  state := CompleteOut;
                  log := log + [SetupTaken(req)];
                  return Got(req);
                }
              } else {
                state := CompleteIn(req);
                log := log + [SetupTaken(req)];
                return Got(req);
              }
          }
      }
    }

    method HandleOut(o: Offer) returns (r: Reply)
      modifies this, buf
      ensures var t := PipeModel.HandleOut(old(View()), o);
              View() == t.pipe && log == old(log) + t.events && r == t.reply
    {
      match state {
        case DataOut(req) =>
          if i > buf.Length {
            return Panicked;
          }
          match Read(o, buf.Length - i) {
            case Err(WouldBlock) =>
              return Done;
            case Err(_) =>
              SetError();
              return Done;
            case Ok(d) =>
              CopyIn(i, d);
              log := log + [GotData(d)];
              i := i + |d|;
              if i >= len {
                state := CompleteOut;
                return Got(req);
              }
              return Done;
          }
        case DataIn | DataInLast | DataInZlp | StatusOut =>
          match Read(o, 0) {
            case Err(e) =>
              return Failed(e);
            case Ok(_) =>
              log := log + [GotZlp];
              state := Idle;
              return Done;
          }
        case _ =>
          match Read(o, 0) {
            case Err(e) =>
              return Failed(e);
            case Ok(_) =>
              log := log + [GotZlp];
              SetError();
              return Done;
          }
      }
    }

    method WriteInChunk(t: Take) returns (r: Reply)
      modifies this`i, this`staticBuf, this`state, this`log
      ensures var turn := PipeModel.WriteInChunk(old(View()), t);
              View() == turn.pipe && log == old(log) + turn.events && r == turn.reply
    {
      if i > len {
        return Panicked;
      }
      var count := Min(len - i, mps);
      var source := if staticBuf.Some? then staticBuf.value else buf[..];
      if i + count > |source| {
        return Panicked;
      }
      match Write(t, source[i..i + count]) {
        case Err(e) =>
          return Failed(e);
        case Ok(n) =>
          log := log + [Wrote(source[i..i + n])];
          i := i + n;
          if i >= len {
            staticBuf := None;
            state := if n == mps then DataInZlp else DataInLast;
          }
          return Done;
      }
    }

    method WriteEmpty(t: Take, next: ControlState) returns (r: Reply)
      modifies this`state, this`log
      ensures var turn := PipeModel.WriteEmpty(old(View()), t, next);
              View() == turn.pipe && log == old(log) + turn.events && r == turn.reply
    {
      match Write(t, []) {
        case Err(e) =>
          return Failed(e);
        case Ok(_) =>
          log := log + [Wrote([])];
          state := next;
          return Done;
      }
    }

    method HandleInComplete(t: Take) returns (r: Reply)
      modifies this
      ensures var turn := PipeModel.HandleInComplete(old(View()), t);
              View() == turn.pipe && log == old(log) + turn.events && r == turn.reply
      ensures buf[..] == old(buf[..])
    {
      match state {
        case DataIn =>
          r := WriteInChunk(t);
        case DataInZlp =>
          r := WriteEmpty(t, DataInLast);
        case DataInLast =>
          log := log + [Unstalled];
          state := StatusOut;
          return Done;
        case StatusIn =>
          log := log + [StatusSent];
          state := Idle;
          return StatusDone;
        case _ =>
          return Done;
      }
    }

    method AcceptOut(t: Take) returns (r: Reply)
      modifies this
      ensures var turn := PipeModel.AcceptOut(old(View()), t);
              View() == turn.pipe && log == old(log) + turn.events && r == turn.reply
    {
      if !state.CompleteOut? {
        return Failed(InvalidState);
      }
      r := WriteEmpty(t, StatusIn);
    }

    /** `src` names what the caller means to send; the bytes come from the buffers. */
    method StartInTransfer(req: Request, ghost src: seq<byte>, ghost held: Option<seq<byte>>, dataLen: nat, t: Take)
      returns (r: Reply)
      requires dataLen == |src|
      modifies this
      ensures var turn := PipeModel.StartInTransfer(old(View()), req, src, held, t);
              log == old(log) + turn.events && r == turn.reply && (!r.Panicked? ==> View() == turn.pipe)
    {
      len := Min(dataLen, req.length);
      i := 0;
      state := DataIn;
      log := log + [AcceptedIn(src[..len], held)];
      r := WriteInChunk(t);
    }

    method AcceptIn(f: Filler, t: Take) returns (r: Reply)
      modifies this, buf
      ensures var turn := PipeModel.AcceptIn(old(View()), f, t);
              log == old(log) + turn.events && r == turn.reply && (!r.Panicked? ==> View() == turn.pipe)
    {
      if !state.CompleteIn? {
        return Failed(InvalidState);
      }
      if f.panics {
        return Panicked;
      }
      var req := state.req;
      CopyIn(0, f.data);
      assert buf[..] == Overlay(old(buf[..]), f.data) by { assert old(buf[0..]) == old(buf[..]); }
      match f.count {
        case Err(e) =>
          return Failed(e);
        case Ok(n) =>
          if n > buf.Length {
            SetError();
            return Failed(BufferOverflow);
          }
          r := StartInTransfer(req, buf[..][..n], None, n, t);
      }
    }

    method AcceptInStatic(data: seq<byte>, t: Take) returns (r: Reply)
      modifies this
      ensures var turn := PipeModel.AcceptInStatic(old(View()), data, t);
              log == old(log) + turn.events && r == turn.reply && (!r.Panicked? ==> View() == turn.pipe)
    {
      if !state.CompleteIn? {
        return Failed(InvalidState);
      }
      var req := state.req;
      staticBuf := Some(data);
      r := StartInTransfer(req, data, Some(data), |data|, t);
    }

    method Reject() returns (r: Reply)
      modifies this
      ensures var turn := PipeModel.Reject(old(View()));
              View() == turn.pipe && log == old(log) + turn.events && r == turn.reply
    {
      if !(state.CompleteOut? || state.CompleteIn?) {
        return Failed(InvalidState);
      }
      SetError();
      return Done;
    }

    method Reset()
      modifies this
      ensures var turn := PipeModel.Reset(old(View()));
              View() == turn.pipe && log == old(log) + turn.events
    {
      log := log + [WasReset];
      state := Idle;
    }
  }
}

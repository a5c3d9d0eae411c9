/** The bulk loopback of `TestClass` in the source's own form, proved against the step functions. */
module TestClass {
  import opened UsbTypes
  import opened Bus
  import opened Loopback

  lemma Stored(before: seq<byte>, i: nat, d: seq<byte>, after: seq<byte>)
    requires i + |d| <= |before| == |after|
    requires forall j | 0 <= j < |after| :: after[j] == if i <= j < i + |d| then d[j - i] else before[j]
    ensures after == before[..i] + Overlay(before[i..], d)
  {
  }

  /** `TestClass`, its bulk loopback fields and callbacks. */
  class BulkLoop {
    const m: nat
    const buf: array<byte>
    var i: nat
    var len: nat
    var expectOut: bool
    var expectIn: bool
    ghost var wrote: seq<seq<byte>>

    ghost function View(): Loop
      reads this, buf
    {
      Loop(buf[..], i, len, expectOut, expectIn, m)
    }

    /** The call did what `e` says; nothing more follows a panic. */
    ghost predicate Went(log: seq<seq<byte>>, e: Echo, panicked: bool)
      reads this, buf
    {
      panicked == e.panicked && (!panicked ==> View() == e.loop && wrote == log + e.wrote)
    }

    constructor (buf: array<byte>, m: nat)
      requires m > 0
      ensures InStep(Sending([]), View()) && wrote == [] && this.buf == buf && this.m == m
    {
      this.m := m;
      this.buf := buf;
      i := 0;
      len := 0;
      expectOut := false;
      expectIn := false;
      wrote := [];
    }

    method Reset()
      modifies this
      ensures View() == ResetLoop(old(View())) && wrote == old(wrote)
    {
      len := 0;
      i := 0;
      expectIn := false;
      expectOut := false;
    }

    method EndpointOut()
      modifies this`expectOut
      ensures View() == Announce(old(View()))
    {
      expectOut := true;
    }

    method EndpointInComplete(t: Take) returns (panicked: bool)
      modifies this
      ensures Went(old(wrote), Complete(old(View()), t), panicked)
    {
      hide Loopback.WriteBulkIn;
      if expectIn {
        expectIn := false;
        panicked := WriteBulkIn(false, t);
      } else {
        return true;
      }
    }

    method WriteBulkIn(writeEmpty: bool, t: Take) returns (panicked: bool)
      modifies this
      ensures Went(old(wrote), Loopback.WriteBulkIn(old(View()), writeEmpty, t), panicked)
    {
      if i > len {
        return true;
      }
      var count := Min(len - i, m);
      if count == 0 && !writeEmpty {
        len := 0;
        i := 0;
        return false;
      }
      if i + count > buf.Length {
        return true;
      }
      var slice := buf[i..i + count];
      match Write(t, slice) {
        case Ok(n) =>
          if n != count {
            return true;
          }
          wrote := wrote + [slice];
          expectIn := true;
          i := i + n;
          return false;
        case Err(WouldBlock) =>
          return false;
        case Err(_) =>
          return true;
      }
    }

    method Store(d: seq<byte>)
      requires i + |d| <= buf.Length
      modifies buf
      ensures buf[..] == old(buf[..i]) + Overlay(old(buf[i..]), d)
    {
      ghost var before := buf[..];
      for k := 0 to |d|
        invariant forall j | 0 <= j < buf.Length ::
                    buf[j] == if i <= j < i + k then d[j - i] else before[j]
      {
        buf[i + k] := d[k];
      }
      Stored(before, i, d, buf[..]);
      assert old(buf[..i]) == before[..i] && old(buf[i..]) == before[i..];
    }

    method PollBulk(o: Offer, t: Take) returns (panicked: bool)
      modifies this, buf
      ensures Went(old(wrote), Poll(old(View()), o, t), panicked)
    {
      hide Loopback.WriteBulkIn;
      if i > buf.Length {
        return true;
      }
      match Read(o, buf.Length - i) {
        case Err(WouldBlock) =>
          return false;
        case Err(_) =>
          return true;
        case Ok(d) =>
          if !expectOut {
            return true;
          }
          Store(d);
          expectOut := false;
          i := i + |d|;
          if |d| < m {
            len := i;
            i := 0;
            panicked := WriteBulkIn(|d| == 0, t);
          } else {
            return false;
          }
      }
    }
  }
}

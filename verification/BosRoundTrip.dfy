/** The BOS descriptor (section 9.6.2 of USB 3.2) and string descriptors (section 9.6.7 of USB 2.0). */
module BosRoundTrip {
  import opened UsbTypes
  import opened DescriptorModel
  import opened DescriptorRoundTrip

  function CapRecord(c: Cap): seq<byte>
    requires |c.data| <= 252
  {
    [|c.data| + 3, CAPABILITY, c.capType] + c.data
  }

  /** The capability fits the room left, and its length fits its byte. */
  predicate FitsIn(c: Cap, room: int) {
    |c.data| + 3 <= room && |c.data| <= 252
  }

  /** Of capabilities taken in order, those that fit the room the others have left. */
  function Chosen(caps: seq<Cap>, room: int): (r: seq<Cap>)
    ensures forall k | 0 <= k < |r| :: |r[k].data| <= 252
  {
    if caps == [] then []
    else if FitsIn(caps[0], room) then [caps[0]] + Chosen(caps[1..], room - |caps[0].data| - 3)
    else Chosen(caps[1..], room)
  }

  /** The room they leave. */
  function RoomAfter(caps: seq<Cap>, room: int): int {
    if caps == [] then room
    else RoomAfter(caps[1..], if FitsIn(caps[0], room) then room - |caps[0].data| - 3 else room)
  }

  /** No capability is refused whose class returns the error. */
  ghost predicate NoneReturned(caps: seq<Cap>, room: int) {
    forall k | 0 <= k < |caps| && caps[k].strict :: FitsIn(caps[k], RoomAfter(caps[..k], room))
  }

  function CapRecords(caps: seq<Cap>): seq<seq<byte>>
    requires forall k | 0 <= k < |caps| :: |caps[k].data| <= 252
  {
    if caps == [] then [] else [CapRecord(caps[0])] + CapRecords(caps[1..])
  }

  lemma {:induction false} CapRecordsWellFormed(caps: seq<Cap>)
    requires forall k | 0 <= k < |caps| :: |caps[k].data| <= 252
    ensures |CapRecords(caps)| == |caps| && AllWellFormed(CapRecords(caps))
    decreases |caps|
  {
    if caps != [] {
      CapRecordsWellFormed(caps[1..]);
      AllWellFormedAppend([CapRecord(caps[0])], CapRecords(caps[1..]));
    }
  }

  /** One call: the counter moves whether or not the capability is written. */
  lemma CapabilityAppends(w: Writer, mark: nat, c: Cap)
    requires mark < w.position <= |w.buf| && !Capability(w, Some(mark), c).status.Panic?
    ensures var n := Capability(w, Some(mark), c);
            && |n.w.buf| == |w.buf| && n.w == w.(buf := n.w.buf, position := n.w.position)
            && w.buf[mark] < 255
            && (n.status.Good? ==>
                  && |c.data| <= 252 && n.w.position == w.position + |c.data| + 3 <= |w.buf|
                  && Written(n.w) == Add(Written(w), Some(mark), 1) + CapRecord(c))
            && (!n.status.Good? ==> n.w.position == w.position && Written(n.w) == Add(Written(w), Some(mark), 1))
  {
    var v := Bumped(w, mark).value;
    assert Written(v) == Add(Written(w), Some(mark), 1);
    var n := Capability(w, Some(mark), c);
    if n.status.Good? {
      var r := CapRecord(c);
      assert n.w.buf == v.buf[..w.position] + r + v.buf[n.w.position..];
      assert n.w.buf[..n.w.position] == v.buf[..w.position] + r;
    }
  }

  lemma NoRecords()
    ensures Flatten(CapRecords([])) == []
  {
  }

  lemma {:induction false} CapsPrinted(w: Writer, mark: nat, caps: seq<Cap>)
    requires mark < w.position <= |w.buf| && PutCaps(w, mark, caps).status.Good?
    ensures var v := PutCaps(w, mark, caps).w;
            && v.position <= |v.buf| == |w.buf|
            && w.buf[mark] + |caps| < 256
            && Written(v) == Add(Written(w), Some(mark), |caps|)
                             + Flatten(CapRecords(Chosen(caps, |w.buf| - w.position)))
    decreases |caps|
  {
    hide Capability, CapRecord, CapRecords, Flatten;
    if caps == [] {
      AddNothing(Written(w), Some(mark));
      assert Flatten(CapRecords([])) == [] by { NoRecords(); }
      assert Written(w) + [] == Written(w);
    } else {
      var n := Capability(w, Some(mark), caps[0]);
      CapabilityAppends(w, mark, caps[0]);
      CapabilityCounts(w, mark, caps[0]);
      CapsPrinted(n.w, mark, caps[1..]);
      var room := |w.buf| - w.position;
      assert PutCaps(w, mark, caps).w == PutCaps(n.w, mark, caps[1..]).w;
      assert Written(n.w) == Add(Written(w), Some(mark), 1) + if FitsIn(caps[0], room) then CapRecord(caps[0]) else [];
      hide *;
      CapThen(Written(w), mark, caps[0], caps[1..], room, Written(n.w));
      assert [caps[0]] + caps[1..] == caps;
    }
  }

  /** The room a list of capabilities takes. */
  function CapBytes(caps: seq<Cap>): nat {
    if caps == [] then 0 else |caps[0].data| + 3 + CapBytes(caps[1..])
  }

  /** There is room for all of them, and each has a length that fits its byte. */
  ghost predicate CapsFit(caps: seq<Cap>, room: int) {
    CapBytes(caps) <= room && forall k | 0 <= k < |caps| :: |caps[k].data| <= 252
  }

  lemma CapsFitHead(c: Cap, rest: seq<Cap>, room: int)
    ensures CapsFit([c] + rest, room) <==> |c.data| <= 252 && CapsFit(rest, room - |c.data| - 3)
  {
    var all := [c] + rest;
    assert all[1..] == rest;
    assert forall k | 0 <= k < |rest| :: all[k + 1] == rest[k];
    if |c.data| <= 252 && CapsFit(rest, room - |c.data| - 3) {
      forall k | 0 <= k < |all| ensures |all[k].data| <= 252 {
        if k > 0 { assert all[k] == rest[k - 1]; }
      }
    }
  }

  lemma {:induction false} ChosenAllIff(caps: seq<Cap>, room: int)
    requires room >= 0
    ensures |Chosen(caps, room)| <= |caps|
    ensures |Chosen(caps, room)| == |caps| <==> CapsFit(caps, room)
    ensures |Chosen(caps, room)| == |caps| ==> Chosen(caps, room) == caps
  {
    if caps != [] {
      var fits := FitsIn(caps[0], room);
      ChosenAllIff(caps[1..], if fits then room - |caps[0].data| - 3 else room);
      CapsFitHead(caps[0], caps[1..], room);
      assert [caps[0]] + caps[1..] == caps;
    }
  }

  lemma NoneReturnedHead(caps: seq<Cap>, room: int)
    requires caps != []
    ensures var left := if FitsIn(caps[0], room) then room - |caps[0].data| - 3 else room;
            NoneReturned(caps, room) <==> (caps[0].strict ==> FitsIn(caps[0], room)) && NoneReturned(caps[1..], left)
  {
    hide FitsIn;
    var left := if FitsIn(caps[0], room) then room - |caps[0].data| - 3 else room;
    var rest := caps[1..];
    assert caps[..0] == [];
    forall k | 0 <= k < |rest|
      ensures rest[k] == caps[k + 1] && RoomAfter(caps[..k + 1], room) == RoomAfter(rest[..k], left)
    {
      assert caps[..k + 1][1..] == rest[..k];
    }
    if (caps[0].strict ==> FitsIn(caps[0], room)) && NoneReturned(rest, left) {
      forall k | 0 <= k < |caps| && caps[k].strict ensures FitsIn(caps[k], RoomAfter(caps[..k], room)) {
        if k > 0 { assert rest[k - 1].strict; }
      }
    }
  }

  /** With classes that all return errors, none is refused exactly when all fit. */
  lemma {:induction false} AllStrictIff(caps: seq<Cap>, room: int)
    requires room >= 0 && forall k | 0 <= k < |caps| :: caps[k].strict
    ensures NoneReturned(caps, room) <==> CapsFit(caps, room)
  {
    if caps != [] {
      NoneReturnedHead(caps, room);
      CapsFitHead(caps[0], caps[1..], room);
      assert [caps[0]] + caps[1..] == caps;
      assert caps[0].strict;
      if FitsIn(caps[0], room) {
        AllStrictIff(caps[1..], room - |caps[0].data| - 3);
      }
    }
  }

  /** How a run of capability calls ends, from the sizes and the classes' habits alone. */
  lemma {:induction false} PutCapsOutcome(w: Writer, mark: nat, caps: seq<Cap>)
    requires mark < w.position <= |w.buf|
    ensures var n, room := w.buf[mark], |w.buf| - w.position;
            var status := PutCaps(w, mark, caps).status;
            && (status.Good? <==> n + |caps| < 256 && NoneReturned(caps, room))
            && (status.Panic? <==> n + |caps| >= 256 && NoneReturned(caps[..255 - n], room))
    decreases |caps|
  {
    hide Capability, FitsIn, NoneReturned;
    var n, room := w.buf[mark], |w.buf| - w.position;
    if caps == [] || n == 255 {
      if caps != [] { CapabilityFull(w, mark, caps[0]); }
      assert NoneReturned([], room) by { NoneRefused(room); }
      assert caps[..0] == [];
    } else {
      var next := Capability(w, Some(mark), caps[0]);
      var rest, left := caps[1..], |next.w.buf| - next.w.position;
      CapabilityCounts(w, mark, caps[0]);
      CapabilityAppends(w, mark, caps[0]);
      var stops := next.status.Bad? && caps[0].strict;
      assert PutCaps(w, mark, caps) == if stops then next else PutCaps(next.w, mark, rest);
      hide PutCaps;
      NoneReturnedHead(caps, room);
      if n + |caps| >= 256 {
        var some := caps[..255 - n];
        assert some[1..] == rest[..254 - n];
        NoneReturnedHead(some, room);
      }
      if !stops {
        PutCapsOutcome(next.w, mark, rest);
      }
    }
  }

  lemma NoneRefused(room: int)
    ensures NoneReturned([], room)
  {
  }

  lemma CapabilityFull(w: Writer, mark: nat, c: Cap)
    requires mark < |w.buf| && w.buf[mark] == 255
    ensures Capability(w, Some(mark), c).status.Panic?
  {
  }

  lemma CapabilityCounts(w: Writer, mark: nat, c: Cap)
    requires mark < w.position <= |w.buf| && w.buf[mark] < 255
    ensures var n := Capability(w, Some(mark), c);
            && !n.status.Panic? && n.w.buf[mark] == w.buf[mark] + 1
            && (n.status.Good? <==> FitsIn(c, |w.buf| - w.position))
  {
  }

  /** One capability, then the others, by what is written. */
  lemma CapThen(s: seq<byte>, mark: nat, c: Cap, tail: seq<Cap>, room: int, t: seq<byte>)
    requires mark < |s| && s[mark] + 1 + |tail| < 256
    requires t == Add(s, Some(mark), 1) + if FitsIn(c, room) then CapRecord(c) else []
    ensures var left := if FitsIn(c, room) then room - |c.data| - 3 else room;
            Add(t, Some(mark), |tail|) + Flatten(CapRecords(Chosen(tail, left)))
            == Add(s, Some(mark), 1 + |tail|) + Flatten(CapRecords(Chosen([c] + tail, room)))
  {
    hide CapRecord, CapRecords, Flatten, Add;
    assert ([c] + tail)[1..] == tail;
    if FitsIn(c, room) {
      var kept := Chosen(tail, room - |c.data| - 3);
      assert Chosen([c] + tail, room) == [c] + kept;
      hide Chosen;
      CapRecordsHead(c, kept);
      TwoBlocks(s, Some(mark), 1, CapRecord(c), |tail|, Flatten(CapRecords(kept)));
    } else {
      assert Chosen([c] + tail, room) == Chosen(tail, room);
      hide Chosen;
      assert t == Add(s, Some(mark), 1);
      AddTwice(s, Some(mark), 1, |tail|);
    }
  }

  lemma CapRecordsHead(c: Cap, kept: seq<Cap>)
    requires |c.data| <= 252 && forall k | 0 <= k < |kept| :: |kept[k].data| <= 252
    ensures Flatten(CapRecords([c] + kept)) == CapRecord(c) + Flatten(CapRecords(kept))
  {
    assert ([c] + kept)[1..] == kept;
    FlattenHead(CapRecord(c), CapRecords(kept));
  }

  function BosHeaderBytes(total: u16, caps: byte): seq<byte> {
    [5, BOS] + LittleEndian(total) + [caps]
  }

  const EXTENSION := Cap(USB_2_0_EXTENSION, [0, 0, 0, 0], true)

  /** Everything a GET_DESCRIPTOR(BOS) should return; the count is of calls made. */
  function BosRecords(position: nat, calls: nat, kept: seq<Cap>): seq<seq<byte>>
    requires forall k | 0 <= k < |kept| :: |kept[k].data| <= 252
  {
    [BosHeaderBytes(position % 0x1_0000, (calls + 1) % 0x100)] + CapRecords([EXTENSION] + kept)
  }

  lemma StartBosWritten(buf: seq<byte>)
    requires StartBos(Fresh(buf)).status.Good?
    ensures var w := StartBos(Fresh(buf)).w;
            && w.position == 12 <= |w.buf| == |buf|
            && Written(w) == Add(Record(BOS, [0, 0, 0]), Some(4), 1) + CapRecord(EXTENSION)
            && w.buf[4] == 1
  {
    var head := BosHeader(Fresh(buf)).w;
    WriteAppends(Fresh(buf), BOS, [0, 0, 0]);
    assert Written(Fresh(buf)) == [];
    assert [] + Record(BOS, [0, 0, 0]) == Record(BOS, [0, 0, 0]);
    CapabilityAppends(head, 4, EXTENSION);
    var w := StartBos(Fresh(buf)).w;
    assert head.buf[4] == Written(head)[4] == 0;
    assert w.buf[4] == Written(w)[4] == 1;
  }

  lemma BosPatched(count: nat, total: u16, rest: seq<byte>)
    requires 1 <= count < 256
    ensures var s := Add(Record(BOS, [0, 0, 0]), Some(4), count) + rest;
            s[..2] + LittleEndian(total) + s[4..] == BosHeaderBytes(total, count) + rest
  {
    var r := Record(BOS, [0, 0, 0]);
    assert r[4] == 0 && |r| == 5;
  }

  lemma BosBodyPrinted(buf: seq<byte>, caps: seq<Cap>)
    requires StartBos(Fresh(buf)).status.Good? && PutCaps(StartBos(Fresh(buf)).w, 4, caps).status.Good?
    ensures var head := StartBos(Fresh(buf)).w;
            var body := PutCaps(head, 4, caps).w;
            && 12 <= body.position <= |body.buf| == |buf|
            && |caps| + 1 < 256
            && Written(body) == Add(Record(BOS, [0, 0, 0]), Some(4), |caps| + 1)
                                + (CapRecord(EXTENSION) + Flatten(CapRecords(Chosen(caps, |buf| - 12))))
  {
    var head := StartBos(Fresh(buf)).w;
    StartBosWritten(buf);
    CapsPrinted(head, 4, caps);
    var body := PutCaps(head, 4, caps).w;
    assert |Written(body)| >= |Written(head)|;
    var r := Record(BOS, [0, 0, 0]);
    assert |r| == 5 && r[4] == 0;
    hide Record, StartBos, PutCaps, Chosen, CapRecords, Flatten;
    AddPrefix(Add(r, Some(4), 1), CapRecord(EXTENSION), Some(4), |caps|);
    AddTwice(r, Some(4), 1, |caps|);
    Assoc(Add(r, Some(4), |caps| + 1), CapRecord(EXTENSION), Flatten(CapRecords(Chosen(caps, |buf| - 12))));
  }

  lemma BosPrinted(buf: seq<byte>, caps: seq<Cap>)
    requires AssembleBos(buf, caps).status.Good?
    ensures var w := AssembleBos(buf, caps).w;
            && 12 <= w.position <= |w.buf| == |buf|
            && |caps| + 1 < 256
            && Written(w) == Flatten(BosRecords(w.position, |caps|, Chosen(caps, |buf| - 12)))
  {
    hide StartBos, PutCaps, Chosen, CapRecords;
    BosBodyPrinted(buf, caps);
    var body := PutCaps(StartBos(Fresh(buf)).w, 4, caps).w;
    BosFinished(body, |caps|, Chosen(caps, |buf| - 12));
  }

  lemma BosRecordsWellFormed(position: nat, calls: nat, kept: seq<Cap>)
    requires forall k | 0 <= k < |kept| :: |kept[k].data| <= 252
    ensures var r := BosRecords(position, calls, kept);
            AllWellFormed(r) && |r| == |kept| + 2
  {
    var header := [BosHeaderBytes(position % 0x1_0000, (calls + 1) % 0x100)];
    CapRecordsWellFormed([EXTENSION] + kept);
    AllWellFormedAppend(header, CapRecords([EXTENSION] + kept));
  }

  /**
   * How rendering the BOS descriptor ends, for all buffers, capabilities and classes: it succeeds
   * exactly when the buffer has room for the fixed part, there are fewer than 255 capabilities, and
   * none is refused whose class returns the error; it panics exactly when the counter runs over
   * before any such refusal.
   */
  lemma BosOutcome(buf: seq<byte>, caps: seq<Cap>)
    ensures AssembleBos(buf, caps).status.Good?
            <==> 12 <= |buf| && |caps| < 255 && NoneReturned(caps, |buf| - 12)
    ensures AssembleBos(buf, caps).status.Panic?
            <==> 12 <= |buf| && 255 <= |caps| && NoneReturned(caps[..254], |buf| - 12)
  {
    StartBosIff(buf);
    if 12 <= |buf| {
      StartBosWritten(buf);
      var head := StartBos(Fresh(buf)).w;
      PutCapsOutcome(head, 4, caps);
      hide NoneReturned, StartBos;
      if PutCaps(head, 4, caps).status.Good? {
        CapsPrinted(head, 4, caps);
      }
      hide PutCaps;
    }
  }

  /** With classes that return every error, the rendering succeeds exactly when all capabilities fit. */
  lemma BosOutcomeStrict(buf: seq<byte>, caps: seq<Cap>)
    requires forall k | 0 <= k < |caps| :: caps[k].strict
    ensures AssembleBos(buf, caps).status.Good? <==> 12 <= |buf| && |caps| < 255 && CapsFit(caps, |buf| - 12)
  {
    BosOutcome(buf, caps);
    if 12 <= |buf| { AllStrictIff(caps, |buf| - 12); }
    hide AssembleBos, NoneReturned, CapsFit;
  }

  lemma StartBosIff(buf: seq<byte>)
    ensures StartBos(Fresh(buf)).status == if 12 <= |buf| then Good else Bad(BufferOverflow)
  {
  }

  /**
   * BOS round trip. Walking bLength gives back the header, the USB 2.0 extension and the
   * capabilities that fit, in order; wTotalLength is the position modulo 2^16; and bNumDeviceCaps
   * is the number of capability calls. That is the number of capabilities in the descriptor exactly
   * when the buffer has room for all of them and none is over 252 bytes.
   */
  lemma BosWalk(buf: seq<byte>, caps: seq<Cap>)
    requires AssembleBos(buf, caps).status.Good?
    ensures 12 <= |buf| && |caps| < 255
    ensures var w := AssembleBos(buf, caps).w;
            var records := BosRecords(w.position, |caps|, Chosen(caps, |buf| - 12));
            && w.position <= |w.buf| == |buf|
            && Written(w) == Flatten(records)
            && Walk(Written(w)) == Some(records)
            && records[0][4] == |caps| + 1
            && (records[0][4] == |records| - 1 <==> CapsFit(caps, |buf| - 12))
  {
    hide AssembleBos, Chosen, StartBos, CapRecords, Walk, Flatten, AllWellFormed, CapsFit, PutCaps, NoneReturned;
    BosOutcome(buf, caps);
    BosPrinted(buf, caps);
    var w := AssembleBos(buf, caps).w;
    var kept := Chosen(caps, |buf| - 12);
    ChosenAllIff(caps, |buf| - 12);
    BosRecordsWellFormed(w.position, |caps|, kept);
    WalkIff(BosRecords(w.position, |caps|, kept));
  }

  /**
   * One capability in a buffer with no room for it: if its class discards the error, the descriptor
   * is finished with a count that is wrong; if the class returns it, there is no descriptor.
   */
  lemma RefusedCapabilityCounted(buf: seq<byte>, c: Cap)
    requires 12 <= |buf| < 15 + |c.data|
    ensures var n := AssembleBos(buf, [c]);
            if c.strict then n.status.Bad?
            else
              && n.status.Good? && n.w.position <= |n.w.buf|
              && var records := Walk(Written(n.w));
              records.Some? && |records.value| == 2 && |records.value[0]| == 5 && records.value[0][4] == 2
  {
    var room := |buf| - 12;
    BosOutcome(buf, [c]);
    assert [c][..0] == [] && !FitsIn(c, room);
    assert NoneReturned([c], room) <==> !c.strict;
    if !c.strict {
      BosWalk(buf, [c]);
      assert [c][1..] == [];
      assert Chosen([c], room) == [];
      BosRecordsWellFormed(AssembleBos(buf, [c]).w.position, 1, []);
    }
    hide AssembleBos, Walk;
  }

  lemma BosFinished(body: Writer, calls: nat, kept: seq<Cap>)
    requires 12 <= body.position <= |body.buf| && calls + 1 < 256
    requires forall k | 0 <= k < |kept| :: |kept[k].data| <= 252
    requires Written(body) == Add(Record(BOS, [0, 0, 0]), Some(4), calls + 1)
                              + (CapRecord(EXTENSION) + Flatten(CapRecords(kept)))
    ensures Written(EndConfiguration(body).w) == Flatten(BosRecords(body.position, calls, kept))
  {
    var total := body.position % 0x1_0000;
    PatchedPrefix(body.buf, body.position, LittleEndian(total));
    BosPatched(calls + 1, total, CapRecord(EXTENSION) + Flatten(CapRecords(kept)));
    assert ([EXTENSION] + kept)[1..] == kept;
    FlattenHead(CapRecord(EXTENSION), CapRecords(kept));
    FlattenHead(BosHeaderBytes(total, calls + 1), CapRecords([EXTENSION] + kept));
  }

  /** Reads UTF-16 code units back from a string descriptor. */
  function Units(bytes: seq<byte>): seq<u16> {
    if |bytes| < 2 then [] else [(bytes[0] as int) + 0x100 * (bytes[1] as int)] + Units(bytes[2..])
  }

  function UnitBytes(units: seq<u16>): (r: seq<byte>)
    ensures |r| == 2 * |units|
  {
    if units == [] then [] else LittleEndian(units[0]) + UnitBytes(units[1..])
  }

  lemma {:induction false} UnitsRoundTrip(units: seq<u16>)
    ensures Units(UnitBytes(units)) == units
  {
    if units != [] {
      UnitsRoundTrip(units[1..]);
      var bytes := UnitBytes(units);
      assert bytes[2..] == UnitBytes(units[1..]);
      assert (bytes[0] as int) + 0x100 * (bytes[1] as int) == units[0];
    }
  }

  /** How writing the code units ends, by the room there is from `pos`. */
  lemma {:induction false} PutUnitsOutcome(buf: seq<byte>, pos: nat, units: seq<u16>)
    requires pos <= |buf|
    ensures var (b, p, status) := PutUnits(buf, pos, units);
            var room := |buf| - pos;
            && |b| == |buf| && b[..pos] == buf[..pos]
            && (status.Good? <==> 2 * |units| <= room)
            && (status.Panic? <==> 2 * |units| > room && room % 2 == 1)
            && (status.Good? ==> p == pos + 2 * |units| && b[pos..p] == UnitBytes(units))
    decreases |units|
  {
    if units != [] && pos + 2 <= |buf| {
      var next := buf[..pos] + LittleEndian(units[0]) + buf[pos + 2..];
      PutUnitsOutcome(next, pos + 2, units[1..]);
      var (b, p, status) := PutUnits(buf, pos, units);
      hide PutUnits;
      NextUnit(buf, pos, LittleEndian(units[0]), b);
      if status.Good? { SplitSlice(b, pos, pos + 2, p); }
    }
  }

  /** What a unit put at `pos` leaves behind it, when all that follows it is put later. */
  lemma NextUnit(buf: seq<byte>, pos: nat, unit: seq<byte>, b: seq<byte>)
    requires pos + 2 <= |buf| == |b| && |unit| == 2
    requires b[..pos + 2] == (buf[..pos] + unit + buf[pos + 2..])[..pos + 2]
    ensures b[..pos] == buf[..pos] && b[pos..pos + 2] == unit
  {
    var next := buf[..pos] + unit + buf[pos + 2..];
    assert next[..pos] == buf[..pos] && next[pos..pos + 2] == unit;
    assert b[..pos] == b[..pos + 2][..pos] && b[pos..pos + 2] == b[..pos + 2][pos..];
    assert next[..pos] == next[..pos + 2][..pos] && next[pos..pos + 2] == next[..pos + 2][pos..];
  }

  lemma SplitSlice(b: seq<byte>, i: nat, j: nat, k: nat)
    requires i <= j <= k <= |b|
    ensures b[i..k] == b[i..j] + b[j..k]
  {
  }

  /** What a host reads from a string descriptor: its code units, if the length byte is right. */
  function ReadString(bytes: seq<byte>): Option<seq<u16>> {
    if |bytes| >= 2 && bytes[0] == |bytes| && bytes[1] == 3 then Some(Units(bytes[2..])) else None
  }

  lemma WriteStringOutcome(w: Writer, units: seq<u16>)
    requires w.position <= |w.buf|
    ensures var n := WriteString(w, units);
            var room := |w.buf| - w.position;
            && (n.status.Good? <==> 2 + 2 * |units| <= room)
            && (n.status.Panic? <==> 2 + 2 * |units| > room >= 2 && room % 2 == 1)
            && (!n.status.Good? ==> n.w.position == w.position)
            && (n.status.Good? ==> n.w.position == w.position + 2 + 2 * |units| <= |n.w.buf|)
  {
    if w.position + 2 <= |w.buf| {
      PutUnitsOutcome(w.buf[w.position := 0][w.position + 1 := STRING], w.position + 2, units);
      hide PutUnits, UnitBytes;
    }
  }

  lemma WriteStringBytes(w: Writer, units: seq<u16>)
    requires w.position <= |w.buf| && WriteString(w, units).status.Good?
    ensures var n := WriteString(w, units).w;
            && w.position <= n.position <= |n.buf|
            && n.buf[..w.position] == w.buf[..w.position]
            && n.buf[w.position..n.position] == [(n.position - w.position) % 0x100, STRING] + UnitBytes(units)
  {
    var at := w.position;
    var start := w.buf[at := 0][at + 1 := STRING];
    PutUnitsOutcome(start, at + 2, units);
    hide PutUnits, UnitBytes;
    var (b, p, status) := PutUnits(start, at + 2, units);
    TextBytes(w.buf, start, b, at, p, UnitBytes(units));
  }

  lemma TextBytes(buf: seq<byte>, start: seq<byte>, b: seq<byte>, at: nat, p: nat, text: seq<byte>)
    requires at + 2 <= p <= |b| == |start| == |buf| && start == buf[at := 0][at + 1 := STRING]
    requires b[..at + 2] == start[..at + 2] && b[at + 2..p] == text
    ensures var done := b[at := (p - at) % 0x100];
            done[..at] == buf[..at] && done[at..p] == [(p - at) % 0x100, STRING] + text
  {
    var done := b[at := (p - at) % 0x100];
    assert forall k | 0 <= k < at :: b[k] == b[..at + 2][k] == start[k];
    assert b[at + 1] == b[..at + 2][at + 1] == STRING;
    assert done[at + 2..p] == text;
  }

  lemma ReadTextIff(first: byte, body: seq<byte>, units: seq<u16>)
    requires Units(body) == units
    ensures ReadString([first, STRING] + body) == Some(units) <==> first == |body| + 2
  {
    var text := [first, STRING] + body;
    assert text[2..] == body;
    hide Units;
  }

  /** `(2 + 2n) as u8` is the length exactly when the length fits a byte. */
  lemma LengthByte(n: nat)
    ensures (2 + 2 * n) % 0x100 == 2 * n + 2 <==> n <= 126
  {
  }

  lemma ReadBackIff(first: byte, units: seq<u16>)
    requires first == 2 * |units| + 2 <==> |units| <= 126
    ensures ReadString([first, STRING] + UnitBytes(units)) == Some(units) <==> |units| <= 126
  {
    UnitsRoundTrip(units);
    ReadTextIff(first, UnitBytes(units), units);
    hide ReadString, Units;
  }

  /**
   * String descriptor round trip, for all strings and all buffers. Writing succeeds exactly when
   * the descriptor fits; when it does not, it is an error with the position unmoved, or a slice
   * out of range exactly when the room left is odd and at least 3. What was written reads back
   * as the string exactly when it has at most 126 code units.
   */
  lemma StringRoundTrip(w: Writer, units: seq<u16>)
    requires w.position <= |w.buf|
    ensures var n := WriteString(w, units);
            var room := |w.buf| - w.position;
            && (n.status.Good? <==> 2 + 2 * |units| <= room)
            && (n.status.Panic? <==> 2 + 2 * |units| > room >= 2 && room % 2 == 1)
            && (!n.status.Good? ==> n.w.position == w.position)
            && (n.status.Good? ==>
                  && n.w.position == w.position + 2 + 2 * |units| <= |n.w.buf|
                  && n.w.buf[..w.position] == w.buf[..w.position]
                  && (ReadString(n.w.buf[w.position..n.w.position]) == Some(units) <==> |units| <= 126))
  {
    WriteStringOutcome(w, units);
    if WriteString(w, units).status.Good? { WriteStringBytes(w, units); }
    LengthByte(|units|);
    ReadBackIff((2 + 2 * |units|) % 0x100, units);
    hide WriteString, ReadString, UnitBytes;
  }
}

/** What the descriptor writers print, read back by walking bLength (section 9.6 of USB 2.0). */
module DescriptorRoundTrip {
  import opened UsbTypes
  import opened DescriptorModel

  /** Splits a descriptor block into records by their length bytes. */
  function Walk(bytes: seq<byte>): Option<seq<seq<byte>>>
    decreases |bytes|
  {
    if bytes == [] then Some([])
    else if bytes[0] < 2 || bytes[0] > |bytes| then None
    else
      match Walk(bytes[bytes[0]..])
      case None => None
      case Some(rest) => Some([bytes[..bytes[0]]] + rest)
  }

  /** A record whose length byte is its length. */
  predicate WellFormed(record: seq<byte>) {
    2 <= |record| && record[0] == |record|
  }

  ghost predicate AllWellFormed(records: seq<seq<byte>>) {
    forall k | 0 <= k < |records| :: WellFormed(records[k])
  }

  /** The walk recovers the records exactly when every length byte is right. */
  lemma {:induction false} WalkIff(records: seq<seq<byte>>)
    ensures Walk(Flatten(records)) == Some(records) <==> AllWellFormed(records)
    decreases |records|
  {
    if records != [] {
      var head, rest := records[0], Flatten(records[1..]);
      WalkIff(records[1..]);
      var bytes := Flatten(records);
      if WellFormed(head) {
        assert bytes[head[0]..] == rest && bytes[..head[0]] == head;
        assert AllWellFormed(records) <==> AllWellFormed(records[1..]) by {
          assert forall k | 0 < k < |records| :: records[k] == records[1..][k - 1];
          assert forall k | 0 <= k < |records[1..]| :: records[1..][k] == records[k + 1];
        }
        if Walk(rest).Some? {
          assert Walk(bytes) == Some([head] + Walk(rest).value);
          assert ([head] + Walk(rest).value)[1..] == Walk(rest).value;
          assert [head] + records[1..] == records;
        }
      }
    }
  }

  /** A record as the writers lay it out; the length byte is truncated to a `u8`. */
  function Record(descType: byte, payload: seq<byte>): seq<byte> {
    [(|payload| + 2) % 0x100, descType] + payload
  }

  /** A callback that writes all it reports, and reports no more than its slice can ever hold. */
  predicate Honest(f: Callback, room: nat) {
    f.count.Ok? ==> f.count.value <= |f.data| && f.count.value <= room
  }

  /** The bytes it reports; it may have written more. */
  function Payload(f: Callback): seq<byte> {
    if f.count.Ok? && f.count.value <= |f.data| then f.data[..f.count.value] else f.data
  }

  predicate HonestEntry(e: Entry) {
    match e
    case Endpoint(_, _, _, _, extra) => Honest(extra, 249)
    case CustomWith(_, f) => Honest(f, 254)
    case Ignoring(_) => false
    case _ => true
  }

  /** What has been written so far. */
  function Written(w: Writer): seq<byte>
    requires w.position <= |w.buf|
  {
    w.buf[..w.position]
  }

  /** What a successful `write_with` does to the buffer, byte for byte. */
  lemma WriteWithBytes(w: Writer, descType: byte, f: Callback)
    requires WriteWith(w, descType, f).status.Good? && Honest(f, 254)
    ensures w.position + 2 + |Payload(f)| <= DataEnd(w) <= |w.buf|
    ensures var v := WriteWith(w, descType, f).w;
            var head: seq<byte> := Scribbled(w, f.data)[w.position := (|Payload(f)| + 2) % 0x100];
            && v.buf == head[w.position + 1 := descType]
            && v == w.(buf := v.buf, position := w.position + |Payload(f)| + 2)
  {
    hide Scribbled;
  }

  /** A successful `write_with` appends one record and leaves the marks and the rest alone. */
  lemma WriteWithAppends(w: Writer, descType: byte, f: Callback)
    requires WriteWith(w, descType, f).status.Good? && Honest(f, 254)
    ensures var v := WriteWith(w, descType, f).w;
            && w.position <= |w.buf| == |v.buf| && v.position <= |v.buf|
            && v == w.(buf := v.buf, position := v.position)
            && Written(v) == Written(w) + Record(descType, Payload(f))
            && v.position == w.position + |Payload(f)| + 2
  {
    WriteWithBytes(w, descType, f);
    assert f.count.Ok? && Payload(f) == f.data[..f.count.value];
    hide WriteWith, Scribbled, DataEnd, Overlay, Payload;
    var n := |Payload(f)|;
    ScribbledPrefix(w, f.data, n);
    HeaderThenData(Scribbled(w, f.data), w.position, (n + 2) % 0x100, descType, Payload(f));
  }

  /** The callback's bytes sit after the two header bytes; what was written before is untouched. */
  lemma ScribbledPrefix(w: Writer, data: seq<byte>, n: nat)
    requires n <= |data| && w.position + 2 + n <= DataEnd(w)
    ensures var s := Scribbled(w, data);
            s[..w.position] == w.buf[..w.position] && s[w.position + 2..w.position + 2 + n] == data[..n]
  {
    var start, end := w.position + 2, DataEnd(w);
    var slice, s := w.buf[start..end], Scribbled(w, data);
    assert Overlay(slice, data)[..n] == data[..n];
    assert s[start..end] == Overlay(slice, data);
    assert s[start..start + n] == s[start..end][..n];
  }

  lemma HeaderThenData(s: seq<byte>, at: nat, first: byte, second: byte, data: seq<byte>)
    requires at + 2 + |data| <= |s| && s[at + 2..at + 2 + |data|] == data
    ensures s[at := first][at + 1 := second][..at + 2 + |data|] == s[..at] + ([first, second] + data)
  {
    var v := s[at := first][at + 1 := second];
    assert v[at + 2..at + 2 + |data|] == data;
    assert v[..at] == s[..at];
  }

  lemma WriteAppends(w: Writer, descType: byte, data: seq<byte>)
    requires Write(w, descType, data).status.Good?
    ensures var v := Write(w, descType, data).w;
            && w.position <= |w.buf| == |v.buf| && v.position <= |v.buf|
            && v == w.(buf := v.buf, position := v.position)
            && Written(v) == Written(w) + Record(descType, data)
            && v.position == w.position + |data| + 2
            && |data| <= 254
  {
    var f := Callback(data, Ok(|data|));
    assert Payload(f) == data;
    WriteWithAppends(w, descType, f);
  }

  /** Adds `k` at a mark inside what is written. */
  function Add(s: seq<byte>, mark: Option<nat>, k: nat): seq<byte> {
    if mark.Some? && mark.value < |s| && s[mark.value] + k < 256 then s[mark.value := s[mark.value] + k] else s
  }

  /** Endpoint calls before the next interface call. */
  function Endpoints(entries: seq<Entry>): nat {
    if entries == [] || entries[0].Interface? then 0
    else (if entries[0].Endpoint? then 1 else 0) + Endpoints(entries[1..])
  }

  /** Interface calls with the default alternate setting. */
  function Interfaces(entries: seq<Entry>): nat {
    if entries == [] then 0
    else (if entries[0].Interface? && entries[0].alt == 0 then 1 else 0) + Interfaces(entries[1..])
  }

  /** The record of one entry; an interface's endpoint count is that of the entries after it. */
  function EntryRecord(e: Entry, rest: seq<Entry>, iads: bool): seq<seq<byte>> {
    match e
    case Iad(_, _, _, _, _, _) => if iads then [Record(IAD, IadBytes(e))] else []
    case Interface(_, _, _, _, _, _) => [Record(INTERFACE, InterfaceBytes(e, Endpoints(rest) % 0x100))]
    case Endpoint(_, _, _, _, _) => [Record(ENDPOINT, EndpointBytes(e) + Payload(e.extra))]
    case Custom(t, d) => [Record(t, d)]
    case CustomWith(t, f) => [Record(t, Payload(f))]
    case Ignoring(_) => []
  }

  function Records(entries: seq<Entry>, iads: bool): seq<seq<byte>> {
    if entries == [] then [] else EntryRecord(entries[0], entries[1..], iads) + Records(entries[1..], iads)
  }

  /** Marks point into what is written, the endpoint counter past the interface counter. */
  ghost predicate Marked(w: Writer) {
    && w.position <= |w.buf|
    && (w.ifMark.Some? ==> w.ifMark.value < w.position)
    && (w.epMark.Some? ==> w.epMark.value < w.position && (w.ifMark.Some? ==> w.ifMark.value < w.epMark.value))
  }

  /** From `w`, the entries have been put and the writer is `v`. */
  ghost predicate Printed(w: Writer, v: Writer, entries: seq<Entry>) {
    && Marked(w) && Marked(v)
    && |v.buf| == |w.buf| && v.ifMark == w.ifMark && v.iads == w.iads
    && (Endpoints(entries) > 0 ==> w.epMark.Some? && w.buf[w.epMark.value] + Endpoints(entries) < 256)
    && (Interfaces(entries) > 0 ==> w.ifMark.Some? && w.buf[w.ifMark.value] + Interfaces(entries) < 256)
    && Written(v) == Add(Add(Written(w), w.ifMark, Interfaces(entries)), w.epMark, Endpoints(entries))
                     + Flatten(Records(entries, w.iads))
  }

  lemma AddPrefix(s: seq<byte>, t: seq<byte>, mark: Option<nat>, k: nat)
    requires mark.Some? ==> mark.value < |s|
    ensures Add(s + t, mark, k) == Add(s, mark, k) + t
  {
  }

  lemma AddInside(s: seq<byte>, t: seq<byte>, mark: nat, k: nat)
    requires mark < |t|
    ensures Add(s + t, Some(|s| + mark), k) == s + Add(t, Some(mark), k)
  {
  }

  /** Additions at the same mark add up; at different marks they commute. */
  lemma AddTwice(s: seq<byte>, mark: Option<nat>, j: nat, k: nat)
    requires mark.Some? && mark.value < |s| ==> s[mark.value] + j + k < 256
    ensures Add(Add(s, mark, j), mark, k) == Add(s, mark, j + k)
  {
  }

  lemma AddCommutes(s: seq<byte>, a: Option<nat>, j: nat, b: Option<nat>, k: nat)
    requires a.Some? && b.Some? ==> a != b
    ensures Add(Add(s, a, j), b, k) == Add(Add(s, b, k), a, j)
  {
  }

  lemma AddNothing(s: seq<byte>, mark: Option<nat>)
    ensures Add(s, mark, 0) == s
  {
  }

  lemma FlattenHead(a: seq<byte>, rest: seq<seq<byte>>)
    ensures Flatten([a] + rest) == a + Flatten(rest)
  {
    assert ([a] + rest)[1..] == rest;
  }

  /** Entries that count for nothing: one record, or none. */
  lemma PlainThen(w: Writer, v: Writer, x: Writer, e: Entry, rest: seq<Entry>)
    requires !e.Interface? && !e.Endpoint?
    requires Marked(w) && v == w.(buf := v.buf, position := v.position) && |v.buf| == |w.buf|
    requires w.position <= v.position <= |v.buf| && Written(v) == Written(w) + Flatten(EntryRecord(e, rest, w.iads))
    requires Printed(v, x, rest)
    ensures Printed(w, x, [e] + rest)
  {
    var r := Flatten(EntryRecord(e, rest, w.iads));
    var all := [e] + rest;
    assert all[1..] == rest;
    assert w.epMark.Some? ==> v.buf[w.epMark.value] == Written(v)[w.epMark.value] == Written(w)[w.epMark.value];
    assert w.ifMark.Some? ==> v.buf[w.ifMark.value] == Written(v)[w.ifMark.value] == Written(w)[w.ifMark.value];
    AddPrefix(Written(w), r, w.ifMark, Interfaces(rest));
    AddPrefix(Add(Written(w), w.ifMark, Interfaces(rest)), r, w.epMark, Endpoints(rest));
    FlattenAppend(EntryRecord(e, rest, w.iads), Records(rest, w.iads));
    var counted := Add(Add(Written(w), w.ifMark, Interfaces(rest)), w.epMark, Endpoints(rest));
    Assoc(counted, r, Flatten(Records(rest, w.iads)));
  }

  /** What the records and counters of a list are, from its first entry. */
  lemma RecordsHead(e: Entry, rest: seq<Entry>, iads: bool)
    ensures var all := [e] + rest;
            && Flatten(Records(all, iads)) == Flatten(EntryRecord(e, rest, iads)) + Flatten(Records(rest, iads))
            && Endpoints(all) == (if e.Interface? then 0 else (if e.Endpoint? then 1 else 0) + Endpoints(rest))
            && Interfaces(all) == (if e.Interface? && e.alt == 0 then 1 else 0) + Interfaces(rest)
  {
    assert ([e] + rest)[1..] == rest;
    FlattenAppend(EntryRecord(e, rest, iads), Records(rest, iads));
  }

  /** A byte at a mark inside the first block. */
  lemma MarkByte(v: Writer, s: seq<byte>, r: seq<byte>, m: nat)
    requires v.position <= |v.buf| && Written(v) == s + r && m < |s|
    ensures m < v.position && v.buf[m] == s[m]
  {
    assert Written(v)[m] == s[m];
  }

  /** A byte of the second block. */
  lemma SecondByte(v: Writer, s: seq<byte>, r: seq<byte>, m: nat)
    requires v.position <= |v.buf| && Written(v) == s + r && |s| <= m < |s| + |r|
    ensures m < v.position && v.buf[m] == r[m - |s|]
  {
    assert Written(v)[m] == r[m - |s|];
  }

  lemma EndpointBlock(s: seq<byte>, ifMark: Option<nat>, ep: nat, i: nat, n: nat, r: seq<byte>, rest: seq<byte>)
    requires ep < |s| && s[ep] + 1 + n < 256
    requires ifMark.Some? ==> ifMark.value < |s| && ifMark.value != ep
    ensures Add(Add(Add(s, Some(ep), 1) + r, ifMark, i), Some(ep), n) + rest
         == Add(Add(s, ifMark, i), Some(ep), 1 + n) + (r + rest)
  {
    AddPrefix(Add(s, Some(ep), 1), r, ifMark, i);
    AddPrefix(Add(Add(s, Some(ep), 1), ifMark, i), r, Some(ep), n);
    AddCommutes(s, Some(ep), 1, ifMark, i);
    AddTwice(Add(s, ifMark, i), Some(ep), 1, n);
    Assoc(Add(Add(s, ifMark, i), Some(ep), 1 + n), r, rest);
  }

  lemma EndpointThen(w: Writer, v: Writer, x: Writer, e: Entry, rest: seq<Entry>)
    requires e.Endpoint? && w.epMark.Some? && Marked(w) && w.buf[w.epMark.value] < 255
    requires v == w.(buf := v.buf, position := v.position) && |v.buf| == |w.buf|
    requires w.position <= v.position <= |v.buf|
    requires Written(v) == Add(Written(w), w.epMark, 1) + Flatten(EntryRecord(e, rest, w.iads))
    requires Printed(v, x, rest)
    ensures Printed(w, x, [e] + rest)
  {
    RecordsHead(e, rest, w.iads);
    var r := Flatten(EntryRecord(e, rest, w.iads));
    hide EntryRecord, Records, Flatten, Endpoints, Interfaces;
    var ep := w.epMark.value;
    var s1 := Add(Written(w), w.epMark, 1);
    MarkByte(v, s1, r, ep);
    if w.ifMark.Some? { MarkByte(v, s1, r, w.ifMark.value); }
    EndpointBlock(Written(w), w.ifMark, ep, Interfaces(rest), Endpoints(rest), r, Flatten(Records(rest, w.iads)));
  }

  lemma InterfaceBlock(s: seq<byte>, ifMark: Option<nat>, epMark: Option<nat>, a: nat, i: nat, n: nat,
                       r: seq<byte>, done: seq<byte>, rest: seq<byte>)
    requires ifMark.Some? ==> ifMark.value < |s| && s[ifMark.value] + a + i < 256
    requires |r| == 9 && Add(r, Some(4), n) == done
    ensures Add(Add(Add(s, ifMark, a) + r, ifMark, i), Some(|s| + 4), n) + rest
         == Add(Add(s, ifMark, a + i), epMark, 0) + (done + rest)
  {
    AddPrefix(Add(s, ifMark, a), r, ifMark, i);
    AddTwice(s, ifMark, a, i);
    var s2 := Add(s, ifMark, a + i);
    AddInside(s2, r, 4, n);
    AddNothing(s2, epMark);
    Assoc(s2, done, rest);
  }

  lemma InterfaceThen(w: Writer, v: Writer, x: Writer, e: Entry, rest: seq<Entry>)
    requires e.Interface? && Marked(w)
    requires e.alt == 0 ==> w.ifMark.Some? && w.buf[w.ifMark.value] < 255
    requires v == w.(buf := v.buf, position := v.position, epMark := Some(w.position + 4)) && |v.buf| == |w.buf|
    requires v.position == w.position + 9 <= |v.buf|
    requires Written(v) == Add(Written(w), w.ifMark, if e.alt == 0 then 1 else 0)
                           + Record(INTERFACE, InterfaceBytes(e, 0))
    requires Printed(v, x, rest)
    ensures Printed(w, x, [e] + rest)
  {
    hide EntryRecord, Records, Flatten, Endpoints, Interfaces, Record, InterfaceBytes;
    var a := if e.alt == 0 then 1 else 0;
    var n := Endpoints(rest);
    var r, done := Record(INTERFACE, InterfaceBytes(e, 0)), Record(INTERFACE, InterfaceBytes(e, n % 0x100));
    RecordsHead(e, rest, w.iads);
    InterfaceRecord(e, rest, w.iads);
    var s1 := Add(Written(w), w.ifMark, a);
    if w.ifMark.Some? { MarkByte(v, s1, r, w.ifMark.value); }
    SecondByte(v, s1, r, w.position + 4);
    InterfaceCount(e, n);
    hide Add;
    InterfaceBlock(Written(w), w.ifMark, w.epMark, a, Interfaces(rest), n, r, done, Flatten(Records(rest, w.iads)));
  }

  lemma InterfaceRecord(e: Entry, rest: seq<Entry>, iads: bool)
    requires e.Interface?
    ensures Flatten(EntryRecord(e, rest, iads)) == Record(INTERFACE, InterfaceBytes(e, Endpoints(rest) % 0x100))
    ensures var r := Record(INTERFACE, InterfaceBytes(e, 0)); |r| == 9 && r[4] == 0
  {
    FlattenOne(Record(INTERFACE, InterfaceBytes(e, Endpoints(rest) % 0x100)));
  }

  lemma InterfaceCount(e: Entry, n: nat)
    requires e.Interface? && n < 256
    ensures Add(Record(INTERFACE, InterfaceBytes(e, 0)), Some(4), n) == Record(INTERFACE, InterfaceBytes(e, n % 0x100))
  {
    var r := Record(INTERFACE, InterfaceBytes(e, 0));
    assert r[4] == 0;
  }

  lemma PutPlain(w: Writer, e: Entry, rest: seq<Entry>)
    requires Marked(w) && HonestEntry(e) && Put(w, e).status.Good? && !e.Interface? && !e.Endpoint?
    ensures var v := Put(w, e).w;
            && v == w.(buf := v.buf, position := v.position) && |v.buf| == |w.buf|
            && w.position <= v.position <= |v.buf|
            && Written(v) == Written(w) + Flatten(EntryRecord(e, rest, w.iads))
  {
    hide Write, WriteWith, Record, IadBytes;
    match e
    case Iad(_, _, _, _, _, _) =>
      if w.iads {
        WriteAppends(w, IAD, IadBytes(e));
        FlattenOne(Record(IAD, IadBytes(e)));
      } else {
        assert Written(w) + [] == Written(w);
      }
    case Custom(t, d) =>
      WriteAppends(w, t, d);
      FlattenOne(Record(t, d));
    case CustomWith(t, f) =>
      WriteWithAppends(w, t, f);
      FlattenOne(Record(t, Payload(f)));
  }

  lemma PutEndpoint(w: Writer, e: Entry, rest: seq<Entry>)
    requires Marked(w) && HonestEntry(e) && Put(w, e).status.Good? && e.Endpoint?
    ensures var v := Put(w, e).w;
            && w.epMark.Some? && w.buf[w.epMark.value] < 255
            && v == w.(buf := v.buf, position := v.position) && |v.buf| == |w.buf|
            && w.position <= v.position <= |v.buf|
            && Written(v) == Add(Written(w), w.epMark, 1) + Flatten(EntryRecord(e, rest, w.iads))
  {
    hide WriteWith, Record, EndpointBytes;
    var b := Bumped(w, w.epMark.value).value;
    assert Written(b) == Add(Written(w), w.epMark, 1);
    var f := EndpointCallback(e, Available(b));
    assert Put(w, e) == WriteWith(b, ENDPOINT, f);
    assert f.count.Ok? by {
      if f.count.Err? { BadCallback(b, ENDPOINT, f); }
    }
    assert |EndpointBytes(e)| == 5 by { EndpointBytesLength(e); }
    WriteWithAppends(b, ENDPOINT, f);
    assert Payload(f) == EndpointBytes(e) + Payload(e.extra);
    FlattenOne(Record(ENDPOINT, EndpointBytes(e) + Payload(e.extra)));
  }

  lemma EndpointBytesLength(e: Entry)
    requires e.Endpoint?
    ensures |EndpointBytes(e)| == 5
  {
  }

  lemma BadCallback(w: Writer, descType: byte, f: Callback)
    requires f.count.Err?
    ensures !WriteWith(w, descType, f).status.Good?
  {
  }

  lemma PutInterface(w: Writer, e: Entry)
    requires Marked(w) && Put(w, e).status.Good? && e.Interface?
    ensures var v := Put(w, e).w;
            && (e.alt == 0 ==> w.ifMark.Some? && w.buf[w.ifMark.value] < 255)
            && v == w.(buf := v.buf, position := v.position, epMark := Some(w.position + 4)) && |v.buf| == |w.buf|
            && v.position == w.position + 9 <= |v.buf|
            && Written(v) == Add(Written(w), w.ifMark, if e.alt == 0 then 1 else 0)
                             + Record(INTERFACE, InterfaceBytes(e, 0))
  {
    hide Write, Record, InterfaceBytes;
    var b := if e.alt == 0 then Bumped(w, w.ifMark.value).value else w;
    assert Written(b) == Add(Written(w), w.ifMark, if e.alt == 0 then 1 else 0) by {
      AddNothing(Written(w), w.ifMark);
    }
    var c := b.(epMark := Some(b.position + 4));
    assert Put(w, e) == Write(c, INTERFACE, InterfaceBytes(e, 0));
    WriteAppends(c, INTERFACE, InterfaceBytes(e, 0));
    assert |InterfaceBytes(e, 0)| == 7 by { InterfaceBytesLength(e); }
  }

  lemma InterfaceBytesLength(e: Entry)
    requires e.Interface?
    ensures |InterfaceBytes(e, 0)| == 7
  {
  }

  /** One entry, then the others. */
  lemma PutThen(w: Writer, e: Entry, rest: seq<Entry>, x: Writer)
    requires Marked(w) && HonestEntry(e) && Put(w, e).status.Good? && Printed(Put(w, e).w, x, rest)
    ensures Printed(w, x, [e] + rest)
  {
    var v := Put(w, e).w;
    hide Put, Printed;
    if e.Endpoint? {
      PutEndpoint(w, e, rest);
      EndpointThen(w, v, x, e, rest);
    } else if e.Interface? {
      PutInterface(w, e);
      InterfaceThen(w, v, x, e, rest);
    } else {
      PutPlain(w, e, rest);
      PlainThen(w, v, x, e, rest);
    }
  }

  lemma PutMarked(w: Writer, e: Entry)
    requires Marked(w) && HonestEntry(e) && Put(w, e).status.Good?
    ensures Marked(Put(w, e).w)
  {
    hide Put, Record, EntryRecord;
    if e.Endpoint? {
      PutEndpoint(w, e, []);
    } else if e.Interface? {
      PutInterface(w, e);
    } else {
      PutPlain(w, e, []);
    }
  }

  ghost predicate HonestAll(entries: seq<Entry>) {
    forall k | 0 <= k < |entries| :: HonestEntry(entries[k])
  }

  /**
   * One class. Any sequence of successful calls leaves exactly its records after what was there,
   * with every counter, the earlier interface's included, at the number of calls it counts.
   */
  lemma {:induction false} ClassPrinted(w: Writer, entries: seq<Entry>)
    requires Marked(w) && HonestAll(entries) && PutAll(w, entries).status.Good?
    ensures Printed(w, PutAll(w, entries).w, entries)
    decreases |entries|
  {
    if entries == [] {
      AddNothing(Written(w), w.ifMark);
      AddNothing(Written(w), w.epMark);
      assert Written(w) + [] == Written(w);
    } else {
      var e, rest := entries[0], entries[1..];
      assert HonestEntry(e);
      assert HonestAll(rest) by { assert forall k | 0 <= k < |rest| :: rest[k] == entries[k + 1]; }
      PutMarked(w, e);
      ClassPrinted(Put(w, e).w, rest);
      PutThen(w, e, rest, PutAll(w, entries).w);
      assert [e] + rest == entries;
    }
  }

  /** Every interface's endpoint count fits its byte. */
  ghost predicate CountsFit(entries: seq<Entry>) {
    forall k | 0 <= k < |entries| && entries[k].Interface? :: Endpoints(entries[k + 1..]) < 256
  }

  lemma {:induction false} ClassCountsFit(w: Writer, entries: seq<Entry>)
    requires Marked(w) && HonestAll(entries) && PutAll(w, entries).status.Good?
    ensures CountsFit(entries)
    decreases |entries|
  {
    if entries != [] {
      var e, rest := entries[0], entries[1..];
      var v := Put(w, e).w;
      assert HonestEntry(e);
      assert HonestAll(rest) by { assert forall k | 0 <= k < |rest| :: rest[k] == entries[k + 1]; }
      PutMarked(w, e);
      ClassCountsFit(v, rest);
      ClassPrinted(v, rest);
      hide Put, PutAll, Endpoints, Printed, Marked;
      forall k | 0 <= k < |entries| && entries[k].Interface? ensures Endpoints(entries[k + 1..]) < 256 {
        if k > 0 {
          assert rest[k - 1].Interface? && entries[k + 1..] == rest[k - 1 + 1..];
        } else {
          EndpointsFit(v, PutAll(v, rest).w, rest);
        }
      }
    }
  }

  lemma EndpointsFit(v: Writer, x: Writer, rest: seq<Entry>)
    requires Printed(v, x, rest)
    ensures Endpoints(rest) < 256
  {
  }

  ghost predicate HonestClasses(classes: seq<seq<Entry>>) {
    forall k | 0 <= k < |classes| :: HonestAll(classes[k])
  }

  function AllRecords(classes: seq<seq<Entry>>, iads: bool): seq<seq<byte>> {
    if classes == [] then [] else Records(classes[0], iads) + AllRecords(classes[1..], iads)
  }

  function AllInterfaces(classes: seq<seq<Entry>>): nat {
    if classes == [] then 0 else Interfaces(classes[0]) + AllInterfaces(classes[1..])
  }

  /** All the classes' records have been put after `w`, and its interface counter moved on. */
  ghost predicate ClassesPrinted(w: Writer, v: Writer, classes: seq<seq<Entry>>) {
    && Marked(v)
    && w.ifMark.Some? && w.ifMark.value < w.position
    && |v.buf| == |w.buf| && w.position <= |w.buf|
    && w.buf[w.ifMark.value] + AllInterfaces(classes) < 256
    && Written(v) == Add(Written(w), w.ifMark, AllInterfaces(classes)) + Flatten(AllRecords(classes, w.iads))
  }

  lemma ClassThen(w: Writer, v: Writer, x: Writer, class0: seq<Entry>, classes: seq<seq<Entry>>)
    requires w.epMark.None? && w.ifMark.Some? && Printed(w, v, class0) && ClassesPrinted(EndClass(v), x, classes)
    ensures ClassesPrinted(w, x, [class0] + classes)
  {
    var all := [class0] + classes;
    var i, j, m := Interfaces(class0), AllInterfaces(classes), w.ifMark.value;
    var r, rest := Flatten(Records(class0, w.iads)), Flatten(AllRecords(classes, w.iads));
    assert AllInterfaces(all) == i + j && Flatten(AllRecords(all, w.iads)) == r + rest by {
      assert all[1..] == classes;
      FlattenAppend(Records(class0, w.iads), AllRecords(classes, w.iads));
    }
    hide Records, AllRecords, Flatten, Interfaces, AllInterfaces;
    var s1 := Add(Written(w), w.ifMark, i);
    assert Written(v) == s1 + r by { AddNothing(s1, w.epMark); }
    assert s1[m] == w.buf[m] + i by { AddNothing(Written(w), w.ifMark); }
    MarkByte(v, s1, r, m);
    hide Printed;
    TwoBlocks(Written(w), w.ifMark, i, r, j, rest);
  }

  lemma TwoBlocks(s: seq<byte>, mark: Option<nat>, i: nat, r: seq<byte>, j: nat, rest: seq<byte>)
    requires mark.Some? && mark.value < |s| && s[mark.value] + i + j < 256
    ensures Add(Add(s, mark, i) + r, mark, j) + rest == Add(s, mark, i + j) + (r + rest)
  {
    AddPrefix(Add(s, mark, i), r, mark, j);
    AddTwice(s, mark, i, j);
    Assoc(Add(s, mark, i + j), r, rest);
  }

  lemma {:induction false} PutClassesPrinted(w: Writer, classes: seq<seq<Entry>>)
    requires Marked(w) && w.epMark.None? && w.ifMark.Some? && HonestClasses(classes)
    requires PutClasses(w, classes).status.Good?
    ensures ClassesPrinted(w, PutClasses(w, classes).w, classes)
    decreases |classes|
  {
    if classes == [] {
      AddNothing(Written(w), w.ifMark);
      assert Written(w) + [] == Written(w);
    } else {
      assert HonestAll(classes[0]);
      ClassPrinted(w, classes[0]);
      var v := PutAll(w, classes[0]).w;
      assert HonestClasses(classes[1..]) by {
        assert forall k | 0 <= k < |classes[1..]| :: classes[1..][k] == classes[k + 1];
      }
      PutClassesPrinted(EndClass(v), classes[1..]);
      ClassThen(w, v, PutClasses(w, classes).w, classes[0], classes[1..]);
      assert [classes[0]] + classes[1..] == classes;
    }
  }

  lemma {:induction false} ClassesCountsFit(w: Writer, classes: seq<seq<Entry>>)
    requires Marked(w) && w.epMark.None? && w.ifMark.Some? && HonestClasses(classes)
    requires PutClasses(w, classes).status.Good?
    ensures forall k | 0 <= k < |classes| :: CountsFit(classes[k])
    decreases |classes|
  {
    if classes != [] {
      assert HonestAll(classes[0]);
      ClassCountsFit(w, classes[0]);
      ClassPrinted(w, classes[0]);
      var rest := classes[1..];
      assert forall k | 0 <= k < |rest| :: rest[k] == classes[k + 1];
      ClassesCountsFit(EndClass(PutAll(w, classes[0]).w), rest);
      forall k | 0 <= k < |classes| ensures CountsFit(classes[k]) {
        if k > 0 { assert classes[k] == rest[k - 1]; }
      }
    }
  }

  /** The configuration descriptor itself, with its length and interface count filled in. */
  function ConfigHeader(c: Config, total: u16, interfaces: byte): seq<byte> {
    [9, CONFIGURATION] + LittleEndian(total) + [interfaces, 1, 0, Attributes(c), c.maxPower]
  }

  /** The same before its counters are patched. */
  function BlankConfig(c: Config): seq<byte> {
    Record(CONFIGURATION, [0, 0, 0, 1, 0, Attributes(c), c.maxPower])
  }

  /** Everything a GET_DESCRIPTOR(CONFIGURATION) should return. */
  function ConfigRecords(c: Config, classes: seq<seq<Entry>>, position: nat): seq<seq<byte>> {
    [ConfigHeader(c, position % 0x1_0000, AllInterfaces(classes) % 0x100)] + AllRecords(classes, c.composite)
  }

  lemma HeaderPatched(c: Config, interfaces: nat, total: u16, rest: seq<byte>)
    requires interfaces < 256
    ensures var r := BlankConfig(c);
            var s := Add(r, Some(4), interfaces) + rest;
            s[..2] + LittleEndian(total) + s[4..] == ConfigHeader(c, total, interfaces) + rest
  {
    var r := BlankConfig(c);
    assert r[4] == 0;
  }

  lemma ConfigurationWritten(buf: seq<byte>, c: Config)
    requires Configuration(Fresh(buf), c).status.Good?
    ensures var w := Configuration(Fresh(buf), c).w;
            && w.ifMark == Some(4) && w.epMark.None? && w.iads == c.composite
            && w.position == 9 <= |w.buf| == |buf|
            && Written(w) == BlankConfig(c)
            && w.buf[4] == 0
  {
    var start := Fresh(buf).(ifMark := Some(4), iads := c.composite);
    var data := [0, 0, 0, 1, 0, Attributes(c), c.maxPower];
    WriteAppends(start, CONFIGURATION, data);
    var w := Configuration(Fresh(buf), c).w;
    assert Written(start) == [];
    assert [] + Record(CONFIGURATION, data) == Record(CONFIGURATION, data);
    assert w.buf[4] == Written(w)[4];
  }

  lemma BodyPrinted(buf: seq<byte>, c: Config, classes: seq<seq<Entry>>)
    requires HonestClasses(classes) && Configuration(Fresh(buf), c).status.Good?
    requires PutClasses(Configuration(Fresh(buf), c).w, classes).status.Good?
    ensures var body := PutClasses(Configuration(Fresh(buf), c).w, classes).w;
            && 9 <= body.position <= |body.buf| == |buf|
            && AllInterfaces(classes) < 256
            && Written(body) == Add(BlankConfig(c), Some(4), AllInterfaces(classes))
                                + Flatten(AllRecords(classes, c.composite))
  {
    var head := Configuration(Fresh(buf), c).w;
    ConfigurationWritten(buf, c);
    PutClassesPrinted(head, classes);
    hide Configuration, PutClasses, AllRecords, AllInterfaces, Record;
    var body := PutClasses(head, classes).w;
    assert ClassesPrinted(head, body, classes);
    assert |Written(body)| >= |Written(head)|;
  }

  lemma ConfigPrinted(buf: seq<byte>, c: Config, classes: seq<seq<Entry>>)
    requires HonestClasses(classes) && Assemble(buf, c, classes).status.Good?
    ensures var w := Assemble(buf, c, classes).w;
            && w.position <= |w.buf| == |buf|
            && AllInterfaces(classes) < 256
            && Written(w) == Flatten(ConfigRecords(c, classes, w.position))
  {
    hide PutClasses, AllRecords, AllInterfaces, Configuration, ConfigHeader, Record;
    BodyPrinted(buf, c, classes);
    var body := PutClasses(Configuration(Fresh(buf), c).w, classes).w;
    Finished(body, c, AllInterfaces(classes), AllRecords(classes, c.composite));
  }

  /**
   * Configuration descriptor round trip. Whatever the classes write, if every call succeeds the
   * buffer holds exactly the header and their records, in order; wTotalLength is the position
   * modulo 2^16, bNumInterfaces the number of default interfaces, each bNumEndpoints the number
   * of endpoint calls since its interface, and neither count has wrapped; and walking bLength
   * gives the records back exactly when every length byte is right.
   */
  lemma ConfigRoundTrip(buf: seq<byte>, c: Config, classes: seq<seq<Entry>>)
    requires HonestClasses(classes) && Assemble(buf, c, classes).status.Good?
    ensures var w := Assemble(buf, c, classes).w;
            var records := ConfigRecords(c, classes, w.position);
            && w.position <= |w.buf| == |buf|
            && AllInterfaces(classes) < 256
            && (forall k | 0 <= k < |classes| :: CountsFit(classes[k]))
            && Written(w) == Flatten(records)
            && (Walk(Written(w)) == Some(records) <==> AllWellFormed(AllRecords(classes, c.composite)))
  {
    ConfigPrinted(buf, c, classes);
    ConfigurationWritten(buf, c);
    ClassesCountsFit(Configuration(Fresh(buf), c).w, classes);
    var w := Assemble(buf, c, classes).w;
    hide Assemble, AllRecords, ConfigHeader, Walk, AllWellFormed, Flatten;
    WalkIff(ConfigRecords(c, classes, w.position));
    HeaderWellFormed(c, w.position % 0x1_0000, AllInterfaces(classes), AllRecords(classes, c.composite));
  }

  /** The last patch, over a finished body. */
  lemma Finished(body: Writer, c: Config, n: nat, rest: seq<seq<byte>>)
    requires 9 <= body.position <= |body.buf| && n < 256
    requires Written(body) == Add(BlankConfig(c), Some(4), n) + Flatten(rest)
    ensures Written(EndConfiguration(body).w) == Flatten([ConfigHeader(c, body.position % 0x1_0000, n)] + rest)
  {
    var total := body.position % 0x1_0000;
    PatchedPrefix(body.buf, body.position, LittleEndian(total));
    HeaderPatched(c, n, total, Flatten(rest));
    FlattenHead(ConfigHeader(c, total, n), rest);
  }

  lemma PatchedPrefix(buf: seq<byte>, position: nat, patch: seq<byte>)
    requires 4 <= position <= |buf| && |patch| == 2
    ensures (buf[..2] + patch + buf[4..])[..position] == buf[..position][..2] + patch + buf[..position][4..]
  {
  }

  lemma HeaderWellFormed(c: Config, total: u16, n: byte, rest: seq<seq<byte>>)
    ensures AllWellFormed([ConfigHeader(c, total, n)] + rest) <==> AllWellFormed(rest)
  {
    var all := [ConfigHeader(c, total, n)] + rest;
    assert WellFormed(all[0]);
    assert forall k | 0 <= k < |rest| :: all[k + 1] == rest[k];
    if AllWellFormed(rest) {
      forall k | 0 <= k < |all| ensures WellFormed(all[k]) {
        if k > 0 { assert all[k] == rest[k - 1]; }
      }
    }
  }

  /** The record an entry writes is well formed exactly when its payload is not one byte too long. */
  predicate Short(e: Entry) {
    match e
    case Endpoint(_, _, _, _, extra) => |Payload(extra)| <= 248
    case Custom(_, d) => |d| <= 253
    case CustomWith(_, f) => |Payload(f)| <= 253
    case _ => true
  }

  lemma EntryWellFormedIff(e: Entry, rest: seq<Entry>, iads: bool)
    requires match e case Endpoint(_, _, _, _, extra) => |Payload(extra)| <= 249
                     case Custom(_, d) => |d| <= 254
                     case CustomWith(_, f) => |Payload(f)| <= 254
                     case _ => true
    ensures AllWellFormed(EntryRecord(e, rest, iads)) <==> Short(e)
  {
    if EntryRecord(e, rest, iads) != [] {
      assert AllWellFormed(EntryRecord(e, rest, iads)) <==> WellFormed(EntryRecord(e, rest, iads)[0]);
    }
  }

  lemma AllWellFormedAppend(a: seq<seq<byte>>, b: seq<seq<byte>>)
    ensures AllWellFormed(a + b) <==> AllWellFormed(a) && AllWellFormed(b)
  {
    assert forall k | 0 <= k < |a| :: (a + b)[k] == a[k];
    assert forall k | 0 <= k < |b| :: (a + b)[|a| + k] == b[k];
    if AllWellFormed(a) && AllWellFormed(b) {
      forall k | 0 <= k < |a + b| ensures WellFormed((a + b)[k]) {
        if k >= |a| { assert (a + b)[k] == b[k - |a|]; }
      }
    }
  }

  ghost predicate AllShort(entries: seq<Entry>) {
    forall k | 0 <= k < |entries| :: Short(entries[k])
  }

  /** For entries that were put, the length bytes are right exactly when no payload is 254 bytes. */
  lemma {:induction false} RecordsWellFormedIff(w: Writer, entries: seq<Entry>)
    requires Marked(w) && HonestAll(entries) && PutAll(w, entries).status.Good?
    ensures AllWellFormed(Records(entries, w.iads)) <==> AllShort(entries)
    decreases |entries|
  {
    if entries != [] {
      var e, rest := entries[0], entries[1..];
      assert HonestEntry(e);
      assert forall k | 0 <= k < |rest| :: rest[k] == entries[k + 1];
      PutMarked(w, e);
      PutPayload(w, e);
      assert Put(w, e).w.iads == w.iads by {
        if e.Endpoint? {
          PutEndpoint(w, e, []);
        } else if e.Interface? {
          PutInterface(w, e);
        } else {
          PutPlain(w, e, []);
        }
      }
      RecordsWellFormedIff(Put(w, e).w, rest);
      EntryWellFormedIff(e, rest, w.iads);
      AllWellFormedAppend(EntryRecord(e, rest, w.iads), Records(rest, w.iads));
      assert AllShort(entries) <==> Short(e) && AllShort(rest) by {
        if Short(e) && AllShort(rest) {
          forall k | 0 <= k < |entries| ensures Short(entries[k]) {
            if k > 0 { assert entries[k] == rest[k - 1]; }
          }
        }
      }
    }
  }

  lemma PutPayload(w: Writer, e: Entry)
    requires HonestEntry(e) && Put(w, e).status.Good?
    ensures match e case Endpoint(_, _, _, _, extra) => |Payload(extra)| <= 249
                    case Custom(_, d) => |d| <= 254
                    case CustomWith(_, f) => |Payload(f)| <= 254
                    case _ => true
  {
    match e
    case Custom(t, d) => WriteAppends(w, t, d);
    case CustomWith(t, f) =>
      if f.count.Err? { BadCallback(w, t, f); }
    case Endpoint(_, _, _, _, extra) =>
      var b := Bumped(w, w.epMark.value).value;
      var f := EndpointCallback(e, Available(b));
      if f.count.Err? { BadCallback(b, ENDPOINT, f); }
    case _ =>
  }

  ghost predicate ShortClasses(classes: seq<seq<Entry>>) {
    forall k | 0 <= k < |classes| :: AllShort(classes[k])
  }

  lemma {:induction false} ClassesWellFormedIff(w: Writer, classes: seq<seq<Entry>>)
    requires Marked(w) && w.epMark.None? && w.ifMark.Some? && HonestClasses(classes)
    requires PutClasses(w, classes).status.Good?
    ensures AllWellFormed(AllRecords(classes, w.iads)) <==> ShortClasses(classes)
    decreases |classes|
  {
    if classes != [] {
      var first, rest := classes[0], classes[1..];
      assert HonestAll(first);
      assert forall k | 0 <= k < |rest| :: rest[k] == classes[k + 1];
      ClassPrinted(w, first);
      RecordsWellFormedIff(w, first);
      ClassesWellFormedIff(EndClass(PutAll(w, first).w), rest);
      AllWellFormedAppend(Records(first, w.iads), AllRecords(rest, w.iads));
      assert ShortClasses(classes) <==> AllShort(first) && ShortClasses(rest) by {
        if AllShort(first) && ShortClasses(rest) {
          forall k | 0 <= k < |classes| ensures AllShort(classes[k]) {
            if k > 0 { assert classes[k] == rest[k - 1]; }
          }
        }
      }
    }
  }

  /** When the walk works: exactly when no class wrote a 254-byte payload. */
  lemma ConfigWalkIff(buf: seq<byte>, c: Config, classes: seq<seq<Entry>>)
    requires HonestClasses(classes) && Assemble(buf, c, classes).status.Good?
    ensures var w := Assemble(buf, c, classes).w;
            && w.position <= |w.buf|
            && (Walk(Written(w)) == Some(ConfigRecords(c, classes, w.position)) <==> ShortClasses(classes))
  {
    ConfigRoundTrip(buf, c, classes);
    ConfigurationWritten(buf, c);
    ClassesWellFormedIff(Configuration(Fresh(buf), c).w, classes);
  }

  /** It does not work for one record of 254 bytes in a buffer with room for it. */
  lemma LongPayloadBreaksWalk(buf: seq<byte>, c: Config, descType: byte, data: seq<byte>)
    requires |buf| >= 265 && |data| == 254
    ensures var classes := [[Custom(descType, data)]];
            var n := Assemble(buf, c, classes);
            && HonestClasses(classes) && n.status.Good? && n.w.position <= |n.w.buf|
            && Walk(Written(n.w)) != Some(ConfigRecords(c, classes, n.w.position))
  {
    var class0 := [Custom(descType, data)];
    var classes := [class0];
    LongPayloadFits(buf, c, descType, data);
    assert HonestAll(classes[0]);
    ConfigWalkIff(buf, c, classes);
    assert !Short(class0[0]) && !AllShort(classes[0]);
  }

  lemma LongPayloadFits(buf: seq<byte>, c: Config, descType: byte, data: seq<byte>)
    requires |buf| >= 265 && |data| == 254
    ensures Assemble(buf, c, [[Custom(descType, data)]]).status.Good?
  {
    var head := Configuration(Fresh(buf), c);
    assert head.status.Good? && head.w.position == 9 && |head.w.buf| == |buf|;
    hide Configuration;
    var class0 := [Custom(descType, data)];
    var n := Put(head.w, class0[0]);
    assert n.status.Good? && |n.w.buf| == |buf|;
    assert class0[1..] == [] && [class0][1..] == [];
    hide Put;
    assert PutAll(head.w, class0) == PutAll(n.w, []) == n;
    assert PutClasses(head.w, [class0]) == PutClasses(EndClass(n.w), []);
  }
}

/** Exactly when rendering the configuration descriptor succeeds. */
module DescriptorOutcome {
  import opened UsbTypes
  import opened DescriptorModel
  import opened DescriptorRoundTrip

  /** The bytes a call takes. */
  function Size(e: Entry, composite: bool): nat {
    match e
    case Iad(_, _, _, _, _, _) => if composite then 8 else 0
    case Interface(_, _, _, _, _, _) => 9
    case Endpoint(_, _, _, _, extra) => 7 + |Payload(extra)|
    case Custom(_, data) => 2 + |data|
    case CustomWith(_, f) => 2 + |Payload(f)|
    case Ignoring(_) => 0
  }

  function Total(entries: seq<Entry>, composite: bool): nat {
    if entries == [] then 0 else Size(entries[0], composite) + Total(entries[1..], composite)
  }

  function AllTotal(classes: seq<seq<Entry>>, composite: bool): nat {
    if classes == [] then 0 else Total(classes[0], composite) + AllTotal(classes[1..], composite)
  }

  /** The call's own callback returns a count, and plain data is no longer than a descriptor can be. */
  predicate Returns(e: Entry) {
    match e
    case Endpoint(_, _, _, _, extra) => extra.count.Ok?
    case Custom(_, data) => |data| <= 254
    case CustomWith(_, f) => f.count.Ok?
    case _ => true
  }

  ghost predicate AllReturn(entries: seq<Entry>) {
    forall k | 0 <= k < |entries| :: Returns(entries[k])
  }

  lemma WriteGoodIff(w: Writer, descType: byte, data: seq<byte>)
    requires w.position <= |w.buf|
    ensures Write(w, descType, data).status.Good? <==> |data| <= 254 && w.position + 2 + |data| <= |w.buf|
  {
    hide Scribbled;
  }

  lemma WriteWithGoodIff(w: Writer, descType: byte, f: Callback)
    requires w.position <= |w.buf|
    ensures WriteWith(w, descType, f).status.Good? <==> f.count.Ok? && w.position + 2 + f.count.value <= |w.buf|
  {
    hide Scribbled;
  }

  /** Whether one call succeeds. */
  lemma PutGoodIff(w: Writer, e: Entry)
    requires Marked(w) && HonestEntry(e)
    ensures Put(w, e).status.Good? <==>
            && Returns(e) && w.position + Size(e, w.iads) <= |w.buf|
            && (e.Endpoint? ==> w.epMark.Some? && w.buf[w.epMark.value] < 255)
            && (e.Interface? && e.alt == 0 ==> w.ifMark.Some? && w.buf[w.ifMark.value] < 255)
  {
    hide Write, WriteWith, EndpointBytes, IadBytes, InterfaceBytes;
    match e
    case Iad(_, _, _, _, _, _) =>
      WriteGoodIff(w, IAD, IadBytes(e));
      assert |IadBytes(e)| == 6 by { IadBytesLength(e); }
    case Custom(t, d) => WriteGoodIff(w, t, d);
    case CustomWith(t, f) => WriteWithGoodIff(w, t, f);
    case Endpoint(_, _, _, _, extra) =>
      if w.epMark.Some? && w.buf[w.epMark.value] < 255 {
        var b := Bumped(w, w.epMark.value).value;
        WriteWithGoodIff(b, ENDPOINT, EndpointCallback(e, Available(b)));
      }
    case Interface(_, _, _, _, _, _) =>
      assert |InterfaceBytes(e, 0)| == 7 by { InterfaceBytesLength(e); }
      if e.alt != 0 || (w.ifMark.Some? && w.buf[w.ifMark.value] < 255) {
        var b := if e.alt == 0 then Bumped(w, w.ifMark.value).value else w;
        WriteGoodIff(b.(epMark := Some(b.position + 4)), INTERFACE, InterfaceBytes(e, 0));
      }
  }

  /** A call that the writer has no place for. */
  predicate Misplaced(w: Writer, e: Entry) {
    (e.Endpoint? && w.epMark.None?) || (e.Interface? && e.alt == 0 && w.ifMark.None?)
  }

  /** A call that would push a counter past 255. */
  predicate Overflows(w: Writer, e: Entry)
    requires w.epMark.Some? ==> w.epMark.value < |w.buf|
    requires w.ifMark.Some? ==> w.ifMark.value < |w.buf|
  {
    || (e.Endpoint? && w.epMark.Some? && w.buf[w.epMark.value] == 255)
    || (e.Interface? && e.alt == 0 && w.ifMark.Some? && w.buf[w.ifMark.value] == 255)
  }

  /** The call's own callback fails, if the writer gets to it. */
  predicate Fails(w: Writer, e: Entry) {
    match e
    case Endpoint(_, _, _, _, extra) => extra.count.Err? && w.position + 7 <= |w.buf|
    case CustomWith(_, f) => f.count.Err? && w.position + 2 <= |w.buf|
    case _ => false
  }

  /** How one call fails: a counter past 255 is a panic, and of the errors a misplaced call comes first. */
  lemma PutFails(w: Writer, e: Entry)
    requires Marked(w) && HonestEntry(e)
    ensures var status := Put(w, e).status;
            && (status.Panic? <==> Overflows(w, e))
            && (status.Bad? ==>
                  status.error == if Misplaced(w, e) then InvalidState
                                  else if !Fails(w, e) then BufferOverflow
                                  else if e.Endpoint? then e.extra.count.error else e.f.count.error)
  {
    hide Scribbled, EndpointBytes, IadBytes, InterfaceBytes;
  }

  lemma IadBytesLength(e: Entry)
    requires e.Iad?
    ensures |IadBytes(e)| == 6
  {
  }

  /** Where a successful call leaves the position and the counters. */
  ghost predicate Moved(w: Writer, v: Writer, e: Entry) {
    && Marked(v) && |v.buf| == |w.buf| && v.iads == w.iads && v.ifMark == w.ifMark
    && v.position == w.position + Size(e, w.iads)
    && (w.ifMark.Some? ==>
          v.buf[w.ifMark.value] as int == w.buf[w.ifMark.value] as int + if e.Interface? && e.alt == 0 then 1 else 0)
    && (if e.Interface? then v.epMark.Some? && v.buf[v.epMark.value] == 0
        else
          && v.epMark == w.epMark
          && (w.epMark.Some? ==>
                v.buf[w.epMark.value] as int == w.buf[w.epMark.value] as int + if e.Endpoint? then 1 else 0))
  }

  lemma PutMoves(w: Writer, e: Entry)
    requires Marked(w) && HonestEntry(e) && Put(w, e).status.Good?
    ensures Moved(w, Put(w, e).w, e)
  {
    PutMarked(w, e);
    PutGoodIff(w, e);
    if e.Endpoint? {
      EndpointMoves(w, e);
    } else if e.Interface? {
      InterfaceMoves(w, e);
    } else {
      PlainMoves(w, e);
    }
    hide Put;
  }

  lemma PlainMoves(w: Writer, e: Entry)
    requires Marked(w) && HonestEntry(e) && Put(w, e).status.Good? && !e.Interface? && !e.Endpoint?
    ensures Marked(Put(w, e).w) ==> Moved(w, Put(w, e).w, e)
  {
    hide Put, EntryRecord, Flatten, Size, HonestEntry;
    PutPlain(w, e, []);
    var v, r := Put(w, e).w, Flatten(EntryRecord(e, [], w.iads));
    PlainSize(e, w.iads);
    assert |Written(v)| == |Written(w)| + |r|;
    if w.ifMark.Some? { MarkByte(v, Written(w), r, w.ifMark.value); }
    if w.epMark.Some? { MarkByte(v, Written(w), r, w.epMark.value); }
  }

  lemma PlainSize(e: Entry, composite: bool)
    requires HonestEntry(e) && !e.Interface? && !e.Endpoint?
    ensures |Flatten(EntryRecord(e, [], composite))| == Size(e, composite)
  {
    var records := EntryRecord(e, [], composite);
    if records != [] { FlattenOne(records[0]); }
  }

  lemma EndpointMoves(w: Writer, e: Entry)
    requires Marked(w) && HonestEntry(e) && Put(w, e).status.Good? && e.Endpoint?
    ensures Marked(Put(w, e).w) ==> Moved(w, Put(w, e).w, e)
  {
    hide Put, EntryRecord, Flatten, Size, HonestEntry;
    PutEndpoint(w, e, []);
    var v, r := Put(w, e).w, Flatten(EntryRecord(e, [], w.iads));
    EndpointSize(e, w.iads);
    var s := Add(Written(w), w.epMark, 1);
    assert |Written(v)| == |s| + |r|;
    MarkByte(v, s, r, w.epMark.value);
    if w.ifMark.Some? { MarkByte(v, s, r, w.ifMark.value); }
  }

  lemma EndpointSize(e: Entry, composite: bool)
    requires e.Endpoint?
    ensures |Flatten(EntryRecord(e, [], composite))| == Size(e, composite)
  {
    FlattenOne(EntryRecord(e, [], composite)[0]);
  }

  lemma InterfaceMoves(w: Writer, e: Entry)
    requires Marked(w) && Put(w, e).status.Good? && e.Interface?
    ensures Marked(Put(w, e).w) ==> Moved(w, Put(w, e).w, e)
  {
    PutInterface(w, e);
    var v, r := Put(w, e).w, Record(INTERFACE, InterfaceBytes(e, 0));
    assert |r| == 9 && r[4] == 0;
    hide Put, Record, InterfaceBytes;
    var s := Add(Written(w), w.ifMark, if e.alt == 0 then 1 else 0);
    if w.ifMark.Some? { MarkByte(v, s, r, w.ifMark.value); }
    SecondByte(v, s, r, w.position + 4);
  }

  /** Whether a class's calls all succeed, from their sizes and numbers. */
  ghost predicate Fits(w: Writer, entries: seq<Entry>) {
    && AllReturn(entries) && CountsFit(entries)
    && w.position + Total(entries, w.iads) <= |w.buf|
    && (Endpoints(entries) > 0 ==>
          w.epMark.Some? && w.epMark.value < |w.buf| && w.buf[w.epMark.value] + Endpoints(entries) < 256)
    && (Interfaces(entries) > 0 ==>
          w.ifMark.Some? && w.ifMark.value < |w.buf| && w.buf[w.ifMark.value] + Interfaces(entries) < 256)
  }

  lemma CountsFitHead(e: Entry, rest: seq<Entry>)
    ensures CountsFit([e] + rest) <==> (e.Interface? ==> Endpoints(rest) < 256) && CountsFit(rest)
    ensures AllReturn([e] + rest) <==> Returns(e) && AllReturn(rest)
  {
    hide Endpoints, Returns;
    var all := [e] + rest;
    assert all[0] == e && all[0 + 1..] == rest;
    assert forall k | 0 <= k < |rest| :: all[k + 1] == rest[k] && all[k + 1 + 1..] == rest[k + 1..];
    if (e.Interface? ==> Endpoints(rest) < 256) && CountsFit(rest) {
      forall k | 0 <= k < |all| && all[k].Interface? ensures Endpoints(all[k + 1..]) < 256 {
        if k > 0 { assert rest[k - 1] == all[k] && all[k + 1..] == rest[k - 1 + 1..]; }
      }
    }
    if Returns(e) && AllReturn(rest) {
      forall k | 0 <= k < |all| ensures Returns(all[k]) {
        if k > 0 { assert all[k] == rest[k - 1]; }
      }
    }
  }

  lemma FitsHead(w: Writer, v: Writer, e: Entry, rest: seq<Entry>)
    requires Marked(w) && Moved(w, v, e) && Returns(e)
    requires e.Endpoint? ==> w.epMark.Some? && w.buf[w.epMark.value] < 255
    requires e.Interface? && e.alt == 0 ==> w.ifMark.Some? && w.buf[w.ifMark.value] < 255
    ensures Fits(w, [e] + rest) <==> Fits(v, rest)
  {
    var all := [e] + rest;
    assert all[1..] == rest;
    CountsFitHead(e, rest);
    RecordsHead(e, rest, w.iads);
    assert Total(all, w.iads) == Size(e, w.iads) + Total(rest, w.iads);
    hide Size, Returns, CountsFit, AllReturn, Endpoints, Interfaces, Total;
  }

  lemma {:induction false} PutAllGoodIff(w: Writer, entries: seq<Entry>)
    requires Marked(w) && HonestAll(entries)
    ensures PutAll(w, entries).status.Good? <==> Fits(w, entries)
    decreases |entries|
  {
    if entries != [] {
      var e, rest := entries[0], entries[1..];
      assert entries == [e] + rest && HonestEntry(e);
      assert HonestAll(rest) by { assert forall k | 0 <= k < |rest| :: rest[k] == entries[k + 1]; }
      PutGoodIff(w, e);
      if Put(w, e).status.Good? {
        PutMoves(w, e);
        PutAllGoodIff(Put(w, e).w, rest);
        hide Put, Fits;
        FitsHead(w, Put(w, e).w, e, rest);
      } else {
        hide Put, PutAll;
        CountsFitHead(e, rest);
        RecordsHead(e, rest, w.iads);
        assert Total(entries, w.iads) >= Size(e, w.iads);
      }
    }
  }

  lemma {:induction false} PutAllMoves(w: Writer, entries: seq<Entry>)
    requires Marked(w) && HonestAll(entries) && w.ifMark.Some? && PutAll(w, entries).status.Good?
    ensures var v := PutAll(w, entries).w;
            && Marked(v) && |v.buf| == |w.buf| && v.ifMark == w.ifMark && v.iads == w.iads
            && v.position == w.position + Total(entries, w.iads)
            && v.buf[w.ifMark.value] as int == w.buf[w.ifMark.value] as int + Interfaces(entries)
    decreases |entries|
  {
    if entries != [] {
      hide Put, HonestEntry, Size;
      var rest := entries[1..];
      assert HonestEntry(entries[0]);
      assert HonestAll(rest) by { assert forall k | 0 <= k < |rest| :: rest[k] == entries[k + 1]; }
      PutMoves(w, entries[0]);
      PutAllMoves(Put(w, entries[0]).w, rest);
    }
  }

  /** What every class must see to: its callbacks, its endpoint counts, and no endpoint before an interface. */
  ghost predicate Sound(entries: seq<Entry>) {
    AllReturn(entries) && CountsFit(entries) && Endpoints(entries) == 0
  }

  ghost predicate AllSound(classes: seq<seq<Entry>>) {
    forall k | 0 <= k < |classes| :: Sound(classes[k])
  }

  lemma {:induction false} PutClassesGoodIff(w: Writer, classes: seq<seq<Entry>>)
    requires Marked(w) && w.epMark.None? && w.ifMark.Some? && HonestClasses(classes)
    ensures PutClasses(w, classes).status.Good? <==>
            && AllSound(classes)
            && w.position + AllTotal(classes, w.iads) <= |w.buf| && w.buf[w.ifMark.value] + AllInterfaces(classes) < 256
    decreases |classes|
  {
    if classes != [] {
      hide PutAll, CountsFit, Endpoints, Interfaces, HonestAll, Total, AllReturn;
      var first, rest := classes[0], classes[1..];
      assert HonestAll(first);
      assert forall k | 0 <= k < |rest| :: rest[k] == classes[k + 1];
      PutAllGoodIff(w, first);
      assert [first] + rest == classes;
      SoundHead(first, rest);
      if PutAll(w, first).status.Good? {
        PutAllMoves(w, first);
        PutClassesGoodIff(EndClass(PutAll(w, first).w), rest);
      }
    }
  }

  lemma SoundHead(first: seq<Entry>, rest: seq<seq<Entry>>)
    ensures AllSound([first] + rest) <==> Sound(first) && AllSound(rest)
  {
    hide Sound;
    var all := [first] + rest;
    assert all[0] == first && forall k | 0 <= k < |rest| :: all[k + 1] == rest[k];
    if Sound(first) && AllSound(rest) {
      forall k | 0 <= k < |all| ensures Sound(all[k]) {
        if k > 0 { assert all[k] == rest[k - 1]; }
      }
    }
  }

  /**
   * When there is a configuration descriptor, for all buffers and all classes that return errors:
   * exactly when the nine bytes of the header and the bytes of all calls fit the buffer, there are
   * fewer than 256 default interfaces and fewer than 256 endpoints under each interface, no endpoint
   * comes before its class's first interface, and every callback returns.
   */
  lemma ConfigOutcome(buf: seq<byte>, c: Config, classes: seq<seq<Entry>>)
    requires HonestClasses(classes)
    ensures Assemble(buf, c, classes).status.Good? <==>
            && 9 + AllTotal(classes, c.composite) <= |buf|
            && AllInterfaces(classes) < 256 && AllSound(classes)
  {
    var data := [0, 0, 0, 1, 0, Attributes(c), c.maxPower];
    WriteGoodIff(Fresh(buf).(ifMark := Some(4), iads := c.composite), CONFIGURATION, data);
    hide Write, Attributes, AllTotal, AllInterfaces, AllSound, PutClasses;
    if 9 <= |buf| {
      ConfigurationWritten(buf, c);
      PutClassesGoodIff(Configuration(Fresh(buf), c).w, classes);
      if PutClasses(Configuration(Fresh(buf), c).w, classes).status.Good? {
        BodyPrinted(buf, c, classes);
      }
    }
  }
}

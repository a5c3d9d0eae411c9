/** Configuration descriptors of classes that discard an error of the writer and go on. */
module DescriptorErrors {
  import opened UsbTypes
  import opened DescriptorModel
  import opened DescriptorRoundTrip

  /** The call itself, whatever its class does with the error. */
  function Strip(e: Entry): (r: Entry)
    ensures !r.Ignoring?
  {
    match e
    case Ignoring(call) => Strip(call)
    case _ => e
  }

  function StripAll(entries: seq<Entry>): seq<Entry> {
    if entries == [] then [] else [Strip(entries[0])] + StripAll(entries[1..])
  }

  function StripClasses(classes: seq<seq<Entry>>): seq<seq<Entry>> {
    if classes == [] then [] else [StripAll(classes[0])] + StripClasses(classes[1..])
  }

  lemma {:induction false} PutStripped(w: Writer, e: Entry)
    ensures var n := Put(w, Strip(e));
            Put(w, e) == if e.Ignoring? && n.status.Bad? then Next(n.w, Good) else n
    decreases e
  {
    if e.Ignoring? {
      PutStripped(w, e.call);
    }
  }

  /** In the run of these calls, none is refused and its error discarded. */
  ghost predicate NoneDiscarded(w: Writer, entries: seq<Entry>)
    decreases |entries|
  {
    entries == []
    || (&& (entries[0].Ignoring? ==> !Put(w, Strip(entries[0])).status.Bad?)
        && (Put(w, entries[0]).status.Good? ==> NoneDiscarded(Put(w, entries[0]).w, entries[1..])))
  }

  ghost predicate NoneDiscardedIn(w: Writer, classes: seq<seq<Entry>>)
    decreases |classes|
  {
    classes == []
    || (&& NoneDiscarded(w, classes[0])
        && var n := PutAll(w, classes[0]);
           n.status.Good? ==> NoneDiscardedIn(EndClass(n.w), classes[1..]))
  }

  lemma {:induction false} StrippedClassSame(w: Writer, entries: seq<Entry>)
    requires NoneDiscarded(w, entries)
    ensures PutAll(w, entries) == PutAll(w, StripAll(entries))
    decreases |entries|
  {
    if entries != [] {
      hide Put;
      PutStripped(w, entries[0]);
      var n := Put(w, entries[0]);
      assert StripAll(entries)[0] == Strip(entries[0]) && StripAll(entries)[1..] == StripAll(entries[1..]);
      if n.status.Good? {
        StrippedClassSame(n.w, entries[1..]);
      }
    }
  }

  lemma {:induction false} StrippedClassesSame(w: Writer, classes: seq<seq<Entry>>)
    requires NoneDiscardedIn(w, classes)
    ensures PutClasses(w, classes) == PutClasses(w, StripClasses(classes))
    decreases |classes|
  {
    if classes != [] {
      hide PutAll, NoneDiscarded;
      StrippedClassSame(w, classes[0]);
      var n := PutAll(w, classes[0]);
      assert StripClasses(classes)[0] == StripAll(classes[0]);
      assert StripClasses(classes)[1..] == StripClasses(classes[1..]);
      if n.status.Good? {
        StrippedClassesSame(EndClass(n.w), classes[1..]);
      }
    }
  }

  /**
   * Discarding errors changes nothing as long as none is discarded: the descriptor is that of the
   * same classes returning them, so every result about those holds of it.
   */
  lemma DiscardingSame(buf: seq<byte>, c: Config, classes: seq<seq<Entry>>)
    requires NoneDiscardedIn(Configuration(Fresh(buf), c).w, classes)
    ensures Assemble(buf, c, classes) == Assemble(buf, c, StripClasses(classes))
  {
    hide Configuration, PutClasses;
    StrippedClassesSame(Configuration(Fresh(buf), c).w, classes);
  }

  /** Calls for a default interface, refused ones included. */
  function DefaultCalls(entries: seq<Entry>): nat {
    if entries == [] then 0 else (if IsDefault(entries[0]) then 1 else 0) + DefaultCalls(entries[1..])
  }

  predicate IsDefault(e: Entry) {
    Strip(e).Interface? && Strip(e).alt == 0
  }

  function AllDefaultCalls(classes: seq<seq<Entry>>): nat {
    if classes == [] then 0 else DefaultCalls(classes[0]) + AllDefaultCalls(classes[1..])
  }

  /** The configuration header is behind the position, and no endpoint counter is at bNumInterfaces. */
  predicate PastHeader(w: Writer) {
    w.ifMark == Some(4) && 4 < w.position <= |w.buf| && (w.epMark.Some? ==> w.epMark.value > 4)
  }

  /** A write that ends without a panic leaves bNumInterfaces and the marks alone. */
  lemma WriteKeepsCount(w: Writer, descType: byte, f: Callback)
    requires 4 < w.position <= |w.buf|
    ensures var n := WriteWith(w, descType, f);
            && n.w == w.(buf := n.w.buf, position := n.w.position)
            && w.position <= n.w.position <= |n.w.buf| == |w.buf| && n.w.buf[4] == w.buf[4]
  {
    if w.position + 2 <= |w.buf| {
      assert Scribbled(w, f.data)[4] == w.buf[4] by { assert w.buf[..w.position + 2][4] == w.buf[4]; }
      hide Scribbled;
    }
  }

  lemma {:induction false} PutCountsCalls(w: Writer, e: Entry)
    requires PastHeader(w) && !Put(w, e).status.Panic?
    ensures var v := Put(w, e).w;
            && PastHeader(v) && |v.buf| == |w.buf|
            && v.buf[4] as int == w.buf[4] as int + if IsDefault(e) then 1 else 0
    decreases e
  {
    hide WriteWith;
    match e
    case Iad(_, _, _, _, _, _) => WriteCounts(w, IAD, IadBytes(e));
    case Custom(t, d) => WriteCounts(w, t, d);
    case CustomWith(t, f) => WriteKeepsCount(w, t, f);
    case Ignoring(call) => PutCountsCalls(w, call);
    case Endpoint(_, _, _, _, _) =>
      if w.epMark.Some? {
        var b := Bumped(w, w.epMark.value).value;
        WriteKeepsCount(b, ENDPOINT, EndpointCallback(e, Available(b)));
      }
    case Interface(_, _, _, _, _, _) =>
      var b := if e.alt == 0 then Bumped(w, 4).value else w;
      WriteCounts(b.(epMark := Some(b.position + 4)), INTERFACE, InterfaceBytes(e, 0));
      hide Write, InterfaceBytes;
  }

  lemma WriteCounts(w: Writer, descType: byte, data: seq<byte>)
    requires 4 < w.position <= |w.buf|
    ensures var n := Write(w, descType, data);
            && n.w == w.(buf := n.w.buf, position := n.w.position)
            && w.position <= n.w.position <= |n.w.buf| == |w.buf| && n.w.buf[4] == w.buf[4]
  {
    WriteKeepsCount(w, descType,
                    if |data| > Available(w) then Callback([], Err(BufferOverflow)) else Callback(data, Ok(|data|)));
  }

  lemma {:induction false} ClassCountsCalls(w: Writer, entries: seq<Entry>)
    requires PastHeader(w) && PutAll(w, entries).status.Good?
    ensures var v := PutAll(w, entries).w;
            PastHeader(v) && |v.buf| == |w.buf| && v.buf[4] as int == w.buf[4] as int + DefaultCalls(entries)
    decreases |entries|
  {
    if entries != [] {
      hide Put, IsDefault;
      PutCountsCalls(w, entries[0]);
      ClassCountsCalls(Put(w, entries[0]).w, entries[1..]);
    }
  }

  lemma {:induction false} ClassesCountCalls(w: Writer, classes: seq<seq<Entry>>)
    requires PastHeader(w) && PutClasses(w, classes).status.Good?
    ensures var v := PutClasses(w, classes).w;
            PastHeader(v) && |v.buf| == |w.buf| && v.buf[4] as int == w.buf[4] as int + AllDefaultCalls(classes)
    decreases |classes|
  {
    if classes != [] {
      hide PutAll, DefaultCalls;
      ClassCountsCalls(w, classes[0]);
      ClassesCountCalls(EndClass(PutAll(w, classes[0]).w), classes[1..]);
    }
  }

  /**
   * What bNumInterfaces counts, for any classes at all: the calls for a default interface, those
   * refused and discarded included.
   */
  lemma InterfaceCountIsCalls(buf: seq<byte>, c: Config, classes: seq<seq<Entry>>)
    requires Assemble(buf, c, classes).status.Good?
    ensures var w := Assemble(buf, c, classes).w;
            && 4 < w.position <= |w.buf| == |buf|
            && w.buf[4] as int == AllDefaultCalls(classes)
  {
    ConfigurationWritten(buf, c);
    hide Configuration, PutClasses, AllDefaultCalls;
    ClassesCountCalls(Configuration(Fresh(buf), c).w, classes);
  }

  /** A default interface refused for want of room, its error discarded, is counted and not there. */
  lemma RefusedInterfaceCounted(buf: seq<byte>, c: Config, e: Entry)
    requires 9 <= |buf| < 18 && e.Interface? && e.alt == 0
    ensures var n := Assemble(buf, c, [[Ignoring(e)]]);
            && n.status.Good? && n.w.position == 9 <= |n.w.buf|
            && Written(n.w) == ConfigHeader(c, 9, 1)
  {
    var head := Configuration(Fresh(buf), c);
    assert head.status.Good?;
    hide Configuration, Put, ConfigHeader, BlankConfig, EndConfiguration, Flatten;
    ConfigurationWritten(buf, c);
    var class0 := [Ignoring(e)];
    var n := Put(head.w, class0[0]);
    RefusedInterface(head.w, e);
    assert class0[1..] == [] && [class0][1..] == [];
    assert PutAll(head.w, class0) == PutAll(n.w, []) == n;
    assert PutClasses(head.w, [class0]) == PutClasses(EndClass(n.w), []);
    hide PutAll, PutClasses;
    NothingMore(EndClass(n.w), c);
  }

  /** A body with nothing but the patched header, finished. */
  lemma NothingMore(w: Writer, c: Config)
    requires w.position == 9 <= |w.buf| && Written(w) == Add(BlankConfig(c), Some(4), 1)
    ensures var n := EndConfiguration(w);
            n.status.Good? && n.w.position == 9 <= |n.w.buf| && Written(n.w) == ConfigHeader(c, 9, 1)
  {
    hide BlankConfig, ConfigHeader;
    assert Flatten<byte>([]) == [] && Written(w) + [] == Written(w);
    Finished(w, c, 1, []);
    FlattenOne(ConfigHeader(c, 9, 1));
  }

  lemma RefusedInterface(w: Writer, e: Entry)
    requires w.ifMark == Some(4) && w.position == 9 <= |w.buf| < 18 && w.buf[4] == 0 && e.Interface? && e.alt == 0
    ensures var n := Put(w, Ignoring(e));
            && n.status.Good? && n.w.position == 9 && |n.w.buf| == |w.buf|
            && Written(n.w) == Add(Written(w), Some(4), 1)
  {
    var b := Bumped(w, 4).value.(epMark := Some(13));
    assert Written(b) == Add(Written(w), Some(4), 1);
    var data := InterfaceBytes(e, 0);
    assert |data| == 7 by { InterfaceBytesLength(e); }
    var n := Write(b, INTERFACE, data);
    assert n.status.Bad? && n.w.position == 9;
    assert n.w.buf[..9] == b.buf[..9] by {
      if 11 <= |w.buf| { ScribbledPrefix(b, [], 0); }
    }
    hide Write, InterfaceBytes;
  }
}

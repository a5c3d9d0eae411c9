/**
 * A host's reading of descriptors, by the type codes and offsets of sections 9.6.1 to 9.6.7 of USB 2.0,
 * 9.6.2 of USB 3.2 (the Binary Object Store) and the interface association ECN, against what the
 * device and its classes meant.
 */
module DescriptorDecode {
  import opened UsbTypes
  import opened DescriptorModel
  import opened DescriptorRoundTrip
  import opened BosRoundTrip
  import opened GetDescriptor

  datatype Descriptor =
    | DeviceDescriptor(rev: u16, cls: byte, sub: byte, protocol: byte, mps0: byte, vendor: u16, product: u16,
                       release: u16, manufacturerText: byte, productText: byte, serialText: byte, configurations: byte)
    | ConfigurationDescriptor(total: u16, interfaces: byte, value: byte, text: byte, bit7: bool, selfPowered: bool,
                              remoteWakeup: bool, low: byte, maxPower: byte)
    | InterfaceDescriptor(number: byte, alt: byte, endpoints: byte, cls: byte, sub: byte, protocol: byte, text: byte)
    | EndpointDescriptor(address: byte, attributes: byte, mps: u16, interval: byte, extra: seq<byte>)
    | AssociationDescriptor(first: byte, count: byte, cls: byte, sub: byte, protocol: byte, text: byte)
    | BosDescriptor(total: u16, caps: byte)
    | CapabilityDescriptor(capType: byte, data: seq<byte>)
    | OtherDescriptor(descType: byte, data: seq<byte>)

  function Decode(r: seq<byte>): Descriptor
    requires 2 <= |r|
  {
    if r[1] == 1 && |r| == 18 then
      DeviceDescriptor(Word(r[2..4]), r[4], r[5], r[6], r[7], Word(r[8..10]), Word(r[10..12]), Word(r[12..14]),
                       r[14], r[15], r[16], r[17])
    else if r[1] == 2 && |r| == 9 then
      ConfigurationDescriptor(Word(r[2..4]), r[4], r[5], r[6], 0x80 <= r[7], r[7] / 0x40 % 2 == 1,
                              r[7] / 0x20 % 2 == 1, r[7] % 0x20, r[8])
    else if r[1] == 4 && |r| == 9 then InterfaceDescriptor(r[2], r[3], r[4], r[5], r[6], r[7], r[8])
    else if r[1] == 5 && |r| >= 7 then EndpointDescriptor(r[2], r[3], Word(r[4..6]), r[6], r[7..])
    else if r[1] == 11 && |r| == 8 then AssociationDescriptor(r[2], r[3], r[4], r[5], r[6], r[7])
    else if r[1] == 15 && |r| == 5 then BosDescriptor(Word(r[2..4]), r[4])
    else if r[1] == 16 && |r| >= 3 then CapabilityDescriptor(r[2], r[3..])
    else OtherDescriptor(r[1], r[2..])
  }

  /** A little-endian field of two bytes. */
  function Word(b: seq<byte>): u16
    requires |b| == 2
  {
    (b[0] as int) + 0x100 * (b[1] as int)
  }

  lemma WordIs(b: seq<byte>, x: u16)
    requires b == LittleEndian(x)
    ensures |b| == 2 && Word(b) == x
  {
  }

  /** The record tells the host what the class called for; `endpoints` endpoints follow an interface. */
  ghost predicate Tells(r: seq<byte>, e: Entry, endpoints: nat) {
    && 2 <= |r| && r[0] == |r|
    && match e
       case Iad(first, count, cls, sub, protocol, text) =>
         Decode(r) == AssociationDescriptor(first, count, cls, sub, protocol, text)
       case Interface(number, alt, cls, sub, protocol, text) =>
         endpoints < 256 && Decode(r) == InterfaceDescriptor(number, alt, endpoints, cls, sub, protocol, text)
       case Endpoint(address, attributes, mps, interval, extra) =>
         Decode(r) == EndpointDescriptor(address, attributes, mps, interval, Payload(extra))
       case Custom(t, d) => r[1] == t && r[2..] == d
       case CustomWith(t, f) => r[1] == t && r[2..] == Payload(f)
       case Ignoring(_) => false
  }

  /** A call that should be seen, and how many endpoint calls come before the next interface. */
  datatype Item = Item(entry: Entry, endpoints: nat)

  /** A class's calls in order, its associations only on a composite device. */
  function Items(entries: seq<Entry>, composite: bool): seq<Item> {
    if entries == [] then []
    else
      (if entries[0].Iad? && !composite then [] else [Item(entries[0], Endpoints(entries[1..]))])
      + Items(entries[1..], composite)
  }

  function AllItems(classes: seq<seq<Entry>>, composite: bool): seq<Item> {
    if classes == [] then [] else Items(classes[0], composite) + AllItems(classes[1..], composite)
  }

  ghost predicate TellAll(records: seq<seq<byte>>, items: seq<Item>) {
    |records| == |items| && forall k | 0 <= k < |items| :: Tells(records[k], items[k].entry, items[k].endpoints)
  }

  lemma TellBoth(a: seq<seq<byte>>, i: seq<Item>, b: seq<seq<byte>>, j: seq<Item>)
    requires TellAll(a, i) && TellAll(b, j)
    ensures TellAll(a + b, i + j)
  {
    hide Tells;
    forall k | 0 <= k < |i + j| ensures Tells((a + b)[k], (i + j)[k].entry, (i + j)[k].endpoints) {
      if k >= |i| { assert Tells(b[k - |i|], j[k - |i|].entry, j[k - |i|].endpoints); }
    }
  }

  lemma PlainRecord(t: byte, payload: seq<byte>)
    requires |payload| <= 253
    ensures var r := Record(t, payload); |r| == |payload| + 2 && r[0] == |r| && r[1] == t && r[2..] == payload
  {
  }

  lemma InterfaceTells(e: Entry, n: byte)
    requires e.Interface?
    ensures Tells(Record(INTERFACE, InterfaceBytes(e, n)), e, n)
  {
  }

  lemma EndpointTells(e: Entry, n: nat)
    requires e.Endpoint? && |Payload(e.extra)| <= 248
    ensures Tells(Record(ENDPOINT, EndpointBytes(e) + Payload(e.extra)), e, n)
  {
    var payload := EndpointBytes(e) + Payload(e.extra);
    var r := Record(ENDPOINT, payload);
    PlainRecord(ENDPOINT, payload);
    assert payload[0] == e.address && payload[1] == e.attributes && payload[4] == e.interval;
    assert payload[2..4] == LittleEndian(e.mps) && payload[5..] == Payload(e.extra);
    hide Record, EndpointBytes, Payload;
    assert forall k | 0 <= k < |payload| :: r[k + 2] == r[2..][k];
    assert r[4..6] == r[2..][2..4] && r[7..] == r[2..][5..];
    WordIs(r[4..6], e.mps);
  }

  lemma IadTells(e: Entry, n: nat)
    requires e.Iad?
    ensures Tells(Record(IAD, IadBytes(e)), e, n)
  {
  }

  lemma EntryTells(e: Entry, rest: seq<Entry>, composite: bool)
    requires HonestEntry(e) && Short(e) && (e.Interface? ==> Endpoints(rest) < 256)
    ensures TellAll(EntryRecord(e, rest, composite),
                    if e.Iad? && !composite then [] else [Item(e, Endpoints(rest))])
  {
    hide Record, InterfaceBytes, EndpointBytes, IadBytes, Decode, Endpoints;
    match e
    case Iad(_, _, _, _, _, _) => IadTells(e, Endpoints(rest));
    case Interface(_, _, _, _, _, _) => InterfaceTells(e, Endpoints(rest));
    case Endpoint(_, _, _, _, extra) => EndpointTells(e, Endpoints(rest));
    case Custom(t, d) => PlainRecord(t, d);
    case CustomWith(t, f) => PlainRecord(t, Payload(f));
  }

  lemma {:induction false} RecordsTell(entries: seq<Entry>, composite: bool)
    requires HonestAll(entries) && AllShort(entries) && CountsFit(entries)
    ensures TellAll(Records(entries, composite), Items(entries, composite))
    decreases |entries|
  {
    if entries != [] {
      hide HonestEntry, Short, Endpoints, EntryRecord, Tells;
      var e, rest := entries[0], entries[1..];
      assert HonestEntry(e) && Short(e);
      assert forall k | 0 <= k < |rest| :: rest[k] == entries[k + 1] && rest[k + 1..] == entries[k + 1 + 1..];
      EntryTells(e, rest, composite);
      RecordsTell(rest, composite);
      TellBoth(EntryRecord(e, rest, composite), if e.Iad? && !composite then [] else [Item(e, Endpoints(rest))],
               Records(rest, composite), Items(rest, composite));
    }
  }

  lemma {:induction false} ClassesTell(classes: seq<seq<Entry>>, composite: bool)
    requires HonestClasses(classes) && ShortClasses(classes) && forall k | 0 <= k < |classes| :: CountsFit(classes[k])
    ensures TellAll(AllRecords(classes, composite), AllItems(classes, composite))
    decreases |classes|
  {
    if classes != [] {
      hide HonestAll, AllShort, CountsFit, Records, Items, TellAll;
      var rest := classes[1..];
      assert HonestAll(classes[0]) && AllShort(classes[0]) && CountsFit(classes[0]);
      assert forall k | 0 <= k < |rest| :: rest[k] == classes[k + 1];
      RecordsTell(classes[0], composite);
      ClassesTell(rest, composite);
      TellBoth(Records(classes[0], composite), Items(classes[0], composite),
               AllRecords(rest, composite), AllItems(rest, composite));
    } else {
      assert AllRecords(classes, composite) == [] && AllItems(classes, composite) == [];
    }
  }

  /** The blocks read one after another say what the device was configured with and its classes called for. */
  ghost predicate ConfigurationTold(blocks: seq<seq<byte>>, c: Config, classes: seq<seq<Entry>>, length: nat) {
    && blocks != [] && 2 <= |blocks[0]|
    && AllInterfaces(classes) < 256
    && Decode(blocks[0]) == ConfigurationDescriptor(length % 0x1_0000, AllInterfaces(classes), 1, 0, true,
                                                    c.selfPowered, c.remoteWakeup, 0, c.maxPower)
    && TellAll(blocks[1..], AllItems(classes, c.composite))
  }

  lemma HeaderTells(c: Config, total: u16, interfaces: byte)
    ensures var r := ConfigHeader(c, total, interfaces);
            && 2 <= |r|
            && Decode(r) == ConfigurationDescriptor(total, interfaces, 1, 0, true, c.selfPowered,
                                                    c.remoteWakeup, 0, c.maxPower)
  {
    var r := ConfigHeader(c, total, interfaces);
    assert r[2..4] == LittleEndian(total);
    WordIs(r[2..4], total);
    hide Word;
  }

  /**
   * A host that walks a finished configuration descriptor by its length bytes and decodes each block
   * gets back everything: the total length, the number of interfaces, the attributes and the power
   * from the header, and then one block for each call of the classes, in order, with every field the
   * call was given and, for an interface, the number of endpoints called for under it.
   */
  lemma ConfigDecodes(buf: seq<byte>, c: Config, classes: seq<seq<Entry>>)
    requires HonestClasses(classes) && ShortClasses(classes) && Assemble(buf, c, classes).status.Good?
    ensures var w := Assemble(buf, c, classes).w;
            && w.position <= |w.buf|
            && Walk(Written(w)).Some? && ConfigurationTold(Walk(Written(w)).value, c, classes, w.position)
  {
    hide Assemble, HonestClasses, ShortClasses, Walk, CountsFit, ConfigHeader, Decode, TellAll, AllRecords;
    ConfigRoundTrip(buf, c, classes);
    ConfigWalkIff(buf, c, classes);
    var w := Assemble(buf, c, classes).w;
    HeaderTells(c, w.position % 0x1_0000, AllInterfaces(classes) % 0x100);
    ClassesTell(classes, c.composite);
    var blocks := ConfigRecords(c, classes, w.position);
    assert blocks[1..] == AllRecords(classes, c.composite);
  }

  /** The same of a Binary Object Store: the count of calls, the USB 2.0 extension, the capabilities kept. */
  ghost predicate BosTold(blocks: seq<seq<byte>>, calls: nat, kept: seq<Cap>, length: nat) {
    && |blocks| == |kept| + 2 && calls < 255
    && (forall k | 0 <= k < |blocks| :: 2 <= |blocks[k]|)
    && Decode(blocks[0]) == BosDescriptor(length % 0x1_0000, calls + 1)
    && Decode(blocks[1]) == CapabilityDescriptor(2, [0, 0, 0, 0])
    && forall k | 0 <= k < |kept| :: Decode(blocks[k + 2]) == CapabilityDescriptor(kept[k].capType, kept[k].data)
  }

  lemma CapTells(c: Cap)
    requires |c.data| <= 252
    ensures var r := CapRecord(c); 2 <= |r| && Decode(r) == CapabilityDescriptor(c.capType, c.data)
  {
    assert CapRecord(c)[3..] == c.data;
  }

  lemma {:induction false} CapsTell(caps: seq<Cap>, k: nat)
    requires (forall j | 0 <= j < |caps| :: |caps[j].data| <= 252) && k < |caps|
    ensures |CapRecords(caps)| == |caps|
    ensures var r := CapRecords(caps)[k]; 2 <= |r| && Decode(r) == CapabilityDescriptor(caps[k].capType, caps[k].data)
    decreases k
  {
    hide CapRecord, Decode;
    CapRecordsWellFormed(caps);
    CapTells(caps[0]);
    if k > 0 {
      CapsTell(caps[1..], k - 1);
    }
  }

  lemma BosHeaderTells(total: u16, caps: byte)
    ensures var r := BosHeaderBytes(total, caps); 2 <= |r| && Decode(r) == BosDescriptor(total, caps)
  {
    var r := BosHeaderBytes(total, caps);
    assert r[2..4] == LittleEndian(total);
    WordIs(r[2..4], total);
    hide Word;
  }

  lemma BosDecodes(buf: seq<byte>, caps: seq<Cap>)
    requires AssembleBos(buf, caps).status.Good?
    ensures var w := AssembleBos(buf, caps).w;
            && 12 <= |buf| && w.position <= |w.buf|
            && Walk(Written(w)).Some?
            && BosTold(Walk(Written(w)).value, |caps|, Chosen(caps, |buf| - 12), w.position)
  {
    hide *;
    BosWalk(buf, caps);
    BosBlocksTell(AssembleBos(buf, caps).w.position, |caps|, Chosen(caps, |buf| - 12));
  }

  lemma BosBlocksTell(position: nat, calls: nat, kept: seq<Cap>)
    requires calls < 255 && forall k | 0 <= k < |kept| :: |kept[k].data| <= 252
    ensures BosTold(BosRecords(position, calls, kept), calls, kept, position)
  {
    hide BosHeaderBytes, Decode, CapRecords;
    var all := [EXTENSION] + kept;
    var blocks := BosRecords(position, calls, kept);
    BosHeaderTells(position % 0x1_0000, (calls + 1) % 0x100);
    CapsTell(all, 0);
    forall k | 1 <= k < |blocks|
      ensures 2 <= |blocks[k]| && Decode(blocks[k]) == CapabilityDescriptor(all[k - 1].capType, all[k - 1].data)
    {
      CapsTell(all, k - 1);
    }
    assert all[0] == EXTENSION;
    assert forall k | 0 <= k < |kept| :: all[k + 2 - 1] == kept[k];
  }

  /** The device descriptor, decoded: the device's identity, and indexes of the strings the first language has. */
  lemma DeviceDecodes(buf: seq<byte>, f: Facts)
    requires Write(Fresh(buf), 1, DeviceBytes(f)).status.Good?
    ensures var w := Write(Fresh(buf), 1, DeviceBytes(f)).w;
            var i, first := f.identity, if f.languages == [] then None else Some(f.languages[0]);
            && w.position == 18 <= |w.buf| && Written(w)[0] == 18
            && Decode(Written(w))
               == DeviceDescriptor(i.usbRev, i.cls, i.sub, i.protocol, i.mps0, i.vendor, i.product, i.release,
                                   if first.Some? && first.value.manufacturer.Some? then 1 else 0,
                                   if first.Some? && first.value.product.Some? then 2 else 0,
                                   if first.Some? && first.value.serial.Some? then 3 else 0, 1)
  {
    WriteAppends(Fresh(buf), 1, DeviceBytes(f));
    var r := Record(1, DeviceBytes(f));
    assert Written(Fresh(buf)) == [] && [] + r == r;
    hide Write, DeviceBytes, Record, Decode;
    DeviceTells(f);
  }

  lemma DeviceTells(f: Facts)
    ensures var r := Record(1, DeviceBytes(f));
            var i, first := f.identity, if f.languages == [] then None else Some(f.languages[0]);
            && |r| == 18 && r[0] == 18
            && Decode(r)
               == DeviceDescriptor(i.usbRev, i.cls, i.sub, i.protocol, i.mps0, i.vendor, i.product, i.release,
                                   if first.Some? && first.value.manufacturer.Some? then 1 else 0,
                                   if first.Some? && first.value.product.Some? then 2 else 0,
                                   if first.Some? && first.value.serial.Some? then 3 else 0, 1)
  {
    var i, r := f.identity, Record(1, DeviceBytes(f));
    assert |r| == 18 && r[0] == 18 && r[1] == 1 && r[17] == 1;
    assert r[4] == i.cls && r[5] == i.sub && r[6] == i.protocol && r[7] == i.mps0;
    DeviceWords(f);
    DeviceTexts(f);
    hide DeviceBytes, Record, Word, StringIndex;
  }

  lemma DeviceWords(f: Facts)
    ensures var i, r := f.identity, Record(1, DeviceBytes(f));
            && |r| == 18
            && Word(r[2..4]) == i.usbRev && Word(r[8..10]) == i.vendor
            && Word(r[10..12]) == i.product && Word(r[12..14]) == i.release
  {
    var i, r := f.identity, Record(1, DeviceBytes(f));
    assert r[2..4] == LittleEndian(i.usbRev) && r[8..10] == LittleEndian(i.vendor);
    assert r[10..12] == LittleEndian(i.product) && r[12..14] == LittleEndian(i.release);
    hide *;
    WordIs(r[2..4], i.usbRev);
    WordIs(r[8..10], i.vendor);
    WordIs(r[10..12], i.product);
    WordIs(r[12..14], i.release);
  }

  lemma DeviceTexts(f: Facts)
    ensures var r := Record(1, DeviceBytes(f));
            var first := if f.languages == [] then None else Some(f.languages[0]);
            && |r| == 18
            && r[14] == (if first.Some? && first.value.manufacturer.Some? then 1 else 0)
            && r[15] == (if first.Some? && first.value.product.Some? then 2 else 0)
            && r[16] == if first.Some? && first.value.serial.Some? then 3 else 0
  {
  }

  function Ids(languages: seq<Language>): seq<u16> {
    if languages == [] then [] else [languages[0].id] + Ids(languages[1..])
  }

  lemma {:induction false} IdsAreUnits(languages: seq<Language>)
    ensures |Ids(languages)| == |languages| && LanguageIds(languages) == UnitBytes(Ids(languages))
    decreases |languages|
  {
    if languages != [] {
      IdsAreUnits(languages[1..]);
      assert Ids(languages)[1..] == Ids(languages[1..]);
    }
  }

  /** String descriptor 0, read as code units: the identifiers of the languages, in order. */
  lemma LanguagesDecode(buf: seq<byte>, f: Facts)
    requires Write(Fresh(buf), 3, LanguageIds(f.languages)).status.Good? && |f.languages| <= 126
    ensures var w := Write(Fresh(buf), 3, LanguageIds(f.languages)).w;
            w.position <= |w.buf| && ReadString(Written(w)) == Some(Ids(f.languages))
  {
    var ids := Ids(f.languages);
    var text := UnitBytes(ids);
    IdsAreUnits(f.languages);
    assert Record(3, text) == [(2 + 2 * |ids|) % 0x100, STRING] + text;
    assert Written(Fresh(buf)) == [] && [] + Record(3, text) == Record(3, text);
    hide *;
    WriteAppends(Fresh(buf), 3, LanguageIds(f.languages));
    LengthByte(|ids|);
    ReadBackIff((2 + 2 * |ids|) % 0x100, ids);
  }
}

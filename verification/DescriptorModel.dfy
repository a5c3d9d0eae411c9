/**
 * The descriptor writers of src/descriptor.rs as step functions over the buffer: length-prefixed
 * records appended at `position`, and counters patched later through saved marks.
 */
module DescriptorModel {
  import opened UsbTypes

  const CONFIGURATION: byte := 2
  const STRING: byte := 3
  const INTERFACE: byte := 4
  const ENDPOINT: byte := 5
  const IAD: byte := 11
  const BOS: byte := 15
  const CAPABILITY: byte := 16
  const USB_2_0_EXTENSION: byte := 2

  datatype Writer = Writer(
    buf: seq<byte>,
    position: nat,
    ifMark: Option<nat>,   // num_interfaces_mark
    epMark: Option<nat>,   // num_endpoints_mark
    iads: bool)

  /** Panic is an index out of range or a counter pushed past 255. */
  datatype Status = Good | Bad(error: UsbError) | Panic

  datatype Next = Next(w: Writer, status: Status)

  /** The callback of `write_with`: what it leaves in its slice and the count it returns. */
  datatype Callback = Callback(data: seq<byte>, count: Result<nat>)

  function Fresh(buf: seq<byte>): Writer {
    Writer(buf, 0, None, None, false)
  }

  /** The end of the slice `write_with` hands to its callback. */
  function DataEnd(w: Writer): nat {
    Min(|w.buf|, w.position + 256)
  }

  /** How long that slice is. */
  function Available(w: Writer): nat {
    if w.position + 2 > |w.buf| then 0 else DataEnd(w) - (w.position + 2)
  }

  /** The buffer after the callback has written to its slice. */
  function Scribbled(w: Writer, data: seq<byte>): (r: seq<byte>)
    requires w.position + 2 <= |w.buf|
    ensures |r| == |w.buf|
  {
    var start, end := w.position + 2, DataEnd(w);
    w.buf[..start] + Overlay(w.buf[start..end], data) + w.buf[end..]
  }

  function WriteWith(w: Writer, descType: byte, f: Callback): Next {
    if w.position + 2 > |w.buf| then
      Next(w, Bad(BufferOverflow))
    else
      var w := w.(buf := Scribbled(w, f.data));
      match f.count
      case Err(e) => Next(w, Bad(e))
      case Ok(n) =>
        var total := n + 2;
        if w.position + total > |w.buf| then
          Next(w, Bad(BufferOverflow))
        else
          // `total as u8`
          Next(w.(buf := w.buf[w.position := total % 0x100][w.position + 1 := descType],
                  position := w.position + total), Good)
  }

  function Write(w: Writer, descType: byte, data: seq<byte>): Next {
    WriteWith(w, descType,
              if |data| > Available(w) then Callback([], Err(BufferOverflow)) else Callback(data, Ok(|data|)))
  }

  /** `buf[mark] += 1` */
  function Bumped(w: Writer, mark: nat): Option<Writer> {
    if mark < |w.buf| && w.buf[mark] < 255 then Some(w.(buf := w.buf[mark := w.buf[mark] + 1])) else None
  }

  datatype Config = Config(composite: bool, selfPowered: bool, remoteWakeup: bool, maxPower: byte)

  /** 0x80 with 0x40 and 0x20 or-ed in. */
  function Attributes(c: Config): byte {
    0x80 + (if c.selfPowered then 0x40 else 0) + (if c.remoteWakeup then 0x20 else 0)
  }

  function Configuration(w: Writer, c: Config): Next {
    Write(w.(ifMark := Some(w.position + 4), iads := c.composite), CONFIGURATION,
          [0, 0, 0, 1, 0, Attributes(c), c.maxPower])
  }

  function EndClass(w: Writer): Writer {
    w.(epMark := None)
  }

  /** Patches wTotalLength with `position as u16`. */
  function EndConfiguration(w: Writer): Next {
    if |w.buf| < 4 then Next(w, Panic)
    else Next(w.(buf := w.buf[..2] + LittleEndian(w.position % 0x1_0000) + w.buf[4..]), Good)
  }

  /** The calls a class makes on the writer. Strings are given by index, 0 for none. */
  datatype Entry =
    | Iad(first: byte, count: byte, cls: byte, sub: byte, protocol: byte, text: byte)
    | Interface(number: byte, alt: byte, cls: byte, sub: byte, protocol: byte, text: byte)
    | Endpoint(address: byte, attributes: byte, mps: u16, interval: byte, extra: Callback)
    | Custom(descType: byte, data: seq<byte>)
    | CustomWith(descType: byte, f: Callback)
    | Ignoring(call: Entry) // the call, its error discarded by the class

  function IadBytes(e: Entry): seq<byte>
    requires e.Iad?
  {
    [e.first, e.count, e.cls, e.sub, e.protocol, e.text]
  }

  function InterfaceBytes(e: Entry, endpoints: byte): seq<byte>
    requires e.Interface?
  {
    [e.number, e.alt, endpoints, e.cls, e.sub, e.protocol, e.text]
  }

  function EndpointBytes(e: Entry): seq<byte>
    requires e.Endpoint?
  {
    [e.address, e.attributes] + LittleEndian(e.mps) + [e.interval]
  }

  /** The callback `endpoint_ex` builds around the caller's. */
  function EndpointCallback(e: Entry, available: nat): Callback
    requires e.Endpoint?
  {
    if available < 5 then Callback([], Err(BufferOverflow))
    else
      Callback(EndpointBytes(e) + e.extra.data,
               match e.extra.count case Err(x) => Err(x) case Ok(n) => Ok(n + 5))
  }

  function InterfaceAlt(w: Writer, e: Entry): Next
    requires e.Interface?
  {
    if e.alt != 0 then
      Write(w.(epMark := Some(w.position + 4)), INTERFACE, InterfaceBytes(e, 0))
    else
      match w.ifMark
      case None => Next(w, Bad(InvalidState))
      case Some(mark) =>
        match Bumped(w, mark)
        case None => Next(w, Panic)
        case Some(v) => Write(v.(epMark := Some(v.position + 4)), INTERFACE, InterfaceBytes(e, 0))
  }

  function EndpointEx(w: Writer, e: Entry): Next
    requires e.Endpoint?
  {
    match w.epMark
    case None => Next(w, Bad(InvalidState))
    case Some(mark) =>
      match Bumped(w, mark)
      case None => Next(w, Panic)
      case Some(v) => WriteWith(v, ENDPOINT, EndpointCallback(e, Available(v)))
  }

  function Put(w: Writer, e: Entry): Next {
    match e
    case Iad(_, _, _, _, _, _) => if w.iads then Write(w, IAD, IadBytes(e)) else Next(w, Good)
    case Interface(_, _, _, _, _, _) => InterfaceAlt(w, e)
    case Endpoint(_, _, _, _, _) => EndpointEx(w, e)
    case Custom(t, d) => Write(w, t, d)
    case CustomWith(t, f) => WriteWith(w, t, f)
    case Ignoring(call) =>
      var n := Put(w, call);
      if n.status.Bad? then Next(n.w, Good) else n
  }

  /** A class's `get_configuration_descriptors`, returning the first error it does not ignore. */
  function PutAll(w: Writer, entries: seq<Entry>): Next
    decreases |entries|
  {
    if entries == [] then Next(w, Good)
    else
      var n := Put(w, entries[0]);
      if n.status.Good? then PutAll(n.w, entries[1..]) else n
  }

  function PutClasses(w: Writer, classes: seq<seq<Entry>>): Next
    decreases |classes|
  {
    if classes == [] then Next(w, Good)
    else
      var n := PutAll(w, classes[0]);
      if n.status.Good? then PutClasses(EndClass(n.w), classes[1..]) else n
  }

  /** The CONFIGURATION branch of `get_descriptor`. */
  function Assemble(buf: seq<byte>, c: Config, classes: seq<seq<Entry>>): Next {
    var head := Configuration(Fresh(buf), c);
    if !head.status.Good? then head
    else
      var body := PutClasses(head.w, classes);
      if !body.status.Good? then body else EndConfiguration(body.w)
  }

  /** A class's call of `capability`; `strict` if the class returns its error, as `?` does. */
  datatype Cap = Cap(capType: byte, data: seq<byte>, strict: bool)

  /** `BosWriter::capability`, with its mark passed in; the counter moves before the checks. */
  function Capability(w: Writer, capsMark: Option<nat>, c: Cap): Next {
    match capsMark
    case None => Next(w, Bad(InvalidState))
    case Some(mark) =>
      match Bumped(w, mark)
      case None => Next(w, Panic)
      case Some(v) =>
        var start, n := v.position, |c.data|;
        if start + n + 3 > |v.buf| || n + 3 > 255 then
          Next(v, Bad(BufferOverflow))
        else
          Next(v.(buf := v.buf[..start] + [n + 3, CAPABILITY, c.capType] + c.data + v.buf[start + n + 3..],
                  position := start + n + 3), Good)
  }

  function BosHeader(w: Writer): Next {
    Write(w, BOS, [0, 0, 0])
  }

  function StartBos(w: Writer): Next {
    var head := BosHeader(w);
    if !head.status.Good? then head
    else Capability(head.w, Some(w.position + 4), Cap(USB_2_0_EXTENSION, [0, 0, 0, 0], true))
  }

  /** Capability calls in order; a refused one ends the rendering if its class returns the error. */
  function PutCaps(w: Writer, mark: nat, caps: seq<Cap>): Next
    decreases |caps|
  {
    if caps == [] then Next(w, Good)
    else
      var n := Capability(w, Some(mark), caps[0]);
      if n.status.Panic? || (n.status.Bad? && caps[0].strict) then n else PutCaps(n.w, mark, caps[1..])
  }

  /** The BOS branch of `get_descriptor`. */
  function AssembleBos(buf: seq<byte>, caps: seq<Cap>): Next {
    var head := StartBos(Fresh(buf));
    if !head.status.Good? then head
    else
      var body := PutCaps(head.w, 4, caps);
      if !body.status.Good? then body else EndConfiguration(body.w)
  }

  /** The code units written one after another, from `pos` on. */
  function PutUnits(buf: seq<byte>, pos: nat, units: seq<u16>): (r: (seq<byte>, nat, Status))
    ensures |r.0| == |buf| && pos <= r.1
    decreases |units|
  {
    if units == [] then (buf, pos, Good)
    else if pos >= |buf| then (buf, pos, Bad(BufferOverflow))
    else if pos + 2 > |buf| then (buf, pos, Panic)
    else PutUnits(buf[..pos] + LittleEndian(units[0]) + buf[pos + 2..], pos + 2, units[1..])
  }

  /** `DescriptorWriter::string`, from UTF-16 code units. */
  function WriteString(w: Writer, units: seq<u16>): Next {
    if w.position + 2 > |w.buf| then
      Next(w, Bad(BufferOverflow))
    else
      var (buf, pos, status) := PutUnits(w.buf[w.position := 0][w.position + 1 := STRING], w.position + 2, units);
      if !status.Good? then
        Next(w.(buf := buf), status)
      else
        // `(pos - position) as u8`
        Next(w.(buf := buf[w.position := (pos - w.position) % 0x100], position := pos), Good)
  }
}

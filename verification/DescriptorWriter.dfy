/**
 * `DescriptorWriter` and `BosWriter` in the source's own form: a buffer patched in place through
 * saved marks. Each method is proved to do what its step function in DescriptorModel says.
 */
module DescriptorWriter {
  import opened UsbTypes
  import opened DescriptorModel

  lemma Overlaid(before: seq<byte>, from: nat, to: nat, data: seq<byte>, after: seq<byte>)
    requires from <= to <= |before| == |after|
    requires var n := if |data| <= to - from then |data| else to - from;
             forall j | 0 <= j < |after| :: after[j] == if from <= j < from + n then data[j - from] else before[j]
    ensures after == before[..from] + Overlay(before[from..to], data) + before[to..]
  {
  }

  class RecordWriter {
    const buf: array<byte>
    var position: nat
    var ifMark: Option<nat>
    var epMark: Option<nat>
    var writeIads: bool

    ghost function View(): Writer
      reads this, buf
    {
      Writer(buf[..], position, ifMark, epMark, writeIads)
    }

    /** The method returned `s` and left the writer as `n` says; nothing more follows a panic. */
    ghost predicate Went(n: Next, s: Status)
      reads this, buf
    {
      s == n.status && (!s.Panic? ==> View() == n.w)
    }

    constructor (buf: array<byte>)
      ensures View() == DescriptorModel.Fresh(buf[..]) && this.buf == buf
    {
      this.buf := buf;
      position := 0;
      ifMark := None;
      epMark := None;
      writeIads := false;
    }

    /** Copies `data` into `buf[from..to]`; what does not fit is cut. */
    method Fill(from: nat, to: nat, data: seq<byte>)
      requires from <= to <= buf.Length
      modifies buf
      ensures buf[..] == old(buf[..from]) + Overlay(old(buf[from..to]), data) + old(buf[to..])
    {
      ghost var before := buf[..];
      var n := if |data| <= to - from then |data| else to - from;
      for k := 0 to n
        invariant forall j | 0 <= j < buf.Length ::
                    buf[j] == if from <= j < from + k then data[j - from] else before[j]
      {
        buf[from + k] := data[k];
      }
      Overlaid(before, from, to, data, buf[..]);
      assert old(buf[..from]) == before[..from] && old(buf[to..]) == before[to..];
      assert old(buf[from..to]) == before[from..to];
    }

    /** Copies a whole record in at the position and moves past it. */
    method Append(record: seq<byte>)
      requires position + |record| <= buf.Length
      modifies this`position, buf
      ensures var w, end := old(View()), old(position) + |record|;
              View() == w.(buf := w.buf[..w.position] + record + w.buf[end..], position := end)
    {
      ghost var slot := buf[position..position + |record|];
      Fill(position, position + |record|, record);
      assert Overlay(slot, record) == record;
      position := position + |record|;
    }

    method WriteWith(descType: byte, f: Callback) returns (s: Status)
      modifies this`position, buf
      ensures Went(DescriptorModel.WriteWith(old(View()), descType, f), s)
    {
      if position + 2 > buf.Length {
        return Bad(BufferOverflow);
      }
      var dataEnd := Min(buf.Length, position + 256);
      ghost var w := View();
      Fill(position + 2, dataEnd, f.data);
      assert buf[..] == Scribbled(w, f.data);
      hide Scribbled, Overlay;
      match f.count {
        case Err(e) =>
          return Bad(e);
        case Ok(n) =>
          var total := n + 2;
          if position + total > buf.Length {
            return Bad(BufferOverflow);
          }
          buf[position] := total % 0x100;
          buf[position + 1] := descType;
          position := position + total;
          return Good;
      }
    }

    method Write(descType: byte, data: seq<byte>) returns (s: Status)
      modifies this`position, buf
      ensures Went(DescriptorModel.Write(old(View()), descType, data), s)
    {
      var room := if position + 2 > buf.Length then 0 else Min(buf.Length, position + 256) - (position + 2);
      var f := if |data| > room then Callback([], Err(BufferOverflow)) else Callback(data, Ok(|data|));
      s := WriteWith(descType, f);
    }

    /** `buf[mark] += 1` */
    method Bump(mark: nat) returns (s: Status)
      modifies buf
      ensures var b := Bumped(old(View()), mark);
              if b.Some? then s.Good? && View() == b.value else s.Panic?
    {
      if mark >= buf.Length || buf[mark] == 255 {
        return Panic;
      }
      buf[mark] := buf[mark] + 1;
      return Good;
    }

    method Configuration(c: Config) returns (s: Status)
      modifies this, buf
      ensures Went(DescriptorModel.Configuration(old(View()), c), s)
    {
      hide DescriptorModel.Write;
      ifMark := Some(position + 4);
      writeIads := c.composite;
      s := Write(CONFIGURATION, [0, 0, 0, 1, 0, Attributes(c), c.maxPower]);
    }

    method EndClass()
      modifies this`epMark
      ensures View() == DescriptorModel.EndClass(old(View()))
    {
      epMark := None;
    }

    method EndConfiguration() returns (s: Status)
      modifies buf
      ensures Went(DescriptorModel.EndConfiguration(old(View())), s)
    {
      if buf.Length < 4 {
        return Panic;
      }
      var total := LittleEndian(position % 0x1_0000);
      Fill(2, 4, total);
      assert Overlay(old(buf[2..4]), total) == total;
      return Good;
    }

    method InterfaceAlt(e: Entry) returns (s: Status)
      requires e.Interface?
      modifies this, buf
      ensures Went(DescriptorModel.InterfaceAlt(old(View()), e), s)
    {
      hide DescriptorModel.Write;
      if e.alt == 0 {
        match ifMark {
          case Some(mark) =>
            s := Bump(mark);
            if s.Panic? {
              return;
            }
          case None =>
            return Bad(InvalidState);
        }
      }
      epMark := Some(position + 4);
      s := Write(INTERFACE, InterfaceBytes(e, 0));
    }

    method EndpointEx(e: Entry) returns (s: Status)
      requires e.Endpoint?
      modifies this`position, buf
      ensures Went(DescriptorModel.EndpointEx(old(View()), e), s)
    {
      hide DescriptorModel.WriteWith;
      match epMark {
        case Some(mark) =>
          s := Bump(mark);
          if s.Panic? {
            return;
          }
        case None =>
          return Bad(InvalidState);
      }
      var room := if position + 2 > buf.Length then 0 else Min(buf.Length, position + 256) - (position + 2);
      s := WriteWith(ENDPOINT, EndpointCallback(e, room));
    }

    method Put(e: Entry) returns (s: Status)
      modifies this, buf
      decreases e
      ensures Went(DescriptorModel.Put(old(View()), e), s)
    {
      hide DescriptorModel.Write, DescriptorModel.WriteWith, DescriptorModel.InterfaceAlt, DescriptorModel.EndpointEx;
      match e {
        case Iad(_, _, _, _, _, _) =>
          if !writeIads {
            return Good;
          }
          s := Write(IAD, IadBytes(e));
        case Interface(_, _, _, _, _, _) =>
          s := InterfaceAlt(e);
        case Endpoint(_, _, _, _, _) =>
          s := EndpointEx(e);
        case Custom(t, d) =>
          s := Write(t, d);
        case CustomWith(t, f) =>
          s := WriteWith(t, f);
        case Ignoring(call) =>
          s := Put(call);
          if s.Bad? {
            s := Good;
          }
      }
    }

    /** A class's own calls, up to the first that does not succeed. */
    method PutAll(entries: seq<Entry>) returns (s: Status)
      modifies this, buf
      ensures Went(DescriptorModel.PutAll(old(View()), entries), s)
    {
      hide DescriptorModel.Put;
      ghost var whole := DescriptorModel.PutAll(View(), entries);
      for k := 0 to |entries|
        invariant whole == DescriptorModel.PutAll(View(), entries[k..])
      {
        assert entries[k..][0] == entries[k] && entries[k..][1..] == entries[k + 1..];
        s := Put(entries[k]);
        if !s.Good? {
          return;
        }
      }
      return Good;
    }

    /** The CONFIGURATION branch of `get_descriptor`, into a fresh writer. */
    method Assemble(c: Config, classes: seq<seq<Entry>>) returns (s: Status)
      requires View() == DescriptorModel.Fresh(buf[..])
      modifies this, buf
      ensures Went(DescriptorModel.Assemble(old(buf[..]), c, classes), s)
    {
      hide DescriptorModel.Configuration, DescriptorModel.PutAll, DescriptorModel.EndConfiguration;
      s := Configuration(c);
      if !s.Good? {
        return;
      }
      ghost var whole := PutClasses(View(), classes);
      for k := 0 to |classes|
        invariant whole == PutClasses(View(), classes[k..])
      {
        assert classes[k..][0] == classes[k] && classes[k..][1..] == classes[k + 1..];
        s := PutAll(classes[k]);
        if !s.Good? {
          return;
        }
        EndClass();
      }
      s := EndConfiguration();
    }

    method PutUnit(pos: nat, unit: u16)
      requires pos + 2 <= buf.Length
      modifies buf
      ensures buf[..] == old(buf[..pos]) + LittleEndian(unit) + old(buf[pos + 2..])
    {
      ghost var slot := buf[pos..pos + 2];
      Fill(pos, pos + 2, LittleEndian(unit));
      assert Overlay(slot, LittleEndian(unit)) == LittleEndian(unit);
    }

    /** The loop over code units, from `start` on. */
    method PutText(start: nat, units: seq<u16>) returns (pos: nat, s: Status)
      requires start <= buf.Length
      modifies buf
      ensures (buf[..], pos, s) == PutUnits(old(buf[..]), start, units)
      ensures s.Good? ==> pos <= buf.Length
    {
      hide LittleEndian;
      pos := start;
      ghost var whole := PutUnits(buf[..], pos, units);
      for k := 0 to |units|
        invariant start <= pos <= buf.Length
        invariant whole == PutUnits(buf[..], pos, units[k..])
      {
        assert units[k..][0] == units[k] && units[k..][1..] == units[k + 1..];
        if pos >= buf.Length {
          return pos, Bad(BufferOverflow);
        }
        if pos + 2 > buf.Length {
          return pos, Panic;
        }
        PutUnit(pos, units[k]);
        pos := pos + 2;
      }
      return pos, Good;
    }

    /** The string descriptor, from its UTF-16 code units. */
    method String(units: seq<u16>) returns (s: Status)
      modifies this`position, buf
      ensures Went(WriteString(old(View()), units), s)
    {
      hide PutUnits;
      if position + 2 > buf.Length {
        return Bad(BufferOverflow);
      }
      buf[position] := 0; // filled in below
      buf[position + 1] := STRING;
      assert buf[..] == old(buf[..])[position := 0][position + 1 := STRING];
      var pos;
      pos, s := PutText(position + 2, units);
      if !s.Good? {
        return;
      }
      buf[position] := (pos - position) % 0x100;
      position := pos;
    }
  }

  class BosWriter {
    const writer: RecordWriter
    var capsMark: Option<nat>

    constructor (writer: RecordWriter)
      ensures this.writer == writer && capsMark.None?
    {
      this.writer := writer;
      capsMark := None;
    }

    method Capability(c: Cap) returns (s: Status)
      modifies writer`position, writer.buf
      ensures writer.Went(DescriptorModel.Capability(old(writer.View()), capsMark, c), s)
    {
      match capsMark {
        case Some(mark) =>
          s := writer.Bump(mark);
          if s.Panic? {
            return;
          }
        case None =>
          return Bad(InvalidState);
      }
      var start, n := writer.position, |c.data|;
      if start + n + 3 > writer.buf.Length || n + 3 > 255 {
        return Bad(BufferOverflow);
      }
      writer.Append([n + 3, CAPABILITY, c.capType] + c.data);
      return Good;
    }

    method Bos() returns (s: Status)
      requires writer.position == 0
      modifies this`capsMark, writer`position, writer.buf
      ensures writer.Went(StartBos(old(writer.View())), s) && capsMark == Some(4)
    {
      hide DescriptorModel.Write, DescriptorModel.Capability;
      capsMark := Some(writer.position + 4);
      s := writer.Write(BOS, [0, 0, 0]);
      if !s.Good? {
        return;
      }
      s := Capability(Cap(USB_2_0_EXTENSION, [0, 0, 0, 0], true));
    }

    method EndBos() returns (s: Status)
      modifies this`capsMark, writer.buf
      ensures writer.Went(DescriptorModel.EndConfiguration(old(writer.View())), s) && capsMark.None?
    {
      capsMark := None;
      s := writer.EndConfiguration();
    }

    /** The BOS branch of `get_descriptor`; a class may discard the error of a refused capability. */
    method Assemble(caps: seq<Cap>) returns (s: Status)
      requires writer.View() == DescriptorModel.Fresh(writer.buf[..])
      modifies this, writer, writer.buf
      ensures writer.Went(AssembleBos(old(writer.buf[..]), caps), s)
    {
      hide StartBos, DescriptorModel.Capability, DescriptorModel.EndConfiguration;
      s := Bos();
      if !s.Good? {
        return;
      }
      ghost var whole := PutCaps(writer.View(), 4, caps);
      for k := 0 to |caps|
        invariant capsMark == Some(4)
        invariant whole == PutCaps(writer.View(), 4, caps[k..])
      {
        assert caps[k..][0] == caps[k] && caps[k..][1..] == caps[k + 1..];
        s := Capability(caps[k]);
        if s.Panic? || (s.Bad? && caps[k].strict) {
          return;
        }
      }
      s := EndBos();
    }
  }
}

/** Types shared by the whole model: machine integers, errors, and byte-sequence helpers. */
module UsbTypes {

  /** A Rust `u8` and a Rust `u16`. Bit operations go through `bv8` and `bv16`. */
  type byte = x: int | 0 <= x < 0x100
  type u16 = x: int | 0 <= x < 0x1_0000

  datatype Option<+T> = None | Some(value: T)

  datatype UsbError =
    | WouldBlock
    | ParseError
    | BufferOverflow
    | EndpointOverflow
    | EndpointMemoryOverflow
    | InvalidEndpoint
    | Unsupported
    | InvalidState

  datatype Result<+T> = Ok(value: T) | Err(error: UsbError)

  datatype UsbDirection = Out | In

  function Min(a: int, b: int): int {
    if a <= b then a else b
  }

  /** What `buf` holds after `data` is copied over its start; data that does not fit is cut. */
  function Overlay<T>(buf: seq<T>, data: seq<T>): (r: seq<T>)
    ensures |r| == |buf|
    ensures |data| <= |buf| ==> r[..|data|] == data
  {
    if |data| <= |buf| then data + buf[|data|..] else data[..|buf|]
  }

  /** `u16::to_le_bytes` */
  function LittleEndian(x: u16): seq<byte> {
    [x % 0x100, x / 0x100]
  }

  lemma Assoc<T>(a: seq<T>, b: seq<T>, c: seq<T>)
    ensures (a + b) + c == a + (b + c)
  {
  }

  /** Concatenation of a sequence of packets or records, in order. */
  function Flatten<T>(parts: seq<seq<T>>): seq<T> {
    if parts == [] then [] else parts[0] + Flatten(parts[1..])
  }

  lemma {:induction false} FlattenAppend<T>(a: seq<seq<T>>, b: seq<seq<T>>)
    ensures Flatten(a + b) == Flatten(a) + Flatten(b)
  {
    if a == [] {
      assert a + b == b;
    } else {
      assert (a + b)[1..] == a[1..] + b;
      FlattenAppend(a[1..], b);
    }
  }

  lemma FlattenOne<T>(x: seq<T>)
    ensures Flatten([x]) == x
  {
    assert Flatten([x]) == x + Flatten([]);
  }
}

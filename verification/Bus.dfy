/**
 * The endpoint-0 side of the `UsbBus` contract (src/bus.rs). A driver's answer to one call is a
 * value chosen by the environment; the two functions apply the contract to it, so every pair of
 * arguments is a behaviour the contract permits and every permitted behaviour is some pair.
 */
module Bus {
  import opened UsbTypes

  /** What a `read` finds: a packet, or the reason there is none. */
  datatype Offer = Packet(data: seq<byte>) | NoRead(error: UsbError)

  /** How a `write` goes: the driver takes at most `limit` bytes of the slice, or refuses. */
  datatype Take = Takes(limit: nat) | Refuses(error: UsbError)

  /** A whole packet or nothing: one that does not fit the slice is an overflow error. */
  function Read(o: Offer, capacity: nat): Result<seq<byte>> {
    match o
    case NoRead(e) => Err(e)
    case Packet(d) => if |d| <= capacity then Ok(d) else Err(BufferOverflow)
  }

  /** The number of bytes taken from the front of the slice. */
  function Write(t: Take, slice: seq<byte>): Result<nat> {
    match t
    case Refuses(e) => Err(e)
    case Takes(limit) => Ok(Min(limit, |slice|))
  }

  /** The answers to a read are a whole packet that fits the slice, or any error; and there are no others. */
  lemma ReadCovers(r: Result<seq<byte>>, capacity: nat)
    ensures (r.Ok? ==> |r.value| <= capacity) <==> exists o: Offer :: Read(o, capacity) == r
    ensures forall d: seq<byte> | |d| > capacity :: Read(Packet(d), capacity) == Err(BufferOverflow)
  {
    if r.Err? {
      assert Read(NoRead(r.error), capacity) == r;
    } else if |r.value| <= capacity {
      assert Read(Packet(r.value), capacity) == r;
    }
  }

  /** The answers to a write are a count of at most the slice, or any error; and there are no others. */
  lemma WriteCovers(r: Result<nat>, slice: seq<byte>)
    ensures (r.Ok? ==> r.value <= |slice|) <==> exists t: Take :: Write(t, slice) == r
  {
    if r.Err? {
      assert Write(Refuses(r.error), slice) == r;
    } else if r.value <= |slice| {
      assert Write(Takes(r.value), slice) == r;
    }
  }
}

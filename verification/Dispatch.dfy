/**
 * The endpoint loop of `UsbDevice::poll` (src/device.rs): a shrinking mask, a shifted bit and an
 * early exit, proved to make exactly the callbacks of a plain scan of endpoints 1 to 15.
 */
module Dispatch {
  const MAX_ENDPOINTS: nat := 16

  /** A `u16` bit field: element k is bit k. The operators below are the u16 ones, bit by bit. */
  type mask = m: seq<bool> | |m| == 16 witness seq(16, _ => false)

  function Or(a: mask, b: mask): mask {
    seq(16, k requires 0 <= k < 16 => a[k] || b[k])
  }

  function And(a: mask, b: mask): mask {
    seq(16, k requires 0 <= k < 16 => a[k] && b[k])
  }

  function Not(a: mask): mask {
    seq(16, k requires 0 <= k < 16 => !a[k])
  }

  /** `m << 1`: the top bit is lost. */
  function ShiftLeft(m: mask): mask {
    [false] + m[..15]
  }

  /** The mask is the `u16` whose bits are `b`. */
  ghost predicate Is(m: mask, b: bv16) {
    && m[0] == (b & 0x1 != 0) && m[1] == (b & 0x2 != 0)
    && m[2] == (b & 0x4 != 0) && m[3] == (b & 0x8 != 0)
    && m[4] == (b & 0x10 != 0) && m[5] == (b & 0x20 != 0)
    && m[6] == (b & 0x40 != 0) && m[7] == (b & 0x80 != 0)
    && m[8] == (b & 0x100 != 0) && m[9] == (b & 0x200 != 0)
    && m[10] == (b & 0x400 != 0) && m[11] == (b & 0x800 != 0)
    && m[12] == (b & 0x1000 != 0) && m[13] == (b & 0x2000 != 0)
    && m[14] == (b & 0x4000 != 0) && m[15] == (b & 0x8000 != 0)
  }

  predicate IsZero(m: mask) {
    forall k | 0 <= k < 16 :: !m[k]
  }

  /** The literals 1 and 2. */
  const ONE: mask := [true] + seq(15, _ => false)
  const TWO: mask := [false, true] + seq(14, _ => false)

  /** The operators above are the source's operators on `u16`. */
  lemma OrIs(x: mask, a: bv16, y: mask, b: bv16)
    requires Is(x, a) && Is(y, b)
    ensures Is(Or(x, y), a | b)
  {
  }

  lemma AndIs(x: mask, a: bv16, y: mask, b: bv16)
    requires Is(x, a) && Is(y, b)
    ensures Is(And(x, y), a & b)
  {
  }

  lemma NotIs(x: mask, a: bv16)
    requires Is(x, a)
    ensures Is(Not(x), !a)
  {
  }

  lemma ShiftIs(x: mask, a: bv16)
    requires Is(x, a)
    ensures Is(ShiftLeft(x), a << 1)
  {
  }

  lemma ConstantsAre(x: mask, a: bv16)
    requires Is(x, a)
    ensures Is(ONE, 1) && Is(TWO, 2) && (IsZero(x) <==> a == 0)
  {
  }

  datatype Kind = Setup | OutPacket | InComplete

  /** One class callback for one endpoint. */
  datatype EpCall = EpCall(kind: Kind, endpoint: nat, cls: nat)

  /** Pending events, one bit per endpoint. */
  datatype Pending = Pending(epOut: mask, epInComplete: mask, epSetup: mask)

  function All(ev: Pending): mask {
    Or(Or(ev.epOut, ev.epInComplete), ev.epSetup)
  }

  /** The same callback on every class, in list order. */
  function ToAll(kind: Kind, i: nat, classes: nat): seq<EpCall> {
    seq(classes, (c: nat) => EpCall(kind, i, c))
  }

  /** A SETUP packet hides an OUT packet; IN completion is reported after either. */
  function CallsFor(ev: Pending, i: nat, classes: nat): seq<EpCall>
    requires i < MAX_ENDPOINTS
  {
    (if ev.epSetup[i] then ToAll(Setup, i, classes)
     else if ev.epOut[i] then ToAll(OutPacket, i, classes)
     else [])
    + (if ev.epInComplete[i] then ToAll(InComplete, i, classes) else [])
  }

  /** Every endpoint from `i` on, ascending, with no early exit. */
  function Scan(ev: Pending, i: nat, classes: nat): seq<EpCall>
    requires i <= MAX_ENDPOINTS
    decreases MAX_ENDPOINTS - i
  {
    if i == MAX_ENDPOINTS then [] else CallsFor(ev, i, classes) + Scan(ev, i + 1, classes)
  }

  /** The shifted bit equals 2^i; past the last endpoint it has been shifted out. */
  ghost predicate IsBit(bit: mask, i: nat) {
    forall k | 0 <= k < 16 :: bit[k] <==> k == i
  }

  /** `eps` holds the pending events of endpoint `i` and above. */
  ghost predicate From(eps: mask, all: mask, i: nat) {
    forall k | 0 <= k < 16 :: eps[k] <==> i <= k && all[k]
  }

  /** When no pending bit is left from `i` on, neither is any callback. */
  lemma {:induction false} NothingLeft(ev: Pending, eps: mask, i: nat, classes: nat)
    requires i <= MAX_ENDPOINTS && From(eps, All(ev), i) && IsZero(eps)
    ensures Scan(ev, i, classes) == []
    decreases MAX_ENDPOINTS - i
  {
    if i < MAX_ENDPOINTS {
      assert !eps[i] && !All(ev)[i];
      NothingLeft(ev, eps, i + 1, classes);
    }
  }

  lemma ClearBit(eps: mask, all: mask, bit: mask, i: nat)
    requires i < MAX_ENDPOINTS && From(eps, all, i) && IsBit(bit, i)
    ensures From(And(eps, Not(bit)), all, i + 1)
  {
  }

  lemma ShiftBit(bit: mask, i: nat)
    requires IsBit(bit, i)
    ensures IsBit(ShiftLeft(bit), i + 1)
  {
  }

  method CallAll(kind: Kind, i: nat, classes: nat) returns (calls: seq<EpCall>)
    ensures calls == ToAll(kind, i, classes)
  {
    calls := [];
    for c := 0 to classes
      invariant calls == ToAll(kind, i, c)
    {
      calls := calls + [EpCall(kind, i, c)];
    }
  }

  /** A mask and a one-hot bit meet exactly when the mask has that bit. */
  lemma OneHot(m: mask, bit: mask, i: nat)
    requires i < MAX_ENDPOINTS && IsBit(bit, i)
    ensures !IsZero(And(m, bit)) <==> m[i]
  {
    assert And(m, bit)[i] == m[i];
  }

  /** The body of the loop, testing the masks against the shifted bit. */
  method Visit(ev: Pending, bit: mask, i: nat, classes: nat) returns (calls: seq<EpCall>)
    requires i < MAX_ENDPOINTS && IsBit(bit, i)
    ensures calls == CallsFor(ev, i, classes)
  {
    OneHot(ev.epSetup, bit, i);
    OneHot(ev.epOut, bit, i);
    OneHot(ev.epInComplete, bit, i);
    calls := [];
    if !IsZero(And(ev.epSetup, bit)) {
      calls := CallAll(Setup, i, classes);
    } else if !IsZero(And(ev.epOut, bit)) {
      calls := CallAll(OutPacket, i, classes);
    }
    if !IsZero(And(ev.epInComplete, bit)) {
      var more := CallAll(InComplete, i, classes);
      calls := calls + more;
    }
  }

  lemma ScanStep(ev: Pending, i: nat, classes: nat, calls: seq<EpCall>)
    requires i < MAX_ENDPOINTS
    ensures calls + Scan(ev, i, classes) == (calls + CallsFor(ev, i, classes)) + Scan(ev, i + 1, classes)
  {
  }

  /** The loop. The early exit drops no event, for any masks and any class list. */
  method DispatchEndpoints(ev: Pending, classes: nat) returns (calls: seq<EpCall>)
    ensures calls == Scan(ev, 1, classes)
  {
    calls := [];
    var eps := And(Or(Or(ev.epOut, ev.epInComplete), ev.epSetup), Not(ONE));
    assert From(eps, All(ev), 1);
    if IsZero(eps) {
      NothingLeft(ev, eps, 1, classes);
      return;
    }
    var bit := TWO;
    var i := 1;
    while i < MAX_ENDPOINTS
      invariant 1 <= i <= MAX_ENDPOINTS
      invariant IsBit(bit, i) && From(eps, All(ev), i)
      invariant calls + Scan(ev, i, classes) == Scan(ev, 1, classes)
    {
      var now := Visit(ev, bit, i, classes);
      ScanStep(ev, i, classes, calls);
      calls := calls + now;
      ClearBit(eps, All(ev), bit, i);
      eps := And(eps, Not(bit));
      if IsZero(eps) {
        // Nothing is pending from here on.
        NothingLeft(ev, eps, i + 1, classes);
        break;
      }
      ShiftBit(bit, i);
      bit := ShiftLeft(bit);
      i := i + 1;
    }
  }

  /** Which callbacks a poll makes, read off the masks. */
  lemma {:induction false} ScanContains(ev: Pending, i: nat, classes: nat, call: EpCall)
    requires i <= MAX_ENDPOINTS
    ensures call in Scan(ev, i, classes) <==>
            && i <= call.endpoint < MAX_ENDPOINTS && call.cls < classes
            && match call.kind
               case Setup => ev.epSetup[call.endpoint]
               case OutPacket => ev.epOut[call.endpoint] && !ev.epSetup[call.endpoint]
               case InComplete => ev.epInComplete[call.endpoint]
    decreases MAX_ENDPOINTS - i
  {
    if i < MAX_ENDPOINTS {
      ScanContains(ev, i + 1, classes, call);
      forall k: Kind
        ensures call in ToAll(k, i, classes) <==> call.kind == k && call.endpoint == i && call.cls < classes
      {
        if call.kind == k && call.endpoint == i && call.cls < classes {
          assert ToAll(k, i, classes)[call.cls] == call;
        }
      }
    }
  }
}

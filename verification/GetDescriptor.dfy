/** `get_descriptor` of src/device.rs: which descriptor a GET_DESCRIPTOR request renders. */
module GetDescriptor {
  import opened UsbTypes
  import opened Control
  import opened DescriptorModel
  import opened DescriptorRoundTrip
  import opened BosRoundTrip

  const DEVICE: byte := 1
  const USB_200: u16 := 0x200

  /** The strings of one language, as UTF-16 code units. */
  datatype Language = Language(
    id: u16, manufacturer: Option<seq<u16>>, product: Option<seq<u16>>, serial: Option<seq<u16>>)

  /** The fields of `device::Config` that the device descriptor is made of. */
  datatype Identity = Identity(
    usbRev: u16, cls: byte, sub: byte, protocol: byte, mps0: byte, vendor: u16, product: u16, release: u16)

  /** What the device and its classes have to tell. */
  datatype Facts = Facts(
    identity: Identity,
    config: Config,
    languages: seq<Language>,
    classes: seq<seq<Entry>>,                 // what each class writes into the configuration
    caps: seq<Cap>,                           // the capabilities all classes add
    classStrings: seq<Option<seq<u16>>>)      // each class's answer for the index and language asked for

  /** A string's index in the device descriptor; 0 if the first language has none. */
  function StringIndex(languages: seq<Language>, text: Language -> Option<seq<u16>>, index: byte): byte {
    if languages != [] && text(languages[0]).Some? then index else 0
  }

  /** The device descriptor without its first two bytes. */
  function DeviceBytes(f: Facts): seq<byte> {
    var i := f.identity;
    LittleEndian(i.usbRev) + [i.cls, i.sub, i.protocol, i.mps0]
    + LittleEndian(i.vendor) + LittleEndian(i.product) + LittleEndian(i.release)
    + [StringIndex(f.languages, (l: Language) => l.manufacturer, 1),
       StringIndex(f.languages, (l: Language) => l.product, 2),
       StringIndex(f.languages, (l: Language) => l.serial, 3), 1]
  }

  function LanguageIds(languages: seq<Language>): seq<byte> {
    if languages == [] then [] else LittleEndian(languages[0].id) + LanguageIds(languages[1..])
  }

  function FindLanguage(languages: seq<Language>, id: u16): Option<Language> {
    if languages == [] then None
    else if languages[0].id == id then Some(languages[0])
    else FindLanguage(languages[1..], id)
  }

  function FirstString(answers: seq<Option<seq<u16>>>): Option<seq<u16>> {
    if answers == [] then None else if answers[0].Some? then answers[0] else FirstString(answers[1..])
  }

  function FindString(f: Facts, index: byte, id: u16): Option<seq<u16>> {
    if 1 <= index <= 3 then
      match FindLanguage(f.languages, id)
      case None => None
      case Some(l) => if index == 1 then l.manufacturer else if index == 2 then l.product else l.serial
    else FirstString(f.classStrings)
  }

  /** The writer when the callback returns; None is a rejected request. */
  function Render(buf: seq<byte>, req: Request, f: Facts): Option<Next> {
    var (dtype, index) := DescriptorTypeIndex(req);
    if dtype == BOS && f.identity.usbRev > USB_200 then Some(AssembleBos(buf, f.caps))
    else if dtype == DEVICE then Some(Write(Fresh(buf), DEVICE, DeviceBytes(f)))
    else if dtype == CONFIGURATION then Some(Assemble(buf, f.config, f.classes))
    else if dtype != STRING then None
    else if index == 0 then Some(Write(Fresh(buf), STRING, LanguageIds(f.languages)))
    else
      match FindString(f, index, req.index)
      case None => None
      case Some(units) => Some(WriteString(Fresh(buf), units))
  }

  /** A finished descriptor is within the buffer it was rendered into. */
  lemma RenderFits(buf: seq<byte>, req: Request, f: Facts)
    requires HonestClasses(f.classes) && Render(buf, req, f).Some? && Render(buf, req, f).value.status.Good?
    ensures var w := Render(buf, req, f).value.w; w.position <= |w.buf| == |buf|
  {
    hide Assemble, AssembleBos, Write, WriteString, HonestClasses, DeviceBytes;
    var (dtype, index) := DescriptorTypeIndex(req);
    if dtype == BOS && f.identity.usbRev > USB_200 {
      BosOutcome(buf, f.caps);
      BosPrinted(buf, f.caps);
    } else if dtype == DEVICE {
      WriteAppends(Fresh(buf), DEVICE, DeviceBytes(f));
    } else if dtype == CONFIGURATION {
      ConfigRoundTrip(buf, f.config, f.classes);
    } else if index == 0 {
      WriteAppends(Fresh(buf), STRING, LanguageIds(f.languages));
    } else {
      StringFits(buf, FindString(f, index, req.index).value);
    }
  }

  lemma StringFits(buf: seq<byte>, units: seq<u16>)
    requires WriteString(Fresh(buf), units).status.Good?
    ensures var w := WriteString(Fresh(buf), units).w; w.position <= |w.buf| == |buf|
  {
    StringRoundTrip(Fresh(buf), units);
  }

  /** The language is the first with this id. */
  ghost predicate IsFirst(languages: seq<Language>, id: u16, k: nat) {
    k < |languages| && languages[k].id == id && forall j | 0 <= j < k :: languages[j].id != id
  }

  /** The class is the first to know the string. */
  ghost predicate KnowsFirst(answers: seq<Option<seq<u16>>>, k: nat) {
    k < |answers| && answers[k].Some? && forall j | 0 <= j < k :: answers[j].None?
  }

  /** The string that an index and a language select. */
  ghost predicate Selects(f: Facts, index: byte, id: u16, units: seq<u16>) {
    match index
    case 1 => exists k: nat :: IsFirst(f.languages, id, k) && f.languages[k].manufacturer == Some(units)
    case 2 => exists k: nat :: IsFirst(f.languages, id, k) && f.languages[k].product == Some(units)
    case 3 => exists k: nat :: IsFirst(f.languages, id, k) && f.languages[k].serial == Some(units)
    case _ => exists k: nat :: KnowsFirst(f.classStrings, k) && f.classStrings[k] == Some(units)
  }

  lemma {:induction false} FirstLanguage(languages: seq<Language>, id: u16) returns (k: nat)
    ensures k <= |languages|
    ensures k < |languages| ==> IsFirst(languages, id, k) && FindLanguage(languages, id) == Some(languages[k])
    ensures k == |languages| ==> FindLanguage(languages, id).None? && forall j: nat :: !IsFirst(languages, id, j)
    ensures forall j: nat | IsFirst(languages, id, j) :: j == k
  {
    if languages == [] || languages[0].id == id {
      k := 0;
    } else {
      k := FirstLanguage(languages[1..], id);
      k := k + 1;
      assert forall j: nat | IsFirst(languages, id, j) :: IsFirst(languages[1..], id, j - 1);
    }
  }

  lemma {:induction false} FirstAnswer(answers: seq<Option<seq<u16>>>) returns (k: nat)
    ensures k <= |answers|
    ensures k < |answers| ==> KnowsFirst(answers, k) && FirstString(answers) == answers[k]
    ensures k == |answers| ==> FirstString(answers).None? && forall j: nat :: !KnowsFirst(answers, j)
    ensures forall j: nat | KnowsFirst(answers, j) :: j == k
  {
    if answers == [] || answers[0].Some? {
      k := 0;
    } else {
      k := FirstAnswer(answers[1..]);
      k := k + 1;
      assert forall j: nat | KnowsFirst(answers, j) :: KnowsFirst(answers[1..], j - 1);
    }
  }

  lemma SelectsIff(f: Facts, index: byte, id: u16, units: seq<u16>)
    ensures FindString(f, index, id) == Some(units) <==> Selects(f, index, id, units)
  {
    var k := FirstLanguage(f.languages, id);
    var c := FirstAnswer(f.classStrings);
    hide FindLanguage, FirstString, IsFirst, KnowsFirst;
  }

  /** There is such a descriptor. */
  ghost predicate Exists(s: SetupPacket, f: Facts) {
    var dtype, index := s.value / 0x100, s.value % 0x100;
    || dtype == 1 || dtype == 2 || (dtype == 15 && f.identity.usbRev > 0x200)
    || (dtype == 3 && (index == 0 || exists units :: Selects(f, index, s.index, units)))
  }

  /** A request is refused exactly when there is no such descriptor. */
  lemma RefusedIff(buf: seq<byte>, s: SetupPacket, f: Facts)
    ensures Render(buf, RequestOf(s), f).None? <==> !Exists(s, f)
  {
    var index := s.value % 0x100;
    var found := FindString(f, index, s.index);
    if found.Some? {
      SelectsIff(f, index, s.index, found.value);
    }
    forall units | Selects(f, index, s.index, units) ensures found == Some(units) {
      SelectsIff(f, index, s.index, units);
    }
    hide FindString, Selects, Assemble, AssembleBos, Write, WriteString, DirectionOf, TypeOf, RecipientOf;
  }
}

/** The InfiniBand header layout tables of the kernel-side driver: for each
    work-request opcode, the operation class it has on each QP type; for
    each packet opcode (transport and operation, section 9.2 of the
    InfiniBand Architecture Specification, Volume 1), the headers present,
    the length of the headers and the byte offset of each header and of the
    payload. The byte sizes of the headers come from a header file that is
    not part of this model and are kept symbolic. */
module Opcode {
  import opened Types

  // ---------------------------------------------------------------------
  // Packet opcodes

  /** The transport service of a packet opcode (its top three bits). */
  datatype Transport = RC | UC | RD | UD

  /** The operation of a packet opcode (its low five bits). */
  datatype Operation =
    | SendFirst | SendMiddle | SendLast | SendLastWithImmediate | SendOnly | SendOnlyWithImmediate
    | RdmaWriteFirst | RdmaWriteMiddle | RdmaWriteLast | RdmaWriteLastWithImmediate
    | RdmaWriteOnly | RdmaWriteOnlyWithImmediate
    | RdmaReadRequest
    | RdmaReadResponseFirst | RdmaReadResponseMiddle | RdmaReadResponseLast | RdmaReadResponseOnly
    | Acknowledge | AtomicAcknowledge | CompareSwap | FetchAdd
    | SendLastWithInvalidate | SendOnlyWithInvalidate

  datatype Opcode = Opcode(transport: Transport, operation: Operation)

  /** The headers a table entry can give an offset for: the base transport
      header, the extended transport headers of section 9.3, and the
      payload. */
  datatype Header = BTH | RETH | AETH | ATMETH | ATMACK | IETH | RDETH | DETH | IMMDT | PAYLOAD

  /** The bits of an entry's mask: one per header present, and the
      classification bits. */
  datatype MaskBit =
    | Has(header: Header)
    | Req | Ack
    | SendOp | WriteOp | ReadOp | AtomicOp
    | Rwr | Comp
    | Start | Middle | End

  /** The byte size of each header (`DTLD_*_BYTES`). */
  datatype HeaderSizes = HeaderSizes(
    bth: nat, reth: nat, aeth: nat, atmeth: nat, atmack: nat, ieth: nat, rdeth: nat, deth: nat, immdt: nat)

  predicate PositiveSizes(sz: HeaderSizes)
  {
    sz.bth > 0 && sz.reth > 0 && sz.aeth > 0 && sz.atmeth > 0 && sz.atmack > 0 && sz.ieth > 0
    && sz.rdeth > 0 && sz.deth > 0 && sz.immdt > 0
  }

  /** The size of a header; the payload has no fixed size. */
  function Size(sz: HeaderSizes, h: Header): nat
  {
    match h
    case BTH => sz.bth
    case RETH => sz.reth
    case AETH => sz.aeth
    case ATMETH => sz.atmeth
    case ATMACK => sz.atmack
    case IETH => sz.ieth
    case RDETH => sz.rdeth
    case DETH => sz.deth
    case IMMDT => sz.immdt
    case PAYLOAD => 0
  }

  /** An entry of the packet-opcode table (`struct dtld_opcode_info`). The
      C initialiser leaves unlisted offsets zero; `offset` holds the listed
      ones. */
  datatype OpcodeInfo = OpcodeInfo(mask: set<MaskBit>, length: nat, offset: map<Header, nat>)

  /** The offset a consumer of the table reads for `h`: zero when the entry
      lists none. */
  function OffsetOf(info: OpcodeInfo, h: Header): nat
  {
    if h in info.offset then info.offset[h] else 0
  }

  /** The packet-opcode table; `None` where the table has no entry. */
  function Info(sz: HeaderSizes, op: Opcode): (r: Option<OpcodeInfo>)
    ensures r.Some? <==> Supported(op)
    ensures r.Some? ==> BTH in r.value.offset && r.value.offset[BTH] == 0
  {
    match op.transport
    case RC => RCInfo(sz, op.operation)
    case UC => UCInfo(sz, op.operation)
    case RD => RDInfo(sz, op.operation)
    case UD => UDInfo(sz, op.operation)
  }

  /** The RC entries. */
  function RCInfo(sz: HeaderSizes, o: Operation): (r: Option<OpcodeInfo>)
    ensures r.Some? <==> Supported(Opcode(RC, o))
    ensures r.Some? ==> BTH in r.value.offset && r.value.offset[BTH] == 0
  {
    match o
    case SendFirst =>
      Some(OpcodeInfo({Has(PAYLOAD), Req, Rwr, SendOp, Start},
                      sz.bth,
                      map[BTH := 0, PAYLOAD := sz.bth]))
    case SendMiddle =>
      Some(OpcodeInfo({Has(PAYLOAD), Req, SendOp, Middle},
                      sz.bth,
                      map[BTH := 0, PAYLOAD := sz.bth]))
    case SendLast =>
      Some(OpcodeInfo({Has(PAYLOAD), Req, Comp, SendOp, End},
                      sz.bth,
                      map[BTH := 0, PAYLOAD := sz.bth]))
    case SendLastWithImmediate =>
      Some(OpcodeInfo({Has(IMMDT), Has(PAYLOAD), Req, Comp, SendOp, End},
                      sz.bth + sz.immdt,
                      map[BTH := 0, IMMDT := sz.bth, PAYLOAD := sz.bth + sz.immdt]))
    case SendOnly =>
      Some(OpcodeInfo({Has(PAYLOAD), Req, Comp, Rwr, SendOp, Start, End},
                      sz.bth,
                      map[BTH := 0, PAYLOAD := sz.bth]))
    case SendOnlyWithImmediate =>
      Some(OpcodeInfo({Has(IMMDT), Has(PAYLOAD), Req, Comp, Rwr, SendOp, Start, End},
                      sz.bth + sz.immdt,
                      map[BTH := 0, IMMDT := sz.bth, PAYLOAD := sz.bth + sz.immdt]))
    case RdmaWriteFirst =>
      Some(OpcodeInfo({Has(RETH), Has(PAYLOAD), Req, WriteOp, Start},
                      sz.bth + sz.reth,
                      map[BTH := 0, RETH := sz.bth, PAYLOAD := sz.bth + sz.reth]))
    case RdmaWriteMiddle =>
      Some(OpcodeInfo({Has(PAYLOAD), Req, WriteOp, Middle},
                      sz.bth,
                      map[BTH := 0, PAYLOAD := sz.bth]))
    case RdmaWriteLast =>
      Some(OpcodeInfo({Has(PAYLOAD), Req, WriteOp, End},
                      sz.bth,
                      map[BTH := 0, PAYLOAD := sz.bth]))
    case RdmaWriteLastWithImmediate =>
      Some(OpcodeInfo({Has(IMMDT), Has(PAYLOAD), Req, WriteOp, Comp, Rwr, End},
                      sz.bth + sz.immdt,
                      map[BTH := 0, IMMDT := sz.bth, PAYLOAD := sz.bth + sz.immdt]))
    case RdmaWriteOnly =>
      Some(OpcodeInfo({Has(RETH), Has(PAYLOAD), Req, WriteOp, Start, End},
                      sz.bth + sz.reth,
                      map[BTH := 0, RETH := sz.bth, PAYLOAD := sz.bth + sz.reth]))
    case RdmaWriteOnlyWithImmediate =>
      Some(OpcodeInfo({Has(RETH), Has(IMMDT), Has(PAYLOAD), Req, WriteOp, Comp, Rwr, Start, End},
                      sz.bth + sz.immdt + sz.reth,
                      map[BTH := 0, RETH := sz.bth, IMMDT := sz.bth + sz.reth, PAYLOAD := sz.bth + sz.reth + sz.immdt]))
    case RdmaReadRequest =>
      Some(OpcodeInfo({Has(RETH), Req, ReadOp, Start, End},
                      sz.bth + sz.reth,
                      map[BTH := 0, RETH := sz.bth, PAYLOAD := sz.bth + sz.reth]))
    case RdmaReadResponseFirst =>
      Some(OpcodeInfo({Has(AETH), Has(PAYLOAD), Ack, Start},
                      sz.bth + sz.aeth,
                      map[BTH := 0, AETH := sz.bth, PAYLOAD := sz.bth + sz.aeth]))
    case RdmaReadResponseMiddle =>
      Some(OpcodeInfo({Has(PAYLOAD), Ack, Middle},
                      sz.bth,
                      map[BTH := 0, PAYLOAD := sz.bth]))
    case RdmaReadResponseLast =>
      Some(OpcodeInfo({Has(AETH), Has(PAYLOAD), Ack, End},
                      sz.bth + sz.aeth,
                      map[BTH := 0, AETH := sz.bth, PAYLOAD := sz.bth + sz.aeth]))
    case RdmaReadResponseOnly =>
      Some(OpcodeInfo({Has(AETH), Has(PAYLOAD), Ack, Start, End},
                      sz.bth + sz.aeth,
                      map[BTH := 0, AETH := sz.bth, PAYLOAD := sz.bth + sz.aeth]))
    case Acknowledge =>
      Some(OpcodeInfo({Has(AETH), Ack, Start, End},
                      sz.bth + sz.aeth,
                      map[BTH := 0, AETH := sz.bth, PAYLOAD := sz.bth + sz.aeth]))
    case AtomicAcknowledge =>
      Some(OpcodeInfo({Has(AETH), Has(ATMACK), Ack, Start, End},
                      sz.bth + sz.atmack + sz.aeth,
                      map[BTH := 0, AETH := sz.bth, ATMACK := sz.bth + sz.aeth, PAYLOAD := sz.bth + sz.atmack + sz.aeth]))
    case CompareSwap =>
      Some(OpcodeInfo({Has(ATMETH), Req, AtomicOp, Start, End},
                      sz.bth + sz.atmeth,
                      map[BTH := 0, ATMETH := sz.bth, PAYLOAD := sz.bth + sz.atmeth]))
    case FetchAdd =>
      Some(OpcodeInfo({Has(ATMETH), Req, AtomicOp, Start, End},
                      sz.bth + sz.atmeth,
                      map[BTH := 0, ATMETH := sz.bth, PAYLOAD := sz.bth + sz.atmeth]))
    case SendLastWithInvalidate =>
      Some(OpcodeInfo({Has(IETH), Has(PAYLOAD), Req, Comp, SendOp, End},
                      sz.bth + sz.ieth,
                      map[BTH := 0, IETH := sz.bth, PAYLOAD := sz.bth + sz.ieth]))
    case SendOnlyWithInvalidate =>
      Some(OpcodeInfo({Has(IETH), Has(PAYLOAD), Req, Comp, Rwr, SendOp, End, Start},
                      sz.bth + sz.ieth,
                      map[BTH := 0, IETH := sz.bth, PAYLOAD := sz.bth + sz.ieth]))
  }

  /** The UC entries. */
  function UCInfo(sz: HeaderSizes, o: Operation): (r: Option<OpcodeInfo>)
    ensures r.Some? <==> Supported(Opcode(UC, o))
    ensures r.Some? ==> BTH in r.value.offset && r.value.offset[BTH] == 0
  {
    match o
    case SendFirst =>
      Some(OpcodeInfo({Has(PAYLOAD), Req, Rwr, SendOp, Start},
                      sz.bth,
                      map[BTH := 0, PAYLOAD := sz.bth]))
    case SendMiddle =>
      Some(OpcodeInfo({Has(PAYLOAD), Req, SendOp, Middle},
                      sz.bth,
                      map[BTH := 0, PAYLOAD := sz.bth]))
    case SendLast =>
      Some(OpcodeInfo({Has(PAYLOAD), Req, Comp, SendOp, End},
                      sz.bth,
                      map[BTH := 0, PAYLOAD := sz.bth]))
    case SendLastWithImmediate =>
      Some(OpcodeInfo({Has(IMMDT), Has(PAYLOAD), Req, Comp, SendOp, End},
                      sz.bth + sz.immdt,
                      map[BTH := 0, IMMDT := sz.bth, PAYLOAD := sz.bth + sz.immdt]))
    case SendOnly =>
      Some(OpcodeInfo({Has(PAYLOAD), Req, Comp, Rwr, SendOp, Start, End},
                      sz.bth,
                      map[BTH := 0, PAYLOAD := sz.bth]))
    case SendOnlyWithImmediate =>
      Some(OpcodeInfo({Has(IMMDT), Has(PAYLOAD), Req, Comp, Rwr, SendOp, Start, End},
                      sz.bth + sz.immdt,
                      map[BTH := 0, IMMDT := sz.bth, PAYLOAD := sz.bth + sz.immdt]))
    case RdmaWriteFirst =>
      Some(OpcodeInfo({Has(RETH), Has(PAYLOAD), Req, WriteOp, Start},
                      sz.bth + sz.reth,
                      map[BTH := 0, RETH := sz.bth, PAYLOAD := sz.bth + sz.reth]))
    case RdmaWriteMiddle =>
      Some(OpcodeInfo({Has(PAYLOAD), Req, WriteOp, Middle},
                      sz.bth,
                      map[BTH := 0, PAYLOAD := sz.bth]))
    case RdmaWriteLast =>
      Some(OpcodeInfo({Has(PAYLOAD), Req, WriteOp, End},
                      sz.bth,
                      map[BTH := 0, PAYLOAD := sz.bth]))
    case RdmaWriteLastWithImmediate =>
      Some(OpcodeInfo({Has(IMMDT), Has(PAYLOAD), Req, WriteOp, Comp, Rwr, End},
                      sz.bth + sz.immdt,
                      map[BTH := 0, IMMDT := sz.bth, PAYLOAD := sz.bth + sz.immdt]))
    case RdmaWriteOnly =>
      Some(OpcodeInfo({Has(RETH), Has(PAYLOAD), Req, WriteOp, Start, End},
                      sz.bth + sz.reth,
                      map[BTH := 0, RETH := sz.bth, PAYLOAD := sz.bth + sz.reth]))
    case RdmaWriteOnlyWithImmediate =>
      Some(OpcodeInfo({Has(RETH), Has(IMMDT), Has(PAYLOAD), Req, WriteOp, Comp, Rwr, Start, End},
                      sz.bth + sz.immdt + sz.reth,
                      map[BTH := 0, RETH := sz.bth, IMMDT := sz.bth + sz.reth, PAYLOAD := sz.bth + sz.reth + sz.immdt]))
    case _ => None
  }

  /** The RD entries. */
  function RDInfo(sz: HeaderSizes, o: Operation): (r: Option<OpcodeInfo>)
    ensures r.Some? <==> Supported(Opcode(RD, o))
    ensures r.Some? ==> BTH in r.value.offset && r.value.offset[BTH] == 0
  {
    match o
    case SendFirst =>
      Some(OpcodeInfo({Has(RDETH), Has(DETH), Has(PAYLOAD), Req, Rwr, SendOp, Start},
                      sz.bth + sz.deth + sz.rdeth,
                      map[BTH := 0, RDETH := sz.bth, DETH := sz.bth + sz.rdeth, PAYLOAD := sz.bth + sz.rdeth + sz.deth]))
    case SendMiddle =>
      Some(OpcodeInfo({Has(RDETH), Has(DETH), Has(PAYLOAD), Req, SendOp, Middle},
                      sz.bth + sz.deth + sz.rdeth,
                      map[BTH := 0, RDETH := sz.bth, DETH := sz.bth + sz.rdeth, PAYLOAD := sz.bth + sz.rdeth + sz.deth]))
    case SendLast =>
      Some(OpcodeInfo({Has(RDETH), Has(DETH), Has(PAYLOAD), Req, Comp, SendOp, End},
                      sz.bth + sz.deth + sz.rdeth,
                      map[BTH := 0, RDETH := sz.bth, DETH := sz.bth + sz.rdeth, PAYLOAD := sz.bth + sz.rdeth + sz.deth]))
    case SendLastWithImmediate =>
      Some(OpcodeInfo({Has(RDETH), Has(DETH), Has(IMMDT), Has(PAYLOAD), Req, Comp, SendOp, End},
                      sz.bth + sz.immdt + sz.deth + sz.rdeth,
                      map[BTH := 0, RDETH := sz.bth, DETH := sz.bth + sz.rdeth, IMMDT := sz.bth + sz.rdeth + sz.deth, PAYLOAD := sz.bth + sz.rdeth + sz.deth + sz.immdt]))
    case SendOnly =>
      Some(OpcodeInfo({Has(RDETH), Has(DETH), Has(PAYLOAD), Req, Comp, Rwr, SendOp, Start, End},
                      sz.bth + sz.deth + sz.rdeth,
                      map[BTH := 0, RDETH := sz.bth, DETH := sz.bth + sz.rdeth, PAYLOAD := sz.bth + sz.rdeth + sz.deth]))
    case SendOnlyWithImmediate =>
      Some(OpcodeInfo({Has(RDETH), Has(DETH), Has(IMMDT), Has(PAYLOAD), Req, Comp, Rwr, SendOp, Start, End},
                      sz.bth + sz.immdt + sz.deth + sz.rdeth,
                      map[BTH := 0, RDETH := sz.bth, DETH := sz.bth + sz.rdeth, IMMDT := sz.bth + sz.rdeth + sz.deth, PAYLOAD := sz.bth + sz.rdeth + sz.deth + sz.immdt]))
    case RdmaWriteFirst =>
      Some(OpcodeInfo({Has(RDETH), Has(DETH), Has(RETH), Has(PAYLOAD), Req, WriteOp, Start},
                      sz.bth + sz.reth + sz.deth + sz.rdeth,
                      map[BTH := 0, RDETH := sz.bth, DETH := sz.bth + sz.rdeth, RETH := sz.bth + sz.rdeth + sz.deth, PAYLOAD := sz.bth + sz.rdeth + sz.deth + sz.reth]))
    case RdmaWriteMiddle =>
      Some(OpcodeInfo({Has(RDETH), Has(DETH), Has(PAYLOAD), Req, WriteOp, Middle},
                      sz.bth + sz.deth + sz.rdeth,
                      map[BTH := 0, RDETH := sz.bth, DETH := sz.bth + sz.rdeth, PAYLOAD := sz.bth + sz.rdeth + sz.deth]))
    case RdmaWriteLast =>
      Some(OpcodeInfo({Has(RDETH), Has(DETH), Has(PAYLOAD), Req, WriteOp, End},
                      sz.bth + sz.deth + sz.rdeth,
                      map[BTH := 0, RDETH := sz.bth, DETH := sz.bth + sz.rdeth, PAYLOAD := sz.bth + sz.rdeth + sz.deth]))
    case RdmaWriteLastWithImmediate =>
      Some(OpcodeInfo({Has(RDETH), Has(DETH), Has(IMMDT), Has(PAYLOAD), Req, WriteOp, Comp, Rwr, End},
                      sz.bth + sz.immdt + sz.deth + sz.rdeth,
                      map[BTH := 0, RDETH := sz.bth, DETH := sz.bth + sz.rdeth, IMMDT := sz.bth + sz.rdeth + sz.deth, PAYLOAD := sz.bth + sz.rdeth + sz.deth + sz.immdt]))
    case RdmaWriteOnly =>
      Some(OpcodeInfo({Has(RDETH), Has(DETH), Has(RETH), Has(PAYLOAD), Req, WriteOp, Start, End},
                      sz.bth + sz.reth + sz.deth + sz.rdeth,
                      map[BTH := 0, RDETH := sz.bth, DETH := sz.bth + sz.rdeth, RETH := sz.bth + sz.rdeth + sz.deth, PAYLOAD := sz.bth + sz.rdeth + sz.deth + sz.reth]))
    case RdmaWriteOnlyWithImmediate =>
      Some(OpcodeInfo({Has(RDETH), Has(DETH), Has(RETH), Has(IMMDT), Has(PAYLOAD), Req, WriteOp, Comp, Rwr, Start, End},
                      sz.bth + sz.immdt + sz.reth + sz.deth + sz.rdeth,
                      map[BTH := 0, RDETH := sz.bth, DETH := sz.bth + sz.rdeth, RETH := sz.bth + sz.rdeth + sz.deth, IMMDT := sz.bth + sz.rdeth + sz.deth + sz.reth, PAYLOAD := sz.bth + sz.rdeth + sz.deth + sz.reth + sz.immdt]))
    case RdmaReadRequest =>
      Some(OpcodeInfo({Has(RDETH), Has(DETH), Has(RETH), Req, ReadOp, Start, End},
                      sz.bth + sz.reth + sz.deth + sz.rdeth,
                      map[BTH := 0, RDETH := sz.bth, DETH := sz.bth + sz.rdeth, RETH := sz.bth + sz.rdeth + sz.deth, PAYLOAD := sz.bth + sz.reth + sz.deth + sz.rdeth]))
    case RdmaReadResponseFirst =>
      Some(OpcodeInfo({Has(RDETH), Has(AETH), Has(PAYLOAD), Ack, Start},
                      sz.bth + sz.aeth + sz.rdeth,
                      map[BTH := 0, RDETH := sz.bth, AETH := sz.bth + sz.rdeth, PAYLOAD := sz.bth + sz.rdeth + sz.aeth]))
    case RdmaReadResponseMiddle =>
      Some(OpcodeInfo({Has(RDETH), Has(PAYLOAD), Ack, Middle},
                      sz.bth + sz.rdeth,
                      map[BTH := 0, RDETH := sz.bth, PAYLOAD := sz.bth + sz.rdeth]))
    case RdmaReadResponseLast =>
      Some(OpcodeInfo({Has(RDETH), Has(AETH), Has(PAYLOAD), Ack, End},
                      sz.bth + sz.aeth + sz.rdeth,
                      map[BTH := 0, RDETH := sz.bth, AETH := sz.bth + sz.rdeth, PAYLOAD := sz.bth + sz.rdeth + sz.aeth]))
    case RdmaReadResponseOnly =>
      Some(OpcodeInfo({Has(RDETH), Has(AETH), Has(PAYLOAD), Ack, Start, End},
                      sz.bth + sz.aeth + sz.rdeth,
                      map[BTH := 0, RDETH := sz.bth, AETH := sz.bth + sz.rdeth, PAYLOAD := sz.bth + sz.rdeth + sz.aeth]))
    case Acknowledge =>
      Some(OpcodeInfo({Has(RDETH), Has(AETH), Ack, Start, End},
                      sz.bth + sz.aeth + sz.rdeth,
                      map[BTH := 0, RDETH := sz.bth, AETH := sz.bth + sz.rdeth]))
    case AtomicAcknowledge =>
      Some(OpcodeInfo({Has(RDETH), Has(AETH), Has(ATMACK), Ack, Start, End},
                      sz.bth + sz.atmack + sz.aeth + sz.rdeth,
                      map[BTH := 0, RDETH := sz.bth, AETH := sz.bth + sz.rdeth, ATMACK := sz.bth + sz.rdeth + sz.aeth]))
    case CompareSwap =>
      Some(OpcodeInfo({Has(RDETH), Has(DETH), Has(ATMETH), Req, AtomicOp, Start, End},
                      sz.bth + sz.atmeth + sz.deth + sz.rdeth,
                      map[BTH := 0, RDETH := sz.bth, DETH := sz.bth + sz.rdeth, ATMETH := sz.bth + sz.rdeth + sz.deth, PAYLOAD := sz.bth + sz.atmeth + sz.deth + sz.rdeth]))
    case FetchAdd =>
      Some(OpcodeInfo({Has(RDETH), Has(DETH), Has(ATMETH), Req, AtomicOp, Start, End},
                      sz.bth + sz.atmeth + sz.deth + sz.rdeth,
                      map[BTH := 0, RDETH := sz.bth, DETH := sz.bth + sz.rdeth, ATMETH := sz.bth + sz.rdeth + sz.deth, PAYLOAD := sz.bth + sz.atmeth + sz.deth + sz.rdeth]))
    case _ => None
  }

  /** The UD entries. */
  function UDInfo(sz: HeaderSizes, o: Operation): (r: Option<OpcodeInfo>)
    ensures r.Some? <==> Supported(Opcode(UD, o))
    ensures r.Some? ==> BTH in r.value.offset && r.value.offset[BTH] == 0
  {
    match o
    case SendOnly =>
      Some(OpcodeInfo({Has(DETH), Has(PAYLOAD), Req, Comp, Rwr, SendOp, Start, End},
                      sz.bth + sz.deth,
                      map[BTH := 0, DETH := sz.bth, PAYLOAD := sz.bth + sz.deth]))
    case SendOnlyWithImmediate =>
      Some(OpcodeInfo({Has(DETH), Has(IMMDT), Has(PAYLOAD), Req, Comp, Rwr, SendOp, Start, End},
                      sz.bth + sz.immdt + sz.deth,
                      map[BTH := 0, DETH := sz.bth, IMMDT := sz.bth + sz.deth, PAYLOAD := sz.bth + sz.deth + sz.immdt]))
    case _ => None
  }
  // ---------------------------------------------------------------------
  // Opcode numbers

  function TransportCode(t: Transport): nat
  {
    match t
    case RC => 0x00
    case UC => 0x20
    case RD => 0x40
    case UD => 0x60
  }

  function OperationCode(o: Operation): nat
  {
    match o
    case SendFirst => 0x00
    case SendMiddle => 0x01
    case SendLast => 0x02
    case SendLastWithImmediate => 0x03
    case SendOnly => 0x04
    case SendOnlyWithImmediate => 0x05
    case RdmaWriteFirst => 0x06
    case RdmaWriteMiddle => 0x07
    case RdmaWriteLast => 0x08
    case RdmaWriteLastWithImmediate => 0x09
    case RdmaWriteOnly => 0x0a
    case RdmaWriteOnlyWithImmediate => 0x0b
    case RdmaReadRequest => 0x0c
    case RdmaReadResponseFirst => 0x0d
    case RdmaReadResponseMiddle => 0x0e
    case RdmaReadResponseLast => 0x0f
    case RdmaReadResponseOnly => 0x10
    case Acknowledge => 0x11
    case AtomicAcknowledge => 0x12
    case CompareSwap => 0x13
    case FetchAdd => 0x14
    case SendLastWithInvalidate => 0x16
    case SendOnlyWithInvalidate => 0x17
  }

  /** The 8-bit opcode field of the base transport header. */
  function Code(op: Opcode): (c: nat)
    ensures c < 0x80
  {
    TransportCode(op.transport) + OperationCode(op.operation)
  }

  function DecodeOperation(c: nat): Option<Operation>
  {
    match c
    case 0x00 => Some(SendFirst)
    case 0x01 => Some(SendMiddle)
    case 0x02 => Some(SendLast)
    case 0x03 => Some(SendLastWithImmediate)
    case 0x04 => Some(SendOnly)
    case 0x05 => Some(SendOnlyWithImmediate)
    case 0x06 => Some(RdmaWriteFirst)
    case 0x07 => Some(RdmaWriteMiddle)
    case 0x08 => Some(RdmaWriteLast)
    case 0x09 => Some(RdmaWriteLastWithImmediate)
    case 0x0a => Some(RdmaWriteOnly)
    case 0x0b => Some(RdmaWriteOnlyWithImmediate)
    case 0x0c => Some(RdmaReadRequest)
    case 0x0d => Some(RdmaReadResponseFirst)
    case 0x0e => Some(RdmaReadResponseMiddle)
    case 0x0f => Some(RdmaReadResponseLast)
    case 0x10 => Some(RdmaReadResponseOnly)
    case 0x11 => Some(Acknowledge)
    case 0x12 => Some(AtomicAcknowledge)
    case 0x13 => Some(CompareSwap)
    case 0x14 => Some(FetchAdd)
    case 0x16 => Some(SendLastWithInvalidate)
    case 0x17 => Some(SendOnlyWithInvalidate)
    case _ => None
  }

  /** The opcode an 8-bit opcode field names, if any of the four transports
      and their operations. */
  function Decode(c: nat): Option<Opcode>
  {
    var t := if c < 0x20 then Some(RC) else if c < 0x40 then Some(UC)
             else if c < 0x60 then Some(RD) else if c < 0x80 then Some(UD) else None;
    if t.None? then None
    else match DecodeOperation(c % 0x20)
      case Some(o) => Some(Opcode(t.value, o))
      case None => None
  }

  /** `dtld_opcode[c]`: the entry for an opcode field, `None` for the
      entries the table leaves zero. */
  function Lookup(sz: HeaderSizes, c: nat): (r: Option<OpcodeInfo>)
    ensures c >= 0x80 ==> r.None?
    ensures r.Some? <==> Decode(c).Some? && Supported(Decode(c).value)
    ensures r.Some? ==> BTH in r.value.offset && r.value.offset[BTH] == 0
  {
    match Decode(c)
    case Some(op) => Info(sz, op)
    case None => None
  }

  // ---------------------------------------------------------------------
  // The layout rules the table follows

  /** Where in a message an operation's packet sits. Read requests,
      acknowledges and atomics are single-packet operations. */
  datatype Position = First | Mid | Last | Only

  datatype Kind = SendKind | WriteKind | ReadRequestKind | ReadResponseKind | AckKind | AtomicKind

  function PositionOf(o: Operation): Position
  {
    match o
    case SendFirst | RdmaWriteFirst | RdmaReadResponseFirst => First
    case SendMiddle | RdmaWriteMiddle | RdmaReadResponseMiddle => Mid
    case SendLast | SendLastWithImmediate | RdmaWriteLast | RdmaWriteLastWithImmediate
       | RdmaReadResponseLast | SendLastWithInvalidate => Last
    case _ => Only
  }

  function KindOf(o: Operation): Kind
  {
    match o
    case SendFirst | SendMiddle | SendLast | SendLastWithImmediate | SendOnly | SendOnlyWithImmediate
       | SendLastWithInvalidate | SendOnlyWithInvalidate => SendKind
    case RdmaWriteFirst | RdmaWriteMiddle | RdmaWriteLast | RdmaWriteLastWithImmediate
       | RdmaWriteOnly | RdmaWriteOnlyWithImmediate => WriteKind
    case RdmaReadRequest => ReadRequestKind
    case RdmaReadResponseFirst | RdmaReadResponseMiddle | RdmaReadResponseLast
       | RdmaReadResponseOnly => ReadResponseKind
    case Acknowledge | AtomicAcknowledge => AckKind
    case CompareSwap | FetchAdd => AtomicKind
  }

  predicate WithImmediate(o: Operation)
  {
    o == SendLastWithImmediate || o == SendOnlyWithImmediate
    || o == RdmaWriteLastWithImmediate || o == RdmaWriteOnlyWithImmediate
  }

  predicate WithInvalidate(o: Operation)
  {
    o == SendLastWithInvalidate || o == SendOnlyWithInvalidate
  }

  predicate IsResponse(o: Operation)
  {
    KindOf(o) == ReadResponseKind || KindOf(o) == AckKind
  }

  /** The header-presence rules: RDETH on every reliable-datagram packet,
      DETH on datagram requests, RETH on the first packet of a write and on
      read requests, AETH on acknowledges and on read responses other than
      middle ones, ATMETH on atomics, AtomicAckETH on atomic acknowledges,
      IETH on invalidating sends, ImmDt on the immediate variants, a payload
      on sends, writes and read responses. BTH is always present and has no
      mask bit. */
  predicate HeaderRule(op: Opcode, h: Header)
  {
    var t := op.transport;
    var o := op.operation;
    var k := KindOf(o);
    var p := PositionOf(o);
    match h
    case BTH => false
    case RDETH => t == RD
    case DETH => t == UD || (t == RD && !IsResponse(o))
    case RETH => (k == WriteKind && (p == First || p == Only)) || k == ReadRequestKind
    case AETH => (k == ReadResponseKind && p != Mid) || k == AckKind
    case ATMETH => k == AtomicKind
    case ATMACK => o == AtomicAcknowledge
    case IETH => WithInvalidate(o)
    case IMMDT => WithImmediate(o)
    case PAYLOAD => k == SendKind || k == WriteKind || k == ReadResponseKind
  }

  /** Whether the rules set mask bit `b` for `op`: the header bits as
      above; request or acknowledge; the operation class; whether the
      packet consumes a receive work request (the first packet of a send, a
      write with immediate data); whether it completes one (the last packet
      of a send, any immediate variant); and its position. */
  predicate RuleBit(op: Opcode, b: MaskBit)
  {
    var o := op.operation;
    var k := KindOf(o);
    var p := PositionOf(o);
    match b
    case Has(h) => HeaderRule(op, h)
    case Req => !IsResponse(o)
    case Ack => IsResponse(o)
    case SendOp => k == SendKind
    case WriteOp => k == WriteKind
    case ReadOp => k == ReadRequestKind
    case AtomicOp => k == AtomicKind
    case Rwr => (k == SendKind && (p == First || p == Only)) || (k == WriteKind && WithImmediate(o))
    case Comp => (k == SendKind && (p == Last || p == Only)) || WithImmediate(o)
    case Start => p == First || p == Only
    case Middle => p == Mid
    case End => p == Last || p == Only
  }

  /** The opcodes each transport defines: all on RC; sends and writes
      without invalidation on UC; all but the invalidating sends on RD; the
      single-packet sends on UD. */
  predicate Supported(op: Opcode)
  {
    var o := op.operation;
    match op.transport
    case RC => true
    case UC => (KindOf(o) == SendKind || KindOf(o) == WriteKind) && !WithInvalidate(o)
    case RD => !WithInvalidate(o)
    case UD => o == SendOnly || o == SendOnlyWithImmediate
  }

  /** The size of `h` if the mask says it is present, else nothing. */
  function PresentSize(sz: HeaderSizes, mask: set<MaskBit>, h: Header): nat
  {
    if Has(h) in mask then Size(sz, h) else 0
  }

  /** The size of the extended transport headers present (each term is
      `PresentSize` of one header, written out). */
  function ExtBytes(sz: HeaderSizes, mask: set<MaskBit>): nat
  {
    (if Has(RDETH) in mask then sz.rdeth else 0) + (if Has(DETH) in mask then sz.deth else 0)
    + (if Has(RETH) in mask then sz.reth else 0) + (if Has(AETH) in mask then sz.aeth else 0)
    + (if Has(ATMETH) in mask then sz.atmeth else 0) + (if Has(ATMACK) in mask then sz.atmack else 0)
    + (if Has(IETH) in mask then sz.ieth else 0) + (if Has(IMMDT) in mask then sz.immdt else 0)
  }

  /** Where `h` starts when the present headers are laid out back to back
      in the order BTH, RDETH, DETH, RETH, AETH, ATMETH, AtomicAckETH, IETH,
      ImmDt, followed by the payload. */
  function PackedOffset(sz: HeaderSizes, mask: set<MaskBit>, h: Header): nat
  {
    var rdeth := sz.bth + (if Has(RDETH) in mask then sz.rdeth else 0);
    var deth := rdeth + (if Has(DETH) in mask then sz.deth else 0);
    var reth := deth + (if Has(RETH) in mask then sz.reth else 0);
    var aeth := reth + (if Has(AETH) in mask then sz.aeth else 0);
    var atmeth := aeth + (if Has(ATMETH) in mask then sz.atmeth else 0);
    var atmack := atmeth + (if Has(ATMACK) in mask then sz.atmack else 0);
    var ieth := atmack + (if Has(IETH) in mask then sz.ieth else 0);
    var immdt := ieth + (if Has(IMMDT) in mask then sz.immdt else 0);
    match h
    case BTH => 0
    case RDETH => sz.bth
    case DETH => rdeth
    case RETH => deth
    case AETH => reth
    case ATMETH => aeth
    case ATMACK => atmeth
    case IETH => atmack
    case IMMDT => ieth
    case PAYLOAD => immdt
  }

  // ---------------------------------------------------------------------
  // Work-request opcodes

  datatype WrOpcode =
    | RdmaWrite | RdmaWriteWithImm | Send | SendWithImm | RdmaRead
    | AtomicCmpAndSwp | AtomicFetchAndAdd | Lso | SendWithInv | RdmaReadWithInv
    | LocalInv | RegMr | BindMw

  /** The QP types the work-request table is indexed by; `RawPacket`
      stands for the raw types, which the table never lists. */
  datatype QpType = Smi | Gsi | Rc | Uc | Ud | RawPacket

  /** The bits of a work-request mask (`WR_*_MASK`). */
  datatype WrMaskBit = WrInline | WrSend | WrWrite | WrRead | WrAtomic | WrLocalOp

  /** An entry of the work-request table (`struct dtld_wr_opcode_info`):
      the listed QP types and their masks. */
  datatype WrOpcodeInfo = WrOpcodeInfo(mask: map<QpType, set<WrMaskBit>>)

  function WrInfo(wr: WrOpcode): (r: WrOpcodeInfo)
    ensures forall q :: q in r.mask <==> WrValidOn(wr, q)
    ensures forall q :: q in r.mask ==> r.mask[q] == WrClass(wr)
  {
    match wr
    case RdmaWrite =>
      WrOpcodeInfo(map[Rc := {WrInline, WrWrite}, Uc := {WrInline, WrWrite}])
    case RdmaWriteWithImm =>
      WrOpcodeInfo(map[Rc := {WrInline, WrWrite}, Uc := {WrInline, WrWrite}])
    case Send =>
      WrOpcodeInfo(map[Gsi := {WrInline, WrSend}, Rc := {WrInline, WrSend},
                                     Uc := {WrInline, WrSend}, Ud := {WrInline, WrSend}])
    case SendWithImm =>
      WrOpcodeInfo(map[Gsi := {WrInline, WrSend}, Rc := {WrInline, WrSend},
                                              Uc := {WrInline, WrSend}, Ud := {WrInline, WrSend}])
    case RdmaRead =>
      WrOpcodeInfo(map[Rc := {WrRead}])
    case AtomicCmpAndSwp =>
      WrOpcodeInfo(map[Rc := {WrAtomic}])
    case AtomicFetchAndAdd =>
      WrOpcodeInfo(map[Rc := {WrAtomic}])
    case Lso =>
      WrOpcodeInfo(map[])
    case SendWithInv =>
      WrOpcodeInfo(map[Rc := {WrInline, WrSend}, Uc := {WrInline, WrSend},
                                              Ud := {WrInline, WrSend}])
    case RdmaReadWithInv =>
      WrOpcodeInfo(map[Rc := {WrRead}])
    case LocalInv =>
      WrOpcodeInfo(map[Rc := {WrLocalOp}])
    case RegMr =>
      WrOpcodeInfo(map[Rc := {WrLocalOp}])
    case BindMw =>
      WrOpcodeInfo(map[Rc := {WrLocalOp}, Uc := {WrLocalOp}])
  }

  /** The mask of `wr` on QP type `q`: empty where the table lists none,
      which makes the request invalid on that type. */
  function WrMask(wr: WrOpcode, q: QpType): (r: set<WrMaskBit>)
    ensures r == if WrValidOn(wr, q) then WrClass(wr) else {}
  {
    var info := WrInfo(wr);
    if q in info.mask then info.mask[q] else {}
  }

  /** The class of each work request: writes and sends may be inline. */
  function WrClass(wr: WrOpcode): set<WrMaskBit>
  {
    match wr
    case RdmaWrite | RdmaWriteWithImm => {WrInline, WrWrite}
    case Send | SendWithImm | SendWithInv => {WrInline, WrSend}
    case RdmaRead | RdmaReadWithInv => {WrRead}
    case AtomicCmpAndSwp | AtomicFetchAndAdd => {WrAtomic}
    case Lso => {}
    case LocalInv | RegMr | BindMw => {WrLocalOp}
  }

  /** The QP types each work request is valid on: reads and atomics need a
      reliable connection; sends go on every connected and datagram type,
      the invalidating one not on GSI; writes and memory-window binds on
      connected types; the other local operations on RC; LSO on none. */
  predicate WrValidOn(wr: WrOpcode, q: QpType)
  {
    match wr
    case RdmaRead | RdmaReadWithInv | AtomicCmpAndSwp | AtomicFetchAndAdd | LocalInv | RegMr => q == Rc
    case RdmaWrite | RdmaWriteWithImm | BindMw => q == Rc || q == Uc
    case Send | SendWithImm => q == Gsi || q == Rc || q == Uc || q == Ud
    case SendWithInv => q == Rc || q == Uc || q == Ud
    case Lso => false
  }
}

/** The structural consistency of the opcode tables, proved once over every
    entry and for every choice of header sizes. */
module OpcodeLemmas {
  import opened Types
  import opened Opcode

  // ---------------------------------------------------------------------
  // Opcode numbers

  /** The opcode field round-trips: every opcode has a number below 0x80
      that decodes back to it, and a number decodes only to the opcode it
      encodes. */
  lemma CodeRoundTrip(op: Opcode, c: nat)
    ensures Decode(Code(op)) == Some(op)
    ensures Decode(c).Some? ==> Code(Decode(c).value) == c
  {
    OperationCodeRoundTrip(op.operation, c % 0x20);
    var t := TransportCode(op.transport);
    assert Code(op) % 0x20 == OperationCode(op.operation) && Code(op) / 0x20 == t / 0x20;
  }

  /** The same for the low five bits alone. */
  lemma OperationCodeRoundTrip(o: Operation, c: nat)
    ensures OperationCode(o) < 0x20 && DecodeOperation(OperationCode(o)) == Some(o)
    ensures DecodeOperation(c).Some? ==> OperationCode(DecodeOperation(c).value) == c
  {
  }

  /** Indexing the table by an opcode's number finds that opcode's entry. */
  lemma LookupByCode(sz: HeaderSizes, op: Opcode)
    ensures Lookup(sz, Code(op)) == Info(sz, op)
  {
    CodeRoundTrip(op, 0);
  }

  // ---------------------------------------------------------------------
  // The masks

  /** Every entry's mask holds exactly the bits the header-presence and
      classification rules give for its opcode. */
  lemma MaskFollowsRules(sz: HeaderSizes, op: Opcode, b: MaskBit)
    requires Info(sz, op).Some?
    ensures b in Info(sz, op).value.mask <==> RuleBit(op, b)
  {
    var o := op.operation;
    match op.transport
    case RC =>
      if KindOf(o) == SendKind { RCSendsMask(sz, o, b); }
      else if KindOf(o) == WriteKind { RCWritesMask(sz, o, b); }
      else { RCOthersMask(sz, o, b); }
    case UC => UCMask(sz, o, b);
    case RD =>
      if KindOf(o) == SendKind { RDSendsMask(sz, o, b); }
      else if KindOf(o) == WriteKind { RDWritesMask(sz, o, b); }
      else { RDOthersMask(sz, o, b); }
    case UD => UDMask(sz, o, b);
  }

  // `MaskFollowsRules` for each transport, on RC and RD split by the kind
  // of operation to keep each proof small.

  lemma RCSendsMask(sz: HeaderSizes, o: Operation, b: MaskBit)
    requires RCInfo(sz, o).Some?
    requires KindOf(o) == SendKind
    ensures b in RCInfo(sz, o).value.mask <==> RuleBit(Opcode(RC, o), b)
  {
  }
  lemma RCWritesMask(sz: HeaderSizes, o: Operation, b: MaskBit)
    requires RCInfo(sz, o).Some?
    requires KindOf(o) == WriteKind
    ensures b in RCInfo(sz, o).value.mask <==> RuleBit(Opcode(RC, o), b)
  {
  }
  lemma RCOthersMask(sz: HeaderSizes, o: Operation, b: MaskBit)
    requires RCInfo(sz, o).Some?
    requires KindOf(o) != SendKind && KindOf(o) != WriteKind
    ensures b in RCInfo(sz, o).value.mask <==> RuleBit(Opcode(RC, o), b)
  {
  }
  lemma UCMask(sz: HeaderSizes, o: Operation, b: MaskBit)
    requires UCInfo(sz, o).Some?
    ensures b in UCInfo(sz, o).value.mask <==> RuleBit(Opcode(UC, o), b)
  {
  }
  lemma RDSendsMask(sz: HeaderSizes, o: Operation, b: MaskBit)
    requires RDInfo(sz, o).Some?
    requires KindOf(o) == SendKind
    ensures b in RDInfo(sz, o).value.mask <==> RuleBit(Opcode(RD, o), b)
  {
  }
  lemma RDWritesMask(sz: HeaderSizes, o: Operation, b: MaskBit)
    requires RDInfo(sz, o).Some?
    requires KindOf(o) == WriteKind
    ensures b in RDInfo(sz, o).value.mask <==> RuleBit(Opcode(RD, o), b)
  {
  }
  lemma RDOthersMask(sz: HeaderSizes, o: Operation, b: MaskBit)
    requires RDInfo(sz, o).Some?
    requires KindOf(o) != SendKind && KindOf(o) != WriteKind
    ensures b in RDInfo(sz, o).value.mask <==> RuleBit(Opcode(RD, o), b)
  {
  }
  lemma UDMask(sz: HeaderSizes, o: Operation, b: MaskBit)
    requires UDInfo(sz, o).Some?
    ensures b in UDInfo(sz, o).value.mask <==> RuleBit(Opcode(UD, o), b)
  {
  }

  /** The flags follow the opcode's name: first packets start a message
      without ending it, middle packets carry MIDDLE, last packets end it
      without starting it, and single-packet operations both start and end
      it; every entry is exactly one of request and acknowledge; an entry
      with immediate data completes a receive; read requests and
      acknowledges carry no payload. */
  lemma FlagsFollowNames(sz: HeaderSizes, op: Opcode)
    requires Info(sz, op).Some?
    ensures var mask := Info(sz, op).value.mask;
            var p := PositionOf(op.operation);
            && (Start in mask <==> p == First || p == Only)
            && (Middle in mask <==> p == Mid)
            && (End in mask <==> p == Last || p == Only)
            && (Req in mask <==> Ack !in mask)
            && (Has(IMMDT) in mask ==> Comp in mask)
            && (KindOf(op.operation) == ReadRequestKind || KindOf(op.operation) == AckKind
                ==> Has(PAYLOAD) !in mask)
  {
    MaskFollowsRules(sz, op, Start);
    MaskFollowsRules(sz, op, Middle);
    MaskFollowsRules(sz, op, End);
    MaskFollowsRules(sz, op, Req);
    MaskFollowsRules(sz, op, Ack);
    MaskFollowsRules(sz, op, Has(IMMDT));
    MaskFollowsRules(sz, op, Comp);
    MaskFollowsRules(sz, op, Has(PAYLOAD));
    RulesFollowNames(op);
  }

  /** The rules behind `FlagsFollowNames`, stated on `RuleBit` alone. */
  lemma RulesFollowNames(op: Opcode)
    ensures var p := PositionOf(op.operation);
            && (RuleBit(op, Start) <==> p == First || p == Only)
            && (RuleBit(op, Middle) <==> p == Mid)
            && (RuleBit(op, End) <==> p == Last || p == Only)
            && (RuleBit(op, Req) <==> !RuleBit(op, Ack))
            && (RuleBit(op, Has(IMMDT)) ==> RuleBit(op, Comp))
            && (KindOf(op.operation) == ReadRequestKind || KindOf(op.operation) == AckKind
                ==> !RuleBit(op, Has(PAYLOAD)))
  {
  }

  // ---------------------------------------------------------------------
  // Lengths and offsets

  /** Whether an entry lists an offset for the payload: every entry does
      except the two reliable-datagram acknowledges. */
  predicate PayloadListed(op: Opcode)
  {
    !(op.transport == RD && KindOf(op.operation) == AckKind)
  }

  /** Every entry lays its headers out back to back. An offset is listed
      for BTH, for every header of the mask and for the payload where
      `PayloadListed` says so; each listed offset is where the packed
      layout puts that header, so BTH is at offset 0 and the payload starts
      at the entry's length; and the length is the size of BTH plus exactly
      the extended headers the mask has. */
  lemma LayoutIsPacked(sz: HeaderSizes, op: Opcode, h: Header)
    requires Info(sz, op).Some?
    ensures var info := Info(sz, op).value;
            && (h in info.offset <==> h == BTH || Has(h) in info.mask || (h == PAYLOAD && PayloadListed(op)))
            && (h in info.offset ==> info.offset[h] == PackedOffset(sz, info.mask, h))
            && info.length == sz.bth + ExtBytes(sz, info.mask)
            && info.length == PackedOffset(sz, info.mask, PAYLOAD)
            && BTH in info.offset && info.offset[BTH] == 0
            && (PAYLOAD in info.offset ==> info.offset[PAYLOAD] == info.length)
  {
    var o := op.operation;
    match op.transport
    case RC =>
      RCKeys(sz, o, h);
      RCKeys(sz, o, BTH);
      RCLayout(sz, o, h);
      RCLayout(sz, o, BTH);
      RCLayout(sz, o, PAYLOAD);
    case UC =>
      UCKeys(sz, o, h);
      UCKeys(sz, o, BTH);
      UCLayout(sz, o, h);
      UCLayout(sz, o, BTH);
      UCLayout(sz, o, PAYLOAD);
    case RD =>
      RDKeys(sz, o, h);
      RDKeys(sz, o, BTH);
      RDLayout(sz, o, h);
      RDLayout(sz, o, BTH);
      RDLayout(sz, o, PAYLOAD);
    case UD =>
      UDKeys(sz, o, h);
      UDKeys(sz, o, BTH);
      UDLayout(sz, o, h);
      UDLayout(sz, o, BTH);
      UDLayout(sz, o, PAYLOAD);
  }

  // The per-transport halves of `LayoutIsPacked`: which offsets an entry
  // lists (on RC and RD split by the kind of operation), and where they
  // are (split by the families of operations below). The splits only keep
  // each proof small.

  lemma RCKeys(sz: HeaderSizes, o: Operation, h: Header)
    requires RCInfo(sz, o).Some?
    ensures var info := RCInfo(sz, o).value;
            h in info.offset <==> h == BTH || Has(h) in info.mask || h == PAYLOAD
  {
    if KindOf(o) == SendKind { RCSendsKeys(sz, o, h); }
    else if KindOf(o) == WriteKind { RCWritesKeys(sz, o, h); }
    else { RCOthersKeys(sz, o, h); }
  }
  lemma RCSendsKeys(sz: HeaderSizes, o: Operation, h: Header)
    requires RCInfo(sz, o).Some?
    requires KindOf(o) == SendKind
    ensures var info := RCInfo(sz, o).value;
            h in info.offset <==> h == BTH || Has(h) in info.mask || h == PAYLOAD
  {
  }
  lemma RCWritesKeys(sz: HeaderSizes, o: Operation, h: Header)
    requires RCInfo(sz, o).Some?
    requires KindOf(o) == WriteKind
    ensures var info := RCInfo(sz, o).value;
            h in info.offset <==> h == BTH || Has(h) in info.mask || h == PAYLOAD
  {
  }
  lemma RCOthersKeys(sz: HeaderSizes, o: Operation, h: Header)
    requires RCInfo(sz, o).Some?
    requires KindOf(o) != SendKind && KindOf(o) != WriteKind
    ensures var info := RCInfo(sz, o).value;
            h in info.offset <==> h == BTH || Has(h) in info.mask || h == PAYLOAD
  {
  }
  lemma UCKeys(sz: HeaderSizes, o: Operation, h: Header)
    requires UCInfo(sz, o).Some?
    ensures var info := UCInfo(sz, o).value;
            h in info.offset <==> h == BTH || Has(h) in info.mask || h == PAYLOAD
  {
  }
  lemma RDKeys(sz: HeaderSizes, o: Operation, h: Header)
    requires RDInfo(sz, o).Some?
    ensures var info := RDInfo(sz, o).value;
            h in info.offset <==> h == BTH || Has(h) in info.mask || (h == PAYLOAD && KindOf(o) != AckKind)
  {
    if KindOf(o) == SendKind { RDSendsKeys(sz, o, h); }
    else if KindOf(o) == WriteKind { RDWritesKeys(sz, o, h); }
    else { RDOthersKeys(sz, o, h); }
  }
  lemma RDSendsKeys(sz: HeaderSizes, o: Operation, h: Header)
    requires RDInfo(sz, o).Some?
    requires KindOf(o) == SendKind
    ensures var info := RDInfo(sz, o).value;
            h in info.offset <==> h == BTH || Has(h) in info.mask || (h == PAYLOAD && KindOf(o) != AckKind)
  {
  }
  lemma RDWritesKeys(sz: HeaderSizes, o: Operation, h: Header)
    requires RDInfo(sz, o).Some?
    requires KindOf(o) == WriteKind
    ensures var info := RDInfo(sz, o).value;
            h in info.offset <==> h == BTH || Has(h) in info.mask || (h == PAYLOAD && KindOf(o) != AckKind)
  {
  }
  lemma RDOthersKeys(sz: HeaderSizes, o: Operation, h: Header)
    requires RDInfo(sz, o).Some?
    requires KindOf(o) != SendKind && KindOf(o) != WriteKind
    ensures var info := RDInfo(sz, o).value;
            h in info.offset <==> h == BTH || Has(h) in info.mask || (h == PAYLOAD && KindOf(o) != AckKind)
  {
  }
  lemma UDKeys(sz: HeaderSizes, o: Operation, h: Header)
    requires UDInfo(sz, o).Some?
    ensures var info := UDInfo(sz, o).value;
            h in info.offset <==> h == BTH || Has(h) in info.mask || h == PAYLOAD
  {
  }

  /** A grouping of the operations used only to split the layout proofs:
      the plain sends and writes, their variants with immediate data or
      invalidation, the read responses, the read and atomic requests, and
      the acknowledges. */
  datatype Family =
    | PlainSends
    | PlainWrites
    | SendsWithImmediate
    | WritesWithImmediate
    | SendsWithInvalidate
    | ReadResponses
    | ReadsAndAtomics
    | Acknowledges

  function FamilyOf(o: Operation): Family
  {
    match o
    case SendFirst | SendMiddle | SendLast | SendOnly => PlainSends
    case RdmaWriteFirst | RdmaWriteMiddle | RdmaWriteLast | RdmaWriteOnly => PlainWrites
    case SendLastWithImmediate | SendOnlyWithImmediate => SendsWithImmediate
    case RdmaWriteLastWithImmediate | RdmaWriteOnlyWithImmediate => WritesWithImmediate
    case SendLastWithInvalidate | SendOnlyWithInvalidate => SendsWithInvalidate
    case RdmaReadResponseFirst | RdmaReadResponseMiddle | RdmaReadResponseLast | RdmaReadResponseOnly => ReadResponses
    case RdmaReadRequest | CompareSwap | FetchAdd => ReadsAndAtomics
    case Acknowledge | AtomicAcknowledge => Acknowledges
  }

  lemma RCLayout(sz: HeaderSizes, o: Operation, h: Header)
    requires RCInfo(sz, o).Some?
    ensures var info := RCInfo(sz, o).value;
            && (h in info.offset ==> info.offset[h] == PackedOffset(sz, info.mask, h))
            && info.length == sz.bth + ExtBytes(sz, info.mask) == PackedOffset(sz, info.mask, PAYLOAD)
  {
    match FamilyOf(o)
    case PlainSends => RCPlainSendsLayout(sz, o, h);
    case PlainWrites => RCPlainWritesLayout(sz, o, h);
    case SendsWithImmediate => RCSendsWithImmediateLayout(sz, o, h);
    case WritesWithImmediate => RCWritesWithImmediateLayout(sz, o, h);
    case SendsWithInvalidate => RCSendsWithInvalidateLayout(sz, o, h);
    case ReadResponses => RCReadResponsesLayout(sz, o, h);
    case ReadsAndAtomics => RCReadsAndAtomicsLayout(sz, o, h);
    case Acknowledges => RCAcknowledgesLayout(sz, o, h);
  }
  lemma RCPlainSendsLayout(sz: HeaderSizes, o: Operation, h: Header)
    requires RCInfo(sz, o).Some?
    requires FamilyOf(o) == PlainSends
    ensures var info := RCInfo(sz, o).value;
            && (h in info.offset ==> info.offset[h] == PackedOffset(sz, info.mask, h))
            && info.length == sz.bth + ExtBytes(sz, info.mask) == PackedOffset(sz, info.mask, PAYLOAD)
  {
  }
  lemma RCPlainWritesLayout(sz: HeaderSizes, o: Operation, h: Header)
    requires RCInfo(sz, o).Some?
    requires FamilyOf(o) == PlainWrites
    ensures var info := RCInfo(sz, o).value;
            && (h in info.offset ==> info.offset[h] == PackedOffset(sz, info.mask, h))
            && info.length == sz.bth + ExtBytes(sz, info.mask) == PackedOffset(sz, info.mask, PAYLOAD)
  {
  }
  lemma RCSendsWithImmediateLayout(sz: HeaderSizes, o: Operation, h: Header)
    requires RCInfo(sz, o).Some?
    requires FamilyOf(o) == SendsWithImmediate
    ensures var info := RCInfo(sz, o).value;
            && (h in info.offset ==> info.offset[h] == PackedOffset(sz, info.mask, h))
            && info.length == sz.bth + ExtBytes(sz, info.mask) == PackedOffset(sz, info.mask, PAYLOAD)
  {
  }
  lemma RCWritesWithImmediateLayout(sz: HeaderSizes, o: Operation, h: Header)
    requires RCInfo(sz, o).Some?
    requires FamilyOf(o) == WritesWithImmediate
    ensures var info := RCInfo(sz, o).value;
            && (h in info.offset ==> info.offset[h] == PackedOffset(sz, info.mask, h))
            && info.length == sz.bth + ExtBytes(sz, info.mask) == PackedOffset(sz, info.mask, PAYLOAD)
  {
  }
  lemma RCSendsWithInvalidateLayout(sz: HeaderSizes, o: Operation, h: Header)
    requires RCInfo(sz, o).Some?
    requires FamilyOf(o) == SendsWithInvalidate
    ensures var info := RCInfo(sz, o).value;
            && (h in info.offset ==> info.offset[h] == PackedOffset(sz, info.mask, h))
            && info.length == sz.bth + ExtBytes(sz, info.mask) == PackedOffset(sz, info.mask, PAYLOAD)
  {
  }
  lemma RCReadResponsesLayout(sz: HeaderSizes, o: Operation, h: Header)
    requires RCInfo(sz, o).Some?
    requires FamilyOf(o) == ReadResponses
    ensures var info := RCInfo(sz, o).value;
            && (h in info.offset ==> info.offset[h] == PackedOffset(sz, info.mask, h))
            && info.length == sz.bth + ExtBytes(sz, info.mask) == PackedOffset(sz, info.mask, PAYLOAD)
  {
  }
  lemma RCReadsAndAtomicsLayout(sz: HeaderSizes, o: Operation, h: Header)
    requires RCInfo(sz, o).Some?
    requires FamilyOf(o) == ReadsAndAtomics
    ensures var info := RCInfo(sz, o).value;
            && (h in info.offset ==> info.offset[h] == PackedOffset(sz, info.mask, h))
            && info.length == sz.bth + ExtBytes(sz, info.mask) == PackedOffset(sz, info.mask, PAYLOAD)
  {
  }
  lemma RCAcknowledgesLayout(sz: HeaderSizes, o: Operation, h: Header)
    requires RCInfo(sz, o).Some?
    requires FamilyOf(o) == Acknowledges
    ensures var info := RCInfo(sz, o).value;
            && (h in info.offset ==> info.offset[h] == PackedOffset(sz, info.mask, h))
            && info.length == sz.bth + ExtBytes(sz, info.mask) == PackedOffset(sz, info.mask, PAYLOAD)
  {
  }
  lemma UCLayout(sz: HeaderSizes, o: Operation, h: Header)
    requires UCInfo(sz, o).Some?
    ensures var info := UCInfo(sz, o).value;
            && (h in info.offset ==> info.offset[h] == PackedOffset(sz, info.mask, h))
            && info.length == sz.bth + ExtBytes(sz, info.mask) == PackedOffset(sz, info.mask, PAYLOAD)
  {
    match FamilyOf(o)
    case PlainSends => UCPlainSendsLayout(sz, o, h);
    case PlainWrites => UCPlainWritesLayout(sz, o, h);
    case SendsWithImmediate => UCSendsWithImmediateLayout(sz, o, h);
    case WritesWithImmediate => UCWritesWithImmediateLayout(sz, o, h);
    case SendsWithInvalidate => assert false;
    case ReadResponses => assert false;
    case ReadsAndAtomics => assert false;
    case Acknowledges => assert false;
  }
  lemma UCPlainSendsLayout(sz: HeaderSizes, o: Operation, h: Header)
    requires UCInfo(sz, o).Some?
    requires FamilyOf(o) == PlainSends
    ensures var info := UCInfo(sz, o).value;
            && (h in info.offset ==> info.offset[h] == PackedOffset(sz, info.mask, h))
            && info.length == sz.bth + ExtBytes(sz, info.mask) == PackedOffset(sz, info.mask, PAYLOAD)
  {
  }
  lemma UCPlainWritesLayout(sz: HeaderSizes, o: Operation, h: Header)
    requires UCInfo(sz, o).Some?
    requires FamilyOf(o) == PlainWrites
    ensures var info := UCInfo(sz, o).value;
            && (h in info.offset ==> info.offset[h] == PackedOffset(sz, info.mask, h))
            && info.length == sz.bth + ExtBytes(sz, info.mask) == PackedOffset(sz, info.mask, PAYLOAD)
  {
  }
  lemma UCSendsWithImmediateLayout(sz: HeaderSizes, o: Operation, h: Header)
    requires UCInfo(sz, o).Some?
    requires FamilyOf(o) == SendsWithImmediate
    ensures var info := UCInfo(sz, o).value;
            && (h in info.offset ==> info.offset[h] == PackedOffset(sz, info.mask, h))
            && info.length == sz.bth + ExtBytes(sz, info.mask) == PackedOffset(sz, info.mask, PAYLOAD)
  {
  }
  lemma UCWritesWithImmediateLayout(sz: HeaderSizes, o: Operation, h: Header)
    requires UCInfo(sz, o).Some?
    requires FamilyOf(o) == WritesWithImmediate
    ensures var info := UCInfo(sz, o).value;
            && (h in info.offset ==> info.offset[h] == PackedOffset(sz, info.mask, h))
            && info.length == sz.bth + ExtBytes(sz, info.mask) == PackedOffset(sz, info.mask, PAYLOAD)
  {
  }
  lemma RDLayout(sz: HeaderSizes, o: Operation, h: Header)
    requires RDInfo(sz, o).Some?
    ensures var info := RDInfo(sz, o).value;
            && (h in info.offset ==> info.offset[h] == PackedOffset(sz, info.mask, h))
            && info.length == sz.bth + ExtBytes(sz, info.mask) == PackedOffset(sz, info.mask, PAYLOAD)
  {
    match FamilyOf(o)
    case PlainSends => RDPlainSendsLayout(sz, o, h);
    case PlainWrites => RDPlainWritesLayout(sz, o, h);
    case SendsWithImmediate => RDSendsWithImmediateLayout(sz, o, h);
    case WritesWithImmediate => RDWritesWithImmediateLayout(sz, o, h);
    case SendsWithInvalidate => assert false;
    case ReadResponses => RDReadResponsesLayout(sz, o, h);
    case ReadsAndAtomics => RDReadsAndAtomicsLayout(sz, o, h);
    case Acknowledges => RDAcknowledgesLayout(sz, o, h);
  }
  lemma RDPlainSendsLayout(sz: HeaderSizes, o: Operation, h: Header)
    requires RDInfo(sz, o).Some?
    requires FamilyOf(o) == PlainSends
    ensures var info := RDInfo(sz, o).value;
            && (h in info.offset ==> info.offset[h] == PackedOffset(sz, info.mask, h))
            && info.length == sz.bth + ExtBytes(sz, info.mask) == PackedOffset(sz, info.mask, PAYLOAD)
  {
  }
  lemma RDPlainWritesLayout(sz: HeaderSizes, o: Operation, h: Header)
    requires RDInfo(sz, o).Some?
    requires FamilyOf(o) == PlainWrites
    ensures var info := RDInfo(sz, o).value;
            && (h in info.offset ==> info.offset[h] == PackedOffset(sz, info.mask, h))
            && info.length == sz.bth + ExtBytes(sz, info.mask) == PackedOffset(sz, info.mask, PAYLOAD)
  {
  }
  lemma RDSendsWithImmediateLayout(sz: HeaderSizes, o: Operation, h: Header)
    requires RDInfo(sz, o).Some?
    requires FamilyOf(o) == SendsWithImmediate
    ensures var info := RDInfo(sz, o).value;
            && (h in info.offset ==> info.offset[h] == PackedOffset(sz, info.mask, h))
            && info.length == sz.bth + ExtBytes(sz, info.mask) == PackedOffset(sz, info.mask, PAYLOAD)
  {
  }
  lemma RDWritesWithImmediateLayout(sz: HeaderSizes, o: Operation, h: Header)
    requires RDInfo(sz, o).Some?
    requires FamilyOf(o) == WritesWithImmediate
    ensures var info := RDInfo(sz, o).value;
            && (h in info.offset ==> info.offset[h] == PackedOffset(sz, info.mask, h))
            && info.length == sz.bth + ExtBytes(sz, info.mask) == PackedOffset(sz, info.mask, PAYLOAD)
  {
  }
  lemma RDReadResponsesLayout(sz: HeaderSizes, o: Operation, h: Header)
    requires RDInfo(sz, o).Some?
    requires FamilyOf(o) == ReadResponses
    ensures var info := RDInfo(sz, o).value;
            && (h in info.offset ==> info.offset[h] == PackedOffset(sz, info.mask, h))
            && info.length == sz.bth + ExtBytes(sz, info.mask) == PackedOffset(sz, info.mask, PAYLOAD)
  {
  }
  lemma RDReadsAndAtomicsLayout(sz: HeaderSizes, o: Operation, h: Header)
    requires RDInfo(sz, o).Some?
    requires FamilyOf(o) == ReadsAndAtomics
    ensures var info := RDInfo(sz, o).value;
            && (h in info.offset ==> info.offset[h] == PackedOffset(sz, info.mask, h))
            && info.length == sz.bth + ExtBytes(sz, info.mask) == PackedOffset(sz, info.mask, PAYLOAD)
  {
  }
  lemma RDAcknowledgesLayout(sz: HeaderSizes, o: Operation, h: Header)
    requires RDInfo(sz, o).Some?
    requires FamilyOf(o) == Acknowledges
    ensures var info := RDInfo(sz, o).value;
            && (h in info.offset ==> info.offset[h] == PackedOffset(sz, info.mask, h))
            && info.length == sz.bth + ExtBytes(sz, info.mask) == PackedOffset(sz, info.mask, PAYLOAD)
  {
  }
  lemma UDLayout(sz: HeaderSizes, o: Operation, h: Header)
    requires UDInfo(sz, o).Some?
    ensures var info := UDInfo(sz, o).value;
            && (h in info.offset ==> info.offset[h] == PackedOffset(sz, info.mask, h))
            && info.length == sz.bth + ExtBytes(sz, info.mask) == PackedOffset(sz, info.mask, PAYLOAD)
  {
  }

  predicate Extended(h: Header)
  {
    h != BTH && h != PAYLOAD
  }

  /** In the packed layout the byte ranges of two different extended
      headers present do not overlap, and each lies after BTH and before
      the end of the headers. */
  lemma PackedRangesDisjoint(sz: HeaderSizes, mask: set<MaskBit>, h1: Header, h2: Header)
    requires Extended(h1) && Extended(h2) && h1 != h2
    requires Has(h1) in mask && Has(h2) in mask
    ensures PackedOffset(sz, mask, h1) + Size(sz, h1) <= PackedOffset(sz, mask, h2)
            || PackedOffset(sz, mask, h2) + Size(sz, h2) <= PackedOffset(sz, mask, h1)
  {
  }

  lemma PackedRangeWithin(sz: HeaderSizes, mask: set<MaskBit>, h: Header)
    requires Extended(h) && Has(h) in mask
    ensures sz.bth <= PackedOffset(sz, mask, h)
    ensures PackedOffset(sz, mask, h) + Size(sz, h) <= sz.bth + ExtBytes(sz, mask)
  {
  }

  /** For every entry, the ranges `[offset, offset + size)` of the extended
      headers of its mask are pairwise disjoint and lie within
      `[BTH size, length)`; with positive sizes, different headers start at
      different offsets. */
  lemma HeaderRangesDisjoint(sz: HeaderSizes, op: Opcode, h1: Header, h2: Header)
    requires Info(sz, op).Some?
    requires Extended(h1) && Has(h1) in Info(sz, op).value.mask
    requires Extended(h2) && Has(h2) in Info(sz, op).value.mask
    ensures var info := Info(sz, op).value;
            && h1 in info.offset
            && sz.bth <= info.offset[h1] && info.offset[h1] + Size(sz, h1) <= info.length
            && (h1 != h2 ==> h2 in info.offset &&
                             (info.offset[h1] + Size(sz, h1) <= info.offset[h2]
                              || info.offset[h2] + Size(sz, h2) <= info.offset[h1]))
            && (h1 != h2 && PositiveSizes(sz) ==> info.offset[h1] != info.offset[h2])
  {
    var info := Info(sz, op).value;
    LayoutIsPacked(sz, op, h1);
    LayoutIsPacked(sz, op, h2);
    PackedRangeWithin(sz, info.mask, h1);
    if h1 != h2 {
      PackedRangesDisjoint(sz, info.mask, h1, h2);
    }
  }

  // ---------------------------------------------------------------------
  // The work-request table

  /** Reads, reads with invalidation and the atomics are valid on RC only;
      LSO is valid nowhere; plain sends and sends with immediate data are
      valid on GSI, RC, UC and UD. */
  lemma WrRestrictions(wr: WrOpcode, q: QpType)
    ensures wr == RdmaRead || wr == RdmaReadWithInv || wr == AtomicCmpAndSwp || wr == AtomicFetchAndAdd
            ==> (WrMask(wr, q) != {} <==> q == Rc)
    ensures WrMask(Lso, q) == {}
    ensures wr == Send || wr == SendWithImm ==> (WrMask(wr, q) != {} <==> q == Gsi || q == Rc || q == Uc || q == Ud)
    ensures WrMask(wr, Smi) == {} && WrMask(wr, RawPacket) == {}
  {
  }
}
